/** The whole run of main, in order: option handling, the affinity query,
    the CPU scan, the measuring loops and the table printing. */
module Session {
  import opened Options
  import opened Enumeration
  import opened Probe
  import opened Report
  import opened Matrix

  /** How main ends. Printed: the table is written to standard output and
      the exit status is 0. UsageExit: the usage text goes to the error
      stream and the exit status is 1. AffinityExit: sched_getaffinity
      failed, perror reports it and the exit status is 1. */
  datatype Exit = Printed(lines: seq<string>) | UsageExit | AffinityExit

  /** The affinity mask of the calling thread, or NoMask when the system
      call fails. */
  datatype Mask = Mask(cpus: set<int>) | NoMask

  /** The CPUs a successful run lists: the mask's ids in the configured range. */
  function Scanned(cfg: Config, mask: set<int>): seq<int>
  {
    Cpus(mask, cfg.beginCore, cfg.endCore)
  }

  /** Everything main writes for a successful run with configuration cfg. */
  function Transcript(cfg: Config, mask: set<int>, trip: Timer): seq<string>
  {
    Output(Scanned(cfg, mask), LatencyGrid(trip, cfg.nsamples, |Scanned(cfg, mask)|), cfg.plot)
  }

  method Run(opts: seq<Opt>, operands: nat, mask: Mask, trip: Timer) returns (r: Exit)
    requires Monotonic(trip)
    ensures r.UsageExit? <==> !(Recognized(opts) && operands == 0)
    ensures r.AffinityExit? <==> Recognized(opts) && operands == 0 && mask.NoMask?
    ensures r.Printed? ==> mask.Mask? && r.lines == Transcript(Configure(opts), mask.cpus, trip)
  {
    var parsed := ParseOptions(opts, operands);
    if parsed.Usage? {
      return UsageExit;
    }
    var cfg := parsed.value;
    if mask.NoMask? {
      return AffinityExit;
    }
    var cpus := EnumerateCpus(mask.cpus, cfg.beginCore, cfg.endCore);
    var table, visits := Assemble(|cpus|, trip, cfg.nsamples);
    AssembledGrid(table.data, |cpus|, trip, cfg.nsamples);
    var lines := table.Render(cpus, cfg.plot);
    r := Printed(lines);
  }

  /** A successful run prints a header and one line per CPU of the mask
      inside the configured range, framed by the gnuplot commands exactly
      when -p is given; the header lists the CPU ids. */
  lemma TranscriptShape(opts: seq<Opt>, mask: set<int>, trip: Timer)
    requires Recognized(opts)
    ensures |Transcript(Configure(opts), mask, trip)| ==
      (if PlotFlag in opts then |Preamble| + |Postamble| else 0) + 1 + |Scanned(Configure(opts), mask)|
    ensures Transcript(Configure(opts), mask, trip)[HeaderIndex(PlotFlag in opts)] == HeaderLine(Scanned(Configure(opts), mask))
  {
    var cfg := Configure(opts);
    var cpus := Scanned(cfg, mask);
    ConfigurePlot(opts);
    OutputLayout(cpus, LatencyGrid(trip, cfg.nsamples, |cpus|), cfg.plot);
  }

  /** Line i after the header reads back as the id of the i-th listed CPU
      followed by its latency to every listed CPU, in list order. */
  lemma TranscriptRow(cfg: Config, mask: set<int>, trip: Timer, i: nat)
    requires i < |Scanned(cfg, mask)|
    ensures Words(Transcript(cfg, mask, trip)[HeaderIndex(cfg.plot) + 1 + i]) ==
      [Decimal(Scanned(cfg, mask)[i])] + Numerals(LatencyGrid(trip, cfg.nsamples, |Scanned(cfg, mask)|)[i])
  {
    var cpus := Scanned(cfg, mask);
    var grid := LatencyGrid(trip, cfg.nsamples, |cpus|);
    OutputRowWords(cpus, grid, cfg.plot, i);
  }
}
