/** Option handling of c2clat's main: the switch over the flags of the option
    string "b:e:ps:", the defaults it starts from and the two range clamps.
    The options arrive already recognised and converted to integers; the text
    scanning done by getopt and std::stoi is not part of this model. */
module Options {

  /** glibc's CPU_SETSIZE: the number of CPUs a cpu_set_t can describe. */
  const CpuSetSize: int := 1024

  /** Samples per CPU pair when -s is not given. */
  const DefaultSamples: int := 1000

  datatype Config = Config(nsamples: int, beginCore: int, endCore: int, plot: bool)

  /** The values main declares before it reads any option. */
  const Defaults: Config := Config(DefaultSamples, 0, CpuSetSize, false)

  /** One option as getopt reports it. */
  datatype Opt =
    | PlotFlag            // -p
    | Samples(n: int)     // -s n
    | BeginCore(n: int)   // -b n
    | EndCore(n: int)     // -e n
    | Unrecognized        // '?': an unknown flag or a flag missing its argument

  /** Either a value, or the usage text on the error stream and exit status 1. */
  datatype Result<T> = Ok(value: T) | Usage

  /** std::max(n, 0), the clamp applied to -b. */
  function ClampBegin(n: int): (r: int)
    ensures r >= 0
    ensures n >= 0 ==> r == n
    ensures n < 0 ==> r == 0
  {
    if n < 0 then 0 else n
  }

  /** std::min(n, CPU_SETSIZE), the clamp applied to -e. */
  function ClampEnd(n: int): (r: int)
    ensures r <= CpuSetSize
    ensures n <= CpuSetSize ==> r == n
    ensures n > CpuSetSize ==> r == CpuSetSize
  {
    if CpuSetSize < n then CpuSetSize else n
  }

  predicate Recognized(opts: seq<Opt>)
  {
    forall k :: 0 <= k < |opts| ==> !opts[k].Unrecognized?
  }

  /** The effect of one recognised option on the configuration. */
  function Apply(cfg: Config, o: Opt): Config
    requires !o.Unrecognized?
  {
    match o
    case PlotFlag => cfg.(plot := true)
    case Samples(n) => cfg.(nsamples := n)
    case BeginCore(n) => cfg.(beginCore := ClampBegin(n))
    case EndCore(n) => cfg.(endCore := ClampEnd(n))
  }

  /** The configuration after applying the options in order to the defaults. */
  function Configure(opts: seq<Opt>): Config
    requires Recognized(opts)
  {
    if opts == [] then Defaults
    else Apply(Configure(opts[..|opts| - 1]), opts[|opts| - 1])
  }

  /** The getopt loop: options are applied as they come; the first
      unrecognised one, or any operand left after the options, ends the
      program with the usage text. */
  method ParseOptions(opts: seq<Opt>, operands: nat) returns (r: Result<Config>)
    ensures r.Ok? <==> Recognized(opts) && operands == 0
    ensures r.Ok? ==> r.value == Configure(opts)
    ensures r.Ok? ==> 0 <= r.value.beginCore && r.value.endCore <= CpuSetSize
  {
    var cfg := Defaults;
    var k := 0;
    while k < |opts|
      invariant 0 <= k <= |opts|
      invariant Recognized(opts[..k])
      invariant cfg == Configure(opts[..k])
    {
      assert opts[..k + 1][..k] == opts[..k];
      match opts[k] {
        case PlotFlag => cfg := cfg.(plot := true);
        case Samples(n) => cfg := cfg.(nsamples := n);
        case BeginCore(n) => cfg := cfg.(beginCore := ClampBegin(n));
        case EndCore(n) => cfg := cfg.(endCore := ClampEnd(n));
        case Unrecognized => return Usage;
      }
      k := k + 1;
    }
    assert opts[..k] == opts;
    if operands != 0 {
      return Usage;
    }
    ConfigureBounds(opts);
    r := Ok(cfg);
  }

  /** Whatever the options, the scanned range starts at 0 or above and ends at
      CPU_SETSIZE or below. */
  lemma {:induction false} ConfigureBounds(opts: seq<Opt>)
    requires Recognized(opts)
    ensures 0 <= Configure(opts).beginCore
    ensures Configure(opts).endCore <= CpuSetSize
  {
    if opts != [] {
      ConfigureBounds(opts[..|opts| - 1]);
    }
  }

  /** Plot mode is on exactly when -p was given. */
  lemma {:induction false} ConfigurePlot(opts: seq<Opt>)
    requires Recognized(opts)
    ensures Configure(opts).plot <==> PlotFlag in opts
  {
    if opts != [] {
      var init := opts[..|opts| - 1];
      ConfigurePlot(init);
      assert opts == init + [opts[|opts| - 1]];
    }
  }

  /** A field no option touches keeps its default: 1000 samples, the range
      [0, CPU_SETSIZE]. */
  lemma {:induction false} ConfigureDefaults(opts: seq<Opt>)
    requires Recognized(opts)
    ensures (forall k :: 0 <= k < |opts| ==> !opts[k].Samples?) ==> Configure(opts).nsamples == DefaultSamples
    ensures (forall k :: 0 <= k < |opts| ==> !opts[k].BeginCore?) ==> Configure(opts).beginCore == 0
    ensures (forall k :: 0 <= k < |opts| ==> !opts[k].EndCore?) ==> Configure(opts).endCore == CpuSetSize
  {
    if opts != [] {
      var init := opts[..|opts| - 1];
      ConfigureDefaults(init);
      assert forall k :: 0 <= k < |init| ==> init[k] == opts[k];
    }
  }

  /** The last -b wins: the range starts at its clamped value, whatever came
      before it and whatever other flags follow it. */
  lemma {:induction false} ConfigureLastBegin(opts: seq<Opt>, k: nat)
    requires Recognized(opts)
    requires k < |opts| && opts[k].BeginCore?
    requires forall l :: k < l < |opts| ==> !opts[l].BeginCore?
    ensures Configure(opts).beginCore == ClampBegin(opts[k].n)
  {
    var init := opts[..|opts| - 1];
    if k < |opts| - 1 {
      ConfigureLastBegin(init, k);
    }
  }

  /** The last -e wins likewise. */
  lemma {:induction false} ConfigureLastEnd(opts: seq<Opt>, k: nat)
    requires Recognized(opts)
    requires k < |opts| && opts[k].EndCore?
    requires forall l :: k < l < |opts| ==> !opts[l].EndCore?
    ensures Configure(opts).endCore == ClampEnd(opts[k].n)
  {
    var init := opts[..|opts| - 1];
    if k < |opts| - 1 {
      ConfigureLastEnd(init, k);
    }
  }

  /** The last -s wins, unclamped: zero or a negative count is kept as given. */
  lemma {:induction false} ConfigureLastSamples(opts: seq<Opt>, k: nat)
    requires Recognized(opts)
    requires k < |opts| && opts[k].Samples?
    requires forall l :: k < l < |opts| ==> !opts[l].Samples?
    ensures Configure(opts).nsamples == opts[k].n
  {
    var init := opts[..|opts| - 1];
    if k < |opts| - 1 {
      ConfigureLastSamples(init, k);
    }
  }
}
