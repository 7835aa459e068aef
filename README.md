# c2clat in Dafny

c2clat measures the one-way latency between every pair of CPU cores. For each
pair, a responder thread and a timing thread bounce a counter back and forth.
Around that handshake, `main` has a sequential skeleton, and this project
models it:

- **Options** (`options.dfy`). The getopt loop over `-p`, `-s n`, `-b n` and
  `-e n` starts from 1000 samples and the range [0, CPU_SETSIZE]. It clamps
  `-b` to at least 0 and `-e` to at most CPU_SETSIZE (1024 in glibc). An
  unknown flag or a leftover operand leads to the usage exit.
- **Enumeration** (`enumeration.dfy`). The scan of [begin_core, end_core]
  appends every id set in the affinity mask, with CPU_ISSET's own range check.
- **Probe** (`probe.dfy`). The controlling thread's sampling loop:
  - `rtt` starts at `nanoseconds::max()`;
  - it is lowered to each batch duration in turn;
  - the stored value is `rtt / 2 / 100` with C++ truncating division.
- **Matrix** (`matrix.dfy`). The `std::map` keyed by pairs of positions in
  the CPU list is the class `LatencyTable`:
  - its `Store` is assignment through `operator[]`;
  - its `At` is a read through `operator[]`, which inserts a zero for a
    missing key;
  - the nested measuring loops fill it, and the printing loops read it row by
    row.
- **Report** (`report.dfy`). The printed text as a list of lines:
  - integers in decimal;
  - `std::setw(4)` fields;
  - the header and row lines;
  - the gnuplot commands around the table in plot mode;
  - a whitespace tokenizer that reads a line back.
- **Session** (`session.dfy`). `main` from option handling to the last line
  printed.

The durations a real run observes are an input:

- `trip(i, j, m)` is `ts2 - ts1` of the m-th timed batch for the CPUs at
  positions i < j;
- `Monotonic(trip)` states what the steady clock guarantees: every duration
  lies between 0 and `nanoseconds::max()`.

The affinity mask is an input, as is the failure of `sched_getaffinity`.

## Model

| member | source | states |
|---|---|---|
| Options.ClampBegin | c2clat.cpp:52 | the result is the `-b` value when it is non-negative and 0 otherwise, so it is never negative |
| Options.ClampEnd | c2clat.cpp:55 | the result is the `-e` value when it is at most CPU_SETSIZE (1024) and 1024 otherwise, so it never exceeds 1024 |
| Options.ParseOptions | c2clat.cpp:37-69 | the loop succeeds exactly when every option is recognised and no operand is left. On success the configuration is the options applied in order to the defaults, with begin_core >= 0 and end_core <= CPU_SETSIZE |
| Options.ConfigureBounds | c2clat.cpp:51-56 | whatever the options, the scanned range starts at 0 or above and ends at CPU_SETSIZE or below |
| Options.ConfigurePlot | c2clat.cpp:45-47 | plot mode is on exactly when `-p` appears among the options |
| Options.ConfigureDefaults | c2clat.cpp:37-39 | with no `-s` there are 1000 samples; with no `-b` the range starts at 0; with no `-e` it ends at CPU_SETSIZE |
| Options.ConfigureLastBegin | c2clat.cpp:51-53 | the last `-b` decides begin_core, clamped, whatever other options come before or after it |
| Options.ConfigureLastEnd | c2clat.cpp:54-56 | the last `-e` decides end_core, clamped |
| Options.ConfigureLastSamples | c2clat.cpp:48-50 | the last `-s` decides nsamples, unclamped: zero and negative counts are kept |
| Enumeration.IsSet | c2clat.cpp:81 | CPU_ISSET never reports an id the mask lacks, and never reports an id outside [0, CPU_SETSIZE), whatever the mask holds |
| Enumeration.EnumerateCpus | c2clat.cpp:79-84 | the loop computes the scan function `Cpus`. The list is strictly ascending and holds exactly the ids k with begin_core <= k <= end_core that CPU_ISSET reports. It is empty when end_core < begin_core |
| Enumeration.CpusMembers | c2clat.cpp:80-83 | an id is listed if and only if it lies in the inclusive range and is set in the mask |
| Enumeration.CpusAscending | c2clat.cpp:80-83 | the listed ids are strictly ascending, so none appears twice |
| Enumeration.AscendingUnique | c2clat.cpp:79-84 | two strictly ascending lists with the same members are equal, so membership and order fully determine the enumeration |
| Enumeration.EnumerationExample | c2clat.cpp:79-84 | mask {2, 4, 7} over [0, 10] gives [2, 4, 7], and over [5, 10] gives [7] |
| Enumeration.EnumerationAtSetSize | c2clat.cpp:80-81 | id CPU_SETSIZE, the default end_core, is scanned but never listed, even when the mask would hold it |
| Probe.MeasurePair | c2clat.cpp:105-118 | after the sampling loop, rtt is nanoseconds::max() when nsamples <= 0. Otherwise it is one of the sample durations and no larger than any of them |
| Probe.SampledRttIsMinimum | c2clat.cpp:108-118 | with at least one sample, the running minimum equals some sample and is at most every sample |
| Probe.SampledRttBounds | c2clat.cpp:105-117 | rtt always stays between 0 and nanoseconds::max() |
| Probe.TruncDiv | c2clat.cpp:122 | duration division truncates toward zero, so the remainder has the sign of the dividend and is smaller than the divisor in magnitude |
| Probe.HalveThenDivide | c2clat.cpp:122 | halving and then dividing by 100, each truncating toward zero, equals one truncating division by 200, for negative counts too |
| Probe.OneWay | c2clat.cpp:122-123 | the stored value rtt / 2 / 100 is one truncating division of rtt by 200. For rtt >= 0 it is rtt / 200, non-negative and at most rtt |
| Probe.OneWayMonotone | c2clat.cpp:117-122 | a smaller rtt never stores a larger one-way latency |
| Report.Decimal | c2clat.cpp:138 | an integer is written as a decimal numeral, an optional minus sign followed by digits, with no space in it |
| Report.DecimalRoundTrip | c2clat.cpp:144 | reading a written numeral back gives the integer that was written |
| Report.NatDecimalRoundTrip | c2clat.cpp:138 | the digits of a non-negative number read back as that number |
| Report.NatDecimalShort | c2clat.cpp:138 | a number below 10^k is written with at most k digits |
| Report.NatDecimalLong | c2clat.cpp:138 | a number of at least 10^k is written with more than k digits |
| Report.PadLeft | c2clat.cpp:136 | `std::setw` pads on the left with spaces up to the width, and leaves a longer text as it is |
| Report.Field | c2clat.cpp:138 | `std::setw(4) << x` is the decimal numeral of x right-aligned with spaces on the left, at least four characters wide |
| Report.FieldWidth | c2clat.cpp:138 | every field is at least four characters wide, and exactly four if and only if the value lies in -999..9999 |
| Report.Output | c2clat.cpp:127-153 | everything printed is one header line and one line per CPU, plus the five preamble and two postamble lines exactly in plot mode |
| Report.OutputLayout | c2clat.cpp:127-153 | the output has, in order: the five preamble lines in plot mode, the header line, one row line per CPU with row i belonging to the i-th CPU, and the two postamble lines in plot mode |
| Report.HeaderStart | c2clat.cpp:136 | the header line starts with " CPU" |
| Report.FieldWords | c2clat.cpp:144 | a padded field reads back as the single numeral it holds |
| Report.CellsWords | c2clat.cpp:143-145 | the space-separated fields of a line read back as the numerals of the values, in order and one per value |
| Report.RowWords | c2clat.cpp:142-146 | a row line reads back as the CPU id followed by exactly one numeral per value |
| Report.OutputRowWords | c2clat.cpp:141-147 | printed row i, the line after the header and i earlier rows, reads back as the i-th CPU id followed by the values of grid row i |
| Report.HeaderWords | c2clat.cpp:136-140 | the header line reads back as "CPU" followed by the CPU ids |
| Report.TwoCoreHeader | c2clat.cpp:136-140 | with CPUs 0 and 1 the header is " CPU    0    1" |
| Matrix.LatencyTable.constructor | c2clat.cpp:86 | the map starts empty |
| Matrix.LatencyTable.Store | c2clat.cpp:122-123 | assignment through operator[] sets one key and leaves every other entry as it was |
| Matrix.LatencyTable.At | c2clat.cpp:144 | a read through operator[] returns the stored value, or zero for a missing key; the key is in the map afterwards with all stored values unchanged |
| Matrix.HeaderText | c2clat.cpp:136-140 | the header loop builds `HeaderLine(cpus)`: "CPU" in a four-wide field, then " " and a four-wide field per CPU id |
| Matrix.LatencyTable.RenderRow | c2clat.cpp:142-146 | the row loop builds the CPU id followed by data[{i, j}] for every j as operator[] reads it. It adds exactly the keys (i, j) to the map and changes no value that was readable before |
| Matrix.LatencyTable.RenderRows | c2clat.cpp:141-147 | the printed rows are the row lines of the table as it was before printing. Afterwards the key set holds the whole n-by-n square |
| Matrix.LatencyTable.Render | c2clat.cpp:127-153 | everything printed equals `Output` of the CPU list and of the table as read through operator[], in plot mode or not |
| Matrix.Assemble | c2clat.cpp:86-125 | the loops visit the pairs in the order `Pairs(n)`. The resulting key set is exactly the off-diagonal pairs of positions, and every entry holds the one-way latency of its pair |
| Matrix.MeasureRow | c2clat.cpp:89-124 | one pass of the inner loop visits (i, i+1) … (i, n-1) in order and writes both orientations of each |
| Matrix.StoredPair | c2clat.cpp:122-123 | writing a pair's latency under (i, j) and (j, i) adds exactly those two keys and keeps every entry equal to its pair's latency |
| Matrix.PairsVisitedOnce | c2clat.cpp:88-89 | the loops visit exactly the pairs i < j < n, in strictly increasing lexicographic order, hence each once |
| Matrix.AssembledShape | c2clat.cpp:122-123 | the assembled map has a key (a, b) iff a != b are both positions, has no diagonal key, and is symmetric |
| Matrix.AssembledGrid | c2clat.cpp:141-145 | reading the assembled map through operator[] gives the latency grid, with zero on the diagonal |
| Matrix.LatencyGridSymmetric | c2clat.cpp:122-123 | the printed grid is symmetric with a zero diagonal |
| Matrix.PairLatencyBounds | c2clat.cpp:105-123 | a stored latency is nanoseconds::max() / 200 with no samples. Otherwise it is non-negative, is the one-way figure of some sample and is at most the one-way figure of every sample |
| Session.Run | c2clat.cpp:35-156 | main exits with the usage text exactly when an option is unrecognised or an operand is left. It exits after the affinity query exactly when the options are fine and the query fails. Otherwise it prints `Transcript`: `Output` of the scanned CPUs and their latency grid |
| Session.TranscriptShape | c2clat.cpp:127-153 | a successful run prints the header and one line per listed CPU, framed by seven gnuplot lines exactly when `-p` was given |
| Session.TranscriptRow | c2clat.cpp:141-147 | printed row i reads back as the i-th listed CPU id followed by its latency to every listed CPU, in list order |

## Left out

- Threads, atomics and the spin-wait ping-pong (c2clat.cpp:91-103, 109-115, 120) are not modelled. Their observable effect is the duration of each timed batch, which `trip` supplies.
- Session.Run: pinning and thread creation are not modelled. `pinThread` exits with status 1 after `perror` when `sched_setaffinity` fails (c2clat.cpp:29-32), in the responder thread (c2clat.cpp:95) or in the timing thread (c2clat.cpp:107), and a `std::thread` that cannot be created (c2clat.cpp:94) ends in `std::terminate`. Either way nothing is printed. The `Printed` outcome of `Run` assumes that every pin and every thread creation succeeds.
- `steady_clock::now()` is not modelled. `Monotonic` states the only property the model relies on: every batch duration lies in [0, nanoseconds::max()].
- The timer is a function of positions and repetition, not of wall time. Two runs with the same inputs therefore give the same samples, which real hardware does not.
- `getopt` and `std::stoi` text scanning are not modelled; options arrive already recognised and converted to integers. The usage text and getopt's own diagnostics are not modelled: the usage path is the `UsageExit` outcome. A `std::stoi` that throws on a non-numeric or out-of-range argument is not modelled.
- `sched_getaffinity` becomes an input: a `Mask`, or `NoMask` when the call fails.
- Output is a list of lines; `std::endl` flushing and stream state are not modelled.
- `int` and `nanoseconds` are unbounded integers here. The model cannot produce a 32-bit or 64-bit overflow; none occurs in this program, since every stored value is at most nanoseconds::max() / 200.
- A count of zero or negative samples is accepted as the source accepts it: each off-diagonal entry is then nanoseconds::max() / 200 = 46116860184273879.
- In plot mode the table is preceded by four `set` lines (title, xlabel, ylabel, cblabel) and `$data << EOD` (c2clat.cpp:129-133).
