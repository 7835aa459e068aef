/** The latency matrix of main: a std::map from a pair of positions in the
    CPU list to a duration, filled by the nested measuring loops and read by
    the table renderer. */
module Matrix {
  import opened Probe
  import opened Report

  type Key = (int, int)

  /** data[{i, j}] read through std::map::operator[]: a missing entry reads
      as a value-initialised duration, zero. */
  function Lookup(d: map<Key, int>, i: int, j: int): int
  {
    if (i, j) in d then d[(i, j)] else 0
  }

  /** The one-way latency stored for the distinct positions a and b: the
      smaller position hosts the responder, the larger the timing thread. */
  function PairLatency(trip: Timer, nsamples: int, a: nat, b: nat): int
  {
    if a < b then OneWay(SampledRtt(trip, a, b, nsamples))
    else OneWay(SampledRtt(trip, b, a, nsamples))
  }

  /** The values the renderer prints: row i, column j of an n-by-n table. */
  function Grid(d: map<Key, int>, n: nat): (g: seq<seq<int>>)
    ensures |g| == n
    ensures forall i :: 0 <= i < n ==> g[i] == RowValues(d, i, n)
  {
    seq(n, i => RowValues(d, i, n))
  }

  /** Row i of the printed values: data[{i, j}] for j = 0 .. n - 1. */
  function RowValues(d: map<Key, int>, i: int, n: nat): (r: seq<int>)
    ensures |r| == n
    ensures forall j :: 0 <= j < n ==> r[j] == Lookup(d, i, j)
  {
    seq(n, j => Lookup(d, i, j))
  }

  // The order in which the measuring loops visit the pairs.

  /** (i, i + 1), ..., (i, j - 1): the pairs the inner loop has visited when
      it reaches j. */
  function RowPairs(i: nat, j: nat): seq<Key>
  {
    seq(if i < j then j - i - 1 else 0, k => (i, i + 1 + k))
  }

  lemma RowPairsNext(i: nat, j: nat)
    requires i < j
    ensures RowPairs(i, j + 1) == RowPairs(i, j) + [(i, j)]
  {
    var longer, front := RowPairs(i, j + 1), RowPairs(i, j);
    assert |longer| == |front| + 1;
    forall k | 0 <= k < |longer|
      ensures longer[k] == (front + [(i, j)])[k]
    {
    }
  }

  /** The pairs the outer loop has visited when it reaches i. */
  function PairsBefore(i: nat, n: nat): seq<Key>
  {
    if i == 0 then [] else PairsBefore(i - 1, n) + RowPairs(i - 1, n)
  }

  /** Every pair the measuring loops visit, in visiting order. */
  function Pairs(n: nat): seq<Key>
  {
    PairsBefore(n, n)
  }

  predicate LexLess(p: Key, q: Key)
  {
    p.0 < q.0 || (p.0 == q.0 && p.1 < q.1)
  }

  lemma RowPairsMembers(i: nat, j: nat)
    ensures forall p :: p in RowPairs(i, j) <==> p.0 == i && i < p.1 < j
    ensures forall a, b :: 0 <= a < b < |RowPairs(i, j)| ==> RowPairs(i, j)[a].1 < RowPairs(i, j)[b].1
  {
    var r := RowPairs(i, j);
    forall p: Key
      ensures p in r <==> p.0 == i && i < p.1 < j
    {
      if p.0 == i && i < p.1 < j {
        assert r[p.1 - i - 1] == p;
      }
    }
  }

  lemma {:induction false} PairsBeforeMembers(i: nat, n: nat)
    ensures forall p :: p in PairsBefore(i, n) <==> 0 <= p.0 < i && p.0 < p.1 < n
  {
    if i > 0 {
      PairsBeforeMembers(i - 1, n);
      RowPairsMembers(i - 1, n);
      assert PairsBefore(i, n) == PairsBefore(i - 1, n) + RowPairs(i - 1, n);
    }
  }

  lemma {:induction false} PairsBeforeOrdered(i: nat, n: nat)
    ensures forall a, b :: 0 <= a < b < |PairsBefore(i, n)| ==> LexLess(PairsBefore(i, n)[a], PairsBefore(i, n)[b])
  {
    if i > 0 {
      var s := PairsBefore(i - 1, n);
      var r := RowPairs(i - 1, n);
      var t := PairsBefore(i, n);
      assert t == s + r;
      PairsBeforeOrdered(i - 1, n);
      PairsBeforeMembers(i - 1, n);
      RowPairsMembers(i - 1, n);
      forall a, b | 0 <= a < b < |t|
        ensures LexLess(t[a], t[b])
      {
        if b < |s| {
          assert t[a] == s[a] && t[b] == s[b];
        } else if a < |s| {
          assert t[a] == s[a] && s[a] in s;
          assert t[b] == r[b - |s|] && r[b - |s|] in r;
        } else {
          assert t[a] == r[a - |s|] && t[b] == r[b - |s|];
        }
      }
    }
  }

  /** The loops visit exactly the pairs i < j of positions, each once, in
      strictly increasing lexicographic order. */
  lemma PairsVisitedOnce(n: nat)
    ensures forall p :: p in Pairs(n) <==> 0 <= p.0 < p.1 < n
    ensures forall a, b :: 0 <= a < b < |Pairs(n)| ==> LexLess(Pairs(n)[a], Pairs(n)[b])
    ensures forall a, b :: 0 <= a < b < |Pairs(n)| ==> Pairs(n)[a] != Pairs(n)[b]
  {
    PairsBeforeMembers(n, n);
    PairsBeforeOrdered(n, n);
  }

  /** A std::map<std::pair<int, int>, std::chrono::nanoseconds>, with the two
      operations main uses: assignment through operator[] and reading through
      operator[]. */
  class LatencyTable {
    var data: map<Key, int>

    constructor ()
      ensures data == map[]
    {
      data := map[];
    }

    /** data[{i, j}] = v. */
    method Store(i: int, j: int, v: int)
      modifies this
      ensures data == old(data)[(i, j) := v]
    {
      data := data[(i, j) := v];
    }

    /** data[{i, j}] as a value: a missing entry is inserted as zero first. */
    method At(i: int, j: int) returns (v: int)
      modifies this
      ensures v == Lookup(old(data), i, j)
      ensures data == if (i, j) in old(data) then old(data) else old(data)[(i, j) := 0]
      ensures data.Keys == old(data).Keys + {(i, j)}
    {
      if (i, j) !in data {
        data := data[(i, j) := 0];
      }
      v := data[(i, j)];
    }

    /** One row of the table: the id of the CPU at position i, then
        data[{i, j}] for every position j, each read through operator[]. */
    method RenderRow(cpus: seq<int>, i: nat) returns (row: string)
      requires i < |cpus|
      modifies this
      ensures row == RowLine(cpus[i], RowValues(old(data), i, |cpus|))
      ensures data.Keys == old(data).Keys + RowKeys(i, |cpus|)
      ensures forall a, b :: Lookup(data, a, b) == Lookup(old(data), a, b)
    {
      ghost var vals := RowValues(data, i, |cpus|);
      row := Field(cpus[i]);
      assert vals[..0] == [];
      for j := 0 to |cpus|
        invariant row == RowLine(cpus[i], vals[..j])
        invariant data.Keys == old(data).Keys + RowKeys(i, j)
        invariant forall a, b :: Lookup(data, a, b) == Lookup(old(data), a, b)
      {
        ghost var before := data.Keys;
        var v := At(i, j);
        RowKeysStep(old(data).Keys, before, data.Keys, i, j);
        assert v == vals[j];
        RowLineSnoc(cpus[i], vals, j);
        row := row + " " + Field(v);
      }
      assert vals[..|cpus|] == vals;
    }

    /** The row loop: one line per position, in order. */
    method RenderRows(cpus: seq<int>) returns (rows: seq<string>)
      modifies this
      ensures rows == Rows(cpus, Grid(old(data), |cpus|))
      ensures data.Keys == old(data).Keys + SquareKeys(|cpus|, |cpus|)
      ensures forall a, b :: Lookup(data, a, b) == Lookup(old(data), a, b)
    {
      ghost var grid := Grid(data, |cpus|);
      var n := |cpus|;
      rows := [];
      assert cpus[..0] == [] && grid[..0] == [];
      for i := 0 to n
        invariant rows == Rows(cpus[..i], grid[..i])
        invariant data.Keys == old(data).Keys + SquareKeys(i, n)
        invariant forall a, b :: Lookup(data, a, b) == Lookup(old(data), a, b)
      {
        SameRows(data, old(data), i, n);
        ghost var before := data.Keys;
        var row := RenderRow(cpus, i);
        KeysStep(old(data).Keys, before, data.Keys, i, n);
        RowsSnoc(cpus, grid, i);
        rows := rows + [row];
      }
      assert cpus[..n] == cpus && grid[..n] == grid;
    }

    /** The table printing: in plot mode the gnuplot preamble, then the
        header with the CPU ids and one row per position, then in plot mode
        the gnuplot postamble. Every read goes through operator[], so the
        diagonal entries, which the measuring loops never write, are
        inserted as zero and printed as zero. */
    method Render(cpus: seq<int>, plot: bool) returns (lines: seq<string>)
      modifies this
      ensures lines == Output(cpus, Grid(old(data), |cpus|), plot)
      ensures data.Keys == old(data).Keys + SquareKeys(|cpus|, |cpus|)
      ensures forall a, b :: Lookup(data, a, b) == Lookup(old(data), a, b)
    {
      lines := if plot then Preamble else [];
      var header := HeaderText(cpus);
      var rows := RenderRows(cpus);
      lines := lines + [header] + rows;
      if plot {
        lines := lines + Postamble;
      }
    }
  }

  lemma RowsSnoc(cpus: seq<int>, grid: seq<seq<int>>, i: nat)
    requires |grid| == |cpus| && i < |cpus|
    ensures Rows(cpus[..i + 1], grid[..i + 1]) == Rows(cpus[..i], grid[..i]) + [RowLine(cpus[i], grid[i])]
  {
    var longer := Rows(cpus[..i + 1], grid[..i + 1]);
    var front := Rows(cpus[..i], grid[..i]);
    var last := RowLine(cpus[i], grid[i]);
    forall k | 0 <= k < i + 1
      ensures longer[k] == (front + [last])[k]
    {
      if k < i {
        assert cpus[..i + 1][k] == cpus[..i][k] && grid[..i + 1][k] == grid[..i][k];
      }
    }
    assert longer == front + [last];
  }

  /** The keys (i, 0), ..., (i, j - 1). */
  function RowKeys(i: int, j: nat): set<Key>
  {
    set b | 0 <= b < j :: (i, b)
  }

  /** The keys (a, b) with a < i and b < n. */
  function SquareKeys(i: nat, n: nat): set<Key>
  {
    set a, b | 0 <= a < i && 0 <= b < n :: (a, b)
  }

  lemma RowKeysNext(i: int, j: nat)
    ensures RowKeys(i, j + 1) == RowKeys(i, j) + {(i, j)}
  {
  }

  lemma RowKeysStep(k0: set<Key>, before: set<Key>, after: set<Key>, i: int, j: nat)
    requires before == k0 + RowKeys(i, j)
    requires after == before + {(i, j)}
    ensures after == k0 + RowKeys(i, j + 1)
  {
    RowKeysNext(i, j);
  }

  lemma SquareKeysNext(i: nat, n: nat)
    ensures SquareKeys(i + 1, n) == SquareKeys(i, n) + RowKeys(i, n)
  {
  }

  lemma KeysStep(k0: set<Key>, before: set<Key>, after: set<Key>, i: nat, n: nat)
    requires before == k0 + SquareKeys(i, n)
    requires after == before + RowKeys(i, n)
    ensures after == k0 + SquareKeys(i + 1, n)
  {
    SquareKeysNext(i, n);
  }

  lemma CellsSnoc(vals: seq<int>, j: nat)
    requires j < |vals|
    ensures Cells(vals[..j + 1]) == Cells(vals[..j]) + " " + Field(vals[j])
  {
    assert vals[..j + 1][..j] == vals[..j];
  }

  lemma PrefixedCellsSnoc(p: string, vals: seq<int>, j: nat)
    requires j < |vals|
    ensures p + Cells(vals[..j + 1]) == p + Cells(vals[..j]) + " " + Field(vals[j])
  {
    CellsSnoc(vals, j);
    Regroup(p, Cells(vals[..j]), " ", Field(vals[j]));
  }

  lemma Regroup<T>(p: seq<T>, c: seq<T>, s: seq<T>, f: seq<T>)
    ensures p + (c + s + f) == p + c + s + f
  {
  }

  lemma RowLineSnoc(id: int, vals: seq<int>, j: nat)
    requires j < |vals|
    ensures RowLine(id, vals[..j + 1]) == RowLine(id, vals[..j]) + " " + Field(vals[j])
  {
    PrefixedCellsSnoc(Field(id), vals, j);
  }

  lemma HeaderLineSnoc(cpus: seq<int>, k: nat)
    requires k < |cpus|
    ensures HeaderLine(cpus[..k + 1]) == HeaderLine(cpus[..k]) + " " + Field(cpus[k])
  {
    PrefixedCellsSnoc(PadLeft("CPU", 4), cpus, k);
  }

  /** Maps that read alike through operator[] give the same rows. */
  lemma SameRows(d: map<Key, int>, e: map<Key, int>, i: nat, n: nat)
    requires forall a, b :: Lookup(d, a, b) == Lookup(e, a, b)
    ensures RowValues(d, i, n) == RowValues(e, i, n)
  {
  }

  /** The header loop: std::setw(4) << "CPU", then " " and the id of every CPU. */
  method HeaderText(cpus: seq<int>) returns (header: string)
    ensures header == HeaderLine(cpus)
  {
    header := PadLeft("CPU", 4);
    assert cpus[..0] == [];
    for k := 0 to |cpus|
      invariant header == HeaderLine(cpus[..k])
    {
      HeaderLineSnoc(cpus, k);
      header := header + " " + Field(cpus[k]);
    }
    assert cpus[..|cpus|] == cpus;
  }

  /** The measuring loops: for every pair of positions i < j, in order, the
      pair's one-way latency is stored under (i, j) and under (j, i).
      `visits` records the pairs in the order the loops reach them. */
  method Assemble(n: nat, trip: Timer, nsamples: int) returns (table: LatencyTable, ghost visits: seq<Key>)
    requires Monotonic(trip)
    ensures fresh(table)
    ensures visits == Pairs(n)
    ensures table.data.Keys == OffDiagonal(n)
    ensures forall a: nat, b: nat :: (a, b) in table.data ==> table.data[(a, b)] == PairLatency(trip, nsamples, a, b)
  {
    table := new LatencyTable();
    visits := [];
    WrittenStart(n);
    for i := 0 to n
      invariant visits == PairsBefore(i, n)
      invariant table.data.Keys == Written(n, i, 0)
      invariant Measures(table.data, trip, nsamples)
    {
      ghost var row := MeasureRow(table, n, i, trip, nsamples);
      visits := visits + row;
    }
    WrittenAll(n);
  }

  /** One pass of the inner loop: row i of the pairs (i, j), j > i, is
      measured and stored in both orientations. */
  method MeasureRow(table: LatencyTable, n: nat, i: nat, trip: Timer, nsamples: int) returns (ghost row: seq<Key>)
    requires Monotonic(trip)
    requires i < n
    requires table.data.Keys == Written(n, i, 0)
    requires Measures(table.data, trip, nsamples)
    modifies table
    ensures row == RowPairs(i, n)
    ensures table.data.Keys == Written(n, i + 1, 0)
    ensures Measures(table.data, trip, nsamples)
  {
    row := [];
    WrittenRowStart(n, i);
    for j := i + 1 to n
      invariant row == RowPairs(i, j)
      invariant table.data.Keys == Written(n, i, j)
      invariant Measures(table.data, trip, nsamples)
    {
      var rtt := MeasurePair(trip, i, j, nsamples);
      ghost var before := table.data;
      table.Store(i, j, OneWay(rtt));
      table.Store(j, i, OneWay(rtt));
      StoredPair(before, table.data, n, i, j, trip, nsamples);
      RowPairsNext(i, j);
      row := row + [(i, j)];
    }
    WrittenRowDone(n, i);
  }

  /** Every entry of d holds the one-way latency of its pair. */
  ghost predicate Measures(d: map<Key, int>, trip: Timer, nsamples: int)
  {
    forall a: nat, b: nat :: (a, b) in d ==> d[(a, b)] == PairLatency(trip, nsamples, a, b)
  }

  /** Storing a pair's latency under both orientations keeps every entry
      equal to the latency of its pair. */
  lemma StoredPair(d: map<Key, int>, e: map<Key, int>, n: nat, i: nat, j: nat, trip: Timer, nsamples: int)
    requires i < j < n
    requires d.Keys == Written(n, i, j)
    requires Measures(d, trip, nsamples)
    requires e == d[(i, j) := OneWay(SampledRtt(trip, i, j, nsamples))][(j, i) := OneWay(SampledRtt(trip, i, j, nsamples))]
    ensures e.Keys == Written(n, i, j + 1)
    ensures Measures(e, trip, nsamples)
  {
    WrittenStep(n, i, j, d.Keys, e.Keys);
  }

  /** The keys of an n-by-n table off its diagonal. */
  function OffDiagonal(n: nat): set<Key>
  {
    set a, b | 0 <= a < n && 0 <= b < n && a != b :: (a, b)
  }

  /** The keys written once the outer loop is at i and the inner loop at j:
      both orientations of every pair in an earlier row, and of the pairs of
      row i before column j. */
  function Written(n: nat, i: nat, j: nat): set<Key>
  {
    set a, b | 0 <= a < n && 0 <= b < n && Measured(a, b, i, j) :: (a, b)
  }

  predicate Measured(a: int, b: int, i: nat, j: nat)
  {
    (a < b && (a < i || (a == i && b < j))) || (b < a && (b < i || (b == i && a < j)))
  }

  lemma WrittenStart(n: nat)
    ensures Written(n, 0, 0) == {}
  {
  }

  lemma WrittenRowStart(n: nat, i: nat)
    ensures Written(n, i, i + 1) == Written(n, i, 0)
  {
  }

  lemma WrittenStep(n: nat, i: nat, j: nat, before: set<Key>, after: set<Key>)
    requires i < j < n
    requires before == Written(n, i, j)
    requires after == before + {(i, j)} + {(j, i)}
    ensures after == Written(n, i, j + 1)
  {
  }

  lemma WrittenRowDone(n: nat, i: nat)
    ensures Written(n, i, n) == Written(n, i + 1, 0)
  {
  }

  lemma WrittenAll(n: nat)
    ensures Written(n, n, 0) == OffDiagonal(n)
  {
  }

  /** The assembled matrix is symmetric, has no diagonal entry, and holds for
      each pair of distinct positions the one-way latency of that pair. */
  lemma AssembledShape(d: map<Key, int>, n: nat, trip: Timer, nsamples: int)
    requires d.Keys == OffDiagonal(n)
    requires forall a: nat, b: nat :: (a, b) in d ==> d[(a, b)] == PairLatency(trip, nsamples, a, b)
    ensures forall a, b :: (a, b) in d <==> 0 <= a < n && 0 <= b < n && a != b
    ensures forall a, b :: (a, b) in d ==> (b, a) in d && d[(a, b)] == d[(b, a)]
    ensures forall a :: (a, a) !in d
  {
    forall a, b
      ensures (a, b) in d <==> 0 <= a < n && 0 <= b < n && a != b
    {
      assert (a, b) in d <==> (a, b) in OffDiagonal(n);
    }
  }

  /** The table main prints for n CPUs: zero on the diagonal, which the
      measuring loops never write, and each pair's one-way latency elsewhere. */
  function LatencyGrid(trip: Timer, nsamples: int, n: nat): (g: seq<seq<int>>)
    ensures |g| == n && forall i :: 0 <= i < n ==> |g[i]| == n
  {
    seq(n, i requires 0 <= i < n =>
      seq(n, j requires 0 <= j < n => if i == j then 0 else PairLatency(trip, nsamples, i, j)))
  }

  /** Reading the assembled map through operator[] gives exactly the latency
      grid: the diagonal reads as the inserted zero. */
  lemma AssembledGrid(d: map<Key, int>, n: nat, trip: Timer, nsamples: int)
    requires d.Keys == OffDiagonal(n)
    requires Measures(d, trip, nsamples)
    ensures Grid(d, n) == LatencyGrid(trip, nsamples, n)
  {
    var g, h := Grid(d, n), LatencyGrid(trip, nsamples, n);
    forall i | 0 <= i < n
      ensures g[i] == h[i]
    {
      forall j | 0 <= j < n
        ensures g[i][j] == h[i][j]
      {
        assert (i, j) in d <==> (i, j) in OffDiagonal(n);
      }
    }
  }

  /** The latency grid is symmetric with a zero diagonal. */
  lemma LatencyGridSymmetric(trip: Timer, nsamples: int, n: nat)
    ensures forall i, j :: 0 <= i < n && 0 <= j < n ==>
      LatencyGrid(trip, nsamples, n)[i][j] == LatencyGrid(trip, nsamples, n)[j][i]
    ensures forall i :: 0 <= i < n ==> LatencyGrid(trip, nsamples, n)[i][i] == 0
  {
  }

  /** What a stored latency says about the samples of its pair: with no
      sample it is nanoseconds::max() / 200; otherwise it is the one-way
      figure of the fastest sample, non-negative and no larger than the
      one-way figure of any sample. */
  lemma PairLatencyBounds(trip: Timer, nsamples: int, a: nat, b: nat)
    requires Monotonic(trip)
    requires a < b
    ensures nsamples <= 0 ==> PairLatency(trip, nsamples, a, b) == NanosMax / 200
    ensures nsamples >= 1 ==> 0 <= PairLatency(trip, nsamples, a, b)
    ensures nsamples >= 1 ==> exists m :: 0 <= m < nsamples && PairLatency(trip, nsamples, a, b) == OneWay(trip(a, b, m))
    ensures forall m :: 0 <= m < nsamples ==> PairLatency(trip, nsamples, a, b) <= OneWay(trip(a, b, m))
  {
    var rtt := SampledRtt(trip, a, b, nsamples);
    SampledRttBounds(trip, a, b, nsamples);
    if nsamples >= 1 {
      SampledRttIsMinimum(trip, a, b, nsamples);
      var w :| 0 <= w < nsamples && rtt == trip(a, b, w);
      assert PairLatency(trip, nsamples, a, b) == OneWay(trip(a, b, w));
      forall m | 0 <= m < nsamples
        ensures PairLatency(trip, nsamples, a, b) <= OneWay(trip(a, b, m))
      {
        OneWayMonotone(rtt, trip(a, b, m));
      }
    }
  }
}
