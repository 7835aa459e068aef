/** The text main writes to standard output, as a sequence of lines (each
    std::endl or "\n" ends one). Numbers are written in decimal as an
    ostream does by default, and std::setw(4) pads a field on the left with
    spaces to at least four characters. */
module Report {

  predicate IsDigit(c: char)
  {
    '0' <= c <= '9'
  }

  predicate AllDigits(s: string)
  {
    forall k :: 0 <= k < |s| ==> IsDigit(s[k])
  }

  /** A decimal numeral: digits, optionally after a minus sign. */
  predicate IsNumeral(s: string)
  {
    (1 <= |s| && AllDigits(s)) || (2 <= |s| && s[0] == '-' && AllDigits(s[1..]))
  }

  predicate NoSpace(s: string)
  {
    forall k :: 0 <= k < |s| ==> s[k] != ' '
  }

  function DigitChar(d: int): (c: char)
    requires 0 <= d < 10
    ensures IsDigit(c)
  {
    ('0' as int + d) as char
  }

  /** The digits of n, most significant first, without leading zeros. */
  function NatDecimal(n: nat): (s: string)
    ensures 1 <= |s| && AllDigits(s)
    ensures |s| > 1 ==> s[0] != '0'
  {
    if n < 10 then [DigitChar(n)] else NatDecimal(n / 10) + [DigitChar(n % 10)]
  }

  /** operator<< on an integer. */
  function Decimal(x: int): (s: string)
    ensures IsNumeral(s) && NoSpace(s)
  {
    if x < 0 then "-" + NatDecimal(-x) else NatDecimal(x)
  }

  /** The value of a string of digits. */
  function DigitsValue(s: string): nat
    requires AllDigits(s)
  {
    if s == [] then 0
    else 10 * DigitsValue(s[..|s| - 1]) + (s[|s| - 1] as int - '0' as int)
  }

  /** Reading a numeral back, as a consumer of the table does. */
  function ParseNumeral(s: string): int
    requires IsNumeral(s)
  {
    if s[0] == '-' then -(DigitsValue(s[1..]) as int) else DigitsValue(s)
  }

  lemma {:induction false} NatDecimalRoundTrip(n: nat)
    ensures DigitsValue(NatDecimal(n)) == n
  {
    if n >= 10 {
      var s := NatDecimal(n);
      NatDecimalRoundTrip(n / 10);
      assert s[..|s| - 1] == NatDecimal(n / 10);
    }
  }

  /** Every number written to the table reads back as itself. */
  lemma DecimalRoundTrip(x: int)
    ensures ParseNumeral(Decimal(x)) == x
  {
    if x < 0 {
      NatDecimalRoundTrip(-x);
      assert Decimal(x)[1..] == NatDecimal(-x);
    } else {
      NatDecimalRoundTrip(x);
    }
  }

  /** A number below 10^k is written with at most k digits. */
  lemma {:induction false} NatDecimalShort(n: nat, k: nat)
    requires 1 <= k && n < Pow10(k)
    ensures |NatDecimal(n)| <= k
  {
    if n >= 10 {
      NatDecimalShort(n / 10, k - 1);
    }
  }

  /** Numbers from 10^k up have more than k digits. */
  lemma {:induction false} NatDecimalLong(n: nat, k: nat)
    requires Pow10(k) <= n
    ensures |NatDecimal(n)| > k
  {
    if k > 0 {
      NatDecimalLong(n / 10, k - 1);
    }
  }

  function Pow10(k: nat): nat
  {
    if k == 0 then 1 else 10 * Pow10(k - 1)
  }

  function Spaces(k: nat): (s: string)
    ensures |s| == k
    ensures forall i :: 0 <= i < k ==> s[i] == ' '
  {
    seq(k, _ => ' ')
  }

  /** std::setw(width): right-justify s in a field of at least `width`
      characters by filling on the left with spaces. */
  function PadLeft(s: string, width: nat): (r: string)
    ensures |r| == if |s| < width then width else |s|
    ensures r == Spaces(|r| - |s|) + s
  {
    if |s| < width then Spaces(width - |s|) + s else s
  }

  /** r is s preceded by nothing but spaces. */
  predicate RightAligned(r: string, s: string)
  {
    |s| <= |r| && r == Spaces(|r| - |s|) + s
  }

  /** One table field: std::setw(4) << x. */
  function Field(x: int): (r: string)
    ensures 4 <= |r|
    ensures RightAligned(r, Decimal(x))
  {
    PadLeft(Decimal(x), 4)
  }

  /** A field is four characters wide exactly when the number has at most four
      characters, so the columns line up for values from -999 to 9999. */
  lemma FieldWidth(x: int)
    ensures 4 <= |Field(x)|
    ensures |Field(x)| == 4 <==> -999 <= x <= 9999
  {
    if 0 <= x <= 9999 {
      NatDecimalShort(x, 4);
    } else if -999 <= x < 0 {
      NatDecimalShort(-x, 3);
    } else if x > 9999 {
      NatDecimalLong(x, 4);
    } else {
      NatDecimalLong(-x, 3);
    }
  }

  /** The fields after the first, each preceded by one space:
      for each v, `" " << std::setw(4) << v`. */
  function Cells(vals: seq<int>): (r: string)
    ensures vals == [] ==> r == []
    ensures vals != [] ==> |r| > 0 && r[0] == ' '
  {
    if vals == [] then []
    else Cells(vals[..|vals| - 1]) + " " + Field(vals[|vals| - 1])
  }

  /** The header line: std::setw(4) << "CPU", then the CPU ids. */
  function HeaderLine(cpus: seq<int>): string
  {
    PadLeft("CPU", 4) + Cells(cpus)
  }

  /** One row: the CPU id, then its latency to every CPU in column order. */
  function RowLine(id: int, vals: seq<int>): string
  {
    Field(id) + Cells(vals)
  }

  /** One row per CPU, in the order of the list; grid[i] holds row i's values. */
  function Rows(cpus: seq<int>, grid: seq<seq<int>>): (r: seq<string>)
    requires |grid| == |cpus|
    ensures |r| == |cpus|
  {
    seq(|cpus|, i requires 0 <= i < |cpus| => RowLine(cpus[i], grid[i]))
  }

  /** The gnuplot commands written before the table in plot mode. */
  const Preamble: seq<string> := [
    "set title \"Inter-core one-way data latency between CPU cores\"",
    "set xlabel \"CPU\"",
    "set ylabel \"CPU\"",
    "set cblabel \"Latency (ns)\"",
    "$data << EOD"
  ]

  /** The gnuplot commands written after the table in plot mode. */
  const Postamble: seq<string> := [
    "EOD",
    "plot '$data' matrix rowheaders columnheaders using 2:1:3 with image"
  ]

  /** Everything main writes to standard output. */
  function Output(cpus: seq<int>, grid: seq<seq<int>>, plot: bool): (r: seq<string>)
    requires |grid| == |cpus|
    ensures |r| == |cpus| + 1 + (if plot then |Preamble| + |Postamble| else 0)
  {
    (if plot then Preamble else []) + [HeaderLine(cpus)] + Rows(cpus, grid)
      + (if plot then Postamble else [])
  }

  /** The index of the header line: it follows the preamble in plot mode. */
  function HeaderIndex(plot: bool): nat
  {
    if plot then |Preamble| else 0
  }

  /** The layout of the output: in plot mode the four `set` lines and the
      data-block opener, then one header line and one line per CPU, then in
      plot mode the data-block closer and the plot command. */
  lemma OutputLayout(cpus: seq<int>, grid: seq<seq<int>>, plot: bool)
    requires |grid| == |cpus|
    ensures |Output(cpus, grid, plot)| == HeaderIndex(plot) + 1 + |cpus| + (if plot then |Postamble| else 0)
    ensures plot ==> Output(cpus, grid, plot)[..|Preamble|] == Preamble
    ensures plot ==> Output(cpus, grid, plot)[HeaderIndex(plot) + 1 + |cpus|..] == Postamble
    ensures Output(cpus, grid, plot)[HeaderIndex(plot)] == HeaderLine(cpus)
    ensures forall i :: 0 <= i < |cpus| ==>
      Output(cpus, grid, plot)[HeaderIndex(plot) + 1 + i] == RowLine(cpus[i], grid[i])
  {
    var pre := if plot then Preamble else [];
    var post := if plot then Postamble else [];
    var rows := Rows(cpus, grid);
    var out := Output(cpus, grid, plot);
    assert out == pre + [HeaderLine(cpus)] + rows + post;
    assert HeaderIndex(plot) == |pre|;
    Layout(pre, HeaderLine(cpus), rows, post);
    forall i | 0 <= i < |cpus|
      ensures out[HeaderIndex(plot) + 1 + i] == RowLine(cpus[i], grid[i])
    {
      assert out[|pre| + 1 + i] == rows[i];
    }
  }

  /** Where each part of pre + [h] + rows + post sits in the whole. */
  lemma Layout<T>(pre: seq<T>, h: T, rows: seq<T>, post: seq<T>)
    ensures |pre + [h] + rows + post| == |pre| + 1 + |rows| + |post|
    ensures (pre + [h] + rows + post)[..|pre|] == pre
    ensures (pre + [h] + rows + post)[|pre| + 1 + |rows|..] == post
    ensures (pre + [h] + rows + post)[|pre|] == h
    ensures forall i :: 0 <= i < |rows| ==> (pre + [h] + rows + post)[|pre| + 1 + i] == rows[i]
  {
    var out := pre + [h] + rows + post;
    assert out[..|pre|] == pre;
    assert out[|pre| + 1 + |rows|..] == post;
  }

  /** The header starts with the right-justified label " CPU". */
  lemma HeaderStart(cpus: seq<int>)
    ensures |HeaderLine(cpus)| >= 4 && HeaderLine(cpus)[..4] == " CPU"
  {
    assert PadLeft("CPU", 4) == " CPU";
  }

  // Reading a line back as whitespace-separated words.

  /** The length of the run of non-space characters at the front of s. */
  function WordLength(s: string): (k: nat)
    ensures k <= |s|
    ensures forall i :: 0 <= i < k ==> s[i] != ' '
    ensures k < |s| ==> s[k] == ' '
  {
    if s == [] || s[0] == ' ' then 0 else 1 + WordLength(s[1..])
  }

  /** The words of a line, as a reader that skips runs of spaces sees them. */
  function Words(s: string): seq<string>
    decreases |s|
  {
    if s == [] then []
    else if s[0] == ' ' then Words(s[1..])
    else [s[..WordLength(s)]] + Words(s[WordLength(s)..])
  }

  /** The numerals of the values, in order. */
  function Numerals(vals: seq<int>): (r: seq<string>)
    ensures |r| == |vals|
  {
    if vals == [] then [] else Numerals(vals[..|vals| - 1]) + [Decimal(vals[|vals| - 1])]
  }

  lemma {:induction false} WordLengthAppend(a: string, b: string)
    requires b == [] || b[0] == ' '
    ensures WordLength(a + b) == WordLength(a)
    decreases |a|
  {
    if a != [] && a[0] != ' ' {
      assert (a + b)[1..] == a[1..] + b;
      WordLengthAppend(a[1..], b);
    }
  }

  /** Splitting is compositional where the second part starts with a space. */
  lemma {:induction false} WordsAppend(a: string, b: string)
    requires b == [] || b[0] == ' '
    ensures Words(a + b) == Words(a) + Words(b)
    decreases |a|
  {
    if a == [] {
      assert a + b == b;
    } else if a[0] == ' ' {
      assert (a + b)[1..] == a[1..] + b;
      WordsAppend(a[1..], b);
    } else {
      var k := WordLength(a);
      WordLengthAppend(a, b);
      assert (a + b)[..k] == a[..k];
      assert (a + b)[k..] == a[k..] + b;
      WordsAppend(a[k..], b);
    }
  }

  lemma {:induction false} WordsPadded(k: nat, w: string)
    requires 1 <= |w| && NoSpace(w)
    ensures Words(Spaces(k) + w) == [w]
  {
    if k == 0 {
      assert Spaces(k) + w == w;
      assert w[0] != ' ';
      assert WordLength(w) == |w|;
      assert w[..|w|] == w;
      assert w[|w|..] == [];
      assert Words(w) == [w] + Words([]);
    } else {
      assert (Spaces(k) + w)[1..] == Spaces(k - 1) + w;
      WordsPadded(k - 1, w);
    }
  }

  /** A field reads back as the one numeral it holds. */
  lemma FieldWords(x: int)
    ensures Words(Field(x)) == [Decimal(x)]
  {
    var d := Decimal(x);
    WordsPadded(|Field(x)| - |d|, d);
  }

  /** A separator and a field read back as the field's numeral. */
  lemma SpacedFieldWords(x: int)
    ensures Words(" " + Field(x)) == [Decimal(x)]
  {
    var f := Field(x);
    var t := " " + f;
    assert t[0] == ' ' && t[1..] == f;
    assert Words(t) == Words(f);
    FieldWords(x);
  }

  lemma {:induction false} CellsWords(vals: seq<int>)
    ensures Words(Cells(vals)) == Numerals(vals)
  {
    if vals != [] {
      var init := vals[..|vals| - 1];
      var last := vals[|vals| - 1];
      var c := Cells(init);
      var tail := " " + Field(last);
      assert Cells(vals) == c + tail;
      CellsWords(init);
      WordsAppend(c, tail);
      SpacedFieldWords(last);
      assert Numerals(vals) == Numerals(init) + [Decimal(last)];
    } else {
      assert Cells(vals) == [];
    }
  }

  /** Each row reads back as its CPU id followed by exactly one value per
      column: the whitespace-separated words are the numerals of the values. */
  lemma RowWords(id: int, vals: seq<int>)
    ensures Words(RowLine(id, vals)) == [Decimal(id)] + Numerals(vals)
  {
    WordsAppend(Field(id), Cells(vals));
    FieldWords(id);
    CellsWords(vals);
  }

  /** Printed row i reads back as the i-th CPU id followed by its row of
      the grid. */
  lemma OutputRowWords(cpus: seq<int>, grid: seq<seq<int>>, plot: bool, i: nat)
    requires |grid| == |cpus| && i < |cpus|
    ensures HeaderIndex(plot) + 1 + i < |Output(cpus, grid, plot)|
    ensures Words(Output(cpus, grid, plot)[HeaderIndex(plot) + 1 + i]) == [Decimal(cpus[i])] + Numerals(grid[i])
  {
    OutputLayout(cpus, grid, plot);
    RowWords(cpus[i], grid[i]);
  }

  /** The header reads back as "CPU" followed by the CPU ids. */
  lemma HeaderWords(cpus: seq<int>)
    ensures Words(HeaderLine(cpus)) == ["CPU"] + Numerals(cpus)
  {
    WordsAppend(PadLeft("CPU", 4), Cells(cpus));
    WordsPadded(1, "CPU");
    CellsWords(cpus);
  }

  /** With CPUs 0 and 1 the header is " CPU    0    1". */
  lemma TwoCoreHeader()
    ensures HeaderLine([0, 1]) == " CPU    0    1"
  {
  }
}
