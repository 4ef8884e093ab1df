/**
 * Reading back what `operator<<` writes for a map. Every cell is written
 * right-aligned in a field of four characters with nothing between fields,
 * so the save reads back only when each cell fits in three characters
 * (-99..999); and the section number is written as `unsigned` but read as
 * `int`, so at most 2^31 layers read back.
 */
module MapRoundTrip {
  import opened Wrappers
  import opened Numerals
  import opened InputStreams
  import opened MapLayers
  import opened Maps
  import opened MapBuilderStreams

  /**
   * t holds s at p, character by character. (Stated by recursion, so that
   * the solver only unfolds it a step or two where it is used.)
   */
  predicate Holds(t: string, p: nat, s: string)
    decreases |s|
  {
    if s == [] then p <= |t| else p < |t| && t[p] == s[0] && Holds(t, p + 1, s[1..])
  }

  /** Every cell of the grid fits in a field of four with a space to spare. */
  predicate ShortCells(g: Grid) {
    forall i | 0 <= i < |g.cells| :: -99 <= g.cells[i] <= 999
  }

  /** Every layer of the map has the map's extents and short cells. */
  predicate Saveable(m: MapValue) {
    |m.layers| == m.height && m.length <= UINT_MAX && m.width <= UINT_MAX && m.height <= INT_MAX + 1 &&
    forall i | 0 <= i < |m.layers| ::
      WellFormed(m.layers[i]) && m.layers[i].length == m.length && m.layers[i].width == m.width &&
      ShortCells(m.layers[i])
  }

  lemma {:induction false} HoldsChar(t: string, p: nat, s: string, i: nat)
    requires Holds(t, p, s) && i < |s|
    ensures p + i < |t| && t[p + i] == s[i]
    decreases i
  {
    if i > 0 {
      HoldsChar(t, p + 1, s[1..], i - 1);
    }
  }

  lemma {:induction false} HoldsEnd(t: string, p: nat, s: string)
    requires Holds(t, p, s)
    ensures p + |s| <= |t|
    decreases |s|
  {
    if s != [] {
      HoldsEnd(t, p + 1, s[1..]);
    }
  }

  /** Holds says the same as slicing. */
  lemma HoldsText(t: string, p: nat, s: string)
    requires Holds(t, p, s)
    ensures p + |s| <= |t| && t[p..p + |s|] == s
  {
    HoldsEnd(t, p, s);
    forall i | 0 <= i < |s|
      ensures t[p..p + |s|][i] == s[i]
    {
      HoldsChar(t, p, s, i);
    }
  }

  lemma {:induction false} HoldsConcat(t: string, p: nat, a: string, b: string)
    requires Holds(t, p, a + b)
    ensures Holds(t, p, a) && Holds(t, p + |a|, b)
    decreases |a|
  {
    if a == [] {
      assert a + b == b;
      HoldsEnd(t, p, b);
    } else {
      assert (a + b)[1..] == a[1..] + b;
      HoldsConcat(t, p + 1, a[1..], b);
    }
  }

  lemma HoldsConcatAt(t: string, p: nat, q: nat, a: string, b: string)
    requires Holds(t, p, a + b) && q == p + |a|
    ensures Holds(t, p, a) && Holds(t, q, b)
  {
    HoldsConcat(t, p, a, b);
  }

  /** A text known to be a + b, held at p, split at q. */
  lemma HoldsSplit(t: string, p: nat, q: nat, s: string, a: string, b: string)
    requires Holds(t, p, s) && s == a + b && q == p + |a|
    ensures Holds(t, p, a) && Holds(t, q, b) && |s| == |a| + |b|
  {
    HoldsConcatAt(t, p, q, a, b);
  }

  lemma TakeNext<T>(s: seq<T>, j: nat, k: nat)
    requires j + 1 == k <= |s|
    ensures s[..j] + [s[j]] == s[..k]
  {
  }

  /** A line held at p: its text, then the newline. */
  lemma HoldsLine(t: string, p: nat, a: string, n: nat)
    requires Holds(t, p, a + "\n") && |a| == n
    ensures Holds(t, p, a) && p + n < |t| && t[p + n] == '\n'
  {
    HoldsConcat(t, p, a, "\n");
    HoldsChar(t, p + n, "\n", 0);
  }

  /** A numeral's text starts with '-' or a digit, never with whitespace. */
  lemma IntTextStart(v: int)
    ensures |IntText(v)| >= 1 && !IsSpace(IntText(v)[0])
  {
    if v < 0 {
      NatTextDigits(-v);
    } else {
      NatTextDigits(v);
      assert IsDigit(NatText(v)[0]);
    }
  }

  /** A value in -99..999 is written in at most three characters. */
  lemma IntTextShort(v: int)
    requires -99 <= v <= 999
    ensures |IntText(v)| <= 3
  {
    if v < 0 {
      NatTextShort(-v, 2);
    } else {
      NatTextShort(v, 3);
    }
  }

  lemma {:induction false} NatTextShort(n: nat, k: nat)
    requires 1 <= k <= 3
    requires k == 1 ==> n < 10
    requires k == 2 ==> n < 100
    requires k == 3 ==> n < 1000
    ensures |NatText(n)| <= k
    decreases k
  {
    if n >= 10 {
      NatTextShort(n / 10, k - 1);
    }
  }

  /** The field `setw(4)` writes for a short cell: four characters, the first a space. */
  lemma FieldShape(v: int)
    requires -99 <= v <= 999
    ensures |Field(v)| == 4 && Field(v)[0] == ' '
    ensures Field(v) == Spaces(4 - |IntText(v)|) + IntText(v)
  {
    IntTextShort(v);
  }

  /** The sentry of `>> number` discards whitespace one character at a time. */
  lemma {:induction false} SkipToNumeral(t: string, p: nat, k: nat)
    requires p + k <= |t| && forall i | p <= i < p + k :: IsSpace(t[i])
    ensures NumeralAt(t, Cursor(p, false)) == NumeralAt(t, Cursor(p + k, false))
    decreases k
  {
    if k > 0 {
      SkipToNumeral(t, p + 1, k - 1);
    }
  }

  /** The numeral written for v, after k whitespace characters and before a non-digit. */
  lemma NumeralOfText(t: string, p: nat, k: nat, v: int)
    requires p + k <= |t| && forall i | p <= i < p + k :: IsSpace(t[i])
    requires Holds(t, p + k, IntText(v)) && p + k + |IntText(v)| < |t| && !IsDigit(t[p + k + |IntText(v)|])
    ensures NumeralAt(t, Cursor(p, false)).Ok?
    ensures Value(NumeralAt(t, Cursor(p, false)).value) == v
    ensures NumeralAt(t, Cursor(p, false)).value.end == p + k + |IntText(v)|
  {
    SkipToNumeral(t, p, k);
    IntTextStart(v);
    HoldsChar(t, p + k, IntText(v), 0);
    HoldsText(t, p + k, IntText(v));
    ScanIntText(t, p + k, v);
  }

  /** `>> int` reads back an `int` written with `<<`. */
  lemma ReadIntText(t: string, p: nat, k: nat, v: i32)
    requires p + k <= |t| && forall i | p <= i < p + k :: IsSpace(t[i])
    requires Holds(t, p + k, IntText(v)) && p + k + |IntText(v)| < |t| && !IsDigit(t[p + k + |IntText(v)|])
    ensures IntAt(t, Cursor(p, false)) == Ok(Read(v, Cursor(p + k + |IntText(v)|, false)))
  {
    NumeralOfText(t, p, k, v);
  }

  /** `>> unsigned` reads back an `unsigned` written with `<<`. */
  lemma ReadNatText(t: string, p: nat, k: nat, n: u32)
    requires p + k <= |t| && forall i | p <= i < p + k :: IsSpace(t[i])
    requires Holds(t, p + k, NatText(n)) && p + k + |NatText(n)| < |t| && !IsDigit(t[p + k + |NatText(n)|])
    ensures UnsignedAt(t, Cursor(p, false)) == Ok(Read(n, Cursor(p + k + |NatText(n)|, false)))
  {
    NumeralOfText(t, p, k, n);
    NatTextDigits(n);
    HoldsChar(t, p + k, NatText(n), 0);
    assert IsDigit(t[p + k]);
  }

  /**
   * `>> int` reads back a short cell written with `setw(4)`, when a
   * non-digit follows the field at e.
   */
  lemma ReadField(t: string, q: nat, e: nat, v: i32)
    requires -99 <= v <= 999 && Holds(t, q, Field(v))
    requires e == q + 4 && e < |t| && !IsDigit(t[e])
    ensures IntAt(t, Cursor(q, false)) == Ok(Read(v, Cursor(e, false)))
  {
    FieldShape(v);
    var k := 4 - |IntText(v)|;
    HoldsConcatAt(t, q, q + k, Spaces(k), IntText(v));
    forall i | q <= i < q + k
      ensures IsSpace(t[i])
    {
      HoldsChar(t, q, Field(v), i - q);
    }
    ReadIntText(t, q, k, v);
  }

  /** The leading space of a short cell's field. */
  lemma FieldLeadAt(t: string, q: nat, v: int)
    requires -99 <= v <= 999 && Holds(t, q, Field(v))
    ensures q < |t| && t[q] == ' '
  {
    FieldShape(v);
    HoldsChar(t, q, Field(v), 0);
  }

  /** Every value of the run fits in a field of four with a space to spare. */
  predicate Short(cs: seq<int>) {
    forall i | 0 <= i < |cs| :: -99 <= cs[i] <= 999
  }

  /** The first n of a run of texts, run together. */
  function Join(fs: seq<string>, n: nat): string
    requires n <= |fs|
  {
    if n == 0 then "" else Join(fs, n - 1) + fs[n - 1]
  }

  /** Every text of the run is four characters wide and starts with a space. */
  predicate Quads(fs: seq<string>) {
    forall i | 0 <= i < |fs| :: |fs[i]| == 4 && fs[i][0] == ' '
  }

  /** The fields written for a run of values, one per value. */
  function Fields(cs: seq<int>): (fs: seq<string>)
    ensures |fs| == |cs|
    ensures forall i | 0 <= i < |cs| :: fs[i] == Field(cs[i])
  {
    seq(|cs|, i requires 0 <= i < |cs| => Field(cs[i]))
  }

  lemma FieldsQuads(cs: seq<int>)
    requires Short(cs)
    ensures Quads(Fields(cs))
  {
    forall i | 0 <= i < |cs|
      ensures |Fields(cs)[i]| == 4 && Fields(cs)[i][0] == ' '
    {
      FieldShape(cs[i]);
    }
  }

  lemma {:induction false} JoinLength(fs: seq<string>, n: nat)
    requires Quads(fs) && n <= |fs|
    ensures |Join(fs, n)| == 4 * n
    decreases n
  {
    if n > 0 {
      var front, f := Join(fs, n - 1), fs[n - 1];
      JoinLength(fs, n - 1);
      assert Join(fs, n) == front + f;
      assert |front + f| == |front| + |f|;
    }
  }

  /** Text m of a run of four-character texts is written at 4m. */
  lemma {:induction false} JoinAt(t: string, p: nat, fs: seq<string>, n: nat, m: nat)
    requires Quads(fs) && m < n <= |fs| && Holds(t, p, Join(fs, n))
    ensures Holds(t, p + 4 * m, fs[m])
    decreases n
  {
    var front, f := Join(fs, n - 1), fs[n - 1];
    assert Join(fs, n) == front + f;
    JoinLength(fs, n - 1);
    HoldsConcatAt(t, p, p + 4 * (n - 1), front, f);
    if m < n - 1 {
      JoinAt(t, p, fs, n - 1, m);
    }
  }

  /** Reading the first n numbers of a run: the first n - 1, then the n-th. */
  lemma CellsStep(t: string, p: nat, cs: seq<int>, n: nat)
    requires 0 < n <= |cs| && p + 4 * n <= |t| && -99 <= cs[n - 1] <= 999
    requires CellsAt(t, Cursor(p, false), n - 1) == Ok(Read(cs[..n - 1], Cursor(p + 4 * (n - 1), false)))
    requires IntAt(t, Cursor(p + 4 * (n - 1), false)) == Ok(Read(cs[n - 1] as i32, Cursor(p + 4 * n, false)))
    ensures CellsAt(t, Cursor(p, false), n) == Ok(Read(cs[..n], Cursor(p + 4 * n, false)))
  {
    assert cs[..n - 1] + [cs[n - 1]] == cs[..n];
  }

  /** Numbers that each read back in turn read back together. */
  lemma {:induction false} CellsFromReads(t: string, p: nat, cs: seq<int>, n: nat)
    requires Short(cs) && n <= |cs| && p + 4 * n <= |t|
    requires forall m | 0 <= m < n :: IntAt(t, Cursor(p + 4 * m, false)) == Ok(Read(cs[m] as i32, Cursor(p + 4 * (m + 1), false)))
    ensures CellsAt(t, Cursor(p, false), n) == Ok(Read(cs[..n], Cursor(p + 4 * n, false)))
    decreases n
  {
    if n == 0 {
      assert CellsAt(t, Cursor(p, false), 0) == Ok(Read([], Cursor(p, false)));
    } else {
      CellsFromReads(t, p, cs, n - 1);
      assert IntAt(t, Cursor(p + 4 * (n - 1), false)) == Ok(Read(cs[n - 1] as i32, Cursor(p + 4 * n, false)));
      CellsStep(t, p, cs, n);
    }
  }

  /** What follows text m of a run, when a non-digit follows the whole run, is not a digit. */
  lemma FieldFollow(t: string, p: nat, fs: seq<string>, n: nat, m: nat)
    requires Quads(fs) && m < n <= |fs| && Holds(t, p, Join(fs, n))
    requires p + 4 * n < |t| && !IsDigit(t[p + 4 * n])
    ensures p + 4 * (m + 1) < |t| && !IsDigit(t[p + 4 * (m + 1)])
  {
    if m + 1 < n {
      JoinAt(t, p, fs, n, m + 1);
      HoldsChar(t, p + 4 * (m + 1), fs[m + 1], 0);
    }
  }

  /** Field m of a run reads back as its value. */
  lemma FieldReads(t: string, p: nat, cs: seq<int>, n: nat, m: nat)
    requires Short(cs) && m < n <= |cs| && Holds(t, p, Join(Fields(cs), n))
    requires p + 4 * n < |t| && !IsDigit(t[p + 4 * n])
    ensures IntAt(t, Cursor(p + 4 * m, false)) == Ok(Read(cs[m] as i32, Cursor(p + 4 * (m + 1), false)))
  {
    var fs := Fields(cs);
    FieldsQuads(cs);
    JoinAt(t, p, fs, n, m);
    FieldFollow(t, p, fs, n, m);
    ReadField(t, p + 4 * m, p + 4 * (m + 1), cs[m]);
  }

  /**
   * The numbers written for the first n of a run of short values read back
   * as those values, when a non-digit follows them.
   */
  lemma ReadFields(t: string, p: nat, cs: seq<int>, n: nat)
    requires Short(cs) && n <= |cs| && Holds(t, p, Join(Fields(cs), n))
    requires p + 4 * n < |t| && !IsDigit(t[p + 4 * n])
    ensures CellsAt(t, Cursor(p, false), n) == Ok(Read(cs[..n], Cursor(p + 4 * n, false)))
  {
    forall m | 0 <= m < n
      ensures IntAt(t, Cursor(p + 4 * m, false)) == Ok(Read(cs[m] as i32, Cursor(p + 4 * (m + 1), false)))
    {
      FieldReads(t, p, cs, n, m);
    }
    CellsFromReads(t, p, cs, n);
  }

  /** The numbers written for a whole run of short values read back as the run. */
  lemma ReadRun(t: string, p: nat, e: nat, cs: seq<int>, n: nat)
    requires Short(cs) && n == |cs| && e == p + 4 * n
    requires Holds(t, p, Join(Fields(cs), n)) && e < |t| && !IsDigit(t[e])
    ensures CellsAt(t, Cursor(p, false), n) == Ok(Read(cs, Cursor(e, false)))
  {
    ReadFields(t, p, cs, n);
    TakeAll(cs, n);
  }

  lemma TakeAll<T>(s: seq<T>, n: nat)
    requires n == |s|
    ensures s[..n] == s
  {
  }

  /** The cells stored for row y, in column order. */
  ghost function Row(g: Grid, y: nat): (cs: seq<int>)
    requires WellFormed(g) && y < g.width
    ensures |cs| == g.length
  {
    var b := RowStart(g.length, g.width, y);
    g.cells[b..b + g.length]
  }

  lemma CellInRow(g: Grid, x: nat, y: nat)
    requires WellFormed(g) && x < g.length && y < g.width
    ensures Cell(g, x, y) == Row(g, y)[x]
  {
    assert Offset(g.length, g.width, x, y) == Ok(y * g.length + x);
  }

  /** Row y is written as the fields of the cells stored for it. */
  lemma {:induction false} RowTextIsFields(g: Grid, y: nat, n: nat)
    requires WellFormed(g) && y < g.width && n <= g.length
    ensures RowText(g, y, n) == Join(Fields(Row(g, y)), n)
    decreases n
  {
    if n > 0 {
      var fs := Fields(Row(g, y));
      RowTextIsFields(g, y, n - 1);
      CellInRow(g, n - 1, y);
      assert RowText(g, y, n) == RowText(g, y, n - 1) + Field(Cell(g, n - 1, y));
      assert Join(fs, n) == Join(fs, n - 1) + fs[n - 1];
    }
  }

  lemma RowShort(g: Grid, y: nat)
    requires WellFormed(g) && ShortCells(g) && y < g.width
    ensures Short(Row(g, y))
  {
    var b := RowStart(g.length, g.width, y);
    forall x | 0 <= x < g.length
      ensures -99 <= Row(g, y)[x] <= 999
    {
      assert Row(g, y)[x] == g.cells[b + x];
    }
  }

  /** A written row is the fields of its cells, four characters each, and then a newline. */
  lemma RowLayout(t: string, p: nat, e: nat, g: Grid, y: nat, r: string)
    requires WellFormed(g) && ShortCells(g) && y < g.width && e == p + 4 * g.length
    requires Holds(t, p, r) && r == RowText(g, y, g.length) + "\n"
    ensures |r| == 4 * g.length + 1
    ensures Short(Row(g, y)) && g.length == |Row(g, y)|
    ensures Holds(t, p, Join(Fields(Row(g, y)), g.length))
    ensures e < |t| && !IsDigit(t[e])
  {
    var row := Row(g, y);
    var fs := Fields(row);
    var text := Join(fs, g.length);
    RowTextIsFields(g, y, g.length);
    RowShort(g, y);
    FieldsQuads(row);
    JoinLength(fs, g.length);
    assert r == text + "\n";
    HoldsLine(t, p, text, 4 * g.length);
    assert t[e] == '\n';
  }

  /** A written row and its newline read back as the row's cells, the stream standing on the newline. */
  lemma ReadRow(t: string, p: nat, e: nat, g: Grid, y: nat, r: string)
    requires WellFormed(g) && ShortCells(g) && y < g.width && e == p + 4 * g.length
    requires Holds(t, p, r) && r == RowText(g, y, g.length) + "\n"
    ensures CellsAt(t, Cursor(p, false), g.length) == Ok(Read(Row(g, y), Cursor(e, false)))
  {
    RowLayout(t, p, e, g, y, r);
    ReadRun(t, p, e, Row(g, y), g.length);
  }

  /** Reading k rows: the first j = k - 1, then the numbers of the k-th, then its newline. */
  lemma RowsStep(t: string, p: nat, length: nat, j: nat, prev: seq<int>, q: nat, row: seq<int>, e: nat, f: nat)
    requires p <= q <= e < |t| && f == e + 1
    requires RowsAt(t, Cursor(p, false), length, j) == Ok(Read(prev, Cursor(q, false)))
    requires CellsAt(t, Cursor(q, false), length) == Ok(Read(row, Cursor(e, false)))
    ensures RowsAt(t, Cursor(p, false), length, j + 1) == Ok(Read(prev + row, Cursor(f, false)))
  {
  }

  lemma RowsAtSucc(t: string, c: Cursor, length: nat, j: nat, k: nat)
    requires Within(t, c) && j + 1 == k
    ensures RowsAt(t, c, length, k) == RowsAt(t, c, length, j + 1)
  {
  }

  /** The cells of the first j rows and then row j are the cells of the first j + 1 rows. */
  lemma CellsPrefix(g: Grid, j: nat, k: nat)
    requires WellFormed(g) && j + 1 == k <= g.width
    ensures j * g.length + g.length == k * g.length <= |g.cells|
    ensures g.cells[..j * g.length] + Row(g, j) == g.cells[..k * g.length]
  {
    RowsFill(g.length, g.width, j, k);
  }

  lemma RowsFill(length: nat, width: nat, j: nat, k: nat)
    requires j + 1 == k <= width
    ensures j * length + length == k * length <= length * width
  {
    assert k * length == j * length + length;
    assert k * length <= width * length;
  }

  lemma RowsTextLast(g: Grid, j: nat)
    requires WellFormed(g) && j < g.width
    ensures RowsText(g, j + 1) == RowsText(g, j) + (RowText(g, j, g.length) + "\n")
  {
  }

  lemma RowsTextAt(g: Grid, j: nat, k: nat)
    requires WellFormed(g) && j + 1 == k <= g.width
    ensures RowsText(g, k) == RowsText(g, j + 1)
  {
    var i := j + 1;
    assert i == k;
  }

  /** The text of the first k rows, split before the last. */
  lemma RowsTextSplit(t: string, p: nat, q: nat, g: Grid, j: nat, k: nat, s: string, a: string, r: string)
    requires WellFormed(g) && j + 1 == k <= g.width
    requires Holds(t, p, s) && s == RowsText(g, k)
    requires a == RowsText(g, j) && r == RowText(g, j, g.length) + "\n" && q == p + |a|
    ensures Holds(t, p, a) && Holds(t, q, r) && |s| == |a| + |r|
  {
    RowsTextAt(g, j, k);
    RowsTextLast(g, j);
    HoldsSplit(t, p, q, s, a, r);
  }

  /** The last of k written rows, after the first j = k - 1, reads back as its cells. */
  lemma ReadLastRow(t: string, p: nat, q: nat, e: nat, g: Grid, j: nat, k: nat, s: string, a: string)
    requires WellFormed(g) && ShortCells(g) && j + 1 == k <= g.width
    requires Holds(t, p, s) && s == RowsText(g, k) && a == RowsText(g, j)
    requires q == p + |a| && e == q + 4 * g.length
    ensures Holds(t, p, a) && e < |t| && |s| == |a| + 4 * g.length + 1
    ensures CellsAt(t, Cursor(q, false), g.length) == Ok(Read(Row(g, j), Cursor(e, false)))
  {
    var r := RowText(g, j, g.length) + "\n";
    RowsTextSplit(t, p, q, g, j, k, s, a, r);
    RowLayout(t, q, e, g, j, r);
    ReadRow(t, q, e, g, j, r);
  }

  /** The first k written rows read back as the cells of the first k rows. */
  lemma {:induction false} ReadRows(t: string, p: nat, e: nat, g: Grid, k: nat, s: string)
    requires WellFormed(g) && ShortCells(g) && k <= g.width && k * g.length <= |g.cells|
    requires Holds(t, p, s) && s == RowsText(g, k) && e == p + |s|
    ensures RowsAt(t, Cursor(p, false), g.length, k) == Ok(Read(g.cells[..k * g.length], Cursor(e, false)))
    decreases k
  {
    if k == 0 {
      HoldsEnd(t, p, s);
      assert RowsAt(t, Cursor(p, false), g.length, 0) == Ok(Read([], Cursor(p, false)));
    } else {
      var j :| j + 1 == k;
      var a := RowsText(g, j);
      var q :| q == p + |a|;
      var d :| d == q + 4 * g.length;
      ReadLastRow(t, p, q, d, g, j, k, s, a);
      CellsPrefix(g, j, k);
      ReadRows(t, p, q, g, j, a);
      RowsStep(t, p, g.length, j, g.cells[..j * g.length], q, Row(g, j), d, e);
      RowsAtSucc(t, Cursor(p, false), g.length, j, k);
    }
  }

  // ---- Literals, numbers and line ends, with positions passed in ----

  /** A literal word and its space, confirmed, when a non-space follows. */
  lemma ReadWordSpace(t: string, p: nat, a: nat, w: string, lit: string, x: string)
    requires lit == w + " " && forall i | 0 <= i < |w| :: !IsSpace(w[i])
    requires Holds(t, p, lit + x) && a == p + |lit| && |x| > 0 && !IsSpace(x[0])
    ensures ConfirmAt(t, Cursor(p, false), lit) == Ok(Cursor(a, false)) && Holds(t, a, x)
  {
    HoldsConcatAt(t, p, a, lit, x);
    HoldsText(t, p, lit);
    assert t[p..p + |w|] == lit[..|w|] == w;
    assert t[p + |w|] == lit[|w|] == ' ';
    HoldsChar(t, a, x, 0);
    ConfirmWordSpace(t, p, w, a);
  }

  /** `>> int` at a, over the text of v, followed by a non-digit at b. */
  lemma ReadIntAt(t: string, a: nat, b: nat, v: i32)
    requires Holds(t, a, IntText(v)) && b == a + |IntText(v)| && b < |t| && !IsDigit(t[b])
    ensures IntAt(t, Cursor(a, false)) == Ok(Read(v, Cursor(b, false)))
  {
    ReadIntText(t, a, 0, v);
  }

  /** `>> unsigned` at a, over the text of n after k whitespace characters, followed by a non-digit at b. */
  lemma ReadUnsignedAt(t: string, a: nat, k: nat, b: nat, n: u32)
    requires a + k <= |t| && forall i | a <= i < a + k :: IsSpace(t[i])
    requires Holds(t, a + k, NatText(n)) && b == a + k + |NatText(n)| && b < |t| && !IsDigit(t[b])
    ensures UnsignedAt(t, Cursor(a, false)) == Ok(Read(n, Cursor(b, false)))
  {
    ReadNatText(t, a, k, n);
  }

  /** `ignore()` over a newline. */
  lemma IgnoreNewline(t: string, b: nat, q: nat)
    requires Holds(t, b, "\n") && q == b + 1
    ensures IgnoreAt(t, Cursor(b, false)) == Ok(Cursor(q, false))
  {
    HoldsChar(t, b, "\n", 0);
  }

  /** The text of a number line's number and its newline. */
  lemma NumberLine(t: string, a: nat, b: nat, x: string, n: nat)
    requires Holds(t, a, x) && x == NatText(n) + "\n" && b == a + |NatText(n)|
    ensures Holds(t, a, NatText(n)) && Holds(t, b, "\n") && b < |t| && !IsDigit(t[b])
  {
    HoldsConcatAt(t, a, b, NatText(n), "\n");
    HoldsChar(t, b, "\n", 0);
  }

  /** A line that starts with a numeral does not start with whitespace. */
  lemma NumeralLead(n: nat, z: string, x: string)
    requires x == NatText(n) + z
    ensures |x| > 0 && !IsSpace(x[0])
  {
    NatTextDigits(n);
    assert x[0] == NatText(n)[0];
  }

  // ---- Layer sections ----

  /** The opening line of section i, "layer i", reads back. */
  lemma ReadSectionHead(t: string, p: nat, q: nat, i: nat, s: string)
    requires i <= INT_MAX
    requires Holds(t, p, s) && s == "layer " + NatText(i) + "\n" && q == p + |s|
    ensures SectionHeadAt(t, Cursor(p, false)) == Ok(Cursor(q, false))
  {
    var x := NatText(i) + "\n";
    assert s == "layer " + x;
    var a :| a == p + 6;
    var b :| b == a + |NatText(i)|;
    NumeralLead(i, "\n", x);
    ReadWordSpace(t, p, a, "layer", "layer ", x);
    NumberLine(t, a, b, x, i);
    assert IntText(i) == NatText(i);
    ReadIntAt(t, a, b, i);
    IgnoreNewline(t, b, q);
  }

  /** A whole section, its opening line and its rows, reads back as the layer. */
  lemma ReadSection(t: string, p: nat, q: nat, e: nat, g: Grid, i: nat, s: string, h: string)
    requires WellFormed(g) && ShortCells(g) && i <= INT_MAX
    requires Holds(t, p, s) && s == SectionText(i, g) && h == "layer " + NatText(i) + "\n"
    requires q == p + |h| && e == p + |s|
    ensures SectionAt(t, Cursor(p, false), g.length, g.width) == Ok(Read(g, Cursor(e, false)))
  {
    var r := GridText(g);
    assert s == h + r;
    HoldsConcatAt(t, p, q, h, r);
    ReadSectionHead(t, p, q, i, h);
    assert g.width * g.length == |g.cells|;
    assert g.cells[..g.width * g.length] == g.cells;
    ReadRows(t, q, e, g, g.width, r);
  }

  /** The text of the first k sections, split before the last. */
  lemma SectionsTextSplit(t: string, p: nat, q: nat, layers: seq<Grid>, j: nat, k: nat, s: string, a: string, b: string)
    requires LayersWellFormed(layers) && j + 1 == k <= |layers|
    requires Holds(t, p, s) && s == SectionsText(layers, k)
    requires a == SectionsText(layers, j) && b == SectionText(j, layers[j])
    requires q == p + |a|
    ensures Holds(t, p, a) && Holds(t, q, b) && |s| == |a| + |b|
  {
    SectionsTextLast(layers, j, k);
    HoldsSplit(t, p, q, s, a, b);
  }

  lemma SectionsTextLast(layers: seq<Grid>, j: nat, k: nat)
    requires LayersWellFormed(layers) && j + 1 == k <= |layers|
    ensures SectionsText(layers, k) == SectionsText(layers, j) + SectionText(j, layers[j])
  {
    assert k - 1 == j;
  }

  lemma SectionsReadStep(t: string, p: nat, length: nat, width: nat, j: nat, k: nat, prev: seq<Grid>, q: nat, g: Grid, e: nat)
    requires j + 1 == k && p <= q <= e <= |t|
    requires SectionsAt(t, Cursor(p, false), length, width, j) == Ok(Read(prev, Cursor(q, false)))
    requires SectionAt(t, Cursor(q, false), length, width) == Ok(Read(g, Cursor(e, false)))
    ensures SectionsAt(t, Cursor(p, false), length, width, k) == Ok(Read(prev + [g], Cursor(e, false)))
  {
  }

  /** Section k - 1 of a saveable map, located within the text of the first k sections. */
  lemma ReadLastSection(t: string, p: nat, q: nat, e: nat, m: MapValue, j: nat, k: nat, s: string, a: string)
    requires Saveable(m) && j + 1 == k <= m.height
    requires Holds(t, p, s) && s == SectionsText(m.layers, k) && a == SectionsText(m.layers, j)
    requires q == p + |a| && e == p + |s|
    ensures Holds(t, p, a) && q <= e <= |t|
    ensures SectionAt(t, Cursor(q, false), m.length, m.width) == Ok(Read(m.layers[j], Cursor(e, false)))
  {
    var g := m.layers[j];
    assert WellFormed(g) && g.length == m.length && g.width == m.width && ShortCells(g);
    var b := SectionText(j, g);
    SectionsTextSplit(t, p, q, m.layers, j, k, s, a, b);
    HoldsEnd(t, q, b);
    var h := "layer " + NatText(j) + "\n";
    var d :| d == q + |h|;
    ReadSection(t, q, d, e, g, j, b, h);
  }

  /** The first k sections of a saveable map read back as its first k layers. */
  lemma {:induction false} ReadSections(t: string, p: nat, e: nat, m: MapValue, k: nat, s: string)
    requires Saveable(m) && k <= m.height
    requires Holds(t, p, s) && s == SectionsText(m.layers, k) && e == p + |s|
    ensures SectionsAt(t, Cursor(p, false), m.length, m.width, k) == Ok(Read(m.layers[..k], Cursor(e, false)))
    decreases k
  {
    if k == 0 {
      HoldsEnd(t, p, s);
      assert SectionsAt(t, Cursor(p, false), m.length, m.width, 0) == Ok(Read([], Cursor(p, false)));
    } else {
      var j :| j + 1 == k;
      var a := SectionsText(m.layers, j);
      var q :| q == p + |a|;
      ReadLastSection(t, p, q, e, m, j, k, s, a);
      ReadSections(t, p, q, m, j, a);
      SectionsReadStep(t, p, m.length, m.width, j, k, m.layers[..j], q, m.layers[j], e);
      TakeNext(m.layers, j, k);
    }
  }

  // ---- The header ----

  /** The date stamp, read as a word up to the newline after it. */
  lemma ReadStamp(t: string, a: nat, b: nat, y: string, z: string)
    requires Holds(t, a, y) && y == VersionStamp + z && b == a + 8 && |z| > 0 && z[0] == '\n'
    ensures WordAt(t, Cursor(a, false)) == Ok(Read(VersionStamp, Cursor(b, false))) && Holds(t, b, z)
  {
    HoldsSplit(t, a, b, y, VersionStamp, z);
    HoldsText(t, a, VersionStamp);
    HoldsChar(t, b, z, 0);
    assert forall i | a <= i < b :: t[i] == VersionStamp[i - a];
    TokenEndOf(t, a, 8);
  }

  /** The version line: the literal, the date stamp read as a word, the newline ignored. */
  lemma ReadVersionLine(t: string, p: nat, a: nat, b: nat, q: nat, s: string, x: string)
    requires Holds(t, p, s) && s == "version " + VersionStamp + "\n" + x
    requires a == p + 8 && b == a + 8 && q == b + 1
    ensures ConfirmAt(t, Cursor(p, false), "version ") == Ok(Cursor(a, false))
    ensures WordAt(t, Cursor(a, false)) == Ok(Read(VersionStamp, Cursor(b, false)))
    ensures IgnoreAt(t, Cursor(b, false)) == Ok(Cursor(q, false)) && Holds(t, q, x)
  {
    var z := "\n" + x;
    var y := VersionStamp + z;
    assert s == "version " + y;
    assert y[0] == '2';
    ReadWordSpace(t, p, a, "version", "version ", y);
    ReadStamp(t, a, b, y, z);
    HoldsSplit(t, b, q, z, "\n", x);
    IgnoreNewline(t, b, q);
  }

  /** A number followed by a space, read by `>> unsigned` after k whitespace characters. */
  lemma ReadNumberSpace(t: string, a: nat, k: nat, b: nat, c: nat, n: u32, y: string, z: string)
    requires a + k <= |t| && forall i | a <= i < a + k :: IsSpace(t[i])
    requires Holds(t, a + k, y) && y == NatText(n) + (" " + z) && b == a + k + |NatText(n)| && c == b + 1
    ensures UnsignedAt(t, Cursor(a, false)) == Ok(Read(n, Cursor(b, false)))
    ensures b < |t| && IsSpace(t[b]) && Holds(t, c, z)
  {
    var w := " " + z;
    HoldsSplit(t, a + k, b, y, NatText(n), w);
    HoldsSplit(t, b, c, w, " ", z);
    HoldsChar(t, b, " ", 0);
    ReadUnsignedAt(t, a, k, b, n);
  }

  /** The last two extents, after the first and its space: the second, a space, the third, the newline. */
  lemma ReadLastExtents(t: string, b1: nat, c1: nat, b2: nat, b3: nat, q: nat, w: u32, h: u32, zw: string)
    requires b1 < |t| && IsSpace(t[b1]) && c1 == b1 + 1
    requires Holds(t, c1, zw) && zw == NatText(w) + (" " + (NatText(h) + "\n"))
    requires b2 == b1 + 1 + |NatText(w)| && b3 == b2 + 1 + |NatText(h)| && q == b3 + 1
    ensures UnsignedAt(t, Cursor(b1, false)) == Ok(Read(w, Cursor(b2, false)))
    ensures UnsignedAt(t, Cursor(b2, false)) == Ok(Read(h, Cursor(b3, false)))
    ensures IgnoreAt(t, Cursor(b3, false)) == Ok(Cursor(q, false))
  {
    var zh := NatText(h) + "\n";
    var c2 :| c2 == b2 + 1;
    ReadNumberSpace(t, b1, 1, b2, c2, w, zw, zh);
    NumberLine(t, c2, b3, zh, h);
    ReadUnsignedAt(t, b2, 1, b3, h);
    IgnoreNewline(t, b3, q);
  }

  /** The extents line: the literal "lwh ", three unsigned numbers, the newline ignored. */
  lemma ReadExtentsLine(t: string, p: nat, a: nat, b1: nat, b2: nat, b3: nat, q: nat, l: u32, w: u32, h: u32, x: string)
    requires Holds(t, p, x) && x == ExtentsLine(l, w, h)
    requires a == p + 4 && b1 == a + |NatText(l)| && b2 == b1 + 1 + |NatText(w)| && b3 == b2 + 1 + |NatText(h)| && q == b3 + 1
    ensures ConfirmAt(t, Cursor(p, false), "lwh ") == Ok(Cursor(a, false))
    ensures UnsignedAt(t, Cursor(a, false)) == Ok(Read(l, Cursor(b1, false)))
    ensures UnsignedAt(t, Cursor(b1, false)) == Ok(Read(w, Cursor(b2, false)))
    ensures UnsignedAt(t, Cursor(b2, false)) == Ok(Read(h, Cursor(b3, false)))
    ensures IgnoreAt(t, Cursor(b3, false)) == Ok(Cursor(q, false))
  {
    var zw := NatText(w) + (" " + (NatText(h) + "\n"));
    var zl := NatText(l) + (" " + zw);
    NumeralLead(l, " " + zw, zl);
    ReadWordSpace(t, p, a, "lwh", "lwh ", zl);
    var c1 :| c1 == b1 + 1;
    ReadNumberSpace(t, a, 0, b1, c1, l, zl, zw);
    ReadLastExtents(t, b1, c1, b2, b3, q, w, h, zw);
  }

  /** The header of a save reads back as the map's extents. */
  lemma ReadHeader(t: string, p: nat, q: nat, l: u32, w: u32, h: u32, s: string)
    requires Holds(t, p, s) && s == HeaderText(l, w, h) && q == p + |s|
    ensures HeaderAt(t, Cursor(p, false)) == Ok(Read(Header(l, w, h), Cursor(q, false)))
  {
    var x := ExtentsLine(l, w, h);
    var a :| a == p + 8;
    var b :| b == a + 8;
    var d :| d == b + 1;
    ReadVersionLine(t, p, a, b, d, s, x);
    var e :| e == d + 4;
    var b1 :| b1 == e + |NatText(l)|;
    var b2 :| b2 == b1 + 1 + |NatText(w)|;
    var b3 :| b3 == b2 + 1 + |NatText(h)|;
    ReadExtentsLine(t, d, e, b1, b2, b3, q, l, w, h, x);
  }

  // ---- The whole save ----

  lemma {:induction false} HoldsRest(t: string, p: nat)
    requires p <= |t|
    ensures Holds(t, p, t[p..])
    decreases |t| - p
  {
    if p < |t| {
      HoldsRest(t, p + 1);
      assert t[p..][1..] == t[p + 1..];
    }
  }

  /**
   * Building from a stream over what `operator<<` wrote for a map gives
   * back that map, when its cells are short and its extents are in range.
   */
  lemma SaveLoadRoundTrip(m: MapValue)
    requires Saveable(m)
    ensures LayersWellFormed(m.layers) && MapAt(MapText(m)) == Ok(m)
  {
    assert LayersWellFormed(m.layers);
    var t := MapText(m);
    var hd := HeaderText(m.length, m.width, m.height);
    var body := SectionsText(m.layers, m.height);
    HoldsRest(t, 0);
    assert t[0..] == t;
    var q :| q == |hd|;
    HoldsSplit(t, 0, q, t, hd, body);
    ReadHeader(t, 0, q, m.length, m.width, m.height, hd);
    ReadSections(t, q, |t|, m, m.height, body);
    assert m.layers[..m.height] == m.layers;
  }

  lemma NatTextOf65536()
    ensures NatText(65536) == "65536"
  {
    assert NatText(6) == "6";
    assert NatText(65) == "65";
    assert NatText(655) == "655";
    assert NatText(6553) == "6553";
  }

  lemma ExtentsOf65536()
    ensures ExtentsLine(65536, 65536, 1) == "lwh 65536 65536 1\n"
  {
    NatTextOf65536();
    assert NatText(1) == "1";
  }

  /** The header written for a 65536 x 65536 x 1 map. */
  lemma HeaderOf65536()
    ensures HeaderText(65536, 65536, 1) == "version 20161108\nlwh 65536 65536 1\n"
  {
    ExtentsOf65536();
  }

  /**
   * A short save whose extents multiply to 2^32 passes the header: the
   * builder reports a 65536 x 65536 x 1 map, whose layer then wraps to no
   * cells (`MapLayers.SquareOf65536GetsNoCells`). With `HeaderOf65536`,
   * t is the text "version 20161108\nlwh 65536 65536 1\nlayer 0\n 7".
   */
  lemma WrappedExtentsRead(t: string)
    requires t == HeaderText(65536, 65536, 1) + "layer 0\n 7"
    ensures HeaderAt(t, Cursor(0, false)) == Ok(Read(Header(65536, 65536, 1), Cursor(|HeaderText(65536, 65536, 1)|, false)))
  {
    var hd := HeaderText(65536, 65536, 1);
    HoldsRest(t, 0);
    assert t[0..] == t;
    HoldsSplit(t, 0, |hd|, t, hd, "layer 0\n 7");
    ReadHeader(t, 0, |hd|, 65536, 65536, 1, hd);
  }

  /** An empty stream does not hold a map: reading the header fails. */
  lemma EmptySaveFails()
    ensures MapAt("").Err?
  {
    assert !IsSpace("version "[0]);
    EmptyStreamFails(Cursor(0, false), "version ");
  }

  /**
   * Short cells are needed: two neighbouring cells of 1000 fill their
   * fields and are written as one run of eight digits, so reading the row
   * back finds one number where there were two, and then runs out of text.
   */
  lemma WideCellsMerge()
    ensures var g := Grid(2, 1, [1000, 1000]);
            WellFormed(g) && GridText(g) == "10001000\n" && CellsAt(GridText(g), Cursor(0, false), 2).Err?
  {
    var g := Grid(2, 1, [1000, 1000]);
    WideGridText(g);
    CellsFromEightDigits(GridText(g));
  }

  /** Two cells of 1000 are written as eight digits and a newline. */
  lemma WideGridText(g: Grid)
    requires g == Grid(2, 1, [1000, 1000])
    ensures WellFormed(g) && GridText(g) == "10001000\n"
  {
    FieldOfThousand();
    assert Cell(g, 0, 0) == 1000 && Cell(g, 1, 0) == 1000;
    assert RowText(g, 0, 1) == "1000";
    assert RowText(g, 0, 2) == "10001000";
    assert RowsText(g, 1) == "10001000\n";
  }

  /** 1000 fills a field of four on its own. */
  lemma FieldOfThousand()
    ensures Field(1000) == "1000"
  {
    assert NatText(1000) == "1000" by {
      assert NatText(1) == "1";
      assert NatText(10) == "10";
      assert NatText(100) == "100";
    }
    assert IntText(1000) == "1000";
  }

  /** Eight digits and a newline hold one number, not two. */
  lemma CellsFromEightDigits(t: string)
    requires t == "10001000\n"
    ensures CellsAt(t, Cursor(0, false), 2).Err?
  {
    DigitsEndStops(t, 0);
    assert forall i | 0 <= i < 8 :: IsDigit(t[i]);
    assert !IsDigit(t[8]);
    assert DigitsEnd(t, 0) == 8;
    var n := ScanNumeral(t, 0);
    assert n.Some? && n.value.end == 8;
    assert NumeralAt(t, Cursor(0, false)) == Ok(n.value);
    var first := IntAt(t, Cursor(0, false));
    assert CellsAt(t, Cursor(0, false), 0) == Ok(Read([], Cursor(0, false)));
    CellsNext(t, Cursor(0, false), 0, [], Cursor(0, false));
    if first.Err? {
      CellsFailureSticks(t, Cursor(0, false), 1, 2);
    } else {
      assert first.value.rest == Cursor(8, false);
      assert CellsAt(t, Cursor(0, false), 1) == Ok(Read([] + [first.value.value as int], Cursor(8, false)));
      CellsNext(t, Cursor(0, false), 1, [] + [first.value.value as int], Cursor(8, false));
      assert DigitsEnd(t, 9) == 9;
      assert ScanNumeral(t, 9).None?;
      assert NumeralAt(t, Cursor(9, false)).Err?;
      assert NumeralAt(t, Cursor(8, false)).Err?;
      assert IntAt(t, Cursor(8, false)).Err?;
    }
  }
}
