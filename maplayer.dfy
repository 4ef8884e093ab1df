/**
 * One horizontal slice of the world map: a dense, row-major grid of
 * cell-type indices with bounds-checked access, structural equality and a
 * text dump.
 */
module MapLayers {
  import opened Wrappers
  import opened Numerals

  /** The `std::out_of_range` a bad coordinate raises. */
  datatype Error = OutOfRange

  /** The value of a layer: its extents and its cells, row after row. */
  datatype Grid = Grid(length: nat, width: nat, cells: seq<int>)

  predicate WellFormed(g: Grid) {
    |g.cells| == g.length * g.width
  }

  function Zeros(n: nat): (s: seq<int>)
    ensures |s| == n && forall i | 0 <= i < n :: s[i] == 0
  {
    seq(n, _ => 0)
  }

  /** The grid of a freshly constructed layer: every cell holds the empty cell type 0. */
  function EmptyGrid(length: nat, width: nat): Grid {
    Grid(length, width, Zeros(length * width))
  }

  /**
   * Where (x, y) is stored, or OutOfRange. The offset decodes back to the
   * coordinates, so the storage is row-major.
   */
  function Offset(length: nat, width: nat, x: nat, y: nat): (r: Result<nat, Error>)
    ensures r.Ok? <==> x < length && y < width
    ensures r.Ok? ==> r.value < length * width && r.value % length == x && r.value / length == y
  {
    if x >= length || y >= width then Err(OutOfRange)
    else
      OffsetBound(length, width, x, y);
      OffsetDecodes(length, x, y);
      Ok(y * length + x)
  }

  lemma OffsetBound(length: nat, width: nat, x: nat, y: nat)
    requires x < length && y < width
    ensures y * length + x < length * width
  {
    assert y * length <= (width - 1) * length;
  }

  lemma OffsetDecodes(length: nat, x: nat, y: nat)
    requires x < length
    ensures (y * length + x) % length == x && (y * length + x) / length == y
  {
    DivModUnique(y * length + x, length, y, x);
  }

  /** Euclidean division has one quotient and one remainder. */
  lemma DivModUnique(a: int, d: int, q: int, r: int)
    requires d > 0 && 0 <= r < d && a == q * d + r
    ensures a / d == q && a % d == r
  {
    var q', r' := a / d, a % d;
    assert (q - q') * d == r' - r;
    if q > q' {
      MultipleAtLeast(q - q', d);
    } else if q < q' {
      MultipleAtLeast(q' - q, d);
    }
  }

  /** Where row y starts in the storage; the whole row lies inside it. */
  ghost function RowStart(length: nat, width: nat, y: nat): (s: nat)
    requires y < width
    ensures s == y * length && s + length <= length * width
  {
    assert (y + 1) * length <= width * length;
    y * length
  }

  /** Two distinct in-bounds coordinates never share a cell. */
  lemma OffsetInjective(length: nat, width: nat, x1: nat, y1: nat, x2: nat, y2: nat)
    requires x1 < length && y1 < width && x2 < length && y2 < width
    requires (x1, y1) != (x2, y2)
    ensures Offset(length, width, x1, y1).value != Offset(length, width, x2, y2).value
  {
  }

  lemma MultipleAtLeast(k: int, d: int)
    requires k >= 1 && d > 0
    ensures k * d >= d
  {
  }

  /** Every cell of the storage is the cell of some in-bounds coordinate. */
  lemma OffsetOnto(length: nat, width: nat, i: nat)
    requires i < length * width
    ensures length > 0 && i % length < length && i / length < width
    ensures Offset(length, width, i % length, i / length) == Ok(i)
  {
    assert length > 0;
    DivModUnique(i, length, i / length, i % length);
    if i / length >= width {
      assert false;
    }
  }

  /** The value at (x, y). */
  function Cell(g: Grid, x: nat, y: nat): int
    requires WellFormed(g) && x < g.length && y < g.width
  {
    g.cells[Offset(g.length, g.width, x, y).value]
  }

  /** The grid with (x, y) overwritten by v. */
  function WithCell(g: Grid, x: nat, y: nat, v: int): Grid
    requires WellFormed(g) && x < g.length && y < g.width
  {
    g.(cells := g.cells[Offset(g.length, g.width, x, y).value := v])
  }

  /** Reading a cell after writing one sees the write at that cell and nothing else changed. */
  lemma CellOfWithCell(g: Grid, x: nat, y: nat, v: int, x': nat, y': nat)
    requires WellFormed(g) && x < g.length && y < g.width && x' < g.length && y' < g.width
    ensures WellFormed(WithCell(g, x, y, v))
    ensures Cell(WithCell(g, x, y, v), x', y') == if (x', y') == (x, y) then v else Cell(g, x', y')
  {
    if (x', y') != (x, y) {
      OffsetInjective(g.length, g.width, x, y, x', y');
    }
  }

  /** A fresh layer reads 0 everywhere. */
  lemma {:induction false} EmptyGridCells(length: nat, width: nat, x: nat, y: nat)
    requires x < length && y < width
    ensures WellFormed(EmptyGrid(length, width)) && Cell(EmptyGrid(length, width), x, y) == 0
  {
  }

  /** g and h, of the same extents, hold the same index at every in-bounds coordinate. */
  predicate SameCells(g: Grid, h: Grid)
    requires WellFormed(g) && WellFormed(h) && g.length == h.length && g.width == h.width
  {
    forall x: nat, y: nat | x < g.length && y < g.width :: Cell(g, x, y) == Cell(h, x, y)
  }

  /** Grids with the same extents that agree on every in-bounds coordinate are the same grid. */
  lemma SameCellsSameGrid(g: Grid, h: Grid)
    requires WellFormed(g) && WellFormed(h) && g.length == h.length && g.width == h.width
    requires SameCells(g, h)
    ensures g == h
  {
    forall i | 0 <= i < |g.cells|
      ensures g.cells[i] == h.cells[i]
    {
      OffsetOnto(g.length, g.width, i);
      assert Cell(g, i % g.length, i / g.length) == Cell(h, i % g.length, i / g.length);
    }
  }

  /**
   * The number of cells `cells_(length*width)` allocates as written: the
   * product of two `unsigned`s, which wraps modulo 2^32. It is the true
   * product exactly when that fits in 32 bits.
   */
  function CellCountAsWritten(length: u32, width: u32): (n: u32)
    ensures n <= length * width
    ensures n == length * width <==> length * width <= UINT_MAX
  {
    (length * width) % 0x1_0000_0000
  }

  /**
   * The offset `y * length_ + x` as `cell_offset_of` computes it: in
   * `unsigned`, so modulo 2^32. It is the true offset whenever that fits.
   */
  function OffsetAsWritten(length: nat, x: nat, y: nat): (o: u32)
    ensures y * length + x <= UINT_MAX ==> o == y * length + x
  {
    (y * length + x) % 0x1_0000_0000
  }

  /**
   * As written, a layer whose cell count wraps is too small for its own
   * extents: the coordinate whose offset is UINT_MAX passes the bounds check
   * of `cell_offset_of`, and that offset, computed in 32 bits like the cell
   * count, lies at or past every cell allocated.
   */
  lemma WrappedLayerOverruns(length: u32, width: u32)
    requires length * width > UINT_MAX
    ensures 0 < length
    ensures var x, y := UINT_MAX % length, UINT_MAX / length;
            Offset(length, width, x, y) == Ok(UINT_MAX) &&
            OffsetAsWritten(length, x, y) == UINT_MAX &&
            OffsetAsWritten(length, x, y) >= CellCountAsWritten(length, width)
  {
    assert 0 < length;
    var x, y := UINT_MAX % length, UINT_MAX / length;
    assert y * length + x == UINT_MAX;
    if y >= width {
      assert false;
    }
  }

  /** A 65536 x 65536 layer gets no cells at all, yet (0, 0) is in bounds. */
  lemma SquareOf65536GetsNoCells()
    ensures CellCountAsWritten(65536, 65536) == 0
    ensures Offset(65536, 65536, 0, 0) == Ok(0)
  {
  }

  /** A coordinate of -1 becomes the largest unsigned value and is rejected by every layer. */
  lemma NegativeCoordinateRejected(length: u32, width: u32, y: u32)
    ensures Offset(length, width, AsUnsigned(-1), y) == Err(OutOfRange)
    ensures Offset(length, width, y, AsUnsigned(-1)) == Err(OutOfRange)
  {
  }

  // The dump format: `setw(4) << cell` for every cell of a row, then "\n".

  function Spaces(n: nat): (s: string)
    ensures |s| == n && forall i | 0 <= i < n :: s[i] == ' '
  {
    seq(n, _ => ' ')
  }

  /** A cell right-aligned in a field of four characters, as `setw(4)` prints it. */
  function Field(v: int): string {
    var s := IntText(v);
    if |s| >= 4 then s else Spaces(4 - |s|) + s
  }

  /** The first n fields of row y. */
  function RowText(g: Grid, y: nat, n: nat): string
    requires WellFormed(g) && y < g.width && n <= g.length
  {
    if n == 0 then "" else RowText(g, y, n - 1) + Field(Cell(g, n - 1, y))
  }

  /** The first k rows, each ended by a newline. */
  function RowsText(g: Grid, k: nat): string
    requires WellFormed(g) && k <= g.width
  {
    if k == 0 then "" else RowsText(g, k - 1) + (RowText(g, k - 1, g.length) + "\n")
  }

  /** What `operator<<` writes for a layer: width lines of length fields. */
  function GridText(g: Grid): string
    requires WellFormed(g)
  {
    RowsText(g, g.width)
  }

  class MapLayer {
    const length: u32
    const width: u32
    const cells: array<i32>

    ghost predicate Valid() {
      cells.Length == length * width
    }

    function Value(): (g: Grid)
      reads cells
      ensures g.length == length && g.width == width && g.cells == cells[..]
    {
      Grid(length, width, cells[..])
    }

    /** Allocates length * width cells, all 0. */
    constructor (length: u32, width: u32)
      ensures Valid() && fresh(cells)
      ensures this.length == length && this.width == width
      ensures Value() == EmptyGrid(length, width)
    {
      this.length := length;
      this.width := width;
      this.cells := new i32[length * width](_ => 0);
    }

    function CellOffsetOf(x: u32, y: u32): (r: Result<nat, Error>)
      requires Valid()
      ensures r.Ok? <==> x < length && y < width
      ensures r.Ok? ==> r.value < cells.Length && r.value % length == x && r.value / length == y
    {
      Offset(length, width, x, y)
    }

    function CellIndexAt(x: u32, y: u32): (r: Result<i32, Error>)
      requires Valid()
      reads cells
      ensures r.Ok? <==> x < length && y < width
      ensures r.Ok? ==> r.value == Cell(Value(), x, y)
    {
      var offset :- CellOffsetOf(x, y);
      Ok(cells[offset])
    }

    method SetCellIndexAt(x: u32, y: u32, index: i32) returns (r: Result<(), Error>)
      requires Valid()
      modifies cells
      ensures r.Ok? <==> x < length && y < width
      ensures r.Ok? ==> Value() == WithCell(old(Value()), x, y, index)
      ensures r.Err? ==> Value() == old(Value())
    {
      var offset := CellOffsetOf(x, y);
      if offset.Err? {
        return Err(offset.error);
      }
      cells[offset.value] := index;
      return Ok(());
    }

    /** operator==: same extents and the same index at every (x, y). */
    method Equals(other: MapLayer) returns (r: bool)
      requires Valid() && other.Valid()
      ensures r <==> length == other.length && width == other.width && SameCells(Value(), other.Value())
    {
      if length != other.length {
        return false;
      }
      if width != other.width {
        return false;
      }
      ghost var g, h := Value(), other.Value();
      var y: u32 := 0;
      while y < width
        invariant y <= width
        invariant forall x': nat, y': nat | x' < length && y' < y :: Cell(g, x', y') == Cell(h, x', y')
      {
        var x: u32 := 0;
        while x < length
          invariant x <= length
          invariant forall x': nat, y': nat | x' < length && y' < y :: Cell(g, x', y') == Cell(h, x', y')
          invariant forall x': nat | x' < x :: Cell(g, x', y) == Cell(h, x', y)
        {
          if CellIndexAt(x, y).value != other.CellIndexAt(x, y).value {
            return false;
          }
          x := x + 1;
        }
        y := y + 1;
      }
      return true;
    }

    /** operator<<: the text written for this layer. */
    method Dump() returns (s: string)
      requires Valid()
      ensures s == GridText(Value())
    {
      ghost var g := Value();
      s := "";
      var y: u32 := 0;
      while y < width
        invariant y <= width
        invariant s == RowsText(g, y)
      {
        var row := DumpRow(y);
        s := s + (row + "\n");
        y := y + 1;
      }
    }

    /** The fields of row y, in x order. */
    method DumpRow(y: u32) returns (s: string)
      requires Valid() && y < width
      ensures s == RowText(Value(), y, length)
    {
      ghost var g := Value();
      s := "";
      var x: u32 := 0;
      while x < length
        invariant x <= length
        invariant s == RowText(g, y, x)
      {
        s := s + Field(CellIndexAt(x, y).value);
        x := x + 1;
      }
    }
  }

  /** Layer equality is equality of layer values. */
  lemma EqualsIsValueEquality(a: MapLayer, b: MapLayer)
    requires a.Valid() && b.Valid()
    ensures (a.length == b.length && a.width == b.width && SameCells(a.Value(), b.Value()))
            <==> a.Value() == b.Value()
  {
    if a.length == b.length && a.width == b.width && SameCells(a.Value(), b.Value()) {
      SameCellsSameGrid(a.Value(), b.Value());
    }
  }

  /** The cell storage of a sequence of layers. */
  ghost function CellsOf(ls: seq<MapLayer>): (s: set<array<i32>>)
    ensures forall k | 0 <= k < |ls| :: ls[k].cells in s
  {
    set l | l in ls :: l.cells
  }

  /** Layers of the given extents, each valid and each with its own cell storage. */
  ghost predicate OwnLayers(ls: seq<MapLayer>, length: u32, width: u32) {
    (forall i | 0 <= i < |ls| :: ls[i].Valid() && ls[i].length == length && ls[i].width == width) &&
    (forall i, j | 0 <= i < j < |ls| :: ls[i].cells != ls[j].cells)
  }

  /**
   * MapLayerBag(n, MapLayer(length, width)): n copies of a new layer, so n
   * fresh layers with every cell 0.
   */
  method NewLayerBag(n: u32, length: u32, width: u32) returns (layers: seq<MapLayer>)
    ensures |layers| == n && OwnLayers(layers, length, width)
    ensures forall k | 0 <= k < n :: fresh(layers[k].cells) && layers[k].Value() == EmptyGrid(length, width)
  {
    layers := [];
    while |layers| < n as int
      invariant |layers| <= n && OwnLayers(layers, length, width)
      invariant forall k | 0 <= k < |layers| :: fresh(layers[k].cells) && layers[k].Value() == EmptyGrid(length, width)
    {
      var layer := new MapLayer(length, width);
      layers := layers + [layer];
    }
  }
}
