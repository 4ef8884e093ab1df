/**
 * A map builder that reads the save format `Map` writes. The stream throws
 * on failbit, so a missing literal or an unreadable number aborts the read;
 * here every read returns a Result and the first failure is passed on.
 */
module MapBuilderStreams {
  import opened Wrappers
  import opened Numerals
  import opened InputStreams
  import opened MapLayers
  import opened Maps

  /** The extents the header line "lwh L W H" gives. */
  datatype Header = Header(length: u32, width: u32, height: u32)

  /**
   * The header as the constructor reads it: the literal "version ", one
   * token that is not checked, one ignored character, the literal "lwh ",
   * three unsigned numbers, one ignored character.
   */
  function HeaderAt(t: string, c: Cursor): (r: Result<Read<Header>, Failure>)
    requires Within(t, c)
    ensures r.Ok? ==> Within(t, r.value.rest)
  {
    var c1 :- ConfirmAt(t, c, "version ");
    var version :- WordAt(t, c1);
    var c2 :- IgnoreAt(t, version.rest);
    var c3 :- ConfirmAt(t, c2, "lwh ");
    var l :- UnsignedAt(t, c3);
    var w :- UnsignedAt(t, l.rest);
    var h :- UnsignedAt(t, w.rest);
    var c4 :- IgnoreAt(t, h.rest);
    Ok(Read(Header(l.value, w.value, h.value), c4))
  }

  /** The next n integers, in order. */
  function CellsAt(t: string, c: Cursor, n: nat): (r: Result<Read<seq<int>>, Failure>)
    requires Within(t, c)
    ensures r.Ok? ==> Within(t, r.value.rest) && |r.value.value| == n
  {
    if n == 0 then Ok(Read([], c))
    else
      var cells :- CellsAt(t, c, n - 1);
      var v :- IntAt(t, cells.rest);
      Ok(Read(cells.value + [v.value as int], v.rest))
  }

  /** The first k rows of a layer: length integers, then one ignored character, per row. */
  function RowsAt(t: string, c: Cursor, length: nat, k: nat): (r: Result<Read<seq<int>>, Failure>)
    requires Within(t, c)
    ensures r.Ok? ==> Within(t, r.value.rest) && |r.value.value| == k * length
  {
    if k == 0 then Ok(Read([], c))
    else
      var rows :- RowsAt(t, c, length, k - 1);
      var row :- CellsAt(t, rows.rest, length);
      var c' :- IgnoreAt(t, row.rest);
      Ok(Read(rows.value + row.value, c'))
  }

  /**
   * The line that opens a layer section: the literal "layer ", an integer
   * that is read and then not used, one ignored character.
   */
  function SectionHeadAt(t: string, c: Cursor): (r: Result<Cursor, Failure>)
    requires Within(t, c)
    ensures r.Ok? ==> Within(t, r.value)
  {
    var c1 :- ConfirmAt(t, c, "layer ");
    var num :- IntAt(t, c1);
    IgnoreAt(t, num.rest)
  }

  /** One layer section: its opening line, then width rows. */
  function SectionAt(t: string, c: Cursor, length: nat, width: nat): (r: Result<Read<Grid>, Failure>)
    requires Within(t, c)
    ensures r.Ok? ==> Within(t, r.value.rest) && WellFormed(r.value.value)
    ensures r.Ok? ==> r.value.value.length == length && r.value.value.width == width
  {
    var c2 :- SectionHeadAt(t, c);
    var rows :- RowsAt(t, c2, length, width);
    Ok(Read(Grid(length, width, rows.value), rows.rest))
  }

  /** The first k layer sections. */
  function SectionsAt(t: string, c: Cursor, length: nat, width: nat, k: nat): (r: Result<Read<seq<Grid>>, Failure>)
    requires Within(t, c)
    ensures r.Ok? ==> Within(t, r.value.rest) && |r.value.value| == k && LayersWellFormed(r.value.value)
    ensures r.Ok? ==> forall i | 0 <= i < k :: r.value.value[i].length == length && r.value.value[i].width == width
  {
    if k == 0 then Ok(Read([], c))
    else
      var sections :- SectionsAt(t, c, length, width, k - 1);
      var g :- SectionAt(t, sections.rest, length, width);
      Ok(Read(sections.value + [g.value], g.rest))
  }

  /** What building a map from a stream over t reads: the header, then height sections. */
  function MapAt(t: string): (r: Result<MapValue, Failure>)
    ensures r.Ok? ==> |r.value.layers| == r.value.height && LayersWellFormed(r.value.layers)
  {
    var h :- HeaderAt(t, Cursor(0, false));
    var sections :- SectionsAt(t, h.rest, h.value.length, h.value.width, h.value.height);
    Ok(MapValue(h.value.length, h.value.width, h.value.height, sections.value))
  }

  /** Reading one more section extends the sections read so far, or fails. */
  lemma SectionsNext(t: string, c0: Cursor, length: nat, width: nat, i: nat, acc: seq<Grid>, c: Cursor)
    requires Within(t, c0) && Within(t, c)
    requires SectionsAt(t, c0, length, width, i) == Ok(Read(acc, c))
    ensures var g := SectionAt(t, c, length, width);
            g.Ok? ==> SectionsAt(t, c0, length, width, i + 1) == Ok(Read(acc + [g.value.value], g.value.rest))
    ensures SectionAt(t, c, length, width).Err? ==> SectionsAt(t, c0, length, width, i + 1).Err?
  {
  }

  /** Reading one more number extends the numbers read so far, or fails. */
  lemma CellsNext(t: string, c0: Cursor, x: nat, acc: seq<int>, c: Cursor)
    requires Within(t, c0) && Within(t, c)
    requires CellsAt(t, c0, x) == Ok(Read(acc, c))
    ensures IntAt(t, c).Ok? ==>
              CellsAt(t, c0, x + 1) == Ok(Read(acc + [IntAt(t, c).value.value as int], IntAt(t, c).value.rest))
    ensures IntAt(t, c).Err? ==> CellsAt(t, c0, x + 1).Err?
  {
  }

  /** Reading one more row (its numbers, then one ignored character) extends the rows read so far, or fails. */
  lemma RowsNext(t: string, c0: Cursor, length: nat, y: nat, acc: seq<int>, c: Cursor)
    requires Within(t, c0) && Within(t, c)
    requires RowsAt(t, c0, length, y) == Ok(Read(acc, c))
    ensures var row := CellsAt(t, c, length);
            row.Ok? && IgnoreAt(t, row.value.rest).Ok? ==>
              RowsAt(t, c0, length, y + 1) == Ok(Read(acc + row.value.value, IgnoreAt(t, row.value.rest).value))
    ensures var row := CellsAt(t, c, length);
            row.Err? || IgnoreAt(t, row.value.rest).Err? ==> RowsAt(t, c0, length, y + 1).Err?
  {
  }

  // Once a read fails, reading more of the same kind fails too.

  lemma {:induction false} CellsFailureSticks(t: string, c: Cursor, k: nat, n: nat)
    requires Within(t, c) && k <= n && CellsAt(t, c, k).Err?
    ensures CellsAt(t, c, n).Err?
    decreases n - k
  {
    if k < n {
      CellsFailureSticks(t, c, k + 1, n);
    }
  }

  lemma {:induction false} RowsFailureSticks(t: string, c: Cursor, length: nat, k: nat, n: nat)
    requires Within(t, c) && k <= n && RowsAt(t, c, length, k).Err?
    ensures RowsAt(t, c, length, n).Err?
    decreases n - k
  {
    if k < n {
      RowsFailureSticks(t, c, length, k + 1, n);
    }
  }

  lemma {:induction false} SectionsFailureSticks(t: string, c: Cursor, length: nat, width: nat, k: nat, n: nat)
    requires Within(t, c) && k <= n && SectionsAt(t, c, length, width, k).Err?
    ensures SectionsAt(t, c, length, width, n).Err?
    decreases n - k
  {
    if k < n {
      SectionsFailureSticks(t, c, length, width, k + 1, n);
    }
  }

  class MapBuilderStream {
    const istr: InputStream
    const length: u32
    const width: u32
    const height: u32

    /** Stores the extents a header read gave; `Open` is the constructor that reads them. */
    constructor FromHeader(istr: InputStream, h: Header)
      ensures this.istr == istr
      ensures length == h.length && width == h.width && height == h.height
    {
      this.istr := istr;
      length := h.length;
      width := h.width;
      height := h.height;
    }

    /**
     * MapBuilderStream(istr): reads the header. map_length(), map_width()
     * and map_height() are the three numbers it read.
     */
    static method Open(istr: InputStream) returns (r: Result<MapBuilderStream, Failure>)
      requires istr.Valid()
      modifies istr
      ensures istr.Valid()
      ensures r.Ok? <==> HeaderAt(istr.text, old(istr.At())).Ok?
      ensures r.Ok? ==> r.value.istr == istr && istr.At() == HeaderAt(istr.text, old(istr.At())).value.rest
      ensures r.Ok? ==> var h := HeaderAt(istr.text, old(istr.At())).value.value;
                        r.value.length == h.length && r.value.width == h.width && r.value.height == h.height
    {
      var confirmed :- istr.ConfirmInput("version ");
      var version :- istr.ReadWord();
      var ignored :- istr.Ignore();
      confirmed :- istr.ConfirmInput("lwh ");
      var length :- istr.ReadUnsigned();
      var width :- istr.ReadUnsigned();
      var height :- istr.ReadUnsigned();
      ignored :- istr.Ignore();
      var b := new MapBuilderStream.FromHeader(istr, Header(length, width, height));
      return Ok(b);
    }

    /**
     * layers(): height layers of length x width cells, section after
     * section, each cell set from the number read for it.
     */
    method Layers() returns (r: Result<seq<MapLayer>, Failure>)
      requires istr.Valid()
      modifies istr
      ensures istr.Valid()
      ensures r.Ok? <==> SectionsAt(istr.text, old(istr.At()), length, width, height).Ok?
      ensures r.Ok? ==> var s := SectionsAt(istr.text, old(istr.At()), length, width, height).value;
                        |r.value| == height && OwnLayers(r.value, length, width) && istr.At() == s.rest &&
                        forall k | 0 <= k < height :: r.value[k].Value() == s.value[k]
      ensures r.Ok? ==> forall i | 0 <= i < |r.value| :: fresh(r.value[i].cells)
    {
      var layers := NewLayerBag(height, length, width);
      var sections, acc := ReadSections(layers);
      if sections.Err? {
        return Err(sections.error);
      }
      return Ok(layers);
    }

    /** The i loop of layers(): height sections read, section i into layers[i]. */
    method ReadSections(layers: seq<MapLayer>) returns (r: Result<(), Failure>, ghost acc: seq<Grid>)
      requires istr.Valid() && |layers| == height && OwnLayers(layers, length, width)
      modifies istr, CellsOf(layers)
      ensures istr.Valid()
      ensures r.Ok? <==> SectionsAt(istr.text, old(istr.At()), length, width, height).Ok?
      ensures r.Ok? ==> SectionsAt(istr.text, old(istr.At()), length, width, height) == Ok(Read(acc, istr.At()))
      ensures r.Ok? ==> forall k | 0 <= k < height :: layers[k].Value() == acc[k]
    {
      ghost var c0 := istr.At();
      acc := [];
      var i: nat := 0;
      while i < height
        invariant i <= height && istr.Valid()
        invariant SectionsAt(istr.text, c0, length, width, i) == Ok(Read(acc, istr.At()))
        invariant forall k | 0 <= k < i :: layers[k].Value() == acc[k]
      {
        var section, acc' := ReadSectionOf(layers, i, c0, acc);
        if section.Err? {
          SectionsFailureSticks(istr.text, c0, length, width, i + 1, height);
          return Err(section.error), acc;
        }
        acc := acc';
        i := i + 1;
      }
      return Ok(()), acc;
    }

    /** Section i read into layers[i], the sections before it read from c0 into acc and layers[..i]. */
    method ReadSectionOf(layers: seq<MapLayer>, i: nat, ghost c0: Cursor, ghost acc: seq<Grid>)
      returns (r: Result<(), Failure>, ghost acc': seq<Grid>)
      requires istr.Valid() && i < |layers| && OwnLayers(layers, length, width)
      requires Within(istr.text, c0) && SectionsAt(istr.text, c0, length, width, i) == Ok(Read(acc, istr.At()))
      requires forall k | 0 <= k < i :: layers[k].Value() == acc[k]
      modifies istr, layers[i].cells
      ensures istr.Valid()
      ensures r.Ok? <==> SectionsAt(istr.text, c0, length, width, i + 1).Ok?
      ensures r.Ok? ==> SectionsAt(istr.text, c0, length, width, i + 1) == Ok(Read(acc', istr.At()))
      ensures r.Ok? ==> forall k | 0 <= k < i + 1 :: layers[k].Value() == acc'[k]
    {
      SectionsNext(istr.text, c0, length, width, i, acc, istr.At());
      assert forall k | 0 <= k < |layers| && k != i :: layers[k].cells != layers[i].cells;
      r := ReadSection(layers[i]);
      acc' := acc + [layers[i].Value()];
    }

    /** One "layer i" section read into a layer; every cell is overwritten. */
    method ReadSection(layer: MapLayer) returns (r: Result<(), Failure>)
      requires istr.Valid() && layer.Valid() && layer.length == length && layer.width == width
      modifies istr, layer.cells
      ensures istr.Valid()
      ensures r.Ok? <==> SectionAt(istr.text, old(istr.At()), length, width).Ok?
      ensures r.Ok? ==> var s := SectionAt(istr.text, old(istr.At()), length, width).value;
                        layer.Value() == s.value && istr.At() == s.rest
    {
      var head :- ReadSectionHead();
      r := ReadRows(layer);
    }

    /** `istr_ >> confirm_input("layer ") >> num; istr_.ignore();` */
    method ReadSectionHead() returns (r: Result<(), Failure>)
      requires istr.Valid()
      modifies istr
      ensures istr.Valid()
      ensures r.Ok? <==> SectionHeadAt(istr.text, old(istr.At())).Ok?
      ensures r.Ok? ==> istr.At() == SectionHeadAt(istr.text, old(istr.At())).value
    {
      var confirmed :- istr.ConfirmInput("layer ");
      var num :- istr.ReadInt();
      var ignored :- istr.Ignore();
      return Ok(());
    }

    /** The width rows of a section, row y stored in row y of the layer. */
    method ReadRows(layer: MapLayer) returns (r: Result<(), Failure>)
      requires istr.Valid() && layer.Valid() && layer.length == length && layer.width == width
      modifies istr, layer.cells
      ensures istr.Valid()
      ensures r.Ok? <==> RowsAt(istr.text, old(istr.At()), length, width).Ok?
      ensures r.Ok? ==> var rows := RowsAt(istr.text, old(istr.At()), length, width).value;
                        layer.cells[..] == rows.value && istr.At() == rows.rest
    {
      ghost var t, c0 := istr.text, istr.At();
      ghost var acc: seq<int> := [];
      var y: u32 := 0;
      while y < width
        invariant y <= width && istr.Valid() && istr.text == t
        invariant RowsAt(t, c0, length, y) == Ok(Read(acc, istr.At()))
        invariant |acc| <= length * width && layer.cells[..|acc|] == acc
      {
        var row := ReadRowLine(layer, y, c0, acc);
        if row.Err? {
          RowsFailureSticks(t, c0, length, y + 1, width);
          return Err(row.error);
        }
        acc := RowsAt(t, c0, length, y + 1).value.value;
        y := y + 1;
      }
      RowsFit(length, width, y);
      return Ok(());
    }

    /** Row y and the character ignored after it, the rows before it read from c0 into acc. */
    method ReadRowLine(layer: MapLayer, y: u32, ghost c0: Cursor, ghost acc: seq<int>) returns (r: Result<(), Failure>)
      requires istr.Valid() && layer.Valid() && layer.length == length && layer.width == width && y < width
      requires Within(istr.text, c0) && RowsAt(istr.text, c0, length, y) == Ok(Read(acc, istr.At()))
      requires |acc| <= length * width && layer.cells[..|acc|] == acc
      modifies istr, layer.cells
      ensures istr.Valid()
      ensures r.Ok? <==> RowsAt(istr.text, c0, length, y + 1).Ok?
      ensures r.Ok? ==> var rows := RowsAt(istr.text, c0, length, y + 1).value;
                        istr.At() == rows.rest && |rows.value| <= length * width &&
                        layer.cells[..|rows.value|] == rows.value
    {
      ghost var t := istr.text;
      RowsNext(t, c0, length, y, acc, istr.At());
      RowsFit(length, width, y + 1);
      ghost var cells := CellsAt(t, istr.At(), length);
      var row := ReadRow(layer, y);
      if row.Err? {
        return Err(row.error);
      }
      var ignored := istr.Ignore();
      if ignored.Err? {
        return Err(ignored.error);
      }
      return Ok(());
    }

    /** Row y: length numbers, stored at x = 0, 1, ... of that row. */
    method ReadRow(layer: MapLayer, y: u32) returns (r: Result<(), Failure>)
      requires istr.Valid() && layer.Valid() && layer.length == length && layer.width == width && y < width
      modifies istr, layer.cells
      ensures istr.Valid()
      ensures r.Ok? <==> CellsAt(istr.text, old(istr.At()), length).Ok?
      ensures r.Ok? ==> var row := CellsAt(istr.text, old(istr.At()), length).value;
                        var base := RowStart(length, width, y);
                        istr.At() == row.rest && layer.cells[..base + length] == old(layer.cells[..base]) + row.value
    {
      ghost var c0 := istr.At();
      ghost var base := RowStart(length, width, y);
      ghost var prefix := layer.cells[..base];
      ghost var acc: seq<int> := [];
      var x: u32 := 0;
      while x < length
        invariant x <= length && istr.Valid()
        invariant CellsAt(istr.text, c0, x) == Ok(Read(acc, istr.At()))
        invariant layer.cells[..base + x] == prefix + acc
      {
        var v, acc' := ReadCellAfter(layer, x, y, c0, base, prefix, acc);
        if v.Err? {
          CellsFailureSticks(istr.text, c0, x + 1, length);
          return Err(v.error);
        }
        acc := acc';
        x := x + 1;
      }
      return Ok(());
    }

    /** Cell (x, y), the cells before it in row y read from c0 into acc. */
    method ReadCellAfter(layer: MapLayer, x: u32, y: u32, ghost c0: Cursor, ghost base: nat, ghost prefix: seq<int>, ghost acc: seq<int>)
      returns (r: Result<int, Failure>, ghost acc': seq<int>)
      requires istr.Valid() && layer.Valid() && layer.length == length && layer.width == width && x < length && y < width
      requires base == RowStart(length, width, y)
      requires Within(istr.text, c0) && CellsAt(istr.text, c0, x) == Ok(Read(acc, istr.At()))
      requires layer.cells[..base + x] == prefix + acc
      modifies istr, layer.cells
      ensures istr.Valid()
      ensures r.Ok? <==> CellsAt(istr.text, c0, x + 1).Ok?
      ensures r.Ok? ==> CellsAt(istr.text, c0, x + 1) == Ok(Read(acc', istr.At()))
      ensures r.Ok? ==> layer.cells[..base + (x + 1)] == prefix + acc'
    {
      CellsNext(istr.text, c0, x, acc, istr.At());
      ghost var before := layer.cells[..];
      r := ReadCell(layer, x, y);
      acc' := acc;
      if r.Ok? {
        acc' := acc + [r.value];
        CellAfter(before, layer.cells[..], base + x, prefix, acc, r.value);
      }
    }

    /** `istr_ >> num; layers[i].set_cell_index_at(x, y, num)` for one in-bounds cell. */
    method ReadCell(layer: MapLayer, x: u32, y: u32) returns (r: Result<int, Failure>)
      requires istr.Valid() && layer.Valid() && x < layer.length && y < layer.width
      modifies istr, layer.cells
      ensures istr.Valid()
      ensures r.Ok? <==> IntAt(istr.text, old(istr.At())).Ok?
      ensures r.Ok? ==> var n := IntAt(istr.text, old(istr.At())).value;
                        r.value == n.value && istr.At() == n.rest &&
                        layer.cells[..] == old(layer.cells[..])[RowStart(layer.length, layer.width, y) + x := n.value]
    {
      var num :- istr.ReadInt();
      var stored := layer.SetCellIndexAt(x, y, num);
      return Ok(num);
    }
  }

  lemma RowsFit(length: nat, width: nat, y: nat)
    requires y <= width
    ensures y * length <= length * width
    ensures y == width ==> y * length == length * width
  {
    assert y * length <= width * length;
  }

  /** Writing v just after a prefix of the cells extends that prefix by v. */
  lemma CellAfter(before: seq<int>, after: seq<int>, k: nat, prefix: seq<int>, acc: seq<int>, v: int)
    requires k < |before| && before[..k] == prefix + acc && after == before[k := v]
    ensures after[..k + 1] == prefix + (acc + [v])
  {
    assert after[..k + 1] == after[..k] + [after[k]];
  }
}
