/**
 * The local, playable part of the world: the extents shared by every layer,
 * the number of layers (its height) and the layers themselves, bottom first.
 * A map takes all four from a builder and writes itself in the save format
 * that MapBuilderStream reads.
 */
module Maps {
  import opened Wrappers
  import opened Numerals
  import opened MapLayers

  /** The value of a map: its extents and the values of its layers, in order. */
  datatype MapValue = MapValue(length: nat, width: nat, height: nat, layers: seq<Grid>)

  /** The date stamp written on the first line of every save. */
  const VersionStamp: string := "20161108"

  predicate LayersWellFormed(layers: seq<Grid>) {
    forall i | 0 <= i < |layers| :: WellFormed(layers[i])
  }

  /** The second header line: the three extents. */
  function ExtentsLine(length: nat, width: nat, height: nat): string {
    "lwh " + (NatText(length) + (" " + (NatText(width) + (" " + (NatText(height) + "\n")))))
  }

  /** The header lines of a save: the version line, then the extents line. */
  function HeaderText(length: nat, width: nat, height: nat): string {
    "version " + VersionStamp + "\n" + ExtentsLine(length, width, height)
  }

  /** The section of layer i: a line "layer i", then the layer's rows. */
  function SectionText(i: nat, g: Grid): string
    requires WellFormed(g)
  {
    "layer " + NatText(i) + "\n" + GridText(g)
  }

  /** The first k layer sections. */
  function SectionsText(layers: seq<Grid>, k: nat): string
    requires LayersWellFormed(layers) && k <= |layers|
  {
    if k == 0 then "" else SectionsText(layers, k - 1) + SectionText(k - 1, layers[k - 1])
  }

  /** What `operator<<` writes for a map. */
  function MapText(m: MapValue): string
    requires LayersWellFormed(m.layers) && |m.layers| == m.height
  {
    HeaderText(m.length, m.width, m.height) + SectionsText(m.layers, m.height)
  }

  /** The values of a sequence of layers. */
  function Values(ls: seq<MapLayer>): (gs: seq<Grid>)
    reads set l | l in ls :: l.cells
    ensures |gs| == |ls| && forall i | 0 <= i < |ls| :: gs[i] == ls[i].Value()
  {
    if ls == [] then [] else Values(ls[..|ls| - 1]) + [ls[|ls| - 1].Value()]
  }

  class Map {
    const length: u32
    const width: u32
    const height: u32
    const layers: seq<MapLayer>

    /** One layer per unit of height, each owning its own cell storage. */
    ghost predicate Valid() {
      |layers| == height &&
      (forall i | 0 <= i < |layers| :: layers[i].Valid()) &&
      (forall i, j | 0 <= i < j < |layers| :: layers[i].cells != layers[j].cells)
    }

    /** The cell storage of all layers: what a change through layer(i) may touch. */
    ghost function Repr(): set<array<i32>> {
      CellsOf(layers)
    }

    function Value(): (m: MapValue)
      reads Repr()
      ensures m.length == length && m.width == width && m.height == height
      ensures |m.layers| == |layers| && forall i | 0 <= i < |layers| :: m.layers[i] == layers[i].Value()
    {
      MapValue(length, width, height, Values(layers))
    }

    /**
     * Map(builder): takes the builder's map_length(), map_width(),
     * map_height() and layers(), in that order, and checks nothing about
     * how they fit together. The caller (a builder) supplies height layers.
     */
    constructor (length: u32, width: u32, height: u32, layers: seq<MapLayer>)
      requires |layers| == height
      requires forall i | 0 <= i < |layers| :: layers[i].Valid()
      requires forall i, j | 0 <= i < j < |layers| :: layers[i].cells != layers[j].cells
      ensures Valid()
      ensures this.length == length && this.width == width && this.height == height
      ensures this.layers == layers
    {
      this.length := length;
      this.width := width;
      this.height := height;
      this.layers := layers;
    }

    /** layer(i), both forms: the layer itself (a reference), or OutOfRange. */
    function Layer(i: u32): (r: Result<MapLayer, Error>)
      requires Valid()
      ensures r.Ok? <==> i < height
      ensures r.Ok? ==> r.value == layers[i] && r.value.Valid()
    {
      if i >= height then Err(OutOfRange) else Ok(layers[i])
    }

    /** operator==: same extents, same height, and layer i equal to layer i for every i. */
    method Equals(other: Map) returns (r: bool)
      requires Valid() && other.Valid()
      ensures r <==> length == other.length && width == other.width && height == other.height &&
                     forall i | 0 <= i < height :: layers[i].Value() == other.layers[i].Value()
      ensures r <==> Value() == other.Value()
    {
      if length != other.length {
        return false;
      }
      if width != other.width {
        return false;
      }
      if height != other.height {
        return false;
      }
      var i: u32 := 0;
      while i < height
        invariant i <= height
        invariant forall k | 0 <= k < i :: layers[k].Value() == other.layers[k].Value()
      {
        var same := Layer(i).value.Equals(other.Layer(i).value);
        EqualsIsValueEquality(layers[i], other.layers[i]);
        if !same {
          assert Value().layers[i] != other.Value().layers[i];
          return false;
        }
        i := i + 1;
      }
      assert Value().layers == other.Value().layers;
      return true;
    }

    /** operator<<: the version line, the extents line, then every layer under its "layer i" line. */
    method Dump() returns (s: string)
      requires Valid()
      ensures LayersWellFormed(Value().layers) && s == MapText(Value())
    {
      ghost var ls := Value().layers;
      assert LayersWellFormed(ls) && |ls| == height;
      s := DumpHeader();
      var i: u32 := 0;
      while i < height
        invariant i <= height
        invariant s == HeaderText(length, width, height) + SectionsText(ls, i)
      {
        var section := DumpSection(i);
        SectionsStep(HeaderText(length, width, height), ls, i, s, section);
        s := s + section;
        i := i + 1;
      }
    }

    /** The version line and the extents line. */
    method DumpHeader() returns (s: string)
      ensures s == HeaderText(length, width, height)
    {
      s := "version " + VersionStamp + "\n";
      s := s + ("lwh " + (NatText(length) + (" " + (NatText(width) + (" " + (NatText(height) + "\n"))))));
    }

    /** The section of layer i: its "layer i" line, then the layer's rows. */
    method DumpSection(i: u32) returns (s: string)
      requires Valid() && i < height
      ensures LayersWellFormed(Value().layers) && i < |Value().layers|
      ensures s == SectionText(i, Value().layers[i])
    {
      var body := Layer(i).value.Dump();
      s := "layer " + NatText(i) + "\n" + body;
    }
  }

  /** Appending the next section to a text that ends in the first i sections gives the first i + 1. */
  lemma SectionsStep(hd: string, ls: seq<Grid>, i: nat, s: string, section: string)
    requires LayersWellFormed(ls) && i < |ls|
    requires s == hd + SectionsText(ls, i)
    requires section == SectionText(i, ls[i])
    ensures s + section == hd + SectionsText(ls, i + 1)
  {
    assert SectionsText(ls, i + 1) == SectionsText(ls, i) + section;
    ConcatAssoc(hd, SectionsText(ls, i), section);
  }

  /**
   * map.layer(i).set_cell_index_at(x, y, v): the write lands in layer i
   * only; every other layer and the extents stay as they were.
   */
  method SetCellThroughLayer(m: Map, i: u32, x: u32, y: u32, v: i32) returns (r: Result<(), Error>)
    requires m.Valid()
    modifies m.Repr()
    ensures m.Valid()
    ensures r.Ok? <==> i < m.height && x < m.layers[i].length && y < m.layers[i].width
    ensures r.Ok? ==> m.Value().layers == old(m.Value().layers)[i := WithCell(old(m.Value().layers[i]), x, y, v)]
    ensures r.Err? ==> m.Value() == old(m.Value())
  {
    var layer :- m.Layer(i);
    r := layer.SetCellIndexAt(x, y, v);
    assert forall k | 0 <= k < m.height && k != i :: m.layers[k].cells != m.layers[i].cells;
  }
}
