/**
 * The height-field map builder: for every column (x, y) a height is
 * computed, and every layer below that height holds cell type 1 in that
 * column; all other cells keep the empty type 0. The noise generator that
 * computes column heights from the seed is not modelled: the builder is
 * given the column heights as a function.
 */
module MapBuilderSimples {
  import opened Wrappers
  import opened Numerals
  import opened MapLayers
  import opened Maps
  import opened MapBuilderStreams
  import opened MapRoundTrip

  class MapBuilderSimple {
    const length: u32
    const width: u32
    const height: u32
    /** The height the seeded noise gives the column at (x, y). */
    const heightAt: (nat, nat) -> nat

    /** MapBuilderSimple(length, width, height, seed): stores its arguments. */
    constructor (length: u32, width: u32, height: u32, heightAt: (nat, nat) -> nat)
      ensures this.length == length && this.width == width && this.height == height
      ensures this.heightAt == heightAt
    {
      this.length := length;
      this.width := width;
      this.height := height;
      this.heightAt := heightAt;
    }

    /** No column is taller than the map, so every write lands in an existing layer. */
    predicate HeightsFit() {
      forall x: nat, y: nat | x < length && y < width :: heightAt(x, y) <= height
    }

    /** Layer k after the columns at the first n storage offsets have been filled. */
    function Filled(k: nat, n: nat): (g: Grid)
      ensures WellFormed(g) && g.length == length && g.width == width
    {
      Grid(length, width, seq(length * width, (i: nat) => if i < n && length > 0 && k < heightAt(i % length, i / length) then 1 else 0))
    }

    /** Layer k as layers() returns it. */
    function SimpleLayer(k: nat): (g: Grid)
      ensures WellFormed(g) && g.length == length && g.width == width
    {
      Filled(k, length * width)
    }

    /** The value of the map built from this builder. */
    function SimpleMap(): (m: MapValue)
      ensures m.length == length && m.width == width && m.height == height && |m.layers| == height
      ensures forall k | 0 <= k < height :: m.layers[k] == SimpleLayer(k)
    {
      MapValue(length, width, height, seq(height, (k: nat) => SimpleLayer(k)))
    }

    /** Layer k holds 1 at (x, y) exactly when k is below the column's height, and 0 otherwise. */
    lemma SimpleLayerCell(k: nat, x: nat, y: nat)
      requires x < length && y < width
      ensures Cell(SimpleLayer(k), x, y) == if k < heightAt(x, y) then 1 else 0
    {
      var o := Offset(length, width, x, y).value;
      assert o < length * width && o % length == x && o / length == y;
    }

    /** The solid cells of a column form a run starting at layer 0. */
    lemma SolidColumnsArePrefixes(j: nat, k: nat, x: nat, y: nat)
      requires j <= k && x < length && y < width
      ensures Cell(SimpleLayer(k), x, y) == 1 ==> Cell(SimpleLayer(j), x, y) == 1
      ensures Cell(SimpleLayer(j), x, y) == 0 || Cell(SimpleLayer(j), x, y) == 1
    {
      SimpleLayerCell(j, x, y);
      SimpleLayerCell(k, x, y);
    }

    /** Filling the column at offset o, in a layer below the column's height, sets that cell to 1. */
    lemma FillStep(k: nat, o: nat, x: nat, y: nat)
      requires x < length && y < width && o == y * length + x && k < heightAt(x, y)
      ensures WithCell(Filled(k, o), x, y, 1) == Filled(k, o + 1)
    {
      var p := Offset(length, width, x, y).value;
      assert p == o;
      var a, b := WithCell(Filled(k, o), x, y, 1).cells, Filled(k, o + 1).cells;
      forall i | 0 <= i < |a|
        ensures a[i] == b[i]
      {
        if i == o {
          assert i % length == x && i / length == y;
        }
      }
    }

    /** A layer at or above the column's height is left as it was. */
    lemma FillSkip(k: nat, o: nat, x: nat, y: nat)
      requires x < length && y < width && o == y * length + x && heightAt(x, y) <= k
      ensures Filled(k, o) == Filled(k, o + 1)
    {
      var p := Offset(length, width, x, y).value;
      assert p == o && p % length == x && p / length == y;
      var a, b := Filled(k, o).cells, Filled(k, o + 1).cells;
      forall i | 0 <= i < |a|
        ensures a[i] == b[i]
      {
      }
    }

    /** The h loop for column (x, y): layers below the column's height get a 1 there. */
    method FillColumn(layers: seq<MapLayer>, x: u32, y: u32, ghost o: nat)
      requires HeightsFit() && |layers| == height && OwnLayers(layers, length, width)
      requires x < length && y < width && o == y as nat * length + x
      requires forall k | 0 <= k < |layers| :: layers[k].Value() == Filled(k, o)
      modifies set k | 0 <= k < |layers| :: layers[k].cells
      ensures forall k | 0 <= k < |layers| :: layers[k].Value() == Filled(k, o + 1)
    {
      var c := heightAt(x as nat, y as nat);
      var h := 0;
      while h < c
        invariant h <= c <= height
        invariant forall k | 0 <= k < h :: layers[k].Value() == Filled(k, o + 1)
        invariant forall k | h <= k < |layers| :: layers[k].Value() == Filled(k, o)
      {
        var written := layers[h].SetCellIndexAt(x, y, 1);
        FillStep(h, o, x as nat, y as nat);
        h := h + 1;
      }
      forall k | c <= k < |layers|
        ensures Filled(k, o) == Filled(k, o + 1)
      {
        FillSkip(k, o, x as nat, y as nat);
      }
    }

    /**
     * layers(): map_height() fresh layers of map_length() x map_width()
     * cells, filled row by row and column by column.
     */
    method Layers() returns (layers: seq<MapLayer>)
      requires HeightsFit()
      ensures |layers| == height && OwnLayers(layers, length, width)
      ensures forall k | 0 <= k < height :: fresh(layers[k].cells) && layers[k].Value() == SimpleLayer(k)
    {
      layers := NewLayerBag(height, length, width);
      forall k | 0 <= k < height
        ensures layers[k].Value() == Filled(k, 0)
      {
        assert layers[k].Value() == EmptyGrid(length, width);
      }
      var y: u32 := 0;
      ghost var o: nat := 0;
      while y < width
        invariant y <= width && o == y as nat * length
        invariant forall k | 0 <= k < height :: fresh(layers[k].cells)
        invariant forall k | 0 <= k < |layers| :: layers[k].Value() == Filled(k, o)
      {
        var x: u32 := 0;
        while x < length
          invariant x <= length && o == y as nat * length + x
          invariant forall k | 0 <= k < height :: fresh(layers[k].cells)
          invariant forall k | 0 <= k < |layers| :: layers[k].Value() == Filled(k, o)
        {
          FillColumn(layers, x, y, o);
          o := o + 1;
          x := x + 1;
        }
        RowAfterRow(y as nat, length);
        y := y + 1;
      }
      assert o == length * width;
    }

    /** Map(MapBuilderSimple(...)): the map built from this builder's four answers. */
    method Build() returns (m: Map)
      requires HeightsFit()
      ensures fresh(m) && m.Valid() && m.Value() == SimpleMap()
    {
      var layers := Layers();
      m := new Map(length, width, height, layers);
      assert m.Value().layers == SimpleMap().layers;
    }

    /** Only 0 and 1 are written, so a simple map saves and loads back when it has at most 2^31 layers. */
    lemma SimpleMapSaves()
      requires height <= INT_MAX + 1
      ensures LayersWellFormed(SimpleMap().layers) && MapAt(MapText(SimpleMap())) == Ok(SimpleMap())
    {
      var m := SimpleMap();
      forall k | 0 <= k < |m.layers|
        ensures ShortCells(m.layers[k])
      {
        forall i | 0 <= i < |m.layers[k].cells|
          ensures -99 <= m.layers[k].cells[i] <= 999
        {
        }
      }
      assert Saveable(m);
      SaveLoadRoundTrip(m);
    }
  }

  lemma RowAfterRow(y: nat, length: nat)
    ensures y * length + length == (y + 1) * length
  {
  }
}
