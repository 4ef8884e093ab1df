/**
 * The fixed map builder: a map 40 cells long, 40 wide and 10 layers high,
 * every cell holding the empty cell type 0.
 */
module MapBuilderStatics {
  import opened Wrappers
  import opened Numerals
  import opened MapLayers
  import opened Maps
  import opened MapBuilderStreams
  import opened MapRoundTrip

  /** map_length(), map_width() and map_height(). */
  const StaticLength: u32 := 40
  const StaticWidth: u32 := 40
  const StaticHeight: u32 := 10

  /** The value of the map this builder describes: ten empty 40 x 40 layers. */
  function StaticMap(): (m: MapValue)
    ensures m.length == 40 && m.width == 40 && m.height == 10 && |m.layers| == 10
    ensures forall i | 0 <= i < 10 :: m.layers[i] == EmptyGrid(40, 40)
  {
    MapValue(StaticLength, StaticWidth, StaticHeight, seq(StaticHeight, _ => EmptyGrid(StaticLength, StaticWidth)))
  }

  /** layers(): map_height() fresh layers of map_length() x map_width() cells, all 0. */
  method Layers() returns (layers: seq<MapLayer>)
    ensures |layers| == StaticHeight && OwnLayers(layers, StaticLength, StaticWidth)
    ensures forall k | 0 <= k < |layers| :: fresh(layers[k].cells) && layers[k].Value() == StaticMap().layers[k]
  {
    layers := NewLayerBag(StaticHeight, StaticLength, StaticWidth);
  }

  /** Map(MapBuilderStatic()): the map built from this builder's four answers. */
  method Build() returns (m: Map)
    ensures fresh(m) && m.Valid() && m.Value() == StaticMap()
  {
    var layers := Layers();
    m := new Map(StaticLength, StaticWidth, StaticHeight, layers);
    assert m.Value().layers == StaticMap().layers;
  }

  /** Saving the static map and building from the saved text gives it back. */
  lemma StaticMapSaves()
    ensures LayersWellFormed(StaticMap().layers) && MapAt(MapText(StaticMap())) == Ok(StaticMap())
  {
    var m := StaticMap();
    forall i | 0 <= i < |m.layers|
      ensures WellFormed(m.layers[i]) && ShortCells(m.layers[i])
    {
      assert m.layers[i] == EmptyGrid(40, 40);
    }
    assert Saveable(m);
    SaveLoadRoundTrip(m);
  }
}
