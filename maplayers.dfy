/** The map's flat layer list as the query handlers change it: they show or
    hide every vector layer, drop the temporary result layer of an earlier
    query and add the layer a query creates. */
module MapLayers {
  import opened Common
  import opened Query

  /** A layer of the map (`LayerStore.getState().flatLayers`). */
  datatype MapLayer = MapLayer(id: string, title: string, features: seq<Row>, isVector: bool, visible: bool)

  /** The id the older table gives its one temporary result layer. */
  const LegacyTempId := "sdk-layer-filterResults"

  /** How a version of the table recognises its temporary result layer: the
      current one by the title 'filteredFeatures', the older one by its fixed id. */
  datatype TempMark = ByTitle | ById

  predicate IsTemp(mark: TempMark, l: MapLayer) {
    match mark
    case ByTitle => l.title == FilteredFeaturesTitle
    case ById => l.id == LegacyTempId
  }

  /** Whether a sweep removes the layer from the map. */
  predicate Dropped(l: MapLayer, mark: TempMark, dropTemp: bool) {
    dropTemp && l.isVector && IsTemp(mark, l)
  }

  /** What a sweep leaves of a layer it keeps: vector layers get the new visibility. */
  function Restyled(l: MapLayer, visible: bool): MapLayer {
    if l.isVector then l.(visible := visible) else l
  }

  /** One pass over the flat layers: every vector layer is set to `visible`,
      and when `dropTemp` holds the vector layers marked as temporary are
      removed from the map. */
  function Sweep(layers: seq<MapLayer>, mark: TempMark, dropTemp: bool, visible: bool): seq<MapLayer> {
    if layers == [] then []
    else
      var l := layers[|layers| - 1];
      Sweep(layers[..|layers| - 1], mark, dropTemp, visible)
        + (if Dropped(l, mark, dropTemp) then [] else [Restyled(l, visible)])
  }

  /** The loop over `flatLayers` that calls `setVisible` and `map.removeLayer`. */
  method SweepLayers(layers: seq<MapLayer>, mark: TempMark, dropTemp: bool, visible: bool) returns (r: seq<MapLayer>)
    ensures r == Sweep(layers, mark, dropTemp, visible)
  {
    r := [];
    var i := 0;
    while i < |layers|
      invariant 0 <= i <= |layers|
      invariant r == Sweep(layers[..i], mark, dropTemp, visible)
    {
      var l := layers[i];
      if l.isVector {
        if !(dropTemp && IsTemp(mark, l)) {
          r := r + [l.(visible := visible)];
        }
      } else {
        r := r + [l];
      }
      assert layers[..i + 1][..i] == layers[..i];
      i := i + 1;
    }
    assert layers[..i] == layers;
  }

  /** A layer is on the map after a sweep exactly when it is the restyled form
      of a layer that the sweep does not drop. */
  lemma {:induction false} SweepMembership(layers: seq<MapLayer>, mark: TempMark, dropTemp: bool, visible: bool, x: MapLayer)
    ensures x in Sweep(layers, mark, dropTemp, visible) <==>
      exists k :: 0 <= k < |layers| && !Dropped(layers[k], mark, dropTemp) && x == Restyled(layers[k], visible)
  {
    if layers != [] {
      var prefix := layers[..|layers| - 1];
      SweepMembership(prefix, mark, dropTemp, visible, x);
      if exists k :: 0 <= k < |prefix| && !Dropped(prefix[k], mark, dropTemp) && x == Restyled(prefix[k], visible) {
        var k :| 0 <= k < |prefix| && !Dropped(prefix[k], mark, dropTemp) && x == Restyled(prefix[k], visible);
        assert layers[k] == prefix[k];
      }
      if exists k :: 0 <= k < |layers| && !Dropped(layers[k], mark, dropTemp) && x == Restyled(layers[k], visible) {
        var k :| 0 <= k < |layers| && !Dropped(layers[k], mark, dropTemp) && x == Restyled(layers[k], visible);
        if k < |prefix| {
          assert layers[k] == prefix[k];
        }
      }
    }
  }

  /** After a sweep every vector layer has the requested visibility, no marked
      temporary vector layer is left when they were to be dropped, and every
      layer that is not a vector layer is still there, untouched. */
  lemma {:induction false} SweepEffect(layers: seq<MapLayer>, mark: TempMark, dropTemp: bool, visible: bool)
    ensures var r := Sweep(layers, mark, dropTemp, visible);
      |r| <= |layers|
      && (forall i :: 0 <= i < |r| && r[i].isVector ==> r[i].visible == visible)
      && (forall i :: 0 <= i < |r| && r[i].isVector ==> !Dropped(r[i], mark, dropTemp))
      && (forall i :: 0 <= i < |layers| && !layers[i].isVector ==> layers[i] in r)
  {
    if layers != [] {
      var prefix := layers[..|layers| - 1];
      SweepEffect(prefix, mark, dropTemp, visible);
      var r := Sweep(layers, mark, dropTemp, visible);
      forall i | 0 <= i < |layers| && !layers[i].isVector
        ensures layers[i] in r
      {
        if i < |prefix| {
          assert prefix[i] == layers[i];
        }
      }
    }
  }

  /** A sweep that drops nothing keeps every layer in place and only changes visibility. */
  lemma {:induction false} SweepKeepsPositions(layers: seq<MapLayer>, mark: TempMark, visible: bool)
    ensures var r := Sweep(layers, mark, false, visible);
      |r| == |layers|
      && forall i :: 0 <= i < |r| ==> r[i] == Restyled(layers[i], visible)
  {
    if layers != [] {
      var prefix := layers[..|layers| - 1];
      SweepKeepsPositions(prefix, mark, visible);
      assert forall i :: 0 <= i < |prefix| ==> prefix[i] == layers[i];
    }
  }

  /** Showing a result layer: the vector layers already on the map after the
      sweep that hides them are all hidden, so the appended layer is the only
      visible vector layer; and when the layers were first swept clean of
      temporary layers, the appended one is the only temporary vector layer. */
  lemma ResultLayerAlone(layers: seq<MapLayer>, mark: TempMark, result: MapLayer)
    requires result.isVector && result.visible && IsTemp(mark, result)
    ensures var m := Sweep(Sweep(layers, mark, true, true), mark, false, false) + [result];
      m[|m| - 1] == result
      && forall i :: 0 <= i < |m| - 1 && m[i].isVector ==> !m[i].visible && !IsTemp(mark, m[i])
  {
    var cleared := Sweep(layers, mark, true, true);
    SweepEffect(layers, mark, true, true);
    SweepKeepsPositions(cleared, mark, false);
  }
}
