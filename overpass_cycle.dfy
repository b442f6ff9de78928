/**
 * One refresh cycle of the map dashboard: the reply of the interpreter is
 * resolved into road paths and signal markers, and the two map layers are
 * cleared and repopulated.  script.js:70-161 and static/app.js:48-129 run
 * the same cycle; this module models both.
 */
module OverpassCycle {
  import opened Common
  import opened OverpassQuery

  /** `[lat, lon]` as stored in the node table. */
  type Coord = (real, real)
  type Path = seq<Coord>
  type Tags = map<string, string>

  /**
   * An element of the reply.  A missing `tags` object is the empty map; a
   * way without `nodes` behaves as one with an empty id list.
   */
  datatype Element =
    | Node(id: int, lat: real, lon: real, tags: Tags)
    | Way(nodes: seq<int>, tags: Tags)
    | OtherElement

  /** The outcome of `fetch` plus `response.json()`. */
  datatype Reply = Elements(elements: seq<Element>) | FetchFailed

  datatype Marker = Marker(lat: real, lon: real, popup: string)

  datatype Polyline = Polyline(path: Path, color: string, weight: int, opacity: real)

  /** The three "congestion" colours a line is drawn in. */
  const TrafficStyles: seq<string> := ["#22c55e", "#f97316", "#ef4444"]

  // ---------------------------------------------------------------- node table

  /** The `nodes` dictionary after the first `forEach` over `elements`. */
  function NodeTable(elements: seq<Element>): map<int, Coord>
    decreases |elements|
  {
    if |elements| == 0 then map[]
    else
      var table := NodeTable(elements[..|elements| - 1]);
      var e := elements[|elements| - 1];
      if e.Node? then table[e.id := (e.lat, e.lon)] else table
  }

  /** The first `forEach`: one pass writing every node's coordinates under its id. */
  method BuildNodeTable(elements: seq<Element>) returns (nodes: map<int, Coord>)
    ensures nodes == NodeTable(elements)
  {
    nodes := map[];
    var i := 0;
    while i < |elements|
      invariant 0 <= i <= |elements|
      invariant nodes == NodeTable(elements[..i])
    {
      var el := elements[i];
      if el.Node? {
        nodes := nodes[el.id := (el.lat, el.lon)];
      }
      assert elements[..i + 1][..i] == elements[..i];
      i := i + 1;
    }
    assert elements[..i] == elements;
  }

  /** An id is in the table exactly when some node of the reply carries it. */
  lemma {:induction false} NodeTableDomain(elements: seq<Element>, id: int)
    ensures id in NodeTable(elements) <==>
            exists i :: 0 <= i < |elements| && elements[i].Node? && elements[i].id == id
    decreases |elements|
  {
    if |elements| > 0 {
      var n := |elements| - 1;
      var prefix := elements[..n];
      NodeTableDomain(prefix, id);
      if id in NodeTable(elements) && !(elements[n].Node? && elements[n].id == id) {
        var i :| 0 <= i < |prefix| && prefix[i].Node? && prefix[i].id == id;
        assert elements[i] == prefix[i];
      }
      if exists i :: 0 <= i < |elements| && elements[i].Node? && elements[i].id == id {
        var i :| 0 <= i < |elements| && elements[i].Node? && elements[i].id == id;
        if i < n {
          assert prefix[i] == elements[i];
        }
      }
    }
  }

  /** When several nodes share an id, the table keeps the last one's coordinates. */
  lemma {:induction false} NodeTableLastWins(elements: seq<Element>, i: int)
    requires 0 <= i < |elements| && elements[i].Node?
    requires forall j :: i < j < |elements| && elements[j].Node? ==> elements[j].id != elements[i].id
    ensures elements[i].id in NodeTable(elements)
    ensures NodeTable(elements)[elements[i].id] == (elements[i].lat, elements[i].lon)
    decreases |elements|
  {
    var n := |elements| - 1;
    if i < n {
      var prefix := elements[..n];
      assert prefix[i] == elements[i];
      forall j | i < j < |prefix| && prefix[j].Node?
        ensures prefix[j].id != prefix[i].id
      {
        assert prefix[j] == elements[j];
      }
      NodeTableLastWins(prefix, i);
    }
  }

  // ---------------------------------------------------------------- way resolution

  /**
   * `el.nodes.map(nodeId => nodes[nodeId]).filter(Boolean)`: every id looked
   * up in the table, with the ids the table lacks dropped.
   */
  function ResolvePath(ids: seq<int>, nodes: map<int, Coord>): (path: Path)
    ensures |path| <= |ids|
  {
    if |ids| == 0 then []
    else (if ids[0] in nodes then [nodes[ids[0]]] else []) + ResolvePath(ids[1..], nodes)
  }

  /** Resolution keeps the order of the ids: it distributes over concatenation. */
  lemma {:induction false} ResolveAppend(a: seq<int>, b: seq<int>, nodes: map<int, Coord>)
    ensures ResolvePath(a + b, nodes) == ResolvePath(a, nodes) + ResolvePath(b, nodes)
    decreases |a|
  {
    if |a| > 0 {
      assert (a + b)[1..] == a[1..] + b;
      ResolveAppend(a[1..], b, nodes);
    } else {
      assert a + b == b;
    }
  }

  /** An id the table lacks contributes nothing to the path. */
  lemma UnknownIdDropped(a: seq<int>, id: int, b: seq<int>, nodes: map<int, Coord>)
    requires id !in nodes
    ensures ResolvePath(a + [id] + b, nodes) == ResolvePath(a + b, nodes)
  {
    ResolveAppend(a + [id], b, nodes);
    ResolveAppend(a, [id], nodes);
    ResolveAppend(a, b, nodes);
  }

  /** When every id resolves, nothing is dropped and the path follows the ids. */
  lemma {:induction false} ResolveAllKnown(ids: seq<int>, nodes: map<int, Coord>)
    requires forall k :: 0 <= k < |ids| ==> ids[k] in nodes
    ensures |ResolvePath(ids, nodes)| == |ids|
    ensures forall k :: 0 <= k < |ids| ==> ResolvePath(ids, nodes)[k] == nodes[ids[k]]
    decreases |ids|
  {
    if |ids| > 0 {
      ResolveAllKnown(ids[1..], nodes);
    }
  }

  /** Every point of a resolved path is the table entry of one of the way's ids. */
  lemma {:induction false} ResolvedPointsComeFromIds(ids: seq<int>, nodes: map<int, Coord>, k: int)
    requires 0 <= k < |ResolvePath(ids, nodes)|
    ensures exists j :: 0 <= j < |ids| && ids[j] in nodes && ResolvePath(ids, nodes)[k] == nodes[ids[j]]
    decreases |ids|
  {
    var head := if ids[0] in nodes then [nodes[ids[0]]] else [];
    if k >= |head| {
      ResolvedPointsComeFromIds(ids[1..], nodes, k - |head|);
      var j :| 0 <= j < |ids[1..]| && ids[1..][j] in nodes && ResolvePath(ids[1..], nodes)[k - |head|] == nodes[ids[1..][j]];
      assert ids[j + 1] == ids[1..][j];
    }
  }

  // ---------------------------------------------------------------- roads and signals

  /** The path a way contributes to `roadData`, if it has more than one point. */
  predicate IsDrawnWay(e: Element, nodes: map<int, Coord>)
  {
    e.Way? && |ResolvePath(e.nodes, nodes)| > 1
  }

  /** `roadData` after the second `forEach`. */
  function RoadData(elements: seq<Element>, nodes: map<int, Coord>): (roads: seq<Path>)
    ensures |roads| <= |elements|
    ensures forall k :: 0 <= k < |roads| ==> |roads[k]| > 1
    decreases |elements|
  {
    if |elements| == 0 then []
    else
      var e := elements[|elements| - 1];
      RoadData(elements[..|elements| - 1], nodes)
      + (if IsDrawnWay(e, nodes) then [ResolvePath(e.nodes, nodes)] else [])
  }

  /** A path is kept exactly when it comes from a way that resolves to two or more points. */
  lemma {:induction false} RoadDataMembers(elements: seq<Element>, nodes: map<int, Coord>, p: Path)
    ensures p in RoadData(elements, nodes) <==>
            exists i :: 0 <= i < |elements| && IsDrawnWay(elements[i], nodes) && p == ResolvePath(elements[i].nodes, nodes)
    decreases |elements|
  {
    if |elements| > 0 {
      var n := |elements| - 1;
      var prefix := elements[..n];
      RoadDataMembers(prefix, nodes, p);
      if p in RoadData(prefix, nodes) {
        var i :| 0 <= i < |prefix| && IsDrawnWay(prefix[i], nodes) && p == ResolvePath(prefix[i].nodes, nodes);
        assert elements[i] == prefix[i];
      }
      if exists i :: 0 <= i < |elements| && IsDrawnWay(elements[i], nodes) && p == ResolvePath(elements[i].nodes, nodes) {
        var i :| 0 <= i < |elements| && IsDrawnWay(elements[i], nodes) && p == ResolvePath(elements[i].nodes, nodes);
        if i < n {
          assert prefix[i] == elements[i];
        }
      }
    }
  }

  /** Paths are appended in element order: the road data of a split reply is the concatenation. */
  lemma {:induction false} RoadDataAppend(a: seq<Element>, b: seq<Element>, nodes: map<int, Coord>)
    ensures RoadData(a + b, nodes) == RoadData(a, nodes) + RoadData(b, nodes)
    decreases |b|
  {
    if |b| == 0 {
      assert a + b == a;
    } else {
      var n := |b| - 1;
      assert (a + b)[..|a + b| - 1] == a + b[..n];
      RoadDataAppend(a, b[..n], nodes);
    }
  }

  /** `el.type === 'node'` with `tags.highway` or `tags.crossing` equal to `traffic_signals`. */
  predicate IsSignalNode(e: Element)
  {
    e.Node? &&
    (("highway" in e.tags && e.tags["highway"] == "traffic_signals") ||
     ("crossing" in e.tags && e.tags["crossing"] == "traffic_signals"))
  }

  function SignalMarker(e: Element): Marker
    requires e.Node?
  {
    Marker(e.lat, e.lon, "Traffic Signal")
  }

  /** The markers the second `forEach` adds to the signal layer, in element order. */
  function SignalMarkers(elements: seq<Element>): (markers: seq<Marker>)
    ensures |markers| <= |elements|
    decreases |elements|
  {
    if |elements| == 0 then []
    else
      var e := elements[|elements| - 1];
      SignalMarkers(elements[..|elements| - 1]) + (if IsSignalNode(e) then [SignalMarker(e)] else [])
  }

  /** A marker sits at a node exactly when that node is tagged as a signal. */
  lemma {:induction false} SignalMarkersMembers(elements: seq<Element>, m: Marker)
    ensures m in SignalMarkers(elements) <==>
            exists i :: 0 <= i < |elements| && IsSignalNode(elements[i]) && m == SignalMarker(elements[i])
    decreases |elements|
  {
    if |elements| > 0 {
      var n := |elements| - 1;
      var prefix := elements[..n];
      SignalMarkersMembers(prefix, m);
      if m in SignalMarkers(prefix) {
        var i :| 0 <= i < |prefix| && IsSignalNode(prefix[i]) && m == SignalMarker(prefix[i]);
        assert elements[i] == prefix[i];
      }
      if exists i :: 0 <= i < |elements| && IsSignalNode(elements[i]) && m == SignalMarker(elements[i]) {
        var i :| 0 <= i < |elements| && IsSignalNode(elements[i]) && m == SignalMarker(elements[i]);
        if i < n {
          assert prefix[i] == elements[i];
        }
      }
    }
  }

  /** A single element yields its own marker when it is a signal node, and nothing otherwise. */
  lemma SignalMarkersSingle(e: Element)
    ensures SignalMarkers([e]) == if IsSignalNode(e) then [SignalMarker(e)] else []
  {
    assert [e][..0] == [];
  }

  /** The markers of two replies back to back are those of the first, then those of the second. */
  lemma {:induction false} SignalMarkersAppend(a: seq<Element>, b: seq<Element>)
    ensures SignalMarkers(a + b) == SignalMarkers(a) + SignalMarkers(b)
    decreases |b|
  {
    if |b| == 0 {
      assert a + b == a;
    } else {
      var n := |b| - 1;
      assert (a + b)[..|a + b| - 1] == a + b[..n];
      SignalMarkersAppend(a, b[..n]);
    }
  }

  /**
   * A reply whose nodes carry no tags (what `out skel` returns for the nodes
   * of the requested ways) produces no markers, whatever the zoom level.
   */
  lemma {:induction false} UntaggedNodesGiveNoMarkers(elements: seq<Element>)
    requires forall i :: 0 <= i < |elements| && elements[i].Node? ==> elements[i].tags == map[]
    ensures SignalMarkers(elements) == []
    decreases |elements|
  {
    if |elements| > 0 {
      var n := |elements| - 1;
      forall i | 0 <= i < n && elements[..n][i].Node?
        ensures elements[..n][i].tags == map[]
      {
        assert elements[..n][i] == elements[i];
      }
      UntaggedNodesGiveNoMarkers(elements[..n]);
    }
  }

  // ---------------------------------------------------------------- line styles

  /** `baseWeight`: 2 below zoom 13, 3 below zoom 15, 4 otherwise. */
  function BaseWeight(zoom: int): (w: int)
    ensures 2 <= w <= 4
    ensures w == 2 <==> zoom < 13
    ensures w == 4 <==> zoom >= 15
  {
    if zoom < 13 then 2 else if zoom < 15 then 3 else 4
  }

  /** Zooming in never makes the lines thinner. */
  lemma BaseWeightMonotone(z1: int, z2: int)
    requires z1 <= z2
    ensures BaseWeight(z1) <= BaseWeight(z2)
  {
  }

  /** `Math.floor(Math.random() * trafficStyles.length)` for a draw in [0, 1). */
  function ColorIndex(draw: real): (i: nat)
    requires 0.0 <= draw < 1.0
    ensures i < |TrafficStyles|
  {
    (draw * (|TrafficStyles| as real)).Floor
  }

  /** The style of one line, from its two random draws. */
  function StyledLine(path: Path, baseWeight: int, colorDraw: real, weightDraw: real): Polyline
    requires 0.0 <= colorDraw < 1.0
  {
    Polyline(path, TrafficStyles[ColorIndex(colorDraw)],
             baseWeight + (if weightDraw > 0.8 then 2 else 0), 0.8)
  }

  /** Draws `2 * k` and `2 * k + 1` of the random stream colour and weight the k-th line. */
  ghost predicate ValidDraws(random: nat -> real)
  {
    forall k :: 0.0 <= random(k) < 1.0
  }

  /** The lines `drawTrafficLines` adds for `roadData`, in order. */
  function TrafficLines(roadData: seq<Path>, zoom: int, random: nat -> real): (lines: seq<Polyline>)
    requires ValidDraws(random)
    ensures |lines| == |roadData|
    decreases |roadData|
  {
    if |roadData| == 0 then []
    else
      var k := |roadData| - 1;
      TrafficLines(roadData[..k], zoom, random)
      + [StyledLine(roadData[k], BaseWeight(zoom), random(2 * k), random(2 * k + 1))]
  }

  /**
   * The k-th line draws the k-th path, in one of the three palette colours,
   * with the base weight of the zoom band, plus 2 exactly when its weight
   * draw exceeds 0.8.
   */
  lemma {:induction false} TrafficLineStyle(roadData: seq<Path>, zoom: int, random: nat -> real, k: int)
    requires ValidDraws(random)
    requires 0 <= k < |roadData|
    ensures var line := TrafficLines(roadData, zoom, random)[k];
      && line.path == roadData[k]
      && line.color in TrafficStyles
      && line.opacity == 0.8
      && (line.weight == BaseWeight(zoom) || line.weight == BaseWeight(zoom) + 2)
      && (line.weight == BaseWeight(zoom) + 2 <==> random(2 * k + 1) > 0.8)
    decreases |roadData|
  {
    var n := |roadData| - 1;
    if k < n {
      TrafficLineStyle(roadData[..n], zoom, random, k);
    }
  }

  lemma TrafficLinesPrefix(roadData: seq<Path>, zoom: int, random: nat -> real, i: int)
    requires ValidDraws(random)
    requires 0 <= i < |roadData|
    ensures TrafficLines(roadData[..i + 1], zoom, random) ==
            TrafficLines(roadData[..i], zoom, random)
            + [StyledLine(roadData[i], BaseWeight(zoom), random(2 * i), random(2 * i + 1))]
  {
    assert roadData[..i + 1][..i] == roadData[..i];
  }

  // ---------------------------------------------------------------- the map view

  /** The two layer groups and the loading indicator of the dashboard. */
  class MapView {
    var trafficLayer: seq<Polyline>
    var signalLayer: seq<Marker>
    var loadingVisible: bool

    constructor ()
      ensures trafficLayer == [] && signalLayer == [] && !loadingVisible
    {
      trafficLayer := [];
      signalLayer := [];
      loadingVisible := false;
    }

    /**
     * `fetchAndProcessMapData`.  `requestZoom` is the zoom read before the
     * request; `drawZoom` is the zoom `drawTrafficLines` reads once the reply
     * is in (the user may have zoomed meanwhile).  Whatever the layers held
     * before, afterwards they hold only what this reply yields.
     */
    method FetchAndProcessMapData(requestZoom: int, bbox: string, fetch: string -> Reply,
                                  drawZoom: int, random: nat -> real)
      requires ValidDraws(random)
      modifies this
      ensures !loadingVisible
      ensures fetch(Query(requestZoom, bbox)).FetchFailed? ==> trafficLayer == [] && signalLayer == []
      ensures fetch(Query(requestZoom, bbox)).Elements? ==>
        var elements := fetch(Query(requestZoom, bbox)).elements;
        && signalLayer == SignalMarkers(elements)
        && trafficLayer == TrafficLines(RoadData(elements, NodeTable(elements)), drawZoom, random)
    {
      loadingVisible := true;
      trafficLayer := [];
      signalLayer := [];

      var reply := fetch(Query(requestZoom, bbox));
      if reply.Elements? {
        var elements := reply.elements;
        var nodes := BuildNodeTable(elements);
        var roadData := ProcessElements(elements, nodes);
        DrawTrafficLines(roadData, drawZoom, random);
      }
      loadingVisible := false;
    }

    /**
     * The second `forEach` over the reply: ways resolved into `roadData`,
     * signal nodes added to the signal layer as they are met.
     */
    method ProcessElements(elements: seq<Element>, nodes: map<int, Coord>) returns (roadData: seq<Path>)
      modifies this`signalLayer
      ensures roadData == RoadData(elements, nodes)
      ensures signalLayer == old(signalLayer) + SignalMarkers(elements)
    {
      roadData := [];
      var i := 0;
      while i < |elements|
        invariant 0 <= i <= |elements|
        invariant roadData == RoadData(elements[..i], nodes)
        invariant signalLayer == old(signalLayer) + SignalMarkers(elements[..i])
      {
        var el := elements[i];
        assert elements[..i + 1][..i] == elements[..i];
        if el.Way? {
          var path := ResolvePath(el.nodes, nodes);
          if |path| > 1 {
            roadData := roadData + [path];
          }
        }
        if IsSignalNode(el) {
          signalLayer := signalLayer + [Marker(el.lat, el.lon, "Traffic Signal")];
        }
        i := i + 1;
      }
      assert elements[..i] == elements;
    }

    /** `drawTrafficLines`: one polyline per path, appended to the traffic layer. */
    method DrawTrafficLines(roadData: seq<Path>, zoom: int, random: nat -> real)
      requires ValidDraws(random)
      modifies this`trafficLayer
      ensures trafficLayer == old(trafficLayer) + TrafficLines(roadData, zoom, random)
    {
      var baseWeight := if zoom < 13 then 2 else if zoom < 15 then 3 else 4;
      var i := 0;
      while i < |roadData|
        invariant 0 <= i <= |roadData|
        invariant trafficLayer == old(trafficLayer) + TrafficLines(roadData[..i], zoom, random)
      {
        var colorDraw, weightDraw := random(2 * i), random(2 * i + 1);
        var style := Polyline(roadData[i], TrafficStyles[ColorIndex(colorDraw)],
                              baseWeight + (if weightDraw > 0.8 then 2 else 0), 0.8);
        TrafficLinesPrefix(roadData, zoom, random, i);
        trafficLayer := trafficLayer + [style];
        i := i + 1;
      }
      assert roadData[..i] == roadData;
    }
  }

  // ---------------------------------------------------------------- worked replies

  /** Two nodes and one primary way between them: one two-point path, no marker. */
  lemma SinglePrimaryWay()
    ensures var elements := [Node(1, 19.0, 72.8, map[]), Node(2, 19.01, 72.81, map[]),
                             Way([1, 2], map["highway" := "primary"])];
            && RoadData(elements, NodeTable(elements)) == [[(19.0, 72.8), (19.01, 72.81)]]
            && SignalMarkers(elements) == []
  {
    var elements := [Node(1, 19.0, 72.8, map[]), Node(2, 19.01, 72.81, map[]),
                     Way([1, 2], map["highway" := "primary"])];
    assert elements[..2][..1] == [elements[0]];
    assert elements[..2][..1][..0] == [];
    assert NodeTable(elements[..1]) == map[1 := (19.0, 72.8)];
    assert NodeTable(elements[..2]) == map[1 := (19.0, 72.8), 2 := (19.01, 72.81)];
    var nodes := NodeTable(elements);
    assert nodes == map[1 := (19.0, 72.8), 2 := (19.01, 72.81)];
    assert ResolvePath([1, 2], nodes) == [(19.0, 72.8), (19.01, 72.81)];
  }

  /**
   * The parser marks signal nodes whatever the zoom: a signal node in a
   * reply to a zoom-12 query still yields a marker at its coordinates.
   */
  lemma SignalNodeMarkedAtAnyZoom()
    ensures SignalQueryPart(12, "") == []
    ensures SignalMarkers([Node(7, 19.0, 72.8, map["highway" := "traffic_signals"])])
            == [Marker(19.0, 72.8, "Traffic Signal")]
  {
  }
}
