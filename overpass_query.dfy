/**
 * The zoom-dependent Overpass query that the map dashboard sends at the
 * start of every refresh cycle (script.js and static/app.js build it the
 * same way).  Whitespace of the JavaScript template literals is not kept.
 */
module OverpassQuery {
  import opened Common

  /** Road classes requested below zoom 13. */
  const ArterialClasses: seq<string> := ["primary", "trunk", "motorway"]

  /** Road classes requested from zoom 13 on. */
  const AllRoadClasses: seq<string> :=
    ["primary", "secondary", "tertiary", "trunk", "motorway", "primary_link", "secondary_link", "trunk_link"]

  function RoadClasses(zoom: int): seq<string>
  {
    if zoom < 13 then ArterialClasses else AllRoadClasses
  }

  /** The anchored alternation `^(c1|c2|...)$` over the given road classes. */
  function AnchoredAlternation(classes: seq<string>): string
  {
    "^(" + Join(classes, '|') + ")$"
  }

  /**
   * The words an anchored alternation accepts: a highway tag matches
   * `^(c1|...|cn)$` exactly when it is one of c1..cn.
   */
  function Alternatives(pattern: string): seq<string>
  {
    if |pattern| >= 4 && pattern[..2] == "^(" && pattern[|pattern| - 2..] == ")$"
    then Split(pattern[2..|pattern| - 2], '|')
    else []
  }

  function AcceptedClasses(pattern: string): set<string>
  {
    set c | c in Alternatives(pattern)
  }

  /**
   * The `highwayTypes` regular expression for a zoom level:
   * `^(primary|trunk|motorway)$` below zoom 13, otherwise
   * `^(primary|secondary|tertiary|trunk|motorway|primary_link|secondary_link|trunk_link)$`.
   */
  function HighwayTypes(zoom: int): (pattern: string)
    ensures Alternatives(pattern) == RoadClasses(zoom)
  {
    NoSeparatorInClasses();
    AlternativesOfAlternation(RoadClasses(zoom));
    AnchoredAlternation(RoadClasses(zoom))
  }

  lemma AlternativesOfAlternation(classes: seq<string>)
    requires |classes| >= 1
    requires forall i :: 0 <= i < |classes| ==> '|' !in classes[i]
    ensures Alternatives(AnchoredAlternation(classes)) == classes
  {
    var body := Join(classes, '|');
    var p := AnchoredAlternation(classes);
    assert p[..2] == "^(" && p[|p| - 2..] == ")$";
    assert p[2..|p| - 2] == body;
    SplitJoin(classes, '|');
  }

  /**
   * The road filter of the query: exactly primary, trunk and motorway below
   * zoom 13, and the eight classes with the link roads from zoom 13 on.
   */
  lemma RoadFilterTiers(zoom: int)
    ensures zoom < 13 ==> AcceptedClasses(HighwayTypes(zoom)) == {"primary", "trunk", "motorway"}
    ensures zoom >= 13 ==>
      AcceptedClasses(HighwayTypes(zoom)) ==
      {"primary", "secondary", "tertiary", "trunk", "motorway", "primary_link", "secondary_link", "trunk_link"}
  {
    NoSeparatorInClasses();
    if zoom < 13 {
      ClassesAccepted(ArterialClasses);
      assert (set c | c in ArterialClasses) == {"primary", "trunk", "motorway"};
    } else {
      ClassesAccepted(AllRoadClasses);
      AllRoadClassSet();
    }
  }

  lemma NoSeparatorInClasses()
    ensures forall i :: 0 <= i < |ArterialClasses| ==> '|' !in ArterialClasses[i]
    ensures forall i :: 0 <= i < |AllRoadClasses| ==> '|' !in AllRoadClasses[i]
  {
  }

  lemma AllRoadClassSet()
    ensures (set c | c in AllRoadClasses) ==
      {"primary", "secondary", "tertiary", "trunk", "motorway", "primary_link", "secondary_link", "trunk_link"}
  {
  }

  /** A road class list without `|` is accepted class for class by its alternation. */
  lemma ClassesAccepted(classes: seq<string>)
    requires |classes| >= 1
    requires forall i :: 0 <= i < |classes| ==> '|' !in classes[i]
    ensures AcceptedClasses(AnchoredAlternation(classes)) == set c | c in classes
  {
    AlternativesOfAlternation(classes);
  }

  /** The signal part of the query; it asks for signal nodes only from zoom 14 on. */
  function SignalQueryPart(zoom: int, bbox: string): (part: string)
    ensures part != [] <==> zoom >= 14
  {
    if zoom >= 14 then
      "node[\"highway\"=\"traffic_signals\"](" + bbox + ");" +
      "node[\"crossing\"=\"traffic_signals\"](" + bbox + ");"
    else ""
  }

  /** The text before the road filter and after the signal part. */
  const QueryHead: string := "[out:json][timeout:25];(way[\"highway\"~\""
  const QueryFoot: string := ");out body;>;out skel qt;"

  /** The full query text sent to the interpreter endpoint. */
  function Query(zoom: int, bbox: string): string
  {
    QueryHead + HighwayTypes(zoom) + AfterFilter(zoom, bbox)
  }

  /** The query text after the road filter: the way's bounding box and the signal part. */
  function AfterFilter(zoom: int, bbox: string): string
  {
    "\"](" + bbox + ");" + SignalQueryPart(zoom, bbox) + QueryFoot
  }

  /** The three query tiers the zoom level falls into. */
  datatype Tier = Arterial | AllRoads | AllRoadsAndSignals

  function TierOf(zoom: int): Tier
  {
    if zoom < 13 then Arterial else if zoom < 14 then AllRoads else AllRoadsAndSignals
  }

  /**
   * The query depends on the zoom level only through its tier: two zoom
   * levels give the same query exactly when they are in the same tier.
   */
  lemma QueryDependsOnlyOnTier(z1: int, z2: int, bbox: string)
    ensures Query(z1, bbox) == Query(z2, bbox) <==> TierOf(z1) == TierOf(z2)
  {
    if TierOf(z1) == TierOf(z2) {
      assert RoadClasses(z1) == RoadClasses(z2);
      assert SignalQueryPart(z1, bbox) == SignalQueryPart(z2, bbox);
    } else if (z1 < 13) != (z2 < 13) {
      var k := |QueryHead| + 10;
      FilterDistinguishes(z1, bbox);
      FilterDistinguishes(z2, bbox);
      assert Query(z1, bbox)[k] != Query(z2, bbox)[k];
    } else {
      assert HighwayTypes(z1) == HighwayTypes(z2);
      assert |AfterFilter(z1, bbox)| != |AfterFilter(z2, bbox)|;
    }
  }

  /**
   * The eleventh character of the road filter, and so a fixed character of
   * the query, is the `t` of `trunk` below zoom 13 and the `s` of
   * `secondary` from zoom 13 on.
   */
  lemma FilterDistinguishes(zoom: int, bbox: string)
    ensures |Query(zoom, bbox)| > |QueryHead| + 10
    ensures Query(zoom, bbox)[|QueryHead| + 10] == if zoom < 13 then 't' else 's'
  {
    var filter := HighwayTypes(zoom);
    if zoom < 13 {
      SecondClassInitial(ArterialClasses);
    } else {
      SecondClassInitial(AllRoadClasses);
    }
    var head := QueryHead + filter;
    assert head[|QueryHead| + 10] == filter[10];
    assert Query(zoom, bbox) == head + AfterFilter(zoom, bbox);
  }

  /** In an alternation whose first class is `primary`, the eleventh character starts the second class. */
  lemma SecondClassInitial(classes: seq<string>)
    requires |classes| >= 2 && classes[0] == "primary" && |classes[1]| > 0
    ensures |AnchoredAlternation(classes)| > 10
    ensures AnchoredAlternation(classes)[10] == classes[1][0]
  {
    var rest := Join(classes[1..], '|');
    assert Join(classes, '|') == classes[0] + ['|'] + rest;
    assert rest[0] == classes[1][0] by {
      if |classes| > 2 {
        assert rest == classes[1] + ['|'] + Join(classes[2..], '|');
      }
    }
  }
}
