/** The simulation factory: it lays a crash scenario out for the simulator
    (scene centre, road meshes with their markings, damage targets per
    vehicle) and searches for a safe initial accelerator. */
module SimulationFactory {
  import opened Common

  /** A road node; only x and y are read here, the remaining coordinates
      (height, width) are carried along. */
  datatype RoadNode = RoadNode(x: real, y: real, rest: seq<real>)

  datatype Line = Line(name: string, nodes: seq<RoadNode>)

  /** A road segment of the scenario with its lane markings. */
  datatype Segment = Segment(name: string, roadNodes: seq<RoadNode>, leftLine: Line, rightLine: Line,
                             middleLines: seq<Line>)

  /** A simulator road: material, id and nodes. */
  datatype SimRoad = SimRoad(material: string, rid: string, nodes: seq<RoadNode>)

  /** A police report entry: the vehicle's name and its damaged parts. */
  datatype Report = Report(name: string, parts: seq<string>)

  // ---------------------------------------------------------------------
  // get_center_scenario
  // ---------------------------------------------------------------------

  function LineNodes(lines: seq<Line>): seq<RoadNode>
  {
    if |lines| == 0 then [] else LineNodes(lines[..|lines| - 1]) + lines[|lines| - 1].nodes
  }

  /** The points visited for one segment, in visiting order: road nodes, left
      line, right line, then every middle line. */
  function SegmentPoints(seg: Segment): seq<RoadNode>
  {
    seg.roadNodes + seg.leftLine.nodes + seg.rightLine.nodes + LineNodes(seg.middleLines)
  }

  function ScenarioPoints(segs: seq<Segment>): seq<RoadNode>
  {
    if |segs| == 0 then [] else ScenarioPoints(segs[..|segs| - 1]) + SegmentPoints(segs[|segs| - 1])
  }

  datatype Bounds = Bounds(minX: real, maxX: real, minY: real, maxY: real)

  /** The bounds are bounds of the points and each is attained by one of them. */
  predicate Tight(pts: seq<RoadNode>, b: Bounds)
  {
    && (forall i :: 0 <= i < |pts| ==> b.minX <= pts[i].x <= b.maxX && b.minY <= pts[i].y <= b.maxY)
    && (exists i :: 0 <= i < |pts| && pts[i].x == b.minX)
    && (exists i :: 0 <= i < |pts| && pts[i].x == b.maxX)
    && (exists i :: 0 <= i < |pts| && pts[i].y == b.minY)
    && (exists i :: 0 <= i < |pts| && pts[i].y == b.maxY)
  }

  /** One step of the fold: the first point initialises all four bounds,
      later points widen them. */
  function Widen(acc: Option<Bounds>, p: RoadNode): Bounds
  {
    match acc
    case None => Bounds(p.x, p.x, p.y, p.y)
    case Some(b) =>
      Bounds(if p.x < b.minX then p.x else b.minX,
             if p.x > b.maxX then p.x else b.maxX,
             if p.y < b.minY then p.y else b.minY,
             if p.y > b.maxY then p.y else b.maxY)
  }

  /** The loop over the points from position `i` on, with the bounds of the
      points before it in `acc` (None before the first point). */
  function FoldBounds(pts: seq<RoadNode>, i: nat, acc: Option<Bounds>): (r: Option<Bounds>)
    requires i <= |pts|
    requires acc.None? <==> i == 0
    requires acc.Some? ==> Tight(pts[..i], acc.value)
    ensures r.None? <==> |pts| == 0
    ensures r.Some? ==> Tight(pts, r.value)
    decreases |pts| - i
  {
    if i == |pts| then
      assert pts[..i] == pts;
      acc
    else
      var b := Widen(acc, pts[i]);
      assert pts[..i + 1] == pts[..i] + [pts[i]];
      assert Tight(pts[..i + 1], b) by {
        if acc.Some? {
          var a := acc.value;
          var j1 :| 0 <= j1 < i && pts[j1].x == a.minX;
          var j2 :| 0 <= j2 < i && pts[j2].x == a.maxX;
          var j3 :| 0 <= j3 < i && pts[j3].y == a.minY;
          var j4 :| 0 <= j4 < i && pts[j4].y == a.maxY;
          assert pts[..i + 1][if pts[i].x < a.minX then i else j1].x == b.minX;
          assert pts[..i + 1][if pts[i].x > a.maxX then i else j2].x == b.maxX;
          assert pts[..i + 1][if pts[i].y < a.minY then i else j3].y == b.minY;
          assert pts[..i + 1][if pts[i].y > a.maxY then i else j4].y == b.maxY;
        } else {
          assert pts[..i + 1][0] == pts[i];
        }
      }
      FoldBounds(pts, i + 1, Some(b))
  }

  /** The scene's centre and extent. */
  datatype Center = Center(halfWidth: real, halfHeight: real, extent: real)

  function Max(a: real, b: real): real
  {
    if a >= b then a else b
  }

  /** `get_center_scenario`: half the x and y spans of every point of every
      segment, and the larger of the two maxima.  Without any point the
      bounds stay None and the arithmetic raises TypeError. */
  function CenterScenario(segs: seq<Segment>): (r: Result<Center>)
    ensures r.Err? <==> |ScenarioPoints(segs)| == 0
    ensures r.Ok? ==> r.value.halfWidth >= 0.0 && r.value.halfHeight >= 0.0
  {
    var pts := ScenarioPoints(segs);
    match FoldBounds(pts, 0, None)
    case None => Err("TypeError: unsupported operand type(s) for -: 'NoneType' and 'NoneType'")
    case Some(b) =>
      assert pts[0].x <= b.maxX && b.minX <= pts[0].x;
      assert pts[0].y <= b.maxY && b.minY <= pts[0].y;
      Ok(Center((b.maxX - b.minX) / 2.0, (b.maxY - b.minY) / 2.0, Max(b.maxX, b.maxY)))
  }

  /** The centre read back through the bounds it was computed from. */
  lemma CenterFromBounds(segs: seq<Segment>)
    requires CenterScenario(segs).Ok?
    ensures var pts := ScenarioPoints(segs);
      var b := FoldBounds(pts, 0, None);
      && b.Some? && Tight(pts, b.value)
      && CenterScenario(segs).value
         == Center((b.value.maxX - b.value.minX) / 2.0, (b.value.maxY - b.value.minY) / 2.0,
                   Max(b.value.maxX, b.value.maxY))
  {
  }

  /** Twice the half-width is the largest difference between two x
      coordinates of the scene, and likewise for the half-height. */
  lemma CenterSpans(segs: seq<Segment>)
    requires CenterScenario(segs).Ok?
    ensures var pts := ScenarioPoints(segs);
      var c := CenterScenario(segs).value;
      && (forall i, j :: 0 <= i < |pts| && 0 <= j < |pts| ==> pts[i].x - pts[j].x <= 2.0 * c.halfWidth)
      && (exists i, j :: 0 <= i < |pts| && 0 <= j < |pts| && pts[i].x - pts[j].x == 2.0 * c.halfWidth)
      && (forall i, j :: 0 <= i < |pts| && 0 <= j < |pts| ==> pts[i].y - pts[j].y <= 2.0 * c.halfHeight)
      && (exists i, j :: 0 <= i < |pts| && 0 <= j < |pts| && pts[i].y - pts[j].y == 2.0 * c.halfHeight)
  {
    CenterFromBounds(segs);
    var pts := ScenarioPoints(segs);
    var b := FoldBounds(pts, 0, None).value;
    var j1 :| 0 <= j1 < |pts| && pts[j1].x == b.minX;
    var j2 :| 0 <= j2 < |pts| && pts[j2].x == b.maxX;
    var j3 :| 0 <= j3 < |pts| && pts[j3].y == b.minY;
    var j4 :| 0 <= j4 < |pts| && pts[j4].y == b.maxY;
    assert pts[j2].x - pts[j1].x == 2.0 * ((b.maxX - b.minX) / 2.0);
    assert pts[j4].y - pts[j3].y == 2.0 * ((b.maxY - b.minY) / 2.0);
  }

  /** The extent bounds every coordinate of the scene and is attained. */
  lemma CenterExtent(segs: seq<Segment>)
    requires CenterScenario(segs).Ok?
    ensures var pts := ScenarioPoints(segs);
      var c := CenterScenario(segs).value;
      && (forall i :: 0 <= i < |pts| ==> pts[i].x <= c.extent && pts[i].y <= c.extent)
      && (exists i :: 0 <= i < |pts| && (pts[i].x == c.extent || pts[i].y == c.extent))
  {
    CenterFromBounds(segs);
    var pts := ScenarioPoints(segs);
    var b := FoldBounds(pts, 0, None).value;
    var j2 :| 0 <= j2 < |pts| && pts[j2].x == b.maxX;
    var j4 :| 0 <= j4 < |pts| && pts[j4].y == b.maxY;
    assert pts[j2].x == Max(b.maxX, b.maxY) || pts[j4].y == Max(b.maxX, b.maxY);
  }

  // ---------------------------------------------------------------------
  // generate_roads
  // ---------------------------------------------------------------------

  /** What one segment contributes: its left and right white markings,
      a yellow marking per middle line, then the asphalt road. */
  function SegmentRoads(seg: Segment): seq<SimRoad>
  {
    [SimRoad("line_white", seg.leftLine.name, seg.leftLine.nodes),
     SimRoad("line_white", seg.rightLine.name, seg.rightLine.nodes)]
    + seq(|seg.middleLines|, k requires 0 <= k < |seg.middleLines| =>
        SimRoad("line_yellow", seg.middleLines[k].name, seg.middleLines[k].nodes))
    + [SimRoad("road_asphalt_2lane", seg.name, seg.roadNodes)]
  }

  /** The number of simulator roads the first `n` segments produce. */
  function RoadCount(segs: seq<Segment>, n: nat): nat
    requires n <= |segs|
  {
    if n == 0 then 0 else RoadCount(segs, n - 1) + 3 + |segs[n - 1].middleLines|
  }

  /** `generate_roads`: the factory's road list, extended segment by segment. */
  function GenerateRoads(roads: seq<SimRoad>, segs: seq<Segment>): (r: seq<SimRoad>)
    ensures |r| == |roads| + RoadCount(segs, |segs|)
    ensures r[..|roads|] == roads
  {
    if |segs| == 0 then roads
    else
      var n := |segs| - 1;
      var prev := GenerateRoads(roads, segs[..n]);
      PrefixRoadCount(segs, n, n);
      prev + SegmentRoads(segs[n])
  }

  /** The count for the first n segments only looks at those segments. */
  lemma {:induction false} PrefixRoadCount(segs: seq<Segment>, m: nat, n: nat)
    requires n <= m <= |segs|
    ensures RoadCount(segs[..m], n) == RoadCount(segs, n)
  {
    if n > 0 {
      PrefixRoadCount(segs, m, n - 1);
    }
  }

  /** Segment `seg`'s block starts at position `o` of `r`: left marking,
      right marking, one yellow line per middle line, then the road. */
  predicate LaidOut(r: seq<SimRoad>, o: nat, seg: Segment)
  {
    var mid := seg.middleLines;
    && o + 3 + |mid| <= |r|
    && r[o] == SimRoad("line_white", seg.leftLine.name, seg.leftLine.nodes)
    && r[o + 1] == SimRoad("line_white", seg.rightLine.name, seg.rightLine.nodes)
    && (forall k :: 0 <= k < |mid| ==> r[o + 2 + k] == SimRoad("line_yellow", mid[k].name, mid[k].nodes))
    && r[o + 2 + |mid|] == SimRoad("road_asphalt_2lane", seg.name, seg.roadNodes)
  }

  /** The block of segment i starts after the roads already present and the
      blocks of the segments before it, and lists left marking, right
      marking, the middle markings in order, and the road. */
  lemma {:induction false} SegmentBlockLayout(roads: seq<SimRoad>, segs: seq<Segment>, i: nat)
    requires i < |segs|
    ensures LaidOut(GenerateRoads(roads, segs), |roads| + RoadCount(segs, i), segs[i])
  {
    var n := |segs| - 1;
    var prev := GenerateRoads(roads, segs[..n]);
    PrefixRoadCount(segs, n, n);
    if i < n {
      SegmentBlockLayout(roads, segs[..n], i);
      PrefixRoadCount(segs, n, i);
      LaidOutExtend(prev, SegmentRoads(segs[n]), |roads| + RoadCount(segs, i), segs[i]);
    } else {
      LaidOutAppend(prev, segs[n]);
    }
  }

  /** Appending roads keeps a block where it was. */
  lemma LaidOutExtend(p: seq<SimRoad>, q: seq<SimRoad>, o: nat, seg: Segment)
    requires LaidOut(p, o, seg)
    ensures LaidOut(p + q, o, seg)
  {
  }

  /** A segment's own roads, appended, form its block. */
  lemma LaidOutAppend(p: seq<SimRoad>, seg: Segment)
    ensures LaidOut(p + SegmentRoads(seg), |p|, seg)
  {
    var r := p + SegmentRoads(seg);
    var mid := seg.middleLines;
    forall k | 0 <= k < |mid|
      ensures r[|p| + 2 + k] == SimRoad("line_yellow", mid[k].name, mid[k].nodes)
    {
      assert r[|p| + 2 + k] == SegmentRoads(seg)[2 + k];
    }
  }

  /** Calling `generate_roads` again appends another copy of every block. */
  lemma RoadsAccumulate(roads: seq<SimRoad>, segs: seq<Segment>)
    ensures GenerateRoads(GenerateRoads(roads, segs), segs)[..|GenerateRoads(roads, segs)|]
      == GenerateRoads(roads, segs)
    ensures |GenerateRoads(GenerateRoads(roads, segs), segs)| == |roads| + 2 * RoadCount(segs, |segs|)
  {
  }

  // ---------------------------------------------------------------------
  // generate_targets
  // ---------------------------------------------------------------------

  /** `generate_targets`: vehicle name to damaged parts, reports read in
      order, so a later report overwrites an earlier one of the same name. */
  function GenerateTargets(reports: seq<Report>): (r: map<string, seq<string>>)
    ensures r.Keys == set i | 0 <= i < |reports| :: reports[i].name
  {
    if |reports| == 0 then map[]
    else
      var n := |reports| - 1;
      var prev := GenerateTargets(reports[..n]);
      assert forall i :: 0 <= i < n ==> reports[..n][i] == reports[i];
      assert (set i | 0 <= i < |reports| :: reports[i].name)
          == (set i | 0 <= i < n :: reports[..n][i].name) + {reports[n].name};
      prev[reports[n].name := reports[n].parts]
  }

  /** The parts kept for a name are those of the last report with that name. */
  lemma {:induction false} TargetsLastWins(reports: seq<Report>, i: nat)
    requires i < |reports|
    requires forall j :: i < j < |reports| ==> reports[j].name != reports[i].name
    ensures GenerateTargets(reports)[reports[i].name] == reports[i].parts
  {
    var n := |reports| - 1;
    if i < n {
      TargetsLastWins(reports[..n], i);
    }
  }

  /** With distinct names the map holds every report unchanged. */
  lemma TargetsOfDistinctNames(reports: seq<Report>)
    requires forall i, j :: 0 <= i < j < |reports| ==> reports[i].name != reports[j].name
    ensures forall i :: 0 <= i < |reports| ==> GenerateTargets(reports)[reports[i].name] == reports[i].parts
  {
    forall i | 0 <= i < |reports|
      ensures GenerateTargets(reports)[reports[i].name] == reports[i].parts
    {
      TargetsLastWins(reports, i);
    }
  }

  // ---------------------------------------------------------------------
  // generate_accelerator
  // ---------------------------------------------------------------------

  /** How many attempts the accelerator search makes. */
  const MaxAttempts: nat := 50

  /** The safety margin the accelerator of attempt k (from 1) is set up with. */
  function Eps(k: nat): int
  {
    10 * (k - 1)
  }

  /** What the players' accelerators produce for a margin, computed outside
      this model: the distance between the last points of their lines and the
      number of crossings between the lines. */
  datatype AccelOracle = AccelOracle(lastPointsDistance: int -> real, crossings: int -> nat)

  /** An accelerator setup is usable when the lines end more than 50 apart
      and never cross. */
  predicate Valid(o: AccelOracle, eps: int)
  {
    o.lastPointsDistance(eps) > 50.0 && o.crossings(eps) == 0
  }

  /** Some attempt among the first n is usable. */
  predicate SucceedsWithin(o: AccelOracle, n: nat)
  {
    exists k :: 1 <= k <= n && Valid(o, Eps(k))
  }

  /** `generate_accelerator`, as written: the attempt counter is compared with
      50 before the loop re-checks validity, so a usable 50th attempt still
      reports failure.  `lastEps` is the margin the players' accelerators are
      left configured with. */
  method GenerateAccelerator(o: AccelOracle) returns (ok: bool, lastEps: int)
    ensures ok <==> SucceedsWithin(o, MaxAttempts - 1)
    ensures ok ==> Valid(o, lastEps) && forall k :: 1 <= k && Eps(k) < lastEps ==> !Valid(o, Eps(k))
    ensures !ok ==> lastEps == Eps(MaxAttempts)
  {
    var retry, eps, valid := 1, 0, false;
    lastEps := 0;
    while !valid
      invariant 1 <= retry <= MaxAttempts
      invariant eps == Eps(retry)
      invariant !valid ==> forall k :: 1 <= k < retry ==> !Valid(o, Eps(k))
      invariant valid ==> retry >= 2 && lastEps == Eps(retry - 1) && Valid(o, lastEps)
      invariant valid ==> forall k :: 1 <= k < retry - 1 ==> !Valid(o, Eps(k))
      decreases MaxAttempts - retry
    {
      lastEps := eps;
      if Valid(o, eps) {
        valid := true;
      }
      if retry == MaxAttempts {
        return false, lastEps;
      }
      eps := eps + 10;
      retry := retry + 1;
    }
    return true, lastEps;
  }

  /** The intended search: 50 attempts, and success as soon as one is usable. */
  method GenerateAcceleratorCorrected(o: AccelOracle) returns (ok: bool, lastEps: int)
    ensures ok <==> SucceedsWithin(o, MaxAttempts)
    ensures ok ==> Valid(o, lastEps) && forall k :: 1 <= k && Eps(k) < lastEps ==> !Valid(o, Eps(k))
    ensures !ok ==> lastEps == Eps(MaxAttempts)
  {
    var retry, eps := 1, 0;
    while true
      invariant 1 <= retry <= MaxAttempts
      invariant eps == Eps(retry)
      invariant forall k :: 1 <= k < retry ==> !Valid(o, Eps(k))
      decreases MaxAttempts - retry
    {
      if Valid(o, eps) {
        return true, eps;
      }
      if retry == MaxAttempts {
        return false, eps;
      }
      eps := eps + 10;
      retry := retry + 1;
    }
  }

  /** A setup that only becomes usable at the 50th margin (490): the
      corrected search succeeds, the search as written gives up. */
  lemma FiftiethAttemptIgnored()
    ensures var o := AccelOracle(eps => if eps == 490 then 100.0 else 0.0, eps => 0);
      SucceedsWithin(o, MaxAttempts) && !SucceedsWithin(o, MaxAttempts - 1)
  {
    var o := AccelOracle(eps => if eps == 490 then 100.0 else 0.0, eps => 0);
    assert Valid(o, Eps(50));
  }
}
