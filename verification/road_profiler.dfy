/** The AI-script profiler: it turns a trajectory of (x, y, speed) points
    into timed script nodes for the simulator's AI driver, together with
    the debug spheres drawn along the way. */
module RoadProfiler {
  import opened Common
  import opened Movement

  type NonNeg = r: real | r >= 0.0

  /** The planar distance between two trajectory points, computed outside
      this model. */
  type Distance = (Action, Action) -> NonNeg

  datatype Node = Node(x: real, y: real, z: real, t: real)

  /** The profiler's lists: script nodes, points, debug spheres with their
      colours, and sphere radii. */
  datatype Profiler = Profiler(
    script: seq<Node>,
    points: seq<(real, real, real)>,
    spheres: seq<(real, real, real, real)>,
    sphereColors: seq<Option<string>>,
    radii: seq<real>)

  /** The radius of every debug sphere. */
  const SphereSize: real := 0.25

  /** A freshly constructed profiler: every list empty. */
  const Fresh: Profiler := Profiler([], [], [], [], [])

  /** Python's `int(x)` on a number: truncation toward zero. */
  function Trunc(x: real): (r: int)
    ensures x >= 0.0 ==> 0 <= r && r as real <= x < r as real + 1.0
    ensures x < 0.0 ==> r <= 0 && r as real - 1.0 < x <= r as real
  {
    if x >= 0.0 then x.Floor else -((-x).Floor)
  }

  /** The time to cover `length` from point `a`, at `a`'s speed; a vehicle
      without positive speed takes no time. */
  function SegmentTime(a: Action, length: real): real
  {
    if a.speed > 0.0 then length / a.speed else 0.0
  }

  /** The time increments of the trajectory: one per consecutive pair of
      non-zero length, in order.  `pairs` is read as the overlapping pairs
      of neighbouring points. */
  function Increments(tr: seq<Action>, dist: Distance): seq<real>
  {
    if |tr| < 2 then []
    else
      var n := |tr|;
      var rest := Increments(tr[..n - 1], dist);
      var length := dist(tr[n - 2], tr[n - 1]);
      if length == 0.0 then rest else rest + [SegmentTime(tr[n - 2], length)]
  }

  /** Running totals starting from 0. */
  function PrefixSums(incs: seq<real>): (r: seq<real>)
    ensures |r| == |incs| + 1 && r[0] == 0.0
    ensures forall i :: 0 <= i < |incs| ==> r[i + 1] == r[i] + incs[i]
  {
    if |incs| == 0 then [0.0]
    else
      var p := PrefixSums(incs[..|incs| - 1]);
      p + [p[|p| - 1] + incs[|incs| - 1]]
  }

  /** The segment times of `compute_ai_script`. */
  function Times(tr: seq<Action>, dist: Distance): seq<real>
  {
    PrefixSums(Increments(tr, dist))
  }

  function Min(a: nat, b: nat): nat
  {
    if a < b then a else b
  }

  /** The profiler with `nodes` appended to the script, and a marker point,
      a sphere and a colour for each of them. */
  function Record(p: Profiler, nodes: seq<Node>, color: Option<string>): (q: Profiler)
    ensures q.script == p.script + nodes
    ensures |q.points| == |p.points| + |nodes| && q.points[..|p.points|] == p.points
    ensures forall k :: 0 <= k < |nodes| ==> q.points[|p.points| + k] == (nodes[k].x, nodes[k].y, nodes[k].z)
    ensures |q.spheres| == |p.spheres| + |nodes| && q.spheres[..|p.spheres|] == p.spheres
    ensures forall k :: 0 <= k < |nodes| ==>
      q.spheres[|p.spheres| + k] == (nodes[k].x, nodes[k].y, nodes[k].z, SphereSize)
    ensures |q.sphereColors| == |p.sphereColors| + |nodes| && q.sphereColors[..|p.sphereColors|] == p.sphereColors
    ensures forall k :: |p.sphereColors| <= k < |q.sphereColors| ==> q.sphereColors[k] == color
    ensures |q.radii| == |q.points| && forall k :: 0 <= k < |q.radii| ==> q.radii[k] == SphereSize
  {
    var n := |nodes|;
    var points := p.points + seq(n, j requires 0 <= j < n => (nodes[j].x, nodes[j].y, nodes[j].z));
    Profiler(
      p.script + nodes,
      points,
      p.spheres + seq(n, j requires 0 <= j < n => (nodes[j].x, nodes[j].y, nodes[j].z, SphereSize)),
      p.sphereColors + seq(n, _ => color),
      seq(|points|, _ => SphereSize))
  }

  /** `compute_ai_script(trajectory, delay, color)`: node k sits at point k
      of the trajectory at height 0, with time `times[k] + int(delay)`; `zip`
      stops at the shorter of the trajectory and the time list.  Every list
      grows; none is reset, except `radii`, rebuilt to one radius per point. */
  method ComputeAiScript(p: Profiler, tr: seq<Action>, delay: real, color: Option<string>, dist: Distance)
    returns (q: Profiler)
    ensures var times := Times(tr, dist);
      var n := Min(|tr|, |times|);
      && |q.script| == |p.script| + n && q.script[..|p.script|] == p.script
      && (forall k :: 0 <= k < n ==>
            q.script[|p.script| + k] == Node(tr[k].x, tr[k].y, 0.0, times[k] + Trunc(delay) as real))
      && |q.points| == |p.points| + n && q.points[..|p.points|] == p.points
      && (forall k :: 0 <= k < n ==> q.points[|p.points| + k] == (tr[k].x, tr[k].y, 0.0))
      && |q.spheres| == |p.spheres| + n && q.spheres[..|p.spheres|] == p.spheres
      && (forall k :: 0 <= k < n ==> q.spheres[|p.spheres| + k] == (tr[k].x, tr[k].y, 0.0, SphereSize))
      && |q.sphereColors| == |p.sphereColors| + n && q.sphereColors[..|p.sphereColors|] == p.sphereColors
      && (forall k :: |p.sphereColors| <= k < |q.sphereColors| ==> q.sphereColors[k] == color)
    ensures |q.radii| == |q.points| && forall k :: 0 <= k < |q.radii| ==> q.radii[k] == SphereSize
  {
    var times := SegmentTimes(tr, dist);
    var nodes := TimedNodes(tr, times, delay);
    q := Record(p, nodes, color);
  }

  /** The second loop of `compute_ai_script`: node k at trajectory point k,
      height 0, time `times[k] + int(delay)`, for as many points as both
      lists have. */
  method TimedNodes(tr: seq<Action>, times: seq<real>, delay: real) returns (nodes: seq<Node>)
    ensures |nodes| == Min(|tr|, |times|)
    ensures forall k :: 0 <= k < |nodes| ==> nodes[k] == Node(tr[k].x, tr[k].y, 0.0, times[k] + Trunc(delay) as real)
  {
    var n := Min(|tr|, |times|);
    nodes := [];
    var k := 0;
    while k < n
      invariant 0 <= k <= n
      invariant |nodes| == k
      invariant forall j :: 0 <= j < k ==> nodes[j] == Node(tr[j].x, tr[j].y, 0.0, times[j] + Trunc(delay) as real)
    {
      nodes := nodes + [Node(tr[k].x, tr[k].y, 0.0, times[k] + Trunc(delay) as real)];
      k := k + 1;
    }
  }

  /** The first loop of `compute_ai_script`: walk the consecutive pairs,
      skip those of zero length, and extend the running time otherwise. */
  method SegmentTimes(tr: seq<Action>, dist: Distance) returns (times: seq<real>)
    ensures times == Times(tr, dist)
  {
    times := [0.0];
    if |tr| > 0 {
      var i := 1;
      while i < |tr|
        invariant 1 <= i <= |tr|
        invariant times == Times(tr[..i], dist)
      {
        var length := dist(tr[i - 1], tr[i]);
        assert tr[..i + 1][..i] == tr[..i];
        if length != 0.0 {
          var time := SegmentTime(tr[i - 1], length);
          times := times + [time + times[|times| - 1]];
        }
        i := i + 1;
      }
      assert tr[..|tr|] == tr;
    }
  }

  // ---------------------------------------------------------------------
  // Properties of the segment times
  // ---------------------------------------------------------------------

  lemma {:induction false} IncrementsNonNegative(tr: seq<Action>, dist: Distance)
    ensures forall i :: 0 <= i < |Increments(tr, dist)| ==> Increments(tr, dist)[i] >= 0.0
  {
    if |tr| >= 2 {
      var n := |tr|;
      IncrementsNonNegative(tr[..n - 1], dist);
      var length := dist(tr[n - 2], tr[n - 1]);
      if tr[n - 2].speed > 0.0 {
        assert length / tr[n - 2].speed >= 0.0;
      }
    }
  }

  lemma {:induction false} PrefixSumsMonotone(incs: seq<real>)
    requires forall i :: 0 <= i < |incs| ==> incs[i] >= 0.0
    ensures forall i, j :: 0 <= i <= j < |PrefixSums(incs)| ==> PrefixSums(incs)[i] <= PrefixSums(incs)[j]
  {
    if |incs| > 0 {
      var n := |incs| - 1;
      PrefixSumsMonotone(incs[..n]);
      var p := PrefixSums(incs[..n]);
      assert PrefixSums(incs) == p + [p[n] + incs[n]];
    }
  }

  /** The times start at 0 and never decrease. */
  lemma TimesNeverDecrease(tr: seq<Action>, dist: Distance)
    ensures Times(tr, dist)[0] == 0.0
    ensures forall i, j :: 0 <= i <= j < |Times(tr, dist)| ==> Times(tr, dist)[i] <= Times(tr, dist)[j]
  {
    IncrementsNonNegative(tr, dist);
    PrefixSumsMonotone(Increments(tr, dist));
  }

  /** The number of consecutive pairs of zero length. */
  function ZeroMoves(tr: seq<Action>, dist: Distance): nat
  {
    if |tr| < 2 then 0
    else ZeroMoves(tr[..|tr| - 1], dist) + (if dist(tr[|tr| - 2], tr[|tr| - 1]) == 0.0 then 1 else 0)
  }

  /** Every consecutive pair either adds a time or is skipped. */
  lemma {:induction false} IncrementsCount(tr: seq<Action>, dist: Distance)
    requires |tr| > 0
    ensures |Increments(tr, dist)| + ZeroMoves(tr, dist) == |tr| - 1
  {
    if |tr| >= 2 {
      IncrementsCount(tr[..|tr| - 1], dist);
    }
  }

  /** The node count: every point gets a node unless zero-length pairs
      shortened the time list, in which case `zip` drops the last points. */
  lemma NodeCount(tr: seq<Action>, dist: Distance)
    requires |tr| > 0
    ensures Min(|tr|, |Times(tr, dist)|) == |tr| - ZeroMoves(tr, dist)
    ensures ZeroMoves(tr, dist) == 0 ==> Min(|tr|, |Times(tr, dist)|) == |tr|
  {
    IncrementsCount(tr, dist);
    assert |Times(tr, dist)| == |Increments(tr, dist)| + 1;
  }

  /** A segment's time is computed from the speed at its first point. */
  lemma SegmentUsesFirstSpeed(a: Action, b: Action, dist: Distance)
    requires dist(a, b) != 0.0 && a.speed > 0.0
    ensures Times([a, b], dist) == [0.0, dist(a, b) / a.speed]
  {
    assert [a, b][..1] == [a];
    var x := dist(a, b) / a.speed;
    assert Increments([a, b], dist) == [x];
    assert [x][..0] == [];
  }
}
