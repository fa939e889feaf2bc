/** The initial-point mutator: it moves the start of a vehicle's trajectory
    to a random point on its road at a chosen distance, and translates the
    whole trajectory along with it. */
module MutateInitialPoint {
  import opened Common
  import opened Movement

  /** How often the expected distance is drawn afresh. */
  const ResetEvery: nat := 50

  /** The calls the mutator makes into code outside this model, each
      indexed by how often it has been called so far:
      - `randomValue(j)` / `mutateValue(j)`: the j-th expected distance;
      - `candidates(k, d)`: the points `mutate_initial_point` samples on a
        circle of radius d in iteration k;
      - `inside(p)`: `is_inside_polygon` against the vehicle's road;
      - `choose(k, n)`: `np.random.choice` over `range(n)` in iteration k,
        reduced modulo n;
      - `translate(ps, p)`: `translate_ls_to_new_origin`. */
  datatype Oracles = Oracles(
    randomValue: nat -> real,
    mutateValue: nat -> real,
    candidates: (nat, real) -> seq<Point>,
    inside: Point -> bool,
    choose: (nat, nat) -> nat,
    translate: (seq<Point>, Point) -> seq<Point>)

  /** The j-th draw of the expected distance. */
  function Draw(o: Oracles, isRandom: bool, j: nat): real
  {
    if isRandom then o.randomValue(j) else o.mutateValue(j)
  }

  /** The sampled points that lie on the road, in sampling order. */
  function OnRoad(ps: seq<Point>, inside: Point -> bool): (r: seq<Point>)
    ensures |r| <= |ps|
    ensures forall p :: p in r <==> p in ps && inside(p)
  {
    if |ps| == 0 then []
    else
      var rest := OnRoad(ps[..|ps| - 1], inside);
      assert ps == ps[..|ps| - 1] + [ps[|ps| - 1]];
      if inside(ps[|ps| - 1]) then rest + [ps[|ps| - 1]] else rest
  }

  /** The iteration a point was found in, and the point. */
  datatype Found = Found(iteration: nat, point: Point)

  /** The `while mutated_point is None` loop from iteration `count` on, with
      `draws` distances drawn so far and `distance` the current one.  The
      loop has no ceiling in the source; `fuel` bounds the iterations
      modelled, and running out of it is `None`.  The `requires` is the
      redraw schedule: the distance in use is draw number count / 50. */
  function Search(o: Oracles, isRandom: bool, count: nat, draws: nat, distance: real, fuel: nat): (r: Option<Found>)
    requires draws == count / ResetEvery && distance == Draw(o, isRandom, draws)
    ensures r.Some? ==> count <= r.value.iteration < count + fuel
    ensures r.Some? ==> var k := r.value.iteration;
      && r.value.point in o.candidates(k, Draw(o, isRandom, k / ResetEvery))
      && o.inside(r.value.point)
    ensures r.Some? ==> forall k :: count <= k < r.value.iteration ==>
      OnRoad(o.candidates(k, Draw(o, isRandom, k / ResetEvery)), o.inside) == []
    ensures r.None? ==> forall k :: count <= k < count + fuel ==>
      OnRoad(o.candidates(k, Draw(o, isRandom, k / ResetEvery)), o.inside) == []
    decreases fuel
  {
    if fuel == 0 then None
    else
      var filtered := OnRoad(o.candidates(count, distance), o.inside);
      var found: Option<Found> :=
        if |filtered| > 0 then Some(Found(count, filtered[o.choose(count, |filtered|) % |filtered|])) else None;
      var next := count + 1;
      DrawAdvances(count, draws);
      if found.Some? then found
      else if next % ResetEvery == 0 then
        Search(o, isRandom, next, draws + 1, Draw(o, isRandom, draws + 1), fuel - 1)
      else
        Search(o, isRandom, next, draws, distance, fuel - 1)
  }

  /** The draw count and distance the loop carries into the next iteration. */
  function NextDraws(count: nat, draws: nat): nat
  {
    if (count + 1) % ResetEvery == 0 then draws + 1 else draws
  }

  function NextDistance(o: Oracles, isRandom: bool, count: nat, draws: nat, distance: real): real
  {
    if (count + 1) % ResetEvery == 0 then Draw(o, isRandom, draws + 1) else distance
  }

  /** The draw index moves on exactly when the next iteration starts a new
      block of `ResetEvery`. */
  lemma DrawAdvances(count: nat, draws: nat)
    requires draws == count / ResetEvery
    ensures (count + 1) % ResetEvery == 0 ==> (count + 1) / ResetEvery == draws + 1
    ensures (count + 1) % ResetEvery != 0 ==> (count + 1) / ResetEvery == draws
  {
  }

  /** One fruitless iteration hands the search on to the next one. */
  lemma SearchStep(o: Oracles, isRandom: bool, count: nat, draws: nat, distance: real, fuel: nat)
    requires draws == count / ResetEvery && distance == Draw(o, isRandom, draws)
    requires fuel > 0 && OnRoad(o.candidates(count, distance), o.inside) == []
    ensures NextDraws(count, draws) == (count + 1) / ResetEvery
    ensures NextDistance(o, isRandom, count, draws, distance) == Draw(o, isRandom, NextDraws(count, draws))
    ensures Search(o, isRandom, count, draws, distance, fuel)
      == Search(o, isRandom, count + 1, NextDraws(count, draws), NextDistance(o, isRandom, count, draws, distance), fuel - 1)
  {
  }

  /** Fuel only bounds the search: once a point is found, more fuel finds
      the same point in the same iteration. */
  lemma {:induction false} SearchFuelMonotone(o: Oracles, isRandom: bool, count: nat, draws: nat, distance: real,
                                              fuel: nat, more: nat)
    requires draws == count / ResetEvery && distance == Draw(o, isRandom, draws)
    requires Search(o, isRandom, count, draws, distance, fuel).Some?
    ensures Search(o, isRandom, count, draws, distance, fuel + more) == Search(o, isRandom, count, draws, distance, fuel)
    decreases fuel
  {
    if OnRoad(o.candidates(count, distance), o.inside) == [] {
      SearchStep(o, isRandom, count, draws, distance, fuel);
      SearchStep(o, isRandom, count, draws, distance, fuel + more);
      assert fuel + more - 1 == (fuel - 1) + more;
      SearchFuelMonotone(o, isRandom, count + 1, NextDraws(count, draws),
        NextDistance(o, isRandom, count, draws, distance), fuel - 1, more);
    }
  }

  /** `process(vehicle, is_random)`: a parked vehicle (one action) is left as
      it is; otherwise the trajectory is translated to the found point.
      `None` means the search did not finish within `fuel` iterations; an
      `Err` is the IndexError `set_driving_actions` raises when the
      translated line has fewer points than the trajectory. */
  function Process(o: Oracles, isRandom: bool, v: Movement, fuel: nat): (r: Option<Result<Movement>>)
    ensures |v.trajectory| == 1 ==> r == Some(Ok(v))
    ensures r.Some? && r.value.Ok? ==> |r.value.value.trajectory| == |v.trajectory|
    ensures r.Some? && r.value.Ok? ==> Speeds(r.value.value) == Speeds(v)
  {
    if |v.trajectory| == 1 then Some(Ok(v))
    else
      var points := DrivingPoints(v);
      match Search(o, isRandom, 0, 0, Draw(o, isRandom, 0), fuel)
      case None => None
      case Some(f) =>
        var moved := o.translate(points, f.point);
        var r := SetDrivingActions(v, moved);
        if r.Err? then Some(r)
        else
          SetDrivingActionsKeepsSpeeds(v, moved);
          Some(r)
  }

  /** On success the new positions are the translated line, cut to the
      trajectory's length, and the translation is anchored at a point that
      was sampled and lies on the road. */
  lemma ProcessMovesOnlyPositions(o: Oracles, isRandom: bool, v: Movement, fuel: nat)
    requires |v.trajectory| != 1
    requires Process(o, isRandom, v, fuel).Some? && Process(o, isRandom, v, fuel).value.Ok?
    ensures var f := Search(o, isRandom, 0, 0, Draw(o, isRandom, 0), fuel);
      && f.Some?
      && f.value.point in o.candidates(f.value.iteration, Draw(o, isRandom, f.value.iteration / ResetEvery))
      && o.inside(f.value.point)
      && DrivingPoints(Process(o, isRandom, v, fuel).value.value)
        == o.translate(DrivingPoints(v), f.value.point)[..|v.trajectory|]
  {
    var f := Search(o, isRandom, 0, 0, Draw(o, isRandom, 0), fuel);
    SetThenGetPoints(v, o.translate(DrivingPoints(v), f.value.point));
  }

  /** The distance is never redrawn within a block of 50 iterations: the
      first 50 iterations all sample with the first draw. */
  lemma FirstBlockUsesFirstDraw(o: Oracles, isRandom: bool, fuel: nat)
    requires fuel <= ResetEvery
    ensures var r := Search(o, isRandom, 0, 0, Draw(o, isRandom, 0), fuel);
      r.Some? ==> r.value.point in o.candidates(r.value.iteration, Draw(o, isRandom, 0))
  {
  }

  /** The behaviour the mutator's test expects: the first driving point
      moves, provided the translation puts the first point at the chosen
      origin and the old first point is never itself an on-road sample. */
  lemma FirstPointChanges(o: Oracles, isRandom: bool, v: Movement, fuel: nat)
    requires |v.trajectory| > 1
    requires Process(o, isRandom, v, fuel).Some? && Process(o, isRandom, v, fuel).value.Ok?
    requires forall ps: seq<Point>, p: Point :: |ps| > 0 ==>
      |o.translate(ps, p)| > 0 && o.translate(ps, p)[0] == p
    requires forall k: nat, d: real :: DrivingPoints(v)[0] !in OnRoad(o.candidates(k, d), o.inside)
    ensures DrivingPoints(Process(o, isRandom, v, fuel).value.value)[0] != DrivingPoints(v)[0]
  {
    ProcessMovesOnlyPositions(o, isRandom, v, fuel);
    var f := Search(o, isRandom, 0, 0, Draw(o, isRandom, 0), fuel).value;
    var d := Draw(o, isRandom, f.iteration / ResetEvery);
    assert f.point in OnRoad(o.candidates(f.iteration, d), o.inside);
  }
}
