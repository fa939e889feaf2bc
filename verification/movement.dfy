/** A vehicle's movement: the sequence of driving actions it performs,
    each a position with the speed the vehicle holds there. */
module Movement {
  import opened Common

  /** One driving action `(x, y, speed, ...)`; `extra` holds any further
      tuple fields, which no operation here touches. */
  datatype Action = Action(x: real, y: real, speed: real, extra: seq<real>)

  type Point = (real, real)

  datatype Movement = Movement(trajectory: seq<Action>)

  /** `get_driving_points`: the positions of the actions, in order. */
  function DrivingPoints(m: Movement): (r: seq<Point>)
    ensures |r| == |m.trajectory|
    ensures forall i :: 0 <= i < |r| ==> r[i] == (m.trajectory[i].x, m.trajectory[i].y)
  {
    seq(|m.trajectory|, i requires 0 <= i < |m.trajectory| => (m.trajectory[i].x, m.trajectory[i].y))
  }

  /** `get_speeds`: the speeds of the actions, in order. */
  function Speeds(m: Movement): (r: seq<real>)
    ensures |r| == |m.trajectory|
    ensures forall i :: 0 <= i < |r| ==> r[i] == m.trajectory[i].speed
  {
    seq(|m.trajectory|, i requires 0 <= i < |m.trajectory| => m.trajectory[i].speed)
  }

  /** `set_driving_actions`: action i takes the position of `points[i]` and
      keeps its speed; points beyond the trajectory's length are ignored.
      Fewer points than actions raise IndexError. */
  function SetDrivingActions(m: Movement, points: seq<Point>): (r: Result<Movement>)
    ensures r.Err? <==> |points| < |m.trajectory|
    ensures r.Ok? ==> |r.value.trajectory| == |m.trajectory|
    ensures r.Ok? ==> forall i :: 0 <= i < |m.trajectory| ==>
      r.value.trajectory[i] == m.trajectory[i].(x := points[i].0, y := points[i].1)
  {
    if |points| < |m.trajectory| then Err("IndexError: list index out of range")
    else
      Ok(Movement(seq(|m.trajectory|, i requires 0 <= i < |m.trajectory| =>
        m.trajectory[i].(x := points[i].0, y := points[i].1))))
  }

  /** `set_speed`: every action takes the same speed. */
  function SetSpeed(m: Movement, speed: real): (r: Movement)
    ensures |r.trajectory| == |m.trajectory|
    ensures forall i :: 0 <= i < |m.trajectory| ==> r.trajectory[i] == m.trajectory[i].(speed := speed)
  {
    Movement(seq(|m.trajectory|, i requires 0 <= i < |m.trajectory| => m.trajectory[i].(speed := speed)))
  }

  /** `get_mean_speed`: the arithmetic mean of the speeds; numpy's mean of
      an empty list is NaN, modelled as no value. */
  function MeanSpeed(m: Movement): (r: Option<real>)
    ensures r.None? <==> |m.trajectory| == 0
  {
    if |m.trajectory| == 0 then None
    else Some(Sum(Speeds(m)) / (|m.trajectory| as real))
  }

  // ---------------------------------------------------------------------
  // Properties
  // ---------------------------------------------------------------------

  /** Writing positions and reading them back gives the positions written. */
  lemma SetThenGetPoints(m: Movement, points: seq<Point>)
    requires |points| >= |m.trajectory|
    ensures SetDrivingActions(m, points).Ok?
    ensures DrivingPoints(SetDrivingActions(m, points).value) == points[..|m.trajectory|]
  {
  }

  /** Writing back the positions just read changes nothing. */
  lemma GetThenSetIdentity(m: Movement)
    ensures SetDrivingActions(m, DrivingPoints(m)) == Ok(m)
  {
    var r := SetDrivingActions(m, DrivingPoints(m)).value;
    assert r.trajectory == m.trajectory;
  }

  /** Moving the actions leaves their speeds alone. */
  lemma SetDrivingActionsKeepsSpeeds(m: Movement, points: seq<Point>)
    requires |points| >= |m.trajectory|
    ensures Speeds(SetDrivingActions(m, points).value) == Speeds(m)
  {
  }

  /** Changing the speed leaves the positions alone. */
  lemma SetSpeedKeepsPoints(m: Movement, speed: real)
    ensures DrivingPoints(SetSpeed(m, speed)) == DrivingPoints(m)
  {
  }

  /** The last speed set wins. */
  lemma SetSpeedLastWins(m: Movement, a: real, b: real)
    ensures SetSpeed(SetSpeed(m, a), b) == SetSpeed(m, b)
  {
    assert SetSpeed(SetSpeed(m, a), b).trajectory == SetSpeed(m, b).trajectory;
  }

  /** After setting one speed for the whole movement, that speed is the mean. */
  lemma MeanAfterSetSpeed(m: Movement, speed: real)
    requires |m.trajectory| > 0
    ensures MeanSpeed(SetSpeed(m, speed)) == Some(speed)
  {
    var m' := SetSpeed(m, speed);
    var s := Speeds(m');
    SumConstant(s, speed);
    var n := |m.trajectory| as real;
    assert Sum(s) == speed * n;
    DivUnique(Sum(s), n, speed);
    assert MeanSpeed(m') == Some(Sum(s) / n);
  }

  /** The mean lies between any lower and upper bound of the speeds. */
  lemma MeanWithinBounds(m: Movement, lo: real, hi: real)
    requires |m.trajectory| > 0
    requires forall i :: 0 <= i < |m.trajectory| ==> lo <= m.trajectory[i].speed <= hi
    ensures lo <= MeanSpeed(m).value <= hi
  {
    var s := Speeds(m);
    var n := |m.trajectory| as real;
    SumBounds(s, lo, hi);
    QuotientBounds(Sum(s), n, lo, hi);
  }
}
