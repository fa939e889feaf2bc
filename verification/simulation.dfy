/** The simulation's per-vehicle decisions: when a waiting vehicle is set
    in motion, and which damaged components are reported per vehicle. */
module Simulation {
  import opened Common
  import RoadProfiler

  /** The trigger-relevant state of a player: the distance at which it starts
      (-1 for a vehicle that moves from the beginning) and its AI script. */
  datatype Player = Player(distanceToTrigger: real, script: seq<RoadProfiler.Node>)

  /** What a call does: the script handed to the vehicle's AI, if any, and
      what it returns, the decision or the exception it raises.  The script
      is installed before the debug line runs, so it is installed even when
      the call then raises. */
  datatype Call = Call(installed: Option<seq<RoadProfiler.Node>>, returned: Result<bool>)

  /** The trigger decision on its own. */
  predicate Triggers(p: Player, distanceReport: Option<real>)
  {
    match distanceReport
    case Some(d) => p.distanceToTrigger > d
    case None => p.distanceToTrigger == -1.0
  }

  /** `trigger_vehicle(player, distance_report, debug)`, as written: the debug
      line rounds `distance_report` even when it is None, which raises
      TypeError whether or not the vehicle was triggered, after the script
      has been installed. */
  function TriggerVehicle(p: Player, distanceReport: Option<real>, debug: bool): (r: Call)
    ensures r.returned.Err? <==> debug && distanceReport.None?
    ensures r.returned.Ok? ==> (r.returned.value <==> Triggers(p, distanceReport))
    ensures r.installed.Some? <==> Triggers(p, distanceReport) && |p.script| > 2
    ensures r.installed.Some? ==> r.installed.value == p.script
  {
    var isTrigger :=
      (distanceReport.Some? && p.distanceToTrigger > distanceReport.value)
      || (distanceReport.None? && p.distanceToTrigger == -1.0);
    var installed := if isTrigger && |p.script| > 2 then Some(p.script) else None;
    if debug && distanceReport.None? then Call(installed, Err("TypeError: type NoneType doesn't define __round__ method"))
    else Call(installed, Ok(isTrigger))
  }

  /** The intended behaviour: the debug line only reports, it never changes
      the outcome or fails. */
  function TriggerVehicleCorrected(p: Player, distanceReport: Option<real>, debug: bool): (r: Call)
    ensures r.returned == Ok(Triggers(p, distanceReport))
    ensures r.installed.Some? <==> Triggers(p, distanceReport) && |p.script| > 2
    ensures r.installed.Some? ==> r.installed.value == p.script
  {
    var isTrigger :=
      (distanceReport.Some? && p.distanceToTrigger > distanceReport.value)
      || (distanceReport.None? && p.distanceToTrigger == -1.0);
    Call(if isTrigger && |p.script| > 2 then Some(p.script) else None, Ok(isTrigger))
  }

  /** A vehicle that moves from the start, checked with debugging on before
      any distance is known: it would be triggered, and its script is
      installed, yet the call raises. */
  lemma DebugWithoutReportRaises(script: seq<RoadProfiler.Node>)
    requires |script| > 2
    ensures TriggerVehicleCorrected(Player(-1.0, script), None, true).returned == Ok(true)
    ensures TriggerVehicle(Player(-1.0, script), None, true).returned.Err?
    ensures TriggerVehicle(Player(-1.0, script), None, true).installed == Some(script)
  {
  }

  /** The corrected call installs the same script as the one as written, and
      returns the same value wherever the latter does not raise; it does not
      depend on debugging. */
  lemma CorrectedAgrees(p: Player, distanceReport: Option<real>, debug: bool)
    ensures TriggerVehicle(p, distanceReport, debug).installed == TriggerVehicleCorrected(p, distanceReport, debug).installed
    ensures TriggerVehicle(p, distanceReport, debug).returned.Ok? ==>
      TriggerVehicle(p, distanceReport, debug).returned == TriggerVehicleCorrected(p, distanceReport, debug).returned
    ensures TriggerVehicleCorrected(p, distanceReport, debug) == TriggerVehicleCorrected(p, distanceReport, false)
  {
  }

  // ---------------------------------------------------------------------
  // get_data_outputs
  // ---------------------------------------------------------------------

  /** A damaged component as the damage sensor reports it. */
  datatype Component = Component(name: string, damage: real)

  datatype Damaged = Damaged(vid: string, damage: seq<Component>)

  /** The distinct damage values of a vehicle. */
  function DamageValues(comps: seq<Component>): set<real>
  {
    set i | 0 <= i < |comps| :: comps[i].damage
  }

  /** The damage reported for one vehicle: unchanged when it has at most
      three distinct damage values, otherwise what the clustering (outside
      this model) keeps. */
  function Reported(d: Damaged, cluster: seq<Component> -> seq<Component>): (r: seq<Component>)
    ensures |DamageValues(d.damage)| <= 3 ==> r == d.damage
  {
    if |DamageValues(d.damage)| > 3 then cluster(d.damage) else d.damage
  }

  /** `get_data_outputs`: vehicle id to reported damage, players read in
      order, so a later player with the same id overwrites an earlier one. */
  function DataOutputs(players: seq<Damaged>, cluster: seq<Component> -> seq<Component>): (r: map<string, seq<Component>>)
    ensures r.Keys == set i | 0 <= i < |players| :: players[i].vid
  {
    if |players| == 0 then map[]
    else
      var n := |players| - 1;
      var prev := DataOutputs(players[..n], cluster);
      assert forall i :: 0 <= i < n ==> players[..n][i] == players[i];
      assert (set i | 0 <= i < |players| :: players[i].vid)
          == (set i | 0 <= i < n :: players[..n][i].vid) + {players[n].vid};
      prev[players[n].vid := Reported(players[n], cluster)]
  }

  /** A player with at most three distinct damage values, and no later
      player with the same id, has its damage list passed through unchanged. */
  lemma {:induction false} FewDamageValuesPassThrough(players: seq<Damaged>, cluster: seq<Component> -> seq<Component>, i: nat)
    requires i < |players| && |DamageValues(players[i].damage)| <= 3
    requires forall j :: i < j < |players| ==> players[j].vid != players[i].vid
    ensures DataOutputs(players, cluster)[players[i].vid] == players[i].damage
  {
    var n := |players| - 1;
    if i < n {
      FewDamageValuesPassThrough(players[..n], cluster, i);
    }
  }
}
