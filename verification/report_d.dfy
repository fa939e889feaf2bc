/** Category-D police-report scoring: the report names damaged parts by side
    (L, R), by component (F, M, B) or by both (FL, MR, ...).  Report targets and
    simulator outputs are canonicalised separately, then handed with the fixed
    category-D vocabulary to a matcher that awards the points. */
module ReportD {
  import opened Common

  type Part = string

  /** A bare side: the whole left or right flank. */
  predicate IsSide(p: Part)
  {
    p == "L" || p == "R"
  }

  /** A bare component (front, middle, back) that does not say which side. */
  predicate IsBare(p: Part)
  {
    p == "F" || p == "M" || p == "B"
  }

  /** A two-letter side-qualified component such as "FL" or "BR". */
  predicate IsCompSide(p: Part)
  {
    |p| == 2 && IsBare(p[..1]) && IsSide(p[1..])
  }

  /** `decode_part`: a side expands to the three components on that side, a
      bare component is discarded, anything longer or shorter than one letter is
      kept as is, and any other single letter falls off the end of the Python
      function, which then returns None (modelled as `None`). */
  function DecodePart(part: Part): (r: Option<seq<Part>>)
    ensures r.None? <==> |part| == 1 && !IsSide(part) && !IsBare(part)
    ensures r.Some? ==> forall q :: q in r.value ==> !IsBare(q)
  {
    if |part| == 1 then
      if IsSide(part) then Some(["F" + part, "M" + part, "B" + part])
      else if IsBare(part) then Some([])
      else None
    else Some([part])
  }

  /** A side decodes to the front, middle and back components of that side,
      in that order, and to nothing else. */
  lemma DecodeSideIsWholeFlank(side: Part)
    requires IsSide(side)
    ensures DecodePart(side) == Some(["F" + side, "M" + side, "B" + side])
    ensures |DecodePart(side).value| == 3 && NoDup(DecodePart(side).value)
    ensures forall q :: q in DecodePart(side).value <==> IsCompSide(q) && q[1..] == side
  {
    var r := DecodePart(side).value;
    assert r == ["F" + side, "M" + side, "B" + side];
    assert r[0][..1] == "F" && r[0][1..] == side;
    assert r[1][..1] == "M" && r[1][1..] == side;
    assert r[2][..1] == "B" && r[2][1..] == side;
    forall q | IsCompSide(q) && q[1..] == side
      ensures q in r
    {
      assert q == q[..1] + q[1..];
    }
  }

  /** A bare component carries no side and decodes to nothing. */
  lemma DecodeBareIsEmpty(part: Part)
    requires IsBare(part)
    ensures DecodePart(part) == Some([])
  {
  }

  /** Parts of any length other than one pass through unchanged. */
  lemma DecodeOtherLengthsUnchanged(part: Part)
    requires |part| != 1
    ensures DecodePart(part) == Some([part])
  {
  }

  // ---------------------------------------------------------------------
  // Report side: `_handle_compside_side_targets`
  // ---------------------------------------------------------------------

  /** Sides read off the two-letter targets (the second letter of each). */
  function TargetSides(targets: seq<Part>): set<char>
  {
    set t | t in targets && |t| == 2 :: t[1]
  }

  /** `order` lists the elements of `sides` once each: the iteration order of a
      Python set, which the language leaves unspecified. */
  predicate Enumerates(order: seq<char>, sides: set<char>)
  {
    NoDup(order) && forall c :: c in order <==> c in sides
  }

  /** One `{component}{side}` per side, in the given side order. */
  function Expand(component: Part, order: seq<char>): (r: seq<Part>)
    ensures |r| == |order|
    ensures forall k :: 0 <= k < |r| ==> r[k] == component + [order[k]]
  {
    seq(|order|, k requires 0 <= k < |order| => component + [order[k]])
  }

  /** Python's `list.remove(x)`: drops the FIRST element equal to `x`. */
  function RemoveFirst(s: seq<Part>, x: Part): (r: seq<Part>)
    requires x in s
    ensures |r| == |s| - 1
  {
    var k := FirstIndex(s, x);
    s[..k] + s[k + 1..]
  }

  lemma RemoveFirstKeepsOthers(s: seq<Part>, x: Part, y: Part)
    requires x in s && y != x
    ensures y in RemoveFirst(s, x) <==> y in s
  {
    var k := FirstIndex(s, x);
    assert s == s[..k] + [x] + s[k + 1..];
  }

  function BareCount(s: seq<Part>): nat
  {
    if |s| == 0 then 0 else BareCount(s[..|s| - 1]) + (if IsBare(s[|s| - 1]) then 1 else 0)
  }

  lemma {:induction false} BareCountConcat(a: seq<Part>, b: seq<Part>)
    ensures BareCount(a + b) == BareCount(a) + BareCount(b)
  {
    if |b| == 0 {
      assert a + b == a;
    } else {
      assert (a + b)[..|a + b| - 1] == a + b[..|b| - 1];
      BareCountConcat(a, b[..|b| - 1]);
    }
  }

  lemma {:induction false} BareCountNone(s: seq<Part>)
    requires forall k :: 0 <= k < |s| ==> !IsBare(s[k])
    ensures BareCount(s) == 0
  {
    if |s| > 0 {
      BareCountNone(s[..|s| - 1]);
    }
  }

  lemma BareCountStep(s: seq<Part>, x: Part, order: seq<char>)
    requires x in s && IsBare(x)
    ensures BareCount(RemoveFirst(s, x) + Expand(x, order)) + 1 == BareCount(s)
  {
    var k := FirstIndex(s, x);
    assert s == s[..k] + [x] + s[k + 1..];
    BareCountConcat(s[..k] + [x], s[k + 1..]);
    BareCountConcat(s[..k], [x]);
    BareCountConcat(s[..k], s[k + 1..]);
    BareCountConcat(RemoveFirst(s, x), Expand(x, order));
    BareCountNone(Expand(x, order));
    assert BareCount([x]) == 1;
  }

  /** The second loop of `_handle_compside_side_targets`, step by step: a
      Python list iterator over `lst` that is at index `i`.  A bare component
      that is visited is removed (its first occurrence) and one
      `{component}{side}` per side is appended; removal shifts the rest of the
      list left, so the element after it is never visited. */
  function Sweep(lst: seq<Part>, i: nat, order: seq<char>): seq<Part>
    decreases BareCount(lst), |lst| - i
  {
    if i >= |lst| then lst
    else if IsBare(lst[i]) then
      BareCountStep(lst, lst[i], order);
      Sweep(RemoveFirst(lst, lst[i]) + Expand(lst[i], order), i + 1, order)
    else Sweep(lst, i + 1, order)
  }

  /** `_handle_compside_side_targets`: replaces bare components by their
      side-qualified forms and removes duplicates, keeping first occurrences. */
  function HandleTargets(targets: seq<Part>, order: seq<char>): (r: seq<Part>)
    requires Enumerates(order, TargetSides(targets))
    ensures NoDup(r)
    ensures forall x :: x in r <==> x in Sweep(targets, 0, order)
    ensures forall i, j :: 0 <= i < j < |r| ==>
      FirstIndex(Sweep(targets, 0, order), r[i]) < FirstIndex(Sweep(targets, 0, order), r[j])
  {
    Dedup(Sweep(targets, 0, order))
  }

  /** A value that can end up in the canonical target list: an original target,
      or a bare target component paired with an observed side. */
  predicate FromTargets(q: Part, targets: seq<Part>, order: seq<char>)
  {
    q in targets || (|q| == 2 && IsBare(q[..1]) && q[..1] in targets && q[1] in order)
  }

  lemma {:induction false} SweepOrigin(lst: seq<Part>, i: nat, order: seq<char>, targets: seq<Part>)
    requires forall q :: q in lst ==> FromTargets(q, targets, order)
    ensures forall q :: q in Sweep(lst, i, order) ==> FromTargets(q, targets, order)
    decreases BareCount(lst), |lst| - i
  {
    if i < |lst| {
      if IsBare(lst[i]) {
        var x := lst[i];
        BareCountStep(lst, x, order);
        var next := RemoveFirst(lst, x) + Expand(x, order);
        forall q | q in next
          ensures FromTargets(q, targets, order)
        {
          if q in Expand(x, order) {
            var k :| 0 <= k < |order| && q == x + [order[k]];
            assert q[..1] == x;
            assert x in targets by {
              assert FromTargets(x, targets, order);
            }
          } else {
            assert q in RemoveFirst(lst, x);
            var k := FirstIndex(lst, x);
            assert q in lst[..k] || q in lst[k + 1..];
          }
        }
        SweepOrigin(next, i + 1, order, targets);
      } else {
        SweepOrigin(lst, i + 1, order, targets);
      }
    }
  }

  lemma {:induction false} SweepKeeps(lst: seq<Part>, i: nat, order: seq<char>, q: Part)
    requires q in lst && !IsBare(q)
    ensures q in Sweep(lst, i, order)
    decreases BareCount(lst), |lst| - i
  {
    if i < |lst| {
      if IsBare(lst[i]) {
        BareCountStep(lst, lst[i], order);
        RemoveFirstKeepsOthers(lst, lst[i], q);
        SweepKeeps(RemoveFirst(lst, lst[i]) + Expand(lst[i], order), i + 1, order, q);
      } else {
        SweepKeeps(lst, i + 1, order, q);
      }
    }
  }

  lemma {:induction false} SweepNoBare(lst: seq<Part>, i: nat, order: seq<char>)
    requires forall k :: 0 <= k < |lst| ==> !IsBare(lst[k])
    ensures Sweep(lst, i, order) == lst
    decreases |lst| - i
  {
    if i < |lst| {
      SweepNoBare(lst, i + 1, order);
    }
  }

  /** Every element of the canonical report list is an original target or a bare
      target component paired with a side seen on a two-letter target; every
      original target that is not a bare component survives. */
  lemma HandleTargetsContents(targets: seq<Part>, order: seq<char>)
    requires Enumerates(order, TargetSides(targets))
    ensures forall q :: q in HandleTargets(targets, order) ==>
      q in targets || (|q| == 2 && IsBare(q[..1]) && q[..1] in targets && q[1] in TargetSides(targets))
    ensures forall q :: q in targets && !IsBare(q) ==> q in HandleTargets(targets, order)
  {
    SweepOrigin(targets, 0, order, targets);
    forall q | q in targets && !IsBare(q)
      ensures q in HandleTargets(targets, order)
    {
      SweepKeeps(targets, 0, order, q);
    }
  }

  /** Without bare components the report list is the targets, de-duplicated. */
  lemma HandleTargetsWithoutBare(targets: seq<Part>, order: seq<char>)
    requires Enumerates(order, TargetSides(targets))
    requires forall k :: 0 <= k < |targets| ==> !IsBare(targets[k])
    ensures HandleTargets(targets, order) == Dedup(targets)
  {
    SweepNoBare(targets, 0, order);
  }

  /** With no two-letter target there is no side to attach, so bare components
      are simply dropped and nothing new appears. */
  lemma HandleTargetsWithoutSides(targets: seq<Part>, order: seq<char>)
    requires Enumerates(order, TargetSides(targets))
    requires TargetSides(targets) == {}
    ensures forall q :: q in HandleTargets(targets, order) ==> q in targets
  {
    HandleTargetsContents(targets, order);
  }

  predicate NoAdjacentBare(s: seq<Part>)
  {
    forall k :: 0 <= k < |s| - 1 ==> !(IsBare(s[k]) && IsBare(s[k + 1]))
  }

  predicate Replaced(c: Part, order: seq<char>, lst: seq<Part>)
  {
    forall s :: s in order ==> c + [s] in lst
  }

  predicate CleanBefore(lst: seq<Part>, i: nat)
  {
    forall k :: 0 <= k < i && k < |lst| ==> !IsBare(lst[k])
  }

  predicate NoAdjacentFrom(lst: seq<Part>, i: nat)
  {
    forall k :: i <= k < |lst| - 1 ==> !(IsBare(lst[k]) && IsBare(lst[k + 1]))
  }

  predicate PendingFrom(lst: seq<Part>, i: nat, c: Part)
  {
    exists j :: i <= j < |lst| && lst[j] == c
  }

  /** Every bare target is either still ahead of the iterator or already replaced. */
  predicate Covered(targets: seq<Part>, order: seq<char>, lst: seq<Part>, i: nat)
  {
    forall c :: c in targets && IsBare(c) ==> PendingFrom(lst, i, c) || Replaced(c, order, lst)
  }

  /** One removal step of the sweep, for a list whose visited part is clean. */
  lemma IsolatedStepShape(lst: seq<Part>, i: nat, order: seq<char>)
    requires i < |lst| && IsBare(lst[i]) && CleanBefore(lst, i)
    ensures RemoveFirst(lst, lst[i]) + Expand(lst[i], order) == lst[..i] + lst[i + 1..] + Expand(lst[i], order)
  {
    var x := lst[i];
    var f := FirstIndex(lst, x);
    assert !IsBare(lst[f]) || f >= i;
  }

  lemma IsolatedStepClean(lst: seq<Part>, i: nat, order: seq<char>)
    requires i < |lst| && IsBare(lst[i]) && CleanBefore(lst, i) && NoAdjacentFrom(lst, i)
    ensures var next := lst[..i] + lst[i + 1..] + Expand(lst[i], order);
      CleanBefore(next, i + 1) && NoAdjacentFrom(next, i + 1)
  {
    var e := Expand(lst[i], order);
    var next := lst[..i] + lst[i + 1..] + e;
    assert forall k :: 0 <= k < |e| ==> |e[k]| == 2;
    forall k | 0 <= k < i + 1 && k < |next|
      ensures !IsBare(next[k])
    {
      if k < i {
        assert next[k] == lst[k];
      } else if i + 1 < |lst| {
        assert next[k] == lst[i + 1];
      } else {
        assert next[k] == e[k - (|lst| - 1)];
      }
    }
    forall k | i + 1 <= k < |next| - 1
      ensures !(IsBare(next[k]) && IsBare(next[k + 1]))
    {
      if k + 2 < |lst| {
        assert next[k] == lst[k + 1] && next[k + 1] == lst[k + 2];
      } else {
        assert next[k + 1] == e[k + 1 - (|lst| - 1)];
      }
    }
  }

  lemma IsolatedStepCovered(lst: seq<Part>, i: nat, order: seq<char>, targets: seq<Part>)
    requires i < |lst| && IsBare(lst[i]) && CleanBefore(lst, i) && NoAdjacentFrom(lst, i)
    requires Covered(targets, order, lst, i)
    ensures Covered(targets, order, lst[..i] + lst[i + 1..] + Expand(lst[i], order), i + 1)
  {
    var x := lst[i];
    var e := Expand(x, order);
    var next := lst[..i] + lst[i + 1..] + e;
    forall c | c in targets && IsBare(c)
      ensures PendingFrom(next, i + 1, c) || Replaced(c, order, next)
    {
      if c == x {
        forall s | s in order
          ensures c + [s] in next
        {
          var k :| 0 <= k < |order| && order[k] == s;
          assert next[|lst| - 1 + k] == e[k];
        }
      } else if PendingFrom(lst, i, c) {
        var j :| i <= j < |lst| && lst[j] == c;
        assert j != i && j != i + 1;
        assert next[j - 1] == c;
      } else {
        forall s | s in order
          ensures c + [s] in next
        {
          assert c + [s] in lst;
          var j :| 0 <= j < |lst| && lst[j] == c + [s];
          assert j != i;
          if j < i {
            assert next[j] == c + [s];
          } else {
            assert next[j - 1] == c + [s];
          }
        }
      }
    }
  }

  lemma {:induction false} SweepIsolated(lst: seq<Part>, i: nat, order: seq<char>, targets: seq<Part>)
    requires CleanBefore(lst, i) && NoAdjacentFrom(lst, i) && Covered(targets, order, lst, i)
    ensures forall k :: 0 <= k < |Sweep(lst, i, order)| ==> !IsBare(Sweep(lst, i, order)[k])
    ensures forall c :: c in targets && IsBare(c) ==> Replaced(c, order, Sweep(lst, i, order))
    decreases BareCount(lst), |lst| - i
  {
    if i >= |lst| {
      assert forall c :: !PendingFrom(lst, i, c);
    } else if IsBare(lst[i]) {
      BareCountStep(lst, lst[i], order);
      IsolatedStepShape(lst, i, order);
      IsolatedStepClean(lst, i, order);
      IsolatedStepCovered(lst, i, order, targets);
      SweepIsolated(RemoveFirst(lst, lst[i]) + Expand(lst[i], order), i + 1, order, targets);
    } else {
      forall c | c in targets && IsBare(c)
        ensures PendingFrom(lst, i + 1, c) || Replaced(c, order, lst)
      {
        if PendingFrom(lst, i, c) {
          var j :| i <= j < |lst| && lst[j] == c;
          assert j != i;
        }
      }
      SweepIsolated(lst, i + 1, order, targets);
    }
  }

  /** When no two bare components are adjacent in the report, none is skipped:
      every bare component disappears and is replaced by all its observed sides.
      (Adjacent ones are where the remove-while-iterating behaviour shows.) */
  lemma HandleTargetsIsolatedBare(targets: seq<Part>, order: seq<char>)
    requires Enumerates(order, TargetSides(targets))
    requires NoAdjacentBare(targets)
    ensures forall q :: q in HandleTargets(targets, order) ==> !IsBare(q)
    ensures forall c, s :: c in targets && IsBare(c) && s in TargetSides(targets) ==>
      c + [s] in HandleTargets(targets, order)
  {
    forall c | c in targets && IsBare(c)
      ensures PendingFrom(targets, 0, c)
    {
      var j :| 0 <= j < |targets| && targets[j] == c;
    }
    SweepIsolated(targets, 0, order, targets);
    var r := Sweep(targets, 0, order);
    forall c, s | c in targets && IsBare(c) && s in TargetSides(targets)
      ensures c + [s] in HandleTargets(targets, order)
    {
      assert Replaced(c, order, r);
    }
  }

  lemma SkipExampleSweep()
    ensures Sweep(["F", "M", "FL"], 0, ['L']) == ["M", "FL", "FL"]
  {
    var t: seq<Part> := ["F", "M", "FL"];
    assert FirstIndex(t, "F") == 0;
    assert RemoveFirst(t, "F") == ["M", "FL"];
    var e := Expand("F", ['L']);
    assert "F" + ['L'] == "FL";
    assert |e| == 1 && e[0] == "FL";
    var s1: seq<Part> := ["M", "FL", "FL"];
    assert RemoveFirst(t, "F") + e == s1;
    assert Sweep(s1, 3, ['L']) == s1;
    assert Sweep(s1, 2, ['L']) == s1;
  }

  /** Removing while iterating skips the element right after a removed one:
      in ["F", "M", "FL"] the "M" is never visited and survives. */
  lemma HandleTargetsSkipsAfterRemoval()
    ensures Enumerates(['L'], TargetSides(["F", "M", "FL"]))
    ensures HandleTargets(["F", "M", "FL"], ['L']) == ["M", "FL"]
  {
    var t: seq<Part> := ["F", "M", "FL"];
    assert TargetSides(t) == {'L'} by {
      assert t[2] in t && |t[2]| == 2 && t[2][1] == 'L';
    }
    SkipExampleSweep();
    var s0: seq<Part> := ["M", "FL"];
    DedupAppendPresent(s0, "FL");
    assert s0 + ["FL"] == ["M", "FL", "FL"];
    DedupOfDistinct(s0);
  }

  // ---------------------------------------------------------------------
  // Simulator side and scoring: `process`
  // ---------------------------------------------------------------------

  /** Concatenated decodings of all outputs; None as soon as one falls through. */
  function DecodeAll(outputs: seq<Part>): (r: Option<seq<Part>>)
    ensures r.Some? <==> forall k :: 0 <= k < |outputs| ==> DecodePart(outputs[k]).Some?
    ensures r.Some? ==> forall q :: q in r.value ==> !IsBare(q)
  {
    if |outputs| == 0 then Some([])
    else
      var n := |outputs| - 1;
      match DecodeAll(outputs[..n])
      case None => None
      case Some(prefix) =>
        match DecodePart(outputs[n])
        case None => None
        case Some(d) => Some(prefix + d)
  }

  /** A part appears in the decoding exactly when it is produced by decoding one of the outputs. */
  lemma {:induction false} DecodeAllMembers(outputs: seq<Part>, q: Part)
    requires DecodeAll(outputs).Some?
    ensures q in DecodeAll(outputs).value <==>
      exists k :: 0 <= k < |outputs| && q in DecodePart(outputs[k]).value
  {
    if |outputs| > 0 {
      var n := |outputs| - 1;
      DecodeAllMembers(outputs[..n], q);
      if q in DecodeAll(outputs).value && q !in DecodePart(outputs[n]).value {
        var k :| 0 <= k < n && q in DecodePart(outputs[..n][k]).value;
        assert outputs[..n][k] == outputs[k];
      }
      if exists k :: 0 <= k < |outputs| && q in DecodePart(outputs[k]).value {
        var k :| 0 <= k < |outputs| && q in DecodePart(outputs[k]).value;
        if k < n {
          assert outputs[..n][k] == outputs[k];
        }
      }
    }
  }

  /** `{C}L`, `{C}R` for each component, in order. */
  function BothSides(components: seq<Part>): (r: seq<Part>)
    ensures forall q :: q in r <==> exists c :: c in components && (q == c + "L" || q == c + "R")
  {
    if |components| == 0 then []
    else
      var n := |components| - 1;
      var r := BothSides(components[..n]) + [components[n] + "L", components[n] + "R"];
      assert components == components[..n] + [components[n]];
      r
  }

  predicate HasBare(outputs: seq<Part>)
  {
    exists k :: 0 <= k < |outputs| && IsBare(outputs[k])
  }

  /** The simulator's crashed list: decoded outputs, except that when nothing
      decoded to a part but some output was a bare component, each such
      component is taken on both sides.  Duplicates are removed. */
  function SimulationCrashes(outputs: seq<Part>): (r: Option<seq<Part>>)
    ensures r.Some? <==> DecodeAll(outputs).Some?
    ensures r.Some? ==> NoDup(r.value)
  {
    match DecodeAll(outputs)
    case None => None
    case Some(d) =>
      if |d| == 0 && HasBare(outputs) then
        Some(Dedup(BothSides(Bares(outputs))))
      else Some(Dedup(d))
  }

  /** The bare component outputs, in order of first occurrence (`component_parts`). */
  function Bares(outputs: seq<Part>): (r: seq<Part>)
    ensures forall c :: c in r <==> c in outputs && IsBare(c)
    ensures NoDup(r)
  {
    BaresFrom(outputs, [])
  }

  function BaresFrom(outputs: seq<Part>, acc: seq<Part>): (r: seq<Part>)
    requires NoDup(acc)
    ensures forall c :: c in r <==> c in acc || (c in outputs && IsBare(c))
    ensures NoDup(r)
    ensures |r| >= |acc| && r[..|acc|] == acc
    decreases |outputs|
  {
    if |outputs| == 0 then acc
    else
      var o := outputs[0];
      var acc' := if IsBare(o) && o !in acc then acc + [o] else acc;
      assert acc'[..|acc|] == acc;
      var r := BaresFrom(outputs[1..], acc');
      assert outputs == [o] + outputs[1..];
      assert r[..|acc|] == r[..|acc'|][..|acc|];
      r
  }

  /** What the simulator side reports as crashed, member by member: a decoded
      part, or, when nothing decoded, a bare output component on either side. */
  lemma SimulationCrashesMembers(outputs: seq<Part>, q: Part)
    requires SimulationCrashes(outputs).Some?
    ensures q in SimulationCrashes(outputs).value <==>
      (exists k :: 0 <= k < |outputs| && q in DecodePart(outputs[k]).value)
      || (|DecodeAll(outputs).value| == 0 && |q| == 2 && q[..1] in outputs && IsBare(q[..1]) && IsSide(q[1..]))
  {
    DecodeAllMembers(outputs, q);
    if |q| == 2 && q[..1] in outputs && IsBare(q[..1]) {
      BareMeansHasBare(outputs, q[..1]);
    }
    if DecodeAll(outputs).value == [] && HasBare(outputs) {
      BareSidesMembers(outputs, q);
    }
  }

  lemma BareMeansHasBare(outputs: seq<Part>, c: Part)
    requires c in outputs && IsBare(c)
    ensures HasBare(outputs)
  {
    var k :| 0 <= k < |outputs| && outputs[k] == c;
  }

  /** The sided parts made from the bare components are exactly a bare
      component that occurs followed by a side letter. */
  lemma BareSidesMembers(outputs: seq<Part>, q: Part)
    ensures q in BothSides(Bares(outputs)) <==>
      |q| == 2 && q[..1] in outputs && IsBare(q[..1]) && IsSide(q[1..])
  {
    if q in BothSides(Bares(outputs)) {
      var c :| c in Bares(outputs) && (q == c + "L" || q == c + "R");
      assert q[..1] == c && (q[1..] == "L" || q[1..] == "R");
    }
    if |q| == 2 && q[..1] in outputs && IsBare(q[..1]) && IsSide(q[1..]) {
      assert q == q[..1] + q[1..];
      assert q[..1] in Bares(outputs);
    }
  }

  /** No bare component survives on the simulator side. */
  lemma SimulationCrashesNeverBare(outputs: seq<Part>)
    requires SimulationCrashes(outputs).Some?
    ensures forall q :: q in SimulationCrashes(outputs).value ==> !IsBare(q)
  {
    forall q | q in SimulationCrashes(outputs).value
      ensures !IsBare(q)
    {
      SimulationCrashesMembers(outputs, q);
      if |q| == 2 {
      } else {
        var k :| 0 <= k < |outputs| && q in DecodePart(outputs[k]).value;
      }
    }
  }

  /** Parts of the vocabulary not reported as crashed (a set: the Python code
      builds it from `set(...) - set(...)`, whose order is unspecified). */
  function NonCrashed(vocabulary: seq<Part>, crashed: seq<Part>): (r: set<Part>)
    ensures forall p :: p in r <==> p in vocabulary && p !in crashed
  {
    set p | p in vocabulary && p !in crashed
  }

  /** Every vocabulary part is on exactly one side of the crashed/non-crashed split. */
  lemma NonCrashedPartitions(vocabulary: seq<Part>, crashed: seq<Part>)
    ensures forall p :: p in vocabulary ==> (p in crashed <==> p !in NonCrashed(vocabulary, crashed))
    ensures |NonCrashed(vocabulary, crashed)| <= |vocabulary|
  {
    var r := NonCrashed(vocabulary, crashed);
    assert r <= set p | p in vocabulary;
    SetOfSeqSize(vocabulary);
    SubsetSize(r, set p | p in vocabulary);
  }

  lemma {:induction false} SetOfSeqSize(s: seq<Part>)
    ensures |set p | p in s| <= |s|
  {
    if |s| > 0 {
      var n := |s| - 1;
      SetOfSeqSize(s[..n]);
      assert (set p | p in s) == (set p | p in s[..n]) + {s[n]} by {
        assert s == s[..n] + [s[n]];
      }
    }
  }

  lemma SubsetSize(a: set<Part>, b: set<Part>)
    requires a <= b
    ensures |a| <= |b|
  {
    assert b == a + (b - a);
  }

  /** The score triple of `process`. */
  datatype Score = Score(crashPoints: int, nonCrashPoints: int, maxPoints: nat)

  /** `_match`: awards points from the vocabulary and the four crashed /
      non-crashed lists; its body is not part of this model. */
  type Matcher = (seq<Part>, seq<Part>, seq<Part>, set<Part>, set<Part>) -> (int, int)

  /** `process`.  `outputsValid` is the verdict of `_validate_output`; `order`
      is the iteration order of the set of sides on the report side. */
  function Process(outputs: seq<Part>, targets: seq<Part>, order: seq<char>,
                   vocabulary: seq<Part>, outputsValid: bool, matcher: Matcher): (r: Result<Score>)
    requires Enumerates(order, TargetSides(targets))
    ensures r.Ok? <==> outputsValid && forall k :: 0 <= k < |outputs| ==> DecodePart(outputs[k]).Some?
    ensures r.Ok? ==> r.value.maxPoints == |vocabulary|
    ensures r.Ok? ==>
      var reported := HandleTargets(targets, order);
      var simulated := SimulationCrashes(outputs).value;
      (r.value.crashPoints, r.value.nonCrashPoints)
        == matcher(vocabulary, reported, simulated,
                   NonCrashed(vocabulary, reported), NonCrashed(vocabulary, simulated))
  {
    if !outputsValid then Err("invalid simulator output")
    else
      var reported := HandleTargets(targets, order);
      match SimulationCrashes(outputs)
      case None => Err("TypeError: decode_part returned None")
      case Some(simulated) =>
        var points := matcher(vocabulary, reported, simulated,
                              NonCrashed(vocabulary, reported), NonCrashed(vocabulary, simulated));
        Ok(Score(points.0, points.1, |vocabulary|))
  }

  /** A report naming only the side "L" is not expanded on the report side:
      the crashed list stays ["L"], so every vocabulary part counts as not crashed,
      while the simulator's ["FL", "ML", "BL"] stays as it is. */
  lemma ReportSideIsNotDecoded()
    ensures Enumerates([], TargetSides(["L"]))
    ensures HandleTargets(["L"], []) == ["L"]
    ensures NonCrashed(["FL", "FR", "ML", "MR", "BL", "BR"], ["L"]) == {"FL", "FR", "ML", "MR", "BL", "BR"}
    ensures SimulationCrashes(["FL", "ML", "BL"]) == Some(["FL", "ML", "BL"])
  {
    assert TargetSides(["L"]) == {};
    HandleTargetsWithoutBare(["L"], []);
    DedupOfDistinct(["L"]);
    NothingCrashedOnReport();
    ThreeLeftOutputs();
  }

  lemma NothingCrashedOnReport()
    ensures NonCrashed(["FL", "FR", "ML", "MR", "BL", "BR"], ["L"]) == {"FL", "FR", "ML", "MR", "BL", "BR"}
  {
    var v: seq<Part> := ["FL", "FR", "ML", "MR", "BL", "BR"];
    forall p | p in v
      ensures p != "L"
    {
      assert |p| == 2;
    }
  }

  lemma ThreeLeftOutputs()
    ensures SimulationCrashes(["FL", "ML", "BL"]) == Some(["FL", "ML", "BL"])
  {
    var o: seq<Part> := ["FL", "ML", "BL"];
    assert DecodeAll(o[..1][..0]) == Some([]) by {
      assert o[..1][..0] == [];
    }
    assert DecodePart("FL") == Some(["FL"]);
    assert DecodePart("ML") == Some(["ML"]);
    assert DecodePart("BL") == Some(["BL"]);
    assert DecodeAll(o[..1]) == Some(["FL"]) by {
      assert o[..1][0] == "FL";
      assert [] + ["FL"] == ["FL"];
    }
    assert DecodeAll(o[..2]) == Some(["FL", "ML"]) by {
      assert o[..2][..1] == o[..1];
      assert o[..2][1] == "ML";
      assert ["FL"] + ["ML"] == ["FL", "ML"];
    }
    assert DecodeAll(o) == Some(["FL", "ML", "BL"]) by {
      assert o[..2] == o[..|o| - 1];
      assert ["FL", "ML"] + ["BL"] == ["FL", "ML", "BL"];
    }
    DedupOfDistinct(["FL", "ML", "BL"]);
  }
}
