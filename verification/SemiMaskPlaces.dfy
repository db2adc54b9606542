/**
  Which joins get semi masks, in which direction and keyed on what, said about the input and the
  output of the optimizer (optimizer/acc_hash_join_optimizer.cpp).
 */
module SemiMaskPlaces {
  import opened Options
  import opened Plans
  import opened SemiMask

  function Children(p: Plan): seq<Plan> {
    match p
    case Extend(_, _, _, _, c) => [c]
    case Filter(_, c) => [c]
    case CrossProduct(_, l, r) => [l, r]
    case HashJoin(_, _, l, r, _) => [l, r]
    case Accumulate(_, c) => [c]
    case SemiMasker(_, c) => [c]
    case Other(_, _, children) => children
    case _ => []
  }

  /** `q` is `p` or an operator anywhere below it. */
  ghost predicate Within(q: Plan, p: Plan) {
    q == p || exists i :: 0 <= i < |Children(p)| && Within(q, Children(p)[i])
  }

  predicate IndexScan(q: Plan) { q.ScanNodeTable? && q.scan.key.Some? }

  /** A scan of the node's whole tables. */
  predicate FullScan(q: Plan, nodeID: Column) { q.ScanNodeTable? && q.scan.key.None? && q.scan.nodeID == nodeID }

  ghost predicate Scans(p: Plan, nodeID: Column) { exists q :: Within(q, p) && FullScan(q, nodeID) }

  /** Filters or index look-ups make a side selective. */
  ghost predicate Selective(p: Plan) { exists q :: Within(q, p) && (q.Filter? || IndexScan(q)) }

  /** The node is joined on: its internal ID is a key of the probe side. */
  ghost predicate JoinsOn(conds: JoinConditions, nodeID: Column) {
    nodeID.isInternalID && exists i :: 0 <= i < |conds| && conds[i].0 == Property(nodeID)
  }

  /** Some node that is joined on is scanned on the other side. */
  ghost predicate HasTarget(conds: JoinConditions, side: Plan) {
    exists k :: JoinsOn(conds, k) && Scans(side, k)
  }

  ghost predicate BuildToProbe(p: Plan)
    requires p.HashJoin?
  {
    && !p.probe.Accumulate? && !p.sip.position.Prohibit?
    && p.kind.Inner? && (p.sip.direction.ForceBuildToProbe? || Selective(p.build)) && HasTarget(p.conditions, p.probe)
  }

  ghost predicate ProbeToBuild(p: Plan)
    requires p.HashJoin?
  {
    && !p.probe.Accumulate? && !p.sip.position.Prohibit? && !p.sip.position.ProhibitProbeToBuild?
    && !BuildToProbe(p) && Selective(p.probe) && HasTarget(p.conditions, p.build)
  }

  /** The plan below the maskers on top of it, ... */
  function Unmasked(p: Plan): Plan { if p.SemiMasker? then Unmasked(p.child) else p }

  /** ... and their keys. */
  function TopKeys(p: Plan): set<Column> { if p.SemiMasker? then {p.maskKey} + TopKeys(p.child) else {} }

  /** The maskers on top of `from` are keyed on exactly the joined nodes that are scanned in `target`. */
  ghost predicate MasksFor(conds: JoinConditions, from: Plan, target: Plan) {
    forall k :: k in TopKeys(from) <==> JoinsOn(conds, k) && Scans(target, k)
  }

  /** `q` is `p` with the masks of all its joins. */
  ghost predicate Placed(p: Plan, q: Plan)
    decreases p
  {
    match p
    case Extend(x, cs, rec, hints, c) =>
      q.Extend? && q == Extend(x, cs, rec, hints, q.child) && Placed(c, q.child)
    case Filter(e, c) => q.Filter? && q.condition == e && Placed(c, q.child)
    case CrossProduct(t, l, r) => q.CrossProduct? && q.collect == t && Placed(l, q.probe) && Placed(r, q.build)
    case HashJoin(conds, k, l, r, sip) =>
      && q.HashJoin? && q.conditions == conds && q.kind == k
      && if BuildToProbe(p) then
           && q.sip == SipInfo(OnBuild, SipDirection.BuildToProbe)
           && Placed(l, q.probe) && Placed(r, Unmasked(q.build)) && MasksFor(conds, q.build, l)
         else if ProbeToBuild(p) then
           && q.sip == SipInfo(OnProbe, SipDirection.ProbeToBuild) && q.probe.Accumulate? && q.probe.collect.Regular?
           && Placed(l, Unmasked(q.probe.child)) && Placed(r, q.build) && MasksFor(conds, q.probe.child, r)
         else q.sip == sip && Placed(l, q.probe) && Placed(r, q.build)
    case Accumulate(t, c) => q.Accumulate? && q.collect == t && Placed(c, q.child)
    case SemiMasker(k, c) => q.SemiMasker? && q.maskKey == k && Placed(c, q.child)
    case Other(o, cs, children) =>
      && q.Other? && q.operator == o && q.columns == cs && |q.children| == |children|
      && forall i :: 0 <= i < |children| ==> Placed(children[i], q.children[i])
    case _ => q == p
  }

  /* ----- the searches ----- */

  lemma {:induction false} WithinChild(q: Plan, p: Plan, i: nat)
    requires i < |Children(p)| && Within(q, Children(p)[i])
    ensures Within(q, p)
  {
  }

  /** What is somewhere below a plan is the plan itself or below one of its children. */
  lemma {:induction false} ScansOfChild(nodeID: Column, p: Plan)
    ensures Scans(p, nodeID) <==> FullScan(p, nodeID) || exists i: nat :: i < |Children(p)| && Scans(Children(p)[i], nodeID)
  {
    if q :| Within(q, p) && FullScan(q, nodeID) {
      if q != p {
        var i :| 0 <= i < |Children(p)| && Within(q, Children(p)[i]);
        assert Scans(Children(p)[i], nodeID);
      }
    }
    if FullScan(p, nodeID) { assert Within(p, p); }
    if i: nat :| i < |Children(p)| && Scans(Children(p)[i], nodeID) {
      var q :| Within(q, Children(p)[i]) && FullScan(q, nodeID);
      WithinChild(q, p, i);
    }
  }

  /** The search for scans finds the full scans of the node, wherever they are, and no others. */
  lemma {:induction false} CandidatesExactly(nodeID: Column, p: Plan)
    ensures HasCandidate(nodeID, p) <==> Scans(p, nodeID)
  {
    forall i: nat | i < |Children(p)| ensures HasCandidate(nodeID, Children(p)[i]) <==> Scans(Children(p)[i], nodeID) {
      CandidatesExactly(nodeID, Children(p)[i]);
    }
    CandidateOfChild(nodeID, p);
    ScansOfChild(nodeID, p);
  }

  ghost predicate SomeCandidate(nodeID: Column, ps: seq<Plan>) {
    exists i: nat :: i < |ps| && HasCandidate(nodeID, ps[i])
  }

  lemma {:induction false} CandidateOfChild(nodeID: Column, p: Plan)
    ensures p.ScanNodeTable? || (HasCandidate(nodeID, p) <==> SomeCandidate(nodeID, Children(p)))
    ensures p.ScanNodeTable? ==> (HasCandidate(nodeID, p) <==> FullScan(p, nodeID))
  {
    match p
    case Other(_, _, children) => CandidateOfAll(nodeID, children);
    case CrossProduct(_, l, r) => TwoCandidates(nodeID, l, r);
    case HashJoin(_, _, l, r, _) => TwoCandidates(nodeID, l, r);
    case Extend(_, _, _, _, c) => assert Children(p)[0] == c;
    case Filter(_, c) => assert Children(p)[0] == c;
    case Accumulate(_, c) => assert Children(p)[0] == c;
    case SemiMasker(_, c) => assert Children(p)[0] == c;
    case _ =>
  }

  lemma {:induction false} TwoCandidates(nodeID: Column, l: Plan, r: Plan)
    ensures SomeCandidate(nodeID, [l, r]) <==> HasCandidate(nodeID, l) || HasCandidate(nodeID, r)
  {
    assert [l, r][0] == l && [l, r][1] == r;
  }

  lemma {:induction false} CandidateOfAll(nodeID: Column, ps: seq<Plan>)
    ensures GetCandidatesOfAll(nodeID, ps) != [] <==> SomeCandidate(nodeID, ps)
  {
    if ps != [] {
      CandidateOfAll(nodeID, ps[1..]);
      if i: nat :| i < |ps| && HasCandidate(nodeID, ps[i]) {
        if i > 0 { assert ps[1..][i - 1] == ps[i]; }
      }
      if GetCandidatesOfAll(nodeID, ps) != [] {
        if HasCandidate(nodeID, ps[0]) {
          assert HasCandidate(nodeID, ps[0]);
        } else {
          var j: nat :| j < |ps[1..]| && HasCandidate(nodeID, ps[1..][j]);
          assert ps[1..][j] == ps[j + 1];
        }
      }
    }
  }

  /** So does the search for filters. */
  lemma {:induction false} FiltersExactly(p: Plan)
    ensures SubPlanContainsFilter(p) <==> Selective(p)
  {
    forall i: nat | i < |Children(p)| ensures SubPlanContainsFilter(Children(p)[i]) <==> Selective(Children(p)[i]) {
      FiltersExactly(Children(p)[i]);
    }
    FilterOfChild(p);
    if Selective(p) {
      var q :| Within(q, p) && (q.Filter? || IndexScan(q));
      if q != p {
        var i :| 0 <= i < |Children(p)| && Within(q, Children(p)[i]);
        assert Selective(Children(p)[i]);
      }
    }
    if SubPlanContainsFilter(p) {
      if p.Filter? || IndexScan(p) {
        assert Within(p, p);
      } else {
        var i: nat :| i < |Children(p)| && SubPlanContainsFilter(Children(p)[i]);
        var q :| Within(q, Children(p)[i]) && (q.Filter? || IndexScan(q));
        WithinChild(q, p, i);
      }
    }
  }

  ghost predicate SomeFilter(ps: seq<Plan>) { exists i: nat :: i < |ps| && SubPlanContainsFilter(ps[i]) }

  lemma {:induction false} FilterOfChild(p: Plan)
    ensures SubPlanContainsFilter(p) <==> p.Filter? || IndexScan(p) || SomeFilter(Children(p))
  {
    match p
    case CrossProduct(_, l, r) => TwoFilters(l, r);
    case HashJoin(_, _, l, r, _) => TwoFilters(l, r);
    case Extend(_, _, _, _, c) => assert Children(p)[0] == c;
    case Filter(_, _) =>
    case Accumulate(_, c) => assert Children(p)[0] == c;
    case SemiMasker(_, c) => assert Children(p)[0] == c;
    case _ =>
  }

  lemma {:induction false} TwoFilters(l: Plan, r: Plan)
    ensures SomeFilter([l, r]) <==> SubPlanContainsFilter(l) || SubPlanContainsFilter(r)
  {
    assert [l, r][0] == l && [l, r][1] == r;
  }

  lemma {:induction false} JoinNodes(conds: JoinConditions, k: Column)
    ensures k in GetJoinNodeIDs(conds) <==> JoinsOn(conds, k)
  {
    if conds != [] {
      JoinNodes(conds[1..], k);
      if JoinsOn(conds, k) {
        var i :| 0 <= i < |conds| && conds[i].0 == Property(k);
        if i > 0 { assert conds[1..][i - 1] == conds[i]; }
      }
      if JoinsOn(conds[1..], k) {
        var i :| 0 <= i < |conds[1..]| && conds[1..][i].0 == Property(k);
        assert conds[i + 1].0 == Property(k);
      }
    }
  }

  lemma {:induction false} TargetsExactly(conds: JoinConditions, side: Plan)
    ensures AnyCandidate(GetJoinNodeIDs(conds), side) <==> HasTarget(conds, side)
  {
    var ids := GetJoinNodeIDs(conds);
    forall k ensures k in ids <==> JoinsOn(conds, k)
             ensures HasCandidate(k, side) <==> Scans(side, k)
    {
      JoinNodes(conds, k);
      CandidatesExactly(k, side);
    }
    if HasTarget(conds, side) {
      var k :| JoinsOn(conds, k) && Scans(side, k);
      var i :| 0 <= i < |ids| && ids[i] == k;
    }
    if AnyCandidate(ids, side) {
      var i :| 0 <= i < |ids| && HasCandidate(ids[i], side);
      assert JoinsOn(conds, ids[i]);
    }
  }

  /* ----- the masks of a join ----- */

  lemma {:induction false} ApplyPlaces(ids: seq<Column>, from: Plan, target: Plan)
    ensures var q := ApplySemiMasks(ids, from, target);
            && Unmasked(q) == Unmasked(from)
            && forall k :: k in TopKeys(q) <==> k in TopKeys(from) || (k in ids && HasCandidate(k, target))
    decreases |ids|
  {
    if ids != [] {
      var from' := if HasCandidate(ids[0], target) then SemiMasker(ids[0], from) else from;
      ApplyPlaces(ids[1..], from', target);
    }
  }

  lemma {:induction false} MasksPlaced(conds: JoinConditions, from: Plan, target: Plan)
    requires !from.SemiMasker?
    ensures var q := ApplySemiMasks(GetJoinNodeIDs(conds), from, target);
            Unmasked(q) == from && MasksFor(conds, q, target)
  {
    ApplyPlaces(GetJoinNodeIDs(conds), from, target);
    forall k ensures k in GetJoinNodeIDs(conds) <==> JoinsOn(conds, k)
             ensures HasCandidate(k, target) <==> Scans(target, k)
    {
      JoinNodes(conds, k);
      CandidatesExactly(k, target);
    }
  }

  /** The directions of a join are the same before and after its children are visited. */
  lemma {:induction false} DirectionsKept(p: Plan)
    requires p.HashJoin?
    ensures var op := HashJoin(p.conditions, p.kind, VisitOperator(p.probe), VisitOperator(p.build), p.sip);
            && op.probe.Accumulate? == p.probe.Accumulate?
            && (!p.probe.Accumulate? && !p.sip.position.Prohibit? ==> (CanPassBuildToProbe(op) <==> BuildToProbe(p)))
            && (!p.probe.Accumulate? && !p.sip.position.Prohibit? && !p.sip.position.ProhibitProbeToBuild? && !BuildToProbe(p) ==>
                  (CanPassProbeToBuild(op) <==> ProbeToBuild(p)))
  {
    VisitFilters(p.probe);
    VisitFilters(p.build);
    FiltersExactly(p.probe);
    FiltersExactly(p.build);
    TargetsKept(p.conditions, p.probe);
    TargetsKept(p.conditions, p.build);
  }

  lemma {:induction false} TargetsKept(conds: JoinConditions, side: Plan)
    ensures AnyCandidate(GetJoinNodeIDs(conds), VisitOperator(side)) <==> HasTarget(conds, side)
  {
    TargetsExactly(conds, side);
    forall k ensures HasCandidate(k, VisitOperator(side)) <==> HasCandidate(k, side) { VisitScans(k, side); }
  }

  lemma {:induction false} ScansKept(p: Plan)
    ensures forall k :: Scans(VisitOperator(p), k) <==> Scans(p, k)
  {
    forall k ensures Scans(VisitOperator(p), k) <==> Scans(p, k) {
      VisitScans(k, p);
      CandidatesExactly(k, p);
      CandidatesExactly(k, VisitOperator(p));
    }
  }

  lemma {:induction false} JoinPlaced(p: Plan)
    requires p.HashJoin? && !p.probe.SemiMasker? && !p.build.SemiMasker?
    requires Placed(p.probe, VisitOperator(p.probe)) && Placed(p.build, VisitOperator(p.build))
    ensures Placed(p, VisitOperator(p))
  {
    var l, r := VisitOperator(p.probe), VisitOperator(p.build);
    DirectionsKept(p);
    ScansKept(p.probe);
    ScansKept(p.build);
    MasksPlaced(p.conditions, r, l);
    MasksPlaced(p.conditions, l, r);
  }

  /** The optimizer puts masks on exactly the joins, in the direction and with the keys it should. */
  lemma {:induction false} AllPlaced(p: Plan)
    requires Maskless(p)
    ensures Placed(p, VisitOperator(p))
  {
    match p
    case Extend(_, _, _, _, c) => AllPlaced(c);
    case Filter(_, c) => AllPlaced(c);
    case CrossProduct(_, l, r) => AllPlaced(l); AllPlaced(r);
    case HashJoin(_, _, l, r, _) =>
      AllPlaced(l);
      AllPlaced(r);
      JoinPlaced(p);
    case Accumulate(_, c) => AllPlaced(c);
    case Other(_, _, children) =>
      VisitAllAt(children);
      forall i | 0 <= i < |children| ensures Placed(children[i], VisitOperator(children[i])) { AllPlaced(children[i]); }
    case _ =>
  }
}
