/**
  The filter push-down rewrite (optimizer/filter_push_down_optimizer.cpp): what it returns and
  what it leaves in place.

  The optimizer walks a plan top-down carrying a set of pending predicates. `PushDown` is the
  plan a visit returns and `Visited` the visited operator as the visit leaves it; the visitors
  are proved to produce them, and `PushDownRows` says what rows they have.
 */
module FilterPushDown {
  import opened Options
  import opened Plans

  /** Pending predicates, equalities apart so that they come first when they are reapplied. */
  datatype PredicateSet = PredicateSet(equality: seq<Expr>, nonEquality: seq<Expr>) {
    function All(): seq<Expr> { equality + nonEquality }

    predicate IsEmpty() { equality == [] && nonEquality == [] }

    ghost predicate Ok() { forall i :: 0 <= i < |equality| ==> equality[i].Equals? }

    function Add(p: Expr): PredicateSet {
      if p.Equals? then PredicateSet(equality + [p], nonEquality) else PredicateSet(equality, nonEquality + [p])
    }
  }

  /** An added predicate is one more, and equalities stay apart. */
  lemma AddHolds(ps: PredicateSet, p: Expr)
    ensures ps.Ok() ==> ps.Add(p).Ok()
    ensures multiset(ps.Add(p).All()) == multiset(ps.All()) + multiset{p}
  {
    assert ps.equality + [p] + ps.nonEquality == ps.equality + ([p] + ps.nonEquality);
    assert ps.equality + (ps.nonEquality + [p]) == ps.All() + [p];
  }

  const NoPredicates := PredicateSet([], [])

  /** The predicates of a list, added one by one. */
  function SetOf(es: seq<Expr>): PredicateSet {
    if es == [] then NoPredicates else SetOf(es[..|es| - 1]).Add(es[|es| - 1])
  }

  lemma {:induction false} SetOfOk(es: seq<Expr>)
    ensures SetOf(es).Ok()
  {
    if es != [] { SetOfOk(es[..|es| - 1]); }
  }

  /** None is lost or doubled. */
  lemma {:induction false} SetOfHolds(es: seq<Expr>)
    ensures multiset(SetOf(es).All()) == multiset(es)
  {
    if es != [] {
      SetOfHolds(es[..|es| - 1]);
      AddHolds(SetOf(es[..|es| - 1]), es[|es| - 1]);
      assert es == es[..|es| - 1] + [es[|es| - 1]];
    }
  }

  /* ----- splitting over a product ----- */

  /** The predicates of a list that pass a test, in order. */
  function Pick(es: seq<Expr>, f: Expr -> bool): seq<Expr> {
    if es == [] then [] else Pick(es[..|es| - 1], f) + if f(es[|es| - 1]) then [es[|es| - 1]] else []
  }

  /** The predicates that can be evaluated on one side and not on the other. */
  function Only(es: seq<Expr>, here: set<Column>, there: set<Column>): seq<Expr> {
    Pick(es, e => Evaluable(e, here) && !Evaluable(e, there))
  }

  /** The predicates that can be evaluated on both sides or on neither. */
  function Undecided(es: seq<Expr>, probe: set<Column>, build: set<Column>): seq<Expr> {
    Pick(es, e => Evaluable(e, probe) == Evaluable(e, build))
  }

  method SplitPredicates(preds: seq<Expr>, probe: set<Column>, build: set<Column>)
    returns (onProbe: PredicateSet, onBuild: PredicateSet, remaining: PredicateSet)
    ensures onProbe == SetOf(Only(preds, probe, build))
    ensures onBuild == SetOf(Only(preds, build, probe))
    ensures remaining == SetOf(Undecided(preds, probe, build))
  {
    onProbe, onBuild, remaining := NoPredicates, NoPredicates, NoPredicates;
    var i := 0;
    while i < |preds|
      invariant 0 <= i <= |preds|
      invariant onProbe == SetOf(Only(preds[..i], probe, build))
      invariant onBuild == SetOf(Only(preds[..i], build, probe))
      invariant remaining == SetOf(Undecided(preds[..i], probe, build))
    {
      var p := preds[i];
      PickStep(preds, i, e => Evaluable(e, probe) && !Evaluable(e, build));
      PickStep(preds, i, e => Evaluable(e, build) && !Evaluable(e, probe));
      PickStep(preds, i, e => Evaluable(e, probe) == Evaluable(e, build));
      var inProbe := Evaluable(p, probe);
      var inBuild := Evaluable(p, build);
      if inProbe && !inBuild {
        onProbe := onProbe.Add(p);
      } else if !inProbe && inBuild {
        onBuild := onBuild.Add(p);
      } else {
        remaining := remaining.Add(p);
      }
      i := i + 1;
    }
    assert preds[..i] == preds;
  }

  lemma SetOfSnoc(es: seq<Expr>, p: Expr)
    ensures SetOf(es + [p]) == SetOf(es).Add(p)
    ensures es + [] == es
  {
    assert (es + [p])[..|es|] == es;
  }

  lemma PickStep(es: seq<Expr>, i: nat, f: Expr -> bool)
    requires i < |es|
    ensures Pick(es[..i + 1], f) == Pick(es[..i], f) + if f(es[i]) then [es[i]] else []
    ensures SetOf(Pick(es[..i + 1], f)) == var before := SetOf(Pick(es[..i], f)); if f(es[i]) then before.Add(es[i]) else before
  {
    assert es[..i + 1][..i] == es[..i] && es[..i + 1][i] == es[i];
    SetOfSnoc(Pick(es[..i], f), es[i]);
  }

  /** One side of the equality is a column of the probe side and the other one of the build side. */
  predicate JoinsSides(e: Expr, probe: set<Column>, build: set<Column>) {
    e.Equals? &&
    ((InScope(e.left, probe) && InScope(e.right, build)) || (InScope(e.right, probe) && InScope(e.left, build)))
  }

  /** The key pairs of the equalities that join the sides, probe key first. */
  function JoinKeys(es: seq<Expr>, probe: set<Column>, build: set<Column>): JoinConditions {
    if es == [] then []
    else
      var last := es[|es| - 1];
      JoinKeys(es[..|es| - 1], probe, build) +
      if !JoinsSides(last, probe, build) then []
      else if InScope(last.left, probe) && InScope(last.right, build) then [(last.left, last.right)]
      else [(last.right, last.left)]
  }

  function Unjoined(es: seq<Expr>, probe: set<Column>, build: set<Column>): seq<Expr> {
    Pick(es, e => !JoinsSides(e, probe, build))
  }

  method CollectJoinConditions(equalities: seq<Expr>, probe: set<Column>, build: set<Column>)
    returns (conds: JoinConditions, rest: seq<Expr>)
    requires forall i :: 0 <= i < |equalities| ==> equalities[i].Equals?
    ensures conds == JoinKeys(equalities, probe, build)
    ensures rest == Unjoined(equalities, probe, build)
  {
    conds, rest := [], [];
    var i := 0;
    while i < |equalities|
      invariant 0 <= i <= |equalities|
      invariant conds == JoinKeys(equalities[..i], probe, build)
      invariant rest == Unjoined(equalities[..i], probe, build)
    {
      var p := equalities[i];
      assert equalities[..i + 1][..i] == equalities[..i] && equalities[..i + 1][i] == p;
      PickStep(equalities, i, e => !JoinsSides(e, probe, build));
      if InScope(p.left, probe) && InScope(p.right, build) {
        conds := conds + [(p.left, p.right)];
      } else if InScope(p.right, probe) && InScope(p.left, build) {
        conds := conds + [(p.right, p.left)];
      } else {
        rest := rest + [p];
      }
      i := i + 1;
    }
    assert equalities[..i] == equalities;
  }

  /* ----- constants and primary keys ----- */

  predicate IsConstant(e: Expr) {
    match e
    case Literal(_) => true
    case Parameter(_) => true
    case Cast(c, _) => IsConstant(c)
    case _ => false
  }

  predicate IsNodePrimaryKey(e: Expr, nodeID: Column) {
    e.Property? && e.column.variable == nodeID.variable && e.column.isPrimaryKey
  }

  predicate ComparesKey(e: Expr, nodeID: Column) {
    e.Equals? && (IsNodePrimaryKey(e.left, nodeID) || IsNodePrimaryKey(e.right, nodeID))
  }

  /** The equality with the primary key on the left. */
  function KeyFirst(e: Expr, nodeID: Column): (r: Expr)
    requires ComparesKey(e, nodeID)
    ensures r.Equals? && IsNodePrimaryKey(r.left, nodeID)
  {
    if IsNodePrimaryKey(e.left, nodeID) then e else Equals(e.right, e.left)
  }

  /** The index of the first equality with the node's primary key, or the length. */
  function KeyIndex(es: seq<Expr>, nodeID: Column): (i: nat)
    ensures i <= |es|
    ensures i < |es| ==> ComparesKey(es[i], nodeID)
    ensures forall j :: 0 <= j < i ==> !ComparesKey(es[j], nodeID)
  {
    if es == [] || ComparesKey(es[0], nodeID) then 0 else 1 + KeyIndex(es[1..], nodeID)
  }

  /** The first equality with the node's primary key, turned round if need be, and the others. */
  function Popped(ps: PredicateSet, nodeID: Column): (r: (Option<Expr>, PredicateSet))
    ensures r.0.Some? ==> r.0.value.Equals?
  {
    var i := KeyIndex(ps.equality, nodeID);
    if i == |ps.equality| then (None, ps)
    else (Some(KeyFirst(ps.equality[i], nodeID)),
          PredicateSet(ps.equality[..i] + ps.equality[i + 1..], ps.nonEquality))
  }

  /** PredicateSet::popNodePKEqualityComparison. */
  method PopNodePKEqualityComparison(preds: PredicateSet, nodeID: Column)
    returns (found: Option<Expr>, rest: PredicateSet)
    requires preds.Ok()
    ensures (found, rest) == Popped(preds, nodeID) && rest.Ok()
  {
    var i := 0;
    while i < |preds.equality|
      invariant 0 <= i <= |preds.equality|
      invariant forall j :: 0 <= j < i ==> !ComparesKey(preds.equality[j], nodeID)
    {
      var p := preds.equality[i];
      if IsNodePrimaryKey(p.left, nodeID) || IsNodePrimaryKey(p.right, nodeID) {
        found := Some(if IsNodePrimaryKey(p.left, nodeID) then p else Equals(p.right, p.left));
        rest := PredicateSet(preds.equality[..i] + preds.equality[i + 1..], preds.nonEquality);
        return;
      }
      i := i + 1;
    }
    return None, preds;
  }

  /* ----- what a visit returns and leaves behind ----- */

  /** One filter per predicate, stacked on the child. */
  function Stack(preds: seq<Expr>, child: Plan): Plan {
    if preds == [] then child else Filter(preds[|preds| - 1], Stack(preds[..|preds| - 1], child))
  }

  method AppendFilters(preds: seq<Expr>, child: Plan) returns (root: Plan)
    ensures root == Stack(preds, child)
  {
    root := child;
    var i := 0;
    while i < |preds|
      invariant 0 <= i <= |preds|
      invariant root == Stack(preds[..i], child)
    {
      assert preds[..i + 1][..i] == preds[..i];
      root := Filter(preds[i], root);
      i := i + 1;
    }
    assert preds[..i] == preds;
  }

  /** The pending predicates below a filter that is not known to fail. */
  function Below(condition: Expr, ps: PredicateSet): PredicateSet {
    if condition.Literal? then ps else ps.Add(condition)
  }

  predicate NeverTrue(condition: Expr) {
    condition.Literal? && condition.value != Bool(true)
  }

  function ProbePart(op: Plan, ps: PredicateSet): seq<Expr>
    requires op.CrossProduct?
  {
    Only(ps.All(), Schema(op.probe), Schema(op.build))
  }

  function BuildPart(op: Plan, ps: PredicateSet): seq<Expr>
    requires op.CrossProduct?
  {
    Only(ps.All(), Schema(op.build), Schema(op.probe))
  }

  function RemainingPart(op: Plan, ps: PredicateSet): PredicateSet
    requires op.CrossProduct?
  {
    SetOf(Undecided(ps.All(), Schema(op.probe), Schema(op.build)))
  }

  /** The popped key comparison of a scan of one table. */
  function KeyComparison(s: Scan, ps: PredicateSet): (r: Option<Expr>)
    ensures r.Some? ==> r.value.Equals?
  {
    if |s.tables| == 1 then Popped(ps, s.nodeID).0 else None
  }

  /** The scan with zone-map hints and, for a constant key, an index look-up. */
  function Scanned(s: Scan, ps: PredicateSet, zoneMap: bool): Scan {
    var s' := if zoneMap then s.(hints := ps.All()) else s;
    var found := KeyComparison(s, ps);
    if found.Some? && IsConstant(found.value.right) then s'.(key := Some(found.value.right)) else s'
  }

  /** What is still to be applied above the scan. */
  function AboveScan(s: Scan, ps: PredicateSet): PredicateSet {
    var found := KeyComparison(s, ps);
    if found.None? then ps
    else if IsConstant(found.value.right) then Popped(ps, s.nodeID).1
    else Popped(ps, s.nodeID).1.Add(found.value)
  }

  /** The plan that a visit with pending predicates returns. */
  function PushDown(op: Plan, ps: PredicateSet, zoneMap: bool): Plan
    decreases op, 1
  {
    match op
    case Filter(e, c) => if NeverTrue(e) then EmptyResult(Schema(op)) else PushDown(c, Below(e, ps), zoneMap)
    case CrossProduct(_, _, _) => AboveProduct(RemainingPart(op, ps), ps, Visited(op, ps, zoneMap))
    case ScanNodeTable(s) => Stack(AboveScan(s, ps).All(), Visited(op, ps, zoneMap))
    case _ => Stack(ps.All(), Visited(op, ps, zoneMap))
  }

  /** A product some remaining equality joins becomes a hash join, whatever kind of product it is. */
  function AboveProduct(remaining: PredicateSet, ps: PredicateSet, op: Plan): Plan
    requires op.CrossProduct?
  {
    var conds := JoinKeys(remaining.equality, Schema(op.probe), Schema(op.build));
    if conds == [] then Stack(ps.All(), op)
    else Stack(Unjoined(remaining.equality, Schema(op.probe), Schema(op.build)) + remaining.nonEquality,
               HashJoin(conds, Inner, op.probe, op.build, SipInfo(Prohibit, NoDirection)))
  }

  /** The visited operator after the visit. */
  function Visited(op: Plan, ps: PredicateSet, zoneMap: bool): Plan
    decreases op, 0
  {
    match op
    case Filter(e, c) => if NeverTrue(e) then op else Filter(e, Visited(c, Below(e, ps), zoneMap))
    case CrossProduct(t, l, r) =>
      CrossProduct(t, PushDown(l, SetOf(ProbePart(op, ps)), zoneMap), PushDown(r, SetOf(BuildPart(op, ps)), zoneMap))
    case ScanNodeTable(s) => ScanNodeTable(Scanned(s, ps, zoneMap))
    case TableFunctionCall(f, cs, _) => TableFunctionCall(f, cs, ps.All())
    case Extend(x, cs, rec, hints, c) =>
      Extend(x, cs, rec, if rec || !zoneMap then hints else ps.All(), PushDown(c, NoPredicates, zoneMap))
    case HashJoin(conds, k, l, r, sip) =>
      HashJoin(conds, k, PushDown(l, NoPredicates, zoneMap), PushDown(r, NoPredicates, zoneMap), sip)
    case Accumulate(t, c) => Accumulate(t, PushDown(c, NoPredicates, zoneMap))
    case SemiMasker(k, c) => SemiMasker(k, PushDown(c, NoPredicates, zoneMap))
    case EmptyResult(_) => op
    case Other(o, cs, children) => Other(o, cs, PushDownAll(children, zoneMap))
  }

  function PushDownAll(ps: seq<Plan>, zoneMap: bool): seq<Plan> {
    if ps == [] then []
    else PushDownAll(ps[..|ps| - 1], zoneMap) + [PushDown(ps[|ps| - 1], NoPredicates, zoneMap)]
  }

  /* ----- the optimizer ----- */

  /** Each visitor returns the plan that replaces `op`, and `op` itself as the visit leaves it. */
  class FilterPushDownOptimizer {
    var predicateSet: PredicateSet
    const enableZoneMap: bool

    constructor (enableZoneMap: bool, preds: PredicateSet)
      ensures predicateSet == preds && this.enableZoneMap == enableZoneMap
    {
      this.enableZoneMap := enableZoneMap;
      predicateSet := preds;
    }

    /** The root of the plan stays what it was; the plan that would replace it is dropped. */
    method Rewrite(plan: Plan) returns (plan': Plan)
      requires predicateSet == NoPredicates
      modifies this
      ensures plan' == Visited(plan, NoPredicates, enableZoneMap)
    {
      var _, op := VisitOperator(plan);
      plan' := op;
    }

    method VisitOperator(op: Plan) returns (r: Plan, op': Plan)
      requires predicateSet.Ok()
      modifies this
      ensures r == PushDown(op, old(predicateSet), enableZoneMap)
      ensures op' == Visited(op, old(predicateSet), enableZoneMap)
      decreases op, 2
    {
      match op
      case Filter(_, _) => r, op' := VisitFilterReplace(op);
      case CrossProduct(_, _, _) => r, op' := VisitCrossProductReplace(op);
      case Extend(_, _, _, _, _) => r, op' := VisitExtendReplace(op);
      case ScanNodeTable(_) => r, op' := VisitScanNodeTableReplace(op);
      case TableFunctionCall(_, _, _) => r, op' := VisitTableFunctionCallReplace(op);
      case _ => r, op' := VisitChildren(op);
    }

    /** Reapplies every pending predicate on top of `op` and forgets them. */
    method FinishPushDown(op: Plan) returns (r: Plan)
      modifies this
      ensures r == Stack(old(predicateSet.All()), op)
      ensures predicateSet.IsEmpty()
    {
      if predicateSet.IsEmpty() {
        return op;
      }
      r := AppendFilters(predicateSet.All(), op);
      predicateSet := NoPredicates;
    }

    /** Starts a new push-down, with nothing pending, below an operator that stops the current one. */
    method VisitChild(c: Plan) returns (r: Plan)
      ensures r == PushDown(c, NoPredicates, enableZoneMap)
      decreases c, 3
    {
      var optimizer := new FilterPushDownOptimizer(enableZoneMap, NoPredicates);
      var c', _ := optimizer.VisitOperator(c);
      r := c';
    }

    method VisitAll(ps: seq<Plan>) returns (qs: seq<Plan>)
      ensures qs == PushDownAll(ps, enableZoneMap)
      decreases ps, 4
    {
      qs := [];
      for k := 0 to |ps|
        invariant qs == PushDownAll(ps[..k], enableZoneMap)
      {
        assert ps[..k + 1][..k] == ps[..k];
        var q := VisitChild(ps[k]);
        qs := qs + [q];
      }
      assert ps[..|ps|] == ps;
    }

    method VisitChildren(op: Plan) returns (r: Plan, op': Plan)
      requires !op.Filter? && !op.CrossProduct? && !op.ScanNodeTable? && !op.TableFunctionCall?
      modifies this
      ensures op.Extend? ==> op' == Extend(op.extension, op.added, op.isRecursive, op.hints,
                                           PushDown(op.child, NoPredicates, enableZoneMap))
      ensures !op.Extend? ==> op' == Visited(op, old(predicateSet), enableZoneMap)
      ensures r == Stack(old(predicateSet.All()), op')
      decreases if op.Extend? then op.child else op, if op.Extend? then 4 else 0
    {
      op' := op;
      match op {
        case Extend(x, cs, rec, hints, c) =>
          var c' := VisitChild(c);
          op' := Extend(x, cs, rec, hints, c');
        case HashJoin(conds, k, a, b, sip) =>
          var a' := VisitChild(a);
          var b' := VisitChild(b);
          op' := HashJoin(conds, k, a', b', sip);
        case Accumulate(t, c) =>
          var c' := VisitChild(c);
          op' := Accumulate(t, c');
        case SemiMasker(k, c) =>
          var c' := VisitChild(c);
          op' := SemiMasker(k, c');
        case Other(o, cs, children) =>
          var children' := VisitAll(children);
          op' := Other(o, cs, children');
        case EmptyResult(_) =>
      }
      r := FinishPushDown(op');
    }

    /** A false or NULL literal needs no child; a true one disappears; anything else becomes pending. */
    method VisitFilterReplace(op: Plan) returns (r: Plan, op': Plan)
      requires op.Filter? && predicateSet.Ok()
      modifies this
      ensures r == PushDown(op, old(predicateSet), enableZoneMap)
      ensures op' == Visited(op, old(predicateSet), enableZoneMap)
      decreases op, 1
    {
      var p := op.condition;
      if p.Literal? {
        if p.value != Bool(true) {
          return EmptyResult(Schema(op)), op;
        }
      } else {
        AddHolds(predicateSet, p);
        predicateSet := predicateSet.Add(p);
      }
      var c';
      r, c' := VisitOperator(op.child);
      op' := Filter(p, c');
    }

    /** The visitor does not look at how the product collects its build side. */
    method VisitCrossProductReplace(op: Plan) returns (r: Plan, op': Plan)
      requires op.CrossProduct? && predicateSet.Ok()
      modifies this
      ensures r == PushDown(op, old(predicateSet), enableZoneMap)
      ensures op' == Visited(op, old(predicateSet), enableZoneMap)
      decreases op, 1
    {
      var onProbe, onBuild, remaining := SplitPredicates(predicateSet.All(), Schema(op.probe), Schema(op.build));
      SetOfOk(ProbePart(op, predicateSet));
      SetOfOk(BuildPart(op, predicateSet));
      SetOfOk(Undecided(predicateSet.All(), Schema(op.probe), Schema(op.build)));
      var probeOptimizer := new FilterPushDownOptimizer(enableZoneMap, onProbe);
      var probe, _ := probeOptimizer.VisitOperator(op.probe);
      var buildOptimizer := new FilterPushDownOptimizer(enableZoneMap, onBuild);
      var build, _ := buildOptimizer.VisitOperator(op.build);
      op' := CrossProduct(op.collect, probe, build);
      var conds, rest := CollectJoinConditions(remaining.equality, Schema(probe), Schema(build));
      if conds == [] {
        r := FinishPushDown(op');
        return;
      }
      var hashJoin := HashJoin(conds, Inner, probe, build, SipInfo(Prohibit, NoDirection));
      r := AppendFilters(rest + remaining.nonEquality, hashJoin);
    }

    /** Hints for the zone maps, and an index scan when a pending predicate fixes the primary key. */
    method VisitScanNodeTableReplace(op: Plan) returns (r: Plan, op': Plan)
      requires op.ScanNodeTable? && predicateSet.Ok()
      modifies this
      ensures r == PushDown(op, old(predicateSet), enableZoneMap)
      ensures op' == Visited(op, old(predicateSet), enableZoneMap)
      decreases op, 1
    {
      var scan := op.scan;
      if enableZoneMap {
        scan := scan.(hints := predicateSet.All());
      }
      if |scan.tables| == 1 {
        var found, rest := PopNodePKEqualityComparison(predicateSet, scan.nodeID);
        if found.Some? {
          predicateSet := rest;
          if IsConstant(found.value.right) {
            scan := scan.(key := Some(found.value.right));
          } else {
            predicateSet := rest.Add(found.value);
          }
        }
      }
      op' := ScanNodeTable(scan);
      r := FinishPushDown(op');
    }

    method VisitTableFunctionCallReplace(op: Plan) returns (r: Plan, op': Plan)
      requires op.TableFunctionCall?
      modifies this
      ensures r == PushDown(op, old(predicateSet), enableZoneMap)
      ensures op' == Visited(op, old(predicateSet), enableZoneMap)
      decreases op, 1
    {
      op' := TableFunctionCall(op.call, op.columns, predicateSet.All());
      r := FinishPushDown(op');
    }

    method VisitExtendReplace(op: Plan) returns (r: Plan, op': Plan)
      requires op.Extend?
      modifies this
      ensures r == PushDown(op, old(predicateSet), enableZoneMap)
      ensures op' == Visited(op, old(predicateSet), enableZoneMap)
      decreases op, 1
    {
      if op.isRecursive || !enableZoneMap {
        r, op' := VisitChildren(op);
        return;
      }
      var hinted := Extend(op.extension, op.added, op.isRecursive, predicateSet.All(), op.child);
      r, op' := VisitChildren(hinted);
    }
  }
}
