/**
  What the filter push-down yields for every plan, and so exactly when it is right. A product
  whose build side is optional and emptied by the predicates pushed into it behaves, after the
  push-down, as if the side had been empty from the start; nothing else changes.
 */
module PushDownExact {
  import opened Options
  import opened Plans
  import opened RowAlgebra
  import opened FilterPushDown
  import opened PushDownRows

  /** The plan with every optional build side that the push-down empties made empty. */
  ghost function Nulled(op: Plan, ps: PredicateSet, env: Env): Plan {
    match op
    case ScanNodeTable(_) => op
    case TableFunctionCall(_, _, _) => op
    case Extend(x, cs, rec, hints, c) => Extend(x, cs, rec, hints, Nulled(c, NoPredicates, env))
    case Filter(e, c) => if NeverTrue(e) then op else Filter(e, Nulled(c, Below(e, ps), env))
    case CrossProduct(t, l, r) =>
      var r' := Nulled(r, SetOf(BuildPart(op, ps)), env);
      CrossProduct(t, Nulled(l, SetOf(ProbePart(op, ps)), env),
                   if t.Optional? && Select(Eval(r', env, []), BuildPart(op, ps), env) == [] then EmptyResult(Schema(r)) else r')
    case HashJoin(conds, k, l, r, sip) =>
      HashJoin(conds, k, Nulled(l, NoPredicates, env), Nulled(r, NoPredicates, env), sip)
    case Accumulate(t, c) => Accumulate(t, Nulled(c, NoPredicates, env))
    case SemiMasker(k, c) => SemiMasker(k, Nulled(c, NoPredicates, env))
    case EmptyResult(_) => op
    case Other(o, cs, children) => Other(o, cs, NulledAll(children, env))
  }

  ghost function NulledAll(ps: seq<Plan>, env: Env): seq<Plan> {
    if ps == [] then [] else NulledAll(ps[..|ps| - 1], env) + [Nulled(ps[|ps| - 1], NoPredicates, env)]
  }

  lemma {:induction false} NulledAllAt(ps: seq<Plan>, env: Env)
    ensures |NulledAll(ps, env)| == |ps|
    ensures forall i :: 0 <= i < |ps| ==> NulledAll(ps, env)[i] == Nulled(ps[i], NoPredicates, env)
  {
    if ps != [] { NulledAllAt(ps[..|ps| - 1], env); }
  }

  /** It has the same columns and is a plan as the planner builds them. */
  lemma {:induction false} NulledValid(op: Plan, ps: PredicateSet, env: Env)
    requires Valid(op, env) && Planned(op)
    ensures var p := Nulled(op, ps, env); Schema(p) == Schema(op) && Valid(p, env) && Planned(p)
  {
    match op
    case Extend(_, _, _, _, c) => NulledValid(c, NoPredicates, env);
    case Filter(e, c) => if !NeverTrue(e) { NulledValid(c, Below(e, ps), env); }
    case CrossProduct(_, l, r) =>
      NulledValid(l, SetOf(ProbePart(op, ps)), env);
      NulledValid(r, SetOf(BuildPart(op, ps)), env);
    case HashJoin(_, _, l, r, _) =>
      NulledValid(l, NoPredicates, env);
      NulledValid(r, NoPredicates, env);
    case Accumulate(_, c) => NulledValid(c, NoPredicates, env);
    case SemiMasker(_, c) => NulledValid(c, NoPredicates, env);
    case Other(_, _, children) =>
      NulledAllAt(children, env);
      forall i | 0 <= i < |children|
        ensures var p := Nulled(children[i], NoPredicates, env); Valid(p, env) && Planned(p)
      {
        NulledValid(children[i], NoPredicates, env);
      }
    case _ =>
  }

  /** No product that becomes a join has a mark to lose. */
  ghost predicate MarksKept(op: Plan, ps: PredicateSet)
    decreases op, 1
  {
    match op
    case ScanNodeTable(_) => true
    case TableFunctionCall(_, _, _) => true
    case Extend(_, _, _, _, c) => MarksKept(c, NoPredicates)
    case Filter(e, c) => NeverTrue(e) || MarksKept(c, Below(e, ps))
    case CrossProduct(t, _, _) => SideMarksKept(op, ps) && (Joins(op, ps) ==> Marks(t) == {})
    case HashJoin(_, _, l, r, _) => MarksKept(l, NoPredicates) && MarksKept(r, NoPredicates)
    case Accumulate(_, c) => MarksKept(c, NoPredicates)
    case SemiMasker(_, c) => MarksKept(c, NoPredicates)
    case EmptyResult(_) => true
    case Other(_, _, children) => forall i :: 0 <= i < |children| ==> MarksKept(children[i], NoPredicates)
  }

  ghost predicate SideMarksKept(op: Plan, ps: PredicateSet)
    requires op.CrossProduct?
    decreases op, 0
  {
    MarksKept(op.probe, SetOf(ProbePart(op, ps))) && MarksKept(op.build, SetOf(BuildPart(op, ps)))
  }

  /* ----- what the push-down yields ----- */

  /** The plan a visit returns has exactly the selected rows of the nulled plan. */
  lemma {:induction false} PushDownYields(op: Plan, ps: PredicateSet, zoneMap: bool, env: Env)
    requires Visitable(op, ps, env) && MarksKept(op, ps)
    ensures Pushed(Nulled(op, ps, env), ps.All(), PushDown(op, ps, zoneMap), env)
    decreases op, 1
  {
    match op
    case Filter(e, c) => FilterYields(op, ps, zoneMap, env);
    case CrossProduct(_, _, _) => ProductYields(op, ps, zoneMap, env);
    case ScanNodeTable(_) => PushDownKeepsRows(op, ps, zoneMap, env);
    case TableFunctionCall(_, _, _) => PushDownKeepsRows(op, ps, zoneMap, env);
    case Extend(_, _, _, _, _) =>
      ExtendYields(op, ps, zoneMap, env);
      StackPushed(ps.All(), Visited(op, ps, zoneMap), env);
    case _ =>
      ChildrenYield(op, ps, zoneMap, env);
      StackPushed(ps.All(), Visited(op, ps, zoneMap), env);
  }

  lemma ChildYields(c: Plan, zoneMap: bool, env: Env)
    requires ValidEnv(env) && Valid(c, env) && Planned(c) && MarksKept(c, NoPredicates)
    ensures SameAs(Nulled(c, NoPredicates, env), PushDown(c, NoPredicates, zoneMap), env)
    decreases c, 2
  {
    PushDownYields(c, NoPredicates, zoneMap, env);
    SelectNothing(Eval(Nulled(c, NoPredicates, env), env, []), env);
    assert NoPredicates.All() == [];
  }

  lemma FilterYields(op: Plan, ps: PredicateSet, zoneMap: bool, env: Env)
    requires Visitable(op, ps, env) && MarksKept(op, ps) && op.Filter?
    ensures Pushed(Nulled(op, ps, env), ps.All(), PushDown(op, ps, zoneMap), env)
    decreases op, 0
  {
    FilterSelects(Nulled(op, ps, env), ps, env);
    if !NeverTrue(op.condition) {
      BelowOk(op.condition, ps, Schema(op));
      PushDownYields(op.child, Below(op.condition, ps), zoneMap, env);
    }
  }

  /** A nulled product splits its predicates as the product does. */
  lemma NulledProduct(op: Plan, ps: PredicateSet, env: Env)
    requires Visitable(op, ps, env) && op.CrossProduct?
    ensures var p := Nulled(op, ps, env);
            && p.CrossProduct? && p.collect == op.collect && Visitable(p, ps, env)
            && Schema(p.probe) == Schema(op.probe) && Schema(p.build) == Schema(op.build)
            && ProbePart(p, ps) == ProbePart(op, ps) && BuildPart(p, ps) == BuildPart(op, ps)
            && RemainingPart(p, ps) == RemainingPart(op, ps) && Joins(p, ps) == Joins(op, ps)
  {
    NulledValid(op, ps, env);
    NulledValid(op.probe, SetOf(ProbePart(op, ps)), env);
    NulledValid(op.build, SetOf(BuildPart(op, ps)), env);
  }

  /** An emptied side is pushed like an empty one. */
  lemma BuildYields(op: Plan, ps: PredicateSet, r': Plan, env: Env)
    requires op.CrossProduct?
    requires Pushed(Nulled(op.build, SetOf(BuildPart(op, ps)), env), SetOf(BuildPart(op, ps)).All(), r', env)
    requires Schema(r') == Schema(op.build)
    ensures Pushed(Nulled(op, ps, env).build, SetOf(BuildPart(op, ps)).All(), r', env)
    ensures BuildHarmless(op, ps, env)
  {
    SetOfSelects(BuildPart(op, ps), Eval(Nulled(op.build, SetOf(BuildPart(op, ps)), env), env, []), env);
  }

  /** The build side of the nulled product is empty, or not optional, or keeps rows. */
  ghost predicate BuildHarmless(op: Plan, ps: PredicateSet, env: Env)
    requires op.CrossProduct?
  {
    var p := Nulled(op, ps, env);
    op.collect.Regular? || Eval(p.build, env, []) == [] || Select(Eval(p.build, env, []), BuildPart(op, ps), env) != []
  }

  /** The sides of a visited product are those of the nulled product, pushed. */
  lemma SidesYield(op: Plan, ps: PredicateSet, zoneMap: bool, env: Env)
    requires Visitable(op, ps, env) && op.CrossProduct? && SideMarksKept(op, ps)
    ensures ProductVisited(Nulled(op, ps, env), ps, Visited(op, ps, zoneMap), env)
    ensures BuildHarmless(op, ps, env)
    decreases op, 0
  {
    NulledProduct(op, ps, env);
    PartsVisitable(op, ps, env);
    PushDownYields(op.probe, SetOf(ProbePart(op, ps)), zoneMap, env);
    PushDownYields(op.build, SetOf(BuildPart(op, ps)), zoneMap, env);
    NulledValid(op.build, SetOf(BuildPart(op, ps)), env);
    BuildYields(op, ps, PushDown(op.build, SetOf(BuildPart(op, ps)), zoneMap), env);
  }

  lemma ProductYields(op: Plan, ps: PredicateSet, zoneMap: bool, env: Env)
    requires Visitable(op, ps, env) && MarksKept(op, ps) && op.CrossProduct?
    ensures Pushed(Nulled(op, ps, env), ps.All(), PushDown(op, ps, zoneMap), env)
    decreases op, 1, 0
  {
    SidesYield(op, ps, zoneMap, env);
    NulledProduct(op, ps, env);
    ProductExactly(Nulled(op, ps, env), ps, Visited(op, ps, zoneMap), env);
  }

  lemma ExtendYields(op: Plan, ps: PredicateSet, zoneMap: bool, env: Env)
    requires Visitable(op, ps, env) && MarksKept(op, ps) && op.Extend?
    ensures var p, op' := Nulled(op, ps, env), Visited(op, ps, zoneMap);
            && Schema(op') == Schema(p) == Schema(op) && Valid(op', env) && Unmasked(op')
            && Select(Eval(op', env, []), ps.All(), env) == Select(Eval(p, env, []), ps.All(), env)
    decreases op, 0
  {
    ChildYields(op.child, zoneMap, env);
    NulledValid(op, ps, env);
    HintedExtend(Nulled(op, ps, env), Visited(op, ps, zoneMap), ps.All(), env);
  }

  lemma ChildrenYield(op: Plan, ps: PredicateSet, zoneMap: bool, env: Env)
    requires Visitable(op, ps, env) && MarksKept(op, ps)
    requires op.HashJoin? || op.Accumulate? || op.SemiMasker? || op.EmptyResult? || op.Other?
    ensures SameAs(Nulled(op, ps, env), Visited(op, ps, zoneMap), env) && Schema(Nulled(op, ps, env)) == Schema(op)
    decreases op, 0
  {
    NulledValid(op, ps, env);
    PlannedUnmasked(Nulled(op, ps, env));
    match op {
      case HashJoin(_, _, l, r, _) =>
        ChildYields(l, zoneMap, env);
        ChildYields(r, zoneMap, env);
      case Accumulate(_, c) => ChildYields(c, zoneMap, env);
      case SemiMasker(_, c) => ChildYields(c, zoneMap, env);
      case EmptyResult(_) =>
      case Other(_, _, children) =>
        PushDownAllAt(children, zoneMap);
        NulledAllAt(children, env);
        forall i | 0 <= i < |children|
          ensures SameAs(Nulled(children[i], NoPredicates, env), PushDown(children[i], NoPredicates, zoneMap), env)
        {
          ChildYields(children[i], zoneMap, env);
        }
    }
    SameChildren(Nulled(op, ps, env), Visited(op, ps, zoneMap), env);
  }

  /* ----- exactly when it is right ----- */

  /** The push-down keeps the rows of a plan if and only if emptying the optional sides it empties does. */
  lemma PushDownExactly(op: Plan, ps: PredicateSet, zoneMap: bool, env: Env)
    requires Visitable(op, ps, env) && MarksKept(op, ps)
    ensures Pushed(op, ps.All(), PushDown(op, ps, zoneMap), env)
       <==> Select(Eval(op, env, []), ps.All(), env) == Select(Eval(Nulled(op, ps, env), env, []), ps.All(), env)
  {
    PushDownYields(op, ps, zoneMap, env);
    NulledValid(op, ps, env);
  }

  /**
    Filters and products lead to an optional product that had build rows and is left none, or to
    a filter that no row passes.
   */
  ghost predicate Emptied(op: Plan, ps: PredicateSet, env: Env) {
    match op
    case Filter(e, c) => NeverTrue(e) || Emptied(c, Below(e, ps), env)
    case CrossProduct(t, l, r) =>
      || Emptied(l, SetOf(ProbePart(op, ps)), env)
      || (t.Regular? && Emptied(r, SetOf(BuildPart(op, ps)), env))
      || (Eval(r, env, []) != [] && Select(Eval(r, env, []), BuildPart(op, ps), env) == [])
    case _ => false
  }

  lemma {:induction false} EmptiedSelectsNothing(op: Plan, ps: PredicateSet, env: Env)
    requires Visitable(op, ps, env) && Emptied(op, ps, env)
    ensures Select(Eval(op, env, []), ps.All(), env) == []
    decreases op, 1
  {
    if op.Filter? {
      FilterSelects(op, ps, env);
      if !NeverTrue(op.condition) {
        BelowOk(op.condition, ps, Schema(op));
        EmptiedSelectsNothing(op.child, Below(op.condition, ps), env);
      }
    } else {
      ProductSelectsNothing(op, ps, env);
    }
  }

  lemma ProductSelectsNothing(op: Plan, ps: PredicateSet, env: Env)
    requires Visitable(op, ps, env) && Emptied(op, ps, env) && op.CrossProduct?
    ensures Select(Eval(op, env, []), ps.All(), env) == []
    decreases op, 0
  {
    var t, probe, build := op.collect, Schema(op.probe), Schema(op.build);
    var ls, rs := Eval(op.probe, env, []), Eval(op.build, env, []);
    EvalDomain(op.probe, env, []);
    EvalDomain(op.build, env, []);
    CollectedDomain(t, rs, build);
    PartsVisitable(op, ps, env);
    SetOfSelects(ProbePart(op, ps), ls, env);
    SetOfSelects(BuildPart(op, ps), rs, env);
    if Emptied(op.probe, SetOf(ProbePart(op, ps)), env) {
      EmptiedSelectsNothing(op.probe, SetOf(ProbePart(op, ps)), env);
      CrossSplitProbe(ls, Collected(t, rs, build), ps.All(), probe, build, Marks(t), env);
    } else {
      if t.Regular? && Emptied(op.build, SetOf(BuildPart(op, ps)), env) {
        EmptiedSelectsNothing(op.build, SetOf(BuildPart(op, ps)), env);
      }
      if t.Optional? { MarkedNone(t, rs, ps.All(), probe, build, env); }
      CrossSplit(ls, Collected(t, rs, build), ps.All(), probe, build, Marks(t), env);
      CrossNothing(Select(ls, ProbePart(op, ps), env));
    }
  }

  /**
    Such a plan selects nothing, so the push-down is right if and only if the nulled plan selects
    nothing either.
   */
  lemma EmptiedExactly(op: Plan, ps: PredicateSet, zoneMap: bool, env: Env)
    requires Visitable(op, ps, env) && MarksKept(op, ps) && Emptied(op, ps, env)
    ensures Select(Eval(op, env, []), ps.All(), env) == []
    ensures Pushed(op, ps.All(), PushDown(op, ps, zoneMap), env)
       <==> Select(Eval(Nulled(op, ps, env), env, []), ps.All(), env) == []
  {
    EmptiedSelectsNothing(op, ps, env);
    PushDownExactly(op, ps, zoneMap, env);
  }

  /** Where every product is kept there is nothing to compare. */
  lemma KeptSelectsSame(op: Plan, ps: PredicateSet, env: Env)
    requires Visitable(op, ps, env) && Kept(op, ps, env)
    ensures MarksKept(op, ps)
    ensures Select(Eval(op, env, []), ps.All(), env) == Select(Eval(Nulled(op, ps, env), env, []), ps.All(), env)
  {
    KeptMarks(op, ps, env);
    PushDownKeepsRows(op, ps, false, env);
    PushDownExactly(op, ps, false, env);
  }

  lemma {:induction false} KeptMarks(op: Plan, ps: PredicateSet, env: Env)
    requires Kept(op, ps, env)
    ensures MarksKept(op, ps)
  {
    match op
    case Extend(_, _, _, _, c) => KeptMarks(c, NoPredicates, env);
    case Filter(e, c) => if !NeverTrue(e) { KeptMarks(c, Below(e, ps), env); }
    case CrossProduct(_, l, r) =>
      KeptMarks(l, SetOf(ProbePart(op, ps)), env);
      KeptMarks(r, SetOf(BuildPart(op, ps)), env);
    case HashJoin(_, _, l, r, _) => KeptMarks(l, NoPredicates, env); KeptMarks(r, NoPredicates, env);
    case Accumulate(_, c) => KeptMarks(c, NoPredicates, env);
    case SemiMasker(_, c) => KeptMarks(c, NoPredicates, env);
    case Other(_, _, children) =>
      forall i | 0 <= i < |children| ensures MarksKept(children[i], NoPredicates) {
        KeptMarks(children[i], NoPredicates, env);
      }
    case _ =>
  }

  /* ----- the plan that is left in place ----- */

  /** A root product is not replaced, so it keeps its mark. */
  ghost predicate MarksKeptBelow(op: Plan, ps: PredicateSet) {
    match op
    case Filter(e, c) => NeverTrue(e) || MarksKeptBelow(c, Below(e, ps))
    case CrossProduct(_, _, _) => SideMarksKept(op, ps)
    case _ => MarksKept(op, ps)
  }

  /** The operator a visit leaves in place selects the rows of the nulled plan. */
  lemma {:induction false} VisitedYields(op: Plan, ps: PredicateSet, zoneMap: bool, env: Env)
    requires Visitable(op, ps, env) && MarksKeptBelow(op, ps)
    ensures Schema(Visited(op, ps, zoneMap)) == Schema(op)
    ensures Select(Eval(Visited(op, ps, zoneMap), env, []), ps.All(), env)
         == Select(Eval(Nulled(op, ps, env), env, []), ps.All(), env)
  {
    var op', p := Visited(op, ps, zoneMap), Nulled(op, ps, env);
    match op
    case Filter(e, c) =>
      if !NeverTrue(e) {
        BelowOk(e, ps, Schema(op));
        VisitedYields(c, Below(e, ps), zoneMap, env);
        FilterSelects(op', ps, env);
        FilterSelects(p, ps, env);
      }
    case CrossProduct(_, _, _) => ProductInPlaceYields(op, ps, zoneMap, env);
    case ScanNodeTable(_) => VisitedKeepsRows(op, ps, zoneMap, env);
    case TableFunctionCall(_, _, _) => VisitedKeepsRows(op, ps, zoneMap, env);
    case Extend(_, _, _, _, _) => ExtendYields(op, ps, zoneMap, env);
    case _ => ChildrenYield(op, ps, zoneMap, env);
  }

  lemma ProductInPlaceYields(op: Plan, ps: PredicateSet, zoneMap: bool, env: Env)
    requires Visitable(op, ps, env) && op.CrossProduct? && SideMarksKept(op, ps)
    ensures Schema(Visited(op, ps, zoneMap)) == Schema(op)
    ensures Select(Eval(Visited(op, ps, zoneMap), env, []), ps.All(), env)
         == Select(Eval(Nulled(op, ps, env), env, []), ps.All(), env)
  {
    SidesYield(op, ps, zoneMap, env);
    NulledProduct(op, ps, env);
    NulledValid(op, ps, env);
    ProductInPlace(Nulled(op, ps, env), ps, Visited(op, ps, zoneMap), env);
    ProductSides(Nulled(op, ps, env), ps, Visited(op, ps, zoneMap), env);
  }

  /** The plan that `rewrite` leaves in place has the rows of the nulled plan. */
  lemma RewriteYields(plan: Plan, zoneMap: bool, env: Env)
    requires ValidEnv(env) && Valid(plan, env) && Planned(plan) && MarksKeptBelow(plan, NoPredicates)
    ensures Schema(Visited(plan, NoPredicates, zoneMap)) == Schema(plan)
    ensures Eval(Visited(plan, NoPredicates, zoneMap), env, []) == Eval(Nulled(plan, NoPredicates, env), env, [])
  {
    VisitedYields(plan, NoPredicates, zoneMap, env);
    assert NoPredicates.All() == [];
    SelectNothing(Eval(Nulled(plan, NoPredicates, env), env, []), env);
    SelectNothing(Eval(Visited(plan, NoPredicates, zoneMap), env, []), env);
  }
}
