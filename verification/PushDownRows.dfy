/**
  The rows of plans rewritten by the filter push-down. A rewritten plan has exactly the rows of
  the visited plan that satisfy all pending predicates, up to one kind of operator: an optional
  product, whose build side becomes a row of NULLs when the predicates pushed into it leave it
  empty. The exact condition for such a product is proved too.
 */
module PushDownRows {
  import opened Options
  import opened Plans
  import opened RowAlgebra
  import opened FilterPushDown

  /** What the planner hands over: plain scans without hints, and no semi masks yet. */
  ghost predicate Planned(p: Plan) {
    match p
    case ScanNodeTable(s) => s.hints == [] && s.key.None?
    case TableFunctionCall(_, _, hints) => hints == []
    case Extend(_, _, _, hints, c) => hints == [] && Planned(c)
    case Filter(_, c) => Planned(c)
    case CrossProduct(_, l, r) => Planned(l) && Planned(r)
    case HashJoin(_, _, l, r, sip) => !sip.position.OnBuild? && !sip.position.OnProbe? && Planned(l) && Planned(r)
    case Accumulate(_, c) => Planned(c)
    case SemiMasker(_, c) => Planned(c)
    case EmptyResult(_) => true
    case Other(_, _, children) => forall i :: 0 <= i < |children| ==> Planned(children[i])
  }

  /** No join of the plan has a semi mask. */
  ghost predicate Unmasked(p: Plan) {
    match p
    case ScanNodeTable(_) => true
    case TableFunctionCall(_, _, _) => true
    case Extend(_, _, _, _, c) => Unmasked(c)
    case Filter(_, c) => Unmasked(c)
    case CrossProduct(_, l, r) => Unmasked(l) && Unmasked(r)
    case HashJoin(_, _, l, r, sip) => !sip.position.OnBuild? && !sip.position.OnProbe? && Unmasked(l) && Unmasked(r)
    case Accumulate(_, c) => Unmasked(c)
    case SemiMasker(_, c) => Unmasked(c)
    case EmptyResult(_) => true
    case Other(_, _, children) => forall i :: 0 <= i < |children| ==> Unmasked(children[i])
  }

  /** The rewrite's promise: same columns, and exactly the rows that satisfy the pending predicates. */
  ghost predicate Pushed(op: Plan, preds: seq<Expr>, r: Plan, env: Env) {
    && Schema(r) == Schema(op)
    && Valid(r, env)
    && Unmasked(r)
    && Eval(r, env, []) == Select(Eval(op, env, []), preds, env)
  }

  /** The input of a visit. */
  ghost predicate Visitable(op: Plan, ps: PredicateSet, env: Env) {
    ValidEnv(env) && Valid(op, env) && Planned(op) && ps.Ok() && Reads(ps.All(), Schema(op))
  }

  /* ----- when the rows are kept ----- */

  /** Some pending equality joins the two sides of the product. */
  ghost predicate Joins(op: Plan, ps: PredicateSet)
    requires op.CrossProduct?
  {
    exists i :: 0 <= i < |ps.All()| && JoinsSides(ps.All()[i], Schema(op.probe), Schema(op.build))
  }

  /**
    Pushing into the build side of an optional product either leaves rows there, or there were
    none before, or the row of NULLs that takes their place satisfies the pending predicates with
    no probe row.
   */
  ghost predicate NullRowHarmless(op: Plan, ps: PredicateSet, env: Env)
    requires op.CrossProduct?
  {
    || op.collect.Regular?
    || Eval(op.build, env, []) == []
    || Select(Eval(op.build, env, []), BuildPart(op, ps), env) != []
    || forall l :: l in Eval(op.probe, env, []) ==>
         !AllHold(ps.All(), l + NullEntry(op.collect, Schema(op.build)), env)
  }

  /** A product turned into a hash join loses its mark; otherwise the NULL row must be harmless. */
  ghost predicate ProductKept(op: Plan, ps: PredicateSet, env: Env)
    requires op.CrossProduct?
  {
    if Joins(op, ps) then Marks(op.collect) == {} else NullRowHarmless(op, ps, env)
  }

  /** Every product that the push-down reaches is kept by it. */
  ghost predicate Kept(op: Plan, ps: PredicateSet, env: Env)
    decreases op, 1
  {
    match op
    case ScanNodeTable(_) => true
    case TableFunctionCall(_, _, _) => true
    case Extend(_, _, _, _, c) => Kept(c, NoPredicates, env)
    case Filter(e, c) => NeverTrue(e) || Kept(c, Below(e, ps), env)
    case CrossProduct(_, l, r) => SidesKept(op, ps, env) && ProductKept(op, ps, env)
    case HashJoin(_, _, l, r, _) => Kept(l, NoPredicates, env) && Kept(r, NoPredicates, env)
    case Accumulate(_, c) => Kept(c, NoPredicates, env)
    case SemiMasker(_, c) => Kept(c, NoPredicates, env)
    case EmptyResult(_) => true
    case Other(_, _, children) => forall i :: 0 <= i < |children| ==> Kept(children[i], NoPredicates, env)
  }

  ghost predicate SidesKept(op: Plan, ps: PredicateSet, env: Env)
    requires op.CrossProduct?
    decreases op, 0
  {
    Kept(op.probe, SetOf(ProbePart(op, ps)), env) && Kept(op.build, SetOf(BuildPart(op, ps)), env)
  }

  /**
    No predicate is pushed into the build side of an optional product, and none that has a mark
    becomes a join: a condition on the plan alone.
   */
  ghost predicate NothingPushed(op: Plan, ps: PredicateSet)
    decreases op, 1
  {
    match op
    case ScanNodeTable(_) => true
    case TableFunctionCall(_, _, _) => true
    case Extend(_, _, _, _, c) => NothingPushed(c, NoPredicates)
    case Filter(e, c) => NeverTrue(e) || NothingPushed(c, Below(e, ps))
    case CrossProduct(t, _, _) =>
      && NothingPushedBelow(op, ps)
      && (t.Optional? ==> BuildPart(op, ps) == [])
      && (Joins(op, ps) ==> Marks(t) == {})
    case HashJoin(_, _, l, r, _) => NothingPushed(l, NoPredicates) && NothingPushed(r, NoPredicates)
    case Accumulate(_, c) => NothingPushed(c, NoPredicates)
    case SemiMasker(_, c) => NothingPushed(c, NoPredicates)
    case EmptyResult(_) => true
    case Other(_, _, children) => forall i :: 0 <= i < |children| ==> NothingPushed(children[i], NoPredicates)
  }

  ghost predicate NothingPushedBelow(op: Plan, ps: PredicateSet)
    requires op.CrossProduct?
    decreases op, 0
  {
    NothingPushed(op.probe, SetOf(ProbePart(op, ps))) && NothingPushed(op.build, SetOf(BuildPart(op, ps)))
  }

  /** Such plans are kept whatever the tables hold. */
  lemma {:induction false} NothingPushedKept(op: Plan, ps: PredicateSet, env: Env)
    requires NothingPushed(op, ps)
    ensures Kept(op, ps, env)
  {
    match op
    case Extend(_, _, _, _, c) => NothingPushedKept(c, NoPredicates, env);
    case Filter(e, c) => if !NeverTrue(e) { NothingPushedKept(c, Below(e, ps), env); }
    case CrossProduct(_, l, r) =>
      NothingPushedKept(l, SetOf(ProbePart(op, ps)), env);
      NothingPushedKept(r, SetOf(BuildPart(op, ps)), env);
      SelectNothing(Eval(r, env, []), env);
    case HashJoin(_, _, l, r, _) =>
      NothingPushedKept(l, NoPredicates, env);
      NothingPushedKept(r, NoPredicates, env);
    case Accumulate(_, c) => NothingPushedKept(c, NoPredicates, env);
    case SemiMasker(_, c) => NothingPushedKept(c, NoPredicates, env);
    case Other(_, _, children) =>
      forall i | 0 <= i < |children| ensures Kept(children[i], NoPredicates, env) {
        NothingPushedKept(children[i], NoPredicates, env);
      }
    case _ =>
  }

  lemma PlannedUnmasked(p: Plan)
    requires Planned(p)
    ensures Unmasked(p)
  {
  }

  /* ----- predicate sets and lists ----- */

  lemma BelowHolds(e: Expr, ps: PredicateSet, row: Row, env: Env)
    requires !NeverTrue(e)
    ensures AllHold(Below(e, ps).All(), row, env) <==> AllHold([e] + ps.All(), row, env)
  {
    AllHoldConcat([e], ps.All(), row, env);
    AllHoldOne(e, row, env);
    if !e.Literal? {
      AddHolds(ps, e);
      AllHoldMultiset(Below(e, ps).All(), [e] + ps.All(), row, env);
    }
  }

  lemma ReadsMembers(es: seq<Expr>, fs: seq<Expr>, schema: set<Column>)
    requires Reads(fs, schema) && forall e :: e in multiset(es) ==> e in multiset(fs)
    ensures Reads(es, schema)
  {
    forall i | 0 <= i < |es| ensures ColumnsOf(es[i]) <= schema {
      assert es[i] in multiset(es);
      assert es[i] in fs;
    }
  }

  lemma BelowOk(e: Expr, ps: PredicateSet, schema: set<Column>)
    requires ps.Ok() && Reads(ps.All(), schema) && ColumnsOf(e) <= schema
    ensures Below(e, ps).Ok() && Reads(Below(e, ps).All(), schema)
  {
    if !e.Literal? {
      AddHolds(ps, e);
      ReadsMembers(Below(e, ps).All(), [e] + ps.All(), schema);
    }
  }

  /** A set made of a list selects what the list selects. */
  lemma SetOfSelects(es: seq<Expr>, rows: seq<Row>, env: Env)
    ensures Select(rows, SetOf(es).All(), env) == Select(rows, es, env)
  {
    SetOfHolds(es);
    forall row | row in rows ensures AllHold(SetOf(es).All(), row, env) <==> AllHold(es, row, env) {
      AllHoldMultiset(SetOf(es).All(), es, row, env);
    }
    SelectSame(rows, SetOf(es).All(), es, env);
  }

  lemma SetOfReads(es: seq<Expr>, schema: set<Column>)
    requires Reads(es, schema)
    ensures SetOf(es).Ok() && Reads(SetOf(es).All(), schema)
  {
    SetOfOk(es);
    SetOfHolds(es);
    ReadsMembers(SetOf(es).All(), es, schema);
  }

  /* ----- the split over a product ----- */

  lemma {:induction false} PickCount(es: seq<Expr>, f: Expr -> bool, e: Expr)
    ensures multiset(Pick(es, f))[e] == if f(e) then multiset(es)[e] else 0
  {
    if es != [] {
      PickCount(es[..|es| - 1], f, e);
      assert es == es[..|es| - 1] + [es[|es| - 1]];
    }
  }

  lemma PickMember(es: seq<Expr>, f: Expr -> bool, e: Expr)
    ensures e in Pick(es, f) <==> e in es && f(e)
  {
    PickCount(es, f, e);
    assert e in Pick(es, f) <==> e in multiset(Pick(es, f));
  }

  /** Each side gets what can be evaluated there and only there; none is lost or doubled. */
  lemma SplitCounts(es: seq<Expr>, probe: set<Column>, build: set<Column>, e: Expr)
    ensures e in Only(es, probe, build) <==> e in es && Evaluable(e, probe) && !Evaluable(e, build)
    ensures e in Only(es, build, probe) <==> e in es && Evaluable(e, build) && !Evaluable(e, probe)
    ensures multiset(es)[e] == multiset(Only(es, probe, build))[e] + multiset(Only(es, build, probe))[e]
                             + multiset(Undecided(es, probe, build))[e]
  {
    PickCount(es, e => Evaluable(e, probe) && !Evaluable(e, build), e);
    PickCount(es, e => Evaluable(e, build) && !Evaluable(e, probe), e);
    PickCount(es, e => Evaluable(e, probe) == Evaluable(e, build), e);
    PickMember(es, e => Evaluable(e, probe) && !Evaluable(e, build), e);
    PickMember(es, e => Evaluable(e, build) && !Evaluable(e, probe), e);
  }

  lemma OnlyReads(es: seq<Expr>, here: set<Column>, there: set<Column>)
    ensures Reads(Only(es, here, there), here)
  {
    var only := Only(es, here, there);
    forall i | 0 <= i < |only| ensures ColumnsOf(only[i]) <= here {
      PickMember(es, e => Evaluable(e, here) && !Evaluable(e, there), only[i]);
      EvaluableColumns(only[i], here);
    }
  }

  lemma UndecidedReads(es: seq<Expr>, probe: set<Column>, build: set<Column>, schema: set<Column>)
    requires Reads(es, schema)
    ensures Reads(Undecided(es, probe, build), schema)
  {
    var rest := Undecided(es, probe, build);
    forall i | 0 <= i < |rest| ensures ColumnsOf(rest[i]) <= schema {
      PickMember(es, e => Evaluable(e, probe) == Evaluable(e, build), rest[i]);
    }
  }

  /** How the pending predicates of a product row fall apart over its two halves. */
  lemma SplitHolds(es: seq<Expr>, probe: set<Column>, build: set<Column>, a: Row, b: Row, env: Env)
    requires Agree(a, a + b, probe) && Agree(b, a + b, build)
    ensures AllHold(es, a + b, env)
         == (&& AllHold(Only(es, probe, build), a, env) && AllHold(Only(es, build, probe), b, env)
             && AllHold(Undecided(es, probe, build), a + b, env))
  {
    var onProbe, onBuild, rest := Only(es, probe, build), Only(es, build, probe), Undecided(es, probe, build);
    OnlyReads(es, probe, build);
    OnlyReads(es, build, probe);
    AllHoldAgree(onProbe, a, a + b, probe, env);
    AllHoldAgree(onBuild, b, a + b, build, env);
    AllHoldConcat(onProbe, onBuild, a + b, env);
    AllHoldConcat(onProbe + onBuild, rest, a + b, env);
    forall e ensures e in multiset(onProbe + onBuild + rest) <==> e in multiset(es) {
      SplitCounts(es, probe, build, e);
    }
    AllHoldMultiset(es, onProbe + onBuild + rest, a + b, env);
  }

  /* ----- towers of filters ----- */

  /** A tower of filters yields the rows that satisfy all its predicates. */
  lemma {:induction false} StackPushed(es: seq<Expr>, c: Plan, env: Env)
    requires Valid(c, env) && Unmasked(c) && Reads(es, Schema(c))
    ensures Pushed(c, es, Stack(es, c), env)
  {
    var rows := Eval(c, env, []);
    if es == [] {
      SelectNothing(rows, env);
    } else {
      var init, last := es[..|es| - 1], es[|es| - 1];
      StackPushed(init, c, env);
      FilterIsSelect(last, Stack(init, c), env);
      SelectSelect(rows, init, [last], env);
      assert es == init + [last];
    }
  }

  lemma StackSchema(es: seq<Expr>, c: Plan)
    ensures Schema(Stack(es, c)) == Schema(c)
  {
    if es != [] { StackSchema(es[..|es| - 1], c); }
  }

  /* ----- products ----- */

  /**
    Splitting the predicates over a product whose build rows need no replacement: filtering both
    sides first and the product by the rest, or by all, is filtering the product by all.
   */
  lemma CrossSplit(ls: seq<Row>, rs: seq<Row>, es: seq<Expr>, probe: set<Column>, build: set<Column>,
                   marks: set<Column>, env: Env)
    requires RowsHave(ls, probe) && RowsHave(rs, build + marks) && probe !! build && marks !! probe + build
    ensures var ls', rs' := Select(ls, Only(es, probe, build), env), Select(rs, Only(es, build, probe), env);
            && Select(Cross(ls, rs), es, env) == Select(Cross(ls', rs'), Undecided(es, probe, build), env)
            && Select(Cross(ls, rs), es, env) == Select(Cross(ls', rs'), es, env)
  {
    var f := row => AllHold(es, row, env);
    var fl := row => AllHold(Only(es, probe, build), row, env);
    var fr := row => AllHold(Only(es, build, probe), row, env);
    var g := row => AllHold(Undecided(es, probe, build), row, env);
    forall a, b | a in ls && b in rs ensures f(a + b) == (fl(a) && fr(b) && g(a + b)) {
      SplitHolds(es, probe, build, a, b, env);
    }
    KeepCross(ls, rs, f, fl, fr, g);
    KeepCross(ls, rs, f, fl, fr, f);
  }

  /** The same for the probe side alone, whatever takes the place of the build rows. */
  lemma CrossSplitProbe(ls: seq<Row>, rs: seq<Row>, es: seq<Expr>, probe: set<Column>, build: set<Column>,
                        marks: set<Column>, env: Env)
    requires RowsHave(ls, probe) && RowsHave(rs, build + marks) && probe !! build && marks !! probe + build
    ensures Select(Cross(ls, rs), es, env) == Select(Cross(Select(ls, Only(es, probe, build), env), rs), es, env)
  {
    var f := row => AllHold(es, row, env);
    var fl := row => AllHold(Only(es, probe, build), row, env);
    var all := (row: Row) => true;
    forall a, b | a in ls && b in rs ensures f(a + b) == (fl(a) && all(b) && f(a + b)) {
      SplitHolds(es, probe, build, a, b, env);
    }
    KeepCross(ls, rs, f, fl, all, f);
    KeepAll(rs, all);
  }

  /** What the rewritten product yields, before and after, in terms of the rows of its sides. */
  ghost predicate SameProduct(t: AccumulateType, ls: seq<Row>, rs: seq<Row>, es: seq<Expr>,
                              probe: set<Column>, build: set<Column>, env: Env) {
    var ls', rs' := Select(ls, Only(es, probe, build), env), Select(rs, Only(es, build, probe), env);
    Select(Cross(ls, Collected(t, rs, build)), es, env) == Select(Cross(ls', Collected(t, rs', build)), es, env)
  }

  /** If rows are left on the build side, or there were none, pushing changes nothing. */
  lemma ProductStays(t: AccumulateType, ls: seq<Row>, rs: seq<Row>, es: seq<Expr>,
                     probe: set<Column>, build: set<Column>, env: Env)
    requires RowsHave(ls, probe) && RowsHave(rs, build) && probe !! build && Marks(t) !! probe + build
    requires t.Regular? || rs == [] || Select(rs, Only(es, build, probe), env) != []
    ensures SameProduct(t, ls, rs, es, probe, build, env)
  {
    CollectedDomain(t, rs, build);
    if t.Regular? {
      CrossSplit(ls, rs, es, probe, build, {}, env);
    } else if rs == [] {
      CrossSplitProbe(ls, Collected(t, rs, build), es, probe, build, Marks(t), env);
    } else {
      var onBuild := Only(es, build, probe);
      CrossSplit(ls, Collected(t, rs, build), es, probe, build, Marks(t), env);
      OnlyReads(es, build, probe);
      forall row | row in rs ensures AllHold(onBuild, WithMark(t.any, true, row), env) == AllHold(onBuild, row, env) {
        AllHoldAgree(onBuild, WithMark(t.any, true, row), row, build, env);
      }
      KeepWithMarks(t.any, true, rs, row => AllHold(onBuild, row, env));
    }
  }

  /**
    If no build row is left, the original yields nothing and the rewritten product the probe rows
    extended by NULLs that satisfy all predicates.
   */
  lemma ProductEmptied(t: AccumulateType, ls: seq<Row>, rs: seq<Row>, es: seq<Expr>,
                       probe: set<Column>, build: set<Column>, env: Env)
    requires RowsHave(ls, probe) && RowsHave(rs, build) && probe !! build && Marks(t) !! probe + build
    requires t.Optional? && rs != [] && Select(rs, Only(es, build, probe), env) == []
    ensures SameProduct(t, ls, rs, es, probe, build, env)
       <==> forall l :: l in ls ==> !AllHold(es, l + NullEntry(t, build), env)
  {
    var f := row => AllHold(es, row, env);
    var nulls := [NullEntry(t, build)];
    CollectedDomain(t, rs, build);
    CollectedDomain(t, [], build);
    CrossSplit(ls, Collected(t, rs, build), es, probe, build, Marks(t), env);
    MarkedNone(t, rs, es, probe, build, env);
    CrossNothing(Select(ls, Only(es, probe, build), env));
    CrossSplitProbe(ls, nulls, es, probe, build, Marks(t), env);
    if l :| l in ls && f(l + nulls[0]) {
      CrossHas(ls, nulls, l, nulls[0]);
      KeepMember(Cross(ls, nulls), f, l + nulls[0]);
    } else {
      forall row | row in Cross(ls, nulls) ensures !f(row) { CrossMember(ls, nulls, row); }
      KeepNone(Cross(ls, nulls), f);
    }
  }

  lemma MarkedNone(t: AccumulateType, rs: seq<Row>, es: seq<Expr>, probe: set<Column>, build: set<Column>, env: Env)
    requires RowsHave(rs, build) && Marks(t) !! build
    requires t.Optional? && rs != [] && Select(rs, Only(es, build, probe), env) == []
    ensures Select(Collected(t, rs, build), Only(es, build, probe), env) == []
  {
    var onBuild := Only(es, build, probe);
    OnlyReads(es, build, probe);
    forall row | row in rs ensures AllHold(onBuild, WithMark(t.any, true, row), env) == AllHold(onBuild, row, env) {
      AllHoldAgree(onBuild, WithMark(t.any, true, row), row, build, env);
    }
    KeepWithMarks(t.any, true, rs, row => AllHold(onBuild, row, env));
  }

  /* ----- products that become joins ----- */

  /** The join keys and the equalities left over hold together exactly when all equalities do. */
  lemma {:induction false} JoinKeysMatch(es: seq<Expr>, probe: set<Column>, build: set<Column>, l: Row, r: Row, env: Env)
    requires l.Keys == probe && r.Keys == build && probe !! build
    ensures AllHold(es, l + r, env)
       <==> Matches(JoinKeys(es, probe, build), l, r, env) && AllHold(Unjoined(es, probe, build), l + r, env)
  {
    if es != [] {
      var init, p := es[..|es| - 1], es[|es| - 1];
      JoinKeysMatch(init, probe, build, l, r, env);
      assert es == init + [p];
      AllHoldConcat(init, [p], l + r, env);
      AllHoldOne(p, l + r, env);
      if JoinsSides(p, probe, build) {
        assert Unjoined(es, probe, build) == Unjoined(init, probe, build);
        OneKeyMatches(p, JoinKeys(init, probe, build), probe, build, l, r, env);
      } else {
        assert JoinKeys(es, probe, build) == JoinKeys(init, probe, build);
        AllHoldConcat(Unjoined(init, probe, build), [p], l + r, env);
      }
    }
  }

  lemma OneKeyMatches(p: Expr, conds: JoinConditions, probe: set<Column>, build: set<Column>, l: Row, r: Row, env: Env)
    requires l.Keys == probe && r.Keys == build && probe !! build && JoinsSides(p, probe, build)
    ensures InScope(p.left, probe) && InScope(p.right, build) ==>
              (Matches(conds + [(p.left, p.right)], l, r, env) <==> Matches(conds, l, r, env) && Holds(p, l + r, env))
    ensures !(InScope(p.left, probe) && InScope(p.right, build)) ==>
              (Matches(conds + [(p.right, p.left)], l, r, env) <==> Matches(conds, l, r, env) && Holds(p, l + r, env))
  {
    MatchesSnoc(conds, (p.left, p.right), l, r, env);
    MatchesSnoc(conds, (p.right, p.left), l, r, env);
    HoldsEquals(p, l + r, env);
    assert InScope(p.left, probe) ==> EvalExpr(p.left, l, env) == EvalExpr(p.left, l + r, env);
    assert InScope(p.right, probe) ==> EvalExpr(p.right, l, env) == EvalExpr(p.right, l + r, env);
    assert InScope(p.left, build) ==> EvalExpr(p.left, r, env) == EvalExpr(p.left, l + r, env);
    assert InScope(p.right, build) ==> EvalExpr(p.right, r, env) == EvalExpr(p.right, l + r, env);
  }

  lemma HoldsEquals(p: Expr, row: Row, env: Env)
    requires p.Equals?
    ensures Holds(p, row, env) <==> SqlEquals(EvalExpr(p.left, row, env), EvalExpr(p.right, row, env)) == Bool(true)
  {
    assert p == Equals(p.left, p.right);
  }

  /** Each key pair has its left side on the probe side and its right side on the build side. */
  lemma {:induction false} JoinKeysValid(es: seq<Expr>, probe: set<Column>, build: set<Column>)
    ensures ValidConditions(JoinKeys(es, probe, build), probe, build)
    ensures |JoinKeys(es, probe, build)| + |Unjoined(es, probe, build)| == |es|
    ensures JoinKeys(es, probe, build) == [] <==> forall e :: e in es ==> !JoinsSides(e, probe, build)
  {
    if es != [] {
      JoinKeysValid(es[..|es| - 1], probe, build);
      assert es == es[..|es| - 1] + [es[|es| - 1]];
    }
  }

  lemma {:induction false} SetOfEqualities(es: seq<Expr>, e: Expr)
    ensures e in SetOf(es).equality <==> e in es && e.Equals?
  {
    if es != [] {
      SetOfEqualities(es[..|es| - 1], e);
      assert es == es[..|es| - 1] + [es[|es| - 1]];
    }
  }

  /** An equality that joins the sides can be evaluated on neither of them. */
  lemma JoinerUndecided(e: Expr, probe: set<Column>, build: set<Column>)
    requires probe !! build && JoinsSides(e, probe, build)
    ensures !Evaluable(e, probe) && !Evaluable(e, build)
  {
  }

  /** The product becomes a join exactly when some pending equality joins its sides. */
  lemma JoinsExactly(op: Plan, ps: PredicateSet)
    requires op.CrossProduct? && Schema(op.probe) !! Schema(op.build)
    ensures JoinKeys(RemainingPart(op, ps).equality, Schema(op.probe), Schema(op.build)) != [] <==> Joins(op, ps)
  {
    var probe, build := Schema(op.probe), Schema(op.build);
    var rest := Undecided(ps.All(), probe, build);
    JoinKeysValid(SetOf(rest).equality, probe, build);
    forall e | JoinsSides(e, probe, build) ensures e in SetOf(rest).equality <==> e in ps.All() {
      SetOfEqualities(rest, e);
      JoinerUndecided(e, probe, build);
      PickMember(ps.All(), e => Evaluable(e, probe) == Evaluable(e, build), e);
    }
  }

  /** The product filtered by the equalities has the rows of the hash join filtered by what is left over. */
  lemma CrossToJoin(ls: seq<Row>, rs: seq<Row>, remaining: PredicateSet, probe: set<Column>, build: set<Column>, env: Env)
    requires RowsHave(ls, probe) && RowsHave(rs, build) && probe !! build
    ensures Select(Cross(ls, rs), remaining.All(), env)
         == Select(Join(JoinKeys(remaining.equality, probe, build), Inner, ls, rs, build, env),
                   Unjoined(remaining.equality, probe, build) + remaining.nonEquality, env)
  {
    var conds := JoinKeys(remaining.equality, probe, build);
    var left := Unjoined(remaining.equality, probe, build);
    forall a, b | a in ls && b in rs
      ensures AllHold(remaining.All(), a + b, env)
         <==> Matches(conds, a, b, env) && AllHold(left + remaining.nonEquality, a + b, env)
    {
      JoinKeysMatch(remaining.equality, probe, build, a, b, env);
      AllHoldConcat(remaining.equality, remaining.nonEquality, a + b, env);
      AllHoldConcat(left, remaining.nonEquality, a + b, env);
    }
    JoinThenRest(conds, ls, rs, build, remaining.All(), left + remaining.nonEquality, env);
  }

  function MarkOf(t: AccumulateType): Option<Column> {
    if t.Optional? then t.any else None
  }

  /** A row of NULLs joins nothing. */
  lemma NullsNeverJoin(t: AccumulateType, e: Expr, l: Row, probe: set<Column>, build: set<Column>, env: Env)
    requires t.Optional? && l.Keys == probe && probe !! build && Marks(t) !! probe + build
    requires JoinsSides(e, probe, build)
    ensures !Holds(e, l + NullEntry(t, build), env)
  {
    var row := l + NullEntry(t, build);
    HoldsEquals(e, row, env);
    assert InScope(e.left, build) ==> EvalExpr(e.left, row, env) == Null;
    assert InScope(e.right, build) ==> EvalExpr(e.right, row, env) == Null;
  }

  lemma JoinNothing(conds: JoinConditions, ls: seq<Row>, rc: set<Column>, env: Env)
    ensures Join(conds, Inner, ls, [], rc, env) == []
  {
    if ls != [] { JoinNothing(conds, ls[1..], rc, env); }
  }

  lemma SelectMarked(m: Option<Column>, rows: seq<Row>, es: seq<Expr>, cs: set<Column>, env: Env)
    requires Reads(es, cs) && MarkColumns(m) !! cs
    ensures Select(WithMarks(m, true, rows), es, env) == WithMarks(m, true, Select(rows, es, env))
  {
    forall row | row in rows ensures AllHold(es, WithMark(m, true, row), env) == AllHold(es, row, env) {
      AllHoldAgree(es, WithMark(m, true, row), row, cs, env);
    }
    KeepWithMarks(m, true, rows, row => AllHold(es, row, env));
  }

  /**
    A product of either kind that some equality joins: the inner join yields its rows, without the
    mark, which is true in all of them.
   */
  lemma JoinedRows(t: AccumulateType, ls: seq<Row>, rs: seq<Row>, es: seq<Expr>, e: Expr,
                   probe: set<Column>, build: set<Column>, env: Env)
    requires RowsHave(ls, probe) && RowsHave(rs, build) && probe !! build && Marks(t) !! probe + build
    requires Reads(es, probe + build) && e in es && JoinsSides(e, probe, build)
    ensures var ls', rs' := Select(ls, Only(es, probe, build), env), Select(rs, Only(es, build, probe), env);
            var remaining := SetOf(Undecided(es, probe, build));
            (Select(Cross(ls, Collected(t, rs, build)), es, env)
             == WithMarks(MarkOf(t), true,
                  Select(Join(JoinKeys(remaining.equality, probe, build), Inner, ls', rs', build, env),
                         Unjoined(remaining.equality, probe, build) + remaining.nonEquality, env)))
  {
    var onProbe, onBuild := Only(es, probe, build), Only(es, build, probe);
    var ls', rs' := Select(ls, onProbe, env), Select(rs, onBuild, env);
    var remaining := SetOf(Undecided(es, probe, build));
    if t.Optional? && rs == [] {
      JoinNothing(JoinKeys(remaining.equality, probe, build), ls', build, env);
      var nulls := [NullEntry(t, build)];
      forall row | row in Cross(ls, nulls) ensures !AllHold(es, row, env) {
        CrossMember(ls, nulls, row);
        var l :| l in ls && row == l + nulls[0];
        NullsNeverJoin(t, e, l, probe, build, env);
      }
      KeepNone(Cross(ls, nulls), row => AllHold(es, row, env));
    } else {
      KeepDomain(ls, row => AllHold(onProbe, row, env), probe);
      KeepDomain(rs, row => AllHold(onBuild, row, env), build);
      CrossSplit(ls, rs, es, probe, build, {}, env);
      SetOfSelects(Undecided(es, probe, build), Cross(ls', rs'), env);
      CrossToJoin(ls', rs', remaining, probe, build, env);
      NoMark(true, Select(Cross(ls, rs), es, env));
      if t.Optional? {
        CrossMarked(ls, t.any, true, rs);
        SelectMarked(t.any, Cross(ls, rs), es, probe + build, env);
      }
    }
  }

  /* ----- the product visitor, exactly ----- */

  /** The product as the visit leaves it. */
  ghost predicate ProductVisited(op: Plan, ps: PredicateSet, op': Plan, env: Env) {
    && op.CrossProduct? && op'.CrossProduct? && op'.collect == op.collect
    && Pushed(op.probe, SetOf(ProbePart(op, ps)).All(), op'.probe, env)
    && Pushed(op.build, SetOf(BuildPart(op, ps)).All(), op'.build, env)
  }

  lemma ProductSides(op: Plan, ps: PredicateSet, op': Plan, env: Env)
    requires Visitable(op, ps, env) && ProductVisited(op, ps, op', env)
    ensures Schema(op') == Schema(op) && Valid(op', env) && Unmasked(op')
    ensures Eval(op'.probe, env, []) == Select(Eval(op.probe, env, []), ProbePart(op, ps), env)
    ensures Eval(op'.build, env, []) == Select(Eval(op.build, env, []), BuildPart(op, ps), env)
    ensures RowsHave(Eval(op.probe, env, []), Schema(op.probe)) && RowsHave(Eval(op.build, env, []), Schema(op.build))
  {
    SetOfSelects(ProbePart(op, ps), Eval(op.probe, env, []), env);
    SetOfSelects(BuildPart(op, ps), Eval(op.build, env, []), env);
    EvalDomain(op.probe, env, []);
    EvalDomain(op.build, env, []);
  }

  /** In place, the product selects the same rows exactly when the row of NULLs is harmless. */
  lemma ProductInPlace(op: Plan, ps: PredicateSet, op': Plan, env: Env)
    requires Visitable(op, ps, env) && ProductVisited(op, ps, op', env)
    ensures Select(Eval(op', env, []), ps.All(), env) == Select(Eval(op, env, []), ps.All(), env)
       <==> NullRowHarmless(op, ps, env)
  {
    var t, probe, build := op.collect, Schema(op.probe), Schema(op.build);
    var ls, rs := Eval(op.probe, env, []), Eval(op.build, env, []);
    ProductSides(op, ps, op', env);
    assert SameProduct(t, ls, rs, ps.All(), probe, build, env)
      <==> Select(Eval(op', env, []), ps.All(), env) == Select(Eval(op, env, []), ps.All(), env);
    if t.Regular? || rs == [] || Select(rs, BuildPart(op, ps), env) != [] {
      ProductStays(t, ls, rs, ps.All(), probe, build, env);
    } else {
      ProductEmptied(t, ls, rs, ps.All(), probe, build, env);
    }
  }

  /** A product that stays a product is kept exactly when the row of NULLs is harmless. */
  lemma UnjoinedExactly(op: Plan, ps: PredicateSet, op': Plan, env: Env)
    requires Visitable(op, ps, env) && ProductVisited(op, ps, op', env) && !Joins(op, ps)
    ensures Pushed(op, ps.All(), AboveProduct(RemainingPart(op, ps), ps, op'), env) <==> NullRowHarmless(op, ps, env)
  {
    JoinsExactly(op, ps);
    ProductSides(op, ps, op', env);
    StackPushed(ps.All(), op', env);
    ProductInPlace(op, ps, op', env);
  }

  /** The join that takes the place of a product. */
  function JoinOf(op: Plan, ps: PredicateSet, op': Plan): Plan
    requires op.CrossProduct? && op'.CrossProduct?
  {
    HashJoin(JoinKeys(RemainingPart(op, ps).equality, Schema(op'.probe), Schema(op'.build)), Inner,
             op'.probe, op'.build, SipInfo(Prohibit, NoDirection))
  }

  function LeftOver(op: Plan, ps: PredicateSet): seq<Expr>
    requires op.CrossProduct?
  {
    Unjoined(RemainingPart(op, ps).equality, Schema(op.probe), Schema(op.build)) + RemainingPart(op, ps).nonEquality
  }

  lemma LeftOverReads(op: Plan, ps: PredicateSet, schema: set<Column>)
    requires op.CrossProduct? && Reads(ps.All(), schema)
    ensures Reads(LeftOver(op, ps), schema)
  {
    var remaining := RemainingPart(op, ps);
    UndecidedReads(ps.All(), Schema(op.probe), Schema(op.build), schema);
    SetOfReads(Undecided(ps.All(), Schema(op.probe), Schema(op.build)), schema);
    forall i | 0 <= i < |LeftOver(op, ps)| ensures ColumnsOf(LeftOver(op, ps)[i]) <= schema {
      var e := LeftOver(op, ps)[i];
      PickMember(remaining.equality, e => !JoinsSides(e, Schema(op.probe), Schema(op.build)), e);
      assert e in remaining.equality || e in remaining.nonEquality;
      assert e in remaining.All();
    }
  }

  lemma JoinedShape(op: Plan, ps: PredicateSet, op': Plan, env: Env)
    requires Valid(op, env) && ProductVisited(op, ps, op', env) && Joins(op, ps)
    ensures AboveProduct(RemainingPart(op, ps), ps, op') == Stack(LeftOver(op, ps), JoinOf(op, ps, op'))
  {
    JoinsExactly(op, ps);
  }

  lemma JoinValid(op: Plan, ps: PredicateSet, op': Plan, env: Env)
    requires Valid(op, env) && ProductVisited(op, ps, op', env)
    ensures Valid(JoinOf(op, ps, op'), env) && Unmasked(JoinOf(op, ps, op'))
    ensures Schema(JoinOf(op, ps, op')) == Schema(op.probe) + Schema(op.build)
  {
    JoinKeysValid(RemainingPart(op, ps).equality, Schema(op.probe), Schema(op.build));
  }

  /** Becoming a join costs a product its mark and nothing else. */
  lemma MarkLost(op: Plan, ps: PredicateSet, op': Plan, env: Env)
    requires Visitable(op, ps, env) && ProductVisited(op, ps, op', env) && Joins(op, ps)
    requires Reads(ps.All(), Schema(op) - Marks(op.collect))
    ensures var r := AboveProduct(RemainingPart(op, ps), ps, op');
            && Schema(r) == Schema(op) - Marks(op.collect) && Valid(r, env) && Unmasked(r)
            && Select(Eval(op, env, []), ps.All(), env) == WithMarks(MarkOf(op.collect), true, Eval(r, env, []))
  {
    var probe, build := Schema(op.probe), Schema(op.build);
    JoinedShape(op, ps, op', env);
    ProductSides(op, ps, op', env);
    JoinValid(op, ps, op', env);
    assert Schema(op) - Marks(op.collect) == probe + build;
    LeftOverReads(op, ps, probe + build);
    StackPushed(LeftOver(op, ps), JoinOf(op, ps, op'), env);
    var i :| 0 <= i < |ps.All()| && JoinsSides(ps.All()[i], probe, build);
    JoinedRows(op.collect, Eval(op.probe, env, []), Eval(op.build, env, []), ps.All(), ps.All()[i], probe, build, env);
  }

  /** The whole visitor: the rows and columns are kept if and only if `ProductKept` says so. */
  lemma ProductExactly(op: Plan, ps: PredicateSet, op': Plan, env: Env)
    requires Visitable(op, ps, env) && ProductVisited(op, ps, op', env)
    ensures Pushed(op, ps.All(), AboveProduct(RemainingPart(op, ps), ps, op'), env) <==> ProductKept(op, ps, env)
  {
    if !Joins(op, ps) {
      UnjoinedExactly(op, ps, op', env);
    } else {
      JoinedExactly(op, ps, op', env);
    }
  }

  lemma JoinedExactly(op: Plan, ps: PredicateSet, op': Plan, env: Env)
    requires Visitable(op, ps, env) && ProductVisited(op, ps, op', env) && Joins(op, ps)
    ensures Pushed(op, ps.All(), AboveProduct(RemainingPart(op, ps), ps, op'), env) <==> Marks(op.collect) == {}
  {
    var r := AboveProduct(RemainingPart(op, ps), ps, op');
    if Marks(op.collect) == {} {
      MarkLost(op, ps, op', env);
      NoMark(true, Eval(r, env, []));
    } else {
      JoinedShape(op, ps, op', env);
      JoinValid(op, ps, op', env);
      StackSchema(LeftOver(op, ps), JoinOf(op, ps, op'));
    }
  }

  /** In place, a product that became a join is harmless anyway. */
  lemma JoinedHarmless(op: Plan, ps: PredicateSet, env: Env)
    requires Visitable(op, ps, env) && op.CrossProduct? && Joins(op, ps)
    ensures NullRowHarmless(op, ps, env)
  {
    var probe, build := Schema(op.probe), Schema(op.build);
    var i :| 0 <= i < |ps.All()| && JoinsSides(ps.All()[i], probe, build);
    EvalDomain(op.probe, env, []);
    if op.collect.Optional? {
      forall l | l in Eval(op.probe, env, []) ensures !AllHold(ps.All(), l + NullEntry(op.collect, build), env) {
        NullsNeverJoin(op.collect, ps.All()[i], l, probe, build, env);
      }
    }
  }

  /* ----- scans ----- */

  lemma ConstantReadsNothing(e: Expr, row: Row, env: Env)
    requires IsConstant(e)
    ensures ColumnsOf(e) == {} && EvalExpr(e, row, env) == EvalExpr(e, map[], env)
  {
    if e.Cast? { ConstantReadsNothing(e.child, row, env); }
  }

  /** The popped comparison with the rest holds exactly when the whole set does. */
  lemma PopSplits(ps: PredicateSet, nodeID: Column, row: Row, env: Env)
    requires Popped(ps, nodeID).0.Some?
    ensures var (found, rest) := Popped(ps, nodeID);
            AllHold(ps.All(), row, env) <==> Holds(found.value, row, env) && AllHold(rest.All(), row, env)
  {
    var i := KeyIndex(ps.equality, nodeID);
    var p := ps.equality[i];
    var before, after := ps.equality[..i], ps.equality[i + 1..] + ps.nonEquality;
    assert ps.All() == before + ([p] + after);
    assert Popped(ps, nodeID).1.All() == before + after;
    AllHoldConcat(before, [p] + after, row, env);
    AllHoldConcat([p], after, row, env);
    AllHoldConcat(before, after, row, env);
    AllHoldOne(p, row, env);
    HoldsEquals(p, row, env);
    HoldsEquals(Equals(p.right, p.left), row, env);
  }

  lemma PopReads(ps: PredicateSet, nodeID: Column, schema: set<Column>)
    requires Popped(ps, nodeID).0.Some? && Reads(ps.All(), schema)
    ensures var (found, rest) := Popped(ps, nodeID);
            ColumnsOf(found.value) <= schema && Reads(rest.All(), schema)
  {
    var i := KeyIndex(ps.equality, nodeID);
    assert ps.All()[i] == ps.equality[i];
    var rest := Popped(ps, nodeID).1.All();
    forall j | 0 <= j < |rest| ensures ColumnsOf(rest[j]) <= schema {
      assert rest[j] == ps.All()[if j < i then j else j + 1];
    }
  }

  /** Zone-map hints taken from the pending predicates do not change the selected rows of a scan. */
  lemma HintedScan(s: Scan, hints: seq<Expr>, preds: seq<Expr>, env: Env)
    requires ValidEnv(env) && s.hints == [] && s.key.None?
    requires hints == [] || hints == preds
    ensures Select(Eval(ScanNodeTable(s.(hints := hints)), env, []), preds, env)
         == Select(Eval(ScanNodeTable(s), env, []), preds, env)
  {
    var rows := RowsOf(s, env.records(s.tables));
    var s' := s.(hints := hints);
    SameRows(s, s', env.records(s.tables));
    KeepAll(Unskipped(rows, [], env), row => env.admits(s, [], row));
    KeepAll(Unskipped(rows, hints, env), row => env.admits(s', [], row));
    UnskippedNothing(rows, env);
    UnskippedSelect(rows, preds, row => AllHold(preds, row, env), env);
  }

  /** A scan filtered on `pk = constant` among other predicates is an index scan with the others. */
  lemma IndexScan(s: Scan, hints: seq<Expr>, found: Expr, rest: seq<Expr>, preds: seq<Expr>, env: Env)
    requires ValidEnv(env) && ValidScan(s, env) && s.hints == [] && s.key.None? && |s.tables| == 1
    requires hints == [] || hints == preds
    requires found.Equals? && IsNodePrimaryKey(found.left, s.nodeID) && IsConstant(found.right)
    requires ColumnsOf(found) <= Schema(ScanNodeTable(s))
    requires forall row :: AllHold(preds, row, env) <==> Holds(found, row, env) && AllHold(rest, row, env)
    ensures Select(Eval(ScanNodeTable(s.(hints := hints, key := Some(found.right))), env, []), rest, env)
         == Select(Eval(ScanNodeTable(s), env, []), preds, env)
  {
    var recs, pk := env.records(s.tables), env.primaryKey(s.tables[0]);
    var key := EvalExpr(found.right, map[], env);
    var c := found.left.column;
    var s' := s.(hints := hints, key := Some(found.right));
    var isKey := (row: Row) => SqlEquals(Get(row, c), key) == Bool(true);
    var rows := RowsOf(s, recs);
    assert s.tables == [s.tables[0]];
    LookupIsSelection(s, recs, c, pk, key, isKey);
    SameRows(s, s', Lookup(recs, pk, key));
    // the plain scan
    UnskippedNothing(rows, env);
    KeepAll(rows, row => env.admits(s, [], row));
    // the index scan
    var found' := RowsOf(s, Lookup(recs, pk, key));
    forall row ensures isKey(row) == Holds(found, row, env) {
      ConstantReadsNothing(found.right, row, env);
      assert EvalExpr(found.left, row, env) == Get(row, c);
      HoldsEquals(found, row, env);
    }
    forall row | row in found' && AllHold(rest, row, env) ensures AllHold(hints, row, env) {
      KeepMember(rows, isKey, row);
    }
    UnskippedSelect(found', hints, row => AllHold(rest, row, env), env);
    KeepKeep(rows, isKey, row => AllHold(rest, row, env));
    KeepSame(rows, row => isKey(row) && (r => AllHold(rest, r, env))(row), row => AllHold(preds, row, env));
  }

  /** Hints, index look-up and what is applied above give the selected rows of the scan. */
  lemma ScanVisited(s: Scan, ps: PredicateSet, zoneMap: bool, env: Env)
    requires Visitable(ScanNodeTable(s), ps, env)
    ensures var s' := ScanNodeTable(Scanned(s, ps, zoneMap));
            && Valid(s', env) && Schema(s') == Schema(ScanNodeTable(s))
            && Reads(AboveScan(s, ps).All(), Schema(s'))
            && Select(Eval(s', env, []), AboveScan(s, ps).All(), env)
               == Select(Eval(ScanNodeTable(s), env, []), ps.All(), env)
  {
    var hints := if zoneMap then ps.All() else [];
    var schema := Schema(ScanNodeTable(s));
    var hinted := s.(hints := hints);
    HintedScan(s, hints, ps.All(), env);
    var found := KeyComparison(s, ps);
    if found.Some? {
      var rest := Popped(ps, s.nodeID).1;
      PopReads(ps, s.nodeID, schema);
      forall row ensures AllHold(ps.All(), row, env) <==> Holds(found.value, row, env) && AllHold(rest.All(), row, env) {
        PopSplits(ps, s.nodeID, row, env);
      }
      if IsConstant(found.value.right) {
        ConstantReadsNothing(found.value.right, map[], env);
        IndexScan(s, hints, found.value, rest.All(), ps.All(), env);
      } else {
        PutBack(rest, found.value, schema);
        forall row ensures AllHold(AboveScan(s, ps).All(), row, env) <==> AllHold(ps.All(), row, env) {
          PutBackHolds(rest, found.value, row, env);
        }
        SelectSame(Eval(ScanNodeTable(hinted), env, []), AboveScan(s, ps).All(), ps.All(), env);
      }
    }
  }

  lemma PutBack(rest: PredicateSet, p: Expr, schema: set<Column>)
    requires Reads(rest.All(), schema) && ColumnsOf(p) <= schema
    ensures Reads(rest.Add(p).All(), schema)
  {
    AddHolds(rest, p);
    ReadsMembers(rest.Add(p).All(), [p] + rest.All(), schema);
  }

  lemma PutBackHolds(rest: PredicateSet, p: Expr, row: Row, env: Env)
    ensures AllHold(rest.Add(p).All(), row, env) <==> Holds(p, row, env) && AllHold(rest.All(), row, env)
  {
    AddHolds(rest, p);
    AllHoldMultiset(rest.Add(p).All(), [p] + rest.All(), row, env);
    AllHoldConcat([p], rest.All(), row, env);
    AllHoldOne(p, row, env);
  }

  /* ----- the whole rewrite ----- */

  /** Same columns and rows. */
  ghost predicate SameAs(op: Plan, op': Plan, env: Env) {
    Schema(op') == Schema(op) && Valid(op', env) && Unmasked(op') && Eval(op', env, []) == Eval(op, env, [])
  }

  /** Main theorem: if every product is kept, the plan a visit returns selects the rows of the visited plan. */
  lemma {:induction false} PushDownKeepsRows(op: Plan, ps: PredicateSet, zoneMap: bool, env: Env)
    requires Visitable(op, ps, env) && Kept(op, ps, env)
    ensures Pushed(op, ps.All(), PushDown(op, ps, zoneMap), env)
    decreases op, 1
  {
    PlannedUnmasked(op);
    match op
    case Filter(e, c) => FilterPushed(op, ps, zoneMap, env);
    case CrossProduct(_, _, _) =>
      ProductSidesPushed(op, ps, zoneMap, env);
      ProductExactly(op, ps, Visited(op, ps, zoneMap), env);
    case ScanNodeTable(s) =>
      ScanVisited(s, ps, zoneMap, env);
      StackPushed(AboveScan(s, ps).All(), Visited(op, ps, zoneMap), env);
    case TableFunctionCall(_, _, _) =>
      CallVisited(op, ps, zoneMap, env);
      StackPushed(ps.All(), Visited(op, ps, zoneMap), env);
    case Extend(_, _, _, _, _) =>
      ExtendVisited(op, ps, zoneMap, env);
      StackPushed(ps.All(), Visited(op, ps, zoneMap), env);
    case _ =>
      ChildrenVisited(op, ps, zoneMap, env);
      StackPushed(ps.All(), Visited(op, ps, zoneMap), env);
  }

  /** A child visited with nothing pending keeps its rows. */
  lemma ChildPushed(c: Plan, zoneMap: bool, env: Env)
    requires ValidEnv(env) && Valid(c, env) && Planned(c) && Kept(c, NoPredicates, env)
    ensures SameAs(c, PushDown(c, NoPredicates, zoneMap), env)
    decreases c, 2
  {
    PushDownKeepsRows(c, NoPredicates, zoneMap, env);
    SelectNothing(Eval(c, env, []), env);
    assert NoPredicates.All() == [];
  }

  lemma FilterPushed(op: Plan, ps: PredicateSet, zoneMap: bool, env: Env)
    requires Visitable(op, ps, env) && Kept(op, ps, env) && op.Filter?
    ensures Pushed(op, ps.All(), PushDown(op, ps, zoneMap), env)
    decreases op, 0
  {
    var e, rows := op.condition, Eval(op.child, env, []);
    FilterSelects(op, ps, env);
    if !NeverTrue(e) {
      BelowOk(e, ps, Schema(op));
      PushDownKeepsRows(op.child, Below(e, ps), zoneMap, env);
    }
  }

  /** A filter with predicates pending above it selects what the child does with all of them pending. */
  lemma FilterSelects(op: Plan, ps: PredicateSet, env: Env)
    requires op.Filter?
    ensures NeverTrue(op.condition) ==> Select(Eval(op, env, []), ps.All(), env) == []
    ensures !NeverTrue(op.condition) ==>
              Select(Eval(op, env, []), ps.All(), env)
              == Select(Eval(op.child, env, []), Below(op.condition, ps).All(), env)
  {
    var e, rows := op.condition, Eval(op.child, env, []);
    FilterIsSelect(e, op.child, env);
    SelectSelect(rows, [e], ps.All(), env);
    if NeverTrue(e) {
      KeepNone(rows, row => Holds(e, row, env));
    } else {
      forall row | row in rows ensures AllHold(Below(e, ps).All(), row, env) <==> AllHold([e] + ps.All(), row, env) {
        BelowHolds(e, ps, row, env);
      }
      SelectSame(rows, Below(e, ps).All(), [e] + ps.All(), env);
    }
  }

  /** The sides of a product can be visited with their parts pending. */
  lemma PartsVisitable(op: Plan, ps: PredicateSet, env: Env)
    requires Visitable(op, ps, env) && op.CrossProduct?
    ensures Visitable(op.probe, SetOf(ProbePart(op, ps)), env) && Visitable(op.build, SetOf(BuildPart(op, ps)), env)
  {
    var probe, build := Schema(op.probe), Schema(op.build);
    OnlyReads(ps.All(), probe, build);
    OnlyReads(ps.All(), build, probe);
    SetOfReads(ProbePart(op, ps), probe);
    SetOfReads(BuildPart(op, ps), build);
  }

  lemma ProductSidesPushed(op: Plan, ps: PredicateSet, zoneMap: bool, env: Env)
    requires Visitable(op, ps, env) && op.CrossProduct? && SidesKept(op, ps, env)
    ensures ProductVisited(op, ps, Visited(op, ps, zoneMap), env)
    decreases op, 0
  {
    PartsVisitable(op, ps, env);
    PushDownKeepsRows(op.probe, SetOf(ProbePart(op, ps)), zoneMap, env);
    PushDownKeepsRows(op.build, SetOf(BuildPart(op, ps)), zoneMap, env);
  }

  /** Predicates handed to a table function as hints change no selected row. */
  lemma CallVisited(op: Plan, ps: PredicateSet, zoneMap: bool, env: Env)
    requires Visitable(op, ps, env) && op.TableFunctionCall?
    ensures Select(Eval(Visited(op, ps, zoneMap), env, []), ps.All(), env)
         == Select(Eval(op, env, []), ps.All(), env)
  {
    var rows := env.call(op.call, op.columns);
    UnskippedNothing(rows, env);
    UnskippedSelect(rows, ps.All(), row => AllHold(ps.All(), row, env), env);
  }

  /** Nor do hints on an extend, whose child may be replaced by one with the same rows. */
  lemma HintedExtend(op: Plan, op': Plan, preds: seq<Expr>, env: Env)
    requires ValidEnv(env) && Valid(op, env) && op.Extend? && op.hints == []
    requires op'.Extend? && op'.extension == op.extension && op'.added == op.added
    requires (op'.hints == [] || op'.hints == preds) && SameAs(op.child, op'.child, env)
    ensures Schema(op') == Schema(op) && Valid(op', env) && Unmasked(op')
    ensures Select(Eval(op', env, []), preds, env) == Select(Eval(op, env, []), preds, env)
  {
    var rows := Expand(Eval(op.child, env, []), op.extension, op.added, env);
    UnskippedNothing(rows, env);
    UnskippedSelect(rows, preds, row => AllHold(preds, row, env), env);
  }

  lemma ExtendVisited(op: Plan, ps: PredicateSet, zoneMap: bool, env: Env)
    requires Visitable(op, ps, env) && op.Extend? && Kept(op, ps, env)
    ensures var op' := Visited(op, ps, zoneMap);
            && Schema(op') == Schema(op) && Valid(op', env) && Unmasked(op')
            && Select(Eval(op', env, []), ps.All(), env) == Select(Eval(op, env, []), ps.All(), env)
    decreases op, 0
  {
    ChildPushed(op.child, zoneMap, env);
    HintedExtend(op, Visited(op, ps, zoneMap), ps.All(), env);
  }

  /** An operator that stops the push-down, with children that have the same rows. */
  ghost predicate SameBelow(op: Plan, op': Plan, env: Env) {
    match op
    case HashJoin(conds, k, l, r, sip) =>
      && op'.HashJoin? && op'.conditions == conds && op'.kind == k && op'.sip == sip
      && SameAs(l, op'.probe, env) && SameAs(r, op'.build, env)
    case Accumulate(t, c) => op'.Accumulate? && op'.collect == t && SameAs(c, op'.child, env)
    case SemiMasker(k, c) => op'.SemiMasker? && op'.maskKey == k && SameAs(c, op'.child, env)
    case EmptyResult(_) => op' == op
    case Other(o, cs, children) =>
      && op'.Other? && op'.operator == o && op'.columns == cs && |op'.children| == |children|
      && forall i :: 0 <= i < |children| ==> SameAs(children[i], op'.children[i], env)
    case _ => false
  }

  lemma SameChildren(op: Plan, op': Plan, env: Env)
    requires Valid(op, env) && Unmasked(op) && SameBelow(op, op', env)
    ensures SameAs(op, op', env)
  {
    if op.Other? { EvalChildrenSame(op'.children, op.children, env); }
  }

  /** Below an operator that stops the push-down each child keeps its rows. */
  lemma ChildrenVisited(op: Plan, ps: PredicateSet, zoneMap: bool, env: Env)
    requires Visitable(op, ps, env) && Kept(op, ps, env)
    requires op.HashJoin? || op.Accumulate? || op.SemiMasker? || op.EmptyResult? || op.Other?
    ensures SameAs(op, Visited(op, ps, zoneMap), env)
    decreases op, 0
  {
    PlannedUnmasked(op);
    match op {
      case HashJoin(_, _, l, r, _) =>
        ChildPushed(l, zoneMap, env);
        ChildPushed(r, zoneMap, env);
      case Accumulate(_, c) => ChildPushed(c, zoneMap, env);
      case SemiMasker(_, c) => ChildPushed(c, zoneMap, env);
      case EmptyResult(_) =>
      case Other(_, _, children) =>
        PushDownAllAt(children, zoneMap);
        forall i | 0 <= i < |children| ensures SameAs(children[i], PushDown(children[i], NoPredicates, zoneMap), env) {
          ChildPushed(children[i], zoneMap, env);
        }
    }
    SameChildren(op, Visited(op, ps, zoneMap), env);
  }

  lemma {:induction false} PushDownAllAt(ps: seq<Plan>, zoneMap: bool)
    ensures |PushDownAll(ps, zoneMap)| == |ps|
    ensures forall i :: 0 <= i < |ps| ==> PushDownAll(ps, zoneMap)[i] == PushDown(ps[i], NoPredicates, zoneMap)
  {
    if ps != [] { PushDownAllAt(ps[..|ps| - 1], zoneMap); }
  }

  /** Everything below the first product of the plan, if filters lead to it, is kept. */
  ghost predicate BelowKept(op: Plan, ps: PredicateSet, env: Env) {
    match op
    case Filter(e, c) => NeverTrue(e) || BelowKept(c, Below(e, ps), env)
    case CrossProduct(_, _, _) => SidesKept(op, ps, env)
    case _ => Kept(op, ps, env)
  }

  /** For a product directly below filters, whatever its kind and mark, the condition of the main theorem is exact. */
  lemma {:induction false} FirstProductExactly(op: Plan, ps: PredicateSet, zoneMap: bool, env: Env)
    requires Visitable(op, ps, env) && BelowKept(op, ps, env)
    ensures Pushed(op, ps.All(), PushDown(op, ps, zoneMap), env) <==> Kept(op, ps, env)
  {
    if op.Filter? && !NeverTrue(op.condition) {
      BelowOk(op.condition, ps, Schema(op));
      FirstProductExactly(op.child, Below(op.condition, ps), zoneMap, env);
      FilterSelects(op, ps, env);
    } else if op.CrossProduct? {
      ProductSidesPushed(op, ps, zoneMap, env);
      ProductExactly(op, ps, Visited(op, ps, zoneMap), env);
    } else {
      PushDownKeepsRows(op, ps, zoneMap, env);
    }
  }

  /* ----- the plan that is left in place ----- */

  /** What the optimizer needs of a root, which it cannot replace. */
  ghost predicate KeptInPlace(op: Plan, ps: PredicateSet, env: Env) {
    match op
    case Filter(e, c) => NeverTrue(e) || KeptInPlace(c, Below(e, ps), env)
    case CrossProduct(_, _, _) => SidesKept(op, ps, env) && NullRowHarmless(op, ps, env)
    case _ => Kept(op, ps, env)
  }

  /** A visited operator, left where it is below the filters the predicates came from, selects the same rows. */
  lemma {:induction false} VisitedKeepsRows(op: Plan, ps: PredicateSet, zoneMap: bool, env: Env)
    requires Visitable(op, ps, env) && KeptInPlace(op, ps, env)
    ensures Schema(Visited(op, ps, zoneMap)) == Schema(op)
    ensures Select(Eval(Visited(op, ps, zoneMap), env, []), ps.All(), env) == Select(Eval(op, env, []), ps.All(), env)
  {
    var op' := Visited(op, ps, zoneMap);
    match op
    case Filter(e, c) =>
      if !NeverTrue(e) {
        BelowOk(e, ps, Schema(op));
        VisitedKeepsRows(c, Below(e, ps), zoneMap, env);
        FilterSelects(op, ps, env);
        FilterSelects(op', ps, env);
      }
    case CrossProduct(_, _, _) =>
      ProductSidesPushed(op, ps, zoneMap, env);
      ProductInPlace(op, ps, op', env);
    case ScanNodeTable(s) =>
      ScanVisited(s, ps, zoneMap, env);
      ScanAbove(s, ps, env);
      SelectAgain(Eval(op', env, []), Eval(op, env, []), AboveScan(s, ps).All(), ps.All(), env);
    case TableFunctionCall(_, _, _) => CallVisited(op, ps, zoneMap, env);
    case Extend(_, _, _, _, _) => ExtendVisited(op, ps, zoneMap, env);
    case _ => ChildrenVisited(op, ps, zoneMap, env);
  }

  lemma ScanAbove(s: Scan, ps: PredicateSet, env: Env)
    ensures forall row :: AllHold(ps.All(), row, env) ==> AllHold(AboveScan(s, ps).All(), row, env)
  {
    forall row | AllHold(ps.All(), row, env) ensures AllHold(AboveScan(s, ps).All(), row, env) {
      if KeyComparison(s, ps).Some? {
        PopSplits(ps, s.nodeID, row, env);
        PutBackHolds(Popped(ps, s.nodeID).1, KeyComparison(s, ps).value, row, env);
      }
    }
  }

  lemma SelectAgain(a: seq<Row>, b: seq<Row>, weak: seq<Expr>, strong: seq<Expr>, env: Env)
    requires Select(a, weak, env) == Select(b, strong, env)
    requires forall row :: AllHold(strong, row, env) ==> AllHold(weak, row, env)
    ensures Select(a, strong, env) == Select(b, strong, env)
  {
    SelectSelect(a, weak, strong, env);
    SelectSelect(b, strong, strong, env);
    forall row ensures AllHold(weak + strong, row, env) <==> AllHold(strong, row, env) {
      AllHoldConcat(weak, strong, row, env);
    }
    forall row ensures AllHold(strong + strong, row, env) <==> AllHold(strong, row, env) {
      AllHoldConcat(strong, strong, row, env);
    }
    SelectSame(a, weak + strong, strong, env);
    SelectSame(b, strong + strong, strong, env);
  }

  /** The plan that `rewrite` leaves in place has the rows of the plan it was given. */
  lemma RewriteKeepsRows(plan: Plan, zoneMap: bool, env: Env)
    requires ValidEnv(env) && Valid(plan, env) && Planned(plan) && KeptInPlace(plan, NoPredicates, env)
    ensures Schema(Visited(plan, NoPredicates, zoneMap)) == Schema(plan)
    ensures Eval(Visited(plan, NoPredicates, zoneMap), env, []) == Eval(plan, env, [])
  {
    VisitedKeepsRows(plan, NoPredicates, zoneMap, env);
    assert NoPredicates.All() == [];
    SelectNothing(Eval(plan, env, []), env);
    SelectNothing(Eval(Visited(plan, NoPredicates, zoneMap), env, []), env);
  }

  /** Where replacing the operator is safe, so is leaving it. */
  lemma {:induction false} KeptStaysInPlace(op: Plan, ps: PredicateSet, env: Env)
    requires Visitable(op, ps, env) && Kept(op, ps, env)
    ensures KeptInPlace(op, ps, env)
  {
    if op.CrossProduct? && Joins(op, ps) { JoinedHarmless(op, ps, env); }
    if op.Filter? && !NeverTrue(op.condition) {
      BelowOk(op.condition, ps, Schema(op));
      KeptStaysInPlace(op.child, Below(op.condition, ps), env);
    }
  }
}
