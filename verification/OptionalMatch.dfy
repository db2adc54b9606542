/**
  `MATCH (a:A) OPTIONAL MATCH (b:B) MATCH (c:C) WHERE b.x IS NULL` over one node per table, with
  x = 5 on the node of B. The push-down takes the filter below the optional product, where it
  empties the build side; the row of NULLs that takes its place then satisfies the filter.
 */
module OptionalMatch {
  import opened Options
  import opened Plans
  import opened RowAlgebra
  import opened FilterPushDown
  import opened PushDownRows
  import opened PushDownExact

  const A := Column("a", "_ID", false, true)
  const B := Column("b", "_ID", false, true)
  const C := Column("c", "_ID", false, true)
  const X := Column("b", "x", false, false)

  function ScanOf(id: Column, table: nat, properties: seq<Column>): Plan {
    ScanNodeTable(Scan(id, [table], properties, [], None))
  }

  const ScanA := ScanOf(A, 0, [])
  const ScanB := ScanOf(B, 1, [X])
  const ScanC := ScanOf(C, 2, [])
  const Matched := CrossProduct(Optional(None), ScanA, ScanB)
  const IsNull := Function("IS_NULL", [Property(X)])
  const Query := Filter(IsNull, CrossProduct(Regular, Matched, ScanC))
  const Wanted := PredicateSet([], [IsNull])

  function OneNodeEach(): Env {
    Env(ts => [Record(Datum(1), map["x" := Datum(5)])],
        t => "id",
        p => Null,
        (f, vs: seq<Value>) => if f == "IS_NULL" && |vs| == 1 then Bool(vs[0] == Null) else Null,
        (t, v) => v,
        (f, cs) => [],
        (x, cs, row) => [],
        (o, cs, inputs) => [],
        (hints, row) => false,
        (s: Scan, masks: seq<Mask>, row: Row) => true)
  }

  const RowA: Row := map[A := Datum(1)]
  const RowB: Row := map[B := Datum(1), X := Datum(5)]
  const RowC: Row := map[C := Datum(1)]
  const Nulls: Row := map[B := Null, X := Null]

  lemma IsNullHolds(row: Row, env: Env)
    requires env == OneNodeEach()
    ensures Holds(IsNull, row, env) <==> Get(row, X) == Null
    ensures AllHold([IsNull], row, env) <==> Get(row, X) == Null
  {
    assert EvalArgs([Property(X)], row, env) == [Get(row, X)] by {
      assert [Property(X)][1..] == [];
    }
    AllHoldOne(IsNull, row, env);
  }

  const Node := Record(Datum(1), map["x" := Datum(5)])

  lemma ScanOne(s: Scan, env: Env)
    requires env == OneNodeEach() && s.key.None?
    ensures Eval(ScanNodeTable(s), env, []) == [RowOf(s, Node)]
  {
    assert RowsOf(s, [Node]) == [RowOf(s, Node)] by { assert [Node][1..] == []; }
    KeepAll([RowOf(s, Node)], row => !env.skips(s.hints, row));
    KeepAll([RowOf(s, Node)], row => env.admits(s, [], row));
  }

  lemma RowsOfScans(hints: seq<Expr>)
    ensures RowOf(Scan(A, [0], [], hints, None), Node) == RowA
    ensures RowOf(Scan(B, [1], [X], hints, None), Node) == RowB
    ensures RowOf(Scan(C, [2], [], hints, None), Node) == RowC
  {
    assert RowOf(Scan(B, [1], [X], hints, None), Node).Keys == {B, X};
  }

  lemma CrossOne(l: Row, r: Row)
    ensures Cross([l], [r]) == [l + r]
  {
    assert [l][1..] == [] && [r][1..] == [];
    assert Merge(l, [r]) == [l + r];
    assert Cross([l][1..], [r]) == [];
  }

  lemma ProductOf(l: Plan, r: Plan, a: Row, b: Row, env: Env)
    requires Eval(l, env, []) == [a] && Eval(r, env, []) == [b]
    ensures Eval(CrossProduct(Regular, l, r), env, []) == [a + b]
    ensures Eval(CrossProduct(Optional(None), l, r), env, []) == [a + b]
  {
    NoMark(true, [b]);
    CrossOne(a, b);
  }

  lemma ProductOfNothing(l: Plan, r: Plan, a: Row, env: Env)
    requires Eval(l, env, []) == [a] && Eval(r, env, []) == []
    ensures Eval(CrossProduct(Optional(None), l, r), env, []) == [a + NullRow(Schema(r))]
  {
    CrossOne(a, NullRow(Schema(r)));
  }

  /* ----- where the filter goes ----- */

  lemma PickOne(e: Expr, f: Expr -> bool)
    ensures Pick([e], f) == if f(e) then [e] else []
  {
    assert [e][..0] == [];
  }

  lemma SetOfOne()
    ensures SetOf([IsNull]) == Wanted && SetOf([]) == NoPredicates
    ensures Wanted.All() == [IsNull] && NoPredicates.All() == []
    ensures Below(IsNull, NoPredicates) == Wanted
  {
    var es := [IsNull];
    assert es[..|es| - 1] == [] && es[|es| - 1] == IsNull;
    assert SetOf(es) == SetOf([]).Add(IsNull);
  }

  lemma IsNullEvaluable(schema: set<Column>)
    ensures Evaluable(IsNull, schema) <==> X in schema
  {
    var args := [Property(X)];
    assert args[1..] == [] && IsNull == Function("IS_NULL", args);
    assert AllEvaluable(args, schema) <==> Evaluable(args[0], schema) && AllEvaluable(args[1..], schema);
  }

  /** The filter goes to the side that has x. */
  lemma Sides(here: set<Column>, there: set<Column>)
    requires X in here && X !in there
    ensures Only([IsNull], here, there) == [IsNull] && Only([IsNull], there, here) == []
    ensures Undecided([IsNull], here, there) == [] && Undecided([IsNull], there, here) == []
  {
    IsNullEvaluable(here);
    IsNullEvaluable(there);
    PickOne(IsNull, e => Evaluable(e, here) && !Evaluable(e, there));
    PickOne(IsNull, e => Evaluable(e, there) && !Evaluable(e, here));
    PickOne(IsNull, e => Evaluable(e, here) == Evaluable(e, there));
    PickOne(IsNull, e => Evaluable(e, there) == Evaluable(e, here));
  }

  const Outer := CrossProduct(Regular, Matched, ScanC)

  /* ----- rows ----- */

  lemma FilterOne(row: Row, c: Plan, env: Env)
    requires env == OneNodeEach() && Eval(c, env, []) == [row]
    ensures Eval(Filter(IsNull, c), env, []) == if Get(row, X) == Null then [row] else []
  {
    IsNullHolds(row, env);
    if Get(row, X) == Null {
      KeepAll([row], r => Holds(IsNull, r, env));
    } else {
      KeepNone([row], r => Holds(IsNull, r, env));
    }
  }

  lemma ScansYield(env: Env)
    requires env == OneNodeEach()
    ensures Eval(ScanA, env, []) == [RowA] && Eval(ScanB, env, []) == [RowB] && Eval(ScanC, env, []) == [RowC]
  {
    RowsOfScans([]);
    ScanOne(Scan(A, [0], [], [], None), env);
    ScanOne(Scan(B, [1], [X], [], None), env);
    ScanOne(Scan(C, [2], [], [], None), env);
  }

  /** No row of B passes the filter. */
  lemma NoneWithoutX(env: Env)
    requires env == OneNodeEach()
    ensures Select(Eval(ScanB, env, []), [IsNull], env) == []
  {
    ScansYield(env);
    IsNullHolds(RowB, env);
    KeepNone([RowB], row => AllHold([IsNull], row, env));
  }

  const NulledMatched := CrossProduct(Optional(None), ScanA, EmptyResult({B, X}))
  const NulledQuery := Filter(IsNull, CrossProduct(Regular, NulledMatched, ScanC))

  lemma NullsAre()
    ensures NullRow({B, X}) == Nulls
  {
  }

  lemma FilteredProduct(l: Plan, r: Plan, a: Row, b: Row, env: Env)
    requires env == OneNodeEach() && Eval(l, env, []) == [a] && Eval(r, env, []) == [b] && Get(a + b, X) == Null
    ensures Eval(Filter(IsNull, CrossProduct(Regular, l, r)), env, []) == [a + b]
  {
    ProductOf(l, r, a, b, env);
    FilterOne(a + b, CrossProduct(Regular, l, r), env);
  }

  lemma NulledMatchedRows(env: Env)
    requires env == OneNodeEach()
    ensures Eval(NulledMatched, env, []) == [RowA + Nulls]
  {
    ScansYield(env);
    NullsAre();
    ProductOfNothing(ScanA, EmptyResult({B, X}), RowA, env);
  }

  lemma NulledRows(env: Env)
    requires env == OneNodeEach()
    ensures Eval(NulledQuery, env, []) == [RowA + Nulls + RowC]
  {
    ScansYield(env);
    NulledMatchedRows(env);
    FilteredProduct(NulledMatched, ScanC, RowA + Nulls, RowC, env);
  }

  /* ----- the parts of the products ----- */

  /** The filter goes to the side with x, and nothing joins the sides. */
  lemma PartsOf(op: Plan)
    requires op.CrossProduct? && (X in Schema(op.probe)) != (X in Schema(op.build))
    ensures ProbePart(op, Wanted) == if X in Schema(op.probe) then [IsNull] else []
    ensures BuildPart(op, Wanted) == if X in Schema(op.build) then [IsNull] else []
    ensures !Joins(op, Wanted)
  {
    SetOfOne();
    if X in Schema(op.probe) { Sides(Schema(op.probe), Schema(op.build)); } else { Sides(Schema(op.build), Schema(op.probe)); }
  }

  /** An optional product of scans is emptied when the filter empties its build side. */
  lemma OptionalNulled(l: Plan, r: Plan, env: Env)
    requires l.ScanNodeTable? && r.ScanNodeTable? && X !in Schema(l) && X in Schema(r)
    requires Eval(r, env, []) != [] && Select(Eval(r, env, []), [IsNull], env) == []
    ensures var op := CrossProduct(Optional(None), l, r);
            && Nulled(op, Wanted, env) == CrossProduct(Optional(None), l, EmptyResult(Schema(r)))
            && MarksKept(op, Wanted) && Emptied(op, Wanted, env)
  {
    var op := CrossProduct(Optional(None), l, r);
    PartsOf(op);
    assert MarksKept(l, SetOf(ProbePart(op, Wanted))) && MarksKept(r, SetOf(BuildPart(op, Wanted)));
    assert SideMarksKept(op, Wanted);
  }

  /** A product whose probe side is emptied is emptied. */
  lemma RegularNulled(l: Plan, r: Plan, env: Env)
    requires r.ScanNodeTable? && X in Schema(l) && X !in Schema(r) && MarksKept(l, Wanted) && Emptied(l, Wanted, env)
    ensures var op := CrossProduct(Regular, l, r);
            && Nulled(op, Wanted, env) == CrossProduct(Regular, Nulled(l, Wanted, env), r)
            && MarksKept(op, Wanted) && Emptied(op, Wanted, env)
  {
    var op := CrossProduct(Regular, l, r);
    PartsOf(op);
    SetOfOne();
    assert MarksKept(r, SetOf(BuildPart(op, Wanted)));
    assert SideMarksKept(op, Wanted);
  }

  lemma MatchedNulled(env: Env)
    requires env == OneNodeEach()
    ensures Nulled(Matched, Wanted, env) == NulledMatched && MarksKept(Matched, Wanted) && Emptied(Matched, Wanted, env)
    ensures X in Schema(Matched)
  {
    ScansYield(env);
    NoneWithoutX(env);
    assert Schema(ScanB) == {B, X};
    OptionalNulled(ScanA, ScanB, env);
  }

  lemma FilterNulled(c: Plan, env: Env)
    ensures var op := Filter(IsNull, c);
            && Nulled(op, NoPredicates, env) == Filter(IsNull, Nulled(c, Wanted, env))
            && MarksKept(op, NoPredicates) == MarksKept(c, Wanted)
            && Emptied(op, NoPredicates, env) == Emptied(c, Wanted, env)
  {
    SetOfOne();
  }

  lemma QueryNulled(env: Env)
    requires env == OneNodeEach()
    ensures Nulled(Query, NoPredicates, env) == NulledQuery
    ensures MarksKept(Query, NoPredicates) && Emptied(Query, NoPredicates, env)
  {
    MatchedNulled(env);
    RegularNulled(Matched, ScanC, env);
    FilterNulled(Outer, env);
  }

  lemma ScanValid(s: Scan, env: Env)
    requires env == OneNodeEach() && s.key.None? && !s.nodeID.isPrimaryKey
    requires forall c :: c in s.properties ==> c.variable == s.nodeID.variable && c != s.nodeID && !c.isPrimaryKey
    ensures Valid(ScanNodeTable(s), env)
  {
  }

  lemma IsNullReads()
    ensures ColumnsOf(IsNull) == {X}
  {
    var args := [Property(X)];
    assert args[1..] == [] && IsNull == Function("IS_NULL", args);
    assert ColumnsOfAll(args) == {X};
  }

  lemma MatchedValid(env: Env)
    requires env == OneNodeEach()
    ensures Valid(Matched, env) && Planned(Matched) && Schema(Matched) == {A, B, X}
  {
    ScanValid(ScanA.scan, env);
    ScanValid(ScanB.scan, env);
    assert Schema(ScanA) == {A} && Schema(ScanB) == {B, X};
  }

  lemma QueryValid(env: Env)
    requires env == OneNodeEach()
    ensures Valid(Query, env) && Planned(Query)
  {
    IsNullReads();
    MatchedValid(env);
    ScanValid(ScanC.scan, env);
    assert Schema(ScanC) == {C};
    assert Valid(Outer, env) && Planned(Outer);
  }

  lemma EnvValid(env: Env)
    requires env == OneNodeEach()
    ensures ValidEnv(env)
  {
  }

  /** The query has no rows and the rewritten query has one, made of NULLs where b should be. */
  lemma PushBelowOptionalAddsRows(zoneMap: bool, env: Env)
    requires env == OneNodeEach()
    ensures ValidEnv(env) && Valid(Query, env) && Planned(Query)
    ensures MarksKept(Query, NoPredicates) && Emptied(Query, NoPredicates, env)
    ensures Eval(Query, env, []) == []
    ensures Eval(PushDown(Query, NoPredicates, zoneMap), env, []) == [RowA + Nulls + RowC]
    ensures !Pushed(Query, [], PushDown(Query, NoPredicates, zoneMap), env)
  {
    EnvValid(env);
    QueryValid(env);
    QueryNulled(env);
    NulledRows(env);
    SetOfOne();
    SelectNothing(Eval(Query, env, []), env);
    SelectNothing(Eval(NulledQuery, env, []), env);
    EmptiedExactly(Query, NoPredicates, zoneMap, env);
    PushDownYields(Query, NoPredicates, zoneMap, env);
  }
}
