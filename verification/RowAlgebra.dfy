/**
  Laws of predicates and rows: what a selection, a product and a join do to sequences of rows.
 */
module RowAlgebra {
  import opened Options
  import opened Plans

  ghost predicate Reads(es: seq<Expr>, schema: set<Column>) {
    forall i :: 0 <= i < |es| ==> ColumnsOf(es[i]) <= schema
  }

  /* ----- predicate lists ----- */

  lemma AllHoldConcat(a: seq<Expr>, b: seq<Expr>, row: Row, env: Env)
    ensures AllHold(a + b, row, env) <==> AllHold(a, row, env) && AllHold(b, row, env)
  {
    if AllHold(a + b, row, env) {
      assert forall i :: 0 <= i < |a| ==> a[i] == (a + b)[i];
      assert forall i :: 0 <= i < |b| ==> b[i] == (a + b)[|a| + i];
    }
  }

  /** Only which predicates are in the list matters. */
  lemma AllHoldMultiset(a: seq<Expr>, b: seq<Expr>, row: Row, env: Env)
    requires forall e :: e in multiset(a) <==> e in multiset(b)
    ensures AllHold(a, row, env) <==> AllHold(b, row, env)
  {
    assert forall i :: 0 <= i < |a| ==> a[i] in multiset(a);
    assert forall i :: 0 <= i < |b| ==> b[i] in multiset(b);
  }

  lemma AllHoldAgree(es: seq<Expr>, r: Row, r': Row, cs: set<Column>, env: Env)
    requires Reads(es, cs) && Agree(r, r', cs)
    ensures AllHold(es, r, env) <==> AllHold(es, r', env)
  {
    forall i | 0 <= i < |es| ensures Holds(es[i], r, env) <==> Holds(es[i], r', env) {
      EvalExprAgree(es[i], r, r', env);
    }
  }

  lemma AllHoldOne(p: Expr, row: Row, env: Env)
    ensures AllHold([p], row, env) <==> Holds(p, row, env)
  {
    assert Holds([p][0], row, env) <==> Holds(p, row, env);
  }

  /* ----- row domains ----- */

  lemma MergeDomain(l: Row, rs: seq<Row>, lc: set<Column>, rc: set<Column>)
    requires l.Keys == lc && RowsHave(rs, rc)
    ensures RowsHave(Merge(l, rs), lc + rc)
  {
    if rs != [] { MergeDomain(l, rs[1..], lc, rc); }
  }

  lemma CrossDomain(ls: seq<Row>, rs: seq<Row>, lc: set<Column>, rc: set<Column>)
    requires RowsHave(ls, lc) && RowsHave(rs, rc)
    ensures RowsHave(Cross(ls, rs), lc + rc)
  {
    if ls != [] {
      MergeDomain(ls[0], rs, lc, rc);
      CrossDomain(ls[1..], rs, lc, rc);
    }
  }

  lemma KeepDomain(rows: seq<Row>, f: Row -> bool, cs: set<Column>)
    requires RowsHave(rows, cs)
    ensures RowsHave(Keep(rows, f), cs)
  {
    if rows != [] { KeepDomain(rows[1..], f, cs); }
  }

  lemma {:induction false} WithMarksDomain(m: Option<Column>, b: bool, rows: seq<Row>, cs: set<Column>)
    requires RowsHave(rows, cs)
    ensures RowsHave(WithMarks(m, b, rows), cs + MarkColumns(m))
  {
    if rows != [] { WithMarksDomain(m, b, rows[1..], cs); }
  }

  lemma CollectedDomain(t: AccumulateType, rows: seq<Row>, cs: set<Column>)
    requires RowsHave(rows, cs)
    ensures RowsHave(Collected(t, rows, cs), cs + Marks(t))
  {
    if t.Optional? { WithMarksDomain(t.any, true, rows, cs); }
  }

  lemma JoinRowDomain(k: JoinKind, l: Row, matched: seq<Row>, lc: set<Column>, rc: set<Column>)
    requires l.Keys == lc && RowsHave(matched, rc)
    ensures RowsHave(JoinRow(k, l, matched, rc), JoinColumns(k, lc, rc))
  {
    MergeDomain(l, matched, lc, rc);
    if k.Left? {
      var rows := if matched == [] then [NullRow(rc) + l] else Merge(l, matched);
      assert (NullRow(rc) + l).Keys == lc + rc;
      WithMarksDomain(k.found, matched != [], rows, lc + rc);
    }
  }

  lemma {:induction false} JoinDomain(conds: JoinConditions, k: JoinKind, ls: seq<Row>, rs: seq<Row>,
                                      lc: set<Column>, rc: set<Column>, env: Env)
    requires RowsHave(ls, lc) && RowsHave(rs, rc)
    ensures RowsHave(Join(conds, k, ls, rs, rc, env), JoinColumns(k, lc, rc))
  {
    if ls != [] {
      KeepDomain(rs, r => Matches(conds, ls[0], r, env), rc);
      JoinRowDomain(k, ls[0], MatchesOf(conds, ls[0], rs, env), lc, rc);
      JoinDomain(conds, k, ls[1..], rs, lc, rc, env);
    }
  }

  lemma ExpandDomain(rows: seq<Row>, x: nat, added: set<Column>, cs: set<Column>, env: Env)
    requires ValidEnv(env) && RowsHave(rows, cs)
    ensures RowsHave(Expand(rows, x, added, env), cs + added)
  {
    if rows != [] {
      MergeDomain(rows[0], env.extend(x, added, rows[0]), cs, added);
      ExpandDomain(rows[1..], x, added, cs, env);
    }
  }

  lemma RowsOfDomain(s: Scan, recs: seq<Record>)
    ensures RowsHave(RowsOf(s, recs), Schema(ScanNodeTable(s)))
  {
    if recs != [] {
      RowsOfDomain(s, recs[1..]);
      assert RowOf(s, recs[0]).Keys == Schema(ScanNodeTable(s));
    }
  }

  /** Every row of a plan has exactly the plan's columns. */
  lemma EvalDomain(p: Plan, env: Env, masks: seq<Mask>)
    requires ValidEnv(env) && Valid(p, env)
    ensures RowsHave(Eval(p, env, masks), Schema(p))
  {
    match p
    case ScanNodeTable(s) =>
      RowsOfDomain(s, env.records(s.tables));
      KeepDomain(RowsOf(s, env.records(s.tables)), row => !env.skips(s.hints, row), Schema(p));
      KeepDomain(Unskipped(RowsOf(s, env.records(s.tables)), s.hints, env),
                 row => env.admits(s, masks, row), Schema(p));
      if s.key.Some? {
        var recs := Lookup(env.records(s.tables), env.primaryKey(s.tables[0]), EvalExpr(s.key.value, map[], env));
        RowsOfDomain(s, recs);
        KeepDomain(RowsOf(s, recs), row => !env.skips(s.hints, row), Schema(p));
      }
    case TableFunctionCall(f, cs, hints) =>
      KeepDomain(env.call(f, cs), row => !env.skips(hints, row), cs);
    case Extend(x, cs, _, hints, c) =>
      EvalDomain(c, env, masks);
      ExpandDomain(Eval(c, env, masks), x, cs, Schema(c), env);
      KeepDomain(Expand(Eval(c, env, masks), x, cs, env), row => !env.skips(hints, row), Schema(p));
    case Filter(e, c) =>
      EvalDomain(c, env, masks);
      KeepDomain(Eval(c, env, masks), row => Holds(e, row, env), Schema(c));
    case CrossProduct(t, l, r) =>
      EvalDomain(l, env, masks);
      EvalDomain(r, env, masks);
      CollectedDomain(t, Eval(r, env, masks), Schema(r));
      CrossDomain(Eval(l, env, masks), Collected(t, Eval(r, env, masks), Schema(r)), Schema(l), Schema(r) + Marks(t));
    case HashJoin(conds, k, l, r, sip) =>
      var ml := if sip.position.OnBuild? then masks + Collect(MaskKeys(r), Eval(r, env, masks)) else masks;
      var mr := if sip.position.OnProbe? then masks + Collect(MaskKeys(l), Eval(l, env, masks)) else masks;
      EvalDomain(l, env, ml);
      EvalDomain(r, env, mr);
      JoinDomain(conds, k, Eval(l, env, ml), Eval(r, env, mr), Schema(l), Schema(r), env);
    case Accumulate(t, c) =>
      EvalDomain(c, env, masks);
      CollectedDomain(t, Eval(c, env, masks), Schema(c));
    case SemiMasker(_, c) => EvalDomain(c, env, masks);
    case EmptyResult(_) =>
    case Other(_, _, _) =>
  }

  /* ----- the algebra of pushing a filter ----- */

  /**
    Splitting over a product: a test that factors into a left part, a right part and a rest
    can be applied as two filters below the product and one above it.
   */
  lemma {:induction false} KeepCross(ls: seq<Row>, rs: seq<Row>, f: Row -> bool,
                                     fl: Row -> bool, fr: Row -> bool, g: Row -> bool)
    requires forall l, r :: l in ls && r in rs ==> f(l + r) == (fl(l) && fr(r) && g(l + r))
    ensures Keep(Cross(ls, rs), f) == Keep(Cross(Keep(ls, fl), Keep(rs, fr)), g)
  {
    if ls != [] {
      var l := ls[0];
      KeepCross(ls[1..], rs, f, fl, fr, g);
      KeepConcat(Merge(l, rs), Cross(ls[1..], rs), f);
      if fl(l) {
        KeepConcat(Merge(l, Keep(rs, fr)), Cross(Keep(ls[1..], fl), Keep(rs, fr)), g);
        KeepMergeBoth(l, rs, f, fr, g);
        assert ([l] + Keep(ls[1..], fl))[1..] == Keep(ls[1..], fl);
      } else {
        forall row | row in Merge(l, rs) ensures !f(row) { MergeMember(l, rs, row); }
        KeepNone(Merge(l, rs), f);
      }
    }
  }

  lemma {:induction false} KeepMergeBoth(l: Row, rs: seq<Row>, f: Row -> bool, fr: Row -> bool, g: Row -> bool)
    requires forall r :: r in rs ==> f(l + r) == (fr(r) && g(l + r))
    ensures Keep(Merge(l, rs), f) == Keep(Merge(l, Keep(rs, fr)), g)
  {
    KeepMerge(l, rs, f, r => fr(r) && g(l + r));
    KeepMerge(l, Keep(rs, fr), g, r => g(l + r));
    KeepKeep(rs, fr, r => g(l + r));
    KeepSame(rs, r => fr(r) && (r' => g(l + r'))(r), r => fr(r) && g(l + r));
  }

  /* ----- products, members and marks ----- */

  lemma {:induction false} MergeHas(l: Row, rs: seq<Row>, r: Row)
    requires r in rs
    ensures l + r in Merge(l, rs)
  {
    if r != rs[0] { MergeHas(l, rs[1..], r); }
  }

  lemma {:induction false} CrossHas(ls: seq<Row>, rs: seq<Row>, l: Row, r: Row)
    requires l in ls && r in rs
    ensures l + r in Cross(ls, rs)
  {
    if l == ls[0] { MergeHas(l, rs, r); } else { CrossHas(ls[1..], rs, l, r); }
  }

  lemma {:induction false} CrossMember(ls: seq<Row>, rs: seq<Row>, row: Row)
    requires row in Cross(ls, rs)
    ensures exists l, r :: l in ls && r in rs && row == l + r
  {
    if row in Merge(ls[0], rs) {
      MergeMember(ls[0], rs, row);
      var r :| r in rs && row == ls[0] + r;
      assert ls[0] in ls;
    } else {
      CrossMember(ls[1..], rs, row);
      var l, r :| l in ls[1..] && r in rs && row == l + r;
      assert l in ls;
    }
  }

  lemma CrossNothing(ls: seq<Row>)
    ensures Cross(ls, []) == []
  {
    if ls != [] { CrossNothing(ls[1..]); }
  }

  /** Without a mark column nothing is marked. */
  lemma {:induction false} NoMark(b: bool, rows: seq<Row>)
    ensures WithMarks(None, b, rows) == rows
  {
    if rows != [] { NoMark(b, rows[1..]); }
  }

  lemma {:induction false} WithMarksMember(m: Option<Column>, b: bool, rows: seq<Row>, row: Row)
    requires row in WithMarks(m, b, rows)
    ensures exists r :: r in rows && row == WithMark(m, b, r)
  {
    if row == WithMark(m, b, rows[0]) { assert rows[0] in rows; } else {
      WithMarksMember(m, b, rows[1..], row);
      var r :| r in rows[1..] && row == WithMark(m, b, r);
      assert r in rows;
    }
  }

  /** A test that does not look at the mark can be made before marking. */
  lemma {:induction false} KeepWithMarks(m: Option<Column>, b: bool, rows: seq<Row>, f: Row -> bool)
    requires forall row :: row in rows ==> f(WithMark(m, b, row)) == f(row)
    ensures Keep(WithMarks(m, b, rows), f) == WithMarks(m, b, Keep(rows, f))
  {
    if rows != [] {
      KeepWithMarks(m, b, rows[1..], f);
      assert ([WithMark(m, b, rows[0])] + WithMarks(m, b, rows[1..]))[1..] == WithMarks(m, b, rows[1..]);
      assert f(rows[0]) ==> ([rows[0]] + Keep(rows[1..], f))[1..] == Keep(rows[1..], f);
    }
  }

  lemma {:induction false} WithMarksConcat(m: Option<Column>, b: bool, xs: seq<Row>, ys: seq<Row>)
    ensures WithMarks(m, b, xs + ys) == WithMarks(m, b, xs) + WithMarks(m, b, ys)
  {
    if xs == [] {
      assert xs + ys == ys;
    } else {
      assert (xs + ys)[0] == xs[0] && (xs + ys)[1..] == xs[1..] + ys;
      WithMarksConcat(m, b, xs[1..], ys);
    }
  }

  lemma {:induction false} MergeMarked(l: Row, m: Option<Column>, b: bool, rs: seq<Row>)
    ensures Merge(l, WithMarks(m, b, rs)) == WithMarks(m, b, Merge(l, rs))
  {
    if rs != [] {
      MergeMarked(l, m, b, rs[1..]);
      assert l + WithMark(m, b, rs[0]) == WithMark(m, b, l + rs[0]);
      assert ([WithMark(m, b, rs[0])] + WithMarks(m, b, rs[1..]))[1..] == WithMarks(m, b, rs[1..]);
      assert ([l + rs[0]] + Merge(l, rs[1..]))[1..] == Merge(l, rs[1..]);
    }
  }

  /** Marking the build rows marks the rows of the product. */
  lemma {:induction false} CrossMarked(ls: seq<Row>, m: Option<Column>, b: bool, rs: seq<Row>)
    ensures Cross(ls, WithMarks(m, b, rs)) == WithMarks(m, b, Cross(ls, rs))
  {
    if ls != [] {
      CrossMarked(ls[1..], m, b, rs);
      MergeMarked(ls[0], m, b, rs);
      WithMarksConcat(m, b, Merge(ls[0], rs), Cross(ls[1..], rs));
    }
  }

  /* ----- scans ----- */

  /** A zone map that skips only failing rows is invisible below the filter it came from. */
  lemma UnskippedSelect(rows: seq<Row>, hints: seq<Expr>, f: Row -> bool, env: Env)
    requires ValidEnv(env)
    requires forall row :: row in rows && f(row) ==> AllHold(hints, row, env)
    ensures Keep(Unskipped(rows, hints, env), f) == Keep(rows, f)
  {
    KeepKeep(rows, row => !env.skips(hints, row), f);
    KeepSame(rows, row => (r => !env.skips(hints, r))(row) && f(row), f);
  }

  lemma UnskippedNothing(rows: seq<Row>, env: Env)
    requires ValidEnv(env)
    ensures Unskipped(rows, [], env) == rows
  {
    forall row | row in rows ensures !env.skips([], row) { assert AllHold([], row, env); }
    KeepAll(rows, row => !env.skips([], row));
  }

  /**
    The index lookup returns the whole selection on the primary key, because a key value is
    stored at most once.
   */
  lemma {:induction false} LookupIsSelection(s: Scan, recs: seq<Record>, c: Column, pk: string,
                                             key: Value, f: Row -> bool)
    requires UniqueKeys(recs, pk) && c in s.properties && c != s.nodeID && c.name == pk
    requires forall row :: f(row) == (SqlEquals(Get(row, c), key) == Bool(true))
    ensures Keep(RowsOf(s, recs), f) == RowsOf(s, Lookup(recs, pk, key))
  {
    if recs != [] {
      assert Get(RowOf(s, recs[0]), c) == Field(recs[0], pk);
      if SqlEquals(Field(recs[0], pk), key) == Bool(true) {
        forall i | 0 <= i < |recs[1..]| ensures Field(recs[1..][i], pk) != key {
          assert recs[1..][i] == recs[i + 1];
        }
        NoneFound(s, recs[1..], c, pk, key, f);
        assert Lookup(recs, pk, key) == [recs[0]];
        assert RowsOf(s, [recs[0]]) == [RowOf(s, recs[0])];
      } else {
        assert UniqueKeys(recs[1..], pk);
        LookupIsSelection(s, recs[1..], c, pk, key, f);
      }
    }
  }

  lemma NoneFound(s: Scan, recs: seq<Record>, c: Column, pk: string, key: Value, f: Row -> bool)
    requires c in s.properties && c != s.nodeID && c.name == pk
    requires forall i :: 0 <= i < |recs| ==> Field(recs[i], pk) != key
    requires forall row :: f(row) == (SqlEquals(Get(row, c), key) == Bool(true))
    ensures Keep(RowsOf(s, recs), f) == []
  {
    if recs != [] {
      assert Get(RowOf(s, recs[0]), c) == Field(recs[0], pk);
      NoneFound(s, recs[1..], c, pk, key, f);
    }
  }

  /* ----- selections ----- */

  lemma SelectNothing(rows: seq<Row>, env: Env)
    ensures Select(rows, [], env) == rows
  {
    KeepAll(rows, row => AllHold([], row, env));
  }

  lemma SelectSame(rows: seq<Row>, a: seq<Expr>, b: seq<Expr>, env: Env)
    requires forall row :: row in rows ==> (AllHold(a, row, env) <==> AllHold(b, row, env))
    ensures Select(rows, a, env) == Select(rows, b, env)
  {
    KeepSame(rows, row => AllHold(a, row, env), row => AllHold(b, row, env));
  }

  lemma SelectSelect(rows: seq<Row>, a: seq<Expr>, b: seq<Expr>, env: Env)
    ensures Select(Select(rows, a, env), b, env) == Select(rows, a + b, env)
  {
    KeepKeep(rows, row => AllHold(a, row, env), row => AllHold(b, row, env));
    forall row | row in rows
      ensures AllHold(a + b, row, env) == (AllHold(a, row, env) && AllHold(b, row, env))
    {
      AllHoldConcat(a, b, row, env);
    }
    KeepSame(rows, row => (r => AllHold(a, r, env))(row) && (r => AllHold(b, r, env))(row),
             row => AllHold(a + b, row, env));
  }

  lemma FilterIsSelect(e: Expr, c: Plan, env: Env)
    ensures Eval(Filter(e, c), env, []) == Select(Eval(c, env, []), [e], env)
  {
    var rows := Eval(c, env, []);
    forall row | row in rows ensures Holds(e, row, env) == AllHold([e], row, env) { AllHoldOne(e, row, env); }
    KeepSame(rows, row => Holds(e, row, env), row => AllHold([e], row, env));
  }

  lemma EvalChildrenSame(ps: seq<Plan>, qs: seq<Plan>, env: Env)
    requires |ps| == |qs|
    requires forall i :: 0 <= i < |ps| ==> Eval(ps[i], env, []) == Eval(qs[i], env, [])
    ensures EvalChildren(ps, env, []) == EvalChildren(qs, env, [])
  {
    if ps != [] { EvalChildrenSame(ps[1..], qs[1..], env); }
  }

  lemma SameRows(s: Scan, s': Scan, recs: seq<Record>)
    requires s.nodeID == s'.nodeID && s.properties == s'.properties
    ensures RowsOf(s, recs) == RowsOf(s', recs)
  {
    if recs != [] {
      SameRows(s, s', recs[1..]);
      assert RowOf(s, recs[0]) == RowOf(s', recs[0]);
    }
  }

  lemma {:induction false} JoinThenRest(conds: JoinConditions, ls: seq<Row>, rs: seq<Row>, rc: set<Column>,
                                        equalities: seq<Expr>, rest: seq<Expr>, env: Env)
    requires forall a, b :: a in ls && b in rs ==>
               (AllHold(equalities, a + b, env) <==> Matches(conds, a, b, env) && AllHold(rest, a + b, env))
    ensures Select(Cross(ls, rs), equalities, env) == Select(Join(conds, Inner, ls, rs, rc, env), rest, env)
  {
    if ls != [] {
      var l := ls[0];
      JoinThenRest(conds, ls[1..], rs, rc, equalities, rest, env);
      KeepConcat(Merge(l, rs), Cross(ls[1..], rs), row => AllHold(equalities, row, env));
      KeepConcat(Merge(l, MatchesOf(conds, l, rs, env)), Join(conds, Inner, ls[1..], rs, rc, env),
                 row => AllHold(rest, row, env));
      KeepMergeBoth(l, rs, row => AllHold(equalities, row, env), r => Matches(conds, l, r, env),
                    row => AllHold(rest, row, env));
    }
  }

  lemma MatchesSnoc(conds: JoinConditions, c: (Expr, Expr), l: Row, r: Row, env: Env)
    ensures Matches(conds + [c], l, r, env) <==>
            Matches(conds, l, r, env) && SqlEquals(EvalExpr(c.0, l, env), EvalExpr(c.1, r, env)) == Bool(true)
  {
    var all := conds + [c];
    assert all[|conds|] == c;
    assert forall i :: 0 <= i < |conds| ==> all[i] == conds[i];
  }
}
