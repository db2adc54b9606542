/**
  Where the filter push-down puts predicates, said about the input and the output of a visit:
  every pending predicate goes down to the one side of each product it can be evaluated on, joins
  the two sides, fixes the key of a scan, or is applied on top, and nothing else is.
 */
module PushDownPlaces {
  import opened Options
  import opened Plans
  import opened FilterPushDown

  /** The operator below the filters on top of a plan, ... */
  function Base(p: Plan): Plan { if p.Filter? then Base(p.child) else p }

  /** ... and the conditions of these filters. */
  function Tops(p: Plan): set<Expr> { if p.Filter? then Tops(p.child) + {p.condition} else {} }

  function Elements(es: seq<Expr>): set<Expr> { set e | e in es }

  /** `e` can be evaluated on these columns and not on those. */
  predicate OnlyOn(e: Expr, here: set<Column>, there: set<Column>) { Evaluable(e, here) && !Evaluable(e, there) }

  function OnlyThese(es: set<Expr>, here: set<Column>, there: set<Column>): set<Expr> {
    set e | e in es && OnlyOn(e, here, there)
  }

  function Neither(es: set<Expr>, l: set<Column>, r: set<Column>): set<Expr> {
    set e | e in es && Evaluable(e, l) == Evaluable(e, r)
  }

  /** An equality of a column of the left and one of the right side, either way round. */
  predicate Connects(e: Expr, l: set<Column>, r: set<Column>) {
    && e.Equals? && e.left.Property? && e.right.Property?
    && ((e.left.column in l && e.right.column in r) || (e.right.column in l && e.left.column in r))
  }

  /** The two keys, that of the left side first. */
  function Keys(e: Expr, l: set<Column>, r: set<Column>): (Expr, Expr)
    requires Connects(e, l, r)
  {
    if e.left.column in l && e.right.column in r then (e.left, e.right) else (e.right, e.left)
  }

  function Connecting(es: set<Expr>, l: set<Column>, r: set<Column>): set<Expr> {
    set e | e in es && Connects(e, l, r)
  }

  ghost predicate KeysOfSome(c: (Expr, Expr), es: set<Expr>, l: set<Column>, r: set<Column>) {
    exists e :: e in es && Connects(e, l, r) && Keys(e, l, r) == c
  }

  /** A product of two optimized sides, or their join if a predicate connects them. */
  ghost predicate ProductPlaced(op: Plan, pending: set<Expr>, r: Plan)
    requires op.CrossProduct?
  {
    var base := Base(r);
    var rest := Neither(pending, Schema(op.probe), Schema(op.build));
    match base
    case CrossProduct(t, l', r') => t == op.collect && Connecting(rest, Schema(l'), Schema(r')) == {} && Tops(r) == pending
    case HashJoin(conds, kind, l', r', sip) =>
      var keys := Connecting(rest, Schema(l'), Schema(r'));
      && keys != {} && kind == Inner && sip.position.Prohibit?
      && (forall c :: c in conds <==> KeysOfSome(c, rest, Schema(l'), Schema(r')))
      && Tops(r) == rest - keys
    case _ => false
  }

  /** What `e` compares the primary key of the node with, if it does. */
  function KeyValue(e: Expr, nodeID: Column): Option<Expr> {
    if !e.Equals? then None
    else if e.left.Property? && e.left.column.variable == nodeID.variable && e.left.column.isPrimaryKey then Some(e.right)
    else if e.right.Property? && e.right.column.variable == nodeID.variable && e.right.column.isPrimaryKey then Some(e.left)
    else None
  }

  /** Literals and parameters, cast or not. */
  predicate Fixed(e: Expr) { e.Literal? || e.Parameter? || (e.Cast? && Fixed(e.child)) }

  /** The scan itself, up to hints and key. */
  predicate SameScan(s: Scan, s': Scan) { s'.(hints := s.hints, key := s.key) == s }

  /** All predicates are applied above the scan, but for one that fixes the key of its only table. */
  ghost predicate ScanPlaced(s: Scan, pending: set<Expr>, tops: set<Expr>, s': Scan, zoneMap: bool) {
    && SameScan(s, s')
    && (if zoneMap then Elements(s'.hints) == pending else s'.hints == s.hints)
    && (forall f :: f in tops ==> AmongSame(f, pending))
    && (forall e :: e in pending ==> AmongSame(e, tops) || FixesKey(e, s, s'))
    && (s'.key == s.key || exists e :: e in pending && FixesKey(e, s, s'))
    && (AllFixed(s, pending) ==> exists e :: e in pending && FixesKey(e, s, s'))
  }

  /** `e` is among `es`, or it is an equality and the same one the other way round is. */
  ghost predicate AmongSame(e: Expr, es: set<Expr>) {
    e in es || (e.Equals? && Equals(e.right, e.left) in es)
  }

  /** `e` gives the rewritten scan its key. */
  ghost predicate FixesKey(e: Expr, s: Scan, s': Scan) {
    |s.tables| == 1 && KeyValue(e, s.nodeID).Some? && Fixed(KeyValue(e, s.nodeID).value) && s'.key == KeyValue(e, s.nodeID)
  }

  /** Some predicates compare the primary key of the only table, all of them with something fixed. */
  ghost predicate AllFixed(s: Scan, pending: set<Expr>) {
    && |s.tables| == 1
    && (exists e :: e in pending && KeyValue(e, s.nodeID).Some?)
    && (forall e :: e in pending && KeyValue(e, s.nodeID).Some? ==> Fixed(KeyValue(e, s.nodeID).value))
  }

  /** `r` is `op` with the pending predicates and its own filters where they belong. */
  ghost predicate Optimized(op: Plan, pending: set<Expr>, r: Plan, zoneMap: bool)
    decreases op
  {
    var base := Base(r);
    match op
    case Filter(f, c) =>
      if f.Literal? && f.value != Bool(true) then r == EmptyResult(Schema(op))
      else Optimized(c, if f.Literal? then pending else pending + {f}, r, zoneMap)
    case CrossProduct(_, a, b) =>
      && ProductPlaced(op, pending, r)
      && Optimized(a, OnlyThese(pending, Schema(a), Schema(b)), base.probe, zoneMap)
      && Optimized(b, OnlyThese(pending, Schema(b), Schema(a)), base.build, zoneMap)
    case ScanNodeTable(s) => base.ScanNodeTable? && ScanPlaced(s, pending, Tops(r), base.scan, zoneMap)
    case TableFunctionCall(f, cs, _) =>
      && Tops(r) == pending
      && base.TableFunctionCall? && base.call == f && base.columns == cs && Elements(base.hints) == pending
    case Extend(x, cs, rec, hints, c) =>
      && Tops(r) == pending
      && base.Extend? && base.extension == x && base.added == cs && base.isRecursive == rec
      && (if rec || !zoneMap then base.hints == hints else Elements(base.hints) == pending)
      && Optimized(c, {}, base.child, zoneMap)
    case HashJoin(conds, k, a, b, sip) =>
      && Tops(r) == pending
      && base.HashJoin? && base.conditions == conds && base.kind == k && base.sip == sip
      && Optimized(a, {}, base.probe, zoneMap) && Optimized(b, {}, base.build, zoneMap)
    case Accumulate(t, c) =>
      Tops(r) == pending && base.Accumulate? && base.collect == t && Optimized(c, {}, base.child, zoneMap)
    case SemiMasker(k, c) =>
      Tops(r) == pending && base.SemiMasker? && base.maskKey == k && Optimized(c, {}, base.child, zoneMap)
    case EmptyResult(_) => Tops(r) == pending && base == op
    case Other(o, cs, children) =>
      && Tops(r) == pending
      && base.Other? && base.operator == o && base.columns == cs && |base.children| == |children|
      && forall i :: 0 <= i < |children| ==> Optimized(children[i], {}, base.children[i], zoneMap)
  }

  /* ----- stacks and selections ----- */

  lemma {:induction false} StackPlaces(es: seq<Expr>, c: Plan)
    requires !c.Filter?
    ensures Base(Stack(es, c)) == c && Tops(Stack(es, c)) == Elements(es)
  {
    if es != [] {
      StackPlaces(es[..|es| - 1], c);
      assert es == es[..|es| - 1] + [es[|es| - 1]];
    }
  }

  lemma {:induction false} PickElements(es: seq<Expr>, f: Expr -> bool)
    ensures Elements(Pick(es, f)) == set e | e in es && f(e)
  {
    if es != [] {
      var front, last := es[..|es| - 1], es[|es| - 1];
      PickElements(front, f);
      assert es == front + [last];
      forall e ensures e in Elements(Pick(es, f)) <==> e in es && f(e) {
        assert e in Elements(Pick(front, f)) <==> e in front && f(e);
      }
    }
  }

  lemma {:induction false} SetOfElements(es: seq<Expr>)
    ensures Elements(SetOf(es).All()) == Elements(es)
  {
    SetOfHolds(es);
    forall e ensures e in SetOf(es).All() <==> e in es {
      assert e in multiset(SetOf(es).All()) <==> e in multiset(es);
    }
  }

  lemma {:induction false} AddElements(ps: PredicateSet, p: Expr)
    ensures Elements(ps.Add(p).All()) == Elements(ps.All()) + {p}
  {
  }

  lemma {:induction false} OnlyElements(ps: PredicateSet, here: set<Column>, there: set<Column>)
    ensures Elements(SetOf(Only(ps.All(), here, there)).All()) == OnlyThese(Elements(ps.All()), here, there)
  {
    SetOfElements(Only(ps.All(), here, there));
    PickElements(ps.All(), e => Evaluable(e, here) && !Evaluable(e, there));
  }

  lemma {:induction false} UndecidedElements(ps: PredicateSet, l: set<Column>, r: set<Column>)
    ensures Elements(SetOf(Undecided(ps.All(), l, r)).All()) == Neither(Elements(ps.All()), l, r)
  {
    SetOfElements(Undecided(ps.All(), l, r));
    PickElements(ps.All(), e => Evaluable(e, l) == Evaluable(e, r));
  }

  /** Equalities and others apart. */
  ghost predicate Parted(ps: PredicateSet) {
    ps.Ok() && forall i :: 0 <= i < |ps.nonEquality| ==> !ps.nonEquality[i].Equals?
  }

  lemma {:induction false} SetOfParted(es: seq<Expr>)
    ensures Parted(SetOf(es))
  {
    if es != [] { SetOfParted(es[..|es| - 1]); }
  }

  lemma {:induction false} EqualityPart(ps: PredicateSet, e: Expr)
    requires Parted(ps)
    ensures e in ps.equality <==> e in ps.All() && e.Equals?
    ensures e in ps.nonEquality <==> e in ps.All() && !e.Equals?
  {
  }

  /* ----- products ----- */

  lemma {:induction false} JoinsIsConnects(e: Expr, l: set<Column>, r: set<Column>)
    ensures JoinsSides(e, l, r) <==> Connects(e, l, r)
  {
  }

  lemma {:induction false} JoinKeysElements(es: seq<Expr>, l: set<Column>, r: set<Column>)
    ensures forall c :: c in JoinKeys(es, l, r) <==> KeysOfSome(c, Elements(es), l, r)
    ensures JoinKeys(es, l, r) == [] <==> Connecting(Elements(es), l, r) == {}
  {
    if es == [] {
      forall c ensures !KeysOfSome(c, Elements(es), l, r) {}
    } else {
      var front, last := es[..|es| - 1], es[|es| - 1];
      JoinKeysElements(front, l, r);
      assert Elements(es) == Elements(front) + {last} by { assert es == front + [last]; }
      JoinsIsConnects(last, l, r);
      assert JoinKeys(es, l, r) == JoinKeys(front, l, r) + if Connects(last, l, r) then [Keys(last, l, r)] else [];
      forall c ensures c in JoinKeys(es, l, r) <==> KeysOfSome(c, Elements(es), l, r) {
        OneMoreKey(c, Elements(front), last, l, r);
      }
      assert Connecting(Elements(es), l, r) ==
             Connecting(Elements(front), l, r) + if Connects(last, l, r) then {last} else {};
    }
  }

  lemma {:induction false} OneMoreKey(c: (Expr, Expr), es: set<Expr>, last: Expr, l: set<Column>, r: set<Column>)
    ensures KeysOfSome(c, es + {last}, l, r) <==>
            KeysOfSome(c, es, l, r) || (Connects(last, l, r) && c == Keys(last, l, r))
  {
    if KeysOfSome(c, es, l, r) {
      var e :| e in es && Connects(e, l, r) && Keys(e, l, r) == c;
      assert e in es + {last};
    }
    if Connects(last, l, r) && c == Keys(last, l, r) { assert last in es + {last}; }
  }

  /** Above a product whose sides are done. */
  lemma {:induction false} AbovePlaced(op: Plan, ps: PredicateSet, done: Plan)
    requires op.CrossProduct? && done.CrossProduct? && done.collect == op.collect
    ensures var r := AboveProduct(RemainingPart(op, ps), ps, done);
            && ProductPlaced(op, Elements(ps.All()), r)
            && Base(r).probe == done.probe && Base(r).build == done.build
  {
    var l', r' := Schema(done.probe), Schema(done.build);
    var remaining := RemainingPart(op, ps);
    var rest := Neither(Elements(ps.All()), Schema(op.probe), Schema(op.build));
    UndecidedElements(ps, Schema(op.probe), Schema(op.build));
    SetOfParted(Undecided(ps.All(), Schema(op.probe), Schema(op.build)));
    RestConnecting(remaining, rest, l', r');
    JoinKeysElements(remaining.equality, l', r');
    var conds := JoinKeys(remaining.equality, l', r');
    if conds == [] {
      StackPlaces(ps.All(), done);
    } else {
      var join := HashJoin(conds, Inner, done.probe, done.build, SipInfo(Prohibit, NoDirection));
      StackPlaces(Unjoined(remaining.equality, l', r') + remaining.nonEquality, join);
      UnjoinedElements(remaining, rest, l', r');
    }
  }

  lemma {:induction false} RestConnecting(ps: PredicateSet, rest: set<Expr>, l: set<Column>, r: set<Column>)
    requires Parted(ps) && Elements(ps.All()) == rest
    ensures Connecting(Elements(ps.equality), l, r) == Connecting(rest, l, r)
    ensures forall c :: KeysOfSome(c, Elements(ps.equality), l, r) <==> KeysOfSome(c, rest, l, r)
  {
    forall e | Connects(e, l, r) ensures e in Elements(ps.equality) <==> e in rest {
      EqualityPart(ps, e);
      assert e in ps.All() <==> e in rest;
    }
  }

  lemma {:induction false} UnjoinedElements(ps: PredicateSet, rest: set<Expr>, l: set<Column>, r: set<Column>)
    requires Parted(ps) && Elements(ps.All()) == rest
    ensures Elements(Unjoined(ps.equality, l, r) + ps.nonEquality) == rest - Connecting(rest, l, r)
  {
    PickElements(ps.equality, e => !JoinsSides(e, l, r));
    forall e ensures e in Unjoined(ps.equality, l, r) + ps.nonEquality <==> e in rest && !Connects(e, l, r) {
      assert e in Elements(Unjoined(ps.equality, l, r)) <==> e in ps.equality && !JoinsSides(e, l, r);
      EqualityPart(ps, e);
      JoinsIsConnects(e, l, r);
      assert e in ps.All() <==> e in rest;
    }
  }

  /* ----- scans ----- */

  lemma {:induction false} FixedIsConstant(e: Expr)
    ensures Fixed(e) <==> IsConstant(e)
  {
    if e.Cast? { FixedIsConstant(e.child); }
  }

  lemma {:induction false} KeyValueIs(e: Expr, nodeID: Column)
    ensures KeyValue(e, nodeID).Some? <==> ComparesKey(e, nodeID)
    ensures ComparesKey(e, nodeID) ==>
              var f := KeyFirst(e, nodeID); KeyValue(e, nodeID) == Some(f.right) && (f == e || f == Equals(e.right, e.left))
  {
  }

  /** Where no predicate compares the key of the only table, all are applied above. */
  lemma {:induction false} PlainScanPlaced(s: Scan, pending: set<Expr>, s': Scan, zoneMap: bool)
    requires SameScan(s, s') && s'.key == s.key
    requires if zoneMap then Elements(s'.hints) == pending else s'.hints == s.hints
    requires |s.tables| == 1 ==> forall e :: e in pending ==> KeyValue(e, s.nodeID).None?
    ensures ScanPlaced(s, pending, pending, s', zoneMap)
  {
  }

  /** One that compares it with something fixed gives the scan its key, ... */
  lemma {:induction false} KeyScanPlaced(s: Scan, pending: set<Expr>, e: Expr, tops: set<Expr>, s': Scan, zoneMap: bool)
    requires SameScan(s, s') && |s.tables| == 1 && e in pending && pending == tops + {e}
    requires if zoneMap then Elements(s'.hints) == pending else s'.hints == s.hints
    requires KeyValue(e, s.nodeID).Some? && Fixed(KeyValue(e, s.nodeID).value) && s'.key == KeyValue(e, s.nodeID)
    ensures ScanPlaced(s, pending, tops, s', zoneMap)
  {
    assert FixesKey(e, s, s');
  }

  /** ... and one that compares it with something else is applied above, with the key on its left. */
  lemma {:induction false} TurnedScanPlaced(s: Scan, pending: set<Expr>, e: Expr, rest: set<Expr>, f: Expr, s': Scan, zoneMap: bool)
    requires SameScan(s, s') && s'.key == s.key && e in pending && pending == rest + {e}
    requires if zoneMap then Elements(s'.hints) == pending else s'.hints == s.hints
    requires KeyValue(e, s.nodeID).Some? && !Fixed(KeyValue(e, s.nodeID).value)
    requires e.Equals? && (f == e || f == Equals(e.right, e.left))
    ensures ScanPlaced(s, pending, rest + {f}, s', zoneMap)
  {
  }

  lemma {:induction false} RemoveElements(es: seq<Expr>, i: nat)
    requires i < |es|
    ensures Elements(es) == Elements(es[..i] + es[i + 1..]) + {es[i]}
  {
    assert es == es[..i] + [es[i]] + es[i + 1..];
  }

  /** The comparison that is popped is the first with the key, and it alone is gone. */
  lemma {:induction false} PoppedOnce(ps: PredicateSet, nodeID: Column)
    requires KeyIndex(ps.equality, nodeID) < |ps.equality|
    ensures var e := ps.equality[KeyIndex(ps.equality, nodeID)];
            multiset(ps.All()) == multiset(Popped(ps, nodeID).1.All()) + multiset{e}
  {
    var i := KeyIndex(ps.equality, nodeID);
    var a, e, b := ps.equality[..i], ps.equality[i], ps.equality[i + 1..];
    assert ps.All() == a + [e] + (b + ps.nonEquality);
    assert Popped(ps, nodeID).1.All() == a + (b + ps.nonEquality);
  }

  lemma {:induction false} PoppedElements(ps: PredicateSet, nodeID: Column)
    requires KeyIndex(ps.equality, nodeID) < |ps.equality|
    ensures var e := ps.equality[KeyIndex(ps.equality, nodeID)];
            Elements(ps.All()) == Elements(Popped(ps, nodeID).1.All()) + {e}
  {
    RemoveElements(ps.equality, KeyIndex(ps.equality, nodeID));
  }

  lemma {:induction false} NoKeyCompared(s: Scan, ps: PredicateSet)
    requires Parted(ps) && |s.tables| == 1 && KeyComparison(s, ps).None?
    ensures forall e :: e in Elements(ps.All()) ==> KeyValue(e, s.nodeID).None?
  {
    forall e | e in ps.All() ensures KeyValue(e, s.nodeID).None? {
      EqualityPart(ps, e);
      KeyValueIs(e, s.nodeID);
    }
  }

  lemma {:induction false} ScanDone(s: Scan, ps: PredicateSet, zoneMap: bool)
    requires Parted(ps)
    ensures ScanPlaced(s, Elements(ps.All()), Elements(AboveScan(s, ps).All()), Scanned(s, ps, zoneMap), zoneMap)
  {
    var pending, s' := Elements(ps.All()), Scanned(s, ps, zoneMap);
    var found := KeyComparison(s, ps);
    if found.None? {
      if |s.tables| == 1 { NoKeyCompared(s, ps); }
      PlainScanPlaced(s, pending, s', zoneMap);
    } else {
      var e := ps.equality[KeyIndex(ps.equality, s.nodeID)];
      var rest := Popped(ps, s.nodeID).1;
      PoppedElements(ps, s.nodeID);
      KeyValueIs(e, s.nodeID);
      FixedIsConstant(found.value.right);
      if IsConstant(found.value.right) {
        KeyScanPlaced(s, pending, e, Elements(rest.All()), s', zoneMap);
      } else {
        AddElements(rest, found.value);
        TurnedScanPlaced(s, pending, e, Elements(rest.All()), found.value, s', zoneMap);
      }
    }
  }

  /* ----- plans ----- */

  /** A visit puts every pending predicate, and every filter it meets, where it belongs. */
  lemma {:induction false} PushedDown(op: Plan, ps: PredicateSet, zoneMap: bool)
    requires Parted(ps)
    ensures Optimized(op, Elements(ps.All()), PushDown(op, ps, zoneMap), zoneMap)
    decreases op, 1
  {
    var pending, r := Elements(ps.All()), PushDown(op, ps, zoneMap);
    match op
    case Filter(f, c) =>
      if !NeverTrue(f) {
        AddElements(ps, f);
        PushedDown(c, Below(f, ps), zoneMap);
      }
    case CrossProduct(_, a, b) =>
      SetOfParted(ProbePart(op, ps));
      SetOfParted(BuildPart(op, ps));
      OnlyElements(ps, Schema(a), Schema(b));
      OnlyElements(ps, Schema(b), Schema(a));
      PushedDown(a, SetOf(ProbePart(op, ps)), zoneMap);
      PushedDown(b, SetOf(BuildPart(op, ps)), zoneMap);
      AbovePlaced(op, ps, Visited(op, ps, zoneMap));
    case ScanNodeTable(s) =>
      ScanDone(s, ps, zoneMap);
      StackPlaces(AboveScan(s, ps).All(), ScanNodeTable(Scanned(s, ps, zoneMap)));
    case Other(_, _, children) =>
      StackPlaces(ps.All(), Visited(op, ps, zoneMap));
      AllPushedDown(children, zoneMap);
    case Extend(_, _, _, _, c) =>
      StackPlaces(ps.All(), Visited(op, ps, zoneMap));
      FreshDown(c, zoneMap);
    case HashJoin(_, _, a, b, _) =>
      StackPlaces(ps.All(), Visited(op, ps, zoneMap));
      FreshDown(a, zoneMap);
      FreshDown(b, zoneMap);
    case Accumulate(_, c) =>
      StackPlaces(ps.All(), Visited(op, ps, zoneMap));
      FreshDown(c, zoneMap);
    case SemiMasker(_, c) =>
      StackPlaces(ps.All(), Visited(op, ps, zoneMap));
      FreshDown(c, zoneMap);
    case _ => StackPlaces(ps.All(), Visited(op, ps, zoneMap));
  }

  /** Below an operator that stops the push-down a new one starts. */
  lemma {:induction false} FreshDown(op: Plan, zoneMap: bool)
    ensures Optimized(op, {}, PushDown(op, NoPredicates, zoneMap), zoneMap)
    decreases op, 2
  {
    assert Elements(NoPredicates.All()) == {};
    PushedDown(op, NoPredicates, zoneMap);
  }

  lemma {:induction false} AllPushedDown(children: seq<Plan>, zoneMap: bool)
    ensures var rs := PushDownAll(children, zoneMap);
            |rs| == |children| && forall i :: 0 <= i < |children| ==> Optimized(children[i], {}, rs[i], zoneMap)
    decreases children, 0
  {
    if children != [] {
      AllPushedDown(children[..|children| - 1], zoneMap);
      FreshDown(children[|children| - 1], zoneMap);
    }
  }

  /** What a visit leaves where `op` was: filters stay, a product stays one, all else is optimized. */
  ghost predicate LeftInPlace(op: Plan, pending: set<Expr>, left: Plan, zoneMap: bool) {
    match op
    case Filter(f, c) =>
      if f.Literal? && f.value != Bool(true) then left == op
      else
        && left.Filter? && left.condition == f
        && LeftInPlace(c, if f.Literal? then pending else pending + {f}, left.child, zoneMap)
    case CrossProduct(t, a, b) =>
      && left.CrossProduct? && left.collect == t
      && Optimized(a, OnlyThese(pending, Schema(a), Schema(b)), left.probe, zoneMap)
      && Optimized(b, OnlyThese(pending, Schema(b), Schema(a)), left.build, zoneMap)
    case _ => exists r :: Base(r) == left && Optimized(op, pending, r, zoneMap)
  }

  lemma {:induction false} VisitLeaves(op: Plan, ps: PredicateSet, zoneMap: bool)
    requires Parted(ps)
    ensures LeftInPlace(op, Elements(ps.All()), Visited(op, ps, zoneMap), zoneMap)
  {
    PushedDown(op, ps, zoneMap);
    match op
    case Filter(f, c) =>
      if !NeverTrue(f) {
        AddElements(ps, f);
        VisitLeaves(c, Below(f, ps), zoneMap);
      }
    case CrossProduct(_, _, _) => AbovePlaced(op, ps, Visited(op, ps, zoneMap));
    case ScanNodeTable(s) => StackPlaces(AboveScan(s, ps).All(), Visited(op, ps, zoneMap));
    case _ => StackPlaces(ps.All(), Visited(op, ps, zoneMap));
  }

  /** So the optimizer leaves the root in place and optimizes everything below it. */
  lemma {:induction false} RootKept(plan: Plan, zoneMap: bool)
    ensures LeftInPlace(plan, {}, Visited(plan, NoPredicates, zoneMap), zoneMap)
  {
    assert Elements(NoPredicates.All()) == {};
    VisitLeaves(plan, NoPredicates, zoneMap);
  }

  /* ----- the order of filters ----- */

  /** The conditions of the filters on top of a plan, the lowest one first. */
  function TopList(p: Plan): seq<Expr> { if p.Filter? then TopList(p.child) + [p.condition] else [] }

  predicate EqualitiesFirst(es: seq<Expr>) {
    forall i, j :: 0 <= i < j < |es| && es[j].Equals? ==> es[i].Equals?
  }

  lemma {:induction false} StackOrder(es: seq<Expr>, c: Plan)
    requires !c.Filter?
    ensures TopList(Stack(es, c)) == es
  {
    if es != [] {
      StackOrder(es[..|es| - 1], c);
      assert es == es[..|es| - 1] + [es[|es| - 1]];
    }
  }

  lemma {:induction false} PartsOrder(a: seq<Expr>, b: seq<Expr>)
    requires (forall i :: 0 <= i < |a| ==> a[i].Equals?) && forall i :: 0 <= i < |b| ==> !b[i].Equals?
    ensures EqualitiesFirst(a + b)
  {
  }

  lemma {:induction false} PickEqualities(es: seq<Expr>, f: Expr -> bool)
    requires forall i :: 0 <= i < |es| ==> es[i].Equals?
    ensures forall i :: 0 <= i < |Pick(es, f)| ==> Pick(es, f)[i].Equals?
  {
    if es != [] { PickEqualities(es[..|es| - 1], f); }
  }

  /** Of the filters a visit stacks, equalities are applied before all others. */
  lemma {:induction false} EqualitiesLowest(op: Plan, ps: PredicateSet, zoneMap: bool)
    requires Parted(ps)
    ensures EqualitiesFirst(TopList(PushDown(op, ps, zoneMap)))
  {
    PartsOrder(ps.equality, ps.nonEquality);
    match op
    case Filter(f, c) => if !NeverTrue(f) { EqualitiesLowest(c, Below(f, ps), zoneMap); }
    case CrossProduct(_, _, _) => ProductOrder(RemainingPart(op, ps), ps, Visited(op, ps, zoneMap), op);
    case ScanNodeTable(s) =>
      var above := AboveScan(s, ps);
      PartsOrder(above.equality, above.nonEquality);
      StackOrder(above.All(), Visited(op, ps, zoneMap));
    case _ => StackOrder(ps.All(), Visited(op, ps, zoneMap));
  }

  lemma {:induction false} ProductOrder(remaining: PredicateSet, ps: PredicateSet, done: Plan, op: Plan)
    requires Parted(ps) && op.CrossProduct? && done.CrossProduct? && remaining == RemainingPart(op, ps)
    ensures EqualitiesFirst(TopList(AboveProduct(remaining, ps, done)))
  {
    var l, r := Schema(done.probe), Schema(done.build);
    SetOfParted(Undecided(ps.All(), Schema(op.probe), Schema(op.build)));
    var conds := JoinKeys(remaining.equality, l, r);
    if conds == [] {
      PartsOrder(ps.equality, ps.nonEquality);
      StackOrder(ps.All(), done);
    } else {
      var rest := Unjoined(remaining.equality, l, r);
      PickEqualities(remaining.equality, e => !JoinsSides(e, l, r));
      PartsOrder(rest, remaining.nonEquality);
      StackOrder(rest + remaining.nonEquality, HashJoin(conds, Inner, done.probe, done.build, SipInfo(Prohibit, NoDirection)));
    }
  }

  /** At a scan every predicate is applied once, but for the one that becomes the key. */
  lemma {:induction false} ScanCounts(s: Scan, ps: PredicateSet, zoneMap: bool)
    requires s.key.None?
    ensures var r := PushDown(ScanNodeTable(s), ps, zoneMap);
            && Base(r).ScanNodeTable?
            && |TopList(r)| == |ps.All()| - if Base(r).scan.key.Some? then 1 else 0
  {
    var above := AboveScan(s, ps);
    StackOrder(above.All(), Visited(ScanNodeTable(s), ps, zoneMap));
    StackPlaces(above.All(), Visited(ScanNodeTable(s), ps, zoneMap));
  }
}
