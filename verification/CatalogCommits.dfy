/**
  Commit restamps exactly the writer's changes and rollback removes exactly them, so every reachable
  state is described by its history.
 */
module CatalogCommits {
  import opened Options
  import opened Catalogs
  import opened CatalogHistory
  import opened CatalogSteps

  /* ----- commit and rollback ----- */

  /** Restamping one change of the history restamps one version of its chain. */
  lemma {:induction false} CommitOneMatches(c: Chains, base: map<string, Live>, done: seq<Change>, x: Change,
                                            after: seq<Change>, ts: nat, u: Undo)
    requires ChainsMatch(c, base, done + ([x] + after))
    requires u == Undo(x.name, |VersionsOf(done, x.name)|)
    ensures HasAbove(c, u)
    ensures ChainsMatch(CommitRecord(c, u, ts), base, done + [x.(ts := ts)] + after)
  {
    var x' := x.(ts := ts);
    ThreeParts(done, x, after, x.name);
    assert ChainMatches(c, base, done + ([x] + after), x.name);
    var chain := c[x.name];
    assert chain[u.below + 1] == chain[1..][u.below] == VersionFor(x);
    var c' := CommitRecord(c, u, ts);
    forall n ensures ChainMatches(c', base, done + [x'] + after, n) {
      assert ChainMatches(c, base, done + ([x] + after), n);
      ThreeParts(done, x, after, n);
      ThreeParts(done, x', after, n);
      assert done + [x'] + after == done + ([x'] + after);
      if n == x.name {
        assert c'[n][1..] == chain[1..][u.below := VersionFor(x')];
      }
    }
  }

  lemma {:induction false} ThreeParts(a: seq<Change>, x: Change, b: seq<Change>, name: string)
    ensures VersionsOf(a + ([x] + b), name) ==
            VersionsOf(a, name) + ((if x.name == name then [VersionFor(x)] else []) + VersionsOf(b, name))
  {
    VersionsConcat(a, [x] + b, name);
    VersionsConcat([x], b, name);
    VersionsOne(x, name);
  }

  lemma {:induction false} RestampCount(log: seq<Change>, cs: seq<Change>, ts: nat, name: string)
    ensures |VersionsOf(log + Restamp(cs, ts), name)| == |VersionsOf(log + cs, name)|
  {
    if cs != [] {
      var front, e := cs[..|cs| - 1], cs[|cs| - 1];
      RestampCount(log, front, ts, name);
      assert cs == front + [e];
      assert log + cs == log + front + [e];
      assert log + Restamp(cs, ts) == log + Restamp(front, ts) + [e.(ts := ts)];
      VersionsSnoc(log + front, e, name);
      VersionsSnoc(log + Restamp(front, ts), e.(ts := ts), name);
    }
  }

  /** Committing the undo records restamps exactly the writer's changes. */
  lemma {:induction false} CommitMatches(c: Chains, base: map<string, Live>, log: seq<Change>, mine: seq<Change>,
                                         after: seq<Change>, ts: nat, us: seq<Undo>)
    requires ChainsMatch(c, base, log + mine + after)
    requires UndoMatches(us, log, mine)
    ensures CanCommit(c, us, ts)
    ensures ChainsMatch(CommitAll(c, us, ts), base, log + Restamp(mine, ts) + after)
    decreases |mine|
  {
    if mine == [] {
      assert log + mine + after == log + Restamp(mine, ts) + after;
    } else {
      var m := |mine| - 1;
      var front, x := mine[..m], mine[m];
      assert log + mine + after == log + front + ([x] + after);
      CommitMatches(c, base, log, front, [x] + after, ts, us[..m]);
      RestampCount(log, front, ts, x.name);
      var done := log + Restamp(front, ts);
      CommitOneMatches(CommitAll(c, us[..m], ts), base, done, x, after, ts, us[m]);
      assert done + [x.(ts := ts)] + after == log + Restamp(mine, ts) + after;
    }
  }

  lemma {:induction false} RollbackOneMatches(c: Chains, base: map<string, Live>, h: seq<Change>, x: Change, u: Undo)
    requires ChainsMatch(c, base, h + [x])
    requires u == Undo(x.name, |VersionsOf(h, x.name)|)
    ensures HasAbove(c, u)
    ensures ChainsMatch(RollbackRecord(c, u), base, h)
  {
    VersionsSnoc(h, x, x.name);
    assert ChainMatches(c, base, h + [x], x.name);
    var c' := RollbackRecord(c, u);
    forall n ensures ChainMatches(c', base, h, n) {
      assert ChainMatches(c, base, h + [x], n);
      VersionsSnoc(h, x, n);
      if n == x.name {
        assert c'[n] == c[n][..|c[n]| - 1];
        assert c'[n][1..] == c[n][1..][..|c[n]| - 2];
      }
    }
  }

  /** Rolling back the undo records removes exactly the writer's changes. */
  lemma {:induction false} RollbackMatches(c: Chains, base: map<string, Live>, log: seq<Change>, mine: seq<Change>,
                                           us: seq<Undo>)
    requires ChainsMatch(c, base, log + mine)
    requires UndoMatches(us, log, mine)
    ensures CanRollback(c, us)
    ensures ChainsMatch(RollbackAll(c, us), base, log)
    decreases |mine|
  {
    if mine == [] {
      assert log + mine == log;
    } else {
      var m := |mine| - 1;
      assert log + mine == log + mine[..m] + [mine[m]];
      RollbackOneMatches(c, base, log + mine[..m], mine[m], us[m]);
      RollbackMatches(RollbackRecord(c, us[m]), base, log, mine[..m], us[..m]);
    }
  }

  lemma {:induction false} OrderedMore(log: seq<Change>, last: nat, last': nat)
    requires Ordered(log, last) && last <= last'
    ensures Ordered(log, last')
  {
  }

  lemma {:induction false} OrderedRestamp(log: seq<Change>, cs: seq<Change>, ts: nat)
    requires Ordered(log, ts) && 0 < ts
    ensures Ordered(log + Restamp(cs, ts), ts)
  {
    if cs == [] {
      assert log + Restamp(cs, ts) == log;
    } else {
      var front := cs[..|cs| - 1];
      OrderedRestamp(log, front, ts);
      var all := log + Restamp(cs, ts);
      assert all[..|all| - 1] == log + Restamp(front, ts);
    }
  }

  lemma {:induction false} CommitKeepsInv(s: State)
    requires Inv(s) && s.writer.Some? && s.lastTS + 1 < START_TRANSACTION_ID
    ensures CanCommit(s.entries, s.writer.value.undo, s.lastTS + 1)
    ensures Inv(Next(s, CommitWrite))
  {
    var undo, ts := s.writer.value.undo, s.lastTS + 1;
    assert s.log + s.pending + [] == s.log + s.pending;
    CommitMatches(s.entries, s.base, s.log, s.pending, [], ts, undo);
    assert s.log + Restamp(s.pending, ts) + [] == s.log + Restamp(s.pending, ts);
    CommittedInv(s, CommitAll(s.entries, undo, ts));
  }

  lemma {:induction false} CommittedInv(s: State, entries: Chains)
    requires Inv(s) && s.lastTS + 1 < START_TRANSACTION_ID
    requires ChainsMatch(entries, s.base, s.log + Restamp(s.pending, s.lastTS + 1))
    ensures Inv(AfterCommit(s, entries))
  {
    OrderedMore(s.log, s.lastTS, s.lastTS + 1);
    OrderedRestamp(s.log, s.pending, s.lastTS + 1);
    var log := s.log + Restamp(s.pending, s.lastTS + 1);
    assert log + [] == log;
  }

  /** Restamping changes nothing about what a history replays to. */
  lemma {:induction false} RestampReplay(base: map<string, Live>, log: seq<Change>, cs: seq<Change>, ts: nat, n: nat)
    ensures Replay(base, log + Restamp(cs, ts)) == Replay(base, log + cs)
    ensures AlwaysUniqueOIDs(base, log + cs, n) ==> AlwaysUniqueOIDs(base, log + Restamp(cs, ts), n)
  {
    if cs != [] {
      var front := cs[..|cs| - 1];
      RestampReplay(base, log, front, ts, n);
      assert (log + cs)[..|log + cs| - 1] == log + front;
      var all := log + Restamp(cs, ts);
      assert all[..|all| - 1] == log + Restamp(front, ts);
    }
  }

  lemma {:induction false} CommitKeepsOIDs(s: State)
    requires OIDInv(s)
    ensures OIDInv(Next(s, CommitWrite))
  {
    RestampReplay(s.base, s.log, s.pending, s.lastTS + 1, s.nextOID);
    var log := s.log + Restamp(s.pending, s.lastTS + 1);
    assert log + [] == log;
  }

  lemma {:induction false} RollbackKeepsInv(s: State)
    requires Inv(s) && s.writer.Some?
    ensures CanRollback(s.entries, s.writer.value.undo)
    ensures Inv(Next(s, RollbackWrite))
  {
    RollbackMatches(s.entries, s.base, s.log, s.pending, s.writer.value.undo);
    assert s.log + [] == s.log;
  }

  lemma {:induction false} RollbackKeepsOIDs(s: State)
    requires OIDInv(s)
    ensures OIDInv(Next(s, RollbackWrite))
  {
    UniquePrefix(s.base, s.log, s.pending, s.nextOID);
    assert s.log + [] == s.log;
  }

  /* ----- every reachable state ----- */

  lemma {:induction false} NextKeepsInv(s: State, step: Step)
    requires Inv(s)
    ensures Inv(Next(s, step))
  {
    match step
    case BeginRead =>
    case BeginWrite =>
    case DoCreate(name, p) => if s.writer.Some? { CreateKeepsInv(s, name, p); }
    case DoDrop(name, oid) =>
      if s.writer.Some? && Contains(s.entries, WriterTx(s), name) { DropKeepsInv(s, name, oid); }
    case DoAlter(name, p, connects) =>
      if s.writer.Some? && Contains(s.entries, WriterTx(s), name) { AlterKeepsInv(s, name, p, connects); }
    case DoRename(name, newName) =>
      if s.writer.Some? && Contains(s.entries, WriterTx(s), name) && !Contains(s.entries, WriterTx(s), newName) {
        RenameKeepsInv(s, name, newName);
      }
    case CommitWrite => if s.writer.Some? && s.lastTS + 1 < START_TRANSACTION_ID { CommitKeepsInv(s); }
    case RollbackWrite => if s.writer.Some? { RollbackKeepsInv(s); }
    case EndRead(_) =>
  }

  lemma {:induction false} NextKeepsOIDs(s: State, step: Step)
    requires Inv(s) && OIDInv(s)
    ensures OIDInv(Next(s, step))
  {
    if s.writer.Some? { WriterSeesAll(s); }
    match step
    case BeginRead =>
    case BeginWrite =>
    case DoCreate(name, p) => if s.writer.Some? { CreateKeepsOIDs(s, name, p); }
    case DoDrop(name, oid) =>
      if s.writer.Some? && Contains(s.entries, WriterTx(s), name) { DropKeepsOIDs(s, name, oid); }
    case DoAlter(name, p, connects) =>
      if s.writer.Some? && Contains(s.entries, WriterTx(s), name) { AlterKeepsOIDs(s, name, p, connects); }
    case DoRename(name, newName) =>
      if s.writer.Some? && Contains(s.entries, WriterTx(s), name) && !Contains(s.entries, WriterTx(s), newName) {
        RenameKeepsOIDs(s, name, newName);
      }
    case CommitWrite => CommitKeepsOIDs(s);
    case RollbackWrite => RollbackKeepsOIDs(s);
    case EndRead(_) =>
  }

  lemma {:induction false} InitialInv(saved: map<string, Live>, nextOID: nat)
    ensures Inv(Initial(saved, nextOID))
    ensures UniqueOIDs(saved, nextOID) ==> OIDInv(Initial(saved, nextOID))
  {
    var s := Initial(saved, nextOID);
    assert s.log + s.pending == [];
    forall name ensures ChainMatches(s.entries, saved, [], name) {}
  }

  /** Every reachable state satisfies the invariants. */
  lemma {:induction false} RunKeepsInv(saved: map<string, Live>, nextOID: nat, steps: seq<Step>)
    ensures Inv(Run(Initial(saved, nextOID), steps))
    ensures UniqueOIDs(saved, nextOID) ==> OIDInv(Run(Initial(saved, nextOID), steps))
  {
    if steps == [] {
      InitialInv(saved, nextOID);
    } else {
      var s := Run(Initial(saved, nextOID), steps[..|steps| - 1]);
      RunKeepsInv(saved, nextOID, steps[..|steps| - 1]);
      NextKeepsInv(s, steps[|steps| - 1]);
      if UniqueOIDs(saved, nextOID) { NextKeepsOIDs(s, steps[|steps| - 1]); }
    }
  }
}
