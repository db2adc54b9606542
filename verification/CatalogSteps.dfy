/**
  The catalog operations of the writer keep each version chain equal to the history of its name.
 */
module CatalogSteps {
  import opened Options
  import opened Catalogs
  import opened CatalogHistory

  /* ----- pushing a version ----- */

  lemma {:induction false} EmplaceMatches(c: Chains, base: map<string, Live>, h: seq<Change>, e: Change)
    requires ChainsMatch(c, base, h) && e.name in c
    ensures ChainsMatch(Emplace(c, e.name, VersionFor(e)), base, h + [e])
    ensures |c[e.name]| == |VersionsOf(h, e.name)| + 1
  {
    var c' := Emplace(c, e.name, VersionFor(e));
    assert ChainMatches(c, base, h, e.name);
    forall n ensures ChainMatches(c', base, h + [e], n) {
      assert ChainMatches(c, base, h, n);
      VersionsSnoc(h, e, n);
      if n == e.name { assert c'[n][1..] == c[n][1..] + [VersionFor(e)]; }
    }
  }

  function WithPlaceholder(c: Chains, name: string, oid: nat): (r: Chains)
    ensures name in r && (forall n :: n in c ==> n in r && r[n] == c[n])
    ensures (forall n :: n in c ==> c[n] != []) ==> forall n :: n in r ==> r[n] != []
  {
    if name in c then c else c[name := [Version(oid, 0, None)]]
  }

  lemma {:induction false} PlaceholderMatches(c: Chains, base: map<string, Live>, h: seq<Change>, name: string, oid: nat)
    requires ChainsMatch(c, base, h)
    ensures var c' := WithPlaceholder(c, name, oid); ChainsMatch(c', base, h) && c'[name] != []
  {
    var c' := WithPlaceholder(c, name, oid);
    assert ChainMatches(c, base, h, name);
    forall n ensures ChainMatches(c', base, h, n) { assert ChainMatches(c, base, h, n); }
  }

  /** The state after the writer pushed one more version on a chain of `entries`. */
  function Pushed(s: State, entries: Chains, c: Change, nextOID: nat): State
    requires s.writer.Some? && c.name in entries && entries[c.name] != []
  {
    After(s.(nextOID := nextOID), Emplace(entries, c.name, VersionFor(c)), [Undo(c.name, |entries[c.name]| - 1)], [c])
  }

  lemma {:induction false} UndoSnoc(undo: seq<Undo>, log: seq<Change>, pending: seq<Change>, c: Change)
    requires UndoMatches(undo, log, pending)
    ensures UndoMatches(undo + [Undo(c.name, |VersionsOf(log + pending, c.name)|)], log, pending + [c])
  {
    var undo', pending' := undo + [Undo(c.name, |VersionsOf(log + pending, c.name)|)], pending + [c];
    assert undo'[..|pending|] == undo && pending'[..|pending|] == pending;
  }

  /** One more version by the writer, with its undo record, keeps the invariant. */
  lemma {:induction false} PushKeepsInv(s: State, entries: Chains, c: Change, nextOID: nat)
    requires Inv(s) && s.writer.Some? && c.ts == s.writer.value.id
    requires ChainsMatch(entries, s.base, s.log + s.pending) && c.name in entries && entries[c.name] != []
    ensures Inv(Pushed(s, entries, c, nextOID))
  {
    EmplaceMatches(entries, s.base, s.log + s.pending, c);
    assert s.log + (s.pending + [c]) == s.log + s.pending + [c];
    UndoSnoc(s.writer.value.undo, s.log, s.pending, c);
  }

  lemma {:induction false} UniqueMore(base: map<string, Live>, cs: seq<Change>, n: nat, n': nat)
    requires AlwaysUniqueOIDs(base, cs, n) && n <= n'
    ensures AlwaysUniqueOIDs(base, cs, n')
  {
    if cs != [] { UniqueMore(base, cs[..|cs| - 1], n, n'); }
  }

  lemma {:induction false} UniquePrefix(base: map<string, Live>, a: seq<Change>, b: seq<Change>, n: nat)
    requires AlwaysUniqueOIDs(base, a + b, n)
    ensures AlwaysUniqueOIDs(base, a, n)
  {
    if b == [] {
      assert a + b == a;
    } else {
      assert (a + b)[..|a + b| - 1] == a + b[..|b| - 1];
      UniquePrefix(base, a, b[..|b| - 1], n);
    }
  }

  lemma {:induction false} PushKeepsOIDs(s: State, entries: Chains, c: Change, nextOID: nat)
    requires OIDInv(s) && s.writer.Some? && s.nextOID <= nextOID
    requires c.name in entries && entries[c.name] != []
    requires UniqueOIDs(Apply(WriterView(s), c), nextOID)
    ensures OIDInv(Pushed(s, entries, c, nextOID))
  {
    var cs := s.log + s.pending;
    UniqueMore(s.base, cs, s.nextOID, nextOID);
    assert s.log + (s.pending + [c]) == cs + [c];
    assert (cs + [c])[..|cs|] == cs;
  }

  /* ----- what the writer sees ----- */

  /** The writer sees the newest version of every chain. */
  ghost predicate SeesTop(c: Chains, t: Tx) {
    forall name :: name in c ==> c[name] != [] && Visible(t, c[name]) == |c[name]| - 1
  }

  lemma {:induction false} OrderedStamps(log: seq<Change>, last: nat)
    requires Ordered(log, last)
    ensures forall i :: 0 <= i < |log| ==> 0 < log[i].ts <= last
  {
    if log != [] { OrderedStamps(log[..|log| - 1], log[|log| - 1].ts); }
  }

  lemma {:induction false} WriterSeesAll(s: State)
    requires Inv(s) && s.writer.Some?
    ensures View(s.entries, WriterTx(s)) == WriterView(s)
    ensures SeesTop(s.entries, WriterTx(s))
  {
    var h := s.log + s.pending;
    OrderedStamps(s.log, s.lastTS);
    assert h + [] == h;
    ViewIsReplay(s.entries, s.base, h, [], WriterTx(s));
    forall name | name in s.entries
      ensures Visible(WriterTx(s), s.entries[name]) == |s.entries[name]| - 1
    {
      assert ChainMatches(s.entries, s.base, h, name);
    }
  }

  /** A live name the writer finds is in its view, with the same entry. */
  lemma {:induction false} SeenIsInView(s: State, name: string)
    requires s.writer.Some? && Contains(s.entries, WriterTx(s), name)
    requires View(s.entries, WriterTx(s)) == WriterView(s)
    ensures name in WriterView(s) && Lookup(s.entries, WriterTx(s), name) == Some(WriterView(s)[name])
  {
    assert name in View(s.entries, WriterTx(s));
  }

  /* ----- catalog operations keep the invariants ----- */

  /** For a writer that sees the top of every chain, what each operation amounts to. */
  lemma {:induction false} NextCreate(s: State, name: string, p: Payload)
    requires s.writer.Some? && SeesTop(s.entries, WriterTx(s))
    ensures Next(s, DoCreate(name, p)) ==
            if CreateNoLock(s.entries, WriterTx(s), name, s.nextOID, p).0.Done? then
              Pushed(s, WithPlaceholder(s.entries, name, s.nextOID),
                     Change(name, s.nextOID, Some(p), s.writer.value.id), s.nextOID + 1)
            else s.(nextOID := s.nextOID + 1)
  {
  }

  lemma {:induction false} NextDrop(s: State, name: string, oid: nat)
    requires s.writer.Some? && Contains(s.entries, WriterTx(s), name)
    ensures Next(s, DoDrop(name, oid)) ==
            Pushed(s, s.entries, Change(name, oid, None, s.writer.value.id), s.nextOID)
  {
  }

  lemma {:induction false} NextAlter(s: State, name: string, p: Payload, connects: bool)
    requires s.writer.Some? && SeesTop(s.entries, WriterTx(s)) && Contains(s.entries, WriterTx(s), name)
    ensures var oid := Lookup(s.entries, WriterTx(s), name).value.oid;
            Next(s, DoAlter(name, p, connects))
            == Pushed(s, s.entries, Change(name, oid, Some(p), s.writer.value.id), AfterAlter(s, connects))
  {
  }

  lemma {:induction false} UniqueCreate(view: map<string, Live>, c: Change, n: nat)
    requires UniqueOIDs(view, n) && c.oid == n
    ensures UniqueOIDs(Apply(view, c), n + 1)
  {
  }

  lemma {:induction false} UniqueDrop(view: map<string, Live>, c: Change, n: nat)
    requires UniqueOIDs(view, n) && c.entry.None?
    ensures UniqueOIDs(Apply(view, c), n)
  {
  }

  lemma {:induction false} UniqueAlter(view: map<string, Live>, c: Change, n: nat, n': nat)
    requires UniqueOIDs(view, n) && c.name in view && c.oid == view[c.name].oid && n <= n'
    ensures UniqueOIDs(Apply(view, c), n')
  {
  }

  /** The OID freed by the drop half of a rename is given to the new name. */
  lemma {:induction false} UniqueRename(view: map<string, Live>, name: string, c: Change, n: nat)
    requires UniqueOIDs(view, n) && name in view && c.oid == view[name].oid
    ensures UniqueOIDs(Apply(view - {name}, c), n)
  {
  }

  lemma {:induction false} CreateKeepsInv(s: State, name: string, p: Payload)
    requires Inv(s) && s.writer.Some?
    ensures Inv(Next(s, DoCreate(name, p)))
  {
    WriterSeesAll(s);
    NextCreate(s, name, p);
    if CreateNoLock(s.entries, WriterTx(s), name, s.nextOID, p).0.Done? {
      PlaceholderMatches(s.entries, s.base, s.log + s.pending, name, s.nextOID);
      PushKeepsInv(s, WithPlaceholder(s.entries, name, s.nextOID),
                   Change(name, s.nextOID, Some(p), s.writer.value.id), s.nextOID + 1);
    }
  }

  lemma {:induction false} CreateKeepsOIDs(s: State, name: string, p: Payload)
    requires OIDInv(s) && s.writer.Some? && SeesTop(s.entries, WriterTx(s))
    ensures OIDInv(Next(s, DoCreate(name, p)))
  {
    NextCreate(s, name, p);
    if CreateNoLock(s.entries, WriterTx(s), name, s.nextOID, p).0.Done? {
      var c := Change(name, s.nextOID, Some(p), s.writer.value.id);
      UniqueCreate(WriterView(s), c, s.nextOID);
      PushKeepsOIDs(s, WithPlaceholder(s.entries, name, s.nextOID), c, s.nextOID + 1);
    } else {
      UniqueMore(s.base, s.log + s.pending, s.nextOID, s.nextOID + 1);
    }
  }

  lemma {:induction false} DropKeepsInv(s: State, name: string, oid: nat)
    requires Inv(s) && s.writer.Some? && Contains(s.entries, WriterTx(s), name)
    ensures Inv(Next(s, DoDrop(name, oid)))
  {
    NextDrop(s, name, oid);
    PushKeepsInv(s, s.entries, Change(name, oid, None, s.writer.value.id), s.nextOID);
  }

  lemma {:induction false} DropKeepsOIDs(s: State, name: string, oid: nat)
    requires OIDInv(s) && s.writer.Some? && Contains(s.entries, WriterTx(s), name)
    ensures OIDInv(Next(s, DoDrop(name, oid)))
  {
    var c := Change(name, oid, None, s.writer.value.id);
    NextDrop(s, name, oid);
    UniqueDrop(WriterView(s), c, s.nextOID);
    PushKeepsOIDs(s, s.entries, c, s.nextOID);
  }

  lemma {:induction false} AlterKeepsInv(s: State, name: string, p: Payload, connects: bool)
    requires Inv(s) && s.writer.Some? && Contains(s.entries, WriterTx(s), name)
    ensures Inv(Next(s, DoAlter(name, p, connects)))
  {
    WriterSeesAll(s);
    NextAlter(s, name, p, connects);
    var oid := Lookup(s.entries, WriterTx(s), name).value.oid;
    PushKeepsInv(s, s.entries, Change(name, oid, Some(p), s.writer.value.id), AfterAlter(s, connects));
  }

  lemma {:induction false} AlterKeepsOIDs(s: State, name: string, p: Payload, connects: bool)
    requires OIDInv(s) && s.writer.Some? && SeesTop(s.entries, WriterTx(s))
    requires Contains(s.entries, WriterTx(s), name) && View(s.entries, WriterTx(s)) == WriterView(s)
    ensures OIDInv(Next(s, DoAlter(name, p, connects)))
  {
    NextAlter(s, name, p, connects);
    SeenIsInView(s, name);
    var c := Change(name, WriterView(s)[name].oid, Some(p), s.writer.value.id);
    UniqueAlter(WriterView(s), c, s.nextOID, AfterAlter(s, connects));
    PushKeepsOIDs(s, s.entries, c, AfterAlter(s, connects));
  }

  /** The drop half of a rename. */
  function Renamed(s: State, name: string): State
    requires s.writer.Some? && Contains(s.entries, WriterTx(s), name)
  {
    Pushed(s, s.entries, Change(name, Lookup(s.entries, WriterTx(s), name).value.oid, None, s.writer.value.id), s.nextOID)
  }

  /** It leaves a free name free, and the writer at the top of every chain. */
  lemma {:induction false} DropFrees(s: State, name: string, newName: string)
    requires Inv(s) && s.writer.Some?
    requires Contains(s.entries, WriterTx(s), name) && !Contains(s.entries, WriterTx(s), newName)
    ensures var s1 := Renamed(s, name);
            && Inv(s1)
            && WriterView(s1) == WriterView(s) - {name}
            && !Contains(s1.entries, WriterTx(s), newName)
            && SeesTop(s1.entries, WriterTx(s))
  {
    var c := Change(name, Lookup(s.entries, WriterTx(s), name).value.oid, None, s.writer.value.id);
    var s1 := Renamed(s, name);
    PushKeepsInv(s, s.entries, c, s.nextOID);
    WriterSeesAll(s);
    WriterSeesAll(s1);
    assert s1.log + s1.pending == s.log + s.pending + [c];
    assert (s.log + s.pending + [c])[..|s.log + s.pending|] == s.log + s.pending;
    assert newName !in View(s.entries, WriterTx(s));
    assert newName !in View(s1.entries, WriterTx(s));
  }

  /** For a writer that sees the top of every chain a create of a free name succeeds. */
  lemma {:induction false} FreeNameCreates(c: Chains, t: Tx, name: string, oid: nat, p: Payload)
    requires SeesTop(c, t) && !Contains(c, t, name) && t.startTS < START_TRANSACTION_ID <= t.id
    ensures var c' := WithPlaceholder(c, name, oid);
            CreateNoLock(c, t, name, oid, p) ==
            (Done, Emplace(c', name, Version(oid, t.id, Some(p))), [Undo(name, |c'[name]| - 1)])
  {
    if name in c { assert Sees(t, c[name][|c[name]| - 1]); }
  }

  /** So a rename to a free name succeeds, and pushes a tombstone and then the renamed entry. */
  lemma {:induction false} NextRename(s: State, name: string, newName: string)
    requires s.writer.Some? && SeesTop(s.entries, WriterTx(s))
    requires s.writer.value.startTS < START_TRANSACTION_ID <= s.writer.value.id
    requires Contains(s.entries, WriterTx(s), name) && !Contains(s.entries, WriterTx(s), newName)
    requires var s1 := Renamed(s, name);
             SeesTop(s1.entries, WriterTx(s)) && !Contains(s1.entries, WriterTx(s), newName)
    ensures var was := Lookup(s.entries, WriterTx(s), name).value;
            var s1 := Renamed(s, name);
            && Rename(s.entries, WriterTx(s), name, newName).0.Done?
            && Next(s, DoRename(name, newName)) ==
               Pushed(s1, WithPlaceholder(s1.entries, newName, was.oid),
                      Change(newName, was.oid, Some(was.payload), s.writer.value.id), s.nextOID)
  {
    var t := WriterTx(s);
    var was := Lookup(s.entries, t, name).value;
    var s1 := Renamed(s, name);
    FreeNameCreates(s1.entries, t, newName, was.oid, was.payload);
    var (_, c, u) := CreateNoLock(s1.entries, t, newName, was.oid, was.payload);
    var first, second := Change(name, was.oid, None, t.id), Change(newName, was.oid, Some(was.payload), t.id);
    var top := Undo(name, |s.entries[name]| - 1);
    assert Rename(s.entries, t, name, newName) == (Done, c, [top] + u);
    assert s.pending + [first, second] == s.pending + [first] + [second];
    assert s.writer.value.undo + ([top] + u) == s.writer.value.undo + [top] + u;
  }

  lemma {:induction false} DropHalf(c: Chains, t: Tx, name: string, newName: string)
    requires SeesTop(c, t) && t.startTS < START_TRANSACTION_ID <= t.id && Contains(c, t, name)
    ensures var c1 := DropNoLock(c, t, name, Lookup(c, t, name).value.oid).1;
            SeesTop(c1, t) && (Contains(c1, t, newName) <==> newName != name && Contains(c, t, newName))
  {
    var v := Version(Lookup(c, t, name).value.oid, t.id, None);
    var c1 := Emplace(c, name, v);
    assert Sees(t, v);
    assert c1[name][|c1[name]| - 1] == v;
    assert Visible(t, c1[name]) == |c1[name]| - 1;
  }

  /**
    A rename succeeds if and only if the new name is free for the writer, or the old one. If it
    fails it hands out no undo record, and the tombstone it leaves is in no transaction's history.
   */
  lemma {:induction false} RenameExactly(s: State, name: string, newName: string)
    requires Inv(s) && s.writer.Some? && Contains(s.entries, WriterTx(s), name)
    ensures var (outcome, entries, undo) := Rename(s.entries, WriterTx(s), name, newName);
            && (outcome.Done? <==> newName == name || !Contains(s.entries, WriterTx(s), newName))
            && (!outcome.Done? ==> outcome.AlreadyExists? && undo == [] &&
                                   !ChainsMatch(entries, s.base, s.log + s.pending))
  {
    var t := WriterTx(s);
    WriterSeesAll(s);
    var was := Lookup(s.entries, t, name).value;
    var c1 := DropNoLock(s.entries, t, name, was.oid).1;
    DropHalf(s.entries, t, name, newName);
    if newName == name || !Contains(s.entries, t, newName) {
      FreeNameCreates(c1, t, newName, was.oid, was.payload);
    } else {
      assert CreateNoLock(c1, t, newName, was.oid, was.payload).0.AlreadyExists?;
      assert ChainMatches(s.entries, s.base, s.log + s.pending, name);
      assert |c1[name]| == |s.entries[name]| + 1;
      assert !ChainMatches(c1, s.base, s.log + s.pending, name);
    }
  }

  lemma {:induction false} RenameSteps(s: State, name: string, newName: string)
    requires Inv(s) && s.writer.Some?
    requires Contains(s.entries, WriterTx(s), name) && !Contains(s.entries, WriterTx(s), newName)
    ensures View(s.entries, WriterTx(s)) == WriterView(s)
    ensures var was := Lookup(s.entries, WriterTx(s), name).value;
            var s1 := Renamed(s, name);
            && Inv(s1)
            && WriterView(s1) == WriterView(s) - {name}
            && WithPlaceholder(s1.entries, newName, was.oid)[newName] != []
            && Rename(s.entries, WriterTx(s), name, newName).0.Done?
            && Next(s, DoRename(name, newName)) ==
               Pushed(s1, WithPlaceholder(s1.entries, newName, was.oid),
                      Change(newName, was.oid, Some(was.payload), s.writer.value.id), s.nextOID)
  {
    WriterSeesAll(s);
    DropFrees(s, name, newName);
    NextRename(s, name, newName);
  }

  lemma {:induction false} RenameKeepsInv(s: State, name: string, newName: string)
    requires Inv(s) && s.writer.Some?
    requires Contains(s.entries, WriterTx(s), name) && !Contains(s.entries, WriterTx(s), newName)
    ensures Inv(Next(s, DoRename(name, newName)))
  {
    RenameSteps(s, name, newName);
    var was := Lookup(s.entries, WriterTx(s), name).value;
    var s1 := Renamed(s, name);
    PlaceholderMatches(s1.entries, s1.base, s1.log + s1.pending, newName, was.oid);
    PushKeepsInv(s1, WithPlaceholder(s1.entries, newName, was.oid),
                 Change(newName, was.oid, Some(was.payload), s.writer.value.id), s.nextOID);
  }

  lemma {:induction false} RenameKeepsOIDs(s: State, name: string, newName: string)
    requires Inv(s) && OIDInv(s) && s.writer.Some?
    requires Contains(s.entries, WriterTx(s), name) && !Contains(s.entries, WriterTx(s), newName)
    ensures OIDInv(Next(s, DoRename(name, newName)))
  {
    RenameSteps(s, name, newName);
    SeenIsInView(s, name);
    var was, id := WriterView(s)[name], s.writer.value.id;
    var first, second := Change(name, was.oid, None, id), Change(newName, was.oid, Some(was.payload), id);
    UniqueDrop(WriterView(s), first, s.nextOID);
    PushKeepsOIDs(s, s.entries, first, s.nextOID);
    var s1 := Renamed(s, name);
    UniqueRename(WriterView(s), name, second, s.nextOID);
    PushKeepsOIDs(s1, WithPlaceholder(s1.entries, newName, was.oid), second, s.nextOID);
  }
}
