/**
  What every run of the versioned catalog guarantees: each transaction's view is a replay of the
  part of the history it may see, OIDs are unique, and checkpoints keep the committed view.
 */
module CatalogRuns {
  import opened Options
  import opened Catalogs
  import opened CatalogHistory
  import opened CatalogSteps
  import opened CatalogCommits

  /* ----- views over whole runs ----- */

  lemma {:induction false} AllUpTo(log: seq<Change>, ts: nat, last: nat)
    requires Ordered(log, last) && last <= ts
    ensures UpTo(log, ts) == log
  {
    if log != [] {
      AllUpTo(log[..|log| - 1], ts, log[|log| - 1].ts);
    }
  }

  /** What was committed at or before `start` is a prefix of the log. */
  lemma {:induction false} SplitLog(log: seq<Change>, start: nat, last: nat) returns (unseen: seq<Change>)
    requires Ordered(log, last)
    ensures log == UpTo(log, start) + unseen
    ensures forall i :: 0 <= i < |UpTo(log, start)| ==> UpTo(log, start)[i].ts <= start
    ensures forall i :: 0 <= i < |unseen| ==> start < unseen[i].ts <= last
  {
    if log == [] {
      return [];
    }
    var front, c := log[..|log| - 1], log[|log| - 1];
    if c.ts <= start {
      OrderedStamps(log, c.ts);
      AllUpTo(log, start, c.ts);
      return [];
    }
    unseen := SplitLog(front, start, c.ts);
    unseen := unseen + [c];
  }

  /** Any transaction other than the writer sees the commits up to its start, and nothing else. */
  lemma {:induction false} OtherSees(s: State, t: Tx)
    requires Inv(s) && t.id > START_TRANSACTION_ID && t.startTS <= s.lastTS
    requires s.writer.Some? ==> t.id != s.writer.value.id
    ensures View(s.entries, t) == ReaderView(s, t.startTS)
  {
    var unseen := SplitLog(s.log, t.startTS, s.lastTS);
    assert s.log + s.pending == UpTo(s.log, t.startTS) + (unseen + s.pending);
    ViewIsReplay(s.entries, s.base, UpTo(s.log, t.startTS), unseen + s.pending, t);
  }

  /**
    Snapshot isolation for every run: each reader's view is the replay of what was committed at
    or before its start, the writer's view is the replay of everything committed and its own
    changes.
   */
  lemma {:induction false} RunViews(saved: map<string, Live>, nextOID: nat, steps: seq<Step>)
    ensures var s := Run(Initial(saved, nextOID), steps);
            && (forall id :: id in s.readers ==> View(s.entries, Tx(id, s.readers[id])) == ReaderView(s, s.readers[id]))
            && (s.writer.Some? ==> View(s.entries, WriterTx(s)) == WriterView(s))
  {
    RunKeepsInv(saved, nextOID, steps);
    var s := Run(Initial(saved, nextOID), steps);
    forall id | id in s.readers ensures View(s.entries, Tx(id, s.readers[id])) == ReaderView(s, s.readers[id]) {
      OtherSees(s, Tx(id, s.readers[id]));
    }
    if s.writer.Some? { WriterSeesAll(s); }
  }

  lemma {:induction false} LaterChanges(log: seq<Change>, cs: seq<Change>, ts: nat, start: nat)
    requires start < ts
    ensures UpTo(log + Restamp(cs, ts), start) == UpTo(log, start)
  {
    if cs == [] {
      assert log + Restamp(cs, ts) == log;
    } else {
      LaterChanges(log, cs[..|cs| - 1], ts, start);
      var all := log + Restamp(cs, ts);
      assert all[..|all| - 1] == log + Restamp(cs[..|cs| - 1], ts);
    }
  }

  lemma {:induction false} LogGrows(s: State, step: Step)
    ensures var s' := Next(s, step);
            && s'.base == s.base
            && (s'.log == s.log || s'.log == s.log + Restamp(s.pending, s.lastTS + 1))
            && (forall id :: id in s.readers && id in s'.readers && id <= s.lastID ==> s'.readers[id] == s.readers[id])
  {
  }

  /** No step changes what a running reader sees; commit and rollback of the writer included. */
  lemma {:induction false} ReadersAreIsolated(s: State, step: Step, id: nat)
    requires Inv(s) && id in s.readers && id in Next(s, step).readers
    ensures Next(s, step).readers[id] == s.readers[id]
    ensures View(Next(s, step).entries, Tx(id, s.readers[id])) == View(s.entries, Tx(id, s.readers[id]))
  {
    LogGrows(s, step);
    NextKeepsInv(s, step);
    SameReaderView(s, Next(s, step), id);
  }

  lemma {:induction false} SameReaderView(s: State, s': State, id: nat)
    requires Inv(s) && Inv(s') && id in s.readers && id in s'.readers && s'.readers[id] == s.readers[id]
    requires s'.base == s.base
    requires s'.log == s.log || s'.log == s.log + Restamp(s.pending, s.lastTS + 1)
    ensures View(s'.entries, Tx(id, s.readers[id])) == View(s.entries, Tx(id, s.readers[id]))
  {
    OtherSees(s, Tx(id, s.readers[id]));
    OtherSees(s', Tx(id, s.readers[id]));
    LaterChanges(s.log, s.pending, s.lastTS + 1, s.readers[id]);
  }

  /** Rollback takes back everything: whatever the writer did, all others see what they saw without it. */
  lemma {:induction false} RollbackRestores(s: State, t: Tx)
    requires Inv(s) && s.writer.Some? && t.id > START_TRANSACTION_ID && t.id != s.writer.value.id
    requires t.startTS <= s.lastTS
    ensures var s' := Next(s, RollbackWrite);
            && s'.writer.None?
            && View(s'.entries, t) == View(s.entries, t) == ReaderView(s, t.startTS)
  {
    RollbackKeepsInv(s);
    OtherSees(s, t);
    OtherSees(Next(s, RollbackWrite), t);
  }

  /** Commit publishes exactly the writer's view to the transactions that start after it. */
  lemma {:induction false} CommitPublishes(s: State, t: Tx)
    requires Inv(s) && s.writer.Some? && s.lastTS + 1 < START_TRANSACTION_ID
    requires t.id > START_TRANSACTION_ID && t.startTS == s.lastTS + 1
    ensures View(Next(s, CommitWrite).entries, t) == WriterView(s) == View(s.entries, WriterTx(s))
  {
    CommitKeepsInv(s);
    WriterSeesAll(s);
    Published(s, Next(s, CommitWrite), t);
  }

  lemma {:induction false} Published(s: State, s': State, t: Tx)
    requires Inv(s') && s'.writer.None? && s'.base == s.base && t.id > START_TRANSACTION_ID
    requires s'.lastTS == t.startTS && s'.log == s.log + Restamp(s.pending, t.startTS)
    ensures View(s'.entries, t) == WriterView(s)
  {
    OtherSees(s', t);
    AllUpTo(s'.log, t.startTS, t.startTS);
    RestampReplay(s.base, s.log, s.pending, t.startTS, 0);
  }

  /** A chain ends in a version every transaction sees, so the traversal never runs off its end. */
  lemma {:induction false} TraversalFinds(s: State, t: Tx, name: string)
    requires Inv(s) && name in s.entries
    ensures s.entries[name] != [] && Visible(t, s.entries[name]) >= 0
  {
    assert ChainMatches(s.entries, s.base, s.log + s.pending, name);
    assert Sees(t, s.entries[name][0]);
  }

  /* ----- OIDs ----- */

  /** In every run, no transaction sees one OID under two names, renames included. */
  lemma {:induction false} OIDsAreUnique(s: State, t: Tx)
    requires Inv(s) && OIDInv(s) && t.id > START_TRANSACTION_ID && t.startTS <= s.lastTS
    requires s.writer.Some? && t.id == s.writer.value.id ==> t == WriterTx(s)
    ensures UniqueOIDs(View(s.entries, t), s.nextOID)
  {
    if s.writer.Some? && t.id == s.writer.value.id {
      WriterSeesAll(s);
    } else {
      OtherSees(s, t);
      ReaderUnique(s, t.startTS);
    }
  }

  lemma {:induction false} ReaderUnique(s: State, ts: nat)
    requires Ordered(s.log, s.lastTS) && OIDInv(s)
    ensures UniqueOIDs(ReaderView(s, ts), s.nextOID)
  {
    var unseen := SplitLog(s.log, ts, s.lastTS);
    UniquePrefix(s.base, s.log, s.pending, s.nextOID);
    UniquePrefix(s.base, UpTo(s.log, ts), unseen, s.nextOID);
  }

  /** What looking up an OID should find: the entry of the view that has it, if there is one. */
  ghost predicate ByName(view: map<string, Live>, oid: nat, r: Option<Live>) {
    if r.Some? then r.value.oid == oid && exists name :: name in view && view[name] == r.value
    else forall name :: name in view ==> view[name].oid != oid
  }

  /** Looking up any OID can only find what it should. */
  ghost predicate OIDLookupSound(c: Chains, t: Tx, view: map<string, Live>) {
    forall oid, r :: ByOID(c, t, oid, r) ==> ByName(view, oid, r)
  }

  /** On the chains: the newest version of every live name has the OID of the visible one. */
  lemma {:induction false} SoundOnChains(c: Chains, t: Tx)
    requires forall name :: name in c ==> c[name] != []
    ensures OIDLookupSound(c, t, View(c, t))
       <==> forall name :: name in View(c, t) ==> NewestHas(c, name, View(c, t)[name].oid)
  {
    var view := View(c, t);
    if name :| name in view && !NewestHas(c, name, view[name].oid) {
      var newest := c[name][|c[name]| - 1].oid;
      assert NewestHas(c, name, newest) && Lookup(c, t, name) == Some(view[name]);
      assert ByOID(c, t, newest, Some(view[name]));
      assert !ByName(view, newest, Some(view[name]));
    } else {
      forall oid, r | ByOID(c, t, oid, r) ensures ByName(view, oid, r) {
        if r.Some? {
          var name :| NewestHas(c, name, oid) && Lookup(c, t, name) == r;
          assert name in view && view[name] == r.value;
        }
      }
    }
  }

  /** In every reachable state the writer finds exactly the entries of its view by their OIDs. */
  lemma {:induction false} WriterFindsByOID(s: State)
    requires Inv(s) && s.writer.Some?
    ensures OIDLookupSound(s.entries, WriterTx(s), WriterView(s))
  {
    WriterSeesAll(s);
    SoundOnChains(s.entries, WriterTx(s));
  }

  /** The OID that the last of some changes gives to a name, if one does. */
  function LastOID(cs: seq<Change>, name: string, before: nat): nat {
    if cs == [] then before
    else if cs[|cs| - 1].name == name then cs[|cs| - 1].oid
    else LastOID(cs[..|cs| - 1], name, before)
  }

  /** The changes a reader does not see: committed after its start, or not at all yet. */
  function Since(s: State, startTS: nat): seq<Change>
    requires |UpTo(s.log, startTS)| <= |s.log|
  {
    s.log[|UpTo(s.log, startTS)|..] + s.pending
  }

  lemma {:induction false} UpToShorter(log: seq<Change>, ts: nat)
    ensures |UpTo(log, ts)| <= |log|
  {
    if log != [] { UpToShorter(log[..|log| - 1], ts); }
  }

  lemma {:induction false} LastOIDOnTop(cs: seq<Change>, name: string, before: nat)
    ensures var vs := VersionsOf(cs, name);
            LastOID(cs, name, before) == if vs == [] then before else vs[|vs| - 1].oid
  {
    if cs != [] { LastOIDOnTop(cs[..|cs| - 1], name, before); }
  }

  /** None of the names the reader sees was given to another entry since it started. */
  ghost predicate NoNameReused(s: State, startTS: nat) {
    UpToShorter(s.log, startTS);
    var view := ReaderView(s, startTS);
    forall name :: name in view ==> LastOID(Since(s, startTS), name, view[name].oid) == view[name].oid
  }

  /** The newest version of a chain has the OID of the last change that is not visible, or is the visible one. */
  lemma {:induction false} NewestSince(s: State, t: Tx, name: string, unseen: seq<Change>)
    requires ChainsMatch(s.entries, s.base, UpTo(s.log, t.startTS) + unseen)
    requires name in s.entries && Visible(t, s.entries[name]) == |VersionsOf(UpTo(s.log, t.startTS), name)|
    requires Contains(s.entries, t, name)
    ensures s.entries[name][|s.entries[name]| - 1].oid
         == LastOID(unseen, name, Lookup(s.entries, t, name).value.oid)
  {
    var seen := UpTo(s.log, t.startTS);
    var chain := s.entries[name];
    assert ChainMatches(s.entries, s.base, seen + unseen, name);
    VersionsConcat(seen, unseen, name);
    var b := VersionsOf(unseen, name);
    LastOIDOnTop(unseen, name, Lookup(s.entries, t, name).value.oid);
    if b != [] { assert chain[|chain| - 1] == chain[1..][|chain| - 2] == b[|b| - 1]; }
  }

  /** A reader finds exactly the entries of its view by their OIDs if and only if no name of it was reused. */
  lemma {:induction false} ReaderFindsByOID(s: State, t: Tx)
    requires Inv(s) && t.id > START_TRANSACTION_ID && t.startTS <= s.lastTS
    requires s.writer.Some? ==> t.id != s.writer.value.id
    ensures OIDLookupSound(s.entries, t, ReaderView(s, t.startTS)) <==> NoNameReused(s, t.startTS)
  {
    var seen := UpTo(s.log, t.startTS);
    var unseen := SplitLog(s.log, t.startTS, s.lastTS);
    UpToShorter(s.log, t.startTS);
    assert s.log[|seen|..] == unseen;
    assert s.log + s.pending == seen + (unseen + s.pending);
    ViewIsReplay(s.entries, s.base, seen, unseen + s.pending, t);
    SoundOnChains(s.entries, t);
    var view := View(s.entries, t);
    forall name | name in view
      ensures s.entries[name][|s.entries[name]| - 1].oid == LastOID(Since(s, t.startTS), name, view[name].oid)
    {
      NewestSince(s, t, name, unseen + s.pending);
    }
  }

  /* ----- checkpoints ----- */

  /** The committed view, restricted to the kinds of entries that are persisted. */
  function Persisted(view: map<string, Live>): map<string, Live> {
    map name | name in view && view[name].payload.persisted :: view[name]
  }

  /** A committed view without the names that hold, newest, an entry of a kind that is not persisted. */
  function Saved(committed: map<string, Live>, newest: map<string, Live>): map<string, Live> {
    map name | name in committed && (name in newest ==> newest[name].payload.persisted) :: committed[name]
  }

  /** On every chain the newest committed version is what a transaction starting now sees. */
  lemma {:induction false} CommittedIsVisible(s: State, name: string)
    requires Inv(s) && name in s.entries
    ensures var t := Tx(s.lastID + 1, s.lastTS);
            s.entries[name] != [] && Committed(s.entries[name]) == Visible(t, s.entries[name]) >= 0
  {
    var chain := s.entries[name];
    assert ChainMatches(s.entries, s.base, s.log + s.pending, name);
    OrderedStamps(s.log, s.lastTS);
    VersionsStamps(s.log + s.pending, name, ts => ts <= s.lastTS || START_TRANSACTION_ID < ts <= s.lastID);
    assert forall i :: 0 < i < |chain| ==> chain[i] == chain[1..][i - 1];
    SameNewest(chain, Tx(s.lastID + 1, s.lastTS));
  }

  lemma {:induction false} SameNewest(chain: seq<Version>, t: Tx)
    requires forall i :: 0 <= i < |chain| ==> (Sees(t, chain[i]) <==> chain[i].timestamp < START_TRANSACTION_ID)
    ensures Committed(chain) == Visible(t, chain)
  {
    if chain != [] { SameNewest(chain[..|chain| - 1], t); }
  }

  /** The newest version of a chain is what replaying the whole history finds. */
  lemma {:induction false} NewestInView(s: State, name: string)
    requires Inv(s) && name in s.entries && s.entries[name] != []
    ensures var v := s.entries[name][|s.entries[name]| - 1];
            && (v.entry.Some? <==> name in WriterView(s))
            && (v.entry.Some? ==> WriterView(s)[name] == Live(v.oid, v.entry.value))
  {
    var h := s.log + s.pending;
    assert ChainMatches(s.entries, s.base, h, name);
    NewestIsReplay(s.base, h, s.entries[name][0], name);
    assert s.entries[name] == [s.entries[name][0]] + VersionsOf(h, name);
  }

  /**
    A checkpoint, with or without a running writer, saves the committed view without the names
    whose newest version, committed or not, is an entry of a kind that is not persisted.
   */
  lemma {:induction false} CheckpointSaves(s: State)
    requires Inv(s)
    ensures Serialize(s.entries) == Saved(ReaderView(s, s.lastTS), WriterView(s))
  {
    var t := Tx(s.lastID + 1, s.lastTS);
    OtherSees(s, t);
    var view := View(s.entries, t);
    forall name
      ensures name in Serialize(s.entries) <==> name in Saved(view, WriterView(s))
      ensures name in Serialize(s.entries) ==> Serialize(s.entries)[name] == view[name]
    {
      if name in s.entries {
        CommittedIsVisible(s, name);
        NewestInView(s, name);
      }
    }
  }

  /** That is the persisted part of the committed view if and only if no running change hides or bares its kind. */
  lemma {:induction false} CheckpointPersistsExactly(s: State)
    requires Inv(s)
    ensures var committed, newest := ReaderView(s, s.lastTS), WriterView(s);
            Serialize(s.entries) == Persisted(committed) <==>
            forall name :: name in committed ==>
              (committed[name].payload.persisted <==> (name in newest ==> newest[name].payload.persisted))
  {
    CheckpointSaves(s);
    var committed, newest := ReaderView(s, s.lastTS), WriterView(s);
    if Serialize(s.entries) == Persisted(committed) {
      forall name | name in committed
        ensures committed[name].payload.persisted <==> (name in newest ==> newest[name].payload.persisted)
      {
        assert name in Saved(committed, newest) <==> name in Persisted(committed);
      }
    }
    if forall name :: name in committed ==>
         (committed[name].payload.persisted <==> (name in newest ==> newest[name].payload.persisted)) {
      assert Saved(committed, newest) == Persisted(committed);
    }
  }

  /** With no writer running it always is. */
  lemma {:induction false} CheckpointSavesCommitted(s: State)
    requires Inv(s) && s.writer.None?
    ensures Serialize(s.entries) == Persisted(ReaderView(s, s.lastTS))
  {
    CheckpointPersistsExactly(s);
    AllUpTo(s.log, s.lastTS, s.lastTS);
    assert s.log + s.pending == s.log;
  }

  lemma {:induction false} LoadedView(saved: map<string, Live>, t: Tx)
    ensures View(Deserialize(saved), t) == saved
  {
    var c := Deserialize(saved);
    forall name | name in c ensures Contains(c, t, name) && Lookup(c, t, name) == Some(saved[name]) {
      assert Sees(t, c[name][0]);
      assert Visible(t, c[name]) == 0;
    }
  }

  /** Loading the checkpoint gives every later transaction what was saved, in a sound state. */
  lemma {:induction false} CheckpointRoundTrip(s: State, t: Tx)
    requires Inv(s) && OIDInv(s)
    ensures View(Deserialize(Serialize(s.entries)), t) == Saved(ReaderView(s, s.lastTS), WriterView(s))
    ensures s.writer.None? ==>
              View(Deserialize(Serialize(s.entries)), t) == Persisted(ReaderView(s, s.lastTS))
    ensures var loaded := Initial(Serialize(s.entries), s.nextOID); Inv(loaded) && OIDInv(loaded)
  {
    CheckpointSaves(s);
    if s.writer.None? { CheckpointSavesCommitted(s); }
    LoadedView(Serialize(s.entries), t);
    ReaderUnique(s, s.lastTS);
    SavedUnique(ReaderView(s, s.lastTS), WriterView(s), s.nextOID);
    InitialInv(Serialize(s.entries), s.nextOID);
  }

  lemma {:induction false} SavedUnique(view: map<string, Live>, newest: map<string, Live>, n: nat)
    requires UniqueOIDs(view, n)
    ensures UniqueOIDs(Saved(view, newest), n)
  {
  }
}
