/**
  The versioned catalog refines a catalog without versions, which keeps a whole copy of its
  contents for every running transaction: what a reader finds is the copy made when it started,
  what the writer finds is its own copy, and a commit makes that copy the committed one.
 */
module SnapshotCatalog {
  import opened Options
  import opened Catalogs
  import opened CatalogHistory
  import opened CatalogSteps
  import opened CatalogCommits
  import opened CatalogRuns

  type Contents = map<string, Live>

  /** `clock` counts the commits; there are no timestamps above it and below the transaction ids. */
  datatype Simple = Simple(committed: Contents, working: Option<Contents>, snapshots: map<nat, Contents>,
                           nextOID: nat, lastID: nat, clock: nat)

  /** What a catalog change of the writer means. */
  function Changed(contents: Contents, step: Step, oid: nat): Contents {
    match step
    case DoCreate(name, p) => if name in contents then contents else contents[name := Live(oid, p)]
    case DoDrop(name, _) => contents - {name}
    case DoAlter(name, p, _) => if name in contents then contents[name := Live(contents[name].oid, p)] else contents
    case DoRename(name, newName) =>
      if name in contents && newName !in contents then (contents - {name})[newName := contents[name]] else contents
    case _ => contents
  }

  /** A create takes an OID, also one that fails; so does a connection added to a table that exists. */
  function TakesOID(contents: Contents, step: Step): bool {
    step.DoCreate? || (step.DoAlter? && step.connects && step.name in contents)
  }

  function SimpleNext(a: Simple, step: Step): Simple {
    match step
    case BeginRead => a.(lastID := a.lastID + 1, snapshots := a.snapshots[a.lastID + 1 := a.committed])
    case BeginWrite => if a.working.Some? then a else a.(lastID := a.lastID + 1, working := Some(a.committed))
    case CommitWrite =>
      if a.working.None? || a.clock + 1 >= START_TRANSACTION_ID then a
      else a.(committed := a.working.value, working := None, clock := a.clock + 1)
    case RollbackWrite => a.(working := None)
    case EndRead(id) => a.(snapshots := a.snapshots - {id})
    case _ =>
      if a.working.None? then a
      else a.(working := Some(Changed(a.working.value, step, a.nextOID)),
              nextOID := a.nextOID + if TakesOID(a.working.value, step) then 1 else 0)
  }

  function SimpleRun(a: Simple, steps: seq<Step>): Simple {
    if steps == [] then a else SimpleNext(SimpleRun(a, steps[..|steps| - 1]), steps[|steps| - 1])
  }

  /** What a transaction starting now would find, ... */
  function CommittedView(s: State): Contents {
    View(s.entries, Tx(s.lastID + 1, s.lastTS))
  }

  /** ... what the writer finds ... */
  function WorkingView(s: State): Option<Contents> {
    if s.writer.Some? then Some(View(s.entries, WriterTx(s))) else None
  }

  /** ... and what the readers find. */
  function Snapshots(s: State): map<nat, Contents> {
    map id | id in s.readers :: View(s.entries, Tx(id, s.readers[id]))
  }

  function Abstract(s: State): Simple {
    Simple(CommittedView(s), WorkingView(s), Snapshots(s), s.nextOID, s.lastID, s.lastTS)
  }

  /* ----- one new version ----- */

  /** Who pushes a version finds it, ... */
  lemma {:induction false} PushSeen(c: Chains, name: string, v: Version, t: Tx)
    requires v.timestamp == t.id
    ensures View(Emplace(c, name, v), t) ==
            if v.entry.Some? then View(c, t)[name := Live(v.oid, v.entry.value)] else View(c, t) - {name}
  {
    forall n
      ensures Lookup(Emplace(c, name, v), t, n) == if n != name then Lookup(c, t, n)
                                                   else if v.entry.Some? then Some(Live(v.oid, v.entry.value)) else None
    {
      PushFound(c, name, v, t, n);
    }
  }

  lemma {:induction false} PushFound(c: Chains, name: string, v: Version, t: Tx, n: string)
    requires v.timestamp == t.id
    ensures Lookup(Emplace(c, name, v), t, n) == if n != name then Lookup(c, t, n)
                                                 else if v.entry.Some? then Some(Live(v.oid, v.entry.value)) else None
  {
    var chain := Emplace(c, name, v)[name];
    assert chain[|chain| - 1] == v;
    assert Visible(t, chain) == |chain| - 1;
  }

  /** ... and nobody else does. */
  lemma {:induction false} PushUnseen(c: Chains, name: string, v: Version, t: Tx)
    requires v.timestamp != t.id && t.startTS < v.timestamp
    ensures View(Emplace(c, name, v), t) == View(c, t)
  {
    var c' := Emplace(c, name, v);
    var chain := c'[name];
    assert chain[..|chain| - 1] == ChainOf(c, name);
    assert Visible(t, chain) == Visible(t, ChainOf(c, name));
    forall n ensures Contains(c', t, n) <==> Contains(c, t, n) {}
  }

  lemma {:induction false} PlaceholderUnseen(c: Chains, name: string, oid: nat, t: Tx)
    ensures View(WithPlaceholder(c, name, oid), t) == View(c, t)
  {
  }

  /** The newest version of a name is neither the transaction's own nor committed before its start. */
  predicate WrittenByOther(c: Chains, t: Tx, name: string) {
    && name in c && c[name] != []
    && var newest := c[name][|c[name]| - 1];
       newest.timestamp != t.id && newest.timestamp > t.startTS
  }

  /**
    For any number of writers: a create fails with a conflict exactly when the name is free for
    the transaction but another one has written it since. Else it fails exactly when the name is
    taken. If it succeeds the transaction finds the new entry, and all others what they found.
   */
  lemma {:induction false} CreateExactly(c: Chains, t: Tx, name: string, oid: nat, p: Payload, other: Tx)
    requires t.startTS < START_TRANSACTION_ID <= t.id && other.id != t.id && other.startTS < t.id
    ensures var (outcome, c', undo) := CreateNoLock(c, t, name, oid, p);
            && (outcome.AlreadyExists? <==> name in View(c, t))
            && (outcome.Conflict? <==> name !in View(c, t) && WrittenByOther(c, t, name))
            && (outcome.Done? <==> name !in View(c, t) && !WrittenByOther(c, t, name))
            && View(c', t) == (if outcome.Done? then View(c, t)[name := Live(oid, p)] else View(c, t))
            && View(c', other) == View(c, other)
  {
    var v := Version(oid, t.id, Some(p));
    PlaceholderUnseen(c, name, oid, t);
    PlaceholderUnseen(c, name, oid, other);
    PushSeen(WithPlaceholder(c, name, oid), name, v, t);
    PushUnseen(WithPlaceholder(c, name, oid), name, v, other);
  }

  /** A drop fails exactly when the transaction does not find the name; nobody checks for other writers. */
  lemma {:induction false} DropExactly(c: Chains, t: Tx, name: string, oid: nat, other: Tx)
    requires other.id != t.id && other.startTS < t.id
    ensures var (outcome, c', undo) := DropNoLock(c, t, name, oid);
            && outcome == (if name in View(c, t) then Done else DoesNotExist)
            && View(c', t) == View(c, t) - {name}
            && View(c', other) == View(c, other)
  {
    PushSeen(c, name, Version(oid, t.id, None), t);
    PushUnseen(c, name, Version(oid, t.id, None), other);
    if name !in View(c, t) { assert View(c, t) - {name} == View(c, t); }
  }

  /** An alteration replaces the entry and keeps its OID. */
  lemma {:induction false} AlterExactly(c: Chains, t: Tx, name: string, p: Payload, other: Tx)
    requires other.id != t.id && other.startTS < t.id
    ensures var (outcome, c', undo) := Alter(c, t, name, p);
            && outcome == (if name in View(c, t) then Done else DoesNotExist)
            && View(c', t) == (if outcome.Done? then View(c, t)[name := Live(View(c, t)[name].oid, p)] else View(c, t))
            && View(c', other) == View(c, other)
  {
    if name in View(c, t) {
      var v := Version(View(c, t)[name].oid, t.id, Some(p));
      PushSeen(c, name, v, t);
      PushUnseen(c, name, v, other);
    }
  }

  /** A rename that succeeds moves the entry, OID and all. */
  lemma {:induction false} RenameMoves(c: Chains, t: Tx, name: string, newName: string, other: Tx)
    requires t.startTS < START_TRANSACTION_ID <= t.id && other.id != t.id && other.startTS < t.id
    ensures var (outcome, c', undo) := Rename(c, t, name, newName);
            && (outcome.DoesNotExist? <==> name !in View(c, t))
            && (outcome.Done? ==> View(c', t) == (View(c, t) - {name})[newName := View(c, t)[name]])
            && View(c', other) == View(c, other)
  {
    if name in View(c, t) {
      var was := View(c, t)[name];
      var dropped := DropNoLock(c, t, name, was.oid).1;
      DropExactly(c, t, name, was.oid, other);
      CreateExactly(dropped, t, newName, was.oid, was.payload, other);
    }
  }

  /* ----- steps ----- */

  /** A transaction starting now finds everything committed so far. */
  lemma {:induction false} FindsCommitted(s: State)
    requires Inv(s)
    ensures CommittedView(s) == Replay(s.base, s.log)
  {
    UpToNow(s);
    OtherSees(s, Tx(s.lastID + 1, s.lastTS));
  }

  lemma {:induction false} UpToNow(s: State)
    requires Inv(s)
    ensures ReaderView(s, s.lastTS) == Replay(s.base, s.log)
    ensures s.writer.Some? ==> s.lastID + 1 != s.writer.value.id
  {
    AllUpTo(s.log, s.lastTS, s.lastTS);
  }

  lemma {:induction false} SnapshotsKept(s: State, step: Step)
    requires Inv(s) && Next(s, step).readers == s.readers
    ensures Snapshots(Next(s, step)) == Snapshots(s)
  {
    forall id | id in s.readers
      ensures View(Next(s, step).entries, Tx(id, s.readers[id])) == View(s.entries, Tx(id, s.readers[id]))
    {
      ReadersAreIsolated(s, step, id);
    }
  }

  lemma {:induction false} ReaderStarts(s: State)
    requires Inv(s)
    ensures Abstract(Next(s, BeginRead)) == SimpleNext(Abstract(s), BeginRead)
  {
    NextKeepsInv(s, BeginRead);
    FindsCommitted(s);
    FindsCommitted(Next(s, BeginRead));
    SnapshotAdded(s);
  }

  lemma {:induction false} SnapshotAdded(s: State)
    requires Inv(s)
    ensures Snapshots(Next(s, BeginRead)) == Snapshots(s)[s.lastID + 1 := CommittedView(s)]
  {
  }

  lemma {:induction false} WriterStarts(s: State)
    requires Inv(s)
    ensures Abstract(Next(s, BeginWrite)) == SimpleNext(Abstract(s), BeginWrite)
  {
    var s' := Next(s, BeginWrite);
    NextKeepsInv(s, BeginWrite);
    FindsCommitted(s);
    FindsCommitted(s');
    if s.writer.None? {
      WriterSeesAll(s');
      assert s'.log + s'.pending == s.log;
    }
  }

  /** A catalog change of the writer, which takes no other part of the state with it. */
  lemma {:induction false} WriterChanges(s: State, step: Step)
    requires Inv(s) && (step.DoCreate? || step.DoDrop? || step.DoAlter? || step.DoRename?)
    ensures Abstract(Next(s, step)) == SimpleNext(Abstract(s), step)
  {
    var s' := Next(s, step);
    if s.writer.Some? {
      NextKeepsInv(s, step);
      StepKeepsRest(s, step);
      SnapshotsKept(s, step);
      FindsCommitted(s);
      FindsCommitted(s');
      WriterFinds(s, step);
    }
  }

  lemma {:induction false} StepKeepsRest(s: State, step: Step)
    requires s.writer.Some? && (step.DoCreate? || step.DoDrop? || step.DoAlter? || step.DoRename?)
    ensures var s' := Next(s, step);
            && s'.writer.Some? && WriterTx(s') == WriterTx(s) && s'.readers == s.readers
            && s'.base == s.base && s'.log == s.log && s'.lastID == s.lastID && s'.lastTS == s.lastTS
  {
  }

  lemma {:induction false} WriterFinds(s: State, step: Step)
    requires Inv(s) && s.writer.Some? && (step.DoCreate? || step.DoDrop? || step.DoAlter? || step.DoRename?)
    ensures var s', view := Next(s, step), View(s.entries, WriterTx(s));
            && View(s'.entries, WriterTx(s)) == Changed(view, step, s.nextOID)
            && s'.nextOID == s.nextOID + if TakesOID(view, step) then 1 else 0
  {
    var t, view := WriterTx(s), View(s.entries, WriterTx(s));
    var other := Tx(s.lastID + 1, s.lastTS);
    WriterSeesAll(s);
    match step
    case DoCreate(name, p) =>
      CreateExactly(s.entries, t, name, s.nextOID, p, other);
      if name in s.entries { assert Sees(t, s.entries[name][|s.entries[name]| - 1]); }
    case DoDrop(name, oid) => DropExactly(s.entries, t, name, oid, other);
    case DoAlter(name, p, _) => AlterExactly(s.entries, t, name, p, other);
    case DoRename(name, newName) =>
      RenameMoves(s.entries, t, name, newName, other);
      if name in view && newName !in view { RenameExactly(s, name, newName); }
  }

  lemma {:induction false} WriterEnds(s: State, s': State, committed: Contents, clock: nat)
    requires s'.writer.None? && s'.nextOID == s.nextOID && s'.lastID == s.lastID && s'.lastTS == clock
    requires Snapshots(s') == Snapshots(s) && View(s'.entries, Tx(s.lastID + 1, clock)) == committed
    ensures Abstract(s') == Abstract(s).(committed := committed, working := None, clock := clock)
  {
  }

  lemma {:induction false} CommitKeepsRest(s: State)
    requires s.writer.Some? && s.lastTS + 1 < START_TRANSACTION_ID
    requires CanCommit(s.entries, s.writer.value.undo, s.lastTS + 1)
    ensures var s' := Next(s, CommitWrite);
            && s'.readers == s.readers && s'.writer.None? && s'.nextOID == s.nextOID
            && s'.lastID == s.lastID && s'.lastTS == s.lastTS + 1
  {
  }

  lemma {:induction false} CommitKeepsSnapshots(s: State)
    requires Inv(s) && s.writer.Some? && s.lastTS + 1 < START_TRANSACTION_ID
    ensures CanCommit(s.entries, s.writer.value.undo, s.lastTS + 1)
    ensures Snapshots(Next(s, CommitWrite)) == Snapshots(s)
  {
    CommitKeepsInv(s);
    CommitKeepsRest(s);
    SnapshotsKept(s, CommitWrite);
  }

  lemma {:induction false} WriterCommits(s: State)
    requires Inv(s)
    ensures Abstract(Next(s, CommitWrite)) == SimpleNext(Abstract(s), CommitWrite)
  {
    if s.writer.Some? && s.lastTS + 1 < START_TRANSACTION_ID { CommitEnds(s, Next(s, CommitWrite)); }
  }

  lemma {:induction false} CommitShows(s: State)
    requires Inv(s) && s.writer.Some? && s.lastTS + 1 < START_TRANSACTION_ID
    ensures View(Next(s, CommitWrite).entries, Tx(s.lastID + 1, s.lastTS + 1)) == View(s.entries, WriterTx(s))
  {
    CommitPublishes(s, Tx(s.lastID + 1, s.lastTS + 1));
  }

  lemma {:induction false} CommitEnds(s: State, s': State)
    requires Inv(s) && s.writer.Some? && s.lastTS + 1 < START_TRANSACTION_ID && s' == Next(s, CommitWrite)
    ensures Abstract(s') == Abstract(s).(committed := View(s.entries, WriterTx(s)), working := None, clock := s.lastTS + 1)
  {
    CommitShows(s);
    CommitKeepsSnapshots(s);
    CommitKeepsRest(s);
    WriterEnds(s, s', View(s.entries, WriterTx(s)), s.lastTS + 1);
  }

  lemma {:induction false} RollbackKeepsRest(s: State)
    requires s.writer.Some? && CanRollback(s.entries, s.writer.value.undo)
    ensures var s' := Next(s, RollbackWrite);
            && s'.readers == s.readers && s'.writer.None? && s'.nextOID == s.nextOID
            && s'.lastID == s.lastID && s'.lastTS == s.lastTS
  {
  }

  lemma {:induction false} RollbackKeepsSnapshots(s: State)
    requires Inv(s) && s.writer.Some?
    ensures CanRollback(s.entries, s.writer.value.undo)
    ensures Snapshots(Next(s, RollbackWrite)) == Snapshots(s)
  {
    RollbackKeepsInv(s);
    RollbackKeepsRest(s);
    SnapshotsKept(s, RollbackWrite);
  }

  lemma {:induction false} WriterRollsBack(s: State)
    requires Inv(s)
    ensures Abstract(Next(s, RollbackWrite)) == SimpleNext(Abstract(s), RollbackWrite)
  {
    if s.writer.Some? { RollbackEnds(s, Next(s, RollbackWrite)); }
  }

  lemma {:induction false} RollbackShows(s: State)
    requires Inv(s) && s.writer.Some?
    ensures View(Next(s, RollbackWrite).entries, Tx(s.lastID + 1, s.lastTS)) == CommittedView(s)
  {
    UpToNow(s);
    RollbackRestores(s, Tx(s.lastID + 1, s.lastTS));
  }

  lemma {:induction false} RollbackEnds(s: State, s': State)
    requires Inv(s) && s.writer.Some? && s' == Next(s, RollbackWrite)
    ensures Abstract(s') == Abstract(s).(working := None)
  {
    RollbackShows(s);
    RollbackKeepsSnapshots(s);
    RollbackKeepsRest(s);
    WriterEnds(s, s', CommittedView(s), s.lastTS);
  }

  lemma {:induction false} ReaderEnds(s: State, id: nat)
    ensures Abstract(Next(s, EndRead(id))) == SimpleNext(Abstract(s), EndRead(id))
  {
    assert Snapshots(Next(s, EndRead(id))) == Snapshots(s) - {id};
  }

  /** Each step of the versioned catalog does what the same step of the simple one does. */
  lemma {:induction false} StepRefines(s: State, step: Step)
    requires Inv(s)
    ensures Abstract(Next(s, step)) == SimpleNext(Abstract(s), step)
  {
    match step
    case BeginRead => ReaderStarts(s);
    case BeginWrite => WriterStarts(s);
    case CommitWrite => WriterCommits(s);
    case RollbackWrite => WriterRollsBack(s);
    case EndRead(id) => ReaderEnds(s, id);
    case _ => WriterChanges(s, step);
  }

  /* ----- runs ----- */

  /** So does every run, from any saved contents. */
  lemma {:induction false} RunRefines(saved: Contents, nextOID: nat, steps: seq<Step>)
    ensures Abstract(Run(Initial(saved, nextOID), steps)) ==
            SimpleRun(Simple(saved, None, map[], nextOID, START_TRANSACTION_ID, 1), steps)
  {
    if steps == [] {
      LoadedView(saved, Tx(START_TRANSACTION_ID + 1, 1));
    } else {
      var front := steps[..|steps| - 1];
      RunRefines(saved, nextOID, front);
      RunKeepsInv(saved, nextOID, front);
      StepRefines(Run(Initial(saved, nextOID), front), steps[|steps| - 1]);
    }
  }

  /** After any run, a reader that starts finds everything committed so far. */
  lemma {:induction false} NewReaderSees(saved: Contents, nextOID: nat, steps: seq<Step>)
    ensures var s := Run(Initial(saved, nextOID), steps);
            var s' := Next(s, BeginRead);
            && s'.lastID in s'.readers && s'.lastID !in s.readers
            && View(s'.entries, Tx(s'.lastID, s'.readers[s'.lastID])) == Replay(s.base, s.log)
  {
    var s := Run(Initial(saved, nextOID), steps);
    RunKeepsInv(saved, nextOID, steps);
    ReaderStarts(s);
    FindsCommitted(s);
    Snapshot(Next(s, BeginRead), s.lastID + 1);
  }

  lemma {:induction false} Snapshot(s: State, id: nat)
    requires id in s.readers
    ensures Snapshots(s)[id] == View(s.entries, Tx(id, s.readers[id]))
  {
  }

  /** So does a writer, if it may start. */
  lemma {:induction false} NewWriterSees(saved: Contents, nextOID: nat, steps: seq<Step>)
    ensures var s := Run(Initial(saved, nextOID), steps);
            var s' := Next(s, BeginWrite);
            && s'.writer.Some?
            && (s.writer.None? ==> View(s'.entries, WriterTx(s')) == Replay(s.base, s.log))
            && (s.writer.Some? ==> s' == s)
  {
    RunKeepsInv(saved, nextOID, steps);
    WriterStarts(Run(Initial(saved, nextOID), steps));
    FindsCommitted(Run(Initial(saved, nextOID), steps));
  }

  /** After any run, the reader that starts behind a commit finds what the writer found before it. */
  lemma {:induction false} CommitReachesReader(saved: Contents, nextOID: nat, steps: seq<Step>)
    ensures var s := Run(Initial(saved, nextOID), steps);
            var s' := Next(Next(s, CommitWrite), BeginRead);
            s.writer.Some? && s.lastTS + 1 < START_TRANSACTION_ID ==>
              && s'.writer.None? && s'.lastID in s'.readers
              && View(s'.entries, Tx(s'.lastID, s'.readers[s'.lastID])) == View(s.entries, WriterTx(s))
  {
    var s := Run(Initial(saved, nextOID), steps);
    RunKeepsInv(saved, nextOID, steps);
    if s.writer.Some? && s.lastTS + 1 < START_TRANSACTION_ID {
      CommitKeepsInv(s);
      WriterCommits(s);
      ReaderStarts(Next(s, CommitWrite));
      Snapshot(Next(Next(s, CommitWrite), BeginRead), s.lastID + 1);
    }
  }
}
