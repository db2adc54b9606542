/**
  Runs of transactions over the versioned catalog, with one writer at a time
  (transaction/transaction_manager.cpp refuses a second one), and the history of a run: the base
  the catalog was loaded from, the changes of the committed transactions in commit order, and the
  changes of the running writer.
 */
module CatalogHistory {
  import opened Options
  import opened Catalogs

  /** One version pushed on the chain of `name`, stamped like the version. */
  datatype Change = Change(name: string, oid: nat, entry: Option<Payload>, ts: nat)

  datatype Writer = Writer(id: nat, startTS: nat, undo: seq<Undo>)

  /**
    The catalog and the transaction manager, with the history kept beside them. `readers` maps
    the running read-only transactions to their start timestamps; `log` holds the committed
    changes, `pending` those of the running writer.
   */
  datatype State = State(entries: Chains, nextOID: nat, lastID: nat, lastTS: nat,
                         readers: map<nat, nat>, writer: Option<Writer>,
                         base: map<string, Live>, log: seq<Change>, pending: seq<Change>)

  /** Catalog changes are made by the running writer. */
  datatype Step =
    | BeginRead
    | BeginWrite
    | DoCreate(name: string, p: Payload)
    | DoDrop(name: string, oid: nat)
    | DoAlter(name: string, p: Payload, connects: bool)
    | DoRename(name: string, newName: string)
    | CommitWrite
    | RollbackWrite
    | EndRead(id: nat)

  /* ----- the reference: replaying changes ----- */

  function Apply(view: map<string, Live>, c: Change): map<string, Live> {
    if c.entry.Some? then view[c.name := Live(c.oid, c.entry.value)] else view - {c.name}
  }

  function Replay(view: map<string, Live>, cs: seq<Change>): map<string, Live> {
    if cs == [] then view else Apply(Replay(view, cs[..|cs| - 1]), cs[|cs| - 1])
  }

  /** The changes committed at or before `ts`, in commit order. */
  function UpTo(log: seq<Change>, ts: nat): seq<Change> {
    if log == [] then []
    else if log[|log| - 1].ts <= ts then UpTo(log[..|log| - 1], ts) + [log[|log| - 1]]
    else UpTo(log[..|log| - 1], ts)
  }

  /** What a reader that started at `startTS` should see. */
  function ReaderView(s: State, startTS: nat): map<string, Live> {
    Replay(s.base, UpTo(s.log, startTS))
  }

  /** What the writer should see: everything committed, and its own changes. */
  function WriterView(s: State): map<string, Live> {
    Replay(s.base, s.log + s.pending)
  }

  /* ----- the machine ----- */

  function WriterTx(s: State): Tx
    requires s.writer.Some?
  {
    Tx(s.writer.value.id, s.writer.value.startTS)
  }

  /** Records the outcome of one catalog operation of the writer. */
  function After(s: State, entries: Chains, undo: seq<Undo>, changes: seq<Change>): State
    requires s.writer.Some?
  {
    var w := s.writer.value;
    s.(entries := entries, writer := Some(w.(undo := w.undo + undo)), pending := s.pending + changes)
  }

  function Restamp(cs: seq<Change>, ts: nat): seq<Change> {
    if cs == [] then [] else Restamp(cs[..|cs| - 1], ts) + [cs[|cs| - 1].(ts := ts)]
  }

  /** A step that is not enabled leaves the state alone. */
  ghost function Next(s: State, step: Step): State {
    match step
    case BeginRead => s.(lastID := s.lastID + 1, readers := s.readers[s.lastID + 1 := s.lastTS])
    case BeginWrite =>
      if s.writer.Some? then s
      else s.(lastID := s.lastID + 1, writer := Some(Writer(s.lastID + 1, s.lastTS, [])))
    case DoCreate(name, p) =>
      if s.writer.None? then s
      else
        var t := WriterTx(s);
        var (outcome, entries, undo) := CreateNoLock(s.entries, t, name, s.nextOID, p);
        var s' := s.(nextOID := s.nextOID + 1);
        if outcome.Done? then After(s', entries, undo, [Change(name, s.nextOID, Some(p), t.id)]) else s'
    case DoDrop(name, oid) =>
      if s.writer.None? then s
      else
        var t := WriterTx(s);
        var (outcome, entries, undo) := DropNoLock(s.entries, t, name, oid);
        if outcome.Done? then After(s, entries, undo, [Change(name, oid, None, t.id)]) else s
    case DoAlter(name, p, connects) =>
      if s.writer.None? then s
      else
        var t := WriterTx(s);
        var (outcome, entries, undo) := Alter(s.entries, t, name, p);
        if outcome.Done? then
          After(s.(nextOID := AfterAlter(s, connects)), entries, undo,
                [Change(name, Lookup(s.entries, t, name).value.oid, Some(p), t.id)])
        else s
    case DoRename(name, newName) =>
      // Alter checks for the new name before it reaches the catalog.
      if s.writer.None? || Contains(s.entries, WriterTx(s), newName) then s
      else
        var t := WriterTx(s);
        var (outcome, entries, undo) := Rename(s.entries, t, name, newName);
        if outcome.Done? then
          var was := Lookup(s.entries, t, name).value;
          After(s, entries, undo, [Change(name, was.oid, None, t.id), Change(newName, was.oid, Some(was.payload), t.id)])
        else s
    case CommitWrite =>
      if s.writer.None? || s.lastTS + 1 >= START_TRANSACTION_ID then s
      else if !CanCommit(s.entries, s.writer.value.undo, s.lastTS + 1) then s
      else AfterCommit(s, CommitAll(s.entries, s.writer.value.undo, s.lastTS + 1))
    case RollbackWrite =>
      if s.writer.None? || !CanRollback(s.entries, s.writer.value.undo) then s
      else s.(entries := RollbackAll(s.entries, s.writer.value.undo), writer := None, pending := [])
    case EndRead(id) => s.(readers := s.readers - {id})
  }

  function AfterAlter(s: State, connects: bool): nat {
    s.nextOID + if connects then 1 else 0
  }

  function AfterCommit(s: State, entries: Chains): State {
    s.(entries := entries, lastTS := s.lastTS + 1, writer := None,
       log := s.log + Restamp(s.pending, s.lastTS + 1), pending := [])
  }

  /** A catalog just loaded; timestamps start from 1 and 0 is older than every transaction. */
  function Initial(saved: map<string, Live>, nextOID: nat): State {
    State(Deserialize(saved), nextOID, START_TRANSACTION_ID, 1, map[], None, saved, [], [])
  }

  ghost function Run(s: State, steps: seq<Step>): State {
    if steps == [] then s else Next(Run(s, steps[..|steps| - 1]), steps[|steps| - 1])
  }

  /* ----- histories ----- */

  /** The versions a history puts on one chain. */
  function VersionsOf(h: seq<Change>, name: string): seq<Version> {
    if h == [] then []
    else if h[|h| - 1].name == name then VersionsOf(h[..|h| - 1], name) + [VersionFor(h[|h| - 1])]
    else VersionsOf(h[..|h| - 1], name)
  }

  function VersionFor(e: Change): Version {
    Version(e.oid, e.ts, e.entry)
  }

  ghost predicate ChainMatches(c: Chains, base: map<string, Live>, h: seq<Change>, name: string) {
    if name in c then
      && c[name] != []
      && c[name][0].timestamp == 0
      && (name in base ==> c[name][0] == Version(base[name].oid, 0, Some(base[name].payload)))
      && (name !in base ==> c[name][0].entry.None?)
      && c[name][1..] == VersionsOf(h, name)
    else name !in base && VersionsOf(h, name) == []
  }

  /** Every chain is a bottom version followed by the history of its name. */
  ghost predicate ChainsMatch(c: Chains, base: map<string, Live>, h: seq<Change>) {
    forall name :: ChainMatches(c, base, h, name)
  }

  lemma {:induction false} VersionsConcat(a: seq<Change>, b: seq<Change>, name: string)
    ensures VersionsOf(a + b, name) == VersionsOf(a, name) + VersionsOf(b, name)
  {
    if b == [] {
      assert a + b == a;
    } else {
      assert (a + b)[..|a + b| - 1] == a + b[..|b| - 1];
      VersionsConcat(a, b[..|b| - 1], name);
    }
  }

  lemma {:induction false} VersionsOne(e: Change, name: string)
    ensures VersionsOf([e], name) == if e.name == name then [VersionFor(e)] else []
  {
    assert [e][..0] == [];
  }

  lemma {:induction false} VersionsSnoc(h: seq<Change>, e: Change, name: string)
    ensures VersionsOf(h + [e], name) ==
            if e.name == name then VersionsOf(h, name) + [VersionFor(e)] else VersionsOf(h, name)
  {
    assert (h + [e])[..|h|] == h;
  }

  lemma {:induction false} VersionsStamps(h: seq<Change>, name: string, p: nat -> bool)
    requires forall i :: 0 <= i < |h| ==> p(h[i].ts)
    ensures forall i :: 0 <= i < |VersionsOf(h, name)| ==> p(VersionsOf(h, name)[i].timestamp)
  {
    if h != [] { VersionsStamps(h[..|h| - 1], name, p); }
  }

  /** The newest version a history leaves on a chain is what replaying the history finds. */
  lemma {:induction false} NewestIsReplay(base: map<string, Live>, h: seq<Change>, bottom: Version, name: string)
    requires name in base ==> bottom == Version(base[name].oid, 0, Some(base[name].payload))
    requires name !in base ==> bottom.entry.None?
    ensures var chain := [bottom] + VersionsOf(h, name);
            var v := chain[|chain| - 1];
            var view := Replay(base, h);
            (name in view <==> v.entry.Some?) && (name in view ==> view[name] == Live(v.oid, v.entry.value))
  {
    if h != [] { NewestIsReplay(base, h[..|h| - 1], bottom, name); }
  }

  /** If a transaction sees exactly a prefix of the history, its view is the replay of that prefix. */
  lemma {:induction false} ViewIsReplay(c: Chains, base: map<string, Live>, seen: seq<Change>, unseen: seq<Change>, t: Tx)
    requires ChainsMatch(c, base, seen + unseen)
    requires forall i :: 0 <= i < |seen| ==> seen[i].ts == t.id || seen[i].ts <= t.startTS
    requires forall i :: 0 <= i < |unseen| ==> unseen[i].ts != t.id && unseen[i].ts > t.startTS
    ensures View(c, t) == Replay(base, seen)
    ensures forall name :: name in c ==> c[name] != [] && Visible(t, c[name]) == |VersionsOf(seen, name)|
  {
    var view := Replay(base, seen);
    forall name
      ensures name in c ==> c[name] != [] && Visible(t, c[name]) == |VersionsOf(seen, name)|
      ensures Contains(c, t, name) <==> name in view
      ensures name in view ==> Lookup(c, t, name) == Some(view[name])
    {
      assert ChainMatches(c, base, seen + unseen, name);
      VersionsConcat(seen, unseen, name);
      if name in c {
        VisibleAt(c[name], t, seen, unseen, name);
        NewestIsReplay(base, seen, c[name][0], name);
        assert ([c[name][0]] + VersionsOf(seen, name))[|VersionsOf(seen, name)|] == c[name][|VersionsOf(seen, name)|];
      } else {
        NewestIsReplay(base, seen, Version(0, 0, None), name);
      }
    }
  }

  lemma {:induction false} VisibleAt(chain: seq<Version>, t: Tx, seen: seq<Change>, unseen: seq<Change>, name: string)
    requires chain != [] && chain[0].timestamp == 0
    requires chain[1..] == VersionsOf(seen, name) + VersionsOf(unseen, name)
    requires forall i :: 0 <= i < |seen| ==> seen[i].ts == t.id || seen[i].ts <= t.startTS
    requires forall i :: 0 <= i < |unseen| ==> unseen[i].ts != t.id && unseen[i].ts > t.startTS
    ensures Visible(t, chain) == |VersionsOf(seen, name)|
    ensures forall i :: 0 <= i < |VersionsOf(seen, name)| ==> chain[i + 1] == VersionsOf(seen, name)[i]
  {
    var a, b := VersionsOf(seen, name), VersionsOf(unseen, name);
    VersionsStamps(seen, name, ts => ts == t.id || ts <= t.startTS);
    VersionsStamps(unseen, name, ts => ts != t.id && ts > t.startTS);
    assert forall i :: 0 < i < |chain| ==> chain[i] == (a + b)[i - 1];
    assert forall j :: |a| < j < |chain| ==> chain[j] == b[j - 1 - |a|];
    assert |a| > 0 ==> chain[|a|] == a[|a| - 1];
  }

  /* ----- the invariants ----- */

  /** Each undo record points at the version below the one its change pushed. */
  ghost predicate UndoMatches(undo: seq<Undo>, log: seq<Change>, pending: seq<Change>) {
    && |undo| == |pending|
    && (pending != [] ==>
          var m := |pending| - 1;
          && undo[m] == Undo(pending[m].name, |VersionsOf(log + pending[..m], pending[m].name)|)
          && UndoMatches(undo[..m], log, pending[..m]))
  }

  /** Committed changes come in the order of their timestamps, from above 0 to at most `last`. */
  ghost predicate Ordered(log: seq<Change>, last: nat) {
    log != [] ==>
      var c := log[|log| - 1];
      0 < c.ts <= last && Ordered(log[..|log| - 1], c.ts)
  }

  ghost predicate AllStamped(cs: seq<Change>, ts: nat) {
    forall i :: 0 <= i < |cs| ==> cs[i].ts == ts
  }

  ghost predicate WriterOk(s: State, w: Writer) {
    && START_TRANSACTION_ID < w.id <= s.lastID && w.id !in s.readers && w.startTS == s.lastTS
    && AllStamped(s.pending, w.id)
    && UndoMatches(w.undo, s.log, s.pending)
  }

  ghost predicate Inv(s: State) {
    && START_TRANSACTION_ID <= s.lastID && 1 <= s.lastTS < START_TRANSACTION_ID
    && (forall id :: id in s.readers ==> START_TRANSACTION_ID < id <= s.lastID && s.readers[id] <= s.lastTS)
    && Ordered(s.log, s.lastTS)
    && ChainsMatch(s.entries, s.base, s.log + s.pending)
    && (if s.writer.None? then s.pending == [] else WriterOk(s, s.writer.value))
  }

  /** No two names share an OID, and all OIDs have been handed out. */
  ghost predicate UniqueOIDs(view: map<string, Live>, nextOID: nat) {
    && (forall a :: a in view ==> view[a].oid < nextOID)
    && (forall a, b :: a in view && b in view && view[a].oid == view[b].oid ==> a == b)
  }

  /** ... and this was so after every change. */
  ghost predicate AlwaysUniqueOIDs(base: map<string, Live>, cs: seq<Change>, nextOID: nat) {
    && UniqueOIDs(Replay(base, cs), nextOID)
    && (cs != [] ==> AlwaysUniqueOIDs(base, cs[..|cs| - 1], nextOID))
  }

  ghost predicate OIDInv(s: State) {
    AlwaysUniqueOIDs(s.base, s.log + s.pending, s.nextOID)
  }
}
