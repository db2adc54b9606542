/**
  The versioned catalog (catalog/catalog_set.cpp) and the part of the undo buffer that commits
  and rolls back its versions (storage/undo_buffer.cpp).

  A chain holds the versions of one name, oldest first. An undo record names the version just
  below the one it is about, by its position in the chain.
 */
module Catalogs {
  import opened Options

  const START_TRANSACTION_ID: nat := 0x8000_0000_0000_0000

  datatype Payload = Payload(persisted: bool, data: int)

  /** `entry` is absent in a tombstone and in the placeholder below the first version. */
  datatype Version = Version(oid: nat, timestamp: nat, entry: Option<Payload>)

  type Chains = map<string, seq<Version>>

  datatype Tx = Tx(id: nat, startTS: nat)

  datatype Undo = Undo(name: string, below: nat)

  datatype Outcome = Done | DoesNotExist | AlreadyExists | Conflict

  predicate Sees(t: Tx, v: Version) {
    v.timestamp == t.id || v.timestamp <= t.startTS
  }

  /** Position of the newest version a transaction sees, or -1. */
  function Visible(t: Tx, chain: seq<Version>): (i: int)
    ensures -1 <= i < |chain|
    ensures i >= 0 ==> Sees(t, chain[i])
    ensures forall j :: i < j < |chain| ==> !Sees(t, chain[j])
  {
    if chain == [] then -1
    else if Sees(t, chain[|chain| - 1]) then |chain| - 1
    else Visible(t, chain[..|chain| - 1])
  }

  /** Position of the newest committed version, or -1. */
  function Committed(chain: seq<Version>): (i: int)
    ensures -1 <= i < |chain|
    ensures i >= 0 ==> chain[i].timestamp < START_TRANSACTION_ID
    ensures forall j :: i < j < |chain| ==> chain[j].timestamp >= START_TRANSACTION_ID
  {
    if chain == [] then -1
    else if chain[|chain| - 1].timestamp < START_TRANSACTION_ID then |chain| - 1
    else Committed(chain[..|chain| - 1])
  }

  predicate Contains(c: Chains, t: Tx, name: string) {
    name in c && var i := Visible(t, c[name]); i >= 0 && c[name][i].entry.Some?
  }

  predicate WriteWriteConflict(t: Tx, v: Version) {
    || (v.timestamp >= START_TRANSACTION_ID && v.timestamp != t.id)
    || (v.timestamp < START_TRANSACTION_ID && v.timestamp > t.startTS)
  }

  function ChainOf(c: Chains, name: string): seq<Version> {
    if name in c then c[name] else []
  }

  /** emplaceNoLock: the new version goes on top of its chain. */
  function Emplace(c: Chains, name: string, v: Version): Chains {
    c[name := ChainOf(c, name) + [v]]
  }

  function CreateNoLock(c: Chains, t: Tx, name: string, oid: nat, p: Payload): (Outcome, Chains, seq<Undo>) {
    if Contains(c, t, name) then (AlreadyExists, c, [])
    else
      var chain := ChainOf(c, name);
      if chain != [] && WriteWriteConflict(t, chain[|chain| - 1]) then (Conflict, c, [])
      else if chain != [] && chain[|chain| - 1].entry.Some? then (AlreadyExists, c, [])
      else
        var c' := if name in c then c else c[name := [Version(oid, 0, None)]];
        (Done, Emplace(c', name, Version(oid, t.id, Some(p))), [Undo(name, if chain == [] then 0 else |chain| - 1)])
  }

  function DropNoLock(c: Chains, t: Tx, name: string, oid: nat): (Outcome, Chains, seq<Undo>) {
    if !Contains(c, t, name) then (DoesNotExist, c, [])
    else (Done, Emplace(c, name, Version(oid, t.id, None)), [Undo(name, |c[name]| - 1)])
  }

  /** Any alteration but a rename: a new version with the OID of the one the transaction sees. */
  function Alter(c: Chains, t: Tx, name: string, p: Payload): (Outcome, Chains, seq<Undo>) {
    if !Contains(c, t, name) then (DoesNotExist, c, [])
    else
      var i := Visible(t, c[name]);
      (Done, Emplace(c, name, Version(c[name][i].oid, t.id, Some(p))), [Undo(name, i)])
  }

  /**
    A rename is a drop and a create. When the create fails the exception leaves the dropped
    version in place, and no undo record has been pushed for it.
   */
  function Rename(c: Chains, t: Tx, name: string, newName: string): (Outcome, Chains, seq<Undo>) {
    if !Contains(c, t, name) then (DoesNotExist, c, [])
    else
      var i := Visible(t, c[name]);
      var v := c[name][i];
      var dropped := DropNoLock(c, t, name, v.oid).1;
      var (outcome, c', undo) := CreateNoLock(dropped, t, newName, v.oid, v.entry.value);
      if outcome.Done? then (Done, c', [Undo(name, i)] + undo) else (outcome, dropped, [])
  }

  predicate HasAbove(c: Chains, u: Undo) {
    u.name in c && u.below + 1 < |c[u.name]|
  }

  /** commitCatalogEntryRecord: stamps the version above the recorded one. */
  function CommitRecord(c: Chains, u: Undo, ts: nat): Chains
    requires HasAbove(c, u)
  {
    c[u.name := c[u.name][u.below + 1 := c[u.name][u.below + 1].(timestamp := ts)]]
  }

  /** rollbackCatalogEntryRecord: unlinks the version above the recorded one. */
  function RollbackRecord(c: Chains, u: Undo): Chains
    requires HasAbove(c, u)
  {
    c[u.name := c[u.name][..u.below + 1] + c[u.name][u.below + 2..]]
  }

  ghost predicate CanCommit(c: Chains, us: seq<Undo>, ts: nat)
    decreases |us|, 0
  {
    us != [] ==>
      && CanCommit(c, us[..|us| - 1], ts)
      && HasAbove(CommitAll(c, us[..|us| - 1], ts), us[|us| - 1])
  }

  /** Undo records are committed in the order they were pushed ... */
  ghost function CommitAll(c: Chains, us: seq<Undo>, ts: nat): Chains
    requires CanCommit(c, us, ts)
    decreases |us|, 1
  {
    if us == [] then c else CommitRecord(CommitAll(c, us[..|us| - 1], ts), us[|us| - 1], ts)
  }

  ghost predicate CanRollback(c: Chains, us: seq<Undo>) {
    us == [] || (HasAbove(c, us[|us| - 1]) && CanRollback(RollbackRecord(c, us[|us| - 1]), us[..|us| - 1]))
  }

  /** ... and rolled back in the opposite order. */
  ghost function RollbackAll(c: Chains, us: seq<Undo>): Chains
    requires CanRollback(c, us)
  {
    if us == [] then c else RollbackAll(RollbackRecord(c, us[|us| - 1]), us[..|us| - 1])
  }

  /* ----- views ----- */

  datatype Live = Live(oid: nat, payload: Payload)

  /** What a transaction finds under a name. */
  function Lookup(c: Chains, t: Tx, name: string): Option<Live> {
    if Contains(c, t, name) then
      var v := c[name][Visible(t, c[name])];
      Some(Live(v.oid, v.entry.value))
    else None
  }

  /** getEntries: all live entries a transaction sees. */
  function View(c: Chains, t: Tx): map<string, Live> {
    map name | name in c && Contains(c, t, name) :: Lookup(c, t, name).value
  }

  predicate Serialized(c: Chains, name: string) {
    && name in c && c[name] != []
    && !(c[name][|c[name]| - 1].entry.Some? && !c[name][|c[name]| - 1].entry.value.persisted)
    && var i := Committed(c[name]); i >= 0 && c[name][i].entry.Some?
  }

  /** What a checkpoint writes: the newest committed version of every name, kinds that are not persisted skipped. */
  function Serialize(c: Chains): map<string, Live> {
    map name | name in c && Serialized(c, name) ::
      var v := c[name][Committed(c[name])]; Live(v.oid, v.entry.value)
  }

  /** Loading a checkpoint: one version per name, older than every transaction. */
  function Deserialize(saved: map<string, Live>): Chains {
    map name | name in saved :: [Version(saved[name].oid, 0, Some(saved[name].payload))]
  }

  /* ----- the class ----- */

  class CatalogSet {
    var entries: Chains
    var nextOID: nat

    constructor (saved: map<string, Live>, nextOID: nat)
      ensures entries == Deserialize(saved) && this.nextOID == nextOID
    {
      entries := map[];
      this.nextOID := nextOID;
      new;
      var names := saved.Keys;
      while names != {}
        invariant names <= saved.Keys
        invariant entries == map name | name in saved && name !in names ::
                               [Version(saved[name].oid, 0, Some(saved[name].payload))]
        invariant this.nextOID == nextOID
        decreases |names|
      {
        var name :| name in names;
        var v := Version(saved[name].oid, 0, Some(saved[name].payload));
        assert name !in entries && ChainOf(entries, name) + [v] == [v];
        entries := Emplace(entries, name, v);
        names := names - {name};
      }
    }

    static method TraverseVersionChains(t: Tx, chain: seq<Version>) returns (i: int)
      ensures i == Visible(t, chain)
    {
      i := |chain| - 1;
      while i >= 0 && !Sees(t, chain[i])
        invariant -1 <= i < |chain|
        invariant Visible(t, chain) == Visible(t, chain[..i + 1])
      {
        assert chain[..i + 1][..i] == chain[..i];
        i := i - 1;
      }
      assert i >= 0 ==> chain[..i + 1][i] == chain[i];
    }

    static method GetCommittedEntry(chain: seq<Version>) returns (i: int)
      ensures i == Committed(chain)
    {
      i := |chain| - 1;
      while i >= 0 && chain[i].timestamp >= START_TRANSACTION_ID
        invariant -1 <= i < |chain|
        invariant Committed(chain) == Committed(chain[..i + 1])
      {
        assert chain[..i + 1][..i] == chain[..i];
        i := i - 1;
      }
      assert i >= 0 ==> chain[..i + 1][i] == chain[i];
    }

    method ContainsEntry(t: Tx, name: string) returns (b: bool)
      ensures b == Contains(entries, t, name)
    {
      if name !in entries { return false; }
      var i := TraverseVersionChains(t, entries[name]);
      return i >= 0 && entries[name][i].entry.Some?;
    }

    method GetEntry(t: Tx, name: string) returns (r: Option<Live>)
      ensures r == Lookup(entries, t, name)
    {
      var b := ContainsEntry(t, name);
      if !b { return None; }
      var i := TraverseVersionChains(t, entries[name]);
      return Some(Live(entries[name][i].oid, entries[name][i].entry.value));
    }

    /** The OID is taken before the checks, so a failed create still uses one up. */
    method CreateEntry(t: Tx, name: string, p: Payload) returns (outcome: Outcome, oid: nat, undo: seq<Undo>)
      modifies this
      ensures oid == old(nextOID) && nextOID == old(nextOID) + 1
      ensures (outcome, entries, undo) == CreateNoLock(old(entries), t, name, old(nextOID), p)
    {
      oid := nextOID;
      nextOID := nextOID + 1;
      outcome, undo := CreateEntryNoLock(t, name, oid, p);
    }

    method CreateEntryNoLock(t: Tx, name: string, oid: nat, p: Payload) returns (outcome: Outcome, undo: seq<Undo>)
      modifies this
      ensures nextOID == old(nextOID)
      ensures (outcome, entries, undo) == CreateNoLock(old(entries), t, name, oid, p)
    {
      var b := ContainsEntry(t, name);
      if b { return AlreadyExists, []; }
      if name in entries && entries[name] != [] {
        var existing := entries[name][|entries[name]| - 1];
        if WriteWriteConflict(t, existing) { return Conflict, []; }
        if existing.entry.Some? { return AlreadyExists, []; }
      }
      var below := if name in entries && entries[name] != [] then |entries[name]| - 1 else 0;
      if name !in entries {
        entries := entries[name := [Version(oid, 0, None)]];
      }
      entries := Emplace(entries, name, Version(oid, t.id, Some(p)));
      return Done, [Undo(name, below)];
    }

    method DropEntry(t: Tx, name: string, oid: nat) returns (outcome: Outcome, undo: seq<Undo>)
      modifies this
      ensures nextOID == old(nextOID)
      ensures (outcome, entries, undo) == DropNoLock(old(entries), t, name, oid)
    {
      var b := ContainsEntry(t, name);
      if !b { return DoesNotExist, []; }
      undo := [Undo(name, |entries[name]| - 1)];
      entries := Emplace(entries, name, Version(oid, t.id, None));
      outcome := Done;
    }

    /** Adding a connection to a relationship table takes an OID for it. */
    method AlterTableEntry(t: Tx, name: string, p: Payload, connects: bool) returns (outcome: Outcome, undo: seq<Undo>)
      modifies this
      ensures nextOID == old(nextOID) + if outcome.Done? && connects then 1 else 0
      ensures (outcome, entries, undo) == Alter(old(entries), t, name, p)
    {
      var b := ContainsEntry(t, name);
      if !b { return DoesNotExist, []; }
      if connects { nextOID := nextOID + 1; }
      var i := TraverseVersionChains(t, entries[name]);
      entries := Emplace(entries, name, Version(entries[name][i].oid, t.id, Some(p)));
      return Done, [Undo(name, i)];
    }

    method RenameTableEntry(t: Tx, name: string, newName: string) returns (outcome: Outcome, undo: seq<Undo>)
      modifies this
      ensures nextOID == old(nextOID)
      ensures (outcome, entries, undo) == Rename(old(entries), t, name, newName)
    {
      var b := ContainsEntry(t, name);
      if !b { return DoesNotExist, []; }
      var i := TraverseVersionChains(t, entries[name]);
      var v := entries[name][i];
      var _, _ := DropEntry(t, name, v.oid);
      var created, undo' := CreateEntryNoLock(t, newName, v.oid, v.entry.value);
      if !created.Done? { return created, []; }
      return Done, [Undo(name, i)] + undo';
    }

    method GetEntries(t: Tx) returns (result: map<string, Live>)
      ensures result == View(entries, t)
    {
      result := map[];
      var names := entries.Keys;
      while names != {}
        invariant names <= entries.Keys
        invariant result == map name | name in entries && name !in names && Contains(entries, t, name) ::
                              Lookup(entries, t, name).value
        decreases |names|
      {
        var name :| name in names;
        var found := GetEntry(t, name);
        if found.Some? {
          result := result[name := found.value];
        }
        names := names - {name};
      }
    }

    /** Matches on the OID of the newest version of each chain, in no particular order. */
    method GetEntryOfOID(t: Tx, oid: nat) returns (r: Option<Live>)
      requires forall name :: name in entries ==> entries[name] != []
      ensures ByOID(entries, t, oid, r)
    {
      var names := entries.Keys;
      while names != {}
        invariant names <= entries.Keys
        invariant forall name :: NewestHas(entries, name, oid) && name !in names ==> Lookup(entries, t, name).None?
        decreases |names|
      {
        var name :| name in names;
        if entries[name][|entries[name]| - 1].oid == oid {
          var found := GetEntry(t, name);
          if found.Some? { return found; }
        }
        names := names - {name};
      }
      return None;
    }

    method SerializeEntries() returns (saved: map<string, Live>, savedOID: nat)
      requires forall name :: name in entries ==> entries[name] != []
      ensures saved == Serialize(entries) && savedOID == nextOID
    {
      saved := map[];
      savedOID := nextOID;
      var names := entries.Keys;
      while names != {}
        invariant names <= entries.Keys
        invariant saved == map name | name in entries && name !in names && Serialized(entries, name) ::
                             var v := entries[name][Committed(entries[name])]; Live(v.oid, v.entry.value)
        decreases |names|
      {
        var name :| name in names;
        var newest := entries[name][|entries[name]| - 1];
        if !(newest.entry.Some? && !newest.entry.value.persisted) {
          var i := GetCommittedEntry(entries[name]);
          if i >= 0 && entries[name][i].entry.Some? {
            saved := saved[name := Live(entries[name][i].oid, entries[name][i].entry.value)];
          }
        }
        names := names - {name};
      }
    }

    /** UndoBuffer::commit */
    method CommitUndo(undo: seq<Undo>, ts: nat)
      requires CanCommit(entries, undo, ts)
      modifies this
      ensures nextOID == old(nextOID)
      ensures entries == CommitAll(old(entries), undo, ts)
    {
      var k := 0;
      CanCommitPrefix(entries, undo, ts);
      while k < |undo|
        invariant 0 <= k <= |undo|
        invariant nextOID == old(nextOID)
        invariant entries == CommitAll(old(entries), undo[..k], ts)
      {
        assert undo[..k + 1][..k] == undo[..k];
        entries := CommitRecord(entries, undo[k], ts);
        k := k + 1;
      }
      assert undo[..k] == undo;
    }

    /** UndoBuffer::rollback */
    method RollbackUndo(undo: seq<Undo>)
      requires CanRollback(entries, undo)
      modifies this
      ensures nextOID == old(nextOID)
      ensures entries == RollbackAll(old(entries), undo)
    {
      var k := |undo|;
      assert undo[..k] == undo;
      while k > 0
        invariant 0 <= k <= |undo|
        invariant nextOID == old(nextOID)
        invariant CanRollback(entries, undo[..k])
        invariant RollbackAll(entries, undo[..k]) == RollbackAll(old(entries), undo)
      {
        assert undo[..k][k - 1] == undo[k - 1] && undo[..k][..k - 1] == undo[..k - 1];
        entries := RollbackRecord(entries, undo[k - 1]);
        k := k - 1;
      }
    }
  }

  lemma {:induction false} CanCommitPrefix(c: Chains, us: seq<Undo>, ts: nat)
    requires CanCommit(c, us, ts)
    ensures forall k :: 0 <= k <= |us| ==> CanCommit(c, us[..k], ts)
  {
    assert us[..|us|] == us;
    if us != [] {
      var front := us[..|us| - 1];
      CanCommitPrefix(c, front, ts);
      assert forall k :: 0 <= k < |us| ==> front[..k] == us[..k];
    }
  }

  predicate NewestHas(c: Chains, name: string, oid: nat) {
    name in c && c[name] != [] && c[name][|c[name]| - 1].oid == oid
  }

  /** What looking up an OID may find: an entry live under some name whose newest version has the OID. */
  ghost predicate ByOID(c: Chains, t: Tx, oid: nat, r: Option<Live>) {
    if r.Some? then exists name :: NewestHas(c, name, oid) && Lookup(c, t, name) == r
    else forall name :: NewestHas(c, name, oid) ==> Lookup(c, t, name).None?
  }
}
