/**
  Concrete runs of the versioned catalog in which it does less than it promises.
 */
module CatalogExamples {
  import opened Options
  import opened Catalogs
  import opened CatalogHistory
  import opened CatalogSteps
  import opened CatalogCommits
  import opened CatalogRuns

  /* ----- a rename that fails half-way ----- */

  const P := Payload(true, 0)
  const Q := Payload(true, 1)

  /** Two tables, "a" with OID 0 and "b" with OID 1. */
  const TwoTables: Chains := map["a" := [Version(0, 0, Some(P))], "b" := [Version(1, 0, Some(P))]]

  /**
    Renaming "a" to the existing "b" fails, but leaves a tombstone without an undo record on
    "a". Nobody sees it, until a later transaction alters "a" and commits: its undo record
    points at the version it saw, so the commit stamps the tombstone, and the table is gone.
   */
  lemma {:induction false} FailedRenameLosesTable()
    ensures var first, second, later := Tx(START_TRANSACTION_ID + 1, 1), Tx(START_TRANSACTION_ID + 2, 1), Tx(START_TRANSACTION_ID + 3, 2);
            var (o1, c1, u1) := Rename(TwoTables, first, "a", "b");
            var (o2, c2, u2) := Alter(c1, second, "a", Q);
            && o1.AlreadyExists? && u1 == [] && Contains(c1, second, "a")
            && o2.Done? && CanCommit(c2, u2, 2)
            && !Contains(CommitAll(c2, u2, 2), later, "a")
  {
    var first, second, later := Tx(START_TRANSACTION_ID + 1, 1), Tx(START_TRANSACTION_ID + 2, 1), Tx(START_TRANSACTION_ID + 3, 2);
    var a0, b0, gone := Version(0, 0, Some(P)), Version(1, 0, Some(P)), Version(0, START_TRANSACTION_ID + 1, None);
    assert Visible(first, [a0]) == 0 && Visible(first, [b0]) == 0;
    var (o1, c1, u1) := Rename(TwoTables, first, "a", "b");
    assert c1["a"] == [a0, gone];
    assert Visible(second, [a0, gone]) == 0 by { assert [a0, gone][..1] == [a0]; }
    var (o2, c2, u2) := Alter(c1, second, "a", Q);
    var altered := Version(0, START_TRANSACTION_ID + 2, Some(Q));
    assert c2["a"] == [a0, gone, altered] && u2 == [Undo("a", 0)];
    var c3 := CommitRecord(c2, u2[0], 2);
    assert CommitAll(c2, u2, 2) == c3 by { assert u2[..0] == []; }
    var chain := c3["a"];
    assert chain == [a0, gone.(timestamp := 2), altered];
    assert Visible(later, chain) == 1 by { assert chain[..2] == [a0, gone.(timestamp := 2)]; }
  }

  /* ----- a name that is reused ----- */

  const OneTable: map<string, Live> := map["a" := Live(0, P)]

  /** A reader is open while "a" is dropped and created again. */
  const Reuse: seq<Step> := [BeginRead, BeginWrite, DoDrop("a", 0), DoCreate("a", Q)]

  lemma {:induction false} RunSnoc(s: State, steps: seq<Step>, step: Step)
    ensures Run(s, steps + [step]) == Next(Run(s, steps), step)
  {
    assert (steps + [step])[..|steps|] == steps;
  }

  /** The states of that run up to the drop. */
  lemma {:induction false} ReuseStarts(s: State)
    requires s == Run(Initial(OneTable, 1), [BeginRead, BeginWrite])
    ensures s == State(map["a" := [Version(0, 0, Some(P))]], 1, START_TRANSACTION_ID + 2, 1,
                       map[START_TRANSACTION_ID + 1 := 1], Some(Writer(START_TRANSACTION_ID + 2, 1, [])),
                       OneTable, [], [])
  {
    var i := Initial(OneTable, 1);
    RunSnoc(i, [], BeginRead);
    RunSnoc(i, [BeginRead], BeginWrite);
    assert [] + [BeginRead] == [BeginRead] && [BeginRead] + [BeginWrite] == [BeginRead, BeginWrite];
    assert Deserialize(OneTable) == map["a" := [Version(0, 0, Some(P))]];
  }

  lemma {:induction false} ReuseDrops(s: State)
    requires s.entries == map["a" := [Version(0, 0, Some(P))]]
    requires s.writer == Some(Writer(START_TRANSACTION_ID + 2, 1, []))
    ensures var s' := Next(s, DoDrop("a", 0));
            && s'.entries == map["a" := [Version(0, 0, Some(P)), Version(0, START_TRANSACTION_ID + 2, None)]]
            && s'.writer.Some? && WriterTx(s') == WriterTx(s) && s'.nextOID == s.nextOID && s'.readers == s.readers
  {
    var a0 := Version(0, 0, Some(P));
    assert Sees(WriterTx(s), a0) && Visible(WriterTx(s), [a0]) == 0;
    NextDrop(s, "a", 0);
    assert [a0] + [Version(0, START_TRANSACTION_ID + 2, None)] == [a0, Version(0, START_TRANSACTION_ID + 2, None)];
  }

  lemma {:induction false} ReuseCreates(s: State)
    requires s.entries == map["a" := [Version(0, 0, Some(P)), Version(0, START_TRANSACTION_ID + 2, None)]]
    requires s.writer.Some? && WriterTx(s) == Tx(START_TRANSACTION_ID + 2, 1) && s.nextOID == 1
    ensures var s' := Next(s, DoCreate("a", Q));
            && s'.entries == map["a" := [Version(0, 0, Some(P)), Version(0, START_TRANSACTION_ID + 2, None),
                                         Version(1, START_TRANSACTION_ID + 2, Some(Q))]]
            && s'.readers == s.readers
  {
    var t, gone := WriterTx(s), Version(0, START_TRANSACTION_ID + 2, None);
    var chain := [Version(0, 0, Some(P)), gone];
    assert Sees(t, gone) && Visible(t, chain) == 1;
    NextCreate(s, "a", Q);
    var created := Version(1, START_TRANSACTION_ID + 2, Some(Q));
    assert chain + [created] == [Version(0, 0, Some(P)), gone, created];
  }

  lemma {:induction false} ReuseChain(s: State)
    requires s == Run(Initial(OneTable, 1), Reuse)
    ensures s.entries == map["a" := [Version(0, 0, Some(P)), Version(0, START_TRANSACTION_ID + 2, None),
                                     Version(1, START_TRANSACTION_ID + 2, Some(Q))]]
    ensures s.readers == map[START_TRANSACTION_ID + 1 := 1]
  {
    var i, two := Initial(OneTable, 1), [BeginRead, BeginWrite];
    RunSnoc(i, two, DoDrop("a", 0));
    RunSnoc(i, two + [DoDrop("a", 0)], DoCreate("a", Q));
    assert two + [DoDrop("a", 0)] + [DoCreate("a", Q)] == Reuse;
    ReuseStarts(Run(i, two));
    ReuseDrops(Run(i, two));
    ReuseCreates(Run(i, two + [DoDrop("a", 0)]));
  }

  /** Looking up the new OID then finds the old table, and looking up the old OID finds nothing. */
  lemma {:induction false} ReusedNameConfusesReader(s: State)
    requires s == Run(Initial(OneTable, 1), Reuse)
    ensures var reader := Tx(START_TRANSACTION_ID + 1, 1);
            && reader.id in s.readers && s.readers[reader.id] == reader.startTS
            && View(s.entries, reader) == OneTable
            && ByOID(s.entries, reader, 1, Some(Live(0, P)))
            && ByOID(s.entries, reader, 0, None)
  {
    var reader := Tx(START_TRANSACTION_ID + 1, 1);
    ReuseChain(s);
    var chain := s.entries["a"];
    assert Sees(reader, chain[0]) && !Sees(reader, chain[1]) && !Sees(reader, chain[2]);
    assert Visible(reader, chain) == 0;
    assert NewestHas(s.entries, "a", 1) && Lookup(s.entries, reader, "a") == Some(Live(0, P));
  }

  /* ----- a function that is being dropped ----- */

  const F := Payload(false, 0)
  const OneFunction: map<string, Live> := map["f" := Live(0, F)]

  /** While a function, which is of a kind that is not persisted, is being dropped, a checkpoint would save it. */
  lemma {:induction false} DropBaresFunction(s: State)
    requires s == Next(Next(Initial(OneFunction, 1), BeginWrite), DoDrop("f", 0))
    ensures Inv(s)
    ensures Serialize(s.entries) == OneFunction && Persisted(ReaderView(s, s.lastTS)) == map[]
  {
    var i := Initial(OneFunction, 1);
    InitialInv(OneFunction, 1);
    NextKeepsInv(i, BeginWrite);
    NextKeepsInv(Next(i, BeginWrite), DoDrop("f", 0));
    FunctionDropped(Next(i, BeginWrite));
    FunctionSaved(s.entries);
  }

  lemma {:induction false} FunctionDropped(s: State)
    requires s == Next(Initial(OneFunction, 1), BeginWrite)
    ensures var s' := Next(s, DoDrop("f", 0));
            && s'.entries == map["f" := [Version(0, 0, Some(F)), Version(0, START_TRANSACTION_ID + 1, None)]]
            && s'.log == [] && s'.base == OneFunction
  {
    var f0 := Version(0, 0, Some(F));
    assert s.entries == map["f" := [f0]];
    assert Sees(WriterTx(s), f0) && Visible(WriterTx(s), [f0]) == 0;
    NextDrop(s, "f", 0);
    assert [f0] + [Version(0, START_TRANSACTION_ID + 1, None)] == [f0, Version(0, START_TRANSACTION_ID + 1, None)];
  }

  lemma {:induction false} FunctionSaved(c: Chains)
    requires c == map["f" := [Version(0, 0, Some(F)), Version(0, START_TRANSACTION_ID + 1, None)]]
    ensures Serialize(c) == OneFunction
  {
    var chain := c["f"];
    assert chain[1].timestamp >= START_TRANSACTION_ID && chain[0].timestamp < START_TRANSACTION_ID;
    assert Committed(chain) == 0;
    assert Serialized(c, "f");
  }
}
