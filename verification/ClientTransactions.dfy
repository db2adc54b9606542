/**
  How a connection wraps its statements in transactions (main/client_context.cpp,
  transaction/transaction_context.cpp). Exceptions are outcomes; what statements do to the data
  is not part of this model, only how they end.
 */
module ClientTransactions {
  import opened Options

  datatype Mode = Auto | Manual

  datatype TransactionType = ReadOnly | Write

  /** How a call ends: normally, with an exception, or with a failed checkpoint. */
  datatype Outcome = Done | Failed | CheckpointFailed

  datatype TransactionAction = BeginRead | BeginWrite | Commit | Rollback | Checkpoint

  datatype CommitAction = CommitIfNew | CommitIfAuto | CommitNewOrAuto | NotCommit

  /** What happens outside: whether another connection holds the write transaction, and how a commit ends. */
  datatype World = World(otherWriter: bool, commit: Outcome)

  /**
    A statement and how its parts end: the analysis whether it only reads, binding and planning,
    and running it. `action` is set for a transaction statement.
   */
  datatype Statement = Statement(action: Option<TransactionAction>, readOnly: bool, requireTransaction: bool,
                                 analysis: Outcome, binding: Outcome, running: Outcome,
                                 analysing: World, preparing: World, executing: World)

  /** What is run inside of a transaction. */
  datatype Fun = Work(outcome: Outcome) | Act(action: TransactionAction, outcome: Outcome)

  /** Mode and open transaction of a connection, and how often the assertion on entry has failed. */
  datatype Context = Context(mode: Mode, active: Option<TransactionType>, violations: nat)

  const START := Context(Auto, None, 0)

  /** A transaction is open or can be begun. */
  predicate Sound(c: Context) { c.mode.Auto? || c.active.Some? }

  /** Between calls: in auto mode nothing is open. */
  predicate Idle(c: Context) { !(c.mode.Auto? && c.active.Some?) }

  predicate CommitsNew(action: CommitAction) { action.CommitIfNew? || action.CommitNewOrAuto? }

  predicate CommitsAuto(action: CommitAction) { action.CommitIfAuto? || action.CommitNewOrAuto? }

  /* ----- what the calls do ----- */

  function Cleared(c: Context): Context { c.(mode := Auto, active := None) }

  function Begin(c: Context, t: TransactionType, world: World): (Context, Outcome) {
    if t.Write? && world.otherWriter then (c, Failed) else (c.(active := Some(t)), Done)
  }

  function CommitOf(c: Context, world: World): (Context, Outcome) {
    if c.active.None? then (c, Done)
    else if world.commit.Done? then (Cleared(c), Done)
    else (c, world.commit)
  }

  function RollbackOf(c: Context): Context { if c.active.None? then c else Cleared(c) }

  /** Work, or a transaction statement; the mode is set before the transaction manager is asked. */
  function Perform(c: Context, fun: Fun, world: World): (Context, Outcome) {
    match fun
    case Work(outcome) => (c, outcome)
    case Act(action, outcome) =>
      match action {
        case BeginRead => if c.active.Some? then (c, Failed) else Begin(c.(mode := Manual), ReadOnly, world)
        case BeginWrite => if c.active.Some? then (c, Failed) else Begin(c.(mode := Manual), Write, world)
        case Commit => if c.active.None? then (c, Failed) else CommitOf(c, world)
        case Rollback => if c.active.None? then (c, Failed) else (RollbackOf(c), Done)
        case Checkpoint => if c.active.Some? then (c, Failed) else (c, outcome)
      }
  }

  /** Ends the transaction as the action says; a failure rolls back whatever is open. */
  function Finish(c: Context, outcome: Outcome, isNew: bool, action: CommitAction, world: World): (Context, Outcome) {
    var (c', o) := if outcome.Done? && ((isNew && CommitsNew(action)) || (c.mode.Auto? && CommitsAuto(action))) then CommitOf(c, world)
                   else (c, outcome);
    match o
    case Done => (c', o)
    case CheckpointFailed => (Cleared(c'), o)
    case Failed => (RollbackOf(c'), o)
  }

  function RunFunc(c: Context, fun: Fun, readOnly: bool, isTransactionStatement: bool, action: CommitAction, world: World,
                   checks: bool): (Context, Outcome)
  {
    var c0 := if Sound(c) then c else c.(violations := c.violations + 1);
    if !Sound(c) && checks then (c0, Failed)
    else
      var isNew := c0.mode.Auto? && c0.active.None? && !isTransactionStatement;
      var (c1, begun) := if isNew then Begin(c0, if readOnly then ReadOnly else Write, world) else (c0, Done);
      if !begun.Done? then (c1, begun)
      else
        var (c2, outcome) := Perform(c1, fun, world);
        Finish(c2, outcome, isNew, action, world)
  }

  predicate Allowed(c: Context, s: Statement, canWrite: bool) {
    (canWrite || s.readOnly) && !(s.requireTransaction && c.active == Some(ReadOnly) && !s.readOnly)
  }

  /** Analysis, validation, binding; a transaction statement is bound without a transaction of its own. */
  function Prepared(c: Context, s: Statement, commitNew: bool, canWrite: bool, checks: bool): (Context, bool) {
    var (c1, analysed) := RunFunc(c, Work(s.analysis), true, false, CommitIfNew, s.analysing, checks);
    if !analysed.Done? || !Allowed(c1, s, canWrite) then (c1, false)
    else
      var action := if commitNew then CommitIfNew else NotCommit;
      var (c2, bound) := RunFunc(c1, Work(s.binding), s.readOnly, s.action.Some?, action, s.preparing, checks);
      (c2, bound.Done?)
  }

  function Executed(c: Context, s: Statement, prepared: bool, checks: bool): (Context, bool) {
    if !prepared then (c, false)
    else
      var fun := if s.action.Some? then Act(s.action.value, s.running) else Work(s.running);
      var action := if s.action.Some? then CommitIfNew else CommitNewOrAuto;
      var (c1, outcome) := RunFunc(c, fun, s.readOnly, s.action.Some?, action, s.executing, checks);
      (c1, outcome.Done?)
  }

  /** A statement prepared and executed. */
  function RunStatement(c: Context, s: Statement, canWrite: bool, checks: bool): (Context, bool) {
    var (c1, prepared) := Prepared(c, s, false, canWrite, checks);
    Executed(c1, s, prepared, checks)
  }

  /** The statements of a query in turn, up to the first that fails. */
  function RunStatements(c: Context, statements: seq<Statement>, canWrite: bool, checks: bool): Context
    decreases |statements|
  {
    if statements == [] then c
    else
      var (c1, success) := RunStatement(c, statements[0], canWrite, checks);
      if success then RunStatements(c1, statements[1..], canWrite, checks) else c1
  }

  datatype Call = QueryCall(statements: seq<Statement>) | PrepareCall(statement: Statement) | ExecuteCall(statement: Statement)

  function RunCall(c: Context, call: Call, canWrite: bool, checks: bool): Context {
    match call
    case QueryCall(statements) => RunStatements(c, statements, canWrite, checks)
    case PrepareCall(s) => Prepared(c, s, true, canWrite, checks).0
    case ExecuteCall(s) => RunStatement(c, s, canWrite, checks).0
  }

  function RunCalls(c: Context, calls: seq<Call>, canWrite: bool, checks: bool): Context {
    if calls == [] then c else RunCall(RunCalls(c, calls[..|calls| - 1], canWrite, checks), calls[|calls| - 1], canWrite, checks)
  }

  /* ----- the connection ----- */

  class ClientContext {
    var mode: Mode
    var active: Option<TransactionType>
    const runtimeChecks: bool
    const canWrite: bool
    ghost var violations: nat

    ghost function State(): Context
      reads this
    {
      Context(mode, active, violations)
    }

    constructor (runtimeChecks: bool, canWrite: bool)
      ensures State() == START && this.runtimeChecks == runtimeChecks && this.canWrite == canWrite
    {
      mode, active, violations := Auto, None, 0;
      this.runtimeChecks, this.canWrite := runtimeChecks, canWrite;
    }

    method BeginTransaction(t: TransactionType, world: World) returns (outcome: Outcome)
      modifies this`active
      ensures (State(), outcome) == Begin(old(State()), t, world)
    {
      if t.Write? && world.otherWriter {
        return Failed;
      }
      active := Some(t);
      return Done;
    }

    method CommitTransaction(world: World) returns (outcome: Outcome)
      modifies this`mode, this`active
      ensures (State(), outcome) == CommitOf(old(State()), world)
    {
      if active.None? {
        return Done;
      }
      if world.commit != Done {
        return world.commit;
      }
      ClearTransaction();
      return Done;
    }

    method RollbackTransaction()
      modifies this`mode, this`active
      ensures State() == RollbackOf(old(State()))
    {
      if active.None? {
        return;
      }
      ClearTransaction();
    }

    method ClearTransaction()
      modifies this`mode, this`active
      ensures State() == Cleared(old(State()))
    {
      active, mode := None, Auto;
    }

    method RunFun(fun: Fun, world: World) returns (outcome: Outcome)
      modifies this`mode, this`active
      ensures (State(), outcome) == Perform(old(State()), fun, world)
    {
      match fun
      case Work(o) => return o;
      case Act(action, o) =>
        match action {
          case BeginRead =>
            if active.Some? { return Failed; }
            mode := Manual;
            outcome := BeginTransaction(ReadOnly, world);
          case BeginWrite =>
            if active.Some? { return Failed; }
            mode := Manual;
            outcome := BeginTransaction(Write, world);
          case Commit =>
            if active.None? { return Failed; }
            outcome := CommitTransaction(world);
          case Rollback =>
            if active.None? { return Failed; }
            RollbackTransaction();
            outcome := Done;
          case Checkpoint =>
            if active.Some? { return Failed; }
            outcome := o;
        }
    }

    method RunFuncInTransaction(fun: Fun, readOnly: bool, isTransactionStatement: bool, action: CommitAction, world: World)
      returns (outcome: Outcome)
      modifies this
      ensures (State(), outcome) == RunFunc(old(State()), fun, readOnly, isTransactionStatement, action, world, runtimeChecks)
    {
      if !(mode.Auto? || active.Some?) {
        violations := violations + 1;
        if runtimeChecks {
          return Failed;
        }
      }
      var requireNew := mode.Auto? && active.None? && !isTransactionStatement;
      if requireNew {
        outcome := BeginTransaction(if readOnly then ReadOnly else Write, world);
        if !outcome.Done? {
          return;
        }
      }
      outcome := RunFun(fun, world);
      if outcome.Done? && ((requireNew && CommitsNew(action)) || (mode.Auto? && CommitsAuto(action))) {
        outcome := CommitTransaction(world);
      }
      if outcome.CheckpointFailed? {
        ClearTransaction();
      } else if outcome.Failed? {
        RollbackTransaction();
      }
    }

    method ValidateTransaction(s: Statement) returns (ok: bool)
      ensures ok == Allowed(State(), s, canWrite)
    {
      if !canWrite && !s.readOnly {
        return false;
      }
      if s.requireTransaction && active.Some? {
        if active.value.ReadOnly? && !s.readOnly {
          return false;
        }
      }
      return true;
    }

    method PrepareNoLock(s: Statement, commitNew: bool) returns (success: bool)
      modifies this
      ensures (State(), success) == Prepared(old(State()), s, commitNew, canWrite, runtimeChecks)
    {
      var outcome := RunFuncInTransaction(Work(s.analysis), true, false, CommitIfNew, s.analysing);
      if !outcome.Done? {
        return false;
      }
      var ok := ValidateTransaction(s);
      if !ok {
        return false;
      }
      var action := if commitNew then CommitIfNew else NotCommit;
      outcome := RunFuncInTransaction(Work(s.binding), s.readOnly, s.action.Some?, action, s.preparing);
      return outcome.Done?;
    }

    method ExecuteNoLock(s: Statement, prepared: bool) returns (success: bool)
      modifies this
      ensures (State(), success) == Executed(old(State()), s, prepared, runtimeChecks)
    {
      if !prepared {
        return false;
      }
      var fun := if s.action.Some? then Act(s.action.value, s.running) else Work(s.running);
      var action := if s.action.Some? then CommitIfNew else CommitNewOrAuto;
      var outcome := RunFuncInTransaction(fun, s.readOnly, s.action.Some?, action, s.executing);
      return outcome.Done?;
    }

    method Query(statements: seq<Statement>)
      modifies this
      ensures State() == RunStatements(old(State()), statements, canWrite, runtimeChecks)
    {
      for i := 0 to |statements|
        invariant RunStatements(State(), statements[i..], canWrite, runtimeChecks) ==
                  RunStatements(old(State()), statements, canWrite, runtimeChecks)
      {
        assert statements[i..][0] == statements[i] && statements[i..][1..] == statements[i + 1..];
        var prepared := PrepareNoLock(statements[i], false);
        var success := ExecuteNoLock(statements[i], prepared);
        if !success {
          return;
        }
      }
    }

    method MakeCall(call: Call)
      modifies this
      ensures State() == RunCall(old(State()), call, canWrite, runtimeChecks)
    {
      match call
      case QueryCall(statements) => Query(statements);
      case PrepareCall(s) =>
        var _ := PrepareNoLock(s, true);
      case ExecuteCall(s) =>
        var prepared := PrepareNoLock(s, false);
        var _ := ExecuteNoLock(s, prepared);
    }

    /** A run of calls. */
    method MakeCalls(calls: seq<Call>)
      modifies this
      ensures State() == RunCalls(old(State()), calls, canWrite, runtimeChecks)
    {
      for i := 0 to |calls|
        invariant State() == RunCalls(old(State()), calls[..i], canWrite, runtimeChecks)
      {
        assert calls[..i + 1][..i] == calls[..i];
        MakeCall(calls[i]);
      }
      assert calls[..|calls|] == calls;
    }
  }

  /* ----- whole runs ----- */

  /** What a function run in a transaction leaves behind. */
  lemma {:induction false} AfterFunc(c: Context, fun: Fun, readOnly: bool, isTransactionStatement: bool, action: CommitAction,
                                     world: World, checks: bool)
    requires Sound(c) && (fun.Act? ==> isTransactionStatement) && (isTransactionStatement ==> Idle(c))
    ensures var (c', outcome) := RunFunc(c, fun, readOnly, isTransactionStatement, action, world, checks);
            && c'.violations == c.violations
            && (Sound(c') <==> !(fun.Act? && fun.action.BeginWrite? && world.otherWriter && c.active.None?))
            && (!outcome.Done? ==> c'.active.None?)
            && (fun.Work? && outcome.Done? && c.mode.Manual? ==> c' == c)
            && (!Idle(c') ==> outcome.Done? && !isTransactionStatement && !CommitsAuto(action) && (c.active.Some? || !CommitsNew(action)))
  {
  }

  /** A BEGIN of a write transaction, with nothing open, while another connection is writing. */
  predicate RefusedBegin(c: Context, s: Statement) {
    s.action == Some(BeginWrite) && s.executing.otherWriter && c.active.None?
  }

  lemma {:induction false} AfterPrepare(c: Context, s: Statement, commitNew: bool, canWrite: bool, checks: bool)
    requires Sound(c) && Idle(c)
    ensures var (c', success) := Prepared(c, s, commitNew, canWrite, checks);
            && Sound(c') && c'.violations == c.violations
            && (!success || commitNew || s.action.Some? ==> Idle(c'))
            && (success && c.mode.Manual? ==> c' == c)
  {
    AfterFunc(c, Work(s.analysis), true, false, CommitIfNew, s.analysing, checks);
    var (c1, analysed) := RunFunc(c, Work(s.analysis), true, false, CommitIfNew, s.analysing, checks);
    AfterFunc(c1, Work(s.binding), s.readOnly, s.action.Some?, if commitNew then CommitIfNew else NotCommit, s.preparing, checks);
  }

  /** A statement leaves a sound connection sound if and only if it is not a BEGIN that is refused. */
  lemma {:induction false} AfterStatement(c: Context, s: Statement, canWrite: bool, checks: bool)
    requires Sound(c) && Idle(c)
    ensures var (c1, prepared) := Prepared(c, s, false, canWrite, checks);
            var (c', success) := RunStatement(c, s, canWrite, checks);
            && Idle(c') && c'.violations == c.violations
            && (Sound(c') <==> !(prepared && RefusedBegin(c1, s)))
            && (success && s.action.None? && c.mode.Manual? ==> c' == c)
            && (!Sound(c') ==> !success)
  {
    AfterPrepare(c, s, false, canWrite, checks);
    var (c1, prepared) := Prepared(c, s, false, canWrite, checks);
    if prepared {
      var fun := if s.action.Some? then Act(s.action.value, s.running) else Work(s.running);
      AfterFunc(c1, fun, s.readOnly, s.action.Some?, if s.action.Some? then CommitIfNew else CommitNewOrAuto, s.executing, checks);
    }
  }

  /** The statement of a query, if any, whose BEGIN is refused. */
  predicate RefusedInQuery(c: Context, statements: seq<Statement>, canWrite: bool, checks: bool)
    decreases |statements|
  {
    statements != [] &&
      var (c1, prepared) := Prepared(c, statements[0], false, canWrite, checks);
      var (c', success) := RunStatement(c, statements[0], canWrite, checks);
      || (prepared && RefusedBegin(c1, statements[0]))
      || (success && RefusedInQuery(c', statements[1..], canWrite, checks))
  }

  lemma {:induction false} AfterQuery(c: Context, statements: seq<Statement>, canWrite: bool, checks: bool)
    requires Sound(c) && Idle(c)
    ensures var c' := RunStatements(c, statements, canWrite, checks);
            && Idle(c') && c'.violations == c.violations
            && (Sound(c') <==> !RefusedInQuery(c, statements, canWrite, checks))
    decreases |statements|
  {
    if statements != [] {
      AfterStatement(c, statements[0], canWrite, checks);
      var (c1, success) := RunStatement(c, statements[0], canWrite, checks);
      if success { AfterQuery(c1, statements[1..], canWrite, checks); }
    }
  }

  predicate Refused(c: Context, call: Call, canWrite: bool, checks: bool) {
    match call
    case QueryCall(statements) => RefusedInQuery(c, statements, canWrite, checks)
    case PrepareCall(_) => false
    case ExecuteCall(s) => RefusedInQuery(c, [s], canWrite, checks)
  }

  /** No call of the run has a BEGIN that is refused. */
  predicate NoneRefused(calls: seq<Call>, canWrite: bool, checks: bool) {
    calls != [] ==>
      var front := calls[..|calls| - 1];
      NoneRefused(front, canWrite, checks) && !Refused(RunCalls(START, front, canWrite, checks), calls[|calls| - 1], canWrite, checks)
  }

  lemma {:induction false} AfterCall(c: Context, call: Call, canWrite: bool, checks: bool)
    requires Sound(c) && Idle(c)
    ensures var c' := RunCall(c, call, canWrite, checks);
            && Idle(c') && c'.violations == c.violations && (Sound(c') <==> !Refused(c, call, canWrite, checks))
  {
    match call
    case QueryCall(statements) => AfterQuery(c, statements, canWrite, checks);
    case PrepareCall(s) => AfterPrepare(c, s, true, canWrite, checks);
    case ExecuteCall(s) =>
      AfterStatement(c, s, canWrite, checks);
      assert !RefusedInQuery(RunStatement(c, s, canWrite, checks).0, [s][1..], canWrite, checks);
  }

  /**
    After any run of calls, with any failures, in which no BEGIN was refused the connection is in
    auto mode with nothing open or in manual mode with a transaction, and the assertion on entry
    held every time.
   */
  lemma {:induction false} RunsAreSound(calls: seq<Call>, canWrite: bool, checks: bool)
    requires NoneRefused(calls, canWrite, checks)
    ensures var c := RunCalls(START, calls, canWrite, checks);
            && ((c.mode.Auto? && c.active.None?) || (c.mode.Manual? && c.active.Some?))
            && c.violations == 0
  {
    if calls != [] {
      var front := calls[..|calls| - 1];
      RunsAreSound(front, canWrite, checks);
      AfterCall(RunCalls(START, front, canWrite, checks), calls[|calls| - 1], canWrite, checks);
    }
  }

  /** With assertions compiled in every later call fails on entry and changes nothing. */
  lemma {:induction false} StaysStuck(c: Context, call: Call, canWrite: bool)
    requires !Sound(c) && call != QueryCall([])
    ensures RunCall(c, call, canWrite, true) == c.(violations := c.violations + 1)
  {
  }

  /**
    So with assertions compiled in the connection is sound after a run if and only if no BEGIN of
    the run was refused.
   */
  lemma {:induction false} RunsAreSoundExactly(calls: seq<Call>, canWrite: bool)
    ensures Sound(RunCalls(START, calls, canWrite, true)) <==> NoneRefused(calls, canWrite, true)
  {
    if NoneRefused(calls, canWrite, true) {
      RunsAreSound(calls, canWrite, true);
    } else {
      var front, last := calls[..|calls| - 1], calls[|calls| - 1];
      RunsAreSoundExactly(front, canWrite);
      var c := RunCalls(START, front, canWrite, true);
      if NoneRefused(front, canWrite, true) {
        RunsAreSound(front, canWrite, true);
        AfterCall(c, last, canWrite, true);
      } else if last != QueryCall([]) {
        StaysStuck(c, last, canWrite);
      }
    }
  }

  /* ----- without assertions ----- */

  /** Without assertions work run on a stuck connection changes nothing, unless it ends in a failed checkpoint. */
  predicate Clears(outcome: Outcome) { outcome.CheckpointFailed? }

  /** Preparing reaches the execution. */
  predicate Reaches(s: Statement, canWrite: bool) {
    s.analysis.Done? && (canWrite || s.readOnly) && s.binding.Done?
  }

  /** Preparing the statement on a stuck connection makes it sound. */
  predicate PreparingRecovers(s: Statement, canWrite: bool) {
    Clears(s.analysis) || (s.analysis.Done? && (canWrite || s.readOnly) && Clears(s.binding))
  }

  /** So does running it: a BEGIN that is granted, or a failed checkpoint. */
  predicate RunningRecovers(s: Statement) {
    match s.action
    case None => Clears(s.running)
    case Some(action) =>
      match action {
        case BeginRead => true
        case BeginWrite => !s.executing.otherWriter
        case Checkpoint => Clears(s.running)
        case Commit => false
        case Rollback => false
      }
  }

  predicate Recovers(s: Statement, canWrite: bool) {
    PreparingRecovers(s, canWrite) || (Reaches(s, canWrite) && RunningRecovers(s))
  }

  lemma {:induction false} StuckWork(c: Context, outcome: Outcome, readOnly: bool, isTransactionStatement: bool,
                                     action: CommitAction, world: World)
    requires !Sound(c)
    ensures var (c', o) := RunFunc(c, Work(outcome), readOnly, isTransactionStatement, action, world, false);
            && o == outcome && Idle(c') && (Sound(c') <==> Clears(outcome)) && c'.active.None?
  {
  }

  lemma {:induction false} StuckPrepare(c: Context, s: Statement, commitNew: bool, canWrite: bool)
    requires !Sound(c)
    ensures var (c', success) := Prepared(c, s, commitNew, canWrite, false);
            && Idle(c') && success == Reaches(s, canWrite) && (Sound(c') <==> PreparingRecovers(s, canWrite))
            && c'.active.None?
  {
    StuckWork(c, s.analysis, true, false, CommitIfNew, s.analysing);
    var (c1, analysed) := RunFunc(c, Work(s.analysis), true, false, CommitIfNew, s.analysing, false);
    if analysed.Done? && Allowed(c1, s, canWrite) {
      StuckWork(c1, s.binding, s.readOnly, s.action.Some?, if commitNew then CommitIfNew else NotCommit, s.preparing);
    }
  }

  /** A statement makes a stuck connection sound if and only if it recovers it. */
  lemma {:induction false} StuckStatement(c: Context, s: Statement, canWrite: bool)
    requires !Sound(c)
    ensures var c' := RunStatement(c, s, canWrite, false).0; Idle(c') && (Sound(c') <==> Recovers(s, canWrite))
  {
    StuckPrepare(c, s, false, canWrite);
    var (c1, prepared) := Prepared(c, s, false, canWrite, false);
    if prepared && s.action.None? { StuckWork(c1, s.running, s.readOnly, false, CommitNewOrAuto, s.executing); }
  }

  /** A statement makes a sound connection stuck if its BEGIN is refused, and a stuck one sound if it recovers it. */
  predicate SoundAfter(sound: bool, c: Context, s: Statement, canWrite: bool) {
    var (c1, prepared) := Prepared(c, s, false, canWrite, false);
    if sound then !(prepared && RefusedBegin(c1, s)) else Recovers(s, canWrite)
  }

  predicate QueryEndsSound(sound: bool, c: Context, statements: seq<Statement>, canWrite: bool)
    decreases |statements|
  {
    if statements == [] then sound
    else
      var sound' := SoundAfter(sound, c, statements[0], canWrite);
      var (c', success) := RunStatement(c, statements[0], canWrite, false);
      if success then QueryEndsSound(sound', c', statements[1..], canWrite) else sound'
  }

  /** The last BEGIN of the run that was refused, if any, was followed by a statement that recovers the connection. */
  predicate EndsSound(calls: seq<Call>, canWrite: bool) {
    calls == [] ||
      var front := calls[..|calls| - 1];
      var sound, c := EndsSound(front, canWrite), RunCalls(START, front, canWrite, false);
      match calls[|calls| - 1]
      case QueryCall(statements) => QueryEndsSound(sound, c, statements, canWrite)
      case PrepareCall(s) => sound || PreparingRecovers(s, canWrite)
      case ExecuteCall(s) => SoundAfter(sound, c, s, canWrite)
  }

  lemma {:induction false} StatementSoundExactly(c: Context, s: Statement, canWrite: bool)
    requires Idle(c)
    ensures var c' := RunStatement(c, s, canWrite, false).0;
            Idle(c') && (Sound(c') <==> SoundAfter(Sound(c), c, s, canWrite))
  {
    if Sound(c) { AfterStatement(c, s, canWrite, false); } else { StuckStatement(c, s, canWrite); }
  }

  lemma {:induction false} QuerySoundExactly(c: Context, statements: seq<Statement>, canWrite: bool)
    requires Idle(c)
    ensures var c' := RunStatements(c, statements, canWrite, false);
            Idle(c') && (Sound(c') <==> QueryEndsSound(Sound(c), c, statements, canWrite))
    decreases |statements|
  {
    if statements != [] {
      StatementSoundExactly(c, statements[0], canWrite);
      var (c1, success) := RunStatement(c, statements[0], canWrite, false);
      if success { QuerySoundExactly(c1, statements[1..], canWrite); }
    }
  }

  /** Without assertions the connection is sound after a run if and only if no refused BEGIN was left unrecovered. */
  lemma {:induction false} RunsEndSoundExactly(calls: seq<Call>, canWrite: bool)
    ensures Idle(RunCalls(START, calls, canWrite, false))
    ensures Sound(RunCalls(START, calls, canWrite, false)) <==> EndsSound(calls, canWrite)
  {
    if calls != [] {
      var front, last := calls[..|calls| - 1], calls[|calls| - 1];
      RunsEndSoundExactly(front, canWrite);
      var c := RunCalls(START, front, canWrite, false);
      match last
      case QueryCall(statements) => QuerySoundExactly(c, statements, canWrite);
      case PrepareCall(s) => if Sound(c) { AfterPrepare(c, s, true, canWrite, false); } else { StuckPrepare(c, s, true, canWrite); }
      case ExecuteCall(s) => StatementSoundExactly(c, s, canWrite);
    }
  }

  const FINE := World(false, Done)

  /** One BEGIN while another connection is writing: manual mode without a transaction. */
  lemma {:induction false} RefusedBeginSticks()
    ensures var begin := Statement(Some(BeginWrite), true, true, Done, Done, Done, FINE, FINE, World(true, Done));
            RunCalls(START, [QueryCall([begin])], true, true) == Context(Manual, None, 0)
  {
    var begin := Statement(Some(BeginWrite), true, true, Done, Done, Done, FINE, FINE, World(true, Done));
    assert [QueryCall([begin])][..0] == [];
    assert RunStatement(START, begin, true, true) == (Context(Manual, None, 0), false);
  }
}
