/**
  What a connection does, as its user sees it: a session is free, inside a transaction of a given
  type, or stuck in manual mode without one. The calls of main/client_context.cpp, with the
  transactions they begin and end on their own, refine this machine.
 */
module Sessions {
  import opened Options
  import opened ClientTransactions

  datatype Session = Free | InTransaction(kind: TransactionType) | Stuck

  function SessionOf(c: Context): Session {
    if c.mode.Auto? then Free else if c.active.Some? then InTransaction(c.active.value) else Stuck
  }

  /** Only a stuck session outlives a failure, unless a checkpoint failed. */
  function AfterFailure(q: Session, outcome: Outcome): Session {
    if q.Stuck? && !outcome.CheckpointFailed? then Stuck else Free
  }

  /** Outside of a transaction the analysis runs in one of its own, which must commit. */
  predicate AnalysisPasses(q: Session, s: Statement) {
    s.analysis.Done? && (q.Free? ==> s.analysing.commit.Done?)
  }

  /** A writing statement is refused in a read-only database and inside a read-only transaction. */
  predicate MayRun(q: Session, s: Statement, canWrite: bool) {
    s.readOnly || (canWrite && !(s.requireTransaction && q == InTransaction(ReadOnly)))
  }

  /** Outside of a transaction a statement is bound in one of its own, which may be refused. */
  predicate BindingPasses(q: Session, s: Statement, commitNew: bool) {
    && s.binding.Done?
    && (q.Free? && s.action.None? ==>
          (s.readOnly || !s.preparing.otherWriter) && (commitNew ==> s.preparing.commit.Done?))
  }

  /** The session after a statement is prepared, and whether it may be executed. */
  function AfterPreparing(q: Session, s: Statement, commitNew: bool, canWrite: bool, checks: bool): (Session, bool) {
    if checks && q.Stuck? then (q, false)
    else if !AnalysisPasses(q, s) then (AfterFailure(q, s.analysis), false)
    else if !MayRun(q, s, canWrite) then (q, false)
    else if !BindingPasses(q, s, commitNew) then (AfterFailure(q, s.binding), false)
    else (q, true)
  }

  /** The session after a statement is executed, and whether it succeeds. */
  function AfterRunning(q: Session, s: Statement): (Session, bool) {
    match s.action
    case None =>
      if s.running.Done? && (q.Free? ==> s.executing.commit.Done?) then (q, true) else (AfterFailure(q, s.running), false)
    case Some(action) =>
      match action {
        case BeginRead => if q.InTransaction? then (Free, false) else (InTransaction(ReadOnly), true)
        case BeginWrite =>
          if q.InTransaction? then (Free, false)
          else if s.executing.otherWriter then (Stuck, false)
          else (InTransaction(Write), true)
        case Commit => if q.InTransaction? then (Free, s.executing.commit.Done?) else (q, false)
        case Rollback => if q.InTransaction? then (Free, true) else (q, false)
        case Checkpoint =>
          if q.InTransaction? then (Free, false)
          else if s.running.Done? then (q, true) else (AfterFailure(q, s.running), false)
      }
  }

  function After(q: Session, s: Statement, canWrite: bool, checks: bool): (Session, bool) {
    var (q1, prepared) := AfterPreparing(q, s, false, canWrite, checks);
    if prepared then AfterRunning(q1, s) else (q1, false)
  }

  function AfterAll(q: Session, statements: seq<Statement>, canWrite: bool, checks: bool): Session
    decreases |statements|
  {
    if statements == [] then q
    else
      var (q1, success) := After(q, statements[0], canWrite, checks);
      if success then AfterAll(q1, statements[1..], canWrite, checks) else q1
  }

  function AfterCalls(calls: seq<Call>, canWrite: bool, checks: bool): Session {
    if calls == [] then Free
    else
      var q := AfterCalls(calls[..|calls| - 1], canWrite, checks);
      match calls[|calls| - 1]
      case QueryCall(statements) => AfterAll(q, statements, canWrite, checks)
      case PrepareCall(s) => AfterPreparing(q, s, true, canWrite, checks).0
      case ExecuteCall(s) => After(q, s, canWrite, checks).0
  }

  /* ----- the connection refines it ----- */

  /** Prepared without a commit, a statement outside of a transaction leaves one open for its execution. */
  predicate Bound(c: Context, s: Statement) {
    c.mode.Auto? && c.active == Some(if s.readOnly then ReadOnly else Write)
  }

  lemma {:induction false} AnalysisRefines(c: Context, s: Statement, checks: bool)
    requires Idle(c)
    ensures var (c', outcome) := RunFunc(c, Work(s.analysis), true, false, CommitIfNew, s.analysing, checks);
            var q := SessionOf(c);
            && Idle(c')
            && (outcome.Done? <==> !(checks && q.Stuck?) && AnalysisPasses(q, s))
            && SessionOf(c') == if outcome.Done? || (checks && q.Stuck?) then q else AfterFailure(q, s.analysis)
  {
  }

  lemma {:induction false} BindingRefines(c: Context, s: Statement, commitNew: bool, checks: bool)
    requires Idle(c) && !(checks && SessionOf(c).Stuck?)
    ensures var action := if commitNew then CommitIfNew else NotCommit;
            var (c', outcome) := RunFunc(c, Work(s.binding), s.readOnly, s.action.Some?, action, s.preparing, checks);
            var q := SessionOf(c);
            && (outcome.Done? <==> BindingPasses(q, s, commitNew))
            && SessionOf(c') == (if outcome.Done? then q else AfterFailure(q, s.binding))
            && (if outcome.Done? && q.Free? && s.action.None? && !commitNew then Bound(c', s) else Idle(c'))
  {
  }

  lemma {:induction false} PreparingRefines(c: Context, s: Statement, commitNew: bool, canWrite: bool, checks: bool)
    requires Idle(c)
    ensures var (c', prepared) := Prepared(c, s, commitNew, canWrite, checks);
            var q := SessionOf(c);
            && (SessionOf(c'), prepared) == AfterPreparing(q, s, commitNew, canWrite, checks)
            && (if prepared && q.Free? && s.action.None? && !commitNew then Bound(c', s) else Idle(c'))
  {
    AnalysisRefines(c, s, checks);
    var (c1, analysed) := RunFunc(c, Work(s.analysis), true, false, CommitIfNew, s.analysing, checks);
    if analysed.Done? { BindingRefines(c1, s, commitNew, checks); }
  }

  lemma {:induction false} ActionRefines(c: Context, s: Statement, checks: bool)
    requires Idle(c) && s.action.Some? && !(checks && SessionOf(c).Stuck?)
    ensures var (c', success) := Executed(c, s, true, checks);
            Idle(c') && (SessionOf(c'), success) == AfterRunning(SessionOf(c), s)
  {
  }

  lemma {:induction false} WorkRefines(c: Context, s: Statement, checks: bool)
    requires s.action.None? && !(checks && SessionOf(c).Stuck?) && (if SessionOf(c).Free? then Bound(c, s) else Idle(c))
    ensures var (c', success) := Executed(c, s, true, checks);
            Idle(c') && (SessionOf(c'), success) == AfterRunning(SessionOf(c), s)
  {
  }

  /** One statement, from any state between calls and with any failures of its parts. */
  lemma {:induction false} StatementRefines(c: Context, s: Statement, canWrite: bool, checks: bool)
    requires Idle(c)
    ensures var (c', success) := RunStatement(c, s, canWrite, checks);
            Idle(c') && (SessionOf(c'), success) == After(SessionOf(c), s, canWrite, checks)
  {
    PreparingRefines(c, s, false, canWrite, checks);
    var (c1, prepared) := Prepared(c, s, false, canWrite, checks);
    if prepared {
      if s.action.Some? { ActionRefines(c1, s, checks); } else { WorkRefines(c1, s, checks); }
    }
  }

  lemma {:induction false} QueryRefines(c: Context, statements: seq<Statement>, canWrite: bool, checks: bool)
    requires Idle(c)
    ensures var c' := RunStatements(c, statements, canWrite, checks);
            Idle(c') && SessionOf(c') == AfterAll(SessionOf(c), statements, canWrite, checks)
    decreases |statements|
  {
    if statements != [] {
      StatementRefines(c, statements[0], canWrite, checks);
      var (c1, success) := RunStatement(c, statements[0], canWrite, checks);
      if success { QueryRefines(c1, statements[1..], canWrite, checks); }
    }
  }

  /** Every run of calls. */
  lemma {:induction false} RunsRefine(calls: seq<Call>, canWrite: bool, checks: bool)
    ensures var c := RunCalls(START, calls, canWrite, checks);
            Idle(c) && SessionOf(c) == AfterCalls(calls, canWrite, checks)
  {
    if calls != [] {
      var front, last := calls[..|calls| - 1], calls[|calls| - 1];
      RunsRefine(front, canWrite, checks);
      var c := RunCalls(START, front, canWrite, checks);
      match last
      case QueryCall(statements) => QueryRefines(c, statements, canWrite, checks);
      case PrepareCall(s) => PreparingRefines(c, s, true, canWrite, checks);
      case ExecuteCall(s) => StatementRefines(c, s, canWrite, checks);
    }
  }

  /* ----- what that means for the user ----- */

  /** A COMMIT or ROLLBACK that succeeds, after any run, found a transaction open and leaves none. */
  lemma {:induction false} EndsTransaction(calls: seq<Call>, s: Statement, canWrite: bool, checks: bool)
    ensures var c := RunCalls(START, calls, canWrite, checks);
            var (c', success) := RunStatement(c, s, canWrite, checks);
            success && (s.action == Some(Commit) || s.action == Some(Rollback)) ==>
              c.mode.Manual? && c.active.Some? && c'.mode.Auto? && c'.active.None?
  {
    RunsRefine(calls, canWrite, checks);
    StatementRefines(RunCalls(START, calls, canWrite, checks), s, canWrite, checks);
  }

  /**
    Inside a transaction, a COMMIT whose parts do not fail succeeds if and only if the commit does
    not fail, and a ROLLBACK always.
   */
  lemma {:induction false} EndSucceeds(calls: seq<Call>, s: Statement, canWrite: bool, checks: bool)
    requires s.action == Some(Commit) || s.action == Some(Rollback)
    requires s.analysis.Done? && s.binding.Done?
    ensures var c := RunCalls(START, calls, canWrite, checks);
            var success := RunStatement(c, s, canWrite, checks).1;
            c.active.Some? && Allowed(c, s, canWrite) ==> (success <==> (s.action == Some(Commit) ==> s.executing.commit.Done?))
  {
    RunsRefine(calls, canWrite, checks);
    StatementRefines(RunCalls(START, calls, canWrite, checks), s, canWrite, checks);
  }

  /** A BEGIN that succeeds found nothing open and leaves a transaction of exactly the type it asks for. */
  lemma {:induction false} OpensTransaction(calls: seq<Call>, s: Statement, canWrite: bool, checks: bool)
    ensures var c := RunCalls(START, calls, canWrite, checks);
            var (c', success) := RunStatement(c, s, canWrite, checks);
            success && (s.action == Some(BeginRead) || s.action == Some(BeginWrite)) ==>
              c.active.None? && c'.mode.Manual? && c'.active == Some(if s.action == Some(BeginRead) then ReadOnly else Write)
  {
    RunsRefine(calls, canWrite, checks);
    StatementRefines(RunCalls(START, calls, canWrite, checks), s, canWrite, checks);
  }

  /**
    Its type lasts until a COMMIT or ROLLBACK that succeeds or any statement that fails ends it;
    a statement that is refused because it writes does not.
   */
  lemma {:induction false} TypeLasts(calls: seq<Call>, s: Statement, canWrite: bool, checks: bool)
    ensures var c := RunCalls(START, calls, canWrite, checks);
            var (c', success) := RunStatement(c, s, canWrite, checks);
            c.active.Some? ==>
              if || (success && s.action != Some(Commit) && s.action != Some(Rollback))
                 || (s.analysis.Done? && !s.readOnly && !(canWrite && !(s.requireTransaction && c.active == Some(ReadOnly))))
              then c'.mode == c.mode == Manual && c'.active == c.active
              else c'.mode.Auto? && c'.active.None?
  {
    RunsRefine(calls, canWrite, checks);
    StatementRefines(RunCalls(START, calls, canWrite, checks), s, canWrite, checks);
  }

  /** A writing statement that needs a transaction never succeeds inside a read-only one, ... */
  lemma {:induction false} NoWriteInReadOnly(calls: seq<Call>, s: Statement, canWrite: bool, checks: bool)
    requires !s.readOnly
    ensures var c := RunCalls(START, calls, canWrite, checks);
            RunStatement(c, s, canWrite, checks).1 ==> canWrite && (s.requireTransaction ==> c.active != Some(ReadOnly))
  {
    RunsRefine(calls, canWrite, checks);
    StatementRefines(RunCalls(START, calls, canWrite, checks), s, canWrite, checks);
  }

  /** ... and the validation refuses a statement for no other reason but a read-only database. */
  lemma {:induction false} RefusedExactly(calls: seq<Call>, s: Statement, canWrite: bool, checks: bool)
    ensures var c := RunCalls(START, calls, canWrite, checks);
            Allowed(c, s, canWrite) <==> s.readOnly || (canWrite && (s.requireTransaction ==> c.active != Some(ReadOnly)))
    ensures var c := RunCalls(START, calls, canWrite, checks);
            && (c.active.Some? || c.mode.Auto?) && s.action.None?
            && s.analysis.Done? && s.binding.Done? && s.running.Done? && s.analysing == s.preparing == s.executing == FINE ==>
              (RunStatement(c, s, canWrite, checks).1 <==>
               s.readOnly || (canWrite && (s.requireTransaction ==> c.active != Some(ReadOnly))))
  {
    RunsRefine(calls, canWrite, checks);
    StatementRefines(RunCalls(START, calls, canWrite, checks), s, canWrite, checks);
  }
}
