/**
  Side-way information passing for hash joins (optimizer/acc_hash_join_optimizer.cpp): the
  node IDs one side of a join produces are passed as semi masks to the node scans of the other
  side. Masks never change what a plan returns, provided no opaque operator sits between a
  masked scan and the join.
 */
module SemiMask {
  import opened Options
  import opened Plans
  import RA = RowAlgebra

  /* ----- the optimizer ----- */

  /** The node scans under `root` that scan `nodeID`; index scans are never masked. */
  function GetScanNodeCandidates(nodeID: Column, root: Plan): seq<Scan> {
    match root
    case ScanNodeTable(s) => if s.key.None? && s.nodeID == nodeID then [s] else []
    case TableFunctionCall(_, _, _) => []
    case Extend(_, _, _, _, c) => GetScanNodeCandidates(nodeID, c)
    case Filter(_, c) => GetScanNodeCandidates(nodeID, c)
    case CrossProduct(_, l, r) => GetScanNodeCandidates(nodeID, l) + GetScanNodeCandidates(nodeID, r)
    case HashJoin(_, _, l, r, _) => GetScanNodeCandidates(nodeID, l) + GetScanNodeCandidates(nodeID, r)
    case Accumulate(_, c) => GetScanNodeCandidates(nodeID, c)
    case SemiMasker(_, c) => GetScanNodeCandidates(nodeID, c)
    case EmptyResult(_) => []
    case Other(_, _, children) => GetCandidatesOfAll(nodeID, children)
  }

  function GetCandidatesOfAll(nodeID: Column, roots: seq<Plan>): seq<Scan> {
    if roots == [] then []
    else GetScanNodeCandidates(nodeID, roots[0]) + GetCandidatesOfAll(nodeID, roots[1..])
  }

  predicate HasCandidate(nodeID: Column, root: Plan) {
    GetScanNodeCandidates(nodeID, root) != []
  }

  /** The internal-ID columns among the probe keys. */
  function GetJoinNodeIDs(conds: JoinConditions): seq<Column> {
    if conds == [] then []
    else if conds[0].0.Property? && conds[0].0.column.isInternalID
    then [conds[0].0.column] + GetJoinNodeIDs(conds[1..])
    else GetJoinNodeIDs(conds[1..])
  }

  predicate SubPlanContainsFilter(root: Plan) {
    match root
    case ScanNodeTable(s) => s.key.Some?
    case TableFunctionCall(_, _, _) => false
    case Extend(_, _, _, _, c) => SubPlanContainsFilter(c)
    case Filter(_, _) => true
    case CrossProduct(_, l, r) => SubPlanContainsFilter(l) || SubPlanContainsFilter(r)
    case HashJoin(_, _, l, r, _) => SubPlanContainsFilter(l) || SubPlanContainsFilter(r)
    case Accumulate(_, c) => SubPlanContainsFilter(c)
    case SemiMasker(_, c) => SubPlanContainsFilter(c)
    case EmptyResult(_) => false
    case Other(_, _, children) => exists i :: 0 <= i < |children| && SubPlanContainsFilter(children[i])
  }

  /** One masker per join node ID that has scans to mask, stacked on the side the IDs come from. */
  function ApplySemiMasks(nodeIDs: seq<Column>, fromRoot: Plan, toRoot: Plan): Plan {
    if nodeIDs == [] then fromRoot
    else if HasCandidate(nodeIDs[0], toRoot)
    then ApplySemiMasks(nodeIDs[1..], SemiMasker(nodeIDs[0], fromRoot), toRoot)
    else ApplySemiMasks(nodeIDs[1..], fromRoot, toRoot)
  }

  predicate AnyCandidate(nodeIDs: seq<Column>, toRoot: Plan) {
    exists i :: 0 <= i < |nodeIDs| && HasCandidate(nodeIDs[i], toRoot)
  }

  predicate CanPassBuildToProbe(op: Plan)
    requires op.HashJoin?
  {
    && op.kind.Inner?
    && (op.sip.direction.ForceBuildToProbe? || SubPlanContainsFilter(op.build))
    && AnyCandidate(GetJoinNodeIDs(op.conditions), op.probe)
  }

  predicate CanPassProbeToBuild(op: Plan)
    requires op.HashJoin?
  {
    && !op.probe.Accumulate?
    && SubPlanContainsFilter(op.probe)
    && AnyCandidate(GetJoinNodeIDs(op.conditions), op.build)
  }

  function VisitHashJoin(op: Plan): Plan
    requires op.HashJoin?
  {
    var ids := GetJoinNodeIDs(op.conditions);
    if op.probe.Accumulate? || op.sip.position.Prohibit? then op
    else if CanPassBuildToProbe(op) then
      HashJoin(op.conditions, op.kind, op.probe, ApplySemiMasks(ids, op.build, op.probe),
               SipInfo(OnBuild, BuildToProbe))
    else if op.sip.position.ProhibitProbeToBuild? then op
    else if CanPassProbeToBuild(op) then
      HashJoin(op.conditions, op.kind, Accumulate(Regular, ApplySemiMasks(ids, op.probe, op.build)), op.build,
               SipInfo(OnProbe, ProbeToBuild))
    else op
  }

  /** HashJoinSIPOptimizer::visitOperator: children first. */
  function VisitOperator(p: Plan): Plan {
    match p
    case Extend(x, cs, rec, hints, c) => Extend(x, cs, rec, hints, VisitOperator(c))
    case Filter(e, c) => Filter(e, VisitOperator(c))
    case CrossProduct(t, l, r) => CrossProduct(t, VisitOperator(l), VisitOperator(r))
    case HashJoin(conds, k, l, r, sip) => VisitHashJoin(HashJoin(conds, k, VisitOperator(l), VisitOperator(r), sip))
    case Accumulate(t, c) => Accumulate(t, VisitOperator(c))
    case SemiMasker(k, c) => SemiMasker(k, VisitOperator(c))
    case Other(o, cs, children) => Other(o, cs, VisitAll(children))
    case _ => p
  }

  function VisitAll(ps: seq<Plan>): seq<Plan> {
    if ps == [] then [] else [VisitOperator(ps[0])] + VisitAll(ps[1..])
  }

  /* ----- when a mask is safe ----- */

  /**
    No operator between the root and a scan of `nodeID` can turn missing rows into different
    rows: no opaque operator, and no optional or marking side of a join.
   */
  predicate Transparent(nodeID: Column, p: Plan) {
    match p
    case ScanNodeTable(_) => true
    case TableFunctionCall(_, _, _) => true
    case Extend(_, _, _, _, c) => Transparent(nodeID, c)
    case Filter(_, c) => Transparent(nodeID, c)
    case CrossProduct(t, l, r) =>
      && Transparent(nodeID, l)
      && (if t.Regular? then Transparent(nodeID, r) else !HasCandidate(nodeID, r))
    case HashJoin(_, k, l, r, _) =>
      && Transparent(nodeID, l)
      && (if k.Inner? then Transparent(nodeID, r) else !HasCandidate(nodeID, r))
    case Accumulate(t, c) => if t.Regular? then Transparent(nodeID, c) else !HasCandidate(nodeID, c)
    case SemiMasker(_, c) => Transparent(nodeID, c)
    case EmptyResult(_) => true
    case Other(_, _, children) => !HasCandidate(nodeID, p)
  }

  /** `k` joins the two sides as the same internal-ID column. */
  ghost predicate IsJoinNodeID(k: Column, conds: JoinConditions) {
    k.isInternalID && (Property(k), Property(k)) in conds
  }

  /** Every semi mask in the plan is keyed on a join node ID and aimed at a transparent side. */
  ghost predicate SafeMasks(p: Plan) {
    match p
    case ScanNodeTable(_) => true
    case TableFunctionCall(_, _, _) => true
    case Extend(_, _, _, _, c) => SafeMasks(c)
    case Filter(_, c) => SafeMasks(c)
    case CrossProduct(_, l, r) => SafeMasks(l) && SafeMasks(r)
    case HashJoin(conds, k, l, r, sip) =>
      && SafeMasks(l) && SafeMasks(r)
      && (sip.position.OnBuild? ==>
            k.Inner? && forall c :: c in MaskKeys(r) ==> IsJoinNodeID(c, conds) && Transparent(c, l))
      && (sip.position.OnProbe? ==>
            forall c :: c in MaskKeys(l) ==> IsJoinNodeID(c, conds) && Transparent(c, r))
    case Accumulate(_, c) => SafeMasks(c)
    case SemiMasker(_, c) => SafeMasks(c)
    case EmptyResult(_) => true
    case Other(_, _, children) => forall i :: 0 <= i < |children| ==> SafeMasks(children[i])
  }

  /** The plan without its semi maskers and the accumulations around them. */
  function Strip(p: Plan): Plan {
    match p
    case Extend(x, cs, rec, hints, c) => Extend(x, cs, rec, hints, Strip(c))
    case Filter(e, c) => Filter(e, Strip(c))
    case CrossProduct(t, l, r) => CrossProduct(t, Strip(l), Strip(r))
    case HashJoin(conds, k, l, r, _) => HashJoin(conds, k, Strip(l), Strip(r), SipInfo(NoPosition, NoDirection))
    case Accumulate(t, c) => if t.Regular? then Strip(c) else Accumulate(t, Strip(c))
    case SemiMasker(_, c) => Strip(c)
    case Other(o, cs, children) => Other(o, cs, StripAll(children))
    case _ => p
  }

  function StripAll(ps: seq<Plan>): seq<Plan> {
    if ps == [] then [] else [Strip(ps[0])] + StripAll(ps[1..])
  }

  lemma StripAllAt(ps: seq<Plan>)
    ensures |StripAll(ps)| == |ps|
    ensures forall i :: 0 <= i < |ps| ==> StripAll(ps)[i] == Strip(ps[i])
  {
    if ps != [] { StripAllAt(ps[1..]); }
  }

  lemma StripKeeps(p: Plan, env: Env)
    requires Valid(p, env)
    ensures Schema(Strip(p)) == Schema(p) && Valid(Strip(p), env)
  {
    match p
    case Extend(_, _, _, _, c) => StripKeeps(c, env);
    case Filter(_, c) => StripKeeps(c, env);
    case CrossProduct(_, l, r) => StripKeeps(l, env); StripKeeps(r, env);
    case HashJoin(_, _, l, r, _) => StripKeeps(l, env); StripKeeps(r, env);
    case Accumulate(_, c) => StripKeeps(c, env);
    case SemiMasker(_, c) => StripKeeps(c, env);
    case Other(_, _, children) =>
      StripAllAt(children);
      forall i | 0 <= i < |children| ensures Valid(Strip(children[i]), env) { StripKeeps(children[i], env); }
    case _ =>
  }

  /* ----- masks do not matter ----- */

  /** A row survives every mask that has scans to act on in `p`. */
  predicate Survives(masks: seq<Mask>, p: Plan, row: Row) {
    forall i :: 0 <= i < |masks| && HasCandidate(masks[i].key, p) && masks[i].key in row ==>
      row[masks[i].key] in masks[i].ids
  }

  function Survivors(rows: seq<Row>, masks: seq<Mask>, p: Plan): seq<Row> {
    Keep(rows, row => Survives(masks, p, row))
  }

  ghost predicate TransparentFor(masks: seq<Mask>, p: Plan) {
    forall i :: 0 <= i < |masks| ==> masks[i].key.isInternalID && Transparent(masks[i].key, p)
  }

  /** Removing, before an operator, rows whose every consequence is removed after it. */
  lemma {:induction false} JoinSurvivors(conds: JoinConditions, k: JoinKind, ls: seq<Row>, rs: seq<Row>,
                                         rc: set<Column>, pl: Row -> bool, pr: Row -> bool, p: Row -> bool, env: Env)
    requires forall l :: l in ls && !pl(l) ==> Keep(JoinRow(k, l, MatchesOf(conds, l, rs, env), rc), p) == []
    requires forall l :: l in ls && pl(l) ==>
               (Keep(JoinRow(k, l, MatchesOf(conds, l, rs, env), rc), p) ==
                Keep(JoinRow(k, l, MatchesOf(conds, l, Keep(rs, pr), env), rc), p))
    ensures Keep(Join(conds, k, ls, rs, rc, env), p)
         == Keep(Join(conds, k, Keep(ls, pl), Keep(rs, pr), rc, env), p)
  {
    if ls != [] {
      var l := ls[0];
      JoinSurvivors(conds, k, ls[1..], rs, rc, pl, pr, p, env);
      KeepConcat(JoinRow(k, l, MatchesOf(conds, l, rs, env), rc), Join(conds, k, ls[1..], rs, rc, env), p);
      if pl(l) {
        assert ([l] + Keep(ls[1..], pl))[1..] == Keep(ls[1..], pl);
        KeepConcat(JoinRow(k, l, MatchesOf(conds, l, Keep(rs, pr), env), rc),
                   Join(conds, k, Keep(ls[1..], pl), Keep(rs, pr), rc, env), p);
      }
    }
  }

  lemma {:induction false} ExpandSurvivors(rows: seq<Row>, x: nat, added: set<Column>, pc: Row -> bool,
                                           p: Row -> bool, env: Env)
    requires forall l, r :: l in rows && !pc(l) && r in env.extend(x, added, l) ==> !p(l + r)
    ensures Keep(Expand(rows, x, added, env), p) == Keep(Expand(Keep(rows, pc), x, added, env), p)
  {
    if rows != [] {
      var l := rows[0];
      ExpandSurvivors(rows[1..], x, added, pc, p, env);
      KeepConcat(Merge(l, env.extend(x, added, l)), Expand(rows[1..], x, added, env), p);
      if pc(l) {
        assert ([l] + Keep(rows[1..], pc))[1..] == Keep(rows[1..], pc);
        KeepConcat(Merge(l, env.extend(x, added, l)), Expand(Keep(rows[1..], pc), x, added, env), p);
      } else {
        forall row | row in Merge(l, env.extend(x, added, l)) ensures !p(row) {
          MergeMember(l, env.extend(x, added, l), row);
        }
        KeepNone(Merge(l, env.extend(x, added, l)), p);
      }
    }
  }

  lemma KeepCommute(rows: seq<Row>, f: Row -> bool, g: Row -> bool)
    ensures Keep(Keep(rows, f), g) == Keep(Keep(rows, g), f)
  {
    KeepKeep(rows, f, g);
    KeepKeep(rows, g, f);
    KeepSame(rows, row => f(row) && g(row), row => g(row) && f(row));
  }

  /** Rows equal under a weaker test are equal under a stronger one. */
  lemma KeepWeaken(a: seq<Row>, b: seq<Row>, weak: Row -> bool, strong: Row -> bool)
    requires Keep(a, weak) == Keep(b, weak)
    requires forall row :: (row in a || row in b) && strong(row) ==> weak(row)
    ensures Keep(a, strong) == Keep(b, strong)
  {
    KeepKeep(a, weak, strong);
    KeepKeep(b, weak, strong);
    KeepSame(a, row => weak(row) && strong(row), strong);
    KeepSame(b, row => weak(row) && strong(row), strong);
  }

  /** A joined pair agrees on every shared column. */
  lemma MatchedShare(conds: JoinConditions, l: Row, r: Row, c: Column, env: Env)
    requires Matches(conds, l, r, env) && (Property(c), Property(c)) in conds
    ensures Get(l, c) == Get(r, c)
  {
    var i :| 0 <= i < |conds| && conds[i] == (Property(c), Property(c));
    assert SqlEquals(EvalExpr(conds[i].0, l, env), EvalExpr(conds[i].1, r, env)) == Bool(true);
  }

  lemma CollectAt(keys: seq<Column>, rows: seq<Row>)
    ensures |Collect(keys, rows)| == |keys|
    ensures forall i :: 0 <= i < |keys| ==> Collect(keys, rows)[i].key == keys[i]
    ensures forall i, row :: 0 <= i < |keys| && row in rows ==> Get(row, keys[i]) in Collect(keys, rows)[i].ids
  {
    if keys != [] { CollectAt(keys[1..], rows); }
  }

  /** Everything a mask argument needs to know about one hash join. */
  ghost predicate JoinContext(t: Plan, masks: seq<Mask>, onProbe: seq<Mask>, onBuild: seq<Mask>, env: Env) {
    && t.HashJoin? && Valid(t, env)
    && TransparentFor(masks, t)
    && (onProbe != [] ==> t.kind.Inner? && onBuild == [])
    && (forall i :: 0 <= i < |onProbe| ==> IsJoinNodeID(onProbe[i].key, t.conditions))
    && (forall i :: 0 <= i < |onBuild| ==> IsJoinNodeID(onBuild[i].key, t.conditions))
  }

  lemma SurvivesConcat(a: seq<Mask>, b: seq<Mask>, p: Plan, row: Row)
    ensures Survives(a + b, p, row) <==> Survives(a, p, row) && Survives(b, p, row)
  {
    if Survives(a + b, p, row) {
      assert forall i :: 0 <= i < |a| ==> a[i] == (a + b)[i];
      assert forall i :: 0 <= i < |b| ==> b[i] == (a + b)[|a| + i];
    }
  }

  /** A merged row that survives has both halves surviving the masks of the whole join. */
  lemma MergedSurvives(t: Plan, masks: seq<Mask>, l: Row, r: Row, env: Env)
    requires t.HashJoin? && Valid(t, env)
    requires l.Keys == Schema(t.probe) && r.Keys == Schema(t.build) && Matches(t.conditions, l, r, env)
    requires Survives(masks, t, l + r)
    ensures Survives(masks, t.probe, l) && Survives(masks, t.build, r)
  {
    forall i | 0 <= i < |masks| && HasCandidate(masks[i].key, t.probe) && masks[i].key in l
      ensures l[masks[i].key] in masks[i].ids
    {
      var c := masks[i].key;
      assert HasCandidate(c, t);
      if c in r { MatchedShare(t.conditions, l, r, c, env); }
      assert (l + r)[c] == l[c];
    }
    forall i | 0 <= i < |masks| && HasCandidate(masks[i].key, t.build) && masks[i].key in r
      ensures r[masks[i].key] in masks[i].ids
    {
      assert HasCandidate(masks[i].key, t);
      assert (l + r)[masks[i].key] == r[masks[i].key];
    }
  }

  /** What a probe row contributes to a left or mark join has the node IDs of the probe row. */
  lemma ProbeColumnStays(t: Plan, l: Row, rs: seq<Row>, row: Row, c: Column, env: Env)
    requires t.HashJoin? && !t.kind.Inner? && Valid(t, env)
    requires l.Keys == Schema(t.probe) && RowsHave(rs, Schema(t.build)) && c in l && c.isInternalID
    requires row in JoinRow(t.kind, l, MatchesOf(t.conditions, l, rs, env), Schema(t.build))
    ensures c in row && row[c] == l[c]
  {
    if t.kind.Left? {
      var ms := MatchesOf(t.conditions, l, rs, env);
      var rows := if ms == [] then [NullRow(Schema(t.build)) + l] else Merge(l, ms);
      RA.WithMarksMember(t.kind.found, ms != [], rows, row);
      var bare :| bare in rows && row == WithMark(t.kind.found, ms != [], bare);
      if ms != [] {
        MergeMember(l, ms, bare);
        var r :| r in ms && bare == l + r;
        KeepMember(rs, x => Matches(t.conditions, l, x, env), r);
        if c in r { MatchedShare(t.conditions, l, r, c, env); }
      }
    }
  }

  /** A probe row that does not survive contributes nothing that survives. */
  lemma ProbeRowDies(t: Plan, masks: seq<Mask>, onProbe: seq<Mask>, onBuild: seq<Mask>,
                     l: Row, rs: seq<Row>, env: Env)
    requires JoinContext(t, masks, onProbe, onBuild, env)
    requires l.Keys == Schema(t.probe) && RowsHave(rs, Schema(t.build))
    requires forall r, i :: r in rs && Survives(masks + onBuild, t.build, r) && 0 <= i < |onProbe| ==>
               Get(r, onProbe[i].key) in onProbe[i].ids
    requires !Survives(masks + onProbe, t.probe, l)
    ensures Keep(JoinRow(t.kind, l, MatchesOf(t.conditions, l, rs, env), Schema(t.build)),
                 row => Survives(masks, t, row)) == []
  {
    var ms := MatchesOf(t.conditions, l, rs, env);
    var out := JoinRow(t.kind, l, ms, Schema(t.build));
    SurvivesConcat(masks, onProbe, t.probe, l);
    if onProbe != [] { assert masks + onBuild == masks; }
    forall row | row in out ensures !Survives(masks, t, row) {
      if t.kind.Inner? {
        MergeMember(l, ms, row);
        var r :| r in ms && row == l + r;
        KeepMember(rs, x => Matches(t.conditions, l, x, env), r);
        if Survives(masks, t, row) {
          MergedSurvives(t, masks, l, r, env);
          var i :| 0 <= i < |onProbe| && onProbe[i].key in l && l[onProbe[i].key] !in onProbe[i].ids;
          MatchedShare(t.conditions, l, r, onProbe[i].key, env);
          assert false;
        }
      } else {
        var i :| 0 <= i < |masks| && HasCandidate(masks[i].key, t.probe) && masks[i].key in l
                 && l[masks[i].key] !in masks[i].ids;
        assert HasCandidate(masks[i].key, t);
        ProbeColumnStays(t, l, rs, row, masks[i].key, env);
      }
    }
    KeepNone(out, row => Survives(masks, t, row));
  }

  /** For a surviving probe row, the build rows that do not survive make no difference. */
  lemma ProbeRowLives(t: Plan, masks: seq<Mask>, onProbe: seq<Mask>, onBuild: seq<Mask>,
                      l: Row, rs: seq<Row>, env: Env)
    requires JoinContext(t, masks, onProbe, onBuild, env)
    requires l.Keys == Schema(t.probe) && RowsHave(rs, Schema(t.build))
    requires forall i :: 0 <= i < |onBuild| ==> Get(l, onBuild[i].key) in onBuild[i].ids
    ensures Survivors(JoinRow(t.kind, l, MatchesOf(t.conditions, l, rs, env), Schema(t.build)), masks, t)
         == Survivors(JoinRow(t.kind, l, MatchesOf(t.conditions, l, Survivors(rs, masks + onBuild, t.build), env),
                              Schema(t.build)), masks, t)
  {
    var p := row => Survives(masks, t, row);
    var pr := row => Survives(masks + onBuild, t.build, row);
    var matching := r => Matches(t.conditions, l, r, env);
    var ms := MatchesOf(t.conditions, l, rs, env);
    KeepCommute(rs, matching, pr);
    forall r | r in ms && !pr(r) ensures t.kind.Inner? && !p(l + r) {
      KeepMember(rs, matching, r);
      SurvivesConcat(masks, onBuild, t.build, r);
      if Survives(masks, t.build, r) {
        var i :| 0 <= i < |onBuild| && onBuild[i].key in r && r[onBuild[i].key] !in onBuild[i].ids;
        MatchedShare(t.conditions, l, r, onBuild[i].key, env);
        assert false;
      }
      var i :| 0 <= i < |masks| && HasCandidate(masks[i].key, t.build);
      assert Transparent(masks[i].key, t);
      if p(l + r) { MergedSurvives(t, masks, l, r, env); }
    }
    if t.kind.Inner? {
      RA.KeepMergeBoth(l, ms, p, pr, p);
    } else {
      KeepAll(ms, pr);
    }
  }

  /** Survivors of a join are determined by the survivors of its two sides. */
  lemma JoinOfSurvivors(t: Plan, masks: seq<Mask>, onProbe: seq<Mask>, onBuild: seq<Mask>,
                        ls: seq<Row>, rs: seq<Row>, env: Env)
    requires JoinContext(t, masks, onProbe, onBuild, env)
    requires RowsHave(ls, Schema(t.probe)) && RowsHave(rs, Schema(t.build))
    requires forall r, i :: r in rs && Survives(masks + onBuild, t.build, r) && 0 <= i < |onProbe| ==>
               Get(r, onProbe[i].key) in onProbe[i].ids
    requires forall l, i :: l in ls && Survives(masks + onProbe, t.probe, l) && 0 <= i < |onBuild| ==>
               Get(l, onBuild[i].key) in onBuild[i].ids
    ensures Survivors(Join(t.conditions, t.kind, ls, rs, Schema(t.build), env), masks, t)
         == Survivors(Join(t.conditions, t.kind, Survivors(ls, masks + onProbe, t.probe),
                           Survivors(rs, masks + onBuild, t.build), Schema(t.build), env), masks, t)
  {
    var p := row => Survives(masks, t, row);
    var pl := row => Survives(masks + onProbe, t.probe, row);
    var pr := row => Survives(masks + onBuild, t.build, row);
    forall l | l in ls && !pl(l)
      ensures Keep(JoinRow(t.kind, l, MatchesOf(t.conditions, l, rs, env), Schema(t.build)), p) == []
    {
      ProbeRowDies(t, masks, onProbe, onBuild, l, rs, env);
    }
    forall l | l in ls && pl(l)
      ensures Keep(JoinRow(t.kind, l, MatchesOf(t.conditions, l, rs, env), Schema(t.build)), p)
           == Keep(JoinRow(t.kind, l, MatchesOf(t.conditions, l, Keep(rs, pr), env), Schema(t.build)), p)
    {
      ProbeRowLives(t, masks, onProbe, onBuild, l, rs, env);
    }
    JoinSurvivors(t.conditions, t.kind, ls, rs, Schema(t.build), pl, pr, p, env);
  }

  /** The join step of the induction, for a masked pair of sides and the pair without masks. */
  lemma JoinMasksInvisible(t: Plan, masks: seq<Mask>, onProbe: seq<Mask>, onBuild: seq<Mask>,
                           ls: seq<Row>, rs: seq<Row>, ls': seq<Row>, rs': seq<Row>, env: Env)
    requires JoinContext(t, masks, onProbe, onBuild, env)
    requires RowsHave(ls, Schema(t.probe)) && RowsHave(rs, Schema(t.build))
    requires RowsHave(ls', Schema(t.probe)) && RowsHave(rs', Schema(t.build))
    requires forall r, i :: r in rs && 0 <= i < |onProbe| ==> Get(r, onProbe[i].key) in onProbe[i].ids
    requires forall l, i :: l in ls && 0 <= i < |onBuild| ==> Get(l, onBuild[i].key) in onBuild[i].ids
    requires Survivors(ls, masks + onProbe, t.probe) == Survivors(ls', masks + onProbe, t.probe)
    requires Survivors(rs, masks + onBuild, t.build) == Survivors(rs', masks + onBuild, t.build)
    ensures Survivors(Join(t.conditions, t.kind, ls, rs, Schema(t.build), env), masks, t)
         == Survivors(Join(t.conditions, t.kind, ls', rs', Schema(t.build), env), masks, t)
  {
    JoinOfSurvivors(t, masks, onProbe, onBuild, ls, rs, env);
    var pl := row => Survives(masks + onProbe, t.probe, row);
    var pr := row => Survives(masks + onBuild, t.build, row);
    forall r | r in rs' && pr(r) ensures r in rs { KeepMember(rs', pr, r); KeepMember(rs, pr, r); }
    forall l | l in ls' && pl(l) ensures l in ls { KeepMember(ls', pl, l); KeepMember(ls, pl, l); }
    JoinOfSurvivors(t, masks, onProbe, onBuild, ls', rs', env);
  }

  /**
    The main lemma: a plan evaluated under masks, with its own semi masks at work, agrees with
    the plan stripped of every mask on all rows that survive the masks.
   */
  lemma {:induction false} MasksInvisible(p: Plan, masks: seq<Mask>, env: Env)
    requires ValidEnv(env) && Valid(p, env) && SafeMasks(p) && TransparentFor(masks, p)
    ensures Survivors(Eval(p, env, masks), masks, p) == Survivors(Eval(Strip(p), env, []), masks, p)
    decreases p, 2
  {
    var survives := row => Survives(masks, p, row);
    RA.EvalDomain(p, env, masks);
    match p
    case ScanNodeTable(s) => ScanMasksInvisible(s, masks, env);
    case TableFunctionCall(_, _, _) =>
    case Extend(_, _, _, _, _) => ExtendMasksInvisible(p, masks, env);
    case Filter(e, c) =>
      MasksInvisible(c, masks, env);
      KeepCommute(Eval(c, env, masks), row => Holds(e, row, env), survives);
      KeepCommute(Eval(Strip(c), env, []), row => Holds(e, row, env), survives);
      assert forall row :: Survives(masks, c, row) <==> Survives(masks, p, row);
      KeepWeaken(Eval(c, env, masks), Eval(Strip(c), env, []), row => Survives(masks, c, row), survives);
    case CrossProduct(_, _, _) => CrossMasksInvisible(p, masks, env);
    case HashJoin(conds, k, l, r, sip) => HashJoinMasksInvisible(p, masks, env);
    case Accumulate(t, c) =>
      if t.Regular? {
        MasksInvisible(c, masks, env);
        KeepWeaken(Eval(c, env, masks), Eval(Strip(c), env, []), row => Survives(masks, c, row), survives);
      } else {
        UnmaskedSide(c, masks, env);
      }
    case SemiMasker(_, c) =>
      MasksInvisible(c, masks, env);
      KeepWeaken(Eval(c, env, masks), Eval(Strip(c), env, []), row => Survives(masks, c, row), survives);
    case EmptyResult(_) =>
    case Other(o, cs, children) => OpaqueMasksInvisible(p, children, masks, env);
  }

  lemma ExtendMasksInvisible(p: Plan, masks: seq<Mask>, env: Env)
    requires p.Extend? && ValidEnv(env) && Valid(p, env) && SafeMasks(p) && TransparentFor(masks, p)
    ensures Survivors(Eval(p, env, masks), masks, p) == Survivors(Eval(Strip(p), env, []), masks, p)
    decreases p, 0
  {
    var c := p.child;
    var survives := row => Survives(masks, p, row);
    MasksInvisible(c, masks, env);
    StripKeeps(c, env);
    var rows, rows' := Eval(c, env, masks), Eval(Strip(c), env, []);
    RA.EvalDomain(c, env, masks);
    RA.EvalDomain(Strip(c), env, []);
    var below := row => Survives(masks, c, row);
    forall l, r | (l in rows || l in rows') && !below(l) && r in env.extend(p.extension, p.added, l) ensures !survives(l + r) {
      var i :| 0 <= i < |masks| && HasCandidate(masks[i].key, c) && masks[i].key in l && l[masks[i].key] !in masks[i].ids;
      assert HasCandidate(masks[i].key, p) && (l + r)[masks[i].key] == l[masks[i].key];
    }
    ExpandSurvivors(rows, p.extension, p.added, below, survives, env);
    ExpandSurvivors(rows', p.extension, p.added, below, survives, env);
    KeepCommute(Expand(rows, p.extension, p.added, env), row => !env.skips(p.hints, row), survives);
    KeepCommute(Expand(rows', p.extension, p.added, env), row => !env.skips(p.hints, row), survives);
  }

  lemma ScanMasksInvisible(s: Scan, masks: seq<Mask>, env: Env)
    requires ValidEnv(env) && ValidScan(s, env)
    ensures var p := ScanNodeTable(s);
            Survivors(Eval(p, env, masks), masks, p) == Survivors(Eval(p, env, []), masks, p)
  {
    if s.key.None? {
      var p := ScanNodeTable(s);
      var survives := row => Survives(masks, p, row);
      var rows := Unskipped(RowsOf(s, env.records(s.tables)), s.hints, env);
      RA.RowsOfDomain(s, env.records(s.tables));
      RA.KeepDomain(RowsOf(s, env.records(s.tables)), row => !env.skips(s.hints, row), Schema(p));
      KeepKeep(rows, row => env.admits(s, masks, row), survives);
      KeepKeep(rows, row => env.admits(s, [], row), survives);
      forall row | row in rows && survives(row) ensures env.admits(s, masks, row) {
        assert HasCandidate(s.nodeID, p);
        assert PassesScan(masks, s.nodeID, row);
      }
      forall row | row in rows ensures env.admits(s, [], row) { assert PassesScan([], s.nodeID, row); }
      KeepSame(rows, row => (r => env.admits(s, masks, r))(row) && survives(row), survives);
      KeepSame(rows, row => (r => env.admits(s, [], r))(row) && survives(row), survives);
    }
  }

  /** A side without scans to mask has all its rows. */
  lemma UnmaskedSide(c: Plan, masks: seq<Mask>, env: Env)
    requires ValidEnv(env) && Valid(c, env) && SafeMasks(c)
    requires forall i :: 0 <= i < |masks| ==> masks[i].key.isInternalID && !HasCandidate(masks[i].key, c)
    ensures Eval(c, env, masks) == Eval(Strip(c), env, []) && Schema(Strip(c)) == Schema(c)
    decreases c, 3
  {
    forall i | 0 <= i < |masks| ensures Transparent(masks[i].key, c) { NoCandidateTransparent(masks[i].key, c); }
    MasksInvisible(c, masks, env);
    StripKeeps(c, env);
    KeepAll(Eval(c, env, masks), row => Survives(masks, c, row));
    KeepAll(Eval(Strip(c), env, []), row => Survives(masks, c, row));
  }

  lemma CrossMasksInvisible(p: Plan, masks: seq<Mask>, env: Env)
    requires p.CrossProduct? && ValidEnv(env) && Valid(p, env) && SafeMasks(p) && TransparentFor(masks, p)
    ensures Survivors(Eval(p, env, masks), masks, p) == Survivors(Eval(Strip(p), env, []), masks, p)
    decreases p, 0
  {
    var l, r := p.probe, p.build;
    forall i | 0 <= i < |masks| ensures Transparent(masks[i].key, l) { assert Transparent(masks[i].key, p); }
    MasksInvisible(l, masks, env);
    StripKeeps(l, env);
    StripKeeps(r, env);
    RA.EvalDomain(l, env, masks);
    RA.EvalDomain(r, env, masks);
    RA.EvalDomain(Strip(l), env, []);
    RA.EvalDomain(Strip(r), env, []);
    if p.collect.Regular? {
      MasksInvisible(r, masks, env);
      CrossOfSurvivors(p, masks, Eval(l, env, masks), Eval(r, env, masks));
      CrossOfSurvivors(p, masks, Eval(Strip(l), env, []), Eval(Strip(r), env, []));
    } else {
      forall i | 0 <= i < |masks| ensures !HasCandidate(masks[i].key, r) { assert Transparent(masks[i].key, p); }
      UnmaskedSide(r, masks, env);
      var rows := Collected(p.collect, Eval(r, env, masks), Schema(r));
      RA.CollectedDomain(p.collect, Eval(r, env, masks), Schema(r));
      CrossOfProbes(p, masks, Eval(l, env, masks), rows);
      CrossOfProbes(p, masks, Eval(Strip(l), env, []), rows);
    }
  }

  /** A row of a product survives only if its probe row does. */
  lemma ProbeSurvives(p: Plan, masks: seq<Mask>, a: Row, b: Row)
    requires p.CrossProduct? && a.Keys !! b.Keys && Survives(masks, p, a + b)
    ensures Survives(masks, p.probe, a)
  {
    forall i | 0 <= i < |masks| && HasCandidate(masks[i].key, p.probe) && masks[i].key in a
      ensures a[masks[i].key] in masks[i].ids
    {
      assert HasCandidate(masks[i].key, p) && (a + b)[masks[i].key] == a[masks[i].key];
    }
  }

  lemma CrossOfSurvivors(p: Plan, masks: seq<Mask>, ls: seq<Row>, rs: seq<Row>)
    requires p.CrossProduct? && Schema(p.probe) !! Schema(p.build)
    requires RowsHave(ls, Schema(p.probe)) && RowsHave(rs, Schema(p.build))
    ensures Survivors(Cross(ls, rs), masks, p)
         == Survivors(Cross(Survivors(ls, masks, p.probe), Survivors(rs, masks, p.build)), masks, p)
  {
    var survives := row => Survives(masks, p, row);
    forall a, b | a in ls && b in rs && survives(a + b)
      ensures Survives(masks, p.probe, a) && Survives(masks, p.build, b)
    {
      ProbeSurvives(p, masks, a, b);
      forall i | 0 <= i < |masks| && HasCandidate(masks[i].key, p.build) && masks[i].key in b
        ensures b[masks[i].key] in masks[i].ids
      {
        assert HasCandidate(masks[i].key, p) && (a + b)[masks[i].key] == b[masks[i].key];
      }
    }
    RA.KeepCross(ls, rs, survives, row => Survives(masks, p.probe, row), row => Survives(masks, p.build, row), survives);
  }

  lemma CrossOfProbes(p: Plan, masks: seq<Mask>, ls: seq<Row>, rs: seq<Row>)
    requires p.CrossProduct? && Schema(p.probe) !! Schema(p.build) && Schema(p.probe) !! Marks(p.collect)
    requires RowsHave(ls, Schema(p.probe)) && RowsHave(rs, Schema(p.build) + Marks(p.collect))
    ensures Survivors(Cross(ls, rs), masks, p) == Survivors(Cross(Survivors(ls, masks, p.probe), rs), masks, p)
  {
    var survives := row => Survives(masks, p, row);
    var all := (row: Row) => true;
    forall a, b | a in ls && b in rs && survives(a + b) ensures Survives(masks, p.probe, a) {
      ProbeSurvives(p, masks, a, b);
    }
    RA.KeepCross(ls, rs, survives, row => Survives(masks, p.probe, row), all, survives);
    KeepAll(rs, all);
  }

  /** The masks a hash join adds below its probe side. */
  function MasksOnProbe(t: Plan, masks: seq<Mask>, env: Env): seq<Mask>
    requires t.HashJoin?
  {
    if t.sip.position.OnBuild? then Collect(MaskKeys(t.build), Eval(t.build, env, masks)) else []
  }

  /** The masks a hash join adds below its build side. */
  function MasksOnBuild(t: Plan, masks: seq<Mask>, env: Env): seq<Mask>
    requires t.HashJoin?
  {
    if t.sip.position.OnProbe? then Collect(MaskKeys(t.probe), Eval(t.probe, env, masks)) else []
  }

  lemma JoinMasksSafe(t: Plan, masks: seq<Mask>, env: Env)
    requires t.HashJoin? && Valid(t, env) && SafeMasks(t) && TransparentFor(masks, t)
    ensures var onProbe, onBuild := MasksOnProbe(t, masks, env), MasksOnBuild(t, masks, env);
            && JoinContext(t, masks, onProbe, onBuild, env)
            && TransparentFor(masks + onProbe, t.probe)
            && TransparentFor(masks + onBuild, t.build)
  {
    CollectAt(MaskKeys(t.build), Eval(t.build, env, masks));
    CollectAt(MaskKeys(t.probe), Eval(t.probe, env, masks));
    forall i | 0 <= i < |masks| ensures Transparent(masks[i].key, t.probe) && Transparent(masks[i].key, t.build) {
      if !t.kind.Inner? { NoCandidateTransparent(masks[i].key, t.build); }
    }
  }

  lemma EvalJoin(t: Plan, masks: seq<Mask>, env: Env)
    requires t.HashJoin?
    ensures Eval(t, env, masks)
         == Join(t.conditions, t.kind, Eval(t.probe, env, masks + MasksOnProbe(t, masks, env)),
                 Eval(t.build, env, masks + MasksOnBuild(t, masks, env)), Schema(t.build), env)
  {
    assert masks + [] == masks;
  }

  lemma HashJoinMasksInvisible(t: Plan, masks: seq<Mask>, env: Env)
    requires t.HashJoin? && ValidEnv(env) && Valid(t, env) && SafeMasks(t) && TransparentFor(masks, t)
    ensures Survivors(Eval(t, env, masks), masks, t) == Survivors(Eval(Strip(t), env, []), masks, t)
    decreases t, 0
  {
    var l, r := t.probe, t.build;
    var onProbe, onBuild := MasksOnProbe(t, masks, env), MasksOnBuild(t, masks, env);
    JoinMasksSafe(t, masks, env);
    EvalJoin(t, masks, env);
    EvalJoin(Strip(t), [], env);
    var ls, rs := Eval(l, env, masks + onProbe), Eval(r, env, masks + onBuild);
    StripKeeps(l, env);
    StripKeeps(r, env);
    RA.EvalDomain(l, env, masks + onProbe);
    RA.EvalDomain(r, env, masks + onBuild);
    RA.EvalDomain(Strip(l), env, []);
    RA.EvalDomain(Strip(r), env, []);
    MasksInvisible(l, masks + onProbe, env);
    MasksInvisible(r, masks + onBuild, env);
    CollectAt(MaskKeys(r), Eval(r, env, masks));
    CollectAt(MaskKeys(l), Eval(l, env, masks));
    assert onProbe != [] ==> masks + onBuild == masks;
    assert onBuild != [] ==> masks + onProbe == masks;
    JoinMasksInvisible(t, masks, onProbe, onBuild, ls, rs, Eval(Strip(l), env, []), Eval(Strip(r), env, []), env);
  }

  lemma OpaqueMasksInvisible(p: Plan, children: seq<Plan>, masks: seq<Mask>, env: Env)
    requires p.Other? && p.children == children
    requires ValidEnv(env) && Valid(p, env) && SafeMasks(p) && TransparentFor(masks, p)
    ensures Survivors(Eval(p, env, masks), masks, p) == Survivors(Eval(Strip(p), env, []), masks, p)
    decreases p, 0
  {
    StripAllAt(children);
    forall i | 0 <= i < |children|
      ensures Eval(children[i], env, masks) == Eval(Strip(children[i]), env, [])
    {
      var c := children[i];
      forall j | 0 <= j < |masks| ensures !HasCandidate(masks[j].key, c) && Transparent(masks[j].key, c) {
        CandidatesOfAllAt(masks[j].key, children, i);
        NoCandidateTransparent(masks[j].key, c);
      }
      MasksInvisible(c, masks, env);
      KeepAll(Eval(c, env, masks), row => Survives(masks, c, row));
      KeepAll(Eval(Strip(c), env, []), row => Survives(masks, c, row));
    }
    EvalChildrenAgree(children, StripAll(children), masks, env);
  }

  lemma CandidatesOfAllAt(k: Column, ps: seq<Plan>, i: nat)
    requires i < |ps| && GetCandidatesOfAll(k, ps) == []
    ensures !HasCandidate(k, ps[i])
  {
    if i > 0 { CandidatesOfAllAt(k, ps[1..], i - 1); }
  }

  /** Where there is nothing to mask, there is nothing in the way. */
  lemma NoCandidateTransparent(k: Column, p: Plan)
    requires !HasCandidate(k, p)
    ensures Transparent(k, p)
  {
  }

  lemma EvalChildrenAgree(ps: seq<Plan>, qs: seq<Plan>, masks: seq<Mask>, env: Env)
    requires |ps| == |qs|
    requires forall i :: 0 <= i < |ps| ==> Eval(ps[i], env, masks) == Eval(qs[i], env, [])
    ensures EvalChildren(ps, env, masks) == EvalChildren(qs, env, [])
  {
    if ps != [] { EvalChildrenAgree(ps[1..], qs[1..], masks, env); }
  }

  /* ----- the optimizer preserves meaning ----- */

  /** Plans before this optimizer: no semi masks anywhere. */
  ghost predicate Maskless(p: Plan) {
    match p
    case ScanNodeTable(_) => true
    case TableFunctionCall(_, _, _) => true
    case Extend(_, _, _, _, c) => Maskless(c)
    case Filter(_, c) => Maskless(c)
    case CrossProduct(_, l, r) => Maskless(l) && Maskless(r)
    case HashJoin(_, _, l, r, sip) => !sip.position.OnBuild? && !sip.position.OnProbe? && Maskless(l) && Maskless(r)
    case Accumulate(_, c) => Maskless(c)
    case SemiMasker(_, c) => false
    case EmptyResult(_) => true
    case Other(_, _, children) => forall i :: 0 <= i < |children| ==> Maskless(children[i])
  }

  /** Masks keyed on join nodes are aimed only at scans without an operator in the way. */
  ghost predicate SafeTarget(conds: JoinConditions, target: Plan) {
    forall c :: c in GetJoinNodeIDs(conds) && HasCandidate(c, target) ==> IsJoinNodeID(c, conds) && Transparent(c, target)
  }

  /** The side that the join would mask, if any, is a safe target; the other side is not asked. */
  ghost predicate SafeJoin(op: Plan)
    requires op.HashJoin?
  {
    if op.probe.Accumulate? || op.sip.position.Prohibit? then true
    else if CanPassBuildToProbe(op) then SafeTarget(op.conditions, op.probe)
    else if !op.sip.position.ProhibitProbeToBuild? && CanPassProbeToBuild(op) then SafeTarget(op.conditions, op.build)
    else true
  }

  ghost predicate SafeToMask(p: Plan) {
    match p
    case ScanNodeTable(_) => true
    case TableFunctionCall(_, _, _) => true
    case Extend(_, _, _, _, c) => SafeToMask(c)
    case Filter(_, c) => SafeToMask(c)
    case CrossProduct(_, l, r) => SafeToMask(l) && SafeToMask(r)
    case HashJoin(_, _, l, r, _) => SafeToMask(l) && SafeToMask(r) && SafeJoin(p)
    case Accumulate(_, c) => SafeToMask(c)
    case SemiMasker(_, c) => SafeToMask(c)
    case EmptyResult(_) => true
    case Other(_, _, children) => forall i :: 0 <= i < |children| ==> SafeToMask(children[i])
  }

  lemma ApplyKeeps(ids: seq<Column>, fromRoot: Plan, toRoot: Plan, env: Env)
    ensures var p := ApplySemiMasks(ids, fromRoot, toRoot);
            && Strip(p) == Strip(fromRoot) && Schema(p) == Schema(fromRoot)
            && (Valid(fromRoot, env) ==> Valid(p, env))
            && (SafeMasks(fromRoot) ==> SafeMasks(p))
            && (forall k :: k in MaskKeys(p) ==> (k in ids && HasCandidate(k, toRoot)) || k in MaskKeys(fromRoot))
    decreases |ids|
  {
    if ids != [] {
      var from' := if HasCandidate(ids[0], toRoot) then SemiMasker(ids[0], fromRoot) else fromRoot;
      ApplyKeeps(ids[1..], from', toRoot, env);
    }
  }

  lemma ApplyScans(k: Column, ids: seq<Column>, fromRoot: Plan, toRoot: Plan)
    ensures var p := ApplySemiMasks(ids, fromRoot, toRoot);
            && GetScanNodeCandidates(k, p) == GetScanNodeCandidates(k, fromRoot)
            && Transparent(k, p) == Transparent(k, fromRoot)
    decreases |ids|
  {
    if ids != [] {
      var from' := if HasCandidate(ids[0], toRoot) then SemiMasker(ids[0], fromRoot) else fromRoot;
      ApplyScans(k, ids[1..], from', toRoot);
    }
  }

  /** The rewrite moves no scan and no operator above a scan. */
  lemma {:induction false} VisitScans(k: Column, p: Plan)
    ensures GetScanNodeCandidates(k, VisitOperator(p)) == GetScanNodeCandidates(k, p)
    ensures Transparent(k, VisitOperator(p)) == Transparent(k, p)
  {
    match p
    case Extend(_, _, _, _, c) => VisitScans(k, c);
    case Filter(_, c) => VisitScans(k, c);
    case CrossProduct(_, l, r) => VisitScans(k, l); VisitScans(k, r);
    case HashJoin(conds, kind, l, r, sip) =>
      VisitScans(k, l);
      VisitScans(k, r);
      var ids := GetJoinNodeIDs(conds);
      ApplyScans(k, ids, VisitOperator(r), VisitOperator(l));
      ApplyScans(k, ids, VisitOperator(l), VisitOperator(r));
    case Accumulate(_, c) => VisitScans(k, c);
    case SemiMasker(_, c) => VisitScans(k, c);
    case Other(_, _, children) =>
      VisitAllAt(children);
      forall i | 0 <= i < |children|
        ensures GetScanNodeCandidates(k, VisitOperator(children[i])) == GetScanNodeCandidates(k, children[i])
      {
        VisitScans(k, children[i]);
      }
      CandidatesOfAllSame(k, VisitAll(children), children);
    case _ =>
  }

  lemma ApplyFilters(ids: seq<Column>, fromRoot: Plan, toRoot: Plan)
    ensures SubPlanContainsFilter(ApplySemiMasks(ids, fromRoot, toRoot)) == SubPlanContainsFilter(fromRoot)
    decreases |ids|
  {
    if ids != [] {
      var from' := if HasCandidate(ids[0], toRoot) then SemiMasker(ids[0], fromRoot) else fromRoot;
      ApplyFilters(ids[1..], from', toRoot);
    }
  }

  /** The rewrite adds no filter and no accumulation at the root. */
  lemma {:induction false} VisitFilters(p: Plan)
    ensures SubPlanContainsFilter(VisitOperator(p)) == SubPlanContainsFilter(p)
    ensures VisitOperator(p).Accumulate? == p.Accumulate?
  {
    match p
    case Extend(_, _, _, _, c) => VisitFilters(c);
    case Filter(_, c) =>
    case CrossProduct(_, l, r) => VisitFilters(l); VisitFilters(r);
    case HashJoin(conds, kind, l, r, sip) =>
      VisitFilters(l);
      VisitFilters(r);
      var ids := GetJoinNodeIDs(conds);
      ApplyFilters(ids, VisitOperator(r), VisitOperator(l));
      ApplyFilters(ids, VisitOperator(l), VisitOperator(r));
    case Accumulate(_, c) => VisitFilters(c);
    case SemiMasker(_, c) => VisitFilters(c);
    case Other(_, _, children) =>
      VisitAllAt(children);
      forall i | 0 <= i < |children|
        ensures SubPlanContainsFilter(VisitAll(children)[i]) == SubPlanContainsFilter(children[i])
      {
        VisitFilters(children[i]);
      }
    case _ =>
  }

  lemma VisitAllAt(ps: seq<Plan>)
    ensures |VisitAll(ps)| == |ps|
    ensures forall i :: 0 <= i < |ps| ==> VisitAll(ps)[i] == VisitOperator(ps[i])
  {
    if ps != [] { VisitAllAt(ps[1..]); }
  }

  lemma StripAllSame(ps: seq<Plan>, qs: seq<Plan>)
    requires |ps| == |qs|
    requires forall i :: 0 <= i < |ps| ==> Strip(ps[i]) == Strip(qs[i])
    ensures StripAll(ps) == StripAll(qs)
  {
    if ps != [] { StripAllSame(ps[1..], qs[1..]); }
  }

  lemma CandidatesOfAllSame(k: Column, ps: seq<Plan>, qs: seq<Plan>)
    requires |ps| == |qs|
    requires forall i :: 0 <= i < |ps| ==> GetScanNodeCandidates(k, ps[i]) == GetScanNodeCandidates(k, qs[i])
    ensures GetCandidatesOfAll(k, ps) == GetCandidatesOfAll(k, qs)
  {
    if ps != [] { CandidatesOfAllSame(k, ps[1..], qs[1..]); }
  }

  /** What the rewrite leaves alone, and that every mask it adds is safe. */
  ghost predicate Masked(p: Plan, q: Plan, env: Env) {
    && Strip(q) == Strip(p) && Schema(q) == Schema(p) && Valid(q, env) && SafeMasks(q)
    && MaskKeys(q) == []
  }

  lemma {:induction false} VisitOperatorSafe(p: Plan, env: Env)
    requires Valid(p, env) && Maskless(p) && SafeToMask(p)
    ensures Masked(p, VisitOperator(p), env)
  {
    match p
    case Extend(_, _, _, _, c) => VisitOperatorSafe(c, env);
    case Filter(_, c) => VisitOperatorSafe(c, env);
    case CrossProduct(_, l, r) =>
      VisitOperatorSafe(l, env);
      VisitOperatorSafe(r, env);
    case HashJoin(conds, k, l, r, sip) =>
      VisitOperatorSafe(l, env);
      VisitOperatorSafe(r, env);
      VisitedJoinSafe(p);
      VisitHashJoinSafe(HashJoin(conds, k, VisitOperator(l), VisitOperator(r), sip), env);
    case Accumulate(_, c) => VisitOperatorSafe(c, env);
    case Other(_, _, children) =>
      VisitAllAt(children);
      forall i | 0 <= i < |children| ensures Masked(children[i], VisitOperator(children[i]), env) {
        VisitOperatorSafe(children[i], env);
      }
      StripAllSame(children, VisitAll(children));
    case _ =>
  }

  /** Visiting its children does not change which side a join masks, or whether that is safe. */
  lemma VisitedJoinSafe(op: Plan)
    requires op.HashJoin? && SafeJoin(op)
    ensures SafeJoin(HashJoin(op.conditions, op.kind, VisitOperator(op.probe), VisitOperator(op.build), op.sip))
  {
    var l, r := op.probe, op.build;
    VisitFilters(l);
    VisitFilters(r);
    forall c ensures HasCandidate(c, VisitOperator(l)) == HasCandidate(c, l)
             ensures Transparent(c, VisitOperator(l)) == Transparent(c, l)
    {
      VisitScans(c, l);
    }
    forall c ensures HasCandidate(c, VisitOperator(r)) == HasCandidate(c, r)
             ensures Transparent(c, VisitOperator(r)) == Transparent(c, r)
    {
      VisitScans(c, r);
    }
    var ids := GetJoinNodeIDs(op.conditions);
    assert AnyCandidate(ids, VisitOperator(l)) == AnyCandidate(ids, l);
    assert AnyCandidate(ids, VisitOperator(r)) == AnyCandidate(ids, r);
  }

  lemma VisitHashJoinSafe(op: Plan, env: Env)
    requires op.HashJoin? && Valid(op, env) && SafeMasks(op)
    requires MaskKeys(op.probe) == [] && MaskKeys(op.build) == []
    requires !op.sip.position.OnBuild? && !op.sip.position.OnProbe?
    requires SafeJoin(op)
    ensures Masked(op, VisitHashJoin(op), env)
  {
    if !op.probe.Accumulate? && !op.sip.position.Prohibit? {
      if CanPassBuildToProbe(op) {
        BuildToProbeSafe(op, env);
      } else if !op.sip.position.ProhibitProbeToBuild? && CanPassProbeToBuild(op) {
        ProbeToBuildSafe(op, env);
      }
    }
  }

  lemma BuildToProbeSafe(op: Plan, env: Env)
    requires op.HashJoin? && Valid(op, env) && SafeMasks(op)
    requires MaskKeys(op.build) == [] && op.kind.Inner? && SafeTarget(op.conditions, op.probe)
    ensures Masked(op, HashJoin(op.conditions, op.kind, op.probe,
                                ApplySemiMasks(GetJoinNodeIDs(op.conditions), op.build, op.probe),
                                SipInfo(OnBuild, BuildToProbe)), env)
  {
    ApplyKeeps(GetJoinNodeIDs(op.conditions), op.build, op.probe, env);
  }

  lemma ProbeToBuildSafe(op: Plan, env: Env)
    requires op.HashJoin? && Valid(op, env) && SafeMasks(op)
    requires MaskKeys(op.probe) == [] && SafeTarget(op.conditions, op.build)
    ensures Masked(op, HashJoin(op.conditions, op.kind,
                                Accumulate(Regular, ApplySemiMasks(GetJoinNodeIDs(op.conditions), op.probe, op.build)),
                                op.build, SipInfo(OnProbe, ProbeToBuild)), env)
  {
    var masked := ApplySemiMasks(GetJoinNodeIDs(op.conditions), op.probe, op.build);
    ApplyKeeps(GetJoinNodeIDs(op.conditions), op.probe, op.build, env);
    assert Schema(Accumulate(Regular, masked)) == Schema(masked);
  }

  /** The whole rewrite returns the same rows, whatever the masks skip. */
  lemma SemiMasksPreserveRows(p: Plan, env: Env)
    requires ValidEnv(env) && Valid(p, env) && Maskless(p) && SafeToMask(p)
    ensures Eval(VisitOperator(p), env, []) == Eval(p, env, [])
    ensures Schema(VisitOperator(p)) == Schema(p)
  {
    var q := VisitOperator(p);
    VisitOperatorSafe(p, env);
    MasksInvisible(q, [], env);
    MasklessSafe(p);
    MasksInvisible(p, [], env);
    KeepAll(Eval(q, env, []), row => Survives([], q, row));
    KeepAll(Eval(p, env, []), row => Survives([], p, row));
    KeepAll(Eval(Strip(p), env, []), row => Survives([], p, row));
    KeepAll(Eval(Strip(p), env, []), row => Survives([], q, row));
  }

  lemma MasklessSafe(p: Plan)
    requires Maskless(p)
    ensures SafeMasks(p)
  {
  }

  /* ----- why transparency is needed ----- */

  const NodeID := Column("a", "_ID", false, true)
  const NodeScan := Scan(NodeID, [0], [], [], None)

  /** `MATCH (a) WITH a LIMIT 1` joined on a with a selective table function producing one node. */
  const LimitProbe := Other(0, {NodeID}, [ScanNodeTable(NodeScan)])
  const LimitBuild := Filter(Literal(Bool(true)), TableFunctionCall(0, {NodeID}, []))
  const OnNodeID: JoinConditions := [(Property(NodeID), Property(NodeID))]
  const LimitJoin := HashJoin(OnNodeID, Inner, LimitProbe, LimitBuild, SipInfo(NoPosition, NoDirection))
  const LimitMasked :=
    HashJoin(OnNodeID, Inner, LimitProbe, SemiMasker(NodeID, LimitBuild), SipInfo(OnBuild, BuildToProbe))

  function Node(i: int): Record { Record(Datum(i), map["id" := Datum(i)]) }

  /** Nodes 1 and 2 are stored, the table function yields node 2, operator 0 is LIMIT 1. */
  function LimitEnv(): Env {
    Env(ts => [Node(1), Node(2)],
        t => "id",
        p => Null,
        (f, vs) => Null,
        (t, v) => v,
        (f, cs) => if cs == {NodeID} then [map[NodeID := Datum(2)]] else [],
        (x, cs, row) => [],
        (o: nat, cs: set<Column>, inputs: seq<seq<Row>>) =>
          if |inputs| == 1 && |inputs[0]| > 0 && inputs[0][0].Keys == cs then [inputs[0][0]] else [],
        (hints, row) => false,
        (s: Scan, masks: seq<Mask>, row: Row) => PassesScan(masks, s.nodeID, row))
  }

  /**
    The optimizer collects scans below any operator. Below a LIMIT this changes the result: the
    first stored node does not join, but the first masked node does.
   */
  lemma MaskBelowLimitChangesRows(env: Env)
    requires env == LimitEnv()
    ensures ValidEnv(env) && Valid(LimitJoin, env) && Maskless(LimitJoin) && !SafeToMask(LimitJoin)
    ensures Eval(LimitJoin, env, []) == []
    ensures Eval(VisitOperator(LimitJoin), env, []) == [map[NodeID := Datum(2)]]
  {
    LimitValid(env);
    LimitRewrite();
    LimitRows(env);
  }

  lemma LimitValid(env: Env)
    requires env == LimitEnv()
    ensures ValidEnv(env) && Valid(LimitJoin, env) && Maskless(LimitJoin)
  {
  }

  lemma LimitRewrite()
    ensures VisitOperator(LimitJoin) == LimitMasked && !SafeToMask(LimitJoin)
  {
    var scan := ScanNodeTable(NodeScan);
    assert GetScanNodeCandidates(NodeID, scan) == [NodeScan];
    assert GetCandidatesOfAll(NodeID, [scan]) == [NodeScan];
    assert GetJoinNodeIDs(OnNodeID) == [NodeID] by { assert OnNodeID[1..] == []; }
    assert VisitAll([scan]) == [scan];
    assert VisitOperator(LimitProbe) == LimitProbe;
    assert VisitOperator(LimitBuild) == LimitBuild;
    assert HasCandidate([NodeID][0], LimitProbe);
    assert ApplySemiMasks([NodeID], LimitBuild, LimitProbe) == SemiMasker(NodeID, LimitBuild) by {
      assert [NodeID][1..] == [];
    }
    assert CanPassBuildToProbe(LimitJoin);
    assert !Transparent(NodeID, LimitProbe);
    assert NodeID in GetJoinNodeIDs(OnNodeID);
  }

  lemma JoinOne(l: Row, rs: seq<Row>, env: Env)
    ensures Join(OnNodeID, Inner, [l], rs, {NodeID}, env) == Merge(l, MatchesOf(OnNodeID, l, rs, env))
  {
    assert [l][1..] == [];
  }

  lemma LimitMatches(env: Env)
    requires env == LimitEnv()
    ensures MatchesOf(OnNodeID, map[NodeID := Datum(1)], [map[NodeID := Datum(2)]], env) == []
    ensures MatchesOf(OnNodeID, map[NodeID := Datum(2)], [map[NodeID := Datum(2)]], env) == [map[NodeID := Datum(2)]]
  {
    var one, two := map[NodeID := Datum(1)], map[NodeID := Datum(2)];
    assert OnNodeID[0] == (Property(NodeID), Property(NodeID));
    KeepNone([two], r => Matches(OnNodeID, one, r, env));
    KeepAll([two], r => Matches(OnNodeID, two, r, env));
  }

  lemma LimitMasks(env: Env)
    requires env == LimitEnv()
    ensures MasksOnProbe(LimitMasked, [], env) == [Mask(NodeID, {Datum(2)})]
  {
    var two := map[NodeID := Datum(2)];
    LimitSides(env);
    assert MaskKeys(LimitMasked.build) == [NodeID];
    var ids := set row | row in [two] :: Get(row, NodeID);
    assert two in [two] && Get(two, NodeID) in ids;
    assert ids == {Datum(2)};
    assert Collect([NodeID], [two]) == [Mask(NodeID, {Datum(2)})];
  }

  lemma LimitRows(env: Env)
    requires env == LimitEnv()
    ensures Eval(LimitJoin, env, []) == []
    ensures Eval(LimitMasked, env, []) == [map[NodeID := Datum(2)]]
  {
    var one, two := map[NodeID := Datum(1)], map[NodeID := Datum(2)];
    LimitSides(env);
    LimitMatches(env);
    JoinOne(one, [two], env);
    JoinOne(two, [two], env);
    EvalJoin(LimitJoin, [], env);
    assert Merge(two, [two]) == [two] by { assert two + two == two; assert [two][1..] == []; }
    EvalJoin(LimitMasked, [], env);
    LimitMasks(env);
    assert [] + MasksOnProbe(LimitMasked, [], env) == MasksOnProbe(LimitMasked, [], env);
    assert Eval(LimitMasked.build, env, []) == [two];
    assert Schema(LimitMasked.build) == {NodeID};
  }

  lemma LimitSides(env: Env)
    requires env == LimitEnv()
    ensures Eval(LimitBuild, env, []) == [map[NodeID := Datum(2)]]
    ensures Eval(LimitProbe, env, []) == [map[NodeID := Datum(1)]]
    ensures Eval(LimitProbe, env, [Mask(NodeID, {Datum(2)})]) == [map[NodeID := Datum(2)]]
  {
    var two := map[NodeID := Datum(2)];
    KeepAll([two], row => !env.skips([], row));
    KeepAll([two], row => Holds(Literal(Bool(true)), row, env));
    LimitScans(env);
    var scan := ScanNodeTable(NodeScan);
    var masks := [Mask(NodeID, {Datum(2)})];
    assert EvalChildren([scan], env, []) == [Eval(scan, env, [])];
    assert EvalChildren([scan], env, masks) == [Eval(scan, env, masks)];
  }

  lemma LimitScans(env: Env)
    requires env == LimitEnv()
    ensures ScanRows(NodeScan, env, []) == [map[NodeID := Datum(1)], map[NodeID := Datum(2)]]
    ensures ScanRows(NodeScan, env, [Mask(NodeID, {Datum(2)})]) == [map[NodeID := Datum(2)]]
  {
    var one, two := map[NodeID := Datum(1)], map[NodeID := Datum(2)];
    assert RowOf(NodeScan, Node(1)) == one && RowOf(NodeScan, Node(2)) == two;
    assert RowsOf(NodeScan, [Node(2)]) == [two];
    assert RowsOf(NodeScan, [Node(1), Node(2)]) == [one, two];
    KeepAll([one, two], row => !env.skips([], row));
    KeepAll([one, two], row => env.admits(NodeScan, [], row));
    var masks := [Mask(NodeID, {Datum(2)})];
    assert masks[0].key == NodeID;
    assert !env.admits(NodeScan, masks, one) && env.admits(NodeScan, masks, two);
    assert Keep([two], row => env.admits(NodeScan, masks, row)) == [two];
  }
}
