/**
  Logical plans and the rows they denote.

  A plan is evaluated to a sequence of rows; the order is the model's own enumeration
  order, so two plans with equal sequences produce the same bag of rows. Scalar functions,
  parameters, stored tables and operators the optimizers do not look into come from an
  environment.
 */
module Plans {
  import opened Options

  datatype Value = Null | Bool(b: bool) | Datum(id: int)

  /** A named column: the property `name` of the pattern variable `variable`. */
  datatype Column = Column(variable: string, name: string, isPrimaryKey: bool, isInternalID: bool)

  type Row = map<Column, Value>

  datatype Expr =
    | Literal(value: Value)
    | Parameter(param: string)
    | Property(column: Column)
    | Equals(left: Expr, right: Expr)
    | Cast(child: Expr, target: string)
    | Function(name: string, args: seq<Expr>)

  /** A stored node: its internal ID and its property values. */
  datatype Record = Record(id: Value, fields: map<string, Value>)

  datatype Scan = Scan(nodeID: Column, tables: seq<nat>, properties: seq<Column>,
                       hints: seq<Expr>, key: Option<Expr>)

  /** A left join may add a mark that says whether the probe row found a match. */
  datatype JoinKind = Inner | Left(found: Option<Column>) | Mark(mark: Column)

  /**
    How the rows of a side are collected before they are read: an optional collection yields a
    row of NULLs instead of nothing, and may add a mark that says whether there were any rows.
   */
  datatype AccumulateType = Regular | Optional(any: Option<Column>)

  datatype SemiMaskPosition = NoPosition | OnBuild | OnProbe | ProhibitProbeToBuild | Prohibit
  datatype SipDirection = NoDirection | ProbeToBuild | BuildToProbe | ForceBuildToProbe
  datatype SipInfo = SipInfo(position: SemiMaskPosition, direction: SipDirection)

  type JoinConditions = seq<(Expr, Expr)>

  datatype Plan =
    | ScanNodeTable(scan: Scan)
    | TableFunctionCall(call: nat, columns: set<Column>, hints: seq<Expr>)
    | Extend(extension: nat, added: set<Column>, isRecursive: bool, hints: seq<Expr>, child: Plan)
    | Filter(condition: Expr, child: Plan)
    | CrossProduct(collect: AccumulateType, probe: Plan, build: Plan)
    | HashJoin(conditions: JoinConditions, kind: JoinKind, probe: Plan, build: Plan, sip: SipInfo)
    | Accumulate(collect: AccumulateType, child: Plan)
    | SemiMasker(maskKey: Column, child: Plan)
    | EmptyResult(columns: set<Column>)
    | Other(operator: nat, columns: set<Column>, children: seq<Plan>)

  /** Everything outside the optimizer: stored tables, scalar functions, opaque operators. */
  datatype Env = Env(
    records: seq<nat> -> seq<Record>,
    primaryKey: nat -> string,
    parameter: string -> Value,
    apply: (string, seq<Value>) -> Value,
    cast: (string, Value) -> Value,
    call: (nat, set<Column>) -> seq<Row>,
    extend: (nat, set<Column>, Row) -> seq<Row>,
    operate: (nat, set<Column>, seq<seq<Row>>) -> seq<Row>,
    skips: (seq<Expr>, Row) -> bool,
    admits: (Scan, seq<Mask>, Row) -> bool)

  /* ----- expressions ----- */

  function Get(row: Row, c: Column): Value {
    if c in row then row[c] else Null
  }

  function SqlEquals(a: Value, b: Value): Value {
    if a == Null || b == Null then Null else Bool(a == b)
  }

  function EvalExpr(e: Expr, row: Row, env: Env): Value {
    match e
    case Literal(v) => v
    case Parameter(p) => env.parameter(p)
    case Property(c) => Get(row, c)
    case Equals(l, r) => SqlEquals(EvalExpr(l, row, env), EvalExpr(r, row, env))
    case Cast(c, t) => env.cast(t, EvalExpr(c, row, env))
    case Function(n, args) => env.apply(n, EvalArgs(args, row, env))
  }

  function EvalArgs(args: seq<Expr>, row: Row, env: Env): seq<Value> {
    if args == [] then [] else [EvalExpr(args[0], row, env)] + EvalArgs(args[1..], row, env)
  }

  /** A filter keeps a row only when its predicate is true; NULL counts as not true. */
  predicate Holds(e: Expr, row: Row, env: Env) {
    EvalExpr(e, row, env) == Bool(true)
  }

  predicate AllHold(es: seq<Expr>, row: Row, env: Env) {
    forall i :: 0 <= i < |es| ==> Holds(es[i], row, env)
  }

  function ColumnsOf(e: Expr): set<Column> {
    match e
    case Literal(_) => {}
    case Parameter(_) => {}
    case Property(c) => {c}
    case Equals(l, r) => ColumnsOf(l) + ColumnsOf(r)
    case Cast(c, _) => ColumnsOf(c)
    case Function(_, args) => ColumnsOfAll(args)
  }

  function ColumnsOfAll(es: seq<Expr>): set<Column> {
    if es == [] then {} else ColumnsOf(es[0]) + ColumnsOfAll(es[1..])
  }

  predicate InScope(e: Expr, schema: set<Column>) {
    e.Property? && e.column in schema
  }

  /** Schema::evaluable: a leaf other than a literal must be in scope itself. */
  predicate Evaluable(e: Expr, schema: set<Column>) {
    match e
    case Literal(_) => true
    case Parameter(_) => false
    case Property(c) => c in schema
    case Equals(l, r) => Evaluable(l, schema) && Evaluable(r, schema)
    case Cast(c, _) => Evaluable(c, schema)
    case Function(_, args) => args != [] && AllEvaluable(args, schema)
  }

  predicate AllEvaluable(es: seq<Expr>, schema: set<Column>) {
    es == [] || (Evaluable(es[0], schema) && AllEvaluable(es[1..], schema))
  }

  lemma EvaluableColumns(e: Expr, schema: set<Column>)
    requires Evaluable(e, schema)
    ensures ColumnsOf(e) <= schema
  {
    if e.Function? { AllEvaluableColumns(e.args, schema); }
  }

  lemma AllEvaluableColumns(es: seq<Expr>, schema: set<Column>)
    requires AllEvaluable(es, schema)
    ensures ColumnsOfAll(es) <= schema
  {
    if es != [] {
      EvaluableColumns(es[0], schema);
      AllEvaluableColumns(es[1..], schema);
    }
  }

  predicate Agree(r: Row, r': Row, cs: set<Column>) {
    forall c :: c in cs ==> Get(r, c) == Get(r', c)
  }

  /** An expression reads only its own columns. */
  lemma {:induction false} EvalExprAgree(e: Expr, r: Row, r': Row, env: Env)
    requires Agree(r, r', ColumnsOf(e))
    ensures EvalExpr(e, r, env) == EvalExpr(e, r', env)
  {
    match e
    case Literal(_) =>
    case Parameter(_) =>
    case Property(_) =>
    case Equals(l, r0) => EvalExprAgree(l, r, r', env); EvalExprAgree(r0, r, r', env);
    case Cast(c, _) => EvalExprAgree(c, r, r', env);
    case Function(_, args) => EvalArgsAgree(args, r, r', env);
  }

  lemma {:induction false} EvalArgsAgree(es: seq<Expr>, r: Row, r': Row, env: Env)
    requires Agree(r, r', ColumnsOfAll(es))
    ensures EvalArgs(es, r, env) == EvalArgs(es, r', env)
  {
    if es != [] {
      EvalExprAgree(es[0], r, r', env);
      EvalArgsAgree(es[1..], r, r', env);
    }
  }

  /* ----- rows ----- */

  function Keep(rows: seq<Row>, f: Row -> bool): seq<Row> {
    if rows == [] then []
    else if f(rows[0]) then [rows[0]] + Keep(rows[1..], f)
    else Keep(rows[1..], f)
  }

  /** Rows that satisfy every predicate of a list. */
  function Select(rows: seq<Row>, es: seq<Expr>, env: Env): seq<Row> {
    Keep(rows, row => AllHold(es, row, env))
  }

  function Merge(l: Row, rs: seq<Row>): seq<Row> {
    if rs == [] then [] else [l + rs[0]] + Merge(l, rs[1..])
  }

  function Cross(ls: seq<Row>, rs: seq<Row>): seq<Row> {
    if ls == [] then [] else Merge(ls[0], rs) + Cross(ls[1..], rs)
  }

  /** Key equality is SQL equality: a NULL key on either side never matches. */
  predicate Matches(conds: JoinConditions, l: Row, r: Row, env: Env) {
    forall i :: 0 <= i < |conds| ==>
      SqlEquals(EvalExpr(conds[i].0, l, env), EvalExpr(conds[i].1, r, env)) == Bool(true)
  }

  function MatchesOf(conds: JoinConditions, l: Row, rs: seq<Row>, env: Env): seq<Row> {
    Keep(rs, r => Matches(conds, l, r, env))
  }

  function NullRow(cs: set<Column>): Row {
    map c | c in cs :: Null
  }

  function MarkColumns(m: Option<Column>): set<Column> {
    if m.Some? then {m.value} else {}
  }

  /** The column an optional collection adds, if any. */
  function Marks(t: AccumulateType): set<Column> {
    if t.Optional? then MarkColumns(t.any) else {}
  }

  function WithMark(m: Option<Column>, b: bool, row: Row): Row {
    if m.Some? then row[m.value := Bool(b)] else row
  }

  function WithMarks(m: Option<Column>, b: bool, rows: seq<Row>): seq<Row> {
    if rows == [] then [] else [WithMark(m, b, rows[0])] + WithMarks(m, b, rows[1..])
  }

  function NullEntry(t: AccumulateType, cs: set<Column>): Row
    requires t.Optional?
  {
    WithMark(t.any, false, NullRow(cs))
  }

  /** ResultCollector::finalizeInternal: an empty optional collection becomes one row of NULLs. */
  function Collected(t: AccumulateType, rows: seq<Row>, cs: set<Column>): seq<Row> {
    match t
    case Regular => rows
    case Optional(m) => if rows == [] then [NullEntry(t, cs)] else WithMarks(m, true, rows)
  }

  /** What one probe row contributes, given the build rows it matches. */
  function JoinRow(kind: JoinKind, l: Row, matched: seq<Row>, buildColumns: set<Column>): seq<Row> {
    match kind
    case Inner => Merge(l, matched)
    case Left(m) =>
      WithMarks(m, matched != [], if matched == [] then [NullRow(buildColumns) + l] else Merge(l, matched))
    case Mark(m) => [l[m := Bool(matched != [])]]
  }

  function Join(conds: JoinConditions, kind: JoinKind, ls: seq<Row>, rs: seq<Row>,
                buildColumns: set<Column>, env: Env): seq<Row> {
    if ls == [] then []
    else JoinRow(kind, ls[0], MatchesOf(conds, ls[0], rs, env), buildColumns)
         + Join(conds, kind, ls[1..], rs, buildColumns, env)
  }

  function Expand(rows: seq<Row>, extension: nat, added: set<Column>, env: Env): seq<Row> {
    if rows == [] then []
    else Merge(rows[0], env.extend(extension, added, rows[0])) + Expand(rows[1..], extension, added, env)
  }

  /* ----- scans ----- */

  function Field(rec: Record, name: string): Value {
    if name in rec.fields then rec.fields[name] else Null
  }

  function RowOf(scan: Scan, rec: Record): Row {
    map c | c in {scan.nodeID} + (set p | p in scan.properties) ::
      if c == scan.nodeID then rec.id else Field(rec, c.name)
  }

  function RowsOf(scan: Scan, recs: seq<Record>): seq<Row> {
    if recs == [] then [] else [RowOf(scan, recs[0])] + RowsOf(scan, recs[1..])
  }

  /** Index lookup: at most one record, the one stored under the key. */
  function Lookup(recs: seq<Record>, pk: string, key: Value): seq<Record> {
    if recs == [] then []
    else if SqlEquals(Field(recs[0], pk), key) == Bool(true) then [recs[0]]
    else Lookup(recs[1..], pk, key)
  }

  /** A set of node IDs passed sideways to the scans of one node variable. */
  datatype Mask = Mask(key: Column, ids: set<Value>)

  predicate PassesScan(masks: seq<Mask>, nodeID: Column, row: Row) {
    forall i :: 0 <= i < |masks| && masks[i].key == nodeID ==> Get(row, nodeID) in masks[i].ids
  }

  function Unskipped(rows: seq<Row>, hints: seq<Expr>, env: Env): seq<Row> {
    Keep(rows, row => !env.skips(hints, row))
  }

  function ScanRows(scan: Scan, env: Env, masks: seq<Mask>): seq<Row> {
    match scan.key
    case None =>
      Keep(Unskipped(RowsOf(scan, env.records(scan.tables)), scan.hints, env),
           row => env.admits(scan, masks, row))
    case Some(k) =>
      if |scan.tables| != 1 then []
      else Unskipped(RowsOf(scan, Lookup(env.records(scan.tables), env.primaryKey(scan.tables[0]),
                                         EvalExpr(k, map[], env))), scan.hints, env)
  }

  /* ----- plans ----- */

  function JoinColumns(k: JoinKind, ls: set<Column>, rs: set<Column>): set<Column> {
    match k
    case Inner => ls + rs
    case Left(m) => ls + rs + MarkColumns(m)
    case Mark(m) => ls + {m}
  }

  function Schema(p: Plan): set<Column> {
    match p
    case ScanNodeTable(s) => {s.nodeID} + (set c | c in s.properties)
    case TableFunctionCall(_, cs, _) => cs
    case Extend(_, cs, _, _, c) => Schema(c) + cs
    case Filter(_, c) => Schema(c)
    case CrossProduct(t, l, r) => Schema(l) + Schema(r) + Marks(t)
    case HashJoin(_, k, l, r, _) => JoinColumns(k, Schema(l), Schema(r))
    case Accumulate(t, c) => Schema(c) + Marks(t)
    case SemiMasker(_, c) => Schema(c)
    case EmptyResult(cs) => cs
    case Other(_, cs, _) => cs
  }

  /** The keys of the semi maskers stacked on a join child. */
  function MaskKeys(p: Plan): seq<Column> {
    match p
    case Accumulate(t, c) => if t.Regular? then MaskKeys(c) else []
    case SemiMasker(k, c) => [k] + MaskKeys(c)
    case _ => []
  }

  function Collect(keys: seq<Column>, rows: seq<Row>): seq<Mask> {
    if keys == [] then []
    else [Mask(keys[0], set row | row in rows :: Get(row, keys[0]))] + Collect(keys[1..], rows)
  }

  /**
    The rows of a plan when the scans below it are restricted by `masks`. A hash join with a
    semi mask first evaluates the side carrying the maskers and passes the collected IDs down
    the other side.
   */
  function Eval(p: Plan, env: Env, masks: seq<Mask>): seq<Row> {
    match p
    case ScanNodeTable(s) => ScanRows(s, env, masks)
    case TableFunctionCall(f, cs, hints) => Unskipped(env.call(f, cs), hints, env)
    case Extend(x, cs, _, hints, c) => Unskipped(Expand(Eval(c, env, masks), x, cs, env), hints, env)
    case Filter(e, c) => Keep(Eval(c, env, masks), row => Holds(e, row, env))
    case CrossProduct(t, l, r) => Cross(Eval(l, env, masks), Collected(t, Eval(r, env, masks), Schema(r)))
    case HashJoin(conds, k, l, r, sip) =>
      (match sip.position
       case OnBuild =>
         var rs := Eval(r, env, masks);
         Join(conds, k, Eval(l, env, masks + Collect(MaskKeys(r), rs)), rs, Schema(r), env)
       case OnProbe =>
         var ls := Eval(l, env, masks);
         Join(conds, k, ls, Eval(r, env, masks + Collect(MaskKeys(l), ls)), Schema(r), env)
       case _ => Join(conds, k, Eval(l, env, masks), Eval(r, env, masks), Schema(r), env))
    case Accumulate(t, c) => Collected(t, Eval(c, env, masks), Schema(c))
    case SemiMasker(_, c) => Eval(c, env, masks)
    case EmptyResult(_) => []
    case Other(o, cs, children) => env.operate(o, cs, EvalChildren(children, env, masks))
  }

  function EvalChildren(ps: seq<Plan>, env: Env, masks: seq<Mask>): seq<seq<Row>> {
    if ps == [] then [] else [Eval(ps[0], env, masks)] + EvalChildren(ps[1..], env, masks)
  }

  /* ----- well-formedness ----- */

  ghost predicate RowsHave(rows: seq<Row>, cs: set<Column>) {
    forall i :: 0 <= i < |rows| ==> rows[i].Keys == cs
  }

  ghost predicate UniqueKeys(recs: seq<Record>, pk: string) {
    forall i, j :: 0 <= i < j < |recs| ==> Field(recs[i], pk) != Field(recs[j], pk)
  }

  /**
    What storage and execution guarantee: primary keys are unique, opaque operators return
    rows of their declared columns, a zone map skips a row only if some hint fails on it, and
    a scan drops a row only if one of the masks aimed at it excludes the row's node. Which of
    several masks is in effect at a scan is left open: the masker that finishes last overwrites
    the others.
   */
  ghost predicate ValidEnv(env: Env) {
    && (forall t: nat :: UniqueKeys(env.records([t]), env.primaryKey(t)))
    && (forall f, cs :: RowsHave(env.call(f, cs), cs))
    && (forall x, cs, row :: RowsHave(env.extend(x, cs, row), cs))
    && (forall o, cs, inputs :: RowsHave(env.operate(o, cs, inputs), cs))
    && (forall hints, row :: env.skips(hints, row) ==> !AllHold(hints, row, env))
    && (forall s: Scan, masks, row :: PassesScan(masks, s.nodeID, row) ==> env.admits(s, masks, row))
  }

  ghost predicate ValidScan(s: Scan, env: Env) {
    && (forall c :: c in s.properties ==> c.variable == s.nodeID.variable && c != s.nodeID)
    && !s.nodeID.isPrimaryKey
    && (|s.tables| == 1 ==>
          forall c :: c in s.properties && c.isPrimaryKey ==> c.name == env.primaryKey(s.tables[0]))
    && (s.key.Some? ==> |s.tables| == 1 && ColumnsOf(s.key.value) == {})
  }

  /** The two sides of a join share only columns they are joined on. */
  ghost predicate SharesOnlyKeys(conds: JoinConditions, ls: set<Column>, rs: set<Column>) {
    forall c :: c in ls && c in rs ==> (Property(c), Property(c)) in conds
  }

  ghost predicate ValidConditions(conds: JoinConditions, ls: set<Column>, rs: set<Column>) {
    forall i :: 0 <= i < |conds| ==> ColumnsOf(conds[i].0) <= ls && ColumnsOf(conds[i].1) <= rs
  }

  ghost predicate NewMarks(marks: set<Column>, cs: set<Column>) {
    marks !! cs && forall m :: m in marks ==> !m.isInternalID
  }

  /** Plans as the planner builds them. */
  ghost predicate Valid(p: Plan, env: Env) {
    match p
    case ScanNodeTable(s) => ValidScan(s, env)
    case TableFunctionCall(_, _, _) => true
    case Extend(_, cs, _, _, c) => Valid(c, env) && Schema(c) !! cs
    case Filter(e, c) => Valid(c, env) && ColumnsOf(e) <= Schema(c)
    case CrossProduct(t, l, r) =>
      Valid(l, env) && Valid(r, env) && Schema(l) !! Schema(r) && NewMarks(Marks(t), Schema(l) + Schema(r))
    case HashJoin(conds, k, l, r, _) =>
      && Valid(l, env) && Valid(r, env)
      && SharesOnlyKeys(conds, Schema(l), Schema(r))
      && ValidConditions(conds, Schema(l), Schema(r))
      && (k.Left? ==> NewMarks(MarkColumns(k.found), Schema(l) + Schema(r)))
      && (k.Mark? ==> NewMarks({k.mark}, Schema(l) + Schema(r)))
    case Accumulate(t, c) => Valid(c, env) && NewMarks(Marks(t), Schema(c))
    case SemiMasker(_, c) => Valid(c, env)
    case EmptyResult(_) => true
    case Other(_, _, children) => forall i :: 0 <= i < |children| ==> Valid(children[i], env)
  }

  /* ----- lemmas about rows ----- */

  lemma {:induction false} KeepConcat(a: seq<Row>, b: seq<Row>, f: Row -> bool)
    ensures Keep(a + b, f) == Keep(a, f) + Keep(b, f)
  {
    if a == [] {
      assert a + b == b;
    } else {
      assert (a + b)[0] == a[0] && (a + b)[1..] == a[1..] + b;
      KeepConcat(a[1..], b, f);
    }
  }

  /** Keeping is determined by what the test says on the rows at hand. */
  lemma {:induction false} KeepSame(rows: seq<Row>, f: Row -> bool, g: Row -> bool)
    requires forall row :: row in rows ==> f(row) == g(row)
    ensures Keep(rows, f) == Keep(rows, g)
  {
    if rows != [] { KeepSame(rows[1..], f, g); }
  }

  lemma {:induction false} KeepKeep(rows: seq<Row>, f: Row -> bool, g: Row -> bool)
    ensures Keep(Keep(rows, f), g) == Keep(rows, row => f(row) && g(row))
  {
    if rows != [] {
      KeepKeep(rows[1..], f, g);
      if f(rows[0]) {
        assert ([rows[0]] + Keep(rows[1..], f))[1..] == Keep(rows[1..], f);
      }
    }
  }

  lemma {:induction false} KeepMember(rows: seq<Row>, f: Row -> bool, row: Row)
    ensures row in Keep(rows, f) <==> row in rows && f(row)
  {
    if rows != [] { KeepMember(rows[1..], f, row); }
  }

  lemma KeepNone(rows: seq<Row>, f: Row -> bool)
    requires forall row :: row in rows ==> !f(row)
    ensures Keep(rows, f) == []
  {
    if rows != [] { KeepNone(rows[1..], f); }
  }

  lemma KeepAll(rows: seq<Row>, f: Row -> bool)
    requires forall row :: row in rows ==> f(row)
    ensures Keep(rows, f) == rows
  {
    if rows != [] { KeepAll(rows[1..], f); }
  }

  lemma MergeMember(l: Row, rs: seq<Row>, row: Row)
    requires row in Merge(l, rs)
    ensures exists r :: r in rs && row == l + r
  {
    if row == l + rs[0] { assert rs[0] in rs; } else { MergeMember(l, rs[1..], row); }
  }

  /** Filtering merged rows is merging filtered rows, when the test depends on the right part only. */
  lemma {:induction false} KeepMerge(l: Row, rs: seq<Row>, f: Row -> bool, g: Row -> bool)
    requires forall r :: r in rs ==> f(l + r) == g(r)
    ensures Keep(Merge(l, rs), f) == Merge(l, Keep(rs, g))
  {
    if rs != [] {
      KeepMerge(l, rs[1..], f, g);
      assert ([l + rs[0]] + Merge(l, rs[1..]))[1..] == Merge(l, rs[1..]);
      assert g(rs[0]) ==> ([rs[0]] + Keep(rs[1..], g))[1..] == Keep(rs[1..], g);
    }
  }
}
