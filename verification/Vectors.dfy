/**
  Columns of possibly nested values, as `ValueVector` lays them out: a list row is a range of a
  data vector shared by all rows, a struct row is the same row of every field vector.
 */
module Vectors {
  import opened Options

  /** A row of a list vector: `size` values of the data vector, from `offset` on. */
  datatype Entry = Entry(offset: nat, size: nat)

  /** `None` and `false` are NULL rows; the fields of a NULL struct row still hold values. */
  datatype Vec =
    | Scalars(cells: seq<Option<int>>)
    | Lists(rows: seq<Option<Entry>>, data: Vec)
    | Structs(present: seq<bool>, fields: seq<Vec>)

  datatype Type = ScalarType | ListOf(child: Type) | StructOf(children: seq<Type>)

  datatype Value = Null | Scalar(n: int) | List(elems: seq<Value>) | Struct(elems: seq<Value>)

  function Size(v: Vec): nat {
    match v
    case Scalars(cells) => |cells|
    case Lists(rows, _) => |rows|
    case Structs(present, _) => |present|
  }

  function TypeOf(v: Vec): Type {
    match v
    case Scalars(_) => ScalarType
    case Lists(_, data) => ListOf(TypeOf(data))
    case Structs(_, fields) => StructOf(TypesOf(fields))
  }

  function TypesOf(vs: seq<Vec>): (r: seq<Type>)
    ensures |r| == |vs|
  {
    if vs == [] then [] else TypesOf(vs[..|vs| - 1]) + [TypeOf(vs[|vs| - 1])]
  }

  predicate InRange(row: Option<Entry>, n: nat) {
    row.Some? ==> row.value.offset + row.value.size <= n
  }

  /** Every list row lies inside the data vector; a struct has fields, each as long as itself. */
  ghost predicate Valid(v: Vec) {
    match v
    case Scalars(_) => true
    case Lists(rows, data) => Valid(data) && forall i :: 0 <= i < |rows| ==> InRange(rows[i], Size(data))
    case Structs(present, fields) => fields != [] && ValidFields(fields, |present|)
  }

  ghost predicate ValidFields(fields: seq<Vec>, n: nat) {
    fields != [] ==>
      && Valid(fields[|fields| - 1])
      && Size(fields[|fields| - 1]) == n
      && ValidFields(fields[..|fields| - 1], n)
  }

  predicate IsNull(v: Vec, pos: nat)
    requires pos < Size(v)
  {
    match v
    case Scalars(cells) => cells[pos].None?
    case Lists(rows, _) => rows[pos].None?
    case Structs(present, _) => !present[pos]
  }

  /** The value a row stands for. */
  ghost function Denote(v: Vec, pos: nat): Value
    requires Valid(v) && pos < Size(v)
    decreases v, 0
  {
    match v
    case Scalars(cells) => if cells[pos].None? then Null else Scalar(cells[pos].value)
    case Lists(rows, data) =>
      if rows[pos].None? then Null
      else
        assert InRange(rows[pos], Size(data));
        List(DenoteRange(data, rows[pos].value.offset, rows[pos].value.size))
    case Structs(present, fields) => if !present[pos] then Null else Struct(DenoteFields(fields, |present|, pos))
  }

  ghost function DenoteRange(v: Vec, offset: nat, size: nat): (r: seq<Value>)
    requires Valid(v) && offset + size <= Size(v)
    ensures |r| == size && forall i :: 0 <= i < size ==> r[i] == Denote(v, offset + i)
    decreases v, 1, size
  {
    if size == 0 then [] else DenoteRange(v, offset, size - 1) + [Denote(v, offset + size - 1)]
  }

  ghost function DenoteFields(fields: seq<Vec>, n: nat, pos: nat): (r: seq<Value>)
    requires ValidFields(fields, n) && pos < n
    ensures |r| == |fields|
    decreases fields, 1
  {
    if fields == [] then []
    else DenoteFields(fields[..|fields| - 1], n, pos) + [Denote(fields[|fields| - 1], pos)]
  }

  predicate HasType(v: Value, t: Type) {
    match v
    case Null => true
    case Scalar(_) => t.ScalarType?
    case List(elems) => t.ListOf? && forall i :: 0 <= i < |elems| ==> HasType(elems[i], t.child)
    case Struct(elems) =>
      t.StructOf? && |elems| == |t.children| && forall i :: 0 <= i < |elems| ==> HasType(elems[i], t.children[i])
  }

  lemma {:induction false} FieldAt(fields: seq<Vec>, n: nat, pos: nat, i: nat)
    requires ValidFields(fields, n) && pos < n && i < |fields|
    ensures Valid(fields[i]) && Size(fields[i]) == n
    ensures DenoteFields(fields, n, pos)[i] == Denote(fields[i], pos)
    ensures TypesOf(fields)[i] == TypeOf(fields[i])
  {
    if i < |fields| - 1 { FieldAt(fields[..|fields| - 1], n, pos, i); }
  }

  /** What a row denotes has the type of its vector. */
  lemma {:induction false} DenoteHasType(v: Vec, pos: nat)
    requires Valid(v) && pos < Size(v)
    ensures HasType(Denote(v, pos), TypeOf(v))
    ensures Denote(v, pos).Null? <==> IsNull(v, pos)
    decreases v
  {
    match v
    case Scalars(_) =>
    case Lists(rows, data) =>
      if rows[pos].Some? {
        assert InRange(rows[pos], Size(data));
        var elems := DenoteRange(data, rows[pos].value.offset, rows[pos].value.size);
        forall i | 0 <= i < |elems| ensures HasType(elems[i], TypeOf(data)) {
          DenoteHasType(data, rows[pos].value.offset + i);
        }
      }
    case Structs(present, fields) =>
      var elems := DenoteFields(fields, |present|, pos);
      forall i | 0 <= i < |fields| ensures HasType(elems[i], TypesOf(fields)[i]) {
        FieldAt(fields, |present|, pos, i);
        DenoteHasType(fields[i], pos);
      }
  }
}
