/**
  Comparing nested values row by row (function/comparison_functions.cpp), and the order on
  values this comes to.
 */
module NestedOrder {
  import opened Vectors

  /** Lexicographic, a proper prefix is smaller, NULL is greatest. */
  predicate Greater(a: Value, b: Value)
    decreases a, 0
  {
    if a.Null? || b.Null? then !b.Null?
    else if a.Scalar? && b.Scalar? then a.n > b.n
    else if (a.List? && b.List?) || (a.Struct? && b.Struct?) then GreaterFrom(a.elems, b.elems, 0)
    else false
  }

  /** ... for sequences that agree on the first `k` values. */
  predicate GreaterFrom(a: seq<Value>, b: seq<Value>, k: nat)
    requires k <= |a| && k <= |b|
    decreases a, |a| - k
  {
    if k == |a| then false
    else if k == |b| then true
    else if a[k] == b[k] then GreaterFrom(a, b, k + 1)
    else Greater(a[k], b[k])
  }

  lemma {:induction false} SkipEqual(a: seq<Value>, b: seq<Value>, k: nat)
    requires k <= |a| && k <= |b| && a[..k] == b[..k]
    ensures GreaterFrom(a, b, 0) == GreaterFrom(a, b, k)
  {
    if k > 0 {
      assert a[..k - 1] == a[..k][..k - 1] && b[..k - 1] == b[..k][..k - 1];
      SkipEqual(a, b, k - 1);
      assert a[k - 1] == a[..k][k - 1] && b[k - 1] == b[..k][k - 1];
    }
  }

  /** The first difference decides. */
  lemma {:induction false} Decides(a: seq<Value>, b: seq<Value>, k: nat)
    requires k < |a| && k < |b| && a[..k] == b[..k] && a[k] != b[k]
    ensures GreaterFrom(a, b, 0) == Greater(a[k], b[k]) && a != b
  {
    SkipEqual(a, b, k);
  }

  /** Without one the longer sequence is greater. */
  lemma {:induction false} LengthDecides(a: seq<Value>, b: seq<Value>, k: nat)
    requires k == (if |a| < |b| then |a| else |b|) && a[..k] == b[..k]
    ensures GreaterFrom(a, b, 0) == (|a| > |b|)
  {
    SkipEqual(a, b, k);
  }

  lemma {:induction false} AgreeOnMore(a: seq<Value>, b: seq<Value>, k: nat)
    requires k < |a| && k < |b| && a[..k] == b[..k] && a[k] == b[k]
    ensures a[..k + 1] == b[..k + 1]
  {
    assert a[..k + 1] == a[..k] + [a[k]] && b[..k + 1] == b[..k] + [b[k]];
  }

  /* ----- the row-by-row comparisons ----- */

  /** Two rows are found equal exactly when they denote the same value; two NULLs are equal. */
  method NestedEqual(left: Vec, leftPos: nat, right: Vec, rightPos: nat) returns (equal: bool)
    requires Valid(left) && Valid(right) && TypeOf(left) == TypeOf(right)
    requires leftPos < Size(left) && rightPos < Size(right)
    ensures equal <==> Denote(left, leftPos) == Denote(right, rightPos)
    decreases left, 0
  {
    DenoteHasType(left, leftPos);
    DenoteHasType(right, rightPos);
    if IsNull(left, leftPos) && IsNull(right, rightPos) {
      return true;
    } else if IsNull(left, leftPos) != IsNull(right, rightPos) {
      return false;
    }
    match left
    case Scalars(cells) => return cells[leftPos] == right.cells[rightPos];
    case Lists(rows, data) => equal := EqualLists(data, rows[leftPos].value, right.data, right.rows[rightPos].value);
    case Structs(present, fields) => equal := EqualStructs(fields, leftPos, right.fields, rightPos, |present|, |right.present|);
  }

  method EqualLists(left: Vec, l: Entry, right: Vec, r: Entry) returns (equal: bool)
    requires Valid(left) && Valid(right) && TypeOf(left) == TypeOf(right)
    requires l.offset + l.size <= Size(left) && r.offset + r.size <= Size(right)
    ensures equal <==> DenoteRange(left, l.offset, l.size) == DenoteRange(right, r.offset, r.size)
    decreases left, 1
  {
    ghost var ls, rs := DenoteRange(left, l.offset, l.size), DenoteRange(right, r.offset, r.size);
    if l.size != r.size {
      return false;
    }
    for i := 0 to l.size
      invariant ls[..i] == rs[..i]
    {
      equal := NestedEqual(left, l.offset + i, right, r.offset + i);
      assert ls[i] == Denote(left, l.offset + i) && rs[i] == Denote(right, r.offset + i);
      if !equal {
        return;
      }
      AgreeOnMore(ls, rs, i);
    }
    assert ls[..l.size] == ls && rs[..l.size] == rs;
    return true;
  }

  method EqualStructs(left: seq<Vec>, leftPos: nat, right: seq<Vec>, rightPos: nat, ghost n: nat, ghost m: nat)
    returns (equal: bool)
    requires ValidFields(left, n) && ValidFields(right, m) && TypesOf(left) == TypesOf(right)
    requires leftPos < n && rightPos < m
    ensures equal <==> DenoteFields(left, n, leftPos) == DenoteFields(right, m, rightPos)
    decreases left, 1
  {
    ghost var ls, rs := DenoteFields(left, n, leftPos), DenoteFields(right, m, rightPos);
    assert |left| == |TypesOf(left)| == |right|;
    for i := 0 to |left|
      invariant ls[..i] == rs[..i]
    {
      FieldAt(left, n, leftPos, i);
      FieldAt(right, m, rightPos, i);
      equal := NestedEqual(left[i], leftPos, right[i], rightPos);
      if !equal {
        return;
      }
      AgreeOnMore(ls, rs, i);
    }
    assert ls[..|left|] == ls && rs[..|left|] == rs;
    return true;
  }

  /** Two rows are compared as their values are. */
  method NestedGreaterThan(left: Vec, leftPos: nat, right: Vec, rightPos: nat) returns (greater: bool, equal: bool)
    requires Valid(left) && Valid(right) && TypeOf(left) == TypeOf(right)
    requires leftPos < Size(left) && rightPos < Size(right)
    ensures greater == Greater(Denote(left, leftPos), Denote(right, rightPos))
    ensures IsNull(left, leftPos) || IsNull(right, rightPos) ==> (greater <==> !IsNull(right, rightPos))
    ensures left.Scalars? && left.cells[leftPos].Some? && right.cells[rightPos].Some? ==>
              (greater <==> left.cells[leftPos].value > right.cells[rightPos].value)
    ensures equal <==> Denote(left, leftPos) == Denote(right, rightPos)
    decreases left, 0
  {
    var leftNull, rightNull := IsNull(left, leftPos), IsNull(right, rightPos);
    DenoteHasType(left, leftPos);
    DenoteHasType(right, rightPos);
    if leftNull || rightNull {
      return !rightNull, leftNull == rightNull;
    }
    match left {
      case Scalars(cells) => greater := cells[leftPos].value > right.cells[rightPos].value;
      case Lists(rows, data) => greater := GreaterLists(data, rows[leftPos].value, right.data, right.rows[rightPos].value);
      case Structs(present, fields) =>
        greater := GreaterStructs(fields, leftPos, right.fields, rightPos, |present|, |right.present|);
    }
    if !greater {
      equal := NestedEqual(left, leftPos, right, rightPos);
    } else {
      Irreflexive(Denote(left, leftPos));
      equal := false;
    }
  }

  method GreaterLists(left: Vec, l: Entry, right: Vec, r: Entry) returns (greater: bool)
    requires Valid(left) && Valid(right) && TypeOf(left) == TypeOf(right)
    requires l.offset + l.size <= Size(left) && r.offset + r.size <= Size(right)
    ensures greater == GreaterFrom(DenoteRange(left, l.offset, l.size), DenoteRange(right, r.offset, r.size), 0)
    decreases left, 1
  {
    ghost var ls, rs := DenoteRange(left, l.offset, l.size), DenoteRange(right, r.offset, r.size);
    var commonLength := if l.size < r.size then l.size else r.size;
    for i := 0 to commonLength
      invariant ls[..i] == rs[..i]
    {
      var equal;
      greater, equal := NestedGreaterThan(left, l.offset + i, right, r.offset + i);
      assert ls[i] == Denote(left, l.offset + i) && rs[i] == Denote(right, r.offset + i);
      if greater || (!greater && !equal) {
        Irreflexive(ls[i]);
        Decides(ls, rs, i);
        return;
      }
      AgreeOnMore(ls, rs, i);
    }
    LengthDecides(ls, rs, commonLength);
    return l.size > r.size;
  }

  method GreaterStructs(left: seq<Vec>, leftPos: nat, right: seq<Vec>, rightPos: nat, ghost n: nat, ghost m: nat)
    returns (greater: bool)
    requires ValidFields(left, n) && ValidFields(right, m) && TypesOf(left) == TypesOf(right)
    requires leftPos < n && rightPos < m
    ensures greater == GreaterFrom(DenoteFields(left, n, leftPos), DenoteFields(right, m, rightPos), 0)
    decreases left, 1
  {
    ghost var ls, rs := DenoteFields(left, n, leftPos), DenoteFields(right, m, rightPos);
    assert |left| == |TypesOf(left)| == |right|;
    for i := 0 to |left|
      invariant ls[..i] == rs[..i]
    {
      FieldAt(left, n, leftPos, i);
      FieldAt(right, m, rightPos, i);
      var equal;
      greater, equal := NestedGreaterThan(left[i], leftPos, right[i], rightPos);
      if greater || (!greater && !equal) {
        Irreflexive(ls[i]);
        Decides(ls, rs, i);
        return;
      }
      AgreeOnMore(ls, rs, i);
    }
    LengthDecides(ls, rs, |left|);
    return false;
  }

  /* ----- what the order is ----- */

  /** NULL is greater than everything else and nothing is greater than NULL. */
  lemma {:induction false} NullIsGreatest(v: Value)
    ensures !Greater(v, Null)
    ensures Greater(Null, v) <==> v != Null
  {
  }

  lemma {:induction false} ScalarsCompare(left: Vec, leftPos: nat, right: Vec, rightPos: nat)
    requires left.Scalars? && right.Scalars? && leftPos < Size(left) && rightPos < Size(right)
    requires !IsNull(left, leftPos) && !IsNull(right, rightPos)
    ensures Greater(Denote(left, leftPos), Denote(right, rightPos)) <==>
            left.cells[leftPos].value > right.cells[rightPos].value
  {
  }

  /** `a` and `b` agree before `k`, and there `a` has the greater value, or the only one. */
  ghost predicate DecidesFor(a: seq<Value>, b: seq<Value>, k: nat) {
    && k < |a| && k <= |b|
    && (forall i :: 0 <= i < k ==> a[i] == b[i])
    && (k < |b| ==> a[k] != b[k] && Greater(a[k], b[k]))
  }

  lemma {:induction false} DeciderExists(a: seq<Value>, b: seq<Value>, k: nat)
    requires k <= |a| && k <= |b| && forall i :: 0 <= i < k ==> a[i] == b[i]
    ensures GreaterFrom(a, b, k) <==> exists j :: DecidesFor(a, b, j)
    decreases |a| - k
  {
    if k < |a| && k < |b| && a[k] == b[k] {
      DeciderExists(a, b, k + 1);
    } else if k < |a| && (k == |b| || Greater(a[k], b[k])) {
      assert DecidesFor(a, b, k);
    }
  }

  /** Lists and structs compare by the first value in which they differ; a missing one is the least. */
  lemma {:induction false} FirstDifferenceDecides(a: Value, b: Value)
    requires (a.List? && b.List?) || (a.Struct? && b.Struct?)
    ensures Greater(a, b) <==> exists k :: DecidesFor(a.elems, b.elems, k)
  {
    DeciderExists(a.elems, b.elems, 0);
  }

  /** The rows of two list vectors, by their entries. */
  lemma {:induction false} ListRowsCompare(left: Vec, leftPos: nat, right: Vec, rightPos: nat)
    requires Valid(left) && Valid(right) && left.Lists? && right.Lists?
    requires leftPos < Size(left) && rightPos < Size(right) && !IsNull(left, leftPos) && !IsNull(right, rightPos)
    ensures Greater(Denote(left, leftPos), Denote(right, rightPos)) <==>
            exists k :: RowDecides(left.data, left.rows[leftPos].value, right.data, right.rows[rightPos].value, k)
  {
    var l, r := left.rows[leftPos].value, right.rows[rightPos].value;
    assert InRange(left.rows[leftPos], Size(left.data)) && InRange(right.rows[rightPos], Size(right.data));
    var a, b := DenoteRange(left.data, l.offset, l.size), DenoteRange(right.data, r.offset, r.size);
    DeciderExists(a, b, 0);
    forall k: nat ensures DecidesFor(a, b, k) <==> RowDecides(left.data, l, right.data, r, k) {
      SameDecider(left.data, l, right.data, r, k);
    }
  }

  lemma {:induction false} SameDecider(left: Vec, l: Entry, right: Vec, r: Entry, k: nat)
    requires Valid(left) && Valid(right) && l.offset + l.size <= Size(left) && r.offset + r.size <= Size(right)
    ensures DecidesFor(DenoteRange(left, l.offset, l.size), DenoteRange(right, r.offset, r.size), k)
       <==> RowDecides(left, l, right, r, k)
  {
    var a, b := DenoteRange(left, l.offset, l.size), DenoteRange(right, r.offset, r.size);
    if k <= |a| && k <= |b| {
      forall i: nat | i < k ensures a[i] == b[i] <==> SameElement(left, l, right, r, i) {
        assert a[i] == Denote(left, l.offset + i) && b[i] == Denote(right, r.offset + i);
      }
    }
  }

  ghost predicate SameElement(left: Vec, l: Entry, right: Vec, r: Entry, i: nat)
    requires Valid(left) && Valid(right) && l.offset + l.size <= Size(left) && r.offset + r.size <= Size(right)
    requires i < l.size && i < r.size
  {
    Denote(left, l.offset + i) == Denote(right, r.offset + i)
  }

  /** The elements of two list rows agree before `k`, and there the left one is greater, or the only one. */
  ghost predicate RowDecides(left: Vec, l: Entry, right: Vec, r: Entry, k: nat)
    requires Valid(left) && Valid(right) && l.offset + l.size <= Size(left) && r.offset + r.size <= Size(right)
  {
    && k < l.size && k <= r.size
    && (forall i :: 0 <= i < k ==> SameElement(left, l, right, r, i))
    && (k < r.size ==> var a, b := Denote(left, l.offset + k), Denote(right, r.offset + k); a != b && Greater(a, b))
  }

  /** So a NULL among the elements or fields is greater than any value that stands in its place. */
  lemma {:induction false} NullElementDecides(a: Value, b: Value, k: nat)
    requires (a.List? && b.List?) || (a.Struct? && b.Struct?)
    requires k < |a.elems| && k < |b.elems| && forall i :: 0 <= i < k ==> a.elems[i] == b.elems[i]
    requires a.elems[k].Null? && !b.elems[k].Null?
    ensures Greater(a, b) && !Greater(b, a)
  {
    FirstDifferenceDecides(a, b);
    FirstDifferenceDecides(b, a);
    assert DecidesFor(a.elems, b.elems, k);
    forall j ensures !DecidesFor(b.elems, a.elems, j) {}
  }

  /* ----- a strict total order ----- */

  lemma {:induction false} Irreflexive(a: Value)
    ensures !Greater(a, a)
  {
    if a.List? || a.Struct? { IrreflexiveFrom(a.elems, 0); }
  }

  lemma {:induction false} IrreflexiveFrom(a: seq<Value>, k: nat)
    requires k <= |a|
    ensures !GreaterFrom(a, a, k)
    decreases |a| - k
  {
    if k < |a| { IrreflexiveFrom(a, k + 1); }
  }

  /** Of two different values of one type exactly one is greater. */
  lemma {:induction false} Trichotomy(a: Value, b: Value, t: Type)
    requires HasType(a, t) && HasType(b, t) && a != b
    ensures Greater(a, b) != Greater(b, a)
    decreases a, 1
  {
    if !a.Null? && !b.Null? && !a.Scalar? {
      forall i | 0 <= i < |a.elems| && i < |b.elems| && a.elems[i] != b.elems[i]
        ensures Greater(a.elems[i], b.elems[i]) != Greater(b.elems[i], a.elems[i])
      {
        Trichotomy(a.elems[i], b.elems[i], if t.ListOf? then t.child else t.children[i]);
      }
      TrichotomyFrom(a.elems, b.elems, 0);
    }
  }

  lemma {:induction false} TrichotomyFrom(a: seq<Value>, b: seq<Value>, k: nat)
    requires k <= |a| && k <= |b| && a[..k] == b[..k] && a != b
    requires forall i :: 0 <= i < |a| && i < |b| && a[i] != b[i] ==> Greater(a[i], b[i]) != Greater(b[i], a[i])
    ensures GreaterFrom(a, b, k) != GreaterFrom(b, a, k)
    decreases |a| - k
  {
    if k == |a| || k == |b| {
      assert a[..|a|] == a && b[..|b|] == b;
    } else if a[k] == b[k] {
      assert a[..k + 1] == a[..k] + [a[k]] && b[..k + 1] == b[..k] + [b[k]];
      TrichotomyFrom(a, b, k + 1);
    }
  }

  lemma {:induction false} Transitive(a: Value, b: Value, c: Value, t: Type)
    requires HasType(a, t) && HasType(b, t) && HasType(c, t)
    requires Greater(a, b) && Greater(b, c)
    ensures Greater(a, c)
    decreases a, 1
  {
    if !a.Null? && !a.Scalar? { TransitiveFrom(a.elems, b.elems, c.elems, 0, t); }
  }

  function ElementType(t: Type, i: nat): Type
    requires t.ListOf? || (t.StructOf? && i < |t.children|)
  {
    if t.ListOf? then t.child else t.children[i]
  }

  lemma {:induction false} TransitiveFrom(a: seq<Value>, b: seq<Value>, c: seq<Value>, k: nat, t: Type)
    requires k <= |a| && k <= |b| && k <= |c|
    requires || (HasType(List(a), t) && HasType(List(b), t) && HasType(List(c), t))
             || (HasType(Struct(a), t) && HasType(Struct(b), t) && HasType(Struct(c), t))
    requires GreaterFrom(a, b, k) && GreaterFrom(b, c, k)
    ensures GreaterFrom(a, c, k)
    decreases a, |a| - k
  {
    if k < |c| {
      if a[k] == b[k] && b[k] == c[k] {
        TransitiveFrom(a, b, c, k + 1, t);
      } else if a[k] != b[k] && b[k] != c[k] {
        var e := ElementType(t, k);
        Transitive(a[k], b[k], c[k], e);
        if a[k] == c[k] { Trichotomy(a[k], b[k], e); }
      }
    }
  }
}
