/**
  Hashing a selection of rows of a possibly nested vector, chunk by chunk
  (function/vector_hash_functions.cpp).
 */
module NestedHash {
  import opened Options
  import opened Vectors

  /** Hashes are numbers; what scalars hash to and how hashes are combined is up to the hasher. */
  type Hash = int

  const NULL_HASH: Hash := 0xFFFF_FFFF_FFFF_FFFF
  const DEFAULT_VECTOR_CAPACITY: nat := 2048

  /** The hash of a scalar and the combination of two hashes; nothing else is needed of them. */
  datatype Hasher = Hasher(scalar: int -> Hash, combine: (Hash, Hash) -> Hash)

  /** Positions of a vector; an unfiltered selection holds the first ones in order. */
  datatype Selection = Selection(positions: seq<nat>, unfiltered: bool)

  predicate InBounds(sel: Selection, n: nat) {
    && (forall i :: 0 <= i < |sel.positions| ==> sel.positions[i] < n)
    && (sel.unfiltered ==> forall i :: 0 <= i < |sel.positions| ==> sel.positions[i] == i)
  }

  predicate Distinct(ps: seq<nat>) {
    forall i, j :: 0 <= i < j < |ps| ==> ps[i] != ps[j]
  }

  /* ----- the hash of a value, and of a row ----- */

  function HashOf(h: Hasher, v: Value): Hash
    decreases v, 0
  {
    match v
    case Null => NULL_HASH
    case Scalar(n) => h.scalar(n)
    case List(elems) => FoldList(h, HashAll(h, elems))
    case Struct(elems) => FoldStruct(h, HashAll(h, elems))
  }

  function HashAll(h: Hasher, vs: seq<Value>): (r: seq<Hash>)
    ensures |r| == |vs|
    decreases vs
  {
    if vs == [] then [] else HashAll(h, vs[..|vs| - 1]) + [HashOf(h, vs[|vs| - 1])]
  }

  function FoldList(h: Hasher, hashes: seq<Hash>): Hash {
    if hashes == [] then NULL_HASH
    else h.combine(FoldList(h, hashes[..|hashes| - 1]), hashes[|hashes| - 1])
  }

  function FoldStruct(h: Hasher, hashes: seq<Hash>): Hash {
    if hashes == [] then NULL_HASH
    else if |hashes| == 1 then hashes[0]
    else h.combine(hashes[|hashes| - 1], FoldStruct(h, hashes[..|hashes| - 1]))
  }

  /** A list with one more element hashes on from the hash of the list; the empty list hashes like NULL. */
  lemma {:induction false} ListHashGrows(h: Hasher, elems: seq<Value>, e: Value)
    ensures HashOf(h, List([])) == HashOf(h, Null) == 0xFFFF_FFFF_FFFF_FFFF
    ensures HashOf(h, List(elems + [e])) == h.combine(HashOf(h, List(elems)), HashOf(h, e))
  {
    HashAllSnoc(h, elems, e);
  }

  /** A struct of one field hashes like the field; with one more field, the hash of that field comes first. */
  lemma {:induction false} StructHashGrows(h: Hasher, elems: seq<Value>, e: Value)
    ensures HashOf(h, Struct([e])) == HashOf(h, e)
    ensures elems != [] ==> HashOf(h, Struct(elems + [e])) == h.combine(HashOf(h, e), HashOf(h, Struct(elems)))
  {
    HashAllSnoc(h, [], e);
    assert [] + [e] == [e];
    HashAllSnoc(h, elems, e);
  }

  lemma {:induction false} HashAllSnoc(h: Hasher, elems: seq<Value>, e: Value)
    ensures HashAll(h, elems + [e]) == HashAll(h, elems) + [HashOf(h, e)]
  {
    assert (elems + [e])[..|elems|] == elems;
  }

  /** What is computed for a row: a struct row is hashed by its fields, whether it is NULL or not. */
  ghost function RowHash(h: Hasher, v: Vec, pos: nat): Hash
    requires Valid(v) && pos < Size(v)
    decreases v, 0
  {
    match v
    case Scalars(cells) => if cells[pos].None? then NULL_HASH else h.scalar(cells[pos].value)
    case Lists(rows, data) =>
      if rows[pos].None? then NULL_HASH
      else
        assert InRange(rows[pos], Size(data));
        FoldList(h, RangeHashes(h, data, rows[pos].value.offset, rows[pos].value.size))
    case Structs(present, fields) => FoldStruct(h, FieldHashes(h, fields, |present|, pos))
  }

  ghost function RangeHashes(h: Hasher, v: Vec, offset: nat, size: nat): (r: seq<Hash>)
    requires Valid(v) && offset + size <= Size(v)
    ensures |r| == size && forall i :: 0 <= i < size ==> r[i] == RowHash(h, v, offset + i)
    decreases v, 1, size
  {
    if size == 0 then [] else RangeHashes(h, v, offset, size - 1) + [RowHash(h, v, offset + size - 1)]
  }

  ghost function FieldHashes(h: Hasher, fields: seq<Vec>, n: nat, pos: nat): (r: seq<Hash>)
    requires ValidFields(fields, n) && pos < n
    ensures |r| == |fields|
    decreases fields, 1
  {
    if fields == [] then []
    else FieldHashes(h, fields[..|fields| - 1], n, pos) + [RowHash(h, fields[|fields| - 1], pos)]
  }

  /* ----- the vectorised computation ----- */

  ghost predicate HashesWritten(h: Hasher, v: Vec, sel: seq<nat>, before: seq<Hash>, after: seq<Hash>, resultSel: seq<nat>)
    requires Valid(v) && |sel| == |resultSel| && |before| == |after|
    requires forall i :: 0 <= i < |sel| ==> sel[i] < Size(v) && resultSel[i] < |after|
  {
    && (forall i :: 0 <= i < |sel| ==> after[resultSel[i]] == RowHash(h, v, sel[i]))
    && (forall p :: 0 <= p < |after| && p !in resultSel ==> after[p] == before[p])
  }

  /** Writes the hash of each selected row to the selected place and changes nothing else. */
  method ComputeHash(h: Hasher, v: Vec, sel: Selection, result: array<Hash>, resultSel: Selection)
    requires Valid(v) && InBounds(sel, Size(v)) && InBounds(resultSel, result.Length)
    requires |sel.positions| == |resultSel.positions| <= DEFAULT_VECTOR_CAPACITY && Distinct(resultSel.positions)
    modifies result
    ensures HashesWritten(h, v, sel.positions, old(result[..]), result[..], resultSel.positions)
    decreases v, 0
  {
    match v
    case Scalars(cells) =>
      var noNulls :| noNulls ==> forall i :: 0 <= i < |cells| ==> cells[i].Some?;
      HashScalars(h, cells, noNulls, sel, result, resultSel);
    case Lists(rows, data) =>
      var hashes := HashDataVector(h, data);
      HashLists(h, rows, data, hashes, sel, result, resultSel);
    case Structs(present, fields) => HashStructs(h, v, sel, result, resultSel);
  }

  method HashScalars(h: Hasher, cells: seq<Option<int>>, noNulls: bool, sel: Selection, result: array<Hash>, resultSel: Selection)
    requires noNulls ==> forall i :: 0 <= i < |cells| ==> cells[i].Some?
    requires InBounds(sel, |cells|) && InBounds(resultSel, result.Length)
    requires |sel.positions| == |resultSel.positions| && Distinct(resultSel.positions)
    modifies result
    ensures HashesWritten(h, Scalars(cells), sel.positions, old(result[..]), result[..], resultSel.positions)
  {
    ghost var v := Scalars(cells);
    for i := 0 to |sel.positions|
      invariant forall k :: 0 <= k < i ==> result[resultSel.positions[k]] == RowHash(h, v, sel.positions[k])
      invariant forall p :: 0 <= p < result.Length && p !in resultSel.positions ==> result[p] == old(result[p])
    {
      var pos := if sel.unfiltered then i else sel.positions[i];
      var resultPos := resultSel.positions[i];
      if noNulls || cells[pos].Some? {
        result[resultPos] := h.scalar(cells[pos].value);
      } else {
        result[resultPos] := NULL_HASH;
      }
    }
  }

  /** The hashes of all values of the data vector, as many at a time as a selection holds. */
  method HashDataVector(h: Hasher, data: Vec) returns (hashes: array<Hash>)
    requires Valid(data)
    ensures fresh(hashes) && hashes.Length == Size(data)
    ensures forall p :: 0 <= p < Size(data) ==> hashes[p] == RowHash(h, data, p)
    decreases data, 1
  {
    hashes := new Hash[Size(data)](_ => NULL_HASH);
    var computed := 0;
    while computed < Size(data)
      invariant 0 <= computed <= Size(data)
      invariant forall p :: 0 <= p < computed ==> hashes[p] == RowHash(h, data, p)
    {
      var size := Size(data) - computed;
      if size > DEFAULT_VECTOR_CAPACITY {
        size := DEFAULT_VECTOR_CAPACITY;
      }
      var positions: seq<nat> := [];
      ghost var start := computed;
      for i := 0 to size
        invariant |positions| == i && computed == start + i
        invariant forall k :: 0 <= k < i ==> positions[k] == start + k
      {
        positions := positions + [computed];
        computed := computed + 1;
      }
      label before:
      var selection := Selection(positions, false);
      ComputeHash(h, data, selection, hashes, selection);
      forall p | 0 <= p < computed ensures hashes[p] == RowHash(h, data, p) {
        if p >= start {
          assert positions[p - start] == p;
        } else {
          assert p !in positions;
          assert hashes[..][p] == old@before(hashes[..])[p];
        }
      }
    }
  }

  method HashLists(h: Hasher, rows: seq<Option<Entry>>, data: Vec, hashes: array<Hash>, sel: Selection,
                   result: array<Hash>, resultSel: Selection)
    requires Valid(Lists(rows, data)) && InBounds(sel, |rows|) && InBounds(resultSel, result.Length)
    requires |sel.positions| == |resultSel.positions| && Distinct(resultSel.positions)
    requires hashes != result && hashes.Length == Size(data)
    requires forall p :: 0 <= p < Size(data) ==> hashes[p] == RowHash(h, data, p)
    modifies result
    ensures HashesWritten(h, Lists(rows, data), sel.positions, old(result[..]), result[..], resultSel.positions)
  {
    ghost var v := Lists(rows, data);
    for i := 0 to |sel.positions|
      invariant forall k :: 0 <= k < i ==> result[resultSel.positions[k]] == RowHash(h, v, sel.positions[k])
      invariant forall p :: 0 <= p < result.Length && p !in resultSel.positions ==> result[p] == old(result[p])
      invariant forall p :: 0 <= p < Size(data) ==> hashes[p] == RowHash(h, data, p)
    {
      var row := rows[sel.positions[i]];
      assert InRange(row, Size(data));
      if row.None? {
        result[resultSel.positions[i]] := NULL_HASH;
      } else {
        var hashValue := CombineRange(h, hashes, row.value, data);
        result[resultSel.positions[i]] := hashValue;
      }
    }
  }

  method CombineRange(h: Hasher, hashes: array<Hash>, e: Entry, ghost data: Vec) returns (hashValue: Hash)
    requires Valid(data) && hashes.Length == Size(data) && e.offset + e.size <= Size(data)
    requires forall p :: 0 <= p < Size(data) ==> hashes[p] == RowHash(h, data, p)
    ensures hashValue == FoldList(h, RangeHashes(h, data, e.offset, e.size))
  {
    ghost var elements := RangeHashes(h, data, e.offset, e.size);
    hashValue := NULL_HASH;
    for j := 0 to e.size
      invariant hashValue == FoldList(h, elements[..j])
    {
      assert elements[..j + 1][..j] == elements[..j] && elements[j] == hashes[e.offset + j];
      hashValue := h.combine(hashValue, hashes[e.offset + j]);
    }
    assert elements[..e.size] == elements;
  }

  lemma {:induction false} FieldHashAt(h: Hasher, fields: seq<Vec>, n: nat, pos: nat, i: nat)
    requires ValidFields(fields, n) && pos < n && i < |fields|
    ensures Valid(fields[i]) && Size(fields[i]) == n
    ensures FieldHashes(h, fields, n, pos)[i] == RowHash(h, fields[i], pos)
  {
    if i < |fields| - 1 { FieldHashAt(h, fields[..|fields| - 1], n, pos, i); }
  }

  /** The fields of a row that have been hashed so far. */
  ghost function PrefixHash(h: Hasher, v: Vec, pos: nat, k: nat): Hash
    requires Valid(v) && v.Structs? && pos < Size(v) && k <= |v.fields|
  {
    FoldStruct(h, FieldHashes(h, v.fields, |v.present|, pos)[..k])
  }

  lemma {:induction false} PrefixStep(h: Hasher, v: Vec, pos: nat, k: nat)
    requires Valid(v) && v.Structs? && pos < Size(v) && 0 < k < |v.fields|
    ensures Valid(v.fields[k]) && Size(v.fields[k]) == Size(v)
    ensures PrefixHash(h, v, pos, k + 1) == h.combine(RowHash(h, v.fields[k], pos), PrefixHash(h, v, pos, k))
  {
    FieldHashAt(h, v.fields, |v.present|, pos, k);
    var all := FieldHashes(h, v.fields, |v.present|, pos);
    assert all[..k + 1][..k] == all[..k];
  }

  lemma {:induction false} PrefixEnds(h: Hasher, v: Vec, pos: nat)
    requires Valid(v) && v.Structs? && pos < Size(v)
    ensures Valid(v.fields[0]) && Size(v.fields[0]) == Size(v)
    ensures PrefixHash(h, v, pos, 1) == RowHash(h, v.fields[0], pos)
    ensures PrefixHash(h, v, pos, |v.fields|) == RowHash(h, v, pos)
  {
    FieldHashAt(h, v.fields, |v.present|, pos, 0);
    var all := FieldHashes(h, v.fields, |v.present|, pos);
    assert all[..|v.fields|] == all;
  }

  method HashStructs(h: Hasher, v: Vec, sel: Selection, result: array<Hash>, resultSel: Selection)
    requires Valid(v) && v.Structs? && InBounds(sel, Size(v)) && InBounds(resultSel, result.Length)
    requires |sel.positions| == |resultSel.positions| <= DEFAULT_VECTOR_CAPACITY && Distinct(resultSel.positions)
    modifies result
    ensures HashesWritten(h, v, sel.positions, old(result[..]), result[..], resultSel.positions)
    decreases v.fields, 1
  {
    FieldsValid(v.fields, |v.present|);
    ComputeHash(h, v.fields[0], sel, result, resultSel);
    FirstField(h, v, sel.positions, old(result[..]), result[..], resultSel.positions);
    var tmp := new Hash[DEFAULT_VECTOR_CAPACITY](_ => NULL_HASH);
    for k := 1 to |v.fields|
      invariant PrefixWritten(h, v, k, sel.positions, old(result[..]), result[..], resultSel.positions)
    {
      AddField(h, v, k, sel, tmp, result, resultSel, old(result[..]));
    }
    AllFields(h, v, sel.positions, old(result[..]), result[..], resultSel.positions);
  }

  /** The first `k` fields of the selected rows have been hashed. */
  ghost predicate PrefixWritten(h: Hasher, v: Vec, k: nat, sel: seq<nat>, before: seq<Hash>, after: seq<Hash>, resultSel: seq<nat>)
    requires Valid(v) && v.Structs? && k <= |v.fields| && |sel| == |resultSel| && |before| == |after|
    requires forall i :: 0 <= i < |sel| ==> sel[i] < Size(v) && resultSel[i] < |after|
  {
    && (forall i :: 0 <= i < |sel| ==> after[resultSel[i]] == PrefixHash(h, v, sel[i], k))
    && (forall p :: 0 <= p < |after| && p !in resultSel ==> after[p] == before[p])
  }

  lemma {:induction false} FirstField(h: Hasher, v: Vec, sel: seq<nat>, before: seq<Hash>, after: seq<Hash>, resultSel: seq<nat>)
    requires Valid(v) && v.Structs? && |sel| == |resultSel| && |before| == |after|
    requires Valid(v.fields[0]) && Size(v.fields[0]) == Size(v)
    requires forall i :: 0 <= i < |sel| ==> sel[i] < Size(v) && resultSel[i] < |after|
    requires HashesWritten(h, v.fields[0], sel, before, after, resultSel)
    ensures PrefixWritten(h, v, 1, sel, before, after, resultSel)
  {
    forall i | 0 <= i < |sel| ensures after[resultSel[i]] == PrefixHash(h, v, sel[i], 1) { PrefixEnds(h, v, sel[i]); }
  }

  lemma {:induction false} AllFields(h: Hasher, v: Vec, sel: seq<nat>, before: seq<Hash>, after: seq<Hash>, resultSel: seq<nat>)
    requires Valid(v) && v.Structs? && |sel| == |resultSel| && |before| == |after|
    requires forall i :: 0 <= i < |sel| ==> sel[i] < Size(v) && resultSel[i] < |after|
    requires PrefixWritten(h, v, |v.fields|, sel, before, after, resultSel)
    ensures HashesWritten(h, v, sel, before, after, resultSel)
  {
    forall i | 0 <= i < |sel| ensures after[resultSel[i]] == RowHash(h, v, sel[i]) { PrefixEnds(h, v, sel[i]); }
  }

  /** Hashes field `k` of the selected rows into `tmp` and combines the results with those so far. */
  method AddField(h: Hasher, v: Vec, k: nat, sel: Selection, tmp: array<Hash>, result: array<Hash>, resultSel: Selection,
                  ghost before: seq<Hash>)
    requires Valid(v) && v.Structs? && 0 < k < |v.fields| && InBounds(sel, Size(v)) && InBounds(resultSel, result.Length)
    requires |sel.positions| == |resultSel.positions| <= DEFAULT_VECTOR_CAPACITY && Distinct(resultSel.positions)
    requires tmp != result && tmp.Length == DEFAULT_VECTOR_CAPACITY && |before| == result.Length
    requires PrefixWritten(h, v, k, sel.positions, before, result[..], resultSel.positions)
    modifies tmp, result
    ensures PrefixWritten(h, v, k + 1, sel.positions, before, result[..], resultSel.positions)
    decreases v.fields, 0
  {
    FieldsValid(v.fields, |v.present|);
    var n := |sel.positions|;
    var tmpSel := Selection(seq(n, i => i), true);
    ComputeHash(h, v.fields[k], sel, tmp, tmpSel);
    assert forall i :: 0 <= i < n ==> tmp[tmpSel.positions[i]] == RowHash(h, v.fields[k], sel.positions[i]);
    CombineHashes(h, tmp, n, result, resultSel, v, sel.positions, k);
  }

  lemma {:induction false} FieldsValid(fields: seq<Vec>, n: nat)
    requires ValidFields(fields, n)
    ensures forall i :: 0 <= i < |fields| ==> Valid(fields[i]) && Size(fields[i]) == n
  {
    if fields != [] { FieldsValid(fields[..|fields| - 1], n); }
  }

  /** Combines the hashes of field `k` into the results. */
  method CombineHashes(h: Hasher, tmp: array<Hash>, n: nat, result: array<Hash>, resultSel: Selection,
                       ghost v: Vec, ghost sel: seq<nat>, ghost k: nat)
    requires tmp != result && n <= tmp.Length && n == |resultSel.positions| == |sel|
    requires InBounds(resultSel, result.Length) && Distinct(resultSel.positions)
    requires Valid(v) && v.Structs? && 0 < k < |v.fields| && Valid(v.fields[k]) && Size(v.fields[k]) == Size(v)
    requires forall i :: 0 <= i < n ==> sel[i] < Size(v)
    requires forall i :: 0 <= i < n ==> tmp[i] == RowHash(h, v.fields[k], sel[i])
    requires forall i :: 0 <= i < n ==> result[resultSel.positions[i]] == PrefixHash(h, v, sel[i], k)
    modifies result
    ensures forall i :: 0 <= i < n ==> result[resultSel.positions[i]] == PrefixHash(h, v, sel[i], k + 1)
    ensures forall p :: 0 <= p < result.Length && p !in resultSel.positions ==> result[p] == old(result[p])
  {
    for i := 0 to n
      invariant forall j :: 0 <= j < i ==> result[resultSel.positions[j]] == PrefixHash(h, v, sel[j], k + 1)
      invariant forall j :: i <= j < n ==> result[resultSel.positions[j]] == PrefixHash(h, v, sel[j], k)
      invariant forall p :: 0 <= p < result.Length && p !in resultSel.positions ==> result[p] == old(result[p])
    {
      PrefixStep(h, v, sel[i], k);
      result[resultSel.positions[i]] := h.combine(tmp[i], result[resultSel.positions[i]]);
    }
  }

  /* ----- equal values have equal hashes ----- */

  /** Whatever the hasher, the row gets the hash of NULL. */
  ghost predicate HashesLikeNull(v: Vec, pos: nat)
    requires Valid(v) && pos < Size(v)
    decreases v
  {
    match v
    case Scalars(cells) => cells[pos].None?
    case Lists(rows, _) => rows[pos].None? || rows[pos].value.size == 0
    case Structs(_, fields) =>
      |fields| == 1 && Valid(fields[0]) && pos < Size(fields[0]) && HashesLikeNull(fields[0], pos)
  }

  /** No struct on the way is NULL, except where what is left in its fields hashes like NULL. */
  ghost predicate HashesByValue(v: Vec, pos: nat)
    requires Valid(v) && pos < Size(v)
    decreases v
  {
    match v
    case Scalars(_) => true
    case Lists(rows, data) =>
      rows[pos].Some? ==>
        assert InRange(rows[pos], Size(data));
        forall p :: rows[pos].value.offset <= p < rows[pos].value.offset + rows[pos].value.size ==> HashesByValue(data, p)
    case Structs(present, fields) =>
      if !present[pos] then HashesLikeNull(v, pos)
      else forall i :: 0 <= i < |fields| ==> Valid(fields[i]) && pos < Size(fields[i]) && HashesByValue(fields[i], pos)
  }

  lemma {:induction false} LikeNull(h: Hasher, v: Vec, pos: nat)
    requires Valid(v) && pos < Size(v) && HashesLikeNull(v, pos)
    ensures RowHash(h, v, pos) == NULL_HASH
    decreases v
  {
    if v.Structs? {
      FieldHashAt(h, v.fields, |v.present|, pos, 0);
      LikeNull(h, v.fields[0], pos);
    }
  }

  /** Then the hash of a row depends only on its value. */
  lemma {:induction false} RowHashIsHash(h: Hasher, v: Vec, pos: nat)
    requires Valid(v) && pos < Size(v) && HashesByValue(v, pos)
    ensures RowHash(h, v, pos) == HashOf(h, Denote(v, pos))
    decreases v, 1
  {
    match v
    case Scalars(_) =>
    case Lists(rows, data) =>
      if rows[pos].Some? {
        var e := rows[pos].value;
        assert InRange(rows[pos], Size(data));
        ElementHashes(h, data, e.offset, e.size);
      }
    case Structs(present, fields) =>
      if !present[pos] { LikeNull(h, v, pos); } else { StructHashIsHash(h, v, pos); }
  }

  lemma {:induction false} ElementHashes(h: Hasher, data: Vec, offset: nat, size: nat)
    requires Valid(data) && offset + size <= Size(data)
    requires forall p :: offset <= p < offset + size ==> HashesByValue(data, p)
    ensures RangeHashes(h, data, offset, size) == HashAll(h, DenoteRange(data, offset, size))
    decreases data, 2
  {
    var values, hashes := DenoteRange(data, offset, size), RangeHashes(h, data, offset, size);
    HashAllAt(h, values);
    forall i | 0 <= i < size ensures hashes[i] == HashAll(h, values)[i] {
      assert HashesByValue(data, offset + i);
      RowHashIsHash(h, data, offset + i);
    }
  }

  lemma {:induction false} StructHashIsHash(h: Hasher, v: Vec, pos: nat)
    requires Valid(v) && v.Structs? && pos < Size(v) && v.present[pos] && HashesByValue(v, pos)
    ensures RowHash(h, v, pos) == HashOf(h, Denote(v, pos))
    decreases v, 0
  {
    var fields, n := v.fields, |v.present|;
    var values, hashes := DenoteFields(fields, n, pos), FieldHashes(h, fields, n, pos);
    HashAllAt(h, values);
    forall i | 0 <= i < |fields| ensures hashes[i] == HashAll(h, values)[i] {
      FieldHashAt(h, fields, n, pos, i);
      FieldAt(fields, n, pos, i);
      RowHashIsHash(h, fields[i], pos);
    }
    assert hashes == HashAll(h, values);
  }

  lemma {:induction false} HashAllAt(h: Hasher, vs: seq<Value>)
    ensures forall i :: 0 <= i < |vs| ==> HashAll(h, vs)[i] == HashOf(h, vs[i])
  {
    if vs != [] { HashAllAt(h, vs[..|vs| - 1]); }
  }

  /** Rows that compare equal have the same hash, wherever they are and in whatever chunk they were hashed. */
  lemma {:induction false} EqualRowsHashAlike(h: Hasher, left: Vec, leftPos: nat, right: Vec, rightPos: nat)
    requires Valid(left) && leftPos < Size(left) && HashesByValue(left, leftPos)
    requires Valid(right) && rightPos < Size(right) && HashesByValue(right, rightPos)
    requires Denote(left, leftPos) == Denote(right, rightPos)
    ensures RowHash(h, left, leftPos) == RowHash(h, right, rightPos)
  {
    RowHashIsHash(h, left, leftPos);
    RowHashIsHash(h, right, rightPos);
  }

  /* ----- and only then ----- */

  /** Counts scalars and combinations, from the hash of NULL on. */
  const Counting := Hasher((n: int) => NULL_HASH + 1, (a: Hash, b: Hash) => a + b - NULL_HASH + 1)

  ghost predicate Above(hashes: seq<Hash>, least: seq<Hash>) {
    |hashes| == |least| && forall i :: 0 <= i < |hashes| ==> hashes[i] >= least[i] >= NULL_HASH
  }

  lemma {:induction false} FoldListGrows(hashes: seq<Hash>, least: seq<Hash>)
    requires Above(hashes, least)
    ensures FoldList(Counting, hashes) >= FoldList(Counting, least) >= NULL_HASH + |least|
    ensures FoldList(Counting, hashes) == FoldList(Counting, least) <==> hashes == least
  {
    if hashes != [] {
      var m := |hashes| - 1;
      FoldListGrows(hashes[..m], least[..m]);
      assert hashes == hashes[..m] + [hashes[m]] && least == least[..m] + [least[m]];
    }
  }

  lemma {:induction false} FoldStructGrows(hashes: seq<Hash>, least: seq<Hash>)
    requires Above(hashes, least) && hashes != []
    ensures FoldStruct(Counting, hashes) >= FoldStruct(Counting, least) >= NULL_HASH + |least| - 1
    ensures FoldStruct(Counting, hashes) == FoldStruct(Counting, least) <==> hashes == least
  {
    if |hashes| > 1 {
      var m := |hashes| - 1;
      FoldStructGrows(hashes[..m], least[..m]);
      assert hashes == hashes[..m] + [hashes[m]] && least == least[..m] + [least[m]];
    }
  }

  /** The count of a row is at least that of its value, and equal to it only if the row hashes by its value. */
  lemma {:induction false} CountIsExact(v: Vec, pos: nat)
    requires Valid(v) && pos < Size(v)
    ensures RowHash(Counting, v, pos) >= HashOf(Counting, Denote(v, pos)) >= NULL_HASH
    ensures RowHash(Counting, v, pos) == NULL_HASH <==> HashesLikeNull(v, pos)
    ensures RowHash(Counting, v, pos) == HashOf(Counting, Denote(v, pos)) <==> HashesByValue(v, pos)
    decreases v, 1
  {
    match v
    case Scalars(_) =>
    case Lists(rows, data) => if rows[pos].Some? { CountOfList(v, pos); }
    case Structs(_, _) => CountOfStruct(v, pos);
  }

  ghost predicate AllByValue(data: Vec, offset: nat, size: nat)
    requires Valid(data) && offset + size <= Size(data)
  {
    forall p :: offset <= p < offset + size ==> HashesByValue(data, p)
  }

  lemma {:induction false} CountOfElements(data: Vec, offset: nat, size: nat, hashes: seq<Hash>, least: seq<Hash>)
    requires Valid(data) && offset + size <= Size(data) && |hashes| == |least| == size
    requires forall i :: 0 <= i < size ==> hashes[i] == RowHash(Counting, data, offset + i)
    requires forall i :: 0 <= i < size ==> least[i] == HashOf(Counting, Denote(data, offset + i))
    ensures Above(hashes, least) && (hashes == least <==> AllByValue(data, offset, size))
    decreases data, 2
  {
    forall i | 0 <= i < size
      ensures hashes[i] >= least[i] >= NULL_HASH && (hashes[i] == least[i] <==> HashesByValue(data, offset + i))
    {
      CountIsExact(data, offset + i);
    }
    if hashes == least {
      forall p | offset <= p < offset + size ensures HashesByValue(data, p) {
        assert hashes[p - offset] == least[p - offset];
      }
    }
    if AllByValue(data, offset, size) {
      forall i | 0 <= i < size ensures hashes[i] == least[i] { assert HashesByValue(data, offset + i); }
    }
  }

  /** A list row, taken apart: the counts of its elements and of their values. */
  lemma {:induction false} ListRow(v: Vec, pos: nat) returns (hashes: seq<Hash>, least: seq<Hash>)
    requires Valid(v) && v.Lists? && pos < Size(v) && v.rows[pos].Some?
    ensures var e, data := v.rows[pos].value, v.data;
            && e.offset + e.size <= Size(data) && |hashes| == |least| == e.size
            && RowHash(Counting, v, pos) == FoldList(Counting, hashes)
            && HashOf(Counting, Denote(v, pos)) == FoldList(Counting, least)
            && (forall i :: 0 <= i < e.size ==> hashes[i] == RowHash(Counting, data, e.offset + i))
            && (forall i :: 0 <= i < e.size ==> least[i] == HashOf(Counting, Denote(data, e.offset + i)))
  {
    assert InRange(v.rows[pos], Size(v.data));
    var e := v.rows[pos].value;
    hashes := RangeHashes(Counting, v.data, e.offset, e.size);
    var values := DenoteRange(v.data, e.offset, e.size);
    HashAllAt(Counting, values);
    least := HashAll(Counting, values);
  }

  lemma {:induction false} ListByValue(v: Vec, pos: nat)
    requires Valid(v) && v.Lists? && pos < Size(v) && v.rows[pos].Some?
    requires v.rows[pos].value.offset + v.rows[pos].value.size <= Size(v.data)
    ensures HashesByValue(v, pos) <==> AllByValue(v.data, v.rows[pos].value.offset, v.rows[pos].value.size)
  {
  }

  lemma {:induction false} CountOfList(v: Vec, pos: nat)
    requires Valid(v) && v.Lists? && pos < Size(v) && v.rows[pos].Some?
    ensures RowHash(Counting, v, pos) >= HashOf(Counting, Denote(v, pos)) >= NULL_HASH
    ensures RowHash(Counting, v, pos) == NULL_HASH <==> v.rows[pos].value.size == 0
    ensures RowHash(Counting, v, pos) == HashOf(Counting, Denote(v, pos)) <==> HashesByValue(v, pos)
    decreases v, 0
  {
    var hashes, least := ListRow(v, pos);
    ListByValue(v, pos);
    CountOfElements(v.data, v.rows[pos].value.offset, v.rows[pos].value.size, hashes, least);
    FoldListGrows(hashes, least);
    FoldListGrows(hashes, hashes);
  }

  lemma {:induction false} CountOfFields(v: Vec, pos: nat)
    requires Valid(v) && v.Structs? && pos < Size(v)
    ensures var fields, n := v.fields, |v.present|;
            var hashes, least := FieldHashes(Counting, fields, n, pos), HashAll(Counting, DenoteFields(fields, n, pos));
            && Above(hashes, least)
            && (forall i :: 0 <= i < |fields| ==>
                  && Valid(fields[i]) && pos < Size(fields[i])
                  && (hashes[i] == least[i] <==> HashesByValue(fields[i], pos))
                  && (hashes[i] == NULL_HASH <==> HashesLikeNull(fields[i], pos)))
    decreases v, 0, 0
  {
    var fields, n := v.fields, |v.present|;
    HashAllAt(Counting, DenoteFields(fields, n, pos));
    forall i | 0 <= i < |fields|
      ensures var hashes, least := FieldHashes(Counting, fields, n, pos), HashAll(Counting, DenoteFields(fields, n, pos));
              && Valid(fields[i]) && pos < Size(fields[i])
              && hashes[i] >= least[i] >= NULL_HASH && (hashes[i] == least[i] <==> HashesByValue(fields[i], pos))
              && (hashes[i] == NULL_HASH <==> HashesLikeNull(fields[i], pos))
    {
      FieldHashAt(Counting, fields, n, pos, i);
      FieldAt(fields, n, pos, i);
      CountIsExact(fields[i], pos);
    }
  }

  lemma {:induction false} CountOfStruct(v: Vec, pos: nat)
    requires Valid(v) && v.Structs? && pos < Size(v)
    ensures RowHash(Counting, v, pos) >= HashOf(Counting, Denote(v, pos)) >= NULL_HASH
    ensures RowHash(Counting, v, pos) == NULL_HASH <==> HashesLikeNull(v, pos)
    ensures RowHash(Counting, v, pos) == HashOf(Counting, Denote(v, pos)) <==> HashesByValue(v, pos)
    decreases v, 0, 1
  {
    var values, hashes := DenoteFields(v.fields, |v.present|, pos), FieldHashes(Counting, v.fields, |v.present|, pos);
    var least := HashAll(Counting, values);
    CountOfFields(v, pos);
    FoldStructGrows(hashes, least);
    FoldStructGrows(hashes, hashes);
    StructNull(hashes);
    if v.present[pos] {
      assert HashOf(Counting, Denote(v, pos)) == FoldStruct(Counting, least);
      assert hashes == least <==> forall i :: 0 <= i < |hashes| ==> hashes[i] == least[i];
    } else {
      assert HashOf(Counting, Denote(v, pos)) == NULL_HASH;
    }
  }

  lemma {:induction false} StructNull(hashes: seq<Hash>)
    requires hashes != [] && FoldStruct(Counting, hashes) >= NULL_HASH + |hashes| - 1
    ensures FoldStruct(Counting, hashes) == NULL_HASH <==> |hashes| == 1 && hashes[0] == NULL_HASH
  {
  }

  ghost predicate HashedByValue(h: Hasher, v: Vec, pos: nat)
    requires Valid(v) && pos < Size(v)
  {
    RowHash(h, v, pos) == HashOf(h, Denote(v, pos))
  }

  /** A row hashes like its value under every hasher if and only if `HashesByValue` says so. */
  lemma {:induction false} HashesByValueExactly(v: Vec, pos: nat)
    requires Valid(v) && pos < Size(v)
    ensures (forall h :: HashedByValue(h, v, pos)) <==> HashesByValue(v, pos)
  {
    if HashesByValue(v, pos) {
      forall h ensures HashedByValue(h, v, pos) { RowHashIsHash(h, v, pos); }
    }
    CountIsExact(v, pos);
    assert HashedByValue(Counting, v, pos) <==> HashesByValue(v, pos);
  }

  const NullStructs := Structs([false, false], [Scalars([Some(0), Some(1)])])

  /** Two NULL structs compare equal, but are hashed by the values left in their fields. */
  lemma {:induction false} NullStructsHashApart(h: Hasher)
    requires h.scalar(0) != h.scalar(1)
    ensures Valid(NullStructs) && Denote(NullStructs, 0) == Denote(NullStructs, 1)
    ensures RowHash(h, NullStructs, 0) != RowHash(h, NullStructs, 1)
  {
    var fields := NullStructs.fields;
    assert fields[..0] == [];
    assert ValidFields(fields, 2);
    FieldHashAt(h, fields, 2, 0, 0);
    FieldHashAt(h, fields, 2, 1, 0);
  }
}
