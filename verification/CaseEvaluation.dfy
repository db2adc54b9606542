/**
  Vectorised CASE (expression_evaluator/case_evaluator.cpp), against its meaning row by row.
 */
module CaseEvaluation {
  import opened Options

  /** The result of an evaluator: one value for all rows when flat, a value per row otherwise. */
  datatype Column<V> = Flat(value: V) | Unflat(values: seq<V>)

  /** A WHEN condition, NULL being `None`, and what is to be taken when it holds. */
  datatype Alternative<V> = Alternative(condition: Column<Option<bool>>, result: Column<V>)

  predicate Covers<V>(c: Column<V>, n: nat) {
    c.Unflat? ==> |c.values| == n
  }

  function At<V>(c: Column<V>, n: nat, row: nat): V
    requires Covers(c, n) && row < n
  {
    if c.Flat? then c.value else c.values[row]
  }

  predicate AllCover<V>(alternatives: seq<Alternative<V>>, otherwise: Column<V>, n: nat) {
    && (forall i :: 0 <= i < |alternatives| ==> Covers(alternatives[i].condition, n) && Covers(alternatives[i].result, n))
    && Covers(otherwise, n)
  }

  predicate IsTrue(c: Column<Option<bool>>, n: nat, row: nat)
    requires Covers(c, n) && row < n
  {
    At(c, n, row) == Some(true)
  }

  /** The meaning of CASE: the first alternative whose condition is true, and else the ELSE value. */
  function CaseOf<V>(alternatives: seq<Alternative<V>>, otherwise: Column<V>, n: nat, row: nat): V
    requires AllCover(alternatives, otherwise, n) && row < n
  {
    if alternatives == [] then At(otherwise, n, row)
    else if IsTrue(alternatives[0].condition, n, row) then At(alternatives[0].result, n, row)
    else CaseOf(alternatives[1..], otherwise, n, row)
  }

  /** No alternative before the `k`-th applies. */
  ghost predicate NoneBefore<V>(alternatives: seq<Alternative<V>>, n: nat, row: nat, k: nat)
    requires k <= |alternatives| && row < n
    requires forall i :: 0 <= i < |alternatives| ==> Covers(alternatives[i].condition, n)
  {
    forall i :: 0 <= i < k ==> !IsTrue(alternatives[i].condition, n, row)
  }

  lemma {:induction false} CaseAt<V>(alternatives: seq<Alternative<V>>, otherwise: Column<V>, n: nat, row: nat, k: nat)
    requires AllCover(alternatives, otherwise, n) && row < n && k <= |alternatives|
    requires NoneBefore(alternatives, n, row, k)
    ensures CaseOf(alternatives, otherwise, n, row) == CaseOf(alternatives[k..], otherwise, n, row)
  {
    if k == 0 {
      assert alternatives[0..] == alternatives;
    } else {
      assert !IsTrue(alternatives[0].condition, n, row);
      var rest := alternatives[1..];
      assert forall i :: 0 <= i < k - 1 ==> rest[i] == alternatives[i + 1];
      CaseAt(rest, otherwise, n, row, k - 1);
      assert rest[k - 1..] == alternatives[k..];
    }
  }

  /* ----- selecting the rows a condition holds for ----- */

  ghost predicate Distinct(s: seq<nat>) {
    forall i, j :: 0 <= i < j < |s| ==> s[i] != s[j]
  }

  /** What a WHEN evaluator selects; of a flat one only counts whether it selects anything. */
  method Select(condition: Column<Option<bool>>, n: nat, sel: seq<nat>) returns (selected: seq<nat>, any: bool)
    requires Covers(condition, n) && forall i :: 0 <= i < |sel| ==> sel[i] < n
    ensures condition.Flat? ==> any == (condition.value == Some(true))
    ensures condition.Unflat? ==> any == (selected != [])
    ensures condition.Unflat? ==> forall row :: row in selected <==> row in sel && IsTrue(condition, n, row)
  {
    selected := [];
    if condition.Flat? {
      return [], condition.value == Some(true);
    }
    for i := 0 to |sel|
      invariant forall row :: row in selected <==> row in sel[..i] && IsTrue(condition, n, row)
    {
      assert sel[..i + 1] == sel[..i] + [sel[i]];
      if condition.values[sel[i]] == Some(true) {
        selected := selected + [sel[i]];
      }
    }
    assert sel[..|sel|] == sel;
    return selected, selected != [];
  }

  /* ----- the evaluator ----- */

  class CaseEvaluator<V> {
    const alternatives: seq<Alternative<V>>
    const otherwise: Column<V>
    const sel: seq<nat>
    const result: array<V>
    var filledMask: set<nat>

    ghost predicate Valid()
      reads this
    {
      && AllCover(alternatives, otherwise, result.Length)
      && (forall i :: 0 <= i < |sel| ==> sel[i] < result.Length)
      && Distinct(sel)
      && (forall row :: row in filledMask ==> row in sel)
    }

    constructor (alternatives: seq<Alternative<V>>, otherwise: Column<V>, sel: seq<nat>, result: array<V>)
      requires AllCover(alternatives, otherwise, result.Length)
      requires (forall i :: 0 <= i < |sel| ==> sel[i] < result.Length) && Distinct(sel)
      ensures Valid() && this.alternatives == alternatives && this.otherwise == otherwise && this.sel == sel && this.result == result
    {
      this.alternatives, this.otherwise, this.sel, this.result := alternatives, otherwise, sel, result;
      filledMask := {};
    }

    /** The rows filled so far hold what CASE means, and for the others no alternative before the `k`-th applies. */
    ghost predicate FilledUpTo(k: nat)
      requires Valid() && k <= |alternatives|
      reads this, result
    {
      forall row :: row in sel ==>
        if row in filledMask then result[row] == CaseOf(alternatives, otherwise, result.Length, row)
        else NoneBefore(alternatives, result.Length, row, k)
    }

    ghost predicate Untouched(before: seq<V>)
      requires |before| == result.Length
      reads this, result
    {
      forall row :: 0 <= row < result.Length && row !in sel ==> result[row] == before[row]
    }

    /** Every selected row gets the value CASE means for it and no other row changes. */
    method Evaluate()
      requires Valid()
      modifies this`filledMask, result
      ensures Valid() && Untouched(old(result[..]))
      ensures forall row :: row in sel ==> result[row] == CaseOf(alternatives, otherwise, result.Length, row)
    {
      filledMask := {};
      ghost var before := result[..];
      for k := 0 to |alternatives|
        invariant Valid() && FilledUpTo(k) && Untouched(before)
      {
        var alternative := alternatives[k];
        var whenSel, any := Select(alternative.condition, result.Length, sel);
        if !any {
          Skip(k, whenSel);
          continue;
        }
        if alternative.condition.Flat? {
          Fill(sel, alternative.result, k, before);
        } else {
          Fill(whenSel, alternative.result, k, before);
        }
        if |filledMask| == |sel| {
          AllFilled(filledMask, sel);
          return;
        }
      }
      FillElse(before);
    }

    /** When a condition holds for no row, the next alternative decides. */
    lemma Skip(k: nat, whenSel: seq<nat>)
      requires Valid() && k < |alternatives| && FilledUpTo(k)
      requires alternatives[k].condition.Flat? ==> alternatives[k].condition.value != Some(true)
      requires alternatives[k].condition.Unflat? ==>
                 whenSel == [] && forall row :: row in whenSel <==> row in sel && IsTrue(alternatives[k].condition, result.Length, row)
      ensures FilledUpTo(k + 1)
    {
    }

    /** Fills the rows of `rows`, those the `k`-th alternative applies to, that are not filled. */
    method Fill(rows: seq<nat>, source: Column<V>, ghost k: nat, ghost before: seq<V>)
      requires Valid() && k < |alternatives| && FilledUpTo(k) && |before| == result.Length && Untouched(before)
      requires source == alternatives[k].result
      requires forall row :: row in rows <==> row in sel && IsTrue(alternatives[k].condition, result.Length, row)
      modifies this`filledMask, result
      ensures Valid() && FilledUpTo(k + 1) && Untouched(before)
    {
      ghost var n := result.Length;
      for i := 0 to |rows|
        invariant Valid() && FilledUpTo(k) && Untouched(before)
        invariant forall j :: 0 <= j < i ==> rows[j] in filledMask
      {
        assert rows[i] in sel;
        if rows[i] !in filledMask {
          CaseAt(alternatives, otherwise, n, rows[i], k);
          assert alternatives[k..][0] == alternatives[k];
        }
        FillEntry(rows[i], source, CaseOf(alternatives, otherwise, n, rows[i]));
      }
      forall row | row in sel && row !in filledMask ensures NoneBefore(alternatives, n, row, k + 1) {
        assert row !in rows;
      }
    }

    method FillElse(ghost before: seq<V>)
      requires Valid() && FilledUpTo(|alternatives|) && |before| == result.Length && Untouched(before)
      modifies this`filledMask, result
      ensures Valid() && Untouched(before)
      ensures forall row :: row in sel ==> result[row] == CaseOf(alternatives, otherwise, result.Length, row)
    {
      ghost var n := result.Length;
      for i := 0 to |sel|
        invariant Valid() && FilledUpTo(|alternatives|) && Untouched(before)
        invariant forall j :: 0 <= j < i ==> sel[j] in filledMask
      {
        if sel[i] !in filledMask {
          CaseAt(alternatives, otherwise, n, sel[i], |alternatives|);
          assert alternatives[|alternatives|..] == [];
        }
        FillEntry(sel[i], otherwise, CaseOf(alternatives, otherwise, n, sel[i]));
      }
    }

    /** A row that is filled keeps its value. */
    method FillEntry(row: nat, source: Column<V>, ghost value: V)
      requires Valid() && row in sel && Covers(source, result.Length)
      requires row !in filledMask ==> At(source, result.Length, row) == value
      modifies this`filledMask, result
      ensures Valid() && filledMask == old(filledMask) + {row}
      ensures result[row] == if row in old(filledMask) then old(result[row]) else value
      ensures forall r :: 0 <= r < result.Length && r != row ==> result[r] == old(result[r])
    {
      if row in filledMask {
        assert filledMask == filledMask + {row};
        return;
      }
      filledMask := filledMask + {row};
      result[row] := if source.Flat? then source.value else source.values[row];
    }
  }

  /** As many filled rows as selected ones means that all are filled. */
  lemma {:induction false} AllFilled(filled: set<nat>, sel: seq<nat>)
    requires Distinct(sel) && |filled| == |sel| && forall row :: row in filled ==> row in sel
    ensures forall row :: row in sel ==> row in filled
  {
    SetSize(sel);
    SubsetSize(filled, SetOf(sel));
  }

  ghost function SetOf(sel: seq<nat>): (r: set<nat>)
    ensures forall row :: row in r <==> row in sel
  {
    set row | row in sel
  }

  lemma {:induction false} SetSize(sel: seq<nat>)
    requires Distinct(sel)
    ensures |SetOf(sel)| == |sel|
  {
    if sel != [] {
      var front, last := sel[..|sel| - 1], sel[|sel| - 1];
      SetSize(front);
      assert last !in SetOf(front) && SetOf(sel) == SetOf(front) + {last};
    }
  }

  lemma {:induction false} SubsetSize(a: set<nat>, b: set<nat>)
    requires a <= b && |a| == |b|
    ensures a == b
    decreases |a|
  {
    if a == {} {
      assert |b| == 0;
    } else {
      var x :| x in a;
      SubsetSize(a - {x}, b - {x});
      assert a == (a - {x}) + {x} && b == (b - {x}) + {x};
    }
  }

  /** The first alternative whose condition is true decides; conditions that are false or NULL do not count. */
  lemma {:induction false} FirstTrueDecides<V>(alternatives: seq<Alternative<V>>, otherwise: Column<V>, n: nat, row: nat, k: nat)
    requires AllCover(alternatives, otherwise, n) && row < n && k < |alternatives|
    requires At(alternatives[k].condition, n, row) == Some(true)
    requires forall i :: 0 <= i < k ==> At(alternatives[i].condition, n, row) in {Some(false), None}
    ensures CaseOf(alternatives, otherwise, n, row) == At(alternatives[k].result, n, row)
  {
    CaseAt(alternatives, otherwise, n, row, k);
    assert alternatives[k..][0] == alternatives[k];
  }

  /** Without one ELSE does. */
  lemma {:induction false} ElseDecides<V>(alternatives: seq<Alternative<V>>, otherwise: Column<V>, n: nat, row: nat)
    requires AllCover(alternatives, otherwise, n) && row < n
    requires forall i :: 0 <= i < |alternatives| ==> At(alternatives[i].condition, n, row) in {Some(false), None}
    ensures CaseOf(alternatives, otherwise, n, row) == At(otherwise, n, row)
  {
    CaseAt(alternatives, otherwise, n, row, |alternatives|);
  }

  /* ----- CASE as a condition ----- */

  /** Those of `positions` whose row of the result is true; NULL counts as not true. */
  function Kept(positions: seq<nat>, results: seq<Option<bool>>, sel: seq<nat>): (r: seq<nat>)
    requires |positions| == |sel| && forall i :: 0 <= i < |sel| ==> sel[i] < |results|
    ensures |r| <= |positions|
  {
    if positions == [] then []
    else
      var n := |positions| - 1;
      Kept(positions[..n], results, sel[..n]) + (if results[sel[n]] == Some(true) then [positions[n]] else [])
  }

  /** Compacts the selected positions in place. */
  method SelectInternal(buffer: array<nat>, size: nat, result: seq<Option<bool>>, sel: seq<nat>) returns (kept: nat)
    requires size == |sel| <= buffer.Length && forall i :: 0 <= i < |sel| ==> sel[i] < |result|
    modifies buffer
    ensures kept <= size && buffer[..kept] == Kept(old(buffer[..size]), result, sel)
  {
    ghost var was := buffer[..size];
    kept := 0;
    for i := 0 to size
      invariant 0 <= kept <= i && buffer[..kept] == Kept(was[..i], result, sel[..i])
      invariant forall j :: i <= j < size ==> buffer[j] == was[j]
    {
      KeptSnoc(was, result, sel, i);
      ghost var done := buffer[..kept];
      buffer[kept] := buffer[i];
      assert buffer[..kept + 1] == done + [was[i]];
      var value := result[sel[i]];
      if value != None && value.value {
        kept := kept + 1;
      }
    }
    assert was[..size] == was && sel[..size] == sel;
  }

  lemma {:induction false} KeptSnoc(positions: seq<nat>, results: seq<Option<bool>>, sel: seq<nat>, i: nat)
    requires |positions| == |sel| && i < |sel| && forall i :: 0 <= i < |sel| ==> sel[i] < |results|
    ensures Kept(positions[..i + 1], results, sel[..i + 1]) ==
            Kept(positions[..i], results, sel[..i]) + (if results[sel[i]] == Some(true) then [positions[i]] else [])
  {
    assert positions[..i + 1][..i] == positions[..i] && sel[..i + 1][..i] == sel[..i];
  }

  /** A place among `sel` whose row of the result is true, and what stands there. */
  ghost predicate KeptAt(positions: seq<nat>, results: seq<Option<bool>>, sel: seq<nat>, p: nat, i: nat)
    requires |positions| == |sel| && forall i :: 0 <= i < |sel| ==> sel[i] < |results|
  {
    i < |sel| && positions[i] == p && results[sel[i]] == Some(true)
  }

  /** Kept are exactly the positions whose result is true, as often as there are such places. */
  lemma {:induction false} KeptExactly(positions: seq<nat>, results: seq<Option<bool>>, sel: seq<nat>, p: nat)
    requires |positions| == |sel| && forall i :: 0 <= i < |sel| ==> sel[i] < |results|
    ensures p in Kept(positions, results, sel) <==> exists i: nat :: KeptAt(positions, results, sel, p, i)
    ensures multiset(Kept(positions, results, sel)) <= multiset(positions)
  {
    if positions != [] {
      var n := |positions| - 1;
      KeptExactly(positions[..n], results, sel[..n], p);
      assert positions == positions[..n] + [positions[n]];
      forall i: nat | i < n
        ensures KeptAt(positions, results, sel, p, i) <==> KeptAt(positions[..n], results, sel[..n], p, i) {}
      if i: nat :| KeptAt(positions[..n], results, sel[..n], p, i) { assert KeptAt(positions, results, sel, p, i); }
      if i: nat :| KeptAt(positions, results, sel, p, i) {
        if i < n { assert KeptAt(positions[..n], results, sel[..n], p, i); }
      }
      if results[sel[n]] == Some(true) && positions[n] == p { assert KeptAt(positions, results, sel, p, n); }
    }
  }
}
