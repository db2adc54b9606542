/**
  Printing lists of integers and casting the text back.
 */
module ListRoundTrip {
  import opened Options
  import opened Vectors
  import opened IntegerText
  import opened ListText
  import opened ListSpelling

  /** The list [NULL] is printed like the empty list, and so it is read back as one. */
  function Normal(v: Value): Value {
    match v
    case Null => v
    case Scalar(_) => v
    case List(elems) => if elems == [Null] then List([]) else List(NormalAll(elems))
    case Struct(_) => v
  }

  function NormalAll(vs: seq<Value>): (r: seq<Value>)
    ensures |r| == |vs|
  {
    if vs == [] then [] else NormalAll(vs[..|vs| - 1]) + [Normal(vs[|vs| - 1])]
  }

  lemma {:induction false} NormalAllAt(vs: seq<Value>)
    ensures forall i :: 0 <= i < |vs| ==> NormalAll(vs)[i] == Normal(vs[i])
  {
    if vs != [] { NormalAllAt(vs[..|vs| - 1]); }
  }

  /** No list in `v`, at any depth, is exactly [NULL]. */
  predicate NoLoneNull(v: Value) {
    v.List? ==> v.elems != [Null] && forall i :: 0 <= i < |v.elems| ==> NoLoneNull(v.elems[i])
  }

  predicate Fits(v: Value, t: Type) {
    && HasType(v, t) && IntLists(t)
    && (v.Scalar? ==> INT64_MIN <= v.n <= INT64_MAX)
    && (v.List? ==> forall i :: 0 <= i < |v.elems| ==> Fits(v.elems[i], t.child))
  }

  ghost predicate AllFit(elems: seq<Value>, t: Type) {
    forall j :: 0 <= j < |elems| ==> Fits(elems[j], t)
  }

  /* ----- printing is a way to write a value ----- */

  /** Integers are printed in decimal notation, with a minus sign exactly when they are negative. */
  lemma {:induction false} PrintIntSpells(n: int)
    requires INT64_MIN <= n <= INT64_MAX
    ensures SpellsInt(PrintInt(n), n) && (PrintInt(n)[0] == '-' <==> n < 0)
  {
    if n < 0 {
      NumeralValue(Digits(-n), -n);
      NegativeSpells(PrintInt(n), Digits(-n), n);
    } else {
      NumeralValue(Digits(n), n);
    }
  }

  lemma {:induction false} NegativeSpells(text: string, digits: string, n: int)
    requires INT64_MIN <= n < 0 && text == ['-'] + digits && Numeral(digits, -n)
    ensures SpellsInt(text, n)
  {
    assert text[1..] == digits;
  }

  lemma {:induction false} JoinIsCommas(texts: seq<string>, k: nat)
    requires k < |texts|
    ensures JoinFrom(texts, k) == Commas(texts[k..]) + "]"
    decreases |texts| - k
  {
    if k + 1 < |texts| {
      JoinIsCommas(texts, k + 1);
      assert texts[k..][1..] == texts[k + 1..];
      Regroup(texts[k], ",", Commas(texts[k + 1..]), "]");
    }
  }

  lemma {:induction false} PrintSpells(v: Value, t: Type)
    requires Fits(v, t)
    ensures SpellsTight(Print(v), Normal(v), t)
    ensures Print(v) == "" <==> v.Null?
    decreases v, 0
  {
    match v
    case Null =>
    case Scalar(n) => PrintIntSpells(n);
    case List(elems) =>
      var texts := if elems == [] then [""] else PrintAll(elems);
      PrintElements(elems, t.child);
      assert SpellsElements(Print(v), texts, Normal(v).elems, t.child);
  }

  lemma {:induction false} PrintElements(elems: seq<Value>, t: Type)
    requires AllFit(elems, t)
    ensures SpellsElements(Print(List(elems)), if elems == [] then [""] else PrintAll(elems), Normal(List(elems)).elems, t)
    decreases elems, 1
  {
    if elems != [] {
      var texts := PrintAll(elems);
      JoinIsCommas(texts, 0);
      assert texts[0..] == texts;
      assert Print(List(elems)) == "[" + Commas(texts) + "]";
      NormalAllAt(elems);
      forall i | 0 <= i < |elems| ensures PrintedElement(texts[i], elems[i], t) {
        PrintAllAt(elems, i);
        PrintSpells(elems[i], t);
        TightSpells(texts[i], Normal(elems[i]), t);
        if texts[i] != [] { TightIsFull(texts[i], Normal(elems[i]), t); }
      }
      assert PrintedElement(texts[0], elems[0], t);
    }
  }

  ghost predicate PrintedElement(text: string, v: Value, t: Type) {
    Spells(text, Normal(v), t) && (if v.Null? then text == "" else !Blank(text))
  }

  lemma {:induction false} TightIsFull(text: string, v: Value, t: Type)
    requires SpellsTight(text, v, t) && text != []
    ensures !Blank(text)
  {
    TightPassed(text, v, t);
    SpacesAreWhite(text[0]);
  }

  /** Nothing but digits, minus signs, brackets and commas is printed. */
  lemma {:induction false} PrintedCharacters(v: Value, t: Type)
    requires Fits(v, t)
    ensures forall i :: 0 <= i < |Print(v)| ==> Print(v)[i] in "0123456789-[],"
    decreases v, 0
  {
    match v
    case Null =>
    case Scalar(n) => forall i | 0 <= i < |Print(v)| ensures Print(v)[i] in "0123456789-[]," { DigitIn(Print(v)[i]); }
    case List(elems) =>
      var texts := PrintAll(elems);
      forall k | 0 <= k < |elems| ensures forall i :: 0 <= i < |texts[k]| ==> texts[k][i] in "0123456789-[]," {
        PrintAllAt(elems, k);
        PrintedCharacters(elems[k], t.child);
      }
      JoinedCharacters(texts, 0);
  }

  lemma {:induction false} DigitIn(c: char)
    requires IsDigit(c) || c == '-'
    ensures c in "0123456789-[],"
  {
    if IsDigit(c) {
      var d := (c - '0') as int;
      assert "0123456789-[],"[d] == c;
    } else {
      assert "0123456789-[],"[10] == c;
    }
  }

  lemma {:induction false} JoinedCharacters(texts: seq<string>, k: nat)
    requires k <= |texts|
    requires forall j, i :: 0 <= j < |texts| && 0 <= i < |texts[j]| ==> texts[j][i] in "0123456789-[],"
    ensures forall i :: 0 <= i < |JoinFrom(texts, k)| ==> JoinFrom(texts, k)[i] in "0123456789-[],"
    decreases |texts| - k
  {
    assert "0123456789-[],"[12] == ']' && "0123456789-[],"[13] == ',';
    if k < |texts| { JoinedCharacters(texts, k + 1); }
  }

  /* ----- the round trip ----- */

  /**
    Casting the printed text of a list of any depth back to its type gives the value back, but
    for lists that are exactly [NULL], which come back empty.
   */
  lemma {:induction false} RoundTrip(elems: seq<Value>, t: Type)
    requires AllFit(elems, t) && IntLists(t)
    ensures ParseList(Print(List(elems)), t) == Ok(Normal(List(elems)))
  {
    var text, v := Print(List(elems)), Normal(List(elems));
    PrintElements(elems, t);
    var texts := if elems == [] then [""] else PrintAll(elems);
    assert SpellsElements(text, texts, v.elems, t);
    assert SpellsTight(text, v, ListOf(t));
    TightSpells(text, v, ListOf(t));
    ListCastExactly(text, v, t);
  }

  lemma {:induction false} NormalIsId(v: Value)
    ensures Normal(v) == v <==> NoLoneNull(v)
    decreases v
  {
    if v.List? && v.elems != [Null] {
      NormalAllAt(v.elems);
      forall i | 0 <= i < |v.elems| ensures Normal(v.elems[i]) == v.elems[i] <==> NoLoneNull(v.elems[i]) {
        NormalIsId(v.elems[i]);
      }
      assert NormalAll(v.elems) == v.elems <==> forall i :: 0 <= i < |v.elems| ==> Normal(v.elems[i]) == v.elems[i];
    }
  }

  /** So the round trip is exact if and only if no list is exactly [NULL]. */
  lemma {:induction false} RoundTripExact(elems: seq<Value>, t: Type)
    requires AllFit(elems, t) && IntLists(t)
    ensures ParseList(Print(List(elems)), t) == Ok(List(elems)) <==> NoLoneNull(List(elems))
  {
    RoundTrip(elems, t);
    NormalIsId(List(elems));
  }

  /** The list with a lone NULL prints as an empty one and comes back empty. */
  lemma {:induction false} LoneNullIsLost(t: Type)
    requires IntLists(t)
    ensures Print(List([Null])) == Print(List([])) && ParseList(Print(List([Null])), t) == Ok(List([])) != Ok(List([Null]))
  {
    RoundTrip([Null], t);
    assert [Null][..0] == [];
  }
}
