/**
  Which texts the casts to lists of integers accept, and for which values: the ways to write a
  value down, said without the splitter, and that the casts accept exactly these.
 */
module ListSpelling {
  import opened Options
  import opened Vectors
  import opened IntegerText
  import opened ListText

  /* ----- the ways to write a value ----- */

  ghost predicate Blank(text: string) {
    forall i :: 0 <= i < |text| ==> text[i] in WHITE
  }

  /** NULL, in any mixture of cases. */
  predicate NullWord(text: string) {
    && |text| == 4
    && (text[0] == 'N' || text[0] == 'n') && (text[1] == 'U' || text[1] == 'u')
    && (text[2] == 'L' || text[2] == 'l') && (text[3] == 'L' || text[3] == 'l')
  }

  /** Decimal notation, leading zeros allowed. */
  predicate Numeral(text: string, n: nat) {
    && text != []
    && text[|text| - 1] == "0123456789"[n % 10]
    && if |text| == 1 then n < 10 else Numeral(text[..|text| - 1], n / 10)
  }

  /** A 64-bit integer: no leading zero, unless after a minus sign. */
  predicate SpellsInt(text: string, n: int) {
    && -0x8000_0000_0000_0000 <= n <= 0x7FFF_FFFF_FFFF_FFFF
    && ((n >= 0 && Numeral(text, n) && (|text| == 1 || text[0] != '0')) ||
        (n <= 0 && text != [] && text[0] == '-' && Numeral(text[1..], -n)))
  }

  /** Texts with commas between them. */
  function Commas(texts: seq<string>): string
    requires texts != []
  {
    if |texts| == 1 then texts[0] else texts[0] + "," + Commas(texts[1..])
  }

  ghost predicate Padded(text: string, before: string, core: string, after: string) {
    text == before + core + after && Blank(before) && Blank(after)
  }

  /** The text is a way to write `v`, with white space around it or not. */
  ghost predicate Spells(text: string, v: Value, t: Type)
    decreases t, 1
  {
    exists before, core, after :: Padded(text, before, core, after) && SpellsTight(core, v, t)
  }

  /** NULL is written as the word or left out. */
  ghost predicate SpellsTight(text: string, v: Value, t: Type)
    decreases t, 0
  {
    match v
    case Null => text == "" || NullWord(text)
    case Scalar(n) => t.ScalarType? && SpellsInt(text, n)
    case List(elems) => t.ListOf? && exists texts :: SpellsElements(text, texts, elems, t.child)
    case Struct(_) => false
  }

  /** The elements in brackets with commas between them; a single one may not be left out. */
  ghost predicate SpellsElements(text: string, texts: seq<string>, elems: seq<Value>, t: Type)
    decreases t, 2
  {
    && texts != []
    && text == "[" + Commas(texts) + "]"
    && if elems == [] then |texts| == 1 && Blank(texts[0])
       else
         && |texts| == |elems|
         && (|texts| == 1 ==> !Blank(texts[0]))
         && forall i :: 0 <= i < |elems| ==> Spells(texts[i], elems[i], t)
  }

  /* ----- white space ----- */

  lemma {:induction false} BlankSpaces(text: string)
    ensures Blank(text) <==> forall i :: 0 <= i < |text| ==> IsSpace(text[i])
  {
    forall i | 0 <= i < |text| ensures IsSpace(text[i]) <==> text[i] in WHITE { SpacesAreWhite(text[i]); }
  }

  lemma {:induction false} BlankSlice(text: string, i: nat, j: nat)
    requires i <= j <= |text| && forall k :: i <= k < j ==> IsSpace(text[k])
    ensures Blank(text[i..j])
  {
    forall k | 0 <= k < j - i ensures text[i..j][k] in WHITE { SpacesAreWhite(text[i + k]); }
  }

  /** What begins and ends a text that is written without white space around it. */
  predicate Tight(text: string) {
    text != [] ==> !IsSpace(text[0]) && !IsSpace(text[|text| - 1])
  }

  lemma {:induction false} SpaceEndAt(text: string, i: nat, j: nat)
    requires i <= j <= |text| && (forall k :: i <= k < j ==> IsSpace(text[k])) && (j < |text| ==> !IsSpace(text[j]))
    ensures SpaceEnd(text, i) == j
  {
  }

  lemma {:induction false} TrimPadded(text: string, before: string, core: string, after: string)
    requires Padded(text, before, core, after) && Tight(core)
    ensures Trim(text) == core
    ensures SpaceEnd(text, 0) == if core == [] then |text| else |before|
  {
    BlankSpaces(before);
    BlankSpaces(after);
    if core == [] {
      SpaceEndAt(text, 0, |text|);
    } else {
      assert text[|before|] == core[0];
      SpaceEndAt(text, 0, |before|);
      var k := SpaceStart(text, |before|, |text|);
      assert text[|before| + |core| - 1] == core[|core| - 1];
      assert k == |before| + |core|;
    }
  }

  /** Every text is padded around what trimming leaves. */
  lemma {:induction false} PaddedTrim(text: string) returns (before: string, after: string)
    ensures Padded(text, before, Trim(text), after) && Tight(Trim(text))
    ensures |before| == SpaceEnd(text, 0)
  {
    var i := SpaceEnd(text, 0);
    var k := SpaceStart(text, i, |text|);
    before, after := text[0..i], text[k..|text|];
    BlankSlice(text, 0, i);
    BlankSlice(text, k, |text|);
    assert text == text[0..i] + text[i..k] + text[k..|text|];
  }

  /** White space around a way to write a value makes another one. */
  lemma {:induction false} SpellsPadded(text: string, before: string, core: string, after: string, v: Value, t: Type)
    requires Padded(text, before, core, after) && Spells(core, v, t)
    ensures Spells(text, v, t)
  {
    var b, c, a :| Padded(core, b, c, a) && SpellsTight(c, v, t);
    assert text == (before + b) + c + (a + after);
    assert Padded(text, before + b, c, a + after);
  }

  lemma {:induction false} TightSpells(text: string, v: Value, t: Type)
    requires SpellsTight(text, v, t)
    ensures Spells(text, v, t)
  {
    assert text == "" + text + "";
    assert Padded(text, "", text, "");
  }

  /* ----- integers ----- */

  lemma {:induction false} DigitChar(c: char, d: nat)
    requires d < 10
    ensures c == "0123456789"[d] <==> IsDigit(c) && (c - '0') as int == d
  {
  }

  lemma {:induction false} NumeralValue(text: string, n: nat)
    ensures Numeral(text, n) <==> text != [] && AllDigits(text) && DigitsValue(text) == n
  {
    if text != [] {
      var front, last := text[..|text| - 1], text[|text| - 1];
      DigitChar(last, n % 10);
      if |text| > 1 {
        NumeralValue(front, n / 10);
        assert AllDigits(text) <==> AllDigits(front) && IsDigit(last) by {
          assert text == front + [last];
        }
      }
    }
  }

  /** A text without white space around it is read as an integer exactly if it is a way to write it. */
  lemma {:induction false} IntSpelling(text: string, n: int)
    requires Tight(text)
    ensures ParseInt(text) == Some(n) <==> SpellsInt(text, n)
  {
    TrimTight(text);
    if n >= 0 { NumeralValue(text, n); }
    if text != [] && n <= 0 { NumeralValue(text[1..], -n); }
  }

  /* ----- texts that brackets are matched over ----- */

  predicate At(text: string, i: nat, part: string) {
    i + |part| <= |text| && forall k :: 0 <= k < |part| ==> text[i + k] == part[k]
  }

  lemma {:induction false} AtSplit(text: string, i: nat, a: string, b: string)
    requires At(text, i, a + b)
    ensures At(text, i, a) && At(text, i + |a|, b)
  {
    forall k | 0 <= k < |a| ensures text[i + k] == a[k] { assert (a + b)[k] == a[k]; }
    forall k | 0 <= k < |b| ensures text[i + |a| + k] == b[k] {
      var m := |a| + k;
      assert (a + b)[m] == b[k];
    }
  }

  lemma {:induction false} AtChar(text: string, i: nat, c: char)
    requires At(text, i, [c])
    ensures i < |text| && text[i] == c
  {
    assert text[i + 0] == [c][0];
  }

  lemma {:induction false} AtSlice(text: string, i: nat, part: string)
    requires At(text, i, part)
    ensures text[i..i + |part|] == part
  {
  }

  /** Neither search nor splitter stops at these. */
  predicate Quiet(c: char) {
    c != '[' && c != ']' && c != '{' && c != '}' && c != '\'' && c != '"' && c != ','
  }

  /** A search for a closing bracket passes over `p`, ... */
  ghost predicate Balanced(p: string) {
    forall text, i: nat, target :: At(text, i, p) && Closes(target) ==>
      Close(text, i, target) == Close(text, i + |p|, target)
  }

  /** ... and splitting does, within one piece. */
  ghost predicate OnePiece(p: string) {
    p != [] ==>
      forall text, i: nat, start: nat, seen, unread :: At(text, i, p) && start <= i ==>
        Split(text, i, start, seen, unread) == Split(text, i + |p|, start, seen, false)
  }

  ghost predicate Passed(p: string) { Balanced(p) && OnePiece(p) }

  lemma {:induction false} CloseQuiet(text: string, i: nat, j: nat, target: char)
    requires i <= j <= |text| && Closes(target) && forall k :: i <= k < j ==> Quiet(text[k])
    ensures Close(text, i, target) == Close(text, j, target)
    decreases j - i
  {
    if i < j { CloseQuiet(text, i + 1, j, target); }
  }

  lemma {:induction false} SplitQuiet(text: string, i: nat, j: nat, start: nat, seen: bool, unread: bool)
    requires start <= i < j <= |text| && forall k :: i <= k < j ==> Quiet(text[k])
    ensures Split(text, i, start, seen, unread) == Split(text, j, start, seen, false)
    decreases j - i
  {
    if i + 1 < j { SplitQuiet(text, i + 1, j, start, seen, false); }
  }

  lemma {:induction false} AtQuiet(text: string, i: nat, p: string)
    requires At(text, i, p) && forall k :: 0 <= k < |p| ==> Quiet(p[k])
    ensures forall k :: i <= k < i + |p| ==> Quiet(text[k])
  {
    forall k | i <= k < i + |p| ensures Quiet(text[k]) {
      var m := k - i;
      assert text[i + m] == p[m];
    }
  }

  lemma {:induction false} QuietPassed(p: string)
    requires forall k :: 0 <= k < |p| ==> Quiet(p[k])
    ensures Passed(p)
  {
    forall text, i: nat, target | At(text, i, p) && Closes(target)
      ensures Close(text, i, target) == Close(text, i + |p|, target)
    {
      AtQuiet(text, i, p);
      CloseQuiet(text, i, i + |p|, target);
    }
    if p != [] {
      forall text, i: nat, start: nat, seen, unread | At(text, i, p) && start <= i
        ensures Split(text, i, start, seen, unread) == Split(text, i + |p|, start, seen, false)
      {
        AtQuiet(text, i, p);
        SplitQuiet(text, i, i + |p|, start, seen, unread);
      }
    }
  }

  lemma {:induction false} BalancedConcat(p: string, q: string)
    requires Balanced(p) && Balanced(q)
    ensures Balanced(p + q)
  {
    forall text, i: nat, target | At(text, i, p + q) && Closes(target)
      ensures Close(text, i, target) == Close(text, i + |p + q|, target)
    {
      AtSplit(text, i, p, q);
    }
  }

  lemma {:induction false} PassedConcat(p: string, q: string)
    requires Passed(p) && Passed(q)
    ensures Passed(p + q)
  {
    BalancedConcat(p, q);
    if p == [] {
      assert p + q == q;
    } else if q == [] {
      assert p + q == p;
    } else {
      forall text, i: nat, start: nat, seen, unread | At(text, i, p + q) && start <= i
        ensures Split(text, i, start, seen, unread) == Split(text, i + |p + q|, start, seen, false)
      {
        AtSplit(text, i, p, q);
        assert Split(text, i, start, seen, unread) == Split(text, i + |p|, start, seen, false);
      }
    }
  }

  lemma {:induction false} CommaBalanced()
    ensures Balanced(",")
  {
    forall text, i: nat, target | At(text, i, ",") && Closes(target)
      ensures Close(text, i, target) == Close(text, i + 1, target)
    {
      AtChar(text, i, ',');
    }
  }

  lemma {:induction false} CommasBalanced(texts: seq<string>)
    requires texts != [] && forall i :: 0 <= i < |texts| ==> Passed(texts[i])
    ensures Balanced(Commas(texts))
    decreases |texts|
  {
    if |texts| > 1 {
      CommasBalanced(texts[1..]);
      CommaBalanced();
      BalancedConcat(texts[0], ",");
      BalancedConcat(texts[0] + ",", Commas(texts[1..]));
    }
  }

  /** From the opening bracket both skip to behind the closing one. */
  lemma {:induction false} BracketSkips(text: string, i: nat, inner: string)
    requires Balanced(inner) && At(text, i, "[" + inner + "]")
    ensures var j := i + |inner| + 2;
            && (forall target :: Close(text, i, target) == Close(text, j, target))
            && forall start: nat, seen, unread :: start <= i ==>
                 Split(text, i, start, seen, unread) == Split(text, j, start, seen, false)
  {
    AtSplit(text, i, "[" + inner, "]");
    AtSplit(text, i, "[", inner);
    AtChar(text, i, '[');
    AtChar(text, i + 1 + |inner|, ']');
    assert Closes(']');
    assert Close(text, i + 1, ']') == Close(text, i + 1 + |inner|, ']') == Some(i + 1 + |inner|);
  }

  lemma {:induction false} BracketPassed(inner: string)
    requires Balanced(inner)
    ensures Passed("[" + inner + "]")
  {
    var p := "[" + inner + "]";
    forall text, i: nat, target | At(text, i, p) && Closes(target)
      ensures Close(text, i, target) == Close(text, i + |p|, target)
    {
      BracketSkips(text, i, inner);
    }
    forall text, i: nat, start: nat, seen, unread | At(text, i, p) && start <= i
      ensures Split(text, i, start, seen, unread) == Split(text, i + |p|, start, seen, false)
    {
      BracketSkips(text, i, inner);
    }
  }

  lemma {:induction false} NumeralDigits(text: string, n: nat)
    requires Numeral(text, n)
    ensures forall i :: 0 <= i < |text| ==> IsDigit(text[i])
  {
    NumeralValue(text, n);
  }

  /** A value written without white space around it is tight, and brackets are matched over it. */
  lemma {:induction false} TightPassed(text: string, v: Value, t: Type)
    requires SpellsTight(text, v, t)
    ensures Tight(text) && Passed(text)
    ensures v.List? ==> text != [] && text[0] == '['
    ensures v.Scalar? ==> text != [] && (IsDigit(text[0]) || text[0] == '-')
    decreases t, 0
  {
    match v
    case Null => QuietPassed(text);
    case Scalar(n) =>
      if n >= 0 && Numeral(text, n) {
        NumeralDigits(text, n);
      } else {
        NumeralDigits(text[1..], -n);
        assert text == ['-'] + text[1..];
      }
      QuietPassed(text);
    case List(elems) =>
      var texts :| SpellsElements(text, texts, elems, t.child);
      forall i | 0 <= i < |texts| ensures Passed(texts[i]) {
        if elems == [] { BlankPassed(texts[i]); } else { SpelledPassed(texts[i], elems[i], t.child); }
      }
      CommasBalanced(texts);
      BracketPassed(Commas(texts));
  }

  lemma {:induction false} BlankPassed(text: string)
    requires Blank(text)
    ensures Passed(text)
  {
    QuietPassed(text);
  }

  lemma {:induction false} SpelledPassed(text: string, v: Value, t: Type)
    requires Spells(text, v, t)
    ensures Passed(text)
    decreases t, 1
  {
    var before, core, after :| Padded(text, before, core, after) && SpellsTight(core, v, t);
    TightPassed(core, v, t);
    BlankPassed(before);
    BlankPassed(after);
    PassedConcat(before, core);
    PassedConcat(before + core, after);
  }

  /* ----- what is written is accepted ----- */

  /** What is left of a text that begins with white space. */
  function Strip(text: string): string { text[SpaceEnd(text, 0)..] }

  function StripAll(texts: seq<string>): (r: seq<string>)
    ensures |r| == |texts| && forall i :: 0 <= i < |r| ==> r[i] == Strip(texts[i])
  {
    if texts == [] then [] else [Strip(texts[0])] + StripAll(texts[1..])
  }

  lemma {:induction false} StripPadded(text: string, before: string, core: string, after: string)
    requires Padded(text, before, core, after) && Tight(core)
    ensures Padded(Strip(text), "", core, if core == [] then "" else after)
    ensures Strip(text) == [] <==> Blank(text)
  {
    TrimPadded(text, before, core, after);
    if core == [] {
      assert text == before + after;
    } else {
      assert Strip(text) == "" + core + after;
      SpacesAreWhite(core[0]);
      assert text[|before|] == core[0];
    }
  }

  lemma {:induction false} StripSpells(text: string, v: Value, t: Type)
    requires Spells(text, v, t)
    ensures Passed(Strip(text)) && SpellsTight(Trim(Strip(text)), v, t)
    ensures Strip(text) == [] <==> Blank(text)
  {
    var before, core, after :| Padded(text, before, core, after) && SpellsTight(core, v, t);
    TightPassed(core, v, t);
    StripPadded(text, before, core, after);
    var rest := if core == [] then "" else after;
    TrimPadded(Strip(text), "", core, rest);
    BlankPassed(rest);
    PassedConcat(core, rest);
    assert Strip(text) == core + rest;
  }

  lemma {:induction false} SpaceInPart(text: string, i: nat, p: string)
    requires At(text, i, p) && i + |p| < |text| && Ends(text[i + |p|])
    ensures SpaceEnd(text, i) == i + SpaceEnd(p, 0) && At(text, i + SpaceEnd(p, 0), Strip(p))
  {
    var n := SpaceEnd(p, 0);
    forall k | i <= k < i + n ensures IsSpace(text[k]) {
      var m := k - i;
      assert text[i + m] == p[m];
    }
    if n < |p| { assert text[i + n] == p[n]; }
    SpaceEndAt(text, i, i + n);
    assert p == p[..n] + Strip(p);
    AtSplit(text, i, p[..n], Strip(p));
  }

  /** Splitting a written element, from behind the white space before it to the comma or bracket behind it. */
  lemma {:induction false} SplitPiece(text: string, i: nat, p: string, seen: bool)
    requires At(text, i, p) && Passed(Strip(p)) && i + |p| < |text| && Ends(text[i + |p|])
    ensures var j, e := SpaceEnd(text, i), i + |p|;
            && j <= e && text[j..e] == Strip(p)
            && Split(text, j, j, seen, true) == Split(text, e, j, seen, false)
  {
    SpaceInPart(text, i, p);
    AtSlice(text, SpaceEnd(text, i), Strip(p));
  }

  lemma {:induction false} SplitCommas(text: string, i: nat, texts: seq<string>, seen: bool)
    requires texts != [] && forall k :: 0 <= k < |texts| ==> Passed(Strip(texts[k]))
    requires At(text, i, Commas(texts) + "]") && SpaceEnd(text, i + |Commas(texts)| + 1) == |text|
    ensures var j := SpaceEnd(text, i);
            Split(text, j, j, seen, true) ==
            (true, if |texts| == 1 && Strip(texts[0]) == [] && !seen then [] else StripAll(texts))
    decreases |texts|
  {
    if |texts| == 1 {
      AtSplit(text, i, texts[0], "]");
      AtChar(text, i + |texts[0]|, ']');
      LastPiece(text, i, texts[0], seen);
      assert StripAll(texts) == [Strip(texts[0])];
    } else {
      var p, rest := texts[0], texts[1..];
      assert Commas(texts) == p + "," + Commas(rest);
      CommasAt(text, i, p, Commas(rest));
      SplitCommas(text, i + |p| + 1, rest, true);
      FirstPiece(text, i, p, seen, StripAll(rest));
    }
  }

  lemma {:induction false} CommasAt(text: string, i: nat, p: string, rest: string)
    requires At(text, i, p + "," + rest + "]")
    ensures At(text, i, p) && i + |p| < |text| && text[i + |p|] == ',' && At(text, i + |p| + 1, rest + "]")
  {
    assert p + "," + rest + "]" == p + "," + (rest + "]");
    AtSplit(text, i, p + ",", rest + "]");
    AtSplit(text, i, p, ",");
    AtChar(text, i + |p|, ',');
  }

  lemma {:induction false} LastPiece(text: string, i: nat, p: string, seen: bool)
    requires At(text, i, p) && Passed(Strip(p)) && i + |p| < |text| && text[i + |p|] == ']'
    requires SpaceEnd(text, i + |p| + 1) == |text|
    ensures var j := SpaceEnd(text, i);
            Split(text, j, j, seen, true) == (true, if Strip(p) == [] && !seen then [] else [Strip(p)])
  {
    SplitPiece(text, i, p, seen);
  }

  lemma {:induction false} FirstPiece(text: string, i: nat, p: string, seen: bool, rest: seq<string>)
    requires At(text, i, p) && Passed(Strip(p)) && i + |p| < |text| && text[i + |p|] == ','
    requires var next := SpaceEnd(text, i + |p| + 1); Split(text, next, next, true, true) == (true, rest)
    ensures var j := SpaceEnd(text, i); Split(text, j, j, seen, true) == (true, [Strip(p)] + rest)
  {
    SplitPiece(text, i, p, seen);
  }

  lemma {:induction false} PiecesOf(text: string, before: string, texts: seq<string>, after: string)
    requires texts != [] && forall k :: 0 <= k < |texts| ==> Passed(Strip(texts[k]))
    requires Padded(text, before, "[" + Commas(texts) + "]", after)
    ensures Pieces(text) == (true, if |texts| == 1 && Strip(texts[0]) == [] then [] else StripAll(texts))
  {
    var inner, i := Commas(texts), |before|;
    BlankSpaces(before);
    BlankSpaces(after);
    assert text[i] == '[' && text[i + 1..i + 1 + |inner| + 1] == inner + "]";
    SpaceEndAt(text, 0, i);
    assert At(text, i + 1, inner + "]");
    forall k | i + |inner| + 2 <= k < |text| ensures IsSpace(text[k]) { assert text[k] == after[k - (i + |inner| + 2)]; }
    SpaceEndAt(text, i + 1 + |inner| + 1, |text|);
    SplitCommas(text, i + 1, texts, false);
  }

  /** Each piece, trimmed, is read as the value in its place. */
  ghost predicate ReadAs(pieces: seq<string>, vs: seq<Value>, t: Type)
    requires IntLists(t)
  {
    |pieces| == |vs| && forall i :: 0 <= i < |vs| ==> ParseElement(Trim(pieces[i]), t) == Ok(vs[i])
  }

  lemma {:induction false} ReadSnoc(pieces: seq<string>, vs: seq<Value>, t: Type)
    requires IntLists(t) && pieces != [] && |pieces| == |vs|
    ensures var n := |vs| - 1;
            ReadAs(pieces, vs, t) <==> ReadAs(pieces[..n], vs[..n], t) && ParseElement(Trim(pieces[n]), t) == Ok(vs[n])
  {
  }

  lemma {:induction false} ParseAllAt(pieces: seq<string>, vs: seq<Value>, t: Type)
    requires IntLists(t)
    ensures ParseAll(pieces, t) == Ok(vs) <==> ReadAs(pieces, vs, t)
    decreases |pieces|
  {
    if pieces != [] && |pieces| == |vs| {
      var n := |vs| - 1;
      ParseAllAt(pieces[..n], vs[..n], t);
      ReadSnoc(pieces, vs, t);
      ParseSnoc(pieces, vs, t);
    }
  }

  lemma {:induction false} ParseSnoc(pieces: seq<string>, vs: seq<Value>, t: Type)
    requires IntLists(t) && pieces != [] && |pieces| == |vs|
    ensures var n := |vs| - 1;
            ParseAll(pieces, t) == Ok(vs) <==> ParseAll(pieces[..n], t) == Ok(vs[..n]) && ParseElement(Trim(pieces[n]), t) == Ok(vs[n])
  {
    assert vs == vs[..|vs| - 1] + [vs[|vs| - 1]];
  }

  lemma {:induction false} NullAccepted(text: string, before: string, core: string, after: string)
    requires Padded(text, before, core, after) && (core == "" || NullWord(core))
    ensures IsNullText(text)
  {
    TrimPadded(text, before, core, after);
    if core != "" {
      var i := |before|;
      assert text[i] == core[0] && text[i + 1] == core[1] && text[i + 2] == core[2] && text[i + 3] == core[3];
      BlankSpaces(after);
      forall k | i + 4 <= k < |text| ensures IsSpace(text[k]) { assert text[k] == after[k - (i + 4)]; }
      SpaceEndAt(text, i + 4, |text|);
    }
  }

  lemma {:induction false} EmptyAccepted(text: string, before: string, inner: string, after: string, t: Type)
    requires Padded(text, before, "[" + inner + "]", after) && Blank(inner) && IntLists(t)
    ensures ParseList(text, t) == Ok(List([]))
  {
    BlankSpaces(inner);
    SpaceEndAt(inner, 0, |inner|);
    BlankPassed("");
    assert Commas([inner]) == inner;
    PiecesOf(text, before, [inner], after);
  }

  lemma {:induction false} ElementsPieces(text: string, before: string, core: string, after: string,
                                          texts: seq<string>, elems: seq<Value>, t: Type)
    requires Padded(text, before, core, after) && SpellsElements(core, texts, elems, t) && elems != []
    ensures Pieces(text) == (true, StripAll(texts))
    ensures forall k :: 0 <= k < |elems| ==> SpellsTight(Trim(StripAll(texts)[k]), elems[k], t)
  {
    forall k | 0 <= k < |texts| ensures Passed(Strip(texts[k])) && SpellsTight(Trim(Strip(texts[k])), elems[k], t) {
      StripSpells(texts[k], elems[k], t);
    }
    StripSpells(texts[0], elems[0], t);
    PiecesOf(text, before, texts, after);
  }

  lemma {:induction false} ListAccepted(text: string, before: string, core: string, after: string,
                                        texts: seq<string>, elems: seq<Value>, t: Type)
    requires Padded(text, before, core, after) && SpellsElements(core, texts, elems, t) && IntLists(t)
    ensures ParseList(text, t) == Ok(List(elems))
    decreases t, 3
  {
    if elems == [] {
      EmptyAccepted(text, before, texts[0], after, t);
    } else {
      ElementsPieces(text, before, core, after, texts, elems, t);
      AllAccepted(StripAll(texts), elems, t);
    }
  }

  lemma {:induction false} AllAccepted(pieces: seq<string>, elems: seq<Value>, t: Type)
    requires |pieces| == |elems| && IntLists(t)
    requires forall k :: 0 <= k < |elems| ==> SpellsTight(Trim(pieces[k]), elems[k], t)
    ensures ParseAll(pieces, t) == Ok(elems)
    decreases t, 2
  {
    forall k | 0 <= k < |elems| ensures ParseElement(Trim(pieces[k]), t) == Ok(elems[k]) {
      TightAccepted(Trim(pieces[k]), elems[k], t);
    }
    ParseAllAt(pieces, elems, t);
  }

  lemma {:induction false} TightAccepted(text: string, v: Value, t: Type)
    requires SpellsTight(text, v, t) && IntLists(t)
    ensures ParseElement(text, t) == Ok(v)
    decreases t, 1
  {
    TightSpells(text, v, t);
    Accepted(text, v, t);
  }

  lemma {:induction false} NotNull(text: string, before: string, core: string, after: string)
    requires Padded(text, before, core, after) && Tight(core)
    requires core != [] && (core[0] == '[' || core[0] == '-' || IsDigit(core[0]))
    ensures !IsNullText(text)
  {
    TrimPadded(text, before, core, after);
    assert text[|before|] == core[0];
  }

  lemma {:induction false} IntAccepted(text: string, before: string, core: string, after: string, n: int)
    requires Padded(text, before, core, after) && SpellsTight(core, Scalar(n), ScalarType)
    ensures !IsNullText(text) && ParseInt(text) == Some(n)
  {
    TightPassed(core, Scalar(n), ScalarType);
    NotNull(text, before, core, after);
    TrimPadded(text, before, core, after);
    TrimTight(core);
    IntSpelling(core, n);
  }

  lemma {:induction false} TextsOf(text: string, elems: seq<Value>, t: Type) returns (texts: seq<string>)
    requires SpellsTight(text, List(elems), t)
    ensures SpellsElements(text, texts, elems, t.child)
  {
    texts :| SpellsElements(text, texts, elems, t.child);
  }

  /** Every way to write a value is read as the value. */
  lemma {:induction false} Accepted(text: string, v: Value, t: Type)
    requires Spells(text, v, t) && IntLists(t)
    ensures ParseElement(text, t) == Ok(v)
    decreases t, 0
  {
    var before, core, after :| Padded(text, before, core, after) && SpellsTight(core, v, t);
    match v
    case Null => NullAccepted(text, before, core, after);
    case Scalar(n) => IntAccepted(text, before, core, after, n);
    case List(elems) =>
      TightPassed(core, v, t);
      NotNull(text, before, core, after);
      var texts := TextsOf(core, elems, t);
      ListAccepted(text, before, core, after, texts, elems, t.child);
  }

  /* ----- and nothing else is ----- */

  lemma {:induction false} NullIsWritten(text: string, t: Type)
    requires IsNullText(text)
    ensures Spells(text, Null, t)
  {
    var i := SpaceEnd(text, 0);
    var core := if i == |text| then "" else text[i..i + 4];
    var before, after := text[0..i], text[i + |core|..|text|];
    BlankSlice(text, 0, i);
    BlankSlice(text, i + |core|, |text|);
    assert text == before + core + after;
    assert Padded(text, before, core, after);
    assert SpellsTight(core, Null, t);
  }

  /** `piece` with white space before it. */
  ghost predicate Indented(text: string, piece: string) {
    |piece| <= |text| && text[|text| - |piece|..] == piece && Blank(text[..|text| - |piece|])
  }

  /** `text` is the pieces, with white space before them and commas between them, a bracket and white space. */
  ghost predicate Covered(text: string, pieces: seq<string>, texts: seq<string>, after: string) {
    && |texts| == |pieces| && Blank(after)
    && text == (if pieces == [] then "" else Commas(texts)) + "]" + after
    && forall k :: 0 <= k < |pieces| ==> Indented(texts[k], pieces[k])
  }

  lemma {:induction false} CoverLast(text: string, i: nat, start: nat, one: bool) returns (texts: seq<string>, after: string)
    requires start <= i < |text| && text[i] == ']' && SpaceEnd(text, i + 1) == |text| && (!one ==> start == i)
    ensures Covered(text[start..], if one then [text[start..i]] else [], texts, after)
  {
    after := text[i + 1..|text|];
    texts := if one then [text[start..i]] else [];
    BlankSlice(text, i + 1, |text|);
    assert text[start..] == text[start..i] + "]" + after;
    assert one ==> Commas(texts) == text[start..i] && Indented(texts[0], texts[0]);
  }

  lemma {:induction false} CoverMore(text: string, i: nat, start: nat, next: nat, pieces: seq<string>,
                                     texts: seq<string>, after: string) returns (all: seq<string>)
    requires start <= i < next <= |text| && text[i] == ',' && (forall k :: i < k < next ==> IsSpace(text[k]))
    requires pieces != [] && Covered(text[next..], pieces, texts, after)
    ensures Covered(text[start..], [text[start..i]] + pieces, all, after)
  {
    var first, white := text[start..i], text[i + 1..next];
    BlankSlice(text, i + 1, next);
    var more := IndentFirst(white, pieces, texts);
    all := [first] + more;
    assert all[1..] == more;
    assert text[start..] == first + "," + (white + text[next..]);
    Regrouped(first, white, Commas(texts), after);
    assert Indented(first, first);
    forall k | 0 <= k < |all| ensures Indented(all[k], ([first] + pieces)[k]) {
      if k > 0 { assert all[k] == more[k - 1] && ([first] + pieces)[k] == pieces[k - 1]; }
    }
  }

  lemma {:induction false} Regrouped(first: string, white: string, inner: string, after: string)
    ensures first + "," + (white + (inner + "]" + after)) == first + "," + (white + inner) + "]" + after
  {
  }

  /** More white space before the first of the texts. */
  lemma {:induction false} IndentFirst(white: string, pieces: seq<string>, texts: seq<string>) returns (more: seq<string>)
    requires Blank(white) && texts != [] && |texts| == |pieces|
    requires forall k :: 0 <= k < |pieces| ==> Indented(texts[k], pieces[k])
    ensures |more| == |texts| && Commas(more) == white + Commas(texts)
    ensures forall k :: 0 <= k < |pieces| ==> Indented(more[k], pieces[k])
  {
    more := [white + texts[0]] + texts[1..];
    CommasFront(texts, white);
    IndentedMore(white, texts[0], pieces[0]);
  }

  lemma {:induction false} CommasFront(texts: seq<string>, white: string)
    requires texts != []
    ensures Commas([white + texts[0]] + texts[1..]) == white + Commas(texts)
  {
    assert ([white + texts[0]] + texts[1..])[1..] == texts[1..];
  }

  lemma {:induction false} IndentedMore(white: string, text: string, piece: string)
    requires Blank(white) && Indented(text, piece)
    ensures Indented(white + text, piece)
  {
    var n := |text| - |piece|;
    assert (white + text)[|white| + n..] == text[n..];
    assert (white + text)[..|white| + n] == white + text[..n];
  }

  /** In a closed list the splitter moves on from anything but a comma or bracket. */
  lemma {:induction false} SplitNext(text: string, i: nat, start: nat, seen: bool, unread: bool) returns (j: nat)
    requires start <= i && Split(text, i, start, seen, unread).0 && !Ends(text[i])
    ensures i < j && Split(text, i, start, seen, unread) == Split(text, j, start, seen, false)
  {
    j := i + 1;
    if text[i] == '[' {
      j := Close(text, i + 1, ']').value + 1;
    } else if (text[i] == '\'' || text[i] == '"') && unread {
      var close := CloseQuotes(text, i + 1, text[i]);
      if close.Some? { j := close.value + 1; }
    } else if text[i] == '{' {
      j := Close(text, i + 1, '}').value + 1;
    }
  }

  /** The pieces a splitter finds in a closed list cover its text. */
  lemma {:induction false} SplitCovers(text: string, i: nat, start: nat, seen: bool, unread: bool)
    returns (texts: seq<string>, after: string)
    requires start <= i && Split(text, i, start, seen, unread).0
    ensures seen ==> Split(text, i, start, seen, unread).1 != []
    ensures start <= |text| && Covered(text[start..], Split(text, i, start, seen, unread).1, texts, after)
    decreases |text| - i
  {
    if text[i] == ',' {
      var next := SpaceEnd(text, i + 1);
      texts, after := SplitCovers(text, next, next, true, true);
      texts := CoverMore(text, i, start, next, Split(text, next, next, true, true).1, texts, after);
    } else if text[i] == ']' {
      texts, after := CoverLast(text, i, start, start < i || seen);
    } else {
      var j := SplitNext(text, i, start, seen, unread);
      texts, after := SplitCovers(text, j, start, seen, false);
    }
  }

  /** A list of a single piece has something in it. */
  lemma {:induction false} LonePiece(text: string, i: nat, start: nat, unread: bool)
    requires start <= i && start < |text| && !IsSpace(text[start])
    requires Split(text, i, start, false, unread).0
    ensures var pieces := Split(text, i, start, false, unread).1;
            |pieces| == 1 ==> pieces[0] != [] && !IsSpace(pieces[0][0])
    decreases |text| - i
  {
    if text[i] == ',' {
      var next := SpaceEnd(text, i + 1);
      var _, _ := SplitCovers(text, next, next, true, true);
    } else if text[i] != ']' {
      var j := SplitNext(text, i, start, false, unread);
      LonePiece(text, j, start, false);
    }
  }

  lemma {:induction false} IndentedSpells(text: string, piece: string, v: Value, t: Type)
    requires Indented(text, piece) && Spells(Trim(piece), v, t)
    ensures Spells(text, v, t)
  {
    var before, after := PaddedTrim(piece);
    SpellsPadded(piece, before, Trim(piece), after, v, t);
    SpellsIndented(text, piece, v, t);
  }

  lemma {:induction false} SpellsIndented(text: string, piece: string, v: Value, t: Type)
    requires Indented(text, piece) && Spells(piece, v, t)
    ensures Spells(text, v, t)
  {
    var lead := text[..|text| - |piece|];
    assert text == lead + piece + "";
    assert Padded(text, lead, piece, "");
    SpellsPadded(text, lead, piece, "", v, t);
  }

  /** The opening bracket of a closed list, with white space around it. */
  lemma {:induction false} Opening(text: string) returns (before: string, white: string, start: nat)
    requires Pieces(text).0
    ensures start < |text| && text == before + "[" + white + text[start..] && Blank(before) && Blank(white)
    ensures !IsSpace(text[start]) && Pieces(text) == Split(text, start, start, false, true)
  {
    var i := SpaceEnd(text, 0);
    start := SpaceEnd(text, i + 1);
    before, white := text[0..i], text[i + 1..start];
    BlankSlice(text, 0, i);
    BlankSlice(text, i + 1, start);
    assert text == before + "[" + white + text[start..];
  }

  /** The test for NULL accepts exactly the ways to write it. */
  lemma {:induction false} NullExactly(text: string, t: Type)
    ensures IsNullText(text) <==> Spells(text, Null, t)
  {
    if IsNullText(text) { NullIsWritten(text, t); }
    if Spells(text, Null, t) {
      var before, core, after :| Padded(text, before, core, after) && SpellsTight(core, Null, t);
      NullAccepted(text, before, core, after);
    }
  }

  /** The pieces with white space before them; a single one is not all white. */
  ghost predicate WrittenAs(pieces: seq<string>, texts: seq<string>) {
    && texts != []
    && if pieces == [] then |texts| == 1 && Blank(texts[0])
       else
         && |texts| == |pieces| && (|texts| == 1 ==> !Blank(texts[0]))
         && forall k :: 0 <= k < |pieces| ==> Indented(texts[k], pieces[k])
  }

  /** What the splitter makes of a closed list, as the list is written. */
  lemma {:induction false} PiecesCover(text: string) returns (before: string, texts: seq<string>, after: string)
    requires Pieces(text).0
    ensures WrittenAs(Pieces(text).1, texts) && Padded(text, before, "[" + Commas(texts) + "]", after)
  {
    var white, start, inner;
    before, white, start := Opening(text);
    inner, after := SplitCovers(text, start, start, false, true);
    texts := InnerTexts(text, start, white, inner);
    var within := if Pieces(text).1 == [] then "" else Commas(inner);
    assert text == before + "[" + white + (within + "]" + after);
    Enclosed(before, white, within, after);
  }

  lemma {:induction false} Enclosed(before: string, white: string, within: string, after: string)
    ensures before + "[" + white + (within + "]" + after) == before + ("[" + (white + within) + "]") + after
  {
  }

  lemma {:induction false} InnerTexts(text: string, start: nat, white: string, inner: seq<string>) returns (texts: seq<string>)
    requires start < |text| && !IsSpace(text[start]) && Blank(white)
    requires var (closed, pieces) := Split(text, start, start, false, true);
             && closed && |inner| == |pieces|
             && forall k :: 0 <= k < |pieces| ==> Indented(inner[k], pieces[k])
    ensures WrittenAs(Split(text, start, start, false, true).1, texts)
    ensures Commas(texts) == white + if inner == [] then "" else Commas(inner)
  {
    var pieces := Split(text, start, start, false, true).1;
    texts := [white];
    if pieces != [] {
      texts := IndentFirst(white, pieces, inner);
      if |texts| == 1 {
        LonePiece(text, start, start, true);
        IndentedFull(texts[0], pieces[0]);
      }
    }
  }

  lemma {:induction false} IndentedFull(text: string, piece: string)
    requires Indented(text, piece) && piece != [] && !IsSpace(piece[0])
    ensures !Blank(text)
  {
    SpacesAreWhite(piece[0]);
    assert text[|text| - |piece|] == piece[0];
  }

  lemma {:induction false} AllWritten(pieces: seq<string>, texts: seq<string>, elems: seq<Value>, t: Type)
    requires IntLists(t) && ReadAs(pieces, elems, t) && WrittenAs(pieces, texts)
    ensures forall k :: 0 <= k < |elems| ==> Spells(texts[k], elems[k], t)
    decreases t, 1
  {
    forall k | 0 <= k < |elems| ensures Spells(texts[k], elems[k], t) {
      OnlyWritten(Trim(pieces[k]), elems[k], t);
      IndentedSpells(texts[k], pieces[k], elems[k], t);
    }
  }

  lemma {:induction false} ElementsSpell(text: string, before: string, core: string, after: string,
                                         texts: seq<string>, elems: seq<Value>, t: Type)
    requires Padded(text, before, core, after) && SpellsElements(core, texts, elems, t)
    ensures Spells(text, List(elems), ListOf(t))
  {
    assert SpellsTight(core, List(elems), ListOf(t));
  }

  lemma {:induction false} ListIsWritten(text: string, elems: seq<Value>, t: Type)
    requires IntLists(t) && ParseList(text, t) == Ok(List(elems))
    ensures Spells(text, List(elems), ListOf(t))
    decreases t, 2
  {
    var pieces := Pieces(text).1;
    ParseAllAt(pieces, elems, t);
    var before, texts, after := PiecesCover(text);
    AllWritten(pieces, texts, elems, t);
    ElementsSpell(text, before, "[" + Commas(texts) + "]", after, texts, elems, t);
  }

  lemma {:induction false} IntIsWritten(text: string, n: int)
    requires ParseInt(text) == Some(n)
    ensures Spells(text, Scalar(n), ScalarType)
  {
    var before, after := PaddedTrim(text);
    TrimTight(Trim(text));
    IntSpelling(Trim(text), n);
    assert SpellsTight(Trim(text), Scalar(n), ScalarType);
  }

  /** What is read as a value is a way to write it. */
  lemma {:induction false} OnlyWritten(text: string, v: Value, t: Type)
    requires IntLists(t) && ParseElement(text, t) == Ok(v)
    ensures Spells(text, v, t)
    decreases t, 0
  {
    if IsNullText(text) {
      NullIsWritten(text, t);
    } else if t.ScalarType? {
      IntIsWritten(text, v.n);
    } else {
      ListIsWritten(text, v.elems, t.child);
    }
  }

  /** The cast of an element gives a value if and only if the text is a way to write it. */
  lemma {:induction false} CastExactly(text: string, v: Value, t: Type)
    requires IntLists(t)
    ensures ParseElement(text, t) == Ok(v) <==> Spells(text, v, t)
  {
    if ParseElement(text, t) == Ok(v) { OnlyWritten(text, v, t); }
    if Spells(text, v, t) { Accepted(text, v, t); }
  }

  /** So does the cast of a whole text to a list, which is never NULL. */
  lemma {:induction false} ListCastExactly(text: string, v: Value, t: Type)
    requires IntLists(t)
    ensures ParseList(text, t) == Ok(v) <==> v.List? && Spells(text, v, ListOf(t))
  {
    if ParseList(text, t) == Ok(v) { ListIsWritten(text, v.elems, t); }
    if v.List? && Spells(text, v, ListOf(t)) {
      var before, core, after :| Padded(text, before, core, after) && SpellsTight(core, v, ListOf(t));
      var texts := TextsOf(core, v.elems, ListOf(t));
      ListAccepted(text, before, core, after, texts, v.elems, t);
    }
  }
}
