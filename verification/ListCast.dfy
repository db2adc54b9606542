/**
  Casting a text to a list row of a vector in two passes over the text: one counts the elements
  to make room for them, the other writes them (function/cast_from_string_functions.cpp).
 */
module ListCast {
  import opened Options
  import opened Vectors
  import opened IntegerText
  import opened ListText
  import opened ListSpelling
  import opened ListRoundTrip

  /** What the splitter does with each piece: count it, or cast it into the next row of `data`. */
  datatype State = Counting(count: nat) | Splitting(offset: nat, data: Vec)

  ghost predicate Ready(state: State, pieces: nat, t: Type) {
    IntLists(t) && (state.Splitting? ==> Valid(state.data) && TypeOf(state.data) == t && state.offset + pieces <= Size(state.data))
  }

  /** From `before` to `after` the rows from `offset` on got the given values and no other row changed. */
  ghost predicate Wrote(before: Vec, after: Vec, offset: nat, values: seq<Value>)
    requires Valid(before) && offset + |values| <= Size(before)
  {
    && Valid(after) && Size(after) == Size(before) && TypeOf(after) == TypeOf(before)
    && (forall p :: 0 <= p < Size(before) && !(offset <= p < offset + |values|) ==> Denote(after, p) == Denote(before, p))
    && (forall p :: offset <= p < offset + |values| ==> Denote(after, p) == values[p - offset])
  }

  ghost predicate Handled(before: State, after: State, pieces: seq<string>, t: Type)
    requires Ready(before, |pieces|, t)
  {
    match before
    case Counting(n) => after == Counting(n + |pieces|)
    case Splitting(offset, data) =>
      var values := ParseAll(pieces, t);
      && values.Ok?
      && after.Splitting? && after.offset == offset + |pieces|
      && Wrote(data, after.data, offset, values.value)
  }

  lemma {:induction false} HandledSnoc(a: State, b: State, c: State, pieces: seq<string>, piece: string, t: Type)
    requires Ready(a, |pieces| + 1, t) && Handled(a, b, pieces, t) && Ready(b, 1, t) && Handled(b, c, [piece], t)
    ensures Handled(a, c, pieces + [piece], t)
  {
    assert (pieces + [piece])[..|pieces|] == pieces;
    assert [piece][..0] == [];
  }

  lemma {:induction false} FailsEarly(a: seq<string>, b: seq<string>, t: Type)
    requires IntLists(t) && ParseAll(a, t).Err?
    ensures ParseAll(a + b, t).Err?
    decreases |b|
  {
    if b == [] {
      assert a + b == a;
    } else {
      assert (a + b)[..|a + b| - 1] == a + b[..|b| - 1];
      FailsEarly(a, b[..|b| - 1], t);
    }
  }

  method HandleValue(state: State, piece: string, ghost t: Type) returns (r: Result<State>)
    requires Ready(state, 1, t)
    ensures r.Ok? ==> Handled(state, r.value, [piece], t)
    ensures r.Err? ==> state.Splitting? && ParseAll([piece], t).Err?
    decreases t, 1
  {
    if state.Counting? {
      return Ok(Counting(state.count + 1));
    }
    var trimmed := TrimWhitespace(piece);
    assert [piece][..0] == [];
    var written := CopyStringToVector(state.data, state.offset, trimmed);
    if written.Err? {
      return Err;
    }
    return Ok(Splitting(state.offset + 1, written.value));
  }

  /** A piece ends at the comma or bracket at `i`, unless it is empty, at the bracket and the only one. */
  predicate EndsPiece(text: string, i: nat, start: nat, seen: bool)
    requires i < |text|
  {
    text[i] != ']' || start < i || seen
  }

  lemma {:induction false} PieceEnds(text: string, i: nat, start: nat, seen: bool, unread: bool, left: (bool, seq<string>))
    requires start <= i < |text| && Ends(text[i]) && Split(text, i, start, seen, unread) == left
    ensures EndsPiece(text, i, start, seen) ==> left.1 != [] && left.1[0] == text[start..i]
    ensures text[i] == ',' ==>
              var next := SpaceEnd(text, i + 1); Split(text, next, next, true, true) == (left.0, left.1[1..])
    ensures text[i] == ']' ==>
              && left.0 == (SpaceEnd(text, i + 1) == |text|)
              && |left.1| == if EndsPiece(text, i, start, seen) then 1 else 0
  {
  }

  /** Hands over the next piece, after those that are done. */
  method HandleNext(ghost state: State, now: State, piece: string, ghost done: seq<string>, ghost left: seq<string>, ghost t: Type)
    returns (r: Result<State>)
    requires left != [] && left[0] == piece
    requires Ready(state, |done + left|, t) && Handled(state, now, done, t)
    ensures r.Ok? ==> Handled(state, r.value, done + [piece], t)
    ensures r.Err? ==> state.Splitting? && ParseAll(done + left, t).Err?
    decreases t, 2
  {
    r := HandleValue(now, piece, t);
    if r.Ok? {
      HandledSnoc(state, now, r.value, done, piece, t);
    } else {
      assert done + left == done + [piece] + left[1..];
      Failure(done, piece, left[1..], t);
    }
  }

  /** At a comma or bracket hands over the piece that ends there, if one does. */
  method TakePiece(text: string, i: nat, start: nat, seen: bool, ghost unread: bool, ghost state: State, now: State,
                   ghost done: seq<string>, ghost left: (bool, seq<string>), ghost t: Type)
    returns (r: Result<State>, ghost done': seq<string>, ghost left': (bool, seq<string>))
    requires start <= i < |text| && Ends(text[i]) && Split(text, i, start, seen, unread) == left
    requires Ready(state, |done + left.1|, t) && Handled(state, now, done, t)
    ensures r.Ok? ==> done' + left'.1 == done + left.1 && left'.0 == left.0
    ensures r.Ok? ==> |done'| <= |done + left.1| && Handled(state, r.value, done', t)
    ensures r.Err? ==> state.Splitting? && ParseAll(done + left.1, t).Err?
    ensures r.Ok? && text[i] == ',' ==> var next := SpaceEnd(text, i + 1); Split(text, next, next, true, true) == left'
    ensures r.Ok? && text[i] == ']' ==> left' == (SpaceEnd(text, i + 1) == |text|, [])
    decreases t, 3
  {
    PieceEnds(text, i, start, seen, unread, left);
    done', left' := done, left;
    if text[i] != ']' || start < i || seen {
      r := HandleNext(state, now, text[start..i], done, left.1, t);
      Shift(done, left.1);
      done', left' := done + [left.1[0]], (left.0, left.1[1..]);
    } else {
      r := Ok(now);
    }
  }

  /** Moves over a bracketed list, a quoted text or a braced group, or stays on any other character. */
  method SkipGroup(text: string, start: nat, level: nat, unread: bool, ghost piece: nat, ghost seen: bool)
    returns (closed: bool, i: nat, lvl: nat)
    requires start < |text| && !Ends(text[start]) && level == 1 && piece <= start
    ensures start <= i && (closed ==> lvl == level)
    ensures Split(text, start, piece, seen, unread) ==
            if closed then Split(text, i + 1, piece, seen, false) else (false, [])
  {
    closed, i, lvl := true, start, level;
    var ch := text[i];
    if ch == '[' {
      lvl := lvl + 1;
      closed, i, lvl := SkipToClose(text, i, lvl, ']');
    } else if (ch == '\'' || ch == '"') && unread {
      var prevInput := i;
      var found;
      found, i := SkipToCloseQuotes(text, i);
      if !found {
        i := prevInput;
      }
    } else if ch == '{' {
      var _, j, _ := SkipToClose(text, i, 0, '}');
      i := j;
    }
  }

  /**
    Hands every piece of the text to the state and reports whether the text is a closed list,
    or fails with the first piece that cannot be cast.
   */
  method SplitCStringList(text: string, state: State, ghost t: Type) returns (valid: Result<bool>, after: State)
    requires Ready(state, |Pieces(text).1|, t)
    ensures valid.Ok? ==> valid.value == Pieces(text).0 && Handled(state, after, Pieces(text).1, t)
    ensures valid.Err? ==> state.Splitting? && ParseAll(Pieces(text).1, t).Err?
    decreases t, 5
  {
    var i := SkipWhitespace(text, 0);
    if i == |text| || text[i] != '[' {
      return Ok(false), state;
    }
    i := SkipWhitespace(text, i + 1);
    valid, after := SplitFrom(text, i, state, Pieces(text), t);
  }

  /** The loop of the splitter, from behind the opening bracket on. */
  method SplitFrom(text: string, start: nat, state: State, ghost all: (bool, seq<string>), ghost t: Type)
    returns (valid: Result<bool>, after: State)
    requires all == Split(text, start, start, false, true) && Ready(state, |all.1|, t)
    ensures valid.Ok? ==> valid.value == all.0 && Handled(state, after, all.1, t)
    ensures valid.Err? ==> state.Splitting? && ParseAll(all.1, t).Err?
    decreases t, 4
  {
    after := state;
    var lvl, seenValue, justFinishedEntry := 1, false, true;
    var i, startPtr: nat := start, start;
    ghost var done, left := [], all;
    while i < |text|
      invariant startPtr <= i && lvl == 1 && left.0 == all.0 && done + left.1 == all.1
      invariant Split(text, i, startPtr, seenValue, justFinishedEntry) == left
      invariant Handled(state, after, done, t)
      decreases |text| - i
    {
      var ch := text[i];
      if ch == ',' || ch == ']' {
        var handled;
        handled, done, left := TakePiece(text, i, startPtr, seenValue, justFinishedEntry, state, after, done, left, t);
        if handled.Err? {
          return Err, after;
        }
        after := handled.value;
        seenValue := seenValue || ch != ']' || startPtr < i;
        if ch == ']' {
          lvl := lvl - 1;
          break;
        }
        i := SkipWhitespace(text, i + 1);
        startPtr := i;
        justFinishedEntry := true;
        continue;
      }
      var closed;
      closed, i, lvl := SkipGroup(text, i, lvl, justFinishedEntry, startPtr, seenValue);
      if !closed {
        assert done == all.1;
        return Ok(false), after;
      }
      justFinishedEntry := false;
      i := i + 1;
    }
    assert done == all.1;
    i := SkipWhitespace(text, i + 1);
    return Ok(i == |text| && lvl == 0), after;
  }

  lemma {:induction false} Shift(done: seq<string>, left: seq<string>)
    requires left != []
    ensures done + [left[0]] + left[1..] == done + left
  {
  }

  lemma {:induction false} Failure(done: seq<string>, piece: string, rest: seq<string>, t: Type)
    requires IntLists(t) && ParseAll([piece], t).Err?
    ensures ParseAll(done + [piece] + rest, t).Err?
  {
    assert [piece][..0] == [] && (done + [piece])[..|done|] == done;
    FailsEarly(done + [piece], rest, t);
  }

  /* ----- writing rows ----- */

  function Nones<T>(n: nat): (r: seq<Option<T>>)
    ensures |r| == n && forall i :: 0 <= i < n ==> r[i].None?
  {
    if n == 0 then [] else Nones(n - 1) + [None]
  }

  /** Room for `n` more rows at the end of a vector. */
  function Extended(v: Vec, n: nat): Vec
    requires IntLists(TypeOf(v))
  {
    match v
    case Scalars(cells) => Scalars(cells + Nones(n))
    case Lists(rows, data) => Lists(rows + Nones(n), data)
  }

  lemma {:induction false} ExtendedKeeps(v: Vec, n: nat)
    requires Valid(v) && IntLists(TypeOf(v))
    ensures var w := Extended(v, n);
            && Valid(w) && Size(w) == Size(v) + n && TypeOf(w) == TypeOf(v)
            && forall p :: 0 <= p < Size(v) ==> Denote(w, p) == Denote(v, p)
  {
  }

  /** A row denotes the same after its data vector changed outside its range. */
  lemma {:induction false} SameRange(v: Vec, w: Vec, offset: nat, size: nat)
    requires Valid(v) && Valid(w) && offset + size <= Size(v) && offset + size <= Size(w)
    requires forall p :: offset <= p < offset + size ==> Denote(v, p) == Denote(w, p)
    ensures DenoteRange(v, offset, size) == DenoteRange(w, offset, size)
  {
  }

  /** Writes the value the text is a way to write, exactly when there is one. */
  method CopyStringToVector(v: Vec, pos: nat, text: string) returns (r: Result<Vec>)
    requires Valid(v) && IntLists(TypeOf(v)) && pos < Size(v)
    ensures r.Ok? <==> ParseElement(text, TypeOf(v)).Ok?
    ensures r.Ok? ==> Wrote(v, r.value, pos, [ParseElement(text, TypeOf(v)).value])
    ensures r.Err? ==> forall value :: !Spells(text, value, TypeOf(v))
    ensures r.Ok? ==> Spells(text, Denote(r.value, pos), TypeOf(v))
    decreases TypeOf(v), 0
  {
    var isNull := TestNull(text);
    if isNull {
      r := Ok(WithNull(v, pos));
    } else {
      match v {
        case Scalars(cells) =>
          var n := TryIntegerCast(text);
          r := if n.Some? then Ok(Scalars(cells[pos := n])) else Err;
        case Lists(_, _) => r := CastList(v, pos, text);
      }
    }
    WhenSpelled(text, TypeOf(v));
  }

  function WithNull(v: Vec, pos: nat): (w: Vec)
    requires Valid(v) && IntLists(TypeOf(v)) && pos < Size(v)
    ensures Wrote(v, w, pos, [Null])
  {
    match v
    case Scalars(cells) => Scalars(cells[pos := None])
    case Lists(rows, data) => Lists(rows[pos := None], data)
  }

  lemma {:induction false} WhenSpelled(text: string, t: Type)
    requires IntLists(t)
    ensures ParseElement(text, t).Ok? ==> Spells(text, ParseElement(text, t).value, t)
    ensures ParseElement(text, t).Err? ==> forall value :: !Spells(text, value, t)
  {
    if ParseElement(text, t).Ok? {
      OnlyWritten(text, ParseElement(text, t).value, t);
    } else {
      forall value ensures !Spells(text, value, t) {
        if Spells(text, value, t) { Accepted(text, value, t); }
      }
    }
  }

  method TestNull(text: string) returns (r: bool)
    ensures r == IsNullText(text)
    ensures r <==> Spells(text, Null, ScalarType)
  {
    NullExactly(text, ScalarType);
    var i := SkipWhitespace(text, 0);
    if i == |text| {
      return true;
    }
    if |text| - i >= 4 && SpellsNull(text, i) {
      i := SkipWhitespace(text, i + 4);
      return i == |text|;
    }
    return false;
  }

  /**
    Writes the list the text stands for, exactly when it stands for one; the elements written by
    the second pass are as many as the first pass made room for, also for a text that is not a
    list.
   */
  method CastList(v: Vec, pos: nat, text: string) returns (r: Result<Vec>)
    requires Valid(v) && v.Lists? && IntLists(TypeOf(v)) && pos < Size(v)
    ensures r.Ok? <==> ParseList(text, TypeOf(v.data)).Ok?
    ensures r.Ok? ==> Wrote(v, r.value, pos, [ParseList(text, TypeOf(v.data)).value])
    ensures r.Err? ==> forall elems :: !Spells(text, List(elems), TypeOf(v))
    ensures r.Ok? ==> Denote(r.value, pos).List? && Spells(text, Denote(r.value, pos), TypeOf(v))
    decreases TypeOf(v.data), 6
  {
    ghost var child := TypeOf(v.data);
    WhenListSpelled(text, child);
    var _, counted := SplitCStringList(text, Counting(0), child);
    var entry := Entry(Size(v.data), counted.count);
    var data := Extended(v.data, counted.count);
    ExtendedKeeps(v.data, counted.count);
    var valid, split := SplitCStringList(text, Splitting(entry.offset, data), child);
    if valid.Err? || !valid.value {
      return Err;
    }
    var after := Lists(v.rows[pos := Some(entry)], split.data);
    ListWritten(v, pos, entry, split.data, ParseAll(Pieces(text).1, child).value);
    return Ok(after);
  }

  lemma {:induction false} WhenListSpelled(text: string, t: Type)
    requires IntLists(t)
    ensures ParseList(text, t).Ok? ==> ParseList(text, t).value.List? && Spells(text, ParseList(text, t).value, ListOf(t))
    ensures ParseList(text, t).Err? ==> forall elems :: !Spells(text, List(elems), ListOf(t))
  {
    if ParseList(text, t).Ok? {
      ListIsWritten(text, ParseList(text, t).value.elems, t);
    } else {
      forall elems ensures !Spells(text, List(elems), ListOf(t)) { ListCastExactly(text, List(elems), t); }
    }
  }

  /** Writing a list behind all others changes no other row. */
  lemma {:induction false} ListWritten(v: Vec, pos: nat, entry: Entry, data: Vec, values: seq<Value>)
    requires Valid(v) && v.Lists? && pos < Size(v) && entry == Entry(Size(v.data), |values|)
    requires Valid(data) && TypeOf(data) == TypeOf(v.data) && Size(data) == Size(v.data) + |values|
    requires forall p :: 0 <= p < Size(v.data) ==> Denote(data, p) == Denote(v.data, p)
    requires forall p :: Size(v.data) <= p < Size(data) ==> Denote(data, p) == values[p - Size(v.data)]
    ensures Wrote(v, Lists(v.rows[pos := Some(entry)], data), pos, [List(values)])
  {
    var after := Lists(v.rows[pos := Some(entry)], data);
    assert Valid(after);
    assert DenoteRange(data, entry.offset, entry.size) == values;
    forall p | 0 <= p < Size(v) && p != pos ensures Denote(after, p) == Denote(v, p) {
      var row := v.rows[p];
      if row.Some? {
        assert InRange(row, Size(v.data));
        SameRange(data, v.data, row.value.offset, row.value.size);
      }
    }
  }

  /**
    Printing a row of one vector and casting the text into a row of another copies the value, if
    and only if it holds no list that is exactly [NULL].
   */
  method CopyThroughText(from: Vec, row: nat, to: Vec, pos: nat) returns (r: Result<Vec>)
    requires Valid(from) && from.Lists? && IntLists(TypeOf(from)) && row < Size(from) && !IsNull(from, row)
    requires Fits(Denote(from, row), TypeOf(from))
    requires Valid(to) && TypeOf(to) == TypeOf(from) && pos < Size(to)
    ensures r.Ok? && Wrote(to, r.value, pos, [Normal(Denote(from, row))])
    ensures Denote(r.value, pos) == Denote(from, row) <==> NoLoneNull(Denote(from, row))
  {
    var text := PrintEntry(from, row);
    ghost var elems := Denote(from, row).elems;
    RoundTrip(elems, TypeOf(from.data));
    NormalIsId(List(elems));
    r := CastList(to, pos, text);
  }
}
