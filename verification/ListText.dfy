/**
  The text form of nested lists of integers: the printer of common/type_utils.cpp and the
  bracket-matching splitter of function/cast_from_string_functions.cpp.
 */
module ListText {
  import opened Options
  import opened Vectors
  import opened IntegerText

  datatype Result<T> = Ok(value: T) | Err

  const UINT64_RANGE: nat := 0x1_0000_0000_0000_0000

  /** Counters are 64 bits wide and wrap around. */
  function Increment(lvl: nat): nat { (lvl + 1) % UINT64_RANGE }

  function Decrement(lvl: nat): nat { if lvl == 0 then UINT64_RANGE - 1 else lvl - 1 }

  /* ----- the printer ----- */

  function Print(v: Value): string {
    match v
    case Null => ""
    case Scalar(n) => PrintInt(n)
    case List(elems) => "[" + JoinFrom(PrintAll(elems), 0)
    case Struct(_) => ""
  }

  function PrintAll(elems: seq<Value>): (r: seq<string>)
    ensures |r| == |elems|
  {
    if elems == [] then [] else PrintAll(elems[..|elems| - 1]) + [Print(elems[|elems| - 1])]
  }

  /** The texts from the `k`-th on, with commas between them and the closing bracket. */
  function JoinFrom(texts: seq<string>, k: nat): string
    requires k <= |texts|
    decreases |texts| - k
  {
    if k == |texts| then "]"
    else if k + 1 == |texts| then texts[k] + "]"
    else texts[k] + "," + JoinFrom(texts, k + 1)
  }

  lemma {:induction false} PrintAllAt(elems: seq<Value>, k: nat)
    requires k < |elems|
    ensures PrintAll(elems)[k] == Print(elems[k])
  {
    if k < |elems| - 1 { PrintAllAt(elems[..|elems| - 1], k); }
  }

  method PrintEntry(v: Vec, pos: nat) returns (text: string)
    requires Valid(v) && pos < Size(v) && IntLists(TypeOf(v))
    ensures text == Print(Denote(v, pos))
    decreases v, 0
  {
    if IsNull(v, pos) {
      return "";
    }
    match v
    case Scalars(cells) => return PrintInt(cells[pos].value);
    case Lists(rows, data) =>
      assert InRange(rows[pos], Size(data));
      text := PrintList(data, rows[pos].value);
  }

  method PrintList(data: Vec, e: Entry) returns (text: string)
    requires Valid(data) && IntLists(TypeOf(data)) && e.offset + e.size <= Size(data)
    ensures text == "[" + JoinFrom(PrintAll(DenoteRange(data, e.offset, e.size)), 0)
    decreases data, 2
  {
    ghost var texts := PrintAll(DenoteRange(data, e.offset, e.size));
    if e.size == 0 {
      return "[]";
    }
    text := "[";
    var i := 0;
    while i < e.size - 1
      invariant 0 <= i <= e.size - 1
      invariant text + JoinFrom(texts, i) == "[" + JoinFrom(texts, 0)
    {
      var element := PrintElement(data, e, i);
      JoinMore(text, texts, i);
      text := text + element;
      text := text + ",";
      i := i + 1;
    }
    var last := PrintElement(data, e, i);
    JoinMore(text, texts, i);
    text := text + last;
    text := text + "]";
  }

  method PrintElement(data: Vec, e: Entry, i: nat) returns (text: string)
    requires Valid(data) && IntLists(TypeOf(data)) && e.offset + e.size <= Size(data) && i < e.size
    ensures text == PrintAll(DenoteRange(data, e.offset, e.size))[i]
    decreases data, 1
  {
    text := PrintEntry(data, e.offset + i);
    PrintAllAt(DenoteRange(data, e.offset, e.size), i);
  }

  lemma {:induction false} JoinMore(text: string, texts: seq<string>, i: nat)
    requires i < |texts|
    ensures text + JoinFrom(texts, i) ==
            if i + 1 < |texts| then text + texts[i] + "," + JoinFrom(texts, i + 1) else text + texts[i] + "]"
  {
    if i + 1 < |texts| {
      Regroup(text, texts[i], ",", JoinFrom(texts, i + 1));
    } else {
      Regroup(text, texts[i], "]", "");
    }
  }

  lemma {:induction false} Regroup(a: string, b: string, c: string, d: string)
    ensures a + (b + c + d) == a + b + c + d
    ensures a + (b + c) == a + b + c
  {
  }

  /** Integers, and lists of them of any depth. */
  predicate IntLists(t: Type) {
    match t
    case ScalarType => true
    case ListOf(child) => IntLists(child)
    case StructOf(_) => false
  }

  /* ----- brackets and quotes ----- */

  predicate Opens(c: char) { c == '\'' || c == '{' || c == '[' }

  predicate Closes(c: char) { c == ']' || c == '}' }

  /** What ends a piece of a list. */
  predicate Ends(c: char) { c == ',' || c == ']' }

  function CloseQuotes(text: string, i: nat, quote: char): (r: Option<nat>)
    ensures r.Some? ==> i <= r.value < |text| && text[r.value] == quote
    decreases |text| - i
  {
    if i >= |text| then None else if text[i] == quote then Some(i) else CloseQuotes(text, i + 1, quote)
  }

  /** Where the bracket that `target` closes is closed, quotes and inner brackets skipped. */
  function Close(text: string, i: nat, target: char): (r: Option<nat>)
    ensures r.Some? ==> i <= r.value < |text| && text[r.value] == target
    decreases |text| - i
  {
    if i >= |text| then None
    else if Opens(text[i]) then
      var inner := if text[i] == '\'' then CloseQuotes(text, i + 1, '\'')
                   else if text[i] == '{' then Close(text, i + 1, '}') else Close(text, i + 1, ']');
      if inner.None? then None else Close(text, inner.value + 1, target)
    else if text[i] == target then Some(i)
    else Close(text, i + 1, target)
  }

  method SkipToCloseQuotes(text: string, start: nat) returns (found: bool, i: nat)
    requires start < |text|
    ensures found == CloseQuotes(text, start + 1, text[start]).Some?
    ensures i == if found then CloseQuotes(text, start + 1, text[start]).value else |text|
  {
    var ch := text[start];
    i := start + 1;
    while i != |text|
      invariant start < i <= |text| && CloseQuotes(text, i, ch) == CloseQuotes(text, start + 1, ch)
    {
      if text[i] == ch {
        return true, i;
      }
      i := i + 1;
    }
    return false, i;
  }

  /**
    The level counter goes down by one for a bracket and does not change for a brace, however
    many brackets are skipped on the way.
   */
  method SkipToClose(text: string, start: nat, level: nat, target: char) returns (found: bool, i: nat, lvl: nat)
    requires start < |text| && level < UINT64_RANGE && Closes(target)
    ensures found == Close(text, start + 1, target).Some?
    ensures i == if found then Close(text, start + 1, target).value else |text|
    ensures lvl < UINT64_RANGE
    ensures found ==> lvl == if target == ']' then Decrement(level) else level
    decreases |text| - start
  {
    i, lvl := start + 1, level;
    while i != |text|
      invariant start < i <= |text| && Close(text, i, target) == Close(text, start + 1, target)
      invariant lvl == level
      decreases |text| - i
    {
      if text[i] == '\'' {
        found, i := SkipToCloseQuotes(text, i);
        if !found {
          return;
        }
      } else if text[i] == '{' {
        found, i, lvl := SkipToClose(text, i, lvl, '}');
        if !found {
          return;
        }
      } else if text[i] == '[' {
        found, i, lvl := SkipToClose(text, i, lvl, ']');
        if !found {
          return;
        }
        lvl := Increment(lvl);
      } else if text[i] == target {
        if target == ']' {
          lvl := Decrement(lvl);
        }
        return true, i, lvl;
      }
      i := i + 1;
    }
    return false, i, lvl;
  }

  /* ----- splitting a list ----- */

  /**
    The pieces of a list text from `i` on, and whether the list is closed and nothing follows
    it. `start` is where the current piece begins, `seen` says that there was one before it and
    `unread` that nothing of it has been read.
   */
  function Split(text: string, i: nat, start: nat, seen: bool, unread: bool): (r: (bool, seq<string>))
    requires start <= i
    decreases |text| - i
  {
    if i >= |text| then (false, [])
    else if text[i] == '[' then
      var close := Close(text, i + 1, ']');
      if close.None? then (false, []) else Split(text, close.value + 1, start, seen, false)
    else if (text[i] == '\'' || text[i] == '"') && unread then
      var close := CloseQuotes(text, i + 1, text[i]);
      Split(text, if close.None? then i + 1 else close.value + 1, start, seen, false)
    else if text[i] == '{' then
      var close := Close(text, i + 1, '}');
      if close.None? then (false, []) else Split(text, close.value + 1, start, seen, false)
    else if text[i] == ',' then
      var next := SpaceEnd(text, i + 1);
      var rest := Split(text, next, next, true, true);
      (rest.0, [text[start..i]] + rest.1)
    else if text[i] == ']' then
      (SpaceEnd(text, i + 1) == |text|, if start < i || seen then [text[start..i]] else [])
    else Split(text, i + 1, start, seen, false)
  }

  function Pieces(text: string): (bool, seq<string>) {
    var i := SpaceEnd(text, 0);
    if i >= |text| || text[i] != '[' then (false, [])
    else
      var start := SpaceEnd(text, i + 1);
      Split(text, start, start, false, true)
  }

  predicate SpellsNull(text: string, i: nat)
    requires i + 4 <= |text|
  {
    && (text[i] == 'N' || text[i] == 'n') && (text[i + 1] == 'U' || text[i + 1] == 'u')
    && (text[i + 2] == 'L' || text[i + 2] == 'l') && (text[i + 3] == 'L' || text[i + 3] == 'l')
  }

  /** Nothing, or NULL in any case, with white space around it. */
  predicate IsNullText(text: string) {
    var i := SpaceEnd(text, 0);
    || i == |text|
    || (|text| - i >= 4 && SpellsNull(text, i) && SpaceEnd(text, i + 4) == |text|)
  }

  /* ----- what a text is cast to ----- */

  function ParseElement(text: string, t: Type): Result<Value>
    requires IntLists(t)
    decreases t, 0
  {
    if IsNullText(text) then Ok(Null)
    else if t.ScalarType? then
      var n := ParseInt(text);
      if n.Some? then Ok(Scalar(n.value)) else Err
    else ParseList(text, t.child)
  }

  function ParseList(text: string, child: Type): Result<Value>
    requires IntLists(child)
    decreases child, 2
  {
    var (closed, pieces) := Pieces(text);
    var elems := ParseAll(pieces, child);
    if elems.Ok? && closed then Ok(List(elems.value)) else Err
  }

  function ParseAll(pieces: seq<string>, t: Type): (r: Result<seq<Value>>)
    requires IntLists(t)
    ensures r.Ok? ==> |r.value| == |pieces|
    decreases t, 1, |pieces|
  {
    if pieces == [] then Ok([])
    else
      var front := ParseAll(pieces[..|pieces| - 1], t);
      var last := ParseElement(Trim(pieces[|pieces| - 1]), t);
      if front.Ok? && last.Ok? then Ok(front.value + [last.value]) else Err
  }
}
