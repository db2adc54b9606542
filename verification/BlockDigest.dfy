/**
  Digests that work on blocks of 64 bytes, for any way of working a block into the running
  state: fed piece by piece, against padding the whole message and taking it block by block.
 */
module BlockDigest {
  const BLOCK: nat := 64
  const RANGE32: nat := 0x1_0000_0000

  /** `step` works in a block; `one` is the first byte of the padding; `length` writes two 32-bit words. */
  datatype Scheme<!S, !B> = Scheme(step: (S, seq<B>) -> S, start: S, one: B, zero: B, length: (nat, nat) -> seq<B>)

  ghost predicate ValidScheme<S, B>(c: Scheme<S, B>) {
    forall low, high :: |c.length(low, high)| == 8
  }

  /* ----- a whole message at once: sections 3.1 to 3.4 of RFC 1321 ----- */

  function StepAll<S, B>(c: Scheme<S, B>, blocks: seq<B>): S
    requires |blocks| % BLOCK == 0
  {
    if blocks == [] then c.start
    else c.step(StepAll(c, blocks[..|blocks| - BLOCK]), blocks[|blocks| - BLOCK..])
  }

  function Repeat<B>(b: B, n: nat): (r: seq<B>)
    ensures |r| == n && forall i :: 0 <= i < n ==> r[i] == b
  {
    if n == 0 then [] else Repeat(b, n - 1) + [b]
  }

  /** The fewest zeros behind the first byte of padding that leave room for just the length. */
  function Fill(n: nat): (k: nat)
    ensures k < BLOCK && (n + 1 + k) % BLOCK == 56
  {
    (BLOCK + 55 - n % BLOCK) % BLOCK
  }

  function Padded<S, B>(c: Scheme<S, B>, message: seq<B>, length: seq<B>): (r: seq<B>)
    requires |length| == 8
    ensures |r| % BLOCK == 0
  {
    message + [c.one] + Repeat(c.zero, Fill(|message|)) + length
  }

  /** The length in bits, the low-order word first; of longer lengths the low-order 64 bits. */
  function Length<S, B>(c: Scheme<S, B>, n: nat): seq<B> {
    c.length(8 * n % RANGE32, 8 * n / RANGE32 % RANGE32)
  }

  ghost function OneShot<S, B>(c: Scheme<S, B>, message: seq<B>): S
    requires ValidScheme(c)
  {
    StepAll(c, Padded(c, message, Length(c, |message|)))
  }

  /** Two schemes that pad alike and work in each block alike. */
  ghost predicate SameScheme<S(!new), B(!new)>(c: Scheme<S, B>, d: Scheme<S, B>) {
    && c.start == d.start && c.one == d.one && c.zero == d.zero
    && (forall low, high :: c.length(low, high) == d.length(low, high))
    && (forall s, block :: |block| == BLOCK ==> c.step(s, block) == d.step(s, block))
  }

  lemma {:induction false} SameSteps<S(!new), B(!new)>(c: Scheme<S, B>, d: Scheme<S, B>, blocks: seq<B>)
    requires SameScheme(c, d) && |blocks| % BLOCK == 0
    ensures StepAll(c, blocks) == StepAll(d, blocks)
  {
    if blocks != [] { SameSteps(c, d, blocks[..|blocks| - BLOCK]); }
  }

  /** They digest every message alike. */
  lemma {:induction false} SameDigest<S(!new), B(!new)>(c: Scheme<S, B>, d: Scheme<S, B>, message: seq<B>)
    requires SameScheme(c, d) && ValidScheme(c) && ValidScheme(d)
    ensures OneShot(c, message) == OneShot(d, message)
  {
    SameSteps(c, d, Padded(c, message, Length(c, |message|)));
  }

  lemma {:induction false} StepSnoc<S, B>(c: Scheme<S, B>, a: seq<B>, block: seq<B>)
    requires |a| % BLOCK == 0 && |block| == BLOCK
    ensures StepAll(c, a + block) == c.step(StepAll(c, a), block)
  {
    assert (a + block)[..|a|] == a && (a + block)[|a|..] == block;
  }

  function Tail<B>(message: seq<B>): seq<B> {
    message[|message| - |message| % BLOCK..]
  }

  function Whole<B>(message: seq<B>): (r: seq<B>)
    ensures |r| % BLOCK == 0 && message == r + Tail(message)
  {
    message[..|message| - |message| % BLOCK]
  }

  /** With room for the padding and the length, the padded message has one more block, ... */
  lemma {:induction false} OneMoreBlock<S, B>(c: Scheme<S, B>, message: seq<B>, zeros: nat, length: seq<B>)
    requires zeros == 55 - |message| % BLOCK && |length| == 8
    ensures StepAll(c, Padded(c, message, length)) ==
            c.step(StepAll(c, Whole(message)), Tail(message) + [c.one] + Repeat(c.zero, zeros) + length)
  {
    var last := Tail(message) + [c.one] + Repeat(c.zero, zeros) + length;
    assert Padded(c, message, length) == Whole(message) + last;
    StepSnoc(c, Whole(message), last);
  }

  lemma {:induction false} FillTwo(n: nat)
    requires n % BLOCK >= 56
    ensures Fill(n) == 63 - n % BLOCK + 56
  {
  }

  lemma {:induction false} RepeatSplit<B>(b: B, m: nat, n: nat)
    ensures Repeat(b, m + n) == Repeat(b, m) + Repeat(b, n)
  {
  }

  lemma {:induction false} TailLength<B>(message: seq<B>)
    ensures |Tail(message)| == |message| % BLOCK
  {
  }

  lemma {:induction false} TwoSteps<S, B>(c: Scheme<S, B>, a: seq<B>, first: seq<B>, last: seq<B>)
    requires |a| % BLOCK == 0 && |first| == BLOCK && |last| == BLOCK
    ensures StepAll(c, a + first + last) == c.step(c.step(StepAll(c, a), first), last)
  {
    StepSnoc(c, a, first);
    StepSnoc(c, a + first, last);
  }

  /** ... and otherwise two. */
  lemma {:induction false} TwoMoreBlocks<S, B>(c: Scheme<S, B>, message: seq<B>, zeros: nat, length: seq<B>)
    requires |message| % BLOCK >= 56 && zeros == 63 - |message| % BLOCK && |length| == 8
    ensures StepAll(c, Padded(c, message, length)) ==
            c.step(c.step(StepAll(c, Whole(message)), Tail(message) + [c.one] + Repeat(c.zero, zeros)), Repeat(c.zero, 56) + length)
  {
    var first, last := Tail(message) + [c.one] + Repeat(c.zero, zeros), Repeat(c.zero, 56) + length;
    FillTwo(|message|);
    RepeatSplit(c.zero, zeros, 56);
    TailLength(message);
    assert Padded(c, message, length) == Whole(message) + first + last;
    TwoSteps(c, Whole(message), first, last);
  }

  /* ----- the running state ----- */

  /** The two counters hold the length in bits. */
  predicate Counted(bits0: nat, bits1: nat, n: nat) {
    bits0 == 8 * n % RANGE32 && bits1 == 8 * n / RANGE32 % RANGE32
  }

  /** The whole blocks have been compressed and the rest is in the buffer. */
  ghost predicate Running<S, B>(c: Scheme<S, B>, buf: S, input: seq<B>, message: seq<B>) {
    |input| == BLOCK && buf == StepAll(c, Whole(message)) && input[..|message| % BLOCK] == Tail(message)
  }

  ghost predicate AtBlock<S, B>(c: Scheme<S, B>, buf: S, message: seq<B>) {
    |message| % BLOCK == 0 && buf == StepAll(c, message)
  }

  function DataBits(len: nat): nat { 8 * len % RANGE32 }

  lemma {:induction false} Quotient(x: nat, q: nat, r: nat)
    requires x == q * RANGE32 + r && r < RANGE32
    ensures x / RANGE32 == q && x % RANGE32 == r
  {
  }

  lemma {:induction false} AddMod(a: nat, b: nat)
    ensures (a % RANGE32 + b) % RANGE32 == (a + b) % RANGE32
  {
  }

  /** The carry between the counters. */
  lemma {:induction false} CountMore(t: nat, bits1: nat, n: nat, len: nat)
    requires Counted(t, bits1, n) && len < RANGE32
    ensures var sum := (t + DataBits(len)) % RANGE32;
            Counted(sum, ((if sum < t then (bits1 + 1) % RANGE32 else bits1) + len / 0x2000_0000) % RANGE32, n + len)
  {
    var high, more, low := 8 * n / RANGE32, len / 0x2000_0000, DataBits(len);
    assert 8 * n == high * RANGE32 + t && 8 * len == more * RANGE32 + low;
    assert t < RANGE32 && low < RANGE32;
    if t + low < RANGE32 {
      Quotient(8 * (n + len), high + more, t + low);
      AddMod(high, more);
    } else {
      Quotient(8 * (n + len), high + more + 1, t + low - RANGE32);
      AddMod(high, 1);
      AddMod(high + 1, more);
    }
  }

  lemma {:induction false} CountedRemainder(bits0: nat, n: nat)
    requires bits0 == 8 * n % RANGE32
    ensures bits0 / 8 % BLOCK == n % BLOCK
  {
    var k := 8 * n / RANGE32;
    assert bits0 == 8 * (n - k * 0x2000_0000);
    assert bits0 / 8 == n - k * 0x2000_0000;
  }

  lemma {:induction false} Blocks<B>(message: seq<B>, q: nat, t: nat)
    requires |message| == BLOCK * q + t && t < BLOCK
    ensures |message| % BLOCK == t && Whole(message) == message[..BLOCK * q] && Tail(message) == message[BLOCK * q..]
  {
  }

  lemma {:induction false} AddTail<S, B>(c: Scheme<S, B>, message: seq<B>, was: seq<B>, input: seq<B>, buf: S, more: seq<B>)
    requires Running(c, buf, was, message) && |message| % BLOCK + |more| < BLOCK
    requires var t := |message| % BLOCK; input == was[..t] + more + was[t + |more|..]
    ensures Running(c, buf, input, message + more)
  {
    var q, t := |message| / BLOCK, |message| % BLOCK;
    Blocks(message, q, t);
    Blocks(message + more, q, t + |more|);
    assert (message + more)[..BLOCK * q] == message[..BLOCK * q];
    assert (message + more)[BLOCK * q..] == message[BLOCK * q..] + more;
    assert input[..t + |more|] == was[..t] + more;
  }

  lemma {:induction false} FullBlock<S, B>(c: Scheme<S, B>, message: seq<B>, was: seq<B>, input: seq<B>, buf: S, more: seq<B>)
    requires Running(c, buf, was, message) && |message| % BLOCK + |more| == BLOCK
    requires var t := |message| % BLOCK; input == was[..t] + more + was[t + |more|..]
    ensures |message + more| % BLOCK == 0 && c.step(buf, input) == StepAll(c, message + more)
  {
    var q, t := |message| / BLOCK, |message| % BLOCK;
    Blocks(message, q, t);
    Blocks(message + more, q + 1, 0);
    assert input == message[BLOCK * q..] + more;
    assert message + more == message[..BLOCK * q] + input;
    StepSnoc(c, message[..BLOCK * q], input);
  }

  lemma {:induction false} Remainder<B>(message: seq<B>, rest: seq<B>)
    requires |message| % BLOCK == 0 && |rest| < BLOCK
    ensures Whole(message + rest) == message && Tail(message + rest) == rest && |message + rest| % BLOCK == |rest|
  {
    Blocks(message + rest, |message| / BLOCK, |rest|);
  }

  /* ----- the context ----- */

  class Context<S, B> {
    const scheme: Scheme<S, B>
    var buf: S
    var bits0: nat
    var bits1: nat
    const input: array<B>
    /** Everything added since the context was initialised. */
    ghost var message: seq<B>

    ghost predicate Valid()
      reads this, input
    {
      Counted(bits0, bits1, |message|) && Running(scheme, buf, input[..], message)
    }

    constructor (c: Scheme<S, B>)
      ensures Valid() && scheme == c && message == [] && fresh(input)
    {
      scheme, buf, bits0, bits1, message := c, c.start, 0, 0, [];
      input := new B[64](_ => c.zero);
    }

    method Init()
      requires input.Length == BLOCK
      modifies this
      ensures Valid() && message == []
    {
      buf, bits0, bits1, message := scheme.start, 0, 0, [];
    }

    method Update(data: seq<B>)
      requires Valid() && |data| < RANGE32
      modifies this, input
      ensures Valid() && message == old(message) + data
    {
      var t := bits0;
      CountBits(|data|);
      CountedRemainder(t, |message|);
      Feed(t / 8 % BLOCK, data);
    }

    method CountBits(len: nat)
      requires len < RANGE32 && Counted(bits0, bits1, |message|)
      modifies this`bits0, this`bits1
      ensures Counted(bits0, bits1, |message| + len)
    {
      var t := bits0;
      bits0 := (t + DataBits(len)) % RANGE32;
      if bits0 < t {
        bits1 := (bits1 + 1) % RANGE32;
      }
      bits1 := (bits1 + len / 0x2000_0000) % RANGE32;
      CountMore(t, old(bits1), |message|, len);
    }

    /** Bytes in front of a whole block, whole blocks, and the bytes left. */
    method Feed(t: nat, data: seq<B>)
      requires t == |message| % BLOCK && Running(scheme, buf, input[..], message)
      modifies this`buf, this`message, input
      ensures message == old(message) + data && Running(scheme, buf, input[..], message)
    {
      if t > 0 {
        var room := BLOCK - t;
        if |data| < room {
          FillPart(t, data);
          return;
        }
        FillUp(t, data[..room]);
        assert data[..room] + data[room..] == data;
        FeedBlocks(data[room..]);
      } else {
        assert Whole(message) == message;
        FeedBlocks(data);
      }
    }

    method FillPart(t: nat, data: seq<B>)
      requires t == |message| % BLOCK && t + |data| < BLOCK && Running(scheme, buf, input[..], message)
      modifies this`message, input
      ensures message == old(message) + data && Running(scheme, buf, input[..], message)
    {
      CopyIn(t, data);
      AddTail(scheme, message, old(input[..]), input[..], buf, data);
      message := message + data;
    }

    method FillUp(t: nat, data: seq<B>)
      requires t == |message| % BLOCK && t + |data| == BLOCK && Running(scheme, buf, input[..], message)
      modifies this`buf, this`message, input
      ensures message == old(message) + data && AtBlock(scheme, buf, message)
    {
      CopyIn(t, data);
      FullBlock(scheme, message, old(input[..]), input[..], buf, data);
      buf := scheme.step(buf, input[..]);
      message := message + data;
    }

    method FeedBlocks(data: seq<B>)
      requires input.Length == BLOCK && AtBlock(scheme, buf, message)
      modifies this`buf, this`message, input
      ensures message == old(message) + data && Running(scheme, buf, input[..], message)
    {
      var rest := data;
      while |rest| >= BLOCK
        invariant AtBlock(scheme, buf, message)
        invariant message + rest == old(message) + data
      {
        FeedBlock(rest[..BLOCK]);
        assert rest[..BLOCK] + rest[BLOCK..] == rest;
        rest := rest[BLOCK..];
      }
      FeedRest(rest);
    }

    method FeedBlock(block: seq<B>)
      requires input.Length == BLOCK && |block| == BLOCK && AtBlock(scheme, buf, message)
      modifies this`buf, this`message, input
      ensures message == old(message) + block && AtBlock(scheme, buf, message)
    {
      CopyIn(0, block);
      assert input[..] == block;
      StepSnoc(scheme, message, block);
      buf := scheme.step(buf, input[..]);
      message := message + block;
    }

    method FeedRest(rest: seq<B>)
      requires input.Length == BLOCK && |rest| < BLOCK && AtBlock(scheme, buf, message)
      modifies this`message, input
      ensures message == old(message) + rest && Running(scheme, buf, input[..], message)
    {
      CopyIn(0, rest);
      Remainder(message, rest);
      message := message + rest;
    }

    method CopyIn(at: nat, bytes: seq<B>)
      requires input.Length == BLOCK && at + |bytes| <= BLOCK
      modifies input
      ensures input[..] == old(input[..])[..at] + bytes + old(input[..])[at + |bytes|..]
    {
      for i := 0 to |bytes|
        invariant input[..] == old(input[..])[..at] + bytes[..i] + old(input[..])[at + i..]
      {
        input[at + i] := bytes[i];
      }
    }

    /** Ends the message with the first byte of padding and zeros, so that the length fills the last block. */
    method Pad(count: nat, ghost length: seq<B>)
      requires |length| == 8 && count == |message| % BLOCK && Running(scheme, buf, input[..], message)
      modifies this`buf, input
      ensures input.Length == BLOCK
      ensures scheme.step(buf, input[..56] + length) == StepAll(scheme, Padded(scheme, message, length))
    {
      ghost var tail := Tail(message);
      CopyIn(count, [scheme.one]);
      var room := BLOCK - 1 - count;
      if room < 8 {
        CopyIn(count + 1, Repeat(scheme.zero, room));
        assert input[..] == tail + [scheme.one] + Repeat(scheme.zero, room);
        TwoMoreBlocks(scheme, message, room, length);
        buf := scheme.step(buf, input[..]);
        CopyIn(0, Repeat(scheme.zero, 56));
        assert input[..56] == Repeat(scheme.zero, 56);
      } else {
        CopyIn(count + 1, Repeat(scheme.zero, room - 8));
        assert input[..56] == tail + [scheme.one] + Repeat(scheme.zero, room - 8);
        OneMoreBlock(scheme, message, room - 8, length);
      }
    }

    /** Pads the message and appends its length; what results is the digest of the whole message. */
    method Final() returns (digest: S)
      requires Valid() && ValidScheme(scheme)
      modifies this, input
      ensures digest == OneShot(scheme, old(message))
      ensures input.Length == BLOCK
    {
      CountedRemainder(bits0, |message|);
      Pad(bits0 / 8 % BLOCK, Length(scheme, |message|));
      ghost var front := input[..56];
      CopyIn(56, scheme.length(bits0, bits1));
      assert input[..] == front + Length(scheme, |message|);
      buf := scheme.step(buf, input[..]);
      digest := buf;
    }
  }

  /** A digest that is begun by the first piece added and given out as text. */
  class Digester<S, B> {
    var isInit: bool
    const ctx: Context<S, B>
    const render: S -> string
    var zResult: string

    ghost predicate Valid()
      reads this, ctx, ctx.input
    {
      ValidScheme(ctx.scheme) && ctx.input.Length == BLOCK && (isInit ==> ctx.Valid())
    }

    constructor (c: Scheme<S, B>, render: S -> string)
      requires ValidScheme(c)
      ensures Valid() && !isInit && zResult == "" && ctx.scheme == c && this.render == render
      ensures fresh(ctx) && fresh(ctx.input)
    {
      isInit, zResult := false, "";
      ctx := new Context(c);
      this.render := render;
    }

    method Add(z: seq<B>)
      requires Valid() && |z| < RANGE32
      modifies this, ctx, ctx.input
      ensures Valid() && isInit && zResult == old(zResult)
      ensures ctx.message == (if old(isInit) then old(ctx.message) else []) + z
    {
      if !isInit {
        ctx.Init();
        isInit := true;
      }
      ctx.Update(z);
    }

    /** The digest of everything added since the last one; without anything added, the last result. */
    method Finish() returns (r: string)
      requires Valid()
      modifies this, ctx, ctx.input
      ensures Valid() && !isInit && r == zResult
      ensures r == if old(isInit) then render(OneShot(ctx.scheme, old(ctx.message))) else old(zResult)
    {
      if isInit {
        var digest := ctx.Final();
        isInit := false;
        zResult := render(digest);
      }
      return zResult;
    }
  }

  function Concat<B>(pieces: seq<seq<B>>): seq<B> {
    if pieces == [] then [] else Concat(pieces[..|pieces| - 1]) + pieces[|pieces| - 1]
  }

  /** However a message is cut into pieces, the digest is that of the whole. */
  method DigestPieces<S, B>(c: Scheme<S, B>, render: S -> string, pieces: seq<seq<B>>) returns (r: string)
    requires ValidScheme(c) && pieces != [] && forall i :: 0 <= i < |pieces| ==> |pieces[i]| < RANGE32
    ensures r == render(OneShot(c, Concat(pieces)))
  {
    var digester := new Digester(c, render);
    for i := 0 to |pieces|
      invariant fresh(digester) && fresh(digester.ctx) && fresh(digester.ctx.input)
      invariant digester.Valid() && digester.ctx.scheme == c && digester.render == render && digester.isInit == (i > 0)
      invariant i > 0 ==> digester.ctx.message == Concat(pieces[..i])
    {
      assert pieces[..i + 1][..i] == pieces[..i];
      digester.Add(pieces[i]);
    }
    assert pieces[..|pieces|] == pieces;
    r := digester.Finish();
  }
}
