/** The context object: its arrays are changed in place by every update. */
module Md5Context {
  import opened Octets
  import opened Md5

  /** The table the padding is taken from. */
  const PADDING: seq<Byte> := [0x80] + seq(63, _ => 0)

  method EncodeWords(words: seq<Word>) returns (r: seq<Byte>)
    ensures r == Bytes(words)
  {
    hide WordBytes;
    r := [];
    var i := 0;
    while i < |words|
      invariant 0 <= i <= |words|
      invariant r + Bytes(words[i..]) == Bytes(words)
    {
      assert words[i..][1..] == words[i + 1..];
      r := r + WordBytes(words[i]);
      i := i + 1;
    }
  }

  method DecodeWords(b: seq<Byte>) returns (r: seq<Word>)
    requires |b| % 4 == 0
    ensures r == Words(b)
  {
    hide WordOf;
    r := [];
    var j := 0;
    while j < |b|
      invariant 0 <= j <= |b| && j % 4 == 0
      invariant r + Words(b[j..]) == Words(b)
    {
      assert b[j..][..4] == b[j..j + 4] && b[j..][4..] == b[j + 4..];
      r := r + [WordOf(b[j..j + 4])];
      j := j + 4;
    }
  }

  method Copy(source: seq<Byte>, target: array<Byte>, at: nat)
    requires at + |source| <= target.Length
    modifies target
    ensures target[..] == old(target[..])[..at] + source + old(target[..])[at + |source|..]
  {
    var k := 0;
    while k < |source|
      invariant 0 <= k <= |source|
      invariant forall j :: 0 <= j < k ==> target[at + j] == source[j]
      invariant forall j :: 0 <= j < target.Length && !(at <= j < at + k) ==> target[j] == old(target[j])
    {
      target[at + k] := source[k];
      k := k + 1;
    }
  }

  class MD5Context {
    const transform: Transform
    const state: array<Word>
    const count: array<Word>
    const buffer: array<Byte>
    ghost var message: seq<Byte> // everything passed to the updates

    ghost predicate Shaped() {
      state.Length == 4 && count.Length == 2 && buffer.Length == 64 && state != count
    }

    /** What the arrays hold for the message so far. */
    ghost predicate Valid()
      reads this, state, count, buffer
    {
      && Shaped()
      && state[..] == Fold(transform, INIT, message)
      && buffer[..|message| % 64] == Remainder(message)
      && Quotient(count[0], count[1]) == BitCount(|message|)
    }

    constructor (f: Transform)
      ensures Valid() && fresh(state) && fresh(count) && fresh(buffer)
      ensures message == [] && transform == f
    {
      hide Fold, Remainder, BitCount;
      NoMessage(f);
      transform := f;
      state := new Word[4];
      count := new Word[2];
      buffer := new Byte[64];
      message := [];
      new;
      count[0], count[1] := 0, 0;
      SetState(INIT);
    }

    method SetState(s: Quad)
      requires Shaped()
      modifies state
      ensures state[..] == s
    {
      state[0], state[1], state[2], state[3] := s[0], s[1], s[2], s[3];
    }

    method TransformBlock(block: Block)
      requires Shaped()
      modifies state
      ensures state[..] == transform(old(state[..]), block)
    {
      SetState(transform(state[..], block));
    }

    /** The count of bits, in two words with carry. */
    method AddToCount(inputLen: Word)
      requires Shaped() && Quotient(count[0], count[1]) == BitCount(|message|)
      modifies count
      ensures Quotient(count[0], count[1]) == BitCount(|message| + inputLen)
    {
      hide BitCount;
      CountAdds(|message|, inputLen);
      var shifted, top: Word := inputLen * 8 % WORDS, inputLen / 0x2000_0000;
      AddedInTwoSteps(count[1], 0, top);
      AddedInTwoSteps(count[1], 1, top);
      count[0] := (count[0] + shifted) % WORDS;
      if count[0] < shifted {
        count[1] := (count[1] + 1) % WORDS;
      }
      count[1] := (count[1] + top) % WORDS;
    }

    /** Whole blocks of the input from position `i` on. */
    method TransformRest(input: seq<Byte>, first: nat) returns (i: nat)
      requires Shaped() && first <= |input|
      modifies state
      ensures first <= i <= |input| && |input| - i < 64 && (i - first) % 64 == 0
      ensures state[..] == Fold(transform, old(state[..]), input[first..])
    {
      i := first;
      while i + 63 < |input|
        invariant first <= i <= |input| && (i - first) % 64 == 0
        invariant Fold(transform, state[..], input[i..]) == Fold(transform, old(state[..]), input[first..])
      {
        var block := input[i..i + 64];
        assert input[i..][..64] == block && input[i..][64..] == input[i + 64..];
        TransformBlock(block);
        i := i + 64;
      }
    }

    /**
     All whole blocks: one of the buffered bytes and the start of the input, then blocks of the
     input alone.  The bytes from `i` on are to be stored at `index`, behind what stays buffered.
     */
    method Blocks(rest: seq<Byte>, input: seq<Byte>) returns (i: nat, index: nat)
      requires Shaped() && |rest| < 64 && buffer[..|rest|] == rest
      modifies state, buffer
      ensures i <= |input| && index + (|input| - i) < 64
      ensures state[..] == Fold(transform, old(state[..]), rest + input)
      ensures Remainder(rest + input) == buffer[..index] + input[i..]
    {
      hide Fold, Remainder;
      index := |rest|;
      var partLen := 64 - index;
      if |input| >= partLen {
        Copy(input[..partLen], buffer, index);
        assert buffer[..] == rest + input[..partLen];
        TransformBlock(buffer[..]);
        i := TransformRest(input, partLen);
        AfterBlocks(transform, old(state[..]), rest, input, i);
        index := 0;
        assert buffer[..0] + input[i..] == input[i..];
      } else {
        i := 0;
        FoldOfLess(transform, state[..], rest + input);
        ShortRemainder(rest + input);
      }
    }

    /** The loop counter must not wrap around, which it does exactly if the length check fails. */
    method Update(input: seq<Byte>)
      requires Valid() && |message| % 64 + |input| < WORDS
      modifies this, state, count, buffer
      ensures Valid() && message == old(message) + input
    {
      hide Fold, Remainder, BitCount;
      IndexFromCount(|message|);
      FoldOnRemainder(transform, message, input);
      var index := count[0] / 8 % 64;
      var rest := buffer[..index];
      AddToCount(|input|);
      var i;
      i, index := Blocks(rest, input);
      Copy(input[i..], buffer, index);
      message := message + input;
      assert buffer[..|message| % 64] == Remainder(message);
    }

    /** The digest of all that was passed in; the context is wiped. */
    method Final() returns (digest: seq<Byte>)
      requires Valid()
      modifies this, state, count, buffer
      ensures digest == Digest(transform, old(message))
      ensures forall i :: 0 <= i < 64 ==> buffer[i] == 0
      ensures count[..] == [0, 0] && state[..] == [0, 0, 0, 0]
    {
      hide Fold, Remainder, BitCount, Bytes;
      ghost var m := message;
      IndexFromCount(|m|);
      var bits := EncodeWords(count[..]);
      assert count[..] == [count[0], count[1]];
      var index := count[0] / 8 % 64;
      var padLen := if index < 56 then 56 - index else 120 - index;
      assert PADDING[..padLen] == Padding(|m|);
      Update(PADDING[..padLen]);
      Update(bits);
      assert message == Padded(m);
      digest := EncodeWords(state[..]);
      SetState([0, 0, 0, 0]);
      count[0], count[1] := 0, 0;
      Copy(seq(64, _ => 0), buffer, 0);
    }
  }

  lemma NoMessage(f: Transform)
    ensures Fold(f, INIT, []) == INIT && Remainder([]) == [] && BitCount(0) == Quotient(0, 0)
  {
    hide Fold, Remainder, BitCount;
    FoldOfLess(f, INIT, []);
    ShortRemainder([]);
    NoBits();
  }

  lemma NoBits()
    ensures BitCount(0) == Quotient(0, 0)
  {
  }

  lemma AddedInTwoSteps(high: Word, carry: nat, top: Word)
    requires carry <= 1
    ensures ((high + carry) % WORDS + top) % WORDS == (high + carry + top) % WORDS
  {
  }

  lemma ShortRemainder(data: seq<Byte>)
    requires |data| < 64
    ensures Remainder(data) == data
  {
  }

  /** One block from the buffer and the input, then blocks from the input alone. */
  lemma AfterBlocks(f: Transform, s: Quad, rest: seq<Byte>, input: seq<Byte>, i: nat)
    requires |rest| < 64 && 64 - |rest| <= i <= |input| && |input| - i < 64 && (i - (64 - |rest|)) % 64 == 0
    ensures var first := 64 - |rest|;
            Fold(f, s, rest + input) == Fold(f, f(s, rest + input[..first]), input[first..])
    ensures Remainder(rest + input) == input[i..]
  {
    var first := 64 - |rest|;
    var data := rest + input;
    assert data[..64] == rest + input[..first] && data[64..] == input[first..];
    assert (|rest| + i) % 64 == 0;
    assert data == (rest + input[..i]) + input[i..];
    RemainderSkips(rest + input[..i], input[i..]);
    ShortRemainder(input[i..]);
  }
}
