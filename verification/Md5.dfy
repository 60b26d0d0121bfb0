/**
 The message digest context of RFC 1321: what a context holds after any sequence of updates, and
 what the digest is a digest of.  The transformation of one block is a parameter.
 */
module Md5 {
  import opened Octets

  type Word = x: int | 0 <= x < 0x1_0000_0000

  const WORDS: int := 0x1_0000_0000
  const LONGS: int := 0x1_0000_0000_0000_0000

  type Quad = s: seq<Word> | |s| == 4 witness [0, 0, 0, 0]
  type Block = b: seq<Byte> | |b| == 64 witness seq(64, _ => 0)
  type Transform = (Quad, Block) -> Quad

  const INIT: Quad := [0x67452301, 0xefcdab89, 0x98badcfe, 0x10325476]

  /** The whole blocks of the data, one after the other. */
  function Fold(f: Transform, s: Quad, data: seq<Byte>): Quad
    decreases |data|
  {
    if |data| < 64 then s else Fold(f, f(s, data[..64]), data[64..])
  }

  /** The bytes behind the last whole block. */
  function Remainder(data: seq<Byte>): (r: seq<Byte>)
    ensures |r| == |data| % 64
  {
    data[|data| / 64 * 64..]
  }

  lemma {:induction false} FoldSplits(f: Transform, s: Quad, a: seq<Byte>, b: seq<Byte>)
    requires |a| % 64 == 0
    ensures Fold(f, s, a + b) == Fold(f, Fold(f, s, a), b)
    decreases |a|
  {
    if a == [] {
      assert a + b == b;
    } else {
      FoldSplits(f, f(s, a[..64]), a[64..], b);
      assert (a + b)[..64] == a[..64] && (a + b)[64..] == a[64..] + b;
    }
  }

  lemma WholeAndRemainder(data: seq<Byte>)
    ensures var k := |data| / 64 * 64;
            k % 64 == 0 && k <= |data| && data[..k] + Remainder(data) == data && |Remainder(data)| < 64
  {
  }

  /** Only the remainder matters for what follows. */
  lemma FoldOnRemainder(f: Transform, m: seq<Byte>, input: seq<Byte>)
    ensures Fold(f, INIT, m + input) == Fold(f, Fold(f, INIT, m), Remainder(m) + input)
    ensures Remainder(m + input) == Remainder(Remainder(m) + input)
  {
    hide Fold, Remainder;
    var k := |m| / 64 * 64;
    var whole, rest := m[..k], Remainder(m);
    WholeAndRemainder(m);
    assert m + input == whole + (rest + input);
    FoldSplits(f, INIT, whole, rest + input);
    FoldSplits(f, INIT, whole, rest);
    FoldOfLess(f, Fold(f, INIT, whole), rest);
    RemainderSkips(whole, rest + input);
  }

  lemma FoldOfLess(f: Transform, s: Quad, data: seq<Byte>)
    requires |data| < 64
    ensures Fold(f, s, data) == s
  {
  }

  lemma RemainderSkips(a: seq<Byte>, b: seq<Byte>)
    requires |a| % 64 == 0
    ensures Remainder(a + b) == Remainder(b)
  {
    var n, m := |a + b|, |b|;
    assert n / 64 * 64 == |a| + m / 64 * 64;
    assert (a + b)[n / 64 * 64..] == b[m / 64 * 64..];
  }

  // ---- little-endian words ----

  function WordBytes(w: Word): (r: seq<Byte>)
    ensures |r| == 4
  {
    [w % 256, w / 256 % 256, w / 65536 % 256, w / 16777216 % 256]
  }

  function WordOf(b: seq<Byte>): Word
    requires |b| == 4
  {
    var w: int, x: int, y: int, z: int := b[0], b[1], b[2], b[3];
    w + 256 * x + 65536 * y + 16777216 * z
  }

  function Bytes(words: seq<Word>): (r: seq<Byte>)
    ensures |r| == 4 * |words|
  {
    if words == [] then [] else WordBytes(words[0]) + Bytes(words[1..])
  }

  function Words(b: seq<Byte>): (r: seq<Word>)
    requires |b| % 4 == 0
    ensures 4 * |r| == |b|
    decreases |b|
  {
    if b == [] then [] else [WordOf(b[..4])] + Words(b[4..])
  }

  lemma WordReadsBack(w: Word)
    ensures WordOf(WordBytes(w)) == w
  {
    var a, b, c := w / 256, w / 65536, w / 16777216;
    assert a / 256 == b && b / 256 == c;
    assert w == 256 * a + w % 256 && a == 256 * b + a % 256 && b == 256 * c + b % 256;
  }

  lemma {:induction false} WordsReadBack(words: seq<Word>)
    ensures Words(Bytes(words)) == words
  {
    hide WordOf, WordBytes;
    if words != [] {
      var b := Bytes(words);
      assert b[..4] == WordBytes(words[0]) && b[4..] == Bytes(words[1..]);
      WordReadsBack(words[0]);
      WordsReadBack(words[1..]);
    }
  }

  // ---- padding ----

  /** The number of bits in two words, low word first. */
  function BitCount(length: nat): Quotient {
    var bits := 8 * length % LONGS;
    Quotient(bits % WORDS, bits / WORDS)
  }

  datatype Quotient = Quotient(low: Word, high: Word)

  /** Section 3.1 of RFC 1321: a one bit and zeros up to 56 bytes modulo 64. */
  function Padding(length: nat): (r: seq<Byte>)
    ensures |r| >= 1 && (length + |r|) % 64 == 56
  {
    var index := length % 64;
    var n := if index < 56 then 56 - index else 120 - index;
    [0x80] + seq(n - 1, _ => 0)
  }

  /** Sections 3.1 and 3.2: padding, then the length of the message in bits. */
  function Padded(m: seq<Byte>): seq<Byte> {
    var c := BitCount(|m|);
    m + Padding(|m|) + Bytes([c.low, c.high])
  }

  lemma PaddedIsWhole(m: seq<Byte>)
    ensures |Padded(m)| == |m| + |Padding(|m|)| + 8
    ensures |Padded(m)| % 64 == 0
  {
    hide Padding, BitCount;
  }

  /** The digest of a message. */
  function Digest(f: Transform, m: seq<Byte>): (r: seq<Byte>)
    ensures |r| == 16
  {
    Bytes(Fold(f, INIT, Padded(m)))
  }

  /** Two words with carry: adding the bits of an update to the count of those before. */
  lemma CountAdds(length: nat, more: Word)
    ensures var c := BitCount(length);
            var shifted := more * 8 % WORDS;
            var low := (c.low + shifted) % WORDS;
            var carry := if low < shifted then 1 else 0;
            BitCount(length + more) == Quotient(low, (c.high + carry + more / 0x2000_0000) % WORDS)
  {
    var c := BitCount(length);
    var shifted, top := more * 8 % WORDS, more / 0x2000_0000;
    assert 8 * more == shifted + WORDS * top;
    var bits := 8 * length % LONGS;
    assert bits == c.low + WORDS * c.high;
    var sum := bits + 8 * more;
    SameResidue(8 * (length + more), sum, 8 * length / LONGS);
    SumInWords(c.low, c.high, shifted, top);
  }

  lemma SameResidue(u: int, v: int, q: int)
    requires u == v + q * LONGS
    ensures u % LONGS == v % LONGS
  {
    assert u == (v / LONGS + q) * LONGS + v % LONGS;
  }

  lemma SumInWords(low: Word, high: Word, shifted: Word, top: Word)
    ensures var sum := (low + WORDS * high + shifted + WORDS * top) % LONGS;
            var l := (low + shifted) % WORDS;
            var carry := if l < shifted then 1 else 0;
            sum % WORDS == l && sum / WORDS == (high + carry + top) % WORDS
  {
    var l := (low + shifted) % WORDS;
    var carry := if l < shifted then 1 else 0;
    assert low + shifted == l + WORDS * carry;
    var h := high + carry + top;
    assert low + WORDS * high + shifted + WORDS * top == l + WORDS * h;
    TwoWords(l, h);
  }

  lemma TwoWords(l: int, h: int)
    requires 0 <= l < WORDS && h >= 0
    ensures (l + WORDS * h) % LONGS == l + WORDS * (h % WORDS)
  {
    assert h == WORDS * (h / WORDS) + h % WORDS;
    SameResidue(l + WORDS * h, l + WORDS * (h % WORDS), h / WORDS);
  }

  /** The position in the buffer, as it is computed from the bit count. */
  lemma IndexFromCount(length: nat)
    ensures BitCount(length).low / 8 % 64 == length % 64
  {
    var bits := 8 * length;
    var q, r := bits / LONGS, bits % LONGS;
    LowOfBits(length, q, r / WORDS, r % WORDS);
  }

  lemma LowOfBits(length: nat, q: nat, high: nat, low: nat)
    requires 8 * length == LONGS * q + WORDS * high + low && low < WORDS
    ensures low / 8 % 64 == length % 64
  {
    var k := 0x80_0000_0000_0000 * q + 0x80_0000 * high;
    assert length == 64 * k + low / 8;
    BlocksDoNotCount(k, low / 8);
  }

  lemma BlocksDoNotCount(k: nat, v: nat)
    ensures (64 * k + v) % 64 == v % 64
  {
  }

  /** Exactly when the loop counter of an update runs past the range of an unsigned number. */
  lemma CounterWraps(index: nat, inputLen: Word)
    requires index < 64 && inputLen >= 64 - index
    ensures (exists k: nat :: (64 - index) + 64 * k <= inputLen && (64 - index) + 64 * k + 63 >= WORDS)
            <==> index + inputLen >= WORDS
  {
    if index + inputLen >= WORDS {
      var k := 0x400_0000 - 1;
      assert (64 - index) + 64 * k <= inputLen && (64 - index) + 64 * k + 63 >= WORDS;
    }
  }
}
