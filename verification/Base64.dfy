/**
 Base64 as RFC 4648 section 4 and RFC 2045 section 6.8 define it, and the encoder and decoder
 steps of the codec, whose state survives from one buffer to the next.
 */
module Base64 {
  import opened Octets
  import opened Chars

  /** The public settings of a codec. */
  datatype Config = Config(maxcol: nat, lineend: string, padding: bool)

  // ---- the alphabet ----

  function ToBase64(n: nat): char
    requires n < 64
  {
    if n < 26 then 'A' + n as char
    else if n < 52 then 'a' + (n - 26) as char
    else if n < 62 then '0' + (n - 52) as char
    else if n == 62 then '+' else '/'
  }

  /** 64 is the padding sign, 255 every character outside the alphabet. */
  function FromBase64(c: char): (r: nat)
    ensures r <= 64 || r == 255
  {
    if 'A' <= c <= 'Z' then c as int - 'A' as int
    else if 'a' <= c <= 'z' then c as int - 'a' as int + 26
    else if '0' <= c <= '9' then c as int - '0' as int + 52
    else if c == '+' then 62
    else if c == '/' then 63
    else if c == '=' then 64
    else 255
  }

  lemma AlphabetReadsBack(n: nat)
    requires n < 64
    ensures FromBase64(ToBase64(n)) == n && !IsSpace(ToBase64(n))
  {
  }

  // ---- the text of a byte sequence, without lines ----

  /** The four six bit numbers of three bytes. */
  function First(a: int): (r: nat) ensures r < 64 { a / 4 % 64 }
  function Second(a: int, b: int): (r: nat) ensures r < 64 { (a * 16 + b / 16) % 64 }
  function Third(b: int, c: int): (r: nat) ensures r < 64 { (b * 4 + c / 64) % 64 }
  function Fourth(c: int): (r: nat) ensures r < 64 { c % 64 }

  function Group(a: Byte, b: Byte, c: Byte): (r: string)
    ensures |r| == 4
  {
    [ToBase64(First(a)), ToBase64(Second(a, b)), ToBase64(Third(b, c)), ToBase64(Fourth(c))]
  }

  /** A short last group. */
  function Short(bytes: seq<Byte>, padding: bool): (r: string)
    requires 1 <= |bytes| <= 2
    ensures padding ==> |r| == 4
    ensures 1 <= |r| <= 4
  {
    if |bytes| == 1 then
      [ToBase64(First(bytes[0])), ToBase64(Second(bytes[0], 0))] + (if padding then "==" else "")
    else
      [ToBase64(First(bytes[0])), ToBase64(Second(bytes[0], bytes[1])), ToBase64(Third(bytes[1], 0))]
      + (if padding then "=" else "")
  }

  function Plain(bytes: seq<Byte>, padding: bool): string
    decreases |bytes|
  {
    if bytes == [] then ""
    else if |bytes| <= 2 then Short(bytes, padding)
    else Group(bytes[0], bytes[1], bytes[2]) + Plain(bytes[3..], padding)
  }

  // ---- decoding ----

  /** The three bytes of four numbers, in eight bit arithmetic. */
  function Upper(first: int, second: int): Byte { (first * 4 + second / 16) % 256 }
  function Middle(second: int, third: int): Byte { (second * 16 + third / 4) % 256 }
  function Lower(third: int, fourth: int): Byte { (third * 64 + fourth) % 256 }

  function DecodeGroup(c: string): (r: seq<Byte>)
    requires |c| == 4
    ensures 1 <= |r| <= 3
  {
    var first, second, third, fourth := FromBase64(c[0]), FromBase64(c[1]), FromBase64(c[2]), FromBase64(c[3]);
    [Upper(first, second)]
    + (if third != 64 then [Middle(second, third)] else [])
    + (if fourth != 64 then [Lower(third, fourth)] else [])
  }

  /** All whole groups of a text without white space. */
  function Decode(t: string): seq<Byte>
    decreases |t|
  {
    if |t| < 4 then [] else DecodeGroup(t[..4]) + Decode(t[4..])
  }

  function NonSpace(t: string): string
    decreases |t|
  {
    if t == [] then [] else (if IsSpace(t[0]) then [] else [t[0]]) + NonSpace(t[1..])
  }

  lemma {:induction false} DecodeSplits(a: string, b: string)
    requires |a| % 4 == 0
    ensures Decode(a + b) == Decode(a) + Decode(b)
    decreases |a|
  {
    hide DecodeGroup;
    if a == [] {
      assert a + b == b;
    } else {
      DecodeSplits(a[4..], b);
      assert (a + b)[..4] == a[..4] && (a + b)[4..] == a[4..] + b;
    }
  }

  lemma {:induction false} NonSpaceSplits(a: string, b: string)
    ensures NonSpace(a + b) == NonSpace(a) + NonSpace(b)
    decreases |a|
  {
    hide IsSpace;
    if a == [] {
      assert a + b == b;
    } else {
      NonSpaceSplits(a[1..], b);
      assert (a + b)[1..] == a[1..] + b && (a + b)[0] == a[0];
    }
  }

  predicate NoSpace(t: string) {
    forall i :: 0 <= i < |t| ==> !IsSpace(t[i])
  }

  lemma {:induction false} NonSpaceOfNoSpace(t: string)
    requires NoSpace(t)
    ensures NonSpace(t) == t
    decreases |t|
  {
    if t != [] {
      NonSpaceOfNoSpace(t[1..]);
    }
  }

  lemma {:induction false} NonSpaceOfSpace(t: string)
    requires AllSpace(t)
    ensures NonSpace(t) == []
    decreases |t|
  {
    if t != [] {
      NonSpaceOfSpace(t[1..]);
    }
  }

  // ---- a text without lines decodes to its bytes ----

  lemma SecondIs(p: nat, q: nat, r: nat, s: nat)
    requires q < 4 && r < 16 && s < 16
    ensures Second(4 * p + q, 16 * r + s) == 16 * q + r
  {
    assert (16 * r + s) / 16 == r;
    assert (4 * p + q) * 16 + r == 64 * p + (16 * q + r);
    SixBitsLeft(p, 16 * q + r);
  }

  lemma SixBitsLeft(k: nat, v: nat)
    requires v < 64
    ensures (64 * k + v) % 64 == v
  {
  }

  lemma ThirdIs(r: nat, s: nat, u: nat, w: nat)
    requires s < 16 && u < 4 && w < 64
    ensures Third(16 * r + s, 64 * u + w) == 4 * s + u
  {
    assert (64 * u + w) / 64 == u;
    assert (16 * r + s) * 4 + u == 64 * r + (4 * s + u);
  }

  lemma UpperIs(p: nat, q: nat, r: nat)
    requires p < 64 && q < 4 && r < 16
    ensures Upper(p, 16 * q + r) == 4 * p + q
  {
    assert (16 * q + r) / 16 == q;
  }

  lemma MiddleIs(q: nat, r: nat, s: nat, u: nat)
    requires q < 4 && r < 16 && s < 16 && u < 4
    ensures Middle(16 * q + r, 4 * s + u) == 16 * r + s
  {
    assert (4 * s + u) / 4 == s;
    assert (16 * q + r) * 16 + s == 256 * q + (16 * r + s);
  }

  lemma LowerIs(s: nat, u: nat, w: nat)
    requires s < 16 && u < 4 && w < 64
    ensures Lower(4 * s + u, w) == 64 * u + w
  {
    assert (4 * s + u) * 64 + w == 256 * s + (64 * u + w);
  }

  lemma EndsAre(a: Byte, c: Byte)
    ensures First(a) == a / 4 && Fourth(c) == c % 64
  {
  }

  /** Splitting three bytes into four numbers and back, with eight bit wrap-around. */
  lemma BytesReadBack(a: Byte, b: Byte, c: Byte)
    ensures First(a) == a / 4 && Fourth(c) == c % 64
    ensures Upper(First(a), Second(a, b)) == a
    ensures Middle(Second(a, b), Third(b, c)) == b
    ensures Lower(Third(b, c), Fourth(c)) == c
  {
    hide First, Second, Third, Fourth, Upper, Middle, Lower;
    var p, q, r, s, u, w := a / 4, a % 4, b / 16, b % 16, c / 64, c % 64;
    assert a == 4 * p + q && b == 16 * r + s && c == 64 * u + w;
    EndsAre(a, c);
    SecondIs(p, q, r, s);
    ThirdIs(r, s, u, w);
    UpperIs(p, q, r);
    MiddleIs(q, r, s, u);
    LowerIs(s, u, w);
  }

  lemma GroupReadsBack(a: Byte, b: Byte, c: Byte)
    ensures DecodeGroup(Group(a, b, c)) == [a, b, c]
    ensures NoSpace(Group(a, b, c))
  {
    hide ToBase64, FromBase64, First, Second, Third, Fourth, Upper, Middle, Lower, IsSpace;
    BytesReadBack(a, b, c);
    AlphabetReadsBack(First(a));
    AlphabetReadsBack(Second(a, b));
    AlphabetReadsBack(Third(b, c));
    AlphabetReadsBack(Fourth(c));
  }

  lemma PadSign()
    ensures FromBase64('=') == 64 && !IsSpace('=')
  {
  }

  lemma ShortReadsBack(bytes: seq<Byte>)
    requires 1 <= |bytes| <= 2
    ensures DecodeGroup(Short(bytes, true)) == bytes
    ensures NoSpace(Short(bytes, true))
  {
    hide ToBase64, FromBase64, First, Second, Third, Fourth, Upper, Middle, Lower, IsSpace;
    var a := bytes[0];
    PadSign();
    AlphabetReadsBack(First(a));
    if |bytes| == 1 {
      BytesReadBack(a, 0, 0);
      AlphabetReadsBack(Second(a, 0));
    } else {
      BytesReadBack(a, bytes[1], 0);
      AlphabetReadsBack(Second(a, bytes[1]));
      AlphabetReadsBack(Third(bytes[1], 0));
    }
  }

  lemma {:induction false} PlainReadsBack(bytes: seq<Byte>)
    ensures |Plain(bytes, true)| % 4 == 0 && NoSpace(Plain(bytes, true))
    ensures Decode(Plain(bytes, true)) == bytes
    decreases |bytes|
  {
    hide Group, Short, DecodeGroup, IsSpace;
    var t := Plain(bytes, true);
    if bytes == [] {
    } else if |bytes| <= 2 {
      ShortReadsBack(bytes);
      assert t[..4] == t && t[4..] == "";
    } else {
      var g := Group(bytes[0], bytes[1], bytes[2]);
      GroupReadsBack(bytes[0], bytes[1], bytes[2]);
      PlainReadsBack(bytes[3..]);
      assert t[..4] == g && t[4..] == Plain(bytes[3..], true);
      assert bytes == [bytes[0], bytes[1], bytes[2]] + bytes[3..];
    }
  }
}
