/**
 JSON string literals: the escaping printer of `JsonFormatter::stringOut` and the
 character-at-a-time reader `JsonParser::JsonStringParser`.
 */
module JsonString {
  import opened Chars

  // ---------------------------------------------------------------- printer

  const HEX: string := "0123456789abcdef"

  /** Four lower-case hex digits of a 16-bit value. */
  function Hex4(v: nat): (r: string)
    requires v < 0x10000
    ensures |r| == 4
  {
    var v1 := v / 16;
    var v2 := v1 / 16;
    [HEX[v2 / 16], HEX[v2 % 16], HEX[v1 % 16], HEX[v % 16]]
  }

  function UnicodeEscape(v: nat): (r: string)
    requires v < 0x10000
    ensures |r| == 6 && r[0] == '\\'
  {
    "\\u" + Hex4(v)
  }

  function HighSurrogate(v: nat): (r: nat)
    requires 0x10000 <= v < 0x110000
    ensures 0xD800 <= r < 0xDC00
  {
    (v - 0x10000) / 0x400 + 0xD800
  }

  function LowSurrogate(v: nat): (r: nat)
    requires 0x10000 <= v < 0x110000
    ensures 0xDC00 <= r < 0xE000
  {
    (v - 0x10000) % 0x400 + 0xDC00
  }

  function EscapeChar(c: char): (r: string)
    ensures r != [] && r[0] != '"'
  {
    if c == '"' then "\\\""
    else if c == '\\' then "\\\\"
    else if c == 8 as char then "\\b"
    else if c == 12 as char then "\\f"
    else if c == '\n' then "\\n"
    else if c == '\r' then "\\r"
    else if c == '\t' then "\\t"
    else if c as int >= 0x10000 then
      UnicodeEscape(HighSurrogate(c as int)) + UnicodeEscape(LowSurrogate(c as int))
    else if c as int >= 0x80 || c as int < 0x20 then UnicodeEscape(c as int)
    else [c]
  }

  /** What `stringOut` writes for a string; for a `std::string`, one escape per byte. */
  function Escape(s: string): string {
    if s == [] then [] else EscapeChar(s[0]) + Escape(s[1..])
  }

  // ---------------------------------------------------------------- reader

  datatype StringState =
    | Plain
    | Esc
    | Hex
    | HighSurrogate0
    | LowSurrogate0
    | HighSurrogateEsc
    | LowSurrogateEsc
    | HighSurrogateHex
    | LowSurrogateHex
  {
    predicate InHex() { Hex? || HighSurrogateHex? || LowSurrogateHex? }
  }

  /** The fields of the reader; `count`, `value` and `surrogate` are unset until used. */
  datatype StringParser = StringParser(state: StringState, str: string, count: nat, value: nat, surrogate: nat)
  {
    /** What every reachable reader satisfies: the 16-bit accumulator cannot overflow. */
    predicate Valid() {
      && (state.InHex() ==> 1 <= count <= 4 && value < Room(count))
      && surrogate < 0x10000
    }

    predicate Clean() { state == Plain && str == [] }

    function Clear(): (r: StringParser)
      ensures r.Clean() && (Valid() ==> r.Valid())
    {
      this.(state := Plain, str := [])
    }
  }

  /** One more than the largest value still possible with `count` hex digits to go. */
  function Room(count: nat): (r: nat)
    ensures count <= 4 ==> r <= 0x10000
  {
    if count == 4 then 1 else if count == 3 then 0x10 else if count == 2 then 0x100
    else if count == 1 then 0x1000 else 0x10000
  }

  datatype StringStep = StringError | StringStep(done: bool, sp: StringParser)

  /** The value of a hex digit in either case, or -1. */
  function HexDigit(c: char): (r: int)
    ensures -1 <= r < 16
  {
    if '0' <= c <= '9' then c as int - '0' as int
    else if 'a' <= c <= 'f' then c as int - 'a' as int + 10
    else if 'A' <= c <= 'F' then c as int - 'A' as int + 10
    else -1
  }

  /** `(v & 0xfc00) == 0xd800` and `(v & 0xfc00) == 0xdc00`. */
  predicate IsHighUnit(v: nat) { v / 0x400 % 0x40 == 0x36 }
  predicate IsLowUnit(v: nat) { v / 0x400 % 0x40 == 0x37 }

  function FromUtf16(lo: nat, hi: nat): (c: char)
    ensures 0x10000 <= c as int
  {
    (hi % 0x400 * 0x400 + lo % 0x400 + 0x10000) as char
  }

  function ShortEscape(ch: char): (r: string)
    ensures |r| <= 1
  {
    if ch == '"' || ch == '\\' || ch == '/' then [ch]
    else if ch == 'b' then [8 as char]
    else if ch == 'f' then [12 as char]
    else if ch == 'n' then "\n"
    else if ch == 'r' then "\r"
    else if ch == 't' then "\t"
    else []
  }

  /** The end of a four-digit group: what the completed `value` means in each hex state. */
  function FinishHex(sp: StringParser, value: nat): (r: StringStep)
    requires sp.state.InHex() && value < 0x10000 && sp.surrogate < 0x10000
    ensures r.StringStep? ==> !r.done && r.sp.Valid() && !r.sp.state.InHex()
  {
    var s := sp.(value := value, count := 0);
    match sp.state
    case Hex =>
      if IsHighUnit(value) then StringStep(false, s.(state := HighSurrogate0, surrogate := value))
      else if IsLowUnit(value) then StringStep(false, s.(state := LowSurrogate0, surrogate := value))
      else StringStep(false, s.(state := Plain, str := s.str + [value as char]))
    case LowSurrogateHex =>
      if !IsHighUnit(value) then StringError
      else StringStep(false, s.(state := Plain, str := s.str + [FromUtf16(s.surrogate, value)]))
    case HighSurrogateHex =>
      if !IsLowUnit(value) then StringError
      else StringStep(false, s.(state := Plain, str := s.str + [FromUtf16(value, s.surrogate)]))
  }

  /** One call of `JsonStringParser::advance`; `done` means the closing quote was read. */
  function Advance(sp: StringParser, ch: char): (r: StringStep)
    requires sp.Valid()
    ensures r.StringStep? ==> r.sp.Valid()
    ensures r.StringStep? && r.done ==> ch == '"' && r.sp == sp && sp.state == Plain
  {
    match sp.state
    case Plain =>
      if ch == '\\' then StringStep(false, sp.(state := Esc))
      else if ch == '"' then StringStep(true, sp)
      else StringStep(false, sp.(str := sp.str + [ch]))
    case Esc =>
      if ch == 'u' then StringStep(false, sp.(state := Hex, value := 0, count := 4))
      else if ShortEscape(ch) == [] then StringError
      else StringStep(false, sp.(state := Plain, str := sp.str + ShortEscape(ch)))
    case Hex | LowSurrogateHex | HighSurrogateHex =>
      if HexDigit(ch) < 0 then StringError
      else
        var value := sp.value * 16 + HexDigit(ch);
        if sp.count == 1 then FinishHex(sp, value)
        else StringStep(false, sp.(value := value, count := sp.count - 1))
    case LowSurrogate0 | HighSurrogate0 =>
      if ch != '\\' then StringError
      else StringStep(false, sp.(state := if sp.state == LowSurrogate0 then LowSurrogateEsc else HighSurrogateEsc))
    case LowSurrogateEsc | HighSurrogateEsc =>
      if ch != 'u' then StringError
      else StringStep(false, sp.(value := 0, count := 4,
                                 state := if sp.state == LowSurrogateEsc then LowSurrogateHex else HighSurrogateHex))
  }

  /** Feeds characters until the closing quote; input after the quote is an error. */
  function Feed(sp: StringParser, s: string): (r: StringStep)
    requires sp.Valid()
    ensures r.StringStep? ==> r.sp.Valid()
    decreases |s|
  {
    if s == [] then StringStep(false, sp)
    else match Advance(sp, s[0])
      case StringError => StringError
      case StringStep(done, sp') =>
        if done then (if |s| == 1 then StringStep(true, sp') else StringError)
        else Feed(sp', s[1..])
  }

  lemma {:induction false} FeedConcat(sp: StringParser, a: string, b: string)
    requires sp.Valid() && Feed(sp, a).StringStep? && !Feed(sp, a).done
    ensures Feed(sp, a + b) == Feed(Feed(sp, a).sp, b)
    decreases |a|
  {
    if a == [] {
      assert a + b == b;
    } else {
      assert (a + b)[1..] == a[1..] + b;
      FeedConcat(Advance(sp, a[0]).sp, a[1..], b);
    }
  }

  /** Printing and reading one 16-bit group are inverse. */
  lemma Hex4Digits(v: nat)
    requires v < 0x10000
    ensures var h := Hex4(v);
            && (forall i :: 0 <= i < 4 ==> HexDigit(h[i]) >= 0)
            && v == ((HexDigit(h[0]) * 16 + HexDigit(h[1])) * 16 + HexDigit(h[2])) * 16 + HexDigit(h[3])
  {
    var v1 := v / 16;
    var v2 := v1 / 16;
    HexDigits(v2 / 16);
    HexDigits(v2 % 16);
    HexDigits(v1 % 16);
    HexDigits(v % 16);
  }

  lemma ScalarUnit(v: nat)
    requires v < 0x10000 && IsScalar(v)
    ensures !IsHighUnit(v) && !IsLowUnit(v)
  {
  }

  lemma HexDigits(d: nat)
    requires d < 16
    ensures HexDigit(HEX[d]) == d
  {
  }

  /** A four-digit group, digit by digit. */
  lemma HexStep(sp: StringParser, c: char)
    requires sp.Valid() && sp.state.InHex() && sp.count > 1 && HexDigit(c) >= 0
    ensures var sp' := sp.(value := sp.value * 16 + HexDigit(c), count := sp.count - 1);
            sp'.Valid() && Advance(sp, c) == StringStep(false, sp')
  {
  }

  lemma LastHexStep(sp: StringParser, c: char)
    requires sp.Valid() && sp.state.InHex() && sp.count == 1 && HexDigit(c) >= 0
    ensures sp.value * 16 + HexDigit(c) < 0x10000 && Advance(sp, c) == FinishHex(sp, sp.value * 16 + HexDigit(c))
  {
  }

  lemma FeedHexDigits(sp: StringParser, h: string, v: nat)
    requires sp.Valid() && sp.state.InHex() && sp.count == 4 && sp.value == 0 && |h| == 4
    requires forall i :: 0 <= i < 4 ==> HexDigit(h[i]) >= 0
    requires v == ((HexDigit(h[0]) * 16 + HexDigit(h[1])) * 16 + HexDigit(h[2])) * 16 + HexDigit(h[3])
    ensures v < 0x10000 && Feed(sp, h) == FinishHex(sp, v)
  {
    hide Feed, Advance, HexDigit;
    HexStep(sp, h[0]);
    var s1 := sp.(value := HexDigit(h[0]), count := 3);
    HexStep(s1, h[1]);
    var s2 := s1.(value := s1.value * 16 + HexDigit(h[1]), count := 2);
    HexStep(s2, h[2]);
    var s3 := s2.(value := s2.value * 16 + HexDigit(h[2]), count := 1);
    LastHexStep(s3, h[3]);
    var t1, t2, t3 := [h[1]] + ([h[2]] + ([h[3]] + [])), [h[2]] + ([h[3]] + []), [h[3]] + [];
    assert h == [h[0]] + t1;
    FeedOne(sp, s1, h[0], t1);
    FeedOne(s1, s2, h[1], t2);
    FeedOne(s2, s3, h[2], t3);
    FeedLast(s3, h[3]);
  }

  lemma FeedHex4(sp: StringParser, v: nat)
    requires sp.Valid() && sp.state.InHex() && sp.count == 4 && sp.value == 0 && v < 0x10000
    ensures Feed(sp, Hex4(v)) == FinishHex(sp, v)
  {
    Hex4Digits(v);
    FeedHexDigits(sp, Hex4(v), v);
  }

  lemma FeedOne(sp: StringParser, sp': StringParser, c: char, rest: string)
    requires sp.Valid() && Advance(sp, c) == StringStep(false, sp')
    ensures Feed(sp, [c] + rest) == Feed(sp', rest)
  {
    assert ([c] + rest)[1..] == rest;
  }

  lemma FeedLast(sp: StringParser, c: char)
    requires sp.Valid()
    ensures Feed(sp, [c] + []) == Advance(sp, c)
  {
    assert ([c] + [])[1..] == [];
  }

  lemma FeedUnicodeEscape(sp: StringParser, v: nat)
    requires sp.Valid() && sp.state == Plain && v < 0x10000
    ensures Feed(sp, UnicodeEscape(v)) == FinishHex(sp.(state := Hex, value := 0, count := 4), v)
  {
    var s1 := sp.(state := Esc);
    var s2 := sp.(state := Hex, value := 0, count := 4);
    assert UnicodeEscape(v) == "\\" + ("u" + Hex4(v));
    FeedOne(sp, s1, '\\', "u" + Hex4(v));
    FeedOne(s1, s2, 'u', Hex4(v));
    FeedHex4(s2, v);
  }

  lemma SurrogatesInvert(c: char)
    requires c as int >= 0x10000
    ensures var hi, lo := HighSurrogate(c as int), LowSurrogate(c as int);
            IsHighUnit(hi) && IsLowUnit(lo) && FromUtf16(lo, hi) == c
  {
  }

  /** The second half of a pair, read after a high surrogate has been stored. */
  lemma FeedLowHalf(sp: StringParser, lo: nat)
    requires sp.Valid() && sp.state == HighSurrogate0 && lo < 0x10000 && IsLowUnit(lo)
    ensures var r := Feed(sp, UnicodeEscape(lo));
            r.StringStep? && !r.done && r.sp.state == Plain && r.sp.str == sp.str + [FromUtf16(lo, sp.surrogate)]
  {
    var s2 := sp.(state := HighSurrogateEsc);
    var s3 := sp.(state := HighSurrogateHex, value := 0, count := 4);
    assert UnicodeEscape(lo) == "\\" + ("u" + Hex4(lo));
    FeedOne(sp, s2, '\\', "u" + Hex4(lo));
    FeedOne(s2, s3, 'u', Hex4(lo));
    FeedHex4(s3, lo);
  }

  lemma FeedSurrogatePair(sp: StringParser, c: char)
    requires sp.Valid() && sp.state == Plain && c as int >= 0x10000
    ensures var r := Feed(sp, EscapeChar(c));
            r.StringStep? && !r.done && r.sp.state == Plain && r.sp.str == sp.str + [c]
  {
    hide Feed, Advance, UnicodeEscape, FromUtf16;
    var hi, lo := HighSurrogate(c as int), LowSurrogate(c as int);
    SurrogatesInvert(c);
    FeedUnicodeEscape(sp, hi);
    FeedConcat(sp, UnicodeEscape(hi), UnicodeEscape(lo));
    FeedLowHalf(Feed(sp, UnicodeEscape(hi)).sp, lo);
  }

  lemma FeedUnicodeScalar(sp: StringParser, c: char)
    requires sp.Valid() && sp.state == Plain && c as int < 0x10000
    ensures var r := Feed(sp, UnicodeEscape(c as int));
            r.StringStep? && !r.done && r.sp.state == Plain && r.sp.str == sp.str + [c]
  {
    ScalarUnit(c as int);
    FeedUnicodeEscape(sp, c as int);
  }

  lemma FeedShortEscape(sp: StringParser, e: char, c: char)
    requires sp.Valid() && sp.state == Plain && e != 'u' && ShortEscape(e) == [c]
    ensures Feed(sp, ['\\', e]) == StringStep(false, sp.(str := sp.str + [c]))
  {
    var s1 := sp.(state := Esc);
    assert ['\\', e] == ['\\'] + ([e] + []);
    FeedOne(sp, s1, '\\', [e] + []);
    FeedLast(s1, e);
  }

  lemma FeedBareChar(sp: StringParser, c: char)
    requires sp.Valid() && sp.state == Plain && c != '"' && c != '\\'
    ensures Feed(sp, [c] + []) == StringStep(false, sp.(str := sp.str + [c]))
  {
    FeedLast(sp, c);
  }

  lemma FeedEscapeChar(sp: StringParser, c: char)
    requires sp.Valid() && sp.state == Plain
    ensures var r := Feed(sp, EscapeChar(c));
            r.StringStep? && !r.done && r.sp.state == Plain && r.sp.str == sp.str + [c]
  {
    hide Feed, Advance, UnicodeEscape;
    if c as int >= 0x10000 {
      FeedSurrogatePair(sp, c);
    } else if EscapeChar(c) == UnicodeEscape(c as int) {
      FeedUnicodeScalar(sp, c);
    } else if |EscapeChar(c)| == 2 {
      FeedShortEscape(sp, EscapeChar(c)[1], c);
    } else {
      assert EscapeChar(c) == [c] + [];
      FeedBareChar(sp, c);
    }
  }

  /** Reading escaped text appends exactly the characters that were escaped. */
  lemma {:induction false} FeedEscape(sp: StringParser, s: string)
    requires sp.Valid() && sp.state == Plain
    ensures var r := Feed(sp, Escape(s));
            r.StringStep? && !r.done && r.sp.state == Plain && r.sp.str == sp.str + s
    decreases |s|
  {
    hide Advance, EscapeChar;
    if s == [] {
    } else {
      FeedEscapeChar(sp, s[0]);
      var r := Feed(sp, EscapeChar(s[0]));
      FeedConcat(sp, EscapeChar(s[0]), Escape(s[1..]));
      FeedEscape(r.sp, s[1..]);
      assert sp.str + [s[0]] + s[1..] == sp.str + s;
    }
  }

  /** The string literal round trip: escape, add the closing quote, read back. */
  lemma StringRoundTrip(sp: StringParser, s: string)
    requires sp.Valid() && sp.Clean()
    ensures var r := Feed(sp, Escape(s) + "\"");
            r.StringStep? && r.done && r.sp.str == s && r.sp.state == Plain
  {
    FeedEscape(sp, s);
    FeedConcat(sp, Escape(s), "\"");
  }
}
