/**
 Reading back what was printed by the same format: exactly which fields survive, and exactly
 which formats and values make the whole date or time survive.
 */
module DateRoundTrip {
  import opened Wrappers
  import opened Calendar
  import opened Chars
  import opened DateFormat

  predicate IsCode(timed: bool, ch: char) {
    ch in "YmOd" || (timed && ch in "HIMSpkKuUjJ")
  }

  /** The codes for fractions of a second. */
  predicate IsMicro(ch: char) {
    ch in "kKuUjJ"
  }

  /** Codes that print as many digits as are needed, and use up the microseconds. */
  predicate IsOpenEnded(ch: char) {
    ch == 'j' || ch == 'J'
  }

  /** What may follow an open ended code: the end, or text that cannot be taken for more digits. */
  predicate Closes(fmt: string) {
    || fmt == []
    || (fmt[0] != '%' && !IsDigit(fmt[0]) && fmt[0] != '.')
    || (|fmt| >= 2 && fmt[0] == '%' && fmt[1] in "Op")
  }

  /**
   Formats of literals and codes that the printer and the reader both know, with no code for
   fractions behind one that uses up the microseconds; `intact` if there was none so far.
   */
  predicate SupportedFrom(timed: bool, fmt: string, intact: bool)
    decreases |fmt|
  {
    || fmt == []
    || (fmt[0] !in "%*#" && SupportedFrom(timed, fmt[1..], intact))
    || (|fmt| >= 2 && fmt[0] == '%' && IsCode(timed, fmt[1]) && (IsMicro(fmt[1]) ==> intact)
        && (IsOpenEnded(fmt[1]) ==> Closes(fmt[2..]))
        && SupportedFrom(timed, fmt[2..], intact && !IsOpenEnded(fmt[1])))
  }

  predicate Supported(timed: bool, fmt: string) {
    SupportedFrom(timed, fmt, true)
  }

  /** A dot and the digits of the microseconds down to the last that is not zero. */
  function FractionText(usec: nat): string
    requires usec < 1_000_000
  {
    "." + [Digit(usec / 100000)] + Fraction(usec % 100000, 10000)
  }

  /** The piece of text for a code. */
  function Piece(timed: bool, ch: char, s: Stamp): string
    requires IsStamp(s) && IsCode(timed, ch)
  {
    if IsOpenEnded(ch) then (if ch == 'j' && s.usec == 0 then "" else FractionText(s.usec))
    else CodeText(timed, ch, s, s.usec).value
  }

  /** What a format prints, piece by piece. */
  function Text(timed: bool, fmt: string, s: Stamp, intact: bool): string
    requires IsStamp(s) && SupportedFrom(timed, fmt, intact)
    decreases |fmt|
  {
    if fmt == [] then []
    else if fmt[0] == '%' then Piece(timed, fmt[1], s) + Text(timed, fmt[2..], s, intact && !IsOpenEnded(fmt[1]))
    else [fmt[0]] + Text(timed, fmt[1..], s, intact)
  }

  lemma PieceExists(timed: bool, ch: char, s: Stamp)
    requires IsStamp(s) && IsCode(timed, ch)
    ensures !IsOpenEnded(ch) ==> CodeText(timed, ch, s, s.usec).Some?
    ensures !timed ==> |Piece(timed, ch, s)| > 0
  {
  }

  /** Only two codes print the variable that can be used up. */
  lemma CodeTextIgnores(timed: bool, ch: char, s: Stamp, usec: nat)
    requires IsStamp(s) && IsCode(timed, ch) && !IsMicro(ch)
    ensures CodeText(timed, ch, s, usec) == CodeText(timed, ch, s, s.usec)
  {
  }

  /** Printing one code. */
  lemma PrintsPiece(timed: bool, ch: char, s: Stamp, out: string, usec: nat)
    requires IsStamp(s) && IsCode(timed, ch) && usec < 1_000_000 && (IsMicro(ch) ==> usec == s.usec)
    ensures var p := PrintCode(timed, ch, s, Printer(Code, out, usec));
            p.mode == Plain && p.out == out + Piece(timed, ch, s) && p.usec < 1_000_000 && (!IsOpenEnded(ch) ==> p.usec == usec)
  {
    PieceExists(timed, ch, s);
    if !IsMicro(ch) {
      CodeTextIgnores(timed, ch, s, usec);
      hide CodeText, Fraction;
    } else if IsOpenEnded(ch) {
      hide Fraction;
      NoText(timed, ch, s, usec);
      assert out + "." + [Digit(usec / 100000)] + Fraction(usec % 100000, 10000) == out + FractionText(usec);
      assert out + "" == out;
    } else {
      hide CodeText, Fraction;
    }
  }

  lemma NoText(timed: bool, ch: char, s: Stamp, usec: nat)
    requires IsStamp(s) && IsOpenEnded(ch)
    ensures CodeText(timed, ch, s, usec) == None
  {
  }

  lemma {:induction false} PrintsText(timed: bool, fmt: string, s: Stamp, out: string, usec: nat, intact: bool)
    requires IsStamp(s) && SupportedFrom(timed, fmt, intact) && usec < 1_000_000 && (intact ==> usec == s.usec)
    ensures var p := PrintRun(timed, fmt, s, Printer(Plain, out, usec));
            p.mode == Plain && p.out == out + Text(timed, fmt, s, intact)
    decreases |fmt|
  {
    hide PrintCode, Piece, IsValid, IsCode;
    var p := Printer(Plain, out, usec);
    if fmt == [] {
      assert out + [] == out;
    } else if fmt[0] == '%' {
      var ch := fmt[1];
      var piece, more := Piece(timed, ch, s), Text(timed, fmt[2..], s, intact && !IsOpenEnded(ch));
      PrintsPiece(timed, ch, s, out, usec);
      var p1 := PrintStep(timed, '%', s, p);
      var p2 := PrintStep(timed, ch, s, p1);
      assert fmt[1..][1..] == fmt[2..] && fmt[1..][0] == ch;
      PrintsText(timed, fmt[2..], s, out + piece, p2.usec, intact && !IsOpenEnded(ch));
      assert out + piece + more == out + (piece + more);
    } else {
      PrintsText(timed, fmt[1..], s, out + [fmt[0]], usec, intact);
      assert out + [fmt[0]] + Text(timed, fmt[1..], s, intact) == out + ([fmt[0]] + Text(timed, fmt[1..], s, intact));
    }
  }

  // ---- the pieces read back ----

  lemma {:induction false} DigitRunOfDigits(d: string, tail: string)
    requires AllDigits(d)
    ensures DigitRun(d + tail, |d|) == |d|
  {
    if d != [] {
      DigitRunOfDigits(d[1..], tail);
      assert (d + tail)[1..] == d[1..] + tail;
    }
  }

  lemma ValueOfDigit(v: nat)
    requires v < 10
    ensures IsDigit(Digit(v)) && DigitValue(Digit(v)) == v
  {
  }

  lemma ValueByLast(n: nat, v: nat)
    requires n > 0
    ensures Value(Dn(n, v)) == Value(Dn(n - 1, v / 10)) * 10 + v % 10
  {
    assert Dn(n, v)[..n - 1] == Dn(n - 1, v / 10);
    ValueOfDigit(v % 10);
  }

  lemma ValueOfTwo(v: nat)
    ensures Value(Dn(2, v)) == v % 100
  {
    hide Dn, Value;
    ValueByLast(2, v);
    ValueByLast(1, v / 10);
    ValueOfNone(v / 10 / 10);
  }

  lemma ValueOfNone(v: nat)
    ensures Value(Dn(0, v)) == 0
  {
  }

  lemma DivByTens(v: nat)
    ensures v / 10 / 10 == v / 100
    ensures v / 10 / 10 / 10 == v / 1000
  {
  }

  lemma TwoPairs(v: nat)
    ensures v / 100 % 100 * 100 + v % 100 == v % 10000
  {
    var q := v / 100;
    var p, s, r := q / 100, q % 100, v % 100;
    assert q == 100 * p + s && v == 100 * q + r;
    PairSum(p, s, r);
  }

  lemma PairSum(p: nat, s: nat, r: nat)
    requires s < 100 && r < 100
    ensures (10000 * p + 100 * s + r) % 10000 == 100 * s + r
  {
  }

  lemma ThreeDigits(v: nat)
    ensures v == 100 * (v / 100) + 10 * (v / 10 % 10) + v % 10
  {
    DivByTens(v);
  }

  lemma TwoOfPair(v: nat)
    ensures v / 10 % 10 * 10 + v % 10 == v % 100
  {
  }

  lemma ValueOfFour(v: nat)
    ensures Value(Dn(4, v)) == v % 10000
  {
    hide Dn, Value;
    var q := v / 100;
    ValueByLast(4, v);
    ValueByLast(3, v / 10);
    ValueOfTwo(q);
    DivByTens(v);
    TwoPairs(v);
    TwoOfPair(v);
  }

  lemma DnReadsBack(n: nat, v: nat, tail: string)
    requires n > 0
    ensures GetUnsigned(Dn(n, v) + tail, n) == Some(Got(Value(Dn(n, v)), tail))
  {
    var d := Dn(n, v);
    DigitRunOfDigits(d, tail);
    assert (d + tail)[..n] == d && (d + tail)[n..] == tail;
  }

  lemma TwoDigits(v: nat, tail: string)
    requires v < 100
    ensures GetUnsigned(Dn(2, v) + tail, 2) == Some(Got(v, tail))
  {
    hide Dn, Value, GetUnsigned;
    DnReadsBack(2, v, tail);
    ValueOfTwo(v);
  }

  lemma MicroStep(c: char, s: string, n: nat, d: nat)
    requires IsDigit(c) && n > 0
    ensures var g := GetMicros(s, n - 1, d / 10);
            GetMicros([c] + s, n, d) == Got(DigitValue(c) * d + g.value, g.rest)
  {
    assert ([c] + s)[1..] == s;
  }

  lemma MicrosOfThree(v: nat, tail: string, d: nat)
    requires v < 1000
    ensures d == 100000 ==> GetMicros(Dn(3, v) + tail, 3, d) == Got(v * 1000, tail)
    ensures d == 100 ==> GetMicros(Dn(3, v) + tail, 3, d) == Got(v, tail)
  {
    var z, y, x := v % 10, v / 10 % 10, v / 100;
    DnOfThree(v, tail);
    ThreeDigits(v);
    hide Dn, GetMicros;
    MicrosOfDigits(x, y, z, tail, d);
  }

  lemma MicrosOfDigits(x: nat, y: nat, z: nat, tail: string, d: nat)
    requires x < 10 && y < 10 && z < 10
    ensures var s := [Digit(x)] + ([Digit(y)] + ([Digit(z)] + tail));
            && (d == 100000 ==> GetMicros(s, 3, d) == Got(100000 * x + 10000 * y + 1000 * z, tail))
            && (d == 100 ==> GetMicros(s, 3, d) == Got(100 * x + 10 * y + z, tail))
  {
    var c, b, a := Digit(z), Digit(y), Digit(x);
    ValueOfDigit(x);
    ValueOfDigit(y);
    ValueOfDigit(z);
    hide GetMicros, Digit, DigitValue;
    MicroStep(a, [b] + ([c] + tail), 3, d);
    MicroStep(b, [c] + tail, 2, d / 10);
    MicroStep(c, tail, 1, d / 10 / 10);
    MicrosDone(tail, d / 10 / 10 / 10);
    if d == 100000 {
      assert d / 10 == 10000 && d / 10 / 10 == 1000;
    } else if d == 100 {
      assert d / 10 == 10 && d / 10 / 10 == 1;
    }
  }

  lemma MicrosDone(s: string, d: nat)
    ensures GetMicros(s, 0, d) == Got(0, s)
  {
  }

  lemma DnOfThree(v: nat, tail: string)
    requires v < 1000
    ensures Dn(3, v) + tail == [Digit(v / 100)] + ([Digit(v / 10 % 10)] + ([Digit(v % 10)] + tail))
  {
    hide Digit, Dn;
    DnLastThree(v, 0);
    DivByTens(v);
    assert v / 100 % 10 == v / 100;
    assert Dn(0, v / 10 / 10 / 10) == [];
    assert Dn(3, v) == [Digit(v / 100), Digit(v / 10 % 10), Digit(v % 10)];
  }

  lemma {:induction false} MicrosSplit(s: string, t: string, d: nat)
    requires AllDigits(s) && |s| == 3
    ensures var g := GetMicros(t, 3, d / 10 / 10 / 10);
            GetMicros(s + t, 6, d) == Got(GetMicros(s, 3, d).value + g.value, g.rest)
  {
    var u := s[2..];
    assert s + t == [s[0]] + ([s[1]] + ([s[2]] + t)) && s == [s[0]] + ([s[1]] + ([s[2]] + []));
    hide GetMicros, DigitValue;
    MicroStep(s[0], [s[1]] + ([s[2]] + t), 6, d);
    MicroStep(s[1], [s[2]] + t, 5, d / 10);
    MicroStep(s[2], t, 4, d / 10 / 10);
    MicroStep(s[0], [s[1]] + ([s[2]] + []), 3, d);
    MicroStep(s[1], [s[2]] + [], 2, d / 10);
    MicroStep(s[2], [], 1, d / 10 / 10);
    MicrosDone([], d / 10 / 10 / 10);
  }

  lemma LowerDigits(k: nat, w: nat)
    ensures (1000 * k + w) % 10 == w % 10
    ensures (1000 * k + w) / 10 % 10 == w / 10 % 10
    ensures (1000 * k + w) / 10 / 10 % 10 == w / 10 / 10 % 10
  {
    var v := 1000 * k + w;
    assert v / 10 == 100 * k + w / 10;
    assert v / 10 / 10 == 10 * k + w / 10 / 10;
  }

  lemma DnOfSix(v: nat)
    ensures Dn(6, v) == Dn(3, v / 1000) + Dn(3, v % 1000)
  {
    hide Digit, Dn;
    var w := v % 1000;
    assert v == 1000 * (v / 1000) + w;
    DivByTens(v);
    LowerDigits(v / 1000, w);
    DnLastThree(v, 3);
    DnLastThree(w, 0);
    assert Dn(0, w / 10 / 10 / 10) == [];
  }

  lemma DnLastThree(v: nat, n: nat)
    ensures Dn(n + 3, v) == Dn(n, v / 10 / 10 / 10) + [Digit(v / 10 / 10 % 10), Digit(v / 10 % 10), Digit(v % 10)]
  {
    assert Dn(n + 1, v / 10 / 10) == Dn(n, v / 10 / 10 / 10) + [Digit(v / 10 / 10 % 10)];
    assert Dn(n + 2, v / 10) == Dn(n + 1, v / 10 / 10) + [Digit(v / 10 % 10)];
  }

  lemma MicrosOfSix(v: nat, tail: string)
    requires v < 1_000_000
    ensures GetMicros(Dn(6, v) + tail, 6, 100000) == Got(v, tail)
  {
    var a, b := Dn(3, v / 1000), Dn(3, v % 1000);
    DnOfSix(v);
    hide Dn, GetMicros;
    assert a + b + tail == a + (b + tail) && a + [] == a;
    SixInHalves(v);
    HalvesReadBack(a, b, v / 1000, v % 1000, tail);
  }

  lemma SixInHalves(v: nat)
    requires v < 1_000_000
    ensures v / 1000 < 1000 && v == v / 1000 * 1000 + v % 1000
  {
  }

  lemma HalvesReadBack(a: string, b: string, x: nat, y: nat, tail: string)
    requires x < 1000 && y < 1000 && a == Dn(3, x) && b == Dn(3, y)
    ensures GetMicros(a + (b + tail), 6, 100000) == Got(x * 1000 + y, tail)
  {
    hide Dn, GetMicros;
    assert a + [] == a;
    MicrosSplit(a, b + tail, 100000);
    MicrosOfThree(x, [], 100000);
    MicrosOfThree(y, tail, 100);
    assert 100000 / 10 / 10 / 10 == 100;
  }

  /** Only four digits of the year are printed. */
  function YearKept(y: int): int {
    if y < 0 then -((-y) % 10000) else y % 10000
  }

  lemma YearReadsBack(y: int, tail: string)
    ensures GetInt(SignedDn(4, y) + tail, 4) == Some(Got(YearKept(y) % UINT_RANGE, tail))
  {
    hide Value, Dn, GetUnsigned;
    var v := if y < 0 then -y else y;
    var d := Dn(4, v);
    DnReadsBack(4, v, tail);
    ValueOfFour(v);
    if y < 0 {
      SignReadsBack(d, tail, v % 10000);
    } else {
      FirstIsDigit(d, tail);
    }
  }

  lemma SignReadsBack(d: string, tail: string, v: int)
    requires GetUnsigned(d + tail, 4) == Some(Got(v, tail))
    ensures GetInt("-" + d + tail, 4) == Some(Got(-v % UINT_RANGE, tail))
  {
    hide GetUnsigned;
    assert ("-" + d + tail)[1..] == d + tail;
  }

  lemma FirstIsDigit(d: string, tail: string)
    requires AllDigits(d) && d != ""
    ensures (d + tail)[0] != '-' && (d + tail)[0] != '+'
  {
    assert (d + tail)[0] == d[0];
  }

  lemma MonthReadsBack(m: int, tail: string)
    requires 1 <= m <= 12
    ensures GetMonth(MONTHS[m - 1] + tail) == Some(Got(m, tail))
  {
    var s := MONTHS[m - 1] + tail;
    assert s[..3] == MONTHS[m - 1] && s[3..] == tail;
    MonthAlpha(m);
    FindsMonth(m, 0);
  }

  lemma MonthAlpha(m: int)
    requires 1 <= m <= 12
    ensures |MONTHS[m - 1]| == 3
    ensures IsAlpha(MONTHS[m - 1][0]) && IsAlpha(MONTHS[m - 1][1]) && IsAlpha(MONTHS[m - 1][2])
  {
  }

  lemma {:induction false} FindsMonth(m: int, d: nat)
    requires d < m <= 12
    ensures FindMonth(MONTHS[m - 1], d) == Some(m)
    decreases m - d
  {
    if d < m - 1 {
      MonthsDiffer(d, m - 1);
      FindsMonth(m, d + 1);
    }
  }

  const LOWER_MONTHS: seq<string> :=
    ["jan", "feb", "mar", "apr", "may", "jun", "jul", "aug", "sep", "oct", "nov", "dec"]

  lemma LowerMonth(k: nat)
    requires k < 12
    ensures LowerAll(MONTHS[k]) == LOWER_MONTHS[k]
  {
    MonthAlpha(k + 1);
    var x := LowerAll(MONTHS[k]);
    assert |x| == 3 && x[0] == LOWER_MONTHS[k][0] && x[1] == LOWER_MONTHS[k][1] && x[2] == LOWER_MONTHS[k][2];
  }

  /** The names differ in their second or third letter, or in their first. */
  lemma MonthsDiffer(a: nat, b: nat)
    requires a < b < 12
    ensures LowerAll(MONTHS[a]) != LowerAll(MONTHS[b])
  {
    hide LowerAll;
    LowerMonth(a);
    LowerMonth(b);
    var x, y := LOWER_MONTHS[a], LOWER_MONTHS[b];
    assert x[2] != y[2] || x[1] != y[1];
  }

  // ---- the whole format ----

  /** The reader's variables after a code has read its own piece. */
  function Updated(ch: char, s: Stamp, f: Fields): Fields {
    match ch
    case 'Y' => f.(year := YearKept(s.date.year) % UINT_RANGE)
    case 'm' => f.(month := s.date.month)
    case 'O' => f.(month := s.date.month)
    case 'd' => f.(day := s.date.day)
    case 'H' => f.(hours := s.hour)
    case 'I' => f.(hours := s.hour % 12)
    case 'M' => f.(minutes := s.minute)
    case 'S' => f.(seconds := s.second)
    case 'p' => f.(am := s.hour < 12)
    case 'k' => f.(useconds := s.usec / 1000 * 1000)
    case 'K' => f.(useconds := s.usec / 1000 * 1000)
    case 'u' => f.(useconds := s.usec)
    case 'U' => f.(useconds := s.usec)
    case 'j' => f.(useconds := s.usec)
    case 'J' => f.(useconds := s.usec)
    case _ => f
  }

  lemma DatePieceReadsBack(timed: bool, ch: char, s: Stamp, f: Fields, tail: string)
    requires IsStamp(s) && ch in "YmOd"
    ensures ReadCode(timed, ch, Reader(Percent, Piece(timed, ch, s) + tail, f)) == Some(Reader(Literal, tail, Updated(ch, s, f)))
  {
    hide Dn, GetUnsigned, GetInt, GetMonth, SignedDn, YearKept;
    if ch == 'Y' {
      YearReadsBack(s.date.year, tail);
    } else if ch == 'm' {
      TwoDigits(s.date.month, tail);
    } else if ch == 'O' {
      MonthReadsBack(s.date.month, tail);
    } else {
      TwoDigits(s.date.day, tail);
    }
  }

  lemma TimePieceReadsBack(ch: char, s: Stamp, f: Fields, tail: string)
    requires IsStamp(s) && ch in "HIMSp"
    ensures ReadCode(true, ch, Reader(Percent, Piece(true, ch, s) + tail, f)) == Some(Reader(Literal, tail, Updated(ch, s, f)))
  {
    hide Dn, GetUnsigned, GetInt, GetMonth, SignedDn, IsValid;
    if ch == 'H' {
      TwoDigits(s.hour, tail);
    } else if ch == 'I' {
      TwoDigits(s.hour % 12, tail);
    } else if ch == 'M' {
      TwoDigits(s.minute, tail);
    } else if ch == 'S' {
      TwoDigits(s.second, tail);
    }
  }

  lemma MicroPieceReadsBack(ch: char, s: Stamp, f: Fields, tail: string)
    requires IsStamp(s) && ch in "kKuU"
    ensures ReadCode(true, ch, Reader(Percent, Piece(true, ch, s) + tail, f)) == Some(Reader(Literal, tail, Updated(ch, s, f)))
  {
    hide Dn, GetUnsigned, GetInt, GetMonth, SignedDn, IsValid, GetMicros;
    var ms := s.usec / 1000;
    if ch == 'k' {
      MicrosOfThree(ms, tail, 100000);
    } else if ch == 'K' {
      assert ("." + Dn(3, ms) + tail)[1..] == Dn(3, ms) + tail;
      MicrosOfThree(ms, tail, 100000);
    } else if ch == 'u' {
      MicrosOfSix(s.usec, tail);
    } else {
      assert ("." + Dn(6, s.usec) + tail)[1..] == Dn(6, s.usec) + tail;
      MicrosOfSix(s.usec, tail);
    }
  }

  /** Text that does not go on with a digit or a dot. */
  predicate Stops(tail: string) {
    tail == [] || (!IsDigit(tail[0]) && tail[0] != '.')
  }

  lemma {:induction false} FractionReadsBack(usec: nat, e: nat, n: nat, tail: string)
    requires (e, n) in {(10000, 5), (1000, 4), (100, 3), (10, 2), (1, 1), (0, 0)}
    requires usec < 10 * e + (if e == 0 then 1 else 0) && Stops(tail)
    ensures GetMicros(Fraction(usec, e) + tail, n, e) == Got(usec, tail)
    decreases e
  {
    if e == 0 || usec == 0 {
      assert Fraction(usec, e) + tail == tail;
    } else {
      var q, r := usec / e, usec % e;
      assert usec == q * e + r && q < 10;
      NextDigit(q, Fraction(r, e / 10), n, e, tail);
      if e == 1 {
        assert r == 0 && Fraction(0, 0) == [];
      }
      FractionReadsBack(r, e / 10, n - 1, tail);
    }
  }

  lemma NextDigit(q: nat, rest: string, n: nat, e: nat, tail: string)
    requires q < 10 && n > 0
    ensures var g := GetMicros(rest + tail, n - 1, e / 10);
            GetMicros([Digit(q)] + rest + tail, n, e) == Got(q * e + g.value, g.rest)
  {
    ValueOfDigit(q);
    assert [Digit(q)] + rest + tail == [Digit(q)] + (rest + tail);
    MicroStep(Digit(q), rest + tail, n, e);
  }

  lemma FractionTextReadsBack(usec: nat, tail: string)
    requires usec < 1_000_000 && Stops(tail)
    ensures FractionText(usec) + tail != [] && (FractionText(usec) + tail)[0] == '.'
    ensures GetMicros((FractionText(usec) + tail)[1..], 6, 100000) == Got(usec, tail)
  {
    hide Fraction, GetMicros, Digit;
    var q, r := usec / 100000, usec % 100000;
    assert (FractionText(usec) + tail)[1..] == [Digit(q)] + Fraction(r, 10000) + tail;
    NextDigit(q, Fraction(r, 10000), 6, 100000, tail);
    FractionReadsBack(r, 10000, 5, tail);
  }

  lemma OpenPieceReadsBack(ch: char, s: Stamp, f: Fields, tail: string)
    requires IsStamp(s) && IsOpenEnded(ch) && Stops(tail)
    ensures ReadCode(true, ch, Reader(Percent, Piece(true, ch, s) + tail, f)) == Some(Reader(Literal, tail, Updated(ch, s, f)))
  {
    hide FractionText, IsValid, GetMicros;
    var text := Piece(true, ch, s) + tail;
    if ch == 'j' && s.usec == 0 {
      assert text == tail;
      NoDigits(tail);
    } else {
      FractionTextReadsBack(s.usec, tail);
      assert text == FractionText(s.usec) + tail;
      assert text != [] && text[0] == '.';
    }
  }

  lemma NoDigits(tail: string)
    requires Stops(tail)
    ensures GetMicros(tail, 6, 100000) == Got(0, tail) && AfterDot(tail) == tail
  {
  }

  /** The reader's variables after the whole format: the last code for a variable counts. */
  function ReadBack(fmt: string, s: Stamp, f: Fields): Fields
    decreases |fmt|
  {
    if |fmt| < 2 then f
    else if fmt[0] == '%' then ReadBack(fmt[2..], s, Updated(fmt[1], s, f))
    else ReadBack(fmt[1..], s, f)
  }

  /** What may follow an open ended code prints text that stops it. */
  lemma ClosingTextStops(timed: bool, fmt: string, s: Stamp, intact: bool)
    requires IsStamp(s) && SupportedFrom(timed, fmt, intact) && Closes(fmt)
    ensures Stops(Text(timed, fmt, s, intact))
  {
    hide Piece;
    if fmt != [] && fmt[0] == '%' {
      NamePieceStops(timed, fmt[1], s);
    }
  }

  lemma NamePieceStops(timed: bool, ch: char, s: Stamp)
    requires IsStamp(s) && IsCode(timed, ch) && ch in "Op"
    ensures var piece := Piece(timed, ch, s); piece != [] && !IsDigit(piece[0]) && piece[0] != '.'
  {
    MonthAlpha(s.date.month);
  }

  /** Every code reads back its own piece, whatever text follows it in the format. */
  lemma PieceReadsBack(timed: bool, fmt: string, s: Stamp, f: Fields, intact: bool)
    requires IsStamp(s) && SupportedFrom(timed, fmt, intact) && fmt != [] && fmt[0] == '%'
    ensures var tail := Text(timed, fmt[2..], s, intact && !IsOpenEnded(fmt[1]));
            ReadCode(timed, fmt[1], Reader(Percent, Piece(timed, fmt[1], s) + tail, f)) == Some(Reader(Literal, tail, Updated(fmt[1], s, f)))
  {
    hide ReadCode, Piece, Updated, IsValid, Text;
    var ch, tail := fmt[1], Text(timed, fmt[2..], s, intact && !IsOpenEnded(fmt[1]));
    if ch in "YmOd" {
      DatePieceReadsBack(timed, ch, s, f, tail);
    } else if ch in "HIMSp" {
      TimePieceReadsBack(ch, s, f, tail);
    } else if IsOpenEnded(ch) {
      ClosingTextStops(timed, fmt[2..], s, false);
      OpenPieceReadsBack(ch, s, f, tail);
    } else {
      MicroPieceReadsBack(ch, s, f, tail);
    }
  }

  lemma {:induction false} TextReadsBack(timed: bool, fmt: string, s: Stamp, f: Fields, intact: bool)
    requires IsStamp(s) && SupportedFrom(timed, fmt, intact)
    ensures ReadRun(timed, fmt, Reader(Literal, Text(timed, fmt, s, intact), f)) == Some(Reader(Literal, "", ReadBack(fmt, s, f)))
    decreases |fmt|
  {
    hide ReadCode, Piece, Updated, IsValid, IsCode, Closes;
    if fmt == [] {
    } else if fmt[0] == '%' {
      var ch := fmt[1];
      PieceExists(timed, ch, s);
      PieceReadsBack(timed, fmt, s, f, intact);
      TextReadsBack(timed, fmt[2..], s, Updated(ch, s, f), intact && !IsOpenEnded(ch));
      assert fmt[1..][1..] == fmt[2..] && fmt[1..][0] == ch;
    } else {
      TextReadsBack(timed, fmt[1..], s, f, intact);
      assert Text(timed, fmt, s, intact)[1..] == Text(timed, fmt[1..], s, intact);
    }
  }

  /** The last of the given codes in the format, or a blank. */
  function Last(fmt: string, codes: string, found: char): char
    decreases |fmt|
  {
    if |fmt| < 2 then found
    else if fmt[0] == '%' then Last(fmt[2..], codes, if fmt[1] in codes then fmt[1] else found)
    else Last(fmt[1..], codes, found)
  }

  predicate Mentions(fmt: string, codes: string) {
    Last(fmt, codes, ' ') != ' '
  }

  /** What the format leaves of a stamp, variable by variable. */
  predicate Left(s: Stamp, f0: Fields, f: Fields, y: char, m: char, d: char) {
    && f.year == (if y == ' ' then f0.year else YearKept(s.date.year) % UINT_RANGE)
    && f.month == (if m == ' ' then f0.month else s.date.month)
    && f.day == (if d == ' ' then f0.day else s.date.day)
  }

  predicate LeftTime(s: Stamp, f0: Fields, f: Fields, h: char, p: char, min: char, sec: char, us: char) {
    && f.hours == (if h == ' ' then f0.hours else if h == 'H' then s.hour else s.hour % 12)
    && f.am == (if p == ' ' then f0.am else s.hour < 12)
    && f.minutes == (if min == ' ' then f0.minutes else s.minute)
    && f.seconds == (if sec == ' ' then f0.seconds else s.second)
    && f.useconds == (if us == ' ' then f0.useconds else if us in "uUjJ" then s.usec else s.usec / 1000 * 1000)
  }

  lemma {:induction false} LastCodesCount(fmt: string, s: Stamp, f0: Fields, f: Fields, y: char, m: char, d: char)
    requires Left(s, f0, f, y, m, d)
    ensures Left(s, f0, ReadBack(fmt, s, f), Last(fmt, "Y", y), Last(fmt, "mO", m), Last(fmt, "d", d))
    decreases |fmt|
  {
    hide YearKept;
    if |fmt| < 2 {
    } else if fmt[0] == '%' {
      var ch := fmt[1];
      LastCodesCount(fmt[2..], s, f0, Updated(ch, s, f),
                     if ch in "Y" then ch else y, if ch in "mO" then ch else m, if ch in "d" then ch else d);
    } else {
      LastCodesCount(fmt[1..], s, f0, f, y, m, d);
    }
  }

  lemma {:induction false} LastTimeCodesCount(fmt: string, s: Stamp, f0: Fields, f: Fields, h: char, p: char, min: char, sec: char, us: char)
    requires LeftTime(s, f0, f, h, p, min, sec, us)
    ensures LeftTime(s, f0, ReadBack(fmt, s, f), Last(fmt, "HI", h), Last(fmt, "p", p), Last(fmt, "M", min), Last(fmt, "S", sec), Last(fmt, "uUjJkK", us))
    decreases |fmt|
  {
    hide YearKept;
    if |fmt| < 2 {
    } else if fmt[0] == '%' {
      var ch := fmt[1];
      LastTimeCodesCount(fmt[2..], s, f0, Updated(ch, s, f),
                         if ch in "HI" then ch else h, if ch in "p" then ch else p, if ch in "M" then ch else min,
                         if ch in "S" then ch else sec, if ch in "uUjJkK" then ch else us);
    } else {
      LastTimeCodesCount(fmt[1..], s, f0, f, h, p, min, sec, us);
    }
  }

  // ---- dates ----

  function DateStamp(jd: int): Stamp {
    Stamp(JulToGreg(jd), (jd + 1) % 7, 0, 0, 0, 0)
  }

  /** The date that is left after printing and reading. */
  function DateLeft(fmt: string, c: Civil): Civil {
    Civil(if Mentions(fmt, "Y") then YearKept(c.year) else 0,
          if Mentions(fmt, "mO") then c.month else 1,
          if Mentions(fmt, "d") then c.day else 1)
  }

  /** Checked before printing: the format keeps all of this date. */
  predicate KeepsDate(fmt: string, c: Civil) {
    && (if Mentions(fmt, "Y") then -9999 <= c.year <= 9999 else c.year == 0)
    && (Mentions(fmt, "mO") || c.month == 1)
    && (Mentions(fmt, "d") || c.day == 1)
  }

  lemma DateLeftIsDate(fmt: string, c: Civil)
    ensures DateLeft(fmt, c) == c <==> KeepsDate(fmt, c)
  {
    hide Last, YearKept;
    YearIsKept(c.year);
  }

  lemma YearIsKept(y: int)
    ensures YearKept(y) == y <==> -9999 <= y <= 9999
  {
  }

  lemma DateLeftBounds(fmt: string, c: Civil)
    ensures c.year >= FIRST_YEAR ==> FIRST_YEAR <= DateLeft(fmt, c).year <= 9999
  {
    hide Last;
  }

  lemma DateReadBack(timed: bool, fmt: string, s: Stamp)
    requires IsStamp(s) && Supported(timed, fmt)
    ensures ReadRun(timed, fmt, Reader(Literal, ToString(timed, fmt, s), BLANK)) == Some(Reader(Literal, "", ReadBack(fmt, s, BLANK)))
    ensures DateOf(ReadBack(fmt, s, BLANK)) == DateLeft(fmt, s.date)
  {
    hide Text, ReadRun, PrintRun, ReadBack, Last;
    PrintsText(timed, fmt, s, "", s.usec, true);
    assert "" + Text(timed, fmt, s, true) == Text(timed, fmt, s, true);
    TextReadsBack(timed, fmt, s, BLANK, true);
    LastCodesCount(fmt, s, BLANK, BLANK, ' ', ' ', ' ');
  }

  /** Numbers of dates in the printable years are not confused by the unsigned result. */
  lemma NumberIdentifies(c: Civil, left: Civil)
    requires IsValid(c) && c.year >= FIRST_YEAR && 0 <= Formula(c) <= MAX_JULIAN
    requires FIRST_YEAR <= left.year <= 9999
    ensures GregToJul(left) == Some(Formula(c)) <==> left == c
  {
    hide Formula, IsValid, JulToGreg, GregFits;
    DatesThereAndBack(c);
    if IsValid(left) {
      NumberBounds(left);
      OrderAgrees(c, left);
    }
  }

  lemma NumberBounds(c: Civil)
    requires IsValid(c) && FIRST_YEAR <= c.year <= 9999
    ensures -1000 <= Formula(c) < MAX_JULIAN
  {
    hide Formula;
    FormulaByMarch(c);
  }

  /**
   Printing and reading a date by one format gives the same date exactly when the format has
   room for all of it: a year of at most four digits, and a code for whatever is not the default.
   */
  lemma DateSurvives(jd: int, fmt: string)
    requires 0 <= jd <= MAX_JULIAN && Supported(false, fmt)
    ensures IsStamp(DateStamp(jd))
    ensures ParseDate(ToString(false, fmt, DateStamp(jd)), fmt) == Some(jd) <==> KeepsDate(fmt, JulToGreg(jd))
  {
    hide ToString, ReadRun, Supported, ReadBack, Last, JulToGreg, Formula, IsValid, KeepsDate, DateLeft, GregToJul, DateOf, JulFits;
    var c, s := JulToGreg(jd), DateStamp(jd);
    DateLeftBounds(fmt, c);
    NumbersThereAndBack(jd);
    BackIsValid(jd);
    BackAndForth(jd);
    DateReadBack(false, fmt, s);
    DateLeftIsDate(fmt, c);
    NumberIdentifies(c, DateLeft(fmt, c));
  }

  // ---- date and time ----

  function StampOf(julian: int, usecs: int): Stamp
    requires 0 <= usecs < 86_400_000_000
  {
    Stamp(JulToGreg(julian), (julian + 1) % 7, usecs / 1000 / 1000 / 60 / 60, usecs / 1000 / 1000 / 60 % 60,
          usecs / 1000 / 1000 % 60, usecs % 1_000_000)
  }

  lemma TimeOfStamp(julian: int, usecs: int)
    requires 0 <= usecs < 86_400_000_000
    ensures var s := StampOf(julian, usecs);
            IsTime(s.hour, s.minute, s.second, s.usec) && TimeOfDay(s.hour, s.minute, s.second, s.usec) == usecs
  {
    hide JulToGreg;
    var secs := usecs / 1000 / 1000;
    assert secs == usecs / 1_000_000;
  }

  lemma TimeOfDayIsInjective(h: int, m: int, s: int, u: int, h': int, m': int, s': int, u': int)
    requires IsTime(h, m, s, u) && IsTime(h', m', s', u')
    requires TimeOfDay(h, m, s, u) == TimeOfDay(h', m', s', u')
    ensures h == h' && m == m' && s == s' && u == u'
  {
  }

  /** Checked before printing: the format keeps the hour. */
  predicate KeepsHour(fmt: string, hour: int) {
    var half := Mentions(fmt, "p");
    match Last(fmt, "HI", ' ')
    case 'I' => half || hour < 12
    case 'H' => if half then hour <= 12 else hour != 12
    case _ => hour == 0 || (half && hour == 12)
  }

  predicate KeepsTime(fmt: string, s: Stamp) {
    && KeepsHour(fmt, s.hour)
    && (Mentions(fmt, "M") || s.minute == 0)
    && (Mentions(fmt, "S") || s.second == 0)
    && match Last(fmt, "uUjJkK", ' ')
       case 'u' => true
       case 'U' => true
       case 'j' => true
       case 'J' => true
       case ' ' => s.usec == 0
       case _ => s.usec % 1000 == 0
  }

  lemma {:induction false} LastIsCode(fmt: string, codes: string, found: char)
    requires ' ' !in codes
    ensures Last(fmt, codes, found) == found || Last(fmt, codes, found) in codes
    decreases |fmt|
  {
    if |fmt| >= 2 {
      if fmt[0] == '%' {
        LastIsCode(fmt[2..], codes, if fmt[1] in codes then fmt[1] else found);
      } else {
        LastIsCode(fmt[1..], codes, found);
      }
    }
  }

  lemma TimeLeftIsTime(fmt: string, s: Stamp)
    requires IsStamp(s)
    ensures var f := ReadBack(fmt, s, BLANK);
            (NormalHours(f.hours, f.am) == s.hour && f.minutes == s.minute && f.seconds == s.second && f.useconds == s.usec)
            <==> KeepsTime(fmt, s)
  {
    hide ReadBack, Last, IsValid;
    LastTimeCodesCount(fmt, s, BLANK, BLANK, ' ', ' ', ' ', ' ', ' ');
    LastIsCode(fmt, "HI", ' ');
    LastIsCode(fmt, "uUjJkK", ' ');
  }

  /**
   The same for a date with a time of day.  In particular hours 0 to 23 survive %I with %p,
   while %H loses hour 12 without %p and every hour from 13 on with it.
   */
  lemma DateTimeSurvives(julian: int, usecs: int, fmt: string)
    requires 0 <= julian <= MAX_JULIAN && 0 <= usecs < 86_400_000_000 && Supported(true, fmt)
    ensures IsStamp(StampOf(julian, usecs))
    ensures var s := StampOf(julian, usecs);
            ParseDateTime(ToString(true, fmt, s), fmt) == Some((julian, usecs))
            <==> KeepsDate(fmt, s.date) && KeepsTime(fmt, s)
  {
    hide ToString, ReadRun, Supported, ReadBack, Last, JulToGreg, Formula, IsValid, KeepsTime, KeepsDate, NormalHours, TimeOfDay,
         DateLeft, GregToJul, DateOf, JulFits;
    var c, s := JulToGreg(julian), StampOf(julian, usecs);
    DateLeftBounds(fmt, c);
    NumbersThereAndBack(julian);
    BackIsValid(julian);
    BackAndForth(julian);
    TimeOfStamp(julian, usecs);
    DateReadBack(true, fmt, s);
    DateLeftIsDate(fmt, c);
    NumberIdentifies(c, DateLeft(fmt, c));
    TimeLeftIsTime(fmt, s);
    var f := ReadBack(fmt, s, BLANK);
    var hour := NormalHours(f.hours, f.am);
    if IsTime(hour, f.minutes, f.seconds, f.useconds) && TimeOfDay(hour, f.minutes, f.seconds, f.useconds) == usecs {
      TimeOfDayIsInjective(hour, f.minutes, f.seconds, f.useconds, s.hour, s.minute, s.second, s.usec);
    }
  }

  // ---- the default format ----

  const DEFAULT: string := "%Y-%m-%d %H:%M:%S%j"

  lemma CodeFirst(c: char, rest: string, codes: string, found: char)
    ensures Last(['%', c] + rest, codes, found) == Last(rest, codes, if c in codes then c else found)
    ensures SupportedFrom(true, ['%', c] + rest, true) <==>
              IsCode(true, c) && (IsOpenEnded(c) ==> Closes(rest)) && SupportedFrom(true, rest, !IsOpenEnded(c))
  {
    var fmt := ['%', c] + rest;
    assert fmt[2..] == rest;
    assert '%' in "%*#";
  }

  lemma LiteralFirst(c: char, rest: string, codes: string, found: char)
    requires c !in "%*#" && rest != ""
    ensures Last([c] + rest, codes, found) == Last(rest, codes, found)
    ensures SupportedFrom(true, [c] + rest, true) <==> SupportedFrom(true, rest, true)
  {
    var fmt := [c] + rest;
    assert fmt[1..] == rest;
  }

  const DEFAULT_TIME: string := "%H:%M:%S%j"

  function LastOf(first: char, codes: string, found: char): char {
    if first in codes then first else found
  }

  lemma DefaultTimeLast(codes: string, found: char)
    ensures SupportedFrom(true, DEFAULT_TIME, true)
    ensures Last(DEFAULT_TIME, codes, found) ==
            LastOf('j', codes, LastOf('S', codes, LastOf('M', codes, LastOf('H', codes, found))))
  {
    hide Last, SupportedFrom;
    var r5 := ['%', 'j'] + "";
    var r4 := ['%', 'S'] + r5;
    var r3 := [':'] + r4;
    var r2 := ['%', 'M'] + r3;
    var r1 := [':'] + r2;
    assert DEFAULT_TIME == ['%', 'H'] + r1;
    CodeFirst('H', r1, codes, found);
    var f1 := LastOf('H', codes, found);
    LiteralFirst(':', r2, codes, f1);
    CodeFirst('M', r3, codes, f1);
    var f2 := LastOf('M', codes, f1);
    LiteralFirst(':', r4, codes, f2);
    CodeFirst('S', r5, codes, f2);
    CodeFirst('j', "", codes, LastOf('S', codes, f2));
    NothingLeft(codes, LastOf('j', codes, LastOf('S', codes, f2)));
  }

  lemma DefaultLast(codes: string, found: char)
    ensures Supported(true, DEFAULT)
    ensures Last(DEFAULT, codes, found) ==
            LastOf('j', codes, LastOf('S', codes, LastOf('M', codes, LastOf('H', codes,
              LastOf('d', codes, LastOf('m', codes, LastOf('Y', codes, found)))))))
  {
    hide Last, SupportedFrom;
    var r5 := [' '] + DEFAULT_TIME;
    var r4 := ['%', 'd'] + r5;
    var r3 := ['-'] + r4;
    var r2 := ['%', 'm'] + r3;
    var r1 := ['-'] + r2;
    assert DEFAULT == ['%', 'Y'] + r1;
    CodeFirst('Y', r1, codes, found);
    var f1 := LastOf('Y', codes, found);
    LiteralFirst('-', r2, codes, f1);
    CodeFirst('m', r3, codes, f1);
    var f2 := LastOf('m', codes, f1);
    LiteralFirst('-', r4, codes, f2);
    CodeFirst('d', r5, codes, f2);
    var f3 := LastOf('d', codes, f2);
    LiteralFirst(' ', DEFAULT_TIME, codes, f3);
    DefaultTimeLast(codes, f3);
  }

  lemma NothingLeft(codes: string, found: char)
    ensures Last("", codes, found) == found && SupportedFrom(true, "", false) && Closes("")
  {
  }

  /**
   The default format, that of the ISO strings: a moment comes back exactly if its year has at
   most four digits and it is not in the hour of noon.
   */
  lemma DefaultSurvives(julian: int, usecs: int)
    requires 0 <= julian <= MAX_JULIAN && 0 <= usecs < 86_400_000_000
    ensures IsStamp(StampOf(julian, usecs))
    ensures var s := StampOf(julian, usecs);
            ParseDateTime(ToString(true, DEFAULT, s), DEFAULT) == Some((julian, usecs))
            <==> -9999 <= s.date.year <= 9999 && s.hour != 12
  {
    hide ParseDateTime, ToString, StampOf, Last, SupportedFrom;
    DefaultLast("Y", ' ');
    DefaultLast("mO", ' ');
    DefaultLast("d", ' ');
    DefaultLast("HI", ' ');
    DefaultLast("p", ' ');
    DefaultLast("M", ' ');
    DefaultLast("S", ' ');
    DefaultLast("uUjJkK", ' ');
    DateTimeSurvives(julian, usecs, DEFAULT);
  }
}
