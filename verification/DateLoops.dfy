/** The loops of the formatted dates, in the source's own form, proved against the definitions. */
module DateLoops {
  import opened Wrappers
  import opened Calendar
  import opened Chars
  import opened DateFormat

  /** Digits are written backwards into the extended string. */
  method AppendDn(s: string, n: nat, v: nat) returns (r: string)
    ensures r == s + Dn(n, v)
  {
    r := s + seq(n, _ => '\0');
    var i, w := 0, v;
    while i < n
      invariant 0 <= i <= n && |r| == |s| + n && r[..|s|] == s
      invariant Dn(n, v) == Dn(n - i, w) + r[|r| - i..]
    {
      ghost var low := r[|r| - i..];
      r := r[|r| - i - 1 := Digit(w % 10)];
      assert r[|r| - i - 1..] == [Digit(w % 10)] + low;
      w := w / 10;
      i := i + 1;
    }
    assert r == r[..|s|] + r[|s|..];
  }

  method AppendSignedDn(s: string, n: nat, v: int) returns (r: string)
    ensures r == s + SignedDn(n, v)
  {
    if v < 0 {
      r := AppendDn(s + "-", n, -v);
      assert s + "-" + Dn(n, -v) == s + ("-" + Dn(n, -v));
    } else {
      r := AppendDn(s, n, v);
    }
  }

  lemma ValueSnoc(s: string, b: nat, k: nat)
    requires b <= k < |s| && AllDigits(s[b..k]) && IsDigit(s[k])
    ensures AllDigits(s[b..k + 1]) && Value(s[b..k + 1]) == Value(s[b..k]) * 10 + DigitValue(s[k])
  {
    var t := s[b..k + 1];
    assert t == s[b..k] + [s[k]];
    assert t[..|t| - 1] == s[b..k];
  }

  lemma ValueOfNothing(s: string)
    requires s == []
    ensures AllDigits(s) && Value(s) == 0
  {
  }

  lemma RunGoesOn(s: string, it: nat, n: nat)
    requires it < |s| && n > 0
    ensures DigitRun(s[it..], n) == if IsDigit(s[it]) then 1 + DigitRun(s[it + 1..], n - 1) else 0
  {
    assert s[it..][1..] == s[it + 1..];
  }

  lemma RunEnds(s: string, it: nat, n: nat)
    requires it <= |s| && (it == |s| || n == 0 || !IsDigit(s[it]))
    ensures DigitRun(s[it..], n) == 0
  {
  }

  /** The iterator moves over the digits and past none that does not count. */
  method ScanUnsigned(s: string, b: nat, digits: nat) returns (g: Option<(int, nat)>)
    requires b <= |s| && digits > 0
    ensures match GetUnsigned(s[b..], digits)
            case None => g == None
            case Some(v) => g.Some? && g.value.0 == v.value && g.value.1 <= |s| && s[g.value.1..] == v.rest
  {
    hide Value, DigitRun, IsDigit, AllDigits;
    if b == |s| || !IsDigit(s[b]) {
      RunEnds(s, b, digits);
      return None;
    }
    ValueOfNothing(s[b..b]);
    var ret, d, it := 0, 0, b;
    while d < digits && it != |s| && IsDigit(s[it])
      invariant 0 <= d <= digits && it == b + d <= |s|
      invariant AllDigits(s[b..it]) && ret == Value(s[b..it])
      invariant DigitRun(s[b..], digits) == d + DigitRun(s[it..], digits - d)
      decreases digits - d
    {
      ValueSnoc(s, b, it);
      RunGoesOn(s, it, digits - d);
      ret := ret * 10 + DigitValue(s[it]);
      d, it := d + 1, it + 1;
    }
    RunEnds(s, it, digits - d);
    assert s[b..][..d] == s[b..it] && s[b..][d..] == s[it..];
    g := Some((ret, it));
  }

  /** Every digit must be there. */
  method ScanUnsignedF(s: string, b: nat, digits: nat) returns (g: Option<(int, nat)>)
    requires b <= |s|
    ensures match GetUnsignedF(s[b..], digits)
            case None => g == None
            case Some(v) => g.Some? && g.value.0 == v.value && g.value.1 <= |s| && s[g.value.1..] == v.rest
  {
    hide Value, DigitRun, IsDigit, AllDigits;
    ValueOfNothing(s[b..b]);
    var ret, d, it := 0, 0, b;
    while d < digits
      invariant 0 <= d <= digits && it == b + d <= |s|
      invariant AllDigits(s[b..it]) && ret == Value(s[b..it])
      invariant DigitRun(s[b..], digits) == d + DigitRun(s[it..], digits - d)
    {
      if it == |s| || !IsDigit(s[it]) {
        RunEnds(s, it, digits - d);
        return None;
      }
      ValueSnoc(s, b, it);
      RunGoesOn(s, it, digits - d);
      ret := ret * 10 + DigitValue(s[it]);
      d, it := d + 1, it + 1;
    }
    RunEnds(s, it, 0);
    assert s[b..][..d] == s[b..it] && s[b..][d..] == s[it..];
    g := Some((ret, it));
  }

  method ScanInt(s: string, b: nat, digits: nat) returns (g: Option<(int, nat)>)
    requires b <= |s| && digits > 0
    ensures match GetInt(s[b..], digits)
            case None => g == None
            case Some(v) => g.Some? && g.value.0 == v.value && g.value.1 <= |s| && s[g.value.1..] == v.rest
  {
    var sgn, it := 1, b;
    if it != |s| {
      if s[it] == '-' {
        sgn, it := -1, it + 1;
      } else if s[it] == '+' {
        it := it + 1;
      }
    }
    assert s[b..] != [] ==> s[b..][1..] == s[b + 1..];
    var u := ScanUnsigned(s, it, digits);
    match u
    case None => g := None;
    case Some(v) => g := Some((v.0 * sgn % UINT_RANGE, v.1));
  }

  /** Fractional digits, each worth a tenth of the one before. */
  method ScanMicros(s: string, b: nat, digits: nat) returns (m: int, it: nat)
    requires b <= |s|
    ensures it <= |s| && GetMicros(s[b..], digits, 100000) == Got(m, s[it..])
  {
    m, it := 0, b;
    var d: nat := 100000;
    var c := 0;
    while c < digits
      invariant 0 <= c <= digits && it <= |s|
      invariant var g := GetMicros(s[it..], digits - c, d);
                GetMicros(s[b..], digits, 100000) == Got(m + g.value, g.rest)
    {
      if it == |s| || !IsDigit(s[it]) {
        return;
      }
      assert s[it..][1..] == s[it + 1..];
      m := m + DigitValue(s[it]) * d;
      it, d, c := it + 1, d / 10, c + 1;
    }
  }

  /** The printing loop of both classes. */
  method Print(timed: bool, fmt: string, s: Stamp) returns (str: string)
    requires IsStamp(s)
    ensures str == ToString(timed, fmt, s)
  {
    hide PrintStep;
    var p := Printer(Plain, "", s.usec);
    var it := 0;
    while it < |fmt|
      invariant 0 <= it <= |fmt| && p.usec < 1_000_000
      invariant PrintRun(timed, fmt[it..], s, p) == PrintRun(timed, fmt, s, Printer(Plain, "", s.usec))
    {
      assert fmt[it..][1..] == fmt[it + 1..];
      p := PrintStep(timed, fmt[it], s, p);
      it := it + 1;
    }
    str := if p.mode == Code then p.out + "%" else p.out;
  }

  /** The reading loop of Date; None is the exception. */
  method ReadDate(str: string, fmt: string) returns (julian: Option<int>)
    ensures julian == ParseDate(str, fmt)
  {
    hide ReadStep, GregToJul;
    var r := Reader(Literal, str, BLANK);
    var it := 0;
    while it < |fmt| && r.rest != []
      invariant 0 <= it <= |fmt|
      invariant ReadRun(false, fmt[it..], r) == ReadRun(false, fmt, Reader(Literal, str, BLANK))
    {
      assert fmt[it..][1..] == fmt[it + 1..];
      match ReadStep(false, fmt[it], r) {
        case None => return None;
        case Some(r') => r := r';
      }
      it := it + 1;
    }
    if it != |fmt| || r.rest != [] {
      return None;
    }
    julian := GregToJul(DateOf(r.f));
  }

  /** The reading loop of DateTime. */
  method ReadDateTime(str: string, fmt: string) returns (moment: Option<(int, int)>)
    ensures moment == ParseDateTime(str, fmt)
  {
    hide ReadStep, GregToJul, TimeOfDay;
    var r := Reader(Literal, str, BLANK);
    var it := 0;
    while it < |fmt|
      invariant 0 <= it <= |fmt|
      invariant ReadRun(true, fmt[it..], r) == ReadRun(true, fmt, Reader(Literal, str, BLANK))
    {
      assert fmt[it..][1..] == fmt[it + 1..];
      match ReadStep(true, fmt[it], r) {
        case None => return None;
        case Some(r') => r := r';
      }
      it := it + 1;
    }
    if r.mode != Literal || r.rest != [] {
      return None;
    }
    var hours := r.f.hours;
    if r.f.am && hours == 12 {
      hours := 0;
    } else if !r.f.am && hours != 12 {
      hours := hours + 12;
    }
    var julian := GregToJul(DateOf(r.f));
    if julian == None || !IsTime(hours, r.f.minutes, r.f.seconds, r.f.useconds) {
      return None;
    }
    moment := Some((julian.value, TimeOfDay(hours, r.f.minutes, r.f.seconds, r.f.useconds)));
  }
}
