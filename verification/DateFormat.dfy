/**
 The format strings of Date and DateTime: one interpreter that prints by a format and one that
 reads by it, for all the format codes.  `timed` selects the codes of DateTime.
 */
module DateFormat {
  import opened Wrappers
  import opened Calendar
  import opened Chars

  const WEEKDAYS: seq<string> := ["Sun", "Mon", "Tue", "Wed", "Thu", "Fri", "Sat"]
  const MONTHS: seq<string> := ["Jan", "Feb", "Mar", "Apr", "May", "Jun", "Jul", "Aug", "Sep", "Oct", "Nov", "Dec"]

  /** What is printed: a valid date, its day of the week and a time of day. */
  datatype Stamp = Stamp(date: Civil, weekday: nat, hour: nat, minute: nat, second: nat, usec: nat)

  predicate IsStamp(s: Stamp) {
    IsValid(s.date) && s.weekday < 7 && s.hour < 24 && s.minute < 60 && s.second < 60 && s.usec < 1_000_000
  }

  // ---- printing ----

  function Digit(v: nat): char
    requires v < 10
  {
    '0' + v as char
  }

  /** The last `n` decimal digits. */
  function Dn(n: nat, v: nat): (r: string)
    ensures |r| == n && AllDigits(r)
  {
    if n == 0 then [] else Dn(n - 1, v / 10) + [Digit(v % 10)]
  }

  function SignedDn(n: nat, v: int): string {
    if v < 0 then "-" + Dn(n, -v) else Dn(n, v)
  }

  /** Fractional digits down to the last that is not zero. */
  function Fraction(usec: nat, e: nat): string
    requires e in {0, 1, 10, 100, 1000, 10000} && usec < 10 * e + (if e == 0 then 1 else 0)
    decreases e
  {
    if e == 0 || usec == 0 then [] else [Digit(usec / e)] + Fraction(usec % e, e / 10)
  }

  datatype PrintMode = Plain | Code | One

  /** The state of the printing loop; `usec` is used up by the codes for fractional seconds. */
  datatype Printer = Printer(mode: PrintMode, out: string, usec: nat)

  function Pad(v: nat): string {
    if v < 10 then Dn(1, v) else Dn(2, v)
  }

  /** Text of a one letter code that only reads the stamp; None if it has no meaning. */
  function CodeText(timed: bool, ch: char, s: Stamp, usec: nat): Option<string>
    requires IsStamp(s)
  {
    if ch == 'Y' then Some(SignedDn(4, s.date.year))
    else if ch == 'y' then Some(SignedDn(2, Rem(s.date.year, 100)))
    else if ch == 'm' then Some(Dn(2, s.date.month))
    else if ch == 'O' then Some(MONTHS[s.date.month - 1])
    else if ch == 'd' then Some(Dn(2, s.date.day))
    else if ch == 'w' then Some(Dn(1, s.weekday))
    else if ch == 'W' then Some(Dn(1, if s.weekday == 0 then 7 else s.weekday))
    else if ch == 'N' then Some(WEEKDAYS[s.weekday])
    else if !timed then None
    else if ch == 'H' then Some(Dn(2, s.hour))
    else if ch == 'I' then Some(Dn(2, s.hour % 12))
    else if ch == 'M' then Some(Dn(2, s.minute))
    else if ch == 'S' then Some(Dn(2, s.second))
    else if ch == 'k' then Some(Dn(3, s.usec / 1000))
    else if ch == 'K' then Some("." + Dn(3, s.usec / 1000))
    else if ch == 'u' then Some(Dn(6, usec))
    else if ch == 'U' then Some("." + Dn(6, usec))
    else if ch == 'p' then Some(if s.hour < 12 then "am" else "pm")
    else if ch == 'P' then Some(if s.hour < 12 then "AM" else "PM")
    else None
  }

  function PrintCode(timed: bool, ch: char, s: Stamp, p: Printer): Printer
    requires IsStamp(s) && p.usec < 1_000_000
  {
    var mode := if ch == '%' then Code else Plain;
    var text := CodeText(timed, ch, s, p.usec);
    if text.Some? then p.(mode := mode, out := p.out + text.value)
    else if timed && (ch == 'J' || (ch == 'j' && p.usec != 0)) then
      Printer(mode, p.out + "." + [Digit(p.usec / 100000)] + Fraction(p.usec % 100000, 10000), 0)
    else if timed && ch == 'j' then p.(mode := mode)
    else if ch == '1' then p.(mode := One)
    else p.(mode := mode, out := p.out + "%" + [ch])
  }

  /** Codes with %1 print one digit where one is enough. */
  function PrintOne(timed: bool, ch: char, s: Stamp, p: Printer): Printer
    requires IsStamp(s)
  {
    if ch == 'd' then p.(mode := Plain, out := p.out + Pad(s.date.day))
    else if ch == 'm' then p.(mode := Plain, out := p.out + Pad(s.date.month))
    else if timed && ch == 'H' then p.(mode := Plain, out := p.out + Pad(s.hour))
    else if timed && ch == 'I' then p.(mode := Plain, out := p.out + Pad(s.hour % 12))
    else if timed && ch == 'M' then p.(mode := Plain, out := p.out + Pad(s.minute))
    else if timed && ch == 'S' then p.(mode := Plain, out := p.out + Pad(s.second))
    else p.(mode := if ch == '%' then Code else Plain, out := p.out + "%1" + [ch])
  }

  function PrintStep(timed: bool, ch: char, s: Stamp, p: Printer): (r: Printer)
    requires IsStamp(s) && p.usec < 1_000_000
    ensures r.usec < 1_000_000
  {
    match p.mode
    case Plain => if ch == '%' then p.(mode := Code) else p.(out := p.out + [ch])
    case Code => PrintCode(timed, ch, s, p)
    case One => PrintOne(timed, ch, s, p)
  }

  function PrintRun(timed: bool, fmt: string, s: Stamp, p: Printer): Printer
    requires IsStamp(s) && p.usec < 1_000_000
    decreases |fmt|
  {
    if fmt == [] then p else PrintRun(timed, fmt[1..], s, PrintStep(timed, fmt[0], s, p))
  }

  function ToString(timed: bool, fmt: string, s: Stamp): string
    requires IsStamp(s)
  {
    var p := PrintRun(timed, fmt, s, Printer(Plain, "", s.usec));
    if p.mode == Code then p.out + "%" else p.out
  }

  // ---- reading ----

  /** A value read, and the text behind it. */
  datatype Got = Got(value: int, rest: string)

  function DigitRun(s: string, n: nat): (k: nat)
    ensures k <= |s| && k <= n && AllDigits(s[..k])
  {
    if n == 0 || s == [] || !IsDigit(s[0]) then 0
    else
      var k := DigitRun(s[1..], n - 1);
      assert s[..k + 1] == [s[0]] + s[1..][..k];
      k + 1
  }

  function DigitValue(c: char): nat
    requires IsDigit(c)
  {
    c as int - '0' as int
  }

  function Value(s: string): nat
    requires AllDigits(s)
  {
    if s == [] then 0 else Value(s[..|s| - 1]) * 10 + DigitValue(s[|s| - 1])
  }

  /** Up to `n` digits, at least one. */
  function GetUnsigned(s: string, n: nat): Option<Got>
    requires n > 0
  {
    var k := DigitRun(s, n);
    if k == 0 then None else Some(Got(Value(s[..k]), s[k..]))
  }

  /** Exactly `n` digits. */
  function GetUnsignedF(s: string, n: nat): Option<Got> {
    var k := DigitRun(s, n);
    if k < n then None else Some(Got(Value(s[..k]), s[k..]))
  }

  /** An optional sign and up to `n` digits; the result is stored without sign. */
  function GetInt(s: string, n: nat): Option<Got>
    requires n > 0
  {
    var signed := s != [] && (s[0] == '-' || s[0] == '+');
    var body := if signed then s[1..] else s;
    match GetUnsigned(body, n)
    case None => None
    case Some(g) => Some(g.(value := (if signed && s[0] == '-' then -g.value else g.value) % UINT_RANGE))
  }

  /** Up to `n` fractional digits, the first worth `d`. */
  function GetMicros(s: string, n: nat, d: nat): Got {
    if n == 0 || s == [] || !IsDigit(s[0]) then Got(0, s)
    else
      var g := GetMicros(s[1..], n - 1, d / 10);
      g.(value := DigitValue(s[0]) * d + g.value)
  }

  function Lower(c: char): char {
    if 'A' <= c <= 'Z' then c + ('a' - 'A') else c
  }

  function LowerAll(s: string): string {
    seq(|s|, i requires 0 <= i < |s| => Lower(s[i]))
  }

  /** The first month from number `d` on with that name, ignoring case. */
  function FindMonth(name: string, d: nat): Option<int>
    requires d <= 12
    decreases 12 - d
  {
    if d == 12 then None
    else if LowerAll(MONTHS[d]) == LowerAll(name) then Some(d + 1)
    else FindMonth(name, d + 1)
  }

  function GetMonth(s: string): Option<Got> {
    if |s| < 3 || !IsAlpha(s[0]) || !IsAlpha(s[1]) || !IsAlpha(s[2]) then None
    else
      match FindMonth(s[..3], 0)
      case None => None
      case Some(m) => Some(Got(m, s[3..]))
  }

  function SkipNonDigit(s: string): string {
    if s == [] || IsDigit(s[0]) then s else SkipNonDigit(s[1..])
  }

  function SkipWord(s: string): string {
    if s == [] || !IsAlnum(s[0]) then s else SkipWord(s[1..])
  }

  /** The variables the reader fills in; `year` is an unsigned 32 bit number. */
  datatype Fields = Fields(year: int, month: int, day: int, hours: int, minutes: int, seconds: int, useconds: int, am: bool)

  const BLANK: Fields := Fields(0, 1, 1, 0, 0, 0, 0, true)

  datatype ReadMode = Literal | Percent | Two

  datatype Reader = Reader(mode: ReadMode, rest: string, f: Fields)

  function WithYear(r: Reader, g: Option<Got>): Option<Reader> {
    match g case None => None case Some(v) => Some(Reader(Literal, v.rest, r.f.(year := v.value)))
  }

  function WithMonth(r: Reader, g: Option<Got>): Option<Reader> {
    match g case None => None case Some(v) => Some(Reader(Literal, v.rest, r.f.(month := v.value)))
  }

  function WithDay(r: Reader, g: Option<Got>): Option<Reader> {
    match g case None => None case Some(v) => Some(Reader(Literal, v.rest, r.f.(day := v.value)))
  }

  function WithHours(r: Reader, g: Option<Got>): Option<Reader> {
    match g case None => None case Some(v) => Some(Reader(Literal, v.rest, r.f.(hours := v.value)))
  }

  function WithMinutes(r: Reader, g: Option<Got>): Option<Reader> {
    match g case None => None case Some(v) => Some(Reader(Literal, v.rest, r.f.(minutes := v.value)))
  }

  function WithSeconds(r: Reader, g: Option<Got>): Option<Reader> {
    match g case None => None case Some(v) => Some(Reader(Literal, v.rest, r.f.(seconds := v.value)))
  }

  function WithMicros(r: Reader, g: Got): Option<Reader> {
    Some(Reader(Literal, g.rest, r.f.(useconds := g.value)))
  }

  function Century(g: Option<Got>): Option<Got> {
    match g
    case None => None
    case Some(v) => Some(v.(value := (v.value + (if v.value < 50 then 2000 else 1900)) % UINT_RANGE))
  }

  function AfterDot(s: string): string {
    if s != [] && s[0] == '.' then s[1..] else s
  }

  /** Codes for fractional seconds that do nothing unless a dot comes next. */
  function Dotted(r: Reader, n: nat): Option<Reader> {
    if r.rest != [] && r.rest[0] == '.' then WithMicros(r, GetMicros(r.rest[1..], n, 100000))
    else Some(r.(mode := Literal))
  }

  function ReadHalf(r: Reader): Option<Reader> {
    var s := r.rest;
    if |s| < 2 || (s[0] !in "AaPp") || (s[1] !in "Mm") then None
    else Some(Reader(Literal, s[2..], r.f.(am := s[0] == 'A' || s[0] == 'a')))
  }

  /** A format code; None is an exception. */
  function ReadCode(timed: bool, ch: char, r: Reader): Option<Reader> {
    if ch == 'Y' then WithYear(r, GetInt(r.rest, 4))
    else if ch == 'y' then WithYear(r, Century(GetInt(r.rest, 2)))
    else if ch == 'm' then WithMonth(r, GetUnsigned(r.rest, 2))
    else if ch == 'O' then WithMonth(r, GetMonth(r.rest))
    else if ch == 'd' then WithDay(r, GetUnsigned(r.rest, 2))
    else if ch == '2' then Some(r.(mode := Two))
    else if !timed then None
    else if ch == 'H' || ch == 'I' then WithHours(r, GetUnsigned(r.rest, 2))
    else if ch == 'M' then WithMinutes(r, GetUnsigned(r.rest, 2))
    else if ch == 'S' then WithSeconds(r, GetUnsigned(r.rest, 2))
    else if ch == 'j' then WithMicros(r, GetMicros(AfterDot(r.rest), 6, 100000))
    else if ch == 'J' || ch == 'U' then Dotted(r, 6)
    else if ch == 'K' then Dotted(r, 3)
    else if ch == 'k' then WithMicros(r, GetMicros(r.rest, 3, 100000))
    else if ch == 'u' then WithMicros(r, GetMicros(r.rest, 6, 100000))
    else if ch == 'p' then ReadHalf(r)
    else None
  }

  function ReadTwo(timed: bool, ch: char, r: Reader): Option<Reader> {
    var g := GetUnsignedF(r.rest, 2);
    if ch == 'm' then WithMonth(r, g)
    else if ch == 'd' then WithDay(r, g)
    else if !timed then None
    else if ch == 'H' || ch == 'I' then WithHours(r, g)
    else if ch == 'M' then WithMinutes(r, g)
    else if ch == 'S' then WithSeconds(r, g)
    else None
  }

  function ReadLiteral(ch: char, r: Reader): Option<Reader> {
    if ch == '%' then Some(r.(mode := Percent))
    else if ch == '*' then Some(r.(rest := SkipNonDigit(r.rest)))
    else if ch == '#' then Some(r.(rest := SkipWord(r.rest)))
    else if r.rest == [] || (r.rest[0] != ch && ch != '?') then None
    else Some(r.(rest := r.rest[1..]))
  }

  function ReadStep(timed: bool, ch: char, r: Reader): Option<Reader> {
    match r.mode
    case Literal => ReadLiteral(ch, r)
    case Percent => ReadCode(timed, ch, r)
    case Two => ReadTwo(timed, ch, r)
  }

  /** The loop over the format; a Date stops where the text ends, and fails if format is left. */
  function ReadRun(timed: bool, fmt: string, r: Reader): Option<Reader>
    decreases |fmt|
  {
    if fmt == [] then Some(r)
    else if !timed && r.rest == [] then None
    else
      match ReadStep(timed, fmt[0], r)
      case None => None
      case Some(r') => ReadRun(timed, fmt[1..], r')
  }

  function ToInt32(u: int): int {
    if u > INT_MAX then u - UINT_RANGE else u
  }

  function DateOf(f: Fields): Civil {
    Civil(ToInt32(f.year), f.month, f.day)
  }

  /** Twelve hour clock: without %p the hour counts as one before noon. */
  function NormalHours(hours: int, am: bool): int {
    if am && hours == 12 then 0 else if !am && hours != 12 then hours + 12 else hours
  }

  function ParseDate(str: string, fmt: string): Option<int> {
    match ReadRun(false, fmt, Reader(Literal, str, BLANK))
    case None => None
    case Some(r) => if r.rest != [] then None else GregToJul(DateOf(r.f))
  }

  predicate IsTime(hour: int, minute: int, second: int, usec: int) {
    0 <= hour < 24 && 0 <= minute < 60 && 0 <= second < 60 && 0 <= usec < 1_000_000
  }

  /** The day number and the time of day in microseconds. */
  function ParseDateTime(str: string, fmt: string): Option<(int, int)> {
    match ReadRun(true, fmt, Reader(Literal, str, BLANK))
    case None => None
    case Some(r) =>
      if r.mode != Literal || r.rest != [] then None
      else
        var hour := NormalHours(r.f.hours, r.f.am);
        match GregToJul(DateOf(r.f))
        case None => None
        case Some(julian) =>
          if !IsTime(hour, r.f.minutes, r.f.seconds, r.f.useconds) then None
          else Some((julian, TimeOfDay(hour, r.f.minutes, r.f.seconds, r.f.useconds)))
  }

  function TimeOfDay(hour: int, minute: int, second: int, usec: int): int {
    (((hour * 60 + minute) * 60 + second) * 1000) * 1000 + usec
  }
}
