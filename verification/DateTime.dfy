/**
 Date and time of day with arithmetic in microseconds, in the widths of the source: an unsigned
 32 bit day number, an unsigned 64 bit time of day and signed 64 bit time spans.
 */
module DateTimes {
  import opened Wrappers
  import opened Calendar

  const DAY: int := 86_400_000_000
  const DAYS: int := 0x1_0000_0000
  const ULONG_RANGE: int := 0x1_0000_0000_0000_0000
  const LONG_MAX: int := 0x7fff_ffff_ffff_ffff

  /** All the moments that fit into the two fields. */
  const RANGE: int := DAY * DAYS

  type Long = x: int | -LONG_MAX - 1 <= x <= LONG_MAX

  datatype Moment = Moment(julian: int, usecs: int)

  predicate IsMoment(m: Moment) {
    0 <= m.julian < DAYS && 0 <= m.usecs < DAY
  }

  /** Microseconds since the start of day number 0. */
  function Total(m: Moment): int {
    m.julian * DAY + m.usecs
  }

  /** A 64 bit pattern read as a signed number. */
  function Signed(x: int): Long {
    var u := x % ULONG_RANGE;
    if u <= LONG_MAX then u else u - ULONG_RANGE
  }

  /** `_time += span`; None is the overflow_error. The sum is computed without sign. */
  function TimeSum(usecs: int, span: Long): Option<int> {
    var sum := (usecs + span) % ULONG_RANGE;
    if sum > DAY then None else Some(sum)
  }

  /** The split of a span into whole days and a rest for a given time of day. */
  function Split(usecs: int, t: Long): (int, Long)
    requires 0 <= usecs < DAY
  {
    var days, overrun := Quot(t, DAY), Rem(t, DAY);
    if -overrun > usecs then (days - 1, overrun + DAY)
    else if (overrun + usecs) % ULONG_RANGE >= DAY then (days + 1, overrun - DAY)
    else (days, overrun)
  }

  lemma SplitIsExact(usecs: int, t: Long)
    requires 0 <= usecs < DAY
    ensures var (days, overrun) := Split(usecs, t);
            days * DAY + overrun == t && 0 <= usecs + overrun < DAY && Int32(days)
  {
  }

  function Plus(m: Moment, t: Long): Option<Moment>
    requires IsMoment(m)
  {
    var (days, overrun) := Split(m.usecs, t);
    match TimeSum(m.usecs, overrun)
    case None => None
    case Some(usecs) => Some(Moment((m.julian + days) % DAYS, usecs))
  }

  function Minus(a: Moment, b: Moment): Long {
    Signed(((a.julian - b.julian) * DAY) % ULONG_RANGE + (a.usecs - b.usecs))
  }

  /** The sum exists, is a moment, and is the exact sum up to whole turns of the day number. */
  lemma PlusIsModular(m: Moment, t: Long) returns (k: int)
    requires IsMoment(m)
    ensures Plus(m, t).Some? && IsMoment(Plus(m, t).value)
    ensures Total(Plus(m, t).value) == Total(m) + t - k * RANGE
  {
    hide Split, TimeSum;
    SplitIsExact(m.usecs, t);
    var (days, overrun) := Split(m.usecs, t);
    TimeStays(m.usecs, overrun);
    k := (m.julian + days) / DAYS;
    DayTurns(m.julian + days);
  }

  /** Within one day the sum without sign is the sum. */
  lemma TimeStays(usecs: int, span: Long)
    requires 0 <= usecs < DAY && 0 <= usecs + span < DAY
    ensures TimeSum(usecs, span) == Some(usecs + span) && (usecs + span) % ULONG_RANGE == usecs + span
  {
  }

  lemma DayTurns(days: int)
    ensures 0 <= days % DAYS < DAYS && days == days / DAYS * DAYS + days % DAYS
  {
  }

  lemma TotalBounds(m: Moment)
    requires IsMoment(m)
    ensures 0 <= Total(m) < RANGE
  {
  }

  lemma TotalIsInjective(a: Moment, b: Moment, k: int)
    requires IsMoment(a) && IsMoment(b) && Total(a) == Total(b) + k * RANGE
    ensures a == b && k == 0
  {
    TotalBounds(a);
    TotalBounds(b);
    OneTurn(Total(a), Total(b), k);
  }

  lemma OneTurn(x: int, y: int, k: int)
    requires 0 <= x < RANGE && 0 <= y < RANGE && x == y + k * RANGE
    ensures k == 0
  {
  }

  /** Addition is exact exactly when the exact sum is representable. */
  lemma PlusIsExact(m: Moment, t: Long)
    requires IsMoment(m)
    ensures Plus(m, t).Some? && IsMoment(Plus(m, t).value)
    ensures Total(Plus(m, t).value) == Total(m) + t <==> 0 <= Total(m) + t < RANGE
  {
    var k := PlusIsModular(m, t);
    var r := Plus(m, t).value;
    TotalBounds(r);
    if 0 <= Total(m) + t < RANGE {
      OneTurn(Total(m) + t, Total(r), k);
    }
  }

  /** The difference is the exact one, reduced to 64 bits. */
  lemma MinusIsModular(a: Moment, b: Moment)
    ensures Minus(a, b) == Signed(Total(a) - Total(b))
  {
    var x, d := (a.julian - b.julian) * DAY, a.usecs - b.usecs;
    assert Total(a) - Total(b) == x + d;
    SameResidue(x + d, x % ULONG_RANGE + d, x / ULONG_RANGE);
  }

  lemma SameResidue(u: int, v: int, q: int)
    requires u == v + q * ULONG_RANGE
    ensures u % ULONG_RANGE == v % ULONG_RANGE
  {
    assert u == (v / ULONG_RANGE + q) * ULONG_RANGE + v % ULONG_RANGE;
  }

  lemma SignedByTurns(x: int) returns (q: int)
    ensures Signed(x) == x - q * ULONG_RANGE
    ensures q == 0 <==> -LONG_MAX - 1 <= x <= LONG_MAX
  {
    q := x / ULONG_RANGE + (if x % ULONG_RANGE <= LONG_MAX then 0 else 1);
  }

  /** The turns of the day number and those of 64 bits never cancel out within one turn. */
  lemma TurnsDoNotCancel(k: int, q: int)
    requires -1 <= k <= 1 && k * RANGE == q * ULONG_RANGE
    ensures k == 0 && q == 0
  {
  }

  /** (a + t) - a == t, exactly when the sum is representable. */
  lemma SumThenDifference(a: Moment, t: Long)
    requires IsMoment(a)
    ensures Plus(a, t).Some?
    ensures Minus(Plus(a, t).value, a) == t <==> 0 <= Total(a) + t < RANGE
  {
    hide Plus, Minus, Signed, Total;
    var k := PlusIsModular(a, t);
    var r := Plus(a, t).value;
    PlusIsExact(a, t);
    TotalBounds(a);
    TotalBounds(r);
    MinusIsModular(r, a);
    var q := SignedByTurns(t - k * RANGE);
    if Minus(r, a) == t {
      TurnsDoNotCancel(k, -q);
    }
  }

  /** a + (b - a) == b, exactly when the difference fits into a time span. */
  lemma DifferenceThenSum(a: Moment, b: Moment)
    requires IsMoment(a) && IsMoment(b)
    ensures Plus(a, Minus(b, a)) == Some(b) <==> -LONG_MAX - 1 <= Total(b) - Total(a) <= LONG_MAX
  {
    hide Plus, Minus, Signed, Total;
    var t := Minus(b, a);
    MinusIsModular(b, a);
    var q := SignedByTurns(Total(b) - Total(a));
    var k := PlusIsModular(a, t);
    var r := Plus(a, t).value;
    TotalBounds(a);
    TotalBounds(b);
    if q == 0 {
      TotalIsInjective(r, b, -k);
    } else if r == b {
      TurnsDoNotCancel(k, -q);
    }
  }

  /** (a + t) + u == a + (t + u), also where the day number turns over. */
  lemma SumsCompose(a: Moment, t: Long, u: Long)
    requires IsMoment(a) && -LONG_MAX - 1 <= t + u <= LONG_MAX
    ensures Plus(a, t).Some? && IsMoment(Plus(a, t).value)
    ensures Plus(Plus(a, t).value, u) == Plus(a, t + u)
  {
    hide Plus, Total;
    var k1 := PlusIsModular(a, t);
    var k2 := PlusIsModular(Plus(a, t).value, u);
    var k3 := PlusIsModular(a, t + u);
    TotalIsInjective(Plus(Plus(a, t).value, u).value, Plus(a, t + u).value, k3 - k1 - k2);
  }

  predicate Less(a: Moment, b: Moment) {
    a.julian < b.julian || (a.julian == b.julian && a.usecs < b.usecs)
  }

  /** Comparison is comparison of totals, and of the difference with zero where that fits. */
  lemma LessByDifference(a: Moment, b: Moment)
    requires IsMoment(a) && IsMoment(b)
    ensures Less(a, b) <==> Total(a) < Total(b)
    ensures -LONG_MAX - 1 <= Total(a) - Total(b) <= LONG_MAX ==> (Less(a, b) <==> Minus(a, b) < 0)
  {
    assert a.julian < b.julian ==> Total(a) < Total(b);
    assert b.julian < a.julian ==> Total(b) < Total(a);
    hide Minus, Signed, Total;
    MinusIsModular(a, b);
    var q := SignedByTurns(Total(a) - Total(b));
  }

  class DateTime {
    var julian: int
    var usecs: int

    ghost function Model(): Moment
      reads this
    {
      Moment(julian, usecs)
    }

    ghost predicate Valid()
      reads this
    {
      IsMoment(Model())
    }

    constructor (m: Moment)
      requires IsMoment(m)
      ensures Valid() && Model() == m
    {
      julian, usecs := m.julian, m.usecs;
    }

    /** `+=`: never throws, and keeps the time of day within one day. */
    method Add(ts: Long)
      requires Valid()
      modifies this
      ensures Valid() && Plus(old(Model()), ts) == Some(Model())
      ensures Total(Model()) == Total(old(Model())) + ts <==> 0 <= Total(old(Model())) + ts < RANGE
    {
      hide Total, TimeSum;
      PlusIsExact(Model(), ts);
      SplitIsExact(usecs, ts);
      TimeStays(usecs, Split(usecs, ts).1);
      var days := Quot(ts, DAY);
      var overrun := Rem(ts, DAY);
      if -overrun > usecs {
        days := days - 1;
        overrun := overrun + DAY;
      } else if (overrun + usecs) % ULONG_RANGE >= DAY {
        days := days + 1;
        overrun := overrun - DAY;
      }
      assert (days, overrun) == Split(usecs, ts);
      hide Quot, Rem, Split;
      julian := (julian + days) % DAYS;
      usecs := (usecs + overrun) % ULONG_RANGE;
    }

    /** `-=` adds the negated span. */
    method Subtract(ts: Long)
      requires Valid() && ts > -LONG_MAX - 1
      modifies this
      ensures Valid() && Plus(old(Model()), -ts) == Some(Model())
      ensures Plus(Model(), ts) == Some(old(Model()))
    {
      ghost var before := Model();
      SumsCompose(before, -ts, ts);
      PlusZero(before);
      Add(-ts);
    }
  }

  lemma PlusZero(m: Moment)
    requires IsMoment(m)
    ensures Plus(m, 0) == Some(m)
  {
    var k := PlusIsModular(m, 0);
    TotalIsInjective(Plus(m, 0).value, m, -k);
  }
}
