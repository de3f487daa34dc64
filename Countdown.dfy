/** The presale countdown: the time left until a fixed end time, split into days,
    hours, minutes and seconds and shown as decimal strings of at least two
    digits. Both instants are milliseconds since the epoch; the clock is a
    parameter. */
module Countdown {

  const MS_PER_SECOND: nat := 1000
  const MS_PER_MINUTE: nat := 60 * MS_PER_SECOND
  const MS_PER_HOUR: nat := 60 * MS_PER_MINUTE
  const MS_PER_DAY: nat := 24 * MS_PER_HOUR

  /** The four counters before formatting. */
  datatype Parts = Parts(days: nat, hours: nat, minutes: nat, seconds: nat)

  /** The four strings of remainingTime. */
  datatype TimeLeft = TimeLeft(days: string, hours: string, minutes: string, seconds: string)

  const ZERO_TIME_LEFT: TimeLeft := TimeLeft("00", "00", "00", "00")

  /** The counters for a positive difference: whole days, then the hours, minutes and
      seconds within the current day, hour and minute. */
  function Breakdown(difference: nat): (p: Parts)
    ensures p.hours < 24 && p.minutes < 60 && p.seconds < 60
  {
    Parts(difference / MS_PER_DAY,
          (difference / MS_PER_HOUR) % 24,
          (difference / MS_PER_MINUTE) % 60,
          (difference / MS_PER_SECOND) % 60)
  }

  /** The length in milliseconds of what a breakdown shows. */
  function ShownMillis(p: Parts): nat {
    p.days * MS_PER_DAY + p.hours * MS_PER_HOUR + p.minutes * MS_PER_MINUTE + p.seconds * MS_PER_SECOND
  }

  // ---------------------------------------------------------------------------
  // Decimal strings
  // ---------------------------------------------------------------------------

  function Digit(d: nat): (c: char)
    requires d < 10
    ensures '0' <= c <= '9'
  {
    "0123456789"[d]
  }

  /** String(n) for a non-negative integer: its decimal digits without leading zeros. */
  function DecimalString(n: nat): (s: string)
    ensures |s| >= 1 && forall i | 0 <= i < |s| :: '0' <= s[i] <= '9'
    ensures n < 10 <==> |s| == 1
    ensures n < 100 ==> |s| <= 2
  {
    if n < 10 then [Digit(n)] else DecimalString(n / 10) + [Digit(n % 10)]
  }

  /** padStart(2, "0"). */
  function PadStart2(s: string): (r: string)
    ensures |r| == if |s| >= 2 then |s| else 2
    ensures r[|r| - |s|..] == s
    ensures forall i | 0 <= i < |r| - |s| :: r[i] == '0'
  {
    if |s| >= 2 then s else seq(2 - |s|, _ => '0') + s
  }

  /** The value of a string of decimal digits, leading zeros allowed. */
  function ParseDecimal(s: string): nat {
    if s == [] then 0
    else
      var c := s[|s| - 1];
      10 * ParseDecimal(s[..|s| - 1]) + (if '0' <= c <= '9' then (c as int - '0' as int) else 0)
  }

  lemma {:induction false} DecimalStringRoundTrip(n: nat)
    ensures ParseDecimal(DecimalString(n)) == n
  {
    if n < 10 {
      assert DecimalString(n)[..0] == [];
      assert "0123456789"[n] as int - '0' as int == n;
    } else {
      var s := DecimalString(n);
      assert s[..|s| - 1] == DecimalString(n / 10);
      DecimalStringRoundTrip(n / 10);
      assert "0123456789"[n % 10] as int - '0' as int == n % 10;
    }
  }

  lemma {:induction false} LeadingZeroIgnored(s: string)
    ensures ParseDecimal("0" + s) == ParseDecimal(s)
  {
    if s != [] {
      assert ("0" + s)[..|"0" + s| - 1] == "0" + s[..|s| - 1];
      LeadingZeroIgnored(s[..|s| - 1]);
    } else {
      assert ("0" + s)[..0] == [];
    }
  }

  /** Each counter is shown with at least two digits and reads back as its value;
      counters below one hundred are exactly two characters. */
  lemma PaddedRoundTrip(n: nat)
    ensures ParseDecimal(PadStart2(DecimalString(n))) == n
    ensures |PadStart2(DecimalString(n))| >= 2
    ensures n < 100 ==> |PadStart2(DecimalString(n))| == 2
  {
    var s := DecimalString(n);
    DecimalStringRoundTrip(n);
    if |s| < 2 {
      assert PadStart2(s) == "0" + s;
      LeadingZeroIgnored(s);
    }
  }

  // ---------------------------------------------------------------------------
  // calculateTimeLeft
  // ---------------------------------------------------------------------------

  function Format(p: Parts): TimeLeft {
    TimeLeft(PadStart2(DecimalString(p.days)), PadStart2(DecimalString(p.hours)),
             PadStart2(DecimalString(p.minutes)), PadStart2(DecimalString(p.seconds)))
  }

  /** calculateTimeLeft at `now`: the formatted breakdown while the end lies ahead,
      all zeros from the end on. */
  function CalculateTimeLeft(endTime: int, now: int): (t: TimeLeft)
    ensures endTime <= now ==> t == ZERO_TIME_LEFT
  {
    var difference := endTime - now;
    if difference > 0 then Format(Breakdown(difference)) else ZERO_TIME_LEFT
  }

  /** What the counters show is the time left rounded down to a whole second. */
  lemma BreakdownReconstructs(difference: nat)
    ensures ShownMillis(Breakdown(difference)) <= difference < ShownMillis(Breakdown(difference)) + MS_PER_SECOND
    ensures ShownMillis(Breakdown(difference)) == difference / MS_PER_SECOND * MS_PER_SECOND
  {
    var totalSeconds := difference / MS_PER_SECOND;
    var totalMinutes := difference / MS_PER_MINUTE;
    var totalHours := difference / MS_PER_HOUR;
    assert totalMinutes == totalSeconds / 60;
    assert totalHours == totalMinutes / 60;
    assert difference / MS_PER_DAY == totalHours / 24;
  }

  /** The shown strings read back as the breakdown of the time left. */
  lemma ShownStringsReadBack(endTime: int, now: int)
    requires endTime > now
    ensures var t := CalculateTimeLeft(endTime, now);
            var p := Breakdown(endTime - now);
            && ParseDecimal(t.days) == p.days && ParseDecimal(t.hours) == p.hours
            && ParseDecimal(t.minutes) == p.minutes && ParseDecimal(t.seconds) == p.seconds
            && |t.hours| == 2 && |t.minutes| == 2 && |t.seconds| == 2
  {
    var p := Breakdown(endTime - now);
    PaddedRoundTrip(p.days);
    PaddedRoundTrip(p.hours);
    PaddedRoundTrip(p.minutes);
    PaddedRoundTrip(p.seconds);
  }

  /** The shown time left never grows as the clock advances. */
  lemma CountdownNonIncreasing(endTime: int, earlier: int, later: int)
    requires earlier <= later < endTime
    ensures ShownMillis(Breakdown(endTime - later)) <= ShownMillis(Breakdown(endTime - earlier))
  {
    BreakdownReconstructs(endTime - later);
    BreakdownReconstructs(endTime - earlier);
    assert (endTime - later) / MS_PER_SECOND <= (endTime - earlier) / MS_PER_SECOND;
  }
}
