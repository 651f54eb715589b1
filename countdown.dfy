/**
 * The countdown view (app/timer/CountdownTimer.tsx).
 *
 * The ticking itself belongs to the timer hook the component uses; the
 * component only turns the hook's `days`, `hours`, `minutes` and `seconds`
 * into a heading and forwards its three buttons to the hook and to the
 * page. Those two parts are modelled here as functions.
 */
module CountdownTimer {
  import opened Wrappers

  predicate IsDigit(c: char) {
    '0' <= c <= '9'
  }

  predicate AllDigits(s: string) {
    forall i :: 0 <= i < |s| ==> IsDigit(s[i])
  }

  function DigitChar(d: nat): (c: char)
    requires d < 10
    ensures IsDigit(c)
  {
    ('0' as int + d) as char
  }

  function DigitValue(c: char): (d: nat)
    requires IsDigit(c)
    ensures d < 10
  {
    c as int - '0' as int
  }

  /** The number a string of decimal digits denotes (the empty string denotes 0). */
  function DigitsValue(s: string): nat
    requires AllDigits(s)
    decreases |s|
  {
    if s == [] then 0 else DigitsValue(s[..|s| - 1]) * 10 + DigitValue(s[|s| - 1])
  }

  /** `n.toString()` for a non-negative integer: its decimal digits, without leading zeros. */
  function NatToString(n: nat): (r: string)
    ensures |r| >= 1 && AllDigits(r)
    ensures |r| > 1 ==> r[0] != '0'
  {
    if n < 10 then [DigitChar(n)] else NatToString(n / 10) + [DigitChar(n % 10)]
  }

  /** The digits `toString` writes denote the number again. */
  lemma {:induction false} NatToStringValue(n: nat)
    ensures DigitsValue(NatToString(n)) == n
  {
    if n >= 10 {
      var prefix := NatToString(n / 10);
      var s := NatToString(n);
      assert s[..|s| - 1] == prefix;
      NatToStringValue(n / 10);
    } else {
      var s := NatToString(n);
      assert s[..|s| - 1] == [];
    }
  }

  /** A leading zero does not change the number a digit string denotes. */
  lemma {:induction false} LeadingZeroValue(s: string)
    requires AllDigits(s)
    ensures AllDigits(['0'] + s) && DigitsValue(['0'] + s) == DigitsValue(s)
    decreases |s|
  {
    var z := ['0'] + s;
    if s == [] {
      assert z[..|z| - 1] == [];
    } else {
      assert z[..|z| - 1] == ['0'] + s[..|s| - 1];
      LeadingZeroValue(s[..|s| - 1]);
    }
  }

  /** `s.padStart(width, fill)`: prepend `fill` until `s` is `width` long; never truncate. */
  function PadStart(s: string, width: nat, fill: char): (r: string)
    ensures |r| == if |s| >= width then |s| else width
    ensures r[|r| - |s|..] == s
    ensures forall i :: 0 <= i < |r| - |s| ==> r[i] == fill
  {
    if |s| >= width then s else seq(width - |s|, _ => fill) + s
  }

  /**
   * One optional unit of the heading: `value !== 0 ? `${pad(value)}${unit}` : ""`.
   * The digits before the unit are exactly two below 10 and unpadded from 10
   * on, and they denote `value`.
   */
  function Segment(value: nat, unit: string): (r: string)
    ensures value == 0 <==> r == ""
    ensures value != 0 ==> |r| >= 2 + |unit| && r[|r| - |unit|..] == unit
    ensures value != 0 ==> |r| - |unit| == if value < 10 then 2 else |NatToString(value)|
    ensures value != 0 ==> AllDigits(r[..|r| - |unit|]) && DigitsValue(r[..|r| - |unit|]) == value
  {
    if value != 0 then
      var digits := NatToString(value);
      var padded := PadStart(digits, 2, '0');
      assert (padded + unit)[|padded|..] == unit;
      PaddedDigits(value, unit);
      padded + unit
    else ""
  }

  /** The digits `padStart(2, "0")` leaves in front of the unit denote the value. */
  lemma PaddedDigits(value: nat, unit: string)
    ensures var r := PadStart(NatToString(value), 2, '0') + unit;
            AllDigits(r[..|r| - |unit|]) && DigitsValue(r[..|r| - |unit|]) == value
  {
    var digits := NatToString(value);
    var padded := PadStart(digits, 2, '0');
    var r := padded + unit;
    assert r[..|r| - |unit|] == padded;
    NatToStringValue(value);
    if |digits| < 2 {
      assert padded == ['0'] + digits;
      LeadingZeroValue(digits);
    } else {
      assert padded == digits;
    }
  }

  const Remaining: string := " seconds remaining"

  /** The always-present end of the heading: the seconds, unpadded. */
  function SecondsText(seconds: nat): (r: string)
    ensures |r| > |Remaining| && r[|r| - |Remaining|..] == Remaining
    ensures AllDigits(r[..|r| - |Remaining|]) && DigitsValue(r[..|r| - |Remaining|]) == seconds
  {
    var digits := NatToString(seconds);
    NatToStringValue(seconds);
    assert (digits + Remaining)[..|digits + Remaining| - |Remaining|] == digits;
    digits + Remaining
  }

  /** `s.endsWith(suffix)`. */
  predicate EndsWith(s: string, suffix: string) {
    |s| >= |suffix| && s[|s| - |suffix|..] == suffix
  }

  /** What follows the days: hours and minutes, each only when non-zero, then the seconds. */
  function Tail(hours: nat, minutes: nat, seconds: nat): (r: string)
    ensures hours == 0 && minutes == 0 ==> r == SecondsText(seconds)
    ensures EndsWith(r, SecondsText(seconds))
  {
    var rest := SecondsText(seconds);
    JoinedParts(Segment(hours, "h "), Segment(minutes, "m "), rest);
    Segment(hours, "h ") + (Segment(minutes, "m ") + rest)
  }

  /** Facts about parts joined the way a heading joins its segments. */
  lemma JoinedParts(h: string, m: string, sec: string)
    ensures EndsWith(h + (m + sec), sec)
    ensures h == "" && m == "" ==> h + (m + sec) == sec
  {
    assert (h + (m + sec))[|h| + |m|..] == sec;
  }

  /** Putting a segment in front keeps the end, and an empty segment changes nothing. */
  lemma Prefixed(front: string, s: string, suffix: string)
    requires EndsWith(s, suffix)
    ensures EndsWith(front + s, suffix)
    ensures front == "" ==> front + s == s
  {
    assert (front + s)[|front + s| - |suffix|..] == s[|s| - |suffix|..];
  }

  /**
   * The heading as the component writes it: days, hours and minutes each
   * only when non-zero, then the seconds. Days carry the same `"h "` unit
   * as hours.
   */
  function Heading(days: nat, hours: nat, minutes: nat, seconds: nat): (r: string)
    ensures days == 0 && hours == 0 && minutes == 0 ==> r == SecondsText(seconds)
    ensures EndsWith(r, SecondsText(seconds))
    ensures r == Segment(days, "h ") + HeadingWithDayUnit(0, hours, minutes, seconds)
  {
    Prefixed(Segment(days, "h "), Tail(hours, minutes, seconds), SecondsText(seconds));
    Segment(days, "h ") + Tail(hours, minutes, seconds)
  }

  /** The heading with days written in their own unit, `"d "`. */
  function HeadingWithDayUnit(days: nat, hours: nat, minutes: nat, seconds: nat): (r: string)
    ensures days == 0 ==> r == Tail(hours, minutes, seconds)
    ensures EndsWith(r, SecondsText(seconds))
  {
    Prefixed(Segment(days, "d "), Tail(hours, minutes, seconds), SecondsText(seconds));
    Segment(days, "d ") + Tail(hours, minutes, seconds)
  }

  /** As written, a day and an hour read the same: "01h 0 seconds remaining" both times. */
  lemma DaysReadAsHours()
    ensures Heading(1, 0, 0, 0) == Heading(0, 1, 0, 0)
    ensures Heading(1, 0, 0, 0) == "01h 0 seconds remaining"
  {
    OneHour();
    ZeroSeconds();
    OneSegment(Segment(1, "h "), Segment(0, "h "), Segment(0, "m "), SecondsText(0));
    OneSegment(Segment(0, "h "), Segment(1, "h "), Segment(0, "m "), SecondsText(0));
  }

  /** As written, a heading without days reads back as its hours, minutes and seconds. */
  lemma NoDaysRoundTrip(hours: nat, minutes: nat, seconds: nat)
    ensures ParseHeading(Heading(0, hours, minutes, seconds)) == Some((0, hours, minutes, seconds))
  {
    NoDaysSameHeading(hours, minutes, seconds);
    HeadingWithDayUnitRoundTrip(0, hours, minutes, seconds);
  }

  /** As written, every heading with days and no hours reads back as that many hours. */
  lemma DaysParsedAsHours(days: nat, minutes: nat, seconds: nat)
    ensures ParseHeading(Heading(days, 0, minutes, seconds)) == Some((0, days, minutes, seconds))
  {
    var rest := Segment(minutes, "m ") + SecondsText(seconds);
    var noHours := HeadingWithDayUnit(0, 0, minutes, seconds);
    assert noHours == Segment(0, "h ") + rest == "" + rest == rest;
    assert Heading(days, 0, minutes, seconds) == Segment(days, "h ") + noHours;
    assert HeadingWithDayUnit(0, days, minutes, seconds) == Segment(days, "h ") + rest;
    HeadingWithDayUnitRoundTrip(0, days, minutes, seconds);
  }

  /** Without days the corrected heading is the heading as written. */
  lemma NoDaysSameHeading(hours: nat, minutes: nat, seconds: nat)
    ensures HeadingWithDayUnit(0, hours, minutes, seconds) == Heading(0, hours, minutes, seconds)
  {
    assert "" + HeadingWithDayUnit(0, hours, minutes, seconds) == HeadingWithDayUnit(0, hours, minutes, seconds);
  }

  /** Solver scaffolding for DaysReadAsHours: the concatenation of known literal parts. */
  lemma OneSegment(d: string, h: string, m: string, s: string)
    requires (d == "01h " && h == "") || (d == "" && h == "01h ")
    requires m == "" && s == "0 seconds remaining"
    ensures d + (h + (m + s)) == "01h 0 seconds remaining"
  {
  }

  // Reading a heading back.

  /** Length of the run of digits that starts `s`. */
  function DigitRun(s: string): (n: nat)
    ensures n <= |s| && AllDigits(s[..n])
    ensures n < |s| ==> !IsDigit(s[n])
  {
    if s == [] || !IsDigit(s[0]) then 0
    else
      var n := 1 + DigitRun(s[1..]);
      assert s[..n] == [s[0]] + s[1..][..n - 1];
      n
  }

  /** Reads `<digits><unit>` when `s` starts with one; otherwise the unit reads as 0. */
  function ReadUnit(s: string, unit: string): (string, nat)
  {
    var n := DigitRun(s);
    if n > 0 && |unit| <= |s| - n && s[n..n + |unit|] == unit then
      (s[n + |unit|..], DigitsValue(s[..n]))
    else (s, 0)
  }

  /** Parses a heading of days `"d "`, hours `"h "` and minutes `"m "`, then seconds. */
  function ParseHeading(s: string): Option<(nat, nat, nat, nat)>
  {
    var (s1, days) := ReadUnit(s, "d ");
    var (s2, hours) := ReadUnit(s1, "h ");
    var (s3, minutes) := ReadUnit(s2, "m ");
    match ParseTail(s3)
    case Some(seconds) => Some((days, hours, minutes, seconds))
    case None => None
  }

  /** The parser is the composition of its four readers. */
  lemma ParseHeadingSteps(s: string, t1: string, t2: string, t3: string, d: nat, h: nat, m: nat, sec: nat)
    requires ReadUnit(s, "d ") == (t1, d) && ReadUnit(t1, "h ") == (t2, h)
    requires ReadUnit(t2, "m ") == (t3, m) && ParseTail(t3) == Some(sec)
    ensures ParseHeading(s) == Some((d, h, m, sec))
  {
  }

  /** The digit run of a digit string followed by a non-digit is that string. */
  lemma {:induction false} DigitRunOf(ds: string, rest: string)
    requires AllDigits(ds) && rest != [] && !IsDigit(rest[0])
    ensures DigitRun(ds + rest) == |ds|
    decreases |ds|
  {
    var s := ds + rest;
    if ds != [] {
      assert s[0] == ds[0] && IsDigit(s[0]);
      assert s[1..] == ds[1..] + rest;
      assert AllDigits(ds[1..]) by {
        forall i | 0 <= i < |ds[1..]| ensures IsDigit(ds[1..][i]) {
          assert ds[1..][i] == ds[i + 1];
        }
      }
      DigitRunOf(ds[1..], rest);
      assert DigitRun(s) == 1 + DigitRun(s[1..]);
    } else {
      assert s == rest && !IsDigit(s[0]);
    }
  }

  /** The first character after the leading digits of `s`, when there are some. */
  predicate StopsWith(s: string, c: char) {
    var n := DigitRun(s);
    0 < n < |s| && s[n] == c
  }

  lemma SecondsTextStops(seconds: nat)
    ensures StopsWith(SecondsText(seconds), ' ')
    ensures ParseTail(SecondsText(seconds)) == Some(seconds)
  {
    var r := SecondsText(seconds);
    var k := |r| - |Remaining|;
    assert r == r[..k] + Remaining;
    DigitRunOf(r[..k], Remaining);
    assert r[..k] != [] by { assert |r[..k]| == |NatToString(seconds)|; }
  }

  /** The final `<digits> seconds remaining` part of a heading. */
  function ParseTail(s: string): Option<nat> {
    var n := DigitRun(s);
    if n > 0 && s[n..] == Remaining then Some(DigitsValue(s[..n])) else None
  }

  /** A present segment is read back with its value, whatever follows it. */
  lemma ReadPresentSegment(value: nat, unit: string, rest: string)
    requires value != 0 && |unit| > 0 && !IsDigit(unit[0])
    ensures StopsWith(Segment(value, unit) + rest, unit[0])
    ensures ReadUnit(Segment(value, unit) + rest, unit) == (rest, value)
  {
    var seg := Segment(value, unit);
    var k := |seg| - |unit|;
    var s := seg + rest;
    var ds := seg[..k];
    assert s == ds + (unit + rest);
    DigitRunOf(ds, unit + rest);
    assert s[..k] == ds;
    assert s[k..k + |unit|] == unit;
    assert s[k + |unit|..] == rest;
  }

  /** A segment whose unit is not the one looked for is left for the next reader. */
  lemma ReadAbsentSegment(s: string, unit: string, c: char)
    requires StopsWith(s, c) && |unit| > 0 && unit[0] != c
    ensures ReadUnit(s, unit) == (s, 0)
  {
  }

  /** Minutes, then the seconds. */
  lemma {:induction false} ReadMinutes(minutes: nat, seconds: nat)
    ensures var s := Segment(minutes, "m ") + SecondsText(seconds);
            ReadUnit(s, "m ") == (SecondsText(seconds), minutes)
            && (StopsWith(s, 'm') || StopsWith(s, ' '))
  {
    SecondsTextStops(seconds);
    if minutes != 0 {
      ReadPresentSegment(minutes, "m ", SecondsText(seconds));
    } else {
      assert Segment(minutes, "m ") + SecondsText(seconds) == SecondsText(seconds);
      ReadAbsentSegment(SecondsText(seconds), "m ", ' ');
    }
  }

  /** Hours, then minutes and seconds. */
  lemma {:induction false} ReadHours(hours: nat, minutes: nat, seconds: nat)
    ensures var tail := Segment(minutes, "m ") + SecondsText(seconds);
            var s := Segment(hours, "h ") + tail;
            ReadUnit(s, "h ") == (tail, hours)
            && (StopsWith(s, 'h') || StopsWith(s, 'm') || StopsWith(s, ' '))
  {
    var tail := Segment(minutes, "m ") + SecondsText(seconds);
    ReadMinutes(minutes, seconds);
    if hours != 0 {
      ReadPresentSegment(hours, "h ", tail);
    } else {
      assert Segment(hours, "h ") + tail == tail;
      if StopsWith(tail, 'm') {
        ReadAbsentSegment(tail, "h ", 'm');
      } else {
        ReadAbsentSegment(tail, "h ", ' ');
      }
    }
  }

  /** Days, then the rest of the heading. */
  lemma {:induction false} ReadDays(days: nat, hours: nat, minutes: nat, seconds: nat)
    ensures var tail := Segment(hours, "h ") + (Segment(minutes, "m ") + SecondsText(seconds));
            ReadUnit(Segment(days, "d ") + tail, "d ") == (tail, days)
  {
    var tail := Segment(hours, "h ") + (Segment(minutes, "m ") + SecondsText(seconds));
    ReadHours(hours, minutes, seconds);
    if days != 0 {
      ReadPresentSegment(days, "d ", tail);
    } else {
      assert Segment(days, "d ") + tail == tail;
      if StopsWith(tail, 'h') {
        ReadAbsentSegment(tail, "d ", 'h');
      } else if StopsWith(tail, 'm') {
        ReadAbsentSegment(tail, "d ", 'm');
      } else {
        ReadAbsentSegment(tail, "d ", ' ');
      }
    }
  }

  lemma HeadingWithDayUnitShape(days: nat, hours: nat, minutes: nat, seconds: nat)
    ensures HeadingWithDayUnit(days, hours, minutes, seconds)
            == Segment(days, "d ") + (Segment(hours, "h ") + (Segment(minutes, "m ") + SecondsText(seconds)))
  {
  }

  /** With a unit of its own for days, every heading reads back as the time it shows. */
  lemma HeadingWithDayUnitRoundTrip(days: nat, hours: nat, minutes: nat, seconds: nat)
    ensures ParseHeading(HeadingWithDayUnit(days, hours, minutes, seconds)) == Some((days, hours, minutes, seconds))
  {
    var secs := SecondsText(seconds);
    var t2 := Segment(minutes, "m ") + secs;
    var t1 := Segment(hours, "h ") + t2;
    HeadingWithDayUnitShape(days, hours, minutes, seconds);
    ReadDays(days, hours, minutes, seconds);
    ReadHours(hours, minutes, seconds);
    ReadMinutes(minutes, seconds);
    SecondsTextStops(seconds);
    ParseHeadingSteps(HeadingWithDayUnit(days, hours, minutes, seconds), t1, t2, secs, days, hours, minutes, seconds);
  }

  /** So distinct times give distinct headings. */
  lemma HeadingWithDayUnitInjective(d1: nat, h1: nat, m1: nat, s1: nat, d2: nat, h2: nat, m2: nat, s2: nat)
    requires HeadingWithDayUnit(d1, h1, m1, s1) == HeadingWithDayUnit(d2, h2, m2, s2)
    ensures d1 == d2 && h1 == h2 && m1 == m2 && s1 == s2
  {
    HeadingWithDayUnitRoundTrip(d1, h1, m1, s1);
    HeadingWithDayUnitRoundTrip(d2, h2, m2, s2);
  }

  lemma SmallNumbers()
    ensures NatToString(0) == "0" && NatToString(1) == "1" && NatToString(5) == "5"
    ensures NatToString(7) == "7" && NatToString(30) == "30"
  {
    assert NatToString(3) == "3";
  }

  /** A one-digit unit gets one leading zero. */
  lemma SegmentOneDigit(value: nat, unit: string)
    requires 0 < value < 10
    ensures Segment(value, unit) == ['0', DigitChar(value)] + unit
  {
    assert PadStart([DigitChar(value)], 2, '0') == ['0', DigitChar(value)];
  }

  lemma SecondsTextIs(seconds: nat)
    ensures SecondsText(seconds) == NatToString(seconds) + Remaining
  {
  }

  lemma HeadingIs(days: nat, hours: nat, minutes: nat, seconds: nat)
    ensures Heading(days, hours, minutes, seconds)
            == Segment(days, "h ") + (Segment(hours, "h ") + (Segment(minutes, "m ") + SecondsText(seconds)))
  {
  }

  lemma OneHour() ensures Segment(1, "h ") == "01h " { SmallNumbers(); SegmentOneDigit(1, "h "); }
  lemma FiveMinutes() ensures Segment(5, "m ") == "05m " { SmallNumbers(); SegmentOneDigit(5, "m "); }
  lemma ThirtySeconds() ensures SecondsText(30) == "30 seconds remaining" { SmallNumbers(); SecondsTextIs(30); }
  lemma SevenSeconds() ensures SecondsText(7) == "7 seconds remaining" { SmallNumbers(); SecondsTextIs(7); }
  lemma ZeroSeconds() ensures SecondsText(0) == "0 seconds remaining" { SmallNumbers(); SecondsTextIs(0); }

  /** The values the timer hook is mocked with in the component's tests. */
  lemma MockedHeading()
    ensures Heading(0, 1, 5, 30) == "01h 05m 30 seconds remaining"
  {
    HeadingIs(0, 1, 5, 30);
    OneHour();
    FiveMinutes();
    ThirtySeconds();
    MockedParts(Segment(0, "h "), Segment(1, "h "), Segment(5, "m "), SecondsText(30));
  }

  /** Solver scaffolding for MockedHeading: the concatenation of known literal parts. */
  lemma MockedParts(d: string, h: string, m: string, s: string)
    requires d == "" && h == "01h " && m == "05m " && s == "30 seconds remaining"
    ensures d + (h + (m + s)) == "01h 05m 30 seconds remaining"
  {
  }

  /** With no days, hours or minutes only the unpadded seconds remain. */
  lemma SecondsOnlyHeading()
    ensures Heading(0, 0, 0, 7) == "7 seconds remaining"
  {
    SevenSeconds();
  }

  /** The three buttons of the countdown view. */
  datatype Button = PauseButton | ResumeButton | ResetButton

  /** Calls leaving the component: to the timer hook, or to the page's `setResetTimer`. */
  datatype Call = Pause | Resume | SetResetTimer(value: bool)

  /** Each click forwards exactly one call; reset hands `false` back to the page. */
  function OnClick(b: Button): (calls: seq<Call>)
    ensures |calls| == 1
    ensures b == PauseButton <==> calls == [Pause]
    ensures b == ResumeButton <==> calls == [Resume]
    ensures b == ResetButton <==> calls == [SetResetTimer(false)]
  {
    match b
    case PauseButton => [Pause]
    case ResumeButton => [Resume]
    case ResetButton => [SetResetTimer(false)]
  }
}
