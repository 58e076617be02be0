/**
 * `PlFormat.time`: elapsed and total time of a track as "mm:ss/mm:ss".
 * Times are non-negative seconds; the source's `~~` (truncation) is the floor
 * on such inputs. A parser for the produced text is given beside it, and the
 * round trip recovers the whole seconds of both times.
 */
module PlFormat {
  import opened Wrappers

  predicate IsDigit(ch: char)
  {
    '0' <= ch <= '9'
  }

  predicate AllDigits(s: string)
  {
    forall i :: 0 <= i < |s| ==> IsDigit(s[i])
  }

  function DigitChar(d: nat): (ch: char)
    requires d < 10
    ensures IsDigit(ch) && ch as int - '0' as int == d
  {
    ('0' as int + d) as char
  }

  /** JavaScript's `String(n)` for a whole number: decimal, no leading zero. */
  function Decimal(n: nat): (s: string)
    ensures AllDigits(s) && 1 <= |s|
    ensures n < 10 <==> |s| == 1
    ensures n < 100 ==> |s| <= 2
  {
    if n < 10 then [DigitChar(n)] else Decimal(n / 10) + [DigitChar(n % 10)]
  }

  /** The number a string of decimal digits denotes (leading zeros allowed). */
  function Value(s: string): nat
    requires AllDigits(s)
  {
    if s == [] then 0 else Value(s[..|s| - 1]) * 10 + (s[|s| - 1] as int - '0' as int)
  }

  lemma {:induction false} ValueOfDecimal(n: nat)
    ensures Value(Decimal(n)) == n
  {
    if n >= 10 {
      var s := Decimal(n);
      assert s[..|s| - 1] == Decimal(n / 10);
      ValueOfDecimal(n / 10);
    }
  }

  lemma {:induction false} ValueLeadingZero(s: string)
    requires AllDigits(s)
    ensures AllDigits("0" + s) && Value("0" + s) == Value(s)
  {
    if s != [] {
      assert ("0" + s)[..|s|] == "0" + s[..|s| - 1];
      ValueLeadingZero(s[..|s| - 1]);
    }
  }

  /** A field of the display: `"0" + n` below ten, `String(n)` otherwise. */
  function Padded(n: nat): (s: string)
    ensures AllDigits(s) && |s| >= 2 && Value(s) == n
    ensures n < 100 ==> |s| == 2
  {
    ValueOfDecimal(n);
    if n < 10 then
      ValueLeadingZero(Decimal(n));
      "0" + Decimal(n)
    else
      Decimal(n)
  }

  /** Minutes and seconds of a time, as `~~(t / 60)` and `~~(t - mins * 60)`. */
  datatype Clock = Clock(mins: nat, secs: nat)

  function ClockOf(t: real): (c: Clock)
    requires 0.0 <= t
    ensures c.secs < 60 && c.mins * 60 + c.secs == t.Floor
  {
    var mins := (t / 60.0).Floor;
    var secs := (t - mins as real * 60.0).Floor;
    Clock(mins, secs)
  }

  /** `PlFormat.time(current, duration)`. */
  function Time(current: real, duration: real): (s: string)
    requires 0.0 <= current && 0.0 <= duration
    ensures |s| >= 11
    ensures current < 6000.0 && duration < 6000.0 ==>
      |s| == 11 && s[2] == ':' && s[5] == '/' && s[8] == ':'
  {
    var now, total := ClockOf(current), ClockOf(duration);
    Padded(now.mins) + ":" + Padded(now.secs) + "/" + Padded(total.mins) + ":" + Padded(total.secs)
  }

  /** The position of the first occurrence of `ch` in `s`. */
  function IndexOf(s: string, ch: char): (r: Option<nat>)
    ensures r.Some? ==> r.value < |s| && s[r.value] == ch && ch !in s[..r.value]
    ensures r.None? ==> ch !in s
  {
    if s == [] then None
    else if s[0] == ch then Some(0)
    else match IndexOf(s[1..], ch)
      case None => None
      case Some(i) => assert s[..i + 1] == [s[0]] + s[1..][..i]; Some(i + 1)
  }

  /** The four text fields of a displayed time. */
  datatype TimeFields = TimeFields(nowMins: string, nowSecs: string, totalMins: string, totalSecs: string)

  /** Splits "a:b" at its first colon. */
  function SplitClock(s: string): Option<(string, string)>
  {
    match IndexOf(s, ':')
    case None => None
    case Some(i) => Some((s[..i], s[i + 1..]))
  }

  /** Splits "a:b/c:d" at its first slash and each half at its first colon. */
  function SplitTime(s: string): Option<TimeFields>
  {
    match IndexOf(s, '/')
    case None => None
    case Some(i) =>
      match (SplitClock(s[..i]), SplitClock(s[i + 1..]))
      case (Some((a, b)), Some((c, d))) => Some(TimeFields(a, b, c, d))
      case _ => None
  }

  predicate MinutesField(s: string)
  {
    |s| >= 2 && AllDigits(s)
  }

  predicate SecondsField(s: string)
  {
    |s| == 2 && AllDigits(s) && Value(s) < 60
  }

  lemma {:induction false} FirstSeparator(a: string, ch: char, b: string)
    requires ch !in a
    ensures IndexOf(a + [ch] + b, ch) == Some(|a|)
  {
    if a != [] {
      assert a[0] != ch;
      assert (a + [ch] + b)[1..] == a[1..] + [ch] + b;
      FirstSeparator(a[1..], ch, b);
    }
  }

  lemma SplitClockOf(a: string, b: string)
    requires AllDigits(a)
    ensures SplitClock(a + ":" + b) == Some((a, b))
  {
    FirstSeparator(a, ':', b);
    var s := a + ":" + b;
    assert s[..|a|] == a && s[|a| + 1..] == b;
  }

  lemma NoSeparator(a: string, b: string, ch: char)
    requires AllDigits(a) && AllDigits(b) && !IsDigit(ch) && ch != ':'
    ensures ch !in a + ":" + b
  {
    forall i | 0 <= i < |a + ":" + b|
      ensures (a + ":" + b)[i] != ch
    {
      if i < |a| {
        assert (a + ":" + b)[i] == a[i];
      } else if i > |a| {
        assert (a + ":" + b)[i] == b[i - |a| - 1];
      }
    }
  }

  /**
   * Shape and round trip of `PlFormat.time`: the text splits into four fields,
   * each seconds field is two digits in 00..59, each minutes field has at least
   * two digits, and minutes * 60 + seconds gives back the whole seconds of
   * `current` and of `duration`.
   */
  lemma TimeRoundTrip(current: real, duration: real)
    requires 0.0 <= current && 0.0 <= duration
    ensures SplitTime(Time(current, duration)).Some?
    ensures var f := SplitTime(Time(current, duration)).value;
      && MinutesField(f.nowMins) && SecondsField(f.nowSecs)
      && MinutesField(f.totalMins) && SecondsField(f.totalSecs)
      && Value(f.nowMins) * 60 + Value(f.nowSecs) == current.Floor
      && Value(f.totalMins) * 60 + Value(f.totalSecs) == duration.Floor
  {
    var now, total := ClockOf(current), ClockOf(duration);
    var a, b, c, d := Padded(now.mins), Padded(now.secs), Padded(total.mins), Padded(total.secs);
    var left, right := a + ":" + b, c + ":" + d;
    var s := Time(current, duration);
    assert s == left + ['/'] + right;
    NoSeparator(a, b, '/');
    FirstSeparator(left, '/', right);
    assert s[..|left|] == left && s[|left| + 1..] == right;
    SplitClockOf(a, b);
    SplitClockOf(c, d);
  }
}
