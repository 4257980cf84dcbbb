/**
 * The two `timeString` helpers: the focus screen shows a number of seconds as
 * zero-padded "MM:SS", the settings screen shows total focus time as "Xh Ym"
 * or "Ym" (seconds dropped).  Swift's `Int(timeInterval)` truncation is
 * implicit because durations are whole seconds here.
 */
module Display {
  import opened Wrappers
  import opened Text
  import opened Model

  /** Focus screen: `String(format: "%02d:%02d", t / 60, t % 60)`. */
  function ClockText(t: nat): string {
    Pad2(t / 60) + ":" + Pad2(t % 60)
  }

  /** Reference reading of a "M:SS" text: minutes, a colon, two-digit seconds below 60. */
  function ParseClockText(s: string): Option<nat> {
    match ScanNat(s)
    case None => None
    case Some((m, rest)) =>
      if |rest| == 3 && rest[0] == ':' then ParseSeconds(m, rest[1..]) else None
  }

  function ParseSeconds(m: nat, digits: string): Option<nat> {
    match ScanNat(digits)
    case Some((sec, tail)) => if tail == [] && sec < 60 then Some(m * 60 + sec) else None
    case None => None
  }

  lemma ScanPad2(n: nat, rest: string)
    requires !StartsWithDigit(rest)
    ensures ScanNat(Pad2(n) + rest) == Some((n, rest))
  {
    ScanDigits(Pad2(n), rest);
    Pad2Value(n);
  }

  lemma ParseSecondsOf(m: nat, sec: nat)
    requires sec < 60
    ensures |Pad2(sec)| == 2 && ParseSeconds(m, Pad2(sec)) == Some(m * 60 + sec)
  {
    if sec >= 10 { TwoDigitNumeral(sec); }
    ScanPad2(sec, "");
    assert Pad2(sec) + "" == Pad2(sec);
  }

  lemma ParseClockOf(m: nat, sec: nat)
    requires sec < 60
    ensures ParseClockText(Pad2(m) + ":" + Pad2(sec)) == Some(m * 60 + sec)
  {
    var rest := ":" + Pad2(sec);
    assert Pad2(m) + ":" + Pad2(sec) == Pad2(m) + rest;
    ScanPad2(m, rest);
    ParseSecondsOf(m, sec);
    assert rest[1..] == Pad2(sec);
  }

  /** The focus clock always reads back as the number of seconds it shows. */
  lemma ClockTextRoundTrip(t: nat)
    ensures ParseClockText(ClockText(t)) == Some(t)
  {
    var m, sec := t / 60, t % 60;
    ParseClockOf(m, sec);
    assert m * 60 + sec == t;
  }

  lemma TwoDigitNumeral(n: nat)
    requires 10 <= n < 100
    ensures |NatToString(n)| == 2
  {
    assert NatToString(n) == NatToString(n / 10) + [DigitChar(n % 10)];
  }

  /** Under 100 minutes, which covers every selectable session length, the clock is exactly "MM:SS". */
  lemma ClockTextWidth(t: nat)
    requires t < 100 * 60
    ensures |ClockText(t)| == 5 && ClockText(t)[2] == ':'
  {
    if t / 60 >= 10 { TwoDigitNumeral(t / 60); }
    if t % 60 >= 10 { TwoDigitNumeral(t % 60); }
  }

  /** Settings screen: whole hours and the remaining whole minutes of `t` seconds. */
  function HoursMinutesText(t: nat): string {
    HoursMinutesOf(t / 3600, t % 3600 / 60)
  }

  /** "Xh Ym" when there is at least one hour, else "Ym". */
  function HoursMinutesOf(hours: nat, minutes: nat): string {
    if hours > 0 then IntToString(hours) + "h " + IntToString(minutes) + "m"
    else IntToString(minutes) + "m"
  }

  lemma HoursMinutesOfValue(hours: nat, minutes: nat)
    ensures ParseDurationText(HoursMinutesOf(hours, minutes)) == Some(hours * 60 + minutes)
  {
    if hours > 0 {
      HoursMinutesTextValue(hours, minutes);
    } else {
      ScanIntToString(minutes, "m");
    }
  }

  lemma HoursMinutesSplit(t: nat)
    ensures (t / 3600) * 60 + t % 3600 / 60 == t / 60
  {
    var h, r := t / 3600, t % 3600;
    var m, s := r / 60, r % 60;
    assert t == 60 * (60 * h + m) + s;
  }

  /** The settings text reads back as the whole minutes of the total. */
  lemma HoursMinutesTextRoundTrip(t: nat)
    ensures ParseDurationText(HoursMinutesText(t)) == Some(t / 60)
  {
    var hours, minutes := t / 3600, t % 3600 / 60;
    assert HoursMinutesText(t) == HoursMinutesOf(hours, minutes);
    HoursMinutesOfValue(hours, minutes);
    HoursMinutesSplit(t);
  }
}
