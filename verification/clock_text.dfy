/** The `[-]m:ss` rendering of a signed second count shared by both clocks.
    The Tk clock pads minutes to two digits (`{m:02d}`), the Qt clock leaves
    them unpadded (`{m}`); both pad seconds to two digits. */
module ClockText {
  import opened Wrappers
  import opened Digits

  function Abs(x: int): nat {
    if x < 0 then -x else x
  }

  /** The last two characters of a concatenation come from its right part
      when that has at least two. */
  lemma LastTwo(a: string, b: string)
    requires |b| >= 2
    ensures (a + b)[|a + b| - 2..] == b[|b| - 2..]
  {
    var tail := (a + b)[|a + b| - 2..];
    assert tail[0] == b[|b| - 2] && tail[1] == b[|b| - 1];
  }

  /** The number of minute digits a rendering shows: the decimal minutes,
      padded to `minuteWidth`. */
  function MinuteDigits(n: nat, minuteWidth: nat): nat {
    var shown := |ShowNat(n / 60)|;
    if shown >= minuteWidth then shown else minuteWidth
  }

  /** With two-digit padding the minute field is two digits below ten
      minutes and the plain decimal from then on. */
  lemma TwoDigitMinutes(n: nat)
    ensures MinuteDigits(n, 2) == if n / 60 < 10 then 2 else |ShowNat(n / 60)|
  {
    var shown := ShowNat(n / 60);
    assert n / 60 >= 10 ==> |shown| >= 2;
  }

  /** The unsigned part of a rendering: `divmod(n, 60)` as minutes padded to
      `minuteWidth` digits, a colon, and seconds padded to two digits. */
  function Magnitude(n: nat, minuteWidth: nat): (r: string)
    ensures |r| >= 4
    ensures |r| == MinuteDigits(n, minuteWidth) + 3
    ensures IsDigit(r[0])
    ensures r[|r| - 3] == ':'
    ensures AllDigits(r[|r| - 2..]) && ParseNat(r[|r| - 2..]) == n % 60
  {
    var mm := PadZeros(ShowNat(n / 60), minuteWidth);
    var ss := PadZeros(ShowNat(n % 60), 2);
    LastTwo(mm + ":", ss);
    mm + ":" + ss
  }

  /** Renders `seconds` with a leading "-" when negative, followed by the
      magnitude of `seconds`. */
  function FormatClock(seconds: int, minuteWidth: nat): (r: string)
    ensures |r| >= 4
    ensures |r| == (if seconds < 0 then 1 else 0) + MinuteDigits(Abs(seconds), minuteWidth) + 3
    ensures r[0] == '-' <==> seconds < 0
    ensures r[|r| - 3] == ':'
    ensures AllDigits(r[|r| - 2..]) && ParseNat(r[|r| - 2..]) == Abs(seconds) % 60
  {
    var sign := if seconds < 0 then "-" else "";
    var body := Magnitude(Abs(seconds), minuteWidth);
    LastTwo(sign, body);
    sign + body
  }

  /** Reads the unsigned part of a rendering: one or more minute digits, a
      colon, and exactly two second digits below 60. */
  function ParseMagnitude(body: string): Option<nat> {
    if |body| < 4 || body[|body| - 3] != ':' then None
    else
      var mm := body[..|body| - 3];
      var ss := body[|body| - 2..];
      if !AllDigits(mm) || !AllDigits(ss) || ParseNat(ss) >= 60 then None
      else Some(ParseNat(mm) * 60 + ParseNat(ss))
  }

  /** Reads a clock rendering back: an optional "-" followed by a magnitude. */
  function ParseClock(text: string): Option<int> {
    var negative := |text| > 0 && text[0] == '-';
    var body := if negative then text[1..] else text;
    match ParseMagnitude(body)
    case None => None
    case Some(v) => Some(if negative then -(v as int) else v)
  }

  lemma SplitFields(mm: string, ss: string)
    requires |mm| >= 1 && AllDigits(mm)
    requires |ss| == 2 && AllDigits(ss) && ParseNat(ss) < 60
    ensures ParseMagnitude(mm + ":" + ss) == Some(ParseNat(mm) * 60 + ParseNat(ss))
  {
    var body := mm + ":" + ss;
    assert body[..|body| - 3] == mm;
    assert body[|body| - 2..] == ss;
  }

  /** The minutes and seconds fields of a magnitude satisfy mm * 60 + ss == n. */
  lemma MagnitudeRoundTrip(n: nat, minuteWidth: nat)
    ensures ParseMagnitude(Magnitude(n, minuteWidth)) == Some(n)
  {
    var mm := PadZeros(ShowNat(n / 60), minuteWidth);
    var ss := PadZeros(ShowNat(n % 60), 2);
    SplitFields(mm, ss);
    assert Magnitude(n, minuteWidth) == mm + ":" + ss;
  }

  /** Every rendering reads back as the second count it was made from. */
  lemma FormatRoundTrip(seconds: int, minuteWidth: nat)
    ensures ParseClock(FormatClock(seconds, minuteWidth)) == Some(seconds)
  {
    var body := Magnitude(Abs(seconds), minuteWidth);
    MagnitudeRoundTrip(Abs(seconds), minuteWidth);
    var r := FormatClock(seconds, minuteWidth);
    if seconds < 0 {
      assert r == "-" + body;
      assert r[1..] == body;
    } else {
      assert r == body;
    }
  }
}
