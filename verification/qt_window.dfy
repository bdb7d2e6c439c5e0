/** The Qt application's main window (gui/gui.py, MainWindow): the
    Start/Pause/Reset clock over `current_time`, the per-second update, the
    merged alert list of the three table timers, the overlay images chosen
    for it, and the window's clock text. Widgets, the QTimer, the window
    focus call, sound and overlay rendering are left to the caller. */
module QtWindow {
  import opened Wrappers
  import opened Digits
  import opened ClockText
  import opened Schedule
  import RuneTimer
  import RoshanTimer
  import DayNightTimer

  /** The clock value the window starts and resets to: -1:00. */
  const StartTime: int := -60

  /** The window's clock state. */
  datatype Window = Window(currentTime: int, running: bool)

  /** The result of one update: the new state and the alerts it raised. */
  datatype Update = Update(window: Window, alerts: seq<Alert>)

  /** The state after construction. */
  function Initial(): (w: Window)
    ensures w.currentTime == StartTime && w.currentTime < 0
    ensures !w.running
  {
    Window(StartTime, false)
  }

  /** Start: sets running when idle; a no-op while running. */
  function Start(w: Window): (r: Window)
    ensures r.running
    ensures r.currentTime == w.currentTime
    ensures w.running ==> r == w
  {
    if !w.running then w.(running := true) else w
  }

  /** Pause: clears running and keeps the clock. */
  function Pause(w: Window): (r: Window)
    ensures !r.running && r.currentTime == w.currentTime
  {
    w.(running := false)
  }

  /** Reset: pauses, then puts the clock back to -1:00. */
  function Reset(w: Window): (r: Window)
    ensures r == Initial()
  {
    Pause(w).(currentTime := StartTime)
  }

  /** check_events: the rune alerts, then Roshan's, then the day/night ones. */
  function CheckEvents(gameTime: int): (r: seq<Alert>)
    ensures forall a :: a in r <==>
      a in RuneTimer.GetAlerts(gameTime) || a in RoshanTimer.GetAlerts(gameTime) || a in DayNightTimer.GetAlerts(gameTime)
    ensures |r| == |RuneTimer.GetAlerts(gameTime)| + |RoshanTimer.GetAlerts(gameTime)| + |DayNightTimer.GetAlerts(gameTime)|
  {
    RuneTimer.GetAlerts(gameTime) + RoshanTimer.GetAlerts(gameTime) + DayNightTimer.GetAlerts(gameTime)
  }

  /** update_timer: advance one second and evaluate the new time. The QTimer
      only fires while running, so the function itself does not check. */
  function UpdateTimer(w: Window): (u: Update)
    ensures u.window.currentTime == w.currentTime + 1
    ensures u.window.running == w.running
    ensures u.alerts == CheckEvents(w.currentTime + 1)
  {
    var next := w.(currentTime := w.currentTime + 1);
    Update(next, CheckEvents(next.currentTime))
  }

  /** RUNE_IMAGE_MAP.get: the overlay picture of an alert, if it has one. */
  function ImageFor(a: Alert): (r: Option<string>)
    ensures r.Some? <==> a in {BountyRune, PowerRune, WaterRune, WisdomRune}
  {
    match a
    case BountyRune => Some("bounty_soon.png")
    case PowerRune => Some("power_soon.png")
    case WaterRune => Some("water_soon.png")
    case WisdomRune => Some("wisdom_soon.png")
    case _ => None
  }

  /** Whether an alert gets an overlay. */
  predicate HasImage(a: Alert) {
    ImageFor(a).Some?
  }

  /** The overlay one alert asks for: its picture, or nothing. */
  function OverlayOf(a: Alert): (r: seq<string>)
    ensures forall x :: x in r <==> ImageFor(a) == Some(x)
  {
    match ImageFor(a)
    case Some(png) => [png]
    case None => []
  }

  /** show_rune_overlays: the pictures requested for a list of alerts, in
      list order, skipping names without one. */
  function Overlays(alerts: seq<Alert>): (r: seq<string>)
    ensures |r| <= |alerts|
    ensures forall x :: x in r <==> exists a | a in alerts :: ImageFor(a) == Some(x)
  {
    if |alerts| == 0 then []
    else
      assert forall a | a in alerts :: a == alerts[0] || a in alerts[1..];
      OverlayOf(alerts[0]) + Overlays(alerts[1..])
  }

  /** The overlays of a concatenation are the overlays of its parts. */
  lemma {:induction false} OverlaysConcat(a: seq<Alert>, b: seq<Alert>)
    ensures Overlays(a + b) == Overlays(a) + Overlays(b)
  {
    if |a| > 0 {
      assert (a + b)[0] == a[0];
      assert (a + b)[1..] == a[1..] + b;
      OverlaysConcat(a[1..], b);
      var head := OverlayOf(a[0]);
      assert Overlays(a + b) == head + (Overlays(a[1..]) + Overlays(b));
      assert head + (Overlays(a[1..]) + Overlays(b)) == (head + Overlays(a[1..])) + Overlays(b);
    } else {
      assert a + b == b;
    }
  }

  /** A list of alerts without pictures requests no overlay. */
  lemma {:induction false} NoOverlays(alerts: seq<Alert>)
    requires forall i | 0 <= i < |alerts| :: !HasImage(alerts[i])
    ensures Overlays(alerts) == []
  {
    if |alerts| > 0 {
      NoOverlays(alerts[1..]);
    }
  }

  /** Roshan's alerts bring up no overlay. */
  lemma RoshanNoOverlays(gameTime: int)
    ensures Overlays(RoshanTimer.GetAlerts(gameTime)) == []
  {
    var roshan := RoshanTimer.GetAlerts(gameTime);
    assert forall i | 0 <= i < |roshan| :: roshan[i] in roshan;
    NoOverlays(roshan);
  }

  /** Nor do the day/night alerts. */
  lemma CycleNoOverlays(gameTime: int)
    ensures Overlays(DayNightTimer.GetAlerts(gameTime)) == []
  {
    var cycle := DayNightTimer.GetAlerts(gameTime);
    assert forall i | 0 <= i < |cycle| :: cycle[i] in cycle;
    assert forall e | e in DayNightTimer.DayNightSchedule() :: e.name in {DayCycle, NightCycle};
    NoOverlays(cycle);
  }

  /** Only rune alerts bring up overlays: Roshan and the day/night cycle never
      do, so a tick's overlays are those of its rune alerts. */
  lemma TickOverlays(gameTime: int)
    ensures Overlays(CheckEvents(gameTime)) == Overlays(RuneTimer.GetAlerts(gameTime))
  {
    var rune := RuneTimer.GetAlerts(gameTime);
    var roshan := RoshanTimer.GetAlerts(gameTime);
    var cycle := DayNightTimer.GetAlerts(gameTime);
    OverlaysConcat(rune + roshan, cycle);
    OverlaysConcat(rune, roshan);
    RoshanNoOverlays(gameTime);
    CycleNoOverlays(gameTime);
    assert Overlays(rune) + [] + [] == Overlays(rune);
  }

  /** format_time of the window: the sign, unpadded minutes, a colon and two
      second digits. */
  function FormatTime(secs: int): (r: string)
    ensures ParseClock(r) == Some(secs)
    ensures r[0] == '-' <==> secs < 0
    ensures |r| == (if secs < 0 then 1 else 0) + |ShowNat(Abs(secs) / 60)| + 3
  {
    FormatRoundTrip(secs, 1);
    FormatClock(secs, 1)
  }

  /** Under ten minutes either way the minutes take a single digit; from
      then on the field grows with the number, with no zero padding. */
  lemma MinutesUnpadded(secs: int)
    ensures Abs(secs) < 600 <==> |FormatTime(secs)| == (if secs < 0 then 5 else 4)
  {
  }

  /** The two fields of the start label: one minute, zero seconds. */
  lemma StartFields()
    ensures PadZeros(ShowNat(1), 1) == "1"
    ensures PadZeros(ShowNat(0), 2) == "00"
  {
    assert ShowNat(1) == [DigitChar(1)] == "1";
    assert ShowNat(0) == [DigitChar(0)] == "0";
    assert PadZeros("0", 2) == PadZeros("00", 2);
  }

  /** The rendering of -60 with unpadded minutes. */
  lemma MinusOneMinute()
    ensures FormatClock(-60, 1) == "-1:00"
  {
    StartFields();
    assert 60 / 60 == 1 && 60 % 60 == 0;
    assert Magnitude(60, 1) == PadZeros(ShowNat(1), 1) + ":" + PadZeros(ShowNat(0), 2);
    assert FormatClock(-60, 1) == "-" + Magnitude(60, 1);
  }

  /** The label the window shows at construction and after a reset. */
  lemma StartLabel()
    ensures FormatTime(Initial().currentTime) == "-1:00"
  {
    MinusOneMinute();
  }

  /** Pausing then starting resumes from where the clock stopped. */
  lemma PauseResume(w: Window)
    ensures Start(Pause(w)) == w.(running := true)
  {
  }

  /** Updates while running move the clock one second each; a reset after
      any of them returns to -1:00. */
  lemma ResetAfterUpdate(w: Window)
    ensures Reset(UpdateTimer(w).window) == Initial()
  {
  }
}
