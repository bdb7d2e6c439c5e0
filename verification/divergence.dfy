/** The two evaluators side by side: the Tk timer's live modular checks
    (dota2_timer.py) and the Qt application's precomputed tables (the timers
    directory). They are not equivalent; these lemmas pin down, over all
    ticks, where they agree and where they part. */
module TwoVersions {
  import opened Wrappers
  import TE = TeletextEvents
  import opened Schedule
  import RuneTimer
  import RoshanTimer
  import DayNightTimer
  import QtWindow

  /** Whether the Tk evaluator plays sound `s` at tick `t`. */
  predicate TkCues(s: TE.Sound, t: int) {
    s in TE.Sounds(TE.Cues(t))
  }

  /** The Tk sound of the same event as a Qt alert name. */
  function SoundOf(a: Alert): TE.Sound {
    match a
    case BountyRune => TE.Bounty
    case WaterRune => TE.Water
    case WisdomRune => TE.Wisdom
    case PowerRune => TE.Power
    case RoshanRune => TE.Roshan
    case DayCycle => TE.Day
    case NightCycle => TE.Night
  }

  function FileOf(image: Option<TE.Image>): Option<string> {
    match image
    case None => None
    case Some(i) => Some(i.FileName())
  }

  /** Both versions show the same picture for the same event: one of the
      four rune images, and none for Roshan or the day/night flip. */
  lemma ImagesAgree(a: Alert)
    ensures QtWindow.ImageFor(a) == FileOf(TE.ImageOf(SoundOf(a)))
  {
  }

  /** A multiple of a * b is a multiple of b. */
  lemma FactorDivides(x: int, a: int, b: int)
    requires a > 0 && b > 0 && x % (a * b) == 0
    ensures x % b == 0
  {
    var q := x / (a * b);
    assert x == (a * b) * q;
    assert x == b * (a * q);
    DivBounds(x, b, a * q + 1);
  }

  /** The bounty warning ticks of the two versions lie in different residues
      mod 60: 52 for Tk (t + 8 a multiple of 240), 50 for Qt (t + 10 a
      multiple of 180). */
  lemma BountyTicksDiffer(t: int)
    ensures (t + 8) % 240 == 0 ==> (t + 10) % 180 != 0
  {
    if (t + 8) % 240 == 0 {
      FactorDivides(t + 8, 4, 60);
      Shifted(t + 8, 2, 60);
      if (t + 10) % 180 == 0 {
        FactorDivides(t + 10, 3, 60);
      }
    }
  }

  /** Bounty: every 240 s from 4:00 warned 8 s early in Tk, every 180 s from
      0:00 warned 10 s early in Qt. The two never warn on the same tick. */
  lemma BountyNeverTogether(t: int)
    ensures !(TkCues(TE.Bounty, t) && BountyRune in RuneTimer.GetAlerts(t))
  {
    TE.CuesMatchReference(t, TE.Bounty);
    RuneTimer.AlertIffSpawns(t, BountyRune);
    BountyTicksDiffer(t);
  }

  /** The first bounty warnings: Qt at -0:10 and 2:50, Tk not until 3:52. */
  lemma BountyFirstWarnings()
    ensures BountyRune in RuneTimer.GetAlerts(-10) && !TkCues(TE.Bounty, -10)
    ensures BountyRune in RuneTimer.GetAlerts(170) && !TkCues(TE.Bounty, 170)
    ensures TkCues(TE.Bounty, 232) && BountyRune !in RuneTimer.GetAlerts(232)
  {
    TE.CuesMatchReference(-10, TE.Bounty);
    TE.CuesMatchReference(170, TE.Bounty);
    TE.CuesMatchReference(232, TE.Bounty);
    RuneTimer.AlertIffSpawns(-10, BountyRune);
    RuneTimer.AlertIffSpawns(170, BountyRune);
    RuneTimer.AlertIffSpawns(232, BountyRune);
  }

  /** Roshan: both every 600 s from 10:00, but warned 17 s early in Tk and
      10 s early in Qt, so never on the same tick. */
  lemma RoshanNeverTogether(t: int)
    ensures !(TkCues(TE.Roshan, t) && RoshanRune in RoshanTimer.GetAlerts(t))
  {
    TE.CuesMatchReference(t, TE.Roshan);
    RoshanTimer.GetAlertsClosedForm(t);
    LeadsDiffer(t + 10, 7, 600);
  }

  /** The first Roshan warnings: Tk at 9:43, Qt at 9:50. */
  lemma RoshanFirstWarnings()
    ensures TkCues(TE.Roshan, 583) && RoshanTimer.GetAlerts(583) == []
    ensures !TkCues(TE.Roshan, 590) && RoshanTimer.GetAlerts(590) == [RoshanRune]
  {
    TE.CuesMatchReference(583, TE.Roshan);
    TE.CuesMatchReference(590, TE.Roshan);
    RoshanTimer.GetAlertsClosedForm(583);
    RoshanTimer.GetAlertsClosedForm(590);
  }

  /** Water: Tk warns 14 s early (1:46, 3:46), Qt 10 s early (1:50, 3:50). */
  lemma WaterNeverTogether(t: int)
    ensures !(TkCues(TE.Water, t) && WaterRune in RuneTimer.GetAlerts(t))
  {
    TE.CuesMatchReference(t, TE.Water);
    RuneTimer.WaterOnlyTwice(t);
  }

  /** A multiple of m moved by 0 < d < m leaves remainder d. */
  lemma Shifted(x: int, d: int, m: int)
    requires m > 0 && 0 < d < m && x % m == 0
    ensures (x + d) % m == d
  {
    var q := x / m;
    assert x == m * q;
    DivBounds(x + d, m, q + 1);
  }

  /** Two warnings of one period m whose leads differ by 0 < d < m never
      fall on the same tick. */
  lemma LeadsDiffer(x: int, d: int, m: int)
    requires m > 0 && 0 < d < m
    ensures x % m == 0 ==> (x + d) % m != 0
  {
    if x % m == 0 {
      Shifted(x, d, m);
    }
  }

  /** Wisdom: Tk warns 5 s early, Qt 10 s early, so never on the same tick. */
  lemma WisdomNeverTogether(t: int)
    ensures !(TkCues(TE.Wisdom, t) && WisdomRune in RuneTimer.GetAlerts(t))
  {
    TE.CuesMatchReference(t, TE.Wisdom);
    RuneTimer.AlertIffSpawns(t, WisdomRune);
    LeadsDiffer(t + 5, 5, 420);
  }

  /** Power: Tk warns 11 s early, Qt 10 s early, so never on the same tick. */
  lemma PowerNeverTogether(t: int)
    ensures !(TkCues(TE.Power, t) && PowerRune in RuneTimer.GetAlerts(t))
  {
    TE.CuesMatchReference(t, TE.Power);
    RuneTimer.AlertIffSpawns(t, PowerRune);
    LeadsDiffer(t + 10, 1, 120);
  }

  /** A tick's 300 s period index is twice its 600 s cycle index, plus one
      in the cycle's second half. */
  lemma CycleQuotient(t: int)
    ensures t / 300 == 2 * (t / 600) + (if t % 600 >= 300 then 1 else 0)
  {
    var q := t / 600;
    assert t == 600 * q + t % 600;
    if t % 600 >= 300 {
      DivBounds(t, 300, 2 * q + 2);
    } else {
      DivBounds(t, 300, 2 * q + 1);
    }
  }

  /** Position within the 300 s period and its parity, read off the 600 s
      cycle. */
  lemma CycleHalf(t: int)
    ensures t % 300 == (if t % 600 >= 300 then t % 600 - 300 else t % 600)
    ensures (t / 300) % 2 == (if t % 600 >= 300 then 1 else 0)
  {
    CycleQuotient(t);
    var q := t / 600;
    var b := if t % 600 >= 300 then 1 else 0;
    DivBounds(2 * q + b, 2, q + 1);
  }

  /** Fifteen seconds later in the 600 s cycle. */
  lemma CycleShift(t: int)
    ensures (t + 15) % 600 == (if t % 600 >= 585 then t % 600 - 585 else t % 600 + 15)
  {
    var q := t / 600;
    assert t + 15 == 600 * q + t % 600 + 15;
    if t % 600 >= 585 {
      DivBounds(t + 15, 600, q + 2);
    } else {
      DivBounds(t + 15, 600, q + 1);
    }
  }

  /** After the horn the Tk rules cue day at 9:45 within each 10 minutes and
      night at 4:45. */
  lemma TkCyclePosition(t: int)
    requires t > 0
    ensures TE.Fires(TE.Day, t) <==> t % 600 == 585
    ensures TE.Fires(TE.Night, t) <==> t % 600 == 285
  {
    CycleHalf(t);
  }

  /** The Qt day/night table warns at the same two positions of the cycle,
      but only from -0:15 to 59:45. */
  lemma QtCyclePosition(t: int)
    ensures DayCycle in DayNightTimer.GetAlerts(t) <==> -15 <= t <= 3585 && t % 600 == 585
    ensures NightCycle in DayNightTimer.GetAlerts(t) <==> -15 <= t <= 3585 && t % 600 == 285
  {
    DayNightTimer.DayWarning(t);
    DayNightTimer.NightWarning(t);
    CycleShift(t);
  }

  /** The day warnings agree on every tick after the horn up to the last
      warning of the hour. */
  lemma DayAgrees(t: int)
    requires 0 < t <= Horizon - DayNightTimer.Lead
    ensures TkCues(TE.Day, t) <==> DayCycle in DayNightTimer.GetAlerts(t)
  {
    TE.CuesMatchReference(t, TE.Day);
    TkCyclePosition(t);
    QtCyclePosition(t);
  }

  /** So do the night warnings. */
  lemma NightAgrees(t: int)
    requires 0 < t <= Horizon - DayNightTimer.Lead
    ensures TkCues(TE.Night, t) <==> NightCycle in DayNightTimer.GetAlerts(t)
  {
    TE.CuesMatchReference(t, TE.Night);
    TkCyclePosition(t);
    QtCyclePosition(t);
  }

  /** Around the horn they part: Qt warns of day at -0:15, Tk plays "day" at
      0:00 itself. */
  lemma HornDiffers()
    ensures DayNightTimer.GetAlerts(-15) == [DayCycle] && TE.Cues(-15) == []
    ensures DayNightTimer.GetAlerts(0) == [] && TE.Cues(0) == [TE.Cue(TE.Day, None)]
  {
    DayNightTimer.Horn();
    TE.NoCueBeforeMatch(-15);
    TE.MatchStart();
  }

  /** After 59:45 the Qt day/night table is silent, while the Tk rules keep
      cueing day and night every ten minutes. */
  lemma CycleEndsTkGoesOn(t: int)
    requires t > Horizon - DayNightTimer.Lead
    ensures DayNightTimer.GetAlerts(t) == []
    ensures TkCues(TE.Day, t) <==> t % 600 == 585
    ensures TkCues(TE.Night, t) <==> t % 600 == 285
  {
    DayNightTimer.GetAlertsClosedForm(t);
    TE.CuesMatchReference(t, TE.Day);
    TE.CuesMatchReference(t, TE.Night);
    TkCyclePosition(t);
  }

  /** For instance night is cued at 64:45, an hour after the last Qt night
      warning. */
  lemma NightAfterTheHour()
    ensures TkCues(TE.Night, 3885) && DayNightTimer.GetAlerts(3885) == []
  {
    CycleEndsTkGoesOn(3885);
  }

  /** Past the hour the Qt Roshan table falls silent, while the Tk rule
      goes on warning 17 s before every further ten minutes. */
  lemma TablesEndTkGoesOn(t: int)
    requires t > Horizon - RoshanTimer.Lead
    ensures RoshanTimer.GetAlerts(t) == []
    ensures TkCues(TE.Roshan, t) <==> (t + 17) % 600 == 0
  {
    RoshanTimer.GetAlertsClosedForm(t);
    TE.CuesMatchReference(t, TE.Roshan);
  }

  /** For instance Tk warns of Roshan at 69:43, where the Qt table, which
      ends at 60:00, has nothing then or at 69:50. */
  lemma RoshanAfterTheHour()
    ensures TkCues(TE.Roshan, 4183) && RoshanTimer.GetAlerts(4183) == [] && RoshanTimer.GetAlerts(4190) == []
  {
    TablesEndTkGoesOn(4183);
    TablesEndTkGoesOn(4190);
  }
}
