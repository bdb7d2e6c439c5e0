/** The Qt application's day/night timer (timers/daynight_timer.py): a
    one-hour table of transitions every 300 s, alternating day and night
    from a day at 0:00, and the alerts due fifteen seconds before each. */
module DayNightTimer {
  import opened Schedule

  /** get_alerts warns this many seconds before a transition. */
  const Lead: int := 15

  /** Seconds between two transitions. */
  const Period: int := 300

  /** The cycle that starts at the k-th transition: day for even k. */
  function Phase(k: int): Alert {
    if k % 2 == 0 then DayCycle else NightCycle
  }

  /** The table generate_events builds: the k-th transition at k * Period,
      for every such time up to and including 60:00. */
  function DayNightSchedule(): (s: seq<Event>)
    ensures |s| == Count(0, Period) == 13
    ensures forall k | 0 <= k < |s| :: s[k] == Event(k * Period, Phase(k))
  {
    seq(Count(0, Period), k requires 0 <= k => Event(k * Period, Phase(k)))
  }

  /** generate_events: one loop that appends the current cycle and flips
      `is_day` after each step. */
  method GenerateEvents() returns (events: seq<Event>)
    ensures events == DayNightSchedule()
  {
    events := [];
    var t := 0;
    var isDay := true;
    ghost var k := 0;
    while t <= Horizon
      invariant t == k * Period && 0 <= k <= 13
      invariant isDay <==> k % 2 == 0
      invariant |events| == k
      invariant forall i | 0 <= i < k :: events[i] == Event(i * Period, Phase(i))
      decreases Horizon - t
    {
      var eventType := if isDay then DayCycle else NightCycle;
      events := events + [Event(t, eventType)];
      t := t + Period;
      isDay := !isDay;
      k := k + 1;
    }
  }

  /** Every day of the 600 s progression from 0:00 is in the table, at an
      even index. */
  lemma DayInSchedule(e: Event)
    requires e in Progression(0, 2 * Period, DayCycle)
    ensures e in DayNightSchedule()
  {
    ProgressionName(0, 2 * Period, DayCycle, e);
    MemberOnGrid(0, 2 * Period, DayCycle, e.spawnTime);
    var j := e.spawnTime / (2 * Period);
    assert e.spawnTime == (2 * j) * Period;
    MulMono(j, 7, 2 * Period);
    assert (2 * j) % 2 == 0;
    assert DayNightSchedule()[2 * j] == e;
  }

  /** Every night of the 600 s progression from 5:00 is in the table, at an
      odd index. */
  lemma NightInSchedule(e: Event)
    requires e in Progression(Period, 2 * Period, NightCycle)
    ensures e in DayNightSchedule()
  {
    ProgressionName(Period, 2 * Period, NightCycle, e);
    MemberOnGrid(Period, 2 * Period, NightCycle, e.spawnTime);
    var j := (e.spawnTime - Period) / (2 * Period);
    assert e.spawnTime == (2 * j + 1) * Period;
    MulMono(j, 6, 2 * Period);
    assert (2 * j + 1) % 2 == 1;
    assert DayNightSchedule()[2 * j + 1] == e;
  }

  /** Every table entry is a day of the first progression or a night of the
      second. */
  lemma ScheduleInProgressions(e: Event)
    requires e in DayNightSchedule()
    ensures e in Progression(0, 2 * Period, DayCycle) || e in Progression(Period, 2 * Period, NightCycle)
  {
    var s := DayNightSchedule();
    var k :| 0 <= k < |s| && s[k] == e;
    MulMono(k, 12, Period);
    var j := k / 2;
    if k % 2 == 0 {
      assert e == Event(j * (2 * Period), DayCycle);
      MultipleMod(j, 2 * Period);
      GridIsMember(0, 2 * Period, DayCycle, e.spawnTime);
    } else {
      assert e == Event(Period + j * (2 * Period), NightCycle);
      MultipleMod(j, 2 * Period);
      GridIsMember(Period, 2 * Period, NightCycle, e.spawnTime);
    }
  }

  /** Independent reading of the table: days every 600 s from 0:00 and
      nights every 600 s from 5:00, merged. */
  lemma ScheduleInterleaves(e: Event)
    ensures e in DayNightSchedule()
      <==> e in Progression(0, 2 * Period, DayCycle) || e in Progression(Period, 2 * Period, NightCycle)
  {
    if e in DayNightSchedule() {
      ScheduleInProgressions(e);
    }
    if e in Progression(0, 2 * Period, DayCycle) {
      DayInSchedule(e);
    }
    if e in Progression(Period, 2 * Period, NightCycle) {
      NightInSchedule(e);
    }
  }

  /** Transition times are distinct. */
  lemma ScheduleDistinct()
    ensures DistinctTimes(DayNightSchedule())
  {
  }

  /** get_alerts: the table's cycles whose transition is Lead seconds after
      `gameTime`. */
  function GetAlerts(gameTime: int): (r: seq<Alert>)
    ensures forall a :: a in r <==> Event(gameTime + Lead, a) in DayNightSchedule()
    ensures |r| <= 1
  {
    ScheduleDistinct();
    AtMostOneAlert(DayNightSchedule(), gameTime, Lead);
    Alerts(DayNightSchedule(), gameTime, Lead)
  }

  /** The alerts of a tick in closed form: the cycle that starts Lead seconds
      later, when a transition of the hour falls there. */
  lemma GetAlertsClosedForm(gameTime: int)
    ensures GetAlerts(gameTime)
      == if 0 <= gameTime + Lead <= Horizon && (gameTime + Lead) % Period == 0
         then [Phase((gameTime + Lead) / Period)] else []
  {
    var s := DayNightSchedule();
    var x := gameTime + Lead;
    ScheduleDistinct();
    if 0 <= x <= Horizon && x % Period == 0 {
      var k := x / Period;
      assert s[k] == Event(x, Phase(k));
      AlertsSingle(s, gameTime, Lead, Phase(k));
    } else {
      NoneDue(s, gameTime, Lead);
    }
  }

  /** The day warning: Lead seconds before every multiple of 600 s in the
      hour, including the one before 0:00. */
  lemma DayWarning(gameTime: int)
    ensures DayCycle in GetAlerts(gameTime)
      <==> -Lead <= gameTime <= Horizon - Lead && (gameTime + Lead) % (2 * Period) == 0
  {
    GetAlertsClosedForm(gameTime);
  }

  /** The night warning: Lead seconds before 5:00, 15:00, ..., 55:00. */
  lemma NightWarning(gameTime: int)
    ensures NightCycle in GetAlerts(gameTime)
      <==> -Lead <= gameTime <= Horizon - Lead && (gameTime + Lead) % (2 * Period) == Period
  {
    GetAlertsClosedForm(gameTime);
  }

  /** The first warning of the match comes fifteen seconds before the
      horn; the horn itself is silent. */
  lemma Horn()
    ensures GetAlerts(-15) == [DayCycle]
    ensures GetAlerts(0) == []
  {
    GetAlertsClosedForm(-15);
    GetAlertsClosedForm(0);
  }
}
