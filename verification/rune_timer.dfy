/** The Qt application's rune timer (timers/rune_timer.py): a one-hour
    table of bounty, water, wisdom and power rune spawns, and the alerts due
    ten seconds before each spawn. */
module RuneTimer {
  import opened Schedule

  /** get_alerts warns this many seconds before a spawn. */
  const Lead: int := 10

  /** The two water runes, added once rather than by a loop. */
  const WaterEvents: seq<Event> := [Event(120, WaterRune), Event(240, WaterRune)]

  /** The table generate_events builds: bounties every 180 s from 0:00, the
      two water runes, wisdom every 420 s from 7:00 and power every 120 s
      from 6:00, each up to and including 60:00. */
  function RuneSchedule(): seq<Event> {
    Progression(0, 180, BountyRune) + WaterEvents
    + Progression(420, 420, WisdomRune) + Progression(360, 120, PowerRune)
  }

  /** generate_events: the three generator loops and the water extension,
      in the order the source runs them. */
  method GenerateEvents() returns (events: seq<Event>)
    ensures events == RuneSchedule()
    ensures |events| == 21 + 2 + 8 + 28
  {
    events := AppendProgression([], 0, 180, BountyRune);
    events := events + WaterEvents;
    events := AppendProgression(events, 420, 420, WisdomRune);
    events := AppendProgression(events, 360, 120, PowerRune);
  }

  /** The closed-form rule for each rune: does `name` spawn at `spawn`? */
  predicate Spawns(name: Alert, spawn: int) {
    match name
    case BountyRune => 0 <= spawn <= Horizon && spawn % 180 == 0
    case WaterRune => spawn == 120 || spawn == 240
    case WisdomRune => 420 <= spawn <= Horizon && spawn % 420 == 0
    case PowerRune => 360 <= spawn <= Horizon && spawn % 120 == 0
    case _ => false
  }

  /** Every entry of the table lies within the hour and satisfies its own
      rune's rule; bounties number 21, wisdom runes 8 and power runes 28. */
  lemma ScheduleSound()
    ensures forall e | e in RuneSchedule() :: 0 <= e.spawnTime <= Horizon && Spawns(e.name, e.spawnTime)
    ensures |Progression(0, 180, BountyRune)| == 21
    ensures |Progression(420, 420, WisdomRune)| == 8
    ensures |Progression(360, 120, PowerRune)| == 28
  {
    forall e | e in RuneSchedule()
      ensures 0 <= e.spawnTime <= Horizon && Spawns(e.name, e.spawnTime)
    {
      var x := e.spawnTime;
      if e in Progression(0, 180, BountyRune) {
        ProgressionName(0, 180, BountyRune, e);
        MemberOnGrid(0, 180, BountyRune, x);
      } else if e in Progression(420, 420, WisdomRune) {
        ProgressionName(420, 420, WisdomRune, e);
        MemberOnGrid(420, 420, WisdomRune, x);
        assert (x - 420) % 420 == x % 420;
      } else if e in Progression(360, 120, PowerRune) {
        ProgressionName(360, 120, PowerRune, e);
        MemberOnGrid(360, 120, PowerRune, x);
        assert (x - 360) % 120 == x % 120;
      } else {
        assert e in WaterEvents;
      }
    }
  }

  /** get_alerts: the table's names, in table order, spawning Lead seconds
      after `gameTime`. */
  function GetAlerts(gameTime: int): (r: seq<Alert>)
    ensures forall a :: a in r <==> Event(gameTime + Lead, a) in RuneSchedule()
  {
    Alerts(RuneSchedule(), gameTime, Lead)
  }

  /** A one-element list when `due`, else the empty list. */
  function When(due: bool, a: Alert): seq<Alert> {
    if due then [a] else []
  }

  lemma WaterAlerts(gameTime: int)
    ensures Alerts(WaterEvents, gameTime, Lead) == When(Spawns(WaterRune, gameTime + Lead), WaterRune)
  {
    assert WaterEvents[1..] == [Event(240, WaterRune)];
    assert WaterEvents[1..][1..] == [];
  }

  lemma BountyAlerts(gameTime: int)
    ensures Alerts(Progression(0, 180, BountyRune), gameTime, Lead)
      == When(Spawns(BountyRune, gameTime + Lead), BountyRune)
  {
    ProgressionAlerts(0, 180, BountyRune, gameTime, Lead);
  }

  lemma WisdomAlerts(gameTime: int)
    ensures Alerts(Progression(420, 420, WisdomRune), gameTime, Lead)
      == When(Spawns(WisdomRune, gameTime + Lead), WisdomRune)
  {
    ProgressionAlerts(420, 420, WisdomRune, gameTime, Lead);
    var x := gameTime + Lead;
    assert (x - 420) % 420 == x % 420;
  }

  lemma PowerAlerts(gameTime: int)
    ensures Alerts(Progression(360, 120, PowerRune), gameTime, Lead)
      == When(Spawns(PowerRune, gameTime + Lead), PowerRune)
  {
    ProgressionAlerts(360, 120, PowerRune, gameTime, Lead);
    var x := gameTime + Lead;
    assert (x - 360) % 120 == x % 120;
  }

  /** The alerts of a tick in closed form: at most one of each rune, in the
      order bounty, water, wisdom, power, each exactly when its own rule says
      it spawns Lead seconds later. */
  lemma GetAlertsClosedForm(gameTime: int)
    ensures GetAlerts(gameTime)
      == When(Spawns(BountyRune, gameTime + Lead), BountyRune)
       + When(Spawns(WaterRune, gameTime + Lead), WaterRune)
       + When(Spawns(WisdomRune, gameTime + Lead), WisdomRune)
       + When(Spawns(PowerRune, gameTime + Lead), PowerRune)
  {
    var bounty := Progression(0, 180, BountyRune);
    var wisdom := Progression(420, 420, WisdomRune);
    var power := Progression(360, 120, PowerRune);
    AlertsConcat(bounty + WaterEvents + wisdom, power, gameTime, Lead);
    AlertsConcat(bounty + WaterEvents, wisdom, gameTime, Lead);
    AlertsConcat(bounty, WaterEvents, gameTime, Lead);
    BountyAlerts(gameTime);
    WaterAlerts(gameTime);
    WisdomAlerts(gameTime);
    PowerAlerts(gameTime);
  }

  /** A rune is among a tick's alerts exactly when its rule says it spawns
      Lead seconds later. */
  lemma AlertIffSpawns(gameTime: int, a: Alert)
    ensures a in GetAlerts(gameTime) <==> Spawns(a, gameTime + Lead)
  {
    GetAlertsClosedForm(gameTime);
  }

  /** No tick more than Lead seconds before 0:00, or later than Lead seconds
      before 60:00, gets a rune alert. */
  lemma OutsideHourSilent(gameTime: int)
    requires gameTime < -Lead || gameTime > Horizon - Lead
    ensures GetAlerts(gameTime) == []
  {
    GetAlertsClosedForm(gameTime);
  }

  /** Bounty and power spawn together at 6:00, so the tick ten seconds
      earlier carries both, bounty first. */
  lemma SixMinutes()
    ensures GetAlerts(350) == [BountyRune, PowerRune]
  {
    GetAlertsClosedForm(350);
  }

  /** Water is announced on exactly two ticks of the match, ten seconds before
      its two fixed spawns. */
  lemma WaterOnlyTwice(gameTime: int)
    ensures WaterRune in GetAlerts(gameTime) <==> gameTime == 110 || gameTime == 230
  {
    AlertIffSpawns(gameTime, WaterRune);
  }
}
