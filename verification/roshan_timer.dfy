/** The Qt application's Roshan timer (timers/roshan_timer.py): spawns every
    600 s from 10:00 up to 60:00, announced ten seconds early. */
module RoshanTimer {
  import opened Schedule

  /** get_alerts warns this many seconds before a spawn. */
  const Lead: int := 10

  /** The table generate_events builds. */
  function RoshanSchedule(): seq<Event> {
    Progression(600, 600, RoshanRune)
  }

  /** generate_events: one generator loop from 10:00 in steps of 10 minutes. */
  method GenerateEvents() returns (events: seq<Event>)
    ensures events == RoshanSchedule()
    ensures |events| == 6
    ensures forall k | 0 <= k < 6 :: events[k] == Event(600 * (k + 1), RoshanRune)
  {
    events := AppendProgression([], 600, 600, RoshanRune);
  }

  /** get_alerts: the table's names whose spawn is Lead seconds after
      `gameTime`. */
  function GetAlerts(gameTime: int): (r: seq<Alert>)
    ensures forall a :: a in r <==> Event(gameTime + Lead, a) in RoshanSchedule()
  {
    Alerts(RoshanSchedule(), gameTime, Lead)
  }

  /** A Roshan alert comes exactly Lead seconds before 10:00, 20:00, ...,
      60:00 and nowhere else; it is never doubled. */
  lemma GetAlertsClosedForm(gameTime: int)
    ensures GetAlerts(gameTime)
      == if 600 - Lead <= gameTime <= Horizon - Lead && (gameTime + Lead) % 600 == 0
         then [RoshanRune] else []
  {
    ProgressionAlerts(600, 600, RoshanRune, gameTime, Lead);
    assert (gameTime + Lead - 600) % 600 == (gameTime + Lead) % 600;
  }

  /** Before the first spawn's warning the Roshan timer is silent. */
  lemma SilentEarly(gameTime: int)
    requires gameTime < 600 - Lead
    ensures GetAlerts(gameTime) == []
  {
    GetAlertsClosedForm(gameTime);
  }
}
