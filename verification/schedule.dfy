/** What the three precomputed timers of the Qt application share
    (the timers directory): the (spawn_time, name) event record, the one-hour horizon,
    the `while t <= 3600: ...; t += step` generator loop and the
    `spawn_time - lead == game_time` filter of get_alerts. */
module Schedule {

  /** Every generator stops after 60 minutes of game time. */
  const Horizon: int := 3600

  /** The event names of the precomputed timers. */
  datatype Alert = BountyRune | WaterRune | WisdomRune | PowerRune | RoshanRune | DayCycle | NightCycle {

    /** The name string the timers put in their event tuples. */
    function Name(): string {
      match this
      case BountyRune => "Bounty_Rune"
      case WaterRune => "Water_Rune"
      case WisdomRune => "Wisdom_Rune"
      case PowerRune => "Power_Rune"
      case RoshanRune => "Roshan_Rune"
      case DayCycle => "Day_Cycle"
      case NightCycle => "Night_Cycle"
    }
  }

  /** One precomputed occurrence: when it spawns and what it is. */
  datatype Event = Event(spawnTime: int, name: Alert)

  /** How many times start, start + step, ... fit into [start, Horizon]. */
  function Count(start: int, step: int): nat
    requires step > 0
  {
    if start > Horizon then 0 else (Horizon - start) / step + 1
  }

  /** Closed form of a repeating schedule: start + k * step for every k whose
      time does not pass the horizon. */
  function Progression(start: int, step: int, name: Alert): (p: seq<Event>)
    requires step > 0
    ensures |p| == Count(start, step)
    ensures forall k | 0 <= k < |p| :: p[k] == Event(start + k * step, name)
  {
    seq(Count(start, step), k requires 0 <= k => Event(start + k * step, name))
  }

  lemma MulMono(a: int, b: int, step: int)
    requires a <= b && step > 0
    ensures a * step <= b * step
  {
    assert b * step - a * step == (b - a) * step;
  }

  /** k * step <= a exactly when k <= a / step. */
  lemma BelowQuotient(k: int, a: int, step: int)
    requires step > 0
    ensures k * step <= a <==> k <= a / step
  {
    var q := a / step;
    assert q * step <= a < (q + 1) * step;
    if k <= q {
      MulMono(k, q, step);
    } else {
      MulMono(q + 1, k, step);
    }
  }

  lemma DivBounds(a: int, step: int, k: int)
    requires step > 0
    requires (k - 1) * step <= a < k * step
    ensures a / step == k - 1
  {
    BelowQuotient(k - 1, a, step);
    BelowQuotient(k, a, step);
  }

  /** The generator loop: appends start, start + step, ... while the time
      does not pass the horizon. */
  method AppendProgression(events: seq<Event>, start: int, step: int, name: Alert) returns (out: seq<Event>)
    requires step > 0
    ensures out == events + Progression(start, step, name)
  {
    out := events;
    var t := start;
    ghost var k := 0;
    while t <= Horizon
      invariant t == start + k * step
      invariant k == 0 || start + (k - 1) * step <= Horizon
      invariant |out| == |events| + k
      invariant out[..|events|] == events
      invariant forall i | 0 <= i < k :: out[|events| + i] == Event(start + i * step, name)
      decreases Horizon - t
    {
      out := out + [Event(t, name)];
      t := t + step;
      k := k + 1;
    }
    if k > 0 {
      DivBounds(Horizon - start, step, k);
    }
    assert k == Count(start, step);
    assert out == events + Progression(start, step, name);
  }

  /** A spawn time is in a repeating schedule iff it lies within
      [start, Horizon] and is a whole number of steps after start. */
  lemma ProgressionMember(start: int, step: int, name: Alert, x: int)
    requires step > 0
    ensures Event(x, name) in Progression(start, step, name)
      <==> start <= x <= Horizon && (x - start) % step == 0
  {
    if Event(x, name) in Progression(start, step, name) {
      MemberOnGrid(start, step, name, x);
    }
    if start <= x <= Horizon && (x - start) % step == 0 {
      GridIsMember(start, step, name, x);
    }
  }

  lemma MemberOnGrid(start: int, step: int, name: Alert, x: int)
    requires step > 0
    requires Event(x, name) in Progression(start, step, name)
    ensures start <= x <= Horizon && (x - start) % step == 0
  {
    var p := Progression(start, step, name);
    var k :| 0 <= k < |p| && p[k] == Event(x, name);
    assert x - start == k * step;
    BelowQuotient(k, Horizon - start, step);
    MultipleMod(k, step);
  }

  lemma MultipleMod(k: int, step: int)
    requires step > 0
    ensures (k * step) % step == 0
  {
    DivBounds(k * step, step, k + 1);
  }

  lemma GridIsMember(start: int, step: int, name: Alert, x: int)
    requires step > 0
    requires start <= x <= Horizon && (x - start) % step == 0
    ensures Event(x, name) in Progression(start, step, name)
  {
    var p := Progression(start, step, name);
    var k := (x - start) / step;
    assert x - start == k * step;
    BelowQuotient(k, Horizon - start, step);
    assert p[k] == Event(x, name);
  }

  /** A repeating schedule only holds events of its own name. */
  lemma ProgressionName(start: int, step: int, name: Alert, e: Event)
    requires step > 0
    requires e in Progression(start, step, name)
    ensures e.name == name
  {
  }

  /** Spawn times of a repeating schedule lie in [start, Horizon] and grow by
      exactly one step from each entry to the next. */
  lemma ProgressionShape(start: int, step: int, name: Alert)
    requires step > 0
    ensures forall k | 0 <= k < |Progression(start, step, name)| ::
      start <= Progression(start, step, name)[k].spawnTime <= Horizon
    ensures forall k | 0 < k < |Progression(start, step, name)| ::
      Progression(start, step, name)[k].spawnTime == Progression(start, step, name)[k - 1].spawnTime + step
  {
    var p := Progression(start, step, name);
    forall k | 0 <= k < |p|
      ensures start <= p[k].spawnTime <= Horizon
    {
      BelowQuotient(k, Horizon - start, step);
    }
  }

  /** get_alerts: the names of the events, in schedule order, whose spawn
      time is `lead` seconds after `gameTime`. */
  function Alerts(events: seq<Event>, gameTime: int, lead: int): (r: seq<Alert>)
    ensures |r| <= |events|
    ensures forall a :: a in r <==> Event(gameTime + lead, a) in events
  {
    if |events| == 0 then []
    else
      var rest := Alerts(events[1..], gameTime, lead);
      assert forall e | e in events :: e == events[0] || e in events[1..];
      if events[0].spawnTime - lead == gameTime then [events[0].name] + rest else rest
  }

  /** No two events of the list share a spawn time. */
  predicate DistinctTimes(events: seq<Event>) {
    forall i, j | 0 <= i < j < |events| :: events[i].spawnTime != events[j].spawnTime
  }

  /** With distinct spawn times at most one event can be due per tick. */
  lemma {:induction false} AtMostOneAlert(events: seq<Event>, gameTime: int, lead: int)
    requires DistinctTimes(events)
    ensures |Alerts(events, gameTime, lead)| <= 1
  {
    if |events| > 0 {
      var tail := events[1..];
      assert DistinctTimes(tail);
      AtMostOneAlert(tail, gameTime, lead);
      if events[0].spawnTime - lead == gameTime {
        assert forall j | 0 <= j < |tail| :: tail[j] == events[j + 1];
        NoneDue(tail, gameTime, lead);
      }
    }
  }

  /** A repeating schedule has distinct spawn times. */
  lemma ProgressionDistinct(start: int, step: int, name: Alert)
    requires step > 0
    ensures DistinctTimes(Progression(start, step, name))
  {
    var p := Progression(start, step, name);
    forall i, j | 0 <= i < j < |p|
      ensures p[i].spawnTime != p[j].spawnTime
    {
      assert i * step < j * step;
    }
  }

  /** A tick with no event spawning `lead` seconds later gets no alert. */
  lemma {:induction false} NoneDue(events: seq<Event>, gameTime: int, lead: int)
    requires forall i | 0 <= i < |events| :: events[i].spawnTime != gameTime + lead
    ensures Alerts(events, gameTime, lead) == []
  {
    if |events| > 0 {
      NoneDue(events[1..], gameTime, lead);
    }
  }

  /** A tick whose spawn time falls outside the schedule's span gets no alert. */
  lemma NoAlertOutside(events: seq<Event>, gameTime: int, lead: int, low: int, high: int)
    requires forall i | 0 <= i < |events| :: low <= events[i].spawnTime <= high
    requires gameTime + lead < low || gameTime + lead > high
    ensures Alerts(events, gameTime, lead) == []
  {
    NoneDue(events, gameTime, lead);
  }

  /** The filter works piece by piece on a concatenated schedule. */
  lemma {:induction false} AlertsConcat(a: seq<Event>, b: seq<Event>, gameTime: int, lead: int)
    ensures Alerts(a + b, gameTime, lead) == Alerts(a, gameTime, lead) + Alerts(b, gameTime, lead)
  {
    if |a| > 0 {
      assert (a + b)[1..] == a[1..] + b;
      AlertsConcat(a[1..], b, gameTime, lead);
    } else {
      assert a + b == b;
    }
  }

  /** With distinct spawn times, an event spawning `lead` seconds after the
      tick is the one and only alert. */
  lemma AlertsSingle(events: seq<Event>, gameTime: int, lead: int, a: Alert)
    requires DistinctTimes(events)
    requires Event(gameTime + lead, a) in events
    ensures Alerts(events, gameTime, lead) == [a]
  {
    var r := Alerts(events, gameTime, lead);
    AtMostOneAlert(events, gameTime, lead);
    assert a in r;
    assert r[0] in r;
    var i :| 0 <= i < |events| && events[i] == Event(gameTime + lead, a);
    var j :| 0 <= j < |events| && events[j] == Event(gameTime + lead, r[0]);
    assert i == j;
  }

  /** The alerts of one repeating schedule, in closed form. */
  lemma ProgressionAlerts(start: int, step: int, name: Alert, gameTime: int, lead: int)
    requires step > 0
    ensures Alerts(Progression(start, step, name), gameTime, lead)
      == if start <= gameTime + lead <= Horizon && (gameTime + lead - start) % step == 0 then [name] else []
  {
    var p := Progression(start, step, name);
    var x := gameTime + lead;
    ProgressionMember(start, step, name, x);
    if start <= x <= Horizon && (x - start) % step == 0 {
      ProgressionDistinct(start, step, name);
      AlertsSingle(p, gameTime, lead, name);
    } else {
      forall i | 0 <= i < |p|
        ensures p[i].spawnTime != x
      {
        assert p[i] in p;
      }
      NoneDue(p, gameTime, lead);
    }
  }
}
