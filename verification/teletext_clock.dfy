/** The Tk timer's clock (dota2_timer.py, TeletextTimer): mode selection,
    start, reset and the once-per-second tick, with the widgets, the window
    focus call and the one-second rescheduling left to the caller. */
module TeletextClock {
  import opened Wrappers
  import opened GameConfig
  import opened TeletextEvents
  import opened ClockText
  import opened Digits

  /** The three start modes offered by the mode buttons. */
  datatype Mode = Normal | Bots | Turbo

  function StartOf(m: Mode): (start: int)
    ensures start in {StartNormal, StartBots, StartTurbo}
    ensures start < 0
  {
    match m
    case Normal => StartNormal
    case Bots => StartBots
    case Turbo => StartTurbo
  }

  /** The timer's state: the game clock, the start time of the selected
      mode, and whether the tick chain is running. */
  datatype Clock = Clock(gameTime: int, selectedStartTime: int, running: bool)

  /** A transition's result: the new state and the cues it sounded. */
  datatype Step = Step(clock: Clock, cues: seq<Cue>)

  /** The state after construction: Normal mode selected, not running. */
  function Initial(): (c: Clock)
    ensures c.gameTime == c.selectedStartTime == StartOf(Normal)
    ensures !c.running
  {
    SetMode(Clock(StartNormal, StartNormal, false), Normal)
  }

  /** A mode button sets both the clock and the remembered start time; it
      does not look at `running`. */
  function SetMode(c: Clock, m: Mode): (r: Clock)
    ensures r.gameTime == StartOf(m) && r.selectedStartTime == StartOf(m)
    ensures r.running == c.running
  {
    c.(selectedStartTime := StartOf(m), gameTime := StartOf(m))
  }

  /** One tick: while running, advance the clock by one second and evaluate
      the cues of the new time; otherwise nothing happens. */
  function Tick(c: Clock): (s: Step)
    ensures c.running ==> s.clock.gameTime == c.gameTime + 1 && s.cues == Cues(s.clock.gameTime)
    ensures !c.running ==> s.clock == c && s.cues == []
    ensures s.clock.running == c.running && s.clock.selectedStartTime == c.selectedStartTime
  {
    if c.running then
      var next := c.(gameTime := c.gameTime + 1);
      Step(next, Cues(next.gameTime))
    else Step(c, [])
  }

  /** Start: a no-op while running; otherwise set running and tick at once. */
  function Start(c: Clock): (s: Step)
    ensures c.running ==> s == Step(c, [])
    ensures !c.running ==> s.clock.running && s.clock.gameTime == c.gameTime + 1 && s.cues == Cues(c.gameTime + 1)
    ensures s.clock.selectedStartTime == c.selectedStartTime
  {
    if c.running then Step(c, [])
    else Tick(c.(running := true))
  }

  /** Reset: stop and put the clock back to the selected mode's start. */
  function Reset(c: Clock): (r: Clock)
    ensures !r.running && r.gameTime == c.selectedStartTime
    ensures r.selectedStartTime == c.selectedStartTime
  {
    c.(running := false, gameTime := c.selectedStartTime)
  }

  /** The clock text of the Tk window: two-digit minutes and seconds. */
  function FormatTime(seconds: int): (r: string)
    ensures ParseClock(r) == Some(seconds)
    ensures r[0] == '-' <==> seconds < 0
    ensures |r| == (if seconds < 0 then 1 else 0)
      + (if Abs(seconds) / 60 < 10 then 2 else |ShowNat(Abs(seconds) / 60)|) + 3
  {
    FormatRoundTrip(seconds, 2);
    TwoDigitMinutes(Abs(seconds));
    FormatClock(seconds, 2)
  }

  /** Starting twice is the same as starting once. */
  lemma StartIdempotent(c: Clock)
    ensures Start(Start(c).clock) == Step(Start(c).clock, [])
  {
  }

  /** Selecting a mode and resetting leaves the mode's start time on an idle
      clock, whatever the state before. */
  lemma ModeThenReset(c: Clock, m: Mode)
    ensures Reset(SetMode(c, m)) == Clock(StartOf(m), StartOf(m), false)
  {
  }

  /** Ticks never change the selected start, so a reset after any number of
      ticks returns to the same time. */
  lemma ResetAfterTick(c: Clock)
    ensures Reset(Tick(c).clock) == Reset(c)
  {
  }

  /** What an evaluator sounds over `count` consecutive ticks from `from`. */
  function Log(evaluate: int -> seq<Cue>, from: int, count: nat): seq<Cue>
    decreases count
  {
    if count == 0 then [] else evaluate(from) + Log(evaluate, from + 1, count - 1)
  }

  lemma {:induction false} LogSplit(evaluate: int -> seq<Cue>, from: int, n: nat, m: nat)
    ensures Log(evaluate, from, n + m) == Log(evaluate, from, n) + Log(evaluate, from + n, m)
    decreases n
  {
    if n > 0 {
      LogSplit(evaluate, from + 1, n - 1, m);
    }
  }

  /** One tick's log is that tick's evaluation. */
  lemma LogOne(evaluate: int -> seq<Cue>, from: int)
    ensures Log(evaluate, from, 1) == evaluate(from)
  {
    assert Log(evaluate, from + 1, 0) == [];
    assert evaluate(from) + [] == evaluate(from);
  }

  /** Runs the tick chain `n` times from a running clock and collects every
      cue it sounds. */
  method Run(c: Clock, n: nat) returns (final: Clock, log: seq<Cue>)
    requires c.running
    ensures final == c.(gameTime := c.gameTime + n)
    ensures log == Log(Cues, c.gameTime + 1, n)
  {
    final := c;
    log := [];
    var i := 0;
    while i < n
      invariant 0 <= i <= n
      invariant final == c.(gameTime := c.gameTime + i)
      invariant log == Log(Cues, c.gameTime + 1, i)
    {
      var step := Tick(final);
      var now := c.gameTime + 1 + i;
      assert step.cues == Cues(now);
      LogSplit(Cues, c.gameTime + 1, i, 1);
      LogOne(Cues, now);
      log := log + step.cues;
      final := step.clock;
      i := i + 1;
    }
  }
}
