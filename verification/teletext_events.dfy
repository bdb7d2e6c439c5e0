/** The Tk timer's alert evaluator (dota2_timer.py, check_events and the
    (sound, image) pairs it hands to trigger_alert). Every rule is a live
    modular check on the game clock `t`; nothing is precomputed. */
module TeletextEvents {
  import opened Wrappers
  import opened GameConfig

  /** The sounds the sound engine can play, one per event kind. */
  datatype Sound = Bounty | Power | Water | Wisdom | Roshan | Day | Night {

    /** The key check_events passes to the sound engine. */
    function Name(): string {
      match this
      case Bounty => "bounty"
      case Power => "power"
      case Water => "water"
      case Wisdom => "wisdom"
      case Roshan => "roshan"
      case Day => "day"
      case Night => "night"
    }
  }

  /** The warning pictures trigger_alert can show. */
  datatype Image = WisdomSoon | BountySoon | PowerSoon | WaterSoon {

    /** The file name check_events passes for the picture. */
    function FileName(): string {
      match this
      case WisdomSoon => "wisdom_soon.png"
      case BountySoon => "bounty_soon.png"
      case PowerSoon => "power_soon.png"
      case WaterSoon => "water_soon.png"
    }
  }

  /** One alert: the sound to play and, when there is one, the overlay image. */
  datatype Cue = Cue(sound: Sound, image: Option<Image>)

  /** A rune that first spawns at `start` and then every `interval` seconds;
      its warning fires `offset` seconds before each spawn. */
  datatype RepeatingRune = RepeatingRune(sound: Sound, image: Option<Image>, start: int, interval: int, offset: int)

  const WisdomRune := RepeatingRune(Wisdom, Some(WisdomSoon), StartWisdom, IntWisdom, OffsetWisdom)
  const BountyRune := RepeatingRune(Bounty, Some(BountySoon), StartBounty, IntBounty, OffsetBounty)
  const PowerRune := RepeatingRune(Power, Some(PowerSoon), StartPower, IntPower, OffsetPower)
  const RoshanRune := RepeatingRune(Roshan, None, StartRoshan, IntRoshan, OffsetRoshan)

  /** The repeating runes, in the order check_events tests them. */
  const RepeatingRunes: seq<RepeatingRune> := [WisdomRune, BountyRune, PowerRune, RoshanRune]

  /** The water rune is not repeating: it spawns at 2:00 and 4:00 only. */
  const WaterTimes: seq<int> := [120, 240]
  const WaterCue := Cue(Water, Some(WaterSoon))

  /** Which picture goes with a sound: each rune has its own warning picture;
      Roshan and the day/night flip show none. */
  function ImageOf(s: Sound): Option<Image> {
    match s
    case Wisdom => Some(WisdomSoon)
    case Bounty => Some(BountySoon)
    case Power => Some(PowerSoon)
    case Water => Some(WaterSoon)
    case _ => None
  }

  function Sounds(cues: seq<Cue>): set<Sound> {
    set c | c in cues :: c.sound
  }

  /** Every cue carries the picture of its own sound. */
  predicate ImagesMatch(cues: seq<Cue>) {
    forall i | 0 <= i < |cues| :: cues[i].image == ImageOf(cues[i].sound)
  }

  /** No two cues of the list play the same sound. */
  predicate DistinctSounds(cues: seq<Cue>) {
    forall i, j | 0 <= i < j < |cues| :: cues[i].sound != cues[j].sound
  }

  /** The warning of the day/night flip: `Offset` seconds before each multiple
      of the interval, for t > 0, naming the phase that is about to begin. */
  function DayNightCue(t: int): (cues: seq<Cue>)
    ensures |cues| <= 1
    ensures ImagesMatch(cues)
    ensures forall i | 0 <= i < |cues| :: Rank(cues[i].sound) == 0
    ensures Sounds(cues) <= {Day, Night}
    ensures Night in Sounds(cues) <==> t > 0 && t % 300 == 285 && (t / 300) % 2 == 0
    ensures Day in Sounds(cues) <==> t > 0 && t % 300 == 285 && (t / 300) % 2 == 1
  {
    if t > 0 && IntDayNight - t % IntDayNight == OffsetDayNight then
      var cycleCount := t / IntDayNight;
      var isCurrentlyDay := cycleCount % 2 == 0;
      var nextIsDay := !isCurrentlyDay;
      [Cue(if nextIsDay then Day else Night, None)]
    else []
  }

  /** The guard check_events puts on a repeating rune at tick `t`. */
  predicate Due(t: int, rune: RepeatingRune)
    requires rune.interval > 0
  {
    t >= rune.start - rune.offset && (t + rune.offset) % rune.interval == 0
  }

  /** The file each trigger_alert call site passes is "<sound>_soon.png", the
      sound's own key followed by a fixed suffix. */
  lemma ImageNames(s: Sound)
    ensures ImageOf(s).Some? ==> ImageOf(s).value.FileName() == s.Name() + "_soon.png"
    ensures ImageOf(s).None? <==> s in {Roshan, Day, Night}
  {
    assert "wisdom" + "_soon.png" == "wisdom_soon.png";
    assert "bounty" + "_soon.png" == "bounty_soon.png";
    assert "power" + "_soon.png" == "power_soon.png";
    assert "water" + "_soon.png" == "water_soon.png";
  }

  /** The guarded modular check shared by the wisdom, bounty, power and Roshan rules. */
  function RepeatingCue(t: int, rune: RepeatingRune): (cues: seq<Cue>)
    requires rune in RepeatingRunes
    ensures |cues| <= 1
    ensures ImagesMatch(cues)
    ensures forall i | 0 <= i < |cues| :: cues[i].sound == rune.sound
    ensures Sounds(cues) <= {rune.sound}
    ensures rune.sound in Sounds(cues) <==> Due(t, rune)
  {
    if Due(t, rune) then [Cue(rune.sound, rune.image)] else []
  }

  /** The loop over the literal water spawn times. */
  function WaterCues(t: int, times: seq<int>): seq<Cue> {
    if |times| == 0 then []
    else (if t == times[0] - OffsetWater then [WaterCue] else []) + WaterCues(t, times[1..])
  }

  lemma WaterCuesExact(t: int)
    ensures WaterCues(t, WaterTimes) == if t == 106 || t == 226 then [WaterCue] else []
  {
    assert WaterTimes[1..] == [240];
    assert [240][1..] == [];
    assert WaterCues(t, [240]) == (if t == 226 then [WaterCue] else []) + WaterCues(t, []);
  }

  /** The position of each sound's rule in check_events: day/night first,
      then wisdom, bounty, power, water and Roshan. */
  function Rank(s: Sound): nat {
    match s
    case Day => 0
    case Night => 0
    case Wisdom => 1
    case Bounty => 2
    case Power => 3
    case Water => 4
    case Roshan => 5
  }

  /** The cues come in strictly increasing rule order. */
  predicate InCheckOrder(cues: seq<Cue>) {
    forall i, j | 0 <= i < j < |cues| :: Rank(cues[i].sound) < Rank(cues[j].sound)
  }

  predicate RanksBelow(cues: seq<Cue>, k: nat) {
    forall i | 0 <= i < |cues| :: Rank(cues[i].sound) < k
  }

  /** Appending at most one cue of rule k to cues of earlier rules keeps the
      check order. */
  lemma OrderedAppend(a: seq<Cue>, b: seq<Cue>, k: nat)
    requires InCheckOrder(a) && RanksBelow(a, k)
    requires |b| <= 1 && forall i | 0 <= i < |b| :: Rank(b[i].sound) == k
    ensures InCheckOrder(a + b) && RanksBelow(a + b, k + 1)
  {
  }

  /** Cues in check order never repeat a sound. */
  lemma OrderedDistinct(cues: seq<Cue>)
    requires InCheckOrder(cues)
    ensures DistinctSounds(cues)
  {
  }

  lemma ImagesConcat(a: seq<Cue>, b: seq<Cue>)
    requires ImagesMatch(a) && ImagesMatch(b)
    ensures ImagesMatch(a + b)
  {
  }

  /** The cues check_events produces at tick `t`, in the order it produces
      them. At t == 0 the match-start "day" is the only cue. */
  function Cues(t: int): (cues: seq<Cue>)
    ensures ImagesMatch(cues)
  {
    if t == 0 then [Cue(Day, None)]
    else
      var dayNight := DayNightCue(t);
      var wisdom := RepeatingCue(t, WisdomRune);
      var bounty := RepeatingCue(t, BountyRune);
      var power := RepeatingCue(t, PowerRune);
      var water := WaterCues(t, WaterTimes);
      var roshan := RepeatingCue(t, RoshanRune);
      WaterCuesExact(t);
      ImagesConcat(dayNight, wisdom);
      ImagesConcat(dayNight + wisdom, bounty);
      ImagesConcat(dayNight + wisdom + bounty, power);
      ImagesConcat(dayNight + wisdom + bounty + power, water);
      ImagesConcat(dayNight + wisdom + bounty + power + water, roshan);
      dayNight + wisdom + bounty + power + water + roshan
  }

  /** Independent statement of when each sound is due at tick `t`, written
      from the game's timings rather than from check_events' control flow. */
  predicate Fires(s: Sound, t: int) {
    match s
    case Day => t == 0 || (t > 0 && t % 300 == 285 && (t / 300) % 2 == 1)
    case Night => t > 0 && t % 300 == 285 && (t / 300) % 2 == 0
    case Wisdom => t >= 415 && (t + 5) % 420 == 0
    case Bounty => t >= 232 && (t + 8) % 240 == 0
    case Power => t >= 349 && (t + 11) % 120 == 0
    case Water => t == 106 || t == 226
    case Roshan => t >= 583 && (t + 17) % 600 == 0
  }

  lemma InConcat(a: seq<Cue>, b: seq<Cue>, s: Sound)
    ensures s in Sounds(a + b) <==> s in Sounds(a) || s in Sounds(b)
  {
    if s in Sounds(a + b) {
      var c :| c in a + b && c.sound == s;
      assert c in a || c in b;
    }
    if s in Sounds(a) {
      var c :| c in a && c.sound == s;
      assert c in a + b;
    }
    if s in Sounds(b) {
      var c :| c in b && c.sound == s;
      assert c in a + b;
    }
  }

  /** Each sound of a tick other than 0 comes from its own rule only. */
  lemma OwnRuleOnly(t: int, s: Sound)
    requires t != 0
    ensures s in Sounds(Cues(t)) <==>
      if s == Wisdom then Due(t, WisdomRune)
      else if s == Bounty then Due(t, BountyRune)
      else if s == Power then Due(t, PowerRune)
      else if s == Roshan then Due(t, RoshanRune)
      else if s == Water then t == 106 || t == 226
      else s in Sounds(DayNightCue(t))
  {
    var water := WaterCues(t, WaterTimes);
    WaterCuesExact(t);
    assert Sounds([WaterCue]) == {Water};
    SixPieces(DayNightCue(t), RepeatingCue(t, WisdomRune), RepeatingCue(t, BountyRune),
              RepeatingCue(t, PowerRune), water, RepeatingCue(t, RoshanRune), s);
  }

  /** Six lists of cues, each holding only its own rule's sounds: a sound is
      in the concatenation exactly when it is in its own rule's list. */
  lemma SixPieces(p0: seq<Cue>, p1: seq<Cue>, p2: seq<Cue>, p3: seq<Cue>, p4: seq<Cue>, p5: seq<Cue>, s: Sound)
    requires Sounds(p0) <= {Day, Night} && Sounds(p1) <= {Wisdom} && Sounds(p2) <= {Bounty}
    requires Sounds(p3) <= {Power} && Sounds(p4) <= {Water} && Sounds(p5) <= {Roshan}
    ensures s in Sounds(p0 + p1 + p2 + p3 + p4 + p5) <==>
      if s == Wisdom then s in Sounds(p1)
      else if s == Bounty then s in Sounds(p2)
      else if s == Power then s in Sounds(p3)
      else if s == Water then s in Sounds(p4)
      else if s == Roshan then s in Sounds(p5)
      else s in Sounds(p0)
  {
    InConcat(p0, p1, s);
    InConcat(p0 + p1, p2, s);
    InConcat(p0 + p1 + p2, p3, s);
    InConcat(p0 + p1 + p2 + p3, p4, s);
    InConcat(p0 + p1 + p2 + p3 + p4, p5, s);
  }

  /** check_events cues a sound at tick `t` exactly when the reference says
      it is due: its guarded checks and the t == 0 special case together
      implement the timings, in both directions. */
  lemma CuesMatchReference(t: int, s: Sound)
    ensures s in Sounds(Cues(t)) <==> Fires(s, t)
  {
    if t != 0 {
      OwnRuleOnly(t, s);
    }
  }

  /** Wisdom's boundary: 415 and 835 warn, 414 and 416 do not. */
  lemma WisdomBoundary()
    ensures Wisdom in Sounds(Cues(415)) && Wisdom in Sounds(Cues(835))
    ensures Wisdom !in Sounds(Cues(414)) && Wisdom !in Sounds(Cues(416))
  {
    CuesMatchReference(415, Wisdom);
    CuesMatchReference(835, Wisdom);
    CuesMatchReference(414, Wisdom);
    CuesMatchReference(416, Wisdom);
  }

  /** Concrete day/night warnings: night at 4:45, day at 9:45, nothing at 5:00. */
  lemma DayNightExamples()
    ensures Night in Sounds(Cues(285)) && Day !in Sounds(Cues(285))
    ensures Day in Sounds(Cues(585)) && Night !in Sounds(Cues(585))
    ensures Day !in Sounds(Cues(300)) && Night !in Sounds(Cues(300))
  {
    CuesMatchReference(285, Day);
    CuesMatchReference(285, Night);
    CuesMatchReference(585, Day);
    CuesMatchReference(585, Night);
    CuesMatchReference(300, Day);
    CuesMatchReference(300, Night);
  }

  /** At t == 0 check_events returns right after the "day" cue, although the
      day/night arithmetic alone would not fire there. */
  lemma MatchStart()
    ensures Cues(0) == [Cue(Day, None)]
    ensures DayNightCue(0) == []
  {
  }

  /** Before the match clock reaches 0, no rule fires at all: day/night needs
      t > 0, water needs 106 or 226, and every repeating guard needs t >= 232. */
  lemma NoCueBeforeMatch(t: int)
    requires t < 0
    ensures Cues(t) == []
  {
    assert !Due(t, WisdomRune);
    assert !Due(t, BountyRune);
    assert !Due(t, PowerRune);
    assert !Due(t, RoshanRune);
    assert DayNightCue(t) == [];
    WaterCuesExact(t);
  }

  /** A repeating rune is heard exactly when its guard holds. */
  lemma RepeatingFires(t: int, rune: RepeatingRune)
    requires rune in RepeatingRunes
    ensures rune.sound in Sounds(Cues(t)) <==> Due(t, rune)
  {
    if t != 0 {
      OwnRuleOnly(t, rune.sound);
    } else {
      CuesMatchReference(t, rune.sound);
    }
  }

  /** Whenever a repeating rune's guard passes (so, by RepeatingFires,
      whenever it warns), t + offset is one of its spawn times
      start + k * interval. */
  lemma RepeatingSoundness(t: int, rune: RepeatingRune)
    requires rune in RepeatingRunes
    requires Due(t, rune)
    ensures exists k: nat :: t + rune.offset == rune.start + k * rune.interval
  {
    assert rune.start % rune.interval == 0;
    OnGrid(t + rune.offset, rune.start, rune.interval);
  }

  /** A multiple of the interval at or after a start that is itself a multiple
      is a whole number of intervals after the start. */
  lemma OnGrid(x: int, start: int, interval: int)
    requires interval > 0 && x >= start
    requires x % interval == 0 && start % interval == 0
    ensures exists k: nat :: x == start + k * interval
  {
    var q1 := x / interval;
    var q2 := start / interval;
    assert x == interval * q1 && start == interval * q2;
    assert x - start == interval * (q1 - q2);
    assert q1 >= q2;
    var k: nat := q1 - q2;
    assert x == start + k * interval;
  }

  /** Each repeating rune's guard passes at start - offset. */
  lemma FirstDue(rune: RepeatingRune)
    requires rune in RepeatingRunes
    ensures Due(rune.start - rune.offset, rune)
  {
    var first := rune.start - rune.offset;
    if rune == WisdomRune { assert first == 415; }
    else if rune == BountyRune { assert first == 232; }
    else if rune == PowerRune { assert first == 349; }
    else { assert first == 583; }
  }

  /** The first warning of a repeating rune is exactly start - offset. */
  lemma FirstWarning(rune: RepeatingRune)
    requires rune in RepeatingRunes
    ensures rune.sound in Sounds(Cues(rune.start - rune.offset))
    ensures forall t | t < rune.start - rune.offset :: rune.sound !in Sounds(Cues(t))
  {
    var first := rune.start - rune.offset;
    FirstDue(rune);
    RepeatingFires(first, rune);
    forall t | t < first
      ensures rune.sound !in Sounds(Cues(t))
    {
      RepeatingFires(t, rune);
    }
  }

  /** The cues of a tick come in the order check_events tests the rules. */
  lemma CuesInCheckOrder(t: int)
    ensures InCheckOrder(Cues(t))
  {
    if t != 0 {
      var water := WaterCues(t, WaterTimes);
      WaterCuesExact(t);
      assert |water| <= 1 && forall i | 0 <= i < |water| :: Rank(water[i].sound) == 4;
      SixInOrder(DayNightCue(t), RepeatingCue(t, WisdomRune), RepeatingCue(t, BountyRune),
                 RepeatingCue(t, PowerRune), water, RepeatingCue(t, RoshanRune));
    }
  }

  /** Six lists of at most one cue each, the k-th holding only rule k's sounds,
      concatenate in check order. */
  lemma SixInOrder(p0: seq<Cue>, p1: seq<Cue>, p2: seq<Cue>, p3: seq<Cue>, p4: seq<Cue>, p5: seq<Cue>)
    requires |p0| <= 1 && forall i | 0 <= i < |p0| :: Rank(p0[i].sound) == 0
    requires |p1| <= 1 && forall i | 0 <= i < |p1| :: Rank(p1[i].sound) == 1
    requires |p2| <= 1 && forall i | 0 <= i < |p2| :: Rank(p2[i].sound) == 2
    requires |p3| <= 1 && forall i | 0 <= i < |p3| :: Rank(p3[i].sound) == 3
    requires |p4| <= 1 && forall i | 0 <= i < |p4| :: Rank(p4[i].sound) == 4
    requires |p5| <= 1 && forall i | 0 <= i < |p5| :: Rank(p5[i].sound) == 5
    ensures InCheckOrder(p0 + p1 + p2 + p3 + p4 + p5)
  {
    OrderedAppend([], p0, 0);
    assert [] + p0 == p0;
    OrderedAppend(p0, p1, 1);
    OrderedAppend(p0 + p1, p2, 2);
    OrderedAppend(p0 + p1 + p2, p3, 3);
    OrderedAppend(p0 + p1 + p2 + p3, p4, 4);
    OrderedAppend(p0 + p1 + p2 + p3 + p4, p5, 5);
  }

  /** No sound is cued twice on one tick, so the cues form a set. */
  lemma CuesDistinct(t: int)
    ensures DistinctSounds(Cues(t))
  {
    CuesInCheckOrder(t);
    OrderedDistinct(Cues(t));
  }

  /** From the earliest start mode (-90) up to 1:50, only the match-start day
      cue and the first water warning fire. */
  lemma OpeningMinutes(t: int)
    requires StartNormal <= t <= 110
    ensures Cues(t) == if t == 0 then [Cue(Day, None)] else if t == 106 then [WaterCue] else []
  {
    if t < 0 {
      NoCueBeforeMatch(t);
    } else if t > 0 {
      assert !Due(t, WisdomRune);
      assert !Due(t, BountyRune);
      assert !Due(t, PowerRune);
      assert !Due(t, RoshanRune);
      assert DayNightCue(t) == [];
      WaterCuesExact(t);
    }
  }
}
