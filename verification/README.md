# Dota 2 rune timer: alert timing

This is a Dafny model of the alert-timing core of a Dota 2 companion timer.
The timer reads an integer game clock, counting seconds and negative before
the horn. On every tick it decides which events to warn about: bounty, water,
wisdom and power runes, Roshan, and the day/night flip. The repository
implements this twice, and the model keeps the two side by side, each as
written:

- **The Tk timer** (`dota2_timer.py`) has a constant table (`GameConfig`).
  Its `check_events` evaluates live modular rules of the form
  `t >= START - OFFSET and (t + OFFSET) % INT == 0`. Tick 0 is a special
  case, and the water times are a literal list. Its clock has three start
  modes (Normal -1:30, Bots -1:15, Turbo -1:00), Start, Reset and a
  once-per-second tick.
- **The Qt application** (`gui/gui.py` and the `timers` directory) precomputes
  one-hour tables with `while t <= 3600: ...; t += step` loops. It filters
  them with `spawn_time - lead == game_time`. Its window clock starts at
  -1:00 and has Start, Pause and Reset.

The two versions do not agree, and the model does not claim they do. The
`TwoVersions` module proves over all ticks that they never warn about bounty,
water, wisdom, power or Roshan on the same tick. They do agree on day and
night between the horn and 59:45. At the horn they part: the Qt day warning
comes at -0:15, while the Tk timer plays "day" at 0:00. After 59:45 only the
Tk timer warns, because the Qt table ends at 60:00 and the Tk rule has no end.

Modules, one per component:

| file | module | models |
|---|---|---|
| game_config.dfy | `GameConfig` | the constant table of `dota2_timer.py` |
| teletext_events.dfy | `TeletextEvents` | `check_events` as the pure `Cues(t)` returning (sound, image) cues in check order; a reference `Fires` written from the timings |
| teletext_clock.dfy | `TeletextClock` | `set_mode`, `start_timer`, `reset_timer`, `tick`, `format_time` |
| schedule.dfy | `Schedule` | what the three table timers share: the event record, the generator loop, the `get_alerts` filter |
| rune_timer.dfy, daynight_timer.dfy, roshan_timer.dfy | `RuneTimer`, `DayNightTimer`, `RoshanTimer` | each table's `generate_events` and `get_alerts` |
| qt_window.dfy | `QtWindow` | the MainWindow clock, `check_events` concatenation, `RUNE_IMAGE_MAP` overlays, `format_time` |
| divergence.dfy | `TwoVersions` | where the two evaluators agree and where they part |
| clock_text.dfy, digits.dfy, wrappers.dfy | `ClockText`, `Digits`, `Wrappers` | the shared `[-]m:ss` renderer with its parser, decimal digits, `Option` |

What the program hands to its surroundings becomes calls and returned values:

- the tick chain (`after(1000, tick)` and `QTimer`) becomes repeated calls of `Tick`/`UpdateTimer`;
- sound playback and overlays become the returned cue and alert lists;
- window focus is left out (see below).

## Model

| member | source | states |
|---|---|---|
| TeletextEvents.DayNightCue | dota2_timer.py:397-416 | for t > 0 at 285 s into a 300 s period: night when the period index is even, day when it is odd; at most one cue, never with an image |
| TeletextEvents.RepeatingCue | dota2_timer.py:418-448 | a repeating rune is cued exactly when its guard `t >= start - offset && (t + offset) % interval == 0` holds, with at most one cue of its own sound |
| TeletextEvents.ImageNames | dota2_timer.py:418-448 | a sound's image, when it has one, is the file "<sound>_soon.png"; exactly Roshan, day and night have none |
| TeletextEvents.WaterCuesExact | dota2_timer.py:437-443 | the water loop cues exactly at t = 106 and t = 226 |
| TeletextEvents.Cues | dota2_timer.py:388-448 | every cue's image follows the naming convention; Roshan and day/night cues carry none |
| TeletextEvents.CuesMatchReference | dota2_timer.py:388-448 | a sound is cued at t if and only if the independent timing rule `Fires` holds, in both directions |
| TeletextEvents.MatchStart | dota2_timer.py:391-395 | at t = 0 the only cue is "day", although the day/night arithmetic alone would not fire there |
| TeletextEvents.NoCueBeforeMatch | dota2_timer.py:397-448 | before 0:00 nothing is cued at all |
| TeletextEvents.WisdomBoundary | dota2_timer.py:418-425 | wisdom is cued at 415 and 835, not at 414 or 416 |
| TeletextEvents.DayNightExamples | dota2_timer.py:400-416 | night at 4:45, day at 9:45, nothing at 5:00 |
| TeletextEvents.RepeatingFires | dota2_timer.py:418-448 | a repeating rune's sound is heard exactly when its guard holds |
| TeletextEvents.RepeatingSoundness | dota2_timer.py:418-448 | whenever a repeating rune's guard holds, t + offset is start + k * interval for some k >= 0, i.e. a real spawn time |
| TeletextEvents.FirstDue | dota2_timer.py:418-448 | each repeating rune's guard passes at start - offset (6:55, 3:52, 5:49, 9:43) |
| TeletextEvents.FirstWarning | dota2_timer.py:418-448 | the first warning of each repeating rune is exactly start - offset, and none comes earlier |
| TeletextEvents.CuesInCheckOrder | dota2_timer.py:388-448 | the cues of a tick come in the order of the checks: day/night, wisdom, bounty, power, water, Roshan |
| TeletextEvents.CuesDistinct | dota2_timer.py:388-448 | no sound is cued twice on one tick |
| TeletextEvents.OpeningMinutes | dota2_timer.py:388-448 | from -1:30 to 1:50 the only cues are "day" at 0:00 and water at 1:46 |
| TeletextClock.StartOf | dota2_timer.py:332 | each mode's start time is one of -90, -75, -60, all before the horn |
| TeletextClock.Initial | dota2_timer.py:288-291 | the window starts in Normal mode at -1:30, not running |
| TeletextClock.SetMode | dota2_timer.py:322-326 | a mode button sets both the clock and the remembered start time, whatever the running state |
| TeletextClock.Tick | dota2_timer.py:377-383 | while running, the clock advances by exactly one and the cues of the new time sound; otherwise nothing changes and nothing sounds |
| TeletextClock.Start | dota2_timer.py:364-369 | a no-op while running; otherwise it sets running and ticks at once, so the clock advances by one |
| TeletextClock.Reset | dota2_timer.py:371-375 | clears running and restores the selected mode's start time |
| TeletextClock.FormatTime | dota2_timer.py:359-362 | the text reads back as the same second count (mm * 60 + ss = \|seconds\|, ss < 60), starts with "-" exactly for negative times, and has exactly two minute digits below 100 minutes and the plain decimal minutes from then on |
| TeletextClock.StartIdempotent | dota2_timer.py:364-369 | starting a started clock changes nothing |
| TeletextClock.ModeThenReset | dota2_timer.py:322-375 | choosing a mode and resetting gives an idle clock at that mode's start |
| TeletextClock.ResetAfterTick | dota2_timer.py:371-383 | ticks never change where a reset returns to |
| TeletextClock.LogSplit | dota2_timer.py:377-383 | the cues of n + m ticks are those of the first n followed by those of the next m |
| TeletextClock.LogOne | dota2_timer.py:377-383 | the log of one tick is that tick's cues |
| TeletextClock.Run | dota2_timer.py:377-383 | n ticks of a running clock advance it by n and sound, in order, the cues of each new time |
| ClockText.Magnitude | dota2_timer.py:361-362 | the unsigned part of either `format_time` (`divmod` by 60): minute digits padded to the width, a colon, and two second digits worth n mod 60 |
| ClockText.FormatClock | dota2_timer.py:359-362 | the rendering has a "-" exactly for negative times, a colon before two second digits, the seconds equal \|seconds\| mod 60, and the minute field is the decimal minutes padded to the given width |
| ClockText.TwoDigitMinutes | dota2_timer.py:362 | padded to width two, the minute field is two digits below ten minutes and the plain decimal from then on |
| ClockText.FormatRoundTrip | dota2_timer.py:359-362 | parsing a rendering gives back the second count, for either minute width |
| Digits.ShowNat | dota2_timer.py:361-362 | the decimal rendering of a count reads back as that count, without leading zeros |
| Digits.PadZeros | dota2_timer.py:362 | zero padding reaches the width and keeps the value |
| Schedule.AppendProgression | timers/rune_timer.py:33-36 | the generator loop appends exactly start, start + step, ... up to 3600 |
| Schedule.ProgressionMember | timers/rune_timer.py:33-36 | a time is generated if and only if it lies in [start, 3600] and is a whole number of steps after start |
| Schedule.ProgressionShape | timers/rune_timer.py:33-51 | generated times lie in [start, 3600] and grow by exactly one step |
| Schedule.ProgressionDistinct | timers/rune_timer.py:33-51 | one category's generated times are distinct |
| Schedule.Alerts | timers/rune_timer.py:65 | a name is alerted if and only if an event of that name spawns exactly lead seconds after the tick |
| Schedule.AlertsConcat | timers/rune_timer.py:65 | filtering a concatenated table gives the concatenated filter results, in table order |
| Schedule.AtMostOneAlert | timers/daynight_timer.py:49 | with distinct spawn times, at most one alert per tick |
| Schedule.AlertsSingle | timers/roshan_timer.py:46 | with distinct spawn times, an event spawning lead seconds later is the one and only alert |
| Schedule.NoneDue | timers/roshan_timer.py:46 | when nothing spawns lead seconds later there is no alert |
| Schedule.NoAlertOutside | timers/rune_timer.py:65 | a tick whose target time lies outside the table's span gets no alert |
| Schedule.ProgressionAlerts | timers/rune_timer.py:33-65 | a repeating table's alert is its name exactly when the target time is on its grid within the hour, otherwise none |
| RuneTimer.GenerateEvents | timers/rune_timer.py:23-53 | the table is bounties every 180 s from 0, the two water runes, wisdom every 420 s from 420, power every 120 s from 360, 59 entries |
| RuneTimer.ScheduleSound | timers/rune_timer.py:30-51 | every entry lies in [0, 3600] and satisfies its rune's closed-form rule; 21 bounties, 8 wisdom, 28 power |
| RuneTimer.GetAlerts | timers/rune_timer.py:65 | a name is alerted exactly when the table holds it 10 s after the tick |
| RuneTimer.BountyAlerts | timers/rune_timer.py:33-36 | the bounty entries alert exactly 10 s before a multiple of 180 s in [0, 3600] |
| RuneTimer.WaterAlerts | timers/rune_timer.py:39 | the water entries alert exactly 10 s before 2:00 and 4:00 |
| RuneTimer.WisdomAlerts | timers/rune_timer.py:42-45 | the wisdom entries alert exactly 10 s before a multiple of 420 s in [420, 3600] |
| RuneTimer.PowerAlerts | timers/rune_timer.py:48-51 | the power entries alert exactly 10 s before a multiple of 120 s in [360, 3600] |
| RuneTimer.GetAlertsClosedForm | timers/rune_timer.py:33-65 | the table lookup equals the modular rules: bounty, water, wisdom, power, each at most once and in that order |
| RuneTimer.AlertIffSpawns | timers/rune_timer.py:65 | a rune is alerted if and only if its rule says it spawns 10 s later |
| RuneTimer.OutsideHourSilent | timers/rune_timer.py:65 | no alert before -0:10 or after 59:50 |
| RuneTimer.SixMinutes | timers/rune_timer.py:33-65 | at 5:50 the alerts are bounty then power |
| RuneTimer.WaterOnlyTwice | timers/rune_timer.py:39 | water is alerted at 1:50 and 3:50 and nowhere else |
| DayNightTimer.DayNightSchedule | timers/daynight_timer.py:27-34 | 13 transitions, the k-th at k * 300 s, day for even k and night for odd k |
| DayNightTimer.GenerateEvents | timers/daynight_timer.py:27-36 | the alternating loop builds exactly that table |
| DayNightTimer.DayInSchedule | timers/daynight_timer.py:27-34 | every multiple of 600 s in [0, 3600] is a day transition of the table |
| DayNightTimer.NightInSchedule | timers/daynight_timer.py:27-34 | every time 300 mod 600 in [300, 3600] is a night transition of the table |
| DayNightTimer.ScheduleInProgressions | timers/daynight_timer.py:27-34 | every table entry is one of those days or nights |
| DayNightTimer.ScheduleInterleaves | timers/daynight_timer.py:27-34 | the table is days every 600 s from 0:00 merged with nights every 600 s from 5:00 |
| DayNightTimer.ScheduleDistinct | timers/daynight_timer.py:27-34 | transition times are distinct |
| DayNightTimer.GetAlerts | timers/daynight_timer.py:49 | a cycle is alerted exactly when it begins 15 s after the tick, and at most one is |
| DayNightTimer.GetAlertsClosedForm | timers/daynight_timer.py:49 | the lookup equals: the phase starting 15 s later, when a transition of the hour falls there |
| DayNightTimer.DayWarning | timers/daynight_timer.py:49 | day is alerted if and only if g + 15 is a multiple of 600 in [0, 3600] |
| DayNightTimer.NightWarning | timers/daynight_timer.py:49 | night is alerted if and only if g + 15 is 300 mod 600 in [0, 3600] |
| DayNightTimer.Horn | timers/daynight_timer.py:27-49 | the alerts at -0:15 are [day]; at 0:00 there are none |
| RoshanTimer.GenerateEvents | timers/roshan_timer.py:27-33 | the table is 600 * k for k = 1..6, all Roshan |
| RoshanTimer.GetAlerts | timers/roshan_timer.py:46 | Roshan is alerted exactly when the table holds it 10 s after the tick |
| RoshanTimer.GetAlertsClosedForm | timers/roshan_timer.py:46 | the alerts are [Roshan] if and only if 590 <= g <= 3590 and (g + 10) mod 600 = 0, otherwise empty |
| RoshanTimer.SilentEarly | timers/roshan_timer.py:46 | nothing before 9:50 |
| QtWindow.Initial | gui/gui.py:67-68 | the window starts at -1:00, not running |
| QtWindow.Start | gui/gui.py:106-111 | sets running and keeps the clock; a no-op when already running |
| QtWindow.Pause | gui/gui.py:113-116 | clears running and keeps the clock |
| QtWindow.Reset | gui/gui.py:118-122 | from any state, gives the initial state: -1:00, not running |
| QtWindow.UpdateTimer | gui/gui.py:124-128 | advances the clock by exactly one, keeps running, and evaluates the new time |
| QtWindow.CheckEvents | gui/gui.py:130-138 | the alerts are the rune, Roshan and day/night results concatenated: nothing lost, nothing added |
| QtWindow.ImageFor | gui/gui.py:44-49 | an alert has an overlay picture exactly when it is one of the four runes |
| QtWindow.OverlayOf | gui/gui.py:146-151 | one alert requests its picture, or nothing when it has none |
| QtWindow.Overlays | gui/gui.py:146-151 | the pictures requested are exactly the pictures of the listed alerts that have one |
| QtWindow.OverlaysConcat | gui/gui.py:146-151 | the overlays of a concatenation are the overlays of its parts in order |
| QtWindow.NoOverlays | gui/gui.py:146-151 | alerts without pictures request no overlay |
| QtWindow.RoshanNoOverlays | gui/gui.py:146-151 | the Roshan timer's alerts never request an overlay |
| QtWindow.CycleNoOverlays | gui/gui.py:146-151 | the day/night timer's alerts never request an overlay |
| QtWindow.TickOverlays | gui/gui.py:130-151 | Roshan and day/night alerts never bring up an overlay; a tick's overlays are its rune alerts' |
| QtWindow.FormatTime | gui/gui.py:153-159 | the text reads back as the same second count, starts with "-" exactly for negative times, and has unpadded minutes |
| QtWindow.MinutesUnpadded | gui/gui.py:153-159 | minutes take one digit exactly below ten minutes either way |
| QtWindow.StartFields | gui/gui.py:153-159 | for one minute, the unpadded minutes read "1" and the padded seconds read "00" |
| QtWindow.MinusOneMinute | gui/gui.py:153-159 | -60 s renders as "-1:00" |
| QtWindow.StartLabel | gui/gui.py:67-74 | the initial label reads "-1:00" |
| QtWindow.PauseResume | gui/gui.py:106-116 | pausing then starting resumes from the same time |
| QtWindow.ResetAfterUpdate | gui/gui.py:118-128 | a reset after an update returns to the initial state |
| TwoVersions.ImagesAgree | gui/gui.py:44-49 | both versions show the same picture for the same event, and none for Roshan or day/night |
| TwoVersions.BountyTicksDiffer | dota2_timer.py:427-430 | a Tk bounty warning tick (t + 8 a multiple of 240) is never a Qt one (t + 10 a multiple of 180) |
| TwoVersions.BountyNeverTogether | dota2_timer.py:427-430 | Tk (every 240 s from 4:00, 8 s early) and Qt (every 180 s from 0:00, 10 s early) never warn of bounty on the same tick |
| TwoVersions.BountyFirstWarnings | timers/rune_timer.py:33-36 | Qt warns of bounty at -0:10 and 2:50, where Tk does not; Tk first warns at 3:52, where Qt does not |
| TwoVersions.RoshanNeverTogether | dota2_timer.py:445-448 | Roshan is warned 17 s early in Tk and 10 s early in Qt, so never on the same tick |
| TwoVersions.RoshanFirstWarnings | timers/roshan_timer.py:46 | at 9:43 only Tk warns of Roshan, at 9:50 only Qt |
| TwoVersions.WaterNeverTogether | dota2_timer.py:437-443 | water warnings (1:46, 3:46 vs 1:50, 3:50) never coincide |
| TwoVersions.LeadsDiffer | dota2_timer.py:418-448 | warnings of one period whose leads differ by less than the period never share a tick |
| TwoVersions.WisdomNeverTogether | dota2_timer.py:418-425 | wisdom warnings (5 s vs 10 s early) never coincide |
| TwoVersions.PowerNeverTogether | dota2_timer.py:432-435 | power warnings (11 s vs 10 s early) never coincide |
| TwoVersions.TkCyclePosition | dota2_timer.py:400-416 | after the horn Tk cues day exactly at 585 mod 600 and night exactly at 285 mod 600 |
| TwoVersions.QtCyclePosition | timers/daynight_timer.py:27-49 | the Qt table alerts day exactly at 585 mod 600 and night exactly at 285 mod 600, for ticks from -0:15 to 59:45, and never outside that span |
| TwoVersions.DayAgrees | dota2_timer.py:397-416 | between the horn and 59:45 the two versions warn of day on the same ticks |
| TwoVersions.NightAgrees | dota2_timer.py:397-416 | between the horn and 59:45 the two versions warn of night on the same ticks |
| TwoVersions.HornDiffers | dota2_timer.py:391-395 | Qt warns of day at -0:15 where Tk is silent; Tk plays day at 0:00 where Qt is silent |
| TwoVersions.CycleEndsTkGoesOn | timers/daynight_timer.py:30 | after 59:45 the Qt day/night table is silent, while Tk still cues day at 585 and night at 285 mod 600 |
| TwoVersions.NightAfterTheHour | dota2_timer.py:400-416 | at 64:45 Tk cues night and the Qt table has nothing |
| TwoVersions.TablesEndTkGoesOn | timers/roshan_timer.py:29 | for every tick after 59:50 the Qt Roshan table is silent, while Tk warns exactly when t + 17 is a multiple of 600 |
| TwoVersions.RoshanAfterTheHour | dota2_timer.py:445-448 | at 69:43 Tk warns of Roshan; the Qt table has nothing at 69:43 or 69:50 |

## Left out

- Sound playback is left out: `SoundEngine` in dota2_timer.py and utils/sound_manager.py. Both are foreign audio calls. The Tk model returns the cue list to play. `play_rune_sounds` plays the Qt alerts in `sorted()` name order, so that order is not modelled and the model keeps the list order.
- Overlay rendering and its 5 s auto-hide are left out. These are widgets and timers. The model returns the requested image names.
- Window focusing is left out, in both `focus_dota_window` and utils/game_focus.py. It is OS and process I/O.
- `resource_path`, icons, style sheets, widget construction, label texts and colours, and main.py wiring are left out. They are UI and filesystem plumbing.
- Real-time scheduling (`after(1000, ...)`, `QTimer`), drift and event-loop interleavings are left out. An example is a Tk reset followed by a start within one second, which can leave two tick chains pending. Each tick is modelled as one sequential call.
- The Qt `check_events` try/except that prints an error and continues is left out. Nothing in the modelled lookups can raise.
- The Tk `set_mode` has no guard, so the model lets a mode be chosen while running. The code is followed here, not any intent to lock the mode while running.
- QtWindow.UpdateTimer does not check `running`. `update_timer` has no guard either; it is only called by the QTimer, which runs between Start and Pause.
- The GameConfig constants, the Qt start time and the `RUNE_IMAGE_MAP` entries are modelled as constants. Nothing in the code validates or changes them at run time.
- `get_alerts` leaves the event table unchanged. The model gets this for free, because the tables are immutable values and the filters are pure functions.
