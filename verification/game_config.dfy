/** The constant table of the Tk timer (dota2_timer.py, class GameConfig):
    match start times, warning offsets, repeat intervals and first spawn
    times, all in seconds of game time. */
module GameConfig {

  // Start times, negative seconds before 00:00.
  const StartNormal: int := -90
  const StartBots: int := -75
  const StartTurbo: int := -60

  // How many seconds before an event its warning fires.
  const OffsetWisdom: int := 5
  const OffsetBounty: int := 8
  const OffsetPower: int := 11
  const OffsetWater: int := 14
  const OffsetRoshan: int := 17
  const OffsetDayNight: int := 15

  // Repeat intervals.
  const IntWisdom: int := 420
  const IntBounty: int := 240
  const IntPower: int := 120
  const IntRoshan: int := 600
  const IntDayNight: int := 300

  // First spawn times.
  const StartWisdom: int := 420
  const StartBounty: int := 240
  const StartPower: int := 360
  const StartRoshan: int := 600
}
