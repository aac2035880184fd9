/**
  The level clock of the status bar (src/game/StatusBar.java): a
  minutes:seconds countdown from 4:00 with a pause flag, and the health
  percentage it displays.

  Each firing of the status bar's timer runs updateTime(), which ticks the
  clock and then calls update(); update() drains the robot's health or ends
  the level, so it belongs to the game panel (module GamePanels), which owns
  the robot and the level state.
 */
module StatusBars {
  import opened JavaInts

  /** MAX_GAME_TIME, in seconds. */
  const MaxGameTime: int := 4 * 60

  /** The clock arithmetic of updateTime(): at 0 seconds borrow a minute, otherwise count a second down. */
  function CountdownStep(minutes: int, seconds: int): (r: (int, int))
    ensures 0 <= seconds <= 59 ==> 0 <= r.1 <= 59
    ensures 0 <= seconds <= 59 ==> r.0 * 60 + r.1 == minutes * 60 + seconds - 1
  {
    if seconds <= 0 then (minutes - 1, 59) else (minutes, seconds - 1)
  }

  /** The clock after n unpaused ticks from start(). */
  function AfterTicks(n: nat): (r: (int, int))
  {
    if n == 0 then (MaxGameTime / 60, 0)
    else var p := AfterTicks(n - 1); CountdownStep(p.0, p.1)
  }

  /**
    After n ticks the time left is 240 - n with seconds in 0..59, and the
    minutes stay non-negative exactly for the first 240 ticks: the 241st tick
    is the first whose update() finds minutes < 0 (time left -1).
   */
  lemma {:induction false} AfterTicksTimeLeft(n: nat)
    ensures 0 <= AfterTicks(n).1 <= 59
    ensures AfterTicks(n).0 * 60 + AfterTicks(n).1 == MaxGameTime - n
    ensures AfterTicks(n).0 >= 0 <==> n <= MaxGameTime
  {
    if n > 0 {
      AfterTicksTimeLeft(n - 1);
    }
  }

  /** The health percentage update() displays: integer percent of 1000, with a live robot never shown at 0. */
  function HealthPercentage(health: int, maxHealth: int): int
    requires maxHealth > 0
  {
    var p := JavaDiv(health * 100, maxHealth);
    if p == 0 && health != 0 then 1 else p
  }

  /** For health in 0..1000 the percentage is in 0..100 and is 0 exactly when the health is. */
  lemma HealthPercentageRange(health: int)
    requires 0 <= health <= 1000
    ensures 0 <= HealthPercentage(health, 1000) <= 100
    ensures HealthPercentage(health, 1000) == 0 <==> health == 0
    ensures health == 1000 ==> HealthPercentage(health, 1000) == 100
  {
  }

  class StatusBar {
    var minutes: int
    var seconds: int
    var paused: bool

    ghost predicate Valid()
      reads this`seconds
    {
      0 <= seconds <= 59
    }

    /** The status bar before start(): Java's default field values. */
    constructor ()
      ensures Valid() && minutes == 0 && seconds == 0 && !paused
    {
      minutes, seconds, paused := 0, 0, false;
    }

    /** getTimeLeft(), in seconds. */
    function TimeLeft(): int
      reads this`minutes, this`seconds
    {
      minutes * 60 + seconds
    }

    /** start(): set the clock to 4:00 and let it run. */
    method Start()
      modifies this
      ensures Valid() && !paused
      ensures minutes == 4 && seconds == 0 && TimeLeft() == MaxGameTime
    {
      minutes := MaxGameTime / 60;
      seconds := 0;
      paused := false;
    }

    /**
      The clock part of updateTime(): when not paused, one second passes and
      `ticked` tells the caller to run update(); when paused nothing changes.
     */
    method UpdateTime() returns (ticked: bool)
      requires Valid()
      modifies this`minutes, this`seconds
      ensures Valid()
      ensures ticked == !paused
      ensures ticked ==> (minutes, seconds) == CountdownStep(old(minutes), old(seconds))
      ensures ticked ==> TimeLeft() == old(TimeLeft()) - 1
      ensures !ticked ==> minutes == old(minutes) && seconds == old(seconds)
    {
      ticked := !paused;
      if ticked {
        if seconds <= 0 {
          minutes := minutes - 1;
          seconds := 59;
        } else {
          seconds := seconds - 1;
        }
      }
    }

    /** openMenu(): the clock stops. */
    method OpenMenu()
      modifies this`paused
      ensures paused
    {
      paused := true;
    }

    /** menuClosed(): the clock runs again. */
    method MenuClosed()
      modifies this`paused
      ensures !paused
    {
      paused := false;
    }
  }
}
