/**
  The game-over screen: it shows the time that was left on the clock and,
  for a won level, records the win in the level selector.
 */
module GameOvers {
  import opened JavaInts
  import opened StatusBars
  import Games
  import GamePanels

  /**
    calculateTime(time): the minutes and seconds shown for a time in
    seconds, by Java's truncating division and remainder. Minutes and
    seconds put back together give the time again, the seconds take the
    sign of the time and stay below a minute.
   */
  function MinutesSeconds(time: int): (ms: (int, int))
    ensures ms.0 * 60 + ms.1 == time
    ensures -60 < ms.1 < 60
    ensures time >= 0 ==> ms.0 >= 0 && 0 <= ms.1
    ensures time <= 0 ==> ms.0 <= 0 && ms.1 <= 0
  {
    JavaRemSign(time, 60);
    (JavaDiv(time, 60), JavaRem(time, 60))
  }

  /**
    A clock reading of m minutes and s seconds, with m >= 0 and s within
    0..59, comes back unchanged from its time in seconds.
   */
  lemma ClockReadingRoundTrip(m: int, s: int)
    requires m >= 0 && 0 <= s <= 59
    ensures MinutesSeconds(m * 60 + s) == (m, s)
  {
    var ms := MinutesSeconds(m * 60 + s);
    QuotientUnique(ms.0, ms.1, m, s);
  }

  /** Two ways of writing a non-negative time as whole minutes and seconds 0..59 agree. */
  lemma QuotientUnique(m: int, s: int, m': int, s': int)
    requires 0 <= s < 60 && 0 <= s' < 60 && m * 60 + s == m' * 60 + s'
    ensures m == m' && s == s'
  {
  }

  /**
    The screen shows what the clock showed for every tick up to the end of
    the four minutes: after n ticks the clock reads AfterTicks(n) and the
    screen, given the time left, reads the same.
   */
  lemma ShownAsOnClock(n: nat)
    requires n <= MaxGameTime
    ensures MinutesSeconds(MaxGameTime - n) == AfterTicks(n)
  {
    AfterTicksTimeLeft(n);
    ClockReadingRoundTrip(AfterTicks(n).0, AfterTicks(n).1);
  }

  /**
    A level lost on time ends on the tick after 0:00, when the clock reads
    -1:59, one second short of nothing: the screen shows 0 minutes and -1
    seconds, not the clock's reading.
   */
  lemma TimedOutShown(n: nat)
    requires n == MaxGameTime + 1
    ensures AfterTicks(n) == (-1, 59)
    ensures MinutesSeconds(MaxGameTime - n) == (0, -1)
    ensures MinutesSeconds(MaxGameTime - n) != AfterTicks(n)
  {
    ClockAtTimeout(n);
    MinusOneSecondShown(MaxGameTime - n);
  }

  /** The tick after 0:00 borrows a minute that is not there. */
  lemma ClockAtTimeout(n: nat)
    requires n == MaxGameTime + 1
    ensures AfterTicks(n) == (-1, 59)
  {
    AfterTicksTimeLeft(n - 1);
    QuotientUnique(AfterTicks(n - 1).0, AfterTicks(n - 1).1, 0, 0);
  }

  /** Java's -1 / 60 is 0 and -1 % 60 is -1. */
  lemma MinusOneSecondShown(time: int)
    requires time == -1
    ensures MinutesSeconds(time) == (0, -1)
  {
    assert JavaDiv(time, 60) == 0;
  }

  class GameOver {
    const state: int
    const level: int
    /** timeLeft, the text "Remaining Time: m:ss", kept as its two numbers. */
    var minutes: int
    var seconds: int

    /**
      The screen for a level of gamePanel that ended in state with timeLeft
      seconds to spare: it works out the time to show, then saveData()
      records a win (a positive state) through game.levelCompleted().
     */
    constructor (gamePanel: GamePanels.GamePanel, state: int, timeLeft: int, game: Games.Game)
      requires state > 0 ==> 1 <= gamePanel.level <= 10 && game.levelSelector.Valid()
      modifies game.levelSelector.completed
      ensures (minutes, seconds) == MinutesSeconds(timeLeft)
      ensures this.state == state && level == gamePanel.level
      ensures state > 0 ==> game.levelSelector.Valid()
      ensures state > 0 && level != 10 ==>
        var (s, l) := Games.CompletedEntry(level);
        game.levelSelector.Contents() == old(game.levelSelector.Contents())[s := old(game.levelSelector.Contents())[s][l := true]]
      ensures state > 0 && level == 10 ==> game.levelSelector.Contents() == old(game.levelSelector.Contents())
      ensures state <= 0 ==> unchanged(game.levelSelector.completed)
    {
      this.state := state;
      level := gamePanel.level;
      new;
      CalculateTime(timeLeft);
      SaveData(game);
    }

    /** calculateTime(time): store the minutes and seconds to show. */
    method CalculateTime(time: int)
      modifies this`minutes, this`seconds
      ensures (minutes, seconds) == MinutesSeconds(time)
    {
      minutes := JavaDiv(time, 60);
      seconds := JavaRem(time, 60);
    }

    /** saveData(): only a win (state > 0) is recorded; a lost level (-1 or -2) leaves the selector as it was. */
    method SaveData(game: Games.Game)
      requires state > 0 ==> 1 <= level <= 10 && game.levelSelector.Valid()
      modifies game.levelSelector.completed
      ensures state > 0 ==> game.levelSelector.Valid()
      ensures state > 0 && level != 10 ==>
        var (s, l) := Games.CompletedEntry(level);
        game.levelSelector.Contents() == old(game.levelSelector.Contents())[s := old(game.levelSelector.Contents())[s][l := true]]
      ensures state > 0 && level == 10 ==> game.levelSelector.Contents() == old(game.levelSelector.Contents())
      ensures state <= 0 ==> unchanged(game.levelSelector.completed)
    {
      if state > 0 {
        game.LevelCompleted(level);
      }
    }
  }
}
