/**
  The player's robot (src/game/Robot.java): health, damage, heading,
  position and a disabled flag, all updated in place.

  In Java a fatal loseHealth also tells the game panel to set state -1 and
  end the game; here LoseHealth reports that it was fatal and the game panel
  (module GamePanels) takes those two steps itself.
 */
module Robots {
  import opened Directions
  import opened Locations

  const MaxHealth: int := 1000
  const MaxDamage: int := 120
  /** Game.SQUARE_WIDTH, the pixel size of a grid square. */
  const SquareWidth: int := 30

  /** -1 for a heading with a northward part, 1 for a southward part, 0 otherwise. */
  function RowSign(d: Direction): int
  {
    match d
    case North | NorthEast | NorthWest => -1
    case South | SouthEast | SouthWest => 1
    case East | West => 0
  }

  /** -1 for a heading with a westward part, 1 for an eastward part, 0 otherwise. */
  function ColumnSign(d: Direction): int
  {
    match d
    case East | NorthEast | SouthEast => 1
    case West | NorthWest | SouthWest => -1
    case North | South => 0
  }

  function Sign(n: int): int
  {
    if n < 0 then -1 else if n > 0 then 1 else 0
  }

  /**
    The heading changeDirection chooses for a movement vector: the if/else
    chain tests the diagonals first, then the four axes; a zero vector keeps
    the current heading.
   */
  function HeadingFor(rowChange: int, columnChange: int, current: Direction): Direction
  {
    if rowChange > 0 && columnChange > 0 then SouthEast
    else if rowChange > 0 && columnChange < 0 then SouthWest
    else if rowChange < 0 && columnChange < 0 then NorthWest
    else if rowChange < 0 && columnChange > 0 then NorthEast
    else if rowChange < 0 then North
    else if rowChange > 0 then South
    else if columnChange > 0 then East
    else if columnChange < 0 then West
    else current
  }

  /**
    The chosen heading points the way the vector points: its row and column
    signs are those of the vector, and the signs name exactly one heading.
   */
  lemma HeadingForMatchesSigns(rowChange: int, columnChange: int, current: Direction)
    ensures rowChange == 0 && columnChange == 0 ==> HeadingFor(rowChange, columnChange, current) == current
    ensures rowChange != 0 || columnChange != 0 ==>
              RowSign(HeadingFor(rowChange, columnChange, current)) == Sign(rowChange) &&
              ColumnSign(HeadingFor(rowChange, columnChange, current)) == Sign(columnChange)
    ensures forall d: Direction ::
              ((rowChange != 0 || columnChange != 0) &&
               RowSign(d) == Sign(rowChange) && ColumnSign(d) == Sign(columnChange)) ==>
              d == HeadingFor(rowChange, columnChange, current)
  {
  }

  /** Health after loseHealth(damage): nothing happens at 0, a blow at least as large as the health leaves 0. */
  function HealthAfterLoss(health: int, damage: int): (r: int)
    ensures health == 0 ==> r == 0
    ensures health != 0 && damage >= health ==> r == 0
    ensures 0 <= health && 0 <= damage ==> 0 <= r <= health
    ensures health != 0 && damage < health ==> r + damage == health
  {
    if health == 0 then 0 else if damage >= health then 0 else health - damage
  }

  /** Whether loseHealth(damage) disables the robot. */
  predicate IsFatal(health: int, damage: int)
  {
    health != 0 && damage >= health
  }

  /** A boost that adds to a value and then lowers it to the cap if it went over. */
  function Boosted(value: int, amount: int, cap: int): (r: int)
    ensures r <= cap
    ensures value + amount <= cap ==> r == value + amount
    ensures value + amount > cap ==> r == cap
  {
    if value + amount > cap then cap else value + amount
  }

  /** A fatal blow happens at most once: after it the health is 0 and no later blow is fatal. */
  lemma FatalAtMostOnce(health: int, first: int, second: int)
    requires IsFatal(health, first)
    ensures !IsFatal(HealthAfterLoss(health, first), second)
  {
  }

  class Robot {
    var health: int
    var damage: int
    var location: Location
    var disabled: bool
    var direction: Direction

    /** Health and damage inside the ranges the boosts cap them to. */
    ghost predicate Bounded()
      reads this`health, this`damage
    {
      0 <= health <= MaxHealth && 0 <= damage <= MaxDamage
    }

    /**
      A new robot faces North at (row, column). Java builds its Location with
      (row, column, column * 30, row * 30), so y holds the column's pixel
      offset and x the row's.
     */
    constructor (row: int, column: int, health: int, damage: int)
      ensures fresh(location)
      ensures location.row == row && location.column == column
      ensures location.y == column * SquareWidth && location.x == row * SquareWidth
      ensures direction == North && !disabled
      ensures this.health == health && this.damage == damage
    {
      location := new Location.WithPixels(row, column, column * SquareWidth, row * SquareWidth);
      direction := North;
      this.health := health;
      this.damage := damage;
      disabled := false;
    }

    /** changeDirection(): turn to the heading of the movement vector. */
    method ChangeDirection(rowChange: int, columnChange: int)
      modifies this`direction
      ensures direction == HeadingFor(rowChange, columnChange, old(direction))
    {
      if rowChange > 0 && columnChange > 0 {
        direction := SouthEast;
      } else if rowChange > 0 && columnChange < 0 {
        direction := SouthWest;
      } else if rowChange < 0 && columnChange < 0 {
        direction := NorthWest;
      } else if rowChange < 0 && columnChange > 0 {
        direction := NorthEast;
      } else if rowChange < 0 {
        direction := North;
      } else if rowChange > 0 {
        direction := South;
      } else if columnChange > 0 {
        direction := East;
      } else if columnChange < 0 {
        direction := West;
      }
    }

    /** move(): shift the location by the vector, with no bounds or passability check. */
    method Move(rowChange: int, columnChange: int)
      modifies location
      ensures location.row == old(location.row) + rowChange
      ensures location.column == old(location.column) + columnChange
      ensures location.x == old(location.x) && location.y == old(location.y)
    {
      location.Change(rowChange, columnChange);
    }

    /**
      loseHealth(): a no-op at health 0; a blow at least as large as the
      health sets health 0 and disables the robot (and is reported as fatal);
      otherwise the blow is subtracted.
     */
    method LoseHealth(amount: int) returns (fatal: bool)
      modifies this`health, this`disabled
      ensures fatal == IsFatal(old(health), amount)
      ensures health == HealthAfterLoss(old(health), amount)
      ensures disabled == (old(disabled) || fatal)
      ensures fatal ==> old(health) != 0 && health == 0
    {
      fatal := false;
      if health != 0 {
        if amount >= health {
          health := 0;
          disabled := true;
          fatal := true;
        } else {
          health := health - amount;
        }
      }
    }

    /** healthBoost(): add, then cap at MaxHealth. */
    method HealthBoost(amount: int)
      modifies this`health
      ensures health == Boosted(old(health), amount, MaxHealth)
      ensures health <= MaxHealth
    {
      health := health + amount;
      if health > MaxHealth {
        health := MaxHealth;
      }
    }

    /** damageBoost(): add, then cap at MaxDamage. */
    method DamageBoost(amount: int)
      modifies this`damage
      ensures damage == Boosted(old(damage), amount, MaxDamage)
      ensures damage <= MaxDamage
    {
      damage := damage + amount;
      if damage > MaxDamage {
        damage := MaxDamage;
      }
    }
  }
}
