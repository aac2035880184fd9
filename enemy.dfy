/**
  Enemies (src/game/Enemy.java).

  An enemy's fields (tier, health, hidden, disabled, the skip-one-cycle flag
  and whether its attack timer runs) change in place in Java. The game panel
  keeps all enemies of a level in one arena (a sequence), and each change
  below is a function from the enemy's old fields to its new ones that the
  panel writes back into the arena slot. The enemy's back reference to its
  square becomes the square's position, stored as (row, column).
 */
module Enemies {

  const Boss: char := 'k'
  const Normal: char := 'l'
  const Hidden: char := 'v'

  /** The per-tier tables: tier 0 is the boss, 1 a normal enemy, 2 a hidden one. */
  const HealthTiers: seq<int> := [500, 150, 150]
  const DamageTiers: seq<int> := [100, 50, 50]

  predicate IsEnemyChar(ch: char)
  {
    ch == Boss || ch == Normal || ch == Hidden
  }

  datatype Enemy = Enemy(
    tier: int,
    health: int,
    damage: int,
    hidden: bool,
    disabled: bool,
    attacked: bool,  // skip the next timer cycle
    running: bool,   // the attack timer has been started and not stopped
    row: int,
    column: int)

  /** The tier the constructor derives from the level character. */
  function TierOf(ch: char): (t: int)
    requires IsEnemyChar(ch)
    ensures 0 <= t <= 2
    ensures (t == 0 <==> ch == Boss) && (t == 1 <==> ch == Normal) && (t == 2 <==> ch == Hidden)
  {
    if ch == Hidden then 2 else (ch as int) - (Boss as int)
  }

  /** The fields an enemy's health, damage and tier may take while it lives. */
  ghost predicate Consistent(e: Enemy)
  {
    0 <= e.tier <= 2 &&
    0 <= e.health <= HealthTiers[e.tier] &&
    e.damage == DamageTiers[e.tier] &&
    (e.hidden <==> e.tier == 2) &&
    (e.disabled ==> e.health == 0)
  }

  /** The constructor: tier, health and damage from the tables; only tier 2 starts hidden. */
  function NewEnemy(ch: char, row: int, column: int): (e: Enemy)
    requires IsEnemyChar(ch)
    ensures Consistent(e)
    ensures e.tier == TierOf(ch) && e.health == HealthTiers[e.tier] && e.damage == DamageTiers[e.tier]
    ensures e.hidden <==> ch == Hidden
    ensures !e.disabled && !e.attacked && !e.running
    ensures e.row == row && e.column == column
  {
    var t := TierOf(ch);
    Enemy(t, HealthTiers[t], DamageTiers[t], t == 2, false, false, false, row, column)
  }

  /** detected(): a hidden enemy drops one tier and stops hiding; anything else is left as it is. */
  function Detected(e: Enemy): (d: Enemy)
    ensures e.hidden ==> d == e.(tier := e.tier - 1, hidden := false)
    ensures !e.hidden ==> d == e
  {
    if e.hidden then e.(tier := e.tier - 1, hidden := false) else e
  }

  /** A second detection changes nothing, and detection keeps an enemy consistent. */
  lemma DetectedIdempotent(e: Enemy)
    ensures Detected(Detected(e)) == Detected(e)
    ensures Consistent(e) ==> Consistent(Detected(e)) && !Detected(e).hidden
    ensures Consistent(e) && e.hidden ==> Detected(e).tier == 1
  {
  }

  /** startBattle(): the attack timer runs from now on. */
  function StartBattle(e: Enemy): (s: Enemy)
    ensures s.running && s == e.(running := true)
  {
    e.(running := true)
  }

  /**
    One firing of the attack timer (actionPerformed). A disabled enemy does
    nothing; an enemy whose skip flag is set clears it and deals no damage;
    otherwise the robot takes the enemy's damage (strikes is true).
   */
  function Tick(e: Enemy): (r: (Enemy, bool))
    ensures e.disabled ==> r == (e, false)
    ensures !e.disabled && e.attacked ==> r == (e.(attacked := false), false)
    ensures !e.disabled && !e.attacked ==> r == (e, true)
  {
    if e.disabled then (e, false)
    else if !e.attacked then (e, true)
    else (e.(attacked := false), false)
  }

  /**
    The enemy's part of loseHealth(damage). A blow at least as large as its
    health leaves it at 0, disabled, with its timer stopped (dispose); a
    smaller blow is subtracted and sets the skip flag. The second component
    says which happened; the robot's counter-blow and the square are the game
    panel's part.
   */
  function TakeHit(e: Enemy, damage: int): (r: (Enemy, bool))
    ensures r.1 <==> damage >= e.health
    ensures r.1 ==> r.0 == e.(health := 0, disabled := true, running := false)
    ensures !r.1 ==> r.0 == e.(health := e.health - damage, attacked := true)
  {
    if damage >= e.health then (e.(health := 0, disabled := true, running := false), true)
    else (e.(health := e.health - damage, attacked := true), false)
  }

  /** A blow of non-negative damage keeps the enemy's health within [0, its tier's health]. */
  lemma TakeHitConsistent(e: Enemy, damage: int)
    requires Consistent(e) && damage >= 0
    ensures Consistent(TakeHit(e, damage).0)
    ensures 0 <= TakeHit(e, damage).0.health <= e.health
  {
  }

  /** Ticks and timer starts leave health, tier and damage as they were. */
  lemma TickConsistent(e: Enemy)
    requires Consistent(e)
    ensures Consistent(Tick(e).0) && Consistent(StartBattle(e))
    ensures Tick(e).0.health == e.health
  {
  }

  /**
    The scenario of a robot with 50 damage against a normal enemy: the first
    two blows are absorbed (each sets the skip flag, so the next timer cycle
    deals nothing) and the third defeats it.
   */
  lemma ThreeBlowsDefeatNormalEnemy(row: int, column: int)
    ensures var e0 := NewEnemy(Normal, row, column);
            var e1 := TakeHit(e0, 50);
            var t1 := Tick(e1.0);
            var e2 := TakeHit(t1.0, 50);
            var t2 := Tick(e2.0);
            var e3 := TakeHit(t2.0, 50);
            !e1.1 && !t1.1 && !e2.1 && !t2.1 && e3.1 && e3.0.health == 0 && e3.0.disabled
  {
  }
}
