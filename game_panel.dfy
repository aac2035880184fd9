/**
  The game world of one level (src/game/GamePanel.java, with the parts of
  Enemy.java and StatusBar.java that act on it).

  All of the game's timers are Swing timers and all of its key events are
  delivered on the one event thread, so the world changes by atomic steps:
  a tick of the panel's own timer (process), a tick of one enemy's attack
  timer, a tick of the status bar's clock, a key press or release and the
  closing of the in-game menu. Every step keeps Valid(): each square holds
  at most one kind of occupant, every square's enemy handle finds a live
  enemy built there, health and damage stay within their caps and the exit
  can be open only once the keys have been found.

  The squares are Cell values in the level's grid array (the array the
  level loader filled) and the enemies live in an arena, a sequence indexed
  by the handles the squares hold. endGame() is modelled by `ended` and by
  the list of (state, time left) pairs handed to the game-over screen; once
  the level has ended no timer or key event reaches the panel any more.
 */
module GamePanels {
  import opened Options
  import opened JavaInts
  import opened Directions
  import opened Items
  import opened Robots
  import opened Enemies
  import opened Squares
  import opened StatusBars
  import Games

  const Rows: int := Games.NoOfRows
  /** DELAY: the panel's timer period in milliseconds. */
  const Delay: int := 100
  const HealthDrain: int := 2
  /** HEALING_BOOST = 100 / (1000 / DELAY). */
  const HealingBoost: int := JavaDiv(100, JavaDiv(1000, Delay))

  /** The events that reach the panel: a tick of its own timer, of enemy h's timer or of the clock, a key, the menu closing. */
  datatype Event = PanelTimer | EnemyTimer(h: nat) | ClockTimer | Press(k: Key) | Release(k: Key) | MenuCancelled

  /** The robot's health after the status bar's update(), which drains HEALTH_DRAIN while the minutes are non-negative. */
  function AfterUpdate(health: int, minutes: int): (r: int)
    ensures minutes < 0 ==> r == health
    ensures 0 <= health && minutes >= 0 ==> 0 <= r <= health && (health > HealthDrain ==> r == health - HealthDrain)
  {
    if minutes >= 0 then HealthAfterLoss(health, HealthDrain) else health
  }

  /** The effect of picking up what square c holds: its item's effect, or none for a square without an item. */
  function PickedEffect(c: Cell): (e: Effect)
    ensures !c.isItem ==> e == NoEffect
    ensures c.isItem && c.item.Some? ==> e == EffectOf(c.item.value)
  {
    if c.isItem && c.item.Some? then EffectOf(c.item.value) else NoEffect
  }

  /** The robot's damage after an item's effect: a damage boost is added, capped at MAX_DAMAGE. */
  function DamageAfter(e: Effect, damage: int): (r: int)
    ensures e.AddDamage? ==> r <= MaxDamage && (r == MaxDamage || r == damage + e.amount)
    ensures !e.AddDamage? ==> r == damage
  {
    if e.AddDamage? then Boosted(damage, e.amount, MaxDamage) else damage
  }

  /** The robot's health after an item's effect, before update(): a health boost is added, capped at MAX_HEALTH. */
  function HealthAfter(e: Effect, health: int): (r: int)
    ensures e.AddHealth? ==> r <= MaxHealth && (r == MaxHealth || r == health + e.amount)
    ensures !e.AddHealth? ==> r == health
  {
    if e.AddHealth? then Boosted(health, e.amount, MaxHealth) else health
  }

  /** The robot's health after standing on square c at the start of process(): the start square heals HEALING_BOOST. */
  function Healed(c: Cell, health: int): (r: int)
    ensures c.isStart ==> r <= MaxHealth && (r == MaxHealth || r == health + HealingBoost)
    ensures !c.isStart ==> r == health
  {
    if c.isStart then Boosted(health, HealingBoost, MaxHealth) else health
  }

  /** The endGame() call a blow of amount makes on a robot with the given health, as (state, time left): one with state -1 exactly when the blow is fatal. */
  function LossEndings(health: int, amount: int, timeLeft: int): (es: seq<(int, int)>)
    ensures |es| <= 1
    ensures es != [] <==> IsFatal(health, amount)
    ensures es != [] ==> es[0] == (-1, timeLeft)
  {
    if IsFatal(health, amount) then [(-1, timeLeft)] else []
  }

  /** The endGame() call of update(): state -2 once the minutes are negative, otherwise the drain's. */
  function UpdateEndings(health: int, minutes: int, timeLeft: int): (es: seq<(int, int)>)
    ensures minutes < 0 ==> es == [(-2, timeLeft)]
    ensures minutes >= 0 ==> es == LossEndings(health, HealthDrain, timeLeft)
  {
    if minutes < 0 then [(-2, timeLeft)] else LossEndings(health, HealthDrain, timeLeft)
  }

  /**
    The endGame() calls of checkMove() on a square that held `before`, from
    a robot with the given health: an item's update() after its effect, or
    the win (state 1) on the exit, or none.
   */
  function CheckEndings(before: Cell, health: int, minutes: int, timeLeft: int): (es: seq<(int, int)>)
    ensures before.isItem ==> es == UpdateEndings(HealthAfter(PickedEffect(before), health), minutes, timeLeft)
    ensures !before.isItem && before.isExit ==> es == [(1, timeLeft)]
    ensures !before.isItem && !before.isExit ==> es == []
  {
    if before.isItem then UpdateEndings(HealthAfter(PickedEffect(before), health), minutes, timeLeft)
    else if before.isExit then [(1, timeLeft)]
    else []
  }

  /**
    Square (r, c) after the pickup part of checkMove() at (row, column): an
    item there is taken off, and when the key picked up completes the count
    (unlock) keyFound() opens the exit; every other square is as it was.
   */
  function PickedUpCell(cell: Cell, r: int, c: int, row: int, column: int, exit: (int, int), unlock: bool): (p: Cell)
    ensures (r, c) == (row, column) && cell.isItem ==> p == ItemPickedUp(cell).0
    ensures !((r, c) == (row, column) && cell.isItem) && (r, c) == exit && unlock ==> p == ExitUnlocked(cell)
    ensures !((r, c) == (row, column) && cell.isItem) && !((r, c) == exit && unlock) ==> p == cell
  {
    if (r, c) == (row, column) && cell.isItem then ItemPickedUp(cell).0
    else if (r, c) == exit && unlock then ExitUnlocked(cell)
    else cell
  }

  /** Square (r, c) after all of checkMove() at (row, column): the pickup, then reveal() inside the 5x5 block. */
  function CheckedCell(cell: Cell, r: int, c: int, row: int, column: int, exit: (int, int), unlock: bool): Cell
  {
    var p := PickedUpCell(cell, r, c, row, column, exit, unlock);
    if InWindow(r, c, row, column) then RevealCell(p) else p
  }

  /**
    checkMove() keeps what occupies each square and its enemy handle. In
    the block every item can be walked onto and no enemy is hidden; outside
    it and away from the robot's square and the exit nothing changes; an
    item under the robot is gone, leaving an open square.
   */
  lemma CheckedCellProperties(cell: Cell, r: int, c: int, row: int, column: int, exit: (int, int), unlock: bool)
    requires Wellformed(cell)
    ensures var d := CheckedCell(cell, r, c, row, column, exit, unlock);
            d.isEnemy == cell.isEnemy && d.enemy == cell.enemy && d.isExit == cell.isExit &&
            d.isItem == (cell.isItem && (r, c) != (row, column)) &&
            (InWindow(r, c, row, column) ==> (d.isItem ==> d.enterable) && (d.isEnemy ==> d.overlay != Hidden)) &&
            (!InWindow(r, c, row, column) && (r, c) != (row, column) && (r, c) != exit ==> d == cell) &&
            ((r, c) == (row, column) && cell.isItem ==> d.overlay == Open && d.enterable == cell.enterable)
  {
    var p := PickedUpCell(cell, r, c, row, column, exit, unlock);
    if (r, c) == (row, column) && cell.isItem {
      assert !p.isItem && !p.isEnemy;
    }
  }

  /** A 24x24 grid of squares as a value. */
  ghost predicate GridShaped(cells: seq<seq<Cell>>)
  {
    |cells| == Rows && forall r :: 0 <= r < Rows ==> |cells[r]| == Rows
  }

  /** The squares of the grid array as a value, row by row. */
  ghost function CellsOf(g: array2<Cell>): (cells: seq<seq<Cell>>)
    requires g.Length0 == Rows && g.Length1 == Rows
    reads g
    ensures GridShaped(cells)
  {
    seq(Rows, r requires 0 <= r < Rows reads g => seq(Rows, c requires 0 <= c < Rows reads g => g[r, c]))
  }

  /** The value of a grid array whose every square is the matching square of cells. */
  lemma CellsOfIs(g: array2<Cell>, cells: seq<seq<Cell>>)
    requires g.Length0 == Rows && g.Length1 == Rows && GridShaped(cells)
    requires forall r, c :: 0 <= r < Rows && 0 <= c < Rows ==> g[r, c] == cells[r][c]
    ensures CellsOf(g) == cells
  {
    var v := CellsOf(g);
    forall r | 0 <= r < Rows
      ensures v[r] == cells[r]
    {
      assert forall c :: 0 <= c < Rows ==> v[r][c] == cells[r][c];
    }
  }

  /** The grid after the pickup part of checkMove() at (row, column): PickedUpCell on every square. */
  ghost function PickedUpCells(cells: seq<seq<Cell>>, row: int, column: int, exit: (int, int), unlock: bool): (p: seq<seq<Cell>>)
    requires GridShaped(cells)
    ensures GridShaped(p)
    ensures forall r, c :: 0 <= r < Rows && 0 <= c < Rows ==> p[r][c] == PickedUpCell(cells[r][c], r, c, row, column, exit, unlock)
  {
    seq(Rows, r requires 0 <= r < Rows => seq(Rows, c requires 0 <= c < Rows => PickedUpCell(cells[r][c], r, c, row, column, exit, unlock)))
  }

  /** The grid after the reveal loops of checkMove() around (row, column): the squares of the 5x5 block revealed. */
  ghost function RevealedCells(cells: seq<seq<Cell>>, row: int, column: int): (p: seq<seq<Cell>>)
    requires GridShaped(cells)
    ensures GridShaped(p)
    ensures forall r, c :: 0 <= r < Rows && 0 <= c < Rows ==>
              p[r][c] == if InWindow(r, c, row, column) then RevealCell(cells[r][c]) else cells[r][c]
  {
    seq(Rows, r requires 0 <= r < Rows => seq(Rows, c requires 0 <= c < Rows =>
      if InWindow(r, c, row, column) then RevealCell(cells[r][c]) else cells[r][c]))
  }

  /** The grid after all of checkMove() at (row, column): CheckedCell on every square. */
  ghost function CheckedCells(cells: seq<seq<Cell>>, row: int, column: int, exit: (int, int), unlock: bool): (p: seq<seq<Cell>>)
    requires GridShaped(cells)
    ensures GridShaped(p)
    ensures forall r, c :: 0 <= r < Rows && 0 <= c < Rows ==> p[r][c] == CheckedCell(cells[r][c], r, c, row, column, exit, unlock)
  {
    seq(Rows, r requires 0 <= r < Rows => seq(Rows, c requires 0 <= c < Rows => CheckedCell(cells[r][c], r, c, row, column, exit, unlock)))
  }

  /** Picking up and then revealing the block gives the grid CheckedCells describes. */
  lemma PickedThenRevealed(cells: seq<seq<Cell>>, row: int, column: int, exit: (int, int), unlock: bool)
    requires GridShaped(cells)
    ensures RevealedCells(PickedUpCells(cells, row, column, exit, unlock), row, column) == CheckedCells(cells, row, column, exit, unlock)
  {
    var a := RevealedCells(PickedUpCells(cells, row, column, exit, unlock), row, column);
    var b := CheckedCells(cells, row, column, exit, unlock);
    forall r | 0 <= r < Rows
      ensures a[r] == b[r]
    {
      assert forall c :: 0 <= c < Rows ==> a[r][c] == b[r][c];
    }
  }

  /**
    The pickup and exit steps of checkMove() at (row, column) take the
    snapshot s, with the robot's health at health0, to t, with the robot's
    health at health: the item under the robot is taken off and the exit
    opened by a key that completes the required count (PickedUpCells), the
    item's effect is applied and update() runs, standing on the exit wins the
    level, and the fight is untouched.
   */
  ghost predicate PickedUp(s: Snapshot, t: Snapshot, row: int, column: int, exit: (int, int), required: int,
                           health0: int, health: int, minutes: int, timeLeft: int)
    requires GridShaped(s.cells) && InGrid(row, column)
  {
    var before := s.cells[row][column];
    var e := PickedEffect(before);
    t.cells == PickedUpCells(s.cells, row, column, exit, e.FoundKey? && t.keys >= required) &&
    t.fight == s.fight &&
    t.keys == s.keys + (if e.FoundKey? then 1 else 0) &&
    t.damage == DamageAfter(e, s.damage) &&
    Appended(s.state, s.ended, s.endings, CheckEndings(before, health0, minutes, timeLeft), t.state, t.ended, t.endings) &&
    health == if before.isItem then AfterUpdate(HealthAfter(e, health0), minutes) else health0
  }

  /**
    The reveal and engage loops of checkMove() around (row, column) take the
    snapshot s to t, judged on the grid g they leave: the 5x5 block is
    revealed (RevealedCells), the fight changes as EngagedFrom says, and
    nothing else changes.
   */
  ghost predicate Revealed(g: array2<Cell>, s: Snapshot, t: Snapshot, row: int, column: int)
    requires g.Length0 == Rows && g.Length1 == Rows && GridShaped(s.cells)
    reads g
  {
    t == s.(cells := RevealedCells(s.cells, row, column), fight := t.fight) &&
    EngagedFrom(g, row, column, s.fight, t.fight)
  }

  /**
    All of checkMove() at (row, column) takes the snapshot s, with the
    robot's health at health0, to t, with the robot's health at health,
    judged on the grid g it leaves: every square is CheckedCell of what it
    was, the fight changes as EngagedFrom says, and keys, damage, health and
    endings change as the pickup and exit steps make them.
   */
  ghost predicate Checked(g: array2<Cell>, s: Snapshot, t: Snapshot, row: int, column: int, exit: (int, int), required: int,
                          health0: int, health: int, minutes: int, timeLeft: int)
    requires g.Length0 == Rows && g.Length1 == Rows && GridShaped(s.cells) && InGrid(row, column)
    reads g
  {
    var before := s.cells[row][column];
    var e := PickedEffect(before);
    t.cells == CheckedCells(s.cells, row, column, exit, e.FoundKey? && t.keys >= required) &&
    EngagedFrom(g, row, column, s.fight, t.fight) &&
    t.keys == s.keys + (if e.FoundKey? then 1 else 0) &&
    t.damage == DamageAfter(e, s.damage) &&
    Appended(s.state, s.ended, s.endings, CheckEndings(before, health0, minutes, timeLeft), t.state, t.ended, t.endings) &&
    health == if before.isItem then AfterUpdate(HealthAfter(e, health0), minutes) else health0
  }

  /** The pickup and exit steps followed by the reveal and engage loops are all of checkMove(). */
  lemma PickedThenEngaged(g: array2<Cell>, s: Snapshot, t: Snapshot, u: Snapshot, row: int, column: int, exit: (int, int),
                          required: int, health0: int, health: int, minutes: int, timeLeft: int)
    requires g.Length0 == Rows && g.Length1 == Rows && GridShaped(s.cells) && InGrid(row, column)
    requires PickedUp(s, t, row, column, exit, required, health0, health, minutes, timeLeft)
    requires Revealed(g, t, u, row, column)
    ensures Checked(g, s, u, row, column, exit, required, health0, health, minutes, timeLeft)
  {
    PickedThenRevealed(s.cells, row, column, exit, PickedEffect(s.cells[row][column]).FoundKey? && t.keys >= required);
  }

  /** An enemy after checkMove()'s reveal and engage loops: detected when revealed on its square, then started when engaged. */
  function CheckedEnemy(e: Enemy, detected: bool, engaged: bool): (d: Enemy)
    ensures engaged ==> d.running
    ensures !engaged ==> d.running == e.running
    ensures d.row == e.row && d.column == e.column && d.health == e.health && d.damage == e.damage
    ensures d.hidden == (e.hidden && !detected) && d.tier == (if detected && e.hidden then e.tier - 1 else e.tier)
    ensures d.disabled == e.disabled && d.attacked == e.attacked
  {
    var revealed := if detected then Detected(e) else e;
    if engaged then StartBattle(revealed) else revealed
  }

  /** The keys the panel listens to; W, D, S and A double the arrow keys. */
  datatype Key = Up | W | Right | D | Down | S | Left | A | F | Space | Escape | Other

  /** The keysPressed slot of a movement key: 0 up, 1 right, 2 down, 3 left. */
  function Slot(k: Key): (s: Option<nat>)
    ensures s.Some? <==> k in {Up, W, Right, D, Down, S, Left, A}
    ensures s.Some? ==> s.value < 4
    ensures s == Some(0) <==> k == Up || k == W
    ensures s == Some(2) <==> k == Down || k == S
  {
    match k
    case Up | W => Some(0)
    case Right | D => Some(1)
    case Down | S => Some(2)
    case Left | A => Some(3)
    case _ => None
  }

  predicate IsAttackKey(k: Key)
  {
    k == F || k == Space
  }

  predicate InGrid(row: int, column: int)
  {
    0 <= row < Rows && 0 <= column < Rows
  }

  /**
    The movement vector move() adds up from the held keys: up counts -1 and
    down +1 on rows, right +1 and left -1 on columns, so opposite keys cancel.
   */
  function Vector(keys: seq<bool>): (v: (int, int))
    requires |keys| == 4
    ensures -1 <= v.0 <= 1 && -1 <= v.1 <= 1
    ensures v.0 < 0 <==> keys[0] && !keys[2]
    ensures v.0 > 0 <==> keys[2] && !keys[0]
    ensures v.1 > 0 <==> keys[1] && !keys[3]
    ensures v.1 < 0 <==> keys[3] && !keys[1]
  {
    ((if keys[2] then 1 else 0) - (if keys[0] then 1 else 0),
     (if keys[1] then 1 else 0) - (if keys[3] then 1 else 0))
  }

  predicate AnyKey(keys: seq<bool>)
    requires |keys| == 4
  {
    keys[0] || keys[1] || keys[2] || keys[3]
  }

  /** Holding keys reports a move even when they cancel out; the vector is zero exactly when they do. */
  lemma HeldKeysThatCancel(keys: seq<bool>)
    requires |keys| == 4
    ensures Vector(keys) == (0, 0) <==> keys[0] == keys[2] && keys[1] == keys[3]
    ensures keys == [true, true, true, true] ==> AnyKey(keys) && Vector(keys) == (0, 0)
  {
  }

  /**
    The gate test applied to the square being left: a square without a
    gate lets the robot go any way, a gate only within one compass step of
    its own heading.
   */
  predicate MayLeave(c: Cell, heading: Direction)
  {
    !c.isDirection || (c.direction.Some? && GateAdmits(heading, c.direction.value))
  }

  /**
    What move() does to a robot at (row, column) with the given heading, as
    (heading, row, column, thrown): nothing during a battle or when the held
    keys cancel out; otherwise the robot turns to the vector's heading, the
    lookup of the target square throws when it is off the grid, and the
    robot steps onto the target when that square can be entered and the
    square being left lets it go with the new heading.
   */
  function MoveOutcome(g: array2<Cell>, keys: seq<bool>, battling: bool, row: int, column: int, heading: Direction)
    : (o: (Direction, int, int, bool))
    requires g.Length0 == Rows && g.Length1 == Rows && |keys| == 4 && InGrid(row, column)
    reads g
  {
    var v := Vector(keys);
    if battling || v == (0, 0) then (heading, row, column, false)
    else
      var turned := HeadingFor(v.0, v.1, heading);
      var target := (row + v.0, column + v.1);
      if !InGrid(target.0, target.1) then (turned, row, column, true)
      else if g[target.0, target.1].enterable && MayLeave(g[row, column], turned) then (turned, target.0, target.1, false)
      else (turned, row, column, false)
  }

  /**
    Where move() leaves the robot: on the grid, on an enterable square when
    it started on one, at most one step away along the keys' vector, and
    where it started when a battle is on or the keys cancel out.
   */
  lemma MoveStaysOnEnterable(g: array2<Cell>, keys: seq<bool>, battling: bool, row: int, column: int, heading: Direction)
    requires g.Length0 == Rows && g.Length1 == Rows && |keys| == 4 && InGrid(row, column) && g[row, column].enterable
    ensures var o := MoveOutcome(g, keys, battling, row, column, heading);
            InGrid(o.1, o.2) && g[o.1, o.2].enterable &&
            ((o.1, o.2) == (row, column) || (o.1, o.2) == (row + Vector(keys).0, column + Vector(keys).1)) &&
            (battling || Vector(keys) == (0, 0) ==> o == (heading, row, column, false))
  {
  }

  /**
    A blocked move still turns the robot: with the target on the grid but
    not enterable, the heading changes to the vector's and the robot stays.
   */
  lemma BlockedMoveTurns(g: array2<Cell>, keys: seq<bool>, row: int, column: int, heading: Direction)
    requires g.Length0 == Rows && g.Length1 == Rows && |keys| == 4 && InGrid(row, column)
    requires Vector(keys) != (0, 0)
    requires var v := Vector(keys); InGrid(row + v.0, column + v.1) && !g[row + v.0, column + v.1].enterable
    ensures var v := Vector(keys);
            MoveOutcome(g, keys, false, row, column, heading) == (HeadingFor(v.0, v.1, heading), row, column, false)
  {
  }

  /**
    Leaving a gate square: the robot gets out exactly when its new heading
    is within one compass step of the gate's, whatever the target square
    is; entering a gate square is not checked at all.
   */
  lemma GateChecksTheSquareLeft(g: array2<Cell>, keys: seq<bool>, row: int, column: int, heading: Direction)
    requires g.Length0 == Rows && g.Length1 == Rows && |keys| == 4 && InGrid(row, column)
    requires Vector(keys) != (0, 0)
    requires var v := Vector(keys); InGrid(row + v.0, column + v.1) && g[row + v.0, column + v.1].enterable
    requires g[row, column].isDirection && g[row, column].direction.Some?
    ensures var v := Vector(keys);
            var o := MoveOutcome(g, keys, false, row, column, heading);
            (o.1, o.2) == (row + v.0, column + v.1) <==>
              CyclicDistance(HeadingFor(v.0, v.1, heading), g[row, column].direction.value) <= 1
  {
    var v := Vector(keys);
    GateAdmitsIsCyclicAdjacency(HeadingFor(v.0, v.1, heading), g[row, column].direction.value);
  }

  /** The squares of the 5x5 block around (row, column) that lie on the grid: what checkMove() reveals. */
  predicate InWindow(r: int, c: int, row: int, column: int)
  {
    InGrid(r, c) && row - 2 <= r <= row + 2 && column - 2 <= c <= column + 2
  }

  /** reveal(): an item is uncovered, an enemy detected; any other square stays as it is. */
  function RevealCell(c: Cell): (r: Cell)
    ensures c.isItem ==> r == ItemDetected(c)
    ensures !c.isItem && c.isEnemy ==> r == EnemyDetected(c)
    ensures !c.isItem && !c.isEnemy ==> r == c
    ensures r.isItem == c.isItem && r.isEnemy == c.isEnemy && r.isExit == c.isExit && r.enemy == c.enemy
    ensures r.isItem ==> r.enterable
    ensures !r.isItem && r.isEnemy ==> r.overlay != Hidden
  {
    if c.isItem then ItemDetected(c) else if c.isEnemy then EnemyDetected(c) else c
  }

  /**
    Probe k of the engage loop of checkMove(), which looks at the squares
    up, left, here, here, down, right in that order: the row changes on
    even k and the column on odd k, from -1 up to +1.
   */
  function Probe(row: int, column: int, k: int): (p: (int, int))
    ensures 0 <= k < 6 ==>
              p == [(row - 1, column), (row, column - 1), (row, column), (row, column), (row + 1, column), (row, column + 1)][k]
  {
    if k % 2 == 0 then (row + k / 2 - 1, column) else (row, column + k / 2 - 1)
  }

  /** The first k probes lie on the grid. */
  predicate ProbesOnGrid(row: int, column: int, k: int)
  {
    forall i :: 0 <= i < k ==> var p := Probe(row, column, i); InGrid(p.0, p.1)
  }

  /**
    How many probes are looked at from probe k on: engage() has no bounds
    check, so the first off-grid probe throws and ends the step.
   */
  function ReachedFrom(row: int, column: int, k: nat): (n: nat)
    requires k <= 6
    ensures k <= n <= 6
    ensures forall i :: k <= i < n ==> var p := Probe(row, column, i); InGrid(p.0, p.1)
    ensures n < 6 ==> var p := Probe(row, column, n); !InGrid(p.0, p.1)
    decreases 6 - k
  {
    if k == 6 || !InGrid(Probe(row, column, k).0, Probe(row, column, k).1) then k
    else ReachedFrom(row, column, k + 1)
  }

  function Reached(row: int, column: int): (n: nat)
    ensures n <= 6 && ProbesOnGrid(row, column, n)
    ensures n < 6 ==> var p := Probe(row, column, n); !InGrid(p.0, p.1)
  {
    ReachedFrom(row, column, 0)
  }

  /** Reached() is the only count with all probes before it on the grid and the next one off it. */
  lemma ReachedUnique(row: int, column: int, k: nat)
    requires k <= 6 && ProbesOnGrid(row, column, k)
    requires k < 6 ==> var p := Probe(row, column, k); !InGrid(p.0, p.1)
    ensures Reached(row, column) == k
  {
    var n := Reached(row, column);
    if n < k {
      assert false;
    } else if k < n {
      assert false;
    }
  }

  /**
    Where the scan stops: from the top row nothing is engaged at all, from
    the left column (below the top row) only the square above is, and away
    from the border all six probes are looked at.
   */
  lemma ReachedProbes(row: int, column: int)
    requires InGrid(row, column)
    ensures row == 0 ==> Reached(row, column) == 0
    ensures row > 0 && column == 0 ==> Reached(row, column) == 1
    ensures 0 < row < Rows - 1 && 0 < column < Rows - 1 ==> Reached(row, column) == 6
  {
    if row == 0 {
      ReachedUnique(row, column, 0);
    } else if column == 0 {
      ReachedUnique(row, column, 1);
    } else if row < Rows - 1 && column < Rows - 1 {
      assert forall i :: 0 <= i < 6 ==>
          Probe(row, column, i) == [(row - 1, column), (row, column - 1), (row, column), (row, column), (row + 1, column), (row, column + 1)][i];
      ReachedUnique(row, column, 6);
    }
  }

  /** A square with its enemy handle pointing at a live enemy built for it, hidden exactly when the overlay is 'v'. */
  ghost predicate CellOk(cell: Cell, es: seq<Enemy>, r: int, c: int)
  {
    Wellformed(cell) &&
    (cell.enemy.Some? ==>
       cell.enemy.value < |es| &&
       es[cell.enemy.value].row == r && es[cell.enemy.value].column == c &&
       !es[cell.enemy.value].disabled &&
       (cell.overlay == Hidden <==> es[cell.enemy.value].hidden))
  }

  ghost predicate CellsOk(g: array2<Cell>, es: seq<Enemy>)
    reads g
  {
    g.Length0 == Rows && g.Length1 == Rows &&
    forall r, c {:trigger CellOk(g[r, c], es, r, c)} :: 0 <= r < Rows && 0 <= c < Rows ==> CellOk(g[r, c], es, r, c)
  }

  /** The arena fields that the squares' handles depend on. */
  ghost predicate SameLink(e: Enemy, f: Enemy)
  {
    e.row == f.row && e.column == f.column && e.disabled == f.disabled && e.hidden == f.hidden
  }

  /** Changing an enemy in ways its square does not see keeps every square's handle valid. */
  lemma LinksKept(g: array2<Cell>, es: seq<Enemy>, h: nat, e: Enemy)
    requires CellsOk(g, es) && h < |es| && SameLink(es[h], e)
    ensures CellsOk(g, es[h := e])
  {
    forall r, c | 0 <= r < Rows && 0 <= c < Rows
      ensures CellOk(g[r, c], es[h := e], r, c)
    {
      assert CellOk(g[r, c], es, r, c);
    }
  }

  /** What the engage loop changes: the arena, the enemy being fought and the battle flag. */
  datatype Fight = Fight(enemies: seq<Enemy>, current: Option<nat>, battling: bool)

  /**
    The endGame() calls of one step, in order, as (state, time left), take
    the game state (state0, ended0, endings0) to (state, ended, endings):
    they are appended to the endings, the level has ended once there is
    one, and the state is the last one set.
   */
  predicate Appended(state0: int, ended0: bool, endings0: seq<(int, int)>, added: seq<(int, int)>,
                     state: int, ended: bool, endings: seq<(int, int)>)
  {
    endings == endings0 + added && ended == (ended0 || added != []) &&
    state == if added == [] then state0 else added[|added| - 1].0
  }

  /** The endGame() calls of two steps in a row are those of the first followed by those of the second. */
  lemma AppendedTwice(state0: int, ended0: bool, endings0: seq<(int, int)>, a: seq<(int, int)>,
                      state1: int, ended1: bool, endings1: seq<(int, int)>, b: seq<(int, int)>,
                      state: int, ended: bool, endings: seq<(int, int)>)
    requires Appended(state0, ended0, endings0, a, state1, ended1, endings1)
    requires Appended(state1, ended1, endings1, b, state, ended, endings)
    ensures Appended(state0, ended0, endings0, a + b, state, ended, endings)
  {
    assert endings0 + a + b == endings0 + (a + b);
    if b != [] {
      assert (a + b)[|a + b| - 1] == b[|b| - 1];
    }
  }

  /** The panel's squares, fight, keys held, robot damage and game state at one moment. */
  datatype Snapshot = Snapshot(cells: seq<seq<Cell>>, fight: Fight, keys: int, damage: int,
                               state: int, ended: bool, endings: seq<(int, int)>)

  /** engage() on one square: an enemy there starts its attack timer and becomes the one fought. */
  function EngageOne(f: Fight, cell: Cell): (g: Fight)
    ensures |g.enemies| == |f.enemies|
  {
    if cell.isEnemy && cell.enemy.Some? && cell.enemy.value < |f.enemies| then
      var h := cell.enemy.value;
      Fight(f.enemies[h := StartBattle(f.enemies[h])], Some(h), true)
    else f
  }

  /** engage() on the first k probes in turn, starting from the fight f. */
  ghost function EngageUpTo(g: array2<Cell>, row: int, column: int, k: nat, f: Fight): Fight
    requires g.Length0 == Rows && g.Length1 == Rows && ProbesOnGrid(row, column, k)
    reads g
  {
    if k == 0 then f
    else
      var p := Probe(row, column, k - 1);
      EngageOne(EngageUpTo(g, row, column, k - 1, f), g[p.0, p.1])
  }

  /** An enemy stands on square p. */
  ghost predicate EnemyOn(g: array2<Cell>, p: (int, int))
    reads g
  {
    g.Length0 == Rows && g.Length1 == Rows && InGrid(p.0, p.1) && g[p.0, p.1].isEnemy
  }

  /** An enemy stands on one of the first k probes around (row, column). */
  ghost predicate EnemyNear(g: array2<Cell>, row: int, column: int, k: int)
    reads g
  {
    exists i :: 0 <= i < k && EnemyOn(g, Probe(row, column, i))
  }

  /** Square p holds the handle h. */
  ghost predicate HandleOn(g: array2<Cell>, p: (int, int), h: nat)
    reads g
  {
    g.Length0 == Rows && g.Length1 == Rows && InGrid(p.0, p.1) && g[p.0, p.1].enemy == Some(h)
  }

  /** Engaging the first k probes puts the battle on exactly when it was already or an enemy stands on one of them. */
  lemma {:induction false} EngagedBattling(g: array2<Cell>, row: int, column: int, k: nat, f: Fight)
    requires CellsOk(g, f.enemies) && ProbesOnGrid(row, column, k)
    ensures |EngageUpTo(g, row, column, k, f).enemies| == |f.enemies|
    ensures EngageUpTo(g, row, column, k, f).battling <==>
              f.battling || EnemyNear(g, row, column, k)
  {
    if k > 0 {
      EngagedBattling(g, row, column, k - 1, f);
      var p := Probe(row, column, k - 1);
      assert CellOk(g[p.0, p.1], f.enemies, p.0, p.1);
    }
  }

  /** The handle h is on one of the first k probes around (row, column). */
  ghost predicate HandleNear(g: array2<Cell>, row: int, column: int, k: int, h: nat)
    reads g
  {
    exists i :: 0 <= i < k && HandleOn(g, Probe(row, column, i), h)
  }

  /** The handle h is on one of the first k probes exactly when it is on one of the first k - 1 or on probe k - 1. */
  lemma HandleNearStep(g: array2<Cell>, row: int, column: int, k: nat, h: nat)
    requires k > 0
    ensures HandleNear(g, row, column, k, h) <==> HandleNear(g, row, column, k - 1, h) || HandleOn(g, Probe(row, column, k - 1), h)
  {
    if HandleNear(g, row, column, k, h) && !HandleOn(g, Probe(row, column, k - 1), h) {
      var i :| 0 <= i < k && HandleOn(g, Probe(row, column, i), h);
      assert i < k - 1;
    }
  }

  /** Exactly the enemies standing on one of the first k probes have their attack timers started. */
  lemma {:induction false} EngagedEnemies(g: array2<Cell>, row: int, column: int, k: nat, f: Fight, h: nat)
    requires CellsOk(g, f.enemies) && ProbesOnGrid(row, column, k) && h < |f.enemies|
    ensures |EngageUpTo(g, row, column, k, f).enemies| == |f.enemies|
    ensures EngageUpTo(g, row, column, k, f).enemies[h] ==
              if HandleNear(g, row, column, k, h) then StartBattle(f.enemies[h]) else f.enemies[h]
  {
    if k > 0 {
      EngagedEnemies(g, row, column, k - 1, f, h);
      HandleNearStep(g, row, column, k, h);
      var p := Probe(row, column, k - 1);
      assert CellOk(g[p.0, p.1], f.enemies, p.0, p.1);
    }
  }

  /** With no enemy on the first k probes the enemy fought stays the one fought before. */
  lemma {:induction false} EngagedNone(g: array2<Cell>, row: int, column: int, k: nat, f: Fight)
    requires CellsOk(g, f.enemies) && ProbesOnGrid(row, column, k)
    requires forall i :: 0 <= i < k ==> !EnemyOn(g, Probe(row, column, i))
    ensures EngageUpTo(g, row, column, k, f) == f
  {
    if k > 0 {
      EngagedNone(g, row, column, k - 1, f);
      var p := Probe(row, column, k - 1);
      assert !EnemyOn(g, p);
    }
  }

  /**
    The enemy fought after engaging the first k probes is the one on the
    last probe i with an enemy.
   */
  lemma {:induction false} EngagedCurrent(g: array2<Cell>, row: int, column: int, k: nat, f: Fight, i: nat)
    requires CellsOk(g, f.enemies) && ProbesOnGrid(row, column, k)
    requires i < k && EnemyOn(g, Probe(row, column, i))
    requires forall j :: i < j < k ==> !EnemyOn(g, Probe(row, column, j))
    ensures EngageUpTo(g, row, column, k, f).current == g[Probe(row, column, i).0, Probe(row, column, i).1].enemy
  {
    var p := Probe(row, column, k - 1);
    if i == k - 1 {
      EngagedBattling(g, row, column, k - 1, f);
      assert CellOk(g[p.0, p.1], f.enemies, p.0, p.1);
    } else {
      EngagedCurrent(g, row, column, k - 1, f, i);
      assert !EnemyOn(g, p);
    }
  }

  /** The handle on the last of the first k probes whose square holds one, or None when none of them does. */
  ghost function LastHandle(g: array2<Cell>, row: int, column: int, k: nat): (h: Option<nat>)
    requires g.Length0 == Rows && g.Length1 == Rows && ProbesOnGrid(row, column, k)
    reads g
    ensures h.None? ==> forall i :: 0 <= i < k ==> g[Probe(row, column, i).0, Probe(row, column, i).1].enemy.None?
    ensures h.Some? ==> exists i :: 0 <= i < k && g[Probe(row, column, i).0, Probe(row, column, i).1].enemy == h &&
                          forall j :: i < j < k ==> g[Probe(row, column, j).0, Probe(row, column, j).1].enemy.None?
  {
    if k == 0 then None
    else
      var p := Probe(row, column, k - 1);
      if g[p.0, p.1].enemy.Some? then g[p.0, p.1].enemy else LastHandle(g, row, column, k - 1)
  }

  /** The enemy fought after engaging the first k probes is the one on the last probe with an enemy, or the one fought before. */
  lemma {:induction false} EngagedLast(g: array2<Cell>, row: int, column: int, k: nat, f: Fight)
    requires CellsOk(g, f.enemies) && ProbesOnGrid(row, column, k)
    ensures EngageUpTo(g, row, column, k, f).current == if LastHandle(g, row, column, k).Some? then LastHandle(g, row, column, k) else f.current
  {
    if k > 0 {
      EngagedLast(g, row, column, k - 1, f);
      EngagedBattling(g, row, column, k - 1, f);
      var p := Probe(row, column, k - 1);
      assert CellOk(g[p.0, p.1], f.enemies, p.0, p.1);
    }
  }

  /**
    What the reveal and engage loops of checkMove() around (row, column)
    leave from the fight f0, judged on the grid g they leave: every enemy
    whose square in the block holds its handle is detected, every enemy whose
    handle is on a probe reached starts attacking, the enemy fought is the one
    on the last probe holding an enemy (or stays as it was), and the battle is
    on exactly when it was or an enemy stands on a probe reached.
   */
  ghost predicate EngagedFrom(g: array2<Cell>, row: int, column: int, f0: Fight, f: Fight)
    requires g.Length0 == Rows && g.Length1 == Rows
    reads g
  {
    var k := Reached(row, column);
    |f.enemies| == |f0.enemies| &&
    (forall i :: 0 <= i < |f.enemies| ==>
       f.enemies[i] == CheckedEnemy(f0.enemies[i],
                                    InWindow(f0.enemies[i].row, f0.enemies[i].column, row, column) &&
                                    g[f0.enemies[i].row, f0.enemies[i].column].enemy == Some(i),
                                    HandleNear(g, row, column, k, i))) &&
    f.current == (if LastHandle(g, row, column, k).Some? then LastHandle(g, row, column, k) else f0.current) &&
    (f.battling <==> f0.battling || EnemyNear(g, row, column, k))
  }

  /**
    Engaging the probes reached, after the reveal loops took the squares
    cells (and the arena es0) to the grid g (and the arena of f), leaves what
    EngagedFrom describes.
   */
  lemma EngageAfterReveal(g: array2<Cell>, cells: seq<seq<Cell>>, row: int, column: int, es0: seq<Enemy>, f: Fight)
    requires CellsOk(g, f.enemies) && GridShaped(cells) && CellsOf(g) == RevealedCells(cells, row, column)
    requires |f.enemies| == |es0|
    requires forall i :: 0 <= i < |f.enemies| ==>
               f.enemies[i] == if InWindow(es0[i].row, es0[i].column, row, column) &&
                                  cells[es0[i].row][es0[i].column].enemy == Some(i)
                               then Detected(es0[i]) else es0[i]
    ensures EngagedFrom(g, row, column, Fight(es0, f.current, f.battling), EngageUpTo(g, row, column, Reached(row, column), f))
  {
    var k := Reached(row, column);
    EngagedBattling(g, row, column, k, f);
    EngagedLast(g, row, column, k, f);
    var f' := EngageUpTo(g, row, column, k, f);
    forall i | 0 <= i < |f'.enemies|
      ensures f'.enemies[i] == CheckedEnemy(es0[i],
                                           InWindow(es0[i].row, es0[i].column, row, column) &&
                                           g[es0[i].row, es0[i].column].enemy == Some(i),
                                           HandleNear(g, row, column, k, i))
    {
      EngagedEnemies(g, row, column, k, f, i);
      if InWindow(es0[i].row, es0[i].column, row, column) {
        assert CellsOf(g)[es0[i].row][es0[i].column] == g[es0[i].row, es0[i].column];
      }
    }
  }

  /** The arena element a square links to is found at that square. */
  lemma LinkedAt(g: array2<Cell>, es: seq<Enemy>, r: int, c: int, h: nat)
    requires CellsOk(g, es) && InGrid(r, c) && g[r, c].enemy == Some(h)
    ensures h < |es| && es[h].row == r && es[h].column == c && !es[h].disabled
  {
    assert CellOk(g[r, c], es, r, c);
  }

  /** An exit square the robot can walk onto. */
  predicate OpenExit(cell: Cell)
  {
    cell.isExit && cell.enterable
  }

  /** The squares of the window that the nested loops of checkMove() have visited, columns outermost. */
  predicate Visited(r: int, c: int, row: int, column: int, addColumn: int, addRow: int)
  {
    InWindow(r, c, row, column) && (c - column < addColumn || (c - column == addColumn && r - row < addRow))
  }

  class GamePanel {
    const grid: array2<Cell>
    var enemies: seq<Enemy>
    const robot: Robot
    const statusBar: StatusBar
    /** The static keysPressed array: up, right, down, left. */
    const keysPressed: array<bool>
    const level: int
    const requiredKeys: int
    /** exitLocation. */
    const exitRow: int
    const exitColumn: int
    var state: int
    var battling: bool
    var currentEnemy: Option<nat>
    var currentKeys: int
    var paused: bool
    var drawMenu: bool
    var ended: bool
    /** The (state, time left) of every game.gameOver(state) call so far. */
    var endings: seq<(int, int)>

    ghost predicate Valid()
      reads this`enemies, this`currentEnemy, this`battling, this`currentKeys, this`state, grid
      reads robot`location, robot`health, robot`damage, robot.location, statusBar`seconds
    {
      keysPressed.Length == 4 && ArenaOk() && FightOk() && RobotOk() && ExitOk() &&
      statusBar.Valid() && -2 <= state <= 2
    }

    /** Every square well formed and linked to its live enemy; every enemy consistent and on the grid. */
    ghost predicate ArenaOk()
      reads this`enemies, grid
    {
      CellsOk(grid, enemies) &&
      forall i :: 0 <= i < |enemies| ==> Consistent(enemies[i]) && InGrid(enemies[i].row, enemies[i].column)
    }

    /** The enemy being fought is a live enemy on its square. */
    ghost predicate FightOk()
      reads this`enemies, this`currentEnemy, this`battling, grid
    {
      (currentEnemy.Some? ==> currentEnemy.value < |enemies|) &&
      (battling ==>
         currentEnemy.Some? && currentEnemy.value < |enemies| &&
         var e := enemies[currentEnemy.value];
         InGrid(e.row, e.column) && grid.Length0 == Rows && grid.Length1 == Rows &&
         grid[e.row, e.column].enemy == currentEnemy)
    }

    /** The robot stands on an enterable square, with health and damage within their caps. */
    ghost predicate RobotOk()
      reads grid, robot`location, robot`health, robot`damage, robot.location
    {
      InGrid(robot.location.row, robot.location.column) &&
      grid.Length0 == Rows && grid.Length1 == Rows &&
      grid[robot.location.row, robot.location.column].enterable &&
      robot.Bounded()
    }

    /**
      The recorded exit is an exit square, and an exit square can be entered
      (and the level won) only after at least one key and all required keys
      were found.
     */
    ghost predicate ExitOk()
      reads this`currentKeys, this`state, grid
    {
      grid.Length0 == Rows && grid.Length1 == Rows &&
      InGrid(exitRow, exitColumn) && grid[exitRow, exitColumn].isExit &&
      currentKeys >= 0 &&
      (state == 1 ==> 0 < currentKeys && requiredKeys <= currentKeys) &&
      forall r, c {:trigger OpenExit(grid[r, c])} :: 0 <= r < Rows && 0 <= c < Rows && OpenExit(grid[r, c]) ==> 0 < currentKeys && requiredKeys <= currentKeys
    }

    /**
      The panel of a loaded level after addGameData() and startGame(): the
      level's grid, arena, robot, exit and key count, no key held, state 0,
      no battle, and the clock started at 4:00.
     */
    constructor (game: Games.Game, statusBar: StatusBar, level: int)
      requires game.Loaded() && game.robot.Bounded()
      modifies statusBar
      ensures Valid()
      ensures grid == game.grid && enemies == game.enemies && robot == game.robot && this.statusBar == statusBar
      ensures (exitRow, exitColumn) == (game.exitRow, game.exitColumn) && requiredKeys == game.noOfKeys
      ensures keysPressed[..] == [false, false, false, false] && fresh(keysPressed)
      ensures state == 0 && currentKeys == 0 && !battling && currentEnemy == None
      ensures !paused && !drawMenu && !ended && endings == [] && this.level == level
      ensures statusBar.TimeLeft() == MaxGameTime && !statusBar.paused
    {
      grid := game.grid;
      enemies := game.enemies;
      robot := game.robot;
      this.statusBar := statusBar;
      this.level := level;
      requiredKeys := game.noOfKeys;
      exitRow, exitColumn := game.exitRow, game.exitColumn;
      keysPressed := new bool[4](_ => false);
      state := 0;
      paused, drawMenu := false, false;
      currentKeys := 0;
      battling := false;
      currentEnemy := None;
      ended := false;
      endings := [];
      new;
      statusBar.Start();
      assert game.SquaresLoaded() && game.EnemiesLinked() && game.ArenaIdle();
      forall r, c | 0 <= r < Rows && 0 <= c < Rows
        ensures CellOk(grid[r, c], enemies, r, c)
      {
        if grid[r, c].enemy.Some? {
          assert grid[r, c].isEnemy;
        }
      }
    }

    /**
      The level's life: while it runs the state is 0, nothing has been
      recorded and the clock still shows a non-negative minute; once it has
      ended, exactly one ending was recorded, with the state it ended in:
      won (1), robot destroyed (-1) or time ran out (-2).
     */
    ghost predicate Lifecycle()
      reads this`ended, this`state, this`endings, statusBar`minutes
    {
      (!ended ==> state == 0 && endings == [] && statusBar.minutes >= 0) &&
      (ended ==> |endings| == 1 && endings[0].0 == state && (state == 1 || state == -1 || state == -2))
    }

    /**
      The endGame() calls of one step, in order, as (state, time left): they
      are appended to the endings, the level has ended once there is one,
      and the state is the last one set.
     */
    twostate predicate EndedWith(added: seq<(int, int)>)
      reads this`ended, this`state, this`endings
    {
      Appended(old(state), old(ended), old(endings), added, state, ended, endings)
    }

    /** What checkMove() reads and changes of the panel, but the robot's health, as a value. */
    ghost function Now(): Snapshot
      requires grid.Length0 == Rows && grid.Length1 == Rows
      reads this, grid, robot`damage
    {
      Snapshot(CellsOf(grid), Fight(enemies, currentEnemy, battling), currentKeys, robot.damage, state, ended, endings)
    }

    /** setState(): only the five known states are accepted. */
    method SetState(s: int)
      modifies this`state
      ensures state == if -2 <= s <= 2 then s else old(state)
    {
      if -2 <= s && s <= 2 {
        state := s;
      }
    }

    /**
      endGame(): the level is over and game.gameOver(state) shows the
      game-over screen with the state and the clock's time left.
     */
    method EndGame()
      modifies this`ended, this`endings
      ensures ended && endings == old(endings) + [(state, statusBar.TimeLeft())]
    {
      ended := true;
      endings := endings + [(state, statusBar.TimeLeft())];
    }

    /** robot.loseHealth(amount), with the fatal case's setState(-1) and endGame(). */
    method LoseRobotHealth(amount: int)
      requires Valid() && amount >= 0
      modifies robot`health, robot`disabled, this`state, this`ended, this`endings
      ensures Valid()
      ensures robot.health == HealthAfterLoss(old(robot.health), amount)
      ensures robot.disabled == (old(robot.disabled) || IsFatal(old(robot.health), amount))
      ensures EndedWith(LossEndings(old(robot.health), amount, statusBar.TimeLeft()))
    {
      var fatal := robot.LoseHealth(amount);
      if fatal {
        SetState(-1);
        EndGame();
      }
    }

    /**
      The status bar's update(): while the clock shows a non-negative minute
      the robot loses HEALTH_DRAIN; once the minutes have run below zero the
      level ends with state -2 (time ran out).
     */
    method Update()
      requires Valid()
      modifies robot`health, robot`disabled, this`state, this`ended, this`endings
      ensures Valid()
      ensures robot.health == AfterUpdate(old(robot.health), statusBar.minutes)
      ensures EndedWith(UpdateEndings(old(robot.health), statusBar.minutes, statusBar.TimeLeft()))
    {
      if statusBar.minutes >= 0 {
        LoseRobotHealth(HealthDrain);
      } else {
        SetState(-2);
        EndGame();
      }
    }

    /** keyFound(): one more key; with at least as many keys as the level holds, the exit opens. */
    method KeyFound()
      requires Valid()
      modifies this`currentKeys, grid
      ensures Valid()
      ensures currentKeys == old(currentKeys) + 1
      ensures forall r, c :: 0 <= r < Rows && 0 <= c < Rows ==>
                grid[r, c] == if (r, c) == (exitRow, exitColumn) && currentKeys >= requiredKeys
                              then ExitUnlocked(old(grid[r, c])) else old(grid[r, c])
    {
      currentKeys := currentKeys + 1;
      if currentKeys >= requiredKeys {
        var exit := grid[exitRow, exitColumn];
        assert CellOk(exit, enemies, exitRow, exitColumn);
        TransitionsPreserveWellformed(exit);
        grid[exitRow, exitColumn] := ExitUnlocked(exit);
      }
    }

    /** itemPickedUp(item): apply the item's effect, then the status bar's update(). */
    method ApplyItem(it: Item)
      requires Valid() && 31 <= it.value <= 50
      modifies grid, this`currentKeys, robot`health, robot`damage, robot`disabled, this`state, this`ended, this`endings
      ensures Valid()
      ensures currentKeys == old(currentKeys) + (if EffectOf(it).FoundKey? then 1 else 0)
      ensures forall r, c :: 0 <= r < Rows && 0 <= c < Rows ==>
                grid[r, c] == if (r, c) == (exitRow, exitColumn) && EffectOf(it).FoundKey? && currentKeys >= requiredKeys
                              then ExitUnlocked(old(grid[r, c])) else old(grid[r, c])
      ensures robot.damage == DamageAfter(EffectOf(it), old(robot.damage))
      ensures robot.health == AfterUpdate(HealthAfter(EffectOf(it), old(robot.health)), statusBar.minutes)
      ensures EndedWith(UpdateEndings(HealthAfter(EffectOf(it), old(robot.health)), statusBar.minutes, statusBar.TimeLeft()))
    {
      match EffectOf(it) {
        case AddDamage(amount) =>
          robot.DamageBoost(amount);
        case AddHealth(amount) =>
          robot.HealthBoost(amount);
        case FoundKey =>
          KeyFound();
        case NoEffect =>
      }
      Update();
    }

    /** pickUpItem(row, column): an item under the robot is taken off its square and applied. */
    method PickUpItem(row: int, column: int) returns (picked: bool)
      requires Valid() && InGrid(row, column)
      modifies grid, this`currentKeys, robot`health, robot`damage, robot`disabled, this`state, this`ended, this`endings
      ensures Valid()
      ensures picked == old(grid[row, column]).isItem
      ensures picked ==> !grid[row, column].isItem && !grid[row, column].isExit && grid[row, column].overlay == Open
      ensures var e := PickedEffect(old(grid[row, column]));
              forall r, c :: 0 <= r < Rows && 0 <= c < Rows ==>
                grid[r, c] == PickedUpCell(old(grid[r, c]), r, c, row, column, (exitRow, exitColumn), e.FoundKey? && currentKeys >= requiredKeys)
      ensures var e := PickedEffect(old(grid[row, column]));
              robot.damage == DamageAfter(e, old(robot.damage)) &&
              currentKeys == old(currentKeys) + (if e.FoundKey? then 1 else 0) &&
              robot.health == (if picked then AfterUpdate(HealthAfter(e, old(robot.health)), statusBar.minutes) else old(robot.health))
      ensures EndedWith(if picked then UpdateEndings(HealthAfter(PickedEffect(old(grid[row, column])), old(robot.health)),
                                                     statusBar.minutes, statusBar.TimeLeft())
                        else [])
    {
      var cell := grid[row, column];
      picked := cell.isItem;
      if picked {
        assert CellOk(cell, enemies, row, column);
        TransitionsPreserveWellformed(cell);
        var (emptied, item) := ItemPickedUp(cell);
        assert (row, column) != (exitRow, exitColumn) by {
          assert CellOk(grid[exitRow, exitColumn], enemies, exitRow, exitColumn);
        }
        grid[row, column] := emptied;
        ApplyItem(item.value);
      }
    }
    /** reveal(row, column): an item on the square is uncovered, an enemy detected. */
    method Reveal(r: int, c: int) returns (found: bool)
      requires Valid() && InGrid(r, c)
      modifies grid, this`enemies
      ensures Valid()
      ensures found <==> old(grid[r, c]).isItem || old(grid[r, c]).isEnemy
      ensures forall r', c' :: 0 <= r' < Rows && 0 <= c' < Rows ==>
                grid[r', c'] == if (r', c') == (r, c) then RevealCell(old(grid[r', c'])) else old(grid[r', c'])
      ensures |enemies| == |old(enemies)|
      ensures forall i :: 0 <= i < |enemies| ==>
                enemies[i] == if old(grid[r, c]).enemy == Some(i) then Detected(old(enemies[i])) else old(enemies[i])
    {
      var cell := grid[r, c];
      assert CellOk(cell, enemies, r, c);
      TransitionsPreserveWellformed(cell);
      if cell.isItem {
        grid[r, c] := ItemDetected(cell);
        return true;
      }
      if cell.isEnemy {
        var h := cell.enemy.value;
        if TriggersDetection(cell) {
          DetectedIdempotent(enemies[h]);
          enemies := enemies[h := Detected(enemies[h])];
        } else {
          assert enemies == enemies[h := Detected(enemies[h])];
        }
        grid[r, c] := EnemyDetected(cell);
        forall r', c' | 0 <= r' < Rows && 0 <= c' < Rows
          ensures CellOk(grid[r', c'], enemies, r', c')
        {
          assert CellOk(old(grid[r', c']), old(enemies), r', c');
        }
        return true;
      }
      return false;
    }

    /**
      The reveal loops of checkMove(): every square of the 5x5 block around
      (row, column) that lies on the grid is revealed, and the enemies on
      those squares are detected.
     */
    method RevealAround(row: int, column: int)
      requires Valid() && InGrid(row, column)
      modifies grid, this`enemies
      ensures Valid()
      ensures forall r, c :: 0 <= r < Rows && 0 <= c < Rows ==>
                grid[r, c] == if InWindow(r, c, row, column) then RevealCell(old(grid[r, c])) else old(grid[r, c])
      ensures |enemies| == |old(enemies)|
      ensures forall i :: 0 <= i < |enemies| ==>
                enemies[i] == if InWindow(old(enemies[i]).row, old(enemies[i]).column, row, column) &&
                                 old(grid[enemies[i].row, enemies[i].column]).enemy == Some(i)
                              then Detected(old(enemies[i])) else old(enemies[i])
      ensures CellsOf(grid) == RevealedCells(old(CellsOf(grid)), row, column)
    {
      ghost var cells := CellsOf(grid);
      var addColumn := -2;
      while addColumn <= 2
        invariant -2 <= addColumn <= 3
        invariant Valid()
        invariant forall r, c :: 0 <= r < Rows && 0 <= c < Rows ==>
                    grid[r, c] == if Visited(r, c, row, column, addColumn, -2) then RevealCell(old(grid[r, c])) else old(grid[r, c])
        invariant |enemies| == |old(enemies)|
        invariant forall i :: 0 <= i < |enemies| ==>
                    enemies[i] == if Visited(old(enemies[i]).row, old(enemies[i]).column, row, column, addColumn, -2) &&
                                     old(grid[enemies[i].row, enemies[i].column]).enemy == Some(i)
                                  then Detected(old(enemies[i])) else old(enemies[i])
      {
        RevealColumn(row, column, addColumn);
        addColumn := addColumn + 1;
      }
      CellsOfIs(grid, RevealedCells(cells, row, column));
    }

    /** The inner reveal loop: the on-grid squares of one column of the 5x5 block. */
    method RevealColumn(row: int, column: int, addColumn: int)
      requires Valid() && InGrid(row, column) && -2 <= addColumn <= 2
      modifies grid, this`enemies
      ensures Valid()
      ensures forall r, c :: 0 <= r < Rows && 0 <= c < Rows ==>
                grid[r, c] == if InWindow(r, c, row, column) && c == column + addColumn
                              then RevealCell(old(grid[r, c])) else old(grid[r, c])
      ensures |enemies| == |old(enemies)|
      ensures forall i :: 0 <= i < |enemies| ==>
                enemies[i] == if InWindow(old(enemies[i]).row, old(enemies[i]).column, row, column) &&
                                 old(enemies[i]).column == column + addColumn &&
                                 old(grid[enemies[i].row, enemies[i].column]).enemy == Some(i)
                              then Detected(old(enemies[i])) else old(enemies[i])
    {
      var addRow := -2;
      while addRow <= 2
        invariant -2 <= addRow <= 3
        invariant Valid()
        invariant forall r, c :: 0 <= r < Rows && 0 <= c < Rows ==>
                    grid[r, c] == if InWindow(r, c, row, column) && c == column + addColumn && r < row + addRow
                                  then RevealCell(old(grid[r, c])) else old(grid[r, c])
        invariant |enemies| == |old(enemies)|
        invariant forall i :: 0 <= i < |enemies| ==>
                    enemies[i] == if InWindow(old(enemies[i]).row, old(enemies[i]).column, row, column) &&
                                     old(enemies[i]).column == column + addColumn && old(enemies[i]).row < row + addRow &&
                                     old(grid[enemies[i].row, enemies[i].column]).enemy == Some(i)
                                  then Detected(old(enemies[i])) else old(enemies[i])
      {
        var r, c := row + addRow, column + addColumn;
        if 0 <= r && 0 <= c && r <= 23 && c <= 23 {
          assert CellOk(grid[r, c], enemies, r, c);
          ghost var before, es := grid[r, c], enemies;
          label Step:
          var found := Reveal(r, c);
          forall r', c' | 0 <= r' < Rows && 0 <= c' < Rows
            ensures grid[r', c'] == if InWindow(r', c', row, column) && c' == column + addColumn && r' < row + addRow + 1
                                    then RevealCell(old(grid[r', c'])) else old(grid[r', c'])
          {
            if (r', c') == (r, c) {
              assert !(r' < row + addRow);
            } else {
              assert grid[r', c'] == old@Step(grid[r', c']);
            }
          }
          forall i | 0 <= i < |enemies|
            ensures enemies[i] == if InWindow(old(enemies[i]).row, old(enemies[i]).column, row, column) &&
                                     old(enemies[i]).column == column + addColumn && old(enemies[i]).row < row + addRow + 1 &&
                                     old(grid[enemies[i].row, enemies[i].column]).enemy == Some(i)
                                  then Detected(old(enemies[i])) else old(enemies[i])
          {
            if before.enemy == Some(i) {
              assert es[i].row == r && es[i].column == c;
            } else {
              assert enemies[i] == es[i];
            }
          }
        }
        addRow := addRow + 1;
      }
    }

    /** engage(row, column): an enemy on the square starts its attack timer and becomes the one being fought. */
    method Engage(r: int, c: int) returns (found: bool)
      requires Valid() && InGrid(r, c)
      modifies this`enemies, this`currentEnemy, this`battling
      ensures Valid()
      ensures found == grid[r, c].isEnemy
      ensures Fight(enemies, currentEnemy, battling) == EngageOne(Fight(old(enemies), old(currentEnemy), old(battling)), grid[r, c])
    {
      var cell := grid[r, c];
      assert CellOk(cell, enemies, r, c);
      found := cell.isEnemy;
      if found {
        var h := cell.enemy.value;
        TickConsistent(enemies[h]);
        LinksKept(grid, enemies, h, StartBattle(enemies[h]));
        enemies := enemies[h := StartBattle(enemies[h])];
        currentEnemy := Some(h);
        battling := true;
      }
    }

    /**
      The engage loop of checkMove(): the probes up, left, here, here, down,
      right are looked at in that order until one falls off the grid, which
      throws. Every enemy found starts attacking; the last one found is the
      one being fought.
     */
    method EngageAround(row: int, column: int) returns (thrown: bool)
      requires Valid() && InGrid(row, column)
      modifies this`enemies, this`currentEnemy, this`battling
      ensures Valid()
      ensures thrown == (Reached(row, column) < 6)
      ensures Fight(enemies, currentEnemy, battling) ==
                EngageUpTo(grid, row, column, Reached(row, column), Fight(old(enemies), old(currentEnemy), old(battling)))
    {
      ghost var f0 := Fight(enemies, currentEnemy, battling);
      ghost var k := 0;
      thrown := false;
      var change := -1;
      while change <= 1 && !thrown
        invariant -1 <= change <= 2 && 0 <= k <= 6
        invariant !thrown ==> k == 2 * (change + 1)
        invariant thrown ==> k < 6 && !InGrid(Probe(row, column, k).0, Probe(row, column, k).1)
        invariant ProbesOnGrid(row, column, k)
        invariant Valid()
        invariant Fight(enemies, currentEnemy, battling) == EngageUpTo(grid, row, column, k, f0)
        decreases 2 - change, if thrown then 0 else 1
      {
        thrown := EngageProbe(row + change, column, row, column, k, f0);
        if !thrown {
          k := k + 1;
          thrown := EngageProbe(row, column + change, row, column, k, f0);
          if !thrown {
            k := k + 1;
            change := change + 1;
          }
        }
      }
      ReachedUnique(row, column, k);
    }

    /** engage() on probe k: off the grid it throws, otherwise the probe joins those engaged. */
    method EngageProbe(r: int, c: int, ghost row: int, ghost column: int, ghost k: nat, ghost f0: Fight) returns (thrown: bool)
      requires Valid() && k < 6 && ProbesOnGrid(row, column, k) && Probe(row, column, k) == (r, c)
      requires Fight(enemies, currentEnemy, battling) == EngageUpTo(grid, row, column, k, f0)
      modifies this`enemies, this`currentEnemy, this`battling
      ensures Valid()
      ensures thrown <==> !InGrid(Probe(row, column, k).0, Probe(row, column, k).1)
      ensures !thrown ==> ProbesOnGrid(row, column, k + 1)
      ensures Fight(enemies, currentEnemy, battling) == if thrown then old(Fight(enemies, currentEnemy, battling))
                                                          else EngageUpTo(grid, row, column, k + 1, f0)
    {
      thrown := !InGrid(r, c);
      if !thrown {
        var found := Engage(r, c);
      }
    }

    /** Where move() would leave the robot in the current state: heading, row, column and whether the lookup throws. */
    ghost function Outcome(): (Direction, int, int, bool)
      requires Valid()
      reads this, grid, keysPressed, robot, robot.location, statusBar
    {
      MoveOutcome(grid, keysPressed[..], battling, robot.location.row, robot.location.column, robot.direction)
    }

    /**
      move(): with no battle on, the held keys give the movement vector and
      any held key counts as a move. A non-zero vector turns the robot
      first; then the target square is looked up, which throws when it is
      off the grid, and the robot steps onto it when it can be entered and
      the square being left is not a gate that forbids the new heading.
     */
    method Move() returns (moved: bool, thrown: bool)
      requires Valid()
      modifies robot`direction, robot.location
      ensures Valid()
      ensures moved == (!battling && AnyKey(keysPressed[..]))
      ensures (robot.direction, robot.location.row, robot.location.column, thrown) ==
                MoveOutcome(grid, keysPressed[..], battling, old(robot.location.row), old(robot.location.column), old(robot.direction))
    {
      moved, thrown := false, false;
      if !battling {
        var rowChange, columnChange;
        rowChange, columnChange, moved := HeldKeys();
        if moved && (rowChange != 0 || columnChange != 0) {
          thrown := Step(rowChange, columnChange);
        }
      }
    }

    /** The key-reading part of move(): the vector and whether any key is held. */
    method HeldKeys() returns (rowChange: int, columnChange: int, moved: bool)
      requires keysPressed.Length == 4
      ensures (rowChange, columnChange) == Vector(keysPressed[..]) && moved == AnyKey(keysPressed[..])
    {
      rowChange, columnChange, moved := 0, 0, false;
      if keysPressed[0] {
        rowChange, moved := rowChange - 1, true;
      }
      if keysPressed[1] {
        columnChange, moved := columnChange + 1, true;
      }
      if keysPressed[2] {
        rowChange, moved := rowChange + 1, true;
      }
      if keysPressed[3] {
        columnChange, moved := columnChange - 1, true;
      }
    }

    /** The turning and stepping part of move(), for a non-zero vector. */
    method Step(rowChange: int, columnChange: int) returns (thrown: bool)
      requires Valid()
      modifies robot`direction, robot.location
      ensures Valid()
      ensures var from := (old(robot.location.row), old(robot.location.column));
              var target := (from.0 + rowChange, from.1 + columnChange);
              robot.direction == HeadingFor(rowChange, columnChange, old(robot.direction)) &&
              thrown == !InGrid(target.0, target.1) &&
              (robot.location.row, robot.location.column) ==
                (if !thrown && grid[target.0, target.1].enterable && MayLeave(grid[from.0, from.1], robot.direction)
                 then target else from)
    {
      var originalRow, originalColumn := robot.location.row, robot.location.column;
      var newRow, newColumn := rowChange + originalRow, columnChange + originalColumn;
      robot.ChangeDirection(rowChange, columnChange);
      thrown := !InGrid(newRow, newColumn);
      if thrown {
        return;
      }
      if grid[newRow, newColumn].enterable {
        var here := grid[originalRow, originalColumn];
        if here.isDirection {
          assert CellOk(here, enemies, originalRow, originalColumn);
          var difference := IndexDifference(robot.direction, here.direction.value);
          if difference <= 1 || difference == 7 {
            robot.Move(rowChange, columnChange);
          }
        } else {
          robot.Move(rowChange, columnChange);
        }
      }
    }

    /**
      findBattle() with the enemy's loseHealth(): during a battle the
      robot's blow hits the enemy being fought. A blow at least as large as
      its health disables it, stops its timer, ends the battle and clears its
      square (dispose); a smaller blow is subtracted, sets the enemy's skip
      flag and costs the robot the enemy's damage.
     */
    method Attack() returns (attacked: bool)
      requires Valid()
      modifies grid, this`enemies, this`battling, robot`health, robot`disabled, this`state, this`ended, this`endings
      ensures Valid()
      ensures attacked == old(battling)
      ensures !attacked ==>
                unchanged(grid) && enemies == old(enemies) && !battling && robot.health == old(robot.health) &&
                state == old(state) && ended == old(ended) && endings == old(endings)
      ensures attacked ==>
                var h := old(currentEnemy).value;
                var e := old(enemies)[h];
                var (hit, defeated) := TakeHit(e, robot.damage);
                h < |old(enemies)| && enemies == old(enemies)[h := hit] && battling == !defeated &&
                (forall r, c :: 0 <= r < Rows && 0 <= c < Rows ==>
                   grid[r, c] == if defeated && (r, c) == (e.row, e.column) then EnemyDefeated(old(grid[r, c])) else old(grid[r, c])) &&
                robot.health == (if defeated then old(robot.health) else HealthAfterLoss(old(robot.health), e.damage)) &&
                EndedWith(if defeated then [] else LossEndings(old(robot.health), e.damage, statusBar.TimeLeft()))
    {
      attacked := battling;
      if !attacked {
        return;
      }
      var h := currentEnemy.value;
      var e := enemies[h];
      var (hit, defeated) := TakeHit(e, robot.damage);
      TakeHitConsistent(e, robot.damage);
      if defeated {
        var cell := grid[e.row, e.column];
        assert CellOk(cell, enemies, e.row, e.column);
        TransitionsPreserveWellformed(cell);
        ghost var es := enemies;
        enemies := enemies[h := hit];
        battling := false;
        grid[e.row, e.column] := EnemyDefeated(cell);
        forall r, c | 0 <= r < Rows && 0 <= c < Rows
          ensures CellOk(grid[r, c], enemies, r, c)
        {
          if (r, c) != (e.row, e.column) {
            assert CellOk(grid[r, c], es, r, c);
          }
        }
      } else {
        LinksKept(grid, enemies, h, hit);
        enemies := enemies[h := hit];
        LoseRobotHealth(e.damage);
      }
    }

    /**
      One firing of enemy h's attack timer, which runs from startBattle()
      until dispose(): a disabled enemy does nothing, a skipped cycle clears
      the skip flag, and otherwise the robot loses the enemy's damage,
      wherever it stands.
     */
    method EnemyTick(h: nat)
      requires Valid() && h < |enemies| && enemies[h].running
      modifies this`enemies, robot`health, robot`disabled, this`state, this`ended, this`endings
      ensures Valid()
      ensures var (e, strikes) := Tick(old(enemies)[h]);
              enemies == old(enemies)[h := e] &&
              robot.health == (if strikes then HealthAfterLoss(old(robot.health), e.damage) else old(robot.health)) &&
              EndedWith(if strikes then LossEndings(old(robot.health), e.damage, statusBar.TimeLeft()) else [])
      ensures old(Lifecycle()) && !old(ended) ==> Lifecycle()
    {
      var (e, strikes) := Tick(enemies[h]);
      TickConsistent(enemies[h]);
      LinksKept(grid, enemies, h, e);
      enemies := enemies[h := e];
      if strikes {
        LoseRobotHealth(e.damage);
      }
    }

    /** One firing of the status bar's timer: updateTime(), which runs update() when the clock is not paused. */
    method ClockTick()
      requires Valid()
      modifies statusBar`minutes, statusBar`seconds, robot`health, robot`disabled, this`state, this`ended, this`endings
      ensures Valid()
      ensures old(statusBar.paused) ==>
                statusBar.TimeLeft() == old(statusBar.TimeLeft()) && robot.health == old(robot.health) &&
                state == old(state) && ended == old(ended) && endings == old(endings)
      ensures !old(statusBar.paused) ==>
                statusBar.TimeLeft() == old(statusBar.TimeLeft()) - 1 &&
                robot.health == AfterUpdate(old(robot.health), statusBar.minutes) &&
                EndedWith(UpdateEndings(old(robot.health), statusBar.minutes, statusBar.TimeLeft()))
      ensures old(Lifecycle()) && !old(ended) ==> Lifecycle()
    {
      var ticked := statusBar.UpdateTime();
      if ticked {
        Update();
      }
    }

    /**
      keyReleased(): a movement key clears its slot; Escape opens the
      in-game menu, which pauses both the clock and the panel (the status
      bar's openMenu() followed by drawMenu()).
     */
    method KeyReleased(k: Key)
      requires Valid()
      modifies keysPressed, statusBar`paused, this`drawMenu, this`paused
      ensures Valid()
      ensures Slot(k).Some? ==>
                keysPressed[..] == old(keysPressed[..])[Slot(k).value := false] &&
                statusBar.paused == old(statusBar.paused) && paused == old(paused) && drawMenu == old(drawMenu)
      ensures k == Escape ==> keysPressed[..] == old(keysPressed[..]) && statusBar.paused && paused && drawMenu
      ensures Slot(k).None? && k != Escape ==>
                keysPressed[..] == old(keysPressed[..]) &&
                statusBar.paused == old(statusBar.paused) && paused == old(paused) && drawMenu == old(drawMenu)
      ensures old(Lifecycle()) && !old(ended) ==> Lifecycle()
    {
      var slot := Slot(k);
      if slot.Some? {
        keysPressed[slot.value] := false;
      } else if k == Escape {
        statusBar.OpenMenu();
        drawMenu, paused := true, true;
      }
    }

    /** cancelMenu(): the menu closes and both the panel and the clock run again. */
    method CancelMenu()
      requires Valid()
      modifies this`drawMenu, this`paused, statusBar`paused
      ensures Valid()
      ensures !drawMenu && !paused && !statusBar.paused
      ensures old(Lifecycle()) && !old(ended) ==> Lifecycle()
    {
      drawMenu, paused := false, false;
      statusBar.MenuClosed();
    }

    /**
      checkMove(), after the robot moved (or tried to): pick up an item
      under the robot; on the exit the level is won; reveal the 5x5 block
      around the robot; engage the enemies on the four neighbouring squares
      (with the robot's own square probed twice), which throws at the first
      probe off the grid.
     */
    method CheckMove() returns (thrown: bool)
      requires Valid()
      modifies grid, this`enemies, this`currentEnemy, this`battling, this`currentKeys,
               robot`health, robot`damage, robot`disabled, this`state, this`ended, this`endings
      ensures Valid()
      ensures CheckedAt(old(Now()), robot.location.row, robot.location.column, old(robot.health), thrown)
      ensures old(Lifecycle()) && !old(ended) ==> Lifecycle()
    {
      var row, column := robot.location.row, robot.location.column;
      ghost var s := Now();
      PickUpOrExit(row, column);
      ghost var t := Now();
      thrown := RevealAndEngage(row, column);
      PickedThenEngaged(grid, s, t, Now(), row, column, (exitRow, exitColumn), requiredKeys, old(robot.health), robot.health,
                        statusBar.minutes, statusBar.TimeLeft());
      assert (robot.location.row, robot.location.column) == (row, column);
    }

    /**
      What checkMove() at the robot's square (row, column) leaves, from a
      robot whose health was health0: every square is CheckedCell of what it
      was (the item under the robot taken off, the exit opened by a key that
      completes the count, the 5x5 block revealed); the item's effect is
      applied and update() runs; standing on the exit wins the level; the
      neighbours are engaged up to the first probe off the grid, where the
      lookup throws.
     */
    ghost predicate CheckedAt(s: Snapshot, row: int, column: int, health0: int, thrown: bool)
      requires InGrid(row, column) && grid.Length0 == Rows && grid.Length1 == Rows && GridShaped(s.cells)
      reads this, grid, robot`health, robot`damage, statusBar`minutes, statusBar`seconds
    {
      thrown == (Reached(row, column) < 6) &&
      Checked(grid, s, Now(), row, column, (exitRow, exitColumn), requiredKeys, health0, robot.health,
              statusBar.minutes, statusBar.TimeLeft())
    }

    /** The last two steps of checkMove(): reveal the 5x5 block, then engage the neighbours. */
    method RevealAndEngage(row: int, column: int) returns (thrown: bool)
      requires Valid() && InGrid(row, column)
      modifies grid, this`enemies, this`currentEnemy, this`battling
      ensures Valid()
      ensures thrown == (Reached(row, column) < 6)
      ensures CellsOf(grid) == RevealedCells(old(CellsOf(grid)), row, column)
      ensures EngagedFrom(grid, row, column, old(Fight(enemies, currentEnemy, battling)), Fight(enemies, currentEnemy, battling))
    {
      ghost var cells := CellsOf(grid);
      RevealAround(row, column);
      ghost var f := Fight(enemies, currentEnemy, battling);
      forall i | 0 <= i < |enemies| && InWindow(old(enemies[i]).row, old(enemies[i]).column, row, column)
        ensures old(grid[enemies[i].row, enemies[i].column]) == cells[old(enemies[i]).row][old(enemies[i]).column]
      {
        assert (enemies[i].row, enemies[i].column) == (old(enemies[i]).row, old(enemies[i]).column);
      }
      EngageAfterReveal(grid, cells, row, column, old(enemies), f);
      thrown := EngageAround(row, column);
    }

    /** The first two steps of checkMove(): pick up an item under the robot, then win on the exit. */
    method PickUpOrExit(row: int, column: int)
      requires Valid() && (row, column) == (robot.location.row, robot.location.column)
      modifies grid, this`currentKeys, robot`health, robot`damage, robot`disabled, this`state, this`ended, this`endings
      ensures Valid()
      ensures PickedUp(old(Now()), Now(), row, column, (exitRow, exitColumn), requiredKeys, old(robot.health), robot.health,
                       statusBar.minutes, statusBar.TimeLeft())
      ensures old(Lifecycle()) && !old(ended) ==> Lifecycle()
    {
      ghost var cells := CellsOf(grid);
      var picked := PickUpItem(row, column);
      CellsOfIs(grid, PickedUpCells(cells, row, column, (exitRow, exitColumn),
                                    PickedEffect(old(grid[row, column])).FoundKey? && currentKeys >= requiredKeys));
      if grid[row, column].isExit {
        assert OpenExit(grid[row, column]);
        state := 1;
        EndGame();
      }
    }

    /**
      process(), one tick of the panel's timer: on the start square the
      robot heals HEALING_BOOST; then move(), and after a move (one that
      did not throw) checkMove() at the robot's new square.
     */
    method Process() returns (moved: bool, thrown: bool)
      requires Valid()
      modifies robot`direction, robot.location, grid, this`enemies, this`currentEnemy, this`battling, this`currentKeys,
               robot`health, robot`damage, robot`disabled, this`state, this`ended, this`endings
      ensures Valid()
      ensures moved == (!old(battling) && AnyKey(keysPressed[..]))
      ensures var o := old(Outcome());
              (robot.direction, robot.location.row, robot.location.column) == (o.0, o.1, o.2) && (o.3 ==> thrown)
      ensures var healed := Healed(old(grid[robot.location.row, robot.location.column]), old(robot.health));
              moved && !old(Outcome()).3 ==> CheckedAt(old(Now()), robot.location.row, robot.location.column, healed, thrown)
      ensures !moved || old(Outcome()).3 ==>
                thrown == moved && unchanged(grid) && enemies == old(enemies) && battling == old(battling) &&
                robot.health == Healed(old(grid[robot.location.row, robot.location.column]), old(robot.health)) &&
                robot.damage == old(robot.damage) && currentKeys == old(currentKeys) &&
                state == old(state) && ended == old(ended) && endings == old(endings)
      ensures old(Lifecycle()) && !old(ended) ==> Lifecycle()
    {
      HealOnStart();
      moved, thrown := MoveAndCheck();
    }

    /** The first step of process(): standing on the start square heals HEALING_BOOST. */
    method HealOnStart()
      requires Valid()
      modifies robot`health
      ensures Valid()
      ensures robot.health == Healed(grid[robot.location.row, robot.location.column], old(robot.health))
    {
      var row, column := robot.location.row, robot.location.column;
      if grid[row, column].isStart {
        assert HealingBoost == 10;
        robot.HealthBoost(HealingBoost);
      }
    }

    /** The rest of process(): move(), and after a move that did not throw, checkMove(). */
    method MoveAndCheck() returns (moved: bool, thrown: bool)
      requires Valid()
      modifies robot`direction, robot.location, grid, this`enemies, this`currentEnemy, this`battling, this`currentKeys,
               robot`health, robot`damage, robot`disabled, this`state, this`ended, this`endings
      ensures Valid()
      ensures moved == (!old(battling) && AnyKey(keysPressed[..]))
      ensures var o := old(Outcome());
              (robot.direction, robot.location.row, robot.location.column) == (o.0, o.1, o.2) && (o.3 ==> thrown)
      ensures moved && !old(Outcome()).3 ==> CheckedAt(old(Now()), robot.location.row, robot.location.column, old(robot.health), thrown)
      ensures !moved || old(Outcome()).3 ==>
                thrown == moved && unchanged(grid) && enemies == old(enemies) && battling == old(battling) &&
                robot.health == old(robot.health) && robot.damage == old(robot.damage) && currentKeys == old(currentKeys) &&
                state == old(state) && ended == old(ended) && endings == old(endings)
      ensures old(Lifecycle()) && !old(ended) ==> Lifecycle()
    {
      moved, thrown := Move();
      if !moved || thrown {
        return;
      }
      thrown := CheckMove();
    }

    /**
      keyPressed(), ignored while the menu has paused the panel: with no
      battle on, a movement key sets its slot; during a battle F or Space
      attacks the enemy being fought (findBattle()) and then runs the status
      bar's update().
     */
    method KeyPressed(k: Key)
      requires Valid()
      modifies keysPressed, grid, this`enemies, this`battling, robot`health, robot`disabled, this`state, this`ended, this`endings
      ensures Valid()
      ensures !old(paused) && !old(battling) && Slot(k).Some? ==>
                keysPressed[..] == old(keysPressed[..])[Slot(k).value := true]
      ensures old(paused) || old(battling) || Slot(k).None? ==> keysPressed[..] == old(keysPressed[..])
      ensures old(paused) || !old(battling) || !IsAttackKey(k) ==>
                unchanged(grid) && enemies == old(enemies) && battling == old(battling) && robot.health == old(robot.health) &&
                state == old(state) && ended == old(ended) && endings == old(endings)
      ensures !old(paused) && old(battling) && IsAttackKey(k) ==>
                var h := old(currentEnemy).value;
                var e := old(enemies)[h];
                var (hit, defeated) := TakeHit(e, robot.damage);
                var health := if defeated then old(robot.health) else HealthAfterLoss(old(robot.health), e.damage);
                h < |old(enemies)| && enemies == old(enemies)[h := hit] && battling == !defeated &&
                (forall r, c :: 0 <= r < Rows && 0 <= c < Rows ==>
                   grid[r, c] == if defeated && (r, c) == (e.row, e.column) then EnemyDefeated(old(grid[r, c])) else old(grid[r, c])) &&
                robot.health == AfterUpdate(health, statusBar.minutes) &&
                EndedWith((if defeated then [] else LossEndings(old(robot.health), e.damage, statusBar.TimeLeft())) +
                          UpdateEndings(health, statusBar.minutes, statusBar.TimeLeft()))
      ensures old(Lifecycle()) && !old(ended) ==> Lifecycle()
    {
      if paused {
        return;
      }
      if !battling {
        var slot := Slot(k);
        if slot.Some? {
          keysPressed[slot.value] := true;
        }
      } else if IsAttackKey(k) {
        AttackThenUpdate();
      }
    }

    /** The attack branch of keyPressed(): attack the enemy being fought, then the status bar's update(). */
    method AttackThenUpdate()
      requires Valid() && battling
      modifies grid, this`enemies, this`battling, robot`health, robot`disabled, this`state, this`ended, this`endings
      ensures Valid()
      ensures
              var h := old(currentEnemy).value;
              var e := old(enemies)[h];
              var (hit, defeated) := TakeHit(e, robot.damage);
              var health := if defeated then old(robot.health) else HealthAfterLoss(old(robot.health), e.damage);
              h < |old(enemies)| && enemies == old(enemies)[h := hit] && battling == !defeated &&
              (forall r, c :: 0 <= r < Rows && 0 <= c < Rows ==>
                 grid[r, c] == if defeated && (r, c) == (e.row, e.column) then EnemyDefeated(old(grid[r, c])) else old(grid[r, c])) &&
              robot.health == AfterUpdate(health, statusBar.minutes) &&
              EndedWith((if defeated then [] else LossEndings(old(robot.health), e.damage, statusBar.TimeLeft())) +
                        UpdateEndings(health, statusBar.minutes, statusBar.TimeLeft()))
      ensures old(Lifecycle()) && !old(ended) ==> Lifecycle()
    {
      ghost var state0, ended0, endings0 := state, ended, endings;
      ghost var e := enemies[currentEnemy.value];
      ghost var defeated := TakeHit(e, robot.damage).1;
      var attacked := Attack();
      ghost var state1, ended1, endings1, health := state, ended, endings, robot.health;
      Update();
      AppendedTwice(state0, ended0, endings0, if defeated then [] else LossEndings(old(robot.health), e.damage, statusBar.TimeLeft()),
                    state1, ended1, endings1, UpdateEndings(health, statusBar.minutes, statusBar.TimeLeft()),
                    state, ended, endings);
    }

    /**
      The panel as the event thread drives it: each event runs its handler
      to completion. Once the level has ended no timer or key event reaches
      the panel any more.
     */
    method Dispatch(ev: Event)
      requires Valid() && Lifecycle()
      modifies this, grid, keysPressed, robot`health, robot`damage, robot`disabled, robot`direction, robot.location,
               statusBar`minutes, statusBar`seconds, statusBar`paused
      ensures Valid() && Lifecycle()
      ensures old(ended) ==> unchanged(this, grid, keysPressed, robot, robot.location, statusBar)
    {
      if ended {
        return;
      }
      match ev {
        case PanelTimer =>
          var moved, thrown := Process();
        case EnemyTimer(h) =>
          if h < |enemies| && enemies[h].running {
            EnemyTick(h);
          }
        case ClockTimer =>
          ClockTick();
        case Press(k) =>
          KeyPressed(k);
        case Release(k) =>
          KeyReleased(k);
        case MenuCancelled =>
          CancelMenu();
      }
    }

    /**
      Any sequence of events keeps the world valid: the robot's health and
      damage stay within their caps, every enemy's health within its tier's,
      every square holds at most one kind of occupant, the game-over screen
      is shown at most once, and a won level had all its keys found. The
      game-over screen is shown at most once because Dispatch drops every
      event once the level has ended. In the Java program the enemies'
      attack timers keep firing after endGame(), and a second gameOver() is
      stopped only by the NullPointerException at Game.java:377, since
      refresh() has set statusBar to null.
     */
    method Run(events: seq<Event>)
      requires Valid() && Lifecycle()
      modifies this, grid, keysPressed, robot`health, robot`damage, robot`disabled, robot`direction, robot.location,
               statusBar`minutes, statusBar`seconds, statusBar`paused
      ensures Valid() && Lifecycle()
      ensures 0 <= robot.health <= MaxHealth && 0 <= robot.damage <= MaxDamage
      ensures forall i :: 0 <= i < |enemies| ==> 0 <= enemies[i].health <= HealthTiers[enemies[i].tier]
      ensures forall r, c :: 0 <= r < Rows && 0 <= c < Rows ==> KindCount(grid[r, c]) <= 1
      ensures |endings| <= 1 && (ended <==> |endings| == 1)
      ensures state == 1 ==> 0 < currentKeys && requiredKeys <= currentKeys
    {
      for i := 0 to |events|
        invariant Valid() && Lifecycle()
      {
        Dispatch(events[i]);
      }
      forall r, c | 0 <= r < Rows && 0 <= c < Rows
        ensures KindCount(grid[r, c]) <= 1
      {
        assert CellOk(grid[r, c], enemies, r, c);
      }
    }
  }
}
