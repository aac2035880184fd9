/**
  One grid square (src/game/Square.java).

  A Square's fields are rewritten in place by its transition methods. The
  game panel keeps the 24x24 squares in a two-dimensional array of Cell
  values and replaces a slot with the transition's result. The Java
  reference to the square's Enemy becomes a handle into the panel's enemy
  arena; the reference to its Item is the Item value itself.
 */
module Squares {
  import opened Options
  import opened Directions
  import opened Items
  import opened Enemies

  // The level characters of src/game/Game.java that are not items or enemies.
  const Open: char := 'a'
  const Wall: char := 'b'
  const Start: char := 'c'
  const End: char := 'd'
  const NorthOnly: char := 'f'
  const EastOnly: char := 'g'
  const SouthOnly: char := 'h'
  const WestOnly: char := 'i'
  const RevealedImage: char := 'j'

  datatype Cell = Cell(
    overlay: char,
    imgRef: int,        // itemImgRef: which image the renderer draws
    enterable: bool,    // isEmpty() in Java
    isDirection: bool,
    isRock: bool,
    isItem: bool,
    isRobot: bool,
    isEnemy: bool,
    isStart: bool,
    isExit: bool,
    direction: Option<Direction>,
    enemy: Option<nat>,
    item: Option<Item>)

  function Offset(ch: char): int
  {
    (ch as int) - (Open as int)
  }

  predicate IsGateChar(ch: char)
  {
    NorthOnly <= ch <= WestOnly
  }

  /** The heading a gate character admits. */
  function GateDirection(ch: char): Direction
  {
    if ch == NorthOnly then North
    else if ch == EastOnly then East
    else if ch == SouthOnly then South
    else West
  }

  /** The number of occupant flags a cell has set. */
  function KindCount(c: Cell): (n: nat)
    ensures n <= 6
  {
    (if c.isDirection then 1 else 0) + (if c.isRock then 1 else 0) +
    (if c.isStart then 1 else 0) + (if c.isExit then 1 else 0) +
    (if c.isItem then 1 else 0) + (if c.isEnemy then 1 else 0)
  }

  /**
    What every square satisfies: at most one occupant kind, the optional
    fields present exactly for their kinds, an enemy square never enterable,
    an exit keeps its 'd' overlay, a start square is where the robot starts.
   */
  ghost predicate Wellformed(c: Cell)
  {
    KindCount(c) <= 1 &&
    (c.isDirection <==> c.direction.Some?) &&
    (c.isItem ==> c.item.Some?) &&
    (c.item.Some? ==> 31 <= c.item.value.value <= 50) &&
    (c.isEnemy <==> c.enemy.Some?) &&
    (c.isEnemy ==> !c.enterable) &&
    (c.isExit ==> c.overlay == End) &&
    (c.isStart <==> c.isRobot) &&
    (c.isStart ==> c.enterable)
  }

  /**
    The constructor followed by adjust(): the character becomes the overlay,
    itemImgRef starts as its offset from 'a', and the if/else chain sets the
    flags. `draw` is the item's random draw and `handle` the arena slot the
    new enemy will occupy; each is used only for its kind.
   */
  function NewSquare(ch: char, draw: nat, handle: nat): (c: Cell)
    requires draw < 20
    ensures Wellformed(c)
    ensures c.overlay == ch
  {
    var base := Cell(ch, Offset(ch), false, false, false, false, false, false, false, false, None, None, None);
    if ch == Open then base.(enterable := true)
    else if IsGateChar(ch) then base.(isDirection := true, enterable := true, direction := Some(GateDirection(ch)))
    else if ch == Wall then base.(isRock := true)
    else if ch == Start then base.(isRobot := true, isStart := true, enterable := true)
    else if ch == End then base.(isExit := true)
    else if IsItemChar(ch) then base.(imgRef := 0, isItem := true, item := Some(NewItem(ch, draw)))
    else if IsEnemyChar(ch) then
      base.(imgRef := if ch == Hidden then 0 else Offset(ch), enemy := Some(handle), isEnemy := true)
    else base
  }

  /** The character table of adjust(), kind by kind. */
  lemma NewSquareKinds(ch: char, draw: nat, handle: nat)
    requires draw < 20
    ensures var c := NewSquare(ch, draw, handle);
      (c.enterable <==> ch == Open || IsGateChar(ch) || ch == Start) &&
      (c.isDirection <==> IsGateChar(ch)) &&
      (c.isDirection ==> c.direction == Some(GateDirection(ch))) &&
      (c.isRock <==> ch == Wall) &&
      (c.isStart <==> ch == Start) &&
      (c.isExit <==> ch == End) &&
      (c.isItem <==> IsItemChar(ch)) &&
      (c.isItem ==> c.item.value.kind == ch && 31 <= c.item.value.value <= 50 && c.imgRef == 0) &&
      (c.isEnemy <==> IsEnemyChar(ch)) &&
      (c.isEnemy ==> c.enemy == Some(handle)) &&
      (ch == Hidden ==> c.imgRef == 0) &&
      (ch != Hidden && !IsItemChar(ch) ==> c.imgRef == Offset(ch))
  {
  }

  /** The four gate characters f, g, h, i admit North, East, South and West. */
  lemma GateCharacters()
    ensures GateDirection('f') == North && GateDirection('g') == East
    ensures GateDirection('h') == South && GateDirection('i') == West
    ensures forall ch :: IsGateChar(ch) <==> ch in {'f', 'g', 'h', 'i'}
  {
  }

  /** exitUnlocked(): only a square with the 'd' overlay changes: it becomes enterable and its image moves on by one. */
  function ExitUnlocked(c: Cell): (r: Cell)
    ensures c.overlay == End ==> r == c.(imgRef := c.imgRef + 1, enterable := true)
    ensures c.overlay != End ==> r == c
  {
    if c.overlay == End then c.(imgRef := c.imgRef + 1, enterable := true) else c
  }

  /** itemDetected(): show the revealed-item image and let the robot step onto the square. */
  function ItemDetected(c: Cell): (r: Cell)
    ensures r.enterable && r.imgRef == Offset(RevealedImage) && r.imgRef == 9
    ensures r.overlay == c.overlay && r.isItem == c.isItem && r.item == c.item && r.isEnemy == c.isEnemy
  {
    c.(imgRef := Offset(RevealedImage), enterable := true)
  }

  /** itemPickedUp(): the square turns into an open square and hands back its item. */
  function ItemPickedUp(c: Cell): (r: (Cell, Option<Item>))
    ensures !r.0.isItem && r.0.overlay == Open && r.0.imgRef == 0
    ensures r.0.enterable == c.enterable && r.0.isExit == c.isExit && r.0.isEnemy == c.isEnemy
    ensures r.1 == c.item
  {
    (c.(isItem := false, overlay := Open, imgRef := 0), c.item)
  }

  /**
    enemyDetected(): only a 'v' overlay changes, to 'l' with image 11; the
    enemy's own detected() is the game panel's part (see TriggersDetection).
   */
  function EnemyDetected(c: Cell): (r: Cell)
    ensures c.overlay == Hidden ==> r == c.(overlay := Normal, imgRef := 11)
    ensures c.overlay != Hidden ==> r == c
  {
    if c.overlay == Hidden then c.(overlay := Normal, imgRef := Offset(Normal)) else c
  }

  /** Whether enemyDetected() also calls the enemy's detected(). */
  predicate TriggersDetection(c: Cell)
  {
    c.overlay == Hidden
  }

  /** enemyDefeated(): the square becomes an enterable open square with no enemy. */
  function EnemyDefeated(c: Cell): (r: Cell)
    ensures r.enterable && !r.isEnemy && r.enemy == None && r.overlay == Open && r.imgRef == 0
    ensures r.isItem == c.isItem && r.isExit == c.isExit && r.isStart == c.isStart
  {
    c.(enterable := true, imgRef := 0, isEnemy := false, overlay := Open, enemy := None)
  }

  /**
    Each transition, applied where the game panel applies it, keeps a square
    well formed: the item transitions on item squares, defeat on the square
    an enemy was built on (never the exit), unlocking on a square with no enemy.
   */
  lemma TransitionsPreserveWellformed(c: Cell)
    requires Wellformed(c)
    ensures c.isItem ==> Wellformed(ItemDetected(c))
    ensures c.isItem ==> Wellformed(ItemPickedUp(c).0)
    ensures Wellformed(EnemyDetected(c))
    ensures !c.isExit ==> Wellformed(EnemyDefeated(c))
    ensures !c.isEnemy ==> Wellformed(ExitUnlocked(c))
  {
  }

  /** Item detection is idempotent and leaves the item in place; unlocking twice moves the image twice. */
  lemma RepeatedTransitions(c: Cell)
    ensures ItemDetected(ItemDetected(c)) == ItemDetected(c)
    ensures ItemDetected(c).isItem == c.isItem && ItemDetected(c).item == c.item
    ensures EnemyDetected(EnemyDetected(c)) == EnemyDetected(c)
    ensures c.overlay == End ==> ExitUnlocked(ExitUnlocked(c)).imgRef == c.imgRef + 2
  {
  }
}
