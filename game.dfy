/**
  The game frame (src/game/Game.java): level loading from the lines of a
  level file, the key and enemy counters the squares report to while they
  are built, the mapping from a won level to its entry in the level
  selector, and the current player's name.

  The loader reads the first 24 characters of each of the first 24 lines,
  lowered, in row-major order. Position k of that order is square
  (k / 24, k % 24). Everything the loader does is stated through
  specification functions over the sequence of characters it has read.
 */
module Games {
  import opened Options
  import opened Items
  import opened Enemies
  import opened Squares
  import opened Robots
  import opened LevelSelectors

  /** NO_OF_ROWS: the grid is NoOfRows x NoOfRows squares. */
  const NoOfRows: int := 24
  const GridSize: int := NoOfRows * NoOfRows
  const NewPlayer: string := "Create new player..."
  const MaxNameLength: int := 8

  /** toLowerCase on the characters a level file uses: ASCII capitals become small letters. */
  function ToLower(ch: char): char
  {
    if 'A' <= ch <= 'Z' then (ch as int + 32) as char else ch
  }

  /** The character loadGrid reads for square (row, column); a blank stands for a character past the end of a line. */
  function CharAt(lines: seq<string>, row: int, column: int): char
  {
    if 0 <= row < |lines| && 0 <= column < |lines[row]| then ToLower(lines[row][column]) else ' '
  }

  /** All 576 characters in row-major order: position k is square (k / 24, k % 24). */
  function Flat(lines: seq<string>): (cs: seq<char>)
    ensures |cs| == GridSize
  {
    seq(GridSize, k requires 0 <= k < GridSize => CharAt(lines, k / NoOfRows, k % NoOfRows))
  }

  /** The first k characters in row-major order. */
  function Scanned(lines: seq<string>, k: nat): (cs: seq<char>)
    requires k <= GridSize
    ensures |cs| == k
  {
    Flat(lines)[..k]
  }

  /** Position j of the scanned characters is the character of square (j / 24, j % 24), whatever is read after it. */
  lemma ScannedPrefix(lines: seq<string>, j: nat, k: nat)
    requires j <= k <= GridSize
    ensures Scanned(lines, k)[..j] == Scanned(lines, j)
    ensures j < k ==> Scanned(lines, k)[j] == CharAt(lines, j / NoOfRows, j % NoOfRows)
  {
  }

  /**
    How many squares loadGrid builds: all 576 when every line holds 24
    characters, otherwise the squares up to the first character missing
    from the first short line.
   */
  function Built(lines: seq<string>, row: nat): (n: nat)
    requires |lines| >= NoOfRows
    ensures n <= GridSize
    decreases NoOfRows - row
  {
    if row >= NoOfRows then GridSize
    else if |lines[row]| < NoOfRows then row * NoOfRows + |lines[row]|
    else Built(lines, row + 1)
  }

  /** The loader stops early exactly at the first short line, and builds every square otherwise. */
  lemma {:induction false} BuiltBound(lines: seq<string>, row: nat)
    requires |lines| >= NoOfRows && row <= NoOfRows
    ensures row * NoOfRows <= Built(lines, row) <= GridSize
    ensures Built(lines, row) == GridSize <==> forall r :: row <= r < NoOfRows ==> |lines[r]| >= NoOfRows
    ensures Built(lines, row) < GridSize ==> |lines[Built(lines, row) / NoOfRows]| == Built(lines, row) % NoOfRows
    decreases NoOfRows - row
  {
    if row < NoOfRows && |lines[row]| >= NoOfRows {
      BuiltBound(lines, row + 1);
    }
  }

  /**
    The enemies the squares of cs add, in order: one for each enemy
    character, built for the square at its position.
   */
  function EnemiesIn(cs: seq<char>): (es: seq<Enemy>)
    ensures |es| <= |cs|
  {
    if |cs| == 0 then []
    else
      var k := |cs| - 1;
      EnemiesIn(cs[..k]) + (if IsEnemyChar(cs[k]) then [NewEnemy(cs[k], k / NoOfRows, k % NoOfRows)] else [])
  }

  /** The number of key squares in cs. */
  function KeysIn(cs: seq<char>): (n: nat)
    ensures n <= |cs|
  {
    if |cs| == 0 then 0 else KeysIn(cs[..|cs| - 1]) + (if cs[|cs| - 1] == Key then 1 else 0)
  }

  /** The summed health of es. */
  function HealthOf(es: seq<Enemy>): int
  {
    if |es| == 0 then 0 else HealthOf(es[..|es| - 1]) + es[|es| - 1].health
  }

  /** The position of the first ch in cs. */
  function FirstIndexOf(cs: seq<char>, ch: char): (r: Option<nat>)
    ensures r.Some? <==> ch in cs
    ensures r.Some? ==> r.value < |cs| && cs[r.value] == ch && ch !in cs[..r.value]
  {
    if |cs| == 0 then None
    else
      var k := |cs| - 1;
      match FirstIndexOf(cs[..k], ch)
      case Some(i) => Some(i)
      case None => if cs[k] == ch then Some(k) else None
  }

  /** Every enemy a level adds is consistent, idle and built for a square among the scanned ones. */
  lemma {:induction false} EnemiesInAreFresh(cs: seq<char>)
    ensures var es := EnemiesIn(cs);
      forall i :: 0 <= i < |es| ==>
        Consistent(es[i]) && !es[i].running && !es[i].disabled && !es[i].attacked &&
        0 <= es[i].row && 0 <= es[i].column < NoOfRows && es[i].row * NoOfRows + es[i].column < |cs|
  {
    if |cs| > 0 {
      var k := |cs| - 1;
      EnemiesInAreFresh(cs[..k]);
      if IsEnemyChar(cs[k]) {
        assert (k / NoOfRows) * NoOfRows + k % NoOfRows == k;
        assert EnemiesIn(cs) == EnemiesIn(cs[..k]) + [NewEnemy(cs[k], k / NoOfRows, k % NoOfRows)];
      } else {
        assert EnemiesIn(cs) == EnemiesIn(cs[..k]);
      }
    }
  }

  /** Extending the scanned characters only appends to the enemies and counters. */
  lemma {:induction false} EnemiesInPrefix(cs: seq<char>, k: nat)
    requires k <= |cs|
    ensures EnemiesIn(cs[..k]) <= EnemiesIn(cs)
    decreases |cs|
  {
    if k < |cs| {
      var m := |cs| - 1;
      EnemiesInPrefix(cs[..m], k);
      assert cs[..m][..k] == cs[..k];
      assert EnemiesIn(cs[..m]) <= EnemiesIn(cs);
    } else {
      assert cs[..k] == cs;
    }
  }

  /**
    The enemy built for the enemy character at position k sits in the arena
    at the index that the characters before it leave, and was built for
    square (k / 24, k % 24): the handle a square stores finds its enemy.
   */
  lemma {:induction false} EnemyAtHandle(cs: seq<char>, k: nat)
    requires k < |cs| && IsEnemyChar(cs[k])
    ensures |EnemiesIn(cs[..k])| < |EnemiesIn(cs)|
    ensures EnemiesIn(cs)[|EnemiesIn(cs[..k])|] == NewEnemy(cs[k], k / NoOfRows, k % NoOfRows)
  {
    EnemiesInPrefix(cs, k + 1);
    var p := cs[..k + 1];
    assert p[..k] == cs[..k];
    assert EnemiesIn(p) == EnemiesIn(cs[..k]) + [NewEnemy(cs[k], k / NoOfRows, k % NoOfRows)];
  }

  /** Row row of the grid starts at position row * 24 and ends within the 576 squares. */
  lemma RowStart(row: int)
    requires 0 <= row < NoOfRows
    ensures row * NoOfRows + NoOfRows == (row + 1) * NoOfRows <= GridSize
  {
  }

  /** Square (row, column) is position row * 24 + column of the row-major order. */
  lemma PositionOfIndex(row: int, column: int)
    requires 0 <= row && 0 <= column < NoOfRows
    ensures (row * NoOfRows + column) / NoOfRows == row && (row * NoOfRows + column) % NoOfRows == column
  {
  }

  /** Reading square (row, column) appends its character to the scanned sequence, which grows only at its end. */
  lemma ScannedStep(lines: seq<string>, k: nat, row: int, column: int)
    requires 0 <= row < NoOfRows && 0 <= column < NoOfRows && k == row * NoOfRows + column
    ensures k < GridSize
    ensures Scanned(lines, k + 1) == Scanned(lines, k) + [CharAt(lines, row, column)]
  {
    PositionOfIndex(row, column);
    assert Flat(lines)[..k + 1] == Flat(lines)[..k] + [Flat(lines)[k]];
  }

  /** A position before (row, column) + 1 other than (row, column) itself comes before it. */
  lemma EarlierPosition(r: int, c: int, row: int, column: int)
    requires 0 <= r < NoOfRows && 0 <= c < NoOfRows && 0 <= row < NoOfRows && 0 <= column < NoOfRows
    requires r * NoOfRows + c < row * NoOfRows + column + 1 && (r, c) != (row, column)
    ensures r * NoOfRows + c < row * NoOfRows + column
  {
  }

  /** What reading one more character at square (row, column) adds to the enemies. */
  lemma EnemiesStep(cs: seq<char>, ch: char, row: int, column: int)
    requires 0 <= row && 0 <= column < NoOfRows && |cs| == row * NoOfRows + column
    ensures EnemiesIn(cs + [ch]) == EnemiesIn(cs) + (if IsEnemyChar(ch) then [NewEnemy(ch, row, column)] else [])
  {
    var cs', k := cs + [ch], |cs|;
    assert cs'[..k] == cs && cs'[k] == ch;
    PositionOfIndex(row, column);
    assert k / NoOfRows == row && k % NoOfRows == column;
    assert EnemiesIn(cs') == EnemiesIn(cs'[..k]) + (if IsEnemyChar(cs'[k]) then [NewEnemy(cs'[k], k / NoOfRows, k % NoOfRows)] else []);
  }

  /** What reading one more character adds to the key count. */
  lemma KeysStep(cs: seq<char>, ch: char)
    ensures KeysIn(cs + [ch]) == KeysIn(cs) + (if ch == Key then 1 else 0)
  {
    assert (cs + [ch])[..|cs|] == cs;
  }

  /** One more enemy adds its health to the total. */
  lemma HealthStep(es: seq<Enemy>, e: Enemy)
    ensures HealthOf(es + [e]) == HealthOf(es) + e.health
  {
    assert (es + [e])[..|es|] == es;
  }

  /** The four counters the squares report to: the enemy arena, noOfKeys, noOfEnemies, enemyTotalHealth. */
  datatype Tally = Tally(enemies: seq<Enemy>, keys: int, count: int, health: int)

  /** The counters after the squares of cs reported to counters that started at t. */
  function Reported(t: Tally, cs: seq<char>): Tally
  {
    var es := EnemiesIn(cs);
    Tally(t.enemies + es, t.keys + KeysIn(cs), t.count + |es|, t.health + HealthOf(es))
  }

  /** One square's report: addKey() for a key, addEnemy() for an enemy built at (row, column). */
  function ReportOne(t: Tally, ch: char, row: int, column: int): (r: Tally)
    ensures !IsEnemyChar(ch) ==> r.enemies == t.enemies && r.count == t.count && r.health == t.health
    ensures IsEnemyChar(ch) ==> r.enemies == t.enemies + [NewEnemy(ch, row, column)] && r.count == t.count + 1
    ensures r.keys == t.keys + (if ch == Key then 1 else 0)
  {
    var t' := t.(keys := t.keys + (if ch == Key then 1 else 0));
    if IsEnemyChar(ch) then
      var e := NewEnemy(ch, row, column);
      t'.(enemies := t'.enemies + [e], count := t'.count + 1, health := t'.health + e.health)
    else t'
  }

  /** Reporting the squares one at a time gives the counters Reported states. */
  lemma ReportedStep(t: Tally, cs: seq<char>, ch: char, row: int, column: int)
    requires 0 <= row && 0 <= column < NoOfRows && |cs| == row * NoOfRows + column
    ensures Reported(t, cs + [ch]) == ReportOne(Reported(t, cs), ch, row, column)
  {
    EnemiesStep(cs, ch, row, column);
    KeysStep(cs, ch);
    var es := EnemiesIn(cs);
    if IsEnemyChar(ch) {
      var e := NewEnemy(ch, row, column);
      HealthStep(es, e);
      assert t.enemies + (es + [e]) == (t.enemies + es) + [e];
    } else {
      assert es + [] == es;
    }
  }

  /** Reading one more character keeps the first position of x, or makes it the new one. */
  lemma FirstStep(cs: seq<char>, ch: char, x: char)
    ensures x in cs ==> FirstIndexOf(cs + [ch], x) == FirstIndexOf(cs, x)
    ensures x !in cs && ch == x ==> FirstIndexOf(cs + [ch], x) == Some(|cs|)
    ensures x in cs + [ch] <==> x in cs || ch == x
  {
    assert (cs + [ch])[..|cs|] == cs;
  }

  /** Square (k / 24, k % 24), the square at position k of the row-major order. */
  function PositionOf(k: nat): (int, int)
  {
    (k / NoOfRows, k % NoOfRows)
  }

  /**
    Remembering the position of the first x read: if pos held it for cs,
    the updated record holds it for cs + [ch], ch being read at position |cs|.
   */
  lemma FirstPositionStep(pos: Option<(int, int)>, cs: seq<char>, ch: char, x: char)
    requires pos.Some? <==> x in cs
    requires pos.Some? ==> pos.value == PositionOf(FirstIndexOf(cs, x).value)
    ensures var next := if pos.None? && ch == x then Some(PositionOf(|cs|)) else pos;
      (next.Some? <==> x in cs + [ch]) &&
      (next.Some? ==> next.value == PositionOf(FirstIndexOf(cs + [ch], x).value))
  {
    FirstStep(cs, ch, x);
  }

  /** What loadGrid has recorded after some squares: the counters, and the first start and the first exit, if seen. */
  datatype LoadState = LoadState(tally: Tally, start: Option<(int, int)>, exit: Option<(int, int)>)

  /**
    Reading the character of square (row, column): the square reports to
    the counters, then the first start places the robot, and otherwise the
    first exit is recorded.
   */
  function StepState(s: LoadState, ch: char, row: int, column: int): LoadState
  {
    var t := ReportOne(s.tally, ch, row, column);
    if s.start.None? && ch == Start then LoadState(t, Some((row, column)), s.exit)
    else if s.exit.None? && ch == End then LoadState(t, s.start, Some((row, column)))
    else LoadState(t, s.start, s.exit)
  }

  /** The record after the first k squares, starting from the counters t0. */
  function StateAfter(lines: seq<string>, k: nat, t0: Tally): LoadState
    requires k <= GridSize
  {
    if k == 0 then LoadState(t0, None, None)
    else StepState(StateAfter(lines, k - 1, t0), CharAt(lines, (k - 1) / NoOfRows, (k - 1) % NoOfRows),
                   (k - 1) / NoOfRows, (k - 1) % NoOfRows)
  }

  /** Square (row, column) is read as the (k + 1)-th: the record grows by that square's step. */
  lemma StateAfterStep(lines: seq<string>, k: nat, t0: Tally, row: int, column: int)
    requires 0 <= row < NoOfRows && 0 <= column < NoOfRows && k == row * NoOfRows + column
    ensures k < GridSize
    ensures StateAfter(lines, k + 1, t0) == StepState(StateAfter(lines, k, t0), CharAt(lines, row, column), row, column)
  {
    ScannedStep(lines, k, row, column);
    PositionOfIndex(row, column);
  }

  /** The record after k squares holds what the characters read so far report. */
  lemma {:induction false} StateAfterTally(lines: seq<string>, k: nat, t0: Tally)
    requires k <= GridSize
    ensures StateAfter(lines, k, t0).tally == Reported(t0, Scanned(lines, k))
  {
    if k == 0 {
      assert Scanned(lines, 0) == [];
      assert t0.enemies + [] == t0.enemies;
    } else {
      StateAfterTally(lines, k - 1, t0);
      var row, column := (k - 1) / NoOfRows, (k - 1) % NoOfRows;
      var ch := CharAt(lines, row, column);
      ScannedStep(lines, k - 1, row, column);
      ReportedStep(t0, Scanned(lines, k - 1), ch, row, column);
      assert StateAfter(lines, k, t0).tally == ReportOne(StateAfter(lines, k - 1, t0).tally, ch, row, column);
    }
  }

  /** The record after k squares holds the position of the first start among them. */
  lemma {:induction false} StateAfterStart(lines: seq<string>, k: nat, t0: Tally)
    requires k <= GridSize
    ensures var cs := Scanned(lines, k); var s := StateAfter(lines, k, t0);
      (s.start.Some? <==> Start in cs) &&
      (s.start.Some? ==> s.start.value == PositionOf(FirstIndexOf(cs, Start).value))
  {
    if k > 0 {
      StateAfterStart(lines, k - 1, t0);
      var row, column := (k - 1) / NoOfRows, (k - 1) % NoOfRows;
      var cs, ch := Scanned(lines, k - 1), CharAt(lines, row, column);
      ScannedStep(lines, k - 1, row, column);
      var before := StateAfter(lines, k - 1, t0);
      FirstPositionStep(before.start, cs, ch, Start);
      assert StateAfter(lines, k, t0).start == if before.start.None? && ch == Start then Some(PositionOf(|cs|)) else before.start;
    }
  }

  /** The record after k squares holds the position of the first exit among them. */
  lemma {:induction false} StateAfterExit(lines: seq<string>, k: nat, t0: Tally)
    requires k <= GridSize
    ensures var cs := Scanned(lines, k); var s := StateAfter(lines, k, t0);
      (s.exit.Some? <==> End in cs) &&
      (s.exit.Some? ==> s.exit.value == PositionOf(FirstIndexOf(cs, End).value))
  {
    if k > 0 {
      StateAfterExit(lines, k - 1, t0);
      var row, column := (k - 1) / NoOfRows, (k - 1) % NoOfRows;
      var cs, ch := Scanned(lines, k - 1), CharAt(lines, row, column);
      ScannedStep(lines, k - 1, row, column);
      var before := StateAfter(lines, k - 1, t0);
      FirstPositionStep(before.exit, cs, ch, End);
      assert StateAfter(lines, k, t0).exit == if before.exit.None? && ch == End then Some(PositionOf(|cs|)) else before.exit;
    }
  }

  /** The square built at position k of the scanned order has the kinds of the k-th character. */
  lemma SquareAtIndex(lines: seq<string>, draw: (int, int) -> nat, k: nat)
    requires k < GridSize
    requires forall r, c :: draw(r, c) < 20
    ensures var ch := Scanned(lines, GridSize)[k];
      var c := SquareAt(lines, draw, 0, k / NoOfRows, k % NoOfRows);
      (c.isStart <==> ch == Start) && (c.isExit <==> ch == End) && (c.enterable <==> ch == Open || IsGateChar(ch) || ch == Start)
  {
    var r, c := k / NoOfRows, k % NoOfRows;
    assert r * NoOfRows + c == k;
    ScannedPrefix(lines, k, GridSize);
    NewSquareKinds(CharAt(lines, r, c), draw(r, c), |EnemiesIn(Scanned(lines, k))|);
  }

  /** The square loadGrid builds at (row, column), given the enemies already in the arena (base) and the item draws. */
  function SquareAt(lines: seq<string>, draw: (int, int) -> nat, base: nat, row: int, column: int): (c: Cell)
    requires 0 <= row < NoOfRows && 0 <= column < NoOfRows
    requires forall r, c :: draw(r, c) < 20
    ensures Wellformed(c)
  {
    NewSquare(CharAt(lines, row, column), draw(row, column),
              base + |EnemiesIn(Scanned(lines, row * NoOfRows + column))|)
  }

  /** The inert square left in the slots a failed load never reached (null in Java). */
  const Unbuilt: Cell := NewSquare(' ', 0, 0)

  /** Level numbers are stage * 2 + slot + 1, so level n's entry is (n / 2, n % 2) only after adding one. */
  function CompletedEntry(level: int): (entry: (int, int))
    requires 1 <= level <= 9
    ensures 0 <= entry.0 < NoOfStages && 0 <= entry.1 < LevelsPerStage
  {
    (level / 2, level % 2)
  }

  /**
    levelCompleted(level) marks (level / 2, level % 2), the entry whose
    button shows level + 1: winning level n unlocks level n + 1, and every
    level from 2 to 10 is unlocked by exactly one win.
   */
  lemma CompletedEntryUnlocksNext(level: int)
    requires 1 <= level <= 9
    ensures LevelNumber(CompletedEntry(level).0, CompletedEntry(level).1) == level + 1
    ensures forall other :: 1 <= other <= 9 && CompletedEntry(other) == CompletedEntry(level) ==> other == level
  {
  }

  /** The completion grid after levelCompleted() for each won level in turn; winning level 10 marks nothing. */
  function AfterWins(g: seq<seq<bool>>, wins: seq<int>): (r: seq<seq<bool>>)
    requires Shaped(g)
    requires forall i :: 0 <= i < |wins| ==> 1 <= wins[i] <= 10
    ensures Shaped(r)
    decreases |wins|
  {
    if wins == [] then g
    else
      var prev := AfterWins(g, wins[..|wins| - 1]);
      var last := wins[|wins| - 1];
      if last == 10 then prev
      else
        var (s, l) := CompletedEntry(last);
        prev[s := prev[s][l := true]]
  }

  /**
    Wins only ever open level buttons: an entry completed before stays
    completed, and once level n (n < 10) has been won the button showing
    level n + 1 can be opened.
   */
  lemma {:induction false} WinsUnlockNextLevels(g: seq<seq<bool>>, wins: seq<int>)
    requires Shaped(g)
    requires forall i :: 0 <= i < |wins| ==> 1 <= wins[i] <= 10
    ensures forall s, l :: 0 <= s < NoOfStages && 0 <= l < LevelsPerStage && g[s][l] ==> AfterWins(g, wins)[s][l]
    ensures forall i :: 0 <= i < |wins| && wins[i] != 10 ==>
              LevelNumber(CompletedEntry(wins[i]).0, CompletedEntry(wins[i]).1) == wins[i] + 1 &&
              AfterWins(g, wins)[CompletedEntry(wins[i]).0][CompletedEntry(wins[i]).1]
    decreases |wins|
  {
    if wins != [] {
      var front := wins[..|wins| - 1];
      WinsUnlockNextLevels(g, front);
      var prev := AfterWins(g, front);
      var r := AfterWins(g, wins);
      var last := wins[|wins| - 1];
      if last != 10 {
        LevelCompletedTouchesOneEntry(prev, CompletedEntry(last).0, CompletedEntry(last).1);
      }
      forall i | 0 <= i < |wins| && wins[i] != 10
        ensures LevelNumber(CompletedEntry(wins[i]).0, CompletedEntry(wins[i]).1) == wins[i] + 1
        ensures r[CompletedEntry(wins[i]).0][CompletedEntry(wins[i]).1]
      {
        CompletedEntryUnlocksNext(wins[i]);
        if i < |wins| - 1 {
          assert wins[i] == front[i];
        }
      }
    }
  }

  /** changeCurrentPlayer(): one leading '*' is dropped, any other name is kept. */
  function WithoutStar(name: string): (r: string)
    requires |name| > 0
    ensures name[0] == '*' ==> ['*'] + r == name
    ensures name[0] != '*' ==> r == name
  {
    if name[0] != '*' then name else name[1..]
  }

  /** Marking a name and then dropping the mark gives the name back. */
  lemma WithoutStarUndoesStar(name: string)
    ensures WithoutStar(['*'] + name) == name
    ensures |name| > 0 && name[0] != '*' ==> WithoutStar(name) == name
  {
  }

  class Game {
    var grid: array2<Cell>
    var enemies: seq<Enemy>
    var noOfEnemies: int
    var enemyTotalHealth: int
    var noOfKeys: int
    var robotHealth: int
    var robotDamage: int
    var robot: Robot?
    var exitRow: int
    var exitColumn: int
    var currentPlayer: string
    var levelSelector: LevelSelector

    /**
      A loaded level as the game panel receives it: every square well
      formed, each enemy handle finds an enemy built for that square, every
      arena enemy is consistent and idle inside the grid, the robot stands
      on the start square and the exit square is the locked exit.
     */
    ghost predicate Loaded()
      reads this, grid, robot, if robot == null then {} else {robot.location}
    {
      SquaresLoaded() && EnemiesLinked() && ArenaIdle() && RobotOnStart() && ExitLocked() && noOfKeys >= 0
    }

    /** Every square is well formed and no exit square is open yet. */
    ghost predicate SquaresLoaded()
      reads this, grid
    {
      grid.Length0 == NoOfRows && grid.Length1 == NoOfRows &&
      forall r, c :: 0 <= r < NoOfRows && 0 <= c < NoOfRows ==>
        Wellformed(grid[r, c]) && (grid[r, c].isExit ==> !grid[r, c].enterable)
    }

    /** A square's enemy handle finds the enemy built for that square, hidden exactly when the overlay is 'v'. */
    ghost predicate EnemiesLinked()
      reads this, grid
    {
      grid.Length0 == NoOfRows && grid.Length1 == NoOfRows &&
      forall r, c, h :: 0 <= r < NoOfRows && 0 <= c < NoOfRows && grid[r, c].enemy == Some(h) ==>
        h < |enemies| && enemies[h].row == r && enemies[h].column == c &&
        (grid[r, c].overlay == Hidden <==> enemies[h].hidden)
    }

    /** Every arena enemy is consistent, alive, idle and inside the grid. */
    ghost predicate ArenaIdle()
      reads this
    {
      forall i :: 0 <= i < |enemies| ==>
        Consistent(enemies[i]) && !enemies[i].running && !enemies[i].disabled &&
        0 <= enemies[i].row < NoOfRows && 0 <= enemies[i].column < NoOfRows
    }

    /** The robot stands on a start square. */
    ghost predicate RobotOnStart()
      reads this, grid, robot, if robot == null then {} else {robot.location}
    {
      grid.Length0 == NoOfRows && grid.Length1 == NoOfRows &&
      robot != null &&
      0 <= robot.location.row < NoOfRows && 0 <= robot.location.column < NoOfRows &&
      grid[robot.location.row, robot.location.column].isStart
    }

    /** The recorded exit is an exit square. */
    ghost predicate ExitLocked()
      reads this, grid
    {
      grid.Length0 == NoOfRows && grid.Length1 == NoOfRows &&
      0 <= exitRow < NoOfRows && 0 <= exitColumn < NoOfRows &&
      grid[exitRow, exitColumn].isExit
    }

    /** The frame before any level: no robot, Player 1, Java's default counters. */
    constructor (robotHealth: int, robotDamage: int, levelSelector: LevelSelector)
      ensures this.robotHealth == robotHealth && this.robotDamage == robotDamage
      ensures this.levelSelector == levelSelector && robot == null
      ensures currentPlayer == "Player 1" && enemies == [] && noOfKeys == 0
    {
      this.robotHealth := robotHealth;
      this.robotDamage := robotDamage;
      this.levelSelector := levelSelector;
      robot := null;
      currentPlayer := "Player 1";
      enemies := [];
      noOfEnemies, enemyTotalHealth, noOfKeys := 0, 0, 0;
      exitRow, exitColumn := 0, 0;
      grid := new Cell[0, 0];
    }

    /** addKey(): one more key square in the level. */
    method AddKey()
      modifies this`noOfKeys
      ensures noOfKeys == old(noOfKeys) + 1
    {
      noOfKeys := noOfKeys + 1;
    }

    /** addEnemy(): append the enemy, add its health to the total and count it. */
    method AddEnemy(e: Enemy)
      modifies this`enemies, this`enemyTotalHealth, this`noOfEnemies
      ensures enemies == old(enemies) + [e]
      ensures enemyTotalHealth == old(enemyTotalHealth) + e.health
      ensures noOfEnemies == old(noOfEnemies) + 1
    {
      enemies := enemies + [e];
      enemyTotalHealth := enemyTotalHealth + e.health;
      noOfEnemies := noOfEnemies + 1;
    }

    /** The four counters as one value. */
    ghost function Counters(): Tally
      reads this`enemies, this`noOfKeys, this`noOfEnemies, this`enemyTotalHealth
    {
      Tally(enemies, noOfKeys, noOfEnemies, enemyTotalHealth)
    }

    /**
      loadGrid() over the lines of a level file. `draw` stands for each
      item square's random draw. A line shorter than 24 characters ends the
      load with false after the squares before the missing character were
      built and reported; otherwise the result says whether a start and an
      exit were found. The first start places a new robot with the game's
      health and damage, the first exit is recorded, later ones are ignored.
     */
    method LoadGrid(lines: seq<string>, draw: (int, int) -> nat) returns (ok: bool)
      requires |lines| >= NoOfRows
      requires forall r, c :: draw(r, c) < 20
      modifies this`grid, this`enemies, this`noOfKeys, this`noOfEnemies, this`enemyTotalHealth
      modifies this`robot, this`exitRow, this`exitColumn
      ensures fresh(grid)
      ensures GridBuilt(lines, draw, Built(lines, 0), |old(enemies)|)
      ensures Counters() == Reported(old(Counters()), Scanned(lines, Built(lines, 0)))
      ensures Records(StateAfter(lines, Built(lines, 0), old(Counters())), old(robot), (old(exitRow), old(exitColumn)))
      ensures ok <==> Built(lines, 0) == GridSize && Start in Scanned(lines, GridSize) && End in Scanned(lines, GridSize)
    {
      ghost var tally0, robot0, exit0 := Counters(), robot, (exitRow, exitColumn);
      grid := new Cell[NoOfRows, NoOfRows]((r, c) => Unbuilt);
      var complete, foundStart, foundExit := ReadRows(lines, draw, tally0, robot0, exit0);
      ok := complete && foundStart && foundExit;
      StateAfterTally(lines, Built(lines, 0), tally0);
      StateAfterStart(lines, Built(lines, 0), tally0);
      StateAfterExit(lines, Built(lines, 0), tally0);
    }

    /**
      The loops of loadGrid: line by line until all 24 are read or one is
      too short, where charAt throws and the load ends.
     */
    method ReadRows(lines: seq<string>, draw: (int, int) -> nat, ghost tally0: Tally, ghost robot0: Robot?, ghost exit0: (int, int))
      returns (complete: bool, foundStart: bool, foundExit: bool)
      requires |lines| >= NoOfRows
      requires forall r, c :: draw(r, c) < 20
      requires grid.Length0 == NoOfRows && grid.Length1 == NoOfRows
      requires Counters() == tally0 && robot == robot0 && (exitRow, exitColumn) == exit0
      modifies this`enemies, this`noOfKeys, this`noOfEnemies, this`enemyTotalHealth, grid
      modifies this`robot, this`exitRow, this`exitColumn
      ensures Progress(lines, draw, Built(lines, 0), tally0, robot0, exit0, foundStart, foundExit)
      ensures complete <==> Built(lines, 0) == GridSize
    {
      foundStart, foundExit := false, false;
      var row := 0;
      complete := true;
      ghost var k := 0;
      while row < NoOfRows && complete
        invariant 0 <= row <= NoOfRows
        invariant complete ==> Built(lines, 0) == Built(lines, row) && k == row * NoOfRows
        invariant !complete ==> k == Built(lines, 0) < GridSize
        invariant k <= GridSize
        invariant Progress(lines, draw, k, tally0, robot0, exit0, foundStart, foundExit)
      {
        RowStart(row);
        complete, foundStart, foundExit, k := ReadRow(lines, draw, row, k, tally0, robot0, exit0, foundStart, foundExit);
        row := row + 1;
      }
    }

    /**
      One pass of loadGrid's inner loop: the squares of line `row`, left to
      right, until the 24th or until charAt finds the line too short.
     */
    method ReadRow(lines: seq<string>, draw: (int, int) -> nat, row: int, ghost k0: nat,
                   ghost tally0: Tally, ghost robot0: Robot?, ghost exit0: (int, int), foundStart: bool, foundExit: bool)
      returns (complete: bool, foundStart': bool, foundExit': bool, ghost k: nat)
      requires |lines| >= NoOfRows && 0 <= row < NoOfRows && k0 == row * NoOfRows && k0 + NoOfRows <= GridSize
      requires forall r, c :: draw(r, c) < 20
      requires Progress(lines, draw, k0, tally0, robot0, exit0, foundStart, foundExit)
      modifies this`enemies, this`noOfKeys, this`noOfEnemies, this`enemyTotalHealth, grid
      modifies this`robot, this`exitRow, this`exitColumn
      ensures complete <==> |lines[row]| >= NoOfRows
      ensures complete ==> k == k0 + NoOfRows && Built(lines, row) == Built(lines, row + 1)
      ensures !complete ==> k == Built(lines, row) < GridSize
      ensures Progress(lines, draw, k, tally0, robot0, exit0, foundStart', foundExit')
    {
      foundStart', foundExit' := foundStart, foundExit;
      var column := 0;
      k := k0;
      while column < NoOfRows
        invariant 0 <= column <= NoOfRows
        invariant column <= |lines[row]| || |lines[row]| >= NoOfRows
        invariant k == k0 + column
        invariant Progress(lines, draw, k, tally0, robot0, exit0, foundStart', foundExit')
      {
        if column >= |lines[row]| {
          return false, foundStart', foundExit', k;
        }
        foundStart', foundExit' := ReadSquare(lines, draw, row, column, k, tally0, robot0, exit0, foundStart', foundExit');
        column, k := column + 1, k + 1;
      }
      complete := true;
    }

    /** The squares of the first k positions are the ones the level's characters make. */
    ghost predicate GridBuilt(lines: seq<string>, draw: (int, int) -> nat, k: nat, base: nat)
      requires forall r, c :: draw(r, c) < 20
      reads this`grid, grid
    {
      grid.Length0 == NoOfRows && grid.Length1 == NoOfRows &&
      forall r, c :: 0 <= r < NoOfRows && 0 <= c < NoOfRows && r * NoOfRows + c < k ==>
        grid[r, c] == SquareAt(lines, draw, base, r, c)
    }

    /**
      The robot and the exit as the record s says: a robot with the game's
      health and damage on the recorded start, the recorded exit; what was
      there before while none was seen.
     */
    ghost predicate Records(s: LoadState, robot0: Robot?, exit0: (int, int))
      reads this`robot, this`robotHealth, this`robotDamage, this`exitRow, this`exitColumn
      reads robot, if robot == null then {} else {robot.location}
    {
      (s.start.None? ==> robot == robot0) &&
      (s.start.Some? ==>
         robot != null && (robot.location.row, robot.location.column) == s.start.value &&
         robot.health == robotHealth && robot.damage == robotDamage && !robot.disabled) &&
      (exitRow, exitColumn) == (if s.exit.Some? then s.exit.value else exit0)
    }

    /** Everything loadGrid has established after reading k squares, with its two requiredElements flags. */
    ghost predicate Progress(lines: seq<string>, draw: (int, int) -> nat, k: nat, tally0: Tally,
                             robot0: Robot?, exit0: (int, int), foundStart: bool, foundExit: bool)
      requires k <= GridSize
      requires forall r, c :: draw(r, c) < 20
      reads this`grid, grid, this`enemies, this`noOfKeys, this`noOfEnemies, this`enemyTotalHealth
      reads this`robot, this`robotHealth, this`robotDamage, this`exitRow, this`exitColumn
      reads robot, if robot == null then {} else {robot.location}
    {
      var s := StateAfter(lines, k, tally0);
      GridBuilt(lines, draw, k, |tally0.enemies|) &&
      Counters() == s.tally &&
      Records(s, robot0, exit0) &&
      foundStart == s.start.Some? && foundExit == s.exit.Some?
    }

    /** One square of loadGrid's inner loop: build it, then check for the start and the exit. */
    method ReadSquare(lines: seq<string>, draw: (int, int) -> nat, row: int, column: int, ghost k: nat,
                      ghost tally0: Tally, ghost robot0: Robot?, ghost exit0: (int, int), foundStart: bool, foundExit: bool)
      returns (foundStart': bool, foundExit': bool)
      requires forall r, c :: draw(r, c) < 20
      requires 0 <= row < NoOfRows && 0 <= column < NoOfRows && k == row * NoOfRows + column && row < |lines| && column < |lines[row]|
      requires Progress(lines, draw, k, tally0, robot0, exit0, foundStart, foundExit)
      modifies this`enemies, this`noOfKeys, this`noOfEnemies, this`enemyTotalHealth, grid
      modifies this`robot, this`exitRow, this`exitColumn
      ensures Progress(lines, draw, k + 1, tally0, robot0, exit0, foundStart', foundExit')
    {
      ghost var s := StateAfter(lines, k, tally0);
      StateAfterStep(lines, k, tally0, row, column);
      var square := BuildSquare(lines, draw, row, column, k, tally0);
      foundStart', foundExit' := NoteStartOrExit(lines, row, column, square, s, robot0, exit0, foundStart, foundExit);
    }

    /**
      The Square constructor at (row, column): build the square from its
      character, report a key or an enemy to the counters, store it.
     */
    method BuildSquare(lines: seq<string>, draw: (int, int) -> nat, row: int, column: int, ghost k: nat, ghost tally0: Tally)
      returns (square: Cell)
      requires forall r, c :: draw(r, c) < 20
      requires 0 <= row < NoOfRows && 0 <= column < NoOfRows && k == row * NoOfRows + column && row < |lines| && column < |lines[row]|
      requires GridBuilt(lines, draw, k, |tally0.enemies|)
      requires Counters() == StateAfter(lines, k, tally0).tally
      modifies this`enemies, this`noOfKeys, this`noOfEnemies, this`enemyTotalHealth, grid
      ensures GridBuilt(lines, draw, k + 1, |tally0.enemies|)
      ensures Counters() == ReportOne(old(Counters()), CharAt(lines, row, column), row, column)
      ensures square == SquareAt(lines, draw, |tally0.enemies|, row, column)
    {
      var ch := ToLower(lines[row][column]);
      assert ch == CharAt(lines, row, column);
      StateAfterTally(lines, k, tally0);
      square := NewSquare(ch, draw(row, column), |enemies|);
      assert |enemies| == |tally0.enemies| + |EnemiesIn(Scanned(lines, k))|;
      assert square == SquareAt(lines, draw, |tally0.enemies|, row, column);
      NewSquareKinds(ch, draw(row, column), |enemies|);
      if ch == Key {
        AddKey();
      }
      if square.isEnemy {
        AddEnemy(NewEnemy(ch, row, column));
      }
      grid[row, column] := square;
      forall r, c | 0 <= r < NoOfRows && 0 <= c < NoOfRows && r * NoOfRows + c < k + 1
        ensures grid[r, c] == SquareAt(lines, draw, |tally0.enemies|, r, c)
      {
        if (r, c) != (row, column) {
          EarlierPosition(r, c, row, column);
        }
      }
    }

    /** The requiredElements checks at (row, column): place the robot on the first start, or else record the first exit. */
    method NoteStartOrExit(lines: seq<string>, row: int, column: int, square: Cell,
                           ghost s: LoadState, ghost robot0: Robot?, ghost exit0: (int, int), foundStart: bool, foundExit: bool)
      returns (foundStart': bool, foundExit': bool)
      requires square.isStart <==> CharAt(lines, row, column) == Start
      requires square.isExit <==> CharAt(lines, row, column) == End
      requires Records(s, robot0, exit0) && foundStart == s.start.Some? && foundExit == s.exit.Some?
      modifies this`robot, this`exitRow, this`exitColumn
      ensures var s' := StepState(s, CharAt(lines, row, column), row, column);
        Records(s', robot0, exit0) && foundStart' == s'.start.Some? && foundExit' == s'.exit.Some?
    {
      foundStart', foundExit' := foundStart, foundExit;
      if !foundStart && square.isStart {
        robot := new Robot(row, column, robotHealth, robotDamage);
        foundStart' := true;
      } else if !foundExit && square.isExit {
        exitRow, exitColumn := row, column;
        foundExit' := true;
      }
    }

    /**
      A complete load that found a start and an exit, into an empty arena,
      leaves a level the game panel can run: the facts Loaded() collects
      follow from the square and enemy each position was built with.
     */
    lemma LoadedLevel(lines: seq<string>, draw: (int, int) -> nat, tally0: Tally, robot0: Robot?, exit0: (int, int))
      requires forall r, c :: draw(r, c) < 20
      requires GridBuilt(lines, draw, GridSize, 0)
      requires enemies == EnemiesIn(Scanned(lines, GridSize)) && noOfKeys >= 0
      requires var s := StateAfter(lines, GridSize, tally0);
        s.start.Some? && s.exit.Some? && Records(s, robot0, exit0)
      ensures Loaded()
    {
      var cs := Scanned(lines, GridSize);
      forall r, c | 0 <= r < NoOfRows && 0 <= c < NoOfRows
        ensures grid[r, c].isExit ==> !grid[r, c].enterable
        ensures grid[r, c].enemy.Some? ==> var h := grid[r, c].enemy.value;
          h < |enemies| && enemies[h].row == r && enemies[h].column == c &&
          (grid[r, c].overlay == Hidden <==> enemies[h].hidden)
      {
        var k := r * NoOfRows + c;
        PositionOfIndex(r, c);
        ScannedPrefix(lines, k, GridSize);
        NewSquareKinds(CharAt(lines, r, c), draw(r, c), |EnemiesIn(Scanned(lines, k))|);
        if grid[r, c].enemy.Some? {
          EnemyAtHandle(cs, k);
        }
      }
      EnemiesInAreFresh(cs);
      StateAfterStart(lines, GridSize, tally0);
      StateAfterExit(lines, GridSize, tally0);
      SquareAtIndex(lines, draw, FirstIndexOf(cs, Start).value);
      SquareAtIndex(lines, draw, FirstIndexOf(cs, End).value);
    }

    /** newLevel(): reset the key count and the arena, then load the level's lines. */
    method NewLevel(lines: seq<string>, draw: (int, int) -> nat) returns (ok: bool)
      requires |lines| >= NoOfRows
      requires forall r, c :: draw(r, c) < 20
      modifies this
      ensures fresh(grid)
      ensures var cs := Scanned(lines, Built(lines, 0));
        enemies == EnemiesIn(cs) && noOfKeys == KeysIn(cs)
      ensures ok <==> Built(lines, 0) == GridSize && Start in Scanned(lines, GridSize) && End in Scanned(lines, GridSize)
      ensures ok ==> Loaded()
    {
      noOfKeys := 0;
      enemies := [];
      ghost var tally0, robot0, exit0 := Counters(), robot, (exitRow, exitColumn);
      ok := LoadGrid(lines, draw);
      assert [] + EnemiesIn(Scanned(lines, Built(lines, 0))) == EnemiesIn(Scanned(lines, Built(lines, 0)));
      if ok {
        StateAfterStart(lines, GridSize, tally0);
        StateAfterExit(lines, GridSize, tally0);
        LoadedLevel(lines, draw, tally0, robot0, exit0);
      }
    }

    /** changeCurrentPlayer(): the current player becomes the name without its '*'. */
    method ChangeCurrentPlayer(newName: string)
      requires |newName| > 0
      modifies this`currentPlayer
      ensures currentPlayer == WithoutStar(newName)
    {
      if newName[0] != '*' {
        currentPlayer := newName;
      } else {
        currentPlayer := newName[1..];
      }
    }

    /** levelCompleted(level): any level but the last marks its entry in the level selector. */
    method LevelCompleted(level: int)
      requires 1 <= level <= 10
      requires levelSelector.Valid()
      modifies levelSelector.completed
      ensures levelSelector.Valid()
      ensures level == 10 ==> levelSelector.Contents() == old(levelSelector.Contents())
      ensures level != 10 ==>
        var (s, l) := CompletedEntry(level);
        levelSelector.Contents() == old(levelSelector.Contents())[s := old(levelSelector.Contents())[s][l := true]]
      ensures level != 10 ==>
        var (s, l) := CompletedEntry(level);
        LevelNumber(s, l) == level + 1 && levelSelector.CanOpen(s, l)
    {
      if level != 10 {
        var file := levelSelector.LevelCompleted(level / 2, level % 2);
        CompletedEntryUnlocksNext(level);
      }
    }
  }
}
