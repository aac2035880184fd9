# Robot Conquest: a verified model of the grid-world rules

Robot Conquest is a Swing game in which a robot walks a 24x24 grid of
squares, picks up items, unlocks the exit with keys and fights enemies
while a four-minute clock drains its health. This project models the
game's rules engine in Dafny and proves properties of it. Each Java file of
the engine has its own module:

- `Directions` (Direction.java): the eight compass headings.
- `Locations` (Location.java): a mutable grid position, shared by reference.
- `Items` (Item.java): the item value object and its level characters.
- `JavaInts`: Java's truncating `/` and `%`.
- `Robots` (Robot.java): health, damage, heading and position, with their caps.
- `Enemies` (Enemy.java): the tier table, detection, hits and the attack timer's tick.
- `Squares` (Square.java): the character-to-square table and the square transitions.
- `StatusBars` (StatusBar.java): the 4:00 countdown, its pause flag and the health percentage.
- `Games` (Game.java): the level loader, the key and enemy counters, the won-level entry and the current player's name.
- `GamePanels` (GamePanel.java, with the parts of Enemy.java and StatusBar.java that act on the world): the world of one level.
- `LevelSelectors` (LevelSelector.java): the 5x2 grid of completed levels and its save file.
- `GameOvers` (GameOver.java): the time shown at the end of a level and how a win is recorded.
- `Menus` (Menu.java): the player list with its '*' marker for the current player.

How the game is represented:

- All timers are Swing timers and all key events arrive on the one event
  thread. So the world changes in atomic steps, one per event:
  - a tick of the panel's timer (`process`);
  - a tick of one enemy's attack timer;
  - a tick of the clock;
  - a key press or release;
  - closing the in-game menu.
- `GamePanels.GamePanel.Run` applies any sequence of these events and
  proves the world's invariants after every one of them.
- Squares are `Cell` values in the level's grid array.
- Enemies live in an arena, a sequence indexed by the handles the squares
  hold. The arena replaces the Java references between a square and its
  enemy.
- `endGame()` is modelled by an `ended` flag and by the list of
  (state, time left) pairs handed to the game-over screen.
- Files become sequences of lines.
- Dialog answers and random draws are parameters.

## Model

| member | source | states |
|---|---|---|
| Directions.Number | src/game/Direction.java:13-20 | each of the eight constants carries an index in 0..7 (North 0, clockwise to North-West 7) |
| Directions.FromNumber | src/game/Direction.java:13-20 | for every index 0..7 there is a constant whose number() is that index |
| Directions.Name | src/game/Direction.java:51-54 | toString() is total: every heading's name is an entry of the name table |
| Directions.NumberBijective | src/game/Direction.java:13-20 | number() is a bijection between the eight constants and 0..7 (injective, and FromNumber is its two-sided inverse) |
| Directions.NamesMatchHeadings | src/game/Direction.java:25-26 | each heading's name is the one the table lists at its clockwise index |
| Directions.IndexDifference | src/game/GamePanel.java:699-702 | the absolute index difference the gate test computes is below 8 |
| Directions.CyclicDistance | src/game/GamePanel.java:704-707 | the compass distance between two headings, the short way round, is at most 4 |
| Directions.GateAdmitsIsCyclicAdjacency | src/game/GamePanel.java:699-707 | the test "difference <= 1 or == 7" holds exactly when the two headings are at most one compass step apart |
| Directions.GateAdmitsExactlyThree | src/game/GamePanel.java:699-707 | a gate admits its own heading and its two neighbours (indices +1 and +7 mod 8) and no other heading |
| Directions.NorthGate | src/game/GamePanel.java:699-707 | a North gate lets North, North-East and North-West through and refuses the other five |
| Locations.Location.At | src/game/Location.java:24-28 | the two-argument constructor sets row and column and leaves x and y at 0 |
| Locations.Location.WithPixels | src/game/Location.java:39-45 | the four-argument constructor takes (row, column, y, x) in that order |
| Locations.Location.Change | src/game/Location.java:53-57 | change() adds exactly the row change to row and the column change to column and leaves x and y untouched |
| Locations.ChangeThenUndo | src/game/Location.java:53-57 | a change followed by the opposite change restores row and column (and x, y) |
| Items.NewItem | src/game/Item.java:19-25 | the item's type is the constructor argument and its value lies in 31..50 |
| Items.ItemValueRange | src/game/Item.java:24 | the values a draw can give are exactly 31..50 |
| Items.EffectOf | src/game/GamePanel.java:441-460 | a 'w' item adds its value to the damage, an 'x' item five times its value to the health, a 'z' item counts as a key, each exactly for its type |
| Items.UnusedItemHasNoEffect | src/game/Square.java:104-108 | a 'y' item is created like the others but picking it up has no effect |
| JavaInts.JavaDiv | src/game/GameOver.java:103 | Java's / on ints: the quotient has the sign of a / b (rounding toward zero) |
| JavaInts.JavaDivTruncates | src/game/GameOver.java:103 | the quotient's magnitude is the number of whole divisors in the dividend's magnitude |
| JavaInts.JavaRemSign | src/game/GameOver.java:103-104 | for a positive divisor, quotient * divisor + remainder gives the dividend back, the remainder is smaller than the divisor and takes the dividend's sign |
| Robots.HeadingForMatchesSigns | src/game/Robot.java:76-94 | changeDirection's heading has the row and column signs of the vector, it is the only heading that has them, and a zero vector keeps the old heading |
| Robots.HealthAfterLoss | src/game/Robot.java:149-164 | loseHealth leaves 0 health at 0, sets 0 for a blow at least as large as the health, otherwise subtracts the blow, and never goes negative for non-negative blows |
| Robots.Boosted | src/game/Robot.java:197-213 | a boost adds the amount unless that passes the cap, in which case the value is the cap |
| Robots.FatalAtMostOnce | src/game/Robot.java:151-160 | after a fatal blow no later blow is fatal, so disabling and ending the game happen at most once |
| Robots.Robot.constructor | src/game/Robot.java:39-50 | a new robot faces North at (row, column), with the given health and damage, its location built as (row, column, column * 30, row * 30) |
| Robots.Robot.ChangeDirection | src/game/Robot.java:76-94 | the new heading is the one the if/else chain picks for the vector (see HeadingForMatchesSigns) |
| Robots.Robot.Move | src/game/Robot.java:66-69 | the location moves by exactly the vector, with no bounds or passability check |
| Robots.Robot.LoseHealth | src/game/Robot.java:149-164 | the new health is HealthAfterLoss; the blow is reported fatal exactly when the health was non-zero and the blow at least as large, and then the robot is disabled |
| Robots.Robot.HealthBoost | src/game/Robot.java:197-202 | health is increased and capped at MAX_HEALTH = 1000 |
| Robots.Robot.DamageBoost | src/game/Robot.java:208-213 | damage is increased and capped at MAX_DAMAGE = 120 |
| Enemies.TierOf | src/game/Enemy.java:50-53 | tier 0 exactly for 'k', 1 for 'l', 2 for 'v' |
| Enemies.NewEnemy | src/game/Enemy.java:41-73 | a new enemy takes its health and damage from the tier tables {500,150,150} and {100,50,50}, is hidden exactly for 'v', is not disabled, not attacked and its timer not running |
| Enemies.Detected | src/game/Enemy.java:199-206 | detected() lowers a hidden enemy's tier by one and clears hidden, and leaves any other enemy unchanged |
| Enemies.DetectedIdempotent | src/game/Enemy.java:199-206 | a second detection changes nothing; a detected hidden enemy becomes tier 1 and stays consistent |
| Enemies.StartBattle | src/game/Enemy.java:118-122 | startBattle() starts the timer and changes nothing else |
| Enemies.Tick | src/game/Enemy.java:220-233 | a disabled enemy's tick does nothing; a set skip flag is cleared with no damage; otherwise the robot is hit |
| Enemies.TakeHit | src/game/Enemy.java:138-157 | a blow at least as large as the health sets health 0, disables and stops the timer; a smaller one is subtracted and sets the skip flag |
| Enemies.TakeHitConsistent | src/game/Enemy.java:141-151 | enemy health stays within [0, its tier's health] under non-negative blows |
| Enemies.TickConsistent | src/game/Enemy.java:220-233 | timer ticks and starts keep the enemy consistent and its health unchanged |
| Enemies.ThreeBlowsDefeatNormalEnemy | src/game/Enemy.java:138-157 | a 50-damage robot defeats a normal enemy at the third blow, each earlier blow skipping the enemy's next cycle |
| Squares.KindCount | src/game/Square.java:64-125 | a square has at most six occupant flags (the bound the well-formedness invariant tightens to one) |
| Squares.NewSquare | src/game/Square.java:64-125 | every square adjust() builds is well formed (at most one occupant kind, an enemy square never enterable, a start square enterable with the robot) and keeps its character as overlay |
| Squares.NewSquareKinds | src/game/Square.java:64-125 | the character table: 'a', the gates 'f'-'i' and 'c' are exactly the enterable kinds; 'b' wall, 'd' exit, 'w'-'z' items with value 31..50, 'k'/'l'/'v' enemies holding the new enemy; the image offsets as set |
| Squares.GateCharacters | src/game/Square.java:72-85 | 'f', 'g', 'h', 'i' are the gate characters, admitting North, East, South and West |
| Squares.ExitUnlocked | src/game/Square.java:130-137 | only a 'd' square changes: it becomes enterable and its image index goes up by one |
| Squares.ItemDetected | src/game/Square.java:142-146 | the square becomes enterable with image 9 and keeps its item |
| Squares.ItemPickedUp | src/game/Square.java:151-157 | the item flag is cleared, the overlay becomes 'a', the image 0, and the stored item is returned |
| Squares.EnemyDetected | src/game/Square.java:162-170 | only a 'v' overlay changes, to 'l' with image 11 |
| Squares.EnemyDefeated | src/game/Square.java:175-182 | the square becomes an enterable open square without an enemy, keeping its other kinds |
| Squares.TransitionsPreserveWellformed | src/game/Square.java:130-182 | each transition, applied where the game applies it, keeps the square well formed |
| Squares.RepeatedTransitions | src/game/Square.java:130-170 | itemDetected and enemyDetected are idempotent; exitUnlocked twice raises the image index twice |
| StatusBars.CountdownStep | src/game/StatusBar.java:158-164 | one tick keeps seconds in 0..59 and lowers the time left by exactly one second |
| StatusBars.AfterTicksTimeLeft | src/game/StatusBar.java:103-164 | after n ticks from start() the time left is 240 - n with seconds in 0..59, and minutes stay non-negative exactly for n <= 240 |
| StatusBars.HealthPercentageRange | src/game/StatusBar.java:129-135 | the shown percentage lies in 0..100, is 0 exactly when the health is 0, and is 100 at full health |
| StatusBars.StatusBar.constructor | src/game/StatusBar.java:39-40 | before start() the clock reads 0:00 and is not paused |
| StatusBars.StatusBar.Start | src/game/StatusBar.java:103-110 | start() sets 4:00, so the time left is 240, and unpauses the clock |
| StatusBars.StatusBar.UpdateTime | src/game/StatusBar.java:153-169 | an unpaused tick lowers the time left by exactly 1 and keeps seconds in 0..59, and reports that update() runs; a paused tick changes nothing |
| StatusBars.StatusBar.OpenMenu | src/game/StatusBar.java:247-251 | opening the menu pauses the clock |
| StatusBars.StatusBar.MenuClosed | src/game/StatusBar.java:256-259 | closing the menu resumes it |
| LevelSelectors.Encode | src/game/LevelSelector.java:117-135 | the save file has five lines of two characters, each '1' exactly when the entry is completed and '0' exactly when it is not |
| LevelSelectors.Decode | src/game/LevelSelector.java:177-188 | a well-formed file parses to a 5x2 grid |
| LevelSelectors.WithFirstLevel | src/game/LevelSelector.java:201 | entry [0][0] is set and every other entry is kept |
| LevelSelectors.AllFalse | src/game/LevelSelector.java:195-197 | the grid used without a save file has the 5x2 shape |
| LevelSelectors.Loaded | src/game/LevelSelector.java:168-203 | after loading, level 1 is always playable, and with no save file every other entry is false |
| LevelSelectors.DecodeEncode | src/game/LevelSelector.java:117-188 | parsing what writeLevelsToFile() wrote gives back the grid |
| LevelSelectors.LoadAfterWrite | src/game/LevelSelector.java:117-203 | loading a written file gives back the grid with [0][0] set, and exactly the grid when [0][0] already was |
| LevelSelectors.GridsEqual | src/game/LevelSelector.java:171 | two 5x2 grids that agree entry by entry are equal |
| LevelSelectors.LevelSelector.Contents | src/game/LevelSelector.java:171 | the completion array read as a 5x2 grid |
| LevelSelectors.LevelSelector.constructor | src/game/LevelSelector.java:191-201 | a selector without a save file: every entry false except [0][0] |
| LevelSelectors.LevelSelector.LoadData | src/game/LevelSelector.java:168-203 | the nested loops leave exactly the Loaded grid for the file, in a new array, so the level 1 button can be opened |
| LevelSelectors.LevelSelector.WriteLevelsToFile | src/game/LevelSelector.java:117-135 | the nested loops write exactly Encode of the grid |
| LevelSelectors.LevelSelector.LevelCompleted | src/game/LevelSelector.java:100-111 | exactly entry [stage][level] becomes true, so its button can be opened and every other button opens as before; the file written is the encoding of the new grid |
| LevelSelectors.LevelSelector.CanOpen | src/game/LevelSelector.java:281-290 | a level button of the open stage reacts to a click exactly when its entry in the completion grid is set |
| LevelSelectors.LevelCompletedTouchesOneEntry | src/game/LevelSelector.java:100-103 | the update sets the one entry and leaves the other nine as they were |
| Games.Flat | src/game/Game.java:265-274 | the loader reads 576 characters, the first 24 of each of the first 24 lines, row by row |
| Games.Scanned | src/game/Game.java:265-274 | the characters read after k squares are the first k of that order |
| Games.ScannedPrefix | src/game/Game.java:265-274 | position j of what has been read is the character of square (j / 24, j % 24), and later reads never change it |
| Games.Built | src/game/Game.java:268-284 | the number of squares built is at most 576 |
| Games.BuiltBound | src/game/Game.java:268-284 | all 576 squares are built exactly when every line has at least 24 characters; otherwise the load stops at the first character missing from the first short line |
| Games.EnemiesIn | src/game/Square.java:114-124 | the squares of a scan add at most one enemy per character |
| Games.KeysIn | src/game/Square.java:110-111 | the key count of a scan is at most its length |
| Games.FirstIndexOf | src/game/Game.java:285-296 | the position found is that of the first occurrence, and none is found exactly when the character does not occur |
| Games.EnemiesInAreFresh | src/game/Enemy.java:41-73 | every enemy a level adds is consistent, idle, not disabled and built for a square already read |
| Games.EnemiesInPrefix | src/game/Game.java:443-448 | reading more squares only appends to the enemy list |
| Games.EnemyAtHandle | src/game/Square.java:121-123 | the enemy built for the square at position k sits in the list at the index the squares before it leave |
| Games.EnemiesStep | src/game/Square.java:114-124 | reading one more square adds exactly its enemy, if it has one, at the end |
| Games.KeysStep | src/game/Square.java:110-111 | reading one more square adds one to the key count exactly for a 'z' |
| Games.HealthStep | src/game/Game.java:446 | one more enemy adds its health to the total |
| Games.ReportOne | src/game/Square.java:104-124 | a key square calls addKey, an enemy square addEnemy with the enemy built for it, any other square reports nothing |
| Games.ReportedStep | src/game/Game.java:443-465 | reporting the squares one at a time gives the enemies, keys, count and health sums of the whole scan |
| Games.FirstStep | src/game/Game.java:285-296 | reading one more character keeps the first occurrence, or makes it the new one when there was none |
| Games.FirstPositionStep | src/game/Game.java:285-296 | the requiredElements flag and recorded position follow the first occurrence step by step |
| Games.StateAfterStep | src/game/Game.java:268-296 | square (row, column) is read as number row * 24 + column + 1 and the record grows by its step |
| Games.StateAfterTally | src/game/Game.java:268-274 | after k squares the counters are those the first k characters report |
| Games.StateAfterStart | src/game/Game.java:285-290 | after k squares a start is recorded exactly when one was read, at the position of the first |
| Games.StateAfterExit | src/game/Game.java:291-296 | after k squares an exit is recorded exactly when one was read, at the position of the first |
| Games.SquareAtIndex | src/game/Game.java:272-274 | the square built at position k is a start, an exit, or enterable exactly as its character says |
| Games.SquareAt | src/game/Game.java:272-274 | every square the loader builds is well formed |
| Games.CompletedEntry | src/game/Game.java:497-501 | level n is recorded at entry (n / 2, n % 2), which lies inside the 5x2 grid |
| Games.CompletedEntryUnlocksNext | src/game/Game.java:497-501 | the entry marked for level n is the button showing level n + 1, and different won levels mark different entries |
| Games.WithoutStar | src/game/Game.java:337-343 | one leading '*' is dropped, and a name without one is kept unchanged |
| Games.WithoutStarUndoesStar | src/game/Game.java:337-343 | dropping the mark from a marked name gives the name back |
| Games.Game.constructor | src/game/Game.java:40-47 | before any level there is no robot, the player is "Player 1", the arena is empty and no keys are counted |
| Games.Game.AddKey | src/game/Game.java:462-465 | the key count goes up by one |
| Games.Game.AddEnemy | src/game/Game.java:443-448 | the enemy is appended, its health added to the total and the count raised by one |
| Games.Game.LoadGrid | src/game/Game.java:256-311 | the grid holds the squares the characters make up to where the load stopped; the counters are what those squares report; the robot stands on the first start and the exit is the first exit; the result is true exactly when every line was long enough and a start and an exit were found |
| Games.Game.ReadRows | src/game/Game.java:265-298 | the outer loop reads until the first short line or all 24 lines, keeping the loader's progress invariant |
| Games.Game.ReadRow | src/game/Game.java:268-297 | the inner loop stops with false exactly when the line has fewer than 24 characters, having built the squares before the missing one |
| Games.Game.ReadSquare | src/game/Game.java:270-296 | one square: the progress invariant moves from k squares to k + 1 |
| Games.Game.BuildSquare | src/game/Game.java:272-274 | the square built at (row, column) is stored, and its key or enemy is reported to the counters |
| Games.Game.NoteStartOrExit | src/game/Game.java:285-296 | the first start places a new robot with the game's health and damage; otherwise the first exit is recorded; later ones are ignored |
| Games.Game.LoadedLevel | src/game/Game.java:256-311 | a complete load with a start and an exit leaves a well-formed level: each enemy handle finds the enemy built for its square, the robot on a start, the exit locked |
| Games.Game.NewLevel | src/game/Game.java:204-213 | the key count and arena start empty, so afterwards they hold exactly the keys and enemies of the squares read, and a successful load gives a runnable level |
| Games.Game.ChangeCurrentPlayer | src/game/Game.java:337-343 | the current player is the new name without its '*' |
| Games.AfterWins | src/game/Game.java:497-501 | the completion grid after a run of won levels keeps its 5x2 shape |
| Games.WinsUnlockNextLevels | src/game/Game.java:497-501 | after any run of wins, every entry completed before still is, and for each won level n < 10 the button showing level n + 1 can be opened |
| Games.Game.LevelCompleted | src/game/Game.java:497-501 | a won level n other than 10 marks exactly its entry (n / 2, n % 2) in the level selector, and that entry's button, which shows level n + 1, can now be opened; level 10 marks nothing |
| GamePanels.PickedEffect | src/game/GamePanel.java:495-500 | a square without an item has no effect; an item's effect is EffectOf that item |
| GamePanels.DamageAfter | src/game/Robot.java:208-213 | a damage boost adds its amount or reaches MAX_DAMAGE = 120, never more; any other effect leaves the damage |
| GamePanels.HealthAfter | src/game/Robot.java:197-202 | a health boost adds its amount or reaches MAX_HEALTH = 1000, never more; any other effect leaves the health |
| GamePanels.Healed | src/game/GamePanel.java:349-353 | on the start square the health gains HEALING_BOOST = 10 or reaches 1000, never more; elsewhere it is unchanged |
| GamePanels.AfterUpdate | src/game/StatusBar.java:125-148 | while the minutes are non-negative update() drains HEALTH_DRAIN = 2 (never below 0); once they are negative the health is left alone |
| GamePanels.LossEndings | src/game/Robot.java:149-164 | a blow ends the level exactly when it is fatal, with the single ending (-1, time left) |
| GamePanels.UpdateEndings | src/game/StatusBar.java:125-148 | with negative minutes update() ends the level with (-2, time left); otherwise its endings are those of the drain of 2 |
| GamePanels.CheckEndings | src/game/GamePanel.java:495-506 | a square with an item gives update()'s endings on the boosted health; an exit square without an item gives (1, time left); any other square none |
| GamePanels.PickedUpCell | src/game/GamePanel.java:425-483 | the robot's item square loses its item as itemPickedUp() says, the exit square is unlocked when a key completes the count, every other square is unchanged |
| GamePanels.Slot | src/game/GamePanel.java:864-875 | exactly the eight movement keys have a slot, one below 4; up and W share slot 0, down and S slot 2 |
| GamePanels.Vector | src/game/GamePanel.java:640-664 | up gives row - 1, down row + 1, right column + 1, left column - 1, and opposite keys cancel |
| GamePanels.HeldKeysThatCancel | src/game/GamePanel.java:640-669 | the vector is zero exactly when opposite keys agree, yet holding all four keys still counts as a move |
| GamePanels.MoveStaysOnEnterable | src/game/GamePanel.java:669-716 | a move leaves the robot on the grid, on an enterable square, at most one step along the vector, and does nothing during a battle or when the keys cancel |
| GamePanels.BlockedMoveTurns | src/game/GamePanel.java:674-692 | the heading is changed before the passability check, so a blocked move still turns the robot |
| GamePanels.GateChecksTheSquareLeft | src/game/GamePanel.java:692-712 | the gate test is applied to the square being left: with an enterable target, the robot leaves a gate exactly when its new heading is within one compass step of the gate's; a gate on the target is not checked |
| GamePanels.RevealCell | src/game/GamePanel.java:596-609 | an item square is uncovered (enterable), an enemy square detected (no longer 'v'), any other square left as it is; no square changes kind |
| GamePanels.CheckedCellProperties | src/game/GamePanel.java:491-560 | after checkMove() no square changes kind but the robot's, which loses its item and is open; in the block items can be walked onto and no enemy is hidden; outside the block, away from the robot's square and the exit, nothing changes |
| GamePanels.PickedUpCells | src/game/GamePanel.java:425-483 | the grid after the pickup step is PickedUpCell on every square |
| GamePanels.RevealedCells | src/game/GamePanel.java:508-523 | the grid after the reveal loops: the on-grid squares of the 5x5 block revealed, every other square as before |
| GamePanels.CheckedCells | src/game/GamePanel.java:491-560 | the grid after all of checkMove() is CheckedCell on every square |
| GamePanels.PickedThenRevealed | src/game/GamePanel.java:495-523 | revealing the block of the grid the pickup left gives the grid CheckedCells describes |
| GamePanels.PickedThenEngaged | src/game/GamePanel.java:491-543 | the pickup and exit steps followed by the reveal and engage loops are all of checkMove(), as Checked states it |
| GamePanels.AppendedTwice | src/game/GamePanel.java:581-588 | the endGame() calls of two steps in a row are those of the first followed by those of the second |
| GamePanels.Probe | src/game/GamePanel.java:527-543 | the engage loop looks at (r-1,c), (r,c-1), (r,c), (r,c), (r+1,c), (r,c+1) in that order |
| GamePanels.ReachedFrom | src/game/GamePanel.java:527-543 | the loop gets through the probes up to the first one off the grid, where the lookup throws |
| GamePanels.Reached | src/game/GamePanel.java:527-543 | the probes looked at all lie on the grid and the next one, if any, does not |
| GamePanels.ReachedUnique | src/game/GamePanel.java:527-543 | that count is the only one with this property |
| GamePanels.ReachedProbes | src/game/GamePanel.java:527-543 | from the top row nothing is engaged, from the left column only the square above, and away from the border all six probes are looked at |
| GamePanels.LinksKept | src/game/Enemy.java:118-157 | changing an enemy in ways its square does not see keeps every square's handle valid |
| GamePanels.EngageOne | src/game/GamePanel.java:617-628 | engaging a square never changes the number of enemies |
| GamePanels.EngagedBattling | src/game/GamePanel.java:527-543 | after the engage loop the battle is on exactly when it already was or an enemy stands on one of the probes looked at |
| GamePanels.HandleNearStep | src/game/GamePanel.java:527-543 | a handle is on one of the first k probes exactly when it is on one of the first k - 1 or on probe k - 1 |
| GamePanels.EngagedEnemies | src/game/GamePanel.java:617-628 | exactly the enemies on the probes looked at have their attack timers started, the others are unchanged |
| GamePanels.EngagedNone | src/game/GamePanel.java:527-543 | with no enemy on the probes the fight is unchanged |
| GamePanels.EngagedCurrent | src/game/GamePanel.java:617-624 | the enemy being fought afterwards is the one on the last probe with an enemy |
| GamePanels.LastHandle | src/game/GamePanel.java:527-543 | no handle means no probe looked at holds an enemy; a handle h means some probe holds h and no later probe holds an enemy |
| GamePanels.EngagedLast | src/game/GamePanel.java:617-624 | after the engage loop the enemy fought is the one on the last probe holding an enemy, or the one fought before when there is none |
| GamePanels.CheckedEnemy | src/game/Enemy.java:118-206 | an enemy after the reveal and engage loops: detection unhides it and drops its tier, engaging starts its attack timer; its square, health and damage do not change |
| GamePanels.EngageAfterReveal | src/game/GamePanel.java:508-543 | engaging the probes reached on the grid the reveal loops left gives the fight EngagedFrom describes |
| GamePanels.LinkedAt | src/game/GamePanel.java:622 | the enemy a square's handle names is a live enemy built for that square |
| GamePanels.GamePanel.constructor | src/game/GamePanel.java:204-227 | after addGameData() and startGame() the panel holds the loaded level's grid, enemies, robot, exit and key count, no key held, state 0, no battle, the clock at 4:00, and is valid |
| GamePanels.GamePanel.SetState | src/game/GamePanel.java:750-755 | only states -2..2 are accepted, any other leaves the state as it was |
| GamePanels.GamePanel.EndGame | src/game/GamePanel.java:581-588 | the level is over and the game-over screen gets the state and the clock's time left |
| GamePanels.GamePanel.LoseRobotHealth | src/game/Robot.java:149-164 | the robot loses the blow as HealthAfterLoss says and is disabled by a fatal one; the endGame() calls are LossEndings: (-1, time left) exactly when the blow is fatal, none otherwise |
| GamePanels.GamePanel.Update | src/game/StatusBar.java:125-148 | the health becomes AfterUpdate of the old health; the endGame() calls are UpdateEndings: (-2, time left) with negative minutes, otherwise (-1, time left) exactly when the drain of 2 is fatal |
| GamePanels.GamePanel.KeyFound | src/game/GamePanel.java:467-483 | one more key, and the exit square is unlocked exactly when the keys found reach the required number; no other square changes |
| GamePanels.GamePanel.ApplyItem | src/game/GamePanel.java:441-462 | a 'w' item boosts the damage (capped at 120), an 'x' item the health by five times its value (capped at 1000), a 'z' item counts a key and unlocks the exit square exactly when the keys reach the required number, and no other square changes; then update() runs on the boosted health, with its endings (UpdateEndings) |
| GamePanels.GamePanel.PickUpItem | src/game/GamePanel.java:425-434 | the result says whether an item lay under the robot; every square becomes PickedUpCell of what it was: the item's square loses the item and is open, the exit is unlocked when a key completes the count, every other square is unchanged; damage, health and keys change as the item says; the endGame() calls are those of update() on the boosted health, none without an item |
| GamePanels.GamePanel.Reveal | src/game/GamePanel.java:596-609 | only the given square changes, as RevealCell says, and only the enemy on it is detected |
| GamePanels.GamePanel.RevealAround | src/game/GamePanel.java:508-523 | exactly the on-grid squares of the 5x5 block are revealed (the grid is RevealedCells of the grid before) and exactly the enemies on them detected |
| GamePanels.GamePanel.RevealColumn | src/game/GamePanel.java:511-522 | the inner loop reveals exactly the on-grid squares of one column of the block |
| GamePanels.GamePanel.Engage | src/game/GamePanel.java:617-628 | an enemy on the square starts attacking and becomes the one fought; the result says whether there was one |
| GamePanels.GamePanel.EngageAround | src/game/GamePanel.java:525-543 | the loop engages the probes up to the first off the grid, and throws exactly when one is off the grid |
| GamePanels.GamePanel.EngageProbe | src/game/GamePanel.java:529-542 | one probe: off the grid it throws and changes nothing, otherwise it is engaged |
| GamePanels.GamePanel.Move | src/game/GamePanel.java:634-717 | move() reports a move exactly when no battle is on and a key is held, and leaves the robot's heading and square as MoveOutcome says |
| GamePanels.GamePanel.HeldKeys | src/game/GamePanel.java:642-664 | the vector and the moved flag are those of the held keys |
| GamePanels.GamePanel.Step | src/game/GamePanel.java:669-713 | the robot turns to the vector's heading, the lookup throws off the grid, and it steps onto the target only when the target is enterable and the square left admits the heading |
| GamePanels.GamePanel.Attack | src/game/GamePanel.java:567-576 | during a battle the robot's blow hits the enemy fought: a defeating blow ends the battle and clears its square, a smaller one costs the robot the enemy's damage (ending the level with -1 if fatal); without a battle nothing changes |
| GamePanels.GamePanel.EnemyTick | src/game/Enemy.java:220-233 | one firing of an enemy's timer: as Tick says, and a strike costs the robot the enemy's damage wherever it stands; the endGame() calls are the strike's LossEndings, none without a strike |
| GamePanels.GamePanel.ClockTick | src/game/StatusBar.java:153-169 | a paused tick changes nothing; an unpaused one lowers the time left by 1 and runs update(): the health becomes AfterUpdate and the endGame() calls are UpdateEndings ((-2, time left) once the minutes go negative, (-1, time left) on a fatal drain) |
| GamePanels.GamePanel.KeyReleased | src/game/GamePanel.java:864-878 | a movement key clears its slot; Escape pauses the clock and the panel and opens the menu; other keys do nothing |
| GamePanels.GamePanel.CancelMenu | src/game/GamePanel.java:832-839 | the menu closes and the panel and the clock run again |
| GamePanels.GamePanel.CheckMove | src/game/GamePanel.java:491-560 | CheckedAt at the robot's square from the panel before: every square is CheckedCell of what it was (the item taken off, the exit opened by a completing key, the 5x5 block revealed, nothing else changed), the fight changes as EngagedFrom says, damage, keys and health change as the item and update() make them, and the endGame() calls are CheckEndings; it throws exactly when an engage probe leaves the grid |
| GamePanels.GamePanel.RevealAndEngage | src/game/GamePanel.java:508-543 | the grid is RevealedCells of the grid before: exactly the on-grid squares of the 5x5 block are revealed; the fight changes as EngagedFrom says, judged on the grid after: the enemies on the block's squares are detected, the enemies on the probes reached start attacking, the enemy fought is the last one found (or stays), the battle is on exactly when it was or an enemy is in reach; it throws exactly when a probe leaves the grid |
| GamePanels.GamePanel.PickUpOrExit | src/game/GamePanel.java:495-506 | the panel afterwards is PickedUp of the panel before: the grid is PickedUpCells (the item under the robot taken off, the exit opened by a key that completes the count), the item's effect and update() are applied, and the endGame() calls are CheckEndings: update()'s after an item, (1, time left) on the exit; the fight is untouched |
| GamePanels.GamePanel.Process | src/game/GamePanel.java:347-362 | on the start square the robot first heals HEALING_BOOST = 10 (capped); then it moves as MoveOutcome says, and after a move that did not throw CheckedAt holds at the new square from the panel before, starting from the healed health; without a move only the heal happens |
| GamePanels.GamePanel.HealOnStart | src/game/GamePanel.java:349-353 | standing on the start square adds HEALING_BOOST to the health, capped at 1000 |
| GamePanels.GamePanel.MoveAndCheck | src/game/GamePanel.java:356-361 | the robot turns and moves as MoveOutcome says; after a move that did not throw, CheckedAt holds at the new square from the panel before the move (grid, fight, keys, damage, health and endings as checkMove() leaves them); without a move, or when the move throws, nothing but heading and position changes |
| GamePanels.GamePanel.KeyPressed | src/game/GamePanel.java:762-795 | paused: ignored; with no battle a movement key sets its slot; during a battle F or Space strikes the enemy fought (TakeHit): a defeated enemy's square is cleared (EnemyDefeated) and the battle ends, otherwise the robot takes the enemy's damage; then update() runs; the endGame() calls are those of a fatal counter-blow followed by update()'s |
| GamePanels.GamePanel.AttackThenUpdate | src/game/GamePanel.java:784-791 | the enemy fought takes the robot's blow (TakeHit); a defeated enemy's square is cleared (EnemyDefeated) and no other square changes; the robot takes the counter-blow unless the enemy was defeated; then update() drains health; the endGame() calls are LossEndings of the counter-blow followed by UpdateEndings |
| GamePanels.GamePanel.Dispatch | src/game/GamePanel.java:908-911 | every event handler keeps the world valid and the level's life consistent; after the level ended nothing changes |
| GamePanels.GamePanel.Run | src/game/GamePanel.java:762-911 | under any interleaving of events: health in 0..1000, damage in 0..120, enemy health within its tier's, at most one occupant kind per square, the game-over screen shown at most once, and a won level had all its keys |
| GameOvers.MinutesSeconds | src/game/GameOver.java:101-107 | calculateTime() splits a time in seconds by Java's truncating / and %: the minutes times 60 plus the seconds give the time back, the seconds lie strictly between -60 and 60 and take the time's sign |
| GameOvers.ClockReadingRoundTrip | src/game/GameOver.java:101-107 | a reading of m >= 0 minutes and 0..59 seconds comes back unchanged from its time in seconds |
| GameOvers.QuotientUnique | src/game/GameOver.java:101-107 | a non-negative time has one split into whole minutes and seconds 0..59 |
| GameOvers.ShownAsOnClock | src/game/StatusBar.java:116-119 | for every tick up to the end of the four minutes, the screen shows the same minutes and seconds as the status bar's clock |
| GameOvers.TimedOutShown | src/game/StatusBar.java:153-169 | a level lost on time ends when the clock reads -1:59; the screen then shows 0 minutes and -1 seconds, which is not what the clock showed |
| GameOvers.ClockAtTimeout | src/game/StatusBar.java:153-169 | the tick after 0:00 leaves the clock at -1:59 |
| GameOvers.MinusOneSecondShown | src/game/GameOver.java:101-107 | with Java's division -1 seconds shows as 0 minutes and -1 seconds |
| GameOvers.GameOver.constructor | src/game/GameOver.java:51-84 | the screen keeps the state and level and shows MinutesSeconds of the time left; a win records the level through levelCompleted(), a loss leaves the selector untouched |
| GameOvers.GameOver.CalculateTime | src/game/GameOver.java:101-107 | the minutes and seconds stored are MinutesSeconds of the time |
| GameOvers.GameOver.SaveData | src/game/GameOver.java:89-95 | only a positive state marks the level completed (level 10 has no next entry to mark); states -1 and -2 change nothing |
| Menus.FirstStarred | src/game/Menu.java:62-70 | the first entry that starts with '*', if any: every entry before it is unstarred, and None means no entry is starred |
| Menus.FirstStarredIs | src/game/Menu.java:62-70 | a starred entry with no starred entry before it is the one found |
| Menus.FirstStarredNone | src/game/Menu.java:62-70 | with no starred entry nothing is found |
| Menus.Unstar | src/game/Menu.java:228-231 | a leading '*' is removed and anything else is left as it is |
| Menus.StarOnce | src/game/Menu.java:249-251 | starring a name that has no star or one leading star gives one leading star, and removing it gives back the bare name |
| Menus.Chosen | src/game/Menu.java:234-247 | choosing an existing player keeps the list's length |
| Menus.ChosenStarsTheChoice | src/game/Menu.java:234-247 | after choosing, an entry is starred exactly when it equals the choice, and every entry keeps its bare name |
| Menus.ChosenStarsOne | src/game/Menu.java:234-247 | with distinct entries, choosing one of them leaves exactly that one starred |
| Menus.FirstAcceptedFrom | src/game/Menu.java:193-224 | the new-name dialog is asked again until a name is accepted: the name kept is the first typed one no longer than 8 characters and equal to none of entries 0..n-2 |
| Menus.FirstAcceptedUnique | src/game/Menu.java:193-224 | the first accepted name is unique |
| Menus.AddedAsWrittenLosesSentinel | src/game/Menu.java:225-232 | as written, the new list ends in null and no longer holds "Create new player...", so not every entry can be read |
| Menus.AddedAsWrittenExample | src/game/Menu.java:225-232 | for the list ["*Bob", "Create new player..."] and the name "Amy" the loop gives ["*Amy", "Bob", null] where ["*Amy", "Bob", "Create new player..."] was meant |
| Menus.AddedKeepsEveryEntry | src/game/Menu.java:225-232 | the corrected list is one longer, starts with the starred new name, keeps every old player unstarred in order, ends with the sentinel, and has no null entry |
| Menus.Menu.constructor | src/game/Menu.java:62-71 | the current player is the first starred entry without its '*' (null if none), and the title reads "Current Player: " and that name |
| Menus.Menu.FindCurrent | src/game/Menu.java:64-70 | the loop stops at the first starred entry and takes its name; with none the player is left as it was |
| Menus.Menu.SwitchPlayer | src/game/Menu.java:183-252 | choosing an existing player stars it in place; "Create new player..." reads a name, and a fresh list has it starred in front; an empty name throws; otherwise the player, the title and the game's current player become the bare name |
| Menus.Menu.ReadNewName | src/game/Menu.java:193-224 | the do-while loop stops at the first accepted name |
| Menus.Menu.NameTaken | src/game/Menu.java:207-222 | a name is refused exactly when it equals one of entries 0..n-2 |
| Menus.Menu.AddPlayer | src/game/Menu.java:225-232 | a fresh array holding Added of the old list |
| Menus.Menu.ChoosePlayer | src/game/Menu.java:234-247 | the array, changed in place, holds Chosen of the old list |
| Menus.Menu.SwitchPlayerName | src/game/Menu.java:258-265 | the game's current player, the menu's player and its title take the name without its leading '*' |

## Left out

- Painting, images, panel sizing and button layout (`paintComponent`, `draw`, `loadImages`, `loadRectangles`): they do not affect the rules.
- MenuItem.java is not part of this model. Only its level-number formula (stage * 2 + slot + 1) appears, inside `Games.CompletedEntryUnlocksNext`.
- The double-based health-bar widths of StatusBar and Enemy are left out: they are floating point and display only.
- Real-time scheduling is not modelled: timer start and stop, `synchronized` and `Thread.sleep`. Each timer firing is one atomic event, and `Run` allows any order of events.
- After `endGame()` no event reaches the panel. The model does not follow what happens after that:
  - `dispose()` of the current enemy;
  - the screen change;
  - other engaged enemies whose timers the Java code never stops.
- The null `currentEnemy` dereference in `endGame()` when no enemy was ever engaged is not modelled, because the screen change it belongs to is out of scope.
- File I/O is not modelled:
  - a level file, the save file and the player list are sequences of lines or an array given as input;
  - `Data.rbcq` (`Game.loadData`) and `System.exit` are not modelled;
  - too few lines or a non-digit in the save file throws in Java; here such a file is excluded by `LevelSelectors.WellformedSave`.
- `Math.random` in Item.java is a parameter in 0..19, the draw before the item value is added.
- The JOptionPane dialogs in `Menu.switchPlayer` are parameters: the entry chosen and the names typed, in order. A dialog cancelled with null is not modelled.
- `toLowerCase` in the level loader is modelled for ASCII letters only.
- Java's 32-bit `int` overflow is not modelled. Every quantity in the game is bounded far below 2^31: health is at most 1000, damage at most 120, time at most 240 and the grid has 576 squares.
- `Game.enemyTotalHealth` is kept only as a running sum and is not used anywhere else.
- `isAttacking` is dropped: it is only ever set to false, so the guard that tests it always passes.
- `checkMove()`'s boolean result is left out: it only decides whether the panel repaints.
- The never-called `battle()` (GamePanel.java:372-400) is not modelled.
- Screen navigation is not modelled: `retry`, `returnToMainMenu`, `toLevelSelector`, `help`, the mouse handlers, and `Game.newMenu`, `newLevelSelector` and `newLevel`. The exception is LevelSelector's completed-level guard.
- A Java exception is modelled as a `thrown` result that cuts the step short. Two cases:
  - the move off the grid;
  - an engage probe off the grid.
- After a step cut short by `thrown`, `GamePanels.GamePanel.Run` keeps delivering events. In Java the exception escapes `actionPerformed` (GamePanel.java:908-911) and its effect on the Swing event thread is not modelled, so `Run` over-approximates what can follow.
- `Games.RowStart`, `Games.PositionOfIndex`, `Games.ScannedStep` and `Games.EarlierPosition` are helper lemmas for the level loader's proofs, about row-major positions of the 24x24 grid and the prefix of the file read so far. They state nothing about the source on their own and have no row.
- `GamePanels.CellsOf` and `GamePanels.CellsOfIs` are helpers that read the grid array as a sequence of rows, so that the steps of checkMove() can be composed as values. They have no row.
- GameOver's `String.format` text is kept as its two numbers, minutes and seconds.
- Menus.Menu.constructor: requires the entries it scans to be non-null and non-empty, because Java's `charAt(0)` would throw on them.
- Menus.Menu.AddPlayer: follows the corrected copy loop (`name <= temporary.length`), which keeps every old entry; the code as written gives `Menus.AddedAsWritten` instead, which loses the last entry (see "## Findings").
- Menus.Menu.SwitchPlayer: its "Create new player..." branch uses the corrected copy of `Menus.Menu.AddPlayer`; as written the new list is `Menus.AddedAsWritten` (see "## Findings").
- Menus.Menu.SwitchPlayer: requires every entry to be non-null and non-empty. Its Java loops call `equals` and `charAt(0)` on every entry.
- GamePanels.GamePanel.constructor: assumes the starting health and damage read from `Data.rbcq` (Game.java:155-156) are within 0..1000 and 0..120. Java reads them unchecked, and `Run`'s bounds hold only from such a start.
- Games.Game.LevelCompleted: requires a level in 1..10, the levels that exist.
- Games.Game.LoadGrid: requires a level file of at least 24 lines. Java reads the lines one at a time (Game.java:267-283): a shorter file with a short line before its end returns false there, and one whose lines are all long enough throws NoSuchElementException on reaching the missing line. Neither path for files under 24 lines is modelled. `Games.Game.NewLevel` has the same requirement, because it calls LoadGrid.
- GamePanels.GamePanel.CheckMove: does not state the robot's disabled flag, which a fatal drain in update() sets; the (-1, time left) ending that goes with it is stated. The same holds for `MoveAndCheck` and `Process`, which pass CheckedAt on.
- LevelSelectors.LevelSelector.LoadData: requires that an existing save file has at least five lines of at least two digits each. With a missing line, a short line or a non-digit Java throws, and that path is not modelled.

## Findings

| source | as written | input that shows it | evidently intended | confidence | as-written member | corrected member |
|---|---|---|---|---|---|---|
| src/game/Menu.java:225-232 | the copy loop runs `name < temporary.length` from 1, so it copies only the old entries 0..n-2; the last slot of the new array stays null and the "Create new player..." sentinel is lost; the next switch to an existing player then calls `equals` on null | the list ["*Bob", "Create new player..."] and the new name "Amy" give ["*Amy", "Bob", null] | every old entry copied unstarred, `name <= temporary.length`, giving ["*Amy", "Bob", "Create new player..."] | not executed | Menus.AddedAsWrittenLosesSentinel | Menus.AddedKeepsEveryEntry |
