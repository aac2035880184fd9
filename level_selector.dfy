/**
  Level progress (src/game/LevelSelector.java): a 5x2 grid of completion
  flags, one per (stage, level-in-stage), its save file and the guard that
  lets the player open only completed entries.

  The save file is modelled as its sequence of lines; a missing file is
  None. Reading a file with too few lines or non-digit characters throws in
  Java and is outside the model (see WellformedSave).
 */
module LevelSelectors {
  import opened Options

  const NoOfStages: int := 5
  const LevelsPerStage: int := 2

  /** A completion grid as a value: five stages of two flags. */
  ghost predicate Shaped(g: seq<seq<bool>>)
  {
    |g| == NoOfStages && forall s :: 0 <= s < |g| ==> |g[s]| == LevelsPerStage
  }

  /** The number a level button shows (MenuItem.java): stage * 2 + level + 1. */
  function LevelNumber(stage: int, level: int): int
  {
    stage * LevelsPerStage + level + 1
  }

  function Flag(b: bool): char
  {
    if b then '1' else '0'
  }

  /** The file writeLevelsToFile() produces: one line of two characters per stage, '1' for completed. */
  function Encode(g: seq<seq<bool>>): (lines: seq<string>)
    requires Shaped(g)
    ensures |lines| == NoOfStages
    ensures forall s :: 0 <= s < NoOfStages ==> |lines[s]| == LevelsPerStage
    ensures forall s, l :: 0 <= s < NoOfStages && 0 <= l < LevelsPerStage ==>
              (lines[s][l] == '1' <==> g[s][l]) && (lines[s][l] == '0' <==> !g[s][l])
  {
    seq(NoOfStages, s requires 0 <= s < NoOfStages => [Flag(g[s][0]), Flag(g[s][1])])
  }

  predicate IsDigit(ch: char)
  {
    '0' <= ch <= '9'
  }

  /** A save file loadData() reads without throwing: five lines, each starting with two digits. */
  ghost predicate WellformedSave(lines: seq<string>)
  {
    |lines| >= NoOfStages &&
    forall s :: 0 <= s < NoOfStages ==> |lines[s]| >= LevelsPerStage && IsDigit(lines[s][0]) && IsDigit(lines[s][1])
  }

  /** Parsing: a digit 1 is completed, any other digit is not. */
  function Decode(lines: seq<string>): (g: seq<seq<bool>>)
    requires WellformedSave(lines)
    ensures Shaped(g)
  {
    seq(NoOfStages, s requires 0 <= s < NoOfStages => [lines[s][0] == '1', lines[s][1] == '1'])
  }

  /** Set [0][0]: level 1 can always be played. */
  function WithFirstLevel(g: seq<seq<bool>>): (r: seq<seq<bool>>)
    requires Shaped(g)
    ensures Shaped(r) && r[0][0]
    ensures forall s, l :: 0 <= s < NoOfStages && 0 <= l < LevelsPerStage && (s, l) != (0, 0) ==> r[s][l] == g[s][l]
  {
    g[0 := g[0][0 := true]]
  }

  function AllFalse(): (g: seq<seq<bool>>)
    ensures Shaped(g)
  {
    seq(NoOfStages, s => [false, false])
  }

  /** What loadData() leaves in the grid: the parsed file, or all false without a file, then [0][0] forced true. */
  function Loaded(file: Option<seq<string>>): (g: seq<seq<bool>>)
    requires file.Some? ==> WellformedSave(file.value)
    ensures Shaped(g) && g[0][0]
    ensures file.None? ==> forall s, l :: 0 <= s < NoOfStages && 0 <= l < LevelsPerStage && (s, l) != (0, 0) ==> !g[s][l]
  {
    match file
    case None => WithFirstLevel(AllFalse())
    case Some(lines) => WithFirstLevel(Decode(lines))
  }

  /** Decoding an encoded grid gives it back. */
  lemma DecodeEncode(g: seq<seq<bool>>)
    requires Shaped(g)
    ensures WellformedSave(Encode(g))
    ensures Decode(Encode(g)) == g
  {
    var lines := Encode(g);
    var d := Decode(lines);
    forall s | 0 <= s < NoOfStages ensures d[s] == g[s] {
      assert |g[s]| == 2;
    }
  }

  /** Loading a file that writeLevelsToFile() produced gives back the same grid, with [0][0] set. */
  lemma LoadAfterWrite(g: seq<seq<bool>>)
    requires Shaped(g)
    ensures WellformedSave(Encode(g))
    ensures Loaded(Some(Encode(g))) == WithFirstLevel(g)
    ensures g[0][0] ==> Loaded(Some(Encode(g))) == g
  {
    DecodeEncode(g);
    if g[0][0] {
      assert g[0][0 := true] == g[0];
    }
  }

  /** Two completion grids are equal when they agree entry by entry. */
  lemma GridsEqual(a: seq<seq<bool>>, b: seq<seq<bool>>)
    requires Shaped(a) && Shaped(b)
    requires forall s, l :: 0 <= s < NoOfStages && 0 <= l < LevelsPerStage ==> a[s][l] == b[s][l]
    ensures a == b
  {
    forall s | 0 <= s < NoOfStages ensures a[s] == b[s] {
      assert a[s][0] == b[s][0] && a[s][1] == b[s][1];
    }
  }

  class LevelSelector {
    var completed: array2<bool>

    ghost predicate Valid()
      reads this
    {
      completed.Length0 == NoOfStages && completed.Length1 == LevelsPerStage
    }

    /** The completion grid as a value. */
    ghost function Contents(): (g: seq<seq<bool>>)
      requires Valid()
      reads this, completed
      ensures Shaped(g)
    {
      [[completed[0, 0], completed[0, 1]], [completed[1, 0], completed[1, 1]],
       [completed[2, 0], completed[2, 1]], [completed[3, 0], completed[3, 1]],
       [completed[4, 0], completed[4, 1]]]
    }

    constructor ()
      ensures Valid() && Contents() == WithFirstLevel(AllFalse())
    {
      var c := new bool[NoOfStages, LevelsPerStage]((s, l) => s == 0 && l == 0);
      completed := c;
      new;
      GridsEqual(Contents(), WithFirstLevel(AllFalse()));
    }

    /** loadData(): a new grid filled from the save file (or all false), then [0][0] forced true. */
    method LoadData(file: Option<seq<string>>)
      requires file.Some? ==> WellformedSave(file.value)
      modifies this
      ensures Valid() && fresh(completed)
      ensures Contents() == Loaded(file)
      ensures CanOpen(0, 0)
    {
      completed := new bool[NoOfStages, LevelsPerStage];
      var stage := 0;
      while stage < NoOfStages
        invariant 0 <= stage <= NoOfStages
        invariant Valid() && fresh(completed)
        invariant forall s, l :: 0 <= s < stage && 0 <= l < LevelsPerStage ==>
                    completed[s, l] == (file.Some? && file.value[s][l] == '1')
      {
        var level := 0;
        while level < LevelsPerStage
          invariant 0 <= level <= LevelsPerStage
          invariant Valid() && fresh(completed)
          invariant forall s, l :: 0 <= s < stage && 0 <= l < LevelsPerStage ==>
                      completed[s, l] == (file.Some? && file.value[s][l] == '1')
          invariant forall l :: 0 <= l < level ==>
                      completed[stage, l] == (file.Some? && file.value[stage][l] == '1')
        {
          if file.Some? && file.value[stage][level] == '1' {
            completed[stage, level] := true;
          } else {
            completed[stage, level] := false;
          }
          level := level + 1;
        }
        stage := stage + 1;
      }
      completed[0, 0] := true;
      GridsEqual(Contents(), Loaded(file));
    }

    /** writeLevelsToFile(): the lines written, '1' or '0' per entry. */
    method WriteLevelsToFile() returns (lines: seq<string>)
      requires Valid()
      ensures lines == Encode(Contents())
    {
      ghost var file := Encode(Contents());
      lines := [];
      var stage := 0;
      while stage < NoOfStages
        invariant 0 <= stage <= NoOfStages
        invariant lines == file[..stage]
      {
        var line := "";
        var level := 0;
        while level < LevelsPerStage
          invariant 0 <= level <= LevelsPerStage
          invariant line == file[stage][..level]
        {
          if completed[stage, level] {
            line := line + "1";
          } else {
            line := line + "0";
          }
          level := level + 1;
        }
        assert file[stage][..LevelsPerStage] == file[stage];
        lines := lines + [line];
        stage := stage + 1;
      }
      assert file[..NoOfStages] == file;
    }

    /** levelCompleted(stage, level): set exactly that entry and write the file again. */
    method LevelCompleted(stage: int, level: int) returns (file: seq<string>)
      requires Valid()
      requires 0 <= stage < NoOfStages && 0 <= level < LevelsPerStage
      modifies completed
      ensures Valid()
      ensures Contents() == old(Contents())[stage := old(Contents())[stage][level := true]]
      ensures file == Encode(Contents())
      ensures CanOpen(stage, level)
      ensures forall s, l :: 0 <= s < NoOfStages && 0 <= l < LevelsPerStage && (s, l) != (stage, level) ==>
                CanOpen(s, l) == old(CanOpen(s, l))
    {
      ghost var before := Contents();
      completed[stage, level] := true;
      GridsEqual(Contents(), before[stage := before[stage][level := true]]);
      file := WriteLevelsToFile();
    }

    /** The guard in mouseClicked(): a level button of the open stage reacts only if its entry is completed. */
    function CanOpen(stage: int, level: int): (open: bool)
      requires Valid()
      requires 0 <= stage < NoOfStages && 0 <= level < LevelsPerStage
      reads this, completed
      ensures open <==> Contents()[stage][level]
    {
      completed[stage, level]
    }
  }

  /** levelCompleted() leaves every entry but the given one as it was. */
  lemma LevelCompletedTouchesOneEntry(g: seq<seq<bool>>, stage: int, level: int)
    requires Shaped(g)
    requires 0 <= stage < NoOfStages && 0 <= level < LevelsPerStage
    ensures var r := g[stage := g[stage][level := true]];
      Shaped(r) && r[stage][level] &&
      forall s, l :: 0 <= s < NoOfStages && 0 <= l < LevelsPerStage && (s, l) != (stage, level) ==> r[s][l] == g[s][l]
  {
  }
}
