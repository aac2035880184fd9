/**
  The eight compass headings of the game (src/game/Direction.java).

  Java keeps one object per heading, created by a private constructor and
  never changed afterwards; in Dafny the eight constants are the
  constructors of a datatype, so no other value can exist and the index of a
  value cannot change.
 */
module Directions {

  datatype Direction =
    | North | NorthEast | East | SouthEast
    | South | SouthWest | West | NorthWest

  /** The display names, indexed by the heading number. */
  const Names: seq<string> :=
    ["North", "North-East", "East", "South-East",
     "South", "South-West", "West", "North-West"]

  /** The index that the private constructor stores for each constant. */
  function Number(d: Direction): (n: nat)
    ensures n < 8
  {
    match d
    case North => 0
    case NorthEast => 1
    case East => 2
    case SouthEast => 3
    case South => 4
    case SouthWest => 5
    case West => 6
    case NorthWest => 7
  }

  /** The heading with a given index: the inverse of Number. */
  function FromNumber(n: nat): (d: Direction)
    requires n < 8
    ensures Number(d) == n
  {
    if n == 0 then North
    else if n == 1 then NorthEast
    else if n == 2 then East
    else if n == 3 then SouthEast
    else if n == 4 then South
    else if n == 5 then SouthWest
    else if n == 6 then West
    else NorthWest
  }

  /** toString(): the entry of the name table at the heading's index. */
  function Name(d: Direction): (s: string)
    ensures s in Names
  {
    Names[Number(d)]
  }

  /** Number is a bijection between the eight headings and 0..7. */
  lemma NumberBijective()
    ensures forall d: Direction :: FromNumber(Number(d)) == d
    ensures forall d1: Direction, d2: Direction :: Number(d1) == Number(d2) ==> d1 == d2
    ensures forall n: nat :: n < 8 ==> Number(FromNumber(n)) == n
  {
    forall d: Direction ensures FromNumber(Number(d)) == d {
      match d
      case North =>
      case NorthEast =>
      case East =>
      case SouthEast =>
      case South =>
      case SouthWest =>
      case West =>
      case NorthWest =>
    }
  }

  /** The indices run clockwise and each heading is named as in the table. */
  lemma NamesMatchHeadings()
    ensures Name(North) == "North" && Name(NorthEast) == "North-East"
    ensures Name(East) == "East" && Name(SouthEast) == "South-East"
    ensures Name(South) == "South" && Name(SouthWest) == "South-West"
    ensures Name(West) == "West" && Name(NorthWest) == "North-West"
  {
  }

  /** The absolute index difference that GamePanel.move computes for a gate. */
  function IndexDifference(a: Direction, b: Direction): (k: nat)
    ensures k < 8
  {
    if Number(a) >= Number(b) then Number(a) - Number(b) else Number(b) - Number(a)
  }

  /** Compass distance: the number of 45-degree steps between two headings, the short way round. */
  function CyclicDistance(a: Direction, b: Direction): (k: nat)
    ensures k <= 4
  {
    var diff := IndexDifference(a, b);
    if diff <= 4 then diff else 8 - diff
  }

  /**
    The gate test of GamePanel.move: a gate lets the robot leave with a
    heading whose index differs from the gate's by at most 1, or by exactly 7.
   */
  predicate GateAdmits(heading: Direction, gate: Direction)
  {
    var diff := IndexDifference(heading, gate);
    diff <= 1 || diff == 7
  }

  /** On indices 0..7 the gate test is exactly "at most one compass step apart". */
  lemma GateAdmitsIsCyclicAdjacency(heading: Direction, gate: Direction)
    ensures GateAdmits(heading, gate) <==> CyclicDistance(heading, gate) <= 1
  {
  }

  /** A gate admits its own heading and its two diagonal neighbours and nothing else. */
  lemma GateAdmitsExactlyThree(gate: Direction)
    ensures forall h: Direction :: GateAdmits(h, gate) <==>
              (Number(h) == Number(gate) || Number(h) == (Number(gate) + 1) % 8 || Number(h) == (Number(gate) + 7) % 8)
  {
    forall h: Direction
      ensures GateAdmits(h, gate) <==>
              (Number(h) == Number(gate) || Number(h) == (Number(gate) + 1) % 8 || Number(h) == (Number(gate) + 7) % 8)
    {
      var a, b := Number(h), Number(gate);
      assert b == 7 ==> (b + 1) % 8 == 0;
      assert b < 7 ==> (b + 1) % 8 == b + 1;
      assert b == 0 ==> (b + 7) % 8 == 7;
      assert b > 0 ==> (b + 7) % 8 == b - 1;
    }
  }

  /** The North gate: North, North-East and North-West pass; the other five are refused. */
  lemma NorthGate()
    ensures GateAdmits(North, North) && GateAdmits(NorthEast, North) && GateAdmits(NorthWest, North)
    ensures !GateAdmits(East, North) && !GateAdmits(SouthEast, North) && !GateAdmits(South, North)
    ensures !GateAdmits(SouthWest, North) && !GateAdmits(West, North)
  {
  }
}
