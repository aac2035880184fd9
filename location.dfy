/**
  A grid position with its pixel coordinates (src/game/Location.java).
  The object is mutable and shared by reference: the robot's Location is the
  one the game panel reads as the robot position.
 */
module Locations {

  class Location {
    var row: int
    var column: int
    var y: int
    var x: int

    /** The two-argument constructor: row and column only; the pixel fields keep Java's default 0. */
    constructor At(row: int, column: int)
      ensures this.row == row && this.column == column
      ensures this.x == 0 && this.y == 0
    {
      this.row := row;
      this.column := column;
      this.y := 0;
      this.x := 0;
    }

    /** The four-argument constructor, whose parameters come in the order (row, column, y, x). */
    constructor WithPixels(row: int, column: int, y: int, x: int)
      ensures this.row == row && this.column == column
      ensures this.y == y && this.x == x
    {
      this.row := row;
      this.column := column;
      this.y := y;
      this.x := x;
    }

    /** change(): shift the grid position in place; the pixel coordinates are not maintained. */
    method Change(rowChange: int, columnChange: int)
      modifies this
      ensures row == old(row) + rowChange
      ensures column == old(column) + columnChange
      ensures x == old(x) && y == old(y)
    {
      column := column + columnChange;
      row := row + rowChange;
    }
  }

  /** A change followed by the opposite change puts the location back where it was. */
  method ChangeThenUndo(l: Location, rowChange: int, columnChange: int)
    modifies l
    ensures l.row == old(l.row) && l.column == old(l.column)
    ensures l.x == old(l.x) && l.y == old(l.y)
  {
    l.Change(rowChange, columnChange);
    l.Change(-rowChange, -columnChange);
  }
}
