/**
 * The mutable source position of the abandoned Java front end: `newLine`
 * and `shift` update the fields in place, and `clone` copies them into a
 * new object.  Java `int` arithmetic wraps at 32 bits.
 */
module JavaLocations {
  import opened Jvm

  class Location {
    var line: int32
    var column: int32

    constructor (line: int32, column: int32)
      ensures this.line == line && this.column == column
    {
      this.line, this.column := line, column;
    }

    /** `clone`: a new object with the same fields. */
    method Clone() returns (c: Location)
      ensures fresh(c) && c.line == line && c.column == column
    {
      c := new Location(line, column);
    }

    /** `newLine`: column back to 0, line one further. */
    method NewLine()
      modifies this
      ensures column == 0 && line == Wrap(old(line) as int + 1)
    {
      column := 0;
      line := Wrap(line as int + 1);
    }

    /** `shift`: one column further on the same line. */
    method Shift()
      modifies this
      ensures line == old(line) && column == Wrap(old(column) as int + 1)
    {
      column := Wrap(column as int + 1);
    }
  }

  /** A clone is independent: moving it leaves the original where it was. */
  method CloneIsIndependent(l: Location)
    modifies l
    ensures l.line == old(l.line) && l.column == old(l.column)
  {
    var c := l.Clone();
    c.Shift();
    c.NewLine();
  }

}
