/**
 * A source position (line, column) in the checker's front end.  Moving to
 * the next character or the next line builds a new value; the receiver is
 * never changed.
 */
module ParseLocations {
  import opened Jvm

  datatype Location = Location(line: int32, column: int32) {
    /** `newLine`: the first column of the next line. */
    function NewLine(): (l: Location)
      ensures l.line as int == Wrap(line as int + 1) as int && l.column == 0
    {
      Location(Wrap(line as int + 1), 0)
    }

    /** `shift`: the next column on the same line. */
    function Shift(): (l: Location)
      ensures l.line == line && l.column == Wrap(column as int + 1)
    {
      Location(line, Wrap(column as int + 1))
    }

    /** `toString`: `Location{line, column}`. */
    function ToString(): (r: string)
      ensures |r| >= 13 && r[..9] == "Location{" && r[|r| - 1] == '}'
      ensures forall k :: 0 <= k < |r| - 1 ==> r[k] != '}'
    {
      var a, b := IntToString(line as int), IntToString(column as int);
      var r := "Location{" + a + ", " + b + "}";
      assert forall k :: 9 <= k < 9 + |a| ==> r[k] == a[k - 9];
      assert forall k :: 11 + |a| <= k < 11 + |a| + |b| ==> r[k] == b[k - 11 - |a|];
      r
    }
  }

  /** The no-argument constructor: line 0, column 0. */
  function Start(): (l: Location)
    ensures l.line == 0 && l.column == 0
  {
    Location(0, 0)
  }

  /** Away from the 32-bit limits, a new line and a shift move by exactly one. */
  lemma StepsWithinRange(l: Location)
    requires l.line < 0x7fff_ffff && l.column < 0x7fff_ffff
    ensures l.NewLine().line as int == l.line as int + 1
    ensures l.Shift().column as int == l.column as int + 1
    ensures l.Shift().NewLine() == l.NewLine()
  {
  }

  /** Distinct locations print differently. */
  lemma ToStringInjective(a: Location, b: Location)
    ensures a.ToString() == b.ToString() <==> a == b
  {
    if a.ToString() == b.ToString() {
      var p := "Location{";
      var sa := IntToString(a.line as int) + ", " + IntToString(a.column as int);
      var sb := IntToString(b.line as int) + ", " + IntToString(b.column as int);
      assert a.ToString() == p + sa + "}" && b.ToString() == p + sb + "}";
      assert sa == a.ToString()[|p|..|a.ToString()| - 1];
      assert sb == b.ToString()[|p|..|b.ToString()| - 1];
      IntPairInjective(a.line as int, a.column as int, b.line as int, b.column as int);
    }
  }
}
