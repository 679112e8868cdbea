/**
 * `WorldPointParser`: a table cell `x y plane` becomes a packed world point; an empty cell is the
 * location-permutation marker. A part that is not a number throws NumberFormatException, which
 * nothing in the parser catches: the model returns it as an `Err`.
 */
module WorldPointParsing {
  import opened Wrappers
  import opened JavaStrings
  import opened Worlds

  const NUMBER_FORMAT_ERROR: string := "NumberFormatException"

  /** `parse(value)`, with `None` for `null`. */
  function Parse(w: World, value: Option<string>): (r: Result<int>)
    ensures (value.None? || value.value == "") ==> r == Ok(LocationPermutation(w))
    ensures value.Some? && value.value != "" && |Split(value.value, " ")| != 3 ==> r == Ok(LocationPermutation(w))
    ensures r.Err? <==> value.Some? && value.value != "" && |Split(value.value, " ")| == 3
                        && exists i :: 0 <= i < 3 && ParseInt(Split(value.value, " ")[i]).None?
  {
    if value.None? || value.value == "" then Ok(LocationPermutation(w))
    else
      var parts := Split(value.value, " ");
      if |parts| != 3 then Ok(LocationPermutation(w))
      else
        var x, y, plane := ParseInt(parts[0]), ParseInt(parts[1]), ParseInt(parts[2]);
        if x.Some? && y.Some? && plane.Some? then Ok(w.pack(x.value, y.value, plane.value))
        else Err(NUMBER_FORMAT_ERROR)
  }

  /** The text of a point in the table's format. */
  function Format(x: int, y: int, plane: int): string {
    IntToString(x) + " " + IntToString(y) + " " + IntToString(plane)
  }

  /** Round trip: a point written as `x y plane` parses to the packed point. */
  lemma ParseFormat(w: World, x: int, y: int, plane: int)
    requires IsInt32(x) && IsInt32(y) && IsInt32(plane)
    ensures Parse(w, Some(Format(x, y, plane))) == Ok(w.pack(x, y, plane))
  {
    var a, b, c := IntToString(x), IntToString(y), IntToString(plane);
    IntToStringNumeral(x);
    IntToStringNumeral(y);
    IntToStringNumeral(plane);
    NumeralAvoids(a, ' ');
    NumeralAvoids(b, ' ');
    NumeralAvoids(c, ' ');
    SplitThree(a, b, c, " ");
    ParseIntToString(x);
    ParseIntToString(y);
    ParseIntToString(plane);
  }

  /** A cell with a single number (no spaces) is not a point: it is read as the permutation marker. */
  lemma SingleNumberIsPermutation(w: World, n: int)
    ensures Parse(w, Some(IntToString(n))) == Ok(LocationPermutation(w))
  {
    IntToStringNumeral(n);
    NumeralAvoids(IntToString(n), ' ');
    SplitAllNoMatch(IntToString(n), " ");
  }
}
