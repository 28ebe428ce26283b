/** Spring Data's `Sort.Direction` and `Sort.by(direction, property)`. */
module SortOrder {
  import opened Wrappers
  import opened Text

  datatype Direction = ASC | DESC

  /** `Sort.by(direction, property)`: order the rows by one property. */
  datatype Sort = Sort(direction: Direction, property: string)

  /**
   * `Sort.Direction.fromString`: the token names a direction once upper-cased, so "asc",
   * "Asc" and "ASC" are all ASC; anything else throws IllegalArgumentException.
   */
  function DirectionFromString(s: string): (r: Result<Direction>)
    ensures r == Ok(ASC) <==> Upper(s) == "ASC"
    ensures r == Ok(DESC) <==> Upper(s) == "DESC"
    ensures r.Err? ==> r.error == IllegalArgument(BadDirection)
  {
    var u := Upper(s);
    if u == "ASC" then Ok(ASC)
    else if u == "DESC" then Ok(DESC)
    else Err(IllegalArgument(BadDirection))
  }

  /** The spelling used as the default: "asc" is ASC. */
  lemma AscParses()
    ensures DirectionFromString("asc") == Ok(ASC)
  {
    assert Upper("asc") == "ASC";
  }

  /** Only the letters' case is ignored: upper-casing the token first never changes the outcome. */
  lemma DirectionFromStringIgnoresCase(s: string)
    ensures DirectionFromString(Upper(s)) == DirectionFromString(s)
  {
    UpperIdempotent(s);
  }
}
