/** What the scanners of this project share. */
module Characters {
  import opened Results

  predicate IsQuote(c: char) {
    c == '\'' || c == '"'
  }

  /** The character after the first, if there is one. */
  function Next(text: string): Option<char> {
    if |text| > 1 then Some(text[1]) else None
  }
}
