/** `split_shell_segments`: cutting a command line at unquoted newlines, `;`, `&&` and `||`. */
module ShellSegments {
  import opened Results
  import opened Characters

  /** What `str.strip` removes. */
  predicate IsSpace(c: char) {
    var code := c as int;
    || 0x09 <= code <= 0x0D || 0x1C <= code <= 0x20
    || 0x2000 <= code <= 0x200A
    || code in {0x85, 0xA0, 0x1680, 0x2028, 0x2029, 0x202F, 0x205F, 0x3000}
  }

  function StripLeft(text: string): (stripped: string)
    ensures |stripped| <= |text|
  {
    if text != "" && IsSpace(text[0]) then StripLeft(text[1..]) else text
  }

  function StripRight(text: string): (stripped: string)
    ensures |stripped| <= |text|
  {
    if text != "" && IsSpace(text[|text| - 1]) then StripRight(text[..|text| - 1]) else text
  }

  function Strip(text: string): (stripped: string)
    ensures |stripped| <= |text|
  {
    StripLeft(StripRight(text))
  }

  /** The state of the scan: finished segments, the segment being read, and the open quote. */
  datatype Scan = Scan(segments: seq<string>, current: string, quote: Option<char>)

  const START := Scan([], "", None)

  /** `_append_segment`. */
  function Cut(scan: Scan): Scan {
    var segment := Strip(scan.current);
    Scan(if segment == "" then scan.segments else scan.segments + [segment], "", scan.quote)
  }

  function Toggle(quote: Option<char>, c: char): Option<char> {
    if quote == Some(c) then None else if quote == None then Some(c) else quote
  }

  /** Whether an unquoted separator starts here, and how long it is. `next` is what follows, if anything. */
  function SeparatorAt(c: char, next: Option<char>): (width: nat)
    ensures width <= 2 && (width == 2 ==> next.Some?)
  {
    if c == '\n' then 1
    else if c == ';' && next != Some(';') then 1
    else if (c == '&' || c == '|') && next == Some(c) then 2
    else 0
  }

  /** The scan of the rest of a command line. */
  function ScanText(text: string, scan: Scan): Scan {
    if text == "" then scan
    else if IsQuote(text[0]) then
      ScanText(text[1..], scan.(current := scan.current + [text[0]], quote := Toggle(scan.quote, text[0])))
    else
      var width := if scan.quote == None then SeparatorAt(text[0], Next(text)) else 0;
      if width > 0 then ScanText(text[width..], Cut(scan))
      else ScanText(text[1..], scan.(current := scan.current + [text[0]]))
  }

  function Split(command: string): seq<string> {
    Cut(ScanText(command, START)).segments
  }

  predicate EndsOutsideQuotes(command: string) {
    ScanText(command, START).quote == None
  }

  /** `split_shell_segments`. */
  method SplitShellSegments(command: string) returns (segments: seq<string>)
    ensures segments == Split(command)
  {
    var scan := START;
    var index := 0;
    while index < |command|
      invariant 0 <= index <= |command|
      invariant ScanText(command[index..], scan) == ScanText(command, START)
    {
      ghost var rest := command[index..];
      var c := command[index];
      var next := if index + 1 < |command| then Some(command[index + 1]) else None;
      assert rest[0] == c && Next(rest) == next;
      if IsQuote(c) {
        scan := scan.(current := scan.current + [c], quote := Toggle(scan.quote, c));
        index := index + 1;
        assert command[index..] == rest[1..];
        continue;
      }
      var width := if scan.quote == None then SeparatorAt(c, next) else 0;
      if width > 0 {
        scan := Cut(scan);
        index := index + width;
        assert command[index..] == rest[width..];
        continue;
      }
      scan := scan.(current := scan.current + [c]);
      index := index + 1;
      assert command[index..] == rest[1..];
    }
    return Cut(scan).segments;
  }

  // ---------- composition ----------

  /** What follows a command changes nothing in it that the scan looks ahead for, unless it begins like a
      separator of which the command may end with the first half. */
  lemma {:induction false} ScanIsCompositional(text: string, rest: string, scan: Scan)
    requires rest != "" && rest[0] !in {';', '&', '|'}
    ensures ScanText(text + rest, scan) == ScanText(rest, ScanText(text, scan))
  {
    if text == "" {
      assert text + rest == rest;
    } else {
      var whole := text + rest;
      assert whole[1..] == text[1..] + rest;
      if IsQuote(text[0]) {
        ScanIsCompositional(
          text[1..], rest, scan.(current := scan.current + [text[0]], quote := Toggle(scan.quote, text[0])));
      } else {
        var width := if scan.quote == None then SeparatorAt(text[0], Next(text)) else 0;
        assert SeparatorAt(text[0], Next(text)) == SeparatorAt(text[0], Next(whole));
        if width > 0 {
          assert whole[width..] == text[width..] + rest;
          ScanIsCompositional(text[width..], rest, Cut(scan));
        } else {
          ScanIsCompositional(text[1..], rest, scan.(current := scan.current + [text[0]]));
        }
      }
    }
  }

  lemma {:induction false} StripRightKeepsStart(c: char, text: string)
    ensures StripRight([c] + text) == if StripRight(text) == "" then StripRight([c]) else [c] + StripRight(text)
  {
    if text != "" {
      var whole := [c] + text;
      assert whole[|whole| - 1] == text[|text| - 1];
      if IsSpace(text[|text| - 1]) {
        assert whole[..|whole| - 1] == [c] + text[..|text| - 1];
        StripRightKeepsStart(c, text[..|text| - 1]);
      }
    } else {
      assert [c] + text == [c];
    }
  }

  lemma SpacesAroundAreStripped(text: string)
    ensures Strip(" " + text) == Strip(text) && Strip(text + " ") == Strip(text)
  {
    StripRightKeepsStart(' ', text);
    assert StripRight(" ") == "" by {
      assert " "[..0] == "";
    }
    assert (" " + StripRight(text))[1..] == StripRight(text);
    assert (text + " ")[..|text|] == text;
  }

  /** The same state, but for earlier segments and a space in front of the segment being read. */
  ghost predicate Ahead(left: Scan, right: Scan, earlier: seq<string>) {
    && left.segments == earlier + right.segments
    && left.quote == right.quote
    && (left.current == right.current || left.current == " " + right.current)
  }

  lemma CutStaysAhead(left: Scan, right: Scan, earlier: seq<string>)
    requires Ahead(left, right, earlier)
    ensures Ahead(Cut(left), Cut(right), earlier)
    ensures Cut(left).segments == earlier + Cut(right).segments
  {
    SpacesAroundAreStripped(right.current);
  }

  lemma {:induction false} ScanStaysAhead(text: string, left: Scan, right: Scan, earlier: seq<string>)
    requires Ahead(left, right, earlier)
    ensures Ahead(ScanText(text, left), ScanText(text, right), earlier)
  {
    if text != "" {
      var c := text[0];
      assert (" " + right.current) + [c] == " " + (right.current + [c]);
      if IsQuote(c) {
        ScanStaysAhead(
          text[1..], left.(current := left.current + [c], quote := Toggle(left.quote, c)),
          right.(current := right.current + [c], quote := Toggle(right.quote, c)), earlier);
      } else {
        var width := if left.quote == None then SeparatorAt(c, Next(text)) else 0;
        if width > 0 {
          CutStaysAhead(left, right, earlier);
          ScanStaysAhead(text[width..], Cut(left), Cut(right), earlier);
        } else {
          ScanStaysAhead(
            text[1..], left.(current := left.current + [c]), right.(current := right.current + [c]), earlier);
        }
      }
    }
  }

  lemma CutThenSpace(scan: Scan, second: string)
    requires scan.quote == None
    ensures Cut(ScanText(" " + second, Cut(scan))).segments == Cut(scan).segments + Split(second)
  {
    var cut := Cut(scan);
    var entered := cut.(current := " ");
    assert (" " + second)[0] == ' ' && (" " + second)[1..] == second && cut.current + [' '] == " ";
    assert ScanText(" " + second, cut) == ScanText(second, entered);
    assert " " + START.current == " ";
    assert Ahead(entered, START, cut.segments);
    ScanStaysAhead(second, entered, START, cut.segments);
    CutStaysAhead(ScanText(second, entered), ScanText(second, START), cut.segments);
  }

  lemma SeparatorCuts(separator: string, tail: string, scan: Scan)
    requires separator in {"&&", "||", ";"} && scan.quote == None
    requires tail != "" && tail[0] == ' '
    ensures ScanText(separator + tail, scan) == ScanText(tail, Cut(scan))
  {
    var rest := separator + tail;
    assert rest[0] == separator[0] && rest[|separator|..] == tail && rest[|separator|] == ' ';
    assert Next(rest) == Some(if |separator| == 2 then separator[1] else ' ');
    assert SeparatorAt(rest[0], Next(rest)) == |separator|;
  }

  /** `&&`, `||` or `;` between two commands separates their segments, whatever the commands contain, as long
      as the first does not leave a quote open. */
  lemma SeparatorsSeparate(first: string, separator: string, second: string)
    requires separator in {"&&", "||", ";"} && EndsOutsideQuotes(first)
    ensures Split(first + (" " + (separator + (" " + second)))) == Split(first) + Split(second)
  {
    var scan := ScanText(first, START);
    var tail := separator + (" " + second);
    ScanIsCompositional(first, " " + tail, START);
    var spaced := scan.(current := scan.current + " ");
    assert (" " + tail)[0] == ' ' && (" " + tail)[1..] == tail && scan.current + [' '] == scan.current + " ";
    assert ScanText(" " + tail, scan) == ScanText(tail, spaced);
    SeparatorCuts(separator, " " + second, spaced);
    CutThenSpace(spaced, second);
    SpacesAroundAreStripped(scan.current);
    assert Cut(spaced).segments == Cut(scan).segments;
  }

  /** So does a line break. */
  lemma LineBreakSeparates(first: string, second: string)
    requires EndsOutsideQuotes(first)
    ensures Split(first + (['\n'] + second)) == Split(first) + Split(second)
  {
    var scan := ScanText(first, START);
    ScanIsCompositional(first, ['\n'] + second, START);
    assert (['\n'] + second)[1..] == second;
    assert ScanText(['\n'] + second, scan) == ScanText(second, Cut(scan));
    assert Ahead(Cut(scan), START, Cut(scan).segments);
    ScanStaysAhead(second, Cut(scan), START, Cut(scan).segments);
    CutStaysAhead(ScanText(second, Cut(scan)), ScanText(second, START), Cut(scan).segments);
  }

  /** Inside quotes nothing separates. */
  lemma {:induction false} QuotedTextStaysTogether(text: string, quote: char, scan: Scan)
    requires IsQuote(quote) && scan.quote == Some(quote)
    requires forall i :: 0 <= i < |text| ==> text[i] != quote
    ensures ScanText(text, scan) == scan.(current := scan.current + text)
  {
    if text != "" {
      var next := scan.(current := scan.current + [text[0]]);
      QuotedTextStaysTogether(text[1..], quote, next);
      assert scan.current + [text[0]] + text[1..] == scan.current + text;
    } else {
      assert scan.current + text == scan.current;
    }
  }

  // ---------- size ----------

  function TotalLength(segments: seq<string>): nat {
    if segments == [] then 0 else TotalLength(segments[..|segments| - 1]) + |segments[|segments| - 1]|
  }

  lemma CutNeverGrows(scan: Scan)
    ensures TotalLength(Cut(scan).segments) <= TotalLength(scan.segments) + |scan.current|
  {
    var segment := Strip(scan.current);
    assert (scan.segments + [segment])[..|scan.segments|] == scan.segments;
  }

  lemma {:induction false} ScanNeverGrows(text: string, scan: Scan)
    ensures var after := ScanText(text, scan);
            TotalLength(after.segments) + |after.current| <= TotalLength(scan.segments) + |scan.current| + |text|
  {
    if text != "" {
      var c := text[0];
      if IsQuote(c) {
        ScanNeverGrows(text[1..], scan.(current := scan.current + [c], quote := Toggle(scan.quote, c)));
      } else {
        var width := if scan.quote == None then SeparatorAt(c, Next(text)) else 0;
        if width > 0 {
          CutNeverGrows(scan);
          ScanNeverGrows(text[width..], Cut(scan));
        } else {
          ScanNeverGrows(text[1..], scan.(current := scan.current + [c]));
        }
      }
    }
  }

  lemma {:induction false} PartIsNoLonger(segments: seq<string>, i: nat)
    requires i < |segments|
    ensures |segments[i]| <= TotalLength(segments)
  {
    if i < |segments| - 1 {
      PartIsNoLonger(segments[..|segments| - 1], i);
    }
  }

  /** No segment is longer than the command. */
  lemma SegmentsAreNoLonger(command: string)
    ensures TotalLength(Split(command)) <= |command|
    ensures forall i :: 0 <= i < |Split(command)| ==> |Split(command)[i]| <= |command|
  {
    ScanNeverGrows(command, START);
    CutNeverGrows(ScanText(command, START));
    forall i | 0 <= i < |Split(command)|
      ensures |Split(command)[i]| <= |command|
    {
      PartIsNoLonger(Split(command), i);
    }
  }
}
