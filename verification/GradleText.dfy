/** The character scanners of the Gradle rules: masking comments and strings, and reading block bodies. */
module GradleText {
  import opened Results
  import opened Characters

  datatype Mode =
    | Code
    | LineComment
    | BlockComment
    | Quoted(quote: char, escaped: bool)

  function Blank(c: char): char {
    if c == '\n' then '\n' else ' '
  }

  /** How many characters one step consumes, what it writes for them, and the mode it leaves. */
  datatype Step = Step(width: nat, written: string, mode: Mode)

  function StepAt(c: char, next: Option<char>, mode: Mode): (step: Step)
    ensures 1 <= step.width == |step.written| <= 2
    ensures step.width == 2 ==> next.Some?
  {
    match mode
    case LineComment => Step(1, [Blank(c)], if c == '\n' then Code else LineComment)
    case BlockComment =>
      if c == '*' && next == Some('/') then Step(2, "  ", Code) else Step(1, [Blank(c)], BlockComment)
    case Quoted(quote, escaped) =>
      Step(1, [Blank(c)],
           if escaped then Quoted(quote, false)
           else if c == '\\' then Quoted(quote, true)
           else if c == quote then Code
           else mode)
    case Code =>
      if c == '/' && next == Some('/') then Step(2, "  ", LineComment)
      else if c == '/' && next == Some('*') then Step(2, "  ", BlockComment)
      else if IsQuote(c) then Step(1, " ", Quoted(c, false))
      else Step(1, [c], Code)
  }

  function MaskFrom(text: string, mode: Mode): (masked: string)
    ensures |masked| == |text|
  {
    if text == "" then ""
    else
      var step := StepAt(text[0], Next(text), mode);
      step.written + MaskFrom(text[step.width..], step.mode)
  }

  function Mask(text: string): string {
    MaskFrom(text, Code)
  }

  /** `_mask_gradle_comments_and_strings`. */
  method MaskCommentsAndStrings(text: string) returns (masked: string)
    ensures masked == Mask(text)
  {
    masked := "";
    var mode := Code;
    var index := 0;
    while index < |text|
      invariant 0 <= index <= |text|
      invariant masked + MaskFrom(text[index..], mode) == Mask(text)
    {
      ghost var rest := text[index..];
      var next := if index + 1 < |text| then Some(text[index + 1]) else None;
      assert rest[0] == text[index] && Next(rest) == next;
      var step := StepAt(text[index], next, mode);
      assert masked + (step.written + MaskFrom(rest[step.width..], step.mode))
          == masked + step.written + MaskFrom(rest[step.width..], step.mode);
      masked := masked + step.written;
      mode := step.mode;
      index := index + step.width;
      assert text[index..] == rest[step.width..];
    }
  }

  // ---------- what masking keeps and removes ----------

  /** Line by line the masked text has the shape of the original: a newline stays where it is, and every
      other character stays or turns into a space. */
  predicate SameShape(text: string, masked: string) {
    && |masked| == |text|
    && forall i :: 0 <= i < |text| ==>
         && (masked[i] == '\n' <==> text[i] == '\n')
         && (masked[i] == text[i] || masked[i] == ' ')
  }

  /** No string and no comment opens here. */
  predicate OpensAt(text: string, i: nat)
    requires i < |text|
  {
    || IsQuote(text[i])
    || (i + 1 < |text| && text[i] == '/' && text[i + 1] in {'/', '*'})
  }

  predicate OpensNothing(text: string) {
    forall i :: 0 <= i < |text| ==> !OpensAt(text, i)
  }

  lemma {:induction false} MaskKeepsShape(text: string, mode: Mode)
    ensures SameShape(text, MaskFrom(text, mode))
  {
    if text != "" {
      var step := StepAt(text[0], Next(text), mode);
      MaskKeepsShape(text[step.width..], step.mode);
      var rest, masked := text[step.width..], MaskFrom(text, mode);
      forall i | 0 <= i < |text|
        ensures (masked[i] == '\n' <==> text[i] == '\n') && (masked[i] == text[i] || masked[i] == ' ')
      {
        if i >= step.width {
          assert masked[i] == MaskFrom(rest, step.mode)[i - step.width] && text[i] == rest[i - step.width];
        }
      }
    }
  }

  /** A slash that code keeps is followed by nothing that makes a comment of it. */
  lemma MaskedStartsLike(text: string, mode: Mode)
    requires text != ""
    ensures MaskFrom(text, mode)[0] in {text[0], ' ', '\n'}
    ensures mode != Code ==> MaskFrom(text, mode)[0] in {' ', '\n'}
  {}

  lemma PrependingOpensNothing(written: string, rest: string)
    requires OpensNothing(written) && OpensNothing(rest) && written != ""
    requires rest != "" ==> OpensNothing([written[|written| - 1], rest[0]])
    ensures OpensNothing(written + rest)
  {
    var whole := written + rest;
    forall i | 0 <= i < |whole|
      ensures !OpensAt(whole, i)
    {
      if i < |written| - 1 {
        assert !OpensAt(written, i);
      } else if i == |written| - 1 {
        assert !OpensAt(written, i);
        assert rest != "" ==> !OpensAt([written[i], rest[0]], 0);
      } else {
        assert !OpensAt(rest, i - |written|);
      }
    }
  }

  lemma StepOpensNothing(text: string, mode: Mode)
    requires text != ""
    ensures var step := StepAt(text[0], Next(text), mode);
            && OpensNothing(step.written)
            && (step.written[step.width - 1] == '/' ==>
                  step.width == 1 && step.mode == Code && Next(text) !in {Some('/'), Some('*')})
  {}

  lemma JunctionOpensNothing(text: string, mode: Mode)
    requires text != ""
    ensures var step := StepAt(text[0], Next(text), mode);
            var rest := MaskFrom(text[step.width..], step.mode);
            rest != "" && OpensNothing(rest) ==> OpensNothing([step.written[step.width - 1], rest[0]])
  {
    var step := StepAt(text[0], Next(text), mode);
    StepOpensNothing(text, mode);
    var rest := MaskFrom(text[step.width..], step.mode);
    if rest != "" && OpensNothing(rest) {
      MaskedStartsLike(text[step.width..], step.mode);
      assert !OpensAt(rest, 0) && !OpensAt(step.written, step.width - 1);
    }
  }

  lemma {:induction false} MaskedOpensNothing(text: string, mode: Mode)
    ensures OpensNothing(MaskFrom(text, mode))
  {
    if text != "" {
      var step := StepAt(text[0], Next(text), mode);
      MaskedOpensNothing(text[step.width..], step.mode);
      StepOpensNothing(text, mode);
      JunctionOpensNothing(text, mode);
      PrependingOpensNothing(step.written, MaskFrom(text[step.width..], step.mode));
    }
  }

  lemma {:induction false} PlainCodeStays(text: string)
    requires OpensNothing(text)
    ensures Mask(text) == text
  {
    if text != "" {
      assert !OpensAt(text, 0);
      forall i | 0 <= i < |text[1..]|
        ensures !OpensAt(text[1..], i)
      {
        assert !OpensAt(text, i + 1);
      }
      PlainCodeStays(text[1..]);
    }
  }

  /** Masking keeps length and lines, leaves nothing that opens a string or a comment, and changes
      nothing the second time. */
  lemma MaskIsClean(text: string)
    ensures SameShape(text, Mask(text))
    ensures OpensNothing(Mask(text))
    ensures Mask(Mask(text)) == Mask(text)
    ensures Mask(text) == text <==> OpensNothing(text)
  {
    MaskKeepsShape(text, Code);
    MaskedOpensNothing(text, Code);
    PlainCodeStays(Mask(text));
    if OpensNothing(text) {
      PlainCodeStays(text);
    }
  }

  // ---------- what counts as a string or a comment ----------

  function BlankAll(text: string): (blanks: string)
    ensures |blanks| == |text|
  {
    if text == "" then "" else [Blank(text[0])] + BlankAll(text[1..])
  }

  /** The inside of a string literal: the quote occurs only escaped, and the last character escapes nothing. */
  predicate IsBody(text: string, quote: char, escaped: bool) {
    if text == "" then !escaped
    else if escaped then IsBody(text[1..], quote, false)
    else text[0] != quote && IsBody(text[1..], quote, text[0] == '\\')
  }

  lemma FirstStep(text: string, tail: string, mode: Mode)
    requires text != "" && text[StepAt(text[0], Next(text), mode).width..] == tail
    ensures var step := StepAt(text[0], Next(text), mode);
            MaskFrom(text, mode) == step.written + MaskFrom(tail, step.mode)
  {}

  /** One blanked character before what the rest of the text gives. */
  lemma OneMoreBlank(text: string, tail: string, mode: Mode, mode': Mode, masked: string)
    requires text != "" && StepAt(text[0], Next(text + tail), mode) == Step(1, [Blank(text[0])], mode')
    requires MaskFrom(text[1..] + tail, mode') == BlankAll(text[1..]) + masked
    ensures MaskFrom(text + tail, mode) == BlankAll(text) + masked
  {
    assert (text + tail)[0] == text[0] && (text + tail)[1..] == text[1..] + tail;
    FirstStep(text + tail, text[1..] + tail, mode);
    assert [Blank(text[0])] + (BlankAll(text[1..]) + masked) == BlankAll(text) + masked;
  }

  lemma {:induction false} StringEnds(body: string, quote: char, escaped: bool, rest: string)
    requires IsQuote(quote) && IsBody(body, quote, escaped)
    ensures MaskFrom(body + ([quote] + rest), Quoted(quote, escaped)) == BlankAll(body) + (" " + Mask(rest))
  {
    if body == "" {
      assert body + ([quote] + rest) == [quote] + rest && ([quote] + rest)[1..] == rest;
      FirstStep([quote] + rest, rest, Quoted(quote, false));
    } else {
      var after := !escaped && body[0] == '\\';
      StringEnds(body[1..], quote, after, rest);
      OneMoreBlank(body, [quote] + rest, Quoted(quote, escaped), Quoted(quote, after), " " + Mask(rest));
    }
  }

  lemma {:induction false} LineCommentEnds(comment: string, rest: string)
    requires forall i :: 0 <= i < |comment| ==> comment[i] != '\n'
    ensures MaskFrom(comment + (['\n'] + rest), LineComment) == BlankAll(comment) + (['\n'] + Mask(rest))
  {
    if comment == "" {
      assert comment + (['\n'] + rest) == ['\n'] + rest && (['\n'] + rest)[1..] == rest;
      FirstStep(['\n'] + rest, rest, LineComment);
    } else {
      LineCommentEnds(comment[1..], rest);
      OneMoreBlank(comment, ['\n'] + rest, LineComment, LineComment, ['\n'] + Mask(rest));
    }
  }

  predicate HasNoEnd(comment: string) {
    forall i :: 0 <= i < |comment| - 1 ==> comment[i] != '*' || comment[i + 1] != '/'
  }

  lemma {:induction false} BlockCommentEnds(comment: string, rest: string)
    requires HasNoEnd(comment)
    ensures MaskFrom(comment + ("*/" + rest), BlockComment) == BlankAll(comment) + ("  " + Mask(rest))
  {
    if comment == "" {
      assert comment + ("*/" + rest) == "*/" + rest && ("*/" + rest)[2..] == rest;
      FirstStep("*/" + rest, rest, BlockComment);
    } else {
      BlockCommentEnds(comment[1..], rest);
      assert (comment + ("*/" + rest))[1] == if |comment| > 1 then comment[1] else '*';
      OneMoreBlank(comment, "*/" + rest, BlockComment, BlockComment, "  " + Mask(rest));
    }
  }

  // Strings and comments are blanked up to their own end, whatever marks occur inside; other code stays;
  // and what follows is masked on its own.

  lemma StringIsBlanked(quote: char, body: string, rest: string)
    requires IsQuote(quote) && IsBody(body, quote, false)
    ensures Mask([quote] + (body + ([quote] + rest))) == " " + (BlankAll(body) + (" " + Mask(rest)))
  {
    var tail := body + ([quote] + rest);
    assert ([quote] + tail)[1..] == tail;
    FirstStep([quote] + tail, tail, Code);
    StringEnds(body, quote, false, rest);
  }

  lemma LineCommentIsBlanked(comment: string, rest: string)
    requires forall i :: 0 <= i < |comment| ==> comment[i] != '\n'
    ensures Mask("//" + (comment + (['\n'] + rest))) == "  " + (BlankAll(comment) + (['\n'] + Mask(rest)))
  {
    var tail := comment + (['\n'] + rest);
    assert ("//" + tail)[2..] == tail;
    FirstStep("//" + tail, tail, Code);
    LineCommentEnds(comment, rest);
  }

  lemma BlockCommentIsBlanked(comment: string, rest: string)
    requires HasNoEnd(comment)
    ensures Mask("/*" + (comment + ("*/" + rest))) == "  " + (BlankAll(comment) + ("  " + Mask(rest)))
  {
    var tail := comment + ("*/" + rest);
    assert ("/*" + tail)[2..] == tail;
    FirstStep("/*" + tail, tail, Code);
    BlockCommentEnds(comment, rest);
  }

  lemma OtherCodeStays(c: char, rest: string)
    requires !OpensAt([c] + rest, 0)
    ensures Mask([c] + rest) == [c] + Mask(rest)
  {
    assert ([c] + rest)[1..] == rest;
  }

  // ---------- block bodies ----------

  /** Opening minus closing braces. */
  function Depth(code: string): int {
    if code == "" then 0
    else
      var last := code[|code| - 1];
      Depth(code[..|code| - 1]) + if last == '{' then 1 else if last == '}' then -1 else 0
  }

  /** Every brace that the text opens it closes again, and it closes no other. */
  predicate Balanced(code: string) {
    Depth(code) == 0 && NeverCloses(code)
  }

  predicate NeverCloses(code: string) {
    forall k :: 0 <= k <= |code| ==> Depth(code[..k]) >= 0
  }

  /** The brace that matches the one before `start`: the first at which the text after it goes below its
      own level. */
  predicate Closes(code: string, start: nat, close: nat) {
    start <= close < |code| && code[close] == '}' && Balanced(code[start..close])
  }

  lemma OneMoreCharacter(code: string, start: nat, index: nat)
    requires start <= index < |code|
    ensures code[start..index + 1][..index - start] == code[start..index]
    ensures Depth(code[start..index + 1])
         == Depth(code[start..index]) + (if code[index] == '{' then 1 else if code[index] == '}' then -1 else 0)
  {
    assert code[start..index + 1][..index - start] == code[start..index];
  }

  lemma OneMoreNeverCloses(code: string, start: nat, index: nat)
    requires start <= index < |code| && NeverCloses(code[start..index])
    requires Depth(code[start..index + 1]) >= 0
    ensures NeverCloses(code[start..index + 1])
  {
    var longer := code[start..index + 1];
    forall k | 0 <= k <= |longer|
      ensures Depth(longer[..k]) >= 0
    {
      if k < |longer| {
        assert longer[..k] == code[start..index][..k];
      } else {
        assert longer[..k] == longer;
      }
    }
  }

  lemma ClosingIsFirst(code: string, start: nat, close: nat, end: nat)
    requires Closes(code, start, close) && close < end <= |code|
    ensures !NeverCloses(code[start..end])
  {
    OneMoreCharacter(code, start, close);
    assert code[start..end][..close + 1 - start] == code[start..close + 1];
  }

  /** The matching brace is the only one. */
  lemma ClosingIsUnique(code: string, start: nat, close: nat, close': nat)
    requires Closes(code, start, close) && Closes(code, start, close')
    ensures close == close'
  {
    if close < close' {
      ClosingIsFirst(code, start, close, close');
    } else if close' < close {
      ClosingIsFirst(code, start, close', close);
    }
  }

  /** The inner loop of `_block_bodies`. */
  method FindClose(code: string, start: nat) returns (close: Option<nat>)
    requires start <= |code|
    ensures close.Some? ==> Closes(code, start, close.value)
    ensures close.None? ==> forall other: nat :: !Closes(code, start, other)
  {
    var depth := 1;
    var index := start;
    assert code[start..start] == "";
    while index < |code|
      invariant start <= index <= |code|
      invariant depth == Depth(code[start..index]) + 1 >= 1
      invariant NeverCloses(code[start..index])
    {
      OneMoreCharacter(code, start, index);
      if code[index] == '{' {
        depth := depth + 1;
      } else if code[index] == '}' {
        depth := depth - 1;
      }
      if depth == 0 {
        return Some(index);
      }
      OneMoreNeverCloses(code, start, index);
      index := index + 1;
    }
    forall other: nat | Closes(code, start, other)
      ensures false
    {
      ClosingIsFirst(code, start, other, |code|);
    }
    return None;
  }

  /** The block that an opening brace starts ends at `close`. */
  predicate IsBlock(code: string, opener: nat, close: nat) {
    Closes(code, opener + 1, close)
  }

  ghost predicate HasEnd(code: string, opener: nat) {
    exists close: nat :: IsBlock(code, opener, close)
  }

  /** The text between an opening brace and the brace that matches it. */
  ghost function BodyOf(code: string, opener: nat): (body: string)
    requires HasEnd(code, opener)
    ensures Balanced(body)
    ensures exists close: nat :: IsBlock(code, opener, close) && body == code[opener + 1..close]
  {
    var close: nat :| IsBlock(code, opener, close);
    code[opener + 1..close]
  }

  ghost function Bodies(code: string, openers: seq<nat>): seq<string> {
    if openers == [] then []
    else
      var last := openers[|openers| - 1];
      Bodies(code, openers[..|openers| - 1]) + if HasEnd(code, last) then [BodyOf(code, last)] else []
  }

  lemma BodyEndsAtClose(code: string, opener: nat, close: nat)
    requires IsBlock(code, opener, close)
    ensures HasEnd(code, opener) && BodyOf(code, opener) == code[opener + 1..close]
  {
    var body := BodyOf(code, opener);
    var other: nat :| IsBlock(code, opener, other) && body == code[opener + 1..other];
    assert Closes(code, opener + 1, other);
    ClosingIsUnique(code, opener + 1, close, other);
  }

  /** `_block_bodies`, for the brace positions that the opener pattern matched: the body of every block
      that ends, in order, up to its matching brace. */
  method BlockBodies(code: string, openers: seq<nat>) returns (bodies: seq<string>)
    requires forall opener :: opener in openers ==> opener < |code| && code[opener] == '{'
    ensures bodies == Bodies(code, openers)
  {
    bodies := [];
    for i := 0 to |openers|
      invariant bodies == Bodies(code, openers[..i])
    {
      assert openers[..i + 1][..i] == openers[..i];
      var opener := openers[i];
      assert opener in openers;
      var close := FindClose(code, opener + 1);
      if close.Some? {
        BodyEndsAtClose(code, opener, close.value);
        bodies := bodies + [code[opener + 1..close.value]];
      } else {
        assert !HasEnd(code, opener) by {
          forall other: nat
            ensures !IsBlock(code, opener, other)
          {}
        }
      }
    }
    assert openers[..|openers|] == openers;
  }
}
