/** The commands that a command line hands to another interpreter: `env` prefixes, `sh -c`,
    `powershell -Command` and `cmd /c`. The word splitter (`shlex`) and the word tests are parameters. */
module CommandParser {
  import opened Results

  datatype Words = Words(
    split: string -> seq<string>,     // `_split`, with surrounding quotes and empty words removed
    isAssignment: string -> bool,     // `_is_env_assignment`
    isPath: string -> bool,           // `_is_local_path_token`
    isAbsolute: string -> bool)       // `is_windows_absolute_path`

  function LowerChar(c: char): char {
    if 'A' <= c <= 'Z' then ((c as int) + 32) as char else c
  }

  function Lower(text: string): (lowered: string)
    ensures |lowered| == |text|
  {
    seq(|text|, i requires 0 <= i < |text| => LowerChar(text[i]))
  }

  const SHELLS := {"bash", "sh"}
  const POWERSHELLS := {"powershell", "powershell.exe", "pwsh", "pwsh.exe"}
  const CMDS := {"cmd", "cmd.exe"}

  predicate Starts(text: string, prefix: string) {
    |prefix| <= |text| && text[..|prefix|] == prefix
  }

  /** How many words the `env` option takes that begins with this one; zero if none does. */
  function EnvWidth(token: string, words: Words): (width: nat)
    ensures width <= 2
  {
    if token in {"-i", "-", "--ignore-environment", "--null", "-0"} then 1
    else if token in {"-u", "--unset"} then 2
    else if Starts(token, "-u") && |token| > 2 then 1
    else if words.isAssignment(token) then 1
    else 0
  }

  /** Where the command after `env` begins. */
  function SkipEnv(tokens: seq<string>, index: nat, words: Words): (start: nat)
    ensures index <= start && (index <= |tokens| ==> start <= |tokens|)
    decreases |tokens| - index
  {
    if index >= |tokens| then index
    else if tokens[index] == "--" then index + 1
    else
      var width := EnvWidth(tokens[index], words);
      if width == 0 then index
      else if index + width > |tokens| then |tokens|
      else SkipEnv(tokens, index + width, words)
  }

  function UnwrapEnv(tokens: seq<string>, words: Words): (unwrapped: seq<string>)
    ensures unwrapped == tokens || |unwrapped| < |tokens|
  {
    if tokens == [] || Lower(tokens[0]) != "env" then tokens else tokens[SkipEnv(tokens, 1, words)..]
  }

  /** `unwrap_env_command`. */
  method UnwrapEnvCommand(tokens: seq<string>, words: Words) returns (unwrapped: seq<string>)
    ensures unwrapped == UnwrapEnv(tokens, words)
  {
    if tokens == [] || Lower(tokens[0]) != "env" {
      return tokens;
    }
    var index := 1;
    while index < |tokens|
      invariant 1 <= index
      invariant SkipEnv(tokens, 1, words) == if index <= |tokens| then SkipEnv(tokens, index, words) else |tokens|
      decreases |tokens| - index
    {
      if tokens[index] == "--" {
        index := index + 1;
        break;
      }
      var width := EnvWidth(tokens[index], words);
      if width == 0 {
        break;
      }
      index := index + width;
    }
    return if index <= |tokens| then tokens[index..] else [];
  }

  // What `env` is followed by: complete options, and then something that is none.

  /** One option with its value, if it takes one. */
  predicate IsEnvOption(option: seq<string>, words: Words) {
    option != [] && option[0] != "--" && EnvWidth(option[0], words) == |option|
  }

  function Concat(options: seq<seq<string>>): seq<string> {
    if options == [] then [] else options[0] + Concat(options[1..])
  }

  /** No complete option comes first. */
  predicate OptionsEnd(rest: seq<string>, words: Words) {
    rest == [] || rest[0] == "--" || EnvWidth(rest[0], words) == 0 || |rest| < EnvWidth(rest[0], words)
  }

  /** The command in what comes after the options: a `--` is passed over, and an option without its value leaves none. */
  function CommandAfter(rest: seq<string>, words: Words): seq<string> {
    if rest == [] then []
    else if rest[0] == "--" then rest[1..]
    else if EnvWidth(rest[0], words) == 0 then rest
    else []
  }

  predicate IsEnvLine(tokens: seq<string>, options: seq<seq<string>>, rest: seq<string>, words: Words) {
    && tokens == Concat(options) + rest
    && (forall i :: 0 <= i < |options| ==> IsEnvOption(options[i], words))
    && OptionsEnd(rest, words)
  }

  lemma {:induction false} SkipsOptions(
    tokens: seq<string>, index: nat, options: seq<seq<string>>, rest: seq<string>, words: Words)
    requires index <= |tokens| && IsEnvLine(tokens[index..], options, rest, words)
    ensures tokens[SkipEnv(tokens, index, words)..] == CommandAfter(rest, words)
    decreases |options|
  {
    if options == [] {
      assert tokens[index..] == rest;
    } else {
      var option := options[0];
      assert tokens[index..][..|option|] == option;
      assert tokens[index] == option[0];
      assert tokens[index + |option|..] == Concat(options[1..]) + rest;
      SkipsOptions(tokens, index + |option|, options[1..], rest, words);
    }
  }

  /** However the words after `env` are read as complete options and a rest that begins with none, what is left is
      the command in the rest. */
  lemma EnvLeavesItsCommand(
    tokens: seq<string>, options: seq<seq<string>>, rest: seq<string>, words: Words)
    requires tokens != [] && Lower(tokens[0]) == "env" && IsEnvLine(tokens[1..], options, rest, words)
    ensures UnwrapEnv(tokens, words) == CommandAfter(rest, words)
  {
    SkipsOptions(tokens, 1, options, rest, words);
  }

  /** And they can always be read that way. */
  lemma {:induction false} EveryLineIsAnEnvLine(tokens: seq<string>, words: Words)
    returns (options: seq<seq<string>>, rest: seq<string>)
    ensures IsEnvLine(tokens, options, rest, words)
    decreases |tokens|
  {
    options, rest := [], tokens;
    if !OptionsEnd(tokens, words) {
      var width := EnvWidth(tokens[0], words);
      options, rest := EveryLineIsAnEnvLine(tokens[width..], words);
      assert tokens == tokens[..width] + tokens[width..];
      assert ([tokens[..width]] + options)[1..] == options;
      options := [tokens[..width]] + options;
    }
  }

  /** The first word from `index` on that is one of the flags. */
  function FindFlag(tokens: seq<string>, index: nat, flags: set<string>): (found: Option<nat>)
    ensures found.Some? ==> index <= found.value < |tokens| && Lower(tokens[found.value]) in flags
    ensures found.None? ==> forall i :: index <= i < |tokens| ==> Lower(tokens[i]) !in flags
    decreases |tokens| - index
  {
    if index >= |tokens| then None
    else if Lower(tokens[index]) in flags then Some(index)
    else FindFlag(tokens, index + 1, flags)
  }

  function FindWord(tokens: seq<string>, index: nat, word: string): (found: Option<nat>)
    ensures found.Some? ==> index <= found.value < |tokens| && tokens[found.value] == word
    ensures found.None? ==> forall i :: index <= i < |tokens| ==> tokens[i] != word
    decreases |tokens| - index
  {
    if index >= |tokens| then None
    else if tokens[index] == word then Some(index)
    else FindWord(tokens, index + 1, word)
  }

  /** `" ".join`. */
  function Join(tokens: seq<string>): string {
    if tokens == [] then ""
    else if |tokens| == 1 then tokens[0]
    else tokens[0] + " " + Join(tokens[1..])
  }

  /** The nested commands of `_parse_tokens`; the other interpreters nest none. */
  function NestedCommands(tokens: seq<string>, words: Words): seq<string>
    decreases |tokens|
  {
    if tokens == [] then []
    else
      var unwrapped := UnwrapEnv(tokens, words);
      if unwrapped != tokens then NestedCommands(unwrapped, words)
      else
        var executable := Lower(tokens[0]);
        if executable in SHELLS then
          var flag := FindWord(tokens, 1, "-c");
          if flag.Some? && flag.value + 1 < |tokens| then [tokens[flag.value + 1]] else []
        else if executable in POWERSHELLS then
          var flag := FindFlag(tokens, 1, {"-file", "-f", "-command", "-c"});
          if flag.Some? && Lower(tokens[flag.value]) in {"-command", "-c"} && flag.value + 1 < |tokens| then
            var command := tokens[flag.value + 1];
            if words.isAbsolute(command) || words.isPath(command) then [] else [command]
          else []
        else if executable in CMDS then
          var flag := FindFlag(tokens, 1, {"/c", "-c"});
          if flag.Some? && flag.value + 1 < |tokens| then
            var rest := tokens[flag.value + 1..];
            if |rest| == 1 && words.isAbsolute(rest[0]) then [] else [Join(rest)]
          else []
        else []
  }

  lemma {:induction false} TailIsShorter(tokens: seq<string>, start: nat)
    requires start <= |tokens| && (forall i :: 0 <= i < |tokens| ==> tokens[i] != "")
    ensures |Join(tokens[start..])| <= |Join(tokens)|
    ensures 0 < start < |tokens| ==> |Join(tokens[start..])| < |Join(tokens)|
  {
    if start > 0 && |tokens| > 1 {
      TailIsShorter(tokens[1..], start - 1);
      assert tokens[1..][start - 1..] == tokens[start..];
    } else if start > 0 {
      assert tokens[start..] == [];
    } else {
      assert tokens[0..] == tokens;
    }
  }

  lemma WordIsNoLongerThanItsTail(tokens: seq<string>)
    requires tokens != []
    ensures |tokens[0]| <= |Join(tokens)|
  {}

  /** A nested command is shorter than the command it comes from, so that following nested commands ends. */
  lemma {:induction false} NestedIsShorter(tokens: seq<string>, words: Words)
    requires forall i :: 0 <= i < |tokens| ==> tokens[i] != ""
    ensures forall nested :: nested in NestedCommands(tokens, words) ==> |nested| < |Join(tokens)|
    decreases |tokens|
  {
    if tokens != [] {
      var unwrapped := UnwrapEnv(tokens, words);
      if unwrapped != tokens {
        var start := SkipEnv(tokens, 1, words);
        TailIsShorter(tokens, start);
        NestedIsShorter(unwrapped, words);
      } else {
        forall start | 0 < start < |tokens|
          ensures |Join(tokens[start..])| < |Join(tokens)| && |tokens[start]| < |Join(tokens)|
        {
          TailIsShorter(tokens, start);
          WordIsNoLongerThanItsTail(tokens[start..]);
        }
      }
    }
  }
}
