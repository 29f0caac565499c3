/**
 * The command bridge: it reads a command line typed by a user of a home
 * automation front end into a client method name and its arguments, and
 * converts the arguments to the types the client methods take.
 */
module CommandBridge {
  import opened Wrappers
  import opened Text
  import opened Modes

  /** The client methods a command line may name. */
  const ValidCommands: set<string> := {
    "acoustic_correction_off", "acoustic_correction_on", "acoustic_correction_toggle",
    "bypass_off", "bypass_on", "bypass_toggle",
    "dim_off", "dim_on", "dim_toggle",
    "front_display_off", "front_display_on", "front_display_toggle",
    "level_alignment_off", "level_alignment_on", "level_alignment_toggle",
    "mute_off", "mute_on", "mute_toggle",
    "page_down", "page_up", "preset_set",
    "optimization_off", "optimization_on", "optimization_toggle",
    "remapping_mode_set", "source_set", "source_set_by_name",
    "time_alignment_off", "time_alignment_on", "time_alignment_toggle",
    "upmixer_set", "volume_adjust", "volume_down", "volume_percentage_set",
    "volume_ramp", "volume_set", "volume_up"}

  /** The commands whose caller waits for the processor's acknowledgement. */
  const AckRequiredCommands: set<string> := {"power_off", "preset_set", "source_set", "source_set_by_name", "upmixer_set"}

  const EmptyCommandError: string := "Command cannot be empty"

  /** The two sets as declared: every acknowledged command but `power_off` may be named on a command line. */
  lemma CommandSets()
    ensures "power_off" in AckRequiredCommands && "power_off" !in ValidCommands
    ensures AckRequiredCommands - {"power_off"} <= ValidCommands
    ensures "source_set_by_name" in ValidCommands && "source_set_by_name" in AckRequiredCommands
  {
  }

  // ---- Tokenizing ----

  /**
   * The characters `shlex.split` separates words at: space, tab, carriage
   * return and line feed.  Other whitespace, such as a form feed or a
   * no-break space, belongs to a word.
   */
  predicate ShlexBlank(c: char) {
    c == ' ' || c == '\t' || c == '\r' || c == '\n'
  }

  predicate NoBlank(s: string) {
    forall i | 0 <= i < |s| :: !ShlexBlank(s[i])
  }

  /** What is left of `s` after its leading blanks. */
  function SkipBlanks(s: string): (r: string)
    ensures |r| <= |s| && r == s[|s| - |r|..]
    ensures r == [] || !ShlexBlank(r[0])
  {
    if s != [] && ShlexBlank(s[0]) then SkipBlanks(s[1..]) else s
  }

  datatype ParsedCommand = ParsedCommand(methodName: string, args: seq<string>)

  /** The length of the run of non-space characters `s` starts with. */
  function WordEnd(s: string): (n: nat)
    ensures n <= |s| && NoBlank(s[..n]) && (n == |s| || ShlexBlank(s[n]))
  {
    if s == [] || ShlexBlank(s[0]) then 0
    else
      var n := 1 + WordEnd(s[1..]);
      assert forall i | 1 <= i < n :: s[..n][i] == s[1..][..n - 1][i - 1];
      n
  }

  /** The blank-separated words of `s`, in order. */
  function Tokens(s: string): seq<string>
    decreases |s|
  {
    var t := SkipBlanks(s);
    if t == [] then [] else [t[..WordEnd(t)]] + Tokens(t[WordEnd(t)..])
  }

  /** The words are what `shlex.split` yields: none is empty and none holds a blank. */
  lemma {:induction false} TokensAreWords(s: string)
    ensures forall i | 0 <= i < |Tokens(s)| :: IsWord(Tokens(s)[i])
    decreases |s|
  {
    var t := SkipBlanks(s);
    if t != [] {
      var n := WordEnd(t);
      assert IsWord(t[..n]);
      TokensAreWords(t[n..]);
      ConsParts(t[..n], Tokens(t[n..]));
    }
  }

  /** Lower-case letters and underscores, as in every client method name, form a word. */
  lemma LowerSnakeIsWord(w: string)
    requires |w| > 0 && forall i | 0 <= i < |w| :: 'a' <= w[i] <= 'z' || w[i] == '_'
    ensures IsWord(w)
  {
  }

  /** A word of a command line: at least one character and no blank. */
  predicate IsWord(w: string) {
    |w| > 0 && NoBlank(w)
  }

  /** Split a command line into the method name and its arguments; a blank line is refused. */
  function ParseCommand(line: string): (r: Result<ParsedCommand, string>)
    ensures r.Failure? ==> r.error == EmptyCommandError
    ensures r.Success? ==> [r.value.methodName] + r.value.args == Tokens(line)
  {
    var parts := Tokens(line);
    if parts == [] then Failure(EmptyCommandError) else Success(ParsedCommand(parts[0], parts[1..]))
  }

  /** Nothing is left after skipping the leading blanks exactly when the text is all blanks. */
  lemma {:induction false} SkipBlanksEmpty(s: string)
    ensures SkipBlanks(s) == [] <==> forall i | 0 <= i < |s| :: ShlexBlank(s[i])
  {
    if s != [] && ShlexBlank(s[0]) {
      SkipBlanksEmpty(s[1..]);
      assert forall i | 1 <= i < |s| :: s[i] == s[1..][i - 1];
    }
  }

  /** A command line is refused exactly when it is blank. */
  lemma ParseCommandEmpty(line: string)
    ensures ParseCommand(line).Failure? <==> forall i | 0 <= i < |line| :: ShlexBlank(line[i])
  {
    SkipBlanksEmpty(line);
  }

  /** A single word is a method name without arguments. */
  lemma SingleWord(w: string)
    requires IsWord(w)
    ensures ParseCommand(w) == Success(ParsedCommand(w, []))
  {
    TokensCons(w, "");
    assert w + "" == w;
    assert SkipBlanks("") == "";
  }

  /** Whitespace other than the four blanks is part of a word, as in `shlex.split`. */
  lemma OtherWhitespaceIsWordText()
    ensures ParseCommand("\U{0B}") == Success(ParsedCommand("\U{0B}", []))
    ensures ParseCommand("volume\U{0C}-40") == Success(ParsedCommand("volume\U{0C}-40", []))
  {
    var v, f := "\U{0B}", "volume\U{0C}-40";
    assert !ShlexBlank(v[0]);
    assert IsWord(v);
    assert IsWord(f);
    SingleWord(v);
    SingleWord(f);
  }

  /** Spaces before the words do not change them. */
  lemma {:induction false} TokensSkipSpace(s: string)
    requires s != [] && ShlexBlank(s[0])
    ensures Tokens(s) == Tokens(s[1..])
  {
    assert SkipBlanks(s) == SkipBlanks(s[1..]);
  }

  /** A word followed by nothing or by spaces is the first token. */
  lemma TokensCons(w: string, tail: string)
    requires IsWord(w) && (tail == [] || ShlexBlank(tail[0]))
    ensures Tokens(w + tail) == [w] + Tokens(tail)
  {
    var s := w + tail;
    assert s[0] == w[0];
    assert SkipBlanks(s) == s;
    WordEndOf(w, tail);
    assert s[..|w|] == w;
    assert s[|w|..] == tail;
  }

  lemma TokensOfWord(w: string)
    requires IsWord(w)
    ensures Tokens(Join([w], " ")) == [w]
  {
    TokensCons(w, "");
    assert w + "" == w;
    assert SkipBlanks("") == "";
  }

  lemma TokensOfNothing()
    ensures Tokens(Join([], " ")) == []
  {
    assert SkipBlanks("") == "";
  }

  lemma JoinCons(parts: seq<string>, sep: string)
    requires |parts| > 1
    ensures Join(parts, sep) == parts[0] + (sep + Join(parts[1..], sep))
  {
    assert parts[0] + sep + Join(parts[1..], sep) == parts[0] + (sep + Join(parts[1..], sep));
  }

  lemma HeadTail<T>(s: seq<T>)
    requires s != []
    ensures [s[0]] + s[1..] == s
  {
  }

  lemma ConsParts<T>(x: T, s: seq<T>)
    ensures ([x] + s)[0] == x && ([x] + s)[1..] == s
    ensures forall i | 1 <= i <= |s| :: ([x] + s)[i] == s[i - 1]
  {
  }

  /** Joining more than one word puts a space after the first one. */
  lemma TokensOfJoinStep(words: seq<string>)
    requires |words| > 1 && IsWord(words[0])
    ensures Tokens(Join(words, " ")) == [words[0]] + Tokens(Join(words[1..], " "))
  {
    var rest := Join(words[1..], " ");
    JoinCons(words, " ");
    TokensCons(words[0], " " + rest);
    TokensSkipSpace(" " + rest);
    assert (" " + rest)[1..] == rest;
  }

  /** Words without spaces, joined by single spaces, split back into the same words. */
  lemma {:induction false} TokensOfJoin(words: seq<string>)
    requires forall i | 0 <= i < |words| :: IsWord(words[i])
    ensures Tokens(Join(words, " ")) == words
    decreases |words|
  {
    if words == [] {
      TokensOfNothing();
    } else if |words| == 1 {
      TokensOfWord(words[0]);
    } else {
      TokensOfJoinStep(words);
      TokensOfJoin(words[1..]);
      HeadTail(words);
    }
  }

  /** A word followed by nothing or by a space ends where the word ends. */
  lemma {:induction false} WordEndOf(w: string, tail: string)
    requires NoBlank(w) && (tail == [] || ShlexBlank(tail[0]))
    ensures WordEnd(w + tail) == |w|
    decreases |w|
  {
    if w != [] {
      assert (w + tail)[1..] == w[1..] + tail;
      WordEndOf(w[1..], tail);
    } else {
      assert w + tail == tail;
    }
  }

  // ---- Argument conversion ----

  /** An argument as the client method receives it. */
  datatype Arg =
    | BoolArg(flag: bool)
    | IntArg(whole: int)
    | FloatArg(number: real)
    | StrArg(text: string)
    | UpmixerArg(upmixer: UpmixerMode)
    | RemappingArg(remapping: RemappingMode)

  /** `true` or `false` in any case, then an integer, then a decimal, and otherwise the text itself. */
  function CastPrimitive(arg: string): (r: Arg)
    ensures !r.UpmixerArg? && !r.RemappingArg?
    ensures r.BoolArg? <==> Lower(arg) == "true" || Lower(arg) == "false"
    ensures r.BoolArg? ==> r.flag == (Lower(arg) == "true")
    ensures r.StrArg? ==> r.text == arg && PythonInt(arg).None? && PythonFloat(arg).None?
  {
    var lowered := Lower(arg);
    if lowered == "true" then BoolArg(true)
    else if lowered == "false" then BoolArg(false)
    else match PythonInt(arg)
      case Some(n) => IntArg(n)
      case None =>
        match PythonFloat(arg)
        case Some(x) => FloatArg(x)
        case None => StrArg(arg)
  }

  /**
   * Every text `int` accepts is also accepted by `float`, with the same
   * value, so only trying `int` first makes whole numbers integers.
   */
  lemma IntTextIsFloatText(t: string)
    requires PythonInt(t).Some?
    ensures PythonFloat(t) == Some(PythonInt(t).value as real)
  {
    var s := Strip(t);
    var body := if |s| > 0 && (s[0] == '-' || s[0] == '+') then s[1..] else s;
    assert AllDigits(body) && |body| > 0;
    IndexOfSpec(body, '.');
    assert IndexOf(body, '.') == |body|;
    assert body[..|body|] == body;
    assert DecimalValue(body, []) == DigitsValue(body) as real;
  }

  /**
   * A text is cast to an integer exactly when `int` accepts it, and to a
   * float exactly when `float` accepts it but `int` does not; the boolean
   * words come first.
   */
  lemma CastPrecedence(arg: string)
    requires Lower(arg) != "true" && Lower(arg) != "false"
    ensures CastPrimitive(arg).IntArg? <==> PythonInt(arg).Some?
    ensures CastPrimitive(arg).IntArg? ==> CastPrimitive(arg).whole == PythonInt(arg).value
    ensures CastPrimitive(arg).FloatArg? <==> PythonInt(arg).None? && PythonFloat(arg).Some?
    ensures CastPrimitive(arg).FloatArg? ==> CastPrimitive(arg).number == PythonFloat(arg).value
  {
  }

  /** Integers cast back from their own text. */
  lemma CastIntText(n: int)
    ensures CastPrimitive(IntToString(n)) == IntArg(n)
  {
    var s := IntToString(n);
    PythonIntOfIntToString(n);
    assert Lower(s) != "true" by {
      assert IsDigit(s[|s| - 1]) && LowerChar(s[|s| - 1]) == s[|s| - 1];
      assert Lower(s)[|s| - 1] == s[|s| - 1];
    }
    assert Lower(s) != "false" by {
      assert Lower(s)[|s| - 1] == s[|s| - 1];
    }
  }

  // ---- Modes ----

  /** The first upmixer mode in `modes` whose value is `v`. */
  function FindUpmixer(modes: seq<UpmixerMode>, v: string): (r: Option<UpmixerMode>)
    ensures r.Some? ==> r.value in modes && UpmixerValue(r.value) == v
    ensures r.None? ==> forall m | m in modes :: UpmixerValue(m) != v
  {
    if modes == [] then None
    else if UpmixerValue(modes[0]) == v then Some(modes[0])
    else FindUpmixer(modes[1..], v)
  }

  /** The first remapping mode in `modes` whose value, lowercased, is `v`. */
  function FindRemapping(modes: seq<RemappingMode>, v: string): (r: Option<RemappingMode>)
    ensures r.Some? ==> r.value in modes && Lower(RemappingValue(r.value)) == v
    ensures r.None? ==> forall m | m in modes :: Lower(RemappingValue(m)) != v
  {
    if modes == [] then None
    else if Lower(RemappingValue(modes[0])) == v then Some(modes[0])
    else FindRemapping(modes[1..], v)
  }

  function UpmixerValues(): (r: seq<string>)
    ensures |r| == |UpmixerModes|
  {
    seq(|UpmixerModes|, i requires 0 <= i < |UpmixerModes| => UpmixerValue(UpmixerModes[i]))
  }

  function RemappingValues(): (r: seq<string>)
    ensures |r| == |RemappingModes|
  {
    seq(|RemappingModes|, i requires 0 <= i < |RemappingModes| => RemappingValue(RemappingModes[i]))
  }

  /** The upmixer mode a user names, in any case; an unknown name is refused with the valid ones listed. */
  function ParseUpmixerMode(value: string): (r: Result<UpmixerMode, string>)
    ensures r.Failure? ==> r.error == "Invalid upmixer mode '" + value + "'. Valid modes are: " + Join(UpmixerValues(), ", ")
  {
    match FindUpmixer(UpmixerModes, Lower(value))
    case Some(m) => Success(m)
    case None => Failure("Invalid upmixer mode '" + value + "'. Valid modes are: " + Join(UpmixerValues(), ", "))
  }

  /** The remapping mode a user names, in any case; an unknown name is refused with the valid ones listed. */
  function ParseRemappingMode(value: string): (r: Result<RemappingMode, string>)
    ensures r.Failure? ==> r.error == "Invalid remapping mode '" + value + "'. Valid modes are: " + Join(RemappingValues(), ", ")
  {
    match FindRemapping(RemappingModes, Lower(value))
    case Some(m) => Success(m)
    case None => Failure("Invalid remapping mode '" + value + "'. Valid modes are: " + Join(RemappingValues(), ", "))
  }

  /** Every upmixer value is written in lower case. */
  lemma UpmixerValuesLower(m: UpmixerMode)
    ensures Lower(UpmixerValue(m)) == UpmixerValue(m)
  {
    var v := UpmixerValue(m);
    assert forall i | 0 <= i < |v| :: !('A' <= v[i] <= 'Z');
  }

  /**
   * A name is accepted as upmixer mode `m` exactly when it is `m`'s value
   * in some mixture of cases; in particular each value names its own mode.
   */
  lemma ParseUpmixerModeIff(value: string, m: UpmixerMode)
    ensures ParseUpmixerMode(value) == Success(m) <==> Lower(value) == UpmixerValue(m)
    ensures ParseUpmixerMode(UpmixerValue(m)) == Success(m)
  {
    FindUpmixerIff(Lower(value), m);
    UpmixerValuesLower(m);
    FindUpmixerIff(UpmixerValue(m), m);
  }

  lemma FindUpmixerIff(v: string, m: UpmixerMode)
    ensures FindUpmixer(UpmixerModes, v) == Some(m) <==> UpmixerValue(m) == v
  {
    ModesListed(ModeNone, m);
    var r := FindUpmixer(UpmixerModes, v);
    if r.Some? && UpmixerValue(m) == v {
      UpmixerValueInjective(r.value, m);
    }
  }

  /** A name is accepted as remapping mode `m` exactly when it equals `m`'s value up to case. */
  lemma ParseRemappingModeIff(value: string, m: RemappingMode)
    ensures ParseRemappingMode(value) == Success(m) <==> Lower(value) == Lower(RemappingValue(m))
    ensures ParseRemappingMode(RemappingValue(m)) == Success(m)
  {
    FindRemappingIff(Lower(value), m);
    FindRemappingIff(Lower(RemappingValue(m)), m);
  }

  lemma FindRemappingIff(v: string, m: RemappingMode)
    ensures FindRemapping(RemappingModes, v) == Some(m) <==> Lower(RemappingValue(m)) == v
  {
    ModesListed(m, ModeAuto);
    var r := FindRemapping(RemappingModes, v);
    if r.Some? && Lower(RemappingValue(m)) == v {
      RemappingValueInjective(r.value, m);
    }
  }

  lemma LowerTwice(s: string)
    ensures Lower(Lower(s)) == Lower(s)
  {
  }

  lemma UpmixerValueInjective(a: UpmixerMode, b: UpmixerMode)
    requires UpmixerValue(a) == UpmixerValue(b)
    ensures a == b
  {
  }

  lemma RemappingValueInjective(a: RemappingMode, b: RemappingMode)
    requires Lower(RemappingValue(a)) == Lower(RemappingValue(b))
    ensures a == b
  {
  }

  /** `"3d"` names the 3D remapping mode, whose value is written `"3D"`. */
  lemma ModeExamples()
    ensures ParseRemappingMode("3d") == Success(Mode3D)
  {
    assert Lower("3d") == "3d" == Lower(RemappingValue(Mode3D)) by {
      assert Lower("3d")[1] == 'd' && Lower("3D")[1] == 'd';
    }
    ParseRemappingModeIff("3d", Mode3D);
  }

  // ---- Arguments per method ----

  /**
   * The arguments a client method receives: a source name is the words
   * joined back by single spaces, a mode setter parses its first word, and
   * every other method casts each word.
   */
  function NormalizeArgs(methodName: string, args: seq<string>): (r: Result<seq<Arg>, string>)
    ensures methodName == "source_set_by_name" && args != [] ==> r == Success([StrArg(Join(args, " "))])
    ensures methodName == "upmixer_set" && args != [] ==>
      (r.Success? <==> ParseUpmixerMode(args[0]).Success?)
      && (r.Success? ==> r.value == [UpmixerArg(ParseUpmixerMode(args[0]).value)])
      && (r.Failure? ==> r.error == ParseUpmixerMode(args[0]).error)
    ensures methodName == "remapping_mode_set" && args != [] ==>
      (r.Success? <==> ParseRemappingMode(args[0]).Success?)
      && (r.Success? ==> r.value == [RemappingArg(ParseRemappingMode(args[0]).value)])
      && (r.Failure? ==> r.error == ParseRemappingMode(args[0]).error)
    ensures args == [] || methodName !in {"source_set_by_name", "upmixer_set", "remapping_mode_set"} ==>
      r.Success? && |r.value| == |args| && forall i | 0 <= i < |args| :: r.value[i] == CastPrimitive(args[i])
  {
    if methodName == "source_set_by_name" && args != [] then
      Success([StrArg(Join(args, " "))])
    else if methodName == "upmixer_set" && args != [] then
      match ParseUpmixerMode(args[0])
      case Success(m) => Success([UpmixerArg(m)])
      case Failure(e) => Failure(e)
    else if methodName == "remapping_mode_set" && args != [] then
      match ParseRemappingMode(args[0])
      case Success(m) => Success([RemappingArg(m)])
      case Failure(e) => Failure(e)
    else
      Success(seq(|args|, i requires 0 <= i < |args| => CastPrimitive(args[i])))
  }

  /** A line of words is parsed into its first word and the remaining ones. */
  lemma ParseCommandOfJoin(name: string, words: seq<string>)
    requires IsWord(name) && forall i | 0 <= i < |words| :: IsWord(words[i])
    ensures ParseCommand(Join([name] + words, " ")) == Success(ParsedCommand(name, words))
  {
    var line := Join([name] + words, " ");
    assert Tokens(line) == [name] + words by {
      ConsParts(name, words);
      TokensOfJoin([name] + words);
    }
    ParseCommandOfTokens(line, name, words);
  }

  lemma ParseCommandOfTokens(line: string, name: string, words: seq<string>)
    requires Tokens(line) == [name] + words
    ensures ParseCommand(line) == Success(ParsedCommand(name, words))
  {
    ConsParts(name, words);
  }

  lemma SourceSetByNameIsWord()
    ensures IsWord("source_set_by_name")
  {
    LowerSnakeIsWord("source_set_by_name");
  }

  /**
   * A source name made of words separated by single spaces reaches
   * `source_set_by_name` unchanged from the command line that names it.
   */
  lemma SourceNameSurvives(words: seq<string>)
    requires words != [] && forall i | 0 <= i < |words| :: IsWord(words[i])
    ensures var line := Join(["source_set_by_name"] + words, " ");
      ParseCommand(line) == Success(ParsedCommand("source_set_by_name", words))
      && NormalizeArgs("source_set_by_name", ParseCommand(line).value.args) == Success([StrArg(Join(words, " "))])
  {
    SourceSetByNameIsWord();
    ParseCommandOfJoin("source_set_by_name", words);
  }
}
