/**
 * The message factory of the older client.  Its rules are tried in order
 * and each one only has to match a prefix of the line: there is no end
 * anchor, so whatever follows the part a rule reads is ignored.  A line no
 * rule matches becomes `UnknownMessage(line)`.  One rule can fail: the
 * sampling-rate rule hands arbitrary text to `int`.
 */
module LegacyMessages {
  import opened Wrappers
  import opened Text
  import Protocol

  datatype LegacyMessage =
    | AudiosyncMessage(mode: string)
    | BypassMessage(state: bool)
    | CurrentPresetMessage(index: int)
    | CurrentSourceFormat(formatName: string)
    | CurrentSourceMessage(index: int)
    | DecoderMessage(nonaudio: bool, playable: bool, decoder: string, upmixer: string)
    | DimMessage(state: bool)
    | ErrorMessage(error: string)
    | PresetMessage(index: int, name: string)
    | PresetsClearMessage
    | MuteMessage(state: bool)
    | OKMessage
    | SourceMessage(index: int, name: string)
    | SourcesClearMessage
    | SamplingRateMessage(rate: int)
    | VolumeMessage(volume: real)
    | WelcomeMessage(version: string, id: string)
    | UnknownMessage(rawMessage: string)

  /** The `ValueError` the sampling-rate rule raises, with the text `int` refused. */
  datatype FactoryError = InvalidSamplingRate(text: string)

  // ---- Groups read from the front of a text ----

  /** The length of the run of ASCII digits `s` starts with: a greedy `\d+`. */
  function DigitRun(s: string): (k: nat)
    ensures k <= |s| && AllDigits(s[..k]) && (k == |s| || !IsDigit(s[k]))
  {
    if s == [] || !IsDigit(s[0]) then 0
    else
      var k := 1 + DigitRun(s[1..]);
      assert forall i | 1 <= i < k :: s[..k][i] == s[1..][..k - 1][i - 1];
      k
  }

  /** The length of the run of word characters `s` starts with: a greedy `\w+`. */
  function WordRun(s: string): (k: nat)
    ensures k <= |s| && (forall i | 0 <= i < k :: IsWordChar(s[i])) && (k == |s| || !IsWordChar(s[k]))
  {
    if s == [] || !IsWordChar(s[0]) then 0
    else
      var k := 1 + WordRun(s[1..]);
      assert forall i | 1 <= i < k :: s[i] == s[1..][i - 1];
      k
  }

  /** `(.*)`: the text up to the first newline, since `.` does not match one. */
  function LineText(t: string): (r: string)
    ensures NoNewline(r) && |r| <= |t| && r == t[..|r|]
    ensures |r| < |t| ==> t[|r|] == '\n'
  {
    IndexOfSpec(t, '\n');
    t[..IndexOf(t, '\n')]
  }

  /**
   * `(-?\d+)` at the front of `t`: the value and how many characters it
   * takes.  A minus sign not followed by a digit matches nothing.
   */
  function SignedPrefix(t: string): (r: Option<(int, nat)>)
    ensures r.Some? ==> 0 < r.value.1 <= |t| && (r.value.1 == |t| || !IsDigit(t[r.value.1]))
  {
    if |t| > 0 && t[0] == '-' then
      var k := DigitRun(t[1..]);
      if k == 0 then None else Some((-(DigitsValue(t[1..][..k]) as int), 1 + k))
    else
      var k := DigitRun(t);
      if k == 0 then None else Some((DigitsValue(t[..k]) as int, k))
  }

  /** `\d+(\.\d+)?` at the front of `b`: the fraction is taken only when a digit follows the point. */
  function UnsignedDecimalPrefix(b: string): Option<real> {
    var a := DigitRun(b);
    if a == 0 then None
    else if a < |b| && b[a] == '.' && DigitRun(b[a + 1..]) > 0 then
      Some(DecimalValue(b[..a], b[a + 1..][..DigitRun(b[a + 1..])]))
    else Some(DigitsValue(b[..a]) as real)
  }

  /** `(-?\d+(\.\d+)?)` at the front of `t`, read as the exact decimal it spells. */
  function DecimalPrefix(t: string): Option<real> {
    if |t| > 0 && t[0] == '-' then
      match UnsignedDecimalPrefix(t[1..])
      case Some(x) => Some(-x)
      case None => None
    else UnsignedDecimalPrefix(t)
  }

  /** `(-?\d+): (.*)` at the front of `t`: an index, a colon, a space and a name. */
  function IndexedName(t: string): Option<(int, string)> {
    match SignedPrefix(t)
    case None => None
    case Some((n, k)) => if StartsWith(t[k..], ": ") then Some((n, LineText(t[k + 2..]))) else None
  }

  // ---- One matcher per rule ----

  /** `AUDIOSYNC`, one whitespace character, and the rest of the line as the mode. */
  function MatchAudiosync(s: string): (m: Option<LegacyMessage>)
    ensures m.Some? ==> StartsWith(s, "AUDIOSYNC") && m.value.AudiosyncMessage?
  {
    match Protocol.AfterSpace(s, "AUDIOSYNC")
    case Some(t) => Some(AudiosyncMessage(LineText(t)))
    case None => None
  }

  /** `^kw\s(0|1)`: the digit right after the keyword and one whitespace character. */
  function BinaryPrefix(s: string, kw: string): (b: Option<bool>)
    ensures b.Some? ==> StartsWith(s, kw)
  {
    match Protocol.AfterSpace(s, kw)
    case Some(t) => if |t| > 0 && (t[0] == '0' || t[0] == '1') then Some(t[0] == '1') else None
    case None => None
  }

  /** The keyword, one whitespace character and a signed integer, whatever follows it. */
  function SignedAfter(s: string, kw: string): (n: Option<int>)
    ensures n.Some? ==> StartsWith(s, kw)
  {
    match Protocol.AfterSpace(s, kw)
    case Some(t) => if SignedPrefix(t).Some? then Some(SignedPrefix(t).value.0) else None
    case None => None
  }

  /** `BYPASS`, one whitespace character and the digit 0 or 1. */
  function MatchBypass(s: string): (m: Option<LegacyMessage>)
    ensures m.Some? ==> StartsWith(s, "BYPASS") && m.value.BypassMessage?
  {
    var b := BinaryPrefix(s, "BYPASS");
    if b.Some? then Some(BypassMessage(b.value)) else None
  }

  /** `^CURRENT_PRESET\s(-?\d+)`: the built-in preset's -1 and any other negative index read as 0. */
  function MatchCurrentPreset(s: string): (m: Option<LegacyMessage>)
    ensures m.Some? ==> StartsWith(s, "CURRENT_PRESET") && m.value.CurrentPresetMessage? && m.value.index >= 0
  {
    var n := SignedAfter(s, "CURRENT_PRESET");
    if n.Some? then Some(CurrentPresetMessage(if n.value < 0 then 0 else n.value)) else None
  }

  /** `CURRENT_PROFILE` and a signed index, taken as it is. */
  function MatchCurrentProfile(s: string): (m: Option<LegacyMessage>)
    ensures m.Some? ==> StartsWith(s, "CURRENT_PROFILE") && m.value.CurrentSourceMessage?
  {
    var n := SignedAfter(s, "CURRENT_PROFILE");
    if n.Some? then Some(CurrentSourceMessage(n.value)) else None
  }

  /** `CURRENT_SOURCE_FORMAT_NAME` and the rest of the line as the format. */
  function MatchSourceFormat(s: string): (m: Option<LegacyMessage>)
    ensures m.Some? ==> StartsWith(s, "CURRENT_SOURCE_FORMAT_NAME") && m.value.CurrentSourceFormat?
  {
    match Protocol.AfterSpace(s, "CURRENT_SOURCE_FORMAT_NAME")
    case Some(t) => Some(CurrentSourceFormat(LineText(t)))
    case None => None
  }

  /** The fields after `DECODER NONAUDIO `: the non-audio flag, then the rest. */
  function DecoderFields(t: string): (m: Option<LegacyMessage>)
    ensures m.Some? ==> m.value.DecoderMessage?
  {
    var a := DigitRun(t);
    if a == 0 || !StartsWith(t[a..], " PLAYABLE ") then None
    else DecoderPlayable(DigitsValue(t[..a]) != 0, t[a + 10..])
  }

  /** The playable flag, then the two names. */
  function DecoderPlayable(nonaudio: bool, u: string): (m: Option<LegacyMessage>)
    ensures m.Some? ==> m.value.DecoderMessage? && m.value.nonaudio == nonaudio
  {
    var b := DigitRun(u);
    if b == 0 || !StartsWith(u[b..], " DECODER ") then None
    else DecoderWords(nonaudio, DigitsValue(u[..b]) != 0, u[b + 9..])
  }

  /** A non-empty run of word characters, what `\w+` accepts. */
  predicate IsWordText(w: string) {
    |w| > 0 && forall i | 0 <= i < |w| :: IsWordChar(w[i])
  }

  /** The decoder name, ` UPMIXER ` and the upmixer name, both taken verbatim. */
  function DecoderWords(nonaudio: bool, playable: bool, w: string): (m: Option<LegacyMessage>)
    ensures m.Some? ==> m.value.DecoderMessage? && m.value.nonaudio == nonaudio && m.value.playable == playable
  {
    var d := WordRun(w);
    if d == 0 || !StartsWith(w[d..], " UPMIXER ") then None
    else
      var x := w[d + 9..];
      var e := WordRun(x);
      if e == 0 then None else Some(DecoderMessage(nonaudio, playable, w[..d], x[..e]))
  }

  /** The decoder report: two flags, then a decoder and an upmixer name made of word characters. */
  function MatchDecoder(s: string): (m: Option<LegacyMessage>)
    ensures m.Some? ==> StartsWith(s, "DECODER NONAUDIO ") && m.value.DecoderMessage?
  {
    if StartsWith(s, "DECODER NONAUDIO ") then DecoderFields(s[17..]) else None
  }

  /** `^DIM\s(-?\d+)`: any non-zero value means on. */
  function MatchDim(s: string): (m: Option<LegacyMessage>)
    ensures m.Some? ==> StartsWith(s, "DIM") && m.value.DimMessage?
  {
    var n := SignedAfter(s, "DIM");
    if n.Some? then Some(DimMessage(n.value != 0)) else None
  }

  /** `ERROR: ` and the rest of the line as the error text. */
  function MatchError(s: string): (m: Option<LegacyMessage>)
    ensures m.Some? ==> StartsWith(s, "ERROR: ") && m.value.ErrorMessage?
  {
    if StartsWith(s, "ERROR: ") then Some(ErrorMessage(LineText(s[7..]))) else None
  }

  /** `LABEL`, a signed index, a colon, a space and the preset name. */
  function MatchLabel(s: string): (m: Option<LegacyMessage>)
    ensures m.Some? ==> StartsWith(s, "LABEL") && m.value.PresetMessage?
  {
    match Protocol.AfterSpace(s, "LABEL")
    case None => None
    case Some(t) =>
      match IndexedName(t)
      case Some((n, name)) => Some(PresetMessage(n, name))
      case None => None
  }

  /** A rule that is only a keyword, `^LABELS_CLEAR`, `^OK` and the like. */
  function MatchKeyword(s: string, kw: string, m0: LegacyMessage): (m: Option<LegacyMessage>)
    ensures m.Some? ==> StartsWith(s, kw) && m.value == m0
  {
    if StartsWith(s, kw) then Some(m0) else None
  }

  /** `MUTE`, one whitespace character and the digit 0 or 1. */
  function MatchMute(s: string): (m: Option<LegacyMessage>)
    ensures m.Some? ==> StartsWith(s, "MUTE") && m.value.MuteMessage?
  {
    var b := BinaryPrefix(s, "MUTE");
    if b.Some? then Some(MuteMessage(b.value)) else None
  }

  /** `PROFILE`, a signed index, a colon, a space and the source name. */
  function MatchProfile(s: string): (m: Option<LegacyMessage>)
    ensures m.Some? ==> StartsWith(s, "PROFILE") && m.value.SourceMessage?
  {
    match Protocol.AfterSpace(s, "PROFILE")
    case None => None
    case Some(t) =>
      match IndexedName(t)
      case Some((n, name)) => Some(SourceMessage(n, name))
      case None => None
  }

  /** `^SRATE (.*)` followed by `int(...)`, which refuses text that is not an integer. */
  function MatchSrate(s: string): (m: Option<Result<LegacyMessage, FactoryError>>)
    ensures m.Some? ==> StartsWith(s, "SRATE ")
    ensures m.Some? && m.value.Success? ==> m.value.value.SamplingRateMessage?
  {
    if !StartsWith(s, "SRATE ") then None
    else
      var text := LineText(s[6..]);
      match PythonInt(text)
      case Some(n) => Some(Success(SamplingRateMessage(n)))
      case None => Some(Failure(InvalidSamplingRate(text)))
  }

  /** `VOLUME` and a signed decimal, whatever follows it. */
  function MatchVolume(s: string): (m: Option<LegacyMessage>)
    ensures m.Some? ==> StartsWith(s, "VOLUME") && m.value.VolumeMessage?
  {
    match Protocol.AfterSpace(s, "VOLUME")
    case None => None
    case Some(t) => if DecimalPrefix(t).Some? then Some(VolumeMessage(DecimalPrefix(t).value)) else None
  }

  /**
   * `(\S+), ID (\d+)\)` after the welcome prefix.  The version runs up to
   * the first whitespace, which must be the space after its final comma.
   */
  function WelcomeFields(t: string): (m: Option<LegacyMessage>)
    ensures m.Some? ==> m.value.WelcomeMessage? && AllDigits(m.value.id)
  {
    var k := Protocol.SpaceIndex(t);
    if k < 2 || t[k - 1] != ',' || !StartsWith(t[k..], " ID ") then None
    else
      var r := t[k + 4..];
      var d := DigitRun(r);
      if d == 0 || d == |r| || r[d] != ')' then None else Some(WelcomeMessage(t[..k - 1], r[..d]))
  }

  /** The welcome banner with its version and numeric id, whatever follows the closing parenthesis. */
  function MatchWelcome(s: string): (m: Option<LegacyMessage>)
    ensures m.Some? ==> StartsWith(s, Protocol.WelcomePrefix) && m.value.WelcomeMessage?
  {
    if StartsWith(s, Protocol.WelcomePrefix) then WelcomeFields(s[|Protocol.WelcomePrefix|..]) else None
  }

  // ---- The rules in order ----

  datatype LegacyRule =
    | AudiosyncRule | BypassRule | CurrentPresetRule | CurrentProfileRule | SourceFormatRule
    | DecoderRule | DimRule | ErrorRule | LabelRule | LabelsClearRule | MuteRule | OkRule
    | ProfileRule | ProfilesClearRule | SrateRule | VolumeRule | WelcomeRule

  /** The rules in the order the factory tries them. */
  const FactoryRules: seq<LegacyRule> := [
    AudiosyncRule, BypassRule, CurrentPresetRule, CurrentProfileRule, SourceFormatRule,
    DecoderRule, DimRule, ErrorRule, LabelRule, LabelsClearRule, MuteRule, OkRule,
    ProfileRule, ProfilesClearRule, SrateRule, VolumeRule, WelcomeRule]

  /** The literal text every line a rule accepts starts with. */
  function Keyword(r: LegacyRule): string {
    match r
    case AudiosyncRule => "AUDIOSYNC"
    case BypassRule => "BYPASS"
    case CurrentPresetRule => "CURRENT_PRESET"
    case CurrentProfileRule => "CURRENT_PROFILE"
    case SourceFormatRule => "CURRENT_SOURCE_FORMAT_NAME"
    case DecoderRule => "DECODER NONAUDIO "
    case DimRule => "DIM"
    case ErrorRule => "ERROR: "
    case LabelRule => "LABEL"
    case LabelsClearRule => "LABELS_CLEAR"
    case MuteRule => "MUTE"
    case OkRule => "OK"
    case ProfileRule => "PROFILE"
    case ProfilesClearRule => "PROFILES_CLEAR"
    case SrateRule => "SRATE "
    case VolumeRule => "VOLUME"
    case WelcomeRule => Protocol.WelcomePrefix
  }

  /** The first character of each rule's keyword. */
  function Initial(r: LegacyRule): char {
    match r
    case AudiosyncRule => 'A'
    case BypassRule => 'B'
    case CurrentPresetRule => 'C'
    case CurrentProfileRule => 'C'
    case SourceFormatRule => 'C'
    case DecoderRule => 'D'
    case DimRule => 'D'
    case ErrorRule => 'E'
    case LabelRule => 'L'
    case LabelsClearRule => 'L'
    case MuteRule => 'M'
    case OkRule => 'O'
    case ProfileRule => 'P'
    case ProfilesClearRule => 'P'
    case SrateRule => 'S'
    case VolumeRule => 'V'
    case WelcomeRule => 'W'
  }

  /** A matcher that cannot fail, seen as a rule that cannot raise. */
  function Lift(m: Option<LegacyMessage>): Option<Result<LegacyMessage, FactoryError>> {
    if m.Some? then Some(Success(m.value)) else None
  }

  /** What one rule makes of a line it matches; `None` when it does not match. */
  function RuleMatch(r: LegacyRule, s: string): Option<Result<LegacyMessage, FactoryError>> {
    match r
    case AudiosyncRule => Lift(MatchAudiosync(s))
    case BypassRule => Lift(MatchBypass(s))
    case CurrentPresetRule => Lift(MatchCurrentPreset(s))
    case CurrentProfileRule => Lift(MatchCurrentProfile(s))
    case SourceFormatRule => Lift(MatchSourceFormat(s))
    case DecoderRule => Lift(MatchDecoder(s))
    case DimRule => Lift(MatchDim(s))
    case ErrorRule => Lift(MatchError(s))
    case LabelRule => Lift(MatchLabel(s))
    case LabelsClearRule => Lift(MatchKeyword(s, "LABELS_CLEAR", PresetsClearMessage))
    case MuteRule => Lift(MatchMute(s))
    case OkRule => Lift(MatchKeyword(s, "OK", OKMessage))
    case ProfileRule => Lift(MatchProfile(s))
    case ProfilesClearRule => Lift(MatchKeyword(s, "PROFILES_CLEAR", SourcesClearMessage))
    case SrateRule => MatchSrate(s)
    case VolumeRule => Lift(MatchVolume(s))
    case WelcomeRule => Lift(MatchWelcome(s))
  }

  /**
   * Every rule only accepts lines that start with its keyword, never builds
   * an unknown message, and only the sampling-rate rule can raise.
   */
  lemma RuleMatchShape(r: LegacyRule, s: string)
    ensures RuleMatch(r, s).Some? ==> StartsWith(s, Keyword(r))
    ensures RuleMatch(r, s).Some? && RuleMatch(r, s).value.Success? ==> !RuleMatch(r, s).value.value.UnknownMessage?
    ensures RuleMatch(r, s).Some? && RuleMatch(r, s).value.Failure? ==> r == SrateRule
  {
  }

  /** The first rule of `rules` that matches decides; a line none matches is unknown. */
  function FactoryFrom(s: string, rules: seq<LegacyRule>): Result<LegacyMessage, FactoryError> {
    if rules == [] then Success(UnknownMessage(s))
    else
      match RuleMatch(rules[0], s)
      case Some(result) => result
      case None => FactoryFrom(s, rules[1..])
  }

  /** `message_factory`: the message a line stands for, or the error the sampling-rate rule raises. */
  function MessageFactory(message: string): Result<LegacyMessage, FactoryError> {
    FactoryFrom(message, FactoryRules)
  }

  // ---- Properties of the rule order ----

  /** A rule cannot match a line that starts with a character other than its keyword's. */
  lemma MissByInitial(r: LegacyRule, s: string)
    requires s != [] && s[0] != Initial(r)
    ensures RuleMatch(r, s).None?
  {
    KeywordInitial(r);
    RuleMatchShape(r, s);
  }

  lemma KeywordInitial(r: LegacyRule)
    ensures |Keyword(r)| > 0 && Keyword(r)[0] == Initial(r)
  {
  }

  /**
   * A line becomes `UnknownMessage` carrying the line exactly when no rule
   * matches it; no rule builds an unknown message itself.
   */
  lemma {:induction false} UnknownIffNoRule(s: string, rules: seq<LegacyRule>)
    ensures FactoryFrom(s, rules) == Success(UnknownMessage(s)) <==> forall r | r in rules :: RuleMatch(r, s).None?
    decreases |rules|
  {
    if rules != [] {
      RuleMatchShape(rules[0], s);
      UnknownIffNoRule(s, rules[1..]);
      assert forall r | r in rules :: r == rules[0] || r in rules[1..];
    }
  }

  /** The factory fails only on a sampling-rate line whose text `int` refuses. */
  lemma {:induction false} FailureOnlyFromSrate(s: string, rules: seq<LegacyRule>)
    ensures FactoryFrom(s, rules).Failure? ==>
      StartsWith(s, "SRATE ") && PythonInt(LineText(s[6..])).None?
      && FactoryFrom(s, rules).error == InvalidSamplingRate(LineText(s[6..]))
    decreases |rules|
  {
    if rules != [] {
      RuleMatchShape(rules[0], s);
      if RuleMatch(rules[0], s).None? {
        FailureOnlyFromSrate(s, rules[1..]);
      }
    }
  }

  // ---- What the prefix groups read ----

  /** A greedy `\d+` stops exactly where the digits do. */
  lemma {:induction false} DigitRunOf(d: string, rest: string)
    requires AllDigits(d)
    requires rest == [] || !IsDigit(rest[0])
    ensures DigitRun(d + rest) == |d|
    decreases |d|
  {
    if d != [] {
      assert (d + rest)[1..] == d[1..] + rest;
      DigitRunOf(d[1..], rest);
    } else {
      assert d + rest == rest;
    }
  }

  /** A greedy `\w+` stops exactly where the word characters do. */
  lemma {:induction false} WordRunOf(w: string, rest: string)
    requires forall i | 0 <= i < |w| :: IsWordChar(w[i])
    requires rest == [] || !IsWordChar(rest[0])
    ensures WordRun(w + rest) == |w|
    decreases |w|
  {
    if w != [] {
      assert (w + rest)[1..] == w[1..] + rest;
      WordRunOf(w[1..], rest);
    } else {
      assert w + rest == rest;
    }
  }

  /** `(.*)` takes all of a text without newlines. */
  lemma LineTextOfLine(t: string)
    requires NoNewline(t)
    ensures LineText(t) == t
  {
  }

  /**
   * `(-?\d+)` at the front of a text reads the same integer as the anchored
   * `-?\d+`, provided what follows is not a digit.
   */
  lemma SignedPrefixOf(t: string, rest: string)
    requires ParseSignedInt(t).Some?
    requires rest == [] || !IsDigit(rest[0])
    ensures SignedPrefix(t + rest) == Some((ParseSignedInt(t).value, |t|))
  {
    ParseSignedIntShape(t);
    var s := t + rest;
    if t[0] == '-' {
      assert s[1..] == t[1..] + rest;
      DigitRunOf(t[1..], rest);
      assert s[1..][..|t| - 1] == t[1..];
    } else {
      DigitRunOf(t, rest);
      assert s[..|t|] == t;
    }
  }

  /** Digits with a point and more digits, followed by text that does not continue them, read as written. */
  lemma FractionPrefixOf(ip: string, fp: string, rest: string)
    requires |ip| > 0 && |fp| > 0 && AllDigits(ip) && AllDigits(fp)
    requires rest == [] || (!IsDigit(rest[0]) && rest[0] != '.')
    ensures UnsignedDecimalPrefix(ip + "." + fp + rest) == Some(DecimalValue(ip, fp))
  {
    var s := ip + "." + fp + rest;
    assert s == ip + ("." + fp + rest);
    assert DigitRun(s) == |ip| && s[..|ip|] == ip && s[|ip|] == '.' by {
      DigitRunOf(ip, "." + fp + rest);
    }
    assert s[|ip| + 1..] == fp + rest;
    assert DigitRun(fp + rest) == |fp| && (fp + rest)[..|fp|] == fp by {
      DigitRunOf(fp, rest);
    }
  }

  /** An unsigned decimal followed by text that does not continue it reads as the anchored parse does. */
  lemma UnsignedDecimalPrefixOf(b: string, rest: string)
    requires ParseUnsignedDecimal(b).Some?
    requires rest == [] || (!IsDigit(rest[0]) && rest[0] != '.')
    ensures UnsignedDecimalPrefix(b + rest) == ParseUnsignedDecimal(b)
  {
    IndexOfSpec(b, '.');
    var dot := IndexOf(b, '.');
    var ip := b[..dot];
    if dot == |b| {
      assert ip == b;
      assert ParseUnsignedDecimal(b) == Some(DigitsValue(b) as real);
      assert DigitRun(b + rest) == |b| && (b + rest)[..|b|] == b by {
        DigitRunOf(b, rest);
      }
    } else {
      var fp := b[dot + 1..];
      assert ParseUnsignedDecimal(b) == Some(DecimalValue(ip, fp));
      assert b + rest == ip + "." + fp + rest by {
        assert b == ip + "." + fp;
      }
      FractionPrefixOf(ip, fp, rest);
    }
  }

  /**
   * `(-?\d+(\.\d+)?)` at the front of a text reads the same number as the
   * anchored decimal parse, provided what follows does not continue it.
   */
  lemma DecimalPrefixOf(t: string, rest: string)
    requires ParseDecimal(t).Some?
    requires rest == [] || (!IsDigit(rest[0]) && rest[0] != '.')
    ensures DecimalPrefix(t + rest) == ParseDecimal(t)
  {
    var s := t + rest;
    if |t| > 0 && t[0] == '-' {
      assert s[0] == '-' && s[1..] == t[1..] + rest;
      UnsignedDecimalPrefixOf(t[1..], rest);
    } else {
      UnsignedDecimalPrefixOf(t, rest);
      assert s[0] == t[0];
    }
  }

  // ---- What the factory makes of particular lines ----

  /** When only `r` accepts a line, the factory's answer is `r`'s wherever `r` stands in `rules`. */
  lemma {:induction false} SelectOnly(s: string, rules: seq<LegacyRule>, r: LegacyRule)
    requires r in rules && RuleMatch(r, s).Some?
    requires forall r2 | r2 != r :: RuleMatch(r2, s).None?
    ensures FactoryFrom(s, rules) == RuleMatch(r, s).value
    decreases |rules|
  {
    if rules[0] != r {
      assert r in rules[1..] by {
        var i :| 0 <= i < |rules| && rules[i] == r;
        assert rules[1..][i - 1] == r;
      }
      SelectOnly(s, rules[1..], r);
    }
  }

  /** A rule cannot match a line that differs from its keyword at some position. */
  lemma MissAt(r: LegacyRule, s: string, k: nat)
    requires k < |Keyword(r)| && k < |s| && s[k] != Keyword(r)[k]
    ensures RuleMatch(r, s).None?
  {
    RuleMatchShape(r, s);
  }

  /** A line that one rule accepts starts with that rule's keyword character by character. */
  lemma KeywordAt(r: LegacyRule, s: string, k: nat)
    requires RuleMatch(r, s).Some? && k < |Keyword(r)|
    ensures k < |s| && s[k] == Keyword(r)[k]
  {
    RuleMatchShape(r, s);
    assert s[..|Keyword(r)|][k] == s[k];
  }

  /** `LABEL\s` needs whitespace where `LABELS_CLEAR` has its `S`. */
  lemma LabelRulesExclusive(s: string)
    ensures RuleMatch(LabelRule, s).None? || RuleMatch(LabelsClearRule, s).None?
  {
    if RuleMatch(LabelsClearRule, s).Some? {
      KeywordAt(LabelsClearRule, s, 5);
      assert Protocol.AfterSpace(s, "LABEL").None?;
    }
  }

  /** `PROFILE\s` needs whitespace where `PROFILES_CLEAR` has its `S`. */
  lemma ProfileRulesExclusive(s: string)
    ensures RuleMatch(ProfileRule, s).None? || RuleMatch(ProfilesClearRule, s).None?
  {
    if RuleMatch(ProfilesClearRule, s).Some? {
      KeywordAt(ProfilesClearRule, s, 7);
      assert Protocol.AfterSpace(s, "PROFILE").None?;
    }
  }

  /** `DECODER NONAUDIO ` and `DIM` part ways at their second character. */
  lemma DecoderDimExclusive(s: string)
    ensures RuleMatch(DecoderRule, s).None? || RuleMatch(DimRule, s).None?
  {
    if RuleMatch(DecoderRule, s).Some? {
      KeywordAt(DecoderRule, s, 1);
      MissAt(DimRule, s, 1);
    }
  }

  /** `CURRENT_PRESET` differs from `CURRENT_PROFILE` at the tenth character and from the format rule at the eighth. */
  lemma PresetRuleExclusive(s: string)
    ensures RuleMatch(CurrentPresetRule, s).Some? ==>
      RuleMatch(CurrentProfileRule, s).None? && RuleMatch(SourceFormatRule, s).None?
  {
    if RuleMatch(CurrentPresetRule, s).Some? {
      KeywordAt(CurrentPresetRule, s, 8);
      KeywordAt(CurrentPresetRule, s, 10);
      MissAt(CurrentProfileRule, s, 10);
      MissAt(SourceFormatRule, s, 8);
    }
  }

  /** `CURRENT_PROFILE` differs from the format rule at the eighth character. */
  lemma ProfileFormatExclusive(s: string)
    ensures RuleMatch(CurrentProfileRule, s).None? || RuleMatch(SourceFormatRule, s).None?
  {
    if RuleMatch(CurrentProfileRule, s).Some? {
      KeywordAt(CurrentProfileRule, s, 8);
      MissAt(SourceFormatRule, s, 8);
    }
  }

  /** Two rules with the same initial never accept the same line. */
  lemma SameInitialExclusive(r1: LegacyRule, r2: LegacyRule, s: string)
    requires r1 != r2 && Initial(r1) == Initial(r2) && RuleMatch(r1, s).Some?
    ensures RuleMatch(r2, s).None?
  {
    match r1
    case LabelRule => LabelRulesExclusive(s);
    case LabelsClearRule => LabelRulesExclusive(s);
    case ProfileRule => ProfileRulesExclusive(s);
    case ProfilesClearRule => ProfileRulesExclusive(s);
    case DecoderRule => DecoderDimExclusive(s);
    case DimRule => DecoderDimExclusive(s);
    case CurrentPresetRule => PresetRuleExclusive(s);
    case CurrentProfileRule =>
      PresetRuleExclusive(s);
      ProfileFormatExclusive(s);
    case _ =>
      PresetRuleExclusive(s);
      ProfileFormatExclusive(s);
  }

  /** No line is accepted by two rules: the rules are mutually exclusive. */
  lemma RulesExclusive(r1: LegacyRule, r2: LegacyRule, s: string)
    ensures r1 != r2 && RuleMatch(r1, s).Some? ==> RuleMatch(r2, s).None?
  {
    if r1 != r2 && RuleMatch(r1, s).Some? {
      KeywordInitial(r1);
      KeywordAt(r1, s, 0);
      if Initial(r2) != Initial(r1) {
        MissByInitial(r2, s);
      } else {
        SameInitialExclusive(r1, r2, s);
      }
    }
  }

  /** Where each rule stands in the factory's order. */
  function Position(r: LegacyRule): (i: nat)
    ensures i < |FactoryRules| && FactoryRules[i] == r
  {
    match r
    case AudiosyncRule => 0
    case BypassRule => 1
    case CurrentPresetRule => 2
    case CurrentProfileRule => 3
    case SourceFormatRule => 4
    case DecoderRule => 5
    case DimRule => 6
    case ErrorRule => 7
    case LabelRule => 8
    case LabelsClearRule => 9
    case MuteRule => 10
    case OkRule => 11
    case ProfileRule => 12
    case ProfilesClearRule => 13
    case SrateRule => 14
    case VolumeRule => 15
    case WelcomeRule => 16
  }

  /**
   * Whatever rule accepts a line decides what the factory makes of it: since
   * the rules are exclusive, their order never changes the result.
   */
  lemma RuleDecides(r: LegacyRule, s: string)
    ensures RuleMatch(r, s).Some? ==> MessageFactory(s) == RuleMatch(r, s).value
  {
    if RuleMatch(r, s).Some? {
      forall r2 | r2 != r ensures RuleMatch(r2, s).None? {
        RulesExclusive(r, r2, s);
      }
      assert FactoryRules[Position(r)] == r;
      SelectOnly(s, FactoryRules, r);
    }
  }

  // Each rule decides the lines it accepts, stated on its own matcher.

  lemma AudiosyncDecides(s: string)
    requires MatchAudiosync(s).Some?
    ensures MessageFactory(s) == Success(MatchAudiosync(s).value)
  {
    RuleDecides(AudiosyncRule, s);
  }

  lemma BypassDecides(s: string)
    requires MatchBypass(s).Some?
    ensures MessageFactory(s) == Success(MatchBypass(s).value)
  {
    RuleDecides(BypassRule, s);
  }

  lemma CurrentPresetDecides(s: string)
    requires MatchCurrentPreset(s).Some?
    ensures MessageFactory(s) == Success(MatchCurrentPreset(s).value)
  {
    RuleDecides(CurrentPresetRule, s);
  }

  lemma CurrentProfileDecides(s: string)
    requires MatchCurrentProfile(s).Some?
    ensures MessageFactory(s) == Success(MatchCurrentProfile(s).value)
  {
    RuleDecides(CurrentProfileRule, s);
  }

  lemma DimDecides(s: string)
    requires MatchDim(s).Some?
    ensures MessageFactory(s) == Success(MatchDim(s).value)
  {
    RuleDecides(DimRule, s);
  }

  lemma LabelDecides(s: string)
    requires MatchLabel(s).Some?
    ensures MessageFactory(s) == Success(MatchLabel(s).value)
  {
    RuleDecides(LabelRule, s);
  }

  lemma MuteDecides(s: string)
    requires MatchMute(s).Some?
    ensures MessageFactory(s) == Success(MatchMute(s).value)
  {
    RuleDecides(MuteRule, s);
  }

  lemma ProfileDecides(s: string)
    requires MatchProfile(s).Some?
    ensures MessageFactory(s) == Success(MatchProfile(s).value)
  {
    RuleDecides(ProfileRule, s);
  }

  lemma VolumeDecides(s: string)
    requires MatchVolume(s).Some?
    ensures MessageFactory(s) == Success(MatchVolume(s).value)
  {
    RuleDecides(VolumeRule, s);
  }

  /** `^kw\s(-?\d+)` reads an integer and ignores whatever non-digit text follows it. */
  lemma SignedAfterOf(kw: string, head: string, n: int, rest: string)
    requires head == kw + " " && (rest == [] || !IsDigit(rest[0]))
    ensures SignedAfter(head + IntToString(n) + rest, kw) == Some(n)
  {
    var t := IntToString(n) + rest;
    assert head + IntToString(n) + rest == kw + " " + t;
    Protocol.AfterSpaceOf(kw, t);
    IntToStringRoundTrip(n);
    SignedPrefixOf(IntToString(n), rest);
  }

  /**
   * `CURRENT_PRESET <n>` selects preset `n`, except that the built-in
   * preset's -1, and any other negative index, becomes preset 0.
   */
  lemma CurrentPresetClamped(n: int, rest: string)
    requires rest == [] || !IsDigit(rest[0])
    ensures MessageFactory("CURRENT_PRESET " + IntToString(n) + rest)
      == Success(CurrentPresetMessage(if n < 0 then 0 else n))
  {
    SignedAfterOf("CURRENT_PRESET", "CURRENT_PRESET ", n, rest);
    CurrentPresetDecides("CURRENT_PRESET " + IntToString(n) + rest);
  }

  /** `CURRENT_PROFILE <n>` selects source `n` as it stands, negative or not. */
  lemma CurrentProfileUnclamped(n: int, rest: string)
    requires rest == [] || !IsDigit(rest[0])
    ensures MessageFactory("CURRENT_PROFILE " + IntToString(n) + rest) == Success(CurrentSourceMessage(n))
  {
    SignedAfterOf("CURRENT_PROFILE", "CURRENT_PROFILE ", n, rest);
    CurrentProfileDecides("CURRENT_PROFILE " + IntToString(n) + rest);
  }

  /** `DIM <n>` means on for every non-zero `n`. */
  lemma DimNonZero(n: int, rest: string)
    requires rest == [] || !IsDigit(rest[0])
    ensures MessageFactory("DIM " + IntToString(n) + rest) == Success(DimMessage(n != 0))
  {
    SignedAfterOf("DIM", "DIM ", n, rest);
    DimDecides("DIM " + IntToString(n) + rest);
  }

  /** `^kw\s(0|1)` reads the digit after the keyword and ignores the rest of the line. */
  lemma BinaryPrefixOf(kw: string, head: string, c: char, rest: string)
    requires head == kw + " " && (c == '0' || c == '1')
    ensures BinaryPrefix(head + [c] + rest, kw) == Some(c == '1')
  {
    assert head + [c] + rest == kw + " " + ([c] + rest);
    Protocol.AfterSpaceOf(kw, [c] + rest);
  }

  /** `BYPASS` reads the one digit after the keyword and ignores the rest of the line. */
  lemma BypassIgnoresTrailing(c: char, rest: string)
    requires c == '0' || c == '1'
    ensures MessageFactory("BYPASS " + [c] + rest) == Success(BypassMessage(c == '1'))
  {
    BinaryPrefixOf("BYPASS", "BYPASS ", c, rest);
    BypassDecides("BYPASS " + [c] + rest);
  }

  /** `MUTE` reads the one digit after the keyword and ignores the rest of the line. */
  lemma MuteIgnoresTrailing(c: char, rest: string)
    requires c == '0' || c == '1'
    ensures MessageFactory("MUTE " + [c] + rest) == Success(MuteMessage(c == '1'))
  {
    BinaryPrefixOf("MUTE", "MUTE ", c, rest);
    MuteDecides("MUTE " + [c] + rest);
  }

  /** Any line starting with `OK` is an acknowledgement, whatever follows. */
  lemma OkIgnoresTrailing(rest: string)
    ensures MessageFactory("OK" + rest) == Success(OKMessage)
  {
    var s := "OK" + rest;
    assert s[..2] == "OK";
    RuleDecides(OkRule, s);
  }

  /** `AUDIOSYNC <t>` keeps the whole first line of `t` as the mode, spaces included. */
  lemma AudiosyncTakesLine(t: string)
    ensures MessageFactory("AUDIOSYNC " + t) == Success(AudiosyncMessage(LineText(t)))
  {
    var s := "AUDIOSYNC " + t;
    assert s == "AUDIOSYNC" + " " + t;
    Protocol.AfterSpaceOf("AUDIOSYNC", t);
    AudiosyncDecides(s);
  }

  /** `(-?\d+): (.*)` reads an index and a name written the way the processor writes them. */
  lemma IndexedNameOf(n: int, name: string)
    requires NoNewline(name)
    ensures IndexedName(IntToString(n) + ": " + name) == Some((n, name))
  {
    var digits := IntToString(n);
    var t := digits + ": " + name;
    assert t == digits + (": " + name);
    IntToStringRoundTrip(n);
    SignedPrefixOf(digits, ": " + name);
    assert t[|digits|..] == ": " + name;
    assert t[|digits| + 2..] == name;
    LineTextOfLine(name);
  }

  /** What follows `kw ` in a listing line is an index, a colon, a space and the name. */
  lemma IndexedAfter(kw: string, head: string, n: int, name: string)
    requires head == kw + " " && NoNewline(name)
    ensures Protocol.AfterSpace(head + IntToString(n) + ": " + name, kw) == Some(IntToString(n) + ": " + name)
    ensures IndexedName(IntToString(n) + ": " + name) == Some((n, name))
  {
    var t := IntToString(n) + ": " + name;
    IndexedNameOf(n, name);
    assert head + IntToString(n) + ": " + name == kw + " " + t;
    Protocol.AfterSpaceOf(kw, t);
  }

  /** `LABEL <n>: <name>` lists a preset. */
  lemma LabelEntry(n: int, name: string)
    requires NoNewline(name)
    ensures MessageFactory("LABEL " + IntToString(n) + ": " + name) == Success(PresetMessage(n, name))
  {
    LabelLine(n, name);
    LabelDecides("LABEL " + IntToString(n) + ": " + name);
  }

  lemma LabelLine(n: int, name: string)
    requires NoNewline(name)
    ensures MatchLabel("LABEL " + IntToString(n) + ": " + name) == Some(PresetMessage(n, name))
  {
    IndexedAfter("LABEL", "LABEL ", n, name);
  }

  /** `PROFILE <n>: <name>` lists a source. */
  lemma ProfileEntry(n: int, name: string)
    requires NoNewline(name)
    ensures MessageFactory("PROFILE " + IntToString(n) + ": " + name) == Success(SourceMessage(n, name))
  {
    ProfileLine(n, name);
    ProfileDecides("PROFILE " + IntToString(n) + ": " + name);
  }

  lemma ProfileLine(n: int, name: string)
    requires NoNewline(name)
    ensures MatchProfile("PROFILE " + IntToString(n) + ": " + name) == Some(SourceMessage(n, name))
  {
    IndexedAfter("PROFILE", "PROFILE ", n, name);
  }

  /**
   * `PROFILE <n>` without a name, which the newer protocol uses for the
   * current source, matches no rule here and stays unknown.
   */
  lemma ProfileIndexUnknown(n: int)
    ensures MessageFactory("PROFILE " + IntToString(n)) == Success(UnknownMessage("PROFILE " + IntToString(n)))
  {
    var s := "PROFILE " + IntToString(n);
    ProfileIndexLine(n);
    assert s[7] == ' ';
    MissAt(ProfilesClearRule, s, 7);
    OnlyProfileRulesLeft(s);
  }

  lemma ProfileIndexLine(n: int)
    ensures MatchProfile("PROFILE " + IntToString(n)).None?
  {
    var t := IntToString(n);
    assert "PROFILE " + t == "PROFILE" + " " + t;
    Protocol.AfterSpaceOf("PROFILE", t);
    IntToStringRoundTrip(n);
    SignedPrefixOf(t, []);
    assert t + [] == t;
  }

  /** A line starting with `P` that both `PROFILE` rules refuse matches no rule at all. */
  lemma OnlyProfileRulesLeft(s: string)
    requires s != [] && s[0] == 'P'
    requires RuleMatch(ProfileRule, s).None? && RuleMatch(ProfilesClearRule, s).None?
    ensures MessageFactory(s) == Success(UnknownMessage(s))
  {
    forall r | r in FactoryRules ensures RuleMatch(r, s).None? {
      if r != ProfileRule && r != ProfilesClearRule {
        MissByInitial(r, s);
      }
    }
    UnknownIffNoRule(s, FactoryRules);
  }

  /** A sampling-rate line fails exactly when `int` refuses its text. */
  lemma SrateFailsIff(t: string)
    ensures MessageFactory("SRATE " + t).Failure? <==> PythonInt(LineText(t)).None?
    ensures MessageFactory("SRATE " + t).Success? ==> MessageFactory("SRATE " + t).value == SamplingRateMessage(PythonInt(LineText(t)).value)
  {
    SrateLine(t);
    RuleDecides(SrateRule, "SRATE " + t);
  }

  lemma SrateLine(t: string)
    ensures MatchSrate("SRATE " + t) ==
      match PythonInt(LineText(t))
      case Some(n) => Some(Success(SamplingRateMessage(n)))
      case None => Some(Failure(InvalidSamplingRate(LineText(t))))
  {
    var s := "SRATE " + t;
    assert s[..6] == "SRATE " && s[6..] == t;
  }

  /** `VOLUME <x>` reads the decimal `x`, ignoring text after it that does not continue the number. */
  lemma VolumeReadsDecimal(t: string, rest: string)
    requires ParseDecimal(t).Some?
    requires rest == [] || (!IsDigit(rest[0]) && rest[0] != '.')
    ensures MessageFactory("VOLUME " + t + rest) == Success(VolumeMessage(ParseDecimal(t).value))
  {
    VolumeLine(t, rest);
    VolumeDecides("VOLUME " + t + rest);
  }

  lemma VolumeLine(t: string, rest: string)
    requires ParseDecimal(t).Some?
    requires rest == [] || (!IsDigit(rest[0]) && rest[0] != '.')
    ensures MatchVolume("VOLUME " + t + rest) == Some(VolumeMessage(ParseDecimal(t).value))
  {
    assert "VOLUME " + t + rest == "VOLUME" + " " + (t + rest);
    Protocol.AfterSpaceOf("VOLUME", t + rest);
    DecimalPrefixOf(t, rest);
  }

  /** A run of digits ends where a separator that does not start with a digit begins. */
  lemma DigitsThen(a: string, sep: string, x: string)
    requires |a| > 0 && AllDigits(a) && |sep| > 0 && !IsDigit(sep[0])
    ensures DigitRun(a + (sep + x)) == |a| && (a + (sep + x))[..|a|] == a
    ensures StartsWith((a + (sep + x))[|a|..], sep) && (a + (sep + x))[|a| + |sep|..] == x
  {
    DigitRunOf(a, sep + x);
    assert (a + (sep + x))[|a|..] == sep + x;
  }

  /** A run of word characters ends where a separator that does not start with one begins. */
  lemma WordThen(w: string, sep: string, x: string)
    requires IsWordText(w) && |sep| > 0 && !IsWordChar(sep[0])
    ensures WordRun(w + (sep + x)) == |w| && (w + (sep + x))[..|w|] == w
    ensures StartsWith((w + (sep + x))[|w|..], sep) && (w + (sep + x))[|w| + |sep|..] == x
  {
    WordRunOf(w, sep + x);
    assert (w + (sep + x))[|w|..] == sep + x;
  }

  /** A decoder line: the flags, the decoder name and the upmixer name, and what follows. */
  function LegacyDecoderLine(a: string, b: string, d: string, u: string, rest: string): string {
    "DECODER NONAUDIO " + (a + (" PLAYABLE " + (b + (" DECODER " + (d + (" UPMIXER " + (u + rest)))))))
  }

  lemma DecoderWordsOf(nonaudio: bool, playable: bool, d: string, u: string, rest: string)
    requires IsWordText(d) && IsWordText(u) && (rest == [] || !IsWordChar(rest[0]))
    ensures DecoderWords(nonaudio, playable, d + (" UPMIXER " + (u + rest))) == Some(DecoderMessage(nonaudio, playable, d, u))
  {
    WordThen(d, " UPMIXER ", u + rest);
    assert WordRun(u + rest) == |u| && (u + rest)[..|u|] == u by {
      WordRunOf(u, rest);
    }
  }

  lemma DecoderPlayableOf(nonaudio: bool, b: string, d: string, u: string, rest: string)
    requires |b| > 0 && AllDigits(b) && IsWordText(d) && IsWordText(u) && (rest == [] || !IsWordChar(rest[0]))
    ensures DecoderPlayable(nonaudio, b + (" DECODER " + (d + (" UPMIXER " + (u + rest)))))
      == Some(DecoderMessage(nonaudio, DigitsValue(b) != 0, d, u))
  {
    DigitsThen(b, " DECODER ", d + (" UPMIXER " + (u + rest)));
    DecoderWordsOf(nonaudio, DigitsValue(b) != 0, d, u, rest);
  }

  lemma DecoderFieldsOf(a: string, b: string, d: string, u: string, rest: string)
    requires |a| > 0 && AllDigits(a) && |b| > 0 && AllDigits(b)
    requires IsWordText(d) && IsWordText(u) && (rest == [] || !IsWordChar(rest[0]))
    ensures DecoderFields(a + (" PLAYABLE " + (b + (" DECODER " + (d + (" UPMIXER " + (u + rest)))))))
      == Some(DecoderMessage(DigitsValue(a) != 0, DigitsValue(b) != 0, d, u))
  {
    DigitsThen(a, " PLAYABLE ", b + (" DECODER " + (d + (" UPMIXER " + (u + rest)))));
    DecoderPlayableOf(DigitsValue(a) != 0, b, d, u, rest);
  }

  lemma DecoderLineMatch(a: string, b: string, d: string, u: string, rest: string)
    requires |a| > 0 && AllDigits(a) && |b| > 0 && AllDigits(b)
    requires IsWordText(d) && IsWordText(u) && (rest == [] || !IsWordChar(rest[0]))
    ensures MatchDecoder(LegacyDecoderLine(a, b, d, u, rest)) == Some(DecoderMessage(DigitsValue(a) != 0, DigitsValue(b) != 0, d, u))
  {
    var t := a + (" PLAYABLE " + (b + (" DECODER " + (d + (" UPMIXER " + (u + rest))))));
    var s := LegacyDecoderLine(a, b, d, u, rest);
    assert s[..17] == "DECODER NONAUDIO " && s[17..] == t;
    DecoderFieldsOf(a, b, d, u, rest);
  }

  /**
   * A decoder line gives its two flags as non-zero tests and its decoder and
   * upmixer names exactly as written, with no renaming of codec names.
   */
  lemma DecoderVerbatim(a: string, b: string, d: string, u: string, rest: string)
    requires |a| > 0 && AllDigits(a) && |b| > 0 && AllDigits(b)
    requires IsWordText(d) && IsWordText(u) && (rest == [] || !IsWordChar(rest[0]))
    ensures MessageFactory(LegacyDecoderLine(a, b, d, u, rest)) == Success(DecoderMessage(DigitsValue(a) != 0, DigitsValue(b) != 0, d, u))
  {
    DecoderLineMatch(a, b, d, u, rest);
    DecoderDecides(LegacyDecoderLine(a, b, d, u, rest));
  }

  lemma DecoderDecides(s: string)
    requires MatchDecoder(s).Some?
    ensures MessageFactory(s) == Success(MatchDecoder(s).value)
  {
    RuleDecides(DecoderRule, s);
  }

  /** The decoder rule only accepts names made of word characters. */
  lemma DecoderNamesAreWords(s: string)
    ensures MatchDecoder(s).Some? ==> IsWordText(MatchDecoder(s).value.decoder) && IsWordText(MatchDecoder(s).value.upmixer)
  {
    if StartsWith(s, "DECODER NONAUDIO ") {
      WordsOfDecoderFields(s[17..]);
    }
  }

  lemma WordsOfDecoderFields(t: string)
    ensures DecoderFields(t).Some? ==>
      (IsWordText(DecoderFields(t).value.decoder) && IsWordText(DecoderFields(t).value.upmixer))
  {
    var a := DigitRun(t);
    if a != 0 && StartsWith(t[a..], " PLAYABLE ") {
      WordsOfDecoderPlayable(DigitsValue(t[..a]) != 0, t[a + 10..]);
    }
  }

  lemma WordsOfDecoderWords(nonaudio: bool, playable: bool, w: string)
    ensures DecoderWords(nonaudio, playable, w).Some? ==>
      (IsWordText(DecoderWords(nonaudio, playable, w).value.decoder)
      && IsWordText(DecoderWords(nonaudio, playable, w).value.upmixer))
  {
  }

  lemma WordsOfDecoderPlayable(nonaudio: bool, v: string)
    ensures DecoderPlayable(nonaudio, v).Some? ==>
      (IsWordText(DecoderPlayable(nonaudio, v).value.decoder) && IsWordText(DecoderPlayable(nonaudio, v).value.upmixer))
  {
    var b := DigitRun(v);
    if b != 0 && StartsWith(v[b..], " DECODER ") {
      WordsOfDecoderWords(nonaudio, DigitsValue(v[..b]) != 0, v[b + 9..]);
    }
  }

  /** `OKAY` is read as an acknowledgement. */
  lemma OkayExample()
    ensures MessageFactory("OKAY") == Success(OKMessage)
  {
    OkIgnoresTrailing("AY");
    assert "OK" + "AY" == "OKAY";
  }

  /**
   * A one-line `AUDIOSYNC` reply keeps everything after the keyword as the
   * mode: `AUDIOSYNC STATUS 1` is the mode `STATUS 1`, not `STATUS`.
   */
  lemma AudiosyncKeepsWholeLine(t: string)
    requires NoNewline(t)
    ensures MessageFactory("AUDIOSYNC " + t) == Success(AudiosyncMessage(t))
  {
    AudiosyncTakesLine(t);
    LineTextOfLine(t);
  }
}
