/**
 * The line parser of the Trinnov Altitude text protocol.  A line is tried
 * against an ordered list of anchored shapes; the first shape that matches
 * builds a typed message and a line that no shape matches becomes
 * `Unknown(line)`.  The parser is total: every numeric group is made of
 * digits only, so the integer and decimal conversions cannot fail.
 */
module Protocol {
  import opened Wrappers
  import opened Text

  /**
   * Every message the new pipeline knows.  `Idents`, `MetaPresetLoaded`,
   * `SourcesChanged` and the `origin` of `Source` are read by the
   * normalizer; the line parser below never builds the first three, and it
   * gives every `Source` it builds the origin `"profile"`.
   */
  datatype Message =
    | Audiosync(mode: string)
    | AudiosyncStatus(synchronized: bool)
    | Bypass(state: bool)
    | CurrentPreset(index: int)
    | CurrentSourceFormat(format: string)
    | CurrentSource(index: int)
    | Decoder(nonaudio: bool, playable: bool, decoder: string, upmixer: string)
    | Dim(state: bool)
    | Error(error: string)
    | Bye
    | Mute(state: bool)
    | OK
    | Preset(index: int, name: string)
    | PresetsClear
    | SamplingRate(rate: int)
    | Source(index: int, name: string, origin: string)
    | SourcesClear
    | SpeakerInfo(speakerNumber: int, radius: real, theta: real, phi: real)
    | StartRunning
    | Unknown(rawMessage: string)
    | Volume(volume: real)
    | Welcome(version: string, id: string)
    | Idents(features: seq<string>)
    | MetaPresetLoaded(index: int)
    | SourcesChanged

  /** The origin the parser gives a `PROFILE n: name` line. */
  const ProfileOrigin: string := "profile"

  /** Codec names the processor abbreviates, with the names shown to users. */
  const AudioFormatMapping: map<string, string> := map[
    "ATMOS TrueHD" := "Dolby Atmos/Dolby TrueHD",
    "DTS:X MA" := "DTS:X Master Audio",
    "DTS-HD MA" := "DTS-HD Master Audio",
    "ATMOS DD+" := "Dolby Atmos/Dolby Digital Plus",
    "DD" := "Dolby Digital",
    "TrueHD" := "Dolby TrueHD"
  ]

  /** `AUDIO_FORMAT_MAPPING.get(token, token)`. */
  function DecoderName(token: string): string {
    if token in AudioFormatMapping then AudioFormatMapping[token] else token
  }

  /**
   * The shapes of `PARSER_RULES`, one constructor per pattern.  Each shape
   * is anchored at both ends; "blank" is one whitespace character, "int" an
   * optional minus and ASCII digits, "dec" an int with an optional fraction.
   */
  datatype Rule =
    | AudiosyncStatusRule   // AUDIOSYNC STATUS, blank, 0 or 1
    | AudiosyncRule         // AUDIOSYNC, blank, any text
    | BypassRule            // BYPASS, blank, 0 or 1
    | ByeRule               // BYE alone
    | CurrentPresetRule     // CURRENT_PRESET, blank, int
    | MetaPresetLoadedRule  // META_PRESET_LOADED, blank, int
    | CurrentProfileRule    // CURRENT_PROFILE, blank, int
    | SourceFormatRule      // CURRENT_SOURCE_FORMAT_NAME, blank, any text
    | DecoderRule           // DECODER NONAUDIO digits PLAYABLE digits DECODER text UPMIXER text
    | DimRule               // DIM, blank, int
    | ErrorRule             // "ERROR: " and any text
    | LabelRule             // LABEL, blank, int, ": ", name
    | LabelsClearRule       // LABELS_CLEAR alone
    | MuteRule              // MUTE, blank, 0 or 1
    | OkRule                // OK alone
    | ProfileIndexRule      // PROFILE, blank, int
    | ProfileNameRule       // PROFILE, blank, int, ": ", name
    | ProfilesClearRule     // PROFILES_CLEAR alone
    | SpeakerInfoRule       // SPEAKER_INFO, then digits and three decs, each after a blank
    | SrateRule             // SRATE, blank, digits
    | StartRunningRule      // START_RUNNING alone
    | VolumeRule            // VOLUME, blank, dec
    | WelcomeRule           // the welcome banner with a version (no blanks) and a numeric id

  /** The rules in the order the parser tries them. */
  const ParserRules: seq<Rule> := [
    AudiosyncStatusRule, AudiosyncRule, BypassRule, ByeRule, CurrentPresetRule,
    MetaPresetLoadedRule, CurrentProfileRule, SourceFormatRule, DecoderRule, DimRule,
    ErrorRule, LabelRule, LabelsClearRule, MuteRule, OkRule,
    ProfileIndexRule, ProfileNameRule, ProfilesClearRule, SpeakerInfoRule, SrateRule,
    StartRunningRule, VolumeRule, WelcomeRule
  ]

  const WelcomePrefix: string := "Welcome on Trinnov Optimizer (Version "
  const UpmixerSeparator: string := " UPMIXER "

  /** The literal text every line a rule accepts starts with. */
  function Keyword(r: Rule): string {
    match r
    case AudiosyncStatusRule => "AUDIOSYNC STATUS"
    case AudiosyncRule => "AUDIOSYNC"
    case BypassRule => "BYPASS"
    case ByeRule => "BYE"
    case CurrentPresetRule => "CURRENT_PRESET"
    case MetaPresetLoadedRule => "META_PRESET_LOADED"
    case CurrentProfileRule => "CURRENT_PROFILE"
    case SourceFormatRule => "CURRENT_SOURCE_FORMAT_NAME"
    case DecoderRule => "DECODER NONAUDIO "
    case DimRule => "DIM"
    case ErrorRule => "ERROR: "
    case LabelRule => "LABEL"
    case LabelsClearRule => "LABELS_CLEAR"
    case MuteRule => "MUTE"
    case OkRule => "OK"
    case ProfileIndexRule => "PROFILE"
    case ProfileNameRule => "PROFILE"
    case ProfilesClearRule => "PROFILES_CLEAR"
    case SpeakerInfoRule => "SPEAKER_INFO"
    case SrateRule => "SRATE"
    case StartRunningRule => "START_RUNNING"
    case VolumeRule => "VOLUME"
    case WelcomeRule => WelcomePrefix
  }

  /** `kw\s` at the start of `s`: what follows the keyword and one whitespace character. */
  function AfterSpace(s: string, kw: string): Option<string> {
    if StartsWith(s, kw) && |s| > |kw| && IsSpace(s[|kw|]) then Some(s[|kw| + 1..]) else None
  }

  /** `(0|1)` to the end, converted with `bool(int(...))`. */
  function Binary(s: string): Option<bool> {
    if s == "0" then Some(false) else if s == "1" then Some(true) else None
  }

  /** `(.*)` to the end: any text without a newline. */
  function AnyText(s: string): Option<string> {
    if NoNewline(s) then Some(s) else None
  }

  /** The first index of a whitespace character in `s`, or `|s|`. */
  function SpaceIndex(s: string): (k: nat)
    ensures k <= |s|
  {
    if s == [] then 0 else if IsSpace(s[0]) then 0 else 1 + SpaceIndex(s[1..])
  }

  lemma {:induction false} SpaceIndexSpec(s: string)
    ensures forall i | 0 <= i < SpaceIndex(s) :: !IsSpace(s[i])
    ensures SpaceIndex(s) < |s| ==> IsSpace(s[SpaceIndex(s)])
  {
    if s != [] && !IsSpace(s[0]) {
      SpaceIndexSpec(s[1..]);
      assert forall i | 1 <= i < |s| :: s[i] == s[1..][i - 1];
    }
  }

  /** Whether `p` occurs in `s` at position `j`. */
  predicate OccursAt(s: string, p: string, j: int) {
    0 <= j && j + |p| <= |s| && s[j..j + |p|] == p
  }

  /** The last position at which `p` occurs in `s`, as a greedy `(.*)p` finds it. */
  function LastIndexOf(s: string, p: string): (k: Option<nat>)
    ensures k.Some? ==> k.value + |p| <= |s|
  {
    LastIndexBelow(s, p, |s|)
  }

  /** The last position `k` with `k + |p| <= n` at which `p` occurs in `s`. */
  function LastIndexBelow(s: string, p: string, n: nat): (k: Option<nat>)
    requires n <= |s|
    ensures k.Some? ==> k.value + |p| <= n
    decreases n
  {
    if n < |p| then None
    else if OccursAt(s, p, n - |p|) then Some(n - |p|)
    else LastIndexBelow(s, p, n - 1)
  }

  lemma {:induction false} LastIndexBelowSpec(s: string, p: string, n: nat)
    requires n <= |s|
    ensures LastIndexBelow(s, p, n).Some? ==> OccursAt(s, p, LastIndexBelow(s, p, n).value)
    ensures LastIndexBelow(s, p, n).Some? ==>
      forall j | LastIndexBelow(s, p, n).value < j && j + |p| <= n :: !OccursAt(s, p, j)
    ensures LastIndexBelow(s, p, n).None? ==> forall j | j + |p| <= n :: !OccursAt(s, p, j)
    decreases n
  {
    if n >= |p| && !OccursAt(s, p, n - |p|) {
      LastIndexBelowSpec(s, p, n - 1);
    }
  }

  /** `(-?\d+): (.*)` to the end: an index, a colon, a space and a name. */
  function IndexAndName(s: string): Option<(int, string)> {
    var k := IndexOf(s, ':');
    match ParseSignedInt(s[..k])
    case None => None
    case Some(n) =>
      if StartsWith(s[k..], ": ") && NoNewline(s[k + 2..]) then Some((n, s[k + 2..])) else None
  }

  /** `(\d+)\s(dec)\s(dec)\s(dec)` to the end, with `dec` = `-?\d+(?:\.\d+)?`. */
  function SpeakerFields(s: string): (m: Option<Message>)
    ensures m.Some? ==> m.value.SpeakerInfo? && m.value.speakerNumber >= 0
  {
    var k1 := SpaceIndex(s);
    if k1 == |s| then None else
    var r1 := s[k1 + 1..];
    var k2 := SpaceIndex(r1);
    if k2 == |r1| then None else
    var r2 := r1[k2 + 1..];
    var k3 := SpaceIndex(r2);
    if k3 == |r2| then None else
    match (ParseNat(s[..k1]), ParseDecimal(r1[..k2]), ParseDecimal(r2[..k3]), ParseDecimal(r2[k3 + 1..]))
    case (Some(n), Some(radius), Some(theta), Some(phi)) => Some(SpeakerInfo(n, radius, theta, phi))
    case _ => None
  }

  /**
   * `(\d+)` followed by `sep`, where `sep` starts with a space: a digit run
   * stops at the first space, so the number and what follows `sep`.
   */
  function NatBefore(s: string, sep: string): (r: Option<(nat, string)>)
    ensures r.Some? ==> |r.value.1| < |s|
  {
    var k := IndexOf(s, ' ');
    match ParseNat(s[..k])
    case None => None
    case Some(a) => if StartsWith(s[k..], sep) && |sep| > 0 then Some((a, s[k + |sep|..])) else None
  }

  /** `(\d+) PLAYABLE (\d+) DECODER (.*) UPMIXER (.*)` to the end. */
  function DecoderFields(s: string): (m: Option<Message>)
    ensures m.Some? ==> m.value.Decoder?
  {
    var h := NatBefore(s, " PLAYABLE ");
    if h.None? then None else DecoderPlayable(h.value.0 != 0, h.value.1)
  }

  /** `(\d+) DECODER (.*) UPMIXER (.*)` to the end, after the non-audio flag. */
  function DecoderPlayable(nonaudio: bool, s: string): (m: Option<Message>)
    ensures m.Some? ==> m.value.Decoder? && m.value.nonaudio == nonaudio
  {
    var h := NatBefore(s, " DECODER ");
    if h.None? then None else DecoderNames(nonaudio, h.value.0 != 0, h.value.1)
  }

  /**
   * `(.*) UPMIXER (.*)` to the end.  The first `(.*)` is greedy, so the
   * codec name runs up to the last ` UPMIXER `.
   */
  function DecoderNames(nonaudio: bool, playable: bool, s: string): (m: Option<Message>)
    ensures m.Some? ==> m.value.Decoder? && m.value.nonaudio == nonaudio && m.value.playable == playable
  {
    match LastIndexOf(s, UpmixerSeparator)
    case None => None
    case Some(p) =>
      if NoNewline(s) then Some(Decoder(nonaudio, playable, DecoderName(s[..p]), s[p + |UpmixerSeparator|..]))
      else None
  }

  /** `(\S+), ID (\d+)\)` to the end. */
  function WelcomeFields(s: string): (m: Option<Message>)
    ensures m.Some? ==> m.value.Welcome? && AllDigits(m.value.id)
  {
    var k := SpaceIndex(s);
    if k < 2 || s[k - 1] != ',' || !StartsWith(s[k..], " ID ") then None else
    var r := s[k + 4..];
    if |r| < 2 || r[|r| - 1] != ')' || !AllDigits(r[..|r| - 1]) then None
    else Some(Welcome(s[..k - 1], r[..|r| - 1]))
  }

  /** `kw\s(0|1)$`. */
  function BinaryAfter(s: string, kw: string): Option<bool> {
    match AfterSpace(s, kw)
    case Some(t) => Binary(t)
    case None => None
  }

  /** `kw\s(-?\d+)$`. */
  function SignedAfter(s: string, kw: string): Option<int> {
    match AfterSpace(s, kw)
    case Some(t) => ParseSignedInt(t)
    case None => None
  }

  /** `kw\s(.*)$`. */
  function TextAfter(s: string, kw: string): Option<string> {
    match AfterSpace(s, kw)
    case Some(t) => AnyText(t)
    case None => None
  }

  /** `kw\s(-?\d+): (.*)$`. */
  function LabelAfter(s: string, kw: string): Option<(int, string)> {
    match AfterSpace(s, kw)
    case Some(t) => IndexAndName(t)
    case None => None
  }

  /** `^AUDIOSYNC STATUS\s(0|1)$`. */
  function MatchAudiosyncStatus(s: string): (m: Option<Message>)
    ensures m.Some? ==> StartsWith(s, "AUDIOSYNC STATUS") && m.value.AudiosyncStatus?
  {
    var b := BinaryAfter(s, "AUDIOSYNC STATUS");
    if b.Some? then Some(AudiosyncStatus(b.value)) else None
  }

  /** `^AUDIOSYNC\s(.*)$`. */
  function MatchAudiosync(s: string): (m: Option<Message>)
    ensures m.Some? ==> StartsWith(s, "AUDIOSYNC") && m.value.Audiosync?
  {
    var x := TextAfter(s, "AUDIOSYNC");
    if x.Some? then Some(Audiosync(x.value)) else None
  }

  /** `^BYPASS\s(0|1)$`. */
  function MatchBypass(s: string): (m: Option<Message>)
    ensures m.Some? ==> StartsWith(s, "BYPASS") && m.value.Bypass?
  {
    var b := BinaryAfter(s, "BYPASS");
    if b.Some? then Some(Bypass(b.value)) else None
  }

  /** A keyword that makes up the whole line: `^BYE$`, `^OK$` and the like. */
  function MatchLiteral(s: string, kw: string, m0: Message): (m: Option<Message>)
    ensures m.Some? ==> StartsWith(s, kw) && m.value == m0
  {
    if s == kw then Some(m0) else None
  }

  /** `^kw\s(-?\d+)$` building a preset selection. */
  function MatchPresetIndex(s: string, kw: string): (m: Option<Message>)
    ensures m.Some? ==> StartsWith(s, kw) && m.value.CurrentPreset?
  {
    var n := SignedAfter(s, kw);
    if n.Some? then Some(CurrentPreset(n.value)) else None
  }

  /** `^kw\s(-?\d+)$` building a source selection. */
  function MatchSourceIndex(s: string, kw: string): (m: Option<Message>)
    ensures m.Some? ==> StartsWith(s, kw) && m.value.CurrentSource?
  {
    var n := SignedAfter(s, kw);
    if n.Some? then Some(CurrentSource(n.value)) else None
  }

  /** `^CURRENT_SOURCE_FORMAT_NAME\s(.*)$`. */
  function MatchSourceFormat(s: string): (m: Option<Message>)
    ensures m.Some? ==> StartsWith(s, "CURRENT_SOURCE_FORMAT_NAME") && m.value.CurrentSourceFormat?
  {
    var x := TextAfter(s, "CURRENT_SOURCE_FORMAT_NAME");
    if x.Some? then Some(CurrentSourceFormat(x.value)) else None
  }

  /** `^DECODER NONAUDIO (\d+) PLAYABLE (\d+) DECODER (.*) UPMIXER (.*)$`. */
  function MatchDecoder(s: string): (m: Option<Message>)
    ensures m.Some? ==> StartsWith(s, "DECODER NONAUDIO ") && m.value.Decoder?
  {
    if StartsWith(s, "DECODER NONAUDIO ") then DecoderFields(s[17..]) else None
  }

  /** `^DIM\s(-?\d+)$`: any non-zero value means on. */
  function MatchDim(s: string): (m: Option<Message>)
    ensures m.Some? ==> StartsWith(s, "DIM") && m.value.Dim?
  {
    var n := SignedAfter(s, "DIM");
    if n.Some? then Some(Dim(n.value != 0)) else None
  }

  /** `^ERROR: (.*)$`. */
  function MatchError(s: string): (m: Option<Message>)
    ensures m.Some? ==> StartsWith(s, "ERROR: ") && m.value.Error?
  {
    if StartsWith(s, "ERROR: ") && NoNewline(s[7..]) then Some(Error(s[7..])) else None
  }

  /** `^LABEL\s(-?\d+): (.*)$`. */
  function MatchLabel(s: string): (m: Option<Message>)
    ensures m.Some? ==> StartsWith(s, "LABEL") && m.value.Preset?
  {
    var p := LabelAfter(s, "LABEL");
    if p.Some? then Some(Preset(p.value.0, p.value.1)) else None
  }

  /** `^MUTE\s(0|1)$`. */
  function MatchMute(s: string): (m: Option<Message>)
    ensures m.Some? ==> StartsWith(s, "MUTE") && m.value.Mute?
  {
    var b := BinaryAfter(s, "MUTE");
    if b.Some? then Some(Mute(b.value)) else None
  }

  /** `^PROFILE\s(-?\d+): (.*)$`, a source catalog entry. */
  function MatchProfileName(s: string): (m: Option<Message>)
    ensures m.Some? ==> StartsWith(s, "PROFILE") && m.value.Source? && m.value.origin == ProfileOrigin
  {
    var p := LabelAfter(s, "PROFILE");
    if p.Some? then Some(Source(p.value.0, p.value.1, ProfileOrigin)) else None
  }

  /** `^SPEAKER_INFO\s(\d+)\s(dec)\s(dec)\s(dec)$`. */
  function MatchSpeakerInfo(s: string): (m: Option<Message>)
    ensures m.Some? ==> StartsWith(s, "SPEAKER_INFO") && m.value.SpeakerInfo?
  {
    var t := AfterSpace(s, "SPEAKER_INFO");
    if t.Some? then SpeakerFields(t.value) else None
  }

  /** `^SRATE\s(\d+)$`. */
  function MatchSrate(s: string): (m: Option<Message>)
    ensures m.Some? ==> StartsWith(s, "SRATE") && m.value.SamplingRate? && m.value.rate >= 0
  {
    var t := AfterSpace(s, "SRATE");
    if t.Some? && ParseNat(t.value).Some? then Some(SamplingRate(ParseNat(t.value).value)) else None
  }

  /** `^VOLUME\s(dec)$`. */
  function MatchVolume(s: string): (m: Option<Message>)
    ensures m.Some? ==> StartsWith(s, "VOLUME") && m.value.Volume?
  {
    var t := AfterSpace(s, "VOLUME");
    if t.Some? && ParseDecimal(t.value).Some? then Some(Volume(ParseDecimal(t.value).value)) else None
  }

  /** `^Welcome on Trinnov Optimizer \(Version (\S+), ID (\d+)\)$`. */
  function MatchWelcome(s: string): (m: Option<Message>)
    ensures m.Some? ==> StartsWith(s, WelcomePrefix) && m.value.Welcome?
  {
    if StartsWith(s, WelcomePrefix) then WelcomeFields(s[|WelcomePrefix|..]) else None
  }

  /** The matcher of each rule: the message it builds from a line it matches from start to end. */
  function Matcher(r: Rule): string -> Option<Message> {
    match r
    case AudiosyncStatusRule => MatchAudiosyncStatus
    case AudiosyncRule => MatchAudiosync
    case BypassRule => MatchBypass
    case ByeRule => s => MatchLiteral(s, "BYE", Bye)
    case CurrentPresetRule => s => MatchPresetIndex(s, "CURRENT_PRESET")
    case MetaPresetLoadedRule => s => MatchPresetIndex(s, "META_PRESET_LOADED")
    case CurrentProfileRule => s => MatchSourceIndex(s, "CURRENT_PROFILE")
    case SourceFormatRule => MatchSourceFormat
    case DecoderRule => MatchDecoder
    case DimRule => MatchDim
    case ErrorRule => MatchError
    case LabelRule => MatchLabel
    case LabelsClearRule => s => MatchLiteral(s, "LABELS_CLEAR", PresetsClear)
    case MuteRule => MatchMute
    case OkRule => s => MatchLiteral(s, "OK", OK)
    case ProfileIndexRule => s => MatchSourceIndex(s, "PROFILE")
    case ProfileNameRule => MatchProfileName
    case ProfilesClearRule => s => MatchLiteral(s, "PROFILES_CLEAR", SourcesClear)
    case SpeakerInfoRule => MatchSpeakerInfo
    case SrateRule => MatchSrate
    case StartRunningRule => s => MatchLiteral(s, "START_RUNNING", StartRunning)
    case VolumeRule => MatchVolume
    case WelcomeRule => MatchWelcome
  }

  /** The message rule `r` builds from a line it matches from start to end. */
  function FullMatch(r: Rule, s: string): Option<Message> {
    Matcher(r)(s)
  }

  /** A message the line parser builds: never `Unknown` and never a variant only the normalizer reads. */
  predicate Recognised(m: Message) {
    !m.Unknown? && !m.Idents? && !m.MetaPresetLoaded? && !m.SourcesChanged?
  }

  /** A rule accepts only lines that start with its keyword, and builds a recognised message. */
  lemma FullMatchShape(r: Rule, s: string)
    ensures FullMatch(r, s).Some? ==> StartsWith(s, Keyword(r)) && Recognised(FullMatch(r, s).value)
  {
    match r
    case AudiosyncStatusRule =>
    case AudiosyncRule =>
    case BypassRule =>
    case ByeRule =>
    case CurrentPresetRule =>
    case MetaPresetLoadedRule =>
    case CurrentProfileRule =>
    case SourceFormatRule =>
    case DecoderRule =>
    case DimRule =>
    case ErrorRule =>
    case LabelRule =>
    case LabelsClearRule =>
    case MuteRule =>
    case OkRule =>
    case ProfileIndexRule =>
    case ProfileNameRule =>
    case ProfilesClearRule =>
    case SpeakerInfoRule =>
    case SrateRule =>
    case StartRunningRule =>
    case VolumeRule =>
    case WelcomeRule =>
  }

  predicate EndsWithNewline(s: string) {
    |s| > 0 && s[|s| - 1] == '\n'
  }

  /**
   * `pattern.match(line)` for an anchored pattern: without MULTILINE, `$`
   * also matches just before a newline that ends the line.
   */
  function RuleMatch(r: Rule, line: string): (m: Option<Message>)
    ensures m.Some? ==> Recognised(m.value)
  {
    FullMatchShape(r, line);
    match FullMatch(r, line)
    case Some(m) => Some(m)
    case None =>
      if EndsWithNewline(line) then
        FullMatchShape(r, line[..|line| - 1]);
        FullMatch(r, line[..|line| - 1])
      else None
  }

  /** Whether `r` matches `line` and no rule before it in `ParserRules` does. */
  predicate IsFirstMatch(line: string, i: nat) {
    i < |ParserRules| && RuleMatch(ParserRules[i], line).Some?
    && forall j | 0 <= j < i :: RuleMatch(ParserRules[j], line).None?
  }

  /**
   * The search loop of `parse_message`: what the first of `rules` that
   * `matches` accepts builds, or `None` when none does.
   */
  function FirstMatch(rules: seq<Rule>, matches: Rule -> Option<Message>): (m: Option<Message>)
    ensures m.None? <==> forall i | 0 <= i < |rules| :: matches(rules[i]).None?
    ensures m.Some? ==> exists i | 0 <= i < |rules| :: matches(rules[i]) == m
  {
    if rules == [] then None
    else if matches(rules[0]).Some? then matches(rules[0])
    else
      var m := FirstMatch(rules[1..], matches);
      assert forall i | 1 <= i < |rules| :: rules[i] == rules[1..][i - 1];
      m
  }

  /** Each rule tried on one line. */
  function LineMatcher(line: string): Rule -> Option<Message> {
    r => RuleMatch(r, line)
  }

  /** `parse_message(line)`. */
  function ParseMessage(line: string): (m: Message)
    ensures m.Unknown? ==> m.rawMessage == line
    ensures !m.Idents? && !m.MetaPresetLoaded? && !m.SourcesChanged?
  {
    LineMatcherApplies(line);
    FirstMatchRecognised(ParserRules, LineMatcher(line));
    var r := FirstMatch(ParserRules, LineMatcher(line));
    if r.Some? then r.value else Unknown(line)
  }

  lemma LineMatcherApplies(line: string)
    ensures forall r :: LineMatcher(line)(r) == RuleMatch(r, line)
    ensures forall r :: LineMatcher(line)(r).Some? ==> Recognised(LineMatcher(line)(r).value)
  {
  }

  /** When every rule builds recognised messages, so does the search. */
  lemma FirstMatchRecognised(rules: seq<Rule>, matches: Rule -> Option<Message>)
    requires forall r :: matches(r).Some? ==> Recognised(matches(r).value)
    ensures FirstMatch(rules, matches).Some? ==> Recognised(FirstMatch(rules, matches).value)
  {
  }

  lemma {:induction false} FirstMatchSelects(rules: seq<Rule>, matches: Rule -> Option<Message>, i: nat)
    requires i < |rules| && matches(rules[i]).Some?
    requires forall j | 0 <= j < i :: matches(rules[j]).None?
    ensures FirstMatch(rules, matches) == matches(rules[i])
  {
    if i > 0 {
      assert forall j | 0 <= j < i - 1 :: rules[1..][j] == rules[j + 1];
      FirstMatchSelects(rules[1..], matches, i - 1);
    }
  }

  /** The parser returns what the first matching rule builds. */
  lemma ParseSelectsFirstMatch(line: string, i: nat)
    requires IsFirstMatch(line, i)
    ensures ParseMessage(line) == RuleMatch(ParserRules[i], line).value
  {
    FirstMatchSelects(ParserRules, LineMatcher(line), i);
  }

  /** The converse: an `UnknownMessage` means no rule matched the line. */
  lemma ParseUnknownMisses(line: string)
    requires ParseMessage(line).Unknown?
    ensures forall i | 0 <= i < |ParserRules| :: RuleMatch(ParserRules[i], line).None?
  {
    forall i | 0 <= i < |ParserRules|
      ensures RuleMatch(ParserRules[i], line).None?
    {
      LineMatcherApplies(line);
      assert LineMatcher(line)(ParserRules[i]).None?;
    }
  }

  /** A line that no rule matches is unknown, and kept verbatim. */
  lemma ParseNoMatch(line: string)
    requires forall i | 0 <= i < |ParserRules| :: RuleMatch(ParserRules[i], line).None?
    ensures ParseMessage(line) == Unknown(line)
  {
    LineMatcherApplies(line);
    assert FirstMatch(ParserRules, LineMatcher(line)).None?;
  }

  /** A line that rule `k` misses, as do all the others, is unknown. */
  lemma ParseAllMiss(line: string, k: nat)
    requires k < |ParserRules| && RuleMatch(ParserRules[k], line).None?
    requires forall j | 0 <= j < |ParserRules| && j != k :: RuleMatch(ParserRules[j], line).None?
    ensures ParseMessage(line) == Unknown(line)
  {
    ParseNoMatch(line);
  }

  /** A rule whose keyword the line does not start with does not match it. */
  lemma KeywordMiss(r: Rule, line: string)
    requires !EndsWithNewline(line)
    requires !StartsWith(line, Keyword(r))
    ensures RuleMatch(r, line).None?
  {
    FullMatchShape(r, line);
  }

  /** A rule whose keyword differs from the line at position `k` does not match it. */
  lemma KeywordMissAt(r: Rule, line: string, k: nat)
    requires !EndsWithNewline(line)
    requires k < |Keyword(r)| && k < |line| && line[k] != Keyword(r)[k]
    ensures RuleMatch(r, line).None?
  {
    FullMatchShape(r, line);
  }

  /** The first character of each rule's keyword, in rule order. */
  const RuleInitials: string := "AABBCMCCDDELLMOPPPSSSVW"

  lemma InitialsAgree()
    ensures |RuleInitials| == |ParserRules|
    ensures forall j | 0 <= j < |ParserRules| :: |Keyword(ParserRules[j])| > 0 && Keyword(ParserRules[j])[0] == RuleInitials[j]
  {
    InitialsAgreeBelow();
    InitialsAgreeAbove();
  }

  lemma InitialsAgreeBelow()
    ensures forall j | 0 <= j < 12 :: |Keyword(ParserRules[j])| > 0 && Keyword(ParserRules[j])[0] == RuleInitials[j]
  {
  }

  lemma InitialsAgreeAbove()
    ensures forall j | 12 <= j < 23 :: |Keyword(ParserRules[j])| > 0 && Keyword(ParserRules[j])[0] == RuleInitials[j]
  {
  }

  /** Rule `i` is the first whose keyword starts with its initial. */
  predicate FirstWithInitial(i: nat)
    requires i < |RuleInitials|
  {
    forall j | 0 <= j < i :: RuleInitials[j] != RuleInitials[i]
  }

  /** The rules that come first among those sharing their keyword's initial. */
  lemma FirstsWithInitial()
    ensures FirstWithInitial(0) && FirstWithInitial(2) && FirstWithInitial(4) && FirstWithInitial(5)
    ensures FirstWithInitial(8) && FirstWithInitial(10) && FirstWithInitial(11) && FirstWithInitial(14)
    ensures FirstWithInitial(15) && FirstWithInitial(18) && FirstWithInitial(21) && FirstWithInitial(22)
  {
    FirstsWithInitialBelow();
    FirstsWithInitialAbove();
  }

  lemma FirstsWithInitialBelow()
    ensures FirstWithInitial(0) && FirstWithInitial(2) && FirstWithInitial(4) && FirstWithInitial(5)
    ensures FirstWithInitial(8) && FirstWithInitial(10)
  {
  }

  lemma FirstsWithInitialAbove()
    ensures FirstWithInitial(11) && FirstWithInitial(14)
    ensures FirstWithInitial(15) && FirstWithInitial(18) && FirstWithInitial(21) && FirstWithInitial(22)
  {
  }

  /** Runs of rules, after the first with a given initial, that do not share it. */
  lemma LaterInitialsBC()
    ensures forall j | 4 <= j < 23 :: RuleInitials[j] != 'B'
    ensures forall j | 8 <= j < 23 :: RuleInitials[j] != 'C'
  {
  }

  lemma LaterInitialsM()
    ensures forall j | 6 <= j < 13 :: RuleInitials[j] != 'M'
    ensures forall j | 14 <= j < 23 :: RuleInitials[j] != 'M'
  {
  }

  /** Rules `lo .. hi-1` whose keywords start with another character than the line miss it. */
  lemma MissesByInitial(line: string, c: char, lo: nat, hi: nat)
    requires lo <= hi <= |ParserRules|
    requires !EndsWithNewline(line) && |line| > 0 && line[0] == c
    requires forall j | lo <= j < hi :: RuleInitials[j] != c
    ensures forall j | lo <= j < hi :: RuleMatch(ParserRules[j], line).None?
  {
    InitialsAgree();
    forall j | lo <= j < hi ensures RuleMatch(ParserRules[j], line).None? {
      KeywordMissAt(ParserRules[j], line, 0);
    }
  }

  /** The rules before the first one with the line's initial miss the line. */
  lemma MissesBefore(line: string, i: nat)
    requires i < |ParserRules| && |line| > 0 && !EndsWithNewline(line)
    requires line[0] == RuleInitials[i] && FirstWithInitial(i)
    ensures forall j | 0 <= j < i :: RuleMatch(ParserRules[j], line).None?
  {
    MissesByInitial(line, line[0], 0, i);
  }

  /** `kw` followed by a space and `t` leaves `t` after `kw\s`. */
  lemma AfterSpaceOf(kw: string, t: string)
    ensures AfterSpace(kw + " " + t, kw) == Some(t)
  {
    var line := kw + " " + t;
    assert line[..|kw|] == kw;
    assert line[|kw| + 1..] == t;
  }

  /** Whether a line ends with a newline depends only on its last part. */
  lemma EndsWithNewlineConcat(a: string, b: string)
    requires |b| > 0
    ensures EndsWithNewline(a + b) == EndsWithNewline(b)
  {
    assert (a + b)[|a + b| - 1] == b[|b| - 1];
  }

  /** A line that does not end with a newline matches a rule exactly when all of it does. */
  lemma RuleMatchPlain(r: Rule, line: string)
    requires !EndsWithNewline(line)
    ensures RuleMatch(r, line) == FullMatch(r, line)
  {
  }

  /** A line that rule `i` matches whole, and that no earlier rule matches, parses to what rule `i` builds. */
  lemma SelectRuleAfter(line: string, i: nat, m: Message)
    requires i < |ParserRules| && !EndsWithNewline(line)
    requires FullMatch(ParserRules[i], line) == Some(m)
    requires forall j | 0 <= j < i :: RuleMatch(ParserRules[j], line).None?
    ensures ParseMessage(line) == m
  {
    RuleMatchPlain(ParserRules[i], line);
    ParseSelectsFirstMatch(line, i);
  }

  /**
   * A line that rule `i` matches whole, and whose first character differs
   * from the first character of every earlier rule, parses to what rule `i`
   * builds.
   */
  lemma SelectRule(line: string, i: nat, m: Message)
    requires i < |ParserRules| && |line| > 0 && !EndsWithNewline(line)
    requires line[0] == RuleInitials[i] && FirstWithInitial(i)
    requires FullMatch(ParserRules[i], line) == Some(m)
    ensures ParseMessage(line) == m
  {
    MissesBefore(line, i);
    SelectRuleAfter(line, i, m);
  }

  /** A line that starts with no rule's first character is unknown, whatever follows. */
  lemma ParseUnknownInitial(line: string)
    requires |line| > 0 && !EndsWithNewline(line)
    requires forall j | 0 <= j < |RuleInitials| :: RuleInitials[j] != line[0]
    ensures ParseMessage(line) == Unknown(line)
  {
    InitialsAgree();
    MissesByInitial(line, line[0], 0, |ParserRules|);
    ParseNoMatch(line);
  }

  /** The empty line is unknown: every rule needs its keyword. */
  lemma ParseEmpty()
    ensures ParseMessage("") == Unknown("")
  {
    forall j | 0 <= j < |ParserRules| ensures RuleMatch(ParserRules[j], "").None? {
      InitialsAgree();
      KeywordMiss(ParserRules[j], "");
    }
    ParseNoMatch("");
  }

  /** `kw <t>` with an integer `t` gives that integer to `kw\s(-?\d+)$`; such a line does not end with a newline. */
  lemma SignedAfterText(kw: string, t: string, n: int)
    requires ParseSignedInt(t) == Some(n)
    ensures SignedAfter(kw + " " + t, kw) == Some(n)
    ensures !EndsWithNewline(kw + " " + t)
  {
    AfterSpaceOf(kw, t);
    ParseSignedIntShape(t);
    EndsWithNewlineConcat(kw + " ", t);
  }

  /** `PROFILE <t>` with an integer `t` selects source `t`. */
  lemma ParseProfileIndexText(t: string, n: int)
    requires ParseSignedInt(t) == Some(n)
    ensures ParseMessage("PROFILE " + t) == CurrentSource(n)
  {
    var line := "PROFILE " + t;
    SignedAfterText("PROFILE", t, n);
    assert "PROFILE" + " " + t == line;
    assert MatchSourceIndex(line, "PROFILE") == Some(CurrentSource(n));
    assert line[0] == 'P';
    FirstsWithInitial();
    SelectRule(line, 15, CurrentSource(n));
  }

  /** `PROFILE <n>` alone selects source `n`; negative indices included. */
  lemma ParseProfileIndex(n: int)
    ensures ParseMessage("PROFILE " + IntToString(n)) == CurrentSource(n)
  {
    IntToStringRoundTrip(n);
    ParseProfileIndexText(IntToString(n), n);
  }

  /** `<n>: <name>` reads back as the index and the name, and is not an integer by itself. */
  lemma IndexAndNameOf(n: int, name: string)
    requires NoNewline(name)
    ensures IndexAndName(IntToString(n) + ": " + name) == Some((n, name))
    ensures ParseSignedInt(IntToString(n) + ": " + name).None?
    ensures NoNewline(IntToString(n) + ": " + name)
  {
    var digits := IntToString(n);
    var t := digits + ": " + name;
    assert t == digits + (": " + name);
    IndexOfPrefix(digits, ": " + name, ':');
    assert t[..|digits|] == digits;
    assert t[|digits|..] == ": " + name;
    assert t[|digits| + 2..] == name;
    IntToStringRoundTrip(n);
    assert t[|digits|] == ':';
    if ParseSignedInt(t).Some? {
      ParseSignedIntShape(t);
    }
    NoNewlineConcat(digits, ": ");
    NoNewlineConcat(digits + ": ", name);
  }

  /** What the two PROFILE rules read from `PROFILE <t>` when `t` is an index, a colon and a name. */
  lemma ProfileNameMatch(t: string, n: int, name: string)
    requires IndexAndName(t) == Some((n, name)) && ParseSignedInt(t).None? && |t| > 0 && !EndsWithNewline(t)
    ensures FullMatch(ParserRules[15], "PROFILE " + t).None?
    ensures FullMatch(ParserRules[16], "PROFILE " + t) == Some(Source(n, name, ProfileOrigin))
    ensures !EndsWithNewline("PROFILE " + t)
  {
    AfterSpaceOf("PROFILE", t);
    assert "PROFILE" + " " + t == "PROFILE " + t;
    EndsWithNewlineConcat("PROFILE ", t);
    ProfileRulesAt("PROFILE " + t, t, n, name);
  }

  /** The two PROFILE rules on a line whose text after `PROFILE\s` is an index, a colon and a name. */
  lemma ProfileRulesAt(line: string, t: string, n: int, name: string)
    requires AfterSpace(line, "PROFILE") == Some(t)
    requires IndexAndName(t) == Some((n, name)) && ParseSignedInt(t).None?
    ensures FullMatch(ParserRules[15], line).None?
    ensures FullMatch(ParserRules[16], line) == Some(Source(n, name, ProfileOrigin))
  {
    assert ParserRules[15] == ProfileIndexRule;
    assert ParserRules[16] == ProfileNameRule;
  }
  /** `PROFILE <t>` where `t` is an index, a colon and a name is a source catalog entry. */
  lemma ParseProfileNameText(t: string, n: int, name: string)
    requires IndexAndName(t) == Some((n, name)) && ParseSignedInt(t).None? && |t| > 0 && !EndsWithNewline(t)
    ensures ParseMessage("PROFILE " + t) == Source(n, name, ProfileOrigin)
  {
    var line := "PROFILE " + t;
    ProfileNameMatch(t, n, name);
    RuleMatchPlain(ParserRules[15], line);
    RuleMatchPlain(ParserRules[16], line);
    assert line[0] == 'P';
    SelectProfileName(line, Source(n, name, ProfileOrigin));
  }

  /** `PROFILE <n>: <name>` is a source catalog entry, not a source selection. */
  lemma ParseProfileName(n: int, name: string)
    requires NoNewline(name)
    ensures ParseMessage("PROFILE " + (IntToString(n) + ": " + name)) == Source(n, name, ProfileOrigin)
  {
    IndexAndNameOf(n, name);
    ParseProfileNameText(IntToString(n) + ": " + name, n, name);
  }

  /** `LABEL <t>` where `t` is an index, a colon and a name is a preset catalog entry. */
  lemma ParseLabelText(t: string, n: int, name: string)
    requires IndexAndName(t) == Some((n, name)) && |t| > 0 && !EndsWithNewline(t)
    ensures ParseMessage("LABEL " + t) == Preset(n, name)
  {
    var line := "LABEL " + t;
    AfterSpaceOf("LABEL", t);
    assert "LABEL" + " " + t == line;
    EndsWithNewlineConcat("LABEL ", t);
    assert MatchLabel(line) == Some(Preset(n, name));
    assert line[0] == 'L';
    FirstsWithInitial();
    SelectRule(line, 11, Preset(n, name));
  }

  /** `LABEL <n>: <name>` is a preset catalog entry. */
  lemma ParseLabel(n: int, name: string)
    requires NoNewline(name)
    ensures ParseMessage("LABEL " + (IntToString(n) + ": " + name)) == Preset(n, name)
  {
    IndexAndNameOf(n, name);
    ParseLabelText(IntToString(n) + ": " + name, n, name);
  }

  /** `CURRENT_PRESET <n>` and `META_PRESET_LOADED <n>` both select preset `n`. */
  lemma ParseCurrentPreset(n: int)
    ensures ParseMessage("CURRENT_PRESET " + IntToString(n)) == CurrentPreset(n)
    ensures ParseMessage("META_PRESET_LOADED " + IntToString(n)) == CurrentPreset(n)
  {
    IntToStringRoundTrip(n);
    ParseCurrentPresetText(IntToString(n), n);
    ParseMetaPresetLoadedText(IntToString(n), n);
  }

  lemma ParseCurrentPresetText(t: string, n: int)
    requires ParseSignedInt(t) == Some(n)
    ensures ParseMessage("CURRENT_PRESET " + t) == CurrentPreset(n)
  {
    var line := "CURRENT_PRESET " + t;
    SignedAfterText("CURRENT_PRESET", t, n);
    assert "CURRENT_PRESET" + " " + t == line;
    assert MatchPresetIndex(line, "CURRENT_PRESET") == Some(CurrentPreset(n));
    assert line[0] == 'C';
    FirstsWithInitial();
    SelectRule(line, 4, CurrentPreset(n));
  }

  lemma ParseMetaPresetLoadedText(t: string, n: int)
    requires ParseSignedInt(t) == Some(n)
    ensures ParseMessage("META_PRESET_LOADED " + t) == CurrentPreset(n)
  {
    var line := "META_PRESET_LOADED " + t;
    SignedAfterText("META_PRESET_LOADED", t, n);
    assert "META_PRESET_LOADED" + " " + t == line;
    assert MatchPresetIndex(line, "META_PRESET_LOADED") == Some(CurrentPreset(n));
    assert line[0] == 'M';
    FirstsWithInitial();
    SelectRule(line, 5, CurrentPreset(n));
  }

  /** The rules before CURRENT_PROFILE miss a line that starts with `CURRENT_PRO`. */
  lemma CurrentProfileEarlierMiss(line: string)
    requires |line| > 10 && line[0] == 'C' && line[10] == 'O' && !EndsWithNewline(line)
    ensures forall j | 0 <= j < 6 :: RuleMatch(ParserRules[j], line).None?
  {
    assert RuleInitials[5] != line[0];
    FirstsWithInitial();
    MissesBefore(line, 4);
    KeywordMissAt(ParserRules[4], line, 10);
    MissesByInitial(line, 'C', 5, 6);
  }

  /** The rules after CURRENT_PROFILE miss a line that starts with `CURRENT_P`. */
  lemma CurrentProfileLaterMiss(line: string)
    requires |line| > 8 && line[0] == 'C' && line[8] == 'P' && !EndsWithNewline(line)
    ensures forall j | 7 <= j < 23 :: RuleMatch(ParserRules[j], line).None?
  {
    KeywordMissAt(ParserRules[7], line, 8);
    LaterInitialsBC();
    MissesByInitial(line, 'C', 8, 23);
  }

  /** What the CURRENT_PROFILE rule reads from `CURRENT_PROFILE <t>`. */
  lemma CurrentProfileMatch(t: string)
    requires NoNewline(t)
    ensures FullMatch(ParserRules[6], "CURRENT_PROFILE " + t)
         == if ParseSignedInt(t).Some? then Some(CurrentSource(ParseSignedInt(t).value)) else None
    ensures !EndsWithNewline("CURRENT_PROFILE " + t)
  {
    NoNewlineConcat("CURRENT_PROFILE ", t);
    AfterSpaceOf("CURRENT_PROFILE", t);
    assert "CURRENT_PROFILE" + " " + t == "CURRENT_PROFILE " + t;
    SourceIndexAt("CURRENT_PROFILE " + t, "CURRENT_PROFILE", t);
  }

  /** What `^kw\s(-?\d+)$` builds from a line whose text after `kw\s` is `t`. */
  lemma SourceIndexAt(line: string, kw: string, t: string)
    requires AfterSpace(line, kw) == Some(t)
    ensures MatchSourceIndex(line, kw) == if ParseSignedInt(t).Some? then Some(CurrentSource(ParseSignedInt(t).value)) else None
  {
  }

  /** `CURRENT_PROFILE <t>` with an integer `t` selects source `t`. */
  lemma ParseCurrentProfileText(t: string, n: int)
    requires ParseSignedInt(t) == Some(n) && NoNewline(t)
    ensures ParseMessage("CURRENT_PROFILE " + t) == CurrentSource(n)
  {
    var line := "CURRENT_PROFILE " + t;
    CurrentProfileMatch(t);
    CurrentProfileEarlierMiss(line);
    SelectRuleAfter(line, 6, CurrentSource(n));
  }

  /** `CURRENT_PROFILE <n>` selects source `n`. */
  lemma ParseCurrentProfile(n: int)
    ensures ParseMessage("CURRENT_PROFILE " + IntToString(n)) == CurrentSource(n)
  {
    IntToStringRoundTrip(n);
    ParseCurrentProfileText(IntToString(n), n);
  }

  /** `CURRENT_PROFILE` followed by anything that is not an integer is an unknown line. */
  lemma ParseCurrentProfileNotInteger(t: string)
    requires NoNewline(t) && ParseSignedInt(t).None?
    ensures ParseMessage("CURRENT_PROFILE " + t) == Unknown("CURRENT_PROFILE " + t)
  {
    var line := "CURRENT_PROFILE " + t;
    CurrentProfileMatch(t);
    RuleMatchPlain(ParserRules[6], line);
    CurrentProfileEarlierMiss(line);
    CurrentProfileLaterMiss(line);
    ParseAllMiss(line, 6);
  }

  /** The rules before DIM miss a line that starts with `DI`. */
  lemma DimEarlierMiss(line: string)
    requires |line| > 1 && line[0] == 'D' && line[1] == 'I' && !EndsWithNewline(line)
    ensures forall j | 0 <= j < 9 :: RuleMatch(ParserRules[j], line).None?
  {
    assert line[0] == 'D';
    FirstsWithInitial();
    MissesBefore(line, 8);
    KeywordMissAt(ParserRules[8], line, 1);
  }

  /** `DIM <t>` with an integer `t` means "on" exactly when `t` is not zero. */
  lemma ParseDimText(t: string, n: int)
    requires ParseSignedInt(t) == Some(n)
    ensures ParseMessage("DIM " + t) == Dim(n != 0)
  {
    var line := "DIM " + t;
    SignedAfterText("DIM", t, n);
    assert "DIM" + " " + t == line;
    assert MatchDim(line) == Some(Dim(n != 0));
    DimEarlierMiss(line);
    SelectRuleAfter(line, 9, Dim(n != 0));
  }

  /** `DIM` takes any integer and means "on" exactly when it is non-zero. */
  lemma ParseDim(n: int)
    ensures ParseMessage("DIM " + IntToString(n)) == Dim(n != 0)
  {
    IntToStringRoundTrip(n);
    ParseDimText(IntToString(n), n);
  }

  /** `ERROR: <text>` keeps the reason verbatim. */
  lemma ParseError(text: string)
    requires NoNewline(text)
    ensures ParseMessage("ERROR: " + text) == Error(text)
  {
    var line := "ERROR: " + text;
    assert line[..7] == "ERROR: ";
    assert line[7..] == text;
    NoNewlineConcat("ERROR: ", text);
    assert MatchError(line) == Some(Error(text));
    assert line[0] == 'E';
    FirstsWithInitial();
    SelectRule(line, 10, Error(text));
  }

  /** The text after `AUDIOSYNC ` that the STATUS rule, tried first, takes. */
  predicate IsStatusText(text: string) {
    |text| == 8 && text[..6] == "STATUS" && IsSpace(text[6]) && (text[7] == '0' || text[7] == '1')
  }

  lemma AudiosyncRulesFor(text: string)
    requires NoNewline(text)
    ensures RuleMatch(ParserRules[0], "AUDIOSYNC " + text)
         == if IsStatusText(text) then Some(AudiosyncStatus(text[7] == '1')) else None
    ensures RuleMatch(ParserRules[1], "AUDIOSYNC " + text) == Some(Audiosync(text))
  {
    var line := "AUDIOSYNC " + text;
    AfterSpaceOf("AUDIOSYNC", text);
    assert "AUDIOSYNC" + " " + text == line;
    NoNewlineConcat("AUDIOSYNC ", text);
    AudiosyncStatusFor(text);
    assert ParserRules[0] == AudiosyncStatusRule;
    assert ParserRules[1] == AudiosyncRule;
  }

  /** `AUDIOSYNC STATUS\s(0|1)` reads the text after `AUDIOSYNC ` as a status exactly when it is one. */
  lemma AudiosyncStatusFor(text: string)
    ensures BinaryAfter("AUDIOSYNC " + text, "AUDIOSYNC STATUS")
         == if IsStatusText(text) then Some(text[7] == '1') else None
  {
    var line := "AUDIOSYNC " + text;
    if StartsWith(line, "AUDIOSYNC STATUS") {
      assert text[..6] == line[10..16];
      if |line| > 16 && IsSpace(line[16]) {
        assert line[17..] == text[7..];
      }
    }
    if IsStatusText(text) {
      assert line[..16] == "AUDIOSYNC " + text[..6];
      assert line[17..] == [text[7]];
    }
  }

  /**
   * `AUDIOSYNC <text>` is a synchronisation status when the text is
   * `STATUS` with a 0 or 1, because that rule is tried first, and a mode
   * otherwise.
   */
  lemma ParseAudiosync(text: string)
    requires NoNewline(text)
    ensures ParseMessage("AUDIOSYNC " + text)
         == if IsStatusText(text) then AudiosyncStatus(text[7] == '1') else Audiosync(text)
  {
    var line := "AUDIOSYNC " + text;
    AudiosyncRulesFor(text);
    if IsStatusText(text) {
      ParseSelectsFirstMatch(line, 0);
    } else {
      ParseSelectsFirstMatch(line, 1);
    }
  }

  lemma BypassRuleFor(v: string)
    requires NoNewline(v)
    ensures RuleMatch(ParserRules[2], "BYPASS " + v) == if v == "0" || v == "1" then Some(Bypass(v == "1")) else None
    ensures !EndsWithNewline("BYPASS " + v)
  {
    AfterSpaceOf("BYPASS", v);
    assert "BYPASS" + " " + v == "BYPASS " + v;
    NoNewlineConcat("BYPASS ", v);
  }

  /** Every rule but BYPASS misses a line that starts with `BYP`. */
  lemma BypassOthersMiss(line: string)
    requires |line| > 2 && line[0] == 'B' && line[2] == 'P' && !EndsWithNewline(line)
    ensures forall j | 0 <= j < 23 && j != 2 :: RuleMatch(ParserRules[j], line).None?
  {
    assert line[0] == 'B';
    FirstsWithInitial();
    MissesBefore(line, 2);
    KeywordMissAt(ParserRules[3], line, 2);
    LaterInitialsBC();
    MissesByInitial(line, 'B', 4, 23);
  }

  /** `BYPASS` takes only 0 or 1; any other value leaves the line unknown. */
  lemma ParseBypass(v: string)
    requires NoNewline(v)
    ensures ParseMessage("BYPASS " + v) == if v == "0" || v == "1" then Bypass(v == "1") else Unknown("BYPASS " + v)
  {
    var line := "BYPASS " + v;
    BypassRuleFor(v);
    BypassOthersMiss(line);
    if v == "0" || v == "1" {
      ParseSelectsFirstMatch(line, 2);
    } else {
      ParseAllMiss(line, 2);
    }
  }

  lemma MuteRuleFor(v: string)
    requires NoNewline(v)
    ensures RuleMatch(ParserRules[13], "MUTE " + v) == if v == "0" || v == "1" then Some(Mute(v == "1")) else None
    ensures !EndsWithNewline("MUTE " + v)
  {
    AfterSpaceOf("MUTE", v);
    assert "MUTE" + " " + v == "MUTE " + v;
    NoNewlineConcat("MUTE ", v);
  }

  /** Every rule but MUTE misses a line that starts with `MU`. */
  lemma MuteOthersMiss(line: string)
    requires |line| > 1 && line[0] == 'M' && line[1] == 'U' && !EndsWithNewline(line)
    ensures forall j | 0 <= j < 23 && j != 13 :: RuleMatch(ParserRules[j], line).None?
  {
    assert line[0] == 'M';
    FirstsWithInitial();
    MissesBefore(line, 5);
    KeywordMissAt(ParserRules[5], line, 1);
    LaterInitialsM();
    MissesByInitial(line, 'M', 6, 13);
    MissesByInitial(line, 'M', 14, 23);
  }

  /** `MUTE` takes only 0 or 1; any other value leaves the line unknown. */
  lemma ParseMute(v: string)
    requires NoNewline(v)
    ensures ParseMessage("MUTE " + v) == if v == "0" || v == "1" then Mute(v == "1") else Unknown("MUTE " + v)
  {
    var line := "MUTE " + v;
    MuteRuleFor(v);
    MuteOthersMiss(line);
    if v == "0" || v == "1" {
      ParseSelectsFirstMatch(line, 13);
    } else {
      ParseAllMiss(line, 13);
    }
  }

  lemma SrateRuleFor(t: string, r: nat)
    requires ParseNat(t) == Some(r)
    ensures RuleMatch(ParserRules[19], "SRATE " + t) == Some(SamplingRate(r))
    ensures RuleMatch(ParserRules[18], "SRATE " + t).None?
    ensures !EndsWithNewline("SRATE " + t)
  {
    AfterSpaceOf("SRATE", t);
    assert "SRATE" + " " + t == "SRATE " + t;
    assert !EndsWithNewline("SRATE " + t);
    KeywordMissAt(ParserRules[18], "SRATE " + t, 1);
  }

  /** A `PROFILE` line that the index rule misses and the name rule matches parses to what the name rule builds. */
  lemma SelectProfileName(line: string, m: Message)
    requires |line| > 0 && line[0] == 'P' && !EndsWithNewline(line)
    requires RuleMatch(ParserRules[15], line).None? && RuleMatch(ParserRules[16], line) == Some(m)
    ensures ParseMessage(line) == m
  {
    FirstsWithInitial();
    MissesBefore(line, 15);
    NextIsFirst(line, 15);
    ParseSelectsFirstMatch(line, 16);
  }

  /** An `S` line that the speaker rule misses and the sampling-rate rule matches parses to what the latter builds. */
  lemma SelectSrate(line: string, m: Message)
    requires |line| > 0 && line[0] == 'S' && !EndsWithNewline(line)
    requires RuleMatch(ParserRules[18], line).None? && RuleMatch(ParserRules[19], line) == Some(m)
    ensures ParseMessage(line) == m
  {
    FirstsWithInitial();
    MissesBefore(line, 18);
    NextIsFirst(line, 18);
    ParseSelectsFirstMatch(line, 19);
  }
  /** Rule `i + 1` matches first when it matches and rules `0 .. i` miss. */
  lemma NextIsFirst(line: string, i: nat)
    requires i + 1 < |ParserRules| && RuleMatch(ParserRules[i], line).None? && RuleMatch(ParserRules[i + 1], line).Some?
    requires forall j | 0 <= j < i :: RuleMatch(ParserRules[j], line).None?
    ensures IsFirstMatch(line, i + 1)
  {
    forall j | 0 <= j < i + 1
      ensures RuleMatch(ParserRules[j], line).None?
    {
      if j == i {
      }
    }
  }

  /** `SRATE <t>` with a decimal `t` reports that sampling rate. */
  lemma ParseSamplingRateText(t: string, r: nat)
    requires ParseNat(t) == Some(r)
    ensures ParseMessage("SRATE " + t) == SamplingRate(r)
  {
    var line := "SRATE " + t;
    SrateRuleFor(t, r);
    assert line[0] == 'S';
    SelectSrate(line, SamplingRate(r));
  }

  /** `SRATE <r>` reports the sampling rate `r`. */
  lemma ParseSamplingRate(r: nat)
    ensures ParseMessage("SRATE " + NatToString(r)) == SamplingRate(r)
  {
    NatToStringRoundTrip(r);
    ParseSamplingRateText(NatToString(r), r);
  }

  lemma VolumeRuleFor(t: string, x: real)
    requires ParseDecimal(t) == Some(x) && NoNewline(t)
    ensures RuleMatch(ParserRules[21], "VOLUME " + t) == Some(Volume(x))
    ensures !EndsWithNewline("VOLUME " + t)
  {
    AfterSpaceOf("VOLUME", t);
    assert "VOLUME" + " " + t == "VOLUME " + t;
    NoNewlineConcat("VOLUME ", t);
  }

  /** A line that rule `i` matches, and whose initial no earlier rule has, parses to what rule `i` builds. */
  lemma SelectFirstWithInitial(line: string, i: nat, m: Message)
    requires i < |ParserRules| && |line| > 0 && !EndsWithNewline(line)
    requires line[0] == RuleInitials[i] && FirstWithInitial(i)
    requires RuleMatch(ParserRules[i], line) == Some(m)
    ensures ParseMessage(line) == m
  {
    MissesBefore(line, i);
    ParseSelectsFirstMatch(line, i);
  }

  /** `VOLUME <t>` with a decimal `t` reports that level in decibels. */
  lemma ParseVolumeText(t: string, x: real)
    requires ParseDecimal(t) == Some(x) && NoNewline(t)
    ensures ParseMessage("VOLUME " + t) == Volume(x)
  {
    var line := "VOLUME " + t;
    VolumeRuleFor(t, x);
    assert line[0] == 'V';
    FirstsWithInitial();
    SelectFirstWithInitial(line, 21, Volume(x));
  }

  /** `VOLUME <dB>` reads the level back exactly, here for whole tenths of a decibel. */
  lemma ParseVolume(tenths: int)
    ensures ParseMessage("VOLUME " + TenthsToString(tenths)) == Volume(tenths as real / 10.0)
  {
    TenthsRoundTrip(tenths);
    ParseVolumeText(TenthsToString(tenths), tenths as real / 10.0);
  }

  /** The last occurrence is the one after which `p` does not occur again. */
  lemma LastIndexOfIs(s: string, p: string, k: nat)
    requires OccursAt(s, p, k)
    requires forall j | k < j :: !OccursAt(s, p, j)
    ensures LastIndexOf(s, p) == Some(k)
  {
    LastIndexBelowSpec(s, p, |s|);
  }

  lemma SeparatorOccurrences(dec: string, up: string)
    requires NoSpace(up)
    ensures OccursAt(dec + UpmixerSeparator + up, UpmixerSeparator, |dec|)
    ensures forall j | |dec| < j :: !OccursAt(dec + UpmixerSeparator + up, UpmixerSeparator, j)
  {
    var tail := dec + UpmixerSeparator + up;
    assert tail[|dec|..|dec| + 9] == UpmixerSeparator;
    forall j | |dec| < j && j + 9 <= |tail|
      ensures tail[j] != ' ' || tail[j + 8] != ' '
    {
      if j < |dec| + 8 {
        assert tail[j] == UpmixerSeparator[j - |dec|];
      } else if j == |dec| + 8 {
        assert tail[j + 8] == up[7];
      } else {
        assert tail[j] == up[j - |dec| - 9];
      }
    }
    forall j | |dec| < j
      ensures !OccursAt(tail, UpmixerSeparator, j)
    {
      if j + 9 <= |tail| {
        assert tail[j..j + 9][0] == tail[j];
        assert tail[j..j + 9][8] == tail[j + 8];
      }
    }
  }

  /** With no space in the upmixer name, the last ` UPMIXER ` is the one after the codec. */
  lemma LastSeparator(dec: string, up: string)
    requires NoSpace(up)
    ensures LastIndexOf(dec + UpmixerSeparator + up, UpmixerSeparator) == Some(|dec|)
  {
    SeparatorOccurrences(dec, up);
    LastIndexOfIs(dec + UpmixerSeparator + up, UpmixerSeparator, |dec|);
  }

  /** The line the processor sends when the decoder or upmixer changes. */
  function DecoderLine(a: nat, b: nat, dec: string, up: string): string {
    "DECODER NONAUDIO " + NatToString(a) + " PLAYABLE " + NatToString(b) + " DECODER " + (dec + UpmixerSeparator + up)
  }

  /** A digit run followed by `sep` is read up to the first space. */
  /** A digit run followed by a separator that starts with a space reads as its value and the rest. */
  lemma NatBeforeOf(d: string, sep: string, r: string)
    requires |d| > 0 && AllDigits(d) && |sep| > 0 && sep[0] == ' '
    ensures NatBefore(d + (sep + r), sep) == Some((DigitsValue(d), r))
  {
    IndexOfPrefix(d, sep + r, ' ');
    NatBeforeAt(d + (sep + r), d, sep, r);
  }

  lemma NatBeforeAt(s: string, d: string, sep: string, r: string)
    requires |d| > 0 && AllDigits(d) && |sep| > 0
    requires IndexOf(s, ' ') == |d| && s[..|d|] == d && s[|d|..] == sep + r
    ensures NatBefore(s, sep) == Some((DigitsValue(d), r))
  {
    assert (sep + r)[..|sep|] == sep;
    assert s[|d| + |sep|..] == r;
  }

  lemma DecoderFieldsHead(d: string, r: string)
    requires |d| > 0 && AllDigits(d)
    ensures DecoderFields(d + (" PLAYABLE " + r)) == DecoderPlayable(DigitsValue(d) != 0, r)
  {
    NatBeforeOf(d, " PLAYABLE ", r);
    DecoderFieldsAt(d + (" PLAYABLE " + r), DigitsValue(d), r);
  }

  lemma DecoderFieldsAt(s: string, a: nat, r: string)
    requires NatBefore(s, " PLAYABLE ") == Some((a, r))
    ensures DecoderFields(s) == DecoderPlayable(a != 0, r)
  {
  }

  lemma DecoderPlayableHead(x: bool, d: string, r: string)
    requires |d| > 0 && AllDigits(d)
    ensures DecoderPlayable(x, d + (" DECODER " + r)) == DecoderNames(x, DigitsValue(d) != 0, r)
  {
    NatBeforeOf(d, " DECODER ", r);
    DecoderPlayableAt(x, d + (" DECODER " + r), DigitsValue(d), r);
  }

  lemma DecoderPlayableAt(x: bool, s: string, b: nat, r: string)
    requires NatBefore(s, " DECODER ") == Some((b, r))
    ensures DecoderPlayable(x, s) == DecoderNames(x, b != 0, r)
  {
  }

  lemma DecoderNamesOf(x: bool, y: bool, tail: string, p: nat)
    requires NoNewline(tail) && LastIndexOf(tail, UpmixerSeparator) == Some(p)
    ensures DecoderNames(x, y, tail) == Some(Decoder(x, y, DecoderName(tail[..p]), tail[p + 9..]))
  {
  }

  lemma DecoderFieldsSplit(d1: string, d2: string, tail: string, p: nat)
    requires |d1| > 0 && AllDigits(d1) && |d2| > 0 && AllDigits(d2)
    requires NoNewline(tail) && LastIndexOf(tail, UpmixerSeparator) == Some(p)
    ensures DecoderFields(d1 + (" PLAYABLE " + (d2 + (" DECODER " + tail))))
         == Some(Decoder(DigitsValue(d1) != 0, DigitsValue(d2) != 0, DecoderName(tail[..p]), tail[p + 9..]))
  {
    DecoderFieldsHead(d1, d2 + (" DECODER " + tail));
    DecoderPlayableHead(DigitsValue(d1) != 0, d2, tail);
    DecoderNamesOf(DigitsValue(d1) != 0, DigitsValue(d2) != 0, tail, p);
  }

  lemma DecoderTail(dec: string, up: string)
    requires NoNewline(dec) && NoNewline(up) && NoSpace(up)
    ensures NoNewline(dec + UpmixerSeparator + up)
    ensures LastIndexOf(dec + UpmixerSeparator + up, UpmixerSeparator) == Some(|dec|)
    ensures (dec + UpmixerSeparator + up)[..|dec|] == dec
    ensures (dec + UpmixerSeparator + up)[|dec| + 9..] == up
  {
    LastSeparator(dec, up);
    NoNewlineConcat(dec, UpmixerSeparator);
    NoNewlineConcat(dec + UpmixerSeparator, up);
    ConcatParts(dec, UpmixerSeparator, up);
  }

  lemma ConcatParts(a: string, b: string, c: string)
    ensures (a + b + c)[..|a|] == a
    ensures (a + b + c)[|a| + |b|..] == c
  {
  }

  lemma DecoderFieldsOfDigits(d1: string, d2: string, dec: string, up: string)
    requires |d1| > 0 && AllDigits(d1) && |d2| > 0 && AllDigits(d2)
    requires NoNewline(dec) && NoNewline(up) && NoSpace(up)
    ensures DecoderFields(d1 + (" PLAYABLE " + (d2 + (" DECODER " + (dec + UpmixerSeparator + up)))))
         == Some(Decoder(DigitsValue(d1) != 0, DigitsValue(d2) != 0, DecoderName(dec), up))
  {
    DecoderTail(dec, up);
    DecoderFieldsSplit(d1, d2, dec + UpmixerSeparator + up, |dec|);
  }

  lemma DecoderFieldsOf(a: nat, b: nat, dec: string, up: string)
    requires NoNewline(dec) && NoNewline(up) && NoSpace(up)
    ensures DecoderFields(NatToString(a) + (" PLAYABLE " + (NatToString(b) + (" DECODER " + (dec + UpmixerSeparator + up)))))
         == Some(Decoder(a != 0, b != 0, DecoderName(dec), up))
  {
    NatToStringRoundTrip(a);
    NatToStringRoundTrip(b);
    DecoderFieldsOfDigits(NatToString(a), NatToString(b), dec, up);
  }

  /** Concatenation regrouped to the right, the shape the field lemmas take. */
  lemma Regroup(k: string, a: string, p: string, b: string, d: string, t: string)
    ensures k + a + p + b + d + t == k + (a + (p + (b + (d + t))))
  {
    Assoc(k + a + p + b, d, t);
    Assoc(k + a + p, b, d + t);
    Assoc(k + a, p, b + (d + t));
    Assoc(k, a, p + (b + (d + t)));
  }

  lemma Assoc(a: string, b: string, c: string)
    ensures a + b + c == a + (b + c)
  {
  }

  lemma DecoderMatch(t: string, m: Message)
    requires DecoderFields(t) == Some(m)
    ensures FullMatch(ParserRules[8], "DECODER NONAUDIO " + t) == Some(m)
  {
    var line := "DECODER NONAUDIO " + t;
    assert line[..17] == "DECODER NONAUDIO ";
    assert line[17..] == t;
    assert MatchDecoder(line) == Some(m);
    assert ParserRules[8] == DecoderRule;
  }

  /** Any line of the DECODER shape parses to the fields that shape reads. */
  lemma ParseDecoderText(t: string, m: Message)
    requires DecoderFields(t) == Some(m) && !EndsWithNewline("DECODER NONAUDIO " + t)
    ensures ParseMessage("DECODER NONAUDIO " + t) == m
  {
    var line := "DECODER NONAUDIO " + t;
    DecoderMatch(t, m);
    assert line[0] == 'D';
    DecoderAt(line, m);
  }

  lemma DecoderAt(line: string, m: Message)
    requires FullMatch(ParserRules[8], line) == Some(m) && !EndsWithNewline(line) && line[0] == 'D'
    ensures ParseMessage(line) == m
  {
    FirstsWithInitial();
    SelectRule(line, 8, m);
  }

  /**
   * A DECODER line: the two flags are "integer is not zero", the codec name
   * goes through the abbreviation table and the upmixer name is kept as
   * sent.
   */
  lemma ParseDecoder(a: nat, b: nat, dec: string, up: string)
    requires NoNewline(dec) && NoNewline(up) && NoSpace(up)
    ensures ParseMessage(DecoderLine(a, b, dec, up)) == Decoder(a != 0, b != 0, DecoderName(dec), up)
  {
    var tail := dec + UpmixerSeparator + up;
    var t := NatToString(a) + (" PLAYABLE " + (NatToString(b) + (" DECODER " + tail)));
    Regroup("DECODER NONAUDIO ", NatToString(a), " PLAYABLE ", NatToString(b), " DECODER ", tail);
    DecoderFieldsOf(a, b, dec, up);
    DecoderTail(dec, up);
    EndsWithNewlineConcat("DECODER NONAUDIO " + NatToString(a) + " PLAYABLE " + NatToString(b) + " DECODER ", tail);
    ParseDecoderText(t, Decoder(a != 0, b != 0, DecoderName(dec), up));
  }

  /** The first whitespace character of `s` is at `k` when `k` holds one and nothing before it does. */
  lemma SpaceIndexIs(s: string, k: nat)
    requires k < |s| && IsSpace(s[k])
    requires forall i | 0 <= i < k :: !IsSpace(s[i])
    ensures SpaceIndex(s) == k
  {
    SpaceIndexSpec(s);
  }

  /** The banner the processor sends first. */
  function WelcomeLine(version: string, id: string): string {
    WelcomePrefix + (version + (", ID " + (id + ")")))
  }

  lemma WelcomeFieldsOf(version: string, id: string)
    requires |version| > 0 && NoSpace(version) && |id| > 0 && AllDigits(id)
    ensures WelcomeFields(version + (", ID " + (id + ")"))) == Some(Welcome(version, id))
  {
    var r := id + ")";
    var s := version + (", ID " + r);
    var k := |version| + 1;
    assert s[k] == ' ';
    forall i | 0 <= i < k ensures !IsSpace(s[i]) {
      if i < |version| {
        assert s[i] == version[i];
      }
    }
    SpaceIndexIs(s, k);
    assert s[k - 1] == ',';
    assert s[k..] == " ID " + r;
    assert s[k + 4..] == r;
    assert r[..|r| - 1] == id;
    assert s[..k - 1] == version;
  }

  /** Any banner of the Welcome shape parses to the fields that shape reads. */
  lemma ParseWelcomeText(t: string, m: Message)
    requires WelcomeFields(t) == Some(m) && |t| > 0 && t[|t| - 1] == ')'
    ensures ParseMessage(WelcomePrefix + t) == m
  {
    var line := WelcomePrefix + t;
    assert line[..|WelcomePrefix|] == WelcomePrefix;
    assert line[|WelcomePrefix|..] == t;
    EndsWithNewlineConcat(WelcomePrefix, t);
    assert MatchWelcome(line) == Some(m);
    assert line[0] == 'W';
    FirstsWithInitial();
    SelectRule(line, 22, m);
  }

  /** The banner yields the version as its non-space token and the id as a digit string. */
  lemma ParseWelcome(version: string, id: string)
    requires |version| > 0 && NoSpace(version) && |id| > 0 && AllDigits(id)
    ensures ParseMessage(WelcomeLine(version, id)) == Welcome(version, id)
  {
    var t := version + (", ID " + (id + ")"));
    WelcomeFieldsOf(version, id);
    assert t[|t| - 1] == ')';
    ParseWelcomeText(t, Welcome(version, id));
  }
}
