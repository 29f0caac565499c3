/**
 * The older client object: the MAC address check it runs when it is
 * created, the state it keeps from the messages its factory reads, the
 * initial-sync latch, connecting, disconnecting, writing a command line,
 * reading a line, and the command methods.
 *
 * The network is a parameter of each operation: whether the connection
 * opens, whether a write drains, and the raw line a read returns.
 */
module LegacyClient {
  import opened Wrappers
  import opened Text
  import opened Catalog
  import opened Modes
  import opened LegacyMessages
  import Commands

  // ---- MAC addresses ----

  /** The organisation prefixes a processor's MAC address may start with. */
  const ValidOuis: seq<string> := ["c8:7f:54", "64:98:9e"]

  /** The same prefixes as hex digits alone, without separators. */
  const ValidOuiDigits: seq<string> := ["c87f54", "64989e"]

  /** Python's `s[:n]`. */
  function Head(s: string, n: nat): (r: string)
    ensures |r| <= n && |r| <= |s| && r == s[..|r|]
    ensures |s| >= n ==> |r| == n
  {
    if |s| <= n then s else s[..n]
  }

  /**
   * `validate_mac` as written: the format check, then the first eight
   * characters of the lower-cased address against `ValidOuis`.
   */
  function ValidateMacAsWritten(mac: string): (r: Outcome<Commands.MacError>)
    ensures r.Pass? ==> Commands.ValidateMac(mac).Pass?
  {
    match Commands.ValidateMac(mac)
    case Fail(e) => Fail(e)
    case Pass =>
      var oui := Head(Lower(mac), 8);
      if oui in ValidOuis then Pass else Fail(Commands.InvalidMacAddressOui(oui, ValidOuis))
  }

  /** Every `-` separator replaced by `:`. */
  function ColonSeparated(s: string): (r: string)
    ensures |r| == |s|
    ensures forall i | 0 <= i < |s| :: r[i] == if s[i] == '-' then ':' else s[i]
  {
    if s == [] then [] else [if s[0] == '-' then ':' else s[0]] + ColonSeparated(s[1..])
  }

  /**
   * The MAC check with the separators made uniform before the prefix is
   * compared, so that an address the format check accepts with `-`
   * separators is judged by its prefix like one written with `:`.
   */
  function ValidateMac(mac: string): (r: Outcome<Commands.MacError>)
    ensures r.Pass? ==> Commands.ValidateMac(mac).Pass?
  {
    match Commands.ValidateMac(mac)
    case Fail(e) => Fail(e)
    case Pass =>
      var oui := Head(ColonSeparated(Lower(mac)), 8);
      if oui in ValidOuis then Pass else Fail(Commands.InvalidMacAddressOui(oui, ValidOuis))
  }

  /** The first three octets, lower-cased, without their separators. */
  function OuiDigits(mac: string): string {
    if |mac| < 8 then []
    else [LowerChar(mac[0]), LowerChar(mac[1]), LowerChar(mac[3]), LowerChar(mac[4]), LowerChar(mac[6]), LowerChar(mac[7])]
  }

  /** The first eight characters have the MAC format: hex pairs joined by separators. */
  predicate OuiShaped(mac: string) {
    |mac| >= 8 && forall i | 0 <= i < 8 :: if i % 3 == 2 then Commands.IsMacSeparator(mac[i]) else Commands.IsHex(mac[i])
  }

  lemma FormatGivesOuiShape(mac: string)
    requires Commands.ValidateMac(mac).Pass?
    ensures OuiShaped(mac)
  {
    Commands.ValidateMacAccepts(mac);
    if !Commands.MacShape(mac) {
      var u := mac[..17];
      assert Commands.MacShape(u);
      assert forall i | 0 <= i < 8 :: u[i] == mac[i];
    }
  }

  lemma OuiOfShape(mac: string)
    requires OuiShaped(mac)
    ensures Head(ColonSeparated(Lower(mac)), 8) in ValidOuis <==> OuiDigits(mac) in ValidOuiDigits
  {
    var l := Lower(mac);
    var c := ColonSeparated(l);
    var o := Head(c, 8);
    var d := OuiDigits(mac);
    forall i | 0 <= i < 8 ensures o[i] == if i % 3 == 2 then ':' else LowerChar(mac[i]) {
      assert o[i] == c[i] && l[i] == LowerChar(mac[i]);
    }
    assert o == [d[0], d[1], ':', d[2], d[3], ':', d[4], d[5]];
  }

  /**
   * An address passes the check exactly when it has the MAC format and its
   * first three octets, in either case and with either separator, are one
   * of the two listed prefixes.
   */
  lemma ValidateMacAccepts(mac: string)
    ensures ValidateMac(mac).Pass? <==> Commands.ValidateMac(mac).Pass? && OuiDigits(mac) in ValidOuiDigits
    ensures ValidateMac(mac).Fail? && Commands.ValidateMac(mac).Pass? ==>
      ValidateMac(mac).error == Commands.InvalidMacAddressOui(Head(ColonSeparated(Lower(mac)), 8), ValidOuis)
  {
    if Commands.ValidateMac(mac).Pass? {
      FormatGivesOuiShape(mac);
      OuiOfShape(mac);
    }
  }

  /**
   * As written, an address with `-` separators passes the format check and
   * then always fails the prefix check, since the listed prefixes are
   * written with `:`.
   */
  lemma DashedMacRejectedAsWritten(mac: string)
    requires Commands.ValidateMac(mac).Pass? && mac[2] == '-'
    ensures ValidateMacAsWritten(mac) == Fail(Commands.InvalidMacAddressOui(Head(Lower(mac), 8), ValidOuis))
  {
    FormatGivesOuiShape(mac);
    DashedOuiUnlisted(mac);
  }

  lemma DashedOuiUnlisted(mac: string)
    requires |mac| >= 8 && mac[2] == '-'
    ensures Head(Lower(mac), 8) !in ValidOuis
  {
    var o := Head(Lower(mac), 8);
    assert o[2] == '-';
    assert ValidOuis[0][2] == ':' && ValidOuis[1][2] == ':';
  }

  /** A Trinnov address written with dashes: refused as written, accepted by the corrected check. */
  lemma DashedTrinnovMac(mac: string)
    requires Commands.ValidateMac(mac).Pass? && mac[2] == '-' && OuiDigits(mac) == "64989e"
    ensures ValidateMacAsWritten(mac).Fail? && ValidateMac(mac).Pass?
  {
    DashedMacRejectedAsWritten(mac);
    ValidateMacAccepts(mac);
  }

  /** On addresses without `-` the corrected check and the check as written agree. */
  lemma ChecksAgreeWithoutDashes(mac: string)
    requires forall i | 0 <= i < |mac| :: mac[i] != '-'
    ensures ValidateMacAsWritten(mac) == ValidateMac(mac)
  {
    var l := Lower(mac);
    assert forall i | 0 <= i < |l| :: l[i] != '-' by {
      forall i | 0 <= i < |l| ensures l[i] != '-' {
        assert l[i] == LowerChar(mac[i]);
      }
    }
    assert ColonSeparated(l) == l;
  }

  // ---- Command lines ----

  /**
   * The command methods of the older client.  `SetSetting` stands for the
   * `<setting>_set`, `_on` and `_off` methods and `ToggleSetting` for the
   * `<setting>_toggle` methods; a float argument is carried as the text
   * Python's formatting gives it.
   */
  datatype LegacyCommand =
    | SetSetting(setting: Commands.Setting, on: bool)
    | ToggleSetting(toggled: Commands.Setting)
    | PageAdjust(pages: int)
    | PageDown
    | PageUp
    | PowerOff
    | PresetGet
    | PresetSet(presetId: int)
    | RemappingModeSet(remapping: RemappingMode)
    | SourceGet
    | SourceSet(sourceId: int)
    | UpmixerSet(upmixer: UpmixerMode)
    | VolumeAdjust(delta: string)
    | VolumeDown
    | VolumeSet(db: string)
    | VolumeRamp(rampDb: string, duration: int)
    | VolumeUp

  /** The line each command method sends, with the toggle and upmixer lines corrected. */
  function LegacyCommandLine(c: LegacyCommand): string {
    match c
    case SetSetting(s, on) => Commands.SettingVerb(s) + " " + Commands.BoolArg(on)
    case ToggleSetting(s) => Commands.SettingVerb(s) + " 2"
    case PageAdjust(delta) => "page_adjust " + IntToString(delta)
    case PageDown => "page_adjust -1"
    case PageUp => "page_adjust 1"
    case PowerOff => "power_off_SECURED_FHZMCH48FE"
    case PresetGet => "get_current_preset"
    case PresetSet(id) => "loadp " + IntToString(id)
    case RemappingModeSet(mode) => "remapping_mode " + RemappingValue(mode)
    case SourceGet => "get_current_profile"
    case SourceSet(id) => "profile " + IntToString(id)
    case UpmixerSet(mode) => "upmixer " + UpmixerValue(mode)
    case VolumeAdjust(delta) => "dvolume " + delta
    case VolumeDown => "dvolume -0.5"
    case VolumeSet(db) => "volume " + db
    case VolumeRamp(db, duration) => "volume_ramp " + db + " " + IntToString(duration)
    case VolumeUp => "dvolume 0.5"
  }

  /**
   * The lines as written: the front display toggle sends the dim toggle,
   * and the upmixer method sends a remapping command.
   */
  function LegacyCommandLineAsWritten(c: LegacyCommand): string {
    match c
    case ToggleSetting(s) =>
      if s.FrontDisplay? then "dim 2" else LegacyCommandLine(c)
    case UpmixerSet(mode) => "remapping_mode " + UpmixerValue(mode)
    case _ => LegacyCommandLine(c)
  }

  /** As written, toggling the front display toggles dim instead. */
  lemma FrontDisplayToggleAsWritten()
    ensures LegacyCommandLineAsWritten(ToggleSetting(Commands.FrontDisplay))
         == LegacyCommandLineAsWritten(ToggleSetting(Commands.Dim))
    ensures LegacyCommandLine(ToggleSetting(Commands.FrontDisplay))
         != LegacyCommandLine(ToggleSetting(Commands.Dim))
  {
    assert "dim 2" == "dim" + " 2";
    assert ("fav_light" + " 2")[0] == 'f';
  }

  /**
   * As written, setting the upmixer sends a remapping command whose
   * argument is none of the remapping modes.
   */
  lemma UpmixerSetAsWritten(m: UpmixerMode)
    ensures var line := LegacyCommandLineAsWritten(UpmixerSet(m));
      StartsWith(line, "remapping_mode ")
      && forall r: RemappingMode :: line != LegacyCommandLine(RemappingModeSet(r))
    ensures StartsWith(LegacyCommandLine(UpmixerSet(m)), "upmixer ")
  {
    var line := LegacyCommandLineAsWritten(UpmixerSet(m));
    assert line[..15] == "remapping_mode ";
    forall r: RemappingMode ensures line != LegacyCommandLine(RemappingModeSet(r)) {
      var other := LegacyCommandLine(RemappingModeSet(r));
      assert line[15..] == UpmixerValue(m) && other[15..] == RemappingValue(r);
      assert UpmixerValue(m) != RemappingValue(r);
    }
    assert LegacyCommandLine(UpmixerSet(m))[..8] == "upmixer ";
  }

  /** The two versions of a line differ only for the front display toggle and the upmixer. */
  lemma AsWrittenDiffersOnlyThere(c: LegacyCommand)
    ensures LegacyCommandLineAsWritten(c) != LegacyCommandLine(c)
        <==> c == ToggleSetting(Commands.FrontDisplay) || c.UpmixerSet?
  {
    if c.UpmixerSet? {
      assert LegacyCommandLineAsWritten(c)[0] == 'r' && LegacyCommandLine(c)[0] == 'u';
    }
    if c == ToggleSetting(Commands.FrontDisplay) {
      FrontDisplayToggleAsWritten();
    }
  }

  /** The command of the newer client that sends the same thing, if there is one. */
  function ClientCommandOf(c: LegacyCommand): Option<Commands.ClientCommand> {
    match c
    case SetSetting(s, on) => Some(Commands.Set(s, on))
    case ToggleSetting(s) => Some(Commands.Toggle(s))
    case PageAdjust(_) => None
    case PageDown => None
    case PageUp => None
    case PowerOff => Some(Commands.PowerOff)
    case PresetGet => Some(Commands.PresetGet)
    case PresetSet(id) => Some(Commands.PresetSet(id))
    case RemappingModeSet(mode) => Some(Commands.RemappingModeSet(mode))
    case SourceGet => Some(Commands.SourceGet)
    case SourceSet(id) => Some(Commands.SourceSet(id))
    case UpmixerSet(mode) => Some(Commands.UpmixerSet(mode))
    case VolumeAdjust(delta) => Some(Commands.VolumeAdjust(delta))
    case VolumeDown => Some(Commands.VolumeDown)
    case VolumeSet(db) => Some(Commands.VolumeSet(db))
    case VolumeRamp(db, duration) => Some(Commands.VolumeRamp(db, duration))
    case VolumeUp => Some(Commands.VolumeUp)
  }

  /**
   * With the two corrections every command but the page commands sends the
   * line the newer client sends for the same request; the page commands
   * use `page_adjust` where the newer client uses `change_page`.
   */
  lemma CorrectedLinesMatchNewerClient(c: LegacyCommand)
    ensures ClientCommandOf(c).None? <==> c.PageAdjust? || c.PageDown? || c.PageUp?
    ensures ClientCommandOf(c).Some? ==> LegacyCommandLine(c) == Commands.CommandLine(ClientCommandOf(c).value)
  {
    match c
    case SetSetting(s, on) => SettingLinesMatch(s, on);
    case ToggleSetting(s) => SettingLinesMatch(s, false);
    case PageAdjust(_) =>
    case PageDown =>
    case PageUp =>
    case PowerOff => PowerOffLineMatches();
    case PresetGet => PresetGetLineMatches();
    case PresetSet(id) => SelectionLinesMatch(id);
    case RemappingModeSet(mode) => RemappingLineMatches(mode);
    case SourceGet => SourceGetLineMatches();
    case SourceSet(id) => SelectionLinesMatch(id);
    case UpmixerSet(mode) => UpmixerLineMatches(mode);
    case VolumeAdjust(delta) => VolumeAdjustLineMatches(delta);
    case VolumeDown => VolumeDownLineMatches();
    case VolumeSet(db) => VolumeSetLineMatches(db);
    case VolumeRamp(db, duration) => VolumeRampLineMatches(db, duration);
    case VolumeUp => VolumeUpLineMatches();
  }

  // The agreement, one group of commands at a time.

  lemma SettingLinesMatch(s: Commands.Setting, on: bool)
    ensures LegacyCommandLine(SetSetting(s, on)) == Commands.CommandLine(Commands.Set(s, on))
    ensures LegacyCommandLine(ToggleSetting(s)) == Commands.CommandLine(Commands.Toggle(s))
  {
    Commands.SetUsesVerb(s, on);
    Commands.ToggleUsesVerb(s);
  }

  lemma PowerOffLineMatches()
    ensures LegacyCommandLine(PowerOff) == Commands.CommandLine(Commands.PowerOff)
  {
  }

  lemma PresetGetLineMatches()
    ensures LegacyCommandLine(PresetGet) == Commands.CommandLine(Commands.PresetGet)
  {
  }

  lemma SourceGetLineMatches()
    ensures LegacyCommandLine(SourceGet) == Commands.CommandLine(Commands.SourceGet)
  {
  }

  lemma VolumeUpLineMatches()
    ensures LegacyCommandLine(VolumeUp) == Commands.CommandLine(Commands.VolumeUp)
  {
  }

  lemma VolumeDownLineMatches()
    ensures LegacyCommandLine(VolumeDown) == Commands.CommandLine(Commands.VolumeDown)
  {
  }

  lemma SelectionLinesMatch(id: int)
    ensures LegacyCommandLine(PresetSet(id)) == Commands.CommandLine(Commands.PresetSet(id))
    ensures LegacyCommandLine(SourceSet(id)) == Commands.CommandLine(Commands.SourceSet(id))
  {
  }

  lemma RemappingLineMatches(mode: RemappingMode)
    ensures LegacyCommandLine(RemappingModeSet(mode)) == Commands.CommandLine(Commands.RemappingModeSet(mode))
  {
  }

  lemma UpmixerLineMatches(mode: UpmixerMode)
    ensures LegacyCommandLine(UpmixerSet(mode)) == Commands.CommandLine(Commands.UpmixerSet(mode))
  {
  }

  lemma VolumeAdjustLineMatches(delta: string)
    ensures LegacyCommandLine(VolumeAdjust(delta)) == Commands.CommandLine(Commands.VolumeAdjust(delta))
  {
  }

  lemma VolumeSetLineMatches(db: string)
    ensures LegacyCommandLine(VolumeSet(db)) == Commands.CommandLine(Commands.VolumeSet(db))
  {
  }

  lemma VolumeRampLineMatches(db: string, duration: int)
    ensures LegacyCommandLine(VolumeRamp(db, duration)) == Commands.CommandLine(Commands.VolumeRamp(db, duration))
  {
  }

  /** The page shortcuts send what the general page command sends with a step of one page. */
  lemma PageShortcuts()
    ensures LegacyCommandLine(PageUp) == LegacyCommandLine(PageAdjust(1))
    ensures LegacyCommandLine(PageDown) == LegacyCommandLine(PageAdjust(-1))
  {
    assert NatToString(1) == "1";
    assert IntToString(1) == "1";
    assert IntToString(-1) == "-" + NatToString(1);
    assert "page_adjust 1" == "page_adjust " + "1" && "page_adjust -1" == "page_adjust " + "-1";
  }

  /** The volume shortcuts send what the general adjustment sends with a step of 0.5 dB. */
  lemma VolumeShortcuts()
    ensures LegacyCommandLine(VolumeUp) == LegacyCommandLine(VolumeAdjust("0.5"))
    ensures LegacyCommandLine(VolumeDown) == LegacyCommandLine(VolumeAdjust("-0.5"))
  {
    assert "dvolume 0.5" == "dvolume " + "0.5" && "dvolume -0.5" == "dvolume " + "-0.5";
  }

  /** The lines sent right after connecting, in order. */
  function LegacyBootstrapLines(clientId: string): seq<string> {
    [ "id " + clientId,
      "send volume",
      LegacyCommandLine(PresetGet),
      LegacyCommandLine(SourceGet) ]
  }

  /** The text handed to the socket for a line: the line with one final newline. */
  function WireText(line: string): (w: string)
    ensures |w| > 0 && w[|w| - 1] == '\n'
    ensures w == line || w == line + "\n"
    ensures |line| > 0 && line[|line| - 1] == '\n' ==> w == line
  {
    if |line| > 0 && line[|line| - 1] == '\n' then line else line + "\n"
  }

  function WireTexts(lines: seq<string>): (r: seq<string>)
    ensures |r| == |lines| && forall i | 0 <= i < |lines| :: r[i] == WireText(lines[i])
  {
    if lines == [] then [] else [WireText(lines[0])] + WireTexts(lines[1..])
  }

  lemma WireTextsPrefix(lines: seq<string>, k: nat)
    requires k < |lines|
    ensures WireTexts(lines[..k + 1]) == WireTexts(lines[..k]) + [WireText(lines[k])]
  {
  }

  lemma BootstrapWire(lines: seq<string>)
    requires |lines| == 4
    ensures WireTexts(lines[..1]) == [WireText(lines[0])]
    ensures WireTexts(lines[..2]) == WireTexts(lines[..1]) + [WireText(lines[1])]
    ensures WireTexts(lines[..3]) == WireTexts(lines[..2]) + [WireText(lines[2])]
    ensures WireTexts(lines[..4]) == WireTexts(lines[..3]) + [WireText(lines[3])]
  {
    assert WireTexts(lines[..0]) == [];
    WireTextsPrefix(lines, 0);
    WireTextsPrefix(lines, 1);
    WireTextsPrefix(lines, 2);
    WireTextsPrefix(lines, 3);
  }

  /** How many bootstrap lines reach the socket when `delivered` writes drain. */
  function BootstrapSent(delivered: nat): (k: nat)
    ensures k <= 4
  {
    if delivered < 4 then delivered + 1 else 4
  }

  // ---- The state the client keeps ----

  /** The readings a disconnect forgets. */
  datatype Session = Session(
    audiosync: Option<string>,
    bypass: Option<bool>,
    decoder: Option<string>,
    dim: Option<bool>,
    mute: Option<bool>,
    preset: Option<string>,
    source: Option<string>,
    sourceFormat: Option<string>,
    upmixer: Option<string>,
    volume: Option<real>)

  const NoSession: Session := Session(None, None, None, None, None, None, None, None, None, None)

  /** What a disconnect keeps: identity, catalogs and sampling rate. */
  datatype Kept = Kept(
    id: Option<string>,
    version: Option<string>,
    presets: Catalog,
    sources: Catalog,
    samplingRate: Option<int>)

  /** The client's state, with the initial-sync latch. */
  datatype LegacyView = LegacyView(session: Session, kept: Kept, initialSync: bool)

  const InitialView: LegacyView := LegacyView(NoSession, Kept(None, None, [], [], None), false)

  /** Both catalogs are dictionaries: no index twice. */
  predicate WellFormed(v: LegacyView) {
    Valid(v.kept.presets) && Valid(v.kept.sources)
  }

  /** What one message does to the state, before the latch is looked at. */
  function Apply(v: LegacyView, m: LegacyMessage): LegacyView {
    var s := v.session;
    var k := v.kept;
    match m
    case AudiosyncMessage(mode) => v.(session := s.(audiosync := Some(mode)))
    case BypassMessage(state) => v.(session := s.(bypass := Some(state)))
    case CurrentPresetMessage(index) => v.(session := s.(preset := Get(k.presets, index)))
    case CurrentSourceFormat(format) => v.(session := s.(sourceFormat := Some(format)))
    case CurrentSourceMessage(index) => v.(session := s.(source := Get(k.sources, index)))
    case DecoderMessage(_, _, decoder, upmixer) => v.(session := s.(decoder := Some(decoder), upmixer := Some(upmixer)))
    case DimMessage(state) => v.(session := s.(dim := Some(state)))
    case ErrorMessage(_) => v
    case PresetMessage(index, name) => v.(kept := k.(presets := Put(k.presets, index, name)))
    case PresetsClearMessage => v.(kept := k.(presets := []))
    case MuteMessage(state) => v.(session := s.(mute := Some(state)))
    case OKMessage => v
    case SourceMessage(index, name) => v.(kept := k.(sources := Put(k.sources, index, name)))
    case SourcesClearMessage => v.(kept := k.(sources := []))
    case SamplingRateMessage(rate) => v.(kept := k.(samplingRate := Some(rate)))
    case VolumeMessage(volume) => v.(session := s.(volume := Some(volume)))
    case WelcomeMessage(version, id) => v.(kept := k.(version := Some(version), id := Some(id)))
    case UnknownMessage(_) => v
  }

  /** Identity and both catalogs known: what the initial sync waits for. */
  predicate ReadyToSync(k: Kept) {
    k.id.Some? && |k.presets| > 0 && |k.sources| > 0 && k.version.Some?
  }

  /** The latch is set the first time the state is ready and is never cleared. */
  function Latched(v: LegacyView): (w: LegacyView)
    ensures w.session == v.session && w.kept == v.kept
    ensures w.initialSync <==> v.initialSync || ReadyToSync(v.kept)
  {
    if !v.initialSync && ReadyToSync(v.kept) then v.(initialSync := true) else v
  }

  /** What processing one message read without error does to the state. */
  function Process(v: LegacyView, m: LegacyMessage): LegacyView {
    Latched(Apply(v, m))
  }

  /** The state after a disconnect: the session readings are gone. */
  function Disconnected(v: LegacyView): LegacyView {
    v.(session := NoSession)
  }

  /** The state after a connect: bypass, dim and mute are off until the processor says otherwise. */
  function OnConnect(v: LegacyView): LegacyView {
    v.(session := v.session.(bypass := Some(false), dim := Some(false), mute := Some(false)))
  }

  // ---- Properties of the state ----

  /** Processing keeps both catalogs dictionaries. */
  lemma ProcessWellFormed(v: LegacyView, m: LegacyMessage)
    requires WellFormed(v)
    ensures WellFormed(Process(v, m))
  {
    match m
    case PresetMessage(index, name) => PutSpec(v.kept.presets, index, name);
    case SourceMessage(index, name) => PutSpec(v.kept.sources, index, name);
    case _ =>
  }

  /**
   * The latch: once set it stays set, and it becomes set exactly when the
   * message leaves the identity and both catalogs known.
   */
  lemma LatchOnce(v: LegacyView, m: LegacyMessage)
    ensures v.initialSync ==> Process(v, m).initialSync
    ensures Process(v, m).initialSync <==> v.initialSync || ReadyToSync(Apply(v, m).kept)
  {
  }

  /**
   * Which message kinds change which part of the state: nothing else
   * touches the catalogs, the identity, or the current preset and source.
   */
  lemma ProcessFrames(v: LegacyView, m: LegacyMessage)
    ensures Process(v, m).kept.presets != v.kept.presets ==> m.PresetMessage? || m.PresetsClearMessage?
    ensures Process(v, m).kept.sources != v.kept.sources ==> m.SourceMessage? || m.SourcesClearMessage?
    ensures Process(v, m).kept.id != v.kept.id || Process(v, m).kept.version != v.kept.version ==> m.WelcomeMessage?
    ensures Process(v, m).session.preset != v.session.preset ==> m.CurrentPresetMessage?
    ensures Process(v, m).session.source != v.session.source ==> m.CurrentSourceMessage?
    ensures m.OKMessage? || m.ErrorMessage? || m.UnknownMessage? ==>
      Process(v, m).session == v.session && Process(v, m).kept == v.kept
  {
  }

  /**
   * A current-preset or current-source message takes the name the catalog
   * holds for the index at that moment, and nothing if it holds none.
   */
  lemma SelectionReadsCatalog(v: LegacyView, i: int)
    ensures Process(v, CurrentPresetMessage(i)).session.preset == Get(v.kept.presets, i)
    ensures Process(v, CurrentSourceMessage(i)).session.source == Get(v.kept.sources, i)
    ensures Get(v.kept.presets, i).Some? <==> HasKey(v.kept.presets, i)
    ensures Get(v.kept.sources, i).Some? <==> HasKey(v.kept.sources, i)
  {
    GetSpec(v.kept.presets, i);
    GetSpec(v.kept.sources, i);
  }

  /**
   * No backfill: when the current preset's index arrives before its name,
   * the later catalog entry is stored but the current preset stays unknown.
   */
  lemma NoBackfill(v: LegacyView, i: int, name: string)
    requires WellFormed(v) && !HasKey(v.kept.presets, i)
    ensures var w := Process(Process(v, CurrentPresetMessage(i)), PresetMessage(i, name));
      w.session.preset.None? && Get(w.kept.presets, i) == Some(name)
  {
    GetSpec(v.kept.presets, i);
    PutSpec(v.kept.presets, i, name);
  }

  /**
   * A catalog entry overwrites the name at its index and leaves the other
   * indices alone; a clear empties that catalog and nothing else.
   */
  lemma PresetCatalogUpdates(v: LegacyView, i: int, name: string)
    requires WellFormed(v)
    ensures Get(Process(v, PresetMessage(i, name)).kept.presets, i) == Some(name)
    ensures forall j | j != i :: Get(Process(v, PresetMessage(i, name)).kept.presets, j) == Get(v.kept.presets, j)
    ensures var w := Process(v, PresetsClearMessage);
      w.kept.presets == [] && w.kept.sources == v.kept.sources && w.session == v.session
  {
    PutSpec(v.kept.presets, i, name);
  }

  /** The same for the source catalog. */
  lemma SourceCatalogUpdates(v: LegacyView, i: int, name: string)
    requires WellFormed(v)
    ensures Get(Process(v, SourceMessage(i, name)).kept.sources, i) == Some(name)
    ensures forall j | j != i :: Get(Process(v, SourceMessage(i, name)).kept.sources, j) == Get(v.kept.sources, j)
    ensures var w := Process(v, SourcesClearMessage);
      w.kept.sources == [] && w.kept.presets == v.kept.presets && w.session == v.session
  {
    PutSpec(v.kept.sources, i, name);
  }

  /** A welcome and one entry in each catalog, in this order, set the latch from any state. */
  lemma SyncAfterWelcomeAndCatalogs(v: LegacyView, version: string, id: string, p: int, pn: string, s: int, sn: string)
    requires WellFormed(v)
    ensures Process(Process(Process(v, WelcomeMessage(version, id)), PresetMessage(p, pn)), SourceMessage(s, sn)).initialSync
  {
    var a := Process(v, WelcomeMessage(version, id));
    var b := Process(a, PresetMessage(p, pn));
    PutSpec(a.kept.presets, p, pn);
    PutSpec(b.kept.sources, s, sn);
    GetSpec(Process(b, SourceMessage(s, sn)).kept.sources, s);
    GetSpec(b.kept.presets, p);
  }

  /**
   * A disconnect and a new connection forget the readings but keep what the
   * latch looks at, so a reconnect never waits for a second initial sync.
   */
  lemma ReconnectKeepsSync(v: LegacyView)
    ensures var w := OnConnect(Disconnected(v));
      w.kept == v.kept && w.initialSync == v.initialSync
      && w.session == NoSession.(bypass := Some(false), dim := Some(false), mute := Some(false))
  {
  }

  /** A `PROFILE <n>` line without a name is read as unknown and changes nothing. */
  lemma NamelessProfileIgnored(v: LegacyView, n: int)
    ensures var r := MessageFactory("PROFILE " + IntToString(n));
      r.Success? && r.value.UnknownMessage?
      && Process(v, r.value).session == v.session && Process(v, r.value).kept == v.kept
  {
    ProfileIndexUnknown(n);
  }

  // ---- The client object ----

  /** What the registered callbacks are called with. */
  datatype Notification = ConnectedCall | DisconnectedCall | MessageCall(message: LegacyMessage)

  /** The exceptions of the client's operations. */
  datatype LegacyError =
    | NotConnected
    | ConnectionTimeout
    | ConnectionFailed
    | InvalidPercentage(message: string)
    | NoMacAddress
    | BadMessage(error: FactoryError)

  /** How opening the connection ends. */
  datatype OpenOutcome = Opened | OpenTimedOut | OpenRefused

  class TrinnovAltitude {
    const clientId: string
    const mac: Option<string>

    var audiosync: Option<string>
    var bypass: Option<bool>
    var decoder: Option<string>
    var dim: Option<bool>
    var id: Option<string>
    var mute: Option<bool>
    var preset: Option<string>
    var presets: Catalog
    var source: Option<string>
    var sources: Catalog
    var upmixer: Option<string>
    var version: Option<string>
    var volume: Option<real>
    var sourceFormat: Option<string>
    var samplingRate: Option<int>
    /** The initial-sync event. */
    var initialSync: bool
    /** Whether a reader and a writer are held. */
    var connected: bool
    /** Every call made to the registered callbacks, in order. */
    var notified: seq<Notification>
    /** The text handed to the socket, one entry per write. */
    var sent: seq<string>
    /** The addresses wake-on-LAN packets went to. */
    var woken: seq<string>

    function View(): LegacyView
      reads this
    {
      LegacyView(
        Session(audiosync, bypass, decoder, dim, mute, preset, source, sourceFormat, upmixer, volume),
        Kept(id, version, presets, sources, samplingRate),
        initialSync)
    }

    constructor (clientId: string, mac: Option<string>)
      requires mac.None? || ValidateMac(mac.value).Pass?
      ensures this.clientId == clientId && this.mac == mac
      ensures View() == InitialView && !connected
      ensures notified == [] && sent == [] && woken == []
    {
      this.clientId := clientId;
      this.mac := mac;
      audiosync, bypass, decoder, dim, id, mute, preset := None, None, None, None, None, None, None;
      presets, source, sources, upmixer, version, volume := [], None, [], None, None, None;
      sourceFormat, samplingRate, initialSync, connected := None, None, false, false;
      notified, sent, woken := [], [], [];
    }

    /** `volume_percentage`: the volume as a percentage of the range, if known. */
    function VolumePercentage(): (r: Option<real>)
      reads this
      ensures r.Some? <==> volume.Some?
      ensures r.Some? ==> (0.0 <= r.value <= 100.0 <==> Commands.VolumeMin <= volume.value <= Commands.VolumeMax)
      ensures r.Some? ==> Commands.VolumeOfPercentage(r.value) == volume.value
    {
      var r := Commands.VolumePercentage(volume);
      if r.Some? then
        Commands.PercentageRoundTrip(0.0, volume.value);
        r
      else r
    }

    // ---- Processing messages ----

    /** `_process_message`: read a line, update the state, notify, and look at the latch. */
    method ProcessMessage(raw: string) returns (r: Result<LegacyMessage, LegacyError>)
      modifies this
      ensures MessageFactory(raw).Failure? ==>
        r == Failure(BadMessage(MessageFactory(raw).error)) && View() == old(View()) && notified == old(notified)
      ensures MessageFactory(raw).Success? ==>
        r == Success(MessageFactory(raw).value) && View() == Process(old(View()), r.value)
        && notified == old(notified) + [MessageCall(r.value)]
      ensures connected == old(connected) && sent == old(sent) && woken == old(woken)
    {
      var m := MessageFactory(raw);
      if m.Failure? {
        return Failure(BadMessage(m.error));
      }
      ApplyMessage(m.value);
      notified := notified + [MessageCall(m.value)];
      Latch();
      r := Success(m.value);
    }

    /** Set the initial-sync event once identity and catalogs are known. */
    method Latch()
      modifies this`initialSync
      ensures View() == Latched(old(View()))
    {
      if !initialSync && id.Some? && |presets| > 0 && |sources| > 0 && version.Some? {
        initialSync := true;
      }
    }

    /** The `isinstance` chain of `_process_message`. */
    method ApplyMessage(m: LegacyMessage)
      modifies this
      ensures View() == Apply(old(View()), m)
      ensures connected == old(connected) && notified == old(notified) && sent == old(sent) && woken == old(woken)
    {
      match m {
        case AudiosyncMessage(mode) => ApplyAudiosync(mode);
        case BypassMessage(state) => ApplyBypass(state);
        case CurrentPresetMessage(index) => ApplyCurrentPreset(index);
        case CurrentSourceFormat(format) => ApplySourceFormat(format);
        case CurrentSourceMessage(index) => ApplyCurrentSource(index);
        case DecoderMessage(nonaudio, playable, d, u) => ApplyDecoder(nonaudio, playable, d, u);
        case DimMessage(state) => ApplyDim(state);
        case ErrorMessage(_) =>
        case PresetMessage(index, name) => ApplyPreset(index, name);
        case PresetsClearMessage => ApplyPresetsClear();
        case MuteMessage(state) => ApplyMute(state);
        case OKMessage =>
        case SourceMessage(index, name) => ApplySource(index, name);
        case SourcesClearMessage => ApplySourcesClear();
        case SamplingRateMessage(rate) => ApplySamplingRate(rate);
        case VolumeMessage(db) => ApplyVolume(db);
        case WelcomeMessage(ver, ident) => ApplyWelcome(ver, ident);
        case UnknownMessage(_) =>
      }
    }

    // One method per kind of message, each writing only the fields its frame names.

    method ApplyAudiosync(mode: string)
      modifies this`audiosync
      ensures View() == Apply(old(View()), AudiosyncMessage(mode))
    {
      audiosync := Some(mode);
    }

    method ApplyBypass(state: bool)
      modifies this`bypass
      ensures View() == Apply(old(View()), BypassMessage(state))
    {
      bypass := Some(state);
    }

    method ApplyCurrentPreset(index: int)
      modifies this`preset
      ensures View() == Apply(old(View()), CurrentPresetMessage(index))
    {
      preset := Get(presets, index);
    }

    method ApplySourceFormat(format: string)
      modifies this`sourceFormat
      ensures View() == Apply(old(View()), CurrentSourceFormat(format))
    {
      sourceFormat := Some(format);
    }

    method ApplyCurrentSource(index: int)
      modifies this`source
      ensures View() == Apply(old(View()), CurrentSourceMessage(index))
    {
      source := Get(sources, index);
    }

    method ApplyDecoder(nonaudio: bool, playable: bool, d: string, u: string)
      modifies this`decoder, this`upmixer
      ensures View() == Apply(old(View()), DecoderMessage(nonaudio, playable, d, u))
    {
      decoder, upmixer := Some(d), Some(u);
    }

    method ApplyDim(state: bool)
      modifies this`dim
      ensures View() == Apply(old(View()), DimMessage(state))
    {
      dim := Some(state);
    }

    method ApplyPreset(index: int, name: string)
      modifies this`presets
      ensures View() == Apply(old(View()), PresetMessage(index, name))
    {
      presets := Put(presets, index, name);
    }

    method ApplyPresetsClear()
      modifies this`presets
      ensures View() == Apply(old(View()), PresetsClearMessage)
    {
      presets := [];
    }

    method ApplyMute(state: bool)
      modifies this`mute
      ensures View() == Apply(old(View()), MuteMessage(state))
    {
      mute := Some(state);
    }

    method ApplySource(index: int, name: string)
      modifies this`sources
      ensures View() == Apply(old(View()), SourceMessage(index, name))
    {
      sources := Put(sources, index, name);
    }

    method ApplySourcesClear()
      modifies this`sources
      ensures View() == Apply(old(View()), SourcesClearMessage)
    {
      sources := [];
    }

    method ApplySamplingRate(rate: int)
      modifies this`samplingRate
      ensures View() == Apply(old(View()), SamplingRateMessage(rate))
    {
      samplingRate := Some(rate);
    }

    method ApplyVolume(db: real)
      modifies this`volume
      ensures View() == Apply(old(View()), VolumeMessage(db))
    {
      volume := Some(db);
    }

    method ApplyWelcome(ver: string, ident: string)
      modifies this`version, this`id
      ensures View() == Apply(old(View()), WelcomeMessage(ver, ident))
    {
      version, id := Some(ver), Some(ident);
    }

    // ---- Connection ----

    /** Forget the session readings. */
    method ResetSession()
      modifies this`audiosync, this`bypass, this`decoder, this`dim, this`mute
      modifies this`preset, this`source, this`sourceFormat, this`upmixer, this`volume
      ensures View() == Disconnected(old(View()))
    {
      ClearReadings();
      ClearSelection();
    }

    // The reset is done in two parts so that each part's proof stays small.

    method ClearReadings()
      modifies this`audiosync, this`bypass, this`decoder, this`dim, this`mute
      ensures audiosync.None? && bypass.None? && decoder.None? && dim.None? && mute.None?
    {
      audiosync, bypass, decoder, dim, mute := None, None, None, None, None;
    }

    method ClearSelection()
      modifies this`preset, this`source, this`sourceFormat, this`upmixer, this`volume
      ensures preset.None? && source.None? && sourceFormat.None? && upmixer.None? && volume.None?
    {
      preset, source, sourceFormat, upmixer, volume := None, None, None, None, None;
    }

    /** `disconnect`: close the connection, forget the session readings and notify; a no-op when not connected. */
    method Disconnect()
      modifies this
      ensures !connected
      ensures old(connected) ==> View() == Disconnected(old(View())) && notified == old(notified) + [DisconnectedCall]
      ensures !old(connected) ==> View() == old(View()) && notified == old(notified)
      ensures sent == old(sent) && woken == old(woken)
    {
      if !connected {
        return;
      }
      connected := false;
      ResetSession();
      notified := notified + [DisconnectedCall];
    }

    /**
     * `_write`: hand the line, with a final newline, to the socket.  When
     * draining it fails the client disconnects and the write raises.
     */
    method Write(line: string, drained: bool) returns (r: Outcome<LegacyError>)
      modifies this
      ensures !old(connected) ==>
        r == Fail(NotConnected) && View() == old(View()) && !connected && notified == old(notified) && sent == old(sent)
      ensures old(connected) ==> sent == old(sent) + [WireText(line)]
      ensures old(connected) && drained ==>
        r == Pass && View() == old(View()) && connected && notified == old(notified)
      ensures old(connected) && !drained ==>
        r == Fail(NotConnected) && View() == Disconnected(old(View())) && !connected
        && notified == old(notified) + [DisconnectedCall]
      ensures woken == old(woken)
    {
      if !connected {
        return Fail(NotConnected);
      }
      sent := sent + [WireText(line)];
      if !drained {
        Disconnect();
        return Fail(NotConnected);
      }
      r := Pass;
    }

    /**
     * `connect`: a no-op when already connected; otherwise open the
     * connection, turn bypass, dim and mute off, notify, and send the
     * bootstrap lines.  `delivered` writes drain; the one after them fails.
     */
    method Connect(open: OpenOutcome, delivered: nat) returns (r: Outcome<LegacyError>)
      modifies this
      ensures old(connected) ==>
        r == Pass && connected && View() == old(View()) && notified == old(notified) && sent == old(sent)
      ensures !old(connected) && open.OpenTimedOut? ==>
        r == Fail(ConnectionTimeout) && !connected && View() == old(View()) && notified == old(notified) && sent == old(sent)
      ensures !old(connected) && open.OpenRefused? ==>
        r == Fail(ConnectionFailed) && !connected && View() == old(View()) && notified == old(notified) && sent == old(sent)
      ensures !old(connected) && open.Opened? ==>
        sent == old(sent) + WireTexts(LegacyBootstrapLines(clientId)[..BootstrapSent(delivered)])
      ensures !old(connected) && open.Opened? && delivered >= 4 ==>
        r == Pass && connected && View() == OnConnect(old(View())) && notified == old(notified) + [ConnectedCall]
      ensures !old(connected) && open.Opened? && delivered < 4 ==>
        r == Fail(NotConnected) && !connected && View() == Disconnected(old(View()))
        && notified == old(notified) + [ConnectedCall, DisconnectedCall]
      ensures woken == old(woken)
    {
      if connected {
        return Pass;
      }
      match open {
        case OpenTimedOut => return Fail(ConnectionTimeout);
        case OpenRefused => return Fail(ConnectionFailed);
        case Opened =>
      }
      OpenSession();
      r := SendBootstrap(delivered);
    }

    /** The connection is open: bypass, dim and mute are off, and the callbacks hear of it. */
    method OpenSession()
      modifies this`connected, this`bypass, this`dim, this`mute, this`notified
      ensures connected && View() == OnConnect(old(View())) && notified == old(notified) + [ConnectedCall]
    {
      connected := true;
      bypass, dim, mute := Some(false), Some(false), Some(false);
      notified := notified + [ConnectedCall];
    }

    /** The four bootstrap writes, stopping at the first that fails. */
    method SendBootstrap(delivered: nat) returns (r: Outcome<LegacyError>)
      requires connected
      modifies this
      ensures sent == old(sent) + WireTexts(LegacyBootstrapLines(clientId)[..BootstrapSent(delivered)])
      ensures delivered >= 4 ==> r == Pass && connected && View() == old(View()) && notified == old(notified)
      ensures delivered < 4 ==>
        r == Fail(NotConnected) && !connected && View() == Disconnected(old(View()))
        && notified == old(notified) + [DisconnectedCall]
      ensures woken == old(woken)
    {
      var lines := LegacyBootstrapLines(clientId);
      BootstrapWire(lines);
      r := Write(lines[0], 0 < delivered);
      if r.Fail? {
        return;
      }
      r := Write(lines[1], 1 < delivered);
      if r.Fail? {
        return;
      }
      r := Write(lines[2], 2 < delivered);
      if r.Fail? {
        return;
      }
      r := Write(lines[3], 3 < delivered);
    }

    /**
     * `reconnect`: disconnect if connected, then connect.  `mid` is the view
     * and `heard` the notifications once the old connection is closed.
     */
    method Reconnect(open: OpenOutcome, delivered: nat) returns (r: Outcome<LegacyError>)
      modifies this
      ensures var mid := if old(connected) then Disconnected(old(View())) else old(View());
        var heard := old(notified) + (if old(connected) then [DisconnectedCall] else []);
        && (open.OpenTimedOut? ==> r == Fail(ConnectionTimeout))
        && (open.OpenRefused? ==> r == Fail(ConnectionFailed))
        && (!open.Opened? ==> !connected && View() == mid && notified == heard && sent == old(sent))
        && (open.Opened? ==> sent == old(sent) + WireTexts(LegacyBootstrapLines(clientId)[..BootstrapSent(delivered)]))
        && (open.Opened? && delivered >= 4 ==>
              r == Pass && connected && View() == OnConnect(mid) && notified == heard + [ConnectedCall])
        && (open.Opened? && delivered < 4 ==>
              r == Fail(NotConnected) && !connected && View() == Disconnected(OnConnect(mid))
              && notified == heard + [ConnectedCall, DisconnectedCall])
      ensures woken == old(woken)
    {
      if connected {
        Disconnect();
      }
      r := Connect(open, delivered);
    }

    /**
     * `_read`: a line from the socket with its trailing whitespace removed
     * goes to `ProcessMessage`; an empty read is the end of the stream and
     * disconnects.
     */
    method Read(raw: string) returns (r: Result<LegacyMessage, LegacyError>)
      modifies this
      ensures !old(connected) ==>
        r == Failure(NotConnected) && !connected && View() == old(View()) && notified == old(notified)
      ensures old(connected) && raw == [] ==>
        r == Failure(NotConnected) && !connected && View() == Disconnected(old(View()))
        && notified == old(notified) + [DisconnectedCall]
      ensures old(connected) && raw != [] ==> connected && match MessageFactory(StripRight(raw)) {
        case Success(m) =>
          r == Success(m) && View() == Process(old(View()), m) && notified == old(notified) + [MessageCall(m)]
        case Failure(e) => r == Failure(BadMessage(e)) && View() == old(View()) && notified == old(notified)
      }
      ensures sent == old(sent) && woken == old(woken)
    {
      if !connected {
        return Failure(NotConnected);
      }
      if raw == [] {
        Disconnect();
        return Failure(NotConnected);
      }
      r := ProcessMessage(StripRight(raw));
    }

    // ---- Commands ----

    /** A command method: write its line. */
    method Command(c: LegacyCommand, drained: bool) returns (r: Outcome<LegacyError>)
      modifies this
      ensures !old(connected) ==>
        r == Fail(NotConnected) && View() == old(View()) && !connected && notified == old(notified) && sent == old(sent)
      ensures old(connected) ==> sent == old(sent) + [WireText(LegacyCommandLine(c))]
      ensures old(connected) && drained ==>
        r == Pass && View() == old(View()) && connected && notified == old(notified)
      ensures old(connected) && !drained ==>
        r == Fail(NotConnected) && View() == Disconnected(old(View())) && !connected
        && notified == old(notified) + [DisconnectedCall]
      ensures woken == old(woken)
    {
      r := Write(LegacyCommandLine(c), drained);
    }

    /**
     * `volume_percentage_set`: a percentage outside 0..100 raises before
     * anything is sent; otherwise the volume it stands for is sent.
     */
    method VolumePercentageSet(p: real, drained: bool) returns (r: Outcome<LegacyError>)
      modifies this
      ensures !(0.0 <= p <= 100.0) ==>
        r == Fail(InvalidPercentage(Commands.PercentageRangeError)) && sent == old(sent) && View() == old(View())
        && connected == old(connected) && notified == old(notified)
      ensures 0.0 <= p <= 100.0 && !old(connected) ==>
        r == Fail(NotConnected) && View() == old(View()) && !connected && notified == old(notified) && sent == old(sent)
      ensures 0.0 <= p <= 100.0 && old(connected) ==>
        sent == old(sent) + [WireText(Commands.VolumePercentageLine(p).value)]
      ensures 0.0 <= p <= 100.0 && old(connected) && drained ==>
        r == Pass && View() == old(View()) && connected && notified == old(notified)
      ensures 0.0 <= p <= 100.0 && old(connected) && !drained ==>
        r == Fail(NotConnected) && View() == Disconnected(old(View())) && !connected
        && notified == old(notified) + [DisconnectedCall]
      ensures woken == old(woken)
    {
      match Commands.VolumePercentageLine(p) {
        case Failure(e) => return Fail(InvalidPercentage(e));
        case Success(line) => r := Write(line, drained);
      }
    }

    /**
     * `source_set_by_name`: select the first source, in catalog order, with
     * that name; an unknown name sends nothing and raises nothing.
     */
    method SourceSetByName(name: string, drained: bool) returns (r: Outcome<LegacyError>)
      modifies this
      ensures FirstKeyOf(old(sources), name).None? ==>
        r == Pass && sent == old(sent) && View() == old(View()) && connected == old(connected) && notified == old(notified)
      ensures FirstKeyOf(old(sources), name).Some? && !old(connected) ==>
        r == Fail(NotConnected) && View() == old(View()) && !connected && notified == old(notified) && sent == old(sent)
      ensures FirstKeyOf(old(sources), name).Some? && old(connected) ==>
        sent == old(sent) + [WireText(LegacyCommandLine(SourceSet(FirstKeyOf(old(sources), name).value)))]
      ensures FirstKeyOf(old(sources), name).Some? && old(connected) && drained ==>
        r == Pass && View() == old(View()) && connected && notified == old(notified)
      ensures FirstKeyOf(old(sources), name).Some? && old(connected) && !drained ==>
        r == Fail(NotConnected) && View() == Disconnected(old(View())) && !connected
        && notified == old(notified) + [DisconnectedCall]
      ensures woken == old(woken)
    {
      var found := Commands.SourceIdByName(sources, name);
      if found.None? {
        return Pass;
      }
      r := Command(SourceSet(found.value), drained);
    }

    /** `power_on`: a wake-on-LAN packet to the MAC address, which must be known. */
    method PowerOn() returns (r: Outcome<LegacyError>)
      modifies this`woken
      ensures mac.None? ==> r == Fail(NoMacAddress) && woken == old(woken)
      ensures mac.Some? ==> r == Pass && woken == old(woken) + [mac.value]
    {
      if mac.None? {
        return Fail(NoMacAddress);
      }
      woken := woken + [mac.value];
      r := Pass;
    }
  }

  /**
   * Creating a client validates the MAC address, if one is given, and
   * starts with nothing known.
   */
  method NewClient(clientId: string, mac: Option<string>) returns (r: Result<TrinnovAltitude, Commands.MacError>)
    ensures r.Failure? <==> mac.Some? && ValidateMac(mac.value).Fail?
    ensures r.Failure? ==> r.error == ValidateMac(mac.value).error
    ensures r.Success? ==>
      (fresh(r.value) && r.value.View() == InitialView && !r.value.connected
       && r.value.clientId == clientId && r.value.mac == mac)
  {
    if mac.Some? {
      var check := ValidateMac(mac.value);
      if check.Fail? {
        return Failure(check.error);
      }
    }
    var c := new TrinnovAltitude(clientId, mac);
    r := Success(c);
  }
}
