/**
 * The pure parts of the client: the MAC address check, the volume
 * percentage conversions, the command lines the client's command methods
 * send, and the lookup of a source by its name.
 */
module Commands {
  import opened Wrappers
  import opened Text
  import opened Catalog
  import opened Modes

  // ---- MAC addresses ----

  predicate IsHex(c: char) {
    ('0' <= c <= '9') || ('a' <= c <= 'f') || ('A' <= c <= 'F')
  }

  predicate IsMacSeparator(c: char) {
    c == ':' || c == '-'
  }

  /**
   * `groups` times two hex digits and a separator, then two hex digits and
   * the end of the text; as `$` does, the end may come after one final
   * line break.
   */
  function MatchMacGroups(s: string, groups: nat): bool {
    if groups == 0 then
      |s| >= 2 && IsHex(s[0]) && IsHex(s[1]) && (s[2..] == "" || s[2..] == "\n")
    else
      |s| >= 3 && IsHex(s[0]) && IsHex(s[1]) && IsMacSeparator(s[2]) && MatchMacGroups(s[3..], groups - 1)
  }

  /** Text that is `groups + 1` hex pairs joined by separators, position by position. */
  predicate MacShapeOf(s: string, groups: nat) {
    |s| == 3 * groups + 2
    && forall i | 0 <= i < |s| :: if i % 3 == 2 then IsMacSeparator(s[i]) else IsHex(s[i])
  }

  /** Six hex pairs joined by `:` or `-`, e.g. `c8:7f:54:0a:1b:2c`. */
  predicate MacShape(s: string) {
    MacShapeOf(s, 5)
  }

  lemma {:induction false} MatchMacGroupsShape(s: string, groups: nat)
    ensures MatchMacGroups(s, groups)
        <==> MacShapeOf(s, groups)
             || (|s| == 3 * groups + 3 && MacShapeOf(s[..3 * groups + 2], groups) && s[3 * groups + 2] == '\n')
  {
    var n := 3 * groups + 2;
    if groups > 0 && |s| >= 3 {
      var t := s[3..];
      MatchMacGroupsShape(t, groups - 1);
      assert forall i | 3 <= i < |s| :: s[i] == t[i - 3] && (i % 3 == (i - 3) % 3);
      if MacShapeOf(t, groups - 1) && IsHex(s[0]) && IsHex(s[1]) && IsMacSeparator(s[2]) {
        assert MacShapeOf(s, groups) by {
          forall i | 0 <= i < |s| ensures if i % 3 == 2 then IsMacSeparator(s[i]) else IsHex(s[i]) {
            if i >= 3 {
              assert s[i] == t[i - 3];
            }
          }
        }
      }
      if MacShapeOf(s, groups) {
        assert s[0] == s[0] && 1 % 3 == 1 && 2 % 3 == 2;
        assert MacShapeOf(t, groups - 1) by {
          forall j | 0 <= j < |t| ensures if j % 3 == 2 then IsMacSeparator(t[j]) else IsHex(t[j]) {
            assert t[j] == s[j + 3] && (j + 3) % 3 == j % 3;
          }
        }
      }
      if |s| == n + 1 {
        var u := s[..n];
        assert t[..n - 3] == u[3..];
        if MacShapeOf(t[..n - 3], groups - 1) && IsHex(s[0]) && IsHex(s[1]) && IsMacSeparator(s[2]) {
          assert MacShapeOf(u, groups) by {
            forall i | 0 <= i < |u| ensures if i % 3 == 2 then IsMacSeparator(u[i]) else IsHex(u[i]) {
              if i >= 3 {
                assert u[i] == t[..n - 3][i - 3];
              }
            }
          }
        }
        if MacShapeOf(u, groups) {
          assert u[0] == s[0] && u[1] == s[1] && u[2] == s[2];
          assert MacShapeOf(t[..n - 3], groups - 1) by {
            forall j | 0 <= j < n - 3 ensures if j % 3 == 2 then IsMacSeparator(t[..n - 3][j]) else IsHex(t[..n - 3][j]) {
              assert t[..n - 3][j] == u[j + 3] && (j + 3) % 3 == j % 3;
            }
          }
        }
      }
    } else if |s| == 3 {
      assert s[..2] == s[..2];
    }
  }

  datatype MacError =
    | MalformedMacAddress(mac: string)
    | InvalidMacAddressOui(oui: string, validOuis: seq<string>)

  /** The format check on a MAC address; the pattern accepts either case of hex digit. */
  function ValidateMac(mac: string): (r: Outcome<MacError>)
    ensures r.Fail? ==> r.error == MalformedMacAddress(mac)
  {
    if MatchMacGroups(Lower(mac), 5) then Pass else Fail(MalformedMacAddress(mac))
  }

  lemma {:induction false} LowerMacShape(s: string, groups: nat)
    ensures MatchMacGroups(Lower(s), groups) <==> MatchMacGroups(s, groups)
  {
    MatchMacGroupsShape(s, groups);
    MatchMacGroupsShape(Lower(s), groups);
    var n := 3 * groups + 2;
    var l := Lower(s);
    assert forall i | 0 <= i < |s| :: IsHex(l[i]) == IsHex(s[i]) && IsMacSeparator(l[i]) == IsMacSeparator(s[i])
                                     && (l[i] == '\n') == (s[i] == '\n');
    if |s| == n + 1 {
      assert forall i | 0 <= i < n :: l[..n][i] == l[i] && s[..n][i] == s[i];
    }
  }

  /**
   * A MAC address is accepted exactly when it is six hex pairs joined by
   * `:` or `-`, optionally followed by one line break.
   */
  lemma ValidateMacAccepts(mac: string)
    ensures ValidateMac(mac).Pass?
        <==> MacShape(mac) || (|mac| == 18 && MacShape(mac[..17]) && mac[17] == '\n')
  {
    LowerMacShape(mac, 5);
    MatchMacGroupsShape(mac, 5);
  }

  // ---- Volume ----

  const VolumeMin: real := -120.0
  const VolumeMax: real := 20.0

  /** The volume in dB as a percentage of the range from `VolumeMin` to `VolumeMax`. */
  function VolumePercentage(volume: Option<real>): (r: Option<real>)
    ensures r.Some? <==> volume.Some?
    ensures r.Some? ==> (0.0 <= r.value <= 100.0 <==> VolumeMin <= volume.value <= VolumeMax)
  {
    match volume
    case None => None
    case Some(v) => Some((v - VolumeMin) / (VolumeMax - VolumeMin) * 100.0)
  }

  /** The volume in dB a percentage of the range stands for. */
  function VolumeOfPercentage(p: real): (v: real)
    ensures 0.0 <= p <= 100.0 <==> VolumeMin <= v <= VolumeMax
  {
    p / 100.0 * (VolumeMax - VolumeMin) + VolumeMin
  }

  /** The two conversions are inverse to each other. */
  lemma PercentageRoundTrip(p: real, v: real)
    ensures VolumePercentage(Some(VolumeOfPercentage(p))) == Some(p)
    ensures VolumeOfPercentage(VolumePercentage(Some(v)).value) == v
  {
  }

  /** The integer nearest to `x`, a tie going to the even neighbour. */
  function RoundHalfEven(x: real): (n: int)
    ensures x - 0.5 <= n as real <= x + 0.5
    ensures (n as real - x == 0.5 || x - n as real == 0.5) ==> n % 2 == 0
  {
    var f := x.Floor;
    var d := x - f as real;
    if d < 0.5 then f else if d > 0.5 then f + 1 else if f % 2 == 0 then f else f + 1
  }

  const PercentageRangeError: string := "Percentage must be between 0 and 100"

  /**
   * The command `volume_percentage_set` sends: the volume the percentage
   * stands for, rounded to one decimal; a percentage outside 0..100 is
   * refused before anything is sent.
   */
  function VolumePercentageLine(p: real): (r: Result<string, string>)
    ensures r.Failure? <==> !(0.0 <= p <= 100.0)
    ensures r.Failure? ==> r.error == PercentageRangeError
  {
    if !(0.0 <= p <= 100.0) then Failure(PercentageRangeError)
    else Success("volume " + TenthsToString(RoundHalfEven(VolumeOfPercentage(p) * 10.0)))
  }

  /**
   * The line sent for an accepted percentage is `volume <v>` where `<v>`
   * reads back as a value within 0.05 dB of the exact volume, inside the
   * volume range, whose own percentage is within 0.05 / 1.4 of the request.
   */
  lemma VolumePercentageLineSpec(p: real)
    requires 0.0 <= p <= 100.0
    ensures var line := VolumePercentageLine(p).value;
      StartsWith(line, "volume ")
      && var v := ParseDecimal(line[7..]);
      v.Some?
      && VolumeOfPercentage(p) - 0.05 <= v.value <= VolumeOfPercentage(p) + 0.05
      && VolumeMin <= v.value <= VolumeMax
      && p - 0.05 / 1.4 <= VolumePercentage(v).value <= p + 0.05 / 1.4
  {
    var t := RoundHalfEven(VolumeOfPercentage(p) * 10.0);
    var line := VolumePercentageLine(p).value;
    assert line[7..] == TenthsToString(t);
    TenthsRoundTrip(t);
    assert -1200 <= t <= 200;
  }

  /** 52.86 percent is sent as `volume -46.0`. */
  lemma VolumePercentageExample()
    ensures VolumePercentageLine(52.86) == Success("volume -46.0")
  {
    assert VolumeOfPercentage(52.86) * 10.0 == -459.96;
    assert RoundHalfEven(-459.96) == -460;
    assert NatToString(46) == "46" by {
      assert NatToString(4) == "4";
    }
    assert UnsignedTenths(460) == "46.0";
    assert TenthsToString(-460) == "-" + "46.0" == "-46.0";
    assert VolumePercentageLine(52.86) == Success("volume " + TenthsToString(-460));
    assert "volume " + "-46.0" == "volume -46.0";
  }

  // ---- Command lines ----

  /** The on/off settings the processor toggles with argument 2. */
  datatype Setting =
    | Bypass | Mute | Dim | FrontDisplay | Optimization | AcousticCorrection | LevelAlignment | TimeAlignment

  /** The command word the processor uses for each setting. */
  function SettingVerb(s: Setting): string {
    match s
    case Bypass => "bypass"
    case Mute => "mute"
    case Dim => "dim"
    case FrontDisplay => "fav_light"
    case Optimization => "quick_optimized"
    case AcousticCorrection => "use_acoustic_correct"
    case LevelAlignment => "use_level_alignment"
    case TimeAlignment => "use_time_alignment"
  }

  /**
   * The client's command methods, with the values they format.  A float
   * argument is carried as the text Python's `str` gives it.  `Set` and
   * `Toggle` stand for the `<setting>_set` and `<setting>_toggle` methods;
   * the `*_on` and `*_off` methods are `Set` with `true` and `false`.
   */
  datatype ClientCommand =
    | PowerOff
    | PresetGet
    | PresetLabelGet(presetId: int)
    | PresetsGetAll
    | PresetSet(presetId: int)
    | SourceGet
    | SourceNameGet(sourceId: int)
    | SourceSet(sourceId: int)
    | RemappingModeSet(remapping: RemappingMode)
    | UpmixerSet(upmixer: UpmixerMode)
    | StateGetCurrent
    | VolumeSet(db: string)
    | VolumeAdjust(delta: string)
    | VolumeUp
    | VolumeDown
    | VolumeRamp(rampDb: string, duration: int)
    | ChangePage(pages: int)
    | PageDown
    | PageUp
    | Set(setting: Setting, on: bool)
    | Toggle(toggled: Setting)
    | ByeCommand

  /** `int(state)` for a boolean. */
  function BoolArg(b: bool): string {
    if b then "1" else "0"
  }

  /** The line a command method sends. */
  function CommandLine(c: ClientCommand): string {
    match c
    case PowerOff => "power_off_SECURED_FHZMCH48FE"
    case PresetGet => "get_current_preset"
    case PresetLabelGet(id) => "get_label " + IntToString(id)
    case PresetsGetAll => "get_all_label"
    case PresetSet(id) => "loadp " + IntToString(id)
    case SourceGet => "get_current_profile"
    case SourceNameGet(id) => "get_profile_name " + IntToString(id)
    case SourceSet(id) => "profile " + IntToString(id)
    case RemappingModeSet(mode) => "remapping_mode " + RemappingValue(mode)
    case UpmixerSet(mode) => "upmixer " + UpmixerValue(mode)
    case StateGetCurrent => "get_current_state"
    case VolumeSet(db) => "volume " + db
    case VolumeAdjust(delta) => "dvolume " + delta
    case VolumeUp => "dvolume 0.5"
    case VolumeDown => "dvolume -0.5"
    case VolumeRamp(db, duration) => "volume_ramp " + db + " " + IntToString(duration)
    case ChangePage(delta) => "change_page " + IntToString(delta)
    case PageDown => "change_page -1"
    case PageUp => "change_page 1"
    case Set(Bypass, b) => "bypass " + BoolArg(b)
    case Toggle(Bypass) => "bypass 2"
    case Set(Mute, b) => "mute " + BoolArg(b)
    case Toggle(Mute) => "mute 2"
    case Set(Dim, b) => "dim " + BoolArg(b)
    case Toggle(Dim) => "dim 2"
    case Set(FrontDisplay, b) => "fav_light " + BoolArg(b)
    case Toggle(FrontDisplay) => "fav_light 2"
    case Set(Optimization, b) => "quick_optimized " + BoolArg(b)
    case Toggle(Optimization) => "quick_optimized 2"
    case Set(AcousticCorrection, b) => "use_acoustic_correct " + BoolArg(b)
    case Toggle(AcousticCorrection) => "use_acoustic_correct 2"
    case Set(LevelAlignment, b) => "use_level_alignment " + BoolArg(b)
    case Toggle(LevelAlignment) => "use_level_alignment 2"
    case Set(TimeAlignment, b) => "use_time_alignment " + BoolArg(b)
    case Toggle(TimeAlignment) => "use_time_alignment 2"
    case ByeCommand => "bye"
  }

  /** Every setting is set through its own command word, with argument `1` or `0`. */
  lemma SetUsesVerb(s: Setting, on: bool)
    ensures CommandLine(Set(s, on)) == SettingVerb(s) + " " + BoolArg(on)
  {
    match s
    case Bypass => assert "bypass " == "bypass" + " ";
    case Mute => assert "mute " == "mute" + " ";
    case Dim => assert "dim " == "dim" + " ";
    case FrontDisplay => assert "fav_light " == "fav_light" + " ";
    case Optimization => assert "quick_optimized " == "quick_optimized" + " ";
    case AcousticCorrection => assert "use_acoustic_correct " == "use_acoustic_correct" + " ";
    case LevelAlignment => assert "use_level_alignment " == "use_level_alignment" + " ";
    case TimeAlignment => assert "use_time_alignment " == "use_time_alignment" + " ";
  }

  /** Every setting is toggled through the same command word that sets it, with argument `2`. */
  lemma ToggleUsesVerb(s: Setting)
    ensures CommandLine(Toggle(s)) == SettingVerb(s) + " 2"
  {
    match s
    case Bypass => assert "bypass 2" == "bypass" + " 2";
    case Mute => assert "mute 2" == "mute" + " 2";
    case Dim => assert "dim 2" == "dim" + " 2";
    case FrontDisplay => assert "fav_light 2" == "fav_light" + " 2";
    case Optimization => assert "quick_optimized 2" == "quick_optimized" + " 2";
    case AcousticCorrection => assert "use_acoustic_correct 2" == "use_acoustic_correct" + " 2";
    case LevelAlignment => assert "use_level_alignment 2" == "use_level_alignment" + " 2";
    case TimeAlignment => assert "use_time_alignment 2" == "use_time_alignment" + " 2";
  }

  /** The volume shortcuts are the general adjustment with a fixed step. */
  lemma VolumeShortcuts()
    ensures CommandLine(VolumeUp) == CommandLine(VolumeAdjust("0.5"))
    ensures CommandLine(VolumeDown) == CommandLine(VolumeAdjust("-0.5"))
  {
    assert "dvolume 0.5" == "dvolume " + "0.5" && "dvolume -0.5" == "dvolume " + "-0.5";
  }

  /** The page shortcuts are the general page change by one page. */
  lemma PageShortcuts()
    ensures CommandLine(PageUp) == CommandLine(ChangePage(1))
    ensures CommandLine(PageDown) == CommandLine(ChangePage(-1))
  {
    assert NatToString(1) == "1";
    assert IntToString(1) == "1";
    assert IntToString(-1) == "-" + NatToString(1);
    assert "change_page 1" == "change_page " + "1" && "change_page -1" == "change_page " + "-1";
  }

  /** The index a source or preset selection carries reads back from its line. */
  lemma SelectionLinesCarryIndex(id: int)
    ensures var line := CommandLine(SourceSet(id));
      StartsWith(line, "profile ") && PythonInt(line[8..]) == Some(id)
    ensures var line := CommandLine(PresetSet(id));
      StartsWith(line, "loadp ") && PythonInt(line[6..]) == Some(id)
  {
    var a := CommandLine(SourceSet(id));
    var b := CommandLine(PresetSet(id));
    assert a == "profile " + IntToString(id);
    assert b == "loadp " + IntToString(id);
    assert a[8..] == IntToString(id);
    assert b[6..] == IntToString(id);
    PythonIntOfIntToString(id);
  }

  // ---- Source lookup by name ----

  const UnknownSourcePrefix: string := "Unknown source name: "

  /** The first source index, in insertion order, whose name is `name`. */
  method SourceIdByName(sources: Catalog, name: string) returns (id: Option<int>)
    ensures id == FirstKeyOf(sources, name)
  {
    id := None;
    var i := 0;
    while i < |sources|
      invariant 0 <= i <= |sources|
      invariant FirstKeyOf(sources, name) == FirstKeyOf(sources[i..], name)
    {
      if sources[i].1 == name {
        id := Some(sources[i].0);
        FirstKeyOfSkip(sources, name, i);
        return;
      }
      FirstKeyOfSkip(sources, name, i);
      i := i + 1;
    }
  }

  lemma FirstKeyOfSkip(c: Catalog, name: string, i: nat)
    requires i < |c|
    ensures c[i].1 != name ==> FirstKeyOf(c[i..], name) == FirstKeyOf(c[i + 1..], name)
    ensures c[i].1 == name ==> FirstKeyOf(c[i..], name) == Some(c[i].0)
  {
    assert c[i..][1..] == c[i + 1..];
  }
}
