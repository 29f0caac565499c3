/**
 * The two processor mode enumerations: the remapping modes and the upmixer
 * modes, each with the value the processor's command line uses, listed in
 * declaration order (the order iterating the enumeration visits them).
 */
module Modes {
  datatype RemappingMode = ModeNone | Mode2D | Mode3D | ModeAutorotate | ModeManual

  datatype UpmixerMode = ModeAuto | ModeAuro3D | ModeDts | ModeDolby | ModeNative | ModeLegacy | ModeUpmixOnNative

  function RemappingValue(m: RemappingMode): string {
    match m
    case ModeNone => "none"
    case Mode2D => "2D"
    case Mode3D => "3D"
    case ModeAutorotate => "autorotate"
    case ModeManual => "manual"
  }

  function UpmixerValue(m: UpmixerMode): string {
    match m
    case ModeAuto => "auto"
    case ModeAuro3D => "auro3d"
    case ModeDts => "dts"
    case ModeDolby => "dolby"
    case ModeNative => "native"
    case ModeLegacy => "legacy"
    case ModeUpmixOnNative => "upmix_on_native"
  }

  /** The remapping modes in declaration order. */
  const RemappingModes: seq<RemappingMode> := [ModeNone, Mode2D, Mode3D, ModeAutorotate, ModeManual]

  /** The upmixer modes in declaration order. */
  const UpmixerModes: seq<UpmixerMode> := [ModeAuto, ModeAuro3D, ModeDts, ModeDolby, ModeNative, ModeLegacy, ModeUpmixOnNative]

  /** Each enumeration lists every mode exactly once. */
  lemma ModesListed(r: RemappingMode, u: UpmixerMode)
    ensures r in RemappingModes && u in UpmixerModes
    ensures forall i, j | 0 <= i < j < |RemappingModes| :: RemappingModes[i] != RemappingModes[j]
    ensures forall i, j | 0 <= i < j < |UpmixerModes| :: UpmixerModes[i] != UpmixerModes[j]
  {
  }
}
