/**
 * The stateless step from parsed messages to canonical events.  One quirk
 * depends on the firmware profile, chosen from the feature flags the
 * processor announces: under `altitude_ci`, META_PRESET_LOADED reports the
 * current source rather than the current preset.
 */
module Normalizer {
  import opened Text
  import opened Protocol
  import opened Canonical

  const ProfileDefault: string := "default"
  const ProfileAltitudeCi: string := "altitude_ci"

  /** The feature flag that selects the `altitude_ci` profile. */
  const AltitudeCiFeature: string := "altitude_ci"

  /** The origin a Source message carries when its label comes from an optsource. */
  const OptSourceOrigin: string := "optsource"

  /**
   * The quirk profile announced by the feature flags.  The flags are taken
   * as a set, as the source does before it looks the flag up.
   */
  function SelectProfile(features: set<string>): (p: string)
    ensures p == ProfileAltitudeCi <==> AltitudeCiFeature in features
    ensures p == ProfileDefault <==> AltitudeCiFeature !in features
  {
    if AltitudeCiFeature in features then ProfileAltitudeCi else ProfileDefault
  }

  /** Messages that carry nothing for the state: they yield no event. */
  predicate Silent(m: Message) {
    m.OK? || m.Error? || m.Bye? || m.Unknown? || m.SpeakerInfo? || m.StartRunning?
  }

  /** The label quality a Source message's origin stands for. */
  function QualityOf(origin: string): (q: Quality)
    ensures q == OptSource <==> origin == OptSourceOrigin
  {
    if origin == OptSourceOrigin then OptSource else ProfileLabel
  }

  /** Map one message to the canonical events it stands for (none or one). */
  function NormalizeMessage(m: Message, profile: string): (es: seq<Event>)
    ensures |es| <= 1
    ensures es == [] <==> Silent(m)
  {
    match m
    case Audiosync(mode) => [SetAudiosync(mode)]
    case AudiosyncStatus(synchronized) => [SetAudiosyncStatus(synchronized)]
    case Bypass(state) => [SetBypass(state)]
    case CurrentPreset(index) => [SetCurrentPreset(index)]
    case CurrentSourceFormat(format) => [SetSourceFormat(format)]
    case CurrentSource(index) => [SetCurrentSource(index)]
    case Decoder(_, _, decoder, upmixer) => [SetDecoder(decoder, upmixer)]
    case Dim(state) => [SetDim(state)]
    case Idents(features) => [SetFeatures(features)]
    case MetaPresetLoaded(index) =>
      if profile == ProfileAltitudeCi then [SetCurrentSource(index)] else [SetCurrentPreset(index)]
    case Preset(index, name) => [UpsertPreset(index, name)]
    case PresetsClear => [ClearPresets]
    case Mute(state) => [SetMute(state)]
    case Source(index, name, origin) => [UpsertSource(index, name, QualityOf(origin))]
    case SourcesClear => [ClearSources]
    case SourcesChanged => [SourcesChangedEvent]
    case SamplingRate(rate) => [SetSamplingRate(rate)]
    case Volume(volume) => [SetVolume(volume)]
    case Welcome(version, id) => [SetWelcome(version, id)]
    case OK => []
    case Error(_) => []
    case Bye => []
    case Unknown(_) => []
    case SpeakerInfo(_, _, _, _) => []
    case StartRunning => []
  }

  /**
   * META_PRESET_LOADED selects the source under `altitude_ci` and the
   * preset under every other profile, with the index unchanged.
   */
  lemma MetaPresetLoadedByProfile(index: int, profile: string)
    ensures var es := NormalizeMessage(MetaPresetLoaded(index), profile);
      |es| == 1 && (es[0].SetCurrentSource? <==> profile == ProfileAltitudeCi)
      && (es[0].SetCurrentPreset? <==> profile != ProfileAltitudeCi)
      && es[0].index == index
  {
  }

  /** Only META_PRESET_LOADED depends on the profile. */
  lemma ProfileOnlyForMetaPreset(m: Message, p1: string, p2: string)
    ensures NormalizeMessage(m, p1) != NormalizeMessage(m, p2) ==> m.MetaPresetLoaded?
  {
  }

  /**
   * The event a message yields carries the message's payload unchanged:
   * the inverse direction, from the event back to the message's fields.
   */
  lemma PayloadCopied(m: Message, profile: string)
    requires !Silent(m)
    ensures var e := NormalizeMessage(m, profile)[0];
      (m.Decoder? ==> e == SetDecoder(m.decoder, m.upmixer))
      && (m.Welcome? ==> e == SetWelcome(m.version, m.id))
      && (m.Idents? ==> e == SetFeatures(m.features))
      && (m.Preset? ==> e == UpsertPreset(m.index, m.name))
      && (m.Source? ==> e.UpsertSource? && e.index == m.index && e.name == m.name
                        && (e.quality == OptSource <==> m.origin == OptSourceOrigin))
      && (m.Volume? ==> e == SetVolume(m.volume))
      && (m.SamplingRate? ==> e == SetSamplingRate(m.rate))
      && (m.Audiosync? ==> e == SetAudiosync(m.mode))
      && (m.AudiosyncStatus? ==> e == SetAudiosyncStatus(m.synchronized))
      && (m.Bypass? ==> e == SetBypass(m.state))
      && (m.Dim? ==> e == SetDim(m.state))
      && (m.Mute? ==> e == SetMute(m.state))
      && (m.CurrentPreset? ==> e == SetCurrentPreset(m.index))
      && (m.CurrentSource? ==> e == SetCurrentSource(m.index))
      && (m.CurrentSourceFormat? ==> e == SetSourceFormat(m.format))
      && (m.PresetsClear? ==> e == ClearPresets)
      && (m.SourcesClear? ==> e == ClearSources)
      && (m.SourcesChanged? ==> e == SourcesChangedEvent)
  {
  }

  /**
   * Everything the line parser produces normalizes the same way under every
   * profile, because the parser never builds a META_PRESET_LOADED message:
   * that line already parses to a current-preset message.
   */
  lemma ParsedLineProfileFree(line: string, p1: string, p2: string)
    ensures NormalizeMessage(ParseMessage(line), p1) == NormalizeMessage(ParseMessage(line), p2)
  {
    ProfileOnlyForMetaPreset(ParseMessage(line), p1, p2);
  }

  /** So the `altitude_ci` quirk never fires on a parsed META_PRESET_LOADED line. */
  lemma MetaPresetLineSelectsPreset(n: int, profile: string)
    ensures NormalizeMessage(ParseMessage("META_PRESET_LOADED " + IntToString(n)), profile)
         == [SetCurrentPreset(n)]
  {
    ParseCurrentPreset(n);
  }
}
