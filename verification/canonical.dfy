/**
 * The canonical events the state reducer consumes.  The family is closed, so
 * every consumer matches it exhaustively, and events compare by value.
 */
module Canonical {

  /**
   * How trustworthy a source label is: labels the processor reports for an
   * "optsource" rank apart from the ordinary profile list.
   */
  datatype Quality = OptSource | ProfileLabel

  datatype Event =
    | SetAudiosync(mode: string)
    | SetAudiosyncStatus(synchronized: bool)
    | SetBypass(state: bool)
    | SetCurrentPreset(index: int)
    | SetCurrentSource(index: int)
    | SetSourceFormat(format: string)
    | SetDecoder(decoder: string, upmixer: string)
    | SetDim(state: bool)
    | SetFeatures(features: seq<string>)
    | UpsertPreset(index: int, name: string)
    | ClearPresets
    | SetMute(state: bool)
    | UpsertSource(index: int, name: string, quality: Quality)
    | ClearSources
    | SourcesChangedEvent
    | SetSamplingRate(rate: int)
    | SetVolume(volume: real)
    | SetWelcome(version: string, id: string)
}
