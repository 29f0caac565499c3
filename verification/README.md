# Trinnov Altitude client library, modelled in Dafny

The Trinnov Altitude is a surround processor. It speaks a line-oriented text
protocol over TCP port 44100. A client sends command lines such as
`volume -46.0` or `profile 3`. The processor answers with status lines such
as `VOLUME -46.0`, `LABEL 2: Movie`, `CURRENT_PRESET 2` or `OK`.

The library has two generations of client code, and this project models both.

The current pipeline works in stages:

- The **line parser** turns one line into a typed message. It tries an
  ordered list of anchored shapes, and the first match wins. A line that
  matches nothing becomes `Unknown(line)`.
- The **normalizer** turns a message into at most one canonical event. A
  "profile" chosen from the device's feature flags decides how
  `META_PRESET_LOADED` is read.
- The **state reducer** folds events into the device record. That record
  holds the readings, the preset and source catalogs, the current selections
  and five "seen" flags, which decide when the client counts as synchronised.
- The **snapshot adapter** freezes the record into a snapshot with sorted
  catalogs. It reports the fields that changed and the high-level
  `*_changed` events.
- The **Home Assistant bridge** turns a snapshot into the coordinator payload
  and the adapter events into event-bus events.
- The **async client** owns the transport and runs the bootstrap on connect.
  It also reads lines, settles acknowledgement waiters, records unknown
  lines, reconnects with capped exponential backoff, and sends the command
  lines.
- The **command bridge** parses a textual command such as
  `source_set_by_name Apple TV` into a method name and typed arguments.

The **legacy client** and its **message factory** are the older API. The
factory matches line prefixes rather than whole lines. The legacy client
keeps its state in its own fields and latches "initial sync" once it knows
the identity and both catalogs.

Every core operation is modelled:

- Pure code is written as functions and lemmas.
- The state record, the adapter, the bridge dispatcher and both clients are
  classes. Their methods update fields in place, and each method is proved
  against a specification function of the old state. For example,
  `AltitudeState.Apply` ensures `View() == ApplyMessage(old(View()), m)`.
- Python dictionaries keep insertion order, so the catalogs are association
  lists with unique keys (`Catalog`). An assignment to an existing key keeps
  that key's position, and a new key goes at the end.
- Floating-point values are exact reals.
- Text is a sequence of characters. Digits and word characters are ASCII. Whitespace is Python's Unicode whitespace, as `\s`, `strip()` and `int()` use it. The command tokenizer uses its own four blanks, as `shlex.split` does.

Things outside the program's control become parameters:

- the transport's outcome for each connect, send and read;
- the random draw for the reconnect jitter;
- whether a write drains.

Files:

| file | models |
|---|---|
| `text.dfy` | character classes (ASCII digits and word characters, Unicode whitespace), integer and decimal text, Python's `int()` on text, `lower`, `strip` |
| `catalog.dfy` | insertion-ordered dictionaries with integer keys |
| `protocol.dfy` | `trinnov_altitude/protocol.py` |
| `canonical.dfy` | `trinnov_altitude/canonical.py` |
| `normalizer.dfy` | `trinnov_altitude/normalizer.py` |
| `state.dfy` | `trinnov_altitude/state.py` |
| `adapter.dfy` | `trinnov_altitude/adapter.py` |
| `ha_bridge.dfy` | `trinnov_altitude/ha_bridge.py` |
| `modes.dfy` | `trinnov_altitude/const.py` |
| `commands.dfy` | the pure parts of `trinnov_altitude/client.py`: MAC check, volume percentage, command lines |
| `client.dfy` | `trinnov_altitude/client.py` |
| `command_bridge.dfy` | `trinnov_altitude/command_bridge.py` |
| `legacy_messages.dfy` | `trinnov_altitude/messages.py` |
| `legacy_client.dfy` | `trinnov_altitude/trinnov_altitude.py` |
| `wrappers.dfy` | `Option`, `Result` and `Outcome` |

## Model

| member | source | states |
|---|---|---|
| Text.IntToString | trinnov_altitude/client.py:390-391 | the text an f-string gives an integer is non-empty, ends in a digit, has no blank or newline, is digits after at most a leading minus, and is all digits exactly when the integer is non-negative |
| Text.IntToStringRoundTrip | trinnov_altitude/protocol.py:86-87 | reading the decimal text of any integer back as a signed integer gives that integer |
| Text.PythonIntOfIntToString | trinnov_altitude/messages.py:17-19 | Python's `int()` applied to the text of any integer gives that integer |
| Text.PythonIntOfSigned | trinnov_altitude/messages.py:54-56 | on blank-free text, `int()` agrees with the plain signed-integer reading |
| Text.TenthsRoundTrip | trinnov_altitude/protocol.py:233-234 | reading back a one-decimal text of n/10 as a decimal gives exactly n/10 |
| Text.UnsignedTenthsRoundTrip | trinnov_altitude/protocol.py:233-234 | the same round trip for non-negative values, which have no sign |
| Text.Lower | trinnov_altitude/trinnov_altitude.py:46 | lower-casing keeps the length and lowers every ASCII letter in place |
| Text.StripLeft | trinnov_altitude/command_bridge.py:82-83 | the leading whitespace `int()` ignores: what is left is a suffix of the input that is empty or starts with a non-whitespace character |
| Text.StripRight | trinnov_altitude/trinnov_altitude.py:755 | `rstrip()` leaves a prefix of the input that is empty or ends with a non-blank |
| Text.NoSpaceStrip | trinnov_altitude/trinnov_altitude.py:755 | text without blanks is left unchanged by stripping |
| Text.IndexOfSpec | trinnov_altitude/protocol.py:267 | the index found is the first occurrence of the character, or the length when there is none |
| Catalog.GetSpec | trinnov_altitude/state.py:104 | `dict.get` finds a value exactly when the key is present, and the pair found is in the dictionary |
| Catalog.GetIffListed | trinnov_altitude/state.py:104 | in a dictionary with unique keys, key k maps to a name exactly when the pair (k, name) is listed |
| Catalog.PutSpec | trinnov_altitude/state.py:120 | after `d[k] = name`, k maps to name and every other key is unchanged; an existing key keeps its position, and a new key goes at the end |
| Catalog.PutTwice | trinnov_altitude/state.py:120 | storing the same entry twice is the same as storing it once |
| Catalog.PutOverwrites | trinnov_altitude/state.py:120 | the second of two stores under one key wins, and no other key is affected |
| Catalog.FirstKeyOf | trinnov_altitude/client.py:403-406 | no key exactly when no entry has the name; otherwise the key of the first entry with the name, in insertion order |
| Catalog.SortedItems | trinnov_altitude/adapter.py:72 | `sorted(d.items())` is ordered by key and is a permutation of the items |
| Catalog.SortedItemsSameEntries | trinnov_altitude/adapter.py:72-73 | an entry is in the sorted items exactly when it is in the dictionary |
| Catalog.SortedItemsValid | trinnov_altitude/adapter.py:72-73 | sorting a dictionary's items keeps the keys unique |
| Catalog.SortedItemsGet | trinnov_altitude/adapter.py:72-73 | looking any key up in the sorted items gives the dictionary's answer |
| Catalog.ToMapGet | trinnov_altitude/ha_bridge.py:52-53 | `dict(items)` holds k exactly when the items do, with the same value |
| Catalog.DictOfSortedItems | trinnov_altitude/ha_bridge.py:52-53 | `dict(sorted(d.items()))` maps every key exactly as d does |
| Protocol.MatchAudiosyncStatus | trinnov_altitude/protocol.py:242 | a match means the line starts with `AUDIOSYNC STATUS` and yields an audiosync-status message |
| Protocol.MatchAudiosync | trinnov_altitude/protocol.py:243 | a match means the line starts with `AUDIOSYNC` and yields an audiosync message |
| Protocol.MatchBypass | trinnov_altitude/protocol.py:244 | a match means the line starts with `BYPASS` and yields a bypass message |
| Protocol.MatchLiteral | trinnov_altitude/protocol.py:245 | a keyword-only shape (`BYE`, `LABELS_CLEAR`, `OK`, `PROFILES_CLEAR`, `START_RUNNING`) matches only a line starting with it, and yields its fixed message |
| Protocol.MatchPresetIndex | trinnov_altitude/protocol.py:246-247 | a match means the line starts with the keyword and yields a current-preset message |
| Protocol.MatchSourceIndex | trinnov_altitude/protocol.py:248 | a match means the line starts with the keyword and yields a current-source message |
| Protocol.MatchSourceFormat | trinnov_altitude/protocol.py:249 | a match means the line starts with `CURRENT_SOURCE_FORMAT_NAME` and yields a source-format message |
| Protocol.MatchDecoder | trinnov_altitude/protocol.py:250 | a match means the line starts with `DECODER NONAUDIO ` and yields a decoder message |
| Protocol.MatchDim | trinnov_altitude/protocol.py:251 | a match means the line starts with `DIM` and yields a dim message |
| Protocol.MatchError | trinnov_altitude/protocol.py:252 | a match means the line starts with `ERROR: ` and yields an error message |
| Protocol.MatchLabel | trinnov_altitude/protocol.py:253 | a match means the line starts with `LABEL` and yields a preset entry |
| Protocol.MatchMute | trinnov_altitude/protocol.py:255 | a match means the line starts with `MUTE` and yields a mute message |
| Protocol.MatchProfileName | trinnov_altitude/protocol.py:258 | a match means the line starts with `PROFILE` and yields a source entry of origin `profile` |
| Protocol.SpeakerFields | trinnov_altitude/protocol.py:216-222 | the speaker fields read give a speaker-info message with a non-negative speaker number |
| Protocol.MatchSpeakerInfo | trinnov_altitude/protocol.py:260-263 | a match means the line starts with `SPEAKER_INFO` and yields a speaker-info message |
| Protocol.MatchSrate | trinnov_altitude/protocol.py:264 | a match means the line starts with `SRATE` and yields a non-negative sampling rate |
| Protocol.MatchVolume | trinnov_altitude/protocol.py:266 | a match means the line starts with `VOLUME` and yields a volume message |
| Protocol.MatchWelcome | trinnov_altitude/protocol.py:267 | a match means the line starts with the welcome banner and yields a welcome message |
| Protocol.WelcomeFields | trinnov_altitude/protocol.py:237-238 | the fields read from a banner give a welcome message whose id is all digits |
| Protocol.FullMatchShape | trinnov_altitude/protocol.py:241-268 | every rule that matches a line matches at the rule's keyword and builds a message the parser may produce |
| Protocol.RuleMatch | trinnov_altitude/protocol.py:273-275 | what one pattern and its builder produce is never one of the messages the parser cannot build |
| Protocol.FirstMatch | trinnov_altitude/protocol.py:272-276 | the first-match search finds nothing exactly when every rule misses; otherwise its result is some rule's match |
| Protocol.FirstMatchSelects | trinnov_altitude/protocol.py:272-276 | when rule i matches and every earlier rule misses, rule i decides the result |
| Protocol.ParseMessage | trinnov_altitude/protocol.py:271-277 | an unknown message carries the line verbatim, and the parser never builds `Idents`, `MetaPresetLoaded` or `SourcesChanged` |
| Protocol.ParseSelectsFirstMatch | trinnov_altitude/protocol.py:271-276 | the parse of a line is the message of the first rule that matches it |
| Protocol.ParseUnknownMisses | trinnov_altitude/protocol.py:277 | a line parses as unknown only when every rule misses it |
| Protocol.ParseNoMatch | trinnov_altitude/protocol.py:277 | a line every rule misses parses as `Unknown(line)` |
| Protocol.ParseAllMiss | trinnov_altitude/protocol.py:277 | the same conclusion, with one rule's miss supplied separately |
| Protocol.ParseUnknownInitial | trinnov_altitude/protocol.py:277 | a line whose first character starts no keyword parses as unknown |
| Protocol.ParseEmpty | trinnov_altitude/protocol.py:277 | the empty line parses as `Unknown("")` |
| Protocol.ParseAudiosync | trinnov_altitude/protocol.py:242-243 | `AUDIOSYNC STATUS 0` or `1` gives the status; any other text after `AUDIOSYNC ` (even `STATUS 2`) gives that text as the mode |
| Protocol.ParseBypass | trinnov_altitude/protocol.py:244 | `BYPASS 0` and `BYPASS 1` give the state; any other value gives an unknown line |
| Protocol.ParseCurrentPreset | trinnov_altitude/protocol.py:246-247 | `CURRENT_PRESET n` and `META_PRESET_LOADED n` both give `CurrentPreset(n)` for every integer n, negative ones included |
| Protocol.ParseCurrentPresetText | trinnov_altitude/protocol.py:246 | the same for any signed-integer text |
| Protocol.ParseMetaPresetLoadedText | trinnov_altitude/protocol.py:247 | `META_PRESET_LOADED` with any signed-integer text gives a current-preset message, never a separate meta message |
| Protocol.ParseCurrentProfile | trinnov_altitude/protocol.py:248 | `CURRENT_PROFILE n` gives `CurrentSource(n)` |
| Protocol.ParseCurrentProfileText | trinnov_altitude/protocol.py:248 | the same for any signed-integer text |
| Protocol.ParseCurrentProfileNotInteger | trinnov_altitude/protocol.py:248 | `CURRENT_PROFILE` followed by anything that is not an integer gives an unknown line |
| Protocol.ParseDim | trinnov_altitude/protocol.py:251 | `DIM n` gives dim on exactly when n is not zero |
| Protocol.ParseDimText | trinnov_altitude/protocol.py:251 | the same for any signed-integer text |
| Protocol.ParseError | trinnov_altitude/protocol.py:252 | `ERROR: text` gives an error carrying the text |
| Protocol.ParseLabel | trinnov_altitude/protocol.py:253 | `LABEL n: name` gives the preset entry (n, name) for every integer and every one-line name |
| Protocol.ParseLabelText | trinnov_altitude/protocol.py:253 | the same for any index-and-name text |
| Protocol.ParseMute | trinnov_altitude/protocol.py:255 | `MUTE 0` and `MUTE 1` give the state; any other value gives an unknown line |
| Protocol.ParseProfileIndex | trinnov_altitude/protocol.py:257 | `PROFILE n` gives `CurrentSource(n)` |
| Protocol.ParseProfileIndexText | trinnov_altitude/protocol.py:257 | the same for any signed-integer text |
| Protocol.ParseProfileName | trinnov_altitude/protocol.py:258 | `PROFILE n: name` gives the source entry (n, name) of origin `profile`; the index-only rule before it does not shadow it |
| Protocol.ParseProfileNameText | trinnov_altitude/protocol.py:258 | the same for any index-and-name text that is not itself an integer |
| Protocol.ParseSamplingRate | trinnov_altitude/protocol.py:264 | `SRATE r` gives the sampling rate r for every natural number r |
| Protocol.ParseSamplingRateText | trinnov_altitude/protocol.py:264 | the same for any digit text |
| Protocol.ParseVolume | trinnov_altitude/protocol.py:266 | `VOLUME` followed by the one-decimal text of n/10 gives exactly n/10 dB |
| Protocol.ParseVolumeText | trinnov_altitude/protocol.py:266 | `VOLUME` followed by any decimal text gives the value that text spells |
| Protocol.LastSeparator | trinnov_altitude/protocol.py:250 | the greedy decoder group ends at the last ` UPMIXER `, which is the one before an upmixer name without blanks |
| Protocol.ParseDecoder | trinnov_altitude/protocol.py:170-177 | a decoder line gives both flags (non-zero means set), the decoder name translated through the audio-format table, and the upmixer verbatim |
| Protocol.ParseDecoderText | trinnov_altitude/protocol.py:250 | any decoder line whose fields read gives the message those fields build |
| Protocol.ParseWelcome | trinnov_altitude/protocol.py:267 | the banner with a blank-free version and a numeric id gives `Welcome(version, id)` |
| Protocol.ParseWelcomeText | trinnov_altitude/protocol.py:267 | any banner whose fields read and which ends in `)` gives the message those fields build |
| Normalizer.SelectProfile | trinnov_altitude/normalizer.py:57-59 | the profile is `altitude_ci` exactly when that feature flag is present, and `default` exactly when it is absent |
| Normalizer.QualityOf | trinnov_altitude/normalizer.py:93 | a source label has the optsource quality exactly when its origin is `optsource` |
| Normalizer.NormalizeMessage | trinnov_altitude/normalizer.py:62-105 | a message gives at most one event, and none exactly for the messages with no branch (bye, error, OK, speaker info, start running, unknown) |
| Normalizer.MetaPresetLoadedByProfile | trinnov_altitude/normalizer.py:82-85 | `META_PRESET_LOADED` selects the source under the `altitude_ci` profile and the preset under any other, with the index kept |
| Normalizer.ProfileOnlyForMetaPreset | trinnov_altitude/normalizer.py:62-105 | only `MetaPresetLoaded` can be normalised differently under two profiles |
| Normalizer.PayloadCopied | trinnov_altitude/normalizer.py:76-104 | for every message kind that yields an event, the event carries the message's payload unchanged (audiosync, bypass, dim, mute, current preset, source and format, decoder, welcome, features, entries, volume, sampling rate, the clears and the sources-changed marker); a source's quality follows its origin |
| Normalizer.ParsedLineProfileFree | trinnov_altitude/normalizer.py:82-85 | no parsed line is normalised differently under two profiles, because the parser never builds `MetaPresetLoaded` |
| Normalizer.MetaPresetLineSelectsPreset | trinnov_altitude/protocol.py:247 | a `META_PRESET_LOADED n` line selects preset n whatever the profile |
| State.StepAllSnoc | trinnov_altitude/state.py:92-93 | reducing events one after another: the events plus one more reduce to one further step |
| State.SelectionStepsResolved | trinnov_altitude/state.py:102-140 | selecting an index, storing an entry and clearing a catalog each keep the resolved name equal to the catalog's lookup of the current index |
| State.ChooseUpsertCommute | trinnov_altitude/state.py:102-123 | a current index and its catalog entry, in either order, give the same selection, with the name resolved |
| State.UpsertTwice | trinnov_altitude/state.py:119-123 | storing the same catalog entry twice is the same as storing it once |
| State.InitialResolved | trinnov_altitude/state.py:32-59 | a fresh record has resolved names and is not synchronised |
| State.StepResolved | trinnov_altitude/state.py:95-151 | every event keeps the preset and source names in agreement with the catalogs and the current indices |
| State.StepAllResolved | trinnov_altitude/state.py:92-93 | so does any sequence of events |
| State.ApplyResolved | trinnov_altitude/state.py:89-93 | so does applying any message |
| State.StepSynced | trinnov_altitude/state.py:153-161 | once synchronised, the record stays synchronised under every event, because no event clears a "seen" flag |
| State.StepAllSynced | trinnov_altitude/state.py:153-161 | the same for any sequence of events |
| State.ApplySynced | trinnov_altitude/state.py:89-93 | the same for any message |
| State.StepTwice | trinnov_altitude/state.py:95-151 | every event is idempotent: reducing it twice is reducing it once |
| State.ApplyTwice | trinnov_altitude/state.py:89-93 | every message is idempotent on the record |
| State.Backfill | trinnov_altitude/state.py:102-135 | a current index reported before its catalog entry is resolved when the entry arrives, for presets and for sources |
| State.ClearDropsName | trinnov_altitude/state.py:124-140 | clearing a catalog empties it, marks it seen, keeps the current index and drops the name when an index is set |
| State.QualityIgnored | trinnov_altitude/state.py:131-135 | a source entry's quality does not affect the record, and a later entry under the same index replaces the earlier one |
| State.SourcesChangedNoOp | trinnov_altitude/state.py:141-143 | the sources-changed marker leaves the record unchanged |
| State.StepFrame | trinnov_altitude/state.py:95-151 | each event touches only its own fields: selection events only their catalog, device events only their readings |
| State.AltitudeState.constructor | trinnov_altitude/state.py:32-59 | a new record is the initial state |
| State.AltitudeState.ResetRuntimeValues | trinnov_altitude/state.py:61-87 | a reset returns every field, flags and catalogs included, to the initial state |
| State.AltitudeState.ApplyEvent | trinnov_altitude/state.py:95-151 | the record after an event is the reduction of the record before it |
| State.AltitudeState.ApplyAudiosync | trinnov_altitude/state.py:96-97 | the audiosync branch updates the record as the reduction says |
| State.AltitudeState.ApplyAudiosyncStatus | trinnov_altitude/state.py:98-99 | the audiosync-status branch updates the record as the reduction says |
| State.AltitudeState.ApplyBypass | trinnov_altitude/state.py:100-101 | the bypass branch updates the record as the reduction says |
| State.AltitudeState.ApplyCurrentPreset | trinnov_altitude/state.py:102-105 | the current-preset branch stores the index, resolves the name and sets the flag as the reduction says |
| State.AltitudeState.ApplySourceFormat | trinnov_altitude/state.py:106-107 | the source-format branch updates the record as the reduction says |
| State.AltitudeState.ApplyCurrentSource | trinnov_altitude/state.py:108-111 | the current-source branch stores the index, resolves the name and sets the flag as the reduction says |
| State.AltitudeState.ApplyFeatures | trinnov_altitude/state.py:112-113 | the features branch replaces the feature set as the reduction says |
| State.AltitudeState.ApplyDecoder | trinnov_altitude/state.py:114-116 | the decoder branch sets decoder and upmixer as the reduction says |
| State.AltitudeState.ApplyDim | trinnov_altitude/state.py:117-118 | the dim branch updates the record as the reduction says |
| State.AltitudeState.ApplyUpsertPreset | trinnov_altitude/state.py:119-123 | a preset entry is stored, and refreshes the name of the current preset, as the reduction says |
| State.AltitudeState.ApplyClearPresets | trinnov_altitude/state.py:124-128 | a preset clear updates the record as the reduction says |
| State.AltitudeState.ApplyMute | trinnov_altitude/state.py:129-130 | the mute branch updates the record as the reduction says |
| State.AltitudeState.ApplyUpsertSource | trinnov_altitude/state.py:131-135 | a source entry is stored, and refreshes the name of the current source, as the reduction says |
| State.AltitudeState.ApplyClearSources | trinnov_altitude/state.py:136-140 | a source clear updates the record as the reduction says |
| State.AltitudeState.ApplySamplingRate | trinnov_altitude/state.py:144-145 | the sampling-rate branch updates the record as the reduction says |
| State.AltitudeState.ApplyVolume | trinnov_altitude/state.py:146-147 | the volume branch updates the record as the reduction says |
| State.AltitudeState.ApplyWelcome | trinnov_altitude/state.py:148-151 | the welcome branch sets version and id and marks the banner seen, as the reduction says |
| State.AltitudeState.Apply | trinnov_altitude/state.py:89-93 | applying a message is normalising it under the profile the current features select, then reducing the events |
| Adapter.FieldsDetermine | trinnov_altitude/adapter.py:10-32 | two snapshots that agree on all 19 listed fields are equal, so the field list is complete |
| Adapter.SnapshotOf | trinnov_altitude/adapter.py:52-74 | a snapshot's `synced` is the record's synchronisation; its catalogs are sorted by index and are permutations of the record's |
| Adapter.SnapshotSameEntries | trinnov_altitude/adapter.py:72-73 | a catalog entry is in the snapshot exactly when it is in the record |
| Adapter.ChangedMembers | trinnov_altitude/adapter.py:100-108 | a delta is reported exactly when some field differs, and it carries that field's name, old value and new value |
| Adapter.ChangedEmpty | trinnov_altitude/adapter.py:100-108 | no delta is reported exactly when every field compared is equal |
| Adapter.NoDeltasIffSame | trinnov_altitude/adapter.py:100-108 | there are no deltas exactly when the two snapshots are equal |
| Adapter.BuildDeltas | trinnov_altitude/adapter.py:100-108 | the loop over the fields produces exactly the deltas the specification lists, in field order |
| Adapter.ChangeEvent | trinnov_altitude/adapter.py:111-114 | an event is made exactly when the new value is present and differs from the old; it has the given kind and one payload key holding the new value |
| Adapter.WatchedFieldName | trinnov_altitude/adapter.py:120-130 | each event kind is its snapshot field's name followed by `_changed` |
| Adapter.Candidate | trinnov_altitude/adapter.py:120-130 | the k-th watched field yields its event exactly when its new value is present and changed |
| Adapter.CollectedMembers | trinnov_altitude/adapter.py:117-134 | an event is collected exactly when it is one of the candidates that fired |
| Adapter.CollectedEmpty | trinnov_altitude/adapter.py:117-134 | nothing is collected exactly when no candidate fires |
| Adapter.BuildEvents | trinnov_altitude/adapter.py:117-134 | the loop produces exactly the events the specification lists, in the fixed order |
| Adapter.EventsImplyDeltas | trinnov_altitude/adapter.py:117-134 | every event has a delta of the field it names, and its payload holds that delta's new value |
| Adapter.NothingWhenSame | trinnov_altitude/adapter.py:100-134 | an unchanged snapshot yields no deltas and no events |
| Adapter.MuteDelta | trinnov_altitude/adapter.py:100-108 | changing only the mute gives exactly one delta, for `mute` |
| Adapter.MuteEvent | trinnov_altitude/adapter.py:122 | changing only the mute gives exactly one `mute_changed` event with the new state |
| Adapter.AltitudeStateAdapter.constructor | trinnov_altitude/adapter.py:80-81 | a new adapter has no previous snapshot |
| Adapter.AltitudeStateAdapter.Update | trinnov_altitude/adapter.py:87-97 | the update returns the state's snapshot and remembers it; the first update reports nothing, and later ones report the deltas and events against the previous snapshot |
| HaBridge.CoordinatorPayload | trinnov_altitude/ha_bridge.py:32-54 | the payload has the 19 coordinator keys, in order |
| HaBridge.PayloadRenamesFields | trinnov_altitude/ha_bridge.py:34-51 | each of the first 17 keys holds its snapshot field; only synced, id, volume, sampling rate and audiosync are renamed |
| HaBridge.PayloadFromState | trinnov_altitude/ha_bridge.py:32-54 | `available` is the state's synchronisation, and the `presets` and `sources` dictionaries map every index exactly as the state's catalogs do |
| HaBridge.ToBusEvent | trinnov_altitude/ha_bridge.py:61 | a bus event's type is `trinnov_altitude.` followed by the event kind, and its data is the payload |
| HaBridge.BusEvents | trinnov_altitude/ha_bridge.py:57-62 | the bus events map the adapter events one to one, in order |
| HaBridge.BusEventsInvertible | trinnov_altitude/ha_bridge.py:57-62 | every adapter event can be recovered from its bus event |
| HaBridge.ToHaEvents | trinnov_altitude/ha_bridge.py:57-62 | the loop produces exactly the mapped bus events |
| HaBridge.ChangedFields | trinnov_altitude/ha_bridge.py:73 | the changed fields are the deltas' field names, in order |
| HaBridge.BuildBridgeUpdate | trinnov_altitude/ha_bridge.py:65-75 | the update combines the payload, the changed fields and the bus events |
| HaBridge.ChangedFieldsExact | trinnov_altitude/ha_bridge.py:65-75 | a field name is listed exactly when that field differs between the snapshots, and the list is empty exactly when they are equal |
| HaBridge.Emissions | trinnov_altitude/ha_bridge.py:94-96 | the emitter receives each bus event's type and data, in order |
| HaBridge.HABridgeDispatcher.constructor | trinnov_altitude/ha_bridge.py:81-83 | a new dispatcher has no last update and has emitted nothing |
| HaBridge.HABridgeDispatcher.HandleAdapterUpdate | trinnov_altitude/ha_bridge.py:85-98 | the update is built and remembered; its bus events are emitted in order when there is an emitter, and nothing is emitted otherwise |
| HaBridge.HABridgeDispatcher.Emit | trinnov_altitude/ha_bridge.py:94-96 | the emit loop appends exactly the emissions of the bus events |
| Commands.MatchMacGroupsShape | trinnov_altitude/client.py:112 | the MAC pattern accepts exactly six hex pairs joined by `:` or `-`, optionally followed by one final newline, as `$` allows |
| Commands.LowerMacShape | trinnov_altitude/client.py:113 | lower-casing the address does not change whether the pattern accepts it |
| Commands.ValidateMac | trinnov_altitude/client.py:110-115 | a rejected address is reported as malformed, carrying the address |
| Commands.ValidateMacAccepts | trinnov_altitude/client.py:110-115 | the client accepts an address exactly when it has the six-pair shape, with or without one trailing newline |
| Commands.VolumePercentage | trinnov_altitude/client.py:364-368 | a percentage exists exactly when a volume does, and it is within 0..100 exactly when the volume is within -120..20 dB |
| Commands.VolumeOfPercentage | trinnov_altitude/client.py:436 | the volume of a percentage is within -120..20 dB exactly when the percentage is within 0..100 |
| Commands.PercentageRoundTrip | trinnov_altitude/client.py:364-368 | the percentage and volume conversions are inverse to each other, both ways round |
| Commands.RoundHalfEven | trinnov_altitude/client.py:437 | rounding is to the nearest integer, and a tie goes to the even one |
| Commands.VolumePercentageLine | trinnov_altitude/client.py:433-437 | the line fails exactly for a percentage outside 0..100, with the source's message |
| Commands.VolumePercentageLineSpec | trinnov_altitude/client.py:433-437 | for 0..100 the line is `volume ` and a decimal within 0.05 dB of the exact volume, inside -120..20 dB, whose percentage is within 0.05/1.4 of the request |
| Commands.VolumePercentageExample | trinnov_altitude/client.py:433-437 | 52.86 % is sent as `volume -46.0` |
| Commands.SetUsesVerb | trinnov_altitude/client.py:448-545 | every `<setting>_set` sends the setting's command word and 1 or 0 |
| Commands.ToggleUsesVerb | trinnov_altitude/client.py:448-545 | every `<setting>_toggle` sends the setting's command word and 2 |
| Commands.VolumeShortcuts | trinnov_altitude/client.py:424-428 | volume up and down send the same lines as adjusting by +0.5 and -0.5 dB |
| Commands.PageShortcuts | trinnov_altitude/client.py:442-446 | page up and down send the same lines as changing the page by +1 and -1 |
| Commands.SelectionLinesCarryIndex | trinnov_altitude/client.py:390-400 | the `profile` and `loadp` lines carry an index that reads back as the one requested |
| Commands.SourceIdByName | trinnov_altitude/client.py:403-406 | the loop finds the first source, in insertion order, that has the name |
| Client.RemoveSpec | trinnov_altitude/client.py:332-333 | removing a waiter from the queue removes exactly that one and keeps the rest distinct |
| Client.PushWaiter | trinnov_altitude/client.py:323-326 | a new waiter is not queued yet, and queueing it keeps the waiter bookkeeping consistent |
| Client.PopWaiter | trinnov_altitude/client.py:283-286 | settling the oldest waiter keeps the bookkeeping consistent |
| Client.RemoveWaiter | trinnov_altitude/client.py:344-346 | removing an abandoned waiter keeps the bookkeeping consistent, and the waiter is gone |
| Client.FailAll | trinnov_altitude/client.py:214-218 | every queued waiter, and nothing else, is failed with not-connected |
| Client.LastN | trinnov_altitude/client.py:104 | a bounded deque keeps the last n items, as many as there are up to n |
| Client.LastNSnoc | trinnov_altitude/client.py:259 | appending to a bounded deque keeps the last n of the whole history |
| Client.LoggedUpToCount | trinnov_altitude/client.py:257-268 | after n unknown lines, min(n, 5) + n / 100 warnings have been logged |
| Client.DelayClosedForm | trinnov_altitude/client.py:295-302 | the delay before retry k is min(initial × 2^k, maximum) |
| Client.CappedBounds | trinnov_altitude/client.py:299-302 | the capped delay lies within 0..maximum and never decreases from one retry to the next |
| Client.SleepBounds | trinnov_altitude/client.py:299-302 | each sleep lies between the capped delay and the capped delay times (1 + jitter) |
| Client.BackoffExample | trinnov_altitude/client.py:299-302 | without jitter, starting at 0.1 s with a 0.4 s cap gives 0.1, 0.2, 0.4, 0.4 |
| Client.NewClient | trinnov_altitude/client.py:53-104 | creation fails exactly for a given MAC address that fails the check, reporting it as malformed; otherwise the new client is disconnected with a fresh state |
| Client.TrinnovAltitudeClient.constructor | trinnov_altitude/client.py:53-104 | a new client keeps its settings and starts disconnected, not stopping, not synchronised, with no waiters, nothing sent and an initial state |
| Client.TrinnovAltitudeClient.PowerOn | trinnov_altitude/client.py:370-376 | wake-on-LAN succeeds exactly when a MAC address is known, and then the packet goes to it; otherwise it fails with no-MAC |
| Client.TrinnovAltitudeClient.ResolveAckWaiter | trinnov_altitude/client.py:278-286 | `OK` or `ERROR` settles the oldest waiter with that reply; any other message, or an empty queue, changes nothing |
| Client.TrinnovAltitudeClient.SendCommand | trinnov_altitude/client.py:311-335 | with no open transport or a broken link the result is not-connected, and a timed-out send gives the send-timeout error; in those cases nothing is sent and no waiter is left. Otherwise the line is sent, and a waiter is queued exactly when an acknowledgement is wanted |
| Client.TrinnovAltitudeClient.AwaitAck | trinnov_altitude/client.py:337-351 | a waiter failed by a disconnect gives not-connected, an `ERROR` reply gives command-rejected with the line and the error, any other reply is returned; an unsettled waiter times out and is removed |
| Client.TrinnovAltitudeClient.Disconnect | trinnov_altitude/client.py:208-226 | the transport is dropped, the latch cleared, the state reset and every waiter failed; `disconnected` is emitted only if there was a transport |
| Client.TrinnovAltitudeClient.FailWaiters | trinnov_altitude/client.py:214-218 | the waiter queue is emptied and every queued waiter is failed with not-connected |
| Client.TrinnovAltitudeClient.ConnectAndBootstrap | trinnov_altitude/client.py:188-206 | a connected client is left alone; otherwise the latch is cleared and the state reset, and a successful connect sets bypass, dim and mute off, emits `connected` and sends the three bootstrap lines |
| Client.TrinnovAltitudeClient.SwitchOffOutputs | trinnov_altitude/client.py:198-200 | after a connect, bypass, dim and mute are off and nothing else changes |
| Client.TrinnovAltitudeClient.SendBootstrap | trinnov_altitude/client.py:204-206 | the bootstrap sends `id <client id>`, `send volume` and `get_current_state` in order, and stops at the first send that fails |
| Client.TrinnovAltitudeClient.AttemptReconnectUntilSuccess | trinnov_altitude/client.py:288-304 | a stopping client, or one without auto-reconnect, gives up at once; otherwise each failed attempt sleeps the backoff of its retry number, and the loop ends at the first success |
| Client.TrinnovAltitudeClient.Backoff | trinnov_altitude/client.py:299-302 | one backoff step sleeps the jittered capped delay and doubles the delay, within its bounds |
| Client.TrinnovAltitudeClient.Start | trinnov_altitude/client.py:149-155 | a client already listening is left alone and reports already-listening. Otherwise the stop flag is cleared and the connect and bootstrap run, with their full outcome: a connected client is untouched; a failed connect leaves an unconnected transport, the initial state and nothing sent; a successful one switches bypass, dim and mute off, announces the connection and sends `id`, `send volume` and `get_current_state` as far as the transport takes them. The client listens exactly when that succeeded |
| Client.TrinnovAltitudeClient.AdapterCallback | trinnov_altitude/client.py:123-140 | only a received message updates the adapter; the first delivery is the snapshot with no deltas and one `initial` event; a later one reaches the callback exactly when the snapshot changed, and then carries the deltas and events against the previous snapshot |
| Client.TrinnovAltitudeClient.Stop | trinnov_altitude/client.py:157-166 | stopping sets the stop flag, ends listening and disconnects: the transport is dropped, the latch cleared, the state reset, every pending waiter failed with not-connected, and the disconnect announced when there was a transport |
| Client.TrinnovAltitudeClient.RecordUnknownMessage | trinnov_altitude/client.py:257-268 | the unknown count goes up by one, the sample keeps the last 20 lines, and a warning is logged for the first five and every hundredth |
| Client.TrinnovAltitudeClient.ListenStep | trinnov_altitude/client.py:228-255 | a stopping client stops; with no connected transport (none, or one whose connect failed) or a lost link the connection is lost; a timeout changes nothing; a line read is parsed and processed: the state, the events, the latch, the unknown-line record, and the oldest waiter settled with the reply when it is `OK` or `ERROR` |
| Client.TrinnovAltitudeClient.ProcessMessage | trinnov_altitude/client.py:233-250 | a message is applied to the state, recorded if unknown, emitted, and sets the latch once the state is synchronised; an `OK` or `ERROR` reply pops the oldest waiter and settles it with that reply, and anything else leaves the waiters and their outcomes as they were |
| Client.TrinnovAltitudeClient.ApplyToState | trinnov_altitude/client.py:239 | the owned state changes exactly as applying the message says |
| Client.TrinnovAltitudeClient.UpdateSyncLatch | trinnov_altitude/client.py:249-250 | the latch is set once the state is synchronised and is never cleared here |
| Client.TrinnovAltitudeClient.SourceSetByName | trinnov_altitude/client.py:402-407 | an unknown name fails with `Unknown source name: <name>` and sends nothing; otherwise `profile <id>` for the first source with that name is sent and the call passes, or the send's own error is returned and nothing is sent |
| Client.TrinnovAltitudeClient.VolumePercentageSet | trinnov_altitude/client.py:433-437 | a percentage outside 0..100 fails and sends nothing; otherwise the rounded volume line is sent and the call passes, or the send's own error is returned and nothing is sent |
| Client.TrinnovAltitudeClient.CurrentVolumePercentage | trinnov_altitude/client.py:364-368 | a percentage exists exactly when the state has a volume, and converting it back gives that volume |
| CommandBridge.CommandSets | trinnov_altitude/command_bridge.py:12-56 | `power_off` needs an acknowledgement but is not a valid bridge command; every other acknowledged command is valid |
| CommandBridge.SkipBlanks | trinnov_altitude/command_bridge.py:69 | skipping the blanks `shlex.split` separates at (space, tab, CR, LF) leaves a suffix that is empty or starts with a non-blank |
| CommandBridge.TokensAreWords | trinnov_altitude/command_bridge.py:69 | every token is a non-empty run of characters other than space, tab, CR and LF |
| CommandBridge.ParseCommand | trinnov_altitude/command_bridge.py:67-72 | a failure is the empty-command error; a success is the tokens of the line, the first as the method name |
| CommandBridge.ParseCommandEmpty | trinnov_altitude/command_bridge.py:70-71 | parsing fails exactly when the line is made only of spaces, tabs, CRs and LFs |
| CommandBridge.SingleWord | trinnov_altitude/command_bridge.py:67-72 | a line that is one word is a method name with no arguments |
| CommandBridge.OtherWhitespaceIsWordText | trinnov_altitude/command_bridge.py:69 | a vertical tab alone, or `volume`, a form feed and `-40`, is one word, because `shlex.split` does not separate at those characters |
| CommandBridge.TokensOfJoin | trinnov_altitude/command_bridge.py:69 | joining words with single spaces and splitting again gives the words back |
| CommandBridge.ParseCommandOfJoin | trinnov_altitude/command_bridge.py:67-72 | a method name and arguments joined by spaces parse back to themselves |
| CommandBridge.ParseCommandOfTokens | trinnov_altitude/command_bridge.py:67-72 | a line whose tokens are a name and arguments parses to them |
| CommandBridge.CastPrimitive | trinnov_altitude/command_bridge.py:75-90 | a boolean exactly for `true`/`false` in any case, and it is true exactly for `true`; text is kept only when it is neither an integer nor a float |
| CommandBridge.CastPrecedence | trinnov_altitude/command_bridge.py:82-89 | outside the booleans, an integer is chosen exactly when `int()` accepts the text, and a float exactly when only `float()` does |
| CommandBridge.IntTextIsFloatText | trinnov_altitude/command_bridge.py:82-89 | any text `int()` accepts, `float()` accepts with the same value |
| CommandBridge.CastIntText | trinnov_altitude/command_bridge.py:82-83 | the text of any integer is cast to that integer |
| CommandBridge.FindUpmixer | trinnov_altitude/command_bridge.py:96-98 | a found mode is listed and has the value searched for; no mode is found exactly when none has it |
| CommandBridge.FindRemapping | trinnov_altitude/command_bridge.py:106-108 | the same search, comparing lower-cased values |
| CommandBridge.ParseUpmixerMode | trinnov_altitude/command_bridge.py:93-100 | the failure message names the value and lists every valid mode |
| CommandBridge.ParseRemappingMode | trinnov_altitude/command_bridge.py:103-112 | the failure message names the value and lists every valid mode |
| CommandBridge.ParseUpmixerModeIff | trinnov_altitude/command_bridge.py:93-100 | a value parses to a mode exactly when its lower case is that mode's value, and every mode's value parses to it |
| CommandBridge.ParseRemappingModeIff | trinnov_altitude/command_bridge.py:103-112 | a value parses to a mode exactly when the two agree case-insensitively, and every mode's value parses to it |
| CommandBridge.FindUpmixerIff | trinnov_altitude/command_bridge.py:96-98 | the search finds a mode exactly when the value is that mode's value |
| CommandBridge.FindRemappingIff | trinnov_altitude/command_bridge.py:106-108 | the search finds a mode exactly when the value is that mode's lower-cased value |
| CommandBridge.UpmixerValueInjective | trinnov_altitude/const.py:18-31 | no two upmixer modes share a value |
| CommandBridge.RemappingValueInjective | trinnov_altitude/const.py:4-15 | no two remapping modes share a value, even ignoring case |
| CommandBridge.ModeExamples | trinnov_altitude/command_bridge.py:103-112 | `3d` parses as the 3D remapping mode |
| CommandBridge.NormalizeArgs | trinnov_altitude/command_bridge.py:115-124 | source names are re-joined with spaces, upmixer and remapping arguments parse as modes and report the parser's error, and everything else is cast argument by argument |
| CommandBridge.SourceNameSurvives | trinnov_altitude/command_bridge.py:115-119 | a source name of several words survives parsing and normalising as the original text |
| LegacyMessages.LineText | trinnov_altitude/messages.py:7 | `(.*)` takes a prefix of the text that stops just before the first newline |
| LegacyMessages.MatchAudiosync | trinnov_altitude/messages.py:7-9 | a match means the line starts with `AUDIOSYNC` and yields an audiosync message |
| LegacyMessages.MatchBypass | trinnov_altitude/messages.py:10-12 | a match means the line starts with `BYPASS` and yields a bypass message |
| LegacyMessages.MatchCurrentPreset | trinnov_altitude/messages.py:13-16 | a match means the line starts with `CURRENT_PRESET` and yields a non-negative preset index |
| LegacyMessages.MatchCurrentProfile | trinnov_altitude/messages.py:17-19 | a match means the line starts with `CURRENT_PROFILE` and yields a current-source message |
| LegacyMessages.MatchSourceFormat | trinnov_altitude/messages.py:20-22 | a match means the line starts with `CURRENT_SOURCE_FORMAT_NAME` and yields a source-format message |
| LegacyMessages.MatchDecoder | trinnov_altitude/messages.py:23-30 | a match means the line starts with `DECODER NONAUDIO ` and yields a decoder message |
| LegacyMessages.MatchDim | trinnov_altitude/messages.py:31-33 | a match means the line starts with `DIM` and yields a dim message |
| LegacyMessages.MatchError | trinnov_altitude/messages.py:34-36 | a match means the line starts with `ERROR: ` and yields an error message |
| LegacyMessages.MatchLabel | trinnov_altitude/messages.py:37-40 | a match means the line starts with `LABEL` and yields a preset entry |
| LegacyMessages.MatchKeyword | trinnov_altitude/messages.py:41-42 | a keyword-only rule (`LABELS_CLEAR`, `OK`, `PROFILES_CLEAR`) matches only a line starting with it, and yields its fixed message |
| LegacyMessages.MatchMute | trinnov_altitude/messages.py:43-45 | a match means the line starts with `MUTE` and yields a mute message |
| LegacyMessages.MatchProfile | trinnov_altitude/messages.py:48-51 | a match means the line starts with `PROFILE` and yields a source entry |
| LegacyMessages.MatchSrate | trinnov_altitude/messages.py:54-56 | a match means the line starts with `SRATE `; a success is a sampling-rate message |
| LegacyMessages.MatchVolume | trinnov_altitude/messages.py:57-59 | a match means the line starts with `VOLUME` and yields a volume message |
| LegacyMessages.MatchWelcome | trinnov_altitude/messages.py:60-66 | a match means the line starts with the welcome banner and yields a welcome message |
| LegacyMessages.RuleMatchShape | trinnov_altitude/messages.py:6-66 | a matching rule matches at its keyword, never yields an unknown message, and only the `SRATE` rule can fail |
| LegacyMessages.UnknownIffNoRule | trinnov_altitude/messages.py:67-68 | the factory returns `UnknownMessage(line)` exactly when no rule matches |
| LegacyMessages.FailureOnlyFromSrate | trinnov_altitude/messages.py:54-56 | the factory fails only on an `SRATE ` line whose text is not an integer, reporting that text |
| LegacyMessages.LabelRulesExclusive | trinnov_altitude/messages.py:37-42 | `LABEL` and `LABELS_CLEAR` never both match a line |
| LegacyMessages.ProfileRulesExclusive | trinnov_altitude/messages.py:48-53 | `PROFILE` and `PROFILES_CLEAR` never both match a line |
| LegacyMessages.DecoderDimExclusive | trinnov_altitude/messages.py:23-33 | the decoder and dim rules never both match a line |
| LegacyMessages.PresetRuleExclusive | trinnov_altitude/messages.py:13-22 | a `CURRENT_PRESET` line matches neither `CURRENT_PROFILE` nor `CURRENT_SOURCE_FORMAT_NAME` |
| LegacyMessages.ProfileFormatExclusive | trinnov_altitude/messages.py:17-22 | `CURRENT_PROFILE` and `CURRENT_SOURCE_FORMAT_NAME` never both match a line |
| LegacyMessages.SameInitialExclusive | trinnov_altitude/messages.py:6-66 | two different rules whose keywords share a first letter never both match a line |
| LegacyMessages.RulesExclusive | trinnov_altitude/messages.py:6-66 | no two different rules match the same line |
| LegacyMessages.RuleDecides | trinnov_altitude/messages.py:6-68 | since the rules exclude each other, any rule that matches decides the factory's result, whatever the order of the chain |
| LegacyMessages.AudiosyncDecides | trinnov_altitude/messages.py:7-9 | a line the audiosync rule matches gives that message |
| LegacyMessages.BypassDecides | trinnov_altitude/messages.py:10-12 | a line the bypass rule matches gives that message |
| LegacyMessages.CurrentPresetDecides | trinnov_altitude/messages.py:13-16 | a line the current-preset rule matches gives that message |
| LegacyMessages.CurrentProfileDecides | trinnov_altitude/messages.py:17-19 | a line the current-profile rule matches gives that message |
| LegacyMessages.DecoderDecides | trinnov_altitude/messages.py:23-30 | a line the decoder rule matches gives that message |
| LegacyMessages.DimDecides | trinnov_altitude/messages.py:31-33 | a line the dim rule matches gives that message |
| LegacyMessages.LabelDecides | trinnov_altitude/messages.py:37-40 | a line the label rule matches gives that message |
| LegacyMessages.MuteDecides | trinnov_altitude/messages.py:43-45 | a line the mute rule matches gives that message |
| LegacyMessages.ProfileDecides | trinnov_altitude/messages.py:48-51 | a line the profile rule matches gives that message |
| LegacyMessages.VolumeDecides | trinnov_altitude/messages.py:57-59 | a line the volume rule matches gives that message |
| LegacyMessages.CurrentPresetClamped | trinnov_altitude/messages.py:13-16 | `CURRENT_PRESET n` gives index max(0, n), whatever non-digit text follows |
| LegacyMessages.CurrentProfileUnclamped | trinnov_altitude/messages.py:17-19 | `CURRENT_PROFILE n` gives index n, negative ones included |
| LegacyMessages.DimNonZero | trinnov_altitude/messages.py:31-33 | `DIM n` gives dim on exactly when n is not zero |
| LegacyMessages.BypassIgnoresTrailing | trinnov_altitude/messages.py:10-12 | `BYPASS` with 0 or 1 gives that state whatever follows the digit |
| LegacyMessages.MuteIgnoresTrailing | trinnov_altitude/messages.py:43-45 | `MUTE` with 0 or 1 gives that state whatever follows the digit |
| LegacyMessages.OkIgnoresTrailing | trinnov_altitude/messages.py:46-47 | any line starting with `OK` is an OK message |
| LegacyMessages.OkayExample | trinnov_altitude/messages.py:46-47 | `OKAY` is read as an OK message |
| LegacyMessages.AudiosyncTakesLine | trinnov_altitude/messages.py:7-9 | the audiosync mode is the text after the keyword, up to the first newline |
| LegacyMessages.AudiosyncKeepsWholeLine | trinnov_altitude/messages.py:7-9 | on a one-line text the mode is all of it |
| LegacyMessages.LabelEntry | trinnov_altitude/messages.py:37-40 | `LABEL n: name` gives the preset entry (n, name) |
| LegacyMessages.ProfileEntry | trinnov_altitude/messages.py:48-51 | `PROFILE n: name` gives the source entry (n, name) |
| LegacyMessages.ProfileIndexUnknown | trinnov_altitude/messages.py:48-53 | a bare `PROFILE n`, without a name, is an unknown message |
| LegacyMessages.OnlyProfileRulesLeft | trinnov_altitude/messages.py:48-53 | a line starting with `P` that neither profile rule matches is unknown |
| LegacyMessages.SrateFailsIff | trinnov_altitude/messages.py:54-56 | `SRATE t` fails exactly when `int()` refuses the text; otherwise it gives that rate |
| LegacyMessages.SrateLine | trinnov_altitude/messages.py:54-56 | the `SRATE` rule always matches such a line, giving the rate or the invalid-rate error |
| LegacyMessages.VolumeReadsDecimal | trinnov_altitude/messages.py:57-59 | `VOLUME` with a decimal gives the value that decimal spells, whatever non-numeric text follows |
| LegacyMessages.DecoderVerbatim | trinnov_altitude/messages.py:23-30 | a decoder line gives both flags and the two names verbatim; unlike the newer parser, the names are not translated |
| LegacyMessages.DecoderNamesAreWords | trinnov_altitude/messages.py:23-30 | the decoder and upmixer names read are runs of word characters |
| LegacyClient.ValidateMacAsWritten | trinnov_altitude/trinnov_altitude.py:40-58 | the check as written accepts only addresses whose format the newer client accepts too |
| LegacyClient.ValidateMac | trinnov_altitude/trinnov_altitude.py:40-58 | the corrected check accepts only well-formed addresses |
| LegacyClient.ValidateMacAccepts | trinnov_altitude/trinnov_altitude.py:40-58 | the corrected check accepts exactly the well-formed addresses from a Trinnov or ASUSTek OUI, whichever separator they use; a rejected OUI is reported in colon form with the valid OUIs |
| LegacyClient.DashedMacRejectedAsWritten | trinnov_altitude/trinnov_altitude.py:49-56 | as written, every well-formed dash-separated address is rejected for its OUI |
| LegacyClient.DashedOuiUnlisted | trinnov_altitude/trinnov_altitude.py:54-56 | the first eight characters of a dash-separated address are never a listed OUI |
| LegacyClient.DashedTrinnovMac | trinnov_altitude/trinnov_altitude.py:49-56 | a dashed Trinnov address is rejected as written and accepted by the corrected check |
| LegacyClient.ChecksAgreeWithoutDashes | trinnov_altitude/trinnov_altitude.py:40-58 | on addresses without a dash the written and corrected checks agree |
| LegacyClient.FrontDisplayToggleAsWritten | trinnov_altitude/trinnov_altitude.py:359-365 | as written, toggling the front display sends the dim toggle; the corrected line differs from it |
| LegacyClient.UpmixerSetAsWritten | trinnov_altitude/trinnov_altitude.py:574-581 | as written, setting the upmixer sends a `remapping_mode` line that no remapping mode sends; the corrected line starts with `upmixer ` |
| LegacyClient.AsWrittenDiffersOnlyThere | trinnov_altitude/trinnov_altitude.py:253-635 | the written and corrected command lines differ exactly for the front-display toggle and the upmixer setting |
| LegacyClient.CorrectedLinesMatchNewerClient | trinnov_altitude/trinnov_altitude.py:253-635 | every corrected legacy command except the page commands sends the same line as the newer client's command |
| LegacyClient.SettingLinesMatch | trinnov_altitude/trinnov_altitude.py:253-572 | each setting's set and toggle send the same lines as the newer client |
| LegacyClient.PowerOffLineMatches | trinnov_altitude/trinnov_altitude.py:448-450 | power off sends the same line as the newer client |
| LegacyClient.PresetGetLineMatches | trinnov_altitude/trinnov_altitude.py:459-463 | the preset query sends the same line as the newer client |
| LegacyClient.SourceGetLineMatches | trinnov_altitude/trinnov_altitude.py:517-521 | the source query sends the same line as the newer client |
| LegacyClient.VolumeUpLineMatches | trinnov_altitude/trinnov_altitude.py:631-635 | volume up sends the same line as the newer client |
| LegacyClient.VolumeDownLineMatches | trinnov_altitude/trinnov_altitude.py:591-595 | volume down sends the same line as the newer client |
| LegacyClient.SelectionLinesMatch | trinnov_altitude/trinnov_altitude.py:465-529 | preset and source selection send the same lines as the newer client |
| LegacyClient.RemappingLineMatches | trinnov_altitude/trinnov_altitude.py:506-515 | the remapping mode sends the same line as the newer client |
| LegacyClient.UpmixerLineMatches | trinnov_altitude/trinnov_altitude.py:574-581 | the corrected upmixer setting sends the same line as the newer client |
| LegacyClient.VolumeAdjustLineMatches | trinnov_altitude/trinnov_altitude.py:583-589 | a volume adjustment sends the same line as the newer client |
| LegacyClient.VolumeSetLineMatches | trinnov_altitude/trinnov_altitude.py:612-618 | an absolute volume sends the same line as the newer client |
| LegacyClient.VolumeRampLineMatches | trinnov_altitude/trinnov_altitude.py:620-629 | a volume ramp sends the same line as the newer client |
| LegacyClient.PageShortcuts | trinnov_altitude/trinnov_altitude.py:427-446 | page up and down send the same lines as adjusting the page by +1 and -1 |
| LegacyClient.VolumeShortcuts | trinnov_altitude/trinnov_altitude.py:583-635 | volume up and down send the same lines as adjusting by +0.5 and -0.5 dB |
| LegacyClient.WireText | trinnov_altitude/trinnov_altitude.py:768-769 | what goes on the wire ends in exactly one added newline, or none when the line already ends in one |
| LegacyClient.Latched | trinnov_altitude/trinnov_altitude.py:726-733 | the latch is set when it was set before or when the id, the version and both catalogs are known; nothing else changes |
| LegacyClient.ProcessWellFormed | trinnov_altitude/trinnov_altitude.py:680-735 | processing a message keeps every catalog index unique |
| LegacyClient.LatchOnce | trinnov_altitude/trinnov_altitude.py:726-733 | the latch is never cleared by a message, and it is set exactly when it was set already or the state after the message is ready |
| LegacyClient.ProcessFrames | trinnov_altitude/trinnov_altitude.py:685-720 | each message changes only the fields of its own branch; OK, error and unknown messages change no field |
| LegacyClient.SelectionReadsCatalog | trinnov_altitude/trinnov_altitude.py:689-694 | a current preset or source takes its name from the catalog as it is now, and has none when the index is not listed |
| LegacyClient.NoBackfill | trinnov_altitude/trinnov_altitude.py:689-705 | unlike the newer reducer, a current preset reported before its catalog entry stays unnamed when the entry arrives |
| LegacyClient.PresetCatalogUpdates | trinnov_altitude/trinnov_altitude.py:704-707 | a preset entry is stored under its index without touching other indices; a clear empties only the preset catalog |
| LegacyClient.SourceCatalogUpdates | trinnov_altitude/trinnov_altitude.py:710-713 | a source entry is stored under its index without touching other indices; a clear empties only the source catalog |
| LegacyClient.SyncAfterWelcomeAndCatalogs | trinnov_altitude/trinnov_altitude.py:726-733 | the banner, one preset entry and one source entry, in that order, set the latch |
| LegacyClient.ReconnectKeepsSync | trinnov_altitude/trinnov_altitude.py:153-193 | a disconnect and a new connect keep the identity, the catalogs and the latch; the session readings restart with bypass, dim and mute off |
| LegacyClient.NamelessProfileIgnored | trinnov_altitude/trinnov_altitude.py:680-735 | a bare `PROFILE n` line is unknown to the factory and leaves the client's state unchanged |
| LegacyClient.NewClient | trinnov_altitude/trinnov_altitude.py:60-100 | creation fails exactly for a given MAC address that the check rejects, with the check's error; otherwise the client starts disconnected with nothing known |
| LegacyClient.TrinnovAltitude.constructor | trinnov_altitude/trinnov_altitude.py:60-100 | a new client keeps its id and MAC, knows nothing, is disconnected and has sent nothing |
| LegacyClient.TrinnovAltitude.VolumePercentage | trinnov_altitude/trinnov_altitude.py:241-247 | a percentage exists exactly when a volume does, lies within 0..100 exactly when the volume is in range, and converts back to the volume |
| LegacyClient.TrinnovAltitude.ProcessMessage | trinnov_altitude/trinnov_altitude.py:680-735 | a line the factory refuses raises and changes nothing; otherwise its message updates the state as processing says and is passed to the callbacks |
| LegacyClient.TrinnovAltitude.Latch | trinnov_altitude/trinnov_altitude.py:726-733 | the latch step changes the state exactly as the latching function says |
| LegacyClient.TrinnovAltitude.ApplyMessage | trinnov_altitude/trinnov_altitude.py:685-720 | the branch chain updates the fields exactly as the message's application says |
| LegacyClient.TrinnovAltitude.ApplyAudiosync | trinnov_altitude/trinnov_altitude.py:685-686 | the audiosync branch updates the state as the application says |
| LegacyClient.TrinnovAltitude.ApplyBypass | trinnov_altitude/trinnov_altitude.py:687-688 | the bypass branch updates the state as the application says |
| LegacyClient.TrinnovAltitude.ApplyCurrentPreset | trinnov_altitude/trinnov_altitude.py:689-690 | the current-preset branch looks the name up as the application says |
| LegacyClient.TrinnovAltitude.ApplySourceFormat | trinnov_altitude/trinnov_altitude.py:691-692 | the source-format branch updates the state as the application says |
| LegacyClient.TrinnovAltitude.ApplyCurrentSource | trinnov_altitude/trinnov_altitude.py:693-694 | the current-source branch looks the name up as the application says |
| LegacyClient.TrinnovAltitude.ApplyDecoder | trinnov_altitude/trinnov_altitude.py:695-697 | the decoder branch sets decoder and upmixer as the application says |
| LegacyClient.TrinnovAltitude.ApplyDim | trinnov_altitude/trinnov_altitude.py:698-699 | the dim branch updates the state as the application says |
| LegacyClient.TrinnovAltitude.ApplyPreset | trinnov_altitude/trinnov_altitude.py:704-705 | a preset entry is stored as the application says |
| LegacyClient.TrinnovAltitude.ApplyPresetsClear | trinnov_altitude/trinnov_altitude.py:706-707 | a preset clear empties the catalog as the application says |
| LegacyClient.TrinnovAltitude.ApplyMute | trinnov_altitude/trinnov_altitude.py:708-709 | the mute branch updates the state as the application says |
| LegacyClient.TrinnovAltitude.ApplySource | trinnov_altitude/trinnov_altitude.py:710-711 | a source entry is stored as the application says |
| LegacyClient.TrinnovAltitude.ApplySourcesClear | trinnov_altitude/trinnov_altitude.py:712-713 | a source clear empties the catalog as the application says |
| LegacyClient.TrinnovAltitude.ApplySamplingRate | trinnov_altitude/trinnov_altitude.py:714-715 | the sampling-rate branch updates the state as the application says |
| LegacyClient.TrinnovAltitude.ApplyVolume | trinnov_altitude/trinnov_altitude.py:716-717 | the volume branch updates the state as the application says |
| LegacyClient.TrinnovAltitude.ApplyWelcome | trinnov_altitude/trinnov_altitude.py:718-720 | the welcome branch sets version and id as the application says |
| LegacyClient.TrinnovAltitude.ResetSession | trinnov_altitude/trinnov_altitude.py:166-176 | a disconnect clears the session readings and keeps identity, catalogs and latch |
| LegacyClient.TrinnovAltitude.Disconnect | trinnov_altitude/trinnov_altitude.py:153-180 | a connected client drops the connection, clears the session and notifies `disconnected`; a disconnected one changes nothing |
| LegacyClient.TrinnovAltitude.Write | trinnov_altitude/trinnov_altitude.py:760-782 | without a connection it raises not-connected; otherwise the wire text is written, and a failed drain disconnects and raises |
| LegacyClient.TrinnovAltitude.Connect | trinnov_altitude/trinnov_altitude.py:106-141 | a connected client is left alone; a timeout or refusal raises its own error and changes nothing; an open connection switches bypass, dim and mute off, notifies `connected` and sends the bootstrap |
| LegacyClient.TrinnovAltitude.OpenSession | trinnov_altitude/trinnov_altitude.py:128-136 | opening sets bypass, dim and mute off and notifies `connected` |
| LegacyClient.TrinnovAltitude.SendBootstrap | trinnov_altitude/trinnov_altitude.py:138-141 | the bootstrap writes `id <client id>`, `send volume`, `get_current_preset` and `get_current_profile` in order, and a failed write disconnects |
| LegacyClient.TrinnovAltitude.Reconnect | trinnov_altitude/trinnov_altitude.py:182-193 | a connected client is disconnected first, with its notification; then every outcome of the connect is stated: a timeout or refusal raises its own error and leaves the client disconnected; an open sends the bootstrap lines, and either all four drain and the client is connected, or the failed write disconnects it and raises |
| LegacyClient.TrinnovAltitude.Read | trinnov_altitude/trinnov_altitude.py:737-758 | without a connection it raises; end of stream disconnects, notifies and raises; otherwise the right-stripped line is processed, and a message the factory accepts updates the state and is passed to the callbacks |
| LegacyClient.TrinnovAltitude.Command | trinnov_altitude/trinnov_altitude.py:253-635 | every command writes its corrected line: without a connection it raises and changes nothing; a drained write passes and changes no state; a failed drain disconnects, notifies and raises |
| LegacyClient.TrinnovAltitude.VolumePercentageSet | trinnov_altitude/trinnov_altitude.py:597-610 | a percentage outside 0..100 raises and changes nothing; otherwise the rounded volume line is written, with every outcome of the write stated |
| LegacyClient.TrinnovAltitude.SourceSetByName | trinnov_altitude/trinnov_altitude.py:531-540 | an unknown name passes and changes nothing; otherwise `profile <id>` for the first source with the name is written, with every outcome of the write stated, including the not-connected raise |
| LegacyClient.TrinnovAltitude.PowerOn | trinnov_altitude/trinnov_altitude.py:452-457 | without a MAC address it raises no-MAC; with one, the wake-on-LAN packet goes to it |

## Left out

- Sockets, `asyncio` tasks, locks, timeouts and cancellation are not modelled. Each call's outcome is a parameter: a connect result, a send result, a read result, or whether a write drained.
- Sleeps are not modelled as waits. The reconnect loop returns the durations it would sleep.
- Callbacks are an append-only log of the events handed to them: `connected`, `disconnected` and received messages. Registering and deregistering callbacks is not modelled (trinnov_altitude/client.py:117-147 and trinnov_altitude/trinnov_altitude.py:147-151 and 195-200). The wrapper that `register_adapter_callback` registers is modelled as `AdapterCallback`; registering it is not.
- The listen tasks are not modelled as loops: `start_listening`, `stop_listening`, `wait_for_initial_sync`, `wait_synced` and the legacy `_listen` loop (trinnov_altitude/trinnov_altitude.py:640-678). One step of the newer loop is `ListenStep`, and the reconnect loop is `AttemptReconnectUntilSuccess`.
- Client.TrinnovAltitudeClient.AttemptReconnectUntilSuccess: gets a finite list of connect outcomes and random draws. When the list runs out, this is treated as a stop, because the source's loop can run forever.
- Logging and the legacy `print` are left out. Only the unknown-line warning count is modelled, because the source makes it observable.
- The wake-on-LAN packet itself is left out. `PowerOn` records the MAC address the packet would go to.
- The two clients' `sent` logs mean different things. The newer client logs a line only when the transport takes it. The legacy client logs what it hands to the socket, including a write whose drain then fails, as `_write` does.
- The transport module is abstracted to "open or not". The public `command` wrapper (trinnov_altitude/client.py:174-186) is `SendCommand` followed by `AwaitAck`.
- Floating point is modelled as exact real arithmetic. `round(x, 1)` is half-even rounding of the exact value, and float-to-text formatting is limited to one decimal place.
- Float-valued command arguments (`volume_set`, `volume_adjust`, `volume_ramp`) are carried as the text `str()` would give them, because the model has no float formatting.
- Speaker info is parsed into exact decimals. The library does nothing further with it.
- CommandBridge.ParseCommand: does not model `shlex.split` quoting and escapes. The tokenizer splits at space, tab, CR and LF only. That is what `shlex.split` does for text without quote characters or backslashes; text with them is not covered.
- Python's `int()` and `float()` also accept underscores, Unicode digits, `inf`, `nan` and exponents. The model accepts ASCII signed integers and decimals, with surrounding whitespace for `int()`. This affects `cast_primitive` and the legacy `SRATE` conversion.
- The regular expressions' `\d` and `\w` are restricted to ASCII. `\s` is Python's Unicode whitespace, as in the source.
- Bytes are not decoded. A received line is text, and an undecodable line is not modelled.
- LegacyClient.TrinnovAltitude.Write: does not model the ASCII encoding of written lines (trinnov_altitude/trinnov_altitude.py:27 and 771, trinnov_altitude/transport.py:13 and 68). A line with a non-ASCII character, such as an `id` line for a non-ASCII client id, raises `UnicodeEncodeError` in the source before any byte is written; the model writes it. The same gap holds for `LegacyClient.TrinnovAltitude.Connect` and `SendBootstrap` (where the legacy client has already marked itself connected and notified `connected`), and for `Client.TrinnovAltitudeClient.SendCommand` and `SendBootstrap`.
- `mocks.py` and the tests are not modelled, but the tests' examples (for instance `52.86` % giving `volume -46.0`) are proved as example lemmas.
- The newer parser never produces `Idents`, `MetaPresetLoaded` or `SourcesChanged`, and its `Source` messages have no `origin` field. The normalizer and reducer handle all of these, so `Message` is their union. Parsed source entries get the origin `profile`.
- The enumeration member `MODE_AUTOROUTE`, which appears in tests, does not exist in `const.py` and is not modelled.
- LegacyClient.TrinnovAltitude.constructor: requires a valid MAC address because a Dafny constructor cannot fail. `LegacyClient.NewClient` models the raising path. The same holds for `Client.TrinnovAltitudeClient.constructor` and `Client.NewClient`.
- LegacyClient.TrinnovAltitude.Command: writes the corrected command lines (`LegacyCommandLine`), so `front_display_toggle` sends `fav_light 2` and `upmixer_set` sends `upmixer <mode>`, not what trinnov_altitude/trinnov_altitude.py:365 and 581 write; the lines as written are `LegacyCommandLineAsWritten`, and the Findings table compares the two.
- The legacy constructor and `NewClient` use the corrected MAC check. The check as written is `ValidateMacAsWritten`; see Findings.
- The legacy client never initialises `sampling_rate` or `source_format` before a message sets them. The model starts both as absent.
- The unused `state` argument of the legacy toggle methods is not modelled.

## Findings

| source | as written | input that shows it | evidently intended | confidence | as-written member | corrected member |
|---|---|---|---|---|---|---|
| trinnov_altitude/trinnov_altitude.py:49-56 | the format check accepts `-` as a separator, but the OUI check compares the first eight characters with colon-separated OUIs only | `64-98-9E-01-02-03` (a Trinnov address written with dashes) is rejected with an invalid-OUI error | accept every well-formed address from a listed OUI, whichever separator it uses | not executed | LegacyClient.DashedMacRejectedAsWritten | LegacyClient.ValidateMacAccepts |
| trinnov_altitude/trinnov_altitude.py:359-365 | `front_display_toggle` sends `dim 2` | calling `front_display_toggle()` toggles dim, not the front display | send `fav_light 2`, as the setter and the newer client do | not executed | LegacyClient.FrontDisplayToggleAsWritten | LegacyClient.CorrectedLinesMatchNewerClient |
| trinnov_altitude/trinnov_altitude.py:574-581 | `upmixer_set` sends `remapping_mode <value>` | `upmixer_set(UpmixerMode.MODE_DTS)` sends `remapping_mode dts` | send `upmixer <value>`, as the newer client does | not executed | LegacyClient.UpmixerSetAsWritten | LegacyClient.CorrectedLinesMatchNewerClient |
