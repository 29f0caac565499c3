/**
 * The reduced device state.  `AltitudeState` is the mutable record the
 * client owns; `StateView` is its value at one moment, and `Step` says what
 * one canonical event does to that value.  The record's methods are proved
 * against `Step`, and the lemmas below are about `Step`.
 *
 * The record keeps the same five fields for presets and for sources (the
 * catalog, the current index, the resolved name and two "seen" flags), and
 * treats both the same way, so the value groups each five as a `Selection`
 * and states the catalog logic once.
 */
module State {
  import opened Wrappers
  import opened Catalog
  import opened Protocol
  import opened Canonical
  import opened Normalizer

  /** One catalog with its current index and the name that index resolves to. */
  datatype Selection = Selection(
    catalog: Catalog,
    index: Option<int>,
    name: Option<string>,
    seenCatalog: bool,
    seenCurrent: bool)

  /** What the processor reported about itself and its outputs. */
  datatype Device = Device(
    audiosync: Option<string>,
    audiosyncStatus: Option<bool>,
    bypass: Option<bool>,
    decoder: Option<string>,
    dim: Option<bool>,
    id: Option<string>,
    mute: Option<bool>,
    samplingRate: Option<int>,
    sourceFormat: Option<string>,
    upmixer: Option<string>,
    version: Option<string>,
    volume: Option<real>,
    features: set<string>,
    seenWelcome: bool)

  datatype StateView = StateView(device: Device, presets: Selection, sources: Selection)

  const NoSelection: Selection := Selection([], None, None, false, false)

  const NoDevice: Device :=
    Device(None, None, None, None, None, None, None, None, None, None, None, None, {}, false)

  /** A fresh or reset state: nothing known, nothing seen. */
  const Initial: StateView := StateView(NoDevice, NoSelection, NoSelection)

  // ---- One catalog and its current index ----

  /** A current-index report: remember the index and resolve it in the catalog as it is now. */
  function Choose(s: Selection, index: int): Selection {
    s.(index := Some(index), name := Get(s.catalog, index), seenCurrent := true)
  }

  /** A catalog entry: store it, and refresh the resolved name if it is the current index. */
  function Upsert(s: Selection, index: int, name: string): Selection {
    s.(catalog := Put(s.catalog, index, name), seenCatalog := true,
       name := if s.index == Some(index) then Some(name) else s.name)
  }

  /** A catalog clear: empty it, and drop the resolved name if an index is set. */
  function Clear(s: Selection): Selection {
    s.(catalog := [], seenCatalog := true, name := if s.index.Some? then None else s.name)
  }

  /** The name a catalog gives the current index; no index means no name. */
  function ResolvedName(c: Catalog, index: Option<int>): Option<string> {
    if index.None? then None else Get(c, index.value)
  }

  /** The catalog is a dictionary and the resolved name is its lookup of the current index. */
  predicate SelectionResolved(s: Selection) {
    Valid(s.catalog) && s.name == ResolvedName(s.catalog, s.index)
  }

  /** The current index has been reported, and the catalog has been seen or an index is known. */
  predicate SelectionReady(s: Selection) {
    s.seenCurrent && (s.seenCatalog || s.index.Some?)
  }

  // ---- The whole state ----

  /** Both catalogs hold each index at most once, as dictionaries do. */
  predicate Wf(v: StateView) {
    Valid(v.presets.catalog) && Valid(v.sources.catalog)
  }

  /** The resolved preset and source names agree with the catalogs. */
  predicate Resolved(v: StateView) {
    SelectionResolved(v.presets) && SelectionResolved(v.sources)
  }

  /**
   * The client considers itself synchronised once it has the banner, both
   * current selections, and for each catalog either the catalog or an index.
   */
  predicate IsSynced(v: StateView) {
    v.device.seenWelcome && SelectionReady(v.presets) && SelectionReady(v.sources)
  }

  /** One canonical event reduced into the state. */
  function Step(v: StateView, e: Event): StateView {
    match e
    case SetAudiosync(mode) => v.(device := v.device.(audiosync := Some(mode)))
    case SetAudiosyncStatus(synchronized) => v.(device := v.device.(audiosyncStatus := Some(synchronized)))
    case SetBypass(state) => v.(device := v.device.(bypass := Some(state)))
    case SetCurrentPreset(index) => v.(presets := Choose(v.presets, index))
    case SetSourceFormat(format) => v.(device := v.device.(sourceFormat := Some(format)))
    case SetCurrentSource(index) => v.(sources := Choose(v.sources, index))
    case SetFeatures(features) => v.(device := v.device.(features := set f | f in features))
    case SetDecoder(decoder, upmixer) => v.(device := v.device.(decoder := Some(decoder), upmixer := Some(upmixer)))
    case SetDim(state) => v.(device := v.device.(dim := Some(state)))
    case UpsertPreset(index, name) => v.(presets := Upsert(v.presets, index, name))
    case ClearPresets => v.(presets := Clear(v.presets))
    case SetMute(state) => v.(device := v.device.(mute := Some(state)))
    case UpsertSource(index, name, _) => v.(sources := Upsert(v.sources, index, name))
    case ClearSources => v.(sources := Clear(v.sources))
    case SourcesChangedEvent => v
    case SetSamplingRate(rate) => v.(device := v.device.(samplingRate := Some(rate)))
    case SetVolume(volume) => v.(device := v.device.(volume := Some(volume)))
    case SetWelcome(version, id) =>
      v.(device := v.device.(version := Some(version), id := Some(id), seenWelcome := true))
  }

  /** Events reduced one after another. */
  function StepAll(v: StateView, es: seq<Event>): StateView
    decreases |es|
  {
    if es == [] then v else StepAll(Step(v, es[0]), es[1..])
  }

  /** A raw message normalised under the profile the current features select, then reduced. */
  function ApplyMessage(v: StateView, m: Message): StateView {
    StepAll(v, NormalizeMessage(m, SelectProfile(v.device.features)))
  }

  lemma StepAllOne(v: StateView, e: Event)
    ensures StepAll(v, [e]) == Step(v, e)
  {
    assert [e][1..] == [];
  }

  lemma StepAllSnoc(v: StateView, es: seq<Event>, e: Event)
    ensures StepAll(v, es + [e]) == Step(StepAll(v, es), e)
    decreases |es|
  {
    if es == [] {
      assert es + [e] == [e];
      StepAllOne(v, e);
    } else {
      assert (es + [e])[1..] == es[1..] + [e];
      StepAllSnoc(Step(v, es[0]), es[1..], e);
    }
  }

  // ---- Properties of one selection ----

  /** Choosing, upserting and clearing each keep the resolved name equal to the lookup. */
  lemma SelectionStepsResolved(s: Selection, index: int, name: string)
    requires SelectionResolved(s)
    ensures SelectionResolved(Choose(s, index))
    ensures SelectionResolved(Upsert(s, index, name))
    ensures SelectionResolved(Clear(s))
  {
    PutSpec(s.catalog, index, name);
  }

  /**
   * The resolved name does not depend on whether the entry or the index
   * arrives first: an entry arriving after the index backfills the name.
   */
  lemma ChooseUpsertCommute(s: Selection, index: int, name: string)
    requires Valid(s.catalog)
    ensures Upsert(Choose(s, index), index, name).name == Some(name)
    ensures Choose(Upsert(s, index, name), index).name == Some(name)
    ensures Upsert(Choose(s, index), index, name) == Choose(Upsert(s, index, name), index)
  {
    PutSpec(s.catalog, index, name);
  }

  /** A second identical upsert changes nothing. */
  lemma UpsertTwice(s: Selection, index: int, name: string)
    requires Valid(s.catalog)
    ensures Upsert(Upsert(s, index, name), index, name) == Upsert(s, index, name)
  {
    PutTwice(s.catalog, index, name);
  }

  // ---- Properties of the reducer ----

  /** The reset state satisfies the invariant and is not synchronised. */
  lemma InitialResolved()
    ensures Resolved(Initial) && !IsSynced(Initial)
  {
  }

  /** Every event keeps the resolved names equal to the catalog lookups. */
  lemma StepResolved(v: StateView, e: Event)
    requires Resolved(v)
    ensures Resolved(Step(v, e))
  {
    match e {
      case SetCurrentPreset(index) => SelectionStepsResolved(v.presets, index, "");
      case UpsertPreset(index, name) => SelectionStepsResolved(v.presets, index, name);
      case ClearPresets => SelectionStepsResolved(v.presets, 0, "");
      case SetCurrentSource(index) => SelectionStepsResolved(v.sources, index, "");
      case UpsertSource(index, name, _) => SelectionStepsResolved(v.sources, index, name);
      case ClearSources => SelectionStepsResolved(v.sources, 0, "");
      case _ =>
    }
  }

  lemma {:induction false} StepAllResolved(v: StateView, es: seq<Event>)
    requires Resolved(v)
    ensures Resolved(StepAll(v, es))
    decreases |es|
  {
    if es != [] {
      StepResolved(v, es[0]);
      StepAllResolved(Step(v, es[0]), es[1..]);
    }
  }

  /** The invariant holds after every message, whatever the profile. */
  lemma ApplyResolved(v: StateView, m: Message)
    requires Resolved(v)
    ensures Resolved(ApplyMessage(v, m))
  {
    StepAllResolved(v, NormalizeMessage(m, SelectProfile(v.device.features)));
  }

  /** No event clears a flag or an index, so a synchronised state stays synchronised. */
  lemma StepSynced(v: StateView, e: Event)
    requires IsSynced(v)
    ensures IsSynced(Step(v, e))
  {
  }

  lemma {:induction false} StepAllSynced(v: StateView, es: seq<Event>)
    requires IsSynced(v)
    ensures IsSynced(StepAll(v, es))
    decreases |es|
  {
    if es != [] {
      StepSynced(v, es[0]);
      StepAllSynced(Step(v, es[0]), es[1..]);
    }
  }

  lemma ApplySynced(v: StateView, m: Message)
    requires IsSynced(v)
    ensures IsSynced(ApplyMessage(v, m))
  {
    StepAllSynced(v, NormalizeMessage(m, SelectProfile(v.device.features)));
  }

  /** Applying the same event twice leaves the state as applying it once. */
  lemma StepTwice(v: StateView, e: Event)
    requires Wf(v)
    ensures Step(Step(v, e), e) == Step(v, e)
  {
    match e {
      case UpsertPreset(index, name) => UpsertTwice(v.presets, index, name);
      case UpsertSource(index, name, _) => UpsertTwice(v.sources, index, name);
      case _ =>
    }
  }

  /** `apply(m); apply(m)` gives the state `apply(m)` gives. */
  lemma ApplyTwice(v: StateView, m: Message)
    requires Wf(v)
    ensures ApplyMessage(ApplyMessage(v, m), m) == ApplyMessage(v, m)
  {
    var es := NormalizeMessage(m, SelectProfile(v.device.features));
    if es != [] {
      StepAllOne(v, es[0]);
      var w := Step(v, es[0]);
      ProfileOnlyForMetaPreset(m, SelectProfile(v.device.features), SelectProfile(w.device.features));
      assert NormalizeMessage(m, SelectProfile(w.device.features)) == es;
      StepAllOne(w, es[0]);
      StepTwice(v, es[0]);
    }
  }

  /**
   * A catalog entry that arrives after the index resolves the name: the
   * upsert at the current index fills it in, for presets and for sources.
   */
  lemma Backfill(v: StateView, index: int, name: string, q: Quality)
    requires Resolved(v)
    ensures var w := Step(Step(v, SetCurrentPreset(index)), UpsertPreset(index, name));
      w.presets.name == Some(name) && w.presets.index == Some(index) && Resolved(w)
    ensures var w := Step(Step(v, SetCurrentSource(index)), UpsertSource(index, name, q));
      w.sources.name == Some(name) && w.sources.index == Some(index) && Resolved(w)
  {
    ChooseUpsertCommute(v.presets, index, name);
    SelectionStepsResolved(v.presets, index, name);
    SelectionStepsResolved(Choose(v.presets, index), index, name);
    ChooseUpsertCommute(v.sources, index, name);
    SelectionStepsResolved(v.sources, index, name);
    SelectionStepsResolved(Choose(v.sources, index), index, name);
  }

  /** A clear empties the catalog, marks it seen, and drops the name of a set index. */
  lemma ClearDropsName(v: StateView)
    ensures var w := Step(v, ClearPresets);
      w.presets.catalog == [] && w.presets.seenCatalog
      && (v.presets.index.Some? ==> w.presets.name.None?)
      && w.presets.index == v.presets.index
    ensures var w := Step(v, ClearSources);
      w.sources.catalog == [] && w.sources.seenCatalog
      && (v.sources.index.Some? ==> w.sources.name.None?)
      && w.sources.index == v.sources.index
  {
  }

  /** The label quality does not reach the state, and of two upserts the later name wins. */
  lemma QualityIgnored(v: StateView, index: int, a: string, b: string, q1: Quality, q2: Quality)
    requires Wf(v)
    ensures Step(v, UpsertSource(index, b, q1)) == Step(v, UpsertSource(index, b, q2))
    ensures Get(Step(Step(v, UpsertSource(index, a, q1)), UpsertSource(index, b, q2)).sources.catalog, index)
         == Some(b)
  {
    PutOverwrites(v.sources.catalog, index, a, b);
  }

  /** The informational "sources changed" marker changes nothing. */
  lemma SourcesChangedNoOp(v: StateView)
    ensures Step(v, SourcesChangedEvent) == v
  {
  }

  /** Every event leaves the fields of the other events alone. */
  lemma StepFrame(v: StateView, e: Event)
    ensures var w := Step(v, e);
      (!e.SetCurrentPreset? && !e.UpsertPreset? && !e.ClearPresets? ==> w.presets == v.presets)
      && (!e.SetCurrentSource? && !e.UpsertSource? && !e.ClearSources? ==> w.sources == v.sources)
      && ((e.SetCurrentPreset? || e.UpsertPreset? || e.ClearPresets?
           || e.SetCurrentSource? || e.UpsertSource? || e.ClearSources?) ==> w.device == v.device)
      && (!e.SetFeatures? ==> w.device.features == v.device.features)
      && (!e.SetWelcome? ==> w.device.version == v.device.version && w.device.id == v.device.id)
      && (!e.SetVolume? ==> w.device.volume == v.device.volume)
      && (!e.SetMute? ==> w.device.mute == v.device.mute)
      && (!e.SetDecoder? ==> w.device.decoder == v.device.decoder && w.device.upmixer == v.device.upmixer)
  {
  }

  /** The mutable record the client reduces messages into. */
  class AltitudeState {
    var audiosync: Option<string>
    var audiosyncStatus: Option<bool>
    var bypass: Option<bool>
    var decoder: Option<string>
    var dim: Option<bool>
    var id: Option<string>
    var mute: Option<bool>
    var preset: Option<string>
    var presets: Catalog
    var samplingRate: Option<int>
    var source: Option<string>
    var sourceFormat: Option<string>
    var sources: Catalog
    var upmixer: Option<string>
    var version: Option<string>
    var volume: Option<real>
    var currentPresetIndex: Option<int>
    var currentSourceIndex: Option<int>
    var features: set<string>
    var seenWelcome: bool
    var seenPresetCatalog: bool
    var seenSourceCatalog: bool
    var seenCurrentPreset: bool
    var seenCurrentSource: bool

    function View(): StateView
      reads this
    {
      StateView(
        Device(audiosync, audiosyncStatus, bypass, decoder, dim, id, mute, samplingRate, sourceFormat,
               upmixer, version, volume, features, seenWelcome),
        Selection(presets, currentPresetIndex, preset, seenPresetCatalog, seenCurrentPreset),
        Selection(sources, currentSourceIndex, source, seenSourceCatalog, seenCurrentSource))
    }

    predicate Synced()
      reads this
    {
      IsSynced(View())
    }

    constructor ()
      ensures View() == Initial
    {
      audiosync, audiosyncStatus, bypass, decoder, dim, id, mute, preset := None, None, None, None, None, None, None, None;
      presets, samplingRate, source, sourceFormat, sources := [], None, None, None, [];
      upmixer, version, volume := None, None, None;
      currentPresetIndex, currentSourceIndex, features := None, None, {};
      seenWelcome, seenPresetCatalog, seenSourceCatalog, seenCurrentPreset, seenCurrentSource := false, false, false, false, false;
    }

    /** Forget everything learned from the processor. */
    method ResetRuntimeValues()
      modifies this
      ensures View() == Initial
    {
      ResetReadings();
      ResetIdentity();
      ResetPresets();
      ResetSources();
    }

    // The reset is done in four parts so that each part's proof stays small.

    method ResetReadings()
      modifies this`audiosync, this`audiosyncStatus, this`bypass, this`decoder, this`dim, this`mute, this`upmixer
      ensures audiosync.None? && audiosyncStatus.None? && bypass.None? && decoder.None?
      ensures dim.None? && mute.None? && upmixer.None?
    {
      audiosync, audiosyncStatus, bypass, decoder, dim, mute, upmixer := None, None, None, None, None, None, None;
    }

    method ResetIdentity()
      modifies this`id, this`samplingRate, this`sourceFormat, this`version, this`volume, this`features, this`seenWelcome
      ensures id.None? && samplingRate.None? && sourceFormat.None? && version.None? && volume.None?
      ensures features == {} && !seenWelcome
    {
      id, samplingRate, sourceFormat, version, volume, features, seenWelcome := None, None, None, None, None, {}, false;
    }

    method ResetPresets()
      modifies this`presets, this`currentPresetIndex, this`preset, this`seenPresetCatalog, this`seenCurrentPreset
      ensures presets == [] && currentPresetIndex.None? && preset.None? && !seenPresetCatalog && !seenCurrentPreset
    {
      preset, presets, currentPresetIndex, seenPresetCatalog, seenCurrentPreset := None, [], None, false, false;
    }

    method ResetSources()
      modifies this`sources, this`currentSourceIndex, this`source, this`seenSourceCatalog, this`seenCurrentSource
      ensures sources == [] && currentSourceIndex.None? && source.None? && !seenSourceCatalog && !seenCurrentSource
    {
      source, sources, currentSourceIndex, seenSourceCatalog, seenCurrentSource := None, [], None, false, false;
    }

    /** Reduce one canonical event into the record, in place. */
    method ApplyEvent(e: Event)
      modifies this
      ensures View() == Step(old(View()), e)
    {
      match e {
        case SetAudiosync(mode) => ApplyAudiosync(mode);
        case SetAudiosyncStatus(synchronized) => ApplyAudiosyncStatus(synchronized);
        case SetBypass(state) => ApplyBypass(state);
        case SetCurrentPreset(index) => ApplyCurrentPreset(index);
        case SetSourceFormat(format) => ApplySourceFormat(format);
        case SetCurrentSource(index) => ApplyCurrentSource(index);
        case SetFeatures(fs) => ApplyFeatures(fs);
        case SetDecoder(d, u) => ApplyDecoder(d, u);
        case SetDim(state) => ApplyDim(state);
        case UpsertPreset(index, name) => ApplyUpsertPreset(index, name);
        case ClearPresets => ApplyClearPresets();
        case SetMute(state) => ApplyMute(state);
        case UpsertSource(index, name, q) => ApplyUpsertSource(index, name, q);
        case ClearSources => ApplyClearSources();
        case SourcesChangedEvent =>
        case SetSamplingRate(rate) => ApplySamplingRate(rate);
        case SetVolume(db) => ApplyVolume(db);
        case SetWelcome(ver, ident) => ApplyWelcome(ver, ident);
      }
    }

    // One method per kind of event; each writes only the fields its frame names.
    // An event that writes several fields leaves the writes to a `Write` method
    // that states them field by field, which keeps each proof small.

    method ApplyAudiosync(mode: string)
      modifies this`audiosync
      ensures View() == Step(old(View()), SetAudiosync(mode))
    {
      audiosync := Some(mode);
    }

    method ApplyAudiosyncStatus(synchronized: bool)
      modifies this`audiosyncStatus
      ensures View() == Step(old(View()), SetAudiosyncStatus(synchronized))
    {
      audiosyncStatus := Some(synchronized);
    }

    method ApplyBypass(state: bool)
      modifies this`bypass
      ensures View() == Step(old(View()), SetBypass(state))
    {
      bypass := Some(state);
    }

    method ApplyCurrentPreset(index: int)
      modifies this`currentPresetIndex, this`preset, this`seenCurrentPreset
      ensures View() == Step(old(View()), SetCurrentPreset(index))
    {
      var name := Get(presets, index);
      WriteCurrentPreset(index, name);
    }

    method WriteCurrentPreset(index: int, name: Option<string>)
      modifies this`currentPresetIndex, this`preset, this`seenCurrentPreset
      ensures currentPresetIndex == Some(index) && preset == name && seenCurrentPreset
    {
      currentPresetIndex := Some(index);
      preset := name;
      seenCurrentPreset := true;
    }

    method ApplySourceFormat(format: string)
      modifies this`sourceFormat
      ensures View() == Step(old(View()), SetSourceFormat(format))
    {
      sourceFormat := Some(format);
    }

    method ApplyCurrentSource(index: int)
      modifies this`currentSourceIndex, this`source, this`seenCurrentSource
      ensures View() == Step(old(View()), SetCurrentSource(index))
    {
      var name := Get(sources, index);
      WriteCurrentSource(index, name);
    }

    method WriteCurrentSource(index: int, name: Option<string>)
      modifies this`currentSourceIndex, this`source, this`seenCurrentSource
      ensures currentSourceIndex == Some(index) && source == name && seenCurrentSource
    {
      currentSourceIndex := Some(index);
      source := name;
      seenCurrentSource := true;
    }

    method ApplyFeatures(fs: seq<string>)
      modifies this`features
      ensures View() == Step(old(View()), SetFeatures(fs))
    {
      features := set f | f in fs;
    }

    method ApplyDecoder(d: string, u: string)
      modifies this`decoder, this`upmixer
      ensures View() == Step(old(View()), SetDecoder(d, u))
    {
      decoder := Some(d);
      upmixer := Some(u);
    }

    method ApplyDim(state: bool)
      modifies this`dim
      ensures View() == Step(old(View()), SetDim(state))
    {
      dim := Some(state);
    }

    method ApplyUpsertPreset(index: int, name: string)
      modifies this`presets, this`seenPresetCatalog, this`preset
      ensures View() == Step(old(View()), UpsertPreset(index, name))
    {
      WriteUpsertPreset(index, name);
    }

    method WriteUpsertPreset(index: int, name: string)
      modifies this`presets, this`seenPresetCatalog, this`preset
      ensures presets == Put(old(presets), index, name) && seenPresetCatalog
      ensures preset == if currentPresetIndex == Some(index) then Some(name) else old(preset)
    {
      presets := Put(presets, index, name);
      seenPresetCatalog := true;
      if currentPresetIndex == Some(index) {
        preset := Some(name);
      }
    }

    method ApplyClearPresets()
      modifies this`presets, this`seenPresetCatalog, this`preset
      ensures View() == Step(old(View()), ClearPresets)
    {
      WriteClearPresets();
    }

    method WriteClearPresets()
      modifies this`presets, this`seenPresetCatalog, this`preset
      ensures presets == [] && seenPresetCatalog && preset == if currentPresetIndex.Some? then None else old(preset)
    {
      presets := [];
      seenPresetCatalog := true;
      if currentPresetIndex.Some? {
        preset := None;
      }
    }

    method ApplyMute(state: bool)
      modifies this`mute
      ensures View() == Step(old(View()), SetMute(state))
    {
      mute := Some(state);
    }

    method ApplyUpsertSource(index: int, name: string, q: Quality)
      modifies this`sources, this`seenSourceCatalog, this`source
      ensures View() == Step(old(View()), UpsertSource(index, name, q))
    {
      WriteUpsertSource(index, name);
    }

    method WriteUpsertSource(index: int, name: string)
      modifies this`sources, this`seenSourceCatalog, this`source
      ensures sources == Put(old(sources), index, name) && seenSourceCatalog
      ensures source == if currentSourceIndex == Some(index) then Some(name) else old(source)
    {
      sources := Put(sources, index, name);
      seenSourceCatalog := true;
      if currentSourceIndex == Some(index) {
        source := Some(name);
      }
    }

    method ApplyClearSources()
      modifies this`sources, this`seenSourceCatalog, this`source
      ensures View() == Step(old(View()), ClearSources)
    {
      WriteClearSources();
    }

    method WriteClearSources()
      modifies this`sources, this`seenSourceCatalog, this`source
      ensures sources == [] && seenSourceCatalog && source == if currentSourceIndex.Some? then None else old(source)
    {
      sources := [];
      seenSourceCatalog := true;
      if currentSourceIndex.Some? {
        source := None;
      }
    }

    method ApplySamplingRate(rate: int)
      modifies this`samplingRate
      ensures View() == Step(old(View()), SetSamplingRate(rate))
    {
      samplingRate := Some(rate);
    }

    method ApplyVolume(db: real)
      modifies this`volume
      ensures View() == Step(old(View()), SetVolume(db))
    {
      volume := Some(db);
    }

    method ApplyWelcome(ver: string, ident: string)
      modifies this`version, this`id, this`seenWelcome
      ensures View() == Step(old(View()), SetWelcome(ver, ident))
    {
      WriteWelcome(ver, ident);
    }

    method WriteWelcome(ver: string, ident: string)
      modifies this`version, this`id, this`seenWelcome
      ensures version == Some(ver) && id == Some(ident) && seenWelcome
    {
      version := Some(ver);
      id := Some(ident);
      seenWelcome := true;
    }

    /** Normalise one raw message under the current profile and reduce its events. */
    method Apply(m: Message)
      modifies this
      ensures View() == ApplyMessage(old(View()), m)
    {
      var profile := SelectProfile(features);
      var events := NormalizeMessage(m, profile);
      for i := 0 to |events|
        invariant View() == StepAll(old(View()), events[..i])
      {
        ApplyEvent(events[i]);
        StepAllSnoc(old(View()), events[..i], events[i]);
        assert events[..i + 1] == events[..i] + [events[i]];
      }
      assert events[..|events|] == events;
    }
  }
}
