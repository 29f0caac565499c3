/**
 * The Home Assistant bridge: it turns the adapter's output into what a
 * Home Assistant integration consumes, a coordinator data dictionary, the
 * names of the fields that changed and event bus events, and dispatches the
 * bus events to an emitter when one is installed.
 */
module HaBridge {
  import opened Wrappers
  import opened Catalog
  import opened State
  import opened Adapter

  /** One event for the Home Assistant event bus. */
  datatype BusEvent = BusEvent(eventType: string, eventData: map<string, Value>)

  /** What one adapter update becomes for the coordinator. */
  datatype BridgeUpdate = BridgeUpdate(
    coordinatorData: seq<(string, Value)>,
    changedFields: seq<string>,
    busEvents: seq<BusEvent>)

  /** The domain every bus event type is prefixed with. */
  const EventDomain: string := "trinnov_altitude."

  /**
   * The coordinator's key for each snapshot field, position by position
   * with `FieldNames`; five fields are renamed on the way.
   */
  const CoordinatorKeys: seq<string> := [
    "available", "version", "device_id", "volume_db", "mute", "dim", "bypass", "preset", "source",
    "sampling_rate_hz", "audiosync_mode", "audiosync_status", "decoder", "upmixer", "source_format",
    "current_preset_index", "current_source_index", "presets", "sources"]

  /** The value the coordinator reports under key `i`: a catalog becomes a dictionary. */
  function CoordinatorValue(s: Snapshot, i: nat): Value
    requires i < |CoordinatorKeys|
  {
    if i == 17 then DictValue(ToMap(s.presets))
    else if i == 18 then DictValue(ToMap(s.sources))
    else FieldValue(s, i)
  }

  /** The coordinator data dictionary of a snapshot, as its items in insertion order. */
  function CoordinatorPayload(s: Snapshot): (p: seq<(string, Value)>)
    ensures |p| == |CoordinatorKeys|
    ensures forall i | 0 <= i < |p| :: p[i].0 == CoordinatorKeys[i]
  {
    seq(|CoordinatorKeys|, i requires 0 <= i < |CoordinatorKeys| => (CoordinatorKeys[i], CoordinatorValue(s, i)))
  }

  /**
   * Every scalar field of the snapshot appears unchanged under its
   * coordinator key, the key the field is renamed to or its own name.
   */
  lemma PayloadRenamesFields(s: Snapshot)
    ensures forall i | 0 <= i < 17 :: CoordinatorPayload(s)[i] == (CoordinatorKeys[i], FieldValue(s, i))
    ensures forall i | 0 <= i < 17 && CoordinatorKeys[i] != FieldNames[i] ::
      (FieldNames[i], CoordinatorKeys[i]) in {("synced", "available"), ("id", "device_id"), ("volume", "volume_db"),
                                              ("sampling_rate", "sampling_rate_hz"), ("audiosync", "audiosync_mode")}
  {
  }

  /**
   * For a state whose catalogs are dictionaries, the coordinator reports
   * availability as the state's sync flag, and its preset and source
   * dictionaries answer every index as the state's catalogs do.
   */
  lemma PayloadFromState(v: StateView, k: int)
    requires Wf(v)
    ensures var p := CoordinatorPayload(SnapshotOf(v));
      p[0] == ("available", BoolValue(IsSynced(v)))
      && p[17].0 == "presets" && p[17].1.DictValue? && p[18].0 == "sources" && p[18].1.DictValue?
      && (k in p[17].1.dict <==> Get(v.presets.catalog, k).Some?)
      && (k in p[17].1.dict ==> Some(p[17].1.dict[k]) == Get(v.presets.catalog, k))
      && (k in p[18].1.dict <==> Get(v.sources.catalog, k).Some?)
      && (k in p[18].1.dict ==> Some(p[18].1.dict[k]) == Get(v.sources.catalog, k))
  {
    var s := SnapshotOf(v);
    var p := CoordinatorPayload(s);
    assert p[17] == ("presets", DictValue(ToMap(SortedItems(v.presets.catalog))));
    assert p[18] == ("sources", DictValue(ToMap(SortedItems(v.sources.catalog))));
    DictOfSortedItems(v.presets.catalog, k);
    DictOfSortedItems(v.sources.catalog, k);
  }

  /** The bus event for one adapter event. */
  function ToBusEvent(e: AdapterEvent): (b: BusEvent)
    ensures |b.eventType| >= |EventDomain| && b.eventType[..|EventDomain|] == EventDomain
    ensures b.eventType[|EventDomain|..] == e.kind
    ensures b.eventData == e.payload
  {
    BusEvent(EventDomain + e.kind, e.payload)
  }

  /** The bus events for a list of adapter events, one each and in order. */
  function BusEvents(events: seq<AdapterEvent>): (r: seq<BusEvent>)
    ensures |r| == |events|
    ensures forall i | 0 <= i < |r| :: r[i] == ToBusEvent(events[i])
  {
    seq(|events|, i requires 0 <= i < |events| => ToBusEvent(events[i]))
  }

  /** The adapter event each bus event came from can be read back from it. */
  lemma BusEventsInvertible(events: seq<AdapterEvent>)
    ensures forall i | 0 <= i < |events| ::
      AdapterEvent(BusEvents(events)[i].eventType[|EventDomain|..], BusEvents(events)[i].eventData) == events[i]
  {
  }

  /** Map adapter events to bus events. */
  method ToHaEvents(events: seq<AdapterEvent>) returns (mapped: seq<BusEvent>)
    ensures mapped == BusEvents(events)
  {
    mapped := [];
    for i := 0 to |events|
      invariant mapped == BusEvents(events[..i])
    {
      mapped := mapped + [ToBusEvent(events[i])];
      assert events[..i + 1] == events[..i] + [events[i]];
    }
    assert events[..|events|] == events;
  }

  /** The names of the changed fields, in the order of the deltas. */
  function ChangedFields(deltas: seq<Delta>): (r: seq<string>)
    ensures |r| == |deltas|
    ensures forall i | 0 <= i < |r| :: r[i] == deltas[i].field
  {
    seq(|deltas|, i requires 0 <= i < |deltas| => deltas[i].field)
  }

  /** The bridge update for one adapter update. */
  function Bridged(snapshot: Snapshot, deltas: seq<Delta>, events: seq<AdapterEvent>): BridgeUpdate {
    BridgeUpdate(CoordinatorPayload(snapshot), ChangedFields(deltas), BusEvents(events))
  }

  /** Build the bridge update for one adapter update. */
  method BuildBridgeUpdate(snapshot: Snapshot, deltas: seq<Delta>, events: seq<AdapterEvent>)
    returns (update: BridgeUpdate)
    ensures update == Bridged(snapshot, deltas, events)
  {
    var busEvents := ToHaEvents(events);
    update := BridgeUpdate(CoordinatorPayload(snapshot), ChangedFields(deltas), busEvents);
  }

  /**
   * Across two adapter snapshots, the bridge names exactly the fields whose
   * values differ, and names none exactly when nothing changed.
   */
  lemma ChangedFieldsExact(prev: Snapshot, cur: Snapshot, name: string)
    ensures var fs := Bridged(cur, Deltas(prev, cur), Events(prev, cur)).changedFields;
      (name in fs <==> exists i | 0 <= i < |FieldNames| :: FieldNames[i] == name
                                                          && FieldValue(prev, i) != FieldValue(cur, i))
      && (fs == [] <==> prev == cur)
  {
    var ds := Deltas(prev, cur);
    var fs := ChangedFields(ds);
    NoDeltasIffSame(prev, cur);
    if name in fs {
      var j :| 0 <= j < |fs| && fs[j] == name;
      ChangedMembers(prev, cur, |FieldNames|, ds[j]);
    }
    if exists i | 0 <= i < |FieldNames| :: FieldNames[i] == name && FieldValue(prev, i) != FieldValue(cur, i) {
      var i :| 0 <= i < |FieldNames| && FieldNames[i] == name && FieldValue(prev, i) != FieldValue(cur, i);
      var d := Delta(name, FieldValue(prev, i), FieldValue(cur, i));
      ChangedMembers(prev, cur, |FieldNames|, d);
      var j :| 0 <= j < |ds| && ds[j] == d;
      assert fs[j] == name;
    }
  }

  /** Converts adapter updates and hands their bus events to an optional emitter. */
  class HABridgeDispatcher {
    /** Whether an event emitter is installed. */
    const hasEmitter: bool
    var lastUpdate: Option<BridgeUpdate>
    /** The calls made to the emitter so far, as (event type, event data). */
    var emitted: seq<(string, map<string, Value>)>

    constructor (hasEmitter: bool)
      ensures this.hasEmitter == hasEmitter && lastUpdate.None? && emitted == []
    {
      this.hasEmitter := hasEmitter;
      lastUpdate := None;
      emitted := [];
    }

    /**
     * Build the update, remember it and, when an emitter is installed, emit
     * every bus event in order.
     */
    method HandleAdapterUpdate(snapshot: Snapshot, deltas: seq<Delta>, events: seq<AdapterEvent>)
      returns (update: BridgeUpdate)
      modifies this
      ensures update == Bridged(snapshot, deltas, events) && lastUpdate == Some(update)
      ensures hasEmitter ==> emitted == old(emitted) + Emissions(update.busEvents)
      ensures !hasEmitter ==> emitted == old(emitted)
    {
      update := BuildBridgeUpdate(snapshot, deltas, events);
      lastUpdate := Some(update);
      if hasEmitter {
        Emit(update.busEvents);
      }
    }

    /** Hand each bus event to the emitter, in order. */
    method Emit(bus: seq<BusEvent>)
      modifies this`emitted
      ensures emitted == old(emitted) + Emissions(bus)
    {
      for i := 0 to |bus|
        invariant emitted == old(emitted) + Emissions(bus[..i])
      {
        emitted := emitted + [(bus[i].eventType, bus[i].eventData)];
        assert bus[..i + 1] == bus[..i] + [bus[i]];
      }
      assert bus[..|bus|] == bus;
    }
  }

  /** The emitter calls for a list of bus events. */
  function Emissions(bus: seq<BusEvent>): (r: seq<(string, map<string, Value>)>)
    ensures |r| == |bus|
    ensures forall i | 0 <= i < |r| :: r[i] == (bus[i].eventType, bus[i].eventData)
  {
    if bus == [] then [] else Emissions(bus[..|bus| - 1]) + [(bus[|bus| - 1].eventType, bus[|bus| - 1].eventData)]
  }
}
