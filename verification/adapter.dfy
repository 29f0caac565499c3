/**
 * The Home Assistant facing adapter: an immutable snapshot of the state, the
 * list of fields that changed between two snapshots, and the high-level
 * change events a consumer reacts to.
 */
module Adapter {
  import opened Wrappers
  import opened Catalog
  import opened State

  /** A dynamically typed field value, as a delta or an event payload carries it. */
  datatype Value =
    | NoneValue
    | BoolValue(b: bool)
    | IntValue(i: int)
    | RealValue(r: real)
    | StringValue(s: string)
    | ItemsValue(items: Catalog)
    | DictValue(dict: map<int, string>)

  function OptBool(o: Option<bool>): Value { if o.None? then NoneValue else BoolValue(o.value) }
  function OptInt(o: Option<int>): Value { if o.None? then NoneValue else IntValue(o.value) }
  function OptReal(o: Option<real>): Value { if o.None? then NoneValue else RealValue(o.value) }
  function OptString(o: Option<string>): Value { if o.None? then NoneValue else StringValue(o.value) }

  /** Comparison-friendly copy of the state; the catalogs are item lists sorted by index. */
  datatype Snapshot = Snapshot(
    synced: bool,
    version: Option<string>,
    id: Option<string>,
    volume: Option<real>,
    mute: Option<bool>,
    dim: Option<bool>,
    bypass: Option<bool>,
    preset: Option<string>,
    source: Option<string>,
    samplingRate: Option<int>,
    audiosync: Option<string>,
    audiosyncStatus: Option<bool>,
    decoder: Option<string>,
    upmixer: Option<string>,
    sourceFormat: Option<string>,
    currentPresetIndex: Option<int>,
    currentSourceIndex: Option<int>,
    presets: Catalog,
    sources: Catalog)

  /** One changed field between two snapshots. */
  datatype Delta = Delta(field: string, before: Value, after: Value)

  /** A high-level event: its kind and a payload dictionary. */
  datatype AdapterEvent = AdapterEvent(kind: string, payload: map<string, Value>)

  /** The snapshot's field names, in declaration order. */
  const FieldNames: seq<string> := [
    "synced", "version", "id", "volume", "mute", "dim", "bypass", "preset", "source",
    "sampling_rate", "audiosync", "audiosync_status", "decoder", "upmixer", "source_format",
    "current_preset_index", "current_source_index", "presets", "sources"]

  /** The value of field `i` of the snapshot, the field named `FieldNames[i]`. */
  function FieldValue(s: Snapshot, i: nat): Value
    requires i < |FieldNames|
  {
    if i == 0 then BoolValue(s.synced)
    else if i == 1 then OptString(s.version)
    else if i == 2 then OptString(s.id)
    else if i == 3 then OptReal(s.volume)
    else if i == 4 then OptBool(s.mute)
    else if i == 5 then OptBool(s.dim)
    else if i == 6 then OptBool(s.bypass)
    else if i == 7 then OptString(s.preset)
    else if i == 8 then OptString(s.source)
    else if i == 9 then OptInt(s.samplingRate)
    else if i == 10 then OptString(s.audiosync)
    else if i == 11 then OptBool(s.audiosyncStatus)
    else if i == 12 then OptString(s.decoder)
    else if i == 13 then OptString(s.upmixer)
    else if i == 14 then OptString(s.sourceFormat)
    else if i == 15 then OptInt(s.currentPresetIndex)
    else if i == 16 then OptInt(s.currentSourceIndex)
    else if i == 17 then ItemsValue(s.presets)
    else ItemsValue(s.sources)
  }

  /** Snapshots whose fields all hold the same values are the same snapshot. */
  lemma FieldsDetermine(a: Snapshot, b: Snapshot)
    requires forall i | 0 <= i < |FieldNames| :: FieldValue(a, i) == FieldValue(b, i)
    ensures a == b
  {
    assert a.synced == b.synced by { assert FieldValue(a, 0) == FieldValue(b, 0); }
    assert a.version == b.version by { assert FieldValue(a, 1) == FieldValue(b, 1); }
    assert a.id == b.id by { assert FieldValue(a, 2) == FieldValue(b, 2); }
    assert a.volume == b.volume by { assert FieldValue(a, 3) == FieldValue(b, 3); }
    assert a.mute == b.mute by { assert FieldValue(a, 4) == FieldValue(b, 4); }
    assert a.dim == b.dim by { assert FieldValue(a, 5) == FieldValue(b, 5); }
    assert a.bypass == b.bypass by { assert FieldValue(a, 6) == FieldValue(b, 6); }
    assert a.preset == b.preset by { assert FieldValue(a, 7) == FieldValue(b, 7); }
    assert a.source == b.source by { assert FieldValue(a, 8) == FieldValue(b, 8); }
    assert a.samplingRate == b.samplingRate by { assert FieldValue(a, 9) == FieldValue(b, 9); }
    assert a.audiosync == b.audiosync by { assert FieldValue(a, 10) == FieldValue(b, 10); }
    assert a.audiosyncStatus == b.audiosyncStatus by { assert FieldValue(a, 11) == FieldValue(b, 11); }
    assert a.decoder == b.decoder by { assert FieldValue(a, 12) == FieldValue(b, 12); }
    assert a.upmixer == b.upmixer by { assert FieldValue(a, 13) == FieldValue(b, 13); }
    assert a.sourceFormat == b.sourceFormat by { assert FieldValue(a, 14) == FieldValue(b, 14); }
    assert a.currentPresetIndex == b.currentPresetIndex by { assert FieldValue(a, 15) == FieldValue(b, 15); }
    assert a.currentSourceIndex == b.currentSourceIndex by { assert FieldValue(a, 16) == FieldValue(b, 16); }
    assert a.presets == b.presets by { assert FieldValue(a, 17) == FieldValue(b, 17); }
    assert a.sources == b.sources by { assert FieldValue(a, 18) == FieldValue(b, 18); }
  }

  /** The snapshot of a state value. */
  function SnapshotOf(v: StateView): (s: Snapshot)
    ensures s.synced == IsSynced(v)
    ensures SortedByKey(s.presets) && multiset(s.presets) == multiset(v.presets.catalog)
    ensures SortedByKey(s.sources) && multiset(s.sources) == multiset(v.sources.catalog)
  {
    Snapshot(
      IsSynced(v), v.device.version, v.device.id, v.device.volume, v.device.mute, v.device.dim,
      v.device.bypass, v.presets.name, v.sources.name, v.device.samplingRate, v.device.audiosync,
      v.device.audiosyncStatus, v.device.decoder, v.device.upmixer, v.device.sourceFormat,
      v.presets.index, v.sources.index, SortedItems(v.presets.catalog), SortedItems(v.sources.catalog))
  }

  /** The snapshot's catalogs hold exactly the state's entries, so lookups agree. */
  lemma SnapshotSameEntries(v: StateView, e: Entry)
    ensures e in SnapshotOf(v).presets <==> e in v.presets.catalog
    ensures e in SnapshotOf(v).sources <==> e in v.sources.catalog
  {
    SortedItemsSameEntries(v.presets.catalog, e);
    SortedItemsSameEntries(v.sources.catalog, e);
  }

  // ---- Deltas ----

  /** The deltas of the first `n` fields: every field whose values differ, in declaration order. */
  function Changed(prev: Snapshot, cur: Snapshot, n: nat): seq<Delta>
    requires n <= |FieldNames|
  {
    if n == 0 then []
    else
      Changed(prev, cur, n - 1)
        + (if FieldValue(prev, n - 1) != FieldValue(cur, n - 1)
           then [Delta(FieldNames[n - 1], FieldValue(prev, n - 1), FieldValue(cur, n - 1))]
           else [])
  }

  /** The deltas from one snapshot to the next. */
  function Deltas(prev: Snapshot, cur: Snapshot): seq<Delta> {
    Changed(prev, cur, |FieldNames|)
  }

  /** A delta is listed exactly when its field's values differ, and it carries both values. */
  lemma {:induction false} ChangedMembers(prev: Snapshot, cur: Snapshot, n: nat, d: Delta)
    requires n <= |FieldNames|
    ensures d in Changed(prev, cur, n)
        <==> exists i | 0 <= i < n :: FieldValue(prev, i) != FieldValue(cur, i)
                                      && d == Delta(FieldNames[i], FieldValue(prev, i), FieldValue(cur, i))
  {
    if n > 0 {
      ChangedMembers(prev, cur, n - 1, d);
    }
  }

  /** No delta is listed exactly when every field agrees. */
  lemma {:induction false} ChangedEmpty(prev: Snapshot, cur: Snapshot, n: nat)
    requires n <= |FieldNames|
    ensures Changed(prev, cur, n) == [] <==> forall i | 0 <= i < n :: FieldValue(prev, i) == FieldValue(cur, i)
  {
    if n > 0 {
      ChangedEmpty(prev, cur, n - 1);
    }
  }

  /** Fields from `n` up to `m` that agree add no delta. */
  lemma {:induction false} ChangedTail(prev: Snapshot, cur: Snapshot, n: nat, m: nat)
    requires n <= m <= |FieldNames|
    requires forall i | n <= i < m :: FieldValue(prev, i) == FieldValue(cur, i)
    ensures Changed(prev, cur, m) == Changed(prev, cur, n)
  {
    if n < m {
      ChangedTail(prev, cur, n, m - 1);
    }
  }

  /** There are no deltas exactly when nothing changed. */
  lemma NoDeltasIffSame(prev: Snapshot, cur: Snapshot)
    ensures Deltas(prev, cur) == [] <==> prev == cur
  {
    ChangedEmpty(prev, cur, |FieldNames|);
    if Deltas(prev, cur) == [] {
      FieldsDetermine(prev, cur);
    }
  }

  /** The delta list: for each field in declaration order, an entry when its values differ. */
  method BuildDeltas(prev: Snapshot, cur: Snapshot) returns (deltas: seq<Delta>)
    ensures deltas == Deltas(prev, cur)
  {
    deltas := [];
    for i := 0 to |FieldNames|
      invariant deltas == Changed(prev, cur, i)
    {
      var before, after := FieldValue(prev, i), FieldValue(cur, i);
      if before != after {
        deltas := deltas + [Delta(FieldNames[i], before, after)];
      }
    }
  }

  // ---- Change events ----

  /** An event of `kind` when the new value is set and differs from the previous one. */
  function ChangeEvent(kind: string, before: Value, after: Value, key: string): (r: Option<AdapterEvent>)
    ensures r.Some? <==> !after.NoneValue? && after != before
    ensures r.Some? ==> r.value.kind == kind && r.value.payload.Keys == {key} && r.value.payload[key] == after
  {
    if after.NoneValue? || after == before then None else Some(AdapterEvent(kind, map[key := after]))
  }

  /** The event kinds, in the order the events are listed. */
  const EventKinds: seq<string> := [
    "volume" + ChangedSuffix, "mute" + ChangedSuffix, "dim" + ChangedSuffix, "bypass" + ChangedSuffix,
    "preset" + ChangedSuffix, "source" + ChangedSuffix, "sampling_rate" + ChangedSuffix,
    "decoder" + ChangedSuffix, "upmixer" + ChangedSuffix]

  /** What every event kind ends with after the field it reports. */
  const ChangedSuffix: string := "_changed"

  /** For each event kind, the field it watches and its payload key. */
  const WatchedFields: seq<nat> := [3, 4, 5, 6, 7, 8, 9, 12, 13]
  const PayloadKeys: seq<string> := ["db", "mute", "dim", "bypass", "preset", "source", "hz", "decoder", "upmixer"]

  /** The watched fields are the snapshot fields the event kinds are named after. */
  lemma WatchedFieldName(k: nat)
    requires k < |EventKinds|
    ensures WatchedFields[k] < |FieldNames| && EventKinds[k] == FieldNames[WatchedFields[k]] + ChangedSuffix
  {
    if k < 3 {
      assert k == 0 || k == 1 || k == 2;
    } else if k < 6 {
      assert k == 3 || k == 4 || k == 5;
    } else {
      assert k == 6 || k == 7 || k == 8;
    }
  }

  /** The candidate event for kind `k`. */
  function Candidate(prev: Snapshot, cur: Snapshot, k: nat): (r: Option<AdapterEvent>)
    requires k < |EventKinds|
    ensures r.Some? ==> r.value.kind == EventKinds[k]
    ensures r.Some? <==> FieldValue(cur, WatchedFields[k]) != NoneValue
                         && FieldValue(cur, WatchedFields[k]) != FieldValue(prev, WatchedFields[k])
  {
    ChangeEvent(EventKinds[k], FieldValue(prev, WatchedFields[k]), FieldValue(cur, WatchedFields[k]), PayloadKeys[k])
  }

  /** The present candidates among the first `n` kinds, in order. */
  function Collected(prev: Snapshot, cur: Snapshot, n: nat): seq<AdapterEvent>
    requires n <= |EventKinds|
  {
    if n == 0 then []
    else
      var c := Candidate(prev, cur, n - 1);
      Collected(prev, cur, n - 1) + (if c.Some? then [c.value] else [])
  }

  /** The change events from one snapshot to the next. */
  function Events(prev: Snapshot, cur: Snapshot): seq<AdapterEvent> {
    Collected(prev, cur, |EventKinds|)
  }

  /** An event is listed exactly when its kind's candidate is present. */
  lemma {:induction false} CollectedMembers(prev: Snapshot, cur: Snapshot, n: nat, e: AdapterEvent)
    requires n <= |EventKinds|
    ensures e in Collected(prev, cur, n) <==> exists k | 0 <= k < n :: Candidate(prev, cur, k) == Some(e)
  {
    if n > 0 {
      CollectedMembers(prev, cur, n - 1, e);
    }
  }

  /** Nothing is listed exactly when no candidate is present. */
  lemma {:induction false} CollectedEmpty(prev: Snapshot, cur: Snapshot, n: nat)
    requires n <= |EventKinds|
    ensures Collected(prev, cur, n) == [] <==> forall k | 0 <= k < n :: Candidate(prev, cur, k).None?
  {
    if n > 0 {
      CollectedEmpty(prev, cur, n - 1);
    }
  }

  /** Kinds from `n` up to `m` with no candidate add no event. */
  lemma {:induction false} CollectedTail(prev: Snapshot, cur: Snapshot, n: nat, m: nat)
    requires n <= m <= |EventKinds|
    requires forall k | n <= k < m :: Candidate(prev, cur, k).None?
    ensures Collected(prev, cur, m) == Collected(prev, cur, n)
  {
    if n < m {
      CollectedTail(prev, cur, n, m - 1);
    }
  }

  /** The event list: each present candidate, in the fixed order. */
  method BuildEvents(prev: Snapshot, cur: Snapshot) returns (events: seq<AdapterEvent>)
    ensures events == Events(prev, cur)
  {
    events := [];
    for k := 0 to |EventKinds|
      invariant events == Collected(prev, cur, k)
    {
      var c := Candidate(prev, cur, k);
      if c.Some? {
        events := events + [c.value];
      }
    }
  }

  /** Every event reports a field that also shows up as a delta, so events imply deltas. */
  lemma EventsImplyDeltas(prev: Snapshot, cur: Snapshot, e: AdapterEvent)
    requires e in Events(prev, cur)
    ensures exists d :: d in Deltas(prev, cur) && e.kind == d.field + "_changed"
                        && e.payload.Values == {d.after}
  {
    CollectedMembers(prev, cur, |EventKinds|, e);
    var k :| 0 <= k < |EventKinds| && Candidate(prev, cur, k) == Some(e);
    var i := WatchedFields[k];
    WatchedFieldName(k);
    var d := Delta(FieldNames[i], FieldValue(prev, i), FieldValue(cur, i));
    ChangedMembers(prev, cur, |FieldNames|, d);
    assert e.payload.Values == {d.after} by {
      assert e.payload == map[PayloadKeys[k] := FieldValue(cur, i)];
    }
  }

  /** An unchanged snapshot yields no deltas and no events. */
  lemma NothingWhenSame(s: Snapshot)
    ensures Deltas(s, s) == [] && Events(s, s) == []
  {
    NoDeltasIffSame(s, s);
    CollectedEmpty(s, s, |EventKinds|);
  }

  /** Turning mute on or off gives exactly one delta, the `mute` field's. */
  lemma MuteDelta(s: Snapshot, mute: bool)
    requires s.mute != Some(mute)
    ensures Deltas(s, s.(mute := Some(mute))) == [Delta("mute", OptBool(s.mute), BoolValue(mute))]
  {
    var t := s.(mute := Some(mute));
    forall i | 0 <= i < |FieldNames| && i != 4 ensures FieldValue(s, i) == FieldValue(t, i) {
    }
    ChangedEmpty(s, t, 4);
    ChangedTail(s, t, 5, |FieldNames|);
  }

  /** Turning mute on or off gives exactly one event, `mute_changed` with the new value. */
  lemma MuteEvent(s: Snapshot, mute: bool)
    requires s.mute != Some(mute)
    ensures Events(s, s.(mute := Some(mute))) == [AdapterEvent("mute_changed", map["mute" := BoolValue(mute)])]
  {
    var t := s.(mute := Some(mute));
    forall k | 0 <= k < |EventKinds| && k != 1 ensures Candidate(s, t, k).None? {
      assert WatchedFields[k] != 4;
    }
    CollectedEmpty(s, t, 1);
    CollectedTail(s, t, 2, |EventKinds|);
    assert EventKinds[1] == "mute_changed";
  }

  /** Keeps the last snapshot and reports what changed since it. */
  class AltitudeStateAdapter {
    var lastSnapshot: Option<Snapshot>

    constructor ()
      ensures lastSnapshot.None?
    {
      lastSnapshot := None;
    }

    /**
     * Snapshot the state and remember it.  The first update reports nothing;
     * later ones report the deltas and events since the previous snapshot.
     */
    method Update(state: AltitudeState) returns (snapshot: Snapshot, deltas: seq<Delta>, events: seq<AdapterEvent>)
      modifies this
      ensures snapshot == SnapshotOf(state.View()) && lastSnapshot == Some(snapshot)
      ensures old(lastSnapshot).None? ==> deltas == [] && events == []
      ensures old(lastSnapshot).Some? ==> deltas == Deltas(old(lastSnapshot).value, snapshot)
                                          && events == Events(old(lastSnapshot).value, snapshot)
    {
      snapshot := SnapshotOf(state.View());
      var previous := lastSnapshot;
      lastSnapshot := Some(snapshot);
      if previous.None? {
        return snapshot, [], [];
      }
      deltas := BuildDeltas(previous.value, snapshot);
      events := BuildEvents(previous.value, snapshot);
    }
  }
}
