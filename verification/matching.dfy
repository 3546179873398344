/**
 * `translate_metaData` and `determine_conditions`: how an event's metadata
 * (the tags appended by the merged views) is read against the `start` and
 * `end` marker specs of an analysis.
 */
module Matching {
  import opened Wrappers
  import opened Profile
  import opened StableSort
  import opened Views

  /** The metadata of an event, read as an optional risc and an optional core. */
  datatype Meta = Meta(risc: Option<string>, core: Option<CoreKey>)

  function RiscOfTag(t: Tag): Option<string> {
    if t.RiscTag? then Some(t.risc) else None
  }

  function CoreOfTag(t: Tag): Option<CoreKey> {
    if t.CoreTag? then Some(t.core) else None
  }

  /**
   * A two-element list is `(risc, core)`; a single element is a risc if it
   * is a string and a core if it is a coordinate; any other length carries
   * nothing.
   */
  function MetaOf(tags: seq<Tag>): (m: Meta)
    ensures |tags| == 2 && tags[0].RiscTag? && tags[1].CoreTag? ==>
              m == Meta(Some(tags[0].risc), Some(tags[1].core))
    ensures |tags| == 1 && tags[0].RiscTag? ==> m == Meta(Some(tags[0].risc), None)
    ensures |tags| == 1 && tags[0].CoreTag? ==> m == Meta(None, Some(tags[0].core))
    ensures |tags| != 1 && |tags| != 2 ==> m == Meta(None, None)
  {
    if |tags| == 2 then Meta(RiscOfTag(tags[0]), CoreOfTag(tags[1]))
    else if |tags| == 1 then Meta(RiscOfTag(tags[0]), CoreOfTag(tags[0]))
    else Meta(None, None)
  }

  /** The `(timerID, core, risc)` triple compared by `determine_conditions`. */
  datatype Key = Key(timerID: int, core: CoreSel, risc: string)

  /**
   * `translate_metaData`: the event's core replaces the spec's unless the
   * spec says "ANY"; the event's risc replaces the spec's unless the spec
   * says "ANY" or the event's risc is the empty (falsy) string.
   */
  function Translate(tags: seq<Tag>, core: CoreSel, risc: string): (r: (CoreSel, string))
    ensures core == AnyCore ==> r.0 == AnyCore
    ensures MetaOf(tags).core.None? ==> r.0 == core
    ensures risc == ANY ==> r.1 == ANY
    ensures MetaOf(tags).risc.None? ==> r.1 == risc
  {
    var m := MetaOf(tags);
    var core' := if core != AnyCore && m.core.Some? then AtCore(m.core.value) else core;
    var risc' := if risc != ANY && m.risc.Some? && m.risc.value != "" then m.risc.value else risc;
    (core', risc')
  }

  function Desired(m: MarkerSpec): Key {
    Key(m.timerID, m.core, m.risc)
  }

  function Current(e: Event, m: MarkerSpec): Key {
    var t := Translate(e.tags, m.core, m.risc);
    Key(e.timerID, t.0, t.1)
  }

  /** `determine_conditions`: `(currStart, currEnd, desStart, desEnd)`. */
  function Conditions(e: Event, spec: Spec): (r: (Key, Key, Key, Key))
    ensures r.2.timerID == spec.start.timerID && r.3.timerID == spec.end.timerID
    ensures r.0.timerID == e.timerID && r.1.timerID == e.timerID
  {
    (Current(e, spec.start), Current(e, spec.end), Desired(spec.start), Desired(spec.end))
  }

  predicate IsStart(e: Event, spec: Spec) {
    var c := Conditions(e, spec);
    c.0 == c.2
  }

  predicate IsEnd(e: Event, spec: Spec) {
    var c := Conditions(e, spec);
    c.1 == c.3
  }

  /** The core half of a match: "ANY", no event core, or the same core. */
  predicate CoreAccepts(sel: CoreSel, meta: Option<CoreKey>) {
    sel == AnyCore || meta.None? || sel == AtCore(meta.value)
  }

  /** The risc half of a match: "ANY", no (or an empty) event risc, or the same risc. */
  predicate RiscAccepts(risc: string, meta: Option<string>) {
    risc == ANY || meta.None? || meta.value == "" || meta.value == risc
  }

  /**
   * An event matches a marker spec exactly when the timer ids agree and the
   * event's core and risc are each accepted by the spec.
   */
  lemma MatchIff(e: Event, m: MarkerSpec)
    ensures Current(e, m) == Desired(m) <==>
              && e.timerID == m.timerID
              && CoreAccepts(m.core, MetaOf(e.tags).core)
              && RiscAccepts(m.risc, MetaOf(e.tags).risc)
  {
  }

  /** An absent `core` (None) is not a wildcard: any event core defeats it. */
  lemma NoCoreRejectsCoreTags(e: Event, m: MarkerSpec)
    requires m.core == NoCore && MetaOf(e.tags).core.Some?
    ensures Current(e, m) != Desired(m)
  {
  }

  /** Events with no metadata match on the timer id alone. */
  lemma UntaggedMatchesById(e: Event, m: MarkerSpec)
    requires e.tags == []
    ensures Current(e, m) == Desired(m) <==> e.timerID == m.timerID
  {
  }

  lemma IsStartIff(e: Event, spec: Spec)
    ensures IsStart(e, spec) <==>
              && e.timerID == spec.start.timerID
              && CoreAccepts(spec.start.core, MetaOf(e.tags).core)
              && RiscAccepts(spec.start.risc, MetaOf(e.tags).risc)
  {
    MatchIff(e, spec.start);
  }

  lemma IsEndIff(e: Event, spec: Spec)
    ensures IsEnd(e, spec) <==>
              && e.timerID == spec.end.timerID
              && CoreAccepts(spec.end.core, MetaOf(e.tags).core)
              && RiscAccepts(spec.end.risc, MetaOf(e.tags).risc)
  {
    MatchIff(e, spec.end);
  }

  // ---------------------------------------------------------------------
  // The tag lists the merged views build

  /** The tags of a TENSIX event: none, or the one risc it was merged from. */
  predicate RiscShaped(tags: seq<Tag>) {
    tags == [] || (|tags| == 1 && tags[0].RiscTag?)
  }

  /**
   * The tags an event carries after both views: nothing, `(risc,)`,
   * `(core,)` or `(risc, core)`, every core a grid coordinate.
   */
  predicate ViewShaped(tags: seq<Tag>) {
    || RiscShaped(tags)
    || (|tags| == 1 && tags[0].CoreTag? && tags[0].core.Phys?)
    || (|tags| == 2 && tags[0].RiscTag? && tags[1].CoreTag? && tags[1].core.Phys?)
  }

  predicate Untagged(s: seq<Event>) {
    forall e | e in s :: e.tags == []
  }

  predicate AllRiscShaped(s: seq<Event>) {
    forall e | e in s :: RiscShaped(e.tags)
  }

  predicate AllViewShaped(s: seq<Event>) {
    forall e | e in s :: ViewShaped(e.tags)
  }

  /**
   * On the lists the views build, the risc is the first tag when that tag
   * names a risc and the core is the last tag when that tag names a core,
   * which is how `translate_metaData` unpacks them.
   */
  lemma MetaOfViewShaped(tags: seq<Tag>)
    requires ViewShaped(tags)
    ensures MetaOf(tags).risc == if tags != [] && tags[0].RiscTag? then Some(tags[0].risc) else None
    ensures MetaOf(tags).core == if tags != [] && tags[|tags| - 1].CoreTag? then Some(tags[|tags| - 1].core) else None
  {
  }

  lemma SortKeepsMembers(s: seq<Event>, e: Event)
    requires e in SortByTs(s)
    ensures e in s
  {
    assert e in multiset(SortByTs(s));
  }

  lemma {:induction false} MergeRiscsShaped(riscs: seq<RiscData>)
    requires forall i | 0 <= i < |riscs| :: Untagged(riscs[i].series)
    ensures AllRiscShaped(MergeRiscs(riscs))
  {
    if riscs != [] {
      MergeRiscsShaped(riscs[1..]);
      var head := TagAll(riscs[0].series, RiscTag(riscs[0].risc));
      assert AllRiscShaped(head) by {
        forall e | e in head ensures RiscShaped(e.tags) {
          var j :| 0 <= j < |head| && head[j] == e;
          assert riscs[0].series[j] in riscs[0].series;
        }
      }
      assert MergeRiscs(riscs) == head + MergeRiscs(riscs[1..]);
    }
  }

  /** The TENSIX view of untagged riscs leaves every event with at most its risc tag. */
  lemma CoreViewShaped(core: CoreData)
    requires forall i | 0 <= i < |core.riscs| :: Untagged(core.riscs[i].series)
    ensures forall i | 0 <= i < |CoreView(core).riscs| :: AllRiscShaped(CoreView(core).riscs[i].series)
  {
    var td := TensixData(core);
    MergeRiscsShaped(core.riscs);
    assert AllRiscShaped(td.series) by {
      forall e | e in td.series ensures RiscShaped(e.tags) {
        SortKeepsMembers(MergeRiscs(core.riscs), e);
      }
    }
    PutRiscFrom(core.riscs, td);
    forall i | 0 <= i < |CoreView(core).riscs| ensures AllRiscShaped(CoreView(core).riscs[i].series) {
      var rd := CoreView(core).riscs[i];
      if rd != td {
        var k :| 0 <= k < |core.riscs| && core.riscs[k] == rd;
      }
    }
  }

  lemma TagCoreShaped(s: seq<Event>, key: CoreKey, gcore: CoreKey)
    requires key.Phys? && gcore.Phys? && AllRiscShaped(s)
    ensures AllViewShaped(TagCore(s, key, gcore))
  {
    var r := TagCore(s, key, gcore);
    forall e | e in r ensures ViewShaped(e.tags) {
      var j :| 0 <= j < |r| && r[j] == e;
      assert s[j] in s;
    }
  }

  lemma {:induction false} RiscSeriesShaped(riscs: seq<RiscData>, name: string)
    requires forall i | 0 <= i < |riscs| :: AllRiscShaped(riscs[i].series)
    ensures AllRiscShaped(RiscSeries(riscs, name))
  {
    if riscs != [] && riscs[0].risc != name {
      RiscSeriesShaped(riscs[1..], name);
    }
  }

  lemma {:induction false} CollectShaped(cores: seq<CoreData>, name: string, gcore: CoreKey)
    requires gcore.Phys?
    requires forall c | 0 <= c < |cores| :: cores[c].key.Phys?
    requires forall c, i | 0 <= c < |cores| && 0 <= i < |cores[c].riscs| :: AllRiscShaped(cores[c].riscs[i].series)
    ensures AllViewShaped(Collect(cores, name, gcore))
  {
    if cores != [] {
      CollectShaped(cores[1..], name, gcore);
      RiscSeriesShaped(cores[0].riscs, name);
      TagCoreShaped(RiscSeries(cores[0].riscs, name), cores[0].key, gcore);
      assert Collect(cores, name, gcore)
          == TagCore(RiscSeries(cores[0].riscs, name), cores[0].key, gcore) + Collect(cores[1..], name, gcore);
    }
  }

  /** The DEVICE view of grid cores whose events carry at most a risc tag builds only view-shaped tags. */
  lemma DeviceViewShaped(dev: Device)
    requires dev.globalMin.core.Phys?
    requires forall c | 0 <= c < |dev.cores| :: dev.cores[c].key.Phys?
    requires forall c, i | 0 <= c < |dev.cores| && 0 <= i < |dev.cores[c].riscs| ::
               AllRiscShaped(dev.cores[c].riscs[i].series)
    ensures forall c, i | 0 <= c < |DeviceView(dev).cores| && 0 <= i < |DeviceView(dev).cores[c].riscs| ::
              AllViewShaped(DeviceView(dev).cores[c].riscs[i].series)
  {
    var dd := DeviceData(dev);
    var gcore := dev.globalMin.core;
    forall i | 0 <= i < |dd.riscs| ensures AllViewShaped(dd.riscs[i].series) {
      var name := dd.riscs[i].risc;
      CollectShaped(dev.cores, name, gcore);
      forall e | e in dd.riscs[i].series ensures ViewShaped(e.tags) {
        SortKeepsMembers(Collect(dev.cores, name, gcore), e);
      }
    }
    PutCoreFrom(dev.cores, dd);
    forall c, i | 0 <= c < |DeviceView(dev).cores| && 0 <= i < |DeviceView(dev).cores[c].riscs|
      ensures AllViewShaped(DeviceView(dev).cores[c].riscs[i].series)
    {
      var cd := DeviceView(dev).cores[c];
      if cd != dd {
        var k :| 0 <= k < |dev.cores| && dev.cores[k] == cd;
        assert AllRiscShaped(dev.cores[k].riscs[i].series);
      }
    }
  }

  /**
   * Starting from untagged series on grid cores, `risc_to_core_timeseries`
   * followed by `core_to_device_timeseries` leaves every event of every
   * series with a view-shaped tag list.
   */
  lemma ViewsBuildShapedTags(devs: seq<Device>)
    requires forall k | 0 <= k < |devs| :: devs[k].globalMin.core.Phys?
    requires forall k, c | 0 <= k < |devs| && 0 <= c < |devs[k].cores| :: devs[k].cores[c].key.Phys?
    requires forall k, c, i | 0 <= k < |devs| && 0 <= c < |devs[k].cores| && 0 <= i < |devs[k].cores[c].riscs| ::
               Untagged(devs[k].cores[c].riscs[i].series)
    ensures var out := CoreToDevice(RiscToCore(devs));
            forall k, c, i | 0 <= k < |out| && 0 <= c < |out[k].cores| && 0 <= i < |out[k].cores[c].riscs| ::
              AllViewShaped(out[k].cores[c].riscs[i].series)
  {
    var mid := RiscToCore(devs);
    forall k | 0 <= k < |mid|
      ensures forall c, i | 0 <= c < |DeviceView(mid[k]).cores| && 0 <= i < |DeviceView(mid[k]).cores[c].riscs| ::
                AllViewShaped(DeviceView(mid[k]).cores[c].riscs[i].series)
    {
      var cores := CoreViews(devs[k].cores);
      assert mid[k] == devs[k].(cores := cores);
      forall c | 0 <= c < |cores|
        ensures cores[c].key.Phys?
        ensures forall i | 0 <= i < |cores[c].riscs| :: AllRiscShaped(cores[c].riscs[i].series)
      {
        CoreViewShaped(devs[k].cores[c]);
      }
      DeviceViewShaped(mid[k]);
    }
  }
}
