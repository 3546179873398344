/**
 * The shared vocabulary of the device profiler post-processing: timer
 * events, the nested chip -> core -> risc structure the profiler builds,
 * analysis configurations and the statistics attached to a series.
 *
 * Python dictionaries keep insertion order and unique keys; they are
 * modelled as sequences of records whose key field is unique, and every
 * lookup returns the first entry with the requested key.
 */
module Profile {

  /** A core key: a physical `(x, y)` coordinate or the synthetic "DEVICE" entry. */
  datatype CoreKey = Phys(x: int, y: int) | DeviceCore

  /** One element of an event's metadata, appended by the merged views. */
  datatype Tag = RiscTag(risc: string) | CoreTag(core: CoreKey)

  /** A timer marker `(timerID, timestamp, *metadata)`. */
  datatype Event = Event(timerID: int, ts: int, tags: seq<Tag>)

  /** Name of the per-core merged view and of the per-device merged risc view. */
  const TENSIX: string := "TENSIX"
  /** The wildcard accepted in the `core` and `risc` fields of a marker spec. */
  const ANY: string := "ANY"

  /** The `core` field of a marker spec: absent (None), "ANY", or a coordinate. */
  datatype CoreSel = NoCore | AnyCore | AtCore(key: CoreKey)

  /** The `start` or `end` part of an analysis: `timerID`, optional `core`, `risc`. */
  datatype MarkerSpec = MarkerSpec(timerID: int, core: CoreSel, risc: string)

  /** `type`: "first_last" or anything else, which behaves as paired matching. */
  datatype Mode = Paired | FirstLast

  /** `across`: the scope an analysis runs on; any other value runs nothing. */
  datatype Scope = AcrossRisc | AcrossCore | AcrossDevice | AcrossOther

  datatype Spec = Spec(across: Scope, mode: Mode, start: MarkerSpec, end: MarkerSpec)

  /** Statistics of one series' matched durations. */
  datatype SeriesStats = SeriesStats(
    count: nat, average: real, max: int, min: int, range: int,
    median: real, sum: int, first: int)

  /** Device-level roll-up of several series' statistics (no Sum, no First). */
  datatype DeviceStats = DeviceStats(
    count: nat, average: real, max: int, min: int, range: int, median: real)

  datatype SeriesEntry = SeriesEntry(spec: Spec, stats: SeriesStats)
  datatype DeviceEntry = DeviceEntry(spec: Spec, stats: DeviceStats)

  /** `riscs[risc]`: its timeseries and the analyses attached to it. */
  datatype RiscData = RiscData(risc: string, series: seq<Event>, analysis: map<string, SeriesEntry>)

  /** `cores[core]`: its riscs and, for the DEVICE entry, the device-level summary. */
  datatype CoreData = CoreData(key: CoreKey, riscs: seq<RiscData>, summary: map<string, DeviceEntry>)

  /** `metadata.global_min`: the anchor timestamp and the series that holds it. */
  datatype GlobalMin = GlobalMin(ts: int, risc: string, core: CoreKey)

  /** A chip as grouped from the log, before sorting and anchoring. */
  datatype Chip = Chip(id: int, cores: seq<CoreData>)

  /** A chip after anchoring. */
  datatype Device = Device(id: int, cores: seq<CoreData>, globalMin: GlobalMin)

  predicate DistinctRiscs(riscs: seq<RiscData>) {
    forall i, j | 0 <= i < j < |riscs| :: riscs[i].risc != riscs[j].risc
  }

  predicate DistinctCores(cores: seq<CoreData>) {
    forall i, j | 0 <= i < j < |cores| :: cores[i].key != cores[j].key
  }

  /** The series stored under `name`, or the empty series if there is none. */
  function RiscSeries(riscs: seq<RiscData>, name: string): seq<Event> {
    if riscs == [] then []
    else if riscs[0].risc == name then riscs[0].series
    else RiscSeries(riscs[1..], name)
  }

  predicate HasRisc(riscs: seq<RiscData>, name: string) {
    exists i | 0 <= i < |riscs| :: riscs[i].risc == name
  }

  predicate HasCore(cores: seq<CoreData>, key: CoreKey) {
    exists i | 0 <= i < |cores| :: cores[i].key == key
  }

  lemma RiscSeriesAt(riscs: seq<RiscData>, i: nat)
    requires DistinctRiscs(riscs) && i < |riscs|
    ensures RiscSeries(riscs, riscs[i].risc) == riscs[i].series
  {
    if i > 0 {
      assert riscs[0].risc != riscs[i].risc;
      assert riscs[1..][i - 1] == riscs[i];
      RiscSeriesAt(riscs[1..], i - 1);
    }
  }

  lemma RiscSeriesAbsent(riscs: seq<RiscData>, name: string)
    requires !HasRisc(riscs, name)
    ensures RiscSeries(riscs, name) == []
  {
    if riscs != [] {
      RiscSeriesAbsent(riscs[1..], name);
    }
  }
}
