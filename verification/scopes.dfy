/**
 * Running analyses over the device structure (`timeseries_analysis`,
 * `risc_analysis`, `core_analysis`, `device_analysis`) and the device-level
 * summary (`generate_device_level_summary`).
 */
module Scopes {
  import opened Wrappers
  import opened Profile
  import opened Intervals
  import opened Stats

  /**
   * `timeseries_analysis` on one risc entry: the stats of its records are
   * stored under `name` when there is at least one record; otherwise the
   * entry is left as it was.
   */
  function AnalyzeSeries(rd: RiscData, name: string, spec: Spec): (r: RiscData)
    ensures r.risc == rd.risc && r.series == rd.series
    ensures name in r.analysis <==> name in rd.analysis || Analyze(rd.series, spec) != []
    ensures Analyze(rd.series, spec) != [] ==>
              r.analysis[name] == SeriesEntry(spec, Summarize(Analyze(rd.series, spec)).value)
    ensures Analyze(rd.series, spec) == [] ==> r == rd
    ensures forall n | n != name :: (n in r.analysis <==> n in rd.analysis)
    ensures forall n | n != name && n in rd.analysis :: r.analysis[n] == rd.analysis[n]
  {
    var recs := Analyze(rd.series, spec);
    match Summarize(recs)
    case None => rd
    case Some(st) => rd.(analysis := rd.analysis[name := SeriesEntry(spec, st)])
  }

  /** Applies the analysis to every risc entry named `target`. */
  function AnalyzeRiscs(riscs: seq<RiscData>, name: string, spec: Spec, target: string): (r: seq<RiscData>)
    ensures |r| == |riscs|
    ensures forall i | 0 <= i < |riscs| ::
              r[i] == if riscs[i].risc == target then AnalyzeSeries(riscs[i], name, spec) else riscs[i]
  {
    if riscs == [] then []
    else [if riscs[0].risc == target then AnalyzeSeries(riscs[0], name, spec) else riscs[0]]
         + AnalyzeRiscs(riscs[1..], name, spec, target)
  }

  /** Applies the analysis to the `target` risc of every physical core (not DEVICE). */
  function AnalyzeCores(cores: seq<CoreData>, name: string, spec: Spec, target: string): (r: seq<CoreData>)
    ensures |r| == |cores|
    ensures forall i | 0 <= i < |cores| ::
              r[i] == if cores[i].key != DeviceCore
                      then cores[i].(riscs := AnalyzeRiscs(cores[i].riscs, name, spec, target))
                      else cores[i]
  {
    if cores == [] then []
    else [if cores[0].key != DeviceCore
          then cores[0].(riscs := AnalyzeRiscs(cores[0].riscs, name, spec, target))
          else cores[0]]
         + AnalyzeCores(cores[1..], name, spec, target)
  }

  /** Applies the analysis to the TENSIX risc of the DEVICE core only. */
  function AnalyzeDeviceCore(cores: seq<CoreData>, name: string, spec: Spec): (r: seq<CoreData>)
    ensures |r| == |cores|
    ensures forall i | 0 <= i < |cores| ::
              r[i] == if cores[i].key == DeviceCore
                      then cores[i].(riscs := AnalyzeRiscs(cores[i].riscs, name, spec, TENSIX))
                      else cores[i]
  {
    if cores == [] then []
    else [if cores[0].key == DeviceCore
          then cores[0].(riscs := AnalyzeRiscs(cores[0].riscs, name, spec, TENSIX))
          else cores[0]]
         + AnalyzeDeviceCore(cores[1..], name, spec)
  }

  /** Every physical core carries a TENSIX risc (asserted by `core_analysis`). */
  predicate CoresHaveTensix(devs: seq<Device>) {
    forall d, c | 0 <= d < |devs| && 0 <= c < |devs[d].cores| ::
      devs[d].cores[c].key != DeviceCore ==> HasRisc(devs[d].cores[c].riscs, TENSIX)
  }

  /** Every device has a DEVICE core with a TENSIX risc (asserted by `device_analysis`). */
  predicate DevicesHaveTensix(devs: seq<Device>) {
    forall d | 0 <= d < |devs| ::
      && HasCore(devs[d].cores, DeviceCore)
      && forall c | 0 <= c < |devs[d].cores| ::
           devs[d].cores[c].key == DeviceCore ==> HasRisc(devs[d].cores[c].riscs, TENSIX)
  }

  function MapCores(devs: seq<Device>, name: string, spec: Spec): (r: seq<Device>)
    ensures |r| == |devs|
    ensures forall d | 0 <= d < |devs| :: r[d] == devs[d].(cores := ScopeCores(devs[d].cores, name, spec))
  {
    if devs == [] then []
    else [devs[0].(cores := ScopeCores(devs[0].cores, name, spec))] + MapCores(devs[1..], name, spec)
  }

  /** The cores of one device after running an analysis in its `across` scope. */
  function ScopeCores(cores: seq<CoreData>, name: string, spec: Spec): seq<CoreData> {
    match spec.across
    case AcrossRisc => AnalyzeCores(cores, name, spec, spec.start.risc)
    case AcrossCore => AnalyzeCores(cores, name, spec, TENSIX)
    case AcrossDevice => AnalyzeDeviceCore(cores, name, spec)
    case AcrossOther => cores
  }

  /**
   * `risc_analysis`, `core_analysis` or `device_analysis`, chosen by the
   * analysis' `across` field; any other value runs nothing. The scopes'
   * assertions become requirements.
   */
  function RunAnalysis(devs: seq<Device>, name: string, spec: Spec): (r: seq<Device>)
    requires spec.across == AcrossCore ==> CoresHaveTensix(devs)
    requires spec.across == AcrossDevice ==> DevicesHaveTensix(devs)
    ensures |r| == |devs|
  {
    MapCores(devs, name, spec)
  }

  /** Which risc entry of which core an analysis of this scope looks at. */
  predicate Targeted(spec: Spec, key: CoreKey, risc: string) {
    match spec.across
    case AcrossRisc => key != DeviceCore && risc == spec.start.risc
    case AcrossCore => key != DeviceCore && risc == TENSIX
    case AcrossDevice => key == DeviceCore && risc == TENSIX
    case AcrossOther => false
  }

  /**
   * An analysis run keeps every device, core, risc and series in place; it
   * analyses exactly the targeted risc entries and leaves every other entry,
   * and every other analysis name, untouched.
   */
  lemma RunAnalysisEffect(devs: seq<Device>, name: string, spec: Spec, d: nat, c: nat, i: nat)
    requires spec.across == AcrossCore ==> CoresHaveTensix(devs)
    requires spec.across == AcrossDevice ==> DevicesHaveTensix(devs)
    requires d < |devs| && c < |devs[d].cores| && i < |devs[d].cores[c].riscs|
    ensures var r := RunAnalysis(devs, name, spec);
            var before := devs[d].cores[c];
            && r[d].id == devs[d].id && r[d].globalMin == devs[d].globalMin
            && |r[d].cores| == |devs[d].cores|
            && r[d].cores[c].key == before.key && r[d].cores[c].summary == before.summary
            && |r[d].cores[c].riscs| == |before.riscs|
            && r[d].cores[c].riscs[i]
               == if Targeted(spec, before.key, before.riscs[i].risc)
                  then AnalyzeSeries(before.riscs[i], name, spec)
                  else before.riscs[i]
  {
  }

  /** Every analysis entry of a risc comes from at least one record. */
  predicate RiscCounted(rd: RiscData) {
    forall n | n in rd.analysis :: rd.analysis[n].stats.count > 0
  }

  predicate EntriesCounted(devs: seq<Device>) {
    forall d, c, i | 0 <= d < |devs| && 0 <= c < |devs[d].cores| && 0 <= i < |devs[d].cores[c].riscs| ::
      RiscCounted(devs[d].cores[c].riscs[i])
  }

  lemma AnalyzeSeriesCounted(rd: RiscData, name: string, spec: Spec)
    requires RiscCounted(rd)
    ensures RiscCounted(AnalyzeSeries(rd, name, spec))
  {
  }

  /** Analysis runs keep every stored entry backed by at least one record. */
  lemma RunAnalysisCounted(devs: seq<Device>, name: string, spec: Spec)
    requires spec.across == AcrossCore ==> CoresHaveTensix(devs)
    requires spec.across == AcrossDevice ==> DevicesHaveTensix(devs)
    requires EntriesCounted(devs)
    ensures EntriesCounted(RunAnalysis(devs, name, spec))
  {
    var r := RunAnalysis(devs, name, spec);
    forall d, c, i | 0 <= d < |r| && 0 <= c < |r[d].cores| && 0 <= i < |r[d].cores[c].riscs|
      ensures RiscCounted(r[d].cores[c].riscs[i])
    {
      RunAnalysisEffect(devs, name, spec, d, c, i);
      var before := devs[d].cores[c].riscs[i];
      assert RiscCounted(before);
      AnalyzeSeriesCounted(before, name, spec);
    }
  }

  // ---------------------------------------------------------------------
  // Device-level summary

  /** The analysis entries named `n` of a core's riscs, in risc order. */
  function RiscEntries(riscs: seq<RiscData>, n: string): seq<SeriesEntry> {
    if riscs == [] then []
    else (if n in riscs[0].analysis then [riscs[0].analysis[n]] else []) + RiscEntries(riscs[1..], n)
  }

  /** The analysis entries named `n` across all cores, in core then risc order. */
  function CoreEntries(cores: seq<CoreData>, n: string): seq<SeriesEntry> {
    if cores == [] then [] else RiscEntries(cores[0].riscs, n) + CoreEntries(cores[1..], n)
  }

  /** Every analysis name attached to any risc of any core. */
  function Names(cores: seq<CoreData>): set<string> {
    set c, i, n | 0 <= c < |cores| && 0 <= i < |cores[c].riscs| && n in cores[c].riscs[i].analysis :: n
  }

  predicate CoresCounted(cores: seq<CoreData>) {
    forall c, i | 0 <= c < |cores| && 0 <= i < |cores[c].riscs| :: RiscCounted(cores[c].riscs[i])
  }

  function StatsList(es: seq<SeriesEntry>): (r: seq<SeriesStats>)
    ensures |r| == |es| && forall k | 0 <= k < |es| :: r[k] == es[k].stats
  {
    if es == [] then [] else [es[0].stats] + StatsList(es[1..])
  }

  lemma {:induction false} RiscEntriesFrom(riscs: seq<RiscData>, n: string, k: nat)
    requires k < |RiscEntries(riscs, n)|
    ensures exists i | 0 <= i < |riscs| :: n in riscs[i].analysis && RiscEntries(riscs, n)[k] == riscs[i].analysis[n]
  {
    var head := if n in riscs[0].analysis then [riscs[0].analysis[n]] else [];
    if k < |head| {
      assert RiscEntries(riscs, n)[k] == riscs[0].analysis[n];
    } else {
      RiscEntriesFrom(riscs[1..], n, k - |head|);
      var i :| 0 <= i < |riscs[1..]| && n in riscs[1..][i].analysis
               && RiscEntries(riscs[1..], n)[k - |head|] == riscs[1..][i].analysis[n];
      assert riscs[i + 1] == riscs[1..][i];
    }
  }

  lemma {:induction false} CoreEntriesFrom(cores: seq<CoreData>, n: string, k: nat)
    requires k < |CoreEntries(cores, n)|
    ensures exists c, i | 0 <= c < |cores| && 0 <= i < |cores[c].riscs| ::
              n in cores[c].riscs[i].analysis && CoreEntries(cores, n)[k] == cores[c].riscs[i].analysis[n]
  {
    var head := RiscEntries(cores[0].riscs, n);
    if k < |head| {
      RiscEntriesFrom(cores[0].riscs, n, k);
    } else {
      CoreEntriesFrom(cores[1..], n, k - |head|);
      var c, i :| 0 <= c < |cores[1..]| && 0 <= i < |cores[1..][c].riscs| && n in cores[1..][c].riscs[i].analysis
                  && CoreEntries(cores[1..], n)[k - |head|] == cores[1..][c].riscs[i].analysis[n];
      assert cores[c + 1] == cores[1..][c];
    }
  }

  lemma {:induction false} RiscEntriesNonEmpty(riscs: seq<RiscData>, n: string, i: nat)
    requires i < |riscs| && n in riscs[i].analysis
    ensures RiscEntries(riscs, n) != []
  {
    if i > 0 && n !in riscs[0].analysis {
      RiscEntriesNonEmpty(riscs[1..], n, i - 1);
    }
  }

  lemma {:induction false} CoreEntriesNonEmpty(cores: seq<CoreData>, n: string, c: nat, i: nat)
    requires c < |cores| && i < |cores[c].riscs| && n in cores[c].riscs[i].analysis
    ensures CoreEntries(cores, n) != []
  {
    if c == 0 {
      RiscEntriesNonEmpty(cores[0].riscs, n, i);
    } else {
      CoreEntriesNonEmpty(cores[1..], n, c - 1, i);
    }
  }

  /**
   * The roll-up of one analysis name: its spec is the first entry's, its
   * stats roll up every entry of that name in core then risc order.
   */
  function SummaryEntry(cores: seq<CoreData>, n: string): (r: DeviceEntry)
    requires n in Names(cores) && CoresCounted(cores)
    ensures CoreEntries(cores, n) != [] && r.spec == CoreEntries(cores, n)[0].spec
    ensures r.stats.count == Counts(StatsList(CoreEntries(cores, n))) > 0
    ensures r.stats.average == Mean(Sums(StatsList(CoreEntries(cores, n))), r.stats.count)
    ensures forall k | 0 <= k < |CoreEntries(cores, n)| :: StatsList(CoreEntries(cores, n))[k].count > 0
    ensures r.stats == RollUp(StatsList(CoreEntries(cores, n)))
    ensures forall k | 0 <= k < |CoreEntries(cores, n)| ::
              CoreEntries(cores, n)[k].stats.min >= r.stats.min && CoreEntries(cores, n)[k].stats.max <= r.stats.max
  {
    var c, i :| 0 <= c < |cores| && 0 <= i < |cores[c].riscs| && n in cores[c].riscs[i].analysis;
    CoreEntriesNonEmpty(cores, n, c, i);
    var es := CoreEntries(cores, n);
    forall k | 0 <= k < |es| ensures es[k].stats.count > 0 {
      CoreEntriesFrom(cores, n, k);
      var c', i' :| 0 <= c' < |cores| && 0 <= i' < |cores[c'].riscs| &&
                    n in cores[c'].riscs[i'].analysis && es[k] == cores[c'].riscs[i'].analysis[n];
      assert RiscCounted(cores[c'].riscs[i']);
    }
    DeviceEntry(es[0].spec, RollUp(StatsList(es)))
  }

  /**
   * The roll-up's Max and Min are the Max and Min of some entry of that
   * name, Range is their difference and Median is the median of the
   * entries' medians.
   */
  lemma SummaryEntryStats(cores: seq<CoreData>, n: string)
    requires n in Names(cores) && CoresCounted(cores)
    ensures exists k | 0 <= k < |CoreEntries(cores, n)| ::
              SummaryEntry(cores, n).stats.max == CoreEntries(cores, n)[k].stats.max
    ensures exists k | 0 <= k < |CoreEntries(cores, n)| ::
              SummaryEntry(cores, n).stats.min == CoreEntries(cores, n)[k].stats.min
    ensures SummaryEntry(cores, n).stats.range == SummaryEntry(cores, n).stats.max - SummaryEntry(cores, n).stats.min
    ensures SummaryEntry(cores, n).stats.median == Median(Medians(StatsList(CoreEntries(cores, n))))
  {
    var es := CoreEntries(cores, n);
    var ss := StatsList(es);
    var r := SummaryEntry(cores, n);
    var u := RollUp(ss);
    assert r.stats == u;
    assert (exists k | 0 <= k < |ss| :: u.max == ss[k].max) && (exists k | 0 <= k < |ss| :: u.min == ss[k].min) by {
      RollUpExtremes(ss);
    }
    var i :| 0 <= i < |ss| && u.max == ss[i].max;
    var j :| 0 <= j < |ss| && u.min == ss[j].min;
    assert r.stats.max == es[i].stats.max && r.stats.min == es[j].stats.min;
  }

  /** `deviceData["cores"]["DEVICE"]["analysis"]` updated with every roll-up. */
  function PutSummary(cores: seq<CoreData>, all: seq<CoreData>): (r: seq<CoreData>)
    requires CoresCounted(all)
    ensures |r| == |cores|
    ensures forall c | 0 <= c < |cores| ::
              && r[c].key == cores[c].key && r[c].riscs == cores[c].riscs
              && (cores[c].key != DeviceCore ==> r[c].summary == cores[c].summary)
              && (cores[c].key == DeviceCore ==>
                    r[c].summary == cores[c].summary + map n | n in Names(all) :: SummaryEntry(all, n))
  {
    if cores == [] then []
    else
      var c0 := if cores[0].key == DeviceCore
                then cores[0].(summary := cores[0].summary + map n | n in Names(all) :: SummaryEntry(all, n))
                else cores[0];
      [c0] + PutSummary(cores[1..], all)
  }

  /**
   * `generate_device_level_summary` for one device. It needs the DEVICE
   * core only when some analysis name is present.
   */
  function DeviceSummary(dev: Device): (r: Device)
    requires CoresCounted(dev.cores)
    requires Names(dev.cores) != {} ==> HasCore(dev.cores, DeviceCore)
    ensures r.id == dev.id && r.globalMin == dev.globalMin && |r.cores| == |dev.cores|
  {
    dev.(cores := PutSummary(dev.cores, dev.cores))
  }

  /**
   * After the summary, the DEVICE core holds one roll-up per analysis name
   * found on the device, keeps its other entries, and no risc changes.
   */
  lemma DeviceSummaryEffect(dev: Device, c: nat, n: string)
    requires CoresCounted(dev.cores)
    requires Names(dev.cores) != {} ==> HasCore(dev.cores, DeviceCore)
    requires c < |dev.cores| && dev.cores[c].key == DeviceCore
    ensures var s := DeviceSummary(dev).cores[c].summary;
            && (n in s <==> n in Names(dev.cores) || n in dev.cores[c].summary)
            && (n in Names(dev.cores) ==> s[n] == SummaryEntry(dev.cores, n))
            && (n !in Names(dev.cores) && n in dev.cores[c].summary ==> s[n] == dev.cores[c].summary[n])
    ensures forall k | 0 <= k < |dev.cores| :: DeviceSummary(dev).cores[k].riscs == dev.cores[k].riscs
  {
    var cs := DeviceSummary(dev).cores;
    assert cs == PutSummary(dev.cores, dev.cores);
    var added := map n | n in Names(dev.cores) :: SummaryEntry(dev.cores, n);
    assert cs[c].summary == dev.cores[c].summary + added;
    assert n in added <==> n in Names(dev.cores);
  }

  function DeviceSummaries(devs: seq<Device>): (r: seq<Device>)
    requires forall d | 0 <= d < |devs| :: CoresCounted(devs[d].cores)
    requires forall d | 0 <= d < |devs| :: Names(devs[d].cores) != {} ==> HasCore(devs[d].cores, DeviceCore)
    ensures |r| == |devs| && forall d | 0 <= d < |devs| :: r[d] == DeviceSummary(devs[d])
  {
    if devs == [] then [] else [DeviceSummary(devs[0])] + DeviceSummaries(devs[1..])
  }
}
