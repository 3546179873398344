/**
 * The merged views built before analysis:
 *  - `risc_to_core_timeseries`: every core gets a "TENSIX" risc whose series
 *    merges all of the core's risc series, each event tagged with its risc;
 *  - `core_to_device_timeseries`: every device gets a "DEVICE" core whose
 *    risc `r` merges risc `r` of all cores, each event tagged with its core,
 *    except that every marker-0 event is tagged with `global_min.core`.
 * Both merges are stable timestamp sorts of the concatenation in visiting
 * order.
 */
module Views {
  import opened Profile
  import opened StableSort

  /** `ts + (t,)` for every event of `s`. */
  function TagAll(s: seq<Event>, t: Tag): (r: seq<Event>)
    ensures |r| == |s|
    ensures forall i | 0 <= i < |s| :: r[i] == s[i].(tags := s[i].tags + [t])
  {
    if s == [] then [] else [s[0].(tags := s[0].tags + [t])] + TagAll(s[1..], t)
  }

  /** The event's last tag is `t`: it was merged in from the entry `t` names. */
  predicate LastTagIs(e: Event, t: Tag) {
    |e.tags| > 0 && e.tags[|e.tags| - 1] == t
  }

  function FromTag(t: Tag): Event -> bool {
    (e: Event) => LastTagIs(e, t)
  }

  lemma TagAllSorted(s: seq<Event>, t: Tag)
    requires Sorted(s)
    ensures Sorted(TagAll(s, t))
  {
  }

  lemma TagAllConcat(a: seq<Event>, b: seq<Event>, t: Tag)
    ensures TagAll(a + b, t) == TagAll(a, t) + TagAll(b, t)
  {
  }

  // ---------------------------------------------------------------------
  // TENSIX: one merged series per core

  function MergeRiscs(riscs: seq<RiscData>): seq<Event> {
    if riscs == [] then [] else TagAll(riscs[0].series, RiscTag(riscs[0].risc)) + MergeRiscs(riscs[1..])
  }

  function TotalLength(riscs: seq<RiscData>): nat {
    if riscs == [] then 0 else |riscs[0].series| + TotalLength(riscs[1..])
  }

  lemma HasRiscCons(riscs: seq<RiscData>, name: string)
    requires riscs != []
    ensures HasRisc(riscs, name) <==> riscs[0].risc == name || HasRisc(riscs[1..], name)
  {
    if HasRisc(riscs, name) && riscs[0].risc != name {
      var i :| 0 <= i < |riscs| && riscs[i].risc == name;
      assert riscs[1..][i - 1].risc == name;
    }
    if HasRisc(riscs[1..], name) {
      var i :| 0 <= i < |riscs[1..]| && riscs[1..][i].risc == name;
      assert riscs[i + 1].risc == name;
    }
  }

  /** `riscs[rd.risc] = rd`: replaces the entry in place, or appends it. */
  function PutRisc(riscs: seq<RiscData>, rd: RiscData): (r: seq<RiscData>)
    ensures forall name | name != rd.risc :: RiscSeries(r, name) == RiscSeries(riscs, name)
    ensures RiscSeries(r, rd.risc) == rd.series
    ensures forall name :: HasRisc(r, name) <==> name == rd.risc || HasRisc(riscs, name)
  {
    if riscs == [] then [rd]
    else
      var r := if riscs[0].risc == rd.risc then [rd] + riscs[1..] else [riscs[0]] + PutRisc(riscs[1..], rd);
      assert forall name :: HasRisc(r, name) <==> name == rd.risc || HasRisc(riscs, name) by {
        forall name ensures HasRisc(r, name) <==> name == rd.risc || HasRisc(riscs, name) {
          HasRiscCons(riscs, name);
          HasRiscCons(r, name);
          assert r[1..] == if riscs[0].risc == rd.risc then riscs[1..] else PutRisc(riscs[1..], rd);
        }
      }
      r
  }

  lemma {:induction false} PutRiscDistinct(riscs: seq<RiscData>, rd: RiscData)
    requires DistinctRiscs(riscs)
    ensures DistinctRiscs(PutRisc(riscs, rd))
  {
    if riscs != [] && riscs[0].risc != rd.risc {
      var rest := PutRisc(riscs[1..], rd);
      PutRiscDistinct(riscs[1..], rd);
      forall j | 0 <= j < |rest| ensures rest[j].risc != riscs[0].risc {
        assert HasRisc(rest, rest[j].risc);
      }
      assert PutRisc(riscs, rd) == [riscs[0]] + rest;
    }
  }

  /** Every entry after `PutRisc` is the stored entry or one that was there before. */
  lemma {:induction false} PutRiscFrom(riscs: seq<RiscData>, rd: RiscData)
    ensures forall i | 0 <= i < |PutRisc(riscs, rd)| :: PutRisc(riscs, rd)[i] == rd || PutRisc(riscs, rd)[i] in riscs
  {
    if riscs != [] && riscs[0].risc != rd.risc {
      var rest := PutRisc(riscs[1..], rd);
      PutRiscFrom(riscs[1..], rd);
      assert PutRisc(riscs, rd) == [riscs[0]] + rest;
      forall i | 1 <= i < |PutRisc(riscs, rd)| ensures PutRisc(riscs, rd)[i] == rd || PutRisc(riscs, rd)[i] in riscs {
        assert PutRisc(riscs, rd)[i] == rest[i - 1];
        assert rest[i - 1] in riscs[1..] ==> rest[i - 1] in riscs;
      }
    }
  }

  function TensixData(core: CoreData): RiscData {
    RiscData(TENSIX, SortByTs(MergeRiscs(core.riscs)), map[])
  }

  function CoreView(core: CoreData): CoreData {
    core.(riscs := PutRisc(core.riscs, TensixData(core)))
  }

  function CoreViews(cores: seq<CoreData>): (r: seq<CoreData>)
    ensures |r| == |cores|
    ensures forall i | 0 <= i < |cores| :: r[i] == CoreView(cores[i])
  {
    if cores == [] then [] else [CoreView(cores[0])] + CoreViews(cores[1..])
  }

  /** `risc_to_core_timeseries` over every device. */
  function RiscToCore(devs: seq<Device>): (r: seq<Device>)
    ensures |r| == |devs|
    ensures forall k | 0 <= k < |devs| :: r[k] == devs[k].(cores := CoreViews(devs[k].cores))
  {
    if devs == [] then [] else [devs[0].(cores := CoreViews(devs[0].cores))] + RiscToCore(devs[1..])
  }

  lemma MergeLength(riscs: seq<RiscData>)
    ensures |MergeRiscs(riscs)| == TotalLength(riscs)
  {
  }

  lemma FilterTagAll(s: seq<Event>, t: Tag, u: Tag)
    ensures Filter(FromTag(u), TagAll(s, t)) == if t == u then TagAll(s, t) else []
  {
    if s != [] {
      FilterTagAll(s[1..], t, u);
      assert TagAll(s, t) == [s[0].(tags := s[0].tags + [t])] + TagAll(s[1..], t);
      FilterCons(FromTag(u), s[0].(tags := s[0].tags + [t]), TagAll(s[1..], t));
    }
  }

  lemma {:induction false} FilterMerge(riscs: seq<RiscData>, i: nat)
    requires DistinctRiscs(riscs) && i < |riscs|
    ensures Filter(FromTag(RiscTag(riscs[i].risc)), MergeRiscs(riscs))
         == TagAll(riscs[i].series, RiscTag(riscs[i].risc))
  {
    var u := RiscTag(riscs[i].risc);
    var block := TagAll(riscs[0].series, RiscTag(riscs[0].risc));
    var rest := riscs[1..];
    assert Filter(FromTag(u), MergeRiscs(riscs)) == Filter(FromTag(u), block) + Filter(FromTag(u), MergeRiscs(rest)) by {
      assert MergeRiscs(riscs) == block + MergeRiscs(rest);
      FilterConcat(FromTag(u), block, MergeRiscs(rest));
    }
    if i == 0 {
      assert Filter(FromTag(u), block) == block by {
        FilterTagAll(riscs[0].series, RiscTag(riscs[0].risc), u);
      }
      assert Filter(FromTag(u), MergeRiscs(rest)) == [] by {
        DistinctRiscsTail(riscs);
        FilterMergeAbsent(rest, riscs[0].risc);
      }
      assert block + [] == block;
    } else {
      assert Filter(FromTag(u), block) == [] by {
        assert riscs[0].risc != riscs[i].risc;
        FilterTagAll(riscs[0].series, RiscTag(riscs[0].risc), u);
      }
      assert Filter(FromTag(u), MergeRiscs(rest)) == TagAll(riscs[i].series, u) by {
        DistinctRiscsTail(riscs);
        assert rest[i - 1] == riscs[i];
        FilterMerge(rest, i - 1);
      }
      assert [] + TagAll(riscs[i].series, u) == TagAll(riscs[i].series, u);
    }
  }

  lemma DistinctRiscsTail(riscs: seq<RiscData>)
    requires DistinctRiscs(riscs) && riscs != []
    ensures DistinctRiscs(riscs[1..])
    ensures forall j | 0 <= j < |riscs[1..]| :: riscs[1..][j].risc != riscs[0].risc
  {
    var rest := riscs[1..];
    forall a | 0 <= a < |rest| ensures rest[a].risc != riscs[0].risc {
      assert rest[a] == riscs[a + 1];
    }
    forall a, b | 0 <= a < b < |rest| ensures rest[a].risc != rest[b].risc {
      assert rest[a] == riscs[a + 1] && rest[b] == riscs[b + 1];
    }
  }

  lemma DistinctCoresTail(cores: seq<CoreData>)
    requires DistinctCores(cores) && cores != []
    ensures DistinctCores(cores[1..])
    ensures forall j | 0 <= j < |cores[1..]| :: cores[1..][j].key != cores[0].key
  {
    var rest := cores[1..];
    forall a | 0 <= a < |rest| ensures rest[a].key != cores[0].key {
      assert rest[a] == cores[a + 1];
    }
    forall a, b | 0 <= a < b < |rest| ensures rest[a].key != rest[b].key {
      assert rest[a] == cores[a + 1] && rest[b] == cores[b + 1];
    }
  }

  lemma {:induction false} FilterMergeAbsent(riscs: seq<RiscData>, name: string)
    requires forall j | 0 <= j < |riscs| :: riscs[j].risc != name
    ensures Filter(FromTag(RiscTag(name)), MergeRiscs(riscs)) == []
  {
    if riscs != [] {
      FilterConcat(FromTag(RiscTag(name)), TagAll(riscs[0].series, RiscTag(riscs[0].risc)), MergeRiscs(riscs[1..]));
      FilterTagAll(riscs[0].series, RiscTag(riscs[0].risc), RiscTag(name));
      FilterMergeAbsent(riscs[1..], name);
    }
  }

  /**
   * The TENSIX series is sorted, holds every event of every risc, and
   * filtering it on one risc's tag gives back that risc's (sorted) series,
   * tagged: the merge loses and reorders nothing.
   */
  lemma TensixRoundTrip(core: CoreData, i: nat)
    requires DistinctRiscs(core.riscs) && i < |core.riscs|
    requires Sorted(core.riscs[i].series)
    ensures var t := RiscSeries(CoreView(core).riscs, TENSIX);
            && Sorted(t)
            && |t| == TotalLength(core.riscs)
            && Filter(FromTag(RiscTag(core.riscs[i].risc)), t)
               == TagAll(core.riscs[i].series, RiscTag(core.riscs[i].risc))
  {
    var rd := core.riscs[i];
    var m := MergeRiscs(core.riscs);
    SortByTsSorted(m);
    MergeLength(core.riscs);
    FilterSort(FromTag(RiscTag(rd.risc)), m);
    FilterMerge(core.riscs, i);
    TagAllSorted(rd.series, RiscTag(rd.risc));
    SortSorted(TagAll(rd.series, RiscTag(rd.risc)));
  }

  /** Building the TENSIX view changes no other risc's series. */
  lemma CoreViewKeepsRiscs(core: CoreData, name: string)
    requires name != TENSIX
    ensures RiscSeries(CoreView(core).riscs, name) == RiscSeries(core.riscs, name)
    ensures CoreView(core).key == core.key
  {
  }

  // ---------------------------------------------------------------------
  // DEVICE: one merged series per risc name, across the device's cores

  /** The core an event is attributed to in the DEVICE view. */
  function CoreTagFor(e: Event, key: CoreKey, gcore: CoreKey): CoreKey {
    if e.timerID == 0 then gcore else key
  }

  function TagCore(s: seq<Event>, key: CoreKey, gcore: CoreKey): (r: seq<Event>)
    ensures |r| == |s|
    ensures forall i | 0 <= i < |s| :: r[i] == s[i].(tags := s[i].tags + [CoreTag(CoreTagFor(s[i], key, gcore))])
  {
    if s == [] then []
    else [s[0].(tags := s[0].tags + [CoreTag(CoreTagFor(s[0], key, gcore))])] + TagCore(s[1..], key, gcore)
  }

  /** The events of risc `name` of every core, in core order, tagged. */
  function Collect(cores: seq<CoreData>, name: string, gcore: CoreKey): seq<Event> {
    if cores == [] then []
    else TagCore(RiscSeries(cores[0].riscs, name), cores[0].key, gcore) + Collect(cores[1..], name, gcore)
  }

  function AddNames(acc: seq<string>, riscs: seq<RiscData>): seq<string>
    decreases |riscs|
  {
    if riscs == [] then acc
    else AddNames(if riscs[0].risc in acc then acc else acc + [riscs[0].risc], riscs[1..])
  }

  function NamesFrom(acc: seq<string>, cores: seq<CoreData>): seq<string>
    decreases |cores|
  {
    if cores == [] then acc else NamesFrom(AddNames(acc, cores[0].riscs), cores[1..])
  }

  /** The risc names of all cores, in order of first appearance. */
  function RiscNames(cores: seq<CoreData>): seq<string> {
    NamesFrom([], cores)
  }

  function DeviceRiscs(cores: seq<CoreData>, gcore: CoreKey, names: seq<string>): (r: seq<RiscData>)
    ensures |r| == |names|
    ensures forall i | 0 <= i < |names| ::
              r[i] == RiscData(names[i], SortByTs(Collect(cores, names[i], gcore)), map[])
  {
    if names == [] then []
    else [RiscData(names[0], SortByTs(Collect(cores, names[0], gcore)), map[])]
         + DeviceRiscs(cores, gcore, names[1..])
  }

  function DeviceData(dev: Device): CoreData {
    CoreData(DeviceCore, DeviceRiscs(dev.cores, dev.globalMin.core, RiscNames(dev.cores)), map[])
  }

  /** `cores[cd.key] = cd`: replaces the entry in place, or appends it. */
  function PutCore(cores: seq<CoreData>, cd: CoreData): seq<CoreData> {
    if cores == [] then [cd]
    else if cores[0].key == cd.key then [cd] + cores[1..]
    else [cores[0]] + PutCore(cores[1..], cd)
  }

  /** Every core after `PutCore` is the stored core or one that was there before. */
  lemma {:induction false} PutCoreFrom(cores: seq<CoreData>, cd: CoreData)
    ensures forall i | 0 <= i < |PutCore(cores, cd)| :: PutCore(cores, cd)[i] == cd || PutCore(cores, cd)[i] in cores
  {
    if cores != [] && cores[0].key != cd.key {
      var rest := PutCore(cores[1..], cd);
      PutCoreFrom(cores[1..], cd);
      assert PutCore(cores, cd) == [cores[0]] + rest;
      forall i | 1 <= i < |PutCore(cores, cd)| ensures PutCore(cores, cd)[i] == cd || PutCore(cores, cd)[i] in cores {
        assert PutCore(cores, cd)[i] == rest[i - 1];
        assert rest[i - 1] in cores[1..] ==> rest[i - 1] in cores;
      }
    }
  }

  function DeviceView(dev: Device): Device {
    dev.(cores := PutCore(dev.cores, DeviceData(dev)))
  }

  /** `core_to_device_timeseries` over every device. */
  function CoreToDevice(devs: seq<Device>): (r: seq<Device>)
    ensures |r| == |devs|
    ensures forall k | 0 <= k < |devs| :: r[k] == DeviceView(devs[k])
  {
    if devs == [] then [] else [DeviceView(devs[0])] + CoreToDevice(devs[1..])
  }

  predicate NoDuplicates(names: seq<string>) {
    forall i, j | 0 <= i < j < |names| :: names[i] != names[j]
  }

  lemma {:induction false} AddNamesProps(acc: seq<string>, riscs: seq<RiscData>)
    requires NoDuplicates(acc)
    ensures NoDuplicates(AddNames(acc, riscs))
    ensures forall n :: n in AddNames(acc, riscs) <==> n in acc || HasRisc(riscs, n)
    decreases |riscs|
  {
    if riscs != [] {
      var acc' := if riscs[0].risc in acc then acc else acc + [riscs[0].risc];
      AddNamesProps(acc', riscs[1..]);
      forall n ensures HasRisc(riscs, n) <==> n == riscs[0].risc || HasRisc(riscs[1..], n) {
        if HasRisc(riscs, n) && n != riscs[0].risc {
          var i :| 0 <= i < |riscs| && riscs[i].risc == n;
          assert riscs[1..][i - 1].risc == n;
        }
        if HasRisc(riscs[1..], n) {
          var i :| 0 <= i < |riscs[1..]| && riscs[1..][i].risc == n;
          assert riscs[i + 1].risc == n;
        }
      }
    }
  }

  lemma {:induction false} NamesFromProps(acc: seq<string>, cores: seq<CoreData>)
    requires NoDuplicates(acc)
    ensures NoDuplicates(NamesFrom(acc, cores))
    ensures forall n :: n in NamesFrom(acc, cores) <==>
              n in acc || exists i | 0 <= i < |cores| :: HasRisc(cores[i].riscs, n)
    decreases |cores|
  {
    if cores != [] {
      AddNamesProps(acc, cores[0].riscs);
      NamesFromProps(AddNames(acc, cores[0].riscs), cores[1..]);
      forall n ensures (exists i | 0 <= i < |cores| :: HasRisc(cores[i].riscs, n))
                   <==> HasRisc(cores[0].riscs, n) || exists i | 0 <= i < |cores[1..]| :: HasRisc(cores[1..][i].riscs, n) {
        if exists i | 0 <= i < |cores| :: HasRisc(cores[i].riscs, n) {
          var i :| 0 <= i < |cores| && HasRisc(cores[i].riscs, n);
          if i > 0 { assert cores[1..][i - 1] == cores[i]; }
        }
        if exists i | 0 <= i < |cores[1..]| :: HasRisc(cores[1..][i].riscs, n) {
          var i :| 0 <= i < |cores[1..]| && HasRisc(cores[1..][i].riscs, n);
          assert cores[i + 1] == cores[1..][i];
        }
      }
    }
  }

  /** The DEVICE view has one risc per distinct risc name found on any core. */
  lemma DeviceRiscNames(cores: seq<CoreData>)
    ensures NoDuplicates(RiscNames(cores))
    ensures forall n :: n in RiscNames(cores) <==> exists i | 0 <= i < |cores| :: HasRisc(cores[i].riscs, n)
  {
    NamesFromProps([], cores);
  }

  function SumLengths(cores: seq<CoreData>, name: string): nat {
    if cores == [] then 0 else |RiscSeries(cores[0].riscs, name)| + SumLengths(cores[1..], name)
  }

  lemma CollectLength(cores: seq<CoreData>, name: string, gcore: CoreKey)
    ensures |Collect(cores, name, gcore)| == SumLengths(cores, name)
  {
  }

  lemma CollectMarkerZero(cores: seq<CoreData>, name: string, gcore: CoreKey)
    ensures forall e | e in Collect(cores, name, gcore) && e.timerID == 0 :: LastTagIs(e, CoreTag(gcore))
  {
    if cores != [] {
      CollectMarkerZero(cores[1..], name, gcore);
    }
  }

  function NonZeroFrom(key: CoreKey): Event -> bool {
    (e: Event) => e.timerID != 0 && LastTagIs(e, CoreTag(key))
  }

  function NonZero(): Event -> bool {
    (e: Event) => e.timerID != 0
  }

  lemma {:induction false} FilterTagCore(s: seq<Event>, key: CoreKey, gcore: CoreKey, k: CoreKey)
    ensures Filter(NonZeroFrom(k), TagCore(s, key, gcore))
         == if key == k then TagAll(Filter(NonZero(), s), CoreTag(k)) else []
  {
    if s != [] {
      var rest := s[1..];
      FilterTagCore(rest, key, gcore, k);
      var e := s[0].(tags := s[0].tags + [CoreTag(CoreTagFor(s[0], key, gcore))]);
      assert TagCore(s, key, gcore) == [e] + TagCore(rest, key, gcore);
      FilterCons(NonZeroFrom(k), e, TagCore(rest, key, gcore));
      assert s == [s[0]] + rest;
      FilterCons(NonZero(), s[0], rest);
      assert NonZeroFrom(k)(e) <==> s[0].timerID != 0 && key == k;
      if key == k && s[0].timerID != 0 {
        TagAllConcat([s[0]], Filter(NonZero(), rest), CoreTag(k));
        assert TagAll([s[0]], CoreTag(k)) == [e];
      }
    }
  }

  lemma {:induction false} FilterCollectAbsent(cores: seq<CoreData>, name: string, gcore: CoreKey, k: CoreKey)
    requires forall j | 0 <= j < |cores| :: cores[j].key != k
    ensures Filter(NonZeroFrom(k), Collect(cores, name, gcore)) == []
  {
    if cores != [] {
      var block := TagCore(RiscSeries(cores[0].riscs, name), cores[0].key, gcore);
      FilterConcat(NonZeroFrom(k), block, Collect(cores[1..], name, gcore));
      FilterTagCore(RiscSeries(cores[0].riscs, name), cores[0].key, gcore, k);
      FilterCollectAbsent(cores[1..], name, gcore, k);
    }
  }

  lemma {:induction false} FilterCollect(cores: seq<CoreData>, name: string, gcore: CoreKey, i: nat)
    requires DistinctCores(cores) && i < |cores|
    ensures Filter(NonZeroFrom(cores[i].key), Collect(cores, name, gcore))
         == TagAll(Filter(NonZero(), RiscSeries(cores[i].riscs, name)), CoreTag(cores[i].key))
  {
    var k := cores[i].key;
    var p := NonZeroFrom(k);
    var block := TagCore(RiscSeries(cores[0].riscs, name), cores[0].key, gcore);
    var rest := cores[1..];
    var want := TagAll(Filter(NonZero(), RiscSeries(cores[i].riscs, name)), CoreTag(k));
    assert Filter(p, Collect(cores, name, gcore)) == Filter(p, block) + Filter(p, Collect(rest, name, gcore)) by {
      assert Collect(cores, name, gcore) == block + Collect(rest, name, gcore);
      FilterConcat(p, block, Collect(rest, name, gcore));
    }
    if i == 0 {
      assert Filter(p, block) == want by {
        FilterTagCore(RiscSeries(cores[0].riscs, name), cores[0].key, gcore, k);
      }
      assert Filter(p, Collect(rest, name, gcore)) == [] by {
        DistinctCoresTail(cores);
        FilterCollectAbsent(rest, name, gcore, k);
      }
      assert want + [] == want;
    } else {
      assert Filter(p, block) == [] by {
        assert cores[0].key != k;
        FilterTagCore(RiscSeries(cores[0].riscs, name), cores[0].key, gcore, k);
      }
      assert Filter(p, Collect(rest, name, gcore)) == want by {
        DistinctCoresTail(cores);
        assert rest[i - 1] == cores[i];
        FilterCollect(rest, name, gcore, i - 1);
      }
      assert [] + want == want;
    }
  }

  /**
   * The DEVICE series of risc `name` is sorted, as long as all the cores'
   * series together, tags every marker-0 event with `global_min.core`, and
   * filtering it on one core's tag (marker 0 aside) gives back that core's
   * series of the same risc, tagged.
   */
  lemma DeviceRoundTrip(dev: Device, name: string, i: nat)
    requires DistinctCores(dev.cores) && i < |dev.cores|
    requires Sorted(RiscSeries(dev.cores[i].riscs, name))
    ensures var t := SortByTs(Collect(dev.cores, name, dev.globalMin.core));
            && Sorted(t)
            && |t| == SumLengths(dev.cores, name)
            && (forall e | e in t && e.timerID == 0 :: LastTagIs(e, CoreTag(dev.globalMin.core)))
            && Filter(NonZeroFrom(dev.cores[i].key), t)
               == TagAll(Filter(NonZero(), RiscSeries(dev.cores[i].riscs, name)), CoreTag(dev.cores[i].key))
  {
    var c := Collect(dev.cores, name, dev.globalMin.core);
    var t := SortByTs(c);
    SortByTsSorted(c);
    CollectLength(dev.cores, name, dev.globalMin.core);
    CollectMarkerZero(dev.cores, name, dev.globalMin.core);
    forall e | e in t && e.timerID == 0 ensures LastTagIs(e, CoreTag(dev.globalMin.core)) {
      InSeqInMultiset(e, t, c);
    }
    FilterSort(NonZeroFrom(dev.cores[i].key), c);
    FilterCollect(dev.cores, name, dev.globalMin.core, i);
    var s := RiscSeries(dev.cores[i].riscs, name);
    FilterOfSorted(NonZero(), s);
    TagAllSorted(Filter(NonZero(), s), CoreTag(dev.cores[i].key));
    SortSorted(TagAll(Filter(NonZero(), s), CoreTag(dev.cores[i].key)));
  }

  /** The DEVICE entry's series for a risc name is the sorted collection above. */
  lemma DeviceSeriesIs(dev: Device, name: string)
    requires exists i | 0 <= i < |dev.cores| :: HasRisc(dev.cores[i].riscs, name)
    ensures var names := RiscNames(dev.cores);
            RiscSeries(DeviceData(dev).riscs, name) == SortByTs(Collect(dev.cores, name, dev.globalMin.core))
  {
    var names := RiscNames(dev.cores);
    DeviceRiscNames(dev.cores);
    assert name in names;
    var j :| 0 <= j < |names| && names[j] == name;
    var rs := DeviceRiscs(dev.cores, dev.globalMin.core, names);
    assert DistinctRiscs(rs);
    RiscSeriesAt(rs, j);
  }
}
