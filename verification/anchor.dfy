/**
 * Sorting and anchoring (`import_device_profile_log`, second half): every
 * series is sorted on its timestamp, a running minimum of the series' first
 * timestamps is kept across ALL chips visited so far (it is initialised
 * once, before the chip loop), each chip records the running minimum
 * reached after its own series as `global_min`, and every series then gets
 * a synthetic marker 0 carrying that timestamp in front.
 */
module Anchor {
  import opened Profile
  import opened StableSort

  /** `(1 << 64) - 1`, the initial global minimum timestamp. */
  const INITIAL_MIN_TS: int := 0x1_0000_0000_0000_0000 - 1
  /** The initial holder: risc "BRISC" at core (0, 0). */
  const INITIAL_MIN: GlobalMin := GlobalMin(INITIAL_MIN_TS, "BRISC", Phys(0, 0))

  /** One comparison of the loop: only a strictly smaller timestamp takes over. */
  function Step(g: GlobalMin, c: GlobalMin): GlobalMin {
    if g.ts > c.ts then c else g
  }

  /** The running minimum over the candidates `cs`, visited in order from `g`. */
  function RunMin(g: GlobalMin, cs: seq<GlobalMin>): (r: GlobalMin)
    ensures r.ts <= g.ts
    decreases |cs|
  {
    if cs == [] then g else RunMin(Step(g, cs[0]), cs[1..])
  }

  /** The running minimum is at or below every candidate. */
  lemma {:induction false} RunMinIsMin(g: GlobalMin, cs: seq<GlobalMin>)
    ensures forall c | c in cs :: RunMin(g, cs).ts <= c.ts
    decreases |cs|
  {
    if cs != [] {
      RunMinIsMin(Step(g, cs[0]), cs[1..]);
      assert forall c | c in cs :: c == cs[0] || c in cs[1..];
    }
  }

  /**
   * Ties keep the earlier holder: the result is `g` itself, or it is
   * strictly below `g` and is the FIRST candidate holding its timestamp.
   */
  lemma {:induction false} RunMinFirstHolder(g: GlobalMin, cs: seq<GlobalMin>)
    ensures var r := RunMin(g, cs);
            r == g || (r.ts < g.ts && exists i | 0 <= i < |cs| :: r == cs[i] && forall j | 0 <= j < i :: cs[j].ts > r.ts)
    decreases |cs|
  {
    if cs != [] {
      var g1 := Step(g, cs[0]);
      var r := RunMin(g1, cs[1..]);
      RunMinFirstHolder(g1, cs[1..]);
      if r == g1 {
        if r != g {
          assert r == cs[0];
        }
      } else {
        var i :| 0 <= i < |cs[1..]| && r == cs[1..][i] && forall j | 0 <= j < i :: cs[1..][j].ts > r.ts;
        assert r == cs[i + 1];
        forall j | 0 <= j < i + 1 ensures cs[j].ts > r.ts {
          if j > 0 { assert cs[j] == cs[1..][j - 1]; }
        }
      }
    }
  }

  lemma {:induction false} RunMinConcat(g: GlobalMin, a: seq<GlobalMin>, b: seq<GlobalMin>)
    ensures RunMin(g, a + b) == RunMin(RunMin(g, a), b)
    decreases |a|
  {
    if a == [] {
      assert a + b == b;
    } else {
      assert (a + b)[0] == a[0];
      assert (a + b)[1..] == a[1..] + b;
      RunMinConcat(Step(g, a[0]), a[1..], b);
    }
  }

  predicate NonEmptyRiscs(riscs: seq<RiscData>) {
    forall j | 0 <= j < |riscs| :: riscs[j].series != []
  }

  predicate NonEmptyCores(cores: seq<CoreData>) {
    forall i | 0 <= i < |cores| :: NonEmptyRiscs(cores[i].riscs)
  }

  predicate NonEmptyChips(chips: seq<Chip>) {
    forall k | 0 <= k < |chips| :: NonEmptyCores(chips[k].cores)
  }

  /** `(first timestamp after sorting, risc, core)` of one series. */
  function Candidate(key: CoreKey, rd: RiscData): GlobalMin
    requires rd.series != []
  {
    GlobalMin(SortByTs(rd.series)[0].ts, rd.risc, key)
  }

  function RiscCandidates(key: CoreKey, riscs: seq<RiscData>): seq<GlobalMin>
    requires NonEmptyRiscs(riscs)
  {
    if riscs == [] then [] else [Candidate(key, riscs[0])] + RiscCandidates(key, riscs[1..])
  }

  function CoreCandidates(cores: seq<CoreData>): seq<GlobalMin>
    requires NonEmptyCores(cores)
  {
    if cores == [] then [] else RiscCandidates(cores[0].key, cores[0].riscs) + CoreCandidates(cores[1..])
  }

  /** Every series of every chip, in visiting order. */
  function AllCandidates(chips: seq<Chip>): seq<GlobalMin>
    requires NonEmptyChips(chips)
  {
    if chips == [] then [] else CoreCandidates(chips[0].cores) + AllCandidates(chips[1..])
  }

  /** `insert(0, (0, global_min.ts))` after the in-place sort. */
  function AnchorSeries(s: seq<Event>, t: int): seq<Event> {
    [Event(0, t, [])] + SortByTs(s)
  }

  function AnchorRiscs(riscs: seq<RiscData>, t: int): (r: seq<RiscData>)
    ensures |r| == |riscs|
    ensures forall j | 0 <= j < |r| :: r[j] == riscs[j].(series := AnchorSeries(riscs[j].series, t))
  {
    if riscs == [] then []
    else [riscs[0].(series := AnchorSeries(riscs[0].series, t))] + AnchorRiscs(riscs[1..], t)
  }

  function AnchorCores(cores: seq<CoreData>, t: int): (r: seq<CoreData>)
    ensures |r| == |cores|
    ensures forall i | 0 <= i < |r| :: r[i] == cores[i].(riscs := AnchorRiscs(cores[i].riscs, t))
  {
    if cores == [] then []
    else [cores[0].(riscs := AnchorRiscs(cores[0].riscs, t))] + AnchorCores(cores[1..], t)
  }

  function AnchorChips(chips: seq<Chip>, g: GlobalMin): (r: seq<Device>)
    requires NonEmptyChips(chips)
    ensures |r| == |chips|
    ensures forall k | 0 <= k < |r| ::
              r[k].id == chips[k].id && r[k].cores == AnchorCores(chips[k].cores, r[k].globalMin.ts)
  {
    if chips == [] then []
    else
      var g' := RunMin(g, CoreCandidates(chips[0].cores));
      [Device(chips[0].id, AnchorCores(chips[0].cores, g'.ts), g')] + AnchorChips(chips[1..], g')
  }

  function SortAndAnchor(chips: seq<Chip>): seq<Device>
    requires NonEmptyChips(chips)
  {
    AnchorChips(chips, INITIAL_MIN)
  }

  // ---------------------------------------------------------------------
  // Properties

  /**
   * The `global_min` of chip k is the running minimum over every series of
   * chips 0..k (not only chip k's own series).
   */
  lemma {:induction false} GlobalMinIsRunning(chips: seq<Chip>, g: GlobalMin, k: nat)
    requires NonEmptyChips(chips) && k < |chips|
    ensures AnchorChips(chips, g)[k].globalMin == RunMin(g, AllCandidates(chips[..k + 1]))
  {
    var first := CoreCandidates(chips[0].cores);
    var g' := RunMin(g, first);
    if k == 0 {
      assert AnchorChips(chips, g)[k].globalMin == g' by {
        AnchorChipsAt(chips, g, 0);
      }
      assert AllCandidates(chips[..k + 1]) == first by {
        CandidatesPrefix(chips, 0);
        assert first + [] == first;
      }
    } else {
      var rest := chips[1..];
      assert NonEmptyChips(rest) && NonEmptyChips(rest[..k]) by {
        CandidatesPrefix(chips, k);
        AnchorChipsAt(chips, g, k);
      }
      var tail := AllCandidates(rest[..k]);
      assert AnchorChips(chips, g)[k].globalMin == AnchorChips(rest, g')[k - 1].globalMin by {
        AnchorChipsAt(chips, g, k);
      }
      assert AllCandidates(chips[..k + 1]) == first + tail by {
        CandidatesPrefix(chips, k);
      }
      assert AnchorChips(rest, g')[k - 1].globalMin == RunMin(g', tail) by {
        GlobalMinIsRunning(rest, g', k - 1);
      }
      RunMinConcat(g, first, tail);
    }
  }

  /** Chip `k` of the anchored chips, one step of the chip loop unfolded. */
  lemma AnchorChipsAt(chips: seq<Chip>, g: GlobalMin, k: nat)
    requires NonEmptyChips(chips) && k < |chips|
    ensures NonEmptyChips(chips[1..])
    ensures AnchorChips(chips, g)[k].globalMin
         == if k == 0 then RunMin(g, CoreCandidates(chips[0].cores))
            else AnchorChips(chips[1..], RunMin(g, CoreCandidates(chips[0].cores)))[k - 1].globalMin
  {
    NonEmptySlice(chips, 1, |chips|);
    assert chips[1..|chips|] == chips[1..];
  }

  /** The candidates of chips `0..k`: chip 0's, then those of chips `1..k`. */
  lemma CandidatesPrefix(chips: seq<Chip>, k: nat)
    requires NonEmptyChips(chips) && k < |chips|
    ensures NonEmptyChips(chips[..k + 1]) && NonEmptyChips(chips[1..][..k])
    ensures AllCandidates(chips[..k + 1])
         == CoreCandidates(chips[0].cores) + (if k == 0 then [] else AllCandidates(chips[1..][..k]))
  {
    var pre := chips[..k + 1];
    NonEmptySlice(chips, 0, k + 1);
    NonEmptySlice(chips, 1, k + 1);
    assert chips[0..k + 1] == pre;
    assert pre[1..] == chips[1..k + 1] == chips[1..][..k];
    assert pre != [] && pre[0] == chips[0];
    if k == 0 {
      assert CoreCandidates(chips[0].cores) + [] == CoreCandidates(chips[0].cores);
    }
  }

  lemma NonEmptySlice(chips: seq<Chip>, lo: nat, hi: nat)
    requires NonEmptyChips(chips) && lo <= hi <= |chips|
    ensures NonEmptyChips(chips[lo..hi])
  {
    forall k | 0 <= k < hi - lo ensures NonEmptyCores(chips[lo..hi][k].cores) {
      assert chips[lo..hi][k] == chips[lo + k];
    }
  }

  lemma RiscCandidateIn(key: CoreKey, riscs: seq<RiscData>, j: nat)
    requires NonEmptyRiscs(riscs) && j < |riscs|
    ensures Candidate(key, riscs[j]) in RiscCandidates(key, riscs)
  {
    if j > 0 {
      RiscCandidateIn(key, riscs[1..], j - 1);
    }
  }

  lemma CoreCandidateIn(cores: seq<CoreData>, i: nat, j: nat)
    requires NonEmptyCores(cores) && i < |cores| && j < |cores[i].riscs|
    ensures Candidate(cores[i].key, cores[i].riscs[j]) in CoreCandidates(cores)
  {
    if i == 0 {
      RiscCandidateIn(cores[0].key, cores[0].riscs, j);
    } else {
      CoreCandidateIn(cores[1..], i - 1, j);
    }
  }

  lemma {:induction false} AllCandidateIn(chips: seq<Chip>, k: nat, c: GlobalMin)
    requires NonEmptyChips(chips) && k < |chips|
    requires c in CoreCandidates(chips[k].cores)
    ensures c in AllCandidates(chips)
  {
    if k > 0 {
      AllCandidateIn(chips[1..], k - 1, c);
    }
  }

  /**
   * After anchoring, every series of every chip is non-decreasing in
   * timestamp and starts with marker 0 at the chip's global minimum.
   */
  lemma AnchoredSeries(chips: seq<Chip>, k: nat, i: nat, j: nat)
    requires NonEmptyChips(chips)
    requires k < |chips| && i < |chips[k].cores| && j < |chips[k].cores[i].riscs|
    ensures var d := SortAndAnchor(chips)[k];
            var s := d.cores[i].riscs[j].series;
            && s == AnchorSeries(chips[k].cores[i].riscs[j].series, d.globalMin.ts)
            && s[0] == Event(0, d.globalMin.ts, [])
            && Sorted(s)
  {
    var d := SortAndAnchor(chips)[k];
    var rd := chips[k].cores[i].riscs[j];
    GlobalMinIsRunning(chips, INITIAL_MIN, k);
    CoreCandidateIn(chips[k].cores, i, j);
    var pre := chips[..k + 1];
    assert pre[k] == chips[k];
    AllCandidateIn(pre, k, Candidate(chips[k].cores[i].key, rd));
    var sorted := SortByTs(rd.series);
    RunMinIsMin(INITIAL_MIN, AllCandidates(pre));
    SortByTsSorted(rd.series);
    SortedHeadIsMin(rd.series);
    assert forall e | e in sorted :: sorted[0].ts <= e.ts by {
      SortedTail(sorted);
    }
    SortedCons(Event(0, d.globalMin.ts, []), sorted);
  }
}
