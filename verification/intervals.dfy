/**
 * The scan of `timeseries_analysis`: which start/end event pairs of one
 * series become records, in "paired" and in "first_last" mode.
 */
module Intervals {
  import opened Wrappers
  import opened Profile
  import opened Matching
  import opened StableSort

  /** A record as a pair of indices into the scanned series. */
  datatype Pair = Pair(start: nat, end: nat)

  /** The dict appended to `tmpList`: start, end, `durationType` and diff. */
  datatype Rec = Rec(start: int, end: int, startID: int, endID: int, diff: int)

  predicate StartAt(s: seq<Event>, spec: Spec, i: int) {
    0 <= i < |s| && IsStart(s[i], spec)
  }

  predicate EndAt(s: seq<Event>, spec: Spec, i: int) {
    0 <= i < |s| && IsEnd(s[i], spec)
  }

  /** Neither a start nor an end matches strictly between `i` and `j`. */
  predicate Quiet(s: seq<Event>, spec: Spec, i: int, j: int) {
    forall m | i < m < j :: !StartAt(s, spec, m) && !EndAt(s, spec, m)
  }

  /** A closed interval: the start opens, the end closes, nothing in between. */
  predicate Closes(s: seq<Event>, spec: Spec, p: Pair) {
    && p.start < p.end < |s|
    && StartAt(s, spec, p.start)
    && EndAt(s, spec, p.end)
    && Quiet(s, spec, p.start, p.end)
  }

  /** Records come out in scan order and never overlap. */
  predicate InScanOrder(ps: seq<Pair>) {
    forall n | 0 <= n < |ps| - 1 :: ps[n].end < ps[n + 1].start
  }

  lemma QuietExtend(s: seq<Event>, spec: Spec, i: int, k: int)
    requires Quiet(s, spec, i, k) && !StartAt(s, spec, k) && !EndAt(s, spec, k)
    ensures Quiet(s, spec, i, k + 1)
  {
  }

  /** What the scan knows about its pending start when it reaches index `k`. */
  predicate Pending(s: seq<Event>, spec: Spec, k: nat, open: Option<nat>) {
    open.Some? ==> open.value < k && StartAt(s, spec, open.value) && Quiet(s, spec, open.value, k)
  }

  /**
   * Paired mode from index `k` on, `open` being the pending start. The end
   * test comes first, so an event matching both closes the open start; a
   * start seen while one is open replaces it.
   */
  function PairedFrom(s: seq<Event>, spec: Spec, k: nat, open: Option<nat>): (r: seq<Pair>)
    requires k <= |s|
    ensures forall n | 0 <= n < |r| :: k <= r[n].end < |s|
    decreases |s| - k
  {
    if k == |s| then []
    else if open.None? then
      PairedFrom(s, spec, k + 1, if IsStart(s[k], spec) then Some(k) else None)
    else if IsEnd(s[k], spec) then
      [Pair(open.value, k)] + PairedFrom(s, spec, k + 1, None)
    else if IsStart(s[k], spec) then
      PairedFrom(s, spec, k + 1, Some(k))
    else
      PairedFrom(s, spec, k + 1, open)
  }

  /**
   * Soundness of paired mode: every record closes an interval, and a
   * record starting before `k` starts at the pending start.
   */
  lemma {:induction false} PairedFromCloses(s: seq<Event>, spec: Spec, k: nat, open: Option<nat>)
    requires k <= |s| && Pending(s, spec, k, open)
    ensures forall n | 0 <= n < |PairedFrom(s, spec, k, open)| ::
              && Closes(s, spec, PairedFrom(s, spec, k, open)[n])
              && (PairedFrom(s, spec, k, open)[n].start >= k || Some(PairedFrom(s, spec, k, open)[n].start) == open)
    decreases |s| - k
  {
    if k < |s| {
      if open.None? {
        PairedFromCloses(s, spec, k + 1, if IsStart(s[k], spec) then Some(k) else None);
      } else if IsEnd(s[k], spec) {
        var rest := PairedFrom(s, spec, k + 1, None);
        var p := Pair(open.value, k);
        assert PairedFrom(s, spec, k, open) == [p] + rest;
        assert Closes(s, spec, p);
        PairedFromCloses(s, spec, k + 1, None);
      } else if IsStart(s[k], spec) {
        PairedFromCloses(s, spec, k + 1, Some(k));
      } else {
        QuietExtend(s, spec, open.value, k);
        PairedFromCloses(s, spec, k + 1, open);
      }
    }
  }

  /** Records come out in scan order: each ends before the next starts. */
  lemma {:induction false} PairedFromOrdered(s: seq<Event>, spec: Spec, k: nat, open: Option<nat>)
    requires k <= |s|
    ensures InScanOrder(PairedFrom(s, spec, k, open))
    decreases |s| - k
  {
    if k < |s| {
      if open.None? {
        PairedFromOrdered(s, spec, k + 1, if IsStart(s[k], spec) then Some(k) else None);
      } else if IsEnd(s[k], spec) {
        var rest := PairedFrom(s, spec, k + 1, None);
        var p := Pair(open.value, k);
        assert PairedFrom(s, spec, k, open) == [p] + rest;
        assert rest != [] ==> rest[0].start >= k + 1 by {
          PairedFromCloses(s, spec, k + 1, None);
        }
        PairedFromOrdered(s, spec, k + 1, None);
        ConsInScanOrder(p, rest);
      } else if IsStart(s[k], spec) {
        PairedFromOrdered(s, spec, k + 1, Some(k));
      } else {
        PairedFromOrdered(s, spec, k + 1, open);
      }
    }
  }

  lemma ConsInScanOrder(p: Pair, rest: seq<Pair>)
    requires InScanOrder(rest) && (rest != [] ==> p.end < rest[0].start)
    ensures InScanOrder([p] + rest)
  {
    var r := [p] + rest;
    forall n | 0 <= n < |r| - 1 ensures r[n].end < r[n + 1].start {
      if n > 0 {
        assert r[n] == rest[n - 1] && r[n + 1] == rest[n];
      }
    }
  }

  function PairedScan(s: seq<Event>, spec: Spec): seq<Pair> {
    PairedFrom(s, spec, 0, None)
  }

  /**
   * Completeness of paired mode: an end is recorded whenever some start
   * before it is followed by no end up to it.
   */
  lemma {:induction false} PairedFromComplete(s: seq<Event>, spec: Spec, k: nat, open: Option<nat>, i: int, j: nat)
    requires k <= j < |s| && EndAt(s, spec, j)
    requires forall m | i <= m < j && k <= m :: !EndAt(s, spec, m)
    requires (i < k && open.Some?) || (k <= i < j && StartAt(s, spec, i))
    ensures exists n :: 0 <= n < |PairedFrom(s, spec, k, open)| && PairedFrom(s, spec, k, open)[n].end == j
    decreases j - k
  {
    var r := PairedFrom(s, spec, k, open);
    if open.Some? && IsEnd(s[k], spec) {
      var rest := PairedFrom(s, spec, k + 1, None);
      assert r == [Pair(open.value, k)] + rest;
      if k == j {
        assert r[0].end == j;
      } else {
        assert EndAt(s, spec, k);
        PairedFromComplete(s, spec, k + 1, None, i, j);
        var n :| 0 <= n < |rest| && rest[n].end == j;
        assert r[n + 1].end == j;
      }
    } else {
      assert k < j;
      var next: Option<nat> :=
        if open.None? then (if IsStart(s[k], spec) then Some(k) else None)
        else if IsStart(s[k], spec) then Some(k) else open;
      assert r == PairedFrom(s, spec, k + 1, next);
      PairedFromComplete(s, spec, k + 1, next, i, j);
    }
  }

  /** Every record's end matches the end, after a start with no end strictly between. */
  lemma PairedEndsSound(s: seq<Event>, spec: Spec, n: nat)
    requires n < |PairedScan(s, spec)|
    ensures var j := PairedScan(s, spec)[n].end;
            EndAt(s, spec, j) && exists i :: 0 <= i < j && StartAt(s, spec, i) && forall m | i < m < j :: !EndAt(s, spec, m)
  {
    PairedFromCloses(s, spec, 0, None);
    var p := PairedScan(s, spec)[n];
    assert Closes(s, spec, p);
    var i := p.start;
    var j := p.end;
    assert Quiet(s, spec, i, j);
    assert forall m | i < m < j :: !EndAt(s, spec, m);
    assert 0 <= i < j && StartAt(s, spec, i);
    assert EndAt(s, spec, j);
    assert exists i' :: 0 <= i' < j && StartAt(s, spec, i') && forall m | i' < m < j :: !EndAt(s, spec, m);
  }

  /** Every end preceded by a start, with no end from that start on, closes a record. */
  lemma PairedEndsComplete(s: seq<Event>, spec: Spec, i: nat, j: nat)
    requires i < j < |s| && StartAt(s, spec, i) && EndAt(s, spec, j)
    requires forall m | i <= m < j :: !EndAt(s, spec, m)
    ensures exists n :: 0 <= n < |PairedScan(s, spec)| && PairedScan(s, spec)[n].end == j
  {
    PairedFromComplete(s, spec, 0, None, i, j);
    var n :| 0 <= n < |PairedFrom(s, spec, 0, None)| && PairedFrom(s, spec, 0, None)[n].end == j;
    assert PairedScan(s, spec)[n].end == j;
  }

  /**
   * When no event matches both the start and the end, a record ends at `j`
   * exactly when `j` matches the end and some start before it is followed
   * by no end up to `j`.
   */
  lemma PairedEndsIff(s: seq<Event>, spec: Spec, j: nat)
    requires j < |s|
    requires forall m | 0 <= m < |s| :: !(StartAt(s, spec, m) && EndAt(s, spec, m))
    ensures (exists n :: 0 <= n < |PairedScan(s, spec)| && PairedScan(s, spec)[n].end == j)
        <==> (EndAt(s, spec, j) && exists i :: 0 <= i < j && StartAt(s, spec, i)
                                        && forall m | i <= m < j :: !EndAt(s, spec, m))
  {
    var r := PairedScan(s, spec);
    if exists n :: 0 <= n < |r| && r[n].end == j {
      var n :| 0 <= n < |r| && r[n].end == j;
      var p := r[n];
      assert Closes(s, spec, p) by {
        PairedFromCloses(s, spec, 0, None);
      }
      assert !EndAt(s, spec, p.start);
      assert forall m | p.start <= m < j :: !EndAt(s, spec, m);
      assert EndAt(s, spec, j) && 0 <= p.start < j && StartAt(s, spec, p.start);
    }
    if EndAt(s, spec, j) && exists i :: 0 <= i < j && StartAt(s, spec, i) && forall m | i <= m < j :: !EndAt(s, spec, m) {
      var i :| 0 <= i < j && StartAt(s, spec, i) && forall m | i <= m < j :: !EndAt(s, spec, m);
      PairedEndsComplete(s, spec, i, j);
    }
  }

  // ---------------------------------------------------------------------
  // first_last mode

  /** The forward scan: the first index from `k` on whose event matches the start. */
  function FirstStart(s: seq<Event>, spec: Spec, k: nat): (r: Option<nat>)
    requires k <= |s|
    ensures r.Some? ==> k <= r.value < |s| && StartAt(s, spec, r.value)
                        && forall m | k <= m < r.value :: !StartAt(s, spec, m)
    ensures r.None? ==> forall m | k <= m < |s| :: !StartAt(s, spec, m)
    decreases |s| - k
  {
    if k == |s| then None
    else if IsStart(s[k], spec) then Some(k)
    else FirstStart(s, spec, k + 1)
  }

  /** The backward scan over indices `j - 1` down to 1 (never index 0). */
  function LastEnd(s: seq<Event>, spec: Spec, j: nat): (r: Option<nat>)
    requires j <= |s|
    ensures r.Some? ==> 1 <= r.value < j && EndAt(s, spec, r.value)
                        && forall m | r.value < m < j :: !EndAt(s, spec, m)
    ensures r.None? ==> forall m | 1 <= m < j :: !EndAt(s, spec, m)
  {
    if j <= 1 then None
    else if IsEnd(s[j - 1], spec) then Some(j - 1)
    else LastEnd(s, spec, j - 1)
  }

  /**
   * At most one record: the first start and the last end at index 1 or
   * later. Nothing requires the end to come after the start.
   */
  function FirstLastScan(s: seq<Event>, spec: Spec): (r: seq<Pair>)
    ensures |r| <= 1
    ensures |r| == 1 <==> (exists i :: StartAt(s, spec, i)) && (exists j :: 1 <= j && EndAt(s, spec, j))
    ensures |r| == 1 ==>
              && StartAt(s, spec, r[0].start) && (forall m | 0 <= m < r[0].start :: !StartAt(s, spec, m))
              && 1 <= r[0].end && EndAt(s, spec, r[0].end) && (forall m | r[0].end < m < |s| :: !EndAt(s, spec, m))
  {
    match FirstStart(s, spec, 0)
    case None => []
    case Some(i) =>
      match LastEnd(s, spec, |s|)
      case None => []
      case Some(j) => [Pair(i, j)]
  }

  // ---------------------------------------------------------------------
  // Records

  function Pairs(s: seq<Event>, spec: Spec): seq<Pair> {
    if spec.mode == FirstLast then FirstLastScan(s, spec) else PairedScan(s, spec)
  }

  predicate InRange(s: seq<Event>, ps: seq<Pair>) {
    forall n | 0 <= n < |ps| :: ps[n].start < |s| && ps[n].end < |s|
  }

  lemma PairsInRange(s: seq<Event>, spec: Spec)
    ensures InRange(s, Pairs(s, spec))
  {
    if spec.mode != FirstLast {
      var ps := PairedScan(s, spec);
      PairedFromCloses(s, spec, 0, None);
      assert forall n | 0 <= n < |ps| :: Closes(s, spec, ps[n]);
    }
  }

  function RecordOf(s: seq<Event>, p: Pair): (r: Rec)
    requires p.start < |s| && p.end < |s|
    ensures r.diff == r.end - r.start
    ensures r.start == s[p.start].ts && r.end == s[p.end].ts
    ensures r.startID == s[p.start].timerID && r.endID == s[p.end].timerID
  {
    Rec(s[p.start].ts, s[p.end].ts, s[p.start].timerID, s[p.end].timerID, s[p.end].ts - s[p.start].ts)
  }

  function RecordsOf(s: seq<Event>, ps: seq<Pair>): (r: seq<Rec>)
    requires InRange(s, ps)
    ensures |r| == |ps|
    ensures forall n | 0 <= n < |ps| :: r[n] == RecordOf(s, ps[n])
  {
    if ps == [] then [] else [RecordOf(s, ps[0])] + RecordsOf(s, ps[1..])
  }

  /** `tmpList` of `timeseries_analysis`, in the order the records are appended. */
  function Analyze(s: seq<Event>, spec: Spec): (r: seq<Rec>)
    ensures spec.mode == FirstLast ==> |r| <= 1
  {
    PairsInRange(s, spec);
    RecordsOf(s, Pairs(s, spec))
  }

  /** On a sorted series every paired-mode record has a non-negative diff. */
  lemma PairedDiffsNonNegative(s: seq<Event>, spec: Spec)
    requires Sorted(s) && spec.mode == Paired
    ensures forall n | 0 <= n < |Analyze(s, spec)| :: Analyze(s, spec)[n].diff >= 0
  {
    var ps := PairedScan(s, spec);
    PairedFromCloses(s, spec, 0, None);
    assert forall n | 0 <= n < |ps| :: Closes(s, spec, ps[n]);
  }

  const NoMeta: seq<Tag> := []

  /** A start / end spec on plain timer ids. */
  function IdSpec(mode: Mode, startID: int, endID: int): Spec {
    Spec(AcrossRisc, mode, MarkerSpec(startID, NoCore, "BRISC"), MarkerSpec(endID, NoCore, "BRISC"))
  }

  /** A second start before any end replaces the first: only the later one is paired. */
  lemma ReopenedStartDropsEarlier()
    ensures var s := [Event(1, 10, NoMeta), Event(1, 20, NoMeta), Event(2, 50, NoMeta)];
            Analyze(s, IdSpec(Paired, 1, 2)) == [Rec(20, 50, 1, 2, 30)]
  {
    var s := [Event(1, 10, NoMeta), Event(1, 20, NoMeta), Event(2, 50, NoMeta)];
    var spec := IdSpec(Paired, 1, 2);
    assert IsStart(s[0], spec) && IsStart(s[1], spec) && !IsEnd(s[0], spec) && !IsEnd(s[1], spec);
    assert IsEnd(s[2], spec);
    assert PairedFrom(s, spec, 3, None) == [];
    assert PairedFrom(s, spec, 2, Some(1)) == [Pair(1, 2)];
    assert PairedFrom(s, spec, 1, Some(0)) == [Pair(1, 2)];
    assert PairedScan(s, spec) == [Pair(1, 2)];
  }

  /** An event matching both markers closes the open start before it can re-open one. */
  lemma EndTestedBeforeReopen()
    ensures var s := [Event(7, 10, NoMeta), Event(7, 15, NoMeta), Event(7, 40, NoMeta)];
            Analyze(s, IdSpec(Paired, 7, 7)) == [Rec(10, 15, 7, 7, 5)]
  {
    var s := [Event(7, 10, NoMeta), Event(7, 15, NoMeta), Event(7, 40, NoMeta)];
    var spec := IdSpec(Paired, 7, 7);
    assert IsStart(s[0], spec) && IsEnd(s[1], spec) && IsStart(s[2], spec);
    assert PairedFrom(s, spec, 3, Some(2)) == [];
    assert PairedFrom(s, spec, 2, None) == [];
    assert PairedFrom(s, spec, 1, Some(0)) == [Pair(0, 1)];
    assert PairedScan(s, spec) == [Pair(0, 1)];
  }

  /** first_last does not check that the end follows the start: the diff can be negative. */
  lemma FirstLastEndBeforeStart()
    ensures var s := [Event(0, 0, NoMeta), Event(5, 10, NoMeta), Event(3, 20, NoMeta)];
            Analyze(s, IdSpec(FirstLast, 3, 5)) == [Rec(20, 10, 3, 5, -10)]
  {
    var s := [Event(0, 0, NoMeta), Event(5, 10, NoMeta), Event(3, 20, NoMeta)];
    var spec := IdSpec(FirstLast, 3, 5);
    assert !IsStart(s[0], spec) && !IsStart(s[1], spec) && IsStart(s[2], spec);
    assert !IsEnd(s[2], spec) && IsEnd(s[1], spec);
    assert FirstStart(s, spec, 2) == Some(2);
    assert FirstStart(s, spec, 0) == Some(2);
    assert LastEnd(s, spec, 2) == Some(1);
    assert LastEnd(s, spec, 3) == Some(1);
    assert FirstLastScan(s, spec) == [Pair(2, 1)];
  }

  /** The backward scan never looks at index 0, even when it matches the end. */
  lemma FirstLastSkipsIndexZero()
    ensures var s := [Event(7, 10, NoMeta), Event(1, 20, NoMeta)];
            Analyze(s, IdSpec(FirstLast, 7, 7)) == []
  {
    var s := [Event(7, 10, NoMeta), Event(1, 20, NoMeta)];
    var spec := IdSpec(FirstLast, 7, 7);
    assert IsStart(s[0], spec) && !IsEnd(s[1], spec);
    assert FirstLastScan(s, spec) == [];
  }
}
