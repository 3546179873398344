/**
 * `timeseries_to_durations`: every pair of consecutive events of a series
 * becomes a duration of type `(start marker, end marker)`; `data` groups
 * the durations by type and `order` lists, per pair, its type and its
 * 0-based occurrence among durations of that type.
 */
module Durations {
  import opened Profile

  /** A timer id alone, or `(timerID, *metadata)` when the event has metadata. */
  datatype Marker = Marker(timerID: int, tags: seq<Tag>)

  datatype DurType = DurType(start: Marker, end: Marker)

  /** `(startTime, endTime, endTime - startTime)`. */
  datatype Dur = Dur(start: int, end: int, diff: int)

  /** An entry of `order`: the duration type and its occurrence index. */
  datatype Label = Label(dtype: DurType, k: nat)

  datatype DurTable = DurTable(data: map<DurType, seq<Dur>>, order: seq<Label>)

  function MarkerOf(e: Event): Marker {
    Marker(e.timerID, e.tags)
  }

  /** The type of the pair starting at index `i`. */
  function TypeAt(s: seq<Event>, i: nat): DurType
    requires i + 1 < |s|
  {
    DurType(MarkerOf(s[i]), MarkerOf(s[i + 1]))
  }

  /** The duration of the pair starting at index `i`. */
  function DurAt(s: seq<Event>, i: nat): (r: Dur)
    requires i + 1 < |s|
    ensures r.diff == r.end - r.start && r.start == s[i].ts && r.end == s[i + 1].ts
  {
    Dur(s[i].ts, s[i + 1].ts, s[i + 1].ts - s[i].ts)
  }

  /** Reference: the durations of type `t` among the first `n` pairs, in order. */
  function DursOf(s: seq<Event>, t: DurType, n: nat): seq<Dur>
    requires n < |s| || n == 0
  {
    if n == 0 then []
    else DursOf(s, t, n - 1) + (if TypeAt(s, n - 1) == t then [DurAt(s, n - 1)] else [])
  }

  /** Reference: the occurrence index of pair `i` among pairs of its type. */
  function Occurrence(s: seq<Event>, i: nat): nat
    requires i + 1 < |s|
  {
    |DursOf(s, TypeAt(s, i), i)|
  }

  /** The table after the first `n` pairs. */
  function DurationsUpTo(s: seq<Event>, n: nat): (r: DurTable)
    requires n < |s| || n == 0
    ensures |r.order| == n
  {
    if n == 0 then DurTable(map[], [])
    else
      var prev := DurationsUpTo(s, n - 1);
      var t := TypeAt(s, n - 1);
      var list := if t in prev.data then prev.data[t] + [DurAt(s, n - 1)] else [DurAt(s, n - 1)];
      DurTable(prev.data[t := list], prev.order + [Label(t, |list| - 1)])
  }

  lemma DursOfStep(s: seq<Event>, t: DurType, n: nat)
    requires 0 < n < |s|
    ensures DursOf(s, t, n) == DursOf(s, t, n - 1) + (if TypeAt(s, n - 1) == t then [DurAt(s, n - 1)] else [])
  {
  }

  /** `data[t]` holds exactly the durations of type `t`, in pair order. */
  lemma {:induction false} DurationsUpToData(s: seq<Event>, n: nat, t: DurType)
    requires n < |s| || n == 0
    ensures t in DurationsUpTo(s, n).data <==> DursOf(s, t, n) != []
    ensures t in DurationsUpTo(s, n).data ==> DurationsUpTo(s, n).data[t] == DursOf(s, t, n)
  {
    if n > 0 {
      var prev := DurationsUpTo(s, n - 1);
      var t0 := TypeAt(s, n - 1);
      var d := DurAt(s, n - 1);
      DurationsUpToData(s, n - 1, t0);
      DurationsUpToData(s, n - 1, t);
      var list := if t0 in prev.data then prev.data[t0] + [d] else [d];
      var data := prev.data[t0 := list];
      assert DurationsUpTo(s, n).data == data;
      DursOfStep(s, t, n);
      DursOfStep(s, t0, n);
    }
  }

  /** `order[i]` is pair `i`'s type with its occurrence index. */
  lemma {:induction false} DurationsUpToOrder(s: seq<Event>, n: nat, i: nat)
    requires n < |s| || n == 0
    requires i < n
    ensures DurationsUpTo(s, n).order[i] == Label(TypeAt(s, i), Occurrence(s, i))
  {
    var prev := DurationsUpTo(s, n - 1);
    var t := TypeAt(s, n - 1);
    var d := DurAt(s, n - 1);
    var list := if t in prev.data then prev.data[t] + [d] else [d];
    var order := DurationsUpTo(s, n).order;
    assert order == prev.order + [Label(t, |list| - 1)];
    if i < n - 1 {
      DurationsUpToOrder(s, n - 1, i);
      assert order[i] == prev.order[i];
    } else {
      DurationsUpToData(s, n - 1, t);
      var before := DursOf(s, t, n - 1);
      if t in prev.data {
        assert prev.data[t] == before;
      } else {
        assert before == [];
      }
      assert |list| - 1 == |before| == Occurrence(s, n - 1);
      assert order[i] == Label(t, |list| - 1);
    }
  }

  /** The `durations` entry of one series: `len(series) - 1` pairs (none for a short series). */
  function Durations(s: seq<Event>): (r: DurTable)
    ensures |r.order| == if |s| == 0 then 0 else |s| - 1
  {
    DurationsUpTo(s, if |s| == 0 then 0 else |s| - 1)
  }

  lemma {:induction false} DursOfPrefix(s: seq<Event>, t: DurType, m: nat, n: nat)
    requires m <= n && (n < |s| || n == 0)
    ensures DursOf(s, t, m) <= DursOf(s, t, n)
    decreases n - m
  {
    if m < n {
      DursOfPrefix(s, t, m, n - 1);
    }
  }

  /**
   * Every `order` entry names a stored duration, and that duration is the
   * one of its own pair: `data[type][k]` is pair `i`'s duration.
   */
  lemma OrderLooksUpOwnPair(s: seq<Event>, i: nat)
    requires i + 1 < |s|
    ensures var tb := Durations(s);
            var l := tb.order[i];
            && l.dtype in tb.data && l.k < |tb.data[l.dtype]|
            && tb.data[l.dtype][l.k] == DurAt(s, i)
  {
    var n := |s| - 1;
    var tb := DurationsUpTo(s, n);
    assert Durations(s) == tb;
    DurationsUpToOrder(s, n, i);
    var t := TypeAt(s, i);
    DurationsUpToData(s, n, t);
    DursOfAt(s, t, i, n);
  }

  /** Pair `i`'s duration sits in `DursOf` at its occurrence index, for every later prefix. */
  lemma DursOfAt(s: seq<Event>, t: DurType, i: nat, n: nat)
    requires i < n < |s| && TypeAt(s, i) == t
    ensures |DursOf(s, t, i)| < |DursOf(s, t, n)|
    ensures DursOf(s, t, n)[|DursOf(s, t, i)|] == DurAt(s, i)
  {
    var before := DursOf(s, t, i);
    var upto := DursOf(s, t, i + 1);
    DursOfStep(s, t, i + 1);
    assert upto == before + [DurAt(s, i)];
    DursOfPrefix(s, t, i + 1, n);
    assert upto[|before|] == DurAt(s, i);
  }

  /** No label appears twice in `order`: pairs of the same type get distinct occurrences. */
  lemma OrderLabelsDistinct(s: seq<Event>, i: nat, j: nat)
    requires i < j && j + 1 < |s|
    ensures Durations(s).order[i] != Durations(s).order[j]
  {
    var n := |s| - 1;
    var order := Durations(s).order;
    assert order == DurationsUpTo(s, n).order;
    assert order[i] == Label(TypeAt(s, i), Occurrence(s, i)) by {
      DurationsUpToOrder(s, n, i);
    }
    assert order[j] == Label(TypeAt(s, j), Occurrence(s, j)) by {
      DurationsUpToOrder(s, n, j);
    }
    var t := TypeAt(s, i);
    if TypeAt(s, j) == t {
      assert |DursOf(s, t, i + 1)| == Occurrence(s, i) + 1 by {
        DursOfStep(s, t, i + 1);
      }
      assert |DursOf(s, t, i + 1)| <= Occurrence(s, j) by {
        DursOfPrefix(s, t, i + 1, j);
      }
    }
  }

  /** Occurrences count up from 0 per type, starting over for each new type. */
  lemma DurationsExample()
    ensures var a := Event(1, 0, []);
            var b := Event(2, 5, []);
            Durations([a, b, a, b]).order
            == [Label(DurType(Marker(1, []), Marker(2, [])), 0),
                Label(DurType(Marker(2, []), Marker(1, [])), 0),
                Label(DurType(Marker(1, []), Marker(2, [])), 1)]
  {
    var a := Event(1, 0, []);
    var b := Event(2, 5, []);
    var s := [a, b, a, b];
    var ab := DurType(Marker(1, []), Marker(2, []));
    assert TypeAt(s, 0) == ab && TypeAt(s, 2) == ab && TypeAt(s, 1) != ab;
    assert DursOf(s, ab, 1) == [DurAt(s, 0)];
    assert DursOf(s, ab, 2) == [DurAt(s, 0)];
    assert DursOf(s, TypeAt(s, 1), 1) == [];
    DurationsUpToOrder(s, 3, 0);
    DurationsUpToOrder(s, 3, 1);
    DurationsUpToOrder(s, 3, 2);
  }
}
