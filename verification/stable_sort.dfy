/**
 * Python's `list.sort(key=lambda x: x[1])`: a stable sort of events on the
 * timestamp alone, written as an insertion sort.  Stability is stated as
 * "sorting commutes with every filter", which gives back each original
 * series from a merged view.
 */
module StableSort {
  import opened Profile

  predicate Sorted(s: seq<Event>) {
    forall i, j | 0 <= i < j < |s| :: s[i].ts <= s[j].ts
  }

  /** The events of `s` that satisfy `p`, in their original order. */
  function Filter(p: Event -> bool, s: seq<Event>): (r: seq<Event>)
    ensures |r| <= |s|
  {
    if s == [] then []
    else (if p(s[0]) then [s[0]] else []) + Filter(p, s[1..])
  }

  /** Places `x` before the first element of `s` whose timestamp is not smaller. */
  function Insert(x: Event, s: seq<Event>): (r: seq<Event>)
    ensures |r| == |s| + 1
    ensures multiset(r) == multiset(s) + multiset{x}
  {
    if s == [] || x.ts <= s[0].ts then
      [x] + s
    else
      assert s == [s[0]] + s[1..];
      [s[0]] + Insert(x, s[1..])
  }

  function SortByTs(s: seq<Event>): (r: seq<Event>)
    ensures |r| == |s|
    ensures multiset(r) == multiset(s)
  {
    if s == [] then []
    else
      assert s == [s[0]] + s[1..];
      Insert(s[0], SortByTs(s[1..]))
  }

  lemma SortedTail(s: seq<Event>)
    requires Sorted(s) && s != []
    ensures Sorted(s[1..])
    ensures forall e | e in s :: s[0].ts <= e.ts
  {
  }

  lemma SortedCons(x: Event, s: seq<Event>)
    requires Sorted(s)
    requires forall e | e in s :: x.ts <= e.ts
    ensures Sorted([x] + s)
  {
    var r := [x] + s;
    forall i, j | 0 <= i < j < |r| ensures r[i].ts <= r[j].ts {
      if i == 0 {
        assert r[j] == s[j - 1];
        assert r[j] in s;
      } else {
        assert r[i] == s[i - 1] && r[j] == s[j - 1];
      }
    }
  }

  lemma InSeqInMultiset(e: Event, a: seq<Event>, b: seq<Event>)
    requires multiset(a) == multiset(b)
    ensures e in a <==> e in b
  {
    assert e in a <==> e in multiset(a);
    assert e in b <==> e in multiset(b);
  }

  lemma {:induction false} InsertSorted(x: Event, s: seq<Event>)
    requires Sorted(s)
    ensures Sorted(Insert(x, s))
  {
    if s != [] && x.ts > s[0].ts {
      SortedTail(s);
      InsertSorted(x, s[1..]);
      var rest := Insert(x, s[1..]);
      forall e | e in rest ensures s[0].ts <= e.ts {
        assert e in multiset(rest);
        if e != x {
          assert e in multiset(s[1..]);
          assert e in s[1..];
        }
      }
      SortedCons(s[0], rest);
    } else if s != [] {
      SortedTail(s);
      SortedCons(x, s);
    }
  }

  lemma {:induction false} SortByTsSorted(s: seq<Event>)
    ensures Sorted(SortByTs(s))
  {
    if s != [] {
      SortByTsSorted(s[1..]);
      InsertSorted(s[0], SortByTs(s[1..]));
    }
  }

  lemma {:induction false} FilterConcat(p: Event -> bool, a: seq<Event>, b: seq<Event>)
    ensures Filter(p, a + b) == Filter(p, a) + Filter(p, b)
  {
    if a == [] {
      assert a + b == b;
    } else {
      var ab := a + b;
      assert ab != [] && ab[0] == a[0];
      assert ab[1..] == a[1..] + b;
      FilterConcat(p, a[1..], b);
      var head := if p(a[0]) then [a[0]] else [];
      assert Filter(p, ab) == head + (Filter(p, a[1..]) + Filter(p, b));
      assert Filter(p, a) == head + Filter(p, a[1..]);
    }
  }

  lemma FilterMembers(p: Event -> bool, s: seq<Event>)
    ensures forall e | e in Filter(p, s) :: e in s && p(e)
  {
    if s != [] {
      FilterMembers(p, s[1..]);
    }
  }

  lemma FilterOfSorted(p: Event -> bool, s: seq<Event>)
    requires Sorted(s)
    ensures Sorted(Filter(p, s))
  {
    if s != [] {
      SortedTail(s);
      FilterOfSorted(p, s[1..]);
      FilterMembers(p, s[1..]);
      if p(s[0]) {
        SortedCons(s[0], Filter(p, s[1..]));
      }
    }
  }

  lemma FilterCons(p: Event -> bool, a: Event, t: seq<Event>)
    ensures Filter(p, [a] + t) == (if p(a) then [a] else []) + Filter(p, t)
  {
    assert ([a] + t)[0] == a;
    assert ([a] + t)[1..] == t;
  }

  lemma InsertFront(x: Event, s: seq<Event>)
    requires s == [] || x.ts <= s[0].ts
    ensures Insert(x, s) == [x] + s
  {
  }

  lemma InsertBehind(x: Event, s: seq<Event>)
    requires s != [] && s[0].ts < x.ts
    ensures Insert(x, s) == [s[0]] + Insert(x, s[1..])
  {
  }

  /** Filtering after inserting equals inserting into the filtered sequence. */
  lemma {:induction false} FilterInsert(p: Event -> bool, x: Event, s: seq<Event>)
    requires Sorted(s)
    ensures Filter(p, Insert(x, s)) == if p(x) then Insert(x, Filter(p, s)) else Filter(p, s)
  {
    if s == [] || x.ts <= s[0].ts {
      InsertFront(x, s);
      FilterCons(p, x, s);
      if p(x) {
        var f := Filter(p, s);
        if f != [] {
          SortedTail(s);
          FilterMembers(p, s);
          assert f[0] in f;
        }
        InsertFront(x, f);
      }
    } else {
      var s1 := s[1..];
      SortedTail(s);
      FilterInsert(p, x, s1);
      InsertBehind(x, s);
      FilterCons(p, s[0], Insert(x, s1));
      assert s == [s[0]] + s1;
      FilterCons(p, s[0], s1);
      var f1 := Filter(p, s1);
      var head := if p(s[0]) then [s[0]] else [];
      assert Filter(p, Insert(x, s)) == head + Filter(p, Insert(x, s1));
      assert Filter(p, s) == head + f1;
      if p(x) {
        assert Filter(p, Insert(x, s1)) == Insert(x, f1);
        if p(s[0]) {
          InsertBehind(x, [s[0]] + f1);
          assert ([s[0]] + f1)[1..] == f1;
        } else {
          assert head + f1 == f1;
        }
      }
    }
  }

  /**
   * Stability: filtering a sorted sequence gives the sorted filtered
   * sequence, for every predicate.
   */
  lemma {:induction false} FilterSort(p: Event -> bool, s: seq<Event>)
    ensures Filter(p, SortByTs(s)) == SortByTs(Filter(p, s))
  {
    if s != [] {
      FilterSort(p, s[1..]);
      FilterSortCons(p, s);
    }
  }

  /** The inductive step of FilterSort: from the tail to the whole sequence. */
  lemma {:induction false} FilterSortCons(p: Event -> bool, s: seq<Event>)
    requires s != []
    requires Filter(p, SortByTs(s[1..])) == SortByTs(Filter(p, s[1..]))
    ensures Filter(p, SortByTs(s)) == SortByTs(Filter(p, s))
  {
    var x, s1 := s[0], s[1..];
    var f1 := Filter(p, s1);
    assert Filter(p, SortByTs(s)) == if p(x) then Insert(x, SortByTs(f1)) else SortByTs(f1) by {
      var t1 := SortByTs(s1);
      assert SortByTs(s) == Insert(x, t1);
      SortByTsSorted(s1);
      FilterInsert(p, x, t1);
    }
    assert Filter(p, s) == (if p(x) then [x] else []) + f1 by {
      assert s == [x] + s1;
      FilterCons(p, x, s1);
    }
    if p(x) {
      var f := [x] + f1;
      assert SortByTs(f) == Insert(x, SortByTs(f1)) by {
        assert f[0] == x && f[1..] == f1;
      }
    } else {
      assert [] + f1 == f1;
    }
  }

  /** Sorting an already sorted sequence leaves it as it is. */
  lemma {:induction false} SortSorted(s: seq<Event>)
    requires Sorted(s)
    ensures SortByTs(s) == s
  {
    if s != [] {
      SortedTail(s);
      SortSorted(s[1..]);
      assert s == [s[0]] + s[1..];
    }
  }

  function AtTs(t: int): Event -> bool {
    (e: Event) => e.ts == t
  }

  /** Events with equal timestamps keep their original relative order. */
  lemma SortStable(s: seq<Event>, t: int)
    ensures Filter(AtTs(t), SortByTs(s)) == Filter(AtTs(t), s)
  {
    var p := AtTs(t);
    FilterSort(p, s);
    var f := Filter(p, s);
    FilterMembers(p, s);
    forall i, j | 0 <= i < j < |f| ensures f[i].ts <= f[j].ts {
      assert f[i] in f && f[j] in f;
      assert p(f[i]) && p(f[j]);
    }
    SortSorted(f);
  }

  /** The first element of the sorted series carries the smallest timestamp. */
  lemma SortedHeadIsMin(s: seq<Event>)
    requires s != []
    ensures SortByTs(s)[0] in s
    ensures forall e | e in s :: SortByTs(s)[0].ts <= e.ts
  {
    var r := SortByTs(s);
    SortByTsSorted(s);
    InSeqInMultiset(r[0], r, s);
    forall e | e in s ensures r[0].ts <= e.ts {
      InSeqInMultiset(e, r, s);
      var k :| 0 <= k < |r| && r[k] == e;
    }
  }
}
