/**
 * `plotData_to_timelineXVals`: the order lists of all plotted cores (for
 * one risc) are merged into timeline columns. A column is an order label
 * and the set of cores whose next entry is that label; every core's
 * entries end up in the columns exactly once and in order.
 */
module Alignment {
  import opened Wrappers
  import opened Profile
  import opened Durations

  /** `traceToAdd`: an order label and the plotted cores (by position) that share it. */
  datatype Column = Column(trace: Label, cores: set<nat>)

  /** The labels of the columns core `c` takes part in, in column order. */
  function Projection(cols: seq<Column>, c: nat): seq<Label> {
    if cols == [] then []
    else Projection(cols[..|cols| - 1], c)
         + (if c in cols[|cols| - 1].cores then [cols[|cols| - 1].trace] else [])
  }

  lemma ProjectionSnoc(cols: seq<Column>, col: Column, c: nat)
    ensures Projection(cols + [col], c) == Projection(cols, c) + (if c in col.cores then [col.trace] else [])
  {
    assert (cols + [col])[..|cols|] == cols;
  }

  /** Every label of every order list. */
  function AllLabels(orders: seq<seq<Label>>): set<Label> {
    set c, i | 0 <= c < |orders| && 0 <= i < |orders[c]| :: orders[c][i]
  }

  predicate CursorsOk(orders: seq<seq<Label>>, cursor: seq<nat>) {
    |cursor| == |orders| && forall c | 0 <= c < |orders| :: cursor[c] <= |orders[c]|
  }

  /** Entries not yet emitted, over all cores. */
  function Remaining(orders: seq<seq<Label>>, cursor: seq<nat>): nat
    requires CursorsOk(orders, cursor)
  {
    if orders == [] then 0
    else (|orders[0]| - cursor[0]) + Remaining(orders[1..], cursor[1..])
  }

  /** Every participant advances by one. */
  function Advance(cursor: seq<nat>, cores: set<nat>): (r: seq<nat>)
    ensures |r| == |cursor|
    ensures forall c | 0 <= c < |cursor| :: r[c] == if c in cores then cursor[c] + 1 else cursor[c]
  {
    seq(|cursor|, c requires 0 <= c < |cursor| => if c in cores then cursor[c] + 1 else cursor[c])
  }

  lemma {:induction false} RemainingShrinks(orders: seq<seq<Label>>, a: seq<nat>, b: seq<nat>, w: nat)
    requires CursorsOk(orders, a) && CursorsOk(orders, b)
    requires forall c | 0 <= c < |orders| :: a[c] <= b[c]
    requires w < |orders| && a[w] < b[w]
    ensures Remaining(orders, b) < Remaining(orders, a)
  {
    if w == 0 {
      RemainingNoGrow(orders[1..], a[1..], b[1..]);
    } else {
      RemainingShrinks(orders[1..], a[1..], b[1..], w - 1);
    }
  }

  lemma {:induction false} RemainingNoGrow(orders: seq<seq<Label>>, a: seq<nat>, b: seq<nat>)
    requires CursorsOk(orders, a) && CursorsOk(orders, b)
    requires forall c | 0 <= c < |orders| :: a[c] <= b[c]
    ensures Remaining(orders, b) <= Remaining(orders, a)
  {
    if orders != [] {
      RemainingNoGrow(orders[1..], a[1..], b[1..]);
    }
  }

  /** The pending candidate sits at the head of every one of its cores. */
  predicate Heads(orders: seq<seq<Label>>, cursor: seq<nat>, col: Column)
    requires CursorsOk(orders, cursor)
  {
    && col.cores != {}
    && forall c | c in col.cores :: c < |orders| && cursor[c] < |orders[c]| && orders[c][cursor[c]] == col.trace
  }

  lemma HeadsPending(orders: seq<seq<Label>>, cursor: seq<nat>, col: Column)
    requires CursorsOk(orders, cursor) && Heads(orders, cursor, col)
    ensures exists c | 0 <= c < |orders| :: cursor[c] < |orders[c]|
  {
    var w :| w in col.cores;
    assert cursor[w] < |orders[w]|;
  }

  predicate Emitted(orders: seq<seq<Label>>, cursor: seq<nat>, cols: seq<Column>)
    requires CursorsOk(orders, cursor)
  {
    forall c | 0 <= c < |orders| :: Projection(cols, c) == orders[c][..cursor[c]]
  }

  predicate ColumnsOk(orders: seq<seq<Label>>, cols: seq<Column>) {
    forall n | 0 <= n < |cols| :: cols[n].cores != {} && forall c | c in cols[n].cores :: c < |orders|
  }

  lemma EmitStep(orders: seq<seq<Label>>, cursor: seq<nat>, cols: seq<Column>, col: Column)
    requires CursorsOk(orders, cursor) && Heads(orders, cursor, col)
    requires Emitted(orders, cursor, cols) && ColumnsOk(orders, cols)
    ensures CursorsOk(orders, Advance(cursor, col.cores))
    ensures Emitted(orders, Advance(cursor, col.cores), cols + [col])
    ensures ColumnsOk(orders, cols + [col])
    ensures Remaining(orders, Advance(cursor, col.cores)) < Remaining(orders, cursor)
  {
    var next := Advance(cursor, col.cores);
    forall c | 0 <= c < |orders| ensures Projection(cols + [col], c) == orders[c][..next[c]] {
      ProjectionSnoc(cols, col, c);
      if c in col.cores {
        assert orders[c][..cursor[c] + 1] == orders[c][..cursor[c]] + [orders[c][cursor[c]]];
      }
    }
    var w :| w in col.cores;
    RemainingShrinks(orders, cursor, next, w);
  }

  lemma DiscardShrinks(all: set<Label>, discarded: set<Label>, l: Label)
    requires l in all && l !in discarded
    ensures |all - (discarded + {l})| < |all - discarded|
  {
    assert all - discarded == (all - (discarded + {l})) + {l};
  }

  /**
   * One pass of the `for core in plotCores` loop over the cursors: it
   * proposes a candidate, extends the pending one with every core whose
   * head is the same label, or replaces it (discarding its label) with the
   * head of a core that meets the pending label later on. `addTrace` stays
   * true exactly when the pass ran to the end without a break.
   */
  method Pass(orders: seq<seq<Label>>, cursor: seq<nat>, cand0: Option<Column>, discarded0: set<Label>)
    returns (cand: Option<Column>, discarded: set<Label>, ordering: bool, addTrace: bool)
    requires CursorsOk(orders, cursor)
    requires cand0.Some? ==> Heads(orders, cursor, cand0.value)
    requires discarded0 <= AllLabels(orders)
    ensures cand.Some? ==> Heads(orders, cursor, cand.value)
    ensures discarded <= AllLabels(orders)
    ensures !ordering ==> forall c | 0 <= c < |orders| :: cursor[c] == |orders[c]|
    ensures addTrace ==> discarded == discarded0
    ensures addTrace && cand0.None? ==> cand.None? && !ordering
    ensures addTrace && cand0.Some? ==> cand.Some? && ordering
    ensures !addTrace ==> ordering && cand.Some?
    ensures !addTrace ==>
              (cand0.None? && discarded == discarded0)
              || (cand0.Some? && cand0.value.trace !in discarded0
                  && cand0.value.trace in AllLabels(orders)
                  && discarded == discarded0 + {cand0.value.trace})
  {
    cand, discarded := cand0, discarded0;
    ordering := false;
    addTrace := true;
    var k := 0;
    while k < |orders| && addTrace
      invariant 0 <= k <= |orders|
      invariant cand.Some? ==> Heads(orders, cursor, cand.value)
      invariant discarded <= AllLabels(orders)
      invariant !ordering ==> forall c | 0 <= c < k :: cursor[c] == |orders[c]|
      invariant addTrace ==> discarded == discarded0
      invariant addTrace && cand0.None? ==> cand.None? && !ordering
      invariant addTrace && cand0.Some? ==> cand.Some? && cand.value.trace == cand0.value.trace
      invariant !addTrace ==> ordering && cand.Some?
      invariant !addTrace ==>
                  (cand0.None? && discarded == discarded0)
                  || (cand0.Some? && cand0.value.trace !in discarded0
                      && cand0.value.trace in AllLabels(orders)
                      && discarded == discarded0 + {cand0.value.trace})
    {
      if cursor[k] < |orders[k]| {
        ordering := true;
        var head := orders[k][cursor[k]];
        if cand.Some? {
          if k !in cand.value.cores {
            if cand.value.trace == head {
              cand := Some(cand.value.(cores := cand.value.cores + {k}));
            } else {
              // does this core meet the candidate later on?
              var i := cursor[k] + 1;
              while i < |orders[k]| && addTrace
                invariant cand.Some? && Heads(orders, cursor, cand.value)
                invariant discarded <= AllLabels(orders)
                invariant addTrace ==> discarded == discarded0 && cand.value.trace == cand0.value.trace
                invariant !addTrace ==>
                            cand0.value.trace !in discarded0 && cand0.value.trace in AllLabels(orders)
                            && discarded == discarded0 + {cand0.value.trace}
                decreases |orders[k]| - i, if addTrace then 1 else 0
              {
                if orders[k][i] == cand.value.trace && cand.value.trace !in discarded {
                  discarded := discarded + {cand.value.trace};
                  cand := Some(Column(head, {k}));
                  addTrace := false;
                } else {
                  i := i + 1;
                }
              }
            }
          }
        } else {
          cand := Some(Column(head, {k}));
          addTrace := false;
        }
      }
      k := k + 1;
    }
    if addTrace && cand.Some? {
      HeadsPending(orders, cursor, cand.value);
    }
  }

  /**
   * The merge loop for one risc. `orders[c]` is the order list of the c-th
   * plotted core, empty when that core has no such risc.
   */
  method Align(orders: seq<seq<Label>>) returns (cols: seq<Column>)
    ensures ColumnsOk(orders, cols)
    ensures forall c | 0 <= c < |orders| :: Projection(cols, c) == orders[c]
  {
    var cursor: seq<nat> := seq(|orders|, _ => 0);
    var cand: Option<Column> := None;
    var discarded: set<Label> := {};
    var ordering := true;
    cols := [];
    while ordering
      invariant CursorsOk(orders, cursor)
      invariant Emitted(orders, cursor, cols) && ColumnsOk(orders, cols)
      invariant cand.Some? ==> Heads(orders, cursor, cand.value)
      invariant discarded <= AllLabels(orders)
      invariant !ordering ==> cand.None? && forall c | 0 <= c < |orders| :: cursor[c] == |orders[c]|
      decreases Remaining(orders, cursor), |AllLabels(orders) - discarded|, if cand.None? then 1 else 0,
                if ordering then 1 else 0
    {
      var cand0, discarded0 := cand, discarded;
      var addTrace;
      cand, discarded, ordering, addTrace := Pass(orders, cursor, cand0, discarded0);
      if addTrace && cand.Some? {
        var col := cand.value;
        EmitStep(orders, cursor, cols, col);
        discarded := discarded - {col.trace};
        cols := cols + [col];
        cursor := Advance(cursor, col.cores);
        cand := None;
      } else if !addTrace && cand0.Some? {
        DiscardShrinks(AllLabels(orders), discarded0, cand0.value.trace);
      }
    }
    forall c | 0 <= c < |orders| ensures Projection(cols, c) == orders[c] {
      assert orders[c][..cursor[c]] == orders[c];
    }
  }

  // ---------------------------------------------------------------------
  // xVals

  /** The series of risc `risc` of a plotted core; empty when the core has no such risc. */
  function SeriesOf(core: CoreData, risc: string): seq<Event> {
    RiscSeries(core.riscs, risc)
  }

  function OrdersOf(cores: seq<CoreData>, risc: string): (r: seq<seq<Label>>)
    ensures |r| == |cores|
    ensures forall c | 0 <= c < |cores| :: r[c] == Durations.Durations(SeriesOf(cores[c], risc)).order
  {
    if cores == [] then []
    else [Durations.Durations(SeriesOf(cores[0], risc)).order] + OrdersOf(cores[1..], risc)
  }

  /** A column's label can be looked up in the durations of each of its cores. */
  predicate Resolvable(cores: seq<CoreData>, risc: string, col: Column) {
    forall c | c in col.cores ::
      && c < |cores|
      && col.trace.dtype in Durations.Durations(SeriesOf(cores[c], risc)).data
      && col.trace.k < |Durations.Durations(SeriesOf(cores[c], risc)).data[col.trace.dtype]|
  }

  /** The duration a participant contributes to a column. */
  function XVal(cores: seq<CoreData>, risc: string, col: Column, c: nat): int
    requires Resolvable(cores, risc, col) && c in col.cores
  {
    Durations.Durations(SeriesOf(cores[c], risc)).data[col.trace.dtype][col.trace.k].diff
  }

  /** One `xVals` row: one value per plotted core, 0 for cores not in the column. */
  function XValsRow(cores: seq<CoreData>, risc: string, col: Column): (r: seq<int>)
    requires Resolvable(cores, risc, col)
    ensures |r| == |cores|
    ensures forall c | 0 <= c < |cores| && c !in col.cores :: r[c] == 0
    ensures forall c | c in col.cores :: r[c] == XVal(cores, risc, col, c)
  {
    seq(|cores|, c requires 0 <= c < |cores| => if c in col.cores then XVal(cores, risc, col, c) else 0)
  }

  lemma {:induction false} ProjectionPrefix(cols: seq<Column>, n: nat, c: nat)
    requires n <= |cols|
    ensures Projection(cols[..n], c) <= Projection(cols, c)
    decreases |cols| - n
  {
    if n < |cols| {
      ProjectionPrefix(cols, n + 1, c);
      assert cols[..n + 1][..n] == cols[..n];
      ProjectionSnoc(cols[..n], cols[n], c);
      assert cols[..n] + [cols[n]] == cols[..n + 1];
    } else {
      assert cols[..n] == cols;
    }
  }

  /**
   * In a complete alignment, the `m`-th column a core takes part in holds
   * that core's `m`-th order label, whose stored duration is the core's
   * `m`-th consecutive-pair duration.
   */
  lemma ColumnValueIsPairDuration(cores: seq<CoreData>, risc: string, cols: seq<Column>, n: nat, c: nat)
    requires forall c' | 0 <= c' < |cores| :: Projection(cols, c') == OrdersOf(cores, risc)[c']
    requires n < |cols| && c in cols[n].cores && c < |cores|
    ensures var m := |Projection(cols[..n], c)|;
            var s := SeriesOf(cores[c], risc);
            && m + 1 < |s|
            && Durations.Durations(s).order[m] == cols[n].trace
            && cols[n].trace.dtype in Durations.Durations(s).data
            && cols[n].trace.k < |Durations.Durations(s).data[cols[n].trace.dtype]|
            && Durations.Durations(s).data[cols[n].trace.dtype][cols[n].trace.k] == DurAt(s, m)
  {
    var s := SeriesOf(cores[c], risc);
    var m := |Projection(cols[..n], c)|;
    ProjectionPrefix(cols, n + 1, c);
    ProjectionSnoc(cols[..n], cols[n], c);
    assert cols[..n] + [cols[n]] == cols[..n + 1];
    var pre := Projection(cols[..n + 1], c);
    assert pre == Projection(cols[..n], c) + [cols[n].trace];
    assert pre <= Durations.Durations(s).order;
    assert Durations.Durations(s).order[m] == cols[n].trace;
    OrderLooksUpOwnPair(s, m);
  }

  lemma AlignedResolvable(cores: seq<CoreData>, risc: string, cols: seq<Column>, n: nat)
    requires forall c' | 0 <= c' < |cores| :: Projection(cols, c') == OrdersOf(cores, risc)[c']
    requires ColumnsOk(OrdersOf(cores, risc), cols) && n < |cols|
    ensures Resolvable(cores, risc, cols[n])
  {
    forall c | c in cols[n].cores
      ensures c < |cores|
      ensures cols[n].trace.dtype in Durations.Durations(SeriesOf(cores[c], risc)).data
      ensures cols[n].trace.k < |Durations.Durations(SeriesOf(cores[c], risc)).data[cols[n].trace.dtype]|
    {
      ColumnValueIsPairDuration(cores, risc, cols, n, c);
    }
  }

  /** `row` is the `xVals` row of column `col`. */
  predicate RowFor(cores: seq<CoreData>, risc: string, col: Column, row: (Label, seq<int>)) {
    Resolvable(cores, risc, col) && row == (col.trace, XValsRow(cores, risc, col))
  }

  /**
   * `cols` interleave the `order` lists of every core for `risc` (each
   * core's own list is the projection on it), and `rows` are their `xVals`.
   */
  predicate RiscAligned(cores: seq<CoreData>, risc: string, cols: seq<Column>, rows: seq<(Label, seq<int>)>) {
    && ColumnsOk(OrdersOf(cores, risc), cols)
    && (forall c | 0 <= c < |cores| :: Projection(cols, c) == Durations.Durations(SeriesOf(cores[c], risc)).order)
    && |rows| == |cols|
    && (forall n | 0 <= n < |cols| :: RowFor(cores, risc, cols[n], rows[n]))
  }

  /**
   * The columns and `xVals` rows of one risc. `cores` are the plotted cores
   * in plotting order.
   */
  method AlignRisc(cores: seq<CoreData>, risc: string) returns (cols: seq<Column>, rows: seq<(Label, seq<int>)>)
    ensures ColumnsOk(OrdersOf(cores, risc), cols)
    ensures forall c | 0 <= c < |cores| :: Projection(cols, c) == Durations.Durations(SeriesOf(cores[c], risc)).order
    ensures |rows| == |cols|
    ensures forall n | 0 <= n < |cols| :: RowFor(cores, risc, cols[n], rows[n])
  {
    var orders := OrdersOf(cores, risc);
    cols := Align(orders);
    forall n | 0 <= n < |cols|
      ensures Resolvable(cores, risc, cols[n])
    {
      AlignedResolvable(cores, risc, cols, n);
    }
    rows := Rows(cores, risc, cols);
  }

  function Rows(cores: seq<CoreData>, risc: string, cols: seq<Column>): (r: seq<(Label, seq<int>)>)
    requires forall n | 0 <= n < |cols| :: Resolvable(cores, risc, cols[n])
    ensures |r| == |cols|
    ensures forall n | 0 <= n < |cols| :: RowFor(cores, risc, cols[n], r[n])
  {
    if cols == [] then []
    else [(cols[0].trace, XValsRow(cores, risc, cols[0]))] + Rows(cores, risc, cols[1..])
  }

  /**
   * `plotData_to_timelineXVals`: for every plotted risc, in `plotRiscs`
   * order, the columns found for it and their `xVals` rows, one value per
   * plotted core.
   */
  method TimelineXVals(cores: seq<CoreData>, plotRiscs: seq<string>)
    returns (traces: seq<seq<Column>>, xvals: seq<seq<(Label, seq<int>)>>)
    ensures |traces| == |xvals| == |plotRiscs|
    ensures forall r | 0 <= r < |plotRiscs| :: RiscAligned(cores, plotRiscs[r], traces[r], xvals[r])
  {
    traces, xvals := [], [];
    var r := 0;
    while r < |plotRiscs|
      invariant 0 <= r <= |plotRiscs| && |traces| == |xvals| == r
      invariant forall r' | 0 <= r' < r :: RiscAligned(cores, plotRiscs[r'], traces[r'], xvals[r'])
    {
      var cols, rows := AlignRisc(cores, plotRiscs[r]);
      traces, xvals := traces + [cols], xvals + [rows];
      r := r + 1;
    }
  }
}
