/**
 * Helpers of the report writers: the sort key of cores (`coreCompare`)
 * and the per-timer timestamp cells of the csv report
 * (`return_available_timer`).
 */
module Report {
  import opened Profile

  const DEVICE_CORE_KEY: int := 0xFFFF_FFFF_FFFF_FFFF

  /** A physical core inside the 100-column grid the key assumes. */
  predicate InGrid(k: CoreKey) {
    k.Phys? && 0 <= k.x < 100 && 0 <= k.y
  }

  /** `coreCompare`: `x + 100 * y` for a physical core, 2^64 - 1 for the `DEVICE` entry. */
  function CoreCompare(k: CoreKey): (r: int)
    ensures k.DeviceCore? ==> r == DEVICE_CORE_KEY
    ensures InGrid(k) ==> r >= 0 && r % 100 == k.x && r / 100 == k.y
  {
    match k
    case DeviceCore => DEVICE_CORE_KEY
    case Phys(x, y) => x + y * 100
  }

  /** Inside the grid, the key orders cores row by row, then by column. */
  lemma CoreOrderIsRowMajor(a: CoreKey, b: CoreKey)
    requires InGrid(a) && InGrid(b)
    ensures CoreCompare(a) < CoreCompare(b) <==> a.y < b.y || (a.y == b.y && a.x < b.x)
  {
    if a.y < b.y {
      assert a.x + a.y * 100 < 100 + a.y * 100 <= b.y * 100 <= CoreCompare(b);
    } else if a.y > b.y {
      assert b.x + b.y * 100 < 100 + b.y * 100 <= a.y * 100 <= CoreCompare(a);
    }
  }

  /** Inside the grid, distinct cores have distinct keys. */
  lemma CoreKeyInjective(a: CoreKey, b: CoreKey)
    requires InGrid(a) && InGrid(b) && CoreCompare(a) == CoreCompare(b)
    ensures a == b
  {
    CoreOrderIsRowMajor(a, b);
    CoreOrderIsRowMajor(b, a);
  }

  /** The `DEVICE` entry sorts after every grid core whose key is below 2^64 - 1. */
  lemma DeviceCoreSortsLast(k: CoreKey)
    requires InGrid(k) && k.x + k.y * 100 < DEVICE_CORE_KEY
    ensures CoreCompare(k) < CoreCompare(DeviceCore)
  {
  }

  /** Outside the grid the key is not injective. */
  lemma KeysCollideOutsideGrid()
    ensures CoreCompare(Phys(100, 0)) == CoreCompare(Phys(0, 1))
  {
  }

  // ---------------------------------------------------------------------
  // Decimal rendering, as Python's `f"{timestamp}"` writes an int.

  function DigitChar(d: nat): (c: char)
    requires d < 10
    ensures '0' <= c <= '9'
    ensures c as int - '0' as int == d
  {
    (d + '0' as int) as char
  }

  predicate IsDigits(s: string) {
    |s| >= 1 && forall i | 0 <= i < |s| :: '0' <= s[i] <= '9'
  }

  function NatToString(n: nat): (s: string)
    ensures IsDigits(s)
  {
    if n < 10 then [DigitChar(n)] else NatToString(n / 10) + [DigitChar(n % 10)]
  }

  function IntToString(i: int): (s: string)
    ensures |s| >= 1 && NoSpace(s)
    ensures i < 0 <==> s[0] == '-'
  {
    if i < 0 then "-" + NatToString(-i) else NatToString(i)
  }

  function ParseNat(s: string): nat
    requires IsDigits(s)
  {
    if |s| == 1 then s[0] as int - '0' as int
    else ParseNat(s[..|s| - 1]) * 10 + (s[|s| - 1] as int - '0' as int)
  }

  function ParseInt(s: string): int
    requires |s| >= 1
    requires s[0] == '-' ==> IsDigits(s[1..])
    requires s[0] != '-' ==> IsDigits(s)
  {
    if s[0] == '-' then 0 - ParseNat(s[1..]) else ParseNat(s)
  }

  lemma {:induction false} NatRoundTrip(n: nat)
    ensures ParseNat(NatToString(n)) == n
  {
    if n >= 10 {
      NatRoundTrip(n / 10);
      var s := NatToString(n);
      assert s[..|s| - 1] == NatToString(n / 10);
    }
  }

  /** Every rendered int reads back as itself. */
  lemma IntRoundTrip(i: int)
    ensures var s := IntToString(i);
            (s[0] == '-' ==> IsDigits(s[1..])) && (s[0] != '-' ==> IsDigits(s)) && ParseInt(s) == i
  {
    var s := IntToString(i);
    if i < 0 {
      assert s[1..] == NatToString(-i);
      NatRoundTrip(-i);
    } else {
      NatRoundTrip(i);
    }
  }

  // ---------------------------------------------------------------------
  // Space-delimited cells

  /** The timestamps of the events of `series` with timer id `id`, in series order. */
  function TimestampsOf(series: seq<Event>, id: int): (r: seq<int>)
    ensures |r| <= |series|
  {
    if series == [] then []
    else TimestampsOf(series[..|series| - 1], id)
         + (if series[|series| - 1].timerID == id then [series[|series| - 1].ts] else [])
  }

  /** Timestamps joined by single spaces; empty when there are none. */
  function Render(ts: seq<int>): string {
    if ts == [] then ""
    else if |ts| == 1 then IntToString(ts[0])
    else Render(ts[..|ts| - 1]) + " " + IntToString(ts[|ts| - 1])
  }

  predicate NoSpace(s: string) {
    forall j | 0 <= j < |s| :: s[j] != ' '
  }

  /** Index of the last space of `s`, or -1. */
  function LastSpace(s: string): (r: int)
    ensures -1 <= r < |s|
    ensures r >= 0 ==> s[r] == ' ' && forall j | r < j < |s| :: s[j] != ' '
    ensures r == -1 ==> NoSpace(s)
  {
    if s == [] then -1
    else if s[|s| - 1] == ' ' then |s| - 1
    else LastSpace(s[..|s| - 1])
  }

  /** Splits `s` at every space. */
  function Words(s: string): seq<string>
    decreases |s|
  {
    var i := LastSpace(s);
    if i < 0 then [s] else Words(s[..i]) + [s[i + 1..]]
  }

  lemma {:induction false} LastSpaceOfJoin(a: string, b: string)
    requires NoSpace(b)
    ensures LastSpace(a + " " + b) == |a|
    decreases |b|
  {
    var s := a + " " + b;
    if b != [] {
      var b' := b[..|b| - 1];
      assert s[|s| - 1] == b[|b| - 1] != ' ';
      assert s[..|s| - 1] == a + " " + b';
      LastSpaceOfJoin(a, b');
    }
  }

  lemma WordsSnoc(a: string, b: string)
    requires NoSpace(b)
    ensures Words(a + " " + b) == Words(a) + [b]
  {
    var s := a + " " + b;
    LastSpaceOfJoin(a, b);
    assert s[..|a|] == a && s[|a| + 1..] == b;
  }

  lemma WordsOfWord(w: string)
    requires NoSpace(w)
    ensures Words(w) == [w]
  {
  }

  /** The cells of a rendered list are the rendered timestamps, in order. */
  lemma {:induction false} WordsOfRender(ts: seq<int>)
    requires ts != []
    ensures |Words(Render(ts))| == |ts|
    ensures forall i | 0 <= i < |ts| :: Words(Render(ts))[i] == IntToString(ts[i])
  {
    if |ts| == 1 {
      WordsOfWord(IntToString(ts[0]));
    } else {
      var init, last := ts[..|ts| - 1], IntToString(ts[|ts| - 1]);
      var w := Words(Render(ts));
      assert w == Words(Render(init)) + [last] by {
        assert Render(ts) == Render(init) + " " + last;
        WordsSnoc(Render(init), last);
      }
      assert |Words(Render(init))| == |init| by {
        WordsOfRender(init);
      }
      forall i | 0 <= i < |ts| ensures w[i] == IntToString(ts[i]) {
        if i < |init| {
          assert Words(Render(init))[i] == IntToString(init[i]) by {
            WordsOfRender(init);
          }
          assert w[i] == Words(Render(init))[i] && init[i] == ts[i];
        } else {
          assert i == |ts| - 1 && w[i] == last;
        }
      }
    }
  }

  /** Reading a cell back: split at spaces and parse every word. */
  lemma CellRoundTrip(ts: seq<int>, i: nat)
    requires i < |ts|
    ensures |Words(Render(ts))| == |ts|
    ensures var w := Words(Render(ts))[i];
            |w| >= 1 && (w[0] == '-' ==> IsDigits(w[1..])) && (w[0] != '-' ==> IsDigits(w))
            && ParseInt(w) == ts[i]
  {
    WordsOfRender(ts);
    IntRoundTrip(ts[i]);
  }

  /** `cell` lists the timestamps of the risc's events with timer id `id`. */
  predicate CellFor(riscs: seq<RiscData>, risc: string, id: int, cell: string) {
    cell == Render(TimestampsOf(RiscSeries(riscs, risc), id))
  }

  /**
   * `return_available_timer`: one cell per `(timerID, label)` pair, in
   * order, holding the space-delimited timestamps of the risc's events with
   * that timer id; an empty cell when the risc is absent.
   */
  method ReturnAvailableTimer(risc: string, riscs: seq<RiscData>, timerIDLabels: seq<(int, string)>)
    returns (cells: seq<string>)
    ensures |cells| == |timerIDLabels|
    ensures forall n | 0 <= n < |cells| :: CellFor(riscs, risc, timerIDLabels[n].0, cells[n])
    ensures !HasRisc(riscs, risc) ==> forall n | 0 <= n < |cells| :: cells[n] == ""
  {
    cells := [];
    var present := HasRisc(riscs, risc);
    var n := 0;
    while n < |timerIDLabels|
      invariant 0 <= n <= |timerIDLabels| && |cells| == n
      invariant forall m | 0 <= m < n :: CellFor(riscs, risc, timerIDLabels[m].0, cells[m])
      invariant !present ==> forall m | 0 <= m < n :: cells[m] == ""
    {
      var res := TimerCell(risc, riscs, timerIDLabels[n].0, present);
      cells := cells + [res];
      n := n + 1;
    }
  }

  /** The cell of one timer id: empty when the risc is absent. */
  method TimerCell(risc: string, riscs: seq<RiscData>, id: int, present: bool) returns (res: string)
    requires present == HasRisc(riscs, risc)
    ensures CellFor(riscs, risc, id, res)
    ensures !present ==> res == ""
  {
    res := "";
    if present {
      res := Cell(RiscSeries(riscs, risc), id);
    } else {
      RiscSeriesAbsent(riscs, risc);
    }
  }

  /** The inner loop: appends each matching timestamp, space-separated once `res` is non-empty. */
  method Cell(series: seq<Event>, desired: int) returns (res: string)
    ensures res == Render(TimestampsOf(series, desired))
  {
    res := "";
    var i := 0;
    while i < |series|
      invariant 0 <= i <= |series|
      invariant res == Render(TimestampsOf(series[..i], desired))
    {
      CellLoopStep(series, i, desired, res);
      if series[i].timerID == desired {
        res := AppendTimestamp(res, series[i].ts);
      }
      i := i + 1;
    }
    assert series[..|series|] == series;
  }

  lemma CellLoopStep(series: seq<Event>, i: nat, desired: int, res: string)
    requires i < |series| && res == Render(TimestampsOf(series[..i], desired))
    ensures series[i].timerID == desired ==>
              Render(TimestampsOf(series[..i + 1], desired))
              == if |res| != 0 then res + " " + IntToString(series[i].ts) else IntToString(series[i].ts)
    ensures series[i].timerID != desired ==>
              TimestampsOf(series[..i + 1], desired) == TimestampsOf(series[..i], desired)
  {
    TimestampsSnoc(series, i, desired);
    CellStep(TimestampsOf(series[..i], desired), series[i].ts, res);
  }

  lemma TimestampsSnoc(series: seq<Event>, i: nat, id: int)
    requires i < |series|
    ensures TimestampsOf(series[..i + 1], id)
         == TimestampsOf(series[..i], id) + (if series[i].timerID == id then [series[i].ts] else [])
  {
    assert series[..i + 1][..i] == series[..i];
  }

  /** `res = f"{res} {timestamp}"` when `res` is non-empty, else `res = f"{timestamp}"`. */
  method AppendTimestamp(res: string, t: int) returns (res': string)
    ensures res' == if |res| != 0 then res + " " + IntToString(t) else IntToString(t)
  {
    if |res| != 0 {
      res' := res + " " + IntToString(t);
    } else {
      res' := IntToString(t);
    }
  }

  /** One step of the inner loop: appending `x` to the cell of `ts`. */
  lemma CellStep(ts: seq<int>, x: int, res: string)
    requires res == Render(ts)
    ensures Render(ts + [x]) == if |res| != 0 then res + " " + IntToString(x) else IntToString(x)
  {
    RenderSnoc(ts, x);
    if ts != [] {
      RenderNonEmpty(ts);
    }
  }

  lemma RenderSnoc(ts: seq<int>, x: int)
    ensures Render(ts + [x]) == if ts == [] then IntToString(x) else Render(ts) + " " + IntToString(x)
  {
    assert (ts + [x])[..|ts|] == ts;
  }

  lemma RenderNonEmpty(ts: seq<int>)
    requires ts != []
    ensures Render(ts) != ""
  {
  }
}
