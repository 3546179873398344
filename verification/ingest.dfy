/**
 * Ingestion of the device-side profile log (`import_device_profile_log`,
 * first half): every line after the two header lines is a row
 * `(chip, core x, core y, risc, timerID, timestamp)`, and rows are grouped
 * by chip, then core, then risc, each group keeping file order.  Reading
 * the CSV file and `int()`/`strip()` are outside the model: a line is
 * either an already-typed row or `None` when it does not parse.
 */
module Ingest {
  import opened Wrappers
  import opened Profile

  datatype Row = Row(chip: int, x: int, y: int, risc: string, timerID: int, ts: int)

  /** Any unparsable line aborts the whole import. */
  datatype ImportError = MalformedLog

  /** Lines skipped before the first row (`lineCount > 1`). */
  const HEADER_LINES: nat := 2

  function EventOf(row: Row): Event {
    Event(row.timerID, row.ts, [])
  }

  function AddToRiscs(riscs: seq<RiscData>, risc: string, e: Event): seq<RiscData> {
    if riscs == [] then [RiscData(risc, [e], map[])]
    else if riscs[0].risc == risc then [riscs[0].(series := riscs[0].series + [e])] + riscs[1..]
    else [riscs[0]] + AddToRiscs(riscs[1..], risc, e)
  }

  function AddToCores(cores: seq<CoreData>, key: CoreKey, risc: string, e: Event): seq<CoreData> {
    if cores == [] then [CoreData(key, AddToRiscs([], risc, e), map[])]
    else if cores[0].key == key then [cores[0].(riscs := AddToRiscs(cores[0].riscs, risc, e))] + cores[1..]
    else [cores[0]] + AddToCores(cores[1..], key, risc, e)
  }

  function AddToChips(chips: seq<Chip>, id: int, key: CoreKey, risc: string, e: Event): seq<Chip> {
    if chips == [] then [Chip(id, AddToCores([], key, risc, e))]
    else if chips[0].id == id then [chips[0].(cores := AddToCores(chips[0].cores, key, risc, e))] + chips[1..]
    else [chips[0]] + AddToChips(chips[1..], id, key, risc, e)
  }

  function AddRow(chips: seq<Chip>, row: Row): seq<Chip> {
    AddToChips(chips, row.chip, Phys(row.x, row.y), row.risc, EventOf(row))
  }

  /** The grouping loop over the rows, in file order. */
  function Group(rows: seq<Row>): seq<Chip> {
    if rows == [] then [] else AddRow(Group(rows[..|rows| - 1]), rows[|rows| - 1])
  }

  /** All rows, or `None` as soon as one line does not parse. */
  function Parse(lines: seq<Option<Row>>): (r: Option<seq<Row>>)
    ensures r.Some? <==> forall i | 0 <= i < |lines| :: lines[i].Some?
    ensures r.Some? ==> |r.value| == |lines| && forall i | 0 <= i < |lines| :: r.value[i] == lines[i].value
  {
    if lines == [] then Some([])
    else if lines[0].None? then None
    else match Parse(lines[1..]) {
      case None => None
      case Some(rest) => Some([lines[0].value] + rest)
    }
  }

  function ImportLog(lines: seq<Option<Row>>): (r: Result<seq<Chip>, ImportError>)
    ensures r.Success? <==> forall i | HEADER_LINES <= i < |lines| :: lines[i].Some?
  {
    var body := if |lines| <= HEADER_LINES then [] else lines[HEADER_LINES..];
    assert forall i | HEADER_LINES <= i < |lines| :: lines[i] == body[i - HEADER_LINES];
    match Parse(body) {
      case None => Failure(MalformedLog)
      case Some(rows) => Success(Group(rows))
    }
  }

  // ---------------------------------------------------------------------
  // Lookups and the grouping property

  function CoresOf(chips: seq<Chip>, id: int): seq<CoreData> {
    if chips == [] then []
    else if chips[0].id == id then chips[0].cores
    else CoresOf(chips[1..], id)
  }

  function RiscsOf(cores: seq<CoreData>, key: CoreKey): seq<RiscData> {
    if cores == [] then []
    else if cores[0].key == key then cores[0].riscs
    else RiscsOf(cores[1..], key)
  }

  /** The series of `(chip, core, risc)`, empty when the triple is absent. */
  function SeriesAt(chips: seq<Chip>, id: int, key: CoreKey, risc: string): seq<Event> {
    RiscSeries(RiscsOf(CoresOf(chips, id), key), risc)
  }

  predicate RowIs(row: Row, id: int, key: CoreKey, risc: string) {
    row.chip == id && Phys(row.x, row.y) == key && row.risc == risc
  }

  /** The events of the rows that belong to `(chip, core, risc)`, in file order. */
  function RowEvents(rows: seq<Row>, id: int, key: CoreKey, risc: string): seq<Event> {
    if rows == [] then []
    else (if RowIs(rows[0], id, key, risc) then [EventOf(rows[0])] else []) + RowEvents(rows[1..], id, key, risc)
  }

  lemma RowEventsSnoc(rows: seq<Row>, row: Row, id: int, key: CoreKey, risc: string)
    ensures RowEvents(rows + [row], id, key, risc)
         == RowEvents(rows, id, key, risc) + (if RowIs(row, id, key, risc) then [EventOf(row)] else [])
  {
    if rows == [] {
      assert [row][1..] == [];
    } else {
      assert (rows + [row])[1..] == rows[1..] + [row];
      RowEventsSnoc(rows[1..], row, id, key, risc);
    }
  }

  lemma AddToRiscsSeries(riscs: seq<RiscData>, risc: string, e: Event, name: string)
    ensures RiscSeries(AddToRiscs(riscs, risc, e), name)
         == RiscSeries(riscs, name) + (if risc == name then [e] else [])
  {
  }

  lemma AddToCoresRiscs(cores: seq<CoreData>, key: CoreKey, risc: string, e: Event, k: CoreKey)
    ensures RiscsOf(AddToCores(cores, key, risc, e), k)
         == if key == k then AddToRiscs(RiscsOf(cores, k), risc, e) else RiscsOf(cores, k)
  {
  }

  lemma AddToChipsCores(chips: seq<Chip>, id: int, key: CoreKey, risc: string, e: Event, c: int)
    ensures CoresOf(AddToChips(chips, id, key, risc, e), c)
         == if id == c then AddToCores(CoresOf(chips, c), key, risc, e) else CoresOf(chips, c)
  {
  }

  lemma AddRowSeries(chips: seq<Chip>, row: Row, id: int, key: CoreKey, risc: string)
    ensures SeriesAt(AddRow(chips, row), id, key, risc)
         == SeriesAt(chips, id, key, risc) + (if RowIs(row, id, key, risc) then [EventOf(row)] else [])
  {
    var k := Phys(row.x, row.y);
    AddToChipsCores(chips, row.chip, k, row.risc, EventOf(row), id);
    AddToCoresRiscs(CoresOf(chips, id), k, row.risc, EventOf(row), key);
    AddToRiscsSeries(RiscsOf(CoresOf(chips, id), key), row.risc, EventOf(row), risc);
  }

  /**
   * Grouping: the series stored for any `(chip, core, risc)` is exactly the
   * events of that triple's rows, in file order.
   */
  lemma {:induction false} GroupSeries(rows: seq<Row>, id: int, key: CoreKey, risc: string)
    ensures SeriesAt(Group(rows), id, key, risc) == RowEvents(rows, id, key, risc)
  {
    if rows != [] {
      var init := rows[..|rows| - 1];
      var last := rows[|rows| - 1];
      GroupSeries(init, id, key, risc);
      AddRowSeries(Group(init), last, id, key, risc);
      assert rows == init + [last];
      RowEventsSnoc(init, last, id, key, risc);
    }
  }

  // ---------------------------------------------------------------------
  // Shape of the grouped structure

  predicate RawRiscs(riscs: seq<RiscData>) {
    && riscs != []
    && DistinctRiscs(riscs)
    && forall i | 0 <= i < |riscs| ::
         && riscs[i].series != []
         && riscs[i].analysis == map[]
         && forall j | 0 <= j < |riscs[i].series| :: riscs[i].series[j].tags == []
  }

  predicate RawCores(cores: seq<CoreData>) {
    && DistinctCores(cores)
    && forall i | 0 <= i < |cores| ::
         cores[i].key.Phys? && cores[i].summary == map[] && RawRiscs(cores[i].riscs)
  }

  predicate DistinctChips(chips: seq<Chip>) {
    forall i, j | 0 <= i < j < |chips| :: chips[i].id != chips[j].id
  }

  /** The structure the grouping loop builds: unique keys, no empty series, no tags. */
  predicate RawChips(chips: seq<Chip>) {
    && DistinctChips(chips)
    && forall i | 0 <= i < |chips| :: chips[i].cores != [] && RawCores(chips[i].cores)
  }

  /** Position of the first element whose key is `k`, or `|s|` when there is none. */
  function FirstIndex<T, K(==)>(s: seq<T>, key: T -> K, k: K): (r: nat)
    ensures r <= |s|
    ensures r < |s| ==> key(s[r]) == k
    ensures forall j | 0 <= j < r :: key(s[j]) != k
  {
    if s == [] then 0
    else if key(s[0]) == k then 0
    else 1 + FirstIndex(s[1..], key, k)
  }

  /** The dictionary keys of the three levels. */
  function NameOf(rd: RiscData): string { rd.risc }
  function KeyOf(cd: CoreData): CoreKey { cd.key }
  function IdOf(c: Chip): int { c.id }

  lemma AddToRiscsShape(riscs: seq<RiscData>, risc: string, e: Event)
    ensures var i := FirstIndex(riscs, NameOf, risc);
            AddToRiscs(riscs, risc, e)
              == if i < |riscs| then riscs[i := riscs[i].(series := riscs[i].series + [e])]
                 else riscs + [RiscData(risc, [e], map[])]
  {
    if riscs != [] && riscs[0].risc != risc {
      AddToRiscsShape(riscs[1..], risc, e);
    }
  }

  lemma AddToCoresShape(cores: seq<CoreData>, key: CoreKey, risc: string, e: Event)
    ensures var i := FirstIndex(cores, KeyOf, key);
            AddToCores(cores, key, risc, e)
              == if i < |cores| then cores[i := cores[i].(riscs := AddToRiscs(cores[i].riscs, risc, e))]
                 else cores + [CoreData(key, AddToRiscs([], risc, e), map[])]
  {
    if cores != [] && cores[0].key != key {
      AddToCoresShape(cores[1..], key, risc, e);
    }
  }

  lemma AddToChipsShape(chips: seq<Chip>, id: int, key: CoreKey, risc: string, e: Event)
    ensures var i := FirstIndex(chips, IdOf, id);
            AddToChips(chips, id, key, risc, e)
              == if i < |chips| then chips[i := chips[i].(cores := AddToCores(chips[i].cores, key, risc, e))]
                 else chips + [Chip(id, AddToCores([], key, risc, e))]
  {
    if chips != [] && chips[0].id != id {
      AddToChipsShape(chips[1..], id, key, risc, e);
    }
  }

  lemma AddToRiscsRaw(riscs: seq<RiscData>, risc: string, e: Event)
    requires riscs == [] || RawRiscs(riscs)
    requires e.tags == []
    ensures RawRiscs(AddToRiscs(riscs, risc, e))
  {
    AddToRiscsShape(riscs, risc, e);
    var i := FirstIndex(riscs, NameOf, risc);
    var r := AddToRiscs(riscs, risc, e);
    if i < |riscs| {
      var s := riscs[i].series + [e];
      assert r[i].series == s;
      assert forall j | 0 <= j < |s| :: s[j].tags == [] by {
        forall j | 0 <= j < |s| ensures s[j].tags == [] {
          if j < |riscs[i].series| { assert s[j] == riscs[i].series[j]; }
        }
      }
    }
  }

  lemma AddToCoresRaw(cores: seq<CoreData>, key: CoreKey, risc: string, e: Event)
    requires RawCores(cores) && key.Phys? && e.tags == []
    ensures RawCores(AddToCores(cores, key, risc, e))
    ensures AddToCores(cores, key, risc, e) != []
  {
    AddToCoresShape(cores, key, risc, e);
    var i := FirstIndex(cores, KeyOf, key);
    if i < |cores| {
      AddToRiscsRaw(cores[i].riscs, risc, e);
    } else {
      AddToRiscsRaw([], risc, e);
    }
  }

  lemma AddToChipsRaw(chips: seq<Chip>, id: int, key: CoreKey, risc: string, e: Event)
    requires RawChips(chips) && key.Phys? && e.tags == []
    ensures RawChips(AddToChips(chips, id, key, risc, e))
  {
    AddToChipsShape(chips, id, key, risc, e);
    var i := FirstIndex(chips, IdOf, id);
    if i < |chips| {
      AddToCoresRaw(chips[i].cores, key, risc, e);
    } else {
      AddToCoresRaw([], key, risc, e);
    }
  }

  /** The grouped structure has unique keys, no empty series and no tags. */
  lemma {:induction false} GroupRaw(rows: seq<Row>)
    ensures RawChips(Group(rows))
  {
    if rows != [] {
      GroupRaw(rows[..|rows| - 1]);
      var row := rows[|rows| - 1];
      AddToChipsRaw(Group(rows[..|rows| - 1]), row.chip, Phys(row.x, row.y), row.risc, EventOf(row));
    }
  }

  lemma CoresOfAt(chips: seq<Chip>, i: nat)
    requires i < |chips| && DistinctChips(chips)
    ensures CoresOf(chips, chips[i].id) == chips[i].cores
  {
    if i > 0 {
      assert chips[0].id != chips[i].id;
      CoresOfAt(chips[1..], i - 1);
    }
  }

  lemma RiscsOfAt(cores: seq<CoreData>, i: nat)
    requires i < |cores| && DistinctCores(cores)
    ensures RiscsOf(cores, cores[i].key) == cores[i].riscs
  {
    if i > 0 {
      assert cores[0].key != cores[i].key;
      RiscsOfAt(cores[1..], i - 1);
    }
  }

  /**
   * Every stored series is the non-empty list of its triple's events, in
   * file order.
   */
  lemma GroupedSeries(rows: seq<Row>, c: nat, k: nat, i: nat)
    requires c < |Group(rows)|
    requires k < |Group(rows)[c].cores|
    requires i < |Group(rows)[c].cores[k].riscs|
    ensures var chip := Group(rows)[c];
            var core := chip.cores[k];
            var rd := core.riscs[i];
            rd.series == RowEvents(rows, chip.id, core.key, rd.risc) && rd.series != []
  {
    var chips := Group(rows);
    GroupRaw(rows);
    var chip := chips[c];
    var core := chip.cores[k];
    CoresOfAt(chips, c);
    RiscsOfAt(chip.cores, k);
    RiscSeriesAt(core.riscs, i);
    GroupSeries(rows, chip.id, core.key, core.riscs[i].risc);
  }
}
