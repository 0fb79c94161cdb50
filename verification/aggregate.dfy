/** `getChartData`: group the rows of a table by their category cell, sum a
    cleaned numeric column (or count rows), track each group's dates, drop
    non-positive totals and sort descending; and `getMaintenanceDetails`,
    the drill-down from a category back to its rows. */
module Aggregate {
  import opened Wrappers
  import opened Text
  import opened Seqs
  import opened Tables
  import opened Charts
  import opened Sorting

  /** The platform services the aggregation calls but does not define:
      `Number.parseFloat` (None for NaN), `new Date(s)` (None for an
      invalid date, otherwise its time value) and `toLocaleDateString`. */
  datatype Platform = Platform(parseNumber: string -> Option<real>, parseDate: string -> Option<int>, formatDate: int -> string)

  /** The column positions one aggregation works with: the category column,
      the value column (None in count mode) and the implicit date column. */
  datatype Resolved = Resolved(xIndex: nat, yIndex: Option<nat>, dateIndex: Option<nat>)

  /** What one contributing row adds to its category. */
  datatype Entry = Entry(key: string, amount: real, date: Option<int>)

  /** The running state of one category (a `dataMap` value). */
  datatype Group = Group(name: string, total: real, dates: seq<int>)

  const Unknown: string := "Unknown"

  function CellAt(row: seq<string>, i: nat): Option<string> {
    if i < |row| then Some(row[i]) else None
  }

  /** `row[xIndex]?.toString() || "Unknown"` */
  function Category(row: seq<string>, xIndex: nat): string {
    match CellAt(row, xIndex)
    case Some(c) => if c == "" then Unknown else c
    case None => Unknown
  }

  /** The row is counted: its category is neither blank nor "Unknown". */
  predicate Contributes(row: seq<string>, xIndex: nat) {
    !IsBlank(Category(row, xIndex)) && Category(row, xIndex) != Unknown
  }

  /** A row contributes exactly when its category cell exists, is not blank
      and is not literally "Unknown"; its category is then that cell. */
  lemma ContributesSpec(row: seq<string>, xIndex: nat)
    ensures Contributes(row, xIndex) <==> xIndex < |row| && !IsBlank(row[xIndex]) && row[xIndex] != Unknown
    ensures Contributes(row, xIndex) ==> Category(row, xIndex) == row[xIndex]
  {
    assert AllSpace("");
  }

  predicate IsStartTimeHeader(h: string) {
    Contains(Lower(h), "start time") || Contains(Lower(h), "starttime")
  }

  predicate IsCreatedHeader(h: string) {
    Contains(Lower(h), "created")
  }

  /** A header of the kind the file name asks for as its date column. */
  predicate IsDateHeader(t: Table, h: string) {
    if IsPreventiveReport(t.fileName) then IsStartTimeHeader(h)
    else IsPartsUsage(t.fileName) && IsCreatedHeader(h)
  }

  /** The implicit date column, chosen by file name: a "start time" header
      for preventive-maintenance reports, else a "created" header for
      parts-usage files, else none. */
  function DateColumn(t: Table): (r: Option<nat>)
    ensures r.Some? ==> r.value < |t.headers| && IsDateHeader(t, t.headers[r.value])
    ensures r.Some? ==> forall j :: 0 <= j < r.value ==> !IsDateHeader(t, t.headers[j])
    ensures r.None? <==> forall j :: 0 <= j < |t.headers| ==> !IsDateHeader(t, t.headers[j])
    ensures r.Some? && IsPreventiveReport(t.fileName) ==> IsStartTimeHeader(t.headers[r.value])
    ensures r.Some? && !IsPreventiveReport(t.fileName) ==> IsPartsUsage(t.fileName) && IsCreatedHeader(t.headers[r.value])
  {
    if IsPreventiveReport(t.fileName) then FirstWhere(t.headers, IsStartTimeHeader)
    else if IsPartsUsage(t.fileName) then FirstWhere(t.headers, IsCreatedHeader)
    else None
  }

  /** The value column: none when the card's `yColumn` is empty or names
      no header, which puts the aggregation in count mode. */
  function ValueColumn(t: Table, yColumn: string): (r: Option<nat>)
    ensures r.Some? ==> r.value < |t.headers| && t.headers[r.value] == yColumn && yColumn != ""
    ensures r.None? <==> yColumn == "" || yColumn !in t.headers
  {
    if yColumn == "" then None else IndexOf(t.headers, yColumn)
  }

  /** The row's valid date: an empty or missing cell is no date, and an
      unparsable one is dropped. */
  function RowDate(row: seq<string>, dateIndex: Option<nat>, parseDate: string -> Option<int>): Option<int> {
    match dateIndex
    case None => None
    case Some(d) =>
      match CellAt(row, d)
      case Some(s) => if s == "" then None else parseDate(s)
      case None => None
  }

  predicate IsNumericChar(c: char) {
    '0' <= c <= '9' || c == '.' || c == '-'
  }

  predicate NotComma(c: char) {
    c != ','
  }

  /** `.replace(/[^\d.-]/g, "").replace(/,/g, "")` */
  function CleanNumber(s: string): string {
    Filter(Filter(s, IsNumericChar), NotComma)
  }

  /** Only digits, dots and minus signs survive, each one kept; the comma
      pass that follows can never find a comma. */
  lemma CleanNumberSpec(s: string)
    ensures CleanNumber(s) == Filter(s, IsNumericChar)
    ensures forall k :: 0 <= k < |CleanNumber(s)| ==> IsNumericChar(CleanNumber(s)[k])
    ensures forall k :: 0 <= k < |s| && IsNumericChar(s[k]) ==> s[k] in CleanNumber(s)
  {
    FilterAllPass(Filter(s, IsNumericChar), NotComma);
  }

  /** What one row adds: 1 in count mode; in value mode 0 for a missing or
      empty cell, else the parsed cleaned cell, or 1 when it does not parse. */
  function Amount(row: seq<string>, yIndex: Option<nat>, parseNumber: string -> Option<real>): real {
    match yIndex
    case None => 1.0
    case Some(j) =>
      match CellAt(row, j)
      case None => 0.0
      case Some(s) =>
        if s == "" then 0.0
        else
          match parseNumber(CleanNumber(s))
          case None => 1.0
          case Some(v) => v
  }

  function RowEntry(row: seq<string>, cols: Resolved, pl: Platform): Entry {
    Entry(Category(row, cols.xIndex), Amount(row, cols.yIndex, pl.parseNumber), RowDate(row, cols.dateIndex, pl.parseDate))
  }

  /** The entries of the contributing rows, in row order. */
  function Entries(rows: seq<seq<string>>, cols: Resolved, pl: Platform): (es: seq<Entry>)
    ensures |es| <= |rows|
    ensures forall k :: 0 <= k < |es| ==> !IsBlank(es[k].key) && es[k].key != Unknown
  {
    if |rows| == 0 then []
    else
      var last := rows[|rows| - 1];
      Entries(rows[..|rows| - 1], cols, pl) + (if Contributes(last, cols.xIndex) then [RowEntry(last, cols, pl)] else [])
  }

  function GroupIndex(gs: seq<Group>, key: string): (r: Option<nat>)
    ensures r.Some? ==> r.value < |gs| && gs[r.value].name == key
    ensures r.None? <==> forall i :: 0 <= i < |gs| ==> gs[i].name != key
  {
    FirstWhere(gs, (g: Group) => g.name == key)
  }

  function DateList(d: Option<int>): seq<int> {
    if d.Some? then [d.value] else []
  }

  /** `dataMap.set(xValue, ...)`: update the entry's group in place, or
      append a new group at the end (Map insertion order). */
  function AddEntry(gs: seq<Group>, e: Entry): seq<Group> {
    match GroupIndex(gs, e.key)
    case Some(i) => gs[i := Group(gs[i].name, gs[i].total + e.amount, gs[i].dates + DateList(e.date))]
    case None => gs + [Group(e.key, e.amount, DateList(e.date))]
  }

  /** The `dataMap` after the `forEach` over the rows. */
  function Groups(es: seq<Entry>): seq<Group> {
    if |es| == 0 then [] else AddEntry(Groups(es[..|es| - 1]), es[|es| - 1])
  }

  // Reference definitions the grouping is proved against.

  predicate HasKey(es: seq<Entry>, key: string) {
    exists j :: 0 <= j < |es| && es[j].key == key
  }

  /** Sum of the amounts of the entries with this key. */
  function SumFor(es: seq<Entry>, key: string): real {
    if |es| == 0 then 0.0
    else SumFor(es[..|es| - 1], key) + (if es[|es| - 1].key == key then es[|es| - 1].amount else 0.0)
  }

  /** The valid dates of the entries with this key, in row order. */
  function DatesFor(es: seq<Entry>, key: string): seq<int> {
    if |es| == 0 then []
    else DatesFor(es[..|es| - 1], key) + (if es[|es| - 1].key == key then DateList(es[|es| - 1].date) else [])
  }

  /** Position of the first entry with this key. */
  function FirstSeen(es: seq<Entry>, key: string): (r: Option<nat>)
    ensures r.Some? ==> r.value < |es| && es[r.value].key == key
  {
    if |es| == 0 then None
    else
      match FirstSeen(es[..|es| - 1], key)
      case Some(i) => Some(i)
      case None => if es[|es| - 1].key == key then Some(|es| - 1) else None
  }

  /** `FirstSeen` finds a key exactly when it occurs, and no earlier entry
      has it. */
  lemma {:induction false} FirstSeenSpec(es: seq<Entry>, key: string)
    ensures FirstSeen(es, key).None? <==> !HasKey(es, key)
    ensures FirstSeen(es, key).Some? ==> forall j :: 0 <= j < FirstSeen(es, key).value ==> es[j].key != key
  {
    if |es| > 0 {
      var init := es[..|es| - 1];
      FirstSeenSpec(init, key);
      HasKeySnoc(es, key);
      assert forall j :: 0 <= j < |init| ==> init[j] == es[j];
    }
  }

  function Names(gs: seq<Group>): (r: seq<string>)
    ensures |r| == |gs| && forall i :: 0 <= i < |gs| ==> r[i] == gs[i].name
  {
    seq(|gs|, i requires 0 <= i < |gs| => gs[i].name)
  }

  predicate Distinct(xs: seq<string>) {
    forall i, j :: 0 <= i < j < |xs| ==> xs[i] != xs[j]
  }

  lemma {:induction false} AbsentKey(es: seq<Entry>, key: string)
    requires !HasKey(es, key)
    ensures SumFor(es, key) == 0.0 && DatesFor(es, key) == []
  {
    if |es| > 0 {
      AbsentKey(es[..|es| - 1], key);
    }
  }

  lemma HasKeySnoc(es: seq<Entry>, key: string)
    requires |es| > 0
    ensures HasKey(es, key) <==> HasKey(es[..|es| - 1], key) || es[|es| - 1].key == key
  {
    var init := es[..|es| - 1];
    if HasKey(init, key) {
      var j :| 0 <= j < |init| && init[j].key == key;
      assert es[j] == init[j];
    }
    if HasKey(es, key) && es[|es| - 1].key != key {
      var j :| 0 <= j < |es| && es[j].key == key;
      assert init[j] == es[j];
    }
  }

  /** One step keeps the names in place and appends the key when new. */
  lemma AddEntryNames(gs: seq<Group>, e: Entry)
    ensures Names(AddEntry(gs, e)) == if e.key in Names(gs) then Names(gs) else Names(gs) + [e.key]
  {
    var r := AddEntry(gs, e);
    match GroupIndex(gs, e.key)
    case Some(i) =>
      assert e.key in Names(gs) by { assert Names(gs)[i] == e.key; }
      assert Names(r) == Names(gs);
    case None =>
      assert e.key !in Names(gs);
      assert Names(r) == Names(gs) + [e.key];
  }

  /** One step keeps every existing group's name at its position and adds
      a group for the key only when it is new. */
  lemma AddEntryShape(gs: seq<Group>, e: Entry)
    ensures |AddEntry(gs, e)| == if e.key in Names(gs) then |gs| else |gs| + 1
    ensures forall i :: 0 <= i < |gs| ==> AddEntry(gs, e)[i].name == gs[i].name
    ensures e.key !in Names(gs) ==> AddEntry(gs, e)[|gs|].name == e.key
  {
    AddEntryNames(gs, e);
    var r := AddEntry(gs, e);
    forall i | 0 <= i < |gs| ensures r[i].name == gs[i].name {
      assert Names(r)[i] == Names(gs)[i];
    }
    if e.key !in Names(gs) {
      assert Names(r)[|gs|] == e.key;
    }
  }

  /** One step adds the entry's amount and date to its own group only. */
  lemma AddEntryTotals(gs: seq<Group>, e: Entry)
    requires Distinct(Names(gs))
    ensures forall k :: 0 <= k < |gs| ==>
      AddEntry(gs, e)[k].total == gs[k].total + (if gs[k].name == e.key then e.amount else 0.0)
      && AddEntry(gs, e)[k].dates == gs[k].dates + (if gs[k].name == e.key then DateList(e.date) else [])
    ensures e.key !in Names(gs) ==> AddEntry(gs, e)[|gs|] == Group(e.key, e.amount, DateList(e.date))
  {
    match GroupIndex(gs, e.key)
    case Some(i) =>
      forall k | 0 <= k < |gs| && k != i ensures gs[k].name != e.key {
        assert Names(gs)[k] != Names(gs)[i];
      }
    case None =>
  }

  /** The group names are the distinct keys, each once, in the order of
      their first entry. */
  lemma {:induction false} GroupsNames(es: seq<Entry>)
    ensures Distinct(Names(Groups(es)))
    ensures forall key :: key in Names(Groups(es)) <==> HasKey(es, key)
  {
    if |es| > 0 {
      var init := es[..|es| - 1];
      var e := es[|es| - 1];
      GroupsNames(init);
      AddEntryNames(Groups(init), e);
      forall key ensures HasKey(es, key) <==> HasKey(init, key) || e.key == key {
        HasKeySnoc(es, key);
      }
    }
  }

  /** Every group holds exactly the sum and the dates of its key's entries. */
  lemma {:induction false} GroupsTotals(es: seq<Entry>)
    ensures forall i :: 0 <= i < |Groups(es)| ==>
      Groups(es)[i].total == SumFor(es, Groups(es)[i].name) && Groups(es)[i].dates == DatesFor(es, Groups(es)[i].name)
  {
    if |es| > 0 {
      var init := es[..|es| - 1];
      var e := es[|es| - 1];
      GroupsTotals(init);
      GroupsNames(init);
      var prev := Groups(init);
      var gs := Groups(es);
      assert gs == AddEntry(prev, e);
      AddEntryTotals(prev, e);
      AddEntryShape(prev, e);
      if e.key !in Names(prev) {
        assert !HasKey(init, e.key);
        AbsentKey(init, e.key);
      }
      forall i | 0 <= i < |gs|
        ensures gs[i].total == SumFor(es, gs[i].name) && gs[i].dates == DatesFor(es, gs[i].name)
      {
        if i < |prev| {
          assert gs[i].name == prev[i].name;
        } else {
          assert gs[i] == Group(e.key, e.amount, DateList(e.date));
        }
      }
    }
  }

  /** The facts about one group: its key occurs, and it holds that key's
      sum and dates. */
  lemma GroupFacts(es: seq<Entry>, i: nat)
    requires i < |Groups(es)|
    ensures HasKey(es, Groups(es)[i].name)
    ensures Groups(es)[i].total == SumFor(es, Groups(es)[i].name)
    ensures Groups(es)[i].dates == DatesFor(es, Groups(es)[i].name)
  {
    GroupsNames(es);
    GroupsTotals(es);
    assert Names(Groups(es))[i] == Groups(es)[i].name;
  }

  /** `getChartData` groups by key: one group per key that occurs, none
      for a key that does not, each with its key's full sum and dates. */
  lemma GroupsSpec(es: seq<Entry>)
    ensures Distinct(Names(Groups(es)))
    ensures forall key :: key in Names(Groups(es)) <==> HasKey(es, key)
    ensures forall i :: 0 <= i < |Groups(es)| ==>
      Groups(es)[i].total == SumFor(es, Groups(es)[i].name) && Groups(es)[i].dates == DatesFor(es, Groups(es)[i].name)
  {
    GroupsNames(es);
    GroupsTotals(es);
  }

  /** Groups appear in the order their keys first occur (Map insertion
      order). */
  lemma {:induction false} GroupsOrder(es: seq<Entry>)
    ensures forall i :: 0 <= i < |Groups(es)| ==> FirstSeen(es, Groups(es)[i].name).Some?
    ensures forall i, j :: 0 <= i < j < |Groups(es)| ==>
      FirstSeen(es, Groups(es)[i].name).value < FirstSeen(es, Groups(es)[j].name).value
  {
    if |es| > 0 {
      var init := es[..|es| - 1];
      var e := es[|es| - 1];
      var prev := Groups(init);
      var gs := Groups(es);
      assert gs == AddEntry(prev, e);
      GroupsOrder(init);
      GroupsNames(init);
      AddEntryShape(prev, e);
      forall i | 0 <= i < |prev|
        ensures FirstSeen(es, gs[i].name) == FirstSeen(init, prev[i].name)
        ensures FirstSeen(init, prev[i].name).value < |init|
      {
        assert FirstSeen(init, prev[i].name).Some?;
      }
      if e.key !in Names(prev) {
        assert !HasKey(init, e.key);
        FirstSeenSpec(init, e.key);
        assert FirstSeen(es, gs[|prev|].name) == Some(|es| - 1);
      }
    }
  }

  function MinOf(xs: seq<int>): (m: int)
    requires |xs| > 0
    ensures m in xs && forall k :: 0 <= k < |xs| ==> m <= xs[k]
  {
    if |xs| == 1 then xs[0]
    else
      var m := MinOf(xs[1..]);
      if xs[0] <= m then xs[0] else m
  }

  function MaxOf(xs: seq<int>): (m: int)
    requires |xs| > 0
    ensures m in xs && forall k :: 0 <= k < |xs| ==> xs[k] <= m
  {
    if |xs| == 1 then xs[0]
    else
      var m := MaxOf(xs[1..]);
      if xs[0] >= m then xs[0] else m
  }

  /** The earliest and latest date, formatted; one date when they agree;
      empty when the group has no valid date. */
  function DateRange(dates: seq<int>, formatDate: int -> string): (r: string)
    ensures |dates| == 0 ==> r == ""
  {
    if |dates| == 0 then ""
    else if MinOf(dates) == MaxOf(dates) then formatDate(MinOf(dates))
    else formatDate(MinOf(dates)) + " - " + formatDate(MaxOf(dates))
  }

  /** The range is "earliest - latest" for any two dates that bound the
      others, or the one date when all dates coincide. */
  lemma DateRangeSpec(dates: seq<int>, formatDate: int -> string)
    ensures |dates| > 0 && (forall k :: 0 <= k < |dates| ==> dates[k] == dates[0]) ==>
      DateRange(dates, formatDate) == formatDate(dates[0])
    ensures forall a, b :: a in dates && b in dates && a != b && (forall k :: 0 <= k < |dates| ==> a <= dates[k] <= b) ==>
      DateRange(dates, formatDate) == formatDate(a) + " - " + formatDate(b)
  {
    if |dates| > 0 && (forall k :: 0 <= k < |dates| ==> dates[k] == dates[0]) {
      assert MinOf(dates) == dates[0] && MaxOf(dates) == dates[0];
    }
    forall a, b | a in dates && b in dates && a != b && (forall k :: 0 <= k < |dates| ==> a <= dates[k] <= b)
      ensures DateRange(dates, formatDate) == formatDate(a) + " - " + formatDate(b)
    {
      assert MinOf(dates) == a && MaxOf(dates) == b;
    }
  }

  function ToPoint(g: Group, formatDate: int -> string): Point {
    Point(g.name, g.total, DateRange(g.dates, formatDate))
  }

  function Points(gs: seq<Group>, formatDate: int -> string): (ps: seq<Point>)
    ensures |ps| == |gs| && forall i :: 0 <= i < |gs| ==> ps[i] == ToPoint(gs[i], formatDate)
  {
    seq(|gs|, i requires 0 <= i < |gs| => ToPoint(gs[i], formatDate))
  }

  /** The entries one chart aggregates: none when its category column is
      not a header. */
  function ChartEntries(t: Table, xColumn: string, yColumn: string, pl: Platform): seq<Entry> {
    match IndexOf(t.headers, xColumn)
    case None => []
    case Some(xi) => Entries(t.rows, Resolved(xi, ValueColumn(t, yColumn), DateColumn(t)), pl)
  }

  /** The `map`/`filter`/`sort` tail of `getChartData`: one point per
      group, positive totals only, largest first. */
  function Summarize(gs: seq<Group>, formatDate: int -> string): seq<Point> {
    SortDesc(Positive(Points(gs, formatDate)))
  }

  /** `getChartData` on a loaded table. */
  function ChartData(t: Table, xColumn: string, yColumn: string, pl: Platform): (r: seq<Point>)
    ensures xColumn !in t.headers ==> r == []
  {
    match IndexOf(t.headers, xColumn)
    case None => []
    case Some(_) => Summarize(Groups(ChartEntries(t, xColumn, yColumn, pl)), pl.formatDate)
  }

  /** `r` holds exactly the points of `ps` with a positive value. */
  predicate PositiveImage(r: seq<Point>, ps: seq<Point>) {
    (forall k :: 0 <= k < |r| ==> r[k] in ps && r[k].value > 0.0)
    && (forall i :: 0 <= i < |ps| && ps[i].value > 0.0 ==> ps[i] in r)
  }

  /** The tail of the pipeline keeps exactly the positive points. */
  lemma PositiveSortedElements(ps: seq<Point>)
    ensures PositiveImage(SortDesc(Positive(ps)), ps)
  {
    var pos := Positive(ps);
    var r := SortDesc(pos);
    SortDescPermutes(pos);
    forall k | 0 <= k < |r| ensures r[k] in ps && r[k].value > 0.0 {
      assert r[k] in multiset(pos);
    }
    forall i | 0 <= i < |ps| && ps[i].value > 0.0 ensures ps[i] in r {
      assert ps[i] in multiset(pos);
      assert ps[i] in multiset(r);
    }
  }

  /** Every point is the image of a group with a positive total, and every
      such group has its point. */
  lemma ChartDataElements(t: Table, xColumn: string, yColumn: string, pl: Platform)
    ensures PositiveImage(ChartData(t, xColumn, yColumn, pl), Points(Groups(ChartEntries(t, xColumn, yColumn, pl)), pl.formatDate))
  {
    var gs := Groups(ChartEntries(t, xColumn, yColumn, pl));
    if xColumn in t.headers {
      PositiveSortedElements(Points(gs, pl.formatDate));
    } else {
      assert ChartEntries(t, xColumn, yColumn, pl) == [];
    }
  }

  /** A category appears in the chart exactly when some contributing row
      has it and its total is positive; its value is that total and its
      range spans that category's dates. */
  lemma ChartDataMembers(t: Table, xColumn: string, yColumn: string, pl: Platform, name: string)
    ensures var es := ChartEntries(t, xColumn, yColumn, pl);
      var r := ChartData(t, xColumn, yColumn, pl);
      ((exists k :: 0 <= k < |r| && r[k].name == name) <==> HasKey(es, name) && SumFor(es, name) > 0.0)
      && (forall k :: 0 <= k < |r| && r[k].name == name ==>
            r[k].value == SumFor(es, name) && r[k].dateRange == DateRange(DatesFor(es, name), pl.formatDate))
  {
    var es := ChartEntries(t, xColumn, yColumn, pl);
    var gs := Groups(es);
    var ps := Points(gs, pl.formatDate);
    var r := ChartData(t, xColumn, yColumn, pl);
    ChartDataElements(t, xColumn, yColumn, pl);
    if HasKey(es, name) && SumFor(es, name) > 0.0 {
      GroupsNames(es);
      var i :| 0 <= i < |gs| && Names(gs)[i] == name;
      GroupFacts(es, i);
      assert ps[i] in r;
      var k :| 0 <= k < |r| && r[k] == ps[i];
      assert r[k].name == name;
    }
    forall k | 0 <= k < |r| && r[k].name == name
      ensures HasKey(es, name) && SumFor(es, name) > 0.0
      ensures r[k].value == SumFor(es, name) && r[k].dateRange == DateRange(DatesFor(es, name), pl.formatDate)
    {
      assert r[k] in ps;
      var i :| 0 <= i < |ps| && ps[i] == r[k];
      GroupFacts(es, i);
    }
  }

  /** The chart's invariants: sorted by value descending, every value
      positive, names distinct and never blank or "Unknown". */
  lemma ChartDataShape(t: Table, xColumn: string, yColumn: string, pl: Platform)
    ensures var r := ChartData(t, xColumn, yColumn, pl);
      SortedDesc(r) && DistinctNames(r)
      && forall k :: 0 <= k < |r| ==> r[k].value > 0.0 && !IsBlank(r[k].name) && r[k].name != Unknown
  {
    var es := ChartEntries(t, xColumn, yColumn, pl);
    var gs := Groups(es);
    var r := ChartData(t, xColumn, yColumn, pl);
    if xColumn in t.headers {
      var ps := Points(gs, pl.formatDate);
      GroupsSpec(es);
      assert DistinctNames(ps) by {
        forall i, j | 0 <= i < j < |ps| ensures ps[i].name != ps[j].name {
          assert Names(gs)[i] != Names(gs)[j];
        }
      }
      PositiveDistinct(ps);
      SortDescDistinct(Positive(ps));
      SortDescSorted(Positive(ps));
      ChartDataElements(t, xColumn, yColumn, pl);
      forall k | 0 <= k < |r| ensures r[k].value > 0.0 && !IsBlank(r[k].name) && r[k].name != Unknown {
        assert r[k] in ps;
        var i :| 0 <= i < |ps| && ps[i] == r[k];
        assert Names(gs)[i] == gs[i].name;
        assert HasKey(es, gs[i].name);
        var j :| 0 <= j < |es| && es[j].key == gs[i].name;
      }
    }
  }

  /** Points of equal value keep the order in which their categories first
      occur in the rows. */
  lemma ChartDataTies(t: Table, xColumn: string, yColumn: string, pl: Platform, v: real)
    requires xColumn in t.headers && v > 0.0
    ensures WithValue(ChartData(t, xColumn, yColumn, pl), v)
      == WithValue(Points(Groups(ChartEntries(t, xColumn, yColumn, pl)), pl.formatDate), v)
  {
    var ps := Points(Groups(ChartEntries(t, xColumn, yColumn, pl)), pl.formatDate);
    SortDescStable(Positive(ps), v);
    PositiveWithValue(ps, v);
  }

  /** The rows whose category cell equals `item` (the drill-down filter). */
  function MatchingRows(rows: seq<seq<string>>, xIndex: nat, item: string): (r: seq<seq<string>>)
    ensures |r| <= |rows|
    ensures forall k :: 0 <= k < |r| ==> r[k] in rows && xIndex < |r[k]| && r[k][xIndex] == item
    ensures forall k :: 0 <= k < |rows| && xIndex < |rows[k]| && rows[k][xIndex] == item ==> rows[k] in r
  {
    if |rows| == 0 then []
    else
      var last := rows[|rows| - 1];
      MatchingRows(rows[..|rows| - 1], xIndex, item) + (if xIndex < |last| && last[xIndex] == item then [last] else [])
  }

  /** The drill-down filter works row by row, so the matching rows keep
      their order: it distributes over concatenation. */
  lemma {:induction false} MatchingRowsAppend(a: seq<seq<string>>, b: seq<seq<string>>, xIndex: nat, item: string)
    ensures MatchingRows(a + b, xIndex, item) == MatchingRows(a, xIndex, item) + MatchingRows(b, xIndex, item)
    decreases |b|
  {
    if |b| == 0 {
      assert a + b == a;
    } else {
      var init := b[..|b| - 1];
      var last := b[|b| - 1];
      assert a + b == (a + init) + [last];
      assert b == init + [last];
      MatchingRowsSnoc(a + init, last, xIndex, item);
      MatchingRowsSnoc(init, last, xIndex, item);
      MatchingRowsAppend(a, init, xIndex, item);
    }
  }

  /** One step of the drill-down filter: a row appended at the end. */
  lemma MatchingRowsSnoc(rows: seq<seq<string>>, row: seq<string>, xIndex: nat, item: string)
    ensures MatchingRows(rows + [row], xIndex, item) ==
      MatchingRows(rows, xIndex, item) + (if xIndex < |row| && row[xIndex] == item then [row] else [])
  {
    assert (rows + [row])[..|rows|] == rows;
  }

  /** A single row is kept exactly when its category cell is the item. */
  lemma MatchingRowsSingle(row: seq<string>, xIndex: nat, item: string)
    ensures MatchingRows([row], xIndex, item) == if xIndex < |row| && row[xIndex] == item then [row] else []
  {
    assert [row][..0] == [];
  }

  /** Every matching row is kept as often as it occurs; every other row
      is dropped entirely. */
  lemma {:induction false} MatchingRowsMultiset(rows: seq<seq<string>>, xIndex: nat, item: string, row: seq<string>)
    ensures multiset(MatchingRows(rows, xIndex, item))[row] ==
      if xIndex < |row| && row[xIndex] == item then multiset(rows)[row] else 0
  {
    if |rows| > 0 {
      var init := rows[..|rows| - 1];
      var last := rows[|rows| - 1];
      var tail := if xIndex < |last| && last[xIndex] == item then [last] else [];
      MatchingRowsMultiset(init, xIndex, item, row);
      MultisetSnoc(rows);
      assert MatchingRows(rows, xIndex, item) == MatchingRows(init, xIndex, item) + tail;
      assert multiset(MatchingRows(rows, xIndex, item)) == multiset(MatchingRows(init, xIndex, item)) + multiset(tail);
    }
  }

  /** `getMaintenanceDetails`: the records behind one chart item. */
  function Details(t: Table, xColumn: string, item: string): (r: seq<seq<string>>)
    ensures xColumn !in t.headers ==> r == []
  {
    match IndexOf(t.headers, xColumn)
    case None => []
    case Some(xi) => MatchingRows(t.rows, xi, item)
  }

  /** In count mode a category's total is the number of rows whose
      category cell is exactly that name. */
  lemma {:induction false} CountModeSum(rows: seq<seq<string>>, cols: Resolved, pl: Platform, key: string)
    requires cols.yIndex.None?
    requires !IsBlank(key) && key != Unknown
    ensures SumFor(Entries(rows, cols, pl), key) == |MatchingRows(rows, cols.xIndex, key)| as real
  {
    if |rows| > 0 {
      var init := rows[..|rows| - 1];
      var last := rows[|rows| - 1];
      CountModeSum(init, cols, pl, key);
      ContributesSpec(last, cols.xIndex);
      var es := Entries(rows, cols, pl);
      var prev := Entries(init, cols, pl);
      if Contributes(last, cols.xIndex) {
        assert es[..|es| - 1] == prev;
      } else {
        assert es == prev;
        assert !(cols.xIndex < |last| && last[cols.xIndex] == key);
      }
    }
  }

  /** In count mode every entry adds one. */
  lemma {:induction false} CountModeAmounts(rows: seq<seq<string>>, cols: Resolved, pl: Platform)
    requires cols.yIndex.None?
    ensures forall k :: 0 <= k < |Entries(rows, cols, pl)| ==> Entries(rows, cols, pl)[k].amount == 1.0
  {
    if |rows| > 0 {
      CountModeAmounts(rows[..|rows| - 1], cols, pl);
    }
  }

  /** When every entry adds one, a key that occurs has a total of at
      least one. */
  lemma {:induction false} CountSumAtLeastOne(es: seq<Entry>, key: string)
    requires forall k :: 0 <= k < |es| ==> es[k].amount == 1.0
    requires HasKey(es, key)
    ensures SumFor(es, key) >= 1.0
  {
    var init := es[..|es| - 1];
    HasKeySnoc(es, key);
    if HasKey(init, key) {
      CountSumAtLeastOne(init, key);
      assert SumFor(es, key) >= SumFor(init, key);
    } else {
      AbsentKey(init, key);
    }
  }

  /** One grouping step adds the entry's amount to the total over the
      groups. */
  lemma AddEntryTotalValue(gs: seq<Group>, e: Entry, formatDate: int -> string)
    ensures TotalValue(Points(AddEntry(gs, e), formatDate)) == TotalValue(Points(gs, formatDate)) + e.amount
  {
    var r := AddEntry(gs, e);
    match GroupIndex(gs, e.key)
    case Some(i) =>
      var g := Group(gs[i].name, gs[i].total + e.amount, gs[i].dates + DateList(e.date));
      assert r == gs[i := g];
      TotalAfterUpdate(gs, i, g, formatDate);
    case None =>
      var g := Group(e.key, e.amount, DateList(e.date));
      assert r == gs + [g];
      TotalAfterSnoc(gs, g, formatDate);
  }

  lemma TotalAfterUpdate(gs: seq<Group>, i: nat, g: Group, formatDate: int -> string)
    requires i < |gs|
    ensures TotalValue(Points(gs[i := g], formatDate)) == TotalValue(Points(gs, formatDate)) - gs[i].total + g.total
  {
    var ps := Points(gs, formatDate);
    assert Points(gs[i := g], formatDate) == ps[i := ToPoint(g, formatDate)];
    TotalValueUpdate(ps, i, ToPoint(g, formatDate));
  }

  lemma TotalAfterSnoc(gs: seq<Group>, g: Group, formatDate: int -> string)
    ensures TotalValue(Points(gs + [g], formatDate)) == TotalValue(Points(gs, formatDate)) + g.total
  {
    var ps := Points(gs, formatDate);
    assert Points(gs + [g], formatDate) == ps + [ToPoint(g, formatDate)];
    TotalValueAppend(ps, [ToPoint(g, formatDate)]);
    assert TotalValue([ToPoint(g, formatDate)]) == g.total;
  }

  /** When every entry adds one, the totals over all groups add up to the
      number of entries. */
  lemma {:induction false} CountGroupsTotal(es: seq<Entry>, formatDate: int -> string)
    requires forall k :: 0 <= k < |es| ==> es[k].amount == 1.0
    ensures TotalValue(Points(Groups(es), formatDate)) == |es| as real
  {
    if |es| > 0 {
      CountGroupsTotal(es[..|es| - 1], formatDate);
      AddEntryTotalValue(Groups(es[..|es| - 1]), es[|es| - 1], formatDate);
    } else {
      assert Points([], formatDate) == [];
    }
  }

  /** In count mode every contributing row is charted: the bars add up to
      the number of contributing rows and every category of such a row has
      its bar. */
  lemma CountModeTotal(t: Table, xColumn: string, yColumn: string, pl: Platform)
    requires yColumn == "" || yColumn !in t.headers
    ensures TotalValue(ChartData(t, xColumn, yColumn, pl)) == |ChartEntries(t, xColumn, yColumn, pl)| as real
    ensures var es := ChartEntries(t, xColumn, yColumn, pl); var r := ChartData(t, xColumn, yColumn, pl);
      forall k :: 0 <= k < |es| ==> exists j :: 0 <= j < |r| && r[j].name == es[k].key
  {
    var es := ChartEntries(t, xColumn, yColumn, pl);
    var r := ChartData(t, xColumn, yColumn, pl);
    if xColumn in t.headers {
      var xi := IndexOf(t.headers, xColumn).value;
      CountModeAmounts(t.rows, Resolved(xi, ValueColumn(t, yColumn), DateColumn(t)), pl);
      var gs := Groups(es);
      var ps := Points(gs, pl.formatDate);
      forall i | 0 <= i < |ps| ensures ps[i].value > 0.0 {
        GroupFacts(es, i);
        CountSumAtLeastOne(es, gs[i].name);
      }
      PositiveAllPositive(ps);
      SortDescTotal(ps);
      CountGroupsTotal(es, pl.formatDate);
      forall k | 0 <= k < |es| ensures exists j :: 0 <= j < |r| && r[j].name == es[k].key {
        assert HasKey(es, es[k].key);
        CountSumAtLeastOne(es, es[k].key);
        ChartDataMembers(t, xColumn, yColumn, pl, es[k].key);
      }
    } else {
      assert es == [] && r == [];
    }
  }

  /** Without a value column the bar for a category is as tall as the
      drill-down list for it is long. */
  lemma CountModeMatchesDetails(t: Table, xColumn: string, yColumn: string, pl: Platform)
    requires yColumn == "" || yColumn !in t.headers
    ensures var r := ChartData(t, xColumn, yColumn, pl);
      forall k :: 0 <= k < |r| ==> r[k].value == |Details(t, xColumn, r[k].name)| as real
  {
    var r := ChartData(t, xColumn, yColumn, pl);
    ChartDataShape(t, xColumn, yColumn, pl);
    if xColumn in t.headers {
      var xi := IndexOf(t.headers, xColumn).value;
      var cols := Resolved(xi, ValueColumn(t, yColumn), DateColumn(t));
      forall k | 0 <= k < |r| ensures r[k].value == |Details(t, xColumn, r[k].name)| as real {
        ChartDataMembers(t, xColumn, yColumn, pl, r[k].name);
        CountModeSum(t.rows, cols, pl, r[k].name);
      }
    }
  }
}
