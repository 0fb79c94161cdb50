/** The two-dataset dashboard page: each slot holds at most one loaded
    table and its own list of chart cards. */
module Dashboard {
  import opened Wrappers
  import opened Seqs
  import opened Csv
  import opened Tables
  import opened Columns
  import opened Charts
  import opened Sorting
  import opened Aggregate

  datatype Slot = First | Second

  /** `excelData1`/`excelData2` and `chartCards1`/`chartCards2`. */
  datatype Dashboard = Dashboard(data1: Option<Table>, data2: Option<Table>, cards1: seq<ChartCard<Slot>>, cards2: seq<ChartCard<Slot>>)

  /** The add-card form (`newCard`). */
  datatype CardForm = CardForm(name: string, kind: ChartKind, xColumn: string, yColumn: string)

  function DataOf(d: Dashboard, s: Slot): Option<Table> {
    if s == First then d.data1 else d.data2
  }

  function CardsOf(d: Dashboard, s: Slot): seq<ChartCard<Slot>> {
    if s == First then d.cards1 else d.cards2
  }

  function Other(s: Slot): Slot {
    if s == First then Second else First
  }

  function WithCards(d: Dashboard, s: Slot, cards: seq<ChartCard<Slot>>): (r: Dashboard)
    ensures CardsOf(r, s) == cards && CardsOf(r, Other(s)) == CardsOf(d, Other(s))
    ensures DataOf(r, First) == DataOf(d, First) && DataOf(r, Second) == DataOf(d, Second)
  {
    if s == First then d.(cards1 := cards) else d.(cards2 := cards)
  }

  function WithData(d: Dashboard, s: Slot, t: Table): (r: Dashboard)
    ensures DataOf(r, s) == Some(t) && DataOf(r, Other(s)) == DataOf(d, Other(s))
    ensures CardsOf(r, First) == CardsOf(d, First) && CardsOf(r, Second) == CardsOf(d, Second)
  {
    if s == First then d.(data1 := Some(t)) else d.(data2 := Some(t))
  }

  /** Every card sits in the list of the slot it names. */
  predicate CardsInOwnSlot(d: Dashboard) {
    (forall c :: c in d.cards1 ==> c.datasetId == First)
    && (forall c :: c in d.cards2 ==> c.datasetId == Second)
  }

  /** `handleFileUpload` after the file has been read into rows: nothing
      happens for an empty sheet; otherwise the slot gets the normalised
      table and its cards are replaced by the default charts for it. */
  function LoadSlot(d: Dashboard, s: Slot, raw: seq<seq<string>>, fileName: string, stamp: string): (r: Dashboard)
    ensures |raw| == 0 ==> r == d
    ensures DataOf(r, Other(s)) == DataOf(d, Other(s)) && CardsOf(r, Other(s)) == CardsOf(d, Other(s))
    ensures |raw| > 0 ==> DataOf(r, s) == Load(raw, fileName)
    ensures |raw| > 0 ==> CardsOf(r, s) == DefaultCharts(Load(raw, fileName).value, s, stamp)
    ensures |raw| > 0 ==> CardsFitHeaders(CardsOf(r, s), raw[0], s)
  {
    match Load(raw, fileName)
    case None => d
    case Some(t) => WithCards(WithData(d, s, t), s, DefaultCharts(t, s, stamp))
  }

  /** A CSV upload: the text parsed into rows, then loaded. */
  function UploadCsv(d: Dashboard, s: Slot, text: string, fileName: string, stamp: string): Dashboard {
    LoadSlot(d, s, CsvRows(text), fileName, stamp)
  }

  /** After a CSV upload with content, the slot's headers are the cleaned
      fields of the first non-blank line and every other line is a row. */
  lemma UploadCsvSpec(d: Dashboard, s: Slot, text: string, fileName: string, stamp: string)
    ensures |ContentLines(text)| == 0 ==> UploadCsv(d, s, text, fileName, stamp) == d
    ensures |ContentLines(text)| > 0 ==>
      var t := DataOf(UploadCsv(d, s, text, fileName, stamp), s).value;
      t.headers == LineRow(ContentLines(text)[0]) && |t.rows| == |ContentLines(text)| - 1 && t.fileName == fileName
  {
  }

  /** `addChartCard`: a card needs a name and a category column; it is
      appended to the active slot's list. */
  function AddChartCard(d: Dashboard, active: Slot, form: CardForm, stamp: string): (r: Dashboard)
    ensures form.name == "" || form.xColumn == "" ==> r == d
    ensures form.name != "" && form.xColumn != "" ==>
      CardsOf(r, active) == CardsOf(d, active) + [ChartCard(stamp, form.name, form.kind, form.xColumn, form.yColumn, active)]
    ensures CardsOf(r, Other(active)) == CardsOf(d, Other(active))
    ensures DataOf(r, First) == DataOf(d, First) && DataOf(r, Second) == DataOf(d, Second)
  {
    if form.name == "" || form.xColumn == "" then d
    else WithCards(d, active, CardsOf(d, active) + [ChartCard(stamp, form.name, form.kind, form.xColumn, form.yColumn, active)])
  }

  /** `removeChartCard`: drops the slot's cards with this id. */
  function RemoveChartCard(d: Dashboard, id: string, s: Slot): (r: Dashboard)
    ensures forall c :: c in CardsOf(r, s) <==> c in CardsOf(d, s) && c.id != id
    ensures forall c :: c in CardsOf(d, s) && c.id != id ==> multiset(CardsOf(r, s))[c] == multiset(CardsOf(d, s))[c]
    ensures CardsOf(r, Other(s)) == CardsOf(d, Other(s))
    ensures DataOf(r, First) == DataOf(d, First) && DataOf(r, Second) == DataOf(d, Second)
  {
    WithCards(d, s, RemoveCard(CardsOf(d, s), id))
  }

  /** The slot's surviving cards keep their order: removing from a split
      list is removing from each part. */
  lemma RemoveChartCardOrder(d: Dashboard, id: string, s: Slot, a: seq<ChartCard<Slot>>, b: seq<ChartCard<Slot>>)
    requires CardsOf(d, s) == a + b
    ensures CardsOf(RemoveChartCard(d, id, s), s) == RemoveCard(a, id) + RemoveCard(b, id)
  {
    RemoveCardAppend(a, b, id);
  }

  function PresetName(p: Preset): string {
    match p
    case StatusDistribution => "Status Distribution"
    case EquipmentAnalysis => "Equipment Analysis"
    case ApprovalWorkflow => "Approval Workflow"
    case MonthlyTrends => "Monthly Trends"
  }

  function PresetKind(p: Preset): ChartKind {
    match p
    case StatusDistribution => Pie
    case EquipmentAnalysis => Bar
    case ApprovalWorkflow => Bar
    case MonthlyTrends => Line
  }

  /** `addPresetChart`: without data nothing happens; otherwise a
      count-mode card on the preset's detected column is appended. */
  function AddPresetChart(d: Dashboard, p: Preset, s: Slot, stamp: string): (r: Dashboard)
    ensures DataOf(d, s).None? ==> r == d
    ensures DataOf(d, s).Some? ==>
      |CardsOf(r, s)| == |CardsOf(d, s)| + 1 && CardsOf(r, s)[..|CardsOf(d, s)|] == CardsOf(d, s)
    ensures DataOf(d, s).Some? ==>
      var c := CardsOf(r, s)[|CardsOf(d, s)|];
      c.yColumn == "" && c.datasetId == s && c.name == PresetName(p) && c.kind == PresetKind(p) && c.id == stamp
      && c.xColumn == PresetColumn(DataOf(d, s).value.headers, p)
      && (c.xColumn in DataOf(d, s).value.headers || c.xColumn == "")
    ensures CardsOf(r, Other(s)) == CardsOf(d, Other(s))
    ensures DataOf(r, First) == DataOf(d, First) && DataOf(r, Second) == DataOf(d, Second)
  {
    match DataOf(d, s)
    case None => d
    case Some(t) =>
      PresetColumnIsHeader(t.headers, p);
      WithCards(d, s, CardsOf(d, s) + [ChartCard(stamp, PresetName(p), PresetKind(p), PresetColumn(t.headers, p), "", s)])
  }

  /** `getChartData`: the card's slot table aggregated, or nothing when the
      slot is empty. */
  function SlotChartData(d: Dashboard, card: ChartCard<Slot>, pl: Platform): (r: seq<Point>)
    ensures DataOf(d, card.datasetId).None? ==> r == []
  {
    match DataOf(d, card.datasetId)
    case None => []
    case Some(t) => ChartData(t, card.xColumn, card.yColumn, pl)
  }

  /** `getMaintenanceDetails`: the records behind one chart item. */
  function SlotDetails(d: Dashboard, item: string, card: ChartCard<Slot>): (r: seq<seq<string>>)
    ensures DataOf(d, card.datasetId).None? ==> r == []
  {
    match DataOf(d, card.datasetId)
    case None => []
    case Some(t) => Details(t, card.xColumn, item)
  }

  /** Replacing one slot's cards by cards that name that slot keeps every
      card in its own slot's list. */
  lemma WithCardsInOwnSlot(d: Dashboard, s: Slot, cards: seq<ChartCard<Slot>>)
    requires CardsInOwnSlot(d)
    requires forall c :: c in cards ==> c.datasetId == s
    ensures CardsInOwnSlot(WithCards(d, s, cards))
  {
  }

  /** Loading a slot keeps every card in its own slot's list. */
  lemma LoadSlotKeepsCardsInOwnSlot(d: Dashboard, s: Slot, raw: seq<seq<string>>, fileName: string, stamp: string)
    requires CardsInOwnSlot(d)
    ensures CardsInOwnSlot(LoadSlot(d, s, raw, fileName, stamp))
  {
    match Load(raw, fileName)
    case None =>
    case Some(t) =>
      var d' := WithData(d, s, t);
      assert CardsInOwnSlot(d');
      WithCardsInOwnSlot(d', s, DefaultCharts(t, s, stamp));
  }

  lemma OwnSlotCards(d: Dashboard, s: Slot)
    requires CardsInOwnSlot(d)
    ensures forall c :: c in CardsOf(d, s) ==> c.datasetId == s
  {
  }

  /** Adding a card keeps every card in its own slot's list. */
  lemma AddChartCardKeepsCardsInOwnSlot(d: Dashboard, s: Slot, form: CardForm, stamp: string)
    requires CardsInOwnSlot(d)
    ensures CardsInOwnSlot(AddChartCard(d, s, form, stamp))
  {
    OwnSlotCards(d, s);
    var card := ChartCard(stamp, form.name, form.kind, form.xColumn, form.yColumn, s);
    WithCardsInOwnSlot(d, s, CardsOf(d, s) + [card]);
  }

  /** Removing a card keeps every card in its own slot's list. */
  lemma RemoveChartCardKeepsCardsInOwnSlot(d: Dashboard, s: Slot, id: string)
    requires CardsInOwnSlot(d)
    ensures CardsInOwnSlot(RemoveChartCard(d, id, s))
  {
    OwnSlotCards(d, s);
    WithCardsInOwnSlot(d, s, RemoveCard(CardsOf(d, s), id));
  }

  /** Adding a preset card keeps every card in its own slot's list. */
  lemma AddPresetChartKeepsCardsInOwnSlot(d: Dashboard, s: Slot, p: Preset, stamp: string)
    requires CardsInOwnSlot(d)
    ensures CardsInOwnSlot(AddPresetChart(d, p, s, stamp))
  {
    OwnSlotCards(d, s);
    match DataOf(d, s)
    case None =>
    case Some(t) =>
      var preset := ChartCard(stamp, PresetName(p), PresetKind(p), PresetColumn(t.headers, p), "", s);
      WithCardsInOwnSlot(d, s, CardsOf(d, s) + [preset]);
  }

  /** Loading one slot leaves the other slot's charts unchanged: the same
      cards over the same table give the same data. */
  lemma LoadSlotIsolated(d: Dashboard, s: Slot, raw: seq<seq<string>>, fileName: string, stamp: string,
                         card: ChartCard<Slot>, pl: Platform, item: string)
    requires card.datasetId == Other(s)
    ensures SlotChartData(LoadSlot(d, s, raw, fileName, stamp), card, pl) == SlotChartData(d, card, pl)
    ensures SlotDetails(LoadSlot(d, s, raw, fileName, stamp), item, card) == SlotDetails(d, item, card)
  {
  }

  /** A chart of a loaded slot is sorted, positive and duplicate-free, and
      in count mode each bar's value is the size of its drill-down list. */
  lemma SlotChartDataSpec(d: Dashboard, card: ChartCard<Slot>, pl: Platform)
    ensures var r := SlotChartData(d, card, pl);
      SortedDesc(r) && DistinctNames(r) && forall k :: 0 <= k < |r| ==> r[k].value > 0.0
    ensures card.yColumn == "" || (DataOf(d, card.datasetId).Some? && card.yColumn !in DataOf(d, card.datasetId).value.headers) ==>
      var r := SlotChartData(d, card, pl);
      forall k :: 0 <= k < |r| ==> r[k].value == |SlotDetails(d, r[k].name, card)| as real
  {
    match DataOf(d, card.datasetId)
    case None =>
    case Some(t) =>
      ChartDataShape(t, card.xColumn, card.yColumn, pl);
      if card.yColumn == "" || card.yColumn !in t.headers {
        CountModeMatchesDetails(t, card.xColumn, card.yColumn, pl);
      }
  }
}
