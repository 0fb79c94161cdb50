/** Chart cards and the rules that derive default cards from a freshly
    loaded table. A card names its table by a dataset id of type `D`: a
    slot number on the two-slot page, a file id in the multi-file view. */
module Charts {
  import opened Wrappers
  import opened Text
  import opened Seqs
  import opened Tables
  import opened Columns

  datatype ChartKind = Bar | Pie | Line

  /** A chart card. `yColumn == ""` selects count mode. */
  datatype ChartCard<D> = ChartCard(id: string, name: string, kind: ChartKind, xColumn: string, yColumn: string, datasetId: D)

  const PriceTerms: seq<string> := ["Total Price Part 1", "total price", "price", "cost"]
  const ModelTerms: seq<string> := ["Area Usage", "model", "equipment"]
  const MinutesTerms: seq<string> := ["Total Minutes", "minutes", "time", "duration"]
  const PartTerms: seq<string> := ["Preventive maintenance part", "maintenance part", "part", "component"]
  const ActivityTerms: seq<string> := ["Type Activity", "activity type", "activity", "type"]

  predicate IsPartsUsage(fileName: string) {
    Contains(Lower(fileName), "parts usage")
  }

  predicate IsPreventiveReport(fileName: string) {
    Contains(Lower(fileName), "preventive maintenance report")
  }

  /** Every card of `cards` reads columns of `headers` (or none, for count
      mode) and belongs to dataset `ds`. */
  predicate CardsFitHeaders<D(==)>(cards: seq<ChartCard<D>>, headers: seq<string>, ds: D) {
    forall c :: c in cards ==>
      c.xColumn in headers && (c.yColumn in headers || c.yColumn == "") && c.datasetId == ds
  }

  lemma CardsFitHeadersAppend<D>(a: seq<ChartCard<D>>, b: seq<ChartCard<D>>, headers: seq<string>, ds: D)
    requires CardsFitHeaders(a, headers, ds) && CardsFitHeaders(b, headers, ds)
    ensures CardsFitHeaders(a + b, headers, ds)
  {
    forall c | c in a + b ensures c in a || c in b {
    }
  }

  /** The "parts usage" rule: a "Cost Part" bar of the price column
      grouped by the area/model column, when both are found. */
  function CostPartCharts<D(==)>(headers: seq<string>, ds: D, stamp: string): (r: seq<ChartCard<D>>)
    ensures CardsFitHeaders(r, headers, ds)
    ensures |r| <= 1 && forall c :: c in r ==> IsCostPart(c)
  {
    var price := FindColumn(headers, PriceTerms);
    var model := FindColumn(headers, ModelTerms);
    if price.Some? && model.Some? then
      [ChartCard("default-cost-" + stamp, "Cost Part", Bar, model.value, price.value, ds)]
    else []
  }

  /** The "Time Consume" bar of the minutes column grouped by the part
      column, when both are found. */
  function TimeConsumeCharts<D(==)>(headers: seq<string>, ds: D, stamp: string): (r: seq<ChartCard<D>>)
    ensures CardsFitHeaders(r, headers, ds)
    ensures |r| <= 1 && forall c :: c in r ==> IsTimeConsume(c)
  {
    var minutes := FindColumn(headers, MinutesTerms);
    var part := FindColumn(headers, PartTerms);
    if minutes.Some? && part.Some? then
      [ChartCard("default-time-" + stamp, "Time Consume", Bar, part.value, minutes.value, ds)]
    else []
  }

  /** The "Activity" pie counting the activity column, when it is found. */
  function ActivityCharts<D(==)>(headers: seq<string>, ds: D, stamp: string): (r: seq<ChartCard<D>>)
    ensures CardsFitHeaders(r, headers, ds)
    ensures |r| <= 1 && forall c :: c in r ==> IsActivity(c)
  {
    var activity := FindColumn(headers, ActivityTerms);
    if activity.Some? then [ChartCard("default-activity-" + stamp, "Activity", Pie, activity.value, "", ds)]
    else []
  }

  /** The "preventive maintenance report" rule: the "Time Consume" bar,
      then the "Activity" pie. */
  function PreventiveCharts<D(==)>(headers: seq<string>, ds: D, stamp: string): (r: seq<ChartCard<D>>)
    ensures CardsFitHeaders(r, headers, ds)
    ensures |r| <= 2 && forall c :: c in r ==> IsTimeConsume(c) || IsActivity(c)
  {
    TimeConsumeCharts(headers, ds, stamp) + ActivityCharts(headers, ds, stamp)
  }

  predicate IsCostPart<D(==)>(c: ChartCard<D>) {
    c.name == "Cost Part" && c.kind == Bar && c.yColumn != ""
  }

  predicate IsTimeConsume<D(==)>(c: ChartCard<D>) {
    c.name == "Time Consume" && c.kind == Bar && c.yColumn != ""
  }

  predicate IsActivity<D(==)>(c: ChartCard<D>) {
    c.name == "Activity" && c.kind == Pie && c.yColumn == ""
  }

  /** `createDefaultCharts` of the two-slot page: the two rules are
      exclusive (`else if`), and any other file name yields nothing. */
  function DefaultCharts<D(==)>(t: Table, ds: D, stamp: string): (r: seq<ChartCard<D>>)
    ensures CardsFitHeaders(r, t.headers, ds)
    ensures IsPartsUsage(t.fileName) ==> |r| <= 1 && forall c :: c in r ==> IsCostPart(c)
    ensures !IsPartsUsage(t.fileName) ==> forall c :: c in r ==> IsTimeConsume(c) || IsActivity(c)
    ensures |r| <= 2
    ensures !IsPartsUsage(t.fileName) && !IsPreventiveReport(t.fileName) ==> r == []
  {
    if IsPartsUsage(t.fileName) then CostPartCharts(t.headers, ds, stamp)
    else if IsPreventiveReport(t.fileName) then PreventiveCharts(t.headers, ds, stamp)
    else []
  }

  /** "Cost Part" is emitted exactly when both a price-like and an
      area/model-like column are found, grouping by the latter and summing
      the former. */
  lemma CostPartSpec<D>(t: Table, ds: D, stamp: string)
    requires IsPartsUsage(t.fileName)
    ensures |DefaultCharts(t, ds, stamp)| == 1 <==>
      FindColumn(t.headers, PriceTerms).Some? && FindColumn(t.headers, ModelTerms).Some?
    ensures |DefaultCharts(t, ds, stamp)| == 1 ==>
      DefaultCharts(t, ds, stamp)[0].xColumn == FindColumn(t.headers, ModelTerms).value
      && DefaultCharts(t, ds, stamp)[0].yColumn == FindColumn(t.headers, PriceTerms).value
  {
  }

  /** "Time Consume" is emitted exactly when both a minutes-like and a
      part-like column are found, grouping by the part column and summing
      the minutes; "Activity" is emitted exactly when an activity-like
      column is found, counting its rows. */
  lemma PreventiveSpec<D>(t: Table, ds: D, stamp: string)
    requires !IsPartsUsage(t.fileName) && IsPreventiveReport(t.fileName)
    ensures DefaultCharts(t, ds, stamp) == TimeConsumeCharts(t.headers, ds, stamp) + ActivityCharts(t.headers, ds, stamp)
    ensures |TimeConsumeCharts(t.headers, ds, stamp)| == 1 <==>
      FindColumn(t.headers, MinutesTerms).Some? && FindColumn(t.headers, PartTerms).Some?
    ensures |TimeConsumeCharts(t.headers, ds, stamp)| == 1 ==>
      TimeConsumeCharts(t.headers, ds, stamp)[0].xColumn == FindColumn(t.headers, PartTerms).value
      && TimeConsumeCharts(t.headers, ds, stamp)[0].yColumn == FindColumn(t.headers, MinutesTerms).value
    ensures |ActivityCharts(t.headers, ds, stamp)| == 1 <==> FindColumn(t.headers, ActivityTerms).Some?
    ensures |ActivityCharts(t.headers, ds, stamp)| == 1 ==>
      ActivityCharts(t.headers, ds, stamp)[0].xColumn == FindColumn(t.headers, ActivityTerms).value
  {
  }

  /** The default column of the multi-file fallback: the first header
      whose trim is non-empty. */
  predicate IsTextColumn(h: string) {
    h != "" && !IsBlank(h)
  }

  /** The multi-file fallback: one count-mode "Data Distribution" bar on
      the first non-blank header, or nothing when every header is blank. */
  function FallbackCharts(headers: seq<string>, ds: string): (r: seq<ChartCard<string>>)
    ensures CardsFitHeaders(r, headers, ds)
    ensures |r| <= 1
    ensures r == [] <==> forall i :: 0 <= i < |headers| ==> IsBlank(headers[i])
    ensures forall c :: c in r ==> c.name == "Data Distribution" && c.kind == Bar && c.yColumn == "" && !IsBlank(c.xColumn)
    ensures r != [] ==> r[0].xColumn == headers[FirstWhere(headers, IsTextColumn).value]
  {
    match Find(headers, IsTextColumn)
    case Some(h) => [ChartCard(ds + "-default-bar", "Data Distribution", Bar, h, "", ds)]
    case None => []
  }

  /** The cards of the two file-name rules of the multi-file view: they are
      independent `if`s, so a name with both phrases gets both rules' cards. */
  function RuleCardsMulti(t: Table, ds: string, stamp: string): (r: seq<ChartCard<string>>)
    ensures CardsFitHeaders(r, t.headers, ds)
    ensures |r| <= 3
    ensures forall c :: c in r ==> IsCostPart(c) || IsTimeConsume(c) || IsActivity(c)
  {
    var cost := if IsPartsUsage(t.fileName) then CostPartCharts(t.headers, ds, stamp) else [];
    var preventive := if IsPreventiveReport(t.fileName) then PreventiveCharts(t.headers, ds, stamp) else [];
    CardsFitHeadersAppend(cost, preventive, t.headers, ds);
    assert forall c :: c in cost + preventive ==> c in cost || c in preventive;
    cost + preventive
  }

  /** `createDefaultCharts` of the multi-file view: the rule cards, or the
      fallback when no rule emitted a card. */
  function DefaultChartsMulti(t: Table, ds: string, stamp: string): (r: seq<ChartCard<string>>)
    ensures CardsFitHeaders(r, t.headers, ds)
    ensures |r| <= 3
  {
    var rules := RuleCardsMulti(t, ds, stamp);
    if |rules| == 0 then FallbackCharts(t.headers, ds) else rules
  }

  /** The rules of the multi-file view are not exclusive: a file name that
      contains both phrases gets the cards of both rules, so up to three. */
  lemma DefaultChartsMultiBothRules(t: Table, ds: string, stamp: string)
    requires IsPartsUsage(t.fileName) && IsPreventiveReport(t.fileName)
    requires FindColumn(t.headers, PriceTerms).Some? && FindColumn(t.headers, ModelTerms).Some?
    ensures |DefaultChartsMulti(t, ds, stamp)| == 1 + |PreventiveCharts(t.headers, ds, stamp)|
    ensures IsCostPart(DefaultChartsMulti(t, ds, stamp)[0])
  {
  }

  /** The fallback applies whenever the rules emitted no card, whatever the
      file name; the "Data Distribution" card appears exactly when no rule
      emitted a card and some header is not blank, and it is then the only
      card; there are no cards exactly when no rule emitted one and every
      header is blank. */
  lemma DefaultChartsMultiFallback(t: Table, ds: string, stamp: string)
    ensures RuleCardsMulti(t, ds, stamp) == [] ==> DefaultChartsMulti(t, ds, stamp) == FallbackCharts(t.headers, ds)
    ensures (exists c :: c in DefaultChartsMulti(t, ds, stamp) && c.name == "Data Distribution") <==>
      RuleCardsMulti(t, ds, stamp) == [] && exists i :: 0 <= i < |t.headers| && !IsBlank(t.headers[i])
    ensures (exists c :: c in DefaultChartsMulti(t, ds, stamp) && c.name == "Data Distribution") ==>
      |DefaultChartsMulti(t, ds, stamp)| == 1
    ensures DefaultChartsMulti(t, ds, stamp) == [] <==>
      RuleCardsMulti(t, ds, stamp) == [] && forall i :: 0 <= i < |t.headers| ==> IsBlank(t.headers[i])
  {
    var rules := RuleCardsMulti(t, ds, stamp);
    var r := DefaultChartsMulti(t, ds, stamp);
    if |rules| == 0 {
      var fb := FallbackCharts(t.headers, ds);
      assert r == fb;
      if exists i :: 0 <= i < |t.headers| && !IsBlank(t.headers[i]) {
        assert fb != [];
        assert fb[0] in r;
      }
    } else {
      assert r == rules;
      forall c | c in r ensures c.name != "Data Distribution" {
        assert IsCostPart(c) || IsTimeConsume(c) || IsActivity(c);
      }
    }
  }

  predicate NotId<D(==)>(id: string, c: ChartCard<D>) {
    c.id != id
  }

  /** `removeChartCard`: drops every card with the id, keeps the rest in order. */
  function RemoveCard<D(==)>(cards: seq<ChartCard<D>>, id: string): (r: seq<ChartCard<D>>)
    ensures forall c :: c in r ==> c.id != id && c in cards
    ensures forall c :: c in cards && c.id != id ==> c in r
    ensures forall c :: c in cards && c.id != id ==> multiset(r)[c] == multiset(cards)[c]
    ensures (forall c :: c in cards ==> c.id != id) ==> r == cards
  {
    var p := (c: ChartCard<D>) => NotId(id, c);
    FilterAllPassIf(cards, p);
    forall c | c in cards && c.id != id ensures multiset(Filter(cards, p))[c] == multiset(cards)[c] {
      FilterMultiset(cards, p, c);
    }
    Filter(cards, p)
  }

  /** Removal works card by card, so the survivors keep their order: it
      distributes over concatenation and keeps or drops a single card. */
  lemma {:induction false} RemoveCardAppend<D>(a: seq<ChartCard<D>>, b: seq<ChartCard<D>>, id: string)
    ensures RemoveCard(a + b, id) == RemoveCard(a, id) + RemoveCard(b, id)
    ensures forall c: ChartCard<D> :: RemoveCard([c], id) == if c.id == id then [] else [c]
  {
    FilterAppend(a, b, (c: ChartCard<D>) => NotId(id, c));
  }

  lemma FilterAllPassIf<T>(xs: seq<T>, p: T -> bool)
    ensures (forall k :: 0 <= k < |xs| ==> p(xs[k])) ==> Filter(xs, p) == xs
  {
    if forall k :: 0 <= k < |xs| ==> p(xs[k]) {
      FilterAllPass(xs, p);
    }
  }

  /** Quick charts: a status/approval header gives a pie, otherwise an
      equipment/asset header gives a bar, otherwise nothing. */
  predicate IsQuickStatusHeader(h: string) {
    Contains(Lower(h), "status") || Contains(Lower(h), "approval")
  }

  predicate IsQuickEquipmentHeader(h: string) {
    Contains(Lower(h), "equipment") || Contains(Lower(h), "asset")
  }

  function QuickChart<D(==)>(headers: seq<string>, ds: D, id: string): (r: Option<ChartCard<D>>)
    ensures r.Some? ==> r.value.xColumn in headers && r.value.yColumn == "" && r.value.datasetId == ds
    ensures r.None? <==> forall i :: 0 <= i < |headers| ==> !IsQuickStatusHeader(headers[i]) && !IsQuickEquipmentHeader(headers[i])
    ensures r.Some? && r.value.kind == Pie ==> IsQuickStatusHeader(r.value.xColumn)
    ensures (exists i :: 0 <= i < |headers| && IsQuickStatusHeader(headers[i])) ==>
      r.Some? && r.value.kind == Pie && r.value.xColumn == headers[FirstWhere(headers, IsQuickStatusHeader).value]
    ensures r.Some? && r.value.kind == Bar ==>
      IsQuickEquipmentHeader(r.value.xColumn) && forall i :: 0 <= i < |headers| ==> !IsQuickStatusHeader(headers[i])
    ensures ((forall i :: 0 <= i < |headers| ==> !IsQuickStatusHeader(headers[i]))
             && (exists i :: 0 <= i < |headers| && IsQuickEquipmentHeader(headers[i]))) ==>
      r.Some? && r.value.kind == Bar && r.value.xColumn == headers[FirstWhere(headers, IsQuickEquipmentHeader).value]
  {
    match Find(headers, IsQuickStatusHeader)
    case Some(h) => Some(ChartCard(id, "Quick Status Analysis", Pie, h, "", ds))
    case None =>
      match Find(headers, IsQuickEquipmentHeader)
      case Some(h) => Some(ChartCard(id, "Quick Equipment Analysis", Bar, h, "", ds))
      case None => None
  }
}
