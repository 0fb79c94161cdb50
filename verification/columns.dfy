/** Column heuristics: case-insensitive substring matching of fixed search
    terms against the header row. */
module Columns {
  import opened Wrappers
  import opened Text
  import opened Seqs

  /** The first header, in header order, matching `term`. */
  function FirstMatch(headers: seq<string>, term: string): (r: Option<nat>)
    ensures r.Some? ==> r.value < |headers| && Matches(headers[r.value], term)
    ensures r.Some? ==> forall i :: 0 <= i < r.value ==> !Matches(headers[i], term)
    ensures r.None? <==> forall i :: 0 <= i < |headers| ==> !Matches(headers[i], term)
  {
    FirstWhere(headers, h => Matches(h, term))
  }

  /** `findColumn` from the `k`-th term on: the terms are tried in priority
      order and the first header found for a term is returned, unless it is
      the empty (falsy) string. */
  function FindColumnFrom(headers: seq<string>, terms: seq<string>, k: nat): (r: Option<string>)
    ensures r.Some? ==> r.value in headers && r.value != ""
    ensures r.Some? ==> exists j :: k <= j < |terms| && Matches(r.value, terms[j])
    decreases |terms| - k
  {
    if k >= |terms| then None
    else
      match FirstMatch(headers, terms[k])
      case Some(i) => if headers[i] != "" then Some(headers[i]) else FindColumnFrom(headers, terms, k + 1)
      case None => FindColumnFrom(headers, terms, k + 1)
  }

  function FindColumn(headers: seq<string>, terms: seq<string>): (r: Option<string>)
    ensures r.Some? ==> r.value in headers && r.value != ""
  {
    FindColumnFrom(headers, terms, 0)
  }

  /** Header `i` is what `findColumn` settles on through term `j`: no
      earlier term matches any header, and no earlier header matches term `j`. */
  predicate FirstHit(headers: seq<string>, terms: seq<string>, j: nat, i: nat)
    requires j < |terms| && i < |headers|
  {
    && Matches(headers[i], terms[j])
    && (forall i' :: 0 <= i' < i ==> !Matches(headers[i'], terms[j]))
    && (forall j', i' :: 0 <= j' < j && 0 <= i' < |headers| ==> !Matches(headers[i'], terms[j']))
  }

  predicate NoTermMatches(headers: seq<string>, terms: seq<string>, k: nat) {
    forall j, i :: k <= j < |terms| && 0 <= i < |headers| ==> !Matches(headers[i], terms[j])
  }

  lemma {:induction false} FindColumnFromSpec(headers: seq<string>, terms: seq<string>, k: nat)
    requires k <= |terms|
    requires forall j :: 0 <= j < |terms| ==> terms[j] != ""
    requires forall j, i :: 0 <= j < k && 0 <= i < |headers| ==> !Matches(headers[i], terms[j])
    ensures FindColumnFrom(headers, terms, k).None? <==> NoTermMatches(headers, terms, k)
    ensures FindColumnFrom(headers, terms, k).Some? ==>
      exists j, i :: k <= j < |terms| && 0 <= i < |headers| && FirstHit(headers, terms, j, i)
        && FindColumnFrom(headers, terms, k).value == headers[i]
    decreases |terms| - k
  {
    if k < |terms| {
      match FirstMatch(headers, terms[k])
      case Some(i) =>
        MatchNonEmpty(headers[i], terms[k]);
        assert FirstHit(headers, terms, k, i);
      case None =>
        FindColumnFromSpec(headers, terms, k + 1);
    }
  }

  /** `findColumn` returns null exactly when no term matches any header;
      otherwise it returns the first header, in header order, matching the
      earliest term that matches some header. */
  lemma FindColumnSpec(headers: seq<string>, terms: seq<string>)
    requires forall j :: 0 <= j < |terms| ==> terms[j] != ""
    ensures FindColumn(headers, terms).None? <==> NoTermMatches(headers, terms, 0)
    ensures FindColumn(headers, terms).Some? ==>
      exists j, i :: 0 <= j < |terms| && 0 <= i < |headers| && FirstHit(headers, terms, j, i)
        && FindColumn(headers, terms).value == headers[i]
  {
    FindColumnFromSpec(headers, terms, 0);
  }

  predicate IsStatusHeader(h: string) {
    var l := Lower(h);
    Contains(l, "status") || Contains(l, "approved") || Contains(l, "approval")
  }

  predicate IsEquipmentHeader(h: string) {
    var l := Lower(h);
    Contains(l, "equipment") || Contains(l, "panel") || Contains(l, "model") || Contains(l, "type")
  }

  predicate IsApproverHeader(h: string) {
    var l := Lower(h);
    Contains(l, "approver") || Contains(l, "approved by") || Contains(l, "bernard") || Contains(l, "iskandar")
  }

  datatype MaintenanceColumns = MaintenanceColumns(status: seq<string>, equipment: seq<string>, approver: seq<string>)

  /** `detectMaintenanceColumns`: the status-like, equipment-like and
      approver-like headers, each in header order. */
  function DetectMaintenanceColumns(headers: seq<string>): (r: MaintenanceColumns)
    ensures forall h :: h in r.status <==> h in headers && IsStatusHeader(h)
    ensures forall h :: h in r.equipment <==> h in headers && IsEquipmentHeader(h)
    ensures forall h :: h in r.approver <==> h in headers && IsApproverHeader(h)
  {
    MaintenanceColumns(Filter(headers, IsStatusHeader), Filter(headers, IsEquipmentHeader), Filter(headers, IsApproverHeader))
  }

  /** The dashboard's four preset charts. */
  datatype Preset = StatusDistribution | EquipmentAnalysis | ApprovalWorkflow | MonthlyTrends

  /** `headers[i]`, with JavaScript's `undefined` past the end modelled as "". */
  function HeaderAt(headers: seq<string>, i: nat): string {
    if i < |headers| then headers[i] else ""
  }

  /** JavaScript `a || b` on an optional string: `b` when `a` is missing or "". */
  function OrElse(a: Option<string>, b: string): string {
    if a.Some? && a.value != "" then a.value else b
  }

  function Head(xs: seq<string>): Option<string> {
    if |xs| > 0 then Some(xs[0]) else None
  }

  predicate HasStatus(h: string) { Contains(Lower(h), "status") }
  predicate HasEquipment(h: string) { Contains(Lower(h), "equipment") }
  predicate HasApproved(h: string) { Contains(Lower(h), "approved") }
  predicate IsDateLikeHeader(h: string) { Contains(Lower(h), "date") || Contains(Lower(h), "time") }

  /** The category column `addPresetChart` picks for a preset. */
  function PresetColumn(headers: seq<string>, preset: Preset): string {
    var cols := DetectMaintenanceColumns(headers);
    match preset
    case StatusDistribution =>
      OrElse(Head(cols.status), OrElse(Find(headers, HasStatus), HeaderAt(headers, 0)))
    case EquipmentAnalysis =>
      OrElse(Head(cols.equipment), OrElse(Find(headers, HasEquipment), HeaderAt(headers, 1)))
    case ApprovalWorkflow =>
      OrElse(Head(cols.approver), OrElse(Find(headers, HasApproved), HeaderAt(headers, 0)))
    case MonthlyTrends =>
      OrElse(Find(headers, IsDateLikeHeader), HeaderAt(headers, 0))
  }

  /** The first element of a filtered header list, or the fallback. */
  function FirstOr(headers: seq<string>, p: string -> bool, fallback: string): string {
    match FirstWhere(headers, p)
    case Some(i) => headers[i]
    case None => fallback
  }

  /** No fragment-based predicate holds of the empty header. */
  lemma EmptyHeaderMatchesNothing()
    ensures !IsStatusHeader("") && !IsEquipmentHeader("") && !IsApproverHeader("")
    ensures !HasApproved("") && !IsDateLikeHeader("")
  {
    assert Lower("") == "";
  }

  /** "Status Distribution" takes the first status-like header, else the
      first header: the second-chance search for "status" can never fire,
      because "status" is one of the detector's own fragments. */
  lemma PresetStatusColumn(headers: seq<string>)
    ensures PresetColumn(headers, StatusDistribution) == FirstOr(headers, IsStatusHeader, HeaderAt(headers, 0))
  {
    FilterFirst(headers, IsStatusHeader);
    EmptyHeaderMatchesNothing();
    if FirstWhere(headers, IsStatusHeader).None? {
      assert forall i :: 0 <= i < |headers| ==> !HasStatus(headers[i]);
    }
  }

  /** "Equipment Analysis" takes the first equipment-like header, else the
      second header; the search for "equipment" is likewise subsumed. */
  lemma PresetEquipmentColumn(headers: seq<string>)
    ensures PresetColumn(headers, EquipmentAnalysis) == FirstOr(headers, IsEquipmentHeader, HeaderAt(headers, 1))
  {
    FilterFirst(headers, IsEquipmentHeader);
    EmptyHeaderMatchesNothing();
    if FirstWhere(headers, IsEquipmentHeader).None? {
      assert forall i :: 0 <= i < |headers| ==> !HasEquipment(headers[i]);
    }
  }

  /** "Approval Workflow" takes the first approver-like header, else the
      first header mentioning "approved", else the first header. */
  lemma PresetApprovalColumn(headers: seq<string>)
    ensures PresetColumn(headers, ApprovalWorkflow) ==
      FirstOr(headers, IsApproverHeader, FirstOr(headers, HasApproved, HeaderAt(headers, 0)))
  {
    FilterFirst(headers, IsApproverHeader);
    EmptyHeaderMatchesNothing();
  }

  /** "Monthly Trends" takes the first date/time header, else the first header. */
  lemma PresetTrendColumn(headers: seq<string>)
    ensures PresetColumn(headers, MonthlyTrends) == FirstOr(headers, IsDateLikeHeader, HeaderAt(headers, 0))
  {
    EmptyHeaderMatchesNothing();
  }

  /** Every preset names a header, or "" (JavaScript `undefined`) when the
      fixed fallback position is past the end of the header row. */
  lemma PresetColumnIsHeader(headers: seq<string>, preset: Preset)
    ensures PresetColumn(headers, preset) in headers || PresetColumn(headers, preset) == ""
  {
    match preset
    case StatusDistribution => PresetStatusColumn(headers);
    case EquipmentAnalysis => PresetEquipmentColumn(headers);
    case ApprovalWorkflow => PresetApprovalColumn(headers);
    case MonthlyTrends => PresetTrendColumn(headers);
  }
}
