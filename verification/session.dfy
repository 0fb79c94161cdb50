/** The multi-file analysis view: any number of loaded files, each with an
    id, and one list of chart cards that name their file by id. */
module Session {
  import opened Wrappers
  import opened Seqs
  import opened Csv
  import opened Tables
  import opened Charts
  import opened Sorting
  import opened Aggregate

  /** An uploaded table together with its file id. */
  datatype LoadedFile = LoadedFile(id: string, data: Table)

  /** `uploadedFiles`, `chartCards` and `activeDatasetId`. */
  datatype Session = Session(files: seq<LoadedFile>, cards: seq<ChartCard<string>>, active: string)

  /** The add-card form (`newCard`). */
  datatype CardForm = CardForm(name: string, kind: ChartKind, xColumn: string, yColumn: string)

  /** `uploadedFiles.find((file) => file.id === id)` */
  function FileById(files: seq<LoadedFile>, id: string): (r: Option<Table>)
    ensures r.None? <==> forall k :: 0 <= k < |files| ==> files[k].id != id
    ensures r.Some? ==> exists k :: 0 <= k < |files| && files[k].id == id && files[k].data == r.value
  {
    if |files| == 0 then None
    else if files[0].id == id then Some(files[0].data)
    else
      var r := FileById(files[1..], id);
      assert forall k :: 0 <= k < |files| - 1 ==> files[1..][k] == files[k + 1];
      r
  }

  /** Every card names a loaded file. */
  predicate CardsBacked(s: Session) {
    forall c :: c in s.cards ==> FileById(s.files, c.datasetId).Some?
  }

  /** Upload of one file after it has been read into rows: an empty sheet
      is ignored; otherwise the file is appended under its id and its
      default charts are appended to the card list. */
  function LoadFile(s: Session, raw: seq<seq<string>>, fileName: string, fileId: string, stamp: string): (r: Session)
    ensures |raw| == 0 ==> r == s
    ensures |raw| > 0 ==> r.files == s.files + [LoadedFile(fileId, Load(raw, fileName).value)]
    ensures |raw| > 0 ==> r.cards == s.cards + DefaultChartsMulti(Load(raw, fileName).value, fileId, stamp)
    ensures |raw| > 0 ==> |s.cards| <= |r.cards| <= |s.cards| + 3 && r.cards[..|s.cards|] == s.cards
    ensures |raw| > 0 ==> |s.cards| <= |r.cards| && CardsFitHeaders(r.cards[|s.cards|..], raw[0], fileId)
    ensures r.active == s.active
  {
    match Load(raw, fileName)
    case None => s
    case Some(t) =>
      var added := DefaultChartsMulti(t, fileId, stamp);
      assert (s.cards + added)[|s.cards|..] == added;
      Session(s.files + [LoadedFile(fileId, t)], s.cards + added, s.active)
  }

  /** Lookup of an earlier id is unaffected by appending a file. */
  lemma {:induction false} FileByIdAppend(files: seq<LoadedFile>, f: LoadedFile, id: string)
    ensures FileById(files + [f], id) == if FileById(files, id).Some? then FileById(files, id) else if f.id == id then Some(f.data) else None
  {
    if |files| > 0 {
      assert (files + [f])[1..] == files[1..] + [f];
      FileByIdAppend(files[1..], f, id);
    } else {
      assert ([f])[1..] == [];
    }
  }

  /** Loading a file makes it reachable by its id unless an earlier file
      already holds that id, and leaves every other lookup alone. */
  lemma LoadFileLookup(s: Session, raw: seq<seq<string>>, fileName: string, fileId: string, stamp: string, id: string)
    requires |raw| > 0
    ensures id != fileId || FileById(s.files, id).Some? ==>
      FileById(LoadFile(s, raw, fileName, fileId, stamp).files, id) == FileById(s.files, id)
    ensures id == fileId && FileById(s.files, id).None? ==>
      FileById(LoadFile(s, raw, fileName, fileId, stamp).files, id) == Load(raw, fileName)
  {
    var t := Load(raw, fileName).value;
    FileByIdAppend(s.files, LoadedFile(fileId, t), id);
  }

  predicate OtherFile(id: string, f: LoadedFile) {
    f.id != id
  }

  predicate OtherDataset(id: string, c: ChartCard<string>) {
    c.datasetId != id
  }

  /** `removeFile`: drops the file and, with it, every card that names it. */
  function RemoveFile(s: Session, fileId: string): (r: Session)
    ensures forall f :: f in r.files <==> f in s.files && f.id != fileId
    ensures forall c :: c in r.cards <==> c in s.cards && c.datasetId != fileId
    ensures forall f: LoadedFile :: f.id != fileId ==> multiset(r.files)[f] == multiset(s.files)[f]
    ensures forall c: ChartCard<string> :: c.datasetId != fileId ==> multiset(r.cards)[c] == multiset(s.cards)[c]
    ensures r.active == s.active
  {
    var files := Filter(s.files, f => OtherFile(fileId, f));
    var cards := Filter(s.cards, c => OtherDataset(fileId, c));
    forall f: LoadedFile | f.id != fileId ensures multiset(files)[f] == multiset(s.files)[f] {
      FilterMultiset(s.files, f => OtherFile(fileId, f), f);
    }
    forall c: ChartCard<string> | c.datasetId != fileId ensures multiset(cards)[c] == multiset(s.cards)[c] {
      FilterMultiset(s.cards, c => OtherDataset(fileId, c), c);
    }
    Session(files, cards, s.active)
  }

  /** Removal works element by element, so the surviving files and cards
      keep their order: removing from a session whose lists are split is
      removing from each part, and a single file or card is kept exactly
      when it does not belong to the removed file. */
  lemma {:induction false} RemoveFileOrder(s: Session, fileId: string, fa: seq<LoadedFile>, fb: seq<LoadedFile>,
                                           ca: seq<ChartCard<string>>, cb: seq<ChartCard<string>>)
    requires s.files == fa + fb && s.cards == ca + cb
    ensures RemoveFile(s, fileId).files == RemoveFile(Session(fa, ca, s.active), fileId).files + RemoveFile(Session(fb, cb, s.active), fileId).files
    ensures RemoveFile(s, fileId).cards == RemoveFile(Session(fa, ca, s.active), fileId).cards + RemoveFile(Session(fb, cb, s.active), fileId).cards
    ensures forall f :: RemoveFile(Session([f], [], s.active), fileId).files == if f.id == fileId then [] else [f]
    ensures forall c :: RemoveFile(Session([], [c], s.active), fileId).cards == if c.datasetId == fileId then [] else [c]
  {
    FilterAppend(fa, fb, f => OtherFile(fileId, f));
    FilterAppend(ca, cb, c => OtherDataset(fileId, c));
  }

  /** After removal the id finds nothing, and every other id finds what
      it found before. */
  lemma {:induction false} RemoveFileLookup(files: seq<LoadedFile>, fileId: string, id: string)
    ensures FileById(Filter(files, f => OtherFile(fileId, f)), id) == if id == fileId then None else FileById(files, id)
  {
    if |files| > 0 {
      RemoveFileLookup(files[1..], fileId, id);
    }
  }

  /** Removing a file keeps every remaining card backed by a file. */
  lemma RemoveFileKeepsCardsBacked(s: Session, fileId: string)
    requires CardsBacked(s)
    ensures CardsBacked(RemoveFile(s, fileId))
  {
    var r := RemoveFile(s, fileId);
    forall c | c in r.cards ensures FileById(r.files, c.datasetId).Some? {
      RemoveFileLookup(s.files, fileId, c.datasetId);
    }
  }

  /** Loading a file keeps every card backed, its own default charts
      included. */
  lemma LoadFileKeepsCardsBacked(s: Session, raw: seq<seq<string>>, fileName: string, fileId: string, stamp: string)
    requires CardsBacked(s)
    ensures CardsBacked(LoadFile(s, raw, fileName, fileId, stamp))
  {
    var r := LoadFile(s, raw, fileName, fileId, stamp);
    if |raw| > 0 {
      var added := r.cards[|s.cards|..];
      assert r.cards == s.cards + added;
      assert FileById(r.files, fileId).Some? by {
        LoadFileLookup(s, raw, fileName, fileId, stamp, fileId);
      }
      forall c | c in r.cards ensures FileById(r.files, c.datasetId).Some? {
        if c in s.cards {
          LoadFileLookup(s, raw, fileName, fileId, stamp, c.datasetId);
        } else {
          assert c in added;
        }
      }
    }
  }

  /** `addChartCard`: a card needs a name, a category column and an active
      dataset; it is appended for the active dataset. */
  function AddChartCard(s: Session, form: CardForm, stamp: string): (r: Session)
    ensures form.name == "" || form.xColumn == "" || s.active == "" ==> r == s
    ensures form.name != "" && form.xColumn != "" && s.active != "" ==>
      r.cards == s.cards + [ChartCard(stamp, form.name, form.kind, form.xColumn, form.yColumn, s.active)]
    ensures r.files == s.files && r.active == s.active
  {
    if form.name == "" || form.xColumn == "" || s.active == "" then s
    else s.(cards := s.cards + [ChartCard(stamp, form.name, form.kind, form.xColumn, form.yColumn, s.active)])
  }

  /** `removeChartCard`: drops the cards with this id, whatever their file. */
  function RemoveChartCard(s: Session, id: string): (r: Session)
    ensures forall c :: c in r.cards <==> c in s.cards && c.id != id
    ensures forall c :: c in s.cards && c.id != id ==> multiset(r.cards)[c] == multiset(s.cards)[c]
    ensures r.files == s.files && r.active == s.active
  {
    s.(cards := RemoveCard(s.cards, id))
  }

  /** The surviving cards keep their order: removing from a split list is
      removing from each part. */
  lemma RemoveChartCardOrder(s: Session, id: string, a: seq<ChartCard<string>>, b: seq<ChartCard<string>>)
    requires s.cards == a + b
    ensures RemoveChartCard(s, id).cards == RemoveCard(a, id) + RemoveCard(b, id)
  {
    RemoveCardAppend(a, b, id);
  }

  /** The quick-analysis button of one file: it becomes the active dataset
      and gets a quick status or equipment chart when a header fits. */
  function QuickAnalysis(s: Session, f: LoadedFile, stamp: string): (r: Session)
    ensures r.active == f.id && r.files == s.files
    ensures |s.cards| <= |r.cards| <= |s.cards| + 1 && r.cards[..|s.cards|] == s.cards
    ensures |r.cards| == |s.cards| + 1 ==> r.cards[|s.cards|].datasetId == f.id && r.cards[|s.cards|].xColumn in f.data.headers
    ensures QuickChart(f.data.headers, f.id, stamp).None? ==> r.cards == s.cards
    ensures QuickChart(f.data.headers, f.id, stamp).Some? ==> r.cards == s.cards + [QuickChart(f.data.headers, f.id, stamp).value]
  {
    match QuickChart(f.data.headers, f.id, stamp)
    case None => s.(active := f.id)
    case Some(c) => Session(s.files, s.cards + [c], f.id)
  }

  /** The card operations keep every card backed when the active dataset
      and the quick-analysis file are loaded files. */
  lemma CardOpsKeepCardsBacked(s: Session, form: CardForm, stamp: string, id: string, f: LoadedFile)
    requires CardsBacked(s)
    requires FileById(s.files, s.active).Some? && f in s.files
    ensures CardsBacked(AddChartCard(s, form, stamp))
    ensures CardsBacked(RemoveChartCard(s, id))
    ensures CardsBacked(QuickAnalysis(s, f, stamp))
  {
    var q := QuickAnalysis(s, f, stamp);
    forall c | c in q.cards ensures FileById(q.files, c.datasetId).Some? {
      if c !in s.cards {
        var k :| 0 <= k < |s.files| && s.files[k] == f;
      }
    }
  }

  /** `getChartData`: the card's file aggregated, or nothing when no file
      has the card's dataset id. */
  function FileChartData(s: Session, card: ChartCard<string>, pl: Platform): (r: seq<Point>)
    ensures FileById(s.files, card.datasetId).None? ==> r == []
  {
    match FileById(s.files, card.datasetId)
    case None => []
    case Some(t) => ChartData(t, card.xColumn, card.yColumn, pl)
  }

  /** `getMaintenanceDetails`: the records behind one chart item. */
  function FileDetails(s: Session, item: string, card: ChartCard<string>): (r: seq<seq<string>>)
    ensures FileById(s.files, card.datasetId).None? ==> r == []
  {
    match FileById(s.files, card.datasetId)
    case None => []
    case Some(t) => Details(t, card.xColumn, item)
  }

  /** Removing a file empties the charts of its cards and leaves the
      charts of every other file's cards as they were. */
  lemma RemoveFileChartData(s: Session, fileId: string, card: ChartCard<string>, pl: Platform)
    ensures card.datasetId == fileId ==> FileChartData(RemoveFile(s, fileId), card, pl) == []
    ensures card.datasetId != fileId ==> FileChartData(RemoveFile(s, fileId), card, pl) == FileChartData(s, card, pl)
  {
    RemoveFileLookup(s.files, fileId, card.datasetId);
  }

  /** A file's chart is sorted, positive and duplicate-free, and in count
      mode each value is the size of its drill-down list. */
  lemma FileChartDataSpec(s: Session, card: ChartCard<string>, pl: Platform)
    ensures var r := FileChartData(s, card, pl);
      SortedDesc(r) && DistinctNames(r) && forall k :: 0 <= k < |r| ==> r[k].value > 0.0
    ensures card.yColumn == "" || (FileById(s.files, card.datasetId).Some? && card.yColumn !in FileById(s.files, card.datasetId).value.headers) ==>
      var r := FileChartData(s, card, pl);
      forall k :: 0 <= k < |r| ==> r[k].value == |FileDetails(s, r[k].name, card)| as real
  {
    match FileById(s.files, card.datasetId)
    case None =>
    case Some(t) =>
      ChartDataShape(t, card.xColumn, card.yColumn, pl);
      if card.yColumn == "" || card.yColumn !in t.headers {
        CountModeMatchesDetails(t, card.xColumn, card.yColumn, pl);
      }
  }
}
