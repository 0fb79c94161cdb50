/** The delimited-text parser `parseCSV`: lines are split on `\n`, blank
    lines dropped, and each line scanned with a quote-toggle flag. A `"`
    only toggles the flag and is never kept; a `,` outside quotes ends a
    field; every field is trimmed. The doubled-quote escape of RFC 4180
    (section 2, rule 7) is not implemented: `""` is two toggles. */
module Csv {
  import opened Text
  import opened Seqs

  const Quote: char := '"'
  const Comma: char := ','
  const Newline: char := '\n'

  /** Number of quote characters in `s`. */
  function QuoteCount(s: string): nat {
    if |s| == 0 then 0
    else QuoteCount(s[..|s| - 1]) + (if s[|s| - 1] == Quote then 1 else 0)
  }

  /** After scanning `s`, the toggle flag is set iff an odd number of quotes was seen. */
  predicate InQuotes(s: string) {
    QuoteCount(s) % 2 == 1
  }

  /** Position `i` of `line` ends a field: a comma with an even number of quotes before it. */
  predicate IsSeparator(line: string, i: nat)
    requires i < |line|
  {
    line[i] == Comma && !InQuotes(line[..i])
  }

  /** Number of field-ending commas in `line`. */
  function SeparatorCount(line: string): nat {
    if |line| == 0 then 0
    else SeparatorCount(line[..|line| - 1]) + (if IsSeparator(line, |line| - 1) then 1 else 0)
  }

  /** `line` with every quote character deleted. */
  function RemoveQuotes(line: string): string {
    if |line| == 0 then ""
    else RemoveQuotes(line[..|line| - 1]) + (if line[|line| - 1] == Quote then "" else [line[|line| - 1]])
  }

  /** The untrimmed fields of a line, defined character by character from
      the quote parity rather than from a running flag. */
  function RawFields(line: string): (r: seq<string>)
    ensures |r| >= 1
  {
    if |line| == 0 then [""]
    else
      var prev := RawFields(line[..|line| - 1]);
      var c := line[|line| - 1];
      if c == Quote then prev
      else if IsSeparator(line, |line| - 1) then prev + [""]
      else prev[..|prev| - 1] + [prev[|prev| - 1] + [c]]
  }

  /** One field per field-ending comma, plus one. */
  lemma {:induction false} RawFieldsCount(line: string)
    ensures |RawFields(line)| == SeparatorCount(line) + 1
  {
    if |line| > 0 {
      RawFieldsCount(line[..|line| - 1]);
    }
  }

  /** No raw field ever holds a quote character. */
  lemma {:induction false} RawFieldsQuoteFree(line: string)
    ensures forall k :: 0 <= k < |RawFields(line)| ==> Quote !in RawFields(line)[k]
  {
    if |line| > 0 {
      RawFieldsQuoteFree(line[..|line| - 1]);
    }
  }

  /** Every character except the quotes survives, in order, and the
      field boundaries are exactly the field-ending commas: re-joining the
      raw fields with commas gives the line with its quotes deleted. */
  lemma {:induction false} RawFieldsJoin(line: string)
    ensures Join(RawFields(line), [Comma]) == RemoveQuotes(line)
  {
    if |line| > 0 {
      var p := line[..|line| - 1];
      RawFieldsJoin(p);
      var prev := RawFields(p);
      var c := line[|line| - 1];
      if c == Quote {
        assert RawFields(line) == prev;
        assert RemoveQuotes(line) == RemoveQuotes(p);
      } else if IsSeparator(line, |line| - 1) {
        assert RawFields(line) == prev + [""];
        JoinAppendEmpty(prev, [Comma]);
        assert RemoveQuotes(line) == RemoveQuotes(p) + [Comma];
      } else {
        assert RawFields(line) == prev[..|prev| - 1] + [prev[|prev| - 1] + [c]];
        JoinExtendLast(prev, [Comma], c);
        assert RemoveQuotes(line) == RemoveQuotes(p) + [c];
      }
    }
  }

  /** `current.trim().replace(/^"|"$/g, "")`: one leading and one trailing
      quote are removed after trimming. */
  function StripQuotes(s: string): string {
    var a := if |s| > 0 && s[0] == Quote then s[1..] else s;
    if |a| > 0 && a[|a| - 1] == Quote then a[..|a| - 1] else a
  }

  function CleanField(s: string): string {
    StripQuotes(Trim(s))
  }

  /** On a quote-free field the quote stripping is a no-op, so the cleaned
      field is the trimmed field: trimmed and still quote-free. */
  lemma CleanFieldOfQuoteFree(s: string)
    requires Quote !in s
    ensures CleanField(s) == Trim(s)
    ensures IsTrimmed(CleanField(s)) && Quote !in CleanField(s)
  {
  }

  /** Every field cleaned, in order. */
  function Cleaned(raw: seq<string>): (r: seq<string>)
    ensures |r| == |raw|
  {
    if |raw| == 0 then []
    else Cleaned(raw[..|raw| - 1]) + [CleanField(raw[|raw| - 1])]
  }

  /** Field `k` of the cleaned row is raw field `k`, cleaned. */
  lemma {:induction false} CleanedAt(raw: seq<string>, k: nat)
    requires k < |raw|
    ensures Cleaned(raw)[k] == CleanField(raw[k])
  {
    if k < |raw| - 1 {
      CleanedAt(raw[..|raw| - 1], k);
    }
  }

  /** The row a line yields: its raw fields, cleaned. */
  function LineRow(line: string): seq<string> {
    Cleaned(RawFields(line))
  }

  /** How the raw fields and the quote flag change when the scan reads
      one more character. */
  lemma ScanStep(line: string, i: nat)
    requires i < |line|
    ensures InQuotes(line[..i + 1]) == (if line[i] == Quote then !InQuotes(line[..i]) else InQuotes(line[..i]))
    ensures RawFields(line[..i + 1]) ==
      var prev := RawFields(line[..i]);
      if line[i] == Quote then prev
      else if line[i] == Comma && !InQuotes(line[..i]) then prev + [""]
      else prev[..|prev| - 1] + [prev[|prev| - 1] + [line[i]]]
  {
    assert line[..i + 1][..i] == line[..i];
  }

  /** Every cleaned field is trimmed and quote-free, and there is one per
      field-ending comma, plus one. */
  lemma LineRowShape(line: string)
    ensures |LineRow(line)| == SeparatorCount(line) + 1
    ensures forall k :: 0 <= k < |LineRow(line)| ==> IsTrimmed(LineRow(line)[k]) && Quote !in LineRow(line)[k]
  {
    RawFieldsCount(line);
    RawFieldsQuoteFree(line);
    forall k | 0 <= k < |LineRow(line)|
      ensures IsTrimmed(LineRow(line)[k]) && Quote !in LineRow(line)[k]
    {
      CleanedAt(RawFields(line), k);
      CleanFieldOfQuoteFree(RawFields(line)[k]);
    }
  }

  /** Cleaning one more raw field appends its cleaned form. */
  lemma CleanedSnoc(raws: seq<string>, f: string)
    ensures Cleaned(raws + [f]) == Cleaned(raws) + [CleanField(f)]
  {
    assert (raws + [f])[..|raws|] == raws;
  }

  /** A quote toggles the flag and adds nothing to the fields. */
  lemma ScanQuote(line: string, i: nat)
    requires i < |line| && line[i] == Quote
    ensures InQuotes(line[..i + 1]) == !InQuotes(line[..i])
    ensures RawFields(line[..i + 1]) == RawFields(line[..i])
  {
    ScanStep(line, i);
  }

  /** A comma outside quotes closes the current field and opens an empty one. */
  lemma ScanComma(line: string, i: nat, raws: seq<string>, current: string)
    requires i < |line| && line[i] == Comma && !InQuotes(line[..i])
    requires RawFields(line[..i]) == raws + [current]
    ensures InQuotes(line[..i + 1]) == InQuotes(line[..i])
    ensures RawFields(line[..i + 1]) == (raws + [current]) + [""]
  {
    ScanStep(line, i);
  }

  /** Any other character extends the current field. */
  lemma ScanOther(line: string, i: nat, raws: seq<string>, current: string)
    requires i < |line| && line[i] != Quote && !(line[i] == Comma && !InQuotes(line[..i]))
    requires RawFields(line[..i]) == raws + [current]
    ensures InQuotes(line[..i + 1]) == InQuotes(line[..i])
    ensures RawFields(line[..i + 1]) == raws + [current + [line[i]]]
  {
    ScanStep(line, i);
    var prev := raws + [current];
    assert prev[..|prev| - 1] == raws;
  }

  /** The per-line scan of `parseCSV`, with its running `current` buffer and
      `inQuotes` flag. */
  method ParseLine(line: string) returns (row: seq<string>)
    ensures row == LineRow(line)
    ensures |row| == SeparatorCount(line) + 1
    ensures forall k :: 0 <= k < |row| ==> IsTrimmed(row[k]) && Quote !in row[k]
  {
    row := [];
    var current := "";
    var inQuotes := false;
    ghost var raws: seq<string> := [];
    var i := 0;
    while i < |line|
      invariant 0 <= i <= |line|
      invariant inQuotes == InQuotes(line[..i])
      invariant RawFields(line[..i]) == raws + [current]
      invariant row == Cleaned(raws)
    {
      var c := line[i];
      if c == Quote {
        ScanQuote(line, i);
        inQuotes := !inQuotes;
      } else if c == Comma && !inQuotes {
        ScanComma(line, i, raws, current);
        CleanedSnoc(raws, current);
        row := row + [CleanField(current)];
        raws := raws + [current];
        current := "";
      } else {
        ScanOther(line, i, raws, current);
        current := current + [c];
      }
      i := i + 1;
    }
    assert line[..i] == line;
    CleanedSnoc(raws, current);
    row := row + [CleanField(current)];
    LineRowShape(line);
  }

  predicate NonBlank(line: string) {
    !IsBlank(line)
  }

  /** `text.split("\n").filter(line => line.trim() !== "")` */
  function ContentLines(text: string): seq<string> {
    Filter(Split(text, Newline), NonBlank)
  }

  /** The rows `parseCSV` returns for `text`: one per non-blank line. */
  function CsvRows(text: string): seq<seq<string>> {
    var lines := ContentLines(text);
    seq(|lines|, k requires 0 <= k < |lines| => LineRow(lines[k]))
  }

  /** The row loop of `parseCSV`: every kept line scanned in turn. */
  method ParseLines(lines: seq<string>) returns (rows: seq<seq<string>>)
    ensures |rows| == |lines|
    ensures forall k :: 0 <= k < |lines| ==> rows[k] == LineRow(lines[k])
  {
    ghost var spec := seq(|lines|, k requires 0 <= k < |lines| => LineRow(lines[k]));
    rows := [];
    var i := 0;
    while i < |lines|
      invariant 0 <= i <= |lines|
      invariant rows == spec[..i]
    {
      var row := ParseLine(lines[i]);
      assert spec[..i + 1] == rows + [row];
      rows := rows + [row];
      i := i + 1;
    }
    assert rows == spec;
  }

  /** `parseCSV`: one row per non-blank line, in order, each row scanned by `ParseLine`. */
  method ParseCsv(text: string) returns (rows: seq<seq<string>>)
    ensures rows == CsvRows(text)
    ensures |rows| == |ContentLines(text)|
  {
    rows := ParseLines(ContentLines(text));
  }

  /** Every line of the text is all whitespace. */
  predicate AllLinesBlank(text: string) {
    forall k :: 0 <= k < |Split(text, Newline)| ==> AllSpace(Split(text, Newline)[k])
  }

  /** A line is kept exactly when it is not all whitespace. */
  lemma NonBlankSpec(line: string)
    ensures NonBlank(line) <==> !AllSpace(line)
  {
  }

  /** Every line of the text that is not all whitespace is kept. */
  lemma ContentLinesComplete(text: string)
    ensures forall k :: 0 <= k < |Split(text, Newline)| && !AllSpace(Split(text, Newline)[k]) ==>
      Split(text, Newline)[k] in ContentLines(text)
  {
    var lines := Split(text, Newline);
    forall k | 0 <= k < |lines| && !AllSpace(lines[k]) ensures lines[k] in ContentLines(text) {
      NonBlankSpec(lines[k]);
    }
  }

  /** Every line the parser keeps has non-whitespace content and no
      newline, and every such line of the text is kept; nothing is kept
      exactly when every line is blank. */
  lemma ContentLinesSpec(text: string)
    ensures forall k :: 0 <= k < |ContentLines(text)| ==>
      !AllSpace(ContentLines(text)[k]) && Newline !in ContentLines(text)[k]
    ensures forall k :: 0 <= k < |Split(text, Newline)| && !AllSpace(Split(text, Newline)[k]) ==>
      Split(text, Newline)[k] in ContentLines(text)
    ensures |ContentLines(text)| == 0 <==> AllLinesBlank(text)
  {
    var lines := Split(text, Newline);
    var kept := ContentLines(text);
    ContentLinesComplete(text);
    forall k | 0 <= k < |kept| ensures !AllSpace(kept[k]) && Newline !in kept[k] {
      NonBlankSpec(kept[k]);
      assert kept[k] in lines;
    }
    if |kept| > 0 {
      var j :| 0 <= j < |lines| && lines[j] == kept[0];
      assert !AllSpace(lines[j]);
      assert !AllLinesBlank(text);
    } else {
      forall k | 0 <= k < |lines| ensures AllSpace(lines[k]) {
        assert lines[k] !in kept;
      }
      assert AllLinesBlank(text);
    }
  }
}
