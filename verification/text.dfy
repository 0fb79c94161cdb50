/** ASCII versions of the JavaScript string operations the dashboard relies on:
    `trim`, `toLowerCase`, `includes` and `split` on a single character. */
module Text {

  /** The ASCII characters `String.prototype.trim` removes. */
  predicate IsSpace(c: char) {
    c == ' ' || c == '\t' || c == '\n' || c == '\r' || c as int == 11 || c as int == 12
  }

  /** No whitespace at either end. */
  predicate IsTrimmed(s: string) {
    |s| == 0 || (!IsSpace(s[0]) && !IsSpace(s[|s| - 1]))
  }

  predicate AllSpace(s: string) {
    forall k :: 0 <= k < |s| ==> IsSpace(s[k])
  }

  /** Number of whitespace characters at the start of `s`. */
  function LeadingSpaces(s: string): (n: nat)
    ensures n <= |s|
    ensures forall k :: 0 <= k < n ==> IsSpace(s[k])
    ensures n < |s| ==> !IsSpace(s[n])
  {
    if |s| > 0 && IsSpace(s[0]) then 1 + LeadingSpaces(s[1..]) else 0
  }

  /** Number of whitespace characters at the end of `s`. */
  function TrailingSpaces(s: string): (n: nat)
    ensures n <= |s|
    ensures forall k :: |s| - n <= k < |s| ==> IsSpace(s[k])
    ensures n < |s| ==> !IsSpace(s[|s| - 1 - n])
  {
    if |s| > 0 && IsSpace(s[|s| - 1]) then 1 + TrailingSpaces(s[..|s| - 1]) else 0
  }

  /** `s.trim()`: drops leading and trailing whitespace and nothing else. */
  function Trim(s: string): (r: string)
    ensures IsTrimmed(r)
    ensures LeadingSpaces(s) + |r| <= |s| && r == s[LeadingSpaces(s)..LeadingSpaces(s) + |r|]
    ensures r == "" <==> AllSpace(s)
    ensures IsTrimmed(s) ==> r == s
    ensures AllSpace(s[..LeadingSpaces(s)]) && AllSpace(s[LeadingSpaces(s) + |r|..])
  {
    var t := s[LeadingSpaces(s)..];
    t[..|t| - TrailingSpaces(t)]
  }

  /** `s.trim() === ""` */
  predicate IsBlank(s: string) {
    Trim(s) == ""
  }

  function LowerChar(c: char): char {
    if 'A' <= c <= 'Z' then (c as int + 32) as char else c
  }

  /** ASCII `toLowerCase`. */
  function Lower(s: string): string {
    seq(|s|, k requires 0 <= k < |s| => LowerChar(s[k]))
  }

  predicate OccursAt(s: string, sub: string, i: int) {
    0 <= i && i + |sub| <= |s| && s[i..i + |sub|] == sub
  }

  /** `s.includes(sub)` */
  predicate Contains(s: string, sub: string) {
    exists i :: 0 <= i <= |s| - |sub| && OccursAt(s, sub, i)
  }

  /** `a.toLowerCase().includes(b.toLowerCase())`: the case-insensitive
      substring test every column heuristic is built from. */
  predicate Matches(header: string, term: string) {
    Contains(Lower(header), Lower(term))
  }

  /** Only the empty needle occurs in the empty string, so a header that
      matches a non-empty term is never the empty (falsy) string. */
  lemma MatchNonEmpty(header: string, term: string)
    requires term != ""
    requires Matches(header, term)
    ensures header != ""
  {
    var i :| OccursAt(Lower(header), Lower(term), i);
  }

  /** `parts[0] + sep + parts[1] + ... + sep + parts[n-1]` */
  function Join(parts: seq<string>, sep: string): string {
    if |parts| == 0 then ""
    else if |parts| == 1 then parts[0]
    else Join(parts[..|parts| - 1], sep) + sep + parts[|parts| - 1]
  }

  /** `s.split(d)` for a one-character separator: every maximal run of
      non-`d` characters, including the empty ones between adjacent `d`s. */
  function Split(s: string, d: char): (r: seq<string>)
    ensures |r| >= 1
    ensures forall k :: 0 <= k < |r| ==> d !in r[k]
  {
    if |s| == 0 then [""]
    else
      var prev := Split(s[..|s| - 1], d);
      var c := s[|s| - 1];
      if c == d then prev + [""]
      else prev[..|prev| - 1] + [prev[|prev| - 1] + [c]]
  }

  lemma JoinAppendEmpty(parts: seq<string>, sep: string)
    requires |parts| >= 1
    ensures Join(parts + [""], sep) == Join(parts, sep) + sep
  {
    assert (parts + [""])[..|parts|] == parts;
  }

  lemma JoinExtendLast(parts: seq<string>, sep: string, c: char)
    requires |parts| >= 1
    ensures Join(parts[..|parts| - 1] + [parts[|parts| - 1] + [c]], sep) == Join(parts, sep) + [c]
  {
    var q := parts[..|parts| - 1] + [parts[|parts| - 1] + [c]];
    assert q[..|q| - 1] == parts[..|parts| - 1];
  }

  /** One more character either opens a new piece or extends the last one. */
  lemma SplitSnoc(s: string, c: char, d: char)
    ensures var prev := Split(s, d);
      Split(s + [c], d) == if c == d then prev + [""] else prev[..|prev| - 1] + [prev[|prev| - 1] + [c]]
  {
    assert (s + [c])[..|s|] == s;
  }

  /** Joining the pieces of a split with the separator gives back the text. */
  lemma {:induction false} SplitJoin(s: string, d: char)
    ensures Join(Split(s, d), [d]) == s
  {
    if |s| > 0 {
      var p := s[..|s| - 1];
      var c := s[|s| - 1];
      assert p + [c] == s;
      SplitJoin(p, d);
      SplitSnoc(p, c, d);
      var prev := Split(p, d);
      if c == d {
        JoinAppendEmpty(prev, [d]);
      } else {
        JoinExtendLast(prev, [d], c);
      }
    }
  }

  /** Splitting `a + d + b` where `b` holds no `d` splits `a` and then yields `b`. */
  lemma {:induction false} SplitLastPiece(a: string, d: char, b: string)
    requires d !in b
    ensures Split(a + [d] + b, d) == Split(a, d) + [b]
    decreases |b|
  {
    if |b| == 0 {
      assert a + [d] + b == a + [d];
      SplitSnoc(a, d, d);
    } else {
      var b' := b[..|b| - 1];
      var c := b[|b| - 1];
      assert b' + [c] == b;
      assert c != d;
      SplitLastPiece(a, d, b');
      assert a + [d] + b == (a + [d] + b') + [c];
      SplitSnoc(a + [d] + b', c, d);
      var prev := Split(a + [d] + b', d);
      assert prev == Split(a, d) + [b'];
      assert prev[..|prev| - 1] == Split(a, d);
    }
  }

  /** Splitting a single piece without separators gives that piece back. */
  lemma {:induction false} SplitNoSeparator(b: string, d: char)
    requires d !in b
    ensures Split(b, d) == [b]
    decreases |b|
  {
    if |b| > 0 {
      var b' := b[..|b| - 1];
      SplitNoSeparator(b', d);
      assert b' + [b[|b| - 1]] == b;
    }
  }

  /** The other direction of the round trip: separator-free pieces joined
      with the separator split back into exactly those pieces. */
  lemma {:induction false} JoinSplit(parts: seq<string>, d: char)
    requires |parts| >= 1
    requires forall k :: 0 <= k < |parts| ==> d !in parts[k]
    ensures Split(Join(parts, [d]), d) == parts
    decreases |parts|
  {
    if |parts| == 1 {
      SplitNoSeparator(parts[0], d);
    } else {
      var pre := parts[..|parts| - 1];
      var last := parts[|parts| - 1];
      assert pre + [last] == parts;
      assert Join(parts, [d]) == Join(pre, [d]) + [d] + last;
      JoinSplit(pre, d);
      SplitLastPiece(Join(pre, [d]), d, last);
    }
  }
}
