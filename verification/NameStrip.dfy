/** Normalising the names that go into an art path. */
module NameStripSpec {
  import opened Common

  const BLOCKS: seq<(char, char)> := [('(', ')'), ('{', '}'), ('[', ']'), ('<', '>')]
  const INVALID: string := "()[]<>{}_!@#$^&*+=|\\/\"'?~"

  // Bracketed blocks

  datatype Span = Span(start: nat, end: nat)

  /** First `c` at or after `from`, or the length. */
  function IndexOf(s: string, c: char, from: nat): (i: nat)
    requires from <= |s|
    ensures from <= i <= |s| && (i < |s| ==> s[i] == c)
    decreases |s| - from
  {
    if from == |s| || s[from] == c then from else IndexOf(s, c, from + 1)
  }

  lemma {:induction false} IndexIsFirst(s: string, c: char, from: nat, k: nat)
    requires from <= k < |s| && s[k] == c
    ensures IndexOf(s, c, from) <= k
    decreases |s| - from
  {
    if from < k {
      IndexIsFirst(s, c, from + 1, k);
    }
  }

  /** The first opener together with the first closer after it. */
  function FindBlock(s: string, open: char, close: char): (b: Option<Span>)
    ensures b.Some? ==> b.value.start < b.value.end < |s| && s[b.value.start] == open && s[b.value.end] == close
  {
    var p1 := IndexOf(s, open, 0);
    if p1 == |s| then None
    else
      var p2 := IndexOf(s, close, p1 + 1);
      if p2 == |s| then None else Some(Span(p1, p2))
  }

  function BlockOf(s: string, k: nat): Option<Span>
    requires k < |BLOCKS|
  {
    FindBlock(s, BLOCKS[k].0, BLOCKS[k].1)
  }

  /** The earliest block among the first `n` kinds. */
  function Earliest(s: string, n: nat): (b: Option<Span>)
    requires n <= |BLOCKS|
    ensures b.Some? ==> b.value.start < b.value.end < |s|
  {
    if n == 0 then None
    else Earlier(Earliest(s, n - 1), BlockOf(s, n - 1))
  }

  function Earlier(best: Option<Span>, next: Option<Span>): Option<Span> {
    if next.Some? && (best.None? || next.value.start < best.value.start) then next else best
  }

  /** It is the leftmost block of any of those kinds. */
  lemma {:induction false} EarliestIs(s: string, n: nat) returns (found: nat)
    requires n <= |BLOCKS|
    ensures Earliest(s, n).Some? ==> found < n && BlockOf(s, found) == Earliest(s, n)
    ensures forall k :: 0 <= k < n && BlockOf(s, k).Some? ==>
      Earliest(s, n).Some? && Earliest(s, n).value.start <= BlockOf(s, k).value.start
  {
    found := 0;
    if n > 0 {
      found := EarliestIs(s, n - 1);
      if Earliest(s, n) == BlockOf(s, n - 1) { found := n - 1; }
    }
  }

  function RemoveBlocks(s: string): string
    decreases |s|
  {
    var b := Earliest(s, |BLOCKS|);
    if b.None? then s else s[..b.value.start] + RemoveBlocks(s[b.value.end + 1..])
  }

  predicate Opener(c: char) {
    exists k :: 0 <= k < |BLOCKS| && BLOCKS[k].0 == c
  }

  predicate NoOpeners(s: string) {
    forall i :: 0 <= i < |s| ==> !Opener(s[i])
  }

  // Library string operations

  /** The locale's lower-casing, one character at a time. */
  function Lower(s: string, lower: char -> char): (r: string)
    ensures |r| == |s| && forall i :: 0 <= i < |s| ==> r[i] == lower(s[i])
  {
    if s == [] then [] else [lower(s[0])] + Lower(s[1..], lower)
  }

  function Delimit(s: string, delimiters: string, mark: char): (r: string)
    ensures |r| == |s| && forall i :: 0 <= i < |s| ==> r[i] == if s[i] in delimiters then mark else s[i]
  {
    if s == [] then [] else [if s[0] in delimiters then mark else s[0]] + Delimit(s[1..], delimiters, mark)
  }

  predicate At(s: string, d: string) {
    |d| <= |s| && s[..|d|] == d
  }

  /** The parts of `s` between occurrences of `d`, found from the left. */
  function Pieces(s: string, d: string): (p: seq<string>)
    requires d != []
    ensures p != []
    decreases |s|
  {
    if s == [] then [""]
    else if At(s, d) then [""] + Pieces(s[|d|..], d)
    else
      var p := Pieces(s[1..], d);
      [[s[0]] + p[0]] + p[1..]
  }

  /** An empty string splits into nothing. */
  function Split(s: string, d: string): seq<string>
    requires d != []
  {
    if s == [] then [] else Pieces(s, d)
  }

  function Join(parts: seq<string>, separator: string): string {
    if parts == [] then ""
    else if |parts| == 1 then parts[0]
    else parts[0] + separator + Join(parts[1..], separator)
  }

  /** ASCII white space as the string library classes it. */
  predicate IsSpace(c: char) {
    c == ' ' || c == '\t' || c == '\n' || c == '\r' || c == '\U{0C}'
  }

  function TrimLeft(s: string): string {
    if s != [] && IsSpace(s[0]) then TrimLeft(s[1..]) else s
  }

  function TrimRight(s: string): string {
    if s != [] && IsSpace(s[|s| - 1]) then TrimRight(s[..|s| - 1]) else s
  }

  function Trim(s: string): string {
    TrimRight(TrimLeft(s))
  }

  /** The whole normalisation. */
  function Strip(s: string, lower: char -> char): string {
    var noInvalid := Join(Split(Delimit(Lower(RemoveBlocks(s), lower), INVALID, '*'), "*"), "");
    var noTabs := Join(Split(Delimit(noInvalid, "\t", ' '), " "), " ");
    Trim(Join(Split(noTabs, "  "), " "))
  }

  // What the steps amount to

  function Replace(s: string, d: string, r: string): string
    requires d != []
    decreases |s|
  {
    if s == [] then [] else if At(s, d) then r + Replace(s[|d|..], d, r) else [s[0]] + Replace(s[1..], d, r)
  }

  function Keep(s: string): string {
    if s == [] then [] else if s[0] in INVALID then Keep(s[1..]) else [s[0]] + Keep(s[1..])
  }

  /** Every run of `n` spaces becomes one of half that length, rounded up. */
  function Halve(s: string): string {
    if |s| < 2 then s
    else if s[0] == ' ' && s[1] == ' ' then [' '] + Halve(s[2..])
    else [s[0]] + Halve(s[1..])
  }

  function Cleaned(s: string, lower: char -> char): string {
    Delimit(Keep(Lower(RemoveBlocks(s), lower)), "\t", ' ')
  }

  lemma JoinAfterChar(parts: seq<string>, c: char, r: string)
    requires parts != []
    ensures Join([[c] + parts[0]] + parts[1..], r) == [c] + Join(parts, r)
  {
    if |parts| > 1 {
      assert [c] + parts[0] + r + Join(parts[1..], r) == [c] + (parts[0] + r + Join(parts[1..], r));
    }
  }

  lemma JoinAfterMark(parts: seq<string>, r: string)
    requires parts != []
    ensures Join([""] + parts, r) == r + Join(parts, r)
  {}

  lemma {:induction false} JoinPieces(s: string, d: string, r: string)
    requires d != []
    ensures Join(Pieces(s, d), r) == Replace(s, d, r)
    decreases |s|
  {
    if s != [] {
      if At(s, d) {
        JoinPieces(s[|d|..], d, r);
        JoinAfterMark(Pieces(s[|d|..], d), r);
      } else {
        JoinPieces(s[1..], d, r);
        JoinAfterChar(Pieces(s[1..], d), s[0], r);
      }
    }
  }

  lemma {:induction false} ReplaceInvalid(s: string)
    ensures Replace(Delimit(s, INVALID, '*'), "*", "") == Keep(s)
  {
    if s != [] {
      var t := Delimit(s, INVALID, '*');
      assert t[1..] == Delimit(s[1..], INVALID, '*');
      ReplaceInvalid(s[1..]);
      assert At(t, "*") <==> t[0] == '*';
    }
  }

  lemma {:induction false} ReplaceSame(s: string)
    ensures Replace(s, " ", " ") == s
  {
    if s != [] {
      ReplaceSame(s[1..]);
    }
  }

  lemma {:induction false} ReplaceDouble(s: string)
    ensures Replace(s, "  ", " ") == Halve(s)
    decreases |s|
  {
    if s != [] {
      assert At(s, "  ") <==> |s| >= 2 && s[0] == ' ' && s[1] == ' ';
      if At(s, "  ") {
        ReplaceDouble(s[2..]);
      } else {
        ReplaceDouble(s[1..]);
      }
    }
  }

  lemma JoinSplit(s: string, d: string, r: string)
    requires d != []
    ensures Join(Split(s, d), r) == Replace(s, d, r)
  {
    if s != [] {
      JoinPieces(s, d, r);
    }
  }

  /** The delimit, split and join steps drop the invalid characters, turn tabs into spaces and halve the runs. */
  lemma StripIs(s: string, lower: char -> char)
    ensures Strip(s, lower) == Trim(Halve(Cleaned(s, lower)))
  {
    var t := Lower(RemoveBlocks(s), lower);
    JoinSplit(Delimit(t, INVALID, '*'), "*", "");
    ReplaceInvalid(t);
    var u := Cleaned(s, lower);
    JoinSplit(u, " ", " ");
    ReplaceSame(u);
    JoinSplit(u, "  ", " ");
    ReplaceDouble(u);
  }

  // Output characters and order

  predicate Subsequence(t: string, s: string) {
    t == [] || (s != [] && ((t[0] == s[0] && Subsequence(t[1..], s[1..])) || Subsequence(t, s[1..])))
  }

  lemma {:induction false} SubsequenceRefl(s: string)
    ensures Subsequence(s, s)
  {
    if s != [] {
      SubsequenceRefl(s[1..]);
    }
  }

  lemma {:induction false} SubsequenceTail(t: string, s: string)
    requires t != [] && Subsequence(t, s)
    ensures Subsequence(t[1..], s)
    decreases s
  {
    if Subsequence(t, s[1..]) {
      SubsequenceTail(t, s[1..]);
    } else if |t| > 1 {
      SubsequenceTail(t[1..], s[1..]);
    }
  }

  lemma {:induction false} SubsequenceTrans(r: string, t: string, s: string)
    requires Subsequence(r, t) && Subsequence(t, s)
    ensures Subsequence(r, s)
    decreases |s| + |t|
  {
    if r != [] {
      if Subsequence(t, s[1..]) {
        SubsequenceTrans(r, t, s[1..]);
      } else if Subsequence(r, t[1..]) {
        SubsequenceTrans(r, t[1..], s[1..]);
      } else {
        SubsequenceTrans(r[1..], t[1..], s[1..]);
      }
    }
  }

  lemma {:induction false} SubsequenceDrop(t: string, s: string, n: nat)
    requires n <= |s| && Subsequence(t, s[n..])
    ensures Subsequence(t, s)
    decreases n
  {
    if n > 0 {
      assert s[n - 1..][1..] == s[n..];
      SubsequenceDrop(t, s, n - 1);
    }
  }

  /** A common prefix and then a subsequence of what remains. */
  lemma {:induction false} SubsequencePrefix(p: string, t: string, s: string)
    requires Subsequence(t, s)
    ensures Subsequence(p + t, p + s)
  {
    if p == [] {
      assert p + t == t && p + s == s;
    } else {
      SubsequencePrefix(p[1..], t, s);
      assert (p + t)[1..] == p[1..] + t && (p + s)[1..] == p[1..] + s;
    }
  }

  lemma {:induction false} SubsequenceOfPrefix(s: string, n: nat)
    requires n <= |s|
    ensures Subsequence(s[..n], s)
  {
    if n > 0 {
      SubsequenceOfPrefix(s[1..], n - 1);
      assert s[..n][1..] == s[1..][..n - 1];
    }
  }

  /** Mapping every character alike keeps the order. */
  predicate Mapped(s: string, t: string, f: char -> char) {
    |s| == |t| && forall i :: 0 <= i < |s| ==> t[i] == f(s[i])
  }

  lemma {:induction false} SubsequenceMapped(t: string, s: string, t': string, s': string, f: char -> char)
    requires Subsequence(t, s) && Mapped(t, t', f) && Mapped(s, s', f)
    ensures Subsequence(t', s')
    decreases s
  {
    if t != [] {
      if Subsequence(t, s[1..]) {
        SubsequenceMapped(t, s[1..], t', s'[1..], f);
      } else {
        SubsequenceMapped(t[1..], s[1..], t'[1..], s'[1..], f);
      }
    }
  }

  lemma SubsequenceCut(s: string, i: nat, j: nat, t: string)
    requires i <= j <= |s| && Subsequence(t, s[j..])
    ensures Subsequence(s[..i] + t, s)
  {
    assert s[i..][j - i..] == s[j..];
    SubsequenceDrop(t, s[i..], j - i);
    SubsequencePrefix(s[..i], t, s[i..]);
    assert s[..i] + s[i..] == s;
  }

  lemma {:induction false} RemoveBlocksSubsequence(s: string)
    ensures Subsequence(RemoveBlocks(s), s)
    decreases |s|
  {
    match Earliest(s, |BLOCKS|)
    case None =>
      SubsequenceRefl(s);
    case Some(b) =>
      RemoveBlocksSubsequence(s[b.end + 1..]);
      SubsequenceCut(s, b.start, b.end + 1, RemoveBlocks(s[b.end + 1..]));
  }

  lemma {:induction false} KeepSubsequence(s: string)
    ensures Subsequence(Keep(s), s)
    ensures forall i :: 0 <= i < |Keep(s)| ==> Keep(s)[i] !in INVALID
  {
    if s != [] {
      KeepSubsequence(s[1..]);
    }
  }

  lemma {:induction false} HalveSubsequence(s: string)
    ensures Subsequence(Halve(s), s)
    ensures forall i :: 0 <= i < |Halve(s)| ==> Halve(s)[i] in s
    decreases |s|
  {
    if |s| < 2 {
      SubsequenceRefl(s);
    } else if s[0] == ' ' && s[1] == ' ' {
      HalveSubsequence(s[2..]);
      SubsequenceDrop(Halve(s[2..]), s[1..], 1);
    } else {
      HalveSubsequence(s[1..]);
    }
  }

  /** No white space at either end. */
  predicate Trimmed(s: string) {
    s != [] ==> !IsSpace(s[0]) && !IsSpace(s[|s| - 1])
  }

  lemma {:induction false} TrimLeftIs(s: string) returns (n: nat)
    ensures n <= |s| && TrimLeft(s) == s[n..] && (n < |s| ==> !IsSpace(s[n])) && forall i :: 0 <= i < n ==> IsSpace(s[i])
  {
    n := 0;
    if s != [] && IsSpace(s[0]) {
      n := TrimLeftIs(s[1..]);
      n := n + 1;
    }
  }

  lemma {:induction false} TrimRightIs(s: string) returns (n: nat)
    ensures n <= |s| && TrimRight(s) == s[..n] && (n > 0 ==> !IsSpace(s[n - 1])) && forall i :: n <= i < |s| ==> IsSpace(s[i])
  {
    n := |s|;
    if s != [] && IsSpace(s[|s| - 1]) {
      n := TrimRightIs(s[..|s| - 1]);
      assert s[..|s| - 1][..n] == s[..n];
    }
  }

  /** Trimming leaves the part between the first and the last character that is not white space. */
  lemma TrimIs(s: string) returns (m: nat, n: nat)
    ensures m <= n <= |s| && Trim(s) == s[m..n] && Trimmed(s[m..n])
    ensures forall i :: 0 <= i < m || n <= i < |s| ==> IsSpace(s[i])
  {
    m := TrimLeftIs(s);
    n := TrimRightIs(s[m..]);
    n := n + m;
    assert s[m..][..n - m] == s[m..n];
  }

  lemma TrimSubsequence(s: string)
    ensures Subsequence(Trim(s), s) && forall i :: 0 <= i < |Trim(s)| ==> Trim(s)[i] in s
  {
    var m, n := TrimIs(s);
    SubsequenceOfPrefix(s[m..], n - m);
    assert s[m..][..n - m] == s[m..n];
    SubsequenceDrop(s[m..n], s, m);
  }

  function TabToSpace(c: char): char {
    if c in "\t" then ' ' else c
  }

  lemma DelimitTabsMapped(s: string)
    ensures Mapped(s, Delimit(s, "\t", ' '), TabToSpace)
  {}

  lemma CleanedSubsequence(s: string, lower: char -> char)
    ensures Subsequence(Cleaned(s, lower), Delimit(Lower(s, lower), "\t", ' '))
  {
    var t := RemoveBlocks(s);
    RemoveBlocksSubsequence(s);
    SubsequenceMapped(t, s, Lower(t, lower), Lower(s, lower), lower);
    KeepSubsequence(Lower(t, lower));
    SubsequenceTrans(Keep(Lower(t, lower)), Lower(t, lower), Lower(s, lower));
    DelimitTabsMapped(Keep(Lower(t, lower)));
    DelimitTabsMapped(Lower(s, lower));
    SubsequenceMapped(Keep(Lower(t, lower)), Lower(s, lower), Cleaned(s, lower), Delimit(Lower(s, lower), "\t", ' '), TabToSpace);
  }

  predicate CleanChar(c: char) {
    c !in INVALID && c != '\t'
  }

  lemma CleanedChars(s: string, lower: char -> char)
    ensures forall i :: 0 <= i < |Cleaned(s, lower)| ==> CleanChar(Cleaned(s, lower)[i])
  {
    KeepSubsequence(Lower(RemoveBlocks(s), lower));
  }

  /** The result keeps the order of the lower-cased name and holds no invalid character, no tab and no
      outer white space. */
  lemma StripOutput(s: string, lower: char -> char)
    ensures var r := Strip(s, lower);
      Subsequence(r, Delimit(Lower(s, lower), "\t", ' ')) && Trimmed(r) && forall i :: 0 <= i < |r| ==> CleanChar(r[i])
  {
    StripIs(s, lower);
    var c := Cleaned(s, lower);
    CleanedSubsequence(s, lower);
    CleanedChars(s, lower);
    HalveSubsequence(c);
    TrimSubsequence(Halve(c));
    SubsequenceTrans(Halve(c), c, Delimit(Lower(s, lower), "\t", ' '));
    SubsequenceTrans(Strip(s, lower), Halve(c), Delimit(Lower(s, lower), "\t", ' '));
    var m, n := TrimIs(Halve(c));
  }

  // Blocks

  /** An opener of kind `k` with a closer after it. */
  predicate Closed(s: string, k: nat)
    requires k < |BLOCKS|
  {
    exists i, j :: 0 <= i < j < |s| && s[i] == BLOCKS[k].0 && s[j] == BLOCKS[k].1
  }

  lemma BlockIffClosed(s: string, k: nat)
    requires k < |BLOCKS|
    ensures BlockOf(s, k).Some? <==> Closed(s, k)
  {
    forall i, j | 0 <= i < j < |s| && s[i] == BLOCKS[k].0 && s[j] == BLOCKS[k].1
      ensures BlockOf(s, k).Some? && BlockOf(s, k).value.start <= i
    {
      BlockIsLeftmost(s, k, i, j);
    }
  }

  lemma BlockIsLeftmost(s: string, k: nat, i: nat, j: nat)
    requires k < |BLOCKS| && i < j < |s| && s[i] == BLOCKS[k].0 && s[j] == BLOCKS[k].1
    ensures BlockOf(s, k).Some? && BlockOf(s, k).value.start <= i
  {
    IndexIsFirst(s, BLOCKS[k].0, 0, i);
    IndexIsFirst(s, BLOCKS[k].1, IndexOf(s, BLOCKS[k].0, 0) + 1, j);
  }

  lemma {:induction false} RemoveBlocksChars(s: string, c: char)
    requires c !in s
    ensures c !in RemoveBlocks(s)
    decreases |s|
  {
    match Earliest(s, |BLOCKS|)
    case None =>
    case Some(b) =>
      RemoveBlocksChars(s[b.end + 1..], c);
  }

  /** Before the leftmost block, a kind is either absent or never closed. */
  lemma BeforeBlock(s: string, b: Span, k: nat, i: nat, j: nat)
    requires Earliest(s, |BLOCKS|) == Some(b) && k < |BLOCKS| && i < b.start && i < j < |s|
    ensures s[i] == BLOCKS[k].0 ==> s[j] != BLOCKS[k].1
  {
    if s[i] == BLOCKS[k].0 && s[j] == BLOCKS[k].1 {
      var found := EarliestIs(s, |BLOCKS|);
      BlockIsLeftmost(s, k, i, j);
    }
  }

  lemma NotClosedInParts(p: string, t: string, k: nat)
    requires k < |BLOCKS| && !Closed(t, k)
    requires forall i :: 0 <= i < |p| && p[i] == BLOCKS[k].0 ==> BLOCKS[k].1 !in t && BLOCKS[k].1 !in p[i + 1..]
    ensures !Closed(p + t, k)
  {
    var s := p + t;
    forall i, j | 0 <= i < j < |s| && s[i] == BLOCKS[k].0 ensures s[j] != BLOCKS[k].1 {
      if i >= |p| {
        assert t[i - |p|] == s[i] && t[j - |p|] == s[j];
      } else if j < |p| {
        assert p[i + 1..][j - i - 1] == s[j];
      } else {
        assert t[j - |p|] == s[j];
      }
    }
  }

  /** Removing blocks never leaves or creates one. */
  lemma {:induction false} NoBlockRemains(s: string, k: nat)
    requires k < |BLOCKS|
    ensures !Closed(RemoveBlocks(s), k)
    decreases |s|
  {
    match Earliest(s, |BLOCKS|)
    case None =>
      var found := EarliestIs(s, |BLOCKS|);
      BlockIffClosed(s, k);
    case Some(b) =>
      NoBlockRemains(s[b.end + 1..], k);
      forall i | 0 <= i < b.start && s[i] == BLOCKS[k].0
        ensures BLOCKS[k].1 !in RemoveBlocks(s[b.end + 1..]) && BLOCKS[k].1 !in s[..b.start][i + 1..]
      {
        NoCloserAfter(s, b, i, k);
      }
      NotClosedInParts(s[..b.start], RemoveBlocks(s[b.end + 1..]), k);
  }

  lemma NoCloserAfter(s: string, b: Span, i: nat, k: nat)
    requires b.end < |s| && b.start < b.end && Earliest(s, |BLOCKS|) == Some(b)
    requires i < b.start && k < |BLOCKS| && s[i] == BLOCKS[k].0
    ensures BLOCKS[k].1 !in RemoveBlocks(s[b.end + 1..]) && BLOCKS[k].1 !in s[..b.start][i + 1..]
  {
    forall j | i < j < |s| ensures s[j] != BLOCKS[k].1 {
      BeforeBlock(s, b, k, i, j);
    }
    RemoveBlocksChars(s[b.end + 1..], BLOCKS[k].1);
  }

  lemma {:induction false} NoneWithoutBlocks(s: string, n: nat)
    requires n <= |BLOCKS| && forall k :: 0 <= k < n ==> !Closed(s, k)
    ensures Earliest(s, n).None?
  {
    if n > 0 {
      NoneWithoutBlocks(s, n - 1);
      BlockIffClosed(s, n - 1);
    }
  }

  lemma NoBlocksInNothing()
    ensures RemoveBlocks("") == ""
  {
    NoneWithoutBlocks("", |BLOCKS|);
  }

  lemma RemoveBlocksTwice(s: string)
    ensures RemoveBlocks(RemoveBlocks(s)) == RemoveBlocks(s)
  {
    forall k | 0 <= k < |BLOCKS| ensures !Closed(RemoveBlocks(s), k) {
      NoBlockRemains(s, k);
    }
    NoneWithoutBlocks(RemoveBlocks(s), |BLOCKS|);
  }

  function Shift(b: Option<Span>, n: nat): Option<Span> {
    match b
    case None => None
    case Some(x) => Some(Span(x.start + n, x.end + n))
  }

  lemma BlockShift(p: string, s: string, k: nat)
    requires NoOpeners(p) && k < |BLOCKS|
    ensures BlockOf(p + s, k) == Shift(BlockOf(s, k), |p|)
  {
    forall i | 0 <= i < |p| ensures p[i] != BLOCKS[k].0 {
      assert !Opener(p[i]);
    }
    IndexSkips(p, s, BLOCKS[k].0, 0);
    var p1 := IndexOf(s, BLOCKS[k].0, 0);
    if p1 < |s| {
      IndexShift(p, s, BLOCKS[k].1, p1 + 1);
    }
  }

  lemma {:induction false} IndexShift(p: string, s: string, c: char, from: nat)
    requires from <= |s|
    ensures IndexOf(p + s, c, from + |p|) == IndexOf(s, c, from) + |p|
    decreases |s| - from
  {
    if from < |s| && s[from] != c {
      IndexShift(p, s, c, from + 1);
    }
  }

  lemma {:induction false} IndexSkips(p: string, s: string, c: char, from: nat)
    requires from <= |p| && forall i :: 0 <= i < |p| ==> p[i] != c
    ensures IndexOf(p + s, c, from) == IndexOf(s, c, 0) + |p|
    decreases |p| - from
  {
    if from < |p| {
      IndexSkips(p, s, c, from + 1);
    } else {
      IndexShift(p, s, c, 0);
    }
  }

  lemma EarlierShift(best: Option<Span>, next: Option<Span>, n: nat)
    ensures Earlier(Shift(best, n), Shift(next, n)) == Shift(Earlier(best, next), n)
  {}

  lemma {:induction false} EarliestShift(p: string, s: string, n: nat)
    requires NoOpeners(p) && n <= |BLOCKS|
    ensures Earliest(p + s, n) == Shift(Earliest(s, n), |p|)
  {
    if n > 0 {
      EarliestShift(p, s, n - 1);
      BlockShift(p, s, n - 1);
      EarlierShift(Earliest(s, n - 1), BlockOf(s, n - 1), |p|);
    }
  }

  lemma {:induction false} RemoveFirst(s: string, start: nat, end: nat)
    requires start < end < |s| && Earliest(s, |BLOCKS|) == Some(Span(start, end))
    ensures RemoveBlocks(s) == s[..start] + RemoveBlocks(s[end + 1..])
  {}

  lemma {:induction false} RemoveShifted(p: string, s: string, t: string, start: nat, end: nat)
    requires start < end < |s| && Earliest(s, |BLOCKS|) == Some(Span(start, end))
    requires end + |p| < |t| && Earliest(t, |BLOCKS|) == Some(Span(start + |p|, end + |p|))
    requires t[..start + |p|] == p + s[..start] && t[end + |p| + 1..] == s[end + 1..]
    ensures RemoveBlocks(t) == p + RemoveBlocks(s)
  {
    RemoveFirst(s, start, end);
    RemoveFirst(t, start + |p|, end + |p|);
    Regroup(p, s[..start], RemoveBlocks(s[end + 1..]));
  }

  lemma Regroup(a: string, b: string, c: string)
    ensures a + (b + c) == (a + b) + c
    ensures a + "" == a
  {}

  /** Text without openers passes through. */
  lemma {:induction false} PrefixKept(p: string, s: string)
    requires NoOpeners(p)
    ensures RemoveBlocks(p + s) == p + RemoveBlocks(s)
  {
    EarliestShift(p, s, |BLOCKS|);
    match Earliest(s, |BLOCKS|)
    case None =>
    case Some(b) =>
      RemoveShifted(p, s, p + s, b.start, b.end);
  }

  /** `inner` between the brackets of kind `k`. */
  function Block(k: nat, inner: string): string
    requires k < |BLOCKS|
  {
    [BLOCKS[k].0] + inner + [BLOCKS[k].1]
  }

  lemma LeadingBlock(k: nat, inner: string, s: string)
    requires k < |BLOCKS| && BLOCKS[k].1 !in inner
    ensures RemoveBlocks(Block(k, inner) + s) == RemoveBlocks(s)
  {
    var t := Block(k, inner) + s;
    var end := |inner| + 1;
    LeadingSpan(k, inner, s);
    var found := EarliestIs(t, |BLOCKS|);
    assert BlockOf(t, found).value.start == 0;
    assert found == k;
    assert t[end + 1..] == s && t[..0] == "";
  }

  lemma LeadingSpan(k: nat, inner: string, s: string)
    requires k < |BLOCKS| && BLOCKS[k].1 !in inner
    ensures BlockOf(Block(k, inner) + s, k) == Some(Span(0, |inner| + 1))
  {
    var t := Block(k, inner) + s;
    var end := |inner| + 1;
    assert t[end] == BLOCKS[k].1;
    forall i | 1 <= i < end ensures t[i] != BLOCKS[k].1 {
      assert t[i] == inner[i - 1] && inner[i - 1] in inner;
    }
    assert t[0] == BLOCKS[k].0;
    IndexIsFirst(t, BLOCKS[k].1, 1, end);
  }

  /** Putting a closed block after text without openers changes nothing. */
  lemma BlockVanishes(p: string, k: nat, inner: string, s: string)
    requires NoOpeners(p) && k < |BLOCKS| && BLOCKS[k].1 !in inner
    ensures RemoveBlocks(p + (Block(k, inner) + s)) == RemoveBlocks(p + s)
  {
    LeadingBlock(k, inner, s);
    PrefixKept(p, Block(k, inner) + s);
    PrefixKept(p, s);
  }

  lemma StripIgnoresBlock(p: string, k: nat, inner: string, s: string, lower: char -> char)
    requires NoOpeners(p) && k < |BLOCKS| && BLOCKS[k].1 !in inner
    ensures Strip(p + (Block(k, inner) + s), lower) == Strip(p + s, lower)
  {
    BlockVanishes(p, k, inner, s);
  }

  /** What closes an opening bracket, in plain characters. */
  predicate Brackets(open: char, close: char) {
    (open == '(' && close == ')') || (open == '[' && close == ']') || (open == '{' && close == '}') || (open == '<' && close == '>')
  }

  lemma KindOf(open: char, close: char) returns (k: nat)
    requires Brackets(open, close)
    ensures k < |BLOCKS| && BLOCKS[k] == (open, close)
  {
    k := if open == '(' then 0 else if open == '{' then 1 else if open == '[' then 2 else 3;
  }

  lemma KindsAreBrackets(k: nat)
    requires k < |BLOCKS|
    ensures Brackets(BLOCKS[k].0, BLOCKS[k].1)
  {}

  /** No bracket is closed anywhere in the text. */
  predicate NothingClosed(s: string) {
    forall i, j :: 0 <= i < j < |s| ==> !Brackets(s[i], s[j])
  }

  lemma NothingClosedIs(s: string)
    ensures NothingClosed(s) <==> forall k :: 0 <= k < |BLOCKS| ==> !Closed(s, k)
  {
    if NothingClosed(s) {
      forall k | 0 <= k < |BLOCKS| ensures !Closed(s, k) {
        KindsAreBrackets(k);
      }
    } else {
      var i, j :| 0 <= i < j < |s| && Brackets(s[i], s[j]);
      var k := KindOf(s[i], s[j]);
      assert Closed(s, k);
    }
  }

  /** Text in which nothing is closed is left as it is. */
  lemma KeptIfNothingClosed(s: string)
    requires NothingClosed(s)
    ensures RemoveBlocks(s) == s
  {
    NothingClosedIs(s);
    NoneWithoutBlocks(s, |BLOCKS|);
  }

  /** From i to j is the block to cut next: the leftmost bracket that is closed later, up to its first closer. */
  predicate CutsNext(s: string, i: nat, j: nat) {
    && i < j < |s| && Brackets(s[i], s[j])
    && (forall x, y :: 0 <= x < i && x < y < |s| ==> !Brackets(s[x], s[y]))
    && (forall y :: i < y < j ==> s[y] != s[j])
  }

  lemma LeftmostIs(s: string, i: nat, j: nat)
    requires CutsNext(s, i, j)
    ensures Earliest(s, |BLOCKS|) == Some(Span(i, j))
  {
    var k := KindOf(s[i], s[j]);
    BlockIsLeftmost(s, k, i, j);
    var found := EarliestIs(s, |BLOCKS|);
    var b := Earliest(s, |BLOCKS|).value;
    KindsAreBrackets(found);
    assert Brackets(s[b.start], s[b.end]);
    assert b.start == i && s[b.end] == s[j];
    FirstCloser(s, found, i, j);
  }

  lemma FirstCloser(s: string, k: nat, i: nat, j: nat)
    requires k < |BLOCKS| && i < j < |s| && s[j] == BLOCKS[k].1 && BlockOf(s, k).Some? && BlockOf(s, k).value.start == i
    requires forall y :: i < y < j ==> s[y] != s[j]
    ensures BlockOf(s, k).value.end == j
  {
    IndexIsFirst(s, BLOCKS[k].1, i + 1, j);
  }

  /** Removing blocks cuts the leftmost closed bracket up to its first closer, keeps what is before and goes
      on after it. */
  lemma CutsLeftmost(s: string, i: nat, j: nat)
    requires CutsNext(s, i, j)
    ensures RemoveBlocks(s) == s[..i] + RemoveBlocks(s[j + 1..])
  {
    LeftmostIs(s, i, j);
    RemoveFirst(s, i, j);
  }

  // Which characters survive

  predicate Forbidden(c: char) {
    c == '(' || c == ')' || c == '[' || c == ']' || c == '<' || c == '>' || c == '{' || c == '}' || c == '_' ||
    c == '!' || c == '@' || c == '#' || c == '$' || c == '^' || c == '&' || c == '*' || c == '+' || c == '=' ||
    c == '|' || c == '\\' || c == '/' || c == '"' || c == '\'' || c == '?' || c == '~'
  }

  lemma ForbiddenAreInvalid(c: char)
    ensures c in INVALID <==> Forbidden(c)
  {}

  function Count(s: string, c: char): nat {
    if s == [] then 0 else (if s[0] == c then 1 else 0) + Count(s[1..], c)
  }

  lemma {:induction false} KeepCounts(s: string, c: char)
    ensures Count(Keep(s), c) == if Forbidden(c) then 0 else Count(s, c)
  {
    if s != [] {
      KeepCounts(s[1..], c);
      ForbiddenAreInvalid(s[0]);
      if s[0] !in INVALID {
        assert Keep(s)[1..] == Keep(s[1..]);
      }
    }
  }

  lemma {:induction false} TabsCount(s: string, c: char)
    requires c != ' ' && c != '\t'
    ensures Count(Delimit(s, "\t", ' '), c) == Count(s, c)
  {
    if s != [] {
      TabsCount(s[1..], c);
      assert Delimit(s, "\t", ' ')[1..] == Delimit(s[1..], "\t", ' ');
    }
  }

  lemma {:induction false} HalveCounts(s: string, c: char)
    requires c != ' '
    ensures Count(Halve(s), c) == Count(s, c)
    decreases |s|
  {
    if |s| >= 2 {
      if s[0] == ' ' && s[1] == ' ' {
        HalveCounts(s[2..], c);
        assert Count(s, c) == Count(s[1..], c) && Count(s[1..], c) == Count(s[1..][1..], c) && s[1..][1..] == s[2..];
        assert Halve(s)[1..] == Halve(s[2..]);
      } else {
        HalveCounts(s[1..], c);
        assert Halve(s)[1..] == Halve(s[1..]);
      }
    }
  }

  lemma {:induction false} TrimLeftCounts(s: string, c: char)
    requires !WhiteSpace(c)
    ensures Count(TrimLeft(s), c) == Count(s, c)
  {
    if s != [] && IsSpace(s[0]) {
      TrimLeftCounts(s[1..], c);
    }
  }

  lemma {:induction false} CountAppend(s: string, x: char, c: char)
    ensures Count(s + [x], c) == Count(s, c) + (if x == c then 1 else 0)
  {
    if s != [] {
      CountAppend(s[1..], x, c);
      assert (s + [x])[1..] == s[1..] + [x];
    }
  }

  lemma {:induction false} TrimRightCounts(s: string, c: char)
    requires !WhiteSpace(c)
    ensures Count(TrimRight(s), c) == Count(s, c)
  {
    if s != [] && IsSpace(s[|s| - 1]) {
      TrimRightCounts(s[..|s| - 1], c);
      CountAppend(s[..|s| - 1], s[|s| - 1], c);
      assert s == s[..|s| - 1] + [s[|s| - 1]];
    }
  }

  /** White space as it is trimmed: space, tab, line feed, form feed and carriage return. */
  predicate WhiteSpace(c: char) {
    c == ' ' || c == '\t' || c == '\n' || c == '\U{0C}' || c == '\r'
  }

  /** Of the lower-cased text outside closed brackets every character that is neither forbidden nor white
      space survives as often as it was there; a forbidden one never does. */
  lemma StripKeepsCount(s: string, lower: char -> char, c: char)
    ensures Forbidden(c) ==> Count(Strip(s, lower), c) == 0
    ensures !Forbidden(c) && !WhiteSpace(c) ==> Count(Strip(s, lower), c) == Count(Lower(RemoveBlocks(s), lower), c)
  {
    StripIs(s, lower);
    if !WhiteSpace(c) {
      var t := Lower(RemoveBlocks(s), lower);
      KeepCounts(t, c);
      TabsCount(Keep(t), c);
      HalveCounts(Cleaned(s, lower), c);
      TrimLeftCounts(Halve(Cleaned(s, lower)), c);
      TrimRightCounts(TrimLeft(Halve(Cleaned(s, lower))), c);
    }
  }

  /** Neither end of the result is white space, and it holds no tab. */
  lemma StripEnds(s: string, lower: char -> char)
    ensures var r := Strip(s, lower);
      (r != [] ==> !WhiteSpace(r[0]) && !WhiteSpace(r[|r| - 1])) && forall i :: 0 <= i < |r| ==> r[i] != '\t' && !Forbidden(r[i])
  {
    StripOutput(s, lower);
    var r := Strip(s, lower);
    forall i | 0 <= i < |r| ensures r[i] != '\t' && !Forbidden(r[i]) {
      ForbiddenAreInvalid(r[i]);
    }
  }

  // Doing it again

  /** `n` spaces. */
  function Spaces(n: nat): (r: string)
    ensures |r| == n && forall i :: 0 <= i < n ==> r[i] == ' '
  {
    if n == 0 then [] else [' '] + Spaces(n - 1)
  }

  /** A maximal run of `n` spaces comes out half as long, rounded up. */
  lemma {:induction false} HalveRun(n: nat, s: string)
    requires s != [] ==> s[0] != ' '
    ensures Halve(Spaces(n) + s) == Spaces((n + 1) / 2) + Halve(s)
  {
    if n >= 2 {
      HalveRun(n - 2, s);
      HalveDouble(Spaces(n - 2) + s);
      SpacesAnd(Spaces(n - 2), s);
      SpacesAnd(Spaces((n - 1) / 2), Halve(s));
    } else if n == 1 {
      HalveSingle(s);
      assert Spaces(1) == " ";
    } else {
      assert Spaces(0) + s == s;
    }
  }

  lemma SpacesAnd(p: string, s: string)
    ensures [' '] + ([' '] + p) + s == "  " + (p + s) && ([' '] + p) + s == [' '] + (p + s)
  {}

  lemma HalveDouble(u: string)
    ensures Halve("  " + u) == [' '] + Halve(u)
  {
    assert ("  " + u)[2..] == u;
  }

  lemma HalveSingle(u: string)
    requires u != [] ==> u[0] != ' '
    ensures Halve(" " + u) == [' '] + Halve(u)
  {
    assert (" " + u)[1..] == u;
  }

  /** `n` spaces in a row somewhere. */
  ghost predicate HasRun(s: string, n: nat) {
    exists i :: RunAt(s, i, n)
  }

  predicate RunAt(s: string, i: int, n: nat) {
    0 <= i && i + n <= |s| && forall k :: i <= k < i + n ==> s[k] == ' '
  }

  lemma {:induction false} HalveLength(s: string)
    ensures |Halve(s)| <= |s|
    ensures s != [] ==> Halve(s) != [] && Halve(s)[0] == s[0]
    decreases |s|
  {
    if |s| >= 2 {
      if s[0] == ' ' && s[1] == ' ' { HalveLength(s[2..]); } else { HalveLength(s[1..]); }
    }
  }

  /** Halving does nothing exactly to text without a double space. */
  lemma {:induction false} HalveFixed(s: string)
    ensures Halve(s) == s <==> !HasRun(s, 2)
    decreases |s|
  {
    if |s| >= 2 {
      if s[0] == ' ' && s[1] == ' ' {
        HalveLength(s[2..]);
        assert RunAt(s, 0, 2);
      } else {
        HalveFixed(s[1..]);
        RunInTail(s, 2);
      }
    }
  }

  lemma RunInTail(s: string, n: nat)
    requires s != [] && n > 0 && !RunAt(s, 0, n)
    ensures HasRun(s, n) <==> HasRun(s[1..], n)
  {
    if HasRun(s, n) {
      var i :| RunAt(s, i, n);
      assert RunAt(s[1..], i - 1, n);
    }
    if HasRun(s[1..], n) {
      var i :| RunAt(s[1..], i, n);
      assert forall k :: i + 1 <= k < i + 1 + n ==> s[k] == s[1..][k - 1];
      assert RunAt(s, i + 1, n);
    }
  }

  lemma {:induction false} HalveConcat(a: string, b: string)
    requires a == [] || b == [] || a[|a| - 1] != ' ' || b[0] != ' '
    ensures Halve(a + b) == Halve(a) + Halve(b)
    decreases |a|
  {
    if a == [] {
      assert a + b == b;
    } else if |a| >= 2 && a[0] == ' ' && a[1] == ' ' {
      assert (a + b)[2..] == a[2..] + b;
      HalveConcat(a[2..], b);
    } else {
      assert (a + b)[1..] == a[1..] + b;
      HalveConcat(a[1..], b);
      if b == [] { assert a + b == a; }
    }
  }

  lemma {:induction false} HalveLast(s: string)
    requires s != [] && s[|s| - 1] != ' '
    ensures Halve(s) != [] && Halve(s)[|Halve(s)| - 1] == s[|s| - 1]
    decreases |s|
  {
    if |s| >= 2 {
      if s[0] == ' ' && s[1] == ' ' { HalveLast(s[2..]); } else { HalveLast(s[1..]); }
    }
  }

  lemma HalveTrimmed(s: string)
    requires Trimmed(s)
    ensures Trimmed(Halve(s)) && (Halve(s) == [] <==> s == [])
  {
    if s != [] {
      HalveLength(s);
      HalveLast(s);
    }
  }

  predicate AllSpace(s: string) {
    forall i :: 0 <= i < |s| ==> IsSpace(s[i])
  }

  lemma TrimOf(w: string, t: string, v: string)
    requires AllSpace(w) && Trimmed(t) && AllSpace(v)
    ensures Trim(w + t + v) == t
  {
    var s := w + t + v;
    var m, n := TrimIs(s);
    var i, j := |w|, |w| + |t|;
    if t == [] {
      assert forall k :: 0 <= k < |s| ==> IsSpace(s[k]);
    } else {
      assert s[i] == t[0] && s[j - 1] == t[|t| - 1];
      assert m < n && s[m..n][0] == s[m] && s[m..n][n - m - 1] == s[n - 1];
      assert s[m..n] == t;
    }
  }

  lemma HalveSpace(s: string)
    requires AllSpace(s)
    ensures AllSpace(Halve(s))
  {
    HalveSubsequence(s);
  }

  /** Trimming and halving commute. */
  lemma TrimHalve(s: string)
    ensures Trim(Halve(s)) == Halve(Trim(s))
  {
    var m, n := TrimIs(s);
    var w, t, v := s[..m], s[m..n], s[n..];
    assert s == w + t + v;
    HalveTrimmed(t);
    HalveSpace(w);
    HalveSpace(v);
    if t == [] {
      assert s == w + v && AllSpace(s);
      HalveSpace(s);
      TrimOf(Halve(s), "", "");
      assert Halve(s) + "" + "" == Halve(s);
    } else {
      HalveConcat(w + t, v);
      HalveConcat(w, t);
      TrimOf(Halve(w), Halve(t), Halve(v));
    }
  }

  lemma StripHalvesTrimmed(s: string, lower: char -> char)
    ensures Strip(s, lower) == Halve(Trim(Cleaned(s, lower)))
  {
    StripIs(s, lower);
    TrimHalve(Cleaned(s, lower));
  }

  /** Halving leaves a double space exactly where three spaces stood together. */
  lemma {:induction false} HalveLeavesDouble(s: string)
    ensures HasRun(Halve(s), 2) <==> HasRun(s, 3)
    decreases |s|
  {
    if |s| >= 2 {
      if s[0] == ' ' && s[1] == ' ' {
        HalveLength(s[2..]);
        if |s| >= 3 && s[2] == ' ' {
          assert RunAt(s, 0, 3) && RunAt(Halve(s), 0, 2);
        } else {
          HalveLeavesDouble(s[2..]);
          assert |s| >= 3 ==> Halve(s)[1] == s[2];
          assert !RunAt(s, 0, 3) && !RunAt(s[1..], 0, 3) && !RunAt(Halve(s), 0, 2);
          RunInTail(s, 3);
          RunInTail(s[1..], 3);
          RunInTail(Halve(s), 2);
          assert s[1..][1..] == s[2..] && Halve(s)[1..] == Halve(s[2..]);
        }
      } else {
        HalveLength(s[1..]);
        HalveLeavesDouble(s[1..]);
        assert Halve(s)[0] == s[0] && Halve(s)[1] == s[1];
        assert !RunAt(s, 0, 3) && !RunAt(Halve(s), 0, 2);
        RunInTail(s, 3);
        RunInTail(Halve(s), 2);
      }
    }
  }

  /** What is needed of lower-casing: doing it again, or doing it to a space, changes nothing. */
  ghost predicate LowerOk(lower: char -> char) {
    lower(' ') == ' ' && forall c :: lower(lower(c)) == lower(c)
  }

  lemma {:induction false} KeepIn(s: string)
    ensures forall i :: 0 <= i < |Keep(s)| ==> Keep(s)[i] in s
  {
    if s != [] {
      KeepIn(s[1..]);
    }
  }

  lemma {:induction false} KeepAll(s: string)
    requires forall i :: 0 <= i < |s| ==> s[i] !in INVALID
    ensures Keep(s) == s
  {
    if s != [] {
      KeepAll(s[1..]);
    }
  }

  predicate Lowered(s: string, lower: char -> char) {
    forall i :: 0 <= i < |s| ==> lower(s[i]) == s[i]
  }

  lemma StripLowered(s: string, lower: char -> char)
    requires LowerOk(lower)
    ensures Lowered(Strip(s, lower), lower)
  {
    StripIs(s, lower);
    var t := Lower(RemoveBlocks(s), lower);
    KeepIn(t);
    assert Lowered(t, lower);
    assert Lowered(Cleaned(s, lower), lower);
    HalveSubsequence(Cleaned(s, lower));
    TrimSubsequence(Halve(Cleaned(s, lower)));
  }

  lemma {:induction false} OpenersInvalid(s: string)
    requires forall i :: 0 <= i < |s| ==> s[i] !in INVALID
    ensures NoOpeners(s)
  {
    forall i | 0 <= i < |s| ensures !Opener(s[i]) {
      forall k | 0 <= k < |BLOCKS| ensures BLOCKS[k].0 in INVALID {
        assert INVALID[0] == '(' && INVALID[2] == '[' && INVALID[4] == '<' && INVALID[6] == '{';
      }
    }
  }

  lemma CleanIsFixed(r: string, lower: char -> char)
    requires Lowered(r, lower) && forall i :: 0 <= i < |r| ==> CleanChar(r[i])
    ensures Cleaned(r, lower) == r
  {
    OpenersInvalid(r);
    PrefixKept(r, "");
    assert r + "" == r;
    NoBlocksInNothing();
    assert Lower(r, lower) == r;
    KeepAll(r);
    assert Delimit(r, "\t", ' ') == r;
  }

  lemma StripFixed(r: string, lower: char -> char)
    requires Cleaned(r, lower) == r && Trimmed(r)
    ensures Strip(r, lower) == Halve(r)
  {
    StripHalvesTrimmed(r, lower);
    TrimOf("", r, "");
    assert "" + r + "" == r;
  }

  /** Stripping a stripped name only halves its runs once more. */
  lemma {:induction false} StripTwice(s: string, lower: char -> char)
    requires LowerOk(lower)
    ensures Strip(Strip(s, lower), lower) == Halve(Strip(s, lower))
  {
    StripOutput(s, lower);
    StripLowered(s, lower);
    StripClean(Strip(s, lower), lower);
  }

  lemma {:induction false} StripClean(r: string, lower: char -> char)
    requires Lowered(r, lower) && Trimmed(r) && forall i :: 0 <= i < |r| ==> CleanChar(r[i])
    ensures Strip(r, lower) == Halve(r)
  {
    CleanIsFixed(r, lower);
    StripFixed(r, lower);
  }

  /** It changes nothing exactly if the cleaned and trimmed name has no three spaces in a row. */
  lemma StripIdempotentIff(s: string, lower: char -> char)
    requires LowerOk(lower)
    ensures Strip(Strip(s, lower), lower) == Strip(s, lower) <==> !HasRun(Trim(Cleaned(s, lower)), 3)
  {
    StripTwice(s, lower);
    StripHalvesTrimmed(s, lower);
    HalveFixed(Strip(s, lower));
    HalveLeavesDouble(Trim(Cleaned(s, lower)));
  }

  lemma LetterIsClean()
    ensures CleanChar('a') && CleanChar(' ')
  {}

  lemma {:induction false} StripLetters(r: string, lower: char -> char)
    requires LowerOk(lower) && lower('a') == 'a' && Trimmed(r) && forall i :: 0 <= i < |r| ==> r[i] == 'a' || r[i] == ' '
    ensures Strip(r, lower) == Halve(r)
  {
    LetterIsClean();
    StripClean(r, lower);
  }

  function Spaced(n: nat): string {
    "a" + Spaces(n) + "a"
  }

  lemma HalveSpaced(n: nat)
    ensures Halve(Spaced(n)) == Spaced((n + 1) / 2)
  {
    HalveRun(n, "a");
    HalveConcat("a", Spaces(n) + "a");
    assert "a" + (Spaces(n) + "a") == Spaced(n);
    assert "a" + (Spaces((n + 1) / 2) + "a") == Spaced((n + 1) / 2);
  }

  lemma {:induction false} StripSpaced(n: nat, lower: char -> char)
    requires LowerOk(lower) && lower('a') == 'a'
    ensures Strip(Spaced(n), lower) == Spaced((n + 1) / 2)
  {
    StripLetters(Spaced(n), lower);
    HalveSpaced(n);
  }

  /** Three or more spaces between two letters come out narrower the second time too. */
  lemma {:induction false} WideGapsShrinkTwice(n: nat, lower: char -> char)
    requires LowerOk(lower) && lower('a') == 'a' && n >= 3
    ensures Strip(Strip(Spaced(n), lower), lower) != Strip(Spaced(n), lower)
  {
    StripSpaced(n, lower);
    StripSpaced((n + 1) / 2, lower);
  }
}

/** The loops that cut the blocks out. */
module NameStrip {
  import opened Common
  import opened NameStripSpec

  /** The earliest block of any kind from the current position on. */
  method NextBlock(p: string) returns (block: Option<Span>)
    ensures block == Earliest(p, |BLOCKS|)
  {
    block := None;
    var i := 0;
    while i < |BLOCKS|
      invariant 0 <= i <= |BLOCKS|
      invariant block == Earliest(p, i)
    {
      var b := FindBlock(p, BLOCKS[i].0, BLOCKS[i].1);
      if b.Some? && (block.None? || b.value.start < block.value.start) {
        block := b;
      }
      i := i + 1;
    }
  }

  /** `p` walks over the text; what lies before each block is kept. */
  method CutBlocks(original: string) returns (noBlocks: string)
    ensures noBlocks == RemoveBlocks(original)
  {
    noBlocks := "";
    var p := original;
    var done := false;
    while !done
      invariant if done then noBlocks == RemoveBlocks(original) else noBlocks + RemoveBlocks(p) == RemoveBlocks(original)
      decreases if done then 0 else |p| + 1
    {
      var block := NextBlock(p);
      match block {
        case None =>
          noBlocks := noBlocks + p;
          done := true;
        case Some(b) =>
          RemoveFirst(p, b.start, b.end);
          Regroup(noBlocks, p[..b.start], RemoveBlocks(p[b.end + 1..]));
          noBlocks := noBlocks + p[..b.start];
          p := p[b.end + 1..];
          if p == "" {
            NoBlocksInNothing();
            Regroup(noBlocks, "", "");
            done := true;
          }
      }
    }
  }

  method StripCharacters(original: string, lower: char -> char) returns (str: string)
    ensures str == Strip(original, lower)
  {
    var noBlocks := CutBlocks(original);
    str := Lower(noBlocks, lower);
    str := Delimit(str, INVALID, '*');
    str := Join(Split(str, "*"), "");
    str := Delimit(str, "\t", ' ');
    str := Join(Split(str, " "), " ");
    str := Join(Split(str, "  "), " ");
    str := Trim(str);
  }
}
