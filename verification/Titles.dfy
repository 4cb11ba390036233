/** Trimming a page title to a length: drop the brand, or cut at a word.
  */
module Titles {

  const BRAND_SEPARATORS: seq<char> := ['|', '-', '–', '—', '»', '·', ':']
  const TRAILING: set<char> := {' ', '،', '-', '|', '–', '—', ':'}

  /** Which characters count as white space; the plain space always does. */
  type Spaces = space: char -> bool | space(' ') witness (c: char) => c == ' '

  // ---- white space

  /** The length of the leading word. */
  function WordLength(space: Spaces, s: string): (n: nat)
    ensures n <= |s| && (forall k :: 0 <= k < n ==> !space(s[k])) && (n < |s| ==> space(s[n]))
  {
    if s == "" || space(s[0]) then 0 else 1 + WordLength(space, s[1..])
  }

  function Words(space: Spaces, s: string): seq<string>
    decreases |s|
  {
    if s == "" then []
    else if space(s[0]) then Words(space, s[1..])
    else
      var n := WordLength(space, s);
      [s[..n]] + Words(space, s[n..])
  }

  function Join(words: seq<string>): string {
    if words == [] then "" else if |words| == 1 then words[0] else words[0] + " " + Join(words[1..])
  }

  function Normalise(space: Spaces, s: string): string {
    Join(Words(space, s))
  }

  /** Words separated by single spaces, nothing around them. */
  ghost predicate Normal(space: Spaces, s: string) {
    && (s != "" ==> !space(s[0]) && !space(s[|s| - 1]))
    && (forall k :: 0 <= k < |s| && space(s[k]) ==> s[k] == ' ')
    && (forall j, k :: 0 <= j < k < |s| && k == j + 1 ==> !(space(s[j]) && space(s[k])))
  }

  predicate IsWord(space: Spaces, w: string) {
    w != "" && forall k :: 0 <= k < |w| ==> !space(w[k])
  }

  lemma {:induction false} WordsAreWords(space: Spaces, s: string)
    ensures forall k :: 0 <= k < |Words(space, s)| ==> IsWord(space, Words(space, s)[k])
    decreases |s|
  {
    if s != "" {
      if space(s[0]) {
        WordsAreWords(space, s[1..]);
      } else {
        WordsAreWords(space, s[WordLength(space, s)..]);
      }
    }
  }

  lemma {:induction false} JoinIsNormal(space: Spaces, words: seq<string>)
    requires forall k :: 0 <= k < |words| ==> IsWord(space, words[k])
    ensures Normal(space, Join(words)) && (words != [] ==> Join(words) != "")
  {
    if |words| > 1 {
      JoinIsNormal(space, words[1..]);
      WordFirst(space, words[0], Join(words[1..]));
    } else if |words| == 1 {
      assert IsWord(space, words[0]);
    }
  }

  lemma WordFirst(space: Spaces, w: string, rest: string)
    requires IsWord(space, w) && Normal(space, rest) && rest != ""
    ensures Normal(space, w + " " + rest)
  {
    var all := w + " " + rest;
    var n := |w| + 1;
    forall k | 0 <= k < |all| ensures all[k] == if k < |w| then w[k] else if k == |w| then ' ' else rest[k - n] {
    }
    assert all[|all| - 1] == rest[|rest| - 1];
    forall j, k | 0 <= j < k < |all| && k == j + 1 ensures !(space(all[j]) && space(all[k])) {
      if j >= n {
        assert !(space(rest[j - n]) && space(rest[k - n]));
      }
    }
  }

  lemma NormaliseIsNormal(space: Spaces, s: string)
    ensures Normal(space, Normalise(space, s))
  {
    WordsAreWords(space, s);
    JoinIsNormal(space, Words(space, s));
  }

  lemma RestIsNormal(space: Spaces, s: string, n: nat)
    requires Normal(space, s) && 0 < n < |s| && space(s[n])
    ensures s[n] == ' ' && n + 1 < |s| && Normal(space, s[n + 1..])
  {
    var rest := s[n + 1..];
    assert forall k :: 0 <= k < |rest| ==> rest[k] == s[n + 1 + k];
    assert !(space(s[n]) && space(s[n + 1]));
  }

  lemma WordsFirst(space: Spaces, s: string, n: nat)
    requires 0 < n < |s| && n == WordLength(space, s)
    ensures Words(space, s) == [s[..n]] + Words(space, s[n + 1..])
  {
    var tail := s[n..];
    assert space(tail[0]);
    assert tail[1..] == s[n + 1..];
  }

  lemma JoinFirst(w: string, words: seq<string>)
    requires words != []
    ensures Join([w] + words) == w + " " + Join(words)
  {
    assert ([w] + words)[1..] == words;
  }

  /** Normalising does nothing to a normal string. */
  lemma {:induction false} NormalStays(space: Spaces, s: string)
    requires Normal(space, s)
    ensures Normalise(space, s) == s
    decreases |s|
  {
    if s != "" {
      var n := WordLength(space, s);
      if n == |s| {
        OneWord(space, s);
      } else {
        RestIsNormal(space, s, n);
        NormalStays(space, s[n + 1..]);
        WordsFirst(space, s, n);
        Rejoined(s, n, Words(space, s[n + 1..]));
      }
    }
  }

  lemma OneWord(space: Spaces, s: string)
    requires s != "" && WordLength(space, s) == |s|
    ensures Normalise(space, s) == s
  {
    assert s[..|s|] == s && s[|s|..] == "";
    assert Words(space, s) == [s];
  }

  lemma Rejoined(s: string, n: nat, words: seq<string>)
    requires n < |s| - 1 && s[n] == ' ' && Join(words) == s[n + 1..]
    ensures Join([s[..n]] + words) == s
  {
    JoinFirst(s[..n], words);
    assert s == s[..n] + " " + s[n + 1..];
  }

  // ---- what normalising keeps

  /** The characters that are not white space, each with whether it begins a word. */
  function Marks(space: Spaces, s: string, starts: bool): seq<(char, bool)> {
    if s == "" then []
    else if space(s[0]) then Marks(space, s[1..], true)
    else [(s[0], starts)] + Marks(space, s[1..], false)
  }

  lemma {:induction false} MarksOfWord(space: Spaces, w: string, rest: string, starts: bool)
    requires IsWord(space, w)
    ensures Marks(space, w + rest, starts) == Marks(space, w, starts) + Marks(space, rest, false)
  {
    assert (w + rest)[1..] == w[1..] + rest;
    if |w| == 1 {
      assert w[1..] == "" && "" + rest == rest;
    } else {
      MarksOfWord(space, w[1..], rest, false);
    }
  }

  /** The words of a title, in order and unbroken: normalising keeps every character that is not
      white space, and where words begin. */
  lemma {:induction false} NormaliseKeepsWords(space: Spaces, s: string)
    ensures Marks(space, Normalise(space, s), true) == Marks(space, s, true)
    decreases |s|
  {
    if s != "" {
      if space(s[0]) {
        NormaliseKeepsWords(space, s[1..]);
      } else {
        var n := WordLength(space, s);
        WordsAreWords(space, s);
        assert IsWord(space, Words(space, s)[0]);
        NormaliseKeepsWords(space, s[n..]);
        assert s == s[..n] + s[n..];
        MarksOfWord(space, s[..n], s[n..], true);
        JoinMarks(space, s[..n], Words(space, s[n..]));
        assert Marks(space, s[n..], false) == Marks(space, s[n..], true);
      }
    }
  }

  lemma JoinMarks(space: Spaces, w: string, words: seq<string>)
    requires IsWord(space, w)
    ensures Marks(space, Join([w] + words), true) == Marks(space, w, true) + Marks(space, Join(words), true)
  {
    if words == [] {
      assert [w] + words == [w];
    } else {
      JoinFirst(w, words);
      assert w + " " + Join(words) == w + (" " + Join(words));
      MarksOfWord(space, w, " " + Join(words), true);
      assert (" " + Join(words))[1..] == Join(words);
    }
  }

  // ---- cutting

  function RStrip(s: string, drop: set<char>): (r: string)
    ensures r <= s && (r != "" ==> r[|r| - 1] !in drop)
    ensures forall k :: |r| <= k < |s| ==> s[k] in drop
  {
    if s != "" && s[|s| - 1] in drop then RStrip(s[..|s| - 1], drop) else s
  }

  /** The separator stands between spaces at `i`. */
  predicate BreaksAt(t: string, sep: char, i: nat) {
    i + 2 < |t| && t[i] == ' ' && t[i + 1] == sep && t[i + 2] == ' '
  }

  /** Where the last separator between spaces begins, or the length of the title. */
  function LastBreak(t: string, sep: char): (i: nat)
    ensures i <= |t|
    ensures i < |t| ==> BreaksAt(t, sep, i)
    ensures forall k :: 0 <= k < |t| && BreaksAt(t, sep, k) ==> k <= i < |t|
  {
    LastBreakFrom(t, sep, |t|)
  }

  function LastBreakFrom(t: string, sep: char, n: nat): (i: nat)
    requires n <= |t|
    requires forall k :: n <= k < |t| ==> !BreaksAt(t, sep, k)
    ensures i <= |t|
    ensures i < |t| ==> BreaksAt(t, sep, i)
    ensures forall k :: 0 <= k < |t| && BreaksAt(t, sep, k) ==> k <= i < |t|
  {
    if n == 0 then |t|
    else if BreaksAt(t, sep, n - 1) then n - 1
    else LastBreakFrom(t, sep, n - 1)
  }

  /** What stands before the last use of a separator. */
  function HeadBefore(t: string, sep: char): string {
    RStrip(t[..LastBreak(t, sep)], {' '})
  }

  predicate HeadFits(t: string, sep: char, limit: int) {
    HeadBefore(t, sep) != "" && HeadBefore(t, sep) != t && |HeadBefore(t, sep)| <= limit
  }

  function LastSpace(s: string): (i: nat)
    requires ' ' in s
    ensures i < |s| && s[i] == ' ' && forall k :: i < k < |s| ==> s[k] != ' '
  {
    if s[|s| - 1] == ' ' then |s| - 1
    else
      assert s == s[..|s| - 1] + [s[|s| - 1]];
      LastSpace(s[..|s| - 1])
  }

  /** The first characters of a title; a negative limit counts from the end. */
  function Window(t: string, limit: int): string
    requires limit <= |t|
  {
    if limit >= 0 then t[..limit] else if |t| + limit >= 0 then t[..|t| + limit] else ""
  }

  /** The window without its last, possibly broken, word. */
  function WholeWords(t: string, limit: int): string
    requires limit <= |t|
  {
    var cut := Window(t, limit);
    if ' ' in cut then cut[..LastSpace(cut)] else cut
  }

  function CutAtWord(t: string, limit: int): string
    requires limit <= |t|
  {
    RStrip(WholeWords(t, limit), TRAILING)
  }

  function TryHeads(t: string, seps: seq<char>, limit: int): string
    requires limit <= |t|
  {
    if seps == [] then CutAtWord(t, limit)
    else if HeadFits(t, seps[0], limit) then HeadBefore(t, seps[0])
    else TryHeads(t, seps[1..], limit)
  }

  function Trim(space: Spaces, title: string, limit: int): string {
    var t := Normalise(space, title);
    if |t| <= limit then t else TryHeads(t, BRAND_SEPARATORS, limit)
  }

  /** A cut of a title: a prefix that ends where only trailing separators and then a space follow. */
  ghost predicate CleanCut(t: string, r: string) {
    && r <= t
    && exists k :: |r| <= k < |t| && t[k] == ' ' && forall j :: |r| <= j < k ==> t[j] in TRAILING
  }

  lemma PrefixNormal(space: Spaces, t: string, r: string)
    requires Normal(space, t) && r <= t && (r != "" ==> r[|r| - 1] != ' ')
    ensures Normal(space, r)
  {
    assert forall k :: 0 <= k < |r| ==> r[k] == t[k];
  }

  lemma HeadCuts(space: Spaces, t: string, sep: char, limit: int)
    requires Normal(space, t) && HeadFits(t, sep, limit)
    ensures var r := HeadBefore(t, sep); CleanCut(t, r) && Normal(space, r) && |r| <= limit
  {
    var i := LastBreak(t, sep);
    var r := HeadBefore(t, sep);
    BreakFound(space, t, sep);
    HeadEnds(t, i, r);
    PrefixNormal(space, t, r);
  }

  /** A head that differs from the title stands before a separator. */
  lemma BreakFound(space: Spaces, t: string, sep: char)
    requires Normal(space, t) && HeadBefore(t, sep) != t
    ensures LastBreak(t, sep) < |t|
  {
    assert t[..|t|] == t;
  }

  lemma HeadEnds(t: string, i: nat, r: string)
    requires i < |t| && t[i] == ' ' && r == RStrip(t[..i], {' '})
    ensures CleanCut(t, r)
  {
    forall j | |r| <= j < i ensures t[j] in TRAILING {
      assert t[..i][j] in {' '};
    }
  }

  /** What every cut of a title that is too long for the limit comes to. */
  ghost predicate Fits(space: Spaces, t: string, limit: int, r: string)
    requires limit < |t|
  {
    && r <= t && Normal(space, r)
    && (limit >= 0 ==> |r| <= limit)
    && (t != "" ==> |r| < |t|)
    && (' ' in Window(t, limit) ==> CleanCut(t, r))
  }

  lemma WordCuts(space: Spaces, t: string, limit: int)
    requires Normal(space, t) && limit < |t|
    ensures Fits(space, t, limit, CutAtWord(t, limit))
  {
    var cut := Window(t, limit);
    var r := CutAtWord(t, limit);
    if ' ' in cut {
      var k := LastSpace(cut);
      assert t[k] == ' ' && r <= cut[..k];
      assert forall j :: |r| <= j < k ==> t[j] == cut[..k][j];
    }
    PrefixNormal(space, t, r);
  }

  lemma {:induction false} HeadsCut(space: Spaces, t: string, seps: seq<char>, limit: int)
    requires Normal(space, t) && limit < |t|
    ensures Fits(space, t, limit, TryHeads(t, seps, limit))
  {
    if seps == [] {
      WordCuts(space, t, limit);
    } else if HeadFits(t, seps[0], limit) {
      HeadCuts(space, t, seps[0], limit);
    } else {
      HeadsCut(space, t, seps[1..], limit);
    }
  }

  /** The result is a normal prefix of the normalised title; for a limit that is not negative it is
      no longer than the limit; and when it is shortened and its window holds a space, it ends at
      one, up to trailing separators. */
  lemma TrimIsPrefix(space: Spaces, title: string, limit: int)
    ensures var t, r := Normalise(space, title), Trim(space, title, limit);
            && r <= t && Normal(space, r)
            && (limit >= 0 ==> |r| <= limit)
            && (|t| <= limit ==> r == t)
            && (|t| > limit && ' ' in Window(t, limit) ==> CleanCut(t, r))
            && (|t| > limit && t != "" ==> |r| < |t|)
  {
    var t := Normalise(space, title);
    NormaliseIsNormal(space, title);
    if |t| > limit {
      HeadsCut(space, t, BRAND_SEPARATORS, limit);
    }
  }

  // ---- which cut it is

  /** `r` is what is left of the first `n` characters without the trailing ones in `drop`. */
  predicate LeftOf(t: string, n: nat, drop: set<char>, r: string) {
    && |r| <= n <= |t| && r == t[..|r|]
    && (forall k :: |r| <= k < n ==> t[k] in drop)
    && (r != "" ==> r[|r| - 1] !in drop)
  }

  predicate LastBreaksAt(t: string, sep: char, i: nat) {
    BreaksAt(t, sep, i) && forall k :: i < k < |t| ==> !BreaksAt(t, sep, k)
  }

  /** `r` is the text before the last use of the separator, and short enough. */
  ghost predicate IsHead(t: string, sep: char, limit: int, r: string) {
    && r != "" && |r| <= limit
    && exists i: nat :: LastBreaksAt(t, sep, i) && LeftOf(t, i, {' '}, r)
  }

  ghost predicate HasHead(t: string, sep: char, limit: int) {
    exists r :: IsHead(t, sep, limit, r)
  }

  predicate NoSpace(t: string, from: nat, to: nat)
    requires to <= |t|
  {
    forall k :: from <= k < to ==> t[k] != ' '
  }

  /** The window ends at its last space, or where it ends if it has none. */
  predicate CutsAt(t: string, window: nat, n: nat)
    requires window <= |t|
  {
    if n < window then t[n] == ' ' && NoSpace(t, n + 1, window) else n == window && NoSpace(t, 0, window)
  }

  /** `r` is the window up to there, without trailing separators. The window holds `limit`
      characters, or all but the last `-limit`. */
  ghost predicate IsWordCut(t: string, limit: int, r: string)
    requires limit <= |t|
  {
    var window := if limit >= 0 then limit else if |t| + limit >= 0 then |t| + limit else 0;
    exists n: nat :: CutsAt(t, window, n) && LeftOf(t, n, TRAILING, r)
  }

  /** A title within the limit is kept. A longer one is cut before the last use of the first
      separator that leaves something short enough, and at a word only if none does. */
  lemma TrimChooses(space: Spaces, title: string, limit: int)
    ensures var t, r := Normalise(space, title), Trim(space, title, limit);
            if |t| <= limit then r == t else Chosen(t, BRAND_SEPARATORS, limit, r)
  {
    var t := Normalise(space, title);
    NormaliseIsNormal(space, title);
    if |t| > limit {
      HeadsChoose(space, t, BRAND_SEPARATORS, limit);
    }
  }

  ghost predicate Chosen(t: string, seps: seq<char>, limit: int, r: string)
    requires limit <= |t|
  {
    || (exists n :: 0 <= n < |seps| && IsHead(t, seps[n], limit, r) && NoneBefore(t, seps, n, limit))
    || (NoneBefore(t, seps, |seps|, limit) && IsWordCut(t, limit, r))
  }

  /** None of the first `n` separators leaves anything short enough. */
  ghost predicate NoneBefore(t: string, seps: seq<char>, n: nat, limit: int)
    requires n <= |seps|
  {
    forall m :: 0 <= m < n ==> !HasHead(t, seps[m], limit)
  }

  lemma HeadIs(space: Spaces, t: string, sep: char, limit: int)
    requires Normal(space, t) && limit < |t|
    ensures HeadFits(t, sep, limit) ==> IsHead(t, sep, limit, HeadBefore(t, sep))
    ensures HeadFits(t, sep, limit) <==> HasHead(t, sep, limit)
  {
    if HeadFits(t, sep, limit) {
      HeadFound(space, t, sep, limit);
    }
    if HasHead(t, sep, limit) {
      var r :| IsHead(t, sep, limit, r);
      HeadIsBefore(t, sep, limit, r);
    }
  }

  lemma HeadFound(space: Spaces, t: string, sep: char, limit: int)
    requires Normal(space, t) && HeadFits(t, sep, limit)
    ensures IsHead(t, sep, limit, HeadBefore(t, sep))
  {
    var i := LastBreak(t, sep);
    BreakFound(space, t, sep);
    Stripped(t, i, {' '});
    assert LastBreaksAt(t, sep, i);
  }

  lemma HeadIsBefore(t: string, sep: char, limit: int, r: string)
    requires IsHead(t, sep, limit, r) && limit < |t|
    ensures HeadBefore(t, sep) == r
  {
    var i: nat :| LastBreaksAt(t, sep, i) && LeftOf(t, i, {' '}, r);
    LastIs(t, sep, i);
    Stripped(t, i, {' '});
    SameLeft(t, i, {' '}, r, HeadBefore(t, sep));
  }

  lemma LastIs(t: string, sep: char, i: nat)
    requires LastBreaksAt(t, sep, i)
    ensures LastBreak(t, sep) == i
  {
    var j := LastBreak(t, sep);
    assert j < |t| ==> BreaksAt(t, sep, j);
  }

  lemma Stripped(t: string, n: nat, drop: set<char>)
    requires n <= |t|
    ensures LeftOf(t, n, drop, RStrip(t[..n], drop))
  {
    var r := RStrip(t[..n], drop);
    assert forall k :: 0 <= k < n ==> t[..n][k] == t[k];
  }

  /** Stripping has one result. */
  lemma SameLeft(t: string, n: nat, drop: set<char>, a: string, b: string)
    requires LeftOf(t, n, drop, a) && LeftOf(t, n, drop, b)
    ensures a == b
  {
    NotLonger(t, n, drop, a, b);
    NotLonger(t, n, drop, b, a);
  }

  lemma NotLonger(t: string, n: nat, drop: set<char>, a: string, b: string)
    requires LeftOf(t, n, drop, a) && LeftOf(t, n, drop, b)
    ensures |a| <= |b|
  {
    if a != "" {
      assert t[|a| - 1] == a[|a| - 1];
    }
  }

  lemma {:induction false} HeadsChoose(space: Spaces, t: string, seps: seq<char>, limit: int)
    requires Normal(space, t) && limit < |t|
    ensures Chosen(t, seps, limit, TryHeads(t, seps, limit))
  {
    if seps == [] {
      CutIsWordCut(t, limit);
    } else {
      HeadIs(space, t, seps[0], limit);
      var r := TryHeads(t, seps, limit);
      if HeadFits(t, seps[0], limit) {
        assert IsHead(t, seps[0], limit, r) && NoneBefore(t, seps, 0, limit);
      } else {
        HeadsChoose(space, t, seps[1..], limit);
        NoneFirst(t, seps, limit, r);
      }
    }
  }

  lemma NoneFirst(t: string, seps: seq<char>, limit: int, r: string)
    requires limit <= |t| && seps != [] && !HasHead(t, seps[0], limit) && Chosen(t, seps[1..], limit, r)
    ensures Chosen(t, seps, limit, r)
  {
    var rest := seps[1..];
    if NoneBefore(t, rest, |rest|, limit) && IsWordCut(t, limit, r) {
      NoneLonger(t, seps, |rest|, limit);
    } else {
      var n :| 0 <= n < |rest| && IsHead(t, rest[n], limit, r) && NoneBefore(t, rest, n, limit);
      NoneLonger(t, seps, n, limit);
      assert IsHead(t, seps[n + 1], limit, r);
    }
  }

  lemma NoneLonger(t: string, seps: seq<char>, n: nat, limit: int)
    requires n < |seps| && !HasHead(t, seps[0], limit) && NoneBefore(t, seps[1..], n, limit)
    ensures NoneBefore(t, seps, n + 1, limit)
  {
    forall m | 0 <= m < n + 1 ensures !HasHead(t, seps[m], limit) {
      if m > 0 {
        assert seps[1..][m - 1] == seps[m];
      }
    }
  }

  lemma CutIsWordCut(t: string, limit: int)
    requires limit < |t|
    ensures IsWordCut(t, limit, CutAtWord(t, limit))
  {
    var cut, words := Window(t, limit), WholeWords(t, limit);
    assert cut == t[..|cut|] && words == t[..|words|];
    assert forall k :: 0 <= k < |cut| ==> cut[k] == t[k];
    assert CutsAt(t, |cut|, |words|);
    Stripped(t, |words|, TRAILING);
  }

  /** Nothing but separators stands before the cut. */
  predicate Barren(t: string, limit: int)
    requires limit <= |t|
  {
    var words := WholeWords(t, limit);
    forall k :: 0 <= k < |words| ==> words[k] in TRAILING
  }

  /** Trimming twice changes nothing if and only if the limit is not negative or nothing is left
      after trimming once. */
  lemma TrimTwice(space: Spaces, title: string, limit: int)
    ensures Trim(space, Trim(space, title, limit), limit) == Trim(space, title, limit)
            <==> limit >= 0 || Barren(Normalise(space, title), limit)
  {
    var t, r := Normalise(space, title), Trim(space, title, limit);
    TrimIsPrefix(space, title, limit);
    NormalStays(space, r);
    if limit < 0 {
      NoHeads(t, BRAND_SEPARATORS, limit);
      BarrenIsEmpty(t, limit);
      TrimIsPrefix(space, r, limit);
      if r == "" {
        NoHeads(r, BRAND_SEPARATORS, limit);
      }
    }
  }

  /** A negative limit leaves no head. */
  lemma {:induction false} NoHeads(t: string, seps: seq<char>, limit: int)
    requires limit < 0
    ensures TryHeads(t, seps, limit) == CutAtWord(t, limit)
  {
    if seps != [] {
      NoHeads(t, seps[1..], limit);
    }
  }

  lemma BarrenIsEmpty(t: string, limit: int)
    requires limit <= |t|
    ensures Barren(t, limit) <==> CutAtWord(t, limit) == ""
  {
    var words, r := WholeWords(t, limit), CutAtWord(t, limit);
    if r != "" {
      assert words[|r| - 1] == r[|r| - 1];
    }
  }

  /** The function as the service writes it. */
  method TrimTitle(space: Spaces, title: string, limit: int) returns (r: string)
    ensures r == Trim(space, title, limit)
  {
    var t := Normalise(space, title);
    if |t| <= limit {
      return t;
    }
    r := ShortenTitle(t, BRAND_SEPARATORS, limit);
  }

  /** The part of it that shortens: the first separator whose head fits, or else the last word. */
  method ShortenTitle(t: string, seps: seq<char>, limit: int) returns (r: string)
    requires limit < |t|
    ensures r == TryHeads(t, seps, limit)
  {
    for i := 0 to |seps|
      invariant TryHeads(t, seps, limit) == TryHeads(t, seps[i..], limit)
    {
      assert seps[i..][1..] == seps[i + 1..];
      var head := RStrip(t[..LastBreak(t, seps[i])], {' '});
      if head != "" && head != t && |head| <= limit {
        return head;
      }
    }
    assert seps[|seps|..] == [];
    var cut := Window(t, limit);
    if ' ' in cut {
      cut := cut[..LastSpace(cut)];
    }
    r := RStrip(cut, TRAILING);
  }
}
