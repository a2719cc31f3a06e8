/** String helpers for the literal substring and prefix tests that the URL
    rules perform, and for splitting a path on '/' with a bounded number of
    splits, as re.split(r'\/', s, maxsplit=n) does. */
module Text {

  /** s begins with prefix (re.search('^prefix', s) for a literal prefix). */
  predicate StartsWith(s: string, prefix: string)
  {
    |prefix| <= |s| && s[..|prefix|] == prefix
  }

  /** A character that differs from the prefix's rules the prefix out. */
  lemma MismatchNotStartsWith(s: string, prefix: string, k: nat)
    requires k < |prefix| && k < |s| && s[k] != prefix[k]
    ensures !StartsWith(s, prefix)
  {
  }

  /** pat occurs in s starting at index i. */
  predicate OccursAt(s: string, pat: string, i: nat)
  {
    i + |pat| <= |s| && s[i..i + |pat|] == pat
  }

  /** pat occurs somewhere in s (re.search(pat, s) for a literal pattern). */
  predicate Contains(s: string, pat: string)
  {
    exists i: nat :: i <= |s| && OccursAt(s, pat, i)
  }

  /** A string begins with whatever is prepended to it. */
  lemma PrefixStartsWith(prefix: string, rest: string)
    ensures StartsWith(prefix + rest, prefix)
  {
    assert (prefix + rest)[..|prefix|] == prefix;
  }

  /** A prefix is in particular an occurrence. */
  lemma StartsWithContains(s: string, prefix: string)
    requires StartsWith(s, prefix)
    ensures Contains(s, prefix)
  {
    assert OccursAt(s, prefix, 0);
  }

  /** A string one of whose characters does not occur in s does not occur in s. */
  lemma AbsentCharNotContained(s: string, pat: string, c: char)
    requires c in pat && c !in s
    ensures !Contains(s, pat)
  {
  }

  /** Number of occurrences of the character c in s. */
  function Count(s: string, c: char): (n: nat)
    ensures n <= |s|
  {
    if s == [] then 0 else (if s[0] == c then 1 else 0) + Count(s[1..], c)
  }

  /** Index of the first c in s, for a string that holds one. */
  function FirstIndex(s: string, c: char): (k: nat)
    requires c in s
    ensures k < |s| && s[k] == c
    ensures forall j :: 0 <= j < k ==> s[j] != c
  {
    if s[0] == c then 0 else 1 + FirstIndex(s[1..], c)
  }

  /** A character absent from s occurs zero times, and vice versa. */
  lemma {:induction false} CountZero(s: string, c: char)
    ensures Count(s, c) == 0 <==> c !in s
  {
    if s != [] {
      CountZero(s[1..], c);
      assert s == [s[0]] + s[1..];
    }
  }

  /** Two different positions holding c mean at least two occurrences. */
  lemma {:induction false} CountTwo(s: string, c: char, i: nat, j: nat)
    requires i < j < |s| && s[i] == c && s[j] == c
    ensures Count(s, c) >= 2
  {
    if i == 0 {
      assert c in s[1..] by { assert s[1..][j - 1] == c; }
      CountZero(s[1..], c);
    } else {
      CountTwo(s[1..], c, i - 1, j - 1);
    }
  }

  /** Splits s at its first n occurrences of sep, from the left; the pieces
      are those of re.split on a one-character literal with maxsplit = n
      (for n > 0; Python's maxsplit = 0, meaning no limit, is not needed). */
  function SplitLimited(s: string, sep: char, n: nat): (parts: seq<string>)
    decreases n
  {
    if n == 0 || sep !in s then [s]
    else
      var k := FirstIndex(s, sep);
      [s[..k]] + SplitLimited(s[k + 1..], sep, n - 1)
  }

  /** Joins pieces with sep between them ('/'.join(parts)). */
  function Join(parts: seq<string>, sep: char): string
  {
    if parts == [] then []
    else if |parts| == 1 then parts[0]
    else parts[0] + [sep] + Join(parts[1..], sep)
  }

  function Min(a: nat, b: nat): nat { if a <= b then a else b }

  /** Splitting yields one piece more than it made splits, and it made as many
      splits as allowed or as there are separators, whichever is fewer. */
  lemma {:induction false} SplitLength(s: string, sep: char, n: nat)
    ensures |SplitLimited(s, sep, n)| == Min(Count(s, sep), n) + 1
  {
    if n == 0 || sep !in s {
      CountZero(s, sep);
    } else {
      var k := FirstIndex(s, sep);
      SplitLength(s[k + 1..], sep, n - 1);
      SplitLengthStep(s, sep, n, k);
    }
  }

  /** The inductive step of SplitLength. */
  lemma SplitLengthStep(s: string, sep: char, n: nat, k: nat)
    requires n > 0 && sep in s && k == FirstIndex(s, sep)
    ensures |SplitLimited(s[k + 1..], sep, n - 1)| == Min(Count(s[k + 1..], sep), n - 1) + 1 ==>
      |SplitLimited(s, sep, n)| == Min(Count(s, sep), n) + 1
  {
    CountSplit(s, sep, k);
  }

  /** Count over a string cut at its first separator. */
  lemma {:induction false} CountSplit(s: string, sep: char, k: nat)
    requires k < |s| && s[k] == sep && forall j :: 0 <= j < k ==> s[j] != sep
    ensures Count(s, sep) == 1 + Count(s[k + 1..], sep)
  {
    if k > 0 {
      CountSplit(s[1..], sep, k - 1);
      assert s[1..][k..] == s[k + 1..];
    }
  }

  /** The pieces of s joined back with the separator. */
  function Rejoined(s: string, sep: char, n: nat): string
  {
    Join(SplitLimited(s, sep, n), sep)
  }

  /** Splitting loses nothing: joining the pieces back with the separator
      gives the original string. */
  lemma SplitJoin(s: string, sep: char, n: nat)
    ensures Join(SplitLimited(s, sep, n), sep) == s
  {
    RejoinedAll(s, sep, n);
  }

  /** SplitJoin by induction on n; the claim is stated on Rejoined so that
      the hypothesis for the rest of the string is handed on unchanged. */
  lemma {:induction false} RejoinedAll(s: string, sep: char, n: nat)
    ensures Rejoined(s, sep, n) == s
  {
    if n > 0 && sep in s {
      var k := FirstIndex(s, sep);
      RejoinedAll(s[k + 1..], sep, n - 1);
      RejoinedStep(s, sep, n, k);
    } else {
      RejoinedWhole(s, sep, n);
    }
  }

  /** A string that is not split at all joins back to itself. */
  lemma RejoinedWhole(s: string, sep: char, n: nat)
    requires n == 0 || sep !in s
    ensures Rejoined(s, sep, n) == s
  {
    assert SplitLimited(s, sep, n) == [s];
  }

  /** The inductive step of RejoinedAll: the claim for the rest of the
      string after its first separator gives the claim for the whole. */
  lemma RejoinedStep(s: string, sep: char, n: nat, k: nat)
    requires n > 0 && sep in s && k == FirstIndex(s, sep)
    ensures Rejoined(s[k + 1..], sep, n - 1) == s[k + 1..] ==> Rejoined(s, sep, n) == s
  {
    if Rejoined(s[k + 1..], sep, n - 1) == s[k + 1..] {
      SplitNonEmpty(s[k + 1..], sep, n - 1);
      JoinAtCut(s, sep, k, SplitLimited(s[k + 1..], sep, n - 1));
    }
  }

  /** Pieces that join back to what follows position k, with the part
      before k in front, join back to the whole string. */
  lemma JoinAtCut(s: string, sep: char, k: nat, parts: seq<string>)
    requires k < |s| && s[k] == sep
    requires |parts| >= 1 && Join(parts, sep) == s[k + 1..]
    ensures Join([s[..k]] + parts, sep) == s
  {
    JoinCons(s[..k], parts, sep);
    assert s == s[..k] + [sep] + s[k + 1..];
  }

  lemma JoinCons(head: string, rest: seq<string>, sep: char)
    requires |rest| >= 1
    ensures Join([head] + rest, sep) == head + [sep] + Join(rest, sep)
  {
    assert ([head] + rest)[1..] == rest;
  }

  lemma SplitNonEmpty(s: string, sep: char, n: nat)
    ensures |SplitLimited(s, sep, n)| >= 1
  {
  }

  /** Every piece but the last holds no separator; the last holds none either
      when fewer than n splits were made. */
  predicate CleanPieces(parts: seq<string>, sep: char, n: nat)
  {
    (forall j :: 0 <= j < |parts| - 1 ==> sep !in parts[j]) &&
    (0 < |parts| <= n ==> sep !in parts[|parts| - 1])
  }

  /** The pieces of a split are clean in the sense of CleanPieces. */
  lemma {:induction false} SplitPieces(s: string, sep: char, n: nat)
    ensures CleanPieces(SplitLimited(s, sep, n), sep, n)
  {
    if n > 0 && sep in s {
      var k := FirstIndex(s, sep);
      SplitPieces(s[k + 1..], sep, n - 1);
      SplitPiecesStep(s, sep, n, k);
    }
  }

  /** The inductive step of SplitPieces. */
  lemma SplitPiecesStep(s: string, sep: char, n: nat, k: nat)
    requires n > 0 && sep in s && k == FirstIndex(s, sep)
    ensures CleanPieces(SplitLimited(s[k + 1..], sep, n - 1), sep, n - 1) ==>
      CleanPieces(SplitLimited(s, sep, n), sep, n)
  {
    var rest := SplitLimited(s[k + 1..], sep, n - 1);
    if CleanPieces(rest, sep, n - 1) {
      SplitNonEmpty(s[k + 1..], sep, n - 1);
      assert sep !in s[..k];
      ConsClean(s[..k], rest, sep, n);
    }
  }

  /** A piece without the separator in front of clean pieces keeps them
      clean, with one more split allowed. */
  lemma ConsClean(head: string, rest: seq<string>, sep: char, n: nat)
    requires n > 0 && |rest| >= 1 && sep !in head && CleanPieces(rest, sep, n - 1)
    ensures CleanPieces([head] + rest, sep, n)
  {
    var parts := [head] + rest;
    forall j | 0 <= j < |parts| - 1 ensures sep !in parts[j] {
      if j > 0 { assert parts[j] == rest[j - 1]; }
    }
    assert parts[|parts| - 1] == rest[|rest| - 1];
  }
}
