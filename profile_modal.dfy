/**
 * The file name `handleDownloadJson` gives the exported profile
 * (src/components/ProfileModal.tsx): the full name with every run of
 * whitespace replaced by one underscore, then "_profile.json".
 */
module ProfileModal {
  import opened JsStrings

  const ProfileSuffix: string := "_profile.json"

  /** The length of the longest whitespace prefix of `s`: what greedy `\s+` consumes at the front. */
  function LeadingWhitespace(s: string): (n: nat)
    ensures n <= |s|
    ensures forall i :: 0 <= i < n ==> IsJsWhitespace(s[i])
    ensures n < |s| ==> !IsJsWhitespace(s[n])
  {
    if s != [] && IsJsWhitespace(s[0]) then 1 + LeadingWhitespace(s[1..]) else 0
  }

  /**
   * `s.replace(/\s+/g, "_")`: scanning from the left, each greedy match of
   * `\s+` becomes "_" and every other character is copied.
   */
  function ReplaceWhitespaceRuns(s: string): (r: string)
    ensures HasNoWhitespace(r)
    ensures |r| <= |s|
    decreases |s|
  {
    if s == [] then []
    else if IsJsWhitespace(s[0]) then "_" + ReplaceWhitespaceRuns(s[LeadingWhitespace(s)..])
    else [s[0]] + ReplaceWhitespaceRuns(s[1..])
  }

  /** `${user.fullName.replace(/\s+/g, "_")}_profile.json`. */
  function DownloadFileName(fullName: string): (name: string)
    ensures |name| >= |ProfileSuffix| && name[|name| - |ProfileSuffix|..] == ProfileSuffix
    ensures HasNoWhitespace(name[..|name| - |ProfileSuffix|])
  {
    var stem := ReplaceWhitespaceRuns(fullName);
    assert (stem + ProfileSuffix)[..|stem|] == stem;
    stem + ProfileSuffix
  }

  // A reference reading of the replacement, position by position: a
  // non-whitespace character stands for itself, the first character of a
  // whitespace run stands for "_", and the rest of the run for nothing.

  function Piece(s: string, i: nat): string
    requires i < |s|
  {
    if !IsJsWhitespace(s[i]) then [s[i]]
    else if i == 0 || !IsJsWhitespace(s[i - 1]) then "_"
    else ""
  }

  function PiecesFrom(s: string, i: nat): string
    requires i <= |s|
    decreases |s| - i
  {
    if i == |s| then "" else Piece(s, i) + PiecesFrom(s, i + 1)
  }

  lemma {:induction false} RunTailContributesNothing(s: string, j: nat, k: nat)
    requires 0 < j <= k <= |s|
    requires forall m :: j - 1 <= m < k ==> IsJsWhitespace(s[m])
    ensures PiecesFrom(s, j) == PiecesFrom(s, k)
    decreases k - j
  {
    if j < k {
      assert Piece(s, j) == "";
      RunTailContributesNothing(s, j + 1, k);
    }
  }

  lemma {:induction false} ReplaceFromMatchesPieces(s: string, i: nat)
    requires i <= |s|
    requires i == |s| || i == 0 || !IsJsWhitespace(s[i]) || !IsJsWhitespace(s[i - 1])
    ensures ReplaceWhitespaceRuns(s[i..]) == PiecesFrom(s, i)
    decreases |s| - i
  {
    if i < |s| {
      if !IsJsWhitespace(s[i]) {
        ReplaceFromMatchesPieces(s, i + 1);
        CopiedCharacter(s, i);
      } else {
        var n := LeadingWhitespace(s[i..]);
        RunStartReplaced(s, i);
        RunStartPieces(s, i, n);
        ReplaceFromMatchesPieces(s, i + n);
      }
    }
  }

  lemma CopiedCharacter(s: string, i: nat)
    requires i < |s| && !IsJsWhitespace(s[i])
    ensures ReplaceWhitespaceRuns(s[i..]) == [s[i]] + ReplaceWhitespaceRuns(s[i + 1..])
    ensures PiecesFrom(s, i) == [s[i]] + PiecesFrom(s, i + 1)
  {
    assert s[i..][1..] == s[i + 1..];
  }

  /** At the start of a run, the scanner emits "_" and resumes after the run. */
  lemma RunStartReplaced(s: string, i: nat)
    requires i < |s| && IsJsWhitespace(s[i])
    ensures var n := LeadingWhitespace(s[i..]);
      && 0 < n && i + n <= |s|
      && (i + n == |s| || !IsJsWhitespace(s[i + n]))
      && (forall m :: i <= m < i + n ==> IsJsWhitespace(s[m]))
      && ReplaceWhitespaceRuns(s[i..]) == "_" + ReplaceWhitespaceRuns(s[i + n..])
  {
    var t := s[i..];
    assert t[0] == s[i];
    LeadingRunOfSuffix(s, i);
  }

  lemma LeadingRunOfSuffix(s: string, i: nat)
    requires i < |s|
    ensures var n := LeadingWhitespace(s[i..]);
      && i + n <= |s|
      && (i + n == |s| || !IsJsWhitespace(s[i + n]))
      && (forall m :: i <= m < i + n ==> IsJsWhitespace(s[m]))
      && s[i..][n..] == s[i + n..]
  {
    var t := s[i..];
    var n := LeadingWhitespace(t);
    assert forall m :: i <= m < i + n ==> t[m - i] == s[m];
    assert i + n < |s| ==> s[i + n] == t[n];
  }

  /** At the start of a run, the reference reading gives "_" for the whole run. */
  lemma RunStartPieces(s: string, i: nat, n: nat)
    requires 0 < n && i + n <= |s| && (i == 0 || !IsJsWhitespace(s[i - 1]))
    requires forall m :: i <= m < i + n ==> IsJsWhitespace(s[m])
    ensures PiecesFrom(s, i) == "_" + PiecesFrom(s, i + n)
  {
    assert Piece(s, i) == "_";
    assert PiecesFrom(s, i) == "_" + PiecesFrom(s, i + 1);
    RunTailContributesNothing(s, i + 1, i + n);
  }

  /** The scanner agrees with the position-by-position reading on every string. */
  lemma ReplaceMatchesPieces(s: string)
    ensures ReplaceWhitespaceRuns(s) == PiecesFrom(s, 0)
  {
    ReplaceFromMatchesPieces(s, 0);
    assert s[0..] == s;
  }

  /** A string without whitespace is left as it is. */
  lemma {:induction false} ReplaceKeepsWhitespaceFree(s: string)
    requires HasNoWhitespace(s)
    ensures ReplaceWhitespaceRuns(s) == s
  {
    if s != [] {
      ReplaceKeepsWhitespaceFree(s[1..]);
    }
  }

  lemma ReplaceIsIdempotent(s: string)
    ensures ReplaceWhitespaceRuns(ReplaceWhitespaceRuns(s)) == ReplaceWhitespaceRuns(s)
  {
    ReplaceKeepsWhitespaceFree(ReplaceWhitespaceRuns(s));
  }

  /**
   * A word, then a run of whitespace, then text not starting with whitespace:
   * the word is kept, the whole run becomes one "_", and the rest is replaced
   * in the same way.
   */
  lemma {:induction false} WordRunRest(w: string, run: string, t: string)
    requires HasNoWhitespace(w)
    requires run != [] && forall i :: 0 <= i < |run| ==> IsJsWhitespace(run[i])
    requires t == [] || !IsJsWhitespace(t[0])
    ensures ReplaceWhitespaceRuns(w + run + t) == w + "_" + ReplaceWhitespaceRuns(t)
    decreases |w|
  {
    var s := w + run + t;
    if w == [] {
      assert s == run + t;
      RunIsConsumed(run, t);
    } else {
      var rest := w[1..] + run + t;
      assert s == [w[0]] + rest;
      assert !IsJsWhitespace(s[0]) && s[1..] == rest;
      assert ReplaceWhitespaceRuns(s) == [w[0]] + ReplaceWhitespaceRuns(rest);
      WordRunRest(w[1..], run, t);
      assert w == [w[0]] + w[1..];
    }
  }

  lemma {:induction false} RunIsConsumed(run: string, t: string)
    requires run != [] && forall i :: 0 <= i < |run| ==> IsJsWhitespace(run[i])
    requires t == [] || !IsJsWhitespace(t[0])
    ensures LeadingWhitespace(run + t) == |run|
    ensures ReplaceWhitespaceRuns(run + t) == "_" + ReplaceWhitespaceRuns(t)
    decreases |run|
  {
    var s := run + t;
    assert s[1..] == run[1..] + t;
    if |run| > 1 {
      RunIsConsumed(run[1..], t);
    } else {
      assert s[1..] == t;
    }
    assert s[|run|..] == t;
  }

  /**
   * The exported file of a profile whose first and last names hold no
   * whitespace is `<first>_<last>_profile.json` ("Ana Lima" gives
   * "Ana_Lima_profile.json").
   */
  lemma FileNameOfTwoWordName(firstName: string, lastName: string)
    requires HasNoWhitespace(firstName) && HasNoWhitespace(lastName)
    ensures DownloadFileName(firstName + " " + lastName) == firstName + "_" + lastName + ProfileSuffix
  {
    WordRunRest(firstName, " ", lastName);
    ReplaceKeepsWhitespaceFree(lastName);
  }
}
