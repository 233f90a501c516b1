/**
 * Tokenizing a chat message: `content.split(/ +/)` followed by lower-casing
 * the first token. Only the space character U+0020 separates tokens; tabs and
 * line breaks stay inside tokens, exactly as the regular expression `/ +/` does.
 */
module Tokenizer {

  /** Index of the first space at or after `i`, or `|s|` when there is none. */
  function NextSpace(s: string, i: nat): (k: nat)
    requires i <= |s|
    ensures i <= k <= |s|
    ensures k < |s| ==> s[k] == ' '
    ensures forall m :: i <= m < k ==> s[m] != ' '
    decreases |s| - i
  {
    if i == |s| || s[i] == ' ' then i else NextSpace(s, i + 1)
  }

  /** Index just past the run of spaces that starts at `i`. */
  function RunEnd(s: string, i: nat): (k: nat)
    requires i <= |s|
    ensures i <= k <= |s|
    ensures k < |s| ==> s[k] != ' '
    ensures forall m :: i <= m < k ==> s[m] == ' '
    decreases |s| - i
  {
    if i == |s| || s[i] != ' ' then i else RunEnd(s, i + 1)
  }

  /**
   * JavaScript's `s.split(/ +/)`: the pieces between maximal runs of spaces.
   * A run at the start yields a leading "" and a run at the end a trailing "";
   * the empty string splits into [""].
   */
  function Split(s: string): (r: seq<string>)
    ensures |r| >= 1
    ensures forall k :: 0 <= k < |r| ==> ' ' !in r[k]
    ensures r[0] == "" <==> (s == "" || s[0] == ' ')
    ensures forall k :: 0 < k < |r| - 1 ==> r[k] != ""
    decreases |s|
  {
    var i := NextSpace(s, 0);
    if i == |s| then
      assert forall m :: 0 <= m < |s| ==> s[m] != ' ';
      [s]
    else
      var j := RunEnd(s, i);
      var rest := Split(s[j..]);
      assert ' ' !in s[..i] by {
        forall m | 0 <= m < i ensures s[..i][m] != ' ' { }
      }
      assert j < |s| ==> rest[0] != "" by {
        if j < |s| { assert s[j..][0] == s[j]; }
      }
      [s[..i]] + rest
  }

  /** Tokens as `split(/ +/)` can produce them: no spaces, and only the first or the last may be empty. */
  ghost predicate WellFormed(t: seq<string>)
  {
    && |t| >= 1
    && (forall k :: 0 <= k < |t| ==> ' ' !in t[k])
    && (forall k :: 0 < k < |t| - 1 ==> t[k] != "")
  }

  /** A run of `n` spaces. */
  function Spaces(n: nat): (r: string)
    ensures |r| == n && forall m :: 0 <= m < n ==> r[m] == ' '
  {
    seq(n, _ => ' ')
  }

  /** The tokens joined by runs of spaces: `gaps[k]` spaces between `t[k]` and `t[k + 1]`. */
  function JoinRuns(t: seq<string>, gaps: seq<nat>): string
    requires |t| >= 1 && |gaps| == |t| - 1
  {
    if |t| == 1 then t[0] else t[0] + Spaces(gaps[0]) + JoinRuns(t[1..], gaps[1..])
  }

  /** The lengths of the runs of spaces between the tokens of `s`, as `Split` cuts it. */
  function Gaps(s: string): (g: seq<nat>)
    ensures |g| == |Split(s)| - 1
    ensures forall k :: 0 <= k < |g| ==> g[k] >= 1
    decreases |s|
  {
    var i := NextSpace(s, 0);
    if i == |s| then [] else var j := RunEnd(s, i); [j - i] + Gaps(s[j..])
  }

  /** The concatenation of all tokens. */
  function Concat(t: seq<string>): string
  {
    if t == [] then "" else t[0] + Concat(t[1..])
  }

  /** `s` with every space deleted. */
  function RemoveSpaces(s: string): string
  {
    if s == "" then "" else (if s[0] == ' ' then "" else [s[0]]) + RemoveSpaces(s[1..])
  }

  lemma NextSpaceAt(s: string, i: nat, k: nat)
    requires i <= k <= |s|
    requires k < |s| ==> s[k] == ' '
    requires forall m :: i <= m < k ==> s[m] != ' '
    ensures NextSpace(s, i) == k
  {
  }

  lemma RunEndAt(s: string, i: nat, k: nat)
    requires i <= k <= |s|
    requires k < |s| ==> s[k] != ' '
    requires forall m :: i <= m < k ==> s[m] == ' '
    ensures RunEnd(s, i) == k
  {
  }

  lemma {:induction false} JoinRunsStartsWith(t: seq<string>, gaps: seq<nat>)
    requires |t| >= 1 && |gaps| == |t| - 1
    ensures |JoinRuns(t, gaps)| >= |t[0]| && JoinRuns(t, gaps)[..|t[0]|] == t[0]
  {
  }

  /** The first token is the longest space-free prefix of the content. */
  lemma {:induction false} FirstTokenIsPrefix(s: string)
    ensures var t := Split(s)[0];
      && |t| <= |s| && t == s[..|t|]
      && ' ' !in t
      && (|t| == |s| || s[|t|] == ' ')
  {
  }

  /** A trailing space makes the last token empty, and nothing else does. */
  lemma {:induction false} LastTokenEmpty(s: string)
    ensures var r := Split(s); r[|r| - 1] == "" <==> (s == "" || s[|s| - 1] == ' ')
    decreases |s|
  {
    var i := NextSpace(s, 0);
    if i < |s| {
      var j := RunEnd(s, i);
      SplitStep(s);
      LastTokenEmpty(s[j..]);
      assert s[j - 1] == ' ';
      if j < |s| {
        assert s[j..][|s[j..]| - 1] == s[|s| - 1];
      }
    }
  }

  /**
   * Splitting undoes joining: whatever non-empty runs of spaces separate tokens
   * that `Split` can produce, splitting the joined text gives back exactly those tokens.
   */
  lemma {:induction false} SplitJoinRuns(t: seq<string>, gaps: seq<nat>)
    requires WellFormed(t)
    requires |gaps| == |t| - 1 && forall k :: 0 <= k < |gaps| ==> gaps[k] >= 1
    ensures Split(JoinRuns(t, gaps)) == t
    decreases |t|
  {
    var s := JoinRuns(t, gaps);
    if |t| == 1 {
      NextSpaceAt(s, 0, |s|);
    } else {
      var rest := JoinRuns(t[1..], gaps[1..]);
      var i, n := |t[0]|, gaps[0];
      assert s == t[0] + Spaces(n) + rest;
      assert s[..i] == t[0];
      assert s[i] == ' ';
      NextSpaceAt(s, 0, i);
      assert s[i + n..] == rest;
      if rest != "" {
        if |t| == 2 {
          assert rest == t[1];
        } else {
          JoinRunsStartsWith(t[1..], gaps[1..]);
          assert rest[0] == t[1][0];
        }
        assert rest[0] != ' ';
      }
      forall m | i <= m < i + n ensures s[m] == ' ' {
        assert s[m] == Spaces(n)[m - i];
      }
      RunEndAt(s, i, i + n);
      assert WellFormed(t[1..]);
      SplitJoinRuns(t[1..], gaps[1..]);
      SplitStep(s);
    }
  }

  /** Every content is its tokens joined by the runs of spaces `Split` removed. */
  lemma {:induction false} SplitRejoins(s: string)
    ensures JoinRuns(Split(s), Gaps(s)) == s
    decreases |s|
  {
    var i := NextSpace(s, 0);
    if i < |s| {
      var j := RunEnd(s, i);
      SplitStep(s);
      assert Gaps(s) == [j - i] + Gaps(s[j..]);
      SplitRejoins(s[j..]);
      SliceAllSpaces(s, i, j);
      assert Spaces(j - i) == s[i..j];
      JoinRunsCons(s[..i], Split(s[j..]), j - i, Gaps(s[j..]));
      assert s == s[..i] + s[i..j] + s[j..];
    }
  }

  /** The content splits into a single token exactly when it holds no space. */
  lemma SingleToken(s: string)
    ensures |Split(s)| == 1 <==> ' ' !in s
  {
    var i := NextSpace(s, 0);
    if i < |s| {
      assert s[i] in s;
      SplitStep(s);
    }
  }

  lemma JoinRunsCons(w: string, t: seq<string>, n: nat, gaps: seq<nat>)
    requires |t| >= 1 && |gaps| == |t| - 1
    ensures JoinRuns([w] + t, [n] + gaps) == w + Spaces(n) + JoinRuns(t, gaps)
  {
    assert ([w] + t)[1..] == t;
    assert ([n] + gaps)[1..] == gaps;
  }

  lemma {:induction false} RemoveSpacesAppend(a: string, b: string)
    ensures RemoveSpaces(a + b) == RemoveSpaces(a) + RemoveSpaces(b)
    decreases |a|
  {
    if a != "" {
      assert (a + b)[0] == a[0];
      assert (a + b)[1..] == a[1..] + b;
      RemoveSpacesAppend(a[1..], b);
    } else {
      assert a + b == b;
    }
  }

  lemma {:induction false} RemoveSpacesOfWord(a: string)
    requires ' ' !in a
    ensures RemoveSpaces(a) == a
    decreases |a|
  {
    if a != "" {
      assert a[0] in a;
      RemoveSpacesOfWord(a[1..]);
    }
  }

  lemma {:induction false} RemoveSpacesOfRun(a: string)
    requires forall m :: 0 <= m < |a| ==> a[m] == ' '
    ensures RemoveSpaces(a) == ""
    decreases |a|
  {
    if a != "" {
      RemoveSpacesOfRun(a[1..]);
    }
  }

  /** Deleting the spaces of a word, a run of spaces and a tail leaves the word and the tail's non-spaces. */
  lemma RemoveSpacesOfPieces(word: string, run: string, tail: string)
    requires ' ' !in word
    requires forall m :: 0 <= m < |run| ==> run[m] == ' '
    ensures RemoveSpaces(word + run + tail) == word + RemoveSpaces(tail)
  {
    RemoveSpacesAppend(word + run, tail);
    RemoveSpacesAppend(word, run);
    RemoveSpacesOfWord(word);
    RemoveSpacesOfRun(run);
  }

  /** One step of `Split`: the word before the first space, then the split of what follows the run. */
  lemma SplitStep(s: string)
    requires NextSpace(s, 0) < |s|
    ensures Split(s) == [s[..NextSpace(s, 0)]] + Split(s[RunEnd(s, NextSpace(s, 0))..])
  {
  }

  lemma SliceNoSpace(s: string, i: nat, j: nat)
    requires i <= j <= |s|
    requires forall m :: i <= m < j ==> s[m] != ' '
    ensures ' ' !in s[i..j]
  {
    forall m | 0 <= m < j - i ensures s[i..j][m] != ' ' {
      assert s[i..j][m] == s[i + m];
    }
  }

  lemma SliceAllSpaces(s: string, i: nat, j: nat)
    requires i <= j <= |s|
    requires forall m :: i <= m < j ==> s[m] == ' '
    ensures forall m :: 0 <= m < |s[i..j]| ==> s[i..j][m] == ' '
  {
    forall m | 0 <= m < j - i ensures s[i..j][m] == ' ' {
      assert s[i..j][m] == s[i + m];
    }
  }

  lemma ConcatCons(w: string, r: seq<string>)
    ensures Concat([w] + r) == w + Concat(r)
  {
    assert ([w] + r)[1..] == r;
  }

  /** Splitting loses nothing but spaces: the tokens, concatenated, are the content without its spaces. */
  lemma {:induction false} SplitKeepsNonSpaces(s: string)
    ensures Concat(Split(s)) == RemoveSpaces(s)
    decreases |s|
  {
    var i := NextSpace(s, 0);
    if i == |s| {
      assert ' ' !in s by {
        forall m | 0 <= m < |s| ensures s[m] != ' ' { }
      }
      RemoveSpacesOfWord(s);
      assert Split(s) == [s];
      ConcatCons(s, []);
    } else {
      var j := RunEnd(s, i);
      SplitStep(s);
      var word, run, tail := s[..i], s[i..j], s[j..];
      SliceNoSpace(s, 0, i);
      assert s[0..i] == word;
      SliceAllSpaces(s, i, j);
      assert s == word + run + tail;
      ConcatCons(word, Split(tail));
      SplitKeepsNonSpaces(tail);
      RemoveSpacesOfPieces(word, run, tail);
    }
  }

  predicate IsUpper(c: char)
  {
    'A' <= c <= 'Z'
  }

  /** ASCII `toLowerCase` on one character. */
  function LowerChar(c: char): (d: char)
    ensures !IsUpper(d)
    ensures IsUpper(c) ==> d as int == c as int + 32
    ensures !IsUpper(c) ==> d == c
  {
    if IsUpper(c) then (c as int + 32) as char else c
  }

  /** ASCII `toLowerCase` on a string: upper-case letters map to lower case, every other character is kept. */
  function Lower(s: string): (r: string)
    ensures |r| == |s|
    ensures forall k :: 0 <= k < |r| ==> !IsUpper(r[k])
    ensures forall k :: 0 <= k < |s| ==> (IsUpper(s[k]) ==> r[k] as int == s[k] as int + 32)
    ensures forall k :: 0 <= k < |s| ==> (!IsUpper(s[k]) ==> r[k] == s[k])
    decreases |s|
  {
    if s == "" then "" else [LowerChar(s[0])] + Lower(s[1..])
  }

  /** Lower-casing twice is lower-casing once. */
  lemma LowerIdempotent(s: string)
    ensures Lower(Lower(s)) == Lower(s)
  {
    var r := Lower(s);
    assert forall k :: 0 <= k < |r| ==> Lower(r)[k] == r[k];
  }

  /** Lower-casing keeps spaces where they are and adds none. */
  lemma LowerKeepsSpaces(s: string)
    ensures forall k :: 0 <= k < |s| ==> (Lower(s)[k] == ' ' <==> s[k] == ' ')
  {
  }
}
