/**
 The controller's word count — the number of non-empty pieces left when the
 text is split at space, carriage return, line feed and tab — and what it
 means: the number of maximal runs of non-separator characters.
 */
module Words {

  /** The four characters passed to `String.Split`. */
  predicate IsSeparator(c: char)
  {
    c == ' ' || c == '\r' || c == '\n' || c == '\t'
  }

  /** A token that survives `RemoveEmptyEntries`: non-empty, no separator inside. */
  predicate IsWord(w: string)
  {
    |w| > 0 && forall i :: 0 <= i < |w| ==> !IsSeparator(w[i])
  }

  predicate AllSeparators(s: string)
  {
    forall i :: 0 <= i < |s| ==> IsSeparator(s[i])
  }

  /** Length of the longest separator-free prefix of `s`. */
  function WordLength(s: string): (n: nat)
    ensures n <= |s|
    ensures forall i :: 0 <= i < n ==> !IsSeparator(s[i])
    ensures n == |s| || IsSeparator(s[n])
  {
    if |s| == 0 || IsSeparator(s[0]) then 0 else 1 + WordLength(s[1..])
  }

  /** `String.Split` on the four separators with `RemoveEmptyEntries`:
      every token it returns is a word. */
  function Split(s: string): (ws: seq<string>)
    ensures forall k :: 0 <= k < |ws| ==> IsWord(ws[k])
    decreases |s|
  {
    if |s| == 0 then []
    else if IsSeparator(s[0]) then Split(s[1..])
    else
      var n := WordLength(s);
      [s[..n]] + Split(s[n..])
  }

  /** The count the controller compares against the limit: the number of
      maximal runs of non-separator characters. */
  function WordCount(s: string): (n: nat)
    ensures n == RunCount(s)
  {
    SplitCountsRuns(s);
    |Split(s)|
  }

  // ----- An independent reference: counting the positions where a run starts -----

  /** Position `i` holds a non-separator that is not preceded by one. */
  predicate StartsRun(s: string, i: nat)
    requires i < |s|
  {
    !IsSeparator(s[i]) && (i == 0 || IsSeparator(s[i - 1]))
  }

  /** Number of run starts at positions `i` and later. */
  function RunsFrom(s: string, i: nat): nat
    requires i <= |s|
    decreases |s| - i
  {
    if i == |s| then 0 else (if StartsRun(s, i) then 1 else 0) + RunsFrom(s, i + 1)
  }

  /** Number of maximal runs of non-separator characters in `s`. */
  function RunCount(s: string): nat
  {
    RunsFrom(s, 0)
  }

  /** No run starts strictly inside a word. */
  lemma {:induction false} NoRunStartsInsideWord(s: string, i: nat, j: nat)
    requires 0 < i <= j <= |s|
    requires forall k :: i - 1 <= k < j ==> !IsSeparator(s[k])
    ensures RunsFrom(s, i) == RunsFrom(s, j)
    decreases j - i
  {
    if i < j {
      assert !StartsRun(s, i);
      NoRunStartsInsideWord(s, i + 1, j);
    }
  }

  /** Splitting a suffix that begins at a word boundary yields one token per run. */
  lemma {:induction false} SplitSuffixCountsRuns(s: string, i: nat)
    requires i <= |s|
    requires i == 0 || i == |s| || IsSeparator(s[i - 1]) || IsSeparator(s[i])
    ensures |Split(s[i..])| == RunsFrom(s, i)
    decreases |s| - i, 1
  {
    if i == |s| {
      assert s[i..] == [];
    } else if IsSeparator(s[i]) {
      assert s[i..][1..] == s[i + 1..];
      SplitSuffixCountsRuns(s, i + 1);
    } else {
      SplitSuffixAtWord(s, i);
    }
  }

  /** The case of `SplitSuffixCountsRuns` where a word starts at `i`. */
  lemma {:induction false} SplitSuffixAtWord(s: string, i: nat)
    requires i < |s| && !IsSeparator(s[i])
    requires i == 0 || IsSeparator(s[i - 1])
    ensures |Split(s[i..])| == RunsFrom(s, i)
    decreases |s| - i, 0
  {
    var t := s[i..];
    var n := WordLength(t);
    assert Split(t) == [t[..n]] + Split(t[n..]);
    assert t[n..] == s[i + n..];
    forall k | i <= k < i + n
      ensures !IsSeparator(s[k])
    {
      assert s[k] == t[k - i];
    }
    assert i + n == |s| || IsSeparator(s[i + n]) by {
      if i + n < |s| {
        assert s[i + n] == t[n];
      }
    }
    NoRunStartsInsideWord(s, i + 1, i + n);
    SplitSuffixCountsRuns(s, i + n);
    assert StartsRun(s, i);
    assert RunsFrom(s, i) == 1 + RunsFrom(s, i + 1);
  }

  /** The split yields one token per maximal run of non-separators. */
  lemma SplitCountsRuns(s: string)
    ensures |Split(s)| == RunCount(s)
  {
    assert s[0..] == s;
    SplitSuffixCountsRuns(s, 0);
  }

  /** A single non-separator anywhere makes a word. */
  lemma NonSeparatorMakesWord(s: string, i: nat)
    requires i < |s| && !IsSeparator(s[i])
    ensures WordCount(s) >= 1
  {
    RunStartAtOrBefore(s, i);
  }

  lemma {:induction false} RunStartAtOrBefore(s: string, i: nat)
    requires i < |s| && !IsSeparator(s[i])
    ensures RunsFrom(s, 0) >= 1
    decreases i
  {
    if StartsRun(s, i) {
      RunsFromCountsStart(s, 0, i);
    } else {
      RunStartAtOrBefore(s, i - 1);
    }
  }

  lemma {:induction false} RunsFromCountsStart(s: string, j: nat, i: nat)
    requires j <= i < |s| && StartsRun(s, i)
    ensures RunsFrom(s, j) >= 1
    decreases i - j
  {
    if j < i {
      RunsFromCountsStart(s, j + 1, i);
    }
  }

  // ----- Separators split the text independently on each side -----

  /** A separator between `a` and `b` splits the two halves apart. */
  lemma {:induction false} SplitAtSeparator(a: string, c: char, b: string)
    requires IsSeparator(c)
    ensures Split(a + [c] + b) == Split(a) + Split(b)
    decreases |a|
  {
    var s := a + [c] + b;
    if |a| == 0 {
      assert s == [c] + b;
      assert s[1..] == b;
    } else if IsSeparator(a[0]) {
      assert s[1..] == a[1..] + [c] + b;
      SplitAtSeparator(a[1..], c, b);
    } else {
      var m := WordLength(a);
      assert m == WordLength(s) by {
        WordLengthIsFirstSeparator(s, m);
      }
      assert s[..m] == a[..m];
      assert s[m..] == a[m..] + [c] + b;
      SplitAtSeparator(a[m..], c, b);
    }
  }

  /** `WordLength` is pinned down by its contract. */
  lemma WordLengthIsFirstSeparator(s: string, m: nat)
    requires m <= |s|
    requires forall i :: 0 <= i < m ==> !IsSeparator(s[i])
    requires m == |s| || IsSeparator(s[m])
    ensures WordLength(s) == m
  {
  }

  /** Leading separators are dropped, as tokens and not only in number. */
  lemma {:induction false} SplitIgnoresLeadingSeparators(r: string, s: string)
    requires AllSeparators(r)
    ensures Split(r + s) == Split(s)
    decreases |r|
  {
    if |r| > 0 {
      assert r + s == [] + [r[0]] + (r[1..] + s);
      assert IsSeparator(r[0]);
      SplitAtSeparator([], r[0], r[1..] + s);
      SplitIgnoresLeadingSeparators(r[1..], s);
      assert Split([]) == [];
    } else {
      assert r + s == s;
    }
  }

  /** Trailing separators are dropped, as tokens and not only in number. */
  lemma SplitIgnoresTrailingSeparators(s: string, r: string)
    requires AllSeparators(r)
    ensures Split(s + r) == Split(s)
  {
    if |r| > 0 {
      assert s + r == s + [r[0]] + r[1..];
      assert IsSeparator(r[0]);
      SplitAtSeparator(s, r[0], r[1..]);
      SplitIgnoresLeadingSeparators(r[1..], []);
      assert r[1..] + [] == r[1..];
      assert Split([]) == [];
    } else {
      assert s + r == s;
    }
  }

  /** Any non-empty run of separators splits like a single space. */
  lemma SeparatorRunIsOneSpace(a: string, r: string, b: string)
    requires |r| > 0 && AllSeparators(r)
    ensures Split(a + r + b) == Split(a + " " + b)
  {
    assert a + r + b == a + [r[0]] + (r[1..] + b);
    SplitAtSeparator(a, r[0], r[1..] + b);
    SplitIgnoresLeadingSeparators(r[1..], b);
    assert a + " " + b == a + [' '] + b;
    SplitAtSeparator(a, ' ', b);
  }

  /** The word count is unchanged by surrounding separators and by the length
      of any separator run. */
  lemma WordCountIgnoresSeparatorRuns(r1: string, a: string, r: string, b: string, r2: string)
    requires AllSeparators(r1) && AllSeparators(r2)
    requires |r| > 0 && AllSeparators(r)
    ensures WordCount(r1 + a + r + b + r2) == WordCount(a + " " + b)
  {
    assert r1 + a + r + b + r2 == r1 + ((a + r + b) + r2);
    SplitIgnoresLeadingSeparators(r1, (a + r + b) + r2);
    SplitIgnoresTrailingSeparators(a + r + b, r2);
    SeparatorRunIsOneSpace(a, r, b);
  }

  /** Two spaces and one space between the same two words give the same count. */
  lemma DoubleSpaceExample()
    ensures WordCount("a  b") == 2 && WordCount("a b") == 2
  {
    SeparatorRunIsOneSpace("a", "  ", "b");
    assert "a" + "  " + "b" == "a  b";
    assert "a" + " " + "b" == "a b";
    SplitAtSeparator("a", ' ', "b");
    assert "a" + [' '] + "b" == "a b";
    SingleWord("a");
    SingleWord("b");
  }

  // ----- Joining words with single spaces is undone by Split -----

  /** Words joined by single spaces. */
  function JoinWords(ws: seq<string>): string
  {
    if |ws| == 0 then "" else if |ws| == 1 then ws[0] else ws[0] + " " + JoinWords(ws[1..])
  }

  /** A word splits to itself. */
  lemma SingleWord(w: string)
    requires IsWord(w)
    ensures Split(w) == [w]
  {
    WordLengthIsFirstSeparator(w, |w|);
    assert w[..|w|] == w;
    assert w[|w|..] == [];
  }

  /** Splitting words joined by single spaces gives the words back. */
  lemma {:induction false} SplitJoinWords(ws: seq<string>)
    requires forall k :: 0 <= k < |ws| ==> IsWord(ws[k])
    ensures Split(JoinWords(ws)) == ws
  {
    if |ws| == 1 {
      SingleWord(ws[0]);
    } else if |ws| > 1 {
      SplitJoinWords(ws[1..]);
      assert JoinWords(ws) == ws[0] + [' '] + JoinWords(ws[1..]);
      SplitAtSeparator(ws[0], ' ', JoinWords(ws[1..]));
      SingleWord(ws[0]);
      assert ws == [ws[0]] + ws[1..];
    }
  }
}
