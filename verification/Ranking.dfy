/**
 The classifier's top-5 ranking: labels and scores zipped by index, stably
 sorted by score (highest first), the first five kept, and a `null` label
 replaced by the empty string.
 */
module Ranking {
  import opened Wrappers
  import opened Text

  const TopK: nat := 5

  /** One zipped pair, remembering the position it came from. */
  datatype Entry = Entry(index: nat, name: Option<string>, score: real)

  function Min(a: nat, b: nat): nat
  {
    if a <= b then a else b
  }

  /** LINQ `Zip`: pairs by position, as many as the shorter list. */
  function Zip(labels: seq<Option<string>>, scores: seq<real>): (z: seq<Entry>)
    ensures |z| == Min(|labels|, |scores|)
    ensures forall i :: 0 <= i < |z| ==> z[i] == Entry(i, labels[i], scores[i])
    ensures DistinctIndices(z)
  {
    seq(Min(|labels|, |scores|), i requires 0 <= i < Min(|labels|, |scores|) => Entry(i, labels[i], scores[i]))
  }

  /** `a` comes before `b` in a stable descending sort by score: a higher
      score first, and on equal scores the earlier position first. */
  predicate Before(a: Entry, b: Entry)
  {
    a.score > b.score || (a.score == b.score && a.index < b.index)
  }

  predicate Ranked(s: seq<Entry>)
  {
    forall i, j :: 0 <= i < j < |s| ==> Before(s[i], s[j])
  }

  predicate DistinctIndices(s: seq<Entry>)
  {
    forall i, j :: 0 <= i < j < |s| ==> s[i].index != s[j].index
  }

  /** Places `e` into a ranked sequence. */
  function Insert(e: Entry, s: seq<Entry>): (r: seq<Entry>)
    requires Ranked(s)
    requires forall x :: x in s ==> x.index != e.index
    ensures Ranked(r)
    ensures multiset(r) == multiset(s) + multiset{e}
    ensures forall x :: x in r <==> x == e || x in s
  {
    if |s| == 0 then [e]
    else if Before(e, s[0]) then
      assert forall x :: x in s ==> Before(e, x) by {
        forall x | x in s ensures Before(e, x) {
          var k :| 0 <= k < |s| && s[k] == x;
          if k > 0 { assert Before(s[0], s[k]); }
        }
      }
      [e] + s
    else
      var rest := Insert(e, s[1..]);
      InsertBehindHead(e, s, rest);
      [s[0]] + rest
  }

  /** When `e` goes behind the head of `s`, the head stays in front of everything. */
  lemma InsertBehindHead(e: Entry, s: seq<Entry>, rest: seq<Entry>)
    requires |s| > 0 && Ranked(s) && !Before(e, s[0]) && s[0].index != e.index
    requires Ranked(rest)
    requires multiset(rest) == multiset(s[1..]) + multiset{e}
    requires forall x :: x in rest <==> x == e || x in s[1..]
    ensures Ranked([s[0]] + rest)
    ensures multiset([s[0]] + rest) == multiset(s) + multiset{e}
  {
    assert s == [s[0]] + s[1..];
    var r := [s[0]] + rest;
    forall i, j | 0 <= i < j < |r| ensures Before(r[i], r[j]) {
      if i == 0 {
        assert r[j] in rest;
        if r[j] != e {
          var k :| 0 <= k < |s[1..]| && s[1..][k] == r[j];
          assert s[k + 1] == r[j];
        }
      } else {
        assert r[i] == rest[i - 1] && r[j] == rest[j - 1];
      }
    }
  }

  /** LINQ `OrderByDescending` on the score: a ranked permutation of its input. */
  function Sort(s: seq<Entry>): (r: seq<Entry>)
    requires DistinctIndices(s)
    ensures Ranked(r)
    ensures multiset(r) == multiset(s)
    ensures forall x :: x in r <==> x in s
  {
    if |s| == 0 then []
    else
      var rest := Sort(s[1..]);
      assert forall x :: x in rest ==> x.index != s[0].index by {
        forall x | x in rest ensures x.index != s[0].index {
          var k :| 0 <= k < |s[1..]| && s[1..][k] == x;
          assert s[k + 1] == x;
        }
      }
      assert s == [s[0]] + s[1..];
      Insert(s[0], rest)
  }

  /** The ranked pairs the controller keeps: the first five after sorting. */
  function RankedEntries(labels: seq<Option<string>>, scores: seq<real>): (r: seq<Entry>)
    ensures |r| == Min(TopK, Min(|labels|, |scores|))
    ensures Ranked(r)
    ensures forall k :: 0 <= k < |r| ==>
      r[k].index < Min(|labels|, |scores|)
      && r[k].name == labels[r[k].index]
      && r[k].score == scores[r[k].index]
  {
    var z := Zip(labels, scores);
    var sorted := Sort(z);
    assert |sorted| == |z| by {
      assert |multiset(sorted)| == |multiset(z)|;
    }
    forall k | 0 <= k < |sorted|
      ensures sorted[k] in z
    {
      assert sorted[k] in sorted;
    }
    sorted[..Min(TopK, |sorted|)]
  }

  /** The labels the controller returns, most confident first. */
  function TopLabels(labels: seq<Option<string>>, scores: seq<real>): (r: seq<string>)
    ensures |r| == Min(TopK, Min(|labels|, |scores|))
    ensures forall k :: 0 <= k < |r| ==>
      exists i :: 0 <= i < Min(|labels|, |scores|) && r[k] == OrEmpty(labels[i])
  {
    var es := RankedEntries(labels, scores);
    seq(|es|, k requires 0 <= k < |es| => OrEmpty(es[k].name))
  }

  /** The label shown for the `k`-th kept pair. */
  lemma TopLabelsFollowRanking(labels: seq<Option<string>>, scores: seq<real>, k: nat)
    requires k < |TopLabels(labels, scores)|
    ensures k < |RankedEntries(labels, scores)|
    ensures TopLabels(labels, scores)[k] == OrEmpty(RankedEntries(labels, scores)[k].name)
  {
  }

  /** Nothing left out of the top five outranks anything kept: every pair that
      was dropped comes after every pair that was kept. */
  lemma {:induction false} KeptEntriesOutrankDropped(labels: seq<Option<string>>, scores: seq<real>, i: nat)
    requires i < Min(|labels|, |scores|)
    requires forall k :: 0 <= k < |RankedEntries(labels, scores)| ==> RankedEntries(labels, scores)[k].index != i
    ensures forall k :: 0 <= k < |RankedEntries(labels, scores)| ==>
      Before(RankedEntries(labels, scores)[k], Entry(i, labels[i], scores[i]))
  {
    var z := Zip(labels, scores);
    var sorted := Sort(z);
    var r := RankedEntries(labels, scores);
    assert r == sorted[..|r|];
    assert z[i] in sorted;
    var p :| 0 <= p < |sorted| && sorted[p] == z[i];
    forall q | 0 <= q < |r|
      ensures sorted[q] != z[i]
    {
      assert sorted[q] == r[q];
    }
    forall k | 0 <= k < |r|
      ensures Before(r[k], Entry(i, labels[i], scores[i]))
    {
      assert k < p;
      assert Before(sorted[k], sorted[p]);
    }
  }

  /** `Before` never holds both ways. */
  lemma BeforeAsymmetric(a: Entry, b: Entry)
    ensures !(Before(a, b) && Before(b, a))
  {
  }

  /** There is only one ranked ordering of a collection of pairs: the stable
      descending sort is determined by its input. */
  lemma {:induction false} RankedPermutationUnique(a: seq<Entry>, b: seq<Entry>)
    requires Ranked(a) && Ranked(b)
    requires multiset(a) == multiset(b)
    ensures a == b
  {
    if |a| == 0 {
      assert |multiset(b)| == 0;
    } else {
      assert a[0] in multiset(b);
      assert |b| > 0;
      assert b[0] in multiset(a);
      var j :| 0 <= j < |b| && b[j] == a[0];
      var i :| 0 <= i < |a| && a[i] == b[0];
      if i != 0 && j != 0 {
        assert Before(b[0], b[j]);
        assert Before(a[0], a[i]);
        BeforeAsymmetric(a[0], b[0]);
      }
      assert a[0] == b[0];
      assert a == [a[0]] + a[1..];
      assert b == [b[0]] + b[1..];
      assert multiset(a) == multiset{a[0]} + multiset(a[1..]);
      assert multiset(b) == multiset{b[0]} + multiset(b[1..]);
      assert multiset(a[1..]) == multiset(a) - multiset{a[0]};
      assert multiset(b[1..]) == multiset(b) - multiset{b[0]};
      RankedPermutationUnique(a[1..], b[1..]);
    }
  }

  /** The kept pairs are the first five of the one ranked ordering of the
      zipped pairs: a stable sort by descending score. */
  lemma RankingIsStableSortPrefix(labels: seq<Option<string>>, scores: seq<real>, t: seq<Entry>)
    requires Ranked(t)
    requires multiset(t) == multiset(Zip(labels, scores))
    ensures RankedEntries(labels, scores) == t[..Min(TopK, |t|)]
  {
    var z := Zip(labels, scores);
    RankedPermutationUnique(Sort(z), t);
    assert |t| == |z| by {
      assert |multiset(t)| == |multiset(z)|;
    }
  }

  /** Labels `a`, `b`, `c` scored 0.1, 0.9, 0.5 come back as `b`, `c`, `a`. */
  lemma RankingExample()
    ensures TopLabels([Some("a"), Some("b"), Some("c")], [0.1, 0.9, 0.5]) == ["b", "c", "a"]
  {
    var labels := [Some("a"), Some("b"), Some("c")];
    var scores := [0.1, 0.9, 0.5];
    var t := ExampleOrder();
    ExampleZip();
    RankingIsStableSortPrefix(labels, scores, t);
    assert t[..Min(TopK, |t|)] == t;
    ExampleLabels(labels, scores, t);
  }

  function ExampleOrder(): seq<Entry>
  {
    [Entry(1, Some("b"), 0.9), Entry(2, Some("c"), 0.5), Entry(0, Some("a"), 0.1)]
  }

  lemma ExampleZip()
    ensures Ranked(ExampleOrder())
    ensures multiset(ExampleOrder()) == multiset(Zip([Some("a"), Some("b"), Some("c")], [0.1, 0.9, 0.5]))
  {
    var z := Zip([Some("a"), Some("b"), Some("c")], [0.1, 0.9, 0.5]);
    assert z == [Entry(0, Some("a"), 0.1), Entry(1, Some("b"), 0.9), Entry(2, Some("c"), 0.5)];
  }

  lemma ExampleLabels(labels: seq<Option<string>>, scores: seq<real>, t: seq<Entry>)
    requires t == ExampleOrder() && RankedEntries(labels, scores) == t
    ensures TopLabels(labels, scores) == ["b", "c", "a"]
  {
  }
}
