/** The ranking half of `calculateRecommendations` (src/utils/recommendationEngine.ts:59):
    a stable sort of the scored catalog by descending score. `Array.prototype.sort` is stable
    since ECMAScript 2019; the model sorts by insertion, which is stable, and proves the
    result sorted, a permutation of its input, and tie-preserving. */
module Ranking {
  import opened Catalog

  datatype ScoredModule = ScoredModule(entry: Module, score: int)

  /** Where `x` goes when inserted into `s`: after the last element whose score is at
      least `x`'s, searching from the right as a shifting insertion sort does. */
  function InsertionPoint(s: seq<ScoredModule>, x: ScoredModule): (k: nat)
    ensures k <= |s|
    ensures forall i :: k <= i < |s| ==> s[i].score < x.score
    ensures k > 0 ==> s[k - 1].score >= x.score
  {
    if s == [] || s[|s| - 1].score >= x.score then |s|
    else InsertionPoint(s[..|s| - 1], x)
  }

  /** One step of the stable sort: `x` enters at its insertion point. */
  function Insert(s: seq<ScoredModule>, x: ScoredModule): seq<ScoredModule> {
    var k := InsertionPoint(s, x);
    s[..k] + [x] + s[k..]
  }

  /** Stable insertion sort by descending score, consuming the input from the left. */
  function SortDesc(s: seq<ScoredModule>): seq<ScoredModule> {
    if s == [] then [] else Insert(SortDesc(s[..|s| - 1]), s[|s| - 1])
  }

  ghost predicate Descending(s: seq<ScoredModule>) {
    forall i, j :: 0 <= i < j < |s| ==> s[i].score >= s[j].score
  }

  /** Elements with equal scores appear in increasing order of `key`. */
  ghost predicate TiesOrdered(s: seq<ScoredModule>, key: ScoredModule -> int) {
    forall i, j :: 0 <= i < j < |s| && s[i].score == s[j].score ==> key(s[i]) < key(s[j])
  }

  ghost predicate StrictlyIncreasing(s: seq<ScoredModule>, key: ScoredModule -> int) {
    forall i, j :: 0 <= i < j < |s| ==> key(s[i]) < key(s[j])
  }

  lemma InsertPermutation(s: seq<ScoredModule>, x: ScoredModule)
    ensures |Insert(s, x)| == |s| + 1
    ensures multiset(Insert(s, x)) == multiset(s) + multiset{x}
  {
    var k := InsertionPoint(s, x);
    assert s == s[..k] + s[k..];
  }

  lemma InsertDescending(s: seq<ScoredModule>, x: ScoredModule)
    requires Descending(s)
    ensures Descending(Insert(s, x))
  {
    var k := InsertionPoint(s, x);
    var r := Insert(s, x);
    forall i, j | 0 <= i < j < |r| ensures r[i].score >= r[j].score {
      if j < k {
        assert r[i] == s[i] && r[j] == s[j];
      } else if j == k {
        assert r[i] == s[i] && s[i].score >= s[k - 1].score;
      } else if i < k {
        assert r[i] == s[i] && r[j] == s[j - 1];
      } else if i == k {
        assert r[j] == s[j - 1];
      } else {
        assert r[i] == s[i - 1] && r[j] == s[j - 1];
      }
    }
  }

  lemma InsertTiesOrdered(s: seq<ScoredModule>, x: ScoredModule, key: ScoredModule -> int)
    requires TiesOrdered(s, key)
    requires forall y :: y in s ==> key(y) < key(x)
    ensures TiesOrdered(Insert(s, x), key)
  {
    var k := InsertionPoint(s, x);
    var r := Insert(s, x);
    InsertLayout(s, x);
    forall i, j | 0 <= i < j < |r| && r[i].score == r[j].score ensures key(r[i]) < key(r[j]) {
      if j < k {
        assert r[i] == s[i] && r[j] == s[j];
      } else if j == k {
        assert r[i] == s[i] && s[i] in s;
      } else if i < k {
        assert r[i] == s[i] && r[j] == s[j - 1];
      } else if i == k {
        assert false;
      } else {
        assert r[i] == s[i - 1] && r[j] == s[j - 1];
      }
    }
  }

  /** Where each element of `Insert(s, x)` comes from. */
  lemma InsertLayout(s: seq<ScoredModule>, x: ScoredModule)
    ensures |Insert(s, x)| == |s| + 1
    ensures forall t :: 0 <= t < InsertionPoint(s, x) ==> Insert(s, x)[t] == s[t]
    ensures Insert(s, x)[InsertionPoint(s, x)] == x
    ensures forall t :: InsertionPoint(s, x) < t <= |s| ==> Insert(s, x)[t] == s[t - 1]
  {
  }

  /** The sort rearranges its input: same elements, same multiplicities. */
  lemma {:induction false} SortDescPermutation(s: seq<ScoredModule>)
    ensures |SortDesc(s)| == |s|
    ensures multiset(SortDesc(s)) == multiset(s)
  {
    if s != [] {
      var init := s[..|s| - 1];
      SortDescPermutation(init);
      InsertPermutation(SortDesc(init), s[|s| - 1]);
      assert s == init + [s[|s| - 1]];
    }
  }

  /** The sort's output is non-increasing in score. */
  lemma {:induction false} SortDescDescending(s: seq<ScoredModule>)
    ensures Descending(SortDesc(s))
  {
    if s != [] {
      SortDescDescending(s[..|s| - 1]);
      InsertDescending(SortDesc(s[..|s| - 1]), s[|s| - 1]);
    }
  }

  /** Stability: when the input is ordered by `key`, equal scores leave the sort in `key`
      order, i.e. in input order. */
  lemma {:induction false} SortDescStable(s: seq<ScoredModule>, key: ScoredModule -> int)
    requires StrictlyIncreasing(s, key)
    ensures TiesOrdered(SortDesc(s), key)
  {
    if s != [] {
      var init := s[..|s| - 1];
      var x := s[|s| - 1];
      SortDescStable(init, key);
      SortDescPermutation(init);
      forall y | y in SortDesc(init) ensures key(y) < key(x) {
        assert y in multiset(init);
        var i :| 0 <= i < |init| && init[i] == y;
      }
      InsertTiesOrdered(SortDesc(init), x, key);
    }
  }

  /** A list already in descending order comes out of the sort unchanged; in particular a list
      whose scores are all equal keeps its order. */
  lemma {:induction false} SortDescOfDescending(s: seq<ScoredModule>)
    requires Descending(s)
    ensures SortDesc(s) == s
  {
    if s != [] {
      var init := s[..|s| - 1];
      SortDescOfDescending(init);
      assert InsertionPoint(init, s[|s| - 1]) == |init|;
      assert s == init + [s[|s| - 1]];
    }
  }

  /** Shifts `a[i]` left past the lower-scored elements at the end of the sorted prefix
      `a[..i]` and drops it into place. */
  method InsertInPlace(a: array<ScoredModule>, i: nat)
    requires i < a.Length
    modifies a
    ensures a[..i + 1] == Insert(old(a[..i]), old(a[i]))
    ensures a[i + 1..] == old(a[i + 1..])
  {
    ghost var sorted := a[..i];
    var x := a[i];
    var j := i;
    while j > 0 && a[j - 1].score < x.score
      invariant 0 <= j <= i
      invariant forall t :: 0 <= t < j ==> a[t] == sorted[t]
      invariant forall t :: j < t <= i ==> a[t] == sorted[t - 1]
      invariant forall t :: i < t < a.Length ==> a[t] == old(a[t])
      invariant forall t :: j <= t < i ==> sorted[t].score < x.score
    {
      a[j] := a[j - 1];
      j := j - 1;
    }
    a[j] := x;
    InsertedAt(a[..i + 1], sorted, x, j);
  }

  lemma InsertedAt(r: seq<ScoredModule>, s: seq<ScoredModule>, x: ScoredModule, j: nat)
    requires j <= |s| && |r| == |s| + 1
    requires forall t :: j <= t < |s| ==> s[t].score < x.score
    requires j == 0 || s[j - 1].score >= x.score
    requires forall t :: 0 <= t < j ==> r[t] == s[t]
    requires r[j] == x
    requires forall t :: j < t < |r| ==> r[t] == s[t - 1]
    ensures r == Insert(s, x)
  {
    InsertionPointIs(s, x, j);
  }

  lemma {:induction false} InsertionPointIs(s: seq<ScoredModule>, x: ScoredModule, j: nat)
    requires j <= |s|
    requires forall t :: j <= t < |s| ==> s[t].score < x.score
    requires j == 0 || s[j - 1].score >= x.score
    ensures InsertionPoint(s, x) == j
  {
    if j < |s| {
      InsertionPointIs(s[..|s| - 1], x, j);
    }
  }

  /** The in-place sort of the scored array: afterwards the array holds SortDesc of what it
      held before. */
  method SortInPlace(a: array<ScoredModule>)
    modifies a
    ensures a[..] == SortDesc(old(a[..]))
  {
    ghost var original := a[..];
    var i := 0;
    while i < a.Length
      invariant 0 <= i <= a.Length
      invariant a[..i] == SortDesc(original[..i])
      invariant a[i..] == original[i..]
    {
      ghost var before := a[..];
      assert before[i] == original[i] by {
        assert before[i..][0] == original[i..][0];
      }
      assert before[..i] == a[..i];
      InsertInPlace(a, i);
      SortDescStep(original, i);
      assert a[i + 1..] == original[i + 1..] by {
        assert before[i + 1..] == before[i..][1..];
        assert original[i + 1..] == original[i..][1..];
      }
      i := i + 1;
    }
    assert a[..] == a[..a.Length];
    assert original[..a.Length] == original;
  }

  /** SortDesc of a longer prefix inserts the next element into SortDesc of the shorter one. */
  lemma SortDescStep(s: seq<ScoredModule>, i: nat)
    requires i < |s|
    ensures SortDesc(s[..i + 1]) == Insert(SortDesc(s[..i]), s[i])
  {
    assert s[..i + 1][..i] == s[..i];
  }
}
