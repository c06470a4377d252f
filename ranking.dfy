/** Turning a score dictionary into a ranked list, as every recommender does
    at its end: `Object.keys(scores).map(Number).map(...)`, then
    `.sort((a, b) => b.score - a.score)`, and sometimes `.slice(0, topN)`.

    For an object whose keys are non-negative integers `Object.keys` lists
    them in ascending numeric order, and `Array.prototype.sort` is stable, so
    equal scores keep ascending id order. */
module Ranking {
  import opened Summation

  /** `scores[k] || 0`. */
  function Lookup(scores: map<int, real>, k: int): real
  {
    if k in scores then scores[k] else 0.0
  }

  /** `if (!scores[k]) scores[k] = 0; scores[k] += x;` (resetting a zero to
      zero changes nothing). */
  function Bump(scores: map<int, real>, k: int, x: real): map<int, real>
  {
    scores[k := Lookup(scores, k) + x]
  }

  /** An id with its score: `RecommendationResult` without its constant
      `reason` label, or `SimilarityResult`. */
  datatype Scored = Scored(id: int, score: real)

  predicate IsMin(m: int, s: set<int>)
  {
    m in s && forall k :: k in s ==> m <= k
  }

  /** The least element of a non-empty finite set of integers. */
  function Min(s: set<int>): (m: int)
    requires s != {}
    ensures IsMin(m, s)
  {
    MinExists(s);
    var m :| IsMin(m, s); m
  }

  lemma {:induction false} MinExists(s: set<int>)
    requires s != {}
    ensures exists m :: IsMin(m, s)
    decreases |s|
  {
    var x := Pick(s);
    var rest := s - {x};
    if rest == {} {
      forall k | k in s ensures x <= k {
        assert k !in rest;
      }
      assert IsMin(x, s);
    } else {
      MinExists(rest);
      var m :| IsMin(m, rest);
      if x < m {
        forall k | k in s ensures x <= k {
          if k != x { assert k in rest; }
        }
        assert IsMin(x, s);
      } else {
        forall k | k in s ensures m <= k {
          if k != x { assert k in rest; }
        }
        assert IsMin(m, s);
      }
    }
  }

  /** `Object.keys(o).map(Number)` for an object with integer keys: every key
      exactly once, in ascending order. */
  function SortedKeys(s: set<int>): (r: seq<int>)
    ensures |r| == |s|
    ensures forall k :: k in s <==> k in r
    ensures forall i, j :: 0 <= i < j < |r| ==> r[i] < r[j]
    decreases |s|
  {
    if s == {} then []
    else
      var m := Min(s);
      var rest := SortedKeys(s - {m});
      ConsIncreasing(m, rest);
      [m] + rest
  }

  /** Putting a key below every key of an increasing list in front keeps it increasing. */
  lemma ConsIncreasing(m: int, rest: seq<int>)
    requires forall k :: k in rest ==> m < k
    requires forall i, j :: 0 <= i < j < |rest| ==> rest[i] < rest[j]
    ensures forall i, j :: 0 <= i < j < |[m] + rest| ==> ([m] + rest)[i] < ([m] + rest)[j]
  {
    var r := [m] + rest;
    forall i, j | 0 <= i < j < |r| ensures r[i] < r[j] {
      assert r[j] == rest[j - 1];
      if i > 0 {
        assert r[i] == rest[i - 1];
      } else {
        assert rest[j - 1] in rest;
      }
    }
  }

  /** The entries of a score dictionary, in key order. */
  function Entries(m: map<int, real>): (r: seq<Scored>)
    ensures |r| == |m|
    ensures forall i :: 0 <= i < |r| ==> r[i].id in m && r[i].score == m[r[i].id]
    ensures IdsAscending(r)
  {
    var keys := SortedKeys(m.Keys);
    seq(|keys|, i requires 0 <= i < |keys| => Scored(keys[i], m[keys[i]]))
  }

  /** Every key of the dictionary has its entry. */
  lemma EntriesComplete(m: map<int, real>, k: int)
    requires k in m
    ensures exists i :: 0 <= i < |Entries(m)| && Entries(m)[i] == Scored(k, m[k])
  {
    var keys := SortedKeys(m.Keys);
    assert k in keys;
    var i :| 0 <= i < |keys| && keys[i] == k;
    assert Entries(m)[i] == Scored(k, m[k]);
  }

  predicate IdsAscending(s: seq<Scored>)
  {
    forall i, j :: 0 <= i < j < |s| ==> s[i].id < s[j].id
  }

  /** Non-increasing scores: what `sort((a, b) => b.score - a.score)` promises. */
  predicate SortedByScore(s: seq<Scored>)
  {
    forall i, j :: 0 <= i < j < |s| ==> s[i].score >= s[j].score
  }

  /** Scores non-increasing, and equal scores in ascending id order. */
  predicate Ranked(s: seq<Scored>)
  {
    forall i, j :: 0 <= i < j < |s| ==>
      s[i].score > s[j].score || (s[i].score == s[j].score && s[i].id < s[j].id)
  }

  /** Insert `x` into a list sorted by score, after every strictly better
      element and before the rest: the step of a stable descending sort. */
  function Insert(x: Scored, s: seq<Scored>): seq<Scored>
  {
    if s == [] || x.score >= s[0].score then [x] + s
    else [s[0]] + Insert(x, s[1..])
  }

  /** A stable sort by descending score: the result of
      `s.sort((a, b) => b.score - a.score)`. */
  function SortDesc(s: seq<Scored>): seq<Scored>
  {
    if s == [] then [] else Insert(s[0], SortDesc(s[1..]))
  }

  lemma {:induction false} InsertPermutes(x: Scored, s: seq<Scored>)
    ensures multiset(Insert(x, s)) == multiset(s) + multiset{x}
  {
    if s != [] && x.score < s[0].score {
      InsertPermutes(x, s[1..]);
      assert s == [s[0]] + s[1..];
    }
  }

  lemma {:induction false} InsertSorted(x: Scored, s: seq<Scored>)
    requires SortedByScore(s)
    ensures SortedByScore(Insert(x, s))
  {
    if s != [] && x.score < s[0].score {
      InsertSorted(x, s[1..]);
      InsertPermutes(x, s[1..]);
      var r := Insert(x, s[1..]);
      forall j | 0 <= j < |r| ensures s[0].score >= r[j].score {
        assert r[j] in multiset(r);
        assert r[j] == x || r[j] in multiset(s[1..]);
      }
    }
  }

  lemma {:induction false} InsertRanked(x: Scored, s: seq<Scored>)
    requires Ranked(s)
    requires forall k :: 0 <= k < |s| ==> x.id < s[k].id
    ensures Ranked(Insert(x, s))
  {
    if s != [] && x.score < s[0].score {
      InsertRanked(x, s[1..]);
      InsertPermutes(x, s[1..]);
      var r := Insert(x, s[1..]);
      forall j | 0 <= j < |r|
        ensures s[0].score > r[j].score || (s[0].score == r[j].score && s[0].id < r[j].id)
      {
        assert r[j] in multiset(r);
        assert r[j] == x || r[j] in multiset(s[1..]);
      }
    }
  }

  /** Sorting permutes its input. */
  lemma {:induction false} SortDescPermutes(s: seq<Scored>)
    ensures multiset(SortDesc(s)) == multiset(s)
  {
    if s != [] {
      SortDescPermutes(s[1..]);
      InsertPermutes(s[0], SortDesc(s[1..]));
      assert s == [s[0]] + s[1..];
    }
  }

  /** Sorting yields non-increasing scores. */
  lemma {:induction false} SortDescSorted(s: seq<Scored>)
    ensures SortedByScore(SortDesc(s))
  {
    if s != [] {
      SortDescSorted(s[1..]);
      InsertSorted(s[0], SortDesc(s[1..]));
    }
  }

  /** Stability: a list in ascending id order is sorted into score order with
      ties in ascending id order. */
  lemma {:induction false} SortDescRanked(s: seq<Scored>)
    requires IdsAscending(s)
    ensures Ranked(SortDesc(s))
  {
    if s != [] {
      SortDescRanked(s[1..]);
      SortDescPermutes(s[1..]);
      var t := SortDesc(s[1..]);
      forall k | 0 <= k < |t| ensures s[0].id < t[k].id {
        assert t[k] in multiset(t);
        var i :| 1 <= i < |s| && s[i] == t[k] by {
          assert t[k] in s[1..];
        }
      }
      InsertRanked(s[0], t);
    }
  }

  /** The ranked list of a score dictionary. */
  function Rank(m: map<int, real>): seq<Scored>
  {
    SortDesc(Entries(m))
  }

  /** A ranked dictionary lists every entry exactly once, each with its score,
      best first and equal scores by ascending id. */
  lemma RankSpec(m: map<int, real>)
    ensures Ranked(Rank(m))
    ensures |Rank(m)| == |m|
    ensures forall i :: 0 <= i < |Rank(m)| ==> Rank(m)[i].id in m && Rank(m)[i].score == m[Rank(m)[i].id]
    ensures forall k :: k in m ==> exists i :: 0 <= i < |Rank(m)| && Rank(m)[i] == Scored(k, m[k])
  {
    var e := Entries(m);
    var r := Rank(m);
    SortDescRanked(e);
    SortDescPermutes(e);
    assert |r| == |multiset(r)| == |multiset(e)| == |e|;
    forall i | 0 <= i < |r| ensures r[i].id in m && r[i].score == m[r[i].id] {
      assert r[i] in multiset(e);
      assert r[i] in e;
    }
    forall k | k in m ensures exists i :: 0 <= i < |r| && r[i] == Scored(k, m[k]) {
      EntriesComplete(m, k);
      var j :| 0 <= j < |e| && e[j] == Scored(k, m[k]);
      assert e[j] in multiset(r);
      var i :| 0 <= i < |r| && r[i] == e[j];
    }
  }

  /** The ids of a list. */
  function Ids(s: seq<Scored>): (r: seq<int>)
    ensures |r| == |s| && forall i :: 0 <= i < |s| ==> r[i] == s[i].id
  {
    seq(|s|, i requires 0 <= i < |s| => s[i].id)
  }

  /** `s.slice(0, n)`: a negative `n` counts from the end. */
  function SliceTo<T>(s: seq<T>, n: int): (r: seq<T>)
    ensures r <= s
    ensures n >= 0 ==> |r| == if n < |s| then n else |s|
    ensures n < 0 ==> |r| == if |s| + n > 0 then |s| + n else 0
  {
    if n < 0 then (if |s| + n > 0 then s[..|s| + n] else [])
    else if n < |s| then s[..n] else s
  }

  /** A prefix of a ranked list is ranked. */
  lemma RankedPrefix(s: seq<Scored>, t: seq<Scored>)
    requires Ranked(s) && t <= s
    ensures Ranked(t)
  {
    forall i, j | 0 <= i < j < |t|
      ensures t[i].score > t[j].score || (t[i].score == t[j].score && t[i].id < t[j].id)
    {
      assert t[i] == s[i] && t[j] == s[j];
    }
  }

  lemma RankedIsSorted(s: seq<Scored>)
    requires Ranked(s)
    ensures SortedByScore(s)
  {
  }

  /** The ids of a ranked dictionary are its keys. */
  lemma RankKeys(m: map<int, real>)
    ensures forall k :: k in Ids(Rank(m)) <==> k in m
  {
    RankSpec(m);
    var r := Rank(m);
    forall k ensures k in Ids(r) <==> k in m {
      if k in m {
        var i :| 0 <= i < |r| && r[i] == Scored(k, m[k]);
        assert Ids(r)[i] == k;
      }
      if k in Ids(r) {
        var i :| 0 <= i < |r| && Ids(r)[i] == k;
        assert r[i].id == k;
      }
    }
  }

  /** No id appears twice. */
  predicate DistinctIds(s: seq<Scored>)
  {
    forall i, j :: 0 <= i < j < |s| ==> s[i].id != s[j].id
  }

  /** The score listed for `k`, taking the last entry for it; 0 when `k` is not listed. */
  function ScoreIn(s: seq<Scored>, k: int): real
  {
    if s == [] then 0.0
    else if s[|s| - 1].id == k then s[|s| - 1].score
    else ScoreIn(s[..|s| - 1], k)
  }

  lemma {:induction false} ScoreInUnlisted(s: seq<Scored>, k: int)
    requires forall i :: 0 <= i < |s| ==> s[i].id != k
    ensures ScoreIn(s, k) == 0.0
  {
    if s != [] {
      ScoreInUnlisted(s[..|s| - 1], k);
    }
  }

  lemma {:induction false} ScoreInListed(s: seq<Scored>, i: int)
    requires DistinctIds(s) && 0 <= i < |s|
    ensures ScoreIn(s, s[i].id) == s[i].score
  {
    if i < |s| - 1 {
      ScoreInListed(s[..|s| - 1], i);
    }
  }

  /** A ranked dictionary lists each key once. */
  lemma RankDistinct(m: map<int, real>)
    ensures DistinctIds(Rank(m))
  {
    RankSpec(m);
  }

  /** Reading a key's score back from the ranked list gives its dictionary value, or 0 when absent. */
  lemma RankScoreIn(m: map<int, real>, k: int)
    ensures ScoreIn(Rank(m), k) == if k in m then m[k] else 0.0
  {
    RankSpec(m);
    var r := Rank(m);
    if k in m {
      var i :| 0 <= i < |r| && r[i] == Scored(k, m[k]);
      ScoreInListed(r, i);
    } else {
      ScoreInUnlisted(r, k);
    }
  }

  /** What `.slice(0, n)` cuts from a ranked dictionary scores no higher than anything it keeps. */
  lemma RankTopBest(m: map<int, real>, n: int, k: int)
    requires k in m && k !in Ids(SliceTo(Rank(m), n))
    ensures forall i :: 0 <= i < |SliceTo(Rank(m), n)| ==> SliceTo(Rank(m), n)[i].score >= m[k]
  {
    RankSpec(m);
    var r := Rank(m);
    var top := SliceTo(r, n);
    var j :| 0 <= j < |r| && r[j] == Scored(k, m[k]);
    forall t | 0 <= t < |top| ensures r[t].id != k {
      assert Ids(top)[t] == top[t].id == r[t].id;
    }
    assert |top| <= j;
    forall i | 0 <= i < |top| ensures top[i].score >= m[k] {
      assert top[i] == r[i] && i < j;
    }
  }

  /** A listed entry that the first `n` of the sorted list leave out scores
      no higher than any entry they keep. */
  lemma SortDescTopBest(s: seq<Scored>, n: int, x: Scored)
    requires x in s && x.id !in Ids(SliceTo(SortDesc(s), n))
    ensures forall i :: 0 <= i < |SliceTo(SortDesc(s), n)| ==> SliceTo(SortDesc(s), n)[i].score >= x.score
  {
    var sorted := SortDesc(s);
    var top := SliceTo(sorted, n);
    SortDescSorted(s);
    SortDescPermutes(s);
    assert x in multiset(sorted);
    var j :| 0 <= j < |sorted| && sorted[j] == x;
    forall t | 0 <= t < |top| ensures sorted[t].id != x.id {
      assert Ids(top)[t] == top[t].id == sorted[t].id;
    }
    assert |top| <= j;
    forall i | 0 <= i < |top| ensures top[i].score >= x.score {
      assert top[i] == sorted[i];
    }
  }
}
