/** `CollaborativeFilteringService`: the user×product weight matrix,
    user-based and item-based collaborative filtering, and their hybrid.

    The behaviour table is passed in as the sequence of its rows (the order
    `find()` returns them in); `Math.sqrt` is the parameter `sqrt`. */
module CollaborativeFiltering {
  import opened Summation
  import opened Similarity
  import opened Ranking
  import opened Behavior

  /** A sparse vector: productId (or userId) -> weight. */
  type Vector = map<int, real>

  /** `UserItemMatrix`: userId -> productId -> accumulated weight. */
  type Matrix = map<int, Vector>

  /** `matrix[u]`, or the empty vector for a missing key. */
  function Row(matrix: Matrix, u: int): Vector
  {
    if u in matrix then matrix[u] else map[]
  }

  // ---------------------------------------------------------------------
  // buildUserItemMatrix

  /** One iteration of the loop of `buildUserItemMatrix`. */
  function AddEvent(matrix: Matrix, e: BehaviorEvent): Matrix
  {
    var row := Row(matrix, e.userId);
    var current := if e.productId in row then row[e.productId] else 0.0;
    matrix[e.userId := row[e.productId := current + CfWeight(e.behaviorType)]]
  }

  /** The matrix after the loop has visited every event of `es`, in order. */
  function Accumulate(es: seq<BehaviorEvent>): Matrix
  {
    if es == [] then map[] else AddEvent(Accumulate(es[..|es| - 1]), es[|es| - 1])
  }

  /** `buildUserItemMatrix()` over the rows of the behaviour table. */
  method BuildUserItemMatrix(behaviors: seq<BehaviorEvent>) returns (matrix: Matrix)
    ensures matrix == Accumulate(behaviors)
  {
    matrix := map[];
    for i := 0 to |behaviors|
      invariant matrix == Accumulate(behaviors[..i])
    {
      var behavior := behaviors[i];
      if behavior.userId !in matrix {
        matrix := matrix[behavior.userId := map[]];
      }
      var weight := CfWeight(behavior.behaviorType);
      var row := matrix[behavior.userId];
      var currentValue := if behavior.productId in row then row[behavior.productId] else 0.0;
      matrix := matrix[behavior.userId := row[behavior.productId := currentValue + weight]];
      assert behaviors[..i + 1][..i] == behaviors[..i];
    }
    assert behaviors[..|behaviors|] == behaviors;
  }

  /** Some event of `es` is about user `u` and product `p`. */
  predicate HasPair(es: seq<BehaviorEvent>, u: int, p: int)
  {
    exists i :: 0 <= i < |es| && es[i].userId == u && es[i].productId == p
  }

  /** The total weight of the events of `es` about user `u` and product `p`. */
  function PairWeight(es: seq<BehaviorEvent>, u: int, p: int): real
  {
    if es == [] then 0.0
    else
      var e := es[|es| - 1];
      PairWeight(es[..|es| - 1], u, p) + (if e.userId == u && e.productId == p then CfWeight(e.behaviorType) else 0.0)
  }

  /** The number of events of `es` about user `u` and product `p`. */
  function PairCount(es: seq<BehaviorEvent>, u: int, p: int): nat
  {
    if es == [] then 0
    else
      var e := es[|es| - 1];
      PairCount(es[..|es| - 1], u, p) + (if e.userId == u && e.productId == p then 1 else 0)
  }

  /** The matrix has an entry for (u, p) exactly when some event is about that
      pair, and the entry is the sum of the weights of those events, so at
      least their number. The stored `behaviorValue` plays no part. */
  lemma {:induction false} MatrixEntry(es: seq<BehaviorEvent>, u: int, p: int)
    ensures (u in Accumulate(es) && p in Accumulate(es)[u]) <==> HasPair(es, u, p)
    ensures HasPair(es, u, p) ==> Accumulate(es)[u][p] == PairWeight(es, u, p)
    ensures PairWeight(es, u, p) >= PairCount(es, u, p) as real
    ensures HasPair(es, u, p) <==> PairCount(es, u, p) >= 1
    ensures !HasPair(es, u, p) ==> PairWeight(es, u, p) == 0.0
  {
    if es != [] {
      var init, e := es[..|es| - 1], es[|es| - 1];
      MatrixEntry(init, u, p);
      if HasPair(init, u, p) {
        var i :| 0 <= i < |init| && init[i].userId == u && init[i].productId == p;
        assert es[i] == init[i];
      }
      if HasPair(es, u, p) && !(e.userId == u && e.productId == p) {
        var i :| 0 <= i < |es| && es[i].userId == u && es[i].productId == p;
        assert i < |init| && init[i] == es[i];
      }
      if e.userId == u && e.productId == p {
        assert es[|es| - 1].userId == u && es[|es| - 1].productId == p;
      }
    }
  }

  /** Every user of the matrix has a non-empty row, and the users are exactly
      those with some event. */
  lemma {:induction false} MatrixRows(es: seq<BehaviorEvent>, u: int)
    ensures u in Accumulate(es) <==> exists i :: 0 <= i < |es| && es[i].userId == u
    ensures u in Accumulate(es) ==> Accumulate(es)[u] != map[]
  {
    if es != [] {
      var init, e := es[..|es| - 1], es[|es| - 1];
      MatrixRows(init, u);
      if exists i :: 0 <= i < |init| && init[i].userId == u {
        var i :| 0 <= i < |init| && init[i].userId == u;
        assert es[i] == init[i];
      }
      if e.userId != u && exists i :: 0 <= i < |es| && es[i].userId == u {
        var i :| 0 <= i < |es| && es[i].userId == u;
        assert i < |init| && init[i] == es[i];
      }
      if e.userId == u {
        assert e.productId in Accumulate(es)[u];
        assert es[|es| - 1].userId == u;
      }
    }
  }

  /** Every entry of the matrix is at least 1. */
  lemma MatrixEntriesAtLeastOne(es: seq<BehaviorEvent>, u: int, p: int)
    requires u in Accumulate(es) && p in Accumulate(es)[u]
    ensures Accumulate(es)[u][p] >= 1.0
  {
    MatrixEntry(es, u, p);
  }

  /** Two views and a purchase of the same product weigh 1 + 1 + 10 = 12. */
  lemma ViewViewPurchase(u: int, p: int, t0: int, t1: int, t2: int, value: real)
    ensures Accumulate([
      BehaviorEvent(u, p, "view", value, t0),
      BehaviorEvent(u, p, "view", value, t1),
      BehaviorEvent(u, p, "purchase", value, t2)]) == map[u := map[p := 12.0]]
  {
    var e0 := BehaviorEvent(u, p, "view", value, t0);
    var e1 := BehaviorEvent(u, p, "view", value, t1);
    var e2 := BehaviorEvent(u, p, "purchase", value, t2);
    assert [e0][..0] == [];
    assert Accumulate([e0]) == map[u := map[p := 1.0]];
    assert [e0, e1][..1] == [e0];
    assert map[p := 1.0][p := 2.0] == map[p := 2.0];
    assert Accumulate([e0, e1]) == map[u := map[p := 2.0]];
    assert [e0, e1, e2][..2] == [e0, e1];
    assert map[p := 2.0][p := 12.0] == map[p := 12.0];
  }

  /** The `behaviorValue` that `recordBehavior` stores is exactly what the new
      event adds to the matrix entry of its (user, product) pair. */
  lemma RecordedValueIsMatrixWeight(es: seq<BehaviorEvent>, u: int, p: int, t: string, now: int)
    ensures var m, e := Accumulate(es), RecordedEvent(u, p, t, now);
      Accumulate(es + [e])[u][p] == (if u in m && p in m[u] then m[u][p] else 0.0) + e.behaviorValue
  {
    var e := RecordedEvent(u, p, t, now);
    assert (es + [e])[..|es|] == es;
  }

  // ---------------------------------------------------------------------
  // Score dictionaries

  /** The accumulation loop every recommender runs:
      `for (const p of ps) { if (skip(p)) continue; scores[p] = (scores[p] || 0) + credit(p); }` */
  function Accrue(scores: map<int, real>, skip: int -> bool, credit: int -> real, ps: seq<int>): map<int, real>
  {
    if ps == [] then scores
    else
      var rest := Accrue(scores, skip, credit, ps[..|ps| - 1]);
      var p := ps[|ps| - 1];
      if skip(p) then rest else Bump(rest, p, credit(p))
  }

  /** Over distinct keys, the loop gives each key it does not skip one
      `credit` and touches nothing else. */
  lemma {:induction false} AccrueSpec(scores: map<int, real>, skip: int -> bool, credit: int -> real, ps: seq<int>, p: int)
    requires forall i, j :: 0 <= i < j < |ps| ==> ps[i] < ps[j]
    ensures p in Accrue(scores, skip, credit, ps) <==> p in scores || (!skip(p) && p in ps)
    ensures Lookup(Accrue(scores, skip, credit, ps), p)
      == Lookup(scores, p) + (if !skip(p) && p in ps then credit(p) else 0.0)
  {
    if ps != [] {
      var init, last := ps[..|ps| - 1], ps[|ps| - 1];
      forall i, j | 0 <= i < j < |init| ensures init[i] < init[j] {
        assert init[i] == ps[i] && init[j] == ps[j];
      }
      AccrueSpec(scores, skip, credit, init, p);
      var rest := Accrue(scores, skip, credit, init);
      assert Accrue(scores, skip, credit, ps) == if skip(last) then rest else Bump(rest, last, credit(last));
      assert ps == init + [last];
      if p == last {
        forall i | 0 <= i < |init| ensures init[i] != p {
          assert init[i] == ps[i];
        }
        assert p !in init;
      } else {
        assert p in ps <==> p in init;
      }
    }
  }

  /** One more iteration of the accumulation loop. */
  lemma AccrueStep(scores: map<int, real>, skip: int -> bool, credit: int -> real, ps: seq<int>, j: int)
    requires 0 <= j < |ps|
    ensures Accrue(scores, skip, credit, ps[..j + 1])
      == var rest := Accrue(scores, skip, credit, ps[..j]);
         if skip(ps[j]) then rest else Bump(rest, ps[j], credit(ps[j]))
  {
    assert ps[..j + 1][..j] == ps[..j];
  }

  // ---------------------------------------------------------------------
  // userBasedCF

  /** The cosine similarity of each user's row to the row of `userId`. */
  ghost function UserSimilarity(matrix: Matrix, userId: int, sqrt: real -> real): int -> real
  {
    other => Cosine(Row(matrix, userId), Row(matrix, other), sqrt)
  }

  /** The user loop of `userBasedCF` over `ids`, in order: it skips the target
      user and users with an empty row, and keeps the others whose
      `similarity` to the target reaches `minSimilarity`. */
  function Neighbours(matrix: Matrix, userId: int, ids: seq<int>, minSimilarity: real, similarity: int -> real): seq<Scored>
  {
    if ids == [] then []
    else
      var rest := Neighbours(matrix, userId, ids[..|ids| - 1], minSimilarity, similarity);
      var other := ids[|ids| - 1];
      if other == userId || Row(matrix, other) == map[] then rest
      else
        if similarity(other) >= minSimilarity then rest + [Scored(other, similarity(other))] else rest
  }

  /** A user of `ids` qualifies as a neighbour of `userId`. */
  predicate Qualifies(matrix: Matrix, userId: int, other: int, minSimilarity: real, similarity: int -> real)
  {
    other != userId && Row(matrix, other) != map[]
    && similarity(other) >= minSimilarity
  }

  /** Every neighbour is a qualifying user of `ids`, scored by its similarity. */
  lemma {:induction false} NeighboursSound(matrix: Matrix, userId: int, ids: seq<int>, minSimilarity: real, similarity: int -> real)
    ensures forall i :: 0 <= i < |Neighbours(matrix, userId, ids, minSimilarity, similarity)| ==>
      var n := Neighbours(matrix, userId, ids, minSimilarity, similarity)[i];
      n.id in ids && Qualifies(matrix, userId, n.id, minSimilarity, similarity) && n.score == similarity(n.id)
  {
    if ids != [] {
      var init := ids[..|ids| - 1];
      NeighboursSound(matrix, userId, init, minSimilarity, similarity);
      var rest := Neighbours(matrix, userId, init, minSimilarity, similarity);
      forall i | 0 <= i < |rest| ensures rest[i].id in ids {
        var j :| 0 <= j < |init| && init[j] == rest[i].id;
        assert ids[j] == init[j];
      }
    }
  }

  /** Every qualifying user of `ids` is a neighbour. */
  lemma {:induction false} NeighboursComplete(matrix: Matrix, userId: int, ids: seq<int>, minSimilarity: real, similarity: int -> real, other: int)
    requires other in ids && Qualifies(matrix, userId, other, minSimilarity, similarity)
    ensures other in Ids(Neighbours(matrix, userId, ids, minSimilarity, similarity))
  {
    var init := ids[..|ids| - 1];
    var rest := Neighbours(matrix, userId, init, minSimilarity, similarity);
    if other in init {
      NeighboursComplete(matrix, userId, init, minSimilarity, similarity, other);
      var i :| 0 <= i < |rest| && rest[i].id == other;
      assert Neighbours(matrix, userId, ids, minSimilarity, similarity)[i] == rest[i];
    } else {
      assert other == ids[|ids| - 1];
      assert Neighbours(matrix, userId, ids, minSimilarity, similarity)[|rest|].id == other;
    }
  }

  /** Neighbours keep the order of `ids`: ascending when `ids` is. */
  lemma {:induction false} NeighboursAscending(matrix: Matrix, userId: int, ids: seq<int>, minSimilarity: real, similarity: int -> real)
    requires forall i, j :: 0 <= i < j < |ids| ==> ids[i] < ids[j]
    ensures IdsAscending(Neighbours(matrix, userId, ids, minSimilarity, similarity))
  {
    if ids != [] {
      var init := ids[..|ids| - 1];
      NeighboursAscending(matrix, userId, init, minSimilarity, similarity);
      NeighboursSound(matrix, userId, init, minSimilarity, similarity);
      var rest := Neighbours(matrix, userId, init, minSimilarity, similarity);
      forall i | 0 <= i < |rest| ensures rest[i].id < ids[|ids| - 1] {
        var j :| 0 <= j < |init| && init[j] == rest[i].id;
        assert ids[j] == init[j];
      }
    }
  }

  /** `userSimilarities` sorted by descending similarity, then `slice(0, topN)`. */
  function TopNeighbours(matrix: Matrix, userId: int, topN: int, minSimilarity: real, similarity: int -> real): seq<Scored>
  {
    SliceTo(SortDesc(Neighbours(matrix, userId, SortedKeys(matrix.Keys), minSimilarity, similarity)), topN)
  }

  /** The chosen neighbours are qualifying users of the matrix, scored by
      their similarity, best first, and at most `topN` of them. */
  lemma TopNeighboursSound(matrix: Matrix, userId: int, topN: int, minSimilarity: real, similarity: int -> real)
    ensures topN >= 0 ==> |TopNeighbours(matrix, userId, topN, minSimilarity, similarity)| <= topN
    ensures Ranked(TopNeighbours(matrix, userId, topN, minSimilarity, similarity))
    ensures forall i :: 0 <= i < |TopNeighbours(matrix, userId, topN, minSimilarity, similarity)| ==>
      var n := TopNeighbours(matrix, userId, topN, minSimilarity, similarity)[i];
      n.id in matrix && Qualifies(matrix, userId, n.id, minSimilarity, similarity) && n.score == similarity(n.id)
  {
    var ids := SortedKeys(matrix.Keys);
    var all := Neighbours(matrix, userId, ids, minSimilarity, similarity);
    var sorted := SortDesc(all);
    var top := SliceTo(sorted, topN);
    NeighboursSound(matrix, userId, ids, minSimilarity, similarity);
    NeighboursAscending(matrix, userId, ids, minSimilarity, similarity);
    SortDescRanked(all);
    SortDescPermutes(all);
    RankedPrefix(sorted, top);
    forall i | 0 <= i < |top|
      ensures top[i].id in matrix && Qualifies(matrix, userId, top[i].id, minSimilarity, similarity)
      ensures top[i].score == similarity(top[i].id)
    {
      assert top[i] == sorted[i];
      assert sorted[i] in multiset(all);
      assert sorted[i] in all;
    }
  }

  /** No qualifying user left out is more similar than any chosen neighbour. */
  lemma TopNeighboursBest(matrix: Matrix, userId: int, topN: int, minSimilarity: real, similarity: int -> real, other: int)
    requires other in matrix && Qualifies(matrix, userId, other, minSimilarity, similarity)
    requires other !in Ids(TopNeighbours(matrix, userId, topN, minSimilarity, similarity))
    ensures forall i :: 0 <= i < |TopNeighbours(matrix, userId, topN, minSimilarity, similarity)| ==>
      TopNeighbours(matrix, userId, topN, minSimilarity, similarity)[i].score >= similarity(other)
  {
    var ids := SortedKeys(matrix.Keys);
    var all := Neighbours(matrix, userId, ids, minSimilarity, similarity);
    NeighboursSound(matrix, userId, ids, minSimilarity, similarity);
    NeighboursComplete(matrix, userId, ids, minSimilarity, similarity, other);
    var j :| 0 <= j < |all| && all[j].id == other;
    SortDescTopBest(all, topN, all[j]);
  }

  /** The products the target user already has are skipped. */
  function Excluded(seen: set<int>): int -> bool
  {
    p => p in seen
  }

  /** `similarity × row[p]`: what one neighbour adds to product `p`. */
  function CreditTerm(row: Vector, similarity: real): int -> real
  {
    p => if p in row then similarity * row[p] else 0.0
  }

  /** The outer scoring loop of `userBasedCF` over the chosen neighbours. */
  function Credit(matrix: Matrix, seen: set<int>, top: seq<Scored>): map<int, real>
  {
    if top == [] then map[]
    else
      var n := top[|top| - 1];
      var row := Row(matrix, n.id);
      Accrue(Credit(matrix, seen, top[..|top| - 1]), Excluded(seen), CreditTerm(row, n.score), SortedKeys(row.Keys))
  }

  /** Σ similarity × weight over the neighbours whose row has product `p`. */
  function UserScore(matrix: Matrix, top: seq<Scored>, p: int): real
  {
    if top == [] then 0.0
    else
      var n := top[|top| - 1];
      var row := Row(matrix, n.id);
      UserScore(matrix, top[..|top| - 1], p) + CreditTerm(row, n.score)(p)
  }

  /** Some neighbour of `top` has product `p` in its row. */
  predicate SomeNeighbourHas(matrix: Matrix, top: seq<Scored>, p: int)
  {
    exists j :: 0 <= j < |top| && p in Row(matrix, top[j].id)
  }

  /** The user-based score dictionary in closed form: a product is scored
      exactly when the target user does not have it and some chosen neighbour
      does, and its score is Σ similarity × weight over those neighbours. */
  lemma {:induction false} CreditSpec(matrix: Matrix, seen: set<int>, top: seq<Scored>, p: int)
    ensures p in Credit(matrix, seen, top) <==> p !in seen && SomeNeighbourHas(matrix, top, p)
    ensures p !in seen ==> Lookup(Credit(matrix, seen, top), p) == UserScore(matrix, top, p)
  {
    if top != [] {
      var init, n := top[..|top| - 1], top[|top| - 1];
      var row := Row(matrix, n.id);
      var keys := SortedKeys(row.Keys);
      CreditSpec(matrix, seen, init, p);
      AccrueSpec(Credit(matrix, seen, init), Excluded(seen), CreditTerm(row, n.score), keys, p);
      SomeNeighbourHasLast(matrix, top, p);
      assert p in keys <==> p in row;
    }
  }

  lemma SomeNeighbourHasLast(matrix: Matrix, top: seq<Scored>, p: int)
    requires top != []
    ensures SomeNeighbourHas(matrix, top, p)
      <==> SomeNeighbourHas(matrix, top[..|top| - 1], p) || p in Row(matrix, top[|top| - 1].id)
  {
    var init := top[..|top| - 1];
    if SomeNeighbourHas(matrix, init, p) {
      var j :| 0 <= j < |init| && p in Row(matrix, init[j].id);
      assert top[j] == init[j];
    }
    if SomeNeighbourHas(matrix, top, p) && p !in Row(matrix, top[|top| - 1].id) {
      var j :| 0 <= j < |top| && p in Row(matrix, top[j].id);
      assert init[j] == top[j];
    }
  }

  /** The neighbours `userBasedCF` scores with: the `topN` most similar
      qualifying users by cosine similarity. */
  ghost function UserTop(matrix: Matrix, userId: int, topN: int, minSimilarity: real, sqrt: real -> real): seq<Scored>
  {
    TopNeighbours(matrix, userId, topN, minSimilarity, UserSimilarity(matrix, userId, sqrt))
  }

  /** `userBasedCF(userId, topN, minSimilarity)` as a function of the matrix. */
  ghost function UserCF(matrix: Matrix, userId: int, topN: int, minSimilarity: real, sqrt: real -> real): seq<Scored>
  {
    var target := Row(matrix, userId);
    if target == map[] then []
    else Rank(Credit(matrix, target.Keys, UserTop(matrix, userId, topN, minSimilarity, sqrt)))
  }

  /** `userBasedCF` returns nothing for a user without behaviour; otherwise it
      ranks exactly the products the user does not have and some chosen
      neighbour has, each scored Σ similarity × weight over those neighbours. */
  lemma UserCFSpec(matrix: Matrix, userId: int, topN: int, minSimilarity: real, sqrt: real -> real)
    ensures Row(matrix, userId) == map[] ==> UserCF(matrix, userId, topN, minSimilarity, sqrt) == []
    ensures Ranked(UserCF(matrix, userId, topN, minSimilarity, sqrt))
    ensures forall p :: p in Ids(UserCF(matrix, userId, topN, minSimilarity, sqrt)) <==>
      Row(matrix, userId) != map[] && p !in Row(matrix, userId)
      && SomeNeighbourHas(matrix, UserTop(matrix, userId, topN, minSimilarity, sqrt), p)
    ensures forall i :: 0 <= i < |UserCF(matrix, userId, topN, minSimilarity, sqrt)| ==>
      var r := UserCF(matrix, userId, topN, minSimilarity, sqrt)[i];
      r.score == UserScore(matrix, UserTop(matrix, userId, topN, minSimilarity, sqrt), r.id)
  {
    var target := Row(matrix, userId);
    if target != map[] {
      var top := UserTop(matrix, userId, topN, minSimilarity, sqrt);
      var scores := Credit(matrix, target.Keys, top);
      RankSpec(scores);
      RankKeys(scores);
      forall p ensures p in scores <==> p !in target && SomeNeighbourHas(matrix, top, p)
        ensures p in scores ==> scores[p] == UserScore(matrix, top, p)
      {
        CreditSpec(matrix, target.Keys, top, p);
      }
    }
  }

  lemma NeighboursStep(matrix: Matrix, userId: int, ids: seq<int>, i: int, minSimilarity: real, similarity: int -> real)
    requires 0 <= i < |ids|
    ensures Neighbours(matrix, userId, ids[..i + 1], minSimilarity, similarity)
      == var rest := Neighbours(matrix, userId, ids[..i], minSimilarity, similarity);
         if ids[i] == userId || Row(matrix, ids[i]) == map[] || !(similarity(ids[i]) >= minSimilarity) then rest
         else rest + [Scored(ids[i], similarity(ids[i]))]
  {
    assert ids[..i + 1][..i] == ids[..i];
  }

  /** The user loop of `userBasedCF`. */
  method SimilarUsers(matrix: Matrix, userId: int, minSimilarity: real, sqrt: real -> real)
    returns (userSimilarities: seq<Scored>)
    ensures userSimilarities
      == Neighbours(matrix, userId, SortedKeys(matrix.Keys), minSimilarity, UserSimilarity(matrix, userId, sqrt))
  {
    var targetUserVector := Row(matrix, userId);
    var allUserIds := SortedKeys(matrix.Keys);
    userSimilarities := [];
    for i := 0 to |allUserIds|
      invariant userSimilarities
        == Neighbours(matrix, userId, allUserIds[..i], minSimilarity, UserSimilarity(matrix, userId, sqrt))
    {
      var otherUserId := allUserIds[i];
      NeighboursStep(matrix, userId, allUserIds, i, minSimilarity, UserSimilarity(matrix, userId, sqrt));
      if otherUserId == userId {
        continue;
      }
      var otherUserVector := Row(matrix, otherUserId);
      if otherUserVector == map[] {
        continue;
      }
      var similarity := CosineSimilarity(targetUserVector, otherUserVector, sqrt);
      assert similarity == UserSimilarity(matrix, userId, sqrt)(otherUserId);
      if similarity >= minSimilarity {
        userSimilarities := userSimilarities + [Scored(otherUserId, similarity)];
      }
    }
    assert allUserIds[..|allUserIds|] == allUserIds;
  }

  /** The inner scoring loop of `userBasedCF`, over the products of one
      neighbour's row. */
  method ContributeRow(scores: map<int, real>, seen: set<int>, similarUserVector: Vector, similarity: real, productIds: seq<int>)
    returns (recommendationScores: map<int, real>)
    requires forall i :: 0 <= i < |productIds| ==> productIds[i] in similarUserVector
    ensures recommendationScores
      == Accrue(scores, Excluded(seen), CreditTerm(similarUserVector, similarity), productIds)
  {
    recommendationScores := scores;
    ghost var credit := CreditTerm(similarUserVector, similarity);
    for j := 0 to |productIds|
      invariant recommendationScores == Accrue(scores, Excluded(seen), credit, productIds[..j])
    {
      var productId := productIds[j];
      AccrueStep(scores, Excluded(seen), credit, productIds, j);
      if productId !in seen {
        assert credit(productId) == similarity * similarUserVector[productId];
        recommendationScores := Bump(recommendationScores, productId, similarity * similarUserVector[productId]);
      }
    }
    assert productIds[..|productIds|] == productIds;
  }

  /** The outer scoring loop of `userBasedCF`. */
  method ScoreNeighbours(matrix: Matrix, seen: set<int>, top: seq<Scored>) returns (recommendationScores: map<int, real>)
    ensures recommendationScores == Credit(matrix, seen, top)
  {
    recommendationScores := map[];
    for i := 0 to |top|
      invariant recommendationScores == Credit(matrix, seen, top[..i])
    {
      var similarUserVector := Row(matrix, top[i].id);
      var productIds := SortedKeys(similarUserVector.Keys);
      recommendationScores := ContributeRow(recommendationScores, seen, similarUserVector, top[i].score, productIds);
      assert top[..i + 1][..i] == top[..i];
    }
    assert top[..|top|] == top;
  }

  /** `userBasedCF(userId, topN, minSimilarity)` over the behaviour table. */
  method UserBasedCF(behaviors: seq<BehaviorEvent>, userId: int, topN: int, minSimilarity: real, sqrt: real -> real)
    returns (recommendations: seq<Scored>)
    ensures recommendations == UserCF(Accumulate(behaviors), userId, topN, minSimilarity, sqrt)
  {
    var matrix := BuildUserItemMatrix(behaviors);
    var targetUserVector := Row(matrix, userId);
    if targetUserVector == map[] {
      return [];
    }
    var userSimilarities := SimilarUsers(matrix, userId, minSimilarity, sqrt);
    var topSimilarUsers := SliceTo(SortDesc(userSimilarities), topN);
    var recommendationScores := ScoreNeighbours(matrix, targetUserVector.Keys, topSimilarUsers);
    recommendations := Rank(recommendationScores);
  }

  // ---------------------------------------------------------------------
  // itemBasedCF

  /** The inner loop of the transposition: user `u`'s weights for the
      products `ps` are written into the product rows. */
  function PlaceRow(t: Matrix, u: int, row: Vector, ps: seq<int>): Matrix
    requires forall i :: 0 <= i < |ps| ==> ps[i] in row
  {
    if ps == [] then t
    else
      var rest := PlaceRow(t, u, row, ps[..|ps| - 1]);
      var p := ps[|ps| - 1];
      rest[p := Row(rest, p)[u := row[p]]]
  }

  /** The outer loop of the transposition, over the users `ids`. */
  function TransposeRows(matrix: Matrix, ids: seq<int>): Matrix
  {
    if ids == [] then map[]
    else
      var u := ids[|ids| - 1];
      var row := Row(matrix, u);
      PlaceRow(TransposeRows(matrix, ids[..|ids| - 1]), u, row, SortedKeys(row.Keys))
  }

  /** `itemUserMatrix`: productId -> userId -> weight. */
  function Transpose(matrix: Matrix): Matrix
  {
    TransposeRows(matrix, SortedKeys(matrix.Keys))
  }

  lemma {:induction false} PlaceRowSpec(t: Matrix, u: int, row: Vector, ps: seq<int>, p: int, v: int)
    requires forall i :: 0 <= i < |ps| ==> ps[i] in row
    ensures p in PlaceRow(t, u, row, ps) <==> p in t || p in ps
    ensures v in Row(PlaceRow(t, u, row, ps), p) <==> v in Row(t, p) || (v == u && p in ps)
    ensures v in Row(PlaceRow(t, u, row, ps), p) ==>
      Row(PlaceRow(t, u, row, ps), p)[v] == if v == u && p in ps then row[p] else Row(t, p)[v]
  {
    if ps != [] {
      var init, last := ps[..|ps| - 1], ps[|ps| - 1];
      PlaceRowSpec(t, u, row, init, p, v);
      assert ps == init + [last];
    }
  }

  /** Some user of `ids` has product `p` in their row. */
  predicate SomeUserHas(matrix: Matrix, ids: seq<int>, p: int)
  {
    exists j :: 0 <= j < |ids| && p in Row(matrix, ids[j])
  }

  lemma {:induction false} TransposeRowsSpec(matrix: Matrix, ids: seq<int>, p: int, v: int)
    ensures p in TransposeRows(matrix, ids) <==> SomeUserHas(matrix, ids, p)
    ensures v in Row(TransposeRows(matrix, ids), p) <==> v in ids && p in Row(matrix, v)
    ensures v in Row(TransposeRows(matrix, ids), p) ==> Row(TransposeRows(matrix, ids), p)[v] == matrix[v][p]
  {
    if ids != [] {
      var init, u := ids[..|ids| - 1], ids[|ids| - 1];
      var row := Row(matrix, u);
      TransposeRowsSpec(matrix, init, p, v);
      PlaceRowSpec(TransposeRows(matrix, init), u, row, SortedKeys(row.Keys), p, v);
      SomeUserHasLast(matrix, ids, p);
    }
  }

  lemma SomeUserHasLast(matrix: Matrix, ids: seq<int>, p: int)
    requires ids != []
    ensures SomeUserHas(matrix, ids, p)
      <==> SomeUserHas(matrix, ids[..|ids| - 1], p) || p in Row(matrix, ids[|ids| - 1])
  {
    var init := ids[..|ids| - 1];
    if SomeUserHas(matrix, init, p) {
      var j :| 0 <= j < |init| && p in Row(matrix, init[j]);
      assert ids[j] == init[j];
    }
    if SomeUserHas(matrix, ids, p) && p !in Row(matrix, ids[|ids| - 1]) {
      var j :| 0 <= j < |ids| && p in Row(matrix, ids[j]);
      assert init[j] == ids[j];
    }
  }

  /** The transposed matrix holds `itemUser[p][u] == matrix[u][p]` for exactly
      the entries of the matrix, and none of its rows is empty. */
  lemma TransposeSpec(matrix: Matrix, p: int, u: int)
    ensures u in Row(Transpose(matrix), p) <==> u in matrix && p in matrix[u]
    ensures u in Row(Transpose(matrix), p) ==> Transpose(matrix)[p][u] == matrix[u][p]
    ensures p in Transpose(matrix) ==> Transpose(matrix)[p] != map[]
  {
    var ids := SortedKeys(matrix.Keys);
    TransposeRowsSpec(matrix, ids, p, u);
    if p in Transpose(matrix) {
      var j :| 0 <= j < |ids| && p in Row(matrix, ids[j]);
      TransposeRowsSpec(matrix, ids, p, ids[j]);
    }
  }

  /** The similarity of two products' user columns. */
  ghost function ItemSimilarity(itemUser: Matrix, sqrt: real -> real): (int, int) -> real
  {
    (a, b) => Cosine(Row(itemUser, a), Row(itemUser, b), sqrt)
  }

  /** Candidates of liked product `liked` that the loop skips: products the
      user has, products without a column, products not similar enough. */
  function ItemSkip(itemUser: Matrix, seen: set<int>, liked: int, minSimilarity: real, similarity: (int, int) -> real): int -> bool
  {
    other => other in seen || other !in itemUser || !(similarity(liked, other) >= minSimilarity)
  }

  /** `userRating × similarity`: what liked product `liked` adds to a candidate. */
  function ItemTerm(liked: int, userRating: real, similarity: (int, int) -> real): int -> real
  {
    other => userRating * similarity(liked, other)
  }

  /** The scoring loops of `itemBasedCF`: over the liked products, then over
      every candidate product `others`. */
  function ItemScores(itemUser: Matrix, target: Vector, liked: seq<int>, others: seq<int>,
                      minSimilarity: real, similarity: (int, int) -> real): map<int, real>
    requires forall i :: 0 <= i < |liked| ==> liked[i] in target
  {
    if liked == [] then map[]
    else
      var rest := ItemScores(itemUser, target, liked[..|liked| - 1], others, minSimilarity, similarity);
      var lp := liked[|liked| - 1];
      if lp !in itemUser then rest
      else Accrue(rest, ItemSkip(itemUser, target.Keys, lp, minSimilarity, similarity),
                  ItemTerm(lp, target[lp], similarity), others)
  }

  /** The liked product `lp` counts towards candidate `other`. */
  predicate Supports(itemUser: Matrix, lp: int, other: int, minSimilarity: real, similarity: (int, int) -> real)
  {
    lp in itemUser && other in itemUser && similarity(lp, other) >= minSimilarity
  }

  /** Σ userRating × similarity over the liked products that support `other`. */
  function ItemScore(itemUser: Matrix, target: Vector, liked: seq<int>, other: int,
                     minSimilarity: real, similarity: (int, int) -> real): real
    requires forall i :: 0 <= i < |liked| ==> liked[i] in target
  {
    if liked == [] then 0.0
    else
      var lp := liked[|liked| - 1];
      ItemScore(itemUser, target, liked[..|liked| - 1], other, minSimilarity, similarity)
      + (if Supports(itemUser, lp, other, minSimilarity, similarity) then ItemTerm(lp, target[lp], similarity)(other) else 0.0)
  }

  predicate SomeLikedSupports(itemUser: Matrix, liked: seq<int>, other: int, minSimilarity: real, similarity: (int, int) -> real)
  {
    exists j :: 0 <= j < |liked| && Supports(itemUser, liked[j], other, minSimilarity, similarity)
  }

  lemma SomeLikedSupportsLast(itemUser: Matrix, liked: seq<int>, other: int, minSimilarity: real, similarity: (int, int) -> real)
    requires liked != []
    ensures SomeLikedSupports(itemUser, liked, other, minSimilarity, similarity)
      <==> SomeLikedSupports(itemUser, liked[..|liked| - 1], other, minSimilarity, similarity)
           || Supports(itemUser, liked[|liked| - 1], other, minSimilarity, similarity)
  {
    var init := liked[..|liked| - 1];
    if SomeLikedSupports(itemUser, init, other, minSimilarity, similarity) {
      var j :| 0 <= j < |init| && Supports(itemUser, init[j], other, minSimilarity, similarity);
      assert liked[j] == init[j];
    }
    if SomeLikedSupports(itemUser, liked, other, minSimilarity, similarity)
      && !Supports(itemUser, liked[|liked| - 1], other, minSimilarity, similarity)
    {
      var j :| 0 <= j < |liked| && Supports(itemUser, liked[j], other, minSimilarity, similarity);
      assert init[j] == liked[j];
    }
  }

  /** The item-based score dictionary in closed form: a candidate is scored
      exactly when the user does not have it and some liked product is
      similar enough to it, and its score is Σ userRating × similarity over
      those liked products. */
  lemma {:induction false} ItemScoresSpec(itemUser: Matrix, target: Vector, liked: seq<int>, others: seq<int>,
                                          minSimilarity: real, similarity: (int, int) -> real, other: int)
    requires forall i :: 0 <= i < |liked| ==> liked[i] in target
    requires forall i, j :: 0 <= i < j < |others| ==> others[i] < others[j]
    ensures other in ItemScores(itemUser, target, liked, others, minSimilarity, similarity) <==>
      other !in target && other in others && SomeLikedSupports(itemUser, liked, other, minSimilarity, similarity)
    ensures other !in target && other in others ==>
      Lookup(ItemScores(itemUser, target, liked, others, minSimilarity, similarity), other)
      == ItemScore(itemUser, target, liked, other, minSimilarity, similarity)
  {
    if liked != [] {
      var init, lp := liked[..|liked| - 1], liked[|liked| - 1];
      ItemScoresSpec(itemUser, target, init, others, minSimilarity, similarity, other);
      SomeLikedSupportsLast(itemUser, liked, other, minSimilarity, similarity);
      if lp in itemUser {
        AccrueSpec(ItemScores(itemUser, target, init, others, minSimilarity, similarity),
                   ItemSkip(itemUser, target.Keys, lp, minSimilarity, similarity),
                   ItemTerm(lp, target[lp], similarity), others, other);
      }
    }
  }

  /** `itemBasedCF(userId, topN, minSimilarity)` as a function of the matrix:
      `topN` plays no part. */
  ghost function ItemCF(matrix: Matrix, userId: int, minSimilarity: real, sqrt: real -> real): seq<Scored>
  {
    var target := Row(matrix, userId);
    if target == map[] then []
    else
      var itemUser := Transpose(matrix);
      Rank(ItemScores(itemUser, target, SortedKeys(target.Keys), SortedKeys(itemUser.Keys),
                      minSimilarity, ItemSimilarity(itemUser, sqrt)))
  }

  /** `itemBasedCF` returns nothing for a user without behaviour; otherwise it
      ranks exactly the products the user does not have that are similar
      enough to one the user has, each scored Σ userRating × similarity. */
  lemma ItemCFSpec(matrix: Matrix, userId: int, minSimilarity: real, sqrt: real -> real)
    ensures Row(matrix, userId) == map[] ==> ItemCF(matrix, userId, minSimilarity, sqrt) == []
    ensures Ranked(ItemCF(matrix, userId, minSimilarity, sqrt))
    ensures forall p :: p in Ids(ItemCF(matrix, userId, minSimilarity, sqrt)) <==>
      Row(matrix, userId) != map[] && p !in Row(matrix, userId)
      && SomeLikedSupports(Transpose(matrix), SortedKeys(Row(matrix, userId).Keys), p, minSimilarity,
                           ItemSimilarity(Transpose(matrix), sqrt))
  {
    var target := Row(matrix, userId);
    if target != map[] {
      var itemUser := Transpose(matrix);
      var liked := SortedKeys(target.Keys);
      var others := SortedKeys(itemUser.Keys);
      var similarity := ItemSimilarity(itemUser, sqrt);
      var scores := ItemScores(itemUser, target, liked, others, minSimilarity, similarity);
      RankSpec(scores);
      RankKeys(scores);
      forall p ensures p in scores <==> p !in target && SomeLikedSupports(itemUser, liked, p, minSimilarity, similarity)
      {
        ItemScoresSpec(itemUser, target, liked, others, minSimilarity, similarity, p);
        if SomeLikedSupports(itemUser, liked, p, minSimilarity, similarity) {
          var j :| 0 <= j < |liked| && Supports(itemUser, liked[j], p, minSimilarity, similarity);
          assert p in others;
        }
      }
    }
  }

  /** Each product `itemBasedCF` ranks is scored Σ userRating × similarity
      over the user's own products similar enough to it. */
  lemma ItemCFScores(matrix: Matrix, userId: int, minSimilarity: real, sqrt: real -> real)
    ensures forall i :: 0 <= i < |ItemCF(matrix, userId, minSimilarity, sqrt)| ==>
      var r := ItemCF(matrix, userId, minSimilarity, sqrt)[i];
      r.score == ItemScore(Transpose(matrix), Row(matrix, userId), SortedKeys(Row(matrix, userId).Keys), r.id,
                           minSimilarity, ItemSimilarity(Transpose(matrix), sqrt))
  {
    var target := Row(matrix, userId);
    if target != map[] {
      var itemUser := Transpose(matrix);
      var liked := SortedKeys(target.Keys);
      var others := SortedKeys(itemUser.Keys);
      var similarity := ItemSimilarity(itemUser, sqrt);
      var scores := ItemScores(itemUser, target, liked, others, minSimilarity, similarity);
      var ranked := Rank(scores);
      assert ItemCF(matrix, userId, minSimilarity, sqrt) == ranked;
      RankSpec(scores);
      forall i | 0 <= i < |ranked|
        ensures ranked[i].score == ItemScore(itemUser, target, liked, ranked[i].id, minSimilarity, similarity)
      {
        ItemScoresSpec(itemUser, target, liked, others, minSimilarity, similarity, ranked[i].id);
      }
    }
  }

  /** The inner loop of the transposition, over one user's products. */
  method PlaceUser(itemUserMatrix: Matrix, uid: int, userVector: Vector, productIds: seq<int>) returns (r: Matrix)
    requires forall i :: 0 <= i < |productIds| ==> productIds[i] in userVector
    ensures r == PlaceRow(itemUserMatrix, uid, userVector, productIds)
  {
    r := itemUserMatrix;
    for j := 0 to |productIds|
      invariant r == PlaceRow(itemUserMatrix, uid, userVector, productIds[..j])
    {
      var productId := productIds[j];
      assert productIds[..j + 1][..j] == productIds[..j];
      if productId !in r {
        r := r[productId := map[]];
      }
      r := r[productId := r[productId][uid := userVector[productId]]];
    }
    assert productIds[..|productIds|] == productIds;
  }

  lemma TransposeStep(matrix: Matrix, ids: seq<int>, i: int)
    requires 0 <= i < |ids|
    ensures TransposeRows(matrix, ids[..i + 1])
      == PlaceRow(TransposeRows(matrix, ids[..i]), ids[i], Row(matrix, ids[i]), SortedKeys(Row(matrix, ids[i]).Keys))
  {
    assert ids[..i + 1][..i] == ids[..i];
  }

  /** The construction of `itemUserMatrix` in `itemBasedCF`. */
  method TransposeMatrix(matrix: Matrix) returns (itemUserMatrix: Matrix)
    ensures itemUserMatrix == Transpose(matrix)
  {
    itemUserMatrix := map[];
    var allUserIds := SortedKeys(matrix.Keys);
    for i := 0 to |allUserIds|
      invariant itemUserMatrix == TransposeRows(matrix, allUserIds[..i])
    {
      var uid := allUserIds[i];
      var userVector := Row(matrix, uid);
      var productIds := SortedKeys(userVector.Keys);
      TransposeStep(matrix, allUserIds, i);
      itemUserMatrix := PlaceUser(itemUserMatrix, uid, userVector, productIds);
    }
    assert allUserIds[..|allUserIds|] == allUserIds;
  }

  /** One iteration of the candidate loop of `itemBasedCF`, given the
      similarity `s` of the liked product and the candidate. */
  lemma ItemStep(scores: map<int, real>, itemUser: Matrix, seen: set<int>, liked: int, userRating: real,
                 minSimilarity: real, similarity: (int, int) -> real, ps: seq<int>, j: int, s: real)
    requires 0 <= j < |ps|
    requires ps[j] !in seen && ps[j] in itemUser ==> similarity(liked, ps[j]) == s
    ensures var skip, credit := ItemSkip(itemUser, seen, liked, minSimilarity, similarity), ItemTerm(liked, userRating, similarity);
      var rest := Accrue(scores, skip, credit, ps[..j]);
      Accrue(scores, skip, credit, ps[..j + 1])
      == if ps[j] !in seen && ps[j] in itemUser && s >= minSimilarity then Bump(rest, ps[j], userRating * s)
         else rest
  {
    var skip, credit := ItemSkip(itemUser, seen, liked, minSimilarity, similarity), ItemTerm(liked, userRating, similarity);
    AccrueStep(scores, skip, credit, ps, j);
    if ps[j] !in seen && ps[j] in itemUser {
      assert skip(ps[j]) == !(s >= minSimilarity);
      assert credit(ps[j]) == userRating * s;
    } else {
      assert skip(ps[j]);
    }
  }

  /** `similarity` gives the cosine similarity of two products' columns. The
      trigger keeps the definition of the cosine out of the loops below. */
  ghost predicate IsItemSimilarity(similarity: (int, int) -> real, itemUser: Matrix, sqrt: real -> real)
  {
    forall a, b {:trigger Cosine(Row(itemUser, a), Row(itemUser, b), sqrt)} ::
      similarity(a, b) == Cosine(Row(itemUser, a), Row(itemUser, b), sqrt)
  }

  lemma ItemSimilarityIs(itemUser: Matrix, sqrt: real -> real)
    ensures IsItemSimilarity(ItemSimilarity(itemUser, sqrt), itemUser, sqrt)
  {
  }

  /** `cosineSimilarity(likedProductVector, otherProductVector)`. */
  method ProductSimilarity(itemUserMatrix: Matrix, likedProductId: int, otherProductId: int, sqrt: real -> real,
                           ghost similarityOf: (int, int) -> real)
    returns (similarity: real)
    requires IsItemSimilarity(similarityOf, itemUserMatrix, sqrt)
    requires likedProductId in itemUserMatrix && otherProductId in itemUserMatrix
    ensures similarity == similarityOf(likedProductId, otherProductId)
  {
    var likedProductVector := itemUserMatrix[likedProductId];
    var otherProductVector := itemUserMatrix[otherProductId];
    similarity := CosineSimilarity(likedProductVector, otherProductVector, sqrt);
    assert similarity == Cosine(Row(itemUserMatrix, likedProductId), Row(itemUserMatrix, otherProductId), sqrt);
  }

  /** The candidate loop of `itemBasedCF` for one liked product. */
  method CreditSimilarItems(scores: map<int, real>, itemUserMatrix: Matrix, seen: set<int>, likedProductId: int,
                            userRating: real, allProductIds: seq<int>, minSimilarity: real, sqrt: real -> real,
                            ghost similarityOf: (int, int) -> real)
    returns (recommendationScores: map<int, real>)
    requires IsItemSimilarity(similarityOf, itemUserMatrix, sqrt)
    requires likedProductId in itemUserMatrix
    ensures recommendationScores == Accrue(scores,
      ItemSkip(itemUserMatrix, seen, likedProductId, minSimilarity, similarityOf),
      ItemTerm(likedProductId, userRating, similarityOf), allProductIds)
  {
    ghost var skip := ItemSkip(itemUserMatrix, seen, likedProductId, minSimilarity, similarityOf);
    ghost var credit := ItemTerm(likedProductId, userRating, similarityOf);
    recommendationScores := scores;
    for j := 0 to |allProductIds|
      invariant recommendationScores == Accrue(scores, skip, credit, allProductIds[..j])
    {
      var otherProductId := allProductIds[j];
      var similarity := 0.0;
      if otherProductId !in seen && otherProductId in itemUserMatrix {
        similarity := ProductSimilarity(itemUserMatrix, likedProductId, otherProductId, sqrt, similarityOf);
      }
      ItemStep(scores, itemUserMatrix, seen, likedProductId, userRating, minSimilarity, similarityOf, allProductIds, j, similarity);
      if otherProductId !in seen && otherProductId in itemUserMatrix && similarity >= minSimilarity {
        recommendationScores := Bump(recommendationScores, otherProductId, userRating * similarity);
      }
    }
    assert allProductIds[..|allProductIds|] == allProductIds;
  }

  /** The liked-product loop of `itemBasedCF`. */
  method ScoreLikedProducts(itemUserMatrix: Matrix, targetUserVector: Vector, userLikedProducts: seq<int>,
                            allProductIds: seq<int>, minSimilarity: real, sqrt: real -> real)
    returns (recommendationScores: map<int, real>)
    requires forall i :: 0 <= i < |userLikedProducts| ==> userLikedProducts[i] in targetUserVector
    ensures recommendationScores == ItemScores(itemUserMatrix, targetUserVector, userLikedProducts, allProductIds,
                                               minSimilarity, ItemSimilarity(itemUserMatrix, sqrt))
  {
    recommendationScores := map[];
    for i := 0 to |userLikedProducts|
      invariant recommendationScores == ItemScores(itemUserMatrix, targetUserVector, userLikedProducts[..i], allProductIds,
                                                   minSimilarity, ItemSimilarity(itemUserMatrix, sqrt))
    {
      var likedProductId := userLikedProducts[i];
      assert userLikedProducts[..i + 1][..i] == userLikedProducts[..i];
      if likedProductId in itemUserMatrix {
        var userRating := targetUserVector[likedProductId];
        ItemSimilarityIs(itemUserMatrix, sqrt);
        recommendationScores := CreditSimilarItems(recommendationScores, itemUserMatrix, targetUserVector.Keys,
                                                   likedProductId, userRating, allProductIds, minSimilarity, sqrt,
                                                   ItemSimilarity(itemUserMatrix, sqrt));
      }
    }
    assert userLikedProducts[..|userLikedProducts|] == userLikedProducts;
  }

  /** `itemBasedCF(userId, topN, minSimilarity)` over the behaviour table. */
  method ItemBasedCF(behaviors: seq<BehaviorEvent>, userId: int, topN: int, minSimilarity: real, sqrt: real -> real)
    returns (recommendations: seq<Scored>)
    ensures recommendations == ItemCF(Accumulate(behaviors), userId, minSimilarity, sqrt)
  {
    var matrix := BuildUserItemMatrix(behaviors);
    var targetUserVector := Row(matrix, userId);
    if targetUserVector == map[] {
      return [];
    }
    var itemUserMatrix := TransposeMatrix(matrix);
    var userLikedProducts := SortedKeys(targetUserVector.Keys);
    var allProductIds := SortedKeys(itemUserMatrix.Keys);
    var recommendationScores := ScoreLikedProducts(itemUserMatrix, targetUserVector, userLikedProducts,
                                                   allProductIds, minSimilarity, sqrt);
    recommendations := Rank(recommendationScores);
  }

  // ---------------------------------------------------------------------
  // hybridCF

  /** The default blend of `hybridCF`. */
  const DefaultUserCFWeight: real := 0.6
  const DefaultItemCFWeight: real := 0.4
  const DefaultHybridTopN: int := 50

  /** What one result adds to the combined score of its product. */
  function Weighted(r: Scored, weight: real): real
  {
    r.score * weight
  }

  /** One merging loop of `hybridCF`: each result adds its weighted score to
      the entry of its product. */
  function AddWeighted(scores: map<int, real>, results: seq<Scored>, weight: real): map<int, real>
  {
    if results == [] then scores
    else
      var last := results[|results| - 1];
      Bump(AddWeighted(scores, results[..|results| - 1], weight), last.id, Weighted(last, weight))
  }

  /** The sum of the weighted scores the results list for `p`. */
  function WeightedScore(results: seq<Scored>, p: int, weight: real): real
  {
    if results == [] then 0.0
    else
      var last := results[|results| - 1];
      WeightedScore(results[..|results| - 1], p, weight) + (if last.id == p then Weighted(last, weight) else 0.0)
  }

  /** A merging loop adds to exactly the listed products, each the sum of its weighted scores. */
  lemma {:induction false} AddWeightedSpec(scores: map<int, real>, results: seq<Scored>, weight: real, p: int)
    ensures p in AddWeighted(scores, results, weight) <==> p in scores || p in Ids(results)
    ensures Lookup(AddWeighted(scores, results, weight), p) == Lookup(scores, p) + WeightedScore(results, p, weight)
  {
    if results != [] {
      var init := results[..|results| - 1];
      AddWeightedSpec(scores, init, weight, p);
      assert Ids(results) == Ids(init) + [results[|results| - 1].id];
    }
  }

  /** With distinct ids, a product's weighted sum is its one score times the weight. */
  lemma {:induction false} WeightedScoreDistinct(results: seq<Scored>, p: int, weight: real)
    requires DistinctIds(results)
    ensures WeightedScore(results, p, weight) == ScoreIn(results, p) * weight
  {
    if results != [] {
      var init, last := results[..|results| - 1], results[|results| - 1];
      assert DistinctIds(init);
      WeightedScoreDistinct(init, p, weight);
      if last.id == p {
        forall i | 0 <= i < |init| ensures init[i].id != p {
          assert init[i] == results[i];
        }
        ScoreInUnlisted(init, p);
      }
    }
  }

  /** The combined scores of `hybridCF`. */
  function Combine(userResults: seq<Scored>, itemResults: seq<Scored>, userCFWeight: real, itemCFWeight: real): map<int, real>
  {
    AddWeighted(AddWeighted(map[], userResults, userCFWeight), itemResults, itemCFWeight)
  }

  /** The weighted sum of a product's scores in the two lists, a list without it counting 0. */
  function BlendScore(userResults: seq<Scored>, itemResults: seq<Scored>, userCFWeight: real, itemCFWeight: real, p: int): real
  {
    ScoreIn(userResults, p) * userCFWeight + ScoreIn(itemResults, p) * itemCFWeight
  }

  /** A product is combined iff either list has it; its combined score is the
      weighted sum of its two scores, a list without it counting 0. */
  lemma CombineSpec(userResults: seq<Scored>, itemResults: seq<Scored>, userCFWeight: real, itemCFWeight: real, p: int)
    requires DistinctIds(userResults) && DistinctIds(itemResults)
    ensures p in Combine(userResults, itemResults, userCFWeight, itemCFWeight) <==> p in Ids(userResults) || p in Ids(itemResults)
    ensures Lookup(Combine(userResults, itemResults, userCFWeight, itemCFWeight), p)
      == BlendScore(userResults, itemResults, userCFWeight, itemCFWeight, p)
  {
    var fromUser := AddWeighted(map[], userResults, userCFWeight);
    AddWeightedSpec(map[], userResults, userCFWeight, p);
    AddWeightedSpec(fromUser, itemResults, itemCFWeight, p);
    var u := WeightedScore(userResults, p, userCFWeight);
    var i := WeightedScore(itemResults, p, itemCFWeight);
    assert Lookup(fromUser, p) == u by { assert Lookup(map[], p) == 0.0; }
    assert Lookup(Combine(userResults, itemResults, userCFWeight, itemCFWeight), p) == u + i;
    WeightedScoreDistinct(userResults, p, userCFWeight);
    WeightedScoreDistinct(itemResults, p, itemCFWeight);
  }

  /** The blend of `hybridCF`: the combined scores, ranked and cut to `topN`. */
  function Blend(userResults: seq<Scored>, itemResults: seq<Scored>, userCFWeight: real, itemCFWeight: real, topN: int): seq<Scored>
  {
    SliceTo(Rank(Combine(userResults, itemResults, userCFWeight, itemCFWeight)), topN)
  }

  /** The blend returns at most `topN` products, ranked, each from one of the
      two lists and scored with the weighted sum of its two scores. */
  lemma BlendSound(userResults: seq<Scored>, itemResults: seq<Scored>, userCFWeight: real, itemCFWeight: real, topN: int)
    requires DistinctIds(userResults) && DistinctIds(itemResults)
    ensures Ranked(Blend(userResults, itemResults, userCFWeight, itemCFWeight, topN))
    ensures topN >= 0 ==> |Blend(userResults, itemResults, userCFWeight, itemCFWeight, topN)| <= topN
    ensures forall i :: 0 <= i < |Blend(userResults, itemResults, userCFWeight, itemCFWeight, topN)| ==>
      (Blend(userResults, itemResults, userCFWeight, itemCFWeight, topN)[i].id in Ids(userResults)
       || Blend(userResults, itemResults, userCFWeight, itemCFWeight, topN)[i].id in Ids(itemResults))
      && Blend(userResults, itemResults, userCFWeight, itemCFWeight, topN)[i].score
         == BlendScore(userResults, itemResults, userCFWeight, itemCFWeight,
                       Blend(userResults, itemResults, userCFWeight, itemCFWeight, topN)[i].id)
  {
    var combined := Combine(userResults, itemResults, userCFWeight, itemCFWeight);
    var ranked := Rank(combined);
    var r := SliceTo(ranked, topN);
    RankSpec(combined);
    RankedPrefix(ranked, r);
    forall i | 0 <= i < |r|
      ensures (r[i].id in Ids(userResults) || r[i].id in Ids(itemResults))
      && r[i].score == BlendScore(userResults, itemResults, userCFWeight, itemCFWeight, r[i].id)
    {
      assert r[i] == ranked[i];
      CombineSpec(userResults, itemResults, userCFWeight, itemCFWeight, r[i].id);
    }
  }

  /** A product of either list that the blend leaves out scores, combined, no
      higher than any product it keeps. */
  lemma BlendBest(userResults: seq<Scored>, itemResults: seq<Scored>, userCFWeight: real, itemCFWeight: real, topN: int, p: int)
    requires DistinctIds(userResults) && DistinctIds(itemResults)
    requires p in Ids(userResults) || p in Ids(itemResults)
    requires p !in Ids(Blend(userResults, itemResults, userCFWeight, itemCFWeight, topN))
    ensures forall i :: 0 <= i < |Blend(userResults, itemResults, userCFWeight, itemCFWeight, topN)| ==>
      Blend(userResults, itemResults, userCFWeight, itemCFWeight, topN)[i].score
      >= BlendScore(userResults, itemResults, userCFWeight, itemCFWeight, p)
  {
    CombineSpec(userResults, itemResults, userCFWeight, itemCFWeight, p);
    RankTopBest(Combine(userResults, itemResults, userCFWeight, itemCFWeight), topN, p);
  }

  /** The two lists `hybridCF` blends: user-based with twice the neighbours,
      item-based, both with similarity threshold 0.1. */
  ghost function HybridUser(matrix: Matrix, userId: int, topN: int, sqrt: real -> real): seq<Scored>
  {
    UserCF(matrix, userId, topN * 2, 0.1, sqrt)
  }

  ghost function HybridItem(matrix: Matrix, userId: int, sqrt: real -> real): seq<Scored>
  {
    ItemCF(matrix, userId, 0.1, sqrt)
  }

  /** `hybridCF(userId, userCFWeight, itemCFWeight, topN)` as a function of the matrix. */
  ghost function HybridCF(matrix: Matrix, userId: int, userCFWeight: real, itemCFWeight: real, topN: int, sqrt: real -> real): seq<Scored>
  {
    Blend(HybridUser(matrix, userId, topN, sqrt), HybridItem(matrix, userId, sqrt), userCFWeight, itemCFWeight, topN)
  }

  /** Both blended lists list each product once, so the blend lemmas apply to `hybridCF`. */
  lemma HybridInputsDistinct(matrix: Matrix, userId: int, topN: int, sqrt: real -> real)
    ensures DistinctIds(HybridUser(matrix, userId, topN, sqrt))
    ensures DistinctIds(HybridItem(matrix, userId, sqrt))
  {
    HybridUserDistinct(matrix, userId, topN, sqrt);
    HybridItemDistinct(matrix, userId, sqrt);
  }

  lemma HybridUserDistinct(matrix: Matrix, userId: int, topN: int, sqrt: real -> real)
    ensures DistinctIds(HybridUser(matrix, userId, topN, sqrt))
  {
    var target := Row(matrix, userId);
    if target != map[] {
      RankDistinct(Credit(matrix, target.Keys, UserTop(matrix, userId, topN * 2, 0.1, sqrt)));
    }
  }

  lemma HybridItemDistinct(matrix: Matrix, userId: int, sqrt: real -> real)
    ensures DistinctIds(HybridItem(matrix, userId, sqrt))
  {
    var target := Row(matrix, userId);
    if target != map[] {
      var itemUser := Transpose(matrix);
      var scores := ItemScores(itemUser, target, SortedKeys(target.Keys), SortedKeys(itemUser.Keys),
                               0.1, ItemSimilarity(itemUser, sqrt));
      assert DistinctIds(Rank(scores)) by {
        RankDistinct(scores);
      }
    }
  }

  /** `hybridCF` returns at most `topN` products, ranked, each recommended by
      one of the two algorithms and scored userCFWeight × its user-based score
      + itemCFWeight × its item-based score. */
  lemma HybridSpec(matrix: Matrix, userId: int, userCFWeight: real, itemCFWeight: real, topN: int, sqrt: real -> real)
    ensures Ranked(HybridCF(matrix, userId, userCFWeight, itemCFWeight, topN, sqrt))
    ensures topN >= 0 ==> |HybridCF(matrix, userId, userCFWeight, itemCFWeight, topN, sqrt)| <= topN
    ensures forall i :: 0 <= i < |HybridCF(matrix, userId, userCFWeight, itemCFWeight, topN, sqrt)| ==>
      (HybridCF(matrix, userId, userCFWeight, itemCFWeight, topN, sqrt)[i].id in Ids(HybridUser(matrix, userId, topN, sqrt))
       || HybridCF(matrix, userId, userCFWeight, itemCFWeight, topN, sqrt)[i].id in Ids(HybridItem(matrix, userId, sqrt)))
      && HybridCF(matrix, userId, userCFWeight, itemCFWeight, topN, sqrt)[i].score
         == BlendScore(HybridUser(matrix, userId, topN, sqrt), HybridItem(matrix, userId, sqrt), userCFWeight, itemCFWeight,
                       HybridCF(matrix, userId, userCFWeight, itemCFWeight, topN, sqrt)[i].id)
  {
    HybridInputsDistinct(matrix, userId, topN, sqrt);
    BlendSound(HybridUser(matrix, userId, topN, sqrt), HybridItem(matrix, userId, sqrt), userCFWeight, itemCFWeight, topN);
  }

  /** A product either algorithm recommends that `hybridCF` leaves out scores
      no higher than any product it returns. */
  lemma HybridBest(matrix: Matrix, userId: int, userCFWeight: real, itemCFWeight: real, topN: int, sqrt: real -> real, p: int)
    requires p in Ids(HybridUser(matrix, userId, topN, sqrt)) || p in Ids(HybridItem(matrix, userId, sqrt))
    requires p !in Ids(HybridCF(matrix, userId, userCFWeight, itemCFWeight, topN, sqrt))
    ensures forall i :: 0 <= i < |HybridCF(matrix, userId, userCFWeight, itemCFWeight, topN, sqrt)| ==>
      HybridCF(matrix, userId, userCFWeight, itemCFWeight, topN, sqrt)[i].score
      >= BlendScore(HybridUser(matrix, userId, topN, sqrt), HybridItem(matrix, userId, sqrt), userCFWeight, itemCFWeight, p)
  {
    HybridInputsDistinct(matrix, userId, topN, sqrt);
    BlendBest(HybridUser(matrix, userId, topN, sqrt), HybridItem(matrix, userId, sqrt), userCFWeight, itemCFWeight, topN, p);
  }

  /** One merging loop of `hybridCF`. */
  method MergeResults(combinedScores: map<int, real>, results: seq<Scored>, weight: real)
    returns (merged: map<int, real>)
    ensures merged == AddWeighted(combinedScores, results, weight)
  {
    merged := combinedScores;
    for i := 0 to |results|
      invariant merged == AddWeighted(combinedScores, results[..i], weight)
    {
      var result := results[i];
      assert results[..i + 1][..i] == results[..i];
      var current := if result.id in merged then merged[result.id] else 0.0;
      assert current == Lookup(merged, result.id);
      assert Weighted(result, weight) == result.score * weight;
      merged := merged[result.id := current + result.score * weight];
    }
    assert results[..|results|] == results;
  }

  /** `hybridCF(userId, userCFWeight, itemCFWeight, topN)` over the behaviour table. */
  method HybridBasedCF(behaviors: seq<BehaviorEvent>, userId: int, userCFWeight: real, itemCFWeight: real, topN: int,
                       sqrt: real -> real)
    returns (recommendations: seq<Scored>)
    ensures recommendations == HybridCF(Accumulate(behaviors), userId, userCFWeight, itemCFWeight, topN, sqrt)
  {
    var userCFResults := UserBasedCF(behaviors, userId, topN * 2, 0.1, sqrt);
    var itemCFResults := ItemBasedCF(behaviors, userId, topN * 2, 0.1, sqrt);
    var combinedScores := MergeResults(map[], userCFResults, userCFWeight);
    combinedScores := MergeResults(combinedScores, itemCFResults, itemCFWeight);
    recommendations := SliceTo(Rank(combinedScores), topN);
  }
}
