/** In-memory model of a TypeORM repository: a table is the sequence of its
    rows in insertion order (ascending auto-increment id). The services'
    `find`, `findOne`, `count`, `update` and `delete` calls select rows by
    a `where` object, which the model passes as a predicate on rows. */
module Tables {
  import opened Wrappers

  /** The rows `find({ where })` selects, in table order. */
  function Where<T(!new)>(s: seq<T>, p: T -> bool): (r: seq<T>)
    ensures |r| <= |s|
    ensures forall x :: x in r <==> x in s && p(x)
  {
    if s == [] then []
    else
      var rest := Where(s[..|s| - 1], p);
      var x := s[|s| - 1];
      assert s == s[..|s| - 1] + [x];
      if p(x) then rest + [x] else rest
  }

  /** The rows that survive `delete({ where })`, in table order. */
  function Drop<T(!new)>(s: seq<T>, p: T -> bool): (r: seq<T>)
    ensures |r| <= |s|
    ensures forall x :: x in r <==> x in s && !p(x)
  {
    if s == [] then []
    else
      var rest := Drop(s[..|s| - 1], p);
      var x := s[|s| - 1];
      assert s == s[..|s| - 1] + [x];
      if p(x) then rest else rest + [x]
  }

  /** A delete that matches no row leaves the table as it was. */
  lemma {:induction false} DropNothing<T(!new)>(s: seq<T>, p: T -> bool)
    requires forall j :: 0 <= j < |s| ==> !p(s[j])
    ensures Drop(s, p) == s
  {
    if s != [] {
      DropNothing(s[..|s| - 1], p);
      assert s == s[..|s| - 1] + [s[|s| - 1]];
    }
  }

  /** `count({ where })`. */
  function Count<T(!new)>(s: seq<T>, p: T -> bool): nat
  {
    |Where(s, p)|
  }

  /** The position of the row `findOne({ where })` returns: the first that matches. */
  function FirstIndex<T>(s: seq<T>, p: T -> bool): (r: Option<nat>)
    ensures r.Some? ==> r.value < |s| && p(s[r.value]) && forall j :: 0 <= j < r.value ==> !p(s[j])
    ensures r.None? ==> forall j :: 0 <= j < |s| ==> !p(s[j])
  {
    if s == [] then None
    else if p(s[0]) then Some(0)
    else match FirstIndex(s[1..], p)
      case None => None
      case Some(i) => Some(i + 1)
  }

  /** `update({ where }, changes)`: every matching row is rewritten by `f`, the others are kept. */
  function UpdateWhere<T>(s: seq<T>, p: T -> bool, f: T -> T): (r: seq<T>)
    ensures |r| == |s|
  {
    if s == [] then []
    else
      var x := s[|s| - 1];
      UpdateWhere(s[..|s| - 1], p, f) + [if p(x) then f(x) else x]
  }

  /** The rows in `order: { created_at: 'DESC' }`: the newest row first. */
  function Newest<T>(s: seq<T>): (r: seq<T>)
    ensures |r| == |s|
  {
    if s == [] then [] else [s[|s| - 1]] + Newest(s[..|s| - 1])
  }

  /** `skip` and `take` of `find`: a non-positive skip skips nothing and a
      non-positive take takes everything after the skipped rows. */
  function Page<T>(s: seq<T>, skip: int, take: int): (r: seq<T>)
    ensures take > 0 ==> |r| <= take
    ensures |r| <= |s|
  {
    var from := Skipped(|s|, skip);
    var rest := s[from..];
    if take > 0 && take < |rest| then rest[..take] else rest
  }

  /** How many of `n` rows a `skip` passes over: none for a non-positive
      skip, all of them for a skip past the end. */
  function Skipped(n: nat, skip: int): (from: nat)
    ensures from <= n
    ensures 0 < skip <= n ==> from == skip
    ensures skip <= 0 ==> from == 0
    ensures skip >= n ==> from == n
  {
    if skip <= 0 then 0 else if skip < n then skip else n
  }

  /** A newest-first page of the rows `w`: it holds `take` rows, or fewer
      at the end, and its `k`-th row is the `(from + k)`-th newest of `w`,
      where `from` is the number of rows skipped. */
  lemma {:induction false} NewestPageAt<T>(w: seq<T>, skip: int, take: int)
    ensures var listed := Page(Newest(w), skip, take);
      var from := Skipped(|w|, skip);
      |listed| == (if take > 0 && take < |w| - from then take else |w| - from)
      && forall k :: 0 <= k < |listed| ==> listed[k] == w[|w| - 1 - (from + k)]
  {
    forall k | 0 <= k < |Page(Newest(w), skip, take)|
      ensures Page(Newest(w), skip, take)[k] == w[|w| - 1 - (Skipped(|w|, skip) + k)]
    {
      NewestAt(w, Skipped(|w|, skip) + k);
    }
  }

  /** `find({ where, order: { created_at: 'DESC' }, skip, take })`: a page
      of the selected rows, newest first. */
  function NewestPage<T(!new)>(s: seq<T>, p: T -> bool, skip: int, take: int): seq<T>
  {
    Page(Newest(Where(s, p)), skip, take)
  }

  /** A newest-first page of the rows `s` selects holds `take` of them, or
      fewer at the end, and its `k`-th row is the `(from + k)`-th newest
      selected row, where `from` is the number of selected rows skipped. */
  lemma {:induction false} NewestPageOf<T(!new)>(s: seq<T>, p: T -> bool, skip: int, take: int)
    ensures var w := Where(s, p);
      var listed := NewestPage(s, p, skip, take);
      var from := Skipped(|w|, skip);
      |listed| == (if take > 0 && take < |w| - from then take else |w| - from)
      && forall k :: 0 <= k < |listed| ==> listed[k] == w[|w| - 1 - (from + k)]
  {
    NewestPageAt(Where(s, p), skip, take);
  }

  /** `count({ where })` is 0 exactly when no row matches. */
  lemma {:induction false} WhereAt<T(!new)>(s: seq<T>, p: T -> bool)
    ensures Count(s, p) == 0 <==> forall j :: 0 <= j < |s| ==> !p(s[j])
  {
    if s != [] {
      WhereAt(s[..|s| - 1], p);
      var x := s[|s| - 1];
      if !p(x) && exists j :: 0 <= j < |s| - 1 && p(s[j]) {
        var j :| 0 <= j < |s| - 1 && p(s[j]);
        assert s[..|s| - 1][j] == s[j];
      }
    }
  }

  /** A `where` that every row matching `p` also matches counts at least as many rows. */
  lemma {:induction false} CountImplies<T(!new)>(s: seq<T>, p: T -> bool, q: T -> bool)
    requires forall x :: p(x) ==> q(x)
    ensures Count(s, p) <= Count(s, q)
  {
    if s != [] {
      CountImplies(s[..|s| - 1], p, q);
    }
  }

  /** Two `where` objects that agree on every row select the same rows. */
  lemma {:induction false} WhereSame<T(!new)>(s: seq<T>, p: T -> bool, q: T -> bool)
    requires forall x :: p(x) == q(x)
    ensures Where(s, p) == Where(s, q)
  {
    if s != [] {
      WhereSame(s[..|s| - 1], p, q);
    }
  }

  /** Every row `UpdateWhere` keeps in place is the old row or its rewrite. */
  lemma {:induction false} UpdateWhereAt<T>(s: seq<T>, p: T -> bool, f: T -> T, i: int)
    requires 0 <= i < |s|
    ensures UpdateWhere(s, p, f)[i] == if p(s[i]) then f(s[i]) else s[i]
  {
    if i < |s| - 1 {
      UpdateWhereAt(s[..|s| - 1], p, f, i);
    }
  }

  /** `Newest` lists the rows in reverse: the row at position `i` is the `i`-th from the end. */
  lemma {:induction false} NewestAt<T>(s: seq<T>, i: int)
    requires 0 <= i < |s|
    ensures Newest(s)[i] == s[|s| - 1 - i]
  {
    if i > 0 {
      NewestAt(s[..|s| - 1], i - 1);
    }
  }

  /** The result of a service call that may change one table: what the call
      resolves to (or throws) and the rows of the table afterwards. */
  datatype Change<R, T> = Change(result: Result<R>, rows: seq<T>)

  /** `SUM(f)` over the rows that match `p` (0 when none does). */
  function SumOf<T>(s: seq<T>, p: T -> bool, f: T -> int): int
  {
    if s == [] then 0
    else
      var x := s[|s| - 1];
      SumOf(s[..|s| - 1], p, f) + (if p(x) then f(x) else 0)
  }

  lemma WhereAppend<T(!new)>(s: seq<T>, x: T, p: T -> bool)
    ensures Where(s + [x], p) == Where(s, p) + (if p(x) then [x] else [])
  {
    assert (s + [x])[..|s|] == s;
  }

  lemma SumOfAppend<T>(s: seq<T>, x: T, p: T -> bool, f: T -> int)
    ensures SumOf(s + [x], p, f) == SumOf(s, p, f) + (if p(x) then f(x) else 0)
  {
    assert (s + [x])[..|s|] == s;
  }

  /** Rewriting one row changes the sum by the difference of the two rows' terms. */
  lemma {:induction false} SumOfUpdate<T>(s: seq<T>, i: int, x: T, p: T -> bool, f: T -> int)
    requires 0 <= i < |s|
    ensures SumOf(s[i := x], p, f) == SumOf(s, p, f) - (if p(s[i]) then f(s[i]) else 0) + (if p(x) then f(x) else 0)
  {
    var n := |s| - 1;
    if i < n {
      assert s[i := x][..n] == s[..n][i := x];
      SumOfUpdate(s[..n], i, x, p, f);
    } else {
      assert s[i := x][..n] == s[..n];
    }
  }

  /** Rewriting one row changes the number of matching rows by whether the
      old and the new row match. */
  lemma {:induction false} CountUpdate<T(!new)>(s: seq<T>, i: int, x: T, p: T -> bool)
    requires 0 <= i < |s|
    ensures Count(s[i := x], p) == Count(s, p) - (if p(s[i]) then 1 else 0) + (if p(x) then 1 else 0)
  {
    var n := |s| - 1;
    if i < n {
      assert s[i := x][..n] == s[..n][i := x];
      CountUpdate(s[..n], i, x, p);
    } else {
      assert s[i := x][..n] == s[..n];
    }
  }

  lemma {:induction false} SumOfNone<T>(s: seq<T>, p: T -> bool, f: T -> int)
    requires forall j :: 0 <= j < |s| ==> !p(s[j])
    ensures SumOf(s, p, f) == 0
  {
    if s != [] {
      SumOfNone(s[..|s| - 1], p, f);
    }
  }

  /** Deleting the rows of `q` does not touch the rows of a disjoint `p`. */
  lemma {:induction false} WhereDrop<T(!new)>(s: seq<T>, p: T -> bool, q: T -> bool)
    requires forall x :: p(x) ==> !q(x)
    ensures Where(Drop(s, q), p) == Where(s, p)
  {
    if s != [] {
      var x := s[|s| - 1];
      WhereDrop(s[..|s| - 1], p, q);
      if !q(x) {
        WhereAppend(Drop(s[..|s| - 1], q), x, p);
      }
    }
  }

  /** After deleting the rows of `q`, no row of a narrower `p` is left. */
  lemma WhereDropAll<T(!new)>(s: seq<T>, p: T -> bool, q: T -> bool)
    requires forall x :: p(x) ==> q(x)
    ensures Where(Drop(s, q), p) == []
  {
    var d := Drop(s, q);
    forall j | 0 <= j < |d| ensures !p(d[j]) {
      assert d[j] in d;
    }
    WhereAt(d, p);
  }

  lemma {:induction false} SumOfDrop<T(!new)>(s: seq<T>, p: T -> bool, q: T -> bool, f: T -> int)
    requires forall x :: p(x) ==> !q(x)
    ensures SumOf(Drop(s, q), p, f) == SumOf(s, p, f)
  {
    if s != [] {
      var x := s[|s| - 1];
      SumOfDrop(s[..|s| - 1], p, q, f);
      if !q(x) {
        SumOfAppend(Drop(s[..|s| - 1], q), x, p, f);
      }
    }
  }

  lemma SumOfDropAll<T(!new)>(s: seq<T>, p: T -> bool, q: T -> bool, f: T -> int)
    requires forall x :: p(x) ==> q(x)
    ensures SumOf(Drop(s, q), p, f) == 0
  {
    var d := Drop(s, q);
    forall j | 0 <= j < |d| ensures !p(d[j]) {
      assert d[j] in d;
    }
    SumOfNone(d, p, f);
  }

  /** A bulk update of the rows of `q` does not touch the rows of a disjoint `p`
      when the rewritten rows do not join `p`. */
  lemma {:induction false} WhereUpdate<T(!new)>(s: seq<T>, p: T -> bool, q: T -> bool, f: T -> T)
    requires forall x :: p(x) ==> !q(x)
    requires forall x :: q(x) ==> !p(f(x))
    ensures Where(UpdateWhere(s, q, f), p) == Where(s, p)
  {
    if s != [] {
      var x := s[|s| - 1];
      WhereUpdate(s[..|s| - 1], p, q, f);
      WhereAppend(UpdateWhere(s[..|s| - 1], q, f), if q(x) then f(x) else x, p);
    }
  }

  /** A bulk update whose rewrite leaves the `q` rows outside `q` leaves no `q` row. */
  lemma {:induction false} CountUpdateClears<T(!new)>(s: seq<T>, q: T -> bool, f: T -> T)
    requires forall x :: q(x) ==> !q(f(x))
    ensures Count(UpdateWhere(s, q, f), q) == 0
  {
    if s != [] {
      var x := s[|s| - 1];
      CountUpdateClears(s[..|s| - 1], q, f);
      WhereAppend(UpdateWhere(s[..|s| - 1], q, f), if q(x) then f(x) else x, q);
    }
  }

  /** Every earlier row stands in relation `r` to every later one. */
  predicate Pairwise<T>(s: seq<T>, r: (T, T) -> bool)
  {
    forall i, j :: 0 <= i < j < |s| ==> r(s[i], s[j])
  }

  /** Deleting rows keeps every pairwise relation of the table (a unique index, ascending ids). */
  lemma {:induction false} DropPairwise<T(!new)>(s: seq<T>, p: T -> bool, r: (T, T) -> bool)
    requires Pairwise(s, r)
    ensures Pairwise(Drop(s, p), r)
  {
    if s != [] {
      var n := |s| - 1;
      var x := s[n];
      var init := s[..n];
      assert Pairwise(init, r) by {
        forall i, j | 0 <= i < j < |init| ensures r(init[i], init[j]) {
          assert init[i] == s[i] && init[j] == s[j];
        }
      }
      DropPairwise(init, p, r);
      if !p(x) {
        var d := Drop(init, p);
        forall i | 0 <= i < |d| ensures r(d[i], x) {
          assert d[i] in init;
          var k :| 0 <= k < n && init[k] == d[i];
          assert s[k] == d[i];
        }
        assert Drop(s, p) == d + [x];
      }
    }
  }

  /** Deleting the rows of `q`, all of which match `p`, lowers the count of `p` by the count of `q`. */
  lemma {:induction false} CountDropSub<T(!new)>(s: seq<T>, p: T -> bool, q: T -> bool)
    requires forall x :: q(x) ==> p(x)
    ensures Count(Drop(s, q), p) + Count(s, q) == Count(s, p)
  {
    if s != [] {
      var x := s[|s| - 1];
      CountDropSub(s[..|s| - 1], p, q);
      if !q(x) {
        WhereAppend(Drop(s[..|s| - 1], q), x, p);
      }
    }
  }

  /** Under a pairwise relation that no two rows of `q` satisfy (a unique
      index), at most one row matches `q`. */
  lemma {:induction false} CountAtMostOne<T(!new)>(s: seq<T>, q: T -> bool, r: (T, T) -> bool)
    requires Pairwise(s, r)
    requires forall a, b :: q(a) && q(b) ==> !r(a, b)
    ensures Count(s, q) <= 1
  {
    if s != [] {
      var n := |s| - 1;
      var init := s[..n];
      assert Pairwise(init, r) by {
        forall i, j | 0 <= i < j < |init| ensures r(init[i], init[j]) {
          assert init[i] == s[i] && init[j] == s[j];
        }
      }
      CountAtMostOne(init, q, r);
      if q(s[n]) {
        forall j | 0 <= j < n ensures !q(init[j]) {
          assert r(s[j], s[n]);
        }
        WhereAt(init, q);
      }
    }
  }

  /** Auto-increment ids: they grow with insertion order and stay below the next id to hand out. */
  predicate IdsBelow<T>(s: seq<T>, id: T -> int, nextId: int)
  {
    (forall i, j :: 0 <= i < j < |s| ==> id(s[i]) < id(s[j]))
    && forall j :: 0 <= j < |s| ==> id(s[j]) < nextId
  }

  /** Ascending ids are distinct: an id names at most one row. */
  lemma IdsUnique<T>(s: seq<T>, id: T -> int, nextId: int, i: int, j: int)
    requires IdsBelow(s, id, nextId) && 0 <= i < |s| && 0 <= j < |s| && i != j
    ensures id(s[i]) != id(s[j])
  {
    if i < j {
      assert id(s[i]) < id(s[j]);
    } else {
      assert id(s[j]) < id(s[i]);
    }
  }

  lemma DropKeepsIds<T(!new)>(s: seq<T>, p: T -> bool, id: T -> int, nextId: int)
    requires IdsBelow(s, id, nextId)
    ensures IdsBelow(Drop(s, p), id, nextId)
  {
    var r := (a: T, b: T) => id(a) < id(b);
    assert Pairwise(s, r);
    DropPairwise(s, p, r);
    var d := Drop(s, p);
    forall j | 0 <= j < |d| ensures id(d[j]) < nextId {
      assert d[j] in s;
    }
    assert Pairwise(d, r);
  }

  /** Appending rows with the next ids, in order. */
  lemma AppendKeepsIds<T>(s: seq<T>, id: T -> int, nextId: int, rows: seq<T>)
    requires IdsBelow(s, id, nextId)
    requires forall k :: 0 <= k < |rows| ==> id(rows[k]) == nextId + k
    ensures IdsBelow(s + rows, id, nextId + |rows|)
  {
    var t := s + rows;
    forall i, j | 0 <= i < j < |t| ensures id(t[i]) < id(t[j]) {
      if j < |s| {
      } else if i < |s| {
        assert id(t[j]) == nextId + (j - |s|);
      } else {
        assert id(t[i]) == nextId + (i - |s|) && id(t[j]) == nextId + (j - |s|);
      }
    }
  }

  lemma SetKeepsIds<T>(s: seq<T>, id: T -> int, nextId: int, i: int, x: T)
    requires IdsBelow(s, id, nextId) && 0 <= i < |s| && id(x) == id(s[i])
    ensures IdsBelow(s[i := x], id, nextId)
  {
    var t := s[i := x];
    forall a, b | 0 <= a < b < |t| ensures id(t[a]) < id(t[b]) {
      assert id(s[a]) < id(s[b]);
    }
  }

  lemma UpdateWhereKeepsIds<T>(s: seq<T>, p: T -> bool, f: T -> T, id: T -> int, nextId: int)
    requires IdsBelow(s, id, nextId)
    requires forall x :: id(f(x)) == id(x)
    ensures IdsBelow(UpdateWhere(s, p, f), id, nextId)
  {
    var t := UpdateWhere(s, p, f);
    forall a | 0 <= a < |t| ensures id(t[a]) == id(s[a]) {
      UpdateWhereAt(s, p, f, a);
    }
  }

  /** `Where` keeps table order: it keeps every pairwise relation. */
  lemma {:induction false} WherePairwise<T(!new)>(s: seq<T>, p: T -> bool, r: (T, T) -> bool)
    requires Pairwise(s, r)
    ensures Pairwise(Where(s, p), r)
  {
    if s != [] {
      var n := |s| - 1;
      var x := s[n];
      var init := s[..n];
      assert Pairwise(init, r) by {
        forall i, j | 0 <= i < j < |init| ensures r(init[i], init[j]) {
          assert init[i] == s[i] && init[j] == s[j];
        }
      }
      WherePairwise(init, p, r);
      if p(x) {
        var w := Where(init, p);
        forall i | 0 <= i < |w| ensures r(w[i], x) {
          assert w[i] in init;
          var k :| 0 <= k < n && init[k] == w[i];
          assert s[k] == w[i];
        }
        assert Where(s, p) == w + [x];
      }
    }
  }

  /** Strictly descending ids: the newest row first. */
  predicate Descending<T>(s: seq<T>, id: T -> int)
  {
    forall i, j :: 0 <= i < j < |s| ==> id(s[i]) > id(s[j])
  }

  lemma NewestDescends<T>(s: seq<T>, id: T -> int)
    requires forall i, j :: 0 <= i < j < |s| ==> id(s[i]) < id(s[j])
    ensures Descending(Newest(s), id)
  {
    var nw := Newest(s);
    forall i, j | 0 <= i < j < |nw| ensures id(nw[i]) > id(nw[j]) {
      NewestAt(s, i);
      NewestAt(s, j);
    }
  }

  lemma PageDescends<T>(s: seq<T>, id: T -> int, skip: int, take: int)
    requires Descending(s, id)
    ensures Descending(Page(s, skip, take), id)
  {
    var from := if skip <= 0 then 0 else if skip < |s| then skip else |s|;
    var r := Page(s, skip, take);
    forall i, j | 0 <= i < j < |r| ensures id(r[i]) > id(r[j]) {
      assert r[i] == s[from + i] && r[j] == s[from + j];
    }
  }

  /** The rows of a query over a table with ascending ids, newest first and
      paged, come in strictly descending id order. */
  lemma NewestPageDescending<T(!new)>(s: seq<T>, p: T -> bool, id: T -> int, nextId: int, skip: int, take: int)
    requires IdsBelow(s, id, nextId)
    ensures Descending(Page(Newest(Where(s, p)), skip, take), id)
  {
    var asc := (a: T, b: T) => id(a) < id(b);
    assert Pairwise(s, asc);
    WherePairwise(s, p, asc);
    var w := Where(s, p);
    assert forall i, j :: 0 <= i < j < |w| ==> asc(w[i], w[j]);
    NewestDescends(w, id);
    PageDescends(Newest(w), id, skip, take);
  }

  /** A newest-first query over a table with ascending ids comes in strictly descending id order. */
  lemma NewestWhereDescending<T(!new)>(s: seq<T>, p: T -> bool, id: T -> int, nextId: int)
    requires IdsBelow(s, id, nextId)
    ensures Descending(Newest(Where(s, p)), id)
  {
    NewestPageDescending(s, p, id, nextId, 0, 0);
    assert Page(Newest(Where(s, p)), 0, 0) == Newest(Where(s, p))[0..];
  }

  /** Overwriting a row that a query does not select, with another it does not select, leaves the query alone. */
  lemma {:induction false} WhereSetOther<T(!new)>(s: seq<T>, i: int, x: T, p: T -> bool)
    requires 0 <= i < |s| && !p(s[i]) && !p(x)
    ensures Where(s[i := x], p) == Where(s, p)
  {
    var n := |s| - 1;
    var t := s[i := x];
    if i == n {
      assert t[..n] == s[..n];
      assert Where(t, p) == Where(t[..n], p);
      assert Where(s, p) == Where(s[..n], p);
    } else {
      assert t[..n] == s[..n][i := x] && t[n] == s[n];
      WhereSetOther(s[..n], i, x, p);
      assert Where(t, p) == if p(s[n]) then Where(t[..n], p) + [s[n]] else Where(t[..n], p);
    }
  }

  /** Every row a paged query lists is one of the selected rows. */
  lemma PageFromWhere<T(!new)>(s: seq<T>, p: T -> bool, skip: int, take: int)
    ensures forall x :: x in Page(Newest(Where(s, p)), skip, take) ==> x in s && p(x)
  {
    var w := Where(s, p);
    var nw := Newest(w);
    forall x | x in Page(nw, skip, take) ensures x in w {
      var from := Skipped(|nw|, skip);
      var k :| 0 <= k < |Page(nw, skip, take)| && Page(nw, skip, take)[k] == x;
      assert x == nw[from + k];
      NewestAt(w, from + k);
    }
  }

  /** `findOne({ where: { id } })` in the service methods. */
  method FindFirst<T>(s: seq<T>, p: T -> bool) returns (r: Option<nat>)
    ensures r == FirstIndex(s, p)
  {
    var i := 0;
    while i < |s|
      invariant 0 <= i <= |s|
      invariant forall j :: 0 <= j < i ==> !p(s[j])
    {
      if p(s[i]) {
        FirstIndexIs(s, p, i);
        return Some(i);
      }
      i := i + 1;
    }
    FirstIndexNone(s, p);
    return None;
  }

  lemma {:induction false} FirstIndexIs<T>(s: seq<T>, p: T -> bool, i: nat)
    requires i < |s| && p(s[i]) && forall j :: 0 <= j < i ==> !p(s[j])
    ensures FirstIndex(s, p) == Some(i)
  {
    if i > 0 {
      FirstIndexIs(s[1..], p, i - 1);
    }
  }

  lemma {:induction false} FirstIndexNone<T>(s: seq<T>, p: T -> bool)
    requires forall j :: 0 <= j < |s| ==> !p(s[j])
    ensures FirstIndex(s, p) == None
  {
    if s != [] {
      FirstIndexNone(s[1..], p);
    }
  }

  /** `delete({ where })`: the surviving rows and `result.affected`. */
  method DeleteWhere<T(!new)>(s: seq<T>, p: T -> bool) returns (kept: seq<T>, affected: nat)
    ensures kept == Drop(s, p)
    ensures affected == Count(s, p)
    ensures affected == 0 ==> kept == s
  {
    kept, affected := [], 0;
    for i := 0 to |s|
      invariant kept == Drop(s[..i], p)
      invariant affected == Count(s[..i], p)
      invariant affected == 0 ==> kept == s[..i]
    {
      assert s[..i + 1][..i] == s[..i];
      if p(s[i]) {
        affected := affected + 1;
      } else {
        kept := kept + [s[i]];
      }
    }
    assert s[..|s|] == s;
  }

  /** `count({ where })`. */
  method CountRows<T(!new)>(s: seq<T>, p: T -> bool) returns (n: nat)
    ensures n == Count(s, p)
  {
    n := 0;
    for i := 0 to |s|
      invariant n == Count(s[..i], p)
    {
      assert s[..i + 1][..i] == s[..i];
      if p(s[i]) {
        n := n + 1;
      }
    }
    assert s[..|s|] == s;
  }

  /** `update({ where }, changes)` over the whole table. */
  method UpdateRows<T>(s: seq<T>, p: T -> bool, f: T -> T) returns (r: seq<T>)
    ensures r == UpdateWhere(s, p, f)
  {
    r := [];
    for i := 0 to |s|
      invariant r == UpdateWhere(s[..i], p, f)
    {
      assert s[..i + 1][..i] == s[..i];
      r := r + [if p(s[i]) then f(s[i]) else s[i]];
    }
    assert s[..|s|] == s;
  }
}
