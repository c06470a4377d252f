/** `favorite.service.ts`: a user's favourite products, at most one row per
    (user, product). The product table is read only; the model passes the
    set of its ids. */
module Favorite {
  import opened Wrappers
  import opened Tables

  /** A `favorite` row. */
  datatype FavoriteRow = FavoriteRow(id: int, userId: int, productId: int)

  /** `where: { userId, productId }`. */
  function SameItem(userId: int, productId: int): FavoriteRow -> bool
  {
    (f: FavoriteRow) => f.userId == userId && f.productId == productId
  }

  /** `where: { productId }`. */
  function ForProduct(productId: int): FavoriteRow -> bool
  {
    (f: FavoriteRow) => f.productId == productId
  }

  /** The unique index on `(userId, productId)`. */
  function DistinctItems(a: FavoriteRow, b: FavoriteRow): bool
  {
    a.userId != b.userId || a.productId != b.productId
  }

  function IdsIncrease(a: FavoriteRow, b: FavoriteRow): bool
  {
    a.id < b.id
  }

  /** The table invariant: one row per (user, product), ascending ids, all below the next id. */
  predicate FavoritesValid(favorites: seq<FavoriteRow>, nextId: int)
  {
    Pairwise(favorites, DistinctItems) && Pairwise(favorites, IdsIncrease)
    && forall j :: 0 <= j < |favorites| ==> favorites[j].id < nextId
  }

  /** `isFavorite(userId, productId)`: whether `findOne({ userId, productId })` finds a row. */
  function IsFavorite(favorites: seq<FavoriteRow>, userId: int, productId: int): (r: bool)
    ensures r <==> exists j :: 0 <= j < |favorites| && favorites[j].userId == userId && favorites[j].productId == productId
  {
    FirstIndex(favorites, SameItem(userId, productId)).Some?
  }

  /** `getFavoriteCount(productId)`: `count({ productId })`. */
  function FavoriteCount(favorites: seq<FavoriteRow>, productId: int): nat
  {
    Count(favorites, ForProduct(productId))
  }

  /** The count is 0 exactly when no user has favourited the product, and
      never exceeds the size of the table. */
  lemma FavoriteCountSpec(favorites: seq<FavoriteRow>, productId: int)
    ensures FavoriteCount(favorites, productId) == 0 <==>
      forall j :: 0 <= j < |favorites| ==> favorites[j].productId != productId
    ensures FavoriteCount(favorites, productId) <= |favorites|
  {
    WhereAt(favorites, ForProduct(productId));
  }

  /** `addFavorite(userId, productId)`: a repeat returns the existing row. */
  function AddFavoriteOutcome(favorites: seq<FavoriteRow>, nextId: int, products: set<int>,
                              userId: int, productId: int): Change<FavoriteRow, FavoriteRow>
  {
    if productId !in products then Change(Err(NotFound("商品不存在")), favorites)
    else match FirstIndex(favorites, SameItem(userId, productId))
      case Some(i) => Change(Ok(favorites[i]), favorites)
      case None =>
        var row := FavoriteRow(nextId, userId, productId);
        Change(Ok(row), favorites + [row])
  }

  /** The id counter after `addFavorite`: one more only when a row was inserted. */
  function NextIdAfterAdd(favorites: seq<FavoriteRow>, nextId: int, products: set<int>, userId: int, productId: int): int
  {
    if productId in products && !IsFavorite(favorites, userId, productId) then nextId + 1 else nextId
  }

  /** `addFavorite` fails only for an unknown product, changing nothing; on
      success the product is a favourite of the user, the row returned is
      the user's row for it, the table keeps its invariant, and the product's
      favourite count rises by one exactly when it was not yet a favourite.
      A repeat leaves the table as it was; a new pair appends one row with
      the next id and changes nothing else. */
  lemma AddFavoriteSpec(favorites: seq<FavoriteRow>, nextId: int, products: set<int>, userId: int, productId: int)
    requires FavoritesValid(favorites, nextId)
    ensures AddFavoriteOutcome(favorites, nextId, products, userId, productId).result.Err?
      <==> productId !in products
    ensures AddFavoriteOutcome(favorites, nextId, products, userId, productId).result.Err? ==>
      AddFavoriteOutcome(favorites, nextId, products, userId, productId).rows == favorites
    ensures AddFavoriteOutcome(favorites, nextId, products, userId, productId).result.Ok? ==>
      var o := AddFavoriteOutcome(favorites, nextId, products, userId, productId);
      IsFavorite(o.rows, userId, productId)
      && o.result.value in o.rows && o.result.value.userId == userId && o.result.value.productId == productId
      && FavoritesValid(o.rows, NextIdAfterAdd(favorites, nextId, products, userId, productId))
      && FavoriteCount(o.rows, productId)
         == FavoriteCount(favorites, productId) + (if IsFavorite(favorites, userId, productId) then 0 else 1)
    ensures forall p :: p != productId ==>
      FavoriteCount(AddFavoriteOutcome(favorites, nextId, products, userId, productId).rows, p) == FavoriteCount(favorites, p)
    ensures IsFavorite(favorites, userId, productId) ==>
      AddFavoriteOutcome(favorites, nextId, products, userId, productId).rows == favorites
    ensures productId in products && !IsFavorite(favorites, userId, productId) ==>
      AddFavoriteOutcome(favorites, nextId, products, userId, productId).rows
      == favorites + [FavoriteRow(nextId, userId, productId)]
  {
    if productId in products && !IsFavorite(favorites, userId, productId) {
      var row := FavoriteRow(nextId, userId, productId);
      assert AddFavoriteOutcome(favorites, nextId, products, userId, productId).rows == favorites + [row];
      InsertFavorite(favorites, nextId, row);
    }
  }

  /** Appending a fresh row for a pair that is not yet a favourite. */
  lemma InsertFavorite(favorites: seq<FavoriteRow>, nextId: int, row: FavoriteRow)
    requires FavoritesValid(favorites, nextId) && row.id == nextId
    requires !IsFavorite(favorites, row.userId, row.productId)
    ensures IsFavorite(favorites + [row], row.userId, row.productId)
    ensures FavoritesValid(favorites + [row], nextId + 1)
    ensures FavoriteCount(favorites + [row], row.productId) == FavoriteCount(favorites, row.productId) + 1
    ensures forall p :: p != row.productId ==> FavoriteCount(favorites + [row], p) == FavoriteCount(favorites, p)
  {
    var t := favorites + [row];
    WhereAppend(favorites, row, ForProduct(row.productId));
    forall p | p != row.productId ensures FavoriteCount(t, p) == FavoriteCount(favorites, p) {
      WhereAppend(favorites, row, ForProduct(p));
    }
    forall a, b | 0 <= a < b < |t| ensures DistinctItems(t[a], t[b]) && IdsIncrease(t[a], t[b]) {
      if b < |favorites| {
        assert DistinctItems(favorites[a], favorites[b]) && IdsIncrease(favorites[a], favorites[b]);
      }
    }
    assert t[|favorites|] == row;
  }

  /** Adding a favourite twice leaves the table as adding it once. */
  lemma AddFavoriteIdempotent(favorites: seq<FavoriteRow>, nextId: int, products: set<int>, userId: int, productId: int)
    requires FavoritesValid(favorites, nextId)
    ensures var once := AddFavoriteOutcome(favorites, nextId, products, userId, productId);
      var twice := AddFavoriteOutcome(once.rows, NextIdAfterAdd(favorites, nextId, products, userId, productId),
                                      products, userId, productId);
      twice.rows == once.rows && twice.result == once.result
  {
    AddFavoriteSpec(favorites, nextId, products, userId, productId);
  }

  /** `removeFavorite(userId, productId)`: `delete({ userId, productId })`. */
  function RemoveFavoriteOutcome(favorites: seq<FavoriteRow>, userId: int, productId: int): Change<Unit, FavoriteRow>
  {
    var kept := Drop(favorites, SameItem(userId, productId));
    if Count(favorites, SameItem(userId, productId)) == 0 then Change(Err(NotFound("收藏不存在")), kept)
    else Change(Ok(Unit), kept)
  }

  /** `removeFavorite` fails exactly when the product is not a favourite of
      the user, changing nothing; it deletes that one pair's row and keeps
      every other row; afterwards the product is not a favourite, and on
      success its favourite count has dropped by one. */
  lemma RemoveFavoriteSpec(favorites: seq<FavoriteRow>, nextId: int, userId: int, productId: int)
    requires FavoritesValid(favorites, nextId)
    ensures RemoveFavoriteOutcome(favorites, userId, productId).result.Err? <==> !IsFavorite(favorites, userId, productId)
    ensures RemoveFavoriteOutcome(favorites, userId, productId).result.Err? ==>
      RemoveFavoriteOutcome(favorites, userId, productId).rows == favorites
    ensures forall f :: f in RemoveFavoriteOutcome(favorites, userId, productId).rows <==>
      f in favorites && !(f.userId == userId && f.productId == productId)
    ensures !IsFavorite(RemoveFavoriteOutcome(favorites, userId, productId).rows, userId, productId)
    ensures RemoveFavoriteOutcome(favorites, userId, productId).result.Ok? ==>
      FavoriteCount(RemoveFavoriteOutcome(favorites, userId, productId).rows, productId) + 1
      == FavoriteCount(favorites, productId)
  {
    var q := SameItem(userId, productId);
    var kept := Drop(favorites, q);
    WhereAt(favorites, q);
    if Count(favorites, q) == 0 {
      DropNothing(favorites, q);
    }
    CountAtMostOne(favorites, q, DistinctItems);
    CountDropSub(favorites, ForProduct(productId), q);
    forall j | 0 <= j < |kept| ensures !q(kept[j]) {
      assert kept[j] in favorites;
    }
  }

  /** `removeFavorite` keeps the table's invariant. */
  lemma RemoveFavoriteKeepsValid(favorites: seq<FavoriteRow>, nextId: int, userId: int, productId: int)
    requires FavoritesValid(favorites, nextId)
    ensures FavoritesValid(RemoveFavoriteOutcome(favorites, userId, productId).rows, nextId)
  {
    var q := SameItem(userId, productId);
    var kept := Drop(favorites, q);
    DropPairwise(favorites, q, DistinctItems);
    DropPairwise(favorites, q, IdsIncrease);
    forall j | 0 <= j < |kept| ensures kept[j].id < nextId {
      assert kept[j] in favorites;
    }
  }

  /** The favourite table and its auto-increment counter. */
  class FavoriteService {
    var favorites: seq<FavoriteRow>
    var nextId: int

    ghost predicate Valid()
      reads this
    {
      FavoritesValid(favorites, nextId)
    }

    constructor ()
      ensures Valid() && favorites == []
    {
      favorites, nextId := [], 1;
    }

    method AddFavorite(products: set<int>, userId: int, productId: int) returns (r: Result<FavoriteRow>)
      requires Valid()
      modifies this
      ensures Valid()
      ensures r == AddFavoriteOutcome(old(favorites), old(nextId), products, userId, productId).result
      ensures favorites == AddFavoriteOutcome(old(favorites), old(nextId), products, userId, productId).rows
      ensures nextId == NextIdAfterAdd(old(favorites), old(nextId), products, userId, productId)
    {
      if productId !in products {
        return Err(NotFound("商品不存在"));
      }
      var existing := FindFirst(favorites, SameItem(userId, productId));
      if existing.Some? {
        return Ok(favorites[existing.value]);
      }
      var favorite := FavoriteRow(nextId, userId, productId);
      assert AddFavoriteOutcome(favorites, nextId, products, userId, productId) == Change(Ok(favorite), favorites + [favorite]);
      InsertFavorite(favorites, nextId, favorite);
      favorites := favorites + [favorite];
      nextId := nextId + 1;
      r := Ok(favorite);
    }

    method RemoveFavorite(userId: int, productId: int) returns (r: Result<Unit>)
      requires Valid()
      modifies this`favorites
      ensures Valid()
      ensures r == RemoveFavoriteOutcome(old(favorites), userId, productId).result
      ensures favorites == RemoveFavoriteOutcome(old(favorites), userId, productId).rows
    {
      RemoveFavoriteSpec(favorites, nextId, userId, productId);
      RemoveFavoriteKeepsValid(favorites, nextId, userId, productId);
      var affected;
      favorites, affected := DeleteWhere(favorites, SameItem(userId, productId));
      r := if affected == 0 then Err(NotFound("收藏不存在")) else Ok(Unit);
    }
  }
}
