/** `cart.service.ts`: each user's cart, one row per product, bounded by the
    product's stock. The product table is read only; the model passes it as
    a map from product id to stock. */
module Cart {
  import opened Wrappers
  import opened Tables

  /** A `cart` row. */
  datatype CartRow = CartRow(id: int, userId: int, productId: int, quantity: int)

  /** `where: { userId, productId }`. */
  function SameItem(userId: int, productId: int): CartRow -> bool
  {
    (c: CartRow) => c.userId == userId && c.productId == productId
  }

  /** `where: { id, userId }`. */
  function OwnedRow(id: int, userId: int): CartRow -> bool
  {
    (c: CartRow) => c.id == id && c.userId == userId
  }

  /** `where: { userId }`. */
  function OfUser(userId: int): CartRow -> bool
  {
    (c: CartRow) => c.userId == userId
  }

  function Quantity(c: CartRow): int
  {
    c.quantity
  }

  /** The amount of a product in a user's cart (0 when it is not there). */
  function QuantityOf(carts: seq<CartRow>, userId: int, productId: int): int
  {
    SumOf(carts, SameItem(userId, productId), Quantity)
  }

  /** `getCartCount(userId)`: `SUM(cart.quantity)` over the user's rows, and 0 when there are none. */
  function CartCount(carts: seq<CartRow>, userId: int): (total: int)
    ensures (forall j :: 0 <= j < |carts| ==> carts[j].userId != userId) ==> total == 0
  {
    if forall j :: 0 <= j < |carts| ==> carts[j].userId != userId then
      SumOfNone(carts, OfUser(userId), Quantity);
      SumOf(carts, OfUser(userId), Quantity)
    else SumOf(carts, OfUser(userId), Quantity)
  }

  predicate HasItem(carts: seq<CartRow>, userId: int, productId: int)
  {
    exists j :: 0 <= j < |carts| && carts[j].userId == userId && carts[j].productId == productId
  }

  predicate HasRow(carts: seq<CartRow>, id: int, userId: int)
  {
    exists j :: 0 <= j < |carts| && carts[j].id == id && carts[j].userId == userId
  }

  /** The unique index on `(userId, productId)`. */
  function DistinctItems(a: CartRow, b: CartRow): bool
  {
    a.userId != b.userId || a.productId != b.productId
  }

  /** Auto-increment ids grow with insertion order. */
  function IdsIncrease(a: CartRow, b: CartRow): bool
  {
    a.id < b.id
  }

  /** The table invariant: one row per (user, product), ascending ids, all below the next id. */
  predicate CartsValid(carts: seq<CartRow>, nextId: int)
  {
    Pairwise(carts, DistinctItems) && Pairwise(carts, IdsIncrease)
    && forall j :: 0 <= j < |carts| ==> carts[j].id < nextId
  }

  /** The quantity `addToCart` adds when the caller passes none. */
  const DefaultQuantity := 1

  /** `addToCart(userId, productId, quantity)`. */
  function AddToCartOutcome(carts: seq<CartRow>, nextId: int, stock: map<int, int>,
                            userId: int, productId: int, quantity: int): Change<CartRow, CartRow>
  {
    if productId !in stock then Change(Err(NotFound("商品不存在")), carts)
    else if stock[productId] < quantity then Change(Err(BadRequest("库存不足")), carts)
    else match FirstIndex(carts, SameItem(userId, productId))
      case Some(i) =>
        var newQuantity := carts[i].quantity + quantity;
        if stock[productId] < newQuantity then Change(Err(BadRequest("库存不足")), carts)
        else
          var row := carts[i].(quantity := newQuantity);
          Change(Ok(row), carts[i := row])
      case None =>
        var row := CartRow(nextId, userId, productId, quantity);
        Change(Ok(row), carts + [row])
  }

  /** Called without a quantity, `addToCart` succeeds exactly when the
      product exists and its stock is at least one and at least one more than the cart holds,
      and it then adds exactly one unit to the user's cart. */
  lemma AddToCartDefault(carts: seq<CartRow>, nextId: int, stock: map<int, int>, userId: int, productId: int)
    requires CartsValid(carts, nextId)
    ensures var o := AddToCartOutcome(carts, nextId, stock, userId, productId, DefaultQuantity);
      o.result.Ok? <==>
        productId in stock && DefaultQuantity <= stock[productId]
        && QuantityOf(carts, userId, productId) + DefaultQuantity <= stock[productId]
    ensures var o := AddToCartOutcome(carts, nextId, stock, userId, productId, DefaultQuantity);
      o.result.Ok? ==>
        QuantityOf(o.rows, userId, productId) == QuantityOf(carts, userId, productId) + 1
        && CartCount(o.rows, userId) == CartCount(carts, userId) + 1
  {
    QuantityOfRow(carts, nextId, userId, productId);
    if AddToCartOutcome(carts, nextId, stock, userId, productId, DefaultQuantity).result.Ok? {
      AddToCartAccepts(carts, nextId, stock, userId, productId, DefaultQuantity);
    }
  }

  /** With one row per (user, product), the amount in the cart is that row's quantity. */
  lemma QuantityOfRow(carts: seq<CartRow>, nextId: int, userId: int, productId: int)
    requires CartsValid(carts, nextId)
    ensures match FirstIndex(carts, SameItem(userId, productId))
      case Some(i) => QuantityOf(carts, userId, productId) == carts[i].quantity
      case None => QuantityOf(carts, userId, productId) == 0 && !HasItem(carts, userId, productId)
  {
    match FirstIndex(carts, SameItem(userId, productId))
    case None =>
      SumOfNone(carts, SameItem(userId, productId), Quantity);
    case Some(i) =>
      var p := SameItem(userId, productId);
      var zeroed := carts[i := carts[i].(quantity := 0)];
      forall j | 0 <= j < |zeroed| ensures !p(zeroed[j]) || zeroed[j].quantity == 0 {
        if j != i {
          assert DistinctItems(if i < j then carts[i] else carts[j], if i < j then carts[j] else carts[i]);
        }
      }
      SumOfOnlyZero(zeroed, p);
      SumOfUpdate(carts, i, carts[i].(quantity := 0), p, Quantity);
  }

  lemma {:induction false} SumOfOnlyZero(s: seq<CartRow>, p: CartRow -> bool)
    requires forall j :: 0 <= j < |s| ==> !p(s[j]) || s[j].quantity == 0
    ensures SumOf(s, p, Quantity) == 0
  {
    if s != [] {
      SumOfOnlyZero(s[..|s| - 1], p);
    }
  }

  /** `addToCart` fails, leaving the table as it was, exactly when the product
      is unknown (not found) or the cart would then hold more than the stock
      (bad request). */
  lemma AddToCartRejects(carts: seq<CartRow>, nextId: int, stock: map<int, int>,
                         userId: int, productId: int, quantity: int)
    requires CartsValid(carts, nextId)
    ensures AddToCartOutcome(carts, nextId, stock, userId, productId, quantity).result.Err? ==>
      AddToCartOutcome(carts, nextId, stock, userId, productId, quantity).rows == carts
    ensures (AddToCartOutcome(carts, nextId, stock, userId, productId, quantity).result.Err?
             && AddToCartOutcome(carts, nextId, stock, userId, productId, quantity).result.failure.NotFound?)
      <==> productId !in stock
    ensures AddToCartOutcome(carts, nextId, stock, userId, productId, quantity).result.Err?
      <==> productId !in stock || stock[productId] < quantity
           || stock[productId] < QuantityOf(carts, userId, productId) + quantity
  {
    QuantityOfRow(carts, nextId, userId, productId);
  }

  /** A successful `addToCart` raises the amount of that product in the
      user's cart by `quantity`, to at most the stock; it updates the existing
      row when there is one and otherwise appends exactly one row; the
      amounts of every other (user, product) stay as they were. */
  lemma AddToCartAccepts(carts: seq<CartRow>, nextId: int, stock: map<int, int>,
                         userId: int, productId: int, quantity: int)
    requires CartsValid(carts, nextId)
    requires AddToCartOutcome(carts, nextId, stock, userId, productId, quantity).result.Ok?
    ensures CartsValid(AddToCartOutcome(carts, nextId, stock, userId, productId, quantity).rows,
                       if HasItem(carts, userId, productId) then nextId else nextId + 1)
    ensures QuantityOf(AddToCartOutcome(carts, nextId, stock, userId, productId, quantity).rows, userId, productId)
      == QuantityOf(carts, userId, productId) + quantity
    ensures productId in stock
      && QuantityOf(AddToCartOutcome(carts, nextId, stock, userId, productId, quantity).rows, userId, productId)
         <= stock[productId]
    ensures forall u, p :: (u != userId || p != productId) ==>
      QuantityOf(AddToCartOutcome(carts, nextId, stock, userId, productId, quantity).rows, u, p) == QuantityOf(carts, u, p)
    ensures CartCount(AddToCartOutcome(carts, nextId, stock, userId, productId, quantity).rows, userId)
      == CartCount(carts, userId) + quantity
    ensures forall v :: v != userId ==>
      CartCount(AddToCartOutcome(carts, nextId, stock, userId, productId, quantity).rows, v) == CartCount(carts, v)
    ensures HasItem(carts, userId, productId) ==>
      |AddToCartOutcome(carts, nextId, stock, userId, productId, quantity).rows| == |carts|
    ensures !HasItem(carts, userId, productId) ==>
      AddToCartOutcome(carts, nextId, stock, userId, productId, quantity).rows
      == carts + [CartRow(nextId, userId, productId, quantity)]
  {
    QuantityOfRow(carts, nextId, userId, productId);
    var o := AddToCartOutcome(carts, nextId, stock, userId, productId, quantity);
    match FirstIndex(carts, SameItem(userId, productId))
    case Some(i) =>
      var row := carts[i].(quantity := carts[i].quantity + quantity);
      assert o.rows == carts[i := row];
      UpdateKeepsValid(carts, nextId, i, row);
      SumOfUpdate(carts, i, row, SameItem(userId, productId), Quantity);
      forall u, p | u != userId || p != productId
        ensures QuantityOf(o.rows, u, p) == QuantityOf(carts, u, p)
      {
        SumOfUpdate(carts, i, row, SameItem(u, p), Quantity);
      }
      SumOfUpdate(carts, i, row, OfUser(userId), Quantity);
      forall v | v != userId ensures CartCount(o.rows, v) == CartCount(carts, v) {
        SumOfUpdate(carts, i, row, OfUser(v), Quantity);
      }
    case None =>
      var row := CartRow(nextId, userId, productId, quantity);
      AppendKeepsValid(carts, nextId, row);
      SumOfAppend(carts, row, SameItem(userId, productId), Quantity);
      forall u, p | u != userId || p != productId
        ensures QuantityOf(o.rows, u, p) == QuantityOf(carts, u, p)
      {
        SumOfAppend(carts, row, SameItem(u, p), Quantity);
      }
      SumOfAppend(carts, row, OfUser(userId), Quantity);
      forall v | v != userId ensures CartCount(o.rows, v) == CartCount(carts, v) {
        SumOfAppend(carts, row, OfUser(v), Quantity);
      }
  }

  /** Rewriting a row's quantity keeps the table invariant. */
  lemma UpdateKeepsValid(carts: seq<CartRow>, nextId: int, i: int, row: CartRow)
    requires CartsValid(carts, nextId) && 0 <= i < |carts|
    requires row.id == carts[i].id && row.userId == carts[i].userId && row.productId == carts[i].productId
    ensures CartsValid(carts[i := row], nextId)
  {
    var t := carts[i := row];
    forall a, b | 0 <= a < b < |t| ensures DistinctItems(t[a], t[b]) && IdsIncrease(t[a], t[b]) {
      assert DistinctItems(carts[a], carts[b]) && IdsIncrease(carts[a], carts[b]);
    }
  }

  /** Appending a row for a (user, product) not yet in the table, with the next id, keeps the invariant. */
  lemma AppendKeepsValid(carts: seq<CartRow>, nextId: int, row: CartRow)
    requires CartsValid(carts, nextId) && row.id == nextId
    requires forall j :: 0 <= j < |carts| ==> !SameItem(row.userId, row.productId)(carts[j])
    ensures CartsValid(carts + [row], nextId + 1)
  {
    var t := carts + [row];
    forall a, b | 0 <= a < b < |t| ensures DistinctItems(t[a], t[b]) && IdsIncrease(t[a], t[b]) {
      if b < |carts| {
        assert DistinctItems(carts[a], carts[b]) && IdsIncrease(carts[a], carts[b]);
      } else {
        assert !SameItem(row.userId, row.productId)(carts[a]);
      }
    }
  }

  /** `updateCartItem(userId, cartId, quantity)`. A caller's row whose product
      has left the product table makes `cart.product.stock` throw (HTTP 500). */
  function UpdateCartItemOutcome(carts: seq<CartRow>, stock: map<int, int>,
                                 userId: int, cartId: int, quantity: int): Change<CartRow, CartRow>
  {
    match FirstIndex(carts, OwnedRow(cartId, userId))
    case None => Change(Err(NotFound("购物车商品不存在")), carts)
    case Some(i) =>
      if quantity <= 0 then Change(Err(BadRequest("数量必须大于0")), carts)
      else if carts[i].productId !in stock then Change(Err(Internal("product is null")), carts)
      else if stock[carts[i].productId] < quantity then Change(Err(BadRequest("库存不足")), carts)
      else
        var row := carts[i].(quantity := quantity);
        Change(Ok(row), carts[i := row])
  }

  /** `updateCartItem` finds only the caller's own row (not found otherwise),
      demands `0 < quantity <= stock`, and on success sets exactly that row's
      quantity to `quantity`, every other row unchanged. */
  lemma UpdateCartItemSpec(carts: seq<CartRow>, nextId: int, stock: map<int, int>,
                           userId: int, cartId: int, quantity: int)
    requires CartsValid(carts, nextId)
    ensures UpdateCartItemOutcome(carts, stock, userId, cartId, quantity).result.Err? ==>
      UpdateCartItemOutcome(carts, stock, userId, cartId, quantity).rows == carts
    ensures (UpdateCartItemOutcome(carts, stock, userId, cartId, quantity).result.Err?
             && UpdateCartItemOutcome(carts, stock, userId, cartId, quantity).result.failure.NotFound?)
      <==> !HasRow(carts, cartId, userId)
    ensures UpdateCartItemOutcome(carts, stock, userId, cartId, quantity).result.Ok? ==>
      0 < quantity
      && CartsValid(UpdateCartItemOutcome(carts, stock, userId, cartId, quantity).rows, nextId)
      && |UpdateCartItemOutcome(carts, stock, userId, cartId, quantity).rows| == |carts|
      && forall j :: 0 <= j < |carts| ==>
        UpdateCartItemOutcome(carts, stock, userId, cartId, quantity).rows[j]
        == if carts[j].id == cartId then carts[j].(quantity := quantity) else carts[j]
    ensures UpdateCartItemOutcome(carts, stock, userId, cartId, quantity).result.Ok? ==>
      var row := UpdateCartItemOutcome(carts, stock, userId, cartId, quantity).result.value;
      row.id == cartId && row.userId == userId && row.quantity == quantity
      && row.productId in stock && quantity <= stock[row.productId]
  {
    match FirstIndex(carts, OwnedRow(cartId, userId))
    case None =>
    case Some(i) =>
      if 0 < quantity && carts[i].productId in stock && quantity <= stock[carts[i].productId] {
        UpdateKeepsValid(carts, nextId, i, carts[i].(quantity := quantity));
        forall j | 0 <= j < |carts| && j != i ensures carts[j].id != cartId {
          assert IdsIncrease(if i < j then carts[i] else carts[j], if i < j then carts[j] else carts[i]);
        }
      }
  }

  /** `removeCartItem(userId, cartId)`: `delete({ id, userId })`, not found when nothing was deleted. */
  function RemoveCartItemOutcome(carts: seq<CartRow>, userId: int, cartId: int): Change<Unit, CartRow>
  {
    var kept := Drop(carts, OwnedRow(cartId, userId));
    if Count(carts, OwnedRow(cartId, userId)) == 0 then Change(Err(NotFound("购物车商品不存在")), kept)
    else Change(Ok(Unit), kept)
  }

  /** `removeCartItem` fails exactly when the caller has no row with that id,
      and then changes nothing; it deletes only that row, and no other
      user's cart changes. */
  lemma RemoveCartItemSpec(carts: seq<CartRow>, nextId: int, userId: int, cartId: int)
    requires CartsValid(carts, nextId)
    ensures RemoveCartItemOutcome(carts, userId, cartId).result.Err? <==> !HasRow(carts, cartId, userId)
    ensures RemoveCartItemOutcome(carts, userId, cartId).result.Err? ==> RemoveCartItemOutcome(carts, userId, cartId).rows == carts
    ensures forall c :: c in RemoveCartItemOutcome(carts, userId, cartId).rows <==>
      c in carts && !(c.id == cartId && c.userId == userId)
    ensures forall v :: v != userId ==>
      Where(RemoveCartItemOutcome(carts, userId, cartId).rows, OfUser(v)) == Where(carts, OfUser(v))
    ensures CartsValid(RemoveCartItemOutcome(carts, userId, cartId).rows, nextId)
  {
    var p := OwnedRow(cartId, userId);
    WhereAt(carts, p);
    DropKeepsValid(carts, nextId, p);
    forall v | v != userId ensures Where(Drop(carts, p), OfUser(v)) == Where(carts, OfUser(v)) {
      WhereDrop(carts, OfUser(v), p);
    }
    if Count(carts, p) == 0 {
      DropNothing(carts, p);
    }
  }

  lemma DropKeepsValid(carts: seq<CartRow>, nextId: int, p: CartRow -> bool)
    requires CartsValid(carts, nextId)
    ensures CartsValid(Drop(carts, p), nextId)
  {
    DropPairwise(carts, p, DistinctItems);
    DropPairwise(carts, p, IdsIncrease);
    var d := Drop(carts, p);
    forall j | 0 <= j < |d| ensures d[j].id < nextId {
      assert d[j] in carts;
    }
  }

  /** `clearCart(userId)`: `delete({ userId })`. */
  function ClearCartOutcome(carts: seq<CartRow>, userId: int): seq<CartRow>
  {
    Drop(carts, OfUser(userId))
  }

  /** After `clearCart` the user has no row and a cart count of 0, and every
      other user's rows are exactly as before. */
  lemma ClearCartSpec(carts: seq<CartRow>, nextId: int, userId: int)
    requires CartsValid(carts, nextId)
    ensures Where(ClearCartOutcome(carts, userId), OfUser(userId)) == []
    ensures CartCount(ClearCartOutcome(carts, userId), userId) == 0
    ensures forall v :: v != userId ==> Where(ClearCartOutcome(carts, userId), OfUser(v)) == Where(carts, OfUser(v))
    ensures CartsValid(ClearCartOutcome(carts, userId), nextId)
  {
    WhereDropAll(carts, OfUser(userId), OfUser(userId));
    SumOfDropAll(carts, OfUser(userId), OfUser(userId), Quantity);
    forall v | v != userId ensures Where(Drop(carts, OfUser(userId)), OfUser(v)) == Where(carts, OfUser(v)) {
      WhereDrop(carts, OfUser(v), OfUser(userId));
    }
    DropKeepsValid(carts, nextId, OfUser(userId));
  }

  /** The cart table and its auto-increment counter. */
  class CartService {
    var carts: seq<CartRow>
    var nextId: int

    ghost predicate Valid()
      reads this
    {
      CartsValid(carts, nextId)
    }

    constructor ()
      ensures Valid() && carts == []
    {
      carts, nextId := [], 1;
    }

    method AddToCart(stock: map<int, int>, userId: int, productId: int, quantity: int) returns (r: Result<CartRow>)
      requires Valid()
      modifies this
      ensures Valid()
      ensures r == AddToCartOutcome(old(carts), old(nextId), stock, userId, productId, quantity).result
      ensures carts == AddToCartOutcome(old(carts), old(nextId), stock, userId, productId, quantity).rows
      ensures nextId == if r.Ok? && !HasItem(old(carts), userId, productId) then old(nextId) + 1 else old(nextId)
    {
      if productId !in stock {
        return Err(NotFound("商品不存在"));
      }
      if stock[productId] < quantity {
        return Err(BadRequest("库存不足"));
      }
      var existingCart := FindFirst(carts, SameItem(userId, productId));
      if existingCart.Some? {
        var i := existingCart.value;
        var newQuantity := carts[i].quantity + quantity;
        if stock[productId] < newQuantity {
          return Err(BadRequest("库存不足"));
        }
        var row := carts[i].(quantity := newQuantity);
        assert AddToCartOutcome(carts, nextId, stock, userId, productId, quantity) == Change(Ok(row), carts[i := row]);
        assert HasItem(carts, userId, productId) by {
          assert carts[i].userId == userId && carts[i].productId == productId;
        }
        UpdateKeepsValid(carts, nextId, i, row);
        carts := carts[i := row];
        r := Ok(row);
      } else {
        var row := CartRow(nextId, userId, productId, quantity);
        assert AddToCartOutcome(carts, nextId, stock, userId, productId, quantity) == Change(Ok(row), carts + [row]);
        assert !HasItem(carts, userId, productId) by {
          forall j | 0 <= j < |carts| ensures !(carts[j].userId == userId && carts[j].productId == productId) {
            assert !SameItem(userId, productId)(carts[j]);
          }
        }
        AppendKeepsValid(carts, nextId, row);
        carts := carts + [row];
        nextId := nextId + 1;
        r := Ok(row);
      }
    }

    method UpdateCartItem(stock: map<int, int>, userId: int, cartId: int, quantity: int) returns (r: Result<CartRow>)
      requires Valid()
      modifies this`carts
      ensures Valid()
      ensures r == UpdateCartItemOutcome(old(carts), stock, userId, cartId, quantity).result
      ensures carts == UpdateCartItemOutcome(old(carts), stock, userId, cartId, quantity).rows
    {
      UpdateCartItemSpec(carts, nextId, stock, userId, cartId, quantity);
      var found := FindFirst(carts, OwnedRow(cartId, userId));
      if found.None? {
        return Err(NotFound("购物车商品不存在"));
      }
      var i := found.value;
      if quantity <= 0 {
        return Err(BadRequest("数量必须大于0"));
      }
      if carts[i].productId !in stock {
        return Err(Internal("product is null"));
      }
      if stock[carts[i].productId] < quantity {
        return Err(BadRequest("库存不足"));
      }
      var row := carts[i].(quantity := quantity);
      carts := carts[i := row];
      r := Ok(row);
    }

    method RemoveCartItem(userId: int, cartId: int) returns (r: Result<Unit>)
      requires Valid()
      modifies this`carts
      ensures Valid()
      ensures r == RemoveCartItemOutcome(old(carts), userId, cartId).result
      ensures carts == RemoveCartItemOutcome(old(carts), userId, cartId).rows
    {
      RemoveCartItemSpec(carts, nextId, userId, cartId);
      var affected;
      carts, affected := DeleteWhere(carts, OwnedRow(cartId, userId));
      r := if affected == 0 then Err(NotFound("购物车商品不存在")) else Ok(Unit);
    }

    method ClearCart(userId: int)
      requires Valid()
      modifies this`carts
      ensures Valid()
      ensures carts == ClearCartOutcome(old(carts), userId)
    {
      ClearCartSpec(carts, nextId, userId);
      var affected;
      carts, affected := DeleteWhere(carts, OfUser(userId));
    }

    method GetCartCount(userId: int) returns (total: int)
      ensures total == CartCount(carts, userId)
    {
      total := 0;
      for i := 0 to |carts|
        invariant total == CartCount(carts[..i], userId)
      {
        assert carts[..i + 1][..i] == carts[..i];
        if carts[i].userId == userId {
          total := total + carts[i].quantity;
        }
      }
      assert carts[..|carts|] == carts;
    }
  }
}
