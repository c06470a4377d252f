/** `order.service.ts`: placing an order with its items, and a user's order history. */
module Order {
  import opened Wrappers
  import opened Tables

  /** An `order` row. */
  datatype OrderRow = OrderRow(
    id: int,
    orderNo: string,
    userId: int,
    totalAmount: real,
    status: string,
    addressId: int,
    paymentMethod: Option<string>)

  /** An `order_item` row. */
  datatype OrderItemRow = OrderItemRow(
    id: int,
    orderId: int,
    productId: int,
    quantity: real,
    price: real,
    subtotal: real)

  /** An `OrderItemDto` and a `CreateOrderDto`. */
  datatype ItemInput = ItemInput(productId: int, quantity: real, price: real)
  datatype OrderInput = OrderInput(totalAmount: real, addressId: int, items: seq<ItemInput>)

  /** An order loaded with `relations: ['items']`. */
  datatype OrderView = OrderView(order: OrderRow, items: seq<OrderItemRow>)

  /** The outcome of `create`, which writes both tables. */
  datatype Placement = Placement(result: Result<OrderView>, orders: seq<OrderRow>, items: seq<OrderItemRow>)

  function OrderId(o: OrderRow): int
  {
    o.id
  }

  function ItemId(i: OrderItemRow): int
  {
    i.id
  }

  function OfUser(userId: int): OrderRow -> bool
  {
    (o: OrderRow) => o.userId == userId
  }

  function OfOrder(orderId: int): OrderItemRow -> bool
  {
    (i: OrderItemRow) => i.orderId == orderId
  }

  function WithOrderNo(orderNo: string): OrderRow -> bool
  {
    (o: OrderRow) => o.orderNo == orderNo
  }

  function DistinctOrderNo(a: OrderRow, b: OrderRow): bool
  {
    a.orderNo != b.orderNo
  }

  predicate HasOrder(orders: seq<OrderRow>, id: int)
  {
    exists k :: 0 <= k < |orders| && orders[k].id == id
  }

  /** Auto-increment ids in both tables, the unique `orderNo` column, and
      every item belonging to an existing order. */
  predicate OrdersValid(orders: seq<OrderRow>, nextOrderId: int, items: seq<OrderItemRow>, nextItemId: int)
  {
    IdsBelow(orders, OrderId, nextOrderId)
    && IdsBelow(items, ItemId, nextItemId)
    && Pairwise(orders, DistinctOrderNo)
    && forall j :: 0 <= j < |items| ==> HasOrder(orders, items[j].orderId)
  }

  /** The order row `create` saves: status `pending`, amount and address as requested. */
  function NewOrder(id: int, orderNo: string, userId: int, input: OrderInput): OrderRow
  {
    OrderRow(id, orderNo, userId, input.totalAmount, "pending", input.addressId, None)
  }

  /** `createDto.items.map(...)`: one item per requested item, in order, priced `quantity * price`. */
  function NewItems(orderId: int, nextItemId: int, requested: seq<ItemInput>): (r: seq<OrderItemRow>)
    ensures |r| == |requested|
    ensures forall k :: 0 <= k < |r| ==>
      r[k].id == nextItemId + k && r[k].orderId == orderId
      && r[k].productId == requested[k].productId && r[k].quantity == requested[k].quantity
      && r[k].price == requested[k].price && r[k].subtotal == requested[k].quantity * requested[k].price
  {
    seq(|requested|, k requires 0 <= k < |requested| =>
      OrderItemRow(nextItemId + k, orderId, requested[k].productId, requested[k].quantity, requested[k].price,
                   requested[k].quantity * requested[k].price))
  }

  /** `findOne(id)` with its items. */
  function View(orders: seq<OrderRow>, items: seq<OrderItemRow>, k: nat): OrderView
    requires k < |orders|
  {
    OrderView(orders[k], Where(items, OfOrder(orders[k].id)))
  }

  /** `create(userId, dto)`. `orderNo` is the generated number
      (`ORD`, the clock and random letters); a clash with an existing one
      makes the unique column refuse the insert. */
  function CreateOutcome(orders: seq<OrderRow>, nextOrderId: int, items: seq<OrderItemRow>, nextItemId: int,
                         userId: int, input: OrderInput, orderNo: string): Placement
  {
    if FirstIndex(orders, WithOrderNo(orderNo)).Some? then
      Placement(Err(Internal("duplicate orderNo")), orders, items)
    else
      var order := NewOrder(nextOrderId, orderNo, userId, input);
      var added := NewItems(nextOrderId, nextItemId, input.items);
      Placement(Ok(OrderView(order, Where(items + added, OfOrder(nextOrderId)))), orders + [order], items + added)
  }

  /** No existing item belongs to the id the next order gets. */
  lemma NoItemsYet(orders: seq<OrderRow>, nextOrderId: int, items: seq<OrderItemRow>, nextItemId: int)
    requires OrdersValid(orders, nextOrderId, items, nextItemId)
    ensures Where(items, OfOrder(nextOrderId)) == []
  {
    forall j | 0 <= j < |items| ensures !OfOrder(nextOrderId)(items[j]) {
      var k :| 0 <= k < |orders| && orders[k].id == items[j].orderId;
    }
    WhereAt(items, OfOrder(nextOrderId));
  }

  lemma {:induction false} WhereAllOf(s: seq<OrderItemRow>, orderId: int)
    requires forall k :: 0 <= k < |s| ==> s[k].orderId == orderId
    ensures Where(s, OfOrder(orderId)) == s
  {
    if s != [] {
      WhereAllOf(s[..|s| - 1], orderId);
      assert s == s[..|s| - 1] + [s[|s| - 1]];
    }
  }

  lemma {:induction false} WhereConcat(s: seq<OrderItemRow>, t: seq<OrderItemRow>, p: OrderItemRow -> bool)
    ensures Where(s + t, p) == Where(s, p) + Where(t, p)
  {
    if t != [] {
      var n := |t| - 1;
      assert s + t == (s + t[..n]) + [t[n]];
      WhereConcat(s, t[..n], p);
      WhereAppend(s + t[..n], t[n], p);
      WhereAppend(t[..n], t[n], p);
      assert t == t[..n] + [t[n]];
    } else {
      assert s + t == s;
    }
  }

  /** The items `create` reads back with the new order are exactly the ones it saved. */
  lemma CreatedItems(orders: seq<OrderRow>, nextOrderId: int, items: seq<OrderItemRow>, nextItemId: int,
                     requested: seq<ItemInput>)
    requires OrdersValid(orders, nextOrderId, items, nextItemId)
    ensures Where(items + NewItems(nextOrderId, nextItemId, requested), OfOrder(nextOrderId))
         == NewItems(nextOrderId, nextItemId, requested)
  {
    var added := NewItems(nextOrderId, nextItemId, requested);
    assert Where(items, OfOrder(nextOrderId)) == [] by {
      NoItemsYet(orders, nextOrderId, items, nextItemId);
    }
    assert Where(added, OfOrder(nextOrderId)) == added by {
      WhereAllOf(added, nextOrderId);
    }
    WhereConcat(items, added, OfOrder(nextOrderId));
    assert [] + added == added;
  }

  /** `create` fails, writing nothing, exactly when the order number is taken.
      Otherwise it adds one order with status `pending`, the requested amount
      and address, then one item per requested item in the same order, each
      priced `quantity * price`; it returns that order with exactly those
      items, and keeps the invariant. */
  lemma CreateSpec(orders: seq<OrderRow>, nextOrderId: int, items: seq<OrderItemRow>, nextItemId: int,
                   userId: int, input: OrderInput, orderNo: string)
    requires OrdersValid(orders, nextOrderId, items, nextItemId)
    ensures var o := CreateOutcome(orders, nextOrderId, items, nextItemId, userId, input, orderNo);
      (o.result.Err? <==> exists k :: 0 <= k < |orders| && orders[k].orderNo == orderNo)
      && (o.result.Err? ==> o.orders == orders && o.items == items)
    ensures var o := CreateOutcome(orders, nextOrderId, items, nextItemId, userId, input, orderNo);
      o.result.Ok? ==>
        o.result.value.order == NewOrder(nextOrderId, orderNo, userId, input)
        && o.result.value.order.status == "pending"
        && o.result.value.order.totalAmount == input.totalAmount
        && o.result.value.order.addressId == input.addressId
        && o.orders == orders + [o.result.value.order]
        && o.items == items + o.result.value.items
        && o.result.value.items == NewItems(nextOrderId, nextItemId, input.items)
        && OrdersValid(o.orders, nextOrderId + 1, o.items, nextItemId + |input.items|)
  {
    if FirstIndex(orders, WithOrderNo(orderNo)).None? {
      var order := NewOrder(nextOrderId, orderNo, userId, input);
      var added := NewItems(nextOrderId, nextItemId, input.items);
      CreatedItems(orders, nextOrderId, items, nextItemId, input.items);
      CreateKeepsValid(orders, nextOrderId, items, nextItemId, order, added);
    }
  }

  lemma CreateKeepsValid(orders: seq<OrderRow>, nextOrderId: int, items: seq<OrderItemRow>, nextItemId: int,
                         order: OrderRow, added: seq<OrderItemRow>)
    requires OrdersValid(orders, nextOrderId, items, nextItemId)
    requires order.id == nextOrderId
    requires forall k :: 0 <= k < |orders| ==> orders[k].orderNo != order.orderNo
    requires forall k :: 0 <= k < |added| ==> added[k].id == nextItemId + k && added[k].orderId == nextOrderId
    ensures OrdersValid(orders + [order], nextOrderId + 1, items + added, nextItemId + |added|)
  {
    var os := orders + [order];
    var its := items + added;
    AppendKeepsIds(orders, OrderId, nextOrderId, [order]);
    AppendKeepsIds(items, ItemId, nextItemId, added);
    forall a, b | 0 <= a < b < |os| ensures DistinctOrderNo(os[a], os[b]) {
      if b < |orders| {
        assert DistinctOrderNo(orders[a], orders[b]);
      }
    }
    forall j | 0 <= j < |its| ensures HasOrder(os, its[j].orderId) {
      if j < |items| {
        var k :| 0 <= k < |orders| && orders[k].id == items[j].orderId;
        assert os[k] == orders[k];
      } else {
        assert os[|orders|].id == its[j].orderId;
      }
    }
  }

  /** `totalAmount` is stored as sent: it is never compared with the items.
      An order of two items at 5 with a stated total of 1 is accepted as is. */
  lemma TotalNotChecked()
    ensures var input := OrderInput(1.0, 7, [ItemInput(3, 2.0, 5.0)]);
      var o := CreateOutcome([], 1, [], 1, 42, input, "ORD1");
      o.result.Ok? && o.result.value.order.totalAmount == 1.0 && o.result.value.items[0].subtotal == 10.0
  {
    var input := OrderInput(1.0, 7, [ItemInput(3, 2.0, 5.0)]);
    var added := NewItems(1, 1, input.items);
    assert Where(added, OfOrder(1)) == added by {
      WhereAllOf(added, 1);
    }
    assert [] + added == added;
    assert CreateOutcome([], 1, [], 1, 42, input, "ORD1").result == Ok(OrderView(NewOrder(1, "ORD1", 42, input), added));
    assert added[0].subtotal == 2.0 * 5.0;
  }

  /** `findByUser(userId)`: the user's orders, newest first, each with its items. */
  function OrdersOfUser(orders: seq<OrderRow>, items: seq<OrderItemRow>, userId: int): seq<OrderView>
  {
    var mine := Newest(Where(orders, OfUser(userId)));
    seq(|mine|, k requires 0 <= k < |mine| => OrderView(mine[k], Where(items, OfOrder(mine[k].id))))
  }

  /** The history lists every order of the user and no other, each once,
      newest first, and each with exactly the items that belong to it. */
  lemma OrdersOfUserSpec(orders: seq<OrderRow>, nextOrderId: int, items: seq<OrderItemRow>, nextItemId: int, userId: int)
    requires OrdersValid(orders, nextOrderId, items, nextItemId)
    ensures |OrdersOfUser(orders, items, userId)| == Count(orders, OfUser(userId))
    ensures forall k :: 0 <= k < |OrdersOfUser(orders, items, userId)| ==>
      OrdersOfUser(orders, items, userId)[k].order in orders
      && OrdersOfUser(orders, items, userId)[k].order.userId == userId
      && (forall i :: i in OrdersOfUser(orders, items, userId)[k].items <==>
            i in items && i.orderId == OrdersOfUser(orders, items, userId)[k].order.id)
    ensures forall o :: o in orders && o.userId == userId ==>
      exists k :: 0 <= k < |OrdersOfUser(orders, items, userId)| && OrdersOfUser(orders, items, userId)[k].order == o
    ensures forall a, b :: 0 <= a < b < |OrdersOfUser(orders, items, userId)| ==>
      OrdersOfUser(orders, items, userId)[a].order.id > OrdersOfUser(orders, items, userId)[b].order.id
  {
    var w := Where(orders, OfUser(userId));
    var mine := Newest(w);
    var r := OrdersOfUser(orders, items, userId);
    NewestWhereDescending(orders, OfUser(userId), OrderId, nextOrderId);
    forall k | 0 <= k < |r| ensures r[k].order in w {
      NewestAt(w, k);
    }
    forall o | o in orders && o.userId == userId
      ensures exists k :: 0 <= k < |r| && r[k].order == o
    {
      assert o in w;
      var m :| 0 <= m < |w| && w[m] == o;
      NewestAt(w, |w| - 1 - m);
      assert r[|w| - 1 - m].order == o;
    }
  }

  function HasId(id: int): OrderRow -> bool
  {
    (o: OrderRow) => o.id == id
  }

  /** `findOne(id)`: the order with that id and its items, or `null` when there
      is none. Nothing ties the order to the caller. */
  function FindOrder(orders: seq<OrderRow>, items: seq<OrderItemRow>, id: int): Option<OrderView>
  {
    match FirstIndex(orders, HasId(id))
    case None => None
    case Some(k) => Some(View(orders, items, k))
  }

  /** An order is found exactly when a row has its id; what is found is that
      row with exactly its items, whoever owns it. */
  lemma FindOrderSpec(orders: seq<OrderRow>, nextOrderId: int, items: seq<OrderItemRow>, nextItemId: int, id: int)
    requires OrdersValid(orders, nextOrderId, items, nextItemId)
    ensures FindOrder(orders, items, id).Some? <==> exists k :: 0 <= k < |orders| && orders[k].id == id
    ensures forall k :: 0 <= k < |orders| && orders[k].id == id ==>
      FindOrder(orders, items, id) == Some(OrderView(orders[k], Where(items, OfOrder(id))))
  {
    forall k | 0 <= k < |orders| && orders[k].id == id
      ensures FindOrder(orders, items, id) == Some(OrderView(orders[k], Where(items, OfOrder(id))))
    {
      match FirstIndex(orders, HasId(id))
      case Some(j) =>
        if j != k {
          IdsUnique(orders, OrderId, nextOrderId, j, k);
        }
      case None =>
    }
  }

  /** Both tables and their auto-increment counters. */
  class OrderService {
    var orders: seq<OrderRow>
    var nextOrderId: int
    var items: seq<OrderItemRow>
    var nextItemId: int

    ghost predicate Valid()
      reads this
    {
      OrdersValid(orders, nextOrderId, items, nextItemId)
    }

    constructor ()
      ensures Valid() && orders == [] && items == []
    {
      orders, nextOrderId, items, nextItemId := [], 1, [], 1;
    }

    /** `create(userId, dto)`: saves the order, then its items, then reads the order back. */
    method Create(userId: int, input: OrderInput, orderNo: string) returns (r: Result<OrderView>)
      requires Valid()
      modifies this
      ensures Valid()
      ensures var o := CreateOutcome(old(orders), old(nextOrderId), old(items), old(nextItemId), userId, input, orderNo);
        r == o.result && orders == o.orders && items == o.items
      ensures nextOrderId == if r.Ok? then old(nextOrderId) + 1 else old(nextOrderId)
      ensures nextItemId == if r.Ok? then old(nextItemId) + |input.items| else old(nextItemId)
    {
      var taken := FindFirst(orders, WithOrderNo(orderNo));
      if taken.Some? {
        return Err(Internal("duplicate orderNo"));
      }
      CreatedValid(orders, nextOrderId, items, nextItemId, userId, input, orderNo);
      var savedOrder := OrderRow(nextOrderId, orderNo, userId, input.totalAmount, "pending", input.addressId, None);
      FindCreated(orders, nextOrderId, savedOrder);
      var orderItems := NewItems(savedOrder.id, nextItemId, input.items);
      Store(orders + [savedOrder], nextOrderId + 1, items + orderItems, nextItemId + |orderItems|);
      var loaded := FindOrder(orders, items, savedOrder.id);  // what `findOne` returns
      r := Ok(loaded.value);
    }

    /** The four fields after a save that keeps the invariant. */
    method Store(savedOrders: seq<OrderRow>, savedNextOrderId: int, savedItems: seq<OrderItemRow>, savedNextItemId: int)
      requires OrdersValid(savedOrders, savedNextOrderId, savedItems, savedNextItemId)
      modifies this
      ensures Valid()
      ensures orders == savedOrders && nextOrderId == savedNextOrderId
      ensures items == savedItems && nextItemId == savedNextItemId
    {
      orders, nextOrderId, items, nextItemId := savedOrders, savedNextOrderId, savedItems, savedNextItemId;
    }

    /** `findByUser(userId)`. */
    method FindByUser(userId: int) returns (r: seq<OrderView>)
      ensures r == OrdersOfUser(orders, items, userId)
    {
      var mine, rows := Newest(Where(orders, OfUser(userId))), items;
      r := seq(|mine|, k requires 0 <= k < |mine| => OrderView(mine[k], Where(rows, OfOrder(mine[k].id))));
    }

    /** `findOne(id)`. */
    method FindOne(id: int) returns (r: Option<OrderView>)
      ensures r == FindOrder(orders, items, id)
    {
      var k := FindFirst(orders, HasId(id));
      if k.None? {
        return None;
      }
      r := Some(View(orders, items, k.value));
    }
  }

  /** The order just appended is the one `findOne` reads back. */
  lemma FindCreated(orders: seq<OrderRow>, nextOrderId: int, order: OrderRow)
    requires IdsBelow(orders, OrderId, nextOrderId) && order.id == nextOrderId
    ensures FirstIndex(orders + [order], HasId(order.id)) == Some(|orders|)
  {
    FirstIndexIs(orders + [order], HasId(order.id), |orders|);
  }

  /** The state `create` leaves behind keeps the invariant. */
  lemma CreatedValid(orders: seq<OrderRow>, nextOrderId: int, items: seq<OrderItemRow>, nextItemId: int,
                     userId: int, input: OrderInput, orderNo: string)
    requires OrdersValid(orders, nextOrderId, items, nextItemId)
    requires FirstIndex(orders, WithOrderNo(orderNo)).None?
    ensures OrdersValid(orders + [NewOrder(nextOrderId, orderNo, userId, input)], nextOrderId + 1,
                        items + NewItems(nextOrderId, nextItemId, input.items), nextItemId + |input.items|)
  {
    var order := NewOrder(nextOrderId, orderNo, userId, input);
    var added := NewItems(nextOrderId, nextItemId, input.items);
    CreateKeepsValid(orders, nextOrderId, items, nextItemId, order, added);
  }
}
