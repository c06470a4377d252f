/** `coupon.service.ts`: coupons, the copies users receive, and the discount a coupon grants. */
module Coupon {
  import opened Wrappers
  import opened Tables

  /** A `coupon` row. `kind` is the `type` column; times are milliseconds. */
  datatype CouponRow = CouponRow(
    id: int,
    name: string,
    description: Option<string>,
    kind: string,
    value: real,
    minAmount: Option<real>,
    totalCount: int,
    usedCount: int,
    limitPerUser: int,
    startTime: Option<int>,
    endTime: Option<int>,
    isActive: bool)

  /** The `status` enum of `user_coupon`. */
  datatype Status = Unused | Used | Expired

  /** A `user_coupon` row: one copy of a coupon received by a user. */
  datatype UserCouponRow = UserCouponRow(
    id: int,
    userId: int,
    couponId: int,
    status: Status,
    orderId: Option<int>,
    usedAt: Option<int>)

  /** A `CreateCouponDto`, after validation. */
  datatype CouponInput = CouponInput(
    name: string,
    description: Option<string>,
    kind: string,
    value: real,
    minAmount: Option<real>,
    totalCount: Option<int>,
    limitPerUser: Option<int>,
    startTime: Option<int>,
    endTime: Option<int>,
    isActive: Option<bool>)

  /** A `Partial<CreateCouponDto>` with the DTO's fields only: `None` is a
      field the request leaves out. */
  datatype CouponPatch = CouponPatch(
    name: Option<string>,
    description: Option<string>,
    kind: Option<string>,
    value: Option<real>,
    minAmount: Option<real>,
    totalCount: Option<int>,
    limitPerUser: Option<int>,
    startTime: Option<int>,
    endTime: Option<int>,
    isActive: Option<bool>)

  /** The outcome of `receiveCoupon`, which writes both tables. */
  datatype Receipt = Receipt(result: Result<UserCouponRow>, coupons: seq<CouponRow>, userCoupons: seq<UserCouponRow>)

  function CouponId(c: CouponRow): int
  {
    c.id
  }

  function UserCouponId(u: UserCouponRow): int
  {
    u.id
  }

  function HasId(id: int): CouponRow -> bool
  {
    (c: CouponRow) => c.id == id
  }

  /** `where: { id, isActive: true }`. */
  function ActiveWithId(id: int): CouponRow -> bool
  {
    (c: CouponRow) => c.id == id && c.isActive
  }

  /** `where: { userId, couponId }`. */
  function HeldBy(userId: int, couponId: int): UserCouponRow -> bool
  {
    (u: UserCouponRow) => u.userId == userId && u.couponId == couponId
  }

  /** `where: { userId, couponId, status: 'unused' }`. */
  function UnusedCopy(userId: int, couponId: int): UserCouponRow -> bool
  {
    (u: UserCouponRow) => u.userId == userId && u.couponId == couponId && u.status == Unused
  }

  /** `where: { id, userId, status: 'unused' }`. */
  function UnusedOwned(id: int, userId: int): UserCouponRow -> bool
  {
    (u: UserCouponRow) => u.id == id && u.userId == userId && u.status == Unused
  }

  /** A user never holds two unused copies of one coupon. */
  function NotBothUnused(a: UserCouponRow, b: UserCouponRow): bool
  {
    !(a.userId == b.userId && a.couponId == b.couponId && a.status == Unused && b.status == Unused)
  }

  predicate HasCoupon(coupons: seq<CouponRow>, id: int)
  {
    exists k :: 0 <= k < |coupons| && coupons[k].id == id
  }

  /** The invariant of both tables: auto-increment ids, at most one unused
      copy per user and coupon, and every copy refers to an existing coupon
      (the foreign key of `user_coupon.couponId`). */
  predicate CouponsValid(coupons: seq<CouponRow>, nextCouponId: int, userCoupons: seq<UserCouponRow>, nextUserCouponId: int)
  {
    IdsBelow(coupons, CouponId, nextCouponId)
    && IdsBelow(userCoupons, UserCouponId, nextUserCouponId)
    && Pairwise(userCoupons, NotBothUnused)
    && forall j :: 0 <= j < |userCoupons| ==> HasCoupon(coupons, userCoupons[j].couponId)
  }

  /** `create(dto)`: the column defaults fill what the request leaves out. */
  function NewCoupon(id: int, input: CouponInput): (c: CouponRow)
    ensures input.totalCount.None? ==> c.totalCount == -1
    ensures input.limitPerUser.None? ==> c.limitPerUser == 1
    ensures input.isActive.None? ==> c.isActive
    ensures c.usedCount == 0 && c.id == id
  {
    CouponRow(id, input.name, input.description, input.kind, input.value, input.minAmount,
              input.totalCount.GetOr(-1), 0, input.limitPerUser.GetOr(1),
              input.startTime, input.endTime, input.isActive.GetOr(true))
  }

  /** `coupon.usedCount += 1`. */
  function Claimed(c: CouponRow): CouponRow
  {
    c.(usedCount := c.usedCount + 1)
  }

  /** A coupon can be received at `now`: within its period, where each end is
      checked only when set, and with copies left, where a `totalCount` of
      zero or below means no cap. */
  predicate InPeriod(c: CouponRow, now: int)
  {
    (c.startTime.None? || now >= c.startTime.value) && (c.endTime.None? || now <= c.endTime.value)
  }

  predicate HasStock(c: CouponRow)
  {
    c.totalCount <= 0 || c.usedCount < c.totalCount
  }

  /** The checks `receiveCoupon` makes on a found coupon, in order: the first that fails, if any. */
  function Refusal(c: CouponRow, userCoupons: seq<UserCouponRow>, now: int, userId: int, couponId: int): Option<Failure>
  {
    if c.startTime.Some? && now < c.startTime.value then Some(BadRequest("优惠券尚未开始"))
    else if c.endTime.Some? && now > c.endTime.value then Some(BadRequest("优惠券已过期"))
    else if c.totalCount > 0 && c.usedCount >= c.totalCount then Some(BadRequest("优惠券已领完"))
    else if FirstIndex(userCoupons, UnusedCopy(userId, couponId)).Some? then Some(BadRequest("您已领取过该优惠券"))
    else if Count(userCoupons, HeldBy(userId, couponId)) >= c.limitPerUser then Some(BadRequest("已达到领取上限"))
    else None
  }

  /** `receiveCoupon(userId, couponId)` at time `now`. */
  function ReceiveOutcome(coupons: seq<CouponRow>, userCoupons: seq<UserCouponRow>, nextUserCouponId: int,
                          now: int, userId: int, couponId: int): Receipt
  {
    match FirstIndex(coupons, ActiveWithId(couponId))
    case None => Receipt(Err(NotFound("优惠券不存在或已失效")), coupons, userCoupons)
    case Some(i) =>
      match Refusal(coupons[i], userCoupons, now, userId, couponId)
      case Some(failure) => Receipt(Err(failure), coupons, userCoupons)
      case None =>
        var c := coupons[i];
        var copy := UserCouponRow(nextUserCouponId, userId, couponId, Unused, None, None);
        Receipt(Ok(copy), coupons[i := Claimed(c)], userCoupons + [copy])
  }

  /** The active coupon `receiveCoupon` looks up, if any. */
  function ActiveCoupon(coupons: seq<CouponRow>, couponId: int): Option<CouponRow>
  {
    match FirstIndex(coupons, ActiveWithId(couponId))
    case None => None
    case Some(i) => Some(coupons[i])
  }

  /** A refused receipt changes nothing, and each refusal has exactly its
      cause: no active coupon; outside the period; no copies left; an unused
      copy already held; or the per-user limit reached, counting copies of
      every status. */
  lemma ReceiveRejects(coupons: seq<CouponRow>, userCoupons: seq<UserCouponRow>, nextUserCouponId: int,
                       now: int, userId: int, couponId: int)
    ensures var o := ReceiveOutcome(coupons, userCoupons, nextUserCouponId, now, userId, couponId);
      (o.result.Err? ==> o.coupons == coupons && o.userCoupons == userCoupons)
      && (o.result == Err(NotFound("优惠券不存在或已失效")) <==>
            !exists k :: 0 <= k < |coupons| && coupons[k].id == couponId && coupons[k].isActive)
    ensures var o := ReceiveOutcome(coupons, userCoupons, nextUserCouponId, now, userId, couponId);
      var c := ActiveCoupon(coupons, couponId);
      c.Some? ==>
        (o.result.Err? && o.result.failure.BadRequest? <==>
           !InPeriod(c.value, now) || !HasStock(c.value)
           || (exists j :: 0 <= j < |userCoupons| && UnusedCopy(userId, couponId)(userCoupons[j]))
           || Count(userCoupons, HeldBy(userId, couponId)) >= c.value.limitPerUser)
        && (o.result == Err(BadRequest("已达到领取上限")) ==>
              Count(userCoupons, HeldBy(userId, couponId)) >= c.value.limitPerUser)
        && (o.result == Err(BadRequest("优惠券已领完")) ==> c.value.totalCount > 0 && c.value.usedCount >= c.value.totalCount)
  {
  }

  /** A successful receipt adds exactly one unused copy for the user, raises
      the coupon's `usedCount` by exactly one (to at most `totalCount` when
      that caps it), leaves the user within `limitPerUser` with exactly one
      unused copy, keeps the invariant, and changes nothing else. */
  lemma ReceiveAccepts(coupons: seq<CouponRow>, nextCouponId: int, userCoupons: seq<UserCouponRow>, nextUserCouponId: int,
                       now: int, userId: int, couponId: int)
    requires CouponsValid(coupons, nextCouponId, userCoupons, nextUserCouponId)
    requires ReceiveOutcome(coupons, userCoupons, nextUserCouponId, now, userId, couponId).result.Ok?
    ensures var o := ReceiveOutcome(coupons, userCoupons, nextUserCouponId, now, userId, couponId);
      o.result.value == UserCouponRow(nextUserCouponId, userId, couponId, Unused, None, None)
      && o.userCoupons == userCoupons + [o.result.value]
      && |o.coupons| == |coupons|
      && (forall k :: 0 <= k < |coupons| ==>
            o.coupons[k] == (if coupons[k].id == couponId then Claimed(coupons[k]) else coupons[k]))
    ensures var o := ReceiveOutcome(coupons, userCoupons, nextUserCouponId, now, userId, couponId);
      var c := ActiveCoupon(o.coupons, couponId).value;
      InPeriod(c, now)
      && (c.totalCount > 0 ==> c.usedCount <= c.totalCount)
      && Count(o.userCoupons, HeldBy(userId, couponId)) == Count(userCoupons, HeldBy(userId, couponId)) + 1
      && Count(o.userCoupons, HeldBy(userId, couponId)) <= c.limitPerUser
      && Count(o.userCoupons, UnusedCopy(userId, couponId)) == 1
    ensures var o := ReceiveOutcome(coupons, userCoupons, nextUserCouponId, now, userId, couponId);
      CouponsValid(o.coupons, nextCouponId, o.userCoupons, nextUserCouponId + 1)
  {
    var i := FirstIndex(coupons, ActiveWithId(couponId)).value;
    var c := coupons[i];
    assert Refusal(c, userCoupons, now, userId, couponId) == None;
    var copy := UserCouponRow(nextUserCouponId, userId, couponId, Unused, None, None);
    WhereAt(userCoupons, UnusedCopy(userId, couponId));
    ReceiveKeepsValid(coupons, nextCouponId, userCoupons, nextUserCouponId, i, copy);
    ReceiveCopy(userCoupons, nextUserCouponId, copy);
    ReceiveUsage(coupons, nextCouponId, i, couponId);
  }

  /** Raising the found coupon's `usedCount` and appending a fresh unused
      copy for a user who holds no unused copy keeps the invariant. */
  lemma ReceiveKeepsValid(coupons: seq<CouponRow>, nextCouponId: int, userCoupons: seq<UserCouponRow>, nextUserCouponId: int,
                          i: nat, copy: UserCouponRow)
    requires CouponsValid(coupons, nextCouponId, userCoupons, nextUserCouponId)
    requires FirstIndex(coupons, ActiveWithId(copy.couponId)) == Some(i)
    requires copy.id == nextUserCouponId && copy.status == Unused
    requires FirstIndex(userCoupons, UnusedCopy(copy.userId, copy.couponId)).None?
    ensures CouponsValid(coupons[i := Claimed(coupons[i])], nextCouponId,
                         userCoupons + [copy], nextUserCouponId + 1)
  {
    var couponId := copy.couponId;
    var c := coupons[i];
    WhereAt(userCoupons, UnusedCopy(copy.userId, copy.couponId));
    ReceiveCopy(userCoupons, nextUserCouponId, copy);
    ReceiveUsage(coupons, nextCouponId, i, couponId);
    ReceiveKeepsLinks(coupons, userCoupons, i, copy);
  }

  /** Every copy still names an existing coupon after the claim. */
  lemma ReceiveKeepsLinks(coupons: seq<CouponRow>, userCoupons: seq<UserCouponRow>, i: nat, copy: UserCouponRow)
    requires forall j :: 0 <= j < |userCoupons| ==> HasCoupon(coupons, userCoupons[j].couponId)
    requires i < |coupons| && coupons[i].id == copy.couponId
    ensures var cs, us := coupons[i := Claimed(coupons[i])], userCoupons + [copy];
      forall j :: 0 <= j < |us| ==> HasCoupon(cs, us[j].couponId)
  {
    var cs := coupons[i := Claimed(coupons[i])];
    var us := userCoupons + [copy];
    forall j | 0 <= j < |us| ensures HasCoupon(cs, us[j].couponId) {
      if j < |userCoupons| {
        var k :| 0 <= k < |coupons| && coupons[k].id == userCoupons[j].couponId;
        assert cs[k].id == coupons[k].id;
      } else {
        assert cs[i].id == copy.couponId;
      }
    }
  }

  /** Appending a new unused copy for a user who holds no unused copy of that coupon. */
  lemma ReceiveCopy(userCoupons: seq<UserCouponRow>, nextUserCouponId: int, copy: UserCouponRow)
    requires IdsBelow(userCoupons, UserCouponId, nextUserCouponId) && Pairwise(userCoupons, NotBothUnused)
    requires copy.id == nextUserCouponId && copy.status == Unused
    requires Count(userCoupons, UnusedCopy(copy.userId, copy.couponId)) == 0
    ensures Count(userCoupons + [copy], HeldBy(copy.userId, copy.couponId)) == Count(userCoupons, HeldBy(copy.userId, copy.couponId)) + 1
    ensures Count(userCoupons + [copy], UnusedCopy(copy.userId, copy.couponId)) == 1
    ensures IdsBelow(userCoupons + [copy], UserCouponId, nextUserCouponId + 1)
    ensures Pairwise(userCoupons + [copy], NotBothUnused)
  {
    var us := userCoupons + [copy];
    WhereAppend(userCoupons, copy, HeldBy(copy.userId, copy.couponId));
    WhereAppend(userCoupons, copy, UnusedCopy(copy.userId, copy.couponId));
    WhereAt(userCoupons, UnusedCopy(copy.userId, copy.couponId));
    AppendKeepsIds(userCoupons, UserCouponId, nextUserCouponId, [copy]);
    forall a, b | 0 <= a < b < |us| ensures NotBothUnused(us[a], us[b]) {
      if b < |userCoupons| {
        assert NotBothUnused(userCoupons[a], userCoupons[b]);
      } else {
        assert !UnusedCopy(copy.userId, copy.couponId)(userCoupons[a]);
      }
    }
  }

  /** Raising `usedCount` of the coupon at index `i` changes no other coupon and no id. */
  lemma ReceiveUsage(coupons: seq<CouponRow>, nextCouponId: int, i: nat, couponId: int)
    requires IdsBelow(coupons, CouponId, nextCouponId)
    requires FirstIndex(coupons, ActiveWithId(couponId)) == Some(i)
    ensures var cs := coupons[i := Claimed(coupons[i])];
      (forall k :: 0 <= k < |coupons| ==>
         cs[k] == (if coupons[k].id == couponId then Claimed(coupons[k]) else coupons[k]))
      && FirstIndex(cs, ActiveWithId(couponId)) == Some(i)
      && IdsBelow(cs, CouponId, nextCouponId)
  {
    var cs := coupons[i := Claimed(coupons[i])];
    forall k | 0 <= k < |coupons| && k != i ensures coupons[k].id != couponId {
      IdsUnique(coupons, CouponId, nextCouponId, i, k);
    }
    FirstIndexIs(cs, ActiveWithId(couponId), i);
    SetKeepsIds(coupons, CouponId, nextCouponId, i, cs[i]);
  }

  /** `useCoupon(userId, userCouponId, orderId)` at time `now`, reading the copy's coupon.
      `orders` holds the ids of the existing orders: saving a used copy whose
      `orderId` names no order fails on the foreign key and writes nothing. */
  function UseOutcome(coupons: seq<CouponRow>, userCoupons: seq<UserCouponRow>, orders: set<int>, now: int,
                      userId: int, userCouponId: int, orderId: int): Change<Unit, UserCouponRow>
  {
    match FirstIndex(userCoupons, UnusedOwned(userCouponId, userId))
    case None => Change(Err(NotFound("优惠券不存在或已使用")), userCoupons)
    case Some(i) =>
      var copy := userCoupons[i];
      match FirstIndex(coupons, HasId(copy.couponId))
      case None => Change(Err(Internal("coupon is null")), userCoupons)
      case Some(k) =>
        if coupons[k].endTime.Some? && now > coupons[k].endTime.value then
          Change(Err(BadRequest("优惠券已过期")), userCoupons[i := copy.(status := Expired)])
        else if orderId !in orders then
          Change(Err(Internal("foreign key constraint fails")), userCoupons)
        else
          Change(Ok(Unit), userCoupons[i := copy.(status := Used, orderId := Some(orderId), usedAt := Some(now))])
  }

  /** `useCoupon` accepts only an unused copy of the caller's, changing
      nothing otherwise. Past the coupon's end it marks the copy expired,
      keeps that change and fails; otherwise it marks it used with the order
      and the time, which succeeds exactly when the order exists and else
      fails on the foreign key, changing nothing. Only that copy changes, and
      the invariant holds. */
  lemma UseSpec(coupons: seq<CouponRow>, nextCouponId: int, userCoupons: seq<UserCouponRow>, nextUserCouponId: int,
                orders: set<int>, now: int, userId: int, userCouponId: int, orderId: int)
    requires CouponsValid(coupons, nextCouponId, userCoupons, nextUserCouponId)
    ensures var o := UseOutcome(coupons, userCoupons, orders, now, userId, userCouponId, orderId);
      (o.result == Err(NotFound("优惠券不存在或已使用")) <==>
         !exists j :: 0 <= j < |userCoupons| && UnusedOwned(userCouponId, userId)(userCoupons[j]))
      && (o.result == Err(NotFound("优惠券不存在或已使用")) ==> o.rows == userCoupons)
    ensures var o := UseOutcome(coupons, userCoupons, orders, now, userId, userCouponId, orderId);
      (o.result.Err? && o.result.failure.Internal? ==>
         o.result == Err(Internal("foreign key constraint fails")) && orderId !in orders && o.rows == userCoupons)
      && (orderId !in orders ==> o.result.Err?)
    ensures var o := UseOutcome(coupons, userCoupons, orders, now, userId, userCouponId, orderId);
      o.result != Err(NotFound("优惠券不存在或已使用")) ==>
        exists j :: (0 <= j < |userCoupons| && UnusedOwned(userCouponId, userId)(userCoupons[j])
        && |o.rows| == |userCoupons|
        && (forall m :: 0 <= m < |userCoupons| && m != j ==> o.rows[m] == userCoupons[m])
        && (o.result.Ok? ==>
              o.rows[j] == userCoupons[j].(status := Used, orderId := Some(orderId), usedAt := Some(now)))
        && (o.result == Err(BadRequest("优惠券已过期")) ==> o.rows[j] == userCoupons[j].(status := Expired))
        && (o.result.Err? ==>
              o.result == Err(BadRequest("优惠券已过期")) || o.result == Err(Internal("foreign key constraint fails"))))
    ensures var o := UseOutcome(coupons, userCoupons, orders, now, userId, userCouponId, orderId);
      CouponsValid(coupons, nextCouponId, o.rows, nextUserCouponId)
  {
    match FirstIndex(userCoupons, UnusedOwned(userCouponId, userId))
    case None =>
    case Some(i) =>
      var copy := userCoupons[i];
      var k0 :| 0 <= k0 < |coupons| && coupons[k0].id == copy.couponId;
      var k := FirstIndex(coupons, HasId(copy.couponId)).value;
      var o := UseOutcome(coupons, userCoupons, orders, now, userId, userCouponId, orderId);
      if UseExpires(coupons, k, now) || orderId in orders {
        var x := UseStep(coupons, k, copy, now, orderId);
        assert o.rows == userCoupons[i := x];
        UseKeepsValid(coupons, nextCouponId, userCoupons, nextUserCouponId, i, x);
      } else {
        assert o == Change(Err(Internal("foreign key constraint fails")), userCoupons);
      }
      assert UnusedOwned(userCouponId, userId)(userCoupons[i]);
  }

  /** Whether the coupon at index `k` has ended by `now`. */
  predicate UseExpires(coupons: seq<CouponRow>, k: nat, now: int)
    requires k < |coupons|
  {
    coupons[k].endTime.Some? && now > coupons[k].endTime.value
  }

  /** The copy after `useCoupon` with its coupon at index `k`, when the save succeeds. */
  function UseStep(coupons: seq<CouponRow>, k: nat, copy: UserCouponRow, now: int, orderId: int): UserCouponRow
    requires k < |coupons|
  {
    if UseExpires(coupons, k, now) then copy.(status := Expired)
    else copy.(status := Used, orderId := Some(orderId), usedAt := Some(now))
  }

  /** Taking one copy out of `unused` keeps the invariant. */
  lemma UseKeepsValid(coupons: seq<CouponRow>, nextCouponId: int, userCoupons: seq<UserCouponRow>, nextUserCouponId: int,
                      i: int, x: UserCouponRow)
    requires CouponsValid(coupons, nextCouponId, userCoupons, nextUserCouponId)
    requires 0 <= i < |userCoupons| && x.id == userCoupons[i].id && x.couponId == userCoupons[i].couponId
    requires x.status != Unused
    ensures CouponsValid(coupons, nextCouponId, userCoupons[i := x], nextUserCouponId)
  {
    var t := userCoupons[i := x];
    SetKeepsIds(userCoupons, UserCouponId, nextUserCouponId, i, x);
    forall a, b | 0 <= a < b < |t| ensures NotBothUnused(t[a], t[b]) {
      assert NotBothUnused(userCoupons[a], userCoupons[b]);
    }
    forall j | 0 <= j < |t| ensures HasCoupon(coupons, t[j].couponId) {
      assert t[j].couponId == userCoupons[j].couponId;
    }
  }

  /** `calculateDiscount(coupon, totalAmount)`. A `minAmount` of 0 is falsy and so sets no threshold. */
  function Discount(coupon: CouponRow, totalAmount: real): real
  {
    if coupon.minAmount.Some? && coupon.minAmount.value != 0.0 && totalAmount < coupon.minAmount.value then 0.0
    else if coupon.kind == "discount" then totalAmount * (1.0 - coupon.value)
    else if coupon.kind == "reduce" then coupon.value
    else 0.0
  }

  lemma RateBounds(total: real, rate: real)
    requires 0.0 <= total && 0.0 <= rate <= 1.0
    ensures 0.0 <= total * (1.0 - rate) <= total
  {
  }

  /** Below a set minimum the discount is 0; a `discount` coupon takes the
      fraction `1 - value` of the total, which for a rate in [0, 1] lies
      between 0 and the total; a `reduce` coupon takes its value whatever
      the total; `free` and every other type take nothing. */
  lemma DiscountSpec(coupon: CouponRow, totalAmount: real)
    ensures coupon.minAmount.Some? && coupon.minAmount.value != 0.0 && totalAmount < coupon.minAmount.value ==>
      Discount(coupon, totalAmount) == 0.0
    ensures coupon.kind != "discount" && coupon.kind != "reduce" ==> Discount(coupon, totalAmount) == 0.0
    ensures (coupon.minAmount.None? || coupon.minAmount.value == 0.0 || totalAmount >= coupon.minAmount.value) ==>
      (coupon.kind == "reduce" ==> Discount(coupon, totalAmount) == coupon.value)
      && (coupon.kind == "discount" && 0.0 <= totalAmount && 0.0 <= coupon.value <= 1.0 ==>
            0.0 <= Discount(coupon, totalAmount) <= totalAmount)
  {
    if coupon.kind == "discount" && 0.0 <= totalAmount && 0.0 <= coupon.value <= 1.0 {
      RateBounds(totalAmount, coupon.value);
    }
  }

  lemma AboveOne(total: real, rate: real)
    requires 0.0 < total && 1.0 < rate
    ensures total * (1.0 - rate) < 0.0
  {
  }

  /** The request only demands `value >= 0`, so a `discount` coupon with a
      value above 1 yields a negative discount on any positive total it applies to. */
  lemma DiscountAboveOne(coupon: CouponRow, totalAmount: real)
    requires coupon.kind == "discount" && coupon.value > 1.0 && totalAmount > 0.0
    requires coupon.minAmount.None? || coupon.minAmount.value == 0.0 || totalAmount >= coupon.minAmount.value
    ensures Discount(coupon, totalAmount) < 0.0
  {
    AboveOne(totalAmount, coupon.value);
  }

  /** A `reduce` coupon is not capped by the total: 50 off an order of 10. */
  lemma ReduceNotCapped()
    ensures Discount(CouponRow(1, "reduce", None, "reduce", 50.0, None, -1, 0, 1, None, None, true), 10.0) == 50.0
  {
  }

  /** `Object.assign(coupon, updateData)`. */
  function Apply(c: CouponRow, patch: CouponPatch): CouponRow
  {
    c.(name := patch.name.GetOr(c.name),
       description := if patch.description.Some? then patch.description else c.description,
       kind := patch.kind.GetOr(c.kind),
       value := patch.value.GetOr(c.value),
       minAmount := if patch.minAmount.Some? then patch.minAmount else c.minAmount,
       totalCount := patch.totalCount.GetOr(c.totalCount),
       limitPerUser := patch.limitPerUser.GetOr(c.limitPerUser),
       startTime := if patch.startTime.Some? then patch.startTime else c.startTime,
       endTime := if patch.endTime.Some? then patch.endTime else c.endTime,
       isActive := patch.isActive.GetOr(c.isActive))
  }

  /** `update(id, updateData)`. */
  function UpdateOutcome(coupons: seq<CouponRow>, id: int, patch: CouponPatch): Change<CouponRow, CouponRow>
  {
    match FirstIndex(coupons, HasId(id))
    case None => Change(Err(NotFound("优惠券不存在")), coupons)
    case Some(i) =>
      var c := Apply(coupons[i], patch);
      Change(Ok(c), coupons[i := c])
  }

  /** `update` fails, changing nothing, for an unknown id; otherwise only that
      coupon changes: the given fields take the new values, the others, its
      id and its `usedCount` stay. */
  lemma UpdateSpec(coupons: seq<CouponRow>, nextCouponId: int, userCoupons: seq<UserCouponRow>, nextUserCouponId: int,
                   id: int, patch: CouponPatch)
    requires CouponsValid(coupons, nextCouponId, userCoupons, nextUserCouponId)
    ensures var o := UpdateOutcome(coupons, id, patch);
      (o.result.Err? <==> !HasCoupon(coupons, id))
      && (o.result.Err? ==> o.rows == coupons)
      && |o.rows| == |coupons|
      && (forall k :: 0 <= k < |coupons| ==> o.rows[k] == (if coupons[k].id == id then Apply(coupons[k], patch) else coupons[k]))
    ensures var o := UpdateOutcome(coupons, id, patch);
      o.result.Ok? ==>
        o.result.value.id == id
        && (patch.name.Some? ==> o.result.value.name == patch.name.value)
        && (patch.totalCount.Some? ==> o.result.value.totalCount == patch.totalCount.value)
        && (patch.isActive.Some? ==> o.result.value.isActive == patch.isActive.value)
        && (patch.endTime.Some? ==> o.result.value.endTime == patch.endTime)
    ensures CouponsValid(UpdateOutcome(coupons, id, patch).rows, nextCouponId, userCoupons, nextUserCouponId)
  {
    match FirstIndex(coupons, HasId(id))
    case None =>
    case Some(i) =>
      var c := Apply(coupons[i], patch);
      forall k | 0 <= k < |coupons| && k != i ensures coupons[k].id != id {
        IdsUnique(coupons, CouponId, nextCouponId, i, k);
      }
      SetKeepsIds(coupons, CouponId, nextCouponId, i, c);
      var t := coupons[i := c];
      forall j | 0 <= j < |userCoupons| ensures HasCoupon(t, userCoupons[j].couponId) {
        var k :| 0 <= k < |coupons| && coupons[k].id == userCoupons[j].couponId;
        assert t[k].id == coupons[k].id;
      }
  }

  /** `remove(id)`: `delete(id)`. The foreign key of `user_coupon` makes the
      database refuse to delete a coupon some user holds. */
  function RemoveOutcome(coupons: seq<CouponRow>, userCoupons: seq<UserCouponRow>, id: int): Change<Unit, CouponRow>
  {
    if Count(coupons, HasId(id)) == 0 then Change(Err(NotFound("优惠券不存在")), coupons)
    else if exists j :: 0 <= j < |userCoupons| && userCoupons[j].couponId == id then
      Change(Err(Internal("foreign key constraint fails")), coupons)
    else Change(Ok(Unit), Drop(coupons, HasId(id)))
  }

  /** `remove` fails with not found exactly for an unknown id; the foreign
      key refuses it exactly when some user holds a copy of the coupon; it
      succeeds exactly when the coupon exists and nobody holds a copy, and
      then deletes only that coupon; it keeps the invariant. */
  lemma RemoveSpec(coupons: seq<CouponRow>, nextCouponId: int, userCoupons: seq<UserCouponRow>, nextUserCouponId: int, id: int)
    requires CouponsValid(coupons, nextCouponId, userCoupons, nextUserCouponId)
    ensures var o := RemoveOutcome(coupons, userCoupons, id);
      (o.result == Err(NotFound("优惠券不存在")) <==> !HasCoupon(coupons, id))
      && (o.result.Err? ==> o.rows == coupons)
      && (o.result.Ok? ==> forall c :: c in o.rows <==> c in coupons && c.id != id)
    ensures var o := RemoveOutcome(coupons, userCoupons, id);
      (o.result == Err(Internal("foreign key constraint fails")) <==>
         exists j :: 0 <= j < |userCoupons| && userCoupons[j].couponId == id)
      && (o.result.Ok? <==> HasCoupon(coupons, id) && forall j :: 0 <= j < |userCoupons| ==> userCoupons[j].couponId != id)
    ensures var o := RemoveOutcome(coupons, userCoupons, id);
      CouponsValid(o.rows, nextCouponId, userCoupons, nextUserCouponId)
  {
    WhereAt(coupons, HasId(id));
    RemoveKeepsValid(coupons, nextCouponId, userCoupons, nextUserCouponId, id);
  }

  /** `remove` keeps the invariant: no user copy is left naming a deleted coupon. */
  lemma RemoveKeepsValid(coupons: seq<CouponRow>, nextCouponId: int, userCoupons: seq<UserCouponRow>, nextUserCouponId: int, id: int)
    requires CouponsValid(coupons, nextCouponId, userCoupons, nextUserCouponId)
    ensures CouponsValid(RemoveOutcome(coupons, userCoupons, id).rows, nextCouponId, userCoupons, nextUserCouponId)
  {
    var o := RemoveOutcome(coupons, userCoupons, id);
    if o.result.Ok? {
      var d := Drop(coupons, HasId(id));
      DropKeepsIds(coupons, HasId(id), CouponId, nextCouponId);
      forall j | 0 <= j < |userCoupons| ensures HasCoupon(d, userCoupons[j].couponId) {
        var k :| 0 <= k < |coupons| && coupons[k].id == userCoupons[j].couponId;
        assert coupons[k] in d;
        var m :| 0 <= m < |d| && d[m] == coupons[k];
      }
    }
  }

  /** The checks of `receiveCoupon` on the found coupon, querying the copies. */
  method CheckReceipt(coupon: CouponRow, userCoupons: seq<UserCouponRow>, now: int, userId: int, couponId: int)
    returns (refusal: Option<Failure>)
    ensures refusal == Refusal(coupon, userCoupons, now, userId, couponId)
  {
    if coupon.startTime.Some? && now < coupon.startTime.value {
      return Some(BadRequest("优惠券尚未开始"));
    }
    if coupon.endTime.Some? && now > coupon.endTime.value {
      return Some(BadRequest("优惠券已过期"));
    }
    if coupon.totalCount > 0 && coupon.usedCount >= coupon.totalCount {
      return Some(BadRequest("优惠券已领完"));
    }
    var existing := FindFirst(userCoupons, UnusedCopy(userId, couponId));
    if existing.Some? {
      return Some(BadRequest("您已领取过该优惠券"));
    }
    var userCouponCount := CountRows(userCoupons, HeldBy(userId, couponId));
    if userCouponCount >= coupon.limitPerUser {
      return Some(BadRequest("已达到领取上限"));
    }
    return None;
  }

  /** Both tables and their auto-increment counters. */
  class CouponService {
    var coupons: seq<CouponRow>
    var nextCouponId: int
    var userCoupons: seq<UserCouponRow>
    var nextUserCouponId: int

    ghost predicate Valid()
      reads this
    {
      CouponsValid(coupons, nextCouponId, userCoupons, nextUserCouponId)
    }

    constructor ()
      ensures Valid() && coupons == [] && userCoupons == []
    {
      coupons, nextCouponId, userCoupons, nextUserCouponId := [], 1, [], 1;
    }

    /** `create(dto)` (administrators). */
    method Create(input: CouponInput) returns (coupon: CouponRow)
      requires Valid()
      modifies this`coupons, this`nextCouponId
      ensures Valid()
      ensures coupon == NewCoupon(old(nextCouponId), input)
      ensures coupons == old(coupons) + [coupon] && nextCouponId == old(nextCouponId) + 1
    {
      coupon := NewCoupon(nextCouponId, input);
      AppendKeepsIds(coupons, CouponId, nextCouponId, [coupon]);
      forall j | 0 <= j < |userCoupons| ensures HasCoupon(coupons + [coupon], userCoupons[j].couponId) {
        var k :| 0 <= k < |coupons| && coupons[k].id == userCoupons[j].couponId;
        assert (coupons + [coupon])[k] == coupons[k];
      }
      coupons := coupons + [coupon];
      nextCouponId := nextCouponId + 1;
    }

    method ReceiveCoupon(now: int, userId: int, couponId: int) returns (r: Result<UserCouponRow>)
      requires Valid()
      modifies this`coupons, this`userCoupons, this`nextUserCouponId
      ensures Valid()
      ensures var o := ReceiveOutcome(old(coupons), old(userCoupons), old(nextUserCouponId), now, userId, couponId);
        r == o.result && coupons == o.coupons && userCoupons == o.userCoupons
      ensures nextUserCouponId == if r.Ok? then old(nextUserCouponId) + 1 else old(nextUserCouponId)
    {
      var found := FindFirst(coupons, ActiveWithId(couponId));
      if found.None? {
        return Err(NotFound("优惠券不存在或已失效"));
      }
      var i := found.value;
      var coupon := coupons[i];
      var refusal := CheckReceipt(coupon, userCoupons, now, userId, couponId);
      if refusal.Some? {
        return Err(refusal.value);
      }
      var userCoupon := UserCouponRow(nextUserCouponId, userId, couponId, Unused, None, None);
      ReceiveKeepsValid(coupons, nextCouponId, userCoupons, nextUserCouponId, i, userCoupon);
      coupon := Claimed(coupon);
      var claimed := coupons[i := coupon];
      var received := userCoupons + [userCoupon];
      assert CouponsValid(claimed, nextCouponId, received, nextUserCouponId + 1);
      coupons, userCoupons, nextUserCouponId := claimed, received, nextUserCouponId + 1;
      r := Ok(userCoupon);
    }

    method UseCoupon(orders: set<int>, now: int, userId: int, userCouponId: int, orderId: int) returns (r: Result<Unit>)
      requires Valid()
      modifies this`userCoupons
      ensures Valid()
      ensures r == UseOutcome(coupons, old(userCoupons), orders, now, userId, userCouponId, orderId).result
      ensures userCoupons == UseOutcome(coupons, old(userCoupons), orders, now, userId, userCouponId, orderId).rows
    {
      var found := FindFirst(userCoupons, UnusedOwned(userCouponId, userId));
      if found.None? {
        return Err(NotFound("优惠券不存在或已使用"));
      }
      var userCoupon := userCoupons[found.value];
      var relation := FindFirst(coupons, HasId(userCoupon.couponId));
      if relation.None? {
        return Err(Internal("coupon is null"));
      }
      var coupon := coupons[relation.value];
      if coupon.endTime.Some? && now > coupon.endTime.value {
        var expired := userCoupon.(status := Expired);
        assert UseOutcome(coupons, userCoupons, orders, now, userId, userCouponId, orderId)
          == Change(Err(BadRequest("优惠券已过期")), userCoupons[found.value := expired]);
        UseKeepsValid(coupons, nextCouponId, userCoupons, nextUserCouponId, found.value, expired);
        userCoupons := userCoupons[found.value := expired];
        return Err(BadRequest("优惠券已过期"));
      }
      if orderId !in orders {
        return Err(Internal("foreign key constraint fails"));
      }
      userCoupon := userCoupon.(status := Used, orderId := Some(orderId), usedAt := Some(now));
      assert UseOutcome(coupons, userCoupons, orders, now, userId, userCouponId, orderId)
        == Change(Ok(Unit), userCoupons[found.value := userCoupon]);
      UseKeepsValid(coupons, nextCouponId, userCoupons, nextUserCouponId, found.value, userCoupon);
      userCoupons := userCoupons[found.value := userCoupon];
      r := Ok(Unit);
    }

    method Update(id: int, patch: CouponPatch) returns (r: Result<CouponRow>)
      requires Valid()
      modifies this`coupons
      ensures Valid()
      ensures r == UpdateOutcome(old(coupons), id, patch).result
      ensures coupons == UpdateOutcome(old(coupons), id, patch).rows
    {
      UpdateSpec(coupons, nextCouponId, userCoupons, nextUserCouponId, id, patch);
      var found := FindFirst(coupons, HasId(id));
      if found.None? {
        return Err(NotFound("优惠券不存在"));
      }
      var coupon := Apply(coupons[found.value], patch);
      coupons := coupons[found.value := coupon];
      r := Ok(coupon);
    }

    method Remove(id: int) returns (r: Result<Unit>)
      requires Valid()
      modifies this`coupons
      ensures Valid()
      ensures r == RemoveOutcome(old(coupons), userCoupons, id).result
      ensures coupons == RemoveOutcome(old(coupons), userCoupons, id).rows
    {
      RemoveKeepsValid(coupons, nextCouponId, userCoupons, nextUserCouponId, id);
      var held := FindFirst(userCoupons, (u: UserCouponRow) => u.couponId == id);
      var affected := CountRows(coupons, HasId(id));
      if affected == 0 {
        return Err(NotFound("优惠券不存在"));
      }
      if held.Some? {
        return Err(Internal("foreign key constraint fails"));
      }
      var kept;
      kept, affected := DeleteWhere(coupons, HasId(id));
      coupons := kept;
      r := Ok(Unit);
    }
  }
}
