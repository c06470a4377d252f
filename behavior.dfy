/** The `user_behavior` table as the recommenders read it, and the two copies
    of the behaviour weight table (one in the collaborative-filtering
    service, one in the popularity service). */
module Behavior {

  /** A `user_behavior` row. `createdAt` is milliseconds since the epoch. */
  datatype BehaviorEvent = BehaviorEvent(
    userId: int,
    productId: int,
    behaviorType: string,
    behaviorValue: real,
    createdAt: int)

  /** The five behaviour types the weight tables name. */
  predicate KnownType(t: string)
  {
    t == "view" || t == "collect" || t == "add_cart" || t == "purchase" || t == "share"
  }

  /** `BEHAVIOR_WEIGHTS[type] || 1.0` in the collaborative-filtering service:
      view 1, collect 3, add_cart 5, purchase 10, share 2, anything else 1. */
  function CfWeight(t: string): (w: real)
    ensures w >= 1.0
    ensures !KnownType(t) ==> w == 1.0
  {
    if t == "view" then 1.0
    else if t == "collect" then 3.0
    else if t == "add_cart" then 5.0
    else if t == "purchase" then 10.0
    else if t == "share" then 2.0
    else 1.0
  }

  /** `getBehaviorWeight(type)` in the popularity service: the same table with integer weights. */
  function PopularityWeight(t: string): (w: nat)
    ensures w >= 1
    ensures !KnownType(t) ==> w == 1
  {
    match t
    case "view" => 1
    case "collect" => 3
    case "add_cart" => 5
    case "purchase" => 10
    case "share" => 2
    case _ => 1
  }

  /** The two services weigh every behaviour type alike. */
  lemma WeightTablesAgree(t: string)
    ensures PopularityWeight(t) as real == CfWeight(t)
  {
  }

  /** The event `recordBehavior` saves: its `behaviorValue` is the weight of its type. */
  function RecordedEvent(userId: int, productId: int, behaviorType: string, now: int): BehaviorEvent
  {
    BehaviorEvent(userId, productId, behaviorType, CfWeight(behaviorType), now)
  }
}
