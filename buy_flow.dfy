/**
 * The states a pair of replicas pass through in the happy buy flow, and the
 * one-step facts that take each state to the next. One listing, one bid and
 * one order; the listing's hash equals the hash of the seller's template.
 */
module BuyFlowScenario {
  import opened Wrappers
  import opened OrderFlow
  import opened OrderFlowProperties

  datatype Scenario = Scenario(seller: Address, buyer: Address, itemHash: Hash, bidHash: Hash, orderHash: Hash)

  function Listing(sc: Scenario, templates: set<Hash>): ListingItem {
    ListingItem(sc.itemHash, sc.seller, if sc.itemHash in templates then Some(sc.itemHash) else None)
  }

  function PostedBid(sc: Scenario, action: BidMessageType): Bid {
    Bid(sc.bidHash, action, sc.itemHash, sc.buyer)
  }

  function PlacedOrder(sc: Scenario, status: OrderStatus): Order {
    Order(sc.orderHash, sc.buyer, sc.seller, [OrderItem(sc.itemHash, sc.bidHash, status)])
  }

  /** After MP_ITEM_ADD. */
  function Listed(sc: Scenario, templates: set<Hash>): State {
    State(templates, map[sc.itemHash := Listing(sc, templates)], [], [])
  }

  /** After MPA_BID. */
  function Bidden(sc: Scenario, templates: set<Hash>): State {
    Listed(sc, templates).(bids := [PostedBid(sc, MPA_BID)])
  }

  /** After MPA_ACCEPT, with the order item at `status`. */
  function Ordered(sc: Scenario, templates: set<Hash>, status: OrderStatus): State {
    Listed(sc, templates).(bids := [PostedBid(sc, MPA_ACCEPT)], orders := [PlacedOrder(sc, status)])
  }

  lemma ItemAddStep(sc: Scenario, templates: set<Hash>)
    ensures Apply(Empty(templates), ItemAdd(sc.itemHash, sc.seller)) == Ok(Listed(sc, templates))
  {
  }

  lemma BidStep(sc: Scenario, templates: set<Hash>)
    ensures Apply(Listed(sc, templates), BidMsg(sc.bidHash, sc.itemHash, sc.buyer)) == Ok(Bidden(sc, templates))
  {
    assert [] + [PostedBid(sc, MPA_BID)] == [PostedBid(sc, MPA_BID)];
  }

  lemma AcceptStep(sc: Scenario, templates: set<Hash>)
    ensures Apply(Bidden(sc, templates), AcceptMsg(sc.bidHash, sc.orderHash)) == Ok(Ordered(sc, templates, AWAITING_ESCROW))
  {
    assert FindBid(Bidden(sc, templates).bids, sc.bidHash) == Some(0);
    assert [PostedBid(sc, MPA_BID)][0 := PostedBid(sc, MPA_ACCEPT)] == [PostedBid(sc, MPA_ACCEPT)];
    assert [] + [PlacedOrder(sc, AWAITING_ESCROW)] == [PlacedOrder(sc, AWAITING_ESCROW)];
  }

  /** Moving the one order of an `Ordered` state from `from` to `to`. */
  lemma EscrowStepOnOrdered(sc: Scenario, templates: set<Hash>, from: OrderStatus, to: OrderStatus)
    ensures Advance(Ordered(sc, templates, from), sc.orderHash, from, to) == Ok(Ordered(sc, templates, to))
  {
    var o := PlacedOrder(sc, from);
    assert FindOrder([o], sc.orderHash) == Some(0);
    assert SetStatus(o.items, to) == PlacedOrder(sc, to).items;
    assert [o][0 := o.(items := SetStatus(o.items, to))] == [PlacedOrder(sc, to)];
  }

  lemma LockStep(sc: Scenario, templates: set<Hash>)
    ensures Apply(Ordered(sc, templates, AWAITING_ESCROW), LockMsg(sc.orderHash)) == Ok(Ordered(sc, templates, ESCROW_LOCKED))
  {
    EscrowStepOnOrdered(sc, templates, AWAITING_ESCROW, ESCROW_LOCKED);
  }

  lemma SellerReleaseStep(sc: Scenario, templates: set<Hash>)
    ensures Apply(Ordered(sc, templates, ESCROW_LOCKED), ReleaseMsg(sc.orderHash, Seller)) == Ok(Ordered(sc, templates, SHIPPING))
  {
    EscrowStepOnOrdered(sc, templates, ESCROW_LOCKED, SHIPPING);
  }

  lemma BuyerReleaseStep(sc: Scenario, templates: set<Hash>)
    ensures Apply(Ordered(sc, templates, SHIPPING), ReleaseMsg(sc.orderHash, Buyer)) == Ok(Ordered(sc, templates, COMPLETE))
  {
    EscrowStepOnOrdered(sc, templates, SHIPPING, COMPLETE);
  }

  /** The messages of the happy flow, in the order both nodes apply them. */
  function FlowMessages(sc: Scenario): seq<Message> {
    [ItemAdd(sc.itemHash, sc.seller), BidMsg(sc.bidHash, sc.itemHash, sc.buyer), AcceptMsg(sc.bidHash, sc.orderHash),
     LockMsg(sc.orderHash), ReleaseMsg(sc.orderHash, Seller), ReleaseMsg(sc.orderHash, Buyer)]
  }

  /** The state a replica is in after each message of the flow. */
  function Trace(sc: Scenario, templates: set<Hash>): seq<State> {
    [Listed(sc, templates), Bidden(sc, templates), Ordered(sc, templates, AWAITING_ESCROW),
     Ordered(sc, templates, ESCROW_LOCKED), Ordered(sc, templates, SHIPPING), Ordered(sc, templates, COMPLETE)]
  }

  /** Each message of the flow takes a fresh replica's state one step further along the trace. */
  lemma FlowSteps(sc: Scenario, templates: set<Hash>)
    ensures var states := [Empty(templates)] + Trace(sc, templates);
            && |states| == |FlowMessages(sc)| + 1
            && forall k :: 0 <= k < |FlowMessages(sc)| ==> Apply(states[k], FlowMessages(sc)[k]) == Ok(states[k + 1])
  {
    ItemAddStep(sc, templates);
    BidStep(sc, templates);
    AcceptStep(sc, templates);
    LockStep(sc, templates);
    SellerReleaseStep(sc, templates);
    BuyerReleaseStep(sc, templates);
  }

  /** Applying the whole flow to a fresh replica passes through the trace and ends with a complete order. */
  lemma HappyRun(sc: Scenario, templates: set<Hash>)
    ensures |Trace(sc, templates)| == |FlowMessages(sc)|
    ensures forall k :: 0 <= k < |FlowMessages(sc)| ==>
              Run(Empty(templates), FlowMessages(sc)[..k + 1]) == Trace(sc, templates)[k]
    ensures Run(Empty(templates), FlowMessages(sc)) == Ordered(sc, templates, COMPLETE)
  {
    var ms, tr, pre := FlowMessages(sc), Trace(sc, templates), Empty(templates);
    FlowSteps(sc, templates);
    forall k | 0 <= k < |ms| ensures Run(pre, ms[..k + 1]) == tr[k] {
      RunSteps(pre, ms, [pre] + tr, k + 1);
    }
    assert ms[..6] == ms;
    assert Run(pre, ms[..5 + 1]) == tr[5];
  }

  /** When each message takes the trace one state further, a prefix of the messages ends at the matching state. */
  lemma {:induction false} RunSteps(s: State, ms: seq<Message>, states: seq<State>, n: nat)
    requires |states| == |ms| + 1 && states[0] == s && n <= |ms|
    requires forall k :: 0 <= k < |ms| ==> Apply(states[k], ms[k]) == Ok(states[k + 1])
    ensures Run(s, ms[..n]) == states[n]
    decreases n
  {
    if n > 0 {
      assert ms[..n][1..] == ms[1..][..n - 1];
      RunSteps(Next(s, ms[0]), ms[1..], states[1..], n - 1);
    }
  }

  /** The buyer's `bid search` by MPA_BID finds exactly the posted bid. */
  lemma BidFoundAfterBid(sc: Scenario, templates: set<Hash>)
    ensures SearchBids(Bidden(sc, templates), BidSearch(sc.itemHash, ByAction(MPA_BID), Some(sc.buyer))) == [PostedBid(sc, MPA_BID)]
  {
    assert [PostedBid(sc, MPA_BID)][1..] == [];
  }

  /** After acceptance the bid is found by MPA_ACCEPT and no longer by MPA_BID. */
  lemma BidFoundAfterAccept(sc: Scenario, templates: set<Hash>, status: OrderStatus)
    ensures SearchBids(Ordered(sc, templates, status), BidSearch(sc.itemHash, ByAction(MPA_ACCEPT), Some(sc.buyer))) == [PostedBid(sc, MPA_ACCEPT)]
    ensures SearchBids(Ordered(sc, templates, status), BidSearch(sc.itemHash, ByAction(MPA_BID), Some(sc.buyer))) == []
  {
    assert [PostedBid(sc, MPA_ACCEPT)][1..] == [];
  }

  /** The accepted bid is also found by the status of its order item. */
  lemma BidFoundByOrderStatus(sc: Scenario, templates: set<Hash>, status: OrderStatus)
    ensures SearchBids(Ordered(sc, templates, status), BidSearch(sc.itemHash, ByOrderStatus(status), None)) == [PostedBid(sc, MPA_ACCEPT)]
  {
    var s := Ordered(sc, templates, status);
    assert [PostedBid(sc, MPA_ACCEPT)][1..] == [];
    assert FindOrderOfBid(s.orders, sc.bidHash) == Some(0);
  }

  /** The `order search` by listing, status, buyer and seller finds exactly the one order. */
  lemma OrderFoundByStatus(sc: Scenario, templates: set<Hash>, status: OrderStatus)
    ensures SearchOrders(Ordered(sc, templates, status), OrderSearch(sc.itemHash, status, sc.buyer, sc.seller)) == [PlacedOrder(sc, status)]
  {
    var o := PlacedOrder(sc, status);
    assert [o][1..] == [];
    assert o.items[0].itemHash == sc.itemHash && o.items[0].status == status;
  }
}
