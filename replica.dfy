/**
 * A node's replica of the buy flow, updated in place. The sender of a message
 * and its receiver run the same method on their own replica; the client at
 * the end replays the happy buy flow on a buyer and a seller replica.
 */
module Replicas {
  import opened Wrappers
  import opened OrderFlow
  import opened OrderFlowInvariant
  import opened BuyFlowScenario

  class Replica {
    /** Hashes of the listing templates this node created. */
    const templates: set<Hash>
    var listings: map<Hash, ListingItem>
    var bids: seq<Bid>
    var orders: seq<Order>

    function Snapshot(): State
      reads this
    {
      State(templates, listings, bids, orders)
    }

    predicate Valid()
      reads this
    {
      OrderFlowInvariant.Valid(Snapshot())
    }

    constructor (templates: set<Hash>)
      ensures Snapshot() == Empty(templates)
      ensures Valid()
    {
      this.templates := templates;
      listings := map[];
      bids := [];
      orders := [];
    }

    /** MP_ITEM_ADD: stores the listing, related to the node's own template of that hash if there is one. */
    method ReceiveListingItem(itemHash: Hash, seller: Address)
      requires Valid()
      modifies this
      ensures Valid()
      ensures Snapshot() == Next(old(Snapshot()), ItemAdd(itemHash, seller))
    {
      if itemHash !in listings {
        var template := if itemHash in templates then Some(itemHash) else None;
        listings := listings[itemHash := ListingItem(itemHash, seller, template)];
      }
      ApplyPreservesValid(old(Snapshot()), ItemAdd(itemHash, seller));
    }

    /** MPA_BID: records a new bid on a known listing. */
    method ProcessBid(bidHash: Hash, itemHash: Hash, bidder: Address) returns (error: Option<FlowError>)
      requires Valid()
      modifies this
      ensures Valid()
      ensures Snapshot() == Next(old(Snapshot()), BidMsg(bidHash, itemHash, bidder))
      ensures error == Rejection(Apply(old(Snapshot()), BidMsg(bidHash, itemHash, bidder)))
    {
      if itemHash !in listings {
        return Some(UnknownListing);
      }
      bids := bids + [Bid(bidHash, MPA_BID, itemHash, bidder)];
      error := None;
      ApplyPreservesValid(old(Snapshot()), BidMsg(bidHash, itemHash, bidder));
    }

    /** MPA_ACCEPT: marks the bid accepted and creates its order with one item awaiting escrow. */
    method ProcessAccept(bidHash: Hash, orderHash: Hash) returns (error: Option<FlowError>)
      requires Valid()
      modifies this
      ensures Valid()
      ensures Snapshot() == Next(old(Snapshot()), AcceptMsg(bidHash, orderHash))
      ensures error == Rejection(Apply(old(Snapshot()), AcceptMsg(bidHash, orderHash)))
    {
      var found := FindBid(bids, bidHash);
      if found.None? {
        return Some(UnknownBid);
      }
      var i := found.value;
      var bid := bids[i];
      if bid.action != MPA_BID {
        return Some(IllegalTransition);
      }
      if bid.itemHash !in listings {
        return Some(UnknownListing);
      }
      bids := bids[i := bid.(action := MPA_ACCEPT)];
      var item := OrderItem(bid.itemHash, bidHash, AWAITING_ESCROW);
      orders := orders + [Order(orderHash, bid.bidder, listings[bid.itemHash].seller, [item])];
      error := None;
      ApplyPreservesValid(old(Snapshot()), AcceptMsg(bidHash, orderHash));
    }

    /** Moves every item of the order from `from` to `to`. */
    method AdvanceOrder(orderHash: Hash, from: OrderStatus, to: OrderStatus) returns (error: Option<FlowError>)
      modifies this
      ensures Snapshot() == match Advance(old(Snapshot()), orderHash, from, to)
                            case Ok(t) => t
                            case Err(_) => old(Snapshot())
      ensures error == Rejection(Advance(old(Snapshot()), orderHash, from, to))
    {
      var found := FindOrder(orders, orderHash);
      if found.None? {
        return Some(UnknownOrder);
      }
      var j := found.value;
      var order := orders[j];
      if !AllAt(order.items, from) {
        return Some(IllegalTransition);
      }
      orders := orders[j := order.(items := SetStatus(order.items, to))];
      error := None;
    }

    /** MPA_LOCK from the buyer: the order's item goes from AWAITING_ESCROW to ESCROW_LOCKED. */
    method ProcessLock(orderHash: Hash) returns (error: Option<FlowError>)
      requires Valid()
      modifies this
      ensures Valid()
      ensures Snapshot() == Next(old(Snapshot()), LockMsg(orderHash))
      ensures error == Rejection(Apply(old(Snapshot()), LockMsg(orderHash)))
    {
      error := AdvanceOrder(orderHash, AWAITING_ESCROW, ESCROW_LOCKED);
      if error.None? {
        ApplyPreservesValid(old(Snapshot()), LockMsg(orderHash));
      }
    }

    /** MPA_RELEASE: from the seller, ESCROW_LOCKED to SHIPPING; from the buyer, SHIPPING to COMPLETE. */
    method ProcessRelease(orderHash: Hash, sender: Role) returns (error: Option<FlowError>)
      requires Valid()
      modifies this
      ensures Valid()
      ensures Snapshot() == Next(old(Snapshot()), ReleaseMsg(orderHash, sender))
      ensures error == Rejection(Apply(old(Snapshot()), ReleaseMsg(orderHash, sender)))
    {
      if sender == Seller {
        error := AdvanceOrder(orderHash, ESCROW_LOCKED, SHIPPING);
      } else {
        error := AdvanceOrder(orderHash, SHIPPING, COMPLETE);
      }
      if error.None? {
        ApplyPreservesValid(old(Snapshot()), ReleaseMsg(orderHash, sender));
      }
    }
  }

  /**
   * One message of the flow: applied first on the sender's replica and then
   * on the receiver's, each reporting what its own call rejected.
   */
  method Deliver(sender: Replica, receiver: Replica, m: Message) returns (senderError: Option<FlowError>, receiverError: Option<FlowError>)
    requires sender != receiver && sender.Valid() && receiver.Valid()
    modifies sender, receiver
    ensures sender.Valid() && receiver.Valid()
    ensures sender.Snapshot() == Next(old(sender.Snapshot()), m)
    ensures receiver.Snapshot() == Next(old(receiver.Snapshot()), m)
    ensures senderError == Rejection(Apply(old(sender.Snapshot()), m))
    ensures receiverError == Rejection(Apply(old(receiver.Snapshot()), m))
  {
    match m
    case ItemAdd(h, seller) =>
      sender.ReceiveListingItem(h, seller);
      receiver.ReceiveListingItem(h, seller);
      senderError, receiverError := None, None;
    case BidMsg(bh, ih, bidder) =>
      senderError := sender.ProcessBid(bh, ih, bidder);
      receiverError := receiver.ProcessBid(bh, ih, bidder);
    case AcceptMsg(bh, oh) =>
      senderError := sender.ProcessAccept(bh, oh);
      receiverError := receiver.ProcessAccept(bh, oh);
    case LockMsg(oh) =>
      senderError := sender.ProcessLock(oh);
      receiverError := receiver.ProcessLock(oh);
    case ReleaseMsg(oh, role) =>
      senderError := sender.ProcessRelease(oh, role);
      receiverError := receiver.ProcessRelease(oh, role);
  }

  /**
   * The happy buy flow: the seller owns a template and posts it as a listing
   * with the same hash; the buyer bids, the seller accepts, the buyer locks,
   * the seller releases and the buyer releases. Each message is applied on the
   * sender's replica and then on the receiver's. The traces hold each
   * replica's state after every message and `errors` what each of the ten
   * bid, accept, lock and release calls reported.
   */
  method HappyBuyFlow(sc: Scenario) returns (buyerTrace: seq<State>, sellerTrace: seq<State>, errors: seq<Option<FlowError>>)
    ensures buyerTrace == Trace(sc, {})
    ensures sellerTrace == Trace(sc, {sc.itemHash})
    ensures errors == [None, None, None, None, None, None, None, None, None, None]
    ensures buyerTrace[5].listings[sc.itemHash].template == None
    ensures sellerTrace[5].listings[sc.itemHash].template == Some(sc.itemHash)
    ensures buyerTrace[5].bids == sellerTrace[5].bids == [Bid(sc.bidHash, MPA_ACCEPT, sc.itemHash, sc.buyer)]
    ensures buyerTrace[5].orders == sellerTrace[5].orders
              == [Order(sc.orderHash, sc.buyer, sc.seller, [OrderItem(sc.itemHash, sc.bidHash, COMPLETE)])]
  {
    var b: set<Hash> := {};
    var t := {sc.itemHash};
    var sellerReplica := new Replica(t);
    var buyerReplica := new Replica(b);
    // MP_ITEM_ADD reaches both nodes; only the seller's listing is matched to its template
    ItemAddStep(sc, t);
    ItemAddStep(sc, b);
    var _, _ := Deliver(sellerReplica, buyerReplica, ItemAdd(sc.itemHash, sc.seller));
    var buyer0, seller0 := buyerReplica.Snapshot(), sellerReplica.Snapshot();

    // MPA_BID: posted by the buyer, received by the seller
    BidStep(sc, b);
    BidStep(sc, t);
    var e1, e2 := Deliver(buyerReplica, sellerReplica, BidMsg(sc.bidHash, sc.itemHash, sc.buyer));
    var buyer1, seller1 := buyerReplica.Snapshot(), sellerReplica.Snapshot();

    // MPA_ACCEPT: posted by the seller, received by the buyer
    AcceptStep(sc, t);
    AcceptStep(sc, b);
    var e3, e4 := Deliver(sellerReplica, buyerReplica, AcceptMsg(sc.bidHash, sc.orderHash));
    var buyer2, seller2 := buyerReplica.Snapshot(), sellerReplica.Snapshot();

    // MPA_LOCK: posted by the buyer, received by the seller
    LockStep(sc, b);
    LockStep(sc, t);
    var e5, e6 := Deliver(buyerReplica, sellerReplica, LockMsg(sc.orderHash));
    var buyer3, seller3 := buyerReplica.Snapshot(), sellerReplica.Snapshot();

    // MPA_RELEASE from the seller: the item is shipping
    SellerReleaseStep(sc, t);
    SellerReleaseStep(sc, b);
    var e7, e8 := Deliver(sellerReplica, buyerReplica, ReleaseMsg(sc.orderHash, Seller));
    var buyer4, seller4 := buyerReplica.Snapshot(), sellerReplica.Snapshot();

    // MPA_RELEASE from the buyer: the order is complete
    BuyerReleaseStep(sc, b);
    BuyerReleaseStep(sc, t);
    var e9, e10 := Deliver(buyerReplica, sellerReplica, ReleaseMsg(sc.orderHash, Buyer));
    var buyer5, seller5 := buyerReplica.Snapshot(), sellerReplica.Snapshot();

    buyerTrace := [buyer0, buyer1, buyer2, buyer3, buyer4, buyer5];
    sellerTrace := [seller0, seller1, seller2, seller3, seller4, seller5];
    errors := [e1, e2, e3, e4, e5, e6, e7, e8, e9, e10];
  }
}
