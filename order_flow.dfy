/**
 * The order/escrow lifecycle of one marketplace node's local replica, as a
 * pure transition function. A node holds listing items, bids and orders;
 * each protocol message (MP_ITEM_ADD, MPA_BID, MPA_ACCEPT, MPA_LOCK,
 * MPA_RELEASE) is applied through the same function whether the node sent
 * it or received it.
 */
module OrderFlow {
  import opened Wrappers

  type Address = string
  type Hash = string

  datatype Role = Buyer | Seller

  /** The bid actions the happy buy flow drives a bid through. */
  datatype BidMessageType = MPA_BID | MPA_ACCEPT

  /** The order-item statuses of the happy buy flow, in the order they are reached. */
  datatype OrderStatus = AWAITING_ESCROW | ESCROW_LOCKED | SHIPPING | COMPLETE

  function Rank(st: OrderStatus): nat {
    match st
    case AWAITING_ESCROW => 0
    case ESCROW_LOCKED => 1
    case SHIPPING => 2
    case COMPLETE => 3
  }

  /** A received listing; `template` is its relation to a local ListingItemTemplate. */
  datatype ListingItem = ListingItem(hash: Hash, seller: Address, template: Option<Hash>)

  datatype Bid = Bid(hash: Hash, action: BidMessageType, itemHash: Hash, bidder: Address)

  /** An order item; `bidHash` is its relation to the bid it came from. */
  datatype OrderItem = OrderItem(itemHash: Hash, bidHash: Hash, status: OrderStatus)

  datatype Order = Order(hash: Hash, buyer: Address, seller: Address, items: seq<OrderItem>)

  datatype Message =
    | ItemAdd(itemHash: Hash, seller: Address)               // MP_ITEM_ADD
    | BidMsg(bidHash: Hash, itemHash: Hash, bidder: Address)  // MPA_BID, from the buyer
    | AcceptMsg(bidHash: Hash, orderHash: Hash)              // MPA_ACCEPT, from the seller
    | LockMsg(orderHash: Hash)                               // MPA_LOCK, from the buyer
    | ReleaseMsg(orderHash: Hash, sender: Role)              // MPA_RELEASE, from either side

  datatype FlowError = UnknownListing | UnknownBid | UnknownOrder | IllegalTransition

  /** A replica's records; `templates` are the hashes of the node's own listing templates. */
  datatype State = State(templates: set<Hash>, listings: map<Hash, ListingItem>, bids: seq<Bid>, orders: seq<Order>)

  function Empty(templates: set<Hash>): State {
    State(templates, map[], [], [])
  }

  // ---------------------------------------------------------------------------
  // Lookups
  // ---------------------------------------------------------------------------

  /** The first position of `xs` whose key is `k`. */
  function FirstIndex<T, K(==)>(xs: seq<T>, key: T -> K, k: K): (r: Option<nat>)
    ensures r.Some? ==> r.value < |xs| && key(xs[r.value]) == k
    ensures r.Some? ==> forall j :: 0 <= j < r.value ==> key(xs[j]) != k
    ensures r.None? ==> forall j :: 0 <= j < |xs| ==> key(xs[j]) != k
  {
    if |xs| == 0 then None
    else if key(xs[0]) == k then Some(0)
    else match FirstIndex(xs[1..], key, k)
      case None => None
      case Some(j) => Some(j + 1)
  }

  /** FirstIndex depends on the keys alone: a longer sequence agreeing on a prefix finds the same. */
  lemma FirstIndexKeysAgree<T, K>(xs: seq<T>, ys: seq<T>, key: T -> K, k: K)
    requires |xs| <= |ys|
    requires forall j :: 0 <= j < |xs| ==> key(xs[j]) == key(ys[j])
    ensures FirstIndex(xs, key, k).Some? ==> FirstIndex(ys, key, k) == FirstIndex(xs, key, k)
    ensures |xs| == |ys| ==> FirstIndex(ys, key, k) == FirstIndex(xs, key, k)
    ensures |ys| == |xs| + 1 && FirstIndex(xs, key, k).None? ==>
              FirstIndex(ys, key, k) == if key(ys[|xs|]) == k then Some(|xs|) else None
  {
    var a, b := FirstIndex(xs, key, k), FirstIndex(ys, key, k);
    if a.Some? {
      assert key(ys[a.value]) == k;
      assert b.Some? && b.value <= a.value;
    } else if b.Some? && b.value < |xs| {
      assert key(xs[b.value]) == k;
    }
  }

  function BidHash(b: Bid): Hash { b.hash }
  function OrderHash(o: Order): Hash { o.hash }

  /** The bid an order came from: the relation of its first item. */
  function OrderBid(o: Order): Option<Hash> {
    if |o.items| > 0 then Some(o.items[0].bidHash) else None
  }

  function FindBid(bids: seq<Bid>, h: Hash): Option<nat> { FirstIndex(bids, BidHash, h) }
  function FindOrder(orders: seq<Order>, h: Hash): Option<nat> { FirstIndex(orders, OrderHash, h) }
  function FindOrderOfBid(orders: seq<Order>, h: Hash): Option<nat> { FirstIndex(orders, OrderBid, Some(h)) }

  function TemplateOf(templates: set<Hash>, h: Hash): Option<Hash> {
    if h in templates then Some(h) else None
  }

  // ---------------------------------------------------------------------------
  // The transition function
  // ---------------------------------------------------------------------------

  /** Every item of an order has status `st`. */
  predicate AllAt(items: seq<OrderItem>, st: OrderStatus) {
    |items| > 0 && forall k :: 0 <= k < |items| ==> items[k].status == st
  }

  function SetStatus(items: seq<OrderItem>, st: OrderStatus): (r: seq<OrderItem>)
    ensures |r| == |items|
    ensures forall k :: 0 <= k < |r| ==> r[k] == items[k].(status := st)
  {
    seq(|items|, k requires 0 <= k < |items| => items[k].(status := st))
  }

  /**
   * The escrow steps: which status an order must be in for a message and which
   * status it then moves to. None for the messages that are not escrow steps.
   */
  function EscrowStep(m: Message): (r: Option<(OrderStatus, OrderStatus)>)
    ensures r.Some? <==> m.LockMsg? || m.ReleaseMsg?
    ensures r.Some? ==> Rank(r.value.1) == Rank(r.value.0) + 1
  {
    match m
    case LockMsg(_) => Some((AWAITING_ESCROW, ESCROW_LOCKED))
    case ReleaseMsg(_, Seller) => Some((ESCROW_LOCKED, SHIPPING))
    case ReleaseMsg(_, Buyer) => Some((SHIPPING, COMPLETE))
    case _ => None
  }

  /** An order keeps its identity, parties, items and relations; statuses only move forward. */
  predicate Evolves(o: Order, o': Order) {
    && o'.hash == o.hash && o'.buyer == o.buyer && o'.seller == o.seller
    && |o'.items| == |o.items|
    && forall k :: 0 <= k < |o.items| ==>
         && o'.items[k].itemHash == o.items[k].itemHash
         && o'.items[k].bidHash == o.items[k].bidHash
         && Rank(o.items[k].status) <= Rank(o'.items[k].status)
  }

  /** A bid keeps its hash, listing and bidder; an accepted bid stays accepted. */
  predicate BidEvolves(b: Bid, b': Bid) {
    b'.hash == b.hash && b'.itemHash == b.itemHash && b'.bidder == b.bidder &&
    (b.action == MPA_ACCEPT ==> b'.action == MPA_ACCEPT)
  }

  function Advance(s: State, orderHash: Hash, from: OrderStatus, to: OrderStatus): Result<State, FlowError> {
    match FindOrder(s.orders, orderHash)
    case None => Err(UnknownOrder)
    case Some(j) =>
      var o := s.orders[j];
      if !AllAt(o.items, from) then Err(IllegalTransition)
      else Ok(s.(orders := s.orders[j := o.(items := SetStatus(o.items, to))]))
  }

  /** Applies one protocol message to a replica, or says why it cannot be applied. */
  function Apply(s: State, m: Message): (r: Result<State, FlowError>)
    ensures m.ItemAdd? ==> r.Ok?
    ensures m.BidMsg? ==> (r.Ok? <==> m.itemHash in s.listings)
    ensures r.Ok? ==> r.value.templates == s.templates
    ensures r.Ok? ==> forall h :: h in s.listings ==> h in r.value.listings && r.value.listings[h] == s.listings[h]
    ensures r.Ok? ==> |r.value.bids| == |s.bids| + (if m.BidMsg? then 1 else 0)
    ensures r.Ok? ==> |r.value.orders| == |s.orders| + (if m.AcceptMsg? then 1 else 0)
    ensures r.Ok? ==> forall i :: 0 <= i < |s.bids| ==> BidEvolves(s.bids[i], r.value.bids[i])
    ensures r.Ok? ==> forall j :: 0 <= j < |s.orders| ==> Evolves(s.orders[j], r.value.orders[j])
  {
    match m
    case ItemAdd(h, seller) =>
      if h in s.listings then Ok(s)
      else Ok(s.(listings := s.listings[h := ListingItem(h, seller, TemplateOf(s.templates, h))]))
    case BidMsg(bh, ih, bidder) =>
      if ih !in s.listings then Err(UnknownListing)
      else Ok(s.(bids := s.bids + [Bid(bh, MPA_BID, ih, bidder)]))
    case AcceptMsg(bh, oh) =>
      (match FindBid(s.bids, bh)
      case None => Err(UnknownBid)
      case Some(i) =>
        var b := s.bids[i];
        if b.action != MPA_BID then Err(IllegalTransition)
        else if b.itemHash !in s.listings then Err(UnknownListing)
        else
          var item := OrderItem(b.itemHash, bh, AWAITING_ESCROW);
          Ok(s.(bids := s.bids[i := b.(action := MPA_ACCEPT)],
                orders := s.orders + [Order(oh, b.bidder, s.listings[b.itemHash].seller, [item])])))
    case LockMsg(oh) =>
      Advance(s, oh, EscrowStep(m).value.0, EscrowStep(m).value.1)
    case ReleaseMsg(oh, _) =>
      Advance(s, oh, EscrowStep(m).value.0, EscrowStep(m).value.1)
  }

  /** Why a message was not applied, if it was not. */
  function Rejection(r: Result<State, FlowError>): Option<FlowError> {
    if r.Err? then Some(r.error) else None
  }

  /** A rejected message leaves the replica as it was. */
  function Next(s: State, m: Message): State {
    match Apply(s, m)
    case Ok(t) => t
    case Err(_) => s
  }

  /** Applies a sequence of messages in order. */
  function Run(s: State, ms: seq<Message>): State
    decreases |ms|
  {
    if ms == [] then s else Run(Next(s, ms[0]), ms[1..])
  }
}

module OrderFlowInvariant {
  import opened Wrappers
  import opened OrderFlow

  // ---------------------------------------------------------------------------
  // The replica invariant
  // ---------------------------------------------------------------------------

  /** Listings are keyed by their hash and relate to a template exactly when the node owns one with that hash. */
  predicate ListingsWellFormed(s: State) {
    forall h :: h in s.listings ==> s.listings[h].hash == h && s.listings[h].template == TemplateOf(s.templates, h)
  }

  predicate BidsOnListings(s: State) {
    forall i :: 0 <= i < |s.bids| ==> s.bids[i].itemHash in s.listings
  }

  /** An order has one item, made from an accepted bid: buyer is the bidder, seller the listing's seller. */
  predicate OrderFromBid(s: State, o: Order) {
    |o.items| == 1 &&
    match FindBid(s.bids, o.items[0].bidHash)
    case None => false
    case Some(i) =>
      var b := s.bids[i];
      && b.action == MPA_ACCEPT
      && o.buyer == b.bidder
      && o.items[0].itemHash == b.itemHash
      && b.itemHash in s.listings
      && o.seller == s.listings[b.itemHash].seller
  }

  predicate OrdersFromBids(s: State) {
    forall j :: 0 <= j < |s.orders| ==> OrderFromBid(s, s.orders[j])
  }

  predicate OneOrderPerBid(s: State) {
    forall j, k :: 0 <= j < k < |s.orders| ==> OrderBid(s.orders[j]) != OrderBid(s.orders[k])
  }

  predicate AcceptedBidsHaveOrders(s: State) {
    forall i :: 0 <= i < |s.bids| && s.bids[i].action == MPA_ACCEPT ==> FindOrderOfBid(s.orders, s.bids[i].hash).Some?
  }

  predicate Valid(s: State) {
    && ListingsWellFormed(s)
    && BidsOnListings(s)
    && OrdersFromBids(s)
    && OneOrderPerBid(s)
    && AcceptedBidsHaveOrders(s)
  }

  lemma EmptyValid(templates: set<Hash>)
    ensures Valid(Empty(templates))
  {
  }

  lemma ItemAddPreservesValid(s: State, h: Hash, seller: Address)
    requires Valid(s)
    ensures Valid(Apply(s, ItemAdd(h, seller)).value)
  {
    var t := Apply(s, ItemAdd(h, seller)).value;
    assert t.bids == s.bids && t.orders == s.orders;
    forall j | 0 <= j < |t.orders| ensures OrderFromBid(t, t.orders[j]) {
      assert OrderFromBid(s, s.orders[j]);
    }
  }

  lemma BidPreservesValid(s: State, bh: Hash, ih: Hash, bidder: Address)
    requires Valid(s)
    requires Apply(s, BidMsg(bh, ih, bidder)).Ok?
    ensures Valid(Apply(s, BidMsg(bh, ih, bidder)).value)
  {
    var t := Apply(s, BidMsg(bh, ih, bidder)).value;
    assert t.bids == s.bids + [Bid(bh, MPA_BID, ih, bidder)];
    forall j | 0 <= j < |t.orders| ensures OrderFromBid(t, t.orders[j]) {
      var o := s.orders[j];
      assert OrderFromBid(s, o);
      FirstIndexKeysAgree(s.bids, t.bids, BidHash, o.items[0].bidHash);
    }
  }

  /** A bid whose first occurrence is not yet accepted has no order. */
  lemma UnacceptedBidHasNoOrder(s: State, bh: Hash)
    requires OrdersFromBids(s)
    requires FindBid(s.bids, bh).Some? && s.bids[FindBid(s.bids, bh).value].action != MPA_ACCEPT
    ensures forall j :: 0 <= j < |s.orders| ==> OrderBid(s.orders[j]) != Some(bh)
  {
    forall j | 0 <= j < |s.orders| ensures OrderBid(s.orders[j]) != Some(bh) {
      assert OrderFromBid(s, s.orders[j]);
    }
  }

  /** The orders after an accept still come from accepted bids. */
  lemma AcceptKeepsOrdersFromBids(s: State, bh: Hash, oh: Hash)
    requires Valid(s)
    requires Apply(s, AcceptMsg(bh, oh)).Ok?
    ensures OrdersFromBids(Apply(s, AcceptMsg(bh, oh)).value)
  {
    var t := Apply(s, AcceptMsg(bh, oh)).value;
    var i := FindBid(s.bids, bh).value;
    var b := s.bids[i];
    assert t.bids == s.bids[i := b.(action := MPA_ACCEPT)];
    FirstIndexKeysAgree(s.bids, t.bids, BidHash, bh);
    forall j | 0 <= j < |t.orders| ensures OrderFromBid(t, t.orders[j]) {
      if j < |s.orders| {
        var o := s.orders[j];
        assert OrderFromBid(s, o);
        FirstIndexKeysAgree(s.bids, t.bids, BidHash, o.items[0].bidHash);
      }
    }
  }

  /** The order an accept adds is for a bid no earlier order is for. */
  lemma AcceptKeepsOneOrderPerBid(s: State, bh: Hash, oh: Hash)
    requires Valid(s)
    requires Apply(s, AcceptMsg(bh, oh)).Ok?
    ensures OneOrderPerBid(Apply(s, AcceptMsg(bh, oh)).value)
  {
    var t := Apply(s, AcceptMsg(bh, oh)).value;
    var i := FindBid(s.bids, bh).value;
    var b := s.bids[i];
    var no := Order(oh, b.bidder, s.listings[b.itemHash].seller, [OrderItem(b.itemHash, bh, AWAITING_ESCROW)]);
    assert t.orders == s.orders + [no];
    UnacceptedBidHasNoOrder(s, bh);
  }

  /** After an accept every accepted bid, the new one included, has its order. */
  lemma AcceptKeepsAcceptedBidsHaveOrders(s: State, bh: Hash, oh: Hash)
    requires Valid(s)
    requires Apply(s, AcceptMsg(bh, oh)).Ok?
    ensures AcceptedBidsHaveOrders(Apply(s, AcceptMsg(bh, oh)).value)
  {
    var t := Apply(s, AcceptMsg(bh, oh)).value;
    var i := FindBid(s.bids, bh).value;
    var b := s.bids[i];
    var no := Order(oh, b.bidder, s.listings[b.itemHash].seller, [OrderItem(b.itemHash, bh, AWAITING_ESCROW)]);
    assert t.bids == s.bids[i := b.(action := MPA_ACCEPT)];
    assert t.orders == s.orders + [no];
    forall k | 0 <= k < |t.bids| && t.bids[k].action == MPA_ACCEPT
      ensures FindOrderOfBid(t.orders, t.bids[k].hash).Some?
    {
      FirstIndexKeysAgree(s.orders, t.orders, OrderBid, Some(t.bids[k].hash));
      if k != i {
        assert FindOrderOfBid(s.orders, s.bids[k].hash).Some?;
      } else {
        assert OrderBid(t.orders[|s.orders|]) == Some(bh);
      }
    }
  }

  lemma AcceptPreservesValid(s: State, bh: Hash, oh: Hash)
    requires Valid(s)
    requires Apply(s, AcceptMsg(bh, oh)).Ok?
    ensures Valid(Apply(s, AcceptMsg(bh, oh)).value)
  {
    var t := Apply(s, AcceptMsg(bh, oh)).value;
    var i := FindBid(s.bids, bh).value;
    assert t.bids == s.bids[i := s.bids[i].(action := MPA_ACCEPT)];
    AcceptKeepsOrdersFromBids(s, bh, oh);
    AcceptKeepsOneOrderPerBid(s, bh, oh);
    AcceptKeepsAcceptedBidsHaveOrders(s, bh, oh);
  }

  lemma AdvancePreservesValid(s: State, oh: Hash, from: OrderStatus, to: OrderStatus)
    requires Valid(s)
    requires Advance(s, oh, from, to).Ok?
    ensures Valid(Advance(s, oh, from, to).value)
  {
    var t := Advance(s, oh, from, to).value;
    var j := FindOrder(s.orders, oh).value;
    assert t.bids == s.bids && |t.orders| == |s.orders|;
    assert forall k :: 0 <= k < |s.orders| ==> OrderBid(t.orders[k]) == OrderBid(s.orders[k]);
    forall k | 0 <= k < |t.orders| ensures OrderFromBid(t, t.orders[k]) {
      assert OrderFromBid(s, s.orders[k]);
    }
    forall i, h | 0 <= i < |s.bids| && h == s.bids[i].hash
      ensures FindOrderOfBid(t.orders, h) == FindOrderOfBid(s.orders, h)
    {
      FirstIndexKeysAgree(s.orders, t.orders, OrderBid, Some(h));
    }
  }

  /** Every message a replica accepts keeps its invariant. */
  lemma ApplyPreservesValid(s: State, m: Message)
    requires Valid(s)
    requires Apply(s, m).Ok?
    ensures Valid(Apply(s, m).value)
  {
    match m
    case ItemAdd(h, seller) => ItemAddPreservesValid(s, h, seller);
    case BidMsg(bh, ih, bidder) => BidPreservesValid(s, bh, ih, bidder);
    case AcceptMsg(bh, oh) => AcceptPreservesValid(s, bh, oh);
    case LockMsg(oh) => AdvancePreservesValid(s, oh, EscrowStep(m).value.0, EscrowStep(m).value.1);
    case ReleaseMsg(oh, _) => AdvancePreservesValid(s, oh, EscrowStep(m).value.0, EscrowStep(m).value.1);
  }

  lemma {:induction false} RunPreservesValid(s: State, ms: seq<Message>)
    requires Valid(s)
    ensures Valid(Run(s, ms))
    decreases |ms|
  {
    if ms != [] {
      if Apply(s, ms[0]).Ok? {
        ApplyPreservesValid(s, ms[0]);
      }
      RunPreservesValid(Next(s, ms[0]), ms[1..]);
    }
  }
}

module OrderFlowProperties {
  import opened Wrappers
  import opened OrderFlow
  import opened OrderFlowInvariant

  // ---------------------------------------------------------------------------
  // The escrow steps
  // ---------------------------------------------------------------------------

  /**
   * On a valid replica an escrow message is applied exactly when its order is
   * known and in the step's starting status; it then moves that order's one
   * item to the step's target status and changes nothing else.
   */
  lemma EscrowTransition(s: State, m: Message)
    requires Valid(s)
    requires m.LockMsg? || m.ReleaseMsg?
    ensures var (from, to) := EscrowStep(m).value;
            var j := FindOrder(s.orders, m.orderHash);
            && (Apply(s, m).Ok? <==> j.Some? && s.orders[j.value].items[0].status == from)
            && (Apply(s, m).Ok? ==>
                  var o := s.orders[j.value];
                  Apply(s, m).value == s.(orders := s.orders[j.value := o.(items := [o.items[0].(status := to)])]))
            && (Apply(s, m).Err? && j.Some? ==> Apply(s, m).error == IllegalTransition)
            && (j.None? ==> Apply(s, m) == Err(UnknownOrder))
  {
    var j := FindOrder(s.orders, m.orderHash);
    if j.Some? {
      var o := s.orders[j.value];
      assert OrderFromBid(s, o);
      assert AllAt(o.items, EscrowStep(m).value.0) <==> o.items[0].status == EscrowStep(m).value.0;
      assert SetStatus(o.items, EscrowStep(m).value.1) == [o.items[0].(status := EscrowStep(m).value.1)];
    }
  }

  /**
   * MPA_BID: recorded exactly when its listing is known, as a new last
   * bid in MPA_BID with the message's hash, listing and bidder; nothing else changes.
   */
  lemma BidTransition(s: State, bh: Hash, ih: Hash, bidder: Address)
    ensures Apply(s, BidMsg(bh, ih, bidder)).Ok? <==> ih in s.listings
    ensures Apply(s, BidMsg(bh, ih, bidder)).Ok? ==>
              Apply(s, BidMsg(bh, ih, bidder)).value == s.(bids := s.bids + [Bid(bh, MPA_BID, ih, bidder)])
    ensures ih !in s.listings ==> Apply(s, BidMsg(bh, ih, bidder)) == Err(UnknownListing)
  {
  }

  /**
   * On a valid replica MPA_ACCEPT succeeds exactly when the first bid with
   * the named hash is still in MPA_BID. That bid, and no other, becomes
   * MPA_ACCEPT, and one order is appended: the bidder as buyer, the listing's
   * seller, and one item on the bid's listing for this bid in AWAITING_ESCROW.
   */
  lemma AcceptTransition(s: State, bh: Hash, oh: Hash)
    requires Valid(s)
    ensures var i := FindBid(s.bids, bh);
            && (Apply(s, AcceptMsg(bh, oh)).Ok? <==> i.Some? && s.bids[i.value].action == MPA_BID)
            && (i.None? ==> Apply(s, AcceptMsg(bh, oh)) == Err(UnknownBid))
            && (i.Some? && s.bids[i.value].action != MPA_BID ==> Apply(s, AcceptMsg(bh, oh)) == Err(IllegalTransition))
    ensures var i := FindBid(s.bids, bh);
            Apply(s, AcceptMsg(bh, oh)).Ok? ==>
              var b := s.bids[i.value];
              && b.itemHash in s.listings
              && Apply(s, AcceptMsg(bh, oh)).value
                 == s.(bids := s.bids[i.value := b.(action := MPA_ACCEPT)],
                       orders := s.orders + [Order(oh, b.bidder, s.listings[b.itemHash].seller,
                                                   [OrderItem(b.itemHash, bh, AWAITING_ESCROW)])])
  {
    var i := FindBid(s.bids, bh);
    if i.Some? {
      assert s.bids[i.value].itemHash in s.listings;
    }
  }

  /** A lock for an order that is already shipping is refused and its status stays. */
  lemma LockWhileShippingRefused(s: State, oh: Hash)
    requires Valid(s)
    requires FindOrder(s.orders, oh).Some? && s.orders[FindOrder(s.orders, oh).value].items[0].status == SHIPPING
    ensures Apply(s, LockMsg(oh)) == Err(IllegalTransition)
  {
    EscrowTransition(s, LockMsg(oh));
  }

  // ---------------------------------------------------------------------------
  // Searches
  // ---------------------------------------------------------------------------

  /** `bid search`: by listing, then by bid action or by the status of the bid's order item, then by bidder. */
  datatype BidFilter = ByAction(action: BidMessageType) | ByOrderStatus(status: OrderStatus)
  datatype BidSearch = BidSearch(itemHash: Hash, filter: BidFilter, bidder: Option<Address>)

  /** The order item a bid turned into, if an order was made from it. */
  function BidOrderItem(s: State, b: Bid): (r: Option<OrderItem>)
    ensures r.Some? <==> FindOrderOfBid(s.orders, b.hash).Some?
    ensures r.Some? ==> r.value == s.orders[FindOrderOfBid(s.orders, b.hash).value].items[0]
    ensures r.Some? ==> r.value.bidHash == b.hash
  {
    match FindOrderOfBid(s.orders, b.hash)
    case None => None
    case Some(j) => Some(s.orders[j].items[0])
  }

  predicate BidMatches(s: State, q: BidSearch, b: Bid) {
    && b.itemHash == q.itemHash
    && (q.bidder.Some? ==> b.bidder == q.bidder.value)
    && match q.filter
       case ByAction(a) => b.action == a
       case ByOrderStatus(st) => BidOrderItem(s, b).Some? && BidOrderItem(s, b).value.status == st
  }

  function FilterBids(s: State, q: BidSearch, bids: seq<Bid>): (r: seq<Bid>)
    ensures forall b :: b in r <==> b in bids && BidMatches(s, q, b)
    ensures forall b :: multiset(r)[b] == if BidMatches(s, q, b) then multiset(bids)[b] else 0
    ensures |r| <= |bids|
  {
    if bids == [] then []
    else
      assert bids == [bids[0]] + bids[1..];
      (if BidMatches(s, q, bids[0]) then [bids[0]] else []) + FilterBids(s, q, bids[1..])
  }

  function SearchBids(s: State, q: BidSearch): (r: seq<Bid>)
    ensures forall b :: b in r <==> b in s.bids && BidMatches(s, q, b)
    ensures forall b :: multiset(r)[b] == if BidMatches(s, q, b) then multiset(s.bids)[b] else 0
  {
    FilterBids(s, q, s.bids)
  }

  /** `order search`: by listing hash and status of an item, buyer and seller. */
  datatype OrderSearch = OrderSearch(itemHash: Hash, status: OrderStatus, buyer: Address, seller: Address)

  predicate OrderMatches(q: OrderSearch, o: Order) {
    && o.buyer == q.buyer && o.seller == q.seller
    && exists k :: 0 <= k < |o.items| && o.items[k].itemHash == q.itemHash && o.items[k].status == q.status
  }

  function FilterOrders(q: OrderSearch, orders: seq<Order>): (r: seq<Order>)
    ensures forall o :: o in r <==> o in orders && OrderMatches(q, o)
    ensures forall o :: multiset(r)[o] == if OrderMatches(q, o) then multiset(orders)[o] else 0
    ensures |r| <= |orders|
  {
    if orders == [] then []
    else
      assert orders == [orders[0]] + orders[1..];
      (if OrderMatches(q, orders[0]) then [orders[0]] else []) + FilterOrders(q, orders[1..])
  }

  function SearchOrders(s: State, q: OrderSearch): (r: seq<Order>)
    ensures forall o :: o in r <==> o in s.orders && OrderMatches(q, o)
    ensures forall o :: multiset(r)[o] == if OrderMatches(q, o) then multiset(s.orders)[o] else 0
  {
    FilterOrders(q, s.orders)
  }

  /** On a valid replica, every accepted bid is found by the status of its order item. */
  lemma AcceptedBidFoundByOrderStatus(s: State, i: nat)
    requires Valid(s)
    requires i < |s.bids| && s.bids[i].action == MPA_ACCEPT
    ensures BidOrderItem(s, s.bids[i]).Some?
    ensures var b := s.bids[i];
            b in SearchBids(s, BidSearch(b.itemHash, ByOrderStatus(BidOrderItem(s, b).value.status), None))
  {
    var j := FindOrderOfBid(s.orders, s.bids[i].hash).value;
    assert OrderFromBid(s, s.orders[j]);
  }

  // ---------------------------------------------------------------------------
  // Buyer and seller replicas
  // ---------------------------------------------------------------------------

  /** A replica without its template relations: what buyer and seller have in common. */
  function Erase(s: State): State {
    State({}, map h | h in s.listings :: s.listings[h].(template := None), s.bids, s.orders)
  }

  function EraseResult(r: Result<State, FlowError>): Result<State, FlowError> {
    match r
    case Ok(t) => Ok(Erase(t))
    case Err(e) => Err(e)
  }

  /** What two replicas with the same erasure share: bids, orders, listing keys and listing sellers. */
  lemma ErasedAlike(s1: State, s2: State)
    requires Erase(s1) == Erase(s2)
    ensures s1.bids == s2.bids && s1.orders == s2.orders
    ensures s1.listings.Keys == s2.listings.Keys
    ensures forall h :: h in s1.listings ==> s1.listings[h].seller == s2.listings[h].seller
  {
    assert s1.listings.Keys == s2.listings.Keys by {
      assert forall h :: h in s1.listings <==> h in Erase(s1).listings;
      assert forall h :: h in s2.listings <==> h in Erase(s2).listings;
    }
    forall h | h in s1.listings ensures s1.listings[h].seller == s2.listings[h].seller {
      assert Erase(s1).listings[h] == Erase(s2).listings[h];
    }
  }

  /** A new listing is stored alike on both replicas, apart from its template relation. */
  lemma ItemAddAgrees(s1: State, s2: State, h: Hash, seller: Address)
    requires Erase(s1) == Erase(s2)
    ensures EraseResult(Apply(s1, ItemAdd(h, seller))) == EraseResult(Apply(s2, ItemAdd(h, seller)))
  {
    ErasedAlike(s1, s2);
    if h !in s1.listings {
      var t1, t2 := Apply(s1, ItemAdd(h, seller)).value, Apply(s2, ItemAdd(h, seller)).value;
      assert Erase(t1).listings == Erase(t2).listings by {
        forall k | k in t1.listings ensures Erase(t1).listings[k] == Erase(t2).listings[k] {
          if k != h {
            assert Erase(s1).listings[k] == Erase(s2).listings[k];
          }
        }
      }
    }
  }

  /** Replicas that differ only in their templates accept and reject the same messages, alike. */
  lemma ApplyAgrees(s1: State, s2: State, m: Message)
    requires Erase(s1) == Erase(s2)
    ensures EraseResult(Apply(s1, m)) == EraseResult(Apply(s2, m))
  {
    ErasedAlike(s1, s2);
    match m
    case ItemAdd(h, seller) => ItemAddAgrees(s1, s2, h, seller);
    case _ =>
  }

  lemma {:induction false} RunAgrees(s1: State, s2: State, ms: seq<Message>)
    requires Erase(s1) == Erase(s2)
    ensures Erase(Run(s1, ms)) == Erase(Run(s2, ms))
    decreases |ms|
  {
    if ms != [] {
      ApplyAgrees(s1, s2, ms[0]);
      RunAgrees(Next(s1, ms[0]), Next(s2, ms[0]), ms[1..]);
    }
  }

  /**
   * The sender's and the receiver's replica, fed the same messages, end with
   * the same listings, bids and orders; only the template relation differs,
   * and it is present exactly where the node owns the template.
   */
  lemma ReplicasAgree(buyerTemplates: set<Hash>, sellerTemplates: set<Hash>, ms: seq<Message>)
    ensures Erase(Run(Empty(buyerTemplates), ms)) == Erase(Run(Empty(sellerTemplates), ms))
    ensures forall h :: h in Run(Empty(sellerTemplates), ms).listings ==>
              Run(Empty(sellerTemplates), ms).listings[h].template == (if h in sellerTemplates then Some(h) else None)
    ensures forall h :: h in Run(Empty(buyerTemplates), ms).listings ==>
              Run(Empty(buyerTemplates), ms).listings[h].template == (if h in buyerTemplates then Some(h) else None)
  {
    assert Erase(Empty(buyerTemplates)) == Erase(Empty(sellerTemplates));
    RunAgrees(Empty(buyerTemplates), Empty(sellerTemplates), ms);
    EmptyValid(buyerTemplates);
    EmptyValid(sellerTemplates);
    RunPreservesValid(Empty(buyerTemplates), ms);
    RunPreservesValid(Empty(sellerTemplates), ms);
    RunKeepsTemplates(Empty(buyerTemplates), ms);
    RunKeepsTemplates(Empty(sellerTemplates), ms);
  }

  lemma {:induction false} RunKeepsTemplates(s: State, ms: seq<Message>)
    ensures Run(s, ms).templates == s.templates
    decreases |ms|
  {
    if ms != [] {
      RunKeepsTemplates(Next(s, ms[0]), ms[1..]);
    }
  }
}
