/**
 * BidAcceptMessage: the seller's MPA_ACCEPT answer to a bid. toHashable()
 * picks the fields that the content hash covers, and the non-empty checks
 * on its declared fields decide whether a message is complete.
 */
module BidAccept {
  import opened Wrappers
  import opened ActionMessages

  /** The seller's part of an accept: its payment data, kept as an uninterpreted key/value list. */
  datatype SellerData = SellerData(payment: seq<KVS>)

  datatype BidAcceptMessage = BidAcceptMessage(
    messageType: Slot<MPAction>,
    bid: Slot<string>,
    seller: Slot<SellerData>,
    objects: Slot<seq<KVS>>,
    generated: Slot<int>,
    hash: Slot<string>)

  /** A newly constructed message: only `objects` has an initialiser, the empty list. */
  const Fresh: BidAcceptMessage := BidAcceptMessage(Missing, Missing, Missing, Present([]), Missing, Missing)

  /** The hashable MPA_ACCEPT record; `objects` is a key that may be absent. */
  datatype AcceptHashable = AcceptHashable(
    messageType: Slot<MPAction>,
    generated: Slot<int>,
    bid: Slot<string>,
    seller: Slot<SellerData>,
    objects: Option<seq<KVS>>)

  /** toHashable() */
  function ToHashable(m: BidAcceptMessage): (h: AcceptHashable)
    ensures h.messageType == m.messageType && h.generated == m.generated && h.bid == m.bid && h.seller == m.seller
    ensures h.objects.Some? <==> m.objects.Present?
    ensures h.objects.Some? ==> h.objects.value == m.objects.value
  {
    AcceptHashable(m.messageType, m.generated, m.bid, m.seller, PresentObjects(m.objects))
  }

  /** The message a hashable record was taken from, given its hash; an absent `objects` key was undefined. */
  function FromHashable(h: AcceptHashable, hash: Slot<string>): BidAcceptMessage {
    BidAcceptMessage(h.messageType, h.bid, h.seller,
                     if h.objects.Some? then Present(h.objects.value) else Missing,
                     h.generated, hash)
  }

  /** Every hashable record is the hashable form of a message with any hash at all. */
  lemma HashableOfRebuilt(h: AcceptHashable, hash: Slot<string>)
    ensures ToHashable(FromHashable(h, hash)) == h
  {
  }

  /** Only a null `objects` is lost on the way to the hashable form and back. */
  lemma RebuiltFromHashable(m: BidAcceptMessage)
    ensures FromHashable(ToHashable(m), m.hash) == m <==> !m.objects.Null?
  {
  }

  /** `hash` takes no part: messages differing only in it hash alike. */
  lemma HashableIgnoresHash(m: BidAcceptMessage, hash: Slot<string>)
    ensures ToHashable(m.(hash := hash)) == ToHashable(m)
  {
  }

  /** A message whose `objects` was never reassigned hashes with `objects: []`. */
  lemma DefaultObjectsHashed(m: BidAcceptMessage)
    requires m.objects == Fresh.objects
    ensures ToHashable(m).objects == Some([])
  {
  }

  /** The field is declared with type MPA_ACCEPT, and toHashable() carries it over. */
  lemma HashableTypeIsAccept(m: BidAcceptMessage)
    requires m.messageType == Present(MPA_ACCEPT)
    ensures ToHashable(m).messageType == Present(MPA_ACCEPT)
  {
  }

  // ---------------------------------------------------------------------------
  // Content hash, with the hash routine as a parameter
  // ---------------------------------------------------------------------------

  /** The stored hash is the hash of the hashable form. */
  predicate Verify(m: BidAcceptMessage, contentHash: AcceptHashable -> string) {
    m.hash == Present(contentHash(ToHashable(m)))
  }

  /** Sets `hash` from the other fields. */
  function Stamp(m: BidAcceptMessage, contentHash: AcceptHashable -> string): (r: BidAcceptMessage)
    ensures Verify(r, contentHash)
    ensures r.(hash := m.hash) == m
  {
    HashableIgnoresHash(m, Present(contentHash(ToHashable(m))));
    m.(hash := Present(contentHash(ToHashable(m))))
  }

  // ---------------------------------------------------------------------------
  // Required fields
  // ---------------------------------------------------------------------------

  datatype Field = Type | Bid | Seller | Objects | Generated | Hash

  /** The fields marked as not empty, in declaration order; `objects` is not among them. */
  const Required: seq<Field> := [Type, Bid, Seller, Generated, Hash]

  /** The non-empty check applied to one field. */
  predicate Filled(m: BidAcceptMessage, f: Field) {
    match f
    case Type => NotEmpty(m.messageType)
    case Bid => NotEmptyString(m.bid)
    case Seller => NotEmpty(m.seller)
    case Objects => NotEmpty(m.objects)
    case Generated => NotEmpty(m.generated)
    case Hash => NotEmptyString(m.hash)
  }

  /** The fields of `fs` that fail their check. */
  function Failing(m: BidAcceptMessage, fs: seq<Field>): (r: seq<Field>)
    ensures forall f :: f in r <==> f in fs && !Filled(m, f)
    ensures |r| <= |fs|
  {
    if fs == [] then []
    else (if Filled(m, fs[0]) then [] else [fs[0]]) + Failing(m, fs[1..])
  }

  /** The required fields that fail their check. */
  function MissingFields(m: BidAcceptMessage): (r: seq<Field>)
    ensures forall f :: f in r <==> f in Required && !Filled(m, f)
  {
    Failing(m, Required)
  }

  predicate Valid(m: BidAcceptMessage) {
    MissingFields(m) == []
  }

  /** A message is complete exactly when type, bid, seller, generated and hash are all non-empty. */
  lemma ValidIff(m: BidAcceptMessage)
    ensures Valid(m) <==> forall f :: f in Required ==> Filled(m, f)
  {
    if !Valid(m) {
      assert MissingFields(m)[0] in MissingFields(m);
    }
  }

  lemma {:induction false} FailingIgnoresObjects(m: BidAcceptMessage, objects: Slot<seq<KVS>>, fs: seq<Field>)
    requires Objects !in fs
    ensures Failing(m.(objects := objects), fs) == Failing(m, fs)
  {
    if fs != [] {
      FailingIgnoresObjects(m, objects, fs[1..]);
    }
  }

  /** `objects` is optional: any value of it leaves validity alone. */
  lemma ObjectsNotRequired(m: BidAcceptMessage, objects: Slot<seq<KVS>>)
    ensures Valid(m.(objects := objects)) == Valid(m)
  {
    FailingIgnoresObjects(m, objects, Required);
  }

  /** A newly constructed message lacks every required field. */
  lemma FreshMissesAll(f: Field)
    requires f in Required
    ensures f in MissingFields(Fresh)
  {
  }
}
