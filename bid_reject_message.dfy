/**
 * BidRejectMessage: the seller's MPA_REJECT answer to a bid. Its hashable
 * form has no seller part, and `objects` has no initialiser, so the hashable
 * form carries it only once it has been set.
 */
module BidReject {
  import opened Wrappers
  import opened ActionMessages

  datatype BidRejectMessage = BidRejectMessage(
    messageType: Slot<MPAction>,
    bid: Slot<string>,
    objects: Slot<seq<KVS>>,
    generated: Slot<int>,
    hash: Slot<string>)

  /** A newly constructed message: no field has an initialiser. */
  const Fresh: BidRejectMessage := BidRejectMessage(Missing, Missing, Missing, Missing, Missing)

  /** The hashable MPA_REJECT record; `objects` is a key that may be absent. */
  datatype RejectHashable = RejectHashable(
    messageType: Slot<MPAction>,
    generated: Slot<int>,
    bid: Slot<string>,
    objects: Option<seq<KVS>>)

  /** toHashable() */
  function ToHashable(m: BidRejectMessage): (h: RejectHashable)
    ensures h.messageType == m.messageType && h.generated == m.generated && h.bid == m.bid
    ensures h.objects.Some? <==> m.objects.Present?
    ensures h.objects.Some? ==> h.objects.value == m.objects.value
  {
    RejectHashable(m.messageType, m.generated, m.bid, PresentObjects(m.objects))
  }

  /** The message a hashable record was taken from, given its hash; an absent `objects` key was undefined. */
  function FromHashable(h: RejectHashable, hash: Slot<string>): BidRejectMessage {
    BidRejectMessage(h.messageType, h.bid,
                     if h.objects.Some? then Present(h.objects.value) else Missing,
                     h.generated, hash)
  }

  /** Every hashable record is the hashable form of a message with any hash at all. */
  lemma HashableOfRebuilt(h: RejectHashable, hash: Slot<string>)
    ensures ToHashable(FromHashable(h, hash)) == h
  {
  }

  /** Only a null `objects` is lost on the way to the hashable form and back. */
  lemma RebuiltFromHashable(m: BidRejectMessage)
    ensures FromHashable(ToHashable(m), m.hash) == m <==> !m.objects.Null?
  {
  }

  /** `hash` takes no part: messages differing only in it hash alike. */
  lemma HashableIgnoresHash(m: BidRejectMessage, hash: Slot<string>)
    ensures ToHashable(m.(hash := hash)) == ToHashable(m)
  {
  }

  /** A message whose `objects` was never set hashes without an `objects` key. */
  lemma UnsetObjectsNotHashed(m: BidRejectMessage)
    requires m.objects == Fresh.objects
    ensures ToHashable(m).objects == None
  {
  }

  /** The field is declared with type MPA_REJECT, and toHashable() carries it over. */
  lemma HashableTypeIsReject(m: BidRejectMessage)
    requires m.messageType == Present(MPA_REJECT)
    ensures ToHashable(m).messageType == Present(MPA_REJECT)
  {
  }

  // ---------------------------------------------------------------------------
  // Content hash, with the hash routine as a parameter
  // ---------------------------------------------------------------------------

  /** The stored hash is the hash of the hashable form. */
  predicate Verify(m: BidRejectMessage, contentHash: RejectHashable -> string) {
    m.hash == Present(contentHash(ToHashable(m)))
  }

  /** Sets `hash` from the other fields. */
  function Stamp(m: BidRejectMessage, contentHash: RejectHashable -> string): (r: BidRejectMessage)
    ensures Verify(r, contentHash)
    ensures r.(hash := m.hash) == m
  {
    HashableIgnoresHash(m, Present(contentHash(ToHashable(m))));
    m.(hash := Present(contentHash(ToHashable(m))))
  }

  // ---------------------------------------------------------------------------
  // Required fields
  // ---------------------------------------------------------------------------

  datatype Field = Type | Bid | Objects | Generated | Hash

  /** The fields marked as not empty, in declaration order; `objects` is not among them. */
  const Required: seq<Field> := [Type, Bid, Generated, Hash]

  /** The non-empty check applied to one field. */
  predicate Filled(m: BidRejectMessage, f: Field) {
    match f
    case Type => NotEmpty(m.messageType)
    case Bid => NotEmptyString(m.bid)
    case Objects => NotEmpty(m.objects)
    case Generated => NotEmpty(m.generated)
    case Hash => NotEmptyString(m.hash)
  }

  /** The fields of `fs` that fail their check. */
  function Failing(m: BidRejectMessage, fs: seq<Field>): (r: seq<Field>)
    ensures forall f :: f in r <==> f in fs && !Filled(m, f)
    ensures |r| <= |fs|
  {
    if fs == [] then []
    else (if Filled(m, fs[0]) then [] else [fs[0]]) + Failing(m, fs[1..])
  }

  /** The required fields that fail their check. */
  function MissingFields(m: BidRejectMessage): (r: seq<Field>)
    ensures forall f :: f in r <==> f in Required && !Filled(m, f)
  {
    Failing(m, Required)
  }

  predicate Valid(m: BidRejectMessage) {
    MissingFields(m) == []
  }

  /** A message is complete exactly when type, bid, generated and hash are all non-empty. */
  lemma ValidIff(m: BidRejectMessage)
    ensures Valid(m) <==> forall f :: f in Required ==> Filled(m, f)
  {
    if !Valid(m) {
      assert MissingFields(m)[0] in MissingFields(m);
    }
  }

  lemma {:induction false} FailingIgnoresObjects(m: BidRejectMessage, objects: Slot<seq<KVS>>, fs: seq<Field>)
    requires Objects !in fs
    ensures Failing(m.(objects := objects), fs) == Failing(m, fs)
  {
    if fs != [] {
      FailingIgnoresObjects(m, objects, fs[1..]);
    }
  }

  /** `objects` is optional: any value of it leaves validity alone. */
  lemma ObjectsNotRequired(m: BidRejectMessage, objects: Slot<seq<KVS>>)
    ensures Valid(m.(objects := objects)) == Valid(m)
  {
    FailingIgnoresObjects(m, objects, Required);
  }

  /** A newly constructed message lacks every required field. */
  lemma FreshMissesAll(f: Field)
    requires f in Required
    ensures f in MissingFields(Fresh)
  {
  }
}
