/**
 * What the bid-response action messages share: the protocol's message-type
 * tags, key/value objects, and message fields that may be undefined or null
 * at run time whatever their declared type.
 */
module ActionMessages {
  import opened Wrappers

  /** Message-type tags of the marketplace protocol that this model refers to. */
  datatype MPAction = MPA_BID | MPA_ACCEPT | MPA_REJECT | MPA_CANCEL | MPA_LOCK | MPA_RELEASE | MPA_REFUND

  /** A key/value pair attached to a message. */
  datatype KVS = KVS(key: string, value: string)

  /** A message field: never assigned (undefined), null, or holding a value. */
  datatype Slot<+T> = Missing | Null | Present(value: T)

  /** The non-empty check of a required field: neither undefined nor null. */
  predicate NotEmpty<T>(x: Slot<T>) {
    x.Present?
  }

  /** The non-empty check of a required string field: neither undefined, null nor "". */
  predicate NotEmptyString(x: Slot<string>) {
    x.Present? && x.value != ""
  }

  /** `if (this.objects)`: an array, even an empty one, is truthy; undefined and null are not. */
  function PresentObjects(objects: Slot<seq<KVS>>): (r: Option<seq<KVS>>)
    ensures r.Some? <==> objects.Present?
    ensures r.Some? ==> r.value == objects.value
  {
    if objects.Present? then Some(objects.value) else None
  }
}
