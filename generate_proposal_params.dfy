/**
 * GenerateProposalParams: the positional arguments of the "generate proposal"
 * test-data command. The constructor reads up to five loosely typed values,
 * coerces them by JavaScript truthiness and fills the gaps with defaults;
 * toParamsArray() writes the five settings back out in field order.
 */
module GenerateProposal {
  import opened JsValues
  import opened Wrappers

  /** voteCount when no truthy count is given. */
  const DefaultVoteCount: int := 10

  /** The five fields of a GenerateProposalParams object, in declaration order. */
  datatype Settings = Settings(
    generateListingItemTemplate: bool,
    generateListingItem: bool,
    listingItemHash: JsVal,
    generatePastProposal: JsVal,
    voteCount: JsVal)

  /** The field initialisers; listingItemHash has none, so it starts out undefined. */
  const Defaults: Settings := Settings(true, true, Undefined, Bool(false), Num(DefaultVoteCount))

  /**
   * The settings the constructor ends with, written without the
   * overwrite of generateListingItem: for a non-empty argument list the flag
   * is fixed by index 2 alone.
   */
  function Parse(args: seq<JsVal>): (r: Settings)
    ensures |args| == 0 ==> r == Defaults
    ensures |args| > 0 ==> r.generateListingItemTemplate == Truthy(args[0])
    ensures |args| > 0 ==> (r.generateListingItem <==> !Truthy(At(args, 2)))
    ensures r.generateListingItem <==> !Truthy(r.listingItemHash)
    ensures Truthy(r.voteCount)
    ensures !Truthy(At(args, 4)) ==> r.voteCount == Num(DefaultVoteCount)
    ensures Truthy(r.generatePastProposal) || r.generatePastProposal == Bool(false)
    ensures |args| > 0 ==> r.listingItemHash == (if Truthy(At(args, 2)) then At(args, 2) else Null)
    ensures |args| > 0 ==> r.generatePastProposal == (if Truthy(At(args, 3)) then At(args, 3) else Bool(false))
    ensures Truthy(At(args, 4)) ==> r.voteCount == At(args, 4)
  {
    if |args| == 0 then Defaults
    else
      var hash := Or(At(args, 2), Null);
      Settings(
        Truthy(args[0]),
        !Truthy(hash),
        hash,
        Or(At(args, 3), Bool(false)),
        Or(At(args, 4), Num(DefaultVoteCount)))
  }

  /**
   * Reads an array position by position as the five fields in declaration
   * order: two booleans, then the hash, the past-proposal value and the count.
   */
  function Fields(a: seq<JsVal>): Option<Settings> {
    if |a| == 5 && a[0].Bool? && a[1].Bool? then Some(Settings(a[0].b, a[1].b, a[2], a[3], a[4]))
    else None
  }

  /** toParamsArray(): the five fields as an array, in declaration order. */
  function Encode(s: Settings): (r: seq<JsVal>)
    ensures |r| == 5
    ensures Fields(r) == Some(s)
  {
    [Bool(s.generateListingItemTemplate), Bool(s.generateListingItem), s.listingItemHash,
     s.generatePastProposal, s.voteCount]
  }

  /** Settings some constructor call can produce. */
  predicate Reachable(s: Settings) {
    && (s.generateListingItem <==> !Truthy(s.listingItemHash))
    && (Truthy(s.generatePastProposal) || s.generatePastProposal == Bool(false))
    && Truthy(s.voteCount)
  }

  /** A missing listing hash reads back as null, since index 2 of the array is then falsy. */
  function NormalizeHash(s: Settings): Settings {
    s.(listingItemHash := if Truthy(s.listingItemHash) then s.listingItemHash else Null)
  }

  /** Every array the positional reader accepts is the encoding of what it reads. */
  lemma FieldsEncoded(a: seq<JsVal>)
    requires Fields(a).Some?
    ensures Encode(Fields(a).value) == a
  {
  }

  lemma ParseReachable(args: seq<JsVal>)
    ensures Reachable(Parse(args))
  {
  }

  /** Re-parsing toParamsArray() gives the same settings back, with an absent hash as null. */
  lemma EncodeRoundTrip(s: Settings)
    requires Reachable(s)
    ensures Parse(Encode(s)) == NormalizeHash(s)
  {
  }

  /** The whole argument array by default: [true, true, undefined, false, 10]. */
  lemma DefaultsEncoded()
    ensures Encode(Parse([])) == [Bool(true), Bool(true), Undefined, Bool(false), Num(10)]
  {
  }

  /** `0` in the count slot is falsy and gives the default of 10. */
  lemma ZeroVoteCountDefaults(a0: JsVal, a1: JsVal, a2: JsVal, a3: JsVal)
    ensures Parse([a0, a1, a2, a3, Num(0)]).voteCount == Num(10)
  {
  }

  class GenerateProposalParams {
    var generateListingItemTemplate: bool
    var generateListingItem: bool
    var listingItemHash: JsVal
    var generatePastProposal: JsVal
    var voteCount: JsVal

    /** The object's fields as a Settings value. */
    function Current(): Settings
      reads this
    {
      Settings(generateListingItemTemplate, generateListingItem, listingItemHash, generatePastProposal, voteCount)
    }

    /** `new GenerateProposalParams(generateParams)`; an omitted argument is the empty array. */
    constructor (generateParams: seq<JsVal>)
      ensures Current() == Parse(generateParams)
    {
      generateListingItemTemplate := true;
      generateListingItem := true;
      listingItemHash := Undefined;
      generatePastProposal := Bool(false);
      voteCount := Num(DefaultVoteCount);
      new;
      if |generateParams| > 0 {
        generateListingItemTemplate := Truthy(generateParams[0]);
        generateListingItem := Truthy(At(generateParams, 1));
        listingItemHash := if Truthy(At(generateParams, 2)) then At(generateParams, 2) else Null;
        generatePastProposal := if Truthy(At(generateParams, 3)) then At(generateParams, 3) else Bool(false);
        voteCount := if Truthy(At(generateParams, 4)) then At(generateParams, 4) else voteCount;
        // an item hash was given: no listing item is generated
        generateListingItem := if Truthy(listingItemHash) then false else true;
      }
    }

    /** toParamsArray(); when the fields are as a constructor left them, parsing it back reproduces them. */
    function ToParamsArray(): (r: seq<JsVal>)
      reads this
      ensures |r| == 5
      ensures Fields(r) == Some(Current())
      ensures Reachable(Current()) ==> Parse(r) == NormalizeHash(Current())
    {
      var r := Encode(Current());
      if Reachable(Current()) then EncodeRoundTrip(Current()); r else r
    }
  }
}
