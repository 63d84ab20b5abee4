# particl-market core, modelled in Dafny

This project models four pieces of the Particl marketplace daemon and proves
properties of them.

- **The happy buy flow.** A buyer node and a seller node each keep a replica of a listing, its bid and the order. Both apply the same protocol messages, in this order:
  - MP_ITEM_ADD (the listing arrives; it is related to a template only on the node that owns one with the same hash);
  - MPA_BID creates the bid;
  - MPA_ACCEPT marks the bid accepted and creates one order with one item in `AWAITING_ESCROW`;
  - MPA_LOCK moves the item to `ESCROW_LOCKED`;
  - MPA_RELEASE from the seller moves it to `SHIPPING`;
  - MPA_RELEASE from the buyer moves it to `COMPLETE`.

  The message processor itself is not among the modelled files. Its behaviour is taken from what the black-box test expects of both nodes. `OrderFlow.Apply` states that behaviour as a pure transition function, and `Replicas.Replica` is the in-place replica that follows it.
- **Bid-response action messages.** `BidAcceptMessage` and `BidRejectMessage` are the OMP MPA_ACCEPT and MPA_REJECT messages. For each, the model covers:
  - its fields;
  - its non-empty required fields;
  - `toHashable()`, the projection the content hash is taken over.

  The hash routine is a function parameter.
- **`GenerateProposalParams`.** This is the positional argument list of the proposal test-data generator. The constructor reads it with JavaScript truthiness, and `toParamsArray()` turns it back into five values.
- **`Exception`.** This is the server's HTTP exception. The model covers the constructor's defaults for message and body, `toString()` (`<code> - <Name>:<message>`) and `getMessage()`.

JavaScript values are the datatype `JsValues.JsVal`, with an explicit `Truthy`, `||` (`Or`), index past the end (`At` gives `undefined`) and string conversion (`ToStr`).

Files:
- `wrappers.dfy`: Option/Result.
- `js_values.dfy`: JsVal, truthiness, and integer printing and parsing.
- `exception.dfy`
- `generate_proposal_params.dfy`
- `action_messages.dfy`: shared message types.
- `bid_accept_message.dfy`
- `bid_reject_message.dfy`
- `order_flow.dfy`: the transition function, the replica invariant and the searches.
- `buy_flow.dfy`: the states of the happy flow.
- `replica.dfy`: the replica class and the happy-flow client.

## Model

| member | source | states |
|---|---|---|
| OrderFlow.Apply | test/black-box/BuyFlow.test.ts:331-336 | A bid is recorded exactly when its listing is known. Each message adds at most one bid (only MPA_BID) and at most one order (only MPA_ACCEPT). Existing bids keep hash, listing and bidder, and an accepted bid stays accepted. Existing orders keep hash, buyer, seller and item hashes, and statuses never go backward. Templates and known listings never change. |
| OrderFlow.EscrowStep | test/black-box/BuyFlow.test.ts:691-697 | Exactly LOCK and RELEASE are escrow steps, and each step moves the status exactly one rank forward. The three concrete pairs (lock: AWAITING_ESCROW→ESCROW_LOCKED, seller release: ESCROW_LOCKED→SHIPPING, buyer release: SHIPPING→COMPLETE) are fixed by `BuyFlowScenario.LockStep`, `SellerReleaseStep` and `BuyerReleaseStep`. |
| OrderFlow.FirstIndex | test/black-box/BuyFlow.test.ts:397-418 | Returns the first position whose key matches, or proves that none matches. Used to find the bid an accept names and the order a lock or release names. |
| OrderFlow.FirstIndexKeysAgree | test/black-box/BuyFlow.test.ts:430-464 | Lookups are unchanged when entries keep their keys (an in-place update of the bid or order), and when an entry with a new key is appended. |
| OrderFlow.Advance | test/black-box/BuyFlow.test.ts:691-697 | Moves every item of the named order from one status to the next. It reports UnknownOrder when no order has the hash and IllegalTransition when the items are not all in the starting status (its exact result on valid replicas is `OrderFlowProperties.EscrowTransition`). |
| OrderFlow.SetStatus | test/black-box/BuyFlow.test.ts:697 | Every item gets the new status and nothing else changes. |
| OrderFlowInvariant.EmptyValid | test/black-box/BuyFlow.test.ts:17-27 | A fresh replica satisfies the invariant: listings keyed by their hash, bids only on known listings, every order made from the first bid with its hash (one item, the bid's listing, bidder and seller, bid accepted), one order per bid, every accepted bid has its order. |
| OrderFlowInvariant.ItemAddPreservesValid | test/black-box/BuyFlow.test.ts:196-260 | MP_ITEM_ADD keeps the invariant. |
| OrderFlowInvariant.BidPreservesValid | test/black-box/BuyFlow.test.ts:302-339 | An applied MPA_BID keeps the invariant. |
| OrderFlowInvariant.UnacceptedBidHasNoOrder | test/black-box/BuyFlow.test.ts:376-382 | A bid that has not been accepted has no order yet. |
| OrderFlowInvariant.AcceptKeepsOrdersFromBids | test/black-box/BuyFlow.test.ts:506-513 | After an accept, every order, the new one included, still comes from an accepted bid. |
| OrderFlowInvariant.AcceptKeepsOneOrderPerBid | test/black-box/BuyFlow.test.ts:506-513 | After an accept, no bid has two orders: the new order is for a bid that had none. |
| OrderFlowInvariant.AcceptKeepsAcceptedBidsHaveOrders | test/black-box/BuyFlow.test.ts:459-464 | After an accept, every accepted bid, the new one included, has its order. |
| OrderFlowInvariant.AcceptPreservesValid | test/black-box/BuyFlow.test.ts:459-464 | An applied MPA_ACCEPT keeps the invariant. What the accept changes is stated by `OrderFlowProperties.AcceptTransition`. |
| OrderFlowInvariant.AdvancePreservesValid | test/black-box/BuyFlow.test.ts:733-737 | An escrow step keeps the invariant. What the step changes is stated by `OrderFlowProperties.EscrowTransition`. |
| OrderFlowInvariant.ApplyPreservesValid | test/black-box/BuyFlow.test.ts:331-336 | Every applied message keeps the invariant. |
| OrderFlowInvariant.RunPreservesValid | test/black-box/BuyFlow.test.ts:17-994 | Every sequence of messages keeps the invariant (by induction on the sequence). |
| OrderFlowProperties.EscrowTransition | test/black-box/BuyFlow.test.ts:801-807 | On a valid replica, lock and release succeed exactly when the named order exists and its item is in the step's source status. The result is the same replica with that one order's item moved to the target status. Otherwise the replica reports IllegalTransition (order found) or UnknownOrder (not found). |
| OrderFlowProperties.BidTransition | test/black-box/BuyFlow.test.ts:331-336 | MPA_BID succeeds exactly when its listing is known. It then appends one bid in MPA_BID with the message's hash, listing and bidder and changes nothing else; otherwise it reports UnknownListing. |
| OrderFlowProperties.AcceptTransition | test/black-box/BuyFlow.test.ts:459-513 | On a valid replica, MPA_ACCEPT succeeds exactly when the first bid with the named hash exists and is still in MPA_BID. Then that bid alone becomes MPA_ACCEPT, and one order is appended: the bidder as buyer, the listing's seller, and one item on the bid's listing, for this bid, in AWAITING_ESCROW. Nothing else changes. Otherwise it reports UnknownBid (no such bid) or IllegalTransition (bid not in MPA_BID). |
| OrderFlowProperties.LockWhileShippingRefused | test/black-box/BuyFlow.test.ts:846-850 | A lock for an order that is already SHIPPING is refused as an illegal transition. |
| OrderFlowProperties.BidOrderItem | test/black-box/BuyFlow.test.ts:632 | A bid has an order item exactly when some order of the replica is for that bid. The item is then the first item of the first such order, and it names the bid. |
| OrderFlowProperties.FilterBids | test/black-box/BuyFlow.test.ts:311-333 | Keeps exactly the bids matching the listing, the bidder and the action or order-status filter, each as often as it occurs in the input (same multiset of matching bids). The result is never longer than the input. |
| OrderFlowProperties.SearchBids | test/black-box/BuyFlow.test.ts:620-632 | `bid search` returns exactly the replica's bids that match, each as often as the replica holds it. |
| OrderFlowProperties.FilterOrders | test/black-box/BuyFlow.test.ts:486-513 | Keeps exactly the orders with the given buyer and seller and an item on the listing in the given status, each as often as it occurs in the input. |
| OrderFlowProperties.SearchOrders | test/black-box/BuyFlow.test.ts:506-513 | `order search` returns exactly the replica's orders that match, each as often as the replica holds it. |
| OrderFlowProperties.AcceptedBidFoundByOrderStatus | test/black-box/BuyFlow.test.ts:620-632 | On a valid replica, an accepted bid has an order item, and a bid search by that item's status finds the bid. |
| OrderFlowProperties.ApplyAgrees | test/black-box/BuyFlow.test.ts:376-382 | Two replicas that agree on everything but their templates apply a message with the same outcome. They still agree afterwards. |
| OrderFlowProperties.RunAgrees | test/black-box/BuyFlow.test.ts:554-558 | The same holds for any sequence of messages. |
| OrderFlowProperties.ReplicasAgree | test/black-box/BuyFlow.test.ts:338-339 | A buyer replica and a seller replica fed the same messages hold the same bids, orders and listings, except for the template relation. On each side a listing is related to a template exactly when that node owns a template with the listing's hash. |
| OrderFlowProperties.RunKeepsTemplates | test/black-box/BuyFlow.test.ts:384-388 | No message changes a replica's own templates. |
| OrderFlowProperties.ErasedAlike | test/black-box/BuyFlow.test.ts:376-382 | Replicas that agree apart from templates hold the same bids, orders, listing hashes and listing sellers. |
| OrderFlowProperties.ItemAddAgrees | test/black-box/BuyFlow.test.ts:255-259 | MP_ITEM_ADD stores the listing alike on both replicas, apart from the template relation. |
| BuyFlowScenario.ItemAddStep | test/black-box/BuyFlow.test.ts:222-228 | MP_ITEM_ADD on a fresh replica stores the listing. It is related to the template with the same hash when the node owns one. |
| BuyFlowScenario.BidStep | test/black-box/BuyFlow.test.ts:331-336 | MPA_BID on the listed replica gives exactly one bid, in MPA_BID, by the buyer, on the listing. |
| BuyFlowScenario.AcceptStep | test/black-box/BuyFlow.test.ts:506-513 | MPA_ACCEPT turns the single bid into MPA_ACCEPT. It creates one order with the buyer, the seller and one item on the listing in AWAITING_ESCROW. |
| BuyFlowScenario.EscrowStepOnOrdered | test/black-box/BuyFlow.test.ts:691-698 | An escrow step on the one order changes only its item's status. |
| BuyFlowScenario.LockStep | test/black-box/BuyFlow.test.ts:691-697 | MPA_LOCK moves the item from AWAITING_ESCROW to ESCROW_LOCKED. |
| BuyFlowScenario.SellerReleaseStep | test/black-box/BuyFlow.test.ts:801-807 | The seller's MPA_RELEASE moves it from ESCROW_LOCKED to SHIPPING. |
| BuyFlowScenario.BuyerReleaseStep | test/black-box/BuyFlow.test.ts:914-921 | The buyer's MPA_RELEASE moves it from SHIPPING to COMPLETE. |
| BuyFlowScenario.BidFoundAfterBid | test/black-box/BuyFlow.test.ts:376-382 | The bid search by MPA_BID and bidder returns exactly the one bid. |
| BuyFlowScenario.BidFoundAfterAccept | test/black-box/BuyFlow.test.ts:554-558 | After acceptance, the search by MPA_ACCEPT returns exactly that bid, now accepted, and the search by MPA_BID returns nothing. |
| BuyFlowScenario.BidFoundByOrderStatus | test/black-box/BuyFlow.test.ts:620-632 | The search by the order item's status returns exactly the accepted bid. |
| BuyFlowScenario.OrderFoundByStatus | test/black-box/BuyFlow.test.ts:594-601 | The order search by listing, status, buyer and seller returns exactly the one order. |
| BuyFlowScenario.FlowSteps | test/black-box/BuyFlow.test.ts:161-966 | Starting from a fresh replica, each of the six messages of the flow is accepted and moves the state to the next state of the trace. |
| BuyFlowScenario.RunSteps | test/black-box/BuyFlow.test.ts:161-966 | When every message moves a list of states one step further, running any prefix of the messages ends at the matching state. |
| BuyFlowScenario.HappyRun | test/black-box/BuyFlow.test.ts:161-966 | On a fresh replica, every prefix of the flow's messages ends at the matching trace state. The whole flow ends with one accepted bid and one COMPLETE order. |
| Replicas.Replica.constructor | test/black-box/BuyFlow.test.ts:24-26 | A node starts with the given templates and no listings, bids or orders. It satisfies the invariant. |
| Replicas.Replica.ReceiveListingItem | test/black-box/BuyFlow.test.ts:196-228 | The replica's new state is the transition function's result for MP_ITEM_ADD. The invariant is kept. |
| Replicas.Replica.ProcessBid | test/black-box/BuyFlow.test.ts:376-382 | The new state and the reported error are those of the transition function for MPA_BID. The invariant is kept. |
| Replicas.Replica.ProcessAccept | test/black-box/BuyFlow.test.ts:459-464 | The same for MPA_ACCEPT: the bid is updated in place and the order appended. |
| Replicas.Replica.AdvanceOrder | test/black-box/BuyFlow.test.ts:733-737 | Moves the named order's item between two statuses, exactly as the pure escrow step does, or reports why not. |
| Replicas.Replica.ProcessLock | test/black-box/BuyFlow.test.ts:733-737 | The new state and error are those of the transition function for MPA_LOCK. The invariant is kept. |
| Replicas.Replica.ProcessRelease | test/black-box/BuyFlow.test.ts:846-850 | The same for MPA_RELEASE from either party. |
| Replicas.Deliver | test/black-box/BuyFlow.test.ts:268-395 | A message is applied on the sender's replica and on the receiver's. Each new state is the transition function's result for its own old state, each reported error is that state's rejection, and both replicas keep the invariant. |
| Replicas.HappyBuyFlow | test/black-box/BuyFlow.test.ts:17-966 | The buyer's and the seller's states after each message are exactly the trace of the flow, and all ten bid, accept, lock and release calls report no error. Afterwards both hold one accepted bid by the buyer and one order (buyer, seller, one item on the listing, COMPLETE). Only the seller's listing is related to its template. |
| BidAccept.Fresh | src/api/messages/actions/BidAcceptMessage.ts:15-32 | A newly built MPA_ACCEPT message: every field unset except `objects`, which starts as the empty list. |
| BidAccept.ToHashable | src/api/messages/actions/BidAcceptMessage.ts:34-47 | The hashable form carries type, generated, bid and seller unchanged. It carries `objects` exactly when the message has a present (truthy) list, and then with that value. |
| BidAccept.HashableOfRebuilt | src/api/messages/actions/BidAcceptMessage.ts:34-47 | Every hashable record is the hashable form of a message with that content. |
| BidAccept.RebuiltFromHashable | src/api/messages/actions/BidAcceptMessage.ts:42-44 | A message is rebuilt from its hashable form and its hash exactly when its `objects` is not null. |
| BidAccept.HashableIgnoresHash | src/api/messages/actions/BidAcceptMessage.ts:34-40 | Messages differing only in `hash` have the same hashable form. |
| BidAccept.DefaultObjectsHashed | src/api/messages/actions/BidAcceptMessage.ts:27 | With the initial empty `objects`, the hashable form carries an empty `objects`. |
| BidAccept.HashableTypeIsAccept | src/api/messages/actions/BidAcceptMessage.ts:17 | An MPA_ACCEPT message hashes as MPA_ACCEPT. |
| BidAccept.Stamp | src/api/messages/actions/BidAcceptMessage.ts:31-47 | Setting `hash` to the content hash of the hashable form gives a message that verifies, and nothing else changes. |
| BidAccept.Failing | src/api/messages/actions/BidAcceptMessage.ts:15-32 | Lists exactly the checked fields that fail the non-empty check: undefined or null, and for the string fields `bid` and `hash` also the empty string. |
| BidAccept.MissingFields | src/api/messages/actions/BidAcceptMessage.ts:15-32 | Lists exactly the required fields that are not filled. |
| BidAccept.ValidIff | src/api/messages/actions/BidAcceptMessage.ts:15-32 | A message is valid exactly when type, bid, seller, generated and hash are all filled. |
| BidAccept.FailingIgnoresObjects | src/api/messages/actions/BidAcceptMessage.ts:27 | When `objects` is not among the checked fields, it has no effect on the result. |
| BidAccept.ObjectsNotRequired | src/api/messages/actions/BidAcceptMessage.ts:27 | Validity does not depend on `objects`. |
| BidAccept.FreshMissesAll | src/api/messages/actions/BidAcceptMessage.ts:15-32 | A newly built message misses every required field. |
| BidReject.Fresh | src/api/messages/actions/BidRejectMessage.ts:15-27 | A newly built MPA_REJECT message: every field unset, `objects` included. |
| BidReject.ToHashable | src/api/messages/actions/BidRejectMessage.ts:29-41 | The hashable form carries type, generated and bid unchanged. It has no seller. It carries `objects` exactly when the message has a present list, and then with that value. |
| BidReject.HashableOfRebuilt | src/api/messages/actions/BidRejectMessage.ts:29-41 | Every hashable record is the hashable form of a message with that content. |
| BidReject.RebuiltFromHashable | src/api/messages/actions/BidRejectMessage.ts:36-38 | A message is rebuilt from its hashable form and its hash exactly when its `objects` is not null. |
| BidReject.HashableIgnoresHash | src/api/messages/actions/BidRejectMessage.ts:29-34 | Messages differing only in `hash` have the same hashable form. |
| BidReject.UnsetObjectsNotHashed | src/api/messages/actions/BidRejectMessage.ts:22 | With `objects` never set, the hashable form has no `objects`. |
| BidReject.HashableTypeIsReject | src/api/messages/actions/BidRejectMessage.ts:17 | An MPA_REJECT message hashes as MPA_REJECT. |
| BidReject.Stamp | src/api/messages/actions/BidRejectMessage.ts:26-41 | Setting `hash` to the content hash gives a message that verifies, and nothing else changes. |
| BidReject.Failing | src/api/messages/actions/BidRejectMessage.ts:15-27 | Lists exactly the checked fields that are not filled. |
| BidReject.MissingFields | src/api/messages/actions/BidRejectMessage.ts:15-27 | Lists exactly the required fields that are not filled. |
| BidReject.ValidIff | src/api/messages/actions/BidRejectMessage.ts:15-27 | A message is valid exactly when type, bid, generated and hash are all filled. |
| BidReject.FailingIgnoresObjects | src/api/messages/actions/BidRejectMessage.ts:22 | When `objects` is not checked, it has no effect on the result. |
| BidReject.ObjectsNotRequired | src/api/messages/actions/BidRejectMessage.ts:22 | Validity does not depend on `objects`. |
| BidReject.FreshMissesAll | src/api/messages/actions/BidRejectMessage.ts:15-27 | A newly built message misses every required field. |
| ActionMessages.PresentObjects | src/api/messages/actions/BidAcceptMessage.ts:42-44 | `if (this.objects)`: an `objects` list is taken exactly when it is present (any list, even an empty one, is truthy), and it is taken unchanged. |
| GenerateProposal.Parse | src/api/requests/params/GenerateProposalParams.ts:22-32 | No arguments give the defaults. Otherwise: the template flag is the truthiness of the first argument; the listing item hash is the value at index 2 when that is truthy and null otherwise; a listing item is generated exactly when that hash is not truthy, whatever index 1 holds; the past-proposal value is the value at index 3 when truthy and `false` otherwise; the vote count is the value at index 4 when truthy and 10 otherwise. |
| GenerateProposal.Defaults | src/api/requests/params/GenerateProposalParams.ts:11-15 | The field initialisers: true, true, no hash (undefined), false and 10. |
| GenerateProposal.Encode | src/api/requests/params/GenerateProposalParams.ts:35-43 | Always five values, in field order: the positional reader `Fields` gets back the template flag at index 0, the listing-item flag at index 1, then the hash, the past-proposal value and the vote count. |
| GenerateProposal.FieldsEncoded | src/api/requests/params/GenerateProposalParams.ts:35-43 | Conversely, every five-value array with booleans at indices 0 and 1 is the encoding of the settings read from it. |
| GenerateProposal.ParseReachable | src/api/requests/params/GenerateProposalParams.ts:22-32 | Every setting the constructor produces is reachable: `generateListingItem` is the negation of the hash's truthiness, the past-proposal value is truthy or `false`, and the vote count is truthy. |
| GenerateProposal.EncodeRoundTrip | src/api/requests/params/GenerateProposalParams.ts:22-43 | Parsing `toParamsArray()` of any reachable setting gives that setting back, with an absent hash as null. |
| GenerateProposal.DefaultsEncoded | src/api/requests/params/GenerateProposalParams.ts:11-15 | The defaults are (true, true, undefined, false, 10). |
| GenerateProposal.ZeroVoteCountDefaults | src/api/requests/params/GenerateProposalParams.ts:28 | A vote count of 0 becomes 10. |
| GenerateProposal.GenerateProposalParams.constructor | src/api/requests/params/GenerateProposalParams.ts:11-33 | Field by field, the defaults and then the sequential overwrites (`generateListingItem` twice) end in exactly the settings `Parse` describes. |
| GenerateProposal.GenerateProposalParams.ToParamsArray | src/api/requests/params/GenerateProposalParams.ts:35-43 | Five values holding the object's fields in declaration order (read back position by position by `Fields`). Whenever the fields are as some constructor call left them, re-parsing gives them back (an absent hash as null). |
| JsValues.Truthy | src/api/requests/params/GenerateProposalParams.ts:24-28 | JavaScript truthiness: undefined, null, false, 0, NaN and the empty string are falsy; every other value is truthy. |
| JsValues.At | src/api/requests/params/GenerateProposalParams.ts:24-28 | An index inside the list gives that element; an index past the end gives `undefined`. |
| JsValues.Or | src/core/api/Exception.ts:25-26 | JavaScript's logical or is one of its operands. It is truthy exactly when one operand is. It is the first operand when that is truthy and the second operand otherwise. |
| JsValues.NatToString | src/core/api/Exception.ts:32 | Printing a number gives a non-empty string of digits. |
| JsValues.IntToString | src/core/api/Exception.ts:32 | Printing an integer gives a non-empty string of digits, with an optional leading '-'. |
| JsValues.NatToStringRoundTrip | src/core/api/Exception.ts:32 | The digits printed for a natural number read back as that number. |
| JsValues.IntToStringRoundTrip | src/core/api/Exception.ts:32 | A printed integer parses back to itself. |
| JsValues.NatToStringCanonical | src/core/api/Exception.ts:32 | A printed natural number is a canonical digit string (no leading zero except for 0 itself). It starts with '0' exactly when it is 0. |
| JsValues.CanonicalDigitsRoundTrip | src/core/api/Exception.ts:32 | A canonical digit string is exactly how its value prints. |
| JsValues.ParseNatToString | src/core/api/Exception.ts:32 | A printed natural number parses back to itself. |
| JsValues.ParseNegatedNatToString | src/core/api/Exception.ts:32 | A '-' followed by a printed positive number parses back to the negative number. |
| JsValues.ParseIntOnlyOfIntToString | src/core/api/Exception.ts:32 | The reader accepts only printed integers: whatever it accepts is exactly how its value prints, so zero-padded codes and "-0" are refused. |
| JsValues.ToStr | src/core/api/Exception.ts:36 | Template-literal conversion leaves a string as it is. |
| Exceptions.DefaultMessage | src/core/api/Exception.ts:25 | The message is always truthy. It is the first argument when that is truthy, and 'Unknown error' otherwise. |
| Exceptions.DefaultBody | src/core/api/Exception.ts:26 | The body is the second argument when it is truthy. Otherwise it is the raw first argument, not the defaulted message. |
| Exceptions.NoArgumentsDefaults | src/core/api/Exception.ts:25-26 | With no arguments, the message is 'Unknown error' and the body is undefined. |
| Exceptions.MessageNeverRendersEmpty | src/core/api/Exception.ts:25 | Unless the first argument is an object, the rendered message is never empty. |
| Exceptions.IndexOf | src/core/api/Exception.ts:32 | Finds the first occurrence of a character, or proves there is none. |
| Exceptions.IndexOfAfterPrefix | src/core/api/Exception.ts:32 | The first ':' after a colon-free prefix is where the prefix ends. |
| Exceptions.PrintedCodeHasNoSpace | src/core/api/Exception.ts:32 | A printed code contains no space, so the first space of the description ends the code. |
| Exceptions.CodeRoundTrip | src/core/api/Exception.ts:32 | The reader gets the code back from `<code> - ` and hands on the rest of the string unchanged. |
| Exceptions.NameAndMessageRoundTrip | src/core/api/Exception.ts:32 | For a class name without ':', `<Name>:<message>` splits back into the name and the message. |
| Exceptions.DescribeRoundTrip | src/core/api/Exception.ts:31-33 | For a class name without ':', the description `<code> - <Name>:<message>` reads back as exactly its code, name and message. |
| Exceptions.NameAndMessageSpelling | src/core/api/Exception.ts:32 | What the reader splits into a class name and a message is exactly the name, ':' and the message. |
| Exceptions.ReassembledSpelling | src/core/api/Exception.ts:32 | A printed code, " - ", and a part that splits into name and message put back together are the description of those pieces. |
| Exceptions.DescriptionHasOneSpelling | src/core/api/Exception.ts:32 | Whatever the reader accepts is exactly the description `<code> - <Name>:<message>` of what it returns. |
| Exceptions.DescriptionSpelledOnce | src/core/api/Exception.ts:32 | Each code, name and message have exactly one spelling that reads back as them. |
| Exceptions.PaddedCodeRefused | src/core/api/Exception.ts:32 | A zero-padded code such as "0500 - A:b" is not how toString() prints, and the reader refuses it. |
| Exceptions.Exception.constructor | src/core/api/Exception.ts:21-29 | `code` is the argument, `name` is the class name, message and body are the defaults above, and the marker is set. |
| Exceptions.Exception.GetMessage | src/core/api/Exception.ts:35-37 | A string message is returned as it is. |
| Exceptions.Exception.ToString | src/core/api/Exception.ts:31-33 | The result reads back as the exception's code, class name and message (for a class name without ':'). No other string reads back as that code, name and message. |

## Left out

- The buy-flow processor: its implementation is not part of this model. The transition function follows what the black-box test expects on both nodes. The model itself chooses the outcomes the test never shows (UnknownListing, UnknownBid, UnknownOrder, IllegalTransition, and an MP_ITEM_ADD of an already known listing being a no-op).
- Not modelled, because the test does not drive them:
  - MPA_REJECT, MPA_CANCEL and MPA_REFUND transitions;
  - the deduplication ledger and retry of messages that arrive before their parent;
  - the check that only the bid's buyer may lock.
- Test plumbing:
  - RPC calls, polling with timeouts, paging and sort order of searches;
  - the random assignment of node roles, image upload, and the wallet's locked-output checks.
- Two steps of the test are not used as evidence of the seller node's final state: the final seller-side order search queries the buyer node, and a buyer-node result is stored as the seller's order. `Replicas.HappyBuyFlow` still applies the buyer's release on the seller replica and proves the outcome.
- Content hashing and message signing: the hash routine is an uninterpreted function parameter.
- Message-field types:
  - `@IsEnum`: type values outside MPAction cannot be represented;
  - the omp-lib payment data of an accept is an opaque list of key/value pairs;
  - `@IsNotEmpty` on numbers and records only rejects null and undefined.
- JavaScript numbers are integers: no floating point, no `-0`, and `NaN` is a separate value. Objects and arrays are one opaque value carrying its string conversion.
- `_.isEmpty` on a non-array argument: the argument list is always a list.
- `GenerateProposal.Parse`: `generateListingItem` is written at line 25 and overwritten at line 31. The model proves that only the final value survives; the intermediate value is not observable.
- `Exception`:
  - the `Error` superclass and `Error.captureStackTrace` are runtime facilities;
  - `this.constructor.name` is a constructor parameter, which is also the value of `name`.
- `Exceptions.Exception.GetMessage`: the contract states the result only for a string message. For other messages the text is fixed only by the body of `JsValues.ToStr`: numbers print through `IntToString`, objects as their stored string conversion, and the remaining values as "undefined", "null", "true", "false" or "NaN".
- `Exceptions.Exception.ToString`: the read-back is proved only for class names without ':'. A name containing ':' makes the description ambiguous.
