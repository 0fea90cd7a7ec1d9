/** The order record of the swap protocol, its legs, and the edits the engine makes to it.
    Log labels and error messages are datatypes here: only their identity matters to the engine. */
module Orders {
  import opened Basics

  type Hash = string
  type OrderId = string

  datatype Network = Fiber | Lightning

  datatype Direction = FiberToLn | LnToFiber

  datatype OrderState =
    | Pending | IncomingHeld | OutgoingInFlight | OutgoingSettled
    | Succeeded | Refunding | Failed

  datatype LegStatus = Waiting | Held | InFlight | Settled | Cancelled | LegFailed

  datatype Leg = Leg(network: Network, invoice: string, amount: int, tlcExpiryAt: int,
                     status: LegStatus, preimage: Option<Hash>)

  // The members of the closed error registry that an order can carry.
  datatype ErrorCode = QuoteExpired | ExpiryInvariantViolation | NoRoute | OutgoingFailed | Internal

  datatype Message =
    | CancelledByRequest | NeverArrived | SafetyWindow | TooCloseAtDispatch
    | NodeReason(text: string) | OutgoingPaymentFailed | HoldVanished
    | CrashedBeforeInvoice | RefundCompletedOnRecovery

  datatype ProtocolError = ProtocolError(code: ErrorCode, message: Message, retryable: bool)

  datatype Order = Order(orderId: OrderId, quoteId: string, direction: Direction, paymentHash: Hash,
                         state: OrderState, incoming: Leg, outgoing: Leg,
                         failure: Option<ProtocolError>, createdAt: int, updatedAt: int)

  // The label a transition is persisted with.
  datatype Detail =
    | HoldInvoiceIssued | IncomingHtlcHeld | OutgoingSettledVerified | IncomingSettledByNode
    | DispatchingOutgoing | SwapComplete | RefundingFor(code: ErrorCode) | FailedFor(code: ErrorCode)

  // One row of an order's trail; the row of its creation has no predecessor state and no label.
  datatype OrderEvent = OrderEvent(orderId: OrderId, at: int, fromState: Option<OrderState>,
                                   toState: OrderState, detail: Option<Detail>)

  predicate Terminal(s: OrderState) {
    s == Succeeded || s == Failed
  }

  // A present but empty string is as good as none, as the source tests preimages for truthiness.
  function Given(p: Option<Hash>): Option<Hash> {
    if p.Some? && p.value != "" then p else None
  }

  function Or<T>(o: Option<T>, default: T): T {
    if o.Some? then o.value else default
  }

  // ----- Edits, one per transition of the engine -----

  function InvoiceIssued(o: Order, invoice: string, now: int): Order {
    o.(incoming := o.incoming.(invoice := invoice), updatedAt := now)
  }

  function HoldArrived(o: Order, now: int): Order {
    o.(state := IncomingHeld, incoming := o.incoming.(status := Held), updatedAt := now)
  }

  function Dispatched(o: Order, now: int): Order {
    o.(state := OutgoingInFlight, outgoing := o.outgoing.(status := InFlight), updatedAt := now)
  }

  function OutgoingPaid(o: Order, preimage: Hash, now: int): Order {
    o.(state := OutgoingSettled,
       outgoing := o.outgoing.(status := Settled, preimage := Some(preimage)), updatedAt := now)
  }

  function Collected(o: Order, preimage: Hash, now: int): Order {
    o.(state := Succeeded,
       incoming := o.incoming.(status := Settled, preimage := Some(preimage)), updatedAt := now)
  }

  function CollectedByNode(o: Order, now: int): Order {
    o.(state := Succeeded,
       incoming := o.incoming.(status := Settled,
                               preimage := if Given(o.outgoing.preimage).Some? then o.outgoing.preimage
                                           else o.incoming.preimage),
       updatedAt := now)
  }

  function Refunded(o: Order, why: ProtocolError, now: int): Order {
    o.(state := Refunding,
       outgoing := o.outgoing.(status := if o.outgoing.status == InFlight then LegFailed else o.outgoing.status),
       failure := Some(why), updatedAt := now)
  }

  function FailedBecause(o: Order, why: ProtocolError, now: int): Order {
    o.(state := Failed,
       incoming := o.incoming.(status := if o.incoming.status == Settled then Settled else Cancelled),
       failure := Some(Or(o.failure, why)), updatedAt := now)
  }

  // ----- The case-insensitive search for "no", at most one character, "route" -----

  function Lower(c: char): char {
    if 'A' <= c <= 'Z' then c - 'A' + 'a' else c
  }

  predicate WordAt(text: string, at: int, word: string) {
    0 <= at && at + |word| <= |text| &&
    forall i :: 0 <= i < |word| ==> Lower(text[at + i]) == word[i]
  }

  predicate LineTerminator(c: char) {
    c == '\n' || c == '\r' || c == '\U{2028}' || c == '\U{2029}'
  }

  predicate MentionsNoRoute(text: string) {
    exists i :: 0 <= i < |text| && WordAt(text, i, "no") &&
      (WordAt(text, i + 2, "route") ||
       (i + 2 < |text| && !LineTerminator(text[i + 2]) && WordAt(text, i + 3, "route")))
  }
}
