/**
 * The AMQP 1.0 side of the ActiveMQ adapter, seen from the adapter: the
 * messages a receiver link delivers, the peer that decides what each call
 * returns, and the ledger of what the adapter did with every delivery.
 *
 * A delivered message is settled either accepted (permanently removed) or
 * released (given back to the queue), the two outcomes of section 3.4 of
 * Part 3 of the OASIS AMQP 1.0 specification. Receivers are opened with a
 * link credit of 10 (flow control, section 2.6.7 of Part 2); the credit
 * window only bounds buffering and changes nothing the adapter observes.
 */
module Amqp {
  import opened Wrappers

  /** The link credit every receiver of the adapter is opened with. */
  const LinkCredit: nat := 10

  /**
   * The `message-id` property. The adapter's map only accepts a string id;
   * any other AMQP type (ulong, uuid, binary) is `OtherId` with its `%v` text.
   */
  datatype MessageId = StringId(s: string) | OtherId(shown: string) | NoId

  /** `fmt.Sprintf("%v", MessageID)`: a nil id prints as "<nil>". */
  function FormatId(id: MessageId): (r: string)
    ensures id.StringId? ==> r == id.s
  {
    match id
    case StringId(s) => s
    case OtherId(shown) => shown
    case NoId => "<nil>"
  }

  /** The application-data `value` section, when it is present. */
  datatype AmqpValue = NoValue | StringValue(text: string) | OtherValue

  /** The header section, each field already in its `%v` text form. */
  datatype HeaderFields = HeaderFields(
    durable: string, priority: string, ttl: string, firstAcquirer: string, deliveryCount: string)

  /** The properties section other than the message id, each field in its `%v` text form. */
  datatype PropertyFields = PropertyFields(
    correlationId: string, userId: string, to: string, subject: string,
    replyTo: string, contentType: string, groupId: string, groupSequence: string)

  /**
   * One AMQP message. `data` are its data sections read as text; the three
   * maps are the application properties and the two annotation sections with
   * keys and values in their `%v` text form.
   */
  datatype AmqpMessage = AmqpMessage(
    id: MessageId,
    header: HeaderFields,
    properties: PropertyFields,
    applicationProperties: map<string, string>,
    annotations: map<string, string>,
    deliveryAnnotations: map<string, string>,
    data: seq<string>,
    value: AmqpValue)

  /** What one `Receive` with a one-second deadline returns. */
  datatype Receipt = Got(msg: AmqpMessage) | Timeout | RecvError(error: string)

  /**
   * The broker as the adapter sees it during one operation. Receive attempt
   * `i` returns `receipts[i]`, and a timeout once the stream is exhausted; a
   * message received at attempt `i` is delivery `i`. Sending, accepting or
   * releasing delivery `d` fails, with the given error text, exactly when `d`
   * is in the corresponding map.
   */
  datatype Peer = Peer(
    receipts: seq<Receipt>,
    sendFails: map<nat, string>,
    acceptFails: map<nat, string>,
    releaseFails: map<nat, string>)

  function ReceiptAt(p: Peer, i: nat): (r: Receipt)
    ensures i >= |p.receipts| ==> r == Timeout
  {
    if i < |p.receipts| then p.receipts[i] else Timeout
  }

  /** The message of delivery `d`, if attempt `d` delivered one. */
  predicate Delivered(p: Peer, d: nat)
  {
    ReceiptAt(p, d).Got?
  }

  /** Delivery `d` carries the string message id `s`. */
  predicate HasStringId(p: Peer, d: nat, s: string)
  {
    Delivered(p, d) && ReceiptAt(p, d).msg.id == StringId(s)
  }

  /** The settlement state of a delivery: still held by the link, accepted, or released. */
  datatype Fate = Held | Accepted | Released

  /**
   * What the adapter did with the deliveries of one operation: the fate of
   * every delivery received (its keys are exactly the deliveries received),
   * and the deliveries successfully sent to the destination, in order.
   */
  datatype Ledger = Ledger(fate: map<nat, Fate>, sent: seq<nat>)

  const NoDeliveries := Ledger(map[], [])

  /** A newly received delivery is held by the link until it is settled. */
  function Receive(l: Ledger, d: nat): Ledger
  {
    l.(fate := l.fate[d := Held])
  }

  /** `msg.Accept()`: on success the delivery is accepted; on failure nothing changes. */
  function Accept(p: Peer, l: Ledger, d: nat): (GoError, Ledger)
  {
    if d in p.acceptFails then (Some(p.acceptFails[d]), l)
    else (None, l.(fate := l.fate[d := Accepted]))
  }

  /** `msg.Release()`: on success the delivery is released; on failure nothing changes. */
  function Release(p: Peer, l: Ledger, d: nat): (GoError, Ledger)
  {
    if d in p.releaseFails then (Some(p.releaseFails[d]), l)
    else (None, l.(fate := l.fate[d := Released]))
  }

  /** `sender.Send(ctx, msg)`: on success a copy of delivery `d` reaches the destination. */
  function Send(p: Peer, l: Ledger, d: nat): (GoError, Ledger)
  {
    if d in p.sendFails then (Some(p.sendFails[d]), l)
    else (None, l.(sent := l.sent + [d]))
  }

  /**
   * What the client answers when each operation opens its links: the error
   * (if any) of the receiver's session, of the receiver, and, for moves, of
   * the second session and of the sender on it.
   */
  datatype Setup = Setup(session: GoError, receiver: GoError, senderSession: GoError, sender: GoError)

  /** The error text `getSession` wraps a failed session in. */
  function SessionFailure(e: string): string
  {
    "Get session failed, connection to client failed: " + e
  }

  /** The error `getNewSender` returns: a failed session first, then a failed sender. */
  function SenderFailure(s: Setup): (r: GoError)
    ensures r.None? <==> s.senderSession.None? && s.sender.None?
  {
    if s.senderSession.Some? then
      Some("activeMQAdapter getNewSender - new session failed: " + SessionFailure(s.senderSession.value))
    else if s.sender.Some? then
      Some("brokerClient getNewSender - get sender failed: " + s.sender.value)
    else None
  }

  /**
   * The error of opening an operation's links, in the order they are
   * opened: the receiver's session, the receiver, and, when the operation
   * opens one, the sender, whose error it prefixes with `senderPrefix`.
   */
  function LinksError(setup: Setup, senderPrefix: Option<string>): (r: GoError)
    ensures r.None? <==> setup.session.None? && setup.receiver.None? && (senderPrefix.Some? ==> SenderFailure(setup).None?)
    ensures setup.session.Some? ==> r.Some?
  {
    if setup.session.Some? then Some("Get new session failed: " + SessionFailure(setup.session.value))
    else if setup.receiver.Some? then Some("geting new receiver failed: " + setup.receiver.value)
    else if senderPrefix.Some? && SenderFailure(setup).Some? then Some(senderPrefix.value + SenderFailure(setup).value)
    else None
  }

  /** The text of `context.DeadlineExceeded`, the error of a receive context whose deadline passed. */
  const DeadlineExceeded := "context deadline exceeded"
  /** The text of `context.Canceled`, the error of a receive context after its cancel function ran. */
  const Canceled := "context canceled"
  const NoItems := "no items found in queue"
}
