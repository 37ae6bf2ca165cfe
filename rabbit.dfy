/**
 * The RabbitMQ adapter. It cannot settle a message it has looked at, so it
 * deletes or moves a message by taking messages off the head of the source
 * queue one at a time (a management-API get with `ack_requeue_false`, which
 * removes what it returns) and publishing every message it does not want
 * back onto the tail of the source queue over AMQP 0-9-1.
 *
 * The broker is a value: its queues, how its exchanges route, plus what the
 * next queue listings, gets and publishes answer. Each listing, get and
 * publish consumes the next answer of its stream; an exhausted get or
 * publish stream answers with success, an exhausted listing stream with an
 * empty list.
 */
module RabbitMQ {
  import opened Wrappers
  import opened GoStrings
  import opened BrokerTypes

  type byte = x: int | 0 <= x < 256

  /**
   * A message as the broker holds it: its routing key; the three headers
   * this adapter reads, as the management API's JSON decodes them (empty
   * when absent); the payload; and every other header and property, by name.
   */
  datatype StoredMessage = StoredMessage(
    routingKey: string, correlationId: string, messageId: string, timestamp: string,
    payload: seq<byte>, extra: map<string, string>)

  /** A message as the adapter decodes a management-API get: routing key, the three headers, the payload text. */
  datatype RabbitMessage = RabbitMessage(
    routingKey: string, correlationId: string, messageId: string, timestamp: string, body: seq<byte>)

  /** One entry of the management API's queue list. */
  datatype RabbitQueueInfo = RabbitQueueInfo(name: string, messages: int)

  /** What the management API's queue list request answers. */
  datatype ListingReply =
    | ListRequestFailed(error: string)
    | ListTransportFailed(error: string)
    | ListBadStatus
    | ListReadFailed(error: string)
    | ListDecodeFailed(error: string)
    | ListDecoded(entries: seq<RabbitQueueInfo>)

  /**
   * What one single-message get answers: the broker hands out the head of
   * the queue (nothing when it is empty); the request fails before reaching
   * the broker; or the head is taken but the answer cannot be read or parsed.
   */
  datatype GetReply = GetOk | GetFailed | GetLost

  /**
   * What the broker answers to one publish in confirm mode. A mandatory
   * message that no queue takes is returned and then acknowledged, so it
   * answers `Ack` too.
   */
  datatype PublishReply =
    | Ack
    | Nack(deliveryTag: nat)
    | ConfirmTimeout
    | ChannelFailed(error: string)
    | ConfirmFailed(error: string)
    | PublishFailed(error: string)

  /**
   * `routes` gives, for an exchange, the queues a message published to it
   * with the exchange's own name as routing key reaches.
   */
  datatype RabbitBroker = RabbitBroker(
    queues: map<string, seq<StoredMessage>>,
    routes: map<string, set<string>>,
    listings: seq<ListingReply>,
    gets: seq<GetReply>,
    publishes: seq<PublishReply>)

  /** The adapter's fixed state; `connected` records whether the AMQP dial succeeded. */
  datatype RabbitMQAdapter = RabbitMQAdapter(
    username: string, pwd: string, consoleUrl: string, url: string, host: string, connected: bool)

  function QueueOf(b: RabbitBroker, name: string): seq<StoredMessage>
  {
    if name in b.queues then b.queues[name] else []
  }

  function WithQueue(b: RabbitBroker, name: string, q: seq<StoredMessage>): (r: RabbitBroker)
    ensures QueueOf(r, name) == q
    ensures forall other :: other != name ==> QueueOf(r, other) == QueueOf(b, other)
    ensures r.routes == b.routes && r.listings == b.listings && r.gets == b.gets && r.publishes == b.publishes
  {
    b.(queues := b.queues[name := q])
  }

  // ---- constructor -----------------------------------------------------------------

  /** The dial URL: the credentials are put in front of the broker URL with its first "amqp://" removed. */
  function DialUrl(user: string, pwd: string, brokerUrl: string): string
  {
    "amqp://" + user + ":" + pwd + "@" + ReplaceFirst(brokerUrl, "amqp://", "")
  }

  /** A broker URL written with the scheme gets the credentials after the scheme. */
  lemma DialUrlWithScheme(user: string, pwd: string, rest: string)
    ensures DialUrl(user, pwd, "amqp://" + rest) == "amqp://" + user + ":" + pwd + "@" + rest
  {
    var s := "amqp://" + rest;
    assert OccursAt(s, "amqp://", 0);
    assert Index(s, "amqp://") == Some(0);
    assert s[7..] == rest;
  }

  /** A broker URL without the scheme is used as it is. */
  lemma DialUrlWithoutScheme(user: string, pwd: string, brokerUrl: string)
    requires !Contains(brokerUrl, "amqp://")
    ensures DialUrl(user, pwd, brokerUrl) == "amqp://" + user + ":" + pwd + "@" + brokerUrl
  {
  }

  /**
   * `NewRabbitMQAdapter`: dial once (`dial` is the error the AMQP client
   * reports for a URL) and return the adapter with a nil error whether or
   * not the dial succeeded.
   */
  method NewRabbitMQAdapter(brokerUrl: string, consoleUrl: string, user: string, pwd: string, host: string,
                            dial: string -> GoError)
    returns (r: RabbitMQAdapter, err: GoError)
    ensures err.None?
    ensures r.connected <==> dial(DialUrl(user, pwd, brokerUrl)).None?
    ensures r.url == brokerUrl && r.consoleUrl == consoleUrl && r.username == user && r.pwd == pwd && r.host == host
  {
    var dialErr := dial(DialUrl(user, pwd, brokerUrl));
    r := RabbitMQAdapter(user, pwd, consoleUrl, brokerUrl, host, dialErr.None?);
    err := None;
  }

  // ---- queue listing and queue length -----------------------------------------------

  /** The next answer of the queue listing. */
  function NextListing(b: RabbitBroker): (ListingReply, RabbitBroker)
  {
    if |b.listings| == 0 then (ListDecoded([]), b) else (b.listings[0], b.(listings := b.listings[1..]))
  }

  function ToQueue(e: RabbitQueueInfo): (q: Queue)
    ensures q.name == e.name && q.info.Keys == {"Size"} && q.info["Size"] == IntToDecimal(e.messages)
  {
    Queue(e.name, map["Size" := IntToDecimal(e.messages)])
  }

  /**
   * `GetAllQueues`: one queue per entry of the next listing, in order. A
   * non-200 answer gives a nil list and no error; a failed request, read or
   * decode gives its error.
   */
  method GetAllQueues(b: RabbitBroker) returns (queues: Slice<Queue>, err: GoError, b': RabbitBroker)
    ensures b' == NextListing(b).1
    ensures var l := NextListing(b).0;
      l.ListDecoded? ==> (err.None? && queues.Items? && |queues.elems| == |l.entries| &&
        forall j :: 0 <= j < |l.entries| ==> queues.elems[j] == ToQueue(l.entries[j]))
    ensures NextListing(b).0 == ListBadStatus ==> queues.Nil? && err.None?
    ensures var l := NextListing(b).0;
      !l.ListDecoded? && !l.ListBadStatus? ==> queues.Nil? && err == Some(l.error)
  {
    var listing;
    listing, b' := NextListing(b).0, NextListing(b).1;
    match listing
    case ListDecoded(entries) =>
      var result: seq<Queue> := [];
      for j := 0 to |entries|
        invariant |result| == j && forall i :: 0 <= i < j ==> result[i] == ToQueue(entries[i])
      {
        result := result + [ToQueue(entries[j])];
      }
      return Items(result), None, b';
    case ListBadStatus => return Nil, None, b';
    case _ => return Nil, Some(listing.error), b';
  }

  /** The queues `GetAllQueues` lists for decoded entries. */
  function Listed(entries: seq<RabbitQueueInfo>): (qs: seq<Queue>)
    ensures |qs| == |entries| && forall j :: 0 <= j < |entries| ==> qs[j] == ToQueue(entries[j])
  {
    seq(|entries|, j requires 0 <= j < |entries| => ToQueue(entries[j]))
  }

  /** A queue list as `getQueueLength` sees it: nothing when the listing gives an error. */
  function ListedQueues(l: ListingReply): seq<Queue>
  {
    if l.ListDecoded? then Listed(l.entries) else []
  }

  /**
   * The loop of `getQueueLength` from position `i`: the first queue with the
   * name that has a "Size" entry decides, its size parsed as an integer or 0
   * when it does not parse; no such queue gives 0.
   */
  function LengthFrom(queues: seq<Queue>, name: string, i: nat): int
    requires i <= |queues|
    decreases |queues| - i
  {
    if i == |queues| then 0
    else if queues[i].name == name && "Size" in queues[i].info then
      match Atoi(queues[i].info["Size"])
      case None => 0
      case Some(v) => v
    else LengthFrom(queues, name, i + 1)
  }

  /** The census `getQueueLength` takes of a queue from the next listing. */
  function Census(b: RabbitBroker, name: string): int
  {
    LengthFrom(ListedQueues(NextListing(b).0), name, 0)
  }

  /** `getQueueLength`: the census of a queue; it consumes one listing. */
  method GetQueueLength(b: RabbitBroker, name: string) returns (n: int, b': RabbitBroker)
    ensures n == Census(b, name) && b' == NextListing(b).1
  {
    var queues, err;
    queues, err, b' := GetAllQueues(b);
    if err.Some? {
      return 0, b';
    }
    assert Elems(queues) == ListedQueues(NextListing(b).0);
    var qs := Elems(queues);
    for j := 0 to |qs|
      invariant LengthFrom(qs, name, j) == LengthFrom(qs, name, 0)
    {
      if qs[j].name == name {
        if "Size" !in qs[j].info {
          continue;
        }
        var parsed := Atoi(qs[j].info["Size"]);
        if parsed.None? {
          return 0, b';
        }
        return parsed.value, b';
      }
    }
    return 0, b';
  }

  /** The loop passes over queues with other names. */
  lemma {:induction false} LengthFromSkips(qs: seq<Queue>, name: string, i: nat, k: nat)
    requires i <= k <= |qs|
    requires forall j :: i <= j < k ==> qs[j].name != name
    ensures LengthFrom(qs, name, i) == LengthFrom(qs, name, k)
    decreases k - i
  {
    if i < k {
      LengthFromSkips(qs, name, i + 1, k);
    }
  }

  lemma LengthFromFirst(entries: seq<RabbitQueueInfo>, name: string, i: nat, k: nat)
    requires i <= k < |entries| && entries[k].name == name
    requires MinInt64 <= entries[k].messages <= MaxInt64
    requires forall j :: i <= j < k ==> entries[j].name != name
    ensures LengthFrom(Listed(entries), name, i) == entries[k].messages
  {
    var qs := Listed(entries);
    assert forall j :: i <= j < k ==> qs[j].name == entries[j].name;
    LengthFromSkips(qs, name, i, k);
    LengthFromAt(entries, name, k);
  }

  /** The census at a listed queue with the name is its message count. */
  lemma LengthFromAt(entries: seq<RabbitQueueInfo>, name: string, k: nat)
    requires k < |entries| && entries[k].name == name
    requires MinInt64 <= entries[k].messages <= MaxInt64
    ensures LengthFrom(Listed(entries), name, k) == entries[k].messages
  {
    var q := Listed(entries)[k];
    assert q == ToQueue(entries[k]);
    var size := IntToDecimal(entries[k].messages);
    assert q.name == name && "Size" in q.info && q.info["Size"] == size;
    AtoiOfDecimal(entries[k].messages);
  }

  lemma LengthFromAbsent(entries: seq<RabbitQueueInfo>, name: string, i: nat)
    requires i <= |entries|
    requires forall j :: i <= j < |entries| ==> entries[j].name != name
    ensures LengthFrom(Listed(entries), name, i) == 0
  {
    var qs := Listed(entries);
    assert forall j :: i <= j < |entries| ==> qs[j].name == entries[j].name;
    LengthFromSkips(qs, name, i, |qs|);
  }

  /**
   * The census is 0 when the listing fails or does not list the name.
   */
  lemma QueueLengthUnlisted(l: ListingReply, name: string)
    ensures !l.ListDecoded? || (forall j :: 0 <= j < |l.entries| ==> l.entries[j].name != name) ==>
      LengthFrom(ListedQueues(l), name, 0) == 0
  {
    if l.ListDecoded? && forall j :: 0 <= j < |l.entries| ==> l.entries[j].name != name {
      LengthFromAbsent(l.entries, name, 0);
    }
  }

  /**
   * The census is the message count of the first listed queue with the
   * name. (The listing's counts are decoded into 64-bit integers, so they
   * always parse back.)
   */
  lemma QueueLengthFirst(l: ListingReply, name: string, k: nat)
    requires l.ListDecoded? && k < |l.entries| && l.entries[k].name == name
    requires MinInt64 <= l.entries[k].messages <= MaxInt64
    requires forall j :: 0 <= j < k ==> l.entries[j].name != name
    ensures LengthFrom(ListedQueues(l), name, 0) == l.entries[k].messages
  {
    LengthFromFirst(l.entries, name, 0, k);
  }

  // ---- what a get hands out ----------------------------------------------------------

  /** The `truncate` limit of the adapter's get request, in bytes. */
  const TruncateLimit := 50000

  function Truncated(p: seq<byte>): (c: seq<byte>)
    ensures |c| <= TruncateLimit && c <= p
  {
    if |p| <= TruncateLimit then p else p[..TruncateLimit]
  }

  predicate Continuation(x: byte)
  {
    0x80 <= x <= 0xBF
  }

  /**
   * The length of the well-formed UTF-8 character at the start of `s`, or
   * 0 when there is none (the byte table of section 4 of RFC 3629).
   */
  function CharLength(s: seq<byte>): (n: nat)
    requires |s| > 0
    ensures n <= |s| && (s[0] < 0x80 ==> n == 1)
  {
    var x := s[0];
    if x < 0x80 then 1
    else if 0xC2 <= x <= 0xDF then
      if |s| >= 2 && Continuation(s[1]) then 2 else 0
    else if 0xE0 <= x <= 0xEF then
      var lo := if x == 0xE0 then 0xA0 else 0x80;
      var hi := if x == 0xED then 0x9F else 0xBF;
      if |s| >= 3 && lo <= s[1] <= hi && Continuation(s[2]) then 3 else 0
    else if 0xF0 <= x <= 0xF4 then
      var lo := if x == 0xF0 then 0x90 else 0x80;
      var hi := if x == 0xF4 then 0x8F else 0xBF;
      if |s| >= 4 && lo <= s[1] <= hi && Continuation(s[2]) && Continuation(s[3]) then 4 else 0
    else 0
  }

  /** Well-formed UTF-8. */
  predicate ValidUtf8(s: seq<byte>)
    decreases |s|
  {
    |s| == 0 || (CharLength(s) > 0 && ValidUtf8(s[CharLength(s)..]))
  }

  /** ASCII text is well-formed UTF-8. */
  lemma {:induction false} AsciiIsUtf8(s: seq<byte>)
    requires forall i :: 0 <= i < |s| ==> s[i] < 0x80
    ensures ValidUtf8(s)
    decreases |s|
  {
    if |s| > 0 {
      assert CharLength(s) == 1;
      AsciiIsUtf8(s[1..]);
    }
  }

  /** The character of a six-bit value in the base64 alphabet. */
  function Sextet(v: int): (c: byte)
    requires 0 <= v < 64
    ensures c < 0x80
  {
    if v < 26 then 65 + v
    else if v < 52 then 71 + v
    else if v < 62 then v - 4
    else if v == 62 then 43
    else 47
  }

  const Pad: byte := 61

  /** Base64 with padding, as section 4 of RFC 4648 defines it. */
  function Base64(s: seq<byte>): (e: seq<byte>)
    ensures |e| == 4 * ((|s| + 2) / 3)
    ensures forall i :: 0 <= i < |e| ==> e[i] < 0x80
    decreases |s|
  {
    if |s| == 0 then []
    else if |s| == 1 then [Sextet(s[0] / 4), Sextet(s[0] % 4 * 16), Pad, Pad]
    else if |s| == 2 then [Sextet(s[0] / 4), Sextet(s[0] % 4 * 16 + s[1] / 16), Sextet(s[1] % 16 * 4), Pad]
    else
      [Sextet(s[0] / 4), Sextet(s[0] % 4 * 16 + s[1] / 16), Sextet(s[1] % 16 * 4 + s[2] / 64), Sextet(s[2] % 64)]
      + Base64(s[3..])
  }

  /** The test vectors "f", "fo" and "foobar" of section 10 of RFC 4648. */
  lemma Base64Vectors()
    ensures Base64([102]) == [90, 103, 61, 61]
    ensures Base64([102, 111]) == [90, 109, 56, 61]
    ensures Base64([102, 111, 111, 98, 97, 114]) == [90, 109, 57, 118, 89, 109, 70, 121]
  {
    assert [102, 111, 111, 98, 97, 114][3..] == [98, 97, 114];
  }

  /**
   * The payload a get with encoding "auto" and truncation 50000 hands out:
   * its first 50000 bytes, as they are when they are well-formed UTF-8 and
   * base64-encoded otherwise. The adapter ignores the reported encoding and
   * takes either as the body.
   */
  function PayloadText(p: seq<byte>): seq<byte>
  {
    var c := Truncated(p);
    if ValidUtf8(c) then c else Base64(c)
  }

  /** What a get hands out is always well-formed UTF-8. */
  lemma PayloadTextIsUtf8(p: seq<byte>)
    ensures ValidUtf8(PayloadText(p))
  {
    if !ValidUtf8(Truncated(p)) {
      AsciiIsUtf8(Base64(Truncated(p)));
    }
  }

  /** A well-formed UTF-8 payload of at most 50000 bytes is handed out whole. */
  lemma PayloadIntact(p: seq<byte>)
    requires ValidUtf8(p) && |p| <= TruncateLimit
    ensures PayloadText(p) == p
  {
  }

  /** A longer payload is cut to its first 50000 bytes before the encoding is chosen. */
  lemma PayloadCut(p: seq<byte>)
    requires |p| > TruncateLimit
    ensures PayloadText(p) == PayloadText(p[..TruncateLimit])
    ensures ValidUtf8(p[..TruncateLimit]) ==> PayloadText(p) == p[..TruncateLimit]
    ensures !ValidUtf8(p[..TruncateLimit]) ==> PayloadText(p) == Base64(p[..TruncateLimit])
  {
    assert Truncated(p[..TruncateLimit]) == p[..TruncateLimit];
  }

  /** A payload that is not well-formed UTF-8 is handed out as its base64 text, a third longer. */
  lemma PayloadEncoded(p: seq<byte>)
    requires |p| <= TruncateLimit && !ValidUtf8(p)
    ensures PayloadText(p) == Base64(p) && |PayloadText(p)| == 4 * ((|p| + 2) / 3)
  {
  }

  /** Handing out a text payload twice gives what handing it out once gives. */
  lemma PayloadTextStable(p: seq<byte>)
    requires ValidUtf8(Truncated(p))
    ensures PayloadText(PayloadText(p)) == PayloadText(p)
  {
    var c := Truncated(p);
    assert PayloadText(p) == c;
    assert Truncated(c) == c;
  }

  /**
   * What a get makes of a payload. The adapter's request makes it
   * `PayloadText`; the drain below is written for any handout and the
   * adapter's operations use that one.
   */
  type Handout = seq<byte> -> seq<byte>

  /** The message a get hands the adapter for a stored message. */
  function Fetched(s: StoredMessage, h: Handout): RabbitMessage
  {
    RabbitMessage(s.routingKey, s.correlationId, s.messageId, s.timestamp, h(s.payload))
  }

  // ---- get and publish -----------------------------------------------------------------

  function NextGet(b: RabbitBroker): (GetReply, RabbitBroker)
  {
    if |b.gets| == 0 then (GetOk, b) else (b.gets[0], b.(gets := b.gets[1..]))
  }

  function NextPublish(b: RabbitBroker): (PublishReply, RabbitBroker)
  {
    if |b.publishes| == 0 then (Ack, b) else (b.publishes[0], b.(publishes := b.publishes[1..]))
  }

  /**
   * `removeOneMessageFromQueue` followed by the checks of the drain loop:
   * the message taken off the head of the queue, as the get hands it out,
   * or nothing when the get failed, lost its message, or found the queue
   * empty.
   */
  function GetOne(b: RabbitBroker, queue: string, h: Handout): (RabbitBroker, Option<RabbitMessage>)
  {
    var (reply, b1) := NextGet(b);
    var q := QueueOf(b1, queue);
    match reply
    case GetFailed => (b1, None)
    case GetLost => (if |q| == 0 then b1 else WithQueue(b1, queue, q[1..]), None)
    case GetOk => if |q| == 0 then (b1, None) else (WithQueue(b1, queue, q[1..]), Some(Fetched(q[0], h)))
  }

  /**
   * The AMQP 0-9-1 publishing built from a message: its id, correlation id
   * and body, a three-key header table, the content type and whether it is
   * persistent.
   */
  datatype Publishing = Publishing(messageId: string, correlationId: string, body: seq<byte>,
                                   headers: map<string, string>, contentType: string, persistent: bool)

  function ToPublishing(m: RabbitMessage): Publishing
  {
    Publishing(m.messageId, m.correlationId, m.body,
      map["MessageID" := m.messageId, "CorrelationID" := m.correlationId, "Timestamp" := m.timestamp],
      "application/json", true)
  }

  /** The header table of a publishing has exactly the three keys the adapter writes. */
  lemma PublishingHeaderKeys(m: RabbitMessage)
    ensures ToPublishing(m).headers.Keys == {"MessageID", "CorrelationID", "Timestamp"}
  {
  }

  /** The properties of a publishing besides its header table, by name; its timestamp is not modelled. */
  function PublishedProperties(pub: Publishing): map<string, string>
  {
    map["message_id" := pub.messageId, "correlation_id" := pub.correlationId,
        "content_type" := pub.contentType, "delivery_mode" := if pub.persistent then "2" else "1"]
  }

  /** A header of a publishing, or the empty string when the table lacks it. */
  function HeaderOf(pub: Publishing, key: string): string
  {
    if key in pub.headers then pub.headers[key] else ""
  }

  /** The message a queue holds for a publishing routed with key `queue`. */
  function Delivered(pub: Publishing, queue: string): StoredMessage
  {
    StoredMessage(queue, HeaderOf(pub, "CorrelationID"), HeaderOf(pub, "MessageID"), HeaderOf(pub, "Timestamp"),
      pub.body, PublishedProperties(pub))
  }

  /**
   * A stored message as it is after a get with handout `h` and a publish
   * with routing key `queue`: the three headers kept, the payload as the get
   * handed it out, and the adapter's own properties in place of every other
   * header and property.
   */
  function Republished(s: StoredMessage, queue: string, h: Handout): StoredMessage
  {
    StoredMessage(queue, s.correlationId, s.messageId, s.timestamp, h(s.payload),
      map["message_id" := s.messageId, "correlation_id" := s.correlationId,
          "content_type" := "application/json", "delivery_mode" := "2"])
  }

  /** Taking a message with a get and publishing what the get handed out with routing key `queue` republishes it. */
  lemma PublishRoundTrip(s: StoredMessage, queue: string, h: Handout)
    ensures Delivered(ToPublishing(Fetched(s, h)), queue) == Republished(s, queue, h)
  {
  }

  /** A message with a well-formed UTF-8 payload of at most 50000 bytes loses only its routing key and other properties. */
  lemma RepublishIntact(s: StoredMessage, queue: string)
    requires ValidUtf8(s.payload) && |s.payload| <= TruncateLimit
    ensures Republished(s, queue, PayloadText) == s.(routingKey := queue, extra := Republished(s, queue, PayloadText).extra)
  {
    PayloadIntact(s.payload);
  }

  /** A message with a text payload, once republished, is republished unchanged. */
  lemma RepublishStable(s: StoredMessage, queue: string)
    requires ValidUtf8(Truncated(s.payload))
    ensures Republished(Republished(s, queue, PayloadText), queue, PayloadText) == Republished(s, queue, PayloadText)
  {
    PayloadTextStable(s.payload);
  }

  /** The queues the exchange named `exchange` routes its own name to; none when there is no such exchange. */
  function RoutedTo(b: RabbitBroker, exchange: string): set<string>
  {
    if exchange in b.routes then b.routes[exchange] else {}
  }

  /** `d` appended to every queue in `targets`. */
  function Deliver(b: RabbitBroker, targets: set<string>, d: StoredMessage): (r: RabbitBroker)
    ensures r.routes == b.routes && r.listings == b.listings && r.gets == b.gets && r.publishes == b.publishes
  {
    b.(queues := map n | n in b.queues.Keys + targets :: if n in targets then QueueOf(b, n) + [d] else b.queues[n])
  }

  /** Delivery appends the message to every target queue and to no other. */
  lemma DeliverAppends(b: RabbitBroker, targets: set<string>, d: StoredMessage)
    ensures forall n :: QueueOf(Deliver(b, targets, d), n) == if n in targets then QueueOf(b, n) + [d] else QueueOf(b, n)
  {
  }

  /**
   * `sendMessageAMQP`: a batch of anything but one message is refused. The
   * message is published to the exchange named `queue` with routing key
   * `queue`, and reaches the queues that exchange routes it to. The send
   * succeeds exactly when the broker acknowledges, whether or not any queue
   * took the message; a nack or a confirmation timeout is an error naming
   * the message id.
   */
  function SendAmqp(b: RabbitBroker, batch: seq<RabbitMessage>, queue: string): (r: (GoError, RabbitBroker))
    ensures |batch| != 1 ==> r == (Some("Expected 1 message and got " + NatToDecimal(|batch|)), b)
    ensures |batch| == 1 ==> (r.0.None? <==> NextPublish(b).0 == Ack)
    ensures r.1.routes == b.routes && r.1.listings == b.listings && r.1.gets == b.gets
  {
    if |batch| != 1 then (Some("Expected 1 message and got " + NatToDecimal(|batch|)), b)
    else
      var pub := ToPublishing(batch[0]);
      var (reply, b1) := NextPublish(b);
      match reply
      case Ack => (None, Deliver(b1, RoutedTo(b1, queue), Delivered(pub, queue)))
      case Nack(tag) => (Some("Message ID: " + pub.messageId + "; Nack: " + NatToDecimal(tag)), b1)
      case ConfirmTimeout => (Some("Message ID: " + pub.messageId + "; Timeout"), b1)
      case ChannelFailed(e) => (Some(e), b1)
      case ConfirmFailed(e) => (Some(e), b1)
      case PublishFailed(e) => (Some(e), b1)
  }

  /**
   * Where a send leaves the message: on success in every queue the exchange
   * named `queue` routes to, and in no other; on an error in no queue.
   */
  lemma SendAmqpRoutes(b: RabbitBroker, batch: seq<RabbitMessage>, queue: string)
    ensures var r := SendAmqp(b, batch, queue);
      && (|batch| == 1 && r.0.None? ==>
            forall n :: QueueOf(r.1, n) ==
              if n in RoutedTo(b, queue) then QueueOf(b, n) + [Delivered(ToPublishing(batch[0]), queue)] else QueueOf(b, n))
      && (r.0.Some? ==> forall n :: QueueOf(r.1, n) == QueueOf(b, n))
  {
    if |batch| == 1 && NextPublish(b).0 == Ack {
      var b1 := NextPublish(b).1;
      DeliverAppends(b1, RoutedTo(b1, queue), Delivered(ToPublishing(batch[0]), queue));
    }
  }

  /** An acknowledged message that no queue takes is lost, and the send still reports success. */
  lemma UnroutedSendIsLost(b: RabbitBroker, m: RabbitMessage, queue: string)
    requires NextPublish(b).0 == Ack && RoutedTo(b, queue) == {}
    ensures SendAmqp(b, [m], queue).0.None?
    ensures forall n :: QueueOf(SendAmqp(b, [m], queue).1, n) == QueueOf(b, n)
  {
    SendAmqpRoutes(b, [m], queue);
  }

  /** `requeueMessages`: publish each batch to `queue` in order; failures are only logged. */
  function Requeue(b: RabbitBroker, batches: seq<seq<RabbitMessage>>, queue: string): RabbitBroker
    decreases |batches|
  {
    if |batches| == 0 then b else Requeue(SendAmqp(b, batches[0], queue).1, batches[1..], queue)
  }

  method RequeueMessages(b: RabbitBroker, batches: seq<seq<RabbitMessage>>, queue: string) returns (err: GoError, b': RabbitBroker)
    ensures err.None? && b' == Requeue(b, batches, queue)
  {
    b' := b;
    for j := 0 to |batches|
      invariant Requeue(b', batches[j..], queue) == Requeue(b, batches, queue)
    {
      assert batches[j..][0] == batches[j] && batches[j..][1..] == batches[j + 1..];
      var (_, b1) := SendAmqp(b', batches[j], queue);
      b' := b1;
    }
    err := None;
  }

  // ---- MoveOne and DeleteOne ---------------------------------------------------------------

  /**
   * The drain loop of `MoveOne` (`moving`) and `DeleteOne`, `k` gets still
   * to go. A match is published to `to` when moving (and kept for the
   * requeue if that fails) and dropped when deleting; every other message
   * is kept for the requeue, in drain order. There is no early stop.
   */
  function DrainFrom(b: RabbitBroker, from: string, to: string, target: string, moving: bool, k: nat,
                     requeue: seq<seq<RabbitMessage>>, h: Handout): (RabbitBroker, seq<seq<RabbitMessage>>)
    decreases k
  {
    if k == 0 then (b, requeue)
    else
      var (b1, rq1) := DrainStep(b, from, to, target, moving, requeue, h);
      DrainFrom(b1, from, to, target, moving, k - 1, rq1, h)
  }

  /** One iteration of the drain loop. */
  function DrainStep(b: RabbitBroker, from: string, to: string, target: string, moving: bool,
                     requeue: seq<seq<RabbitMessage>>, h: Handout): (RabbitBroker, seq<seq<RabbitMessage>>)
  {
    var (b1, got) := GetOne(b, from, h);
    if got.None? then (b1, requeue)
    else
      var m := got.value;
      if m.messageId == target then
        if moving then
          var (err, b2) := SendAmqp(b1, [m], to);
          (b2, if err.Some? then requeue + [[m]] else requeue)
        else (b1, requeue)
      else (b1, requeue + [[m]])
  }

  /** Number of loop iterations for a census: none for a census below one. */
  function Iterations(n: int): nat
  {
    if n < 0 then 0 else n
  }

  /** `MoveOne` (`moving`) or `DeleteOne`: census, drain, requeue; the error is always nil. */
  function FindOne(b: RabbitBroker, from: string, to: string, target: string, moving: bool, h: Handout): RabbitBroker
  {
    var b0 := NextListing(b).1;
    var (b1, requeue) := DrainFrom(b0, from, to, target, moving, Iterations(Census(b, from)), [], h);
    Requeue(b1, requeue, from)
  }

  method DrainQueue(b: RabbitBroker, from: string, to: string, target: string, moving: bool, n: int)
    returns (b': RabbitBroker, requeue: seq<seq<RabbitMessage>>)
    ensures (b', requeue) == DrainFrom(b, from, to, target, moving, Iterations(n), [], PayloadText)
  {
    b', requeue := b, [];
    var i := 0;
    while i < n
      invariant 0 <= i <= Iterations(n)
      invariant DrainFrom(b', from, to, target, moving, Iterations(n) - i, requeue, PayloadText) ==
        DrainFrom(b, from, to, target, moving, Iterations(n), [], PayloadText)
    {
      var (b1, got) := GetOne(b', from, PayloadText);
      b' := b1;
      if got.Some? {
        var m := got.value;
        if m.messageId == target {
          if moving {
            var (err, b2) := SendAmqp(b', [m], to);
            b' := b2;
            if err.Some? {
              requeue := requeue + [[m]];
            }
          }
        } else {
          requeue := requeue + [[m]];
        }
      }
      i := i + 1;
    }
  }

  method FindOneMethod(b: RabbitBroker, from: string, to: string, target: string, moving: bool)
    returns (err: GoError, b': RabbitBroker)
    ensures err.None? && b' == FindOne(b, from, to, target, moving, PayloadText)
  {
    var n, b0 := GetQueueLength(b, from);
    var b1, requeue := DrainQueue(b0, from, to, target, moving, n);
    err, b' := RequeueMessages(b1, requeue, from);
  }

  /** `MoveOne`: every message with the target id among the census goes to `to`; the error is always nil. */
  method MoveOne(b: RabbitBroker, from: string, to: string, target: string) returns (err: GoError, b': RabbitBroker)
    ensures err.None? && b' == FindOne(b, from, to, target, true, PayloadText)
  {
    err, b' := FindOneMethod(b, from, to, target, true);
  }

  /** `DeleteOne`: every message with the target id among the census is dropped; the error is always nil. */
  method DeleteOne(b: RabbitBroker, queue: string, target: string) returns (err: GoError, b': RabbitBroker)
    ensures err.None? && b' == FindOne(b, queue, queue, target, false, PayloadText)
  {
    err, b' := FindOneMethod(b, queue, queue, target, false);
  }

  /** `step` applied once per id, in order. */
  function EachOf(b: RabbitBroker, ids: seq<string>, step: (RabbitBroker, string) -> RabbitBroker): RabbitBroker
    decreases |ids|
  {
    if |ids| == 0 then b else EachOf(step(b, ids[0]), ids[1..], step)
  }

  /** `Move` and `DeleteMany`: the single-message operation once per id, in order, and an empty non-nil error list. */
  function ForEachId(b: RabbitBroker, from: string, to: string, ids: seq<string>, moving: bool, h: Handout): RabbitBroker
  {
    EachOf(b, ids, (c: RabbitBroker, id: string) => FindOne(c, from, to, id, moving, h))
  }

  method Move(b: RabbitBroker, from: string, to: string, ids: seq<string>) returns (errs: Slice<GoError>, b': RabbitBroker)
    ensures errs == Items([]) && b' == ForEachId(b, from, to, ids, true, PayloadText)
  {
    var out: seq<GoError> := [];
    b' := b;
    for j := 0 to |ids|
      invariant out == []
      invariant ForEachId(b', from, to, ids[j..], true, PayloadText) == ForEachId(b, from, to, ids, true, PayloadText)
    {
      assert ids[j..][0] == ids[j] && ids[j..][1..] == ids[j + 1..];
      var err, b1 := MoveOne(b', from, to, ids[j]);
      b' := b1;
      if err.Some? {
        out := out + [err];
      }
    }
    errs := Items(out);
  }

  method DeleteMany(b: RabbitBroker, queue: string, ids: seq<string>) returns (errs: Slice<GoError>, b': RabbitBroker)
    ensures errs == Items([]) && b' == ForEachId(b, queue, queue, ids, false, PayloadText)
  {
    var out: seq<GoError> := [];
    b' := b;
    for j := 0 to |ids|
      invariant out == []
      invariant ForEachId(b', queue, queue, ids[j..], false, PayloadText) == ForEachId(b, queue, queue, ids, false, PayloadText)
    {
      assert ids[j..][0] == ids[j] && ids[j..][1..] == ids[j + 1..];
      var err, b1 := DeleteOne(b', queue, ids[j]);
      b' := b1;
      if err.Some? {
        out := out + [err];
      }
    }
    errs := Items(out);
  }

  // ---- every id takes a census of its own -----------------------------------------------------

  /** The drain loop consumes no listing. */
  lemma {:induction false} DrainKeepsListings(b: RabbitBroker, from: string, to: string, target: string, moving: bool,
                                              k: nat, requeue: seq<seq<RabbitMessage>>, h: Handout)
    ensures DrainFrom(b, from, to, target, moving, k, requeue, h).0.listings == b.listings
    decreases k
  {
    if k > 0 {
      var (b1, rq1) := DrainStep(b, from, to, target, moving, requeue, h);
      assert b1.listings == b.listings;
      DrainKeepsListings(b1, from, to, target, moving, k - 1, rq1, h);
    }
  }

  /** The requeue consumes no listing. */
  lemma {:induction false} RequeueKeepsListings(b: RabbitBroker, batches: seq<seq<RabbitMessage>>, queue: string)
    ensures Requeue(b, batches, queue).listings == b.listings
    decreases |batches|
  {
    if |batches| > 0 {
      RequeueKeepsListings(SendAmqp(b, batches[0], queue).1, batches[1..], queue);
    }
  }

  /** `MoveOne` and `DeleteOne` consume exactly one listing, the census's. */
  lemma FindOneTakesOneListing(b: RabbitBroker, from: string, to: string, target: string, moving: bool, h: Handout)
    ensures FindOne(b, from, to, target, moving, h).listings == NextListing(b).1.listings
    ensures |b.listings| > 0 ==> FindOne(b, from, to, target, moving, h).listings == b.listings[1..]
  {
    var b0 := NextListing(b).1;
    DrainKeepsListings(b0, from, to, target, moving, Iterations(Census(b, from)), [], h);
    var (b1, requeue) := DrainFrom(b0, from, to, target, moving, Iterations(Census(b, from)), [], h);
    RequeueKeepsListings(b1, requeue, from);
  }

  /** A step that takes one listing, once per id: `n` ids consume `n` listings. */
  lemma {:induction false} EachOfTakesOneListingEach(b: RabbitBroker, ids: seq<string>, step: (RabbitBroker, string) -> RabbitBroker)
    requires |ids| <= |b.listings|
    requires forall c, id :: step(c, id).listings == NextListing(c).1.listings
    ensures EachOf(b, ids, step).listings == b.listings[|ids|..]
    decreases |ids|
  {
    if |ids| > 0 {
      var b1 := step(b, ids[0]);
      EachOfTakesOneListingEach(b1, ids[1..], step);
      SuffixOfSuffix(b.listings, b1.listings, EachOf(b1, ids[1..], step).listings, |ids|);
    }
  }

  lemma SuffixOfSuffix<T>(s: seq<T>, s1: seq<T>, s2: seq<T>, n: nat)
    requires 0 < n <= |s| && s1 == s[1..] && s2 == s1[n - 1..]
    ensures s2 == s[n..]
  {
  }

  /** `Move` and `DeleteMany` take a fresh census per id: `n` ids consume `n` listings. */
  lemma ForEachIdTakesOneListingEach(b: RabbitBroker, from: string, to: string, ids: seq<string>, moving: bool, h: Handout)
    requires |ids| <= |b.listings|
    ensures ForEachId(b, from, to, ids, moving, h).listings == b.listings[|ids|..]
  {
    var step := (c: RabbitBroker, id: string) => FindOne(c, from, to, id, moving, h);
    forall c, id
      ensures step(c, id).listings == NextListing(c).1.listings
    {
      FindOneTakesOneListing(c, from, to, id, moving, h);
    }
    EachOfTakesOneListingEach(b, ids, step);
  }

  // ---- what a move or delete does when the broker cooperates -----------------------------------

  /** The messages of `q` with id `t`, republished to `queue`. */
  function Matching(q: seq<StoredMessage>, t: string, queue: string, h: Handout): seq<StoredMessage>
  {
    if |q| == 0 then []
    else (if q[0].messageId == t then [Republished(q[0], queue, h)] else []) + Matching(q[1..], t, queue, h)
  }

  /** The messages of `q` with another id, republished to `queue`. */
  function Others(q: seq<StoredMessage>, t: string, queue: string, h: Handout): seq<StoredMessage>
  {
    if |q| == 0 then []
    else (if q[0].messageId != t then [Republished(q[0], queue, h)] else []) + Others(q[1..], t, queue, h)
  }

  /** The batches kept for the requeue: one per message of `q` with another id, as the get handed it out. */
  function OtherBatches(q: seq<StoredMessage>, t: string, h: Handout): seq<seq<RabbitMessage>>
  {
    if |q| == 0 then [] else (if q[0].messageId != t then [[Fetched(q[0], h)]] else []) + OtherBatches(q[1..], t, h)
  }

  /** Every get and every publish succeeds. */
  predicate Cooperative(b: RabbitBroker)
  {
    b.gets == [] && b.publishes == []
  }

  /** The exchange named after `queue` routes to that queue alone. */
  predicate SelfRouted(b: RabbitBroker, queue: string)
  {
    RoutedTo(b, queue) == {queue}
  }

  function Min(a: nat, b: nat): nat
  {
    if a < b then a else b
  }

  /** With every get succeeding, a get takes the head of the queue, if there is one. */
  lemma GetOneCooperative(b: RabbitBroker, queue: string, h: Handout)
    requires b.gets == []
    ensures var q := QueueOf(b, queue);
      GetOne(b, queue, h) == if |q| == 0 then (b, None) else (WithQueue(b, queue, q[1..]), Some(Fetched(q[0], h)))
  {
  }

  /** With every publish succeeding and the exchange routing to the queue alone, a send appends the message to that queue. */
  lemma SendCooperative(b: RabbitBroker, m: RabbitMessage, queue: string)
    requires b.publishes == [] && SelfRouted(b, queue)
    ensures var r := SendAmqp(b, [m], queue);
      && r.0.None? && r.1.publishes == [] && r.1.gets == b.gets && r.1.listings == b.listings && r.1.routes == b.routes
      && QueueOf(r.1, queue) == QueueOf(b, queue) + [Delivered(ToPublishing(m), queue)]
      && (forall other :: other != queue ==> QueueOf(r.1, other) == QueueOf(b, other))
  {
    SendAmqpRoutes(b, [m], queue);
  }

  /**
   * What a drain did, relative to the state `b` it started from: `taken`
   * left the head of the source, `rest` remains, the non-matching ones of
   * `taken` were appended to the requeue and, when moving, the matching ones
   * to the destination; no other queue changed.
   */
  ghost predicate DrainedAs(b: RabbitBroker, b': RabbitBroker, rq: seq<seq<RabbitMessage>>, requeue: seq<seq<RabbitMessage>>,
                            from: string, to: string, target: string, moving: bool, h: Handout,
                            taken: seq<StoredMessage>, rest: seq<StoredMessage>)
  {
    && Cooperative(b') && b'.listings == b.listings && b'.routes == b.routes
    && QueueOf(b', from) == rest
    && rq == requeue + OtherBatches(taken, target, h)
    && (moving ==> QueueOf(b', to) == QueueOf(b, to) + Matching(taken, target, to, h))
    && (forall other :: other != from && (moving ==> other != to) ==> QueueOf(b', other) == QueueOf(b, other))
  }

  /** With every get and publish succeeding, one drain step takes the head of the source. */
  lemma DrainStepCooperative(b: RabbitBroker, from: string, to: string, target: string, moving: bool,
                             requeue: seq<seq<RabbitMessage>>, h: Handout)
    requires Cooperative(b) && (moving ==> from != to && SelfRouted(b, to)) && |QueueOf(b, from)| > 0
    ensures var q := QueueOf(b, from);
      var r := DrainStep(b, from, to, target, moving, requeue, h);
      DrainedAs(b, r.0, r.1, requeue, from, to, target, moving, h, [q[0]], q[1..])
  {
    var q := QueueOf(b, from);
    var x := q[0];
    GetOneCooperative(b, from, h);
    var b1 := WithQueue(b, from, q[1..]);
    assert Matching([x], target, to, h) == (if x.messageId == target then [Republished(x, to, h)] else []) + Matching([], target, to, h);
    assert OtherBatches([x], target, h) == (if x.messageId != target then [[Fetched(x, h)]] else []) + OtherBatches([], target, h);
    if x.messageId == target && moving {
      SendCooperative(b1, Fetched(x, h), to);
      PublishRoundTrip(x, to, h);
    }
  }

  /** Two drains in a row, the first taking one message, are one drain. */
  lemma DrainedCompose(b: RabbitBroker, b1: RabbitBroker, b': RabbitBroker,
                       requeue: seq<seq<RabbitMessage>>, rq1: seq<seq<RabbitMessage>>, rq: seq<seq<RabbitMessage>>,
                       from: string, to: string, target: string, moving: bool, h: Handout,
                       x: StoredMessage, taken: seq<StoredMessage>, rest: seq<StoredMessage>)
    requires moving ==> from != to
    requires DrainedAs(b, b1, rq1, requeue, from, to, target, moving, h, [x], QueueOf(b1, from))
    requires DrainedAs(b1, b', rq, rq1, from, to, target, moving, h, taken, rest)
    ensures DrainedAs(b, b', rq, requeue, from, to, target, moving, h, [x] + taken, rest)
  {
    ConsDistributes(x, taken, target, to, h);
  }

  lemma ConsDistributes(x: StoredMessage, taken: seq<StoredMessage>, target: string, to: string, h: Handout)
    ensures Matching([x] + taken, target, to, h) == Matching([x], target, to, h) + Matching(taken, target, to, h)
    ensures OtherBatches([x] + taken, target, h) == OtherBatches([x], target, h) + OtherBatches(taken, target, h)
  {
    assert ([x] + taken)[0] == x && ([x] + taken)[1..] == taken;
    assert Matching([x], target, to, h) == (if x.messageId == target then [Republished(x, to, h)] else []) + Matching([], target, to, h);
    assert OtherBatches([x], target, h) == (if x.messageId != target then [[Fetched(x, h)]] else []) + OtherBatches([], target, h);
  }

  /**
   * With every get and publish succeeding, distinct queues and the
   * destination's exchange routing to it alone, `k` drain steps take the
   * first `min(k, |q|)` messages off the source; the matches among them reach
   * the destination, in order, and the others are kept for the requeue, in
   * order.
   */
  lemma {:induction false} DrainCooperative(b: RabbitBroker, from: string, to: string, target: string, moving: bool, k: nat,
                                            requeue: seq<seq<RabbitMessage>>, h: Handout)
    requires Cooperative(b) && (moving ==> from != to && SelfRouted(b, to))
    ensures var q := QueueOf(b, from);
      var m := Min(k, |q|);
      var r := DrainFrom(b, from, to, target, moving, k, requeue, h);
      DrainedAs(b, r.0, r.1, requeue, from, to, target, moving, h, q[..m], q[m..])
    decreases k
  {
    var q := QueueOf(b, from);
    if k > 0 && |q| > 0 {
      DrainStepCooperative(b, from, to, target, moving, requeue, h);
      var (b1, rq1) := DrainStep(b, from, to, target, moving, requeue, h);
      DrainCooperative(b1, from, to, target, moving, k - 1, rq1, h);
      var r := DrainFrom(b1, from, to, target, moving, k - 1, rq1, h);
      DrainedAfterHead(b, b1, r.0, requeue, rq1, r.1, from, to, target, moving, h, q, k);
    } else if k > 0 {
      GetOneCooperative(b, from, h);
      assert DrainStep(b, from, to, target, moving, requeue, h) == (b, requeue);
      DrainCooperative(b, from, to, target, moving, k - 1, requeue, h);
    } else {
      assert q[..0] == [] && q[0..] == q;
      assert Matching([], target, to, h) == [] && OtherBatches([], target, h) == [];
    }
  }

  /** A drain of the head followed by a drain of `k - 1` more is a drain of `k`. */
  lemma DrainedAfterHead(b: RabbitBroker, b1: RabbitBroker, b': RabbitBroker,
                         requeue: seq<seq<RabbitMessage>>, rq1: seq<seq<RabbitMessage>>, rq: seq<seq<RabbitMessage>>,
                         from: string, to: string, target: string, moving: bool, h: Handout,
                         q: seq<StoredMessage>, k: nat)
    requires k > 0 && |q| > 0 && (moving ==> from != to)
    requires DrainedAs(b, b1, rq1, requeue, from, to, target, moving, h, [q[0]], q[1..])
    requires var m1 := Min(k - 1, |q| - 1);
      DrainedAs(b1, b', rq, rq1, from, to, target, moving, h, q[1..][..m1], q[1..][m1..])
    ensures var m := Min(k, |q|);
      DrainedAs(b, b', rq, requeue, from, to, target, moving, h, q[..m], q[m..])
  {
    var q1, m, m1 := q[1..], Min(k, |q|), Min(k - 1, |q| - 1);
    assert [q[0]] + q1[..m1] == q[..m];
    assert q1[m1..] == q[m..];
    DrainedCompose(b, b1, b', requeue, rq1, rq, from, to, target, moving, h, q[0], q1[..m1], q1[m1..]);
  }

  /**
   * What a requeue of `batches` appends to the queue when every publish
   * succeeds: each one-message batch, as delivered; any other batch is
   * refused.
   */
  function RequeueDelivered(batches: seq<seq<RabbitMessage>>, queue: string): seq<StoredMessage>
    decreases |batches|
  {
    if |batches| == 0 then []
    else (if |batches[0]| == 1 then [Delivered(ToPublishing(batches[0][0]), queue)] else []) + RequeueDelivered(batches[1..], queue)
  }

  /**
   * What a requeue did, relative to the state `b` it started from: `added`
   * was appended to `queue` and nothing else changed.
   */
  ghost predicate RequeuedAs(b: RabbitBroker, b': RabbitBroker, queue: string, added: seq<StoredMessage>)
  {
    && b'.publishes == [] && b'.gets == b.gets && b'.listings == b.listings && b'.routes == b.routes
    && QueueOf(b', queue) == QueueOf(b, queue) + added
    && (forall other :: other != queue ==> QueueOf(b', other) == QueueOf(b, other))
  }

  /** The send of one batch appends its message to the queue, or refuses a batch of any other size. */
  lemma RequeueSendCooperative(b: RabbitBroker, batch: seq<RabbitMessage>, queue: string)
    requires b.publishes == [] && SelfRouted(b, queue)
    ensures RequeuedAs(b, SendAmqp(b, batch, queue).1, queue,
                       if |batch| == 1 then [Delivered(ToPublishing(batch[0]), queue)] else [])
  {
    if |batch| == 1 {
      assert batch == [batch[0]];
      SendCooperative(b, batch[0], queue);
    }
  }

  lemma RequeuedCompose(b: RabbitBroker, b1: RabbitBroker, b': RabbitBroker, queue: string,
                        added1: seq<StoredMessage>, added: seq<StoredMessage>)
    requires RequeuedAs(b, b1, queue, added1) && RequeuedAs(b1, b', queue, added)
    ensures RequeuedAs(b, b', queue, added1 + added)
  {
    assert QueueOf(b', queue) == (QueueOf(b, queue) + added1) + added;
  }

  /**
   * With every publish succeeding and the queue's exchange routing to it
   * alone, a requeue appends what `RequeueDelivered` says to the queue and
   * changes no other queue.
   */
  lemma {:induction false} RequeueAppends(b: RabbitBroker, batches: seq<seq<RabbitMessage>>, queue: string)
    requires b.publishes == [] && SelfRouted(b, queue)
    ensures RequeuedAs(b, Requeue(b, batches, queue), queue, RequeueDelivered(batches, queue))
    decreases |batches|
  {
    if |batches| > 0 {
      var b1 := SendAmqp(b, batches[0], queue).1;
      RequeueSendCooperative(b, batches[0], queue);
      RequeueAppends(b1, batches[1..], queue);
      RequeuedCompose(b, b1, Requeue(b1, batches[1..], queue), queue,
                      if |batches[0]| == 1 then [Delivered(ToPublishing(batches[0][0]), queue)] else [],
                      RequeueDelivered(batches[1..], queue));
    } else {
      assert RequeueDelivered(batches, queue) == [];
    }
  }

  /** The batches kept for the requeue deliver the non-matching messages, republished, in order. */
  lemma {:induction false} RequeueDeliversOthers(q: seq<StoredMessage>, t: string, queue: string, h: Handout)
    ensures RequeueDelivered(OtherBatches(q, t, h), queue) == Others(q, t, queue, h)
    decreases |q|
  {
    if |q| > 0 {
      RequeueDeliversOthers(q[1..], t, queue, h);
      var batches := OtherBatches(q, t, h);
      if q[0].messageId != t {
        assert batches == [[Fetched(q[0], h)]] + OtherBatches(q[1..], t, h);
        assert batches[0] == [Fetched(q[0], h)] && batches[1..] == OtherBatches(q[1..], t, h);
        PublishRoundTrip(q[0], queue, h);
      } else {
        assert batches == OtherBatches(q[1..], t, h);
      }
    }
  }

  /**
   * With every publish succeeding and the queue's exchange routing to it
   * alone, the requeue appends each kept message to the queue, republished,
   * in order.
   */
  lemma RequeueCooperative(b: RabbitBroker, q: seq<StoredMessage>, t: string, queue: string, h: Handout)
    requires b.publishes == [] && SelfRouted(b, queue)
    ensures var b' := Requeue(b, OtherBatches(q, t, h), queue);
      && b'.publishes == [] && b'.gets == b.gets && b'.listings == b.listings && b'.routes == b.routes
      && QueueOf(b', queue) == QueueOf(b, queue) + Others(q, t, queue, h)
      && (forall other :: other != queue ==> QueueOf(b', other) == QueueOf(b, other))
  {
    RequeueAppends(b, OtherBatches(q, t, h), queue);
    RequeueDeliversOthers(q, t, queue, h);
  }

  /**
   * A drain of the first `m` messages of the source `q` followed by the
   * requeue of the kept ones: the source ends with the rest of `q` and then
   * the kept ones; when moving, the destination gained the matches; no other
   * queue changed.
   */
  lemma DrainThenRequeue(b0: RabbitBroker, b1: RabbitBroker, b2: RabbitBroker, rq: seq<seq<RabbitMessage>>,
                         from: string, to: string, target: string, moving: bool, h: Handout,
                         q: seq<StoredMessage>, m: nat)
    requires m <= |q| && (moving ==> from != to)
    requires DrainedAs(b0, b1, rq, [], from, to, target, moving, h, q[..m], q[m..])
    requires QueueOf(b2, from) == QueueOf(b1, from) + Others(q[..m], target, from, h)
    requires forall other :: other != from ==> QueueOf(b2, other) == QueueOf(b1, other)
    ensures QueueOf(b2, from) == q[m..] + Others(q[..m], target, from, h)
    ensures moving ==> QueueOf(b2, to) == QueueOf(b0, to) + Matching(q[..m], target, to, h)
    ensures forall other :: other != from && (moving ==> other != to) ==> QueueOf(b2, other) == QueueOf(b0, other)
  {
  }

  /**
   * A drain of `k` steps from a cooperating broker followed by the requeue
   * of what it kept: with `m` the smaller of `k` and the source's length,
   * the source becomes its rest followed by the non-matching messages among
   * the first `m`, republished; when moving, the destination gains the
   * matching ones; no other queue changes.
   */
  lemma DrainRequeueCooperative(b0: RabbitBroker, from: string, to: string, target: string, moving: bool, k: nat, h: Handout)
    requires Cooperative(b0) && SelfRouted(b0, from) && (moving ==> from != to && SelfRouted(b0, to))
    ensures var q := QueueOf(b0, from);
      var m := Min(k, |q|);
      var r := DrainFrom(b0, from, to, target, moving, k, [], h);
      var b' := Requeue(r.0, r.1, from);
      && QueueOf(b', from) == q[m..] + Others(q[..m], target, from, h)
      && (moving ==> QueueOf(b', to) == QueueOf(b0, to) + Matching(q[..m], target, to, h))
      && (forall other :: other != from && (moving ==> other != to) ==> QueueOf(b', other) == QueueOf(b0, other))
  {
    var q := QueueOf(b0, from);
    var m := Min(k, |q|);
    DrainCooperative(b0, from, to, target, moving, k, [], h);
    var (b1, rq) := DrainFrom(b0, from, to, target, moving, k, [], h);
    assert rq == OtherBatches(q[..m], target, h);
    RequeueCooperative(b1, q[..m], target, from, h);
    DrainThenRequeue(b0, b1, Requeue(b1, rq, from), rq, from, to, target, moving, h, q, m);
  }

  /** The census takes one listing and changes nothing else. */
  lemma NextListingKeepsQueues(b: RabbitBroker)
    ensures var b0 := NextListing(b).1;
      && b0.gets == b.gets && b0.publishes == b.publishes && b0.routes == b.routes
      && forall n :: QueueOf(b0, n) == QueueOf(b, n)
  {
  }

  /**
   * `MoveOne` when the broker cooperates, the queues differ and each
   * queue's exchange routes to it alone: with `m` the census capped by the
   * queue's length, the source becomes the rest of the queue followed by
   * the non-matching messages among the first `m`, republished, in order;
   * the destination gains the matching ones, republished, in order; no
   * other queue changes.
   */
  lemma MoveOneCooperative(b: RabbitBroker, from: string, to: string, target: string, h: Handout)
    requires Cooperative(b) && from != to && SelfRouted(b, from) && SelfRouted(b, to)
    ensures var q := QueueOf(b, from);
      var m := Min(Iterations(Census(b, from)), |q|);
      var b' := FindOne(b, from, to, target, true, h);
      && QueueOf(b', from) == q[m..] + Others(q[..m], target, from, h)
      && QueueOf(b', to) == QueueOf(b, to) + Matching(q[..m], target, to, h)
      && (forall other :: other != from && other != to ==> QueueOf(b', other) == QueueOf(b, other))
  {
    NextListingKeepsQueues(b);
    DrainRequeueCooperative(NextListing(b).1, from, to, target, true, Iterations(Census(b, from)), h);
  }

  /**
   * `DeleteOne` when the broker cooperates and the queue's exchange routes
   * to it alone: the queue becomes the rest of the queue followed by the
   * non-matching messages among the first `m`, republished; no other queue
   * changes.
   */
  lemma DeleteOneCooperative(b: RabbitBroker, queue: string, target: string, h: Handout)
    requires Cooperative(b) && SelfRouted(b, queue)
    ensures var q := QueueOf(b, queue);
      var m := Min(Iterations(Census(b, queue)), |q|);
      var b' := FindOne(b, queue, queue, target, false, h);
      && QueueOf(b', queue) == q[m..] + Others(q[..m], target, queue, h)
      && (forall other :: other != queue ==> QueueOf(b', other) == QueueOf(b, other))
  {
    NextListingKeepsQueues(b);
    DrainRequeueCooperative(NextListing(b).1, queue, queue, target, false, Iterations(Census(b, queue)), h);
  }

  /**
   * When the source's exchange routes nowhere, everything the requeue puts
   * back is lost: an acknowledged publish that no queue takes still counts
   * as success.
   */
  lemma {:induction false} RequeueUnroutedLoses(b: RabbitBroker, batches: seq<seq<RabbitMessage>>, queue: string)
    requires b.publishes == [] && RoutedTo(b, queue) == {}
    ensures forall n :: QueueOf(Requeue(b, batches, queue), n) == QueueOf(b, n)
    decreases |batches|
  {
    if |batches| > 0 {
      var b1 := SendAmqp(b, batches[0], queue).1;
      if |batches[0]| == 1 {
        assert batches[0] == [batches[0][0]];
        UnroutedSendIsLost(b, batches[0][0], queue);
      }
      assert b1.publishes == [] && RoutedTo(b1, queue) == {};
      RequeueUnroutedLoses(b1, batches[1..], queue);
    }
  }

  /** A failed get takes nothing off the queue and keeps nothing for the requeue. */
  lemma FailedGetChangesNothing(b: RabbitBroker, queue: string, h: Handout)
    requires |b.gets| > 0 && b.gets[0] == GetFailed
    ensures GetOne(b, queue, h) == (b.(gets := b.gets[1..]), None)
  {
  }
}
