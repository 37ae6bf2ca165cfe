/**
 * The parts of the ActiveMQ adapter that do not settle messages: the
 * constructor's dial fallback, the RSS census of a queue over the console
 * URLs, the queue listing from the console's XML page, and the projection of
 * AMQP messages into `StandardMessage` records.
 *
 * HTTP requests are not performed: what each console URL answers is an
 * oracle function of the URL, already decoded from XML.
 */
module ActiveMQConsole {
  import opened Wrappers
  import opened GoStrings
  import opened BrokerTypes
  import opened Amqp
  import opened Fallback

  /**
   * The adapter's fixed state. The AMQP client is represented by the broker
   * URL that was dialled successfully.
   */
  datatype ActiveMQAdapter = ActiveMQAdapter(
    connectedUrl: string, consoleUrls: seq<string>, consoleUser: string, consolePwd: string)

  /** The constructor always leaves at least one console URL, since splitting never yields nothing. */
  predicate Valid(a: ActiveMQAdapter)
  {
    |a.consoleUrls| >= 1
  }

  // ---- constructor ---------------------------------------------------------

  /** A dial attempt as a fallback attempt; the success value is the URL dialled. */
  function DialAttempt(dial: (string, bool) -> GoError, useTLS: bool): string -> Attempt<string>
  {
    u => if dial(u, useTLS).None? then Success(u) else Failure(dial(u, useTLS).value)
  }

  /**
   * `NewActiveMQAdapter`: dial the comma-separated broker URLs in order (with
   * or without TLS) until one connects. `dial(u, tls)` is the error the AMQP
   * client reports for URL `u`. With no URL connecting, the error of the last
   * one is returned and no adapter.
   */
  method NewActiveMQAdapter(brokerUrl: string, consoleUrl: string, consoleUser: string, consolePwd: string,
                            useTLS: bool, dial: (string, bool) -> GoError)
    returns (r: Option<ActiveMQAdapter>, err: GoError)
    ensures r.Some? <==> err.None?
    ensures r.Some? <==> exists j :: 0 <= j < |Split(brokerUrl, ',')| && dial(Split(brokerUrl, ',')[j], useTLS).None?
    ensures r.Some? ==> (Valid(r.value) && r.value.consoleUrls == Split(consoleUrl, ',') &&
      r.value.consoleUser == consoleUser && r.value.consolePwd == consolePwd)
    ensures r.Some? ==> exists j :: (0 <= j < |Split(brokerUrl, ',')| &&
      r.value.connectedUrl == Split(brokerUrl, ',')[j] && dial(Split(brokerUrl, ',')[j], useTLS).None? &&
      forall i :: 0 <= i < j ==> dial(Split(brokerUrl, ',')[i], useTLS).Some?)
    ensures r.None? ==> err == dial(Split(brokerUrl, ',')[|Split(brokerUrl, ',')| - 1], useTLS)
  {
    var urls := Split(brokerUrl, ',');
    var attempt := DialAttempt(dial, useTLS);
    var outcome, last := TryInOrder(urls, attempt);
    var o := outcome.value;
    if o.Failure? {
      assert attempt(urls[|urls| - 1]).Failure?;
      return None, Some(o.error);
    }
    assert attempt(urls[last]) == o;
    return Some(ActiveMQAdapter(o.value, Split(consoleUrl, ','), consoleUser, consolePwd)), None;
  }

  // ---- census ----------------------------------------------------------------

  /** What one console answers to the RSS request for a queue's browse page. */
  datatype RssReply =
    | RssRequestFailed(error: string)
    | RssTransportFailed(error: string)
    | RssBadStatus(status: string)
    | RssReadFailed(error: string)
    | RssDecodeFailed(error: string)
    | RssFeed(items: nat)

  function RssUrl(queue: string, console: string): string
  {
    console + "/admin/queueBrowse/" + queue + "?view=rss&amp;feedType=atom_1.0"
  }

  /** The package-level `retrieveRssDataForQueue` for one console: the feed's item count, or an error. */
  function RssFetch(queue: string, console: string, reply: RssReply): (r: Attempt<nat>)
    ensures r.Success? <==> reply.RssFeed?
    ensures r.Success? ==> r.value == reply.items
  {
    match reply
    case RssRequestFailed(e) =>
      Failure("we were unable to get a http.NewRequest for url " + RssUrl(queue, console) + ", error is " + e)
    case RssTransportFailed(e) => Failure("error returned from this attempt was " + e)
    case RssBadStatus(status) => Failure("invalid status when trying to retrieve from queue, status " + status)
    case RssReadFailed(e) => Failure(e)
    case RssDecodeFailed(e) => Failure(e)
    case RssFeed(n) => Success(n)
  }

  function RssAttempt(queue: string, replies: string -> RssReply): string -> Attempt<nat>
  {
    u => RssFetch(queue, u, replies(u))
  }

  /**
   * The census: the item count of the first console whose feed could be
   * read, or, when none could, the error the last console gave.
   */
  function Census(a: ActiveMQAdapter, queue: string, replies: string -> RssReply): (r: Attempt<nat>)
    requires Valid(a)
    ensures r.Success? ==> exists j :: (0 <= j < |a.consoleUrls| &&
      replies(a.consoleUrls[j]) == RssFeed(r.value) &&
      forall i :: 0 <= i < j ==> !replies(a.consoleUrls[i]).RssFeed?)
    ensures r.Failure? ==> forall j :: 0 <= j < |a.consoleUrls| ==> !replies(a.consoleUrls[j]).RssFeed?
    ensures r.Failure? ==> r == RssFetch(queue, a.consoleUrls[|a.consoleUrls| - 1], replies(a.consoleUrls[|a.consoleUrls| - 1]))
  {
    var r := FirstSuccess(a.consoleUrls, RssAttempt(queue, replies));
    var attempt := RssAttempt(queue, replies);
    assert forall j :: 0 <= j < |a.consoleUrls| ==>
      (attempt(a.consoleUrls[j]).Success? <==> replies(a.consoleUrls[j]).RssFeed?);
    r.value
  }

  /** The method `retrieveRssDataForQueue`: the census by trying the console URLs in order. */
  method RetrieveRssData(a: ActiveMQAdapter, queue: string, replies: string -> RssReply) returns (census: Attempt<nat>)
    requires Valid(a)
    ensures census == Census(a, queue, replies)
  {
    var r, _ := TryInOrder(a.consoleUrls, RssAttempt(queue, replies));
    census := r.value;
  }

  // ---- queue listing ---------------------------------------------------------

  /** One `<queue>` element of the console's queue page: its name and its stats' size attribute. */
  datatype XmlQueue = XmlQueue(name: string, size: string)

  /**
   * What one console answers to the queue page request. A page that does
   * not unmarshal may still have filled part of the record: `partial`.
   */
  datatype QueuesReply =
    | QueuesRequestFailed(error: string)
    | QueuesTransportFailed(error: string)
    | QueuesBadStatus
    | QueuesReadFailed
    | QueuesDecodeFailed(partial: seq<XmlQueue>)
    | QueuesDecoded(queues: seq<XmlQueue>)

  /** The reply ends the loop over the consoles. */
  predicate Stops(reply: QueuesReply)
  {
    reply.QueuesDecoded?
  }

  /**
   * The loop over the consoles from position `i`, carrying the outer `err`
   * and the record last unmarshalled into. Only the request and transport
   * steps assign the outer `err`; the read and unmarshal steps assign an
   * `err` local to the loop body, so their failures are never reported.
   */
  function ScanConsoles(consoles: seq<string>, replies: string -> QueuesReply, i: nat, err: GoError, xml: seq<XmlQueue>)
    : (GoError, seq<XmlQueue>)
    requires i <= |consoles|
    decreases |consoles| - i
  {
    if i == |consoles| then (err, xml)
    else
      match replies(consoles[i])
      case QueuesRequestFailed(e) => ScanConsoles(consoles, replies, i + 1, Some(e), xml)
      case QueuesTransportFailed(e) => ScanConsoles(consoles, replies, i + 1, Some(e), xml)
      case QueuesBadStatus => ScanConsoles(consoles, replies, i + 1, None, xml)
      case QueuesReadFailed => ScanConsoles(consoles, replies, i + 1, None, xml)
      case QueuesDecodeFailed(partial) => ScanConsoles(consoles, replies, i + 1, None, partial)
      case QueuesDecoded(q) => (None, q)
  }

  /** The queue record: a name and exactly one "Size" entry. */
  function ToQueue(x: XmlQueue): (q: Queue)
    ensures q.name == x.name && q.info.Keys == {"Size"} && q.info["Size"] == x.size
  {
    Queue(x.name, map["Size" := x.size])
  }

  /** The result of `GetAllQueues`: a nil list and the error, or one queue per element in order. */
  function QueuesResult(a: ActiveMQAdapter, replies: string -> QueuesReply): (Slice<Queue>, GoError)
  {
    var (err, xml) := ScanConsoles(a.consoleUrls, replies, 0, None, []);
    if err.Some? then (Nil, err)
    else (Items(seq(|xml|, k requires 0 <= k < |xml| => ToQueue(xml[k]))), None)
  }

  /** `GetAllQueues` of the ActiveMQ adapter. */
  method GetAllQueues(a: ActiveMQAdapter, replies: string -> QueuesReply) returns (queues: Slice<Queue>, err: GoError)
    ensures (queues, err) == QueuesResult(a, replies)
  {
    err := None;
    var xml: seq<XmlQueue> := [];
    var i := 0;
    while i < |a.consoleUrls|
      invariant i <= |a.consoleUrls|
      invariant ScanConsoles(a.consoleUrls, replies, i, err, xml) == ScanConsoles(a.consoleUrls, replies, 0, None, [])
      decreases |a.consoleUrls| - i
    {
      var reply := replies(a.consoleUrls[i]);
      if reply.QueuesRequestFailed? || reply.QueuesTransportFailed? {
        err := Some(reply.error);
      } else {
        err := None;
        if reply.QueuesDecodeFailed? {
          xml := reply.partial;
        } else if reply.QueuesDecoded? {
          xml := reply.queues;
          break;
        }
      }
      i := i + 1;
    }
    if err.Some? {
      return Nil, err;
    }
    var result: seq<Queue> := [];
    for k := 0 to |xml|
      invariant result == seq(k, j requires 0 <= j < k => ToQueue(xml[j]))
    {
      result := result + [ToQueue(xml[k])];
    }
    queues := Items(result);
  }

  /** The scan reports an error exactly when it ran to the end and the last console failed before a response. */
  lemma {:induction false} ScanConsolesError(consoles: seq<string>, replies: string -> QueuesReply, i: nat, err: GoError, xml: seq<XmlQueue>)
    requires i <= |consoles|
    requires i == |consoles| ==> err.None?
    ensures ScanConsoles(consoles, replies, i, err, xml).0.Some? <==>
      i < |consoles| &&
      (forall j :: i <= j < |consoles| ==> !Stops(replies(consoles[j]))) &&
      (replies(consoles[|consoles| - 1]).QueuesRequestFailed? || replies(consoles[|consoles| - 1]).QueuesTransportFailed?)
    decreases |consoles| - i
  {
    if i < |consoles| {
      var reply := replies(consoles[i]);
      if !reply.QueuesDecoded? {
        var err' := if reply.QueuesRequestFailed? || reply.QueuesTransportFailed? then Some(reply.error) else None;
        var xml' := if reply.QueuesDecodeFailed? then reply.partial else xml;
        if i + 1 < |consoles| {
          ScanConsolesError(consoles, replies, i + 1, err', xml');
        }
      }
    }
  }

  /**
   * Only a failure to build the request or to reach the console is ever
   * reported, and only when it is the last console's: a bad status, a body
   * that cannot be read, or XML that does not unmarshal is never an error.
   */
  lemma QueuesErrorIff(a: ActiveMQAdapter, replies: string -> QueuesReply)
    ensures QueuesResult(a, replies).1.Some? <==>
      |a.consoleUrls| > 0 &&
      (forall j :: 0 <= j < |a.consoleUrls| ==> !Stops(replies(a.consoleUrls[j]))) &&
      (replies(a.consoleUrls[|a.consoleUrls| - 1]).QueuesRequestFailed? ||
       replies(a.consoleUrls[|a.consoleUrls| - 1]).QueuesTransportFailed?)
  {
    ScanConsolesError(a.consoleUrls, replies, 0, None, []);
  }

  /** A scan that meets no page it could unmarshal, even partly, keeps the empty record. */
  lemma {:induction false} ScanConsolesNoData(consoles: seq<string>, replies: string -> QueuesReply, i: nat, err: GoError)
    requires i <= |consoles|
    requires forall j :: i <= j < |consoles| ==> !replies(consoles[j]).QueuesDecoded? && !replies(consoles[j]).QueuesDecodeFailed?
    ensures ScanConsoles(consoles, replies, i, err, []).1 == []
    decreases |consoles| - i
  {
    if i < |consoles| {
      var reply := replies(consoles[i]);
      ScanConsolesNoData(consoles, replies, i + 1,
        if reply.QueuesRequestFailed? || reply.QueuesTransportFailed? then Some(reply.error) else None);
    }
  }

  /**
   * When every console answers with a non-200 status, the listing is an
   * empty, non-nil list and no error.
   */
  lemma AllBadStatusIsEmpty(a: ActiveMQAdapter, replies: string -> QueuesReply)
    requires Valid(a)
    requires forall j :: 0 <= j < |a.consoleUrls| ==> replies(a.consoleUrls[j]) == QueuesBadStatus
    ensures QueuesResult(a, replies) == (Items([]), None)
  {
    QueuesErrorIff(a, replies);
    ScanConsolesNoData(a.consoleUrls, replies, 0, None);
    var xml := ScanConsoles(a.consoleUrls, replies, 0, None, []).1;
    assert xml == [];
    assert seq(|xml|, k requires 0 <= k < |xml| => ToQueue(xml[k])) == [];
  }

  /** The first console whose page unmarshals decides the listing, one queue per element, in order. */
  lemma {:induction false} ScanConsolesFirstDecoded(consoles: seq<string>, replies: string -> QueuesReply, i: nat, err: GoError, xml: seq<XmlQueue>, k: nat)
    requires i <= k < |consoles|
    requires replies(consoles[k]).QueuesDecoded?
    requires forall j :: i <= j < k ==> !Stops(replies(consoles[j]))
    ensures ScanConsoles(consoles, replies, i, err, xml) == (None, replies(consoles[k]).queues)
    decreases k - i
  {
    if i < k {
      var reply := replies(consoles[i]);
      ScanConsolesFirstDecoded(consoles, replies, i + 1,
        if reply.QueuesRequestFailed? || reply.QueuesTransportFailed? then Some(reply.error) else None,
        if reply.QueuesDecodeFailed? then reply.partial else xml, k);
    }
  }

  lemma QueuesFromFirstDecoded(a: ActiveMQAdapter, replies: string -> QueuesReply, k: nat)
    requires k < |a.consoleUrls| && replies(a.consoleUrls[k]).QueuesDecoded?
    requires forall j :: 0 <= j < k ==> !Stops(replies(a.consoleUrls[j]))
    ensures var xml := replies(a.consoleUrls[k]).queues;
      var r := QueuesResult(a, replies);
      r.1.None? && r.0.Items? && |r.0.elems| == |xml| &&
      forall j :: 0 <= j < |xml| ==> r.0.elems[j] == ToQueue(xml[j])
  {
    ScanConsolesFirstDecoded(a.consoleUrls, replies, 0, None, [], k);
  }

  // ---- projection into StandardMessage -----------------------------------------

  /** The message body: the first data section, else a string value, else a placeholder. */
  function Body(m: AmqpMessage): (body: string)
    ensures |m.data| > 0 ==> body == m.data[0]
    ensures |m.data| == 0 && m.value.StringValue? ==> body == m.value.text
    ensures |m.data| == 0 && !m.value.StringValue? ==> body == "<unknown body structure>"
  {
    if |m.data| > 0 then m.data[0]
    else if m.value.StringValue? then m.value.text
    else "<unknown body structure>"
  }

  /** The thirteen header keys every projected message carries before the overlays. */
  const FixedHeaderKeys: set<string> := {
    "Correlation ID", "Durable", "Priority", "TTL", "First Acquirer", "Delivery Count",
    "User ID", "Destination", "Subject", "Reply To", "Type", "Group ID", "Group Sequence" }

  function FixedHeaders(m: AmqpMessage): map<string, string>
  {
    map[
      "Correlation ID" := m.properties.correlationId,
      "Durable" := m.header.durable,
      "Priority" := m.header.priority,
      "TTL" := m.header.ttl,
      "First Acquirer" := m.header.firstAcquirer,
      "Delivery Count" := m.header.deliveryCount,
      "User ID" := m.properties.userId,
      "Destination" := m.properties.to,
      "Subject" := m.properties.subject,
      "Reply To" := m.properties.replyTo,
      "Type" := m.properties.contentType,
      "Group ID" := m.properties.groupId,
      "Group Sequence" := m.properties.groupSequence]
  }

  /** The fixed headers carry exactly the thirteen fixed keys. */
  lemma FixedHeadersKeys(m: AmqpMessage)
    ensures FixedHeaders(m).Keys == FixedHeaderKeys
  {
  }

  /** The headers: the fixed fields, overwritten by application properties, then annotations, then delivery annotations. */
  function Headers(m: AmqpMessage): map<string, string>
  {
    FixedHeaders(m) + m.applicationProperties + m.annotations + m.deliveryAnnotations
  }

  /** Which source a header's value comes from, the latest overlay winning. */
  function HeaderSource(m: AmqpMessage, k: string): string
    requires k in FixedHeaderKeys || k in m.applicationProperties || k in m.annotations || k in m.deliveryAnnotations
  {
    if k in m.deliveryAnnotations then m.deliveryAnnotations[k]
    else if k in m.annotations then m.annotations[k]
    else if k in m.applicationProperties then m.applicationProperties[k]
    else FixedHeadersKeys(m); FixedHeaders(m)[k]
  }

  function ToStandardMessage(m: AmqpMessage): StandardMessage
  {
    StandardMessage(FormatId(m.id), Headers(m), Body(m))
  }

  /**
   * Every projected message has the thirteen fixed keys plus every key of
   * the three maps and nothing else, each with the value of the last
   * section that sets it; its id is the `%v` text of the message id.
   */
  lemma ToStandardMessageHeaders(m: AmqpMessage)
    ensures var s := ToStandardMessage(m);
      s.headers.Keys == FixedHeaderKeys + m.applicationProperties.Keys + m.annotations.Keys + m.deliveryAnnotations.Keys &&
      (forall k :: k in s.headers ==> s.headers[k] == HeaderSource(m, k)) &&
      s.messageId == FormatId(m.id) && s.body == Body(m)
  {
    var s := ToStandardMessage(m);
    FixedHeadersKeys(m);
    forall k | k in s.headers ensures s.headers[k] == HeaderSource(m, k) {
      if k !in m.deliveryAnnotations && k !in m.annotations && k !in m.applicationProperties {
        assert k in FixedHeaders(m);
      }
    }
  }

  /** The projected list: nil for no messages, otherwise one record per message in order. */
  function Projected(msgs: seq<AmqpMessage>): Slice<StandardMessage>
  {
    if |msgs| == 0 then Nil else Items(seq(|msgs|, k requires 0 <= k < |msgs| => ToStandardMessage(msgs[k])))
  }

  /**
   * `convertMessagesToStandardMessage`: one record per message, in order;
   * the list is nil when there are no messages, and the error list is always nil.
   */
  method ConvertMessages(messages: seq<AmqpMessage>) returns (std: Slice<StandardMessage>, errs: Slice<GoError>)
    ensures errs == Nil && std == Projected(messages)
    ensures std.Nil? <==> |messages| == 0
    ensures |Elems(std)| == |messages|
    ensures forall i :: 0 <= i < |messages| ==> Elems(std)[i] == ToStandardMessage(messages[i])
  {
    var out: seq<StandardMessage> := [];
    for i := 0 to |messages|
      invariant |out| == i
      invariant forall j :: 0 <= j < i ==> out[j] == ToStandardMessage(messages[j])
    {
      out := out + [ToStandardMessage(messages[i])];
    }
    if |out| == 0 {
      std := Nil;
    } else {
      std := Items(out);
      ghost var projected := seq(|messages|, k requires 0 <= k < |messages| => ToStandardMessage(messages[k]));
      assert forall j :: 0 <= j < |out| ==> out[j] == projected[j];
      assert out == projected;
    }
    errs := Nil;
  }
}
