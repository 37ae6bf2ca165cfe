/**
 * The HTTP front of the service: one handler per REST endpoint. Each
 * handler checks its path parameters in a fixed order, looks the broker up
 * in the registry, and only then calls the broker's adapter; the adapter's
 * error decides between 500 and 200.
 *
 * An adapter is modelled by what it answers to each of its seven
 * operations, so a handler is a pure function of the registry, the request
 * and those answers.
 */
module AdapterManager {
  import opened Wrappers
  import opened BrokerTypes

  const StatusOK := 200
  const StatusBadRequest := 400
  const StatusInternalServerError := 500

  /** The adapter interface: what each operation returns for its arguments. */
  datatype Adapter = Adapter(
    getAllMessages: string -> (Slice<StandardMessage>, GoError),
    getAllQueues: (Slice<Queue>, GoError),
    move: (string, string, seq<string>) -> Slice<GoError>,
    moveOne: (string, string, string) -> GoError,
    purge: string -> GoError,
    deleteOne: (string, string) -> GoError,
    deleteMany: (string, seq<string>) -> Slice<GoError>)

  /** What a handler writes as JSON. */
  datatype Payload =
    | Null
    | Text(text: string)
    | Texts(texts: Slice<string>)
    | Messages(messages: Slice<StandardMessage>)
    | Queues(queues: Slice<Queue>)
    | Brokers(brokers: seq<Broker>)

  /** A handler's outcome: a status and a payload, or a nil dereference. */
  datatype Reply = Answer(status: int, payload: Payload) | Panic

  /** The request body of the multi-message endpoints, as reading and decoding it turn out. */
  datatype Body = BodyReadFailed(error: string) | BodyDecodeFailed(error: string) | Decoded(messageIds: seq<string>)

  function NoConnection(brokerId: string): string
  {
    "No connection found for " + brokerId
  }

  /** The answer for an operation that reports a single error. */
  function ErrorReply(err: GoError): (r: Reply)
    ensures r.Answer? && (r.status == StatusOK <==> err.None?)
    ensures err.Some? ==> r == Answer(StatusInternalServerError, Text(err.value))
    ensures err.None? ==> r.payload == Null
  {
    if err.Some? then Answer(StatusInternalServerError, Text(err.value)) else Answer(StatusOK, Null)
  }

  // ---- createErrorStrings -------------------------------------------------------------

  /** The error texts of a list of errors, none of them nil; an empty list gives a nil slice. */
  function ErrorStrings(errs: seq<GoError>): (r: Slice<string>)
    requires forall i :: 0 <= i < |errs| ==> errs[i].Some?
    ensures r.Nil? <==> |errs| == 0
    ensures |Elems(r)| == |errs| && forall i :: 0 <= i < |errs| ==> Elems(r)[i] == errs[i].value
  {
    if |errs| == 0 then Nil else Items(seq(|errs|, i requires 0 <= i < |errs| => errs[i].value))
  }

  /** `createErrorStrings`: each error's text, in order, appended to an initially nil slice. */
  method CreateErrorStrings(errs: seq<GoError>) returns (r: Slice<string>)
    requires forall i :: 0 <= i < |errs| ==> errs[i].Some?
    ensures r == ErrorStrings(errs)
  {
    r := Nil;
    for j := 0 to |errs|
      invariant (r.Nil? <==> j == 0) && |Elems(r)| == j
      invariant forall i :: 0 <= i < j ==> Elems(r)[i] == errs[i].value
    {
      r := Append(r, errs[j].value);
    }
    if r.Items? {
      assert r.elems == ErrorStrings(errs).elems;
    }
  }

  /**
   * The answer for an operation that reports a list of errors: a nil list
   * is 200, any other list is 500 with the errors' texts, and a nil entry
   * in it is dereferenced.
   */
  function ErrorsReply(errs: Slice<GoError>): (r: Reply)
    ensures errs.Nil? <==> r == Answer(StatusOK, Null)
    ensures errs.Items? && (forall i :: 0 <= i < |errs.elems| ==> errs.elems[i].Some?) ==>
      r == Answer(StatusInternalServerError, Texts(ErrorStrings(errs.elems)))
    ensures errs.Items? && (exists i :: 0 <= i < |errs.elems| && errs.elems[i].None?) ==> r.Panic?
  {
    if errs.Nil? then Answer(StatusOK, Null)
    else if forall i :: 0 <= i < |errs.elems| ==> errs.elems[i].Some? then
      Answer(StatusInternalServerError, Texts(ErrorStrings(errs.elems)))
    else Panic
  }

  /** A non-nil but empty error list is answered 500 with a null list of texts. */
  lemma EmptyErrorListIs500()
    ensures ErrorsReply(Items([])) == Answer(StatusInternalServerError, Texts(Nil))
  {
  }

  // ---- the handlers ----------------------------------------------------------------------

  /** `GetAllMessages`: queue name, then broker id, then registration, then the adapter. */
  function GetAllMessages(adapters: map<string, Adapter>, queueName: string, brokerId: string): (r: Reply)
    ensures r.Answer?
    ensures queueName == "" ==> r == Answer(StatusBadRequest, Text("no queue name given"))
    ensures queueName != "" && brokerId == "" ==> r == Answer(StatusBadRequest, Text("no broker name given"))
    ensures r.status == StatusBadRequest <==> queueName == "" || brokerId == "" || brokerId !in adapters
    ensures r.status == StatusOK <==> (queueName != "" && brokerId != "" && brokerId in adapters &&
      adapters[brokerId].getAllMessages(queueName).1.None?)
    ensures r.status == StatusOK ==> r.payload == Messages(adapters[brokerId].getAllMessages(queueName).0)
  {
    if queueName == "" then Answer(StatusBadRequest, Text("no queue name given"))
    else if brokerId == "" then Answer(StatusBadRequest, Text("no broker name given"))
    else if brokerId !in adapters then Answer(StatusBadRequest, Text(NoConnection(brokerId)))
    else
      var (messages, err) := adapters[brokerId].getAllMessages(queueName);
      if err.Some? then Answer(StatusInternalServerError, Text(err.value)) else Answer(StatusOK, Messages(messages))
  }

  /** `GetAllQueues`: broker id, then registration, both refused with a null payload. */
  function GetAllQueues(adapters: map<string, Adapter>, brokerId: string): (r: Reply)
    ensures r.Answer?
    ensures r.status == StatusBadRequest <==> brokerId == "" || brokerId !in adapters
    ensures r.status == StatusBadRequest ==> r.payload == Null
    ensures r.status == StatusOK <==> brokerId != "" && brokerId in adapters && adapters[brokerId].getAllQueues.1.None?
    ensures r.status == StatusOK ==> r.payload == Queues(adapters[brokerId].getAllQueues.0)
  {
    if brokerId == "" || brokerId !in adapters then Answer(StatusBadRequest, Null)
    else
      var (queues, err) := adapters[brokerId].getAllQueues;
      if err.Some? then Answer(StatusInternalServerError, Text(err.value)) else Answer(StatusOK, Queues(queues))
  }

  /** `PurgeFromQueue`. */
  function PurgeFromQueue(adapters: map<string, Adapter>, queueName: string, brokerId: string): (r: Reply)
    ensures r.Answer?
    ensures r.status == StatusBadRequest <==> queueName == "" || brokerId == "" || brokerId !in adapters
    ensures (queueName == "" || brokerId == "") ==> r == Answer(StatusBadRequest, Null)
    ensures r.status == StatusOK <==> (queueName != "" && brokerId != "" && brokerId in adapters &&
      adapters[brokerId].purge(queueName).None?)
  {
    if queueName == "" || brokerId == "" then Answer(StatusBadRequest, Null)
    else if brokerId !in adapters then Answer(StatusBadRequest, Text(NoConnection(brokerId)))
    else ErrorReply(adapters[brokerId].purge(queueName))
  }

  /** `DeleteMessageFromQueue`: queue name, broker id and message id must all be given. */
  function DeleteMessageFromQueue(adapters: map<string, Adapter>, queueName: string, brokerId: string, messageId: string): (r: Reply)
    ensures r.Answer?
    ensures r.status == StatusBadRequest <==> queueName == "" || brokerId == "" || messageId == "" || brokerId !in adapters
    ensures (queueName == "" || brokerId == "" || messageId == "") ==> r == Answer(StatusBadRequest, Null)
    ensures r.status == StatusOK <==> (queueName != "" && brokerId != "" && messageId != "" && brokerId in adapters &&
      adapters[brokerId].deleteOne(queueName, messageId).None?)
  {
    if queueName == "" || brokerId == "" || messageId == "" then Answer(StatusBadRequest, Null)
    else if brokerId !in adapters then Answer(StatusBadRequest, Text(NoConnection(brokerId)))
    else ErrorReply(adapters[brokerId].deleteOne(queueName, messageId))
  }

  /**
   * `MoveMessage`: queue name, destination, broker id and message id must
   * all be given; nothing requires the two queues to differ.
   */
  function MoveMessage(adapters: map<string, Adapter>, queueName: string, toQueueName: string, brokerId: string,
                       messageId: string): (r: Reply)
    ensures r.Answer?
    ensures r.status == StatusBadRequest <==>
      queueName == "" || toQueueName == "" || brokerId == "" || messageId == "" || brokerId !in adapters
    ensures (queueName == "" || toQueueName == "" || brokerId == "" || messageId == "") ==> r == Answer(StatusBadRequest, Null)
    ensures r.status == StatusOK <==> (queueName != "" && toQueueName != "" && brokerId != "" && messageId != "" &&
      brokerId in adapters && adapters[brokerId].moveOne(queueName, toQueueName, messageId).None?)
  {
    if queueName == "" || toQueueName == "" || brokerId == "" || messageId == "" then Answer(StatusBadRequest, Null)
    else if brokerId !in adapters then Answer(StatusBadRequest, Text(NoConnection(brokerId)))
    else ErrorReply(adapters[brokerId].moveOne(queueName, toQueueName, messageId))
  }

  /** `DeleteMessagesFromQueue`: the body is read and decoded before any parameter is looked at. */
  function DeleteMessagesFromQueue(adapters: map<string, Adapter>, body: Body, queueName: string, brokerId: string): (r: Reply)
    ensures !body.Decoded? ==> r == Answer(StatusInternalServerError, Text(body.error))
    ensures body.Decoded? ==> (r.Answer? && r.status == StatusBadRequest <==>
      queueName == "" || brokerId == "" || brokerId !in adapters)
    ensures body.Decoded? && queueName != "" && brokerId != "" && brokerId in adapters ==>
      r == ErrorsReply(adapters[brokerId].deleteMany(queueName, body.messageIds))
  {
    if !body.Decoded? then Answer(StatusInternalServerError, Text(body.error))
    else if queueName == "" || brokerId == "" then Answer(StatusBadRequest, Null)
    else if brokerId !in adapters then Answer(StatusBadRequest, Text(NoConnection(brokerId)))
    else ErrorsReply(adapters[brokerId].deleteMany(queueName, body.messageIds))
  }

  /** `MoveMessages`: the body first, then queue name, destination and broker id. */
  function MoveMessages(adapters: map<string, Adapter>, body: Body, queueName: string, toQueueName: string,
                        brokerId: string): (r: Reply)
    ensures !body.Decoded? ==> r == Answer(StatusInternalServerError, Text(body.error))
    ensures body.Decoded? ==> (r.Answer? && r.status == StatusBadRequest <==>
      queueName == "" || toQueueName == "" || brokerId == "" || brokerId !in adapters)
    ensures body.Decoded? && queueName != "" && toQueueName != "" && brokerId != "" && brokerId in adapters ==>
      r == ErrorsReply(adapters[brokerId].move(queueName, toQueueName, body.messageIds))
  {
    if !body.Decoded? then Answer(StatusInternalServerError, Text(body.error))
    else if queueName == "" || toQueueName == "" || brokerId == "" then Answer(StatusBadRequest, Null)
    else if brokerId !in adapters then Answer(StatusBadRequest, Text(NoConnection(brokerId)))
    else ErrorsReply(adapters[brokerId].move(queueName, toQueueName, body.messageIds))
  }

  /**
   * An adapter that reports success with an empty, non-nil error list (as
   * the RabbitMQ adapter's `Move` always does) still has its request
   * answered 500.
   */
  lemma MoveWithEmptyErrorsIs500(adapters: map<string, Adapter>, ids: seq<string>, queueName: string, toQueueName: string,
                                 brokerId: string)
    requires queueName != "" && toQueueName != "" && brokerId != "" && brokerId in adapters
    requires adapters[brokerId].move(queueName, toQueueName, ids) == Items([])
    ensures MoveMessages(adapters, Decoded(ids), queueName, toQueueName, brokerId) == Answer(StatusInternalServerError, Texts(Nil))
  {
    EmptyErrorListIs500();
  }

  /**
   * The handlers consult the adapter only once every check has passed: two
   * registries with the same names give the same refusal.
   */
  lemma ChecksPrecedeTheAdapter(adapters: map<string, Adapter>, others: map<string, Adapter>, queueName: string,
                                toQueueName: string, brokerId: string, messageId: string)
    requires adapters.Keys == others.Keys
    requires queueName == "" || brokerId == "" || brokerId !in adapters
    ensures GetAllMessages(adapters, queueName, brokerId) == GetAllMessages(others, queueName, brokerId)
    ensures PurgeFromQueue(adapters, queueName, brokerId) == PurgeFromQueue(others, queueName, brokerId)
    ensures DeleteMessageFromQueue(adapters, queueName, brokerId, messageId) ==
      DeleteMessageFromQueue(others, queueName, brokerId, messageId)
    ensures MoveMessage(adapters, queueName, toQueueName, brokerId, messageId) ==
      MoveMessage(others, queueName, toQueueName, brokerId, messageId)
  {
  }

  // ---- GetAllBrokers -------------------------------------------------------------------------

  /**
   * `GetAllBrokers`: one broker per registered name, in the map's
   * (arbitrary) iteration order, each with only its name; no registered
   * broker is answered 500.
   */
  method GetAllBrokers(adapters: map<string, Adapter>) returns (r: Reply)
    ensures |adapters| == 0 ==> r == Answer(StatusInternalServerError, Null)
    ensures |adapters| > 0 ==> (r.Answer? && r.status == StatusOK && r.payload.Brokers? &&
      |r.payload.brokers| == |adapters| &&
      (forall name :: name in adapters <==> Broker(name, map[]) in r.payload.brokers) &&
      forall i :: 0 <= i < |r.payload.brokers| ==> r.payload.brokers[i].info == map[])
  {
    var brokers: seq<Broker> := [];
    var left := adapters.Keys;
    while left != {}
      invariant left <= adapters.Keys
      invariant |brokers| + |left| == |adapters.Keys|
      invariant forall name :: name in adapters.Keys - left <==> Broker(name, map[]) in brokers
      invariant forall i :: 0 <= i < |brokers| ==> brokers[i].info == map[]
      decreases |left|
    {
      var name :| name in left;
      brokers := brokers + [Broker(name, map[])];
      left := left - {name};
    }
    if |brokers| == 0 {
      assert adapters.Keys == {};
      return Answer(StatusInternalServerError, Null);
    }
    r := Answer(StatusOK, Brokers(brokers));
  }
}
