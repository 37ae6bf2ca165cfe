/**
 * The scan-and-act operations of the ActiveMQ adapter, which decide on each
 * message as it arrives: `GetAllMessages` (browse by receiving and then
 * releasing everything), `MoveOne` and `DeleteOne` (release what does not
 * match, stop at the first match) and `Purge` (accept everything).
 */
module ActiveMQScan {
  import opened Wrappers
  import opened BrokerTypes
  import opened Amqp
  import opened Fallback
  import opened ActiveMQConsole

  // ---- GetAllMessages ----------------------------------------------------------

  /** More receive errors than this, counted over the whole loop, abort the listing. */
  const MaxReceiveErrors: nat := 10

  /** What the collecting loop received, and whether it gave up after too many receive errors. */
  datatype Collected = Collected(got: seq<nat>, aborted: bool)

  /**
   * The receive loop of `GetAllMessages` from attempt `i`, with `errors`
   * receive errors so far. It has no bound: only a timeout ends it
   * normally, and the stream times out once it is exhausted.
   */
  function CollectFrom(p: Peer, i: nat, errors: nat, got: seq<nat>): Collected
    decreases |p.receipts| - i
  {
    match ReceiptAt(p, i)
    case Timeout => Collected(got, false)
    case RecvError(_) =>
      if errors + 1 > MaxReceiveErrors then Collected(got, true) else CollectFrom(p, i + 1, errors + 1, got)
    case Got(_) => CollectFrom(p, i + 1, errors, got + [i])
  }

  /** The attempt at which the stream first times out. */
  function FirstTimeout(p: Peer, i: nat): (k: nat)
    ensures i <= k && ReceiptAt(p, k) == Timeout
    ensures forall j :: i <= j < k ==> ReceiptAt(p, j) != Timeout
    decreases |p.receipts| - i
  {
    if ReceiptAt(p, i) == Timeout then i else FirstTimeout(p, i + 1)
  }

  /** The number of receive errors among attempts `i` to `k - 1`. */
  function ErrorsBetween(p: Peer, i: nat, k: nat): nat
    requires i <= k
    decreases k - i
  {
    if i == k then 0 else (if ReceiptAt(p, i).RecvError? then 1 else 0) + ErrorsBetween(p, i + 1, k)
  }

  /** The deliveries among attempts `i` to `k - 1`, in increasing order. */
  function DeliveriesBetween(p: Peer, i: nat, k: nat): (ds: seq<nat>)
    requires i <= k
    ensures forall d :: d in ds <==> i <= d < k && Delivered(p, d)
    ensures forall a, b :: 0 <= a < b < |ds| ==> ds[a] < ds[b]
    decreases k - i
  {
    if i == k then []
    else
      var rest := DeliveriesBetween(p, i + 1, k);
      assert forall b :: 0 <= b < |rest| ==> rest[b] in rest;
      (if Delivered(p, i) then [i] else []) + rest
  }

  /**
   * The collecting loop as a reference: it gives up exactly when more than
   * ten receive errors come before the first timeout, and otherwise it has
   * received every delivery before that timeout, in order. Either way it
   * received nothing else.
   */
  ghost predicate CollectsUpToTimeout(p: Peer, i: nat, errors: nat, got: seq<nat>)
  {
    var k := FirstTimeout(p, i);
    var r := CollectFrom(p, i, errors, got);
    (r.aborted <==> errors + ErrorsBetween(p, i, k) > MaxReceiveErrors) &&
    (!r.aborted ==> r.got == got + DeliveriesBetween(p, i, k)) &&
    (forall d :: d in r.got ==> d in got || (i <= d < k && Delivered(p, d)))
  }

  lemma {:induction false} CollectFromFacts(p: Peer, i: nat, errors: nat, got: seq<nat>)
    requires errors <= MaxReceiveErrors
    ensures CollectsUpToTimeout(p, i, errors, got)
    decreases |p.receipts| - i
  {
    match ReceiptAt(p, i)
    case Timeout =>
      assert FirstTimeout(p, i) == i;
    case RecvError(_) =>
      if errors + 1 <= MaxReceiveErrors {
        CollectFromFacts(p, i + 1, errors + 1, got);
        CollectErrorStep(p, i, errors, got);
      } else {
        ErrorsBetweenAtLeast(p, i, FirstTimeout(p, i));
      }
    case Got(_) =>
      CollectFromFacts(p, i + 1, errors, got + [i]);
      CollectGotStep(p, i, errors, got);
  }

  lemma CollectErrorStep(p: Peer, i: nat, errors: nat, got: seq<nat>)
    requires ReceiptAt(p, i).RecvError? && errors + 1 <= MaxReceiveErrors
    requires CollectsUpToTimeout(p, i + 1, errors + 1, got)
    ensures CollectsUpToTimeout(p, i, errors, got)
  {
    assert FirstTimeout(p, i + 1) == FirstTimeout(p, i);
  }

  lemma CollectGotStep(p: Peer, i: nat, errors: nat, got: seq<nat>)
    requires ReceiptAt(p, i).Got?
    requires CollectsUpToTimeout(p, i + 1, errors, got + [i])
    ensures CollectsUpToTimeout(p, i, errors, got)
  {
    var k := FirstTimeout(p, i);
    assert FirstTimeout(p, i + 1) == k;
    assert CollectFrom(p, i, errors, got) == CollectFrom(p, i + 1, errors, got + [i]);
    assert ErrorsBetween(p, i, k) == ErrorsBetween(p, i + 1, k);
    var rest := DeliveriesBetween(p, i + 1, k);
    assert DeliveriesBetween(p, i, k) == [i] + rest;
    assert got + [i] + rest == got + ([i] + rest);
  }

  lemma ErrorsBetweenAtLeast(p: Peer, i: nat, k: nat)
    requires i < k && ReceiptAt(p, i).RecvError?
    ensures ErrorsBetween(p, i, k) >= 1
  {
  }

  /** What `GetAllMessages` returns, and what it did with every delivery. */
  datatype Listing = Listing(messages: Slice<StandardMessage>, err: GoError, ledger: Ledger)

  /** The deliveries received, each held. */
  function HoldAll(got: seq<nat>): Ledger
  {
    Ledger(map d | d in got :: Held, [])
  }

  /** Each delivery received is released, in order; a failed release leaves it held. */
  function ReleaseAll(p: Peer, got: seq<nat>): Ledger
  {
    Ledger(map d | d in got :: if d in p.releaseFails then Held else Released, [])
  }

  function MessagesOf(p: Peer, got: seq<nat>): seq<AmqpMessage>
    requires forall k :: 0 <= k < |got| ==> Delivered(p, got[k])
  {
    seq(|got|, k requires 0 <= k < |got| && Delivered(p, got[k]) => ReceiptAt(p, got[k]).msg)
  }

  /** `GetAllMessages` of the ActiveMQ adapter. */
  function ListingSpec(setup: Setup, p: Peer): Listing
  {
    if setup.session.Some? then Listing(Nil, Some("Get new session failed: " + SessionFailure(setup.session.value)), NoDeliveries)
    else if setup.receiver.Some? then Listing(Nil, Some("getNewReceiver failed: " + setup.receiver.value), NoDeliveries)
    else
      var c := CollectFrom(p, 0, 0, []);
      if c.aborted then Listing(Nil, Some("unable to receive messages"), HoldAll(c.got))
      else
        CollectFromFacts(p, 0, 0, []);
        assert forall k :: 0 <= k < |c.got| ==> c.got[k] in c.got;
        Listing(Projected(MessagesOf(p, c.got)), None, ReleaseAll(p, c.got))
  }

  /**
   * Browsing never accepts or sends anything, and receives nothing after
   * the first timeout. It gives up exactly when more than ten receive
   * errors come before that timeout, releasing nothing.
   */
  lemma ListingNeverSettlesWrongly(setup: Setup, p: Peer)
    requires setup.session.None? && setup.receiver.None?
    ensures var r := ListingSpec(setup, p);
      var k := FirstTimeout(p, 0);
      r.ledger.sent == [] && (forall d :: d in r.ledger.fate ==> r.ledger.fate[d] != Accepted && d < k && Delivered(p, d)) &&
      (r.err.Some? <==> ErrorsBetween(p, 0, k) > MaxReceiveErrors) &&
      (r.err.Some? ==> r.messages.Nil? && forall d :: d in r.ledger.fate ==> r.ledger.fate[d] == Held)
  {
    CollectFromFacts(p, 0, 0, []);
  }

  /**
   * Without too many errors, the listing has one record per delivery before
   * the first timeout, in order, and every one of them is released unless
   * its release fails.
   */
  lemma ListingContents(setup: Setup, p: Peer)
    requires setup.session.None? && setup.receiver.None?
    requires ErrorsBetween(p, 0, FirstTimeout(p, 0)) <= MaxReceiveErrors
    ensures var r := ListingSpec(setup, p);
      var got := DeliveriesBetween(p, 0, FirstTimeout(p, 0));
      r.err.None? &&
      |Elems(r.messages)| == |got| &&
      (forall j :: 0 <= j < |got| ==> Delivered(p, got[j]) && Elems(r.messages)[j] == ToStandardMessage(ReceiptAt(p, got[j]).msg)) &&
      (forall d :: d in r.ledger.fate <==> d in got) &&
      (forall d :: d in got ==> r.ledger.fate[d] == if d in p.releaseFails then Held else Released)
  {
    CollectFromFacts(p, 0, 0, []);
  }

  /** The receive loop of `GetAllMessages`: every delivery received is held. */
  method CollectDeliveries(p: Peer) returns (c: Collected, l: Ledger)
    ensures c == CollectFrom(p, 0, 0, []) && l == HoldAll(c.got)
  {
    var got: seq<nat> := [];
    var errors := 0;
    var i := 0;
    l := NoDeliveries;
    while true
      invariant errors <= MaxReceiveErrors
      invariant CollectFrom(p, i, errors, got) == CollectFrom(p, 0, 0, [])
      invariant l == HoldAll(got)
      decreases |p.receipts| - i
    {
      var receipt := ReceiptAt(p, i);
      if receipt.Timeout? {
        break;
      }
      if receipt.RecvError? {
        errors := errors + 1;
        if errors > MaxReceiveErrors {
          return Collected(got, true), l;
        }
        i := i + 1;
        continue;
      }
      got := got + [i];
      l := Receive(l, i);
      i := i + 1;
    }
    c := Collected(got, false);
  }

  /** The release loop of `GetAllMessages`: each delivery in turn, a failed release ignored. */
  method ReleaseEach(p: Peer, got: seq<nat>) returns (l: Ledger)
    ensures l == ReleaseAll(p, got)
  {
    l := HoldAll(got);
    for k := 0 to |got|
      invariant l.sent == [] && l.fate.Keys == (set d | d in got)
      invariant forall d :: d in l.fate ==>
        l.fate[d] == if d in got[..k] && d !in p.releaseFails then Released else Held
    {
      var (_, l1) := Release(p, l, got[k]);
      l := l1;
    }
    assert got[..|got|] == got;
  }

  /** `GetAllMessages`: the receive loop, then the release loop and the projection. */
  method GetAllMessages(setup: Setup, p: Peer) returns (messages: Slice<StandardMessage>, err: GoError, l: Ledger)
    ensures Listing(messages, err, l) == ListingSpec(setup, p)
  {
    if setup.session.Some? {
      return Nil, Some("Get new session failed: " + SessionFailure(setup.session.value)), NoDeliveries;
    }
    if setup.receiver.Some? {
      return Nil, Some("getNewReceiver failed: " + setup.receiver.value), NoDeliveries;
    }
    var c, held := CollectDeliveries(p);
    if c.aborted {
      return Nil, Some("unable to receive messages"), held;
    }
    CollectFromFacts(p, 0, 0, []);
    assert forall k :: 0 <= k < |c.got| ==> c.got[k] in c.got;
    l := ReleaseEach(p, c.got);
    var projected, _ := ConvertMessages(MessagesOf(p, c.got));
    messages := projected;
    err := None;
  }

  // ---- MoveOne and DeleteOne ------------------------------------------------------

  /** Where a scan stopped and what it did: its error, its ledger, and the attempt it stopped at. */
  datatype Scan = Scan(err: GoError, ledger: Ledger, attempts: nat)

  /** The delivery of attempt `j` carries the target id, compared in its `%v` text form. */
  predicate Matches(p: Peer, j: nat, target: string)
  {
    Delivered(p, j) && FormatId(ReceiptAt(p, j).msg.id) == target
  }

  /**
   * The scan goes past attempt `j`: a receive error, or a message that does
   * not match and, for a move, whose release did not fail.
   */
  predicate PassesOver(p: Peer, moving: bool, target: string, j: nat)
  {
    ReceiptAt(p, j).RecvError? ||
    (Delivered(p, j) && !Matches(p, j, target) && (moving ==> j !in p.releaseFails))
  }

  /** The fate `Release` gives a delivery: released, or still held when the release fails. */
  function ReleaseFate(p: Peer, d: nat): Fate
  {
    if d in p.releaseFails then Held else Released
  }

  /**
   * The part of the receive loop of `MoveOne` (`moving`) and `DeleteOne`
   * that goes past attempts, from attempt `i`: a receive error is skipped, a
   * message that does not match is released. It returns the attempt it
   * stops at and the ledger then.
   */
  function Advance(p: Peer, moving: bool, n: nat, i: nat, target: string, l: Ledger): (r: (nat, Ledger))
    requires i <= n
    ensures i <= r.0 <= n
    ensures r.0 < n ==> !PassesOver(p, moving, target, r.0)
    decreases n - i
  {
    if i == n || !PassesOver(p, moving, target, i) then (i, l)
    else if ReceiptAt(p, i).RecvError? then Advance(p, moving, n, i + 1, target, l)
    else Advance(p, moving, n, i + 1, target, Release(p, Receive(l, i), i).1)
  }

  /**
   * The attempt the scan stops at: the census bound or a timeout ends it
   * with no error; the first match is sent (when moving) and accepted, a
   * failed send releasing it and returning the send error, a failed accept
   * being returned; a move whose release of a non-matching message fails
   * ends with an error naming that message.
   */
  function StopAt(p: Peer, moving: bool, n: nat, k: nat, target: string, l: Ledger): Scan
    requires k <= n && (k < n ==> !PassesOver(p, moving, target, k))
  {
    if k == n then Scan(None, l, k)
    else
      match ReceiptAt(p, k)
      case Timeout => Scan(None, l, k)
      case Got(m) =>
        var l1 := Receive(l, k);
        if FormatId(m.id) == target then
          var (sendErr, l2) := if moving then Send(p, l1, k) else (None, l1);
          if sendErr.Some? then Scan(sendErr, Release(p, l2, k).1, k)
          else
            var (acceptErr, l3) := Accept(p, l2, k);
            Scan(acceptErr, l3, k)
        else Scan(Some("unable to release message id " + FormatId(m.id)), Release(p, l1, k).1, k)
  }

  /** The receive loop of `MoveOne` and `DeleteOne` from attempt `i`, at most `n` attempts in all. */
  function ScanFrom(p: Peer, moving: bool, n: nat, i: nat, target: string, l: Ledger): Scan
    requires i <= n
  {
    var (k, lk) := Advance(p, moving, n, i, target, l);
    StopAt(p, moving, n, k, target, lk)
  }

  /** The ledger after passing over attempts `0 .. i - 1`: each message received so far released or held. */
  ghost predicate PassedUpTo(p: Peer, moving: bool, target: string, i: nat, l: Ledger)
  {
    (forall j: nat :: j < i ==> PassesOver(p, moving, target, j)) &&
    l.sent == [] &&
    (forall d: nat :: d in l.fate <==> d < i && Delivered(p, d)) &&
    (forall d :: d in l.fate ==> l.fate[d] == ReleaseFate(p, d))
  }

  /** Releasing a message the scan passes over extends what has been passed over by one attempt. */
  lemma PassedStep(p: Peer, moving: bool, target: string, i: nat, l: Ledger)
    requires PassedUpTo(p, moving, target, i, l) && PassesOver(p, moving, target, i)
    ensures ReceiptAt(p, i).RecvError? ==> PassedUpTo(p, moving, target, i + 1, l)
    ensures Delivered(p, i) ==> PassedUpTo(p, moving, target, i + 1, Release(p, Receive(l, i), i).1)
  {
  }

  lemma {:induction false} AdvanceFacts(p: Peer, moving: bool, n: nat, i: nat, target: string, l: Ledger)
    requires i <= n && PassedUpTo(p, moving, target, i, l)
    ensures var (k, lk) := Advance(p, moving, n, i, target, l); PassedUpTo(p, moving, target, k, lk)
    decreases n - i
  {
    if i < n && PassesOver(p, moving, target, i) {
      PassedStep(p, moving, target, i, l);
      if ReceiptAt(p, i).RecvError? {
        AdvanceFacts(p, moving, n, i + 1, target, l);
      } else {
        AdvanceFacts(p, moving, n, i + 1, target, Release(p, Receive(l, i), i).1);
      }
    }
  }

  /** The fate a match ends the scan with. */
  function MatchFate(p: Peer, moving: bool, d: nat): Fate
  {
    if moving && d in p.sendFails then ReleaseFate(p, d)
    else if d in p.acceptFails then Held
    else Accepted
  }

  /** The error or settlement for the scan from the start. */
  function FindOne(moving: bool, setup: Setup, census: Attempt<nat>, p: Peer, target: string): Scan
  {
    var se := ScanSetupError(setup, moving);
    if se.Some? then Scan(se, NoDeliveries, 0)
    else if census.Failure? then Scan(Some(census.error), NoDeliveries, 0)
    else if census.value == 0 then Scan(Some(NoItems), NoDeliveries, 0)
    else ScanFrom(p, moving, census.value, 0, target, NoDeliveries)
  }

  /** The error of opening the links of `MoveOne` (sender included) or `DeleteOne`. */
  function ScanSetupError(setup: Setup, moving: bool): GoError
  {
    LinksError(setup, if moving then Some("Send errored: ") else None)
  }

  /**
   * The outcome of `MoveOne` and `DeleteOne` once the scan runs. Every
   * attempt before the one it stopped at was a receive error or a message
   * that does not match, and each such message is released unless its
   * release failed. At the stopping attempt it met the census bound or a
   * timeout (no error), the first match, whose fate is `MatchFate` and which
   * alone may be sent, or (moves only) a failed release, reported with the
   * message's id. No error means nothing matched or the match was accepted.
   */
  lemma FindOneFacts(moving: bool, setup: Setup, census: Attempt<nat>, p: Peer, target: string)
    requires ScanSetupError(setup, moving).None? && census.Success? && census.value > 0
    ensures var r := FindOne(moving, setup, census, p, target);
      var k := r.attempts;
      k <= census.value &&
      (forall j: nat :: j < k ==> PassesOver(p, moving, target, j)) &&
      (forall d: nat :: d in r.ledger.fate ==> d <= k && Delivered(p, d)) &&
      (forall d: nat :: d < k && Delivered(p, d) ==> d in r.ledger.fate && r.ledger.fate[d] == ReleaseFate(p, d)) &&
      (forall d :: d in r.ledger.sent ==> moving && d == k && Matches(p, k, target)) &&
      (k < census.value && Matches(p, k, target) ==>
        k in r.ledger.fate && r.ledger.fate[k] == MatchFate(p, moving, k) &&
        (r.err.None? <==> r.ledger.fate[k] == Accepted) &&
        (moving && k !in p.sendFails ==> r.ledger.sent == [k])) &&
      (forall d :: d in r.ledger.fate && r.ledger.fate[d] == Accepted ==> d == k && Matches(p, k, target)) &&
      (r.err.None? && !(k < census.value && Matches(p, k, target)) ==> k == census.value || ReceiptAt(p, k) == Timeout) &&
      (!moving ==> r.err.None? || (k < census.value && Matches(p, k, target) && k in p.acceptFails))
  {
    AdvanceFacts(p, moving, census.value, 0, target, NoDeliveries);
    var (k, lk) := Advance(p, moving, census.value, 0, target, NoDeliveries);
    StopAtFacts(p, moving, census.value, k, target, lk);
  }

  /**
   * What the scan's stopping attempt `k` does with its ledger: it passed
   * over every earlier attempt, releasing each earlier message; it alone
   * may be sent, and only when it matches; a match gets `MatchFate`, and no
   * error then means it was accepted; no error without a match means the
   * census bound or a timeout.
   */
  ghost predicate StopsAt(p: Peer, moving: bool, n: nat, k: nat, target: string, r: Scan)
  {
    r.attempts == k &&
    k <= n &&
    (forall j: nat :: j < k ==> PassesOver(p, moving, target, j)) &&
    (forall d: nat :: d in r.ledger.fate ==> d <= k && Delivered(p, d)) &&
    (forall d: nat :: d < k && Delivered(p, d) ==> d in r.ledger.fate && r.ledger.fate[d] == ReleaseFate(p, d)) &&
    (forall d :: d in r.ledger.sent ==> moving && d == k && Matches(p, k, target)) &&
    (k < n && Matches(p, k, target) ==>
      k in r.ledger.fate && r.ledger.fate[k] == MatchFate(p, moving, k) &&
      (r.err.None? <==> r.ledger.fate[k] == Accepted) &&
      (moving && k !in p.sendFails ==> r.ledger.sent == [k])) &&
    (forall d :: d in r.ledger.fate && r.ledger.fate[d] == Accepted ==> d == k && Matches(p, k, target)) &&
    (r.err.None? && !(k < n && Matches(p, k, target)) ==> k == n || ReceiptAt(p, k) == Timeout) &&
    (!moving ==> r.err.None? || (k < n && Matches(p, k, target) && k in p.acceptFails))
  }

  /** What the scan's stopping attempt does, given what was passed over before it. */
  lemma StopAtFacts(p: Peer, moving: bool, n: nat, k: nat, target: string, l: Ledger)
    requires k <= n && (k < n ==> !PassesOver(p, moving, target, k)) && PassedUpTo(p, moving, target, k, l)
    ensures StopsAt(p, moving, n, k, target, StopAt(p, moving, n, k, target, l))
  {
    if k < n && Matches(p, k, target) {
      StopAtMatch(p, moving, n, k, target, l);
    } else {
      StopAtNoMatch(p, moving, n, k, target, l);
    }
  }

  lemma StopAtMatch(p: Peer, moving: bool, n: nat, k: nat, target: string, l: Ledger)
    requires k < n && Matches(p, k, target) && PassedUpTo(p, moving, target, k, l)
    ensures StopsAt(p, moving, n, k, target, StopAt(p, moving, n, k, target, l))
  {
  }

  lemma StopAtNoMatch(p: Peer, moving: bool, n: nat, k: nat, target: string, l: Ledger)
    requires k <= n && (k < n ==> !PassesOver(p, moving, target, k) && !Matches(p, k, target))
    requires PassedUpTo(p, moving, target, k, l)
    ensures StopsAt(p, moving, n, k, target, StopAt(p, moving, n, k, target, l))
  {
  }

  /** The scan loop of `MoveOne` and `DeleteOne`. */
  method ScanForTarget(p: Peer, moving: bool, n: nat, target: string) returns (err: GoError, l: Ledger, attempts: nat)
    ensures Scan(err, l, attempts) == ScanFrom(p, moving, n, 0, target, NoDeliveries)
  {
    l := NoDeliveries;
    var i := 0;
    while i < n
      invariant i <= n
      invariant Advance(p, moving, n, i, target, l) == Advance(p, moving, n, 0, target, NoDeliveries)
    {
      var receipt := ReceiptAt(p, i);
      if receipt.Timeout? {
        break;
      }
      if receipt.RecvError? {
        i := i + 1;
        continue;
      }
      var m := receipt.msg;
      l := Receive(l, i);
      if FormatId(m.id) == target {
        if moving {
          var (sendErr, l2) := Send(p, l, i);
          l := l2;
          if sendErr.Some? {
            var (_, l3) := Release(p, l, i);
            return sendErr, l3, i;
          }
        }
        var (acceptErr, l3) := Accept(p, l, i);
        return acceptErr, l3, i;
      }
      var (releaseErr, l2) := Release(p, l, i);
      l := l2;
      if moving && releaseErr.Some? {
        return Some("unable to release message id " + FormatId(m.id)), l, i;
      }
      i := i + 1;
    }
    return None, l, i;
  }

  method FindOneWith(moving: bool, setup: Setup, census: Attempt<nat>, p: Peer, target: string)
    returns (err: GoError, l: Ledger, attempts: nat)
    ensures Scan(err, l, attempts) == FindOne(moving, setup, census, p, target)
  {
    var se := ScanSetupError(setup, moving);
    if se.Some? {
      return se, NoDeliveries, 0;
    }
    if census.Failure? {
      return Some(census.error), NoDeliveries, 0;
    }
    if census.value == 0 {
      return Some(NoItems), NoDeliveries, 0;
    }
    err, l, attempts := ScanForTarget(p, moving, census.value, target);
  }

  /** `MoveOne`: move the first message whose id reads `target` from the census-bounded scan. */
  method MoveOne(a: ActiveMQAdapter, setup: Setup, replies: string -> RssReply, p: Peer, fromQueue: string, target: string)
    returns (err: GoError, l: Ledger)
    requires Valid(a)
    ensures Scan(err, l, FindOne(true, setup, Census(a, fromQueue, replies), p, target).attempts) ==
      FindOne(true, setup, Census(a, fromQueue, replies), p, target)
  {
    var census: Attempt<nat> := Failure("");
    if ScanSetupError(setup, true).None? {
      census := RetrieveRssData(a, fromQueue, replies);
    }
    var e, led, _ := FindOneWith(true, setup, census, p, target);
    err, l := e, led;
  }

  /** `DeleteOne`: accept the first message whose id reads `target` from the census-bounded scan. */
  method DeleteOne(a: ActiveMQAdapter, setup: Setup, replies: string -> RssReply, p: Peer, queue: string, target: string)
    returns (err: GoError, l: Ledger)
    requires Valid(a)
    ensures Scan(err, l, FindOne(false, setup, Census(a, queue, replies), p, target).attempts) ==
      FindOne(false, setup, Census(a, queue, replies), p, target)
  {
    var census: Attempt<nat> := Failure("");
    if ScanSetupError(setup, false).None? {
      census := RetrieveRssData(a, queue, replies);
    }
    var e, led, _ := FindOneWith(false, setup, census, p, target);
    err, l := e, led;
  }

  // ---- Purge -----------------------------------------------------------------------

  /**
   * The receive loop of `Purge` from attempt `i`: at most `n` attempts; a
   * timeout stops it; a receive error is skipped; every message is accepted,
   * and the first failed accept is returned.
   */
  function PurgeFrom(p: Peer, n: nat, i: nat, l: Ledger): (r: Scan)
    requires i <= n
    ensures i <= r.attempts <= n
    decreases n - i
  {
    if i == n then Scan(None, l, i)
    else
      match ReceiptAt(p, i)
      case Timeout => Scan(None, l, i)
      case RecvError(_) => PurgeFrom(p, n, i + 1, l)
      case Got(_) =>
        var (acceptErr, l1) := Accept(p, Receive(l, i), i);
        if acceptErr.Some? then Scan(acceptErr, l1, i) else PurgeFrom(p, n, i + 1, l1)
  }

  /**
   * The purge as a reference: every delivery before the attempt it stopped
   * at is accepted; it stops at the census bound or a timeout with no error,
   * or at the first failed accept with that accept's error, leaving that
   * delivery held. Nothing is ever released or sent.
   */
  lemma {:induction false} PurgeFromFacts(p: Peer, n: nat, i: nat, l: Ledger)
    requires i <= n
    requires l.sent == [] && forall d: nat :: d in l.fate <==> d < i && Delivered(p, d)
    requires forall d :: d in l.fate ==> l.fate[d] == Accepted
    ensures var r := PurgeFrom(p, n, i, l);
      var k := r.attempts;
      r.ledger.sent == [] &&
      (forall d: nat :: d in r.ledger.fate <==> d <= k && Delivered(p, d) && (d == k ==> k < n)) &&
      (forall d :: d in r.ledger.fate && d < k ==> r.ledger.fate[d] == Accepted) &&
      (r.err.None? <==> k == n || ReceiptAt(p, k) == Timeout) &&
      (r.err.Some? ==> Delivered(p, k) && k in p.acceptFails && r.err == Some(p.acceptFails[k]) && r.ledger.fate[k] == Held)
    decreases n - i
  {
    if i < n {
      match ReceiptAt(p, i)
      case Timeout =>
      case RecvError(_) =>
        PurgeFromFacts(p, n, i + 1, l);
      case Got(_) =>
        var (acceptErr, l1) := Accept(p, Receive(l, i), i);
        if acceptErr.None? {
          PurgeFromFacts(p, n, i + 1, l1);
        }
    }
  }

  /** `Purge` for a given census; unlike the other operations an empty census is not an error. */
  function PurgeSpec(setup: Setup, census: Attempt<nat>, p: Peer): Scan
  {
    var se := LinksError(setup, None);
    if se.Some? then Scan(se, NoDeliveries, 0)
    else if census.Failure? then Scan(Some(census.error), NoDeliveries, 0)
    else PurgeFrom(p, census.value, 0, NoDeliveries)
  }

  lemma PurgeFacts(setup: Setup, census: Attempt<nat>, p: Peer)
    requires setup.session.None? && setup.receiver.None? && census.Success?
    ensures var r := PurgeSpec(setup, census, p);
      var k := r.attempts;
      r.ledger.sent == [] &&
      (forall d :: d in r.ledger.fate && d < k ==> r.ledger.fate[d] == Accepted) &&
      (forall d :: d in r.ledger.fate ==> r.ledger.fate[d] != Released) &&
      (r.err.None? <==> k == census.value || ReceiptAt(p, k) == Timeout) &&
      (census.value == 0 ==> r.err.None? && r.ledger.fate == map[])
  {
    PurgeFromFacts(p, census.value, 0, NoDeliveries);
  }

  method PurgeWith(setup: Setup, census: Attempt<nat>, p: Peer) returns (err: GoError, l: Ledger, attempts: nat)
    ensures Scan(err, l, attempts) == PurgeSpec(setup, census, p)
  {
    var se := LinksError(setup, None);
    if se.Some? {
      return se, NoDeliveries, 0;
    }
    if census.Failure? {
      return Some(census.error), NoDeliveries, 0;
    }
    var n := census.value;
    l := NoDeliveries;
    var i := 0;
    while i < n
      invariant i <= n
      invariant PurgeFrom(p, n, i, l) == PurgeFrom(p, n, 0, NoDeliveries)
    {
      var receipt := ReceiptAt(p, i);
      if receipt.Timeout? {
        break;
      }
      if receipt.RecvError? {
        i := i + 1;
        continue;
      }
      var (acceptErr, l1) := Accept(p, Receive(l, i), i);
      l := l1;
      if acceptErr.Some? {
        return acceptErr, l, i;
      }
      i := i + 1;
    }
    return None, l, i;
  }

  /** `Purge`: accept every message the census-bounded scan receives. */
  method Purge(a: ActiveMQAdapter, setup: Setup, replies: string -> RssReply, p: Peer, queue: string)
    returns (err: GoError, l: Ledger)
    requires Valid(a)
    ensures Scan(err, l, PurgeSpec(setup, Census(a, queue, replies), p).attempts) == PurgeSpec(setup, Census(a, queue, replies), p)
  {
    var census: Attempt<nat> := Failure("");
    if setup.session.None? && setup.receiver.None? {
      census := RetrieveRssData(a, queue, replies);
    }
    var e, led, _ := PurgeWith(setup, census, p);
    err, l := e, led;
  }
}
