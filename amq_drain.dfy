/**
 * The map-then-act strategy of the ActiveMQ adapter (`Move` and `DeleteMany`):
 * drain at most census-many messages into a map keyed by string message id,
 * then handle the caller's ids one by one against that map, then release
 * every entry still in the map.
 */
module ActiveMQMapDrain {
  import opened Wrappers
  import opened Amqp
  import opened Fallback
  import opened ActiveMQConsole

  /** How the drain loop ended. */
  datatype DrainEnd = Drained | TimedOut | ReceiveFailed

  /** The state the drain loop leaves: the id-keyed map of held deliveries, the ledger, how it ended. */
  datatype Drain = Drain(held: map<string, nat>, ledger: Ledger, end: DrainEnd, attempts: nat)

  // ---- phase 1: drain ---------------------------------------------------

  /** The drain loop from attempt `i` on, with `held` and `l` as built so far. */
  function DrainFrom(p: Peer, n: nat, i: nat, held: map<string, nat>, l: Ledger): (r: Drain)
    requires i <= n
    ensures i <= r.attempts <= n
    ensures r.end == Drained ==> r.attempts == n
    ensures r.end != Drained ==> r.attempts < n
    decreases n - i
  {
    if i == n then Drain(held, l, Drained, i)
    else
      match ReceiptAt(p, i)
      case Timeout => Drain(held, l, TimedOut, i)
      case RecvError(_) => Drain(held, l, ReceiveFailed, i)
      case Got(m) =>
        var held' := if m.id.StringId? then held[m.id.s := i] else held;
        DrainFrom(p, n, i + 1, held', Receive(l, i))
  }

  function DrainSpec(p: Peer, n: nat): Drain
  {
    DrainFrom(p, n, 0, map[], NoDeliveries)
  }

  /** Deliveries `< k` that carry string id `s` and are not followed by a later one below `k`. */
  predicate LastWithId(p: Peer, k: nat, s: string, d: nat)
  {
    d < k && HasStringId(p, d, s) && forall e :: d < e < k ==> !HasStringId(p, e, s)
  }

  /** The drained map as a table: every key is the id of the last delivery seen with it. */
  ghost predicate MapIsLastWins(p: Peer, k: nat, held: map<string, nat>)
  {
    (forall s :: s in held ==> LastWithId(p, k, s, held[s])) &&
    (forall s: string, d: nat :: d < k && HasStringId(p, d, s) ==> s in held)
  }

  /** The ledger after draining `k` attempts: exactly the deliveries received, all held. */
  ghost predicate AllHeld(p: Peer, k: nat, l: Ledger)
  {
    (forall d: nat :: d in l.fate <==> d < k && Delivered(p, d)) &&
    (forall d :: d in l.fate ==> l.fate[d] == Held) &&
    l.sent == []
  }

  /** One received message keeps the drain's table and ledger facts. */
  lemma DrainGotStep(p: Peer, i: nat, held: map<string, nat>)
    requires Delivered(p, i)
    requires MapIsLastWins(p, i, held)
    ensures var m := ReceiptAt(p, i).msg;
      MapIsLastWins(p, i + 1, if m.id.StringId? then held[m.id.s := i] else held)
  {
    var m := ReceiptAt(p, i).msg;
    var held' := if m.id.StringId? then held[m.id.s := i] else held;
    forall s | s in held' ensures LastWithId(p, i + 1, s, held'[s]) {
      if m.id.StringId? && s == m.id.s {
        assert held'[s] == i;
      } else {
        assert held'[s] == held[s];
        assert !HasStringId(p, i, s);
      }
    }
    forall s: string, d: nat | d < i + 1 && HasStringId(p, d, s) ensures s in held' {
      if d < i {
        assert s in held;
      }
    }
  }

  lemma DrainReceiveStep(p: Peer, i: nat, l: Ledger)
    requires Delivered(p, i)
    requires AllHeld(p, i, l)
    ensures AllHeld(p, i + 1, Receive(l, i))
  {
  }

  lemma {:induction false} DrainFromFacts(p: Peer, n: nat, i: nat, held: map<string, nat>, l: Ledger)
    requires i <= n
    requires MapIsLastWins(p, i, held) && AllHeld(p, i, l)
    ensures var r := DrainFrom(p, n, i, held, l);
      MapIsLastWins(p, r.attempts, r.held) && AllHeld(p, r.attempts, r.ledger) &&
      (forall j :: i <= j < r.attempts ==> Delivered(p, j)) &&
      (r.end == TimedOut ==> ReceiptAt(p, r.attempts) == Timeout) &&
      (r.end == ReceiveFailed ==> ReceiptAt(p, r.attempts).RecvError?)
    decreases n - i
  {
    if i < n && ReceiptAt(p, i).Got? {
      var m := ReceiptAt(p, i).msg;
      DrainGotStep(p, i, held);
      DrainReceiveStep(p, i, l);
      DrainFromFacts(p, n, i + 1, if m.id.StringId? then held[m.id.s := i] else held, Receive(l, i));
    }
  }

  /**
   * What the drain keeps: within the attempts made, a string id is a key
   * exactly when some delivery carried it, and it maps to the last such
   * delivery; every delivery received is in the ledger, and all are held.
   */
  lemma DrainSpecFacts(p: Peer, n: nat)
    ensures var r := DrainSpec(p, n);
      MapIsLastWins(p, r.attempts, r.held) && AllHeld(p, r.attempts, r.ledger) &&
      (forall j :: 0 <= j < r.attempts ==> Delivered(p, j))
  {
    DrainFromFacts(p, n, 0, map[], NoDeliveries);
  }

  /**
   * The drain loop of `Move` and `DeleteMany`: at most `n` receives; a
   * timeout or a receive error ends it; a message whose id is not a string
   * is skipped; a later message with the same id replaces the earlier entry.
   */
  method DrainIntoMap(p: Peer, n: nat) returns (held: map<string, nat>, l: Ledger, end: DrainEnd, attempts: nat)
    ensures Drain(held, l, end, attempts) == DrainSpec(p, n)
  {
    held, l := map[], NoDeliveries;
    var i := 0;
    end := Drained;
    while i < n
      invariant i <= n
      invariant DrainFrom(p, n, i, held, l) == DrainSpec(p, n)
    {
      var receipt := ReceiptAt(p, i);
      if receipt.Timeout? {
        end := TimedOut;
        break;
      }
      if receipt.RecvError? {
        end := ReceiveFailed;
        break;
      }
      var m := receipt.msg;
      l := Receive(l, i);
      if m.id.StringId? {
        held := held[m.id.s := i];
      }
      i := i + 1;
    }
    attempts := i;
  }

  // ---- phase 2: handle the caller's ids ----------------------------------

  /** The error for an id that is not (or no longer) in the map. */
  function NotFound(id: string): GoError
  {
    Some("Did not find message " + id)
  }

  /** State of the loop over the caller's ids. */
  datatype Settle = Settle(held: map<string, nat>, ledger: Ledger, errs: seq<GoError>)

  /**
   * One id. A missing id adds a "Did not find" error. When `moving`, the
   * message is sent first and a failed send adds its error; then it is
   * accepted, a failed accept being only logged, and on success it leaves the map.
   */
  function SettleOne(p: Peer, moving: bool, s: Settle, id: string): Settle
  {
    if id !in s.held then s.(errs := s.errs + [NotFound(id)])
    else
      var d := s.held[id];
      var (sendErr, l1) := if moving then Send(p, s.ledger, d) else (None, s.ledger);
      if sendErr.Some? then Settle(s.held, l1, s.errs + [sendErr])
      else
        var (acceptErr, l2) := Accept(p, l1, d);
        if acceptErr.Some? then Settle(s.held, l2, s.errs)
        else Settle(s.held - {id}, l2, s.errs)
  }

  function SettleAll(p: Peer, moving: bool, s: Settle, ids: seq<string>): Settle
    decreases |ids|
  {
    if |ids| == 0 then s else SettleAll(p, moving, SettleOne(p, moving, s, ids[0]), ids[1..])
  }

  /** Delivery `d` goes through: its send (when moving) and its accept both succeed. */
  predicate GoesThrough(p: Peer, moving: bool, d: nat)
  {
    (!moving || d !in p.sendFails) && d !in p.acceptFails
  }

  /**
   * The error one id adds, given the map the drain left: an id missing from
   * that map, or already settled at an earlier position, is "not found"; an
   * id whose send fails repeats that send error each time it is asked for.
   */
  function ErrorFor(p: Peer, moving: bool, held0: map<string, nat>, earlier: seq<string>, id: string): seq<GoError>
  {
    if id !in held0 then [NotFound(id)]
    else
      var d := held0[id];
      if moving && d in p.sendFails then [Some(p.sendFails[d])]
      else if d !in p.acceptFails && id in earlier then [NotFound(id)]
      else []
  }

  /** The errors of the whole id loop, position by position. */
  function ErrorsFor(p: Peer, moving: bool, held0: map<string, nat>, ids: seq<string>): seq<GoError>
    decreases |ids|
  {
    if |ids| == 0 then []
    else ErrorsFor(p, moving, held0, ids[..|ids| - 1]) + ErrorFor(p, moving, held0, ids[..|ids| - 1], ids[|ids| - 1])
  }

  /** The ids whose entry is settled (and leaves the map) during the id loop. */
  function SettledKeys(p: Peer, moving: bool, held0: map<string, nat>, ids: seq<string>): set<string>
  {
    set id | id in ids && id in held0 && GoesThrough(p, moving, held0[id])
  }

  /** Distinct keys name distinct deliveries, all of them received. */
  ghost predicate WellFormedMap(held: map<string, nat>, l: Ledger)
  {
    (forall id :: id in held ==> held[id] in l.fate) &&
    (forall a, b :: a in held && b in held && a != b ==> held[a] != held[b])
  }

  /** Fates after the id loop: map entries settled are accepted, everything else is as the drain left it. */
  ghost predicate FatesAfter(held0: map<string, nat>, l0: Ledger, settled: set<string>, l: Ledger)
  {
    l.fate.Keys == l0.fate.Keys &&
    (forall d :: d in l.fate && d !in held0.Values ==> l.fate[d] == l0.fate[d]) &&
    (forall id :: id in held0 ==>
       (held0[id] in l.fate && l.fate[held0[id]] == (if id in settled then Accepted else l0.fate[held0[id]])))
  }

  /** The id loop's invariant relating the state after `ids` to the map the drain left. */
  ghost predicate SettleState(p: Peer, moving: bool, held0: map<string, nat>, l0: Ledger, ids: seq<string>, s: Settle)
  {
    s.held == held0 - SettledKeys(p, moving, held0, ids) &&
    s.errs == ErrorsFor(p, moving, held0, ids) &&
    FatesAfter(held0, l0, SettledKeys(p, moving, held0, ids), s.ledger) &&
    (forall d :: d in s.ledger.sent ==> d in held0.Values) &&
    (!moving ==> s.ledger.sent == l0.sent) &&
    (moving ==> forall id :: id in SettledKeys(p, moving, held0, ids) ==> held0[id] in s.ledger.sent)
  }

  lemma SettledKeysStep(p: Peer, moving: bool, held0: map<string, nat>, ids: seq<string>, id: string)
    ensures SettledKeys(p, moving, held0, ids + [id]) ==
      if id in held0 && GoesThrough(p, moving, held0[id]) then SettledKeys(p, moving, held0, ids) + {id}
      else SettledKeys(p, moving, held0, ids)
  {
  }

  lemma ErrorsStep(p: Peer, moving: bool, held0: map<string, nat>, ids: seq<string>, s: Settle, id: string)
    requires s.held == held0 - SettledKeys(p, moving, held0, ids)
    requires s.errs == ErrorsFor(p, moving, held0, ids)
    ensures SettleOne(p, moving, s, id).errs == ErrorsFor(p, moving, held0, ids + [id])
  {
    var ids' := ids + [id];
    assert ids'[..|ids'| - 1] == ids;
    if id !in s.held && id in held0 {
      assert id in SettledKeys(p, moving, held0, ids);
    }
  }

  lemma FatesStep(p: Peer, moving: bool, held0: map<string, nat>, l0: Ledger, ids: seq<string>, s: Settle, id: string)
    requires WellFormedMap(held0, l0)
    requires s.held == held0 - SettledKeys(p, moving, held0, ids)
    requires FatesAfter(held0, l0, SettledKeys(p, moving, held0, ids), s.ledger)
    ensures FatesAfter(held0, l0, SettledKeys(p, moving, held0, ids + [id]), SettleOne(p, moving, s, id).ledger)
  {
    SettledKeysStep(p, moving, held0, ids, id);
    if id in s.held {
      var d := held0[id];
      assert s.held[id] == d;
      forall id2 | id2 in held0 && id2 != id ensures held0[id2] != d { }
    }
  }

  lemma HeldStep(p: Peer, moving: bool, held0: map<string, nat>, ids: seq<string>, s: Settle, id: string)
    requires s.held == held0 - SettledKeys(p, moving, held0, ids)
    ensures SettleOne(p, moving, s, id).held == held0 - SettledKeys(p, moving, held0, ids + [id])
  {
    SettledKeysStep(p, moving, held0, ids, id);
    if id in s.held {
      assert s.held[id] == held0[id];
    }
  }

  lemma SentStep(p: Peer, moving: bool, held0: map<string, nat>, l0: Ledger, ids: seq<string>, s: Settle, id: string)
    requires s.held == held0 - SettledKeys(p, moving, held0, ids)
    requires forall d :: d in s.ledger.sent ==> d in held0.Values
    requires !moving ==> s.ledger.sent == l0.sent
    requires moving ==> forall id :: id in SettledKeys(p, moving, held0, ids) ==> held0[id] in s.ledger.sent
    ensures var l := SettleOne(p, moving, s, id).ledger;
      (forall d :: d in l.sent ==> d in held0.Values) &&
      (!moving ==> l.sent == l0.sent) &&
      (moving ==> forall k :: k in SettledKeys(p, moving, held0, ids + [id]) ==> held0[k] in l.sent)
  {
    SettledKeysStep(p, moving, held0, ids, id);
    if id in s.held {
      assert s.held[id] == held0[id];
    }
  }

  lemma SettleOneStep(p: Peer, moving: bool, held0: map<string, nat>, l0: Ledger, ids: seq<string>, s: Settle, id: string)
    requires WellFormedMap(held0, l0) && l0.sent == []
    requires SettleState(p, moving, held0, l0, ids, s)
    ensures SettleState(p, moving, held0, l0, ids + [id], SettleOne(p, moving, s, id))
  {
    HeldStep(p, moving, held0, ids, s, id);
    ErrorsStep(p, moving, held0, ids, s, id);
    FatesStep(p, moving, held0, l0, ids, s, id);
    SentStep(p, moving, held0, l0, ids, s, id);
  }

  lemma {:induction false} SettleAllState(p: Peer, moving: bool, held0: map<string, nat>, l0: Ledger, done: seq<string>, s: Settle, todo: seq<string>)
    requires WellFormedMap(held0, l0) && l0.sent == []
    requires SettleState(p, moving, held0, l0, done, s)
    ensures SettleState(p, moving, held0, l0, done + todo, SettleAll(p, moving, s, todo))
    decreases |todo|
  {
    if |todo| == 0 {
      assert done + todo == done;
    } else {
      SettleOneStep(p, moving, held0, l0, done, s, todo[0]);
      assert done + [todo[0]] + todo[1..] == done + todo;
      SettleAllState(p, moving, held0, l0, done + [todo[0]], SettleOne(p, moving, s, todo[0]), todo[1..]);
    }
  }

  /**
   * The id loop as a reference table: the map loses exactly the settled
   * ids, each settled entry is accepted and every other delivery keeps its
   * fate, the errors are `ErrorsFor`, and only deliveries from the map are sent.
   */
  lemma SettleAllFacts(p: Peer, moving: bool, held0: map<string, nat>, l0: Ledger, ids: seq<string>)
    requires WellFormedMap(held0, l0) && l0.sent == []
    ensures SettleState(p, moving, held0, l0, ids, SettleAll(p, moving, Settle(held0, l0, []), ids))
  {
    assert SettledKeys(p, moving, held0, []) == {};
    assert held0 - {} == held0;
    SettleAllState(p, moving, held0, l0, [], Settle(held0, l0, []), ids);
    assert [] + ids == ids;
  }

  /** The id loop of `Move` (`moving`) and `DeleteMany`; every id is handled, whatever failed before. */
  method SettleTargets(p: Peer, moving: bool, held0: map<string, nat>, l0: Ledger, ids: seq<string>)
    returns (held: map<string, nat>, l: Ledger, errs: seq<GoError>)
    ensures Settle(held, l, errs) == SettleAll(p, moving, Settle(held0, l0, []), ids)
  {
    held, l, errs := held0, l0, [];
    for j := 0 to |ids|
      invariant SettleAll(p, moving, Settle(held, l, errs), ids[j..]) == SettleAll(p, moving, Settle(held0, l0, []), ids)
    {
      assert ids[j..][0] == ids[j] && ids[j..][1..] == ids[j + 1..];
      var id := ids[j];
      if id !in held {
        errs := errs + [NotFound(id)];
        continue;
      }
      var d := held[id];
      if moving {
        var (sendErr, l1) := Send(p, l, d);
        l := l1;
        if sendErr.Some? {
          errs := errs + [sendErr];
          continue;
        }
      }
      var (acceptErr, l2) := Accept(p, l, d);
      l := l2;
      if acceptErr.Some? {
        continue;
      }
      held := held - {id};
    }
  }

  // ---- phase 3: release what is left --------------------------------------

  /** Every delivery still in the map is released once; a failed release leaves it held. */
  function ReleasedLedger(p: Peer, held: map<string, nat>, l: Ledger): Ledger
  {
    l.(fate := map d | d in l.fate :: if d in held.Values && d !in p.releaseFails then Released else l.fate[d])
  }

  /** The release loop, in whatever order the map is iterated; each release failure is only logged. */
  method ReleaseRemaining(p: Peer, held: map<string, nat>, l0: Ledger) returns (l: Ledger)
    requires forall id :: id in held ==> held[id] in l0.fate
    ensures l == ReleasedLedger(p, held, l0)
  {
    l := l0;
    var todo := held.Values;
    while todo != {}
      invariant todo <= held.Values
      invariant l.sent == l0.sent && l.fate.Keys == l0.fate.Keys
      invariant forall d :: d in l.fate ==>
        l.fate[d] == if d in held.Values - todo && d !in p.releaseFails then Released else l0.fate[d]
      decreases todo
    {
      var d :| d in todo;
      var (_, l1) := Release(p, l, d);
      l := l1;
      todo := todo - {d};
    }
  }

  /** Every entry of the drained map is a distinct received delivery. */
  lemma DrainWellFormed(p: Peer, n: nat)
    ensures WellFormedMap(DrainSpec(p, n).held, DrainSpec(p, n).ledger)
  {
    var r := DrainSpec(p, n);
    DrainSpecFacts(p, n);
    forall id | id in r.held ensures r.held[id] in r.ledger.fate {
      assert LastWithId(p, r.attempts, id, r.held[id]);
    }
    forall a, b | a in r.held && b in r.held && a != b ensures r.held[a] != r.held[b] {
      assert LastWithId(p, r.attempts, a, r.held[a]) && LastWithId(p, r.attempts, b, r.held[b]);
    }
  }

  // ---- the two operations ---------------------------------------------------

  /** What `Move` or `DeleteMany` returns, and what it did with every delivery. */
  datatype MapOutcome = MapOutcome(errs: Slice<GoError>, ledger: Ledger)

  /** The error of opening the links of `Move` (sender included) or `DeleteMany`. */
  function SetupError(setup: Setup, moving: bool): GoError
  {
    LinksError(setup, if moving then Some("Error initiating sender: ") else None)
  }

  /**
   * The whole map-then-act operation for a given census: `Move` when
   * `moving`, `DeleteMany` otherwise. A timeout ends `Move`'s drain with a
   * "deadline exceeded" slot and the moves go on; it ends `DeleteMany` at
   * once. Another receive error ends both at once with a slot holding the
   * error of the receive context after its cancel function ran.
   */
  function MapThenAct(moving: bool, setup: Setup, census: Attempt<nat>, p: Peer, ids: seq<string>): MapOutcome
  {
    var se := SetupError(setup, moving);
    if se.Some? then MapOutcome(Items([se]), NoDeliveries)
    else if census.Failure? then MapOutcome(Items([Some(census.error)]), NoDeliveries)
    else if census.value == 0 then MapOutcome(Items([Some(NoItems)]), NoDeliveries)
    else
      var dr := DrainSpec(p, census.value);
      if dr.end == ReceiveFailed then MapOutcome(Items([Some(Canceled)]), dr.ledger)
      else if dr.end == TimedOut && !moving then MapOutcome(Items([Some(DeadlineExceeded)]), dr.ledger)
      else
        var pre: seq<GoError> := if dr.end == TimedOut then [Some(DeadlineExceeded)] else [];
        var st := SettleAll(p, moving, Settle(dr.held, dr.ledger, []), ids);
        var errs := pre + st.errs;
        MapOutcome(if |errs| == 0 then Nil else Items(errs), ReleasedLedger(p, st.held, st.ledger))
  }

  /** The common body of `Move` and `DeleteMany` once the census is known. */
  method MapThenActWith(moving: bool, setup: Setup, census: Attempt<nat>, p: Peer, ids: seq<string>)
    returns (errs: Slice<GoError>, l: Ledger)
    ensures MapOutcome(errs, l) == MapThenAct(moving, setup, census, p, ids)
  {
    var se := SetupError(setup, moving);
    if se.Some? {
      return Items([se]), NoDeliveries;
    }
    if census.Failure? {
      return Items([Some(census.error)]), NoDeliveries;
    }
    if census.value == 0 {
      return Items([Some(NoItems)]), NoDeliveries;
    }
    var held0, l0, end, attempts := DrainIntoMap(p, census.value);
    if end == ReceiveFailed {
      return Items([Some(Canceled)]), l0;
    }
    if end == TimedOut && !moving {
      return Items([Some(DeadlineExceeded)]), l0;
    }
    DrainSpecFacts(p, census.value);
    DrainWellFormed(p, census.value);
    var pre: seq<GoError> := if end == TimedOut then [Some(DeadlineExceeded)] else [];
    errs, l := SettleAndRelease(p, moving, held0, l0, ids, pre);
  }

  /** The id loop and the release loop after the drain, `pre` holding the drain's error slot if any. */
  method SettleAndRelease(p: Peer, moving: bool, held0: map<string, nat>, l0: Ledger, ids: seq<string>, pre: seq<GoError>)
    returns (errs: Slice<GoError>, l: Ledger)
    requires WellFormedMap(held0, l0) && l0.sent == []
    ensures var st := SettleAll(p, moving, Settle(held0, l0, []), ids);
      errs == (if |pre + st.errs| == 0 then Nil else Items(pre + st.errs)) &&
      l == ReleasedLedger(p, st.held, st.ledger)
  {
    var held, l1, settleErrs := SettleTargets(p, moving, held0, l0, ids);
    SettleAllFacts(p, moving, held0, l0, ids);
    var all := pre + settleErrs;
    errs := if |all| == 0 then Nil else Items(all);
    l := ReleaseRemaining(p, held, l1);
  }

  /** `Move`: the census of `fromQueue` bounds the drain; matching messages are sent to the destination, then accepted. */
  method Move(a: ActiveMQAdapter, setup: Setup, replies: string -> RssReply, p: Peer, fromQueue: string, ids: seq<string>)
    returns (errs: Slice<GoError>, l: Ledger)
    requires Valid(a)
    ensures MapOutcome(errs, l) == MapThenAct(true, setup, Census(a, fromQueue, replies), p, ids)
  {
    var census: Attempt<nat> := Failure("");
    if SetupError(setup, true).None? {
      census := RetrieveRssData(a, fromQueue, replies);
    }
    errs, l := MapThenActWith(true, setup, census, p, ids);
  }

  /** `DeleteMany`: the census of `queue` bounds the drain; matching messages are accepted. */
  method DeleteMany(a: ActiveMQAdapter, setup: Setup, replies: string -> RssReply, p: Peer, queue: string, ids: seq<string>)
    returns (errs: Slice<GoError>, l: Ledger)
    requires Valid(a)
    ensures MapOutcome(errs, l) == MapThenAct(false, setup, Census(a, queue, replies), p, ids)
  {
    var census: Attempt<nat> := Failure("");
    if SetupError(setup, false).None? {
      census := RetrieveRssData(a, queue, replies);
    }
    errs, l := MapThenActWith(false, setup, census, p, ids);
  }

  // ---- what the operations guarantee ------------------------------------------

  /** The drain ran and the id loop was reached. */
  predicate ReachesIdLoop(moving: bool, setup: Setup, census: Attempt<nat>, p: Peer)
  {
    SetupError(setup, moving).None? && census.Success? && census.value > 0 &&
    DrainSpec(p, census.value).end != ReceiveFailed &&
    (!moving ==> DrainSpec(p, census.value).end != TimedOut)
  }

  /**
   * When the operation stops before the id loop, nothing is accepted,
   * released or sent, and exactly one error slot is returned.
   */
  lemma StopsBeforeIdLoop(moving: bool, setup: Setup, census: Attempt<nat>, p: Peer, ids: seq<string>)
    requires !ReachesIdLoop(moving, setup, census, p)
    ensures var o := MapThenAct(moving, setup, census, p, ids);
      o.errs.Items? && |o.errs.elems| == 1 && o.errs.elems[0].Some? &&
      o.ledger.sent == [] && forall d :: d in o.ledger.fate ==> o.ledger.fate[d] == Held
  {
    if SetupError(setup, moving).None? && census.Success? && census.value > 0 {
      DrainSpecFacts(p, census.value);
    }
  }

  /**
   * The census bounds the drain: only deliveries below the census were
   * received, and every one of them is in the ledger.
   */
  lemma CensusBoundsDrain(moving: bool, setup: Setup, census: Attempt<nat>, p: Peer, ids: seq<string>)
    requires ReachesIdLoop(moving, setup, census, p)
    ensures var o := MapThenAct(moving, setup, census, p, ids);
      forall d :: d in o.ledger.fate ==> d < census.value && Delivered(p, d)
  {
    var dr := DrainSpec(p, census.value);
    DrainSpecFacts(p, census.value);
    DrainWellFormed(p, census.value);
    SettleAllFacts(p, moving, dr.held, dr.ledger, ids);
  }

  /**
   * The fate of every delivery after the id loop. A delivery accepted is the
   * last one drained with an id the caller asked for (and, when moving, it
   * was sent first); conversely, the map entry of every id the loop settles
   * is accepted; a delivery that never entered the map, or was replaced in
   * it by a later one with the same id, is neither accepted nor released.
   */
  lemma MapThenActFates(moving: bool, setup: Setup, census: Attempt<nat>, p: Peer, ids: seq<string>)
    requires ReachesIdLoop(moving, setup, census, p)
    ensures var o := MapThenAct(moving, setup, census, p, ids);
      var dr := DrainSpec(p, census.value);
      forall d :: d in o.ledger.fate ==>
        (o.ledger.fate[d] == Accepted ==>
          (exists id :: id in ids && LastWithId(p, dr.attempts, id, d)) && (moving ==> d in o.ledger.sent)) &&
        (d !in dr.held.Values ==> o.ledger.fate[d] == Held)
    ensures var o := MapThenAct(moving, setup, census, p, ids);
      var dr := DrainSpec(p, census.value);
      forall id :: id in dr.held && id in SettledKeys(p, moving, dr.held, ids) ==>
        dr.held[id] in o.ledger.fate && o.ledger.fate[dr.held[id]] == Accepted
  {
    MapThenActReleases(moving, setup, census, p, ids);
    var dr := DrainSpec(p, census.value);
    DrainSpecFacts(p, census.value);
    DrainWellFormed(p, census.value);
    SettleAllFacts(p, moving, dr.held, dr.ledger, ids);
    var st := SettleAll(p, moving, Settle(dr.held, dr.ledger, []), ids);
    var settled := SettledKeys(p, moving, dr.held, ids);
    var o := MapThenAct(moving, setup, census, p, ids);
    forall d | d in o.ledger.fate && o.ledger.fate[d] == Accepted
      ensures (exists id :: id in ids && LastWithId(p, dr.attempts, id, d)) && (moving ==> d in o.ledger.sent)
    {
      assert d in dr.held.Values;
      var id :| id in dr.held && dr.held[id] == d;
      assert LastWithId(p, dr.attempts, id, d);
      assert id in settled;
    }
  }

  /** Every map entry not settled by the id loop is released once, unless its release fails. */
  lemma MapThenActReleases(moving: bool, setup: Setup, census: Attempt<nat>, p: Peer, ids: seq<string>)
    requires ReachesIdLoop(moving, setup, census, p)
    ensures var o := MapThenAct(moving, setup, census, p, ids);
      var dr := DrainSpec(p, census.value);
      forall id :: id in dr.held ==>
        dr.held[id] in o.ledger.fate &&
        o.ledger.fate[dr.held[id]] ==
          if id in SettledKeys(p, moving, dr.held, ids) then Accepted
          else if dr.held[id] in p.releaseFails then Held
          else Released
  {
    var dr := DrainSpec(p, census.value);
    DrainSpecFacts(p, census.value);
    DrainWellFormed(p, census.value);
    SettleAllFacts(p, moving, dr.held, dr.ledger, ids);
    var st := SettleAll(p, moving, Settle(dr.held, dr.ledger, []), ids);
    var settled := SettledKeys(p, moving, dr.held, ids);
    var o := MapThenAct(moving, setup, census, p, ids);
    assert o.ledger == ReleasedLedger(p, st.held, st.ledger);
    forall id | id in dr.held
      ensures dr.held[id] in o.ledger.fate &&
        o.ledger.fate[dr.held[id]] ==
          if id in settled then Accepted
          else if dr.held[id] in p.releaseFails then Held
          else Released
    {
      var d := dr.held[id];
      if id in settled {
        assert o.ledger.fate[d] == st.ledger.fate[d];
      } else {
        assert id in st.held && st.held[id] == d;
        assert st.ledger.fate[d] == dr.ledger.fate[d] == Held;
      }
    }
  }

  /**
   * `DeleteMany` sends nothing and never reports a failed accept: every
   * error of its id loop is a "Did not find message" for one of the ids.
   */
  lemma DeleteManyErrors(setup: Setup, census: Attempt<nat>, p: Peer, ids: seq<string>)
    requires ReachesIdLoop(false, setup, census, p)
    ensures var o := MapThenAct(false, setup, census, p, ids);
      o.ledger.sent == [] &&
      |Elems(o.errs)| <= |ids| &&
      forall e :: e in Elems(o.errs) ==> exists id :: id in ids && e == NotFound(id)
  {
    var dr := DrainSpec(p, census.value);
    DrainSpecFacts(p, census.value);
    DrainWellFormed(p, census.value);
    SettleAllFacts(p, false, dr.held, dr.ledger, ids);
    NotMovingErrors(p, dr.held, ids);
  }

  lemma {:induction false} NotMovingErrors(p: Peer, held0: map<string, nat>, ids: seq<string>)
    ensures |ErrorsFor(p, false, held0, ids)| <= |ids|
    ensures forall e :: e in ErrorsFor(p, false, held0, ids) ==> exists id :: id in ids && e == NotFound(id)
    decreases |ids|
  {
    if |ids| > 0 {
      var front := ids[..|ids| - 1];
      NotMovingErrors(p, held0, front);
      forall e | e in ErrorsFor(p, false, held0, ids) ensures exists id :: id in ids && e == NotFound(id) {
        if e in ErrorsFor(p, false, held0, front) {
          var id :| id in front && e == NotFound(id);
          assert id in ids;
        } else {
          assert ids[|ids| - 1] in ids;
        }
      }
    }
  }

  /**
   * With distinct ids that were all drained and whose sends and accepts all
   * succeed, the id loop reports nothing and settles every one of them.
   */
  lemma {:induction false} HappyIdsNoErrors(p: Peer, moving: bool, held0: map<string, nat>, ids: seq<string>)
    requires forall i, j :: 0 <= i < j < |ids| ==> ids[i] != ids[j]
    requires forall i :: 0 <= i < |ids| ==> ids[i] in held0 && GoesThrough(p, moving, held0[ids[i]])
    ensures ErrorsFor(p, moving, held0, ids) == []
    ensures forall id :: id in ids ==> id in SettledKeys(p, moving, held0, ids)
    decreases |ids|
  {
    if |ids| > 0 {
      var front := ids[..|ids| - 1];
      HappyIdsNoErrors(p, moving, held0, front);
      assert ids[|ids| - 1] !in front;
    }
  }
}
