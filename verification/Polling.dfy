/** Waiting for transactions: polling loops against a clock, and the batch waits built from them.

    The environment is a `World`: a clock reading and transaction statuses per event, where an event is one
    turn of a polling loop. A loop sleeps only after a pending answer; a wait that returns is followed at once
    by whatever comes next. */
module Polling {
  import opened MachineInts

  /** Nanoseconds. */
  const SECOND: int := 1_000_000_000

  type TxID = nat

  datatype XStatus = XUnknown | XProcessing | XRejected | XAccepted

  datatype PStatus = PUnknown | PPreferred | PProcessing | PAborted | PDropped | PCommitted

  /** What a status query amounts to for the loop. */
  datatype Answer = Pending | Good | Bad | QueryFailed

  datatype Reply<S> = Status(status: S) | Failure

  function XAnswer(reply: Reply<XStatus>): Answer {
    match reply
    case Failure => QueryFailed
    case Status(XAccepted) => Good
    case Status(XRejected) => Bad
    case _ => Pending
  }

  function PAnswer(reply: Reply<PStatus>): Answer {
    match reply
    case Failure => QueryFailed
    case Status(PCommitted) => Good
    case Status(PDropped) => Bad
    case Status(PAborted) => Bad
    case _ => Pending
  }

  /** `start(e)` is the clock when a wait that first polls at event `e` began; `nap(e)` is the event at which a
      loop that sleeps after event `e` goes on. */
  datatype World = World(time: nat -> int, start: nat -> int, nap: nat -> nat, x: (TxID, nat) -> Reply<XStatus>,
                         p: (TxID, nat) -> Reply<PStatus>)

  /** A sleep takes at least a second. */
  ghost predicate SleepsASecond(time: nat -> int, nap: nat -> nat) {
    forall e: nat {:trigger nap(e)} :: e < nap(e) && time(e) + SECOND <= time(nap(e))
  }

  ghost predicate ClockAdvances(w: World) {
    && SleepsASecond(w.time, w.nap)
    && (forall e: nat :: w.start(e) <= w.time(e))
  }

  datatype WaitResult = Ok | QueryError | Abandoned | TimedOut

  /** How a wait ended, the event at which its caller goes on, and how often it polled. */
  datatype Waited = Waited(result: WaitResult, next: nat, polls: nat)

  /** The whole wait, `polls` turns before what is left of it. */
  function After(polls: nat, rest: Waited): Waited {
    rest.(polls := polls + rest.polls)
  }

  /** How a wait on the answers `ask` goes from event `e` on, with the deadline at `deadline`. Only a pending
      answer is followed by a sleep. */
  ghost function Wait(time: nat -> int, nap: nat -> nat, ask: nat -> Answer, deadline: int, e: nat): Waited
    requires SleepsASecond(time, nap)
    decreases if time(e) < deadline then deadline - time(e) else 0
  {
    if deadline <= time(e) then Waited(TimedOut, e, 0)
    else
      match ask(e)
      case QueryFailed => Waited(QueryError, e + 1, 1)
      case Good => Waited(Ok, e + 1, 1)
      case Bad => Waited(Abandoned, e + 1, 1)
      case Pending => After(1, Wait(time, nap, ask, deadline, nap(e)))
  }

  /** The number of whole or begun seconds in a timeout. */
  function Ceil(timeout: int): (n: nat)
    ensures 0 < timeout ==> (n - 1) * 1_000_000_000 < timeout <= n * 1_000_000_000
    ensures timeout <= 0 ==> n == 0
  {
    if timeout <= 0 then 0 else (timeout + SECOND - 1) / SECOND
  }

  /** A wait ends; it polls at most once per begun second of what is left until its deadline. */
  lemma {:induction false} WaitIsBounded(time: nat -> int, nap: nat -> nat, ask: nat -> Answer, deadline: int, e: nat)
    requires SleepsASecond(time, nap)
    ensures e <= Wait(time, nap, ask, deadline, e).next
    ensures Wait(time, nap, ask, deadline, e).polls <= Ceil(deadline - time(e))
    decreases if time(e) < deadline then deadline - time(e) else 0
  {
    if time(e) < deadline && ask(e).Pending? {
      WaitIsBounded(time, nap, ask, deadline, nap(e));
      CeilStep(deadline - time(e), deadline - time(nap(e)));
    } else if time(e) < deadline {
      CeilPositive(deadline - time(e));
    }
  }

  lemma {:induction false} CeilPositive(t: int)
    requires 0 < t
    ensures 1 <= Ceil(t)
  {
  }

  lemma {:induction false} CeilStep(t: int, u: int)
    requires 0 < t && u + SECOND <= t
    ensures Ceil(u) + 1 <= Ceil(t)
  {
    if 0 < u {
      CeilMonotone(u, t - SECOND);
      assert t + SECOND - 1 == (t - SECOND + SECOND - 1) + SECOND;
    } else {
      CeilPositive(t);
    }
  }

  lemma {:induction false} CeilMonotone(t: int, u: int)
    requires t <= u
    ensures Ceil(t) <= Ceil(u)
  {
  }

  /** The event of turn `k` of a loop that starts at event `e` and keeps finding its answer pending. */
  ghost function Turn(nap: nat -> nat, e: nat, k: nat): nat
    decreases k
  {
    if k == 0 then e else Turn(nap, nap(e), k - 1)
  }

  /** Each turn is at least a second after the one before. */
  lemma {:induction false} TurnsAreLater(time: nat -> int, nap: nat -> nat, e: nat, k: nat)
    requires SleepsASecond(time, nap)
    ensures time(e) + k * SECOND <= time(Turn(nap, e, k))
    decreases k
  {
    if k > 0 {
      TurnsAreLater(time, nap, nap(e), k - 1);
    }
  }

  /** Turn `k` is in time and gets `answer`, after nothing but pending ones. */
  ghost predicate FirstAnswer(time: nat -> int, nap: nat -> nat, ask: nat -> Answer, deadline: int, e: nat, k: nat,
                              answer: Answer) {
    && time(Turn(nap, e, k)) < deadline
    && ask(Turn(nap, e, k)) == answer
    && forall j: nat :: j < k ==> ask(Turn(nap, e, j)) == Pending
  }

  /** What a wait makes of an answer other than a pending one. */
  function ResultOf(answer: Answer): WaitResult
    requires answer != Pending
  {
    match answer
    case Good => Ok
    case Bad => Abandoned
    case QueryFailed => QueryError
  }

  lemma {:induction false} FirstAnswerEndsWait(time: nat -> int, nap: nat -> nat, ask: nat -> Answer, deadline: int,
                                               e: nat, k: nat, answer: Answer)
    requires SleepsASecond(time, nap) && answer != Pending
    requires FirstAnswer(time, nap, ask, deadline, e, k, answer)
    ensures Wait(time, nap, ask, deadline, e) == Waited(ResultOf(answer), Turn(nap, e, k) + 1, k + 1)
    decreases k
  {
    TurnsAreLater(time, nap, e, k);
    if k > 0 {
      assert Turn(nap, e, 0) == e;
      assert ask(e) == Pending;
      forall j: nat | j < k - 1 ensures ask(Turn(nap, nap(e), j)) == Pending {
        assert Turn(nap, e, j + 1) == Turn(nap, nap(e), j);
      }
      FirstAnswerEndsWait(time, nap, ask, deadline, nap(e), k - 1, answer);
    }
  }

  lemma {:induction false} EndedByFirstAnswer(time: nat -> int, nap: nat -> nat, ask: nat -> Answer, deadline: int,
                                              e: nat, answer: Answer)
    requires SleepsASecond(time, nap) && answer != Pending
    requires Wait(time, nap, ask, deadline, e).result == ResultOf(answer)
    ensures 0 < Wait(time, nap, ask, deadline, e).polls
    ensures FirstAnswer(time, nap, ask, deadline, e, Wait(time, nap, ask, deadline, e).polls - 1, answer)
    decreases if time(e) < deadline then deadline - time(e) else 0
  {
    if ask(e) == Pending {
      EndedByFirstAnswer(time, nap, ask, deadline, nap(e), answer);
      var k := Wait(time, nap, ask, deadline, e).polls - 1;
      forall j: nat | j < k ensures ask(Turn(nap, e, j)) == Pending {
        if j > 0 {
          assert Turn(nap, e, j) == Turn(nap, nap(e), j - 1);
        }
      }
    }
  }

  /** A wait ends for an answer exactly when some turn before the deadline gets it, all earlier ones pending. */
  lemma {:induction false} WaitEndsExactly(time: nat -> int, nap: nat -> nat, ask: nat -> Answer, deadline: int, e: nat,
                                           answer: Answer)
    requires SleepsASecond(time, nap) && answer != Pending
    ensures Wait(time, nap, ask, deadline, e).result == ResultOf(answer) <==>
              exists k: nat :: FirstAnswer(time, nap, ask, deadline, e, k, answer)
  {
    if Wait(time, nap, ask, deadline, e).result == ResultOf(answer) {
      EndedByFirstAnswer(time, nap, ask, deadline, e, answer);
    }
    if k: nat :| FirstAnswer(time, nap, ask, deadline, e, k, answer) {
      FirstAnswerEndsWait(time, nap, ask, deadline, e, k, answer);
    }
  }

  /** One turn of a wait. */
  lemma {:induction false} WaitTurn(time: nat -> int, nap: nat -> nat, ask: nat -> Answer, deadline: int, e: nat)
    requires SleepsASecond(time, nap)
    ensures deadline <= time(e) ==> Wait(time, nap, ask, deadline, e) == Waited(TimedOut, e, 0)
    ensures time(e) < deadline && ask(e) == QueryFailed ==>
              Wait(time, nap, ask, deadline, e) == Waited(QueryError, e + 1, 1)
    ensures time(e) < deadline && ask(e) == Good ==> Wait(time, nap, ask, deadline, e) == Waited(Ok, e + 1, 1)
    ensures time(e) < deadline && ask(e) == Bad ==> Wait(time, nap, ask, deadline, e) == Waited(Abandoned, e + 1, 1)
    ensures time(e) < deadline && ask(e) == Pending ==>
              Wait(time, nap, ask, deadline, e) == After(1, Wait(time, nap, ask, deadline, nap(e)))
    ensures e < nap(e) && time(e) + SECOND <= time(nap(e))
  {
  }

  /** A wait with `timeout` polls at most once per begun second of it. */
  lemma {:induction false} TimeoutBoundsPolls(w: World, ask: nat -> Answer, timeout: int, e: nat)
    requires ClockAdvances(w)
    ensures e <= Wait(w.time, w.nap, ask, w.start(e) + timeout, e).next
    ensures Wait(w.time, w.nap, ask, w.start(e) + timeout, e).polls <= Ceil(timeout)
  {
    WaitIsBounded(w.time, w.nap, ask, w.start(e) + timeout, e);
    CeilMonotone(w.start(e) + timeout - w.time(e), timeout);
  }

  /** The wait for one X-Chain transaction that starts at event `e`. */
  ghost function WaitX(w: World, txID: TxID, timeout: int, e: nat): Waited
    requires ClockAdvances(w)
  {
    Wait(w.time, w.nap, AskX(w, txID), w.start(e) + timeout, e)
  }

  ghost function WaitP(w: World, txID: TxID, timeout: int, e: nat): Waited
    requires ClockAdvances(w)
  {
    Wait(w.time, w.nap, AskP(w, txID), w.start(e) + timeout, e)
  }

  ghost function AskX(w: World, txID: TxID): nat -> Answer {
    (e: nat) => XAnswer(w.x(txID, e))
  }

  ghost function AskP(w: World, txID: TxID): nat -> Answer {
    (e: nat) => PAnswer(w.p(txID, e))
  }

  /** Turn `k` of a wait is in time and gets one of `replies`; all turns before it found the transaction undecided. */
  ghost predicate XFirst(w: World, txID: TxID, timeout: int, e: nat, k: nat, replies: set<Reply<XStatus>>) {
    && w.time(Turn(w.nap, e, k)) < w.start(e) + timeout
    && w.x(txID, Turn(w.nap, e, k)) in replies
    && forall j: nat :: j < k ==>
         w.x(txID, Turn(w.nap, e, j)) in {Status(XUnknown), Status(XProcessing)}
  }

  lemma {:induction false} XFirstIs(w: World, txID: TxID, timeout: int, deadline: int, e: nat, answer: Answer,
                                    replies: set<Reply<XStatus>>)
    requires deadline == w.start(e) + timeout
    requires forall n: nat :: XAnswer(w.x(txID, n)) == answer <==> w.x(txID, n) in replies
    ensures (exists k: nat :: FirstAnswer(w.time, w.nap, AskX(w, txID), deadline, e, k, answer)) <==>
            (exists k: nat :: XFirst(w, txID, timeout, e, k, replies))
  {
    forall k: nat
      ensures FirstAnswer(w.time, w.nap, AskX(w, txID), deadline, e, k, answer) <==>
              XFirst(w, txID, timeout, e, k, replies)
    {
      forall n: nat
        ensures AskX(w, txID)(n) == Pending <==>
                w.x(txID, n) in {Status(XUnknown), Status(XProcessing)}
      {
      }
    }
  }

  /** How a wait on the X-Chain ends, in terms of what the node replies. */
  lemma {:induction false} WaitXEndsExactly(w: World, txID: TxID, timeout: int, e: nat)
    requires ClockAdvances(w)
    ensures var r := WaitX(w, txID, timeout, e).result;
            && (r == Ok <==> exists k: nat :: XFirst(w, txID, timeout, e, k, {Status(XAccepted)}))
            && (r == Abandoned <==> exists k: nat :: XFirst(w, txID, timeout, e, k, {Status(XRejected)}))
            && (r == QueryError <==> exists k: nat :: XFirst(w, txID, timeout, e, k, {Failure}))
  {
    var deadline := w.start(e) + timeout;
    WaitEndsExactly(w.time, w.nap, AskX(w, txID), deadline, e, Good);
    WaitEndsExactly(w.time, w.nap, AskX(w, txID), deadline, e, Bad);
    WaitEndsExactly(w.time, w.nap, AskX(w, txID), deadline, e, QueryFailed);
    XFirstIs(w, txID, timeout, deadline, e, Good, {Status(XAccepted)});
    XFirstIs(w, txID, timeout, deadline, e, Bad, {Status(XRejected)});
    XFirstIs(w, txID, timeout, deadline, e, QueryFailed, {Failure});
  }

  /** Turn `k` of a wait is in time and gets one of `replies`; all turns before it found the transaction undecided. */
  ghost predicate PFirst(w: World, txID: TxID, timeout: int, e: nat, k: nat, replies: set<Reply<PStatus>>) {
    && w.time(Turn(w.nap, e, k)) < w.start(e) + timeout
    && w.p(txID, Turn(w.nap, e, k)) in replies
    && forall j: nat :: j < k ==>
         w.p(txID, Turn(w.nap, e, j)) in {Status(PUnknown), Status(PPreferred), Status(PProcessing)}
  }

  lemma {:induction false} PFirstIs(w: World, txID: TxID, timeout: int, deadline: int, e: nat, answer: Answer,
                                    replies: set<Reply<PStatus>>)
    requires deadline == w.start(e) + timeout
    requires forall n: nat :: PAnswer(w.p(txID, n)) == answer <==> w.p(txID, n) in replies
    ensures (exists k: nat :: FirstAnswer(w.time, w.nap, AskP(w, txID), deadline, e, k, answer)) <==>
            (exists k: nat :: PFirst(w, txID, timeout, e, k, replies))
  {
    forall k: nat
      ensures FirstAnswer(w.time, w.nap, AskP(w, txID), deadline, e, k, answer) <==>
              PFirst(w, txID, timeout, e, k, replies)
    {
      forall n: nat
        ensures AskP(w, txID)(n) == Pending <==>
                w.p(txID, n) in {Status(PUnknown), Status(PPreferred), Status(PProcessing)}
      {
      }
    }
  }

  /** How a wait on the P-Chain ends, in terms of what the node replies. */
  lemma {:induction false} WaitPEndsExactly(w: World, txID: TxID, timeout: int, e: nat)
    requires ClockAdvances(w)
    ensures var r := WaitP(w, txID, timeout, e).result;
            && (r == Ok <==> exists k: nat :: PFirst(w, txID, timeout, e, k, {Status(PCommitted)}))
            && (r == Abandoned <==>
                  exists k: nat :: PFirst(w, txID, timeout, e, k, {Status(PDropped), Status(PAborted)}))
            && (r == QueryError <==> exists k: nat :: PFirst(w, txID, timeout, e, k, {Failure}))
  {
    var deadline := w.start(e) + timeout;
    WaitEndsExactly(w.time, w.nap, AskP(w, txID), deadline, e, Good);
    WaitEndsExactly(w.time, w.nap, AskP(w, txID), deadline, e, Bad);
    WaitEndsExactly(w.time, w.nap, AskP(w, txID), deadline, e, QueryFailed);
    PFirstIs(w, txID, timeout, deadline, e, Good, {Status(PCommitted)});
    PFirstIs(w, txID, timeout, deadline, e, Bad, {Status(PDropped), Status(PAborted)});
    PFirstIs(w, txID, timeout, deadline, e, QueryFailed, {Failure});
  }

  /** Polls the X-Chain; `e'` is the event at which the caller goes on. */
  method AwaitXChainTransactionAcceptance(w: World, txID: TxID, timeout: int, e: nat)
    returns (r: WaitResult, e': nat, ghost polls: nat)
    requires ClockAdvances(w)
    ensures Waited(r, e', polls) == WaitX(w, txID, timeout, e)
    ensures r == Ok ==> e < e' && w.x(txID, e' - 1) == Status(XAccepted)
    ensures r == Ok <==> exists k: nat :: XFirst(w, txID, timeout, e, k, {Status(XAccepted)})
    ensures r == Abandoned <==> exists k: nat :: XFirst(w, txID, timeout, e, k, {Status(XRejected)})
    ensures r == QueryError <==> exists k: nat :: XFirst(w, txID, timeout, e, k, {Failure})
  {
    WaitXEndsExactly(w, txID, timeout, e);
    e', polls := e, 0;
    var pollStartTime := w.start(e);
    ghost var ask, deadline := AskX(w, txID), w.start(e) + timeout;
    ghost var outcome := Wait(w.time, w.nap, ask, deadline, e);
    while w.time(e') - pollStartTime < timeout
      invariant e <= e'
      invariant outcome == After(polls, Wait(w.time, w.nap, ask, deadline, e'))
      decreases timeout - (w.time(e') - pollStartTime)
    {
      var reply := w.x(txID, e');
      WaitTurn(w.time, w.nap, ask, deadline, e');
      polls := polls + 1;
      if reply.Failure? {
        return QueryError, e' + 1, polls;
      }
      if reply.status == XAccepted {
        return Ok, e' + 1, polls;
      }
      if reply.status == XRejected {
        return Abandoned, e' + 1, polls;
      }
      e' := w.nap(e');
    }
    WaitTurn(w.time, w.nap, ask, deadline, e');
    r := TimedOut;
  }

  /** Polls the P-Chain; `e'` is the event at which the caller goes on. */
  method AwaitPChainTransactionAcceptance(w: World, txID: TxID, timeout: int, e: nat)
    returns (r: WaitResult, e': nat, ghost polls: nat)
    requires ClockAdvances(w)
    ensures Waited(r, e', polls) == WaitP(w, txID, timeout, e)
    ensures r == Ok ==> e < e' && w.p(txID, e' - 1) == Status(PCommitted)
    ensures r == Ok <==> exists k: nat :: PFirst(w, txID, timeout, e, k, {Status(PCommitted)})
    ensures r == Abandoned <==> exists k: nat :: PFirst(w, txID, timeout, e, k, {Status(PDropped), Status(PAborted)})
    ensures r == QueryError <==> exists k: nat :: PFirst(w, txID, timeout, e, k, {Failure})
  {
    WaitPEndsExactly(w, txID, timeout, e);
    e', polls := e, 0;
    var pollStartTime := w.start(e);
    ghost var ask, deadline := AskP(w, txID), w.start(e) + timeout;
    ghost var outcome := Wait(w.time, w.nap, ask, deadline, e);
    while w.time(e') - pollStartTime < timeout
      invariant e <= e'
      invariant outcome == After(polls, Wait(w.time, w.nap, ask, deadline, e'))
      decreases timeout - (w.time(e') - pollStartTime)
    {
      var reply := w.p(txID, e');
      WaitTurn(w.time, w.nap, ask, deadline, e');
      polls := polls + 1;
      if reply.Failure? {
        return QueryError, e' + 1, polls;
      }
      if reply.status == PCommitted {
        return Ok, e' + 1, polls;
      }
      if reply.status == PDropped || reply.status == PAborted {
        return Abandoned, e' + 1, polls;
      }
      e' := w.nap(e');
    }
    WaitTurn(w.time, w.nap, ask, deadline, e');
    r := TimedOut;
  }

  // ---------- waiting for several transactions ----------

  /** A transaction that is accepted stays accepted. */
  ghost predicate XAcceptanceStays(w: World) {
    forall t: TxID, e: nat, f: nat :: e <= f && w.x(t, e) == Status(XAccepted) ==> w.x(t, f) == Status(XAccepted)
  }

  ghost predicate PCommitmentStays(w: World) {
    forall t: TxID, e: nat, f: nat :: e <= f && w.p(t, e) == Status(PCommitted) ==> w.p(t, f) == Status(PCommitted)
  }

  /** Nothing forces time to pass between two waits: two transactions can be found accepted at one clock reading. */
  lemma {:induction false} WaitsMayFollowAtOnce() returns (w: World)
    ensures ClockAdvances(w) && XAcceptanceStays(w) && w.time(0) == w.time(1)
    ensures WaitX(w, 0, SECOND, 0) == Waited(Ok, 1, 1) && WaitX(w, 1, SECOND, 1) == Waited(Ok, 2, 1)
  {
    var clock := (e: nat) => e / 2 * SECOND;
    w := World(clock, clock, (e: nat) => e + 2, (t: TxID, e: nat) => Status(XAccepted), (t: TxID, e: nat) => Failure);
    forall e: nat ensures w.time(e) + SECOND == w.time(w.nap(e)) {
      assert (e + 2) / 2 == e / 2 + 1;
    }
  }

  /** A nil result means every listed transaction is accepted on return, not only when it was polled. The next
      wait starts as soon as the one before it returns. */
  method AwaitXChainTxs(w: World, txIDs: seq<TxID>, timeout: int, e: nat)
    returns (r: WaitResult, e': nat, ghost polls: nat)
    requires ClockAdvances(w) && XAcceptanceStays(w)
    ensures r == Ok ==> forall t :: t in txIDs ==> w.x(t, e') == Status(XAccepted)
    ensures e <= e' && polls <= |txIDs| * Ceil(timeout)
    ensures r != Ok ==>
              exists i, f: nat :: 0 <= i < |txIDs| && WaitX(w, txIDs[i], timeout, f).result == r
                               && forall j :: 0 <= j < i ==> w.x(txIDs[j], f) == Status(XAccepted)
  {
    e', polls := e, 0;
    for i := 0 to |txIDs|
      invariant e <= e' && polls <= i * Ceil(timeout)
      invariant forall j :: 0 <= j < i ==> w.x(txIDs[j], e') == Status(XAccepted)
    {
      ghost var before, turns := e', 0;
      TimeoutBoundsPolls(w, AskX(w, txIDs[i]), timeout, e');
      r, e', turns := AwaitXChainTransactionAcceptance(w, txIDs[i], timeout, e');
      polls := polls + turns;
      OneMoreWait(i, |txIDs|, Ceil(timeout));
      if r != Ok {
        assert WaitX(w, txIDs[i], timeout, before).result == r;
        return;
      }
      assert w.x(txIDs[i], e' - 1) == Status(XAccepted);
      assert forall j :: 0 <= j <= i ==> w.x(txIDs[j], e') == Status(XAccepted);
    }
    r := Ok;
  }

  method AwaitPChainTxs(w: World, txIDs: seq<TxID>, timeout: int, e: nat)
    returns (r: WaitResult, e': nat, ghost polls: nat)
    requires ClockAdvances(w) && PCommitmentStays(w)
    ensures r == Ok ==> forall t :: t in txIDs ==> w.p(t, e') == Status(PCommitted)
    ensures e <= e' && polls <= |txIDs| * Ceil(timeout)
    ensures r != Ok ==>
              exists i, f: nat :: 0 <= i < |txIDs| && WaitP(w, txIDs[i], timeout, f).result == r
                               && forall j :: 0 <= j < i ==> w.p(txIDs[j], f) == Status(PCommitted)
  {
    e', polls := e, 0;
    for i := 0 to |txIDs|
      invariant e <= e' && polls <= i * Ceil(timeout)
      invariant forall j :: 0 <= j < i ==> w.p(txIDs[j], e') == Status(PCommitted)
    {
      ghost var before, turns := e', 0;
      TimeoutBoundsPolls(w, AskP(w, txIDs[i]), timeout, e');
      r, e', turns := AwaitPChainTransactionAcceptance(w, txIDs[i], timeout, e');
      polls := polls + turns;
      OneMoreWait(i, |txIDs|, Ceil(timeout));
      if r != Ok {
        assert WaitP(w, txIDs[i], timeout, before).result == r;
        return;
      }
      assert w.p(txIDs[i], e' - 1) == Status(PCommitted);
      assert forall j :: 0 <= j <= i ==> w.p(txIDs[j], e') == Status(PCommitted);
    }
    r := Ok;
  }

  lemma {:induction false} OneMoreWait(i: nat, n: nat, c: nat)
    requires i < n
    ensures (i + 1) * c == i * c + c && (i + 1) * c <= n * c
  {
    ScaleMonotone(i + 1, n, c);
  }

  // ---------- sending back and forth ----------

  /** One send of the loop and whether sending and waiting for it worked. */
  datatype Sent = Sent(amount: uint64, sendOk: bool, awaitOk: bool)

  /** The turns from 1 to below `n` that did not work. */
  ghost function Failing(works: nat -> bool, n: nat): set<nat> {
    set i: nat | 1 <= i < n && !works(i)
  }

  lemma {:induction false} FailingNext(works: nat -> bool, n: nat)
    requires 1 <= n
    ensures |Failing(works, n + 1)| == |Failing(works, n)| + (if works(n) then 0 else 1)
  {
    if works(n) {
      assert Failing(works, n + 1) == Failing(works, n);
    } else {
      assert Failing(works, n + 1) == Failing(works, n) + {n};
    }
  }

  /** Sends one time less than `numTxs`, each amount one fee below the previous one modulo 2^64, and goes on
      after failures: the channel receives one error for each failing send and each failing wait, and then nil. */
  method SendAVAXBackAndForth(amount: uint64, txFee: uint64, numTxs: uint64, sendOk: nat -> bool, awaitOk: nat -> bool)
    returns (sends: seq<Sent>, errs: seq<bool>)
    ensures |sends| == if numTxs == 0 then 0 else numTxs - 1
    ensures forall i :: 0 <= i < |sends| ==>
              sends[i] == Sent(Wrap(amount - Wrap(txFee * (i + 1))), sendOk(i + 1), awaitOk(i + 1))
    ensures |errs| == |set i: nat | 1 <= i < numTxs && !sendOk(i)| + |set i: nat | 1 <= i < numTxs && !awaitOk(i)| + 1
    ensures forall i :: 0 <= i < |errs| ==> (errs[i] <==> i < |errs| - 1)
  {
    sends, errs := [], [];
    var i: nat := 1;
    assert Failing(sendOk, 1) == {} && Failing(awaitOk, 1) == {};
    while i < numTxs
      invariant 1 <= i && |sends| == i - 1 && (i <= numTxs || numTxs <= 1 == i)
      invariant forall j :: 0 <= j < |sends| ==>
                  sends[j] == Sent(Wrap(amount - Wrap(txFee * (j + 1))), sendOk(j + 1), awaitOk(j + 1))
      invariant |errs| == |Failing(sendOk, i)| + |Failing(awaitOk, i)| && forall j :: 0 <= j < |errs| ==> errs[j]
    {
      FailingNext(sendOk, i);
      FailingNext(awaitOk, i);
      if !sendOk(i) {
        errs := errs + [true];
      }
      if !awaitOk(i) {
        errs := errs + [true];
      }
      sends := sends + [Sent(Wrap(amount - Wrap(txFee * i)), sendOk(i), awaitOk(i))];
      i := i + 1;
    }
    assert Failing(sendOk, i) == Failing(sendOk, numTxs) && Failing(awaitOk, i) == Failing(awaitOk, numTxs);
    errs := errs + [false];
  }
}
