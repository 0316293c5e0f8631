/** The concurrent part of the C-Chain throughput test: one goroutine per list, each issuing its list and
    then sending its error on a buffered channel, and a main routine that receives once per list.

    Every interleaving is a sequence of `Action`s. A flag on the channel is true for a non-nil error. */
module ThroughputJoin {
  import opened Options
  import opened EthLedger
  import opened NonceChains
  import opened Schedules
  import opened IndexedSums

  datatype Issuer =
    | NotLaunched
    | Running(pos: nat)
    | Returned(pos: nat, failed: bool)
    | Sent(pos: nat, failed: bool)

  datatype Main =
    | Launching(next: nat)
    | Receiving(received: nat)
    | Panicked(received: nat)

  /** `order` records which issuer's transaction was taken at each step of the chain. */
  datatype System = System(main: Main, issuers: seq<Issuer>, buffer: seq<bool>, chain: EthState, order: seq<nat>)

  datatype Action = Launch | StartReceiving | Issue(j: nat) | Return(j: nat) | Send(j: nat) | Receive

  function Init(lists: seq<seq<EthTx>>, chain: EthState): System {
    System(Launching(0), seq(|lists|, _ => NotLaunched), [], chain, [])
  }

  predicate Joined(lists: seq<seq<EthTx>>, s: System) {
    s.main == Receiving(|lists|)
  }

  predicate Final(lists: seq<seq<EthTx>>, s: System) {
    Joined(lists, s) || s.main.Panicked?
  }

  /** One step, or `None` when the action is not enabled. The channel holds at most one entry per list. */
  function Step(lists: seq<seq<EthTx>>, s: System, a: Action): Option<System>
    requires |s.issuers| == |lists|
  {
    if s.main.Panicked? then None
    else
      match a
      case Launch =>
        if s.main.Launching? && s.main.next < |lists| then
          Some(s.(main := Launching(s.main.next + 1), issuers := s.issuers[s.main.next := Running(0)]))
        else None
      case StartReceiving =>
        if s.main == Launching(|lists|) then Some(s.(main := Receiving(0))) else None
      case Issue(j) =>
        if j < |lists| && s.issuers[j].Running? && s.issuers[j].pos < |lists[j]| then
          match Apply(s.chain, lists[j][s.issuers[j].pos])
          case None => Some(s.(issuers := s.issuers[j := Returned(s.issuers[j].pos, true)]))
          case Some(chain) =>
            Some(s.(issuers := s.issuers[j := Running(s.issuers[j].pos + 1)], chain := chain, order := s.order + [j]))
        else None
      case Return(j) =>
        if j < |lists| && s.issuers[j] == Running(|lists[j]|) then
          Some(s.(issuers := s.issuers[j := Returned(|lists[j]|, false)]))
        else None
      case Send(j) =>
        if j < |lists| && s.issuers[j].Returned? && |s.buffer| < |lists| then
          Some(s.(issuers := s.issuers[j := Issuer.Sent(s.issuers[j].pos, s.issuers[j].failed)],
                  buffer := s.buffer + [s.issuers[j].failed]))
        else None
      case Receive =>
        if s.main.Receiving? && s.main.received < |lists| && s.buffer != [] then
          Some(s.(main := if s.buffer[0] then Panicked(s.main.received) else Receiving(s.main.received + 1),
                  buffer := s.buffer[1..]))
        else None
  }

  lemma {:induction false} StepKeepsIssuers(lists: seq<seq<EthTx>>, s: System, a: Action)
    requires |s.issuers| == |lists|
    ensures Step(lists, s, a).Some? ==> |Step(lists, s, a).value.issuers| == |lists|
  {
  }

  /** Runs a schedule of actions; `None` when some action is not enabled at its turn. */
  function Exec(lists: seq<seq<EthTx>>, s: System, actions: seq<Action>): Option<System>
    requires |s.issuers| == |lists|
    decreases |actions|
  {
    if actions == [] then Some(s)
    else
      match Step(lists, s, actions[0])
      case None => None
      case Some(next) =>
        StepKeepsIssuers(lists, s, actions[0]);
        Exec(lists, next, actions[1..])
  }

  // ---------- the invariant ----------

  function Pos(issuer: Issuer): nat {
    if issuer.NotLaunched? then 0 else issuer.pos
  }

  function HasSent(j: nat, issuer: Issuer): int {
    if issuer.Sent? then 1 else 0
  }

  function HasSentFailure(j: nat, issuer: Issuer): int {
    if issuer.Sent? && issuer.failed then 1 else 0
  }

  function IsTrue(j: nat, flag: bool): int {
    if flag then 1 else 0
  }

  function Taken(main: Main): nat {
    match main
    case Launching(_) => 0
    case Receiving(r) => r
    case Panicked(r) => r + 1
  }

  predicate IssuerOk(list: seq<EthTx>, issuer: Issuer) {
    match issuer
    case NotLaunched => true
    case Running(pos) => pos <= |list|
    case Returned(pos, failed) => if failed then pos < |list| else pos == |list|
    case Sent(pos, failed) => if failed then pos < |list| else pos == |list|
  }

  predicate LaunchedOk(main: Main, issuers: seq<Issuer>) {
    match main
    case Launching(n) => n <= |issuers| && forall j :: 0 <= j < |issuers| ==> (issuers[j].NotLaunched? <==> n <= j)
    case _ => forall j :: 0 <= j < |issuers| ==> !issuers[j].NotLaunched?
  }

  /** Every error that was sent is in the buffer or was received; only a received failure stops the main routine. */
  ghost predicate ChannelOk(s: System) {
    && SumOver(s.issuers, HasSent) == |s.buffer| + Taken(s.main)
    && SumOver(s.issuers, HasSentFailure) == SumOver(s.buffer, IsTrue) + (if s.main.Panicked? then 1 else 0)
  }

  /** The chain is what the issued transactions lead to, and each issuer's position counts its own. */
  ghost predicate ChainOk(lists: seq<seq<EthTx>>, chain0: EthState, s: System)
    requires |s.issuers| == |lists|
  {
    && Valid(lists, s.order)
    && (forall j :: 0 <= j < |lists| ==> multiset(s.order)[j] == Pos(s.issuers[j]))
    && Run(chain0, Merge(lists, s.order)) == Some(s.chain)
  }

  ghost predicate Inv(lists: seq<seq<EthTx>>, chain0: EthState, s: System) {
    && |s.issuers| == |lists|
    && (forall j :: 0 <= j < |lists| ==> IssuerOk(lists[j], s.issuers[j]))
    && LaunchedOk(s.main, s.issuers)
    && ChannelOk(s)
    && ChainOk(lists, chain0, s)
  }

  lemma {:induction false} InitInv(lists: seq<seq<EthTx>>, chain0: EthState)
    ensures Inv(lists, chain0, Init(lists, chain0))
  {
    CountBounds(Init(lists, chain0).issuers, HasSent);
    CountBounds(Init(lists, chain0).issuers, HasSentFailure);
  }

  lemma {:induction false} StepKeepsChannel(lists: seq<seq<EthTx>>, s: System, a: Action)
    requires |s.issuers| == |lists| && LaunchedOk(s.main, s.issuers) && ChannelOk(s) && Step(lists, s, a).Some?
    ensures ChannelOk(Step(lists, s, a).value)
  {
    var s' := Step(lists, s, a).value;
    match a
    case Launch =>
      SumOfUpdate(s.issuers, HasSent, s.main.next, Running(0));
      SumOfUpdate(s.issuers, HasSentFailure, s.main.next, Running(0));
    case StartReceiving =>
    case Issue(j) =>
      SumOfUpdate(s.issuers, HasSent, j, s'.issuers[j]);
      SumOfUpdate(s.issuers, HasSentFailure, j, s'.issuers[j]);
    case Return(j) =>
      SumOfUpdate(s.issuers, HasSent, j, s'.issuers[j]);
      SumOfUpdate(s.issuers, HasSentFailure, j, s'.issuers[j]);
    case Send(j) =>
      SumOfUpdate(s.issuers, HasSent, j, s'.issuers[j]);
      SumOfUpdate(s.issuers, HasSentFailure, j, s'.issuers[j]);
      assert s'.buffer[..|s.buffer|] == s.buffer;
    case Receive =>
      DropFirst(s.buffer);
  }

  lemma {:induction false} DropFirst(flags: seq<bool>)
    requires flags != []
    ensures SumOver(flags, IsTrue) == IsTrue(0, flags[0]) + SumOver(flags[1..], IsTrue)
  {
    if |flags| > 1 {
      var last := |flags| - 1;
      DropFirst(flags[..last]);
      assert flags[..last][1..] == flags[1..][..last - 1];
    } else {
      assert flags[..0] == [];
    }
  }

  lemma {:induction false} OneMoreIssued(order: seq<nat>, j: nat, i: nat)
    ensures multiset(order + [j])[i] == multiset(order)[i] + (if i == j then 1 else 0)
  {
  }

  /** The next transaction of issuer `j` extends the recorded order and the run behind the chain. */
  lemma {:induction false} IssueExtendsRun(lists: seq<seq<EthTx>>, chain0: EthState, s: System, j: nat)
    requires |s.issuers| == |lists| && ChainOk(lists, chain0, s)
    requires j < |lists| && s.issuers[j].Running? && s.issuers[j].pos < |lists[j]|
    ensures Valid(lists, s.order + [j])
    ensures Run(chain0, Merge(lists, s.order + [j])) == Apply(s.chain, lists[j][s.issuers[j].pos])
  {
    Extend(lists, s.order, j);
    MergeStep(lists, s.order, j);
    RunSnoc(chain0, Merge(lists, s.order), lists[j][s.issuers[j].pos]);
  }

  lemma {:induction false} IssueKeepsChain(lists: seq<seq<EthTx>>, chain0: EthState, s: System, j: nat)
    requires |s.issuers| == |lists| && ChainOk(lists, chain0, s)
    requires j < |lists| && s.issuers[j].Running? && s.issuers[j].pos < |lists[j]|
    requires Step(lists, s, Issue(j)).Some?
    ensures ChainOk(lists, chain0, Step(lists, s, Issue(j)).value)
  {
    IssueExtendsRun(lists, chain0, s, j);
    var s' := Step(lists, s, Issue(j)).value;
    forall i | 0 <= i < |lists| ensures multiset(s'.order)[i] == Pos(s'.issuers[i]) {
      OneMoreIssued(s.order, j, i);
    }
  }

  lemma {:induction false} OthersKeepChain(lists: seq<seq<EthTx>>, chain0: EthState, s: System, a: Action)
    requires |s.issuers| == |lists| && LaunchedOk(s.main, s.issuers) && ChainOk(lists, chain0, s)
    requires Step(lists, s, a).Some? && !a.Issue?
    ensures ChainOk(lists, chain0, Step(lists, s, a).value)
  {
    var s' := Step(lists, s, a).value;
    assert s'.order == s.order && s'.chain == s.chain;
    forall j | 0 <= j < |lists| ensures Pos(s'.issuers[j]) == Pos(s.issuers[j]) {
    }
  }

  lemma {:induction false} StepKeepsIssuersOk(lists: seq<seq<EthTx>>, s: System, a: Action)
    requires |s.issuers| == |lists| && LaunchedOk(s.main, s.issuers) && Step(lists, s, a).Some?
    requires forall j :: 0 <= j < |lists| ==> IssuerOk(lists[j], s.issuers[j])
    ensures var s' := Step(lists, s, a).value;
            && |s'.issuers| == |lists|
            && LaunchedOk(s'.main, s'.issuers)
            && (forall j :: 0 <= j < |lists| ==> IssuerOk(lists[j], s'.issuers[j]))
  {
  }

  lemma {:induction false} StepKeepsInv(lists: seq<seq<EthTx>>, chain0: EthState, s: System, a: Action)
    requires Inv(lists, chain0, s) && Step(lists, s, a).Some?
    ensures Inv(lists, chain0, Step(lists, s, a).value)
  {
    StepKeepsChannel(lists, s, a);
    StepKeepsIssuersOk(lists, s, a);
    if a.Issue? {
      IssueKeepsChain(lists, chain0, s, a.j);
    } else {
      OthersKeepChain(lists, chain0, s, a);
    }
  }

  lemma {:induction false} ExecKeepsInv(lists: seq<seq<EthTx>>, chain0: EthState, s: System, actions: seq<Action>)
    requires Inv(lists, chain0, s) && Exec(lists, s, actions).Some?
    ensures Inv(lists, chain0, Exec(lists, s, actions).value)
    decreases |actions|
  {
    if actions != [] {
      StepKeepsInv(lists, chain0, s, actions[0]);
      ExecKeepsInv(lists, chain0, Step(lists, s, actions[0]).value, actions[1..]);
    }
  }

  // ---------- no blocking, no deadlock, bounded runs ----------

  /** In every reachable state an issuer that has returned finds room on the channel. */
  lemma {:induction false} SendNeverBlocks(lists: seq<seq<EthTx>>, chain0: EthState, actions: seq<Action>, j: nat)
    requires Exec(lists, Init(lists, chain0), actions).Some?
    requires var s := Exec(lists, Init(lists, chain0), actions).value;
             j < |s.issuers| && s.issuers[j].Returned? && !s.main.Panicked?
    ensures var s := Exec(lists, Init(lists, chain0), actions).value;
            |s.buffer| < |lists| && |s.issuers| == |lists| && Step(lists, s, Send(j)).Some?
  {
    InitInv(lists, chain0);
    ExecKeepsInv(lists, chain0, Init(lists, chain0), actions);
    var s := Exec(lists, Init(lists, chain0), actions).value;
    CountBounds(s.issuers, HasSent);
    assert HasSent(j, s.issuers[j]) == 0;
  }

  /** As long as the main routine has neither joined nor panicked, something can move. */
  lemma {:induction false} NeverDeadlocked(lists: seq<seq<EthTx>>, chain0: EthState, s: System) returns (a: Action)
    requires Inv(lists, chain0, s) && !Final(lists, s)
    ensures Step(lists, s, a).Some?
  {
    if s.main.Launching? {
      a := if s.main.next < |lists| then Launch else StartReceiving;
    } else {
      CountBounds(s.issuers, HasSent);
      if s.buffer != [] {
        a := Receive;
      } else {
        var j: nat :| j < |s.issuers| && HasSent(j, s.issuers[j]) != 1;
        assert IssuerOk(lists[j], s.issuers[j]);
        a := if s.issuers[j].Returned? then Send(j)
             else if s.issuers[j].pos < |lists[j]| then Issue(j) else Return(j);
      }
    }
  }

  ghost function Weight(lists: seq<seq<EthTx>>): (nat, Issuer) -> int {
    (j: nat, issuer: Issuer) =>
      if |lists| <= j then 0
      else
        match issuer
        case NotLaunched => |lists[j]| + 3
        case Running(pos) => |lists[j]| - pos + 2
        case Returned(_, _) => 1
        case Sent(_, _) => 0
  }

  /** How many steps a run can still take, at most. */
  ghost function Measure(lists: seq<seq<EthTx>>, s: System): int {
    SumOver(s.issuers, Weight(lists)) +
    match s.main
    case Launching(_) => |lists| + 1
    case Receiving(r) => |lists| - r
    case Panicked(_) => 0
  }

  lemma {:induction false} MeasureNonNegative(lists: seq<seq<EthTx>>, chain0: EthState, s: System)
    requires Inv(lists, chain0, s)
    ensures 0 <= Measure(lists, s)
  {
    forall i: nat | i < |s.issuers| ensures 0 <= Weight(lists)(i, s.issuers[i]) {
      assert IssuerOk(lists[i], s.issuers[i]);
    }
    SumNonNegative(s.issuers, Weight(lists));
    ReceivedAtMostAll(lists, chain0, s);
  }

  lemma {:induction false} StepLowersMeasure(lists: seq<seq<EthTx>>, s: System, a: Action)
    requires |s.issuers| == |lists| && LaunchedOk(s.main, s.issuers) && Step(lists, s, a).Some?
    ensures Measure(lists, Step(lists, s, a).value) < Measure(lists, s)
  {
    var s' := Step(lists, s, a).value;
    match a
    case Launch =>
      SumOfUpdate(s.issuers, Weight(lists), s.main.next, Running(0));
    case StartReceiving =>
    case Issue(j) =>
      SumOfUpdate(s.issuers, Weight(lists), j, s'.issuers[j]);
    case Return(j) =>
      SumOfUpdate(s.issuers, Weight(lists), j, s'.issuers[j]);
    case Send(j) =>
      SumOfUpdate(s.issuers, Weight(lists), j, s'.issuers[j]);
    case Receive =>
  }

  lemma {:induction false} ReceivedAtMostAll(lists: seq<seq<EthTx>>, chain0: EthState, s: System)
    requires Inv(lists, chain0, s)
    ensures |s.buffer| + Taken(s.main) <= |lists|
  {
    CountBounds(s.issuers, HasSent);
  }

  /** Every run is finite: no schedule takes more steps than the starting measure. */
  lemma {:induction false} RunsAreBounded(lists: seq<seq<EthTx>>, chain0: EthState, s: System, actions: seq<Action>)
    requires Inv(lists, chain0, s) && Exec(lists, s, actions).Some?
    ensures |actions| + Measure(lists, Exec(lists, s, actions).value) <= Measure(lists, s)
    ensures |actions| <= Measure(lists, s)
    decreases |actions|
  {
    if actions != [] {
      StepLowersMeasure(lists, s, actions[0]);
      StepKeepsInv(lists, chain0, s, actions[0]);
      RunsAreBounded(lists, chain0, Step(lists, s, actions[0]).value, actions[1..]);
    }
    ExecKeepsInv(lists, chain0, s, actions);
    MeasureNonNegative(lists, chain0, Exec(lists, s, actions).value);
  }

  // ---------- what joining means ----------

  /** After one nil per list, the channel is empty and every transaction of every list has been taken. */
  lemma {:induction false} JoinIsSound(lists: seq<seq<EthTx>>, chain0: EthState, actions: seq<Action>)
    requires Exec(lists, Init(lists, chain0), actions).Some?
    requires Joined(lists, Exec(lists, Init(lists, chain0), actions).value)
    ensures var s := Exec(lists, Init(lists, chain0), actions).value;
            && s.buffer == []
            && Complete(lists, s.order)
            && Run(chain0, Merge(lists, s.order)) == Some(s.chain)
  {
    InitInv(lists, chain0);
    ExecKeepsInv(lists, chain0, Init(lists, chain0), actions);
    var s := Exec(lists, Init(lists, chain0), actions).value;
    CountBounds(s.issuers, HasSent);
    CountBounds(s.issuers, HasSentFailure);
    assert s.buffer == [];
    forall j | 0 <= j < |lists| ensures multiset(s.order)[j] == |lists[j]| {
      assert HasSent(j, s.issuers[j]) == 1 && HasSentFailure(j, s.issuers[j]) == 0;
      assert IssuerOk(lists[j], s.issuers[j]);
    }
  }

  /** The invariant of funded runs: no issuer has failed. */
  predicate NoFailure(s: System) {
    && !s.main.Panicked?
    && forall j :: 0 <= j < |s.issuers| ==> !(s.issuers[j].Returned? || s.issuers[j].Sent?) || !s.issuers[j].failed
  }

  /** All lists in full are paid for. */
  ghost predicate FullyFunded(chain0: EthState, senders: seq<Sender>) {
    forall i :: 0 <= i < |senders| ==> Affordable(chain0, senders[i], senders[i].numTxs)
  }

  lemma {:induction false} FundedOrderAffordable(chain0: EthState, senders: seq<Sender>, order: seq<nat>)
    requires FullyFunded(chain0, senders) && Valid(Lists(senders), order)
    ensures AllAffordable(chain0, senders, multiset(order))
  {
    forall i | 0 <= i < |senders| ensures Affordable(chain0, senders[i], multiset(order)[i]) {
      if i in order {
        AffordableDownwards(chain0, senders[i], multiset(order)[i], senders[i].numTxs);
      }
    }
  }

  lemma {:induction false} FundedIssueIsTaken(senders: seq<Sender>, chain0: EthState, s: System, j: nat)
    requires Prepared(chain0, senders) && FullyFunded(chain0, senders)
    requires |s.issuers| == |senders| && ChainOk(Lists(senders), chain0, s)
    requires j < |senders| && s.issuers[j].Running? && s.issuers[j].pos < |Lists(senders)[j]|
    ensures Apply(s.chain, Lists(senders)[j][s.issuers[j].pos]).Some?
  {
    IssueExtendsRun(Lists(senders), chain0, s, j);
    FundedOrderAffordable(chain0, senders, s.order + [j]);
    ScheduleTheorem(chain0, senders, s.order + [j]);
  }

  lemma {:induction false} FundedStepDoesNotFail(senders: seq<Sender>, chain0: EthState, s: System, a: Action)
    requires Prepared(chain0, senders) && FullyFunded(chain0, senders)
    requires Inv(Lists(senders), chain0, s) && NoFailure(s) && Step(Lists(senders), s, a).Some?
    ensures NoFailure(Step(Lists(senders), s, a).value)
  {
    if a.Issue? {
      FundedIssueIsTaken(senders, chain0, s, a.j);
    } else if a.Receive? {
      NoFailureInBuffer(s);
    }
  }

  lemma {:induction false} NoFailureInBuffer(s: System)
    requires NoFailure(s) && ChannelOk(s) && s.buffer != []
    ensures !s.buffer[0]
  {
    CountBounds(s.issuers, HasSentFailure);
    CountBounds(s.buffer, IsTrue);
    assert IsTrue(0, s.buffer[0]) == 0;
  }

  lemma {:induction false} FundedRunDoesNotFail(senders: seq<Sender>, chain0: EthState, s: System, actions: seq<Action>)
    requires Prepared(chain0, senders) && FullyFunded(chain0, senders)
    requires Inv(Lists(senders), chain0, s) && NoFailure(s) && Exec(Lists(senders), s, actions).Some?
    ensures NoFailure(Exec(Lists(senders), s, actions).value)
    decreases |actions|
  {
    if actions != [] {
      FundedStepDoesNotFail(senders, chain0, s, actions[0]);
      StepKeepsInv(Lists(senders), chain0, s, actions[0]);
      FundedRunDoesNotFail(senders, chain0, Step(Lists(senders), s, actions[0]).value, actions[1..]);
    }
  }

  /** A run that cannot be continued. */
  ghost predicate Maximal(lists: seq<seq<EthTx>>, s: System) {
    |s.issuers| == |lists| && forall a :: Step(lists, s, a).None?
  }

  /** For prepared accounts: every maximal run joins exactly when every list is paid for in full; then each
      account has advanced by its whole list and paid for exactly that many transfers. */
  lemma {:induction false} MaximalRunsJoin(senders: seq<Sender>, chain0: EthState, actions: seq<Action>)
    requires Prepared(chain0, senders)
    requires Exec(Lists(senders), Init(Lists(senders), chain0), actions).Some?
    requires Maximal(Lists(senders), Exec(Lists(senders), Init(Lists(senders), chain0), actions).value)
    ensures var s := Exec(Lists(senders), Init(Lists(senders), chain0), actions).value;
            && (Joined(Lists(senders), s) <==> FullyFunded(chain0, senders))
            && (!Joined(Lists(senders), s) ==> s.main.Panicked?)
            && (Joined(Lists(senders), s) ==>
                  && Complete(Lists(senders), s.order)
                  && After(chain0, senders, multiset(s.order), |s.order|, s.chain))
  {
    var lists := Lists(senders);
    var s0 := Init(lists, chain0);
    var s := Exec(lists, s0, actions).value;
    InitInv(lists, chain0);
    ExecKeepsInv(lists, chain0, s0, actions);
    if !Final(lists, s) {
      var a := NeverDeadlocked(lists, chain0, s);
      assert false;
    }
    if FullyFunded(chain0, senders) {
      FundedRunDoesNotFail(senders, chain0, s0, actions);
    }
    if Joined(lists, s) {
      JoinIsSound(lists, chain0, actions);
      ScheduleTheorem(chain0, senders, s.order);
      forall i | 0 <= i < |senders| ensures Affordable(chain0, senders[i], senders[i].numTxs) {
        assert multiset(s.order)[i] == senders[i].numTxs;
      }
    }
  }

  /** The setup loop: one list from nonce 0 per generated key, sent to that key's own address. */
  method BuildTxLists(keys: seq<Address>, numTxs: nat) returns (txLists: seq<seq<EthTx>>)
    ensures txLists == Lists(SendersOf(keys, numTxs))
  {
    txLists := [];
    for i := 0 to |keys|
      invariant |txLists| == i
      invariant forall j :: 0 <= j < i ==> txLists[j] == NonceChain(keys[j], keys[j], 0, numTxs)
    {
      var txs := CreateConsecutiveBasicEthTransactions(keys[i], keys[i], 0, numTxs);
      txLists := txLists + [txs];
    }
  }

  function SendersOf(keys: seq<Address>, numTxs: nat): (senders: seq<Sender>)
    ensures |senders| == |keys|
  {
    seq(|keys|, i requires 0 <= i < |keys| => Sender(keys[i], 0, numTxs))
  }

  /** Confirms the lists one by one and stops at the first transaction without a receipt. */
  method ConfirmAll(receipts: set<EthTx>, txLists: seq<seq<EthTx>>) returns (ok: bool)
    ensures ok <==> forall i, tx :: 0 <= i < |txLists| && tx in txLists[i] ==> tx in receipts
  {
    for i := 0 to |txLists|
      invariant forall j, tx :: 0 <= j < i && tx in txLists[j] ==> tx in receipts
    {
      var confirmed := ConfirmTxList(receipts, txLists[i]);
      if !confirmed {
        return false;
      }
    }
    ok := true;
  }

  /** Once joined, a node that has a receipt for every transaction the chain took confirms all lists. */
  lemma {:induction false} JoinedRunIsConfirmed(lists: seq<seq<EthTx>>, chain0: EthState, actions: seq<Action>,
                                                receipts: set<EthTx>)
    requires Exec(lists, Init(lists, chain0), actions).Some?
    requires Joined(lists, Exec(lists, Init(lists, chain0), actions).value)
    ensures var s := Exec(lists, Init(lists, chain0), actions).value;
            && Valid(lists, s.order)
            && ((forall tx :: tx in Merge(lists, s.order) ==> tx in receipts) ==>
                  forall i, tx :: 0 <= i < |lists| && tx in lists[i] ==> tx in receipts)
  {
    JoinIsSound(lists, chain0, actions);
    var s := Exec(lists, Init(lists, chain0), actions).value;
    forall i, tx | 0 <= i < |lists| && tx in lists[i] ensures tx in Merge(lists, s.order) {
      CompleteMergeHasAll(lists, s.order, i);
    }
  }
}
