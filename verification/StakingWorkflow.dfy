/** The staking workflow test: X and P accounts, validators and delegations, with a zero transaction fee. */
module StakingWorkflow {
  import opened Options
  import opened MapSums

  type Address = string
  type NodeID = string

  datatype Parcel = Parcel(owner: Address, amount: nat)

  /** Balances on both chains, exports in flight to each, what is locked as stake, and who validates. */
  datatype State = State(x: map<Address, nat>, p: map<Address, nat>, toP: seq<Parcel>, toX: seq<Parcel>, staked: nat,
                         validators: set<NodeID>)

  function Balance(m: map<Address, nat>, a: Address): nat {
    if a in m then m[a] else 0
  }

  function Put(m: map<Address, nat>, a: Address, amount: nat): map<Address, nat> {
    m[a := amount]
  }

  function InFlight(parcels: seq<Parcel>): nat {
    if parcels == [] then 0 else InFlight(parcels[..|parcels| - 1]) + parcels[|parcels| - 1].amount
  }

  function Owned(parcels: seq<Parcel>, owner: Address): nat {
    if parcels == [] then 0
    else
      var last := parcels[|parcels| - 1];
      Owned(parcels[..|parcels| - 1], owner) + (if last.owner == owner then last.amount else 0)
  }

  function NotOwned(parcels: seq<Parcel>, owner: Address): seq<Parcel> {
    if parcels == [] then []
    else
      var last := parcels[|parcels| - 1];
      NotOwned(parcels[..|parcels| - 1], owner) + (if last.owner == owner then [] else [last])
  }

  function Moved(m: map<Address, nat>, source: Address, target: Address, amount: nat): map<Address, nat>
    requires amount <= Balance(m, source)
  {
    var charged := Put(m, source, Balance(m, source) - amount);
    Put(charged, target, Balance(charged, target) + amount)
  }

  // ---------- operations ----------

  datatype Op =
    | Send(source: Address, target: Address, amount: nat)
    | ExportToP(source: Address, owner: Address, amount: nat)
    | ImportToP(owner: Address)
    | ExportToX(source: Address, owner: Address, amount: nat)
    | ImportToX(owner: Address)
    | AddValidator(source: Address, node: NodeID, amount: nat)
    | AddDelegator(source: Address, node: NodeID, amount: nat)

  function Do(s: State, op: Op): Option<State> {
    match op
    case Send(source, target, amount) =>
      if Balance(s.x, source) < amount then None
      else Some(s.(x := Moved(s.x, source, target, amount)))
    case ExportToP(source, owner, amount) =>
      if Balance(s.x, source) < amount then None
      else Some(s.(x := Put(s.x, source, Balance(s.x, source) - amount), toP := s.toP + [Parcel(owner, amount)]))
    case ImportToP(owner) =>
      if NotOwned(s.toP, owner) == s.toP then None
      else Some(s.(p := Put(s.p, owner, Balance(s.p, owner) + Owned(s.toP, owner)), toP := NotOwned(s.toP, owner)))
    case ExportToX(source, owner, amount) =>
      if Balance(s.p, source) < amount then None
      else Some(s.(p := Put(s.p, source, Balance(s.p, source) - amount), toX := s.toX + [Parcel(owner, amount)]))
    case ImportToX(owner) =>
      if NotOwned(s.toX, owner) == s.toX then None
      else Some(s.(x := Put(s.x, owner, Balance(s.x, owner) + Owned(s.toX, owner)), toX := NotOwned(s.toX, owner)))
    case AddValidator(source, node, amount) =>
      if Balance(s.p, source) < amount || node in s.validators then None
      else Some(s.(p := Put(s.p, source, Balance(s.p, source) - amount), staked := s.staked + amount,
                   validators := s.validators + {node}))
    case AddDelegator(source, node, amount) =>
      if Balance(s.p, source) < amount || node !in s.validators then None
      else Some(s.(p := Put(s.p, source, Balance(s.p, source) - amount), staked := s.staked + amount))
  }

  /** All AVAX: on either chain, in flight, or locked. */
  ghost function Value(s: State): nat {
    Sum(s.x) + Sum(s.p) + InFlight(s.toP) + InFlight(s.toX) + s.staked
  }

  lemma {:induction false} PutChangesSum(m: map<Address, nat>, a: Address, amount: nat)
    ensures Sum(Put(m, a, amount)) == Sum(m) - Balance(m, a) + amount
  {
    SumUpdate(m, a, amount);
    if a in m {
      SumSplit(m, a);
    } else {
      assert m - {a} == m;
    }
  }

  lemma {:induction false} ParcelAdded(parcels: seq<Parcel>, p: Parcel)
    ensures InFlight(parcels + [p]) == InFlight(parcels) + p.amount
  {
    assert (parcels + [p])[..|parcels|] == parcels;
  }

  lemma {:induction false} ParcelsSplit(parcels: seq<Parcel>, owner: Address)
    ensures InFlight(parcels) == InFlight(NotOwned(parcels, owner)) + Owned(parcels, owner)
  {
    if parcels != [] {
      var rest, last := parcels[..|parcels| - 1], parcels[|parcels| - 1];
      ParcelsSplit(rest, owner);
      if last.owner != owner {
        ParcelAdded(NotOwned(rest, owner), last);
        assert NotOwned(parcels, owner) == NotOwned(rest, owner) + [last];
      } else {
        assert NotOwned(parcels, owner) == NotOwned(rest, owner);
      }
    }
  }

  lemma {:induction false} MoveKeepsSum(m: map<Address, nat>, source: Address, target: Address, amount: nat)
    requires amount <= Balance(m, source)
    ensures Sum(Moved(m, source, target, amount)) == Sum(m)
  {
    var charged := Put(m, source, Balance(m, source) - amount);
    PutChangesSum(m, source, Balance(m, source) - amount);
    PutChangesSum(charged, target, Balance(charged, target) + amount);
  }

  lemma {:induction false} SendConserves(s: State, s': State, op: Op)
    requires op.Send? && Do(s, op) == Some(s')
    ensures Value(s') == Value(s)
  {
    MoveKeepsSum(s.x, op.source, op.target, op.amount);
  }

  lemma {:induction false} ExportConserves(source: nat, m: map<Address, nat>, a: Address, parcels: seq<Parcel>,
                                           parcel: Parcel)
    requires source == Balance(m, a) && parcel.amount <= source
    ensures Sum(Put(m, a, source - parcel.amount)) + InFlight(parcels + [parcel]) == Sum(m) + InFlight(parcels)
  {
    PutChangesSum(m, a, source - parcel.amount);
    ParcelAdded(parcels, parcel);
  }

  lemma {:induction false} ImportConserves(m: map<Address, nat>, owner: Address, parcels: seq<Parcel>)
    ensures Sum(Put(m, owner, Balance(m, owner) + Owned(parcels, owner))) + InFlight(NotOwned(parcels, owner)) ==
            Sum(m) + InFlight(parcels)
  {
    PutChangesSum(m, owner, Balance(m, owner) + Owned(parcels, owner));
    ParcelsSplit(parcels, owner);
  }

  lemma {:induction false} ExportToPConserves(s: State, s': State, op: Op)
    requires op.ExportToP? && Do(s, op) == Some(s')
    ensures Value(s') == Value(s)
  {
    ExportConserves(Balance(s.x, op.source), s.x, op.source, s.toP, Parcel(op.owner, op.amount));
  }

  lemma {:induction false} ExportToXConserves(s: State, s': State, op: Op)
    requires op.ExportToX? && Do(s, op) == Some(s')
    ensures Value(s') == Value(s)
  {
    ExportConserves(Balance(s.p, op.source), s.p, op.source, s.toX, Parcel(op.owner, op.amount));
  }

  lemma {:induction false} ImportToPConserves(s: State, s': State, op: Op)
    requires op.ImportToP? && Do(s, op) == Some(s')
    ensures Value(s') == Value(s)
  {
    ImportConserves(s.p, op.owner, s.toP);
  }

  lemma {:induction false} ImportToXConserves(s: State, s': State, op: Op)
    requires op.ImportToX? && Do(s, op) == Some(s')
    ensures Value(s') == Value(s)
  {
    ImportConserves(s.x, op.owner, s.toX);
  }

  lemma {:induction false} StakingConserves(s: State, s': State, op: Op)
    requires (op.AddValidator? || op.AddDelegator?) && Do(s, op) == Some(s')
    ensures Value(s') == Value(s)
  {
    PutChangesSum(s.p, op.source, Balance(s.p, op.source) - op.amount);
  }

  /** No operation creates or loses AVAX. */
  lemma {:induction false} OpConserves(s: State, op: Op)
    requires Do(s, op).Some?
    ensures Value(Do(s, op).value) == Value(s)
  {
    var s' := Do(s, op).value;
    match op
    case Send(_, _, _) => SendConserves(s, s', op);
    case ExportToP(_, _, _) => ExportToPConserves(s, s', op);
    case ExportToX(_, _, _) => ExportToXConserves(s, s', op);
    case ImportToP(_) => ImportToPConserves(s, s', op);
    case ImportToX(_) => ImportToXConserves(s, s', op);
    case AddValidator(_, _, _) => StakingConserves(s, s', op);
    case AddDelegator(_, _, _) => StakingConserves(s, s', op);
  }

  /** Operations in order; one that fails leaves the state and ends the run. */
  function DoAll(s: State, ops: seq<Op>): Option<State>
    decreases |ops|
  {
    if ops == [] then Some(s)
    else
      match Do(s, ops[0])
      case None => None
      case Some(next) => DoAll(next, ops[1..])
  }

  lemma {:induction false} RunConserves(s: State, ops: seq<Op>)
    requires DoAll(s, ops).Some?
    ensures Value(DoAll(s, ops).value) == Value(s)
    decreases |ops|
  {
    if ops != [] {
      OpConserves(s, ops[0]);
      RunConserves(Do(s, ops[0]).value, ops[1..]);
    }
  }

  // ---------- workflow steps ----------

  /** Export and import with nothing else in flight: the amount moves from one chain to the other. */
  method TransferXToP(s: State, source: Address, owner: Address, amount: nat) returns (ok: bool, s': State)
    requires s.toP == []
    ensures ok <==> amount <= Balance(s.x, source)
    ensures ok ==>
              s' == s.(x := Put(s.x, source, Balance(s.x, source) - amount),
                       p := Put(s.p, owner, Balance(s.p, owner) + amount))
    ensures !ok ==> s' == s
    ensures Value(s') == Value(s)
  {
    s' := s;
    var exported := Do(s, ExportToP(source, owner, amount));
    if exported.None? {
      return false, s;
    }
    OpConserves(s, ExportToP(source, owner, amount));
    var imported := Do(exported.value, ImportToP(owner));
    SingleParcel(Parcel(owner, amount));
    if imported.None? {
      return false, s;
    }
    OpConserves(exported.value, ImportToP(owner));
    ok, s' := true, imported.value;
  }

  method TransferPToX(s: State, source: Address, owner: Address, amount: nat) returns (ok: bool, s': State)
    requires s.toX == []
    ensures ok <==> amount <= Balance(s.p, source)
    ensures ok ==>
              s' == s.(p := Put(s.p, source, Balance(s.p, source) - amount),
                       x := Put(s.x, owner, Balance(s.x, owner) + amount))
    ensures !ok ==> s' == s
    ensures Value(s') == Value(s)
  {
    s' := s;
    var exported := Do(s, ExportToX(source, owner, amount));
    if exported.None? {
      return false, s;
    }
    OpConserves(s, ExportToX(source, owner, amount));
    var imported := Do(exported.value, ImportToX(owner));
    SingleParcel(Parcel(owner, amount));
    if imported.None? {
      return false, s;
    }
    OpConserves(exported.value, ImportToX(owner));
    ok, s' := true, imported.value;
  }

  lemma {:induction false} SingleParcel(p: Parcel)
    ensures [] + [p] == [p]
    ensures Owned([p], p.owner) == p.amount && NotOwned([p], p.owner) == [] && InFlight([p]) == p.amount
  {
    assert [p][..0] == [];
  }

  /** The state after `source` has sent `amount` to each of the first `k` addresses. */
  function Funded(s: State, source: Address, addresses: seq<Address>, amount: nat, k: nat): Option<State>
    requires k <= |addresses|
  {
    if k == 0 then Some(s)
    else
      match Funded(s, source, addresses, amount, k - 1)
      case None => None
      case Some(before) => Do(before, Send(source, addresses[k - 1], amount))
  }

  method FundXChainAddresses(s: State, source: Address, addresses: seq<Address>, amount: nat)
    returns (ok: bool, s': State, ghost sent: nat)
    ensures sent <= |addresses| && Funded(s, source, addresses, amount, sent) == Some(s')
    ensures ok <==> sent == |addresses|
    ensures !ok ==> Balance(s'.x, source) < amount
    ensures !ok ==> Funded(s, source, addresses, amount, |addresses|).None?
    ensures Value(s') == Value(s)
  {
    s' := s;
    for i := 0 to |addresses|
      invariant Funded(s, source, addresses, amount, i) == Some(s')
      invariant Value(s') == Value(s)
    {
      var next := Do(s', Send(source, addresses[i], amount));
      if next.None? {
        RefusedStaysRefused(s, source, addresses, amount, i + 1, |addresses|);
        return false, s', i;
      }
      OpConserves(s', Send(source, addresses[i], amount));
      s' := next.value;
    }
    ok, sent := true, |addresses|;
  }

  lemma {:induction false} RefusedStaysRefused(s: State, source: Address, addresses: seq<Address>, amount: nat, j: nat,
                                               k: nat)
    requires j <= k <= |addresses| && Funded(s, source, addresses, amount, j).None?
    ensures Funded(s, source, addresses, amount, k).None?
  {
    if j < k {
      RefusedStaysRefused(s, source, addresses, amount, j, k - 1);
    }
  }

  /** Funding distinct other addresses succeeds exactly when the source can pay for all; each gets `amount`. */
  lemma {:induction false} FundingMeaning(s: State, source: Address, addresses: seq<Address>, amount: nat, k: nat)
    requires k <= |addresses|
    requires forall i :: 0 <= i < |addresses| ==> addresses[i] != source
    requires forall i, j :: 0 <= i < j < |addresses| ==> addresses[i] != addresses[j]
    ensures Funded(s, source, addresses, amount, k).Some? <==> k * amount <= Balance(s.x, source)
    ensures Funded(s, source, addresses, amount, k).Some? ==>
              var s' := Funded(s, source, addresses, amount, k).value;
              && Balance(s'.x, source) == Balance(s.x, source) - k * amount
              && s' == s.(x := s'.x)
              && (forall i :: 0 <= i < |addresses| ==>
                    Balance(s'.x, addresses[i]) == Balance(s.x, addresses[i]) + (if i < k then amount else 0))
  {
    if k > 0 {
      FundingMeaning(s, source, addresses, amount, k - 1);
      assert k * amount == (k - 1) * amount + amount;
    }
  }

  // ---------- the test ----------

  datatype Check =
    | StakerFunded | DelegatorFunded | StakerMoved | StakerJoined | DelegatorMoved | DelegatorJoined
    | StakerReturned | DelegatorPEmpty | DelegatorReturned

  datatype Outcome =
    | Passed
    | FundingFailed
    | XToPFailed(delegator: bool)
    | ValidatorFailed
    | DelegatorFailed
    | PToXFailed(delegator: bool)
    | CheckFailed(check: Check)

  datatype Wallets = Wallets(genesis: Address, stakerX: Address, stakerP: Address, delegatorX: Address,
                             delegatorP: Address, stakerNode: NodeID)

  /** New wallets beside the genesis account, nothing in flight, and the five genesis validators. */
  ghost predicate Fresh(s: State, w: Wallets) {
    && w.stakerX != w.delegatorX && w.stakerX != w.genesis && w.delegatorX != w.genesis && w.stakerP != w.delegatorP
    && Balance(s.x, w.stakerX) == 0 && Balance(s.x, w.delegatorX) == 0
    && Balance(s.p, w.stakerP) == 0 && Balance(s.p, w.delegatorP) == 0
    && s.toP == [] && s.toX == []
    && w.stakerNode !in s.validators && |s.validators| == 5
  }

  /** What each participant holds, with nothing in flight. */
  ghost predicate Holds(s: State, w: Wallets, stakerX: int, stakerP: int, delegatorX: int, delegatorP: int) {
    && Balance(s.x, w.stakerX) == stakerX && Balance(s.p, w.stakerP) == stakerP
    && Balance(s.x, w.delegatorX) == delegatorX && Balance(s.p, w.delegatorP) == delegatorP
    && s.toP == [] && s.toX == []
  }

  method FundingPhase(s0: State, w: Wallets, seed: nat) returns (outcome: Outcome, s: State)
    requires Fresh(s0, w)
    ensures outcome.Passed? <==> 2 * seed <= Balance(s0.x, w.genesis)
    ensures !outcome.Passed? ==> outcome == FundingFailed
    ensures outcome.Passed? ==> Holds(s, w, seed, 0, seed, 0) && s == s0.(x := s.x)
    ensures !outcome.Passed? ==>
              Holds(s, w, if seed <= Balance(s0.x, w.genesis) then seed else 0, 0, 0, 0) && s == s0.(x := s.x)
    ensures Value(s) == Value(s0)
  {
    var ok;
    ghost var sent;
    var addresses := [w.stakerX, w.delegatorX];
    FundingMeaning(s0, w.genesis, addresses, seed, 1);
    FundingMeaning(s0, w.genesis, addresses, seed, 2);
    ok, s, sent := FundXChainAddresses(s0, w.genesis, addresses, seed);
    if !ok {
      return FundingFailed, s;
    }
    assert addresses[0] == w.stakerX && addresses[1] == w.delegatorX;
    if Balance(s.x, w.stakerX) != seed {
      return CheckFailed(StakerFunded), s;
    }
    if Balance(s.x, w.delegatorX) != seed {
      return CheckFailed(DelegatorFunded), s;
    }
    outcome := Passed;
  }

  method ValidatorPhase(s0: State, w: Wallets, seed: nat, stake: nat) returns (outcome: Outcome, s: State)
    requires w.stakerX != w.delegatorX && w.stakerP != w.delegatorP && stake <= seed
    requires Holds(s0, w, seed, 0, seed, 0) && w.stakerNode !in s0.validators && |s0.validators| == 5
    ensures outcome.Passed? && Holds(s, w, 0, seed - stake, seed, 0)
    ensures s.staked == s0.staked + stake && s.validators == s0.validators + {w.stakerNode}
    ensures Value(s) == Value(s0)
  {
    var ok;
    ok, s := TransferXToP(s0, w.stakerX, w.stakerP, seed);
    if !ok {
      return XToPFailed(false), s;
    }
    if Balance(s.p, w.stakerP) != seed || Balance(s.x, w.stakerX) != 0 {
      return CheckFailed(StakerMoved), s;
    }
    OpConservesIfDone(s, AddValidator(w.stakerP, w.stakerNode, stake));
    var validating := Do(s, AddValidator(w.stakerP, w.stakerNode, stake));
    if validating.None? {
      return ValidatorFailed, s;
    }
    s := validating.value;
    var expectedNumStakers := 6;
    if |s.validators| != expectedNumStakers || Balance(s.p, w.stakerP) != seed - stake {
      return CheckFailed(StakerJoined), s;
    }
    outcome := Passed;
  }

  method DelegatorPhase(s0: State, w: Wallets, seed: nat, delegation: nat, stakerP: nat)
    returns (outcome: Outcome, s: State)
    requires w.stakerX != w.delegatorX && w.stakerP != w.delegatorP && delegation <= seed
    requires Holds(s0, w, 0, stakerP, seed, 0) && w.stakerNode in s0.validators
    ensures outcome.Passed? && Holds(s, w, 0, stakerP, 0, seed - delegation)
    ensures s.staked == s0.staked + delegation && s.validators == s0.validators
    ensures Value(s) == Value(s0)
  {
    var ok;
    ok, s := TransferXToP(s0, w.delegatorX, w.delegatorP, seed);
    if !ok {
      return XToPFailed(true), s;
    }
    if Balance(s.p, w.delegatorP) != seed || Balance(s.x, w.delegatorX) != 0 {
      return CheckFailed(DelegatorMoved), s;
    }
    OpConservesIfDone(s, AddDelegator(w.delegatorP, w.stakerNode, delegation));
    var delegating := Do(s, AddDelegator(w.delegatorP, w.stakerNode, delegation));
    if delegating.None? {
      return DelegatorFailed, s;
    }
    s := delegating.value;
    if Balance(s.p, w.delegatorP) != seed - delegation {
      return CheckFailed(DelegatorJoined), s;
    }
    outcome := Passed;
  }

  lemma {:induction false} OpConservesIfDone(s: State, op: Op)
    ensures Do(s, op).Some? ==> Value(Do(s, op).value) == Value(s)
  {
    if Do(s, op).Some? {
      OpConserves(s, op);
    }
  }

  /** For every seed that covers stake and delegation, all staker steps succeed; the delegator's final
      transfer moves the staker's remainder, so the run passes exactly when delegation and stake are equal. */
  method ExecuteTest(s0: State, w: Wallets, seed: nat, stake: nat, delegation: nat) returns (outcome: Outcome, s: State)
    requires Fresh(s0, w) && stake <= seed && delegation <= seed
    ensures outcome.Passed? <==> 2 * seed <= Balance(s0.x, w.genesis) && delegation == stake
    ensures outcome == FundingFailed <==> Balance(s0.x, w.genesis) < 2 * seed
    ensures outcome == FundingFailed ==> Holds(s, w, if seed <= Balance(s0.x, w.genesis) then seed else 0, 0, 0, 0)
    ensures outcome == PToXFailed(true) ==> Holds(s, w, seed - stake, 0, 0, seed - delegation)
    ensures outcome == CheckFailed(DelegatorPEmpty) ==> Holds(s, w, seed - stake, 0, seed - stake, stake - delegation)
    ensures outcome != FundingFailed ==> s.staked == s0.staked + stake + delegation
    ensures outcome == PToXFailed(true) <==> 2 * seed <= Balance(s0.x, w.genesis) && stake < delegation
    ensures outcome == CheckFailed(DelegatorPEmpty) <==> 2 * seed <= Balance(s0.x, w.genesis) && delegation < stake
    ensures outcome.Passed? ==>
              Holds(s, w, seed - stake, 0, seed - delegation, 0) && s.staked == s0.staked + stake + delegation
    ensures Value(s) == Value(s0)
  {
    outcome, s := FundingPhase(s0, w, seed);
    if !outcome.Passed? {
      return;
    }
    outcome, s := ValidatorPhase(s, w, seed, stake);
    outcome, s := DelegatorPhase(s, w, seed, delegation, seed - stake);
    var expectedStakerBalance := seed - stake;
    var expectedDelegatorBalance := seed - delegation;
    var ok;
    ok, s := TransferPToX(s, w.stakerP, w.stakerX, expectedStakerBalance);
    if !ok {
      return PToXFailed(false), s;
    }
    if Balance(s.p, w.stakerP) != 0 || Balance(s.x, w.stakerX) != expectedStakerBalance {
      return CheckFailed(StakerReturned), s;
    }
    ok, s := TransferPToX(s, w.delegatorP, w.delegatorX, expectedStakerBalance);
    if !ok {
      return PToXFailed(true), s;
    }
    if Balance(s.p, w.delegatorP) != 0 {
      return CheckFailed(DelegatorPEmpty), s;
    }
    if Balance(s.x, w.delegatorX) != expectedDelegatorBalance {
      return CheckFailed(DelegatorReturned), s;
    }
    outcome := Passed;
  }
}
