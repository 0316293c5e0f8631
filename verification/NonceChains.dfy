/** The C-Chain generator of consecutive self-transfers, and any interleaving of several such lists. */
module NonceChains {
  import opened MachineInts
  import opened Options
  import opened EthLedger
  import opened Schedules

  /** What one transfer of the generator costs its sender: 21000 gas at 470 GWei. */
  const TRANSFER_COST: nat := 9_870_000_000_000_000

  function BasicTx(key: Address, payee: Address, nonce: uint64): EthTx {
    EthTx(key, nonce, payee, 1, TRANSFER_GAS, GAS_PRICE)
  }

  function NonceChain(key: Address, payee: Address, start: uint64, numTxs: nat): (txs: seq<EthTx>)
    ensures |txs| == numTxs
    ensures forall i :: 0 <= i < numTxs ==> txs[i] == BasicTx(key, payee, Wrap(i + start))
  {
    seq(numTxs, i requires 0 <= i < numTxs => BasicTx(key, payee, Wrap(i + start)))
  }

  method CreateConsecutiveBasicEthTransactions(key: Address, addr: Address, startingNonce: uint64, numTxs: nat)
    returns (txs: seq<EthTx>)
    ensures txs == NonceChain(key, addr, startingNonce, numTxs)
    ensures |txs| == numTxs
    ensures forall i :: 0 <= i < numTxs ==>
              txs[i] == EthTx(key, Wrap(i + startingNonce), addr, 1, 21_000, 470_000_000_000)
  {
    var placeholder := BasicTx(key, addr, 0);
    var list := new EthTx[numTxs](_ => placeholder);
    for i := 0 to numTxs
      invariant list[..i] == NonceChain(key, addr, startingNonce, numTxs)[..i]
    {
      var nonce := Wrap(i + startingNonce);
      list[i] := BasicTx(key, addr, nonce);
      assert list[..i + 1] == list[..i] + [list[i]];
    }
    assert list[..] == list[..numTxs];
    txs := list[..];
  }

  /** Sends each transaction in order and stops at the first one that is not taken. */
  method IssueTxList(s: EthState, txs: seq<EthTx>) returns (ok: bool, s': EthState, ghost issued: nat)
    ensures issued <= |txs| && Run(s, txs[..issued]) == Some(s')
    ensures ok <==> issued == |txs|
    ensures ok ==> Run(s, txs) == Some(s')
    ensures !ok ==> !Accepts(s', txs[issued]) && Run(s, txs).None?
  {
    s' := s;
    for i := 0 to |txs|
      invariant Run(s, txs[..i]) == Some(s')
    {
      RunSnoc(s, txs[..i], txs[i]);
      assert txs[..i + 1] == txs[..i] + [txs[i]];
      var next := Apply(s', txs[i]);
      if next.None? {
        ok, issued := false, i;
        assert txs == txs[..i + 1] + txs[i + 1..];
        RunConcat(s, txs[..i + 1], txs[i + 1..]);
        return;
      }
      s' := next.value;
    }
    assert txs[..|txs|] == txs;
    ok, issued := true, |txs|;
  }

  /** Succeeds exactly when the node has a receipt for every transaction. */
  method ConfirmTxList(receipts: set<EthTx>, txs: seq<EthTx>) returns (ok: bool)
    ensures ok <==> forall tx :: tx in txs ==> tx in receipts
  {
    for i := 0 to |txs|
      invariant forall j :: 0 <= j < i ==> txs[j] in receipts
    {
      if txs[i] !in receipts {
        return false;
      }
    }
    ok := true;
  }

  // ---------- interleavings of self-sending accounts ----------

  datatype Sender = Sender(key: Address, start: uint64, numTxs: nat)

  function Lists(senders: seq<Sender>): (lists: seq<seq<EthTx>>)
    ensures |lists| == |senders|
    ensures forall i :: 0 <= i < |senders| ==>
              lists[i] == NonceChain(senders[i].key, senders[i].key, senders[i].start, senders[i].numTxs)
  {
    seq(|senders|, i requires 0 <= i < |senders| =>
      NonceChain(senders[i].key, senders[i].key, senders[i].start, senders[i].numTxs))
  }

  /** Distinct existing accounts, each at the nonce its list starts from. */
  ghost predicate Prepared(s0: EthState, senders: seq<Sender>) {
    && (forall i :: 0 <= i < |senders| ==>
          senders[i].key in s0.accounts && s0.accounts[senders[i].key].nonce == senders[i].start)
    && (forall i, j :: 0 <= i < j < |senders| ==> senders[i].key != senders[j].key)
  }

  /** The nonces do not run past 2^64 and the balance covers `k` transfers and the 1 wei the last one moves. */
  predicate Affordable(s0: EthState, sender: Sender, k: nat) {
    k == 0 || (sender.start + k <= TWO_64 && k * TRANSFER_COST + 1 <= s0.At(sender.key).balance)
  }

  ghost predicate AllAffordable(s0: EthState, senders: seq<Sender>, sent: multiset<nat>) {
    forall i :: 0 <= i < |senders| ==> Affordable(s0, senders[i], sent[i])
  }

  /** `s` is `s0` after `sent[i]` transfers of sender `i`, `n` in all. */
  ghost predicate After(s0: EthState, senders: seq<Sender>, sent: multiset<nat>, n: nat, s: EthState) {
    && s.accounts.Keys == s0.accounts.Keys
    && s.fees == s0.fees + n * TRANSFER_COST
    && (forall a :: a in s0.accounts && (forall i :: 0 <= i < |senders| ==> senders[i].key != a) ==>
        s.accounts[a] == s0.accounts[a])
    && (forall i :: 0 <= i < |senders| ==>
          && senders[i].key in s0.accounts
          && s.At(senders[i].key).nonce == senders[i].start + sent[i]
          && s.At(senders[i].key).balance == s0.At(senders[i].key).balance - sent[i] * TRANSFER_COST)
  }

  lemma {:induction false} SelfTransfer(s: EthState, key: Address, nonce: uint64)
    ensures Accepts(s, BasicTx(key, key, nonce)) <==> nonce == s.At(key).nonce && TRANSFER_COST + 1 <= s.At(key).balance
    ensures Accepts(s, BasicTx(key, key, nonce)) ==>
              Apply(s, BasicTx(key, key, nonce)) ==
              Some(EthState(s.accounts[key := Account(s.At(key).nonce + 1, s.At(key).balance - TRANSFER_COST)],
                            s.fees + TRANSFER_COST))
  {
    assert TRANSFER_GAS * GAS_PRICE == TRANSFER_COST;
    if Accepts(s, BasicTx(key, key, nonce)) {
      var left, after := s.At(key).balance - TRANSFER_COST - 1,
        Account(s.At(key).nonce + 1, s.At(key).balance - TRANSFER_COST);
      assert s.accounts[key := Account(s.At(key).nonce + 1, left)][key := after] == s.accounts[key := after];
    }
  }

  lemma {:induction false} OneMoreCost(k: nat)
    ensures (k + 1) * TRANSFER_COST == k * TRANSFER_COST + TRANSFER_COST
  {
  }

  lemma {:induction false} EnoughForOneMore(before: nat, now: nat, k: nat)
    requires now == before - k * TRANSFER_COST
    ensures TRANSFER_COST + 1 <= now <==> (k + 1) * TRANSFER_COST + 1 <= before
  {
    OneMoreCost(k);
  }

  lemma {:induction false} StepAccepted(s0: EthState, senders: seq<Sender>, sent: multiset<nat>, n: nat, s: EthState,
                                        i: nat)
    requires Prepared(s0, senders) && After(s0, senders, sent, n, s)
    requires i < |senders| && sent[i] < senders[i].numTxs && Affordable(s0, senders[i], sent[i])
    ensures Accepts(s, Lists(senders)[i][sent[i]]) <==> Affordable(s0, senders[i], sent[i] + 1)
  {
    var key, k := senders[i].key, sent[i];
    var nonce := Wrap(k + senders[i].start);
    SelfTransfer(s, key, nonce);
    WrapOfExact(k + senders[i].start);
    EnoughForOneMore(s0.At(key).balance, s.At(key).balance, k);
  }

  /** The account, nonce and fee changes of the next transfer of sender `i`. */
  lemma {:induction false} AppliedStep(s0: EthState, senders: seq<Sender>, sent: multiset<nat>, n: nat, s: EthState,
                                       s': EthState, i: nat)
    requires Prepared(s0, senders) && After(s0, senders, sent, n, s)
    requires i < |senders| && sent[i] < senders[i].numTxs
    requires Apply(s, Lists(senders)[i][sent[i]]) == Some(s')
    ensures s'.fees == s.fees + TRANSFER_COST
    ensures s'.accounts.Keys == s.accounts.Keys && senders[i].key in s.accounts
    ensures forall a :: a in s.accounts && a != senders[i].key ==> s'.accounts[a] == s.accounts[a]
    ensures s'.At(senders[i].key).nonce == s.At(senders[i].key).nonce + 1
    ensures s'.At(senders[i].key).balance == s.At(senders[i].key).balance - TRANSFER_COST
  {
    SelfTransfer(s, senders[i].key, Wrap(sent[i] + senders[i].start));
  }

  lemma {:induction false} StepMovesOneSender(s0: EthState, senders: seq<Sender>, sent: multiset<nat>,
                                              sent': multiset<nat>, n: nat, s: EthState, s': EthState, i: nat)
    requires Prepared(s0, senders) && After(s0, senders, sent, n, s)
    requires i < |senders| && sent[i] < senders[i].numTxs && sent' == sent + multiset{i}
    requires Apply(s, Lists(senders)[i][sent[i]]) == Some(s')
    ensures After(s0, senders, sent', n + 1, s')
  {
    AppliedStep(s0, senders, sent, n, s, s', i);
    OneMoreCost(sent[i]);
    OneMoreCost(n);
    forall j | 0 <= j < |senders|
      ensures senders[j].key in s0.accounts
      ensures s'.At(senders[j].key).nonce == senders[j].start + sent'[j]
      ensures s'.At(senders[j].key).balance == s0.At(senders[j].key).balance - sent'[j] * TRANSFER_COST
    {
      OneMoreSent(sent, sent', i, j);
    }
  }

  lemma {:induction false} AffordableDownwards(s0: EthState, sender: Sender, j: nat, k: nat)
    requires j <= k && Affordable(s0, sender, k)
    ensures Affordable(s0, sender, j)
  {
    ScaleMonotone(j, k, TRANSFER_COST);
  }

  /** What a run looks like when `sent[i]` transfers of sender `i` have been issued, `n` in all. */
  ghost predicate Outcome(s0: EthState, senders: seq<Sender>, sent: multiset<nat>, n: nat, r: Option<EthState>) {
    && (r.Some? <==> AllAffordable(s0, senders, sent))
    && (r.Some? ==> After(s0, senders, sent, n, r.value))
  }

  lemma {:induction false} OneMoreSent(sent: multiset<nat>, sent': multiset<nat>, i: nat, j: nat)
    requires sent' == sent + multiset{i}
    ensures sent'[j] == sent[j] + (if i == j then 1 else 0)
  {
  }

  lemma {:induction false} AllAffordableStep(s0: EthState, senders: seq<Sender>, sent: multiset<nat>,
                                             sent': multiset<nat>, i: nat)
    requires i < |senders| && sent' == sent + multiset{i}
    ensures AllAffordable(s0, senders, sent') <==>
              AllAffordable(s0, senders, sent) && Affordable(s0, senders[i], sent[i] + 1)
  {
    forall j | 0 <= j < |senders|
      ensures sent'[j] == sent[j] + (if i == j then 1 else 0)
      ensures Affordable(s0, senders[j], sent'[j]) ==> Affordable(s0, senders[j], sent[j])
    {
      OneMoreSent(sent, sent', i, j);
      if Affordable(s0, senders[j], sent'[j]) {
        AffordableDownwards(s0, senders[j], sent[j], sent'[j]);
      }
    }
  }

  lemma {:induction false} OutcomeStep(s0: EthState, senders: seq<Sender>, sent: multiset<nat>, sent': multiset<nat>,
                                       n: nat, r: Option<EthState>, r': Option<EthState>, i: nat)
    requires Prepared(s0, senders) && Outcome(s0, senders, sent, n, r)
    requires i < |senders| && sent[i] < senders[i].numTxs && sent' == sent + multiset{i}
    requires r' == match r { case None => None case Some(s) => Apply(s, Lists(senders)[i][sent[i]]) }
    ensures Outcome(s0, senders, sent', n + 1, r')
  {
    AllAffordableStep(s0, senders, sent, sent', i);
    if r.Some? {
      StepAccepted(s0, senders, sent, n, r.value, i);
      if r'.Some? {
        StepMovesOneSender(s0, senders, sent, sent', n, r.value, r'.value, i);
      }
    }
  }

  /** For every schedule of the issuers: all of it is taken exactly when each account can pay for what the
      schedule asks of it; then each account has moved on by its own count and paid exactly that many
      transfers, whatever the order. */
  lemma {:induction false} ScheduleTheorem(s0: EthState, senders: seq<Sender>, sched: seq<nat>)
    requires Prepared(s0, senders) && Valid(Lists(senders), sched)
    ensures Run(s0, Merge(Lists(senders), sched)).Some? <==> AllAffordable(s0, senders, multiset(sched))
    ensures Run(s0, Merge(Lists(senders), sched)).Some? ==>
              After(s0, senders, multiset(sched), |sched|, Run(s0, Merge(Lists(senders), sched)).value)
    decreases |sched|
  {
    if sched != [] {
      var before, i := sched[..|sched| - 1], sched[|sched| - 1];
      assert sched == before + [i];
      MergeStep(Lists(senders), before, i);
      ScheduleTheorem(s0, senders, before);
      RunSnoc(s0, Merge(Lists(senders), before), Lists(senders)[i][multiset(before)[i]]);
      OutcomeStep(s0, senders, multiset(before), multiset(sched), |before|, Run(s0, Merge(Lists(senders), before)),
                  Run(s0, Merge(Lists(senders), sched)), i);
    }
  }

  /** The resulting state is determined by the counts, not by the order. */
  lemma {:induction false} AfterDetermines(s0: EthState, senders: seq<Sender>, m: multiset<nat>, n: multiset<nat>,
                                           k: nat, a: EthState, b: EthState)
    requires After(s0, senders, m, k, a) && After(s0, senders, n, k, b)
    requires forall i :: 0 <= i < |senders| ==> m[i] == n[i]
    ensures a == b
  {
    forall x | x in a.accounts ensures a.accounts[x] == b.accounts[x] {
      if exists i :: 0 <= i < |senders| && senders[i].key == x {
        var i :| 0 <= i < |senders| && senders[i].key == x;
        assert a.At(senders[i].key) == b.At(senders[i].key);
      }
    }
    assert a.accounts == b.accounts;
  }

  lemma {:induction false} CompleteSchedulesHaveSameCounts(senders: seq<Sender>, s: seq<nat>, t: seq<nat>)
    requires Complete(Lists(senders), s) && Complete(Lists(senders), t)
    ensures multiset(s) == multiset(t) && |s| == |t|
  {
    forall i: nat ensures multiset(s)[i] == multiset(t)[i] {
      if i in s {
      } else if i in t {
      }
    }
    assert |s| == |multiset(s)| && |t| == |multiset(t)|;
  }

  /** Confluence: all complete interleavings of the lists agree, taken or refused, and on the final state. */
  lemma {:induction false} Confluence(s0: EthState, senders: seq<Sender>, s: seq<nat>, t: seq<nat>)
    requires Prepared(s0, senders) && Complete(Lists(senders), s) && Complete(Lists(senders), t)
    ensures Run(s0, Merge(Lists(senders), s)) == Run(s0, Merge(Lists(senders), t))
  {
    CompleteSchedulesHaveSameCounts(senders, s, t);
    ScheduleTheorem(s0, senders, s);
    ScheduleTheorem(s0, senders, t);
    if Run(s0, Merge(Lists(senders), s)).Some? {
      AfterDetermines(s0, senders, multiset(s), multiset(t), |s|, Run(s0, Merge(Lists(senders), s)).value,
                      Run(s0, Merge(Lists(senders), t)).value);
    }
  }

  // ---------- the constants of the test ----------

  const AVAX_AMOUNT: nat := 10_000_000_000_000_000
  const X2C_CONVERSION: nat := 1_000_000_000

  /** The funding of each account pays for a list from nonce 0 exactly up to 1013171225 transactions. */
  lemma {:induction false} FundingSuffices(s0: EthState, key: Address, numTxs: nat)
    requires s0.At(key).balance == AVAX_AMOUNT * X2C_CONVERSION
    ensures Affordable(s0, Sender(key, 0, numTxs), numTxs) <==> numTxs <= 1013171225
  {
    assert AVAX_AMOUNT * X2C_CONVERSION == 10_000_000_000_000_000_000_000_000;
    if numTxs <= 1013171225 {
      ScaleMonotone(numTxs, 1013171225, TRANSFER_COST);
    } else {
      ScaleMonotone(1013171226, numTxs, TRANSFER_COST);
    }
  }
}
