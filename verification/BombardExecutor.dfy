/** The X-Chain bombard test: one funded address per client, one chain of transactions each, all issued. */
module BombardExecutor {
  import opened MachineInts
  import opened Options
  import opened UtxoLedger
  import opened ConsecutiveTxs
  import opened Schedules
  import opened Interleavings

  /** What the nodes report about one client's funded address. */
  datatype Wallet = Wallet(address: Address, balance: uint64, utxos: seq<Utxo>)

  datatype Outcome =
    | Passed
    | BalanceMismatch(client: nat)
    | NoUtxos(client: nat)
    | GenerationFailed(client: nat)
    | IssueRefused(client: nat)

  /** The amount each address is funded with, as the machine computes it. */
  function SeedAmount(numTxs: uint64, txFee: uint64): uint64 {
    Wrap(Wrap(numTxs + 1) * txFee)
  }

  ghost function PlansOf(wallets: seq<Wallet>, numTxs: uint64, txFee: uint64): (plans: seq<Plan>)
    requires forall i :: 0 <= i < |wallets| ==> wallets[i].utxos != []
    ensures |plans| == |wallets|
  {
    seq(|wallets|, i requires 0 <= i < |wallets| =>
      Plan(wallets[i].utxos[0], numTxs, SeedAmount(numTxs, txFee), txFee, wallets[i].address))
  }

  /** Issues each transaction in order and stops at the first refusal; what was issued before stays issued. */
  method IssueTxList(rules: Rules, l: Ledger, txList: seq<Tx>) returns (ok: bool, l': Ledger, ghost issued: nat)
    ensures issued <= |txList| && Run(rules, l, txList[..issued]) == Some(l')
    ensures ok <==> issued == |txList|
    ensures ok ==> Run(rules, l, txList) == Some(l')
    ensures !ok ==> Run(rules, l, txList).None?
    ensures !ok ==> !Accepts(rules, l', txList[issued])
  {
    l' := l;
    var i := 0;
    while i < |txList|
      invariant 0 <= i <= |txList|
      invariant Run(rules, l, txList[..i]) == Some(l')
    {
      RunSnoc(rules, l, txList[..i], txList[i]);
      assert txList[..i + 1] == txList[..i] + [txList[i]];
      var next := Apply(rules, l', txList[i]);
      if next.None? {
        ok, issued := false, i;
        assert txList == txList[..i + 1] + txList[i + 1..];
        RunConcat(rules, l, txList[..i + 1], txList[i + 1..]);
        return;
      }
      l' := next.value;
      i := i + 1;
    }
    assert txList[..i] == txList;
    ok, issued := true, i;
  }

  /** Checks every address against the seed amount and keeps its UTXOs. */
  method CollectUtxos(wallets: seq<Wallet>, seedAmount: uint64) returns (failed: Option<nat>, utxoLists: seq<seq<Utxo>>)
    ensures failed.None? <==> forall i :: 0 <= i < |wallets| ==> wallets[i].balance == seedAmount
    ensures failed.Some? ==> failed.value < |wallets| && wallets[failed.value].balance != seedAmount
    ensures failed.None? ==>
              |utxoLists| == |wallets| && forall i :: 0 <= i < |wallets| ==> utxoLists[i] == wallets[i].utxos
  {
    utxoLists := [];
    for i := 0 to |wallets|
      invariant |utxoLists| == i
      invariant forall j :: 0 <= j < i ==> wallets[j].balance == seedAmount && utxoLists[j] == wallets[j].utxos
    {
      if wallets[i].balance != seedAmount {
        return Some(i), utxoLists;
      }
      utxoLists := utxoLists + [wallets[i].utxos];
    }
    failed := None;
  }

  /** Generates one chain per client from the first UTXO of its list. */
  method GenerateLists(wallets: seq<Wallet>, utxoLists: seq<seq<Utxo>>, numTxs: uint64, txFee: uint64)
    returns (outcome: Outcome, txLists: seq<seq<Tx>>)
    requires |utxoLists| == |wallets| && forall i :: 0 <= i < |wallets| ==> utxoLists[i] == wallets[i].utxos
    ensures outcome.Passed? <==>
              && (forall i :: 0 <= i < |wallets| ==> wallets[i].utxos != [])
              && (wallets == [] || GuardPasses(numTxs, SeedAmount(numTxs, txFee), txFee))
    ensures outcome.Passed? ==> txLists == Lists(PlansOf(wallets, numTxs, txFee))
    ensures outcome.Passed? ==>
              forall i :: 0 <= i < |wallets| ==>
                && |txLists[i]| == numTxs
                && (0 < numTxs ==>
                      txLists[i][0].spends == wallets[i].utxos[0].id && txLists[i][0].signer == wallets[i].address)
    ensures outcome.Passed? || outcome.NoUtxos? || outcome.GenerationFailed?
    ensures outcome.NoUtxos? ==> outcome.client < |wallets| && wallets[outcome.client].utxos == []
    ensures outcome.GenerationFailed? ==> outcome.client == 0 && !GuardPasses(numTxs, SeedAmount(numTxs, txFee), txFee)
  {
    var seedAmount := SeedAmount(numTxs, txFee);
    txLists := [];
    for i := 0 to |wallets|
      invariant |txLists| == i
      invariant forall j :: 0 <= j < i ==>
                  && wallets[j].utxos != []
                  && txLists[j] == Chain(Plan(wallets[j].utxos[0], numTxs, seedAmount, txFee, wallets[j].address))
      invariant 0 < i ==> GuardPasses(numTxs, seedAmount, txFee)
    {
      if utxoLists[i] == [] {
        return NoUtxos(i), txLists;
      }
      var generated := CreateConsecutiveTransactions(utxoLists[i][0], numTxs, seedAmount, txFee, wallets[i].address);
      if generated.Failed? {
        return GenerationFailed(i), txLists;
      }
      txLists := txLists + [generated.txBytes];
    }
    outcome := Passed;
  }

  /** Issues the lists one after another; a refusal ends the run. The wait group is empty on return. */
  method IssueAll(rules: Rules, l0: Ledger, txLists: seq<seq<Tx>>)
    returns (refused: Option<nat>, l: Ledger, waiting: int)
    ensures refused.None? <==> Run(rules, l0, Flatten(txLists)).Some?
    ensures refused.None? ==> Run(rules, l0, Flatten(txLists)) == Some(l) && waiting == 0
    ensures refused.Some? ==>
              && refused.value < |txLists|
              && Run(rules, l0, Flatten(txLists[..refused.value])).Some?
              && Run(rules, l0, Flatten(txLists[..refused.value + 1])).None?
    ensures refused.Some? ==>
              exists k :: 0 <= k < |txLists[refused.value]|
                       && Run(rules, l0, Flatten(txLists[..refused.value]) + txLists[refused.value][..k]) == Some(l)
                       && !Accepts(rules, l, txLists[refused.value][k])
  {
    l, waiting := l0, 0;
    for i := 0 to |txLists|
      invariant waiting == 0
      invariant Run(rules, l0, Flatten(txLists[..i])) == Some(l)
    {
      waiting := waiting + 1;
      assert txLists[..i + 1][..i] == txLists[..i];
      RunConcat(rules, l0, Flatten(txLists[..i]), txLists[i]);
      var ok, next;
      ghost var issued;
      ok, next, issued := IssueTxList(rules, l, txLists[i]);
      if !ok {
        FlattenRefused(rules, l0, txLists, i + 1);
        RunConcat(rules, l0, Flatten(txLists[..i]), txLists[i][..issued]);
        return Some(i), next, waiting;
      }
      l := next;
      waiting := waiting - 1;
    }
    assert txLists[..|txLists|] == txLists;
    refused := None;
  }

  /** The funding step did its work: each address holds one distinct live UTXO worth the seed amount. */
  ghost predicate Seeded(rules: Rules, l0: Ledger, wallets: seq<Wallet>, numTxs: uint64, txFee: uint64) {
    && Antichain(l0)
    && rules.txFee == txFee
    && (forall i :: 0 <= i < |wallets| ==>
          && wallets[i].balance == SeedAmount(numTxs, txFee)
          && wallets[i].utxos != []
          && wallets[i].utxos[0].id in l0
          && l0[wallets[i].utxos[0].id] == Coin(SeedAmount(numTxs, txFee), wallets[i].address))
    && (forall i, j :: 0 <= i < j < |wallets| ==> wallets[i].utxos[0].id != wallets[j].utxos[0].id)
  }

  /** What the seed has to allow for: no overflow, and a fee that makes a legal output of the fee left over. */
  predicate SeedSuffices(rules: Rules, numTxs: uint64, txFee: uint64) {
    numTxs == 0 || ((numTxs + 1) * txFee < TWO_64 && rules.minOutput <= txFee)
  }

  /** For seeded addresses the run passes exactly when nobody takes part or the seed suffices; in general, when
      the balances match, every client has a UTXO, the guard passes and the ledger takes all lists. */
  method ExecuteTest(rules: Rules, l0: Ledger, wallets: seq<Wallet>, numTxs: uint64, txFee: uint64)
    returns (outcome: Outcome, l: Ledger)
    ensures outcome.Passed? <==>
              && (forall i :: 0 <= i < |wallets| ==>
                    wallets[i].balance == SeedAmount(numTxs, txFee) && wallets[i].utxos != [])
              && (wallets == [] || GuardPasses(numTxs, SeedAmount(numTxs, txFee), txFee))
              && Run(rules, l0, Flatten(Lists(PlansOf(wallets, numTxs, txFee)))).Some?
    ensures outcome.Passed? ==> Run(rules, l0, Flatten(Lists(PlansOf(wallets, numTxs, txFee)))) == Some(l)
    ensures !outcome.Passed? && !outcome.IssueRefused? ==> l == l0
    ensures outcome.IssueRefused? ==>
              && outcome.client < |wallets| && (forall i :: 0 <= i < |wallets| ==> wallets[i].utxos != [])
              && var lists := Lists(PlansOf(wallets, numTxs, txFee));
              && exists k :: 0 <= k < |lists[outcome.client]|
                          && Run(rules, l0, Flatten(lists[..outcome.client]) + lists[outcome.client][..k]) == Some(l)
                          && !Accepts(rules, l, lists[outcome.client][k])
    ensures outcome.BalanceMismatch? ==>
              outcome.client < |wallets| && wallets[outcome.client].balance != SeedAmount(numTxs, txFee)
    ensures Seeded(rules, l0, wallets, numTxs, txFee) ==>
              (outcome.Passed? <==> wallets == [] || SeedSuffices(rules, numTxs, txFee))
    ensures outcome.BalanceMismatch? <==>
              exists i :: 0 <= i < |wallets| && wallets[i].balance != SeedAmount(numTxs, txFee)
  {
    l := l0;
    if Seeded(rules, l0, wallets, numTxs, txFee) {
      SeededRunPassesExactly(rules, l0, wallets, numTxs, txFee);
    }
    var mismatch, utxoLists := CollectUtxos(wallets, SeedAmount(numTxs, txFee));
    if mismatch.Some? {
      return BalanceMismatch(mismatch.value), l;
    }
    var txLists;
    outcome, txLists := GenerateLists(wallets, utxoLists, numTxs, txFee);
    if !outcome.Passed? {
      return;
    }
    var refused, waiting;
    refused, l, waiting := IssueAll(rules, l0, txLists);
    if refused.Some? {
      outcome := IssueRefused(refused.value);
    }
  }

  lemma {:induction false} FlattenRefused(rules: Rules, l0: Ledger, lists: seq<seq<Tx>>, k: nat)
    requires k <= |lists| && Run(rules, l0, Flatten(lists[..k])).None?
    ensures Run(rules, l0, Flatten(lists)).None?
    decreases |lists| - k
  {
    if k == |lists| {
      assert lists[..k] == lists;
    } else {
      assert lists[..k + 1][..k] == lists[..k];
      RunConcat(rules, l0, Flatten(lists[..k]), lists[k]);
      FlattenRefused(rules, l0, lists, k + 1);
    }
  }

  /** The machine's seed amount is the truncated product, the inner wrap notwithstanding. */
  lemma {:induction false} SeedIsTruncated(numTxs: uint64, txFee: uint64)
    ensures SeedAmount(numTxs, txFee) == Wrap((numTxs + 1) * txFee)
  {
    WrapOfExact(numTxs + 1);
    if numTxs + 1 == TWO_64 {
      ModShift(0, 1);
      ModShift(0, txFee);
      assert (numTxs + 1) * txFee == txFee * TWO_64;
    }
  }

  lemma {:induction false} OverflowLosesAWord(x: int)
    requires TWO_64 <= x
    ensures Wrap(x) <= x - TWO_64
  {
    assert x == x / TWO_64 * TWO_64 + Wrap(x);
  }

  /** With any overflow the seed is too small for the fees alone. */
  lemma {:induction false} SeedCovers(rules: Rules, numTxs: uint64, txFee: uint64)
    ensures numTxs == 0 || numTxs * txFee + rules.minOutput <= SeedAmount(numTxs, txFee) <==>
              SeedSuffices(rules, numTxs, txFee)
    ensures SeedSuffices(rules, numTxs, txFee) ==> SeedAmount(numTxs, txFee) - numTxs * txFee == txFee
    ensures SeedSuffices(rules, numTxs, txFee) ==> GuardPasses(numTxs, SeedAmount(numTxs, txFee), txFee)
  {
    SeedIsTruncated(numTxs, txFee);
    ProductIsNat(numTxs, txFee);
    var fees, total := numTxs * txFee, (numTxs + 1) * txFee;
    assert total == fees + txFee;
    WrapOfExact(total);
    WrapOfExact(fees);
    if TWO_64 <= total {
      OverflowLosesAWord(total);
    }
  }

  /** The seed is the unbounded product exactly when that fits the word, and then the generator's guard passes. */
  lemma {:induction false} SeedIsExact(numTxs: uint64, txFee: uint64)
    ensures SeedAmount(numTxs, txFee) == (numTxs + 1) * txFee <==> (numTxs + 1) * txFee < TWO_64
    ensures (numTxs + 1) * txFee < TWO_64 ==> GuardPasses(numTxs, SeedAmount(numTxs, txFee), txFee)
  {
    SeedIsTruncated(numTxs, txFee);
    ProductIsNat(numTxs + 1, txFee);
    WrapOfExact((numTxs + 1) * txFee);
    if (numTxs + 1) * txFee < TWO_64 {
      SeedCovers(Rules(txFee, 0), numTxs, txFee);
    }
  }

  /** Without overflow no emitted output of the test falls below one fee. */
  lemma {:induction false} OutputsAreAtLeastOneFee(utxo: Utxo, key: Address, numTxs: uint64, txFee: uint64, i: nat)
    requires (numTxs + 1) * txFee < TWO_64 && i < numTxs
    ensures var tx := Chain(Plan(utxo, numTxs, SeedAmount(numTxs, txFee), txFee, key))[i];
            txFee <= tx.outputAmount == tx.inputAmount - txFee
  {
    var p := Plan(utxo, numTxs, SeedAmount(numTxs, txFee), txFee, key);
    SeedIsExact(numTxs, txFee);
    assert p.amount == numTxs * txFee + txFee;
    EmittedAmountsAreExact(p, i);
    FeesPaid(p, i);
  }

  lemma {:induction false} SeededIsFunded(rules: Rules, l0: Ledger, wallets: seq<Wallet>, numTxs: uint64, txFee: uint64)
    requires Seeded(rules, l0, wallets, numTxs, txFee)
    ensures Funded(rules, l0, PlansOf(wallets, numTxs, txFee))
  {
  }

  lemma {:induction false} PlanAffordable(rules: Rules, l0: Ledger, wallets: seq<Wallet>, numTxs: uint64, txFee: uint64,
                                          i: nat)
    requires Seeded(rules, l0, wallets, numTxs, txFee) && i < |wallets|
    ensures var p := PlansOf(wallets, numTxs, txFee)[i];
            && (Affordable(rules, p, numTxs) <==> SeedSuffices(rules, numTxs, txFee))
            && (SeedSuffices(rules, numTxs, txFee) ==> Left(p, numTxs) == txFee)
  {
    var p := PlansOf(wallets, numTxs, txFee)[i];
    SeedCovers(rules, numTxs, txFee);
    AffordableIs(rules, p, numTxs);
    LeftIs(p, numTxs);
  }

  lemma {:induction false} AllAffordableExactly(rules: Rules, l0: Ledger, wallets: seq<Wallet>, numTxs: uint64,
                                                txFee: uint64)
    requires Seeded(rules, l0, wallets, numTxs, txFee)
    ensures var plans := PlansOf(wallets, numTxs, txFee);
            (forall i :: 0 <= i < |plans| ==> Affordable(rules, plans[i], plans[i].numTxs)) <==>
            wallets == [] || SeedSuffices(rules, numTxs, txFee)
  {
    var plans := PlansOf(wallets, numTxs, txFee);
    forall i | 0 <= i < |wallets|
      ensures Affordable(rules, plans[i], plans[i].numTxs) <==> SeedSuffices(rules, numTxs, txFee)
    {
      PlanAffordable(rules, l0, wallets, numTxs, txFee, i);
    }
    if wallets != [] {
      assert Affordable(rules, plans[0], plans[0].numTxs) <==> SeedSuffices(rules, numTxs, txFee);
    }
  }

  /** Once every address is seeded, the lists are taken exactly when there are none, or the seed suffices; and
      then the generator's guard passes as well. */
  lemma {:induction false} SeededRunPassesExactly(rules: Rules, l0: Ledger, wallets: seq<Wallet>, numTxs: uint64,
                                                  txFee: uint64)
    requires Seeded(rules, l0, wallets, numTxs, txFee)
    ensures Run(rules, l0, Flatten(Lists(PlansOf(wallets, numTxs, txFee)))).Some? <==>
            wallets == [] || SeedSuffices(rules, numTxs, txFee)
    ensures SeedSuffices(rules, numTxs, txFee) ==> GuardPasses(numTxs, SeedAmount(numTxs, txFee), txFee)
  {
    var plans := PlansOf(wallets, numTxs, txFee);
    SeededIsFunded(rules, l0, wallets, numTxs, txFee);
    InOrder(plans);
    Confluence(rules, l0, plans, Sequential(Lists(plans), |plans|));
    AllAffordableExactly(rules, l0, wallets, numTxs, txFee);
    SeedCovers(rules, numTxs, txFee);
  }

  /** Every complete interleaving of the seeded lists does what issuing them in order does: it is taken exactly
      when the seed suffices, and then each address is left with one UTXO worth exactly one fee. */
  lemma {:induction false} BombardLeavesOneFeeEach(rules: Rules, l0: Ledger, wallets: seq<Wallet>, numTxs: uint64,
                                                   txFee: uint64, sched: seq<nat>)
    requires Seeded(rules, l0, wallets, numTxs, txFee)
    requires Complete(Lists(PlansOf(wallets, numTxs, txFee)), sched)
    ensures var plans := PlansOf(wallets, numTxs, txFee);
            var r := Run(rules, l0, Flatten(Lists(plans)));
            && Run(rules, l0, Merge(Lists(plans), sched)) == r
            && (r.Some? <==> wallets == [] || SeedSuffices(rules, numTxs, txFee))
            && (r.Some? ==>
                  && r.value.Keys == (l0.Keys - Roots(plans)) + FinalTips(plans)
                  && forall i :: 0 <= i < |wallets| ==>
                       Tip(plans[i], numTxs).id in r.value
                         && r.value[Tip(plans[i], numTxs).id] == Coin(txFee, wallets[i].address))
  {
    var plans := PlansOf(wallets, numTxs, txFee);
    SeededIsFunded(rules, l0, wallets, numTxs, txFee);
    SeededRunPassesExactly(rules, l0, wallets, numTxs, txFee);
    Confluence(rules, l0, plans, sched);
    if Run(rules, l0, Flatten(Lists(plans))).Some? {
      forall i | 0 <= i < |wallets| ensures Left(plans[i], numTxs) == txFee {
        PlanAffordable(rules, l0, wallets, numTxs, txFee, i);
      }
      FundedLeavesOneFeeEach(rules, l0, plans, numTxs, txFee, sched);
    }
  }

  lemma {:induction false} FundedLeavesOneFeeEach(rules: Rules, l0: Ledger, plans: seq<Plan>, numTxs: nat, txFee: nat,
                                                  sched: seq<nat>)
    requires Funded(rules, l0, plans) && Complete(Lists(plans), sched)
    requires Run(rules, l0, Merge(Lists(plans), sched)).Some?
    requires forall i :: 0 <= i < |plans| ==> plans[i].numTxs == numTxs && Left(plans[i], numTxs) == txFee
    ensures var l := Run(rules, l0, Merge(Lists(plans), sched)).value;
            && l.Keys == (l0.Keys - Roots(plans)) + FinalTips(plans)
            && forall i :: 0 <= i < |plans| ==>
                 Tip(plans[i], numTxs).id in l && l[Tip(plans[i], numTxs).id] == Coin(txFee, plans[i].key)
  {
    AfterAll(rules, l0, plans, sched);
  }
}
