/** Funding the throughput test's accounts from the X-Chain, and what that funding pays for. */
module CChainFunding {
  import opened Options
  import opened EthLedger
  import opened NonceChains
  import opened ThroughputJoin

  /** The funded X-Chain balance; how many exports wait to be imported and their value in wei; the C-Chain. */
  datatype Bridge = Bridge(xAvax: nat, waiting: nat, inFlight: nat, chain: EthState)
  {
    predicate Idle() { waiting == 0 && inFlight == 0 }
  }

  function Export(b: Bridge, amount: nat, txFee: nat): Option<Bridge> {
    if b.xAvax < amount + txFee then None
    else Some(Bridge(b.xAvax - amount - txFee, b.waiting + 1, b.inFlight + amount * X2C_CONVERSION, b.chain))
  }

  /** Everything in flight goes to one address; importing when nothing waits fails. */
  function Import(b: Bridge, addr: Address): Option<Bridge> {
    if b.waiting == 0 then None
    else
      var account := b.chain.At(addr);
      var credited := Account(account.nonce, account.balance + b.inFlight);
      Some(Bridge(b.xAvax, 0, 0, b.chain.(accounts := b.chain.accounts[addr := credited])))
  }

  /** One turn of the funding loop. */
  function FundOne(b: Bridge, addr: Address, amount: nat, txFee: nat): Option<Bridge> {
    match Export(b, amount, txFee)
    case None => None
    case Some(exported) => Import(exported, addr)
  }

  function FundNext(before: Option<Bridge>, addr: Address, amount: nat, txFee: nat): Option<Bridge> {
    if before.None? then None else FundOne(before.value, addr, amount, txFee)
  }

  function FundFirst(b: Bridge, addrs: seq<Address>, k: nat, amount: nat, txFee: nat): Option<Bridge>
    requires k <= |addrs|
  {
    if k == 0 then Some(b) else FundNext(FundFirst(b, addrs, k - 1, amount, txFee), addrs[k - 1], amount, txFee)
  }

  method FundCChainAddresses(b: Bridge, addrs: seq<Address>, amount: nat, txFee: nat)
    returns (ok: bool, b': Bridge, ghost funded: nat)
    ensures funded <= |addrs| && FundFirst(b, addrs, funded, amount, txFee) == Some(b')
    ensures ok <==> funded == |addrs|
    ensures !ok ==> b'.xAvax < amount + txFee
    ensures !ok ==> FundFirst(b, addrs, |addrs|, amount, txFee).None?
  {
    b' := b;
    for i := 0 to |addrs|
      invariant FundFirst(b, addrs, i, amount, txFee) == Some(b')
    {
      var exported := Export(b', amount, txFee);
      if exported.None? {
        UnfundedStaysUnfunded(b, addrs, i + 1, |addrs|, amount, txFee);
        return false, b', i;
      }
      // The export is waiting now, so the import always finds something.
      var imported := Import(exported.value, addrs[i]);
      b' := imported.value;
    }
    ok, funded := true, |addrs|;
  }

  lemma {:induction false} UnfundedStaysUnfunded(b: Bridge, addrs: seq<Address>, j: nat, k: nat, amount: nat,
                                                 txFee: nat)
    requires j <= k <= |addrs| && FundFirst(b, addrs, j, amount, txFee).None?
    ensures FundFirst(b, addrs, k, amount, txFee).None?
  {
    if j < k {
      UnfundedStaysUnfunded(b, addrs, j, k - 1, amount, txFee);
    }
  }

  /** `credit` arrived at `addr`, and no other account's nonce or balance changed. */
  ghost predicate Credited(before: EthState, addr: Address, credit: nat, after: EthState) {
    && after.fees == before.fees
    && after.accounts.Keys == before.accounts.Keys + {addr}
    && after.At(addr) == Account(before.At(addr).nonce, before.At(addr).balance + credit)
    && forall a :: a != addr ==> after.At(a) == before.At(a)
  }

  lemma {:induction false} FundOneMeaning(b: Bridge, addr: Address, amount: nat, txFee: nat)
    requires b.Idle()
    ensures FundOne(b, addr, amount, txFee).Some? <==> amount + txFee <= b.xAvax
    ensures FundOne(b, addr, amount, txFee).Some? ==>
              var after := FundOne(b, addr, amount, txFee).value;
              && after.xAvax == b.xAvax - (amount + txFee) && after.Idle()
              && Credited(b.chain, addr, amount * X2C_CONVERSION, after.chain)
  {
  }

  lemma {:induction false} OneMoreExport(k: nat, each: nat)
    ensures (k + 1) * each == k * each + each
  {
  }

  /** Succeeds exactly when the balance covers `spent`, which is then gone from it. */
  ghost predicate Costs(b: Bridge, spent: nat, r: Option<Bridge>) {
    && (r.Some? <==> spent <= b.xAvax)
    && (r.Some? ==> r.value.xAvax == b.xAvax - spent && r.value.Idle())
  }

  lemma {:induction false} CostsNext(b: Bridge, spent: nat, r: Option<Bridge>, addr: Address, amount: nat, txFee: nat)
    requires Costs(b, spent, r)
    ensures Costs(b, spent + (amount + txFee), FundNext(r, addr, amount, txFee))
  {
    if r.Some? {
      FundOneMeaning(r.value, addr, amount, txFee);
    }
  }

  /** With nothing in flight, funding the first `k` succeeds exactly when the balance covers `k` exports and fees. */
  lemma {:induction false} FundingCost(b: Bridge, addrs: seq<Address>, k: nat, amount: nat, txFee: nat)
    requires b.Idle() && k <= |addrs|
    ensures k * (amount + txFee) >= 0
    ensures Costs(b, k * (amount + txFee), FundFirst(b, addrs, k, amount, txFee))
  {
    if k > 0 {
      FundingCost(b, addrs, k - 1, amount, txFee);
      OneMoreExport(k - 1, amount + txFee);
      CostsNext(b, (k - 1) * (amount + txFee), FundFirst(b, addrs, k - 1, amount, txFee), addrs[k - 1], amount, txFee);
    }
  }

  /** The first `k` addresses each gained `credit`; nobody else's nonce or balance changed. */
  ghost predicate AllCredited(before: EthState, addrs: seq<Address>, k: nat, credit: nat, after: EthState)
    requires k <= |addrs|
  {
    && after.fees == before.fees
    && (forall i :: 0 <= i < k ==>
          && addrs[i] in after.accounts
          && after.At(addrs[i]) == Account(before.At(addrs[i]).nonce, before.At(addrs[i]).balance + credit))
    && (forall a :: a !in addrs[..k] ==> after.At(a) == before.At(a))
  }

  lemma {:induction false} CreditNext(before: EthState, addrs: seq<Address>, k: nat, credit: nat, middle: EthState,
                                      after: EthState)
    requires k < |addrs| && forall i, j :: 0 <= i < j < |addrs| ==> addrs[i] != addrs[j]
    requires AllCredited(before, addrs, k, credit, middle) && Credited(middle, addrs[k], credit, after)
    ensures AllCredited(before, addrs, k + 1, credit, after)
  {
    assert addrs[..k + 1] == addrs[..k] + [addrs[k]];
    assert addrs[k] !in addrs[..k];
  }

  /** If the first `k` could be funded, nothing is left in flight and each has its credit. */
  ghost predicate Credits(before: EthState, addrs: seq<Address>, k: nat, amount: nat, r: Option<Bridge>)
    requires k <= |addrs|
  {
    r.Some? ==> r.value.Idle() && AllCredited(before, addrs, k, amount * X2C_CONVERSION, r.value.chain)
  }

  lemma {:induction false} CreditsNext(before: EthState, addrs: seq<Address>, k: nat, r: Option<Bridge>, amount: nat,
                                       txFee: nat)
    requires 0 < k <= |addrs| && forall i, j :: 0 <= i < j < |addrs| ==> addrs[i] != addrs[j]
    requires Credits(before, addrs, k - 1, amount, r)
    ensures Credits(before, addrs, k, amount, FundNext(r, addrs[k - 1], amount, txFee))
  {
    var r' := FundNext(r, addrs[k - 1], amount, txFee);
    if r'.Some? {
      FundOneMeaning(r.value, addrs[k - 1], amount, txFee);
      CreditNext(before, addrs, k - 1, amount * X2C_CONVERSION, r.value.chain, r'.value.chain);
    }
  }

  /** With nothing in flight and distinct addresses, each funded address gains the converted amount and nobody
      else gains or loses. */
  lemma {:induction false} FundingMeaning(b: Bridge, addrs: seq<Address>, k: nat, amount: nat, txFee: nat)
    requires b.Idle() && k <= |addrs|
    requires forall i, j :: 0 <= i < j < |addrs| ==> addrs[i] != addrs[j]
    ensures Credits(b.chain, addrs, k, amount, FundFirst(b, addrs, k, amount, txFee))
  {
    if k > 0 {
      FundingMeaning(b, addrs, k - 1, amount, txFee);
      CreditsNext(b.chain, addrs, k, FundFirst(b, addrs, k - 1, amount, txFee), amount, txFee);
    }
  }

  /** Untouched keys that each gained the test's amount are ready for lists from nonce 0. */
  lemma {:induction false} CreditedKeysAreReady(before: EthState, keys: seq<Address>, numTxs: nat, chain: EthState)
    requires forall i, j :: 0 <= i < j < |keys| ==> keys[i] != keys[j]
    requires forall i :: 0 <= i < |keys| ==> before.At(keys[i]) == Account(0, 0)
    requires AllCredited(before, keys, |keys|, AVAX_AMOUNT * X2C_CONVERSION, chain)
    ensures Prepared(chain, SendersOf(keys, numTxs))
    ensures forall i :: 0 <= i < |keys| ==> chain.At(keys[i]) == Account(0, 10_000_000_000_000_000_000_000_000)
    ensures FullyFunded(chain, SendersOf(keys, numTxs)) <==> keys == [] || numTxs <= 1013171225
  {
    var senders := SendersOf(keys, numTxs);
    forall i | 0 <= i < |senders|
      ensures senders[i] == Sender(keys[i], 0, numTxs)
      ensures senders[i].key in chain.accounts && chain.accounts[senders[i].key].nonce == senders[i].start
      ensures Affordable(chain, senders[i], senders[i].numTxs) <==> numTxs <= 1013171225
    {
      assert chain.At(keys[i]) == Account(0, AVAX_AMOUNT * X2C_CONVERSION);
      FundingSuffices(chain, keys[i], numTxs);
    }
    if keys != [] {
      assert Affordable(chain, senders[0], senders[0].numTxs) <==> numTxs <= 1013171225;
    }
  }

  /** After funding new keys with the test's amount, lists of `numTxs` from nonce 0 are prepared, and they are
      paid for in full exactly up to 1013171225 transactions a list. */
  lemma {:induction false} FundedKeysAreReady(b: Bridge, keys: seq<Address>, txFee: nat, numTxs: nat)
    requires b.Idle() && (forall i, j :: 0 <= i < j < |keys| ==> keys[i] != keys[j])
    requires forall i :: 0 <= i < |keys| ==> b.chain.At(keys[i]) == Account(0, 0)
    requires FundFirst(b, keys, |keys|, AVAX_AMOUNT, txFee).Some?
    ensures var chain := FundFirst(b, keys, |keys|, AVAX_AMOUNT, txFee).value.chain;
            && Prepared(chain, SendersOf(keys, numTxs))
            && (forall i :: 0 <= i < |keys| ==> chain.At(keys[i]) == Account(0, 10_000_000_000_000_000_000_000_000))
            && (FullyFunded(chain, SendersOf(keys, numTxs)) <==> keys == [] || numTxs <= 1013171225)
  {
    FundingMeaning(b, keys, |keys|, AVAX_AMOUNT, txFee);
    CreditedKeysAreReady(b.chain, keys, numTxs, FundFirst(b, keys, |keys|, AVAX_AMOUNT, txFee).value.chain);
  }
}
