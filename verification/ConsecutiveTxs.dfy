/** The X-Chain generator of a chain of transactions, each spending the previous one's only output. */
module ConsecutiveTxs {
  import opened MachineInts
  import opened UtxoLedger

  /** One call of the generator: the starting UTXO, its length, amount and fee, and the key's address. */
  datatype Plan = Plan(utxo: Utxo, numTxs: nat, amount: int, fee: nat, key: Address)
  {
    function First(): Tx {
      CreateSingleUTXOTx(utxo, Wrap(amount), Wrap(amount - fee), key, key)
    }

    /** What is left to generate after the first transaction. */
    function Rest(): Plan
      requires 0 < numTxs
    {
      Plan(First().Utxos()[0], numTxs - 1, amount - fee, fee, key)
    }
  }

  function CreateSingleUTXOTx(utxo: Utxo, inputAmount: uint64, outputAmount: uint64, address: Address,
                              key: Address): (tx: Tx)
    ensures tx.Utxos()[0].amount == outputAmount && tx.Utxos()[0].owner == address
    ensures Descends(tx.Utxos()[0].id, utxo.id)
  {
    Tx(utxo.id, inputAmount, outputAmount, address, key)
  }

  /** The generated list. */
  function Chain(p: Plan): (txs: seq<Tx>)
    ensures |txs| == p.numTxs
    decreases p.numTxs
  {
    if p.numTxs == 0 then [] else [p.First()] + Chain(p.Rest())
  }

  /** The UTXO that is left after the first `k` transactions. */
  function Tip(p: Plan, k: nat): Utxo
    requires k <= p.numTxs
    decreases k
  {
    if k == 0 then p.utxo else Tip(p.Rest(), k - 1)
  }

  /** Element `i` moves tip `i` to tip `i + 1` and carries the amounts reduced by `i` fees, truncated. */
  lemma {:induction false} ChainNth(p: Plan, i: nat)
    requires i < p.numTxs
    ensures Chain(p)[i] ==
            CreateSingleUTXOTx(Tip(p, i), Wrap(p.amount - i * p.fee), Wrap(p.amount - (i + 1) * p.fee), p.key, p.key)
    ensures Tip(p, i + 1) == Chain(p)[i].Utxos()[0]
    decreases i
  {
    if i > 0 {
      ChainNth(p.Rest(), i - 1);
      assert p.amount - p.fee - (i - 1) * p.fee == p.amount - i * p.fee;
      assert p.amount - p.fee - (i - 1 + 1) * p.fee == p.amount - (i + 1) * p.fee;
    } else {
      assert Tip(p, 1) == Tip(p.Rest(), 0);
    }
  }

  lemma {:induction false} LaterTipDescends(p: Plan, i: nat, j: nat)
    requires i < j <= p.numTxs
    ensures Descends(Tip(p, j).id, Tip(p, i).id)
    decreases j
  {
    ChainNth(p, j - 1);
    if i < j - 1 {
      LaterTipDescends(p, i, j - 1);
    }
  }

  datatype GenerateError = InsufficientStartingFunds

  datatype Generated = Generated(txBytes: seq<Tx>, txIDs: seq<TxId>) | Failed(error: GenerateError)

  /** The guard as the machine evaluates it. */
  predicate GuardPasses(numTxs: uint64, amount: uint64, txFee: uint64) {
    Wrap(numTxs * txFee) <= amount
  }

  /** The loop variables stand for the plan that is left to generate. */
  ghost predicate StandFor(current: Utxo, inputAmount: uint64, outputAmount: uint64, txFee: uint64, key: Address,
                           left: Plan) {
    && left.utxo == current && left.fee == txFee && left.key == key
    && inputAmount == Wrap(left.amount)
    && outputAmount == Wrap(left.amount - txFee)
  }

  lemma {:induction false} LoopStep(current: Utxo, inputAmount: uint64, outputAmount: uint64, txFee: uint64,
                                    key: Address, left: Plan, done: seq<Tx>)
    requires 0 < left.numTxs && StandFor(current, inputAmount, outputAmount, txFee, key, left)
    ensures CreateSingleUTXOTx(current, inputAmount, outputAmount, key, key) == left.First()
    ensures done + [left.First()] + Chain(left.Rest()) == done + Chain(left)
    ensures StandFor(left.First().Utxos()[0], Wrap(inputAmount - txFee), Wrap(outputAmount - txFee), txFee, key,
                     left.Rest())
  {
    WrapAbsorbs(left.amount, 0 - left.fee);
    WrapAbsorbs(left.amount - left.fee, 0 - left.fee);
  }

  /** The loop: each turn spends the UTXO of the previous one and lowers both amounts by a fee. */
  method GenerateChain(utxo: Utxo, numTxs: uint64, amount: uint64, txFee: uint64, key: Address)
    returns (txs: seq<Tx>, ids: seq<TxId>)
    ensures txs == Chain(Plan(utxo, numTxs, amount, txFee, key))
    ensures |ids| == numTxs && forall i :: 0 <= i < numTxs ==> ids[i] == txs[i].Id()
  {
    var placeholder := CreateSingleUTXOTx(utxo, 0, 0, key, key);
    var txBytes := new Tx[numTxs](_ => placeholder);
    var txIDs := new TxId[numTxs](_ => placeholder.Id());
    var current := utxo;
    var inputAmount: uint64 := amount;
    var outputAmount: uint64 := Wrap(amount - txFee);
    ghost var whole := Plan(utxo, numTxs, amount, txFee, key);
    ghost var left := whole;
    assert txBytes[..0] + Chain(left) == Chain(whole);
    for i := 0 to numTxs
      invariant left.numTxs == numTxs - i && StandFor(current, inputAmount, outputAmount, txFee, key, left)
      invariant txBytes[..i] + Chain(left) == Chain(whole)
      invariant forall j :: 0 <= j < i ==> txIDs[j] == txBytes[j].Id()
    {
      var tx := CreateSingleUTXOTx(current, inputAmount, outputAmount, key, key);
      ghost var done := txBytes[..i];
      LoopStep(current, inputAmount, outputAmount, txFee, key, left, done);
      txBytes[i] := tx;
      txIDs[i] := tx.Id();
      assert txBytes[..i + 1] == done + [tx];
      current := tx.Utxos()[0];
      inputAmount := Wrap(inputAmount - txFee);
      outputAmount := Wrap(outputAmount - txFee);
      left := left.Rest();
    }
    assert txBytes[..] == txBytes[..numTxs];
    return txBytes[..], txIDs[..];
  }

  method CreateConsecutiveTransactions(utxo: Utxo, numTxs: uint64, amount: uint64, txFee: uint64, key: Address)
    returns (r: Generated)
    ensures r.Failed? <==> !GuardPasses(numTxs, amount, txFee)
    ensures r.Generated? ==> r.txBytes == Chain(Plan(utxo, numTxs, amount, txFee, key))
    ensures r.Generated? ==> |r.txIDs| == numTxs
    ensures r.Generated? ==> forall i :: 0 <= i < numTxs ==> r.txIDs[i] == r.txBytes[i].Id()
  {
    if Wrap(numTxs * txFee) > amount {
      return Failed(InsufficientStartingFunds);
    }
    var txBytes, txIDs := GenerateChain(utxo, numTxs, amount, txFee, key);
    r := Generated(txBytes, txIDs);
  }

  // ---------- machine amounts against unbounded amounts ----------

  /** The guard decides the unbounded comparison exactly when the product fits the word, or wraps to more than
      the amount. */
  lemma {:induction false} GuardIsExact(numTxs: uint64, amount: uint64, txFee: uint64)
    ensures (GuardPasses(numTxs, amount, txFee) <==> numTxs * txFee <= amount) <==>
            numTxs * txFee < TWO_64 || amount < Wrap(numTxs * txFee)
  {
    var product := numTxs * txFee;
    ProductIsNat(numTxs, txFee);
    WrapOfExact(product);
  }

  /** The multiples of the fee that the generator subtracts. */
  lemma FeesPaid(p: Plan, i: nat)
    requires i < p.numTxs
    ensures 0 <= i * p.fee && (i + 1) * p.fee == i * p.fee + p.fee
    ensures p.numTxs * p.fee == (i + 1) * p.fee + (p.numTxs - 1 - i) * p.fee
    ensures 0 <= (p.numTxs - 1 - i) * p.fee
  {
    ProductIsNat(i, p.fee);
    ProductIsNat(p.numTxs - 1 - i, p.fee);
  }

  /** When the unbounded guard holds, every emitted amount is its unbounded value, falling by one fee a step. */
  lemma EmittedAmountsAreExact(p: Plan, i: nat)
    requires i < p.numTxs && p.numTxs * p.fee <= p.amount < TWO_64
    ensures Chain(p)[i].inputAmount == p.amount - i * p.fee
    ensures Chain(p)[i].outputAmount == p.amount - (i + 1) * p.fee
    ensures Chain(p)[i].outputAmount == p.amount - p.numTxs * p.fee + (p.numTxs - 1 - i) * p.fee
  {
    ChainNth(p, i);
    FeesPaid(p, i);
    var paid, owed := i * p.fee, (i + 1) * p.fee;
    WrapOfExact(p.amount - paid);
    WrapOfExact(p.amount - owed);
  }

  lemma {:induction false} FeeFits(p: Plan)
    requires 0 < p.numTxs && p.numTxs * p.fee <= p.amount < TWO_64
    ensures p.fee < TWO_64
  {
    ScaleMonotone(1, p.numTxs, p.fee);
  }

  lemma {:induction false} WrapBelowZero(x: int)
    requires 0 - TWO_64 < x < 0
    ensures Wrap(x) == x + TWO_64
  {
    ModShift(x, 1);
    WrapOfExact(x + TWO_64);
  }

  /** The unused amount is a whole word above what is left, and no output reaches that far up. */
  lemma {:induction false} OutputIsNotUnused(p: Plan, i: nat)
    requires i < p.numTxs && p.numTxs * p.fee <= p.amount < TWO_64 && p.amount < (p.numTxs + 1) * p.fee
    ensures Chain(p)[i].outputAmount != Wrap(p.amount - (p.numTxs + 1) * p.fee)
  {
    EmittedAmountsAreExact(p, i);
    FeesPaid(p, i);
    var left, rest := p.amount - p.numTxs * p.fee, (p.numTxs - 1 - i) * p.fee;
    assert (p.numTxs + 1) * p.fee == p.numTxs * p.fee + p.fee;
    FeeFits(p);
    WrapBelowZero(left - p.fee);
    assert Chain(p)[i].outputAmount == left + rest;
    assert rest + p.fee <= p.numTxs * p.fee;
  }

  /** The value of `outputAmount` that the loop leaves behind wraps exactly when less than one fee would be
      left, and then no transaction has it as its output. */
  lemma {:induction false} OnlyTheUnusedAmountWraps(p: Plan)
    requires p.numTxs * p.fee <= p.amount < TWO_64
    ensures Wrap(p.amount - (p.numTxs + 1) * p.fee) != p.amount - (p.numTxs + 1) * p.fee
       <==> p.amount < (p.numTxs + 1) * p.fee
    ensures p.amount < (p.numTxs + 1) * p.fee ==>
              forall i :: 0 <= i < p.numTxs ==> Chain(p)[i].outputAmount != Wrap(p.amount - (p.numTxs + 1) * p.fee)
  {
    assert (p.numTxs + 1) * p.fee == p.numTxs * p.fee + p.fee;
    ProductIsNat(p.numTxs + 1, p.fee);
    var unused := p.amount - (p.numTxs + 1) * p.fee;
    WrapOfExact(unused);
    if unused < 0 {
      forall i | 0 <= i < p.numTxs ensures Chain(p)[i].outputAmount != Wrap(unused) {
        OutputIsNotUnused(p, i);
      }
    }
  }
}
