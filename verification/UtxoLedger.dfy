/** The X-Chain ledger that the bombard test issues to, for transactions with one input and one output.

    A transaction's ID is an injective function of its content and a UTXO names its producing
    transaction, so a UTXO ID carries its whole history. `Antichain` says that no live UTXO is an
    ancestor of another; every accepted run keeps it, and from it follow freshness of every
    produced UTXO and the absence of double spends. */
module UtxoLedger {
  import opened MachineInts
  import opened Options
  import opened MapSums

  type Address = string

  datatype TxId = TxId(tx: Tx)

  datatype UtxoId =
    | Funding(serial: nat)
    | OutputOf(txId: TxId, index: nat)

  datatype Utxo = Utxo(id: UtxoId, amount: uint64, owner: Address)

  datatype Tx = Tx(spends: UtxoId, inputAmount: uint64, outputAmount: uint64, payee: Address, signer: Address)
  {
    function Id(): TxId {
      TxId(this)
    }

    function Utxos(): (utxos: seq<Utxo>)
      ensures |utxos| == 1
    {
      [Utxo(OutputOf(Id(), 0), outputAmount, payee)]
    }
  }

  datatype Coin = Coin(amount: nat, owner: Address)

  type Ledger = map<UtxoId, Coin>

  /** What the chain charges for a transaction and the least amount it lets an output hold. */
  datatype Rules = Rules(txFee: nat, minOutput: nat)

  predicate Accepts(rules: Rules, l: Ledger, tx: Tx) {
    && tx.spends in l
    && l[tx.spends] == Coin(tx.inputAmount, tx.signer)
    && tx.outputAmount + rules.txFee <= tx.inputAmount
    && rules.minOutput <= tx.outputAmount
  }

  function Apply(rules: Rules, l: Ledger, tx: Tx): Option<Ledger> {
    if Accepts(rules, l, tx) then
      Some((l - {tx.spends})[tx.Utxos()[0].id := Coin(tx.outputAmount, tx.payee)])
    else
      None
  }

  /** Issues the transactions in order; `None` when one of them is refused. */
  function Run(rules: Rules, l: Ledger, txs: seq<Tx>): Option<Ledger>
    decreases |txs|
  {
    if txs == [] then Some(l)
    else
      match Apply(rules, l, txs[0])
      case None => None
      case Some(next) => Run(rules, next, txs[1..])
  }

  lemma {:induction false} RunConcat(rules: Rules, l: Ledger, a: seq<Tx>, b: seq<Tx>)
    ensures Run(rules, l, a + b) ==
            match Run(rules, l, a) { case None => None case Some(m) => Run(rules, m, b) }
    decreases |a|
  {
    if a == [] {
      assert a + b == b;
    } else {
      assert (a + b)[1..] == a[1..] + b;
      var next := Apply(rules, l, a[0]);
      if next.Some? {
        RunConcat(rules, next.value, a[1..], b);
      }
    }
  }

  lemma RunSnoc(rules: Rules, l: Ledger, txs: seq<Tx>, tx: Tx)
    ensures Run(rules, l, txs + [tx]) ==
            match Run(rules, l, txs) { case None => None case Some(m) => Apply(rules, m, tx) }
  {
    RunConcat(rules, l, txs, [tx]);
    match Run(rules, l, txs)
    case None =>
    case Some(m) =>
      assert [tx][1..] == [];
  }

  // ---------- ancestry ----------

  /** `v` is a strict ancestor of `u`. */
  predicate Descends(u: UtxoId, v: UtxoId) {
    u.OutputOf? && (u.txId.tx.spends == v || Descends(u.txId.tx.spends, v))
  }

  function Depth(u: UtxoId): nat {
    match u
    case Funding(_) => 0
    case OutputOf(id, _) => 1 + Depth(id.tx.spends)
  }

  lemma {:induction false} DescendsDeeper(u: UtxoId, v: UtxoId)
    requires Descends(u, v)
    ensures Depth(v) < Depth(u)
    ensures u != v
  {
    if u.txId.tx.spends != v {
      DescendsDeeper(u.txId.tx.spends, v);
    }
  }

  lemma {:induction false} DescendsTransitive(u: UtxoId, v: UtxoId, w: UtxoId)
    requires Descends(u, v) && Descends(v, w)
    ensures Descends(u, w)
  {
    if u.txId.tx.spends != v {
      DescendsTransitive(u.txId.tx.spends, v, w);
    }
  }

  /** One input per transaction: the ancestors of a UTXO form a single line. */
  lemma {:induction false} AncestorsAreComparable(u: UtxoId, v: UtxoId, w: UtxoId)
    requires Descends(u, v) && Descends(u, w)
    ensures v == w || Descends(v, w) || Descends(w, v)
  {
    var p := u.txId.tx.spends;
    if p != v && p != w {
      AncestorsAreComparable(p, v, w);
    }
  }

  ghost predicate Antichain(l: Ledger) {
    forall u, v :: u in l && v in l ==> !Descends(u, v)
  }

  /** The output of an accepted transaction never overwrites a live UTXO. */
  lemma AcceptedOutputIsFresh(rules: Rules, l: Ledger, tx: Tx)
    requires Antichain(l) && Accepts(rules, l, tx)
    ensures tx.Utxos()[0].id !in l
  {
    assert Descends(tx.Utxos()[0].id, tx.spends);
  }

  lemma ApplyKeepsAntichain(rules: Rules, l: Ledger, tx: Tx)
    requires Antichain(l) && Accepts(rules, l, tx)
    ensures Antichain(Apply(rules, l, tx).value)
  {
    var l' := Apply(rules, l, tx).value;
    var out := tx.Utxos()[0].id;
    forall u, v | u in l' && v in l' ensures !Descends(u, v) {
      if u == out && v == out {
        if Descends(u, v) {
          DescendsDeeper(u, v);
        }
      } else if u == out {
        assert v in l;
        assert !Descends(tx.spends, v);
      } else if v == out {
        if Descends(u, v) {
          DescendsTransitive(u, out, tx.spends);
          assert false;
        }
      } else {
        assert u in l && v in l;
      }
    }
  }

  lemma {:induction false} RunKeepsAntichain(rules: Rules, l: Ledger, txs: seq<Tx>)
    requires Antichain(l) && Run(rules, l, txs).Some?
    ensures Antichain(Run(rules, l, txs).value)
    decreases |txs|
  {
    if txs != [] {
      ApplyKeepsAntichain(rules, l, txs[0]);
      RunKeepsAntichain(rules, Apply(rules, l, txs[0]).value, txs[1..]);
    }
  }

  // ---------- no double spend ----------

  /** `u` has been consumed: something live descends from it. */
  ghost predicate Consumed(l: Ledger, u: UtxoId) {
    exists d :: d in l && Descends(d, u)
  }

  lemma ConsumedStays(rules: Rules, l: Ledger, tx: Tx, u: UtxoId)
    requires Accepts(rules, l, tx) && (Consumed(l, u) || tx.spends == u)
    ensures Consumed(Apply(rules, l, tx).value, u)
  {
    var l' := Apply(rules, l, tx).value;
    var out := tx.Utxos()[0].id;
    if tx.spends == u {
      assert out in l' && Descends(out, u);
    } else {
      var d :| d in l && Descends(d, u);
      if d == tx.spends {
        assert out in l' && Descends(out, u);
      } else {
        assert d in l';
      }
    }
  }

  lemma {:induction false} ConsumedNeverSpentAgain(rules: Rules, l: Ledger, txs: seq<Tx>, u: UtxoId)
    requires Antichain(l) && Consumed(l, u) && Run(rules, l, txs).Some?
    ensures u !in l
    ensures forall i :: 0 <= i < |txs| ==> txs[i].spends != u
    decreases |txs|
  {
    if txs != [] {
      ApplyKeepsAntichain(rules, l, txs[0]);
      ConsumedStays(rules, l, txs[0], u);
      ConsumedNeverSpentAgain(rules, Apply(rules, l, txs[0]).value, txs[1..], u);
    }
  }

  /** In any accepted run no UTXO is spent twice, so no transaction is accepted twice. */
  lemma {:induction false} NoDoubleSpend(rules: Rules, l: Ledger, txs: seq<Tx>)
    requires Antichain(l) && Run(rules, l, txs).Some?
    ensures forall i, j :: 0 <= i < j < |txs| ==> txs[i].spends != txs[j].spends
    decreases |txs|
  {
    if txs != [] {
      var next := Apply(rules, l, txs[0]).value;
      ApplyKeepsAntichain(rules, l, txs[0]);
      ConsumedStays(rules, l, txs[0], txs[0].spends);
      ConsumedNeverSpentAgain(rules, next, txs[1..], txs[0].spends);
      NoDoubleSpend(rules, next, txs[1..]);
      forall i, j | 0 <= i < j < |txs| ensures txs[i].spends != txs[j].spends {
        if i > 0 {
          assert txs[i] == txs[1..][i - 1];
        }
        assert txs[j] == txs[1..][j - 1];
      }
    }
  }

  // ---------- conservation ----------

  ghost function Amounts(l: Ledger): map<UtxoId, nat> {
    map u | u in l :: l[u].amount
  }

  ghost function Total(l: Ledger): nat {
    Sum(Amounts(l))
  }

  function Burnt(txs: seq<Tx>): int {
    if txs == [] then 0 else txs[0].inputAmount - txs[0].outputAmount + Burnt(txs[1..])
  }

  lemma ApplyConserves(rules: Rules, l: Ledger, tx: Tx)
    requires Antichain(l) && Accepts(rules, l, tx)
    ensures Total(Apply(rules, l, tx).value) + tx.inputAmount - tx.outputAmount == Total(l)
  {
    var l' := Apply(rules, l, tx).value;
    var out := tx.Utxos()[0].id;
    AcceptedOutputIsFresh(rules, l, tx);
    var rest := Amounts(l) - {tx.spends};
    SumSplit(Amounts(l), tx.spends);
    assert Amounts(l') == rest[out := tx.outputAmount];
    SumUpdate(rest, out, tx.outputAmount);
    assert rest - {out} == rest;
  }

  /** What an accepted run takes out of circulation is exactly what its transactions burn,
      and that is at least one fee each. */
  lemma {:induction false} RunConserves(rules: Rules, l: Ledger, txs: seq<Tx>)
    requires Antichain(l) && Run(rules, l, txs).Some?
    ensures Total(Run(rules, l, txs).value) + Burnt(txs) == Total(l)
    ensures |txs| * rules.txFee <= Burnt(txs)
    decreases |txs|
  {
    if txs != [] {
      ApplyConserves(rules, l, txs[0]);
      ApplyKeepsAntichain(rules, l, txs[0]);
      RunConserves(rules, Apply(rules, l, txs[0]).value, txs[1..]);
      assert |txs| * rules.txFee == (|txs| - 1) * rules.txFee + rules.txFee;
    }
  }
}
