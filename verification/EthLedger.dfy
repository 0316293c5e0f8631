/** The C-Chain accounts that the throughput test writes to, for plain value transfers.
    Validity is that of section 6 of the Ethereum Yellow Paper: the nonce is the sender's, and the
    balance covers the up-front cost. */
module EthLedger {
  import opened MachineInts
  import opened Options
  import opened MapSums

  type Address = string

  /** Gas of a plain transfer, and the gas price of 470 GWei that the generator offers. */
  const TRANSFER_GAS: nat := 21000
  const GAS_PRICE: nat := 470_000_000_000

  datatype Account = Account(nonce: nat, balance: nat)

  datatype EthTx = EthTx(sender: Address, nonce: uint64, payee: Address, value: nat, gasLimit: nat, gasPrice: nat)

  datatype EthState = EthState(accounts: map<Address, Account>, fees: nat)
  {
    /** An account nobody has touched is empty. */
    function At(a: Address): Account {
      if a in accounts then accounts[a] else Account(0, 0)
    }
  }

  predicate Accepts(s: EthState, tx: EthTx) {
    && tx.nonce == s.At(tx.sender).nonce
    && tx.gasLimit * tx.gasPrice + tx.value <= s.At(tx.sender).balance
    && TRANSFER_GAS <= tx.gasLimit
  }

  /** The sender pays fee and value and moves to its next nonce; the payee, maybe the same account, gets the value. */
  function Transferred(accounts: map<Address, Account>, from: Address, to: Address, fee: nat,
                       value: nat): map<Address, Account>
    requires fee + value <= EthState(accounts, 0).At(from).balance
  {
    var sender := EthState(accounts, 0).At(from);
    var charged := accounts[from := Account(sender.nonce + 1, sender.balance - fee - value)];
    var payee := EthState(charged, 0).At(to);
    charged[to := Account(payee.nonce, payee.balance + value)]
  }

  function Apply(s: EthState, tx: EthTx): Option<EthState> {
    if !Accepts(s, tx) then None
    else
      ChargeFits(tx);
      var fee: nat := TRANSFER_GAS * tx.gasPrice;
      Some(EthState(Transferred(s.accounts, tx.sender, tx.payee, fee, tx.value), s.fees + fee))
  }

  lemma {:induction false} ChargeFits(tx: EthTx)
    requires TRANSFER_GAS <= tx.gasLimit
    ensures 0 <= TRANSFER_GAS * tx.gasPrice <= tx.gasLimit * tx.gasPrice
  {
    ScaleMonotone(TRANSFER_GAS, tx.gasLimit, tx.gasPrice);
  }

  function Run(s: EthState, txs: seq<EthTx>): Option<EthState>
    decreases |txs|
  {
    if txs == [] then Some(s)
    else
      match Apply(s, txs[0])
      case None => None
      case Some(next) => Run(next, txs[1..])
  }

  lemma {:induction false} RunConcat(s: EthState, a: seq<EthTx>, b: seq<EthTx>)
    ensures Run(s, a + b) == match Run(s, a) { case None => None case Some(m) => Run(m, b) }
    decreases |a|
  {
    if a == [] {
      assert a + b == b;
    } else {
      assert (a + b)[1..] == a[1..] + b;
      var next := Apply(s, a[0]);
      if next.Some? {
        RunConcat(next.value, a[1..], b);
      }
    }
  }

  lemma {:induction false} RunSnoc(s: EthState, txs: seq<EthTx>, tx: EthTx)
    ensures Run(s, txs + [tx]) == match Run(s, txs) { case None => None case Some(m) => Apply(m, tx) }
  {
    RunConcat(s, txs, [tx]);
    match Run(s, txs)
    case None =>
    case Some(m) =>
      assert [tx][1..] == [];
  }

  // ---------- conservation ----------

  ghost function Balances(accounts: map<Address, Account>): map<Address, nat> {
    map a | a in accounts :: accounts[a].balance
  }

  /** All the value there is: what accounts hold and what was paid in fees. */
  ghost function Total(s: EthState): nat {
    Sum(Balances(s.accounts)) + s.fees
  }

  /** Rewriting one account changes the sum by the change of that account. */
  lemma {:induction false} RewriteAccount(accounts: map<Address, Account>, a: Address, account: Account)
    ensures Sum(Balances(accounts[a := account])) ==
            Sum(Balances(accounts)) - EthState(accounts, 0).At(a).balance + account.balance
  {
    var before, after := Balances(accounts), Balances(accounts[a := account]);
    assert after == before[a := account.balance];
    SumUpdate(before, a, account.balance);
    if a in accounts {
      SumSplit(before, a);
    } else {
      assert before - {a} == before;
    }
  }

  lemma {:induction false} SelfTransferConserves(accounts: map<Address, Account>, from: Address, fee: nat, value: nat)
    requires fee + value <= EthState(accounts, 0).At(from).balance
    ensures Sum(Balances(Transferred(accounts, from, from, fee, value))) + fee == Sum(Balances(accounts))
  {
    var sender := EthState(accounts, 0).At(from);
    var charged := accounts[from := Account(sender.nonce + 1, sender.balance - fee - value)];
    var after := Account(sender.nonce + 1, sender.balance - fee);
    assert charged[from := after] == accounts[from := after];
    RewriteAccount(accounts, from, after);
  }

  lemma {:induction false} RewriteTwo(accounts: map<Address, Account>, a: Address, b: Address, first: Account,
                                      second: Account)
    requires a != b
    ensures Sum(Balances(accounts[a := first][b := second])) ==
            Sum(Balances(accounts)) - EthState(accounts, 0).At(a).balance + first.balance
            - EthState(accounts, 0).At(b).balance + second.balance
  {
    RewriteAccount(accounts, a, first);
    RewriteAccount(accounts[a := first], b, second);
  }

  /** A transfer to another account rewrites two accounts. */
  lemma {:induction false} OtherTransferIs(accounts: map<Address, Account>, from: Address, to: Address, fee: nat,
                                           value: nat)
    returns (first: Account, second: Account)
    requires from != to && fee + value <= EthState(accounts, 0).At(from).balance
    ensures Transferred(accounts, from, to, fee, value) == accounts[from := first][to := second]
    ensures first.balance == EthState(accounts, 0).At(from).balance - fee - value
    ensures second.balance == EthState(accounts, 0).At(to).balance + value
  {
    var sender, payee := EthState(accounts, 0).At(from), EthState(accounts, 0).At(to);
    first, second := Account(sender.nonce + 1, sender.balance - fee - value),
      Account(payee.nonce, payee.balance + value);
  }

  lemma {:induction false} OtherTransferConserves(accounts: map<Address, Account>, from: Address, to: Address, fee: nat,
                                                  value: nat)
    requires from != to && fee + value <= EthState(accounts, 0).At(from).balance
    ensures Sum(Balances(Transferred(accounts, from, to, fee, value))) + fee == Sum(Balances(accounts))
  {
    var first, second := OtherTransferIs(accounts, from, to, fee, value);
    RewriteTwo(accounts, from, to, first, second);
  }

  lemma {:induction false} ApplyConserves(s: EthState, tx: EthTx)
    requires Accepts(s, tx)
    ensures Total(Apply(s, tx).value) == Total(s)
  {
    ChargeFits(tx);
    if tx.sender == tx.payee {
      SelfTransferConserves(s.accounts, tx.sender, TRANSFER_GAS * tx.gasPrice, tx.value);
    } else {
      OtherTransferConserves(s.accounts, tx.sender, tx.payee, TRANSFER_GAS * tx.gasPrice, tx.value);
    }
  }

  /** Every accepted run moves value between accounts and fees without creating or losing any. */
  lemma {:induction false} RunConserves(s: EthState, txs: seq<EthTx>)
    requires Run(s, txs).Some?
    ensures Total(Run(s, txs).value) == Total(s)
    decreases |txs|
  {
    if txs != [] {
      ApplyConserves(s, txs[0]);
      RunConserves(Apply(s, txs[0]).value, txs[1..]);
    }
  }
}
