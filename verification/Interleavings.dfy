/** Several generated chains issued to one ledger in any interleaving. */
module Interleavings {
  import opened MachineInts
  import opened MapSums
  import opened Options
  import opened UtxoLedger
  import opened ConsecutiveTxs
  import opened Schedules

  function Lists(plans: seq<Plan>): (lists: seq<seq<Tx>>)
    ensures |lists| == |plans|
    ensures forall i :: 0 <= i < |plans| ==> lists[i] == Chain(plans[i])
  {
    seq(|plans|, i requires 0 <= i < |plans| => Chain(plans[i]))
  }

  /** What is left of the starting amount after `k` fees; `LeftIs` gives the closed form. */
  function Left(p: Plan, k: nat): int {
    if k == 0 then p.amount else Left(p, k - 1) - p.fee
  }

  lemma {:induction false} LeftIs(p: Plan, k: nat)
    ensures Left(p, k) == p.amount - k * p.fee
  {
    if k > 0 {
      LeftIs(p, k - 1);
      assert k * p.fee == (k - 1) * p.fee + p.fee;
    }
  }

  /** After `k` transactions the output still holds what the chain asks for. */
  predicate Affordable(rules: Rules, p: Plan, k: nat) {
    k == 0 || rules.minOutput <= Left(p, k)
  }

  lemma {:induction false} AffordableDownwards(rules: Rules, p: Plan, j: nat, k: nat)
    requires j <= k && Affordable(rules, p, k)
    ensures Affordable(rules, p, j)
    decreases k
  {
    if j < k {
      AffordableDownwards(rules, p, j, k - 1);
    }
  }

  lemma {:induction false} AffordableIs(rules: Rules, p: Plan, k: nat)
    ensures Affordable(rules, p, k) <==> k == 0 || k * p.fee + rules.minOutput <= p.amount
  {
    LeftIs(p, k);
  }

  ghost predicate AllAffordable(rules: Rules, plans: seq<Plan>, sent: multiset<nat>) {
    forall i :: 0 <= i < |plans| ==> Affordable(rules, plans[i], sent[i])
  }

  /** Distinct live UTXOs, each owned by its plan's key and worth its plan's amount. */
  ghost predicate Funded(rules: Rules, l0: Ledger, plans: seq<Plan>) {
    && Antichain(l0)
    && rules.txFee < TWO_64
    && (forall i :: 0 <= i < |plans| ==>
          && plans[i].fee == rules.txFee
          && 0 <= plans[i].amount < TWO_64
          && plans[i].utxo.id in l0
          && l0[plans[i].utxo.id] == Coin(plans[i].amount, plans[i].key))
    && (forall i, j :: 0 <= i < j < |plans| ==> plans[i].utxo.id != plans[j].utxo.id)
  }

  ghost function Roots(plans: seq<Plan>): set<UtxoId> {
    set i | 0 <= i < |plans| :: plans[i].utxo.id
  }

  ghost predicate Within(plans: seq<Plan>, sent: multiset<nat>) {
    forall i :: 0 <= i < |plans| ==> sent[i] <= plans[i].numTxs
  }

  /** `l` is `l0` with every root replaced by the tip that `sent[i]` transactions of plan `i` lead to. */
  ghost predicate TipsAre(l0: Ledger, plans: seq<Plan>, sent: multiset<nat>, l: Ledger)
    requires Within(plans, sent)
  {
    && l.Keys == (l0.Keys - Roots(plans)) + TipIds(plans, sent)
    && (forall u :: u in l0.Keys - Roots(plans) ==> u in l && l[u] == l0[u])
    && (forall i :: 0 <= i < |plans| ==>
          && Tip(plans[i], sent[i]).id in l
          && l[Tip(plans[i], sent[i]).id].amount == Left(plans[i], sent[i])
          && l[Tip(plans[i], sent[i]).id].owner == plans[i].key)
  }

  lemma {:induction false} TipsDetermineLedger(l0: Ledger, plans: seq<Plan>, sent: multiset<nat>, a: Ledger, b: Ledger)
    requires Within(plans, sent) && TipsAre(l0, plans, sent, a) && TipsAre(l0, plans, sent, b)
    ensures a == b
  {
    forall u | u in a ensures u in b && a[u] == b[u] {
      if u !in l0.Keys - Roots(plans) {
        var i :| 0 <= i < |plans| && u == Tip(plans[i], sent[i]).id;
      }
    }
  }

  /** Tips of different plans never meet, and never meet the rest of the ledger. */
  lemma {:induction false} TipsApart(rules: Rules, l0: Ledger, plans: seq<Plan>, i: nat, j: nat, a: nat, b: nat)
    requires Funded(rules, l0, plans) && i < |plans| && j < |plans| && i != j
    requires a <= plans[i].numTxs && b <= plans[j].numTxs
    ensures Tip(plans[i], a).id != Tip(plans[j], b).id
  {
    var u, v := plans[i].utxo.id, plans[j].utxo.id;
    if a > 0 {
      LaterTipDescends(plans[i], 0, a);
    }
    if b > 0 {
      LaterTipDescends(plans[j], 0, b);
    }
    if a > 0 && b > 0 && Tip(plans[i], a).id == Tip(plans[j], b).id {
      AncestorsAreComparable(Tip(plans[i], a).id, u, v);
      assert false;
    }
  }

  lemma {:induction false} TipsOutsideRest(rules: Rules, l0: Ledger, plans: seq<Plan>, i: nat, a: nat)
    requires Funded(rules, l0, plans) && i < |plans| && a <= plans[i].numTxs
    ensures Tip(plans[i], a).id !in l0.Keys - Roots(plans)
  {
    if a > 0 {
      LaterTipDescends(plans[i], 0, a);
    }
  }

  /** Whether a ledger takes the truncated amounts of one step depends only on the unbounded ones. */
  lemma {:induction false} TruncatedStep(held: int, fee: nat, minOutput: nat)
    requires 0 <= held < TWO_64 && fee < TWO_64
    ensures Wrap(held) == held
    ensures Wrap(held - fee) + fee <= held && minOutput <= Wrap(held - fee) <==> fee + minOutput <= held
    ensures fee + minOutput <= held ==> Wrap(held - fee) == held - fee
  {
    WrapOfExact(held);
    WrapOfExact(held - fee);
  }

  lemma {:induction false} LeftAtMost(p: Plan, k: nat)
    ensures Left(p, k) <= p.amount
  {
    if k > 0 {
      LeftAtMost(p, k - 1);
    }
  }

  lemma {:induction false} StepAmounts(rules: Rules, p: Plan, k: nat)
    requires k < p.numTxs && Affordable(rules, p, k)
    requires 0 <= p.amount < TWO_64 && p.fee == rules.txFee < TWO_64
    ensures Chain(p)[k].inputAmount == Left(p, k)
    ensures Chain(p)[k].outputAmount + rules.txFee <= Chain(p)[k].inputAmount
            && rules.minOutput <= Chain(p)[k].outputAmount
       <==> Affordable(rules, p, k + 1)
    ensures Affordable(rules, p, k + 1) ==> Chain(p)[k].outputAmount == Left(p, k + 1)
  {
    ChainNth(p, k);
    LeftIs(p, k);
    LeftIs(p, k + 1);
    LeftAtMost(p, k);
    TruncatedStep(Left(p, k), p.fee, rules.minOutput);
  }

  /** The tip of plan `i` as `TipsAre` describes it. */
  lemma {:induction false} TipCoin(l0: Ledger, plans: seq<Plan>, sent: multiset<nat>, l: Ledger, i: nat)
    requires Within(plans, sent) && TipsAre(l0, plans, sent, l) && i < |plans|
    ensures var p := plans[i];
            Tip(p, sent[i]).id in l && l[Tip(p, sent[i]).id].amount == Left(p, sent[i])
            && l[Tip(p, sent[i]).id].owner == p.key
  {
  }

  lemma {:induction false} StepAccepted(rules: Rules, l0: Ledger, plans: seq<Plan>, sent: multiset<nat>, l: Ledger,
                                        i: nat)
    requires Funded(rules, l0, plans) && Within(plans, sent) && TipsAre(l0, plans, sent, l)
    requires i < |plans| && sent[i] < plans[i].numTxs && Affordable(rules, plans[i], sent[i])
    ensures Accepts(rules, l, Chain(plans[i])[sent[i]]) <==> Affordable(rules, plans[i], sent[i] + 1)
  {
    TipCoin(l0, plans, sent, l, i);
    StepAmounts(rules, plans[i], sent[i]);
    ChainNth(plans[i], sent[i]);
  }

  ghost function TipIds(plans: seq<Plan>, sent: multiset<nat>): set<UtxoId>
    requires Within(plans, sent)
  {
    set i | 0 <= i < |plans| :: Tip(plans[i], sent[i]).id
  }

  /** Sending one more transaction of plan `i` changes that plan's tip and no other. */
  ghost predicate OneTipMoves(l0: Ledger, plans: seq<Plan>, sent: multiset<nat>, sent': multiset<nat>, i: nat)
    requires i < |plans| && Within(plans, sent) && Within(plans, sent')
  {
    var was, now := Tip(plans[i], sent[i]).id, Tip(plans[i], sent'[i]).id;
    && was !in l0.Keys - Roots(plans)
    && now !in l0.Keys - Roots(plans)
    && (forall j :: 0 <= j < |plans| && j != i ==>
          sent'[j] == sent[j] && Tip(plans[j], sent[j]).id != was && Tip(plans[j], sent[j]).id != now)
    && TipIds(plans, sent') == TipIds(plans, sent) - {was} + {now}
  }

  lemma {:induction false} StepMovesTip(rules: Rules, l0: Ledger, plans: seq<Plan>, sent: multiset<nat>,
                                        sent': multiset<nat>, i: nat)
    requires Funded(rules, l0, plans) && Within(plans, sent) && i < |plans| && sent[i] < plans[i].numTxs
    requires sent' == sent + multiset{i}
    ensures sent'[i] == sent[i] + 1 && Within(plans, sent') && OneTipMoves(l0, plans, sent, sent', i)
  {
    assert sent'[i] == sent[i] + 1;
    var was, now := Tip(plans[i], sent[i]).id, Tip(plans[i], sent'[i]).id;
    forall j | 0 <= j < |plans| && j != i
      ensures sent'[j] == sent[j] && Tip(plans[j], sent[j]).id != was && Tip(plans[j], sent[j]).id != now
    {
      TipsApart(rules, l0, plans, i, j, sent[i], sent[j]);
      TipsApart(rules, l0, plans, i, j, sent'[i], sent[j]);
    }
    TipsOutsideRest(rules, l0, plans, i, sent[i]);
    TipsOutsideRest(rules, l0, plans, i, sent'[i]);
    TipIdsMove(plans, sent, sent', i);
  }

  lemma {:induction false} TipIdsMove(plans: seq<Plan>, sent: multiset<nat>, sent': multiset<nat>, i: nat)
    requires i < |plans| && Within(plans, sent) && Within(plans, sent')
    requires forall j :: 0 <= j < |plans| && j != i ==>
               sent'[j] == sent[j] && Tip(plans[j], sent[j]).id != Tip(plans[i], sent[i]).id
    ensures TipIds(plans, sent') == TipIds(plans, sent) - {Tip(plans[i], sent[i]).id} + {Tip(plans[i], sent'[i]).id}
  {
    var was, now := Tip(plans[i], sent[i]).id, Tip(plans[i], sent'[i]).id;
    forall u | u in TipIds(plans, sent') ensures u in TipIds(plans, sent) - {was} + {now} {
      var j :| 0 <= j < |plans| && u == Tip(plans[j], sent'[j]).id;
    }
    forall u | u in TipIds(plans, sent) - {was} + {now} ensures u in TipIds(plans, sent') {
      if u == now {
        assert u == Tip(plans[i], sent'[i]).id;
      } else {
        var j :| 0 <= j < |plans| && u == Tip(plans[j], sent[j]).id;
        assert u == Tip(plans[j], sent'[j]).id;
      }
    }
  }

  /** `l'` is `l` with tip `k` of the plan replaced by tip `k + 1`, worth what is left then. */
  ghost predicate TipReplaced(l: Ledger, l': Ledger, p: Plan, k: nat)
    requires k < p.numTxs
  {
    0 <= Left(p, k + 1) && l' == (l - {Tip(p, k).id})[Tip(p, k + 1).id := Coin(Left(p, k + 1), p.key)]
  }

  lemma {:induction false} AppliedStep(rules: Rules, l0: Ledger, plans: seq<Plan>, sent: multiset<nat>, l: Ledger,
                                       l': Ledger, i: nat, k: nat)
    requires Funded(rules, l0, plans) && Within(plans, sent) && TipsAre(l0, plans, sent, l)
    requires i < |plans| && sent[i] == k < plans[i].numTxs
    requires Affordable(rules, plans[i], k) && Affordable(rules, plans[i], k + 1)
    requires Apply(rules, l, Chain(plans[i])[k]) == Some(l')
    ensures TipReplaced(l, l', plans[i], k)
  {
    StepAccepted(rules, l0, plans, sent, l, i);
    StepAmounts(rules, plans[i], k);
    ChainNth(plans[i], k);
  }

  lemma {:induction false} ReplacedTip(l0: Ledger, plans: seq<Plan>, sent: multiset<nat>, sent': multiset<nat>,
                                       l: Ledger, l': Ledger, i: nat)
    requires Within(plans, sent) && Within(plans, sent') && TipsAre(l0, plans, sent, l)
    requires i < |plans| && sent[i] < plans[i].numTxs && sent'[i] == sent[i] + 1
    requires TipReplaced(l, l', plans[i], sent[i]) && OneTipMoves(l0, plans, sent, sent', i)
    ensures TipsAre(l0, plans, sent', l')
  {
    assert l'.Keys == l.Keys - {Tip(plans[i], sent[i]).id} + {Tip(plans[i], sent'[i]).id};
    forall j | 0 <= j < |plans|
      ensures Tip(plans[j], sent'[j]).id in l'
           && l'[Tip(plans[j], sent'[j]).id].amount == Left(plans[j], sent'[j])
           && l'[Tip(plans[j], sent'[j]).id].owner == plans[j].key
    {
      TipCoin(l0, plans, sent, l, j);
    }
  }

  lemma {:induction false} MovedTip(rules: Rules, l0: Ledger, plans: seq<Plan>, sent: multiset<nat>,
                                    sent': multiset<nat>, l: Ledger, l': Ledger, i: nat)
    requires Funded(rules, l0, plans) && Within(plans, sent) && TipsAre(l0, plans, sent, l)
    requires i < |plans| && sent[i] < plans[i].numTxs && sent' == sent + multiset{i}
    requires TipReplaced(l, l', plans[i], sent[i])
    ensures Within(plans, sent') && TipsAre(l0, plans, sent', l')
  {
    StepMovesTip(rules, l0, plans, sent, sent', i);
    ReplacedTip(l0, plans, sent, sent', l, l', i);
  }

  lemma {:induction false} StepMovesOneTip(rules: Rules, l0: Ledger, plans: seq<Plan>, sent: multiset<nat>,
                                           sent': multiset<nat>, l: Ledger, l': Ledger, i: nat)
    requires Funded(rules, l0, plans) && Within(plans, sent) && TipsAre(l0, plans, sent, l)
    requires i < |plans| && sent[i] < plans[i].numTxs && sent' == sent + multiset{i}
    requires Affordable(rules, plans[i], sent[i]) && Affordable(rules, plans[i], sent[i] + 1)
    requires Apply(rules, l, Chain(plans[i])[sent[i]]) == Some(l')
    ensures Within(plans, sent') && TipsAre(l0, plans, sent', l')
  {
    AppliedStep(rules, l0, plans, sent, l, l', i, sent[i]);
    MovedTip(rules, l0, plans, sent, sent', l, l', i);
  }

  /** For every schedule: the ledger takes all of it exactly when each plan can afford what the schedule
      asks of it, and then only the number sent from each plan decides the resulting ledger. */
  lemma {:induction false} ScheduleTheorem(rules: Rules, l0: Ledger, plans: seq<Plan>, sched: seq<nat>)
    requires Funded(rules, l0, plans) && Valid(Lists(plans), sched)
    ensures Within(plans, multiset(sched))
    ensures Run(rules, l0, Merge(Lists(plans), sched)).Some? <==> AllAffordable(rules, plans, multiset(sched))
    ensures Run(rules, l0, Merge(Lists(plans), sched)).Some? ==>
              TipsAre(l0, plans, multiset(sched), Run(rules, l0, Merge(Lists(plans), sched)).value)
    decreases |sched|
  {
    WithinValid(plans, sched);
    if sched == [] {
      EmptySchedule(l0, plans);
    } else {
      var before, i := sched[..|sched| - 1], sched[|sched| - 1];
      assert sched == before + [i];
      MergeStep(Lists(plans), before, i);
      ScheduleTheorem(rules, l0, plans, before);
      RunSnoc(rules, l0, Merge(Lists(plans), before), Chain(plans[i])[multiset(before)[i]]);
      OutcomeStep(rules, l0, plans, multiset(before), multiset(sched), Run(rules, l0, Merge(Lists(plans), before)),
                  Run(rules, l0, Merge(Lists(plans), sched)), i);
    }
  }

  lemma {:induction false} WithinValid(plans: seq<Plan>, sched: seq<nat>)
    requires Valid(Lists(plans), sched)
    ensures Within(plans, multiset(sched))
  {
    forall i | 0 <= i < |plans| ensures multiset(sched)[i] <= plans[i].numTxs {
      if i in sched {
      }
    }
  }

  lemma {:induction false} EmptySchedule(l0: Ledger, plans: seq<Plan>)
    requires forall i :: 0 <= i < |plans| ==> plans[i].utxo.id in l0 && l0[plans[i].utxo.id].owner == plans[i].key
    requires forall i :: 0 <= i < |plans| ==> l0[plans[i].utxo.id].amount == plans[i].amount
    ensures Within(plans, multiset{}) && TipsAre(l0, plans, multiset{}, l0)
  {
    var tips := set i | 0 <= i < |plans| :: Tip(plans[i], 0).id;
    assert tips == Roots(plans) by {
      forall u | u in Roots(plans) ensures u in tips {
        var i :| 0 <= i < |plans| && u == plans[i].utxo.id;
        assert u == Tip(plans[i], 0).id;
      }
    }
  }

  /** What a run looks like when `sent[i]` transactions of plan `i` have been issued. */
  ghost predicate Outcome(rules: Rules, l0: Ledger, plans: seq<Plan>, sent: multiset<nat>, r: Option<Ledger>)
    requires Within(plans, sent)
  {
    && (r.Some? <==> AllAffordable(rules, plans, sent))
    && (r.Some? ==> TipsAre(l0, plans, sent, r.value))
  }

  lemma {:induction false} OutcomeStep(rules: Rules, l0: Ledger, plans: seq<Plan>, sent: multiset<nat>,
                                       sent': multiset<nat>, r: Option<Ledger>, r': Option<Ledger>, i: nat)
    requires Funded(rules, l0, plans) && Within(plans, sent) && Outcome(rules, l0, plans, sent, r)
    requires i < |plans| && sent[i] < plans[i].numTxs && sent' == sent + multiset{i}
    requires r' == match r { case None => None case Some(l) => Apply(rules, l, Chain(plans[i])[sent[i]]) }
    ensures Within(plans, sent') && Outcome(rules, l0, plans, sent', r')
  {
    if r.Some? {
      StepAccepted(rules, l0, plans, sent, r.value, i);
      AllAffordableStep(rules, plans, sent, sent', i);
      if r'.Some? {
        StepMovesOneTip(rules, l0, plans, sent, sent', r.value, r'.value, i);
      }
    } else {
      var j :| 0 <= j < |plans| && !Affordable(rules, plans[j], sent[j]);
      if Affordable(rules, plans[j], sent'[j]) {
        AffordableDownwards(rules, plans[j], sent[j], sent'[j]);
      }
    }
    assert sent'[i] == sent[i] + 1;
    forall j | 0 <= j < |plans| && j != i ensures sent'[j] == sent[j] {
    }
  }

  lemma {:induction false} AllAffordableStep(rules: Rules, plans: seq<Plan>, sent: multiset<nat>, sent': multiset<nat>,
                                             i: nat)
    requires i < |plans| && sent' == sent + multiset{i} && AllAffordable(rules, plans, sent)
    ensures AllAffordable(rules, plans, sent') <==> Affordable(rules, plans[i], sent[i] + 1)
  {
    assert sent'[i] == sent[i] + 1;
    forall j | 0 <= j < |plans| && j != i ensures sent'[j] == sent[j] {
    }
  }

  /** Two accepted schedules that send as many transactions of each plan end in the same ledger. */
  lemma {:induction false} SameCountsSameLedger(rules: Rules, l0: Ledger, plans: seq<Plan>, s: seq<nat>, t: seq<nat>)
    requires Funded(rules, l0, plans) && Valid(Lists(plans), s) && Valid(Lists(plans), t)
    requires forall i :: 0 <= i < |plans| ==> multiset(s)[i] == multiset(t)[i]
    requires Run(rules, l0, Merge(Lists(plans), s)).Some? && Run(rules, l0, Merge(Lists(plans), t)).Some?
    ensures Run(rules, l0, Merge(Lists(plans), s)) == Run(rules, l0, Merge(Lists(plans), t))
  {
    ScheduleTheorem(rules, l0, plans, s);
    ScheduleTheorem(rules, l0, plans, t);
    var a := Run(rules, l0, Merge(Lists(plans), s)).value;
    var b := Run(rules, l0, Merge(Lists(plans), t)).value;
    SameCountsSameTips(l0, plans, multiset(s), multiset(t), b);
    TipsDetermineLedger(l0, plans, multiset(s), a, b);
  }

  /** The schedule that issues the chains one after another, as a complete schedule. */
  lemma {:induction false} InOrder(plans: seq<Plan>)
    ensures Complete(Lists(plans), Sequential(Lists(plans), |plans|))
    ensures Merge(Lists(plans), Sequential(Lists(plans), |plans|)) == Flatten(Lists(plans))
  {
    SequentialIsSchedule(Lists(plans), |plans|);
    SequentialCounts(Lists(plans), |plans|);
    assert Lists(plans)[..|plans|] == Lists(plans);
  }

  lemma {:induction false} CompleteIsAccepted(rules: Rules, l0: Ledger, plans: seq<Plan>, sched: seq<nat>)
    requires Funded(rules, l0, plans) && Complete(Lists(plans), sched)
    ensures Run(rules, l0, Merge(Lists(plans), sched)).Some? <==>
            forall i :: 0 <= i < |plans| ==> Affordable(rules, plans[i], plans[i].numTxs)
  {
    ScheduleTheorem(rules, l0, plans, sched);
    var sent: multiset<nat> := multiset(sched);
    assert forall i :: 0 <= i < |plans| ==> sent[i] == |Lists(plans)[i]|;
  }

  /** Confluence: any two complete interleavings agree, taken or refused, and when every chain is affordable
      all of them end in the ledger that issuing the lists one after another ends in. */
  lemma {:induction false} Confluence(rules: Rules, l0: Ledger, plans: seq<Plan>, sched: seq<nat>)
    requires Funded(rules, l0, plans) && Complete(Lists(plans), sched)
    ensures Run(rules, l0, Merge(Lists(plans), sched)) == Run(rules, l0, Flatten(Lists(plans)))
    ensures Run(rules, l0, Merge(Lists(plans), sched)).Some? <==>
            forall i :: 0 <= i < |plans| ==> Affordable(rules, plans[i], plans[i].numTxs)
  {
    InOrder(plans);
    var inOrder := Sequential(Lists(plans), |plans|);
    CompleteIsAccepted(rules, l0, plans, sched);
    CompleteIsAccepted(rules, l0, plans, inOrder);
    if Run(rules, l0, Merge(Lists(plans), sched)).Some? {
      SameCountsSameLedger(rules, l0, plans, sched, inOrder);
    }
  }

  lemma {:induction false} SameCountsSameTips(l0: Ledger, plans: seq<Plan>, m: multiset<nat>, n: multiset<nat>,
                                              l: Ledger)
    requires Within(plans, m) && Within(plans, n) && TipsAre(l0, plans, n, l)
    requires forall i :: 0 <= i < |plans| ==> m[i] == n[i]
    ensures TipsAre(l0, plans, m, l)
  {
    var a := set i | 0 <= i < |plans| :: Tip(plans[i], m[i]).id;
    var b := set i | 0 <= i < |plans| :: Tip(plans[i], n[i]).id;
    assert a == b by {
      forall u | u in b ensures u in a {
        var i :| 0 <= i < |plans| && u == Tip(plans[i], n[i]).id;
        assert u == Tip(plans[i], m[i]).id;
      }
    }
  }

  ghost function FinalTips(plans: seq<Plan>): set<UtxoId> {
    set i | 0 <= i < |plans| :: Tip(plans[i], plans[i].numTxs).id
  }

  /** The ledger after a complete, accepted schedule: each root is replaced by its chain's last UTXO. */
  lemma {:induction false} AfterAll(rules: Rules, l0: Ledger, plans: seq<Plan>, sched: seq<nat>)
    requires Funded(rules, l0, plans) && Complete(Lists(plans), sched)
    requires Run(rules, l0, Merge(Lists(plans), sched)).Some?
    ensures var l := Run(rules, l0, Merge(Lists(plans), sched)).value;
            && l.Keys == (l0.Keys - Roots(plans)) + FinalTips(plans)
            && (forall i :: 0 <= i < |plans| ==>
                  && Tip(plans[i], plans[i].numTxs).id in l
                  && l[Tip(plans[i], plans[i].numTxs).id].amount == Left(plans[i], plans[i].numTxs)
                  && l[Tip(plans[i], plans[i].numTxs).id].owner == plans[i].key)
  {
    ScheduleTheorem(rules, l0, plans, sched);
    var l := Run(rules, l0, Merge(Lists(plans), sched)).value;
    var sent: multiset<nat> := multiset(sched);
    forall i | 0 <= i < |plans|
      ensures sent[i] == plans[i].numTxs
      ensures Tip(plans[i], plans[i].numTxs).id in l
           && l[Tip(plans[i], plans[i].numTxs).id].amount == Left(plans[i], plans[i].numTxs)
           && l[Tip(plans[i], plans[i].numTxs).id].owner == plans[i].key
    {
      TipCoin(l0, plans, sent, l, i);
    }
    assert TipIds(plans, sent) == FinalTips(plans);
  }

  /** One chain on its own: after `k` transactions exactly one UTXO is live in place of the starting one,
      worth the amount less `k` fees; the prefix is taken exactly when that is affordable. */
  lemma {:induction false} PrefixOfOneChain(rules: Rules, l0: Ledger, p: Plan, k: nat)
    requires Funded(rules, l0, [p]) && k <= p.numTxs
    ensures Run(rules, l0, Chain(p)[..k]).Some? <==> k == 0 || k * p.fee + rules.minOutput <= p.amount
    ensures Affordable(rules, p, k) <==> k == 0 || k * p.fee + rules.minOutput <= p.amount
    ensures Affordable(rules, p, k) ==> 0 <= p.amount - k * p.fee
    ensures Affordable(rules, p, k) ==>
              Run(rules, l0, Chain(p)[..k]) ==
              Some((l0 - {p.utxo.id})[Tip(p, k).id := Coin(p.amount - k * p.fee, p.key)])
  {
    AffordableIs(rules, p, k);
    LeftIs(p, k);
    PrefixState(rules, l0, p, k);
  }

  lemma {:induction false} PrefixIsMerge(p: Plan, k: nat)
    requires k <= p.numTxs
    ensures Valid(Lists([p]), Repeat(0, k))
    ensures Merge(Lists([p]), Repeat(0, k)) == Chain(p)[..k]
    ensures multiset(Repeat(0, k))[0] == k
  {
    assert [p][0] == p;
    assert Lists([p])[0] == Chain(p);
    MergeRepeat(Lists([p]), [], 0, k);
    assert [] + Repeat(0, k) == Repeat(0, k);
    assert [] + Chain(p)[..k] == Chain(p)[..k];
  }

  lemma {:induction false} PrefixState(rules: Rules, l0: Ledger, p: Plan, k: nat)
    requires Funded(rules, l0, [p]) && k <= p.numTxs
    ensures Run(rules, l0, Chain(p)[..k]).Some? <==> Affordable(rules, p, k)
    ensures Affordable(rules, p, k) ==> 0 <= Left(p, k)
    ensures Affordable(rules, p, k) ==>
              Run(rules, l0, Chain(p)[..k]) ==
              Some((l0 - {p.utxo.id})[Tip(p, k).id := Coin(Left(p, k), p.key)])
  {
    PrefixIsMerge(p, k);
    var sched := Repeat(0, k);
    ScheduleTheorem(rules, l0, [p], sched);
    var sent: multiset<nat> := multiset(sched);
    assert [p][0] == p && sent[0] == k;
    if Affordable(rules, p, k) {
      assert AllAffordable(rules, [p], sent);
      OneTip(l0, p, sent, Run(rules, l0, Chain(p)[..k]).value);
    }
  }

  lemma {:induction false} OneTip(l0: Ledger, p: Plan, sent: multiset<nat>, l: Ledger)
    requires sent[0] <= p.numTxs && Within([p], sent) && TipsAre(l0, [p], sent, l)
    ensures 0 <= Left(p, sent[0])
    ensures l == (l0 - {p.utxo.id})[Tip(p, sent[0]).id := Coin(Left(p, sent[0]), p.key)]
  {
    assert [p][0] == p;
    assert Roots([p]) == {p.utxo.id};
    var tips := set i | 0 <= i < |[p]| :: Tip([p][i], sent[i]).id;
    assert tips == {Tip(p, sent[0]).id} by {
      assert Tip([p][0], sent[0]).id in tips;
    }
  }

  /** Every prefix burns exactly one fee per transaction. */
  lemma {:induction false} PrefixBurnsFees(rules: Rules, l0: Ledger, p: Plan, k: nat)
    requires Funded(rules, l0, [p]) && k <= p.numTxs && Run(rules, l0, Chain(p)[..k]).Some?
    ensures Total(Run(rules, l0, Chain(p)[..k]).value) == Total(l0) - k * p.fee
  {
    PrefixOfOneChain(rules, l0, p, k);
    assert [p][0] == p && Roots([p]) == {p.utxo.id};
    TipsOutsideRest(rules, l0, [p], 0, k);
    ReplacedCoinTotal(l0, p.utxo.id, Tip(p, k).id, Coin(p.amount - k * p.fee, p.key));
  }

  lemma {:induction false} ReplacedCoinTotal(l: Ledger, spent: UtxoId, made: UtxoId, coin: Coin)
    requires spent in l && made !in l.Keys - {spent}
    ensures Total((l - {spent})[made := coin]) == Total(l) - l[spent].amount + coin.amount
  {
    var rest := Amounts(l) - {spent};
    SumSplit(Amounts(l), spent);
    SumUpdate(rest, made, coin.amount);
    assert rest - {made} == rest;
    assert Amounts((l - {spent})[made := coin]) == rest[made := coin.amount];
  }

  /** The generator's own guard is not enough: with 2^32 transactions at a fee of 2^32 the guarded product
      wraps to zero, so a list is returned for an empty UTXO and no ledger can take it. */
  lemma {:induction false} WrappedGuardLetsUnpayableListsThrough(key: Address)
    ensures GuardPasses(0x1_0000_0000, 0, 0x1_0000_0000)
    ensures var utxo := Utxo(Funding(0), 0, key);
            var p := Plan(utxo, 0x1_0000_0000, 0, 0x1_0000_0000, key);
            Run(Rules(0x1_0000_0000, 0), map[utxo.id := Coin(0, key)], Chain(p)).None?
  {
    var utxo := Utxo(Funding(0), 0, key);
    var p := Plan(utxo, 0x1_0000_0000, 0, 0x1_0000_0000, key);
    var rules, l0 := Rules(0x1_0000_0000, 0), map[utxo.id := Coin(0, key)];
    assert [p][0] == p;
    assert Funded(rules, l0, [p]);
    PrefixOfOneChain(rules, l0, p, p.numTxs);
    assert Chain(p)[..p.numTxs] == Chain(p);
  }

  // ---------- uniqueness of order ----------

  lemma {:induction false} OnlyTheTipIsLive(p: Plan, l: Ledger, at: nat, i: nat)
    requires at <= p.numTxs && i <= p.numTxs && Antichain(l)
    requires Tip(p, at).id in l && Tip(p, i).id in l
    ensures i == at
  {
    if i < at {
      LaterTipDescends(p, i, at);
    } else if at < i {
      LaterTipDescends(p, at, i);
    }
  }

  lemma {:induction false} SliceCons(txs: seq<Tx>, a: nat, b: nat)
    requires a < b <= |txs|
    ensures txs[a..b] == [txs[a]] + txs[a + 1..b]
  {
  }

  /** With only the tip `at` of the chain live, the one transaction of the chain a ledger can take is number `at`. */
  lemma {:induction false} AcceptedIsNext(rules: Rules, l: Ledger, p: Plan, at: nat, tx: Tx)
    requires Antichain(l) && at <= p.numTxs && Tip(p, at).id in l
    requires tx in Chain(p) && Accepts(rules, l, tx)
    ensures at < p.numTxs && tx == Chain(p)[at]
    ensures Antichain(Apply(rules, l, tx).value) && Tip(p, at + 1).id in Apply(rules, l, tx).value
  {
    var i :| 0 <= i < p.numTxs && Chain(p)[i] == tx;
    ChainNth(p, i);
    OnlyTheTipIsLive(p, l, at, i);
    ApplyKeepsAntichain(rules, l, tx);
  }

  lemma {:induction false} AcceptedDrawIsSlice(rules: Rules, l: Ledger, p: Plan, at: nat, drawn: seq<Tx>)
    requires Antichain(l) && at <= p.numTxs && Tip(p, at).id in l
    requires forall t :: t in drawn ==> t in Chain(p)
    requires Run(rules, l, drawn).Some?
    ensures at + |drawn| <= p.numTxs
    ensures drawn == Chain(p)[at..at + |drawn|]
    decreases |drawn|
  {
    if drawn != [] {
      assert drawn[0] in drawn;
      AcceptedIsNext(rules, l, p, at, drawn[0]);
      forall t | t in drawn[1..] ensures t in Chain(p) {
        assert t in drawn;
      }
      AcceptedDrawIsSlice(rules, Apply(rules, l, drawn[0]).value, p, at + 1, drawn[1..]);
      SliceCons(Chain(p), at, at + |drawn|);
    }
  }

  /** However transactions of one chain are drawn, repeated or left out, a ledger holding only the starting
      UTXO of the chain takes all of them exactly when they are an affordable prefix in generated order. */
  lemma {:induction false} OnlyGeneratedOrderIsAccepted(rules: Rules, l0: Ledger, p: Plan, drawn: seq<Tx>)
    requires Funded(rules, l0, [p])
    requires forall t :: t in drawn ==> t in Chain(p)
    ensures Run(rules, l0, drawn).Some? <==>
            && |drawn| <= p.numTxs
            && drawn == Chain(p)[..|drawn|]
            && Affordable(rules, p, |drawn|)
  {
    assert [p][0] == p;
    if Run(rules, l0, drawn).Some? {
      AcceptedDrawIsSlice(rules, l0, p, 0, drawn);
    }
    if |drawn| <= p.numTxs {
      PrefixOfOneChain(rules, l0, p, |drawn|);
    }
  }

  /** Among all permutations of a funded chain, the ledger takes only the generated order. */
  lemma {:induction false} UniqueOrder(rules: Rules, l0: Ledger, p: Plan, perm: seq<Tx>)
    requires Funded(rules, l0, [p]) && Affordable(rules, p, p.numTxs)
    requires multiset(perm) == multiset(Chain(p))
    ensures Run(rules, l0, perm).Some? <==> perm == Chain(p)
  {
    assert |perm| == |multiset(perm)| == p.numTxs;
    forall t | t in perm ensures t in Chain(p) {
      assert t in multiset(perm);
    }
    OnlyGeneratedOrderIsAccepted(rules, l0, p, perm);
    assert Chain(p)[..p.numTxs] == Chain(p);
  }
}
