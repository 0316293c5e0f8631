/** The fully-connected test: verify, promote one node to staker, verify again. */
module ConnectedTest {
  import opened PeerVerifier
  import opened PeerGraph

  const VALIDATOR: ServiceID := "validator-service"
  const NON_VALIDATOR: ServiceID := "non-validator-service"

  datatype Outcome =
    | Passed | Unreachable | FirstFailed(first: Verdict) | PromotionFailed | SecondFailed(second: Verdict)

  /** `reached` says whether every node could be asked for its ID and `promoted` whether adding the extra staker
      worked; `before` and `after` are what the nodes answer at the two verifications. */
  method Run(bootServiceIDs: set<ServiceID>, nodeIDs: map<ServiceID, NodeID>, reached: bool, promoted: bool,
             before: map<ServiceID, PeersReply>, after: map<ServiceID, PeersReply>)
    returns (outcome: Outcome)
    requires bootServiceIDs + {VALIDATOR, NON_VALIDATOR} <= before.Keys
    requires bootServiceIDs + {VALIDATOR, NON_VALIDATOR} <= after.Keys
    ensures var all := bootServiceIDs + {VALIDATOR, NON_VALIDATOR};
            outcome.Passed? <==>
            && reached && promoted
            && Passes(Network(all, bootServiceIDs, nodeIDs, before))
            && Passes(Network(all, bootServiceIDs + {VALIDATOR}, nodeIDs, after))
    ensures outcome.Unreachable? <==> !reached
    ensures var all := bootServiceIDs + {VALIDATOR, NON_VALIDATOR};
            && (outcome.FirstFailed? <==> reached && !Passes(Network(all, bootServiceIDs, nodeIDs, before)))
            && (outcome.PromotionFailed? <==>
                  reached && !promoted && Passes(Network(all, bootServiceIDs, nodeIDs, before)))
  {
    var stakerIDs := bootServiceIDs;
    var allServiceIDs: set<ServiceID> := {};
    var todo := stakerIDs;
    while todo != {}
      invariant todo <= stakerIDs && allServiceIDs == stakerIDs - todo
    {
      var stakerID :| stakerID in todo;
      allServiceIDs := allServiceIDs + {stakerID};
      todo := todo - {stakerID};
    }
    allServiceIDs := allServiceIDs + {VALIDATOR};
    allServiceIDs := allServiceIDs + {NON_VALIDATOR};
    assert allServiceIDs == bootServiceIDs + {VALIDATOR, NON_VALIDATOR};
    if !reached {
      return Unreachable;
    }
    var first := VerifyNetworkFullyConnected(allServiceIDs, stakerIDs, nodeIDs, before);
    if !first.Pass? {
      return FirstFailed(first);
    }
    if !promoted {
      return PromotionFailed;
    }
    stakerIDs := stakerIDs + {VALIDATOR};
    var second := VerifyNetworkFullyConnected(allServiceIDs, stakerIDs, nodeIDs, after);
    if !second.Pass? {
      return SecondFailed(second);
    }
    outcome := Passed;
  }

  /** What a passing run shows: the validator's connections to the other non-boot node, and nothing else,
      appeared between the two verifications. */
  lemma {:induction false} PassingRunAddsOneConnection(boot: set<ServiceID>, nodeIDs: map<ServiceID, NodeID>,
                                                       before: map<ServiceID, PeersReply>,
                                                       after: map<ServiceID, PeersReply>, u: ServiceID, v: ServiceID)
    requires VALIDATOR !in boot && NON_VALIDATOR !in boot
    requires var all := boot + {VALIDATOR, NON_VALIDATOR};
             && WellObserved(Network(all, boot, nodeIDs, before))
             && WellObserved(Network(all, boot + {VALIDATOR}, nodeIDs, after))
             && Passes(Network(all, boot, nodeIDs, before))
             && Passes(Network(all, boot + {VALIDATOR}, nodeIDs, after))
             && u in all && v in all
    ensures var all := boot + {VALIDATOR, NON_VALIDATOR};
            Lists(Network(all, boot + {VALIDATOR}, nodeIDs, after), u, v)
            && !Lists(Network(all, boot, nodeIDs, before), u, v)
            <==> {u, v} == {VALIDATOR, NON_VALIDATOR}
  {
    var all := boot + {VALIDATOR, NON_VALIDATOR};
    PromotionAddsExactly(Network(all, boot, nodeIDs, before), Network(all, boot + {VALIDATOR}, nodeIDs, after),
                         VALIDATOR, u, v);
    assert VALIDATOR != NON_VALIDATOR by {
      assert VALIDATOR[0] != NON_VALIDATOR[0];
    }
    if {u, v} == {VALIDATOR, NON_VALIDATOR} {
      assert u in {VALIDATOR, NON_VALIDATOR} && v in {VALIDATOR, NON_VALIDATOR};
      assert VALIDATOR in {u, v} && NON_VALIDATOR in {u, v};
    }
  }
}
