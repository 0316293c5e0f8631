/** What a passing verification says about the network as a graph, and what promoting a node changes. */
module PeerGraph {
  import opened PeerVerifier

  /** One observation of the network: its services, who stakes, their node IDs and their peer lists. */
  datatype Network = Network(all: set<ServiceID>, stakers: set<ServiceID>, nodeIDs: map<ServiceID, NodeID>,
                             replies: map<ServiceID, PeersReply>)

  /** Node IDs tell services apart, and every node answered with a list without repetitions. */
  ghost predicate WellObserved(net: Network) {
    && net.all <= net.nodeIDs.Keys
    && net.all <= net.replies.Keys
    && (forall u, v :: u in net.all && v in net.all && net.nodeIDs[u] == net.nodeIDs[v] ==> u == v)
    && (forall u :: u in net.all ==> net.replies[u].Peers? && NoDuplicates(net.replies[u].ids))
  }

  ghost predicate Passes(net: Network)
    requires net.all <= net.replies.Keys
  {
    forall u :: u in net.all ==> ServiceOk(net.all, net.stakers, net.nodeIDs, net.replies, u)
  }

  /** `u` lists `v`. */
  ghost predicate Lists(net: Network, u: ServiceID, v: ServiceID)
    requires WellObserved(net) && u in net.all && v in net.all
  {
    net.nodeIDs[v] in net.replies[u].ids
  }

  ghost predicate Expects(net: Network, u: ServiceID, v: ServiceID) {
    u != v && (u in net.stakers || v in net.stakers)
  }

  /** Every listed ID belongs to a service of the network. */
  ghost predicate NoForeignPeers(net: Network)
    requires WellObserved(net)
  {
    forall u, p :: u in net.all && p in net.replies[u].ids ==> exists v :: v in net.all && net.nodeIDs[v] == p
  }

  lemma {:induction false} ExpectedIs(net: Network, u: ServiceID, v: ServiceID)
    requires WellObserved(net) && u in net.all && v in net.all
    ensures net.nodeIDs[v] in ExpectedPeers(net.all, net.stakers, net.nodeIDs, u) <==> Expects(net, u, v)
  {
    assert NodeIdOf(net.nodeIDs, v) == net.nodeIDs[v];
    assert Expects(net, u, v) ==> NodeIdOf(net.nodeIDs, v) in ExpectedPeers(net.all, net.stakers, net.nodeIDs, u);
  }

  /** What the list of `u` has to be, service by service. */
  ghost predicate ListsAsExpected(net: Network, u: ServiceID)
    requires WellObserved(net) && u in net.all
  {
    && (forall v :: v in net.all ==> (Lists(net, u, v) <==> Expects(net, u, v)))
    && (forall p :: p in net.replies[u].ids ==> exists v :: v in net.all && net.nodeIDs[v] == p)
  }

  lemma {:induction false} EqualSetsListAsExpected(net: Network, u: ServiceID)
    requires WellObserved(net) && u in net.all
    requires SetOf(net.replies[u].ids) == ExpectedPeers(net.all, net.stakers, net.nodeIDs, u)
    ensures ListsAsExpected(net, u)
  {
    forall v | v in net.all ensures Lists(net, u, v) <==> Expects(net, u, v) {
      ExpectedIs(net, u, v);
      assert net.nodeIDs[v] in SetOf(net.replies[u].ids) <==> net.nodeIDs[v] in net.replies[u].ids;
    }
    forall p | p in net.replies[u].ids ensures exists v :: v in net.all && net.nodeIDs[v] == p {
      assert p in SetOf(net.replies[u].ids);
      var c :| c in net.all && c != u && (u in net.stakers || c in net.stakers) && NodeIdOf(net.nodeIDs, c) == p;
    }
  }

  lemma {:induction false} ListedAsExpectedEqualSets(net: Network, u: ServiceID)
    requires WellObserved(net) && u in net.all && ListsAsExpected(net, u)
    ensures SetOf(net.replies[u].ids) == ExpectedPeers(net.all, net.stakers, net.nodeIDs, u)
  {
    var expected := ExpectedPeers(net.all, net.stakers, net.nodeIDs, u);
    forall p | p in SetOf(net.replies[u].ids) ensures p in expected {
      var v :| v in net.all && net.nodeIDs[v] == p;
      ExpectedIs(net, u, v);
      assert Lists(net, u, v);
    }
    forall p | p in expected ensures p in SetOf(net.replies[u].ids) {
      var c :| c in net.all && c != u && (u in net.stakers || c in net.stakers) && NodeIdOf(net.nodeIDs, c) == p;
      assert Lists(net, u, c);
    }
  }

  lemma {:induction false} ServiceOkMeaning(net: Network, u: ServiceID)
    requires WellObserved(net) && u in net.all
    ensures ServiceOk(net.all, net.stakers, net.nodeIDs, net.replies, u) <==> ListsAsExpected(net, u)
  {
    ExactModeMeaning(net.replies[u].ids, ExpectedPeers(net.all, net.stakers, net.nodeIDs, u));
    if SetOf(net.replies[u].ids) == ExpectedPeers(net.all, net.stakers, net.nodeIDs, u) {
      EqualSetsListAsExpected(net, u);
    }
    if ListsAsExpected(net, u) {
      ListedAsExpectedEqualSets(net, u);
    }
  }

  /** On lists without repetitions a network passes exactly when every service answers with its expected set. */
  lemma {:induction false} PassesExactly(net: Network)
    requires net.all <= net.replies.Keys
    requires forall u :: u in net.all && net.replies[u].Peers? ==> NoDuplicates(net.replies[u].ids)
    ensures Passes(net) <==>
            forall u :: u in net.all ==>
              && net.replies[u].Peers?
              && SetOf(net.replies[u].ids) == ExpectedPeers(net.all, net.stakers, net.nodeIDs, u)
  {
    forall u | u in net.all
      ensures ServiceOk(net.all, net.stakers, net.nodeIDs, net.replies, u) <==>
              && net.replies[u].Peers?
              && SetOf(net.replies[u].ids) == ExpectedPeers(net.all, net.stakers, net.nodeIDs, u)
    {
      if net.replies[u].Peers? {
        ExactModeMeaning(net.replies[u].ids, ExpectedPeers(net.all, net.stakers, net.nodeIDs, u));
      }
    }
  }

  /** A well-observed network passes exactly when the lists are the staker graph and name nobody else. */
  lemma {:induction false} PassesMeansStakerGraph(net: Network)
    requires WellObserved(net)
    ensures Passes(net) <==>
            && (forall u, v :: u in net.all && v in net.all ==> (Lists(net, u, v) <==> Expects(net, u, v)))
            && NoForeignPeers(net)
  {
    forall u | u in net.all
      ensures ServiceOk(net.all, net.stakers, net.nodeIDs, net.replies, u) <==> ListsAsExpected(net, u)
    {
      ServiceOkMeaning(net, u);
    }
  }

  /** The documented relation: stakers list everybody else, and non-stakers list all stakers. */
  ghost predicate DocumentedFullyConnected(net: Network)
    requires WellObserved(net)
  {
    forall u, v :: u in net.all && v in net.all && u != v && (u in net.stakers || v in net.stakers) ==> Lists(net, u, v)
  }

  /** The check is the documented relation and, beyond it, that nobody lists a peer it is not expected to. */
  lemma {:induction false} CheckAgainstDocumentation(net: Network)
    requires WellObserved(net)
    ensures Passes(net) <==>
            && DocumentedFullyConnected(net)
            && NoForeignPeers(net)
            && (forall u, v :: u in net.all && v in net.all && Lists(net, u, v) ==> Expects(net, u, v))
  {
    PassesMeansStakerGraph(net);
  }

  /** So the check is stricter than its documentation: two non-stakers that know each other fail it. */
  lemma {:induction false} StricterThanDocumented() returns (net: Network)
    ensures WellObserved(net) && DocumentedFullyConnected(net) && !Passes(net)
  {
    var s, a, b := "s", "a", "b";
    net := Network({s, a, b}, {s}, map[s := "S", a := "A", b := "B"],
                   map[s := Peers(["A", "B"]), a := Peers(["S", "B"]), b := Peers(["S"])]);
    assert WellObserved(net);
    assert Lists(net, a, b) && !Expects(net, a, b);
    PassesMeansStakerGraph(net);
  }

  lemma {:induction false} PassingGraphIsSymmetric(net: Network, u: ServiceID, v: ServiceID)
    requires WellObserved(net) && Passes(net) && u in net.all && v in net.all
    ensures Lists(net, u, v) <==> Lists(net, v, u)
    ensures !Lists(net, u, u)
  {
    PassesMeansStakerGraph(net);
  }

  /** With a staker in the network any two nodes are at most two hops apart. */
  lemma {:induction false} WithinTwoHops(net: Network, u: ServiceID, v: ServiceID)
    requires WellObserved(net) && Passes(net) && u in net.all && v in net.all && u != v
    requires net.all * net.stakers != {}
    ensures Lists(net, u, v) || exists w :: w in net.all && Lists(net, u, w) && Lists(net, w, v)
  {
    PassesMeansStakerGraph(net);
    var w :| w in net.all * net.stakers;
    if !Lists(net, u, v) {
      assert Lists(net, u, w) && Lists(net, w, v);
    }
  }

  /** Without a staker a passing network has no connection at all. */
  lemma {:induction false} NoStakersNoEdges(net: Network, u: ServiceID, v: ServiceID)
    requires WellObserved(net) && Passes(net) && u in net.all && v in net.all
    requires net.all * net.stakers == {}
    ensures !Lists(net, u, v)
  {
    PassesMeansStakerGraph(net);
    assert u !in net.all * net.stakers && v !in net.all * net.stakers;
  }

  /** Between two passing observations with `x` promoted in between, no connection is lost and the new ones
      are exactly those between `x` and the remaining non-stakers. */
  lemma {:induction false} PromotionAddsExactly(before: Network, after: Network, x: ServiceID, u: ServiceID,
                                                v: ServiceID)
    requires WellObserved(before) && WellObserved(after) && Passes(before) && Passes(after)
    requires after.all == before.all && after.stakers == before.stakers + {x}
    requires x in before.all && x !in before.stakers
    requires u in before.all && v in before.all
    ensures Lists(before, u, v) ==> Lists(after, u, v)
    ensures Lists(after, u, v) && !Lists(before, u, v) <==>
            (u == x && v != x && v !in before.stakers) || (v == x && u != x && u !in before.stakers)
  {
    PassesMeansStakerGraph(before);
    PassesMeansStakerGraph(after);
  }
}
