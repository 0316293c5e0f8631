/** The network state verifier: does every node list the peers it should? */
module PeerVerifier {
  type ServiceID = string
  type NodeID = string

  /** What asking a node for its peers returns. */
  datatype PeersReply = Peers(ids: seq<NodeID>) | RpcError

  datatype Verdict =
    | Pass
    | PeersUnavailable(serviceID: ServiceID)
    | WrongCount(serviceID: ServiceID)
    | UnknownPeer(serviceID: ServiceID, peer: NodeID)

  /** A map lookup that yields the empty string for a missing key. */
  function NodeIdOf(nodeIDs: map<ServiceID, NodeID>, serviceID: ServiceID): NodeID {
    if serviceID in nodeIDs then nodeIDs[serviceID] else ""
  }

  ghost predicate PeersOk(reply: PeersReply, acceptable: set<NodeID>, expected: int, atLeast: bool) {
    && reply.Peers?
    && (if atLeast then expected <= |reply.ids| else |reply.ids| == expected)
    && forall p :: p in reply.ids ==> p in acceptable
  }

  method VerifyExpectedPeers(serviceID: ServiceID, reply: PeersReply, acceptable: set<NodeID>, expected: int,
                             atLeast: bool)
    returns (v: Verdict)
    ensures v.Pass? <==> PeersOk(reply, acceptable, expected, atLeast)
    ensures v.UnknownPeer? ==> reply.Peers? && v.peer in reply.ids && v.peer !in acceptable
    ensures v.WrongCount? ==> reply.Peers? && if atLeast then |reply.ids| < expected else |reply.ids| != expected
    ensures v.PeersUnavailable? <==> reply.RpcError?
    ensures !v.Pass? ==> v.serviceID == serviceID
  {
    if reply.RpcError? {
      return PeersUnavailable(serviceID);
    }
    var condition := if atLeast then |reply.ids| >= expected else |reply.ids| == expected;
    if !condition {
      return WrongCount(serviceID);
    }
    for i := 0 to |reply.ids|
      invariant forall j :: 0 <= j < i ==> reply.ids[j] in acceptable
    {
      if reply.ids[i] !in acceptable {
        return UnknownPeer(serviceID, reply.ids[i]);
      }
    }
    v := Pass;
  }

  /** The node IDs that `serviceID` should list: everyone else for a staker, the stakers for anyone else. */
  ghost function ExpectedPeers(all: set<ServiceID>, stakers: set<ServiceID>, nodeIDs: map<ServiceID, NodeID>,
                               serviceID: ServiceID)
    : set<NodeID>
  {
    set c | c in all && c != serviceID && (serviceID in stakers || c in stakers) :: NodeIdOf(nodeIDs, c)
  }

  ghost predicate ServiceOk(all: set<ServiceID>, stakers: set<ServiceID>, nodeIDs: map<ServiceID, NodeID>,
                            replies: map<ServiceID, PeersReply>, serviceID: ServiceID)
    requires serviceID in replies
  {
    var expected := ExpectedPeers(all, stakers, nodeIDs, serviceID);
    PeersOk(replies[serviceID], expected, |expected|, false)
  }

  /** Builds the acceptable set by going over the services in some order. */
  method AcceptableNodeIDs(all: set<ServiceID>, stakers: set<ServiceID>, nodeIDs: map<ServiceID, NodeID>,
                           serviceID: ServiceID)
    returns (acceptable: set<NodeID>)
    ensures acceptable == ExpectedPeers(all, stakers, nodeIDs, serviceID)
  {
    var isStaker := serviceID in stakers;
    acceptable := {};
    var todo := all;
    while todo != {}
      invariant todo <= all
      invariant acceptable == ExpectedPeers(all - todo, stakers, nodeIDs, serviceID)
    {
      var comparison :| comparison in todo;
      if serviceID != comparison && (isStaker || (!isStaker && comparison in stakers)) {
        acceptable := acceptable + {NodeIdOf(nodeIDs, comparison)};
      }
      assert all - (todo - {comparison}) == all - todo + {comparison};
      todo := todo - {comparison};
    }
    assert all - todo == all;
  }

  /** The verdict does not depend on the order in which the services are visited. */
  method VerifyNetworkFullyConnected(all: set<ServiceID>, stakers: set<ServiceID>, nodeIDs: map<ServiceID, NodeID>,
                                     replies: map<ServiceID, PeersReply>)
    returns (v: Verdict)
    requires all <= replies.Keys
    ensures v.Pass? <==> forall s :: s in all ==> ServiceOk(all, stakers, nodeIDs, replies, s)
    ensures !v.Pass? ==> v.serviceID in all
    ensures v.PeersUnavailable? ==> replies[v.serviceID].RpcError?
    ensures v.WrongCount? ==>
              && replies[v.serviceID].Peers?
              && |replies[v.serviceID].ids| != |ExpectedPeers(all, stakers, nodeIDs, v.serviceID)|
    ensures v.UnknownPeer? ==>
              && replies[v.serviceID].Peers?
              && v.peer in replies[v.serviceID].ids
              && v.peer !in ExpectedPeers(all, stakers, nodeIDs, v.serviceID)
  {
    var todo := all;
    while todo != {}
      invariant todo <= all
      invariant forall s :: s in all - todo ==> ServiceOk(all, stakers, nodeIDs, replies, s)
    {
      var serviceID :| serviceID in todo;
      var acceptable := AcceptableNodeIDs(all, stakers, nodeIDs, serviceID);
      v := VerifyExpectedPeers(serviceID, replies[serviceID], acceptable, |acceptable|, false);
      if !v.Pass? {
        return;
      }
      todo := todo - {serviceID};
    }
    v := Pass;
  }

  // ---------- counting against set equality ----------

  ghost predicate NoDuplicates<T>(xs: seq<T>) {
    forall i, j :: 0 <= i < j < |xs| ==> xs[i] != xs[j]
  }

  ghost function SetOf<T>(xs: seq<T>): set<T> {
    set x | x in xs
  }

  lemma {:induction false} SetOfSize<T>(xs: seq<T>)
    ensures |SetOf(xs)| <= |xs|
    ensures |SetOf(xs)| == |xs| <==> NoDuplicates(xs)
  {
    if xs != [] {
      var rest, last := xs[..|xs| - 1], xs[|xs| - 1];
      SetOfSize(rest);
      assert SetOf(xs) == SetOf(rest) + {last};
      if last in rest {
        assert SetOf(xs) == SetOf(rest);
        var i :| 0 <= i < |rest| && rest[i] == last;
        assert xs[i] == xs[|xs| - 1];
      } else {
        assert NoDuplicates(xs) <==> NoDuplicates(rest) by {
          if NoDuplicates(xs) {
            assert forall i :: 0 <= i < |rest| ==> rest[i] == xs[i];
          }
        }
      }
    }
  }

  lemma {:induction false} SubsetSize<T>(a: set<T>, b: set<T>)
    requires a <= b
    ensures |b - a| == |b| - |a|
    ensures |a| == |b| <==> a == b
  {
    assert b == a + (b - a);
  }

  /** The length test with the membership loop decides set equality exactly on lists without duplicates. */
  lemma {:induction false} CountCheckDecidesEquality(ids: seq<NodeID>, acceptable: set<NodeID>)
    requires PeersOk(Peers(ids), acceptable, |acceptable|, false)
    ensures SetOf(ids) == acceptable <==> NoDuplicates(ids)
  {
    SetOfSize(ids);
    SubsetSize(SetOf(ids), acceptable);
  }

  lemma {:induction false} ExactModeMeaning(ids: seq<NodeID>, acceptable: set<NodeID>)
    requires NoDuplicates(ids)
    ensures PeersOk(Peers(ids), acceptable, |acceptable|, false) <==> SetOf(ids) == acceptable
  {
    SetOfSize(ids);
    if PeersOk(Peers(ids), acceptable, |acceptable|, false) {
      CountCheckDecidesEquality(ids, acceptable);
    }
    if SetOf(ids) == acceptable {
      forall p | p in ids ensures p in acceptable {
        assert p in SetOf(ids);
      }
    }
  }

  /** A list with a repeated peer can pass although a peer is missing. */
  lemma RepeatedPeerHidesAMissingOne(a: NodeID, b: NodeID)
    requires a != b
    ensures PeersOk(Peers([a, a]), {a, b}, |{a, b}|, false)
    ensures SetOf([a, a]) != {a, b}
  {
    assert b !in SetOf([a, a]);
  }

  /** At-least mode on lists without duplicates: exactly a bound on how many acceptable peers are missing. */
  lemma {:induction false} AtLeastModeMeaning(ids: seq<NodeID>, acceptable: set<NodeID>, expected: int)
    requires NoDuplicates(ids)
    ensures PeersOk(Peers(ids), acceptable, expected, true) <==>
            SetOf(ids) <= acceptable && |acceptable - SetOf(ids)| <= |acceptable| - expected
  {
    SetOfSize(ids);
    if SetOf(ids) <= acceptable {
      SubsetSize(SetOf(ids), acceptable);
      forall p | p in ids ensures p in acceptable {
        assert p in SetOf(ids);
      }
    }
  }
}
