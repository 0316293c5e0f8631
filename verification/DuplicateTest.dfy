/** The duplicate-node-ID test: two services that may share one node ID join, then the first one leaves. */
module DuplicateTest {
  import opened Options
  import opened PeerVerifier
  import opened PeerGraph

  const VANILLA: ServiceID := "vanilla-node"
  const BAD_1: ServiceID := "bad-service-1"
  const BAD_2: ServiceID := "bad-service-2"

  /** What the run does between its verifications; any of it can fail and ends the run. The steps are numbered in
      order: reaching the originals is 0; adding, starting, reaching and identifying the first bad service are
      1 to 4, the second 5 to 8; removing the first is 9. */
  const REACH_ORIGINALS: nat := 0
  const ADD_FIRST: nat := 1
  const ADD_SECOND: nat := 5
  const REMOVE_FIRST: nat := 9

  /** How many verifications come before a step. */
  function PhasesBefore(step: nat): nat {
    if step < 1 then 0 else if step < 5 then 1 else if step < 9 then 2 else 3
  }

  /** How many steps come before verification `phase`; with four verifications there are ten in all. */
  function StepsBefore(phase: nat): nat {
    if phase == 0 then 1 else if phase == 1 then 5 else if phase == 2 then 9 else 10
  }

  datatype Outcome = Passed | Fatal(phase: nat, verdict: Verdict) | StepFailed(step: nat)

  /** What the run meets: the nodes' own IDs, their peers at each of the four verifications, and how many steps
      work before one fails. */
  datatype Observed = Observed(boot: set<ServiceID>, nodeIDs: map<ServiceID, NodeID>, bad1: NodeID, bad2: NodeID,
                               peers: seq<map<ServiceID, PeersReply>>, working: nat)
  {
    ghost predicate Answered() {
      && |peers| == 4
      && boot + {VANILLA} <= nodeIDs.Keys
      && (forall k :: 0 <= k < 4 ==> boot + {VANILLA, BAD_1, BAD_2} <= peers[k].Keys)
    }

    function BootNodeIDs(except: ServiceID): set<NodeID>
      requires boot <= nodeIDs.Keys
    {
      set b | b in boot && b != except :: nodeIDs[b]
    }

    /** What an original node may list while both bad services run. */
    function Acceptable(s: ServiceID): set<NodeID>
      requires boot + {VANILLA} <= nodeIDs.Keys
    {
      if s in boot then BootNodeIDs(s) + {nodeIDs[VANILLA], bad1, bad2} else BootNodeIDs(s)
    }

    ghost predicate OriginalsOk()
      requires Answered()
    {
      forall s :: s in boot + {VANILLA} ==>
        PeersOk(peers[2][s], Acceptable(s), if s in boot then |boot + {VANILLA}| - 1 else |boot|, s in boot)
    }
  }

  method AcceptableFor(o: Observed, allNodeIDs: map<ServiceID, NodeID>, serviceID: ServiceID)
    returns (acceptable: set<NodeID>)
    requires o.boot + {VANILLA} <= o.nodeIDs.Keys
    requires forall s :: s in o.boot + {VANILLA} ==> NodeIdOf(allNodeIDs, s) == o.nodeIDs[s]
    ensures acceptable == o.Acceptable(serviceID)
  {
    acceptable := {};
    var todo := o.boot;
    while todo != {}
      invariant todo <= o.boot
      invariant acceptable == set b | b in o.boot - todo && b != serviceID :: o.nodeIDs[b]
    {
      var bootServiceID :| bootServiceID in todo;
      if serviceID != bootServiceID {
        acceptable := acceptable + {NodeIdOf(allNodeIDs, bootServiceID)};
      }
      assert o.boot - (todo - {bootServiceID}) == o.boot - todo + {bootServiceID};
      todo := todo - {bootServiceID};
    }
    if serviceID in o.boot {
      acceptable := acceptable + {NodeIdOf(allNodeIDs, VANILLA)};
      acceptable := acceptable + {o.bad1};
      acceptable := acceptable + {o.bad2};
    }
  }

  method VerifyOriginals(o: Observed, allNodeIDs: map<ServiceID, NodeID>, originalServiceIDs: set<ServiceID>)
    returns (v: Verdict)
    requires o.Answered() && originalServiceIDs == o.boot + {VANILLA}
    requires forall s :: s in originalServiceIDs ==> NodeIdOf(allNodeIDs, s) == o.nodeIDs[s]
    ensures v.Pass? <==> o.OriginalsOk()
    ensures Distinguishable(o) ==>
              (v.Pass? <==>
                && (forall b :: b in o.boot ==>
                      && o.peers[2][b].Peers?
                      && SetOf(o.peers[2][b].ids) <= IDsOf(o, o.boot + {VANILLA} - {b}) + {o.bad1, o.bad2}
                      && |IDsOf(o, o.boot + {VANILLA} - {b}) - SetOf(o.peers[2][b].ids)|
                         <= |{o.bad1, o.bad2} * SetOf(o.peers[2][b].ids)|)
                && Shows(o, 2, VANILLA, IDsOf(o, o.boot)))
  {
    if Distinguishable(o) {
      OriginalsPassExactly(o);
    }
    var todo := originalServiceIDs;
    while todo != {}
      invariant todo <= originalServiceIDs
      invariant forall s :: s in originalServiceIDs - todo ==>
                  PeersOk(o.peers[2][s], o.Acceptable(s),
                          if s in o.boot then |originalServiceIDs| - 1 else |o.boot|, s in o.boot)
    {
      var serviceID :| serviceID in todo;
      var acceptable := AcceptableFor(o, allNodeIDs, serviceID);
      if serviceID in o.boot {
        v := VerifyExpectedPeers(serviceID, o.peers[2][serviceID], acceptable, |originalServiceIDs| - 1, true);
      } else {
        v := VerifyExpectedPeers(serviceID, o.peers[2][serviceID], acceptable, |o.boot|, false);
      }
      if !v.Pass? {
        return;
      }
      todo := todo - {serviceID};
    }
    v := Pass;
  }

  method CopyOf(services: set<ServiceID>) returns (copy: set<ServiceID>)
    ensures copy == services
  {
    copy := {};
    var todo := services;
    while todo != {}
      invariant todo <= services && copy == services - todo
    {
      var serviceID :| serviceID in todo;
      copy := copy + {serviceID};
      todo := todo - {serviceID};
    }
  }

  lemma RemoveAdded(services: set<ServiceID>, x: ServiceID, y: ServiceID)
    requires x !in services && x != y
    ensures services + {x} + {y} - {x} == services + {y}
  {
  }

  /** The network as it should be observed at a full verification. */
  ghost function NetworkAt(o: Observed, phase: nat): Network
    requires o.Answered() && phase < 4
  {
    var originals := o.boot + {VANILLA};
    match phase
    case 0 => Network(originals, o.boot, o.nodeIDs, o.peers[0])
    case 1 => Network(originals + {BAD_1}, o.boot, o.nodeIDs[BAD_1 := o.bad1], o.peers[1])
    case _ => Network(originals + {BAD_2}, o.boot, o.nodeIDs[BAD_1 := o.bad1][BAD_2 := o.bad2] - {BAD_1},
                      o.peers[phase])
  }

  /** What verification `phase` asks for: full connection, or in phase 2, with both bad services running, only
      the check on the originals. */
  ghost predicate PhaseOk(o: Observed, phase: nat)
    requires o.Answered() && phase < 4
  {
    if phase == 2 then o.OriginalsOk() else Passes(NetworkAt(o, phase))
  }

  /** The first `n` verifications pass. */
  ghost predicate PhasesOk(o: Observed, n: nat)
    requires o.Answered() && n <= 4
  {
    && (0 < n ==> PhaseOk(o, 0))
    && (1 < n ==> PhaseOk(o, 1))
    && (2 < n ==> PhaseOk(o, 2))
    && (3 < n ==> PhaseOk(o, 3))
  }

  method VerifyPhase(o: Observed, phase: nat, all: set<ServiceID>, nodeIDs: map<ServiceID, NodeID>) returns (v: Verdict)
    requires o.Answered() && phase < 4 && phase != 2
    requires NetworkAt(o, phase) == Network(all, o.boot, nodeIDs, o.peers[phase])
    ensures v.Pass? <==> PhaseOk(o, phase)
  {
    v := VerifyNetworkFullyConnected(all, o.boot, nodeIDs, o.peers[phase]);
  }

  /** Adds one bad service, waits for it, gets its client and asks for its node ID, as steps `add` to `add + 3`;
      stops at the first failure. */
  method AddBadService(working: nat, add: nat) returns (failed: Option<nat>)
    requires add <= working
    ensures failed == if working <= add + 3 then Some(working) else None
  {
    if working == add {
      return Some(add);
    }
    if working == add + 1 {
      return Some(add + 1);
    }
    if working == add + 2 {
      return Some(add + 2);
    }
    if working == add + 3 {
      return Some(add + 3);
    }
    failed := None;
  }

  /** Whether `outcome` is how the run ends within its first `phases` verifications and the steps before them. */
  ghost predicate EndsWell(o: Observed, outcome: Outcome, phases: nat)
    requires o.Answered() && 0 < phases <= 4
  {
    match outcome
    case Passed => StepsBefore(phases - 1) <= o.working && PhasesOk(o, phases)
    case Fatal(phase, _) =>
      phase < phases && StepsBefore(phase) <= o.working && PhasesOk(o, phase) && !PhaseOk(o, phase)
    case StepFailed(step) => step == o.working < StepsBefore(phases - 1) && PhasesOk(o, PhasesBefore(step))
  }

  /** Up to and including the verification with the first bad service. */
  method RunFirstHalf(o: Observed)
    returns (outcome: Outcome, allServiceIDs: set<ServiceID>, allNodeIDs: map<ServiceID, NodeID>,
             originalServiceIDs: set<ServiceID>)
    requires o.Answered() && BAD_1 !in o.boot && BAD_2 !in o.boot
    ensures EndsWell(o, outcome, 2)
    ensures originalServiceIDs == o.boot + {VANILLA}
    ensures outcome.Passed? ==>
              allServiceIDs == originalServiceIDs + {BAD_1} && allNodeIDs == o.nodeIDs[BAD_1 := o.bad1]
  {
    allServiceIDs := CopyOf(o.boot);
    allServiceIDs := allServiceIDs + {VANILLA};
    allNodeIDs := o.nodeIDs;
    originalServiceIDs := allServiceIDs;
    if o.working == REACH_ORIGINALS {
      outcome := StepFailed(REACH_ORIGINALS);
      return;
    }
    var v := VerifyPhase(o, 0, allServiceIDs, allNodeIDs);
    if !v.Pass? {
      outcome := Fatal(0, v);
      return;
    }
    var failed := AddBadService(o.working, ADD_FIRST);
    if failed.Some? {
      outcome := StepFailed(failed.value);
      return;
    }
    allServiceIDs := allServiceIDs + {BAD_1};
    allNodeIDs := allNodeIDs[BAD_1 := o.bad1];
    v := VerifyPhase(o, 1, allServiceIDs, allNodeIDs);
    outcome := if v.Pass? then Passed else Fatal(1, v);
  }

  lemma {:induction false} OriginalsKeepTheirIDs(o: Observed)
    requires o.Answered() && BAD_1 !in o.boot && BAD_2 !in o.boot
    ensures forall s :: s in o.boot + {VANILLA} ==>
              NodeIdOf(o.nodeIDs[BAD_1 := o.bad1][BAD_2 := o.bad2], s) == o.nodeIDs[s]
  {
    DistinctNames();
  }

  lemma {:induction false} FinalNetwork(o: Observed)
    requires o.Answered() && BAD_1 !in o.boot && BAD_2 !in o.boot
    ensures NetworkAt(o, 3) == Network(o.boot + {VANILLA} + {BAD_1} + {BAD_2} - {BAD_1}, o.boot,
                                       o.nodeIDs[BAD_1 := o.bad1][BAD_2 := o.bad2] - {BAD_1}, o.peers[3])
  {
    DistinctNames();
    RemoveAdded(o.boot + {VANILLA}, BAD_1, BAD_2);
  }

  /** How the run ends from the second bad service on. */
  method RunSecondHalf(o: Observed, services: set<ServiceID>, nodeIDs: map<ServiceID, NodeID>,
                       originalServiceIDs: set<ServiceID>)
    returns (outcome: Outcome)
    requires o.Answered() && BAD_1 !in o.boot && BAD_2 !in o.boot && 5 <= o.working
    requires originalServiceIDs == o.boot + {VANILLA}
    requires services == originalServiceIDs + {BAD_1} && nodeIDs == o.nodeIDs[BAD_1 := o.bad1]
    ensures outcome.Passed? ==> 10 <= o.working && PhaseOk(o, 2) && PhaseOk(o, 3)
    ensures outcome.Fatal? ==> outcome.phase in {2, 3} && StepsBefore(outcome.phase) <= o.working
    ensures outcome.Fatal? ==> !PhaseOk(o, outcome.phase) && (outcome.phase == 3 ==> PhaseOk(o, 2))
    ensures outcome.StepFailed? ==> outcome.step == o.working < 10 && (o.working == REMOVE_FIRST ==> PhaseOk(o, 2))
  {
    DistinctNames();
    var failed := AddBadService(o.working, ADD_SECOND);
    if failed.Some? {
      return StepFailed(failed.value);
    }
    var allServiceIDs := services + {BAD_2};
    var allNodeIDs := nodeIDs[BAD_2 := o.bad2];
    OriginalsKeepTheirIDs(o);
    var v := VerifyOriginals(o, allNodeIDs, originalServiceIDs);
    if !v.Pass? {
      return Fatal(2, v);
    }
    if o.working == REMOVE_FIRST {
      return StepFailed(REMOVE_FIRST);
    }
    allServiceIDs := allServiceIDs - {BAD_1};
    allNodeIDs := allNodeIDs - {BAD_1};
    FinalNetwork(o);
    v := VerifyPhase(o, 3, allServiceIDs, allNodeIDs);
    outcome := if v.Pass? then Passed else Fatal(3, v);
  }

  /** The steps and verifications in order. */
  method RunAll(o: Observed) returns (outcome: Outcome)
    requires o.Answered() && BAD_1 !in o.boot && BAD_2 !in o.boot
    ensures EndsWell(o, outcome, 4)
  {
    var allServiceIDs, allNodeIDs, originalServiceIDs;
    outcome, allServiceIDs, allNodeIDs, originalServiceIDs := RunFirstHalf(o);
    if outcome.Passed? {
      outcome := RunSecondHalf(o, allServiceIDs, allNodeIDs, originalServiceIDs);
    }
  }

  method Run(o: Observed) returns (outcome: Outcome)
    requires o.Answered() && BAD_1 !in o.boot && BAD_2 !in o.boot
    ensures EndsWell(o, outcome, 4)
    ensures outcome.StepFailed? ==> outcome.step == o.working < 10
    ensures outcome.Fatal? ==> outcome.phase < 4 && [1, 5, 9, 10][outcome.phase] <= o.working
    ensures Distinguishable(o) ==>
              (outcome.Passed? <==>
                && 10 <= o.working
                // the vanilla node beside the boot nodes
                && (forall b :: b in o.boot ==> Shows(o, 0, b, IDsOf(o, o.boot + {VANILLA} - {b})))
                && Shows(o, 0, VANILLA, IDsOf(o, o.boot))
                // the first bad service beside them
                && (forall b :: b in o.boot ==> Shows(o, 1, b, IDsOf(o, o.boot + {VANILLA} - {b}) + {o.bad1}))
                && Shows(o, 1, VANILLA, IDsOf(o, o.boot))
                && Shows(o, 1, BAD_1, IDsOf(o, o.boot))
                // both bad services
                && (forall b :: b in o.boot ==>
                      && o.peers[2][b].Peers?
                      && SetOf(o.peers[2][b].ids) <= IDsOf(o, o.boot + {VANILLA} - {b}) + {o.bad1, o.bad2}
                      && |IDsOf(o, o.boot + {VANILLA} - {b}) - SetOf(o.peers[2][b].ids)|
                         <= |{o.bad1, o.bad2} * SetOf(o.peers[2][b].ids)|)
                && Shows(o, 2, VANILLA, IDsOf(o, o.boot))
                // the second bad service alone
                && (forall b :: b in o.boot ==> Shows(o, 3, b, IDsOf(o, o.boot + {VANILLA} - {b}) + {o.bad2}))
                && Shows(o, 3, VANILLA, IDsOf(o, o.boot))
                && Shows(o, 3, BAD_2, IDsOf(o, o.boot)))
    ensures Distinguishable(o) && outcome.Passed? ==>
              forall b :: b in o.boot ==>
                |IDsOf(o, o.boot + {VANILLA} - {b}) - SetOf(o.peers[2][b].ids)| <= if o.bad1 == o.bad2 then 1 else 2
  {
    outcome := RunAll(o);
    PassedExactly(o, outcome);
    if Distinguishable(o) {
      AllPhasesExactly(o);
    }
  }

  lemma {:induction false} PassedExactly(o: Observed, outcome: Outcome)
    requires o.Answered() && EndsWell(o, outcome, 4)
    ensures outcome.Passed? <==> 10 <= o.working && PhasesOk(o, 4)
  {
    if outcome.Fatal? {
      NotAllPhases(o, outcome.phase);
    }
  }

  lemma {:induction false} NotAllPhases(o: Observed, phase: nat)
    requires o.Answered() && phase < 4 && !PhaseOk(o, phase)
    ensures !PhasesOk(o, 4)
  {
  }

  lemma DistinctNames()
    ensures VANILLA != BAD_1 && VANILLA != BAD_2 && BAD_1 != BAD_2
  {
    assert VANILLA[0] != BAD_1[0];
    assert VANILLA[0] != BAD_2[0];
    assert BAD_1[|BAD_1| - 1] != BAD_2[|BAD_2| - 1];
  }

  // ---------- what the weaker check on the originals guarantees ----------

  /** Node IDs tell the original services apart, and neither bad service has an original's ID. */
  ghost predicate OriginalsDistinct(o: Observed) {
    && VANILLA !in o.boot
    && o.boot + {VANILLA} <= o.nodeIDs.Keys
    && (forall s, t :: s in o.boot + {VANILLA} && t in o.boot + {VANILLA} && o.nodeIDs[s] == o.nodeIDs[t] ==> s == t)
    && (forall s :: s in o.boot + {VANILLA} ==> o.nodeIDs[s] != o.bad1 && o.nodeIDs[s] != o.bad2)
  }

  /** The node IDs of original services. */
  ghost function IDsOf(o: Observed, services: set<ServiceID>): set<NodeID>
    requires services <= o.nodeIDs.Keys
  {
    set s | s in services :: o.nodeIDs[s]
  }

  /** The other original nodes' IDs, as boot node `b` should see them. */
  ghost function OtherOriginals(o: Observed, b: ServiceID): set<NodeID>
    requires o.boot + {VANILLA} <= o.nodeIDs.Keys
  {
    IDsOf(o, o.boot + {VANILLA} - {b})
  }

  lemma {:induction false} ImageSize(services: set<ServiceID>, nodeIDs: map<ServiceID, NodeID>)
    requires services <= nodeIDs.Keys
    requires forall s, t :: s in services && t in services && nodeIDs[s] == nodeIDs[t] ==> s == t
    ensures |(set s | s in services :: nodeIDs[s])| == |services|
  {
    var image := set s | s in services :: nodeIDs[s];
    if services == {} {
      assert image == {};
    } else {
      var s :| s in services;
      var rest := services - {s};
      ImageSize(rest, nodeIDs);
      assert image == (set t | t in rest :: nodeIDs[t]) + {nodeIDs[s]};
    }
  }

  lemma {:induction false} BootNodeCount(o: Observed, b: ServiceID)
    requires OriginalsDistinct(o) && b in o.boot
    ensures |o.BootNodeIDs(b)| == |o.boot| - 1 && o.nodeIDs[VANILLA] !in o.BootNodeIDs(b)
  {
    var others := o.boot - {b};
    ImageSize(others, o.nodeIDs);
    assert o.BootNodeIDs(b) == set s | s in others :: o.nodeIDs[s];
  }

  lemma {:induction false} OtherOriginalsAre(o: Observed, b: ServiceID)
    requires OriginalsDistinct(o) && b in o.boot
    ensures OtherOriginals(o, b) == o.BootNodeIDs(b) + {o.nodeIDs[VANILLA]}
  {
    forall p | p in o.BootNodeIDs(b) + {o.nodeIDs[VANILLA]} ensures p in OtherOriginals(o, b) {
      if p == o.nodeIDs[VANILLA] {
        assert VANILLA in o.boot + {VANILLA} - {b};
      } else {
        var c :| c in o.boot && c != b && o.nodeIDs[c] == p;
        assert c in o.boot + {VANILLA} - {b};
      }
    }
  }

  lemma {:induction false} OtherOriginalsCount(o: Observed, b: ServiceID)
    requires OriginalsDistinct(o) && b in o.boot
    ensures |OtherOriginals(o, b)| == |o.boot|
    ensures o.Acceptable(b) == OtherOriginals(o, b) + {o.bad1, o.bad2}
    ensures OtherOriginals(o, b) !! {o.bad1, o.bad2}
    ensures |o.boot + {VANILLA}| - 1 == |o.boot|
  {
    OtherOriginalsAre(o, b);
    BootNodeCount(o, b);
  }

  /** A boot node passes exactly when it lists acceptable peers only and at least as many bad IDs as it
      misses originals: one missing original at most if the two bad IDs coincide, two otherwise. */
  lemma {:induction false} BootNodeBound(o: Observed, b: ServiceID, ids: seq<NodeID>)
    requires OriginalsDistinct(o) && b in o.boot && NoDuplicates(ids)
    ensures PeersOk(Peers(ids), o.Acceptable(b), |o.boot + {VANILLA}| - 1, true) <==>
            && SetOf(ids) <= o.Acceptable(b)
            && |OtherOriginals(o, b) - SetOf(ids)| <= |{o.bad1, o.bad2} * SetOf(ids)|
    ensures PeersOk(Peers(ids), o.Acceptable(b), |o.boot + {VANILLA}| - 1, true) ==>
            |OtherOriginals(o, b) - SetOf(ids)| <= if o.bad1 == o.bad2 then 1 else 2
  {
    OtherOriginalsCount(o, b);
    AtLeastModeMeaning(ids, o.Acceptable(b), |o.boot|);
    var originals, bad, listed := OtherOriginals(o, b), {o.bad1, o.bad2}, SetOf(ids);
    assert o.Acceptable(b) - listed == (originals - listed) + (bad - listed);
    assert bad == (bad - listed) + (bad * listed);
    if o.bad1 == o.bad2 {
      assert bad == {o.bad1};
    }
    SubsetSize(bad * listed, bad);
  }

  /** So the check can pass while a boot node has lost an original node: the vanilla node is missing here. */
  lemma {:induction false} BootNodeMayMissAnOriginal(o: Observed, b: ServiceID, ids: seq<NodeID>)
    requires OriginalsDistinct(o) && b in o.boot && NoDuplicates(ids)
    requires SetOf(ids) == o.BootNodeIDs(b) + {o.bad1}
    ensures PeersOk(Peers(ids), o.Acceptable(b), |o.boot + {VANILLA}| - 1, true)
    ensures o.nodeIDs[VANILLA] !in ids
  {
    OtherOriginalsCount(o, b);
    BootNodeBound(o, b, ids);
    BootNodeCount(o, b);
    var missing, badListed := OtherOriginals(o, b) - SetOf(ids), {o.bad1, o.bad2} * SetOf(ids);
    assert missing <= {o.nodeIDs[VANILLA]};
    assert o.bad1 in badListed;
    SubsetSize(missing, {o.nodeIDs[VANILLA]});
    SubsetSize({o.bad1}, badListed);
    assert o.nodeIDs[VANILLA] !in SetOf(ids);
  }

  /** The vanilla node, checked in exact mode, lists precisely the boot nodes. */
  lemma {:induction false} VanillaNodeIsExact(o: Observed, ids: seq<NodeID>)
    requires OriginalsDistinct(o) && NoDuplicates(ids)
    ensures PeersOk(Peers(ids), o.Acceptable(VANILLA), |o.boot|, false) <==>
            SetOf(ids) == set b | b in o.boot :: o.nodeIDs[b]
  {
    ImageSize(o.boot, o.nodeIDs);
    assert o.Acceptable(VANILLA) == set b | b in o.boot :: o.nodeIDs[b];
    ExactModeMeaning(ids, o.Acceptable(VANILLA));
  }

  /** After a passing run the network has settled on the second bad service: it and the boot nodes list each
      other, and it and the vanilla node do not. */
  lemma {:induction false} PassingRunSettles(o: Observed, b: ServiceID)
    requires o.Answered() && VANILLA !in o.boot && BAD_1 !in o.boot && BAD_2 !in o.boot && b in o.boot
    requires PhaseOk(o, 3) && WellObserved(NetworkAt(o, 3))
    ensures var net := NetworkAt(o, 3);
            && {b, VANILLA, BAD_2} <= net.all
            && Lists(net, b, BAD_2) && Lists(net, BAD_2, b)
            && !Lists(net, VANILLA, BAD_2) && !Lists(net, BAD_2, VANILLA)
  {
    DistinctNames();
    PassesMeansStakerGraph(NetworkAt(o, 3));
  }

  // ---------- what a passing run has seen ----------

  /** Node IDs tell the nodes apart, but for the two bad ones, and no list has repetitions. */
  ghost predicate Distinguishable(o: Observed) {
    && o.Answered()
    && OriginalsDistinct(o)
    && BAD_1 !in o.boot && BAD_2 !in o.boot
    && (forall phase: nat, s :: phase < 4 && s in o.peers[phase] && o.peers[phase][s].Peers? ==>
          NoDuplicates(o.peers[phase][s].ids))
  }

  /** At verification `phase` the node `s` answered with exactly the peers `ids`. */
  ghost predicate Shows(o: Observed, phase: nat, s: ServiceID, ids: set<NodeID>)
    requires o.Answered() && phase < 4 && s in o.boot + {VANILLA, BAD_1, BAD_2}
  {
    o.peers[phase][s].Peers? && SetOf(o.peers[phase][s].ids) == ids
  }

  lemma {:induction false} ExpectedAmongOriginals(o: Observed, u: ServiceID)
    requires Distinguishable(o) && u in o.boot + {VANILLA}
    ensures ExpectedPeers(o.boot + {VANILLA}, o.boot, o.nodeIDs, u) ==
            if u in o.boot then IDsOf(o, o.boot + {VANILLA} - {u}) else IDsOf(o, o.boot)
  {
    var expected := ExpectedPeers(o.boot + {VANILLA}, o.boot, o.nodeIDs, u);
    var ids := if u in o.boot then IDsOf(o, o.boot + {VANILLA} - {u}) else IDsOf(o, o.boot);
    forall c | c in o.boot + {VANILLA} && c != u && (u in o.boot || c in o.boot)
      ensures NodeIdOf(o.nodeIDs, c) == o.nodeIDs[c] && o.nodeIDs[c] in ids
    {
    }
    forall p | p in ids ensures p in expected {
      var c :| c in o.boot + {VANILLA} && c != u && (u in o.boot || c in o.boot) && o.nodeIDs[c] == p;
      assert NodeIdOf(o.nodeIDs, c) == p;
    }
  }

  /** With a bad service `x` in the network, boot nodes should see it too, and it should see the boot nodes. */
  lemma {:induction false} ExpectedWithBad(o: Observed, x: ServiceID, nodeIDs: map<ServiceID, NodeID>, u: ServiceID)
    requires Distinguishable(o) && x !in o.boot + {VANILLA} && x in nodeIDs && u in o.boot + {VANILLA, x}
    requires forall s :: s in o.boot + {VANILLA} ==> s in nodeIDs && nodeIDs[s] == o.nodeIDs[s]
    ensures ExpectedPeers(o.boot + {VANILLA} + {x}, o.boot, nodeIDs, u) ==
            if u in o.boot then IDsOf(o, o.boot + {VANILLA} - {u}) + {nodeIDs[x]} else IDsOf(o, o.boot)
  {
    var all := o.boot + {VANILLA} + {x};
    var expected := ExpectedPeers(all, o.boot, nodeIDs, u);
    if u in o.boot {
      var ids := IDsOf(o, o.boot + {VANILLA} - {u});
      forall p | p in expected ensures p in ids + {nodeIDs[x]} {
        var c :| c in all && c != u && NodeIdOf(nodeIDs, c) == p;
        assert c != x ==> o.nodeIDs[c] in ids;
      }
      forall p | p in ids + {nodeIDs[x]} ensures p in expected {
        if p == nodeIDs[x] {
          assert NodeIdOf(nodeIDs, x) == p;
        } else {
          var c :| c in o.boot + {VANILLA} - {u} && o.nodeIDs[c] == p;
          assert NodeIdOf(nodeIDs, c) == p;
        }
      }
    } else {
      var ids := IDsOf(o, o.boot);
      forall p | p in expected ensures p in ids {
        var c :| c in o.boot && NodeIdOf(nodeIDs, c) == p;
        assert o.nodeIDs[c] == p;
      }
      forall p | p in ids ensures p in expected {
        var c :| c in o.boot && o.nodeIDs[c] == p;
        assert NodeIdOf(nodeIDs, c) == p;
      }
    }
  }

  lemma {:induction false} FirstNetworkShows(o: Observed)
    requires Distinguishable(o)
    ensures Passes(Network(o.boot + {VANILLA}, o.boot, o.nodeIDs, o.peers[0])) <==>
            forall u :: u in o.boot + {VANILLA} ==>
              Shows(o, 0, u, if u in o.boot then IDsOf(o, o.boot + {VANILLA} - {u}) else IDsOf(o, o.boot))
  {
    var all := o.boot + {VANILLA};
    PassesExactly(Network(all, o.boot, o.nodeIDs, o.peers[0]));
    forall u | u in all
      ensures ExpectedPeers(all, o.boot, o.nodeIDs, u) ==
              if u in o.boot then IDsOf(o, o.boot + {VANILLA} - {u}) else IDsOf(o, o.boot)
    {
      ExpectedAmongOriginals(o, u);
    }
  }

  /** The first verification passes exactly when the boot nodes list all other originals, and the vanilla node
      the boot nodes. */
  lemma {:induction false} FirstPhaseExactly(o: Observed)
    requires Distinguishable(o)
    ensures PhaseOk(o, 0) <==>
            && (forall b :: b in o.boot ==> Shows(o, 0, b, IDsOf(o, o.boot + {VANILLA} - {b})))
            && Shows(o, 0, VANILLA, IDsOf(o, o.boot))
  {
    FirstNetworkShows(o);
    assert VANILLA in o.boot + {VANILLA};
  }

  lemma {:induction false} BadNetworkShows(o: Observed, phase: nat, x: ServiceID, nodeIDs: map<ServiceID, NodeID>)
    requires Distinguishable(o) && phase < 4 && x in {BAD_1, BAD_2} && x != VANILLA && x in nodeIDs
    requires forall s :: s in o.boot + {VANILLA} ==> s in nodeIDs && nodeIDs[s] == o.nodeIDs[s]
    ensures Passes(Network(o.boot + {VANILLA} + {x}, o.boot, nodeIDs, o.peers[phase])) <==>
            forall u :: u in o.boot + {VANILLA} + {x} ==>
              Shows(o, phase, u,
                    if u in o.boot then IDsOf(o, o.boot + {VANILLA} - {u}) + {nodeIDs[x]} else IDsOf(o, o.boot))
  {
    var all := o.boot + {VANILLA} + {x};
    PassesExactly(Network(all, o.boot, nodeIDs, o.peers[phase]));
    forall u | u in all
      ensures ExpectedPeers(all, o.boot, nodeIDs, u) ==
              if u in o.boot then IDsOf(o, o.boot + {VANILLA} - {u}) + {nodeIDs[x]} else IDsOf(o, o.boot)
    {
      ExpectedWithBad(o, x, nodeIDs, u);
    }
  }

  lemma {:induction false} BadNetworkExactly(o: Observed, phase: nat, x: ServiceID, nodeIDs: map<ServiceID, NodeID>)
    requires Distinguishable(o) && phase < 4 && x in {BAD_1, BAD_2} && x != VANILLA && x in nodeIDs
    requires forall s :: s in o.boot + {VANILLA} ==> s in nodeIDs && nodeIDs[s] == o.nodeIDs[s]
    ensures Passes(Network(o.boot + {VANILLA} + {x}, o.boot, nodeIDs, o.peers[phase])) <==>
            && (forall b :: b in o.boot ==> Shows(o, phase, b, IDsOf(o, o.boot + {VANILLA} - {b}) + {nodeIDs[x]}))
            && Shows(o, phase, VANILLA, IDsOf(o, o.boot))
            && Shows(o, phase, x, IDsOf(o, o.boot))
  {
    BadNetworkShows(o, phase, x, nodeIDs);
    assert VANILLA in o.boot + {VANILLA} + {x} && x in o.boot + {VANILLA} + {x};
  }

  /** With one bad service present, a verification passes exactly when it and the boot nodes list each other in
      addition, and it and the vanilla node do not. */
  lemma {:induction false} SecondPhaseExactly(o: Observed)
    requires Distinguishable(o)
    ensures PhaseOk(o, 1) <==>
            && (forall b :: b in o.boot ==> Shows(o, 1, b, IDsOf(o, o.boot + {VANILLA} - {b}) + {o.bad1}))
            && Shows(o, 1, VANILLA, IDsOf(o, o.boot))
            && Shows(o, 1, BAD_1, IDsOf(o, o.boot))
  {
    DistinctNames();
    BadNetworkExactly(o, 1, BAD_1, o.nodeIDs[BAD_1 := o.bad1]);
  }

  lemma {:induction false} LastPhaseExactly(o: Observed)
    requires Distinguishable(o)
    ensures PhaseOk(o, 3) <==>
            && (forall b :: b in o.boot ==> Shows(o, 3, b, IDsOf(o, o.boot + {VANILLA} - {b}) + {o.bad2}))
            && Shows(o, 3, VANILLA, IDsOf(o, o.boot))
            && Shows(o, 3, BAD_2, IDsOf(o, o.boot))
  {
    DistinctNames();
    BadNetworkExactly(o, 3, BAD_2, o.nodeIDs[BAD_1 := o.bad1][BAD_2 := o.bad2] - {BAD_1});
  }

  /** The check on the originals passes exactly when each boot node lists acceptable IDs only, and at least as
      many bad ones as it misses originals, and the vanilla node lists exactly the boot nodes. */
  lemma {:induction false} OriginalsPassExactly(o: Observed)
    requires Distinguishable(o)
    ensures o.OriginalsOk() <==>
            && (forall b :: b in o.boot ==>
                  && o.peers[2][b].Peers?
                  && SetOf(o.peers[2][b].ids) <= IDsOf(o, o.boot + {VANILLA} - {b}) + {o.bad1, o.bad2}
                  && |IDsOf(o, o.boot + {VANILLA} - {b}) - SetOf(o.peers[2][b].ids)|
                     <= |{o.bad1, o.bad2} * SetOf(o.peers[2][b].ids)|)
            && Shows(o, 2, VANILLA, IDsOf(o, o.boot))
    ensures o.OriginalsOk() ==>
              forall b :: b in o.boot ==>
                |IDsOf(o, o.boot + {VANILLA} - {b}) - SetOf(o.peers[2][b].ids)| <= if o.bad1 == o.bad2 then 1 else 2
  {
    forall b | b in o.boot && o.peers[2][b].Peers?
      ensures PeersOk(o.peers[2][b], o.Acceptable(b), |o.boot + {VANILLA}| - 1, true) <==>
              && SetOf(o.peers[2][b].ids) <= OtherOriginals(o, b) + {o.bad1, o.bad2}
              && |OtherOriginals(o, b) - SetOf(o.peers[2][b].ids)| <= |{o.bad1, o.bad2} * SetOf(o.peers[2][b].ids)|
      ensures PeersOk(o.peers[2][b], o.Acceptable(b), |o.boot + {VANILLA}| - 1, true) ==>
                |OtherOriginals(o, b) - SetOf(o.peers[2][b].ids)| <= if o.bad1 == o.bad2 then 1 else 2
    {
      OtherOriginalsCount(o, b);
      BootNodeBound(o, b, o.peers[2][b].ids);
    }
    if o.peers[2][VANILLA].Peers? {
      VanillaNodeIsExact(o, o.peers[2][VANILLA].ids);
    }
    assert VANILLA in o.boot + {VANILLA};
  }

  /** The four verifications pass exactly on these lists. */
  lemma {:induction false} AllPhasesExactly(o: Observed)
    requires Distinguishable(o)
    ensures PhasesOk(o, 4) <==>
            // the vanilla node beside the boot nodes
            && (forall b :: b in o.boot ==> Shows(o, 0, b, IDsOf(o, o.boot + {VANILLA} - {b})))
            && Shows(o, 0, VANILLA, IDsOf(o, o.boot))
            // the first bad service beside them
            && (forall b :: b in o.boot ==> Shows(o, 1, b, IDsOf(o, o.boot + {VANILLA} - {b}) + {o.bad1}))
            && Shows(o, 1, VANILLA, IDsOf(o, o.boot))
            && Shows(o, 1, BAD_1, IDsOf(o, o.boot))
            // both bad services
            && (forall b :: b in o.boot ==>
                  && o.peers[2][b].Peers?
                  && SetOf(o.peers[2][b].ids) <= IDsOf(o, o.boot + {VANILLA} - {b}) + {o.bad1, o.bad2}
                  && |IDsOf(o, o.boot + {VANILLA} - {b}) - SetOf(o.peers[2][b].ids)|
                     <= |{o.bad1, o.bad2} * SetOf(o.peers[2][b].ids)|)
            && Shows(o, 2, VANILLA, IDsOf(o, o.boot))
            // the second bad service alone
            && (forall b :: b in o.boot ==> Shows(o, 3, b, IDsOf(o, o.boot + {VANILLA} - {b}) + {o.bad2}))
            && Shows(o, 3, VANILLA, IDsOf(o, o.boot))
            && Shows(o, 3, BAD_2, IDsOf(o, o.boot))
    ensures PhasesOk(o, 4) ==>
              forall b :: b in o.boot ==>
                |IDsOf(o, o.boot + {VANILLA} - {b}) - SetOf(o.peers[2][b].ids)| <= if o.bad1 == o.bad2 then 1 else 2
  {
    FirstPhaseExactly(o);
    SecondPhaseExactly(o);
    OriginalsPassExactly(o);
    LastPhaseExactly(o);
  }
}
