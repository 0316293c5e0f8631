/** IDs of boot nodes and the pure side of the test network: which starts succeed, over any run of
    additions and removals. */
module NetworkPlan {
  import opened Options
  import opened DecimalText

  type ConfigID = string
  type ServiceID = string

  const BOOT_CONFIG_PREFIX := "boot-node-config-"
  const BOOT_SERVICE_PREFIX := "boot-node-"

  function BootConfigID(i: nat): ConfigID {
    BOOT_CONFIG_PREFIX + NatText(i)
  }

  function BootServiceID(i: nat): ServiceID {
    BOOT_SERVICE_PREFIX + NatText(i)
  }

  function BootServiceIDs(n: nat): set<ServiceID> {
    set i | 0 <= i < n :: BootServiceID(i)
  }

  lemma {:induction false} BootServiceIDsAre(n: nat)
    ensures forall i: nat :: i < n ==> "boot-node-" + NatText(i) in BootServiceIDs(n)
  {
    forall i: nat | i < n ensures "boot-node-" + NatText(i) in BootServiceIDs(n) {
      assert BootServiceID(i) == "boot-node-" + NatText(i);
      assert BootServiceID(i) in BootServiceIDs(n);
    }
  }

  lemma {:induction false} NextBootServiceID(n: nat)
    ensures BootServiceIDs(n + 1) == BootServiceIDs(n) + {BootServiceID(n)}
  {
  }

  function BootConfigIDs(n: nat): set<ConfigID> {
    set i | 0 <= i < n :: BootConfigID(i)
  }

  lemma {:induction false} BootServiceIDsDiffer(i: nat, j: nat)
    requires BootServiceID(i) == BootServiceID(j)
    ensures i == j
  {
    assert BootServiceID(i)[|BOOT_SERVICE_PREFIX|..] == NatText(i);
    assert BootServiceID(j)[|BOOT_SERVICE_PREFIX|..] == NatText(j);
    NatTextInjective(i, j);
  }

  lemma {:induction false} BootConfigIDsDiffer(i: nat, j: nat)
    requires BootConfigID(i) == BootConfigID(j)
    ensures i == j
  {
    assert BootConfigID(i)[|BOOT_CONFIG_PREFIX|..] == NatText(i);
    assert BootConfigID(j)[|BOOT_CONFIG_PREFIX|..] == NatText(j);
    NatTextInjective(i, j);
  }

  lemma {:induction false} BootServiceCount(n: nat)
    ensures |BootServiceIDs(n)| == n
  {
    if n > 0 {
      BootServiceCount(n - 1);
      if BootServiceID(n - 1) in BootServiceIDs(n - 1) {
        var i: nat :| i < n - 1 && BootServiceID(i) == BootServiceID(n - 1);
        BootServiceIDsDiffer(i, n - 1);
        assert false;
      }
      assert BootServiceIDs(n) == BootServiceIDs(n - 1) + {BootServiceID(n - 1)};
    }
  }

  /** A name without the reserved prefix is none of the boot nodes' names. */
  lemma {:induction false} UnreservedServiceIsNotBoot(s: ServiceID, n: nat)
    requires !(BOOT_SERVICE_PREFIX <= s)
    ensures s !in BootServiceIDs(n)
  {
    forall i: nat | i < n ensures s != BootServiceID(i) {
      assert BOOT_SERVICE_PREFIX <= BootServiceID(i);
    }
  }

  lemma {:induction false} UnreservedConfigIsNotBoot(c: ConfigID, n: nat)
    requires !(BOOT_CONFIG_PREFIX <= c)
    ensures c !in BootConfigIDs(n)
  {
    forall i: nat | i < n ensures c != BootConfigID(i) {
      assert BOOT_CONFIG_PREFIX <= BootConfigID(i);
    }
  }

  // ---------- starting and stopping services ----------

  /** A running service: its configuration and the services it was started with. */
  datatype Node = Node(config: ConfigID, dependencies: set<ServiceID>)

  /** How many boot node IDs each registered configuration carries. */
  type Capacity = map<ConfigID, nat>

  predicate CanStart(capacity: Capacity, services: map<ServiceID, Node>, config: ConfigID, service: ServiceID,
                     dependencies: set<ServiceID>) {
    && config in capacity
    && service !in services
    && dependencies <= services.Keys
    && |dependencies| <= capacity[config]
  }

  function Start(capacity: Capacity, services: map<ServiceID, Node>, config: ConfigID, service: ServiceID,
                 dependencies: set<ServiceID>)
    : Option<map<ServiceID, Node>>
  {
    if CanStart(capacity, services, config, service, dependencies) then
      Some(services[service := Node(config, dependencies)])
    else None
  }

  function Stop(services: map<ServiceID, Node>, service: ServiceID): Option<map<ServiceID, Node>> {
    if service in services then Some(services - {service}) else None
  }

  // ---------- the planned network ----------

  /** Boot configuration `i` knows the first `i` boot nodes; a user's configuration knows all `n`. */
  ghost predicate PlannedCapacity(capacity: Capacity, users: set<ConfigID>, n: nat) {
    && users !! BootConfigIDs(n)
    && capacity.Keys == users + BootConfigIDs(n)
    && (forall i: nat :: i < n ==> capacity[BootConfigID(i)] == i)
    && (forall c :: c in users ==> capacity[c] == n)
  }

  /** The services after the first `k` boot nodes have been added in order. */
  function BootNodes(k: nat): map<ServiceID, Node> {
    if k == 0 then map[] else BootNodes(k - 1)[BootServiceID(k - 1) := Node(BootConfigID(k - 1), BootServiceIDs(k - 1))]
  }

  lemma {:induction false} BootNodesKeys(k: nat)
    ensures BootNodes(k).Keys == BootServiceIDs(k)
  {
    if k > 0 {
      BootNodesKeys(k - 1);
      assert BootServiceIDs(k) == BootServiceIDs(k - 1) + {BootServiceID(k - 1)};
    }
  }

  /** Each boot start succeeds: boot node `k` depends on exactly the `k` nodes it is configured with. */
  lemma {:induction false} BootStartSucceeds(capacity: Capacity, users: set<ConfigID>, n: nat, k: nat)
    requires PlannedCapacity(capacity, users, n) && k < n
    ensures Start(capacity, BootNodes(k), BootConfigID(k), BootServiceID(k), BootServiceIDs(k)) ==
            Some(BootNodes(k + 1))
  {
    BootNodesKeys(k);
    BootServiceCount(k);
    assert BootConfigID(k) in BootConfigIDs(n);
    if BootServiceID(k) in BootServiceIDs(k) {
      var i: nat :| i < k && BootServiceID(i) == BootServiceID(k);
      BootServiceIDsDiffer(i, k);
      assert false;
    }
  }

  /** The number of a boot node, or `n` for any other service. */
  function Rank(s: ServiceID, n: nat): (r: nat)
    ensures r <= n
  {
    RankFrom(s, 0, n)
  }

  function RankFrom(s: ServiceID, i: nat, n: nat): (r: nat)
    requires i <= n
    ensures i <= r <= n
    ensures r < n ==> s == BootServiceID(r)
    ensures r == n ==> forall j: nat :: i <= j < n ==> s != BootServiceID(j)
    decreases n - i
  {
    if i == n then n else if s == BootServiceID(i) then i else RankFrom(s, i + 1, n)
  }

  lemma {:induction false} RankOfBoot(i: nat, n: nat)
    requires i < n
    ensures Rank(BootServiceID(i), n) == i
  {
    var r := Rank(BootServiceID(i), n);
    if r < n {
      BootServiceIDsDiffer(r, i);
    }
  }

  /** Dependencies always have a smaller number, so no chain of dependencies returns to its start. */
  ghost predicate Layered(services: map<ServiceID, Node>, n: nat) {
    forall s, d :: s in services && d in services[s].dependencies ==> Rank(d, n) < Rank(s, n)
  }

  lemma {:induction false} BootNodesLayered(k: nat, n: nat)
    requires k <= n
    ensures Layered(BootNodes(k), n)
  {
    if k > 0 {
      BootNodesLayered(k - 1, n);
      RankOfBoot(k - 1, n);
      forall d | d in BootServiceIDs(k - 1) ensures Rank(d, n) < k - 1 {
        var i: nat :| i < k - 1 && d == BootServiceID(i);
        RankOfBoot(i, n);
      }
    }
  }

  /** A chain of dependencies among running services. */
  ghost predicate DependencyChain(services: map<ServiceID, Node>, chain: seq<ServiceID>) {
    forall i :: 0 <= i < |chain| - 1 ==> chain[i] in services && chain[i + 1] in services[chain[i]].dependencies
  }

  lemma {:induction false} ChainsDescend(services: map<ServiceID, Node>, n: nat, chain: seq<ServiceID>)
    requires Layered(services, n) && DependencyChain(services, chain) && 1 < |chain|
    ensures Rank(chain[|chain| - 1], n) < Rank(chain[0], n)
  {
    assert chain[0] in services && chain[1] in services[chain[0]].dependencies;
    if |chain| > 2 {
      var rest := chain[1..];
      forall i | 0 <= i < |rest| - 1 ensures rest[i] in services && rest[i + 1] in services[rest[i]].dependencies {
        assert rest[i] == chain[i + 1] && rest[i + 1] == chain[i + 1 + 1];
      }
      ChainsDescend(services, n, rest);
    }
  }

  lemma {:induction false} NoDependencyCycle(services: map<ServiceID, Node>, n: nat, chain: seq<ServiceID>)
    requires Layered(services, n) && DependencyChain(services, chain) && 1 < |chain|
    ensures chain[0] != chain[|chain| - 1]
  {
    ChainsDescend(services, n, chain);
  }

  // ---------- runs after initialization ----------

  /** What a test does with the running network; additions depend on all boot nodes. */
  datatype Op = Add(config: ConfigID, service: ServiceID) | Remove(service: ServiceID)

  function Result(capacity: Capacity, n: nat, services: map<ServiceID, Node>, op: Op): Option<map<ServiceID, Node>> {
    match op
    case Add(config, service) => Start(capacity, services, config, service, BootServiceIDs(n))
    case Remove(service) => Stop(services, service)
  }

  /** A failed operation returns an error and leaves the network as it was. */
  function Next(capacity: Capacity, n: nat, services: map<ServiceID, Node>, op: Op): map<ServiceID, Node> {
    match Result(capacity, n, services, op)
    case None => services
    case Some(after) => after
  }

  function Perform(capacity: Capacity, n: nat, services: map<ServiceID, Node>, ops: seq<Op>): map<ServiceID, Node> {
    if ops == [] then services
    else Next(capacity, n, Perform(capacity, n, services, ops[..|ops| - 1]), ops[|ops| - 1])
  }

  ghost predicate RemovesBoot(ops: seq<Op>, n: nat) {
    exists i :: 0 <= i < |ops| && ops[i].Remove? && ops[i].service in BootServiceIDs(n)
  }

  /** What every reachable network keeps: dependencies are layered and within what each configuration knows,
      and the boot nodes all run exactly as long as none of them has been removed. */
  ghost predicate RunInv(capacity: Capacity, n: nat, ops: seq<Op>, services: map<ServiceID, Node>) {
    && Layered(services, n)
    && (BootServiceIDs(n) <= services.Keys <==> !RemovesBoot(ops, n))
    && (forall s :: s in services ==>
          services[s].config in capacity && |services[s].dependencies| <= capacity[services[s].config])
    && (forall s :: s in services && s in BootNodes(n) ==> services[s] == BootNodes(n)[s])
  }

  lemma {:induction false} AddedIsLayered(services: map<ServiceID, Node>, n: nat, config: ConfigID, service: ServiceID)
    requires Layered(services, n) && service !in BootServiceIDs(n)
    ensures Layered(services[service := Node(config, BootServiceIDs(n))], n)
  {
    assert Rank(service, n) == n;
    forall d | d in BootServiceIDs(n) ensures Rank(d, n) < n {
      var i: nat :| i < n && d == BootServiceID(i);
      RankOfBoot(i, n);
    }
  }

  lemma {:induction false} RemovesBootSnoc(ops: seq<Op>, op: Op, n: nat)
    ensures RemovesBoot(ops + [op], n) <==> RemovesBoot(ops, n) || (op.Remove? && op.service in BootServiceIDs(n))
  {
    var all := ops + [op];
    if RemovesBoot(ops, n) {
      var i :| 0 <= i < |ops| && ops[i].Remove? && ops[i].service in BootServiceIDs(n);
      assert all[i] == ops[i];
    }
    if op.Remove? && op.service in BootServiceIDs(n) {
      assert all[|ops|] == op;
    }
  }

  lemma {:induction false} OpKeepsInv(capacity: Capacity, n: nat, ops: seq<Op>, op: Op, services: map<ServiceID, Node>)
    requires RunInv(capacity, n, ops, services)
    ensures RunInv(capacity, n, ops + [op], Next(capacity, n, services, op))
  {
    BootNodesKeys(n);
    RemovesBootSnoc(ops, op, n);
    match op
    case Add(config, service) =>
      if CanStart(capacity, services, config, service, BootServiceIDs(n)) {
        AddedIsLayered(services, n, config, service);
      }
    case Remove(service) =>
  }

  /** Every run keeps what the first network has, whatever was registered. */
  lemma {:induction false} RunKeepsInv(capacity: Capacity, n: nat, services: map<ServiceID, Node>, ops: seq<Op>)
    requires RunInv(capacity, n, [], services)
    ensures RunInv(capacity, n, ops, Perform(capacity, n, services, ops))
  {
    if ops != [] {
      var before, op := ops[..|ops| - 1], ops[|ops| - 1];
      RunKeepsInv(capacity, n, services, before);
      OpKeepsInv(capacity, n, before, op, Perform(capacity, n, services, before));
      assert ops == before + [op];
    }
  }

  /** Only boot nodes are depended on, so with all of them running every dependency is alive. */
  lemma {:induction false} LayeredDependencies(services: map<ServiceID, Node>, n: nat)
    requires Layered(services, n)
    ensures forall s :: s in services ==> services[s].dependencies <= BootServiceIDs(n)
  {
    forall s, d | s in services && d in services[s].dependencies ensures d in BootServiceIDs(n) {
      assert Rank(d, n) < Rank(s, n);
    }
  }

  /** In every run, an addition succeeds exactly when it uses a configuration the user registered, the service
      ID is free, and no boot node has been removed so far. */
  lemma {:induction false} AddSucceedsExactly(capacity: Capacity, users: set<ConfigID>, n: nat,
                                              services: map<ServiceID, Node>, ops: seq<Op>, config: ConfigID,
                                              service: ServiceID)
    requires PlannedCapacity(capacity, users, n) && RunInv(capacity, n, [], services)
    ensures var now := Perform(capacity, n, services, ops);
            Result(capacity, n, now, Add(config, service)).Some? <==>
            config in users && service !in now && !RemovesBoot(ops, n)
  {
    RunKeepsInv(capacity, n, services, ops);
    BootServiceCount(n);
    if config in BootConfigIDs(n) {
      var i: nat :| i < n && config == BootConfigID(i);
      assert capacity[BootConfigID(i)] == i;
    }
  }
}
