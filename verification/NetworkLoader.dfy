/** The loader of the test network: registers configurations, then starts boot nodes and user services. */
module NetworkLoader {
  import opened MachineInts
  import opened Options
  import opened DecimalText
  import opened NetworkPlan
  import R = CommandRoundTrip
  import S = StartCommand

  datatype ServiceConfig = ServiceConfig(varyCerts: bool, serviceLogLevel: string, imageName: string,
                                         snowQuorumSize: int, snowSampleSize: int, networkInitialTimeout: string,
                                         additionalCLIArgs: map<string, string>)

  datatype Loader = Loader(bootNodeImage: string, bootNodeLogLevel: string, isStaking: bool,
                           serviceConfigs: map<ConfigID, ServiceConfig>, desiredServiceConfig: map<ServiceID, ConfigID>,
                           bootstrapperSnowQuorumSize: int, bootstrapperSnowSampleSize: int, txFee: uint64,
                           networkInitialTimeout: string)
  {
    /** No user ID takes a name reserved for boot nodes. */
    ghost predicate Unreserved() {
      && (forall c :: c in serviceConfigs ==> !(BOOT_CONFIG_PREFIX <= c))
      && (forall s :: s in desiredServiceConfig ==> !(BOOT_SERVICE_PREFIX <= s))
    }

    function BootCore(nodeIDs: seq<string>, i: nat): S.Core
      requires i <= |nodeIDs|
    {
      S.Core(bootstrapperSnowSampleSize, bootstrapperSnowQuorumSize, txFee, isStaking, networkInitialTimeout, map[],
             nodeIDs[..i], bootNodeLogLevel)
    }

    function UserCore(nodeIDs: seq<string>, c: ServiceConfig): S.Core {
      S.Core(c.snowSampleSize, c.snowQuorumSize, txFee, isStaking, c.networkInitialTimeout, c.additionalCLIArgs,
             nodeIDs, c.serviceLogLevel)
    }
  }

  datatype LoaderResult =
    | Created(loader: Loader) | ReservedConfigID(config: ConfigID) | ReservedServiceID(service: ServiceID)

  method NewTestAvalancheNetworkLoader(isStaking: bool, bootNodeImage: string, bootNodeLogLevel: string,
                                       snowQuorumSize: int, snowSampleSize: int, txFee: uint64,
                                       networkInitialTimeout: string, serviceConfigs: map<ConfigID, ServiceConfig>,
                                       desiredServiceConfigs: map<ServiceID, ConfigID>)
    returns (r: LoaderResult)
    ensures r.Created? <==>
              && (forall c :: c in serviceConfigs ==> !("boot-node-config-" <= c))
              && (forall s :: s in desiredServiceConfigs ==> !("boot-node-" <= s))
    ensures r.Created? ==> r.loader.Unreserved()
    ensures r.Created? ==>
              r.loader == Loader(bootNodeImage, bootNodeLogLevel, isStaking, serviceConfigs, desiredServiceConfigs,
                                              snowQuorumSize, snowSampleSize, txFee, networkInitialTimeout)
    ensures r.ReservedConfigID? ==> r.config in serviceConfigs && BOOT_CONFIG_PREFIX <= r.config
    ensures r.ReservedServiceID? ==> r.service in desiredServiceConfigs && BOOT_SERVICE_PREFIX <= r.service
  {
    var configs: map<ConfigID, ServiceConfig> := map[];
    var todo := serviceConfigs.Keys;
    while todo != {}
      invariant todo <= serviceConfigs.Keys && configs.Keys == serviceConfigs.Keys - todo
      invariant forall c :: c in configs ==> configs[c] == serviceConfigs[c] && !(BOOT_CONFIG_PREFIX <= c)
    {
      var configID :| configID in todo;
      if BOOT_CONFIG_PREFIX <= configID {
        return ReservedConfigID(configID);
      }
      configs := configs[configID := serviceConfigs[configID]];
      todo := todo - {configID};
    }
    assert configs == serviceConfigs;

    var desired: map<ServiceID, ConfigID> := map[];
    todo := desiredServiceConfigs.Keys;
    while todo != {}
      invariant todo <= desiredServiceConfigs.Keys && desired.Keys == desiredServiceConfigs.Keys - todo
      invariant forall s :: s in desired ==> desired[s] == desiredServiceConfigs[s] && !(BOOT_SERVICE_PREFIX <= s)
    {
      var serviceID :| serviceID in todo;
      if BOOT_SERVICE_PREFIX <= serviceID {
        return ReservedServiceID(serviceID);
      }
      desired := desired[serviceID := desiredServiceConfigs[serviceID]];
      todo := todo - {serviceID};
    }
    assert desired == desiredServiceConfigs;
    r := Created(Loader(bootNodeImage, bootNodeLogLevel, isStaking, configs, desired, snowQuorumSize, snowSampleSize,
                        txFee, networkInitialTimeout));
  }

  // ---------- configurations ----------

  datatype Configuration = Configuration(image: string, core: S.Core)

  /** Collects configurations; an ID can be registered once. */
  class NetworkBuilder {
    var configurations: map<ConfigID, Configuration>

    constructor ()
      ensures configurations == map[]
    {
      configurations := map[];
    }

    method AddConfiguration(config: ConfigID, image: string, core: S.Core) returns (ok: bool)
      modifies this
      ensures ok <==> config !in old(configurations)
      ensures configurations ==
              if ok then old(configurations)[config := Configuration(image, core)] else old(configurations)
    {
      ok := config !in configurations;
      if ok {
        configurations := configurations[config := Configuration(image, core)];
      }
    }
  }

  /** The first `k` boot configurations. */
  function BootConfigurations(loader: Loader, nodeIDs: seq<string>, k: nat): map<ConfigID, Configuration>
    requires k <= |nodeIDs|
  {
    if k == 0 then map[]
    else
      BootConfigurations(loader, nodeIDs, k - 1)
      [BootConfigID(k - 1) := Configuration(loader.bootNodeImage, loader.BootCore(nodeIDs, k - 1))]
  }

  lemma {:induction false} BootConfigurationKeys(loader: Loader, nodeIDs: seq<string>, k: nat)
    requires k <= |nodeIDs|
    ensures BootConfigurations(loader, nodeIDs, k).Keys == BootConfigIDs(k)
  {
    if k > 0 {
      BootConfigurationKeys(loader, nodeIDs, k - 1);
      assert BootConfigIDs(k) == BootConfigIDs(k - 1) + {BootConfigID(k - 1)};
    }
  }

  lemma {:induction false} BootConfigIsNew(i: nat)
    ensures BootConfigID(i) !in BootConfigIDs(i)
  {
    forall j: nat | j < i ensures BootConfigID(j) != BootConfigID(i) {
      if BootConfigID(j) == BootConfigID(i) {
        BootConfigIDsDiffer(j, i);
        assert false;
      }
    }
  }

  lemma {:induction false} BootConfigurationAt(loader: Loader, nodeIDs: seq<string>, k: nat, i: nat)
    requires i < k <= |nodeIDs|
    ensures BootConfigID(i) in BootConfigurations(loader, nodeIDs, k)
    ensures BootConfigurations(loader, nodeIDs, k)[BootConfigID(i)] ==
            Configuration(loader.bootNodeImage, loader.BootCore(nodeIDs, i))
  {
    if i < k - 1 {
      BootConfigurationAt(loader, nodeIDs, k - 1, i);
      BootConfigIsNew(k - 1);
      assert BootConfigID(i) in BootConfigIDs(k - 1);
    }
  }

  function UserConfigurations(loader: Loader, nodeIDs: seq<string>): map<ConfigID, Configuration> {
    map c | c in loader.serviceConfigs ::
      Configuration(loader.serviceConfigs[c].imageName, loader.UserCore(nodeIDs, loader.serviceConfigs[c]))
  }

  /** Everything the loader registers. */
  function Configurations(loader: Loader, nodeIDs: seq<string>): map<ConfigID, Configuration> {
    BootConfigurations(loader, nodeIDs, |nodeIDs|) + UserConfigurations(loader, nodeIDs)
  }

  /** Registers a configuration for every boot node, knowing the boot nodes before it, and one for every
      user configuration, knowing all of them. On a fresh builder it cannot fail. */
  method ConfigureNetwork(loader: Loader, nodeIDs: seq<string>, builder: NetworkBuilder) returns (ok: bool)
    requires loader.Unreserved() && builder.configurations == map[]
    modifies builder
    ensures ok
    ensures builder.configurations == Configurations(loader, nodeIDs)
  {
    var bootNodeIDs: seq<string> := [];
    for i := 0 to |nodeIDs|
      invariant bootNodeIDs == nodeIDs[..i]
    {
      bootNodeIDs := bootNodeIDs + [nodeIDs[i]];
    }
    assert bootNodeIDs == nodeIDs;
    ok := AddBootConfigurations(loader, bootNodeIDs, builder);
    if !ok {
      return;
    }
    BootConfigurationKeys(loader, nodeIDs, |nodeIDs|);
    forall c | c in loader.serviceConfigs ensures c !in builder.configurations {
      UnreservedConfigIsNotBoot(c, |nodeIDs|);
    }
    ok := AddUserConfigurations(loader, bootNodeIDs, builder);
  }

  method AddBootConfigurations(loader: Loader, nodeIDs: seq<string>, builder: NetworkBuilder) returns (ok: bool)
    requires builder.configurations == map[]
    modifies builder
    ensures ok
    ensures builder.configurations == BootConfigurations(loader, nodeIDs, |nodeIDs|)
  {
    ok := true;
    for i := 0 to |nodeIDs|
      invariant ok
      invariant builder.configurations == BootConfigurations(loader, nodeIDs, i)
    {
      BootConfigurationKeys(loader, nodeIDs, i);
      BootConfigIsNew(i);
      var core := S.NewCore(loader.bootstrapperSnowSampleSize, loader.bootstrapperSnowQuorumSize, loader.txFee,
                            loader.isStaking,
                            loader.networkInitialTimeout, map[], nodeIDs[..i], loader.bootNodeLogLevel);
      ok := builder.AddConfiguration(BootConfigID(i), loader.bootNodeImage, core);
      if !ok {
        return;
      }
    }
  }

  method AddUserConfigurations(loader: Loader, nodeIDs: seq<string>, builder: NetworkBuilder) returns (ok: bool)
    requires forall c :: c in loader.serviceConfigs ==> c !in builder.configurations
    modifies builder
    ensures ok
    ensures builder.configurations == old(builder.configurations) + UserConfigurations(loader, nodeIDs)
  {
    ok := true;
    var todo := loader.serviceConfigs.Keys;
    ghost var boots, users := builder.configurations, UserConfigurations(loader, nodeIDs);
    while todo != {}
      invariant ok && todo <= loader.serviceConfigs.Keys
      invariant builder.configurations.Keys == boots.Keys + (loader.serviceConfigs.Keys - todo)
      invariant forall c :: c in boots ==> builder.configurations[c] == boots[c]
      invariant forall c :: c in loader.serviceConfigs && c !in todo ==> builder.configurations[c] == users[c]
    {
      var configID :| configID in todo;
      var configParams := loader.serviceConfigs[configID];
      var core := S.NewCore(configParams.snowSampleSize, configParams.snowQuorumSize, loader.txFee, loader.isStaking,
                            configParams.networkInitialTimeout, configParams.additionalCLIArgs, nodeIDs,
                            configParams.serviceLogLevel);
      ok := builder.AddConfiguration(configID, configParams.imageName, core);
      if !ok {
        return;
      }
      todo := todo - {configID};
    }
    assert builder.configurations == boots + users;
  }

  // ---------- the running network ----------

  function CapacityOf(configurations: map<ConfigID, Configuration>): Capacity {
    map c | c in configurations :: |configurations[c].core.bootstrapperNodeIDs|
  }

  /** The registered configuration of boot node `i`, field by field. */
  lemma {:induction false} RegisteredBootNode(loader: Loader, nodeIDs: seq<string>, i: nat)
    requires loader.Unreserved() && i < |nodeIDs|
    ensures BootConfigID(i) in Configurations(loader, nodeIDs)
    ensures var c := Configurations(loader, nodeIDs)[BootConfigID(i)];
            && c.image == loader.bootNodeImage
            && c.core.bootstrapperNodeIDs == nodeIDs[..i]
            && c.core.snowSampleSize == loader.bootstrapperSnowSampleSize
            && c.core.snowQuorumSize == loader.bootstrapperSnowQuorumSize
            && c.core.txFee == loader.txFee
            && c.core.stakingEnabled == loader.isStaking
            && c.core.networkInitialTimeout == loader.networkInitialTimeout
            && c.core.logLevel == loader.bootNodeLogLevel
            && c.core.additionalCLIArgs == map[]
  {
    UsersApart(loader, |nodeIDs|);
    assert BootConfigID(i) in BootConfigIDs(|nodeIDs|);
    BootConfigurationAt(loader, nodeIDs, |nodeIDs|, i);
  }

  /** The registered configuration of a user, field by field. */
  lemma {:induction false} RegisteredUser(loader: Loader, nodeIDs: seq<string>, config: ConfigID)
    requires config in loader.serviceConfigs
    ensures config in Configurations(loader, nodeIDs)
    ensures var c, given := Configurations(loader, nodeIDs)[config], loader.serviceConfigs[config];
            && c.image == given.imageName
            && c.core.bootstrapperNodeIDs == nodeIDs
            && c.core.snowSampleSize == given.snowSampleSize
            && c.core.snowQuorumSize == given.snowQuorumSize
            && c.core.txFee == loader.txFee
            && c.core.stakingEnabled == loader.isStaking
            && c.core.networkInitialTimeout == given.networkInitialTimeout
            && c.core.logLevel == given.serviceLogLevel
            && c.core.additionalCLIArgs == given.additionalCLIArgs
  {
  }

  lemma {:induction false} UsersApart(loader: Loader, n: nat)
    requires loader.Unreserved()
    ensures loader.serviceConfigs.Keys !! BootConfigIDs(n)
  {
    forall c | c in loader.serviceConfigs ensures c !in BootConfigIDs(n) {
      UnreservedConfigIsNotBoot(c, n);
    }
  }

  lemma {:induction false} BootCapacity(loader: Loader, nodeIDs: seq<string>, i: nat)
    requires loader.Unreserved() && i < |nodeIDs|
    ensures BootConfigID(i) in Configurations(loader, nodeIDs)
    ensures CapacityOf(Configurations(loader, nodeIDs))[BootConfigID(i)] == i
  {
    UsersApart(loader, |nodeIDs|);
    assert BootConfigID(i) in BootConfigIDs(|nodeIDs|);
    BootConfigurationAt(loader, nodeIDs, |nodeIDs|, i);
  }

  /** What the loader registers is the plan: boot node `i` knows `i` IDs, user configurations know all. */
  lemma {:induction false} ConfigurationsArePlanned(loader: Loader, nodeIDs: seq<string>)
    requires loader.Unreserved()
    ensures PlannedCapacity(CapacityOf(Configurations(loader, nodeIDs)), loader.serviceConfigs.Keys, |nodeIDs|)
  {
    UsersApart(loader, |nodeIDs|);
    BootConfigurationKeys(loader, nodeIDs, |nodeIDs|);
    forall i: nat | i < |nodeIDs|
      ensures BootConfigID(i) in Configurations(loader, nodeIDs)
              && CapacityOf(Configurations(loader, nodeIDs))[BootConfigID(i)] == i
    {
      BootCapacity(loader, nodeIDs, i);
    }
  }

  /** The service network: starting a service prints its start command against the sockets of its
      dependencies, which fails when there are more of them than configured boot node IDs. */
  class ServiceNetwork {
    const configurations: map<ConfigID, Configuration>
    /** The address that the container of a service is given. */
    const addressOf: ServiceID -> string
    const stakingPort: int := 9651
    var services: map<ServiceID, Node>
    var commands: map<ServiceID, seq<string>>

    constructor (configurations: map<ConfigID, Configuration>, addressOf: ServiceID -> string)
      ensures this.configurations == configurations && this.addressOf == addressOf
      ensures services == map[] && commands == map[] && Recorded()
    {
      this.configurations, this.addressOf := configurations, addressOf;
      services, commands := map[], map[];
    }

    /** Each of `services` has been started by its command in `commands`, with its configuration against its
        dependencies. */
    ghost predicate AllStarted(services: map<ServiceID, Node>, commands: map<ServiceID, seq<string>>) {
      && commands.Keys == services.Keys
      && forall s :: s in services ==> WasStarted(services[s], s, commands[s])
    }

    ghost predicate WasStarted(node: Node, service: ServiceID, command: seq<string>) {
      && node.config in configurations
      && StartsAs(command, configurations[node.config].core, service, node.dependencies)
    }

    ghost predicate Recorded()
      reads this
    {
      AllStarted(services, commands)
    }

    lemma {:induction false} OneMoreStarted(services: map<ServiceID, Node>, commands: map<ServiceID, seq<string>>,
                                            node: Node, service: ServiceID, command: seq<string>)
      requires AllStarted(services, commands) && WasStarted(node, service, command)
      ensures AllStarted(services[service := node], commands[service := command])
    {
    }

    lemma {:induction false} OneLessStarted(services: map<ServiceID, Node>, commands: map<ServiceID, seq<string>>,
                                            service: ServiceID)
      requires AllStarted(services, commands)
      ensures AllStarted(services - {service}, commands - {service})
    {
    }

    method SocketsOf(dependencies: set<ServiceID>) returns (sockets: seq<S.Socket>)
      ensures ListsSockets(sockets, dependencies)
    {
      sockets := [];
      var todo := dependencies;
      while todo != {}
        invariant todo <= dependencies && |sockets| + |todo| == |dependencies|
        invariant forall d :: d in dependencies && d !in todo ==> S.Socket(addressOf(d), stakingPort) in sockets
        invariant forall i :: 0 <= i < |sockets| ==>
                    exists d :: d in dependencies && sockets[i] == S.Socket(addressOf(d), stakingPort)
      {
        var d :| d in todo;
        sockets := sockets + [S.Socket(addressOf(d), stakingPort)];
        todo := todo - {d};
      }
    }

    /** `command` starts `service` with `core` against the sockets of `dependencies`, in some order. */
    ghost predicate StartsAs(command: seq<string>, core: S.Core, service: ServiceID, dependencies: set<ServiceID>) {
      exists sockets :: ListsSockets(sockets, dependencies)
        && S.Prints(command, core, MountedFiles(core), addressOf(service), sockets)
    }

    ghost predicate ListsSockets(sockets: seq<S.Socket>, dependencies: set<ServiceID>) {
      && |sockets| == |dependencies|
      && (forall d :: d in dependencies ==> S.Socket(addressOf(d), stakingPort) in sockets)
      && (forall i :: 0 <= i < |sockets| ==>
            exists d :: d in dependencies && sockets[i] == S.Socket(addressOf(d), stakingPort))
    }

    /** The addresses of the dependencies and the settings of the core hold no separator where the command has
        none to spare. */
    ghost predicate Readable(core: S.Core, dependencies: set<ServiceID>) {
      && (forall d :: d in dependencies ==> ':' !in addressOf(d) && ',' !in addressOf(d))
      && (forall i :: 0 <= i < |core.bootstrapperNodeIDs| ==> ',' !in core.bootstrapperNodeIDs[i])
      && core.bootstrapperNodeIDs != [""]
      && (forall k :: k in core.additionalCLIArgs ==> '=' !in k && k !in S.FlagNames())
    }

    /** Every file the core asks for is mounted, each at its own path. */
    function MountedFiles(core: S.Core): map<string, string> {
      map f | f in S.FilesToMount(core) :: "/shared/" + f
    }

    /** A recorded command reads back to the service's own address and staking port, the boot node IDs of the
        core, and the staking socket of each dependency. */
    lemma {:induction false} StartedReadsBack(command: seq<string>, core: S.Core, service: ServiceID,
                                              dependencies: set<ServiceID>)
      requires StartsAs(command, core, service, dependencies) && Readable(core, dependencies)
      ensures S.ReadCommand(command).Some?
      ensures var settings := S.ReadCommand(command).value;
              && settings.publicIP == addressOf(service) && settings.stakingPort == 9651
              && settings.bootstrapIDs == (if core.stakingEnabled then Some(core.bootstrapperNodeIDs) else None)
              && |settings.bootstrapIPs| == |dependencies|
              && forall d :: d in dependencies ==> S.Socket(addressOf(d), 9651) in settings.bootstrapIPs
    {
      var sockets :| ListsSockets(sockets, dependencies)
                  && S.Prints(command, core, MountedFiles(core), addressOf(service), sockets);
      forall i | 0 <= i < |sockets| ensures R.PlainSocket(sockets[i]) {
        var d :| d in dependencies && sockets[i] == S.Socket(addressOf(d), stakingPort);
      }
      R.PrintedCommandReadsBack(command, core, MountedFiles(core), addressOf(service), sockets);
    }

    /** The command for a service, or none when there are more dependencies than boot node IDs. */
    method CommandFor(core: S.Core, service: ServiceID, dependencies: set<ServiceID>) returns (r: S.StartResult)
      ensures r.Started? <==> |dependencies| <= |core.bootstrapperNodeIDs|
      ensures r.Started? ==> StartsAs(r.command, core, service, dependencies)
      ensures r.Started? && Readable(core, dependencies) ==>
                && S.ReadCommand(r.command).Some?
                && var settings := S.ReadCommand(r.command).value;
                && settings.publicIP == addressOf(service) && settings.stakingPort == 9651
                && |settings.bootstrapIPs| == |dependencies|
                && forall d :: d in dependencies ==> S.Socket(addressOf(d), 9651) in settings.bootstrapIPs
    {
      var sockets := SocketsOf(dependencies);
      r := S.GetStartCommand(core, MountedFiles(core), addressOf(service), sockets);
      if r.Started? {
        assert StartsAs(r.command, core, service, dependencies);
        if Readable(core, dependencies) {
          StartedReadsBack(r.command, core, service, dependencies);
        }
      }
    }

    method AddService(config: ConfigID, service: ServiceID, dependencies: set<ServiceID>) returns (ok: bool)
      modifies this
      ensures ok <==>
                && config in configurations && service !in old(services) && dependencies <= old(services).Keys
                && |dependencies| <= |configurations[config].core.bootstrapperNodeIDs|
      ensures ok ==> services == old(services)[service := Node(config, dependencies)]
      ensures Start(CapacityOf(configurations), old(services), config, service, dependencies) ==
              if ok then Some(services) else None
      ensures ok ==>
                && commands.Keys == old(commands).Keys + {service}
                && commands == old(commands)[service := commands[service]]
      ensures ok ==> StartsAs(commands[service], configurations[config].core, service, dependencies)
      ensures ok && Readable(configurations[config].core, dependencies) ==>
                && S.ReadCommand(commands[service]).Some?
                && var settings := S.ReadCommand(commands[service]).value;
                && settings.publicIP == addressOf(service) && settings.stakingPort == 9651
                && |settings.bootstrapIPs| == |dependencies|
                && forall d :: d in dependencies ==> S.Socket(addressOf(d), 9651) in settings.bootstrapIPs
      ensures !ok ==> services == old(services) && commands == old(commands)
    {
      if config !in configurations || service in services || !(dependencies <= services.Keys) {
        return false;
      }
      var core := configurations[config].core;
      var started := CommandFor(core, service, dependencies);
      if started.StartFailed? {
        return false;
      }
      services := services[service := Node(config, dependencies)];
      commands := commands[service := started.command];
      ok := true;
    }

    method RemoveService(service: ServiceID) returns (ok: bool)
      modifies this
      ensures ok <==> service in old(services)
      ensures services == if ok then old(services) - {service} else old(services)
      ensures Stop(old(services), service) == if ok then Some(services) else None
      ensures commands == if ok then old(commands) - {service} else old(commands)
      ensures !ok ==> services == old(services)
    {
      ok := service in services;
      if ok {
        services := services - {service};
        commands := commands - {service};
      }
    }
  }

  /** All services the loader starts, each user service depending on every boot node. */
  function InitialServices(loader: Loader, n: nat): map<ServiceID, Node> {
    BootNodes(n) + UserNodes(loader.desiredServiceConfig, loader.desiredServiceConfig.Keys, BootServiceIDs(n))
  }

  /** Starts a service; what has been recorded about the running ones stays. */
  method StartService(network: ServiceNetwork, config: ConfigID, service: ServiceID, dependencies: set<ServiceID>)
    returns (ok: bool)
    modifies network
    ensures ok <==> CanStart(CapacityOf(network.configurations), old(network.services), config, service, dependencies)
    ensures Start(CapacityOf(network.configurations), old(network.services), config, service, dependencies) ==
            if ok then Some(network.services) else None
    ensures !ok ==> network.services == old(network.services)
    ensures old(network.Recorded()) ==> network.Recorded()
  {
    ghost var services, commands := network.services, network.commands;
    ok := network.AddService(config, service, dependencies);
    if ok && network.AllStarted(services, commands) {
      network.OneMoreStarted(services, commands, Node(config, dependencies), service, network.commands[service]);
    }
  }

  method StopService(network: ServiceNetwork, service: ServiceID) returns (ok: bool)
    modifies network
    ensures Stop(old(network.services), service) == if ok then Some(network.services) else None
    ensures !ok ==> network.services == old(network.services)
    ensures old(network.Recorded()) ==> network.Recorded()
  {
    ghost var services, commands := network.services, network.commands;
    ok := network.RemoveService(service);
    if ok && network.AllStarted(services, commands) {
      network.OneLessStarted(services, commands, service);
    }
  }

  method StartBootNode(n: nat, i: nat, ids: set<ServiceID>, network: ServiceNetwork, ghost users: set<ConfigID>)
    returns (ok: bool)
    requires PlannedCapacity(CapacityOf(network.configurations), users, n) && i < n
    requires network.services == BootNodes(i) && ids == BootServiceIDs(i)
    modifies network
    ensures ok && network.services == BootNodes(i + 1)
    ensures old(network.Recorded()) ==> network.Recorded()
  {
    BootStartSucceeds(CapacityOf(network.configurations), users, n, i);
    ok := StartService(network, BootConfigID(i), BootServiceID(i), ids);
  }

  /** Starts the boot nodes in order, each depending on the ones before it. */
  method StartBootNodes(n: nat, network: ServiceNetwork, ghost users: set<ConfigID>)
    returns (ok: bool, ids: set<ServiceID>)
    requires PlannedCapacity(CapacityOf(network.configurations), users, n) && network.services == map[]
    modifies network
    ensures ok && ids == BootServiceIDs(n)
    ensures network.services == BootNodes(n)
    ensures old(network.Recorded()) ==> network.Recorded()
  {
    ok, ids := true, {};
    for i := 0 to n
      invariant ok && ids == BootServiceIDs(i)
      invariant network.services == BootNodes(i)
      invariant old(network.Recorded()) ==> network.Recorded()
    {
      ok := StartBootNode(n, i, ids, network, users);
      if !ok {
        return;
      }
      NextBootServiceID(i);
      ids := ids + {BootServiceID(i)};
    }
  }

  /** The services `done` of `desired`, each depending on `ids`. */
  function UserNodes(desired: map<ServiceID, ConfigID>, done: set<ServiceID>,
                     ids: set<ServiceID>): map<ServiceID, Node> {
    map s | s in desired && s in done :: Node(desired[s], ids)
  }

  method StartUserNode(desired: map<ServiceID, ConfigID>, n: nat, ids: set<ServiceID>, network: ServiceNetwork,
                       ghost users: set<ConfigID>, ghost started: set<ServiceID>, serviceID: ServiceID)
    returns (ok: bool)
    requires PlannedCapacity(CapacityOf(network.configurations), users, n)
    requires network.services == BootNodes(n) + UserNodes(desired, started, ids) && ids == BootServiceIDs(n)
    requires serviceID in desired.Keys - started && serviceID !in ids
    modifies network
    ensures ok <==> desired[serviceID] in users
    ensures ok ==> network.services == BootNodes(n) + UserNodes(desired, started + {serviceID}, ids)
    ensures old(network.Recorded()) ==> network.Recorded()
  {
    BootNodesKeys(n);
    UserStartSucceedsExactly(CapacityOf(network.configurations), users, n, network.services, desired[serviceID],
                             serviceID);
    UserNodesStep(BootNodes(n), desired, started, serviceID, ids);
    ok := StartService(network, desired[serviceID], serviceID, ids);
  }

  /** Starts the desired services in some order, each depending on all boot nodes. */
  method StartUserNodes(desired: map<ServiceID, ConfigID>, n: nat, ids: set<ServiceID>, network: ServiceNetwork,
                        ghost users: set<ConfigID>)
    returns (ok: bool, started: set<ServiceID>)
    requires PlannedCapacity(CapacityOf(network.configurations), users, n)
    requires network.services == BootNodes(n) && ids == BootServiceIDs(n)
    requires forall s :: s in desired ==> s !in ids
    modifies network
    ensures ok <==> forall s :: s in desired ==> desired[s] in users
    ensures ok ==> started == desired.Keys && network.services == BootNodes(n) + UserNodes(desired, desired.Keys, ids)
    ensures old(network.Recorded()) ==> network.Recorded()
  {
    ok, started := true, {};
    assert BootNodes(n) + UserNodes(desired, {}, ids) == BootNodes(n);
    var todo := desired.Keys;
    while todo != {}
      invariant ok && todo <= desired.Keys && started == desired.Keys - todo
      invariant forall s :: s in started ==> desired[s] in users
      invariant network.services == BootNodes(n) + UserNodes(desired, started, ids)
      invariant old(network.Recorded()) ==> network.Recorded()
    {
      var serviceID :| serviceID in todo;
      ok := StartUserNode(desired, n, ids, network, users, started, serviceID);
      if !ok {
        return;
      }
      started := started + {serviceID};
      todo := todo - {serviceID};
    }
  }

  lemma {:induction false} UserNodesStep(boots: map<ServiceID, Node>, desired: map<ServiceID, ConfigID>,
                                         done: set<ServiceID>, s: ServiceID, ids: set<ServiceID>)
    requires s in desired
    ensures (boots + UserNodes(desired, done, ids))[s := Node(desired[s], ids)] ==
            boots + UserNodes(desired, done + {s}, ids)
  {
  }

  lemma {:induction false} UserStartSucceedsExactly(capacity: Capacity, users: set<ConfigID>, n: nat,
                                                    services: map<ServiceID, Node>, config: ConfigID,
                                                    service: ServiceID)
    requires PlannedCapacity(capacity, users, n)
    requires BootServiceIDs(n) <= services.Keys && service !in services
    ensures CanStart(capacity, services, config, service, BootServiceIDs(n)) <==> config in users
  {
    BootServiceCount(n);
    if config in BootConfigIDs(n) {
      var i: nat :| i < n && config == BootConfigID(i);
      assert capacity[BootConfigID(i)] == i;
    }
  }

  /** What the loader leaves running, service by service. */
  lemma {:induction false} InitialServicesAre(loader: Loader, n: nat)
    requires loader.Unreserved()
    ensures InitialServices(loader, n).Keys ==
            (set i | 0 <= i < n :: BootServiceID(i)) + loader.desiredServiceConfig.Keys
    ensures forall i: nat :: i < n ==>
              InitialServices(loader, n)[BootServiceID(i)] ==
              Node(BootConfigID(i), set j | 0 <= j < i :: BootServiceID(j))
    ensures forall s :: s in loader.desiredServiceConfig ==>
              InitialServices(loader, n)[s] ==
              Node(loader.desiredServiceConfig[s], set j | 0 <= j < n :: BootServiceID(j))
  {
    BootNodesKeys(n);
    forall i: nat | i < n
      ensures InitialServices(loader, n)[BootServiceID(i)] ==
              Node(BootConfigID(i), set j | 0 <= j < i :: BootServiceID(j))
    {
      BootNodeAt(n, i);
      assert BootServiceID(i) in BootServiceIDs(n);
      if BootServiceID(i) in loader.desiredServiceConfig {
        UnreservedServiceIsNotBoot(BootServiceID(i), n);
      }
    }
  }

  lemma {:induction false} BootNodeAt(n: nat, i: nat)
    requires i < n
    ensures BootServiceID(i) in BootNodes(n)
    ensures BootNodes(n)[BootServiceID(i)] == Node(BootConfigID(i), set j | 0 <= j < i :: BootServiceID(j))
  {
    if i < n - 1 {
      BootNodeAt(n - 1, i);
      if BootServiceID(i) == BootServiceID(n - 1) {
        BootServiceIDsDiffer(i, n - 1);
      }
    }
  }

  lemma {:induction false} CheckerCount(n: nat, started: set<ServiceID>)
    requires started !! BootServiceIDs(n)
    ensures |BootServiceIDs(n) + started| == n + |started|
  {
    BootServiceCount(n);
  }

  /** Initialization succeeds exactly when every desired service names a registered user configuration; then
      it returns one availability checker per boot node and per desired service. */
  method InitializeNetwork(loader: Loader, nodeIDs: seq<string>, network: ServiceNetwork)
    returns (ok: bool, checkers: set<ServiceID>)
    requires loader.Unreserved() && network.configurations == Configurations(loader, nodeIDs)
             && network.services == map[]
    modifies network
    ensures ok <==> forall s :: s in loader.desiredServiceConfig ==>
              loader.desiredServiceConfig[s] in loader.serviceConfigs
    ensures ok ==> network.services == InitialServices(loader, |nodeIDs|)
    ensures ok ==> checkers == BootServiceIDs(|nodeIDs|) + loader.desiredServiceConfig.Keys
    ensures ok ==> |checkers| == |nodeIDs| + |loader.desiredServiceConfig|
    ensures old(network.Recorded()) ==> network.Recorded()
  {
    ConfigurationsArePlanned(loader, nodeIDs);
    var ids;
    ok, ids := StartBootNodes(|nodeIDs|, network, loader.serviceConfigs.Keys);
    checkers := ids;
    forall s | s in loader.desiredServiceConfig ensures s !in ids {
      UnreservedServiceIsNotBoot(s, |nodeIDs|);
    }
    var started;
    ok, started := StartUserNodes(loader.desiredServiceConfig, |nodeIDs|, ids, network, loader.serviceConfigs.Keys);
    if !ok {
      return;
    }
    CheckerCount(|nodeIDs|, started);
    checkers := checkers + started;
  }

  /** The network the loader leaves behind starts every later run with the invariant in place. */
  lemma {:induction false} InitialNetworkIsSound(loader: Loader, nodeIDs: seq<string>)
    requires loader.Unreserved()
    requires forall s :: s in loader.desiredServiceConfig ==> loader.desiredServiceConfig[s] in loader.serviceConfigs
    ensures RunInv(CapacityOf(Configurations(loader, nodeIDs)), |nodeIDs|, [], InitialServices(loader, |nodeIDs|))
  {
    ConfigurationsArePlanned(loader, nodeIDs);
    forall s | s in loader.desiredServiceConfig ensures s !in BootServiceIDs(|nodeIDs|) {
      UnreservedServiceIsNotBoot(s, |nodeIDs|);
    }
    UserNodesKeepInv(CapacityOf(Configurations(loader, nodeIDs)), loader.serviceConfigs.Keys, |nodeIDs|,
                     loader.desiredServiceConfig);
  }

  lemma {:induction false} UserNodesKeepInv(capacity: Capacity, users: set<ConfigID>, n: nat,
                                            desired: map<ServiceID, ConfigID>)
    requires PlannedCapacity(capacity, users, n)
    requires forall s :: s in desired ==> desired[s] in users && s !in BootServiceIDs(n)
    ensures RunInv(capacity, n, [], BootNodes(n) + UserNodes(desired, desired.Keys, BootServiceIDs(n)))
  {
    var services := BootNodes(n) + UserNodes(desired, desired.Keys, BootServiceIDs(n));
    BootNodesKeys(n);
    BootServiceCount(n);
    BootNodesLayered(n, n);
    BootNodesWithin(capacity, users, n, n);
    forall s, d | s in services && d in services[s].dependencies ensures Rank(d, n) < Rank(s, n) {
      if s in desired {
        var i: nat :| i < n && d == BootServiceID(i);
        RankOfBoot(i, n);
      } else {
        assert services[s] == BootNodes(n)[s];
      }
    }
    forall s | s in services
      ensures services[s].config in capacity && |services[s].dependencies| <= capacity[services[s].config]
      ensures s in BootNodes(n) ==> services[s] == BootNodes(n)[s]
    {
      if s !in desired {
        assert s in BootNodes(n) && services[s] == BootNodes(n)[s];
      }
    }
  }

  lemma {:induction false} BootNodesWithin(capacity: Capacity, users: set<ConfigID>, n: nat, k: nat)
    requires PlannedCapacity(capacity, users, n) && k <= n
    ensures forall s :: s in BootNodes(k) ==>
              BootNodes(k)[s].config in capacity && |BootNodes(k)[s].dependencies| <= capacity[BootNodes(k)[s].config]
  {
    if k > 0 {
      BootNodesWithin(capacity, users, n, k - 1);
      BootServiceCount(k - 1);
      assert BootConfigID(k - 1) in BootConfigIDs(n);
    }
  }

  // ---------- the interface tests use ----------

  /** The wrapper handed to tests: every service it adds depends on all boot nodes. */
  class TestAvalancheNetwork {
    const svcNetwork: ServiceNetwork
    const numStakers: nat

    constructor (svcNetwork: ServiceNetwork, numStakers: nat)
      ensures this.svcNetwork == svcNetwork && this.numStakers == numStakers
    {
      this.svcNetwork, this.numStakers := svcNetwork, numStakers;
    }

    method GetAllBootServiceIDs() returns (ids: set<ServiceID>)
      ensures ids == BootServiceIDs(numStakers)
      ensures forall i: nat :: i < numStakers ==> "boot-node-" + NatText(i) in ids
      ensures |ids| == numStakers
    {
      ids := {};
      for i := 0 to numStakers
        invariant ids == BootServiceIDs(i)
      {
        ids := ids + {BootServiceID(i)};
      }
      BootServiceCount(numStakers);
      BootServiceIDsAre(numStakers);
    }

    method AddService(config: ConfigID, service: ServiceID) returns (ok: bool)
      modifies svcNetwork
      ensures Result(CapacityOf(svcNetwork.configurations), numStakers, old(svcNetwork.services),
                     Add(config, service)) ==
              if ok then Some(svcNetwork.services) else None
      ensures !ok ==> svcNetwork.services == old(svcNetwork.services)
      ensures old(svcNetwork.Recorded()) ==> svcNetwork.Recorded()
    {
      var dependencies := GetAllBootServiceIDs();
      ok := StartService(svcNetwork, config, service, dependencies);
    }

    method RemoveService(service: ServiceID) returns (ok: bool)
      modifies svcNetwork
      ensures Result(CapacityOf(svcNetwork.configurations), numStakers, old(svcNetwork.services), Remove(service)) ==
              if ok then Some(svcNetwork.services) else None
      ensures !ok ==> svcNetwork.services == old(svcNetwork.services)
      ensures old(svcNetwork.Recorded()) ==> svcNetwork.Recorded()
    {
      ok := StopService(svcNetwork, service);
    }
  }

  /** Any sequence of calls on the wrapper performs exactly the planned run. */
  method PerformAll(network: TestAvalancheNetwork, ops: seq<Op>)
    modifies network.svcNetwork
    ensures network.svcNetwork.services ==
            Perform(CapacityOf(network.svcNetwork.configurations), network.numStakers, old(network.svcNetwork.services),
                    ops)
    ensures old(network.svcNetwork.Recorded()) ==> network.svcNetwork.Recorded()
  {
    for i := 0 to |ops|
      invariant network.svcNetwork.services ==
                Perform(CapacityOf(network.svcNetwork.configurations), network.numStakers,
                        old(network.svcNetwork.services), ops[..i])
      invariant old(network.svcNetwork.Recorded()) ==> network.svcNetwork.Recorded()
    {
      assert ops[..i + 1][..i] == ops[..i];
      var ok;
      match ops[i]
      case Add(config, service) =>
        ok := network.AddService(config, service);
      case Remove(service) =>
        ok := network.RemoveService(service);
    }
    assert ops[..|ops|] == ops;
  }

  /** From the loader's initial network, over every run of additions and removals: an addition succeeds
      exactly with a user's configuration and a free ID while no boot node has been removed. */
  lemma {:induction false} EveryRunFromTheLoader(loader: Loader, nodeIDs: seq<string>, ops: seq<Op>, config: ConfigID,
                                                 service: ServiceID)
    requires loader.Unreserved()
    requires forall s :: s in loader.desiredServiceConfig ==> loader.desiredServiceConfig[s] in loader.serviceConfigs
    ensures var n := |nodeIDs|;
            var capacity := CapacityOf(Configurations(loader, nodeIDs));
            var now := Perform(capacity, n, InitialServices(loader, n), ops);
            && (Result(capacity, n, now, Add(config, service)).Some? <==>
                  config in loader.serviceConfigs && service !in now && !RemovesBoot(ops, n))
            && Layered(now, n)
            && (forall s :: s in now ==> now[s].config in capacity && |now[s].dependencies| <= capacity[now[s].config])
            && (!RemovesBoot(ops, n) ==> forall s :: s in now ==> now[s].dependencies <= now.Keys)
  {
    var n := |nodeIDs|;
    var capacity := CapacityOf(Configurations(loader, nodeIDs));
    ConfigurationsArePlanned(loader, nodeIDs);
    InitialNetworkIsSound(loader, nodeIDs);
    RunKeepsInv(capacity, n, InitialServices(loader, n), ops);
    AddSucceedsExactly(capacity, loader.serviceConfigs.Keys, n, InitialServices(loader, n), ops, config, service);
    LayeredDependencies(Perform(capacity, n, InitialServices(loader, n), ops), n);
  }

  /** Each service of the initialized network knows the node IDs of exactly the boot nodes it is started against:
      the nodes before it for a boot node, all of them for a desired service. */
  lemma {:induction false} KnowsItsDependencies(loader: Loader, nodeIDs: seq<string>, service: ServiceID)
    requires loader.Unreserved() && service in InitialServices(loader, |nodeIDs|)
    requires forall s :: s in loader.desiredServiceConfig ==> loader.desiredServiceConfig[s] in loader.serviceConfigs
    ensures var node := InitialServices(loader, |nodeIDs|)[service];
            && node.config in Configurations(loader, nodeIDs)
            && var known := Configurations(loader, nodeIDs)[node.config].core.bootstrapperNodeIDs;
            && |known| <= |nodeIDs|
            && node.dependencies == (set j | 0 <= j < |known| :: BootServiceID(j))
            && forall j :: 0 <= j < |known| ==> known[j] == nodeIDs[j]
  {
    InitialServicesAre(loader, |nodeIDs|);
    if service in loader.desiredServiceConfig {
      RegisteredUser(loader, nodeIDs, loader.desiredServiceConfig[service]);
    } else {
      var i: nat :| i < |nodeIDs| && service == BootServiceID(i);
      RegisteredBootNode(loader, nodeIDs, i);
    }
  }

  /** In a recorded network the command of a service points at the very address and staking port that the command
      of each dependency makes that dependency listen on. */
  lemma {:induction false} CommandsPointAtListeners(network: ServiceNetwork, service: ServiceID, dependency: ServiceID)
    requires network.Recorded() && service in network.services && dependency in network.services
    requires dependency in network.services[service].dependencies
    requires forall s :: s in {service, dependency} && network.services[s].config in network.configurations ==>
               network.Readable(network.configurations[network.services[s].config].core,
                                network.services[s].dependencies)
    ensures service in network.commands && dependency in network.commands
    ensures S.ReadCommand(network.commands[service]).Some? && S.ReadCommand(network.commands[dependency]).Some?
    ensures var listening := S.ReadCommand(network.commands[dependency]).value;
            var starting := S.ReadCommand(network.commands[service]).value;
            S.Socket(listening.publicIP, listening.stakingPort) in starting.bootstrapIPs
  {
    forall s | s in {service, dependency}
      ensures s in network.commands && network.WasStarted(network.services[s], s, network.commands[s])
    {
    }
    var node, other := network.services[service], network.services[dependency];
    network.StartedReadsBack(network.commands[service], network.configurations[node.config].core, service,
                             node.dependencies);
    network.StartedReadsBack(network.commands[dependency], network.configurations[other.config].core, dependency,
                             other.dependencies);
  }
}
