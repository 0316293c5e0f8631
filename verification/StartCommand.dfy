/** The command line a node is started with, and how it reads back. */
module StartCommand {
  import opened MachineInts
  import opened Options
  import opened DecimalText
  import opened SeparatedText

  const HTTP_PORT := "9650"
  const STAKING_PORT := "9651"
  const TLS_CERT_FILE_ID := "staking-tls-cert"
  const TLS_KEY_FILE_ID := "staking-tls-key"
  const AVALANCHE_BINARY := "/avalanchego/build/avalanchego"

  /** The settings a core is created with. The timeout is kept as its printed text. */
  datatype Core = Core(snowSampleSize: int, snowQuorumSize: int, txFee: uint64, stakingEnabled: bool,
                       networkInitialTimeout: string, additionalCLIArgs: map<string, string>,
                       bootstrapperNodeIDs: seq<string>, logLevel: string)

  datatype Socket = Socket(ip: string, port: int)

  type FlagPair = (string, string)

  datatype StartError = TooManyDependencies(dependencies: nat, bootNodeIDs: nat) | MissingFile(fileID: string)

  datatype StartResult = Started(command: seq<string>) | StartFailed(error: StartError)

  /** Which files a core asks to have mounted. */
  function FilesToMount(core: Core): set<string> {
    if core.stakingEnabled then {TLS_CERT_FILE_ID, TLS_KEY_FILE_ID} else {}
  }

  method NewCore(snowSampleSize: int, snowQuorumSize: int, txFee: uint64, stakingEnabled: bool,
                 networkInitialTimeout: string, additionalCLIArgs: map<string, string>,
                 bootstrapperNodeIDs: seq<string>, logLevel: string)
                   returns (core: Core)
    ensures core == Core(snowSampleSize, snowQuorumSize, txFee, stakingEnabled, networkInitialTimeout,
                         additionalCLIArgs, bootstrapperNodeIDs, logLevel)
  {
    var copy: seq<string> := [];
    for i := 0 to |bootstrapperNodeIDs|
      invariant copy == bootstrapperNodeIDs[..i]
    {
      copy := copy + [bootstrapperNodeIDs[i]];
    }
    core := Core(snowSampleSize, snowQuorumSize, txFee, stakingEnabled, networkInitialTimeout, additionalCLIArgs, copy,
                 logLevel);
  }

  // ---------- printing ----------

  function Flag(pair: FlagPair): string {
    "--" + pair.0 + "=" + pair.1
  }

  function Flags(pairs: seq<FlagPair>): (texts: seq<string>)
    ensures |texts| == |pairs|
  {
    seq(|pairs|, i requires 0 <= i < |pairs| => Flag(pairs[i]))
  }

  function SocketText(s: Socket): string {
    s.ip + ":" + IntText(s.port)
  }

  function SocketTexts(sockets: seq<Socket>): (texts: seq<string>)
    ensures |texts| == |sockets|
  {
    seq(|sockets|, i requires 0 <= i < |sockets| => SocketText(sockets[i]))
  }

  function BoolText(b: bool): string {
    if b then "true" else "false"
  }

  function FixedPairs(core: Core, ip: string): seq<FlagPair> {
    [("public-ip", ip),
     ("network-id", "local"),
     ("http-port", HTTP_PORT),
     ("http-host", ""),
     ("staking-port", STAKING_PORT),
     ("log-level", core.logLevel),
     ("snow-sample-size", IntText(core.snowSampleSize)),
     ("snow-quorum-size", IntText(core.snowQuorumSize)),
     ("staking-enabled", BoolText(core.stakingEnabled)),
     ("tx-fee", NatText(core.txFee)),
     ("network-initial-timeout", core.networkInitialTimeout)]
  }

  function StakingPairs(core: Core, certPath: string, keyPath: string): seq<FlagPair> {
    if core.stakingEnabled then
      [("staking-tls-cert-file", certPath),
       ("staking-tls-key-file", keyPath),
       ("bootstrap-ids", Join(core.bootstrapperNodeIDs, ','))]
    else []
  }

  function DependencyPairs(dependencies: seq<Socket>): seq<FlagPair> {
    if dependencies == [] then [] else [("bootstrap-ips", Join(SocketTexts(dependencies), ','))]
  }

  function PathOf(files: map<string, string>, id: string): string {
    if id in files then files[id] else ""
  }

  /** All flags of the command, with the extra arguments in the order `extras`. */
  function AllPairs(core: Core, files: map<string, string>, ip: string, dependencies: seq<Socket>,
                    extras: seq<FlagPair>): seq<FlagPair> {
    FixedPairs(core, ip)
    + StakingPairs(core, PathOf(files, TLS_CERT_FILE_ID), PathOf(files, TLS_KEY_FILE_ID))
    + DependencyPairs(dependencies)
    + extras
  }

  /** `extras` lists the entries of `m`, each once, in some order. */
  ghost predicate Enumerates(extras: seq<FlagPair>, m: map<string, string>) {
    && (forall i, j :: 0 <= i < j < |extras| ==> extras[i].0 != extras[j].0)
    && (forall i :: 0 <= i < |extras| ==> extras[i].0 in m && m[extras[i].0] == extras[i].1)
    && (forall k :: k in m ==> exists i :: 0 <= i < |extras| && extras[i].0 == k)
  }

  lemma {:induction false} FlagsConcat(a: seq<FlagPair>, b: seq<FlagPair>)
    ensures Flags(a + b) == Flags(a) + Flags(b)
  {
  }

  /** Appends the extra arguments in an order of its own choosing. */
  method AppendExtras(commandList: seq<string>, args: map<string, string>) returns (result: seq<string>)
    ensures exists extras :: Enumerates(extras, args) && result == commandList + Flags(extras)
  {
    result := commandList;
    ghost var extras: seq<FlagPair> := [];
    var todo := args.Keys;
    while todo != {}
      invariant todo <= args.Keys
      invariant result == commandList + Flags(extras)
      invariant forall i, j :: 0 <= i < j < |extras| ==> extras[i].0 != extras[j].0
      invariant forall i :: 0 <= i < |extras| ==>
                  extras[i].0 in args && args[extras[i].0] == extras[i].1 && extras[i].0 !in todo
      invariant forall k :: k in args && k !in todo ==> exists i :: 0 <= i < |extras| && extras[i].0 == k
    {
      var param :| param in todo;
      result := result + [Flag((param, args[param]))];
      ghost var was := extras;
      extras := extras + [(param, args[param])];
      todo := todo - {param};
      assert Flags(extras) == Flags(was) + [Flag((param, args[param]))];
      forall k | k in args && k !in todo ensures exists i :: 0 <= i < |extras| && extras[i].0 == k {
        if k == param {
          assert extras[|was|].0 == k;
        } else {
          var i :| 0 <= i < |was| && was[i].0 == k;
          assert extras[i].0 == k;
        }
      }
    }
  }

  method SocketList(dependencies: seq<Socket>) returns (texts: seq<string>)
    ensures texts == SocketTexts(dependencies)
  {
    texts := [];
    for i := 0 to |dependencies|
      invariant texts == SocketTexts(dependencies[..i])
    {
      texts := texts + [dependencies[i].ip + ":" + IntText(dependencies[i].port)];
      assert dependencies[..i + 1] == dependencies[..i] + [dependencies[i]];
    }
    assert dependencies[..|dependencies|] == dependencies;
  }

  /** The staking flags, which need both mounted files. */
  method AppendStaking(commandList: seq<string>, core: Core, files: map<string, string>)
    returns (missing: Option<string>, result: seq<string>)
    ensures missing.None? <==> FilesToMount(core) <= files.Keys
    ensures missing.Some? ==> missing.value == if TLS_CERT_FILE_ID !in files then TLS_CERT_FILE_ID else TLS_KEY_FILE_ID
    ensures missing.None? ==>
              result ==
                commandList + Flags(StakingPairs(core, PathOf(files, TLS_CERT_FILE_ID), PathOf(files, TLS_KEY_FILE_ID)))
  {
    result := commandList;
    if core.stakingEnabled {
      if TLS_CERT_FILE_ID !in files {
        return Some(TLS_CERT_FILE_ID), result;
      }
      if TLS_KEY_FILE_ID !in files {
        return Some(TLS_KEY_FILE_ID), result;
      }
      result := result + [Flag(("staking-tls-cert-file", files[TLS_CERT_FILE_ID]))];
      result := result + [Flag(("staking-tls-key-file", files[TLS_KEY_FILE_ID]))];
      result := result + [Flag(("bootstrap-ids", Join(core.bootstrapperNodeIDs, ',')))];
    }
    missing := None;
  }

  method AppendDependencies(commandList: seq<string>, dependencies: seq<Socket>) returns (result: seq<string>)
    ensures result == commandList + Flags(DependencyPairs(dependencies))
  {
    result := commandList;
    if |dependencies| > 0 {
      var socketStrs := SocketList(dependencies);
      result := result + [Flag(("bootstrap-ips", Join(socketStrs, ',')))];
    }
  }

  lemma {:induction false} FourParts(first: string, a: seq<FlagPair>, b: seq<FlagPair>, c: seq<FlagPair>,
                                     d: seq<FlagPair>)
    ensures [first] + Flags(a) + Flags(b) + Flags(c) + Flags(d) == [first] + Flags(a + b + c + d)
  {
    FlagsConcat(a, b);
    FlagsConcat(a + b, c);
    FlagsConcat(a + b + c, d);
  }

  /** `command` has all flags of the core, with the extra arguments in some order. */
  ghost predicate Prints(command: seq<string>, core: Core, files: map<string, string>, ip: string,
                         dependencies: seq<Socket>) {
    exists extras ::
      && Enumerates(extras, core.additionalCLIArgs)
      && command == [AVALANCHE_BINARY] + Flags(AllPairs(core, files, ip, dependencies, extras))
  }

  method GetStartCommand(core: Core, files: map<string, string>, ip: string, dependencies: seq<Socket>)
    returns (r: StartResult)
    ensures r.StartFailed? && r.error.TooManyDependencies? <==> |dependencies| > |core.bootstrapperNodeIDs|
    ensures r.StartFailed? && r.error.TooManyDependencies? ==>
              r.error == TooManyDependencies(|dependencies|, |core.bootstrapperNodeIDs|)
    ensures r.StartFailed? && r.error.MissingFile? <==>
              |dependencies| <= |core.bootstrapperNodeIDs| && !(FilesToMount(core) <= files.Keys)
    ensures r.StartFailed? && r.error.MissingFile? ==>
              r.error.fileID == if TLS_CERT_FILE_ID !in files then TLS_CERT_FILE_ID else TLS_KEY_FILE_ID
    ensures r.Started? ==> Prints(r.command, core, files, ip, dependencies)
    ensures r.Started? ==> r.command[0] == "/avalanchego/build/avalanchego"
  {
    if |dependencies| > |core.bootstrapperNodeIDs| {
      r := StartFailed(TooManyDependencies(|dependencies|, |core.bootstrapperNodeIDs|));
      return;
    }
    var commandList := [AVALANCHE_BINARY] + Flags(FixedPairs(core, ip));
    var missing;
    missing, commandList := AppendStaking(commandList, core, files);
    if missing.Some? {
      r := StartFailed(MissingFile(missing.value));
      return;
    }
    commandList := AppendDependencies(commandList, dependencies);
    ghost var before := commandList;
    commandList := AppendExtras(commandList, core.additionalCLIArgs);
    ghost var extras :| Enumerates(extras, core.additionalCLIArgs) && commandList == before + Flags(extras);
    FourParts(AVALANCHE_BINARY, FixedPairs(core, ip),
              StakingPairs(core, PathOf(files, TLS_CERT_FILE_ID), PathOf(files, TLS_KEY_FILE_ID)),
              DependencyPairs(dependencies), extras);
    r := Started(commandList);
  }

  // ---------- reading back ----------

  /** What a command line says, as a specification of the node's own reading of it. */
  datatype Settings = Settings(publicIP: string, networkID: string, httpPort: int, httpHost: string, stakingPort: int,
                               logLevel: string, snowSampleSize: int, snowQuorumSize: int, stakingEnabled: bool,
                               txFee: int, networkInitialTimeout: string, certFile: Option<string>,
                               keyFile: Option<string>, bootstrapIDs: Option<seq<string>>, bootstrapIPs: seq<Socket>,
                               extra: map<string, string>)

  function ReadFlag(text: string): Option<FlagPair> {
    if |text| < 2 || text[..2] != "--" then None else SplitFirst(text[2..], '=')
  }

  /** All flags in order, `None` if one is not of the form `--name=value`. */
  function ReadFlags(texts: seq<string>): Option<seq<FlagPair>> {
    if texts == [] then Some([])
    else
      match (ReadFlag(texts[0]), ReadFlags(texts[1..]))
      case (Some(pair), Some(rest)) => Some([pair] + rest)
      case _ => None
  }

  /** A repeated flag takes its last value. */
  function ToMap(pairs: seq<FlagPair>): map<string, string> {
    if pairs == [] then map[] else ToMap(pairs[..|pairs| - 1])[pairs[|pairs| - 1].0 := pairs[|pairs| - 1].1]
  }

  const FLAG_NAMES: seq<string> :=
    ["public-ip", "network-id", "http-port", "http-host", "staking-port", "log-level", "snow-sample-size",
     "snow-quorum-size", "staking-enabled", "tx-fee", "network-initial-timeout", "staking-tls-cert-file",
     "staking-tls-key-file", "bootstrap-ids", "bootstrap-ips"]

  function FlagNames(): set<string> {
    set i | 0 <= i < |FLAG_NAMES| :: FLAG_NAMES[i]
  }

  function ReadSocket(text: string): Socket {
    match SplitFirst(text, ':')
    case None => Socket(text, 0)
    case Some(parts) => Socket(parts.0, IntValue(parts.1))
  }

  function ReadSockets(texts: seq<string>): seq<Socket> {
    seq(|texts|, i requires 0 <= i < |texts| => ReadSocket(texts[i]))
  }

  function Get(m: map<string, string>, k: string): string {
    if k in m then m[k] else ""
  }

  function GetOption(m: map<string, string>, k: string): Option<string> {
    if k in m then Some(m[k]) else None
  }

  function Interpret(m: map<string, string>): Settings {
    Settings(Get(m, "public-ip"), Get(m, "network-id"), IntValue(Get(m, "http-port")), Get(m, "http-host"),
             IntValue(Get(m, "staking-port")),
             Get(m, "log-level"), IntValue(Get(m, "snow-sample-size")), IntValue(Get(m, "snow-quorum-size")),
             Get(m, "staking-enabled") == "true", IntValue(Get(m, "tx-fee")), Get(m, "network-initial-timeout"),
             GetOption(m, "staking-tls-cert-file"), GetOption(m, "staking-tls-key-file"),
             if "bootstrap-ids" in m then Some(SplitList(m["bootstrap-ids"], ',')) else None,
             ReadSockets(SplitList(Get(m, "bootstrap-ips"), ',')),
             m - FlagNames())
  }

  function ReadCommand(command: seq<string>): Option<Settings> {
    if command == [] || command[0] != AVALANCHE_BINARY then None
    else
      match ReadFlags(command[1..])
      case None => None
      case Some(pairs) => Some(Interpret(ToMap(pairs)))
  }

  /** The settings a core, its files and its dependencies stand for. */
  function Intended(core: Core, files: map<string, string>, ip: string, dependencies: seq<Socket>): Settings {
    Settings(ip, "local", 9650, "", 9651, core.logLevel, core.snowSampleSize, core.snowQuorumSize, core.stakingEnabled,
             core.txFee,
             core.networkInitialTimeout,
             if core.stakingEnabled then Some(PathOf(files, TLS_CERT_FILE_ID)) else None,
             if core.stakingEnabled then Some(PathOf(files, TLS_KEY_FILE_ID)) else None,
             if core.stakingEnabled then Some(core.bootstrapperNodeIDs) else None,
             dependencies,
             core.additionalCLIArgs)
  }
}
