/** The printed start command reads back to the configuration it came from. */
module CommandRoundTrip {
  import opened Options
  import opened DecimalText
  import opened SeparatedText
  import opened StartCommand

  /** A number that tells the flag names apart: length, sixth and twelfth character. */
  function NameCode(s: string): int
    requires 5 < |s|
  {
    |s| * 1_000_000 + s[5] as int * 1000 + (if 11 < |s| then s[11] as int else 0)
  }

  function CodeAt(i: nat): int {
    match i
    case 0 => 9099000
    case 1 => 10114000
    case 2 => 9112000
    case 3 => 9104000
    case 4 => 12110116
    case 5 => 9101000
    case 6 => 16115045
    case 7 => 16113045
    case 8 => 15110098
    case 9 => 6101000
    case 10 => 23114116
    case 11 => 21110045
    case 12 => 20110045
    case 13 => 13116100
    case _ => 13116112
  }

  lemma {:induction false} NameHasCode(i: nat)
    requires i < |FLAG_NAMES|
    ensures 5 < |FLAG_NAMES[i]| && NameCode(FLAG_NAMES[i]) == CodeAt(i)
    ensures '=' !in FLAG_NAMES[i]
  {
  }

  lemma {:induction false} NamesDistinct(i: nat, j: nat)
    requires i < j < |FLAG_NAMES|
    ensures FLAG_NAMES[i] != FLAG_NAMES[j]
  {
    NameHasCode(i);
    NameHasCode(j);
  }

  // ---------- flags ----------

  lemma {:induction false} ReadFlagOf(pair: FlagPair)
    requires '=' !in pair.0
    ensures ReadFlag(Flag(pair)) == Some(pair)
  {
    assert Flag(pair)[..2] == "--";
    assert Flag(pair)[2..] == pair.0 + ['='] + pair.1;
    SplitFirstOfPair(pair.0, '=', pair.1);
  }

  lemma {:induction false} ReadFlagsOf(pairs: seq<FlagPair>)
    requires forall i :: 0 <= i < |pairs| ==> '=' !in pairs[i].0
    ensures ReadFlags(Flags(pairs)) == Some(pairs)
  {
    if pairs != [] {
      ReadFlagOf(pairs[0]);
      ReadFlagsOf(pairs[1..]);
      assert Flags(pairs)[1..] == Flags(pairs[1..]);
      assert [pairs[0]] + pairs[1..] == pairs;
    }
  }

  ghost predicate DistinctNames(pairs: seq<FlagPair>) {
    forall i, j :: 0 <= i < j < |pairs| ==> pairs[i].0 != pairs[j].0
  }

  ghost predicate HasName(pairs: seq<FlagPair>, k: string) {
    exists i :: 0 <= i < |pairs| && pairs[i].0 == k
  }

  lemma {:induction false} ToMapKeys(pairs: seq<FlagPair>, k: string)
    ensures k in ToMap(pairs) <==> HasName(pairs, k)
  {
    if pairs != [] {
      var rest, last := pairs[..|pairs| - 1], pairs[|pairs| - 1];
      ToMapKeys(rest, k);
      assert HasName(pairs, k) <==> HasName(rest, k) || last.0 == k by {
        if HasName(rest, k) {
          var i :| 0 <= i < |rest| && rest[i].0 == k;
          assert pairs[i].0 == k;
        }
        if HasName(pairs, k) {
          var i :| 0 <= i < |pairs| && pairs[i].0 == k;
          if i < |rest| {
            assert rest[i].0 == k;
          }
        }
        if last.0 == k {
          assert pairs[|pairs| - 1].0 == k;
        }
      }
    }
  }

  lemma {:induction false} ToMapValue(pairs: seq<FlagPair>, i: nat)
    requires DistinctNames(pairs) && i < |pairs|
    ensures pairs[i].0 in ToMap(pairs) && ToMap(pairs)[pairs[i].0] == pairs[i].1
  {
    if i < |pairs| - 1 {
      ToMapValue(pairs[..|pairs| - 1], i);
    }
  }

  // ---------- sockets ----------

  /** An address that cannot be confused with the separators around it. */
  predicate PlainSocket(s: Socket) {
    ':' !in s.ip && ',' !in s.ip
  }

  lemma {:induction false} ReadSocketOf(s: Socket)
    requires PlainSocket(s)
    ensures ReadSocket(SocketText(s)) == s
    ensures ',' !in SocketText(s) && SocketText(s) != ""
  {
    assert SocketText(s) == s.ip + [':'] + IntText(s.port);
    SplitFirstOfPair(s.ip, ':', IntText(s.port));
    IntRoundTrip(s.port);
  }

  lemma {:induction false} ReadSocketsOf(sockets: seq<Socket>)
    requires sockets != [] && forall i :: 0 <= i < |sockets| ==> PlainSocket(sockets[i])
    ensures ReadSockets(SplitList(Join(SocketTexts(sockets), ','), ',')) == sockets
  {
    var texts := SocketTexts(sockets);
    forall i | 0 <= i < |texts| ensures ',' !in texts[i] && texts[i] != "" && ReadSocket(texts[i]) == sockets[i] {
      ReadSocketOf(sockets[i]);
    }
    ListRoundTrip(texts, ',');
  }

  // ---------- the whole command ----------

  /** The inputs hold no separator where the format has none to spare, and the extra names are new. */
  ghost predicate Printable(core: Core, dependencies: seq<Socket>) {
    && (forall i :: 0 <= i < |dependencies| ==> PlainSocket(dependencies[i]))
    && (forall i :: 0 <= i < |core.bootstrapperNodeIDs| ==> ',' !in core.bootstrapperNodeIDs[i])
    && core.bootstrapperNodeIDs != [""]
    && (forall k :: k in core.additionalCLIArgs ==> '=' !in k && k !in FlagNames())
  }

  /** The place in `FLAG_NAMES` of the `i`-th flag that precedes the extra arguments. */
  function NameIndex(core: Core, i: nat): nat {
    if i < 11 || core.stakingEnabled then i else 14
  }

  ghost function BasePairs(core: Core, files: map<string, string>, ip: string,
                           dependencies: seq<Socket>): seq<FlagPair> {
    FixedPairs(core, ip)
    + StakingPairs(core, PathOf(files, TLS_CERT_FILE_ID), PathOf(files, TLS_KEY_FILE_ID))
    + DependencyPairs(dependencies)
  }

  lemma {:induction false} BaseName(core: Core, files: map<string, string>, ip: string, dependencies: seq<Socket>,
                                    i: nat)
    requires i < |BasePairs(core, files, ip, dependencies)|
    ensures NameIndex(core, i) < |FLAG_NAMES|
    ensures BasePairs(core, files, ip, dependencies)[i].0 == FLAG_NAMES[NameIndex(core, i)]
  {
  }

  lemma {:induction false} NamesOfCommand(core: Core, files: map<string, string>, ip: string, dependencies: seq<Socket>,
                                          extras: seq<FlagPair>)
    requires Printable(core, dependencies) && Enumerates(extras, core.additionalCLIArgs)
    ensures DistinctNames(AllPairs(core, files, ip, dependencies, extras))
    ensures forall i :: 0 <= i < |AllPairs(core, files, ip, dependencies, extras)| ==>
              '=' !in AllPairs(core, files, ip, dependencies, extras)[i].0
  {
    var base := BasePairs(core, files, ip, dependencies);
    var all := AllPairs(core, files, ip, dependencies, extras);
    assert all == base + extras;
    forall i | 0 <= i < |base| ensures '=' !in base[i].0 && base[i].0 in FlagNames() {
      BaseName(core, files, ip, dependencies, i);
      NameHasCode(NameIndex(core, i));
    }
    forall i, j | 0 <= i < j < |base| ensures base[i].0 != base[j].0 {
      BaseName(core, files, ip, dependencies, i);
      BaseName(core, files, ip, dependencies, j);
      NamesDistinct(NameIndex(core, i), NameIndex(core, j));
    }
  }

  /** Each name of the command is one of the fixed flag names or an extra one. */
  lemma {:induction false} OtherNamesAreExtra(core: Core, files: map<string, string>, ip: string,
                                              dependencies: seq<Socket>, extras: seq<FlagPair>, i: nat)
    requires Enumerates(extras, core.additionalCLIArgs)
    requires i < |AllPairs(core, files, ip, dependencies, extras)|
    ensures var name := AllPairs(core, files, ip, dependencies, extras)[i].0;
            name in FlagNames() || name in core.additionalCLIArgs
  {
    var base := BasePairs(core, files, ip, dependencies);
    var all := AllPairs(core, files, ip, dependencies, extras);
    assert all == base + extras;
    if i < |base| {
      BaseName(core, files, ip, dependencies, i);
      assert FLAG_NAMES[NameIndex(core, i)] in FlagNames();
    } else {
      assert all[i] == extras[i - |base|];
    }
  }

  /** Each extra argument is read back. */
  lemma {:induction false} ExtraValue(core: Core, files: map<string, string>, ip: string, dependencies: seq<Socket>,
                                      extras: seq<FlagPair>, k: string)
    requires Printable(core, dependencies) && Enumerates(extras, core.additionalCLIArgs) && k in core.additionalCLIArgs
    ensures var m := ToMap(AllPairs(core, files, ip, dependencies, extras));
            k in m && m[k] == core.additionalCLIArgs[k]
  {
    var base := BasePairs(core, files, ip, dependencies);
    var all := AllPairs(core, files, ip, dependencies, extras);
    assert all == base + extras;
    NamesOfCommand(core, files, ip, dependencies, extras);
    var i :| 0 <= i < |extras| && extras[i].0 == k;
    assert all[|base| + i] == extras[i];
    ToMapValue(all, |base| + i);
  }

  lemma {:induction false} ExtrasRecovered(core: Core, files: map<string, string>, ip: string,
                                           dependencies: seq<Socket>, extras: seq<FlagPair>)
    requires Printable(core, dependencies) && Enumerates(extras, core.additionalCLIArgs)
    ensures ToMap(AllPairs(core, files, ip, dependencies, extras)) - FlagNames() == core.additionalCLIArgs
  {
    var all := AllPairs(core, files, ip, dependencies, extras);
    var m := ToMap(all);
    forall k | k in m && k !in FlagNames() ensures k in core.additionalCLIArgs {
      ToMapKeys(all, k);
      var i :| 0 <= i < |all| && all[i].0 == k;
      OtherNamesAreExtra(core, files, ip, dependencies, extras, i);
    }
    forall k | k in core.additionalCLIArgs ensures k in m && m[k] == core.additionalCLIArgs[k] && k !in FlagNames() {
      ExtraValue(core, files, ip, dependencies, extras, k);
    }
    assert (m - FlagNames()).Keys == core.additionalCLIArgs.Keys;
  }

  /** A flag name absent from the base is absent from the whole command. */
  lemma {:induction false} AbsentName(core: Core, files: map<string, string>, ip: string, dependencies: seq<Socket>,
                                      extras: seq<FlagPair>, n: nat)
    requires Printable(core, dependencies) && Enumerates(extras, core.additionalCLIArgs) && n < |FLAG_NAMES|
    requires forall i :: 0 <= i < |BasePairs(core, files, ip, dependencies)| ==> NameIndex(core, i) != n
    ensures FLAG_NAMES[n] !in ToMap(AllPairs(core, files, ip, dependencies, extras))
  {
    var base := BasePairs(core, files, ip, dependencies);
    var all := AllPairs(core, files, ip, dependencies, extras);
    assert all == base + extras;
    ToMapKeys(all, FLAG_NAMES[n]);
    forall i | 0 <= i < |all| ensures all[i].0 != FLAG_NAMES[n] {
      if i < |base| {
        BaseName(core, files, ip, dependencies, i);
        var k := NameIndex(core, i);
        if k < n {
          NamesDistinct(k, n);
        } else {
          NamesDistinct(n, k);
        }
      } else {
        assert extras[i - |base|].0 in core.additionalCLIArgs;
        assert FLAG_NAMES[n] in FlagNames();
      }
    }
  }

  /** Flag `i` before the extras reads back as itself. */
  lemma {:induction false} BaseValue(core: Core, files: map<string, string>, ip: string, dependencies: seq<Socket>,
                                     extras: seq<FlagPair>, i: nat)
    requires Printable(core, dependencies) && Enumerates(extras, core.additionalCLIArgs)
    requires i < |BasePairs(core, files, ip, dependencies)|
    ensures var m := ToMap(AllPairs(core, files, ip, dependencies, extras));
            var pair := BasePairs(core, files, ip, dependencies)[i];
            pair.0 in m && m[pair.0] == pair.1
  {
    NamesOfCommand(core, files, ip, dependencies, extras);
    ToMapValue(AllPairs(core, files, ip, dependencies, extras), i);
    assert AllPairs(core, files, ip, dependencies, extras)[i] == BasePairs(core, files, ip, dependencies)[i];
  }

  lemma {:induction false} FixedValues(core: Core, files: map<string, string>, ip: string, dependencies: seq<Socket>,
                                       extras: seq<FlagPair>)
    requires Printable(core, dependencies) && Enumerates(extras, core.additionalCLIArgs)
    ensures var m := ToMap(AllPairs(core, files, ip, dependencies, extras));
            && Get(m, "public-ip") == ip
            && Get(m, "network-id") == "local"
            && Get(m, "http-port") == HTTP_PORT
            && Get(m, "http-host") == ""
            && Get(m, "staking-port") == STAKING_PORT
            && Get(m, "log-level") == core.logLevel
            && Get(m, "snow-sample-size") == IntText(core.snowSampleSize)
            && Get(m, "snow-quorum-size") == IntText(core.snowQuorumSize)
            && Get(m, "staking-enabled") == BoolText(core.stakingEnabled)
            && Get(m, "tx-fee") == NatText(core.txFee)
            && Get(m, "network-initial-timeout") == core.networkInitialTimeout
  {
    forall i | 0 <= i < 11
      ensures var m := ToMap(AllPairs(core, files, ip, dependencies, extras));
              var pair := FixedPairs(core, ip)[i];
              pair.0 in m && m[pair.0] == pair.1
    {
      BaseValue(core, files, ip, dependencies, extras, i);
      assert BasePairs(core, files, ip, dependencies)[i] == FixedPairs(core, ip)[i];
    }
    var fixed := FixedPairs(core, ip);
    assert fixed[0].0 == "public-ip" && fixed[1].0 == "network-id" && fixed[2].0 == "http-port"
      && fixed[3].0 == "http-host";
    assert fixed[4].0 == "staking-port" && fixed[5].0 == "log-level" && fixed[6].0 == "snow-sample-size"
      && fixed[7].0 == "snow-quorum-size";
    assert fixed[8].0 == "staking-enabled" && fixed[9].0 == "tx-fee" && fixed[10].0 == "network-initial-timeout";
  }

  lemma {:induction false} StakingValues(core: Core, files: map<string, string>, ip: string, dependencies: seq<Socket>,
                                         extras: seq<FlagPair>)
    requires Printable(core, dependencies) && Enumerates(extras, core.additionalCLIArgs)
    ensures var m := ToMap(AllPairs(core, files, ip, dependencies, extras));
            && GetOption(m, "staking-tls-cert-file") ==
              (if core.stakingEnabled then Some(PathOf(files, TLS_CERT_FILE_ID)) else None)
            && GetOption(m, "staking-tls-key-file") ==
              (if core.stakingEnabled then Some(PathOf(files, TLS_KEY_FILE_ID)) else None)
            && GetOption(m, "bootstrap-ids") ==
              (if core.stakingEnabled then Some(Join(core.bootstrapperNodeIDs, ',')) else None)
  {
    var base := BasePairs(core, files, ip, dependencies);
    if core.stakingEnabled {
      BaseValue(core, files, ip, dependencies, extras, 11);
      BaseValue(core, files, ip, dependencies, extras, 12);
      BaseValue(core, files, ip, dependencies, extras, 13);
      assert base[11].0 == "staking-tls-cert-file" && base[12].0 == "staking-tls-key-file"
        && base[13].0 == "bootstrap-ids";
    } else {
      AbsentName(core, files, ip, dependencies, extras, 11);
      AbsentName(core, files, ip, dependencies, extras, 12);
      AbsentName(core, files, ip, dependencies, extras, 13);
    }
  }

  lemma {:induction false} DependencyValue(core: Core, files: map<string, string>, ip: string,
                                           dependencies: seq<Socket>, extras: seq<FlagPair>)
    requires Printable(core, dependencies) && Enumerates(extras, core.additionalCLIArgs)
    ensures var m := ToMap(AllPairs(core, files, ip, dependencies, extras));
            ReadSockets(SplitList(Get(m, "bootstrap-ips"), ',')) == dependencies
  {
    var base := BasePairs(core, files, ip, dependencies);
    if dependencies == [] {
      AbsentName(core, files, ip, dependencies, extras, 14);
    } else {
      BaseValue(core, files, ip, dependencies, extras, |base| - 1);
      assert base[|base| - 1].0 == "bootstrap-ips";
      ReadSocketsOf(dependencies);
    }
  }

  /** Whatever order the extra arguments were printed in, the command reads back to the configured core, its
      files, its boot node IDs and its dependencies' sockets in order. */
  lemma {:induction false} CommandReadsBack(core: Core, files: map<string, string>, ip: string,
                                            dependencies: seq<Socket>, extras: seq<FlagPair>)
    requires Printable(core, dependencies) && Enumerates(extras, core.additionalCLIArgs)
    ensures ReadCommand([AVALANCHE_BINARY] + Flags(AllPairs(core, files, ip, dependencies, extras))) ==
            Some(Intended(core, files, ip, dependencies))
  {
    var pairs := AllPairs(core, files, ip, dependencies, extras);
    var command := [AVALANCHE_BINARY] + Flags(pairs);
    NamesOfCommand(core, files, ip, dependencies, extras);
    assert command[1..] == Flags(pairs);
    ReadFlagsOf(pairs);
    FixedValues(core, files, ip, dependencies, extras);
    StakingValues(core, files, ip, dependencies, extras);
    DependencyValue(core, files, ip, dependencies, extras);
    ExtrasRecovered(core, files, ip, dependencies, extras);
    NumbersReadBack(core);
    ListRoundTrip(core.bootstrapperNodeIDs, ',');
  }

  lemma {:induction false} NumbersReadBack(core: Core)
    ensures IntValue(IntText(core.snowSampleSize)) == core.snowSampleSize
    ensures IntValue(IntText(core.snowQuorumSize)) == core.snowQuorumSize
    ensures IntValue(NatText(core.txFee)) == core.txFee
    ensures IntValue(HTTP_PORT) == 9650 && IntValue(STAKING_PORT) == 9651
    ensures BoolText(core.stakingEnabled) == "true" <==> core.stakingEnabled
  {
    IntRoundTrip(core.snowSampleSize);
    IntRoundTrip(core.snowQuorumSize);
    IntRoundTrip(core.txFee);
    PortTexts();
    IntRoundTrip(9650);
    IntRoundTrip(9651);
  }

  lemma {:induction false} PortTexts()
    ensures IntText(9650) == HTTP_PORT && IntText(9651) == STAKING_PORT
  {
    assert NatText(9) == "9";
    assert NatText(96) == "96";
    assert NatText(965) == "965";
  }

  /** Every command that can be printed for a core reads back to it, so the order in which the extra arguments
      were visited does not matter. */
  lemma {:induction false} PrintedCommandReadsBack(command: seq<string>, core: Core, files: map<string, string>,
                                                   ip: string, dependencies: seq<Socket>)
    requires Printable(core, dependencies) && Prints(command, core, files, ip, dependencies)
    ensures ReadCommand(command) == Some(Intended(core, files, ip, dependencies))
  {
    var extras :| Enumerates(extras, core.additionalCLIArgs)
               && command == [AVALANCHE_BINARY] + Flags(AllPairs(core, files, ip, dependencies, extras));
    CommandReadsBack(core, files, ip, dependencies, extras);
  }
}
