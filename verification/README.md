# Avalanche test suite: verified model

A Dafny model of the end-to-end test suite for Avalanche networks, with proofs of what its generators,
verifiers, planners, workflows and waits do. RPC calls become steps on small ledgers, sets and clocks; code
that changes things step by step is a method over the same variables, proved against a specification.

`dafny verify dfyconfig.toml` checks everything.

## Areas

- **X-Chain bombard** (`UtxoLedger`, `ConsecutiveTxs`, `Schedules`, `Interleavings`, `BombardExecutor`).
  A UTXO names the transaction that made it, as a nested value, so IDs are injective and acyclic by
  construction. The generator's machine amounts are related to unbounded ones. For k chains every interleaving
  is accepted exactly when each chain is affordable, all interleavings end in the same ledger, and one chain
  admits one order only.
- **C-Chain throughput** (`EthLedger`, `NonceChains`, `CChainFunding`, `ThroughputJoin`). Accounts with nonces
  under the validity rules of section 6 of the Ethereum Yellow Paper; the funding loop; and the goroutines with
  their buffered channel as a state machine. Sends never block, runs are bounded and never deadlock, and a
  maximal run joins exactly when every list is paid for.
- **Connectivity** (`PeerVerifier`, `PeerGraph`, `ConnectedTest`, `DuplicateTest`). The count and membership
  loop decide set equality by counting; a passing network is the staker graph; what the weaker at-least mode
  guarantees is an exact bound.
- **Network planning** (`DecimalText`, `NetworkPlan`, `NetworkLoader`). Which IDs can collide, which starts
  succeed and which dependencies are alive, over every run of additions and removals.
- **Start command** (`SeparatedText`, `StartCommand`, `CommandRoundTrip`). Reading the printed command gives
  back the configuration.
- **Cross-chain workflows** (`AtomicWorkflow`, `StakingWorkflow`). Conservation at every step for all amounts,
  and the exact conditions under which the tests' own balance checks pass.
- **Waiting and staking windows** (`Polling`, `StakingWindows`). Polling against a clock, batches of waits, and
  windows in truncated seconds.

`MachineInts`, `Options`, `MapSums` and `IndexedSums` hold `uint64` arithmetic, options and finite sums.

Iterating over a Go map is an arbitrary pick from a set, so what is proved holds for every iteration order.

## Where code and documentation differ

The model follows the code.

- The generator's guard multiplies in `uint64` and can wrap (`testsuite/tests/bombard/tx_helper.go:90`).
  `GuardIsExact` gives the exact condition and `WrappedGuardLetsUnpayableListsThrough` an input. The seed amount
  wraps too; `SeededRunPassesExactly` says for which numTxs and txFee the run still passes.
- The connectivity check is stricter than its documentation: a non-staker may list stakers only
  (`testsuite/verifier/network_state_verifier.go:15-18` and `:43-48`; `CheckAgainstDocumentation`, with a
  failing network in `StricterThanDocumented`).
- The duplicate-node-ID test says that original nodes should see the boot and vanilla nodes
  (`testsuite/tests/duplicate/duplicate_node_id.go:129`), but a boot node that has lost one can pass
  (`BootNodeMayMissAnOriginal`; the exact bound is `BootNodeBound`).
- The atomic workflow's final X-Chain expectation omits the AVAX that came back
  (`testsuite/tests/cchain/atomic_workflow.go:206`), so the run can pass only when nothing was exported.
- The staking workflow moves the staker's remainder out of the delegator's account
  (`testsuite/tests/workflow/executor.go:166`), so it passes only when stake and delegation are equal.
- `SendAVAXBackAndForth` sends one time less than its comment says (`testsuite/helpers/rpc_workflow_runner.go:233-237`).

## Assumptions

- Ledgers accept by the rules written in `UtxoLedger.Accepts`, `EthLedger.Accepts`, `AtomicWorkflow.Do` and
  `StakingWorkflow.Do`; the least output a UTXO may hold is a parameter. X-Chain transactions of the atomic
  workflow cost the fee and its C-Chain transactions nothing; the staking workflow's network has a zero fee.
- The service network refuses unknown configurations, used service IDs and dependencies that are not running,
  and gives each service an address; the Kurtosis library itself is not part of this model.
- Polling: the sleep after a pending answer takes at least one second; nothing else has to take time. In the
  batch waits an accepted or committed transaction stays so.
- What nodes answer (balances, UTXOs, peers, node IDs, statuses, receipts) is a parameter, and so is whether
  starting, reaching, promoting and removing nodes works in the two connectivity tests.

## Model

| member | source | states |
|---|---|---|
| UtxoLedger.AcceptedOutputIsFresh | testsuite/tests/bombard/tx_helper.go:68-84 | an accepted transaction's output never overwrites a live UTXO, because a UTXO names the transaction that made it |
| UtxoLedger.RunKeepsAntichain | testsuite/tests/bombard/tx_helper.go:68-84 | in every accepted run no live UTXO descends from another live one |
| UtxoLedger.AncestorsAreComparable | testsuite/tests/bombard/tx_helper.go:68-84 | with one input per transaction the ancestors of a UTXO form a single line |
| UtxoLedger.NoDoubleSpend | testsuite/tests/bombard/tx_helper.go:68-84 | in an accepted run of any transactions no UTXO is spent twice |
| UtxoLedger.RunConserves | testsuite/tests/bombard/tx_helper.go:46-84 | what an accepted run removes from circulation is exactly the sum its transactions burn, at least one fee each |
| ConsecutiveTxs.CreateSingleUTXOTx | testsuite/tests/bombard/tx_helper.go:46-85 | the transaction has one output, of the given amount, to the given address, whose ID descends from the spent UTXO |
| ConsecutiveTxs.GenerateChain | testsuite/tests/bombard/tx_helper.go:98-116 | the loop fills both arrays: the transactions are the specified chain and every ID is that of its transaction |
| ConsecutiveTxs.CreateConsecutiveTransactions | testsuite/tests/bombard/tx_helper.go:87-117 | fails exactly when the wrapped guard fails, otherwise returns the chain and its IDs in order |
| ConsecutiveTxs.ChainNth | testsuite/tests/bombard/tx_helper.go:104-114 | transaction i spends tip i, carries the amounts less i and i+1 fees truncated to 64 bits, and its only output is tip i+1 |
| ConsecutiveTxs.LaterTipDescends | testsuite/tests/bombard/tx_helper.go:104-114 | every later UTXO of a chain has every earlier one as an ancestor |
| ConsecutiveTxs.GuardIsExact | testsuite/tests/bombard/tx_helper.go:90-92 | the wrapped guard agrees with the unbounded comparison exactly when the product fits 64 bits or wraps to more than the amount |
| ConsecutiveTxs.EmittedAmountsAreExact | testsuite/tests/bombard/tx_helper.go:102-114 | when the fees fit the amount, every emitted input and output amount is its unbounded value, one fee apart |
| ConsecutiveTxs.OnlyTheUnusedAmountWraps | testsuite/tests/bombard/tx_helper.go:102-114 | the loop's last value of `outputAmount` wraps exactly when less than one fee would be left; then no transaction has that value as its output amount |
| Schedules.EveryInterleavingIsAMerge | testsuite/tests/bombard/bombard_executor.go:151-165 | any sequence that takes a prefix of each list in that list's own order is the merge along a valid schedule |
| Schedules.MergeProjects | testsuite/tests/bombard/bombard_executor.go:151-165 | a merge keeps each list's own order |
| Schedules.SequentialIsSchedule | testsuite/tests/bombard/bombard_executor.go:161-164 | issuing the lists one after another is one of the schedules |
| Interleavings.ScheduleTheorem | testsuite/tests/bombard/bombard_executor.go:121-165 | for every schedule of k chains: the ledger takes all of it exactly when every chain can afford its share, and then each starting UTXO is replaced by its chain's tip |
| Interleavings.Confluence | testsuite/tests/bombard/bombard_executor.go:121-165 | all complete interleavings agree with issuing the lists one after another, on acceptance and on the final ledger; accepted exactly when every chain is affordable |
| Interleavings.AfterAll | testsuite/tests/bombard/bombard_executor.go:121-165 | after a complete accepted schedule the live UTXOs are the old ones with each root replaced by its chain's last UTXO, worth the amount less all fees |
| Interleavings.PrefixOfOneChain | testsuite/tests/bombard/tx_helper.go:89-116 | the first k transactions are accepted exactly when k fees and the least legal output fit the amount, and leave one UTXO worth amount − k·fee in place of the start |
| Interleavings.PrefixBurnsFees | testsuite/tests/bombard/tx_helper.go:89-116 | an accepted prefix burns exactly k fees |
| Interleavings.WrappedGuardLetsUnpayableListsThrough | testsuite/tests/bombard/tx_helper.go:90-92 | a concrete input, 2^32 transactions at fee 2^32, passes the guard although no ledger can take the list |
| Interleavings.OnlyGeneratedOrderIsAccepted | testsuite/tests/bombard/tx_helper.go:104-114 | any drawing of a chain's transactions, with repetitions or omissions, is accepted exactly when it is an affordable prefix in generated order |
| Interleavings.UniqueOrder | testsuite/tests/bombard/tx_helper.go:104-114 | among all permutations of an affordable chain only the generated order is accepted |
| BombardExecutor.CollectUtxos | testsuite/tests/bombard/bombard_executor.go:93-114 | stops at a client whose balance is not the seed amount; otherwise keeps every client's UTXOs in order |
| BombardExecutor.GenerateLists | testsuite/tests/bombard/bombard_executor.go:117-149 | succeeds exactly when every client has a UTXO and the guard passes; the lists are the chains of the first UTXOs |
| BombardExecutor.IssueTxList | testsuite/helpers/rpc_workflow_runner.go:323-336 | issues in order, stops at the first refusal, keeps what was issued, and fails exactly when the ledger refuses the list |
| BombardExecutor.IssueAll | testsuite/tests/bombard/bombard_executor.go:151-165 | all lists are taken exactly when their concatenation is, and then the wait group is empty; a refusal names the list and keeps everything issued before it |
| BombardExecutor.ExecuteTest | testsuite/tests/bombard/bombard_executor.go:44-178 | for seeded addresses the run passes exactly when there are no clients, or no transactions, or (numTxs+1)·txFee fits 64 bits and the fee makes a legal output; in general the condition in terms of what the nodes and the ledger answer, and the ledger it leaves |
| BombardExecutor.SeedIsExact | testsuite/tests/bombard/bombard_executor.go:82-83 | the seed amount is (numTxs+1)·txFee exactly when that fits 64 bits, and then it passes the generator's guard |
| BombardExecutor.SeedCovers | testsuite/tests/bombard/bombard_executor.go:82-83 | the machine's seed pays for all fees and a legal last output exactly when there are no transactions, or (numTxs+1)·txFee fits 64 bits and the fee is a legal output: any overflow makes it too small |
| BombardExecutor.OutputsAreAtLeastOneFee | testsuite/tests/bombard/bombard_executor.go:82-143 | without overflow every emitted output holds at least one fee |
| BombardExecutor.SeededRunPassesExactly | testsuite/tests/bombard/bombard_executor.go:82-165 | the seeded lists are taken in full under exactly that condition on numTxs and txFee, and the guard then passes |
| BombardExecutor.BombardLeavesOneFeeEach | testsuite/tests/bombard/bombard_executor.go:82-165 | every complete interleaving of seeded lists agrees with issuing them in order; they are accepted exactly when the seed suffices, and then each address is left with one UTXO worth exactly one fee, as the comment at line 95 says |
| EthLedger.RunConserves | testsuite/tests/cchain/helpers.go:68-91 | any accepted run moves value between accounts and fees without creating or losing any |
| NonceChains.CreateConsecutiveBasicEthTransactions | testsuite/tests/cchain/helpers.go:67-81 | list element i is the 1 wei transfer with nonce i + start modulo 2^64, filled in place |
| NonceChains.IssueTxList | testsuite/tests/cchain/helpers.go:83-91 | sends in order and stops at the first refused transaction, which the resulting state indeed refuses |
| NonceChains.ConfirmTxList | testsuite/tests/cchain/helpers.go:93-103 | succeeds exactly when every transaction has a receipt |
| NonceChains.ScheduleTheorem | testsuite/tests/cchain/bombard.go:62-79 | for every schedule of self-sending accounts: all of it is taken exactly when every account can pay for its share; then each nonce has advanced by that share and each balance fallen by that many transfers |
| NonceChains.Confluence | testsuite/tests/cchain/bombard.go:62-79 | all complete schedules agree on acceptance and on the final state |
| NonceChains.FundingSuffices | testsuite/tests/cchain/helpers.go:29-30 | an account with the test's funding can pay for a list from nonce 0 exactly up to 1013171225 transactions |
| CChainFunding.FundCChainAddresses | testsuite/helpers/rpc_workflow_runner.go:448-493 | the loop funds every address in turn, or stops at the first that cannot be paid and keeps what was funded |
| CChainFunding.FundingCost | testsuite/helpers/rpc_workflow_runner.go:470-490 | funding k addresses succeeds exactly when the X-Chain balance covers k amounts and k fees, which are then gone from it, with nothing left in flight |
| CChainFunding.FundingMeaning | testsuite/helpers/rpc_workflow_runner.go:470-490 | each of the first k distinct addresses gains the converted amount; every other account keeps nonce and balance |
| CChainFunding.FundedKeysAreReady | testsuite/tests/cchain/bombard.go:57-69 | after funding, the lists from nonce 0 are prepared, and paid in full exactly up to 1013171225 transactions per list |
| ThroughputJoin.BuildTxLists | testsuite/tests/cchain/bombard.go:62-69 | one self-transfer list from nonce 0 for every key, in order |
| ThroughputJoin.ExecKeepsInv | testsuite/tests/cchain/bombard.go:71-88 | in every schedule: sent errors are buffered or received, only a received failure panics, and the chain is what the issued transactions lead to |
| ThroughputJoin.SendNeverBlocks | testsuite/tests/cchain/bombard.go:71-75 | in every reachable state a returned issuer finds room on the channel |
| ThroughputJoin.NeverDeadlocked | testsuite/tests/cchain/bombard.go:71-88 | until the main routine has joined or panicked, some step is enabled |
| ThroughputJoin.RunsAreBounded | testsuite/tests/cchain/bombard.go:71-88 | no schedule takes more steps than the starting measure |
| ThroughputJoin.JoinIsSound | testsuite/tests/cchain/bombard.go:83-88 | after one nil per list the channel is empty and every transaction of every list has been taken by the chain |
| ThroughputJoin.MaximalRunsJoin | testsuite/tests/cchain/bombard.go:71-88 | every maximal run joins exactly when all lists are paid for in full and otherwise panics; joined, each account has advanced by its whole list |
| ThroughputJoin.ConfirmAll | testsuite/tests/cchain/bombard.go:92-97 | succeeds exactly when every transaction of every list has a receipt |
| ThroughputJoin.JoinedRunIsConfirmed | testsuite/tests/cchain/bombard.go:83-97 | once joined, a node with receipts for all transactions the chain took has one for every transaction of every list, which is what confirming asks for |
| PeerVerifier.VerifyExpectedPeers | testsuite/verifier/network_state_verifier.go:66-106 | passes exactly when the node answers, the count meets the mode and every listed peer is acceptable; each error names its cause |
| PeerVerifier.AcceptableNodeIDs | testsuite/verifier/network_state_verifier.go:33-49 | for every iteration order the built set is everyone else's ID for a staker and the stakers' IDs for anyone else |
| PeerVerifier.VerifyNetworkFullyConnected | testsuite/verifier/network_state_verifier.go:25-57 | for every iteration order the verdict is that each service's list meets its own expected set; a failing verdict names a service of the network and its actual cause |
| PeerVerifier.CountCheckDecidesEquality | testsuite/verifier/network_state_verifier.go:77-104 | a passing list equals the acceptable set exactly when it has no repetitions |
| PeerVerifier.ExactModeMeaning | testsuite/verifier/network_state_verifier.go:77-104 | on lists without repetitions the count and the membership loop decide set equality |
| PeerVerifier.RepeatedPeerHidesAMissingOne | testsuite/verifier/network_state_verifier.go:77-104 | a list with a repeated peer can pass although a peer is missing |
| PeerVerifier.AtLeastModeMeaning | testsuite/verifier/network_state_verifier.go:80-104 | at-least mode on lists without repetitions is inclusion with at most acceptable − expected peers missing |
| PeerGraph.ServiceOkMeaning | testsuite/verifier/network_state_verifier.go:31-56 | a service passes exactly when it lists the services it should, no other, and nobody foreign |
| PeerGraph.PassesExactly | testsuite/verifier/network_state_verifier.go:31-56 | on lists without repetitions a network passes exactly when every service answers with its expected set |
| PeerGraph.PassesMeansStakerGraph | testsuite/verifier/network_state_verifier.go:15-56 | a network passes exactly when u lists v iff they differ and one is a staker, and nobody lists a foreign peer |
| PeerGraph.CheckAgainstDocumentation | testsuite/verifier/network_state_verifier.go:15-48 | the check is the documented relation and, beyond it, that no peer is listed that is not expected |
| PeerGraph.StricterThanDocumented | testsuite/verifier/network_state_verifier.go:15-48 | a concrete network of one staker and two non-stakers, one of which lists the other, that is fully connected as documented and fails the check |
| PeerGraph.PassingGraphIsSymmetric | testsuite/verifier/network_state_verifier.go:35-49 | in a passing network the peer relation is symmetric and nobody lists itself |
| PeerGraph.WithinTwoHops | testsuite/verifier/network_state_verifier.go:35-49 | with a staker present any two nodes of a passing network are at most two hops apart |
| PeerGraph.NoStakersNoEdges | testsuite/verifier/network_state_verifier.go:35-49 | without a staker a passing network has no connection |
| PeerGraph.PromotionAddsExactly | testsuite/tests/connected/fully_connected.go:74-81 | between two passing observations a promotion loses no connection and adds exactly those between the new staker and the remaining non-stakers |
| ConnectedTest.Run | testsuite/tests/connected/fully_connected.go:39-85 | passes exactly when every node can be asked for its ID, both verifications pass, the second with the promoted node as staker, and adding the staker works; each fatal end has its exact condition |
| ConnectedTest.PassingRunAddsOneConnection | testsuite/tests/connected/fully_connected.go:43-84 | a passing run shows exactly one new connection, between the two non-boot nodes |
| DuplicateTest.AcceptableFor | testsuite/tests/duplicate/duplicate_node_id.go:118-132 | the set built for an original node, for every iteration order |
| DuplicateTest.VerifyOriginals | testsuite/tests/duplicate/duplicate_node_id.go:117-142 | passes exactly when every original node meets its own check; with distinguishable nodes that is: each boot node lists acceptable IDs only and at least as many bad IDs as it misses originals, and the vanilla node lists exactly the boot nodes |
| DuplicateTest.Run | testsuite/tests/duplicate/duplicate_node_id.go:33-162 | each end names the first step or verification that fails; with distinguishable nodes the run passes exactly when all ten steps work and the lists are, at each verification, those of the boot nodes, the vanilla node and the bad service of that moment, with at most one or two originals missing from a boot node while both bad services run |
| DuplicateTest.FirstPhaseExactly | testsuite/tests/duplicate/duplicate_node_id.go:42-47 | the first verification passes exactly when boot nodes list all other originals and the vanilla node the boot nodes |
| DuplicateTest.SecondPhaseExactly | testsuite/tests/duplicate/duplicate_node_id.go:67-87 | with the first bad service, exactly when it and the boot nodes list each other in addition, and it and the vanilla node do not |
| DuplicateTest.LastPhaseExactly | testsuite/tests/duplicate/duplicate_node_id.go:145-161 | the same with the second bad service in its place |
| DuplicateTest.OriginalsPassExactly | testsuite/tests/duplicate/duplicate_node_id.go:117-142 | with both, exactly when boot nodes list acceptable IDs only and at least as many bad ones as they miss originals, and the vanilla node the boot nodes; at most one original is missing if the bad IDs coincide, two otherwise |
| DuplicateTest.RunFirstHalf | testsuite/tests/duplicate/duplicate_node_id.go:36-88 | the run up to the second full verification ends as specified and hands on the maps of that moment |
| DuplicateTest.RunSecondHalf | testsuite/tests/duplicate/duplicate_node_id.go:90-161 | from the second bad service on: which step or verification ends the run, or that all passed |
| DuplicateTest.AddBadService | testsuite/tests/duplicate/duplicate_node_id.go:60-79 | adding a bad service stops at the first of its four steps that fails |
| DuplicateTest.PassingRunSettles | testsuite/tests/duplicate/duplicate_node_id.go:145-161 | after a passing run the second bad service and the boot nodes list each other, and it and the vanilla node do not |
| DuplicateTest.BootNodeBound | testsuite/tests/duplicate/duplicate_node_id.go:128-135 | a boot node passes exactly when it lists acceptable peers and at least as many bad IDs as it misses originals: at most one if the bad IDs coincide, two otherwise |
| DuplicateTest.BootNodeMayMissAnOriginal | testsuite/tests/duplicate/duplicate_node_id.go:133-135 | a boot node that lists the other boot nodes and one bad ID, but not the vanilla node, passes |
| DuplicateTest.VanillaNodeIsExact | testsuite/tests/duplicate/duplicate_node_id.go:136-140 | the vanilla node passes exactly when its peers are the boot nodes |
| DecimalText.IntRoundTrip | avalanche/services/service_initializer_core.go:165-172 | a printed decimal reads back to its number, negative ones included |
| DecimalText.NatTextInjective | avalanche/networks/avalanche_network.go:252-252 | different numbers print differently |
| SeparatedText.SplitFirstOfPair | avalanche/services/service_initializer_core.go:213-213 | the first separator splits a printed name and value |
| SeparatedText.ListRoundTrip | avalanche/services/service_initializer_core.go:192-207 | a comma-joined list of comma-free texts reads back exactly when it is not the list of one empty text |
| StartCommand.NewCore | avalanche/services/service_initializer_core.go:82-109 | the core holds the given settings and a copy of the boot node IDs |
| StartCommand.AppendStaking | avalanche/services/service_initializer_core.go:176-193 | fails exactly when a needed file is not mounted, otherwise appends the two paths and the joined boot IDs |
| StartCommand.SocketList | avalanche/services/service_initializer_core.go:201-205 | the sockets' texts in the order of the dependencies |
| StartCommand.AppendDependencies | avalanche/services/service_initializer_core.go:195-208 | appends one flag holding all sockets, and nothing without dependencies |
| StartCommand.AppendExtras | avalanche/services/service_initializer_core.go:212-214 | appends every extra argument exactly once, in some order |
| StartCommand.GetStartCommand | avalanche/services/service_initializer_core.go:149-218 | the exact condition of each failure, and otherwise the full command in the order of the source |
| CommandRoundTrip.ReadSocketsOf | avalanche/services/service_initializer_core.go:195-208 | all sockets read back in order |
| CommandRoundTrip.NamesOfCommand | avalanche/services/service_initializer_core.go:160-214 | no flag name occurs twice and none holds an equals sign |
| CommandRoundTrip.ExtrasRecovered | avalanche/services/service_initializer_core.go:210-214 | the flags that are not fixed ones are exactly the extra arguments |
| CommandRoundTrip.CommandReadsBack | avalanche/services/service_initializer_core.go:160-217 | whatever order the extra arguments are printed in, reading the command gives back the core, its files, its boot IDs and all sockets in order |
| CommandRoundTrip.PrintedCommandReadsBack | avalanche/services/service_initializer_core.go:149-218 | every command the printer can return for a core reads back to the same settings, so map order does not matter |
| NetworkPlan.BootServiceIDsDiffer | avalanche/networks/avalanche_network.go:309-311 | boot service IDs of different numbers differ |
| NetworkPlan.BootConfigIDsDiffer | avalanche/networks/avalanche_network.go:251-252 | boot configuration IDs of different numbers differ |
| NetworkPlan.BootServiceCount | avalanche/networks/avalanche_network.go:55-62 | n boot nodes have n service IDs |
| NetworkPlan.UnreservedServiceIsNotBoot | avalanche/networks/avalanche_network.go:219-226 | a service ID without the reserved prefix is no boot node's |
| NetworkPlan.UnreservedConfigIsNotBoot | avalanche/networks/avalanche_network.go:207-215 | a configuration ID without the reserved prefix is no boot node's |
| NetworkPlan.BootStartSucceeds | avalanche/networks/avalanche_network.go:309-322 | starting boot node k with the k nodes before it meets every condition of a start |
| NetworkPlan.NoDependencyCycle | avalanche/networks/avalanche_network.go:306-333 | no chain of dependencies among running services returns to its start |
| NetworkPlan.RunKeepsInv | avalanche/networks/avalanche_network.go:64-86 | every run of additions and removals, failed ones included, keeps dependencies layered and within what each configuration knows; all boot nodes run exactly while none was removed |
| NetworkPlan.AddSucceedsExactly | avalanche/networks/avalanche_network.go:64-76 | in every run an addition succeeds exactly with a user's configuration, a free service ID and no boot node removed |
| NetworkLoader.NewTestAvalancheNetworkLoader | avalanche/networks/avalanche_network.go:195-240 | succeeds exactly when no user ID has a reserved prefix; an error names an offending ID; the maps are copied whole |
| NetworkLoader.NetworkBuilder.AddConfiguration | avalanche/networks/avalanche_network.go:273-275 | registers a configuration under a new ID and refuses a used one |
| NetworkLoader.AddBootConfigurations | avalanche/networks/avalanche_network.go:250-276 | never fails; boot configuration i knows exactly the node IDs before i |
| NetworkLoader.AddUserConfigurations | avalanche/networks/avalanche_network.go:278-298 | never fails when no user ID is taken; adds every user configuration with all boot IDs, for every iteration order |
| NetworkLoader.ConfigureNetwork | avalanche/networks/avalanche_network.go:242-300 | never fails for a created loader and registers exactly the planned configurations |
| NetworkLoader.RegisteredBootNode | avalanche/networks/avalanche_network.go:250-276 | the configuration of boot node i field by field: the first i node IDs, the loader's image, sizes, fee, staking flag, timeout and log level, no extra arguments |
| NetworkLoader.RegisteredUser | avalanche/networks/avalanche_network.go:278-298 | a user's configuration field by field: all node IDs, its own image, sizes, timeout, log level and extra arguments, the loader's fee and staking flag |
| NetworkLoader.ConfigurationsArePlanned | avalanche/networks/avalanche_network.go:250-298 | boot configuration i knows i IDs, a user's configuration all of them, and the two kinds never share an ID |
| NetworkLoader.ServiceNetwork.AddService | avalanche/services/service_initializer_core.go:149-158 | a start succeeds exactly with a known configuration, a free ID, live dependencies and no more of them than boot IDs; the recorded command reads back to the service's address, staking port 9651 and the staking socket of each dependency |
| NetworkLoader.ServiceNetwork.CommandFor | avalanche/services/service_initializer_core.go:149-218 | the command of a service exists exactly when the boot IDs cover the dependencies, and reads back as stated for starting |
| NetworkLoader.ServiceNetwork.StartedReadsBack | avalanche/services/service_initializer_core.go:188-228 | any command that starts a service reads back to its address, staking port 9651, the boot IDs of its core and the socket on port 9651 of each dependency |
| NetworkLoader.CommandsPointAtListeners | avalanche/services/service_initializer_core.go:195-228 | among running services a command names the very address and staking port that the command of each dependency makes it listen on; every start, removal and run keeps what this needs |
| NetworkLoader.ServiceNetwork.RemoveService | avalanche/networks/avalanche_network.go:81-86 | removes a running service and its command, and nothing else |
| NetworkLoader.StartBootNodes | avalanche/networks/avalanche_network.go:308-323 | all boot nodes start, node i depending on the nodes before it |
| NetworkLoader.StartUserNodes | avalanche/networks/avalanche_network.go:325-332 | succeeds exactly when every desired service names a user configuration; each then depends on all boot nodes |
| NetworkLoader.InitializeNetwork | avalanche/networks/avalanche_network.go:302-334 | succeeds under exactly that condition and returns one checker per boot node and per desired service |
| NetworkLoader.InitialServicesAre | avalanche/networks/avalanche_network.go:306-333 | service by service: boot node i runs against boot nodes 0 to i−1, each desired service against all of them, and nothing else runs |
| NetworkLoader.KnowsItsDependencies | avalanche/networks/avalanche_network.go:250-333 | each service is configured with the node IDs of exactly the boot nodes it is started against, in order |
| NetworkLoader.InitialNetworkIsSound | avalanche/networks/avalanche_network.go:302-334 | the initialized network satisfies the invariant of all later runs |
| NetworkLoader.TestAvalancheNetwork.GetAllBootServiceIDs | avalanche/networks/avalanche_network.go:54-62 | exactly the boot service IDs, as many as there are stakers |
| NetworkLoader.TestAvalancheNetwork.AddService | avalanche/networks/avalanche_network.go:64-76 | performs the planned addition against all boot nodes or leaves the network as it was |
| NetworkLoader.TestAvalancheNetwork.RemoveService | avalanche/networks/avalanche_network.go:78-86 | performs the planned removal or leaves the network as it was |
| NetworkLoader.PerformAll | avalanche/networks/avalanche_network.go:64-86 | any sequence of calls on the wrapper is exactly the planned run |
| NetworkLoader.EveryRunFromTheLoader | avalanche/networks/avalanche_network.go:306-334 | from the initialized network, over every run: when an addition succeeds, dependencies acyclic and within the configured IDs, and alive while no boot node was removed |
| AtomicWorkflow.OpConserves | testsuite/tests/cchain/atomic_workflow.go:69-201 | each operation keeps X + in flight + C (scaled) + burnt fees, and the asset's total apart from its creation |
| AtomicWorkflow.RunConserves | testsuite/tests/cchain/atomic_workflow.go:69-204 | so does every run of operations in any order, for all amounts |
| AtomicWorkflow.ExportPhase | testsuite/tests/cchain/atomic_workflow.go:61-104 | succeeds exactly when the balance covers export and three fees and the asset covers its export; the running expectations equal the ledger |
| AtomicWorkflow.ExportBoth | testsuite/tests/cchain/atomic_workflow.go:81-104 | both exports succeed exactly when paid for, with the expectations equal to the ledger; which one fails and what it leaves |
| AtomicWorkflow.ImportPhase | testsuite/tests/cchain/atomic_workflow.go:106-158 | both exports arrive, the second import finds nothing, and the checks pass exactly while the amounts keep their sign as int64 |
| AtomicWorkflow.ExportBack | testsuite/tests/cchain/atomic_workflow.go:160-193 | both exports back succeed and leave the C-Chain empty |
| AtomicWorkflow.ReturnPhase | testsuite/tests/cchain/atomic_workflow.go:160-204 | everything returns to the X-Chain exactly when the last fee can be paid |
| AtomicWorkflow.ExecuteTest | testsuite/tests/cchain/atomic_workflow.go:35-230 | for payable amounts the ledger ends at initial − 4·txFee and the run passes exactly when the exported AVAX is zero; every other end has its exact condition and the ledger it leaves |
| AtomicWorkflow.FinalExpectation | testsuite/tests/cchain/atomic_workflow.go:206-218 | the value computed at line 206 misses the final balance by exactly the exported amount |
| StakingWorkflow.OpConserves | testsuite/helpers/rpc_workflow_runner.go:258-321 | no operation changes X + P + in flight + staked |
| StakingWorkflow.RunConserves | testsuite/tests/workflow/executor.go:85-175 | nor does any run of operations |
| StakingWorkflow.TransferXToP | testsuite/helpers/rpc_workflow_runner.go:258-292 | moves the amount from one chain to the other, or changes nothing and fails exactly when it is not there |
| StakingWorkflow.TransferPToX | testsuite/helpers/rpc_workflow_runner.go:294-321 | the same in the other direction |
| StakingWorkflow.FundXChainAddresses | testsuite/helpers/rpc_workflow_runner.go:178-200 | sends to the addresses in turn and stops at the first that cannot be paid, keeping the sends already made; conserves the total |
| StakingWorkflow.FundingMeaning | testsuite/helpers/rpc_workflow_runner.go:178-200 | funding k distinct addresses succeeds exactly when the source holds k amounts; each gains one amount |
| StakingWorkflow.FundingPhase | testsuite/tests/workflow/executor.go:85-95 | succeeds exactly when genesis covers two seeds, and both balance checks pass; failing leaves the first wallet funded exactly when one seed was there |
| StakingWorkflow.ValidatorPhase | testsuite/tests/workflow/executor.go:97-129 | for every seed that covers the stake, all staker steps and checks pass |
| StakingWorkflow.DelegatorPhase | testsuite/tests/workflow/executor.go:131-151 | for every seed that covers the delegation, the delegator's steps and checks pass |
| StakingWorkflow.ExecuteTest | testsuite/tests/workflow/executor.go:43-179 | the run passes exactly when genesis covers two seeds and the delegation equals the stake; with a larger delegation the last transfer fails, with a smaller one the check for an empty P balance; what each participant then holds; the total never changes |
| Polling.WaitIsBounded | testsuite/helpers/rpc_workflow_runner.go:343-357 | a wait ends and polls at most once per begun second until its deadline |
| Polling.WaitEndsExactly | testsuite/helpers/rpc_workflow_runner.go:343-359 | a wait ends for a good, bad or failing answer exactly when some turn before the deadline gets it, all earlier ones pending |
| Polling.WaitXEndsExactly | testsuite/helpers/rpc_workflow_runner.go:343-359 | in terms of what the node replies: success exactly when a turn in time finds the transaction accepted after nothing but unknown or processing, rejection likewise for rejected, a query error likewise for a failed query |
| Polling.WaitPEndsExactly | testsuite/helpers/rpc_workflow_runner.go:388-407 | the same for committed, for dropped or aborted, and for a failed query |
| Polling.TimeoutBoundsPolls | testsuite/helpers/rpc_workflow_runner.go:343-357 | a wait polls at most ceil(timeout / 1 s) times |
| Polling.WaitsMayFollowAtOnce | testsuite/helpers/rpc_workflow_runner.go:363-371 | there are runs in which two transactions are found accepted by two waits at one clock reading |
| Polling.AwaitXChainTransactionAcceptance | testsuite/helpers/rpc_workflow_runner.go:338-360 | the loop is the specified wait; it succeeds, is abandoned or fails to query exactly when the first decisive reply in time is accepted, rejected or a failure, and times out otherwise; nil means its last poll found the transaction accepted |
| Polling.AwaitPChainTransactionAcceptance | testsuite/helpers/rpc_workflow_runner.go:384-408 | the same with committed, dropped or aborted, and failure |
| Polling.AwaitXChainTxs | testsuite/helpers/rpc_workflow_runner.go:362-371 | nil means every listed transaction is accepted on return; an error is that of one of the waits, with all transactions before it accepted; at most ceil(timeout / 1 s) polls per transaction; no time has to pass between two waits |
| Polling.AwaitPChainTxs | testsuite/helpers/rpc_workflow_runner.go:373-382 | the same for commitment on the P-Chain |
| Polling.SendAVAXBackAndForth | testsuite/helpers/rpc_workflow_runner.go:233-256 | sends numTxs − 1 times, each amount one fee lower modulo 2^64; the channel gets one error for each failing send and each failing wait and then nil |
| StakingWindows.AddValidatorToPrimaryNetwork | testsuite/helpers/rpc_workflow_runner.go:142-176 | the window spans exactly 72 h in Unix seconds despite truncation; the call returns no earlier than 3 s after the start it asked for |
| StakingWindows.AddDelegatorToPrimaryNetwork | testsuite/helpers/rpc_workflow_runner.go:109-140 | the window spans exactly 36 h; the call returns no earlier than 3 s after its start |
| StakingWindows.NestingExactly | testsuite/helpers/rpc_workflow_runner.go:117-173 | a delegation requested at least 23 s after the validator call, which is when that returns, starts at least 23 s later and lies inside the validation window exactly when it starts at most 36 h after it; requesting it within 36 h − 20 s of the validation's start suffices |

## Left out

- RPC clients, Docker and Kurtosis calls, logging and flag parsing: I/O, represented by ledger steps or parameters.
- Signing, codecs, CB58 decoding, certificate contents: signatures are valid and IDs injective; the error paths of these library calls do not occur.
- Asset, network and blockchain IDs in X-Chain transactions: constants in every transaction; transactions with several inputs or outputs: the generator makes none.
- BombardExecutor.ExecuteTest: says nothing about acceptance after issuing, because the error of the final wait is dropped at `testsuite/tests/bombard/bombard_executor.go:170-172`; `Polling.AwaitXChainTxs` states what that wait means. Creating clients and funding them is the assumption `Seeded`; a panic on an empty UTXO list or a refused list is an outcome.
- Mempool behaviour of nodes for transactions with a gap in their nonces, gas-price floors, blocks and their gas limits.
- AwaitCChainAtomicTransactionAcceptance only sleeps, so C-Chain atomic steps count as accepted (`testsuite/helpers/rpc_workflow_runner.go:412-416`).
- StakingWorkflow.TransferPToX: the error of the import call is overwritten in the source (`testsuite/helpers/rpc_workflow_runner.go:315-316`); the import is modelled as made, and it succeeds because the export is in flight.
- StakingWorkflow.ValidatorPhase: minimum stake amounts, staking rewards and the end of staking periods are not modelled; amounts are unbounded there because no fee or sum of the test wraps.
- AtomicWorkflow.ExportPhase: an export of zero is accepted, although a node may refuse it.
- StartCommand.GetStartCommand: the network timeout is kept as its printed text; printing of durations is not modelled.
- InitializeMountedFiles and the certificate providers: file contents; whether the two bad node IDs coincide is a case split in `DuplicateTest.BootNodeBound`, since the random provider draws a fresh key on every call.
- NetworkLoader.ConfigureNetwork: certificates and availability checker cores are not part of a configuration; the genesis stakers' node IDs are a parameter.
- DuplicateTest.Run: the steps between the verifications are taken as the number of them that work; why one fails is not modelled.
- ConnectedTest.Run: reaching the nodes and adding the staker are taken as whether they work; the transfer and staking behind the latter are those of `StakingWorkflow` and `StakingWindows`.
- Conflicting-vertex and chit-spammer tests: fixed byte vectors and behaviour of a node image that is not in the repository.
- Header and block checks of the Ethereum API test, service and client accessors, log levels, genesis keys: constants and wrappers.
