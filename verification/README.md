# Verification of relaymon

relaymon polls checkers once per iteration, puts their answers through a hysteresis,
combines them into one state, and raises or withdraws IP addresses when that state
changes. This project models the whole controller in Dafny, from the configuration file of
carbon-c-relay to the `ip` commands and the metrics that are sent, and proves what holds
along every run.

`dafny verify dfyconfig.toml` checks everything.

## How the model is built

Each part has a specification on values (what one step does), a class or a method in the
source's own form that is proved against it, and theorems about the specification. Long
procedures of the source are split into helper methods that keep the order of its
statements: `Status` of the network checker into `Round`, `CheckClusters`, `CheckCluster`,
`Record` and `Tally`, the main loop into `PollAll` and `React`, a pass of the sender into `Send` and
`TakeMore`.

| file | what it models |
|---|---|
| `Checker.dfy` | states, metrics, comparison of errors |
| `Lists.dfy` | lists of objects in which none occurs twice |
| `Hysteresis.dfy` | the automaton that both kinds of checkers run: three saturating counters and three thresholds, and what they mean in terms of the whole history of results |
| `FanIn.dfy` | the goroutines and the channel of a cluster check, in any interleaving |
| `CarbonNetwork.dfy` | `Cluster` and `NetworkChecker`: probes, flat metrics, the event log |
| `Systemd.dfy` | `ServiceChecker`: the tracked process, resets, restart detection |
| `NetConf.dfy` | `FindIPNet`, `IfaceAddrAdd`, `IfaceAddrDel` on an interface that is a set of (address, mask) |
| `Control.dfy` | the decisions of the main loop, its actions and their failures |
| `Flapping.dfy` | checkers and loop as one system of automata: dwell times, and how often it can flap |
| `Monitor.dfy` | the main loop with its checkers and its interface; carries the theorems above over to it |
| `Text.dfy` | `strings.Split`, comments, words |
| `CarbonCRelay.dfy` | the configuration reader |
| `ConfigLayout.dfy` | changes of layout that it does not notice |
| `ConfigRoundTrip.dfy` | writing clusters down and reading them back |
| `MetricQueue.dfy` | the bounded queue and the batching sender, in any interleaving |

What comes from outside is a parameter of each step: the error of every probe, what
systemd and /proc say, the interface look-up, how every command ends (an `ip` command that
fails may or may not have taken effect), the order in which messages arrive, how every
attempt to send ends. All theorems hold for every value of these, unless they say so.

An error is its text or nothing. Counters are unbounded numbers that saturate at 2^31 - 1
where the code makes them. The metrics queue, whose library is not part of this model, is
taken to be an atomic bounded first-in-first-out queue.

## Where the code does something else than one would expect

Each of these is kept in the model, with a lemma that shows it and the exact condition.

- Thresholds above 2^31 - 1 are accepted, and then the reported states are wrong
  (`Hysteresis.PromiseKeptIffThresholdsFit`).
- When the look-up of a tracked process fails, the checker reports `Unknown` but its metric
  keeps the old state (`Systemd.MetricIsStaleIff`).
- A raise that fails sets the status to `Error`, and so does a withdrawal that fails; since
  the status then is what the failing checks call for, nothing withdraws what is left
  (`Control.FailedRaiseIsNotUndone`, `Control.DownIsNotRepeated`,
  `Control.ErrorMeansAbsentIff`, `Control.FailedCommandStrandsAddresses`,
  `Control.FailedWithdrawalStrandsAddresses`).
- Withdrawn addresses can be raised again before resetCount good checks. A check without a
  result makes a checker start afresh; it then reports nothing until it has made checkCount
  checks, so that failures can be reported, and the addresses withdrawn, when all but the
  last of the good checks that forget them have been made
  (`Flapping.ShortestDownIsAttained`, `Flapping.DownsLastIff`).
- A `;` on the `cluster` line does not end the cluster: what follows is swallowed
  (`ConfigRoundTrip.RoundTripIff`, `ConfigRoundTrip.OneLinersArePaired`).
- The word `file` after `proto`, `type` or `transport` is not seen
  (`ConfigRoundTrip.FileDropsClusterIff`).
- `proto`, `type` or `transport` ends the list of endpoints, and a cluster with a single
  word after its name is dropped (`ConfigRoundTrip.RoundTripIff`).
- An address with more than one colon, such as an IPv6 address, is cut short
  (`CarbonCRelay.AddressIsAsWrittenIff`).
- The comment at cmd/relaymon/metrics.go:47 speaks of the last two elements of the queue; the
  code drops the two oldest (`MetricQueue.OrderIsKept`).
- Two endpoints of a cluster can share a metric name (`CarbonNetwork.MetricNamesCollideIff`).
- With a queue for a single metric every metric can find it full
  (`MetricQueue.NoTwoRejectionsIff`).

## Model

| member | source | states |
|---|---|---|
| `Checker.ErrorChanged` | pkg/checker/checker.go:32-39 | true exactly when the two errors differ as texts, or one of them is nil |
| `Checker.StateNumbers` | pkg/checker/checker.go:11-29 | the numbers of the states, one by one |
| `Checker.StripKeepsNames` | pkg/checker/checker.go:58-61 | the stripped text has only letters, digits, underscores and hyphens, and is the text itself exactly when that has no others |
| `Checker.StripRun` | pkg/checker/checker.go:58-61 | every longest run of other characters becomes one underscore, and what stands before and after it is stripped on its own |
| `Hysteresis.CountersRefineHistory` | pkg/carbonnetwork/network.go:218-236 | after every history: `success` is the capped length of the trailing run of good results, `failed` the capped number of failures since the last window of resetCount good ones (of all failures if resetCount cannot be reached), `checked` the capped number of checks |
| `Hysteresis.ApplyCapped` | pkg/carbonnetwork/network.go:218-236 | one check on saturated counters is one check on the true numbers, saturated afterwards |
| `Hysteresis.VerdictKeepsPromise` | pkg/carbonnetwork/network.go:218-245 | with thresholds that fit in 32 bits the state is the one that the thresholds promise for the history, with no machine width in it |
| `Hysteresis.GoodResultsForget` | pkg/carbonnetwork/network.go:222-232 | after any history and a failure, n good results make the counters forget all failures exactly when n is at least 1 and at least resetCount |
| `Hysteresis.FailuresAreReported` | pkg/carbonnetwork/network.go:218-245 | what n failures in a row from the start are reported as, for every n |
| `Hysteresis.PromiseKeptIffThresholdsFit` | pkg/carbonnetwork/network.go:218-245 | that holds for all histories if and only if all three thresholds fit |
| `Hysteresis.TooWideBreaksPromise` | pkg/carbonnetwork/network.go:218-236 | for any thresholds that do not fit, a history on which the state is wrong |
| `Hysteresis.Transitions` | pkg/carbonnetwork/network.go:222-245 | `Collecting` is left for good, `Error` is never followed by `Warn` and left only by completing a window of good results, `Success` turns into `Error` in one step exactly on a failure with failCount at most 1 |
| `Hysteresis.NeverCollectingAgain` | pkg/carbonnetwork/network.go:237-238 | between any two moments of a run |
| `Hysteresis.LeavingErrorNeedsGoodWindow` | pkg/carbonnetwork/network.go:222-245 | between a reported error and any later other state lies the end of max(1, resetCount) good results in a row |
| `Hysteresis.SteadyResultsAreReported` | pkg/carbonnetwork/network.go:222-245 | failCount failures in a row are reported as an error and resetCount successes in a row as a success, once there were checkCount checks |
| `Hysteresis.RepeatedFailuresLatch` | pkg/carbonnetwork/network.go:222-245 | if every window has a failure, the error is reported exactly from the failCount-th failure and the checkCount-th check on, and stays |
| `Hysteresis.ResetForgetsTheRest` | pkg/systemd/service.go:198-203 | with resets, the counters are those of the results after the last reset |
| `FanIn.StepKeepsInv` | pkg/carbonnetwork/network.go:47-117 | every step of caller or goroutine keeps the protocol's invariant (each index sent at most once, each message carries its sender's error, the slice is right for what was received) and lowers the remaining work by one |
| `FanIn.SendsNeverBlockOrPanic` | pkg/carbonnetwork/network.go:47-62 | in every interleaving a goroutine at its send can send at once, to an open channel |
| `FanIn.NoDeadlock` | pkg/carbonnetwork/network.go:47-117 | until the channel is closed some step is possible |
| `FanIn.EveryRunEnds` | pkg/carbonnetwork/network.go:47-117 | a check takes exactly three steps per endpoint and one to close, in every interleaving |
| `FanIn.ResultIsOrderIndependent` | pkg/carbonnetwork/network.go:104-117 | at the end every goroutine has sent once, goroutine i's error is at position i, and the boolean says that some endpoint has no error, whatever the order of arrival |
| `FanIn.EveryOrderHappens` | pkg/carbonnetwork/network.go:47-117 | for every order of the messages there is a run with it |
| `CarbonNetwork.NetworkRunsAutomaton` | pkg/carbonnetwork/network.go:182-236 | after any rounds of probes the counters are the automaton's on the sequence of good and bad rounds |
| `CarbonNetwork.NetworkKeepsPromise` | pkg/carbonnetwork/network.go:178-246 | the state after any rounds is the promised one, a round being good when every required cluster and at least one cluster has an endpoint without error |
| `CarbonNetwork.RoundCounts` | pkg/carbonnetwork/network.go:182-236 | in every run a round counts as a success exactly when every required cluster and at least one cluster has an endpoint whose probe gave no error, else as a failure |
| `CarbonNetwork.MetricsAreAligned` | pkg/carbonnetwork/network.go:183-213 | after any rounds the metric at the prefix sum of endpoint counts plus j is named `network.carbon.`, the stripped cluster name, a dot, the stripped endpoint (i, j), and its value is 0 before the first round, 3 if the latest probe failed, else 1 |
| `CarbonNetwork.MetricNamesCollideIff` | pkg/carbonnetwork/network.go:158 | two endpoints of a cluster share the names of their metrics and test metrics exactly when their stripped forms are equal |
| `CarbonNetwork.MetricNamesCanCollide` | pkg/carbonnetwork/network.go:158 | endpoints that differ in one dot or underscore do |
| `CarbonNetwork.ClusterTells` | pkg/carbonnetwork/network.go:192-212 | the events of a cluster are one text per endpoint whose error changed, in order: `endpoint`, the endpoint, and the new error or `up` |
| `CarbonNetwork.RoundTells` | pkg/carbonnetwork/network.go:182-213 | the same for the events of a whole round, in the order of clusters and endpoints |
| `CarbonNetwork.EventLogIsLosslessAndMinimal` | pkg/carbonnetwork/network.go:192-213 | replaying all events of a run from the errors at its start (none for a fresh configuration) gives every endpoint's current error, and no endpoint has two successive events with the same error |
| `CarbonNetwork.Cluster.constructor` | pkg/carbonnetwork/network.go:33-35 | a cluster without endpoints |
| `CarbonNetwork.Cluster.Append` | pkg/carbonnetwork/network.go:38-44 | one endpoint more, without error, and its test metric: the prefix, `.test.network.carbon.`, the stripped name, a dot, the stripped endpoint |
| `CarbonNetwork.Cluster.Check` | pkg/carbonnetwork/network.go:104-117 | for every order of arrival: the errors by endpoint, and true exactly if some endpoint has none |
| `CarbonNetwork.MetricVector` | pkg/carbonnetwork/network.go:142-162 | the flat vector of a fresh checker is the concatenation of the clusters' metrics, all `Collecting` |
| `CarbonNetwork.NetworkChecker.constructor` | pkg/carbonnetwork/network.go:139-165 | a fresh checker for these clusters, whatever errors they already hold |
| `CarbonNetwork.NetworkChecker.Record` | pkg/carbonnetwork/network.go:192-212 | stores a cluster's errors, sets exactly its metrics, and returns one text per endpoint whose error changed, in order, with the new error or `up` |
| `CarbonNetwork.NetworkChecker.CheckCluster` | pkg/carbonnetwork/network.go:185-212 | the same after a check, with all earlier clusters' metrics done and all later ones' untouched |
| `CarbonNetwork.NetworkChecker.CheckClusters` | pkg/carbonnetwork/network.go:182-213 | for all clusters: whether no required one is down, how many are down, metrics, events and errors |
| `CarbonNetwork.NetworkChecker.Tally` | pkg/carbonnetwork/network.go:218-245 | one check of the automaton, and its verdict |
| `CarbonNetwork.NetworkChecker.Round` | pkg/carbonnetwork/network.go:179-246 | one round, told by the clusters as they were before it |
| `CarbonNetwork.NetworkChecker.Status` | pkg/carbonnetwork/network.go:178-246 | the whole new state and report of one call, the texts of its events, and that the object stays where its whole history of rounds leads |
| `Systemd.ServiceSimulatesAutomaton` | pkg/systemd/service.go:190-285 | for every run of process and systemd answers the counters are the network checker's automaton on the ticks since the last one without a result |
| `Systemd.ServiceKeepsPromise` | pkg/systemd/service.go:190-285 | `Unknown` is reported exactly on a tick without a result, else the state promised for the ticks since the last such one |
| `Systemd.TickCounts` | pkg/systemd/service.go:190-285 | in every run a tick counts as a success exactly if the tracked process is still the same or, with none tracked, systemd names a child of process 1 with the name of the unit; it counts as a failure exactly if the tracked process is gone or replaced or, with none tracked, systemd gives an error with a known state or names a process that is gone or not of the unit; it resets the counters and reports `Unknown` exactly if /proc cannot be read, or systemd gives an error with an unknown state; and which process is tracked and which event is kept then |
| `Systemd.DownServiceIsAnError` | pkg/systemd/service.go:215-284 | if systemd gives an error with a known state in every tick, the report is `Error` from tick max(failCount, checkCount) on, before that `Warn` or `Collecting` |
| `Systemd.DownServiceFails` | pkg/systemd/service.go:197-228 | a service whose process is found gone at some tick, and about which systemd gives such an error from then on, fails in all these ticks |
| `Systemd.MetricIsStaleIff` | pkg/systemd/service.go:197-203 | over every run: the metric shows another state than the one just reported exactly when a process is tracked and its look-up failed |
| `Systemd.MetricCanBeStale` | pkg/systemd/service.go:197-203 | a run after which the metric says success and the checker reports `Unknown` |
| `Systemd.ReplacementMeansFailure` | pkg/systemd/service.go:204-210 | between any two different tracked processes lies a failed tick |
| `Systemd.TrackedProcessIsGenuine` | pkg/systemd/service.go:197-253 | every tracked process was found at some tick as the unit's main process, a child of systemd under the unit's name, and no tick since has found it gone or changed |
| `Systemd.LogTellsEveryError` | pkg/systemd/service.go:180-187 | over every run the latest event is the error of the latest tick without a result, other ticks log nothing, and no two events in a row are the same |
| `Systemd.EverySequenceHappens` | pkg/systemd/service.go:190-285 | for every sequence of good, bad and missing results there are answers of the outside world that a service checker observes so |
| `Systemd.GoodWindowIsOneProcess` | pkg/systemd/service.go:197-252 | a window of good ticks is a window in which one process stays tracked |
| `Systemd.RestartLoopIsAnError` | pkg/systemd/service.go:194-285 | if no process survives a window of resetCount ticks and no tick is without a result, the error is reported exactly from the failCount-th failed tick and the checkCount-th tick on, and stays |
| `Systemd.ServiceChecker.constructor` | pkg/systemd/service.go:151-160 | a fresh checker |
| `Systemd.ServiceChecker.ProcExit` | pkg/systemd/service.go:167-178 | the error of the look-up, else whether the tracked process is gone or is not the same any more |
| `Systemd.ServiceChecker.Events` | pkg/systemd/service.go:180-187 | an event is told only if it differs from the last one, which it replaces |
| `Systemd.ServiceChecker.Conclude` | pkg/systemd/service.go:258-284 | with the failure counted before, one check of the automaton and its verdict |
| `Systemd.ServiceChecker.Status` | pkg/systemd/service.go:190-285 | the whole new state, report and events of one call on every branch, and that the object stays where its whole history leads |
| `Systemd.ServiceChecker.Metrics` | pkg/systemd/service.go:288-290 | the one metric shows the status to which the whole history leads, and after a tick the state that the tick reported, except exactly when the look-up of a tracked process failed |
| `NetConf.IPEqual` | pkg/netconf/linuxnet.go:66 | addresses are equal exactly when their canonical forms are, IPv4 in IPv6 form counting as IPv4 |
| `NetConf.IPEqualIff` | pkg/netconf/linuxnet.go:66 | addresses are equal exactly if they are the same bytes, or one is an IPv4 address and the other ten zero bytes, two of 255 and that address |
| `NetConf.SameKeyIff` | pkg/netconf/linuxnet.go:63-72 | networks count as the same exactly if their addresses are equal and so are their masks |
| `NetConf.IPMaskEqual` | pkg/netconf/linuxnet.go:50-60 | true exactly for equal masks |
| `NetConf.FindIPNet` | pkg/netconf/linuxnet.go:63-72 | found exactly if some network in the list has an equal address and this mask |
| `NetConf.Interface.IpExec` | pkg/netconf/linuxnet.go:13-47 | the effect of one command and its error |
| `NetConf.Interface.AddrAdd` | pkg/netconf/linuxnet.go:90-107 | the interface, the errors and the commands run are those of a pass of additions |
| `NetConf.Interface.AddrDel` | pkg/netconf/linuxnet.go:110-129 | the same for deletions |
| `NetConf.PassReport` | pkg/netconf/linuxnet.go:90-129 | a look-up that fails is the only error and nothing is run; else one command is run for every address that is not listed (or, to delete, is), in order, and the errors are the texts of those that fail, in order |
| `NetConf.PassGuarantees` | pkg/netconf/linuxnet.go:90-129 | without errors an add yields the union with the configured addresses and a delete the difference; whatever fails, an add only adds, a delete only deletes, and only configured addresses |
| `NetConf.NoErrorIff` | pkg/netconf/linuxnet.go:90-129 | no error is reported exactly when the look-up and every command that was needed worked |
| `NetConf.RepeatRunsNothing` | pkg/netconf/linuxnet.go:90-129 | after a pass without errors the same pass runs no command |
| `NetConf.AddThenDel` | pkg/netconf/linuxnet.go:90-129 | add and delete without errors restore the interface exactly if it had none of the addresses |
| `Control.StepStatus` | cmd/relaymon/main.go:249-296 | the combined state is success exactly if all states are, and error exactly if some state is |
| `Control.IterationOutcome` | cmd/relaymon/main.go:298-347 | for every configuration and look-up: if all checks succeed and the status is not success yet, it becomes success exactly if (there are no addresses, or the look-up and every needed command worked) and (there is no success command, or it worked), else error; an error among the checks makes it error; otherwise nothing changes; and which act that is |
| `Control.ActsAlternate` | cmd/relaymon/main.go:298-347 | over every run the acts alternate, and the status is the one that the last act left |
| `Control.ActionsAlternate` | cmd/relaymon/main.go:298-347 | between two withdrawals lies a clean raise and between two clean raises a withdrawal; raises are tried only while the status is not success, withdrawals only while it is not error; other iterations change nothing |
| `Control.EveryAlternationHappens` | cmd/relaymon/main.go:298-347 | every alternating sequence of acts is the one of some run |
| `Control.FailedRaiseIsNotUndone` | cmd/relaymon/main.go:298-346 | after a failed raise nothing is done until all checks succeed again |
| `Control.DownIsNotRepeated` | cmd/relaymon/main.go:298-323 | nor after a withdrawal, whatever it left |
| `Control.SuccessMeansPresent` | cmd/relaymon/main.go:298-347 | with any failures but no outside change: status success means that all configured addresses are present, and no other address ever changes |
| `Control.StatusAgreesWithInterface` | cmd/relaymon/main.go:298-347 | if operations and success command work, status error means also that no configured address is present, and collecting that nothing was changed |
| `Control.ErrorActLeavesNoneIff` | cmd/relaymon/main.go:298-347 | whatever was on the interface: a withdrawal leaves no configured address exactly when the look-up worked and for every address that was there some command took effect (if the look-up failed: when none was there); a failed raise exactly when none was there and no command took effect |
| `Control.LastErrorAct` | cmd/relaymon/main.go:298-347 | whenever the status is `Error`, the last act was a withdrawal or a failed raise, and the interface is as it left it |
| `Control.ErrorMeansAbsentIff` | cmd/relaymon/main.go:298-347 | with any failures: after a run that ends in status `Error` no configured address is present exactly when the last act left none |
| `Control.FailedCommandStrandsAddresses` | cmd/relaymon/main.go:337-344 | for every n: a run in which the success command fails and all addresses stay up over n iterations of failing checks, in which every look-up and command works |
| `Control.FailedWithdrawalStrandsAddresses` | cmd/relaymon/main.go:300-313 | the same after a withdrawal whose command failed |
| `Flapping.UpTime` | cmd/relaymon/main.go:248-347 | a withdrawal comes at least failCount iterations after the clean raise before it, also with ticks that have no result |
| `Flapping.DownTime` | cmd/relaymon/main.go:248-347 | in any run, with any checks without a result, addresses that were up and are withdrawn are not raised, or tried to be, for at least min(1 + C, max(1, R - max(0, C - F))) iterations, with C = max(1, checkCount), F = max(1, failCount), R = max(1, resetCount) |
| `Flapping.DownTimeWithResults` | cmd/relaymon/main.go:248-347 | for at least R iterations, if every check has had a result since the clean raise before |
| `Flapping.ShortestDownIsAttained` | cmd/relaymon/main.go:248-347 | for all thresholds that fit in 32 bits, a run of one checker with a down-time of exactly that length |
| `Flapping.DownsLastIff` | cmd/relaymon/main.go:248-347 | every down-time of every run is at least R if and only if R = 1, or R <= 1 + C and C <= F |
| `Flapping.FailureIsNoticed` | cmd/relaymon/main.go:248-347 | when a checker has failed without a break for failCount ticks or more, and has made checkCount checks by then, the status is error |
| `Flapping.RecoveryIsNoticed` | cmd/relaymon/main.go:248-347 | when all checkers have succeeded without a break for resetCount and for checkCount ticks, the status is success if it was before the last of them or if the raise in it is clean, else error |
| `Flapping.InvHolds` | cmd/relaymon/main.go:248-347 | the invariant behind the flap rate, for every run |
| `Flapping.FlapRateIsBounded` | cmd/relaymon/main.go:248-347 | every run with d withdrawals, whatever the thresholds, the checkers, the raises that fail and the checks without a result, is at least as long as the fastest run with d: with C = max(1, checkCount), F = max(1, failCount), R = max(1, resetCount), this is max(C, F) for d = 1 and U + F + (d - 2) (F + G) for d >= 2, where G = min(R, 1 + C) and U = min(max(C + 1, F + R), max(C, F) + 1 + C); if every check has a result, with G = R and U = max(C + 1, F + R) |
| `Flapping.ResetsMatterIff` | cmd/relaymon/main.go:248-347 | the two bounds agree for all d if and only if R <= 1 + C |
| `Flapping.FlapBoundIsAttained` | cmd/relaymon/main.go:248-347 | for all thresholds that fit in 32 bits and every d, a run of one checker that is exactly as long as the bound, with checks without a result or with none |
| `Monitor.CheckersAreAutomata` | cmd/relaymon/main.go:253-296 | in every iteration every checker, of either kind, makes one step of its automaton and reports its verdict |
| `Monitor.IterationDecides` | cmd/relaymon/main.go:248-347 | which states are combined, one for each checker, and what each combination makes of the status and the interface, with the exact condition for a raise to work |
| `Monitor.MonitorRefinesAutomata` | cmd/relaymon/main.go:248-347 | one iteration of the monitor is one tick of the system of automata, with the same act |
| `Monitor.MonitorFlapRate` | cmd/relaymon/main.go:248-347 | both flap-rate bounds for the monitor itself, with processes, probes, interface and commands |
| `Monitor.MonitorDwells` | cmd/relaymon/main.go:248-347 | the dwell times for the monitor itself: up, down in any run, and down with results since the clean raise |
| `Monitor.MonitorNoticesFailure` | cmd/relaymon/main.go:248-347 | the monitor notices a lasting failure of one checker; if all operations work no configured address is then on the interface |
| `Monitor.ServicesRunAlone` | cmd/relaymon/main.go:253-272 | along every run of the monitor each service is a service checker on its own answers, and the monitor observes what it observes |
| `Monitor.NetworkRunsAlone` | cmd/relaymon/main.go:274-292 | and the network checker is one on its own rounds |
| `Monitor.MonitorNoticesDownService` | cmd/relaymon/main.go:248-347 | when the process of a service is found gone, or it has none, and systemd gives an error with a known state from then on, the status is error after failCount iterations and checkCount checks; if all operations work no configured address is then on the interface |
| `Monitor.MonitorNoticesRecovery` | cmd/relaymon/main.go:248-347 | when all checkers have recovered, the status is success if it was before the last iteration, or if the look-up, every needed command and the success command work in it, else error; under success all configured addresses are on the interface |
| `Monitor.EveryTickHappens` | cmd/relaymon/main.go:248-347 | every sequence of good, bad and missing results is a run of a monitor with one service, in which all operations work and nobody else changes the interface |
| `Monitor.FlapRateIsAttained` | cmd/relaymon/main.go:248-347 | the flap-rate bounds are attained by the monitor itself although all operations work |
| `Monitor.ShortestDownIsAttained` | cmd/relaymon/main.go:248-347 | and so is the bound on down-times |
| `Monitor.MonitorActionsAlternate` | cmd/relaymon/main.go:298-347 | the alternation of acts for the monitor itself |
| `Monitor.MonitorStatusAgrees` | cmd/relaymon/main.go:298-347 | the agreement of status and interface for the monitor itself |
| `Monitor.MonitorErrorMeansAbsentIff` | cmd/relaymon/main.go:298-347 | for the monitor itself, with any failures: under status `Error` no configured address is present exactly when the withdrawal or failed raise that was its last act left none |
| `Monitor.PollServices` | cmd/relaymon/main.go:253-272 | every service checker makes its step; an error among the states is noticed and the successes are counted |
| `Monitor.LoadRelay` | cmd/relaymon/main.go:230-243 | a fresh network checker, by its name, for exactly the clusters of the configuration, or the error of opening it |
| `Monitor.RelayMonitor.constructor` | cmd/relaymon/main.go:245-246 | the loop starts as `Collecting`, on track with an empty history |
| `Monitor.RelayMonitor.PollNet` | cmd/relaymon/main.go:274-292 | the same for the network checker, if there is one |
| `Monitor.RelayMonitor.PollAll` | cmd/relaymon/main.go:249-296 | the loops over the checkers and the counting of successes yield the combined state of what all checkers report |
| `Monitor.RelayMonitor.React` | cmd/relaymon/main.go:298-347 | the act, the commands run for it, the new interface, and the new status: when all checks succeed, success exactly if look-up, commands and success command work |
| `Monitor.RelayMonitor.RunIteration` | cmd/relaymon/main.go:248-347 | one iteration on the objects is one step of the monitor on values, runs the commands of its act and no other, and keeps the object where its whole history leads |
| `Monitor.RelayMonitor.WhatRunsTell` | cmd/relaymon/main.go:248-347 | what is proved of runs holds of the object: its status agrees with the interface, and it has not flapped faster than the thresholds allow |
| `Text.SplitJoin` | pkg/carbon_c_relay/carbon_c_relay.go:94 | splitting undoes joining |
| `Text.JoinSplit` | pkg/carbon_c_relay/carbon_c_relay.go:94 | joining undoes splitting |
| `Text.CutComment` | pkg/carbon_c_relay/carbon_c_relay.go:91 | text from a `#` on is cut |
| `Text.FieldsOfWords` | pkg/carbon_c_relay/carbon_c_relay.go:94-103 | words joined by spaces are the words of the line |
| `Text.FieldsConcat` | pkg/carbon_c_relay/carbon_c_relay.go:94-103 | the words around a space are those before it and those after it, and an empty text has none |
| `CarbonCRelay.AddressShape` | pkg/carbon_c_relay/carbon_c_relay.go:52-58 | every endpoint has exactly one colon and no equals sign, whatever the token |
| `CarbonCRelay.AddressIsAsWrittenIff` | pkg/carbon_c_relay/carbon_c_relay.go:52-58 | an endpoint is what stands before the instance, with the default port if there is none, exactly when that has at most one colon |
| `CarbonCRelay.AddressIsCut` | pkg/carbon_c_relay/carbon_c_relay.go:52-58 | an address ends at the second colon or at the instance, whatever follows; without a colon before that it has port 2003 |
| `CarbonCRelay.KeywordsAreRead` | pkg/carbon_c_relay/carbon_c_relay.go:15-50 | by name: nine words are skipped, four are skipped with the word after them, three end the endpoints, and `file` drops the cluster |
| `CarbonCRelay.EndpointWordIff` | pkg/carbon_c_relay/carbon_c_relay.go:15-60 | a word is an endpoint exactly if it is none of these seventeen, by name |
| `CarbonCRelay.HeaderOpensIff` | pkg/carbon_c_relay/carbon_c_relay.go:93-122 | outside a cluster a line opens one exactly if it starts with `cluster` and a space, whatever follows; any other changes nothing |
| `CarbonCRelay.EndpointsAreAddresses` | pkg/carbon_c_relay/carbon_c_relay.go:30-61 | every endpoint is the address of one of the cluster's words |
| `CarbonCRelay.EndpointsReparse` | pkg/carbon_c_relay/carbon_c_relay.go:30-61 | the endpoints read as the words of a cluster give the same endpoints |
| `CarbonCRelay.ParsedAreProper` | pkg/carbon_c_relay/carbon_c_relay.go:71-136 | whatever the file holds, every cluster found has endpoints, all of them well-formed and without error, and is required exactly if its name is |
| `CarbonCRelay.ClusterEndpoints` | pkg/carbon_c_relay/carbon_c_relay.go:21-68 | the loop ends, and its result (a cluster, an error, both or neither) is the one of the endpoint scanner |
| `CarbonCRelay.ReadString` | pkg/carbon_c_relay/carbon_c_relay.go:90 | a line with its end and the rest, or the unfinished last line |
| `CarbonCRelay.CutAndTrim` | pkg/carbon_c_relay/carbon_c_relay.go:91-92 | cutting the comment before the line end leaves what cutting it from the bare line leaves |
| `CarbonCRelay.AppendWords` | pkg/carbon_c_relay/carbon_c_relay.go:94-103 | the words of the line up to a semicolon, and whether there is one |
| `CarbonCRelay.AddCluster` | pkg/carbon_c_relay/carbon_c_relay.go:105-111 | at most one new cluster after the old ones, and it is a new object |
| `CarbonCRelay.ReadLine` | pkg/carbon_c_relay/carbon_c_relay.go:93-122 | one line is one step of the line reader |
| `CarbonCRelay.Clusters` | pkg/carbon_c_relay/carbon_c_relay.go:71-136 | the clusters of the file as new, distinct objects, in order |
| `ConfigLayout.CommentsDoNotMatter` | pkg/carbon_c_relay/carbon_c_relay.go:89-126 | a comment added to any line of any file changes nothing |
| `ConfigLayout.BlankLinesDoNotMatter` | pkg/carbon_c_relay/carbon_c_relay.go:89-126 | nor do lines without words, anywhere |
| `ConfigLayout.OutsideLinesDoNotMatter` | pkg/carbon_c_relay/carbon_c_relay.go:93-122 | nor do other lines outside an open cluster that do not start with `cluster ` |
| `ConfigLayout.LineBreaksDoNotMatter` | pkg/carbon_c_relay/carbon_c_relay.go:93-103 | nor does breaking the words of an open cluster, up to and including the semicolon, over other lines |
| `ConfigRoundTrip.AddressOfTarget` | pkg/carbon_c_relay/carbon_c_relay.go:52-58 | host, port and instance as written yield host and port, or the default port |
| `ConfigRoundTrip.ScanItems` | pkg/carbon_c_relay/carbon_c_relay.go:30-61 | among items the endpoints before the first clause are found, and what follows the items is read if there is no clause |
| `ConfigRoundTrip.FileDropsClusterIff` | pkg/carbon_c_relay/carbon_c_relay.go:31-50 | the word `file` drops the cluster if no clause precedes it; after a clause it changes nothing, and the cluster is dropped only if it has no endpoint before the clause |
| `ConfigRoundTrip.DeclIsReadIff` | pkg/carbon_c_relay/carbon_c_relay.go:21-68 | a declaration yields the cluster it means exactly when it has two words besides its name, an endpoint, and none after a clause |
| `ConfigRoundTrip.DeclIsReadWithIff` | pkg/carbon_c_relay/carbon_c_relay.go:21-68 | the same for a declaration that other words follow: they may make up for a missing word but hold no endpoint, unless after a clause |
| `ConfigRoundTrip.SectionsAreRead` | pkg/carbon_c_relay/carbon_c_relay.go:71-136 | every file of declarations, with any other lines between them, is read as its sections: after a semicolon on a cluster line the lines up to the next semicolon, and a whole declaration if there is none, belong to the cluster |
| `ConfigRoundTrip.SeparatedAreSections` | pkg/carbon_c_relay/carbon_c_relay.go:93-121 | if after every semicolon on a cluster line another one stands before the next declaration, each declaration is a section, with the words up to that semicolon |
| `ConfigRoundTrip.LayoutIsForgotten` | pkg/carbon_c_relay/carbon_c_relay.go:71-136 | if so and there are no such words, the result depends on the declarations only |
| `ConfigRoundTrip.RoundTripIff` | pkg/carbon_c_relay/carbon_c_relay.go:71-136 | every list of declarations, in every layout and with any other lines between them, reads back as the clusters it means, in order, exactly when they are so separated and each is readable with the words it is given |
| `ConfigRoundTrip.PrintThenParseIff` | pkg/carbon_c_relay/carbon_c_relay.go:71-136 | the same for a printer |
| `ConfigRoundTrip.OneLinersArePaired` | pkg/carbon_c_relay/carbon_c_relay.go:104-121 | written on one line each, every other declaration starts a cluster, whose words are its own and those of the next one |
| `ConfigRoundTrip.WordsAfterInlineAreTaken` | pkg/carbon_c_relay/carbon_c_relay.go:93-121 | whatever words follow a declaration with its semicolon on the cluster line, up to the next semicolon, are taken for words of its cluster |
| `ConfigRoundTrip.OneLinersAreReadIff` | pkg/carbon_c_relay/carbon_c_relay.go:104-121 | declarations on one line each read back exactly when there is at most one, and it is readable |
| `MetricQueue.StepKeepsInv` | cmd/relaymon/metrics.go:41-113 | every step of `Put` and of the goroutine keeps the invariant |
| `MetricQueue.EveryMetricIsInOnePlace` | cmd/relaymon/metrics.go:41-113 | in every interleaving every metric that was offered is delivered, in the batch, waiting or dropped, in exactly one place and once |
| `MetricQueue.OrderIsKept` | cmd/relaymon/metrics.go:41-113 | what is delivered, in the batch and waiting is in the order of the offers; what waits is the newest, without a gap; what is dropped is older |
| `MetricQueue.BatchesAreProper` | cmd/relaymon/metrics.go:64-112 | no batch that was or is about to be sent is empty or longer than the batch size |
| `MetricQueue.ShortBatchMeansEmptyQueue` | cmd/relaymon/metrics.go:95-111 | in every interleaving a batch that is not full is sent only if two calls of Get found the queue empty when the batch already held all its metrics |
| `MetricQueue.FailureIsRemembered` | cmd/relaymon/metrics.go:66-94 | after every run `failed` is set exactly if an attempt to send has failed and none has worked since |
| `MetricQueue.RejectionCostsTwo` | cmd/relaymon/metrics.go:46-51 | the second try succeeds if the queue can hold anything; a rejection costs at most two metrics |
| `MetricQueue.NothingIsLost` | cmd/relaymon/metrics.go:41-113 | without rejections delivered, batch and waiting metrics are all metrics in order |
| `MetricQueue.NoTwoRejectionsIff` | cmd/relaymon/metrics.go:46-51 | no two metrics in a row are rejected, in any interleaving, exactly when the queue can hold two |
| `MetricQueue.RejectedTwice` | cmd/relaymon/metrics.go:46-51 | a run with two rejections in a row for a smaller queue |
| `MetricQueue.WorkingServerDrainsQueue` | cmd/relaymon/metrics.go:64-112 | from every reachable state, if sending works the goroutine delivers all it has and all that waits, in order, within four steps per metric and three |
| `MetricQueue.GraphiteQueue.constructor` | cmd/relaymon/metrics.go:20-38 | an empty queue, with batches of at least one metric, whose goroutine is not running |
| `MetricQueue.GraphiteQueue.Run` | cmd/relaymon/metrics.go:55-63 | starts the goroutine if there is an address to send to, else does nothing |
| `MetricQueue.GraphiteQueue.StopRunning` | cmd/relaymon/metrics.go:117-119 | the goroutine makes no further pass |
| `MetricQueue.GraphiteQueue.Put` | cmd/relaymon/metrics.go:41-52 | makes the steps of an offer: the queue is the old one, without its two oldest metrics if it was full, and the metric at its end; without an address nothing |
| `MetricQueue.GraphiteQueue.Send` | cmd/relaymon/metrics.go:65-94 | the batch is sent and emptied, or kept on an error |
| `MetricQueue.GraphiteQueue.TakeMore` | cmd/relaymon/metrics.go:95-111 | takes one metric, or finds twice that there is none |
| `MetricQueue.GraphiteQueue.Pass` | cmd/relaymon/metrics.go:64-112 | one pass of the goroutine's loop makes the steps of the protocol; which batch was sent, and the batch and the queue after it |

## Left out

- Running `systemctl` and `ip`, reading /proc, dialling, writing and time-outs: each is a value that a step gets from outside; a probe is one error or none.
- The text of the `ip` command lines, and how a mask is written in them: a command is an action and an address.
- The failure command (cmd/relaymon/main.go:314-322): its result is only logged.
- Flags, YAML, signals, logging of states, `-evict`, `-waitip`, sleeping, and `SetNotify`.
- pkg/neterror: how an error's text is made.
- The metrics that the main loop puts, and their time stamps: the queue is modelled for any metrics.
- The queue's and the metrics client's own code: an atomic bounded queue, and an outcome for each attempt to send. Whether the client is still connected after an error is part of the next outcome.
- Whether goroutines and the sender are ever scheduled: the model says what is possible and what is never wrong, and that a working server drains the queue. Metrics that wait when the monitor stops are lost.
- `MetricQueue.GraphiteQueue.Put`: runs as a whole here; its interleaving with the goroutine is in the steps of the protocol.
- `CarbonNetwork.Cluster.Check`: gets the order of arrival as a parameter; that the interleavings yield exactly these orders, and this result, is `FanIn.ResultIsOrderIndependent` and `FanIn.EveryOrderHappens`.
- `Control.StatusAgreesWithInterface`: needs that no operation fails; for runs with failures the exact condition is `Control.ErrorMeansAbsentIff`.
- `NetConf.Interface.IpExec`: says what a command does and how it ends, not the words of the command line, the scope argument, which is never set, and the time-out, which is one way to fail.
- `CarbonNetwork.NetworkChecker.constructor`: asks for distinct cluster objects, as the configuration reader makes them; a list that repeats one would compare its errors twice in a round.
- `Monitor.RelayMonitor.WhatRunsTell`: is about an object whose parts nobody else changes; `Monitor.RelayMonitor.RunIteration` also says what one iteration does after such a change.
- A second `Run` after `Stop`: the goroutine is started once.
- A read error in the middle of the configuration file: it ends the file like its end.
- Slices are sequences held in fields; that `Metrics` hands out the checker's own slice is not modelled.
- The order in which log lines are written, and which fields they have.
- Byte strings: text is a sequence of characters; all separators are ASCII.
