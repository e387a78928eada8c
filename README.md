# Verified model of the Webmin/Virtualmin enterprise tooling core

This project is a Dafny model of the sequential core of the Webmin/Virtualmin enterprise add-ons. Each module below models one source file, and the proofs establish properties of that model:

- **Dashboard** (`dashboard.dfy`): the optimization dashboard's browser logic.
  - The 50-point performance chart window.
  - Threshold colouring of the cpu, memory and disk indicators.
  - The real-time event stream and its reconnect timer.
  - Recommendation cards and the implement, dismiss and manual-optimization actions.
- **Cluster** (`cluster.dfy`): the visual cluster manager's server, connection and cluster tables and its statistics.
- **Blockchain** (`blockchain.dfy`): the SIEM's append-only log chain.
  - Proof-of-work mining.
  - The validity check.
  - Log search.
- **Incremental** (`incremental.dfy`): the change analysis between a backup snapshot and a directory scan, and the list of files an incremental backup copies.
- **Restore** (`restore.dfy`): the path filter that chooses which snapshot entries a restore writes, including a model of path normalisation.
- **StatusReports** (`status_reports.dfy`): IPv4 validation and the alert thresholds of the status report generator.
- **Recommendations** (`recommendations.dfy`): the proactive recommendation engine.
  - The threshold analyzers.
  - The confidence filter, the stable priority sort and the cap.
  - Stamping, dismissal and the auto-implementation gate.
- **LoadBalancer** (`load_balancer.dfy`): the global multi-cloud load balancer.
  - Health sweeps.
  - Failover to an alternative backend.
  - Recovery.
  - Load rebalancing.
- **Inventory** (`inventory.dfy`): the Ansible inventory built from Terraform outputs.
- **ConfigOptimizer** (`config_optimizer.dfy`): the Apache, MySQL, PHP and kernel tuning tables.
- **MfaRbac** (`mfa_rbac.dfy`): the security service.
  - Login lockout.
  - Role permissions with the `*` wildcard.
  - Second-factor checks with single-use backup codes.
- **Common** (`common.dfy`): shared definitions.
  - `Option`.
  - Decimal rendering and parsing.
  - Splitting on a separator.
  - A generic filter.

**How state is modelled.** Objects that are updated in place are classes whose fields hold the tables as sequences, maps and sets:

- `PerformanceChart` and `DashboardManager`;
- `ClusterManager`;
- `Chain`;
- `Engine`;
- `GlobalLoadBalancer`;
- `MfaRbacSystem`.

Each state-changing method states its complete new state in terms of a specification function, and lemmas prove what the source promises about that function. Code that only computes is modelled as functions:

- the analyzers;
- the tuning tables;
- the permission test;
- path normalisation.

Loops in the source are `while` loops with invariants.

**What enters as parameters.** The environment the source consults enters as parameters:

- the clock (`datetime.now`, `time.time`, `toLocaleTimeString`);
- network and provider probes (`_validate_server`, `_measure_latency`, `_check_instance_health`);
- SHA-256 block hashing;
- password-hash checking;
- backup-code hashing;
- TOTP verification;
- HTTP responses;
- the user's confirmation.

**Behaviours of the code the model keeps as they are:**

- A dashboard panel update applies whichever `fetch` response arrives, with no check for stale replies.
- Every stream error schedules one more reconnect without closing the previous stream, so several reconnects can be pending.
- `_implement_single_recommendation` always reports success. Only a record without a confidence stops the implementation loop, through the `KeyError` it raises.

**Three defects in the code are modelled both ways (see Findings).** A predicate or function models the code as written, and a lemma exhibits the defect. The operations then use the corrected rule, so on these inputs they do what the code evidently intends, not what it does:

- The load balancer's failover condition never fires as written. `GlobalLoadBalancer.PerformHealthChecks` fails a backend over at its threshold-th consecutive failure.
- The restore filter as written leaves out every entry below the root when the root directory is restored with subdirectories; only "/" itself is kept. `FilterFilesForRestore` restores the whole tree below "/".
- As written, a login lock never expires, because the stored lock time comes back as text and comparing it with the clock raises. `MfaRbacSystem.AuthenticateUser` compares lock times as numbers, so a lock expires after the lockout duration.

## Model

| member | source | states |
|---|---|---|
| `Common.DigitChar` | Webmin-y-Virtualmin--7a5b69265dabb75e98929f6bcaf64b5924996415/scripts/generate_status_reports.py:658 | a digit's character is a digit whose value is that digit |
| `Common.NatToString` | Webmin-y-Virtualmin--7a5b69265dabb75e98929f6bcaf64b5924996415/scripts/generate_status_reports.py:658 | a rendered number is a non-empty digit string |
| `Common.DecimalValueOfNatToString` | Webmin-y-Virtualmin--7a5b69265dabb75e98929f6bcaf64b5924996415/scripts/generate_status_reports.py:658 | reading a rendered number gives it back |
| `Common.Split` | Webmin-y-Virtualmin--7a5b69265dabb75e98929f6bcaf64b5924996415/scripts/generate_status_reports.py:653 | splitting yields at least one part and no part contains the separator |
| `Common.JoinSplit` | Webmin-y-Virtualmin--7a5b69265dabb75e98929f6bcaf64b5924996415/scripts/generate_status_reports.py:653 | joining the parts of a split gives back the string |
| `Common.SplitJoin` | Webmin-y-Virtualmin--7a5b69265dabb75e98929f6bcaf64b5924996415/scripts/generate_status_reports.py:653 | splitting a join of separator-free parts gives back the parts |
| `Common.SplitNoSep` | Webmin-y-Virtualmin--7a5b69265dabb75e98929f6bcaf64b5924996415/scripts/generate_status_reports.py:653 | a string without the separator splits into itself alone |
| `Common.SplitPrefix` | Webmin-y-Virtualmin--7a5b69265dabb75e98929f6bcaf64b5924996415/scripts/generate_status_reports.py:653 | a separator-free word before a separator becomes the head of the first part |
| `Common.Filter` | Webmin-y-Virtualmin--7a5b69265dabb75e98929f6bcaf64b5924996415/unlimited_cluster_fossflow_manager.py:114-176 | filtering never lengthens the list and keeps exactly the elements that pass |
| `Common.FilterShrinks` | Webmin-y-Virtualmin--7a5b69265dabb75e98929f6bcaf64b5924996415/unlimited_cluster_fossflow_manager.py:171-183 | a filter shortens the list iff some element fails, and otherwise returns it unchanged |
| `Common.FilterAppend` | Webmin-y-Virtualmin--7a5b69265dabb75e98929f6bcaf64b5924996415/unlimited_cluster_fossflow_manager.py:114-117 | filtering distributes over concatenation |
| `Dashboard.LastNShape` | Webmin-y-Virtualmin--7a5b69265dabb75e98929f6bcaf64b5924996415/ai_optimization_system/dashboard/static/js/dashboard.js:131-153 | the window keeps min(n, length) entries and they are the last ones of the history, in arrival order |
| `Dashboard.LastNAt` | Webmin-y-Virtualmin--7a5b69265dabb75e98929f6bcaf64b5924996415/ai_optimization_system/dashboard/static/js/dashboard.js:7-153 | entry i of the 50-point window is entry (length - window + i) of the full history |
| `Dashboard.LastNPush` | Webmin-y-Virtualmin--7a5b69265dabb75e98929f6bcaf64b5924996415/ai_optimization_system/dashboard/static/js/dashboard.js:131-153 | push-then-shift on the window equals taking the last 50 of the history extended by the new value |
| `Dashboard.Percent` | Webmin-y-Virtualmin--7a5b69265dabb75e98929f6bcaf64b5924996415/ai_optimization_system/dashboard/static/js/dashboard.js:144-146 | a missing cpu, memory or disk percent is pushed as 0; a present one is pushed unchanged |
| `Dashboard.ChannelHistory` | Webmin-y-Virtualmin--7a5b69265dabb75e98929f6bcaf64b5924996415/ai_optimization_system/dashboard/static/js/dashboard.js:144-146 | one plotted value per sample |
| `Dashboard.ChannelHistoryPush` | Webmin-y-Virtualmin--7a5b69265dabb75e98929f6bcaf64b5924996415/ai_optimization_system/dashboard/static/js/dashboard.js:144-146 | appending a sample appends exactly its plotted value |
| `Dashboard.ClassifyIff` | Webmin-y-Virtualmin--7a5b69265dabb75e98929f6bcaf64b5924996415/ai_optimization_system/dashboard/static/js/dashboard.js:165-177 | critical iff value ≥ critical cutoff; warning iff warning ≤ value < critical; no class otherwise |
| `Dashboard.ClassifyMonotone` | Webmin-y-Virtualmin--7a5b69265dabb75e98929f6bcaf64b5924996415/ai_optimization_system/dashboard/static/js/dashboard.js:165-177 | with warning ≤ critical, a larger value never gets a milder tier |
| `Dashboard.RecolorSpec` | Webmin-y-Virtualmin--7a5b69265dabb75e98929f6bcaf64b5924996415/ai_optimization_system/dashboard/static/js/dashboard.js:165-177 | old warning/danger/critical classes are removed first, the tier's classes added; other elements and a missing element are untouched |
| `Dashboard.IndicatorsSpec` | Webmin-y-Virtualmin--7a5b69265dabb75e98929f6bcaf64b5924996415/ai_optimization_system/dashboard/static/js/dashboard.js:158-163 | cpu, memory and disk indicators recoloured with cutoffs 80/95, 85/95 and 90/98; nothing else changes |
| `Dashboard.PriorityStyleIff` | Webmin-y-Virtualmin--7a5b69265dabb75e98929f6bcaf64b5924996415/ai_optimization_system/dashboard/static/js/dashboard.js:238-244 | priority 4 is high/danger, 3 is medium/warning, anything else (missing included) is low/success |
| `Dashboard.RenderRecommendations` | Webmin-y-Virtualmin--7a5b69265dabb75e98929f6bcaf64b5924996415/ai_optimization_system/dashboard/static/js/dashboard.js:230-255 | an empty list renders the placeholder; otherwise one card per recommendation, in order, with the priority's card class and badge colour, its id and description, and its title or "Recomendación" when the title is empty |
| `Dashboard.PushShift` | Webmin-y-Virtualmin--7a5b69265dabb75e98929f6bcaf64b5924996415/ai_optimization_system/dashboard/static/js/dashboard.js:131-153 | push then shift-if-over-50 yields the bounded window whose last entry is the new value |
| `Dashboard.PerformanceChart.constructor` | Webmin-y-Virtualmin--7a5b69265dabb75e98929f6bcaf64b5924996415/ai_optimization_system/dashboard/static/js/dashboard.js:24-73 | the chart starts with empty labels and datasets |
| `Dashboard.PerformanceChart.AddChartData` | Webmin-y-Virtualmin--7a5b69265dabb75e98929f6bcaf64b5924996415/ai_optimization_system/dashboard/static/js/dashboard.js:131-156 | labels and the three datasets each get the bounded push of the new label and percent values |
| `Dashboard.ChartWindowLengths` | Webmin-y-Virtualmin--7a5b69265dabb75e98929f6bcaf64b5924996415/ai_optimization_system/dashboard/static/js/dashboard.js:131-153 | after n pushes the labels and each dataset have length min(n, 50) |
| `Dashboard.ChartWindowContents` | Webmin-y-Virtualmin--7a5b69265dabb75e98929f6bcaf64b5924996415/ai_optimization_system/dashboard/static/js/dashboard.js:131-153 | the i-th plotted label and values are those of the matching most recent sample |
| `Dashboard.DashboardManager.constructor` | Webmin-y-Virtualmin--7a5b69265dabb75e98929f6bcaf64b5924996415/ai_optimization_system/dashboard/static/js/dashboard.js:4-22 | the page opens one event stream, loads recommendations once, registers the `updateDashboard` refresh repeating every 5000 ms, and has no one-shot timers, notifications or requests |
| `Dashboard.DashboardManager.UpdateIndicatorColor` | Webmin-y-Virtualmin--7a5b69265dabb75e98929f6bcaf64b5924996415/ai_optimization_system/dashboard/static/js/dashboard.js:165-177 | the element's classes become those of its tier; nothing else changes |
| `Dashboard.DashboardManager.UpdateVisualIndicators` | Webmin-y-Virtualmin--7a5b69265dabb75e98929f6bcaf64b5924996415/ai_optimization_system/dashboard/static/js/dashboard.js:158-163 | all three indicators recoloured from the sample; nothing else changes |
| `Dashboard.DashboardManager.OnStreamMessage` | Webmin-y-Virtualmin--7a5b69265dabb75e98929f6bcaf64b5924996415/ai_optimization_system/dashboard/static/js/dashboard.js:80-104 | a malformed message is dropped and changes nothing, with no reconnect; a good one updates chart and indicators |
| `Dashboard.DashboardManager.OnStreamError` | Webmin-y-Virtualmin--7a5b69265dabb75e98929f6bcaf64b5924996415/ai_optimization_system/dashboard/static/js/dashboard.js:89-92 | an error schedules one reconnect after 5000 ms and changes nothing else |
| `Dashboard.DashboardManager.ConnectRealTimeUpdates` | Webmin-y-Virtualmin--7a5b69265dabb75e98929f6bcaf64b5924996415/ai_optimization_system/dashboard/static/js/dashboard.js:75-78 | opens one more event stream |
| `Dashboard.DashboardManager.ShowNotification` | Webmin-y-Virtualmin--7a5b69265dabb75e98929f6bcaf64b5924996415/ai_optimization_system/dashboard/static/js/dashboard.js:405-422 | appends the notice and schedules its removal after 5000 ms |
| `Dashboard.DashboardManager.PostRecommendationAction` | Webmin-y-Virtualmin--7a5b69265dabb75e98929f6bcaf64b5924996415/ai_optimization_system/dashboard/static/js/dashboard.js:363-403 | one POST is recorded; success reloads the list once, failure or a network error only notifies |
| `Dashboard.DashboardManager.ImplementRecommendation` | Webmin-y-Virtualmin--7a5b69265dabb75e98929f6bcaf64b5924996415/ai_optimization_system/dashboard/static/js/dashboard.js:363-382 | as above, with action implement |
| `Dashboard.DashboardManager.DismissRecommendation` | Webmin-y-Virtualmin--7a5b69265dabb75e98929f6bcaf64b5924996415/ai_optimization_system/dashboard/static/js/dashboard.js:384-403 | as above, with action dismiss |
| `Dashboard.DashboardManager.ManualOptimization` | Webmin-y-Virtualmin--7a5b69265dabb75e98929f6bcaf64b5924996415/ai_optimization_system/dashboard/static/js/dashboard.js:325-346 | nothing happens without confirmation; with it one POST for all services, a success notice plus a reload after 2000 ms on success, an error notice otherwise |
| `Dashboard.ReloadOnlyOnSuccess` | Webmin-y-Virtualmin--7a5b69265dabb75e98929f6bcaf64b5924996415/ai_optimization_system/dashboard/static/js/dashboard.js:325-346 | a page reload is scheduled exactly when the run was confirmed and succeeded |
| `Dashboard.CountReloadsAppend` | Webmin-y-Virtualmin--7a5b69265dabb75e98929f6bcaf64b5924996415/ai_optimization_system/dashboard/static/js/dashboard.js:336-339 | reload counting is additive over timer lists |
| `Cluster.ParseServerTypeRoundTrip` | Webmin-y-Virtualmin--7a5b69265dabb75e98929f6bcaf64b5924996415/unlimited_cluster_fossflow_manager.py:43-68 | the nine supported type names parse to their type and only those names do |
| `Cluster.NewServer` | Webmin-y-Virtualmin--7a5b69265dabb75e98929f6bcaf64b5924996415/unlimited_cluster_fossflow_manager.py:78-94 | a new server is active, keeps its id and type, and starts with zero metrics |
| `Cluster.FilterKeepsNoDuplicateEdges` | Webmin-y-Virtualmin--7a5b69265dabb75e98929f6bcaf64b5924996415/unlimited_cluster_fossflow_manager.py:114-176 | removing connections never introduces a duplicate link |
| `Cluster.SumValuesRemove` | Webmin-y-Virtualmin--7a5b69265dabb75e98929f6bcaf64b5924996415/unlimited_cluster_fossflow_manager.py:1063-1070 | a tally's total splits into one key's count plus the rest |
| `Cluster.SumValuesBump` | Webmin-y-Virtualmin--7a5b69265dabb75e98929f6bcaf64b5924996415/unlimited_cluster_fossflow_manager.py:1066-1070 | incrementing one key's count raises the tally's total by one |
| `Cluster.TallyStep` | Webmin-y-Virtualmin--7a5b69265dabb75e98929f6bcaf64b5924996415/unlimited_cluster_fossflow_manager.py:1063-1070 | counting one more server keeps each key's count equal to the number of counted servers with that key |
| `Cluster.CountedEmpty` | Webmin-y-Virtualmin--7a5b69265dabb75e98929f6bcaf64b5924996415/unlimited_cluster_fossflow_manager.py:1050-1060 | the empty tallies count the empty set of servers |
| `Cluster.CountedStep` | Webmin-y-Virtualmin--7a5b69265dabb75e98929f6bcaf64b5924996415/unlimited_cluster_fossflow_manager.py:1063-1074 | one loop step keeps the type, region and active tallies exact |
| `Cluster.CountServers` | Webmin-y-Virtualmin--7a5b69265dabb75e98929f6bcaf64b5924996415/unlimited_cluster_fossflow_manager.py:1063-1074 | the loop's tallies count exactly the servers of each type, of each region, and the active ones |
| `Cluster.FirstWeb` | Webmin-y-Virtualmin--7a5b69265dabb75e98929f6bcaf64b5924996415/unlimited_cluster_fossflow_manager.py:209-215 | the cluster's load balancer is the first web server listed, and there is none iff no listed server is web |
| `Cluster.InternalSinceTrans` | Webmin-y-Virtualmin--7a5b69265dabb75e98929f6bcaf64b5924996415/unlimited_cluster_fossflow_manager.py:219-222 | connections added in two stages are all active cluster-internal links between members |
| `Cluster.PairsLinkedNext` | Webmin-y-Virtualmin--7a5b69265dabb75e98929f6bcaf64b5924996415/unlimited_cluster_fossflow_manager.py:220-222 | after row i of the nested loop, every pair of members up to row i+1 is linked |
| `Cluster.ConnectStep` | Webmin-y-Virtualmin--7a5b69265dabb75e98929f6bcaf64b5924996415/unlimited_cluster_fossflow_manager.py:220-222 | one inner-loop step keeps the added links internal and extends the row's linked pairs |
| `Cluster.ClusterManager.constructor` | Webmin-y-Virtualmin--7a5b69265dabb75e98929f6bcaf64b5924996415/unlimited_cluster_fossflow_manager.py:34-37 | no servers, connections or clusters |
| `Cluster.ClusterManager.AddServer` | Webmin-y-Virtualmin--7a5b69265dabb75e98929f6bcaf64b5924996415/unlimited_cluster_fossflow_manager.py:55-104 | succeeds iff the id is new, the type is supported and the server is reachable or simulated; then exactly that server is added |
| `Cluster.ClusterManager.RemoveServer` | Webmin-y-Virtualmin--7a5b69265dabb75e98929f6bcaf64b5924996415/unlimited_cluster_fossflow_manager.py:106-125 | succeeds iff the id exists; then the server and every connection touching it are removed |
| `Cluster.ClusterManager.ConnectServers` | Webmin-y-Virtualmin--7a5b69265dabb75e98929f6bcaf64b5924996415/unlimited_cluster_fossflow_manager.py:127-166 | succeeds iff both servers exist and are not already linked in either direction; then one active connection is appended |
| `Cluster.ClusterManager.DisconnectServers` | Webmin-y-Virtualmin--7a5b69265dabb75e98929f6bcaf64b5924996415/unlimited_cluster_fossflow_manager.py:168-187 | every link between the two servers in either direction is removed; succeeds iff one existed |
| `Cluster.ClusterManager.CreateCluster` | Webmin-y-Virtualmin--7a5b69265dabb75e98929f6bcaf64b5924996415/unlimited_cluster_fossflow_manager.py:189-229 | succeeds iff every listed server exists; then the cluster is recorded with its load balancer and every pair of members is linked |
| `Cluster.ClusterManager.ConnectMembers` | Webmin-y-Virtualmin--7a5b69265dabb75e98929f6bcaf64b5924996415/unlimited_cluster_fossflow_manager.py:219-222 | after the nested loop every pair of members is linked and only internal links were added |
| `Cluster.ClusterManager.ConnectRow` | Webmin-y-Virtualmin--7a5b69265dabb75e98929f6bcaf64b5924996415/unlimited_cluster_fossflow_manager.py:221-222 | the inner loop links member i to every later member |
| `Cluster.ClusterManager.GetClusterStats` | Webmin-y-Virtualmin--7a5b69265dabb75e98929f6bcaf64b5924996415/unlimited_cluster_fossflow_manager.py:1048-1086 | totals are the sizes of the three tables and the tallies count servers by type, region and active status |
| `Cluster.LinkedGrows` | Webmin-y-Virtualmin--7a5b69265dabb75e98929f6bcaf64b5924996415/unlimited_cluster_fossflow_manager.py:136-160 | appending connections never unlinks a pair |
| `Cluster.StatsConsistent` | Webmin-y-Virtualmin--7a5b69265dabb75e98929f6bcaf64b5924996415/unlimited_cluster_fossflow_manager.py:1050-1074 | the per-type and per-region counts each sum to the server total and active servers never exceed it |
| `Cluster.DropTouchingSpec` | Webmin-y-Virtualmin--7a5b69265dabb75e98929f6bcaf64b5924996415/unlimited_cluster_fossflow_manager.py:114-117 | exactly the connections not touching the removed server are kept |
| `Common.Repeat` | Webmin-y-Virtualmin--7a5b69265dabb75e98929f6bcaf64b5924996415/siem/blockchain.py:35 | a repetition of one character has the requested length and holds only that character |
| `Blockchain.MeetsTargetIff` | Webmin-y-Virtualmin--7a5b69265dabb75e98929f6bcaf64b5924996415/siem/blockchain.py:36-119 | a hash meets the target iff it has at least `difficulty` characters and they are all '0' |
| `Blockchain.MineBlock` | Webmin-y-Virtualmin--7a5b69265dabb75e98929f6bcaf64b5924996415/siem/blockchain.py:33-39 | only the nonce changes and never decreases; the hash is the header's hash; every skipped nonce misses the target; success iff the final hash meets it |
| `Blockchain.AppendMinedKeepsValid` | Webmin-y-Virtualmin--7a5b69265dabb75e98929f6bcaf64b5924996415/siem/blockchain.py:89-122 | appending a block keeps the chain valid iff its stored hash is its header's hash, it points at the last hash and it meets the target |
| `Blockchain.TamperedBlockInvalidates` | Webmin-y-Virtualmin--7a5b69265dabb75e98929f6bcaf64b5924996415/siem/blockchain.py:110-112 | a non-genesis block whose stored hash differs from its header's hash makes the chain invalid |
| `Blockchain.BlockHits` | Webmin-y-Virtualmin--7a5b69265dabb75e98929f6bcaf64b5924996415/siem/blockchain.py:127-140 | a block yields at most one hit per log |
| `Blockchain.BlockHitsSpec` | Webmin-y-Virtualmin--7a5b69265dabb75e98929f6bcaf64b5924996415/siem/blockchain.py:127-140 | a block's hits are exactly its logs that match every filter, tagged with the block's index and hash |
| `Blockchain.SearchUnfilteredCount` | Webmin-y-Virtualmin--7a5b69265dabb75e98929f6bcaf64b5924996415/siem/blockchain.py:130-140 | with no filters every log of every block is returned |
| `Blockchain.BlockHitsAll` | Webmin-y-Virtualmin--7a5b69265dabb75e98929f6bcaf64b5924996415/siem/blockchain.py:130-140 | with no filters a block yields one hit per log |
| `Blockchain.SearchSpec` | Webmin-y-Virtualmin--7a5b69265dabb75e98929f6bcaf64b5924996415/siem/blockchain.py:124-141 | every hit matches the filters and comes from a block of the chain, and every matching log of every block is found |
| `Blockchain.LogMatches` | Webmin-y-Virtualmin--7a5b69265dabb75e98929f6bcaf64b5924996415/siem/blockchain.py:129-134 | the loop accepts a log iff every filter key is present with an equal value |
| `Blockchain.Chain.constructor` | Webmin-y-Virtualmin--7a5b69265dabb75e98929f6bcaf64b5924996415/siem/blockchain.py:66-77 | the chain is the single genesis block with index 0, no logs and previous hash "0", and is valid; nothing is pending |
| `Blockchain.Chain.MinePendingLogs` | Webmin-y-Virtualmin--7a5b69265dabb75e98929f6bcaf64b5924996415/siem/blockchain.py:89-102 | nothing pending means nothing mined; with logs pending, nothing is mined only when no nonce up to the fuel meets the target; a mined block is the next header (index, time, pending logs, last hash) at the first nonce that meets the target, the pending list is emptied and validity is preserved |
| `Blockchain.Chain.AddLog` | Webmin-y-Virtualmin--7a5b69265dabb75e98929f6bcaf64b5924996415/siem/blockchain.py:83-87 | the log is queued; a block is mined only once the queue reaches the block size, and then always unless no nonce up to the fuel meets the target; the block holds the queue and validity is preserved |
| `Blockchain.Chain.IsChainValid` | Webmin-y-Virtualmin--7a5b69265dabb75e98929f6bcaf64b5924996415/siem/blockchain.py:104-122 | result is exactly the validity predicate: stored hash, link and target checked for every block after the genesis block |
| `Blockchain.Chain.SearchLogs` | Webmin-y-Virtualmin--7a5b69265dabb75e98929f6bcaf64b5924996415/siem/blockchain.py:124-141 | the nested loop returns exactly the hits of the search function |
| `Incremental.Lookup` | Webmin-y-Virtualmin--7a5b69265dabb75e98929f6bcaf64b5924996415/intelligent_backup_system/core/incremental_backup.py:341-367 | a listing lookup finds the entry with that path, and fails iff no entry has it |
| `Incremental.SimilarityBounds` | Webmin-y-Virtualmin--7a5b69265dabb75e98929f6bcaf64b5924996415/intelligent_backup_system/core/incremental_backup.py:287-314 | equal non-empty hashes give similarity 1.0, and every similarity lies in [0, 1] |
| `Incremental.AtAppend` | Webmin-y-Virtualmin--7a5b69265dabb75e98929f6bcaf64b5924996415/intelligent_backup_system/core/incremental_backup.py:359-396 | the changes for one path distribute over the two passes |
| `Incremental.OldPassAt` | Webmin-y-Virtualmin--7a5b69265dabb75e98929f6bcaf64b5924996415/intelligent_backup_system/core/incremental_backup.py:363-386 | for a path, the first pass records a modification when both sides differ in hash, a deletion when the file is gone, and nothing otherwise |
| `Incremental.ChangeForOldAt` | Webmin-y-Virtualmin--7a5b69265dabb75e98929f6bcaf64b5924996415/intelligent_backup_system/core/incremental_backup.py:363-386 | a snapshot entry contributes changes only for its own path |
| `Incremental.NewPassAt` | Webmin-y-Virtualmin--7a5b69265dabb75e98929f6bcaf64b5924996415/intelligent_backup_system/core/incremental_backup.py:389-396 | for a path, the second pass records a creation iff the file is in the scan and not among the processed snapshot paths |
| `Incremental.PathsLookup` | Webmin-y-Virtualmin--7a5b69265dabb75e98929f6bcaf64b5924996415/intelligent_backup_system/core/incremental_backup.py:360-390 | a path is processed iff the snapshot has an entry for it |
| `Incremental.ChangesPerPath` | Webmin-y-Virtualmin--7a5b69265dabb75e98929f6bcaf64b5924996415/intelligent_backup_system/core/incremental_backup.py:359-396 | each path gets exactly the reference change: modified on differing hashes, deleted, created, or none; at most one change per path |
| `Incremental.ProperCounts` | Webmin-y-Virtualmin--7a5b69265dabb75e98929f6bcaf64b5924996415/intelligent_backup_system/core/incremental_backup.py:404-418 | the created, modified and deleted counts add up to the number of changes, and the renamed count is zero |
| `Incremental.OldPassProper` | Webmin-y-Virtualmin--7a5b69265dabb75e98929f6bcaf64b5924996415/intelligent_backup_system/core/incremental_backup.py:363-386 | the first pass records only modifications and deletions |
| `Incremental.NewPassProper` | Webmin-y-Virtualmin--7a5b69265dabb75e98929f6bcaf64b5924996415/intelligent_backup_system/core/incremental_backup.py:389-396 | the second pass records only creations |
| `Incremental.ChangedFilesIsChangeCount` | Webmin-y-Virtualmin--7a5b69265dabb75e98929f6bcaf64b5924996415/intelligent_backup_system/core/incremental_backup.py:404-418 | changed_files equals the number of recorded changes, since renames are never recorded |
| `Incremental.AnalyzeChanges` | Webmin-y-Virtualmin--7a5b69265dabb75e98929f6bcaf64b5924996415/intelligent_backup_system/core/incremental_backup.py:316-420 | a missing snapshot is an error; otherwise the changes are the two passes' and the counts and size delta are tallied from them |
| `Incremental.SnapshotPass` | Webmin-y-Virtualmin--7a5b69265dabb75e98929f6bcaf64b5924996415/intelligent_backup_system/core/incremental_backup.py:359-386 | the first loop yields the first pass's changes and marks every snapshot path processed |
| `Incremental.PathsSnoc` | Webmin-y-Virtualmin--7a5b69265dabb75e98929f6bcaf64b5924996415/intelligent_backup_system/core/incremental_backup.py:364 | marking one more entry adds exactly its path |
| `Incremental.ScanPass` | Webmin-y-Virtualmin--7a5b69265dabb75e98929f6bcaf64b5924996415/intelligent_backup_system/core/incremental_backup.py:389-396 | the second loop yields exactly the creations of unprocessed scanned files |
| `Incremental.Tally` | Webmin-y-Virtualmin--7a5b69265dabb75e98929f6bcaf64b5924996415/intelligent_backup_system/core/incremental_backup.py:404-417 | the loop counts each change kind and sums the size deltas (created +new, modified new−old, deleted −old) |
| `Incremental.GetIncrementalFiles` | Webmin-y-Virtualmin--7a5b69265dabb75e98929f6bcaf64b5924996415/intelligent_backup_system/core/incremental_backup.py:422-442 | a missing snapshot is an error; otherwise the created and modified paths, in change order |
| `Incremental.FilesToBackUp` | Webmin-y-Virtualmin--7a5b69265dabb75e98929f6bcaf64b5924996415/intelligent_backup_system/core/incremental_backup.py:437-442 | the loop collects exactly the paths of the created and modified changes, in order |
| `Incremental.BackupPathsMember` | Webmin-y-Virtualmin--7a5b69265dabb75e98929f6bcaf64b5924996415/intelligent_backup_system/core/incremental_backup.py:438-440 | a path is backed up iff one of its changes is a creation or modification |
| `Incremental.IncrementalFilesSpec` | Webmin-y-Virtualmin--7a5b69265dabb75e98929f6bcaf64b5924996415/intelligent_backup_system/core/incremental_backup.py:422-442 | a path is backed up iff it is in the scan and either new or with a different hash from the snapshot's |
| `Restore.NormPath` | Webmin-y-Virtualmin--7a5b69265dabb75e98929f6bcaf64b5924996415/intelligent_backup_system/restoration/restorer.py:360-363 | normalisation never yields the empty path |
| `Restore.ResolveCanonical` | Webmin-y-Virtualmin--7a5b69265dabb75e98929f6bcaf64b5924996415/intelligent_backup_system/restoration/restorer.py:360-363 | resolving components yields a path with no empty, "." or (when rooted) leading ".." components |
| `Restore.ResolveIdentity` | Webmin-y-Virtualmin--7a5b69265dabb75e98929f6bcaf64b5924996415/intelligent_backup_system/restoration/restorer.py:360-363 | resolving an already canonical path changes nothing |
| `Restore.Empties` | Webmin-y-Virtualmin--7a5b69265dabb75e98929f6bcaf64b5924996415/intelligent_backup_system/restoration/restorer.py:360-363 | a run of n empty components |
| `Restore.ResolveSkipsEmpties` | Webmin-y-Virtualmin--7a5b69265dabb75e98929f6bcaf64b5924996415/intelligent_backup_system/restoration/restorer.py:360-363 | empty components (from repeated separators) are dropped |
| `Restore.SlashesCons` | Webmin-y-Virtualmin--7a5b69265dabb75e98929f6bcaf64b5924996415/intelligent_backup_system/restoration/restorer.py:369 | a run of separators grows by one at the front |
| `Restore.JoinEmpties` | Webmin-y-Virtualmin--7a5b69265dabb75e98929f6bcaf64b5924996415/intelligent_backup_system/restoration/restorer.py:360-363 | joining n+1 empty components gives n separators |
| `Restore.JoinLeadingEmpties` | Webmin-y-Virtualmin--7a5b69265dabb75e98929f6bcaf64b5924996415/intelligent_backup_system/restoration/restorer.py:360-363 | leading empty components become leading separators |
| `Restore.JoinHead` | Webmin-y-Virtualmin--7a5b69265dabb75e98929f6bcaf64b5924996415/intelligent_backup_system/restoration/restorer.py:360-363 | a joined path starts with its first component's first character |
| `Restore.SplitOfForm` | Webmin-y-Virtualmin--7a5b69265dabb75e98929f6bcaf64b5924996415/intelligent_backup_system/restoration/restorer.py:360-363 | splitting a normalised path gives its leading empties and its components |
| `Restore.InitialOfForm` | Webmin-y-Virtualmin--7a5b69265dabb75e98929f6bcaf64b5924996415/intelligent_backup_system/restoration/restorer.py:360-363 | a normalised path keeps its count of leading separators (at most two) |
| `Restore.ResolveOfForm` | Webmin-y-Virtualmin--7a5b69265dabb75e98929f6bcaf64b5924996415/intelligent_backup_system/restoration/restorer.py:360-363 | resolving the split of a normalised path gives back its components |
| `Restore.NormPathOfDot` | Webmin-y-Virtualmin--7a5b69265dabb75e98929f6bcaf64b5924996415/intelligent_backup_system/restoration/restorer.py:360-363 | the current directory normalises to "." |
| `Restore.InitialSlashesAtMostTwo` | Webmin-y-Virtualmin--7a5b69265dabb75e98929f6bcaf64b5924996415/intelligent_backup_system/restoration/restorer.py:360-363 | normalisation keeps at most two leading separators |
| `Restore.NormPathIdempotent` | Webmin-y-Virtualmin--7a5b69265dabb75e98929f6bcaf64b5924996415/intelligent_backup_system/restoration/restorer.py:360-363 | normalising twice is normalising once |
| `Restore.AfterLastSlash` | Webmin-y-Virtualmin--7a5b69265dabb75e98929f6bcaf64b5924996415/intelligent_backup_system/restoration/restorer.py:372 | the split point is just after the last separator, and none follows it |
| `Restore.RStripSlashes` | Webmin-y-Virtualmin--7a5b69265dabb75e98929f6bcaf64b5924996415/intelligent_backup_system/restoration/restorer.py:372 | trailing separators are stripped and only those |
| `Restore.FilterFilesForRestore` | Webmin-y-Virtualmin--7a5b69265dabb75e98929f6bcaf64b5924996415/intelligent_backup_system/restoration/restorer.py:345-375 | exactly the entries whose normalised path equals the normalised source, lies below it (with subdirectories, by the corrected subtree test that also works for the root) or has it as parent (without) are kept, with their metadata unchanged |
| `Restore.ExactMatchSelected` | Webmin-y-Virtualmin--7a5b69265dabb75e98929f6bcaf64b5924996415/intelligent_backup_system/restoration/restorer.py:366-367 | an entry whose normalised path is the source is always restored |
| `Restore.SubtreeSelection` | Webmin-y-Virtualmin--7a5b69265dabb75e98929f6bcaf64b5924996415/intelligent_backup_system/restoration/restorer.py:369-370 | with subdirectories, another entry is restored iff its path starts with the source plus a separator, so a sibling like /srv/www-old is not restored for /srv/www |
| `Restore.ChildSelection` | Webmin-y-Virtualmin--7a5b69265dabb75e98929f6bcaf64b5924996415/intelligent_backup_system/restoration/restorer.py:372-373 | without subdirectories, another entry is restored iff its parent directory is the source |
| `Restore.RootSubtreeExcluded` | Webmin-y-Virtualmin--7a5b69265dabb75e98929f6bcaf64b5924996415/intelligent_backup_system/restoration/restorer.py:369-373 | for the root source, /etc is restored without subdirectories but not with them |
| `Restore.ChildIsBelow` | Webmin-y-Virtualmin--7a5b69265dabb75e98929f6bcaf64b5924996415/intelligent_backup_system/restoration/restorer.py:369-373 | with the corrected subtree test, every direct child of the source is also below it |
| `Restore.SelectedIntendedSpec` | Webmin-y-Virtualmin--7a5b69265dabb75e98929f6bcaf64b5924996415/intelligent_backup_system/restoration/restorer.py:366-373 | the corrected selection includes, with subdirectories, all it includes without, and agrees with the code except for a root source |
| `StatusReports.AllOctetsIff` | Webmin-y-Virtualmin--7a5b69265dabb75e98929f6bcaf64b5924996415/scripts/generate_status_reports.py:657-659 | the part loop accepts iff every part is all digits with value at most 255 |
| `StatusReports.IsValidIpIff` | Webmin-y-Virtualmin--7a5b69265dabb75e98929f6bcaf64b5924996415/scripts/generate_status_reports.py:650-663 | an address is valid iff splitting on '.' gives exactly four parts, each a non-empty digit string of value at most 255 |
| `StatusReports.DigitsHaveNoDot` | Webmin-y-Virtualmin--7a5b69265dabb75e98929f6bcaf64b5924996415/scripts/generate_status_reports.py:653-658 | a digit string holds no '.' |
| `StatusReports.FormatIpIsValid` | Webmin-y-Virtualmin--7a5b69265dabb75e98929f6bcaf64b5924996415/scripts/generate_status_reports.py:650-663 | every dotted quad of octets is accepted and splits back into its four renderings |
| `StatusReports.SplitsAs` | Webmin-y-Virtualmin--7a5b69265dabb75e98929f6bcaf64b5924996415/scripts/generate_status_reports.py:653 | splitting a dotted join of dot-free parts gives back the parts |
| `StatusReports.IsValidIpRejectsPartCount` | Webmin-y-Virtualmin--7a5b69265dabb75e98929f6bcaf64b5924996415/scripts/generate_status_reports.py:654-655 | three or five parts are rejected |
| `StatusReports.IsValidIpRejectsEmptyPart` | Webmin-y-Virtualmin--7a5b69265dabb75e98929f6bcaf64b5924996415/scripts/generate_status_reports.py:658 | an empty part is rejected |
| `StatusReports.IsValidIpRejectsSign` | Webmin-y-Virtualmin--7a5b69265dabb75e98929f6bcaf64b5924996415/scripts/generate_status_reports.py:658 | a signed part is rejected |
| `StatusReports.IsValidIpRejectsLargePart` | Webmin-y-Virtualmin--7a5b69265dabb75e98929f6bcaf64b5924996415/scripts/generate_status_reports.py:658 | a part above 255 is rejected |
| `StatusReports.IsValidIpAcceptsLeadingZeros` | Webmin-y-Virtualmin--7a5b69265dabb75e98929f6bcaf64b5924996415/scripts/generate_status_reports.py:658 | a part with a leading zero is accepted |
| `StatusReports.CheckAlerts` | Webmin-y-Virtualmin--7a5b69265dabb75e98929f6bcaf64b5924996415/scripts/generate_status_reports.py:1001-1081 | the method returns exactly the alert list: cpu, memory, one per disk key over its limit in metric order, response time, expired and expiring certificates, failed logins |
| `StatusReports.AppendDiskAlerts` | Webmin-y-Virtualmin--7a5b69265dabb75e98929f6bcaf64b5924996415/scripts/generate_status_reports.py:1031-1039 | the loop appends, in metric order, one critical disk alert for each disk-usage key above the limit, after the alerts already present |
| `StatusReports.CountKindAppend` | Webmin-y-Virtualmin--7a5b69265dabb75e98929f6bcaf64b5924996415/scripts/generate_status_reports.py:1007-1081 | alerts of a kind count additively over concatenation |
| `StatusReports.DiskAlertsCount` | Webmin-y-Virtualmin--7a5b69265dabb75e98929f6bcaf64b5924996415/scripts/generate_status_reports.py:1031-1039 | disk alerts number exactly the disk-usage keys over the limit, and are of no other kind |
| `StatusReports.DiskAlertsShape` | Webmin-y-Virtualmin--7a5b69265dabb75e98929f6bcaf64b5924996415/scripts/generate_status_reports.py:1031-1039 | every disk alert is critical and its value exceeds the disk threshold |
| `StatusReports.AboveCount` | Webmin-y-Virtualmin--7a5b69265dabb75e98929f6bcaf64b5924996415/scripts/generate_status_reports.py:1011-1079 | a single-metric test raises one alert of its kind iff the metric is present and above the limit |
| `StatusReports.AlertsByKind` | Webmin-y-Virtualmin--7a5b69265dabb75e98929f6bcaf64b5924996415/scripts/generate_status_reports.py:1001-1081 | with alerts enabled, each kind is raised once iff its metric exceeds its threshold (0 for certificates, 20 for failed logins); disk once per exceeding key |
| `StatusReports.AlertSeverities` | Webmin-y-Virtualmin--7a5b69265dabb75e98929f6bcaf64b5924996415/scripts/generate_status_reports.py:1003-1055 | disk and expired-certificate alerts are critical, all others warnings, each value is above its threshold, and disabled alerting yields nothing |
| `Recommendations.Fresh` | Webmin-y-Virtualmin--7a5b69265dabb75e98929f6bcaf64b5924996415/ai_optimization_system/recommendations/proactive_recommendation_engine.py:151-320 | an analyzer's record carries its id, priority and confidence and is not yet stamped, implemented or given a status |
| `Recommendations.CpuRecommendations` | Webmin-y-Virtualmin--7a5b69265dabb75e98929f6bcaf64b5924996415/ai_optimization_system/recommendations/proactive_recommendation_engine.py:151-214 | cpu above 90 gives a high-priority automatic resource recommendation, 80–90 a medium manual one, at most 80 none; load above 5 gives a high automatic performance one; all at confidence ≥ 0.85; at most two |
| `Recommendations.MemoryRecommendations` | Webmin-y-Virtualmin--7a5b69265dabb75e98929f6bcaf64b5924996415/ai_optimization_system/recommendations/proactive_recommendation_engine.py:215-276 | memory above 95 gives a critical one, 85–95 a high one, swap above 70 a medium one; all automatic resource recommendations at confidence ≥ 0.80; at most two |
| `Recommendations.DiskRecommendations` | Webmin-y-Virtualmin--7a5b69265dabb75e98929f6bcaf64b5924996415/ai_optimization_system/recommendations/proactive_recommendation_engine.py:277-320 | disk above 95 gives a critical one, 85–95 a high one, otherwise none; all automatic resource recommendations at confidence ≥ 0.85 |
| `Recommendations.ThresholdRecommendationsPassDefault` | Webmin-y-Virtualmin--7a5b69265dabb75e98929f6bcaf64b5924996415/ai_optimization_system/recommendations/proactive_recommendation_engine.py:39-463 | every threshold recommendation survives the default 0.7 confidence filter |
| `Recommendations.AnalyzerFields` | Webmin-y-Virtualmin--7a5b69265dabb75e98929f6bcaf64b5924996415/ai_optimization_system/recommendations/proactive_recommendation_engine.py:125-149 | every threshold recommendation has an id, a priority and a confidence of at least 0.80 |
| `Recommendations.Insert` | Webmin-y-Virtualmin--7a5b69265dabb75e98929f6bcaf64b5924996415/ai_optimization_system/recommendations/proactive_recommendation_engine.py:466 | inserting keeps every element, adding exactly one |
| `Recommendations.SortByPriority` | Webmin-y-Virtualmin--7a5b69265dabb75e98929f6bcaf64b5924996415/ai_optimization_system/recommendations/proactive_recommendation_engine.py:466 | sorting is a permutation |
| `Recommendations.InsertSorted` | Webmin-y-Virtualmin--7a5b69265dabb75e98929f6bcaf64b5924996415/ai_optimization_system/recommendations/proactive_recommendation_engine.py:466 | inserting into a list sorted by descending priority keeps it sorted |
| `Recommendations.SortSorted` | Webmin-y-Virtualmin--7a5b69265dabb75e98929f6bcaf64b5924996415/ai_optimization_system/recommendations/proactive_recommendation_engine.py:466 | the sort yields descending priority, a missing priority counting as 1 |
| `Recommendations.InsertStable` | Webmin-y-Virtualmin--7a5b69265dabb75e98929f6bcaf64b5924996415/ai_optimization_system/recommendations/proactive_recommendation_engine.py:466 | insertion places a record after those of its own priority |
| `Recommendations.SortStable` | Webmin-y-Virtualmin--7a5b69265dabb75e98929f6bcaf64b5924996415/ai_optimization_system/recommendations/proactive_recommendation_engine.py:466 | records of equal priority keep their original relative order |
| `Recommendations.PySliceTo` | Webmin-y-Virtualmin--7a5b69265dabb75e98929f6bcaf64b5924996415/ai_optimization_system/recommendations/proactive_recommendation_engine.py:469 | the cap keeps a prefix: the first n records for n ≥ 0, all but the last −n for n < 0 |
| `Recommendations.Stamp` | Webmin-y-Virtualmin--7a5b69265dabb75e98929f6bcaf64b5924996415/ai_optimization_system/recommendations/proactive_recommendation_engine.py:472-475 | a record gets a generation time and keeps its id if it had one, receiving a fresh one otherwise; nothing else changes |
| `Recommendations.StampAll` | Webmin-y-Virtualmin--7a5b69265dabb75e98929f6bcaf64b5924996415/ai_optimization_system/recommendations/proactive_recommendation_engine.py:472-475 | stamping keeps the number of records |
| `Recommendations.PrioritizedSound` | Webmin-y-Virtualmin--7a5b69265dabb75e98929f6bcaf64b5924996415/ai_optimization_system/recommendations/proactive_recommendation_engine.py:459-477 | every output record is a stamped input whose confidence (0 when missing) reaches the minimum |
| `Recommendations.PrioritizedOrdered` | Webmin-y-Virtualmin--7a5b69265dabb75e98929f6bcaf64b5924996415/ai_optimization_system/recommendations/proactive_recommendation_engine.py:466-469 | the output is in descending priority and has at most max_recommendations records |
| `Recommendations.PrioritizedComplete` | Webmin-y-Virtualmin--7a5b69265dabb75e98929f6bcaf64b5924996415/ai_optimization_system/recommendations/proactive_recommendation_engine.py:463-475 | when the cap does not bite, every input that passes the confidence filter appears, stamped |
| `Recommendations.MarkImplemented` | Webmin-y-Virtualmin--7a5b69265dabb75e98929f6bcaf64b5924996415/ai_optimization_system/recommendations/proactive_recommendation_engine.py:108-109 | an implemented record gets status implemented and its implementation time; nothing else changes |
| `Recommendations.MarkAll` | Webmin-y-Virtualmin--7a5b69265dabb75e98929f6bcaf64b5924996415/ai_optimization_system/recommendations/proactive_recommendation_engine.py:108-110 | marking keeps the number of records |
| `Recommendations.ImplementedOfStep` | Webmin-y-Virtualmin--7a5b69265dabb75e98929f6bcaf64b5924996415/ai_optimization_system/recommendations/proactive_recommendation_engine.py:104-116 | one loop step: an eligible record is marked and appended, any other is skipped |
| `Recommendations.ImplementedGate` | Webmin-y-Virtualmin--7a5b69265dabb75e98929f6bcaf64b5924996415/ai_optimization_system/recommendations/proactive_recommendation_engine.py:99-123 | when no record lacks a confidence, the implemented ones are exactly the automatic records with confidence ≥ the minimum, marked, in order |
| `Recommendations.ImplementedOnlyEligible` | Webmin-y-Virtualmin--7a5b69265dabb75e98929f6bcaf64b5924996415/ai_optimization_system/recommendations/proactive_recommendation_engine.py:105 | only automatic records whose confidence reaches the minimum are ever implemented |
| `Recommendations.DismissSpec` | Webmin-y-Virtualmin--7a5b69265dabb75e98929f6bcaf64b5924996415/ai_optimization_system/recommendations/proactive_recommendation_engine.py:577-589 | dismissal keeps exactly the records with a different id, distributes over concatenation, is idempotent and changes nothing when the id is absent |
| `Recommendations.Engine.constructor` | Webmin-y-Virtualmin--7a5b69265dabb75e98929f6bcaf64b5924996415/ai_optimization_system/recommendations/proactive_recommendation_engine.py:38-49 | the thresholds default to 0.7 and 10 and the engine starts with no active or implemented records |
| `Recommendations.Engine.FilterAndPrioritize` | Webmin-y-Virtualmin--7a5b69265dabb75e98929f6bcaf64b5924996415/ai_optimization_system/recommendations/proactive_recommendation_engine.py:459-477 | the stamping loop returns exactly the filtered, sorted, capped and stamped list |
| `Recommendations.Engine.GenerateRecommendations` | Webmin-y-Virtualmin--7a5b69265dabb75e98929f6bcaf64b5924996415/ai_optimization_system/recommendations/proactive_recommendation_engine.py:60-93 | the active list becomes the prioritized threshold and supplied recommendations |
| `Recommendations.Engine.DismissRecommendation` | Webmin-y-Virtualmin--7a5b69265dabb75e98929f6bcaf64b5924996415/ai_optimization_system/recommendations/proactive_recommendation_engine.py:577-589 | always succeeds and removes the id's records from the active list |
| `Recommendations.Engine.ImplementRecommendations` | Webmin-y-Virtualmin--7a5b69265dabb75e98929f6bcaf64b5924996415/ai_optimization_system/recommendations/proactive_recommendation_engine.py:99-123 | returns the implemented records of the gate and appends them to the implemented list |
| `LoadBalancer.SameShapesIds` | Webmin-y-Virtualmin--7a5b69265dabb75e98929f6bcaf64b5924996415/multi_cloud_integration/load_balancer_manager.py:160-197 | changing only load percentages keeps the set of backend ids |
| `LoadBalancer.HealthyInstances` | Webmin-y-Virtualmin--7a5b69265dabb75e98929f6bcaf64b5924996415/multi_cloud_integration/load_balancer_manager.py:84-87 | the healthy count never exceeds the number of instances |
| `LoadBalancer.HealthyIff` | Webmin-y-Virtualmin--7a5b69265dabb75e98929f6bcaf64b5924996415/multi_cloud_integration/load_balancer_manager.py:84-90 | a backend is healthy iff at least one of its instances passes the probe |
| `LoadBalancer.NextRecord` | Webmin-y-Virtualmin--7a5b69265dabb75e98929f6bcaf64b5924996415/multi_cloud_integration/load_balancer_manager.py:89-99 | the new record is healthy iff some instance is; failures reset to 0 when healthy and otherwise grow by one from the previous record (0 when none) |
| `LoadBalancer.AsWrittenNeverFires` | Webmin-y-Virtualmin--7a5b69265dabb75e98929f6bcaf64b5924996415/multi_cloud_integration/load_balancer_manager.py:91-105 | with a threshold of 2 or more, the failover test as written never holds for consistent previous records |
| `LoadBalancer.AfterFailuresCount` | Webmin-y-Virtualmin--7a5b69265dabb75e98929f6bcaf64b5924996415/multi_cloud_integration/load_balancer_manager.py:98 | k unhealthy checks in a row leave k more consecutive failures and an unhealthy record |
| `LoadBalancer.ThirdFailureExample` | Webmin-y-Virtualmin--7a5b69265dabb75e98929f6bcaf64b5924996415/multi_cloud_integration/load_balancer_manager.py:19-105 | on the third consecutive failure from a fresh backend the test as written stays silent while the corrected one fires |
| `LoadBalancer.FailoverFiresOnce` | Webmin-y-Virtualmin--7a5b69265dabb75e98929f6bcaf64b5924996415/multi_cloud_integration/load_balancer_manager.py:19-105 | from a healthy start, the corrected test fires on exactly the threshold-th consecutive failure |
| `LoadBalancer.SweepAppend` | Webmin-y-Virtualmin--7a5b69265dabb75e98929f6bcaf64b5924996415/multi_cloud_integration/load_balancer_manager.py:73-108 | the sweep over one more backend is the previous sweep followed by that backend's step |
| `LoadBalancer.SweepSpec` | Webmin-y-Virtualmin--7a5b69265dabb75e98929f6bcaf64b5924996415/multi_cloud_integration/load_balancer_manager.py:73-108 | after a sweep every record stays consistent, records exist exactly for the old ones plus the probed backends, untouched ids keep their record and only known backends fail over |
| `LoadBalancer.SweepRecords` | Webmin-y-Virtualmin--7a5b69265dabb75e98929f6bcaf64b5924996415/multi_cloud_integration/load_balancer_manager.py:73-105 | with distinct ids, each checked backend's record is the next record from its old one, and it fails over iff the corrected test holds |
| `LoadBalancer.SweepUntouched` | Webmin-y-Virtualmin--7a5b69265dabb75e98929f6bcaf64b5924996415/multi_cloud_integration/load_balancer_manager.py:75-108 | a backend the sweep does not visit keeps its record and never fails over |
| `LoadBalancer.FailoverMoves` | Webmin-y-Virtualmin--7a5b69265dabb75e98929f6bcaf64b5924996415/multi_cloud_integration/load_balancer_manager.py:73-168 | the sweep's failovers change only load percentages |
| `LoadBalancer.FailoverAfter` | Webmin-y-Virtualmin--7a5b69265dabb75e98929f6bcaf64b5924996415/multi_cloud_integration/load_balancer_manager.py:145-172 | a failover appends to the recovery list the same entries whatever was scheduled before |
| `LoadBalancer.SweepStep` | Webmin-y-Virtualmin--7a5b69265dabb75e98929f6bcaf64b5924996415/multi_cloud_integration/load_balancer_manager.py:73-145 | checking one more backend extends the sweep by that backend's record and, when the corrected test holds, by its failover |
| `LoadBalancer.FailoverLoads` | Webmin-y-Virtualmin--7a5b69265dabb75e98929f6bcaf64b5924996415/multi_cloud_integration/load_balancer_manager.py:126-168 | one failover raises at most the alternative's load, never past 100 from a load within 100, and schedules at most the failed backend |
| `LoadBalancer.FailoverMovesSound` | Webmin-y-Virtualmin--7a5b69265dabb75e98929f6bcaf64b5924996415/multi_cloud_integration/load_balancer_manager.py:73-168 | the sweep schedules recovery checks only for backends it failed over, and a load within 0..100 never drops and never passes 100 |
| `LoadBalancer.FirstAlternative` | Webmin-y-Virtualmin--7a5b69265dabb75e98929f6bcaf64b5924996415/multi_cloud_integration/load_balancer_manager.py:147-158 | the first backend, in list order, that is another active backend in a different provider or region; none iff no backend qualifies |
| `LoadBalancer.Redistributed` | Webmin-y-Virtualmin--7a5b69265dabb75e98929f6bcaf64b5924996415/multi_cloud_integration/load_balancer_manager.py:160-168 | only the alternative's load changes: a load up to 50 (missing counts as 0) is raised by 50, a larger one becomes exactly 100 |
| `LoadBalancer.Rebalanced` | Webmin-y-Virtualmin--7a5b69265dabb75e98929f6bcaf64b5924996415/multi_cloud_integration/load_balancer_manager.py:189-197 | rebalancing changes only load percentages |
| `LoadBalancer.ActiveCountIsCard` | Webmin-y-Virtualmin--7a5b69265dabb75e98929f6bcaf64b5924996415/multi_cloud_integration/load_balancer_manager.py:191-196 | with distinct ids, the active backends listed number exactly the active ids that are backends |
| `LoadBalancer.ActiveLoadUniform` | Webmin-y-Virtualmin--7a5b69265dabb75e98929f6bcaf64b5924996415/multi_cloud_integration/load_balancer_manager.py:195-197 | when every active backend carries the same share, their total is that share times their number |
| `LoadBalancer.RebalanceShares` | Webmin-y-Virtualmin--7a5b69265dabb75e98929f6bcaf64b5924996415/multi_cloud_integration/load_balancer_manager.py:189-197 | every active backend gets 100 / (number of active ids) and every other backend keeps its load |
| `LoadBalancer.RebalanceTotal` | Webmin-y-Virtualmin--7a5b69265dabb75e98929f6bcaf64b5924996415/multi_cloud_integration/load_balancer_manager.py:189-197 | with distinct ids and every active id a backend, the active loads sum to exactly 100 |
| `LoadBalancer.UniformTotal` | Webmin-y-Virtualmin--7a5b69265dabb75e98929f6bcaf64b5924996415/multi_cloud_integration/load_balancer_manager.py:193-197 | equal shares of 100 / n over n active backends sum to 100 |
| `LoadBalancer.TimesIsProduct` | Webmin-y-Virtualmin--7a5b69265dabb75e98929f6bcaf64b5924996415/multi_cloud_integration/load_balancer_manager.py:193-197 | repeated addition of a share equals the product |
| `LoadBalancer.SharesSum` | Webmin-y-Virtualmin--7a5b69265dabb75e98929f6bcaf64b5924996415/multi_cloud_integration/load_balancer_manager.py:193 | n shares of 100 / n make 100 |
| `LoadBalancer.RebalancedIds` | Webmin-y-Virtualmin--7a5b69265dabb75e98929f6bcaf64b5924996415/multi_cloud_integration/load_balancer_manager.py:189-197 | rebalancing keeps the ids and their distinctness |
| `LoadBalancer.GlobalLoadBalancer.constructor` | Webmin-y-Virtualmin--7a5b69265dabb75e98929f6bcaf64b5924996415/multi_cloud_integration/load_balancer_manager.py:12-21 | the backends are kept, no health records, no active backends, failover enabled with threshold 3 |
| `LoadBalancer.GlobalLoadBalancer.Start` | Webmin-y-Virtualmin--7a5b69265dabb75e98929f6bcaf64b5924996415/multi_cloud_integration/load_balancer_manager.py:23-47 | exactly the backends whose provider-side balancer was created become active |
| `LoadBalancer.GlobalLoadBalancer.CountHealthy` | Webmin-y-Virtualmin--7a5b69265dabb75e98929f6bcaf64b5924996415/multi_cloud_integration/load_balancer_manager.py:84-87 | the loop counts the healthy instances, positive iff some instance passes the probe |
| `LoadBalancer.GlobalLoadBalancer.FindAlternativeBackend` | Webmin-y-Virtualmin--7a5b69265dabb75e98929f6bcaf64b5924996415/multi_cloud_integration/load_balancer_manager.py:147-158 | the loop returns the first alternative backend |
| `LoadBalancer.GlobalLoadBalancer.CheckBackend` | Webmin-y-Virtualmin--7a5b69265dabb75e98929f6bcaf64b5924996415/multi_cloud_integration/load_balancer_manager.py:75-145 | one backend's record becomes its next record; when the corrected test holds it leaves the active set and the failover's loads and recovery list follow, otherwise nothing else changes |
| `LoadBalancer.GlobalLoadBalancer.TriggerFailover` | Webmin-y-Virtualmin--7a5b69265dabb75e98929f6bcaf64b5924996415/multi_cloud_integration/load_balancer_manager.py:126-145 | the failed id leaves the active set; with an alternative its load is raised and a recovery is scheduled, otherwise nothing else changes |
| `LoadBalancer.GlobalLoadBalancer.PerformHealthChecks` | Webmin-y-Virtualmin--7a5b69265dabb75e98929f6bcaf64b5924996415/multi_cloud_integration/load_balancer_manager.py:73-168 | the records and the active set are those of the sweep, and the loads and scheduled recoveries are exactly those its failovers produce, with the corrected failover test |
| `LoadBalancer.GlobalLoadBalancer.RecoveryCheck` | Webmin-y-Virtualmin--7a5b69265dabb75e98929f6bcaf64b5924996415/multi_cloud_integration/load_balancer_manager.py:170-187 | a recovered backend (healthy record) rejoins the active set and the load is rebalanced; otherwise nothing changes |
| `LoadBalancer.GlobalLoadBalancer.RebalanceLoad` | Webmin-y-Virtualmin--7a5b69265dabb75e98929f6bcaf64b5924996415/multi_cloud_integration/load_balancer_manager.py:189-199 | backends become the rebalanced list; nothing happens with no active backend |
| `Inventory.GeneratedNamesDistinct` | Webmin-y-Virtualmin--7a5b69265dabb75e98929f6bcaf64b5924996415/cluster_infrastructure/ansible/scripts/generate_inventory.py:77-116 | generated host names (past the end of the supplied names) differ for different indices |
| `Inventory.HostsOfKeys` | Webmin-y-Virtualmin--7a5b69265dabb75e98929f6bcaf64b5924996415/cluster_infrastructure/ansible/scripts/generate_inventory.py:76-82 | the group's host names are exactly the names chosen for the listed addresses |
| `Inventory.HostsOfLast` | Webmin-y-Virtualmin--7a5b69265dabb75e98929f6bcaf64b5924996415/cluster_infrastructure/ansible/scripts/generate_inventory.py:76-82 | when no later address reuses its name, a host's entry has its address, the role name and server id index+1 |
| `Inventory.OneHostPerIp` | Webmin-y-Virtualmin--7a5b69265dabb75e98929f6bcaf64b5924996415/cluster_infrastructure/ansible/scripts/generate_inventory.py:72-121 | with distinct names there is one host per address, each with ansible_host = ip and server_id = index+1 |
| `Inventory.NamesCard` | Webmin-y-Virtualmin--7a5b69265dabb75e98929f6bcaf64b5924996415/cluster_infrastructure/ansible/scripts/generate_inventory.py:76-82 | distinct names for n addresses make n host names |
| `Inventory.UnnamedHostsPerIp` | Webmin-y-Virtualmin--7a5b69265dabb75e98929f6bcaf64b5924996415/cluster_infrastructure/ansible/scripts/generate_inventory.py:77-116 | without supplied names the n-th address (from 1) gets the host <stem><n>, one host per address |
| `Inventory.GlobalVarsFor` | Webmin-y-Virtualmin--7a5b69265dabb75e98929f6bcaf64b5924996415/cluster_infrastructure/ansible/scripts/generate_inventory.py:60-138 | environment, region and domain take the outputs' values or default to production, us-east-1 and example.com; production enables backup with 30-day retention, monitoring and hardening; staging disables backup and hardening and enables monitoring; any other environment adds nothing |
| `Inventory.CollectHosts` | Webmin-y-Virtualmin--7a5b69265dabb75e98929f6bcaf64b5924996415/cluster_infrastructure/ansible/scripts/generate_inventory.py:72-121 | a role's loop yields exactly its host map, which is empty when the role's addresses are absent |
| `Inventory.GenerateInventory` | Webmin-y-Virtualmin--7a5b69265dabb75e98929f6bcaf64b5924996415/cluster_infrastructure/ansible/scripts/generate_inventory.py:20-140 | the inventory has exactly the four groups, each with its role's hosts and the common SSH variables, and the global variables of the environment |
| `ConfigOptimizer.Clamp` | Webmin-y-Virtualmin--7a5b69265dabb75e98929f6bcaf64b5924996415/ai_optimization_system/config_manager/auto_config_optimizer.py:259 | clamping lands in the interval and leaves values already inside unchanged |
| `ConfigOptimizer.MinInt` | Webmin-y-Virtualmin--7a5b69265dabb75e98929f6bcaf64b5924996415/ai_optimization_system/config_manager/auto_config_optimizer.py:259-336 | the smaller of two integers |
| `ConfigOptimizer.ApacheOptimizations` | Webmin-y-Virtualmin--7a5b69265dabb75e98929f6bcaf64b5924996415/ai_optimization_system/config_manager/auto_config_optimizer.py:248-292 | under high load (cpu > 80 or memory > 85) MaxRequestWorkers is 2·connections clamped to [32, 128] with MaxConnectionsPerChild 5000; otherwise min(512, 3·connections) above 100 connections, else 256; workers always lie in [32, 512]; spare servers bracket the start count; KeepAlive is Off iff cpu > 70, with 50 requests and timeout 2 |
| `ConfigOptimizer.ApacheWorkersMonotone` | Webmin-y-Virtualmin--7a5b69265dabb75e98929f6bcaf64b5924996415/ai_optimization_system/config_manager/auto_config_optimizer.py:263-280 | within a load tier more connections never mean fewer workers |
| `ConfigOptimizer.MysqlOptimizations` | Webmin-y-Virtualmin--7a5b69265dabb75e98929f6bcaf64b5924996415/ai_optimization_system/config_manager/auto_config_optimizer.py:294-338 | buffer pool from installed memory; max_connections is min(500, 2·connections) above 50 connections, else 200, so in (100, 500]; table_open_cache is min(4096, 2·max_connections); query cache 128M below 70% cpu, else 64M; the log file size is a quarter of the buffer pool, for every input |
| `ConfigOptimizer.TableCacheTwiceConnections` | Webmin-y-Virtualmin--7a5b69265dabb75e98929f6bcaf64b5924996415/ai_optimization_system/config_manager/auto_config_optimizer.py:320-336 | the 4096 cap never applies: table_open_cache is always exactly 2·max_connections, at most 1000 |
| `ConfigOptimizer.MegabytesOfRendering` | Webmin-y-Virtualmin--7a5b69265dabb75e98929f6bcaf64b5924996415/ai_optimization_system/config_manager/auto_config_optimizer.py:306-317 | a rendered size with suffix M or G reads back as its megabytes |
| `ConfigOptimizer.LogIsQuarterOfPool` | Webmin-y-Virtualmin--7a5b69265dabb75e98929f6bcaf64b5924996415/ai_optimization_system/config_manager/auto_config_optimizer.py:300-317 | the log size rendered from the buffer pool is a quarter of it: 512M for 2G, 256M for 1G, 128M for 512M |
| `ConfigOptimizer.QuarterOfRendering` | Webmin-y-Virtualmin--7a5b69265dabb75e98929f6bcaf64b5924996415/ai_optimization_system/config_manager/auto_config_optimizer.py:310-317 | for a pool of n gigabytes, or of n megabytes with n divisible by 4, the log size read back in megabytes is a quarter of the pool |
| `ConfigOptimizer.PhpOptimizations` | Webmin-y-Virtualmin--7a5b69265dabb75e98929f6bcaf64b5924996415/ai_optimization_system/config_manager/auto_config_optimizer.py:340-369 | memory_limit is 256M above 80% memory, 384M above 60%, else 512M; max_execution_time is 180 iff more than 20 processes, else 300; fixed 100M upload and post sizes and 20 uploads |
| `ConfigOptimizer.PhpLimitMonotone` | Webmin-y-Virtualmin--7a5b69265dabb75e98929f6bcaf64b5924996415/ai_optimization_system/config_manager/auto_config_optimizer.py:345-352 | the memory limit never grows as memory use grows |
| `ConfigOptimizer.PhpLimitValue` | Webmin-y-Virtualmin--7a5b69265dabb75e98929f6bcaf64b5924996415/ai_optimization_system/config_manager/auto_config_optimizer.py:345-352 | the memory limits read back as 256, 384 and 512 megabytes |
| `ConfigOptimizer.Swappiness` | Webmin-y-Virtualmin--7a5b69265dabb75e98929f6bcaf64b5924996415/ai_optimization_system/config_manager/auto_config_optimizer.py:391-396 | swappiness is 5 above 85% memory, 20 below 50%, else 10 |
| `ConfigOptimizer.SwappinessMonotone` | Webmin-y-Virtualmin--7a5b69265dabb75e98929f6bcaf64b5924996415/ai_optimization_system/config_manager/auto_config_optimizer.py:391-396 | swappiness never grows as memory use grows |
| `ConfigOptimizer.SystemOptimizations` | Webmin-y-Virtualmin--7a5b69265dabb75e98929f6bcaf64b5924996415/ai_optimization_system/config_manager/auto_config_optimizer.py:371-410 | eight kernel parameters including the memory-dependent swappiness, and four process limits all 65536 |
| `ConfigOptimizer.SystemDependsOnlyOnMemory` | Webmin-y-Virtualmin--7a5b69265dabb75e98929f6bcaf64b5924996415/ai_optimization_system/config_manager/auto_config_optimizer.py:371-410 | cpu and load average do not affect the kernel settings |
| `MfaRbac.ByName` | Webmin-y-Virtualmin--7a5b69265dabb75e98929f6bcaf64b5924996415/security/mfa_rbac_system.py:300-301 | the lookup by name finds that user, and fails iff no user has the name |
| `MfaRbac.ById` | Webmin-y-Virtualmin--7a5b69265dabb75e98929f6bcaf64b5924996415/security/mfa_rbac_system.py:367-543 | the lookup by id finds that user, and fails iff no user has the id |
| `MfaRbac.HasPermission` | Webmin-y-Virtualmin--7a5b69265dabb75e98929f6bcaf64b5924996415/security/mfa_rbac_system.py:534-563 | a granted permission belongs to a user with that id whose role exists and lists it or '*'; an unknown user or role grants nothing |
| `MfaRbac.HasPermissionExact` | Webmin-y-Virtualmin--7a5b69265dabb75e98929f6bcaf64b5924996415/security/mfa_rbac_system.py:534-556 | with unique ids a user holds a permission iff their role exists and lists it or the wildcard |
| `MfaRbac.WildcardGrantsAll` | Webmin-y-Virtualmin--7a5b69265dabb75e98929f6bcaf64b5924996415/security/mfa_rbac_system.py:555-556 | a role listing '*' grants every permission |
| `MfaRbac.DefaultUserCannotWrite` | Webmin-y-Virtualmin--7a5b69265dabb75e98929f6bcaf64b5924996415/security/mfa_rbac_system.py:104-556 | a user with the default read-only role may read domains but not write to Virtualmin |
| `MfaRbac.Login` | Webmin-y-Virtualmin--7a5b69265dabb75e98929f6bcaf64b5924996415/security/mfa_rbac_system.py:306-338 | a locked account is refused before the password is checked and nothing changes; a wrong password adds one attempt and locks for the lockout duration iff the attempts reach the maximum; a right password resets attempts to 0, records the login time and returns the user's id, username, email, role and MFA flag |
| `MfaRbac.LoginAudit` | Webmin-y-Virtualmin--7a5b69265dabb75e98929f6bcaf64b5924996415/security/mfa_rbac_system.py:302-351 | each attempt writes one login audit row, successful iff the user logged in |
| `MfaRbac.WrongPasswordsCount` | Webmin-y-Virtualmin--7a5b69265dabb75e98929f6bcaf64b5924996415/security/mfa_rbac_system.py:311-331 | below the maximum, k wrong passwords add exactly k attempts and do not lock |
| `MfaRbac.LockoutAfterMaxFailures` | Webmin-y-Virtualmin--7a5b69265dabb75e98929f6bcaf64b5924996415/security/mfa_rbac_system.py:306-328 | from an unlocked account the wrong password that brings the count to the maximum locks it, and the right password is refused until the lock expires |
| `MfaRbac.RelockAfterExpiry` | Webmin-y-Virtualmin--7a5b69265dabb75e98929f6bcaf64b5924996415/security/mfa_rbac_system.py:306-338 | attempts are not reset when a lock expires, so one wrong password afterwards locks the account again |
| `MfaRbac.LockExpires` | Webmin-y-Virtualmin--7a5b69265dabb75e98929f6bcaf64b5924996415/security/mfa_rbac_system.py:306-338 | once the lock has expired the right password logs in again |
| `MfaRbac.LoginAsWritten` | Webmin-y-Virtualmin--7a5b69265dabb75e98929f6bcaf64b5924996415/security/mfa_rbac_system.py:287-323 | as written, a user whose row carries a lock gets the server error, with no row changed and no audit row; any other user follows the login step |
| `MfaRbac.LockNeverExpiresAsWritten` | Webmin-y-Virtualmin--7a5b69265dabb75e98929f6bcaf64b5924996415/security/mfa_rbac_system.py:287-355 | as written, after the failure that locks the row, no later attempt logs in, however late and with the right password |
| `MfaRbac.FindBackup` | Webmin-y-Virtualmin--7a5b69265dabb75e98929f6bcaf64b5924996415/security/mfa_rbac_system.py:378-384 | the backup lookup returns the first unused row of that user with the code's hash, and fails iff there is none |
| `MfaRbac.MarkUsed` | Webmin-y-Virtualmin--7a5b69265dabb75e98929f6bcaf64b5924996415/security/mfa_rbac_system.py:388-389 | marking changes only that row's used flag |
| `MfaRbac.MarkUsedCount` | Webmin-y-Virtualmin--7a5b69265dabb75e98929f6bcaf64b5924996415/security/mfa_rbac_system.py:388-389 | using a code leaves one fewer row that accepts it |
| `MfaRbac.UsableCountZero` | Webmin-y-Virtualmin--7a5b69265dabb75e98929f6bcaf64b5924996415/security/mfa_rbac_system.py:378-386 | no row accepts a code iff the lookup fails |
| `MfaRbac.VerifyMfa` | Webmin-y-Virtualmin--7a5b69265dabb75e98929f6bcaf64b5924996415/security/mfa_rbac_system.py:360-413 | an unknown user fails, a user without MFA passes, a backup code passes iff an unused matching row exists and that row is then used, a missing or empty secret gives the secret-missing outcome, and otherwise a one-time password passes iff it is valid for the secret |
| `MfaRbac.BackupCodeSingleUse` | Webmin-y-Virtualmin--7a5b69265dabb75e98929f6bcaf64b5924996415/security/mfa_rbac_system.py:378-394 | after a backup code is accepted, the same code is accepted again iff at least two rows held it unused |
| `MfaRbac.MfaRbacSystem.constructor` | Webmin-y-Virtualmin--7a5b69265dabb75e98929f6bcaf64b5924996415/security/mfa_rbac_system.py:45-275 | a fresh system has the default roles, the admin account with attempts 0 and MFA off, and limits defaulting to 5 attempts and 900 seconds |
| `MfaRbac.MfaRbacSystem.CheckPermission` | Webmin-y-Virtualmin--7a5b69265dabb75e98929f6bcaf64b5924996415/security/mfa_rbac_system.py:534-566 | the permission test over the current tables |
| `MfaRbac.MfaRbacSystem.AuthenticateUser` | Webmin-y-Virtualmin--7a5b69265dabb75e98929f6bcaf64b5924996415/security/mfa_rbac_system.py:291-358 | an unknown user is refused with no state change; otherwise only that user's row becomes the login step's result; one audit row is written |
| `MfaRbac.MfaRbacSystem.VerifyMfaCode` | Webmin-y-Virtualmin--7a5b69265dabb75e98929f6bcaf64b5924996415/security/mfa_rbac_system.py:360-413 | the outcome and the backup codes are those VerifyMfa gives; users and roles are unchanged; backup and one-time-password checks write one audit row |

## Left out

- Dashboard: the Chart.js chart objects and their `update` calls, and `setupCharts`, are view-layer rendering. The model keeps only the label and dataset arrays the charts display.
- Dashboard: `updateMetrics`, `updatePredictions`, `updateServiceStatus`, `loadOptimizationHistory`, `loadLoadBalancerStatus` and `renderOptimizationHistory` only copy response fields into DOM text, so they are left out.
- Dashboard: the repeating `updateDashboard` refresh is registered as an interval by the constructor. What each firing does only copies the `/api/metrics` reply into DOM text, so the firings are not modelled.
- Dashboard.RenderRecommendations: the confidence badge text `(confidence * 100).toFixed(0)` is float formatting, so it is left out.
- Dashboard: the HTTP requests enter as their outcome (success, failure or a transport error). Toasts are recorded as the notices shown, and DOM removal after 5000 ms is not modelled.
- Dashboard: `toggleAutoMode` and the remaining button handlers only post to the backend and notify, so they are left out.
- Cluster.NewServer: the free-form `**kwargs` server fields are dropped. The source spreads them last into the server record, so a caller's `status`, `id`, `metrics` or any other key overrides the defaults. A caller-supplied `status` changes which servers `GetClusterStats` counts as active, and the model does not capture that.
- Cluster: the fossflow, HTML and JSON export/import generators are presentation and I/O, so they are left out.
- Cluster: the real-time update thread is concurrency, so it is left out.
- Cluster: `get_cluster_stats` is modelled for its counts only. The metric averages are float statistics.
- Blockchain.MineBlock: the nonce search is bounded by a fuel parameter, so `Chain.MinePendingLogs` and `Chain.AddLog` decline to mine exactly when no nonce from 0 to the fuel meets the target. The pending logs then stay queued, so the pending list may exceed the block size. The source loops until it finds a nonce.
- Blockchain: the genesis block is appended even when its bounded search fails. The source never checks block 0's proof of work.
- Blockchain: SHA-256 enters as an abstract hash parameter. Timestamps enter as parameters.
- Blockchain: `get_timeline`, `get_stats`, `to_dict`/`from_dict` and saving/loading are I/O and reporting, so they are left out.
- Incremental: the directory scan, file hashing and `processing_time` are I/O and clock. Snapshot and scan listings are sequences of entries with distinct paths.
- Incremental.Similarity: only the equal-hash case (1.0) and the bounds are stated. The float size ratio is not modelled further.
- Restore: `os.path.normpath` is modelled on POSIX paths. The other restore operations are I/O.
- Restore.FilterFilesForRestore: uses the corrected subtree test. For source "/" with subdirectories it restores every entry below the root, where the code as written (restorer.py:369) restores only "/" itself. `Selected` and `RootSubtreeExcluded` model the code as written.
- StatusReports: metric collection is subprocess and file I/O, so it is left out.
- StatusReports.IsValidIp: digits are ASCII. Python's `isdigit` also accepts other Unicode digits, which `int` then parses.
- StatusReports.CheckAlerts: disk alerts follow the order of the metrics list. Dictionary order is not modelled otherwise.
- Recommendations: the service, prediction, anomaly and pattern analyzers (proactive_recommendation_engine.py:321-457) are threshold checks on their dictionary arguments, like the modelled CPU, memory and disk analyzers. They are outside the modelled core, and their records enter as the supplied service records.
- Recommendations: description and action texts are left out. Records are values, so the in-place mutation of shared dictionaries is not modelled.
- Recommendations: the catch-all exception path that returns an empty list is left out. The `_implement_*` simulations always succeed.
- Recommendations: statistics and history bookkeeping are reporting only, so they are left out.
- LoadBalancer: the monitoring threads, `sleep` and `stop` are concurrency. `get_status`, `update_backend_config` and the outer `LoadBalancerManager` are wrappers.
- LoadBalancer: a provider whose instances cannot be listed raises in the source and is skipped. The model takes which providers are reachable as a parameter.
- LoadBalancer.GlobalLoadBalancer.RecoveryCheck: requires the backend to be one of the balancer's, because the source only calls it for listed backends.
- LoadBalancer: the float division of the rebalanced share is modelled on reals.
- LoadBalancer.GlobalLoadBalancer.PerformHealthChecks: uses the corrected failover test, so it fails a backend over at its threshold-th consecutive failure, where the code as written (load_balancer_manager.py:102-105) never fails over. `FailoverDueAsWritten` and `AsWrittenNeverFires` model the code as written.
- Inventory: the file writing, the dynamic inventory script, `ansible.cfg` and `main` are I/O. JSON loading of the Terraform outputs is I/O too.
- Inventory: an output is either absent or carries its `value`. For the names, environment, region and domain outputs, a missing `value` takes the default through the `.get` chain, just as an absent output does. An IP output that is present without a `value` raises `KeyError` in the source (lines 73, 86, 99 and 112 index it directly), and the model has no input for that case.
- ConfigOptimizer: reading metrics, writing configuration files and restarting services are subprocess and file I/O. Only the `_calculate_*` tables are modelled.
- MfaRbac: JWT sessions, MFA secret and QR generation, enabling and disabling MFA, and the Flask routes are out of the named core.
- MfaRbac: database errors and a permissions column that fails to parse as JSON are not modelled. Roles enter as permission lists.
- MfaRbac.Login: `locked_until` is compared as an integer clock, which is the evidently intended behaviour. As written, the connection reads the stored `datetime` back as text (`sqlite3.connect` has no `detect_types`), and `text > datetime.now()` raises `TypeError` for every user whose row has ever been locked. The handler then answers "Error en el servidor", with no audit row and no change to the row. So in the program a lock never expires, and `LockoutAfterMaxFailures`, `RelockAfterExpiry` and `LockExpires` describe a path the program does not reach once a row is locked. `LoginAsWritten` and `LockNeverExpiresAsWritten` model the code as written (see Findings).
- MfaRbac.VerifyMfa: the TOTP check, including its `valid_window`, enters as a parameter. Times are seconds.

## Findings

| source | as written | input that shows it | evidently intended | confidence | as-written member | corrected member |
|---|---|---|---|---|---|---|
| Webmin-y-Virtualmin--7a5b69265dabb75e98929f6bcaf64b5924996415/intelligent_backup_system/restoration/restorer.py:369 | with subdirectories, an entry is in the subtree when its normalised path starts with the normalised source plus a separator | source "/" with subdirectories: `normpath("/")` is "/", and "/etc" does not start with "//", so nothing below the root is restored, although "/etc" is restored without subdirectories | every path strictly below the source is restored, the root included | not executed; high | `Restore.RootSubtreeExcluded` | `Restore.SelectedIntendedSpec`, used by `Restore.FilterFilesForRestore` |
| Webmin-y-Virtualmin--7a5b69265dabb75e98929f6bcaf64b5924996415/multi_cloud_integration/load_balancer_manager.py:91-105 | failover fires when a health check fails, the previous record was healthy, failover is enabled and the consecutive failures reach the threshold (3) | a backend failing three checks in a row: after a healthy record the count is 1, and by the third failure the previous record is already unhealthy, so failover never fires | failover fires once per outage, at the failure that reaches the threshold | not executed; high | `LoadBalancer.AsWrittenNeverFires`, `LoadBalancer.ThirdFailureExample` | `LoadBalancer.FailoverFiresOnce`, used by `LoadBalancer.GlobalLoadBalancer.PerformHealthChecks` |
| Webmin-y-Virtualmin--7a5b69265dabb75e98929f6bcaf64b5924996415/security/mfa_rbac_system.py:306 | a locked account is refused while `locked_until > datetime.now()`, where `locked_until` is the value read back from the users table | a user with `max_login_attempts - 1` recorded failures gives a wrong password and is locked. The lock time comes back from SQLite as text, so on every later attempt `text > datetime` raises `TypeError` and the handler answers with a server error, even with the right password after `lockout_duration` | the lock expires `lockout_duration` seconds after it was set, and the right password then logs in | not executed; high | `MfaRbac.LoginAsWritten`, `MfaRbac.LockNeverExpiresAsWritten` | `MfaRbac.LockExpires`, for `MfaRbac.Login`, used by `MfaRbac.MfaRbacSystem.AuthenticateUser` |
