# Angry-BOX: verified models of the deploy and routing core

Angry-BOX is an SSH control plane for proxy nodes. It renders sing-box configs and kernel
AmneziaWG confs from a store of chains, users and inbounds, pushes them to nodes with a rollback
of every layer, and watches the nodes afterwards. This project models the parts of
`internal/chain` where a mistake is expensive, and proves what they promise.

`dafny verify dfyconfig.toml` checks everything.

| file | what it models |
|---|---|
| `text.dfy` | the string operations the models need |
| `awg_conf.dfy` | printing and splitting a kernel AWG server conf |
| `peer_table.dfy` | the kernel's peer table; live sync against restart |
| `remote_node.dfy`, `deploy.dfy` | the AWG-aware push and its rollback, as effects on a node and as the commands that run |
| `awg_plan.dfy` | which interfaces a deploy writes and which it tears down |
| `concurrency.dfy` | background deploys and foreground pushes under the semaphore and the node mutexes |
| `topology.dfy`, `routing.dfy` | chains, roles, route rules and outbounds, with first-match meaning |
| `tag_closure.dfy`, `manual_rules.dfy` | no dangling tags; operator rules |
| `delivery.dfy`, `stores.dfy` | end-to-end delivery; the stores in which it holds |
| `ports.dfy` | port remapping behind caddy, conflict detection, SNI routes |
| `addresses.dfy` | inner tunnel addresses of a chain |
| `profile_placement.dfy` | placing an inbound profile on nodes by difference |
| `migration.dfy` | flat chains to levels |
| `node_health.dfy`, `traffic.dfy`, `obfs_material.dfy` | health hysteresis, traffic accounting, cached obfuscation material |
| `quic_initial.dfy` | the QUIC Initial packet builder |

## How the models read

- Every remote command takes full effect or none, and whether it succeeds is chosen freely, so the
  deploy results hold for every failure pattern. The commands a recovery rests on (backup, rollback,
  the restart in a recovery, the status read and the stop of a teardown, and enabling a unit) are
  named: `broken` holds those that can fail on a node, `failed` those that did, and a failure is
  always explained by `broken` or by a unit without a conf. Nothing is claimed about a file or unit
  whose own safeguard failed; with no broken safeguard everything is restored. `works` says that no
  command of the push fails at all.
- A conf's path, unit and backup name all follow from its interface name. Each push starts in a
  later second than every earlier backup.
- The kernel peer table is the map from public key to allowed IPs with one owner per address, which
  is all that the splitter keeps.
- Packets are seen as the router sees them: inbound tag, source address, user identity, sniffed
  protocols and the set of destination matchers they satisfy. Entry inbounds report the UUID for TUIC
  and the name otherwise, as internal/chain/merged_config.go:415-432 has it; transit listeners report
  their own tag.
- Time, random keys, captures and TLS are parameters or free choices. AES-GCM, AES-ECB and
  HMAC-SHA256 are functions of which only the output lengths are known, and that opening undoes
  sealing.

## Where the code falls short of a promise

Each of these is an if-and-only-if, or a counterexample with the exact condition beside it.

- Rolling confs back in record order restores every file exactly when no interface is pushed twice
  (`RollbackRestoresIff`). A node's own data decides that: awg0 can be claimed by a chain entry, an
  exit server and a standalone inbound at once, awg1 by several inbounds, and operator outbounds can
  share an ID (`PlanDistinctIff`, `ExitAndStandaloneClash`).
- A conf that did not exist before a failed push stays on disk with its new contents. The comment on
  `createBackup` promises an empty path in that case; the code prints one, and the restore is a no-op.
- Live sync and restart differ for peers without AllowedIPs unless later peers claim the default
  routes (`SyncEqualsRestartIff`).
- Users of an AWG 3.0 entry on a node without kernel support arrive on an inbound that no route rule
  names, so they leave at the entry node and their pins have no effect (`DeliveredIff`; the same
  store with and without kernel support in `KernelSupportDecides`).
- A TUIC, VLESS or MTProxy user pinned to a node between the first and the last leaves at the last
  (`CarriedIff`, `MiddlePinPassedBy`). The next hop does get such a user's rule, but its listener
  reports the transport's identity, so the egress promised at internal/chain/merged_config.go:517-522
  happens only when that hop is the last.
- Standalone rules name an inbound by its index, inbounds with a tag of their own, as every placed
  profile has, are rendered under that tag: their outbound choice is ignored (`StandaloneObeyedIff`).
- Operator rules scoped to a user name its VLESS UUID, while a chain's VLESS inbound reports the user's
  name (`ScopedUserIff`).
- A push that fails after the teardown leaves units that were enabled but did not run disabled, and
  enables those that ran without being enabled (`DownUnitsBack`, part of `PushConfigWithAWG`).
- A fresh mieru inbound without a transport is reported as updated by the next placement
  (`FreshOutdatedIff`).
- Operator rules on a node without a user-facing inbound apply to transit traffic (`UntouchedIff`).
- Conflict detection reserves another port for a chain entry than the one it binds whenever a TUIC,
  VLESS or MTProxy entry has a deployed inbound or a node port of its own, and for an AWG entry whose
  node port differs while no inbound with a port is deployed (`EntryClaimIff`). Exactly then another
  inbound, or caddy, can take the entry's port unnoticed (`GuardedIff`, `EntryClashMissed`).
- An inbound whose profile a level-0 node references is left to the chain entry, but caddy still
  routes to its port and clients are still told its host. SNI routes all find a listener exactly when
  no fronted inbound is referenced (`RoutesReachIff`), unmatched TLS exactly when the first reality
  inbound is not (`PassthroughReachesIff`); a node that passes detection can lose its unmatched TLS
  that way and have its entry on one of caddy's ports (`ReferencedRealityMissed`).
- The merged config and the deploy name the interface of an operator outbound without an ID
  differently unless its tag spells its position (`OperatorBoundIff`).
- Traffic is counted twice when a key is read on two interfaces of one node, when the snapshot of a
  saved reading is not stored, not found the next time, or overwritten with an older one (`SafeIff`).
  The result of storing it is discarded at internal/chain/awgtraffic.go:129, and the handlers at
  internal/web/nodes.go:655-661 and 682-688, the check at internal/web/misc.go:63-76 and the loop at
  internal/web/server.go:191-228 read and write the record without a lock across the two; the comment
  there expects a lost update to be repaired by the next tick.
- The health counters pass their cap through the early returns (`CapSkippedIff`).
- A live-capture preset without a domain regenerates its material on every redeploy once a domain was
  captured (`StaysIff`).
- Migrating a chain without any entry node turns its first level into the entry (`FlagsKeptIff`).
  The numbered entry nodes change, and entry ports with them, when a role-less first node meets an
  explicit entry, or when a chain without entries starts with an exit and has more nodes
  (`EntryNodesKeptIff`, `EntryPortShifts`).
- A transit tag can fall into the scope of operator rules when a multi-entry chain's node ID ends in
  "transport-in" (`TransitTagScope`).
- The QUIC Length field and the CRYPTO length are wrong from 2^30 on (`VarintIff`, `LengthFieldIff`).

## Model

| member | source | states |
|---|---|---|
| AwgConf.RenderServerConf | internal/chain/awg_server.go:108-198 | the text built line by line in a growing buffer is the lines of the conf, and a reader of that text finds in it all that was promised |
| AwgConf.TextSaysAll | internal/chain/awg_server.go:108-284 | for all newline-free values, a reader that cuts each line at '=' finds every interface key with its promised value or default and no other key (ListenPort only when positive, S3 and S4 except in 1.5, H1 to H4 together, the 3.0 keys only when the material converts), and each credentialed peer with its key, addresses and preshared key |
| AwgConf.ForwardingBothWays | internal/chain/awg_server.go:153-179 | the shell command the interface runs on its way up adds each forwarding rule between it and the TUN only if the rule is missing, in both directions, and the one on its way down deletes both |
| AwgConf.SplitConf | internal/chain/awg_peersync.go:28-67 | the one-pass splitter with its current-peer variable returns the fold of the trimmed lines |
| AwgConf.PrintThenParse | internal/chain/awg_peersync.go:28-67 | for all newline-free values, splitting a rendered conf returns exactly the credentialed peers in order, base64 padding included, and the interface lines |
| AwgConf.InterfaceIndependentOfPeers | internal/chain/awg_peersync.go:134-146 | two confs with the same interface parameters have the same normalized interface part, whatever their peers |
| PeerTable.AssertedIsFresh | internal/chain/awg_peersync.go:100-124 | asserting peers over any live table and dropping the rest gives the table those peers build from nothing |
| PeerTable.SyncRefinesRestart | internal/chain/awg_peersync.go:89-153 | for any prior live table the sync ends in the table a restart from the new conf loads, repeated keys and shared addresses included |
| PeerTable.SyncEqualsRestartIff | internal/chain/awg_peersync.go:106-109 | with distinct keys, sync and restart agree exactly when later peers claim what each blank AllowedIPs stands for |
| PeerTable.SyncFromRenderedConf | internal/chain/awg_peersync.go:134-153 | syncing from a conf the renderer printed equals restarting from it |
| PeerTable.TableAsListed | internal/chain/awg_peersync.go:89-125 | for addresses written as a comma list, restart and sync give each key exactly the listed addresses that no later peer lists as well, and know no other key |
| PeerTable.EverywhereListed | internal/chain/awg_peersync.go:106-109 | the stand-in of the sync for a missing AllowedIPs reads as the two default routes |
| RemoteNode.UndoneOnce | internal/chain/awg_push.go:239-245 | a conf pushed once comes back from the rollback with its old contents, or keeps the new ones if there was no file |
| RemoteNode.RollbackRestoresIff | internal/chain/awg_push.go:239-245 | the rollback in record order restores every pre-existing conf, for all contents, exactly when no interface is pushed twice |
| RemoteNode.RestoredIsUndone | internal/chain/applier_push.go:54-113 | restoring from the backups a complete push took gives each conf what it held just before its last write |
| RemoteNode.RolledBackStep | internal/chain/awg_push.go:239-245 | one more rolled-back record composes with the earlier ones |
| RemoteNode.PushThrough | internal/chain/awg_push.go:146-182 | when all files are written and the pending units start, every pushed interface serves its new conf and is enabled, and, when no command fails, was restarted exactly if more than its peers changed |
| RemoteNode.UndoneAfter | internal/chain/awg_push.go:157-179 | after a failed write or restart, every conf pushed once is back and every unit that ran runs |
| RemoteNode.SuccessDone | internal/chain/awg_push.go:279-314 | the stages of a successful push add up to all new contents in place, sing-box up on the new config, pushed units serving and enabled, torn-down units stopped and disabled |
| RemoteNode.PeersOnlyKeepsRunning | internal/chain/awg_push.go:146-168 | from rendered text to running unit: a push that only changes a conf's peers never restarts its unit, and the unit serves the new peers |
| RemoteNode.ConfigFailureUndone | internal/chain/awg_push.go:298-312 | the stages of a push whose config.json fails last add up to every layer undone: sing-box on what it ran or on its old config.json, repeated interfaces as the rollback order says, torn-down units running and enabled exactly if they ran |
| Deploy.Node.CreateBackup | internal/chain/applier_push.go:54-82 | a copy under the current second, a path even without a file, nothing on failure |
| Deploy.Node.PerformRollback | internal/chain/applier_push.go:87-116 | the backup replaces the file when there is one, then the unit restarts; a failure leaves the file alone, and only a broken safeguard or a missing conf makes it fail |
| Deploy.Node.SyncPeers | internal/chain/awg_peersync.go:89-125 | whatever the removal order, a completed sync leaves the asserted peers and only those |
| Deploy.Node.TryPeerSync | internal/chain/awg_peersync.go:134-153 | a sync happens only on a running unit with an unchanged interface section, always then if no command fails, and equals a restart from the new conf |
| Deploy.Node.RollbackConfs | internal/chain/awg_push.go:239-245 | every record in order, failures passed over, effect as the records say |
| Deploy.Node.PushConfs | internal/chain/awg_push.go:131-183 | either all confs are pushed with usable backups, with IP forwarding on and serving, enabled units, or what was written is undone; it goes through when no command fails |
| Deploy.Node.Teardown | internal/chain/awg_push.go:202-218 | stops and disables every listed unit whose command works, whether or not its status could be read, and reports those that ran |
| Deploy.Node.Restore | internal/chain/awg_push.go:224-232 | every listed unit whose command works runs and is enabled again |
| Deploy.Node.PushConfig | internal/chain/applier_push.go:163-271 | success means config.json is the new one and sing-box runs with it, failure that the old one is back and sing-box runs with what it ran or with that; the kernel layer is untouched |
| Deploy.Node.PushConfigWithAWG | internal/chain/awg_push.go:279-314 | for every failure pattern: success leaves everything new in place and loaded, an error leaves every layer as before apart from what a failed safeguard put out of reach, safeguards fail only with a cause, and without failing commands valid JSON is deployed |
| AwgPlan.FailedDeployRestores | internal/chain/awg_deploy.go:42-166 | for everything a clean node renders, its distinctness proved from the node data: with files that existed and no broken safeguard, a failed push leaves config.json and every conf as they were, sing-box running on that config.json, and every unit that ran running and as enabled as it was |
| AwgPlan.RenderStandalone | internal/chain/awg_deploy.go:116-166 | the interfaces the standalone loop emits, with its early exit |
| AwgPlan.StandaloneDistinctIff | internal/chain/awg_deploy.go:116-161 | the standalone part is distinct exactly when no chain entry holds awg0 or at most one inbound asks for awg1 |
| AwgPlan.RenderNodeAwgConfs | internal/chain/awg_deploy.go:42-166 | the interfaces of entry, balancer links, exit server, operator outbounds and standalone inbounds, in push order |
| AwgPlan.PlanDistinctIff | internal/chain/awg_deploy.go:42-166 | no interface is written twice exactly when awg0 has one writer, awg1 at most one seeker, and links and operator outbounds have their own names |
| AwgPlan.ExitAndStandaloneClash | internal/chain/awg_deploy.go:82-161 | an exit server with a standalone kernel inbound and no AWG entry writes awg0 twice |
| AwgPlan.OperatorBoundIff | internal/chain/awg_outbound.go:122-142 | the merged config binds an operator outbound to the interface the deploy writes for it exactly when it has an ID, a tag that spells its position, or comes first without a tag |
| AwgPlan.TeardownInterfaces | internal/chain/awg_deploy.go:188-263 | distinct, never a rendered interface, and exactly when awg0 and awg1 are torn down |
| Concurrency.StepInv | internal/chain/hostlock.go:19-40 | every step of every task keeps slots, WaitGroup, mutexes and per-node serial state consistent, and shrinks the work left |
| Concurrency.MutualExclusion | internal/chain/hostlock.go:35-40 | two pushes are never inside the same node |
| Concurrency.RunningBounded | internal/chain/autoapply.go:95-112 | at most the semaphore's capacity of background deploys holds a slot |
| Concurrency.Progress | internal/chain/autoapply.go:95-112 | while a task is unfinished some task can step |
| Concurrency.RunsSerialize | internal/chain/awg_push.go:279-314 | every run is finite; at its end all tasks are done, the counters are zero and each node is where its pushes, each once, serially in lock order, bring it |
| Concurrency.EverybodyCanPush | internal/chain/autoapply.go:95-112 | for any tasks and any capacity there is a run in which every task pushes |
| Topology.ResolveChainRoles | internal/chain/merged_config.go:614-675 | the nested scans return the node's role in each chain that has it, in chain order |
| Topology.LinearRole | internal/chain/merged_config.go:614-675 | flat and levelized single-node chains give every node the same entry, transit and next-hop role |
| Routing.BuildMergedRoute | internal/chain/merged_config.go:437-569 | the loops produce operator rules, then pins, then defaults, then standalone rules; what these decide is proved under Delivery |
| Routing.FirstMatchConcat | internal/chain/merged_config.go:389-405 | first match over joined rule lists is the first list's match, else the second's |
| Routing.Emit | internal/chain/merged_config.go:1382-1387 | addIfMissing keeps exactly the first outbound of every tag |
| TagClosure.ForwardEmittedIff | internal/chain/merged_config.go:957-1035 | the tag rules use for the next hop is emitted exactly when its group or single hop can be built |
| TagClosure.ValidBuilds | internal/chain/strategygroup.go:106-123 | chains that pass the topology check and whose nodes can be dialled have no dangling hop on any node |
| TagClosure.NodeClosed | internal/chain/merged_config.go:300-405 | rules, catch-all, group members, final outbound and DNS detour all name something emitted, operator-typed tags excepted |
| TagClosure.StoreClosed | internal/chain/merged_config.go:147-405 | tag closure for every node of a store of valid chains |
| Delivery.Layers | internal/chain/merged_config.go:366-405 | the assembled route section decides in the order operator rules, pins, defaults, standalone, catch-all |
| Delivery.UserPinsAt | internal/chain/merged_config.go:477-499 | on node i the pins send a source address direct at its pinned node, onward before it, and say nothing otherwise |
| Delivery.EntryCatchAll | internal/chain/awg_tun_overlay.go:326-341 | the TUN catch-all forwards to the next hop, or leaves direct on a one-node chain |
| Delivery.Delivered | internal/chain/merged_config.go:437-569 | hop by hop, non-DNS traffic leaves at exactly the pinned node, and at the last node without a pin in the chain; the catch-all never shadows a pin |
| Delivery.UserspaceLeavesAtEntry | internal/chain/merged_config.go:459-466 | traffic of a userspace AWG 3.0 entry leaves at the entry |
| Delivery.DeliveredIff | internal/chain/awg_tun_overlay.go:366-400 | traffic leaves where it should exactly when the entry runs on the kernel or is itself the exit |
| Delivery.EveryUserDelivered | internal/chain/merged_config.go:473-499 | with distinct addresses every user leaves at its own pin |
| Delivery.Carried | internal/chain/merged_config.go:501-550 | TUIC, VLESS and MTProxy users: hop by hop, non-DNS traffic leaves at the entry for a user pinned there and at the last node for everybody else |
| Delivery.CarriedIff | internal/chain/merged_config.go:501-522 | a pin reaches such a user exactly when it names the first or the last node |
| Delivery.StandaloneMatch | internal/chain/merged_config.go:553-561 | traffic under an index tag goes to that inbound's typed outbound, or direct without one; other tags are not touched |
| Delivery.StandaloneObeyedIff | internal/chain/merged_config.go:202-213 | an inbound's traffic goes where the operator wants it exactly when a rule names the tag the inbound is rendered with |
| Stores.TagOwner | internal/chain/merged_config.go:1044-1050 | two chains can claim the same tag only when one name extends the other by a dash |
| Stores.TidyDeliverable | internal/chain/merged_config.go:147-405 | a store of any chains, with names apart and plain node names, meets the conditions delivery asks for |
| Stores.TidyDeliveredIff | internal/chain/merged_config.go:437-569 | in such a store traffic leaves where it should exactly when the entry runs on the kernel or is itself the exit |
| Stores.TidyCarriedIff | internal/chain/merged_config.go:501-550 | in such a store a pin reaches a TUIC, VLESS or MTProxy user exactly when it names the first or the last node |
| Stores.LoneDeliverable | internal/chain/merged_config.go:147-405 | a chain alone in the store is deliverable, whatever inbounds and operator outbounds its nodes have |
| Stores.KernelSupportDecides | internal/chain/awg_tun_overlay.go:366-400 | one concrete two-hop chain with an AWG 3.0 entry delivers with kernel support and loses its users at the entry without |
| Stores.MiddlePinPassedBy | internal/chain/merged_config.go:514-522 | one concrete three-hop VLESS chain obeys a pin to its first node and passes by one to its second |
| ManualRules.SortByPriority | internal/chain/store.go:1237-1242 | the in-place swaps sort by priority and keep each priority's rules in order |
| ManualRules.ListRouteRulesForNode | internal/chain/store.go:1221-1245 | the node's rules, sorted, ties in store order |
| ManualRules.ExpandManualRouteRules | internal/chain/routing.go:116-224 | the expansion is rule by rule, with refused and unresolvable rules dropped; the rules are left with their rewritten actions and otherwise unchanged |
| ManualRules.RewrittenAlike | internal/chain/routing.go:265-276 | the actions rewritten in place change no later expansion, for any rules and users, and are rewritten no further |
| ManualRules.RuleDecides | internal/chain/routing.go:116-325 | for every action and match type, a rule decides exactly the packets it is about and that meet its matcher, and as the operator asked |
| ManualRules.ScopedUserIff | internal/chain/routing.go:313-325 | a rule scoped to a user takes hold of its connections on a chain's own inbound exactly for TUIC, or when the user's name is one of its credentials |
| ManualRules.PriorityDecides | internal/chain/routing.go:116-224 | a packet is decided by the store-ordered rules of the smallest priority that has a match |
| ManualRules.ManualRuleInboundScope | internal/chain/merged_config.go:576-604 | exactly the user-facing tags, each once |
| ManualRules.UntouchedIff | internal/chain/routing.go:176-184 | operator rules leave an inbound alone, for all rules and packets, exactly when the scope is non-empty and without it |
| ManualRules.UserTagIsTransit | internal/chain/merged_config.go:1488-1493 | a user tag reads like a transit tag exactly when the chain has several entries and the node ID spells the rest |
| ManualRules.TransitTagScope | internal/chain/merged_config.go:576-604 | a transit tag is in scope exactly when typed by the operator or spelled that way |
| ManualRules.TransitUnchanged | internal/chain/merged_config.go:366-405 | with such a scope every transit packet, DNS included, is decided as without operator rules |
| ManualRules.TransitSafe | internal/chain/merged_config.go:366-405 | on a node with a user-facing inbound, no typed transit tag and no such node ID, operator rules change no transit decision |
| Ports.RemapInboundPorts | internal/chain/utilities.go:67-87 | terminates for every list and gives each moved inbound the smallest free internal port |
| Ports.RemapUnique | internal/chain/utilities.go:61-64 | the assignment is determined by the inbounds, so all callers agree |
| Ports.RemapBounds | internal/chain/utilities.go:67-96 | moved ports are pairwise distinct, not caddy's, nobody's configured port and in [11000, 11000+n); the rest stay |
| Ports.DetectPortConflicts | internal/chain/merged_config.go:686-788 | passes exactly when no port is claimed twice and no chain listener is on a caddy port |
| Ports.ListenersDistinct | internal/chain/merged_config.go:1103-1130 | then all standalone and transit listeners have pairwise distinct ports |
| Ports.EntriesDistinct | internal/chain/merged_config.go:760-786 | fitting entries never share a port with another fitting role or a standalone inbound |
| Ports.GuardedIff | internal/chain/merged_config.go:686-788 | on a node that passes, behind caddy or not, neither a rival inbound nor caddy can take an entry's port unnoticed exactly when the entry's deployed inbound and node port name the port it binds |
| Ports.EntryClashMissed | internal/chain/merged_config.go:705-718 | a configuration that passes while a VLESS entry and a TCP inbound share a port |
| Ports.BuildCaddyPlan | internal/chain/utilities.go:157-188 | domain, passthrough port and SNI routes of the fronted inbounds, in order; refused without a domain |
| Ports.PassthroughReachesIff | internal/chain/utilities.go:173-178 | unmatched TLS goes to the first reality inbound with a port, nowhere without one, and finds it listening exactly when no level-0 node references its profile |
| Ports.ReferencedRealityMissed | internal/chain/utilities.go:168-178 | a configuration that passes detection while unmatched TLS goes to a port nobody binds, past a reality inbound that listens, and the entry sits on a caddy port |
| Ports.CaddyFrontedHosts | internal/chain/utilities.go:195-210 | exactly the fronted inbounds of a caddy node, each with the host of its index |
| Ports.HostsDistinct | internal/chain/utilities.go:119-126 | two fronted inbounds never share an SNI host |
| Ports.RoutesOfInbounds | internal/chain/utilities.go:157-188 | the SNI routes are exactly those of the fronted inbounds, each from the host clients are told to the port the inbound was assigned |
| Ports.RoutesReachIff | internal/chain/utilities.go:157-210 | every SNI route finds its inbound listening exactly when no fronted inbound is referenced by a level-0 node |
| Addresses.AllocateHostIp | internal/chain/cryptogen.go:487-499 | the smallest free host, and nothing exactly when all 253 are taken |
| Addresses.ExhaustedCount | internal/chain/cryptogen.go:487-499 | running out needs 253 addresses |
| Addresses.AssignTransit | internal/chain/applier_build.go:328-330 | transit addresses stay distinct and unchanged where set, and are filled unless the net has run out |
| Addresses.TransitFilled | internal/chain/applier_build.go:282-345 | up to 253 nodes every hop has an address |
| Addresses.EnsureLinks | internal/chain/applier_build.go:924-976 | one balancer's links: fails exactly on a missing or non-exit target, keeps what is set, gives every target a link with an interface name and an address while one is free |
| Addresses.AssignExitLinks | internal/chain/applier_build.go:341-344 | over the whole chain all link addresses stay distinct and unchanged where set |
| Addresses.ExitsFilled | internal/chain/applier_build.go:924-976 | with at most 253 links every exit target has a link with an interface name and an address |
| ProfilePlacement.Store.ProfileNodes | internal/chain/store.go:692-710 | exactly the nodes that carry the profile, each once |
| ProfilePlacement.Store.ApplyProfileToNodes | internal/chain/profile_deploy.go:46-185 | a conflict or unknown node on any addition leaves the store unchanged, and only that refuses; success places the profile node by node and reports exactly the added, removed, blocked and outdated nodes |
| ProfilePlacement.PlacementMeaning | internal/chain/profile_deploy.go:46-185 | the profile is then on exactly the desired and the chain-blocked nodes with its own port, obfuscation, transport and server name, AWG inbounds of outdated nodes have the given material, other inbounds are untouched, kept ones keep keys and identity, and a node gets as many fresh inbounds as it is listed |
| ProfilePlacement.ConflictsIff | internal/chain/profile_deploy.go:201-223 | a port conflict is exactly an inbound of another profile listening on the profile's positive port, an MTProxy inbound without a port listening on 443 |
| ProfilePlacement.FreshOutdatedIff | internal/chain/profile_deploy.go:126-129 | a fresh inbound counts as outdated at once exactly when the profile names a transport without being mieru, or is mieru without one |
| Migration.MigrateChainToLevels | internal/chain/migrate_v2.go:139-222 | the index lists and in-place edits produce the partition into levels, and a second run is a no-op |
| Migration.LevelsPermute | internal/chain/migrate_v2.go:199-217 | the levels hold every node once |
| Migration.FlattenLevels | internal/chain/migrate_v2.go:199-217 | flattened: entries, transits, exits, each in old order |
| Migration.RoleLessUnchanged | internal/chain/merged_config.go:614-675 | every node of a role-less chain keeps flags, flat index and next hop |
| Migration.FlagsKeptIff | internal/chain/migrate_v2.go:144-158 | entry and transit flags of all nodes survive exactly when the chain has an entry |
| Migration.EntryNodesKeptIff | internal/chain/merged_config.go:1441-1481 | the migrated chain numbers the same entry nodes exactly when position and explicit roles do not compete, and then keeps every entry port |
| Migration.EntryPortShifts | internal/chain/merged_config.go:1441-1481 | a chain whose second entry moves to another port |
| Migration.MaterializeEntries | internal/chain/migrate_v2.go:182-197 | every entry node gets the entry inbound |
| Migration.EntryCredentials | internal/chain/migrate_v2.go:238-274 | the chain's credentials arrive unchanged, once, behind what the node had |
| NodeHealth.NodeMetrics.NextState | internal/chain/nodehealth.go:98-201 | one probe, all branches and early returns, and whether the state changed |
| NodeHealth.NodeMetrics.SetNodeState | internal/chain/nodehealth.go:217-226 | the operator's mark with fresh counters |
| NodeHealth.ClosedForm | internal/chain/nodehealth.go:98-201 | the state after any history of a fresh node, read off the history: healthy, flagged with the kind of the last failure, or suspect |
| NodeHealth.TrailsDecide | internal/chain/nodehealth.go:16-20 | D trailing failures force the verdict of the last probe, R trailing successes force healthy |
| NodeHealth.FlagMoves | internal/chain/nodehealth.go:77-97 | down and unreachable are entered and left in no other way |
| NodeHealth.BlockedSticks | internal/chain/nodehealth.go:110-116 | a blocked node ignores every run of probes |
| NodeHealth.EntriesBounded | internal/chain/nodehealth.go:98-201 | n probes cause at most (n+R)/(D+R) entries into down or unreachable |
| NodeHealth.EntriesBoundTight | internal/chain/nodehealth.go:98-201 | the bound is reached for every number of entries |
| NodeHealth.UnknownClosedForm | internal/chain/nodehealth.go:98-201 | the same for a new or unblocked node: unknown up to the first good or the D-th failing probe, then as a fresh healthy node |
| NodeHealth.UnknownTrailsDecide | internal/chain/nodehealth.go:16-20 | from unknown too, D trailing failures force the verdict and R trailing successes force healthy |
| NodeHealth.UnknownFlagMoves | internal/chain/nodehealth.go:77-97 | from unknown too, down and unreachable are entered and left in no other way |
| NodeHealth.UnknownEntriesBounded | internal/chain/nodehealth.go:98-201 | from unknown too, n probes cause at most (n+R)/(D+R) such entries |
| Traffic.FoldTraffic | internal/chain/awgtraffic.go:48-95 | for every key order and every set of failed saves: the same totals, the reading as snapshot, the number of saved records |
| Traffic.OwnerIsLast | internal/chain/awgtraffic.go:56-61 | a key counts for the last user that carries it, the empty key for nobody |
| Traffic.CollectTraffic | internal/chain/awgtraffic.go:112-132 | collecting a node's interfaces, with lost readings, users and snapshots, is the events of each key |
| Traffic.NeverOvercounts | internal/chain/awgtraffic.go:64-75 | with one interface per node and no snapshot lost after a saved reading, a user's total over all nodes never exceeds the bytes transferred, restarts included |
| Traffic.NeverDecreases | internal/chain/awgtraffic.go:64-89 | totals never decrease |
| Traffic.ExactAfterReading | internal/chain/awgtraffic.go:64-75 | without restarts and losses the total is exactly the bytes transferred once every interface is read |
| Traffic.SafeIff | internal/chain/awgtraffic.go:97-132 | no run over-counts exactly when the key is read on at most one interface per node and no snapshot is lost after a saved reading: unwritten, unread, or overwritten by an older one |
| Traffic.TwoInterfacesOvercount | internal/chain/awgtraffic.go:97-132 | a run on two interfaces of one node that counts too much |
| Traffic.UnkeptOvercounts | internal/chain/awgtraffic.go:128-129 | a run with an unsaved snapshot that counts twice |
| Traffic.UnreadOvercounts | internal/chain/awgtraffic.go:124-127 | a run with a missing snapshot that counts twice |
| Traffic.StaleOvercounts | internal/web/nodes.go:655-661 | a run in which a handler writes back the snapshot it had read before a saved reading, and which counts twice |
| ObfsMaterial.HexDecodeEven | internal/chain/awg_cps.go:633-647 | the filled buffer is the value of the padded string, or nothing at the first bad digit |
| ObfsMaterial.DecodedValue | internal/chain/awg_cps.go:633-647 | the bytes are the number the digits spell, for odd lengths as well |
| ObfsMaterial.CpsRoundTrip | internal/chain/awg_cps.go:617-628 | every packet comes back from its stored form |
| ObfsMaterial.CpsReencode | internal/chain/awgcps_format.go:26-62 | decoding and encoding again gives the same stored string |
| ObfsMaterial.CaptureStored | internal/chain/awg_cps.go:540-614 | a capture of at least five packets is stored packet by packet under the requested level and mimicry, the header ranges staying the generated ones |
| ObfsMaterial.StoredReencodes | internal/chain/awg_cps.go:540-614 | every packet of stored material decodes to what was captured or generated, and encodes to the stored string |
| ObfsMaterial.KeptReencodes | internal/chain/awg_cps.go:494-614 | over any redeploys, all material the chain got since the first decodes and encodes to the same strings |
| ObfsMaterial.ChainMaterial.Ensure | internal/chain/awg_cps.go:494-580 | one call: cache rule, capture, fallback, and when it dials |
| ObfsMaterial.MaterialStable | internal/chain/awg_cps.go:510-538 | over any number of redeploys the material stays what the first call left and the domain is dialled exactly once if that call had to, never otherwise |
| ObfsMaterial.StaysIff | internal/chain/awg_cps.go:523-538 | the result of a call survives every further call exactly when the preset is not a domain-less live one with a remembered capture |
| QuicInitial.XorBitwise | internal/chain/quic_initial_aead.go:132-141 | masking is the exclusive or, bit by bit |
| QuicInitial.XorTwice | internal/chain/quic_initial_aead.go:132-141 | masking twice restores a byte |
| QuicInitial.VarintIff | internal/chain/quic_initial_aead.go:199-211 | a receiver decodes a length exactly when it is below 2^30 |
| QuicInitial.ProtectHeader | internal/chain/quic_initial_aead.go:132-141 | the in-place masking of first byte and packet number |
| QuicInitial.BuildInitial | internal/chain/quic_initial_aead.go:52-146 | the datagram: padded CRYPTO frame sealed under the header, header masked with a sample of the ciphertext |
| QuicInitial.AtLeast1200 | internal/chain/quic_initial_aead.go:83-90 | every Initial has at least 1200 bytes, and exactly 1200 while the ClientHello leaves room |
| QuicInitial.LengthFieldIff | internal/chain/quic_initial_aead.go:111-121 | the Length field decodes to exactly the bytes that follow it precisely when they are below 2^30 |
| QuicInitial.LengthLimit | internal/chain/quic_initial_aead.go:83-121 | that is, for ClientHellos shorter than 2^30 - 26 |
| QuicInitial.CryptoLengthIff | internal/chain/quic_initial_aead.go:74-77 | the CRYPTO frame announces its length correctly exactly below 2^30 |
| QuicInitial.ReceiverRecovers | internal/chain/quic_initial_aead.go:123-145 | header protection removal recovers the sealed header and the ciphertext behind it |
| QuicInitial.HkdfExpand | internal/chain/quic_initial_aead.go:183-196 | exactly the requested prefix of the HKDF blocks |
| QuicInitial.DeriveInitialKeys | internal/chain/quic_initial_aead.go:153-178 | key, IV and header-protection key follow from the salt, the DCID and the labels |
| QuicInitial.KeysAgree | internal/chain/quic_initial_aead.go:153-162 | these are the keys a receiver derives from the salt and labels of RFC 9001, key for key |
| QuicInitial.LabelsOfRfc9001 | internal/chain/quic_initial_aead.go:169-178 | the encoded client, key, IV and header-protection labels are those of appendix A.1 of RFC 9001 |
| QuicInitial.BuildQuicInitial | internal/chain/quic_initial_aead.go:52-146 | the datagram from DCID and TLS record, which a receiver reads back as the ClientHello; a record without its header is refused |
| QuicInitial.ReceiveInitial | internal/chain/quic_initial_aead.go:52-146 | a receiver that checks type and version, parses the datagram alone and derives its own keys reads back the ClientHello, for every one shorter than 2^30 - 26 |

## Left out

- Shell quoting, sleeps, journal capture, certificate generation, asset downloads and backup clean-up in the push: each command is one step with an outcome.
- A live peer set that was synced before its conf failed to write: only file contents are claimed there, as the code excludes that record from the rollback.
- JSON fields other than tags, ports, matchers and outbound references, and the `block` outbound, which no generated rule names.
- Route rules without AB_ROUTE_DNS: then no route section exists on most nodes and sing-box falls back to its first outbound.
- Delivery through multi-node levels: pins follow the flat node order there, so only linear chains deliver exactly.
- Subnet matching of source addresses: user addresses are /32, so a rule matches one address.
- Splitting the operator's match text into values, and the preset tables: parameters of the expansion.
- The peer pass-through of kernel AWG 3.0 fields other than their conf lines.
- Deploy.Node.PushConfigWithAWG: does not promise that peers of a rolled-back conf without AllowedIPs equal a restart's, as `peer_table.dfy` shows when they do.
- ProfilePlacement.Store.BuildInbound: generated keys and the subnet choice are free values; users lost with a removal are not counted.
- ProfilePlacement.Store.ApplyProfileToNodes: says nothing about the store after a failed save in the middle, which the code leaves half applied.
- Migration of standalone inbounds to profiles and the profile record itself: easy members.
- Node-level rates and timestamps of the traffic fold: a clock away from the totals.
- Relocation, cloning and import of nodes, presets, bots, CLI, diagnostics, takeover, installers, at-rest encryption: tables, I/O or thin wrappers.
- Which entries really start (one kernel AWG entry per node, MTProxy only with users): `ports.dfy` speaks of the port an entry binds when it does.
- Exit-client and operator outbound conf contents: the plan keeps their interface names.
- Uniqueness of awg-exit interface names and of evicted MTProxy ports: the code does not guarantee either.
