# A verified model of the panel's reconcilers

The panel drives systems it does not own: kernel links, nft tables and FORWARD rules, child
processes, a proxy core's client list, database rows, a hosts file, sockets. Each of its
reconcilers must bring such a system to a wanted state and survive crashes, races and state
that someone else left there. This project models those reconcilers and the printers,
parsers, validators and merges they rest on, one module for each component, and proves what
they promise. `dafny verify dfyconfig.toml` checks all of it.

| module | component | main results |
|---|---|---|
| `KernelConfig`, `KernelMeaning`, `KernelKeys`, `KernelOwned` | the `awg setconf` printer and the readers that recognise its text | `RenderedIsOwned`, `KeyReadBack`, `FingerprintExact`, `InterfaceSays`, `PeersSay`, `OwnedMeans` |
| `KernelHost`, `KernelSpec`, `KernelWanted`, `KernelManager`, `KernelRecovery` | the kernel AmneziaWG manager on a machine where the process may die at every command | `Live`, `RunsMeans`, `Recover`, `CrashAndRecover` |
| `Sidecar`, `SidecarProgress`, `SidecarFingerprint` | the two-lock supervisor of child processes, all interleavings | `OneLiveChild`, `NoOrphan`, `NoDeadlock`, `EnsureStarts`, `EnsureEnds`, `FastPathExact` |
| `Ledger`, `SyncClients`, `StoreMerge` | the ledger-based reconcilers of two cores' client sets | `SyncedClients`, `SyncRun`, `AnyRun`, `EntrySays`, `WriteRun` |
| `Imports` | carrying an external-proxy list onto host rows | `ChangedImports`, `ListCarried`, `ExactlyCarried` |
| `Collector` | charges from resettable kernel counters | `Balance`, `ReportedIsMoved`, `PruneRecounts` |
| `UDPRelay`, `EventBus` | concurrent sessions and events, all interleavings | `NewSourceServed`, `OnlyOwnRetired`, `NothingLeft`; `InOrder`, `DroppedWhenFull`, `Delivered` |
| `Params` | AmneziaWG 3.1 parameters: generator and validator | `GenerateObfuscation31`, `HeadersApart`, `RenewalExact` |
| `ClashMerge`, `UniqueNames` | Clash configuration merge and proxy names | `MergeRemoteClashRules`, `MergeRouted`, `MergeSound`; `RenamedUnique`, `RenamedAt` |
| `HostsBlock` | the panel's block in the hosts file | `StripWritten`, `EntriesResolve`, `LastWriteCounts`, `StripKeepsLines` |
| `DNSRules` | a legacy policy as first-match rules | `RulesAnswer`, `RewriteKeepsPolicy` |
| `PortForward`, `Outbounds` | port-forward listeners; client tunnels and their registry | `Reconcile` of each, `CoversEither`, `RunsExact` |
| `Socks` | SOCKS5 datagram and password framing (sections 7 of RFC 1928 and 2 of RFC 1929) | `DatagramRoundTrip`, `AuthExact` |

How a crash is modelled: the host carries the number of commands the process still executes.
Every contract of the kernel manager is stated for every such number, so it speaks about every
point between two commands or file writes. A protocol under locks is a `Step` function over
one state, one step for each critical section, and a run is any sequence of events.

## What was found

Where the code does not meet what its comments or its design promise, the code is modelled as
it is, and the exact condition is proved.

- An inbound with a rendered peer whose only allowed IP is the empty text renders a config the
  panel does not recognise as its own afterwards, and only such an inbound does
  (`KernelConfig.RenderedIsOwned`).
- A process that dies between adding the link and loading the config of an inbound whose
  private key derives no public key leaves a link that no later process removes or repairs; at
  that crash point recovery is possible if and only if the key is usable
  (`KernelRecovery.CrashInEnsure`). Recovery is proved for runs whose wanted keys are usable.
- A launch that fails before it stops the old child stores the new fingerprint over that child.
  The fast path then takes the old child for the new launch
  (`SidecarFingerprint.EarlyFailureMasks`). No other step leaves an untrue fingerprint stored
  (`TruthKept`), and the next launch of that entry that reaches its commit mends it
  (`TruthMended`). But every launch passes through one: from the start of its child to its commit
  the old fingerprint stands over the new child, and the first check of an Ensure, which holds
  no start lock, may act on it (`FastPathExact`, `CommitMasks`).
- `writeQWDTTStore` promises never to discard what the child owns, but its ledger names every
  wanted credential, those it found in the store included. An entry of the core's own that some
  list wants and a later one does not is deleted, and a still later list that wants it brings
  back an entry without the core's keys (`StoreMerge.WriteRun` has the exact condition).
- The store file and its ledger are written one after the other. A process that dies between
  them leaves credentials that stay until a later list wants them again (`StoreMerge.LeftoverNext`).
- `SyncClients` writes its ledger only at its end: a credential a failed call has created, also by
  a request whose answer was lost, is taken for a foreign one by every later call. So is one that
  becomes the main credential. Exactly these stay in the core outside the ledger
  (`SyncClients.AnyRun`, `SyncClients.OrphanStep`).
- `yamlQuoted` escapes no line break but the newline, and YAML folds the others
  (`StoreMerge.QuoteRoundTrip`).
- A rejected in-place configuration is forgotten, although the device has already applied its
  first lines: going back to the old text then counts as unchanged and sends nothing
  (`Outbounds.Revert`, with the exact condition in `RunsExact`).
- `SetEmails` drops the baseline of every peer that is not wanted, also while the kernel still
  counts it. If its counter is not reset before the next poll, that poll reports it anew from
  zero, too much by exactly the dropped baseline, however much the peer moved in between
  (`Collector.PruneRecounts`, `Collector.ChargedTwice`). A peer whose counter did not go back is
  charged for what it moved if and only if there was no such poll (`Collector.ReportedIsMoved`).
- An import's list of server names is the one list whose empty value is not taken for nil, and
  an import always has one, so a row from before that column is never an untouched import
  (`Imports.SameExact`, `Imports.NamelessStays`).
- When the row of a changed or shared entry was edited or deleted, the entry of the new list that
  would take it gets no row at all; the rows become the new list exactly when no needed row is
  missing (`Imports.ExactlyCarried`). When no row is untouched, nothing is carried.
- `ValidateObfuscation` reads a rekey time of white space only as zero, so it compares no rekey
  time with the reject time (`Params.RenewalExact`, `Params.BlankRekeyAccepted`). Inbounds are made
  canonical first, which rules this out (`Params.CanonicalRenews`); outbounds are not. The kernel
  config omits such a value, which leaves the engine's 120 seconds; an outbound's is sent as it is.
- A stray block header without its footer is left alone by the first strip, but the block written
  under it gives it a footer, and the next strip removes the user's lines in between
  (`HostsBlock.StraySwallows`); the round trip holds exactly without such headers
  (`HostsBlock.StripWritten`).
- The password request cuts each length to one byte: the server reads back what the client meant
  exactly when both texts are at most 255 bytes long (`Socks.AuthExact`).

## Model

| member | source | states |
|---|---|---|
| `KernelConfig.ParseInterfaceNameExact` | internal/amneziawgkern/ownership.go:16-25 | an interface name is read back as inbound id exactly when id is positive and the name is the one the panel gives that inbound |
| `KernelConfig.InterfaceNameInjective` | internal/amneziawgkern/config.go:41-43 | two inbounds never share an interface name |
| `KernelConfig.WriteObfuscation` | internal/amneziawgkern/config.go:189-228 | the parameter block written piece by piece is the list of settings that `KernelKeys.InterfaceSays` reads key by key |
| `KernelConfig.ValidateConfigValues` | internal/amneziawgkern/config.go:144-177 | accepts exactly the instances none of whose interface or peer values holds a control character |
| `KernelConfig.Render` | internal/amneziawgkern/config.go:113-142 | refuses exactly the instances with no private key or a control character, and prints every other one as the text that `KernelKeys.InterfaceSays` and `KernelKeys.PeersSay` read key by key |
| `KernelConfig.ValidOwnedConfig` | internal/amneziawgkern/ownership.go:106-144 | the loop accepts exactly the configs whose lines `KernelOwned.OwnedMeans` describes |
| `KernelConfig.ReadPrivateKey` | internal/amneziawgkern/ownership.go:75-91 | the loop finds the key that `KernelOwned.KeyReadExact` describes |
| `KernelConfig.RenderedIsOwned` | internal/amneziawgkern/config.go:113-142 | the text of every instance Render accepts is recognised as the panel's own for its inbound, if and only if no rendered peer's allowed IPs are just the empty text |
| `KernelConfig.KeyReadBack` | internal/amneziawgkern/ownership.go:75-91 | the reader gets back from a rendered text exactly the private key that was printed, whatever the peers hold |
| `KernelConfig.KeyInSection` | internal/amneziawgkern/manager.go:501-506 | everything an owned config says about its private key stands above its first peer |
| `KernelConfig.SectionOfRendered` | internal/amneziawgkern/config.go:284-291 | the part above the first peer section is the text without its peers, whatever the peers are |
| `KernelConfig.SameSectionSameKey` | internal/amneziawgkern/manager.go:124-135 | two owned configs with the same interface section carry the same key, which is what adoption relies on |
| `KernelConfig.FingerprintInjective` | internal/amneziawgkern/config.go:284-291 | two equal fingerprint texts come from the same interface section, addresses and MTU |
| `KernelConfig.FingerprintExact` | internal/amneziawgkern/config.go:284-291 | the fingerprint of a rendered inbound changes exactly when a rendered interface setting, an address or the MTU changes; peers never move it |
| `KernelMeaning.RenderedMeans` | internal/amneziawgkern/config.go:113-142 | a reader of this model, which opens a section at each bracketed line, skips blank and comment lines and takes all after the first " = " for a value, gets back from the rendered text exactly the list of interface settings and, for each peer with a key and addresses, its own; what each key then says is told by the two rows below |
| `KernelKeys.InterfaceSays` | internal/amneziawgkern/config.go:113-228 | read by that reader, the interface section of every rendered text gives each key at most once, and only known keys: `PrivateKey`, `ListenPort`, `Jc`, `Jmin`, `Jmax`, `S1` and `S2` always carry their own field, `S3` and `S4` exactly when positive, `H1` to `H4` the trimmed header or else the index, `I1` to `I5` exactly when set, the seven optional keys their own trimmed field exactly when that is not blank, and each flag is there exactly when on |
| `KernelKeys.PeersSay` | internal/amneziawgkern/config.go:121-140 | below it there is one section for each peer that has a key and addresses, in order, with that peer's public key, its preshared key exactly when it has one, and its addresses joined |
| `KernelOwned.OwnedMeans` | internal/amneziawgkern/ownership.go:106-144 | a config is taken for the inbound's own if and only if it begins with the inbound's marker line, holds no carriage return or null character, has an interface section, and every line belongs where it stands: comments only below a peer section, one interface section and no peer above it, settings only with a value and a key of their section |
| `KernelOwned.KeyReadExact` | internal/amneziawgkern/ownership.go:75-91 | the key read is the one on the last key line, none without such a line, and a config is refused if and only if a line with a key stands above another key line |
| `KernelHost.DeleteFirstMine` | internal/amneziawgkern/manager.go:265-292 | deleting a listed rule of an inbound removes just that rule, of that inbound only |
| `KernelHost.SafeElsewhere` | internal/amneziawgkern/manager.go:91-165 | work that touches one inbound and is safe there keeps the ownership invariant of the whole machine |
| `KernelSpec.InterfaceAddresses` | internal/amneziawgkern/config.go:238-258 | the loop returns the IPv4 prefixes in order, or refuses a malformed or IPv6 one and an empty list |
| `KernelSpec.BuildSpecIsSpec` | internal/amneziawgkern/config.go:69-104 | every spec that builds carries an owned config with the inbound's own key, at least one address, the fingerprint of its own text, and FORWARD rules of its own link or none; what it asks of the machine is told by `KernelWanted.RunsMeans` |
| `KernelWanted.BuildsExactly` | internal/amneziawgkern/config.go:69-104 | a spec is built exactly from the settings with a positive id whose interface name fits, a wildcard or blank listen address, a text that renders, blank or IPv4 addresses of which one is an address, and, unless routed through Xray, a valid NIC name |
| `KernelWanted.RunsMeans` | internal/amneziawgkern/config.go:69-104 | an inbound runs as its spec asks if and only if its settings are such, its config file is the text rendered for it, its link runs that text with the key derived from its own private key, has the configured MTU if positive and else 1420 less a positive S4 but at least 1280, and all its IPv4 prefixes; and, when not routed through Xray, its NAT table masquerades exactly its prefixes in order out of the egress interface, or the default one when that is blank, and with iptables its rules are the two between its own link and that NIC; routed through Xray it has no table and no rule |
| `KernelWanted.BuildableMeans` | internal/amneziawgkern/config.go:69-104 | the host can start exactly such an inbound whose key derives a public key and that lists no prefix twice |
| `KernelManager.Manager.constructor` | internal/amneziawgkern/manager.go:80-82 | a fresh manager remembers nothing and holds the invariant on any safe machine |
| `KernelManager.Manager.DeleteLink` | internal/amneziawgkern/manager.go:220-229 | at every crash point the machine is safe and nothing but the link has changed; if the process lives the link is gone |
| `KernelManager.Manager.CreateLink` | internal/amneziawgkern/manager.go:198-218 | at every crash point a link of the inbound is keyless or carries the installed config's key; if the process lives it succeeds exactly for an acceptable spec, and then the link runs it |
| `KernelManager.Manager.RemoveForwardRules` | internal/amneziawgkern/manager.go:265-292 | removes exactly the rules tagged for the inbound, whatever egress they name, and no other rule at any crash point |
| `KernelManager.Manager.SyncForwardRules` | internal/amneziawgkern/manager.go:251-261 | leaves exactly the two rules asked for, or none, and every other rule in order |
| `KernelManager.Manager.ApplyEgress` | internal/amneziawgkern/manager.go:232-247 | brings NAT (when it changed), forwarding and the rules to the spec, and never leaves a table or rule without an owned config |
| `KernelManager.Manager.VerifyLive` | internal/amneziawgkern/manager.go:318-331 | accepts a live link exactly when the config's key derives and the link is keyless or carries it |
| `KernelManager.Manager.Adopt` | internal/amneziawgkern/manager.go:188-196 | takes over a verified link with the same section, addresses and MTU: safe at every crash point, the wanted spec exactly if the process lives |
| `KernelManager.Manager.Reconfigure` | internal/amneziawgkern/manager.go:174-184 | brings a managed, structurally equal link to the new spec, safe at every crash point |
| `KernelManager.Manager.Rebuild` | internal/amneziawgkern/manager.go:137-164 | the old config stays until its link is gone and the new one is there before the new link, so every crash point is safe; a failed build leaves no link |
| `KernelManager.Manager.Ensure` | internal/amneziawgkern/manager.go:91-165 | keeps the invariant at every crash point and touches no other inbound; if the process lives it succeeds exactly when the config file is the panel's, the link is proven its own and it can be kept or rebuilt, and then config, link, addresses, MTU, NAT table and rules are those the settings ask for, told by the settings and the machine alone; a failure forgets nothing it knew |
| `KernelManager.Manager.Teardown` | internal/amneziawgkern/manager.go:462-497 | refuses exactly an untrusted config or a link it cannot prove, and then changes nothing; otherwise, if the process lives, no link, table, rule or config is left, and at every crash point what is left is still owned |
| `KernelManager.Manager.Remove` | internal/amneziawgkern/manager.go:380-384 | the same for one inbound, and no other inbound is touched |
| `KernelManager.Manager.OwnedConfigIDs` | internal/amneziawgkern/ownership.go:29-48 | lists exactly the inbounds with a recognised config on disk |
| `KernelManager.Manager.TeardownAll` | internal/amneziawgkern/manager.go:343-354 | in whatever order the ids are visited, every removable one ends clean, no other changes, and every inbound stays recoverable |
| `KernelManager.Manager.EnsureAll` | internal/amneziawgkern/manager.go:372-376 | after the list, the last entry of every buildable, recoverable inbound runs exactly as `KernelWanted.RunsMeans` tells; inbounds not listed are untouched |
| `KernelManager.Manager.Reconcile` | internal/amneziawgkern/manager.go:335-377 | if the process lives, every undesired recoverable inbound is clean and the last entry of every desired one that can be started has the config, link, NAT table and rules its settings ask for, operator links apart; the invariant holds at every crash point |
| `KernelManager.Manager.StopAll` | internal/amneziawgkern/manager.go:388-397 | every managed, removable inbound ends clean, and unmanaged ones are untouched |
| `KernelManager.Manager.DeadAtAddExact` | internal/amneziawgkern/manager.go:198-218 | a process that dies with the link of a new inbound added and not loaded leaves it recoverable, and removable, if and only if the inbound's key is usable; otherwise no later Ensure of that inbound succeeds |
| `KernelRecovery.Live` | internal/amneziawgkern/manager.go:91-497 | after any number of processes, each doing any operations and dying at any command, and any of them started after a reboot that cleared the panel's links, tables and rules, every link, table and rule of the panel has an owned config, every live link is keyless or carries its key, and the operator's links are unchanged |
| `KernelRecovery.BootKeeps` | internal/amneziawgkern/manager.go:335-377 | a reboot keeps the ownership invariant, and leaves every inbound recoverable that was |
| `KernelRecovery.CrashInEnsure` | internal/amneziawgkern/manager.go:91-165 | a process that runs Ensure for any number of commands leaves the inbound recoverable when its key is usable; at the crash point between link add and setconf of a new inbound it does so if and only if the key is usable |
| `KernelRecovery.Recover` | internal/amneziawgkern/manager.go:335-377 | one Reconcile of a fresh process that gets through it leaves every undesired inbound clean and every desired one that can be started with the config, link, NAT table and rules its settings ask for |
| `KernelRecovery.CrashAndRecover` | internal/amneziawgkern/manager.go:335-377 | from a machine the panel never ran on, through any such runs, one Reconcile reaches the wanted state |
| `Sidecar.StepKeeps` | internal/sidecar/manager.go:134-255 | every step of every interleaving keeps the invariant: locks held by exactly the threads between lock and unlock, every live child accounted for, every dropped entry quiet or about to be stopped |
| `Sidecar.OneLiveChild` | internal/sidecar/process.go:78-108 | in every run a Proc has at most one live child |
| `Sidecar.NoOrphan` | internal/sidecar/manager.go:134-255 | a live child's entry is registered, or a thread inside Remove, StopAll or a superseded start will still stop it |
| `Sidecar.AtRest` | internal/sidecar/manager.go:134-255 | when no call is in progress every live child is the one its registered entry says runs, and no inbound has two; that there is one is told by `SidecarProgress.EnsureStarts` |
| `Sidecar.StopAllStops` | internal/sidecar/manager.go:258-269 | a StopAll nothing interferes with leaves no entry and no child |
| `Sidecar.NoDeadlock` | internal/sidecar/manager.go:134-255 | whatever the interleaving, no call is stuck: it can take a step of its own, or the very child it waits for can still exit, be reaped or be closed, or the start lock it waits for is held by another call of which one of these is true |
| `Sidecar.StuckIsStuck` | internal/sidecar/manager.go:134-255 | the conclusion tells: a call waiting for a lock whose holder is gone meets none of its cases, and such a state is never reached |
| `Sidecar.StepAdvances` | internal/sidecar/manager.go:83-269 | every step of a call's own ends it or leaves it fewer steps to take, so no call spins |
| `SidecarProgress.EnsureStarts` | internal/sidecar/manager.go:83-255 | from any state with no call in progress, an Ensure whose fingerprint does not run yet, be there no entry, an idle one of the same or another fingerprint, or one that runs another, and in whose run nothing fails and nothing is deferred, ends, in whatever order its steps and the exits of former children come, only with the inbound registered and its entry running a new live child launched for that fingerprint |
| `SidecarProgress.EnsureEnds` | internal/sidecar/manager.go:83-255 | from every such state there is such a run to its end, the old child's exit, reaping and closing included |
| `SidecarProgress.DeferredWaits` | internal/sidecar/manager.go:96-103 | an Ensure of an idle entry's fingerprint whose retry is deferred ends at its first check and changes nothing |
| `SidecarProgress.RemoveStops` | internal/sidecar/manager.go:236-255 | a Remove that runs alone ends only with the inbound unregistered and no child launched for it live |
| `SidecarFingerprint.TruthKept` | internal/sidecar/manager.go:134-233 | every step, whatever happens at other entries, keeps what is stored for an entry truthful outside a pending commit, and a pending commit truthful about its own launch, except a launch of that entry that fails before it stops a child of another fingerprint |
| `SidecarFingerprint.TruthMended` | internal/sidecar/manager.go:155-233 | a launch of the entry that reaches its commit in any other way makes it truthful again, whatever was stored |
| `SidecarFingerprint.RecheckTruthful` | internal/sidecar/manager.go:138-152 | an Ensure that holds the start lock and finds its fingerprint running finds a child spawned for it, unless such a failure at its own entry has not been followed by a launch that reached its commit |
| `SidecarFingerprint.FastPathExact` | internal/sidecar/manager.go:88-96 | with no such failure at its entry outstanding, an Ensure the first, lock-free check sends away ends there, and the running child was spawned for its fingerprint if and only if no launch for another fingerprint stands between its start and its commit |
| `SidecarFingerprint.CommitMasks` | internal/sidecar/manager.go:88-96 | such a launch, with no failure at all, leads to a state where an Ensure of the stored fingerprint is sent away while the child of the other one runs |
| `SidecarFingerprint.EarlyFailureMasks` | internal/sidecar/manager.go:155-174 | after such a failure the entry carries the new fingerprint over the old child, and is truthful exactly if that child already ran for it |
| `SyncClients.Days` | internal/sidecar/csqtt_api.go:407-419 | zero exactly without an expiry, else between one day and ten years, and the whole days left whenever they lie between |
| `SyncClients.CSQTTClient.BuildWanted` | internal/sidecar/csqtt_api.go:165-185 | the wanted list in order, of which `SyncedClients` tells the outcome by the clients |
| `SyncClients.CSQTTClient.SplitLedger` | internal/sidecar/csqtt_api.go:187-206 | the ledger's own trimmed credentials, split into those still wanted and those to delete |
| `SyncClients.CSQTTClient.ConvergeAll` | internal/sidecar/csqtt_api.go:208-238 | on success the core is the wanted list applied in order and the new ledger entries are those the core lacked; a failure stops at one entry of that order |
| `SyncClients.CSQTTClient.Sync` | internal/sidecar/csqtt_api.go:146-241 | success leaves in the core what was there, less the ledger's credentials that are not the panel's, and the panel's, which are exactly the trimmed passwords neither blank nor the trimmed main one; each of these is active if and only if the last client with it is enabled and not expired, a record the call created carries the first such client's email, that email's hash and the days left, and the ledger lists the panel's credentials it listed or created; a failure, whether or not the core carried out the request whose answer did not come, leaves the ledger and a prefix of the work; the cookie dialect changes nothing |
| `SyncClients.ApplyAllEffect` | internal/sidecar/csqtt_api.go:208-238 | the wanted credentials are added, none is lost, entries not wanted are unchanged, and an entry that was there changes at most its flag |
| `SyncClients.ApplyAllFlags` | internal/sidecar/csqtt_api.go:208-238 | every wanted credential ends with the flag its last entry carries |
| `SyncClients.SyncedClients` | internal/sidecar/csqtt_api.go:146-241 | that outcome for any core, ledger and clients: which credentials stay, which are active, and what a new record carries |
| `SyncClients.FlagIs` | internal/sidecar/csqtt_api.go:165-185 | the last listed flag of a credential says whether the last client with that trimmed password is enabled and has no expiry or one after now |
| `SyncClients.RecordIs` | internal/sidecar/csqtt_api.go:208-238 | a credential the core lacked gets the email, hash and days of the first client with it |
| `SyncClients.FailureContained` | internal/sidecar/csqtt_api.go:146-241 | a call that fails midway has touched nothing outside its ledger and its wanted list |
| `SyncClients.CallStep` | internal/sidecar/csqtt_api.go:146-241 | one successful call takes foreign plus last wanted to foreign plus newly wanted, and the ledger to wanted minus foreign |
| `SyncClients.SyncRun` | internal/sidecar/csqtt_api.go:146-241 | over any run of successful calls from an empty ledger, the core holds exactly its own credentials and those of the last clients, each active if and only if its last client may be online, the ledger is the last clients' credentials less the foreign ones, and an entry no client asked for is unchanged |
| `SyncClients.AnyRun` | internal/sidecar/csqtt_api.go:146-241 | over any run of calls, each of which may fail at any request, carried out or not, and under any main password, no foreign entry is removed or enters the ledger, it changes at most its flag, and one that no list wanted is unchanged; besides the foreign entries the core holds outside the ledger exactly the credentials of the orphaning steps below |
| `SyncClients.OrphanStep` | internal/sidecar/csqtt_api.go:187-240 | a credential is in the core and not in the ledger after a call if and only if it was so before, or a failed call has just created it, or a successful one dropped it from the ledger because it is the main credential now |
| `StoreMerge.OwnKeysKept` | internal/sidecar/prepare.go:128-151 | an entry of the store keeps every key the panel does not write |
| `StoreMerge.LastWins` | internal/sidecar/prepare.go:128-151 | a wanted credential's entry is the one there was, as the last enabled client with that credential writes it |
| `StoreMerge.EntrySays` | internal/sidecar/prepare.go:128-151 | under a credential that some enabled client bears, by its own trimmed password or by the shared one when its own is blank, the merge leaves the label of the last such client, an active flag, its expiry exactly if it has one, its hash exactly if it has one, and every other key as it was |
| `StoreMerge.WantedIs` | internal/sidecar/prepare.go:128-134 | the wanted credentials are exactly those some enabled client bears |
| `StoreMerge.WriteAgain` | internal/sidecar/prepare.go:128-151 | merging the same clients again changes nothing |
| `StoreMerge.QWDTTStore.Write` | internal/sidecar/prepare.go:107-172 | the store is the merged one without the ledger's unwanted credentials, and the ledger becomes the wanted credentials, or stays when the process dies between the two files |
| `StoreMerge.WriteRun` | internal/sidecar/prepare.go:107-172 | over any run of writes from an empty ledger, any of which may die between the two files, the store holds what the last list wants and what is left over; an own entry keeps the keys the panel does not write if and only if no completed write that wants its credential is followed by one that does not; one that no list wanted is unchanged |
| `StoreMerge.LeftoverNext` | internal/sidecar/prepare.go:126-171 | a credential is left over, in the store and in no ledger, after a write that wanted it unrecorded and died, and until a write that wants it completes |
| `Ledger.SetKeys` | internal/sidecar/prepare.go:442-448 | lists exactly the members of the set |
| `StoreMerge.YamlQuoted` | internal/sidecar/prepare.go:381-399 | the loop writes the quoted text the round trip is about |
| `StoreMerge.QuoteRoundTrip` | internal/sidecar/prepare.go:381-399 | read as a double-quoted scalar on one line, a value comes back exactly, whatever follows, if and only if it holds no line break but the newline |
| `Imports.FindMatch` | internal/database/db.go:929-941 | finds the first unkept old entry equal to the new one, or none exactly if there is none |
| `Imports.ChangedImports` | internal/database/db.go:926-950 | the positions gone and the entries added are the two exact multiset differences of the lists, each in list order |
| `Imports.SameExact` | internal/database/db.go:1004-1016 | two hosts count as the same import if and only if they agree up to nil or empty in the five normalised lists and have equal server names, where nil and empty are two values |
| `Imports.ImportExact` | internal/database/db.go:1018-1056 | a row that agrees so with an entry's import is it if and only if it has the very list of names the import makes, which is never nil |
| `Imports.ImportedSays` | internal/database/db.go:1018-1075 | an entry's import carries its address, port, SNI, fingerprint and ECH list each in its own column, its remark or else a numbered one cut at 256 characters, its security if that is one of three, and its lists without empty texts, nil staying nil |
| `Imports.HostTable.PairUntouched` | internal/database/db.go:954-980 | pairs entries with distinct rows still equal to them and alone in their group, and leaves one out only if every such row is taken |
| `Imports.HostTable.Sync` | internal/database/db.go:886-922 | a paired row takes its new entry, keeping id, group, place and creation, or is deleted with a tombstone; surplus entries get fresh rows; no other row changes, and nothing at all when nothing changed or no row is untouched |
| `Imports.ListCarried` | internal/database/db.go:886-922 | the rows that stand for the new list afterwards hold exactly its entries but those whose old row was edited, shared or deleted |
| `Imports.ExactlyCarried` | internal/database/db.go:886-922 | they hold exactly the new list if and only if every row they need is there |
| `Imports.NamelessStays` | internal/database/db.go:886-922 | no synchronisation of imported lists ever touches a row whose server names are nil |
| `Collector.PrefixSeparates` | internal/amneziawgkern/stats.go:111-156 | an interface's key prefix covers another interface's keys only if they are the same |
| `Collector.InboundsSeparate` | internal/amneziawgkern/stats.go:111-156 | the prefixes of two inbounds' interfaces cover each other's keys only if the ids are equal |
| `Collector.Collector.Delta` | internal/amneziawgkern/stats.go:114-140 | records the counters, reports for each peer the growth or, after a reset, the whole counter, omits zero charges, and leaves other interfaces alone |
| `Collector.Collector.Prime` | internal/amneziawgkern/stats.go:143-156 | makes the current counters the baselines of one interface only |
| `Collector.Collector.SetEmails` | internal/amneziawgkern/stats.go:301-346 | records the emails of one interface's active peers and drops everything kept of its other peers, baselines too, and nothing of another interface |
| `Collector.Collector.Forget` | internal/amneziawgkern/stats.go:237-262 | drops everything of one interface and nothing of another |
| `Collector.StepKeeps` | internal/amneziawgkern/stats.go:114-346 | growth, resets, polls, priming, forgetting and the dropping of baselines keep, of every peer, what was reported and is pending within what was moved and what was or will be counted twice, equal until a counter goes back |
| `Collector.PeerStep` | internal/amneziawgkern/stats.go:114-346 | a step on the whole table is to each peer what it means for that peer alone |
| `Collector.ReportedIsMoved` | internal/amneziawgkern/stats.go:114-346 | right after a poll of a peer whose counter did not go back since its account began, the bytes reported for it are those it moved and those counted twice, and just those it moved if and only if no poll charged it after its baseline was dropped with nothing between that settled that |
| `Collector.Balance` | internal/amneziawgkern/stats.go:114-346 | in every run, reported plus pending never exceeds moved plus what was counted twice and what is about to be, equals it unless a counter went back, and each of the two is nonzero exactly after the steps that make it so |
| `Collector.PruneRecounts` | internal/amneziawgkern/stats.go:301-346 | such a poll counts twice exactly what the counter showed of the dropped baseline, whatever the peer moved in between, and that is all of it for a counter that did not go back |
| `Collector.OthersUnchanged` | internal/amneziawgkern/stats.go:114-346 | no step on one interface changes what is kept for a peer of another |
| `Collector.ChargedTwice` | internal/amneziawgkern/stats.go:114-346 | a run in which a peer moves n bytes, is polled, loses its email and is polled again charges it for 2n |
| `UDPRelay.StepKeeps` | internal/amneziawgnet/relay.go:410-491 | every step keeps: the map within its cap, every mapped session open with a pump of its own, every open session in the hands of the goroutine that opened it |
| `UDPRelay.MapBounded` | internal/amneziawgnet/relay.go:396-453 | in every interleaving the map holds at most 1024 sessions, all open |
| `UDPRelay.NewSourceServed` | internal/amneziawgnet/relay.go:410-453 | while the map has room, a datagram of an unknown source whose dial succeeds ends with the dialed session open, mapped to the source and pumped, and every other source keeps its session |
| `UDPRelay.NoRoomNoSession` | internal/amneziawgnet/relay.go:416-451 | a datagram of a known source or one that finds the map full starts nothing, and an associate that finds the map full or its source taken closes what it dialed and changes no mapping |
| `UDPRelay.OnlyOwnRetired` | internal/amneziawgnet/relay.go:458-480 | no goroutine's step takes another's session out of the map or closes it |
| `UDPRelay.SessionsApart` | internal/amneziawgnet/relay.go:431-453 | two sources never share a session |
| `UDPRelay.NothingLeft` | internal/amneziawgnet/relay.go:410-491 | once all associates and pumps have ended no session is open or mapped |
| `EventBus.StepKeeps` | internal/eventbus/bus.go:58-175 | every step of publishers, dispatcher, workers, Subscribe, Unsubscribe and Stop keeps the invariant |
| `EventBus.InOrder` | internal/eventbus/bus.go:115-152 | what a subscriber has handled followed by its queue is an in-order selection of the accepted events, none twice |
| `EventBus.NothingElseLost` | internal/eventbus/bus.go:115-136 | a registered subscriber was given every event it was offered or has it recorded as dropped, never both |
| `EventBus.DroppedWhenFull` | internal/eventbus/bus.go:115-136 | in every run a subscriber lost an event if and only if, when the dispatcher handed it that event, its queue held 64 others |
| `EventBus.AcceptedWithRoom` | internal/eventbus/bus.go:97-106 | a published event goes to the end of the buffer if and only if that has room, 256 events where no size is given; otherwise nothing changes |
| `EventBus.Delivered` | internal/eventbus/bus.go:97-136 | an event published to a bus at rest reaches, once the dispatcher has run, the queue of every registered subscriber with room, once and last, and is dropped for the others |
| `EventBus.Subscribed` | internal/eventbus/bus.go:58-80 | unless the bus is stopped, Subscribe registers a subscriber with an empty queue that sees every event from the next on, takes exactly the one with the same id off the list and leaves the others |
| `EventBus.Unsubscribed` | internal/eventbus/bus.go:83-93 | Unsubscribe takes exactly the subscriber with that id off the list and closes its quit channel |
| `EventBus.Bounded` | internal/eventbus/bus.go:41-106 | both stages stay within their bounds |
| `EventBus.ClosedOnce` | internal/eventbus/bus.go:58-93 | registered ids are unique and no quit channel is closed twice |
| `Params.ValueRoundTrip` | internal/amneziawg/params.go:424-442 | a printed value parses back to itself |
| `Params.RangeRoundTrip` | internal/amneziawg/params.go:424-442 | a printed range parses back to its bounds |
| `Params.ValidateNoOverlap` | internal/amneziawg/params.go:403-420 | accepts exactly the headers whose ranges are pairwise disjoint, a blank one standing for its index |
| `Params.ValidateChain` | internal/amneziawg/params.go:261-284 | the scan accepts exactly the specs in which every opening bracket is closed around a known tag |
| `Params.PrintedTag` | internal/amneziawg/params.go:261-284 | a printed tag is accepted if and only if its name is one of the engine's eight, and leaves exactly the rest to be read |
| `Params.ValidateObfuscation` | internal/amneziawg/params.go:168-250 | accepts exactly the sets that pass every bound, chain, header, key and timing check |
| `Params.SizesExact` | internal/amneziawg/params.go:137-216 | the server accepts exactly the sets in which a padded handshake initiation and response differ in length, all three padded handshake packets fit into 1700 bytes, the counts and the header key fit the engine, with header protection each padding has its 12 bytes, and chains, headers and times are in order |
| `Params.RangeOkExact` | internal/amneziawg/params.go:382-399 | a printed range is accepted exactly when it ascends from the smallest value allowed within 32 bits |
| `Params.HeadersApart` | internal/amneziawg/params.go:403-420 | no message type belongs to two headers of an accepted set |
| `Params.OverlapRefused` | internal/amneziawg/params.go:403-420 | two headers that share a message type are refused |
| `Params.RenewalExact` | internal/amneziawg/params.go:235-248 | in an accepted set every rekey time a range or a blank field allows is below every such reject time, a white-space rekey time counting as blank, if and only if the rekey time is not white space beside a reject time of at most 120 |
| `Params.CanonicalRenews` | internal/amneziawg/params.go:286-290 | where the rekey time is made canonical before the check, as for inbounds, every accepted set renews in time |
| `Params.BlankRekeyAccepted` | internal/amneziawg/params.go:235-248 | a set with the white-space rekey time and a reject time of one second is accepted |
| `Params.GenerateHeaders` | internal/amneziawg/params.go:125-135 | one printed value from each of the four bands |
| `Params.BandedApart` | internal/amneziawg/params.go:125-135 | values of the four bands never overlap and are valid headers |
| `Params.DrawnAccepted` | internal/amneziawg/params.go:51-111 | every set within the drawn bounds is accepted, through printing and parsing of all its fields |
| `Params.GenerateObfuscation31` | internal/amneziawg/params.go:51-111 | whatever is drawn, the generated set is accepted by ValidateServerObfuscation |
| `ClashMerge.HasClashMatchRule` | internal/sub/clash_service.go:1714-1726 | finds a MATCH rule exactly if there is one |
| `ClashMerge.MatchKept` | internal/sub/clash_service.go:1676-1691 | merging rules over a list with a MATCH rule leaves one |
| `ClashMerge.MergeClashProxyGroups` | internal/sub/clash_service.go:1632-1665 | the loops return the merged list the two lemmas below are about |
| `ClashMerge.GroupChosen` | internal/sub/clash_service.go:1632-1665 | the result holds exactly the named remote groups and the base groups whose name no remote group takes |
| `ClashMerge.MergedApart` | internal/sub/clash_service.go:1632-1665 | merged groups are named, no two alike, with all the names of both lists |
| `ClashMerge.ValidateRouteGraph` | internal/sub/clash_service.go:1531-1630 | accepts exactly the configurations in which every group member, provider proxy, rule target and rule set names something that is there |
| `ClashMerge.ValidateRemoteValue` | internal/sub/clash_service.go:1473-1529 | accepts exactly the well-formed rules, groups and providers |
| `ClashMerge.MergeRemoteClashRules` | internal/sub/clash_service.go:1441-1471 | in whatever order the remote keys are visited, it succeeds exactly when every counting entry is well formed and no reference of the result dangles, and then with the same result, which is routed as `MergeRouted` tells |
| `ClashMerge.MergeRouted` | internal/sub/clash_service.go:1441-1471 | told by the two documents and the result: the remote rules come first and the base's follow, all and in order, exactly when no remote rule is a MATCH rule, and absent or empty remote rules leave the base's; the groups are the remote's and then the base's whose names they leave, in order; remote providers, and `dns` and `sniffer` when wanted and maps, stand there as given; every other entry is the base's |
| `ClashMerge.MergeSound` | internal/sub/clash_service.go:1441-1471 | a successful merge into a base whose groups are uniquely named and whose rules have a MATCH rule keeps both so, the generated proxies and every other entry unchanged |
| `UniqueNames.TakenBound` | internal/sub/clash_service.go:330-347 | no more numbered candidates can be taken than there are names, so the numbering loop ends |
| `UniqueNames.FreeName` | internal/sub/clash_service.go:337-343 | the loop finds the first candidate not taken |
| `UniqueNames.EnsureUniqueProxyNames` | internal/sub/clash_service.go:330-347 | terminates on every list and renames it in place to the list the lemmas are about |
| `UniqueNames.RenamedUnique` | internal/sub/clash_service.go:326-347 | every name is non-empty and no two are alike |
| `UniqueNames.RenamedAt` | internal/sub/clash_service.go:330-347 | order is kept and only names change: a proxy keeps its name, or is named by type, server and port, or by its place, when no proxy before it ends up with that name, and else gets a hyphen and the first number from 2 on that makes it differ from all before |
| `UniqueNames.RenamedAgain` | internal/sub/clash_service.go:330-347 | a list with unique names is left as it is |
| `HostsBlock.HostsBlockRange` | internal/dnsresolver/dnsresolver.go:708-729 | the loops find the first header's block, and none when that header has no footer |
| `HostsBlock.RangeIsBlock` | internal/dnsresolver/dnsresolver.go:708-729 | what is found is one whole block: separator, marker, note, then no separator before the last line |
| `HostsBlock.StripHostsBlock` | internal/dnsresolver/dnsresolver.go:689-704 | the builder returns the text without that block |
| `HostsBlock.StripKeepsLines` | internal/dnsresolver/dnsresolver.go:685-704 | no line outside one complete block is removed, and nothing at all without one |
| `HostsBlock.OldBlockStripped` | internal/dnsresolver/dnsresolver.go:685-739 | a block under the earlier version's marker is removed too, and exactly the lines around it stay |
| `HostsBlock.UpdateHostsBlock` | internal/dnsresolver/dnsresolver.go:635-671 | the builder writes the stripped text and the block the lemmas below are about |
| `HostsBlock.EntriesReadBack` | internal/dnsresolver/dnsresolver.go:635-671 | the block found in a written file is the one just written, with the entries' lines in order |
| `HostsBlock.EntriesResolve` | internal/dnsresolver/dnsresolver.go:635-671 | a reader that takes what stands before the first blank of a line for the address and the rest for the name gets back from the block every entry that has both, in order |
| `HostsBlock.StripWritten` | internal/dnsresolver/dnsresolver.go:635-704 | stripping a written file returns what stood above the block, if and only if that had no block header of its own |
| `HostsBlock.UserTextKept` | internal/dnsresolver/dnsresolver.go:635-704 | then the user's text comes back up to newlines at its end |
| `HostsBlock.LastWriteCounts` | internal/dnsresolver/dnsresolver.go:635-671 | then writing twice is writing once, and the last block counts |
| `HostsBlock.StraySwallows` | internal/dnsresolver/dnsresolver.go:708-729 | under a header without footer, the strip after a write removes the user's lines and leaves the block's |
| `DNSRules.LegacyDNSOutboundRules` | internal/database/db.go:2623-2643 | builds the rules the lemma below is about |
| `DNSRules.RulesAnswer` | internal/database/db.go:2621-2656 | for every mode, list and query type the first matching rule gives the legacy answer: a blocked type is refused with code 5 in reject mode and dropped in the others, then 1 and 28 are hijacked, then reject refuses with code 5, drop drops and skip lets pass |
| `DNSRules.NumericZeroBlocksAll` | internal/database/db.go:2645-2656 | a numeric 0 would drop every query, and the list of 0 alone is printed instead |
| `DNSRules.LegacyDNSBlockTypes` | internal/database/db.go:2603-2619 | the nested loops collect the valid types of every item in order |
| `DNSRules.TypesAre` | internal/database/db.go:2603-2619 | a type is read if and only if it lies between 0 and 65535 and some comma-separated part of some item, trimmed, is its number |
| `DNSRules.ReadPolicyAnswers` | internal/database/db.go:2603-2643 | whatever was stored, the rules made of it give that answer, a type being blocked if and only if some item names it, alone or between commas |
| `DNSRules.RewriteQTypeZero` | internal/database/db.go:2689-2722 | repairs every numeric 0 of a dns outbound, and reports a change exactly if there was one |
| `DNSRules.RepairIdempotent` | internal/database/db.go:2687-2722 | a second repair changes nothing, and nothing is broken after the first |
| `DNSRules.RepairedMatches` | internal/database/db.go:2687-2722 | a repaired rule matches type 0 only, every other rule as before |
| `DNSRules.RewriteKeepsPolicy` | internal/database/db.go:2537-2588 | rewriting the legacy keys keeps every query's answer, as the stored mode text and items give it, leaves none of them, and need not be repeated |
| `PortForward.ParseForwardedPorts` | internal/amneziawg/portfwd.go:20-62 | the specifications are valid, unrepeated, and cover exactly the ports some token says: its own number, or any from its first number to its second |
| `PortForward.CoversPrinted` | internal/amneziawg/portfwd.go:48-76 | a printed number covers just that port, and a printed range just the ports from its first to its last |
| `PortForward.CoversEither` | internal/amneziawg/portfwd.go:20-46 | joined by a comma or a semicolon, two specifications cover what one of them covers |
| `PortForward.ForwardedPortsInclude` | internal/amneziawg/portfwd.go:85-92 | true exactly for the covered ports |
| `PortForward.AddSpecsIs` | internal/amneziawg/portfwd.go:124-142 | the collected ports are covered and unrepeated, and all of them unless the limit is reached |
| `PortForward.Expand` | internal/amneziawg/portfwd.go:124-142 | strictly ascending covered ports, as many as there are up to the limit, and all of them when they fit |
| `PortForward.ExpandForwardedPorts` | internal/amneziawg/portfwd.go:108-110 | the same at the cap of 100 |
| `PortForward.ExceedsForwardedPortsCap` | internal/amneziawg/portfwd.go:112-119 | true exactly when more than 100 distinct ports are covered |
| `PortForward.TargetsAre` | internal/amneziawgnet/portfwd.go:115-135 | the target of an email is the address of the last peer of that email that has one: its first IPv4 address, or its first IPv6 one when it has no IPv4 one and the inbound carries IPv6 |
| `PortForward.DesiredPortForwardKeys` | internal/amneziawgnet/portfwd.go:137-165 | a TCP and a UDP key for exactly the expanded ports of the peers with email, ports and a target |
| `PortForward.ForwardedPortOwner` | internal/amneziawgnet/portfwd.go:167-178 | names a peer exactly when a listener for the port is wanted, and then one that wants it |
| `PortForward.PortForwardSet.Reconcile` | internal/amneziawgnet/portfwd.go:186-225 | afterwards the listeners are the wanted keys less failed binds, kept ones on the same socket, dropped ones closed, and no other socket open |
| `PortForward.PortForwardSet.Close` | internal/amneziawgnet/portfwd.go:241-249 | no listener and no socket is left |
| `Outbounds.OutboundManager.Ensure` | internal/amneziawgnet/outbound_manager.go:101-144 | succeeds exactly when the machine can bring the tunnel there, keeps the device when address and MTU are unchanged, touches no other tunnel; success registers the wanted text, which the device has just taken unless it was the remembered one; a refused text is remembered nowhere, leaves something of it on a kept device, and a failed rebuild leaves no registration |
| `Outbounds.OutboundManager.RunsExact` | internal/amneziawgnet/outbound_manager.go:110-125 | a tunnel registered as wanted runs so if and only if its device refused nothing since the last text it took, or what the refused one left happens to be just that |
| `Outbounds.Revert` | internal/amneziawgnet/outbound_manager.go:113-124 | after a refused text, wanting the old one again succeeds without sending anything, and the device runs what the refused text left |
| `Outbounds.OutboundManager.Reconcile` | internal/amneziawgnet/outbound_manager.go:57-97 | no undesired tunnel stays, every startable one is registered as wanted last and runs so when its device was settled and all texts wanted for it are accepted, the registry holds exactly the managed devices, no other device is open, and no tunnels means no listener |
| `Outbounds.OutboundManager.Remove` | internal/amneziawgnet/outbound_manager.go:147-158 | drops one tunnel with its device, registration and resolver, and no other |
| `Outbounds.OutboundManager.StopAll` | internal/amneziawgnet/outbound_manager.go:162-171 | leaves no tunnel, registration, resolver, open device or listener |
| `Socks.Frame` | internal/amneziawgnet/relay.go:304-322 | the buffer written is the framed datagram the round trip is about |
| `Socks.FramedLayout` | internal/amneziawgnet/relay.go:304-322 | byte by byte: reserved bytes and fragment 0, type 1 or 4, the 4 or 16 address bytes, the port with its high byte first, the payload |
| `Socks.DatagramRoundTrip` | internal/amneziawgnet/egress.go:634-720 | every framed datagram is read back with its address, port and payload, by the server's header parser and by the relay's receiver |
| `Socks.FramedInjective` | internal/amneziawgnet/relay.go:304-322 | datagrams that look the same carry the same |
| `Socks.HeaderParsed` | internal/amneziawgnet/egress.go:700-720 | a header is parsed exactly when its type is known and it is long enough for it |
| `Socks.DomainRoundTrip` | internal/amneziawgnet/egress.go:672-684 | a datagram to a name of 1 to 255 bytes is read back whole |
| `Socks.AuthExact` | internal/amneziawgnet/egress.go:270-293 | the server recovers user and password and reads no further, if and only if each is at most 255 bytes long |

## Left out

- KernelManager.Manager.Ensure: host commands fail only where the machine forces it (a link that exists, an address twice, an unusable key); other failures of a command are not modelled, so a rebuild that fails halfway and a later return to the old settings is not covered.
- KernelManager.Manager.Reconcile: nothing is promised about a link's up flag after adoption or about surplus addresses, which the code does not compare either.
- KernelHost: writing a config is one step (its temporary file and directory are not modelled), the NAT table is its prefixes and egress instead of nft text, and `iptables -S` is read as the list of rules.
- KernelRecovery: a reboot brings back the operator's links as they were, and either his untagged rules or the whole FORWARD chain as it stood.
- KernelSpec: the default egress interface is what the machine reports; config files that are not regular or not readable are not modelled.
- SHA-256 is taken to be injective (the fingerprint is the text it hashes), and deriving a public key is an uninterpreted function that may refuse.
- The teardown's Collector.Forget and the generation check of PrimeAdoptedTrafficBaseline are not connected with the manager; the collector is proved by itself.
- Sidecar: a stop is assumed to end the child; stop timeouts, follow-up routing and client pushes, the files Prepare writes, the lengths of retry delays and the reuse of process ids are not modelled.
- Sidecar: one child for each inbound id is claimed at rest only, because Remove frees the slot before it stops the child.
- SyncClients: a ledger file is written whole or not at all, and a login that a request needs first is part of it; HTTP, JSON and the choice of a hash are parameters, and the core is assumed to hold trimmed, non-blank credentials.
- StoreMerge: each of the two files is written whole or not at all; the rest of the document, the owner-password file, the other lines of the olcRTC configuration, and the characters YAML refuses altogether.
- Imports: stored rows are visited in any order, of which the code's is one; the JSON of the list is not modelled, and a remark's length is counted in characters.
- Collector: counters are unbounded; the tracking of endpoints and handshakes is followed only through SetEmails and Forget, and that the job charges nobody for a peer without an email is not modelled.
- UDPRelay: what a session sends and receives, its idle timeout, and the egress server's own session map.
- EventBus: Stop is called once, as its comment asks; timestamps, handlers' panics and the wait group are not modelled.
- Params: base64 decoding of the key is a parameter, the retries for S2 are a finite list, a tag's own value is not checked, as in the code, and what the engine makes of a white-space time that is sent to it is not modelled.
- ClashMerge: YAML itself, the local rules text, and the half-merged configuration a failed merge leaves to its caller.
- HostsBlock: reading and writing the file, and platforms other than Linux.
- UniqueNames: a proxy's entries other than its name, type, server and port are one field.
- DNSRules: JSON text and the case folding of protocol and mode.
- PortForward: sockets, their sessions, address parsing, and a Close that runs while Reconcile opens sockets outside the lock.
- Socks: deadlines, the greeting, replies and the resolution of names.
- Outbounds: a device that takes a text is said to run it, although blank optional lines mean unchanged to it; what a refused one leaves is arbitrary; the resolver caches and the listener's connections are not modelled.
- The relay's Xray settings, the TUIC, MTProto, VPN and frontend parts, share links, statistics jobs and the IPv6 alias table.
- Option setters, environment getters, clamps and link assembly, which would only add easy members.
