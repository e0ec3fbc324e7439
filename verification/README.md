# SD-Core operator: a verified model of its reconcilers

The operator in `operator/internal/controller` is a set of reconcilers, each pushing a mutable world towards a declared
intent while other parties change it. This project models four of them, with the failures and interleavings their code
has to live with, and proves what they promise over single passes and over whole runs.

- **Addresses of a site.** `SiteIndex`, `Addressing`, `VipPool` and `EdgeSites` specify the index of a name, the address
  plan derived from it, and the N2 address allocator, down to the text that is persisted and parsed again.
  `DerivedAddresses` says literally what ends up in the fields of a site and which networks that is. `SiteRuns` is the
  machine of all EdgeSite changes: user edits, Fleet writes, deletions, and derivations whose reads and write are
  separate steps, so that anything may happen in between. `SiteControllers` has the reconciler's own form: methods on
  the object it read and on the API server, tied to that machine.
- **Fleets.** `Fleet` specifies what one pass does to every object, `FleetController` is the loop of writes and
  deletions that meets it, and each of its calls is a step of `SiteRuns`.
- **Children of a site.** `Children` covers the names and contents of what a site emits, `ChildRuns` is the machine of
  single reads and writes with a count of the writes, `ChildCompletion` an undisturbed reconcile, `ChildOutcome` what
  that leaves under which name, and `ChildWriter` the reconcile in the source's form, every state of which is a state of
  that machine. `EmittedLinks` ties the emitted MeshLinks, and what a site's write does to its link, to the mesh.
- **The node's datapath.** `Netfilter` gives chains first-match semantics with jumps, `N6Nat` is the firewall program as
  a pass, `N6Runs` the same program call by call, with edits by others and crashes between any two calls, and
  `N6Packets` what its packets meet in every state of such runs; `N6Verdicts` gives the verdict of every packet after a
  pass. `HostPass` specifies a whole pass over bridges, addresses, routes, firewalls, N2 addresses and neighbours,
  `HostSteps` sets its steps against each other, `HostConvergence` says when it succeeds, what it reaches and that it
  stays there, `HostOutcome` what is then on the host, address by address and packet by packet, and `DatapathAgent`
  performs it in place. `VipAnnounce` looks across nodes and `Indent` at embedded texts.
- **Self-heal.** `SelfHeal` is the machine of listings, deletions and everything else that happens to the UPF pods, with
  the bound on deletions; `Strikes` says what a struck pod is like; `PodHealer` is one agent's pass.
- **The mesh between clusters.** `MeshLink` is the protocol as a machine of single calls, sites rewriting their links
  included; `MeshSafety` has its invariant, `MeshOrphans` what it takes for something to outlive all its links,
  `MeshConvergence` where it ends up and `MeshUnion` when that is exactly what the links want. `MeshScript` and
  `MeshCompletion` follow one reconcile, `MeshOutcome` says which service is then on which cluster, and `MeshReconciler`
  is the straight-line reconciler, every state of which is a state of that machine.

`Text`, `Collections`, `Sorting` and `Calls` are shared: decimal text, counting arguments, sorted names, and the ways a
call can end (took effect; took effect but reported an error; refused).

A specification function says what a step does to the state, a method in the source's form is proved equal to it, and
the theorems are about the specification over every input and every run. The modules
named after an outcome, a verdict or an address say the same results again in literal names, clusters, addresses and
texts.

## What the results assume

- Address uniqueness: site names are unique across namespaces (the allocator skips by name only), the list of sites
  succeeds, no address is set by hand, `colocated` is never edited, and at most fourteen standalone sites exist at once.
  `VipPool.BlindAllocation` and `SiteRuns.FifteenCollide` show what happens otherwise. One derivation is in progress at
  a time, as with the controller's single worker; writes of others may fall between its reads and its write.
- The comment above the allocator speaks of the lowest free address; the code probes from a hashed start. The model
  follows the code.
- Firewalls: managed rules stay single exactly when no insertion takes effect while its rule is there
  (`N6Runs.OnceIffNeverBlind`), which can only come of a deletion that failed right before it.
- Datapath: a step succeeds also when no iptables backend could be opened. The steps do not undo each other, with one
  exact exception: the address step can withdraw a gateway when the egress NIC is its bridge
  (`HostSteps.GatewayKeptIff`). The declared state is described by its contents, and `HostConvergence.AllSucceedIff`
  says when a pass gets there.
- N2 addresses across nodes: each node wants the address of the one site its cluster serves. Nodes of one cluster do
  announce the same address, so the result is an equivalence with serving the same site.
- Children: a site's write replaces the whole object, whatever finalizers are stored, so a child that is being deleted
  and has to be written is gone at once (`ChildCompletion.ReconcileCompletesIff`).
- Mesh: the cleanup finalizer does not survive the next reconcile of the link's own site
  (`operator/internal/controller/edgesite_controller.go:262-270` and `:1227-1228`), and the update that adds it triggers
  that reconcile. So remote objects do stand for a while with no finalizer to guard them, and a link that is deleted
  then is not cleaned up although every call succeeds (`MeshOrphans.OrphanRunOrphans`). `MeshSafety.NothingUnexplained`
  is what holds in every state, `MeshOrphans.OutlivesIff` says exactly when something is orphaned, and
  `MeshSafety.NothingOrphaned` is what the finalizer gives as long as no site rewrites its link.
- Mesh: convergence needs that no cluster is both an edge and a control plane and that UPF names differ
  (`EmittedLinks.EmittedCompatible` reduces this to the former for links that sites emit). What a link had given up on
  or orphaned before may remain: a failed cleanup leaves it, and after an edit cleanup uses the new spec.
  `MeshUnion.ExactUnion` needs a history without either.
- Self-heal: a deletion is by name and comes some time after the judgement, so a pod can be struck that became Ready or
  was replaced in between, even by an agent that works alone. `Strikes.StrikesReadyIff` says exactly when, for every
  run; in a window in which nothing happens under the name the struck pod is the one that was judged, and sick. Passes
  of different nodes may overlap; that does no harm while they have judged different pods, and a pod can cost two
  deletions exactly if two agents hold a verdict on it at one moment (`SelfHeal.CostsTwoIff`).

## Model

| member | source | states |
|---|---|---|
| `SiteIndex.Compute` | `operator/internal/controller/edgesite_controller.go:1192-1198` | the rolling hash equals 2 plus the base-31 polynomial of the name mod 197, and lies in 2..198 |
| `SiteIndex.Rolls` | `operator/internal/controller/edgesite_controller.go:1192-1198` | no name has index 2, and appending a character c takes index x to 2 + (31 (x - 2) + c) mod 197 |
| `SiteIndex.StepPermutes` | `operator/internal/controller/edgesite_controller.go:1194-1196` | each character step is undone by an explicit inverse, so it permutes the residues mod 197 |
| `SiteIndex.SuffixKeeps` | `operator/internal/controller/edgesite_controller.go:1192-1198` | appending the same text to two names neither makes nor breaks the coincidence of their indices |
| `SiteIndex.OneCharacterApart` | `operator/internal/controller/edgesite_controller.go:1192-1198` | names differing in one place share an index exactly when the two code points are congruent mod 197, so never when both are below 197 |
| `SiteIndex.AdjacentSwap` | `operator/internal/controller/edgesite_controller.go:1192-1198` | swapping two neighbours keeps the index exactly when they are congruent mod 197 |
| `SiteIndex.TwoDigitSuffixes` | `operator/internal/controller/edgesite_controller.go:1192-1198` | the hundred names with one prefix and a two-digit suffix have pairwise different indices |
| `SiteIndex.NamesCanShareAnIndex` | `operator/internal/controller/edgesite_controller.go:1190-1198` | two concrete names with one index: the index is no identity |
| `Addressing.DerivedRanges` | `operator/internal/controller/edgesite_controller.go:1154-1169` | parsing the derived CIDR texts gives the four 32-bit intervals of the index |
| `Addressing.OverlapIffSameIndex` | `operator/internal/controller/edgesite_controller.go:1154-1169` | some derived range of one site overlaps some range of another exactly when their indices are equal |
| `Addressing.RangesDisjoint` | `operator/internal/controller/edgesite_controller.go:1159-1168` | pod, UE, N3 and N6 ranges of one site are pairwise disjoint |
| `Addressing.HostsDistinct` | `operator/internal/controller/edgesite_controller.go:1161-1169` | gateway, UPF and gNB parse to distinct hosts inside their own /24 |
| `Addressing.MacsDiffer` | `operator/internal/controller/edgesite_controller.go:765-793` | two sites have the same gNB address exactly when they have the same index; their gNBs are pinned to one MAC exactly when, besides, neither has a networked SDR, for which the annotation is rewritten without a MAC |
| `Addressing.LowByteOfPrinted` | `operator/internal/controller/edgesite_controller.go:822-828` | re-reading a printed octet gives it back, so the fallback of the MAC rendering is not used for a derived address |
| `Text.ScanPrinted` | `operator/internal/controller/edgesite_controller.go:447-453` | scanning a printed signed 64-bit number gives it and the rest of the text back |
| `Text.ScanPrintedQuad` | `operator/internal/controller/edgesite_controller.go:399-412` | printing a dotted quad and scanning it is lossless, whatever non-digit text follows |
| `VipPool.OctetOfVip` | `operator/internal/controller/edgesite_controller.go:396-421` | the octet read back from a persisted address is the one that was printed |
| `EdgeSites.NetBaseShape` | `operator/internal/controller/edgesite_controller.go:447-453` | a parsed base is three printed numbers |
| `EdgeSites.BaseOfSubnet` | `operator/internal/controller/edgesite_controller.go:1176-1177` | reading the persisted ".240/28" subnet gives the base it was made from |
| `EdgeSites.BaseSettles` | `operator/internal/controller/edgesite_controller.go:430-444` | after a derivation the base no longer depends on server or node, exactly when the subnet was unset or readable before |
| `VipPool.ProbeOrder` | `operator/internal/controller/edgesite_controller.go:417-419` | from any start every octet of the pool is probed exactly once |
| `VipPool.AllocateMeets` | `operator/internal/controller/edgesite_controller.go:390-424` | the string-level allocator gives the site's own pool address verbatim, else the first free slot in cyclic order from the hashed start, else .254 |
| `VipPool.AllocationUnique` | `operator/internal/controller/edgesite_controller.go:390-424` | that specification determines the address |
| `VipPool.RepeatsIffFull` | `operator/internal/controller/edgesite_controller.go:418-423` | with the list read, the address is held by another site exactly when all fourteen octets are |
| `VipPool.FullPoolNeedsFourteen` | `operator/internal/controller/edgesite_controller.go:399-412` | a full pool takes at least fourteen other sites with pool addresses |
| `VipPool.BlindAllocation` | `operator/internal/controller/edgesite_controller.go:400-401` | when the list fails, the start slot is taken whoever holds it |
| `VipPool.RacersCollideIff` | `operator/internal/controller/edgesite_controller.go:413-422` | two sites without an address that both read before either wrote choose one address exactly when all slots from the one's start up to the other's are taken, one way round or the other |
| `SiteControllers.TakenOctets` | `operator/internal/controller/edgesite_controller.go:399-412` | the loop collects exactly 240 and the octets readable from other names' addresses |
| `SiteControllers.Probe` | `operator/internal/controller/edgesite_controller.go:416-422` | the probe loop returns the first free slot, or none when all are taken |
| `SiteControllers.AllocateRanVip` | `operator/internal/controller/edgesite_controller.go:390-424` | the method over the listed objects computes the specified address |
| `EdgeSites.OnePassSettles` | `operator/internal/controller/edgesite_controller.go:1145-1188` | one derivation fills every field, keeps every set one and every declared one, and any later derivation in any cluster changes nothing |
| `DerivedAddresses.DerivedFollowsPlan` | `operator/internal/controller/edgesite_controller.go:1148-1169` | the texts of the plan, literally: 10.i.0.0/16 for pods and 172.i.0.0/16 for UEs, 10.200.i.10/24 and 10.201.i.10/24, the gateways .1, next hop 10.201.i.10, gNB 10.200.i.20, slice 102030 and eth0, each in the field that was unset; every set field as it was |
| `DerivedAddresses.StoredNetwork` | `operator/internal/controller/edgesite_controller.go:1154-1165` | the podCIDR, uePool, accessCIDR and coreCIDR stored in a site with no addressing parse to the networks 10.i/16, 172.i/16, 10.200.i/24 and 10.201.i/24 of its index |
| `DerivedAddresses.AccessGatewayHost` | `operator/internal/controller/edgesite_controller.go:1164-1166` | its stored N3 gateway is host 1 of its stored N3 network |
| `DerivedAddresses.GnbHost` | `operator/internal/controller/edgesite_controller.go:1164-1169` | its stored gNB address is host 20 of it |
| `DerivedAddresses.CoreGatewayHost` | `operator/internal/controller/edgesite_controller.go:1165-1167` | its stored N6 gateway is host 1 of its stored N6 network |
| `DerivedAddresses.NextHopHost` | `operator/internal/controller/edgesite_controller.go:1165-1168` | its stored next hop is host 10 of it |
| `DerivedAddresses.StoredMeetIff` | `operator/internal/controller/edgesite_controller.go:1154-1165` | a stored network of one derived site has an address in common with a stored network of another exactly when they are of one kind and the two names of one index |
| `DerivedAddresses.SubnetFollowsServer` | `operator/internal/controller/edgesite_controller.go:430-444` | the stored RAN subnet is .240/28 of the first three numbers of the node address for a colocated core whose node is known, else of the server, else of 192.168.4 |
| `DerivedAddresses.SubnetOfQuad` | `operator/internal/controller/edgesite_controller.go:430-444` | so a server a.b.c.d gives a.b.c.240/28 |
| `DerivedAddresses.ColocatedAddress` | `operator/internal/controller/edgesite_controller.go:1178-1182` | a colocated core gets .240 of that network |
| `DerivedAddresses.StandaloneAddress` | `operator/internal/controller/edgesite_controller.go:390-424` | a core of its own gets the first host of that network from 241 + index mod 14 on, once around up to 254, whose number ends no other site's stored address; .254 when all fourteen are held |
| `DerivedAddresses.BlindAddress` | `operator/internal/controller/edgesite_controller.go:400-421` | when the sites cannot be listed, it gets 241 + index mod 14 of that network, whoever holds it |
| `DerivedAddresses.GnbHardwareAddress` | `operator/internal/controller/edgesite_controller.go:765-793` | the hardware address of the gNB at 10.200.i.20 is 02:00:0a:c8, i in two hex digits, 14 |
| `EdgeSites.FilledInStages` | `operator/internal/controller/edgesite_controller.go:1145-1188` | field-by-field filling composes to the derived spec and reports a change exactly when there is one |
| `EdgeSites.ColocatedVip` | `operator/internal/controller/edgesite_controller.go:1178-1182` | a colocated core gets octet 240 |
| `EdgeSites.StandaloneVip` | `operator/internal/controller/edgesite_controller.go:1178-1182` | a standalone core gets a pool octet, held by another site only if the pool is full |
| `EdgeSites.ExposedIsPersisted` | `operator/internal/controller/edgesite_controller.go:296-300` | the address put on the N2 service is the persisted one |
| `SiteControllers.DeriveAddressing` | `operator/internal/controller/edgesite_controller.go:1145-1188` | the method on the read object and the API server is one read and one conditional write of the run model; it leaves each field as it was or with its literal text, and on the RAN side the subnet and the address said for DerivedAddresses |
| `SiteControllers.FillNetworks` | `operator/internal/controller/edgesite_controller.go:1148-1157` | set-if-empty on the object's fields, with the change flag: 10.i.0.0/16 for pods, 172.i.0.0/16 for UEs, slice 102030, egress eth0 |
| `SiteControllers.FillDatapath` | `operator/internal/controller/edgesite_controller.go:1158-1169` | set-if-empty of the N3/N6 fields, each with its literal text, with the change flag |
| `SiteControllers.FillRan` | `operator/internal/controller/edgesite_controller.go:1170-1183` | set-if-empty of subnet, address and NIC, with the change flag |
| `SiteControllers.ApiServer.Update` | `operator/internal/controller/edgesite_controller.go:1184-1186` | a write goes through only at the revision that was read |
| `SiteRuns.StepKeeps` | `operator/internal/controller/edgesite_controller.go:390-424` | every step of users, Fleets, derivations and deletions keeps the address invariant, writes and reads interleaving |
| `SiteRuns.VipsNeverCollide` | `operator/internal/controller/edgesite_controller.go:390-424` | in every reachable state with unique names, successful lists, no hand-set address and at most fourteen standalone sites, two sites never hold one octet; pool octets for standalone cores, 240 for colocated ones |
| `SiteRuns.FifteenCollide` | `operator/internal/controller/edgesite_controller.go:386-389` | with more than fourteen holders a collision is certain |
| `SiteRuns.AddressingNeverRewritten` | `operator/internal/controller/edgesite_controller.go:1148-1153` | from any reachable state on, an addressing field once set on an object never changes, whatever becomes of its server, role, user or radio |
| `Fleet.LiveSitesAreDeclared` | `operator/internal/controller/fleet_controller.go:51-107` | with all calls succeeding the live labelled sites are exactly the declared ones |
| `Fleet.OthersUntouched` | `operator/internal/controller/fleet_controller.go:92-107` | sites neither labelled nor named are unchanged, whatever fails |
| `Fleet.PassIdempotent` | `operator/internal/controller/fleet_controller.go:51-107` | a second pass changes nothing |
| `Fleet.PassLeaves` | `operator/internal/controller/fleet_controller.go:75-158` | what each object says after a pass, whichever calls fail: a declared site whose read and write go through is labelled for the fleet and has its last entry's server, user and radio, and its role or upf-only; one that existed keeps colocated, held, deleting and each addressing field, a new one is not colocated and has none; an undeclared labelled one is gone or on its way out if the listing and its deletion go through; all others are as they were |
| `Fleet.EntriesIsolated` | `operator/internal/controller/fleet_controller.go:75-90` | what becomes of a site depends only on the calls about it and the listing |
| `Fleet.DesiredIsLast` | `operator/internal/controller/fleet_controller.go:51-61` | a name is declared by its last entry with a server |
| `Fleet.NameIs` | `operator/internal/controller/fleet_controller.go:56-59` | a pinned name stands; otherwise it is "site-" and the server with each dot a dash |
| `Fleet.OrderIrrelevant` | `operator/internal/controller/fleet_controller.go:51-61` | reordering distinctly named entries declares the same sites |
| `Fleet.DerivedNamesInjective` | `operator/internal/controller/fleet_controller.go:56-59` | derived names of dash-free servers coincide exactly for equal servers |
| `Fleet.DerivedNamesCollideIff` | `operator/internal/controller/fleet_controller.go:56-59` | two derived names coincide exactly when the servers have one length and differ at most in having a dot for a dash |
| `Fleet.DashedServersCollide` | `operator/internal/controller/fleet_controller.go:56-59` | an instance with two different servers |
| `Sorting.SortNames` | `operator/internal/controller/fleet_controller.go:68-72` | the names in strictly increasing order, each once |
| `Sorting.SortedUnique` | `operator/internal/controller/fleet_controller.go:68-72` | there is only one such order, so the sequence of writes is determined |
| `Sorting.BeforeIff` | `operator/internal/controller/fleet_controller.go:68-72` | one name comes before another exactly if, where they first differ, it ends or has the smaller character |
| `FleetController.CollectDesired` | `operator/internal/controller/fleet_controller.go:51-61` | the loop over the entries builds the declared map |
| `FleetController.ApplyEdgeSite` | `operator/internal/controller/fleet_controller.go:127-158` | create or update of one site: the object says what the entry says, field by field, and keeps what it had; the site event it is, and when it reports success |
| `FleetController.ApplyAll` | `operator/internal/controller/fleet_controller.go:73-90` | every declared name is tried once; success means every one succeeded |
| `FleetController.PruneOne` | `operator/internal/controller/fleet_controller.go:97-106` | one listed object is deleted exactly if it is stray |
| `FleetController.Prune` | `operator/internal/controller/fleet_controller.go:92-107` | all strays are tried and the pass is complete on every object |
| `FleetController.Reconcile` | `operator/internal/controller/fleet_controller.go:44-125` | a whole reconcile meets the pass specification on every object and is a run of site events; whichever calls fail, every site is field by field as Fleet.PassLeaves says, sites neither labelled nor named are untouched, and it is Ready exactly when nothing failed |
| `Children.ClaimsDecode` | `operator/internal/controller/edgesite_controller.go:104-109` | an IPClaim's name determines its site |
| `Children.VariantsDecode` | `operator/internal/controller/edgesite_controller.go:97-163` | a PackageVariant's name determines its site or its repository, and its content |
| `Children.ShareIff` | `operator/internal/controller/edgesite_controller.go:97-163` | two sites have a child in common exactly when they share namespace and deploy repository |
| `Children.OwnClustersShareNothing` | `operator/internal/controller/edgesite_controller.go:88-91` | sites on their own clusters never share a child |
| `Children.SameKeySameContent` | `operator/internal/controller/edgesite_controller.go:1214-1226` | whoever emits a compared child emits the same content |
| `Children.EmittedOnce` | `operator/internal/controller/edgesite_controller.go:97-163` | no reconcile emits one child twice |
| `Children.ClaimPrefixes` | `operator/internal/controller/edgesite_controller.go:242-260` | claims ask for /16 for pods and UEs and /24 otherwise |
| `ChildRuns.StepKeeps` | `operator/internal/controller/edgesite_controller.go:1201-1229` | in every step of any interleaving a compared child about to be replaced is not as wanted if it is still at the revision read, and what is being deleted is held by a finalizer |
| `ChildRuns.OthersUntouched` | `operator/internal/controller/edgesite_controller.go:1201-1229` | reconciles of any other sites, interleaved call by call and ending as they may, leave the children of a site in another namespace or with another repository alone |
| `ChildRuns.WrittenOnce` | `operator/internal/controller/edgesite_controller.go:1214-1226` | over reconciles of any sites that interleave, fail and die between any two calls, while others hold, release and touch children: a package or claim nobody else rewrites or removes is written exactly once if it exists and never otherwise; each rewrite or removal by others costs at most one more write |
| `ChildCompletion.ReconcileCompletesIff` | `operator/internal/controller/edgesite_controller.go:97-190` | when all calls of a reconcile go through each child of the site is there as wanted, the site's own and with no finalizers unless it was so before and compared, exactly unless the child is being deleted and has to be replaced: then its finalizers go and it is gone |
| `ChildOutcome.ReconcileLeaves` | `operator/internal/controller/edgesite_controller.go:97-180` | after an undisturbed reconcile, name by name: cluster-S holds cluster-ck8s-byoh for the management repository unless colocated, cp-S sdcore-cp for a core, upf-S edge-site, multus-R multus and datapath-R datapath-actuator for the repository R (cluster-S, or the management one if colocated), with the site injected into the first three alone; the four claims with kind and prefix length; for an edge its MeshLink and NetworkSlice; no other child has changed |
| `ChildOutcome.EmitsIffWants` | `operator/internal/controller/edgesite_controller.go:97-290` | exactly these children are emitted |
| `ChildCompletion.FinishedIsRun` | `operator/internal/controller/edgesite_controller.go:97-190` | that undisturbed reconcile is a run of the machine |
| `ChildWriter.Writer.Get` | `operator/internal/controller/edgesite_controller.go:1207-1214` | the read decides between creating, skipping and replacing at the revision read |
| `ChildWriter.Writer.Write` | `operator/internal/controller/edgesite_controller.go:1208-1228` | the whole object is written, so stored finalizers go, and an object being deleted with them; only an absent child is created and only the revision read is replaced |
| `ChildWriter.Writer.ApplyOwned` | `operator/internal/controller/edgesite_controller.go:1201-1229` | get, create, compare, update, others acting before each call; untyped equal children are not written |
| `ChildWriter.Writer.IPClaims` | `operator/internal/controller/edgesite_controller.go:104-109` | the loop over the four claims makes the calls of the four steps in their order |
| `ChildWriter.Writer.Reconcile` | `operator/internal/controller/edgesite_controller.go:69-190` | the straight line of calls, up to the final status, is a run of the machine with the actions of others between the calls; it stops at its first failing call or where the process dies |
| `EmittedLinks.EmittedCompatible` | `operator/internal/controller/edgesite_controller.go:263-270` | emitted links want different things of different places exactly when no site is another's control plane |
| `EmittedLinks.SiteWritesLink` | `operator/internal/controller/edgesite_controller.go:262-270` | a site's write of its link, if it takes effect, is the rewrite of the link protocol: bare of finalizers, and gone if it was being deleted |
| `EmittedLinks.SliceNamesService` | `operator/internal/controller/edgesite_controller.go:273-290` | the slice of a site names the N4 service that its link creates |
| `Netfilter.VerdictAgrees` | `operator/internal/controller/upfdatapath_controller.go:268-317` | tables whose chains agree on the rules relevant to a packet give it the same verdict, through any jumps |
| `N6Nat.OutsideUnchanged` | `operator/internal/controller/upfdatapath_controller.go:284-309` | a packet outside the pool that is no access hairpin keeps its verdict in every chain, whichever calls fail |
| `N6Nat.PoolAccepted` | `operator/internal/controller/upfdatapath_controller.go:295-301` | every packet from or to the pool is accepted in FORWARD, from any chains, once the two insertions took effect |
| `N6Nat.PoolAcceptedInDocker` | `operator/internal/controller/upfdatapath_controller.go:302-305` | likewise within DOCKER-USER |
| `N6Nat.PoolTranslated` | `operator/internal/controller/upfdatapath_controller.go:284-290` | pool traffic leaving by the egress NIC is translated |
| `N6Nat.ReinsertCounts` | `operator/internal/controller/upfdatapath_controller.go:295-298` | exact number of copies after delete-and-insert under any outcome of the two calls |
| `N6Nat.PilesUpIff` | `operator/internal/controller/upfdatapath_controller.go:284-298` | a rule multiplies exactly when its deletion fails and its insertion does not |
| `N6Nat.PassKeepsForeign` | `operator/internal/controller/upfdatapath_controller.go:284-309` | whichever calls fail, a pass leaves the rules of others in their chains and in their order |
| `N6Nat.KeepsOnceIff` | `operator/internal/controller/upfdatapath_controller.go:284-309` | from managed rules at most once, a pass keeps them so exactly when no rule that is present has its deletion fail and its insertion take effect |
| `N6Nat.FilterCopies` | `operator/internal/controller/upfdatapath_controller.go:295-305` | exact number of copies of every rule in every filter chain after a pass, under any outcomes |
| `N6Nat.PassPrograms` | `operator/internal/controller/upfdatapath_controller.go:284-309` | a pass whose calls take effect leaves every rule where it is declared to be; what packets then meet is said by N6Verdicts |
| `N6Nat.FixedIffProgrammed` | `operator/internal/controller/upfdatapath_controller.go:284-309` | such a pass changes nothing exactly when those rules were there |
| `N6Nat.PassIdempotent` | `operator/internal/controller/upfdatapath_controller.go:284-309` | so an immediate second pass changes nothing, from any chains |
| `N6Verdicts.ForwardVerdict` | `operator/internal/controller/upfdatapath_controller.go:284-309` | after a pass whose calls take effect, the verdict of filter FORWARD about every packet: accepted from and to the pool; accepted when it enters and leaves by the access bridge and got past every rule before; otherwise what it was |
| `N6Verdicts.HairpinAccepted` | `operator/internal/controller/upfdatapath_controller.go:301` | for a packet that enters and leaves by the access bridge, outside the pool, from any chains, copies held or not, and whichever calls fail: it is accepted if the append takes effect and it got past every rule of FORWARD, and keeps its verdict otherwise |
| `N6Verdicts.FallsIffUndecided` | `operator/internal/controller/upfdatapath_controller.go:301` | where no matching rule returns, getting past every rule is being left undecided |
| `N6Verdicts.MangleKeepsVerdicts` | `operator/internal/controller/upfdatapath_controller.go:306-309` | in mangle every packet keeps its verdict in every chain, whichever calls fail |
| `N6Verdicts.ClampsExactly` | `operator/internal/controller/upfdatapath_controller.go:306-309` | connection attempts from or to the pool meet a rule that decides nothing, and no other packet meets a rule it did not meet before |
| `N6Verdicts.DockerVerdict` | `operator/internal/controller/upfdatapath_controller.go:302-305` | in DOCKER-USER the pool is accepted both ways, and every other packet that is no access hairpin keeps its verdict |
| `N6Verdicts.PostroutingVerdict` | `operator/internal/controller/upfdatapath_controller.go:284-290` | in nat POSTROUTING what the pool sends out by the egress NIC is translated and every other packet keeps its verdict |
| `N6Runs.CallsAreThePass` | `operator/internal/controller/upfdatapath_controller.go:268-317` | undisturbed, the calls one by one do what the pass does, under any outcomes |
| `N6Runs.OnceIffNeverBlind` | `operator/internal/controller/upfdatapath_controller.go:284-309` | over any interleaving of single calls, foreign edits and crashes, for any pools: managed rules stay at most once throughout exactly when no insertion takes effect while its rule is there |
| `N6Runs.NeverBlindWithout` | `operator/internal/controller/upfdatapath_controller.go:284-298` | an insertion can be blind only when the deletion right before it failed, whatever others did in between |
| `N6Runs.ChainsNeverGrow` | `operator/internal/controller/upfdatapath_controller.go:284-309` | so without such failures no chain outgrows its foreign rules and the managed set, however calls and edits interleave |
| `N6Runs.ForeignOrderKept` | `operator/internal/controller/upfdatapath_controller.go:284-309` | calls and crashes keep foreign rules in their order |
| `N6Packets.InPlaceIff` | `operator/internal/controller/upfdatapath_controller.go:295-305` | over any runs of the programs of any pools without foreign edits and blind insertions: a pool's rule is in its chain exactly when the last call on it that took effect was not its deletion, and no foreign rule gets in front of it |
| `N6Packets.InsertedOnTop` | `operator/internal/controller/upfdatapath_controller.go:295-305` | an insertion that is not blind brings the rule on top from wherever it was |
| `N6Packets.PoolPackets` | `operator/internal/controller/upfdatapath_controller.go:295-305` | so in every later state a packet of the pool is accepted by its rule exactly as long as that rule is in place; otherwise it gets what another pool's rule on top or the rules below say |
| `HostPass.BridgesRaise` | `operator/internal/controller/upfdatapath_controller.go:180-198` | after success every named bridge is up; no link is lost or lowered even on failure |
| `HostPass.GatewaysAdd` | `operator/internal/controller/upfdatapath_controller.go:201-229` | after success every gateway is present; no address is lost even on failure |
| `HostPass.NatEach` | `operator/internal/controller/upfdatapath_controller.go:268-317` | each backend is passed over on its own; success means no backend opened or one took the MASQUERADE |
| `HostPass.AnnounceAdds` | `operator/internal/controller/upfdatapath_controller.go:527-535` | announcing adds /32 addresses of wanted texts only, all of them on success |
| `HostPass.AnnounceSucceedsIff` | `operator/internal/controller/upfdatapath_controller.go:527-535` | the announcements succeed exactly when every one that is an address takes effect |
| `HostPass.VipsSucceed` | `operator/internal/controller/upfdatapath_controller.go:508-553` | after a step with all calls taking effect the NIC holds exactly the specified set |
| `HostPass.ForgetFacts` | `operator/internal/controller/upfdatapath_controller.go:321-339` | exactly the stale entries whose deletion takes effect are gone, and the rest keep their order |
| `HostSteps.NoStepUndone` | `operator/internal/controller/upfdatapath_controller.go:67-93` | under any subset of failing calls, what every succeeding step established holds at the end; for the gateways exactly when the address step withdraws none |
| `HostSteps.GatewayKeptIff` | `operator/internal/controller/upfdatapath_controller.go:201-229` | a gateway is there after the pass exactly unless the egress NIC is its bridge, the address step gets to withdrawing, it was there before only as a /32 ending in 240..254, it is not wanted, and its deletion takes effect |
| `HostSteps.NicOnBridgeUndoes` | `operator/internal/controller/upfdatapath_controller.go:541-551` | an instance in which it is withdrawn |
| `HostSteps.HostVerdicts` | `operator/internal/controller/upfdatapath_controller.go:67-93` | the packet guarantees of the firewall hold for the whole host pass, per backend |
| `HostConvergence.AllSucceedIff` | `operator/internal/controller/upfdatapath_controller.go:67-93` | with all calls taking effect every step succeeds exactly when gateways, route, NAT and addresses are usable on this host |
| `HostConvergence.ReachesDeclared` | `operator/internal/controller/upfdatapath_controller.go:67-93` | from any host, such a pass reaches the declared state: bridges, gateways, forwarding, route, each firewall rule in its place, exactly the wanted addresses, no stale neighbour |
| `HostOutcome.PassLeaves` | `operator/internal/controller/upfdatapath_controller.go:60-93` | from any host, when all calls take effect and all steps succeed: the named bridges are up; each gateway is on its bridge, unless that is the NIC and it ends in 240..254; forwarding on, the three filters and two offloads off; the pool routed by the core bridge through the declared next hop and no other route changed; in iptables and iptables-legacy every packet gets its N6 verdict and no other backend changed; each address of each exposed service is on the NIC as /32 and no other /32 ending in 240..254; no unreachable entry for gNB and next hop |
| `HostOutcome.RouteLeaves` | `operator/internal/controller/upfdatapath_controller.go:251-264` | the route step alone, whichever calls fail: on success the pool leaves by the core bridge via the next hop, otherwise and for every other destination the routes are as they were; when it succeeds |
| `HostOutcome.VipsLeave` | `operator/internal/controller/upfdatapath_controller.go:508-553` | the address step alone, whichever calls fail: on success every usable address of every service is on the NIC as /32, and exactly the /32 ending in 240..254 that no service carries are gone whose deletion took effect |
| `HostOutcome.UsableAddresses` | `operator/internal/controller/upfdatapath_controller.go:527-531` | the address texts the steps can use are a.b.c.d of four numbers below 256 without leading zeros |
| `HostConvergence.DeclaredIsStable` | `operator/internal/controller/upfdatapath_controller.go:67-93` | a pass over a declared host changes nothing, in any map order |
| `HostConvergence.FixedIffDeclared` | `operator/internal/controller/upfdatapath_controller.go:67-93` | where every step succeeds, the pass changes nothing exactly when the host is as declared |
| `HostConvergence.SecondPassIdentity` | `operator/internal/controller/upfdatapath_controller.go:67-93` | so a second pass is the identity |
| `DatapathAgent.Host.EnsureBridge` | `operator/internal/controller/upfdatapath_controller.go:180-198` | loop over names, in place: on success all that are named are up; nothing is lost or taken down and nothing else is made |
| `DatapathAgent.Host.EnsureBridgeAddr` | `operator/internal/controller/upfdatapath_controller.go:201-229` | loop over pairs and existing addresses, in place: on success each bridge carries its gateway; none is lost, and what is added is a gateway as /24 |
| `DatapathAgent.Host.EnsureForwarding` | `operator/internal/controller/upfdatapath_controller.go:237-248` | forwarding on or an error; the filters of all and both bridges and the bridges' offload off, wherever the call takes effect |
| `DatapathAgent.Host.EnsureRoute` | `operator/internal/controller/upfdatapath_controller.go:251-264` | on success the pool is routed by the core bridge via the declared next hop, if one is declared; every other route stays, and on failure all do |
| `DatapathAgent.Host.EnsureN6Nat` | `operator/internal/controller/upfdatapath_controller.go:268-317` | loop over backends counting successes and errors; when all calls take effect, every packet has its N6 verdict in iptables and in iptables-legacy, and no other backend has changed |
| `DatapathAgent.Host.EnsureN2Vip` | `operator/internal/controller/upfdatapath_controller.go:508-553` | announce and withdraw on the NIC, with the early returns; on success the NIC has every address of every service and has lost exactly the stale ones |
| `DatapathAgent.WithdrawStale` | `operator/internal/controller/upfdatapath_controller.go:541-551` | the withdraw loop keeps exactly what is not stale or could not be deleted |
| `DatapathAgent.Host.RefreshNeigh` | `operator/internal/controller/upfdatapath_controller.go:321-339` | the neighbour loop, in place: exactly the entries of that address on that device go that are not reachable and whose deletion takes effect |
| `DatapathAgent.Host.Reconcile` | `operator/internal/controller/upfdatapath_controller.go:60-93` | nothing without a UE pool; otherwise all host steps in order, none aborting the others, equal to the specified pass; when all succeed the host is as HostOutcome.PassLeaves says |
| `VipAnnounce.AllocatedIsRecognised` | `operator/internal/controller/upfdatapath_controller.go:559-565` | every address the allocator or the reserve hands out is one the cleanup recognises |
| `VipAnnounce.NodesExact` | `operator/internal/controller/upfdatapath_controller.go:508-553` | once every node has run, its managed addresses are exactly its wanted ones and all others untouched |
| `VipAnnounce.NoAddressTwice` | `operator/internal/controller/upfdatapath_controller.go:508-565` | from any run of the site controllers and any leftovers, two nodes hold a common managed address exactly when they serve the same site |
| `VipAnnounce.SomeNodeServes` | `operator/internal/controller/edgesite_controller.go:1176-1182` | such runs and nodes exist: a standalone site with a proper server address derives an address a node can serve |
| `Indent.BlockKeepsText` | `operator/internal/controller/upfdatapath_controller.go:167-177` | removing the pad from the block gives the text and one newline, every line in place |
| `Indent.Indent` | `operator/internal/controller/upfdatapath_controller.go:167-177` | the loop builds that block |
| `PodHealer.PodReady` | `operator/internal/controller/upfdatapath_controller.go:610-617` | the first Ready condition decides |
| `PodHealer.HasSecondaryNets` | `operator/internal/controller/upfdatapath_controller.go:621-629` | every name is recorded in one of the two spellings |
| `PodHealer.NeedsRecreate` | `operator/internal/controller/upfdatapath_controller.go:593-602` | true exactly when the pod is not terminating, its first Ready condition is not True, and its wrapped init restarts are at least 3, or it is older than 45 s and lacks access or core in both spellings |
| `SelfHeal.SickMeans` | `operator/internal/controller/upfdatapath_controller.go:593-629` | a pod is sick exactly when it is not terminating, its first Ready condition is not True, and the 32-bit sum of its init restarts is at least 3, or it is older than 45 s and access or core is recorded in neither spelling |
| `SelfHeal.ListJudges` | `operator/internal/controller/upfdatapath_controller.go:582-602` | a listing judges exactly those pods |
| `SelfHeal.RestartsWrap` | `operator/internal/controller/upfdatapath_controller.go:596-599` | the sum wraps at 32 bits |
| `PodHealer.Agent.EnsureUpfHealthy` | `operator/internal/controller/upfdatapath_controller.go:582-607` | the pass is a run of the machine with the actions of others before each deletion; when nobody interferes it marks exactly the pods, in those concrete terms, whose deletion took effect, and leaves Ready and terminating ones as they are |
| `PodHealer.PassStrikes` | `operator/internal/controller/upfdatapath_controller.go:592-604` | of every pod the pass strikes it is known exactly when it is Ready and when it is already terminating |
| `Strikes.StrikesReadyIff` | `operator/internal/controller/upfdatapath_controller.go:588-604` | for every agent, name and run since the agent listed: the struck pod is Ready exactly when the last event to set its conditions made it so, and terminating exactly when a deletion of the name came after the last new pod under it |
| `Strikes.QuietStrikesSick` | `operator/internal/controller/upfdatapath_controller.go:588-604` | so in a window quiet about the name the deletion strikes the very pod that was judged, still sick: neither Ready nor terminating |
| `Strikes.OneAgentStrikesReady` | `operator/internal/controller/upfdatapath_controller.go:588-604` | one agent alone strikes a Ready pod if it becomes Ready after it was judged |
| `SelfHeal.DeletionsBounded` | `operator/internal/controller/upfdatapath_controller.go:582-607` | once new pods have fewer than 3 init restarts and, when 45 s old, both interfaces recorded, with agents of one group never holding verdicts on one pod at once, the effective deletions of any choice of groups are at most groups times pods of that moment |
| `SelfHeal.DeletionsBoundedInTurn` | `operator/internal/controller/upfdatapath_controller.go:580-607` | however passes overlap, as long as no two agents hold a verdict on one pod at once all agents together delete at most as many times as there were pods |
| `SelfHeal.DeletionsBoundedOverlapping` | `operator/internal/controller/upfdatapath_controller.go:580-607` | however the passes overlap, each agent deletes at most as often as there were pods |
| `SelfHeal.TwiceOnlyIfShared` | `operator/internal/controller/upfdatapath_controller.go:588-604` | over every run a pod costs two deletions only if two agents hold a verdict on it at one moment |
| `SelfHeal.SharedCostsTwo` | `operator/internal/controller/upfdatapath_controller.go:588-604` | whenever two agents do, the run can go on so that it costs two deletions, the second of a Ready pod |
| `SelfHeal.CostsTwoIff` | `operator/internal/controller/upfdatapath_controller.go:588-604` | so a pod can come to cost two deletions exactly if two agents can come to hold a verdict on it at once |
| `SelfHeal.OverlapStrikesReady` | `operator/internal/controller/upfdatapath_controller.go:588-604` | whatever pod is sick, passes of any two agents can overlap so that it costs two deletions, the second of a Ready pod |
| `MeshSafety.StepKeeps` | `operator/internal/controller/meshlink_controller.go:51-121` | every call, crash, action of users and rewrite of a link by its site keeps the protocol invariant |
| `MeshSafety.NothingUnexplained` | `operator/internal/controller/meshlink_controller.go:58-91` | in every reachable state a remote service or slice is there because a link that wants it holds its finalizer, or has been rewritten by its site since it took it, or some named link gave up on it, or some link went while so rewritten; nothing absent is excused |
| `MeshSafety.NothingOrphaned` | `operator/internal/controller/meshlink_controller.go:58-74` | when no site rewrites its link in the run, a remote object has a link that carries its finalizer and wants it, or some named link gave up on it |
| `MeshSafety.GivenUpOnlyWhen` | `operator/internal/controller/meshlink_controller.go:195-211` | a link gives up on something only when a cleanup call of its own fails, when it is pointed elsewhere, or when a reconcile from before that writes there |
| `MeshOrphans.OrphanedIff` | `operator/internal/controller/edgesite_controller.go:1227-1228` | over every run: an orphan is there exactly when a link that its site had rewritten went while it was there, or a reconcile of such a link wrote it afterwards, and it was not deleted since |
| `MeshOrphans.OutlivesIff` | `operator/internal/controller/edgesite_controller.go:1227-1228` | so something outlives all its links with nobody having given up on it exactly in that case |
| `MeshOrphans.LastLinkGoes` | `operator/internal/controller/edgesite_controller.go:1227-1228` | the last link that answers for something goes only rewritten, never with its finalizer, and leaves it behind unless it was pointed elsewhere in going |
| `MeshOrphans.OrphanRunOrphans` | `operator/internal/controller/edgesite_controller.go:262-270` | whatever the link and its spec, a run from the empty state with every call done and no edit: created by its site, wired, rewritten as it is, deleted; the three services and the slice all stay |
| `MeshSafety.CleanupReachesUpdate` | `operator/internal/controller/meshlink_controller.go:195-211` | whatever the peers answer, cleanup reaches its update |
| `MeshSafety.DeletionNeverWedges` | `operator/internal/controller/meshlink_controller.go:60-69` | a deletion pass whose update takes effect releases the finalizer, and the object goes unless others hold it |
| `MeshScript.ScriptWires` | `operator/internal/controller/meshlink_controller.go:93-111` | one undisturbed reconcile leaves exactly the writes of its link |
| `MeshOutcome.ScriptLeaves` | `operator/internal/controller/meshlink_controller.go:93-111` | one undisturbed reconcile, with clusters and names written out: amf-cp exported on the control plane's cluster, consumed on the edge's, upf-edge or the given name and its -x slice with the pod's address on the control plane's, the finalizer on, and no other service or slice touched |
| `MeshOutcome.DeletionRemoves` | `operator/internal/controller/meshlink_controller.go:58-69` | one undisturbed deletion takes exactly those three services and that slice from those clusters, and the link goes unless somebody else holds it |
| `MeshOutcome.DeletionWithoutControlPlane` | `operator/internal/controller/meshlink_controller.go:195-211` | with the control plane's cluster out of reach it still takes amf-cp off the edge's cluster and lets the link go, and leaves everything else |
| `MeshScript.RewiringKeepsAddresses` | `operator/internal/controller/meshlink_controller.go:227-236` | rewriting a service keeps its cluster address |
| `MeshConvergence.Converges` | `operator/internal/controller/meshlink_controller.go:93-111` | from any settled moment, over any run without edits and deletions - reconciles interleaving call by call, failures, crashes, moving pods, new links, sites rewriting their links as they are - in which every link completes a reconcile: every link is served and nothing else is there but what had been given up on or orphaned before; amf-cp is back for all |
| `MeshOutcome.ConvergedServices` | `operator/internal/controller/meshlink_controller.go:93-111` | after convergence every link has on its control plane's cluster amf-cp exported, the service upf-edge or of the given name, and its -x slice with the address last read, and on its edge's cluster amf-cp consumed; an empty cluster name is mgmt |
| `MeshOutcome.SliceHoldsEdgeAddress` | `operator/internal/controller/meshlink_controller.go:104-111` | that address is the one the edge cluster's UPF pod had when the last completed reconcile read it |
| `MeshUnion.CarefulLosesNothing` | `operator/internal/controller/meshlink_controller.go:195-211` | a history in which every cleanup call is done, no link is pointed elsewhere and none goes while rewritten has given up on nothing and orphaned nothing |
| `MeshUnion.ExactUnion` | `operator/internal/controller/meshlink_controller.go:195-211` | after such a history, when every link has completed, the services and slices there are exactly the union of what the links want |
| `MeshOutcome.ConvergedExactly` | `operator/internal/controller/meshlink_controller.go:195-211` | cluster by cluster and name by name: a service or slice is there exactly when some link asks for it there, in those terms |
| `MeshOutcome.OnControlPlaneAlone` | `operator/internal/controller/meshlink_controller.go:164-190` | so the N4 service and the slice of a UPF that one link serves are on that link's control-plane cluster and on no other |
| `MeshConvergence.SliceIsWhatWasRead` | `operator/internal/controller/meshlink_controller.go:104-111` | a slice holds the pod address that the last completed reconcile of its link read |
| `MeshConvergence.ServiceStays` | `operator/internal/controller/meshlink_controller.go:221-237` | no call of any link removes or changes what another compatible link wants |
| `MeshCompletion.UndisturbedCompletes` | `operator/internal/controller/meshlink_controller.go:51-121` | a reconcile nothing comes between completes, so such runs exist |
| `MeshReconciler.Reconciler.LookUp` | `operator/internal/controller/meshlink_controller.go:221-230` | the read decides between create and update, and a read that fails otherwise leads to the update |
| `MeshReconciler.Reconciler.Put` | `operator/internal/controller/meshlink_controller.go:223-236` | create needs absence, update needs presence and keeps the cluster address; one call of the machine |
| `MeshReconciler.Reconciler.PodIP` | `operator/internal/controller/meshlink_controller.go:104-111` | the pod's address decides whether the N4 writes follow |
| `MeshReconciler.Reconciler.EnsureN4Endpoint` | `operator/internal/controller/meshlink_controller.go:164-190` | service, then slice |
| `MeshReconciler.Reconciler.CleanupRemote` | `operator/internal/controller/meshlink_controller.go:195-211` | four deletions behind two clients, all best effort, ending at the update |
| `MeshReconciler.Reconciler.UpdateReleased` | `operator/internal/controller/meshlink_controller.go:62-67` | a successful update means the finalizer is off |
| `MeshReconciler.Reconciler.Reconcile` | `operator/internal/controller/meshlink_controller.go:51-121` | the straight line of calls is a run of the machine, with the actions of others between the calls and a crash anywhere; where nothing comes between and every call ends well, the services and the slice of the link are on their clusters as MeshOutcome.ScriptLeaves says, or gone as MeshOutcome.DeletionRemoves says |

## Left out

- N6Runs.ChainsNeverGrow: needs that no insertion takes effect right after its deletion failed, because the code ignores
  both errors and would then hold the rule twice; N6Runs.OnceIffNeverBlind and N6Nat.KeepsOnceIff have the exact
  conditions.
- VipAnnounce.NoAddressTwice: two nodes of one cluster announce one address, so it excludes sharing only between sites.
- N6Packets.PoolPackets: without foreign edits in the run, since a foreign rule put on top may decide about any packet.
- MeshSafety.NothingOrphaned: false once a site rewrites its link; MeshOrphans.OutlivesIff has the exact condition.
- ChildRuns.OthersUntouched: sites of one namespace that deploy to one repository share children (Children.ShareIff).
- MeshConvergence.Converges: needs compatible links, since two links may ask for one amf-cp to be shared and not shared.
- SiteRuns.VipsNeverCollide: one derivation at a time; two that both read before either writes can choose one address
  (VipPool.RacersCollideIff says when).
- PodHealer.Agent.EnsureUpfHealthy: the clock is read once per pass, when the pods are listed.
- DatapathAgent.Host.Reconcile: without the pod-level steps of the datapath (hardening, BESS access route, PFCP
  recovery), which run foreign programs; the self-heal step is modelled apart.
- Informer caches: reads return the live object.
- The check-then-act calls of the iptables library (delete if present, append if absent) are one step each.
- Labels and annotations of children, which a site's write replaces as well, and the status it writes on failure.
- Two reconciles of one object never run at once, as the work queue ensures; those of different objects interleave.
- Status and condition texts, logging, events, requeue delays and owner-reference garbage collection.
- Defaulting by the API server: a package or claim whose stored spec is rewritten by a webhook counts as changed by
  others.
- `Sscanf` blanks other than space and tab, invalid UTF-8 in names, IPv6, and non-decimal spellings of addresses.
- The node address lookup for a colocated core and the choice of the egress NIC: both are parameters.
- The default names of the two bridges: the declared datapath is taken after defaults.
- Link lookups of the datapath never fail for an existing link; addresses and neighbours are listed without error.
- Label edits on UPF pods, and pods of other namespaces.
- The Cilium secrets the mesh step writes: one call that succeeds or fails.
- The gNB, slice and subscriber documents delivered to Git: only the N2 address and the pinned MAC are modelled.
- Overlap of derived ranges with a cluster's service range: not claimed, and false for some indices
  (`blueprints/cluster-ck8s-byoh/cluster.yaml` has one inside a pod range).
- A Fleet pass and others interleave between its calls in `SiteRuns`; the pass specification itself is of an undisturbed
  pass.
- Liveness of Porch, Config Sync, Cluster API and Cilium.
- network_controller.go, sdcoredeployment_controller.go, nfdeployment_controller.go, subscriber_controller.go and the
  Mongo helpers: repeated facts or foreign calls.
