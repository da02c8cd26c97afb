# Verification model of the CCE provider

These Dafny modules model the reconcilers of a Cluster API provider for Huawei Cloud CCE and prove what
they promise, over every input, every failure point and every run. The provider drives an asynchronous,
unreliable cloud: any API call may fail at any point, listings come in any order, object patches get
lost, and other parties act in between. Passes of a controller are atomic with respect to other
controllers, and a pass writes its object back once, at its end.

How the parts fit together:

- `Teardown` has the three controllers as functions of a world and the invariants of all their
  interleavings; `TeardownReadiness` says what each pass leaves and how a control plane becomes ready;
  `TeardownTermination` gives the measure; `TeardownControllers` runs the same passes statement by statement, proves
  for each what it keeps and when it lets its object go, and runs a whole teardown. `TeardownLeaks` has what lost
  patches and re-created clusters leave.
- `ApiServerEip` is the public IP of the API server, attempt by attempt.
- `ManagedNetwork` accounts for what the network manager made; `NetworkPasses` has what each of its steps
  decides from the listing it is shown and the answers it gets; `NetworkRuns` relates clouds over passes, teardowns
  and logs; `NetworkManager` is the manager itself, a class whose API calls fail at will; `SecurityGroupRules` are
  the rules of its security group.
- `Tags`, `ClusterTags`, `TagValidation` cover ownership tags, the ordered tag plan under the platform's
  cap, and the admission caps. `NodePools` and `NodePoolController` cover node pools: count and tags.
- `CloudWrites` is shared by the declarative-set reconcilers: `Addons`, `AddonRuns`, `AddonConvergence`;
  `AccessPolicies`, `AccessPolicyRuns`, `AccessPolicyConvergence`; `PodIdentity`, `PodIdentityRestart`.
- `GarbageCollector` has the sweep and its interleaving with creations. `Backoff`, `Cidr`,
  `NetworkValidator`, `Pagination` and `LogConfig` are the arithmetic and loop cores; `Powers` and `Options`
  are shared definitions.

In the passes that stop at their first error, `calls` (or `h`) is the number of API calls that succeed
before one fails; a statement for every value of it covers a failure at any call. Where a Go range over a
map can change the outcome, the order is an argument; elsewhere loops pick any remaining key.

## Properties that fail, and exactly when

The model follows the code where the code and its comments differ. Each of these is proved with its exact
condition, or with a concrete input.

- A control plane created after its CCECluster was released, and then deleted, is stranded under its finalizer
  (`Teardown.LateControlPlaneIsStranded`), exactly until the CCECluster is created again and a delete pass gets
  through (`Teardown.StrandedUntilShellReturns`).
- A created cluster leaks when its creating pass loses its patch and the control plane is released before another
  pass adopts it (`TeardownLeaks.UnrecordedClusterLeaksUnlessAdopted`); a public IP leaks whenever its patch is lost
  (`TeardownLeaks.BoundEipIsRecordedIff`, `TeardownLeaks.UnrecordedEipLeaks`); a managed network, when no patch
  recorded it before the CCECluster goes (`TeardownLeaks.ReleasedShellLeavesNetworkIff`).
- A cluster created again after it was deleted out of band never gets the declared public IP
  (`TeardownLeaks.RecreatedClusterGetsNoEip`).
- A failed attempt to bind the API server's public IP is described as never leaking it; it leaks exactly when
  the release fails as well, and then no ID is recorded (`ApiServerEip.NothingLeaksIff`). The managed
  network's own `createEip` returns the ID in that case and does not leak (`NetworkManager.Manager.CreateEip`).
- A VPC, subnet or rule listing that fails silently leads to a duplicate (`NetworkPasses.LostPassesDuplicateIff`,
  `NetworkPasses.SubnetIsDuplicatedIff`, `NetworkPasses.RuleIsDuplicatedIff`).
- The look-up by name in teardown can delete another tenant's gateway (`NetworkPasses.GatewayByNameIsSafeIff`,
  `NetworkPasses.AForeignGatewayIsDeleted`).
- The manager's comment says every match is checked for the owned tag before adoption. An EIP found on a SNAT rule
  is not: a user's EIP on the managed gateway can be adopted and released (`NetworkPasses.EipByRuleIsSafeIff`,
  `NetworkPasses.AUsersEipIsReleased`).
- The security group is created untagged, so one whose ID was lost is refused, in every order of the listing exactly
  while no group of its name carries the tag (`NetworkPasses.LostGroupIsRefused`, `NetworkPasses.GroupIsRefusedIff`,
  `NetworkPasses.GroupIsAdoptedIff`). A rule of it declared twice, or hidden by a failing listing, is created twice
  (`SecurityGroupRules.DuplicatedIff`).
- `OwnedClusterName` returns any ownership claim, so one user tag can make a cluster read as another's and
  be swept (`Tags.OwnerReadBackIff`, `GarbageCollector.SweptInSomeOrderIff`).
- The comment on the opt-out annotation says it keeps orphaned resources; the sweep never deletes a
  cluster that has an object, so the annotation changes only a counter (`GarbageCollector.Cloud.Sweep`).
- What a pass creates under a name not owned before is unowned exactly when the pass is cut or its object patch is lost
  (`AddonRuns.CreatedIsOwnedIff`, `AccessPolicyRuns.CutCreateWedgesIff`). Such an access policy makes every pass that
  declares its name fail, exactly until somebody else frees the name (`AccessPolicyRuns.WedgedUntilFreedIff`,
  `AccessPolicyRuns.PassSucceedsIff`, `AccessPolicyRuns.FreeingEndsTheWedge`). Such an addon is never removed as long as
  the others leave it, and is owned again exactly when a pass makes it anew (`AddonRuns.CutCreateIsNeverRemoved`,
  `AddonRuns.UnownedUntilMadeAnewIff`).
- Addon deletion goes by name, so a foreign reinstallation under a ledger name is deleted
  (`AddonConvergence.LedgerNameIsDeletedWhoeverInstalledIt`).
- An unknown log type or principal type is rewritten on every pass (`LogConfig.UpdateIsStableIff`,
  `AccessPolicies.WriteReadsBackIff`); the API schema admits only known ones.
- A nil user-tag map sends a node-pool update down the attribute path (`NodePools.TagFixpointIff`); the
  controller never passes nil. Security groups are compared with what was last
  applied, not with the cloud, so drift and an adopted pool's own groups stay (`NodePools.GroupsReachedIff`,
  `NodePools.AdoptedGroupsAreNotChecked`).
- A gateway without an ID shortens its page and ends the listing (`Pagination.GatewayListingCompleteIff`); in the other
  listings an ID-less item does so at the end of a full page only (`Pagination.PlainListingCompleteIff`).
- A Cluster created again under its name while a sweep is running can lose the cluster it adopts
  (`GarbageCollector.ARecreatedClusterIsSwept`), and the second phase, which lists its resources after the objects,
  can sweep those of any Cluster created in between (`GarbageCollector.ListingObjectsFirstSweepsALiveCluster`);
  so can a cluster nobody holds that is tagged for a living object after it was listed
  (`GarbageCollector.ARetaggedClusterIsSwept`). Nothing else of this provider's is swept under a living object
  (`GarbageCollector.SweptOnlyUnderNewcomers`).
- The comment on the failure counter says a reconcile with no error and no requeue resets it; any pass without
  an error or an exponential delay does, a permission error included (`Backoff.BackoffRestartsIff`).

## Model

| member | source | states |
|---|---|---|
| Teardown.TeardownSafety | controllers/ccemanagedcontrolplane_controller.go:604-709 | In every world reachable by the three reconcilers, users who create and delete objects in any order, the asynchronous cloud, failures at any call and lost object patches: a cluster or API-server EIP ever recorded still exists only while the control plane records it under its finalizer, and a recorded node pool only while every object that recorded it does; so a released finalizer means the resource is gone. |
| Teardown.NetworkIsTornDownLast | controllers/ccecluster_controller.go:322-374 | A pass of the cluster controller that tears the network down runs only when every cluster, EIP and node pool ever recorded is absent. |
| Teardown.RegionStaysReadable | controllers/ccemanagedcontrolplane_controller.go:607-610 | While CCEClusters are created before the Cluster is provisioned and control planes before their CCECluster goes, a control plane with a finalizer always has a CCECluster with one to read its region from: no circular wait. |
| Teardown.RegionStaysReadableIff | controllers/ccemanagedcontrolplane_controller.go:239-258 | Over all runs, in any order: that holds throughout exactly when no control-plane pass persists its finalizer while there is no held CCECluster. |
| Teardown.StepGuardsRegionIff | controllers/ccemanagedcontrolplane_controller.go:239-258 | Of all steps of all parties exactly such a pass loses the guarantee: it adds the finalizer before it reads the CCECluster. |
| Teardown.StrandedUntilShellReturns | controllers/ccemanagedcontrolplane_controller.go:607-610 | A control plane under deletion without its CCECluster is released in a run exactly when the run re-creates the CCECluster and then makes a delete pass that gets through; until then its status does not even change. |
| Teardown.ReturningShellReleases | controllers/ccemanagedcontrolplane_controller.go:607-610 | Re-creating the CCECluster does end it: a releasing run exists from every stranded world. |
| Teardown.LateControlPlaneIsStranded | controllers/ccemanagedcontrolplane_controller.go:239-258 | Stranding is reachable from every initial world: a control plane created after its CCECluster was released takes its finalizer, and is then deleted. |
| Teardown.StepKeeps | controllers/ccemanagedmachinepool_controller.go:476-575 | Every step of every controller, of the users and of the cloud keeps the accounting of clusters, EIPs, node pools and finalizers. |
| Teardown.RunKeeps | controllers/ccemanagedcontrolplane_controller.go:219-494 | The accounting holds over whole runs. |
| Teardown.CpNormalKeeps | controllers/ccemanagedcontrolplane_controller.go:219-340 | Create, adopt, reset after an out-of-band delete and EIP binding keep the accounting, wherever the pass fails. |
| Teardown.CpDeleteKeeps | controllers/ccemanagedcontrolplane_controller.go:604-709 | The delete pass keeps the accounting: no cluster or EIP loses its record while it exists. |
| Teardown.PoolNormalKeeps | controllers/ccemanagedmachinepool_controller.go:175-474 | The pool pass keeps the accounting, also when it adopts an owned node pool after a name conflict: a node pool it records lies in the recorded cluster and is held by the pool's finalizer. |
| Teardown.PoolDeleteKeeps | controllers/ccemanagedmachinepool_controller.go:476-575 | The pool delete pass keeps the accounting: no pool is released while its node pool exists. |
| TeardownLeaks.UnrecordedClusterLeaksUnlessAdopted | internal/services/cce/cce.go:426-456 | A cluster whose creating pass lost its patch is recorded in a run exactly when a persisted pass adopts it before the cloud drops it; until then no controller touches it, so releasing the control plane first leaks it. |
| TeardownLeaks.BoundEipIsRecordedIff | controllers/ccemanagedcontrolplane_controller.go:386-395 | A pass gets a public IP exactly when one is declared, none is recorded and the cluster is available, and records it exactly if its patch goes through. |
| TeardownLeaks.UnrecordedEipLeaks | controllers/ccemanagedcontrolplane_controller.go:386-395 | A public IP whose patch was lost is never recorded and never released by any run: it is not looked up again. |
| TeardownLeaks.RecreatedClusterGetsNoEip | controllers/ccemanagedcontrolplane_controller.go:386-395 | The IP is bound once per control-plane object: over any run the recorded ID stays and no pass binds another, so the cluster created after an out-of-band deletion never gets one. |
| TeardownLeaks.ReleasedShellLeavesNetworkIff | controllers/ccecluster_controller.go:322-374 | A managed network is left behind by a releasing delete pass exactly when no patch ever recorded it. |
| TeardownTermination.StepLowersOrStutters | controllers/ccemanagedcontrolplane_controller.go:624-666 | With all objects deleting and healthy calls, every pass and every cloud event either changes nothing or lowers one measure over fallbacks, cloud resources and finalizers. |
| TeardownTermination.NoDeadlock | controllers/ccemanagedmachinepool_controller.go:522-565 | Until everything is released some enabled step has an effect, as deletion is issued again whenever the phase is not Deleting. |
| TeardownTermination.TeardownTerminates | controllers/ccemanagedcontrolplane_controller.go:604-709 | At most Measure many steps have an effect in any order, and a run that cannot be extended has released every object and left no recorded resource. |
| TeardownTermination.TeardownCanFinish | controllers/ccecluster_controller.go:322-374 | From every world under teardown such a finished run exists. |
| TeardownControllers.Management.ReconcileNormalControlPlane | controllers/ccemanagedcontrolplane_controller.go:219-494 | A pass keeps the accounting, and the region unless it takes its finalizer without a held CCECluster. What its patch stores is stated field by field: the ID it created, adopted or reset, the IP, and readiness, which is newly true exactly when the name matches, the infrastructure is provisioned and readable, the cluster in hand is available, no IP was still to be bound and no call failed. |
| TeardownReadiness.NormalPassLeaves | controllers/ccemanagedcontrolplane_controller.go:219-494 | The same of the model's pass, wherever it is cut: a lost patch stores nothing, a taken name is only adopted, a free one gets one new cluster. |
| TeardownReadiness.HealthyCloudLeadsToReady | controllers/ccemanagedcontrolplane_controller.go:386-487 | From every new control plane with an open gate, passes whose calls succeed and a cloud that makes the cluster available lead to a ready one, its cluster recorded and an IP bound exactly if one is declared. |
| TeardownControllers.Management.ReconcileDeleteControlPlane | controllers/ccemanagedcontrolplane_controller.go:604-709 | The finalizer goes exactly when the region is readable, the cluster is gone and no call fails; a cluster that is there is asked to be deleted, the IP is released once it is gone, and nothing else changes, wherever the pass fails. No cluster, EIP or node pool ever recorded is left then, and a pass whose calls succeed has no effect or lowers the teardown measure. |
| TeardownControllers.Management.ReconcileNormalPool | controllers/ccemanagedmachinepool_controller.go:175-292 | Keeps the accounting and the region; nothing happens before the control plane is ready with a cluster; then a missing node pool is created or the owned one of its name adopted, and an ID the live cluster no longer lists is forgotten. |
| TeardownReadiness.NormalPoolPassLeaves | controllers/ccemanagedmachinepool_controller.go:175-292 | The same of the model's pass, for every point it is cut at. |
| TeardownReadiness.DeletePassLeaves | controllers/ccemanagedcontrolplane_controller.go:604-709 | What the model's delete pass of a control plane changes, field by field, for every point it is cut at. |
| TeardownReadiness.PoolDeletePassLeaves | controllers/ccemanagedmachinepool_controller.go:476-575 | The same for a pool's delete pass. |
| TeardownControllers.Management.ReconcileDeletePool | controllers/ccemanagedmachinepool_controller.go:476-575 | The pool waits exactly while the live cluster lists its node pool, whose deletion it asks for, or cannot be seen; else it clears its ID and goes, leaving no node pool it ever recorded; a pass whose calls succeed has no effect or lowers the measure. |
| TeardownControllers.Management.ReconcileNormalInfra | controllers/ccecluster_controller.go:150-291 | A pass whose patch goes through stores the finalizer, is provisioned exactly when it was or no call failed, and records the network exactly when something of it was made; the accounts and the region are kept in any case. |
| TeardownControllers.Management.ReconcileDeleteInfra | controllers/ccecluster_controller.go:322-374 | Nothing changes before every recorded cluster, EIP and node pool is gone; without a control plane, as many network resources go as calls succeed, and the object goes exactly when they suffice. |
| TeardownControllers.Management.CallCreateCluster | internal/services/cce/cce.go:426-466 | A taken name is never duplicated; the cluster that has it is adopted only if it carries the name and the owned tag and is provisioned. |
| TeardownControllers.Management.CallCreateNodePool | internal/services/cce/cce.go:1119-1155 | Likewise for a node pool of the cluster: an ID that comes back is a pool of that name with the owned tag. |
| TeardownControllers.Management.TearDown | controllers/ccecluster_controller.go:322-374 | Delete passes that make their calls and a cloud that finishes its deletions end with every object released and no recorded resource left. |
| ApiServerEip.Client.BindClusterEip | internal/services/cce/cce.go:544-585 | An ID is returned exactly when create, tag and bind succeed, and that address is tagged and bound to this cluster; otherwise the address is released, or stays, tagged if the tagging succeeded, when the release fails too. |
| ApiServerEip.Client.UnbindClusterEip | internal/services/cce/cce.go:589-607 | Succeeds exactly when both calls do or find nothing; then the address is gone. The unbind request names the cluster only, so any address bound to that cluster is unbound; no other one changes. |
| ApiServerEip.AttemptsAddExactly | controllers/ccemanagedcontrolplane_controller.go:386-395 | Over the passes that try until one attempt succeeds, the addresses added are the bound one and one per attempt that leaked. |
| ApiServerEip.NothingLeaksIff | internal/services/cce/cce.go:540-543 | Nothing leaks exactly when no attempt before the first success fails to release what it made. |
| NetworkManager.Manager.ReconcileManagedNetwork | controllers/ccecluster_controller.go:395-430 | Whatever call fails, everything the manager made stays accounted for by the spec, and VPCs, subnets, gateways and groups are adopted only with the owned tag; success means VPC, subnets, gateway with all SNAT rules and security group are recorded. It does succeed when listings are truthful, calls succeed and nothing in the cloud stands in the way: no resource of a managed name without the owned tag, a CIDR for each subnet to be made and a node subnet for the gateway. |
| NetworkManager.Manager.EnsureVpc | internal/services/network/manager.go:368-401 | Creates or re-discovers by name; a same-name VPC without the owned tag is not adopted, and a listed name is never duplicated; succeeds when its calls do and no VPC of the name lacks the tag. |
| NetworkManager.Manager.EnsureSubnets | internal/services/network/manager.go:419-470 | Success records, for each subnet the user did not, an owned subnet of its name in the VPC; what earlier turns recorded stays when a later one fails, and no name is duplicated under truthful listings; succeeds when its calls do and each subnet has a CIDR or owned ones of its name only. |
| NetworkManager.Manager.FindOrCreateGateway | internal/services/network/manager.go:475-509 | The first listed gateway of the name is adopted only with the owned tag; else EIP, then gateway, each recorded as soon as it is made, an EIP even when its tagging failed. |
| NetworkManager.Manager.RediscoverEip | internal/services/network/manager.go:513-517 | An unrecorded EIP is taken from the first listed rule that carries one. |
| NetworkManager.Manager.EnsureNatGateway | internal/services/network/manager.go:475-518 | The accounts hold wherever the pass fails and recorded IDs are kept; success includes all SNAT rules, and comes when calls succeed, the gateway is there or of ours by name, or can be made in a node subnet. |
| NetworkManager.Manager.CreateEip | internal/services/network/manager.go:748-793 | An EIP whose tagging failed is deleted again, and only when that fails too it stays and its ID is returned with the error. |
| NetworkManager.Manager.EnsureSnatRules | internal/services/network/manager.go:523-548 | One SNAT rule per managed node subnet, added for those only, with the recorded EIP; under a truthful rule listing and distinct subnets none gets a second one. |
| NetworkManager.Manager.EnsureSecurityGroup | internal/services/network/manager.go:553-589 | A created group carries no tag, an adopted one the owned tag; a truthful listing in which no group of the name has the tag means refusal, with nothing created; without a foreign group of the name and with calls that succeed it succeeds. |
| NetworkManager.Manager.DeleteNetwork | internal/services/network/manager.go:293-362 | Removes only its targets; each recorded resource is gone or has its own error, whatever became of the others; without an error on an accounted spec nothing the manager made is left; and when no call fails there is no error and exactly the targets are gone. |
| NetworkManager.Manager.DeleteGatewayAndEip | internal/services/network/manager.go:307-341 | The EIP is the recorded one or one the gateway's rules carried before they were deleted; gateway and EIP are each gone or have their own error, also when a rule could not be deleted. |
| NetworkManager.Manager.DeleteSnatRules | internal/hwsdk/sdk.go:69-83 | Deletes rules of this gateway only; success under a listing that shows them all means none is left. |
| NetworkManager.Manager.Lifetime | internal/services/network/manager.go:293-362 | No leak over whole lifetimes: any passes, any failures, other tenants in between, any teardown attempts; a successful attempt leaves nothing the manager made. A log of all acts shows that each only adds what the manager made or removes what is ours, given that no other tenant's gateway has the managed name. |
| NetworkManager.Manager.CrashLoop | internal/services/network/manager.go:253-269 | Any number of passes whose recorded IDs are all lost, with truthful listings and distinct names, create at most one managed VPC and one subnet per name, the default subnet of a spec without subnets included; a final pass completes when its calls succeed and nothing stands in its way, and then records exactly those, given that nobody else uses this cluster's owned tag. |
| NetworkRuns.EmptyRegionCanCreateIff | internal/services/network/manager.go:402-509 | With nothing there yet, nothing stands in the way exactly when each subnet to be made has a CIDR and a declared gateway has a node subnet. |
| ManagedNetwork.UnnamedSubnetsAreDistinct | internal/services/network/manager.go:419-470 | Subnets without a name of their own never get the same one, whatever their number. |
| ManagedNetwork.GivenNamesAreKept | internal/services/network/manager.go:368-437 | A VPC, subnet or group has the name the user gave it; without one its name begins with the cluster's. |
| NetworkRuns.TeardownStaysWithinOurs | internal/services/network/manager.go:293-362 | What a teardown removes was made by the manager, carries the owned tag, is the VPC the user referenced, or hangs on such a gateway, given that no other tenant's gateway has the managed name. |
| NetworkRuns.ForeignStays | internal/services/network/manager.go:162-169 | So over a whole log, VPCs, subnets, gateways, rules, EIPs and groups of others that those others leave alone end as they started, the EIPs if they were on no rule of ours when an act began. |
| NetworkRuns.NamedAndUniqueIsExact | internal/services/network/manager.go:402-470 | Recorded under the managed names and unique, the made VPC and subnets are exactly the recorded ones, for every spec. |
| NetworkPasses.VpcIsDuplicatedIff | internal/services/network/manager.go:368-401 | A pass makes the VPC a second time exactly when the create call succeeds and the listing, which fails silently, hides the one it made. |
| NetworkPasses.LostPassesDuplicateIff | internal/services/network/manager.go:657-668 | Over any number of passes that lose their IDs, with any answers, the VPC is duplicated exactly when that happens in one of them. |
| NetworkPasses.TwoSilentListingsMakeTwoVpcs | internal/services/network/manager.go:657-668 | From every state two passes with an empty listing make two. |
| NetworkPasses.SubnetIsDuplicatedIff | internal/services/network/manager.go:419-470 | The same exact condition for a subnet's name in its VPC. |
| NetworkPasses.RuleIsDuplicatedIff | internal/services/network/manager.go:523-548 | The same for the SNAT rule of a subnet: a rule listing that fails makes a second one. |
| NetworkPasses.LostGroupIsRefused | internal/services/network/manager.go:553-589 | A pass that is shown a security group whose ID was lost, among groups of the name without the tag, fails and makes nothing, whatever its calls answer. |
| NetworkPasses.GroupIsRefusedIff | internal/services/network/manager.go:563-570 | With groups of the name there and tags readable, that is so in every order of the listing exactly when none of them carries the owned tag: tagging one ends it in some order. |
| NetworkPasses.GroupIsAdoptedIff | internal/services/network/manager.go:563-570 | And the pass succeeds in every order exactly when each of them carries it; it never makes another one. |
| SecurityGroupRules.Group.EnsureSecurityGroupRules | internal/services/network/manager.go:594-609 | Ingress before egress, the declared rules the one listing does not show are created in order until a call fails, and nothing is removed. |
| SecurityGroupRules.DuplicatedIff | internal/services/network/manager.go:611-653 | After a full pass the group has what it had and what is declared; a rule that was there at most once is there twice exactly when it was not listed and was declared twice, or declared and hidden. |
| SecurityGroupRules.NextPassCreatesNothing | internal/services/network/manager.go:591-593 | A following pass with a listing that shows them all creates nothing. |
| NetworkPasses.GatewayByNameIsSafeIff | internal/services/network/manager.go:307-316 | Whatever the order of the gateway listing, a teardown deletes no other tenant's gateway exactly when a gateway is recorded, no EIP is, or every gateway of the name is ours. |
| NetworkPasses.ForeignGatewayIsDeletedIff | internal/services/network/manager.go:307-316 | A given one is deleted exactly when none is recorded, an EIP is, and the look-up returns it. |
| NetworkPasses.AForeignGatewayIsDeleted | internal/services/network/manager.go:486-509 | Reached from every state before the gateway is made: EIP made, gateway call failed, name taken by another tenant, whose gateway and rules the teardown deletes. |
| NetworkPasses.EipByRuleIsSafeIff | internal/services/network/manager.go:318-325 | Whatever the order of the rule listing, looking up the EIP and tearing down releases only EIPs the manager made, exactly when an EIP is recorded or the gateway's rules carry no other tenant's live EIP. |
| NetworkPasses.AUsersEipIsReleased | internal/services/network/manager.go:737-746 | Reached from every state before the gateway is made: the user puts a rule with an own EIP on the managed gateway, the IDs are lost, and the user's EIP is adopted and released while the managed one stays. |
| ManagedNetwork.RecordedGoneMeansNothingLeft | internal/services/network/manager.go:293-362 | When every recorded resource is gone, nothing made is left. |
| Tags.OwnedClusterName | internal/services/tags/tags.go:35-42 | Returns the first claim in the map's order, and a name it returns is one the tags own. |
| Tags.ClaimedNameInverts | internal/services/tags/tags.go:23-25 | Building the owned key and reading the name back are inverse, and the key is injective. |
| Tags.OwnerReadBackIff | internal/services/cce/cce.go:2223-2260 | Every map order reads the owner back exactly when no user tag under another key is an ownership claim. |
| Tags.ToTags | internal/services/cce/cce.go:2223-2252 | The tag array lists exactly the owned, role and non-reserved user tags, each once; reserved keys win. |
| Tags.Wanted | internal/services/cce/cce.go:262-267 | The map built back from the array is that desired set. |
| Tags.DesiredSize | api/common/tags_validate.go:22-44 | The desired set has at most two entries more than the user tags. |
| ClusterTags.ClusterTagsDiff | internal/services/cce/cce.go:201-226 | In any map order: exactly the missing or different entries to add, and the stale ones but the owned key to delete. |
| ClusterTags.PlanClusterTags | internal/services/cce/cce.go:233-246 | Exactly the needed writes, once each, deletions first, reserved keys never deleted. |
| ClusterTags.ApplyMeansEachWriteOnce | internal/services/cce/cce.go:233-246 | What a run of such writes leaves at every key. |
| ClusterTags.PlanConvergesIff | internal/services/cce/cce.go:248-298 | A full plan ends in the desired set exactly when no reserved leftover is outside it. |
| ClusterTags.RestIsAPlan | internal/services/cce/cce.go:278-296 | Cut anywhere, the writes not yet made are themselves a plan for the state reached: a retry finishes the job and repeats nothing. |
| ClusterTags.InSyncIffNoWrites | internal/services/cce/cce.go:253-253 | Nothing is planned exactly when the tags are in sync. |
| ClusterTags.PlanStaysUnderCap | internal/services/cce/cce.go:228-232 | With both end states within 20 tags, no prefix of a plan exceeds 20. |
| ClusterTags.CreatesFirstPeaksAtTheUnion | internal/services/cce/cce.go:219-223 | Creating first would peak at the union of both sets, over the cap from any full resource with one new key. |
| ClusterTags.DesiredFits | api/common/tags_validate.go:28-35 | At most 18 user tags give at most 20 desired ones, and the reserved keys are among them. |
| ClusterTags.Cluster.ReconcileClusterTags | internal/services/cce/cce.go:254-298 | Whatever fails, the tags moved along a plan; success is the desired set; and within the caps, a platform that refuses only over-cap writes refuses none. |
| ClusterTags.Split | internal/services/cce/cce.go:269-278 | Sorting the plan into two batches keeps its order. |
| TagValidation.Validate | api/common/tags_validate.go:57-95 | Reports an issue exactly when it is there: the cap of 18 and the key and value rules. |
| TagValidation.ValidateNodePool | api/common/tags_validate.go:109-127 | Adds exactly the cap of 6 and the two reserved prefixes. |
| TagValidation.MergedTags | controllers/ccemanagedmachinepool_controller.go:765-774 | The pool's tags overlay the control plane's. |
| TagValidation.ValidMergeFits | api/common/tags_validate.go:142-144 | A merged set that passes carries at most 8 tags once the two internal ones are added. |
| TagValidation.SidesAloneDoNotFit | api/common/tags_validate.go:129-141 | Sides valid apart can still exceed the cap merged, which the merged check reports. |
| NodePools.TagsEqual | internal/services/cce/cce.go:1301-1311 | Comparing sizes and one direction of entries decides equality of the maps. |
| NodePools.TagFixpointIff | internal/services/cce/cce.go:1276-1298 | After one reconcile the tags are as wanted, nothing else changed and a second one does nothing, exactly when the tag map was not nil; a nil map resets the security groups and never converges. |
| NodePools.WithoutTheFlagThePoolShrinksIff | internal/services/cce/cce.go:1214-1224 | With the ignore flag left out of the attribute or the tag update, a pass takes a pool it would leave with nodes to zero exactly when it gets to send that update. |
| NodePools.PassKeepsCounts | controllers/ccemanagedmachinepool_controller.go:257-432 | A pass cut anywhere removes no pool, touches no other pool, and changes an expected count only to spec.replicas and never under an external autoscaler. |
| NodePools.RunKeepsCounts | controllers/ccemanagedmachinepool_controller.go:257-432 | Over any run of passes and owner changes a pool's count is its old one or one some non-external pass scaled to. |
| NodePools.DonePass | controllers/ccemanagedmachinepool_controller.go:363-418 | After a successful pass status is the cloud's count, spec is the owner's, tags are the desired ones; an externally managed owner is set to the cloud's count. |
| NodePools.OnePassReachesReplicasIff | controllers/ccemanagedmachinepool_controller.go:306-318 | One successful pass reaches the owner's replicas exactly when the last observed count differed or the platform had them already. |
| NodePools.TwoPassesReachReplicas | controllers/ccemanagedmachinepool_controller.go:306-418 | Two successful passes in a row always reach them. |
| NodePools.GroupsReachedIff | controllers/ccemanagedmachinepool_controller.go:320-370 | After a successful pass the pool has the declared security groups exactly when the last applied ones differed or it had them already: drift made by others is never corrected. |
| NodePools.AdoptedGroupsAreNotChecked | controllers/ccemanagedmachinepool_controller.go:283-286 | The security groups of an adopted pool are recorded as applied and stay whatever they were. |
| NodePools.EnsuredIff | internal/services/cce/cce.go:1119-1155 | Without a recorded pool a pass gets a new one, as declared, when the name is free, the one of the name when it carries the owned tag, and else fails with nothing changed; each exactly when its calls suffice. |
| NodePools.PassTouchesOwnedOnly | internal/services/cce/cce.go:1131-1145 | A pass, wherever it is cut, neither changes nor records an existing pool without the owned tag that it had not recorded before. |
| NodePools.ForeignNameFailsThePass | internal/services/cce/cce.go:1748-1753 | A name conflict with a pool of somebody else ends the pass in failure with the world unchanged. |
| NodePools.ForeignPoolsStay | controllers/ccemanagedmachinepool_controller.go:257-432 | Over any run of passes and events such a pool stays as it is and unrecorded. |
| NodePools.HealthyPassIsDone | controllers/ccemanagedmachinepool_controller.go:257-432 | A pass whose calls succeed, with valid tags and no foreign pool in its way, ends done and ready. |
| NodePools.DoneMadeAllCalls | controllers/ccemanagedmachinepool_controller.go:257-432 | A pass that is done made all its calls: with more at hand it does the same. |
| NodePools.VanishedPoolIsForgottenIff | controllers/ccemanagedmachinepool_controller.go:398-432 | A recorded pool that vanished is forgotten, to be made anew, exactly when the pass reaches the list without a count or groups to change; else the pass fails. |
| NodePoolController.Reconciler.ReconcileNormal | controllers/ccemanagedmachinepool_controller.go:175-474 | The statement-by-statement pass computes the model's pass, state and outcome. |
| NodePoolController.Reconciler.CreateNodePool | internal/services/cce/cce.go:1119-1155 | Creates the pool as declared exactly when the name is free and the call succeeds; on a conflict adopts the same-name pool exactly when it carries the owned tag and can be listed, and else leaves the platform unchanged. |
| NodePoolController.Reconciler.ReconcileNodePoolTags | internal/services/cce/cce.go:1276-1298 | Updates exactly when the pool exists and drifted. |
| NodePoolController.Reconciler.DriveCount | controllers/ccemanagedmachinepool_controller.go:293-318 | Owner sync, then a scale call exactly when status and spec differ and no external autoscaler owns the count. |
| NodePoolController.Reconciler.RefreshStatus | controllers/ccemanagedmachinepool_controller.go:398-432 | Status from the list, reverse sync to an external owner, the ID cleared when the pool is gone. |
| Backoff.BackoffTracker.Delay | controllers/requeue.go:53-70 | Counts one failure and waits the capped power of two; the doubling never exceeds twice the cap. |
| Backoff.BackoffTracker.RequeueAfterForError | controllers/requeue.go:99-110 | Throttling before quota before permission, each with its own delay in seconds; only the first two count. |
| Backoff.BackoffTracker.ResultAfterError | controllers/requeue.go:119-124 | Classified errors become delays without an error, others pass through and leave the counter. |
| Backoff.BackoffTracker.ResultAfterErrorForDelete | controllers/requeue.go:135-140 | Throttled deletes double from 90 seconds, other errors keep their policy. |
| Backoff.BackoffTracker.Reconcile | controllers/ccemanagedcontrolplane_controller.go:130-217 | The result and the counter after a pass, other keys untouched; a pending spec change shortens only delays that were not tuned, to 30 seconds, never a permission delay, and a failed object patch never resets. |
| Backoff.CounterCountsSinceClean | controllers/requeue.go:34-49 | Over any run on any keys the counter is the number of throttle and quota passes of that key since its last clean pass. |
| Backoff.KthBackoffDelay | controllers/requeue.go:51-70 | So the k-th of them waits exactly min(base*2^(k-1), 30 minutes) with its own base, also while a spec change is pending. |
| Backoff.EveryRunHasASinceClean | controllers/ccemanagedcontrolplane_controller.go:140-145 | Every run splits at its last clean pass. |
| Backoff.BackoffRestartsIff | controllers/ccemanagedmachinepool_controller.go:102-107 | A pass between two failures lets the next one start from its base exactly when nothing was counted or the pass ends without an error, a permission error included, and its object patch goes through. |
| Cidr.OverlapIff | internal/services/network/validator.go:232-241 | Two prefixes overlap exactly when some address lies in both; across families never. |
| Cidr.OverlappingPrefixesNest | internal/services/network/validator.go:232-241 | Overlapping prefixes nest. |
| Cidr.DefaultSubnetInsideVpc | internal/services/network/manager.go:936-949 | For every VPC field, the empty one standing for the default block: the default subnet's text parses exactly when the VPC's does, and then starts where the VPC does, lies inside it, and is a /24 or all of it. |
| Cidr.GatewayInsideIff | internal/services/network/manager.go:952-959 | The default subnet's gateway is its network address plus one, and lies inside it and the VPC exactly when the VPC field parses, or is empty, and leaves a host bit. |
| NetworkValidator.FetchNetwork | internal/services/network/validator.go:200-229 | A failed listing is an error; a subnet is known by both of its IDs. |
| NetworkValidator.Validate | internal/services/network/validator.go:96-197 | The report holds an issue exactly when it is there. |
| NetworkValidator.ReportedIff | internal/services/network/validator.go:96-197 | Each issue means what it says: an overlap that some address lies in both ranges, a missing subnet that the listing lacks it, and so on for every kind. |
| NetworkValidator.NoHardIssueIffSound | internal/services/network/validator.go:96-197 | No hard issue exactly when everything named exists, counts are within limits and no address is shared between ranges that must be apart. |
| Pagination.Lister.PaginateAll | internal/services/cce/cce.go:641-658 | Terminates; success returns what following the markers collects, a failed request a prefix of it. |
| Pagination.EverythingIsListed | internal/services/cce/cce.go:661-689 | With an ID on every item, or with the server's own markers as for nodes, the whole listing comes back in order, whatever its length modulo the page size. |
| Pagination.PlainListingCompleteIff | internal/services/cce/cce.go:661-689 | A listing that keeps every item and takes its markers from them is complete exactly when every full page with items behind it ends with an item that has an ID. |
| Pagination.GatewayListingCompleteIff | internal/services/cce/cce.go:776-808 | The gateway listing, which drops ID-less items before measuring a page, is complete exactly when no page with one precedes a gateway with an ID. |
| Pagination.AnIdlessGatewayHidesTheRest | internal/services/cce/cce.go:791-796 | A concrete listing where it is not. |
| LogConfig.LogConfigEqual | controllers/ccemanagedcontrolplane_controller.go:1132-1157 | The count map decides equality of the TTL and of the multisets of keys. |
| LogConfig.KeysEqualIffSameLogs | controllers/ccemanagedcontrolplane_controller.go:1140-1156 | With slash-free types that is equality of the items up to order, an empty type counting as control. |
| LogConfig.ASlashInATypeHidesDrift | controllers/ccemanagedcontrolplane_controller.go:1145-1145 | With a slash in a type it is not; the API schema admits three slash-free types only, so the condition always holds for a stored object. |
| LogConfig.Cluster.ReconcileLogging | controllers/ccemanagedcontrolplane_controller.go:1109-1128 | One write exactly when declared, drifted, in range and the calls succeed, and what it stores. |
| LogConfig.UpdateIsStableIff | internal/services/cce/cce.go:2150-2217 | What an update stores compares equal afterwards exactly when every declared type is known; an unknown one is written on every pass. |
| CloudWrites.ApplyHasEffect | controllers/ccemanagedcontrolplane_controller.go:984-1022 | What a run of writes with one write per ID leaves. |
| CloudWrites.IndexByName | controllers/ccemanagedcontrolplane_controller.go:969-972 | The index built from a listing keeps the last entry of a name. |
| Addons.Reconciler.ReconcileAddons | controllers/ccemanagedcontrolplane_controller.go:962-1037 | The loop sends the planned writes until a call fails and latches the ledger only on full success. |
| AddonRuns.PlanHolds | controllers/ccemanagedcontrolplane_controller.go:984-1022 | Each planned write concerns a declared addon, or deletes a ledger name no longer declared. |
| AddonRuns.LedgerSafety | controllers/ccemanagedcontrolplane_controller.go:958-1037 | After any run with foreign changes, failures and lost patches: the ledger holds only names this provider created, deletes hit only ledger names, changes only declared addons, and a gated pass has an empty ledger. |
| AddonRuns.CreatedIsOwnedIff | controllers/ccemanagedcontrolplane_controller.go:1023-1035 | A name a pass creates is there afterwards, and owned exactly when it was before, or the pass succeeded and its object patch went through. |
| AddonRuns.UnownedUntilMadeAnewIff | controllers/ccemanagedcontrolplane_controller.go:1023-1035 | Over any run with foreign changes, an unowned name is owned at some point exactly when a successful, persisted pass declares it while no addon has it. |
| AddonRuns.CutCreateIsNeverRemoved | controllers/ccemanagedcontrolplane_controller.go:1010-1022 | An addon outside the ledger stays unowned and undeleted through any passes, as long as nobody else removes or renames it. |
| AddonRuns.ACutPassLeavesAnUnownedAddon | controllers/ccemanagedcontrolplane_controller.go:993-1003 | A cut pass that leaves one exists, whether or not its patch goes through, and it stays as long as the others leave it. |
| AddonConvergence.PassConverges | controllers/ccemanagedcontrolplane_controller.go:984-1036 | One fully successful pass leaves every declared addon there, at its version if one is declared, changes nothing else, and any next pass writes nothing. |
| AddonConvergence.UpdatePlannedIff | controllers/ccemanagedcontrolplane_controller.go:993-1009 | An addon that is there is updated exactly when a version is declared and differs from its own. |
| AddonConvergence.EnoughCallsSucceed | controllers/ccemanagedcontrolplane_controller.go:962-1037 | A pass with one call for the listing, one for each declared and one for each listed addon succeeds. |
| AddonConvergence.LedgerNameIsDeletedWhoeverInstalledIt | controllers/ccemanagedcontrolplane_controller.go:1010-1022 | A successful pass deletes exactly the undeclared addons with a ledger name, whoever installed them. |
| AccessPolicies.WriteReadsBackIff | internal/services/cce/cce.go:890-953 | A written policy is in scope, under its name, with type, principal type, principals and namespaces as declared, no namespaces standing for all; it reads back without drift exactly when its principal type is known. |
| AccessPolicies.InScopeIff | internal/services/cce/cce.go:885-912 | A policy is in the cluster's scope exactly when it lists the cluster or all clusters. |
| AccessPolicies.Reconciler.ReconcileAccessPolicies | controllers/ccemanagedcontrolplane_controller.go:1167-1239 | The loop sends the planned writes until a call fails or a declared name collides, and latches all declared names on success. |
| AccessPolicyRuns.PlanHolds | controllers/ccemanagedcontrolplane_controller.go:1195-1230 | Updates and deletes address in-scope policies under ledger names only. |
| AccessPolicyRuns.LedgerSafety | controllers/ccemanagedcontrolplane_controller.go:1159-1239 | Over any run, with foreign changes, failures and lost patches, the ledger holds only created names, and out-of-scope or unledgered policies are never updated or deleted. |
| AccessPolicyRuns.CutCreateWedgesIff | controllers/ccemanagedcontrolplane_controller.go:1195-1202 | A pass wedges a name it creates, that is leaves it taken and unowned, exactly when the name was not owned before and the pass fails or its object patch is lost. |
| AccessPolicyRuns.PassSucceedsIff | controllers/ccemanagedcontrolplane_controller.go:1203-1211 | A pass given enough calls succeeds exactly when none of its declared names is wedged. |
| AccessPolicyRuns.WedgedUntilFreedIff | controllers/ccemanagedcontrolplane_controller.go:1195-1239 | Over any run a name stays wedged, and no pass that declares it succeeds, exactly as long as nobody else takes the in-scope policies of that name away. |
| AccessPolicyRuns.FreeingEndsTheWedge | controllers/ccemanagedcontrolplane_controller.go:1195-1239 | Once the name is freed and no other declared name is wedged, the next pass given its calls succeeds and owns it. |
| AccessPolicyRuns.CutCreateWedges | controllers/ccemanagedcontrolplane_controller.go:1203-1211 | The policy itself stays as it is, outside the ledger, as long as the others leave it, and no pass that declares it succeeds. |
| AccessPolicyRuns.ACutPassLeavesAnUnledgeredPolicy | controllers/ccemanagedcontrolplane_controller.go:1200-1202 | Such a cut pass exists. |
| AccessPolicyConvergence.PassConverges | controllers/ccemanagedcontrolplane_controller.go:1195-1284 | One fully successful pass with known principal types leaves every declared policy in scope with exactly the declared type, principal type, principals and namespaces, leaves the rest of the account as it was, and every next pass succeeds without a write. |
| AccessPolicyConvergence.UpdatePlannedIff | controllers/ccemanagedcontrolplane_controller.go:1211-1217 | An owned declared policy is updated exactly when one of those four differs from what is declared. |
| PodIdentity.KeyIsInjective | controllers/ccemanagedcontrolplane_controller.go:1054-1054 | The joined key identifies namespace and service account. |
| PodIdentity.Reconciler.ReconcilePodIdentityAssociations | controllers/ccemanagedcontrolplane_controller.go:1045-1103 | The loops send the planned creations, then the deletions in the map's order, until a call fails. |
| PodIdentityRestart.PassKeepsTargets | controllers/ccemanagedcontrolplane_controller.go:1070-1102 | A cut pass keeps what every key has to become; a full one reaches it. |
| PodIdentityRestart.RestartSafety | controllers/ccemanagedcontrolplane_controller.go:1039-1103 | Any number of cut passes and one full pass end, key by key, where one uninterrupted pass does, whatever the listing and map orders. |
| PodIdentityRestart.TargetRespectsOwnership | controllers/ccemanagedcontrolplane_controller.go:1070-1102 | There, owned keys are declared, untagged associations are as they were, and agency drift is left alone. |
| PodIdentityRestart.AtTargetNothingIsPlanned | controllers/ccemanagedcontrolplane_controller.go:1070-1102 | A further pass writes nothing. |
| GarbageCollector.Cloud.Sweep | controllers/gc.go:98-189 | One delete is attempted, in listing order, for each listed cluster whose first claim names no Cluster object and for no other, whatever individual deletes fail; the opt-out annotation only counts, and the count is that of the listed clusters whose object carries it. |
| GarbageCollector.AttemptedAreTheOrphans | controllers/gc.go:141-174 | What such a sweep attempts is what the interleaving of listings, deletions and other parties deletes. |
| GarbageCollector.SweptInSomeOrderIff | controllers/gc.go:141-150 | A listed cluster can be swept exactly when one of its claims names a cluster without an object. |
| GarbageCollector.SweptOnlyUnderNewcomers | controllers/gc.go:112-189 | In every interleaving with creations, adoptions, retagging and deletions, and in either order of the two listings: every living object of a swept cluster's name was created after the object listing, and so was its holder. |
| GarbageCollector.SweptClustersLostTheirObject | controllers/gc.go:112-174 | With clusters listed first, the object a swept cluster was created for is gone, also if its name was created again; its holder is gone too, unless created after the object listing and adopting the cluster. |
| GarbageCollector.ARecreatedClusterIsSwept | controllers/gc.go:141-174 | That exception is possible whenever a cluster is about to be swept: the Cluster is created again, its control plane adopts the cluster, and the sweep deletes it. |
| GarbageCollector.ARetaggedClusterIsSwept | controllers/gc.go:141-174 | The exception to the protection of living objects is real: a cluster nobody holds that is tagged for one after its listing is swept. |
| GarbageCollector.ListingObjectsFirstSweepsALiveCluster | controllers/gc.go:112-122 | With the two listings exchanged, the order the second phase has for its resources, a new one is swept with its object in place. |
| GarbageCollector.DesiredIsTaggedForIff | internal/services/cce/cce.go:2223-2260 | A created cluster's tags qualify for that guarantee exactly when no user tag claims another name. |
| GarbageCollector.TagPlanStaysTaggedFor | internal/services/cce/cce.go:254-298 | Tag reconciliation keeps them qualified at every point of its plan. |

## Left out

- Kubernetes and cloud plumbing: SDK clients, HTTP, credentials, informer caches, work queues, leader election, events, metrics and condition texts; passes are atomic and reads are current.
- Calls that take effect and still report an error, except a create whose resource a later conflict or look-up by name reveals.
- Upgrades, kubeconfig secrets, certificates, endpoints and node repair: single-branch or foreign formats.
- Webhooks beyond the tag rules, defaulting, feature gates and the autoscaling attribute of node pools.
- Subnet and VPC peering attributes, descriptions of security-group rules, bandwidth and flavour fields: carried to the SDK without a decision.
- The loops of the garbage collector's second phase (EIPs, volumes, VPCs, gateways): they are that of `GarbageCollector.Cloud.Sweep` without the annotation; their listing order is covered by `GarbageCollector.SweptOnlyUnderNewcomers`.
- Text of CIDR blocks: parsing belongs to Go's net/netip and is not part of this model; an IP prefix is family, address and length as in section 3.1 of RFC 4632 and section 2.3 of RFC 4291.
- The character tables behind the tag patterns: parameters of `TagValidation`.
- The version the platform picks for an addon declared without one: nothing reads it unless a version is declared.
- Throttle and wait helpers: their behaviour lives in libraries that are not part of this model.
- A Cluster without an infrastructure or control-plane reference; the controllers return an error there.
- Backoff across controllers that share a key: the model has one controller per key, and delete passes never see a pending spec change.
- Teardown.TeardownSafety: speaks of recorded resources; what becomes of unrecorded ones is in `TeardownLeaks`, and an address leaked by a failed binding attempt in `ApiServerEip`.
- NetworkManager.Manager.ReconcileManagedNetwork: promises success where no resource of a managed name lacks the owned tag; with tagged and untagged ones of one name side by side the order of the listing decides, as `NetworkPasses.GroupIsAdoptedIff` says for groups.
- NetworkManager.Manager.EnsureSecurityGroup: ends with the group's ID; its rules are `SecurityGroupRules`.
- NetworkManager.Manager.CrashLoop: claims VPC and subnets only; gateways and EIPs are re-discovered by name or rule without a count, and a security group is refused.
- NetworkManager.Manager.Lifetime: assumes no other party takes the managed gateway name during the run, as the look-up by name in teardown has no tag check; `NetworkPasses.GatewayByNameIsSafeIff` says when that matters.
- NetworkRuns.TeardownStaysWithinOurs: assumes the same, and counts an EIP that a rule of our gateway carries, or led to, among what may go.
- Teardown.RegionStaysReadable: assumes the usual order of creation; `Teardown.RegionStaysReadableIff` covers every order.
- TeardownControllers.Management.ReconcileNormalControlPlane: ends where the object becomes ready; the logging, addon, policy and identity stages after it are the modules named above.
- TeardownControllers.Management.ReconcileNormalInfra: the managed network is a number of resources there; which ones, and how each is made or fails, is `NetworkManager`.
- TeardownControllers.Management.CallCreateCluster: leaves out yearly-billed clusters, whose ID the create call does not return and which are then looked up by name without a check of their tags.
- Pagination.EverythingIsListed: takes a server's page to be as long as asked for and its own marker to be there exactly while more items follow.
- AddonConvergence.PassConverges: needs distinct declared names and one instance per name on the platform; a duplicate declared name is created twice.
- AccessPolicyConvergence.PassConverges: needs distinct declared names and unique in-scope names, and the calls of one whole pass to succeed.
- PodIdentityRestart.RestartSafety: needs distinct declared keys and one association per service account on the platform.
- GarbageCollector.SweptClustersLostTheirObject: speaks of clusters whose tags claim their own name only; `GarbageCollector.DesiredIsTaggedForIff` says when they do.
- GarbageCollector.SweptOnlyUnderNewcomers: likewise, and leaves out a cluster no object held that somebody retagged between its listing and the sweep.
