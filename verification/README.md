# k8slan: verified model

k8slan builds virtual layer-2 LANs over a Kubernetes cluster. On every host a LAN is a network
namespace holding a bridge; each pod of the LAN hangs on the bridge by a veth pair (a *spoke*), and a
vxlan with a multicast group joins the bridges of different hosts. This project models the three state
machines behind that and proves what they are for.

**One host's network stack.** `Kernel` is the part of Linux that is driven: links by namespace and name,
with the cascades of a deletion (the other veth end, macvtaps above, a whole namespace) and the effect of
a move. `ApplySpec` gives `Ensure`, `NewNS`, `DeleteNamed`, `Remove` and the move step of the CNI plugin
as functions of that state. Every call into the operating system has a name, and a set `faults` says which
calls fail besides those whose own precondition fails, so every early return is covered. `Apply.HostStack`
is the same code as it is written, changing one state call by call, and each method is proved equal to its
function. `Topology` has the invariant, which lets a namespace hold a vxlan of any settings, and `VxRight`,
which says that every LAN's vxlan has its own; `VxOrigin` shows that steps keep the latter. `Isolation` has the
broadcast domains, in which a frame goes only between links that are up. `Stages` says what an Ensure leaves of
its own spoke at each return, `Refinement` and `Ends` give the abstract view of attached spokes with where their
ends are and whether they are up, `Untouched` what an Ensure leaves alone, `Success` exactly when it
succeeds, `Guarantees`, `Delivery`, `EnsureTwice` and `EnsureCommute` what success is worth, `Runs` and `CleanRuns` whole runs of a cluster, `Hearing` and `Silent` when
an end is up and what follows when it is not, `LastingCalls` why clean runs exclude what they do, `NsLife` the
life of a mount point. `Example` shows that the hypotheses of all this can be met, `Findings` has inputs at which the code
surprises.

**The finalizer protocol.** `Protocol` models the daemon set: an API server that keeps the versions of the
LAN object and accepts an update only of the newest one, one reconciler per host that reads old or new
versions (never going back), and two bounded channels to the host's device lister, which the messages of all
LANs share. Any interleaving of any number of hosts, of their other LANs, of listers and user is a run. `ProtocolHistory` is about the versions alone, `ProtocolInv` is the invariant,
`ProtocolSafety` and `ProtocolLive` are the theorems, `ProtocolIndex` joins the protocol and the lister, and
`Daemon.Cluster` is one reconcile as it is written, with others acting between its calls.

**Names and indices.** `LanTypes` and `Webhook` are validation and admission, `Addresses` what counts as
multicast, `Codec` the encoding of spoke
names, `Lister` the device index, `Plugin` the way from a resource to `Ensure`, `NadController` the operator.

`NoClash` in `Topology` is the documented uniqueness of ns, spokes and vni (README.md:114-117 of the
repository) plus the name clashes that `Validate` does not check: bridge, vxlan, `lo`, spokes, their peers
and device names and the dummy device are different names, and no underlay device has one of them.

## What the proofs found

- The error of attaching a new vxlan to the bridge is assigned to a shadowed variable
  (pkg/interfaces/apply.go:199) and never reaches the check at line 227: `Ensure` reports success with the
  vxlan off the bridge, and since an existing vxlan is not attached again, no later `Ensure` repairs it
  (`Guarantees.AttachErrorIsLost`). A bridge left down is not repaired either (`Guarantees.BridgeStaysDown`,
  on an untouched host `Findings.BridgeDownHere`).
- The CNI plugin moves a spoke's end into the pod, which takes it down, and brings it up only through an IPAM
  plugin (cni/k8slanveth/main.go:126-170), which the definitions that the operator writes do not name
  (api/v1beta1/lan_types.go:204-209). Until something in the pod brings the end up, the spoke is attached and
  nobody hears it (`Hearing.MovedUpIff`, `Hearing.MovedUnheard`; from any untouched cluster `Silent.MoveSilences`,
  at an input `Findings.MoveSilencesHere`).
- An Ensure that makes the pair and then fails to make the vxlan or to bring the end up in the host
  (pkg/interfaces/apply.go:232-239) reports the error and leaves the spoke attached, with its end down
  (`Success.StageIff`, `Hearing.LeftDownUnheard`, `Silent.FailedUpSilences`, `Findings.FailedUpSilencesHere`).
- If the five attach calls, bringing up a new bridge, and looking up and making the vxlan do not fail, and groups
  read back as written, two spokes hear each other exactly if they are of one LAN and both their ends are up
  (`CleanRuns.CleanRunDomains`; when an end is up, `Hearing.EndUpIff`). None of these calls can be dropped from
  that list: for each there is a run in which no other of them fails and two spokes of one LAN, both attached with
  their ends up, do not hear each other (`LastingCalls.EachCallMatters`); and the same happens with a group that
  does not read back (`LastingCalls.PlainGroupMatters`). A failure of making the vxlan is repaired by the next
  successful Ensure, and one of the lookup does harm only if a later call of the same Ensure fails too; the others
  last.
- A group with a zone, or an IPv4-mapped one, is admitted (`Findings.OddGroupsAdmitted`) but never equals what
  the kernel gives back, so every `Ensure` replaces the vxlan (`Findings.OddGroupReplaced`; exactly when, in
  `Guarantees.NeedSettled` and `EnsureTwice.EnsureIdempotent`).
- A spoke of 11 to 13 bytes can contain the prefix it is encoded with, and is then decoded to another name
  (`Codec.LongSpokeLost`); `Codec.RoundTripIff` is the exact condition.
- The lister's `select` may take a removal before the add it follows. After a whole life of a LAN, with the
  object gone and both channels empty, the host then still offers its devices
  (`ProtocolIndex.StaleDeviceReachable`). Taking waiting adds first is enough to rule it out
  (`ProtocolIndex.GoneLeavesNoDevice`).
- The operator lists definitions of all namespaces and compares names only, so a definition of the same
  name elsewhere keeps a LAN from getting its own (`NadController.NamespaceServedIff`, at an input
  `Findings.NameTakenElsewhere`).
- The vxlan port is admitted unseen (`Webhook.PortIsNotChecked`).

Where code and documentation disagree the model follows the code: the namespace is mounted under
/var/run/netns (pkg/interfaces/ns.go:45), not /run/k8slan/netns (README.md:109 of the repository).

## Model

| member | source | states |
|---|---|---|
| Runs.RunDomains | pkg/interfaces/apply.go:17-266 | after any run of Ensures, moves into pods, ends brought up in pods, teardowns and removals on any hosts, with any calls failing, two attached spokes share a broadcast domain if and only if they are of one LAN, both their ends and both bridges are up and, between hosts, both uplinks work |
| Runs.RunEnds | pkg/interfaces/apply.go:17-266 | the same without naming spokes, for any two links that hosts or pods hold and whose other end is in a LAN namespace |
| Runs.EndIsAttached | pkg/interfaces/apply.go:156-192 | after any run and whatever failed, every such link is the end of an attached spoke: its other end is up, on its LAN's bridge, with the mask |
| Runs.RunFinished | pkg/interfaces/apply.go:156-192 | a spoke whose end has left the LAN namespace is attached, in every state of every run |
| Hearing.EndUpIff | pkg/interfaces/apply.go:159-239 | over all runs: the end of an attached spoke is up if and only if, of the events that bring it up or take it down, the last brought it up; up: an Ensure that gets past its last step for the spoke, and the pod; down: an Ensure that stops before that step, and the CNI move |
| Hearing.MovedUpIff | cni/k8slanveth/main.go:90-170 | after the CNI move the spoke is attached with its end in the pod, and as long as it is not asked for again the end is up if and only if the pod has brought it up since |
| Hearing.MovedUnheard | cni/k8slanveth/main.go:90-112 | until then no other spoke of the cluster hears it, whatever else happens |
| Success.StageIff | pkg/interfaces/apply.go:21-239 | where an Ensure stops, for any set of failing calls: before the pair, in it, before the end is brought up, or later, exactly by what it finds (underlay, namespace, bridge, old pair, vxlan, group) and which of its calls fail |
| Hearing.LeftDownUnheard | pkg/interfaces/apply.go:194-239 | such an Ensure leaves its spoke attached, and unheard until it is asked for again or a pod brings a link up |
| Silent.MoveSilences | cni/k8slanveth/main.go:90-112 | from any untouched cluster: two spokes of one LAN hear each other after their Ensures, not after the CNI move of one, and again when its pod has brought the end up |
| Silent.FailedUpSilences | pkg/interfaces/apply.go:231-239 | from any untouched cluster: an Ensure that cannot bring the end up reports an error, its spoke is attached and nobody hears it, though the run is clean |
| Findings.MoveSilencesHere | cni/k8slanveth/main.go:90-112 | the move, and the end brought up, on two hosts with one card each |
| Findings.FailedUpSilencesHere | pkg/interfaces/apply.go:231-239 | the failed Ensure on the same hosts |
| CleanRuns.CleanRunDomains | pkg/interfaces/apply.go:66-266 | in runs where no lasting call fails (attach steps, bridge up, vxlan lookup and creation) and groups read back as written, two attached spokes on any hosts share a broadcast domain if and only if they belong to the same LAN and both their ends are up |
| Example.TwoHosts | pkg/interfaces/apply.go:17-266 | from untouched hosts with their underlays, one Ensure on each of two attaches both spokes, which hear each other if and only if they are of one LAN |
| Example.HypothesesCanBeMet | README.md:105-117 | a concrete cluster with two LANs meets every hypothesis about runs; in one run two spokes hear each other, in another they do not |
| Example.ProtocolCanStart | dset/main.go:49-107 | the hypotheses of the theorems about the finalizer protocol are met by an admitted LAN on any set of hosts |
| CleanRuns.CleanRunWhole | pkg/interfaces/apply.go:79-136 | in such runs every bridge present is up and every vxlan present is right, up and on its bridge, and one is present wherever a spoke is attached |
| Isolation.SameDomainIff | pkg/interfaces/apply.go:68-239 | the exact condition for a shared domain, the ends being up included, in every state satisfying the invariant |
| Isolation.LansIsolated | pkg/interfaces/apply.go:68-193 | no path of peers, bridges, macvtaps and vxlans leads from one LAN to another |
| Isolation.NoUplinkApart | pkg/interfaces/apply.go:198-226 | without a vxlan that is up on the bridge nothing of a LAN leaves the host |
| Runs.RunKeepsInv | pkg/interfaces/apply.go:17-266 | every state of every run, whatever fails, satisfies the topology invariant (symmetric veth peering, masters in the same namespace, at most one vxlan per LAN, one macvtap per spoke, each device above its own spoke, fresh indices), and every vxlan has its LAN's group, vni and port |
| EnsureInv.EnsureKeepsInv | pkg/interfaces/apply.go:17-266 | Ensure keeps the invariant at every return, for every set of failing calls and whatever vxlan it finds |
| VxOrigin.EnsureVxFrom | pkg/interfaces/apply.go:98-226 | whatever fails, every vxlan after an Ensure was there before with the same settings, or is the LAN's with those of the spec |
| VxOrigin.EnsureKeepsVxRight | pkg/interfaces/apply.go:98-226 | so an Ensure never makes a LAN's vxlan wrong |
| EnsureInv.CniAddKeepsInv | cni/k8slanveth/main.go:90-112 | so does the move and rename of the CNI plugin, even when only the first half works |
| EnsureInv.DeleteNamedKeepsInv | pkg/interfaces/ns.go:177-186 | so does destroying a namespace with its cascade, even when the path cannot be removed |
| EnsureInv.TeardownKeepsInv | cni/k8slanveth/main.go:95-99 | so does the end of a pod, which takes the moved veth, and with it the bridge end |
| TopologySteps.MoveKeepsInv | pkg/interfaces/apply.go:192 | moving a veth end redirects the peer and what is above it, and keeps the invariant |
| TopologySteps.EraseKeepsInv | pkg/interfaces/apply.go:335-345 | deleting any links with the cascade keeps the invariant |
| TopologySteps.AddVethKeepsInv | pkg/interfaces/apply.go:159-172 | creating the pair in the LAN namespace keeps the invariant |
| EnsureOutcome.EnsureEffect | pkg/interfaces/apply.go:17-266 | frame and result, from any state of the invariant: whatever fails only the loopback, bridge and vxlan of the LAN, the pair, device and macvtaps of the spoke and the dummy device are touched; on success each of them is exactly what is stated, the vxlan also when an attach call failed or the old one could not be deleted |
| Untouched.OtherSpokesUntouched | pkg/interfaces/apply.go:154-264 | for every set of failing calls: an Ensure leaves every other spoke's pair, the macvtaps above it, its devices and its names in the host unchanged, unless the two share a namespace that could not be opened and is made anew |
| Untouched.OtherLansUntouched | pkg/interfaces/apply.go:21-226 | for every set of failing calls: an Ensure changes no link in another LAN's namespace |
| EnsureFrame.VethFrame | pkg/interfaces/apply.go:156-192 | only the pair and the macvtap above it are touched; on success the old ones are gone and the new pair is exact: bridge end up, on the bridge, with its mask, spoke end in the host |
| EnsureFrame.PrologueFrame | pkg/interfaces/apply.go:21-133 | up to the vxlan check only the loopback and a missing bridge are created; a namespace that cannot be opened aside |
| EnsureFrame.MacvtapFrame | pkg/interfaces/apply.go:240-264 | only the macvtap, and a missing dummy, are touched; on success the macvtap is up, above the spoke or the dummy, in the asked or the private mode |
| EnsureFrame.RecreateFrame | pkg/interfaces/apply.go:291-345 | no link but the one of that name is touched; on success it is new, up and above the lower device in the asked mode |
| Refinement.EnsureInserts | pkg/interfaces/apply.go:154-264 | the links refine a set of attached spokes: a successful Ensure adds exactly its spoke, a failed one affects at most that spoke |
| Refinement.LostNamespace | pkg/interfaces/apply.go:32-40 | a mounted namespace that cannot be opened is removed and the same Ensure follows |
| Refinement.RemoveIsExact | pkg/interfaces/del.go:3-5 | Remove deletes exactly the links of that LAN, wherever they are: in its namespace, the spoke ends in the host and in pods, and the macvtaps above them |
| Refinement.RemoveEmpties | pkg/interfaces/del.go:3-5 | the attached spokes of that LAN, and no others, are gone |
| Refinement.CniAddStutters | cni/k8slanveth/main.go:90-112 | the CNI move changes no attachment; on success the spoke end is in the pod under the asked name |
| Refinement.TeardownDetaches | cni/k8slanveth/main.go:95-99 | a pod that ends detaches exactly the spokes whose end it held |
| Runs.RunRefines | pkg/interfaces/apply.go:17-266 | every run of the links is a run of the views (attached spokes with where their ends are and whether they are up), and what each event does to its own host's view is given exactly, failures included: an Ensure by how far it got with its spoke, a successful one putting its end in the host and up; the CNI move relocates one end and takes it down, a pod brings one up, a teardown takes out the spokes whose end the pod held, a removal those of its LAN; other hosts never change |
| Stages.StageEffect | pkg/interfaces/apply.go:154-264 | what an Ensure leaves of its own spoke at each return: as it was; gone, unless the old pair could not be deleted; attached with its end down; attached with its end up |
| Ends.EnsureEnds | pkg/interfaces/apply.go:154-264 | the step of an Ensure on the view, exact at each return |
| Ends.RemoveEnds | pkg/interfaces/del.go:3-5 | the step of a removal |
| Ends.TeardownEnds | cni/k8slanveth/main.go:95-99 | the step of a pod's end |
| Ends.CniEnds | cni/k8slanveth/main.go:90-112 | the step of the CNI move, when both halves work and when only the first does |
| Ends.PodUpEnds | cni/k8slanveth/main.go:126-170 | the step of an end that a pod brings up |
| Guarantees.EnsureSucceedsIff | pkg/interfaces/apply.go:17-266 | from any state of the invariant, with a vxlan of any settings, when only attach calls may fail: Ensure succeeds if and only if the card listed for this host, or else the default one, is there, the mode is one of the five texts and a vxlan to be made has a multicast group |
| Success.EnsureOkIff | pkg/interfaces/apply.go:17-266 | from any state of the invariant and for any set of failing calls: Ensure succeeds if and only if the card listed for this host, or else the default one, is there, the mode is one of the five texts, a vxlan to be made has a multicast group, and none of the calls needed in this state fails; the needed calls are listed by phase |
| Guarantees.DeviceAsAsked | pkg/interfaces/apply.go:240-325 | after success the device is up and above the spoke's end in the mode that the text asks for (empty or bridge, private, vepa, passthru), or private above k8slan-dummy |
| Example.PerHostUnderlay | pkg/interfaces/apply.go:55-64 | with a card of its own listed for w1: the vxlan of w1 runs over that card and that of w2 over the default one, and without the default card w1 succeeds and w2 fails |
| Delivery.EnsureDelivers | pkg/interfaces/apply.go:17-266 | in the fields of the resource: a successful passthru Ensure, a lost namespace included, leaves the pair on the bridge of that name with its mask and its end up in the host, the device of its kind, and a vxlan of that name with the group, vni and port of the spec over this host's card, unless an old one could not be deleted |
| Guarantees.SuccessIsConnectedIff | pkg/interfaces/apply.go:197-239 | after success the spoke is attached, with its end up in the host; the bridge is up if and only if it was up or is new; the exact condition for a working uplink: kept if the vxlan was right, made if no attach call failed, and, where a wrong vxlan could not be deleted, what the failing attach calls leave of it |
| Guarantees.AttachErrorIsLost | pkg/interfaces/apply.go:199-229 | an attach failure is reported as success, and the identical retry succeeds again without an uplink |
| Guarantees.BridgeStaysDown | pkg/interfaces/apply.go:79-96 | a new bridge that could not be brought up fails that Ensure and is left down, and the identical retry succeeds and leaves it down |
| Guarantees.EnsureRepairsVx | pkg/interfaces/apply.go:55-142 | from any vxlan of any group, vni, port and underlay, a success ends with exactly the settings of the spec, over the card listed for this host or else the default one, unless one that should go could not be deleted; then with its own |
| LastingCalls.EachCallMatters | pkg/interfaces/apply.go:66-226 | for every call that clean runs exclude, and from any untouched cluster, a run in which no other of them fails ends with two attached spokes of one LAN that do not hear each other, though both their ends are up |
| LastingCalls.PlainGroupMatters | pkg/interfaces/apply.go:107-154 | the same for a group that does not read back: a clean run in which one pair cannot be made strands an attached spoke |
| Findings.BridgeDownHere | pkg/interfaces/apply.go:79-96 | the same on a host with one card |
| Findings.EachCallMattersHere | pkg/interfaces/apply.go:66-226 | the same on two hosts with one card each |
| Findings.OddGroupStrands | pkg/interfaces/apply.go:107-154 | the zoned and the mapped group do so on two hosts with one card each |
| Findings.LeftoverRepaired | pkg/interfaces/apply.go:102-136 | a left-over vxlan of another group, vni and port is replaced and works |
| Findings.OddGroupsAdmitted | api/v1beta1/lan_types.go:76-108 | a zoned and an IPv4-mapped group pass Default and Validate |
| Findings.OddGroupReplaced | pkg/interfaces/apply.go:110-136 | with either, the second of two identical Ensures on an untouched host makes the vxlan anew |
| Guarantees.ReplacedIff | pkg/interfaces/apply.go:102-136 | an existing vxlan of any settings is replaced if and only if its group, vni, underlay index or port differs from the wanted one |
| Guarantees.NeedSettled | pkg/interfaces/apply.go:110-129 | after success the vxlan is wrong for the next Ensure if and only if the group does not read back as written, or, where a wrong one could not be deleted, if that one was wrong |
| EnsureTwice.EnsureIdempotent | pkg/interfaces/apply.go:17-266 | from any state of the invariant, with a vxlan of any settings, a second identical Ensure succeeds and gives the same topology up to indices; the bridge keeps its identity, and the vxlan if and only if the group reads back as written |
| EnsureCommute.EnsuresCommute | pkg/interfaces/apply.go:154-264 | from any state of the invariant, with vxlans of any settings, two Ensures for different spokes, of one or two LANs, succeed in either order and give the same topology up to indices |
| Apply.HostStack.Ensure | pkg/interfaces/apply.go:17-266 | the procedure as written does what its function says, and returns the index of the macvtap of that name |
| Apply.HostStack.PrepareLan | pkg/interfaces/apply.go:21-106 | namespace, loopback, underlay, bridge and vxlan lookup, each with its early return; the underlay is the card listed for this host, or else the default one |
| Apply.HostStack.BuildVeth | pkg/interfaces/apply.go:154-193 | the pair, call by call, with every early return |
| Apply.HostStack.AttachVx | pkg/interfaces/apply.go:203-226 | the attach step, call by call |
| Apply.HostStack.CreateVx | pkg/interfaces/vxlan.go:26-132 | a group that is not multicast is refused, an existing name is no error |
| Apply.HostStack.EnsureMacvtap | pkg/interfaces/apply.go:240-264 | directly on the spoke, or private on the dummy device |
| Apply.HostStack.CreateMacvtap | pkg/interfaces/apply.go:291-325 | lookup, mode, creation, up; returns the index; an unknown text fails, and what is made is up, in the mode that the text asks for |
| Apply.HostStack.LinkDelete | pkg/interfaces/apply.go:335-345 | a missing link is not an error |
| Apply.HostStack.NewNs | pkg/interfaces/ns.go:50-150 | prepare, create, mount, reopen, with the deferred clean-up of the file |
| Apply.HostStack.DeleteNamed | pkg/interfaces/ns.go:177-186 | unmount, then remove the path |
| Apply.HostStack.Remove | pkg/interfaces/del.go:3-5 | DeleteNamed with its result ignored |
| Apply.HostStack.CniAdd | cni/k8slanveth/main.go:90-112 | locate, move, rename |
| NsLife.RunIsStages | pkg/interfaces/ns.go:50-186 | through any run of Ensures and Removes with any failures each name goes through its own automaton of absent, plain file and mounted, untouched by calls for other names |
| NsLife.NewNsEnds | pkg/interfaces/ns.go:94-149 | from absent or a plain file NewNS succeeds if and only if no step fails, and otherwise leaves the name unchanged, absent, or mounted but not opened; it never leaves a new file |
| NsLife.EnsureNsReaches | pkg/interfaces/apply.go:21-41 | the stat, open, delete and recreate logic succeeds from each of the three if and only if the open or all creation steps work, also where DeleteNamed fails on a plain file |
| NsLife.AnyRunRecovers | pkg/interfaces/apply.go:21-41 | after any history one Ensure whose namespace calls work leaves the name mounted |
| ProtocolSafety.GoneIsClean | dset/main.go:76-98 | in every interleaving with stale reads and conflicts: when the object is gone, every host whose finalizer was ever stored has called interfaces.Remove for the LAN and then sent a removal, both because of a version being deleted |
| ProtocolSafety.AnnouncedKeepsAlive | dset/main.go:63-106 | a host that has sent an add and no removal has its finalizer stored, so the object is not gone |
| ProtocolSafety.AddIsSentWhileStored | dset/main.go:104-105 | an add is sent only while the host's finalizer is in the newest version, however old the version acted on |
| ProtocolSafety.AddsThenRemovals | dset/main.go:63-106 | what a host does is adds and then clean-up and removal pairs, also when releases are retried after conflicts |
| ProtocolSafety.ChannelsKeepOrder | dset/main.go:118-120 | neither channel, shared by all LANs, holds more than 16 messages; messages sent are those taken followed by those waiting, and this LAN's part of them is exactly what the host did for it |
| ProtocolSafety.WritesAndConflictsBounded | dset/main.go:72-93 | with N hosts at most 2N + 1 writes; if each retry reads a newer version than it conflicted on, at most 2N + 1 conflicts per host |
| ProtocolSafety.DeletableIff | internal/webhook/v1beta1/lan_webhook.go:145-160 | at any time the user's deletion is or has been accepted if and only if the LAN was created without a foreign finalizer |
| ProtocolSafety.StoredAsSubmitted | internal/webhook/v1beta1/lan_webhook.go:79-142 | in every version of every run the spec is what the user submitted: the port and group that were given, 4789 and ff02::14 where they were not, and everything else unchanged |
| ProtocolSafety.FinalizersOfHosts | dset/main.go:57-98 | a finalizer in any version was there at creation or is finalizer.k8slan.io/ and the name of a host of the cluster |
| ProtocolHistory.WritesExact | dset/main.go:72-93 | the writes are exactly one registration per host that ever registered, one release per host that released, and the deletion |
| ProtocolHistory.PhasesMonotone | dset/main.go:63-98 | unregistered, registered, released: a finalizer that left never returns |
| ProtocolHistory.FinalizerStays | dset/main.go:60-98 | a finalizer only comes while the object lives and only goes while it is being deleted |
| ProtocolHistory.SpecConstant | internal/webhook/v1beta1/lan_webhook.go:122-142 | the spec of every version is the one created |
| ProtocolHistory.GoneIff | dset/main.go:75-98 | created without finalizers, the object is gone if and only if it is being deleted and every host that registered has released |
| ProtocolInv.AdmissionNeverBlocks | internal/webhook/v1beta1/lan_webhook.go:79-142 | an update of a stored object is accepted if and only if it was made from the newest version; Default, the DeepEqual and Validate never reject it |
| ProtocolInv.RunKeepsInv | dset/main.go:49-107 | every action of every host, lister and user keeps the protocol invariant |
| ProtocolLive.EventuallyGone | dset/main.go:49-107 | in every endless run an object being deleted is gone later, if every host registered with it begins, again and again, a reconcile of the newest version |
| ProtocolLive.AnotherWrite | dset/main.go:74-93 | a registered host that keeps reconciling a deleted object writes it, or someone else has written in between |
| ProtocolIndex.ListedIff | pkg/deviceplugin/lister.go:46-65 | at any time of any run, whatever messages of other LANs come in between, a host lists a LAN's devices, for that LAN, if and only if the last message about it that its lister took is an add |
| ProtocolIndex.MessagesCarrySpec | dset/main.go:84-105 | every message that reaches a lister is about another LAN or carries the admitted spec of this one |
| ProtocolIndex.GoneLeavesNoDevice | pkg/deviceplugin/lister.go:46-65 | if waiting adds are always taken first, a LAN that is gone leaves no device once its removals are taken |
| ProtocolIndex.StaleDeviceReachable | pkg/deviceplugin/lister.go:47-62 | without that order the same life of a LAN can end with its devices still listed, exactly when the removal is taken first |
| Daemon.Cluster.Reconcile | dset/main.go:49-107 | one reconcile as written, with others acting between its calls, is the run of its calls and theirs; it ends done, in conflict or waiting on a full channel |
| Daemon.Cluster.Update | dset/main.go:72-75 | newest version only, then Default, schema and ValidateUpdate, then the store |
| Daemon.Create | internal/webhook/v1beta1/lan_webhook.go:79-119 | a create is stored if and only if it is admissible once filled in; what is stored is what was submitted with port and group filled in, and the protocol can start from it |
| Webhook.SpecIsFrozen | internal/webhook/v1beta1/lan_webhook.go:79-142 | a stored spec can always be written back, and an update passes if and only if it defaults to the stored spec |
| Webhook.AdmittedIsSafe | api/v1beta1/lan_types.go:64-108 | Default and an accepting Validate give Ensure set pointers, a multicast group, a nonzero 24-bit vni, and device names of 1 to 15 bytes for every spoke that survives the codec |
| Webhook.SchemaMakesValidateSafe | api/v1beta1/lan_types.go:41-61 | with the required fields present Validate follows no nil pointer |
| Webhook.PortIsNotChecked | api/v1beta1/lan_types.go:76-108 | any port is admitted |
| Webhook.Default | internal/webhook/v1beta1/lan_webhook.go:56-90 | a port or group that was given is kept, a missing port is 4789, a missing group ff02::14, every other field and the finalizers are unchanged |
| Webhook.ValidateCreate | internal/webhook/v1beta1/lan_webhook.go:109-119 | accepts exactly the admissible specs, and otherwise reports the first fault |
| Webhook.ValidateUpdate | internal/webhook/v1beta1/lan_webhook.go:122-142 | accepts exactly an unchanged admissible spec, says if it changed, and otherwise reports the first fault |
| Webhook.ValidateDelete | internal/webhook/v1beta1/lan_webhook.go:145-160 | accepts if and only if every finalizer has the prefix of k8slan, and otherwise names one that has not |
| LanTypes.Validate | api/v1beta1/lan_types.go:64-108 | accepts exactly the specs with names of 1 to 13 bytes, a namespace that is not blank, a vni of 1 to 16777215, a multicast group and 1 to 4095 spokes, and reports the first of these that fails, a spoke by its place |
| Addresses.MulticastIff | api/v1beta1/lan_types.go:92-98 | the test of the bytes is the range of the standards: 224.0.0.0/4, the same mapped into IPv6, and ff00::/8 |
| Addresses.ReadBackValue | pkg/interfaces/apply.go:110-113 | what is read back of an IPv4-mapped group is the number of its IPv4 address, and any other group is unchanged |
| Codec.RoundTripIff | api/v1beta1/lan_types.go:176-196 | decoding an encoded spoke returns it if and only if the spoke does not contain the prefix used |
| Codec.RemoveAllKeepsIff | api/v1beta1/lan_types.go:187-196 | the greedy left-to-right removal changes a string if and only if the pattern occurs in it |
| Codec.ForeignResource | api/v1beta1/lan_types.go:187-196 | a name that encodes no spoke decodes to badname |
| Codec.ShortSpokesRoundTrip | api/v1beta1/lan_types.go:176-196 | hence it holds for every spoke shorter than 11 bytes |
| Codec.LongSpokeLost | api/v1beta1/lan_types.go:187-196 | an admissible spoke that is decoded to another name |
| Codec.EncodeInjective | api/v1beta1/lan_types.go:176-181 | encoding is injective on spoke and kind together |
| Codec.NadsAreDeviceKeys | api/v1beta1/lan_types.go:198-237 | the operator's definition names are exactly the keys the lister adds, two per spoke |
| Codec.NadNamesDistinctIff | api/v1beta1/lan_types.go:231-236 | they are distinct if and only if the spokes are |
| Codec.VethNadNamesSpoke | api/v1beta1/lan_types.go:198-229 | the veth definition names its spoke if and only if the round trip holds |
| LanTypes.GetNads | api/v1beta1/lan_types.go:198-237 | two definitions per spoke, k8slan-veth- first and k8slan-mac- second, each in the LAN's namespace and annotated with macvtap.k8slan.io/ and its own name |
| Lister.ApplyReflects | pkg/deviceplugin/lister.go:46-65 | one more message: a spoke's two keys are listed if and only if the last message naming it was an add, for that add's spec |
| Lister.ReflectsUnique | pkg/deviceplugin/lister.go:46-65 | the history of messages determines the index |
| Lister.ReflectsIsPaired | pkg/deviceplugin/lister.go:46-65 | both keys of a spoke are listed for one spec that has the spoke, or neither is |
| Lister.IndexIsUnion | pkg/deviceplugin/lister.go:46-65 | for LANs with disjoint spokes the index is the union over the LANs whose last message was an add |
| Lister.RemovalCanOvertake | pkg/deviceplugin/lister.go:47-62 | the two queues allow both orders, with different results |
| Lister.MacvtapLister.ReceiveAdd | pkg/deviceplugin/lister.go:49-54 | writes both keys of every spoke, and is paired after each of them, with no assumption on the specs |
| Lister.MacvtapLister.ReceiveRemove | pkg/deviceplugin/lister.go:56-61 | deletes both keys of every spoke, and is paired after each of them |
| Lister.MacvtapLister.GetCurrentPlugins | pkg/deviceplugin/lister.go:20-26 | the keys, each once |
| Lister.MacvtapLister.Report | pkg/deviceplugin/lister.go:39-44 | nothing for an empty index, otherwise its keys |
| Lister.MacvtapLister.Discover | pkg/deviceplugin/lister.go:46-65 | for any order of picks: the messages taken are those the picks determine, the index is theirs, and after each message its keys are reported unless it is empty |
| Lister.PickedInOrder | pkg/deviceplugin/lister.go:46-65 | each queue is taken in order and as far as it is picked, so all of it if it is picked often enough |
| Lister.PickedFirst | pkg/deviceplugin/lister.go:46-65 | what is taken first does not depend on later picks |
| Plugin.PluginServesSpoke | pkg/deviceplugin/plugin.go:38-70 | a listed resource is served under its own spoke, kind and spec, with the device name that Ensure gives the macvtap |
| Plugin.NadsAreServed | pkg/deviceplugin/lister.go:36-38 | operator and lister meet: once a LAN is added, the resource in each of its definitions is registered by the plugin of that definition's name and no other, for this LAN, and every resource of the LAN has its definition |
| Plugin.DecimalReads | pkg/deviceplugin/plugin.go:107 | the index in a path is written in digits, without a leading zero, and reads back |
| Plugin.DeviceIdsDistinct | pkg/deviceplugin/plugin.go:53-70 | different spoke and kind pairs that survive the codec have different device ids |
| Plugin.Allocate | pkg/deviceplugin/plugin.go:83-120 | one Ensure per requested device, each with its own failing calls, up to the first failure; the response is the tap of the macvtap each Ensure made, in order and grouped as asked; and for the plugin of a listed resource whose spoke survives the codec, asked for its own device: on success, whatever failed inside, the host holds what `Delivery.Delivered` says (veth resource: V0 up and private above k8slan-dummy; mac resource: M0 up and passthru above the spoke; pair, bridge and vxlan of the resource's own names and settings), and the last path is /dev/tap and that device's index |
| Plugin.EnsureAllStops | pkg/deviceplugin/plugin.go:102-105 | after a failure no further Ensure runs |
| Plugin.GenerateDevices | pkg/deviceplugin/plugin.go:53-70 | one device, the spoke's name with its kind and 0 |
| NadController.Reconcile | internal/controller/lan_controller.go:52-89 | the nested loops create exactly the missing definitions, even with duplicate spokes, each in the LAN's namespace with the resource of its own name, and call create if and only if a name is missing |
| NadController.ReconcileIsUnion | internal/controller/lan_controller.go:59-86 | the names become old names united with wanted names, no existing definition changes, and a second reconcile creates nothing |
| NadController.NamespaceServedIff | internal/controller/lan_controller.go:60-72 | a LAN's namespace gets all its definitions if and only if no name it lacks is used in another namespace |
| Findings.NameTakenElsewhere | internal/controller/lan_controller.go:60-72 | one definition in another namespace keeps the LAN's own from being made |

## Left out

- Link MTU and queue lengths: no property here depends on them.
- The kernel's own check that no other vxlan has the same vni and port on one device; the deletion of vxlans when their underlay device goes.
- Namespaces stacked on one mount point; `Remove` does cover a failing unmount.
- A failing second lookup of the bridge right after its creation (pkg/interfaces/apply.go:95), whose result the code then follows without a check.
- Links of others inside a LAN namespace, and macvtaps or bridge ports that someone else puts on a spoke: the start of a run has none.
- Two macvtaps of different modes above one device: the kernel's exclusiveness of passthru is not modelled.
- Spokes that do not survive the codec, in runs: an event asks for a spoke by its real name.
- Ensures of one host interleaved call by call: each Ensure is one event of a run.
- Namespace names with path separators; a name stands for its path.
- Strings are sequences of characters taken as bytes, and TrimSpace knows the ASCII blanks only.
- The text of an IP address: a group is its bytes, its zone and its spelling.
- JSON of the definitions, their owner references, and creates that fail for another reason than that the definition exists.
- A link that is taken down other than by a move or by being made anew: pods and hosts only bring links up.
- A vxlan in a host's own namespace that is not k8slan's has to be given as kind `Foreign`; it is on no broadcast domain here.
- The calls of an IPAM plugin; what it does to the end of a spoke is the event of a pod that brings a link up.
- DNS, sysctl, result printing, cmdDel, cmdCheck and cmdStatus of the CNI plugin.
- The kubelet's side of the device plugin: ListAndWatch, registration, and a full report channel.
- A restart of a daemon, which loses its index; edits of finalizers by users; a LAN created again under the same name; an Allocate after the clean-up.
- An update that is lost or fails for a reason other than a conflict: the reconcile ends and is tried again, as after a conflict.
- ProtocolLive.EventuallyGone: that a registered host keeps reconciling is a hypothesis, which also says that its sends do not wait for ever.
- Apply.HostStack.PrepareLan: does not model a failing unmount of a mounted namespace that cannot be opened, because what a second mount on the same point hides is not a link of any named namespace.
- NsLife.EnsureNsReaches: takes that unmount to work, for the same reason.
- EnsureFrame.PrologueFrame: leaves aside the failed open of a mounted namespace, which Refinement.LostNamespace reduces to a Remove followed by the same Ensure.
- EnsureOutcome.EnsureEffect: leaves aside the same case, for the same reason.
