# Storage drivers for Kubernetes: the two back ends, modelled and proved

The drivers create, attach, extend, copy and delete volumes on two storage arrays. Each operation reads the
array's state, decides, and issues an ordered list of commands, any of which may fail. This project models
both back ends as state machines, proves that the operations, written as methods with the source's loops and
exits, do exactly what their functional descriptions say, and proves what those descriptions promise over
whole runs of calls. Where a promise does not hold, it gives the exact condition under which it does, or a
state in which it fails.

Every lemma is marked `{:induction false}`: each induction is written out in its body, and none is left to the
verifier's own guess.

Check everything with `dafny verify --resource-limit 2000000 --verification-time-limit 0 dfyconfig.toml`.

## The parts

- `Wrappers`, `Text`, `Lists`, `Sizes`: results and options, Go's string and number conversions with their
  laws, table searches and filters, sizes in GiB.
- AS13000. `TargetArray` is the array behind REST: targets, their LUN mappings, the bound IQNs. `As13000` is
  the target and LUN allocator. `As13000Bounds` holds in every run under failures; `As13000Outcome` says what
  one fault-free attach does, `As13000Detach` what a detach by any name does; `As13000RefCount` is the
  refinement to (volume, IQN) pairs, `As13000Undo` when a detach undoes an attach, `As13000Bindings` that
  bindings outlive failures, `As13000Faults` what every call that fails leaves, `As13000Capacity` the exact
  capacity law.
- AS18000 volumes. `VdiskArray` is the array behind its CLI: vdisks, active-active relationships, local-copy
  maps. `As18000` has the volume operations. `AaExtend`, `AaScript` and `AaRuns` treat the extend transaction,
  `ExtendSizes` its arithmetic, `ExtendPools` its pre-check and pools, `AaCreation` the volumes it starts
  from, `AaCopies` their local copies. `ArrayInvariant` and `VolumeRuns` hold over all runs of volume
  operations; `ArrayOrder` and `OrderRuns` add how maps, relationships and volumes hang together.
  `SnapshotStands` and `SnapshotRuns` show that snapshots last, `SnapshotAtomic` that making one is all or
  nothing, `RoundTrips` that deleting undoes creating, `AaDeletion` when an active-active volume is deleted,
  `VolumeOutcomes` and `ExtendOutcomes` what each call answers and leaves under any failures,
  and `SnapshotSurvival` says exactly which snapshots last.
- AS18000 hosts. `HostArray` has host objects, ports and mapping rows; `HostPaths` the paths a host connects
  by; `Hosts` the attach and detach operations; `HostLookup`, `HostOutcomes`, `HostRuns` and `HostUndo` what
  they amount to, `HostLuns` the SCSI ids and paths answered, `HostFaults` and `HostKept` what holds under any
  failures.
- `Parser` is the CLI output parser, `Pages` the two list calls with their tokens, `CsiSizes` the conversions
  between bytes and GiB at the CSI interface, `NodeExpand` the expansion of a volume from there down.

## How failures are modelled

A state carries the outcomes of the commands and queries still to come: each one uses up an entry of `faults`,
and everything succeeds once the list is used up. A theorem over all `faults` is a theorem over every pattern of
failures; `faults == []` says that nothing fails. Besides failing by script, a command fails when the array
refuses it (a name that is taken, an object that is not there). Calls are sequential: attach and detach take
no lock, and nothing here is claimed of calls that overlap.

## What is assumed of the arrays

- A command that fails has no effect.
- AS13000: targets are listed in the order they were created; the array itself enforces no limit on targets or
  LUNs; a new mapping has the port list `ALL`, the first binding replaces it, later ones append, and removing
  the last binding brings `ALL` back; deleting a mapping or target removes just that.
- AS18000 volumes: vdisk names are unique; rows are listed by ascending id; `mkvolume` names the other three
  vdisks after the volume and relates them at once; a rebuilt relationship has its master vdisk's id, as the
  comment at pkg/storage/instorage/storage.go:868 says; attaching a change volume makes the two local copies
  between it and its base, and removing the relationship removes them; a vdisk is the target of at most one
  map made by `mklcmap`; `rmvdisk -force` and `rmvolume` drop the maps and relationships that touch what they
  remove. The array does not itself check that related vdisks have equal size or that an expanded vdisk is
  unrelated: the step invariant proves that the driver sees to it.
- AS18000 hosts: a port is not empty and belongs to at most one host object; a host object with mappings is not removed; a
  volume is mapped to a host once, with one row for each I/O group; `lsfabric -wwpn` disregards case; `lshost`
  of an absent host prints nothing.
- Free pool space and formatting vdisks are what the array reports during one call, and a parameter of it.

## Where code and promise differ

- ListSnapshots with a maximum of zero or less never gets anywhere (`Pages.SnapshotListingStuck`), although
  zero means no limit in the CSI Specification.
- With nothing failing: UnmapVolumeFromHost is documented to remove the only map of a volume mapped to one host when no host is
  named; it counts rows, not hosts, and refuses a single host reached through two I/O groups
  (`HostOutcomes.UnmapWithoutHost`, `HostOutcomes.SoleHostUnmap`).
- Failed search queries for a host are meant to be reported; they are exactly when no host name is given and
  nothing was found (`HostLookup.SearchErrorExact`). A detach reports success and leaves the volume mapped
  exactly when the search answers that there is no host (`HostFaults.DetachLeavesMapping`).
- The pre-check of an active-active extend asks each half's pool for room for two vdisks, which is too little
  when both halves share one pool (`AaCopies.SharedPoolOverdrawn`, and `ExtendPools.PoolConservation` for all volumes).
- A snapshot asked for under the name of an existing clone of the same volume, or of the source's own change
  volume, is reported ready and does not last; `SnapshotSurvival.DurableExact` says exactly when one does.
- CloneVolume of a missing source leaves the clone's vdisk behind when its removal fails
  (`RoundTrips.CloneOutcome`, `RoundTrips.CloneAllOrNothing`).
- The controller undoes an attach by the bare volume name. With nothing failing, on AS13000 this takes away the
  binding an earlier attach had made when the pair was bound already (`As13000Undo.RetriedAttachLoses`), and
  does not undo the attach of a volume whose name is mapped in another pool too;
  `As13000Undo.BareDetachUndoes` is the exact condition.
- On both arrays a failure while the connection properties are built leaves the volume mapped
  (`As13000Undo.UncompensatedAttach`, `HostFaults.UncompensatedAttach`).
- An active-active volume taken apart by a failed extend can be deleted while a clone is being copied from it
  (`AaDeletion.SourceDeleted`).
- NodeExpandVolume reports the bytes asked for. For a volume that is attached to this host the array holds them
  only when they are whole GiB; for one that is not, nothing is extended at all (`NodeExpand.NodeExpandExact`,
  `NodeExpand.UnattachedReported`).
- A failed attach can leave a host object or rows behind: `HostFaults.FailedAttachLeaves` lists the cases under
  any failures. With nothing failing the one case is a new host object for a volume that does not exist
  (`HostOutcomes.FailedAttachExact`, `HostRuns.EmptyHostLeft`).
- After 4033 volumes the AS13000 allocator refuses although 63 LUN places are left on the 64th target: the
  target count is checked before reuse is considered (`As13000Capacity.CapacityLaw`).

## Model

| member | source | states |
|---|---|---|
| `As13000.Storage13000Util.GetTargetForVolume` | pkg/storage/as13000/storage.go:97-187 | the search loops and the create, reuse or refuse decision do to the targets, call by call, exactly what `GetTarget` says, whichever REST call fails |
| `As13000.Storage13000Util.MapVolumeToTarget` | pkg/storage/as13000/storage.go:605-623 | looks the LUN up, posts a mapping when there is none, and looks it up again; any call may fail |
| `As13000.Storage13000Util.AttachVolume` | pkg/storage/as13000/storage.go:57-96 | pool check, target choice, mapping, IQN binding and connection properties, in the source's order with its error exits |
| `As13000.Storage13000Util.BuildConnProperty` | pkg/storage/as13000/storage.go:577-650 | the protocol check, the target query, and one portal for each node that answers |
| `As13000.Storage13000Util.AttachWithHost` | pkg/controller/controller.go:122-136 | the compensating detach by the volume name when the host side fails |
| `As13000.Storage13000Util.GetVolumeMappingByVolumeName` | pkg/storage/as13000/storage.go:319-355 | finds the mappings of `pool/volume`, stopping at the first, or of every pool's volume of a bare name |
| `As13000.Storage13000Util.DetachVolume` | pkg/storage/as13000/storage.go:245-317 | unbind, unmap on the last binding, delete the target on its last LUN, in the source's order with its error exits |
| `TargetArray.RestArray.BindIqn` | pkg/storage/as13000/wrapper.go:315-353 | the first binding replaces the port list `ALL`, later ones append |
| `As13000Bounds.SuffixOfName` | pkg/storage/as13000/storage.go:119-162 | a created target name parses back to its number, for every number an int holds, eight digits or more |
| `As13000Bounds.FreshTargetName` | pkg/storage/as13000/storage.go:105-162 | the name about to be created is taken if and only if a k8s target has the largest suffix an int holds and another has the very name the counter then wraps to |
| `As13000Bounds.WrappedNameCollides` | pkg/storage/as13000/storage.go:105-162 | two existing targets for which the wrapped name is taken |
| `As13000Bounds.SearchFacts` | pkg/storage/as13000/storage.go:115-154 | whatever the search answers is true of the targets: the mapping it names is there, or none is and its counts, largest suffix and least-loaded target are right |
| `As13000Bounds.BoundsUnderFaults` | pkg/storage/as13000/storage.go:97-317 | over every run of attaches and detaches with any REST call failing: at most 64 targets, at most 64 LUNs on a k8s target, distinct names and LUN ids, no `pool/volume` mapped on two places of k8s targets |
| `As13000Outcome.ReattachFindsMapping` | pkg/storage/as13000/storage.go:115-184 | attaching a mapped volume again finds its LUN and adds nothing, even with 64 targets in use |
| `As13000Outcome.AttachMapped` | pkg/storage/as13000/storage.go:72-93 | a fault-free attach of a mapped volume changes only that LUN's IQN list, by the one IQN |
| `As13000Outcome.AttachUnmapped` | pkg/storage/as13000/storage.go:112-184 | a fault-free attach of an unmapped volume is refused exactly when 64 targets exist; otherwise it lands on a new target when fewer than 32 k8s targets exist or all are full, else on the first of the least loaded |
| `As13000Detach.DetachMapped` | pkg/storage/as13000/storage.go:245-355 | a fault-free detach releases the first mapping of a `pool/volume` name, or the only one of a bare name, wherever it lies: a bound IQN is unbound, and LUN and target go with the last binding; an IQN that is not bound changes nothing while others are |
| `As13000Detach.DetachRefused` | pkg/storage/as13000/storage.go:254-261 | a bare name that several mappings carry is refused, a blank one is an error, and neither changes anything |
| `As13000Detach.OneOutcome` | pkg/storage/as13000/storage.go:319-355 | these outcomes cover every name that is not blank |
| `As13000Detach.DetachUnmapped` | pkg/storage/as13000/storage.go:250-258 | detaching by any name, whole or bare, that no mapping carries changes nothing |
| `As13000RefCount.MappedIffHeld` | pkg/storage/as13000/storage.go:57-96 | under the refinement a volume is mapped if and only if some IQN holds it, and its LUN lists exactly those IQNs |
| `As13000RefCount.InitiallyNothingHeld` | pkg/storage/as13000/storage.go:57-96 | targets without k8s targets and without the volumes in charge refine the empty set |
| `As13000RefCount.AttachRefines` | pkg/storage/as13000/storage.go:57-187 | an attach adds its (volume, IQN) pair to the refined set, or is refused and changes nothing |
| `As13000RefCount.DetachRefines` | pkg/storage/as13000/storage.go:245-355 | a detach by any name takes the pair of the one held volume that carries it out of the refined set; with none or several held, or a blank name, it changes nothing, and only several and blank are errors |
| `As13000RefCount.RefCountRun` | pkg/storage/as13000/storage.go:57-355 | over every fault-free run of attaches and of detaches by whole or bare names the targets refine a plain set of (volume, IQN) pairs; a k8s target exists only while it holds a mapping |
| `As13000Undo.AttachThenDetach` | pkg/storage/as13000/storage.go:57-317 | attaching a volume mapped nowhere and detaching it by its whole name restores the very same targets and LUNs, whether a target was created, the least loaded one used, or the attach refused |
| `As13000Undo.BareDetachUndoes` | pkg/controller/controller.go:122-136 | with nothing failing on the array, after an attach whose host side failed, of any volume, mapped or not, by any name, the targets are those from before if and only if: for a mapped volume, the mapping is what the name releases and had a port list without the IQN that is not `ALL`, or the IQN was bound already and the name releases nothing; for an unmapped one, the name is not blank, answers to the new mapping and to no other, and the target did not stand empty |
| `As13000Undo.NamedIff` | pkg/storage/as13000/storage.go:342-350 | a volume name answers to its own mapping if and only if neither pool nor volume has a `/` in its name |
| `As13000Undo.RetriedAttachLoses` | pkg/controller/controller.go:122-136 | with nothing failing on the array, attaching again with the host side failing takes away the binding an earlier successful attach had made, leaving the targets from before that attach |
| `As13000Undo.RetryExample` | pkg/controller/controller.go:122-136 | so on an array without targets |
| `As13000Undo.ConnectOutcome` | pkg/storage/as13000/storage.go:577-650 | building the connection properties changes no target and fails only for a protocol other than iSCSI or a failed target query; the answer has the target and LUN given and, in the order of the target's nodes, one portal for each node whose own query gets through, at that node's address |
| `As13000Undo.AllPortals` | pkg/storage/as13000/storage.go:626-650 | with nothing failing and an address for every node there is one portal per node, in their order |
| `As13000Undo.UncompensatedAttach` | pkg/controller/controller.go:122-136 | when it fails the attach fails with the volume still bound, and no detach follows |
| `As13000Bindings.AttachBinds` | pkg/storage/as13000/storage.go:57-96 | an attach that reports success has bound the volume on a k8s target, whatever failed on the way, and answers with the very target and LUN that are bound |
| `As13000Bindings.AttachAnswers` | pkg/storage/as13000/storage.go:57-96 | so what the host connects by is the LUN bound to it, at the portals of the target's nodes |
| `As13000Faults.AttachMappedOutcome` | pkg/storage/as13000/storage.go:72-93 | for every failure pattern: attaching a mapped volume makes one call for the targets, one for each k8s target up to its own and one to bind; it succeeds if and only if all get through, and only then has the LUN's list changed |
| `As13000Faults.AttachUnmappedOutcome` | pkg/storage/as13000/storage.go:97-187 | for every failure pattern: attaching an unmapped volume succeeds if and only if the search and the seven or four calls after it get through; told by the first that fails, what is left is nothing, a new target, the mapping without a binding, or all of it |
| `As13000Faults.AttachWithoutPool` | pkg/storage/as13000/storage.go:58-63 | without a pool in the options nothing is called |
| `As13000Faults.DetachOutcome` | pkg/storage/as13000/storage.go:245-355 | for every failure pattern and any name: a blank name is an error, nothing happens until all targets in question have answered, no mapping is success, several are refused, and one is released exactly as far as the calls get through |
| `As13000Bindings.BindingSurvives` | pkg/storage/as13000/storage.go:57-355 | over every run of attaches and detaches, any REST call failing, a volume bound to an IQN stays bound until a detach for that IQN by a name that answers to the mapping |
| `As13000Capacity.ShapeInWords` | pkg/storage/as13000/storage.go:112-184 | what the capacity shape says: n targets up to 32 volumes, 32 up to 2048 with loads one apart at most, then ceil(n/64) with all but the newest full |
| `As13000Capacity.CapacityLaw` | pkg/storage/as13000/storage.go:112-184 | from no targets, fault-free attaches of distinct new volumes give exactly that shape, and the k-th succeeds if and only if k is at most 4033 |
| `As18000.StorageUtil.Create` | pkg/storage/instorage/storage.go:246-277 | level and option checks, then one command: mkvolume for an active-active volume, else mkvdisk |
| `As18000.StorageUtil.Clone` | pkg/storage/instorage/storage.go:279-322 | create, map with auto-delete, start, with the source's compensating commands at each failure |
| `As18000.StorageUtil.Delete` | pkg/storage/instorage/storage.go:325-362 | row count, source check, then rmvdisk or rmvolume |
| `As18000.StorageUtil.Snapshot` | pkg/storage/instorage/storage.go:437-535 | report a known snapshot, else check the source, create, map, start and read the time back |
| `As18000.StorageUtil.MapNewSnapshot` | pkg/storage/instorage/storage.go:490-535 | the three exits with their clean-up commands, the mismatch branch included |
| `As18000.StorageUtil.RemoveSnapshot` | pkg/storage/instorage/storage.go:537-583 | source check, stop, at most 20 polls, remove the map and the vdisk |
| `As18000.StorageUtil.CollectInfos` | pkg/storage/instorage/storage.go:679-724 | the row loop that sorts a volume's vdisks by function; a role missing beside an aux is the source's nil dereference |
| `As18000.StorageUtil.CanBeExtended` | pkg/storage/instorage/storage.go:726-778 | formatting, pool and local-copy checks in the source's order |
| `As18000.StorageUtil.RunTasks` | pkg/storage/instorage/storage.go:925-949 | the loop over the script carries out commands up to the first failure |
| `As18000.StorageUtil.Extend` | pkg/storage/instorage/storage.go:781-858 | barrier check, size comparison, pre-check, expansion or script, and the barrier on a failed script |
| `VdiskArray.CliArray.Run` | pkg/storage/instorage/wrapper.go:32-57 | a command either changes the tables as the array does or fails and changes nothing |
| `Sizes.ParsesBytes` | pkg/storage/instorage/storage.go:636-666 | a capacity listed in bytes reads as its size floored to GiB |
| `Sizes.ParsesUnits` | pkg/storage/instorage/storage.go:636-666 | a capacity in any unit the source knows, B to EB, reads as its bytes floored to GiB |
| `Sizes.UnknownUnit` | pkg/storage/instorage/storage.go:636-666 | a unit the source does not know makes any capacity 0 |
| `Sizes.PointsInNumber` | pkg/storage/instorage/storage.go:636-666 | a fraction of bytes is cut off, and a number with two points reads as 0 |
| `AaCreation.NewVolumeIsHealthy` | pkg/storage/instorage/storage.go:246-277 | a created active-active volume is whole, its four vdisks of the size asked for and in the two pools asked for, and every other one stays whole, so the extend results hold of it |
| `AaExtend.HealthyInfos` | pkg/storage/instorage/storage.go:679-724 | reading a whole active-active volume finds its four vdisks in their roles and never dereferences nil |
| `AaScript.StopsAtFailure` | pkg/storage/instorage/storage.go:930-945 | a script that stops at its k-th command leaves exactly the effect of the first k, for every script |
| `AaScript.TablesAfter` | pkg/storage/instorage/storage.go:871-949 | the vdisks and relationships after each number k of steps of the nine-step script |
| `AaScript.StepInvariant` | pkg/storage/instorage/storage.go:871-949 | at every intermediate state, so at every point of failure: related vdisks have equal size, and no vdisk is expanded while it is in a relationship |
| `AaScript.ScriptRestores` | pkg/storage/instorage/storage.go:871-949 | the completed script brings back the relationship with both change volumes, and all other volumes stay whole |
| `AaRuns.ExtendKeepsWhole` | pkg/storage/instorage/storage.go:781-858 | one extend of any volume, with any failures, raises the barrier or leaves every active-active volume whole and grown evenly |
| `AaRuns.AaExtendRun` | pkg/storage/instorage/storage.go:781-858 | over every run of extends, any command failing at any step, barrier creation succeeding: the barrier stands, or every active-active volume has its relationship, both change volumes and four vdisks grown by one total |
| `AaRuns.BarrierBlocks` | pkg/storage/instorage/storage.go:782-784 | once the barrier stands no extend of any volume changes anything |
| `ExtendSizes.FaultFreeGrowthSucceeds` | pkg/storage/instorage/storage.go:860-949 | the array refuses none of the nine commands: with nothing failing the extension succeeds and raises no barrier |
| `ExtendSizes.ExtendGrows` | pkg/storage/instorage/storage.go:781-828 | a successful extend to n GiB grows every vdisk of the volume by n less its floored size, and no other vdisk |
| `ExtendSizes.ExtendSizeLaw` | pkg/storage/instorage/storage.go:781-828 | the new size is n GiB plus the part of a GiB the size began with, reads back as exactly n, and asking for n again changes no table |
| `ExtendSizes.ChainGrows` | pkg/storage/instorage/storage.go:781-828 | a chain of successful extends leaves the vdisks as its last size alone determines |
| `ExtendSizes.PathIndependence` | pkg/storage/instorage/storage.go:781-828 | two chains ending with the same size, one of which may be a single extend, leave the same vdisks |
| `ExtendPools.PoolConservation` | pkg/storage/instorage/storage.go:726-778 | after a passed pre-check no step of the script overdraws a pool if and only if the two halves lie in different pools or the common pool has room for four |
| `ExtendPools.OnlyClearedGrow` | pkg/storage/instorage/storage.go:726-811 | no extend changes anything, whatever fails, unless no barrier stands, the size is larger, and the volume is clear: not formatting, no local copy but the two of an active-active volume, room in each pool |
| `AaCopies.NewVolumeCopies` | pkg/storage/instorage/storage.go:751-764 | a newly created active-active volume has the two local copies of each half that the pre-check expects, and no others touch a half |
| `AaCopies.GrownCopies` | pkg/storage/instorage/storage.go:860-949 | a completed script, whatever the array did in between, gives each half exactly its two local copies again |
| `AaCopies.CheckExact` | pkg/storage/instorage/storage.go:726-778 | for a volume with its local copies the pre-check passes if and only if neither half is formatting and each half's pool has room for two additions |
| `AaCopies.FaultFreeExtend` | pkg/storage/instorage/storage.go:781-858 | with nothing failing, a whole active-active volume with its local copies is extended to n GiB if and only if it has n, or fewer and there is room; a refusal changes nothing, and after a success all of this holds again, so every chain of extends is decided by sizes and room alone |
| `AaCopies.SharedPoolOverdrawn` | pkg/storage/instorage/storage.go:751-764 | a new volume with both halves in one pool passes the pre-check if and only if the pool has room for two additions, while the script never overdraws it if and only if there is room for four |
| `AaCopies.SharedPoolExample` | pkg/storage/instorage/storage.go:751-764 | from an empty array: two free GiB pass the check for one GiB and are overdrawn |
| `ExtendPools.BasicPoolConservation` | pkg/storage/instorage/storage.go:765-775 | a basic volume's expansion never overdraws its pool |
| `ExtendOutcomes.FaultFreeBasicExtend` | pkg/storage/instorage/storage.go:781-828 | with nothing failing, a volume of one vdisk is extended to n GiB if and only if no barrier stands and its size reads as n, or n is larger, it is not formatting, no map touches it and its pool has the difference free; a refusal changes nothing |
| `ExtendOutcomes.BasicExtendOutcome` | pkg/storage/instorage/storage.go:781-828 | the same for every failure pattern, with the reason of each refusal; no failure changes anything or raises the barrier |
| `ExtendOutcomes.AaExtendOutcome` | pkg/storage/instorage/storage.go:781-858 | for every failure pattern, what becomes of an extend of a whole active-active volume: exactly when it succeeds, why it is refused, which commands have been carried out where the script broke off, and that the barrier is raised then, if its file can be made, and only then |
| `ExtendOutcomes.ScriptInWords` | pkg/storage/instorage/storage.go:860-925 | the nine commands, each with the vdisk, I/O group or relationship id it is for |
| `ExtendOutcomes.RowsRead` | pkg/storage/instorage/storage.go:679-724 | for any rows listed: no volume without a master, or a vdisk without a part, or an aux; a nil dereference for an aux that lacks its master or a change volume; else a volume of one vdisk or an active-active one |
| `ExtendOutcomes.MissingVolume` | pkg/storage/instorage/storage.go:781-790 | extending a volume that is not there fails with that reason and changes nothing |
| `ArrayInvariant.ExecuteSound` | pkg/storage/instorage/wrapper.go:80-420 | every command keeps names and ids distinct, maps and relationships on existing vdisks, and sizes whole GiB |
| `ArrayOrder.FittingKeeps` | pkg/storage/instorage/wrapper.go:80-420 | every command issued as the driver does keeps the order of the tables: relationships stay inside a volume; a map inside a volume is half of a pair, one between volumes goes onto a volume of one vdisk, alone, and unless it deletes itself from one of equal size |
| `OrderRuns.OrderlyRun` | pkg/storage/instorage/storage.go:246-858 | that order holds over every run of create, clone, delete, snapshot, delete-snapshot and extend calls with any failures |
| `OrderRuns.WholeRun` | pkg/storage/instorage/storage.go:246-858 | over every such run, barrier creation succeeding: the barrier stands, or every volume is one vdisk or a whole active-active volume with its complete relationship |
| `OrderRuns.FromEmptyArray` | pkg/storage/instorage/storage.go:246-858 | both, from an empty array, with no other assumption |
| `VolumeRuns.RunSound` | pkg/storage/instorage/storage.go:246-828 | so does every run of create, clone, delete, snapshot, delete-snapshot and extend calls with any failures |
| `SnapshotStands.SparingKeeps` | pkg/storage/instorage/wrapper.go:80-420 | a command that neither removes, expands nor relates the two vdisks, nor removes their map, leaves the snapshot standing |
| `SnapshotRuns.DeleteKeeps` | pkg/storage/instorage/storage.go:342-353 | deleting any volume but the snapshot, the source included, leaves the snapshot standing |
| `SnapshotRuns.SnapshotKeeps` | pkg/storage/instorage/storage.go:437-535 | taking other snapshots, with any failure and clean-up, leaves it standing |
| `SnapshotRuns.DeleteSnapshotKeeps` | pkg/storage/instorage/storage.go:550-582 | so does deleting any other snapshot |
| `SnapshotRuns.NotExtended` | pkg/storage/instorage/storage.go:767-770 | neither source nor snapshot is ever extended while the map between them exists |
| `SnapshotRuns.ExtendKeeps` | pkg/storage/instorage/storage.go:781-858 | extending other volumes leaves the snapshot standing, wherever a script stops |
| `SnapshotRuns.DurableRun` | pkg/storage/instorage/storage.go:246-858 | over every run of volume operations with any failures, source, snapshot and the started map between them exist with equal size until the snapshot itself is deleted |
| `SnapshotAtomic.SnapshotOutcome` | pkg/storage/instorage/storage.go:437-535 | under a name it does not know CreateSnapshot succeeds if and only if the source is one vdisk, the name is free and its seven steps get through; it then has added one vdisk and one started map; a failure restores the tables except exactly when the vdisk existed and the final rmvdisk fails |
| `SnapshotAtomic.AllOrNothing` | pkg/storage/instorage/storage.go:437-535 | with at most one failure CreateSnapshot is all or nothing |
| `SnapshotAtomic.CleanUpUndoes` | pkg/storage/instorage/storage.go:490-529 | the clean-up restores the tables exactly when its last command gets through, whatever the others did |
| `SnapshotAtomic.KnownOutcome` | pkg/storage/instorage/storage.go:440-461 | a known snapshot is reported or started; nothing is made or removed |
| `SnapshotAtomic.KnownIsStarted` | pkg/storage/instorage/storage.go:449-457 | for a known snapshot whose map has not been started: when query and start get through, that map and no other has the array's time as its start time |
| `SnapshotAtomic.RetryIsReady` | pkg/storage/instorage/storage.go:440-457 | and asking once more answers ready with that time |
| `SnapshotAtomic.ReadyHasTime` | pkg/storage/instorage/storage.go:519-534 | the branch that finds a foreign map, removes everything and still answers ready is never taken: a ready answer has a time and no error |
| `SnapshotAtomic.RepeatChangesNothing` | pkg/storage/instorage/storage.go:440-461 | asking again at any later time gives the same answer and changes nothing |
| `SnapshotAtomic.TimeReadsBack` | pkg/storage/instorage/storage.go:1382-1387 | the time answered is the start time's six digit pairs in order, with the year completed |
| `SnapshotAtomic.LeftoverBlocks` | pkg/storage/instorage/storage.go:484-488 | a vdisk left behind without its map makes every later CreateSnapshot under that name fail |
| `SnapshotAtomic.LeftoverReached` | pkg/storage/instorage/storage.go:490-495 | two failures in one call reach that state |
| `OrderRuns.SnapshotSize` | pkg/storage/instorage/storage.go:484-485 | a snapshot is as large as its source if and only if the source is whole GiB |
| `SnapshotSurvival.SnapshotIsDurable` | pkg/storage/instorage/storage.go:462-535 | a new snapshot of a basic volume stands |
| `SnapshotSurvival.DurableExact` | pkg/storage/instorage/storage.go:437-535 | a ready answer stands for a durable snapshot if and only if the name was not known as a snapshot of the source, or the map found does not delete itself and both its vdisks are volumes of one vdisk |
| `SnapshotSurvival.SnapshotSurvives` | pkg/storage/instorage/storage.go:246-858 | any run, then a ready answer that meets that condition, a repeated request included, then any run not deleting the snapshot: source, snapshot and started map exist with equal size |
| `SnapshotSurvival.CloneIsNoSnapshot` | pkg/storage/instorage/storage.go:440-456 | a ready answer that is not durable: under the name of a clone of the source, whose map goes away when the copy is done |
| `SnapshotSurvival.AaChangeIsNoSnapshot` | pkg/storage/instorage/storage.go:440-472 | another: an active-active volume under the name of its own change volume, which is deleted with the volume; such a volume is otherwise refused |
| `RoundTrips.CloneOutcome` | pkg/storage/instorage/storage.go:279-322 | for any source and any failures, CloneVolume succeeds if and only if its options and name allow the vdisk, the source exists and its three commands get through; a failure restores the tables except exactly when the vdisk was made and the final rmvdisk fails |
| `RoundTrips.CloneAllOrNothing` | pkg/storage/instorage/storage.go:279-322 | with at most one failure a failed CloneVolume has changed nothing unless the source is missing and the failure hits the removal of the vdisk; a successful one has added one vdisk and one started self-deleting map from the volume named, or else the snapshot |
| `VolumeOutcomes.CloneRefusals` | pkg/storage/instorage/storage.go:279-322 | which clones are refused before anything is asked of the array, and with which error |
| `VolumeOutcomes.CreateRefusals` | pkg/storage/instorage/storage.go:246-277 | which levels and options are refused, and with which error |
| `VolumeOutcomes.AaCreated` | pkg/storage/instorage/storage.go:246-277 | an active-active volume is created if and only if its options are complete, the command gets through and its four names are free; its vdisks are then of the size, in the pools and in the I/O groups asked for |
| `VolumeOutcomes.DeleteOutcome` | pkg/storage/instorage/storage.go:325-362 | for every failure pattern: a volume that is not there counts as deleted, one of one or four vdisks that is the source of no or at most one local copy is deleted if and only if its queries and the command get through, and nothing else ever changes |
| `VolumeOutcomes.NoSnapshot` | pkg/storage/instorage/storage.go:537-547 | a snapshot that is not there counts as deleted |
| `VolumeOutcomes.DeleteSnapshotOutcome` | pkg/storage/instorage/storage.go:537-583 | for every failure pattern: deleting a snapshot succeeds if and only if it is the source of no map and both queries and the last command get through, at most twenty polls before it; its vdisk and maps are gone then, and a failure can cost it its map alone |
| `VolumeOutcomes.SnapshotRefusals` | pkg/storage/instorage/storage.go:462-476 | for which sources a new snapshot is refused, and with which error |
| `RoundTrips.CreateThenDelete` | pkg/storage/instorage/storage.go:246-362 | creating a volume that is not active-active and deleting it leaves the array as it was |
| `RoundTrips.CloneThenDelete` | pkg/storage/instorage/storage.go:279-362 | so does cloning and deleting the clone |
| `RoundTrips.SnapshotThenDelete` | pkg/storage/instorage/storage.go:437-583 | so does taking a snapshot and deleting it, however long its map takes to stop |
| `RoundTrips.AaCreateThenDelete` | pkg/storage/instorage/storage.go:246-362 | so does creating and deleting an active-active volume |
| `RoundTrips.OneFromVolume` | pkg/storage/instorage/storage.go:354-360 | a new active-active volume is the source of exactly one local copy, the one the delete allows |
| `RoundTrips.DeletedIffNoSource` | pkg/storage/instorage/storage.go:342-353 | a volume of one vdisk is deleted if and only if it is the source of no local copy, and is gone then |
| `RoundTrips.SnapshotDeletedIffNoSource` | pkg/storage/instorage/storage.go:550-582 | a snapshot is deleted if and only if it is the source of no local copy; its vdisk and every map onto it are gone then, and otherwise nothing has changed |
| `AaDeletion.AaDeletedIff` | pkg/storage/instorage/storage.go:325-362 | with nothing failing an active-active volume, related or not, is deleted if and only if it is the source of at most one local copy, its own counted; exactly what touches its four vdisks is gone then, and otherwise nothing has changed |
| `AaDeletion.WholeDeletedIff` | pkg/storage/instorage/storage.go:354-360 | one with its own local copy is deleted if and only if it is the source of no other |
| `AaDeletion.BrokenScript` | pkg/storage/instorage/storage.go:871-949 | an extend that stops after its first to its seventh command leaves the volume without local copies of its own |
| `AaDeletion.SourceDeleted` | pkg/storage/instorage/storage.go:354-360 | such a volume can be cloned and then deleted while the clone is being copied from it, which leaves the clone without its copy |
| `Hosts.StorageUtil.FindHost` | pkg/storage/instorage/storage.go:966-1029 | the searches by WWPN, by initiator over all hosts and by name, with failed queries remembered or returned as the source does |
| `Hosts.StorageUtil.MakeHost` | pkg/storage/instorage/storage.go:1031-1059 | mkhost with the first port, addhostport for the others, rmhost on a failure |
| `Hosts.StorageUtil.PreferredSite` | pkg/storage/instorage/storage.go:1268-1297 | the two search loops, over the volume's vdisks and over the I/O groups, for the site of an active-active volume |
| `Hosts.StorageUtil.LunId` | pkg/storage/instorage/storage.go:1123-1141 | the loop that collects SCSI ids by I/O group for one host |
| `Hosts.StorageUtil.MapVolumeToHost` | pkg/storage/instorage/storage.go:1065-1078 | look up, map, look up again; a failed first look-up is ignored |
| `Hosts.StorageUtil.UnmapVolumeFromHost` | pkg/storage/instorage/storage.go:1083-1106 | the first row that qualifies decides what is unmapped |
| `Hosts.StorageUtil.AttachVolume` | pkg/storage/instorage/storage.go:1299-1325 | find or create the host object, map, then build the connection properties |
| `Hosts.StorageUtil.GetVolumeAttachInfo` | pkg/storage/instorage/storage.go:1327-1349 | host look-up, SCSI id look-up and connection properties; None for a host without object or a volume not mapped to it |
| `Hosts.StorageUtil.BuildConnProperty` | pkg/storage/instorage/storage.go:1143-1266 | the queries for the paths of either protocol, in the source's order with its fallback for Fibre Channel |
| `HostPaths.GetiSCSITargets` | pkg/storage/instorage/storage.go:1143-1180 | the nested loop over addresses and nodes |
| `HostPaths.CollectVisible` | pkg/storage/instorage/storage.go:1202-1216 | the loop that takes each port the host sees once |
| `HostPaths.CollectActive` | pkg/storage/instorage/storage.go:1224-1234 | the loop over all active ports for a host that is seen at none |
| `HostPaths.ActivePathsExact` | pkg/storage/instorage/storage.go:1224-1234 | these paths are to the active ports in the order listed, each with the SCSI id of its node's I/O group |
| `HostPaths.VisibleFirst` | pkg/storage/instorage/storage.go:1202-1216 | a port the host sees is listed with the node of its first row |
| `HostPaths.GroupOfExact` | pkg/storage/instorage/storage.go:1183-1190 | a node name stands for the last node of that name |
| `HostPaths.IscsiPathsExact` | pkg/storage/instorage/storage.go:1143-1180 | the paths are those over usable addresses of online nodes, each with the SCSI id of the node's own I/O group |
| `HostPaths.VisiblePathsExact` | pkg/storage/instorage/storage.go:1202-1216 | each port the host sees is listed exactly once, with the SCSI id of its node's I/O group |
| `Hosts.StorageUtil.DetachVolume` | pkg/storage/instorage/storage.go:1352-1380 | unmap, then remove the host object when nothing else is mapped to it |
| `Hosts.StorageUtil.AttachWithHost` | pkg/controller/controller.go:122-136 | the compensating detach when the host side fails |
| `HostLookup.FindsTheMatch` | pkg/storage/instorage/storage.go:966-1029 | with nothing failing the search finds the host object that answers to a logged-in WWPN, the initiator or the name, and an empty name if and only if none does |
| `HostLookup.SearchErrorExact` | pkg/storage/instorage/storage.go:966-1029 | for every state, failure pattern and host: a failed search is reported if and only if no host name is given, neither search finds a host, and some look-up failed |
| `HostLookup.FailedQueryHidesHost` | pkg/storage/instorage/storage.go:966-1029 | a family of cases: a failed WWPN query of a host known under another name reads as no host; a detach then succeeds and leaves the volume mapped, and an attach tries to create a second host object |
| `HostFaults.SearchOutcome` | pkg/storage/instorage/storage.go:966-1029 | under any failures the search answers no host, the one matching host object, or an error; no host if and only if neither search finds one and, with a name, its look-up gets through and finds no object, without one, nothing failed |
| `HostFaults.DetachLeavesMapping` | pkg/storage/instorage/storage.go:1352-1380 | for every state and failure pattern, a detach reports success and leaves the volume mapped if and only if it was mapped and the search answers no host |
| `HostFaults.HiddenByFailure` | pkg/storage/instorage/storage.go:966-1029 | a host that has an object is taken for one without only when it gives a name no object has and a look-up by WWPN or initiator has failed |
| `HostLookup.HiddenHostExample` | pkg/storage/instorage/storage.go:1352-1380 | one such state, spelled out |
| `HostOutcomes.CreateHostExact` | pkg/storage/instorage/storage.go:1031-1059 | a host object is created, with all its ports, if and only if its name is free, its ports are there, free and distinct, and every command gets through; a failure leaves hosts and rows as they were, except exactly when a later port and then rmhost fail, which leaves the object with the ports before |
| `HostFaults.FailedAttachLeaves` | pkg/storage/instorage/storage.go:1299-1325 | for every state and failure pattern, what a failed attach leaves: hosts and rows are as they were unless new rows could not be read back, a new host object could not be mapped or its rows not read back, or its creation broke off and could not be undone; each case with its condition and what is left |
| `HostFaults.AttachOutcome` | pkg/storage/instorage/storage.go:1299-1325 | for every state and failure pattern, exactly when an attach succeeds, what it has changed then, and its error otherwise |
| `HostFaults.DetachOutcome` | pkg/storage/instorage/storage.go:1352-1380 | for every failure pattern after the search has answered with a host object: exactly when a detach succeeds, and which of the rows and the host object are gone |
| `HostFaults.DetachUnknown` | pkg/storage/instorage/storage.go:1352-1363 | a failed search is passed on, and a host without an object has nothing to detach |
| `HostFaults.FailedMappingExample` | pkg/storage/instorage/storage.go:1065-1078 | an existing volume whose mapping command fails: the new, empty host object is left |
| `HostFaults.ConnectKeeps` | pkg/storage/instorage/storage.go:1143-1266 | building the connection properties changes nothing, and fails exactly for an unknown protocol or when a query it needs fails |
| `HostFaults.UncompensatedAttach` | pkg/controller/controller.go:122-136 | when it fails the attach fails with the volume still mapped, and no detach follows |
| `HostOutcomes.FailedAttachExact` | pkg/storage/instorage/storage.go:1299-1325 | with nothing failing, a failed attach leaves everything as it was if and only if a host object matched, no site is found, or none could be created; the rest is a volume that does not exist, for which the new object is left behind |
| `HostOutcomes.LunsIffMapped` | pkg/storage/instorage/storage.go:1123-1141 | SCSI ids are found if and only if the volume is mapped to the host |
| `HostLuns.LunsExact` | pkg/storage/instorage/storage.go:1123-1141 | the SCSI ids collected are, for exactly the I/O groups of the volume's rows for the host, that of the last such row |
| `HostLuns.ReadExact` | pkg/storage/instorage/storage.go:1123-1141 | reading them answers so, and none if and only if the volume is not mapped |
| `HostLuns.AttachAnswers` | pkg/storage/instorage/storage.go:1299-1325 | whatever failed on the way, an attach answers with the SCSI ids of the rows that are there afterwards; each new row is of the volume and host, with an id no other row of the host has, and that id is answered for its I/O group |
| `HostLuns.AttachPaths` | pkg/storage/instorage/storage.go:1299-1325 | the paths answered are to exactly the ports and addresses for the protocol, each with the SCSI id the rows give for the volume in the node's I/O group |
| `HostLuns.InfoPaths` | pkg/storage/instorage/storage.go:1327-1349 | GetVolumeAttachInfo answers with the same paths for a volume that is mapped and changes nothing |
| `HostOutcomes.MapToHostExact` | pkg/storage/instorage/storage.go:1065-1078 | a mapped volume keeps its rows, an unmapped one gets one row per I/O group; the ids answered are those of the rows |
| `HostOutcomes.UnmapExact` | pkg/storage/instorage/storage.go:1083-1106 | unmapping from a named host removes exactly its rows |
| `HostOutcomes.UnmapWithoutHost` | pkg/storage/instorage/storage.go:1079-1106 | without a host name a volume mapped to several hosts is refused and one mapped to none left alone; one mapped to just one host is unmapped if and only if it has a single row, and else refused |
| `HostOutcomes.SoleHostUnmap` | pkg/storage/instorage/storage.go:1079-1106 | mapping to one host and unmapping without its name puts everything back if and only if the volume is reached through one I/O group |
| `HostOutcomes.DetachExact` | pkg/storage/instorage/storage.go:1352-1380 | a detach removes the mapping, and the host object exactly when no row to it is left |
| `HostOutcomes.SiteExact` | pkg/storage/instorage/storage.go:1268-1297 | a new host object's site is that of the first I/O group row named like the first master's group; an error if and only if such a master has a group no row names, and no site in particular if no master has a group |
| `HostFaults.SiteUnderFaults` | pkg/storage/instorage/storage.go:1268-1297 | for every failure pattern: one query, or two where a master has an I/O group, must get through; then the site is as with nothing failing |
| `HostRuns.LookupsAgree` | pkg/storage/instorage/storage.go:966-1029 | look-up by initiator alone, by name alone and by everything agree on every state of the refinement |
| `HostRuns.AttachRefines` | pkg/storage/instorage/storage.go:1299-1325 | an attach adds its (volume, host) pair; a second one answers with the same SCSI ids and changes nothing |
| `HostRuns.DetachRefines` | pkg/storage/instorage/storage.go:1352-1380 | a detach takes its pair out; one of a volume not held changes nothing |
| `HostRuns.HostRefinement` | pkg/storage/instorage/storage.go:1299-1380 | over every fault-free run a host object exists if and only if the host holds a volume, and the rows are those of the held pairs |
| `HostRuns.HostsFromEmpty` | pkg/storage/instorage/storage.go:1299-1380 | from an array without host objects, the held pairs are those of the calls themselves |
| `HostKept.HostRun` | pkg/storage/instorage/storage.go:1299-1380 | over every run with any failures host objects have distinct names and every row is of one that exists |
| `HostKept.MappingSurvives` | pkg/storage/instorage/storage.go:1299-1380 | over every such run a volume stays mapped to a host object, and the object stays, until it is detached from a host that is found to be this object |
| `HostRuns.EmptyHostLeft` | pkg/storage/instorage/storage.go:1305-1321 | a reachable case of that rest: the empty host object left behind is removed by the host's next detach |
| `HostUndo.FailedAttachUndone` | pkg/controller/controller.go:122-136 | with nothing failing on the array, an attach whose host side failed is undone exactly if and only if no host object matched, or the one that did was not mapped to the volume and was mapped to another |
| `Parser.Parse` | pkg/storage/instorage/parser.go:25-70 | the line loops of both formats; None where a short row makes the source index out of range |
| `Parser.TableRoundTrip` | pkg/storage/instorage/parser.go:30-49 | printing then parsing a table of at least two columns gives its rows back, for all cells free of delimiter and newline and any number of newlines at the end |
| `Parser.ZipFacts` | pkg/storage/instorage/parser.go:43-47 | a parsed row has exactly the headers as keys, each with its own column |
| `Parser.SingleColumnCut` | pkg/storage/instorage/parser.go:33-36 | with one column an empty cell ends the table |
| `Parser.BlockRoundTrip` | pkg/storage/instorage/parser.go:50-67 | printing then parsing blank-line separated blocks of distinct keys gives one row per block |
| `Parser.RowOfFacts` | pkg/storage/instorage/parser.go:53-57 | such a row holds the block's pairs and nothing else |
| `Parser.EmptyOutput` | pkg/storage/instorage/parser.go:25-69 | empty text is no row under a header and one empty row in block form |
| `Parser.TableExact` | pkg/storage/instorage/parser.go:30-49 | for any lines: the rows are those up to the first blank line, each header with its own column, and the parser panics if and only if one of these lines has fewer columns than there are headers |
| `Parser.BlockLine` | pkg/storage/instorage/parser.go:50-67 | a value that holds the delimiter comes out with blanks in its place; a blank line always ends a row |
| `Parser.LeadingNewlines` | pkg/storage/instorage/parser.go:25-28 | newlines before the text do not matter |
| `Pages.ListVolume` | pkg/storage/instorage/storage.go:365-416 | token, default of 64, and the loop that fills the page and names the next id |
| `Pages.ListSnapshots` | pkg/storage/instorage/storage.go:585-634 | the same with a maximum of min(64, max) and the source check |
| `Pages.OnePage` | pkg/storage/instorage/storage.go:391-415 | a page holds the first rows not yet listed, and its token leads to exactly the rows after them |
| `Pages.WalkExact` | pkg/storage/instorage/storage.go:365-416 | following tokens ends, with one page for each stretch of the remaining rows |
| `Pages.PagesAreComplete` | pkg/storage/instorage/storage.go:365-416 | from the empty token every row with a numeric id is on exactly one page with its value, the pages hold nothing else, and all but the last are full |
| `Pages.VolumeListing` | pkg/storage/instorage/storage.go:365-416 | ListVolume's answers are the pages of that walk |
| `Pages.SnapshotListing` | pkg/storage/instorage/storage.go:585-634 | for a maximum of one or more so are ListSnapshots' answers, each snapshot with its time as a date |
| `Pages.ListingErrors` | pkg/storage/instorage/storage.go:365-390 | which errors the two list calls answer, and in which order they are looked for |
| `Pages.SnapshotListingStuck` | pkg/storage/instorage/storage.go:590-632 | for a maximum of zero or less ListSnapshots answers an empty page and a token that leads back to the same answer, against section `ListSnapshots` of the CSI Specification v1.2.0 |
| `CsiSizes.CreateGibLaw` | pkg/csiplugin/controller.go:27-31 | the ceiling satisfies c <= g GiB < c + 1 GiB if and only if c is at most 2^63 - 2^30, where the 64-bit sum wraps |
| `CsiSizes.ExpandGibLaw` | pkg/csiplugin/nodeworker.go:80-82 | the three divisions floor the request to GiB |
| `CsiSizes.CreatedForRequest` | pkg/storage/instorage/storage.go:246-277 | a basic volume created for c bytes holds them with less than a GiB over |
| `CsiSizes.CsiExpand` | pkg/storage/instorage/storage.go:781-828 | the array's part of an expansion to c bytes, any 64-bit c: refused as not larger if and only if c in whole GiB is below the size, and a success leaves the largest whole-GiB size not above c |
| `NodeExpand.Controller.ExtendVolume` | pkg/controller/controller.go:332-400 | host and mapping look-up, the exit for a volume not attached to this host, freezing, extend, thawing, and the host's own part |
| `NodeExpand.Controller.NodeExpand` | pkg/csiplugin/nodeworker.go:76-96 | the request floored to GiB and handed to the controller; a success answers with the bytes asked for |
| `NodeExpand.NodeExpandExact` | pkg/csiplugin/nodeworker.go:76-96 | for every state, failure pattern and c: c bytes are reported if and only if the volume is seen not to be attached to this host, or is attached and the extend gets through on array and host; in the first case nothing has changed and the array holds c bytes only if it did before, in the second if and only if c is whole GiB |
| `NodeExpand.FrozenWhileExtending` | pkg/controller/controller.go:351-358 | while the array is asked to extend, the file system is frozen if and only if freezing works and the volume is active-active by its options, or without options by four vdisks or a failed count, or it was frozen before; no other file system is touched |
| `NodeExpand.EarlyExits` | pkg/csiplugin/nodeworker.go:83-87 | a volume id that does not parse and a host that cannot describe itself are errors before anything is asked |
| `NodeExpand.Phases` | pkg/controller/controller.go:332-400 | each exit of the call: what is reported, what the array was asked, and that the file system of an active-active volume is thawed whatever came of it |
| `NodeExpand.UnattachedReported` | pkg/controller/controller.go:345-349 | a volume not mapped to this host: any size is reported done and nothing is extended |
| `NodeExpand.AaNodeExpand` | pkg/csiplugin/nodeworker.go:76-96 | with nothing failing, for a whole active-active volume: c bytes are reported and held if and only if it is mapped to the host, c is whole GiB, and the volume has c bytes, or fewer and room; or it is not mapped and had c bytes before |
| `NodeExpand.NeverLeftFrozen` | pkg/controller/controller.go:350-377 | whatever fails, as long as thawing works, no file system is frozen after that was not before |

## Left out

- Network clients (SSH, HTTP, JSON, token renewal), encryption, configuration, logging, gRPC and flexvolume dispatch.
- Host device work (iSCSI logins, multipath, file systems): of an attach or an expansion only whether it works on the host is kept, and whether a file system is frozen.
- Concurrent calls, sleeps and retry intervals.
- The AS13000 package does not type-check as it stands (pkg/storage/as13000/storage.go:480, pkg/storage/as13000/wrapper.go:42); its decision logic is modelled over an abstract REST array.
- AS13000 volume creation and deletion, NFS shares, node strings of targets, which one call reads as a parameter, and GetVolumeAttachInfo: straight request sequences or the same search again.
- As13000.Storage13000Util.GetVolumeMappingByVolumeName: the source builds a pattern with Sprintf, which alters names holding a `%`; such names are compared as they are here.
- The builders that turn options into flags: one flag says whether the options parse; pools and I/O groups are kept.
- Mirror volumes are one vdisk in one pool; their second pool is not tracked.
- Sizes.ParsesUnits: rounding in the 64-bit float and overflow of the 64-bit product with a large unit are not modelled.
- Sizes.ParsesBytes: parseStrSize goes through a 64-bit float; readings of 2^53 bytes and more may be rounded there and are exact here, and signs and exponents in a capacity read as 0 here.
- ExtendSizes.ExtendSizeLaw: sizes are unbounded integers, so an addition that leaves 64 bits is not modelled.
- As13000RefCount.RefCountRun: IQNs contain no comma and are not `ALL`; only volumes in the driver's charge carry the names used, and the largest suffix plus the length of the run stays below 2^63.
- As13000Bounds.BoundsUnderFaults: the largest suffix plus the length of the run stays below 2^63.
- As13000Undo.BareDetachUndoes: the IQN contains no comma and the largest suffix is below the largest int.
- NodeExpand.NodeExpandExact: the volume is whole GiB, host objects have distinct names and those that answer to this host go by one name; what the volume id parses to is a parameter.
- ExtendPools.PoolConservation: each change volume lies in its base volume's pool, and the free space read by the pre-check does not change during the call.
- SnapshotRuns.DurableRun: host mappings are a separate state and do not appear in these runs.
- HostRuns.HostRefinement: attached volumes exist and the site they prefer is listed, hosts describe themselves the same way in every call and share no port; nothing fails in these runs.
- Pages.PagesAreComplete: the listing does not change between two calls, names are distinct and numeric ids ascend and are not negative.
- Parser.Parse: the delimiter is one character, as the CLI wrapper sets it; the parser's Filter is not modelled.
- ParseVolumeID, GenerateVolumeID, ParseCapacitySize and ConvertStrToTime are not part of this model.
- removeDirectoryRecursively, which nothing calls.
