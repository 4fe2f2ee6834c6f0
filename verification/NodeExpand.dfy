/** Expanding a volume at the CSI interface: the controller looks up whether the volume is attached to this
    host, freezes its file system when it is active-active, has the array extend it, and lets the host see
    the new size. What NodeExpandVolume reports, and what the array then holds. */
module NodeExpand {
  import opened Wrappers
  import opened Text
  import opened Sizes
  import opened VdiskArray
  import opened As18000
  import opened AaExtend
  import opened AaScript
  import opened AaRuns
  import opened ExtendSizes
  import opened AaCopies
  import opened CsiSizes
  import HostArray
  import HostPaths
  import Hosts
  import HostLookup
  import HostOutcomes
  import HostFaults

  datatype Error =
    | BadVolumeId
    | NoHostInfo
    | LookUpFailed(lookUp: Hosts.Error)
    | ExtendFailed(extend: As18000.Error)
    | DiskFailure
    | FileSystemFailure

  /** The array's hosts, its volumes with the barrier, and the frozen file systems of this host. Look-ups
      and extends come one after the other, so that each keeps its own outcomes to come. */
  datatype System = System(hosts: HostArray.State, driver: Driver, frozen: set<string>)

  /** What this host says of itself, None when it cannot, and which of its own actions work. */
  datatype Side = Side(info: Option<Hosts.HostInfo>, net: HostPaths.Net,
                       freezes: bool, thaws: bool, rescans: bool, grows: bool)

  /** The options stored with a volume, None without any, down to the level. */
  type Level = Option<Option<string>>

  /* ---- the operations ---- */

  /** Active-active by its options; by its number of vdisks, or when they cannot be counted, without any. */
  function NeedsFreeze(s: State, volume: string, level: Level): (State, bool) {
    match level
    case None => (Spend(s), !Up(s) || |VolumeRows(s, volume)| == 4)
    case Some(l) => (s, l == Some("aa"))
  }

  function Freeze(frozen: set<string>, path: string, works: bool): set<string> {
    if works then frozen + {path} else frozen
  }

  function Thaw(frozen: set<string>, path: string, works: bool): set<string> {
    if works then frozen - {path} else frozen
  }

  /** Where the array is asked to extend the volume: whether that is to be counted, the file system frozen. */
  function Prepared(y: System, volume: string, level: Level, path: string, side: Side): System {
    var (store, freeze) := NeedsFreeze(y.driver.store, volume, level);
    y.(driver := y.driver.(store := store), frozen := if freeze then Freeze(y.frozen, path, side.freezes) else y.frozen)
  }

  /** The controller's ExtendVolume. A volume that is not attached to this host counts as done. */
  function ControllerExtend(y: System, volume: string, level: Level, size: string, path: string, env: Env, side: Side)
    : (System, Result<(), Error>)
  {
    if side.info.None? then (y, Err(NoHostInfo))
    else
      var (hosts, at) := Hosts.AttachInfo(y.hosts, volume, side.info.value, side.net);
      var y1 := y.(hosts := hosts);
      if at.Err? then (y1, Err(LookUpFailed(at.error)))
      else if at.value.None? then (y1, Ok(()))
      else
        var y2 := Prepared(y1, volume, level, path, side);
        var (driver, r) := ExtendVolume(y2.driver, volume, size, env);
        var freeze := NeedsFreeze(y1.driver.store, volume, level).1;
        var y3 := y2.(driver := driver, frozen := if freeze then Thaw(y2.frozen, path, side.thaws) else y2.frozen);
        (y3, if r.Err? then Err(ExtendFailed(r.error))
             else if !side.rescans then Err(DiskFailure)
             else if !side.grows then Err(FileSystemFailure)
             else Ok(()))
  }

  /** NodeExpandVolume for c bytes; a success answers with c. */
  function NodeExpandVolume(y: System, id: Option<(string, Level)>, c: int, path: string, env: Env, side: Side)
    : (System, Result<int, Error>)
  {
    if id.None? then (y, Err(BadVolumeId))
    else
      var (after, r) := ControllerExtend(y, id.value.0, id.value.1, FormatInt(ExpandGib(c)), path, env, side);
      (after, if r.Ok? then Ok(c) else Err(r.error))
  }

  /* ---- the controller ---- */

  class Controller {
    const hosts: Hosts.StorageUtil
    const volumes: As18000.StorageUtil
    var frozen: set<string>

    constructor (hosts: Hosts.StorageUtil, volumes: As18000.StorageUtil, frozen: set<string>)
      ensures this.hosts == hosts && this.volumes == volumes && this.frozen == frozen
    {
      this.hosts, this.volumes, this.frozen := hosts, volumes, frozen;
    }

    function State(): System
      reads this, hosts.cli, volumes, volumes.cli
    {
      System(hosts.cli.Current(), volumes.State(), frozen)
    }

    method NeedFreezeFSWhenExtend(volume: string, level: Level) returns (freeze: bool)
      modifies volumes.cli`faults
      ensures (volumes.cli.Current(), freeze) == NeedsFreeze(old(volumes.cli.Current()), volume, level)
    {
      if level.Some? { return level.value == Some("aa"); }
      var rows := VolumeRows(volumes.cli.Current(), volume);
      var up := volumes.cli.Answer();
      return !up || |rows| == 4;
    }

    method ExtendVolume(volume: string, level: Level, size: string, path: string, env: Env, side: Side)
      returns (r: Result<(), Error>)
      modifies this, hosts.cli, volumes, volumes.cli
      ensures (State(), r) == ControllerExtend(old(State()), volume, level, size, path, env, side)
    {
      hide Hosts.AttachInfo, As18000.ExtendVolume, VolumeRows;
      if side.info.None? { return Err(NoHostInfo); }
      var at := hosts.GetVolumeAttachInfo(volume, side.info.value, side.net);
      if at.Err? { return Err(LookUpFailed(at.error)); }
      if at.value.None? { return Ok(()); }
      var freeze := NeedFreezeFSWhenExtend(volume, level);
      if freeze { frozen := Freeze(frozen, path, side.freezes); }
      assert State() == Prepared(old(State()).(hosts := hosts.cli.Current()), volume, level, path, side);
      var extended := volumes.Extend(volume, size, env);
      if freeze { frozen := Thaw(frozen, path, side.thaws); }
      if extended.Err? { return Err(ExtendFailed(extended.error)); }
      if !side.rescans { return Err(DiskFailure); }
      if !side.grows { return Err(FileSystemFailure); }
      return Ok(());
    }

    method NodeExpand(id: Option<(string, Level)>, c: int, path: string, env: Env, side: Side)
      returns (r: Result<int, Error>)
      modifies this, hosts.cli, volumes, volumes.cli
      ensures (State(), r) == NodeExpandVolume(old(State()), id, c, path, env, side)
    {
      hide ControllerExtend;
      if id.None? { return Err(BadVolumeId); }
      var extended := ExtendVolume(id.value.0, id.value.1, FormatInt(ExpandGib(c)), path, env, side);
      return if extended.Ok? then Ok(c) else Err(extended.error);
    }
  }

  /* ---- whether the volume is seen to be attached ---- */

  /** The look-ups get through and find no object of this host, or one the volume is not mapped to. */
  predicate SeenUnattached(s: HostArray.State, volume: string, info: Hosts.HostInfo, n: string) {
    || HostFaults.SeesNoHost(s, info)
    || (HostFaults.FindsHost(s, info, n) && HostArray.Answers(Hosts.HostFor(s, info).0, 0)
        && !HostArray.IsMapped(s.rows, volume, n))
  }

  /** They find the host object and the volume mapped to it, and the paths to it can be listed. */
  predicate SeenAttached(s: HostArray.State, volume: string, info: Hosts.HostInfo, net: HostPaths.Net, n: string) {
    var s1 := Hosts.HostFor(s, info).0;
    && HostFaults.FindsHost(s, info, n) && HostArray.Answers(s1, 0) && HostArray.IsMapped(s.rows, volume, n)
    && Hosts.Connect(HostArray.Spend(s1), Hosts.OrEmpty(Hosts.LunsOf(s, volume, n)), net).1.Ok?
  }

  lemma {:induction false} InfoOutcome(s: HostArray.State, volume: string, info: Hosts.HostInfo, net: HostPaths.Net,
                                       n: string)
    requires HostLookup.Sane(s.hosts) && HostLookup.OnlyMatch(s, info, n)
    ensures var (t, r) := Hosts.AttachInfo(s, volume, info, net);
      && (r == Ok(None) <==> SeenUnattached(s, volume, info, n))
      && (r.Ok? && r.value.Some? <==> SeenAttached(s, volume, info, net, n))
      && HostFaults.SameTables(s, t)
  {
    hide Hosts.HostFor, HostFaults.SeesNoHost, Hosts.Connect, Hosts.LunsOf, HostLookup.OnlyMatch, HostLookup.SomeMatch;
    hide HostArray.IsMapped;
    HostFaults.SearchOutcome(s, info, n);
    HostFaults.SearchKeeps(s, info);
    var (s1, host) := Hosts.HostFor(s, info);
    if host.Ok? && host.value != "" {
      SameLuns(s, s1, volume, n);
      HostOutcomes.LunsIffMapped(s, volume, n);
      HostFaults.ConnectKeeps(HostArray.Spend(s1), Hosts.OrEmpty(Hosts.LunsOf(s, volume, n)), net);
    }
  }

  lemma {:induction false} SameLuns(s: HostArray.State, t: HostArray.State, volume: string, host: string)
    requires HostFaults.SameTables(s, t)
    ensures Hosts.LunsOf(s, volume, host) == Hosts.LunsOf(t, volume, host)
  {}

  /* ---- what is reported, and what the array holds ---- */

  /** The array is asked to extend the volume, and does; so do the disk and the file system. */
  predicate GetsThrough(d: Driver, volume: string, level: Level, c: int, env: Env, side: Side) {
    var asked := d.(store := if level == None then Spend(d.store) else d.store);
    ExtendVolume(asked, volume, FormatInt(ExpandGib(c)), env).1.Ok? && side.rescans && side.grows
  }

  /** The volume is active-active by its options, or without options by its four vdisks or when those cannot be
      counted. */
  predicate TakenForAa(s: State, volume: string, level: Level) {
    level == Some(Some("aa")) || (level == None && (!Up(s) || |InVolume(s.vdisks, volume)| == 4))
  }

  /** While the array is asked to extend a volume, its file system is frozen exactly when the volume is taken for
      active-active and freezing works, or it was frozen before; no other file system is touched. */
  lemma {:induction false} FrozenWhileExtending(y: System, volume: string, level: Level, path: string, side: Side)
    ensures var asked := Prepared(y, volume, level, path, side);
      && asked.frozen == (if TakenForAa(y.driver.store, volume, level) && side.freezes then y.frozen + {path}
                          else y.frozen)
      && asked.hosts == y.hosts
      && asked.driver == y.driver.(store := if level == None then Spend(y.driver.store) else y.driver.store)
  {}

  /** A volume id that does not parse, and a host that cannot say what it is, are errors before anything is asked. */
  lemma {:induction false} EarlyExits(
      y: System, volume: string, level: Level, c: int, path: string, env: Env, side: Side)
    ensures NodeExpandVolume(y, None, c, path, env, side) == (y, Err(BadVolumeId))
    ensures side.info.None? ==> NodeExpandVolume(y, Some((volume, level)), c, path, env, side) == (y, Err(NoHostInfo))
  {}

  /** The exits of the call, by what the look-up answers: an error is passed on; a volume that is not attached is
      reported done; else the array is asked, the file system of an active-active volume thawed whatever came
      of it, and a failure on the array or then on the host reported. */
  lemma {:induction false} Phases(y: System, volume: string, level: Level, c: int, path: string, env: Env, side: Side)
    requires side.info.Some?
    ensures var (after, r) := NodeExpandVolume(y, Some((volume, level)), c, path, env, side);
      var (hosts, at) := Hosts.AttachInfo(y.hosts, volume, side.info.value, side.net);
      var asked := Prepared(y, volume, level, path, side);
      var (driver, extended) := ExtendVolume(asked.driver, volume, FormatInt(ExpandGib(c)), env);
      && after.hosts == hosts && (r.Ok? ==> r == Ok(c) && at.Ok?)
      && (at.Err? ==> r == Err(LookUpFailed(at.error)) && after.driver == y.driver && after.frozen == y.frozen)
      && (at == Ok(None) ==> r == Ok(c) && after.driver == y.driver && after.frozen == y.frozen)
      && (at.Ok? && at.value.Some? ==>
            && after.driver == driver
            && after.frozen == (if TakenForAa(y.driver.store, volume, level) && side.thaws then asked.frozen - {path}
                                else asked.frozen)
            && (r.Ok? <==> GetsThrough(y.driver, volume, level, c, env, side))
            && (r.Err? ==> r.error == if extended.Err? then ExtendFailed(extended.error)
                                      else if !side.rescans then DiskFailure
                                      else FileSystemFailure))
  {
    assert NeedsFreeze(y.driver.store, volume, level).1 == TakenForAa(y.driver.store, volume, level);
    hide Hosts.AttachInfo, ExtendVolume, FormatInt, ExpandGib, NeedsFreeze, Freeze, TakenForAa;
  }

  /** For a whole-GiB volume, every state of the array, whatever fails, and every 64-bit c. NodeExpandVolume
      reports c bytes exactly when the volume is seen not to be attached to this host, or is attached and the
      extend gets through on the array and on the host. In the first case nothing has changed, whatever c is,
      and the array holds c bytes only if it did before. In the second it holds them exactly when c is
      whole GiB, or negative. */
  lemma {:induction false} NodeExpandExact(y: System, volume: string, level: Level, c: int, path: string, env: Env,
                                           side: Side, layout: Layout, master: string, names: set<string>, g: nat,
                                           n: string)
    requires MIN_INT64 <= c <= MAX_INT64 && side.info.Some?
    requires Extendable(y.driver.store, layout, volume, master, names) && Exists(y.driver.store.vdisks, master)
    requires SizeOf(y.driver.store.vdisks, master) == g * GIB
    requires HostLookup.Sane(y.hosts.hosts) && HostLookup.OnlyMatch(y.hosts, side.info.value, n)
    ensures var (after, r) := NodeExpandVolume(y, Some((volume, level)), c, path, env, side);
      var unattached := SeenUnattached(y.hosts, volume, side.info.value, n);
      var done := SeenAttached(y.hosts, volume, side.info.value, side.net, n)
                  && GetsThrough(y.driver, volume, level, c, env, side);
      && (r == Ok(c) <==> unattached || done) && (r.Ok? ==> r == Ok(c))
      && (r.Ok? ==> Exists(after.driver.store.vdisks, master))
      && (unattached ==> after.driver == y.driver && !done)
      && (r.Ok? ==> (c <= SizeOf(after.driver.store.vdisks, master)
                     <==> if unattached then c <= g * GIB else c < 0 || c % GIB == 0))
      && (done && c >= 0 ==> g * GIB <= c)
  {
    hide Hosts.AttachInfo, ExtendVolume, Extendable, SizeOf, Exists, FormatInt, ExpandGib, SeenUnattached, SeenAttached;
    hide HostLookup.OnlyMatch, VolumeRows, NodeExpandVolume, Prepared;
    InfoOutcome(y.hosts, volume, side.info.value, side.net, n);
    var store := if level == None then Spend(y.driver.store) else y.driver.store;
    SameExtendable(y.driver.store, store, layout, volume, master, names);
    CsiExpand(y.driver.(store := store), layout, volume, master, names, g, c, env);
    FrozenWhileExtending(y, volume, level, path, side);
    Phases(y, volume, level, c, path, env, side);
    var at := Hosts.AttachInfo(y.hosts, volume, side.info.value, side.net).1;
    assert at.Ok? && at.value.None? ==> at == Ok(None);
  }

  /** The failing input: a volume that is not mapped to this host, expanded to any size. The request is
      reported done, and nothing has been extended. */
  lemma {:induction false} UnattachedReported()
    ensures var vdisk := Vdisk(0, "v", "v", "pool", "0", GIB);
      var store, hosts := State([vdisk], [], [], "now", []), HostArray.State([], [], map[], [], [], []);
      var y := System(hosts, Driver(store, false, true), {});
      var net := HostPaths.Net("iscsi", [], [], [], []);
      var side := Side(Some(Hosts.HostInfo("host", "iqn", [])), net, true, true, true, true);
      forall c, env :: NodeExpandVolume(y, Some(("v", Some(None))), c, "/mnt", env, side) == (y, Ok(c))
  {
    hide FormatInt, ExpandGib, ExtendVolume;
    var hosts := HostArray.State([], [], map[], [], [], []);
    var info := Hosts.HostInfo("host", "iqn", []);
    assert HostArray.Spend(hosts) == hosts;
    assert Hosts.HostFor(hosts, info) == (hosts, Ok(""));
    hide Hosts.HostFor;
  }

  /** With nothing failing, what is seen is what is there. */
  lemma {:induction false} FaultFreeSeen(s: HostArray.State, volume: string, info: Hosts.HostInfo,
                                         net: HostPaths.Net, n: string)
    requires s.faults == [] && HostLookup.Sane(s.hosts) && HostLookup.OnlyMatch(s, info, n)
    requires net.link == HostPaths.FC_LINK || net.link == HostPaths.ISCSI_LINK
    ensures var mapped := HostLookup.SomeMatch(s, info) && HostArray.IsMapped(s.rows, volume, n);
      && (SeenAttached(s, volume, info, net, n) <==> mapped)
      && (SeenUnattached(s, volume, info, n) <==> HostLookup.Answer(s, info, n).Ok? && !mapped)
  {
    hide Hosts.HostFor, HostFaults.SeesNoHost, Hosts.Connect, Hosts.LunsOf, HostArray.IsMapped;
    hide HostLookup.OnlyMatch, HostLookup.SomeMatch;
    HostLookup.FindsTheMatch(s, info, n);
    HostFaults.SearchOutcome(s, info, n);
    if HostLookup.SomeMatch(s, info) { HostOutcomes.MatchNamed(s, info, n); }
    HostFaults.ConnectKeeps(HostArray.Spend(s), Hosts.OrEmpty(Hosts.LunsOf(s, volume, n)), net);
  }

  lemma {:induction false} WholeIsExtendable(s: State, layout: Layout, volume: string)
    requires Healthy(s.vdisks, s.relations, layout) && volume in layout
    ensures Extendable(s, layout, volume, layout[volume].master, Members(layout[volume]))
  {
    hide Healthy;
  }

  /** A whole active-active volume of g GiB with its local copies, no barrier, and nothing failing. */
  ghost predicate WholeVolume(d: Driver, layout: Layout, volume: string, g: nat) {
    && d.store.faults == [] && !d.barrier
    && Healthy(d.store.vdisks, d.store.relations, layout) && volume in layout
    && AllFour(d.store.vdisks, volume, layout[volume]) && BothCopied(d.store.maps, layout[volume])
    && Exists(d.store.vdisks, layout[volume].master) && Exists(d.store.vdisks, layout[volume].aux)
    && SizeOf(d.store.vdisks, layout[volume].master) == g * GIB
  }

  /** It has c bytes, or fewer and there is room for the difference in each half's pool. */
  predicate Fits(vs: seq<Vdisk>, a: AaVolume, g: nat, c: nat, env: Env)
    requires Exists(vs, a.master) && Exists(vs, a.aux)
  {
    c == g * GIB || (c / GIB > g && Room(vs, a, c / GIB - g, env))
  }

  /** With nothing failing, for a whole active-active volume with its local copies and a host that does its part:
      NodeExpandVolume reports c bytes and the array holds them if and only if the volume is mapped to the host, c
      is whole GiB, and the volume has c bytes, or fewer and there is room; or it is not mapped, and had c
      bytes before. */
  lemma {:induction false} AaNodeExpand(y: System, volume: string, level: Level, c: nat, path: string,
                                        env: Env, side: Side, layout: Layout, g: nat, n: string)
    requires c <= MAX_INT64 && y.hosts.faults == [] && WholeVolume(y.driver, layout, volume, g)
    requires side.info.Some? && side.rescans && side.grows
    requires side.net.link == HostPaths.FC_LINK || side.net.link == HostPaths.ISCSI_LINK
    requires HostLookup.Sane(y.hosts.hosts) && HostLookup.OnlyMatch(y.hosts, side.info.value, n)
    ensures var (after, r) := NodeExpandVolume(y, Some((volume, level)), c, path, env, side);
      var master, vs, info := layout[volume].master, y.driver.store.vdisks, side.info.value;
      && (r.Ok? ==> Exists(after.driver.store.vdisks, master))
      && (r.Ok? && c <= SizeOf(after.driver.store.vdisks, master)
          <==> if HostLookup.SomeMatch(y.hosts, info) && HostArray.IsMapped(y.hosts.rows, volume, n) then
                 c % GIB == 0 && Fits(vs, layout[volume], g, c, env)
               else HostLookup.Answer(y.hosts, info, n).Ok? && c <= g * GIB)
  {
    hide Healthy, AllFour, BothCopied, SizeOf, Extendable, SeenAttached, SeenUnattached, ExpandGib, Fits;
    hide HostLookup.OnlyMatch, HostLookup.SomeMatch, HostArray.IsMapped, NodeExpandVolume, GetsThrough;
    var a, info := layout[volume], side.info.value;
    WholeIsExtendable(y.driver.store, layout, volume);
    FaultFreeSeen(y.hosts, volume, info, side.net, n);
    NodeExpandExact(y, volume, level, c, path, env, side, layout, a.master, Members(a), g, n);
    AaThrough(y.driver, volume, level, c, env, side, layout, g);
  }

  lemma {:induction false} AaThrough(d: Driver, volume: string, level: Level, c: nat, env: Env, side: Side,
                                     layout: Layout, g: nat)
    requires c <= MAX_INT64 && side.rescans && side.grows && WholeVolume(d, layout, volume, g)
    ensures GetsThrough(d, volume, level, c, env, side) && c % GIB == 0
      <==> c % GIB == 0 && Fits(d.store.vdisks, layout[volume], g, c, env)
  {
    hide Healthy, AllFour, BothCopied, Room, SizeOf, ExtendVolume, Atoi, FormatInt, ExpandGib, VolumeRows, Exists;
    assert Spend(d.store) == d.store;
    FaultFreeExtend(d, layout, volume, FormatInt(ExpandGib(c)), env);
    WholeRequest(c, g);
    AtoiOfFormat(ExpandGib(c));
  }

  lemma {:induction false} WholeRequest(c: nat, g: nat)
    requires c <= MAX_INT64
    ensures ExpandGib(c) == c / GIB && MIN_INT64 <= ExpandGib(c) <= MAX_INT64 && g * GIB / GIB == g
    ensures c % GIB == 0 ==> (c / GIB == g <==> c == g * GIB) && (c / GIB > g <==> c > g * GIB)
  {
    hide ExpandGib;
    ExpandGibLaw(c);
    assert c == c / GIB * GIB + c % GIB;
  }

  /* ---- the file system ---- */

  /** Whatever fails on the array or the host, as long as thawing works: no other file system's state changes, and
      a file system that was not frozen before is not frozen after. */
  lemma {:induction false} NeverLeftFrozen(y: System, id: Option<(string, Level)>, c: int, path: string, env: Env,
                                           side: Side)
    ensures var after := NodeExpandVolume(y, id, c, path, env, side).0;
      && after.frozen - {path} == y.frozen - {path}
      && (side.thaws && path !in y.frozen ==> after.frozen == y.frozen)
  {
    hide Hosts.AttachInfo, ExtendVolume, VolumeRows, FormatInt, ExpandGib;
  }
}
