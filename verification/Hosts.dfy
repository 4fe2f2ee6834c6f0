/** Attaching volumes to hosts on the AS18000: finding or creating the host object, mapping, unmapping,
    and removing the host object with its last mapping. Each operation is a function from state to
    state and a method of `StorageUtil` proved to do exactly that. */
module Hosts {
  import opened Wrappers
  import opened HostArray
  import opened HostPaths

  datatype HostInfo = HostInfo(hostname: string, initiator: string, wwpns: seq<string>)

  datatype Error = ArrayFailure | SearchFailed | NoPort | NoSite | ManyRows | LinkUnsupported | HostFailure

  /* ---- finding the host object ---- */

  function RowNamed(rows: seq<FabricRow>, wwpn: string): Option<string> {
    if rows == [] then None
    else if rows[0].remote != "" && rows[0].host != "" && SameWwpn(rows[0].remote, wwpn) then Some(rows[0].host)
    else RowNamed(rows[1..], wwpn)
  }

  /** The answer of a search: a name, or none together with whether some query failed on the way. */
  datatype Found = Named(name: string) | NotFound(failed: bool)

  /** An empty WWPN is an error before any query is sent. */
  function ByWwpn(s: State, wwpns: seq<string>, failed: bool): (State, Found)
    decreases |wwpns|
  {
    if wwpns == [] then (s, NotFound(failed))
    else if wwpns[0] == "" then ByWwpn(s, wwpns[1..], true)
    else if !Up(s) then ByWwpn(Spend(s), wwpns[1..], true)
    else
      var hit := RowNamed(FabricRows(s.fabric, s.hosts, wwpns[0]), wwpns[0]);
      if hit.Some? then (Spend(s), Named(hit.value)) else ByWwpn(Spend(s), wwpns[1..], failed)
  }

  function ByInitiator(s: State, listed: seq<Host>, initiator: string, failed: bool): (State, Found)
    decreases |listed|
  {
    if listed == [] then (s, NotFound(failed))
    else if !Up(s) then ByInitiator(Spend(s), listed[1..], initiator, true)
    else if HostRowOf(s.hosts, listed[0].name).iscsi == initiator then (Spend(s), Named(listed[0].name))
    else ByInitiator(Spend(s), listed[1..], initiator, failed)
  }

  /** The last resort: a host object of the given name. Its row is there even when the host is not. */
  function ByHostname(s: State, hostname: string, failed: bool): (State, Result<string, Error>) {
    if hostname == "" then (s, if failed then Err(SearchFailed) else Ok(""))
    else if !Up(s) then (Spend(s), Err(ArrayFailure))
    else (Spend(s), Ok(HostRowOf(s.hosts, hostname).name))
  }

  function HostFor(s: State, info: HostInfo): (State, Result<string, Error>) {
    var (s1, byWwpn) := ByWwpn(s, info.wwpns, false);
    if byWwpn.Named? then (s1, Ok(byWwpn.name))
    else if info.initiator == "" then ByHostname(s1, info.hostname, byWwpn.failed)
    else if !Up(s1) then (Spend(s1), Err(ArrayFailure))
    else
      var (s2, byInitiator) := ByInitiator(Spend(s1), s1.hosts, info.initiator, byWwpn.failed);
      if byInitiator.Named? then (s2, Ok(byInitiator.name)) else ByHostname(s2, info.hostname, byInitiator.failed)
  }

  /* ---- creating the host object ---- */

  function VdisksOf(s: State, volume: string): seq<VdiskRow> {
    if volume in s.volumes then s.volumes[volume].vdisks else []
  }

  /** The I/O group of the first master, empty without one. */
  function MasterGroup(vdisks: seq<VdiskRow>): string {
    if vdisks == [] then "" else if vdisks[0].part == "master" then vdisks[0].iogrp else MasterGroup(vdisks[1..])
  }

  function SiteNamed(iogrps: seq<IogrpRow>, group: string): Option<string> {
    if iogrps == [] then None
    else if iogrps[0].name == group then Some(iogrps[0].site)
    else SiteNamed(iogrps[1..], group)
  }

  /** The site the volume prefers: that of its master's I/O group, when it has a master. */
  function PreferSite(s: State, volume: string): (State, Result<string, Error>) {
    var group := MasterGroup(VdisksOf(s, volume));
    if !Up(s) then (Spend(s), Err(ArrayFailure))
    else if group == "" then (Spend(s), Ok(""))
    else
      var s1, site := Spend(s), SiteNamed(s.iogrps, group);
      (Spend(s1), if !Up(s1) then Err(ArrayFailure) else if site.None? then Err(NoSite) else Ok(site.value))
  }

  /** Further ports; on a failure the host object is removed again. */
  function AddPorts(s: State, hostname: string, wwpns: seq<string>): (State, bool)
    decreases |wwpns|
  {
    if wwpns == [] then (s, true)
    else
      var (s1, ok) := Execute(s, AddHostPort(hostname, wwpns[0]));
      if ok then AddPorts(s1, hostname, wwpns[1..]) else (Execute(s1, RmHost(hostname)).0, false)
  }

  function CreateHost(s: State, info: HostInfo, site: string): (State, Result<string, Error>) {
    if info.initiator == "" && info.wwpns == [] then (s, Err(NoPort))
    else
      var first := if info.initiator != "" then Iscsi(info.initiator) else Wwpn(info.wwpns[0]);
      var (s1, made) := Execute(s, MkHost(info.hostname, first, site));
      if !made then (s1, Err(ArrayFailure))
      else
        var (s2, ok) := AddPorts(s1, info.hostname, if info.initiator != "" then info.wwpns else info.wwpns[1..]);
        (s2, if ok then Ok(info.hostname) else Err(ArrayFailure))
  }

  /* ---- mapping ---- */

  /** The SCSI id per I/O group over the listed rows of one volume; a later row overrides. */
  function LunIds(rows: seq<MapRow>, host: string): LunMap {
    if rows == [] then map[]
    else
      var last := rows[|rows| - 1];
      var before := LunIds(rows[..|rows| - 1], host);
      if last.host == host then before[last.iogrp := last.scsi] else before
  }

  function LunsOf(s: State, volume: string, host: string): Option<LunMap> {
    var luns := LunIds(RowsOf(s.rows, volume), host);
    if luns == map[] then None else Some(luns)
  }

  function GetLunId(s: State, volume: string, host: string): (State, Result<Option<LunMap>, Error>) {
    (Spend(s), if Up(s) then Ok(LunsOf(s, volume, host)) else Err(ArrayFailure))
  }

  function MapToHost(s: State, volume: string, host: string): (State, Result<Option<LunMap>, Error>) {
    var (s1, before) := GetLunId(s, volume, host);
    if before.Ok? && before.value.Some? then (s1, before)
    else
      var (s2, made) := Execute(s1, MkVdiskHostMap(host, volume));
      if made then GetLunId(s2, volume, host) else (s2, Err(ArrayFailure))
  }

  /** The host of the first row that qualifies: any row when no host is given. */
  function FirstHost(rows: seq<MapRow>, host: string): Option<string> {
    if rows == [] then None
    else if host == "" || rows[0].host == host then Some(rows[0].host)
    else FirstHost(rows[1..], host)
  }

  function Unmap(s: State, volume: string, host: string): (State, Result<(), Error>) {
    var s1, rows := Spend(s), RowsOf(s.rows, volume);
    if !Up(s) then (s1, Err(ArrayFailure))
    else if host == "" && |rows| > 1 then (s1, Err(ManyRows))
    else
      var hit := FirstHost(rows, host);
      if hit.None? then (s1, Ok(()))
      else
        var (s2, ok) := Execute(s1, RmVdiskHostMap(hit.value, volume));
        (s2, if ok then Ok(()) else Err(ArrayFailure))
  }

  /* ---- attach and detach ---- */

  function HostOrNew(s: State, volume: string, info: HostInfo): (State, Result<string, Error>) {
    var (s1, found) := HostFor(s, info);
    if found.Err? || found.value != "" then (s1, found)
    else
      var (s2, site) := PreferSite(s1, volume);
      if site.Err? then (s2, site) else CreateHost(s2, info, site.value)
  }

  /** Attaching answers with the SCSI ids the connection properties are built from. */
  function Attach(s: State, volume: string, info: HostInfo): (State, Result<Option<LunMap>, Error>) {
    var (s1, host) := HostOrNew(s, volume, info);
    if host.Err? then (s1, Err(host.error)) else MapToHost(s1, volume, host.value)
  }

  function Detach(s: State, volume: string, info: HostInfo): (State, Result<(), Error>) {
    var (s1, found) := HostFor(s, info);
    if found.Err? then (s1, Err(found.error))
    else if found.value == "" then (s1, Ok(()))
    else
      var (s2, unmapped) := Unmap(s1, volume, found.value);
      if unmapped.Err? then (s2, unmapped)
      else
        var s3 := Spend(s2);
        if !Up(s2) || RowsTo(s2.rows, found.value) != [] then (s3, Ok(()))
        else
          var (s4, ok) := Execute(s3, RmHost(found.value));
          (s4, if ok then Ok(()) else Err(ArrayFailure))
  }

  /* ---- the connection properties ---- */

  /** The paths to the ports a Fibre Channel host sees, and to all active ports when it sees none or cannot be
      asked about. */
  function FcTargets(s: State, luns: LunMap, net: Net): (State, Result<seq<Path>, Error>) {
    if !Up(s) then (Spend(s), Err(ArrayFailure))
    else
      var s1 := Spend(s);
      var s2, seen := Spend(s1), if Up(s1) then VisiblePaths(net.visible, net.nodes, luns, []) else [];
      if seen != [] then (s2, Ok(seen))
      else if !Up(s2) then (Spend(s2), Err(ArrayFailure))
      else (Spend(s2), Ok(ActivePaths(net.ports, net.nodes, luns)))
  }

  function IscsiTargets(s: State, luns: LunMap, net: Net): (State, Result<seq<Path>, Error>) {
    if !Up(s) then (Spend(s), Err(ArrayFailure))
    else
      var s1 := Spend(s);
      (Spend(s1), if Up(s1) then Ok(IscsiPaths(net.ips, net.nodes, luns)) else Err(ArrayFailure))
  }

  function Connect(s: State, luns: LunMap, net: Net): (State, Result<seq<Path>, Error>) {
    if net.link == FC_LINK then FcTargets(s, luns, net)
    else if net.link == ISCSI_LINK then IscsiTargets(s, luns, net)
    else (s, Err(LinkUnsupported))
  }

  function OrEmpty(luns: Option<LunMap>): LunMap { if luns.Some? then luns.value else map[] }

  /** AttachVolume: the volume mapped to the host, then the paths the host connects by. */
  function AttachAndConnect(s: State, volume: string, info: HostInfo, net: Net): (State, Result<seq<Path>, Error>) {
    var (s1, luns) := Attach(s, volume, info);
    if luns.Err? then (s1, Err(luns.error)) else Connect(s1, OrEmpty(luns.value), net)
  }

  /** The paths to a volume that is mapped to the host, None when it is not. */
  function AttachInfo(s: State, volume: string, info: HostInfo, net: Net): (State, Result<Option<seq<Path>>, Error>) {
    var (s1, host) := HostFor(s, info);
    if host.Err? then (s1, Err(host.error))
    else if host.value == "" then (s1, Ok(None))
    else
      var (s2, luns) := GetLunId(s1, volume, host.value);
      if luns.Err? then (s2, Err(luns.error))
      else if luns.value.None? then (s2, Ok(None))
      else
        var (s3, paths) := Connect(s2, luns.value.value, net);
        (s3, if paths.Ok? then Ok(Some(paths.value)) else Err(paths.error))
  }

  /** The controller's attach: when the host side fails, the volume is detached again on the array. */
  function ControllerAttach(s: State, volume: string, info: HostInfo, net: Net, hostSide: bool)
    : (State, Result<seq<Path>, Error>)
  {
    var (s1, attached) := AttachAndConnect(s, volume, info, net);
    if attached.Err? || hostSide then (s1, attached) else (Detach(s1, volume, info).0, Err(HostFailure))
  }

  /* ---- the driver object ---- */

  class StorageUtil {
    const cli: CliArray

    constructor (cli: CliArray)
      ensures this.cli == cli
    {
      this.cli := cli;
    }

    method FindHost(info: HostInfo) returns (r: Result<string, Error>)
      modifies cli
      ensures (cli.Current(), r) == HostFor(old(cli.Current()), info)
    {
      hide FabricRows, RowNamed, HostRowOf;
      ghost var s0 := cli.Current();
      var failed := false;
      var i := 0;
      while i < |info.wwpns|
        invariant 0 <= i <= |info.wwpns|
        invariant ByWwpn(s0, info.wwpns, false) == ByWwpn(cli.Current(), info.wwpns[i..], failed)
      {
        assert info.wwpns[i..][1..] == info.wwpns[i + 1..];
        if info.wwpns[i] == "" {
          failed := true;
        } else {
          var rows := FabricRows(cli.fabric, cli.hosts, info.wwpns[i]);
          var up := cli.Answer();
          if up {
            var hit := FirstNamed(rows, info.wwpns[i]);
            if hit.Some? { return Ok(hit.value); }
          } else {
            failed := true;
          }
        }
        i := i + 1;
      }

      if info.initiator != "" {
        var listed := cli.hosts;
        var up := cli.Answer();
        if !up { return Err(ArrayFailure); }
        ghost var s1, failed1 := cli.Current(), failed;
        i := 0;
        while i < |listed|
          invariant 0 <= i <= |listed|
          invariant ByInitiator(s1, listed, info.initiator, failed1)
            == ByInitiator(cli.Current(), listed[i..], info.initiator, failed)
        {
          assert listed[i..][1..] == listed[i + 1..];
          var row := HostRowOf(cli.hosts, listed[i].name);
          up := cli.Answer();
          if !up {
            failed := true;
          } else if row.iscsi == info.initiator {
            return Ok(listed[i].name);
          }
          i := i + 1;
        }
      }

      if info.hostname != "" {
        var row := HostRowOf(cli.hosts, info.hostname);
        var up := cli.Answer();
        return if up then Ok(row.name) else Err(ArrayFailure);
      }
      return if failed then Err(SearchFailed) else Ok("");
    }

    method FirstNamed(rows: seq<FabricRow>, wwpn: string) returns (hit: Option<string>)
      ensures hit == RowNamed(rows, wwpn)
    {
      for i := 0 to |rows|
        invariant RowNamed(rows, wwpn) == RowNamed(rows[i..], wwpn)
      {
        if rows[i].remote != "" && rows[i].host != "" && SameWwpn(rows[i].remote, wwpn) {
          return Some(rows[i].host);
        }
        assert rows[i..][1..] == rows[i + 1..];
      }
      return None;
    }

    method PreferredSite(volume: string) returns (r: Result<string, Error>)
      modifies cli
      ensures (cli.Current(), r) == PreferSite(old(cli.Current()), volume)
    {
      var vdisks := VdisksOf(cli.Current(), volume);
      var up := cli.Answer();
      if !up { return Err(ArrayFailure); }
      var group := "";
      for i := 0 to |vdisks|
        invariant group == "" && MasterGroup(vdisks) == MasterGroup(vdisks[i..])
      {
        assert vdisks[i..][1..] == vdisks[i + 1..];
        if vdisks[i].part == "master" {
          group := vdisks[i].iogrp;
          break;
        }
      }
      if group == "" { return Ok(""); }

      up := cli.Answer();
      if !up { return Err(ArrayFailure); }
      var iogrps := cli.iogrps;
      for i := 0 to |iogrps|
        invariant SiteNamed(iogrps, group) == SiteNamed(iogrps[i..], group)
        invariant cli.Current() == Spend(Spend(old(cli.Current())))
      {
        assert iogrps[i..][1..] == iogrps[i + 1..];
        if iogrps[i].name == group { return Ok(iogrps[i].site); }
      }
      return Err(NoSite);
    }

    method MakeHost(info: HostInfo, site: string) returns (r: Result<string, Error>)
      modifies cli
      ensures (cli.Current(), r) == CreateHost(old(cli.Current()), info, site)
    {
      hide Can, Apply;
      if info.initiator == "" && |info.wwpns| == 0 { return Err(NoPort); }
      var wwpns := info.wwpns;
      var made;
      if info.initiator != "" {
        made := cli.Run(MkHost(info.hostname, Iscsi(info.initiator), site));
      } else {
        made := cli.Run(MkHost(info.hostname, Wwpn(wwpns[0]), site));
        wwpns := wwpns[1..];
      }
      if !made { return Err(ArrayFailure); }
      ghost var s1 := cli.Current();
      var i := 0;
      while i < |wwpns|
        invariant 0 <= i <= |wwpns|
        invariant AddPorts(s1, info.hostname, wwpns) == AddPorts(cli.Current(), info.hostname, wwpns[i..])
      {
        assert wwpns[i..][1..] == wwpns[i + 1..];
        var ok := cli.Run(AddHostPort(info.hostname, wwpns[i]));
        if !ok {
          var _ := cli.Run(RmHost(info.hostname));
          return Err(ArrayFailure);
        }
        i := i + 1;
      }
      return Ok(info.hostname);
    }

    method LunId(volume: string, host: string) returns (r: Result<Option<LunMap>, Error>)
      modifies cli
      ensures (cli.Current(), r) == GetLunId(old(cli.Current()), volume, host)
    {
      hide RowsOf;
      var rows := RowsOf(cli.rows, volume);
      var up := cli.Answer();
      if !up { return Err(ArrayFailure); }
      var luns: LunMap := map[];
      for i := 0 to |rows|
        invariant luns == LunIds(rows[..i], host)
      {
        assert rows[..i + 1][..i] == rows[..i];
        if rows[i].host == host { luns := luns[rows[i].iogrp := rows[i].scsi]; }
      }
      assert rows[..|rows|] == rows;
      return Ok(if luns == map[] then None else Some(luns));
    }

    method MapVolumeToHost(volume: string, host: string) returns (r: Result<Option<LunMap>, Error>)
      modifies cli
      ensures (cli.Current(), r) == MapToHost(old(cli.Current()), volume, host)
    {
      hide Can, Apply, LunsOf;
      r := LunId(volume, host);
      if r.Ok? && r.value.Some? { return; }
      var made := cli.Run(MkVdiskHostMap(host, volume));
      if !made { return Err(ArrayFailure); }
      r := LunId(volume, host);
    }

    method UnmapVolumeFromHost(volume: string, host: string) returns (r: Result<(), Error>)
      modifies cli
      ensures (cli.Current(), r) == Unmap(old(cli.Current()), volume, host)
    {
      hide Can, Apply, RowsOf;
      var rows := RowsOf(cli.rows, volume);
      var up := cli.Answer();
      if !up { return Err(ArrayFailure); }
      if host == "" && |rows| > 1 { return Err(ManyRows); }
      for i := 0 to |rows|
        invariant FirstHost(rows, host) == FirstHost(rows[i..], host)
        invariant cli.Current() == Spend(old(cli.Current()))
      {
        if host == "" || rows[i].host == host {
          var ok := cli.Run(RmVdiskHostMap(rows[i].host, volume));
          return if ok then Ok(()) else Err(ArrayFailure);
        }
        assert rows[i..][1..] == rows[i + 1..];
      }
      return Ok(());
    }

    /** AttachVolume up to the connection properties. */
    method MapForHost(volume: string, info: HostInfo) returns (r: Result<Option<LunMap>, Error>)
      modifies cli
      ensures (cli.Current(), r) == Attach(old(cli.Current()), volume, info)
    {
      hide HostFor, PreferSite, CreateHost, MapToHost;
      var host := FindHost(info);
      if host.Err? { return Err(host.error); }
      if host.value == "" {
        var site := PreferredSite(volume);
        if site.Err? { return Err(site.error); }
        host := MakeHost(info, site.value);
        if host.Err? { return Err(host.error); }
      }
      r := MapVolumeToHost(volume, host.value);
    }

    method BuildConnProperty(luns: LunMap, net: Net) returns (r: Result<seq<Path>, Error>)
      modifies cli
      ensures (cli.Current(), r) == Connect(old(cli.Current()), luns, net)
    {
      if net.link == FC_LINK {
        var up := cli.Answer();
        if !up { return Err(ArrayFailure); }
        up := cli.Answer();
        var paths: seq<Path> := [];
        if up { paths := CollectVisible(net.visible, net.nodes, luns); }
        if |paths| > 0 { return Ok(paths); }
        up := cli.Answer();
        if !up { return Err(ArrayFailure); }
        paths := CollectActive(net.ports, net.nodes, luns);
        return Ok(paths);
      } else if net.link == ISCSI_LINK {
        var up := cli.Answer();
        if !up { return Err(ArrayFailure); }
        up := cli.Answer();
        if !up { return Err(ArrayFailure); }
        var paths := GetiSCSITargets(net.ips, net.nodes, luns);
        return Ok(paths);
      } else {
        return Err(LinkUnsupported);
      }
    }

    method AttachVolume(volume: string, info: HostInfo, net: Net) returns (r: Result<seq<Path>, Error>)
      modifies cli
      ensures (cli.Current(), r) == AttachAndConnect(old(cli.Current()), volume, info, net)
    {
      hide Attach, Connect;
      var luns := MapForHost(volume, info);
      if luns.Err? { return Err(luns.error); }
      r := BuildConnProperty(OrEmpty(luns.value), net);
    }

    method GetVolumeAttachInfo(volume: string, info: HostInfo, net: Net) returns (r: Result<Option<seq<Path>>, Error>)
      modifies cli
      ensures (cli.Current(), r) == AttachInfo(old(cli.Current()), volume, info, net)
    {
      hide HostFor, GetLunId, Connect;
      var host := FindHost(info);
      if host.Err? { return Err(host.error); }
      if host.value == "" { return Ok(None); }
      var luns := LunId(volume, host.value);
      if luns.Err? { return Err(luns.error); }
      if luns.value.None? { return Ok(None); }
      var paths := BuildConnProperty(luns.value.value, net);
      return if paths.Ok? then Ok(Some(paths.value)) else Err(paths.error);
    }

    method DetachVolume(volume: string, info: HostInfo) returns (r: Result<(), Error>)
      modifies cli
      ensures (cli.Current(), r) == Detach(old(cli.Current()), volume, info)
    {
      hide Can, Apply, HostFor, Unmap, RowsTo;
      var host := FindHost(info);
      if host.Err? { return Err(host.error); }
      if host.value == "" { return Ok(()); }
      var unmapped := UnmapVolumeFromHost(volume, host.value);
      if unmapped.Err? { return unmapped; }
      var mapped := RowsTo(cli.rows, host.value);
      var up := cli.Answer();
      if !up || mapped != [] { return Ok(()); }
      var ok := cli.Run(RmHost(host.value));
      return if ok then Ok(()) else Err(ArrayFailure);
    }

    /** `hostSide` is whether the attach on the host itself works. */
    method AttachWithHost(volume: string, info: HostInfo, net: Net, hostSide: bool)
      returns (r: Result<seq<Path>, Error>)
      modifies cli
      ensures (cli.Current(), r) == ControllerAttach(old(cli.Current()), volume, info, net, hostSide)
    {
      hide AttachAndConnect, Detach;
      r := AttachVolume(volume, info, net);
      if r.Ok? && !hostSide {
        var _ := DetachVolume(volume, info);
        r := Err(HostFailure);
      }
    }
  }
}
