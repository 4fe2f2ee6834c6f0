/** The AS18000 array as host attach and detach drive it: host objects with their ports, and the rows that
    map volumes to hosts.

    Assumptions about the array: a command that fails has no effect; a port belongs to at most one host
    object; a port is not empty; a host object with mapped volumes cannot be removed; a volume is mapped to
    a host at most once, with one row for each I/O group it is reached through; `lsfabric -wwpn` lists the
    logged-in ports with that WWPN, whatever its case; `lshost` of an absent host prints nothing, which
    reads as one empty row. */
module HostArray {
  import opened Wrappers
  import opened Lists

  /* ---- WWPNs are compared without regard to case ---- */

  function LowerChar(c: char): char { if 'A' <= c <= 'Z' then (c as int + 32) as char else c }

  function ToLower(s: string): string { seq(|s|, i requires 0 <= i < |s| => LowerChar(s[i])) }

  predicate SameWwpn(a: string, b: string) { ToLower(a) == ToLower(b) }

  /* ---- state ---- */

  /** A row of lsvdisk, as far as a host's site depends on it: the function column and the I/O group. */
  datatype VdiskRow = VdiskRow(part: string, iogrp: string)

  /** A row of lsiogrp. */
  datatype IogrpRow = IogrpRow(name: string, site: string)

  /** The I/O groups a volume is reached through, and its vdisks. */
  datatype Volume = Volume(groups: seq<string>, vdisks: seq<VdiskRow>)

  datatype Host = Host(name: string, iscsi: Option<string>, wwpns: seq<string>, site: string)

  datatype MapRow = MapRow(volume: string, host: string, iogrp: string, scsi: nat)

  /** `volumes` are the volumes that exist; `fabric` the WWPNs logged in; `faults` the outcomes of the
      commands and queries still to come. */
  datatype State = State(hosts: seq<Host>, rows: seq<MapRow>, volumes: map<string, Volume>,
                         iogrps: seq<IogrpRow>, fabric: seq<string>, faults: seq<bool>)

  predicate Up(s: State) { s.faults == [] || s.faults[0] }

  function Spend(s: State): State {
    s.(faults := if s.faults == [] then [] else s.faults[1..])
  }

  /** Whether the i-th command or query from now on gets through. */
  predicate Answers(s: State, i: nat) { i >= |s.faults| || s.faults[i] }

  predicate HostExists(hosts: seq<Host>, name: string) {
    exists h | h in hosts :: h.name == name
  }

  function RowsOf(rows: seq<MapRow>, volume: string): seq<MapRow> {
    Filter(rows, (r: MapRow) => r.volume == volume)
  }

  function RowsTo(rows: seq<MapRow>, host: string): seq<MapRow> {
    Filter(rows, (r: MapRow) => r.host == host)
  }

  predicate IsMapped(rows: seq<MapRow>, volume: string, host: string) {
    exists r | r in rows :: r.volume == volume && r.host == host
  }

  /* ---- commands ---- */

  datatype Port = Iscsi(name: string) | Wwpn(name: string)

  predicate HasPort(h: Host, port: Port) {
    match port
    case Iscsi(name) => h.iscsi == Some(name)
    case Wwpn(name) => exists w | w in h.wwpns :: SameWwpn(w, name)
  }

  predicate PortFree(hosts: seq<Host>, port: Port) {
    forall h | h in hosts :: !HasPort(h, port)
  }

  datatype Command =
    | MkHost(name: string, port: Port, site: string)
    | AddHostPort(name: string, wwpn: string)
    | RmHost(name: string)
    | MkVdiskHostMap(host: string, volume: string)
    | RmVdiskHostMap(host: string, volume: string)

  predicate Can(s: State, c: Command) {
    match c
    case MkHost(name, port, _) =>
      name != "" && port.name != "" && !HostExists(s.hosts, name) && PortFree(s.hosts, port)
    case AddHostPort(name, wwpn) => wwpn != "" && HostExists(s.hosts, name) && PortFree(s.hosts, Wwpn(wwpn))
    case RmHost(name) => HostExists(s.hosts, name) && forall r | r in s.rows :: r.host != name
    case MkVdiskHostMap(host, volume) =>
      HostExists(s.hosts, host) && volume in s.volumes && !IsMapped(s.rows, volume, host)
    case RmVdiskHostMap(host, volume) => IsMapped(s.rows, volume, host)
  }

  /** A SCSI id no row of the host uses. */
  function NextScsi(rows: seq<MapRow>, host: string): (id: nat)
    ensures forall r | r in rows && r.host == host :: r.scsi < id
  {
    if rows == [] then 0
    else
      var rest := NextScsi(rows[1..], host);
      assert forall r | r in rows :: r == rows[0] || r in rows[1..];
      if rows[0].host == host && rows[0].scsi >= rest then rows[0].scsi + 1 else rest
  }

  /** The rows of a new mapping, one for each I/O group. */
  function NewRows(volume: string, host: string, groups: seq<string>, scsi: nat): (rows: seq<MapRow>)
    ensures |rows| == |groups|
    ensures forall i | 0 <= i < |rows| :: rows[i] == MapRow(volume, host, groups[i], scsi)
  {
    seq(|groups|, i requires 0 <= i < |groups| => MapRow(volume, host, groups[i], scsi))
  }

  function NewHost(name: string, port: Port, site: string): Host {
    match port
    case Iscsi(n) => Host(name, Some(n), [], site)
    case Wwpn(n) => Host(name, None, [n], site)
  }

  function WithPort(hosts: seq<Host>, name: string, wwpn: string): (after: seq<Host>)
    ensures |after| == |hosts|
    ensures forall i | 0 <= i < |hosts| ::
      after[i] == if hosts[i].name == name then hosts[i].(wwpns := hosts[i].wwpns + [wwpn]) else hosts[i]
  {
    seq(|hosts|, i requires 0 <= i < |hosts| =>
      if hosts[i].name == name then hosts[i].(wwpns := hosts[i].wwpns + [wwpn]) else hosts[i])
  }

  function DropHost(hosts: seq<Host>, name: string): seq<Host> { Filter(hosts, (h: Host) => h.name != name) }

  function DropRows(rows: seq<MapRow>, volume: string, host: string): seq<MapRow> {
    Filter(rows, (r: MapRow) => r.volume != volume || r.host != host)
  }

  function Apply(s: State, c: Command): State
    requires Can(s, c)
  {
    match c
    case MkHost(name, port, site) => s.(hosts := s.hosts + [NewHost(name, port, site)])
    case AddHostPort(name, wwpn) => s.(hosts := WithPort(s.hosts, name, wwpn))
    case RmHost(name) => s.(hosts := DropHost(s.hosts, name))
    case MkVdiskHostMap(host, volume) =>
      s.(rows := s.rows + NewRows(volume, host, s.volumes[volume].groups, NextScsi(s.rows, host)))
    case RmVdiskHostMap(host, volume) => s.(rows := DropRows(s.rows, volume, host))
  }

  function Execute(s: State, c: Command): (State, bool) {
    var ok := Up(s) && Can(s, c);
    ((if ok then Apply(s, c) else s).(faults := Spend(s).faults), ok)
  }

  /* ---- queries ---- */

  datatype FabricRow = FabricRow(remote: string, host: string)

  /** The name of the host object that holds a WWPN, empty without one. */
  function Owner(hosts: seq<Host>, wwpn: string): string {
    if hosts == [] then "" else if HasPort(hosts[0], Wwpn(wwpn)) then hosts[0].name else Owner(hosts[1..], wwpn)
  }

  function FabricRows(fabric: seq<string>, hosts: seq<Host>, wwpn: string): seq<FabricRow> {
    if fabric == [] then []
    else
      var rest := FabricRows(fabric[1..], hosts, wwpn);
      if SameWwpn(fabric[0], wwpn) then [FabricRow(fabric[0], Owner(hosts, fabric[0]))] + rest else rest
  }

  /** The one row of `lshost NAME`; all its columns are empty when there is no such host. */
  datatype HostRow = HostRow(name: string, iscsi: string)

  function HostRowOf(hosts: seq<Host>, name: string): HostRow {
    if hosts == [] then HostRow("", "")
    else if hosts[0].name == name then HostRow(name, if hosts[0].iscsi.Some? then hosts[0].iscsi.value else "")
    else HostRowOf(hosts[1..], name)
  }

  /** The CLI connection. */
  class CliArray {
    var hosts: seq<Host>
    var rows: seq<MapRow>
    const volumes: map<string, Volume>
    const iogrps: seq<IogrpRow>
    const fabric: seq<string>
    var faults: seq<bool>

    constructor (s: State)
      ensures Current() == s
    {
      hosts, rows, volumes, iogrps, fabric, faults := s.hosts, s.rows, s.volumes, s.iogrps, s.fabric, s.faults;
    }

    function Current(): State
      reads this
    {
      State(hosts, rows, volumes, iogrps, fabric, faults)
    }

    method Answer() returns (up: bool)
      modifies this`faults
      ensures up == Up(old(Current())) && Current() == Spend(old(Current()))
    {
      up := faults == [] || faults[0];
      faults := if faults == [] then [] else faults[1..];
    }

    method Run(c: Command) returns (ok: bool)
      modifies this
      ensures (Current(), ok) == Execute(old(Current()), c)
    {
      var before := Current();
      ok := Answer();
      ok := ok && Can(before, c);
      if ok {
        var after := Apply(before, c);
        hosts, rows := after.hosts, after.rows;
      }
    }
  }
}
