/** What every run of attaches and detaches keeps, whatever fails: host objects have distinct names, every row
    is of a host object that exists, and a volume stays mapped to a host object until it is detached from
    that very object. */
module HostKept {
  import opened Wrappers
  import opened HostArray
  import opened Hosts
  import opened HostLookup
  import opened HostOutcomes
  import opened HostFaults

  /** `pair`, when there is one, is a volume and the host object it is mapped to. */
  ghost predicate Kept(s: State, pair: Option<(string, string)>) {
    Sane(s.hosts) && RowsAttached(s) && (pair.Some? ==> IsMapped(s.rows, pair.value.0, pair.value.1))
  }

  /** Not the command that unmaps the pair. */
  predicate Spares(c: Command, pair: Option<(string, string)>) {
    pair.Some? ==> c != RmVdiskHostMap(pair.value.1, pair.value.0)
  }

  lemma {:induction false} HostMade(s: State, h: Host)
    requires Sane(s.hosts) && RowsAttached(s) && h.name != "" && !HostExists(s.hosts, h.name)
    ensures Sane(s.hosts + [h]) && RowsAttached(s.(hosts := s.hosts + [h]))
  {
    hide HostExists;
    forall name | HostExists(s.hosts, name) ensures HostExists(s.hosts + [h], name) { MoreHosts(s.hosts, h, name); }
    forall g | g in s.hosts ensures g.name != h.name { NamedHost(s.hosts, g); }
  }

  lemma {:induction false} MoreHosts(hosts: seq<Host>, h: Host, name: string)
    requires HostExists(hosts, name)
    ensures HostExists(hosts + [h], name)
  {
    var g :| g in hosts && g.name == name;
    assert g in hosts + [h];
  }

  lemma {:induction false} NamedHost(hosts: seq<Host>, h: Host)
    requires h in hosts
    ensures HostExists(hosts, h.name)
  {}

  lemma {:induction false} PortAdded(s: State, name: string, wwpn: string)
    requires Sane(s.hosts) && RowsAttached(s)
    ensures Sane(WithPort(s.hosts, name, wwpn)) && RowsAttached(s.(hosts := WithPort(s.hosts, name, wwpn)))
  {
    var after := WithPort(s.hosts, name, wwpn);
    forall r | r in s.rows ensures HostExists(after, r.host) {
      var h :| h in s.hosts && h.name == r.host;
      var i :| 0 <= i < |s.hosts| && s.hosts[i] == h;
      assert after[i] in after;
    }
    forall h | h in after ensures h.name != "" {
      var i :| 0 <= i < |after| && after[i] == h;
      assert s.hosts[i] in s.hosts;
    }
  }

  lemma {:induction false} HostDropped(s: State, name: string)
    requires Sane(s.hosts) && RowsAttached(s) && forall r | r in s.rows :: r.host != name
    ensures Sane(DropHost(s.hosts, name)) && RowsAttached(s.(hosts := DropHost(s.hosts, name)))
  {
    var after := DropHost(s.hosts, name);
    DistinctAfterDrop(s.hosts, name);
    forall r | r in s.rows ensures HostExists(after, r.host) {
      var h :| h in s.hosts && h.name == r.host;
      assert h in after;
    }
  }

  lemma {:induction false} DistinctAfterDrop(hosts: seq<Host>, name: string)
    requires Sane(hosts)
    ensures Sane(DropHost(hosts, name))
  {
    if hosts != [] {
      assert Sane(hosts[1..]) by { assert forall h | h in hosts[1..] :: h in hosts; }
      DistinctAfterDrop(hosts[1..], name);
      var rest := DropHost(hosts[1..], name);
      assert DropHost(hosts, name) == if hosts[0].name != name then [hosts[0]] + rest else rest;
      assert hosts[0] in hosts;
      forall h | h in rest ensures h.name != hosts[0].name {
        var i :| 0 <= i < |hosts[1..]| && hosts[1..][i] == h;
        assert hosts[i + 1] == h;
      }
    }
  }

  lemma {:induction false} RowsMoreOrLess(s: State, rows: seq<MapRow>)
    requires RowsAttached(s) && forall r | r in rows :: r in s.rows || HostExists(s.hosts, r.host)
    ensures RowsAttached(s.(rows := rows))
  {}

  lemma {:induction false} MoreRows(rows: seq<MapRow>, more: seq<MapRow>, v: string, h: string)
    requires IsMapped(rows, v, h)
    ensures IsMapped(rows + more, v, h)
  {
    var r :| r in rows && r.volume == v && r.host == h;
    assert r in rows + more;
  }

  /** Every command but the one that unmaps the pair, carried out or not. */
  lemma {:induction false} CommandKeeps(s: State, c: Command, pair: Option<(string, string)>)
    requires Kept(s, pair) && Spares(c, pair)
    ensures Kept(Execute(s, c).0, pair)
  {
    hide HostExists, IsMapped, Sane, DropHost, DropRows, WithPort, NextScsi;
    if Up(s) && Can(s, c) {
      match c {
        case MkHost(name, port, site) => HostMade(s, NewHost(name, port, site));
        case AddHostPort(name, wwpn) => PortAdded(s, name, wwpn);
        case RmHost(name) => HostDropped(s, name);
        case MkVdiskHostMap(host, volume) =>
          var more := NewRows(volume, host, s.volumes[volume].groups, NextScsi(s.rows, host));
          forall r | r in s.rows + more && r !in s.rows ensures r.host == host {
            var i :| 0 <= i < |more| && more[i] == r;
          }
          RowsMoreOrLess(s, s.rows + more);
          if pair.Some? { MoreRows(s.rows, more, pair.value.0, pair.value.1); }
        case RmVdiskHostMap(host, volume) =>
          FewerRows(s.rows, volume, host);
          RowsMoreOrLess(s, DropRows(s.rows, volume, host));
          DroppedMapped(s.rows, volume, host);
      }
    }
  }

  lemma {:induction false} FewerRows(rows: seq<MapRow>, volume: string, host: string)
    ensures forall r | r in DropRows(rows, volume, host) :: r in rows
  {}

  ghost predicate CommandsKeep(pair: Option<(string, string)>) {
    && (forall s, c | Kept(s, pair) && Spares(c, pair) :: Kept(Execute(s, c).0, pair))
    && (forall s, t | Kept(s, pair) && SameTables(s, t) :: Kept(t, pair))
  }

  lemma {:induction false} AllCommandsKeep(pair: Option<(string, string)>)
    ensures CommandsKeep(pair)
  {
    hide Kept, Execute, Spares, SameTables;
    forall s, c | Kept(s, pair) && Spares(c, pair) ensures Kept(Execute(s, c).0, pair) { CommandKeeps(s, c, pair); }
    forall s, t | Kept(s, pair) && SameTables(s, t) ensures Kept(t, pair) { SameKept(s, t, pair); }
  }

  lemma {:induction false} SameKept(s: State, t: State, pair: Option<(string, string)>)
    requires Kept(s, pair) && SameTables(s, t)
    ensures Kept(t, pair)
  {}

  /* ---- the operations ---- */

  lemma {:induction false} PortsKeep(s: State, hostname: string, wwpns: seq<string>, pair: Option<(string, string)>)
    requires Kept(s, pair)
    ensures Kept(AddPorts(s, hostname, wwpns).0, pair)
    decreases |wwpns|
  {
    hide Kept, Execute;
    AllCommandsKeep(pair);
    if wwpns != [] {
      var (s1, ok) := Execute(s, AddHostPort(hostname, wwpns[0]));
      if ok { PortsKeep(s1, hostname, wwpns[1..], pair); }
    }
  }

  lemma {:induction false} CreationKeeps(s: State, info: HostInfo, site: string, pair: Option<(string, string)>)
    requires Kept(s, pair)
    ensures Kept(CreateHost(s, info, site).0, pair)
  {
    hide Kept, Execute, AddPorts;
    AllCommandsKeep(pair);
    if info.initiator != "" || info.wwpns != [] {
      var first := if info.initiator != "" then Iscsi(info.initiator) else Wwpn(info.wwpns[0]);
      var s1 := Execute(s, MkHost(info.hostname, first, site)).0;
      PortsKeep(s1, info.hostname, if info.initiator != "" then info.wwpns else info.wwpns[1..], pair);
    }
  }

  lemma {:induction false} AttachKeeps(s: State, volume: string, info: HostInfo, pair: Option<(string, string)>)
    requires Kept(s, pair)
    ensures Kept(Attach(s, volume, info).0, pair)
  {
    hide Kept, Execute, HostFor, PreferSite, CreateHost, LunsOf;
    AllCommandsKeep(pair);
    var (s1, found) := HostFor(s, info);
    SearchKeeps(s, info);
    SiteKeeps(s1, volume);
    var (s2, site) := PreferSite(s1, volume);
    if site.Ok? { CreationKeeps(s2, info, site.value, pair); }
  }

  lemma {:induction false} DetachKeeps(s: State, volume: string, info: HostInfo, pair: Option<(string, string)>)
    requires Kept(s, pair) && (pair.Some? && pair.value.0 == volume ==> HostFor(s, info).1 != Ok(pair.value.1))
    ensures Kept(Detach(s, volume, info).0, pair)
  {
    hide Kept, Execute, HostFor, RowsTo, RowsOf, FirstHost;
    AllCommandsKeep(pair);
    var (s1, found) := HostFor(s, info);
    SearchKeeps(s, info);
    if found.Ok? && found.value != "" { FirstHostFacts(RowsOf(s1.rows, volume), found.value); }
  }

  /* ---- runs ---- */

  datatype Call = AttachOf(volume: string, info: HostInfo) | DetachOf(volume: string, info: HostInfo)

  function Step(s: State, call: Call): State {
    match call
    case AttachOf(volume, info) => Attach(s, volume, info).0
    case DetachOf(volume, info) => Detach(s, volume, info).0
  }

  function Run(s: State, calls: seq<Call>): State
    decreases |calls|
  {
    if calls == [] then s else Run(Step(s, calls[0]), calls[1..])
  }

  /** No call detaches the volume from a host whose search, at that point, answers with the host object. */
  ghost predicate Unmolested(s: State, calls: seq<Call>, volume: string, host: string)
    decreases |calls|
  {
    calls == []
    || ((calls[0].DetachOf? && calls[0].volume == volume ==> HostFor(s, calls[0].info).1 != Ok(host))
        && Unmolested(Step(s, calls[0]), calls[1..], volume, host))
  }

  /** Over every run with any failures: names stay distinct and rows stay with host objects that exist. */
  lemma {:induction false} HostRun(s: State, calls: seq<Call>)
    requires Sane(s.hosts) && RowsAttached(s)
    ensures Sane(Run(s, calls).hosts) && RowsAttached(Run(s, calls))
    decreases |calls|
  {
    hide Attach, Detach, Sane, RowsAttached;
    if calls != [] {
      match calls[0] {
        case AttachOf(volume, info) => AttachKeeps(s, volume, info, None);
        case DetachOf(volume, info) => DetachKeeps(s, volume, info, None);
      }
      HostRun(Step(s, calls[0]), calls[1..]);
    }
  }

  /** Over every run with any failures: a volume mapped to a host object stays mapped to it, and the object stays,
      as long as the volume is not detached from a host that is found to be this object. */
  lemma {:induction false} MappingSurvives(s: State, calls: seq<Call>, volume: string, host: string)
    requires Sane(s.hosts) && RowsAttached(s) && IsMapped(s.rows, volume, host) && Unmolested(s, calls, volume, host)
    ensures IsMapped(Run(s, calls).rows, volume, host) && HostExists(Run(s, calls).hosts, host)
    decreases |calls|
  {
    hide Attach, Detach, Sane, HostFor, HostExists, Unmolested;
    var pair := Some((volume, host));
    if calls == [] {
      assert exists r | r in s.rows :: r.host == host;
    } else {
      OneStep(s, calls, volume, host);
      match calls[0] {
        case AttachOf(v, info) => AttachKeeps(s, v, info, pair);
        case DetachOf(v, info) => DetachKeeps(s, v, info, pair);
      }
      MappingSurvives(Step(s, calls[0]), calls[1..], volume, host);
    }
  }

  lemma {:induction false} OneStep(s: State, calls: seq<Call>, volume: string, host: string)
    requires Unmolested(s, calls, volume, host) && calls != []
    ensures calls[0].DetachOf? && calls[0].volume == volume ==> HostFor(s, calls[0].info).1 != Ok(host)
    ensures Unmolested(Step(s, calls[0]), calls[1..], volume, host)
  {
    hide Attach, Detach, HostFor;
  }
}
