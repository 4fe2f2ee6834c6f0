/** When the attach fails on the host side: exactly when the controller's detach puts everything back. */
module HostUndo {
  import opened Wrappers
  import opened HostArray
  import opened HostPaths
  import opened Hosts
  import opened HostLookup
  import opened HostOutcomes
  import opened HostRuns
  import opened HostFaults

  lemma {:induction false} DroppedHostGone(hosts: seq<Host>, n: string)
    requires HostExists(hosts, n)
    ensures DropHost(hosts, n) != hosts
  {
    var h :| h in hosts && h.name == n;
    assert h !in DropHost(hosts, n);
  }

  lemma {:induction false} SameMatches(s: State, t: State, info: HostInfo, n: string)
    requires s.hosts == t.hosts && s.fabric == t.fabric
    ensures SomeMatch(s, info) <==> SomeMatch(t, info)
    ensures OnlyMatch(s, info, n) <==> OnlyMatch(t, info, n)
  {
    forall h: Host ensures Matches(s, h, info) <==> Matches(t, h, info) {}
  }

  lemma {:induction false} KnownHostUndone(s: State, volume: string, info: HostInfo, net: Net, n: string)
    requires s.faults == [] && Sane(s.hosts) && OnlyMatch(s, info, n) && SomeMatch(s, info) && Mappable(s, volume)
    requires AttachAndConnect(s, volume, info, net).1.Ok?
    ensures ControllerAttach(s, volume, info, net, false).0 == s
      <==> !IsMapped(s.rows, volume, n) && RowsTo(s.rows, n) != []
  {
    hide Attach, Detach, Connect, Sane, DropHost, DropRows, NewRows, LunsOf, IsMapped, RowsTo;
    AttachKnown(s, volume, info, n);
    ConnectKeeps(Mapped(s, volume, n), OrEmpty(LunsOf(Mapped(s, volume, n), volume, n)), net);
    var t := Mapped(s, volume, n);
    SameMatches(s, t, info, n);
    hide Matches;
    DetachExact(t, volume, info, n);
    MatchExists(s, info, n);
    DroppedHostGone(s.hosts, n);
    if IsMapped(s.rows, volume, n) {
      DroppedMapped(s.rows, volume, n);
      assert !IsMapped(DropRows(s.rows, volume, n), volume, n);
    } else {
      NewRowsDropped(s, volume, n);
    }
  }

  lemma {:induction false} NewHostMatches(s: State, t: State, info: HostInfo, site: string)
    requires Sane(s.hosts) && !SomeMatch(s, info) && Creatable(s.hosts, info)
    requires t.hosts == s.hosts + [FullHost(info, site)] && t.fabric == s.fabric
    ensures Sane(t.hosts) && SomeMatch(t, info) && OnlyMatch(t, info, info.hostname)
  {
    hide MatchesWwpn, MatchesInitiator, PortsFree, DistinctWwpns;
    var h := FullHost(info, site);
    assert h in t.hosts && Matches(t, h, info);
    forall g: Host ensures Matches(s, g, info) <==> Matches(t, g, info) { SameWwpnMatch(s, t, g, info.wwpns); }
    assert forall g | g in t.hosts :: g in s.hosts || g == h;
    assert forall g | g in s.hosts :: g.name != info.hostname;
  }

  lemma {:induction false} SameWwpnMatch(s: State, t: State, h: Host, wwpns: seq<string>)
    requires s.fabric == t.fabric
    ensures MatchesWwpn(s, h, wwpns) <==> MatchesWwpn(t, h, wwpns)
  {}

  lemma {:induction false} NewHostUndone(s: State, volume: string, info: HostInfo, net: Net)
    requires s.faults == [] && Sane(s.hosts) && RowsAttached(s) && !SomeMatch(s, info) && Mappable(s, volume)
    requires AttachAndConnect(s, volume, info, net).1.Ok?
    ensures ControllerAttach(s, volume, info, net, false).0 == s
  {
    hide Attach, Detach, Connect, Sane, DropHost, DropRows, NewRows, LunsOf, RowsTo, Matches, SiteOf;
    AttachUnknown(s, volume, info);
    AttachNew(s, volume, info);
    var h := FullHost(info, SiteOf(s, volume).value);
    var s1 := s.(hosts := s.hosts + [h]);
    var t := Mapped(s1, volume, info.hostname);
    ConnectKeeps(t, OrEmpty(LunsOf(t, volume, info.hostname)), net);
    NewHostMatches(s, t, info, SiteOf(s, volume).value);
    DetachExact(t, volume, info, info.hostname);
    assert forall v :: !IsMapped(s.rows, v, info.hostname);
    NewRowsDropped(s1, volume, info.hostname);
    NoRowsTo(s.rows, info.hostname);
    DropNewHost(s.hosts, h);
  }

  /** A failed attach leaves hosts and rows exactly as they were if and only if no host object matched
      before, or the one that did was not mapped to the volume and was mapped to another. */
  lemma {:induction false} FailedAttachUndone(s: State, volume: string, info: HostInfo, net: Net, n: string)
    requires s.faults == [] && Sane(s.hosts) && RowsAttached(s) && OnlyMatch(s, info, n) && Mappable(s, volume)
    requires AttachAndConnect(s, volume, info, net).1.Ok?
    ensures ControllerAttach(s, volume, info, net, false).0 == s
      <==> !SomeMatch(s, info) || (!IsMapped(s.rows, volume, n) && RowsTo(s.rows, n) != [])
    ensures ControllerAttach(s, volume, info, net, false).1 == Err(HostFailure)
    ensures ControllerAttach(s, volume, info, net, true) == AttachAndConnect(s, volume, info, net)
  {
    assert ControllerAttach(s, volume, info, net, false).1 == Err(HostFailure) by { hide AttachAndConnect, Detach; }
    hide Attach, AttachAndConnect, ControllerAttach, SomeMatch, OnlyMatch;
    if SomeMatch(s, info) {
      KnownHostUndone(s, volume, info, net, n);
    } else {
      NewHostUndone(s, volume, info, net);
    }
  }
}
