/** Runs of attaches and detaches: the array's host objects and rows refine a plain set of (volume, host)
    pairs. */
module HostRuns {
  import opened Wrappers
  import opened HostArray
  import opened Hosts
  import opened HostLookup
  import opened HostOutcomes

  /** The hosts of the cluster, by name, as each describes itself in its calls. */
  type Roster = map<string, HostInfo>

  type Held = set<(string, string)>

  predicate SharePort(a: HostInfo, b: HostInfo) {
    || (a.initiator != "" && a.initiator == b.initiator)
    || exists v, w | v in a.wwpns && w in b.wwpns :: SameWwpn(v, w)
  }

  /** Every host has a name and distinct ports, and no two hosts share a port. */
  predicate ValidRoster(roster: Roster) {
    && (forall n | n in roster ::
          && n != "" && roster[n].hostname == n
          && (roster[n].initiator != "" || roster[n].wwpns != []) && "" !in roster[n].wwpns
          && DistinctWwpns(roster[n].wwpns))
    && (forall m, n | m in roster && n in roster && m != n :: !SharePort(roster[m], roster[n]))
  }

  predicate FromRoster(hosts: seq<Host>, roster: Roster) {
    forall h | h in hosts :: h.name in roster && h == FullHost(roster[h.name], h.site)
  }

  /** Every host object is one the driver created, there is one for a host exactly while it holds some
      volume, and the rows are those of the held pairs. */
  ghost predicate Refines(s: State, roster: Roster, held: Held) {
    && s.faults == [] && ValidRoster(roster)
    && Sane(s.hosts) && FromRoster(s.hosts, roster)
    && (forall n :: HostExists(s.hosts, n) <==> exists v :: (v, n) in held)
    && (forall v, n :: IsMapped(s.rows, v, n) <==> (v, n) in held)
  }

  /* ---- looking up ---- */

  /** What a caller may know of a host: some of its ports, its name or not. */
  predicate ViewOf(view: HostInfo, info: HostInfo) {
    && (view.hostname == "" || view.hostname == info.hostname)
    && (view.initiator == "" || view.initiator == info.initiator)
    && (forall w | w in view.wwpns :: exists x | x in info.wwpns :: SameWwpn(w, x))
  }

  lemma {:induction false} PortOfOther(roster: Roster, h: Host, n: string, view: HostInfo)
    requires ValidRoster(roster) && n in roster && ViewOf(view, roster[n])
    requires h.name in roster && h.name != n && h == FullHost(roster[h.name], h.site)
    ensures !MatchesInitiator(h, view.initiator)
    ensures forall w | w in view.wwpns :: !HasPort(h, Wwpn(w))
  {
    assert !SharePort(roster[h.name], roster[n]);
    forall w | w in view.wwpns ensures !HasPort(h, Wwpn(w)) {
      var x :| x in roster[n].wwpns && SameWwpn(w, x);
      forall v | v in h.wwpns ensures !SameWwpn(v, w) { assert SameWwpn(v, w) ==> SameWwpn(v, x); }
    }
  }

  lemma {:induction false} OnlyOwnMatch(s: State, roster: Roster, n: string, view: HostInfo)
    requires ValidRoster(roster) && Sane(s.hosts) && FromRoster(s.hosts, roster)
    requires n in roster && ViewOf(view, roster[n])
    ensures OnlyMatch(s, view, n)
  {
    hide FullHost, ViewOf, HasPort, LoggedIn, MatchesInitiator;
    forall h | h in s.hosts && h.name != n ensures !Matches(s, h, view) {
      assert h.name in roster && h == FullHost(roster[h.name], h.site);
      PortOfOther(roster, h, n, view);
      NotByName(h, roster[n], n, view);
    }
  }

  lemma {:induction false} NotByName(h: Host, info: HostInfo, n: string, view: HostInfo)
    requires h.name != n && h.name != "" && info.hostname == n && ViewOf(view, info)
    ensures h.name != view.hostname
  {}

  /** Look-up by initiator alone, by name alone and by everything together agree: each finds the host's
      own object when there is one and nothing otherwise. */
  lemma {:induction false} LookupsAgree(s: State, roster: Roster, held: Held, n: string, view: HostInfo)
    requires Refines(s, roster, held) && n in roster && ViewOf(view, roster[n])
    requires view.hostname == n || view.initiator != ""
    ensures HostFor(s, view) == (s, Ok(if exists v :: (v, n) in held then n else ""))
  {
    hide HasPort, LoggedIn;
    OnlyOwnMatch(s, roster, n, view);
    FindsTheMatch(s, view, n);
    hide MatchesWwpn;
    if HostExists(s.hosts, n) {
      var h :| h in s.hosts && h.name == n;
      assert Matches(s, h, view);
    }
  }

  lemma {:induction false} WholeView(roster: Roster, n: string)
    requires ValidRoster(roster) && n in roster
    ensures ViewOf(roster[n], roster[n]) && roster[n].hostname == n && n != "" && "" !in roster[n].wwpns
  {
    assert forall w: string :: SameWwpn(w, w);
  }

  lemma {:induction false} MatchIffExists(s: State, roster: Roster, n: string)
    requires ValidRoster(roster) && Sane(s.hosts) && FromRoster(s.hosts, roster) && n in roster
    ensures OnlyMatch(s, roster[n], n)
    ensures SomeMatch(s, roster[n]) <==> HostExists(s.hosts, n)
  {
    WholeView(roster, n);
    OnlyOwnMatch(s, roster, n, roster[n]);
    hide MatchesWwpn, MatchesInitiator;
    if HostExists(s.hosts, n) {
      var h :| h in s.hosts && h.name == n;
      assert Matches(s, h, roster[n]);
    }
  }

  /* ---- one call ---- */

  lemma {:induction false} NewHostCreatable(s: State, roster: Roster, n: string)
    requires ValidRoster(roster) && Sane(s.hosts) && FromRoster(s.hosts, roster) && n in roster
    requires !HostExists(s.hosts, n)
    ensures Creatable(s.hosts, roster[n])
  {
    hide HasPort;
    WholeView(roster, n);
    forall h | h in s.hosts
      ensures !MatchesInitiator(h, roster[n].initiator) && forall w | w in roster[n].wwpns :: !HasPort(h, Wwpn(w))
    {
      PortOfOther(roster, h, n, roster[n]);
    }
    assert forall h: Host, i | i != "" :: HasPort(h, Iscsi(i)) <==> MatchesInitiator(h, i) by { InitiatorPort(); }
  }

  lemma {:induction false} InitiatorPort()
    ensures forall h: Host, i: string | i != "" :: HasPort(h, Iscsi(i)) <==> MatchesInitiator(h, i)
  {}

  lemma {:induction false} AddedHost(hosts: seq<Host>, roster: Roster, n: string, site: string)
    requires Sane(hosts) && FromRoster(hosts, roster) && n in roster && roster[n].hostname == n && n != ""
    requires !HostExists(hosts, n)
    ensures var after := hosts + [FullHost(roster[n], site)];
      && Sane(after) && FromRoster(after, roster)
      && forall m :: HostExists(after, m) <==> HostExists(hosts, m) || m == n
  {
    var after := hosts + [FullHost(roster[n], site)];
    assert FullHost(roster[n], site) in after;
    assert forall h | h in hosts :: h in after;
  }

  /** An attach adds its pair. A second attach finds the mapping, answers with the same SCSI ids and
      changes nothing. */
  lemma {:induction false} AttachRefines(s: State, roster: Roster, held: Held, volume: string, n: string)
    requires Refines(s, roster, held) && n in roster && Mappable(s, volume) && SiteOf(s, volume).Ok?
    ensures var (t, r) := Attach(s, volume, roster[n]);
      && Refines(t, roster, held + {(volume, n)})
      && r == Ok(LunsOf(t, volume, n)) && r.value.Some?
      && s.rows <= t.rows && t.volumes == s.volumes && t.iogrps == s.iogrps
      && ((volume, n) in held ==> t == s)
  {
    hide Attach, Sane, FromRoster, ValidRoster, LunsOf, Creatable, SiteOf, SomeMatch, FullHost, NewRows, IsMapped;
    MatchIffExists(s, roster, n);
    WholeView(roster, n);
    MappedFacts(s, volume, n);
    if HostExists(s.hosts, n) {
      AttachKnown(s, volume, roster[n], n);
      HeldAdd(s, Mapped(s, volume, n), roster, held, volume, n);
    } else {
      var s1 := s.(hosts := s.hosts + [FullHost(roster[n], SiteOf(s, volume).value)]);
      NewHostCreatable(s, roster, n);
      HeldRowsAttached(s, roster, held);
      AttachNew(s, volume, roster[n]);
      AddedHost(s.hosts, roster, n, SiteOf(s, volume).value);
      MappedFacts(s1, volume, n);
      HeldAdd(s, Mapped(s1, volume, n), roster, held, volume, n);
    }
  }

  lemma {:induction false} HeldRowsAttached(s: State, roster: Roster, held: Held)
    requires Refines(s, roster, held)
    ensures RowsAttached(s)
  {
    forall r | r in s.rows ensures HostExists(s.hosts, r.host) {
      assert IsMapped(s.rows, r.volume, r.host);
    }
  }

  lemma {:induction false} HeldAdd(s: State, t: State, roster: Roster, held: Held, volume: string, n: string)
    requires Refines(s, roster, held)
    requires t.faults == [] && Sane(t.hosts) && FromRoster(t.hosts, roster)
    requires forall m :: HostExists(t.hosts, m) <==> HostExists(s.hosts, m) || m == n
    requires forall v, m :: IsMapped(t.rows, v, m) <==> IsMapped(s.rows, v, m) || (v == volume && m == n)
    ensures Refines(t, roster, held + {(volume, n)})
  {
    hide HostExists, IsMapped, Sane, FromRoster, ValidRoster;
    var held' := held + {(volume, n)};
    forall m ensures HostExists(t.hosts, m) <==> exists v :: (v, m) in held' {
      if m == n { assert (volume, m) in held'; }
      if v :| (v, m) in held { assert (v, m) in held'; }
    }
  }

  lemma {:induction false} DroppedHost(hosts: seq<Host>, roster: Roster, n: string)
    requires Sane(hosts) && FromRoster(hosts, roster)
    ensures Sane(DropHost(hosts, n)) && FromRoster(DropHost(hosts, n), roster)
    ensures forall m :: HostExists(DropHost(hosts, n), m) <==> HostExists(hosts, m) && m != n
  {
    DropKeepsSane(hosts, n);
    forall m | HostExists(hosts, m) && m != n ensures HostExists(DropHost(hosts, n), m) {
      var h :| h in hosts && h.name == m;
      assert h in DropHost(hosts, n);
    }
  }

  lemma {:induction false} DropKeepsSane(hosts: seq<Host>, n: string)
    requires Sane(hosts)
    ensures Sane(DropHost(hosts, n))
  {
    if hosts != [] {
      DropKeepsSane(hosts[1..], n);
      var rest := DropHost(hosts[1..], n);
      forall j | 0 <= j < |rest| ensures rest[j].name != hosts[0].name {
        assert rest[j] in rest;
        var i :| 0 <= i < |hosts[1..]| && hosts[1..][i] == rest[j];
        assert hosts[i + 1] == rest[j];
      }
    }
  }

  /** A detach takes its pair out; the detach of a volume the host does not hold changes nothing. */
  lemma {:induction false} DetachRefines(s: State, roster: Roster, held: Held, volume: string, n: string)
    requires Refines(s, roster, held) && n in roster
    ensures var (t, r) := Detach(s, volume, roster[n]);
      && r == Ok(()) && t.volumes == s.volumes && t.iogrps == s.iogrps
      && Refines(t, roster, held - {(volume, n)})
      && ((volume, n) !in held ==> t == s)
  {
    hide Detach, Sane, FromRoster, ValidRoster, SomeMatch, DropHost, DropRows, RowsTo, IsMapped;
    MatchIffExists(s, roster, n);
    WholeView(roster, n);
    DetachExact(s, volume, roster[n], n);
    if HostExists(s.hosts, n) {
      var rows := DropRows(s.rows, volume, n);
      DroppedMapped(s.rows, volume, n);
      DroppedHost(s.hosts, roster, n);
      NoRowsTo(rows, n);
      HeldLess(s, Detach(s, volume, roster[n]).0, roster, held, volume, n);
      if (volume, n) !in held {
        NothingDropped(s.rows, volume, n);
        var v :| (v, n) in held;
        assert IsMapped(s.rows, v, n);
      }
    } else {
      assert (volume, n) !in held;
      assert held - {(volume, n)} == held;
    }
  }

  lemma {:induction false} HeldLess(s: State, t: State, roster: Roster, held: Held, volume: string, n: string)
    requires Refines(s, roster, held) && HostExists(s.hosts, n)
    requires t.faults == [] && Sane(t.hosts) && FromRoster(t.hosts, roster)
    requires forall v, m :: IsMapped(t.rows, v, m) <==> IsMapped(s.rows, v, m) && (v != volume || m != n)
    requires forall m | m != n :: HostExists(t.hosts, m) <==> HostExists(s.hosts, m)
    requires HostExists(t.hosts, n) <==> exists v :: IsMapped(t.rows, v, n)
    ensures Refines(t, roster, held - {(volume, n)})
  {
    hide HostExists, IsMapped, Sane, FromRoster, ValidRoster;
    var held' := held - {(volume, n)};
    forall m ensures HostExists(t.hosts, m) <==> exists v :: (v, m) in held' {
      if m == n {
        if v :| IsMapped(t.rows, v, n) { assert (v, m) in held'; }
        if v :| (v, m) in held' { assert IsMapped(t.rows, v, n); }
      } else {
        if v :| (v, m) in held { assert (v, m) in held'; }
        if v :| (v, m) in held' { assert (v, m) in held; }
      }
    }
  }

  /* ---- runs ---- */

  datatype Call = AttachCall(volume: string, host: string) | DetachCall(volume: string, host: string)

  function Step(s: State, roster: Roster, call: Call): State
    requires call.host in roster
  {
    match call
    case AttachCall(volume, n) => Attach(s, volume, roster[n]).0
    case DetachCall(volume, n) => Detach(s, volume, roster[n]).0
  }

  /** The volume can be mapped, and its preferred site is found. */
  predicate Attachable(s: State, volume: string) { Mappable(s, volume) && SiteOf(s.(faults := []), volume).Ok? }

  predicate CallsFor(s: State, calls: seq<Call>, roster: Roster) {
    forall call | call in calls ::
      call.host in roster && (call.AttachCall? ==> Attachable(s, call.volume))
  }

  function Run(s: State, roster: Roster, calls: seq<Call>): State
    requires forall call | call in calls :: call.host in roster
    decreases |calls|
  {
    if calls == [] then s
    else
      assert calls[0] in calls;
      Run(Step(s, roster, calls[0]), roster, calls[1..])
  }

  /** The plain set the array is to refine. */
  function HeldAfter(held: Held, calls: seq<Call>): Held
    decreases |calls|
  {
    if calls == [] then held
    else
      var pair := (calls[0].volume, calls[0].host);
      HeldAfter(if calls[0].AttachCall? then held + {pair} else held - {pair}, calls[1..])
  }

  lemma {:induction false} CallsStayGood(s: State, t: State, calls: seq<Call>, roster: Roster)
    requires CallsFor(s, calls, roster) && t.volumes == s.volumes && t.iogrps == s.iogrps
    ensures CallsFor(t, calls, roster)
  {
    hide MasterGroup, SiteNamed;
  }

  /** Over every fault-free run by hosts the driver created, host objects and rows refine the set of held
      pairs: a host object exists exactly while the host holds a volume. */
  lemma {:induction false} HostRefinement(s: State, roster: Roster, held: Held, calls: seq<Call>)
    requires Refines(s, roster, held) && CallsFor(s, calls, roster)
    ensures Refines(Run(s, roster, calls), roster, HeldAfter(held, calls))
    decreases |calls|
  {
    hide Refines, Attach, Detach, Mappable, SiteOf;
    if calls != [] {
      var call := calls[0];
      assert call in calls;
      NoFaults(s, roster, held);
      if call.AttachCall? {
        assert s.(faults := []) == s;
        AttachRefines(s, roster, held, call.volume, call.host);
        CallsStayGood(s, Step(s, roster, call), calls[1..], roster);
        HostRefinement(Step(s, roster, call), roster, held + {(call.volume, call.host)}, calls[1..]);
      } else {
        DetachRefines(s, roster, held, call.volume, call.host);
        CallsStayGood(s, Step(s, roster, call), calls[1..], roster);
        HostRefinement(Step(s, roster, call), roster, held - {(call.volume, call.host)}, calls[1..]);
      }
    }
  }

  lemma {:induction false} NoFaults(s: State, roster: Roster, held: Held)
    requires Refines(s, roster, held)
    ensures s.faults == []
  {}

  lemma {:induction false} EmptyArrayRefines(s: State, roster: Roster)
    requires s.faults == [] && s.hosts == [] && s.rows == [] && ValidRoster(roster)
    ensures Refines(s, roster, {})
  {}

  /** From an array without host objects, the held pairs are those of the calls themselves. */
  lemma {:induction false} HostsFromEmpty(s: State, roster: Roster, calls: seq<Call>)
    requires s.faults == [] && s.hosts == [] && s.rows == [] && ValidRoster(roster) && CallsFor(s, calls, roster)
    ensures Refines(Run(s, roster, calls), roster, HeldAfter({}, calls))
  {
    hide Refines, Run, CallsFor, ValidRoster;
    EmptyArrayRefines(s, roster);
    HostRefinement(s, roster, {}, calls);
  }

  /** Attaching a volume that does not exist from a host without an object reaches the state in which the
      failed attach leaves an empty host object; detaching any volume from that host removes it. */
  lemma {:induction false} EmptyHostLeft(s: State, roster: Roster, held: Held, volume: string, other: string, n: string)
    requires Refines(s, roster, held) && n in roster && !HostExists(s.hosts, n) && volume !in s.volumes
    ensures var (t, r) := Attach(s, volume, roster[n]);
      && r.Err? && HostExists(t.hosts, n) && (forall v :: !IsMapped(t.rows, v, n))
      && Detach(t, other, roster[n]) == (s, Ok(()))
  {
    hide Attach, MapToHost, Creatable, Detach, ValidRoster, Sane, FromRoster, SomeMatch, OnlyMatch, IsMapped, FullHost;
    MatchIffExists(s, roster, n);
    WholeView(roster, n);
    NewHostCreatable(s, roster, n);
    HeldRowsAttached(s, roster, held);
    AttachUnknown(s, volume, roster[n]);
    assert SiteOf(s, volume) == Ok("");
    assert forall v :: !IsMapped(s.rows, v, n) by { assert forall v :: (v, n) !in held; }
    var h := FullHost(roster[n], "");
    var t := s.(hosts := s.hosts + [h]);
    HostNamed(roster[n], "");
    assert h in t.hosts;
    MapFails(t, volume, n);
    AddedHost(s.hosts, roster, n, "");
    MatchIffExists(t, roster, n);
    DetachExact(t, other, roster[n], n);
    NothingDropped(s.rows, other, n);
    NoRowsTo(s.rows, n);
    DropNewHost(s.hosts, h);
  }

  lemma {:induction false} HostNamed(info: HostInfo, site: string)
    ensures FullHost(info, site).name == info.hostname
  {}

}
