/** Attach and detach under any failures: what a failed attach leaves behind, and when a detach that reports
    success leaves the volume mapped. */
module HostFaults {
  import opened Wrappers
  import opened HostArray
  import opened HostPaths
  import opened Hosts
  import opened HostLookup
  import opened HostOutcomes

  predicate SameTables(s: State, t: State) { t == s.(faults := t.faults) }

  /* ---- the search ---- */

  lemma {:induction false} SearchKeeps(s: State, info: HostInfo)
    ensures SameTables(s, HostFor(s, info).0)
  {
    hide RowNamed, FabricRows, HostRowOf;
    WwpnKeeps(s, info.wwpns, false);
    var (s1, byWwpn) := ByWwpn(s, info.wwpns, false);
    if byWwpn.NotFound? && info.initiator != "" { InitiatorKeeps(Spend(s1), s1.hosts, info.initiator, byWwpn.failed); }
  }

  lemma {:induction false} WwpnKeeps(s: State, wwpns: seq<string>, failed: bool)
    ensures SameTables(s, ByWwpn(s, wwpns, failed).0)
    decreases |wwpns|
  {
    hide RowNamed, FabricRows;
    if wwpns != [] {
      WwpnKeeps(s, wwpns[1..], true);
      WwpnKeeps(Spend(s), wwpns[1..], true);
      WwpnKeeps(Spend(s), wwpns[1..], failed);
    }
  }

  lemma {:induction false} InitiatorKeeps(s: State, listed: seq<Host>, initiator: string, failed: bool)
    ensures SameTables(s, ByInitiator(s, listed, initiator, failed).0)
    decreases |listed|
  {
    hide HostRowOf;
    if listed != [] {
      InitiatorKeeps(Spend(s), listed[1..], initiator, true);
      InitiatorKeeps(Spend(s), listed[1..], initiator, failed);
    }
  }

  /** How many answers the two searches use when neither finds a host. */
  function Sent(s: State, info: HostInfo): nat {
    Asked(info.wwpns) + if info.initiator == "" then 0 else 1 + |s.hosts|
  }

  /** The search comes to the conclusion that the host has no object. */
  predicate SeesNoHost(s: State, info: HostInfo) {
    && NeitherFinds(s, info)
    && (if info.hostname == "" then !SomeLookupFails(s, info)
        else Answers(s, Sent(s, info)) && !HostExists(s.hosts, info.hostname))
  }

  /** What the search answers, whatever fails: that there is no host object, the one host object that matches,
      or an error. */
  lemma {:induction false} SearchOutcome(s: State, info: HostInfo, n: string)
    requires Sane(s.hosts) && OnlyMatch(s, info, n)
    ensures var r := HostFor(s, info).1;
      && (r == Ok("") <==> SeesNoHost(s, info))
      && (r.Ok? && r.value != "" ==> r.value == n && SomeMatch(s, info))
  {
    hide ByWwpn, ByInitiator, HostRowOf, NoWwpnHit, SomeWwpnFails, NoInitiatorHit, SomeAnswerMissing, Asked;
    hide MatchesWwpn, MatchesInitiator, SomeMatch, OnlyMatch, RowNamed, FabricRows;
    WwpnOutcome(s, info.wwpns, false);
    var (t, byWwpn) := ByWwpn(s, info.wwpns, false);
    if byWwpn.Named? {
      WwpnNames(s, info, n);
    } else if info.initiator == "" {
      NameOutcome(s, t, info, n, Asked(info.wwpns), byWwpn.failed);
    } else {
      var q := Asked(info.wwpns);
      AnswersFrom(t, Spend(t));
      assert Up(t) <==> Answers(s, q) by { assert Answers(t, 0) <==> Answers(s, 0 + q); }
      AfterOne(s, q, t);
      SearchLater(s, q + 1, Spend(t), s.hosts, info.initiator);
      InitiatorOutcome(Spend(t), t.hosts, info.initiator, byWwpn.failed);
      var (u, byInitiator) := ByInitiator(Spend(t), t.hosts, info.initiator, byWwpn.failed);
      if Up(t) && byInitiator.Named? {
        InitiatorNames(s, info, n, byInitiator.name);
      } else if Up(t) {
        AfterMore(s, q + 1, Spend(t), |t.hosts|, u);
        NameOutcome(s, u, info, n, q + 1 + |s.hosts|, byInitiator.failed);
      }
    }
  }

  lemma {:induction false} AfterOne(s: State, k: nat, t: State)
    requires After(s, k, t)
    ensures After(s, k + 1, Spend(t))
  {
    AnswersFrom(t, Spend(t));
    hide Answers;
    forall i: nat ensures Answers(Spend(t), i) <==> Answers(s, i + (k + 1)) {
      assert Answers(t, i + 1) <==> Answers(s, (i + 1) + k);
    }
  }

  lemma {:induction false} AfterMore(s: State, k: nat, t: State, n: nat, u: State)
    requires After(s, k, t) && After(t, n, u)
    ensures After(s, k + n, u)
  {
    hide Answers;
    forall i: nat ensures Answers(u, i) <==> Answers(s, i + (k + n)) {
      assert Answers(t, i + n) <==> Answers(s, (i + n) + k);
    }
  }

  lemma {:induction false} WwpnNames(s: State, info: HostInfo, n: string)
    requires Sane(s.hosts) && OnlyMatch(s, info, n) && ByWwpn(s, info.wwpns, false).1.Named?
    ensures ByWwpn(s, info.wwpns, false).1.name == n && SomeMatch(s, info)
    ensures n != ""
  {
    hide HasPort, RowNamed, FabricRows;
    WwpnOutcome(s, info.wwpns, false);
    var found := ByWwpn(s, info.wwpns, false).1;
    var i :| 0 <= i < |info.wwpns| && WwpnHit(s, info.wwpns[i])
      && found.name == RowNamed(FabricRows(s.fabric, s.hosts, info.wwpns[i]), info.wwpns[i]).value;
    FabricHit(s.fabric, s.hosts, info.wwpns[i]);
    var h :| h in s.hosts && h.name == found.name && HasPort(h, Wwpn(info.wwpns[i]));
    assert info.wwpns[i] in info.wwpns && MatchesWwpn(s, h, info.wwpns) && Matches(s, h, info);
  }

  lemma {:induction false} InitiatorNames(s: State, info: HostInfo, n: string, name: string)
    requires Sane(s.hosts) && OnlyMatch(s, info, n) && info.initiator != ""
    requires exists h | h in s.hosts :: name == h.name && HostRowOf(s.hosts, h.name).iscsi == info.initiator
    ensures name == n && SomeMatch(s, info) && n != ""
  {
    hide HostRowOf, MatchesWwpn;
    var h :| h in s.hosts && name == h.name && HostRowOf(s.hosts, h.name).iscsi == info.initiator;
    RowFacts(s.hosts, h.name);
    assert Matches(s, h, info);
  }

  /** The last look-up, by name. */
  lemma {:induction false} NameOutcome(s: State, t: State, info: HostInfo, n: string, k: nat, failed: bool)
    requires Sane(s.hosts) && OnlyMatch(s, info, n) && After(s, k, t)
    ensures var r := ByHostname(t, info.hostname, failed).1;
      && (r == Ok("") <==> if info.hostname == "" then !failed
                           else Answers(s, k) && !HostExists(s.hosts, info.hostname))
      && (r.Ok? && r.value != "" ==> r.value == n && SomeMatch(s, info))
  {
    hide HostRowOf, MatchesWwpn, MatchesInitiator;
    AnswersFrom(t, Spend(t));
    assert Up(t) <==> Answers(s, k) by { assert Answers(t, 0) <==> Answers(s, 0 + k); }
    if info.hostname != "" {
      RowFacts(s.hosts, info.hostname);
      if HostExists(s.hosts, info.hostname) {
        var h :| h in s.hosts && h.name == info.hostname;
        assert Matches(s, h, info);
      }
    }
  }

  /* ---- detaching ---- */

  /** A detach that reports success leaves the volume mapped to the host, for every state and every pattern of
      failures, exactly when it was mapped and the search concludes that the host has no object. */
  lemma {:induction false} DetachLeavesMapping(s: State, volume: string, info: HostInfo, n: string)
    requires Sane(s.hosts) && OnlyMatch(s, info, n) && n != ""
    ensures var (t, r) := Detach(s, volume, info);
      r.Ok? && IsMapped(t.rows, volume, n) <==> IsMapped(s.rows, volume, n) && SeesNoHost(s, info)
  {
    hide HostFor, SeesNoHost, IsMapped, DropRows, RowsOf, FirstHost, Sane, OnlyMatch, SomeMatch, DropHost, RowsTo;
    SearchOutcome(s, info, n);
    SearchKeeps(s, info);
    FirstHostFacts(RowsOf(s.rows, volume), n);
    MappedAmong(s.rows, volume, n);
    DroppedMapped(s.rows, volume, n);
  }

  /** What a detach does once the search has answered with a host object, whatever fails afterwards. It succeeds
      exactly when the rows can be read, the volume is unmapped if it was mapped, and the host object is removed
      if the array can be asked about it and lists no other volume; what has been done by then stays done. */
  lemma {:induction false} DetachOutcome(s: State, volume: string, info: HostInfo, n: string)
    requires FindsHost(s, info, n)
    ensures var (t, r) := Detach(s, volume, info);
      var s1, mapped := HostFor(s, info).0, IsMapped(s.rows, volume, n);
      var unmapped := Answers(s1, 0) && (mapped ==> Answers(s1, 1));
      var k := if mapped then 2 else 1;
      var last := Answers(s1, k) && forall v | v != volume :: !IsMapped(s.rows, v, n);
      var removed := Answers(s1, k + 1) && HostExists(s.hosts, n);
      && (r.Ok? <==> unmapped && (last ==> removed)) && (r.Err? ==> r.error == ArrayFailure)
      && SameTables(s.(rows := if unmapped && mapped then DropRows(s.rows, volume, n) else s.rows,
                       hosts := if unmapped && last && removed then DropHost(s.hosts, n) else s.hosts), t)
  {
    hide HostFor, IsMapped, DropRows, RowsOf, FirstHost, DropHost, RowsTo, HostExists;
    SearchKeeps(s, info);
    var s1, mapped := HostFor(s, info).0, IsMapped(s.rows, volume, n);
    var rows := if mapped then DropRows(s.rows, volume, n) else s.rows;
    FirstHostFacts(RowsOf(s.rows, volume), n);
    MappedAmong(s.rows, volume, n);
    DroppedMapped(s.rows, volume, n);
    NoRowsTo(rows, n);
    RowsElsewhere(rows, n);
    AnswersFrom(s1, Spend(s1));
    AnswersFrom(Spend(s1), Spend(Spend(s1)));
    AnswersFrom(Spend(Spend(s1)), Spend(Spend(Spend(s1))));
    assert Answers(s1, 2) <==> Up(Spend(Spend(s1)));
    assert Answers(s1, 3) <==> Up(Spend(Spend(Spend(s1))));
    assert (forall v :: !IsMapped(rows, v, n)) <==> forall v | v != volume :: !IsMapped(s.rows, v, n) by {
      forall v ensures IsMapped(rows, v, n) <==> v != volume && IsMapped(s.rows, v, n) {}
    }
  }

  lemma {:induction false} RowsElsewhere(rows: seq<MapRow>, host: string)
    ensures RowsTo(rows, host) == [] <==> forall r | r in rows :: r.host != host
  {
    forall r | r in rows && r.host == host ensures RowsTo(rows, host) != [] { assert r in RowsTo(rows, host); }
    if RowsTo(rows, host) != [] { assert RowsTo(rows, host)[0] in RowsTo(rows, host); }
  }

  /** A failed search is passed on, and a host without an object has nothing to detach. */
  lemma {:induction false} DetachUnknown(s: State, volume: string, info: HostInfo)
    requires HostFor(s, info).1.Err? || HostFor(s, info).1.value == ""
    ensures var (t, r) := Detach(s, volume, info);
      && SameTables(s, t)
      && r == if HostFor(s, info).1.Err? then Err(HostFor(s, info).1.error) else Ok(())
  {
    hide HostFor;
    SearchKeeps(s, info);
  }

  /** That happens to a host that has an object only when it gives a name no object has, and a look-up by WWPN
      or by initiator that would have found the object has failed. */
  lemma {:induction false} HiddenByFailure(s: State, info: HostInfo, n: string)
    requires Sane(s.hosts) && OnlyMatch(s, info, n) && SomeMatch(s, info) && SeesNoHost(s, info)
    ensures info.hostname != "" && !HostExists(s.hosts, info.hostname) && SomeLookupFails(s, info)
  {
    hide NoWwpnHit, SomeWwpnFails, NoInitiatorHit, SomeAnswerMissing, Asked, MatchesWwpn, HostRowOf;
    var h :| h in s.hosts && Matches(s, h, info);
    assert h.name != "" && HostExists(s.hosts, h.name);
    if !SomeLookupFails(s, info) {
      if MatchesWwpn(s, h, info.wwpns) { WwpnWouldHit(s, h, info.wwpns); }
      if MatchesInitiator(h, info.initiator) { InitiatorWouldHit(s, h, info.initiator, Asked(info.wwpns) + 1); }
    }
  }

  lemma {:induction false} WwpnWouldHit(s: State, h: Host, wwpns: seq<string>)
    requires Sane(s.hosts) && h in s.hosts && MatchesWwpn(s, h, wwpns) && !SomeWwpnFails(s, wwpns)
    ensures !NoWwpnHit(s, wwpns)
  {
    hide HasPort, WwpnFails, RowNamed, FabricRows;
    var w :| w in wwpns && LoggedIn(s.fabric, w) && HasPort(h, Wwpn(w));
    var i :| 0 <= i < |wwpns| && wwpns[i] == w;
    FabricHit(s.fabric, s.hosts, w);
    assert !WwpnFails(s, wwpns, i) && WwpnHit(s, wwpns[i]);
  }

  lemma {:induction false} InitiatorWouldHit(s: State, h: Host, initiator: string, from: nat)
    requires Sane(s.hosts) && h in s.hosts && MatchesInitiator(h, initiator)
    requires !SomeAnswerMissing(s, from, |s.hosts|)
    ensures !NoInitiatorHit(s, s.hosts, initiator, from)
  {
    hide HostRowOf;
    var j :| 0 <= j < |s.hosts| && s.hosts[j] == h;
    RowFacts(s.hosts, h.name);
    assert Answers(s, from + j) && HostRowOf(s.hosts, s.hosts[j].name).iscsi == initiator;
  }

  /* ---- attaching ---- */

  lemma {:induction false} MapUnderFaults(s: State, volume: string, host: string)
    ensures var (t, r) := MapToHost(s, volume, host);
      var known, made := Answers(s, 0) && IsMapped(s.rows, volume, host),
                         Answers(s, 1) && Can(s, MkVdiskHostMap(host, volume));
      && (r.Ok? <==> known || (made && Answers(s, 2)))
      && (if made then SameTables(Mapped(s, volume, host), t) else SameTables(s, t))
  {
    hide LunsOf, NextScsi, HostExists;
    LunsIffMapped(s, volume, host);
    AnswersFrom(s, Spend(s));
    AnswersFrom(Spend(s), Spend(Spend(s)));
    assert Answers(s, 2) <==> Up(Spend(Spend(s)));
  }

  /** The search answers with this host object. */
  predicate FindsHost(s: State, info: HostInfo, n: string) { n != "" && HostFor(s, info).1 == Ok(n) }

  /** The volume is mapped anew to a known host object, but the SCSI ids cannot be read back. */
  predicate RowsLeft(s: State, volume: string, info: HostInfo, n: string) {
    var s1 := HostFor(s, info).0;
    && FindsHost(s, info, n) && HostExists(s.hosts, n) && Mappable(s, volume) && !IsMapped(s.rows, volume, n)
    && Answers(s1, 1) && !Answers(s1, 2)
  }

  /** The state in which a host object is about to be created, at this site. */
  predicate AboutToCreate(s: State, volume: string, info: HostInfo, site: string, t: State) {
    var (s1, found) := HostFor(s, info);
    found == Ok("") && PreferSite(s1, volume) == (t, Ok(site))
  }

  /** A host object with all ports is created, but the mapping that follows does not get through. */
  predicate HostLeft(s: State, volume: string, info: HostInfo, site: string, t: State) {
    && AboutToCreate(s, volume, info, site, t) && Creatable(s.hosts, info) && AllAnswer(t, PortCount(info))
    && (volume !in s.volumes || !Answers(t, PortCount(info) + 1))
  }

  /** So is the mapping, but the SCSI ids cannot be read back. */
  predicate HostAndRowsLeft(s: State, volume: string, info: HostInfo, site: string, t: State) {
    && AboutToCreate(s, volume, info, site, t) && Creatable(s.hosts, info) && AllAnswer(t, PortCount(info))
    && volume in s.volumes && Answers(t, PortCount(info) + 1) && !Answers(t, PortCount(info) + 2)
  }

  /** Adding the port after the first k WWPNs fails, and so does removing the host object. */
  ghost predicate PartLeft(s: State, volume: string, info: HostInfo, site: string, t: State, k: nat) {
    AboutToCreate(s, volume, info, site, t) && LeftAt(t, info, k)
  }

  lemma {:induction false} SiteKeeps(s: State, volume: string)
    ensures SameTables(s, PreferSite(s, volume).0)
  {
    hide MasterGroup, SiteNamed;
  }

  /** The site for a new host object, whatever fails: one query for a volume without a master that has an I/O group,
      two for any other; when they get through the answer is the one given with nothing failing. */
  lemma {:induction false} SiteUnderFaults(s: State, volume: string)
    ensures var (t, r) := PreferSite(s, volume);
      var vdisks := VdisksOf(s, volume);
      var grouped := exists i: nat :: FirstMaster(vdisks, i) && vdisks[i].iogrp != "";
      && SameTables(s, t)
      && r == (if Answers(s, 0) && (grouped ==> Answers(s, 1)) then SiteOf(s.(faults := []), volume)
               else Err(ArrayFailure))
      && (r.Ok? ==> forall k: nat :: Answers(t, k) <==> Answers(s, k + if grouped then 2 else 1))
  {
    hide MasterGroup, SiteNamed;
    var vdisks := VdisksOf(s, volume);
    AnswersFrom(s, Spend(s));
    AnswersFrom(Spend(s), Spend(Spend(s)));
    forall i: nat | FirstMaster(vdisks, i) ensures MasterGroup(vdisks) == vdisks[i].iogrp {
      MasterGroupFacts(vdisks, i);
    }
    if MasterGroup(vdisks) != "" { var i := SomeMaster(vdisks); }
    hide FirstMaster, Answers;
    forall k: nat ensures Answers(Spend(Spend(s)), k) <==> Answers(s, k + 2) {
      assert Answers(Spend(s), k + 1) <==> Answers(s, (k + 1) + 1);
    }
  }

  lemma {:induction false} RowsMade(s: State, volume: string, host: string)
    requires volume in s.volumes
    ensures Mapped(s, volume, host).rows != s.rows <==> Mappable(s, volume) && !IsMapped(s.rows, volume, host)
    ensures Mapped(s, volume, host) == s.(rows := Mapped(s, volume, host).rows)
  {
    hide IsMapped;
    if !IsMapped(s.rows, volume, host) {
      var groups := s.volumes[volume].groups;
      assert |Mapped(s, volume, host).rows| == |s.rows| + |groups|;
      assert groups == [] ==> s.rows + NewRows(volume, host, groups, NextScsi(s.rows, host)) == s.rows;
    }
  }

  /** An attach to a host object that is there. */
  lemma {:induction false} KnownHostAttach(s: State, volume: string, info: HostInfo, n: string)
    requires FindsHost(s, info, n) && Attach(s, volume, info).1.Err?
    ensures var t := Attach(s, volume, info).0;
      && (SameTables(s, t) <==> !RowsLeft(s, volume, info, n))
      && (RowsLeft(s, volume, info, n) ==> SameTables(Mapped(s, volume, n), t))
  {
    hide HostFor, MapToHost, Mapped, NewRows, HostExists, IsMapped;
    SearchKeeps(s, info);
    var s1 := HostFor(s, info).0;
    MapUnderFaults(s1, volume, n);
    if volume in s.volumes {
      RowsMade(s, volume, n);
      MappedSame(s, s1, volume, n);
    }
  }

  lemma {:induction false} MappedSame(s: State, t: State, volume: string, host: string)
    requires SameTables(s, t) && volume in s.volumes
    ensures SameTables(Mapped(s, volume, host), Mapped(t, volume, host))
  {
    hide NextScsi;
  }

  /** Mapping a volume to the host object just created. */
  lemma {:induction false} CreatedThenMapped(u: State, volume: string, info: HostInfo, site: string)
    requires RowsAttached(u) && Creatable(u.hosts, info) && AllAnswer(u, PortCount(info))
    ensures var (t, r) := MapToHost(CreateHost(u, info, site).0, volume, info.hostname);
      var with, k := u.(hosts := u.hosts + [FullHost(info, site)]), PortCount(info);
      && CreateHost(u, info, site).1 == Ok(info.hostname) && info.hostname != ""
      && (r.Ok? <==> volume in u.volumes && Answers(u, k + 1) && Answers(u, k + 2))
      && (if volume in u.volumes && Answers(u, k + 1) then SameTables(Mapped(with, volume, info.hostname), t)
          else SameTables(with, t))
  {
    hide MapToHost, CreateHost, Mapped, Creatable, LeftAt, Answers, IsMapped, FullHost, HostExists, RowsAttached;
    CreateHostExact(u, info, site);
    CreatableNamed(u.hosts, info);
    var v, with := CreateHost(u, info, site).0, u.(hosts := u.hosts + [FullHost(info, site)]);
    HasNewHost(u, info, site);
    MapUnderFaults(v, volume, info.hostname);
    NewHostUnmapped(u, info, volume);
    assert Answers(v, 1) <==> Answers(u, 1 + PortCount(info));
    assert Answers(v, 2) <==> Answers(u, 2 + PortCount(info));
    if volume in u.volumes { MappedSame(with, v, volume, info.hostname); }
  }

  lemma {:induction false} CreationIs(s: State, volume: string, info: HostInfo, site: string, u: State)
    requires AboutToCreate(s, volume, info, site, u)
    ensures SameTables(s, u)
    ensures Attach(s, volume, info)
      == var (v, host) := CreateHost(u, info, site);
         if host.Err? then (v, Err(host.error)) else MapToHost(v, volume, host.value)
  {
    hide HostFor, MapToHost, PreferSite, CreateHost;
    SearchKeeps(s, info);
    SiteKeeps(HostFor(s, info).0, volume);
  }

  /** An attach that creates the host object. */
  lemma {:induction false} NewHostAttach(s: State, volume: string, info: HostInfo, site: string, u: State)
    requires RowsAttached(s) && AboutToCreate(s, volume, info, site, u) && Attach(s, volume, info).1.Err?
    ensures var t := Attach(s, volume, info).0;
      var with := s.(hosts := s.hosts + [FullHost(info, site)]);
      && (HostLeft(s, volume, info, site, u) ==> SameTables(with, t))
      && (HostAndRowsLeft(s, volume, info, site, u) ==> SameTables(Mapped(with, volume, info.hostname), t))
      && (forall k: nat | PartLeft(s, volume, info, site, u, k) ::
            SameTables(s.(hosts := s.hosts + [FullHost(Upto(info, k), site)]), t))
      && (SameTables(s, t)
          <==> !HostLeft(s, volume, info, site, u) && !HostAndRowsLeft(s, volume, info, site, u)
               && forall k: nat :: !PartLeft(s, volume, info, site, u, k))
  {
    hide HostFor, MapToHost, PreferSite, CreateHost, Attach, Mapped, Creatable, LeftAt, Answers, FullHost;
    hide AboutToCreate, AllAnswer;
    CreationIs(s, volume, info, site, u);
    CreateHostExact(u, info, site);
    if !(Creatable(s.hosts, info) && AllAnswer(u, PortCount(info))) {
      if k: nat :| LeftAt(u, info, k) {
        assert PartLeft(s, volume, info, site, u, k);
        assert |Attach(s, volume, info).0.hosts| == |s.hosts| + 1;
      } else {
        forall k: nat ensures !PartLeft(s, volume, info, site, u, k) { assert !LeftAt(u, info, k); }
      }
    } else {
      CreatedThenMapped(u, volume, info, site);
      NoPartLeft(u, info);
      forall k: nat ensures !PartLeft(s, volume, info, site, u, k) { assert !LeftAt(u, info, k); }
      var with := s.(hosts := s.hosts + [FullHost(info, site)]);
      if volume in s.volumes {
        MappedSame(with, u.(hosts := with.hosts), volume, info.hostname);
        RowsMade(with, volume, info.hostname);
      }
    }
  }

  lemma {:induction false} HasNewHost(s: State, info: HostInfo, site: string)
    ensures HostExists(s.hosts + [FullHost(info, site)], info.hostname)
  {
    var h := FullHost(info, site);
    assert h in s.hosts + [h];
  }

  lemma {:induction false} NewHostUnmapped(s: State, info: HostInfo, volume: string)
    requires RowsAttached(s) && !HostExists(s.hosts, info.hostname)
    ensures !IsMapped(s.rows, volume, info.hostname)
  {}

  lemma {:induction false} NoPartLeft(s: State, info: HostInfo)
    requires Creatable(s.hosts, info) && AllAnswer(s, PortCount(info))
    ensures forall k: nat :: !LeftAt(s, info, k)
  {
    forall k: nat ensures !LeftAt(s, info, k) {
      if k < |info.wwpns| {
        FewerPorts(s.hosts, info, k + 1);
        hide Creatable;
      }
    }
  }

  /** The host object an attach maps to. */
  function HostOf(s: State, info: HostInfo): string {
    var found := HostFor(s, info).1;
    if found.Ok? && found.value != "" then found.value else info.hostname
  }

  /** When an attach succeeds, for every state and every pattern of failures: the volume is mapped to the host
      object already and that can be read, or it can be mapped now and read back, where the host object is
      there or can be created first. */
  lemma {:induction false} AttachOutcome(s: State, volume: string, info: HostInfo)
    requires RowsAttached(s)
    ensures var (t, r) := Attach(s, volume, info);
      var (s1, found) := HostFor(s, info);
      var (u, site) := PreferSite(s1, volume);
      var n, k := HostOf(s, info), PortCount(info);
      && (r.Ok? <==>
            && found.Ok?
            && if found.value != "" then
                 || (IsMapped(s.rows, volume, n) && Answers(s1, 0))
                 || (HostExists(s.hosts, n) && volume in s.volumes && !IsMapped(s.rows, volume, n)
                     && Answers(s1, 1) && Answers(s1, 2))
               else
                 && site.Ok? && Creatable(s.hosts, info) && AllAnswer(u, k)
                 && volume in s.volumes && Answers(u, k + 1) && Answers(u, k + 2))
      && (r.Ok? && IsMapped(s.rows, volume, n) ==> SameTables(s, t))
      && (r.Ok? && !IsMapped(s.rows, volume, n) ==>
            && volume in s.volumes
            && SameTables(Mapped(if found.value != "" then s
                                 else s.(hosts := s.hosts + [FullHost(info, site.value)]), volume, n), t))
      && (r.Err? ==> r.error == if found.Err? then found.error
                                else if found.value == "" && site.Err? then site.error
                                else if found.value == "" && info.initiator == "" && info.wwpns == [] then NoPort
                                else ArrayFailure)
  {
    hide HostFor, MapToHost, PreferSite, CreateHost, Mapped, Creatable, Answers, FullHost, HostExists, AllAnswer;
    var (s1, found) := HostFor(s, info);
    SearchKeeps(s, info);
    SiteKeeps(s1, volume);
    if found.Ok? && found.value != "" {
      MapUnderFaults(s1, volume, found.value);
      MapError(s1, volume, found.value);
      if volume in s.volumes { MappedSame(s, s1, volume, found.value); }
      MappedAlready(s, volume, found.value);
    } else if found.Ok? {
      var (u, site) := PreferSite(s1, volume);
      if site.Ok? {
        CreateHostExact(u, info, site.value);
        CreationError(u, info, site.value);
        if Creatable(s.hosts, info) && AllAnswer(u, PortCount(info)) {
          CreatedThenMapped(u, volume, info, site.value);
          MapError(CreateHost(u, info, site.value).0, volume, info.hostname);
          CreatableNamed(s.hosts, info);
          CreatableHasPorts(s.hosts, info);
          NewHostUnmapped(s, info, volume);
          var with := s.(hosts := s.hosts + [FullHost(info, site.value)]);
          if volume in s.volumes { MappedSame(with, u.(hosts := with.hosts), volume, info.hostname); }
        }
      }
    }
  }

  lemma {:induction false} MapError(s: State, volume: string, host: string)
    ensures MapToHost(s, volume, host).1.Err? ==> MapToHost(s, volume, host).1.error == ArrayFailure
  {}

  lemma {:induction false} CreationError(s: State, info: HostInfo, site: string)
    ensures var r := CreateHost(s, info, site).1;
      r.Err? ==> r.error == if info.initiator == "" && info.wwpns == [] then NoPort else ArrayFailure
  {
    hide Execute, AddPorts;
  }

  lemma {:induction false} MappedAlready(s: State, volume: string, host: string)
    ensures IsMapped(s.rows, volume, host) && volume in s.volumes ==> Mapped(s, volume, host) == s
  {}

  /** Something is left behind. */
  ghost predicate SomethingLeft(s: State, volume: string, info: HostInfo) {
    || (exists n :: RowsLeft(s, volume, info, n))
    || (exists site, u :: HostLeft(s, volume, info, site, u) || HostAndRowsLeft(s, volume, info, site, u))
    || (exists site, u, k: nat :: PartLeft(s, volume, info, site, u, k))
  }

  /** What a failed attach leaves, for every state and every pattern of failures: hosts and rows are as they were
      exactly when none of the four cases holds: new rows of a known host object, a new host object without
      rows or with them, or one with some of its ports only. Each case says what is left. */
  lemma {:induction false} FailedAttachLeaves(s: State, volume: string, info: HostInfo)
    requires RowsAttached(s) && Attach(s, volume, info).1.Err?
    ensures var t := Attach(s, volume, info).0;
      && (SameTables(s, t) <==> !SomethingLeft(s, volume, info))
      && (forall n | RowsLeft(s, volume, info, n) :: SameTables(Mapped(s, volume, n), t))
      && (forall site, u | HostLeft(s, volume, info, site, u) ::
            SameTables(s.(hosts := s.hosts + [FullHost(info, site)]), t))
      && (forall site, u | HostAndRowsLeft(s, volume, info, site, u) ::
            SameTables(Mapped(s.(hosts := s.hosts + [FullHost(info, site)]), volume, info.hostname), t))
      && (forall site, u, k: nat | PartLeft(s, volume, info, site, u, k) ::
            SameTables(s.(hosts := s.hosts + [FullHost(Upto(info, k), site)]), t))
  {
    hide HostFor, MapToHost, PreferSite, CreateHost, Mapped, Creatable, LeftAt, Answers, IsMapped, FullHost, HostExists;
    var (s1, found) := HostFor(s, info);
    SearchKeeps(s, info);
    SiteKeeps(s1, volume);
    if found.Err? {
    } else if found.value != "" {
      KnownHostAttach(s, volume, info, found.value);
    } else {
      var (u, site) := PreferSite(s1, volume);
      if site.Ok? { NewHostAttach(s, volume, info, site.value, u); }
    }
  }

  /** The volume exists, and yet a failed attach leaves an empty host object: the mapping command fails. */
  lemma {:induction false} FailedMappingExample()
    ensures var s := State([], [], map["v" := Volume(["0"], [])], [], [], [true, true, true, true, true, false]);
      var (t, r) := Attach(s, "v", HostInfo("one", "iqn", []));
      r.Err? && t.hosts == [Host("one", Some("iqn"), [], "")] && t.rows == []
  {
  }

  /* ---- the connection properties ---- */

  /** How many of its three queries a Fibre Channel host needs: the third only when it sees no port. */
  predicate FcAnswers(s: State, luns: LunMap, net: Net) {
    Answers(s, 0) && ((Answers(s, 1) && VisiblePaths(net.visible, net.nodes, luns, []) != []) || Answers(s, 2))
  }

  /** Building the connection properties changes nothing. It fails for an unknown protocol, when a query that
      an iSCSI host needs fails, or for a Fibre Channel host the node list or, with no port seen, the port
      list. */
  lemma {:induction false} ConnectKeeps(s: State, luns: LunMap, net: Net)
    ensures var (t, r) := Connect(s, luns, net);
      && SameTables(s, t) && (s.faults == [] ==> t == s)
      && (r.Ok? <==> if net.link == FC_LINK then FcAnswers(s, luns, net)
                     else net.link == ISCSI_LINK && Answers(s, 0) && Answers(s, 1))
  {
    AnswersFrom(s, Spend(s));
    AnswersFrom(Spend(s), Spend(Spend(s)));
    assert Answers(s, 2) <==> Up(Spend(Spend(s)));
    hide VisiblePaths, ActivePaths, IscsiPaths;
  }

  /** A volume that is mapped but whose paths cannot be listed stays mapped: the attach fails, and no detach
      follows. */
  lemma {:induction false} UncompensatedAttach(s: State, volume: string, info: HostInfo, net: Net, hostSide: bool)
    requires Attach(s, volume, info).1.Ok?
    ensures var (mapped, luns) := Attach(s, volume, info);
      var (t, r) := ControllerAttach(s, volume, info, net, hostSide);
      Connect(mapped, OrEmpty(luns.value), net).1.Err? ==> r.Err? && SameTables(mapped, t)
  {
    hide Attach, Detach, Connect;
    var (mapped, luns) := Attach(s, volume, info);
    ConnectKeeps(mapped, OrEmpty(luns.value), net);
    assert AttachAndConnect(s, volume, info, net) == Connect(mapped, OrEmpty(luns.value), net);
  }
}
