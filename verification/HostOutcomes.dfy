/** What one attach or detach does when nothing fails: exactly when a host object can be created, what a
    mapping adds, and what a detach removes. */
module HostOutcomes {
  import opened Wrappers
  import opened Lists
  import opened HostArray
  import opened Hosts
  import opened HostLookup

  /* ---- creating a host object ---- */

  predicate DistinctWwpns(wwpns: seq<string>) {
    forall i, j | 0 <= i < j < |wwpns| :: !SameWwpn(wwpns[i], wwpns[j])
  }

  /** The host object with all of the host's ports. */
  function FullHost(info: HostInfo, site: string): Host {
    Host(info.hostname, if info.initiator != "" then Some(info.initiator) else None, info.wwpns, site)
  }

  predicate PortsFree(hosts: seq<Host>, info: HostInfo) {
    && (info.initiator != "" ==> PortFree(hosts, Iscsi(info.initiator)))
    && (forall w | w in info.wwpns :: PortFree(hosts, Wwpn(w)))
  }

  predicate Creatable(hosts: seq<Host>, info: HostInfo) {
    && info.hostname != "" && !HostExists(hosts, info.hostname)
    && (info.initiator != "" || info.wwpns != []) && "" !in info.wwpns
    && PortsFree(hosts, info) && DistinctWwpns(info.wwpns)
  }

  /** Every row names a host object that exists. */
  predicate RowsAttached(s: State) {
    forall r | r in s.rows :: HostExists(s.hosts, r.host)
  }

  predicate CanTake(base: seq<Host>, h: Host, wwpns: seq<string>) {
    && (forall w | w in wwpns :: w != "" && PortFree(base, Wwpn(w)) && !HasPort(h, Wwpn(w)))
    && DistinctWwpns(wwpns)
  }

  predicate AllAnswer(s: State, count: nat) { forall i | 0 <= i < count :: Answers(s, i) }

  lemma {:induction false} TakeOne(base: seq<Host>, h: Host, wwpns: seq<string>)
    requires wwpns != []
    ensures CanTake(base, h, wwpns)
      <==> wwpns[0] != "" && PortFree(base, Wwpn(wwpns[0])) && !HasPort(h, Wwpn(wwpns[0]))
           && CanTake(base, h.(wwpns := h.wwpns + [wwpns[0]]), wwpns[1..])
  {
    hide PortFree, SameWwpn;
    var rest, h' := wwpns[1..], h.(wwpns := h.wwpns + [wwpns[0]]);
    assert forall w | w in wwpns :: w == wwpns[0] || w in rest;
    assert wwpns[0] in wwpns && wwpns[0] in h'.wwpns;
    forall w ensures HasPort(h', Wwpn(w)) <==> HasPort(h, Wwpn(w)) || SameWwpn(wwpns[0], w) {}
    assert DistinctWwpns(wwpns) <==> DistinctWwpns(rest) && forall w | w in rest :: !SameWwpn(wwpns[0], w) by {
      DistinctTail(wwpns);
    }
  }

  lemma {:induction false} DistinctTail(wwpns: seq<string>)
    requires wwpns != []
    ensures DistinctWwpns(wwpns)
      <==> DistinctWwpns(wwpns[1..]) && forall w | w in wwpns[1..] :: !SameWwpn(wwpns[0], w)
  {
    hide SameWwpn;
    var rest := wwpns[1..];
    forall i, j | 0 <= i < j < |rest| ensures rest[i] == wwpns[i + 1] && rest[j] == wwpns[j + 1] {}
    if DistinctWwpns(rest) && forall w | w in rest :: !SameWwpn(wwpns[0], w) {
      forall i, j | 0 <= i < j < |wwpns| ensures !SameWwpn(wwpns[i], wwpns[j]) {
        assert wwpns[j] == rest[j - 1] && wwpns[j] in rest;
        if i > 0 { assert wwpns[i] == rest[i - 1]; }
      }
    }
  }

  lemma {:induction false} PortTaken(s: State, base: seq<Host>, h: Host, wwpn: string)
    requires s.hosts == base + [h] && forall b | b in base :: b.name != h.name
    ensures var (t, ok) := Execute(s, AddHostPort(h.name, wwpn));
      && (ok <==> Answers(s, 0) && wwpn != "" && PortFree(base, Wwpn(wwpn)) && !HasPort(h, Wwpn(wwpn)))
      && t == s.(hosts := base + [if ok then h.(wwpns := h.wwpns + [wwpn]) else h], faults := Spend(s).faults)
  {
    hide HasPort;
    assert h in s.hosts;
    assert WithPort(base + [h], h.name, wwpn) == base + [h.(wwpns := h.wwpns + [wwpn])];
  }

  lemma {:induction false} DropNewHost(hosts: seq<Host>, h: Host)
    requires forall g | g in hosts :: g.name != h.name
    ensures DropHost(hosts + [h], h.name) == hosts
  {
    var name := h.name;
    var keep := (g: Host) => g.name != name;
    FilterAppend(hosts, [h], keep);
    FilterAll(hosts, keep);
    FilterNone([h], keep);
  }

  lemma {:induction false} HostRemoved(s: State, base: seq<Host>, h: Host)
    requires s.hosts == base + [h] && forall b | b in base :: b.name != h.name
    requires forall r | r in s.rows :: r.host != h.name
    ensures Execute(s, RmHost(h.name)).0
      == s.(hosts := if Answers(s, 0) then base else base + [h], faults := Spend(s).faults)
  {
    hide DropHost;
    assert h in s.hosts;
    DropNewHost(base, h);
  }

  /** Adding the k-th port is the first step that fails, by itself or because the array refuses the port;
      the host object made so far is removed again exactly when rmhost gets through. */
  ghost predicate PortFails(s: State, base: seq<Host>, h: Host, wwpns: seq<string>, k: nat, hosts: seq<Host>) {
    && k < |wwpns| && CanTake(base, h, wwpns[..k]) && AllAnswer(s, k)
    && (!Answers(s, k) || !CanTake(base, h, wwpns[..k + 1]))
    && hosts == if Answers(s, k + 1) then base else base + [h.(wwpns := h.wwpns + wwpns[..k])]
  }

  lemma {:induction false} FailsLater(s: State, base: seq<Host>, h: Host, wwpns: seq<string>, k: nat, hosts: seq<Host>)
    requires wwpns != [] && Answers(s, 0)
    requires wwpns[0] != "" && PortFree(base, Wwpn(wwpns[0])) && !HasPort(h, Wwpn(wwpns[0]))
    requires PortFails(Spend(s), base, h.(wwpns := h.wwpns + [wwpns[0]]), wwpns[1..], k, hosts)
    ensures PortFails(s, base, h, wwpns, k + 1, hosts)
  {
    hide CanTake, PortFree, HasPort;
    AnswersFrom(s, Spend(s));
    assert wwpns[..k + 1][1..] == wwpns[1..][..k] && wwpns[..k + 2][1..] == wwpns[1..][..k + 1];
    TakeOne(base, h, wwpns[..k + 1]);
    TakeOne(base, h, wwpns[..k + 2]);
    assert h.wwpns + [wwpns[0]] + wwpns[1..][..k] == h.wwpns + wwpns[..k + 1];
    hide Answers;
    forall i | 0 <= i < k + 1 ensures Answers(s, i) { if i > 0 { assert Answers(Spend(s), i - 1); } }
  }

  lemma {:induction false} PortsTaken(s: State, base: seq<Host>, h: Host, wwpns: seq<string>)
    requires s.hosts == base + [h] && forall b | b in base :: b.name != h.name
    requires forall r | r in s.rows :: r.host != h.name
    ensures var (t, ok) := AddPorts(s, h.name, wwpns);
      && t == s.(hosts := t.hosts, faults := t.faults) && (s.faults == [] ==> t.faults == [])
      && (ok <==> CanTake(base, h, wwpns) && AllAnswer(s, |wwpns|))
      && (ok ==> t.hosts == base + [h.(wwpns := h.wwpns + wwpns)])
      && (ok ==> forall i: nat :: Answers(t, i) <==> Answers(s, i + |wwpns|))
      && (!ok ==> exists k: nat :: PortFails(s, base, h, wwpns, k, t.hosts))
    decreases |wwpns|
  {
    hide Execute, PortFree, HasPort, CanTake, PortFails, Answers;
    if wwpns == [] {
      NothingTaken(base, h);
      assert h.wwpns + [] == h.wwpns;
    } else {
      PortTaken(s, base, h, wwpns[0]);
      TakeOne(base, h, wwpns);
      AnswersFrom(s, Spend(s));
      var h' := h.(wwpns := h.wwpns + [wwpns[0]]);
      var (s1, ok) := Execute(s, AddHostPort(h.name, wwpns[0]));
      if ok {
        PortsTaken(s1, base, h', wwpns[1..]);
        assert h.wwpns + [wwpns[0]] + wwpns[1..] == h.wwpns + wwpns;
        AnswerFirst(s, |wwpns|);
        SameAnswers(s1, Spend(s), base, h', wwpns[1..]);
        if AddPorts(s1, h'.name, wwpns[1..]).1 {
          var t := AddPorts(s1, h'.name, wwpns[1..]).0;
          AnswersFrom(s, s1);
          forall i: nat ensures Answers(t, i) <==> Answers(s, i + |wwpns|) {
            assert Answers(t, i) <==> Answers(s1, i + |wwpns[1..]|);
            assert Answers(s1, i + |wwpns[1..]|) <==> Answers(s, i + |wwpns[1..]| + 1);
          }
        } else {
          var hosts := AddPorts(s1, h'.name, wwpns[1..]).0.hosts;
          var k: nat :| PortFails(s1, base, h', wwpns[1..], k, hosts);
          FailsLater(s, base, h, wwpns, k, hosts);
        }
      } else {
        HostRemoved(s1, base, h);
        FirstFails(s, base, h, wwpns, Execute(s1, RmHost(h.name)).0.hosts);
        SpentFaults(s1, RmHost(h.name));
        AnswerFirst(s, |wwpns|);
      }
    }
  }

  lemma {:induction false} AnswerFirst(s: State, count: nat)
    requires count > 0
    ensures AllAnswer(s, count) <==> Answers(s, 0) && AllAnswer(Spend(s), count - 1)
  {
    AnswersFrom(s, Spend(s));
    hide Answers;
    if Answers(s, 0) && AllAnswer(Spend(s), count - 1) {
      forall i | 0 <= i < count ensures Answers(s, i) { if i > 0 { assert Answers(Spend(s), i - 1); } }
    }
    if AllAnswer(s, count) {
      forall i | 0 <= i < count - 1 ensures Answers(Spend(s), i) { assert Answers(s, i + 1); }
    }
  }

  lemma {:induction false} SpentFaults(s: State, c: Command)
    ensures Execute(s, c).0.faults == Spend(s).faults
  {}

  lemma {:induction false} SameAnswers(s: State, t: State, base: seq<Host>, h: Host, wwpns: seq<string>)
    requires s.faults == t.faults
    ensures forall n: nat :: AllAnswer(s, n) <==> AllAnswer(t, n)
    ensures forall k: nat, hosts :: PortFails(s, base, h, wwpns, k, hosts) <==> PortFails(t, base, h, wwpns, k, hosts)
  {
    hide CanTake;
    assert forall i: nat :: Answers(s, i) <==> Answers(t, i);
    hide Answers;
    assert forall n: nat :: AllAnswer(s, n) <==> AllAnswer(t, n);
  }

  lemma {:induction false} FirstFails(s: State, base: seq<Host>, h: Host, wwpns: seq<string>, hosts: seq<Host>)
    requires wwpns != []
    requires !Answers(s, 0) || wwpns[0] == "" || !PortFree(base, Wwpn(wwpns[0])) || HasPort(h, Wwpn(wwpns[0]))
    requires hosts == if Answers(s, 1) then base else base + [h]
    ensures PortFails(s, base, h, wwpns, 0, hosts)
  {
    hide PortFree, HasPort;
    NothingTaken(base, h);
    TakeOne(base, h, wwpns[..1]);
    assert wwpns[..0] == [] && h.wwpns + [] == h.wwpns;
  }

  lemma {:induction false} NothingTaken(base: seq<Host>, h: Host)
    ensures CanTake(base, h, [])
  {}

  /** How many commands creating the host object takes. */
  function PortCount(info: HostInfo): nat { (if info.initiator != "" then 1 else 0) + |info.wwpns| }

  /** The host with its first k WWPNs only. */
  function Upto(info: HostInfo, k: nat): HostInfo
    requires k <= |info.wwpns|
  {
    info.(wwpns := info.wwpns[..k])
  }

  /** Adding the k-th WWPN is the first step of the creation that fails: everything before gets through, but
      it does not, or the array refuses it. */
  ghost predicate FailsAt(s: State, info: HostInfo, k: nat) {
    && k < |info.wwpns| && Creatable(s.hosts, Upto(info, k)) && AllAnswer(s, PortCount(Upto(info, k)))
    && (!Answers(s, PortCount(Upto(info, k))) || !Creatable(s.hosts, Upto(info, k + 1)))
  }

  /** And so does the removal that follows, which leaves the host object with the WWPNs before. */
  ghost predicate LeftAt(s: State, info: HostInfo, k: nat) {
    FailsAt(s, info, k) && !Answers(s, PortCount(Upto(info, k)) + 1)
  }

  lemma {:induction false} OneFailure(s: State, info: HostInfo, k: nat, n: nat)
    requires FailsAt(s, info, k) && FailsAt(s, info, n)
    ensures k == n
  {
    CreatableHasPorts(s.hosts, Upto(info, k));
    CreatableHasPorts(s.hosts, Upto(info, n));
    hide Creatable, Answers;
    if k < n { EarlierPasses(s, info, k, n); }
    if n < k { EarlierPasses(s, info, n, k); }
  }

  /** Before the first failure there is none. */
  lemma {:induction false} EarlierPasses(s: State, info: HostInfo, k: nat, n: nat)
    requires FailsAt(s, info, n) && k < n && (info.initiator != "" || k > 0)
    ensures Creatable(s.hosts, Upto(info, k + 1)) && Answers(s, PortCount(Upto(info, k)))
  {
    hide Answers, Creatable;
    assert info.wwpns[..k + 1] == info.wwpns[..n][..k + 1];
    FewerPorts(s.hosts, Upto(info, n), k + 1);
    assert Upto(Upto(info, n), k + 1) == Upto(info, k + 1);
  }

  /** What can be created with more WWPNs can be created with fewer, as long as a port is left. */
  lemma {:induction false} FewerPorts(hosts: seq<Host>, info: HostInfo, k: nat)
    requires Creatable(hosts, info) && k <= |info.wwpns| && (info.initiator != "" || k > 0)
    ensures Creatable(hosts, Upto(info, k))
  {
    hide SameWwpn, PortFree;
    assert forall w | w in info.wwpns[..k] :: w in info.wwpns;
  }

  /** A host object can be created exactly when its name is free, it has ports, all free and distinct, and
      every command gets through; it then has every port. A failed creation leaves hosts and rows as they
      were, unless a later port and then rmhost fail: then the host object with the ports before stays. */
  lemma {:induction false} CreateHostExact(s: State, info: HostInfo, site: string)
    requires RowsAttached(s)
    ensures var (t, r) := CreateHost(s, info, site);
      if Creatable(s.hosts, info) && AllAnswer(s, PortCount(info)) then
        r == Ok(info.hostname) && t == s.(hosts := s.hosts + [FullHost(info, site)], faults := t.faults)
      else
        && r.Err?
        && ((forall k: nat :: !LeftAt(s, info, k)) ==> t == s.(faults := t.faults))
        && (forall k: nat | LeftAt(s, info, k) ::
              t == s.(hosts := s.hosts + [FullHost(Upto(info, k), site)], faults := t.faults))
    ensures s.faults == [] ==> CreateHost(s, info, site).0.faults == []
    ensures CreateHost(s, info, site).1.Ok? ==>
      forall i: nat :: Answers(CreateHost(s, info, site).0, i) <==> Answers(s, i + PortCount(info))
  {
    hide AddPorts, HasPort, SameWwpn, Answers, PortFails, CanTake, Creatable, LeftAt;
    if info.initiator != "" || info.wwpns != [] {
      var first := if info.initiator != "" then Iscsi(info.initiator) else Wwpn(info.wwpns[0]);
      var h, rest := NewHost(info.hostname, first, site), if info.initiator != "" then info.wwpns else info.wwpns[1..];
      var (s1, made) := Execute(s, MkHost(info.hostname, first, site));
      AnswersFrom(s, Spend(s));
      AnswersFrom(s, s1);
      FirstPort(s.hosts, info, site);
      AnswerFirst(s, PortCount(info));
      SameAnswers(s1, Spend(s), s.hosts, h, rest);
      if made {
        NoRowsYet(s, info.hostname);
        PortsTaken(s1, s.hosts, h, rest);
        assert h.(wwpns := h.wwpns + rest) == FullHost(info, site);
        var (t, ok) := AddPorts(s1, info.hostname, rest);
        if !ok {
          var k: nat :| PortFails(s1, s.hosts, h, rest, k, t.hosts);
          LeftWithPorts(s, s1, info, site, h, rest, k, t);
        } else {
          forall i: nat ensures Answers(t, i) <==> Answers(s, i + PortCount(info)) {
            assert Answers(t, i) <==> Answers(s1, i + |rest|);
          }
        }
      } else {
        NotMade(s, info, site);
      }
    } else {
      NoPortsLeft(s, info);
    }
    CreatableHasPorts(s.hosts, info);
  }

  lemma {:induction false} NoPortsLeft(s: State, info: HostInfo)
    requires info.initiator == "" && info.wwpns == []
    ensures forall k: nat :: !LeftAt(s, info, k)
  {}

  lemma {:induction false} NotMade(s: State, info: HostInfo, site: string)
    requires info.initiator != "" || info.wwpns != []
    requires var first := if info.initiator != "" then Iscsi(info.initiator) else Wwpn(info.wwpns[0]);
      !Execute(s, MkHost(info.hostname, first, site)).1
    ensures forall k: nat :: !LeftAt(s, info, k)
  {
    hide CanTake, HasPort;
    forall k: nat ensures !LeftAt(s, info, k) {
      if k < |info.wwpns| && Creatable(s.hosts, Upto(info, k)) {
        CreatableHasPorts(s.hosts, Upto(info, k));
        FirstPort(s.hosts, Upto(info, k), site);
        hide Creatable;
        assert LeftAt(s, info, k) ==> Answers(s, 0);
      }
    }
  }

  lemma {:induction false} CreatableHasPorts(hosts: seq<Host>, info: HostInfo)
    ensures Creatable(hosts, info) ==> info.initiator != "" || info.wwpns != []
  {}

  lemma {:induction false} NoRowsYet(s: State, name: string)
    requires RowsAttached(s) && !HostExists(s.hosts, name)
    ensures forall r | r in s.rows :: r.host != name
    ensures forall h | h in s.hosts :: h.name != name
  {}

  /** The host object under way has the ports of a host with fewer WWPNs. */
  lemma {:induction false} PrefixPorts(hosts: seq<Host>, info: HostInfo, site: string, h: Host,
                                       rest: seq<string>, k: nat)
    requires info.initiator != "" || info.wwpns != []
    requires var first := if info.initiator != "" then Iscsi(info.initiator) else Wwpn(info.wwpns[0]);
      && h == NewHost(info.hostname, first, site)
      && info.hostname != "" && first.name != "" && !HostExists(hosts, info.hostname) && PortFree(hosts, first)
    requires rest == (if info.initiator != "" then info.wwpns else info.wwpns[1..]) && k <= |rest|
    ensures var n := if info.initiator != "" then k else k + 1;
      n <= |info.wwpns| && (Creatable(hosts, Upto(info, n)) <==> CanTake(hosts, h, rest[..k]))
  {
    hide PortFree, HostExists, Creatable, CanTake;
    var n := if info.initiator != "" then k else k + 1;
    var fewer := Upto(info, n);
    FirstPort(hosts, fewer, site);
    assert (if info.initiator != "" then fewer.wwpns else fewer.wwpns[1..]) == rest[..k];
  }

  lemma {:induction false} LeftWithPorts(s: State, s1: State, info: HostInfo, site: string, h: Host,
                                         rest: seq<string>, k: nat, t: State)
    requires info.initiator != "" || info.wwpns != []
    requires h
      == NewHost(info.hostname, if info.initiator != "" then Iscsi(info.initiator) else Wwpn(info.wwpns[0]), site)
    requires rest == if info.initiator != "" then info.wwpns else info.wwpns[1..]
    requires s1 == s.(hosts := s1.hosts, faults := s1.faults) && s1.faults == Spend(s).faults
    requires Execute(s, MkHost(info.hostname, if info.initiator != "" then Iscsi(info.initiator)
                                              else Wwpn(info.wwpns[0]), site)).1
    requires PortFails(s1, s.hosts, h, rest, k, t.hosts) && t == s1.(hosts := t.hosts, faults := t.faults)
    ensures (forall n: nat :: !LeftAt(s, info, n)) ==> t == s.(faults := t.faults)
    ensures forall n: nat | LeftAt(s, info, n) ::
      t == s.(hosts := s.hosts + [FullHost(Upto(info, n), site)], faults := t.faults)
  {
    var n := if info.initiator != "" then k else k + 1;
    hide CanTake, Creatable, HasPort, PortFree;
    PrefixPorts(s.hosts, info, site, h, rest, k);
    PrefixPorts(s.hosts, info, site, h, rest, k + 1);
    AnswersFrom(s, s1);
    AnswerFirst(s, k + 1);
    SameAnswers(s1, Spend(s), s.hosts, h, rest);
    hide Answers;
    assert FailsAt(s, info, n);
    hide FailsAt;
    forall m: nat | LeftAt(s, info, m) ensures m == n { OneFailure(s, info, m, n); }
    assert h.wwpns + rest[..k] == info.wwpns[..n];
    assert LeftAt(s, info, n) <==> !Answers(s1, k + 1);
  }

  lemma {:induction false} FirstPort(hosts: seq<Host>, info: HostInfo, site: string)
    requires info.initiator != "" || info.wwpns != []
    ensures var first := if info.initiator != "" then Iscsi(info.initiator) else Wwpn(info.wwpns[0]);
      var rest := if info.initiator != "" then info.wwpns else info.wwpns[1..];
      Creatable(hosts, info)
      <==> info.hostname != "" && first.name != "" && !HostExists(hosts, info.hostname) && PortFree(hosts, first)
           && CanTake(hosts, NewHost(info.hostname, first, site), rest)
  {
    hide PortFree;
    if info.initiator == "" {
      DistinctTail(info.wwpns);
      hide SameWwpn, DistinctWwpns;
      assert forall w | w in info.wwpns :: w == info.wwpns[0] || w in info.wwpns[1..];
      assert info.wwpns[0] in info.wwpns;
      var h := NewHost(info.hostname, Wwpn(info.wwpns[0]), site);
      assert h.wwpns[0] in h.wwpns;
      forall w ensures HasPort(h, Wwpn(w)) <==> SameWwpn(info.wwpns[0], w) {}
    }
  }

  /* ---- mapping ---- */

  lemma {:induction false} LunIdsFacts(rows: seq<MapRow>, host: string)
    ensures LunIds(rows, host) == map[] <==> forall r | r in rows :: r.host != host
  {
    if rows != [] {
      var last := |rows| - 1;
      LunIdsFacts(rows[..last], host);
      assert forall r | r in rows :: r in rows[..last] || r == rows[last];
      assert rows[last] in rows && forall r | r in rows[..last] :: r in rows;
      assert rows[last].host == host ==> rows[last].iogrp in LunIds(rows, host);
    }
  }

  /** A volume has SCSI ids on a host exactly when it is mapped to it. */
  lemma {:induction false} LunsIffMapped(s: State, volume: string, host: string)
    ensures LunsOf(s, volume, host).Some? <==> IsMapped(s.rows, volume, host)
  {
    LunIdsFacts(RowsOf(s.rows, volume), host);
    if IsMapped(s.rows, volume, host) {
      var r :| r in s.rows && r.volume == volume && r.host == host;
      assert r in RowsOf(s.rows, volume);
    }
  }

  function Mapped(s: State, volume: string, host: string): State
    requires volume in s.volumes
  {
    if IsMapped(s.rows, volume, host) then s
    else s.(rows := s.rows + NewRows(volume, host, s.volumes[volume].groups, NextScsi(s.rows, host)))
  }

  lemma {:induction false} MappedFacts(s: State, volume: string, host: string)
    requires volume in s.volumes && s.volumes[volume].groups != []
    ensures var t := Mapped(s, volume, host);
      && s.rows <= t.rows
      && forall v, h :: IsMapped(t.rows, v, h) <==> IsMapped(s.rows, v, h) || (v == volume && h == host)
  {
    hide NextScsi;
    var t := Mapped(s, volume, host);
    if !IsMapped(s.rows, volume, host) {
      var more := NewRows(volume, host, s.volumes[volume].groups, NextScsi(s.rows, host));
      assert more[0] in t.rows;
      assert forall r | r in s.rows :: r in t.rows;
      forall r | r in t.rows && r !in s.rows ensures r.volume == volume && r.host == host {
        var i :| 0 <= i < |t.rows| && t.rows[i] == r;
        assert r == more[i - |s.rows|];
      }
    }
  }

  lemma {:induction false} MapToHostExact(s: State, volume: string, host: string)
    requires s.faults == [] && HostExists(s.hosts, host)
    requires volume in s.volumes && s.volumes[volume].groups != []
    ensures var t := Mapped(s, volume, host);
      MapToHost(s, volume, host) == (t, Ok(LunsOf(t, volume, host))) && LunsOf(t, volume, host).Some?
  {
    hide LunsOf, NextScsi, HostExists;
    LunsIffMapped(s, volume, host);
    MappedFacts(s, volume, host);
    LunsIffMapped(Mapped(s, volume, host), volume, host);
    assert Spend(s) == s;
  }

  /* ---- unmapping ---- */

  lemma {:induction false} FirstHostFacts(rows: seq<MapRow>, host: string)
    requires host != ""
    ensures FirstHost(rows, host) == if exists r | r in rows :: r.host == host then Some(host) else None
  {
    if rows != [] {
      FirstHostFacts(rows[1..], host);
      assert rows[0] in rows && forall r | r in rows :: r == rows[0] || r in rows[1..];
      assert forall r | r in rows[1..] :: r in rows;
    }
  }

  lemma {:induction false} UnmapExact(s: State, volume: string, host: string)
    requires s.faults == [] && host != ""
    ensures Unmap(s, volume, host) == (s.(rows := DropRows(s.rows, volume, host)), Ok(()))
  {
    hide RowsOf, FirstHost, DropRows;
    FirstHostFacts(RowsOf(s.rows, volume), host);
    MappedAmong(s.rows, volume, host);
    assert Spend(s) == s;
    if !IsMapped(s.rows, volume, host) { NothingDropped(s.rows, volume, host); }
  }

  lemma {:induction false} MappedAmong(rows: seq<MapRow>, volume: string, host: string)
    ensures IsMapped(rows, volume, host) <==> exists r | r in RowsOf(rows, volume) :: r.host == host
  {
    if IsMapped(rows, volume, host) {
      var r :| r in rows && r.volume == volume && r.host == host;
      assert r in RowsOf(rows, volume);
    }
  }

  lemma {:induction false} NothingDropped(rows: seq<MapRow>, volume: string, host: string)
    requires !IsMapped(rows, volume, host)
    ensures DropRows(rows, volume, host) == rows
  {
    FilterAll(rows, (r: MapRow) => r.volume != volume || r.host != host);
  }

  lemma {:induction false} DroppedMapped(rows: seq<MapRow>, volume: string, host: string)
    ensures forall v, h ::
      IsMapped(DropRows(rows, volume, host), v, h) <==> IsMapped(rows, v, h) && (v != volume || h != host)
  {
    forall v, h | IsMapped(rows, v, h) && (v != volume || h != host)
      ensures IsMapped(DropRows(rows, volume, host), v, h)
    {
      var r :| r in rows && r.volume == v && r.host == h;
      assert r in DropRows(rows, volume, host);
    }
  }

  /* ---- unmapping without a host name ---- */

  /** The volume is mapped to the host and to no other. */
  ghost predicate OnlyMappedTo(rows: seq<MapRow>, volume: string, host: string) {
    IsMapped(rows, volume, host) && forall h | IsMapped(rows, volume, h) :: h == host
  }

  ghost predicate MappedToSeveral(rows: seq<MapRow>, volume: string) {
    exists g, h :: g != h && IsMapped(rows, volume, g) && IsMapped(rows, volume, h)
  }

  lemma {:induction false} SeveralRows(rows: seq<MapRow>, volume: string)
    requires MappedToSeveral(rows, volume)
    ensures |RowsOf(rows, volume)| > 1
  {
    var g, h :| g != h && IsMapped(rows, volume, g) && IsMapped(rows, volume, h);
    MappedAmong(rows, volume, g);
    MappedAmong(rows, volume, h);
    var found := RowsOf(rows, volume);
    var one :| one in found && one.host == g;
    var two :| two in found && two.host == h;
    var i :| 0 <= i < |found| && found[i] == one;
    var j :| 0 <= j < |found| && found[j] == two;
  }

  lemma {:induction false} AllToHost(rows: seq<MapRow>, volume: string, host: string)
    requires OnlyMappedTo(rows, volume, host)
    ensures RowsOf(rows, volume) != [] && RowsOf(rows, volume)[0].host == host
  {
    MappedAmong(rows, volume, host);
    var first := RowsOf(rows, volume)[0];
    assert first in RowsOf(rows, volume);
    assert IsMapped(rows, volume, first.host);
  }

  /** Without a host name: a volume mapped to several hosts is refused, as documented, and one mapped to
      none is left alone. A volume mapped to just one host is to be unmapped from it; that it is if and
      only if the mapping has a single row, and it is refused, as if there were several hosts, otherwise. */
  lemma {:induction false} UnmapWithoutHost(s: State, volume: string)
    requires s.faults == []
    ensures MappedToSeveral(s.rows, volume) ==> Unmap(s, volume, "") == (s, Err(ManyRows))
    ensures (forall h :: !IsMapped(s.rows, volume, h)) ==> Unmap(s, volume, "") == (s, Ok(()))
    ensures forall host | OnlyMappedTo(s.rows, volume, host) ::
      Unmap(s, volume, "")
      == if |RowsOf(s.rows, volume)| == 1 then (s.(rows := DropRows(s.rows, volume, host)), Ok(()))
         else (s, Err(ManyRows))
  {
    hide RowsOf, DropRows, IsMapped;
    assert Spend(s) == s;
    var rows := RowsOf(s.rows, volume);
    if MappedToSeveral(s.rows, volume) { SeveralRows(s.rows, volume); }
    if forall h :: !IsMapped(s.rows, volume, h) { NoRowsOf(s.rows, volume); }
    forall host | OnlyMappedTo(s.rows, volume, host)
      ensures Unmap(s, volume, "")
        == if |rows| == 1 then (s.(rows := DropRows(s.rows, volume, host)), Ok(())) else (s, Err(ManyRows))
    {
      AllToHost(s.rows, volume, host);
    }
  }

  lemma {:induction false} NoRowsOf(rows: seq<MapRow>, volume: string)
    requires forall h :: !IsMapped(rows, volume, h)
    ensures RowsOf(rows, volume) == []
  {
    forall r | r in rows ensures r.volume != volume {
      assert r.volume == volume ==> IsMapped(rows, volume, r.host);
    }
    FilterNone(rows, (r: MapRow) => r.volume == volume);
  }

  lemma {:induction false} NewRowsDropped(s: State, volume: string, host: string)
    requires volume in s.volumes && !IsMapped(s.rows, volume, host)
    ensures DropRows(Mapped(s, volume, host).rows, volume, host) == s.rows
  {
    var more := NewRows(volume, host, s.volumes[volume].groups, NextScsi(s.rows, host));
    var keep := (r: MapRow) => r.volume != volume || r.host != host;
    FilterAppend(s.rows, more, keep);
    FilterAll(s.rows, keep);
    forall r | r in more ensures !keep(r) {
      var i :| 0 <= i < |more| && more[i] == r;
    }
    FilterNone(more, keep);
  }

  lemma {:induction false} OneRowPerGroup(s: State, volume: string, host: string)
    requires volume in s.volumes && forall h :: !IsMapped(s.rows, volume, h)
    ensures |RowsOf(Mapped(s, volume, host).rows, volume)| == |s.volumes[volume].groups|
  {
    hide NextScsi;
    var more := NewRows(volume, host, s.volumes[volume].groups, NextScsi(s.rows, host));
    assert !IsMapped(s.rows, volume, host);
    NoRowsOf(s.rows, volume);
    forall r | r in more ensures r.volume == volume {
      var i :| 0 <= i < |more| && more[i] == r;
    }
    FilterAppend(s.rows, more, (r: MapRow) => r.volume == volume);
    FilterAll(more, (r: MapRow) => r.volume == volume);
  }

  /** Mapping a volume that was mapped nowhere to one host, and unmapping it without naming the host, puts
      everything back if and only if the volume is reached through one I/O group; through two or more it is
      refused although there is one host. */
  lemma {:induction false} SoleHostUnmap(s: State, volume: string, host: string)
    requires s.faults == [] && Mappable(s, volume) && forall h :: !IsMapped(s.rows, volume, h)
    ensures var t := Mapped(s, volume, host);
      && OnlyMappedTo(t.rows, volume, host)
      && Unmap(t, volume, "")
         == if |s.volumes[volume].groups| == 1 then (s, Ok(())) else (t, Err(ManyRows))
  {
    hide Unmap, RowsOf, DropRows, IsMapped, Mapped;
    var t := Mapped(s, volume, host);
    MappedFacts(s, volume, host);
    MappedRows(s, volume, host);
    OneRowPerGroup(s, volume, host);
    NewRowsDropped(s, volume, host);
    UnmapWithoutHost(t, volume);
  }

  lemma {:induction false} MappedRows(s: State, volume: string, host: string)
    requires volume in s.volumes
    ensures Mapped(s, volume, host) == s.(rows := Mapped(s, volume, host).rows)
  {}

  /* ---- attach and detach ---- */

  lemma {:induction false} NoRowsTo(rows: seq<MapRow>, host: string)
    ensures RowsTo(rows, host) == [] <==> forall v :: !IsMapped(rows, v, host)
  {
    var to := RowsTo(rows, host);
    forall v | IsMapped(rows, v, host) ensures to != [] {
      var r :| r in rows && r.volume == v && r.host == host;
      assert r in to;
    }
    if to != [] {
      assert to[0] in to;
      assert IsMapped(rows, to[0].volume, host);
    }
  }

  /** A detach removes the mapping and, with the host's last one, the host object. */
  lemma {:induction false} DetachExact(s: State, volume: string, info: HostInfo, n: string)
    requires s.faults == [] && Sane(s.hosts) && OnlyMatch(s, info, n)
    ensures var rows := DropRows(s.rows, volume, n);
      Detach(s, volume, info)
      == if SomeMatch(s, info) then
           (s.(rows := rows, hosts := if RowsTo(rows, n) == [] then DropHost(s.hosts, n) else s.hosts), Ok(()))
         else (s, if Answer(s, info, n).Err? then Err(SearchFailed) else Ok(()))
  {
    hide HostFor, Unmap, DropRows, Matches, IsMapped;
    FindsTheMatch(s, info, n);
    if SomeMatch(s, info) {
      UnmapExact(s, volume, n);
      var rows := DropRows(s.rows, volume, n);
      var s2 := s.(rows := rows);
      assert Spend(s2) == s2;
      if RowsTo(rows, n) == [] { EveryRowElsewhere(rows, n); }
      hide DropHost, RowsTo;
    }
  }

  lemma {:induction false} EveryRowElsewhere(rows: seq<MapRow>, host: string)
    requires RowsTo(rows, host) == []
    ensures forall r | r in rows :: r.host != host
  {
    forall r | r in rows ensures r.host != host { assert r in RowsTo(rows, host) <==> r.host == host; }
  }

  predicate Mappable(s: State, volume: string) { volume in s.volumes && s.volumes[volume].groups != [] }

  lemma {:induction false} AttachKnown(s: State, volume: string, info: HostInfo, n: string)
    requires s.faults == [] && Sane(s.hosts) && OnlyMatch(s, info, n) && SomeMatch(s, info) && Mappable(s, volume)
    ensures var t := Mapped(s, volume, n);
      Attach(s, volume, info) == (t, Ok(LunsOf(t, volume, n))) && LunsOf(t, volume, n).Some?
  {
    hide HostFor, MapToHost, Mapped, LunsOf, Matches;
    FindsTheMatch(s, info, n);
    MapToHostExact(s, volume, n);
  }

  /* ---- the site of a new host object ---- */

  /** The site a fault-free look at the volume asks for. */
  function SiteOf(s: State, volume: string): Result<string, Error> {
    PreferSite(s, volume).1
  }

  predicate FirstMaster(vdisks: seq<VdiskRow>, i: nat) {
    i < |vdisks| && vdisks[i].part == "master" && forall j | 0 <= j < i :: vdisks[j].part != "master"
  }

  predicate FirstNamed(iogrps: seq<IogrpRow>, group: string, k: nat) {
    k < |iogrps| && iogrps[k].name == group && forall j | 0 <= j < k :: iogrps[j].name != group
  }

  lemma {:induction false} MasterGroupFacts(vdisks: seq<VdiskRow>, i: nat)
    requires FirstMaster(vdisks, i)
    ensures MasterGroup(vdisks) == vdisks[i].iogrp
  {
    if i > 0 {
      assert vdisks[0].part != "master";
      assert forall j | 0 <= j < |vdisks| - 1 :: vdisks[1..][j] == vdisks[j + 1];
      MasterGroupFacts(vdisks[1..], i - 1);
    }
  }

  lemma {:induction false} SomeMaster(vdisks: seq<VdiskRow>) returns (i: nat)
    requires MasterGroup(vdisks) != ""
    ensures FirstMaster(vdisks, i)
  {
    if vdisks[0].part == "master" {
      i := 0;
    } else {
      i := SomeMaster(vdisks[1..]);
      i := i + 1;
    }
  }

  lemma {:induction false} SiteNamedFacts(iogrps: seq<IogrpRow>, group: string)
    ensures SiteNamed(iogrps, group).None? <==> forall row | row in iogrps :: row.name != group
    ensures forall k: nat | FirstNamed(iogrps, group, k) :: SiteNamed(iogrps, group) == Some(iogrps[k].site)
  {
    if iogrps != [] {
      SiteNamedFacts(iogrps[1..], group);
      assert iogrps[0] in iogrps && forall row | row in iogrps :: row == iogrps[0] || row in iogrps[1..];
      assert forall row | row in iogrps[1..] :: row in iogrps;
      forall k: nat | FirstNamed(iogrps, group, k) ensures SiteNamed(iogrps, group) == Some(iogrps[k].site) {
        if k > 0 {
          assert iogrps[0].name != group;
          assert FirstNamed(iogrps[1..], group, k - 1);
        }
      }
    }
  }

  /** A new host object is created at the site of the I/O group of the volume's first master: the site of
      the first row of that name. It is an error exactly when there is a master whose group no row has, and
      any site will do exactly when there is no master with a group. */
  lemma {:induction false} SiteExact(s: State, volume: string)
    requires s.faults == []
    ensures var vdisks, r := VdisksOf(s, volume), SiteOf(s, volume);
      && (forall i: nat, k: nat | FirstMaster(vdisks, i) && vdisks[i].iogrp != ""
                                  && FirstNamed(s.iogrps, vdisks[i].iogrp, k) :: r == Ok(s.iogrps[k].site))
      && (r == Err(NoSite) <==> exists i: nat :: FirstMaster(vdisks, i) && vdisks[i].iogrp != ""
                                                 && forall row | row in s.iogrps :: row.name != vdisks[i].iogrp)
      && ((forall i: nat | FirstMaster(vdisks, i) :: vdisks[i].iogrp == "") ==> r == Ok(""))
  {
    hide MasterGroup, SiteNamed;
    var vdisks := VdisksOf(s, volume);
    forall i: nat | FirstMaster(vdisks, i) ensures MasterGroup(vdisks) == vdisks[i].iogrp {
      MasterGroupFacts(vdisks, i);
    }
    if MasterGroup(vdisks) != "" {
      var i := SomeMaster(vdisks);
      SiteNamedFacts(s.iogrps, vdisks[i].iogrp);
    }
  }

  /* ---- attaching from an unknown host ---- */

  lemma {:induction false} AttachUnknown(s: State, volume: string, info: HostInfo)
    requires s.faults == [] && Sane(s.hosts) && RowsAttached(s) && !SomeMatch(s, info)
    ensures var (t, r) := Attach(s, volume, info);
      if SiteOf(s, volume).Ok? && Creatable(s.hosts, info) then
        var s1 := s.(hosts := s.hosts + [FullHost(info, SiteOf(s, volume).value)]);
        (t, r) == MapToHost(s1, volume, info.hostname)
      else r.Err? && t == s
  {
    hide HostFor, MapToHost, Matches, CreateHost, Creatable, MasterGroup, SiteNamed;
    NoMatchIsOnly(s, info);
    FindsTheMatch(s, info, "");
    assert Spend(s) == s && PreferSite(s, volume).0 == s;
    CreatableNamed(s.hosts, info);
    if SiteOf(s, volume).Ok? {
      CreateHostExact(s, info, SiteOf(s, volume).value);
      assert AllAnswer(s, PortCount(info));
      assert forall k: nat :: !LeftAt(s, info, k);
    }
  }

  lemma {:induction false} AttachNew(s: State, volume: string, info: HostInfo)
    requires s.faults == [] && Sane(s.hosts) && RowsAttached(s) && !SomeMatch(s, info) && Mappable(s, volume)
    requires SiteOf(s, volume).Ok? && Creatable(s.hosts, info)
    ensures var s1 := s.(hosts := s.hosts + [FullHost(info, SiteOf(s, volume).value)]);
      var t := Mapped(s1, volume, info.hostname);
      Attach(s, volume, info) == (t, Ok(LunsOf(t, volume, info.hostname))) && LunsOf(t, volume, info.hostname).Some?
  {
    hide Attach, MapToHost, Mapped, LunsOf, Matches, Creatable, SiteOf;
    AttachUnknown(s, volume, info);
    var h := FullHost(info, SiteOf(s, volume).value);
    var s1 := s.(hosts := s.hosts + [h]);
    assert h in s1.hosts;
    MapToHostExact(s1, volume, info.hostname);
  }

  lemma {:induction false} CreatableNamed(hosts: seq<Host>, info: HostInfo)
    ensures Creatable(hosts, info) ==> info.hostname != "" && "" !in info.wwpns && !HostExists(hosts, info.hostname)
  {}

  lemma {:induction false} NoMatchIsOnly(s: State, info: HostInfo)
    requires !SomeMatch(s, info)
    ensures OnlyMatch(s, info, "")
  {}

  /* ---- what a failed attach leaves ---- */

  lemma {:induction false} MapFails(s: State, volume: string, host: string)
    requires s.faults == [] && HostExists(s.hosts, host)
    ensures var (t, r) := MapToHost(s, volume, host);
      && (r.Err? <==> volume !in s.volumes && !IsMapped(s.rows, volume, host))
      && (r.Err? ==> t == s)
  {
    hide LunsOf, NextScsi;
    LunsIffMapped(s, volume, host);
    assert Spend(s) == s;
  }

  /** With nothing failing, a failed attach leaves everything as it was if and only if a host object matched,
      or no site is found, or none could be created. In the rest, a volume that does not exist attached from
      a host without an object, the new object is left behind, mapped to nothing. */
  lemma {:induction false} FailedAttachExact(s: State, volume: string, info: HostInfo, n: string)
    requires s.faults == [] && Sane(s.hosts) && RowsAttached(s) && OnlyMatch(s, info, n)
    requires Attach(s, volume, info).1.Err?
    ensures var t := Attach(s, volume, info).0;
      && (t == s <==> SomeMatch(s, info) || SiteOf(s, volume).Err? || !Creatable(s.hosts, info))
      && (t != s ==> volume !in s.volumes && SiteOf(s, volume).Ok?
                     && t == s.(hosts := s.hosts + [FullHost(info, SiteOf(s, volume).value)]))
  {
    hide HostFor, MapToHost, Matches, CreateHost, Creatable, SiteOf, PreferSite;
    FindsTheMatch(s, info, n);
    if SomeMatch(s, info) {
      MatchExists(s, info, n);
      MatchNamed(s, info, n);
      MapFails(s, volume, n);
    } else {
      AttachUnknown(s, volume, info);
      if SiteOf(s, volume).Ok? && Creatable(s.hosts, info) {
        var h := FullHost(info, SiteOf(s, volume).value);
        assert h in s.hosts + [h];
        MapFails(s.(hosts := s.hosts + [h]), volume, info.hostname);
      }
    }
  }

  lemma {:induction false} MatchNamed(s: State, info: HostInfo, n: string)
    requires Sane(s.hosts) && OnlyMatch(s, info, n) && SomeMatch(s, info)
    ensures n != ""
  {
    hide Matches;
    var h :| h in s.hosts && Matches(s, h, info);
  }

  lemma {:induction false} MatchExists(s: State, info: HostInfo, n: string)
    requires OnlyMatch(s, info, n) && SomeMatch(s, info)
    ensures HostExists(s.hosts, n)
  {
    hide Matches;
    var h :| h in s.hosts && Matches(s, h, info);
  }
}
