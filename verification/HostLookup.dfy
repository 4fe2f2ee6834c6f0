/** Finding a host object: what the search by WWPN, by initiator and by name answers, and what stays
    hidden when its queries fail. */
module HostLookup {
  import opened Wrappers
  import opened HostArray
  import opened Hosts

  /** Names are distinct and not empty. */
  predicate Sane(hosts: seq<Host>) {
    && (forall h | h in hosts :: h.name != "")
    && (forall i, j | 0 <= i < j < |hosts| :: hosts[i].name != hosts[j].name)
  }

  predicate LoggedIn(fabric: seq<string>, wwpn: string) {
    exists port | port in fabric :: port != "" && SameWwpn(port, wwpn)
  }

  predicate MatchesWwpn(s: State, h: Host, wwpns: seq<string>) {
    exists w | w in wwpns :: LoggedIn(s.fabric, w) && HasPort(h, Wwpn(w))
  }

  predicate MatchesInitiator(h: Host, initiator: string) { initiator != "" && h.iscsi == Some(initiator) }

  /** The host object answers to the host's WWPNs, its initiator or its name. */
  predicate Matches(s: State, h: Host, info: HostInfo) {
    MatchesWwpn(s, h, info.wwpns) || MatchesInitiator(h, info.initiator) || h.name == info.hostname
  }

  /** All the host objects that match go by the name `n`. */
  predicate OnlyMatch(s: State, info: HostInfo, n: string) {
    forall h | h in s.hosts && Matches(s, h, info) :: h.name == n
  }

  predicate SomeMatch(s: State, info: HostInfo) {
    exists h | h in s.hosts :: Matches(s, h, info)
  }

  /* ---- rows ---- */

  lemma {:induction false} OwnerFacts(hosts: seq<Host>, wwpn: string)
    requires forall h | h in hosts :: h.name != ""
    ensures var owner := Owner(hosts, wwpn);
      && (owner != "" ==> exists h | h in hosts :: h.name == owner && HasPort(h, Wwpn(wwpn)))
      && (owner == "" ==> forall h | h in hosts :: !HasPort(h, Wwpn(wwpn)))
  {
    if hosts != [] {
      assert hosts[0] in hosts;
      if !HasPort(hosts[0], Wwpn(wwpn)) {
        OwnerFacts(hosts[1..], wwpn);
        assert forall h | h in hosts :: h == hosts[0] || h in hosts[1..];
      }
    }
  }

  lemma {:induction false} SamePort(h: Host, a: string, b: string)
    requires SameWwpn(a, b)
    ensures HasPort(h, Wwpn(a)) <==> HasPort(h, Wwpn(b))
  {}

  lemma {:induction false} FabricHit(fabric: seq<string>, hosts: seq<Host>, wwpn: string)
    requires forall h | h in hosts :: h.name != ""
    ensures var hit := RowNamed(FabricRows(fabric, hosts, wwpn), wwpn);
      && (hit.Some? ==> LoggedIn(fabric, wwpn)
                        && exists h | h in hosts :: h.name == hit.value && HasPort(h, Wwpn(wwpn)))
      && (hit.None? ==> !LoggedIn(fabric, wwpn) || forall h | h in hosts :: !HasPort(h, Wwpn(wwpn)))
  {
    hide HasPort;
    if fabric != [] {
      FabricHit(fabric[1..], hosts, wwpn);
      assert forall port | port in fabric :: port == fabric[0] || port in fabric[1..];
      assert fabric[0] in fabric;
      if SameWwpn(fabric[0], wwpn) {
        OwnerFacts(hosts, fabric[0]);
        forall h: Host ensures HasPort(h, Wwpn(fabric[0])) <==> HasPort(h, Wwpn(wwpn)) { SamePort(h, fabric[0], wwpn); }
        var rest := FabricRows(fabric[1..], hosts, wwpn);
        assert ([FabricRow(fabric[0], Owner(hosts, fabric[0]))] + rest)[1..] == rest;
      }
    }
  }

  lemma {:induction false} RowFacts(hosts: seq<Host>, name: string)
    requires Sane(hosts) && name != ""
    ensures HostRowOf(hosts, name).name == if HostExists(hosts, name) then name else ""
    ensures forall h | h in hosts && h.name == name ::
      HostRowOf(hosts, name).iscsi == if h.iscsi.Some? then h.iscsi.value else ""
  {
    if hosts != [] {
      assert hosts[0] in hosts;
      forall h | h in hosts && h.name == hosts[0].name ensures h == hosts[0] {
        var i :| 0 <= i < |hosts| && hosts[i] == h;
      }
      if hosts[0].name != name {
        RowFacts(hosts[1..], name);
        assert forall h | h in hosts :: h == hosts[0] || h in hosts[1..];
      }
    }
  }

  /* ---- the search by WWPN and by initiator, whatever fails ---- */

  lemma {:induction false} AnswersFrom(s: State, t: State)
    requires t.faults == Spend(s).faults
    ensures Up(s) <==> Answers(s, 0)
    ensures forall i: nat :: Answers(t, i) <==> Answers(s, i + 1)
  {}

  /** How many of the WWPNs a query is sent for. */
  function Asked(wwpns: seq<string>): nat {
    if wwpns == [] then 0 else (if wwpns[0] == "" then 0 else 1) + Asked(wwpns[1..])
  }

  /** The look-up of the i-th WWPN fails: it is empty, or its query does not get through. */
  predicate WwpnFails(s: State, wwpns: seq<string>, i: nat)
    requires i < |wwpns|
  {
    wwpns[i] == "" || !Answers(s, Asked(wwpns[..i]))
  }

  predicate WwpnHit(s: State, wwpn: string) { RowNamed(FabricRows(s.fabric, s.hosts, wwpn), wwpn).Some? }

  predicate NoWwpnHit(s: State, wwpns: seq<string>) {
    forall i | 0 <= i < |wwpns| :: WwpnFails(s, wwpns, i) || !WwpnHit(s, wwpns[i])
  }

  predicate SomeWwpnFails(s: State, wwpns: seq<string>) {
    exists i | 0 <= i < |wwpns| :: WwpnFails(s, wwpns, i)
  }

  /** The state once k answers have been spent. */
  ghost predicate After(s: State, k: nat, t: State) {
    t == s.(faults := t.faults) && forall i: nat :: Answers(t, i) <==> Answers(s, i + k)
  }

  lemma {:induction false} FirstWwpn(s: State, wwpns: seq<string>)
    requires wwpns != []
    ensures var t, rest := if wwpns[0] == "" then s else Spend(s), wwpns[1..];
      && (WwpnFails(s, wwpns, 0) <==> wwpns[0] == "" || !Up(s))
      && (forall i | 0 <= i < |rest| :: WwpnFails(t, rest, i) <==> WwpnFails(s, wwpns, i + 1))
  {
    var t, rest := if wwpns[0] == "" then s else Spend(s), wwpns[1..];
    AnswersFrom(s, Spend(s));
    assert wwpns[..0] == [];
    forall i | 0 <= i < |rest| ensures WwpnFails(t, rest, i) <==> WwpnFails(s, wwpns, i + 1) {
      assert wwpns[..i + 1][1..] == rest[..i];
    }
  }

  lemma {:induction false} NextWwpn(s: State, wwpns: seq<string>)
    requires wwpns != []
    ensures var t, rest := if wwpns[0] == "" then s else Spend(s), wwpns[1..];
      && (NoWwpnHit(s, wwpns) <==> (WwpnFails(s, wwpns, 0) || !WwpnHit(s, wwpns[0])) && NoWwpnHit(t, rest))
      && (SomeWwpnFails(s, wwpns) <==> WwpnFails(s, wwpns, 0) || SomeWwpnFails(t, rest))
  {
    hide RowNamed, FabricRows;
    var t, rest := if wwpns[0] == "" then s else Spend(s), wwpns[1..];
    FirstWwpn(s, wwpns);
    hide WwpnFails;
    assert forall w :: WwpnHit(t, w) <==> WwpnHit(s, w);
    if NoWwpnHit(t, rest) && (WwpnFails(s, wwpns, 0) || !WwpnHit(s, wwpns[0])) {
      forall i | 0 <= i < |wwpns| ensures WwpnFails(s, wwpns, i) || !WwpnHit(s, wwpns[i]) {
        if i > 0 { assert WwpnFails(t, rest, i - 1) || !WwpnHit(t, rest[i - 1]); }
      }
    }
    if NoWwpnHit(s, wwpns) {
      forall i | 0 <= i < |rest| ensures WwpnFails(t, rest, i) || !WwpnHit(t, rest[i]) {
        assert WwpnFails(s, wwpns, i + 1) || !WwpnHit(s, wwpns[i + 1]);
      }
    }
    if SomeWwpnFails(s, wwpns) && !WwpnFails(s, wwpns, 0) {
      var i :| 0 <= i < |wwpns| && WwpnFails(s, wwpns, i);
      assert WwpnFails(t, rest, i - 1);
    }
    if i :| 0 <= i < |rest| && WwpnFails(t, rest, i) { assert WwpnFails(s, wwpns, i + 1); }
  }

  /** The search by WWPN finds nothing exactly when each look-up fails or lists no host; it then has
      noticed whether one failed, and used one answer for each WWPN that is not empty. */
  lemma {:induction false} WwpnOutcome(s: State, wwpns: seq<string>, failed: bool)
    ensures var (t, found) := ByWwpn(s, wwpns, failed);
      && (found.NotFound? <==> NoWwpnHit(s, wwpns))
      && (found.NotFound? ==>
            && (found.failed <==> failed || SomeWwpnFails(s, wwpns))
            && After(s, Asked(wwpns), t))
      && (found.Named? ==> exists i | 0 <= i < |wwpns| ::
            WwpnHit(s, wwpns[i]) && found.name == RowNamed(FabricRows(s.fabric, s.hosts, wwpns[i]), wwpns[i]).value)
    decreases |wwpns|
  {
    hide RowNamed, FabricRows, NoWwpnHit, SomeWwpnFails, WwpnFails;
    if wwpns == [] {
      EmptySearch(s);
    } else {
      var t, rest := if wwpns[0] == "" then s else Spend(s), wwpns[1..];
      FirstWwpn(s, wwpns);
      NextWwpn(s, wwpns);
      AnswersFrom(s, Spend(s));
      var fails := wwpns[0] == "" || !Up(s);
      WwpnOutcome(t, rest, failed || fails);
    }
  }

  lemma {:induction false} EmptySearch(s: State)
    ensures NoWwpnHit(s, []) && !SomeWwpnFails(s, [])
  {}

  predicate NoInitiatorHit(s: State, listed: seq<Host>, initiator: string, from: nat) {
    forall j | 0 <= j < |listed| :: !Answers(s, from + j) || HostRowOf(s.hosts, listed[j].name).iscsi != initiator
  }

  predicate SomeAnswerMissing(s: State, from: nat, count: nat) {
    exists i | from <= i < from + count :: !Answers(s, i)
  }

  lemma {:induction false} NextListed(s: State, listed: seq<Host>, initiator: string)
    requires listed != []
    ensures NoInitiatorHit(s, listed, initiator, 0)
      <==> (!Up(s) || HostRowOf(s.hosts, listed[0].name).iscsi != initiator)
           && NoInitiatorHit(Spend(s), listed[1..], initiator, 0)
    ensures SomeAnswerMissing(s, 0, |listed|) <==> !Up(s) || SomeAnswerMissing(Spend(s), 0, |listed[1..]|)
  {
    hide HostRowOf;
    var t, rest := Spend(s), listed[1..];
    AnswersFrom(s, t);
    if (!Up(s) || HostRowOf(s.hosts, listed[0].name).iscsi != initiator) && NoInitiatorHit(t, rest, initiator, 0) {
      forall j | 0 <= j < |listed|
        ensures !Answers(s, 0 + j) || HostRowOf(s.hosts, listed[j].name).iscsi != initiator
      {
        if j > 0 { assert !Answers(t, 0 + (j - 1)) || HostRowOf(t.hosts, rest[j - 1].name).iscsi != initiator; }
      }
    }
    if NoInitiatorHit(s, listed, initiator, 0) {
      assert !Answers(s, 0 + 0) || HostRowOf(s.hosts, listed[0].name).iscsi != initiator;
      forall j | 0 <= j < |rest|
        ensures !Answers(t, 0 + j) || HostRowOf(t.hosts, rest[j].name).iscsi != initiator
      {
        assert !Answers(s, 0 + (j + 1)) || HostRowOf(s.hosts, listed[j + 1].name).iscsi != initiator;
      }
    }
    if SomeAnswerMissing(s, 0, |listed|) && Up(s) {
      var j :| 0 <= j < |listed| && !Answers(s, j);
      assert !Answers(t, j - 1);
    }
    if !Up(s) { assert !Answers(s, 0); }
    if j :| 0 <= j < |rest| && !Answers(t, j) { assert !Answers(s, j + 1); }
  }

  /** So does the search by initiator over the listed hosts. */
  lemma {:induction false} InitiatorOutcome(s: State, listed: seq<Host>, initiator: string, failed: bool)
    ensures var (t, found) := ByInitiator(s, listed, initiator, failed);
      && (found.NotFound? <==> NoInitiatorHit(s, listed, initiator, 0))
      && (found.NotFound? ==>
            && (found.failed <==> failed || SomeAnswerMissing(s, 0, |listed|))
            && After(s, |listed|, t))
      && (found.Named? ==> exists h | h in listed ::
            found.name == h.name && HostRowOf(s.hosts, h.name).iscsi == initiator)
    decreases |listed|
  {
    hide HostRowOf, NoInitiatorHit, SomeAnswerMissing;
    if listed == [] {
      NobodyListed(s, initiator);
    } else {
      AnswersFrom(s, Spend(s));
      NextListed(s, listed, initiator);
      InitiatorOutcome(Spend(s), listed[1..], initiator, failed || !Up(s));
      assert listed[0] in listed && forall h | h in listed[1..] :: h in listed;
    }
  }

  lemma {:induction false} NobodyListed(s: State, initiator: string)
    ensures NoInitiatorHit(s, [], initiator, 0) && !SomeAnswerMissing(s, 0, 0)
  {}

  lemma {:induction false} SearchLater(s: State, k: nat, t: State, listed: seq<Host>, initiator: string)
    requires After(s, k, t)
    ensures NoInitiatorHit(t, listed, initiator, 0) <==> NoInitiatorHit(s, listed, initiator, k)
    ensures SomeAnswerMissing(t, 0, |listed|) <==> SomeAnswerMissing(s, k, |listed|)
  {
    hide HostRowOf, Answers;
    forall j: nat ensures Answers(t, j) <==> Answers(s, k + j) { assert Answers(t, j) <==> Answers(s, j + k); }
    if i :| 0 <= i < |listed| && !Answers(t, i) { assert !Answers(s, i + k); }
    if i :| k <= i < k + |listed| && !Answers(s, i) { assert !Answers(t, i - k); }
  }

  /** The search by WWPN and by initiator comes to its end without a host: no look-up of either kind that
      gets through lists one. */
  predicate NeitherFinds(s: State, info: HostInfo) {
    var q := Asked(info.wwpns);
    && NoWwpnHit(s, info.wwpns)
    && (info.initiator != "" ==> Answers(s, q) && NoInitiatorHit(s, s.hosts, info.initiator, q + 1))
  }

  /** One of its look-ups fails. */
  predicate SomeLookupFails(s: State, info: HostInfo) {
    || SomeWwpnFails(s, info.wwpns)
    || (info.initiator != "" && SomeAnswerMissing(s, Asked(info.wwpns) + 1, |s.hosts|))
  }

  /** When a failed search is reported, for every state, every pattern of failures and everything a host may
      say of itself: exactly when no host name is given, neither search finds a host, and some look-up has
      failed. Given a host name the failed look-ups are forgotten. */
  lemma {:induction false} SearchErrorExact(s: State, info: HostInfo)
    ensures HostFor(s, info).1 == Err(SearchFailed)
      <==> info.hostname == "" && NeitherFinds(s, info) && SomeLookupFails(s, info)
  {
    hide ByWwpn, ByInitiator, HostRowOf, NoWwpnHit, SomeWwpnFails, NoInitiatorHit, SomeAnswerMissing, Asked;
    WwpnOutcome(s, info.wwpns, false);
    var (t, byWwpn) := ByWwpn(s, info.wwpns, false);
    if byWwpn.NotFound? && info.initiator != "" {
      var q := Asked(info.wwpns);
      AnswersFrom(t, Spend(t));
      assert Up(t) <==> Answers(s, q) by { assert Answers(t, 0) <==> Answers(s, 0 + q); }
      assert After(s, q + 1, Spend(t)) by {
        forall i: nat ensures Answers(Spend(t), i) <==> Answers(s, i + (q + 1)) {
          assert Answers(t, i + 1) <==> Answers(s, (i + 1) + q);
        }
      }
      assert t.hosts == s.hosts;
      SearchLater(s, q + 1, Spend(t), s.hosts, info.initiator);
      InitiatorOutcome(Spend(t), t.hosts, info.initiator, byWwpn.failed);
      hide After, Answers;
      var byInitiator := ByInitiator(Spend(t), t.hosts, info.initiator, byWwpn.failed).1;
      assert Up(t) && byInitiator.NotFound? <==> NeitherFinds(s, info);
      assert byInitiator.NotFound? ==> (byInitiator.failed <==> SomeLookupFails(s, info));
    }
  }

  /* ---- the fault-free search ---- */

  lemma {:induction false} WwpnSearch(s: State, wwpns: seq<string>)
    requires s.faults == [] && forall h | h in s.hosts :: h.name != ""
    ensures var (t, found) := ByWwpn(s, wwpns, false);
      && (found.Named? ==> exists h | h in s.hosts :: h.name == found.name && MatchesWwpn(s, h, wwpns))
      && (found.NotFound? ==>
            t == s && (found.failed <==> "" in wwpns) && forall h | h in s.hosts :: !MatchesWwpn(s, h, wwpns))
  {
    hide HasPort, RowNamed, FabricRows;
    WwpnOutcome(s, wwpns, false);
    var (t, found) := ByWwpn(s, wwpns, false);
    NothingSpent(s, wwpns, false);
    forall w ensures WwpnHit(s, w) ==> exists h | h in s.hosts :: HasPort(h, Wwpn(w)) {
      FabricHit(s.fabric, s.hosts, w);
    }
    if found.Named? {
      var i :| 0 <= i < |wwpns| && WwpnHit(s, wwpns[i])
        && found.name == RowNamed(FabricRows(s.fabric, s.hosts, wwpns[i]), wwpns[i]).value;
      FabricHit(s.fabric, s.hosts, wwpns[i]);
      var h :| h in s.hosts && h.name == found.name && HasPort(h, Wwpn(wwpns[i]));
      assert wwpns[i] in wwpns;
    } else {
      forall h, w | h in s.hosts && w in wwpns && LoggedIn(s.fabric, w) ensures !HasPort(h, Wwpn(w)) {
        var i :| 0 <= i < |wwpns| && wwpns[i] == w;
        FabricHit(s.fabric, s.hosts, w);
        assert WwpnFails(s, wwpns, i) || !WwpnHit(s, wwpns[i]);
      }
      if "" in wwpns {
        var i :| 0 <= i < |wwpns| && wwpns[i] == "";
        assert WwpnFails(s, wwpns, i);
      }
    }
  }

  lemma {:induction false} NothingSpent(s: State, wwpns: seq<string>, failed: bool)
    requires s.faults == []
    ensures ByWwpn(s, wwpns, failed).0 == s
    decreases |wwpns|
  {
    hide RowNamed, FabricRows;
    assert Spend(s) == s;
    if wwpns != [] {
      NothingSpent(s, wwpns[1..], failed);
      NothingSpent(s, wwpns[1..], true);
    }
  }

  lemma {:induction false} InitiatorSearch(s: State, listed: seq<Host>, initiator: string, failed: bool)
    requires s.faults == [] && Sane(s.hosts) && initiator != "" && forall h | h in listed :: h in s.hosts
    ensures var (t, found) := ByInitiator(s, listed, initiator, failed);
      && t == s
      && (found.Named? ==> exists h | h in s.hosts :: h.name == found.name && MatchesInitiator(h, initiator))
      && (found.NotFound? ==> found.failed == failed && forall h | h in listed :: !MatchesInitiator(h, initiator))
    decreases |listed|
  {
    if listed != [] {
      assert listed[0] in listed && Spend(s) == s;
      assert forall h | h in listed :: h == listed[0] || h in listed[1..];
      RowFacts(s.hosts, listed[0].name);
      hide HostRowOf;
      InitiatorSearch(s, listed[1..], initiator, failed);
    }
  }

  /** The answer of a search with nothing failing: the name of the host that matches, or an empty one. Only
      an empty WWPN, with no host name to fall back on, is reported as an error instead. */
  function Answer(s: State, info: HostInfo, n: string): Result<string, Error> {
    if SomeMatch(s, info) then Ok(n)
    else if info.hostname == "" && "" in info.wwpns then Err(SearchFailed)
    else Ok("")
  }

  /** With nothing failing, the search finds the host object that matches, by whichever key, and an
      empty name without one; an absent host's empty row is read as just that. */
  lemma {:induction false} FindsTheMatch(s: State, info: HostInfo, n: string)
    requires s.faults == [] && Sane(s.hosts) && OnlyMatch(s, info, n)
    ensures HostFor(s, info) == (s, Answer(s, info, n))
  {
    hide ByWwpn, ByInitiator, MatchesWwpn, MatchesInitiator, HostRowOf;
    assert Spend(s) == s;
    WwpnSearch(s, info.wwpns);
    NothingSpent(s, info.wwpns, false);
    var byWwpn := ByWwpn(s, info.wwpns, false).1;
    if byWwpn.Named? {
      var h :| h in s.hosts && h.name == byWwpn.name && MatchesWwpn(s, h, info.wwpns);
      assert Matches(s, h, info);
      return;
    }
    NoInitiator();
    if info.initiator != "" {
      InitiatorSearch(s, s.hosts, info.initiator, byWwpn.failed);
      var byInitiator := ByInitiator(s, s.hosts, info.initiator, byWwpn.failed).1;
      if byInitiator.Named? {
        var h :| h in s.hosts && h.name == byInitiator.name && MatchesInitiator(h, info.initiator);
        assert Matches(s, h, info);
        return;
      }
    }
    ByNameOnly(s, info, n, byWwpn.failed);
  }

  lemma {:induction false} ByNameOnly(s: State, info: HostInfo, n: string, failed: bool)
    requires s.faults == [] && Sane(s.hosts) && OnlyMatch(s, info, n) && (failed <==> "" in info.wwpns)
    requires forall h | h in s.hosts :: !MatchesWwpn(s, h, info.wwpns) && !MatchesInitiator(h, info.initiator)
    ensures ByHostname(s, info.hostname, failed) == (s, Answer(s, info, n))
  {
    hide MatchesWwpn, MatchesInitiator, HostRowOf;
    assert forall h | h in s.hosts :: Matches(s, h, info) <==> h.name == info.hostname;
    if info.hostname != "" { RowFacts(s.hosts, info.hostname); }
  }

  lemma {:induction false} NoInitiator()
    ensures forall h: Host :: !MatchesInitiator(h, "")
  {}

  /* ---- what a forgotten failure hides ---- */

  /** A host object that would be found by its WWPN is not seen while that query fails: the answer is "no
      host", not an error. A detach then reports success and leaves the volume mapped; an attach goes on to
      create a second host object, which fails for want of a free port. */
  lemma {:induction false} FailedQueryHidesHost(s: State, volume: string, wwpn: string, h: Host, hostname: string)
    requires s.faults == [false] && s.hosts == [h] && IsMapped(s.rows, volume, h.name)
    requires wwpn != "" && HasPort(h, Wwpn(wwpn)) && hostname != "" && hostname != h.name && h.name != ""
    requires LoggedIn(s.fabric, wwpn)
    ensures var info, up := HostInfo(hostname, "", [wwpn]), s.(faults := []);
      && HostFor(up, info).1 == Ok(h.name)
      && HostFor(s, info).1 == Ok("")
      && Detach(s, volume, info) == (up, Ok(()))
      && (MasterGroup(VdisksOf(s, volume)) == "" ==> Attach(s, volume, info) == (up, Err(ArrayFailure)))
  {
    hide RowNamed, FabricRows, HasPort, MapToHost;
    var info, up := HostInfo(hostname, "", [wwpn]), s.(faults := []);
    FabricHit(s.fabric, s.hosts, wwpn);
    assert h in s.hosts && forall g | g in s.hosts :: g == h;
    assert info.wwpns[1..] == [];
    assert ByWwpn(up, info.wwpns, false).1 == Named(h.name);
    assert Spend(s) == up && Spend(up) == up;
    assert ByWwpn(s, info.wwpns, false) == (up, NotFound(true));
    assert HostRowOf(up.hosts, hostname).name == "" by { assert up.hosts[1..] == []; }
    assert !PortFree(up.hosts, Wwpn(wwpn));
  }

  /** One such state, spelled out. */
  lemma {:induction false} HiddenHostExample()
    ensures var s := State([Host("one", None, ["AB"], "")], [MapRow("v", "one", "0", 0)], map[], [], ["ab"], [false]);
      var info := HostInfo("two", "", ["ab"]);
      && HostFor(s.(faults := []), info).1 == Ok("one") && HostFor(s, info).1 == Ok("")
      && Detach(s, "v", info).1 == Ok(()) && IsMapped(Detach(s, "v", info).0.rows, "v", "one")
  {
    hide HostFor, Detach;
    var h := Host("one", None, ["AB"], "");
    var row := MapRow("v", "one", "0", 0);
    var s := State([h], [row], map[], [], ["ab"], [false]);
    assert row in s.rows;
    assert ToLower("AB") == "ab" == ToLower("ab");
    assert h.wwpns[0] in h.wwpns && SameWwpn(h.wwpns[0], "ab");
    assert s.fabric[0] in s.fabric && SameWwpn(s.fabric[0], "ab");
    FailedQueryHidesHost(s, "v", "ab", h, "two");
  }
}
