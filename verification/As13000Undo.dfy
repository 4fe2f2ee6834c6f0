/** Undoing an attach: by the whole name, as a later detach does, and by the bare volume name, as the
    controller does when the attach fails on the host. */
module As13000Undo {
  import opened Wrappers
  import opened Text
  import opened Lists
  import opened TargetArray
  import opened As13000
  import opened As13000Bounds
  import opened As13000Outcome
  import opened As13000Detach
  import opened As13000RefCount

  /* ---- attach then detach ---- */

  /** Attaching a volume mapped nowhere and detaching it again by its whole name restores the very same
      targets, whether a target was created, the least loaded one was used, or the attach was refused. */
  lemma {:induction false} AttachThenDetach(s: State, pool: string, volume: string, iqn: string)
    requires s.faults == [] && WithinLimits(s.targets) && NoEmptyK8sTarget(s.targets)
    requires LargestSuffix(s.targets, 0) < MAX_INT64
    requires Qualified(MappingName(pool, volume)) && ',' !in iqn
    requires forall t | t in s.targets :: !Maps(t.luns, MappingName(pool, volume))
    ensures var attached := Attach(s, Some(pool), volume, iqn).0;
      Detach(attached, MappingName(pool, volume), iqn) == (s, Ok(()))
  {
    hide Attach, Detach, Qualified, WithinLimits, LargestSuffix, DistinctNames, IsK8s;
    var ts, lvm := s.targets, MappingName(pool, volume);
    NowhereMeansUnmapped(ts, lvm);
    AttachUnmapped(s, pool, volume, iqn);
    AttachKeeps(s, Some(pool), volume, iqn);
    NameParses(lvm);
    NothingMaps(ts, lvm);
    LimitsParts(ts);
    if |ts| >= MAX_TARGET_NUM {
      DetachUnmapped(s, lvm, iqn);
    } else {
      DetachNewLun(ts, lvm, lvm, iqn, Attach(s, Some(pool), volume, iqn).0.targets);
    }
  }

  lemma {:induction false} NothingMaps(ts: seq<Target>, lvm: string)
    requires Qualified(lvm) && forall t | t in ts :: !Maps(t.luns, lvm)
    ensures Nothing(ts, lvm)
  {
    forall i: nat, a: nat ensures !AnswersAt(ts, lvm, i, a) {
      if i < |ts| { assert ts[i] in ts; }
    }
  }

  /** The name answers to the new LUN, and to no other. */
  ghost predicate NamesOnly(ts: seq<Target>, name: string, lvm: string) {
    && !Blank(name) && Nothing(ts, name)
    && (if Qualified(name) then lvm == name else Carries(lvm, VolumePart(name)))
  }

  lemma {:induction false} DetachNewLun(ts: seq<Target>, name: string, lvm: string, iqn: string, after: seq<Target>)
    requires WithinLimits(after) && (MustCreate(ts) || NoEmptyK8sTarget(ts)) && NamesOnly(ts, name, lvm) && ',' !in iqn
    requires NewlyAttached(ts, lvm, iqn, after)
    ensures Detach(State(after, []), name, iqn) == (State(ts, []), Ok(()))
  {
    hide Detach, WithinLimits, IsK8s, Blank, Qualified, VolumePart, Carries, MustCreate;
    if MustCreate(ts) {
      var k8s :| IsK8s(k8s) && after == Placed(WithNew(ts, k8s), |ts|, lvm, iqn);
      var grown := WithNew(ts, k8s);
      forall i: nat, a: nat ensures !AnswersAt(grown, name, i, a) { assert !AnswersAt(ts, name, i, a); }
      DetachPlaced(grown, |ts|, name, lvm, iqn);
      assert grown[..|ts|] + grown[|ts| + 1..] == ts;
    } else {
      var p: nat :| LeastLoadedVacancy(ts, p) && after == Placed(ts, p, lvm, iqn);
      DetachPlaced(ts, p, name, lvm, iqn);
    }
  }

  lemma {:induction false} DetachPlaced(ts: seq<Target>, p: nat, name: string, lvm: string, iqn: string)
    requires p < |ts| && WithinLimits(Placed(ts, p, lvm, iqn)) && NamesOnly(ts, name, lvm) && ',' !in iqn
    ensures Detach(State(Placed(ts, p, lvm, iqn), []), name, iqn)
      == (State(if ts[p].luns == [] then ts[..p] + ts[p + 1..] else ts, []), Ok(()))
  {
    hide Detach, Blank, Qualified, VolumePart, Carries, IsK8s, Split, UnbindPort;
    var after, a := Placed(ts, p, lvm, iqn), |ts[p].luns|;
    forall j: nat, b: nat | AnswersAt(after, name, j, b) ensures j == p && b == a {
      assert !AnswersAt(ts, name, j, b);
    }
    assert AnswersAt(after, name, p, a);
    LimitsParts(after);
    SplitPlain(iqn, ',');
    DetachMapped(State(after, []), name, iqn, p, a);
    assert after[p].luns[..a] + after[p].luns[a + 1..] == ts[p].luns;
    if a == 0 {
      assert after[..p] + after[p + 1..] == ts[..p] + ts[p + 1..];
    } else {
      assert ts[p := Target(ts[p].name, ts[p].luns)] == ts;
      assert WithoutLun(after, p, a) == ts;
    }
  }

  /* ---- the connection properties ---- */

  function Numbers(first: nat, end: nat): seq<nat>
    decreases end - first
  {
    if first >= end then [] else [first] + Numbers(first + 1, end)
  }

  /** The positions, from k on, of the nodes whose query gets through and answers with an address. */
  function Reached(s: State, first: nat, nodes: seq<string>, addresses: map<string, string>, k: nat): seq<nat> {
    Filter(Numbers(k, |nodes|), (i: nat) => i < |nodes| && Answers(s, first + i) && nodes[i] in addresses)
  }

  /** The portals are those of the nodes whose query, the first being the one numbered `first`, gets through
      and answers with an address: one for each, in the order of the nodes, at that address. */
  predicate PortalsOf(portals: seq<string>, s: State, first: nat, nodes: seq<string>, addresses: map<string, string>) {
    var reached := Reached(s, first, nodes, addresses, 0);
    && |portals| == |reached|
    && forall k | 0 <= k < |portals| ::
         && reached[k] < |nodes| && nodes[reached[k]] in addresses
         && portals[k] == addresses[nodes[reached[k]]] + ":3260"
  }

  lemma {:induction false} PortalsFrom(s: State, t: State, first: nat, nodes: seq<string>,
                                       addresses: map<string, string>, k: nat)
    requires k <= |nodes| && forall i: nat :: Answers(t, i) <==> Answers(s, first + k + i)
    ensures var portals := Portals(t, nodes[k..], addresses).1;
      var reached := Reached(s, first, nodes, addresses, k);
      && |portals| == |reached|
      && forall n | 0 <= n < |portals| ::
           && reached[n] < |nodes| && nodes[reached[n]] in addresses
           && portals[n] == addresses[nodes[reached[n]]] + ":3260"
    decreases |nodes| - k
  {
    if k < |nodes| {
      assert nodes[k..][1..] == nodes[k + 1..];
      OneAnswered(t);
      forall i: nat ensures Answers(Spend(t), i) <==> Answers(s, first + (k + 1) + i) {
        assert Answers(t, i + 1) <==> Answers(s, first + k + (i + 1));
      }
      PortalsFrom(s, Spend(t), first, nodes, addresses, k + 1);
      OneReached(s, first, nodes, addresses, k);
      assert Up(t) <==> Answers(s, first + k + 0);
      hide Answers, Reached;
    }
  }

  lemma {:induction false} OneAnswered(t: State)
    ensures Up(t) <==> Answers(t, 0)
    ensures forall i: nat :: Answers(Spend(t), i) <==> Answers(t, i + 1)
  {}

  lemma {:induction false} OneReached(s: State, first: nat, nodes: seq<string>, addresses: map<string, string>, k: nat)
    requires k < |nodes|
    ensures Reached(s, first, nodes, addresses, k)
      == (if Answers(s, first + k) && nodes[k] in addresses then [k] else [])
         + Reached(s, first, nodes, addresses, k + 1)
  {
    assert Numbers(k, |nodes|)[1..] == Numbers(k + 1, |nodes|);
  }

  /** Building the properties changes no target. It fails for a protocol other than iSCSI or when the targets
      cannot be queried; nodes that do not answer, or have no address, only go without a portal. What is
      answered is the target and the LUN given and the portals of the target's nodes. */
  lemma {:induction false} ConnectOutcome(s: State, at: Attachment, net: Net)
    ensures var (t, r) := Connect(s, at, net);
      && t.targets == s.targets && (s.faults == [] ==> t == s)
      && (r.Ok? <==> net.link == "iscsi" && Up(s))
      && (r.Err? ==> r.error == if net.link != "iscsi" then LinkUnsupported else RestFailure)
      && (r.Ok? ==>
            && r.value.target == at.target && r.value.lun == at.lun
            && PortalsOf(r.value.portals, s, 1, Split(net.nodes, ','), net.addresses))
  {
    if net.link == ISCSI_LINK && Up(s) {
      var nodes := Split(net.nodes, ',');
      PortalsOnly(Spend(s), nodes, net.addresses);
      assert forall i: nat :: Answers(Spend(s), i) <==> Answers(s, 1 + 0 + i);
      assert nodes[0..] == nodes;
      PortalsFrom(s, Spend(s), 1, nodes, net.addresses, 0);
    }
  }

  lemma {:induction false} PortalsOnly(s: State, nodes: seq<string>, addresses: map<string, string>)
    ensures var t := Portals(s, nodes, addresses).0; t.targets == s.targets && (s.faults == [] ==> t == s)
    decreases |nodes|
  {
    if nodes != [] { PortalsOnly(Spend(s), nodes[1..], addresses); }
  }

  /** With nothing failing and an address for every node, there is one portal for each node. */
  lemma {:induction false} AllPortals(s: State, at: Attachment, net: Net)
    requires s.faults == [] && net.link == "iscsi" && forall n | n in Split(net.nodes, ',') :: n in net.addresses
    ensures var nodes, r := Split(net.nodes, ','), Connect(s, at, net).1;
      && r.Ok? && |r.value.portals| == |nodes|
      && forall k | 0 <= k < |nodes| :: r.value.portals[k] == net.addresses[nodes[k]] + ":3260"
  {
    hide Connect, Split;
    ConnectOutcome(s, at, net);
    var nodes := Split(net.nodes, ',');
    NumbersFacts(0, |nodes|);
    FilterAll(Numbers(0, |nodes|), (i: nat) => i < |nodes| && Answers(s, 1 + i) && nodes[i] in net.addresses);
  }

  lemma {:induction false} NumbersFacts(first: nat, end: nat)
    requires first <= end
    ensures |Numbers(first, end)| == end - first
    ensures forall k | 0 <= k < end - first :: Numbers(first, end)[k] == first + k
    decreases end - first
  {
    if first < end { NumbersFacts(first + 1, end); }
  }

  /** A volume that is bound but whose properties cannot be built stays bound: the attach fails, and no
      detach follows. */
  lemma {:induction false} UncompensatedAttach(s: State, pool: string, volume: string, iqn: string, net: Net,
                                               hostSide: bool)
    requires Attach(s, Some(pool), volume, iqn).1.Ok?
    ensures var bound := Attach(s, Some(pool), volume, iqn).0;
      var (t, r) := ControllerAttach(s, Some(pool), volume, iqn, net, hostSide);
      net.link != ISCSI_LINK || !Up(bound) ==> r.Err? && t.targets == bound.targets
  {
    hide Attach, Detach, Connect;
    var (bound, r) := Attach(s, Some(pool), volume, iqn);
    ConnectOutcome(bound, r.value, net);
    assert AttachAndConnect(s, Some(pool), volume, iqn, net) == Connect(bound, r.value, net);
  }

  /* ---- the controller's compensating detach ---- */

  /** Releasing a LUN with this port list by the IQN changes nothing. */
  predicate Unreleased(port: string, iqn: string) { iqn !in Split(port, ',') && port != "ALL" }

  /** The mapping name is among those the volume name answers to. */
  predicate Named(lvm: string, volume: string) {
    if Qualified(volume) then lvm == volume else Carries(lvm, VolumePart(volume))
  }

  /** It is exactly when neither the pool nor the volume has a slash in its name. */
  lemma {:induction false} NamedIff(pool: string, volume: string)
    ensures Named(MappingName(pool, volume), volume) <==> '/' !in pool && '/' !in volume
  {
    if '/' !in pool {
      CarriesOwn(pool, volume);
      if '/' in volume { SlashedVolume(pool, volume); } else { BareVolume(volume); }
    } else if '/' !in volume {
      BareVolume(volume);
      HiddenByPool(pool, volume);
    } else {
      SlashedVolume(pool, volume);
    }
  }

  lemma {:induction false} SlashedVolume(pool: string, volume: string)
    requires '/' in volume
    ensures !Named(MappingName(pool, volume), volume)
  {
    var name := MappingName(pool, volume);
    assert |name| > |volume|;
    var k :| 0 <= k < |volume| && volume[k] == '/';
    NameParses(name);
    var i := SlashPosition(name);
    assert name[|pool|] == '/' && i <= |pool|;
    assert |VolumePart(name)| >= |volume| > |VolumePart(volume)|;
  }

  /** Whether the detach by the volume name puts back what the attach of a volume mapped at (i, a) did. When
      that mapping is the one released, it must have had a port list without the IQN, and not "ALL": then the
      attach has appended the IQN and the detach cuts it off. When it is not, the attach must have changed
      nothing, the IQN being bound already, and the detach must release nothing. */
  ghost predicate UndoesBinding(ts: seq<Target>, volume: string, iqn: string, i: nat, a: nat)
    requires i < |ts| && a < |ts[i].luns|
  {
    if !Blank(volume) && Releasable(ts, volume, i, a) then Unreleased(ts[i].luns[a].iqnPort, iqn)
    else
      && iqn in Split(ts[i].luns[a].iqnPort, ',')
      && (!Blank(volume) ==>
            forall j: nat, b: nat | Releasable(ts, volume, j, b) :: Unreleased(ts[j].luns[b].iqnPort, iqn))
  }

  /** The condition, on the targets before the attach. A volume mapped on no k8s target must have a name that is
      not blank, answers to its own mapping, and to no mapping that is there; and the target it goes to must
      not stand empty beforehand. */
  ghost predicate Undoable(ts: seq<Target>, lvm: string, volume: string, iqn: string) {
    if K8sMapped(ts, lvm) then
      forall i: nat, a: nat | K8sMapsAt(ts, i, a, lvm) :: UndoesBinding(ts, volume, iqn, i, a)
    else
      && !Blank(volume) && Named(lvm, volume) && Nothing(ts, volume)
      && (MustCreate(ts) || NoEmptyK8sTarget(ts))
  }

  /** The controller undoes an attach whose host side has failed by the name it was attached by. For every
      volume, mapped or not, and every name: the targets are those from before the attach if and only if the
      condition holds. */
  lemma {:induction false} BareDetachUndoes(s: State, pool: string, volume: string, iqn: string, net: Net)
    requires s.faults == [] && WithinLimits(s.targets) && LargestSuffix(s.targets, 0) < MAX_INT64 && ',' !in iqn
    requires AttachAndConnect(s, Some(pool), volume, iqn, net).1.Ok?
    ensures ControllerAttach(s, Some(pool), volume, iqn, net, false).0 == s
      <==> Undoable(s.targets, MappingName(pool, volume), volume, iqn)
    ensures ControllerAttach(s, Some(pool), volume, iqn, net, false).1 == Err(HostFailure)
  {
    hide Attach, Detach, WithinLimits, LargestSuffix, Connect, K8sMapped, UndoesBinding, Undoable;
    var ts, lvm := s.targets, MappingName(pool, volume);
    var (t, r) := Attach(s, Some(pool), volume, iqn);
    if r.Ok? { ConnectOutcome(t, r.value, net); }
    AttachKeeps(s, Some(pool), volume, iqn);
    if K8sMapped(ts, lvm) {
      var i: nat, a: nat := MappedPlace(ts, lvm);
      AttachMapped(s, pool, volume, iqn, i, a);
      MappedUndone(s, volume, iqn, i, a, t);
      OnlyPlace(ts, lvm, volume, iqn, i, a);
    } else {
      AttachUnmapped(s, pool, volume, iqn);
      assert |lvm| > |volume|;
      UnmappedUndone(s, lvm, volume, iqn, t);
      UnmappedCondition(ts, lvm, volume, iqn);
    }
  }

  lemma {:induction false} MappedPlace(ts: seq<Target>, lvm: string) returns (i: nat, a: nat)
    requires K8sMapped(ts, lvm)
    ensures K8sMapsAt(ts, i, a, lvm)
  {
    i, a :| K8sMapsAt(ts, i, a, lvm);
  }

  lemma {:induction false} OnlyPlace(ts: seq<Target>, lvm: string, volume: string, iqn: string, i: nat, a: nat)
    requires WithinLimits(ts) && K8sMapsAt(ts, i, a, lvm)
    ensures Undoable(ts, lvm, volume, iqn) <==> UndoesBinding(ts, volume, iqn, i, a)
  {
    hide UndoesBinding, DistinctNames, DistinctIds;
    assert K8sMapped(ts, lvm);
  }

  lemma {:induction false} UnmappedCondition(ts: seq<Target>, lvm: string, volume: string, iqn: string)
    requires !K8sMapped(ts, lvm)
    ensures Undoable(ts, lvm, volume, iqn)
      <==> !Blank(volume) && Named(lvm, volume) && Nothing(ts, volume) && (MustCreate(ts) || NoEmptyK8sTarget(ts))
  {}

  /* -- a volume that was mapped -- */

  lemma {:induction false} BoundMore(port: string, iqn: string)
    requires iqn !in Split(port, ',') && ',' !in iqn
    ensures BindPort(port, iqn) != port
    ensures port != "ALL" ==>
      && Split(BindPort(port, iqn), ',') == Split(port, ',') + [iqn] && UnbindPort(BindPort(port, iqn), iqn) == port
    ensures port == "ALL" ==> Split(BindPort(port, iqn), ',') == [iqn]
  {
    SplitPlain(iqn, ',');
    SplitPlain("ALL", ',');
    if port != "ALL" {
      SplitAppend(port, iqn, ',');
      WithoutAppended(Split(port, ','), iqn);
      JoinOfSplit(port, ',');
      assert |port + "," + iqn| > |port|;
    }
  }

  lemma {:induction false} WithoutAppended(parts: seq<string>, piece: string)
    requires piece !in parts
    ensures Without(parts + [piece], piece) == parts
  {
    if parts == [] {
      assert [piece][1..] == [];
    } else {
      assert (parts + [piece])[1..] == parts[1..] + [piece];
      WithoutAppended(parts[1..], piece);
    }
  }

  /** What a detach by any name comes to: the release of the one place there is to release, if any. */
  lemma {:induction false} DetachMoves(s: State, name: string, iqn: string)
    requires s.faults == [] && WithinLimits(s.targets)
    ensures Blank(name) || (forall j: nat, b: nat :: !Releasable(s.targets, name, j, b)) ==>
      Detach(s, name, iqn).0 == s
    ensures forall j: nat, b: nat | !Blank(name) && Releasable(s.targets, name, j, b) ::
      Detach(s, name, iqn).0 == State(Released(s.targets, j, b, iqn), [])
  {
    hide Detach, Released, Blank, DistinctNames, DistinctIds, Releasable, Ambiguous, Nothing, WithinLimits;
    var ts := s.targets;
    LimitsParts(ts);
    if Blank(name) {
      DetachRefused(s, name, iqn);
    } else {
      OneOutcome(ts, name);
      if Ambiguous(ts, name) { DetachRefused(s, name, iqn); }
      if Nothing(ts, name) { DetachUnmapped(s, name, iqn); }
      forall j: nat, b: nat | Releasable(ts, name, j, b)
        ensures j < |ts| && b < |ts[j].luns| && Detach(s, name, iqn).0 == State(Released(ts, j, b, iqn), [])
      {
        PlaceExists(ts, name, j, b);
        DetachMapped(s, name, iqn, j, b);
      }
    }
  }

  lemma {:induction false} PlaceExists(ts: seq<Target>, name: string, j: nat, b: nat)
    requires Releasable(ts, name, j, b)
    ensures j < |ts| && b < |ts[j].luns|
  {}

  lemma {:induction false} OneReleasable(ts: seq<Target>, name: string, i: nat, a: nat, j: nat, b: nat)
    requires Releasable(ts, name, i, a) && Releasable(ts, name, j, b)
    ensures i == j && a == b
  {
    hide Qualified, Carries, VolumePart;
  }

  /** What is to be released is a matter of mappings, not of bindings. */
  lemma {:induction false} SameReleasable(ts: seq<Target>, i: nat, a: nat, port: string, name: string)
    requires i < |ts| && a < |ts[i].luns|
    ensures forall j: nat, b: nat :: Releasable(WithPort(ts, i, a, port), name, j, b) <==> Releasable(ts, name, j, b)
  {
    hide Qualified, Carries, VolumePart;
    var us := WithPort(ts, i, a, port);
    forall j: nat, b: nat ensures AnswersAt(us, name, j, b) <==> AnswersAt(ts, name, j, b) {}
    hide AnswersAt;
  }

  /** A release leaves everything as it is if and only if the IQN is not bound and the list is not "ALL". */
  lemma {:induction false} ReleasedNothing(ts: seq<Target>, i: nat, a: nat, iqn: string)
    requires i < |ts| && a < |ts[i].luns|
    ensures Released(ts, i, a, iqn) == ts <==> Unreleased(ts[i].luns[a].iqnPort, iqn)
  {
    hide Split, UnbindPort;
    var port := ts[i].luns[a].iqnPort;
    JoinOfSplit(port, ',');
    SplitPlain("ALL", ',');
    if |Split(port, ',')| == 1 && (iqn in Split(port, ',') || Split(port, ',')[0] == "ALL") {
      assert WithoutLun(ts, i, a) != ts by { LunGone(ts, i, a); }
    } else if iqn in Split(port, ',') {
      UnboundLess(port, iqn);
    }
  }

  lemma {:induction false} LunGone(ts: seq<Target>, i: nat, a: nat)
    requires i < |ts| && a < |ts[i].luns|
    ensures |WithoutLun(ts, i, a)| < |ts| || |WithoutLun(ts, i, a)[i].luns| < |ts[i].luns|
  {}

  lemma {:induction false} UnboundLess(port: string, iqn: string)
    requires iqn in Split(port, ',') && |Split(port, ',')| > 1
    ensures UnbindPort(port, iqn) != port
  {
    hide Split, Join;
    var parts := Split(port, ',');
    var left := Without(parts, iqn);
    WithoutGone(parts, iqn);
    if left == [] {
      SplitPlain("ALL", ',');
    } else {
      assert Free(left, ',');
      SplitOfJoin(left, ',');
    }
  }

  lemma {:induction false} WithoutGone(parts: seq<string>, piece: string)
    ensures forall p :: p in Without(parts, piece) <==> p in parts && p != piece
  {
    if parts != [] { WithoutGone(parts[1..], piece); }
  }

  lemma {:induction false} MappedUndone(s: State, volume: string, iqn: string, i: nat, a: nat, t: State)
    requires s.faults == [] && WithinLimits(s.targets) && WithinLimits(t.targets)
    requires i < |s.targets| && a < |s.targets[i].luns| && ',' !in iqn
    requires var port := s.targets[i].luns[a].iqnPort;
      t == State(if iqn in Split(port, ',') then s.targets else WithPort(s.targets, i, a, BindPort(port, iqn)), [])
    ensures Detach(t, volume, iqn).0 == s <==> UndoesBinding(s.targets, volume, iqn, i, a)
  {
    hide Detach, WithinLimits, Releasable, Blank, Split, Released, UnbindPort, BindPort;
    var ts, us, port := s.targets, t.targets, s.targets[i].luns[a].iqnPort;
    DetachMoves(t, volume, iqn);
    if iqn !in Split(port, ',') {
      BoundMore(port, iqn);
      SameReleasable(ts, i, a, BindPort(port, iqn), volume);
      assert us[i].luns[a].iqnPort == BindPort(port, iqn) && us != ts;
    }
    if !Blank(volume) && exists j: nat, b: nat :: Releasable(ts, volume, j, b) {
      var j: nat, b: nat :| Releasable(ts, volume, j, b);
      forall k: nat, c: nat | Releasable(ts, volume, k, c) ensures k == j && c == b {
        OneReleasable(ts, volume, j, b, k, c);
      }
      PlaceExists(ts, volume, j, b);
      if iqn in Split(port, ',') {
        ReleasedNothing(ts, j, b, iqn);
      } else if j == i && b == a {
        ReleasedAgain(ts, i, a, iqn);
      } else {
        ReleasedElsewhere(ts, us, i, a, j, b, iqn);
      }
    }
  }

  /** Releasing what has just been bound. */
  lemma {:induction false} ReleasedAgain(ts: seq<Target>, i: nat, a: nat, iqn: string)
    requires i < |ts| && a < |ts[i].luns| && ',' !in iqn && iqn !in Split(ts[i].luns[a].iqnPort, ',')
    ensures Released(WithPort(ts, i, a, BindPort(ts[i].luns[a].iqnPort, iqn)), i, a, iqn) == ts
      <==> ts[i].luns[a].iqnPort != "ALL"
  {
    hide Split, UnbindPort, BindPort;
    var port := ts[i].luns[a].iqnPort;
    var us := WithPort(ts, i, a, BindPort(port, iqn));
    BoundMore(port, iqn);
    if port == "ALL" {
      LunGone(us, i, a);
      assert |us| == |ts| && |us[i].luns| == |ts[i].luns|;
    } else {
      assert |Split(port, ',') + [iqn]| > 1 && iqn in Split(port, ',') + [iqn];
      var same := ts[i].luns[a].(iqnPort := port);
      assert ts[i].luns[a := same] == ts[i].luns;
      assert us[i].luns[a := us[i].luns[a].(iqnPort := port)] == ts[i].luns;
      assert WithPort(us, i, a, port) == ts;
    }
  }

  /** Releasing another place leaves the one that was changed. */
  lemma {:induction false} ReleasedElsewhere(ts: seq<Target>, us: seq<Target>, i: nat, a: nat, j: nat, b: nat,
                                             iqn: string)
    requires i < |ts| && a < |ts[i].luns| && |us| == |ts| && |us[i].luns| == |ts[i].luns|
    requires us[i].luns[a] != ts[i].luns[a]
    requires j < |ts| && b < |ts[j].luns| && |us[j].luns| == |ts[j].luns| && (i != j || a != b)
    ensures Released(us, j, b, iqn) != ts
  {
    hide Split, UnbindPort;
    LunGone(us, j, b);
  }

  /* -- a volume that was not -- */

  lemma {:induction false} UnmappedUndone(s: State, lvm: string, volume: string, iqn: string, t: State)
    requires s.faults == [] && WithinLimits(s.targets) && WithinLimits(t.targets) && t.faults == [] && ',' !in iqn
    requires !K8sMapped(s.targets, lvm) && NewlyAttached(s.targets, lvm, iqn, t.targets) && lvm != volume
    ensures Detach(t, volume, iqn).0 == s
      <==> !Blank(volume) && Named(lvm, volume) && Nothing(s.targets, volume)
           && (MustCreate(s.targets) || NoEmptyK8sTarget(s.targets))
  {
    hide Detach, WithinLimits, Blank, Split, Released, Qualified, Carries, VolumePart, K8sMapped, Releasable;
    hide MustCreate, NewlyAttached, NoEmptyK8sTarget, Nothing;
    var ts, us := s.targets, t.targets;
    var p, a := NewPlace(ts, lvm, iqn, us);
    DetachMoves(t, volume, iqn);
    StillThere(ts, us, lvm, p, a);
    if !Blank(volume) && Named(lvm, volume) && Nothing(ts, volume) {
      if MustCreate(ts) || NoEmptyK8sTarget(ts) {
        DetachNewLun(ts, volume, lvm, iqn, us);
      } else {
        EmptyTargetGone(ts, volume, lvm, iqn, t);
      }
    } else if !Blank(volume) && exists j: nat, b: nat :: Releasable(us, volume, j, b) {
      var j: nat, b: nat :| Releasable(us, volume, j, b);
      PlaceExists(us, volume, j, b);
      if j == p && b == a { NewIsOnly(ts, us, lvm, volume, p, a); }
      assert j != p || b != a;
      var moved := StillMapped(us, j, b, iqn, p, a);
      StillThere(ts, Released(us, j, b, iqn), lvm, moved.0, moved.1);
    }
  }

  lemma {:induction false} StillThere(ts: seq<Target>, us: seq<Target>, lvm: string, p: nat, a: nat)
    requires !K8sMapped(ts, lvm) && K8sMapsAt(us, p, a, lvm)
    ensures us != ts
  {}

  /** When the new LUN is what a bare name releases, nothing answered to the name before. */
  lemma {:induction false} NewIsOnly(ts: seq<Target>, us: seq<Target>, lvm: string, volume: string, p: nat, a: nat)
    requires Releasable(us, volume, p, a) && us[p].luns[a].lvm == lvm && lvm != volume
    requires StandBeside(ts, us, p, a)
    ensures Named(lvm, volume) && Nothing(ts, volume)
  {
    hide Qualified, Carries, VolumePart;
    forall i: nat, b: nat ensures !AnswersAt(ts, volume, i, b) {
      assert AnswersAt(ts, volume, i, b) ==> AnswersAt(us, volume, i, b);
    }
  }

  /** A target that stood empty goes with the LUN that is released from it. */
  lemma {:induction false} EmptyTargetGone(ts: seq<Target>, volume: string, lvm: string, iqn: string, t: State)
    requires t.faults == [] && WithinLimits(t.targets) && NewlyAttached(ts, lvm, iqn, t.targets) && ',' !in iqn
    requires !Blank(volume) && Named(lvm, volume) && Nothing(ts, volume)
    requires !MustCreate(ts) && !NoEmptyK8sTarget(ts)
    ensures Detach(t, volume, iqn).0.targets != ts
  {
    hide Detach, WithinLimits, Blank, Qualified, VolumePart, Carries, MustCreate;
    var p: nat :| LeastLoadedVacancy(ts, p) && t.targets == Placed(ts, p, lvm, iqn);
    var q :| 0 <= q < |ts| && IsK8s(ts[q].name) && ts[q].luns == [];
    assert ts[q] in ts && ts[p].luns == [];
    DetachPlaced(ts, p, volume, lvm, iqn);
    assert |ts[..p] + ts[p + 1..]| < |ts|;
  }

  /** The LUNs that were there before are where they were, and none of them at (p, a). */
  predicate StandBeside(ts: seq<Target>, after: seq<Target>, p: nat, a: nat) {
    forall i, b | 0 <= i < |ts| && 0 <= b < |ts[i].luns| ::
      i < |after| && b < |after[i].luns| && after[i].luns[b] == ts[i].luns[b] && (i != p || b != a)
  }

  /** The new LUN's place, and those of the LUNs that were there before. */
  lemma {:induction false} NewPlace(ts: seq<Target>, lvm: string, iqn: string, after: seq<Target>)
    returns (p: nat, a: nat)
    requires NewlyAttached(ts, lvm, iqn, after)
    ensures K8sMapsAt(after, p, a, lvm) && after[p].luns[a].iqnPort == iqn
    ensures StandBeside(ts, after, p, a)
  {
    hide IsK8s;
    if MustCreate(ts) {
      var k8s :| IsK8s(k8s) && after == Placed(WithNew(ts, k8s), |ts|, lvm, iqn);
      p, a := |ts|, 0;
    } else {
      p :| LeastLoadedVacancy(ts, p) && after == Placed(ts, p, lvm, iqn);
      a := |ts[p].luns|;
    }
  }

  lemma {:induction false} BareVolume(volume: string)
    requires '/' !in volume
    ensures !Qualified(volume) && VolumePart(volume) == volume
  {
    assert forall i | 0 <= i < |volume| :: volume[i] in volume;
  }

  lemma {:induction false} CarriesOwn(pool: string, volume: string)
    requires '/' !in pool
    ensures Carries(MappingName(pool, volume), volume)
  {
    MappingNameQualified(pool, volume);
    NameParses(MappingName(pool, volume));
  }

  lemma {:induction false} HiddenByPool(pool: string, volume: string)
    requires '/' in pool && '/' !in volume
    ensures !Carries(MappingName(pool, volume), volume)
  {
    var name := MappingName(pool, volume);
    var k :| 0 <= k < |pool| && pool[k] == '/';
    assert name[k] == '/' && name[|pool|] == '/';
    var i := SlashPosition(name);
    assert i <= k;
    NameParses(name);
    var part := VolumePart(name);
    assert part[|pool| - i - 1] == '/' && part[|pool| - i - 1] in part;
  }

  lemma {:induction false} StillMapped(ts: seq<Target>, i: nat, b: nat, iqn: string, p: nat, a: nat)
    returns (moved: (nat, nat))
    requires i < |ts| && b < |ts[i].luns| && p < |ts| && a < |ts[p].luns| && (i != p || b != a)
    ensures var left := Released(ts, i, b, iqn);
      moved.0 < |left| && moved.1 < |left[moved.0].luns| && left[moved.0].luns[moved.1].lvm == ts[p].luns[a].lvm
      && left[moved.0].name == ts[p].name
  {
    hide Split, UnbindPort;
    var parts := Split(ts[i].luns[b].iqnPort, ',');
    moved := if |parts| == 1 && (iqn in parts || parts[0] == "ALL") then Shifted(ts, i, b, p, a) else (p, a);
  }

  /* -- a retried attach -- */

  /** Attaching again with the host side failing takes away the binding that an earlier, successful attach
      of the same volume for the same IQN had made: where a first failed attach would have been undone, the
      second one leaves the targets from before the first. */
  lemma {:induction false} RetriedAttachLoses(s: State, pool: string, volume: string, iqn: string, net: Net)
    requires s.faults == [] && WithinLimits(s.targets) && LargestSuffix(s.targets, 0) < MAX_INT64 && ',' !in iqn
    requires !K8sMapped(s.targets, MappingName(pool, volume)) && net.link == ISCSI_LINK
    requires |s.targets| < MAX_TARGET_NUM && Undoable(s.targets, MappingName(pool, volume), volume, iqn)
    ensures var (once, r) := ControllerAttach(s, Some(pool), volume, iqn, net, true);
      && r.Ok? && K8sMapped(once.targets, MappingName(pool, volume))
      && ControllerAttach(once, Some(pool), volume, iqn, net, true).0 == once
      && ControllerAttach(once, Some(pool), volume, iqn, net, true).1.Ok?
      && ControllerAttach(once, Some(pool), volume, iqn, net, false).0 == s
  {
    hide Attach, Detach, WithinLimits, LargestSuffix, Connect, K8sMapped, Undoable, Split;
    var lvm := MappingName(pool, volume);
    var (t, r) := Attach(s, Some(pool), volume, iqn);
    AttachUnmapped(s, pool, volume, iqn);
    AttachKeeps(s, Some(pool), volume, iqn);
    ConnectOutcome(t, r.value, net);
    BareDetachUndoes(s, pool, volume, iqn, net);
    var p, a := NewPlace(s.targets, lvm, iqn, t.targets);
    SplitPlain(iqn, ',');
    AttachMapped(t, pool, volume, iqn, p, a);
    ConnectOutcome(t, Attach(t, Some(pool), volume, iqn).1.value, net);
    SomewhereMapped(t.targets, p, a, lvm);
  }

  lemma {:induction false} SomewhereMapped(ts: seq<Target>, p: nat, a: nat, lvm: string)
    requires K8sMapsAt(ts, p, a, lvm)
    ensures K8sMapped(ts, lvm)
  {}

  lemma {:induction false} EmptyUndoable()
    ensures WithinLimits([]) && LargestSuffix([], 0) == 0 && !K8sMapped([], MappingName("pool", "volume"))
    ensures Undoable([], MappingName("pool", "volume"), "volume", "iqn")
  {
    NamedIff("pool", "volume");
    assert "volume"[0] in "volume" && !IsSpace('v');
  }

  /** So on an array without targets. */
  lemma {:induction false} RetryExample()
    ensures var s, net := State([], []), Net(ISCSI_LINK, "node1", map["node1" := "10.0.0.1"]);
      var once := ControllerAttach(s, Some("pool"), "volume", "iqn", net, true).0;
      && K8sMapped(once.targets, MappingName("pool", "volume"))
      && ControllerAttach(once, Some("pool"), "volume", "iqn", net, false).0.targets == []
  {
    hide ControllerAttach, K8sMapped;
    var net := Net(ISCSI_LINK, "node1", map["node1" := "10.0.0.1"]);
    EmptyUndoable();
    RetriedAttachLoses(State([], []), "pool", "volume", "iqn", net);
  }
}
