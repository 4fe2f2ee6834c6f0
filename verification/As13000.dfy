/** The AS13000 driver: the target and LUN allocator behind AttachVolume, and the reference
    counting behind DetachVolume. Each operation is a function from array state to array state and
    a method of `Storage13000Util` proved to do exactly that, call by call. */
module As13000 {
  import opened Wrappers
  import opened Text
  import opened Lists
  import opened TargetArray

  const MAX_TARGET_NUM := 64
  const MAX_LUN_NUM_PER_TARGET := 64
  const OPTIMAL_TARGET_NUM_FOR_K8S := 32
  const K8S_TARGET_PREFIX := "target.inspur.k8s-"

  datatype Error =
    | NoDataPool
    | RestFailure
    | TargetsExhausted
    | EmptyMappingName
    | SeveralMappings
    | LinkUnsupported
    | HostFailure

  datatype Attachment = Attachment(target: string, lun: nat)

  predicate IsK8s(name: string) { K8S_TARGET_PREFIX <= name }

  function Suffix(name: string): int
    requires IsK8s(name)
  {
    Atoi(name[|K8S_TARGET_PREFIX|..]).value
  }

  /** Go's `int` increment wraps. */
  function Increment(n: int): int {
    if n == MAX_INT64 then MIN_INT64 else n + 1
  }

  function TargetName(suffix: int): (name: string)
    ensures IsK8s(name)
  {
    K8S_TARGET_PREFIX + Pad8(suffix)
  }

  function MappingName(pool: string, volume: string): string { pool + "/" + volume }

  /** The position of the first mapping of `lvm`, or the length when there is none. */
  function LvmPosition(luns: seq<Lun>, lvm: string): (i: nat)
    ensures i <= |luns|
    ensures i < |luns| ==> luns[i].lvm == lvm
    ensures forall j | 0 <= j < i :: luns[j].lvm != lvm
  {
    FirstFrom(luns, (l: Lun) => l.lvm == lvm, 0)
  }

  predicate Maps(luns: seq<Lun>, lvm: string) { LvmPosition(luns, lvm) < |luns| }

  /* ---- GetTargetForVolume ---- */

  /** The running variables of the search over the targets. */
  datatype Scan = Scan(count: nat, maxSuffix: int, least: int, chosen: string)

  const SCAN_START := Scan(0, 0, MAX_LUN_NUM_PER_TARGET, "")

  datatype Search =
    | QueryFailed
    | Mapped(target: string, lun: Lun)
    | Unmapped(scan: Scan)

  function Visit(acc: Scan, name: string, load: nat): Scan
    requires IsK8s(name)
  {
    var suffix := Suffix(name);
    Scan(acc.count + 1,
         if suffix > acc.maxSuffix then suffix else acc.maxSuffix,
         if load < acc.least then load else acc.least,
         if load < acc.least then name else acc.chosen)
  }

  function SearchTargets(s: State, ts: seq<Target>, lvm: string, acc: Scan): (State, Search)
    decreases |ts|
  {
    if ts == [] then (s, Unmapped(acc))
    else if !IsK8s(ts[0].name) then SearchTargets(s, ts[1..], lvm, acc)
    else
      var name := ts[0].name;
      if !Up(s) || !HasTarget(s.targets, name) then (Spend(s), QueryFailed)
      else
        var luns := LunsOf(s.targets, name);
        if Maps(luns, lvm) then (Spend(s), Mapped(name, luns[LvmPosition(luns, lvm)]))
        else SearchTargets(Spend(s), ts[1..], lvm, Visit(acc, name, |luns|))
  }

  datatype Decision = Create | Reuse | Refuse

  function Decide(total: nat, scan: Scan): Decision {
    if total < MAX_TARGET_NUM then
      if scan.count < OPTIMAL_TARGET_NUM_FOR_K8S
         || (scan.count >= OPTIMAL_TARGET_NUM_FOR_K8S && scan.least == MAX_LUN_NUM_PER_TARGET)
      then Create
      else Reuse
    else Refuse
  }

  /** What GetTargetForVolume hands to AttachVolume. */
  datatype Choice =
    | Existing(target: string, lun: nat, bound: bool)
    | Vacant(target: string)
    | NoTarget(error: Error)

  /** Creating a target: the POST, reading its node back, opening it to all hosts. */
  function NewTarget(s: State, name: string): (State, Choice) {
    var (s1, created) := CreateTarget(s, name);
    if !created then (s1, NoTarget(RestFailure))
    else if !Up(s1) then (Spend(s1), NoTarget(RestFailure))
    else
      var s2 := Spend(s1);
      (Spend(s2), if Up(s2) then Vacant(name) else NoTarget(RestFailure))
  }

  function GetTarget(s: State, lvm: string, iqn: string): (State, Choice) {
    if !Up(s) then (Spend(s), NoTarget(RestFailure))
    else
      var (s1, search) := SearchTargets(Spend(s), s.targets, lvm, SCAN_START);
      match search
      case QueryFailed => (s1, NoTarget(RestFailure))
      case Mapped(target, lun) => (s1, Existing(target, lun.id, iqn in Split(lun.iqnPort, ',')))
      case Unmapped(scan) =>
        match Decide(|s.targets|, scan)
        case Refuse => (s1, NoTarget(TargetsExhausted))
        case Reuse => (s1, Vacant(scan.chosen))
        case Create => NewTarget(s1, TargetName(Increment(scan.maxSuffix)))
  }

  /* ---- AttachVolume ---- */

  function LookupLun(s: State, target: string, lvm: string): (State, Result<Option<nat>, Error>) {
    if !Up(s) || !HasTarget(s.targets, target) then (Spend(s), Err(RestFailure))
    else
      var luns := LunsOf(s.targets, target);
      (Spend(s), Ok(if Maps(luns, lvm) then Some(luns[LvmPosition(luns, lvm)].id) else None))
  }

  function MapVolume(s: State, target: string, lvm: string): (State, Result<Option<nat>, Error>) {
    var (s1, before) := LookupLun(s, target, lvm);
    if before.Err? || before.value.Some? then (s1, before)
    else
      var (s2, ok) := CreateLun(s1, target, lvm);
      if !ok then (s2, Err(RestFailure)) else LookupLun(s2, target, lvm)
  }

  function BindVolume(s: State, target: string, lun: Option<nat>, iqn: string)
    : (State, Result<Attachment, Error>)
  {
    if lun.None? then (Spend(s), Err(RestFailure))
    else
      var (s1, ok) := Bind(s, target, lun.value, iqn);
      (s1, if ok then Ok(Attachment(target, lun.value)) else Err(RestFailure))
  }

  function Attach(s: State, pool: Option<string>, volume: string, iqn: string)
    : (State, Result<Attachment, Error>)
  {
    if pool.None? then (s, Err(NoDataPool))
    else
      var lvm := MappingName(pool.value, volume);
      var (s1, choice) := GetTarget(s, lvm, iqn);
      match choice
      case NoTarget(error) => (s1, Err(error))
      case Existing(target, lun, bound) =>
        if bound then (s1, Ok(Attachment(target, lun))) else BindVolume(s1, target, Some(lun), iqn)
      case Vacant(target) =>
        var (s2, mapped) := MapVolume(s1, target, lvm);
        if mapped.Err? then (s2, Err(mapped.error)) else BindVolume(s2, target, mapped.value, iqn)
  }

  /* ---- BuildConnProperty ---- */

  /** The protocol of a host, the nodes of the chosen target as it lists them, and what the nodes say of
      their addresses. */
  datatype Net = Net(link: string, nodes: string, addresses: map<string, string>)

  datatype Connection = Connection(target: string, lun: nat, portals: seq<string>)

  const ISCSI_LINK := "iscsi"

  /** One portal for each node that answers; the others are passed over. */
  function Portals(s: State, nodes: seq<string>, addresses: map<string, string>): (State, seq<string>)
    decreases |nodes|
  {
    if nodes == [] then (s, [])
    else
      var (s1, portals) := Portals(Spend(s), nodes[1..], addresses);
      (s1, if Up(s) && nodes[0] in addresses then [addresses[nodes[0]] + ":3260"] + portals else portals)
  }

  function Connect(s: State, at: Attachment, net: Net): (State, Result<Connection, Error>) {
    if net.link != ISCSI_LINK then (s, Err(LinkUnsupported))
    else if !Up(s) then (Spend(s), Err(RestFailure))
    else
      var (s1, portals) := Portals(Spend(s), Split(net.nodes, ','), net.addresses);
      (s1, Ok(Connection(at.target, at.lun, portals)))
  }

  /** AttachVolume: the volume bound to the IQN, then the properties the host connects with. */
  function AttachAndConnect(s: State, pool: Option<string>, volume: string, iqn: string, net: Net)
    : (State, Result<Connection, Error>)
  {
    var (s1, r) := Attach(s, pool, volume, iqn);
    if r.Err? then (s1, Err(r.error)) else Connect(s1, r.value, net)
  }

  /* ---- DetachVolume ---- */

  /** The characters strings.TrimSpace cuts. */
  predicate IsSpace(c: char) {
    var n := c as int;
    || c == ' ' || '\t' <= c <= '\r' || n == 0x85 || n == 0xA0
    || n == 0x1680 || 0x2000 <= n <= 0x200A || n == 0x2028 || n == 0x2029 || n == 0x202F || n == 0x205F || n == 0x3000
  }

  predicate Blank(name: string) {
    forall c | c in name :: IsSpace(c)
  }

  function SlashPosition(name: string): (i: nat)
    ensures i <= |name|
    ensures i < |name| ==> name[i] == '/'
    ensures forall j | 0 <= j < i :: name[j] != '/'
  {
    FirstFrom(name, (c: char) => c == '/', 0)
  }

  /** getPoolAndVolumeName: split at the first slash; no slash means no pool; blank is an error. */
  function PoolAndVolume(name: string): Option<(string, string)> {
    if Blank(name) then None
    else
      var i := SlashPosition(name);
      if i == |name| then Some(("", name)) else Some((name[..i], name[i + 1..]))
  }

  /** A mapping together with the target that carries it. */
  datatype Place = Place(target: string, lun: Lun)

  predicate Carries(lvm: string, volume: string) {
    var parsed := PoolAndVolume(lvm);
    parsed.Some? && parsed.value.1 == volume
  }

  function NamedLuns(target: string, luns: seq<Lun>, volume: string): seq<Place> {
    if luns == [] then []
    else if Carries(luns[0].lvm, volume) then
      [Place(target, luns[0])] + NamedLuns(target, luns[1..], volume)
    else NamedLuns(target, luns[1..], volume)
  }

  function FindMappings(s: State, ts: seq<Target>, name: string, pool: string, volume: string, acc: seq<Place>)
    : (State, Result<seq<Place>, Error>)
    decreases |ts|
  {
    if ts == [] then (s, Ok(acc))
    else if !Up(s) || !HasTarget(s.targets, ts[0].name) then (Spend(s), Err(RestFailure))
    else
      var luns := LunsOf(s.targets, ts[0].name);
      if pool != "" && Maps(luns, name) then
        (Spend(s), Ok(acc + [Place(ts[0].name, luns[LvmPosition(luns, name)])]))
      else
        var more := if pool != "" then [] else NamedLuns(ts[0].name, luns, volume);
        FindMappings(Spend(s), ts[1..], name, pool, volume, acc + more)
  }

  function MappingsOf(s: State, name: string): (State, Result<seq<Place>, Error>) {
    var parsed := PoolAndVolume(name);
    if parsed.None? then (s, Err(EmptyMappingName))
    else if !Up(s) then (Spend(s), Err(RestFailure))
    else FindMappings(Spend(s), s.targets, name, parsed.value.0, parsed.value.1, [])
  }

  /** Removing the LUN, then the target if nothing is mapped on it any more. */
  function Unmap(s: State, target: string, lun: nat): (State, Result<(), Error>) {
    var (s1, removed) := DeleteLun(s, target, lun);
    if !removed then (s1, Err(RestFailure))
    else if !Up(s1) || !HasTarget(s1.targets, target) then (Spend(s1), Ok(()))
    else if LunsOf(s1.targets, target) != [] then (Spend(s1), Ok(()))
    else
      var (s2, deleted) := DeleteTarget(Spend(s1), target);
      (s2, if deleted then Ok(()) else Err(RestFailure))
  }

  function Release(s: State, place: Place, iqn: string): (State, Result<(), Error>) {
    if !Up(s) then (Spend(s), Err(RestFailure))
    else
      var s1 := Spend(s);
      var parts := Split(place.lun.iqnPort, ',');
      var bound := iqn in parts;
      var (s2, released) := if bound then Unbind(s1, place.target, place.lun.id, iqn) else (s1, true);
      if !released then (s2, Err(RestFailure))
      else if |parts| == 1 && (bound || parts[0] == "ALL") then Unmap(s2, place.target, place.lun.id)
      else (s2, Ok(()))
  }

  function Detach(s: State, name: string, iqn: string): (State, Result<(), Error>) {
    var (s1, found) := MappingsOf(s, name);
    match found
    case Err(error) => (s1, Err(error))
    case Ok(places) =>
      if |places| == 0 then (s1, Ok(()))
      else if |places| != 1 then (s1, Err(SeveralMappings))
      else Release(s1, places[0], iqn)
  }

  /** The controller's attach: when the host side fails, the volume is detached again by the name it was
      attached by, whatever comes of that. */
  function ControllerAttach(s: State, pool: Option<string>, volume: string, iqn: string, net: Net, hostSide: bool)
    : (State, Result<Connection, Error>)
  {
    var (s1, r) := AttachAndConnect(s, pool, volume, iqn, net);
    if r.Err? || hostSide then (s1, r) else (Detach(s1, volume, iqn).0, Err(HostFailure))
  }

  /* ---- the driver object ---- */

  class Storage13000Util {
    const rest: RestArray

    constructor (rest: RestArray)
      ensures this.rest == rest
    {
      this.rest := rest;
    }

    /** The scan for a mapping of `lvm` that the searches below share. */
    method FirstMapping(luns: seq<Lun>, lvm: string) returns (i: nat)
      ensures i == LvmPosition(luns, lvm)
    {
      i := 0;
      while i < |luns| && luns[i].lvm != lvm
        invariant 0 <= i <= |luns|
        invariant forall k | 0 <= k < i :: luns[k].lvm != lvm
      {
        i := i + 1;
      }
    }

    /** Every mapping whose volume part is `volume`, whatever its pool. */
    method CollectNamed(target: string, luns: seq<Lun>, volume: string) returns (places: seq<Place>)
      ensures places == NamedLuns(target, luns, volume)
    {
      places := [];
      for j := 0 to |luns|
        invariant NamedLuns(target, luns, volume) == places + NamedLuns(target, luns[j..], volume)
      {
        assert luns[j..][1..] == luns[j + 1..];
        if Carries(luns[j].lvm, volume) {
          places := places + [Place(target, luns[j])];
        }
      }
    }

    method CreateK8sTarget(name: string) returns (choice: Choice)
      modifies rest
      ensures (rest.Current(), choice) == NewTarget(old(rest.Current()), name)
    {
      var created := rest.PostTarget(name);
      if !created { return NoTarget(RestFailure); }
      var read := rest.Answer();
      if !read { return NoTarget(RestFailure); }
      var exposed := rest.Answer();
      return if exposed then Vacant(name) else NoTarget(RestFailure);
    }

    method GetTargetForVolume(lvm: string, iqn: string) returns (choice: Choice)
      modifies rest
      ensures (rest.Current(), choice) == GetTarget(old(rest.Current()), lvm, iqn)
    {
      hide IsK8s, Suffix, TargetName, Split, LvmPosition, NewTarget, Position;
      var ok, targets := rest.QueryTargets();
      if !ok { return NoTarget(RestFailure); }

      var count, maxSuffix, least, chosen := 0, 0, MAX_LUN_NUM_PER_TARGET, "";
      var i := 0;
      ghost var s0 := rest.Current();
      while i < |targets|
        invariant 0 <= i <= |targets| && count >= 0
        invariant rest.targets == old(rest.targets)
        invariant SearchTargets(s0, targets, lvm, SCAN_START)
          == SearchTargets(rest.Current(), targets[i..], lvm, Scan(count, maxSuffix, least, chosen))
      {
        var target := targets[i];
        assert targets[i..][1..] == targets[i + 1..];
        if IsK8s(target.name) {
          count := count + 1;
          var suffix := Suffix(target.name);
          if suffix > maxSuffix { maxSuffix := suffix; }
          var got, luns := rest.QueryLuns(target.name);
          if !got { return NoTarget(RestFailure); }
          if |luns| < least {
            chosen, least := target.name, |luns|;
          }
          var j := FirstMapping(luns, lvm);
          if j < |luns| {
            return Existing(target.name, luns[j].id, iqn in Split(luns[j].iqnPort, ','));
          }
        }
        i := i + 1;
      }

      if |targets| < MAX_TARGET_NUM {
        if count < OPTIMAL_TARGET_NUM_FOR_K8S
          || (count >= OPTIMAL_TARGET_NUM_FOR_K8S && least == MAX_LUN_NUM_PER_TARGET)
        {
          choice := CreateK8sTarget(TargetName(Increment(maxSuffix)));
          return;
        }
      } else {
        return NoTarget(TargetsExhausted);
      }
      return Vacant(chosen);
    }

    method GetLunMappingID(target: string, lvm: string) returns (r: Result<Option<nat>, Error>)
      modifies rest`faults
      ensures (rest.Current(), r) == LookupLun(old(rest.Current()), target, lvm)
    {
      var ok, luns := rest.QueryLuns(target);
      if !ok { return Err(RestFailure); }
      var i := FirstMapping(luns, lvm);
      return Ok(if i < |luns| then Some(luns[i].id) else None);
    }

    method MapVolumeToTarget(target: string, lvm: string) returns (r: Result<Option<nat>, Error>)
      modifies rest
      ensures (rest.Current(), r) == MapVolume(old(rest.Current()), target, lvm)
    {
      r := GetLunMappingID(target, lvm);
      if r.Err? || r.value.Some? { return; }
      var ok := rest.PostLun(target, lvm);
      if !ok { return Err(RestFailure); }
      r := GetLunMappingID(target, lvm);
    }

    /** AttachVolume up to the connection properties. */
    method BindVolumeToIqn(pool: Option<string>, volume: string, iqn: string)
      returns (r: Result<Attachment, Error>)
      modifies rest
      ensures (rest.Current(), r) == Attach(old(rest.Current()), pool, volume, iqn)
    {
      if pool.None? { return Err(NoDataPool); }
      var lvm := MappingName(pool.value, volume);
      var choice := GetTargetForVolume(lvm, iqn);
      var target, lun := "", None;
      match choice {
        case NoTarget(error) =>
          return Err(error);
        case Existing(t, id, bound) =>
          if bound { return Ok(Attachment(t, id)); }
          target, lun := t, Some(id);
        case Vacant(t) =>
          var mapped := MapVolumeToTarget(t, lvm);
          if mapped.Err? { return Err(mapped.error); }
          target, lun := t, mapped.value;
      }
      if lun.None? {
        var _ := rest.Answer();
        return Err(RestFailure);
      }
      var ok := rest.BindIqn(target, lun.value, iqn);
      return if ok then Ok(Attachment(target, lun.value)) else Err(RestFailure);
    }

    method GetPortal(nodes: seq<string>, addresses: map<string, string>) returns (portals: seq<string>)
      modifies rest`faults
      ensures (rest.Current(), portals) == Portals(old(rest.Current()), nodes, addresses)
    {
      portals := [];
      ghost var s0 := rest.Current();
      for i := 0 to |nodes|
        invariant rest.targets == old(rest.targets)
        invariant Portals(s0, nodes, addresses).0 == Portals(rest.Current(), nodes[i..], addresses).0
        invariant Portals(s0, nodes, addresses).1 == portals + Portals(rest.Current(), nodes[i..], addresses).1
      {
        assert nodes[i..][1..] == nodes[i + 1..];
        var up := rest.Answer();
        if up && nodes[i] in addresses { portals := portals + [addresses[nodes[i]] + ":3260"]; }
      }
      assert portals + [] == portals;
    }

    method BuildConnProperty(at: Attachment, net: Net) returns (r: Result<Connection, Error>)
      modifies rest`faults
      ensures (rest.Current(), r) == Connect(old(rest.Current()), at, net)
    {
      if net.link != ISCSI_LINK { return Err(LinkUnsupported); }
      var up := rest.Answer();
      if !up { return Err(RestFailure); }
      var portals := GetPortal(Split(net.nodes, ','), net.addresses);
      return Ok(Connection(at.target, at.lun, portals));
    }

    method AttachVolume(pool: Option<string>, volume: string, iqn: string, net: Net)
      returns (r: Result<Connection, Error>)
      modifies rest
      ensures (rest.Current(), r) == AttachAndConnect(old(rest.Current()), pool, volume, iqn, net)
    {
      hide Attach, Connect;
      var at := BindVolumeToIqn(pool, volume, iqn);
      if at.Err? { return Err(at.error); }
      r := BuildConnProperty(at.value, net);
    }

    method GetVolumeMappingByVolumeName(name: string) returns (r: Result<seq<Place>, Error>)
      modifies rest`faults
      ensures (rest.Current(), r) == MappingsOf(old(rest.Current()), name)
    {
      var parsed := PoolAndVolume(name);
      if parsed.None? { return Err(EmptyMappingName); }
      var (pool, volume) := parsed.value;
      var ok, targets := rest.QueryTargets();
      if !ok { return Err(RestFailure); }
      var places: seq<Place> := [];
      ghost var s0 := rest.Current();
      var i := 0;
      while i < |targets|
        invariant 0 <= i <= |targets| && rest.targets == old(rest.targets)
        invariant FindMappings(s0, targets, name, pool, volume, [])
          == FindMappings(rest.Current(), targets[i..], name, pool, volume, places)
      {
        var target := targets[i].name;
        assert targets[i..][1..] == targets[i + 1..];
        var got, luns := rest.QueryLuns(target);
        if !got { return Err(RestFailure); }
        if pool != "" {
          var j := FirstMapping(luns, name);
          if j < |luns| {
            places := places + [Place(target, luns[j])];
            return Ok(places);
          }
          assert places + [] == places;
        } else {
          var named := CollectNamed(target, luns, volume);
          places := places + named;
        }
        i := i + 1;
      }
      return Ok(places);
    }

    method DetachVolume(name: string, iqn: string) returns (r: Result<(), Error>)
      modifies rest
      ensures (rest.Current(), r) == Detach(old(rest.Current()), name, iqn)
    {
      var found := GetVolumeMappingByVolumeName(name);
      if found.Err? { return Err(found.error); }
      if |found.value| == 0 { return Ok(()); }
      if |found.value| != 1 { return Err(SeveralMappings); }
      var place := found.value[0];
      var up := rest.Answer();
      if !up { return Err(RestFailure); }

      var parts := Split(place.lun.iqnPort, ',');
      var bound := false;
      for i := 0 to |parts|
        invariant bound == (iqn in parts[..i])
      {
        if parts[i] == iqn { bound := true; }
      }
      assert parts[..|parts|] == parts;
      if bound {
        var ok := rest.UnbindIqn(place.target, place.lun.id, iqn);
        if !ok { return Err(RestFailure); }
      }
      if |parts| == 1 && (bound || parts[0] == "ALL") {
        var removed := rest.RemoveLun(place.target, place.lun.id);
        if !removed { return Err(RestFailure); }
        var asked, left := rest.QueryLuns(place.target);
        if asked && left == [] {
          var deleted := rest.RemoveTarget(place.target);
          return if deleted then Ok(()) else Err(RestFailure);
        }
      }
      return Ok(());
    }

    /** `hostSide` is whether the attach on the host itself works. */
    method AttachWithHost(pool: Option<string>, volume: string, iqn: string, net: Net, hostSide: bool)
      returns (r: Result<Connection, Error>)
      modifies rest
      ensures (rest.Current(), r) == ControllerAttach(old(rest.Current()), pool, volume, iqn, net, hostSide)
    {
      hide AttachAndConnect, Detach;
      r := AttachVolume(pool, volume, iqn, net);
      if r.Ok? && !hostSide {
        var _ := DetachVolume(volume, iqn);
        r := Err(HostFailure);
      }
    }
  }
}
