/** Limits of the AS13000 allocator that hold in every run, whichever calls fail. */
module As13000Bounds {
  import opened Wrappers
  import opened Text
  import opened TargetArray
  import opened As13000

  predicate DistinctNames(ts: seq<Target>) {
    forall i, j | 0 <= i < j < |ts| :: ts[i].name != ts[j].name
  }

  predicate DistinctIds(luns: seq<Lun>) {
    forall a, b | 0 <= a < b < |luns| :: luns[a].id != luns[b].id
  }

  /** LUN `a` of the k8s target at `i` maps `lvm`. */
  predicate K8sMapsAt(ts: seq<Target>, i: nat, a: nat, lvm: string) {
    i < |ts| && IsK8s(ts[i].name) && a < |ts[i].luns| && ts[i].luns[a].lvm == lvm
  }

  ghost predicate K8sMapped(ts: seq<Target>, lvm: string) {
    exists i: nat, a: nat :: K8sMapsAt(ts, i, a, lvm)
  }

  /** No pool/volume has two places on k8s targets. */
  ghost predicate MappedOnce(ts: seq<Target>) {
    forall lvm, i, a, j, b | K8sMapsAt(ts, i, a, lvm) && K8sMapsAt(ts, j, b, lvm) :: i == j && a == b
  }

  ghost predicate WithinLimits(ts: seq<Target>) {
    && |ts| <= MAX_TARGET_NUM
    && DistinctNames(ts)
    && (forall i | 0 <= i < |ts| && IsK8s(ts[i].name) :: |ts[i].luns| <= MAX_LUN_NUM_PER_TARGET)
    && (forall i | 0 <= i < |ts| :: DistinctIds(ts[i].luns))
    && MappedOnce(ts)
  }

  predicate SuffixesUpTo(ts: seq<Target>, bound: int) {
    forall i | 0 <= i < |ts| && IsK8s(ts[i].name) :: Suffix(ts[i].name) <= bound
  }

  lemma {:induction false} NamePosition(ts: seq<Target>, i: nat)
    requires DistinctNames(ts) && i < |ts|
    ensures Position(ts, ts[i].name) == i
  {
    assert Position(ts, ts[i].name) <= i;
  }

  /* ---- fresh names ---- */

  lemma {:induction false} SuffixOfName(n: nat)
    requires n <= MAX_INT64
    ensures Suffix(TargetName(n)) == n
  {
    AtoiOfPrinted(n);
    assert TargetName(n)[|K8S_TARGET_PREFIX|..] == Pad8(n);
  }

  /** The largest numeric suffix in use, as the search computes it: at least 0. */
  function LargestSuffix(ts: seq<Target>, floor: int): (m: int)
    ensures m >= floor
    ensures SuffixesUpTo(ts, m)
    ensures m == floor || exists i | 0 <= i < |ts| :: IsK8s(ts[i].name) && Suffix(ts[i].name) == m
  {
    if ts == [] then floor
    else
      var here := if IsK8s(ts[0].name) && Suffix(ts[0].name) > floor then Suffix(ts[0].name) else floor;
      var m := LargestSuffix(ts[1..], here);
      assert forall i | 1 <= i < |ts| :: ts[i] == ts[1..][i - 1];
      m
  }

  /** The name the allocator creates is taken exactly when a k8s target has the largest suffix an int can
      hold, and another the smallest, to which the counter wraps. */
  lemma {:induction false} FreshTargetName(ts: seq<Target>)
    ensures (exists t | t in ts :: t.name == TargetName(Increment(LargestSuffix(ts, 0))))
      <==> (exists t | t in ts :: IsK8s(t.name) && Suffix(t.name) == MAX_INT64)
           && (exists t | t in ts :: t.name == TargetName(MIN_INT64))
  {
    var m := LargestSuffix(ts, 0);
    if m < MAX_INT64 {
      SuffixOfName(m + 1);
      forall t | t in ts ensures t.name != TargetName(m + 1) {
        var i :| 0 <= i < |ts| && ts[i] == t;
        if IsK8s(ts[i].name) { assert Suffix(ts[i].name) <= m; }
      }
    } else {
      forall t | t in ts && IsK8s(t.name) ensures Suffix(t.name) <= MAX_INT64 {}
      var i :| 0 <= i < |ts| && IsK8s(ts[i].name) && Suffix(ts[i].name) == m;
      assert m == MAX_INT64;
    }
  }

  /** Below the largest int, the name is new. */
  lemma {:induction false} FreshBelow(ts: seq<Target>)
    requires LargestSuffix(ts, 0) < MAX_INT64
    ensures forall t | t in ts :: t.name != TargetName(LargestSuffix(ts, 0) + 1)
  {
    hide TargetName, Suffix, IsK8s;
    FreshTargetName(ts);
    forall t | t in ts && IsK8s(t.name) ensures Suffix(t.name) < MAX_INT64 {
      var i :| 0 <= i < |ts| && ts[i] == t;
    }
  }

  /** The wrap does collide: two targets whose suffixes are the largest int and the wrapped one. */
  lemma {:induction false} WrappedNameCollides()
    ensures var ts := [Target(TargetName(MAX_INT64), []), Target(TargetName(MIN_INT64), [])];
      DistinctNames(ts) && exists t | t in ts :: t.name == TargetName(Increment(LargestSuffix(ts, 0)))
  {
    SuffixOfName(MAX_INT64);
    AtoiOfMinInt();
    var ts := [Target(TargetName(MAX_INT64), []), Target(TargetName(MIN_INT64), [])];
    assert TargetName(MIN_INT64)[|K8S_TARGET_PREFIX|..] == Pad8(MIN_INT64);
    assert Suffix(ts[0].name) == MAX_INT64 && Suffix(ts[1].name) == MIN_INT64;
    assert LargestSuffix(ts, 0) == MAX_INT64;
    assert ts[1] in ts;
  }

  /* ---- what a search that found no mapping knows ---- */

  ghost predicate NowhereIn(ts: seq<Target>, lvm: string) {
    forall t | t in ts && IsK8s(t.name) :: !Maps(t.luns, lvm)
  }

  function K8sCount(ts: seq<Target>): nat {
    if ts == [] then 0 else (if IsK8s(ts[0].name) then 1 else 0) + K8sCount(ts[1..])
  }

  /** The k8s target at `p` carries `load` LUNs, fewer than every k8s target listed before it. */
  predicate FirstWithLoad(ts: seq<Target>, p: nat, load: int) {
    && p < |ts| && IsK8s(ts[p].name) && |ts[p].luns| == load
    && forall j | 0 <= j < p && IsK8s(ts[j].name) :: |ts[j].luns| > load
  }

  ghost predicate Chosen(ts: seq<Target>, acc: Scan, scan: Scan) {
    && scan.least <= acc.least
    && (forall t | t in ts && IsK8s(t.name) :: scan.least <= |t.luns|)
    && (if scan.least == acc.least then scan.chosen == acc.chosen
        else exists p: nat :: FirstWithLoad(ts, p, scan.least) && ts[p].name == scan.chosen)
  }

  ghost predicate Explains(ts: seq<Target>, lvm: string, acc: Scan, search: Search) {
    match search
    case QueryFailed => true
    case Mapped(target, lun) =>
      exists t | t in ts :: IsK8s(t.name) && t.name == target
        && Maps(t.luns, lvm) && t.luns[LvmPosition(t.luns, lvm)] == lun
    case Unmapped(scan) =>
      && NowhereIn(ts, lvm)
      && scan.count == acc.count + K8sCount(ts)
      && scan.maxSuffix == LargestSuffix(ts, acc.maxSuffix)
      && Chosen(ts, acc, scan)
  }

  lemma {:induction false} ChosenOneMore(t: Target, rest: seq<Target>, acc: Scan, scan: Scan)
    requires Chosen(rest, if IsK8s(t.name) then Visit(acc, t.name, |t.luns|) else acc, scan)
    ensures Chosen([t] + rest, acc, scan)
  {
    var ts := [t] + rest;
    var mid := if IsK8s(t.name) then Visit(acc, t.name, |t.luns|) else acc;
    assert forall u | u in ts :: u == t || u in rest;
    if scan.least < mid.least {
      var p: nat :| FirstWithLoad(rest, p, scan.least) && rest[p].name == scan.chosen;
      assert FirstWithLoad(ts, p + 1, scan.least);
    } else if scan.least < acc.least {
      assert FirstWithLoad(ts, 0, scan.least);
    }
  }

  lemma {:induction false} ExplainOneMore(t: Target, rest: seq<Target>, lvm: string, acc: Scan, search: Search)
    requires IsK8s(t.name) ==> !Maps(t.luns, lvm)
    requires Explains(rest, lvm, if IsK8s(t.name) then Visit(acc, t.name, |t.luns|) else acc, search)
    ensures Explains([t] + rest, lvm, acc, search)
  {
    hide Chosen, Suffix, IsK8s, LvmPosition;
    var ts := [t] + rest;
    assert ts[0] == t && ts[1..] == rest && t in ts;
    if search.Unmapped? { ChosenOneMore(t, rest, acc, search.scan); }
    assert forall u | u in ts :: u == t || u in rest;
    assert forall u | u in rest :: u in ts;
  }

  /** Asking the array about `ts` gives the LUNs recorded in `ts`. */
  ghost predicate Mirrors(current: seq<Target>, ts: seq<Target>) {
    forall t | t in ts :: HasTarget(current, t.name) && LunsOf(current, t.name) == t.luns
  }

  lemma {:induction false} MirrorsItself(ts: seq<Target>)
    requires DistinctNames(ts)
    ensures Mirrors(ts, ts)
  {
    forall t | t in ts ensures HasTarget(ts, t.name) && LunsOf(ts, t.name) == t.luns {
      var i :| 0 <= i < |ts| && ts[i] == t;
      NamePosition(ts, i);
    }
  }

  lemma {:induction false} SearchFacts(s: State, ts: seq<Target>, lvm: string, acc: Scan)
    requires Mirrors(s.targets, ts)
    ensures var (s', search) := SearchTargets(s, ts, lvm, acc);
      && s'.targets == s.targets
      && (s.faults == [] ==> s'.faults == [] && !search.QueryFailed?)
      && Explains(ts, lvm, acc, search)
    decreases |ts|
  {
    if ts != [] {
      var t := ts[0];
      var search := SearchTargets(s, ts, lvm, acc).1;
      assert t in ts && ts == [t] + ts[1..];
      if !IsK8s(t.name) {
        SearchFacts(s, ts[1..], lvm, acc);
        ExplainOneMore(t, ts[1..], lvm, acc, search);
      } else if Up(s) && !Maps(t.luns, lvm) {
        SearchFacts(Spend(s), ts[1..], lvm, Visit(acc, t.name, |t.luns|));
        ExplainOneMore(t, ts[1..], lvm, acc, search);
      }
    }
  }

  /* ---- each change of the targets keeps the limits ---- */

  lemma {:induction false} AppendTarget(ts: seq<Target>, name: string)
    requires WithinLimits(ts) && |ts| < MAX_TARGET_NUM
    requires forall t | t in ts :: t.name != name
    ensures WithinLimits(ts + [Target(name, [])])
  {
    var after := ts + [Target(name, [])];
    forall lvm, i, a, j, b | K8sMapsAt(after, i, a, lvm) && K8sMapsAt(after, j, b, lvm)
      ensures i == j && a == b
    {
      assert K8sMapsAt(ts, i, a, lvm) && K8sMapsAt(ts, j, b, lvm);
    }
  }

  lemma {:induction false} AddLunKeeps(ts: seq<Target>, name: string, lvm: string)
    requires WithinLimits(ts) && HasTarget(ts, name)
    requires |LunsOf(ts, name)| < MAX_LUN_NUM_PER_TARGET && !K8sMapped(ts, lvm)
    ensures WithinLimits(AddLun(ts, name, lvm))
  {
    var after := AddLun(ts, name, lvm);
    var p := Position(ts, name);
    var last := |ts[p].luns|;
    forall x, i, a, j, b | K8sMapsAt(after, i, a, x) && K8sMapsAt(after, j, b, x)
      ensures i == j && a == b
    {
      if x == lvm {
        assert (i == p && a == last) || K8sMapsAt(ts, i, a, x);
        assert (j == p && b == last) || K8sMapsAt(ts, j, b, x);
      } else {
        assert K8sMapsAt(ts, i, a, x) && K8sMapsAt(ts, j, b, x);
      }
    }
  }

  lemma {:induction false} SetPortKeeps(ts: seq<Target>, name: string, id: nat, port: string)
    requires WithinLimits(ts) && HasLun(ts, name, id)
    ensures WithinLimits(SetPort(ts, name, id, port))
  {
    var after := SetPort(ts, name, id, port);
    forall x, i, a, j, b | K8sMapsAt(after, i, a, x) && K8sMapsAt(after, j, b, x)
      ensures i == j && a == b
    {
      assert K8sMapsAt(ts, i, a, x) && K8sMapsAt(ts, j, b, x);
    }
  }

  lemma {:induction false} DropLunKeeps(ts: seq<Target>, name: string, id: nat)
    requires WithinLimits(ts) && HasLun(ts, name, id)
    ensures WithinLimits(DropLun(ts, name, id))
  {
    var after := DropLun(ts, name, id);
    var p := Position(ts, name);
    var k := LunPosition(ts[p].luns, id);
    forall x, i, a, j, b | K8sMapsAt(after, i, a, x) && K8sMapsAt(after, j, b, x)
      ensures i == j && a == b
    {
      var a' := if i == p && a >= k then a + 1 else a;
      var b' := if j == p && b >= k then b + 1 else b;
      assert K8sMapsAt(ts, i, a', x) && K8sMapsAt(ts, j, b', x);
    }
  }

  lemma {:induction false} DropTargetKeeps(ts: seq<Target>, name: string, bound: int)
    requires WithinLimits(ts) && HasTarget(ts, name) && SuffixesUpTo(ts, bound)
    ensures WithinLimits(DropTarget(ts, name)) && SuffixesUpTo(DropTarget(ts, name), bound)
  {
    var after := DropTarget(ts, name);
    var p := Position(ts, name);
    assert forall i | 0 <= i < |after| :: after[i] == ts[if i < p then i else i + 1];
    forall x, i, a, j, b | K8sMapsAt(after, i, a, x) && K8sMapsAt(after, j, b, x)
      ensures i == j && a == b
    {
      var i' := if i < p then i else i + 1;
      var j' := if j < p then j else j + 1;
      assert K8sMapsAt(ts, i', a, x) && K8sMapsAt(ts, j', b, x);
    }
  }

  /* ---- runs ---- */

  datatype Call =
    | AttachCall(pool: Option<string>, volume: string, iqn: string)
    | DetachCall(name: string, iqn: string)

  function Step(s: State, call: Call): State {
    match call
    case AttachCall(pool, volume, iqn) => Attach(s, pool, volume, iqn).0
    case DetachCall(name, iqn) => Detach(s, name, iqn).0
  }

  function Run(s: State, calls: seq<Call>): State
    decreases |calls|
  {
    if calls == [] then s else Run(Step(s, calls[0]), calls[1..])
  }

  lemma {:induction false} NowhereMeansUnmapped(ts: seq<Target>, lvm: string)
    requires NowhereIn(ts, lvm)
    ensures !K8sMapped(ts, lvm)
  {
    forall i: nat, a: nat | i < |ts| && IsK8s(ts[i].name) && a < |ts[i].luns|
      ensures ts[i].luns[a].lvm != lvm
    {
      assert ts[i] in ts;
    }
  }

  lemma {:induction false} BindKeeps(s: State, target: string, lun: Option<nat>, iqn: string, bound: int)
    requires WithinLimits(s.targets) && SuffixesUpTo(s.targets, bound)
    ensures var after := BindVolume(s, target, lun, iqn).0.targets;
      WithinLimits(after) && SuffixesUpTo(after, bound)
  {
    if lun.Some? && Up(s) && HasLun(s.targets, target, lun.value) {
      SetPortKeeps(s.targets, target, lun.value, BindPort(PortOf(s.targets, target, lun.value), iqn));
    }
  }

  lemma {:induction false} MapKeeps(s: State, target: string, lvm: string, bound: int)
    requires WithinLimits(s.targets) && SuffixesUpTo(s.targets, bound) && !K8sMapped(s.targets, lvm)
    requires HasTarget(s.targets, target) ==> |LunsOf(s.targets, target)| < MAX_LUN_NUM_PER_TARGET
    ensures var after := MapVolume(s, target, lvm).0.targets;
      WithinLimits(after) && SuffixesUpTo(after, bound)
  {
    hide Suffix, IsK8s, WithinLimits;
    if HasTarget(s.targets, target) {
      AddLunKeeps(s.targets, target, lvm);
    }
  }

  lemma {:induction false} NewTargetAppends(s: State, name: string)
    ensures var (s1, choice) := NewTarget(s, name);
      && !choice.Existing? && s1.targets in [s.targets, s.targets + [Target(name, [])]]
      && (choice.Vacant? ==> choice.target == name && s1.targets == s.targets + [Target(name, [])])
  {}

  lemma {:induction false} AppendedTarget(ts: seq<Target>, name: string, lvm: string, bound: int)
    requires WithinLimits(ts) && |ts| < MAX_TARGET_NUM && !K8sMapped(ts, lvm)
    requires forall t | t in ts :: t.name != name
    requires IsK8s(name) && Suffix(name) <= bound && SuffixesUpTo(ts, bound)
    ensures var after := ts + [Target(name, [])];
      && WithinLimits(after)
      && SuffixesUpTo(after, bound)
      && !K8sMapped(after, lvm)
      && HasTarget(after, name) && LunsOf(after, name) == []
  {
    AppendTarget(ts, name);
    var after := ts + [Target(name, [])];
    assert after[|ts|].name == name;
    NamePosition(after, |ts|);
    forall i: nat, a: nat | K8sMapsAt(after, i, a, lvm) ensures K8sMapsAt(ts, i, a, lvm) {}
  }

  lemma {:induction false} GetTargetCases(s: State, lvm: string, iqn: string, s1: State, search: Search)
    requires Up(s) && SearchTargets(Spend(s), s.targets, lvm, SCAN_START) == (s1, search)
    ensures GetTarget(s, lvm, iqn)
      == match search
         case QueryFailed => (s1, NoTarget(RestFailure))
         case Mapped(target, lun) => (s1, Existing(target, lun.id, iqn in Split(lun.iqnPort, ',')))
         case Unmapped(scan) =>
           match Decide(|s.targets|, scan)
           case Refuse => (s1, NoTarget(TargetsExhausted))
           case Create => NewTarget(s1, TargetName(Increment(scan.maxSuffix)))
           case Reuse => (s1, Vacant(scan.chosen))
  {}

  lemma {:induction false} ChosenIsVacant(ts: seq<Target>, scan: Scan)
    requires DistinctNames(ts) && Chosen(ts, SCAN_START, scan) && scan.least != MAX_LUN_NUM_PER_TARGET
    ensures HasTarget(ts, scan.chosen) && |LunsOf(ts, scan.chosen)| < MAX_LUN_NUM_PER_TARGET
  {
    var p: nat :| FirstWithLoad(ts, p, scan.least) && ts[p].name == scan.chosen;
    NamePosition(ts, p);
  }

  lemma {:induction false} CreatedIsVacant(s: State, lvm: string, m: nat)
    requires WithinLimits(s.targets) && |s.targets| < MAX_TARGET_NUM && !K8sMapped(s.targets, lvm)
    requires m == LargestSuffix(s.targets, 0) && m < MAX_INT64
    ensures var (s1, choice) := NewTarget(s, TargetName(Increment(m)));
      && WithinLimits(s1.targets)
      && SuffixesUpTo(s1.targets, m + 1)
      && !K8sMapped(s1.targets, lvm)
      && (choice.Vacant? ==> HasTarget(s1.targets, choice.target) && LunsOf(s1.targets, choice.target) == [])
  {
    hide TargetName, Suffix, IsK8s, NewTarget, WithinLimits, LargestSuffix, K8sMapped;
    var name := TargetName(Increment(m));
    FreshBelow(s.targets);
    SuffixOfName(m + 1);
    NewTargetAppends(s, name);
    AppendedTarget(s.targets, name, lvm, m + 1);
  }

  /** What GetTargetForVolume returns keeps every limit once the volume is mapped there. */
  lemma {:induction false} GetTargetKeeps(s: State, lvm: string, iqn: string)
    requires WithinLimits(s.targets) && LargestSuffix(s.targets, 0) < MAX_INT64
    ensures var (s1, choice) := GetTarget(s, lvm, iqn);
      && WithinLimits(s1.targets)
      && SuffixesUpTo(s1.targets, LargestSuffix(s.targets, 0) + 1)
      && (choice.Vacant? ==>
            && !K8sMapped(s1.targets, lvm)
            && HasTarget(s1.targets, choice.target)
            && |LunsOf(s1.targets, choice.target)| < MAX_LUN_NUM_PER_TARGET)
  {
    hide TargetName, Suffix, SearchTargets, NewTarget, DistinctNames, K8sMapped, MappedOnce, LargestSuffix, Split;
    hide Chosen, IsK8s, NowhereIn, Position;
    var ts := s.targets;
    MirrorsItself(ts);
    SearchFacts(Spend(s), ts, lvm, SCAN_START);
    if Up(s) {
      var (s1, search) := SearchTargets(Spend(s), ts, lvm, SCAN_START);
      hide GetTarget;
      GetTargetCases(s, lvm, iqn, s1, search);
      if search.Unmapped? {
        NowhereMeansUnmapped(ts, lvm);
        match Decide(|ts|, search.scan) {
          case Refuse =>
          case Reuse => ChosenIsVacant(ts, search.scan);
          case Create => CreatedIsVacant(s1, lvm, search.scan.maxSuffix);
        }
      }
    }
  }

  lemma {:induction false} AttachKeeps(s: State, pool: Option<string>, volume: string, iqn: string)
    requires WithinLimits(s.targets) && LargestSuffix(s.targets, 0) < MAX_INT64
    ensures var after := Attach(s, pool, volume, iqn).0.targets;
      WithinLimits(after) && SuffixesUpTo(after, LargestSuffix(s.targets, 0) + 1)
  {
    if pool.Some? {
      var bound := LargestSuffix(s.targets, 0) + 1;
      var lvm := MappingName(pool.value, volume);
      GetTargetKeeps(s, lvm, iqn);
      var (s1, choice) := GetTarget(s, lvm, iqn);
      match choice {
        case NoTarget(_) =>
        case Existing(target, lun, _) =>
          BindKeeps(s1, target, Some(lun), iqn, bound);
        case Vacant(target) =>
          MapKeeps(s1, target, lvm, bound);
          var (s2, mapped) := MapVolume(s1, target, lvm);
          if mapped.Ok? { BindKeeps(s2, target, mapped.value, iqn, bound); }
      }
    }
  }

  lemma {:induction false} FindKeepsTargets(s: State, ts: seq<Target>, name: string, pool: string, volume: string,
                                            acc: seq<Place>)
    ensures FindMappings(s, ts, name, pool, volume, acc).0.targets == s.targets
    decreases |ts|
  {
    if ts != [] && Up(s) && HasTarget(s.targets, ts[0].name) {
      var luns := LunsOf(s.targets, ts[0].name);
      if !(pool != "" && Maps(luns, name)) {
        var more := if pool != "" then [] else NamedLuns(ts[0].name, luns, volume);
        FindKeepsTargets(Spend(s), ts[1..], name, pool, volume, acc + more);
      }
    }
  }

  lemma {:induction false} UnmapDrops(s: State, target: string, lun: nat)
    ensures var after := Unmap(s, target, lun).0.targets;
      after == s.targets
      || (HasLun(s.targets, target, lun)
          && var dropped := DropLun(s.targets, target, lun);
             after == dropped || (HasTarget(dropped, target) && after == DropTarget(dropped, target)))
  {}

  lemma {:induction false} UnmapKeeps(s: State, target: string, lun: nat, bound: int)
    requires WithinLimits(s.targets) && SuffixesUpTo(s.targets, bound)
    ensures var after := Unmap(s, target, lun).0.targets;
      WithinLimits(after) && SuffixesUpTo(after, bound)
  {
    UnmapDrops(s, target, lun);
    if HasLun(s.targets, target, lun) {
      var dropped := DropLun(s.targets, target, lun);
      DropLunKeeps(s.targets, target, lun);
      assert SuffixesUpTo(dropped, bound);
      if HasTarget(dropped, target) { DropTargetKeeps(dropped, target, bound); }
    }
  }

  lemma {:induction false} DetachKeeps(s: State, name: string, iqn: string, bound: int)
    requires WithinLimits(s.targets) && SuffixesUpTo(s.targets, bound)
    ensures var after := Detach(s, name, iqn).0.targets;
      WithinLimits(after) && SuffixesUpTo(after, bound)
  {
    var parsed := PoolAndVolume(name);
    if parsed.Some? && Up(s) {
      FindKeepsTargets(Spend(s), s.targets, name, parsed.value.0, parsed.value.1, []);
      var (s1, found) := MappingsOf(s, name);
      if found.Ok? && |found.value| == 1 && Up(s1) {
        var place := found.value[0];
        var s2 := Spend(s1);
        if iqn in Split(place.lun.iqnPort, ',') {
          var (s3, ok) := Unbind(s2, place.target, place.lun.id, iqn);
          if ok {
            SetPortKeeps(s2.targets, place.target, place.lun.id,
              UnbindPort(PortOf(s2.targets, place.target, place.lun.id), iqn));
            UnmapKeeps(s3, place.target, place.lun.id, bound);
          }
        } else {
          UnmapKeeps(s2, place.target, place.lun.id, bound);
        }
      }
    }
  }

  /** Bounds under faults: in every run, whatever calls fail, the targets stay within every limit.
      The suffix counter must not run out during the run. */
  lemma {:induction false} BoundsUnderFaults(s: State, calls: seq<Call>, bound: nat)
    requires WithinLimits(s.targets) && SuffixesUpTo(s.targets, bound)
    requires bound + |calls| <= MAX_INT64
    ensures WithinLimits(Run(s, calls).targets)
    ensures SuffixesUpTo(Run(s, calls).targets, bound + |calls|)
    decreases |calls|
  {
    if calls != [] {
      assert LargestSuffix(s.targets, 0) <= bound;
      match calls[0] {
        case AttachCall(pool, volume, iqn) => AttachKeeps(s, pool, volume, iqn);
        case DetachCall(name, iqn) => DetachKeeps(s, name, iqn, bound);
      }
      BoundsUnderFaults(Step(s, calls[0]), calls[1..], bound + 1);
    }
  }
}
