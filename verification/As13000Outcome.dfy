/** What one fault-free AttachVolume makes of the targets, stated on target and LUN positions rather than
    on calls. The run theorems build on these outcomes. */
module As13000Outcome {
  import opened Wrappers
  import opened Text
  import opened TargetArray
  import opened As13000
  import opened As13000Bounds

  /* ---- the possible outcomes ---- */

  function WithPort(ts: seq<Target>, i: nat, a: nat, port: string): seq<Target>
    requires i < |ts| && a < |ts[i].luns|
  {
    ts[i := Target(ts[i].name, ts[i].luns[a := ts[i].luns[a].(iqnPort := port)])]
  }

  function Placed(ts: seq<Target>, p: nat, lvm: string, iqn: string): seq<Target>
    requires p < |ts|
  {
    ts[p := Target(ts[p].name, ts[p].luns + [Lun(FreshId(ts[p].luns), lvm, iqn)])]
  }

  function WithNew(ts: seq<Target>, name: string): seq<Target> { ts + [Target(name, [])] }

  function WithoutLun(ts: seq<Target>, i: nat, a: nat): seq<Target>
    requires i < |ts| && a < |ts[i].luns|
  {
    if |ts[i].luns| == 1 then ts[..i] + ts[i + 1..]
    else ts[i := Target(ts[i].name, ts[i].luns[..a] + ts[i].luns[a + 1..])]
  }

  predicate AllK8sFull(ts: seq<Target>) {
    forall t | t in ts && IsK8s(t.name) :: |t.luns| >= MAX_LUN_NUM_PER_TARGET
  }

  predicate MustCreate(ts: seq<Target>) {
    K8sCount(ts) < OPTIMAL_TARGET_NUM_FOR_K8S || AllK8sFull(ts)
  }

  /* ---- attaching ---- */

  lemma {:induction false} IdPosition(luns: seq<Lun>, a: nat)
    requires DistinctIds(luns) && a < |luns|
    ensures LunPosition(luns, luns[a].id) == a
  {
    assert LunPosition(luns, luns[a].id) <= a;
  }

  /** On the target at `p`, which does not map `lvm` yet: map it and bind it. */
  lemma {:induction false} MapAndBind(s: State, p: nat, lvm: string, iqn: string)
    requires s.faults == [] && DistinctNames(s.targets) && p < |s.targets|
    requires !Maps(s.targets[p].luns, lvm)
    ensures var (s2, mapped) := MapVolume(s, s.targets[p].name, lvm);
      && mapped == Ok(Some(FreshId(s.targets[p].luns)))
      && BindVolume(s2, s.targets[p].name, mapped.value, iqn)
         == (State(Placed(s.targets, p, lvm, iqn), []),
             Ok(Attachment(s.targets[p].name, FreshId(s.targets[p].luns))))
  {
    var ts, name := s.targets, s.targets[p].name;
    NamePosition(ts, p);
    var id := FreshId(ts[p].luns);
    var luns := ts[p].luns + [Lun(id, lvm, "ALL")];
    var added := AddLun(ts, name, lvm);
    assert added == ts[p := Target(name, luns)];
    NamePosition(added, p);
    assert forall q | 0 <= q < |ts[p].luns| :: luns[q].lvm != lvm;
    assert luns[|ts[p].luns|].lvm == lvm;
    assert LvmPosition(luns, lvm) == |ts[p].luns|;
    assert LunPosition(luns, id) == |ts[p].luns|;
    assert luns[|ts[p].luns| := Lun(id, lvm, iqn)] == ts[p].luns + [Lun(id, lvm, iqn)];
    assert SetPort(added, name, id, iqn) == Placed(ts, p, lvm, iqn);
  }

  lemma {:induction false} BindAt(s: State, i: nat, a: nat, iqn: string)
    requires s.faults == [] && DistinctNames(s.targets)
    requires i < |s.targets| && DistinctIds(s.targets[i].luns) && a < |s.targets[i].luns|
    ensures var lun := s.targets[i].luns[a];
      BindVolume(s, s.targets[i].name, Some(lun.id), iqn)
      == (State(WithPort(s.targets, i, a, BindPort(lun.iqnPort, iqn)), []),
          Ok(Attachment(s.targets[i].name, lun.id)))
  {
    NamePosition(s.targets, i);
    IdPosition(s.targets[i].luns, a);
  }

  lemma {:induction false} AttachMapped(s: State, pool: string, volume: string, iqn: string, i: nat, a: nat)
    requires s.faults == [] && WithinLimits(s.targets)
    requires K8sMapsAt(s.targets, i, a, MappingName(pool, volume))
    ensures var lun := s.targets[i].luns[a];
      Attach(s, Some(pool), volume, iqn)
      == (State(if iqn in Split(lun.iqnPort, ',') then s.targets
                else WithPort(s.targets, i, a, BindPort(lun.iqnPort, iqn)), []),
          Ok(Attachment(s.targets[i].name, lun.id)))
  {
    var lvm := MappingName(pool, volume);
    var ts := s.targets;
    MirrorsItself(ts);
    SearchFacts(s, ts, lvm, SCAN_START);
    var (s1, search) := SearchTargets(s, ts, lvm, SCAN_START);
    if search.Unmapped? {
      NowhereMeansUnmapped(ts, lvm);
      assert K8sMapped(ts, lvm);
    }
    var t :| t in ts && IsK8s(t.name) && t.name == search.target
      && Maps(t.luns, lvm) && t.luns[LvmPosition(t.luns, lvm)] == search.lun;
    var j :| 0 <= j < |ts| && ts[j] == t;
    assert K8sMapsAt(ts, j, LvmPosition(t.luns, lvm), lvm);
    BindAt(s, i, a, iqn);
  }

  /** A volume that is mapped is found again, even with every target in use: with no call failing
      the attach succeeds on the very LUN that maps it, and no target or LUN is added. */
  lemma {:induction false} ReattachFindsMapping(s: State, pool: string, volume: string, iqn: string, i: nat, a: nat)
    requires WithinLimits(s.targets) && s.faults == []
    requires K8sMapsAt(s.targets, i, a, MappingName(pool, volume))
    ensures var (after, r) := Attach(s, Some(pool), volume, iqn);
      && r == Ok(Attachment(s.targets[i].name, s.targets[i].luns[a].id))
      && |after.targets| == |s.targets|
      && forall k | 0 <= k < |s.targets| :: |after.targets[k].luns| == |s.targets[k].luns|
  {
    hide Attach, MappingName, WithinLimits, Split, BindPort;
    AttachMapped(s, pool, volume, iqn, i, a);
  }

  ghost predicate LeastLoadedVacancy(ts: seq<Target>, p: nat) {
    && p < |ts| && FirstWithLoad(ts, p, |ts[p].luns|) && |ts[p].luns| < MAX_LUN_NUM_PER_TARGET
    && (forall t | t in ts && IsK8s(t.name) :: |ts[p].luns| <= |t.luns|)
  }

  lemma {:induction false} NotFoundIfUnmapped(ts: seq<Target>, t: Target, lvm: string)
    requires t in ts && IsK8s(t.name) && Maps(t.luns, lvm)
    ensures K8sMapped(ts, lvm)
  {
    var j :| 0 <= j < |ts| && ts[j] == t;
    assert K8sMapsAt(ts, j, LvmPosition(t.luns, lvm), lvm);
  }

  /** The search for an unmapped volume ends with the true counts, and the vacancy it picked. */
  lemma {:induction false} SearchUnmapped(s: State, lvm: string) returns (scan: Scan)
    requires s.faults == [] && WithinLimits(s.targets) && !K8sMapped(s.targets, lvm)
    ensures SearchTargets(s, s.targets, lvm, SCAN_START) == (s, Unmapped(scan))
    ensures scan.maxSuffix == LargestSuffix(s.targets, 0)
    ensures MustCreate(s.targets) <==> scan.count < OPTIMAL_TARGET_NUM_FOR_K8S
                                       || scan.least == MAX_LUN_NUM_PER_TARGET
    ensures !MustCreate(s.targets) ==>
      exists p: nat :: LeastLoadedVacancy(s.targets, p) && scan.chosen == s.targets[p].name
  {
    var ts := s.targets;
    MirrorsItself(ts);
    SearchFacts(s, ts, lvm, SCAN_START);
    var (s1, search) := SearchTargets(s, ts, lvm, SCAN_START);
    if search.Mapped? {
      var t :| t in ts && IsK8s(t.name) && Maps(t.luns, lvm);
      NotFoundIfUnmapped(ts, t, lvm);
    }
    scan := search.scan;
    if scan.least < MAX_LUN_NUM_PER_TARGET {
      var p: nat :| FirstWithLoad(ts, p, scan.least) && ts[p].name == scan.chosen;
      assert ts[p] in ts;
      assert LeastLoadedVacancy(ts, p);
    }
  }

  lemma {:induction false} NewTargetSucceeds(s: State, name: string)
    requires s.faults == []
    ensures NewTarget(s, name) == (State(WithNew(s.targets, name), []), Vacant(name))
  {}

  lemma {:induction false} CreateAndPlace(s: State, name: string, lvm: string, iqn: string)
    requires s.faults == [] && DistinctNames(WithNew(s.targets, name))
    ensures var s1 := State(WithNew(s.targets, name), []);
      var (s2, mapped) := MapVolume(s1, name, lvm);
      mapped.Ok?
      && var (s3, r) := BindVolume(s2, name, mapped.value, iqn);
         s3 == State(Placed(WithNew(s.targets, name), |s.targets|, lvm, iqn), []) && r.Ok?
  {
    hide MapVolume, BindVolume, Placed;
    var s1 := State(WithNew(s.targets, name), []);
    assert s1.targets[|s.targets|] == Target(name, []);
    MapAndBind(s1, |s.targets|, lvm, iqn);
  }

  ghost predicate AttachedOnVacancy(ts: seq<Target>, lvm: string, iqn: string, after: seq<Target>) {
    exists p: nat :: LeastLoadedVacancy(ts, p) && after == Placed(ts, p, lvm, iqn)
  }

  ghost predicate AttachedOnNew(ts: seq<Target>, lvm: string, iqn: string, after: seq<Target>) {
    exists name :: IsK8s(name) && DistinctNames(WithNew(ts, name))
                   && after == Placed(WithNew(ts, name), |ts|, lvm, iqn)
  }

  /** Where a volume no k8s target maps ends up: on a new target while fewer than 32 k8s targets
      exist or all are full; else on the first of the least loaded. */
  ghost predicate NewlyAttached(ts: seq<Target>, lvm: string, iqn: string, after: seq<Target>) {
    if MustCreate(ts) then AttachedOnNew(ts, lvm, iqn, after) else AttachedOnVacancy(ts, lvm, iqn, after)
  }

  lemma {:induction false} NewNameIsFresh(ts: seq<Target>)
    requires DistinctNames(ts) && LargestSuffix(ts, 0) < MAX_INT64
    ensures DistinctNames(WithNew(ts, TargetName(LargestSuffix(ts, 0) + 1)))
  {
    hide TargetName, LargestSuffix, IsK8s, Suffix, SuffixesUpTo;
    FreshBelow(ts);
    var name := TargetName(LargestSuffix(ts, 0) + 1);
    forall i | 0 <= i < |ts| ensures ts[i].name != name { assert ts[i] in ts; }
  }

  /** Attaching a volume that no k8s target maps: refused with every target in use. */
  lemma {:induction false} AttachUnmapped(s: State, pool: string, volume: string, iqn: string)
    requires s.faults == [] && WithinLimits(s.targets)
    requires !K8sMapped(s.targets, MappingName(pool, volume)) && LargestSuffix(s.targets, 0) < MAX_INT64
    ensures var (after, r) := Attach(s, Some(pool), volume, iqn);
      && after.faults == []
      && (if |s.targets| >= MAX_TARGET_NUM then after == s && r == Err(TargetsExhausted)
          else r.Ok? && NewlyAttached(s.targets, MappingName(pool, volume), iqn, after.targets))
  {
    hide MapVolume, BindVolume, Placed, NewTarget, TargetName, MustCreate, MappingName, K8sMapped;
    hide GetTarget, SearchTargets, DistinctNames, IsK8s, LargestSuffix, SuffixesUpTo, Suffix, LeastLoadedVacancy;
    var ts, lvm := s.targets, MappingName(pool, volume);
    var scan := SearchUnmapped(s, lvm);
    assert Spend(s) == s;
    GetTargetCases(s, lvm, iqn, s, Unmapped(scan));
    match Decide(|ts|, scan) {
      case Refuse =>
      case Create =>
        var name := TargetName(LargestSuffix(ts, 0) + 1);
        NewNameIsFresh(ts);
        NewTargetSucceeds(s, name);
        CreateAndPlace(s, name, lvm, iqn);
      case Reuse =>
        AttachVacancy(s, lvm, iqn, scan.chosen);
    }
  }

  lemma {:induction false} AttachVacancy(s: State, lvm: string, iqn: string, chosen: string)
    requires s.faults == [] && WithinLimits(s.targets) && !K8sMapped(s.targets, lvm)
    requires exists p: nat :: LeastLoadedVacancy(s.targets, p) && chosen == s.targets[p].name
    ensures var (s2, mapped) := MapVolume(s, chosen, lvm);
      mapped.Ok?
      && var (s3, r) := BindVolume(s2, chosen, mapped.value, iqn);
         AttachedOnVacancy(s.targets, lvm, iqn, s3.targets) && s3.faults == [] && r.Ok?
  {
    var ts := s.targets;
    var p: nat :| LeastLoadedVacancy(ts, p) && chosen == ts[p].name;
    var a := LvmPosition(ts[p].luns, lvm);
    if a < |ts[p].luns| { assert K8sMapsAt(ts, p, a, lvm); }
    MapAndBind(s, p, lvm, iqn);
  }
}
