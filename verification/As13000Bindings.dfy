/** A binding outlives every failure: once a volume is bound to an IQN, it stays so over every run, whatever
    REST calls fail, until it is detached for that very IQN. */
module As13000Bindings {
  import opened Wrappers
  import opened Text
  import opened TargetArray
  import opened As13000
  import opened As13000Bounds
  import opened As13000Detach
  import opened As13000Undo

  predicate Binds(l: Lun, lvm: string, iqn: string) { l.lvm == lvm && iqn in Split(l.iqnPort, ',') }

  /** Some k8s target maps the volume and has it bound to the IQN. */
  ghost predicate Bound(ts: seq<Target>, lvm: string, iqn: string) {
    exists t, l | t in ts && l in t.luns :: IsK8s(t.name) && Binds(l, lvm, iqn)
  }

  /* ---- each change of the targets ---- */

  /** Targets that keep the binding: one that has it, or the one it is in stays. */
  lemma {:induction false} KeptElsewhere(ts: seq<Target>, after: seq<Target>, p: nat, lvm: string, iqn: string)
    requires Bound(ts, lvm, iqn) && p < |ts|
    requires forall i | 0 <= i < |ts| && i != p :: ts[i] in after
    requires forall l | l in ts[p].luns && Binds(l, lvm, iqn) && IsK8s(ts[p].name) :: Bound(after, lvm, iqn)
    ensures Bound(after, lvm, iqn)
  {
    hide IsK8s, Binds;
    var t, l :| t in ts && l in t.luns && IsK8s(t.name) && Binds(l, lvm, iqn);
    var i :| 0 <= i < |ts| && ts[i] == t;
  }

  lemma {:induction false} BoundIn(ts: seq<Target>, p: nat, a: nat, lvm: string, iqn: string)
    requires p < |ts| && a < |ts[p].luns| && IsK8s(ts[p].name) && Binds(ts[p].luns[a], lvm, iqn)
    ensures Bound(ts, lvm, iqn)
  {
    assert ts[p] in ts && ts[p].luns[a] in ts[p].luns;
  }

  lemma {:induction false} WithLunsBound(ts: seq<Target>, name: string, luns: seq<Lun>, lvm: string, iqn: string)
    requires Bound(ts, lvm, iqn) && HasTarget(ts, name)
    requires forall l | l in LunsOf(ts, name) && Binds(l, lvm, iqn) :: exists m :: m in luns && Binds(m, lvm, iqn)
    ensures Bound(WithLuns(ts, name, luns), lvm, iqn)
  {
    hide IsK8s, Binds;
    var p, after := Position(ts, name), WithLuns(ts, name, luns);
    assert forall i | 0 <= i < |ts| && i != p :: after[i] == ts[i];
    forall l | l in ts[p].luns && Binds(l, lvm, iqn) && IsK8s(ts[p].name) ensures Bound(after, lvm, iqn) {
      var m :| m in luns && Binds(m, lvm, iqn);
      assert after[p] in after && m in after[p].luns;
    }
    KeptElsewhere(ts, after, p, lvm, iqn);
  }

  lemma {:induction false} AddLunBound(ts: seq<Target>, name: string, added: string, lvm: string, iqn: string)
    requires Bound(ts, lvm, iqn) && HasTarget(ts, name)
    ensures Bound(AddLun(ts, name, added), lvm, iqn)
  {
    hide Binds, Bound;
    var luns := LunsOf(ts, name);
    WithLunsBound(ts, name, luns + [Lun(FreshId(luns), added, "ALL")], lvm, iqn);
  }

  lemma {:induction false} SetPortBound(ts: seq<Target>, name: string, id: nat, port: string, lvm: string, iqn: string)
    requires Bound(ts, lvm, iqn) && HasLun(ts, name, id)
    requires iqn in Split(PortOf(ts, name, id), ',') && LunAtId(ts, name, id).lvm == lvm ==> iqn in Split(port, ',')
    ensures Bound(SetPort(ts, name, id, port), lvm, iqn)
  {
    hide Bound, Split;
    var luns := LunsOf(ts, name);
    var k := LunPosition(luns, id);
    var after := luns[k := luns[k].(iqnPort := port)];
    forall l | l in luns && Binds(l, lvm, iqn) ensures exists m :: m in after && Binds(m, lvm, iqn) {
      var i :| 0 <= i < |luns| && luns[i] == l;
      assert after[i] in after && Binds(after[i], lvm, iqn);
    }
    WithLunsBound(ts, name, after, lvm, iqn);
  }

  function LunAtId(ts: seq<Target>, name: string, id: nat): Lun
    requires HasLun(ts, name, id)
  {
    LunsOf(ts, name)[LunPosition(LunsOf(ts, name), id)]
  }

  lemma {:induction false} DropLunBound(ts: seq<Target>, name: string, id: nat, lvm: string, iqn: string)
    requires Bound(ts, lvm, iqn) && HasLun(ts, name, id) && !Binds(LunAtId(ts, name, id), lvm, iqn)
    ensures Bound(DropLun(ts, name, id), lvm, iqn)
  {
    hide Bound, Binds;
    var luns := LunsOf(ts, name);
    var k := LunPosition(luns, id);
    forall l | l in luns && Binds(l, lvm, iqn) ensures l in luns[..k] + luns[k + 1..] {
      var i :| 0 <= i < |luns| && luns[i] == l;
      assert i < k ==> luns[..k][i] == l;
      assert i > k ==> luns[k + 1..][i - k - 1] == l;
    }
    WithLunsBound(ts, name, luns[..k] + luns[k + 1..], lvm, iqn);
  }

  lemma {:induction false} DropTargetBound(ts: seq<Target>, name: string, lvm: string, iqn: string)
    requires Bound(ts, lvm, iqn) && HasTarget(ts, name) && LunsOf(ts, name) == []
    ensures Bound(DropTarget(ts, name), lvm, iqn)
  {
    hide Bound, Binds, IsK8s;
    var p, after := Position(ts, name), DropTarget(ts, name);
    forall i | 0 <= i < |ts| && i != p ensures ts[i] in after {
      assert i < p ==> after[i] == ts[i];
      assert i > p ==> after[i - 1] == ts[i];
    }
    KeptElsewhere(ts, after, p, lvm, iqn);
  }

  lemma {:induction false} MoreTargetsBound(ts: seq<Target>, t: Target, lvm: string, iqn: string)
    requires Bound(ts, lvm, iqn)
    ensures Bound(ts + [t], lvm, iqn)
  {
    hide IsK8s, Binds;
  }

  /* ---- attaching ---- */

  lemma {:induction false} StillListed(port: string, more: string, iqn: string)
    requires iqn in Split(port, ',') && ',' !in more && iqn != "ALL"
    ensures iqn in Split(BindPort(port, more), ',')
  {
    SplitPlain("ALL", ',');
    if port != "ALL" { SplitAppend(port, more, ','); }
  }

  lemma {:induction false} BindKeepsBound(s: State, target: string, lun: Option<nat>, more: string, lvm: string,
                                          iqn: string)
    requires Bound(s.targets, lvm, iqn) && ',' !in more && iqn != "ALL"
    ensures Bound(BindVolume(s, target, lun, more).0.targets, lvm, iqn)
  {
    hide Bound, Split, BindPort, SetPort;
    if lun.Some? && Up(s) && HasLun(s.targets, target, lun.value) {
      var port := PortOf(s.targets, target, lun.value);
      if iqn in Split(port, ',') { StillListed(port, more, iqn); }
      SetPortBound(s.targets, target, lun.value, BindPort(port, more), lvm, iqn);
    }
  }

  lemma {:induction false} AttachKeepsBound(s: State, pool: Option<string>, volume: string, more: string, lvm: string,
                                            iqn: string)
    requires WithinLimits(s.targets) && Bound(s.targets, lvm, iqn) && ',' !in more && iqn != "ALL"
    ensures Bound(Attach(s, pool, volume, more).0.targets, lvm, iqn)
  {
    hide Bound, GetTarget, MapVolume, BindVolume, WithinLimits;
    if pool.Some? {
      var added := MappingName(pool.value, volume);
      GetTargetBound(s, added, more, lvm, iqn);
      var (s1, choice) := GetTarget(s, added, more);
      match choice {
        case NoTarget(_) =>
        case Existing(target, lun, _) => BindKeepsBound(s1, target, Some(lun), more, lvm, iqn);
        case Vacant(target) =>
          MapKeepsBound(s1, target, added, lvm, iqn);
          var (s2, mapped) := MapVolume(s1, target, added);
          if mapped.Ok? { BindKeepsBound(s2, target, mapped.value, more, lvm, iqn); }
      }
    }
  }

  lemma {:induction false} MapKeepsBound(s: State, target: string, added: string, lvm: string, iqn: string)
    requires Bound(s.targets, lvm, iqn)
    ensures Bound(MapVolume(s, target, added).0.targets, lvm, iqn)
  {
    hide Bound, AddLun;
    if HasTarget(s.targets, target) { AddLunBound(s.targets, target, added, lvm, iqn); }
  }

  lemma {:induction false} GetTargetBound(s: State, added: string, more: string, lvm: string, iqn: string)
    requires WithinLimits(s.targets) && Bound(s.targets, lvm, iqn)
    ensures Bound(GetTarget(s, added, more).0.targets, lvm, iqn)
  {
    hide Bound, SearchTargets, NewTarget, Explains, TargetName, Split, DistinctNames, MappedOnce, DistinctIds;
    MirrorsItself(s.targets);
    SearchFacts(Spend(s), s.targets, added, SCAN_START);
    if Up(s) {
      var (s1, search) := SearchTargets(Spend(s), s.targets, added, SCAN_START);
      hide GetTarget;
      GetTargetCases(s, added, more, s1, search);
      if search.Unmapped? {
        var name := TargetName(Increment(search.scan.maxSuffix));
        NewTargetAppends(s1, name);
        MoreTargetsBound(s.targets, Target(name, []), lvm, iqn);
      }
    }
  }

  /* ---- detaching ---- */

  ghost predicate PlaceIn(ts: seq<Target>, place: Place) {
    HasTarget(ts, place.target) && place.lun in LunsOf(ts, place.target)
  }

  predicate Fitting(place: Place, name: string, pool: string, volume: string) {
    if pool != "" then place.lun.lvm == name else Carries(place.lun.lvm, volume)
  }

  lemma {:induction false} NamedFit(target: string, luns: seq<Lun>, name: string, volume: string)
    ensures forall p | p in NamedLuns(target, luns, volume) ::
      p.target == target && p.lun in luns && Fitting(p, name, "", volume)
  {
    hide Carries;
    if luns != [] {
      NamedFit(target, luns[1..], name, volume);
      assert luns[0] in luns && forall l | l in luns[1..] :: l in luns;
    }
  }

  /** Whatever fails, the mappings found are there and answer to the name. */
  lemma {:induction false} FoundAreThere(s: State, ts: seq<Target>, name: string, pool: string, volume: string,
                                         acc: seq<Place>)
    requires forall p | p in acc :: PlaceIn(s.targets, p) && Fitting(p, name, pool, volume)
    ensures var (t, r) := FindMappings(s, ts, name, pool, volume, acc);
      && t.targets == s.targets
      && (r.Ok? ==> forall p | p in r.value :: PlaceIn(s.targets, p) && Fitting(p, name, pool, volume))
    decreases |ts|
  {
    hide Carries, PlaceIn, Fitting;
    if ts != [] && Up(s) && HasTarget(s.targets, ts[0].name) {
      var luns := LunsOf(s.targets, ts[0].name);
      if pool != "" && Maps(luns, name) {
        OnePlace(s.targets, ts[0].name, name, pool, volume);
      } else {
        var more := if pool != "" then [] else NamedLuns(ts[0].name, luns, volume);
        SomePlaces(s.targets, ts[0].name, name, volume);
        FoundAreThere(Spend(s), ts[1..], name, pool, volume, acc + more);
      }
    }
  }

  lemma {:induction false} OnePlace(ts: seq<Target>, target: string, name: string, pool: string, volume: string)
    requires HasTarget(ts, target) && pool != "" && Maps(LunsOf(ts, target), name)
    ensures var p := Place(target, LunsOf(ts, target)[LvmPosition(LunsOf(ts, target), name)]);
      PlaceIn(ts, p) && Fitting(p, name, pool, volume)
  {}

  lemma {:induction false} SomePlaces(ts: seq<Target>, target: string, name: string, volume: string)
    requires HasTarget(ts, target)
    ensures forall p | p in NamedLuns(target, LunsOf(ts, target), volume) ::
      PlaceIn(ts, p) && Fitting(p, name, "", volume)
  {
    hide Carries, NamedLuns;
    NamedFit(target, LunsOf(ts, target), name, volume);
  }

  lemma {:induction false} TheLun(ts: seq<Target>, place: Place)
    requires WithinLimits(ts) && PlaceIn(ts, place)
    ensures HasLun(ts, place.target, place.lun.id) && LunAtId(ts, place.target, place.lun.id) == place.lun
  {
    var luns := LunsOf(ts, place.target);
    var i :| 0 <= i < |luns| && luns[i] == place.lun;
    assert LunPosition(luns, place.lun.id) <= i;
  }

  lemma {:induction false} UnmapKeepsBound(s: State, target: string, id: nat, lvm: string, iqn: string)
    requires Bound(s.targets, lvm, iqn)
    requires HasLun(s.targets, target, id) ==> !Binds(LunAtId(s.targets, target, id), lvm, iqn)
    ensures Bound(Unmap(s, target, id).0.targets, lvm, iqn)
  {
    hide Bound, Binds, DropTarget, DropLun;
    if HasLun(s.targets, target, id) {
      var dropped := DropLun(s.targets, target, id);
      DropLunBound(s.targets, target, id, lvm, iqn);
      if HasTarget(dropped, target) && LunsOf(dropped, target) == [] { DropTargetBound(dropped, target, lvm, iqn); }
    }
  }

  lemma {:induction false} StillListedWithout(port: string, less: string, iqn: string)
    requires iqn in Split(port, ',') && less != iqn
    ensures iqn in Split(UnbindPort(port, less), ',')
  {
    hide Split, Join;
    var left := Without(Split(port, ','), less);
    WithoutGone(Split(port, ','), less);
    assert Free(left, ',');
    SplitOfJoin(left, ',');
  }

  lemma {:induction false} UnboundLun(ts: seq<Target>, name: string, id: nat, port: string)
    requires HasLun(ts, name, id)
    ensures var after := SetPort(ts, name, id, port);
      HasLun(after, name, id) && LunAtId(after, name, id) == LunAtId(ts, name, id).(iqnPort := port)
  {
    var luns, after := LunsOf(ts, name), SetPort(ts, name, id, port);
    var p, k := Position(ts, name), LunPosition(luns, id);
    assert after[p] == Target(name, luns[k := luns[k].(iqnPort := port)]);
    assert Position(after, name) == p by { assert Position(after, name) <= p; }
    var changed := luns[k := luns[k].(iqnPort := port)];
    assert LunsOf(after, name) == changed && changed[k].id == id;
    assert forall j | 0 <= j < k :: changed[j] == luns[j];
    assert LunPosition(changed, id) == k;
  }

  lemma {:induction false} LastUnbound(port: string, less: string)
    requires |Split(port, ',')| == 1 && less in Split(port, ',')
    ensures UnbindPort(port, less) == "ALL" && Split("ALL", ',') == ["ALL"]
  {
    hide Split;
    SplitPlain("ALL", ',');
    var parts := Split(port, ',');
    assert parts[0] == less && parts[1..] == [];
    assert Without(parts[1..], less) == [];
  }

  lemma {:induction false} ReleaseKeepsBound(s: State, place: Place, less: string, lvm: string, iqn: string)
    requires WithinLimits(s.targets) && PlaceIn(s.targets, place) && Bound(s.targets, lvm, iqn) && iqn != "ALL"
    requires place.lun.lvm != lvm || less != iqn
    ensures Bound(Release(s, place, less).0.targets, lvm, iqn)
  {
    hide Bound, Split, UnbindPort, SetPort, WithinLimits, PlaceIn, HasLun, Unmap;
    TheLun(s.targets, place);
    var port, parts, id := place.lun.iqnPort, Split(place.lun.iqnPort, ','), place.lun.id;
    if less in parts && iqn in parts && place.lun.lvm == lvm { StillListedWithout(port, less, iqn); }
    SetPortBound(s.targets, place.target, id, if less in parts then UnbindPort(port, less) else port, lvm, iqn);
    if Up(s) {
      var s1 := Spend(s);
      if less in parts {
        var (s2, ok) := Unbind(s1, place.target, id, less);
        if ok && |parts| == 1 {
          UnboundLun(s.targets, place.target, id, UnbindPort(port, less));
          LastUnbound(port, less);
          UnmapKeepsBound(s2, place.target, id, lvm, iqn);
        }
      } else if |parts| == 1 && parts[0] == "ALL" {
        UnmapKeepsBound(s1, place.target, id, lvm, iqn);
      }
    }
  }

  /** The detach is not for this IQN, or its name does not answer to this mapping. */
  predicate Spares(call: Call, lvm: string, iqn: string) {
    match call
    case AttachCall(_, _, more) => ',' !in more
    case DetachCall(name, less) => less != iqn || Blank(name) || !Named(lvm, name)
  }

  lemma {:induction false} DetachKeepsBound(s: State, name: string, less: string, lvm: string, iqn: string)
    requires WithinLimits(s.targets) && Bound(s.targets, lvm, iqn) && iqn != "ALL"
    requires Spares(DetachCall(name, less), lvm, iqn)
    ensures Bound(Detach(s, name, less).0.targets, lvm, iqn)
  {
    hide Bound, FindMappings, Release, WithinLimits, Carries, Qualified, VolumePart, Blank, PlaceIn;
    NameParses(name);
    if !Blank(name) && Up(s) {
      var (pool, part) := PoolAndVolume(name).value;
      hide PoolAndVolume;
      FoundAreThere(Spend(s), s.targets, name, pool, part, []);
      var (s1, found) := MappingsOf(s, name);
      if found.Ok? && |found.value| == 1 {
        var place := found.value[0];
        assert place in found.value;
        ReleaseKeepsBound(s1, place, less, lvm, iqn);
      }
    }
  }

  /** Over every run of attaches and detaches, whatever fails: a volume bound to an IQN stays bound to it, on a
      k8s target, as long as no detach for that IQN is called by a name that answers to the mapping. */
  lemma {:induction false} BindingSurvives(s: State, calls: seq<Call>, bound: nat, lvm: string, iqn: string)
    requires WithinLimits(s.targets) && SuffixesUpTo(s.targets, bound) && bound + |calls| <= MAX_INT64
    requires Bound(s.targets, lvm, iqn) && iqn != "ALL" && forall call | call in calls :: Spares(call, lvm, iqn)
    ensures Bound(Run(s, calls).targets, lvm, iqn)
    decreases |calls|
  {
    hide Bound, WithinLimits, Spares;
    if calls != [] {
      BoundsUnderFaults(s, [calls[0]], bound);
      assert Run(s, [calls[0]]) == Step(s, calls[0]) by { assert [calls[0]][1..] == []; }
      assert calls[0] in calls;
      StepKeepsBound(s, calls[0], lvm, iqn);
      hide Step;
      BindingSurvives(Step(s, calls[0]), calls[1..], bound + 1, lvm, iqn);
    }
  }

  lemma {:induction false} StepKeepsBound(s: State, call: Call, lvm: string, iqn: string)
    requires WithinLimits(s.targets) && Bound(s.targets, lvm, iqn) && iqn != "ALL" && Spares(call, lvm, iqn)
    ensures Bound(Step(s, call).targets, lvm, iqn)
  {
    hide Bound, WithinLimits, Attach, Detach, Named;
    match call {
      case AttachCall(pool, volume, more) => AttachKeepsBound(s, pool, volume, more, lvm, iqn);
      case DetachCall(name, less) => DetachKeepsBound(s, name, less, lvm, iqn);
    }
  }

  /* ---- a successful attach binds ---- */

  /** The answer names the LUN that maps the volume, on a k8s target, and it is bound to the IQN. */
  ghost predicate NamesBinding(ts: seq<Target>, at: Attachment, lvm: string, iqn: string) {
    RightLun(ts, at.target, at.lun, lvm) && iqn in Split(LunAtId(ts, at.target, at.lun).iqnPort, ',')
  }

  /** An attach that reports success has bound the volume, whatever failed before, and answers with its target
      and LUN. */
  lemma {:induction false} AttachBinds(s: State, pool: string, volume: string, iqn: string)
    requires WithinLimits(s.targets) && LargestSuffix(s.targets, 0) < MAX_INT64 && ',' !in iqn
    requires Attach(s, Some(pool), volume, iqn).1.Ok?
    ensures var (t, r) := Attach(s, Some(pool), volume, iqn);
      Bound(t.targets, MappingName(pool, volume), iqn)
      && NamesBinding(t.targets, r.value, MappingName(pool, volume), iqn)
  {
    hide NamesBinding, Bound, GetTarget, MapVolume, BindVolume, WithinLimits, MappingName, RightLun, K8sMapped;
    hide LargestSuffix, SuffixesUpTo, HasTarget, LunsOf, IsK8s;
    var lvm := MappingName(pool, volume);
    ChoiceIsRight(s, lvm, iqn);
    GetTargetKeeps(s, lvm, iqn);
    var (s1, choice) := GetTarget(s, lvm, iqn);
    match choice {
      case NoTarget(_) =>
      case Existing(target, lun, bound) =>
        if !bound { BoundNow(s1, target, lun, lvm, iqn); }
      case Vacant(target) =>
        MappedNow(s1, target, lvm, LargestSuffix(s.targets, 0) + 1);
        var (s2, mapped) := MapVolume(s1, target, lvm);
        if mapped.Ok? && mapped.value.Some? { BoundNow(s2, target, mapped.value.value, lvm, iqn); }
        if mapped.Ok? && mapped.value.None? { NoLunFails(s2, target, iqn); }
    }
  }

  lemma {:induction false} NoLunFails(s: State, target: string, iqn: string)
    ensures BindVolume(s, target, None, iqn).1.Err?
  {}

  /** The LUN with this id on this k8s target maps the volume. */
  ghost predicate RightLun(ts: seq<Target>, target: string, id: nat, lvm: string) {
    IsK8s(target) && HasLun(ts, target, id) && LunAtId(ts, target, id).lvm == lvm
  }

  lemma {:induction false} ChoiceIsRight(s: State, lvm: string, iqn: string)
    requires WithinLimits(s.targets)
    ensures var (s1, choice) := GetTarget(s, lvm, iqn);
      && (choice.Existing? ==> RightLun(s1.targets, choice.target, choice.lun, lvm))
      && (choice.Existing? && choice.bound ==>
            Bound(s1.targets, lvm, iqn) && NamesBinding(s1.targets, Attachment(choice.target, choice.lun), lvm, iqn))
      && (choice.Vacant? ==> IsK8s(choice.target))
  {
    hide SearchTargets, NewTarget, TargetName, Split, MappedOnce, IsK8s, Suffix, LargestSuffix, NowhereIn;
    MirrorsItself(s.targets);
    SearchFacts(Spend(s), s.targets, lvm, SCAN_START);
    if Up(s) {
      var (s1, search) := SearchTargets(Spend(s), s.targets, lvm, SCAN_START);
      hide GetTarget;
      GetTargetCases(s, lvm, iqn, s1, search);
      if search.Mapped? {
        var t :| t in s.targets && IsK8s(t.name) && t.name == search.target
          && Maps(t.luns, lvm) && t.luns[LvmPosition(t.luns, lvm)] == search.lun;
        FoundLun(s.targets, t, lvm, search.lun, iqn);
      }
      if search.Unmapped? {
        var name := TargetName(Increment(search.scan.maxSuffix));
        NewTargetAppends(s1, name);
        assert IsK8s(name);
        if Decide(|s.targets|, search.scan) == Reuse { ChosenIsK8s(s.targets, search.scan); }
      }
    }
  }

  lemma {:induction false} ChosenIsK8s(ts: seq<Target>, scan: Scan)
    requires Chosen(ts, SCAN_START, scan) && scan.least != MAX_LUN_NUM_PER_TARGET
    ensures IsK8s(scan.chosen)
  {}

  lemma {:induction false} FoundLun(ts: seq<Target>, t: Target, lvm: string, lun: Lun, iqn: string)
    requires WithinLimits(ts) && t in ts && IsK8s(t.name)
    requires Maps(t.luns, lvm) && lun == t.luns[LvmPosition(t.luns, lvm)]
    ensures RightLun(ts, t.name, lun.id, lvm)
    ensures iqn in Split(lun.iqnPort, ',') ==>
      Bound(ts, lvm, iqn) && NamesBinding(ts, Attachment(t.name, lun.id), lvm, iqn)
  {
    hide IsK8s, Split, MappedOnce;
    var i :| 0 <= i < |ts| && ts[i] == t;
    NamePosition(ts, i);
    assert lun in t.luns;
    TheLun(ts, Place(t.name, lun));
    if iqn in Split(lun.iqnPort, ',') { assert Binds(lun, lvm, iqn); }
  }

  lemma {:induction false} BoundNow(s: State, target: string, id: nat, lvm: string, iqn: string)
    requires RightLun(s.targets, target, id, lvm) && ',' !in iqn
    ensures var (t, r) := BindVolume(s, target, Some(id), iqn); 
      r.Ok? ==>
        && r.value == Attachment(target, id)
        && Bound(t.targets, lvm, iqn) && NamesBinding(t.targets, r.value, lvm, iqn)
  {
    hide IsK8s, Split, BindPort;
    var ts, port := s.targets, PortOf(s.targets, target, id);
    NowListed(port, iqn);
    UnboundLun(ts, target, id, BindPort(port, iqn));
    var after := SetPort(ts, target, id, BindPort(port, iqn));
    var p, k := Position(after, target), LunPosition(LunsOf(after, target), id);
    assert after[p].luns[k] == LunAtId(after, target, id);
    BoundIn(after, p, k, lvm, iqn);
  }

  lemma {:induction false} NowListed(port: string, iqn: string)
    requires ',' !in iqn
    ensures iqn in Split(BindPort(port, iqn), ',')
  {
    SplitPlain(iqn, ',');
    if port != "ALL" { SplitAppend(port, iqn, ','); }
  }

  lemma {:induction false} MappedNow(s: State, target: string, lvm: string, bound: int)
    requires WithinLimits(s.targets) && SuffixesUpTo(s.targets, bound) && !K8sMapped(s.targets, lvm) && IsK8s(target)
    requires HasTarget(s.targets, target) && |LunsOf(s.targets, target)| < MAX_LUN_NUM_PER_TARGET
    ensures var (t, r) := MapVolume(s, target, lvm);
      r.Ok? && r.value.Some? ==> RightLun(t.targets, target, r.value.value, lvm)
  {
    hide IsK8s, WithinLimits, AddLun, K8sMapped;
    MapKeeps(s, target, lvm, bound);
    var (t, r) := MapVolume(s, target, lvm);
    if r.Ok? && r.value.Some? {
      assert HasTarget(t.targets, target) && Maps(LunsOf(t.targets, target), lvm);
      var luns := LunsOf(t.targets, target);
      var l := luns[LvmPosition(luns, lvm)];
      assert l in luns && l.id == r.value.value;
      TheLun(t.targets, Place(target, l));
    }
  }

  /** What the host gets to connect by: the target and LUN bound to it, at the portals of the nodes of the target
      that could be asked. */
  lemma {:induction false} AttachAnswers(s: State, pool: string, volume: string, iqn: string, net: Net)
    requires WithinLimits(s.targets) && LargestSuffix(s.targets, 0) < MAX_INT64 && ',' !in iqn
    requires AttachAndConnect(s, Some(pool), volume, iqn, net).1.Ok?
    ensures var bound := Attach(s, Some(pool), volume, iqn).0;
      var (t, r) := AttachAndConnect(s, Some(pool), volume, iqn, net);
      && t.targets == bound.targets
      && NamesBinding(t.targets, Attachment(r.value.target, r.value.lun), MappingName(pool, volume), iqn)
      && PortalsOf(r.value.portals, bound, 1, Split(net.nodes, ','), net.addresses)
  {
    hide Attach, Connect, NamesBinding, Bound, PortalsOf, WithinLimits, LargestSuffix;
    var (bound, at) := Attach(s, Some(pool), volume, iqn);
    AttachBinds(s, pool, volume, iqn);
    ConnectOutcome(bound, at.value, net);
  }
}
