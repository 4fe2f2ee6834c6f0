/** What attaching and detaching on the AS13000 answer and leave under any failures: how many calls each makes,
    and what the call that fails leaves behind. */
module As13000Faults {
  import opened Wrappers
  import opened Text
  import opened TargetArray
  import opened As13000
  import opened As13000Bounds
  import opened As13000Outcome
  import opened As13000Detach

  /** The array once k calls have been made, none of which has changed a target. */
  function After(s: State, k: nat): State { State(s.targets, if |s.faults| <= k then [] else s.faults[k..]) }

  predicate AllAnswer(s: State, first: nat, end: nat) { forall i | first <= i < end :: Answers(s, i) }

  lemma {:induction false} AfterFacts(s: State, k: nat)
    ensures After(s, 0) == s && Spend(After(s, k)) == After(s, k + 1) && After(s, k).targets == s.targets
    ensures Up(After(s, k)) <==> Answers(s, k)
  {}

  /* ---- the search ---- */

  /** The calls the search makes when nothing fails: one for each k8s target up to the first that maps the volume. */
  function Queries(ts: seq<Target>, lvm: string): nat {
    if ts == [] then 0
    else if !IsK8s(ts[0].name) then Queries(ts[1..], lvm)
    else if Maps(ts[0].luns, lvm) then 1
    else 1 + Queries(ts[1..], lvm)
  }

  /** The search ends as it would with nothing failing, or not at all. */
  lemma {:induction false} SearchUnderFaults(s: State, ts: seq<Target>, lvm: string, acc: Scan, k: nat)
    requires Mirrors(s.targets, ts)
    ensures var q := Queries(ts, lvm);
      var (t, search) := SearchTargets(After(s, k), ts, lvm, acc);
      && t.targets == s.targets
      && (AllAnswer(s, k, k + q) ==>
            t == After(s, k + q) && search == SearchTargets(State(s.targets, []), ts, lvm, acc).1)
      && (!AllAnswer(s, k, k + q) ==> search == QueryFailed)
    decreases |ts|
  {
    hide Suffix, IsK8s, Maps, Position, After, Answers, Up, Spend;
    AfterFacts(s, k);
    AfterFacts(s, k + 1);
    if ts != [] {
      assert ts[0] in ts && forall t | t in ts[1..] :: t in ts;
      var none := State(s.targets, []);
      assert Up(none) && Spend(none) == none by { NothingFails(s.targets); }
      if !IsK8s(ts[0].name) {
        SearchUnderFaults(s, ts[1..], lvm, acc, k);
      } else {
        var q := Queries(ts, lvm);
        assert AllAnswer(s, k, k + q) <==> Answers(s, k) && AllAnswer(s, k + 1, k + q);
        if !Maps(ts[0].luns, lvm) { SearchUnderFaults(s, ts[1..], lvm, Visit(acc, ts[0].name, |ts[0].luns|), k + 1); }
      }
    }
  }

  lemma {:induction false} NothingFails(ts: seq<Target>)
    ensures Up(State(ts, [])) && Spend(State(ts, [])) == State(ts, [])
  {}

  /* ---- creating a target, mapping, binding ---- */

  lemma {:induction false} NewTargetUnderFaults(s: State, name: string, k: nat)
    ensures var (t, choice) := NewTarget(After(s, k), name);
      && t.targets == (if Answers(s, k) then WithNew(s.targets, name) else s.targets)
      && (if AllAnswer(s, k, k + 3) then choice == Vacant(name) && t == After(State(t.targets, s.faults), k + 3)
          else choice == NoTarget(RestFailure))
  {
    hide After, Answers, Up, Spend;
    assert AllAnswer(s, k, k + 3) <==> Answers(s, k) && Answers(s, k + 1) && Answers(s, k + 2);
    var u := State(WithNew(s.targets, name), s.faults);
    AfterFacts(s, k);
    AfterFacts(u, k + 1);
    AfterFacts(u, k + 2);
    AfterFacts(u, k + 3);
    OtherTargets(s, u.targets, k + 1);
    SameFaults(s, u);
    Created(s, name, k);
  }

  /** The calls to come do not depend on the targets. */
  lemma {:induction false} SameFaults(s: State, t: State)
    requires s.faults == t.faults
    ensures forall i: nat :: Answers(s, i) <==> Answers(t, i)
  {}

  lemma {:induction false} OtherTargets(s: State, ts: seq<Target>, k: nat)
    ensures After(State(ts, s.faults), k) == State(ts, After(s, k).faults)
  {}

  lemma {:induction false} Created(s: State, name: string, k: nat)
    ensures CreateTarget(After(s, k), name)
      == if Answers(s, k) then (After(State(WithNew(s.targets, name), s.faults), k + 1), true)
         else (After(s, k + 1), false)
    ensures After(s, k + 1).targets == s.targets
  {
    AfterFacts(s, k);
  }

  /** On the target at `p`, which does not map the volume: a look-up, the mapping, and a look-up. */
  lemma {:induction false} MapUnderFaults(s: State, p: nat, lvm: string, k: nat)
    requires DistinctNames(s.targets) && p < |s.targets| && !Maps(s.targets[p].luns, lvm)
    ensures var (t, r) := MapVolume(After(s, k), s.targets[p].name, lvm);
      && t.targets == (if Answers(s, k) && Answers(s, k + 1) then Unbound(s.targets, p, lvm) else s.targets)
      && (if AllAnswer(s, k, k + 3) then
            r == Ok(Some(FreshId(s.targets[p].luns))) && t == After(State(t.targets, s.faults), k + 3)
          else r == Err(RestFailure))
  {
    assert AllAnswer(s, k, k + 3) <==> Answers(s, k) && Answers(s, k + 1) && Answers(s, k + 2);
    MapFaultFree(s.targets, p, lvm);
    hide AddLun, Maps;
  }

  /** The LUN added, with the port list a new LUN has. */
  function Unbound(ts: seq<Target>, p: nat, lvm: string): seq<Target>
    requires p < |ts|
  {
    ts[p := Target(ts[p].name, ts[p].luns + [Lun(FreshId(ts[p].luns), lvm, "ALL")])]
  }

  lemma {:induction false} MapFaultFree(ts: seq<Target>, p: nat, lvm: string)
    requires DistinctNames(ts) && p < |ts| && !Maps(ts[p].luns, lvm)
    ensures var name, added := ts[p].name, Unbound(ts, p, lvm);
      && HasTarget(ts, name) && LunsOf(ts, name) == ts[p].luns && AddLun(ts, name, lvm) == added
      && HasTarget(added, name) && Maps(LunsOf(added, name), lvm)
      && LunsOf(added, name)[LvmPosition(LunsOf(added, name), lvm)].id == FreshId(ts[p].luns)
  {
    var name, added := ts[p].name, Unbound(ts, p, lvm);
    NamePosition(ts, p);
    NamePosition(added, p);
    var luns := added[p].luns;
    assert luns[|ts[p].luns|].lvm == lvm;
    assert forall q | 0 <= q < |ts[p].luns| :: luns[q].lvm != lvm;
    assert LvmPosition(luns, lvm) == |ts[p].luns|;
  }

  lemma {:induction false} BindUnderFaults(s: State, p: nat, a: nat, iqn: string, k: nat)
    requires DistinctNames(s.targets) && p < |s.targets| && a < |s.targets[p].luns| && DistinctIds(s.targets[p].luns)
    ensures var lun := s.targets[p].luns[a];
      var (t, r) := BindVolume(After(s, k), s.targets[p].name, Some(lun.id), iqn);
      if Answers(s, k) then
        && t == After(State(WithPort(s.targets, p, a, BindPort(lun.iqnPort, iqn)), s.faults), k + 1)
        && r == Ok(Attachment(s.targets[p].name, lun.id))
      else t.targets == s.targets && r == Err(RestFailure)
  {
    hide BindPort, Split;
    NamePosition(s.targets, p);
    IdPosition(s.targets[p].luns, a);
  }

  /* ---- attaching ---- */

  lemma {:induction false} MoreAnswer(s: State, first: nat, mid: nat, end: nat)
    requires first <= mid <= end
    ensures AllAnswer(s, first, end) <==> AllAnswer(s, first, mid) && AllAnswer(s, mid, end)
  {
    hide Answers;
  }

  /** The choice of target up to the end of the search. */
  lemma {:induction false} SearchEnds(s: State, lvm: string, iqn: string)
    requires DistinctNames(s.targets)
    ensures var q := 1 + Queries(s.targets, lvm);
      var search := SearchTargets(State(s.targets, []), s.targets, lvm, SCAN_START).1;
      var (t, choice) := GetTarget(s, lvm, iqn);
      if !AllAnswer(s, 0, q) then t.targets == s.targets && choice == NoTarget(RestFailure)
      else
        && !search.QueryFailed?
        && (t, choice) == match search
                          case Mapped(target, lun) =>
                            (After(s, q), Existing(target, lun.id, iqn in Split(lun.iqnPort, ',')))
                          case Unmapped(scan) =>
                            match Decide(|s.targets|, scan)
                            case Refuse => (After(s, q), NoTarget(TargetsExhausted))
                            case Create => NewTarget(After(s, q), TargetName(Increment(scan.maxSuffix)))
                            case Reuse => (After(s, q), Vacant(scan.chosen))
  {
    hide SearchTargets, NewTarget, After, Answers, Up, Spend, Split, TargetName, Queries, Explains, Mirrors;
    var ts, q := s.targets, Queries(s.targets, lvm);
    MirrorsItself(ts);
    AfterFacts(s, 0);
    AfterFacts(s, 1);
    SearchUnderFaults(s, ts, lvm, SCAN_START, 1);
    SearchFacts(State(ts, []), ts, lvm, SCAN_START);
    MoreAnswer(s, 0, 1, 1 + q);
    assert AllAnswer(s, 0, 1) <==> Answers(s, 0);
    if Answers(s, 0) {
      var (s1, search) := SearchTargets(After(s, 1), ts, lvm, SCAN_START);
      if AllAnswer(s, 1, 1 + q) {
        GetTargetCases(s, lvm, iqn, s1, search);
        hide GetTarget;
      }
    }
  }

  /** Attaching a volume that is mapped makes one call for the targets, one for each k8s target up to its own, and
      one to bind the IQN if that is needed. It succeeds when all get through; only then has the LUN's list
      changed. */
  lemma {:induction false} AttachMappedOutcome(s: State, pool: string, volume: string, iqn: string, i: nat, a: nat)
    requires WithinLimits(s.targets) && K8sMapsAt(s.targets, i, a, MappingName(pool, volume))
    ensures var lun, q := s.targets[i].luns[a], 1 + Queries(s.targets, MappingName(pool, volume));
      var (t, r) := Attach(s, Some(pool), volume, iqn);
      var bound := iqn in Split(lun.iqnPort, ',');
      && (r.Ok? <==> AllAnswer(s, 0, if bound then q else q + 1))
      && r == (if r.Ok? then Ok(Attachment(s.targets[i].name, lun.id)) else Err(RestFailure))
      && t.targets == if r.Ok? && !bound then WithPort(s.targets, i, a, BindPort(lun.iqnPort, iqn)) else s.targets
  {
    hide GetTarget, SearchTargets, After, Answers, Split, MappingName, Queries, BindVolume, BindPort, MappedOnce;
    hide DistinctNames, DistinctIds, AllAnswer;
    var ts, lvm, lun := s.targets, MappingName(pool, volume), s.targets[i].luns[a];
    var q := 1 + Queries(ts, lvm);
    MappedSearch(ts, lvm, i, a);
    SearchEnds(s, lvm, iqn);
    BindUnderFaults(s, i, a, iqn, q);
    MoreAnswer(s, 0, q, q + 1);
    OneAnswer(s, q);
    AfterFacts(s, q);
    OtherTargets(s, WithPort(ts, i, a, BindPort(lun.iqnPort, iqn)), q + 1);
  }

  lemma {:induction false} OneAnswer(s: State, k: nat)
    ensures AllAnswer(s, k, k + 1) <==> Answers(s, k)
  {}

  /** With nothing failing the search for a mapped volume ends with its LUN. */
  lemma {:induction false} MappedSearch(ts: seq<Target>, lvm: string, i: nat, a: nat)
    requires WithinLimits(ts) && K8sMapsAt(ts, i, a, lvm)
    ensures SearchTargets(State(ts, []), ts, lvm, SCAN_START).1 == Mapped(ts[i].name, ts[i].luns[a])
  {
    hide SearchTargets, IsK8s, Suffix, LargestSuffix;
    var none := State(ts, []);
    MirrorsItself(ts);
    SearchFacts(none, ts, lvm, SCAN_START);
    var search := SearchTargets(none, ts, lvm, SCAN_START).1;
    assert K8sMapped(ts, lvm);
    if search.Unmapped? { NowhereMeansUnmapped(ts, lvm); }
    var t :| t in ts && IsK8s(t.name) && t.name == search.target
      && Maps(t.luns, lvm) && t.luns[LvmPosition(t.luns, lvm)] == search.lun;
    var j :| 0 <= j < |ts| && ts[j] == t;
    assert K8sMapsAt(ts, j, LvmPosition(t.luns, lvm), lvm);
  }

  /** From the look-up of the LUN on the target at `p` to the binding: four calls. */
  lemma {:induction false} PlacedUnderFaults(s: State, p: nat, lvm: string, iqn: string, k: nat)
    requires WithinLimits(s.targets) && p < |s.targets| && !Maps(s.targets[p].luns, lvm)
    ensures var (t1, mapped) := MapVolume(After(s, k), s.targets[p].name, lvm);
      var (t, r) := if mapped.Err? then (t1, Err(mapped.error))
                    else BindVolume(t1, s.targets[p].name, mapped.value, iqn);
      && (r.Ok? <==> AllAnswer(s, k, k + 4))
      && r == (if r.Ok? then Ok(Attachment(s.targets[p].name, FreshId(s.targets[p].luns))) else Err(RestFailure))
      && t.targets == if !AllAnswer(s, k, k + 2) then s.targets
                      else if !AllAnswer(s, k, k + 4) then Unbound(s.targets, p, lvm)
                      else Placed(s.targets, p, lvm, iqn)
  {
    hide After, Answers, MapVolume, BindVolume, Maps;
    var n, us := |s.targets[p].luns|, Unbound(s.targets, p, lvm);
    var u := State(us, s.faults);
    MapUnderFaults(s, p, lvm, k);
    UnboundApart(s.targets, p, lvm);
    BindUnderFaults(u, p, n, iqn, k + 3);
    SameFaults(s, u);
    assert BindPort("ALL", iqn) == iqn;
    assert us[p].luns[n := us[p].luns[n].(iqnPort := iqn)]
      == s.targets[p].luns + [Lun(FreshId(s.targets[p].luns), lvm, iqn)];
    assert WithPort(us, p, n, iqn) == Placed(s.targets, p, lvm, iqn);
    AfterFacts(State(Placed(s.targets, p, lvm, iqn), s.faults), k + 4);
    assert AllAnswer(s, k, k + 2) <==> Answers(s, k) && Answers(s, k + 1);
    assert AllAnswer(s, k, k + 3) <==> AllAnswer(s, k, k + 2) && Answers(s, k + 2);
    assert AllAnswer(s, k, k + 4) <==> AllAnswer(s, k, k + 3) && Answers(s, k + 3);
  }

  lemma {:induction false} UnboundApart(ts: seq<Target>, p: nat, lvm: string)
    requires WithinLimits(ts) && p < |ts|
    ensures DistinctNames(Unbound(ts, p, lvm)) && DistinctIds(Unbound(ts, p, lvm)[p].luns)
  {}

  /** What attaching a volume that no k8s target maps leaves, by the number of calls that get through, `q` of which
      belong to the search. Of the seven calls that follow where a target is created, the first makes it, the
      fifth the mapping and the last the binding; of the four on a target that is there, the second and the
      last. What has been made stays. */
  ghost predicate LeftUnmapped(s: State, lvm: string, iqn: string, q: nat, t: State) {
    if MustCreate(s.targets) then LeftOnNew(s, lvm, iqn, q, t.targets)
    else exists p: nat :: LeastLoadedVacancy(s.targets, p) && LeftOnVacancy(s, p, lvm, iqn, q, t.targets)
  }

  ghost predicate LeftOnNew(s: State, lvm: string, iqn: string, q: nat, after: seq<Target>) {
    var ts := s.targets;
    var more := WithNew(ts, TargetName(LargestSuffix(ts, 0) + 1));
    after == if !AllAnswer(s, 0, q + 1) then ts
             else if !AllAnswer(s, 0, q + 5) then more
             else if !AllAnswer(s, 0, q + 7) then Unbound(more, |ts|, lvm)
             else Placed(more, |ts|, lvm, iqn)
  }

  ghost predicate LeftOnVacancy(s: State, p: nat, lvm: string, iqn: string, q: nat, after: seq<Target>) {
    && p < |s.targets|
    && after == if !AllAnswer(s, 0, q + 2) then s.targets
                else if !AllAnswer(s, 0, q + 4) then Unbound(s.targets, p, lvm)
                else Placed(s.targets, p, lvm, iqn)
  }

  /** It succeeds when all of them get through; with 64 targets it is refused once the search is done. */
  lemma {:induction false} AttachUnmappedOutcome(s: State, pool: string, volume: string, iqn: string)
    requires WithinLimits(s.targets) && !K8sMapped(s.targets, MappingName(pool, volume))
    requires LargestSuffix(s.targets, 0) < MAX_INT64
    ensures var q := 1 + Queries(s.targets, MappingName(pool, volume));
      var (t, r) := Attach(s, Some(pool), volume, iqn);
      if |s.targets| >= MAX_TARGET_NUM then
        t.targets == s.targets && r == Err(if AllAnswer(s, 0, q) then TargetsExhausted else RestFailure)
      else
        && (r.Ok? <==> AllAnswer(s, 0, if MustCreate(s.targets) then q + 7 else q + 4))
        && (r.Err? ==> r.error == RestFailure)
        && LeftUnmapped(s, MappingName(pool, volume), iqn, q, t)
  {
    hide GetTarget, SearchTargets, After, Answers, MappingName, Queries, BindVolume, MapVolume, MustCreate, AllAnswer;
    hide TargetName, LargestSuffix, NewTarget, LeftUnmapped, WithinLimits, K8sMapped, LeastLoadedVacancy, Split;
    hide DistinctNames, Up, Spend;
    var ts, lvm := s.targets, MappingName(pool, volume);
    var q := 1 + Queries(ts, lvm);
    var scan := SearchUnmapped(State(ts, []), lvm);
    LimitsParts(ts);
    SearchEnds(s, lvm, iqn);
    AfterFacts(s, q);
    if |ts| < MAX_TARGET_NUM {
      if !AllAnswer(s, 0, q) {
        NothingLeft(s, lvm, iqn, q, Attach(s, Some(pool), volume, iqn).0);
      } else if MustCreate(ts) {
        CreatedOutcome(s, lvm, iqn, q);
      } else {
        VacancyOutcome(s, lvm, iqn, q, scan.chosen);
      }
    }
  }

  lemma {:induction false} LimitsParts(ts: seq<Target>)
    requires WithinLimits(ts)
    ensures DistinctNames(ts)
  {}

  lemma {:induction false} NothingLeft(s: State, lvm: string, iqn: string, q: nat, t: State)
    requires WithinLimits(s.targets) && !AllAnswer(s, 0, q) && t.targets == s.targets && !K8sMapped(s.targets, lvm)
    ensures LeftUnmapped(s, lvm, iqn, q, t)
    ensures !AllAnswer(s, 0, q + 7) && !AllAnswer(s, 0, q + 4)
  {
    hide MustCreate, TargetName, LargestSuffix, WithinLimits, K8sMapped, Answers;
    var scan := SearchUnmapped(State(s.targets, []), lvm);
    MoreAnswer(s, 0, q, q + 1);
    MoreAnswer(s, 0, q, q + 2);
    MoreAnswer(s, 0, q, q + 4);
    MoreAnswer(s, 0, q, q + 7);
    if !MustCreate(s.targets) {
      var p: nat :| LeastLoadedVacancy(s.targets, p) && scan.chosen == s.targets[p].name;
      assert LeftOnVacancy(s, p, lvm, iqn, q, t.targets);
    }
  }

  lemma {:induction false} CreatedOutcome(s: State, lvm: string, iqn: string, q: nat)
    requires WithinLimits(s.targets) && !K8sMapped(s.targets, lvm) && LargestSuffix(s.targets, 0) < MAX_INT64
    requires |s.targets| < MAX_TARGET_NUM && AllAnswer(s, 0, q) && MustCreate(s.targets)
    ensures var (u, choice) := NewTarget(After(s, q), TargetName(LargestSuffix(s.targets, 0) + 1));
      if choice.Vacant? then
        var (t1, mapped) := MapVolume(u, choice.target, lvm);
        var (t, r) := if mapped.Err? then (t1, Err(mapped.error)) else BindVolume(t1, choice.target, mapped.value, iqn);
        && (r.Ok? <==> AllAnswer(s, 0, q + 7)) && (r.Err? ==> r.error == RestFailure)
        && LeftUnmapped(s, lvm, iqn, q, t)
      else choice == NoTarget(RestFailure) && !AllAnswer(s, 0, q + 7) && LeftUnmapped(s, lvm, iqn, q, u)
  {
    hide After, Answers, MapVolume, BindVolume, NewTarget, TargetName, LargestSuffix, MustCreate, AllAnswer, Placed;
    hide Unbound, K8sMapped, WithinLimits, WithNew, LeftOnNew;
    var ts, name := s.targets, TargetName(LargestSuffix(s.targets, 0) + 1);
    var u := State(WithNew(ts, name), s.faults);
    NewTargetUnderFaults(s, name, q);
    NewWithin(ts, name);
    NewLast(ts, name, lvm);
    PlacedUnderFaults(u, |ts|, lvm, iqn, q + 3);
    CreatedCounts(s, u, q);
    var (v, choice) := NewTarget(After(s, q), name);
    if choice.Vacant? {
      var (t1, mapped) := MapVolume(v, name, lvm);
      var t := if mapped.Err? then t1 else BindVolume(t1, name, mapped.value, iqn).0;
      assert LeftOnNew(s, lvm, iqn, q, t.targets) by { NewLeft(s, lvm, iqn, q, t.targets); }
    } else {
      assert LeftOnNew(s, lvm, iqn, q, v.targets) by { NewLeft(s, lvm, iqn, q, v.targets); }
    }
  }

  /** Told by the calls before and after the creation. */
  lemma {:induction false} NewLeft(s: State, lvm: string, iqn: string, q: nat, after: seq<Target>)
    requires var ts, more := s.targets, WithNew(s.targets, TargetName(LargestSuffix(s.targets, 0) + 1));
      after == if !AllAnswer(s, 0, q + 1) then ts
               else if !AllAnswer(s, 0, q + 5) then more
               else if !AllAnswer(s, 0, q + 7) then Unbound(more, |ts|, lvm)
               else Placed(more, |ts|, lvm, iqn)
    ensures LeftOnNew(s, lvm, iqn, q, after)
  {}

  lemma {:induction false} NewLast(ts: seq<Target>, name: string, lvm: string)
    ensures WithNew(ts, name)[|ts|] == Target(name, []) && !Maps([], lvm) && |WithNew(ts, name)| == |ts| + 1
  {}

  lemma {:induction false} CreatedCounts(s: State, u: State, q: nat)
    requires s.faults == u.faults && AllAnswer(s, 0, q)
    ensures forall i: nat, j: nat :: AllAnswer(s, i, j) <==> AllAnswer(u, i, j)
    ensures AllAnswer(s, 0, q + 1) <==> Answers(s, q)
    ensures AllAnswer(s, 0, q + 5) <==> AllAnswer(s, q, q + 3) && AllAnswer(s, q + 3, q + 5)
    ensures AllAnswer(s, 0, q + 7) <==> AllAnswer(s, q, q + 3) && AllAnswer(s, q + 3, q + 7)
    ensures AllAnswer(s, q, q + 3) ==> Answers(s, q)
  {
    hide Answers;
    SameAll(s, u);
    MoreAnswer(s, 0, q, q + 1);
    MoreAnswer(s, 0, q, q + 3);
    MoreAnswer(s, 0, q + 3, q + 5);
    MoreAnswer(s, 0, q + 3, q + 7);
    MoreAnswer(s, q, q + 1, q + 3);
    OneAnswer(s, q);
  }

  lemma {:induction false} SameAll(s: State, t: State)
    requires s.faults == t.faults
    ensures forall i: nat, j: nat :: AllAnswer(s, i, j) <==> AllAnswer(t, i, j)
  {
    SameFaults(s, t);
    hide Answers;
    forall i: nat, j: nat ensures AllAnswer(s, i, j) <==> AllAnswer(t, i, j) {}
  }

  lemma {:induction false} NewWithin(ts: seq<Target>, name: string)
    requires WithinLimits(ts) && |ts| < MAX_TARGET_NUM && name == TargetName(LargestSuffix(ts, 0) + 1)
    requires LargestSuffix(ts, 0) < MAX_INT64
    ensures WithinLimits(WithNew(ts, name))
  {
    hide WithinLimits, LargestSuffix, TargetName;
    FreshBelow(ts);
    AppendTarget(ts, name);
  }

  lemma {:induction false} VacancyOutcome(s: State, lvm: string, iqn: string, q: nat, chosen: string)
    requires WithinLimits(s.targets) && !K8sMapped(s.targets, lvm) && AllAnswer(s, 0, q) && !MustCreate(s.targets)
    requires exists p: nat :: LeastLoadedVacancy(s.targets, p) && chosen == s.targets[p].name
    ensures var (t1, mapped) := MapVolume(After(s, q), chosen, lvm);
      var (t, r) := if mapped.Err? then (t1, Err(mapped.error)) else BindVolume(t1, chosen, mapped.value, iqn);
      && (r.Ok? <==> AllAnswer(s, 0, q + 4)) && (r.Err? ==> r.error == RestFailure)
      && LeftUnmapped(s, lvm, iqn, q, t)
  {
    hide After, Answers, MapVolume, BindVolume, MustCreate, AllAnswer, Placed, Unbound, K8sMapped, WithinLimits;
    hide TargetName, LargestSuffix, LvmPosition;
    var p: nat :| LeastLoadedVacancy(s.targets, p) && chosen == s.targets[p].name;
    NotMappedThere(s.targets, p, lvm);
    hide LeastLoadedVacancy;
    PlacedUnderFaults(s, p, lvm, iqn, q);
    MoreAnswer(s, 0, q, q + 2);
    MoreAnswer(s, 0, q, q + 4);
    var (t1, mapped) := MapVolume(After(s, q), chosen, lvm);
    var t := if mapped.Err? then t1 else BindVolume(t1, chosen, mapped.value, iqn).0;
    assert LeftOnVacancy(s, p, lvm, iqn, q, t.targets);
  }

  lemma {:induction false} NotMappedThere(ts: seq<Target>, p: nat, lvm: string)
    requires LeastLoadedVacancy(ts, p) && !K8sMapped(ts, lvm)
    ensures !Maps(ts[p].luns, lvm)
  {
    if Maps(ts[p].luns, lvm) { NotFoundIfUnmapped(ts, ts[p], lvm); }
  }

  /** Without a pool nothing is called. */
  lemma {:induction false} AttachWithoutPool(s: State, volume: string, iqn: string)
    ensures Attach(s, None, volume, iqn) == (s, Err(NoDataPool))
  {}

  /* ---- detaching ---- */

  /** The targets a detach asks about: up to the first that maps a whole name, all for a bare one. */
  function Scanned(ts: seq<Target>, name: string): nat {
    if ts == [] then 0
    else if Qualified(name) && Maps(ts[0].luns, name) then 1
    else 1 + Scanned(ts[1..], name)
  }

  lemma {:induction false} FindUnderFaults(s: State, ts: seq<Target>, name: string, pool: string, volume: string,
                                           acc: seq<Place>, k: nat)
    requires Mirrors(s.targets, ts) && (pool != "" <==> Qualified(name))
    ensures var n := Scanned(ts, name);
      var (t, r) := FindMappings(After(s, k), ts, name, pool, volume, acc);
      && t.targets == s.targets
      && (AllAnswer(s, k, k + n) ==>
            t == After(s, k + n) && r == FindMappings(State(s.targets, []), ts, name, pool, volume, acc).1)
      && (!AllAnswer(s, k, k + n) ==> r == Err(RestFailure))
    decreases |ts|
  {
    hide Maps, Position, After, Answers, Up, Spend, Qualified, NamedLuns;
    AfterFacts(s, k);
    AfterFacts(s, k + 1);
    if ts != [] {
      assert ts[0] in ts && forall t | t in ts[1..] :: t in ts;
      var none := State(s.targets, []);
      assert Up(none) && Spend(none) == none by { NothingFails(s.targets); }
      var n := Scanned(ts, name);
      assert AllAnswer(s, k, k + n) <==> Answers(s, k) && AllAnswer(s, k + 1, k + n);
      if !(Qualified(name) && Maps(ts[0].luns, name)) {
        var more := if pool != "" then [] else NamedLuns(ts[0].name, ts[0].luns, volume);
        FindUnderFaults(s, ts[1..], name, pool, volume, acc + more, k + 1);
      }
    }
  }

  /** The mappings a detach finds, or no answer at all. */
  lemma {:induction false} FoundUnderFaults(s: State, name: string)
    requires DistinctNames(s.targets) && !Blank(name)
    ensures var k := 1 + Scanned(s.targets, name);
      if AllAnswer(s, 0, k) then MappingsOf(s, name) == (After(s, k), MappingsOf(State(s.targets, []), name).1)
      else MappingsOf(s, name).0.targets == s.targets && MappingsOf(s, name).1 == Err(RestFailure)
  {
    hide Qualified, FindMappings, After, Answers, Scanned, SlashPosition, Blank, VolumePart;
    NameParses(name);
    MirrorsItself(s.targets);
    AfterFacts(s, 0);
    AfterFacts(s, 1);
    NothingFails(s.targets);
    var n := Scanned(s.targets, name);
    var (pool, volume) := PoolAndVolume(name).value;
    FindUnderFaults(s, s.targets, name, pool, volume, [], 1);
    MoreAnswer(s, 0, 1, 1 + n);
    OneAnswer(s, 0);
  }

  /** The target at `i` without its LUN at `a`. */
  function WithoutLunAt(ts: seq<Target>, i: nat, a: nat): seq<Target>
    requires i < |ts| && a < |ts[i].luns|
  {
    ts[i := Target(ts[i].name, ts[i].luns[..a] + ts[i].luns[a + 1..])]
  }

  /** Removing the LUN at (i, a), and then its target if it stands empty, asked about and removed by one call each. */
  lemma {:induction false} UnmapUnderFaults(s: State, i: nat, a: nat, k: nat)
    requires DistinctNames(s.targets)
    requires i < |s.targets| && DistinctIds(s.targets[i].luns) && a < |s.targets[i].luns|
    ensures var (t, r) := Unmap(After(s, k), s.targets[i].name, s.targets[i].luns[a].id);
      var empty := |s.targets[i].luns| == 1 && Answers(s, k + 1);
      && r == (if Answers(s, k) && (empty ==> Answers(s, k + 2)) then Ok(()) else Err(RestFailure))
      && t.targets == if !Answers(s, k) then s.targets
                      else if empty && Answers(s, k + 2) then s.targets[..i] + s.targets[i + 1..]
                      else WithoutLunAt(s.targets, i, a)
  {
    hide After, Answers;
    var ts, name, id := s.targets, s.targets[i].name, s.targets[i].luns[a].id;
    var u := State(WithoutLunAt(ts, i, a), s.faults);
    AfterFacts(s, k);
    AfterFacts(u, k + 1);
    AfterFacts(u, k + 2);
    SameFaults(s, u);
    OtherTargets(s, u.targets, k + 1);
    DroppedAt(ts, i, a);
    var luns := ts[i].luns[..a] + ts[i].luns[a + 1..];
    assert |luns| == |ts[i].luns| - 1;
    assert u.targets[..i] + u.targets[i + 1..] == ts[..i] + ts[i + 1..];
    hide DropLun, DropTarget, HasLun, HasTarget, LunsOf, Up, Spend;
  }

  lemma {:induction false} DroppedAt(ts: seq<Target>, i: nat, a: nat)
    requires DistinctNames(ts) && i < |ts| && DistinctIds(ts[i].luns) && a < |ts[i].luns|
    ensures var name, id, us := ts[i].name, ts[i].luns[a].id, WithoutLunAt(ts, i, a);
      && HasLun(ts, name, id) && DropLun(ts, name, id) == us
      && HasTarget(us, name) && LunsOf(us, name) == us[i].luns && DropTarget(us, name) == us[..i] + us[i + 1..]
  {
    NamePosition(ts, i);
    IdPosition(ts[i].luns, a);
    NamePosition(WithoutLunAt(ts, i, a), i);
  }

  /** What releasing the LUN at (i, a) leaves, by the calls that get through from the k-th on: the target is looked
      up, a bound IQN unbound; with the last binding the LUN is removed, and a target that then stands empty. */
  ghost predicate Releases(s: State, i: nat, a: nat, iqn: string, k: nat, t: State, ok: bool)
    requires i < |s.targets| && a < |s.targets[i].luns|
  {
    var ts, port := s.targets, s.targets[i].luns[a].iqnPort;
    var parts := Split(port, ',');
    var n := if iqn in parts then k + 2 else k + 1;
    var last := |parts| == 1 && (iqn in parts || parts[0] == "ALL");
    var empty := |ts[i].luns| == 1 && Answers(s, n + 1);
    && (ok <==> AllAnswer(s, k, n) && (last ==> Answers(s, n) && (empty ==> Answers(s, n + 2))))
    && t.targets == if !AllAnswer(s, k, n) then ts
                    else if last && Answers(s, n) then
                      if empty && Answers(s, n + 2) then ts[..i] + ts[i + 1..] else WithoutLunAt(ts, i, a)
                    else if iqn in parts then WithPort(ts, i, a, UnbindPort(port, iqn))
                    else ts
  }

  lemma {:induction false} ReleaseUnderFaults(s: State, i: nat, a: nat, iqn: string, k: nat)
    requires DistinctNames(s.targets)
    requires i < |s.targets| && DistinctIds(s.targets[i].luns) && a < |s.targets[i].luns|
    ensures var (t, r) := Release(After(s, k), Place(s.targets[i].name, s.targets[i].luns[a]), iqn);
      Releases(s, i, a, iqn, k, t, r.Ok?) && (r.Err? ==> r.error == RestFailure)
  {
    hide After, Answers, Unbind, Unmap, UnbindPort, Split, DistinctNames, DistinctIds, WithoutLunAt;
    var ts, lun := s.targets, s.targets[i].luns[a];
    var us := WithPort(ts, i, a, UnbindPort(lun.iqnPort, iqn));
    var u := State(us, s.faults);
    AfterFacts(s, k);
    AfterFacts(s, k + 1);
    AfterFacts(u, k + 2);
    UnbindUnderFaults(s, i, a, iqn, k + 1);
    UnmapUnderFaults(s, i, a, k + 1);
    SameFaults(s, u);
    UnboundKeeps(ts, i, a, iqn);
    UnmapUnderFaults(u, i, a, k + 2);
    MoreAnswer(s, k, k + 1, k + 2);
    OneAnswer(s, k);
    OneAnswer(s, k + 1);
    hide AllAnswer, Up, Spend;
  }

  lemma {:induction false} UnbindUnderFaults(s: State, i: nat, a: nat, iqn: string, k: nat)
    requires DistinctNames(s.targets)
    requires i < |s.targets| && DistinctIds(s.targets[i].luns) && a < |s.targets[i].luns|
    ensures var (t, ok) := Unbind(After(s, k), s.targets[i].name, s.targets[i].luns[a].id, iqn);
      var us := WithPort(s.targets, i, a, UnbindPort(s.targets[i].luns[a].iqnPort, iqn));
      && ok == Answers(s, k)
      && (if ok then t == After(State(us, s.faults), k + 1) else t.targets == s.targets)
  {
    hide UnbindPort;
    NamePosition(s.targets, i);
    IdPosition(s.targets[i].luns, a);
  }

  lemma {:induction false} UnboundKeeps(ts: seq<Target>, i: nat, a: nat, iqn: string)
    requires DistinctNames(ts) && i < |ts| && DistinctIds(ts[i].luns) && a < |ts[i].luns|
    ensures var us := WithPort(ts, i, a, UnbindPort(ts[i].luns[a].iqnPort, iqn));
      && DistinctNames(us) && DistinctIds(us[i].luns) && |us[i].luns| == |ts[i].luns|
      && us[i].name == ts[i].name && us[i].luns[a].id == ts[i].luns[a].id
      && WithoutLunAt(us, i, a) == WithoutLunAt(ts, i, a) && us[..i] + us[i + 1..] == ts[..i] + ts[i + 1..]
  {
    hide UnbindPort;
    var us := WithPort(ts, i, a, UnbindPort(ts[i].luns[a].iqnPort, iqn));
    assert us[i].luns[..a] + us[i].luns[a + 1..] == ts[i].luns[..a] + ts[i].luns[a + 1..];
  }

  /** What DetachVolume does by any name, whatever fails: a blank name is an error; nothing happens until all targets
      in question have been asked; then no mapping is success, several are refused, and the one mapping is
      released as far as the calls get through. */
  lemma {:induction false} DetachOutcome(s: State, name: string, iqn: string)
    requires WithinLimits(s.targets)
    ensures var k := 1 + Scanned(s.targets, name);
      var (t, r) := Detach(s, name, iqn);
      && (Blank(name) ==> (t, r) == (s, Err(EmptyMappingName)))
      && (!Blank(name) && !AllAnswer(s, 0, k) ==> t.targets == s.targets && r == Err(RestFailure))
      && (!Blank(name) && AllAnswer(s, 0, k) ==>
            && (Nothing(s.targets, name) ==> t.targets == s.targets && r == Ok(()))
            && (Ambiguous(s.targets, name) ==> t.targets == s.targets && r == Err(SeveralMappings))
            && (forall i: nat, a: nat | Releasable(s.targets, name, i, a) ::
                  && i < |s.targets| && a < |s.targets[i].luns|
                  && Releases(s, i, a, iqn, k, t, r.Ok?) && (r.Err? ==> r.error == RestFailure)))
  {
    hide MappingsOf, Release, After, Scanned, Answers, AllAnswer, Releases, Qualified, VolumePart, Carries, Blank;
    hide DistinctIds, DistinctNames;
    LimitsParts(s.targets);
    NameParses(name);
    if Blank(name) {
      BlankName(s, name);
    } else {
      var ts, none := s.targets, State(s.targets, []);
      FoundUnderFaults(s, name);
      AfterFacts(s, 1 + Scanned(ts, name));
      FoundFaultFree(ts, name);
      forall i: nat, a: nat | Releasable(ts, name, i, a) ensures i < |ts| && a < |ts[i].luns| {}
      forall i: nat, a: nat | i < |ts| && a < |ts[i].luns|
        ensures var (t, r) := Release(After(s, 1 + Scanned(ts, name)), Place(ts[i].name, ts[i].luns[a]), iqn);
          Releases(s, i, a, iqn, 1 + Scanned(ts, name), t, r.Ok?) && (r.Err? ==> r.error == RestFailure)
      {
        DistinctLuns(ts, i);
        ReleaseUnderFaults(s, i, a, iqn, 1 + Scanned(ts, name));
      }
      hide Releasable, Nothing, Ambiguous;
    }
  }

  lemma {:induction false} DistinctLuns(ts: seq<Target>, i: nat)
    requires WithinLimits(ts) && i < |ts|
    ensures DistinctIds(ts[i].luns)
  {}

  lemma {:induction false} BlankName(s: State, name: string)
    requires Blank(name)
    ensures MappingsOf(s, name) == (s, Err(EmptyMappingName))
  {}

  /** What is found when nothing fails. */
  lemma {:induction false} FoundFaultFree(ts: seq<Target>, name: string)
    requires DistinctNames(ts) && !Blank(name)
    ensures var r := MappingsOf(State(ts, []), name).1;
      && r.Ok?
      && (Nothing(ts, name) ==> r.value == [])
      && (Ambiguous(ts, name) ==> |r.value| > 1)
      && (forall i: nat, a: nat | Releasable(ts, name, i, a) ::
            i < |ts| && a < |ts[i].luns| && r.value == [Place(ts[i].name, ts[i].luns[a])])
  {
    hide Blank, Qualified, VolumePart, FindMappings, SlashPosition, DistinctNames, Carries;
    NameParses(name);
    MirrorsItself(ts);
    var none := State(ts, []);
    NothingFails(ts);
    var (pool, volume) := PoolAndVolume(name).value;
    if Nothing(ts, name) {
      if Qualified(name) {
        FindNone(none, ts, name, pool, volume);
      } else {
        BareNothing(ts, name);
      }
    }
    if !Qualified(name) { FindBare(none, ts, name, volume, []); }
    if Ambiguous(ts, name) { BareSeveral(ts, name); }
    forall i: nat, a: nat | Releasable(ts, name, i, a)
      ensures MappingsOf(none, name).1 == Ok([Place(ts[i].name, ts[i].luns[a])])
    {
      if Qualified(name) {
        FindFirst(none, ts, name, pool, volume, i, a);
      } else {
        BareOnly(ts, name, i, a);
        assert [] + AllNamed(ts, volume) == AllNamed(ts, volume);
      }
    }
    OneOutcome(ts, name);
  }
}
