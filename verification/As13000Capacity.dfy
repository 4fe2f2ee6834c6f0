/** The exact capacity law of the AS13000 allocator: how many targets n fresh volumes take, what each
    target carries, and after how many volumes the allocator refuses. */
module As13000Capacity {
  import opened Wrappers
  import opened TargetArray
  import opened As13000
  import opened As13000Bounds
  import opened As13000Outcome

  /** 63 full targets and one LUN on the 64th: with 64 targets the allocator refuses before it looks
      for room on the last one. */
  const CAPACITY := 63 * MAX_LUN_NUM_PER_TARGET + 1

  function TargetCount(n: nat): nat {
    if n <= 32 then n else if n <= 2048 then 32 else (n + 63) / 64
  }

  /** LUNs on the target created i-th, once n volumes are mapped. */
  function Load(n: nat, i: nat): int {
    if n <= 2048 then (n + 31 - i) / 32
    else if i + 1 < TargetCount(n) then 64
    else n - 64 * (TargetCount(n) - 1)
  }

  predicate HasShape(ts: seq<Target>, n: nat) {
    && |ts| == TargetCount(n)
    && forall i | 0 <= i < |ts| :: IsK8s(ts[i].name) && |ts[i].luns| == Load(n, i)
  }

  /** The law in plain words: the number of targets; loads at most one apart up to 2048 volumes;
      beyond that every target but the newest full, and the newest holding the rest. */
  lemma {:induction false} ShapeInWords(ts: seq<Target>, n: nat)
    requires HasShape(ts, n) && n <= CAPACITY
    ensures n <= 32 ==> |ts| == n && forall t | t in ts :: |t.luns| == 1
    ensures 32 <= n <= 2048 ==> |ts| == 32
    ensures 32 <= n <= 2048 ==> forall t, u | t in ts && u in ts :: |t.luns| <= |u.luns| + 1
    ensures n > 2048 ==> |ts| == (n + 63) / 64 && 1 <= |ts[|ts| - 1].luns| <= 64
    ensures n > 2048 ==> forall i | 0 <= i < |ts| - 1 :: |ts[i].luns| == 64
    ensures |ts| <= MAX_TARGET_NUM
    ensures |ts| == MAX_TARGET_NUM <==> n == CAPACITY
  {}

  lemma {:induction false} AllCounted(ts: seq<Target>)
    requires forall t | t in ts :: IsK8s(t.name)
    ensures K8sCount(ts) == |ts|
  {
    if ts != [] { AllCounted(ts[1..]); }
  }

  lemma {:induction false} ShapeDecides(ts: seq<Target>, n: nat)
    requires HasShape(ts, n) && n < CAPACITY
    ensures MustCreate(ts) <==> n < 32 || (n >= 2048 && n % 64 == 0)
  {
    AllCounted(ts);
    if n >= 32 {
      if 32 <= n < 2048 {
        assert |ts[31].luns| == n / 32 && ts[31] in ts;
      } else if n > 2048 {
        var last := ts[|ts| - 1];
        assert last in ts && |last.luns| == n - 64 * (|ts| - 1);
      }
      if n >= 2048 && n % 64 == 0 {
        forall t | t in ts ensures |t.luns| >= 64 {
          var i :| 0 <= i < |ts| && ts[i] == t;
        }
      }
    }
  }

  lemma {:induction false} GrowsByTarget(ts: seq<Target>, n: nat, name: string, lvm: string, iqn: string)
    requires HasShape(ts, n) && n < CAPACITY && (n < 32 || (n >= 2048 && n % 64 == 0)) && IsK8s(name)
    ensures HasShape(Placed(WithNew(ts, name), |ts|, lvm, iqn), n + 1)
  {}

  lemma {:induction false} LoadInWords(n: nat, i: nat)
    requires 32 <= n <= 2048 && i < 32
    ensures Load(n, i) == n / 32 + if i < n % 32 then 1 else 0
  {
    var q, r := n / 32, n % 32;
    assert n + 31 - i == 32 * q + (r + 31 - i);
  }

  lemma {:induction false} GrowsByLun(ts: seq<Target>, n: nat, p: nat, lvm: string, iqn: string)
    requires HasShape(ts, n) && n < CAPACITY && n >= 32 && !(n >= 2048 && n % 64 == 0)
    requires LeastLoadedVacancy(ts, p)
    ensures HasShape(Placed(ts, p, lvm, iqn), n + 1)
  {
    if n < 2048 {
      LoadInWords(n, p);
      LoadInWords(n, 31);
      LoadInWords(n, n % 32);
      assert ts[31] in ts;
      assert p == n % 32;
    } else {
      assert p == |ts| - 1;
    }
  }

  /* ---- runs of attaches of new volumes ---- */

  predicate IsAttach(call: Call) { call.AttachCall? && call.pool.Some? }

  function VolumeOf(call: Call): string
    requires IsAttach(call)
  {
    MappingName(call.pool.value, call.volume)
  }

  predicate NewVolumes(calls: seq<Call>) {
    && (forall i | 0 <= i < |calls| :: IsAttach(calls[i]))
    && (forall i, j | 0 <= i < j < |calls| :: VolumeOf(calls[i]) != VolumeOf(calls[j]))
  }

  lemma {:induction false} RunSnoc(s: State, calls: seq<Call>, call: Call)
    ensures Run(s, calls + [call]) == Step(Run(s, calls), call)
    decreases |calls|
  {
    if calls == [] {
      assert [call][1..] == [];
    } else {
      assert (calls + [call])[1..] == calls[1..] + [call];
      RunSnoc(Step(s, calls[0]), calls[1..], call);
    }
  }

  ghost predicate AttachedIn(calls: seq<Call>, lvm: string)
    requires NewVolumes(calls)
  {
    exists k | 0 <= k < |calls| :: VolumeOf(calls[k]) == lvm
  }

  /** Only volumes attached so far are mapped. */
  ghost predicate MapsOnly(ts: seq<Target>, calls: seq<Call>)
    requires NewVolumes(calls)
  {
    forall i, a | 0 <= i < |ts| && 0 <= a < |ts[i].luns| :: AttachedIn(calls, ts[i].luns[a].lvm)
  }

  lemma {:induction false} StillAttached(calls: seq<Call>, call: Call, lvm: string)
    requires NewVolumes(calls + [call]) && NewVolumes(calls)
    requires AttachedIn(calls, lvm) || (IsAttach(call) && lvm == VolumeOf(call))
    ensures AttachedIn(calls + [call], lvm)
  {
    var all := calls + [call];
    if AttachedIn(calls, lvm) {
      var k :| 0 <= k < |calls| && VolumeOf(calls[k]) == lvm;
      assert VolumeOf(all[k]) == lvm;
    } else {
      assert VolumeOf(all[|calls|]) == lvm;
    }
  }

  ghost predicate AfterAttaches(s: State, calls: seq<Call>)
    requires NewVolumes(calls)
  {
    var n := if |calls| < CAPACITY then |calls| else CAPACITY;
    && s.faults == []
    && WithinLimits(s.targets)
    && HasShape(s.targets, n)
    && SuffixesUpTo(s.targets, n)
    && MapsOnly(s.targets, calls)
  }

  lemma {:induction false} NewVolumeUnmapped(ts: seq<Target>, calls: seq<Call>, call: Call)
    requires NewVolumes(calls + [call])
    requires NewVolumes(calls) && MapsOnly(ts, calls)
    ensures IsAttach(call) && !K8sMapped(ts, VolumeOf(call))
  {
    assert (calls + [call])[|calls|] == call;
    forall i: nat, a: nat | i < |ts| && a < |ts[i].luns| ensures ts[i].luns[a].lvm != VolumeOf(call) {
      assert AttachedIn(calls, ts[i].luns[a].lvm);
      var k :| 0 <= k < |calls| && VolumeOf(calls[k]) == ts[i].luns[a].lvm;
      assert (calls + [call])[k] == calls[k];
    }
  }

  lemma {:induction false} PlacedMapsOnly(ts: seq<Target>, p: nat, calls: seq<Call>, call: Call, iqn: string)
    requires NewVolumes(calls + [call]) && NewVolumes(calls) && MapsOnly(ts, calls) && p < |ts|
    requires IsAttach(call)
    ensures MapsOnly(Placed(ts, p, VolumeOf(call), iqn), calls + [call])
  {
    var after := Placed(ts, p, VolumeOf(call), iqn);
    forall i, a | 0 <= i < |after| && 0 <= a < |after[i].luns|
      ensures AttachedIn(calls + [call], after[i].luns[a].lvm)
    {
      if i != p || a != |ts[p].luns| { assert after[i].luns[a] == ts[i].luns[a]; }
      StillAttached(calls, call, after[i].luns[a].lvm);
    }
  }

  lemma {:induction false} StillMapsOnly(ts: seq<Target>, calls: seq<Call>, call: Call)
    requires NewVolumes(calls + [call]) && NewVolumes(calls) && MapsOnly(ts, calls)
    ensures MapsOnly(ts, calls + [call])
  {
    forall i, a | 0 <= i < |ts| && 0 <= a < |ts[i].luns|
      ensures AttachedIn(calls + [call], ts[i].luns[a].lvm)
    {
      StillAttached(calls, call, ts[i].luns[a].lvm);
    }
  }

  lemma {:induction false} GrownShape(ts: seq<Target>, n: nat, lvm: string, iqn: string, after: seq<Target>)
    requires n < CAPACITY && HasShape(ts, n) && NewlyAttached(ts, lvm, iqn, after)
    ensures HasShape(after, n + 1)
  {
    hide HasShape, Placed, DistinctNames;
    ShapeDecides(ts, n);
    if MustCreate(ts) {
      var name :| IsK8s(name) && after == Placed(WithNew(ts, name), |ts|, lvm, iqn);
      GrowsByTarget(ts, n, name, lvm, iqn);
    } else {
      var p: nat :| LeastLoadedVacancy(ts, p) && after == Placed(ts, p, lvm, iqn);
      GrowsByLun(ts, n, p, lvm, iqn);
    }
  }

  lemma {:induction false} GrownMapsOnly(ts: seq<Target>, calls: seq<Call>, call: Call, after: seq<Target>)
    requires NewVolumes(calls + [call]) && NewVolumes(calls) && IsAttach(call) && MapsOnly(ts, calls)
    requires NewlyAttached(ts, VolumeOf(call), call.iqn, after)
    ensures MapsOnly(after, calls + [call])
  {
    hide AttachedIn, Placed, DistinctNames, MustCreate;
    if MustCreate(ts) {
      var name :| IsK8s(name) && after == Placed(WithNew(ts, name), |ts|, VolumeOf(call), call.iqn);
      assert MapsOnly(WithNew(ts, name), calls);
      PlacedMapsOnly(WithNew(ts, name), |ts|, calls, call, call.iqn);
    } else {
      var p: nat :| LeastLoadedVacancy(ts, p) && after == Placed(ts, p, VolumeOf(call), call.iqn);
      PlacedMapsOnly(ts, p, calls, call, call.iqn);
    }
  }

  lemma {:induction false} ShapeFillsArray(ts: seq<Target>, n: nat)
    requires HasShape(ts, n) && n <= CAPACITY
    ensures |ts| <= MAX_TARGET_NUM
    ensures |ts| == MAX_TARGET_NUM <==> n == CAPACITY
  {
    ShapeInWords(ts, n);
  }

  lemma {:induction false} SuffixBound(ts: seq<Target>, n: nat)
    requires SuffixesUpTo(ts, n)
    ensures LargestSuffix(ts, 0) <= n
  {}

  lemma {:induction false} SuffixesRise(ts: seq<Target>, low: int, high: int)
    requires SuffixesUpTo(ts, low) && low <= high
    ensures SuffixesUpTo(ts, high)
  {}

  lemma {:induction false} AttachOneMore(s: State, calls: seq<Call>, call: Call)
    requires NewVolumes(calls + [call]) && NewVolumes(calls) && AfterAttaches(s, calls)
    ensures IsAttach(call)
    ensures var (after, r) := Attach(s, call.pool, call.volume, call.iqn);
      && AfterAttaches(after, calls + [call])
      && (if |calls| < CAPACITY then r.Ok? else r == Err(TargetsExhausted) && after == s)
  {
    hide Attach, WithinLimits, HasShape, MapsOnly, NewVolumes, K8sMapped, NewlyAttached, SuffixesUpTo, LargestSuffix;
    hide MappingName;
    var ts, n := s.targets, if |calls| < CAPACITY then |calls| else CAPACITY;
    NewVolumeUnmapped(ts, calls, call);
    ShapeFillsArray(ts, n);
    SuffixBound(ts, n);
    AttachUnmapped(s, call.pool.value, call.volume, call.iqn);
    if n < CAPACITY {
      AttachKeeps(s, call.pool, call.volume, call.iqn);
      var after := Attach(s, call.pool, call.volume, call.iqn).0.targets;
      GrownShape(ts, n, VolumeOf(call), call.iqn, after);
      GrownMapsOnly(ts, calls, call, after);
      SuffixesRise(after, LargestSuffix(ts, 0) + 1, n + 1);
    } else {
      StillMapsOnly(ts, calls, call);
    }
  }

  lemma {:induction false} AttachRun(s: State, calls: seq<Call>)
    requires s == State([], []) && NewVolumes(calls)
    ensures AfterAttaches(Run(s, calls), calls)
    decreases |calls|
  {
    if calls != [] {
      var last := |calls| - 1;
      assert calls == calls[..last] + [calls[last]];
      AttachRun(s, calls[..last]);
      RunSnoc(s, calls[..last], calls[last]);
      AttachOneMore(Run(s, calls[..last]), calls[..last], calls[last]);
    }
  }

  /** The capacity law: from an array with no targets, fault-free attaches of distinct new volumes
      give exactly this shape, and the k-th attach succeeds iff it is among the first 4033. */
  lemma {:induction false} CapacityLaw(s: State, calls: seq<Call>)
    requires s == State([], []) && NewVolumes(calls)
    ensures HasShape(Run(s, calls).targets, if |calls| < CAPACITY then |calls| else CAPACITY)
    ensures forall k | 0 <= k < |calls| ::
      Attach(Run(s, calls[..k]), calls[k].pool, calls[k].volume, calls[k].iqn).1.Ok? <==> k < 4033
  {
    hide Attach, Run, HasShape, AfterAttaches;
    AttachRun(s, calls);
    RunHasShape(Run(s, calls), calls);
    forall k | 0 <= k < |calls|
      ensures Attach(Run(s, calls[..k]), calls[k].pool, calls[k].volume, calls[k].iqn).1.Ok? <==> k < 4033
    {
      NthAttach(s, calls, k);
    }
  }

  lemma {:induction false} RunHasShape(s: State, calls: seq<Call>)
    requires NewVolumes(calls) && AfterAttaches(s, calls)
    ensures HasShape(s.targets, if |calls| < CAPACITY then |calls| else CAPACITY)
  {}

  lemma {:induction false} NthAttach(s: State, calls: seq<Call>, k: nat)
    requires s == State([], []) && NewVolumes(calls) && k < |calls|
    ensures Attach(Run(s, calls[..k]), calls[k].pool, calls[k].volume, calls[k].iqn).1.Ok? <==> k < 4033
  {
    hide Attach, Run, AfterAttaches;
    assert NewVolumes(calls[..k + 1]) && calls[..k + 1] == calls[..k] + [calls[k]];
    AttachRun(s, calls[..k]);
    AttachOneMore(Run(s, calls[..k]), calls[..k], calls[k]);
  }
}
