/** Reference counting on AS13000: over every fault-free run of attaches and detaches the targets,
    LUNs and IQN lists implement a plain set of (volume, IQN) pairs. */
module As13000RefCount {
  import opened Wrappers
  import opened Text
  import opened TargetArray
  import opened As13000
  import opened As13000Bounds
  import opened As13000Outcome
  import opened As13000Detach

  /** Who holds which volume, a volume being named 'pool/volume'. */
  type Held = set<(string, string)>

  predicate NoDuplicates(parts: seq<string>) {
    forall i, j | 0 <= i < j < |parts| :: parts[i] != parts[j]
  }

  /** The LUN lists exactly the IQNs that hold its volume. */
  ghost predicate BoundExactly(lun: Lun, held: Held) {
    var parts := Split(lun.iqnPort, ',');
    && NoDuplicates(parts)
    && "ALL" !in parts
    && (forall q :: q in parts <==> (lun.lvm, q) in held)
  }

  ghost predicate LunsExact(ts: seq<Target>, held: Held, scope: iset<string>) {
    forall i, a | 0 <= i < |ts| && 0 <= a < |ts[i].luns| ::
      if IsK8s(ts[i].name) then ts[i].luns[a].lvm in scope && BoundExactly(ts[i].luns[a], held)
      else ts[i].luns[a].lvm !in scope
  }

  ghost predicate HeldAreMapped(ts: seq<Target>, held: Held) {
    forall h | h in held :: K8sMapped(ts, h.0)
  }

  predicate NoEmptyK8sTarget(ts: seq<Target>) {
    forall i | 0 <= i < |ts| && IsK8s(ts[i].name) :: ts[i].luns != []
  }

  /** The targets implement `held`; `scope` names the volumes the driver is in charge of. */
  ghost predicate Refines(ts: seq<Target>, held: Held, scope: iset<string>) {
    WithinLimits(ts) && LunsExact(ts, held, scope) && HeldAreMapped(ts, held) && NoEmptyK8sTarget(ts)
  }

  /** What the refinement means for a reader of the array: a volume is mapped iff some IQN holds it,
      and its LUN lists precisely the IQNs that do. */
  lemma {:induction false} MappedIffHeld(ts: seq<Target>, held: Held, scope: iset<string>, lvm: string)
    requires Refines(ts, held, scope)
    ensures K8sMapped(ts, lvm) <==> exists q :: (lvm, q) in held
    ensures forall i: nat, a: nat, q | K8sMapsAt(ts, i, a, lvm) ::
      q in Split(ts[i].luns[a].iqnPort, ',') <==> (lvm, q) in held
  {
    if q :| (lvm, q) in held { assert K8sMapped(ts, (lvm, q).0); }
    if K8sMapped(ts, lvm) {
      var i: nat, a: nat :| K8sMapsAt(ts, i, a, lvm);
      assert BoundExactly(ts[i].luns[a], held);
      assert Split(ts[i].luns[a].iqnPort, ',')[0] in Split(ts[i].luns[a].iqnPort, ',');
    }
  }

  /** A state without k8s targets, where nobody else maps the volumes in scope, holds nothing. */
  lemma {:induction false} InitiallyNothingHeld(ts: seq<Target>, scope: iset<string>)
    requires WithinLimits(ts)
    requires forall t | t in ts :: !IsK8s(t.name) && forall l | l in t.luns :: l.lvm !in scope
    ensures Refines(ts, {}, scope) && SuffixesUpTo(ts, 0)
  {
    forall i, a | 0 <= i < |ts| && 0 <= a < |ts[i].luns|
      ensures !IsK8s(ts[i].name) && ts[i].luns[a].lvm !in scope
    {
      assert ts[i] in ts && ts[i].luns[a] in ts[i].luns;
    }
    forall i | 0 <= i < |ts| ensures !IsK8s(ts[i].name) { assert ts[i] in ts; }
  }

  /* ---- removing one IQN from a list ---- */

  lemma {:induction false} WithoutFacts(parts: seq<string>, piece: string)
    requires NoDuplicates(parts)
    ensures var left := Without(parts, piece);
      && NoDuplicates(left)
      && (forall q :: q in left <==> q in parts && q != piece)
      && |left| >= |parts| - 1
      && (piece !in parts ==> left == parts)
  {
    if parts != [] {
      WithoutFacts(parts[1..], piece);
      assert forall q :: q in parts <==> q == parts[0] || q in parts[1..];
      assert forall j | 1 <= j < |parts| :: parts[1..][j - 1] == parts[j];
      assert parts[0] !in parts[1..];
    }
  }

  lemma {:induction false} UnboundPort(port: string, iqn: string)
    requires NoDuplicates(Split(port, ',')) && |Split(port, ',')| > 1
    ensures Split(UnbindPort(port, iqn), ',') == Without(Split(port, ','), iqn)
  {
    var parts := Split(port, ',');
    WithoutFacts(parts, iqn);
    assert Free(Without(parts, iqn), ',');
    SplitOfJoin(Without(parts, iqn), ',');
  }

  /* ---- each outcome refines the matching change of `held` ---- */

  lemma {:induction false} OtherVolumes(ts: seq<Target>, i: nat, a: nat, lvm: string, j: nat, b: nat)
    requires MappedOnce(ts) && K8sMapsAt(ts, i, a, lvm)
    requires j < |ts| && b < |ts[j].luns| && IsK8s(ts[j].name) && (j != i || b != a)
    ensures ts[j].luns[b].lvm != lvm
  {
    if ts[j].luns[b].lvm == lvm { assert K8sMapsAt(ts, j, b, lvm); }
  }

  /** Only the IQN list of one LUN changes, and `held` changes with it. */
  lemma {:induction false} PortChangeRefines(ts: seq<Target>, held: Held, scope: iset<string>, i: nat, a: nat,
                                             lvm: string, port: string, held': Held)
    requires Refines(ts, held, scope) && K8sMapsAt(ts, i, a, lvm)
    requires WithinLimits(WithPort(ts, i, a, port))
    requires BoundExactly(Lun(0, lvm, port), held')
    requires forall h: (string, string) | h.0 != lvm :: h in held <==> h in held'
    ensures Refines(WithPort(ts, i, a, port), held', scope)
  {
    var after := WithPort(ts, i, a, port);
    forall j, b | 0 <= j < |after| && 0 <= b < |after[j].luns|
      ensures if IsK8s(after[j].name) then after[j].luns[b].lvm in scope && BoundExactly(after[j].luns[b], held')
              else after[j].luns[b].lvm !in scope
    {
      assert after[j].name == ts[j].name && after[j].luns[b].lvm == ts[j].luns[b].lvm;
      if IsK8s(ts[j].name) && (j != i || b != a) {
        OtherVolumes(ts, i, a, lvm, j, b);
        assert BoundExactly(ts[j].luns[b], held);
      }
    }
    forall h | h in held' ensures K8sMapped(after, h.0) {
      if h.0 == lvm {
        assert K8sMapsAt(after, i, a, lvm);
      } else {
        assert K8sMapped(ts, h.0);
        var j: nat, b: nat :| K8sMapsAt(ts, j, b, h.0);
        assert K8sMapsAt(after, j, b, h.0);
      }
    }
  }

  /** A LUN with one holder is added to the target at `p`, which may just have been created. */
  lemma {:induction false} PlacementRefines(ts: seq<Target>, held: Held, scope: iset<string>, p: nat, lvm: string,
                                            iqn: string)
    requires p < |ts| && IsK8s(ts[p].name) && WithinLimits(Placed(ts, p, lvm, iqn))
    requires LunsExact(ts, held, scope) && HeldAreMapped(ts, held)
    requires forall i | 0 <= i < |ts| && IsK8s(ts[i].name) && i != p :: ts[i].luns != []
    requires lvm in scope && !K8sMapped(ts, lvm) && ',' !in iqn && iqn != "ALL"
    ensures Refines(Placed(ts, p, lvm, iqn), held + {(lvm, iqn)}, scope)
  {
    var after, held' := Placed(ts, p, lvm, iqn), held + {(lvm, iqn)};
    var last := |ts[p].luns|;
    SplitPlain(iqn, ',');
    forall h | h in held ensures h.0 != lvm { assert K8sMapped(ts, h.0); }
    forall j, b | 0 <= j < |after| && 0 <= b < |after[j].luns|
      ensures if IsK8s(after[j].name) then after[j].luns[b].lvm in scope && BoundExactly(after[j].luns[b], held')
              else after[j].luns[b].lvm !in scope
    {
      if j == p && b == last {
        assert BoundExactly(after[j].luns[b], held');
      } else {
        assert after[j].name == ts[j].name && after[j].luns[b] == ts[j].luns[b];
        if IsK8s(ts[j].name) {
          assert BoundExactly(ts[j].luns[b], held);
          assert K8sMapsAt(ts, j, b, ts[j].luns[b].lvm);
        }
      }
    }
    forall h | h in held' ensures K8sMapped(after, h.0) {
      if h in held {
        assert K8sMapped(ts, h.0);
        var j: nat, b: nat :| K8sMapsAt(ts, j, b, h.0);
        assert K8sMapsAt(after, j, b, h.0);
      } else {
        assert K8sMapsAt(after, p, last, lvm);
      }
    }
  }

  /** Where the LUN at (j, b) is found once the one at (i, a) is gone. */
  function Shifted(ts: seq<Target>, i: nat, a: nat, j: nat, b: nat): (nat, nat)
    requires i < |ts|
  {
    if |ts[i].luns| == 1 then (if j > i then j - 1 else j, b)
    else (j, if j == i && b > a then b - 1 else b)
  }

  lemma {:induction false} RemovalExact(ts: seq<Target>, held: Held, scope: iset<string>, i: nat, a: nat, lvm: string,
                                        iqn: string)
    requires Refines(ts, held, scope) && K8sMapsAt(ts, i, a, lvm) && Split(ts[i].luns[a].iqnPort, ',') == [iqn]
    ensures LunsExact(WithoutLun(ts, i, a), held - {(lvm, iqn)}, scope)
  {
    hide IsK8s, DistinctNames, DistinctIds, NoDuplicates, Split, HeldAreMapped, NoEmptyK8sTarget;
    var after, held' := WithoutLun(ts, i, a), held - {(lvm, iqn)};
    assert BoundExactly(ts[i].luns[a], held);
    forall j, b | 0 <= j < |after| && 0 <= b < |after[j].luns|
      ensures if IsK8s(after[j].name) then after[j].luns[b].lvm in scope && BoundExactly(after[j].luns[b], held')
              else after[j].luns[b].lvm !in scope
    {
      var j' := if |ts[i].luns| == 1 && j >= i then j + 1 else j;
      var b' := if |ts[i].luns| != 1 && j == i && b >= a then b + 1 else b;
      assert after[j].name == ts[j'].name && after[j].luns[b] == ts[j'].luns[b'];
      if IsK8s(ts[j'].name) {
        OtherVolumes(ts, i, a, lvm, j', b');
        assert BoundExactly(ts[j'].luns[b'], held);
      }
    }
  }

  lemma {:induction false} RemovalMapped(ts: seq<Target>, held: Held, scope: iset<string>, i: nat, a: nat, lvm: string,
                                         iqn: string)
    requires Refines(ts, held, scope) && K8sMapsAt(ts, i, a, lvm) && Split(ts[i].luns[a].iqnPort, ',') == [iqn]
    ensures HeldAreMapped(WithoutLun(ts, i, a), held - {(lvm, iqn)})
  {
    hide IsK8s, DistinctNames, DistinctIds, NoDuplicates, Split, NoEmptyK8sTarget, WithinLimits;
    var after, held' := WithoutLun(ts, i, a), held - {(lvm, iqn)};
    assert BoundExactly(ts[i].luns[a], held);
    forall h | h in held' ensures K8sMapped(after, h.0) {
      assert h.0 != lvm by { assert h.0 == lvm ==> h.1 in [iqn]; }
      assert K8sMapped(ts, h.0);
      var j: nat, b: nat :| K8sMapsAt(ts, j, b, h.0);
      var moved := Shifted(ts, i, a, j, b);
      assert K8sMapsAt(after, moved.0, moved.1, h.0);
    }
  }

  lemma {:induction false} RemovalRefines(ts: seq<Target>, held: Held, scope: iset<string>, i: nat, a: nat, lvm: string,
                                          iqn: string)
    requires Refines(ts, held, scope) && K8sMapsAt(ts, i, a, lvm)
    requires WithinLimits(WithoutLun(ts, i, a)) && Split(ts[i].luns[a].iqnPort, ',') == [iqn]
    ensures Refines(WithoutLun(ts, i, a), held - {(lvm, iqn)}, scope)
  {
    hide IsK8s, WithinLimits, LunsExact, HeldAreMapped, Split;
    RemovalExact(ts, held, scope, i, a, lvm, iqn);
    RemovalMapped(ts, held, scope, i, a, lvm, iqn);
    var after := WithoutLun(ts, i, a);
    forall j | 0 <= j < |after| && IsK8s(after[j].name) ensures after[j].luns != [] {
      assert |ts[i].luns| == 1 ==> after[j] == ts[if j >= i then j + 1 else j];
    }
  }

  /* ---- one call ---- */

  predicate GoodIqn(iqn: string) { ',' !in iqn && iqn != "ALL" }

  /** Every mapping that could answer to the name is of a volume in scope. */
  ghost predicate InScope(name: string, scope: iset<string>) {
    if Qualified(name) then name in scope else forall lvm | Carries(lvm, VolumePart(name)) :: lvm in scope
  }

  ghost predicate GoodCall(call: Call, scope: iset<string>) {
    match call
    case AttachCall(None, _, _) => true
    case AttachCall(Some(pool), volume, iqn) => MappingName(pool, volume) in scope && GoodIqn(iqn)
    case DetachCall(name, _) => Blank(name) || InScope(name, scope)
  }

  /** `lvm` is held, and answers to the name. */
  ghost predicate HeldBy(held: Held, name: string, lvm: string) {
    && (exists q :: (lvm, q) in held)
    && (if Qualified(name) then lvm == name else Carries(lvm, VolumePart(name)))
  }

  ghost predicate OnlyHeldBy(held: Held, name: string, lvm: string) {
    HeldBy(held, name, lvm) && forall other | HeldBy(held, name, other) :: other == lvm
  }

  /** Two held volumes of different pools answer to a bare name. */
  ghost predicate SeveralHeld(held: Held, name: string) {
    exists one, other :: HeldBy(held, name, one) && HeldBy(held, name, other) && one != other
  }

  /** The plain set the array stands for: an attach adds its pair unless the volume is unmapped and
      every target is in use; a detach removes the pair of the one volume that answers to its name, and
      nothing when none does, or several do. */
  ghost function HeldAfter(held: Held, ts: seq<Target>, call: Call): Held {
    match call
    case AttachCall(None, _, _) => held
    case AttachCall(Some(pool), volume, iqn) =>
      var lvm := MappingName(pool, volume);
      if |ts| >= MAX_TARGET_NUM && !exists q :: (lvm, q) in held then held else held + {(lvm, iqn)}
    case DetachCall(name, iqn) => HeldDetached(held, name, iqn)
  }

  ghost function HeldDetached(held: Held, name: string, iqn: string): Held {
    if Blank(name) || !exists lvm :: OnlyHeldBy(held, name, lvm) then held
    else
      var lvm :| OnlyHeldBy(held, name, lvm);
      held - {(lvm, iqn)}
  }

  lemma {:induction false} AttachRefines(s: State, held: Held, scope: iset<string>, pool: string, volume: string,
                                         iqn: string)
    requires s.faults == [] && Refines(s.targets, held, scope) && LargestSuffix(s.targets, 0) < MAX_INT64
    requires GoodCall(AttachCall(Some(pool), volume, iqn), scope)
    ensures var (after, r) := Attach(s, Some(pool), volume, iqn);
      && after.faults == []
      && Refines(after.targets, HeldAfter(held, s.targets, AttachCall(Some(pool), volume, iqn)), scope)
      && (r.Ok? <==> |s.targets| < MAX_TARGET_NUM || exists q :: (MappingName(pool, volume), q) in held)
  {
    hide Attach, Refines, LargestSuffix, MappingName, Split, BindPort, IsK8s, WithinLimits, SuffixesUpTo;
    RefinesLimits(s.targets, held, scope);
    var lvm, ts := MappingName(pool, volume), s.targets;
    MappedIffHeld(ts, held, scope, lvm);
    AttachKeeps(s, Some(pool), volume, iqn);
    if K8sMapped(ts, lvm) {
      var i: nat, a: nat :| K8sMapsAt(ts, i, a, lvm);
      AttachMapped(s, pool, volume, iqn, i, a);
      BindingRefines(ts, held, scope, i, a, lvm, iqn);
    } else {
      AttachUnmapped(s, pool, volume, iqn);
      if |ts| < MAX_TARGET_NUM {
        NewLunRefines(ts, held, scope, lvm, iqn, Attach(s, Some(pool), volume, iqn).0.targets);
      }
    }
  }

  lemma {:induction false} BindingRefines(ts: seq<Target>, held: Held, scope: iset<string>, i: nat, a: nat, lvm: string,
                                          iqn: string)
    requires Refines(ts, held, scope) && K8sMapsAt(ts, i, a, lvm) && GoodIqn(iqn)
    ensures var port := ts[i].luns[a].iqnPort;
      var after := if iqn in Split(port, ',') then ts else WithPort(ts, i, a, BindPort(port, iqn));
      WithinLimits(after) ==> Refines(after, held + {(lvm, iqn)}, scope)
  {
    var port := ts[i].luns[a].iqnPort;
    assert BoundExactly(ts[i].luns[a], held);
    if iqn in Split(port, ',') {
      assert held + {(lvm, iqn)} == held;
    } else if WithinLimits(WithPort(ts, i, a, BindPort(port, iqn))) {
      SplitPlain("ALL", ',');
      assert BindPort(port, iqn) == port + "," + iqn;
      SplitAppend(port, iqn, ',');
      PortChangeRefines(ts, held, scope, i, a, lvm, port + "," + iqn, held + {(lvm, iqn)});
    }
  }

  lemma {:induction false} NewLunRefines(ts: seq<Target>, held: Held, scope: iset<string>, lvm: string, iqn: string,
                                         after: seq<Target>)
    requires Refines(ts, held, scope) && WithinLimits(after)
    requires lvm in scope && !K8sMapped(ts, lvm) && GoodIqn(iqn) && NewlyAttached(ts, lvm, iqn, after)
    ensures Refines(after, held + {(lvm, iqn)}, scope)
  {
    hide WithinLimits, LunsExact, HeldAreMapped;
    if MustCreate(ts) {
      var name :| IsK8s(name) && after == Placed(WithNew(ts, name), |ts|, lvm, iqn);
      NewTargetRefines(ts, held, scope, name, lvm, iqn);
    } else {
      var p: nat :| LeastLoadedVacancy(ts, p) && after == Placed(ts, p, lvm, iqn);
      PlacementRefines(ts, held, scope, p, lvm, iqn);
    }
  }

  lemma {:induction false} NewTargetRefines(ts: seq<Target>, held: Held, scope: iset<string>, name: string, lvm: string,
                                            iqn: string)
    requires Refines(ts, held, scope) && IsK8s(name) && WithinLimits(Placed(WithNew(ts, name), |ts|, lvm, iqn))
    requires lvm in scope && !K8sMapped(ts, lvm) && GoodIqn(iqn)
    ensures Refines(Placed(WithNew(ts, name), |ts|, lvm, iqn), held + {(lvm, iqn)}, scope)
  {
    hide IsK8s, WithinLimits, BoundExactly, Placed;
    var grown := WithNew(ts, name);
    forall h | h in held ensures K8sMapped(grown, h.0) {
      assert K8sMapped(ts, h.0);
      var j: nat, b: nat :| K8sMapsAt(ts, j, b, h.0);
      assert K8sMapsAt(grown, j, b, h.0);
    }
    forall i: nat, a: nat | K8sMapsAt(grown, i, a, lvm) ensures K8sMapsAt(ts, i, a, lvm) {}
    PlacementRefines(grown, held, scope, |ts|, lvm, iqn);
  }

  /** What answers to the name on the targets is what is held and answers to it. */
  lemma {:induction false} AnswersAreHeld(ts: seq<Target>, held: Held, scope: iset<string>, name: string)
    requires Refines(ts, held, scope) && InScope(name, scope)
    ensures forall i: nat, a: nat | AnswersAt(ts, name, i, a) ::
      K8sMapsAt(ts, i, a, ts[i].luns[a].lvm) && HeldBy(held, name, ts[i].luns[a].lvm)
    ensures forall lvm | HeldBy(held, name, lvm) ::
      exists i: nat, a: nat :: AnswersAt(ts, name, i, a) && ts[i].luns[a].lvm == lvm
  {
    hide Qualified, Carries, VolumePart, WithinLimits, BoundExactly, IsK8s;
    forall i: nat, a: nat | AnswersAt(ts, name, i, a)
      ensures K8sMapsAt(ts, i, a, ts[i].luns[a].lvm) && HeldBy(held, name, ts[i].luns[a].lvm)
    {
      assert K8sMapsAt(ts, i, a, ts[i].luns[a].lvm);
      MappedIffHeld(ts, held, scope, ts[i].luns[a].lvm);
    }
    forall lvm | HeldBy(held, name, lvm)
      ensures exists i: nat, a: nat :: AnswersAt(ts, name, i, a) && ts[i].luns[a].lvm == lvm
    {
      MappedIffHeld(ts, held, scope, lvm);
      var i: nat, a: nat :| K8sMapsAt(ts, i, a, lvm);
      assert AnswersAt(ts, name, i, a);
    }
  }

  lemma {:induction false} NothingHeld(ts: seq<Target>, held: Held, scope: iset<string>, name: string)
    requires Refines(ts, held, scope) && InScope(name, scope) && Nothing(ts, name)
    ensures forall lvm :: !HeldBy(held, name, lvm)
  {
    hide Qualified, Carries, VolumePart, Refines, HeldBy, AnswersAt, InScope;
    AnswersAreHeld(ts, held, scope, name);
  }

  lemma {:induction false} OneHeld(ts: seq<Target>, held: Held, scope: iset<string>, name: string, i: nat, a: nat)
    requires Refines(ts, held, scope) && InScope(name, scope) && Releasable(ts, name, i, a)
    ensures K8sMapsAt(ts, i, a, ts[i].luns[a].lvm) && OnlyHeldBy(held, name, ts[i].luns[a].lvm)
  {
    hide Carries, VolumePart, Refines, HeldBy, InScope, IsK8s, Qualified;
    AnswersAreHeld(ts, held, scope, name);
    var lvm := ts[i].luns[a].lvm;
    forall other | HeldBy(held, name, other) ensures other == lvm {
      var j: nat, b: nat :| AnswersAt(ts, name, j, b) && ts[j].luns[b].lvm == other;
    }
  }

  lemma {:induction false} TwoHeld(ts: seq<Target>, held: Held, scope: iset<string>, name: string)
    requires Refines(ts, held, scope) && InScope(name, scope) && Ambiguous(ts, name)
    ensures SeveralHeld(held, name)
  {
    hide Carries, VolumePart, HeldBy, InScope, IsK8s, Qualified, LunsExact, HeldAreMapped, NoEmptyK8sTarget;
    AnswersAreHeld(ts, held, scope, name);
    var i: nat, a: nat, j: nat, b: nat :|
      AnswersAt(ts, name, i, a) && AnswersAt(ts, name, j, b) && (i != j || a != b);
    assert HeldBy(held, name, ts[i].luns[a].lvm) && HeldBy(held, name, ts[j].luns[b].lvm);
    assert K8sMapsAt(ts, i, a, ts[i].luns[a].lvm) && K8sMapsAt(ts, j, b, ts[j].luns[b].lvm);
  }

  lemma {:induction false} ReleaseRefines(ts: seq<Target>, held: Held, scope: iset<string>, i: nat, a: nat,
                                          iqn: string)
    requires Refines(ts, held, scope) && i < |ts| && a < |ts[i].luns| && K8sMapsAt(ts, i, a, ts[i].luns[a].lvm)
    requires WithinLimits(Released(ts, i, a, iqn))
    ensures Refines(Released(ts, i, a, iqn), held - {(ts[i].luns[a].lvm, iqn)}, scope)
    ensures (ts[i].luns[a].lvm, iqn) !in held ==> Released(ts, i, a, iqn) == ts
  {
    hide Split, IsK8s, DistinctNames, DistinctIds, MappedOnce;
    var lvm, port := ts[i].luns[a].lvm, ts[i].luns[a].iqnPort;
    var parts := Split(port, ',');
    assert BoundExactly(ts[i].luns[a], held);
    assert parts[0] in parts;
    if iqn !in parts {
      assert held - {(lvm, iqn)} == held;
    } else if |parts| == 1 {
      RemovalRefines(ts, held, scope, i, a, lvm, iqn);
    } else {
      UnboundPort(port, iqn);
      WithoutFacts(parts, iqn);
      PortChangeRefines(ts, held, scope, i, a, lvm, UnbindPort(port, iqn), held - {(lvm, iqn)});
    }
  }

  lemma {:induction false} LimitsParts(ts: seq<Target>)
    requires WithinLimits(ts)
    ensures DistinctNames(ts) && forall i | 0 <= i < |ts| :: DistinctIds(ts[i].luns)
  {}

  /** A detach by any name: the pair of the one held volume that answers to it is taken out; none, several,
      or a blank name change nothing. */
  lemma {:induction false} DetachRefines(s: State, held: Held, scope: iset<string>, name: string, iqn: string,
                                         bound: int)
    requires s.faults == [] && Refines(s.targets, held, scope) && SuffixesUpTo(s.targets, bound)
    requires GoodCall(DetachCall(name, iqn), scope)
    ensures var (after, r) := Detach(s, name, iqn);
      && after.faults == []
      && Refines(after.targets, HeldDetached(held, name, iqn), scope)
      && (HeldDetached(held, name, iqn) == held ==> after == s)
      && r == (if Blank(name) then Err(EmptyMappingName)
               else if SeveralHeld(held, name) then Err(SeveralMappings) else Ok(()))
  {
    hide Detach, Refines, SuffixesUpTo, Nothing, Ambiguous, Releasable, HeldBy, InScope, Blank, DistinctNames;
    hide DistinctIds, Released, K8sMapsAt;
    var ts := s.targets;
    RefinesLimits(ts, held, scope);
    LimitsParts(ts);
    DetachKeeps(s, name, iqn, bound);
    if Blank(name) {
      DetachRefused(s, name, iqn);
    } else {
      OneOutcome(ts, name);
      if Nothing(ts, name) {
        DetachUnmapped(s, name, iqn);
        NothingHeld(ts, held, scope, name);
      } else if Ambiguous(ts, name) {
        DetachRefused(s, name, iqn);
        TwoHeld(ts, held, scope, name);
      } else {
        var i: nat, a: nat :| Releasable(ts, name, i, a);
        PlaceThere(ts, name, i, a);
        DetachMapped(s, name, iqn, i, a);
        OneHeld(ts, held, scope, name, i, a);
        ReleaseRefines(ts, held, scope, i, a, iqn);
        assert HeldDetached(held, name, iqn) == held - {(ts[i].luns[a].lvm, iqn)};
      }
    }
  }

  lemma {:induction false} RefinesLimits(ts: seq<Target>, held: Held, scope: iset<string>)
    requires Refines(ts, held, scope)
    ensures WithinLimits(ts)
  {}

  lemma {:induction false} PlaceThere(ts: seq<Target>, name: string, i: nat, a: nat)
    requires Releasable(ts, name, i, a)
    ensures i < |ts| && a < |ts[i].luns|
  {}

  /* ---- runs ---- */

  ghost function HeldRun(held: Held, s: State, calls: seq<Call>): Held
    decreases |calls|
  {
    if calls == [] then held
    else HeldRun(HeldAfter(held, s.targets, calls[0]), Step(s, calls[0]), calls[1..])
  }

  /** Reference counting over every fault-free run: the targets at the end implement the set that
      plain additions and removals of pairs give. */
  lemma {:induction false} RefCountRun(s: State, held: Held, scope: iset<string>, calls: seq<Call>, bound: nat)
    requires s.faults == [] && Refines(s.targets, held, scope)
    requires SuffixesUpTo(s.targets, bound) && bound + |calls| <= MAX_INT64
    requires forall c | c in calls :: GoodCall(c, scope)
    ensures Run(s, calls).faults == []
    ensures Refines(Run(s, calls).targets, HeldRun(held, s, calls), scope)
    decreases |calls|
  {
    if calls != [] {
      assert calls[0] in calls;
      assert LargestSuffix(s.targets, 0) <= bound;
      match calls[0] {
        case AttachCall(pool, volume, iqn) =>
          AttachKeeps(s, pool, volume, iqn);
          if pool.Some? { AttachRefines(s, held, scope, pool.value, volume, iqn); }
        case DetachCall(name, iqn) =>
          DetachKeeps(s, name, iqn, bound);
          DetachRefines(s, held, scope, name, iqn, bound);
      }
      RefCountRun(Step(s, calls[0]), HeldAfter(held, s.targets, calls[0]), scope, calls[1..], bound + 1);
    }
  }
}
