/** Every run of extends, with any command failing at any step: either the failure barrier stands, or
    every active-active volume is whole and its four vdisks have grown together. */
module AaRuns {
  import opened Wrappers
  import opened Text
  import opened Sizes
  import opened VdiskArray
  import opened As18000
  import opened AaExtend
  import opened AaScript

  datatype ExtendCall = ExtendCall(volume: string, size: string, env: Env)

  function ExtendRun(d: Driver, calls: seq<ExtendCall>): Driver
    decreases |calls|
  {
    if calls == [] then d
    else ExtendRun(ExtendVolume(d, calls[0].volume, calls[0].size, calls[0].env).0, calls[1..])
  }

  /** All four vdisks of `a` are `total` GiB larger than they were in `before`. */
  predicate GrownBy(before: seq<Vdisk>, now: seq<Vdisk>, a: AaVolume, total: nat) {
    forall name | name in Members(a) ::
      Exists(before, name) && Exists(now, name) && SizeOf(now, name) == SizeOf(before, name) + total * GIB
  }

  ghost predicate GrownTogether(before: seq<Vdisk>, now: seq<Vdisk>, layout: Layout) {
    forall volume | volume in layout :: exists total: nat :: GrownBy(before, now, layout[volume], total)
  }

  /** Whole volumes that have grown together. */
  ghost predicate Whole(before: seq<Vdisk>, s: State, layout: Layout) {
    Healthy(s.vdisks, s.relations, layout) && GrownTogether(before, s.vdisks, layout)
  }

  lemma {:induction false} InitiallyWhole(s: State, layout: Layout)
    requires Healthy(s.vdisks, s.relations, layout)
    ensures Whole(s.vdisks, s, layout)
  {
    hide Healthy, GrownBy, AllFour;
    forall volume | volume in layout ensures GrownBy(s.vdisks, s.vdisks, layout[volume], 0) {
      HealthyParts(s.vdisks, s.relations, layout, volume);
      NotYetGrown(s.vdisks, volume, layout[volume]);
    }
  }

  lemma {:induction false} NotYetGrown(vs: seq<Vdisk>, volume: string, a: AaVolume)
    requires AllFour(vs, volume, a)
    ensures GrownBy(vs, vs, a, 0)
  {
    hide FindVdisk;
  }

  /* ---- extending a basic volume ---- */

  lemma {:induction false} NotAMember(vs: seq<Vdisk>, volume: string, a: AaVolume, v: Vdisk)
    requires AllFour(vs, volume, a) && v in vs && v.volume != volume
    ensures v.name !in Members(a)
  {}

  lemma {:induction false} ForeignVdisk(vs: seq<Vdisk>, rs: seq<Relation>, layout: Layout, v: Vdisk)
    requires Healthy(vs, rs, layout) && v in vs && v.volume !in layout
    ensures FunctionOf(rs, v.name) == Blank
    ensures forall volume | volume in layout :: v.name !in Members(layout[volume])
  {
    hide FunctionOf, DistinctVdisks, Exists;
    forall volume | volume in layout ensures v.name !in Members(layout[volume]) {
      NotAMember(vs, volume, layout[volume], v);
    }
    forall r | r in rs ensures !Mentions(r, v.name) {
      assert IsRelationOf(vs, layout, r);
      var other :| other in layout && Exists(vs, layout[other].master) && r == RelationOf(vs, layout[other]);
      assert v.name !in Members(layout[other]);
    }
    NoRelation(rs, v.name);
  }

  lemma {:induction false} BasicInfos(s: State, layout: Layout, volume: string)
    requires Healthy(s.vdisks, s.relations, layout) && volume !in layout
    requires BuildVolumeInfos(VolumeRows(s, volume)).Ok?
    ensures var infos := BuildVolumeInfos(VolumeRows(s, volume)).value;
      && infos.aux.None?
      && forall other | other in layout :: infos.master.name !in Members(layout[other])
  {
    hide VolumeRows, Healthy;
    var rows := VolumeRows(s, volume);
    AssignFacts(rows);
    var roles := AssignAll(rows);
    forall row | row in rows
      ensures row.part == Blank && forall other | other in layout :: row.name !in Members(layout[other])
    {
      var v := VolumeRow(s, volume, row);
      ForeignVdisk(s.vdisks, s.relations, layout, v);
    }
  }

  lemma {:induction false} UntouchedGrowth(before: seq<Vdisk>, vs: seq<Vdisk>, a: AaVolume, total: nat, name: string,
                                           gib: nat)
    requires GrownBy(before, vs, a, total) && name !in Members(a)
    ensures GrownBy(before, Grow(vs, name, gib), a, total)
  {
    forall member | member in Members(a)
      ensures Exists(Grow(vs, name, gib), member) && SizeOf(Grow(vs, name, gib), member) == SizeOf(vs, member)
    {
      GrowFound(vs, name, gib, member);
    }
  }

  lemma {:induction false} ForeignGrowth(before: seq<Vdisk>, s: State, layout: Layout, name: string, gib: nat)
    requires Whole(before, s, layout) && forall volume | volume in layout :: name !in Members(layout[volume])
    ensures Whole(before, s.(vdisks := Grow(s.vdisks, name, gib)), layout)
  {
    hide Healthy, GrownBy, Grow, Members;
    var after := Grow(s.vdisks, name, gib);
    GrowKeepsRest(s.vdisks, name, gib);
    HealthySurvives(s.vdisks, s.relations, after, s.relations, layout);
    forall volume | volume in layout ensures exists total: nat :: GrownBy(before, after, layout[volume], total) {
      var total: nat :| GrownBy(before, s.vdisks, layout[volume], total);
      UntouchedGrowth(before, s.vdisks, layout[volume], total, name, gib);
    }
  }

  lemma {:induction false} GrowKeepsRest(vs: seq<Vdisk>, name: string, gib: nat)
    ensures SameButSizes(vs, Grow(vs, name, gib))
  {}

  /* ---- extending an active-active volume ---- */

  lemma {:induction false} OwnGrowth(before: seq<Vdisk>, vs: seq<Vdisk>, volume: string, a: AaVolume, total: nat,
                                     addition: nat)
    requires GrownBy(before, vs, a, total) && AllFour(vs, volume, a)
    ensures GrownBy(before, VdisksAfter(vs, a, addition, 9), a, total + addition)
  {
    hide VdisksAfter, SizeOf, AllFour;
    var after := VdisksAfter(vs, a, addition, 9);
    forall member | member in Members(a)
      ensures Exists(after, member) && SizeOf(after, member) == SizeOf(vs, member) + addition * GIB
    {
      SizesAfter(vs, volume, a, addition, 9, member);
    }
    assert (total + addition) * GIB == total * GIB + addition * GIB;
  }

  lemma {:induction false} OthersGrowth(before: seq<Vdisk>, vs: seq<Vdisk>, layout: Layout, volume: string,
                                        other: string, total: nat, addition: nat)
    requires volume in layout && other in layout && volume != other
    requires AllFour(vs, volume, layout[volume]) && AllFour(vs, other, layout[other])
    requires GrownBy(before, vs, layout[other], total)
    ensures GrownBy(before, VdisksAfter(vs, layout[volume], addition, 9), layout[other], total)
  {
    hide VdisksAfter, SizeOf, AllFour;
    var after := VdisksAfter(vs, layout[volume], addition, 9);
    forall member | member in Members(layout[other])
      ensures Exists(after, member) && SizeOf(after, member) == SizeOf(vs, member)
    {
      DisjointMembers(vs, layout, volume, other, member);
      SizesAfter(vs, volume, layout[volume], addition, 9, member);
    }
  }

  lemma {:induction false} ScriptGrowth(before: seq<Vdisk>, s: State, layout: Layout, volume: string, addition: nat)
    requires Whole(before, s, layout) && volume in layout && AllFour(s.vdisks, volume, layout[volume])
    ensures Whole(before, ApplyAll(s, AaScriptOf(s, layout[volume], addition)), layout)
  {
    hide Healthy, VdisksAfter, ApplyAll, AaScriptOf, AllFour, GrownBy;
    var vs, after := s.vdisks, VdisksAfter(s.vdisks, layout[volume], addition, 9);
    ScriptRestores(s, layout, volume, addition);
    forall other | other in layout ensures exists total: nat :: GrownBy(before, after, layout[other], total) {
      var total: nat :| GrownBy(before, vs, layout[other], total);
      HealthyParts(vs, s.relations, layout, other);
      if other == volume {
        OwnGrowth(before, vs, volume, layout[volume], total, addition);
      } else {
        OthersGrowth(before, vs, layout, volume, other, total, addition);
      }
    }
  }

  lemma {:induction false} DisjointMembers(vs: seq<Vdisk>, layout: Layout, volume: string, other: string, name: string)
    requires volume in layout && other in layout && volume != other
    requires AllFour(vs, volume, layout[volume]) && AllFour(vs, other, layout[other])
    requires name in Members(layout[other])
    ensures name !in Members(layout[volume])
  {
    if name in Members(layout[volume]) {
      MemberVolume(vs, layout, volume, name);
      MemberVolume(vs, layout, other, name);
    }
  }

  /** Growing the volume once the pre-check has passed: the barrier goes up, or all stays whole. */
  lemma {:induction false} GrownIsWhole(before: seq<Vdisk>, d: Driver, layout: Layout, volume: string, addition: nat)
    requires Whole(before, d.store, layout) && d.writable && volume in layout
    requires AllFour(d.store.vdisks, volume, layout[volume])
    ensures var after := Grown(d, InfosOf(d.store, layout[volume]), addition).0;
      after.writable && (after.barrier || Whole(before, after.store, layout))
  {
    hide Whole, ApplyAll, RunScript, AllFour, MemberRow;
    var s := Spend(d.store);
    SpentIsWhole(before, d.store, layout);
    MembersExist(d.store.vdisks, volume, layout[volume]);
    SpentRows(d.store, layout[volume]);
    var script := AaScriptOf(s, layout[volume], addition);
    StopsAtFailure(s, script);
    var (s1, done) := RunScript(s, script);
    if done == |script| {
      assert script[..done] == script;
      ScriptGrowth(before, s, layout, volume, addition);
      SameTablesWhole(before, ApplyAll(s, script), s1, layout);
    }
  }

  lemma {:induction false} SpentIsWhole(before: seq<Vdisk>, s: State, layout: Layout)
    requires Whole(before, s, layout)
    ensures Whole(before, Spend(s), layout)
  {}

  lemma {:induction false} SameTablesWhole(before: seq<Vdisk>, s: State, t: State, layout: Layout)
    requires Whole(before, s, layout) && SameTables(t, s)
    ensures Whole(before, t, layout)
  {}

  lemma {:induction false} SpentRows(s: State, a: AaVolume)
    requires Exists(s.vdisks, a.master) && Exists(s.vdisks, a.aux)
    ensures InfosOf(Spend(s), a) == InfosOf(s, a)
  {}

  lemma {:induction false} CheckKeepsTables(s: State, infos: Infos, addition: nat, env: Env)
    ensures SameTables(CheckExtend(s, infos, addition, env).0, s)
  {}

  lemma {:induction false} SameTablesRows(s: State, t: State, a: AaVolume)
    requires SameTables(s, t) && Exists(t.vdisks, a.master) && Exists(t.vdisks, a.aux)
    ensures InfosOf(s, a) == InfosOf(t, a)
  {}

  /* ---- one extend, and runs ---- */

  ghost predicate GrowthOf(d: Driver, volume: string, infos: Infos, addition: nat, s1: State, after: Driver) {
    && BuildVolumeInfos(VolumeRows(Spend(d.store), volume)) == Ok(infos)
    && SameTables(s1, d.store)
    && after == Grown(d.(store := s1), infos, addition).0
  }

  /** What ExtendVolume does once the size comparison has called for growth. */
  lemma {:induction false} ExtendCases(d: Driver, volume: string, size: string, env: Env)
    requires !d.barrier
    ensures var after := ExtendVolume(d, volume, size, env).0;
      || (after == d.(store := after.store) && SameTables(after.store, d.store))
      || exists infos, addition: nat, s1 :: GrowthOf(d, volume, infos, addition, s1, after)
  {
    hide VolumeRows, BuildVolumeInfos, CheckExtend, Grown, ParseStrSize, Atoi;
    var s := Spend(d.store);
    if Up(d.store) {
      var infos := BuildVolumeInfos(VolumeRows(s, volume));
      if infos.Ok? {
        var newSize, oldSize := Atoi(size).value, ParseStrSize(infos.value.master.capacity);
        if newSize > oldSize {
          var addition: nat := newSize - oldSize;
          CheckKeepsTables(s, infos.value, addition, env);
          var (s1, check) := CheckExtend(s, infos.value, addition, env);
          if check.Ok? {
            assert GrowthOf(d, volume, infos.value, addition, s1, ExtendVolume(d, volume, size, env).0);
          }
        }
      }
    }
  }

  lemma {:induction false} ExtendKeepsWhole(before: seq<Vdisk>, d: Driver, layout: Layout, volume: string,
                                            size: string, env: Env)
    requires Whole(before, d.store, layout) && d.writable && !d.barrier
    ensures var after := ExtendVolume(d, volume, size, env).0;
      after.writable && (after.barrier || Whole(before, after.store, layout))
  {
    hide ExtendVolume, Whole, BuildVolumeInfos, VolumeRows, MemberRow, AllFour, Healthy;
    var after := ExtendVolume(d, volume, size, env).0;
    ExtendCases(d, volume, size, env);
    WholeIsHealthy(before, d.store, layout);
    if after == d.(store := after.store) && SameTables(after.store, d.store) {
      SameTablesWhole(before, d.store, after.store, layout);
    } else {
      var infos, addition: nat, s1 :| GrowthOf(d, volume, infos, addition, s1, after);
      SameTablesWhole(before, d.store, s1, layout);
      WholeIsHealthy(before, s1, layout);
      if volume in layout {
        HealthyInfos(Spend(d.store), layout, volume);
        HealthyParts(s1.vdisks, s1.relations, layout, volume);
        MembersExist(s1.vdisks, volume, layout[volume]);
        SameTablesRows(Spend(d.store), s1, layout[volume]);
        GrownIsWhole(before, d.(store := s1), layout, volume, addition);
      } else {
        BasicInfos(Spend(d.store), layout, volume);
        BasicGrownIsWhole(before, d.(store := s1), layout, infos, addition);
      }
    }
  }

  lemma {:induction false} MembersExist(vs: seq<Vdisk>, volume: string, a: AaVolume)
    requires AllFour(vs, volume, a)
    ensures Exists(vs, a.master) && Exists(vs, a.aux)
  {}

  lemma {:induction false} WholeIsHealthy(before: seq<Vdisk>, s: State, layout: Layout)
    requires Whole(before, s, layout)
    ensures Healthy(s.vdisks, s.relations, layout)
    ensures Healthy(Spend(s).vdisks, Spend(s).relations, layout)
  {}

  lemma {:induction false} BasicGrownIsWhole(before: seq<Vdisk>, d: Driver, layout: Layout, infos: Infos, addition: nat)
    requires Whole(before, d.store, layout) && infos.aux.None?
    requires forall other | other in layout :: infos.master.name !in Members(layout[other])
    ensures var after := Grown(d, infos, addition).0;
      after.writable == d.writable && Whole(before, after.store, layout)
  {
    hide Whole, Grow;
    var s := d.store;
    var after := Grown(d, infos, addition).0;
    ForeignGrowth(before, s, layout, infos.master.name, addition);
    var grown := s.(vdisks := Grow(s.vdisks, infos.master.name, addition));
    assert SameTables(after.store, s) || SameTables(after.store, grown);
    if SameTables(after.store, s) {
      SameTablesWhole(before, s, after.store, layout);
    } else {
      SameTablesWhole(before, grown, after.store, layout);
    }
  }

  /** Safety over all runs: with barrier creation succeeding, after any sequence of extends with any
      failures, the barrier stands or every active-active volume has its relationship with both
      change volumes attached and its four vdisks grown by the same total. */
  lemma {:induction false} AaExtendRun(before: seq<Vdisk>, d: Driver, layout: Layout, calls: seq<ExtendCall>)
    requires d.writable && (d.barrier || Whole(before, d.store, layout))
    ensures var after := ExtendRun(d, calls); after.barrier || Whole(before, after.store, layout)
    decreases |calls|
  {
    hide ExtendVolume, Whole;
    if d.barrier {
      BarrierBlocks(d, calls);
    } else if calls != [] {
      ExtendKeepsWhole(before, d, layout, calls[0].volume, calls[0].size, calls[0].env);
      AaExtendRun(before, ExtendVolume(d, calls[0].volume, calls[0].size, calls[0].env).0, layout, calls[1..]);
    }
  }

  /** Once the barrier stands, no extend of any volume changes anything. */
  lemma {:induction false} BarrierBlocks(d: Driver, calls: seq<ExtendCall>)
    requires d.barrier
    ensures ExtendRun(d, calls) == d
    decreases |calls|
  {
    if calls != [] { BarrierBlocks(d, calls[1..]); }
  }
}
