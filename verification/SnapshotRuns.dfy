/** Snapshots last: over every run of volume operations, with any command failing, a snapshot, its
    source and the map between them survive until the snapshot itself is deleted. */
module SnapshotRuns {
  import opened Wrappers
  import opened Text
  import opened Lists
  import opened Sizes
  import opened VdiskArray
  import opened As18000
  import opened AaExtend
  import opened AaScript
  import opened AaRuns
  import opened ExtendSizes
  import opened ArrayInvariant
  import opened SnapshotStands
  import opened VolumeRuns

  ghost predicate SparingCommandsKeep(source: string, snap: string) {
    && (forall s, c | Durable(s, source, snap) && Spares(s, c, source, snap) :: Durable(Execute(s, c).0, source, snap))
    && (forall s | Durable(s, source, snap) :: Durable(Spend(s), source, snap))
  }

  lemma {:induction false} SparingCommands(source: string, snap: string)
    ensures SparingCommandsKeep(source, snap)
  {
    hide Execute, Durable, Spares;
    forall s, c | Durable(s, source, snap) && Spares(s, c, source, snap)
      ensures Durable(Execute(s, c).0, source, snap)
    {
      SparingKeeps(s, c, source, snap);
    }
    forall s | Durable(s, source, snap) ensures Durable(Spend(s), source, snap) {
      DurableIgnoresFaults(s, Spend(s), source, snap);
    }
  }

  /* ---- creating and cloning ---- */

  /** A volume that could be created is neither of the two. */
  lemma {:induction false} CreatedIsOther(s: State, name: string, gib: nat, o: Options, source: string, snap: string)
    requires Durable(s, source, snap)
    ensures Durable(CreateVolume(s, name, gib, o).0, source, snap)
    ensures CreateVolume(s, name, gib, o).1.Ok? ==> name != source && name != snap
  {
    hide Durable, Apply;
    SparingCommands(source, snap);
    if CreateCommand(name, gib, o).Ok? && Can(s, CreateCommand(name, gib, o).value) {
      DurableParts(s, source, snap);
      FreeNames(s, name, source, snap);
    }
  }

  lemma {:induction false} CloneKeeps(s: State, name: string, gib: nat, o: Options, from: string, snapshot: string,
                                      source: string, snap: string)
    requires Durable(s, source, snap)
    ensures Durable(CloneVolume(s, name, gib, o, from, snapshot).0, source, snap)
  {
    hide Durable, Execute, CreateVolume;
    SparingCommands(source, snap);
    CreatedIsOther(s, name, gib, o, source, snap);
  }

  /* ---- deleting ---- */

  lemma {:induction false} SourceHasMap(s: State, source: string, snap: string)
    requires Durable(s, source, snap)
    ensures |MapsFrom(s.maps, source)| > 0 && |TouchingMaps(s.maps, source)| > 0 && |TouchingMaps(s.maps, snap)| > 0
  {
    var m :| m in s.maps && IsSnapshotMap(m, source, snap);
    assert m in MapsFrom(s.maps, source) && m in TouchingMaps(s.maps, source) && m in TouchingMaps(s.maps, snap);
  }

  /** A volume alone under its name is listed as one row. */
  lemma {:induction false} OneRow(s: State, name: string)
    requires DistinctVdisks(s.vdisks) && Alone(s, name)
    ensures |VolumeRows(s, name)| == 1
  {
    var vs := InVolume(s.vdisks, name);
    var v := FindVdisk(s.vdisks, name).value;
    FilterDistinct(s.vdisks, (w: Vdisk) => w.volume == name);
    assert v in vs;
    assert |vs| > 1 ==> vs[0].name != vs[1].name;
    forall i | 0 <= i < |vs| ensures vs[i].name == name { assert vs[i] in vs; }
  }

  lemma {:induction false} DeleteKeeps(s: State, name: string, source: string, snap: string)
    requires Durable(s, source, snap) && name != snap
    ensures Durable(DeleteVolume(s, name).0, source, snap)
  {
    hide Durable, Execute, Spend, Up, VolumeRows, MapsFrom;
    SparingCommands(source, snap);
    if name == source {
      SourceHasMap(Spend(Spend(s)), source, snap);
      DurableAlone(Spend(s), source, snap);
      OneRow(Spend(s), source);
    }
  }

  lemma {:induction false} DurableAlone(s: State, source: string, snap: string)
    requires Durable(s, source, snap)
    ensures DistinctVdisks(s.vdisks) && Alone(s, source) && Alone(s, snap)
  {}

  /* ---- snapshots ---- */

  /** The map with this id, if any, is not the snapshot's. */
  ghost predicate ElsewhereId(s: State, id: nat, snap: string) {
    forall m | m in s.maps && m.id == id :: m.target != snap
  }

  lemma {:induction false} CleanUpKeeps(s: State, name: string, mapId: Option<nat>, stop: bool, source: string,
                                        snap: string)
    requires Durable(s, source, snap) && name != source && name != snap
    requires mapId.Some? ==> ElsewhereId(s, mapId.value, snap)
    ensures Durable(CleanUp(s, name, mapId, stop), source, snap)
  {
    hide Durable, Execute;
    SparingCommands(source, snap);
    if mapId.Some? { StopKeepsMaps(s, mapId.value); }
  }

  lemma {:induction false} StopKeepsMaps(s: State, id: nat)
    ensures Execute(s, StopLcMap(id)).0.maps == s.maps
  {
    hide HasMap, Exists, FindRelation, FindVdisk, NextVdiskId, NextMapId, NameFree, Filter, AddLink, Mentions;
  }

  lemma {:induction false} MapElsewhere(s: State, from: string, name: string, snap: string)
    requires name != snap
    ensures var id := NextMapId(s.maps);
      var (s1, made) := Execute(s, MkLcMap(from, name, false));
      && (made ==> ElsewhereId(s1, id, snap))
      && (made ==> ElsewhereId(Execute(s1, StartLcMap(id)).0, id, snap))
  {
    hide NextMapId;
    var id := NextMapId(s.maps);
    var (s1, made) := Execute(s, MkLcMap(from, name, false));
    assert made ==> s1.maps == s.maps + [LcMap(id, from, name, "", false)];
    assert made ==> ElsewhereId(s1, id, snap);
    if made { StartKeepsTargets(s1, id, snap); }
  }

  lemma {:induction false} StartKeepsTargets(s: State, id: nat, snap: string)
    requires ElsewhereId(s, id, snap)
    ensures ElsewhereId(Execute(s, StartLcMap(id)).0, id, snap)
  {
    hide HasMap;
    var after := Start(s.maps, id, s.now);
    forall m | m in after && m.id == id ensures m.target != snap {
      var i :| 0 <= i < |after| && after[i] == m;
      assert s.maps[i] in s.maps;
    }
  }

  lemma {:induction false} MapSnapshotKeeps(s: State, from: string, name: string, source: string, snap: string)
    requires Durable(s, source, snap) && name != source && name != snap
    ensures Durable(MapSnapshot(s, from, name).0, source, snap)
  {
    hide Durable, Execute, CleanUp, MapsTo, Spend, StdTime;
    SparingCommands(source, snap);
    MapElsewhere(s, from, name, snap);
    var id := NextMapId(s.maps);
    var (s1, made) := Execute(s, MkLcMap(from, name, false));
    if !made {
      CleanUpKeeps(s1, name, None, false, source, snap);
    } else {
      var s2 := Execute(s1, StartLcMap(id)).0;
      SpendKeepsMaps(s2);
      CleanUpKeeps(s2, name, Some(id), false, source, snap);
      CleanUpKeeps(Spend(s2), name, Some(id), true, source, snap);
    }
  }

  lemma {:induction false} SpendKeepsMaps(s: State)
    ensures Spend(s).maps == s.maps
  {}

  lemma {:induction false} SnapshotKeeps(s: State, from: string, name: string, source: string, snap: string)
    requires Durable(s, source, snap)
    ensures Durable(CreateSnapshot(s, from, name).0, source, snap)
  {
    hide Durable, Execute, CreateVolume, MapSnapshot, MapsTo, Spend, Up, StdTime, VolumeRows, ParseStrSize, FindVdisk;
    SparingCommands(source, snap);
    forall t, gib: nat, o | Durable(t, source, snap) && CreateVolume(t, name, gib, o).1.Ok?
      ensures Durable(MapSnapshot(CreateVolume(t, name, gib, o).0, from, name).0, source, snap)
    {
      CreatedIsOther(t, name, gib, o, source, snap);
      MapSnapshotKeeps(CreateVolume(t, name, gib, o).0, from, name, source, snap);
    }
    forall t, gib: nat, o | Durable(t, source, snap) ensures Durable(CreateVolume(t, name, gib, o).0, source, snap) {
      CreatedIsOther(t, name, gib, o, source, snap);
    }
  }

  /** Ids tell maps apart, so removing another snapshot's map spares this one's. */
  lemma {:induction false} OtherSnapshotsMap(s: State, name: string, source: string, snap: string)
    requires Durable(s, source, snap) && name != snap && MapsTo(s.maps, name) != []
    ensures ElsewhereId(s, MapsTo(s.maps, name)[0].id, snap)
  {
    var row := MapsTo(s.maps, name)[0];
    assert row in MapsTo(s.maps, name);
    var i :| 0 <= i < |s.maps| && s.maps[i] == row;
    forall m | m in s.maps && m.id == row.id ensures m.target != snap {
      var j :| 0 <= j < |s.maps| && s.maps[j] == m;
    }
  }

  lemma {:induction false} DeleteSnapshotKeeps(s: State, name: string, settle: nat, source: string, snap: string)
    requires Durable(s, source, snap) && name != snap
    ensures Durable(DeleteSnapshot(s, name, settle).0, source, snap)
  {
    hide Durable, Execute, Poll, MapsTo, MapsFrom, Up, SameTables;
    SparingCommands(source, snap);
    var s2 := Spend(Spend(s));
    if name == source { SourceHasMap(s2, source, snap); }
    if Up(s) && MapsTo(Spend(s).maps, name) != [] {
      OtherSnapshotsMap(s2, name, source, snap);
      var id := MapsTo(s2.maps, name)[0].id;
      var s2a := Execute(s2, StopLcMap(id)).0;
      var s3 := Poll(s2a, name, settle, POLL_ROUNDS);
      StopKeepsMaps(s2, id);
      PollSpends(s2a, name, settle, POLL_ROUNDS);
      DurableIgnoresFaults(s2a, s3, source, snap);
      SameMaps(s3, s2a);
    }
  }

  lemma {:induction false} SameMaps(s: State, t: State)
    requires SameTables(s, t)
    ensures s.maps == t.maps
  {}

  /* ---- extending ---- */

  lemma {:induction false} CountIsNotZero(n: nat)
    requires n > 0
    ensures Decimal(n) != "0"
  {
    ValueOfDecimal(n);
    ValueOfDecimal(0);
  }

  /** The two vdisks have a local copy, so neither is extended. */
  lemma {:induction false} NotExtended(d: Driver, volume: string, size: string, env: Env, source: string, snap: string)
    requires Durable(d.store, source, snap) && (volume == source || volume == snap)
    ensures SameTables(ExtendVolume(d, volume, size, env).0.store, d.store)
  {
    hide Durable, BuildVolumeInfos, VolumeRows, FreeGib, Grown, TouchingMaps, FunctionOf, ParseStrSize, Atoi, Decimal;
    var s := Spend(d.store);
    DurableIgnoresFaults(d.store, s, source, snap);
    DurableAlone(s, source, snap);
    SourceHasMap(s, source, snap);
    BasicRead(s, volume, volume);
    CountIsNotZero(|TouchingMaps(s.maps, volume)|);
    NameOfMember(s, volume);
    assert MemberRow(s, volume).lcMapCount == Decimal(|TouchingMaps(s.maps, volume)|);
  }

  ghost predicate AlwaysSpares(c: Command, source: string, snap: string) {
    forall s :: Spares(s, c, source, snap)
  }

  lemma {:induction false} ScriptKeeps(s: State, script: seq<Command>, source: string, snap: string)
    requires Durable(s, source, snap)
    requires forall c | c in script :: AlwaysSpares(c, source, snap)
    ensures Durable(RunScript(s, script).0, source, snap)
    decreases |script|
  {
    hide Durable, Execute;
    if script != [] {
      assert AlwaysSpares(script[0], source, snap);
      SparingKeeps(s, script[0], source, snap);
      if Execute(s, script[0]).1 { ScriptKeeps(Execute(s, script[0]).0, script[1..], source, snap); }
    }
  }

  /** None of the vdisks an extend works on is one of the two. */
  ghost predicate WorksElsewhere(infos: Infos, source: string, snap: string) {
    forall name | name in [source, snap] ::
      && infos.master.name != name
      && (infos.aux.Some? ==>
            infos.aux.value.0.name != name && infos.aux.value.1 != name && infos.aux.value.2 != name)
  }

  lemma {:induction false} GrownKeeps(d: Driver, infos: Infos, addition: nat, source: string, snap: string)
    requires Durable(d.store, source, snap) && WorksElsewhere(infos, source, snap)
    ensures Durable(Grown(d, infos, addition).0.store, source, snap)
  {
    hide Durable, Execute, RunScript, Up;
    var s := d.store;
    assert source in [source, snap] && snap in [source, snap];
    SparingCommands(source, snap);
    if infos.aux.Some? {
      var (aux, masterChange, auxChange) := infos.aux.value;
      ScriptKeeps(Spend(s), Script(infos.master, aux, masterChange, auxChange, addition), source, snap);
    }
  }

  lemma {:induction false} OtherVolumeInfos(s: State, volume: string, source: string, snap: string)
    requires Durable(s, source, snap) && volume != source && volume != snap
    requires BuildVolumeInfos(VolumeRows(s, volume)).Ok?
    ensures WorksElsewhere(BuildVolumeInfos(VolumeRows(s, volume)).value, source, snap)
  {
    hide VolumeRows;
    var rows := VolumeRows(s, volume);
    AssignFacts(rows);
    forall row | row in rows ensures row.name != source && row.name != snap {
      var v := VolumeRow(s, volume, row);
    }
  }

  lemma {:induction false} ExtendKeeps(d: Driver, volume: string, size: string, env: Env, source: string, snap: string)
    requires Durable(d.store, source, snap)
    ensures Durable(ExtendVolume(d, volume, size, env).0.store, source, snap)
  {
    hide Durable, ExtendVolume, Grown, VolumeRows, BuildVolumeInfos;
    var after := ExtendVolume(d, volume, size, env).0;
    if volume == source || volume == snap {
      NotExtended(d, volume, size, env, source, snap);
      DurableIgnoresFaults(d.store, after.store, source, snap);
    } else if d.barrier {
      BarrierStops(d, volume, size, env);
    } else {
      ExtendCases(d, volume, size, env);
      if after == d.(store := after.store) && SameTables(after.store, d.store) {
        DurableIgnoresFaults(d.store, after.store, source, snap);
      } else {
        var infos, addition: nat, s1 :| GrowthOf(d, volume, infos, addition, s1, after);
        DurableIgnoresFaults(d.store, s1, source, snap);
        DurableIgnoresFaults(d.store, Spend(d.store), source, snap);
        OtherVolumeInfos(Spend(d.store), volume, source, snap);
        GrownKeeps(d.(store := s1), infos, addition, source, snap);
      }
    }
  }

  /* ---- runs ---- */

  /** The call is not the deletion of the snapshot. */
  predicate Leaves(call: Call, snap: string) {
    call != Deleting(snap) && !(call.DeletingSnapshot? && call.name == snap)
  }

  lemma {:induction false} FinishedKeeps(s: State, id: nat, source: string, snap: string)
    requires Durable(s, source, snap)
    ensures Durable(s.(maps := WithoutFinished(s.maps, id)), source, snap)
  {
    hide PairStands, DistinctMapIds, Durable;
    DurableParts(s, source, snap);
    FilterMapStands(s.maps, (m: LcMap) => m.id != id || !m.autodelete, source, snap);
    DurableParts(s.(maps := WithoutFinished(s.maps, id)), source, snap);
  }

  lemma {:induction false} StepKeeps(d: Driver, call: Call, source: string, snap: string)
    requires Durable(d.store, source, snap) && Leaves(call, snap)
    ensures Durable(Step(d, call).store, source, snap)
  {
    hide CreateVolume, CloneVolume, DeleteVolume, CreateSnapshot, DeleteSnapshot, ExtendVolume, WithoutFinished;
    match call {
      case Creating(name, gib, o) => CreatedIsOther(d.store, name, gib, o, source, snap);
      case Cloning(name, gib, o, from, snapshot) => CloneKeeps(d.store, name, gib, o, from, snapshot, source, snap);
      case Deleting(name) => DeleteKeeps(d.store, name, source, snap);
      case Snapshotting(from, name) => SnapshotKeeps(d.store, from, name, source, snap);
      case DeletingSnapshot(name, settle) => DeleteSnapshotKeeps(d.store, name, settle, source, snap);
      case Extending(volume, size, env) => ExtendKeeps(d, volume, size, env, source, snap);
      case CopyFinished(id) => FinishedKeeps(d.store, id, source, snap);
      case ClockMoved(now) =>
    }
  }

  /** Whatever else is created, cloned, deleted, snapshot or extended, and whatever fails, the snapshot
      stands until it is deleted itself. */
  lemma {:induction false} DurableRun(d: Driver, calls: seq<Call>, source: string, snap: string)
    requires Durable(d.store, source, snap) && forall call | call in calls :: Leaves(call, snap)
    ensures Durable(Run(d, calls).store, source, snap)
    decreases |calls|
  {
    hide Durable, Step, Leaves;
    if calls != [] {
      assert calls[0] in calls;
      StepKeeps(d, calls[0], source, snap);
      DurableRun(Step(d, calls[0]), calls[1..], source, snap);
    }
  }
}
