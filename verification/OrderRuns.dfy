/** Runs of all volume operations together, with any failures: the tables keep their order, and unless the
    failure barrier stands every active-active volume is whole. */
module OrderRuns {
  import opened Wrappers
  import opened Text
  import opened Sizes
  import opened VdiskArray
  import opened As18000
  import opened AaExtend
  import opened AaScript
  import opened AaRuns
  import opened AaCreation
  import opened ArrayInvariant
  import opened ArrayOrder
  import opened VolumeRuns
  import opened ExtendSizes
  import opened SnapshotAtomic
  import SnapshotRuns

  /* ---- whole active-active volumes ---- */

  predicate Covers(vs: seq<Vdisk>, layout: Layout) {
    forall v | v in vs :: v.volume in layout || Plain(vs, v.name)
  }

  /** Every volume is either one vdisk or a whole active-active volume. */
  ghost predicate AllWhole(s: State) {
    exists layout :: Healthy(s.vdisks, s.relations, layout) && Covers(s.vdisks, layout)
  }

  ghost predicate Kept(s: State, whole: bool) { Orderly(s) && (whole ==> AllWhole(s)) }

  /** A command outside the extend, issued as the driver does. */
  ghost predicate FitsQuietly(s: State, c: Command) {
    && Fits(s, c)
    && !c.ExpandVdisk? && !c.RmRelation? && !c.MkRelation? && !c.ChMasterChange? && !c.ChAuxChange?
  }

  lemma {:induction false} SameAllWhole(s: State, t: State)
    requires AllWhole(s) && t.vdisks == s.vdisks && t.relations == s.relations
    ensures AllWhole(t)
  {}

  lemma {:induction false} PlainAdded(s: State, c: Command)
    requires Orderly(s) && AllWhole(s) && c.MkVdisk? && Can(s, c)
    ensures AllWhole(Apply(s, c))
  {
    hide Orderly, Healthy, NextVdiskId, Plain, Exists, AllFour, IsRelationOf, Sound;
    var layout :| Healthy(s.vdisks, s.relations, layout) && Covers(s.vdisks, layout);
    var v := Vdisk(NextVdiskId(s.vdisks), c.name, c.name, c.pool, c.iogrp, c.gib * GIB);
    var t := Apply(s, c);
    OrderlyParts(s);
    PlainVolumeOrder(s, c);
    OrderlyParts(t);
    MoreHealthy(s, layout, [v], c.name);
    assert v in [v];
    forall w | w in t.vdisks ensures w.volume in layout || Plain(t.vdisks, w.name) {
      if w in s.vdisks && Plain(s.vdisks, w.name) {
        PlainThere(s.vdisks, w.name);
        AddedUnmoved(s.vdisks, [v], c.name, w.name);
      }
    }
  }

  lemma {:induction false} PlainThere(vs: seq<Vdisk>, name: string)
    requires Plain(vs, name)
    ensures Exists(vs, name)
  {}

  /** New vdisks of a new volume leave the whole volumes whole. */
  lemma {:induction false} MoreHealthy(s: State, layout: Layout, more: seq<Vdisk>, volume: string)
    requires Healthy(s.vdisks, s.relations, layout) && NewVolumeOf(s.vdisks, more, volume)
    requires DistinctVdisks(s.vdisks + more)
    ensures Healthy(s.vdisks + more, s.relations, layout)
  {
    hide AllFour, RelationOf, DistinctVdisks, Exists;
    var vs, ws := s.vdisks, s.vdisks + more;
    NewNotInLayout(vs, s.relations, layout, volume);
    forall v | v in layout
      ensures AllFour(vs, v, layout[v]) && AllFour(ws, v, layout[v])
      ensures MasterThere(vs, layout[v]) && MasterThere(ws, layout[v])
      ensures RelationOf(ws, layout[v]) == RelationOf(vs, layout[v])
    {
      HealthyParts(vs, s.relations, layout, v);
      OtherStaysWhole(vs, more, v, layout[v]);
      MasterOfFour(vs, v, layout[v]);
      MasterOfFour(ws, v, layout[v]);
    }
    forall r | r in s.relations ensures IsRelationOf(ws, layout, r) { RelationsStay(vs, ws, layout, layout, r); }
  }

  lemma {:induction false} AaAdded(s: State, c: Command)
    requires Orderly(s) && AllWhole(s) && c.MkVolume? && Can(s, c)
    ensures AllWhole(Apply(s, c))
  {
    hide Orderly, Healthy, NextVdiskId, Plain, Exists, AllFour, IsRelationOf, Sound, Apply, FourVdisks, NamedVolume;
    var layout :| Healthy(s.vdisks, s.relations, layout) && Covers(s.vdisks, layout);
    OrderlyParts(s);
    NewVolumeWhole(s, layout, c);
    FourFacts(s, c);
    TablesOfNew(s, c);
    var t, more, next := Apply(s, c), FourVdisks(s, c), layout[c.name := NamedVolume(c.name)];
    assert more[0] in more;
    NamedMaster(c.name);
    forall w | w in t.vdisks ensures w.volume in next || Plain(t.vdisks, w.name) {
      if w in s.vdisks && Plain(s.vdisks, w.name) {
        PlainThere(s.vdisks, w.name);
        AddedUnmoved(s.vdisks, more, c.name, w.name);
      }
    }
  }

  lemma {:induction false} NamedMaster(name: string)
    ensures NamedVolume(name).master == name
  {}

  /** Removing a volume leaves the others whole. */
  lemma {:induction false} OthersHealthy(s: State, layout: Layout, volume: string)
    requires Orderly(s) && Healthy(s.vdisks, s.relations, layout)
    ensures var gone := NamesOf(s.vdisks, volume);
      Healthy(DropVolume(s.vdisks, volume), DropRelationsOf(s.relations, gone), layout - {volume})
  {
    hide Orderly, Sound, Exists, Plain, FindVdisk;
    var vs, ws, gone := s.vdisks, DropVolume(s.vdisks, volume), NamesOf(s.vdisks, volume);
    var qs, next := DropRelationsOf(s.relations, gone), layout - {volume};
    OrderlyParts(s);
    FilterDistinct(vs, (v: Vdisk) => v.volume != volume);
    forall v | v in next
      ensures AllFour(vs, v, layout[v]) && AllFour(ws, v, layout[v])
      ensures MasterThere(vs, layout[v]) && MasterThere(ws, layout[v])
      ensures RelationOf(ws, layout[v]) == RelationOf(vs, layout[v])
      ensures forall name | name in gone :: !Mentions(RelationOf(vs, layout[v]), name)
    {
      HealthyParts(vs, s.relations, layout, v);
      FourKept(s, volume, v, layout[v]);
      MasterOfFour(vs, v, layout[v]);
      MasterOfFour(ws, v, layout[v]);
    }
    hide AllFour, RelationOf, Mentions;
    forall r | r in qs ensures IsRelationOf(ws, next, r) {
      assert IsRelationOf(vs, layout, r);
      if volume in layout { GoneRelation(vs, layout, volume, r); }
      OtherRelation(vs, ws, layout, next, volume, r);
    }
  }

  lemma {:induction false} FourKept(s: State, volume: string, other: string, a: AaVolume)
    requires Orderly(s) && AllFour(s.vdisks, other, a) && other != volume
    ensures AllFour(DropVolume(s.vdisks, volume), other, a)
    ensures RelationOf(DropVolume(s.vdisks, volume), a) == RelationOf(s.vdisks, a)
    ensures forall name | name in NamesOf(s.vdisks, volume) :: !Mentions(RelationOf(s.vdisks, a), name)
  {
    hide Orderly, FindVdisk, DropVolume, Plain, Housed;
    OrderlyParts(s);
    var vs, gone := s.vdisks, NamesOf(s.vdisks, volume);
    forall name | name in Members(a)
      ensures name !in gone && Exists(DropVolume(vs, volume), name)
              && FindVdisk(DropVolume(vs, volume), name) == FindVdisk(vs, name)
    {
      forall v | v in vs && v.name == name ensures v.volume == other {}
      KeptFound(vs, volume, name);
    }
    assert forall v | v in DropVolume(vs, volume) :: v in vs by { DroppedSubset(vs, volume); }
  }

  lemma {:induction false} DroppedSubset(vs: seq<Vdisk>, volume: string)
    ensures forall v | v in DropVolume(vs, volume) :: v in vs
  {}

  lemma {:induction false} GoneRelation(vs: seq<Vdisk>, layout: Layout, volume: string, r: Relation)
    requires volume in layout && AllFour(vs, volume, layout[volume])
    ensures Exists(vs, layout[volume].master)
    ensures (forall name | name in NamesOf(vs, volume) :: !Mentions(r, name)) ==> r != RelationOf(vs, layout[volume])
  {
    var v := FindVdisk(vs, layout[volume].master).value;
    assert v in vs && v.name in Members(layout[volume]) && v.volume == volume;
    assert v.name in NamesOf(vs, volume);
    assert Mentions(RelationOf(vs, layout[volume]), v.name);
  }

  lemma {:induction false} OtherRelation(vs: seq<Vdisk>, ws: seq<Vdisk>, layout: Layout, next: Layout, volume: string,
                                         r: Relation)
    requires IsRelationOf(vs, layout, r) && next == layout - {volume}
    requires volume in layout && AllFour(vs, volume, layout[volume]) ==> r != RelationOf(vs, layout[volume])
    requires forall v | v in next && AllFour(vs, v, layout[v]) ::
      AllFour(ws, v, layout[v]) && RelationOf(ws, layout[v]) == RelationOf(vs, layout[v])
    ensures IsRelationOf(ws, next, r)
  {
    hide Exists, FindVdisk;
    var v :| v in layout && AllFour(vs, v, layout[v]) && r == RelationOf(vs, layout[v]);
    assert v in next && AllFour(ws, v, next[v]);
  }

  lemma {:induction false} VolumeRemoved(s: State, volume: string)
    requires Orderly(s) && AllWhole(s)
    ensures AllWhole(s.(vdisks := DropVolume(s.vdisks, volume),
                        relations := DropRelationsOf(s.relations, NamesOf(s.vdisks, volume)),
                        maps := DropMaps(s.maps, NamesOf(s.vdisks, volume))))
  {
    hide Orderly, Healthy, Plain, Exists, AllFour, IsRelationOf, Sound;
    var layout :| Healthy(s.vdisks, s.relations, layout) && Covers(s.vdisks, layout);
    var ws, next := DropVolume(s.vdisks, volume), layout - {volume};
    OrderlyParts(s);
    OthersHealthy(s, layout, volume);
    forall w | w in ws ensures w.volume in next || Plain(ws, w.name) {
      assert w in s.vdisks && w.volume != volume;
      if Plain(s.vdisks, w.name) {
        PlainThere(s.vdisks, w.name);
        NotAmong(s.vdisks, volume, w);
        KeptFound(s.vdisks, volume, w.name);
      }
    }
    assert Healthy(ws, DropRelationsOf(s.relations, NamesOf(s.vdisks, volume)), next) && Covers(ws, next);
  }

  lemma {:induction false} NotAmong(vs: seq<Vdisk>, volume: string, v: Vdisk)
    requires DistinctVdisks(vs) && v in vs && v.volume != volume
    ensures v.name !in NamesOf(vs, volume)
  {
    forall w | w in vs && w.name == v.name ensures w == v { SameVdisk(vs, v, w); }
  }

  lemma {:induction false} QuietWhole(s: State, c: Command)
    requires Orderly(s) && AllWhole(s) && FitsQuietly(s, c) && Can(s, c)
    ensures AllWhole(Apply(s, c))
  {
    hide Orderly, AllWhole, Plain, DropVolume, DropVdisk, DropMaps, DropRelationsOf, NamesOf;
    match c {
      case MkVdisk(_, _, _, _) => PlainAdded(s, c);
      case MkVolume(_, _, _, _, _, _) => AaAdded(s, c);
      case RmVdisk(name) =>
        PlainRemoval(s, name);
        VolumeRemoved(s, name);
      case RmVolume(name) => VolumeRemoved(s, name);
      case AddVdiskAccess(_, _) => SameAllWhole(s, Apply(s, c));
      case MkLcMap(_, _, _) => SameAllWhole(s, Apply(s, c));
      case StartLcMap(_) => SameAllWhole(s, Apply(s, c));
      case StopLcMap(_) => SameAllWhole(s, Apply(s, c));
      case RmLcMap(_) => SameAllWhole(s, Apply(s, c));
    }
  }

  lemma {:induction false} QuietKeeps(s: State, c: Command, whole: bool)
    requires Kept(s, whole) && FitsQuietly(s, c)
    ensures Kept(Execute(s, c).0, whole)
  {
    hide Orderly, AllWhole, Can, Apply, Fits;
    FittingKeeps(s, c);
    if whole {
      if Up(s) && Can(s, c) {
        QuietWhole(s, c);
        SameAllWhole(Apply(s, c), Execute(s, c).0);
      } else {
        SameAllWhole(s, Execute(s, c).0);
      }
    }
  }

  ghost predicate QuietCommandsKeep(whole: bool) {
    && (forall s, c | Kept(s, whole) && FitsQuietly(s, c) :: Kept(Execute(s, c).0, whole))
    && (forall s | Kept(s, whole) :: Kept(Spend(s), whole))
  }

  lemma {:induction false} QuietCommands(whole: bool)
    ensures QuietCommandsKeep(whole)
  {
    hide Execute, Kept, FitsQuietly;
    forall s, c | Kept(s, whole) && FitsQuietly(s, c) ensures Kept(Execute(s, c).0, whole) { QuietKeeps(s, c, whole); }
    forall s | Kept(s, whole) ensures Kept(Spend(s), whole) { KeptFaults(s, Spend(s), whole); }
  }

  lemma {:induction false} KeptFaults(s: State, t: State, whole: bool)
    requires Kept(s, whole) && SameTables(t, s)
    ensures Kept(t, whole)
  {
    hide Orderly, AllWhole;
    OrderIgnoresFaults(s, t.faults, s.now);
    if whole { SameAllWhole(s, t); }
  }

  /* ---- creating and cloning ---- */

  lemma {:induction false} CreateKept(s: State, name: string, gib: nat, o: Options, whole: bool)
    requires Kept(s, whole)
    ensures Kept(CreateVolume(s, name, gib, o).0, whole)
    ensures o.level != Some("aa") && CreateVolume(s, name, gib, o).1.Ok? ==>
      Plain(CreateVolume(s, name, gib, o).0.vdisks, name)
  {
    hide Kept, Can, Apply, Plain;
    QuietCommands(whole);
    var c := CreateCommand(name, gib, o);
    if c.Ok? && Up(s) && Can(s, c.value) && o.level != Some("aa") {
      KeptOrderly(s, whole);
      PlainVolumeOrder(s, c.value);
    }
  }

  lemma {:induction false} KeptOrderly(s: State, whole: bool)
    requires Kept(s, whole)
    ensures Orderly(s)
  {}

  /** Commands on maps leave the vdisks alone. */
  lemma {:induction false} MapsOnly(s: State, c: Command)
    requires c.MkLcMap? || c.StartLcMap? || c.StopLcMap? || c.RmLcMap?
    ensures Execute(s, c).0.vdisks == s.vdisks
  {
    hide HasMap, Exists, NextMapId, DropMap, Start;
  }

  lemma {:induction false} CloneKept(s: State, name: string, gib: nat, o: Options, source: string, snapshot: string,
                                     whole: bool)
    requires Kept(s, whole)
    ensures Kept(CloneVolume(s, name, gib, o, source, snapshot).0, whole)
  {
    hide Kept, Execute, CreateVolume, Plain;
    QuietCommands(whole);
    CreateKept(s, name, gib, o, whole);
    forall t, c: Command | c.MkLcMap? || c.StartLcMap? || c.StopLcMap? ensures Execute(t, c).0.vdisks == t.vdisks {
      MapsOnly(t, c);
    }
  }

  /* ---- deleting ---- */

  lemma {:induction false} DeleteKept(s: State, name: string, whole: bool)
    requires Kept(s, whole)
    ensures Kept(DeleteVolume(s, name).0, whole)
  {
    hide Kept, Execute, VolumeRows, MapsFrom, Plain;
    QuietCommands(whole);
    KeptOrderly(s, whole);
    OrderlyParts(s);
    SameTablesSameRows(s, Spend(s), name);
    if |VolumeRows(s, name)| == 1 { OneRowPlain(s, name); }
  }

  /* ---- snapshots ---- */

  /** Every map of this id goes from the one plain vdisk to the other. */
  ghost predicate IdBetween(s: State, id: nat, source: string, name: string) {
    forall m | m in s.maps && m.id == id :: m.source == source && m.target == name
  }

  lemma {:induction false} NewIdBetween(s: State, source: string, name: string)
    ensures var id := NextMapId(s.maps);
      var (t, made) := Execute(s, MkLcMap(source, name, false));
      made ==> IdBetween(t, id, source, name) && IdBetween(Execute(t, StartLcMap(id)).0, id, source, name)
  {
    hide NextMapId, Exists;
    var id := NextMapId(s.maps);
    var (t, made) := Execute(s, MkLcMap(source, name, false));
    if made {
      assert t.maps == s.maps + [LcMap(id, source, name, "", false)];
      StartedBetween(t, id, source, name);
    }
  }

  lemma {:induction false} StartedBetween(s: State, id: nat, source: string, name: string)
    requires IdBetween(s, id, source, name)
    ensures IdBetween(Execute(s, StartLcMap(id)).0, id, source, name)
  {
    hide HasMap;
    forall m | m in Start(s.maps, id, s.now) && m.id == id ensures m.source == source && m.target == name {
      var i :| 0 <= i < |s.maps| && Start(s.maps, id, s.now)[i] == m;
      assert s.maps[i] in s.maps;
    }
  }

  lemma {:induction false} CleanUpKept(s: State, source: string, name: string, mapId: Option<nat>, stop: bool,
                                       whole: bool)
    requires Kept(s, whole) && Plain(s.vdisks, name) && Plain(s.vdisks, source) && source != name
    requires mapId.Some? ==> IdBetween(s, mapId.value, source, name)
    ensures Kept(CleanUp(s, name, mapId, stop), whole)
  {
    hide Kept, Execute, Plain, Together;
    QuietCommands(whole);
    if mapId.Some? {
      MapsOnly(s, StopLcMap(mapId.value));
      SnapshotRuns.StopKeepsMaps(s, mapId.value);
      if Together(s.vdisks, source, name) { PlainApart(s.vdisks, source, name); }
      var s1 := if stop then Execute(s, StopLcMap(mapId.value)).0 else s;
      MapsOnly(s1, RmLcMap(mapId.value));
      assert FitsQuietly(s1, RmLcMap(mapId.value));
    }
  }

  lemma {:induction false} MapSnapshotKept(s: State, source: string, name: string, whole: bool)
    requires Kept(s, whole) && Plain(s.vdisks, name) && Plain(s.vdisks, source) && source != name
    requires EqualSizes(s.vdisks, source, name)
    ensures Kept(MapSnapshot(s, source, name).0, whole)
  {
    hide Kept, Execute, Plain, EqualSizes, CleanUp, MapsTo, StdTime, IdBetween;
    QuietCommands(whole);
    var id := NextMapId(s.maps);
    NewIdBetween(s, source, name);
    var (s1, made) := Execute(s, MkLcMap(source, name, false));
    MapsOnly(s, MkLcMap(source, name, false));
    assert FitsQuietly(s, MkLcMap(source, name, false));
    if !made {
      CleanUpKept(s1, source, name, None, false, whole);
    } else {
      var s2 := Execute(s1, StartLcMap(id)).0;
      MapsOnly(s1, StartLcMap(id));
      assert FitsQuietly(s1, StartLcMap(id));
      SpentBetween(s2, id, source, name);
      CleanUpKept(s2, source, name, Some(id), false, whole);
      CleanUpKept(Spend(s2), source, name, Some(id), true, whole);
    }
  }

  lemma {:induction false} SpentBetween(s: State, id: nat, source: string, name: string)
    requires IdBetween(s, id, source, name)
    ensures IdBetween(Spend(s), id, source, name)
  {}

  /** The vdisk made for a snapshot is plain, and as large as its plain source. */
  lemma {:induction false} SnapshotSource(s: State, source: string, name: string, whole: bool)
    requires Kept(s, whole) && |VolumeRows(s, source)| == 1 && Exists(s.vdisks, source)
    ensures var v := FindVdisk(s.vdisks, source).value;
      var (t, r) := CreateVolume(s, name, ParseStrSize(Decimal(v.size)), SnapshotOptions(v));
      && Kept(t, whole)
      && (r.Ok? ==> && Plain(t.vdisks, name) && Plain(t.vdisks, source) && source != name
                    && EqualSizes(t.vdisks, source, name))
  {
    hide Kept, Plain, ParseStrSize, Decimal, VolumeRows, CreateVolume;
    var v := FindVdisk(s.vdisks, source).value;
    var (t, r) := CreateVolume(s, name, ParseStrSize(Decimal(v.size)), SnapshotOptions(v));
    KeptOrderly(s, whole);
    OrderlyParts(s);
    OneRowPlain(s, source);
    CreateKept(s, name, ParseStrSize(Decimal(v.size)), SnapshotOptions(v), whole);
    KeptOrderly(t, whole);
    OrderlyParts(t);
    SnapshotCreated(s, source, name);
    if r.Ok? { SnapshotPair(s, t, source, name); }
  }

  lemma {:induction false} SnapshotPair(s: State, t: State, source: string, name: string)
    requires Sound(s) && Plain(s.vdisks, source) && NameFree(s, name) && DistinctVdisks(t.vdisks)
    requires t.vdisks == s.vdisks + [SnapVdisk(s, source, name)]
    ensures Plain(t.vdisks, source) && source != name && EqualSizes(t.vdisks, source, name)
  {
    hide NextVdiskId;
    var v := SnapVdisk(s, source, name);
    assert v in [v] && v in t.vdisks;
    AddedUnmoved(s.vdisks, [v], name, source);
    FoundVdisk(t.vdisks, v);
    SnapshotSize(s, source, name);
    assert FindVdisk(s.vdisks, source).value in s.vdisks;
  }

  /** The floor to GiB makes the snapshot as large as its source exactly when the source is whole GiB. */
  lemma {:induction false} SnapshotSize(s: State, source: string, name: string)
    requires Exists(s.vdisks, source)
    ensures SnapVdisk(s, source, name).size == SizeOf(s.vdisks, source) <==> SizeOf(s.vdisks, source) % GIB == 0
  {
    var size := SizeOf(s.vdisks, source);
    assert size == size / GIB * GIB + size % GIB;
  }

  lemma {:induction false} SnapshotKept(s: State, source: string, name: string, whole: bool)
    requires Kept(s, whole)
    ensures Kept(CreateSnapshot(s, source, name).0, whole)
  {
    hide Kept, Execute, CreateVolume, MapSnapshot, MapsTo, StdTime, VolumeRows, ParseStrSize, Decimal, Plain;
    hide EqualSizes, FindVdisk;
    QuietCommands(whole);
    var s3 := Spend(Spend(Spend(s)));
    SameTablesSameRows(Spend(Spend(s)), s3, source);
    if |VolumeRows(s3, source)| == 1 && Exists(s3.vdisks, source) {
      SnapshotSource(s3, source, name, whole);
      var v := FindVdisk(s3.vdisks, source).value;
      var (t, r) := CreateVolume(s3, name, ParseStrSize(Decimal(v.size)), SnapshotOptions(v));
      if r.Ok? { MapSnapshotKept(t, source, name, whole); }
    }
  }

  /** A name that maps go onto but none comes from is that of a plain vdisk, and the first such map lies
      between volumes. */
  lemma {:induction false} TargetOnly(s: State, name: string)
    requires Orderly(s) && MapsTo(s.maps, name) != [] && MapsFrom(s.maps, name) == []
    ensures Plain(s.vdisks, name)
    ensures var first := MapsTo(s.maps, name)[0];
      forall m | m in s.maps && m.id == first.id :: !Together(s.vdisks, m.source, m.target)
  {
    hide Plain, Home, EqualSizes, Housed, Kin, OneOnto;
    var first := MapsTo(s.maps, name)[0];
    assert first in MapsTo(s.maps, name) && first in s.maps && first.target == name;
    assert Proper(s.vdisks, s.maps, first);
    forall n | n in s.maps ensures n.source != name { assert n in MapsFrom(s.maps, name) <==> n.source == name; }
    SameIdSameMap(s.maps, first);
  }

  lemma {:induction false} SameIdSameMap(ms: seq<LcMap>, m: LcMap)
    requires DistinctMapIds(ms) && m in ms
    ensures forall n | n in ms && n.id == m.id :: n == m
  {
    var i :| 0 <= i < |ms| && ms[i] == m;
    forall n | n in ms && n.id == m.id ensures n == m {
      var j :| 0 <= j < |ms| && ms[j] == n;
    }
  }

  lemma {:induction false} DeleteSnapshotKept(s: State, name: string, settle: nat, whole: bool)
    requires Kept(s, whole)
    ensures Kept(DeleteSnapshot(s, name, settle).0, whole)
  {
    hide Kept, Execute, Poll, MapsTo, MapsFrom, Plain, Together;
    QuietCommands(whole);
    KeptOrderly(s, whole);
    if MapsTo(s.maps, name) != [] && MapsFrom(s.maps, name) == [] {
      TargetOnly(s, name);
      var s2, id := Spend(Spend(s)), MapsTo(s.maps, name)[0].id;
      var s2a := Execute(s2, StopLcMap(id)).0;
      assert FitsQuietly(s2, StopLcMap(id));
      MapsOnly(s2, StopLcMap(id));
      SnapshotRuns.StopKeepsMaps(s2, id);
      PollSpends(s2a, name, settle, POLL_ROUNDS);
      var s3 := Poll(s2a, name, settle, POLL_ROUNDS);
      KeptFaults(s2a, s3, whole);
      SameVdisksMaps(s3, s2a);
      assert FitsQuietly(s3, RmLcMap(id));
      MapsOnly(s3, RmLcMap(id));
      assert FitsQuietly(Execute(s3, RmLcMap(id)).0, RmVdisk(name));
    }
  }

  lemma {:induction false} SameVdisksMaps(s: State, t: State)
    requires SameTables(s, t)
    ensures s.vdisks == t.vdisks && s.maps == t.maps
  {}

  /* ---- extending ---- */

  /** A row listed with no local copy is of a vdisk no map touches. */
  lemma {:induction false} NoCopyListed(s: State, volume: string, row: Row)
    requires row in VolumeRows(s, volume) && row.lcMapCount == "0"
    ensures forall m | m in s.maps :: !Touches(m, row.name)
  {
    var v := VolumeRow(s, volume, row);
    var touching := TouchingMaps(s.maps, v.name);
    ValueOfDecimal(|touching|);
    ValueOfDecimal(0);
    forall m | m in s.maps ensures !Touches(m, row.name) { assert m in touching <==> Touches(m, v.name); }
  }

  /** The names an active-active extend works on: four vdisks of one volume, the first two different. */
  ghost predicate FourOf(vs: seq<Vdisk>, volume: string, names: set<string>, master: string, id: nat) {
    && master in names && Exists(vs, master) && IdOf(vs, master) == id
    && (forall name | name in names :: Home(vs, name) == Some(volume) && !Plain(vs, name))
  }

  predicate ScriptCommand(c: Command, names: set<string>, master: string, id: nat) {
    match c
    case RmRelation(_) => true
    case ExpandVdisk(name, _) => name in names
    case MkRelation(m, a) => m in names && a in names
    case AddVdiskAccess(_, _) => true
    case ChMasterChange(change, i) => change in names && i == id
    case ChAuxChange(change, i) => change in names && i == id
    case _ => false
  }

  lemma {:induction false} SameRelationMaster(s: State, volume: string, names: set<string>, master: string, id: nat,
                                              r: Relation)
    requires Orderly(s) && FourOf(s.vdisks, volume, names, master, id) && r in s.relations && r.id == id
    ensures r.master == master && Exists(s.vdisks, r.master) && Together(s.vdisks, r.master, r.aux)
  {
    hide Plain, Housed, AllProper, OneOnto;
    assert KinOf(s.vdisks, r);
    SameVdisk(s.vdisks, FindVdisk(s.vdisks, r.master).value, FindVdisk(s.vdisks, master).value);
  }

  lemma {:induction false} NotPlainTogether(vs: seq<Vdisk>, a: string, b: string)
    requires Together(vs, a, b) && a != b
    ensures !Plain(vs, b)
  {
    if Plain(vs, b) { PlainApart(vs, b, a); }
  }

  lemma {:induction false} ScriptFits(s: State, c: Command, volume: string, names: set<string>, master: string, id: nat)
    requires Orderly(s) && FourOf(s.vdisks, volume, names, master, id) && ScriptCommand(c, names, master, id)
    ensures Fits(s, c)
  {
    hide Orderly, Plain, Home, Exists, IdOf;
    match c {
      case ChMasterChange(change, _) =>
        forall r | r in s.relations && r.id == id
          ensures Together(s.vdisks, r.master, change) && !Plain(s.vdisks, r.master) && !Plain(s.vdisks, change)
        {
          SameRelationMaster(s, volume, names, master, id, r);
        }
      case ChAuxChange(change, _) =>
        forall r | r in s.relations && r.id == id
          ensures Together(s.vdisks, r.aux, change) && !Plain(s.vdisks, r.aux) && !Plain(s.vdisks, change)
        {
          SameRelationMaster(s, volume, names, master, id, r);
          RelationApart(s, r);
          NotPlainTogether(s.vdisks, r.master, r.aux);
        }
      case _ =>
    }
  }

  lemma {:induction false} RelationApart(s: State, r: Relation)
    requires Orderly(s) && r in s.relations
    ensures r.master != r.aux
  {
    assert KinOf(s.vdisks, r);
  }

  lemma {:induction false} FourStay(s: State, c: Command, volume: string, names: set<string>, master: string, id: nat)
    requires FourOf(s.vdisks, volume, names, master, id) && ScriptCommand(c, names, master, id)
    ensures FourOf(Execute(s, c).0.vdisks, volume, names, master, id)
    ensures SameButSizes(s.vdisks, Execute(s, c).0.vdisks)
  {
    hide Plain, Home, IdOf, Grow;
    if c.ExpandVdisk? {
      var ws := Grow(s.vdisks, c.name, c.gib);
      forall name
        ensures (Plain(ws, name) <==> Plain(s.vdisks, name)) && Home(ws, name) == Home(s.vdisks, name)
      {
        GrownPlain(s.vdisks, c.name, c.gib, name);
      }
      GrownPlain(s.vdisks, c.name, c.gib, master);
      GrowFound(s.vdisks, c.name, c.gib, master);
      GrowKeepsRest(s.vdisks, c.name, c.gib);
    } else {
      VdisksAlone(s, c);
    }
  }

  lemma {:induction false} VdisksAlone(s: State, c: Command)
    requires c.RmRelation? || c.MkRelation? || c.AddVdiskAccess? || c.ChMasterChange? || c.ChAuxChange?
    ensures Execute(s, c).0.vdisks == s.vdisks
  {
    hide FindRelation, FindVdisk, AddLink, DropLinks, Exists, Mentions;
  }

  lemma {:induction false} ScriptKept(s: State, script: seq<Command>, volume: string, names: set<string>,
                                      master: string, id: nat)
    requires Orderly(s) && FourOf(s.vdisks, volume, names, master, id)
    requires forall c | c in script :: ScriptCommand(c, names, master, id)
    ensures Orderly(RunScript(s, script).0) && SameButSizes(s.vdisks, RunScript(s, script).0.vdisks)
    decreases |script|
  {
    hide Orderly, Execute, FourOf, ScriptCommand;
    if script != [] {
      assert script[0] in script;
      ScriptFits(s, script[0], volume, names, master, id);
      FittingKeeps(s, script[0]);
      FourStay(s, script[0], volume, names, master, id);
      var s1 := Execute(s, script[0]).0;
      if Execute(s, script[0]).1 { ScriptKept(s1, script[1..], volume, names, master, id); }
    }
  }

  /** The rows an extend goes by are of four vdisks of the volume, two of them at least. */
  lemma {:induction false} FourRead(s: State, volume: string, infos: Infos)
    requires Orderly(s) && BuildVolumeInfos(VolumeRows(s, volume)) == Ok(infos) && infos.aux.Some?
    ensures var (aux, masterChange, auxChange) := infos.aux.value;
      var names := {infos.master.name, aux.name, masterChange, auxChange};
      FourOf(s.vdisks, volume, names, infos.master.name, infos.master.id)
  {
    hide VolumeRows, Plain, Orderly, Home, FunctionOf, TouchingMaps, Decimal;
    OrderlyParts(s);
    var rows := VolumeRows(s, volume);
    AssignFacts(rows);
    var roles := AssignAll(rows);
    var m := VolumeRow(s, volume, roles.master.value);
    var x := VolumeRow(s, volume, roles.aux.value);
    var mc := VolumeRow(s, volume, roles.masterChange.value);
    var ac := VolumeRow(s, volume, roles.auxChange.value);
    FoundVdisk(s.vdisks, m);
    assert m.name != x.name;
    assert mc.name != m.name && ac.name != m.name;
    NotAlone(s.vdisks, m, x);
    NotAlone(s.vdisks, x, m);
    NotAlone(s.vdisks, mc, m);
    NotAlone(s.vdisks, ac, m);
    HomeOf(s.vdisks, m);
    HomeOf(s.vdisks, x);
    HomeOf(s.vdisks, mc);
    HomeOf(s.vdisks, ac);
  }

  lemma {:induction false} GrownOrder(d: Driver, infos: Infos, addition: nat, volume: string)
    requires Orderly(d.store) && BuildVolumeInfos(VolumeRows(d.store, volume)) == Ok(infos)
    requires infos.aux.None? ==> infos.master.lcMapCount == "0"
    ensures var t := Grown(d, infos, addition).0.store;
      Orderly(t) && SameButSizes(d.store.vdisks, t.vdisks)
  {
    hide Orderly, Execute, RunScript, VolumeRows, FourOf, Plain;
    var s := d.store;
    if infos.aux.None? {
      AssignFacts(VolumeRows(s, volume));
      NoCopyListed(s, volume, infos.master);
      FittingKeeps(s, ExpandVdisk(infos.master.name, addition));
      ExpandSame(s, infos.master.name, addition);
    } else {
      var (aux, masterChange, auxChange) := infos.aux.value;
      var names := {infos.master.name, aux.name, masterChange, auxChange};
      FourRead(s, volume, infos);
      OrderIgnoresFaults(s, Spend(s).faults, s.now);
      var script := Script(infos.master, aux, masterChange, auxChange, addition);
      ScriptKept(Spend(s), script, volume, names, infos.master.name, infos.master.id);
    }
  }

  lemma {:induction false} ExpandSame(s: State, name: string, gib: nat)
    ensures SameButSizes(s.vdisks, Execute(s, ExpandVdisk(name, gib)).0.vdisks)
  {
    hide Exists;
    GrowKeepsRest(s.vdisks, name, gib);
  }

  /** A growth is only begun once the check has passed, which lets no basic volume with a copy through. */
  lemma {:induction false} GrowthChecked(d: Driver, volume: string, size: string, env: Env)
    requires !d.barrier
    ensures var after := ExtendVolume(d, volume, size, env).0;
      || (after == d.(store := after.store) && SameTables(after.store, d.store))
      || exists infos, addition: nat, s1 ::
           GrowthOf(d, volume, infos, addition, s1, after) && (infos.aux.None? ==> infos.master.lcMapCount == "0")
  {
    hide VolumeRows, BuildVolumeInfos, Grown, ParseStrSize, Atoi, FreeGib;
    var s := Spend(d.store);
    if Up(d.store) {
      var infos := BuildVolumeInfos(VolumeRows(s, volume));
      if infos.Ok? {
        var newSize, oldSize := Atoi(size).value, ParseStrSize(infos.value.master.capacity);
        if newSize > oldSize {
          var addition: nat := newSize - oldSize;
          var (s1, check) := CheckExtend(s, infos.value, addition, env);
          if check.Ok? {
            assert GrowthOf(d, volume, infos.value, addition, s1, ExtendVolume(d, volume, size, env).0);
          }
        }
      }
    }
  }

  lemma {:induction false} ExtendOrder(d: Driver, volume: string, size: string, env: Env)
    requires Orderly(d.store)
    ensures var t := ExtendVolume(d, volume, size, env).0.store;
      Orderly(t) && SameButSizes(d.store.vdisks, t.vdisks)
  {
    hide Orderly, ExtendVolume, Grown, VolumeRows, BuildVolumeInfos;
    var after := ExtendVolume(d, volume, size, env).0;
    if d.barrier {
      BarrierStops(d, volume, size, env);
    } else {
      GrowthChecked(d, volume, size, env);
      if after == d.(store := after.store) && SameTables(after.store, d.store) {
        OrderIgnoresFaults(d.store, after.store.faults, d.store.now);
      } else {
        var infos, addition: nat, s1 :| GrowthOf(d, volume, infos, addition, s1, after)
          && (infos.aux.None? ==> infos.master.lcMapCount == "0");
        OrderIgnoresFaults(d.store, s1.faults, d.store.now);
        SameTablesSameRows(Spend(d.store), s1, volume);
        GrownOrder(d.(store := s1), infos, addition, volume);
      }
    }
  }

  lemma {:induction false} SameSizesPlain(vs: seq<Vdisk>, ws: seq<Vdisk>, name: string)
    requires SameButSizes(vs, ws)
    ensures Plain(vs, name) ==> Plain(ws, name)
  {
    SameButSizesFound(vs, ws, name);
    forall w | w in ws && Plain(vs, name) ensures w.volume == name <==> w.name == name {
      var i :| 0 <= i < |ws| && ws[i] == w;
      assert vs[i] in vs && w == vs[i].(size := w.size);
    }
  }

  lemma {:induction false} StillCovers(vs: seq<Vdisk>, ws: seq<Vdisk>, layout: Layout)
    requires SameButSizes(vs, ws) && Covers(vs, layout)
    ensures Covers(ws, layout)
  {
    hide Plain;
    forall w | w in ws ensures w.volume in layout || Plain(ws, w.name) {
      var i :| 0 <= i < |ws| && ws[i] == w;
      assert vs[i] in vs && w == vs[i].(size := w.size);
      SameSizesPlain(vs, ws, w.name);
    }
  }

  lemma {:induction false} ExtendWhole(d: Driver, volume: string, size: string, env: Env)
    requires Orderly(d.store) && d.writable && !d.barrier && AllWhole(d.store)
    ensures var after := ExtendVolume(d, volume, size, env).0; after.barrier || AllWhole(after.store)
  {
    hide Orderly, ExtendVolume, Covers, Whole, Healthy, Plain;
    var layout :| Healthy(d.store.vdisks, d.store.relations, layout) && Covers(d.store.vdisks, layout);
    var after := ExtendVolume(d, volume, size, env).0;
    InitiallyWhole(d.store, layout);
    ExtendKeepsWhole(d.store.vdisks, d, layout, volume, size, env);
    ExtendOrder(d, volume, size, env);
    if !after.barrier {
      WholeIsHealthy(d.store.vdisks, after.store, layout);
      StillCovers(d.store.vdisks, after.store.vdisks, layout);
    }
  }

  /* ---- runs ---- */

  lemma {:induction false} FinishedKept(s: State, id: nat, whole: bool)
    requires Kept(s, whole)
    ensures Kept(s.(maps := WithoutFinished(s.maps, id)), whole)
  {
    hide Housed, Kin, OneOnto, Plain, Home, EqualSizes, Sound, AllWhole;
    FinishedSound(s, id);
    var keep := (m: LcMap) => m.id != id || !m.autodelete;
    forall m, n | m in s.maps && n in s.maps && n.source == m.target && n.target == m.source
                  && Together(s.vdisks, m.source, m.target)
      ensures keep(m) && keep(n)
    {
      assert Proper(s.vdisks, s.maps, m) && Proper(s.vdisks, s.maps, n);
    }
    FilterMapOrder(s.vdisks, s.maps, keep);
    if whole { SameAllWhole(s, s.(maps := WithoutFinished(s.maps, id))); }
  }

  lemma {:induction false} StepKept(d: Driver, call: Call, whole: bool)
    requires Kept(d.store, whole) && !call.Extending?
    ensures Kept(Step(d, call).store, whole)
  {
    hide Kept, CreateVolume, CloneVolume, DeleteVolume, CreateSnapshot, DeleteSnapshot, WithoutFinished;
    match call {
      case Creating(name, gib, o) => CreateKept(d.store, name, gib, o, whole);
      case Cloning(name, gib, o, source, snapshot) => CloneKept(d.store, name, gib, o, source, snapshot, whole);
      case Deleting(name) => DeleteKept(d.store, name, whole);
      case Snapshotting(source, name) => SnapshotKept(d.store, source, name, whole);
      case DeletingSnapshot(name, settle) => DeleteSnapshotKept(d.store, name, settle, whole);
      case CopyFinished(id) => FinishedKept(d.store, id, whole);
      case ClockMoved(now) => ClockKept(d.store, if now != "" then now else d.store.now, whole);
    }
  }

  lemma {:induction false} ClockKept(s: State, now: string, whole: bool)
    requires Kept(s, whole) && (now == s.now || now != "")
    ensures Kept(s.(now := now), whole)
  {
    hide Orderly, AllWhole;
    OrderIgnoresFaults(s, s.faults, now);
    if whole { SameAllWhole(s, s.(now := now)); }
  }

  /** Over every run of volume operations with any failures, the tables keep their order. */
  lemma {:induction false} OrderlyRun(d: Driver, calls: seq<Call>)
    requires Orderly(d.store)
    ensures Orderly(Run(d, calls).store)
    decreases |calls|
  {
    hide Orderly, AllWhole, ExtendVolume, CreateVolume, CloneVolume, DeleteVolume, CreateSnapshot, DeleteSnapshot;
    if calls != [] {
      if calls[0].Extending? {
        ExtendOrder(d, calls[0].volume, calls[0].size, calls[0].env);
      } else {
        StepKept(d, calls[0], false);
      }
      OrderlyRun(Step(d, calls[0]), calls[1..]);
    }
  }

  /** Over every such run, barrier creation succeeding: the barrier stands, or every volume is one vdisk or a
      whole active-active volume. */
  lemma {:induction false} WholeRun(d: Driver, calls: seq<Call>)
    requires Orderly(d.store) && d.writable && (d.barrier || AllWhole(d.store))
    ensures var after := Run(d, calls); after.writable && (after.barrier || AllWhole(after.store))
    decreases |calls|
  {
    hide Orderly, AllWhole;
    if calls != [] {
      var call, next := calls[0], Step(d, calls[0]);
      if call.Extending? {
        ExtendOrder(d, call.volume, call.size, call.env);
        ExtendWritable(d, call.volume, call.size, call.env);
        if d.barrier {
          BarrierStops(d, call.volume, call.size, call.env);
        } else {
          ExtendWhole(d, call.volume, call.size, call.env);
        }
      } else {
        StepKept(d, call, !d.barrier);
        KeptOrderly(next.store, !d.barrier);
        StepBarrier(d, call);
      }
      hide Step;
      WholeRun(next, calls[1..]);
    }
  }

  lemma {:induction false} ExtendWritable(d: Driver, volume: string, size: string, env: Env)
    ensures ExtendVolume(d, volume, size, env).0.writable == d.writable
  {
    hide VolumeRows, BuildVolumeInfos, CheckExtend, RunScript, Execute, ParseStrSize, Atoi;
  }

  lemma {:induction false} StepBarrier(d: Driver, call: Call)
    requires !call.Extending?
    ensures Step(d, call).barrier == d.barrier && Step(d, call).writable == d.writable
  {
    hide CreateVolume, CloneVolume, DeleteVolume, CreateSnapshot, DeleteSnapshot;
  }

  /** From an empty array, whatever is called and whatever fails: the tables are in order, and unless an extend
      broke off and raised the barrier, every active-active volume is whole. */
  lemma {:induction false} FromEmptyArray(now: string, faults: seq<bool>, calls: seq<Call>)
    requires now != ""
    ensures var after := Run(Driver(State([], [], [], now, faults), false, true), calls);
      Orderly(after.store) && (after.barrier || AllWhole(after.store))
  {
    hide Orderly, AllWhole, Run;
    var d := Driver(State([], [], [], now, faults), false, true);
    EmptyIsOrderly(now, faults);
    EmptyIsWhole(d.store);
    OrderlyRun(d, calls);
    WholeRun(d, calls);
  }

  lemma {:induction false} EmptyIsWhole(s: State)
    requires s.vdisks == [] && s.relations == []
    ensures AllWhole(s)
  {
    assert Healthy(s.vdisks, s.relations, map[]) && Covers(s.vdisks, map[]);
  }
}
