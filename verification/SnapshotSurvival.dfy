/** Putting the snapshot results together: exactly which snapshots reported ready last, and that those taken
    after any run outlive every later run that does not delete them. */
module SnapshotSurvival {
  import opened Wrappers
  import opened Lists
  import opened VdiskArray
  import opened As18000
  import opened AaExtend
  import opened AaScript
  import opened ExtendSizes
  import opened ArrayInvariant
  import opened AaCreation
  import opened ArrayOrder
  import opened SnapshotStands
  import opened VolumeRuns
  import opened SnapshotRuns
  import opened SnapshotAtomic
  import opened RoundTrips
  import OrderRuns

  lemma {:induction false} NewPairStands(s: State, source: string, name: string)
    requires Sound(s) && Alone(s, source) && NameFree(s, name)
    ensures PairStands(s.vdisks + [SnapVdisk(s, source, name)], source, name)
  {
    hide NextVdiskId;
    var vs, v := s.vdisks, SnapVdisk(s, source, name);
    AppendDistinct(vs, v);
    AppendFound(vs, v, source);
    OrderRuns.SnapshotSize(s, source, name);
    assert v in (vs + [v]);
    FoundVdisk(vs + [v], v);
    assert FindVdisk(vs + [v], source).Some?;
    assert FindVdisk(vs, source).value in vs;
  }

  lemma {:induction false} NewMapIsOnly(s: State, source: string, name: string)
    requires Sound(s) && !Exists(s.vdisks, name)
    ensures MapStands(s.maps + [NewMap(s, source, name, s.now)], source, name)
  {
    FreeOfName(s, name);
    var m := NewMap(s, source, name, s.now);
    assert m in (s.maps + [m]);
  }

  /** A snapshot newly made of a basic volume stands. */
  lemma {:induction false} SnapshotIsDurable(s: State, source: string, name: string)
    requires Sound(s) && Alone(s, source) && !Known(s, source, name)
    requires CreateSnapshot(s, source, name).1.ready
    ensures Durable(CreateSnapshot(s, source, name).0, source, name)
  {
    hide Sound, CreateSnapshot, PairStands, MapStands, Durable, Answers, SnapVdisk, NewMap, StdTime, VolumeRows, Alone;
    SnapshotOutcome(s, source, name);
    var t := CreateSnapshot(s, source, name).0;
    NewPairStands(s, source, name);
    NewMapIsOnly(s, source, name);
    FreeNamesApart(s, source, name);
    SoundClock(s);
    DurableParts(t, source, name);
  }

  lemma {:induction false} FreeNamesApart(s: State, source: string, name: string)
    requires Sound(s) && Alone(s, source) && NameFree(s, name)
    ensures source != name && !Exists(s.vdisks, name) && Unmentioned(s.relations, source, name)
  {
    FreeOfName(s, name);
  }

  /* ---- which ready answers stand for a durable snapshot ---- */

  /** The first map listed onto the name stays, and both its vdisks are volumes of one vdisk. */
  predicate KeepsKnown(s: State, source: string, name: string)
    requires Known(s, source, name)
  {
    !MapsTo(s.maps, name)[0].autodelete && Plain(s.vdisks, source) && Plain(s.vdisks, name)
  }

  /** In an orderly array a ready answer stands for a durable snapshot exactly when the snapshot was new, or
      the map found under its name stays and is between two volumes of one vdisk. */
  lemma {:induction false} DurableExact(s: State, source: string, name: string)
    requires Orderly(s) && CreateSnapshot(s, source, name).1.ready
    ensures Durable(CreateSnapshot(s, source, name).0, source, name)
      <==> !Known(s, source, name) || KeepsKnown(s, source, name)
  {
    hide Orderly, CreateSnapshot, Durable, Known, KeepsKnown, Alone, VolumeRows;
    OrderlyParts(s);
    if !Known(s, source, name) {
      SnapshotOutcome(s, source, name);
      OneRowPlain(s, source);
      PlainAlone(s, source);
      SnapshotIsDurable(s, source, name);
    } else {
      KnownOutcome(s, source, name);
      var t := CreateSnapshot(s, source, name).0;
      if KeepsKnown(s, source, name) {
        KnownStands(s, source, name);
        DurableIgnoresFaults(s, t, source, name);
      }
      if Durable(t, source, name) { StandsKept(t, s, source, name); }
    }
  }

  lemma {:induction false} PlainAlone(s: State, name: string)
    requires Orderly(s) && Plain(s.vdisks, name)
    ensures Alone(s, name)
  {
    PlainUnrelated(s.vdisks, s.relations, name);
  }

  lemma {:induction false} StandsKept(t: State, s: State, source: string, name: string)
    requires Durable(t, source, name) && SameTables(t, s) && Known(s, source, name)
    ensures KeepsKnown(s, source, name)
  {
    assert MapsTo(s.maps, name)[0] in MapsTo(s.maps, name);
  }

  lemma {:induction false} KnownStands(s: State, source: string, name: string)
    requires Orderly(s) && Known(s, source, name) && KeepsKnown(s, source, name)
    requires MapsTo(s.maps, name)[0].startTime != ""
    ensures Durable(s, source, name)
  {
    hide Plain, Alone, Housed, Kin, Home;
    var first := MapsTo(s.maps, name)[0];
    assert first in MapsTo(s.maps, name) && first in s.maps && IsSnapshotMap(first, source, name);
    PlainAlone(s, source);
    PlainAlone(s, name);
    assert Proper(s.vdisks, s.maps, first);
    PlainTogether(s.vdisks, source);
    OnlyOnto(s.vdisks, s.maps, first);
  }

  lemma {:induction false} PlainTogether(vs: seq<Vdisk>, name: string)
    requires Plain(vs, name)
    ensures Together(vs, name, name)
  {}

  lemma {:induction false} OnlyOnto(vs: seq<Vdisk>, ms: seq<LcMap>, m: LcMap)
    requires OneOnto(vs, ms) && m in ms && Plain(vs, m.target)
    ensures forall n | n in ms && n.target == m.target :: n == m
  {
    hide Plain;
    var i :| 0 <= i < |ms| && ms[i] == m;
    forall n | n in ms && n.target == m.target ensures n == m {
      var j :| 0 <= j < |ms| && ms[j] == n;
    }
  }

  /** Any run from an orderly array, then a snapshot that is new or found to be one, perhaps asked for again,
      then any run that does not delete it: source and snapshot exist with equal size, and so does the started
      map between them. */
  lemma {:induction false} SnapshotSurvives(d: Driver, first: seq<Call>, source: string, snap: string, later: seq<Call>)
    requires Orderly(d.store)
    requires var s := Run(d, first).store;
      && CreateSnapshot(s, source, snap).1.ready
      && (!Known(s, source, snap) || KeepsKnown(s, source, snap))
    requires forall call | call in later :: Leaves(call, snap)
    ensures Durable(Run(d, first + [Snapshotting(source, snap)] + later).store, source, snap)
  {
    hide Orderly, CreateSnapshot, Durable, Leaves, Known, KeepsKnown, Run;
    var mid, call := Run(d, first), Snapshotting(source, snap);
    OrderRuns.OrderlyRun(d, first);
    DurableExact(mid.store, source, snap);
    OneStep(mid, call);
    DurableRun(Step(mid, call), later, source, snap);
    RunInTwo(d, first, [call]);
    RunInTwo(d, first + [call], later);
  }

  lemma {:induction false} OneStep(d: Driver, call: Call)
    ensures Run(d, [call]) == Step(d, call)
  {
    hide Step;
    assert [call][1..] == [];
  }

  /* ---- a clone is no snapshot ---- */

  lemma {:induction false} FinishedGoes(ms: seq<LcMap>, m: LcMap, id: nat)
    requires m.id == id && m.autodelete && forall n | n in ms :: n.id < id
    ensures WithoutFinished(ms + [m], id) == ms
  {
    var keep := (n: LcMap) => n.id != id || !n.autodelete;
    FilterAppend(ms, [m], keep);
    FilterAll(ms, keep);
    FilterNone([m], keep);
  }

  /** CreateSnapshot under the name of a clone of the same source answers ready, yet makes nothing, and
      when the clone's copy is finished no map onto it is left: such a snapshot is not durable. */
  lemma {:induction false} CloneIsNoSnapshot(s: State, name: string, gib: nat, o: Options, source: string)
    requires Sound(s) && s.faults == [] && source != ""
    requires CloneVolume(s, name, gib, o, source, "").1.Ok?
    ensures var t := CloneVolume(s, name, gib, o, source, "").0.(faults := []);
      var (u, r) := CreateSnapshot(t, source, name);
      && r.ready && u == t && !Durable(u, source, name)
      && MapsTo(WithoutFinished(u.maps, NextMapId(s.maps)), name) == []
  {
    hide CloneVolume, CreateSnapshot, MapsTo, StdTime, PairStands, PlainVdisk;
    SoundClock(s);
    CloneAllOrNothing(s, name, gib, o, source, "");
    var t := CloneVolume(s, name, gib, o, source, "").0.(faults := []);
    var m := CloneMap(s, source, name);
    OnlyMapTo(s, name, m);
    KnownAnswer(t, source, name, m);
    assert m in (s.maps + [m]) && m.autodelete && Spend(t) == t;
    FreeOfName(s, name);
    FinishedGoes(s.maps, m, m.id);
  }
  /* ---- nor is a change volume ---- */

  /** CreateSnapshot of an active-active volume under the name of its own change volume answers ready and
      makes nothing, although snapshots of such volumes are refused; the volume can still be deleted, the
      supposed snapshot with it. */
  lemma {:induction false} AaChangeIsNoSnapshot(s: State, name: string, gib: nat, o: Options)
    requires Sound(s) && s.faults == [] && o.level == Some("aa") && CreateVolume(s, name, gib, o).1.Ok?
    ensures var t, change := CreateVolume(s, name, gib, o).0, MasterChangeName(name);
      var (u, r) := CreateSnapshot(t, name, change);
      && r.ready && u == t && Exists(u.vdisks, change) && !Durable(u, name, change)
      && DeleteVolume(u, name) == (s, Ok(())) && !Exists(s.vdisks, change)
  {
    hide Can, Apply, Sound, CreateSnapshot, MapsTo, StdTime, DeleteVolume, FourLinks, MasterChangeName, Exists;
    var c, change := CreateCommand(name, gib, o).value, MasterChangeName(name);
    var t, link := Apply(s, c), LcMap(NextMapId(s.maps), name, change, s.now, false);
    SoundClock(s);
    NoFaultsAfter(s, c);
    AaCreateThenDelete(s, name, gib, o);
    NewVolumeAdded(s, c);
    ChangeNotAlone(s, c);
    OneOntoChange(s, name);
    KnownAnswer(t, name, change, link);
    assert Spend(t) == t;
  }

  lemma {:induction false} ChangeNotAlone(s: State, c: Command)
    requires c.MkVolume? && Can(s, c)
    ensures var t, change := Apply(s, c), MasterChangeName(c.name);
      Exists(t.vdisks, change) && !Exists(s.vdisks, change) && forall source :: !Durable(t, source, change)
  {
    hide NextVdiskId, AuxName, MasterChangeName, AuxChangeName, FourVdisks, Apply, AddLink, DistinctMapIds;
    FourFacts(s, c);
    TablesOfNew(s, c);
    var t, more := Apply(s, c), FourVdisks(s, c);
    assert more[2] in more && more[2] in t.vdisks;
    var r := t.relations[|s.relations|];
    assert r in t.relations && Mentions(r, MasterChangeName(c.name));
  }

  /** Of the four local copies, one goes onto the first change volume. */
  lemma {:induction false} OneOntoChange(s: State, name: string)
    requires Sound(s) && !Exists(s.vdisks, MasterChangeName(name))
    ensures var change := MasterChangeName(name);
      MapsTo(s.maps + FourLinks(s, name), change) == [LcMap(NextMapId(s.maps), name, change, s.now, false)]
  {
    hide NextMapId;
    VolumeNamesDiffer(name);
    var change := MasterChangeName(name);
    hide AuxName, MasterChangeName, AuxChangeName;
    var links := FourLinks(s, name);
    FreeOfName(s, change);
    FilterAppend(s.maps, links, (m: LcMap) => m.target == change);
    FilterNone(s.maps, (m: LcMap) => m.target == change);
    FilterNone(links[1..], (m: LcMap) => m.target == change);
    assert MapsTo(links, change) == [links[0]] + MapsTo(links[1..], change);
  }
}
