/** What creating, deleting and deleting a snapshot answer and leave under any failures. */
module VolumeOutcomes {
  import opened Wrappers
  import opened Text
  import opened Sizes
  import opened VdiskArray
  import opened As18000
  import opened AaExtend
  import opened AaScript
  import opened ArrayInvariant
  import opened ArrayOrder
  import opened VolumeRuns
  import opened SnapshotAtomic

  /* ---- creating ---- */

  /** The level, its pools and I/O groups. */
  predicate AaOptions(o: Options) {
    o.wellFormed && o.pool.Some? && o.auxPool.Some? && o.iogrp.Some? && o.auxIogrp.Some?
  }

  /** An active-active volume is created exactly when its options are complete, the command gets through and
      none of its four names is taken. Then its four vdisks are in the pools and I/O groups asked for. */
  lemma {:induction false} AaCreated(s: State, name: string, gib: nat, o: Options)
    requires Sound(s) && o.level == Some("aa")
    ensures var (t, r) := CreateVolume(s, name, gib, o);
      && (r.Ok? <==> AaOptions(o) && Answers(s, 0) && NameFree(s, name) && NameFree(s, AuxName(name))
                     && NameFree(s, MasterChangeName(name)) && NameFree(s, AuxChangeName(name)))
      && (r.Err? ==> SameTables(t, s) && r.error == if AaOptions(o) then ArrayFailure else BadOptions)
      && (r.Ok? ==>
            forall v | v in t.vdisks && v !in s.vdisks ::
              && v.volume == name && v.size == gib * GIB
              && (if v.name == name || v.name == MasterChangeName(name)
                  then v.pool == o.pool.value && v.iogrp == o.iogrp.value
                  else v.pool == o.auxPool.value && v.iogrp == o.auxIogrp.value))
  {
    hide NextVdiskId, NameFree, AddLink;
    VolumeNamesDiffer(name);
    hide AuxName, MasterChangeName, AuxChangeName;
  }

  /** Which options are refused, and how. */
  lemma {:induction false} CreateRefusals(s: State, name: string, gib: nat, o: Options)
    ensures var r := CreateVolume(s, name, gib, o).1;
      && (r == Err(BadLevel) <==> o.level.Some? && o.level.value !in ["basic", "mirror", "aa"])
      && (r == Err(BadOptions) <==>
            && (o.level.None? || o.level.value in ["basic", "mirror", "aa"])
            && (o.pool.None? || !o.wellFormed || (o.level in [Some("mirror"), Some("aa")] && o.auxPool.None?)
                || (o.level == Some("aa") && (o.iogrp.None? || o.auxIogrp.None?))))
      && (r.Err? && r.error != BadLevel && r.error != BadOptions ==> r.error == ArrayFailure)
  {
    hide Execute;
  }

  /** Why a clone is refused before anything is asked of the array; every other failure is the array's. */
  lemma {:induction false} CloneRefusals(s: State, name: string, gib: nat, o: Options, source: string, snapshot: string)
    ensures var r := CloneVolume(s, name, gib, o, source, snapshot).1;
      r.Err? ==>
        r.error == if o.level == Some("aa") then AaUnsupported
                   else if source == "" && snapshot == "" then NothingToClone
                   else if o.level.Some? && o.level.value !in ["basic", "mirror"] then BadLevel
                   else if o.pool.None? || !o.wellFormed || (o.level == Some("mirror") && o.auxPool.None?) then
                     BadOptions
                   else ArrayFailure
  {
    hide Execute;
  }

  /** Why a new snapshot is refused: the source is not there, is active-active, or has another number of vdisks. */
  lemma {:induction false} SnapshotRefusals(s: State, source: string, name: string)
    requires Orderly(s) && !Known(s, source, name)
    ensures var r, listed := CreateSnapshot(s, source, name).1, |InVolume(s.vdisks, source)|;
      r.error.Some? ==>
        r == Failed(if !Answers(s, 0) || !Answers(s, 1) then ArrayFailure
                    else if listed == 0 then NoVolume
                    else if listed == 4 then AaUnsupported
                    else if listed != 1 then CountInvalid
                    else ArrayFailure)
  {
    hide InVolume, MapsTo, MapSnapshot, Orderly, ParseStrSize, Decimal, Execute, Plain, StdTime;
    OrderlyParts(s);
    AnswersFrom(s, Spend(s));
    if |InVolume(s.vdisks, source)| == 1 {
      OneRowPlain(s, source);
      PlainExists(s.vdisks, source);
      assert FindVdisk(s.vdisks, source).Some?;
    }
    SnapshotErrors();
  }

  /** Once the snapshot is being made, what fails is the array. */
  lemma {:induction false} SnapshotErrors()
    ensures forall s, source, name ::
      var r := MapSnapshot(s, source, name).1; r.error.None? || r == Failed(ArrayFailure)
    ensures forall s, name, gib, v ::
      var r := CreateVolume(s, name, gib, SnapshotOptions(v)).1; r.Ok? || r.error == ArrayFailure
  {
    hide Execute, CleanUp, StdTime, MapsTo;
  }

  /* ---- deleting ---- */

  /** The volume may be deleted: one vdisk that is the source of no local copy, or four of which the one that has
      the volume's name is the source of at most one. */
  predicate Deletable(s: State, name: string) {
    || (|InVolume(s.vdisks, name)| == 1 && forall m | m in s.maps :: m.source != name)
    || (|InVolume(s.vdisks, name)| == 4 && |MapsFrom(s.maps, name)| <= 1)
  }

  /** The volume's vdisks are gone, and with them the maps and relationships that touch one. */
  ghost predicate VolumeGone(s: State, name: string, t: State) {
    var gone := NamesOf(s.vdisks, name);
    && (forall v :: v in t.vdisks <==> v in s.vdisks && v.volume != name)
    && (forall m :: m in t.maps <==> m in s.maps && m.source !in gone && m.target !in gone)
    && (forall q :: q in t.relations <==> q in s.relations && forall n | n in gone :: !Mentions(q, n))
  }

  /** The state once k answers have been spent. */
  function After(s: State, k: nat): State { s.(faults := if |s.faults| <= k then [] else s.faults[k..]) }

  lemma {:induction false} AfterFacts(s: State, k: nat)
    ensures SameTables(After(s, k), s) && After(s, 0) == s && Spend(After(s, k)) == After(s, k + 1)
    ensures Up(After(s, k)) <==> Answers(s, k)
  {}

  /** What DeleteVolume does, whatever fails: a volume that is not there counts as deleted, one that may be deleted is
      deleted when its two queries and the command get through, and in all other cases nothing is changed. */
  lemma {:induction false} DeleteOutcome(s: State, name: string)
    requires Orderly(s)
    ensures var (t, r) := DeleteVolume(s, name);
      var listed := |InVolume(s.vdisks, name)|;
      && (r.Ok? <==> Answers(s, 0) && (listed == 0 || (Answers(s, 1) && Answers(s, 2) && Deletable(s, name))))
      && (if r.Ok? && listed > 0 then VolumeGone(s, name, t) else SameTables(t, s))
      && (r.Err? ==> r.error == if !Answers(s, 0) then ArrayFailure
                                else if listed != 1 && listed != 4 then CountInvalid
                                else if !Answers(s, 1) then ArrayFailure
                                else if !Deletable(s, name) then SourceOfMaps
                                else ArrayFailure)
  {
    hide InVolume, MapsFrom, Orderly, VolumeGone, Execute, After, Answers;
    AfterFacts(s, 0);
    AfterFacts(s, 1);
    AfterFacts(s, 2);
    NoneFrom(s.maps, name);
    var s2, listed := After(s, 2), |InVolume(s.vdisks, name)|;
    OrderIgnoresFaults(s, s2.faults, s.now);
    hide Up, Spend;
    if listed == 1 || listed == 4 { VolumeRemoved(s2, name); }
    SameVolumeGone(s, s2, name);
  }

  lemma {:induction false} SameVolumeGone(s: State, t: State, name: string)
    requires SameTables(t, s)
    ensures forall u :: VolumeGone(t, name, u) <==> VolumeGone(s, name, u)
  {
    hide Mentions, NamesOf;
  }

  lemma {:induction false} VolumeRemoved(s: State, name: string)
    requires Orderly(s) && |InVolume(s.vdisks, name)| in [1, 4]
    ensures var c := if |InVolume(s.vdisks, name)| == 1 then RmVdisk(name) else RmVolume(name);
      var (t, ok) := Execute(s, c);
      (ok <==> Up(s)) && if ok then VolumeGone(s, name, t) else SameTables(t, s)
  {
    hide InVolume, Mentions, Orderly, DropVolume, DropRelationsOf, DropMaps, NamesOf, Execute;
    TablesRemoved(s, name);
    RemovedVolume(s, name);
  }

  lemma {:induction false} TablesRemoved(s: State, name: string)
    requires Orderly(s) && |InVolume(s.vdisks, name)| in [1, 4]
    ensures var c := if |InVolume(s.vdisks, name)| == 1 then RmVdisk(name) else RmVolume(name);
      var (t, ok) := Execute(s, c);
      var gone := NamesOf(s.vdisks, name);
      && (ok <==> Up(s)) && (!ok ==> SameTables(t, s))
      && (ok ==> t.vdisks == DropVolume(s.vdisks, name) && t.relations == DropRelationsOf(s.relations, gone)
                 && t.maps == DropMaps(s.maps, gone))
  {
    hide InVolume, Orderly, Plain, DropVolume, DropRelationsOf, DropMaps, DropVdisk, NamesOf;
    OrderlyParts(s);
    SomeNamed(s.vdisks, name);
    if |InVolume(s.vdisks, name)| == 1 {
      OneRowPlain(s, name);
      PlainRemoval(s, name);
      PlainExists(s.vdisks, name);
    }
  }

  lemma {:induction false} PlainExists(vs: seq<Vdisk>, name: string)
    requires Plain(vs, name)
    ensures Exists(vs, name)
  {}

  lemma {:induction false} SomeNamed(vs: seq<Vdisk>, name: string)
    requires |InVolume(vs, name)| > 0
    ensures NamesOf(vs, name) != {}
  {
    var v := InVolume(vs, name)[0];
    assert v in InVolume(vs, name) && v.name in NamesOf(vs, name);
  }

  lemma {:induction false} NoneFrom(ms: seq<LcMap>, name: string)
    ensures |MapsFrom(ms, name)| == 0 <==> forall m | m in ms :: m.source != name
  {
    forall m | m in ms && m.source == name ensures |MapsFrom(ms, name)| > 0 { assert m in MapsFrom(ms, name); }
    if |MapsFrom(ms, name)| > 0 { assert MapsFrom(ms, name)[0] in MapsFrom(ms, name); }
  }

  lemma {:induction false} RemovedVolume(s: State, name: string)
    ensures forall v :: v in DropVolume(s.vdisks, name) <==> v in s.vdisks && v.volume != name
    ensures var gone := NamesOf(s.vdisks, name);
      && (forall m :: m in DropMaps(s.maps, gone) <==> m in s.maps && m.source !in gone && m.target !in gone)
      && (forall q :: q in DropRelationsOf(s.relations, gone)
                      <==> q in s.relations && forall n | n in gone :: !Mentions(q, n))
  {
    hide Mentions, NamesOf;
  }

  /* ---- deleting a snapshot ---- */

  /** After the i-th query the next one is made. */
  predicate GoesOn(s: State, first: nat, settle: nat, i: nat) { Answers(s, first + i) && i != settle }

  /** k queries are made to see the map stop, the first being the one numbered `first`: until it has, until one
      fails, or twenty. */
  predicate Polls(s: State, first: nat, settle: nat, k: nat) {
    && 1 <= k <= 20
    && (forall i: nat | i < k - 1 :: GoesOn(s, first, settle, i))
    && (k == 20 || !GoesOn(s, first, settle, k - 1))
  }

  lemma {:induction false} OnePollCount(s: State, first: nat, settle: nat, k: nat, n: nat)
    requires Polls(s, first, settle, k) && Polls(s, first, settle, n)
    ensures k == n
  {
    hide GoesOn;
  }

  lemma {:induction false} PollCount(s: State, first: nat, name: string, settle: nat, done: nat) returns (k: nat)
    requires MapsTo(s.maps, name) != [] && done < 20 && done <= settle
    requires forall i: nat | i < done :: GoesOn(s, first, settle, i)
    ensures Polls(s, first, settle, k)
    ensures Poll(After(s, first + done), name, settle - done, 20 - done) == After(s, first + k)
    decreases 20 - done
  {
    hide MapsTo, After, Up, Spend;
    AfterFacts(s, first + done);
    if !Up(After(s, first + done)) || settle == done || done == 19 {
      k := done + 1;
    } else {
      k := PollCount(s, first, name, settle, done + 1);
    }
  }

  /** A snapshot that is not there counts as deleted. */
  lemma {:induction false} NoSnapshot(s: State, name: string, settle: nat)
    requires MapsTo(s.maps, name) == []
    ensures var (t, r) := DeleteSnapshot(s, name, settle);
      SameTables(t, s) && r == if Answers(s, 0) then Ok(()) else Err(ArrayFailure)
  {
    hide MapsTo;
  }

  /** What is left of the tables once the snapshot is gone, or once its map alone may be. */
  ghost predicate SnapshotGone(s: State, name: string, t: State) {
    && (forall v :: v in t.vdisks <==> v in s.vdisks && v.name != name)
    && (forall m :: m in t.maps <==> m in s.maps && m.target != name)
    && (forall q :: q in t.relations <==> q in s.relations && !Mentions(q, name))
  }

  ghost predicate MapGone(s: State, gone: bool, first: LcMap, t: State) {
    && t.vdisks == s.vdisks && t.relations == s.relations
    && forall m :: m in t.maps <==> m in s.maps && !(gone && m == first)
  }

  /** What DeleteSnapshot does, whatever fails. It succeeds when no map comes from the snapshot, and its two queries
      and the last command get through; whether the map stops, can be asked about or removed by itself does not
      matter. A failure changes nothing but that the map may be gone. */
  lemma {:induction false} DeleteSnapshotOutcome(s: State, name: string, settle: nat)
    requires Sound(s) && MapsTo(s.maps, name) != []
    ensures exists k: nat :: Polls(s, 3, settle, k)
    ensures forall k: nat | Polls(s, 3, settle, k) ::
      var (t, r) := DeleteSnapshot(s, name, settle);
      var begun := Answers(s, 0) && Answers(s, 1) && forall m | m in s.maps :: m.source != name;
      && (r.Ok? <==> begun && Answers(s, 4 + k))
      && (r.Ok? ==> SnapshotGone(s, name, t))
      && (r.Err? ==> MapGone(s, begun && Answers(s, 3 + k), MapsTo(s.maps, name)[0], t))
      && (r.Err? ==> r.error == if Answers(s, 0) && Answers(s, 1) && !begun then SourceOfMaps else ArrayFailure)
  {
    hide DeleteSnapshot, Polls, Answers, SnapshotGone, MapGone, MapsTo, Sound, After;
    var k := PollCount(s, 3, name, settle, 0);
    forall n: nat | Polls(s, 3, settle, n) ensures n == k { OnePollCount(s, 3, settle, k, n); }
    AfterCount(s, name, settle, k);
  }

  lemma {:induction false} AfterCount(s: State, name: string, settle: nat, k: nat)
    requires Sound(s) && MapsTo(s.maps, name) != [] && Poll(After(s, 3), name, settle, 20) == After(s, 3 + k)
    ensures var (t, r) := DeleteSnapshot(s, name, settle);
      var begun := Answers(s, 0) && Answers(s, 1) && forall m | m in s.maps :: m.source != name;
      && (r.Ok? <==> begun && Answers(s, 4 + k))
      && (r.Ok? ==> SnapshotGone(s, name, t))
      && (r.Err? ==> MapGone(s, begun && Answers(s, 3 + k), MapsTo(s.maps, name)[0], t))
      && (r.Err? ==> r.error == if Answers(s, 0) && Answers(s, 1) && !begun then SourceOfMaps else ArrayFailure)
  {
    hide MapsFrom, MapsTo, Sound, SnapshotGone, Execute, After, Poll, Answers;
    var s4 := After(s, 3 + k);
    AfterFacts(s, 0);
    AfterFacts(s, 1);
    AfterFacts(s, 2);
    AfterFacts(s, 3 + k);
    NoneFrom(s.maps, name);
    StopSpends(After(s, 2), MapsTo(s.maps, name)[0].id);
    SameTablesSound(s, s4);
    LaterAnswer(s, 3 + k);
    hide Up, Spend;
    if forall m | m in s.maps :: m.source != name { LastTwo(s4, name, MapsTo(s.maps, name)[0].id); }
    SameGone(s, s4, name);
  }

  lemma {:induction false} StopSpends(s: State, id: nat)
    ensures Execute(s, StopLcMap(id)).0 == Spend(s)
  {
    hide HasMap;
  }

  lemma {:induction false} LaterAnswer(s: State, k: nat)
    ensures Answers(After(s, k), 0) <==> Answers(s, k)
    ensures Answers(After(s, k), 1) <==> Answers(s, k + 1)
  {}

  lemma {:induction false} SameGone(s: State, t: State, name: string)
    requires SameTables(t, s)
    ensures forall u :: SnapshotGone(t, name, u) <==> SnapshotGone(s, name, u)
  {}

  /** Removing the map, and then the vdisk with what is left of its maps. */
  lemma {:induction false} LastTwo(s: State, name: string, id: nat)
    requires Sound(s) && MapsTo(s.maps, name) != [] && id == MapsTo(s.maps, name)[0].id
    requires forall m | m in s.maps :: m.source != name
    ensures var t1 := Execute(s, RmLcMap(id)).0;
      var (t, ok) := Execute(t1, RmVdisk(name));
      && (ok <==> Answers(s, 1))
      && (ok ==> SnapshotGone(s, name, t))
      && (!ok ==> MapGone(s, Answers(s, 0), MapsTo(s.maps, name)[0], t))
  {
    hide SnapshotGone, Execute, MapsTo, Sound, Exists;
    var first, t1 := MapsTo(s.maps, name)[0], Execute(s, RmLcMap(id)).0;
    FirstRemoved(s, name);
    AnswersFrom(s, t1);
    RemovedVdisk(t1, name);
    MapLess(s, t1, first, Answers(s, 0), Execute(t1, RmVdisk(name)).0);
  }

  lemma {:induction false} MapLess(s: State, t1: State, first: LcMap, gone: bool, t: State)
    requires MapGone(s, gone, first, t1)
    ensures SameTables(t, t1) ==> MapGone(s, gone, first, t)
    ensures SnapshotGone(t1, first.target, t) ==> SnapshotGone(s, first.target, t)
  {
    hide Mentions;
  }

  /** Removing the first map onto the name. */
  lemma {:induction false} FirstRemoved(s: State, name: string)
    requires Sound(s) && MapsTo(s.maps, name) != []
    ensures var first := MapsTo(s.maps, name)[0];
      var t := Execute(s, RmLcMap(first.id)).0;
      && first.target == name && Exists(s.vdisks, name) && t.faults == Spend(s).faults
      && MapGone(s, Answers(s, 0), first, t)
  {
    hide Exists, DistinctVdisks, WholeGib, RelationsAttached;
    var first := MapsTo(s.maps, name)[0];
    assert first in MapsTo(s.maps, name) && first in s.maps && first.target == name;
    forall m | m in s.maps && m.id == first.id ensures m == first { OrderIds(s.maps, m, first); }
    hide MapsTo, DistinctMapIds;
    assert HasMap(s.maps, first.id);
  }

  lemma {:induction false} RemovedVdisk(s: State, name: string)
    requires Exists(s.vdisks, name) && forall m | m in s.maps :: m.source != name
    ensures var (t, ok) := Execute(s, RmVdisk(name));
      (ok <==> Up(s)) && (ok ==> SnapshotGone(s, name, t)) && (!ok ==> SameTables(t, s))
  {
    hide Exists, Mentions;
    forall q: Relation ensures (forall n | n in {name} :: !Mentions(q, n)) <==> !Mentions(q, name) {
      assert name in {name};
    }
  }

  lemma {:induction false} OrderIds(ms: seq<LcMap>, m: LcMap, n: LcMap)
    requires DistinctMapIds(ms) && m in ms && n in ms && m.id == n.id
    ensures m == n
  {
    var i :| 0 <= i < |ms| && ms[i] == m;
    var j :| 0 <= j < |ms| && ms[j] == n;
  }
}
