/** Clones are all or nothing too, and deleting undoes creating: for basic and active-active volumes, clones
    and snapshots. */
module RoundTrips {
  import opened Wrappers
  import opened Lists
  import opened Sizes
  import opened VdiskArray
  import opened As18000
  import opened AaExtend
  import opened AaScript
  import opened ExtendSizes
  import opened ArrayInvariant
  import opened SnapshotStands
  import opened VolumeRuns
  import opened SnapshotAtomic
  import AaCreation
  import SnapshotRuns

  /* ---- what creating adds ---- */

  /** The vdisk a volume that is not active-active consists of. */
  function PlainVdisk(s: State, name: string, gib: nat, o: Options): Vdisk {
    Vdisk(NextVdiskId(s.vdisks), name, name, OrEmpty(o.pool), OrEmpty(o.iogrp), gib * GIB)
  }

  predicate PlainOptions(o: Options) {
    && o.wellFormed && o.pool.Some?
    && (o.level.None? || o.level.value == "basic" || (o.level.value == "mirror" && o.auxPool.Some?))
  }

  lemma {:induction false} PlainCreated(s: State, name: string, gib: nat, o: Options)
    requires o.level != Some("aa")
    ensures var (t, r) := CreateVolume(s, name, gib, o);
      if PlainOptions(o) then
        && (r.Ok? <==> Answers(s, 0) && NameFree(s, name))
        && t == (if r.Ok? then With(s, PlainVdisk(s, name, gib, o), [], Spend(s).faults)
                 else s.(faults := Spend(s).faults))
      else r.Err? && t == s
  {
    hide NextVdiskId;
    assert s.maps + [] == s.maps;
  }

  /* ---- cloning ---- */

  /** The map of a clone, which deletes itself once the copy is done. */
  function CloneMap(s: State, source: string, name: string): LcMap {
    LcMap(NextMapId(s.maps), source, name, s.now, true)
  }

  /** A map from a vdisk that is not there is refused. */
  lemma {:induction false} MapRefused(s: State, v: Vdisk, source: string, faults: seq<bool>)
    requires !Exists(s.vdisks, source)
    ensures var t := With(s, v, [], faults);
      Execute(t, MkLcMap(source, v.name, true)) == (With(s, v, [], Spend(t).faults), false)
  {
    hide NextMapId;
    assert source != v.name ==> !Exists(s.vdisks + [v], source);
  }

  lemma {:induction false} CloneMapped(s: State, v: Vdisk, source: string, faults: seq<bool>)
    requires Sound(s) && !Exists(s.vdisks, v.name)
    ensures var t := With(s, v, [], faults);
      var (t1, made) := Execute(t, MkLcMap(source, v.name, true));
      var (t2, started) := Execute(t1, StartLcMap(NextMapId(s.maps)));
      var undone := if made then Execute(Execute(t2, StopLcMap(NextMapId(s.maps))).0, RmVdisk(v.name)).0
                    else Execute(t1, RmVdisk(v.name)).0;
      && (made <==> Answers(t, 0) && Exists(s.vdisks, source)) && (made ==> (started <==> Answers(t, 1)))
      && (made && started ==> t2 == With(s, v, [CloneMap(s, source, v.name)], t2.faults))
      && (!(made && started) ==>
            if Answers(t, if made then 3 else 1) then SameTables(undone, s) else Left(s, v, undone))
  {
    hide Execute, Sound, Exists, NextMapId;
    var t := With(s, v, [], faults);
    var m := NewMap(s, source, v.name, "").(autodelete := true);
    if Exists(s.vdisks, source) { MapMade(s, v, source, true, faults); } else { MapRefused(s, v, source, faults); }
    var (t1, made) := Execute(t, MkLcMap(source, v.name, true));
    AnswersFrom(t, t1);
    if made {
      MapStarted(s, v, m, t1.faults);
      var (t2, started) := Execute(t1, StartLcMap(m.id));
      AnswersFrom(t1, t2);
      MapStop(s, v, m, t2.faults);
      AnswersFrom(t2, Spend(t2));
      RemovalUndoes(s, v, [m], Spend(t2).faults);
      var t3 := With(s, v, [m], Spend(t2).faults);
      LeftAsIs(s, v, [m], Execute(t3, RmVdisk(v.name)).0, t3);
    } else {
      RemovalUndoes(s, v, [], t1.faults);
      LeftAsIs(s, v, [], Execute(t1, RmVdisk(v.name)).0, t1);
    }
  }

  /** The vdisk a clone is copied from: the volume named, or else the snapshot. */
  function CloneSource(source: string, snapshot: string): string { if source != "" then source else snapshot }

  /** The clone's own vdisk can be made. */
  predicate CloneMakable(s: State, name: string, o: Options, source: string, snapshot: string) {
    && o.level != Some("aa") && (source != "" || snapshot != "") && PlainOptions(o) && NameFree(s, name)
  }

  /** The answer the clean-up's rmvdisk gets. */
  function CloneRemoval(s: State, from: string): nat { if Exists(s.vdisks, from) && Answers(s, 1) then 4 else 2 }

  /** What CloneVolume does, for any source and any failures. It succeeds exactly when its vdisk can be made,
      the source exists and its three commands get through, and then has added one vdisk and one started,
      self-deleting map. When it fails, everything is as before, except when the vdisk had been created and
      the clean-up's last command fails too. */
  lemma {:induction false} CloneOutcome(s: State, name: string, gib: nat, o: Options, source: string,
                                        snapshot: string)
    requires Sound(s)
    ensures var (t, r) := CloneVolume(s, name, gib, o, source, snapshot);
      var from, v := CloneSource(source, snapshot), PlainVdisk(s, name, gib, o);
      if CloneMakable(s, name, o, source, snapshot) && Exists(s.vdisks, from) && AllAnswer(s, 0, 3) then
        r == Ok(()) && t == With(s, v, [CloneMap(s, from, name)], t.faults)
      else
        && r.Err?
        && (if CloneMakable(s, name, o, source, snapshot) && Answers(s, 0) && !Answers(s, CloneRemoval(s, from)) then
              Left(s, v, t)
            else SameTables(t, s))
  {
    hide Execute, Sound, Exists, NextMapId, CreateVolume, PlainVdisk, NameFree;
    var from, v := CloneSource(source, snapshot), PlainVdisk(s, name, gib, o);
    if o.level != Some("aa") && !(source == "" && snapshot == "") {
      PlainCreated(s, name, gib, o);
      var (s1, created) := CreateVolume(s, name, gib, o);
      if created.Ok? {
        PlainName(s, name, gib, o);
        FreeName(s, name);
        AnswersFrom(s, s1);
        CloneMapped(s, v, from, Spend(s).faults);
        assert s1.maps == s.maps by { NoMoreMaps(s); }
      }
    }
  }

  /** With at most one failure: a failed CloneVolume has changed nothing, unless the source is missing and
      the failure hits the removal of the vdisk made for it. */
  lemma {:induction false} CloneAllOrNothing(s: State, name: string, gib: nat, o: Options, source: string,
                                             snapshot: string)
    requires Sound(s) && AtMostOneFault(s)
    ensures var (t, r) := CloneVolume(s, name, gib, o, source, snapshot);
      var from := CloneSource(source, snapshot);
      if r.Err? then
        SameTables(t, s)
        <==> !(CloneMakable(s, name, o, source, snapshot) && !Exists(s.vdisks, from) && !Answers(s, 2))
      else
        && !Exists(s.vdisks, name) && Exists(s.vdisks, from)
        && t == With(s, PlainVdisk(s, name, gib, o), [CloneMap(s, from, name)], t.faults)
  {
    hide Sound, Exists, NextMapId, CloneVolume, PlainVdisk, NameFree, Left, Answers;
    CloneOutcome(s, name, gib, o, source, snapshot);
    AtMostOneAnswerMissing(s);
    var t := CloneVolume(s, name, gib, o, source, snapshot).0;
    if Left(s, PlainVdisk(s, name, gib, o), t) { LeftDiffers(s, PlainVdisk(s, name, gib, o), t); }
    if NameFree(s, name) { FreeName(s, name); }
  }

  lemma {:induction false} LeftDiffers(s: State, v: Vdisk, t: State)
    requires Left(s, v, t)
    ensures !SameTables(t, s)
  {
    var more :| t == With(s, v, more, t.faults);
    assert |t.vdisks| == |s.vdisks| + 1;
  }

  lemma {:induction false} NoMoreMaps(s: State)
    ensures s.maps + [] == s.maps
  {}

  lemma {:induction false} PlainName(s: State, name: string, gib: nat, o: Options)
    ensures PlainVdisk(s, name, gib, o).name == name && PlainVdisk(s, name, gib, o).volume == name
  {}

  lemma {:induction false} FreeName(s: State, name: string)
    requires NameFree(s, name)
    ensures !Exists(s.vdisks, name)
  {}

  lemma {:induction false} AtMostOneAnswerMissing(s: State)
    requires AtMostOneFault(s)
    ensures forall i: nat, j: nat | i < j :: Answers(s, i) || Answers(s, j)
  {}

  /* ---- deleting undoes creating ---- */

  lemma {:induction false} ListedOnce(s: State, v: Vdisk, more: seq<LcMap>)
    requires Sound(s) && NameFree(s, v.name) && v.volume == v.name
    requires forall m | m in more :: m.source != v.name
    ensures var t := With(s, v, more, []);
      |VolumeRows(t, v.name)| == 1 && MapsFrom(t.maps, v.name) == []
  {
    var name := v.name;
    FilterAppend(s.vdisks, [v], (w: Vdisk) => w.volume == name);
    FilterNone(s.vdisks, (w: Vdisk) => w.volume == name);
    assert InVolume([v], name) == [v] + InVolume([], name);
    FreeOfName(s, name);
    FilterNone(s.maps + more, (m: LcMap) => m.source == name);
  }

  lemma {:induction false} DeleteUndoes(s: State, v: Vdisk, more: seq<LcMap>)
    requires Sound(s) && NameFree(s, v.name) && v.volume == v.name
    requires forall m | m in more :: m.target == v.name && m.source != v.name
    ensures DeleteVolume(With(s, v, more, []), v.name) == (s.(faults := []), Ok(()))
  {
    hide Execute, Sound, VolumeRows, MapsFrom;
    var t := With(s, v, more, []);
    ListedOnce(s, v, more);
    RemovalUndoes(s, v, more, []);
    assert Spend(t) == t && Answers(t, 0);
  }

  /** Creating a volume that is not active-active and deleting it leaves the array as it was. */
  lemma {:induction false} CreateThenDelete(s: State, name: string, gib: nat, o: Options)
    requires Sound(s) && s.faults == [] && o.level != Some("aa") && CreateVolume(s, name, gib, o).1.Ok?
    ensures DeleteVolume(CreateVolume(s, name, gib, o).0, name) == (s, Ok(()))
  {
    hide DeleteVolume, CreateVolume, Sound, PlainVdisk;
    PlainCreated(s, name, gib, o);
    PlainName(s, name, gib, o);
    DeleteUndoes(s, PlainVdisk(s, name, gib, o), []);
  }

  lemma {:induction false} CloneFree(s: State, name: string, gib: nat, o: Options, source: string, snapshot: string)
    requires CloneVolume(s, name, gib, o, source, snapshot).1.Ok?
    ensures o.level != Some("aa") && NameFree(s, name) && (source != "" || snapshot != "")
  {
    hide Execute, CreateVolume, NameFree;
    PlainCreated(s, name, gib, o);
    assert CreateVolume(s, name, gib, o).1.Ok?;
  }

  /** So does cloning and deleting the clone. */
  lemma {:induction false} CloneThenDelete(s: State, name: string, gib: nat, o: Options, source: string,
                                           snapshot: string)
    requires Sound(s) && s.faults == [] && CloneVolume(s, name, gib, o, source, snapshot).1.Ok?
    ensures var t := CloneVolume(s, name, gib, o, source, snapshot).0;
      DeleteVolume(t.(faults := []), name) == (s, Ok(()))
  {
    hide DeleteVolume, CloneVolume, Sound, PlainVdisk, NextMapId;
    CloneAllOrNothing(s, name, gib, o, source, snapshot);
    CloneFree(s, name, gib, o, source, snapshot);
    PlainName(s, name, gib, o);
    var m := CloneMap(s, CloneSource(source, snapshot), name);
    DeleteUndoes(s, PlainVdisk(s, name, gib, o), [m]);
  }

  lemma {:induction false} PollFaultFree(s: State, name: string, settle: nat, rounds: nat)
    requires s.faults == []
    ensures Poll(s, name, settle, rounds) == s
    decreases rounds
  {
    hide MapsTo;
    assert Spend(s) == s;
    if rounds > 0 && settle > 0 { PollFaultFree(s, name, settle - 1, rounds - 1); }
  }

  /** Taking a snapshot and deleting it leaves the array as it was, however long its map takes to stop. */
  lemma {:induction false} SnapshotThenDelete(s: State, source: string, name: string, settle: nat)
    requires Sound(s) && s.faults == [] && !Known(s, source, name) && CreateSnapshot(s, source, name).1.ready
    ensures var t := CreateSnapshot(s, source, name).0;
      DeleteSnapshot(t.(faults := []), name, settle) == (s, Ok(()))
  {
    hide CreateSnapshot, Execute, Sound, VolumeRows, SnapVdisk, NextMapId, MapsTo, MapsFrom, Poll, Exists, StdTime;
    SnapshotOutcome(s, source, name);
    var v, m := SnapVdisk(s, source, name), NewMap(s, source, name, s.now);
    var t := With(s, v, [m], []);
    FreeName(s, name);
    SnapName(s, source, name);
    SourceIsOther(s, source, name);
    OnlyMapTo(s, name, m);
    ListedOnce(s, v, [m]);
    MapStop(s, v, m, []);
    PollFaultFree(t, name, settle, POLL_ROUNDS);
    MapRemoval(s, v, m, []);
    RemovalUndoes(s, v, [], []);
    assert Spend(t) == t && Answers(t, 0);
    assert Execute(t, StopLcMap(m.id)).0 == t;
    var u := With(s, v, [], []);
    assert Execute(t, RmLcMap(m.id)).0 == u && Spend(u) == u && Answers(u, 0);
  }

  lemma {:induction false} SnapName(s: State, source: string, name: string)
    requires Exists(s.vdisks, source)
    ensures SnapVdisk(s, source, name).name == name && SnapVdisk(s, source, name).volume == name
  {}

  lemma {:induction false} SourceIsOther(s: State, source: string, name: string)
    requires Exists(s.vdisks, source) && !Exists(s.vdisks, name)
    ensures source != name
  {}

  /* ---- active-active volumes ---- */

  lemma {:induction false} FourDropped(vs: seq<Vdisk>, more: seq<Vdisk>, volume: string)
    requires (forall v | v in vs :: v.volume != volume) && forall v | v in more :: v.volume == volume
    ensures DropVolume(vs + more, volume) == vs && InVolume(vs + more, volume) == more
    ensures NamesOf(vs + more, volume) == set v | v in more :: v.name
  {
    FilterAppend(vs, more, (v: Vdisk) => v.volume != volume);
    FilterAll(vs, (v: Vdisk) => v.volume != volume);
    FilterNone(more, (v: Vdisk) => v.volume != volume);
    FilterAppend(vs, more, (v: Vdisk) => v.volume == volume);
    FilterNone(vs, (v: Vdisk) => v.volume == volume);
    FilterAll(more, (v: Vdisk) => v.volume == volume);
  }

  lemma {:induction false} RelationDropped(rs: seq<Relation>, r: Relation, gone: set<string>)
    requires (forall q | q in rs :: forall name | name in gone :: !Mentions(q, name)) && r.master in gone
    ensures DropRelationsOf(rs + [r], gone) == rs
  {
    FilterAppend(rs, [r], (q: Relation) => forall name | name in gone :: !Mentions(q, name));
    FilterAll(rs, (q: Relation) => forall name | name in gone :: !Mentions(q, name));
    assert Mentions(r, r.master);
    FilterNone([r], (q: Relation) => forall name | name in gone :: !Mentions(q, name));
  }

  /** The four local copies between a new volume's vdisks and their change volumes. */
  function FourLinks(s: State, name: string): seq<LcMap> {
    var id := NextMapId(s.maps);
    var (aux, mcv, acv) := (AuxName(name), MasterChangeName(name), AuxChangeName(name));
    [LcMap(id, name, mcv, s.now, false), LcMap(id + 1, mcv, name, s.now, false),
     LcMap(id + 2, aux, acv, s.now, false), LcMap(id + 3, acv, aux, s.now, false)]
  }

  lemma {:induction false} NextAfterLink(ms: seq<LcMap>, base: string, change: string, now: string)
    ensures NextMapId(AddLink(ms, base, change, now)) == NextMapId(ms) + 2
  {
    var id := NextMapId(ms);
    var one, two := LcMap(id, base, change, now, false), LcMap(id + 1, change, base, now, false);
    NextMapAppend(ms, one);
    NextMapAppend(ms + [one], two);
    assert ms + [one] + [two] == ms + [one, two];
  }

  lemma {:induction false} NextMapAppend(ms: seq<LcMap>, m: LcMap)
    requires forall n | n in ms :: n.id < m.id
    ensures NextMapId(ms + [m]) == m.id + 1
  {
    if ms != [] {
      assert (ms + [m])[1..] == ms[1..] + [m] && ms[0] in ms;
      NextMapAppend(ms[1..], m);
    } else {
      assert ([] + [m])[1..] == [];
    }
  }

  lemma {:induction false} LinksAdded(s: State, name: string)
    ensures AddLink(AddLink(s.maps, name, MasterChangeName(name), s.now), AuxName(name), AuxChangeName(name), s.now)
      == s.maps + FourLinks(s, name)
  {
    hide NextMapId, AuxName, MasterChangeName, AuxChangeName;
    NextAfterLink(s.maps, name, MasterChangeName(name), s.now);
  }

  /** Exactly one of the four local copies has the volume itself as its source, which is why one is allowed
      when an active-active volume is deleted. */
  lemma {:induction false} OneFromVolume(s: State, name: string)
    requires Sound(s) && !Exists(s.vdisks, name)
    ensures |MapsFrom(s.maps + FourLinks(s, name), name)| == 1
  {
    hide NextMapId;
    VolumeNamesDiffer(name);
    hide AuxName, MasterChangeName, AuxChangeName;
    var links := FourLinks(s, name);
    FreeOfName(s, name);
    FilterAppend(s.maps, links, (m: LcMap) => m.source == name);
    FilterNone(s.maps, (m: LcMap) => m.source == name);
    FilterNone(links[1..], (m: LcMap) => m.source == name);
    assert MapsFrom(links, name) == [links[0]] + MapsFrom(links[1..], name);
  }

  function FourNames(name: string): set<string> {
    {name, AuxName(name), MasterChangeName(name), AuxChangeName(name)}
  }

  /** The tables a new active-active volume is added to: its vdisks, its relationship and its links. */
  lemma {:induction false} NewVolumeAdded(s: State, c: Command)
    requires c.MkVolume? && Can(s, c)
    ensures var t, n := Apply(s, c), |s.vdisks|;
      && |t.vdisks| == n + 4 && t.vdisks[..n] == s.vdisks && t.now == s.now && t.faults == s.faults
      && (forall v | v in t.vdisks[n..] :: v.volume == c.name)
      && (set v | v in t.vdisks[n..] :: v.name) == FourNames(c.name)
      && |t.relations| == |s.relations| + 1 && t.relations[..|s.relations|] == s.relations
      && t.relations[|s.relations|].master == c.name
      && t.maps == s.maps + FourLinks(s, c.name)
  {
    hide Apply, Can, FourLinks, AuxName, MasterChangeName, AuxChangeName, AaCreation.FourVdisks;
    AaCreation.FourFacts(s, c);
    AaCreation.TablesOfNew(s, c);
    NewMaps(s, c);
    var more := AaCreation.FourVdisks(s, c);
    assert Apply(s, c).vdisks[|s.vdisks|..] == more;
    assert more[0] in more && more[1] in more && more[2] in more && more[3] in more;
    assert forall v | v in more :: v == more[0] || v == more[1] || v == more[2] || v == more[3];
  }

  lemma {:induction false} NewMaps(s: State, c: Command)
    requires c.MkVolume? && Can(s, c)
    ensures var t := Apply(s, c);
      t.maps == s.maps + FourLinks(s, c.name) && t.now == s.now && t.faults == s.faults
  {
    hide NextVdiskId, AddLink, FourLinks, AuxName, MasterChangeName, AuxChangeName;
    LinksAdded(s, c.name);
  }

  lemma {:induction false} NewVolumeRemoved(s: State, c: Command)
    requires Sound(s) && c.MkVolume? && Can(s, c)
    ensures var t := Apply(s, c);
      Can(t, RmVolume(c.name)) && Apply(t, RmVolume(c.name)) == s
  {
    NewVolumeAdded(s, c);
    NamesWereFree(s, c);
    var t, gone, n := Apply(s, c), FourNames(c.name), |s.vdisks|;
    hide Can, FourNames, FourLinks, DropVolume, DropMaps, DropRelationsOf, Mentions, Touches, Sound, NamesOf;
    assert t.vdisks == s.vdisks + t.vdisks[n..];
    FourDropped(s.vdisks, t.vdisks[n..], c.name);
    LinksGone(s, c.name);
    NameAmongFour(c.name);
    assert t.relations == s.relations + [t.relations[|s.relations|]];
    RelationDropped(s.relations, t.relations[|s.relations|], gone);
    RemovalOf(t, c.name, gone);
  }

  lemma {:induction false} NameAmongFour(name: string)
    ensures name in FourNames(name)
  {}

  lemma {:induction false} RemovalOf(t: State, name: string, gone: set<string>)
    requires NamesOf(t.vdisks, name) == gone && name in gone
    ensures Can(t, RmVolume(name))
    ensures Apply(t, RmVolume(name)) == t.(vdisks := DropVolume(t.vdisks, name),
      relations := DropRelationsOf(t.relations, gone), maps := DropMaps(t.maps, gone))
  {
    hide NamesOf;
  }

  lemma {:induction false} NamesWereFree(s: State, c: Command)
    requires Sound(s) && c.MkVolume? && Can(s, c)
    ensures forall v | v in s.vdisks :: v.volume != c.name
    ensures forall m | m in s.maps :: m.source !in FourNames(c.name) && m.target !in FourNames(c.name)
    ensures forall r | r in s.relations :: forall name | name in FourNames(c.name) :: !Mentions(r, name)
  {
    forall name | name in FourNames(c.name)
      ensures forall m | m in s.maps :: m.source != name && m.target != name
      ensures forall r | r in s.relations :: !Mentions(r, name)
    {
      FreeOfName(s, name);
    }
  }

  lemma {:induction false} LinksGone(s: State, name: string)
    requires forall m | m in s.maps :: m.source !in FourNames(name) && m.target !in FourNames(name)
    ensures DropMaps(s.maps + FourLinks(s, name), FourNames(name)) == s.maps
  {
    hide NextMapId, AuxName, MasterChangeName, AuxChangeName;
    DropMapsTo(s.maps, FourLinks(s, name), FourNames(name));
  }

  lemma {:induction false} NewVolumeListed(s: State, c: Command)
    requires Sound(s) && c.MkVolume? && Can(s, c)
    ensures var t := Apply(s, c);
      |VolumeRows(t, c.name)| == 4 && |MapsFrom(t.maps, c.name)| == 1
  {
    NewVolumeAdded(s, c);
    NamesWereFree(s, c);
    hide FourLinks, FourNames, Apply;
    var t, n := Apply(s, c), |s.vdisks|;
    assert t.vdisks == s.vdisks + t.vdisks[n..];
    FourDropped(s.vdisks, t.vdisks[n..], c.name);
    OneFromVolume(s, c.name);
  }

  /** Creating an active-active volume and deleting it leaves the array as it was. */
  lemma {:induction false} AaCreateThenDelete(s: State, name: string, gib: nat, o: Options)
    requires Sound(s) && s.faults == [] && o.level == Some("aa") && CreateVolume(s, name, gib, o).1.Ok?
    ensures DeleteVolume(CreateVolume(s, name, gib, o).0, name) == (s, Ok(()))
  {
    hide Can, Apply, VolumeRows, MapsFrom, Sound;
    var c := CreateCommand(name, gib, o).value;
    NewVolumeListed(s, c);
    NewVolumeRemoved(s, c);
    var t := Apply(s, c);
    NoFaultsAfter(s, c);
    assert Spend(t) == t && Spend(s) == s;
  }

  lemma {:induction false} NoFaultsAfter(s: State, c: Command)
    requires Can(s, c)
    ensures Apply(s, c).faults == s.faults
  {}

  /* ---- when a volume is not deleted ---- */

  /** With nothing failing, a volume of one vdisk is deleted exactly when it is the source of no local
      copy. */
  lemma {:induction false} DeletedIffNoSource(s: State, name: string)
    requires Sound(s) && s.faults == [] && Alone(s, name)
    ensures DeleteVolume(s, name).1.Ok? <==> forall m | m in s.maps :: m.source != name
    ensures DeleteVolume(s, name).1.Ok? ==> !Exists(DeleteVolume(s, name).0.vdisks, name)
    ensures DeleteVolume(s, name).1.Err? ==> DeleteVolume(s, name) == (s, Err(SourceOfMaps))
  {
    hide VolumeRows, MapsFrom, DropMaps, DropRelationsOf;
    assert Spend(s) == s;
    SnapshotRuns.OneRow(s, name);
    SourceRows(s, name);
  }

  lemma {:induction false} SourceRows(s: State, name: string)
    ensures MapsFrom(s.maps, name) == [] <==> forall m | m in s.maps :: m.source != name
  {
    var rows := MapsFrom(s.maps, name);
    if rows != [] { assert rows[0] in rows; }
    forall m | m in s.maps && m.source == name ensures rows != [] { assert m in rows; }
  }

  lemma {:induction false} MapThere(s: State, name: string)
    requires Sound(s) && MapsTo(s.maps, name) != []
    ensures HasMap(s.maps, MapsTo(s.maps, name)[0].id) && Exists(s.vdisks, name)
  {
    var row := MapsTo(s.maps, name)[0];
    assert row in MapsTo(s.maps, name);
    assert row in s.maps;
  }

  /** With nothing failing, a snapshot is deleted exactly when it is the source of no local copy; its vdisk
      is gone then, and so is every map onto it. */
  lemma {:induction false} SnapshotDeletedIffNoSource(s: State, name: string, settle: nat)
    requires Sound(s) && s.faults == [] && MapsTo(s.maps, name) != []
    ensures var (t, r) := DeleteSnapshot(s, name, settle);
      && (r.Ok? <==> forall m | m in s.maps :: m.source != name)
      && (r.Ok? ==> !Exists(t.vdisks, name) && MapsTo(t.maps, name) == [])
      && (r.Err? ==> t == s && r == Err(SourceOfMaps))
  {
    hide MapsFrom, MapsTo, Poll, DropRelationsOf, Sound;
    assert Spend(s) == s;
    SourceRows(s, name);
    MapThere(s, name);
    var id := MapsTo(s.maps, name)[0].id;
    assert Execute(s, StopLcMap(id)).0 == s;
    PollFaultFree(s, name, settle, POLL_ROUNDS);
    var u := Execute(s, RmLcMap(id)).0;
    assert u == s.(maps := DropMap(s.maps, id));
    NoneLeft(u.maps, name);
  }

  lemma {:induction false} NoneLeft(ms: seq<LcMap>, name: string)
    ensures MapsTo(DropMaps(ms, {name}), name) == []
  {
    FilterNone(DropMaps(ms, {name}), (m: LcMap) => m.target == name);
  }
}
