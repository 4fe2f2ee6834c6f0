/** What holds of the array's tables over every run of the driver's volume operations: names and ids are
    distinct, maps and relationships hang on vdisks that exist, sizes are whole GiB, and the clock is set. */
module ArrayInvariant {
  import opened Wrappers
  import opened Lists
  import opened Sizes
  import opened VdiskArray
  import opened AaExtend

  predicate DistinctMapIds(ms: seq<LcMap>) {
    forall i, j | 0 <= i < j < |ms| :: ms[i].id != ms[j].id
  }

  predicate HasOption(vs: seq<Vdisk>, name: Option<string>) { name.Some? ==> Exists(vs, name.value) }

  predicate MapsAttached(vs: seq<Vdisk>, ms: seq<LcMap>) {
    forall m | m in ms :: Exists(vs, m.source) && Exists(vs, m.target)
  }

  predicate RelationsAttached(vs: seq<Vdisk>, rs: seq<Relation>) {
    forall r | r in rs ::
      Exists(vs, r.master) && Exists(vs, r.aux) && HasOption(vs, r.masterChange) && HasOption(vs, r.auxChange)
  }

  predicate WholeGib(vs: seq<Vdisk>) { forall v | v in vs :: v.size % GIB == 0 }

  predicate Sound(s: State) {
    && DistinctVdisks(s.vdisks) && DistinctMapIds(s.maps)
    && MapsAttached(s.vdisks, s.maps) && RelationsAttached(s.vdisks, s.relations)
    && WholeGib(s.vdisks) && s.now != ""
  }

  /* ---- vdisks ---- */

  lemma {:induction false} FilterDistinct(vs: seq<Vdisk>, keep: Vdisk -> bool)
    requires DistinctVdisks(vs)
    ensures DistinctVdisks(Filter(vs, keep))
  {
    if vs != [] {
      var rest := Filter(vs[1..], keep);
      FirstDiffers(vs);
      hide DistinctVdisks;
      FilterDistinct(vs[1..], keep);
      PrependDistinct(vs[0], rest);
    }
  }

  lemma {:induction false} FirstDiffers(vs: seq<Vdisk>)
    requires DistinctVdisks(vs) && vs != []
    ensures DistinctVdisks(vs[1..])
    ensures forall v | v in vs[1..] :: v.name != vs[0].name && v.id != vs[0].id
  {}

  lemma {:induction false} PrependDistinct(v: Vdisk, vs: seq<Vdisk>)
    requires DistinctVdisks(vs)
    ensures (forall w | w in vs :: w.name != v.name && w.id != v.id) ==> DistinctVdisks([v] + vs)
  {}

  lemma {:induction false} AppendDistinct(vs: seq<Vdisk>, v: Vdisk)
    requires DistinctVdisks(vs) && !Exists(vs, v.name) && forall w | w in vs :: w.id < v.id
    ensures DistinctVdisks(vs + [v])
  {}

  lemma {:induction false} NotThere(vs: seq<Vdisk>, v: Vdisk, name: string)
    requires !Exists(vs, name) && v.name != name
    ensures !Exists(vs + [v], name)
  {}

  lemma {:induction false} VolumeNamesDiffer(name: string)
    ensures name != AuxName(name) && name != MasterChangeName(name) && name != AuxChangeName(name)
    ensures AuxName(name) != MasterChangeName(name) && AuxName(name) != AuxChangeName(name)
    ensures MasterChangeName(name) != AuxChangeName(name)
  {
    assert AuxName(name)[|name|..] == "_aux";
    assert MasterChangeName(name)[|name|..] == "_mcv";
    assert AuxChangeName(name)[|name|..] == "_acv";
    assert "_aux"[1] != "_mcv"[1] && "_aux"[2] != "_acv"[2] && "_mcv"[1] != "_acv"[1];
  }

  lemma {:induction false} NewVolumeDistinct(vs: seq<Vdisk>, v0: Vdisk, v1: Vdisk, v2: Vdisk, v3: Vdisk)
    requires DistinctVdisks(vs)
    requires !Exists(vs, v0.name) && !Exists(vs, v1.name) && !Exists(vs, v2.name) && !Exists(vs, v3.name)
    requires v0.name != v1.name && v0.name != v2.name && v0.name != v3.name
    requires v1.name != v2.name && v1.name != v3.name && v2.name != v3.name
    requires (forall w | w in vs :: w.id < v0.id) && v1.id == v0.id + 1 && v2.id == v0.id + 2 && v3.id == v0.id + 3
    ensures DistinctVdisks(vs + [v0, v1, v2, v3])
  {
    hide Exists, DistinctVdisks;
    AppendDistinct(vs, v0);
    NotThere(vs, v0, v1.name); NotThere(vs, v0, v2.name); NotThere(vs, v0, v3.name);
    AppendDistinct(vs + [v0], v1);
    NotThere(vs + [v0], v1, v2.name); NotThere(vs + [v0], v1, v3.name);
    AppendDistinct(vs + [v0] + [v1], v2);
    NotThere(vs + [v0] + [v1], v2, v3.name);
    AppendDistinct(vs + [v0] + [v1] + [v2], v3);
    assert vs + [v0] + [v1] + [v2] + [v3] == vs + [v0, v1, v2, v3];
  }

  lemma {:induction false} GrowSound(vs: seq<Vdisk>, name: string, gib: nat)
    requires DistinctVdisks(vs) && WholeGib(vs)
    ensures DistinctVdisks(Grow(vs, name, gib)) && WholeGib(Grow(vs, name, gib))
  {
    var ws := Grow(vs, name, gib);
    forall w | w in ws ensures w.size % GIB == 0 {
      var i :| 0 <= i < |ws| && ws[i] == w;
      assert vs[i] in vs;
      WholeSum(vs[i].size, gib);
    }
  }

  lemma {:induction false} WholeSum(size: nat, gib: nat)
    requires size % GIB == 0
    ensures (size + gib * GIB) % GIB == 0
    ensures (gib * GIB) % GIB == 0
  {}

  /* ---- maps and relationships ---- */

  lemma {:induction false} FilterMapIds(ms: seq<LcMap>, keep: LcMap -> bool)
    requires DistinctMapIds(ms)
    ensures DistinctMapIds(Filter(ms, keep))
  {
    if ms != [] {
      FilterMapIds(ms[1..], keep);
      if keep(ms[0]) {
        var rest := Filter(ms[1..], keep);
        forall j | 0 <= j < |rest| ensures rest[j].id != ms[0].id {
          assert rest[j] in rest;
          var i :| 0 <= i < |ms[1..]| && ms[1..][i] == rest[j];
          assert ms[i + 1] == rest[j];
        }
      }
    }
  }

  lemma {:induction false} AddLinkIds(ms: seq<LcMap>, base: string, change: string, now: string)
    requires DistinctMapIds(ms)
    ensures DistinctMapIds(AddLink(ms, base, change, now))
  {}

  lemma {:induction false} AddLinkAttached(vs: seq<Vdisk>, ms: seq<LcMap>, base: string, change: string, now: string)
    requires MapsAttached(vs, ms) && Exists(vs, base) && Exists(vs, change)
    ensures MapsAttached(vs, AddLink(ms, base, change, now))
  {
    hide Exists;
  }

  lemma {:induction false} DropLinksSound(vs: seq<Vdisk>, ms: seq<LcMap>, r: Relation)
    requires DistinctMapIds(ms) && MapsAttached(vs, ms)
    ensures DistinctMapIds(DropLinks(ms, r)) && MapsAttached(vs, DropLinks(ms, r))
  {
    hide Exists, DistinctMapIds;
    var half := DropLink(ms, r.master, r.masterChange);
    FilterMapIds(ms, (m: LcMap) => r.masterChange.None? || !Links(m, r.master, r.masterChange.value));
    FilterMapIds(half, (m: LcMap) => r.auxChange.None? || !Links(m, r.aux, r.auxChange.value));
  }

  lemma {:induction false} StartSound(vs: seq<Vdisk>, ms: seq<LcMap>, id: nat, now: string)
    requires DistinctMapIds(ms) && MapsAttached(vs, ms)
    ensures DistinctMapIds(Start(ms, id, now)) && MapsAttached(vs, Start(ms, id, now))
  {
    hide Exists;
    forall n | n in Start(ms, id, now) ensures Exists(vs, n.source) && Exists(vs, n.target) {
      var i :| 0 <= i < |ms| && Start(ms, id, now)[i] == n;
      assert ms[i] in ms;
    }
  }

  lemma {:induction false} ChangeAttached(vs: seq<Vdisk>, rs: seq<Relation>, id: nat, change: string)
    requires RelationsAttached(vs, rs) && Exists(vs, change)
    ensures RelationsAttached(vs, WithMasterChange(rs, id, change))
    ensures RelationsAttached(vs, WithAuxChange(rs, id, change))
  {
    hide Exists;
    forall r | r in WithMasterChange(rs, id, change)
      ensures Exists(vs, r.master) && Exists(vs, r.aux) && HasOption(vs, r.masterChange) && HasOption(vs, r.auxChange)
    {
      var i :| 0 <= i < |rs| && WithMasterChange(rs, id, change)[i] == r;
      assert rs[i] in rs;
    }
    forall r | r in WithAuxChange(rs, id, change)
      ensures Exists(vs, r.master) && Exists(vs, r.aux) && HasOption(vs, r.masterChange) && HasOption(vs, r.auxChange)
    {
      var i :| 0 <= i < |rs| && WithAuxChange(rs, id, change)[i] == r;
      assert rs[i] in rs;
    }
  }

  /** Attachments survive as long as the vdisks they name do. */
  lemma {:induction false} StillAttached(vs: seq<Vdisk>, ws: seq<Vdisk>, rs: seq<Relation>, qs: seq<Relation>,
                                         ms: seq<LcMap>, ns: seq<LcMap>, gone: set<string>)
    requires MapsAttached(vs, ms) && RelationsAttached(vs, rs)
    requires forall name | name !in gone && Exists(vs, name) :: Exists(ws, name)
    requires forall m | m in ns :: m in ms && m.source !in gone && m.target !in gone
    requires forall r | r in qs :: r in rs && forall name | name in gone :: !Mentions(r, name)
    ensures MapsAttached(ws, ns) && RelationsAttached(ws, qs)
  {
    hide Exists;
  }

  /* ---- commands ---- */

  lemma {:induction false} NewVolumeSound(s: State, c: Command)
    requires Sound(s) && c.MkVolume? && Can(s, c)
    ensures Sound(Apply(s, c))
  {
    hide NextVdiskId, AuxName, MasterChangeName, AuxChangeName, AddLink, DistinctMapIds, DistinctVdisks, MapsAttached;
    var name, aux, mcv, acv := c.name, AuxName(c.name), MasterChangeName(c.name), AuxChangeName(c.name);
    var id, size := NextVdiskId(s.vdisks), c.gib * GIB;
    var v0, v1 := Vdisk(id, name, name, c.pool, c.iogrp, size), Vdisk(id + 1, aux, name, c.auxPool, c.auxIogrp, size);
    var v2 := Vdisk(id + 2, mcv, name, c.pool, c.iogrp, size);
    var v3 := Vdisk(id + 3, acv, name, c.auxPool, c.auxIogrp, size);
    VolumeNamesDiffer(name);
    NewVolumeDistinct(s.vdisks, v0, v1, v2, v3);
    var ws := s.vdisks + [v0, v1, v2, v3];
    assert v0 in ws && v1 in ws && v2 in ws && v3 in ws;
    MoreVdisks(s.vdisks, [v0, v1, v2, v3]);
    StillAttached(s.vdisks, ws, s.relations, s.relations, s.maps, s.maps, {});
    AddLinkIds(s.maps, name, mcv, s.now);
    AddLinkAttached(ws, s.maps, name, mcv, s.now);
    var half := AddLink(s.maps, name, mcv, s.now);
    AddLinkIds(half, aux, acv, s.now);
    AddLinkAttached(ws, half, aux, acv, s.now);
    WholeSum(0, c.gib);
  }

  lemma {:induction false} MoreVdisks(vs: seq<Vdisk>, more: seq<Vdisk>)
    ensures forall name | Exists(vs, name) :: Exists(vs + more, name)
  {}

  lemma {:induction false} RemovalSound(s: State, gone: set<string>, keep: Vdisk -> bool)
    requires Sound(s) && forall v | v in s.vdisks && v.name !in gone :: keep(v)
    ensures Sound(s.(vdisks := Filter(s.vdisks, keep), relations := DropRelationsOf(s.relations, gone),
                     maps := DropMaps(s.maps, gone)))
  {
    hide DistinctMapIds, DistinctVdisks, MapsAttached, RelationsAttached, Mentions;
    FilterDistinct(s.vdisks, keep);
    FilterMapIds(s.maps, (m: LcMap) => m.source !in gone && m.target !in gone);
    forall name | name !in gone && Exists(s.vdisks, name) ensures Exists(Filter(s.vdisks, keep), name) {
      var v :| v in s.vdisks && v.name == name;
      assert v in Filter(s.vdisks, keep);
    }
    StillAttached(s.vdisks, Filter(s.vdisks, keep), s.relations, DropRelationsOf(s.relations, gone),
                  s.maps, DropMaps(s.maps, gone), gone);
  }

  lemma {:induction false} VdiskCommandSound(s: State, c: Command)
    requires Sound(s) && Can(s, c) && (c.MkVdisk? || c.RmVdisk? || c.RmVolume? || c.ExpandVdisk?)
    ensures Sound(Apply(s, c))
  {
    hide DistinctMapIds, DistinctVdisks, MapsAttached, RelationsAttached, NextVdiskId;
    match c {
      case MkVdisk(name, gib, pool, iogrp) =>
        var v := Vdisk(NextVdiskId(s.vdisks), name, name, pool, iogrp, gib * GIB);
        AppendDistinct(s.vdisks, v);
        MoreVdisks(s.vdisks, [v]);
        StillAttached(s.vdisks, s.vdisks + [v], s.relations, s.relations, s.maps, s.maps, {});
        WholeSum(0, gib);
      case RmVdisk(name) => RemovalSound(s, {name}, (v: Vdisk) => v.name != name);
      case RmVolume(name) => RemovalSound(s, NamesOf(s.vdisks, name), (v: Vdisk) => v.volume != name);
      case ExpandVdisk(name, gib) =>
        GrowSound(s.vdisks, name, gib);
        forall other | Exists(s.vdisks, other) ensures Exists(Grow(s.vdisks, name, gib), other) {
          GrowFound(s.vdisks, name, gib, other);
        }
        StillAttached(s.vdisks, Grow(s.vdisks, name, gib), s.relations, s.relations, s.maps, s.maps, {});
    }
  }

  lemma {:induction false} RelationCommandSound(s: State, c: Command)
    requires Sound(s) && Can(s, c)
    requires c.RmRelation? || c.MkRelation? || c.ChMasterChange? || c.ChAuxChange?
    ensures Sound(Apply(s, c))
  {
    hide DistinctMapIds, DistinctVdisks, MapsAttached, WholeGib, Exists, AddLink, DropLinks, Mentions;
    match c {
      case RmRelation(id) => DropLinksSound(s.vdisks, s.maps, FindRelation(s.relations, id).value);
      case MkRelation(_, _) =>
      case ChMasterChange(change, id) =>
        ChangeAttached(s.vdisks, s.relations, id, change);
        var base := FindRelation(s.relations, id).value.master;
        AddLinkIds(s.maps, base, change, s.now);
        AddLinkAttached(s.vdisks, s.maps, base, change, s.now);
      case ChAuxChange(change, id) =>
        ChangeAttached(s.vdisks, s.relations, id, change);
        var base := FindRelation(s.relations, id).value.aux;
        AddLinkIds(s.maps, base, change, s.now);
        AddLinkAttached(s.vdisks, s.maps, base, change, s.now);
    }
  }

  lemma {:induction false} MapCommandSound(s: State, c: Command)
    requires Sound(s) && Can(s, c)
    requires c.AddVdiskAccess? || c.MkLcMap? || c.StartLcMap? || c.StopLcMap? || c.RmLcMap?
    ensures Sound(Apply(s, c))
  {
    hide DistinctVdisks, RelationsAttached, WholeGib, Exists;
    match c {
      case StartLcMap(id) => StartSound(s.vdisks, s.maps, id, s.now);
      case RmLcMap(id) => FilterMapIds(s.maps, (m: LcMap) => m.id != id);
      case _ =>
    }
  }

  lemma {:induction false} SoundClock(s: State)
    requires Sound(s)
    ensures s.now != ""
  {}

  /** Every command, carried out or not, keeps the tables sound. */
  lemma {:induction false} ExecuteSound(s: State, c: Command)
    requires Sound(s)
    ensures Sound(Execute(s, c).0)
  {
    hide Sound, Can, Apply;
    SoundClock(s);
    if Up(s) && Can(s, c) {
      match c {
        case MkVolume(_, _, _, _, _, _) => NewVolumeSound(s, c);
        case MkVdisk(_, _, _, _) => VdiskCommandSound(s, c);
        case RmVdisk(_) => VdiskCommandSound(s, c);
        case RmVolume(_) => VdiskCommandSound(s, c);
        case ExpandVdisk(_, _) => VdiskCommandSound(s, c);
        case RmRelation(_) => RelationCommandSound(s, c);
        case MkRelation(_, _) => RelationCommandSound(s, c);
        case ChMasterChange(_, _) => RelationCommandSound(s, c);
        case ChAuxChange(_, _) => RelationCommandSound(s, c);
        case _ => MapCommandSound(s, c);
      }
      SoundIgnoresFaults(Apply(s, c), Execute(s, c).0.faults, s.now);
      NowStays(s, c);
    } else {
      SoundIgnoresFaults(s, Execute(s, c).0.faults, s.now);
    }
  }

  lemma {:induction false} NowStays(s: State, c: Command)
    requires Can(s, c)
    ensures Apply(s, c).now == s.now
  {}

  lemma {:induction false} SoundIgnoresFaults(s: State, faults: seq<bool>, now: string)
    requires Sound(s) && now != ""
    ensures Sound(s.(faults := faults, now := now))
  {}
}
