/** What keeps a snapshot standing, one command at a time. */
module SnapshotStands {
  import opened Wrappers
  import opened Lists
  import opened Sizes
  import opened VdiskArray
  import opened As18000
  import opened AaExtend
  import opened AaScript
  import opened AaRuns
  import opened ExtendSizes
  import opened ArrayInvariant

  /** The volume `name` is one vdisk of that name, in no active-active relationship. */
  predicate Alone(s: State, name: string) { IsBasic(s.vdisks, s.relations, name, name) }

  /** The snapshot stands: both vdisks with equal size, and the started map between them, which is
      the only map onto the snapshot and does not delete itself. */
  ghost predicate Durable(s: State, source: string, snap: string) {
    && source != snap && s.now != ""
    && DistinctVdisks(s.vdisks) && DistinctMapIds(s.maps)
    && Alone(s, source) && Alone(s, snap)
    && SizeOf(s.vdisks, source) == SizeOf(s.vdisks, snap)
    && (exists m | m in s.maps :: IsSnapshotMap(m, source, snap))
    && (forall m | m in s.maps && m.target == snap :: IsSnapshotMap(m, source, snap))
  }

  predicate IsSnapshotMap(m: LcMap, source: string, snap: string) {
    m.source == source && m.target == snap && m.startTime != "" && !m.autodelete
  }

  /* ---- commands that leave it standing ---- */

  /** The command neither removes, expands nor relates the two vdisks, nor removes the map. */
  ghost predicate Spares(s: State, c: Command, source: string, snap: string) {
    match c
    case RmVdisk(name) => name != source && name != snap
    case RmVolume(name) => name != source && name != snap
    case ExpandVdisk(name, _) => name != source && name != snap
    case MkRelation(master, aux) => master != source && master != snap && aux != source && aux != snap
    case ChMasterChange(change, _) => change != source && change != snap
    case ChAuxChange(change, _) => change != source && change != snap
    case RmLcMap(id) => forall m | m in s.maps && m.id == id :: m.target != snap
    case _ => true
  }

  /* -- vdisks -- */

  /** The two vdisks are there, alone in their volumes, with equal size. */
  ghost predicate PairStands(vs: seq<Vdisk>, source: string, snap: string) {
    && DistinctVdisks(vs)
    && Exists(vs, source) && Exists(vs, snap)
    && (forall v | v in vs :: v.volume == source <==> v.name == source)
    && (forall v | v in vs :: v.volume == snap <==> v.name == snap)
    && SizeOf(vs, source) == SizeOf(vs, snap)
  }

  lemma {:induction false} AppendPosition(vs: seq<Vdisk>, v: Vdisk, name: string, k: nat)
    requires k <= |vs| && v.name != name
    ensures var i := VdiskPosition(vs, name, k);
      VdiskPosition(vs + [v], name, k) == if i < |vs| then i else |vs| + 1
    decreases |vs| - k
  {
    if k < |vs| {
      AppendPosition(vs, v, name, k + 1);
    } else {
      assert VdiskPosition(vs + [v], name, |vs|) == VdiskPosition(vs + [v], name, |vs| + 1);
    }
  }

  lemma {:induction false} AppendFound(vs: seq<Vdisk>, v: Vdisk, name: string)
    requires v.name != name
    ensures FindVdisk(vs + [v], name) == FindVdisk(vs, name)
  {
    AppendPosition(vs, v, name, 0);
  }

  lemma {:induction false} AppendStands(vs: seq<Vdisk>, v: Vdisk, source: string, snap: string)
    requires PairStands(vs, source, snap)
    requires !Exists(vs, v.name) && v.volume != source && v.volume != snap
    requires forall w | w in vs :: w.id != v.id
    ensures PairStands(vs + [v], source, snap)
  {
    AppendFound(vs, v, source);
    AppendFound(vs, v, snap);
    assert FindVdisk(vs + [v], source).Some? && FindVdisk(vs + [v], snap).Some?;
  }

  lemma {:induction false} FilterStands(vs: seq<Vdisk>, keep: Vdisk -> bool, source: string, snap: string)
    requires PairStands(vs, source, snap)
    requires forall v | v in vs && (v.name == source || v.name == snap) :: keep(v)
    ensures PairStands(Filter(vs, keep), source, snap)
  {
    var ws := Filter(vs, keep);
    FilterDistinct(vs, keep);
    forall name | name in [source, snap] ensures Exists(ws, name) && FindVdisk(ws, name) == FindVdisk(vs, name) {
      var v := FindVdisk(vs, name).value;
      assert v in ws;
      FoundVdisk(ws, v);
    }
    assert source in [source, snap] && snap in [source, snap];
  }

  lemma {:induction false} GrowStands(vs: seq<Vdisk>, name: string, gib: nat, source: string, snap: string)
    requires PairStands(vs, source, snap) && name != source && name != snap
    ensures PairStands(Grow(vs, name, gib), source, snap)
  {
    var ws := Grow(vs, name, gib);
    GrowFound(vs, name, gib, source);
    GrowFound(vs, name, gib, snap);
    forall w | w in ws
      ensures (w.volume == source <==> w.name == source) && (w.volume == snap <==> w.name == snap)
    {
      var i :| 0 <= i < |ws| && ws[i] == w;
      assert vs[i] in vs;
    }
  }

  /* -- maps -- */

  ghost predicate MapStands(ms: seq<LcMap>, source: string, snap: string) {
    && DistinctMapIds(ms)
    && (exists m | m in ms :: IsSnapshotMap(m, source, snap))
    && (forall m | m in ms && m.target == snap :: IsSnapshotMap(m, source, snap))
  }

  lemma {:induction false} FilterMapStands(ms: seq<LcMap>, keep: LcMap -> bool, source: string, snap: string)
    requires MapStands(ms, source, snap)
    requires forall m | m in ms && m.target == snap :: keep(m)
    ensures MapStands(Filter(ms, keep), source, snap)
  {
    FilterMapIds(ms, keep);
    var m :| m in ms && IsSnapshotMap(m, source, snap);
    assert m in Filter(ms, keep);
  }

  lemma {:induction false} NewMapStands(ms: seq<LcMap>, m: LcMap, source: string, snap: string)
    requires MapStands(ms, source, snap) && m.target != snap && forall n | n in ms :: n.id < m.id
    ensures MapStands(ms + [m], source, snap)
  {
    var n :| n in ms && IsSnapshotMap(n, source, snap);
    assert n in ms + [m];
  }

  lemma {:induction false} AddLinkStands(ms: seq<LcMap>, base: string, change: string, now: string, source: string,
                                         snap: string)
    requires MapStands(ms, source, snap) && base != snap && change != snap
    ensures MapStands(AddLink(ms, base, change, now), source, snap)
  {
    var id := NextMapId(ms);
    var one, two := LcMap(id, base, change, now, false), LcMap(id + 1, change, base, now, false);
    NewMapStands(ms, one, source, snap);
    NewMapStands(ms + [one], two, source, snap);
    assert ms + [one] + [two] == ms + [one, two];
  }

  lemma {:induction false} StartStands(ms: seq<LcMap>, id: nat, now: string, source: string, snap: string)
    requires MapStands(ms, source, snap) && now != ""
    ensures MapStands(Start(ms, id, now), source, snap)
  {
    var after := Start(ms, id, now);
    var m :| m in ms && IsSnapshotMap(m, source, snap);
    var i :| 0 <= i < |ms| && ms[i] == m;
    assert after[i] in after && IsSnapshotMap(after[i], source, snap);
    forall n | n in after && n.target == snap ensures IsSnapshotMap(n, source, snap) {
      var j :| 0 <= j < |after| && after[j] == n;
      assert ms[j] in ms;
    }
  }

  lemma {:induction false} DropLinksStands(ms: seq<LcMap>, r: Relation, source: string, snap: string)
    requires MapStands(ms, source, snap) && !Mentions(r, source) && !Mentions(r, snap)
    ensures MapStands(DropLinks(ms, r), source, snap)
  {
    var half := DropLink(ms, r.master, r.masterChange);
    FilterMapStands(ms, (m: LcMap) => r.masterChange.None? || !Links(m, r.master, r.masterChange.value), source, snap);
    assert MapStands(half, source, snap);
    FilterMapStands(half, (m: LcMap) => r.auxChange.None? || !Links(m, r.aux, r.auxChange.value), source, snap);
  }

  /* -- relationships -- */

  ghost predicate Unmentioned(rs: seq<Relation>, source: string, snap: string) {
    forall r | r in rs :: !Mentions(r, source) && !Mentions(r, snap)
  }

  lemma {:induction false} DurableParts(s: State, source: string, snap: string)
    ensures Durable(s, source, snap)
      <==> source != snap && s.now != "" && PairStands(s.vdisks, source, snap)
           && MapStands(s.maps, source, snap) && Unmentioned(s.relations, source, snap)
  {}

  /* -- all commands -- */

  lemma {:induction false} ChangeUnmentioned(rs: seq<Relation>, id: nat, change: string, source: string, snap: string)
    requires Unmentioned(rs, source, snap) && change != source && change != snap
    ensures Unmentioned(WithMasterChange(rs, id, change), source, snap)
    ensures Unmentioned(WithAuxChange(rs, id, change), source, snap)
  {
    forall r | r in WithMasterChange(rs, id, change) ensures !Mentions(r, source) && !Mentions(r, snap) {
      var i :| 0 <= i < |rs| && WithMasterChange(rs, id, change)[i] == r;
      assert rs[i] in rs;
    }
    forall r | r in WithAuxChange(rs, id, change) ensures !Mentions(r, source) && !Mentions(r, snap) {
      var i :| 0 <= i < |rs| && WithAuxChange(rs, id, change)[i] == r;
      assert rs[i] in rs;
    }
  }

  lemma {:induction false} FreeNames(s: State, name: string, source: string, snap: string)
    requires PairStands(s.vdisks, source, snap) && NameFree(s, name)
    ensures name != source && name != snap && !Exists(s.vdisks, name)
  {}

  /** A new active-active volume, one vdisk at a time. */
  lemma {:induction false} NewVolumeVdisks(vs: seq<Vdisk>, v0: Vdisk, v1: Vdisk, v2: Vdisk, v3: Vdisk, source: string,
                                           snap: string)
    requires PairStands(vs, source, snap)
    requires v0.volume == v1.volume == v2.volume == v3.volume && v0.volume != source && v0.volume != snap
    requires forall v | v in [v0, v1, v2, v3] :: !Exists(vs, v.name)
    requires v0.name != v1.name && v0.name != v2.name && v0.name != v3.name
    requires v1.name != v2.name && v1.name != v3.name && v2.name != v3.name
    requires (forall w | w in vs :: w.id < v0.id) && v1.id == v0.id + 1 && v2.id == v0.id + 2 && v3.id == v0.id + 3
    ensures PairStands(vs + [v0, v1, v2, v3], source, snap)
  {
    hide PairStands, Exists;
    assert forall i | 0 <= i < 4 :: [v0, v1, v2, v3][i] in [v0, v1, v2, v3];
    assert !Exists(vs, v0.name) && !Exists(vs, v1.name) && !Exists(vs, v2.name) && !Exists(vs, v3.name);
    AppendStands(vs, v0, source, snap);
    NotThere(vs, v0, v1.name); NotThere(vs, v0, v2.name); NotThere(vs, v0, v3.name);
    AppendStands(vs + [v0], v1, source, snap);
    NotThere(vs + [v0], v1, v2.name); NotThere(vs + [v0], v1, v3.name);
    AppendStands(vs + [v0] + [v1], v2, source, snap);
    NotThere(vs + [v0] + [v1], v2, v3.name);
    AppendStands(vs + [v0] + [v1] + [v2], v3, source, snap);
    assert vs + [v0] + [v1] + [v2] + [v3] == vs + [v0, v1, v2, v3];
  }

  lemma {:induction false} NewVolumeStands(s: State, c: Command, source: string, snap: string)
    requires Durable(s, source, snap) && c.MkVolume? && Can(s, c)
    ensures Durable(Apply(s, c), source, snap)
  {
    hide PairStands, MapStands, NextVdiskId, AuxName, MasterChangeName, AuxChangeName, AddLink, Durable;
    DurableParts(s, source, snap);
    var name, aux, mcv, acv := c.name, AuxName(c.name), MasterChangeName(c.name), AuxChangeName(c.name);
    VolumeNamesDiffer(name);
    FreeNames(s, name, source, snap); FreeNames(s, aux, source, snap);
    FreeNames(s, mcv, source, snap); FreeNames(s, acv, source, snap);
    var id, size := NextVdiskId(s.vdisks), c.gib * GIB;
    NewVolumeVdisks(s.vdisks, Vdisk(id, name, name, c.pool, c.iogrp, size),
                    Vdisk(id + 1, aux, name, c.auxPool, c.auxIogrp, size),
                    Vdisk(id + 2, mcv, name, c.pool, c.iogrp, size),
                    Vdisk(id + 3, acv, name, c.auxPool, c.auxIogrp, size), source, snap);
    AddLinkStands(s.maps, name, mcv, s.now, source, snap);
    AddLinkStands(AddLink(s.maps, name, mcv, s.now), aux, acv, s.now, source, snap);
    DurableParts(Apply(s, c), source, snap);
  }

  lemma {:induction false} RemovalStands(s: State, gone: set<string>, keep: Vdisk -> bool, source: string, snap: string)
    requires Durable(s, source, snap) && source !in gone && snap !in gone
    requires forall v | v in s.vdisks && (v.name == source || v.name == snap) :: keep(v)
    ensures Durable(s.(vdisks := Filter(s.vdisks, keep), relations := DropRelationsOf(s.relations, gone),
                       maps := DropMaps(s.maps, gone)), source, snap)
  {
    hide PairStands, Durable, Mentions;
    DurableParts(s, source, snap);
    FilterStands(s.vdisks, keep, source, snap);
    FilterMapStands(s.maps, (m: LcMap) => m.source !in gone && m.target !in gone, source, snap);
    DurableParts(s.(vdisks := Filter(s.vdisks, keep), relations := DropRelationsOf(s.relations, gone),
                    maps := DropMaps(s.maps, gone)), source, snap);
  }

  lemma {:induction false} RemovesStand(s: State, c: Command, source: string, snap: string)
    requires Durable(s, source, snap) && Spares(s, c, source, snap) && Can(s, c) && (c.RmVdisk? || c.RmVolume?)
    ensures Durable(Apply(s, c), source, snap)
  {
    if c.RmVdisk? {
      RemovalStands(s, {c.name}, (v: Vdisk) => v.name != c.name, source, snap);
    } else {
      RemovalStands(s, NamesOf(s.vdisks, c.name), (v: Vdisk) => v.volume != c.name, source, snap);
    }
  }

  lemma {:induction false} RelationsStand(s: State, c: Command, source: string, snap: string)
    requires Durable(s, source, snap) && Spares(s, c, source, snap) && Can(s, c)
    requires c.RmRelation? || c.MkRelation? || c.ChMasterChange? || c.ChAuxChange?
    ensures Durable(Apply(s, c), source, snap)
  {
    hide PairStands, MapStands, Durable, AddLink, DropLinks;
    DurableParts(s, source, snap);
    match c {
      case RmRelation(id) => DropLinksStands(s.maps, FindRelation(s.relations, id).value, source, snap);
      case MkRelation(_, _) =>
      case ChMasterChange(change, id) =>
        ChangeUnmentioned(s.relations, id, change, source, snap);
        AddLinkStands(s.maps, FindRelation(s.relations, id).value.master, change, s.now, source, snap);
      case ChAuxChange(change, id) =>
        ChangeUnmentioned(s.relations, id, change, source, snap);
        AddLinkStands(s.maps, FindRelation(s.relations, id).value.aux, change, s.now, source, snap);
    }
    DurableParts(Apply(s, c), source, snap);
  }

  lemma {:induction false} OthersStand(s: State, c: Command, source: string, snap: string)
    requires Durable(s, source, snap) && Spares(s, c, source, snap) && Can(s, c)
    requires c.MkVdisk? || c.ExpandVdisk? || c.AddVdiskAccess?
             || c.MkLcMap? || c.StartLcMap? || c.StopLcMap? || c.RmLcMap?
    ensures Durable(Apply(s, c), source, snap)
  {
    hide PairStands, Durable, DistinctMapIds;
    DurableParts(s, source, snap);
    match c {
      case MkVdisk(name, gib, pool, iogrp) =>
        FreeNames(s, name, source, snap);
        AppendStands(s.vdisks, Vdisk(NextVdiskId(s.vdisks), name, name, pool, iogrp, gib * GIB), source, snap);
      case ExpandVdisk(name, gib) => GrowStands(s.vdisks, name, gib, source, snap);
      case MkLcMap(from, to, autodelete) =>
        NewMapStands(s.maps, LcMap(NextMapId(s.maps), from, to, "", autodelete), source, snap);
      case StartLcMap(id) => StartStands(s.maps, id, s.now, source, snap);
      case RmLcMap(id) => FilterMapStands(s.maps, (m: LcMap) => m.id != id, source, snap);
      case _ =>
    }
    DurableParts(Apply(s, c), source, snap);
  }

  /** A sparing command, carried out or not, leaves the snapshot standing. */
  lemma {:induction false} SparingKeeps(s: State, c: Command, source: string, snap: string)
    requires Durable(s, source, snap) && Spares(s, c, source, snap)
    ensures Durable(Execute(s, c).0, source, snap)
  {
    hide Durable, Can, Apply;
    if Up(s) && Can(s, c) {
      match c {
        case MkVolume(_, _, _, _, _, _) => NewVolumeStands(s, c, source, snap);
        case RmVdisk(_) => RemovesStand(s, c, source, snap);
        case RmVolume(_) => RemovesStand(s, c, source, snap);
        case RmRelation(_) => RelationsStand(s, c, source, snap);
        case MkRelation(_, _) => RelationsStand(s, c, source, snap);
        case ChMasterChange(_, _) => RelationsStand(s, c, source, snap);
        case ChAuxChange(_, _) => RelationsStand(s, c, source, snap);
        case _ => OthersStand(s, c, source, snap);
      }
      DurableIgnoresFaults(Apply(s, c), Execute(s, c).0, source, snap);
    } else {
      DurableIgnoresFaults(s, Execute(s, c).0, source, snap);
    }
  }

  lemma {:induction false} DurableIgnoresFaults(s: State, t: State, source: string, snap: string)
    requires Durable(s, source, snap) && SameTables(t, s)
    ensures Durable(t, source, snap)
  {}
}
