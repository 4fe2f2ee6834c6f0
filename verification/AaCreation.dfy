/** A newly created active-active volume is whole, so that all that is proved of extends holds of it. */
module AaCreation {
  import opened Wrappers
  import opened Sizes
  import opened VdiskArray
  import opened As18000
  import opened AaExtend
  import opened AaScript
  import opened ExtendPools
  import opened ArrayInvariant

  function NamedVolume(name: string): AaVolume {
    AaVolume(name, AuxName(name), MasterChangeName(name), AuxChangeName(name))
  }

  lemma {:induction false} PrefixPosition(vs: seq<Vdisk>, more: seq<Vdisk>, name: string, k: nat)
    requires k <= |vs| && VdiskPosition(vs, name, k) < |vs|
    ensures VdiskPosition(vs + more, name, k) == VdiskPosition(vs, name, k)
    decreases |vs| - k
  {
    if vs[k].name != name { PrefixPosition(vs, more, name, k + 1); }
  }

  lemma {:induction false} StillFound(vs: seq<Vdisk>, more: seq<Vdisk>, name: string)
    requires Exists(vs, name)
    ensures Exists(vs + more, name) && FindVdisk(vs + more, name) == FindVdisk(vs, name)
  {
    assert FindVdisk(vs, name).Some?;
    PrefixPosition(vs, more, name, 0);
    assert FindVdisk(vs + more, name).Some?;
  }

  /** New vdisks under new names leave another volume whole. */
  lemma {:induction false} OtherStaysWhole(vs: seq<Vdisk>, more: seq<Vdisk>, volume: string, a: AaVolume)
    requires AllFour(vs, volume, a)
    requires forall v | v in more :: !Exists(vs, v.name) && v.volume != volume
    ensures AllFour(vs + more, volume, a) && RelationOf(vs + more, a) == RelationOf(vs, a)
  {
    forall name | name in Members(a) ensures Exists(vs, name) && Exists(vs + more, name) {
      StillFound(vs, more, name);
    }
    StillFound(vs, more, a.master);
    hide Exists;
    assert forall v | v in vs + more :: v in vs || v in more;
  }

  lemma {:induction false} FourAdded(vs: seq<Vdisk>, more: seq<Vdisk>, name: string)
    requires |more| == 4 && more[0].name == name && more[1].name == AuxName(name)
    requires more[2].name == MasterChangeName(name) && more[3].name == AuxChangeName(name)
    requires forall v | v in more :: v.volume == name && !Exists(vs, v.name)
    requires forall v | v in vs :: v.volume != name
    ensures AllFour(vs + more, name, NamedVolume(name))
  {
    VolumeNamesDiffer(name);
    hide AuxName, MasterChangeName, AuxChangeName;
    var a, ws := NamedVolume(name), vs + more;
    assert more[0] in more && more[1] in more && more[2] in more && more[3] in more;
    assert more[0] in ws && more[1] in ws && more[2] in ws && more[3] in ws;
    assert forall v | v in more :: v == more[0] || v == more[1] || v == more[2] || v == more[3];
    forall v | v in ws ensures v.name in Members(a) <==> v.volume == name {
      if v in vs { assert Exists(vs, v.name); }
    }
  }

  /** What mkvolume adds, vdisk by vdisk. */
  function FourVdisks(s: State, c: Command): seq<Vdisk>
    requires c.MkVolume?
  {
    var id, name, size := NextVdiskId(s.vdisks), c.name, c.gib * GIB;
    [Vdisk(id, name, name, c.pool, c.iogrp, size),
     Vdisk(id + 1, AuxName(name), name, c.auxPool, c.auxIogrp, size),
     Vdisk(id + 2, MasterChangeName(name), name, c.pool, c.iogrp, size),
     Vdisk(id + 3, AuxChangeName(name), name, c.auxPool, c.auxIogrp, size)]
  }

  lemma {:induction false} FourFacts(s: State, c: Command)
    requires c.MkVolume? && Can(s, c)
    ensures var more, a := FourVdisks(s, c), NamedVolume(c.name);
      && |more| == 4 && more[0].name == a.master && more[1].name == a.aux
      && more[2].name == a.masterChange && more[3].name == a.auxChange
      && (forall v | v in more :: v.volume == c.name && !Exists(s.vdisks, v.name))
      && (forall v | v in s.vdisks :: v.volume != c.name)
  {
    hide NextVdiskId, AuxName, MasterChangeName, AuxChangeName, Exists;
  }

  lemma {:induction false} TablesOfNew(s: State, c: Command)
    requires c.MkVolume? && Can(s, c)
    ensures var t, more, a := Apply(s, c), FourVdisks(s, c), NamedVolume(c.name);
      && t.vdisks == s.vdisks + more
      && t.relations == s.relations
         + [Relation(more[0].id, a.master, a.aux, Some(a.masterChange), Some(a.auxChange))]
  {
    hide NextVdiskId, AuxName, MasterChangeName, AuxChangeName, AddLink, Exists;
  }

  /** The new relationship is the one the extend will look for. */
  lemma {:induction false} NewRelation(vs: seq<Vdisk>, v: Vdisk, a: AaVolume)
    requires DistinctVdisks(vs) && v in vs && v.name == a.master
    ensures Exists(vs, a.master)
    ensures RelationOf(vs, a) == Relation(v.id, a.master, a.aux, Some(a.masterChange), Some(a.auxChange))
  {
    FoundVdisk(vs, v);
  }

  lemma {:induction false} NewNotInLayout(vs: seq<Vdisk>, rs: seq<Relation>, layout: Layout, name: string)
    requires Healthy(vs, rs, layout) && forall v | v in vs :: v.volume != name
    ensures name !in layout
  {
    if name in layout {
      HealthyParts(vs, rs, layout, name);
      MemberVolume(vs, layout, name, layout[name].master);
      assert false;
    }
  }

  lemma {:induction false} RelationsStay(vs: seq<Vdisk>, ws: seq<Vdisk>, layout: Layout, next: Layout, r: Relation)
    requires IsRelationOf(vs, layout, r)
    requires forall volume | volume in layout && AllFour(vs, volume, layout[volume]) ::
      && volume in next && next[volume] == layout[volume]
      && AllFour(ws, volume, layout[volume]) && RelationOf(ws, layout[volume]) == RelationOf(vs, layout[volume])
    ensures IsRelationOf(ws, next, r)
  {
    hide Exists, FindVdisk;
    var volume :| volume in layout && AllFour(vs, volume, layout[volume]) && r == RelationOf(vs, layout[volume]);
    assert volume in next && AllFour(ws, volume, next[volume]);
  }

  /** Creating an active-active volume makes it whole: four vdisks of the size asked for, master and its
      change volume in the first pool, aux and its change volume in the second, and the relationship with
      both change volumes. All other active-active volumes stay whole. */
  lemma {:induction false} NewVolumeIsHealthy(s: State, layout: Layout, name: string, gib: nat, o: Options)
    requires Sound(s) && Healthy(s.vdisks, s.relations, layout)
    requires o.level == Some("aa") && CreateVolume(s, name, gib, o).1.Ok?
    ensures o.pool.Some? && o.auxPool.Some?
    ensures var t, a := CreateVolume(s, name, gib, o).0, NamedVolume(name);
      && Healthy(t.vdisks, t.relations, layout[name := a])
      && (forall member | member in Members(a) ::
            Exists(t.vdisks, member) && SizeOf(t.vdisks, member) == gib * GIB)
      && PoolOf(t.vdisks, a.master) == PoolOf(t.vdisks, a.masterChange) == o.pool.value
      && PoolOf(t.vdisks, a.aux) == PoolOf(t.vdisks, a.auxChange) == o.auxPool.value
  {
    hide Sound, Can, Apply, Healthy, AllFour, Members, PoolOf, SizeOf;
    var c := CreateCommand(name, gib, o).value;
    NewVolumeWhole(s, layout, c);
    NewVolumeParts(s, c);
  }

  lemma {:induction false} NewVolumeWhole(s: State, layout: Layout, c: Command)
    requires Sound(s) && Healthy(s.vdisks, s.relations, layout) && c.MkVolume? && Can(s, c)
    ensures var t := Apply(s, c);
      Healthy(t.vdisks, t.relations, layout[c.name := NamedVolume(c.name)])
  {
    NewVolumeSound(s, c);
    SoundDistinct(Apply(s, c));
    FourFacts(s, c);
    TablesOfNew(s, c);
    hide Sound, Can, Apply, Healthy, AllFour, FourVdisks, NextVdiskId, Exists, RelationOf, DistinctVdisks;
    var t, more, name := Apply(s, c), FourVdisks(s, c), c.name;
    FourAdded(s.vdisks, more, name);
    hide NamedVolume;
    NewNotInLayout(s.vdisks, s.relations, layout, name);
    MasterOfFour(t.vdisks, name, NamedVolume(name));
    NewRelation(t.vdisks, more[0], NamedVolume(name));
    WholeAgain(s, t, layout, name, more);
  }

  lemma {:induction false} NewVolumeParts(s: State, c: Command)
    requires Sound(s) && c.MkVolume? && Can(s, c)
    ensures var vs, a := Apply(s, c).vdisks, NamedVolume(c.name);
      && (forall member | member in Members(a) :: Exists(vs, member) && SizeOf(vs, member) == c.gib * GIB)
      && PoolOf(vs, a.master) == PoolOf(vs, a.masterChange) == c.pool
      && PoolOf(vs, a.aux) == PoolOf(vs, a.auxChange) == c.auxPool
  {
    hide Sound, Can, Apply, FourVdisks, NamedVolume, PoolOf, SizeOf, DistinctVdisks, Exists, FindVdisk;
    NewVolumeSound(s, c);
    SoundDistinct(Apply(s, c));
    FourFacts(s, c);
    TablesOfNew(s, c);
    var vs, more, a := Apply(s, c).vdisks, FourVdisks(s, c), NamedVolume(c.name);
    PartsAdded(s, c);
    assert forall v | v in more :: v in vs;
    forall i | 0 <= i < 4
      ensures Exists(vs, more[i].name) && SizeOf(vs, more[i].name) == more[i].size
      ensures PoolOf(vs, more[i].name) == more[i].pool
    {
      assert more[i] in more;
      PartFound(vs, more[i]);
    }
  }

  lemma {:induction false} PartsAdded(s: State, c: Command)
    requires c.MkVolume?
    ensures var more := FourVdisks(s, c);
      && |more| == 4 && (forall i | 0 <= i < 4 :: more[i].size == c.gib * GIB)
      && more[0].pool == more[2].pool == c.pool && more[1].pool == more[3].pool == c.auxPool
  {}

  lemma {:induction false} PartFound(vs: seq<Vdisk>, v: Vdisk)
    requires DistinctVdisks(vs) && v in vs
    ensures Exists(vs, v.name) && SizeOf(vs, v.name) == v.size && PoolOf(vs, v.name) == v.pool
  {
    FoundVdisk(vs, v);
  }

  lemma {:induction false} SoundDistinct(s: State)
    requires Sound(s)
    ensures DistinctVdisks(s.vdisks)
  {}

  lemma {:induction false} WholeAgain(s: State, t: State, layout: Layout, name: string, more: seq<Vdisk>)
    requires Healthy(s.vdisks, s.relations, layout) && name !in layout && DistinctVdisks(t.vdisks)
    requires t.vdisks == s.vdisks + more && forall v | v in more :: !Exists(s.vdisks, v.name) && v.volume == name
    requires AllFour(t.vdisks, name, NamedVolume(name))
    requires t.relations == s.relations + [RelationOf(t.vdisks, NamedVolume(name))]
    ensures Healthy(t.vdisks, t.relations, layout[name := NamedVolume(name)])
  {
    hide AllFour, RelationOf, DistinctVdisks, Exists;
    var next := layout[name := NamedVolume(name)];
    forall volume | volume in layout
      ensures AllFour(s.vdisks, volume, layout[volume]) && AllFour(t.vdisks, volume, layout[volume])
      ensures MasterThere(s.vdisks, layout[volume]) && MasterThere(t.vdisks, layout[volume])
      ensures RelationOf(t.vdisks, layout[volume]) == RelationOf(s.vdisks, layout[volume])
    {
      HealthyParts(s.vdisks, s.relations, layout, volume);
      OtherStaysWhole(s.vdisks, more, volume, layout[volume]);
      MasterOfFour(s.vdisks, volume, layout[volume]);
      MasterOfFour(t.vdisks, volume, layout[volume]);
    }
    MasterOfFour(t.vdisks, name, NamedVolume(name));
    forall r | r in t.relations ensures IsRelationOf(t.vdisks, next, r) {
      if r in s.relations {
        RelationsStay(s.vdisks, t.vdisks, layout, next, r);
      } else {
        assert name in next && r == RelationOf(t.vdisks, next[name]);
      }
    }
    forall volume | volume in next
      ensures AllFour(t.vdisks, volume, next[volume]) && MasterThere(t.vdisks, next[volume])
      ensures RelationOf(t.vdisks, next[volume]) in t.relations
    {
      if volume != name { HealthyParts(s.vdisks, s.relations, layout, volume); }
    }
  }

  predicate MasterThere(vs: seq<Vdisk>, a: AaVolume) { Exists(vs, a.master) }

  lemma {:induction false} MasterOfFour(vs: seq<Vdisk>, volume: string, a: AaVolume)
    requires AllFour(vs, volume, a)
    ensures MasterThere(vs, a)
  {}
}
