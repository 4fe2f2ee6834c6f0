/** When an active-active volume is deleted: the driver allows it to be the source of one local copy, which is
    meant to be its own. */
module AaDeletion {
  import opened Wrappers
  import opened Lists
  import opened VdiskArray
  import opened As18000
  import opened AaExtend
  import opened AaScript
  import opened AaRuns
  import opened ExtendSizes
  import opened ArrayInvariant
  import opened ArrayOrder
  import opened AaCopies
  import opened RoundTrips
  import AaCreation
  import SnapshotAtomic

  /** The local copies from the vdisk onto its change volume, and those onto anything else. */
  function OwnCopies(ms: seq<LcMap>, base: string, change: string): seq<LcMap> {
    Filter(ms, (m: LcMap) => m.source == base && m.target == change)
  }

  function OtherCopies(ms: seq<LcMap>, base: string, change: string): seq<LcMap> {
    Filter(ms, (m: LcMap) => m.source == base && m.target != change)
  }

  lemma {:induction false} CopiesSplit(ms: seq<LcMap>, base: string, change: string)
    ensures |MapsFrom(ms, base)| == |OwnCopies(ms, base, change)| + |OtherCopies(ms, base, change)|
  {
    if ms != [] { CopiesSplit(ms[1..], base, change); }
  }

  /* ---- the rows of a whole volume ---- */

  function VdiskNames(vs: seq<Vdisk>): (names: set<string>)
    ensures forall name :: name in names <==> Exists(vs, name)
  {
    set v | v in vs :: v.name
  }

  lemma {:induction false} CountNames(vs: seq<Vdisk>)
    requires DistinctVdisks(vs)
    ensures |vs| == |VdiskNames(vs)|
  {
    if vs != [] {
      var first, rest := vs[0], vs[1..];
      CountNames(rest);
      FirstName(vs);
      hide VdiskNames, Exists;
      assert VdiskNames(vs) == VdiskNames(rest) + {first.name};
    }
  }

  lemma {:induction false} FirstName(vs: seq<Vdisk>)
    requires vs != [] && DistinctVdisks(vs)
    ensures DistinctVdisks(vs[1..]) && !Exists(vs[1..], vs[0].name)
    ensures forall name :: Exists(vs, name) <==> name == vs[0].name || Exists(vs[1..], name)
  {
    var rest := vs[1..];
    forall v | v in rest ensures v.name != vs[0].name {
      var i :| 0 <= i < |rest| && rest[i] == v;
      assert vs[i + 1] == v;
    }
    assert vs[0] in vs && forall v | v in rest :: v in vs;
    assert forall v | v in vs :: v == vs[0] || v in rest;
  }

  lemma {:induction false} FourListed(s: State, volume: string, a: AaVolume)
    requires DistinctVdisks(s.vdisks) && AllFour(s.vdisks, volume, a)
    ensures |VolumeRows(s, volume)| == 4 && NamesOf(s.vdisks, volume) == Members(a)
  {
    var vs := InVolume(s.vdisks, volume);
    FilterDistinct(s.vdisks, (v: Vdisk) => v.volume == volume);
    CountNames(vs);
    FourIn(s.vdisks, volume, a);
    hide DistinctVdisks, Exists, InVolume;
    assert VdiskNames(vs) == Members(a);
    FourMembers(a);
  }

  lemma {:induction false} FourIn(vs: seq<Vdisk>, volume: string, a: AaVolume)
    requires AllFour(vs, volume, a)
    ensures FourNamesDiffer(a) && NamesOf(vs, volume) == Members(a)
    ensures forall name :: name in Members(a) <==> Exists(InVolume(vs, volume), name)
  {
    forall name ensures name in Members(a) <==> Exists(InVolume(vs, volume), name) {
      if name in Members(a) {
        var v :| v in vs && v.name == name;
        assert v in InVolume(vs, volume);
      }
    }
  }

  lemma {:induction false} FourMembers(a: AaVolume)
    requires FourNamesDiffer(a)
    ensures |Members(a)| == 4
  {
    assert Members(a) == {a.master} + {a.aux} + {a.masterChange} + {a.auxChange};
  }

  /* ---- the law ---- */

  /** With nothing failing, a whole active-active volume, related or not, is deleted exactly when it is the
      source of at most one local copy, counting its own. Then its four vdisks are gone and so is every
      relationship and local copy that touches one; otherwise nothing has changed. */
  lemma {:induction false} AaDeletedIff(s: State, volume: string, a: AaVolume)
    requires DistinctVdisks(s.vdisks) && s.faults == [] && AllFour(s.vdisks, volume, a) && a.master == volume
    ensures var (t, r) := DeleteVolume(s, volume);
      var own, others := |OwnCopies(s.maps, volume, a.masterChange)|, |OtherCopies(s.maps, volume, a.masterChange)|;
      && (r.Ok? <==> own + others <= 1)
      && (r.Ok? ==>
            && (forall v :: v in t.vdisks <==> v in s.vdisks && v.name !in Members(a))
            && (forall q :: q in t.relations
                            <==> q in s.relations && forall name | name in Members(a) :: !Mentions(q, name))
            && (forall m :: m in t.maps <==> m in s.maps && forall name | name in Members(a) :: !Touches(m, name)))
      && (r.Err? ==> (t, r) == (s, Err(SourceOfMaps)))
  {
    hide VolumeRows, MapsFrom, Touches, Mentions, DropVolume, DropRelationsOf, DropMaps, OwnCopies, OtherCopies;
    hide NamesOf;
    assert Spend(s) == s;
    FourListed(s, volume, a);
    CopiesSplit(s.maps, volume, a.masterChange);
    assert a.master in Members(a);
    FourGone(s, volume, a);
  }

  lemma {:induction false} FourGone(s: State, volume: string, a: AaVolume)
    requires AllFour(s.vdisks, volume, a)
    ensures forall v :: v in DropVolume(s.vdisks, volume) <==> v in s.vdisks && v.name !in Members(a)
    ensures forall q :: q in DropRelationsOf(s.relations, Members(a))
                        <==> q in s.relations && forall name | name in Members(a) :: !Mentions(q, name)
    ensures forall m :: m in DropMaps(s.maps, Members(a))
                        <==> m in s.maps && forall name | name in Members(a) :: !Touches(m, name)
  {
    hide Members, Exists;
  }

  /** A volume with its own local copies: it is deleted exactly when it is the source of no other. */
  lemma {:induction false} WholeDeletedIff(s: State, volume: string, a: AaVolume)
    requires DistinctVdisks(s.vdisks) && s.faults == [] && AllFour(s.vdisks, volume, a) && a.master == volume
    requires |OwnCopies(s.maps, volume, a.masterChange)| == 1
    ensures DeleteVolume(s, volume).1.Ok?
      <==> forall m | m in s.maps && m.source == volume :: m.target == a.masterChange
  {
    hide DeleteVolume;
    AaDeletedIff(s, volume, a);
    NoOthers(s.maps, volume, a.masterChange);
  }

  lemma {:induction false} NoOthers(ms: seq<LcMap>, base: string, change: string)
    ensures OtherCopies(ms, base, change) == [] <==> forall m | m in ms && m.source == base :: m.target == change
  {
    var others := OtherCopies(ms, base, change);
    if others != [] { assert others[0] in others; }
    forall m | m in ms && m.source == base && m.target != change ensures others != [] { assert m in others; }
  }

  /* ---- a volume taken apart ---- */

  /** A script that stops after its first to its seventh command leaves both halves without local copies. */
  lemma {:induction false} BrokenScript(s: State, layout: Layout, volume: string, addition: nat, k: nat)
    requires Healthy(s.vdisks, s.relations, layout) && volume in layout && 1 <= k <= 7
    requires AllFour(s.vdisks, volume, layout[volume]) && BothCopied(s.maps, layout[volume])
    ensures var t := ApplyAll(s, AaScriptOf(s, layout[volume], addition)[..k]);
      && AllFour(t.vdisks, volume, layout[volume]) && DistinctVdisks(t.vdisks)
      && Untouched(t.maps, layout[volume].master) && Untouched(t.maps, layout[volume].aux)
  {
    hide Healthy, ApplyAll, AllFour, BothCopied, DropLinks, VdisksAfter, RelationsAfter, MemberRow, Untouched;
    var a := layout[volume];
    HealthyParts(s.vdisks, s.relations, layout, volume);
    MembersExist(s.vdisks, volume, a);
    TablesAfter(s, layout, volume, addition, k);
    MapsDuring(s, layout, volume, addition, k);
    LinksDropped(s.maps, a, RelationOf(s.vdisks, a));
    VdisksAfterSame(s.vdisks, a, addition, k);
    SameButSizesFour(s.vdisks, VdisksAfter(s.vdisks, a, addition, k), volume, a);
    SameDistinct(s.vdisks, VdisksAfter(s.vdisks, a, addition, k));
  }

  lemma {:induction false} SameDistinct(vs: seq<Vdisk>, ws: seq<Vdisk>)
    requires SameButSizes(vs, ws) && DistinctVdisks(vs)
    ensures DistinctVdisks(ws)
  {}

  /** Such a volume can be cloned, and then deleted while the clone is still being copied from it: the one copy
      allowed is not its own. The clone stays without the copy that was to fill it. */
  lemma {:induction false} SourceDeleted(s: State, volume: string, a: AaVolume, clone: string, gib: nat, o: Options)
    requires Sound(s) && s.faults == [] && AllFour(s.vdisks, volume, a) && a.master == volume
    requires Untouched(s.maps, volume) && volume != "" && CloneVolume(s, clone, gib, o, volume, "").1.Ok?
    ensures var t := CloneVolume(s, clone, gib, o, volume, "").0;
      var (u, r) := DeleteVolume(t, volume);
      && (exists m | m in t.maps :: m.source == volume && m.target == clone && m.autodelete)
      && r.Ok? && Exists(u.vdisks, clone) && !Exists(u.vdisks, volume) && forall m | m in u.maps :: m.target != clone
  {
    hide CloneVolume, DeleteVolume, AllFour, Sound, Exists, PlainVdisk, OwnCopies, OtherCopies, NameFree, Untouched;
    hide DistinctVdisks;
    CloneOutcome(s, clone, gib, o, volume, "");
    CloneFaultFree(s, clone, gib, o, volume);
    var t := CloneVolume(s, clone, gib, o, volume, "").0;
    var v, m := PlainVdisk(s, clone, gib, o), CloneMap(s, volume, clone);
    CloneIsApart(s, volume, a, clone, gib, o);
    OneCopy(s.maps, m, a.masterChange);
    AaDeletedIff(t, volume, a);
    assert m in t.maps && v in t.vdisks && Touches(m, volume) && a.master in Members(a);
    var u := DeleteVolume(t, volume).0;
    assert v in u.vdisks && forall n | n in u.maps :: n in t.maps && n != m;
    StillThere(u.vdisks, v);
    Gone(u.vdisks, volume);
  }

  lemma {:induction false} CloneFaultFree(s: State, clone: string, gib: nat, o: Options, volume: string)
    requires s.faults == []
    ensures CloneVolume(s, clone, gib, o, volume, "").0.faults == []
  {
    hide Can, Apply, NextMapId;
  }

  lemma {:induction false} StillThere(vs: seq<Vdisk>, v: Vdisk)
    requires v in vs
    ensures Exists(vs, v.name)
  {}

  lemma {:induction false} Gone(vs: seq<Vdisk>, name: string)
    requires forall v | v in vs :: v.name != name
    ensures !Exists(vs, name)
  {}

  /** The clone's vdisk stands beside the volume, and nothing is mapped onto it yet. */
  lemma {:induction false} CloneIsApart(s: State, volume: string, a: AaVolume, clone: string, gib: nat, o: Options)
    requires Sound(s) && AllFour(s.vdisks, volume, a) && a.master == volume && NameFree(s, clone)
    ensures var v := PlainVdisk(s, clone, gib, o);
      && v.name == clone && clone !in Members(a)
      && AllFour(s.vdisks + [v], volume, a) && DistinctVdisks(s.vdisks + [v])
      && forall m | m in s.maps :: m.target != clone
  {
    hide NextVdiskId;
    var v := PlainVdisk(s, clone, gib, o);
    SnapshotAtomic.FreeOfName(s, clone);
    AppendDistinct(s.vdisks, v);
    var master := FindVdisk(s.vdisks, volume).value;
    assert master in s.vdisks && master.volume == volume != clone;
    AaCreation.OtherStaysWhole(s.vdisks, [v], volume, a);
  }

  lemma {:induction false} OneCopy(ms: seq<LcMap>, m: LcMap, change: string)
    requires Untouched(ms, m.source)
    ensures |OwnCopies(ms + [m], m.source, change)| + |OtherCopies(ms + [m], m.source, change)| == 1
  {
    CopiesFrom(ms, m);
    CopiesSplit(ms + [m], m.source, change);
  }

  lemma {:induction false} CopiesFrom(ms: seq<LcMap>, m: LcMap)
    requires Untouched(ms, m.source)
    ensures MapsFrom(ms + [m], m.source) == [m]
  {
    var source := m.source;
    var from := (n: LcMap) => n.source == source;
    FilterAppend(ms, [m], from);
    FilterNone(ms, from);
    FilterAll([m], from);
  }
}
