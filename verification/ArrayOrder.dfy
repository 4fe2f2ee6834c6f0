/** How the tables hang together over every run: volumes keep to themselves, relationships stay inside a
    volume, and a local copy is either a pair inside a volume or a clone or a snapshot onto a volume of one
    vdisk, of equal size in the snapshot's case. */
module ArrayOrder {
  import opened Wrappers
  import opened Lists
  import opened Sizes
  import opened VdiskArray
  import opened AaExtend
  import opened ArrayInvariant
  import opened ExtendSizes
  import opened AaCreation

  /** The volume a vdisk belongs to. */
  function Home(vs: seq<Vdisk>, name: string): Option<string> {
    var v := FindVdisk(vs, name);
    if v.Some? then Some(v.value.volume) else None
  }

  /** A volume of one vdisk, which has the volume's name. */
  predicate Plain(vs: seq<Vdisk>, name: string) {
    Exists(vs, name) && forall v | v in vs :: v.volume == name <==> v.name == name
  }

  predicate Together(vs: seq<Vdisk>, a: string, b: string) { Home(vs, a).Some? && Home(vs, a) == Home(vs, b) }

  /** Every volume has a vdisk of its own name. */
  predicate Housed(vs: seq<Vdisk>) {
    forall v | v in vs :: Home(vs, v.volume) == Some(v.volume)
  }

  predicate KinOf(vs: seq<Vdisk>, r: Relation) {
    && Exists(vs, r.master) && r.id == IdOf(vs, r.master) && r.master != r.aux && Together(vs, r.master, r.aux)
    && (r.masterChange.Some? ==> Together(vs, r.master, r.masterChange.value))
    && (r.auxChange.Some? ==> Together(vs, r.master, r.auxChange.value))
  }

  predicate Kin(vs: seq<Vdisk>, rs: seq<Relation>) { forall r | r in rs :: KinOf(vs, r) }

  predicate InPair(ms: seq<LcMap>, m: LcMap) {
    exists n | n in ms :: n.source == m.target && n.target == m.source
  }

  predicate EqualSizes(vs: seq<Vdisk>, a: string, b: string) {
    Exists(vs, a) && Exists(vs, b) && SizeOf(vs, a) == SizeOf(vs, b)
  }

  /** Inside a volume a map is half of a pair that stays; between volumes it goes onto a volume of one vdisk,
      and unless it deletes itself it comes from one of the same size. */
  predicate Proper(vs: seq<Vdisk>, ms: seq<LcMap>, m: LcMap) {
    if Together(vs, m.source, m.target) then
      InPair(ms, m) && !m.autodelete && !Plain(vs, m.source) && !Plain(vs, m.target)
    else
      && Plain(vs, m.target)
      && (m.autodelete || (Plain(vs, m.source) && EqualSizes(vs, m.source, m.target)))
  }

  predicate AllProper(vs: seq<Vdisk>, ms: seq<LcMap>) { forall m | m in ms :: Proper(vs, ms, m) }

  /** At most one map goes onto a volume of one vdisk. */
  predicate OneOnto(vs: seq<Vdisk>, ms: seq<LcMap>) {
    forall i, j | 0 <= i < j < |ms| && ms[i].target == ms[j].target :: !Plain(vs, ms[i].target)
  }

  predicate Orderly(s: State) {
    && Sound(s) && Housed(s.vdisks) && Kin(s.vdisks, s.relations)
    && AllProper(s.vdisks, s.maps) && OneOnto(s.vdisks, s.maps)
  }

  /* ---- what order means ---- */

  /** A volume of one vdisk is in no relationship. */
  lemma {:induction false} PlainUnrelated(vs: seq<Vdisk>, rs: seq<Relation>, name: string)
    requires Kin(vs, rs) && Plain(vs, name)
    ensures forall r | r in rs :: !Mentions(r, name)
  {
    forall r | r in rs ensures !Mentions(r, name) {
      assert KinOf(vs, r);
      if Mentions(r, name) {
        PlainApart(vs, name, r.master);
        PlainApart(vs, name, r.aux);
      }
    }
  }

  /** Nothing else is in the volume of a plain vdisk. */
  lemma {:induction false} PlainApart(vs: seq<Vdisk>, name: string, other: string)
    requires Plain(vs, name) && Together(vs, name, other)
    ensures other == name
  {
    assert FindVdisk(vs, name).value in vs && FindVdisk(vs, other).value in vs;
  }

  /** A volume listed as one row is plain. */
  lemma {:induction false} OneRowPlain(s: State, name: string)
    requires DistinctVdisks(s.vdisks) && Housed(s.vdisks) && |VolumeRows(s, name)| == 1
    ensures Plain(s.vdisks, name)
  {
    var vs, listed := s.vdisks, InVolume(s.vdisks, name);
    var v := listed[0];
    assert v in listed && v in vs;
    assert Home(vs, v.volume) == Some(v.volume);
    var w := FindVdisk(vs, name).value;
    assert w in vs && w in listed;
    forall u | u in vs ensures u.volume == name <==> u.name == name {
      if u.volume == name { assert u in listed; }
      if u.name == name { SameVdisk(vs, u, w); }
    }
  }

  lemma {:induction false} HomeOf(vs: seq<Vdisk>, v: Vdisk)
    requires DistinctVdisks(vs) && v in vs
    ensures Home(vs, v.name) == Some(v.volume)
  {
    FoundVdisk(vs, v);
  }

  /* ---- tables that keep order ---- */

  /** The vdisk is where it was, as large as it was, and plain if it was. */
  predicate Unmoved(vs: seq<Vdisk>, ws: seq<Vdisk>, name: string) {
    Exists(ws, name) && FindVdisk(ws, name) == FindVdisk(vs, name) && (Plain(ws, name) <==> Plain(vs, name))
  }

  /** Maps stay proper when their ends do not move and pairs are kept or dropped together. */
  lemma {:induction false} StillProper(vs: seq<Vdisk>, ws: seq<Vdisk>, ms: seq<LcMap>, ns: seq<LcMap>)
    requires AllProper(vs, ms)
    requires forall m | m in ns :: m in ms && Unmoved(vs, ws, m.source) && Unmoved(vs, ws, m.target)
    requires forall m, n | m in ns && n in ms && n.source == m.target && n.target == m.source
                           && Together(vs, m.source, m.target) :: n in ns
    ensures AllProper(ws, ns)
  {
    hide Exists, Plain, FindVdisk;
    forall m | m in ns ensures Proper(ws, ns, m) {
      assert Proper(vs, ms, m);
      if Together(vs, m.source, m.target) {
        var n :| n in ms && n.source == m.target && n.target == m.source;
        assert n in ns;
      }
    }
  }

  lemma {:induction false} StillKin(vs: seq<Vdisk>, ws: seq<Vdisk>, rs: seq<Relation>, qs: seq<Relation>)
    requires Kin(vs, rs)
    requires forall r | r in qs ::
      r in rs && forall name | Exists(vs, name) && Mentions(r, name) :: Unmoved(vs, ws, name)
    ensures Kin(ws, qs)
  {
    hide Plain, Exists;
    forall r | r in qs ensures KinOf(ws, r) {
      assert KinOf(vs, r);
      forall name | Mentions(r, name) && Home(vs, name).Some? ensures Unmoved(vs, ws, name) { HomeExists(vs, name); }
      assert Mentions(r, r.master) && Mentions(r, r.aux);
      assert r.masterChange.Some? ==> Mentions(r, r.masterChange.value);
      assert r.auxChange.Some? ==> Mentions(r, r.auxChange.value);
    }
  }

  lemma {:induction false} FilterOneOnto(vs: seq<Vdisk>, ms: seq<LcMap>, keep: LcMap -> bool)
    requires OneOnto(vs, ms)
    ensures OneOnto(vs, Filter(ms, keep))
  {
    hide Plain;
    if ms != [] {
      forall i, j | 0 <= i < j < |ms[1..]| && ms[1..][i].target == ms[1..][j].target
        ensures !Plain(vs, ms[1..][i].target)
      {
        assert ms[i + 1].target == ms[j + 1].target;
      }
      FilterOneOnto(vs, ms[1..], keep);
      if keep(ms[0]) {
        var rest := Filter(ms[1..], keep);
        forall j | 0 <= j < |rest| && rest[j].target == ms[0].target ensures !Plain(vs, ms[0].target) {
          assert rest[j] in rest;
          var i :| 0 <= i < |ms[1..]| && ms[1..][i] == rest[j];
          assert ms[i + 1] == rest[j];
        }
      }
    }
  }

  lemma {:induction false} OneOntoMoved(vs: seq<Vdisk>, ws: seq<Vdisk>, ms: seq<LcMap>)
    requires OneOnto(vs, ms) && forall m | m in ms :: Unmoved(vs, ws, m.target)
    ensures OneOnto(ws, ms)
  {
    hide Plain, Exists;
    forall i, j | 0 <= i < j < |ms| && ms[i].target == ms[j].target ensures !Plain(ws, ms[i].target) {
      assert ms[i] in ms;
    }
  }

  /* ---- adding vdisks ---- */

  /** New vdisks of a new volume, one of them of the volume's name. */
  predicate NewVolumeOf(vs: seq<Vdisk>, more: seq<Vdisk>, volume: string) {
    && (forall v | v in more :: v.volume == volume && !Exists(vs, v.name))
    && (exists v | v in more :: v.name == volume)
    && (forall v | v in vs :: v.volume != volume)
  }

  lemma {:induction false} AddedUnmoved(vs: seq<Vdisk>, more: seq<Vdisk>, volume: string, name: string)
    requires NewVolumeOf(vs, more, volume) && Exists(vs, name)
    ensures Unmoved(vs, vs + more, name)
  {
    StillFound(vs, more, name);
    var v := FindVdisk(vs, name).value;
    assert v in vs && name != volume by {
      var w :| w in more && w.name == volume;
      assert !Exists(vs, w.name);
    }
    forall w | w in more ensures w.name != name && w.volume != name {}
    assert forall w | w in vs :: w in vs + more;
  }

  lemma {:induction false} AddedHoused(vs: seq<Vdisk>, more: seq<Vdisk>, volume: string)
    requires Housed(vs) && NewVolumeOf(vs, more, volume) && DistinctVdisks(vs + more)
    ensures Housed(vs + more) && Home(vs + more, volume) == Some(volume)
  {
    hide Exists;
    var ws := vs + more;
    var house :| house in more && house.name == volume;
    assert house in ws;
    HomeOf(ws, house);
    forall v | v in ws ensures Home(ws, v.volume) == Some(v.volume) {
      if v in vs {
        assert Home(vs, v.volume) == Some(v.volume);
        assert Exists(vs, v.volume) by { HomeExists(vs, v.volume); }
        AddedUnmoved(vs, more, volume, v.volume);
      }
    }
  }

  lemma {:induction false} HomeExists(vs: seq<Vdisk>, name: string)
    ensures Home(vs, name).Some? <==> Exists(vs, name)
  {}

  lemma {:induction false} AddedOrder(s: State, more: seq<Vdisk>, volume: string)
    requires Orderly(s) && NewVolumeOf(s.vdisks, more, volume) && DistinctVdisks(s.vdisks + more)
    ensures var ws := s.vdisks + more;
      Housed(ws) && Kin(ws, s.relations) && AllProper(ws, s.maps) && OneOnto(ws, s.maps)
  {
    hide Plain, Exists, Proper, KinOf, Mentions, NewVolumeOf, Housed, WholeGib, DistinctVdisks, DistinctMapIds;
    hide FindVdisk, OneOnto;
    var vs, ws := s.vdisks, s.vdisks + more;
    AddedHoused(vs, more, volume);
    forall name | Exists(vs, name) ensures Unmoved(vs, ws, name) { AddedUnmoved(vs, more, volume, name); }
    StillKin(vs, ws, s.relations, s.relations);
    StillProper(vs, ws, s.maps, s.maps);
    OneOntoMoved(vs, ws, s.maps);
  }

  /* ---- removing a volume ---- */

  lemma {:induction false} KeptFound(vs: seq<Vdisk>, volume: string, name: string)
    requires DistinctVdisks(vs) && Housed(vs) && Exists(vs, name) && name !in NamesOf(vs, volume)
    ensures Unmoved(vs, DropVolume(vs, volume), name)
  {
    var ws, v := DropVolume(vs, volume), FindVdisk(vs, name).value;
    assert v in vs && v.volume != volume && v in ws;
    FilterDistinct(vs, (w: Vdisk) => w.volume != volume);
    FoundVdisk(ws, v);
    forall w | w in vs && w.volume == volume ensures w.name != name && w.volume != name {
      assert Home(vs, w.volume) == Some(w.volume);
    }
  }

  lemma {:induction false} DroppedHoused(vs: seq<Vdisk>, volume: string)
    requires DistinctVdisks(vs) && Housed(vs)
    ensures Housed(DropVolume(vs, volume))
  {
    var ws := DropVolume(vs, volume);
    forall v | v in ws ensures Home(ws, v.volume) == Some(v.volume) {
      assert v in vs && v.volume != volume;
      assert Home(vs, v.volume) == Some(v.volume);
      HomeExists(vs, v.volume);
      forall w | w in vs && w.name == v.volume ensures w.volume == v.volume { HomeOf(vs, w); }
      KeptFound(vs, volume, v.volume);
    }
  }

  lemma {:induction false} RemovalOrder(s: State, volume: string)
    requires Orderly(s)
    ensures var gone, ws := NamesOf(s.vdisks, volume), DropVolume(s.vdisks, volume);
      && Housed(ws) && Kin(ws, DropRelationsOf(s.relations, gone))
      && AllProper(ws, DropMaps(s.maps, gone)) && OneOnto(ws, DropMaps(s.maps, gone))
  {
    hide Plain, Exists, Proper, KinOf, Mentions, Housed, WholeGib, DistinctVdisks, DistinctMapIds, FindVdisk, OneOnto;
    hide NamesOf, DropVolume;
    var vs, gone, ws := s.vdisks, NamesOf(s.vdisks, volume), DropVolume(s.vdisks, volume);
    DroppedHoused(vs, volume);
    forall name | Exists(vs, name) && name !in gone ensures Unmoved(vs, ws, name) { KeptFound(vs, volume, name); }
    StillKin(vs, ws, s.relations, DropRelationsOf(s.relations, gone));
    var keep := (m: LcMap) => m.source !in gone && m.target !in gone;
    StillProper(vs, ws, s.maps, DropMaps(s.maps, gone));
    FilterOneOnto(vs, s.maps, keep);
    OneOntoMoved(vs, ws, DropMaps(s.maps, gone));
  }

  /** Removing a plain vdisk is removing its volume. */
  lemma {:induction false} PlainRemoval(s: State, name: string)
    requires Plain(s.vdisks, name)
    ensures NamesOf(s.vdisks, name) == {name} && DropVdisk(s.vdisks, name) == DropVolume(s.vdisks, name)
  {
    var v := FindVdisk(s.vdisks, name).value;
    assert v in s.vdisks;
    SameFilter(s.vdisks, (w: Vdisk) => w.name != name, (w: Vdisk) => w.volume != name);
  }

  lemma {:induction false} SameFilter(vs: seq<Vdisk>, p: Vdisk -> bool, q: Vdisk -> bool)
    requires forall v | v in vs :: p(v) <==> q(v)
    ensures Filter(vs, p) == Filter(vs, q)
  {
    if vs != [] {
      assert vs[0] in vs;
      SameFilter(vs[1..], p, q);
    }
  }

  /* ---- growing ---- */

  lemma {:induction false} GrownPlain(vs: seq<Vdisk>, grown: string, gib: nat, name: string)
    ensures Plain(Grow(vs, grown, gib), name) <==> Plain(vs, name)
    ensures Home(Grow(vs, grown, gib), name) == Home(vs, name)
    ensures Exists(vs, name) ==> IdOf(Grow(vs, grown, gib), name) == IdOf(vs, name)
  {
    var ws := Grow(vs, grown, gib);
    GrowFound(vs, grown, gib, name);
    HomeExists(vs, name);
    HomeExists(ws, name);
    if forall v | v in vs :: v.volume == name <==> v.name == name {
      forall w | w in ws ensures w.volume == name <==> w.name == name {
        var i :| 0 <= i < |ws| && ws[i] == w;
        assert vs[i] in vs;
      }
    }
    if forall w | w in ws :: w.volume == name <==> w.name == name {
      forall v | v in vs ensures v.volume == name <==> v.name == name {
        var i :| 0 <= i < |vs| && vs[i] == v;
        assert ws[i] in ws;
      }
    }
  }

  lemma {:induction false} GrowOrder(s: State, name: string, gib: nat)
    requires Orderly(s) && (!Plain(s.vdisks, name) || forall m | m in s.maps :: !Touches(m, name))
    ensures var ws := Grow(s.vdisks, name, gib);
      Housed(ws) && Kin(ws, s.relations) && AllProper(ws, s.maps) && OneOnto(ws, s.maps)
  {
    hide Plain, Grow, Home, Exists, WholeGib, DistinctVdisks, DistinctMapIds, InPair, IdOf, MapsAttached;
    hide RelationsAttached;
    var vs, ws := s.vdisks, Grow(s.vdisks, name, gib);
    forall other ensures (Plain(ws, other) <==> Plain(vs, other)) && Home(ws, other) == Home(vs, other) {
      GrownPlain(vs, name, gib, other);
    }
    forall w | w in ws ensures Home(ws, w.volume) == Some(w.volume) {
      var v := GrownFrom(vs, name, gib, w);
    }
    forall r | r in s.relations ensures KinOf(ws, r) {
      assert KinOf(vs, r);
      HomeExists(vs, r.master);
      HomeExists(ws, r.master);
      GrownPlain(vs, name, gib, r.master);
    }
    forall m | m in s.maps ensures Proper(ws, s.maps, m) {
      assert Proper(vs, s.maps, m);
      if !Together(vs, m.source, m.target) && !m.autodelete {
        SizeKept(vs, name, gib, m.source);
        SizeKept(vs, name, gib, m.target);
      }
    }
  }

  lemma {:induction false} GrownFrom(vs: seq<Vdisk>, name: string, gib: nat, w: Vdisk) returns (v: Vdisk)
    requires w in Grow(vs, name, gib)
    ensures v in vs && v.volume == w.volume && v.name == w.name
  {
    var i :| 0 <= i < |vs| && Grow(vs, name, gib)[i] == w;
    v := vs[i];
  }

  lemma {:induction false} SizeKept(vs: seq<Vdisk>, grown: string, gib: nat, name: string)
    requires name != grown && Exists(vs, name)
    ensures Exists(Grow(vs, grown, gib), name) && SizeOf(Grow(vs, grown, gib), name) == SizeOf(vs, name)
  {
    GrowFound(vs, grown, gib, name);
  }

  /* ---- commands ---- */

  /** What the driver keeps to when it issues a command; the array does not check it. */
  ghost predicate Fits(s: State, c: Command) {
    match c
    case RmVdisk(name) => Plain(s.vdisks, name)
    case ExpandVdisk(name, _) => !Plain(s.vdisks, name) || forall m | m in s.maps :: !Touches(m, name)
    case MkRelation(master, aux) => Together(s.vdisks, master, aux)
    case ChMasterChange(change, id) =>
      forall r | r in s.relations && r.id == id ::
        Together(s.vdisks, r.master, change) && !Plain(s.vdisks, r.master) && !Plain(s.vdisks, change)
    case ChAuxChange(change, id) =>
      forall r | r in s.relations && r.id == id ::
        Together(s.vdisks, r.aux, change) && !Plain(s.vdisks, r.aux) && !Plain(s.vdisks, change)
    case MkLcMap(source, target, autodelete) =>
      && Plain(s.vdisks, target)
      && (autodelete || (Plain(s.vdisks, source) && EqualSizes(s.vdisks, source, target)))
    case RmLcMap(id) => forall m | m in s.maps && m.id == id :: !Together(s.vdisks, m.source, m.target)
    case _ => true
  }

  lemma {:induction false} Reassemble(s: State)
    requires Sound(s) && Housed(s.vdisks) && Kin(s.vdisks, s.relations)
    requires AllProper(s.vdisks, s.maps) && OneOnto(s.vdisks, s.maps)
    ensures Orderly(s)
  {}

  lemma {:induction false} ProperMore(vs: seq<Vdisk>, ms: seq<LcMap>, ns: seq<LcMap>, m: LcMap)
    requires Proper(vs, ms, m) && forall n | n in ms :: n in ns
    ensures Proper(vs, ns, m)
  {
    hide Plain, Home, EqualSizes;
  }

  lemma {:induction false} AppendOneOnto(vs: seq<Vdisk>, ms: seq<LcMap>, m: LcMap)
    requires OneOnto(vs, ms) && (!Plain(vs, m.target) || forall n | n in ms :: n.target != m.target)
    ensures OneOnto(vs, ms + [m])
  {
    hide Plain;
    forall i, j | 0 <= i < j < |ms + [m]| && (ms + [m])[i].target == (ms + [m])[j].target
      ensures !Plain(vs, (ms + [m])[i].target)
    {
      assert ms[i] in ms;
    }
  }

  lemma {:induction false} ProperInside(vs: seq<Vdisk>, ms: seq<LcMap>, m: LcMap, n: LcMap)
    requires n in ms && n.source == m.target && n.target == m.source && !m.autodelete
    requires Together(vs, m.source, m.target) && !Plain(vs, m.source) && !Plain(vs, m.target)
    ensures Proper(vs, ms, m)
  {
    hide Plain, Home, EqualSizes;
  }

  lemma {:induction false} PairOrder(vs: seq<Vdisk>, ms: seq<LcMap>, one: LcMap, two: LcMap)
    requires AllProper(vs, ms) && OneOnto(vs, ms)
    requires one.source == two.target && one.target == two.source && !one.autodelete && !two.autodelete
    requires Together(vs, one.source, one.target) && !Plain(vs, one.source) && !Plain(vs, one.target)
    ensures AllProper(vs, ms + [one, two]) && OneOnto(vs, ms + [one, two])
  {
    hide Plain, Home, EqualSizes, OneOnto, Proper;
    var ns := ms + [one, two];
    assert one in ns && two in ns && forall m | m in ns :: m in ms || m == one || m == two;
    ProperInside(vs, ns, one, two);
    ProperInside(vs, ns, two, one);
    forall m | m in ms ensures Proper(vs, ns, m) { ProperMore(vs, ms, ns, m); }
    AppendOneOnto(vs, ms, one);
    AppendOneOnto(vs, ms + [one], two);
    assert ms + [one] + [two] == ns;
  }

  lemma {:induction false} LinkOrder(vs: seq<Vdisk>, ms: seq<LcMap>, base: string, change: string, now: string)
    requires AllProper(vs, ms) && OneOnto(vs, ms)
    requires Together(vs, base, change) && !Plain(vs, base) && !Plain(vs, change)
    ensures AllProper(vs, AddLink(ms, base, change, now)) && OneOnto(vs, AddLink(ms, base, change, now))
  {
    hide AllProper, OneOnto, Plain, Home;
    var id := NextMapId(ms);
    PairOrder(vs, ms, LcMap(id, base, change, now, false), LcMap(id + 1, change, base, now, false));
  }

  lemma {:induction false} MapOrder(vs: seq<Vdisk>, ms: seq<LcMap>, m: LcMap)
    requires AllProper(vs, ms) && OneOnto(vs, ms) && forall n | n in ms :: n.target != m.target
    requires Proper(vs, ms, m) && !Together(vs, m.source, m.target)
    ensures AllProper(vs, ms + [m]) && OneOnto(vs, ms + [m])
  {
    hide Plain, Home, EqualSizes, OneOnto, Proper;
    forall n | n in ms + [m] ensures Proper(vs, ms + [m], n) { ProperMore(vs, ms, ms + [m], n); }
    AppendOneOnto(vs, ms, m);
  }

  lemma {:induction false} FilterMapOrder(vs: seq<Vdisk>, ms: seq<LcMap>, keep: LcMap -> bool)
    requires AllProper(vs, ms) && OneOnto(vs, ms)
    requires forall m, n | m in ms && n in ms && n.source == m.target && n.target == m.source
                           && Together(vs, m.source, m.target) :: keep(m) <==> keep(n)
    ensures AllProper(vs, Filter(ms, keep)) && OneOnto(vs, Filter(ms, keep))
  {
    hide Plain, Home, EqualSizes, OneOnto;
    FilterOneOnto(vs, ms, keep);
    forall m | m in Filter(ms, keep) ensures Proper(vs, Filter(ms, keep), m) {
      assert Proper(vs, ms, m);
      if Together(vs, m.source, m.target) {
        var n :| n in ms && n.source == m.target && n.target == m.source;
        assert n in Filter(ms, keep);
      }
    }
  }

  lemma {:induction false} StartOrder(vs: seq<Vdisk>, ms: seq<LcMap>, id: nat, now: string)
    requires AllProper(vs, ms) && OneOnto(vs, ms)
    ensures AllProper(vs, Start(ms, id, now)) && OneOnto(vs, Start(ms, id, now))
  {
    hide Plain, Home, EqualSizes, Together;
    var ns := Start(ms, id, now);
    forall m | m in ns ensures Proper(vs, ns, m) {
      var i :| 0 <= i < |ns| && ns[i] == m;
      assert ms[i] in ms && Proper(vs, ms, ms[i]);
      if Together(vs, m.source, m.target) { PairStarted(ms, id, now, ms[i]); }
    }
    forall i, j | 0 <= i < j < |ns| && ns[i].target == ns[j].target ensures !Plain(vs, ns[i].target) {
      assert ms[i].target == ms[j].target;
    }
  }

  lemma {:induction false} PairStarted(ms: seq<LcMap>, id: nat, now: string, m: LcMap)
    requires InPair(ms, m)
    ensures InPair(Start(ms, id, now), m)
  {
    var n :| n in ms && n.source == m.target && n.target == m.source;
    var j :| 0 <= j < |ms| && ms[j] == n;
    assert Start(ms, id, now)[j] in Start(ms, id, now);
  }

  lemma {:induction false} LinksDroppedOrder(vs: seq<Vdisk>, ms: seq<LcMap>, base: string, change: Option<string>)
    requires AllProper(vs, ms) && OneOnto(vs, ms)
    ensures AllProper(vs, DropLink(ms, base, change)) && OneOnto(vs, DropLink(ms, base, change))
  {
    hide Plain, Home, EqualSizes, AllProper, OneOnto;
    FilterMapOrder(vs, ms, (m: LcMap) => change.None? || !Links(m, base, change.value));
  }

  /** The four vdisks of a new active-active volume are not plain. */
  lemma {:induction false} NotAlone(vs: seq<Vdisk>, v: Vdisk, w: Vdisk)
    requires DistinctVdisks(vs) && v in vs && w in vs && v.name != w.name && v.volume == w.volume
    ensures !Plain(vs, v.name) && Together(vs, v.name, w.name)
  {
    HomeOf(vs, v);
    HomeOf(vs, w);
  }

  lemma {:induction false} NewVolumeOrder(s: State, c: Command)
    requires Orderly(s) && c.MkVolume? && Can(s, c)
    ensures Orderly(Apply(s, c))
  {
    hide Orderly, Can, Apply, Sound, FourVdisks, NextVdiskId, AddLink, Housed, Kin, AllProper, OneOnto, Plain, Together;
    hide AuxName, MasterChangeName, AuxChangeName, DistinctVdisks, Exists, IdOf, KinOf;
    OrderlyParts(s);
    NewVolumeSound(s, c);
    FourFacts(s, c);
    TablesOfNew(s, c);
    VolumeNamesDiffer(c.name);
    var t, more, a := Apply(s, c), FourVdisks(s, c), NamedVolume(c.name);
    SoundDistinct(t);
    assert more[0] in more && more[1] in more && more[2] in more && more[3] in more;
    assert more[0] in t.vdisks && more[1] in t.vdisks && more[2] in t.vdisks && more[3] in t.vdisks;
    AddedOrder(s, more, c.name);
    NotAlone(t.vdisks, more[0], more[1]);
    NotAlone(t.vdisks, more[1], more[0]);
    NotAlone(t.vdisks, more[0], more[2]);
    NotAlone(t.vdisks, more[2], more[0]);
    NotAlone(t.vdisks, more[0], more[3]);
    NotAlone(t.vdisks, more[3], more[1]);
    NotAlone(t.vdisks, more[1], more[3]);
    var r := Relation(more[0].id, a.master, a.aux, Some(a.masterChange), Some(a.auxChange));
    NewKin(t.vdisks, s.relations, more[0], r);
    LinkOrder(t.vdisks, s.maps, a.master, a.masterChange, s.now);
    LinkOrder(t.vdisks, AddLink(s.maps, a.master, a.masterChange, s.now), a.aux, a.auxChange, s.now);
    MapsOfNew(s, c);
    Reassemble(t);
  }

  lemma {:induction false} MapsOfNew(s: State, c: Command)
    requires c.MkVolume? && Can(s, c)
    ensures var a := NamedVolume(c.name);
      Apply(s, c).maps == AddLink(AddLink(s.maps, a.master, a.masterChange, s.now), a.aux, a.auxChange, s.now)
  {
    hide NextVdiskId, AddLink, AuxName, MasterChangeName, AuxChangeName, Exists;
  }

  lemma {:induction false} NewKin(vs: seq<Vdisk>, rs: seq<Relation>, v: Vdisk, r: Relation)
    requires Kin(vs, rs) && DistinctVdisks(vs) && v in vs && r.master == v.name && r.id == v.id && r.master != r.aux
    requires Together(vs, r.master, r.aux)
    requires r.masterChange.Some? ==> Together(vs, r.master, r.masterChange.value)
    requires r.auxChange.Some? ==> Together(vs, r.master, r.auxChange.value)
    ensures Kin(vs, rs + [r])
  {
    hide Together;
    FoundVdisk(vs, v);
  }

  lemma {:induction false} OrderlyParts(s: State)
    requires Orderly(s)
    ensures Sound(s) && DistinctVdisks(s.vdisks) && Housed(s.vdisks) && Kin(s.vdisks, s.relations)
    ensures AllProper(s.vdisks, s.maps) && OneOnto(s.vdisks, s.maps)
  {}

  lemma {:induction false} PlainVolumeOrder(s: State, c: Command)
    requires Orderly(s) && c.MkVdisk? && Can(s, c)
    ensures Orderly(Apply(s, c))
    ensures Plain(Apply(s, c).vdisks, c.name)
  {
    hide Orderly, Sound, NextVdiskId, Housed, Kin, AllProper, OneOnto;
    OrderlyParts(s);
    VdiskCommandSound(s, c);
    var t := Apply(s, c);
    var v := Vdisk(NextVdiskId(s.vdisks), c.name, c.name, c.pool, c.iogrp, c.gib * GIB);
    SoundDistinct(t);
    assert v in [v];
    AddedOrder(s, [v], c.name);
    assert v in t.vdisks;
    Reassemble(t);
  }

  lemma {:induction false} RemovesOrder(s: State, c: Command)
    requires Orderly(s) && Can(s, c) && Fits(s, c) && (c.RmVdisk? || c.RmVolume?)
    ensures Orderly(Apply(s, c))
  {
    hide Orderly, Sound, Housed, Kin, AllProper, OneOnto, Plain, DropVdisk, DropVolume, DropRelationsOf, DropMaps;
    hide NamesOf;
    OrderlyParts(s);
    VdiskCommandSound(s, c);
    RemovalOrder(s, c.name);
    if c.RmVdisk? { PlainRemoval(s, c.name); }
    Reassemble(Apply(s, c));
  }

  lemma {:induction false} ExpandOrder(s: State, c: Command)
    requires Orderly(s) && Can(s, c) && Fits(s, c) && c.ExpandVdisk?
    ensures Orderly(Apply(s, c))
  {
    hide Orderly, Sound, Housed, Kin, AllProper, OneOnto, Plain, Grow, Exists;
    OrderlyParts(s);
    VdiskCommandSound(s, c);
    GrowOrder(s, c.name, c.gib);
    Reassemble(Apply(s, c));
  }

  lemma {:induction false} ChangedKin(vs: seq<Vdisk>, rs: seq<Relation>, id: nat, change: string)
    requires Kin(vs, rs) && forall r | r in rs && r.id == id :: Together(vs, r.master, change)
    ensures Kin(vs, WithMasterChange(rs, id, change)) && Kin(vs, WithAuxChange(rs, id, change))
  {
    hide Together, Exists, IdOf;
    forall r | r in WithMasterChange(rs, id, change) ensures KinOf(vs, r) {
      var i :| 0 <= i < |rs| && WithMasterChange(rs, id, change)[i] == r;
      assert rs[i] in rs && KinOf(vs, rs[i]);
    }
    forall r | r in WithAuxChange(rs, id, change) ensures KinOf(vs, r) {
      var i :| 0 <= i < |rs| && WithAuxChange(rs, id, change)[i] == r;
      assert rs[i] in rs && KinOf(vs, rs[i]);
    }
  }

  lemma {:induction false} RelationOrder(s: State, c: Command)
    requires Orderly(s) && Can(s, c) && Fits(s, c)
    requires c.RmRelation? || c.MkRelation? || c.ChMasterChange? || c.ChAuxChange?
    ensures Orderly(Apply(s, c))
  {
    hide Orderly, Sound, Housed, AllProper, OneOnto, Plain, AddLink, Exists, DropLink, Home, IdOf;
    OrderlyParts(s);
    RelationCommandSound(s, c);
    match c {
      case RmRelation(id) =>
        var r := FindRelation(s.relations, id).value;
        LinksDroppedOrder(s.vdisks, s.maps, r.master, r.masterChange);
        LinksDroppedOrder(s.vdisks, DropLink(s.maps, r.master, r.masterChange), r.aux, r.auxChange);
      case MkRelation(master, aux) =>
        NewRelationKin(s, master, aux);
      case ChMasterChange(change, id) =>
        var r := FindRelation(s.relations, id).value;
        ChangedKin(s.vdisks, s.relations, id, change);
        LinkOrder(s.vdisks, s.maps, r.master, change, s.now);
      case ChAuxChange(change, id) =>
        var r := FindRelation(s.relations, id).value;
        forall q | q in s.relations && q.id == id ensures Together(s.vdisks, q.master, change) {
          assert KinOf(s.vdisks, q);
        }
        ChangedKin(s.vdisks, s.relations, id, change);
        LinkOrder(s.vdisks, s.maps, r.aux, change, s.now);
    }
    hide Kin;
    Reassemble(Apply(s, c));
  }

  lemma {:induction false} NewRelationKin(s: State, master: string, aux: string)
    requires Kin(s.vdisks, s.relations) && Exists(s.vdisks, master) && master != aux && Together(s.vdisks, master, aux)
    ensures Kin(s.vdisks, s.relations + [Relation(FindVdisk(s.vdisks, master).value.id, master, aux, None, None)])
  {
    hide Together;
  }

  lemma {:induction false} MapCommandOrder(s: State, c: Command)
    requires Orderly(s) && Can(s, c) && Fits(s, c)
    requires c.AddVdiskAccess? || c.MkLcMap? || c.StartLcMap? || c.StopLcMap? || c.RmLcMap?
    ensures Orderly(Apply(s, c))
  {
    hide Orderly, Sound, Housed, Kin, AllProper, OneOnto, Exists, DropMap;
    OrderlyParts(s);
    MapCommandSound(s, c);
    match c {
      case MkLcMap(source, target, autodelete) =>
        if Together(s.vdisks, target, source) { PlainApart(s.vdisks, target, source); }
        hide Plain, Home, NextMapId;
        MapOrder(s.vdisks, s.maps, LcMap(NextMapId(s.maps), source, target, "", autodelete));
      case StartLcMap(id) => StartOrder(s.vdisks, s.maps, id, s.now);
      case RmLcMap(id) => MapRemovalOrder(s, id);
      case _ =>
    }
    Reassemble(Apply(s, c));
  }

  lemma {:induction false} MapRemovalOrder(s: State, id: nat)
    requires AllProper(s.vdisks, s.maps) && OneOnto(s.vdisks, s.maps)
    requires forall m | m in s.maps && m.id == id :: !Together(s.vdisks, m.source, m.target)
    ensures AllProper(s.vdisks, DropMap(s.maps, id)) && OneOnto(s.vdisks, DropMap(s.maps, id))
  {
    hide AllProper, OneOnto, Home;
    FilterMapOrder(s.vdisks, s.maps, (m: LcMap) => m.id != id);
  }

  /** A fitting command, carried out or not, keeps order. */
  lemma {:induction false} FittingKeeps(s: State, c: Command)
    requires Orderly(s) && Fits(s, c)
    ensures Orderly(Execute(s, c).0)
  {
    hide Orderly, Can, Apply, Fits;
    OrderlyParts(s);
    if Up(s) && Can(s, c) {
      match c {
        case MkVolume(_, _, _, _, _, _) => NewVolumeOrder(s, c);
        case MkVdisk(_, _, _, _) => PlainVolumeOrder(s, c);
        case RmVdisk(_) => RemovesOrder(s, c);
        case RmVolume(_) => RemovesOrder(s, c);
        case ExpandVdisk(_, _) => ExpandOrder(s, c);
        case RmRelation(_) => RelationOrder(s, c);
        case MkRelation(_, _) => RelationOrder(s, c);
        case ChMasterChange(_, _) => RelationOrder(s, c);
        case ChAuxChange(_, _) => RelationOrder(s, c);
        case _ => MapCommandOrder(s, c);
      }
      NowStays(s, c);
      OrderIgnoresFaults(Apply(s, c), Execute(s, c).0.faults, s.now);
    } else {
      OrderIgnoresFaults(s, Execute(s, c).0.faults, s.now);
    }
  }

  lemma {:induction false} OrderIgnoresFaults(s: State, faults: seq<bool>, now: string)
    requires Orderly(s) && (now == s.now || now != "")
    ensures Orderly(s.(faults := faults, now := now))
  {}

  lemma {:induction false} EmptyIsOrderly(now: string, faults: seq<bool>)
    requires now != ""
    ensures Orderly(State([], [], [], now, faults))
  {}
}
