/** The local copies of active-active volumes: a new volume has the two of each half, a successful extend
    makes them anew, and so the pre-check of the next extend asks for nothing but room. */
module AaCopies {
  import opened Wrappers
  import opened Text
  import opened Lists
  import opened Sizes
  import opened VdiskArray
  import opened As18000
  import opened AaExtend
  import opened AaScript
  import opened AaRuns
  import opened ExtendSizes
  import opened ExtendPools
  import opened AaCreation
  import opened ArrayInvariant
  import RoundTrips
  import SnapshotAtomic

  /** The vdisk has two local copies, both between it and its change volume. */
  ghost predicate Copied(ms: seq<LcMap>, base: string, change: string) {
    && |TouchingMaps(ms, base)| == 2
    && forall m | m in ms && Touches(m, base) :: Links(m, base, change)
  }

  ghost predicate BothCopied(ms: seq<LcMap>, a: AaVolume) {
    Copied(ms, a.master, a.masterChange) && Copied(ms, a.aux, a.auxChange)
  }

  predicate FourNamesDiffer(a: AaVolume) {
    && a.master != a.aux && a.master != a.masterChange && a.master != a.auxChange
    && a.aux != a.masterChange && a.aux != a.auxChange && a.masterChange != a.auxChange
  }

  predicate Untouched(ms: seq<LcMap>, name: string) { forall m | m in ms :: !Touches(m, name) }

  lemma {:induction false} TouchingMore(ms: seq<LcMap>, more: seq<LcMap>, name: string, all: bool)
    requires forall m | m in more :: Touches(m, name) <==> all
    ensures |TouchingMaps(ms + more, name)| == |TouchingMaps(ms, name)| + if all then |more| else 0
  {
    var touches := (m: LcMap) => Touches(m, name);
    FilterAppend(ms, more, touches);
    hide Filter, Touches;
    if all { FilterAll(more, touches); } else { FilterNone(more, touches); }
  }

  lemma {:induction false} LinkCount(ms: seq<LcMap>, base: string, change: string, now: string, name: string)
    ensures |TouchingMaps(AddLink(ms, base, change, now), name)|
      == |TouchingMaps(ms, name)| + if name == base || name == change then 2 else 0
  {
    hide NextMapId, TouchingMaps;
    var id := NextMapId(ms);
    var links := [LcMap(id, base, change, now, false), LcMap(id + 1, change, base, now, false)];
    TouchingMore(ms, links, name, name == base || name == change);
  }

  /** The two pairs, made where no map touches the four vdisks, are their only local copies. */
  lemma {:induction false} LinksCopied(ms: seq<LcMap>, a: AaVolume, now: string)
    requires FourNamesDiffer(a) && Untouched(ms, a.master) && Untouched(ms, a.aux)
    ensures BothCopied(AddLink(AddLink(ms, a.master, a.masterChange, now), a.aux, a.auxChange, now), a)
  {
    hide NextMapId;
    var half := AddLink(ms, a.master, a.masterChange, now);
    forall name | name in [a.master, a.aux] ensures |TouchingMaps(ms, name)| == 0 {
      FilterNone(ms, (m: LcMap) => Touches(m, name));
    }
    assert a.master in [a.master, a.aux] && a.aux in [a.master, a.aux];
    LinkCount(ms, a.master, a.masterChange, now, a.master);
    LinkCount(ms, a.master, a.masterChange, now, a.aux);
    LinkCount(half, a.aux, a.auxChange, now, a.master);
    LinkCount(half, a.aux, a.auxChange, now, a.aux);
  }

  /** A newly created active-active volume has the two local copies of each half and no others. */
  lemma {:induction false} NewVolumeCopies(s: State, name: string, gib: nat, o: Options)
    requires Sound(s) && o.level == Some("aa") && CreateVolume(s, name, gib, o).1.Ok?
    ensures BothCopied(CreateVolume(s, name, gib, o).0.maps, NamedVolume(name))
  {
    hide NextVdiskId, AddLink, AuxName, MasterChangeName, AuxChangeName, Sound, BothCopied;
    VolumeNamesDiffer(name);
    SnapshotAtomic.FreeOfName(s, name);
    SnapshotAtomic.FreeOfName(s, AuxName(name));
    LinksCopied(s.maps, NamedVolume(name), s.now);
  }

  /* ---- the maps after each step of the script ---- */

  /** The maps after k steps: gone with the relationship, back with the two change volumes. */
  function MapsAfter(ms: seq<LcMap>, r: Relation, a: AaVolume, now: string, k: nat): seq<LcMap> {
    if k == 0 then ms
    else if k <= 7 then DropLinks(ms, r)
    else if k == 8 then AddLink(DropLinks(ms, r), a.master, a.masterChange, now)
    else AddLink(AddLink(DropLinks(ms, r), a.master, a.masterChange, now), a.aux, a.auxChange, now)
  }

  ghost predicate MapsAtStep(s: State, a: AaVolume, k: nat, t: State) {
    && Exists(s.vdisks, a.master) && t.now == s.now
    && t.maps == MapsAfter(s.maps, RelationOf(s.vdisks, a), a, s.now, k)
  }

  lemma {:induction false} RelationRead(s: State, layout: Layout, volume: string, addition: nat, k: nat, t: State)
    requires Healthy(s.vdisks, s.relations, layout) && volume in layout
    requires AtStep(s, volume, layout[volume], addition, k, t) && (k == 0 || 7 <= k <= 8)
    ensures Exists(s.vdisks, layout[volume].master)
    ensures var a := layout[volume];
      var found := FindRelation(t.relations, IdOf(s.vdisks, a.master));
      && found.Some? && found.value.master == a.master && found.value.aux == a.aux
      && (k == 0 ==> found.value == RelationOf(s.vdisks, a))
  {
    hide VdisksAfter, DropRelation, Healthy;
    var a := layout[volume];
    HealthyParts(s.vdisks, s.relations, layout, volume);
    var r := RelationOf(s.vdisks, a);
    if k == 0 {
      FoundById(s.relations, r);
      SameIdMeansOwn(s.vdisks, s.relations, layout, volume, FindRelation(s.relations, r.id).value);
    } else {
      DroppedIds(s.relations, r.id);
      FoundById(t.relations, t.relations[|t.relations| - 1]);
    }
  }

  /** How the k-th command bears on the maps. */
  ghost predicate MapCommand(s: State, a: AaVolume, k: nat, t: State, c: Command)
    requires Exists(s.vdisks, a.master)
  {
    if k == 0 then c.RmRelation? && FindRelation(t.relations, c.id) == Some(RelationOf(s.vdisks, a))
    else if k == 7 then
      c.ChMasterChange? && c.change == a.masterChange && FindRelation(t.relations, c.id).Some?
      && FindRelation(t.relations, c.id).value.master == a.master
    else if k == 8 then
      c.ChAuxChange? && c.change == a.auxChange && FindRelation(t.relations, c.id).Some?
      && FindRelation(t.relations, c.id).value.aux == a.aux
    else c.ExpandVdisk? || c.MkRelation? || c.AddVdiskAccess?
  }

  lemma {:induction false} ScriptMapCommand(s: State, layout: Layout, volume: string, addition: nat, k: nat, t: State)
    requires Healthy(s.vdisks, s.relations, layout) && volume in layout && k < 9
    requires AllFour(s.vdisks, volume, layout[volume]) && AtStep(s, volume, layout[volume], addition, k, t)
    ensures MapCommand(s, layout[volume], k, t, AaScriptOf(s, layout[volume], addition)[k])
  {
    hide Healthy, AtStep, MemberRow, RelationOf, AllFour, FindVdisk, FindRelation;
    var a := layout[volume];
    MembersExist(s.vdisks, volume, a);
    NameOfMember(s, a.master);
    NameOfMember(s, a.aux);
    if k == 0 || 7 <= k { RelationRead(s, layout, volume, addition, k, t); }
  }

  lemma {:induction false} StepMaps(s: State, a: AaVolume, k: nat, t: State, c: Command)
    requires MapsAtStep(s, a, k, t) && k < 9 && MapCommand(s, a, k, t, c) && Can(t, c)
    ensures MapsAtStep(s, a, k + 1, Apply(t, c))
  {
    hide Can, Apply, AddLink, DropLinks, RelationOf, FindRelation, Exists;
    MapsOfCommand(t, c);
  }

  /** What the script's commands do to the maps. */
  lemma {:induction false} MapsOfCommand(t: State, c: Command)
    requires Can(t, c)
    ensures Apply(t, c).now == t.now
    ensures c.ExpandVdisk? || c.MkRelation? || c.AddVdiskAccess? ==> Apply(t, c).maps == t.maps
    ensures c.RmRelation? ==>
      var r := FindRelation(t.relations, c.id); r.Some? && Apply(t, c).maps == DropLinks(t.maps, r.value)
    ensures c.ChMasterChange? ==>
      var r := FindRelation(t.relations, c.id);
      r.Some? && Apply(t, c).maps == AddLink(t.maps, r.value.master, c.change, t.now)
    ensures c.ChAuxChange? ==>
      var r := FindRelation(t.relations, c.id);
      r.Some? && Apply(t, c).maps == AddLink(t.maps, r.value.aux, c.change, t.now)
  {
    hide NextVdiskId, AddLink, NextMapId, Exists, DropLinks, FindRelation;
  }

  lemma {:induction false} MapsDuring(s: State, layout: Layout, volume: string, addition: nat, k: nat)
    requires Healthy(s.vdisks, s.relations, layout) && volume in layout && k <= 9
    requires AllFour(s.vdisks, volume, layout[volume])
    ensures MapsAtStep(s, layout[volume], k, ApplyAll(s, AaScriptOf(s, layout[volume], addition)[..k]))
  {
    hide Can, Apply, Healthy, AtStep, AllFour;
    MembersExist(s.vdisks, volume, layout[volume]);
    var script := AaScriptOf(s, layout[volume], addition);
    if k == 0 {
      assert script[..0] == [];
    } else {
      MapsDuring(s, layout, volume, addition, k - 1);
      TablesAfter(s, layout, volume, addition, k - 1);
      var t := ApplyAll(s, script[..k - 1]);
      assert script[..k] == script[..k - 1] + [script[k - 1]];
      ApplyOneMore(s, script[..k - 1], script[k - 1]);
      StepTables(s, layout, volume, addition, k - 1, t);
      ScriptMapCommand(s, layout, volume, addition, k - 1, t);
      hide MapsAtStep, MapCommand;
      StepMaps(s, layout[volume], k - 1, t, script[k - 1]);
    }
  }

  lemma {:induction false} LinksDropped(ms: seq<LcMap>, a: AaVolume, r: Relation)
    requires BothCopied(ms, a) && r.master == a.master && r.aux == a.aux
    requires r.masterChange == Some(a.masterChange) && r.auxChange == Some(a.auxChange)
    ensures Untouched(DropLinks(ms, r), a.master) && Untouched(DropLinks(ms, r), a.aux)
  {}

  /* ---- extends ---- */

  lemma {:induction false} GrownCopies(d: Driver, layout: Layout, volume: string, addition: nat)
    requires Healthy(d.store.vdisks, d.store.relations, layout) && volume in layout
    requires AllFour(d.store.vdisks, volume, layout[volume]) && BothCopied(d.store.maps, layout[volume])
    ensures var (after, r) := Grown(d, InfosOf(d.store, layout[volume]), addition);
      r.Ok? ==> BothCopied(after.store.maps, layout[volume])
  {
    hide Healthy, MemberRow, ApplyAll, RunScript, AllFour, BothCopied, AddLink, DropLinks;
    var s, a := Spend(d.store), layout[volume];
    MembersExist(d.store.vdisks, volume, a);
    NamesOfFour(d.store.vdisks, volume, a);
    SpentRows(d.store, a);
    var script := AaScriptOf(s, a, addition);
    StopsAtFailure(s, script);
    MapsDuring(s, layout, volume, addition, 9);
    assert script[..9] == script;
    var r := RelationOf(s.vdisks, a);
    LinksDropped(s.maps, a, r);
    LinksCopied(DropLinks(s.maps, r), a, s.now);
  }

  lemma {:induction false} NamesOfFour(vs: seq<Vdisk>, volume: string, a: AaVolume)
    requires AllFour(vs, volume, a)
    ensures FourNamesDiffer(a)
  {}

  /** The pre-check's demands on a volume that has its local copies: neither half is formatting and each
      half's pool is listed with room for two additions. */
  predicate Room(vs: seq<Vdisk>, a: AaVolume, addition: nat, env: Env)
    requires Exists(vs, a.master) && Exists(vs, a.aux)
  {
    forall name | name in {a.master, a.aux} ::
      name !in env.formatting && Exists(vs, name) && PoolOf(vs, name) in env.free
      && 2 * addition * GIB <= env.free[PoolOf(vs, name)]
  }

  lemma {:induction false} RoomInGib(env: Env, pool: string, gib: nat)
    ensures FreeGib(env, pool).Some? <==> pool in env.free
    ensures pool in env.free ==> (gib <= FreeGib(env, pool).value <==> gib * GIB <= env.free[pool])
  {
    hide ParseStrSize, Decimal;
    if pool in env.free { ParsesBytes(env.free[pool]); }
  }

  lemma {:induction false} CheckExact(s: State, volume: string, a: AaVolume, addition: nat, env: Env)
    requires AllFour(s.vdisks, volume, a) && s.faults == [] && BothCopied(s.maps, a)
    ensures CheckExtend(s, InfosOf(s, a), addition, env).1.Ok? <==> Room(s.vdisks, a, addition, env)
    ensures CheckExtend(s, InfosOf(s, a), addition, env).0 == s
  {
    hide FreeGib, Decimal, TouchingMaps, FunctionOf, AllFour;
    MembersExist(s.vdisks, volume, a);
    SmallDecimals();
    NameOfMember(s, a.master);
    NameOfMember(s, a.aux);
    RoomInGib(env, PoolOf(s.vdisks, a.master), 2 * addition);
    RoomInGib(env, PoolOf(s.vdisks, a.aux), 2 * addition);
    assert a.master in {a.master, a.aux} && a.aux in {a.master, a.aux};
  }

  /** With nothing failing, a whole active-active volume with its local copies is extended to n GiB exactly
      when it has n GiB, or has fewer and there is room; and then all of this holds of it again, so that the
      same can be said of the next extend. */
  lemma {:induction false} FaultFreeExtend(d: Driver, layout: Layout, volume: string, size: string, env: Env)
    requires Healthy(d.store.vdisks, d.store.relations, layout) && volume in layout
    requires AllFour(d.store.vdisks, volume, layout[volume]) && BothCopied(d.store.maps, layout[volume])
    requires d.store.faults == [] && !d.barrier
    ensures var (after, r) := ExtendVolume(d, volume, size, env);
      var a := layout[volume];
      var n, was := Atoi(size).value, SizeOf(d.store.vdisks, a.master) / GIB;
      && (r.Ok? <==> n == was || (n > was && Room(d.store.vdisks, a, n - was, env)))
      && Healthy(after.store.vdisks, after.store.relations, layout) && BothCopied(after.store.maps, a)
      && after.store.faults == [] && !after.barrier
      && after.store.vdisks == if r.Ok? then GrowSet(d.store.vdisks, Members(a), n - was) else d.store.vdisks
  {
    hide BuildVolumeInfos, VolumeRows, MemberRow, CheckExtend, Grown, ParseStrSize, Atoi, SizeOf, Healthy, AllFour;
    hide BothCopied, Room, GrowSet;
    var s, a := d.store, layout[volume];
    assert Spend(s) == s;
    MembersExist(s.vdisks, volume, a);
    HealthyInfos(s, layout, volume);
    MasterSizeRead(s, a.master);
    GrowSetByNothing(s.vdisks, Members(a));
    var n, was := Atoi(size).value, SizeOf(s.vdisks, a.master) / GIB;
    if n > was {
      CheckExact(s, volume, a, n - was, env);
      FaultFreeGrowthSucceeds(d, layout, volume, n - was);
      AaGrownGrows(d, layout, volume, n - was);
      GrownCopies(d, layout, volume, n - was);
      NoFaultsLeft(d, InfosOf(s, a), n - was);
    }
  }

  lemma {:induction false} ScriptNoFaults(s: State, script: seq<Command>)
    requires s.faults == []
    ensures RunScript(s, script).0.faults == []
    decreases |script|
  {
    hide Can, Apply;
    if script != [] { ScriptNoFaults(Execute(s, script[0]).0, script[1..]); }
  }

  lemma {:induction false} NoFaultsLeft(d: Driver, infos: Infos, addition: nat)
    requires d.store.faults == []
    ensures Grown(d, infos, addition).0.store.faults == []
  {
    hide RunScript, Script, Can, Apply;
    if infos.aux.Some? {
      var (aux, masterChange, auxChange) := infos.aux.value;
      ScriptNoFaults(Spend(d.store), Script(infos.master, aux, masterChange, auxChange, addition));
    }
  }

  /* ---- both halves in one pool ---- */

  lemma {:induction false} NewVolumeFour(s: State, c: Command)
    requires Sound(s) && c.MkVolume? && Can(s, c)
    ensures AllFour(Apply(s, c).vdisks, c.name, NamedVolume(c.name)) && Apply(s, c).faults == s.faults
  {
    hide Can, Apply, Sound, AllFour, FourVdisks;
    FourFacts(s, c);
    TablesOfNew(s, c);
    FourAdded(s.vdisks, FourVdisks(s, c), c.name);
    RoundTrips.NoFaultsAfter(s, c);
  }

  /** A new volume with both halves in one pool: the pre-check of an extend asks the pool for room for two
      vdisks, while the script never overdraws it exactly when there is room for four. */
  lemma {:induction false} SharedPoolOverdrawn(s: State, name: string, gib: nat, o: Options, addition: nat, env: Env)
    requires Sound(s) && s.faults == [] && o.level == Some("aa") && CreateVolume(s, name, gib, o).1.Ok?
    requires o.pool.Some? && o.auxPool == o.pool && o.pool.value in env.free && env.formatting == {}
    ensures var t, a, free := CreateVolume(s, name, gib, o).0, NamedVolume(name), env.free[o.pool.value];
      && Exists(t.vdisks, a.master) && Exists(t.vdisks, a.aux)
      && (CheckExtend(t, InfosOf(t, a), addition, env).1.Ok? <==> 2 * addition * GIB <= free)
      && (NeverOverdrawn(t, a, addition, env) <==> 4 * addition * GIB <= free)
  {
    hide Can, Apply, Sound, AllFour, PoolOf, CheckExtend, NeverOverdrawn, BothCopied;
    var c := CreateCommand(name, gib, o).value;
    var t, a := Apply(s, c), NamedVolume(name);
    NewVolumeFour(s, c);
    NewVolumeParts(s, c);
    NewVolumeCopies(s, name, gib, o);
    NamesOfFour(t.vdisks, name, a);
    MembersExist(t.vdisks, name, a);
    CheckExact(t, name, a, addition, env);
    FourInOnePool(t, name, a, addition, env);
  }

  const ONE_POOL := Options(Some("aa"), Some("p"), Some("p"), Some("0"), Some("1"), true)

  const TWO_GIB_FREE := Env(map["p" := 2 * GIB], {})

  lemma {:induction false} EmptyArrayCreates(now: string)
    requires now != ""
    ensures var s := State([], [], [], now, []);
      && Sound(s) && CreateVolume(s, "v", 1, ONE_POOL).1.Ok?
  {
    hide NextVdiskId, AddLink;
  }

  /** On an empty array: a pool with room for two more GiB passes the check for one GiB and is overdrawn. */
  lemma {:induction false} SharedPoolExample(now: string)
    requires now != ""
    ensures var t, a := CreateVolume(State([], [], [], now, []), "v", 1, ONE_POOL).0, NamedVolume("v");
      && Exists(t.vdisks, a.master) && Exists(t.vdisks, a.aux)
      && CheckExtend(t, InfosOf(t, a), 1, TWO_GIB_FREE).1.Ok? && !NeverOverdrawn(t, a, 1, TWO_GIB_FREE)
  {
    hide CheckExtend, NeverOverdrawn, CreateVolume, InfosOf, Sound, Exists, NamedVolume;
    EmptyArrayCreates(now);
    SharedPoolOverdrawn(State([], [], [], now, []), "v", 1, ONE_POOL, 1, TWO_GIB_FREE);
  }
}
