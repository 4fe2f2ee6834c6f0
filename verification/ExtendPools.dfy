/** What the pre-check of an extend lets through, and whether an extend that passes it can overdraw a pool,
    with every expanded vdisk fully allocated. */
module ExtendPools {
  import opened Wrappers
  import opened Text
  import opened Sizes
  import opened VdiskArray
  import opened As18000
  import opened AaExtend
  import opened AaScript
  import opened AaRuns
  import opened ExtendSizes

  function PoolOf(vs: seq<Vdisk>, name: string): string
    requires Exists(vs, name)
  {
    FindVdisk(vs, name).value.pool
  }

  /** Bytes one command takes from a pool at full allocation. */
  function Take(vs: seq<Vdisk>, c: Command, pool: string): nat {
    if c.ExpandVdisk? && Exists(vs, c.name) && PoolOf(vs, c.name) == pool then c.gib * GIB else 0
  }

  function Use(vs: seq<Vdisk>, script: seq<Command>, pool: string): nat {
    if script == [] then 0
    else Use(vs, script[..|script| - 1], pool) + Take(vs, script[|script| - 1], pool)
  }

  lemma {:induction false} TakeOfStep(s: State, volume: string, a: AaVolume, addition: nat, k: nat, pool: string)
    requires AllFour(s.vdisks, volume, a) && k < 9
    ensures var vs, bytes := s.vdisks, addition * GIB;
      Take(vs, AaScriptOf(s, a, addition)[k], pool)
      == if (k == 1 && PoolOf(vs, a.master) == pool) || (k == 2 && PoolOf(vs, a.aux) == pool)
            || (k == 3 && PoolOf(vs, a.masterChange) == pool) || (k == 4 && PoolOf(vs, a.auxChange) == pool)
         then bytes else 0
  {
    NameOfMember(s, a.master);
    NameOfMember(s, a.aux);
    hide FindVdisk, MemberRow;
  }

  lemma {:induction false} UseOfPrefix(s: State, volume: string, a: AaVolume, addition: nat, k: nat, pool: string)
    requires AllFour(s.vdisks, volume, a) && k <= 9
    ensures var vs, bytes := s.vdisks, addition * GIB;
      Use(vs, AaScriptOf(s, a, addition)[..k], pool)
      == (if k >= 2 && PoolOf(vs, a.master) == pool then bytes else 0)
       + (if k >= 3 && PoolOf(vs, a.aux) == pool then bytes else 0)
       + (if k >= 4 && PoolOf(vs, a.masterChange) == pool then bytes else 0)
       + (if k >= 5 && PoolOf(vs, a.auxChange) == pool then bytes else 0)
  {
    hide Take, PoolOf, MemberRow, Exists;
    var script := AaScriptOf(s, a, addition);
    if k > 0 {
      UseOfPrefix(s, volume, a, addition, k - 1, pool);
      TakeOfStep(s, volume, a, addition, k - 1, pool);
      assert script[..k][..k - 1] == script[..k - 1];
      assert script[..k][k - 1] == script[k - 1];
    }
  }

  lemma {:induction false} FreeInBytes(env: Env, pool: string, gib: nat)
    requires pool in env.free && gib <= FreeGib(env, pool).value
    ensures gib * GIB <= env.free[pool]
  {
    ParsesBytes(env.free[pool]);
  }

  /** What a passed pre-check says about the two pools. */
  lemma {:induction false} CheckedPools(s: State, a: AaVolume, addition: nat, env: Env)
    requires Exists(s.vdisks, a.master) && Exists(s.vdisks, a.aux)
    requires CheckExtend(s, InfosOf(s, a), addition, env).1.Ok?
    ensures forall name | name in [a.master, a.aux] ::
      PoolOf(s.vdisks, name) in env.free && 2 * addition * GIB <= env.free[PoolOf(s.vdisks, name)]
  {
    hide FreeGib, Decimal, TouchingMaps, FunctionOf;
    assert FreeGib(env, PoolOf(s.vdisks, a.master)).Some? && FreeGib(env, PoolOf(s.vdisks, a.aux)).Some?;
    PoolListed(env, PoolOf(s.vdisks, a.master));
    PoolListed(env, PoolOf(s.vdisks, a.aux));
    FreeInBytes(env, PoolOf(s.vdisks, a.master), addition * 2);
    FreeInBytes(env, PoolOf(s.vdisks, a.aux), addition * 2);
  }

  lemma {:induction false} PoolListed(env: Env, pool: string)
    requires FreeGib(env, pool).Some?
    ensures pool in env.free
  {}

  ghost predicate NeverOverdrawn(s: State, a: AaVolume, addition: nat, env: Env)
    requires Exists(s.vdisks, a.master) && Exists(s.vdisks, a.aux)
  {
    forall k: nat, pool | k <= 9 && pool in env.free ::
      Use(s.vdisks, AaScriptOf(s, a, addition)[..k], pool) <= env.free[pool]
  }

  /** Pool conservation. With each change volume in its base volume's pool, a passed pre-check keeps
      every pool from going below zero at every step of the script exactly when the volume's two
      halves lie in different pools, or their common pool has room for all four. */
  lemma {:induction false} PoolConservation(s: State, layout: Layout, volume: string, addition: nat, env: Env)
    requires Healthy(s.vdisks, s.relations, layout) && volume in layout
    requires AllFour(s.vdisks, volume, layout[volume])
    requires var vs, a := s.vdisks, layout[volume];
      PoolOf(vs, a.masterChange) == PoolOf(vs, a.master) && PoolOf(vs, a.auxChange) == PoolOf(vs, a.aux)
    requires CheckExtend(s, InfosOf(s, layout[volume]), addition, env).1.Ok?
    ensures var vs, a := s.vdisks, layout[volume];
      && PoolOf(vs, a.master) in env.free && PoolOf(vs, a.aux) in env.free
      && (NeverOverdrawn(s, a, addition, env)
          <==> PoolOf(vs, a.master) != PoolOf(vs, a.aux) || 4 * addition * GIB <= env.free[PoolOf(vs, a.master)])
  {
    hide CheckExtend, Healthy, Use, PoolOf, MemberRow, InfosOf;
    var vs, a := s.vdisks, layout[volume];
    var pool := PoolOf(vs, a.master);
    MembersExist(vs, volume, a);
    CheckedPools(s, a, addition, env);
    UseOfPrefix(s, volume, a, addition, 9, pool);
    if pool != PoolOf(vs, a.aux) || 4 * addition * GIB <= env.free[pool] {
      forall k: nat, p | k <= 9 && p in env.free
        ensures Use(vs, AaScriptOf(s, a, addition)[..k], p) <= env.free[p]
      {
        UseOfPrefix(s, volume, a, addition, k, p);
      }
    } else {
      assert Use(vs, AaScriptOf(s, a, addition)[..9], pool) > env.free[pool];
    }
  }

  /** With all four in one pool, it is never overdrawn exactly when it has room for four. */
  lemma {:induction false} FourInOnePool(s: State, volume: string, a: AaVolume, addition: nat, env: Env)
    requires AllFour(s.vdisks, volume, a)
    requires var vs := s.vdisks;
      PoolOf(vs, a.aux) == PoolOf(vs, a.masterChange) == PoolOf(vs, a.auxChange) == PoolOf(vs, a.master)
    requires PoolOf(s.vdisks, a.master) in env.free
    ensures NeverOverdrawn(s, a, addition, env) <==> 4 * addition * GIB <= env.free[PoolOf(s.vdisks, a.master)]
  {
    hide Use, PoolOf;
    var vs, pool := s.vdisks, PoolOf(s.vdisks, a.master);
    UseOfPrefix(s, volume, a, addition, 9, pool);
    if 4 * addition * GIB <= env.free[pool] {
      forall k: nat, p | k <= 9 && p in env.free
        ensures Use(vs, AaScriptOf(s, a, addition)[..k], p) <= env.free[p]
      {
        UseOfPrefix(s, volume, a, addition, k, p);
      }
    } else {
      assert Use(vs, AaScriptOf(s, a, addition)[..9], pool) > env.free[pool];
    }
  }

  /** A basic volume's expansion never overdraws its pool. */
  lemma {:induction false} BasicPoolConservation(s: State, name: string, addition: nat, env: Env)
    requires Exists(s.vdisks, name)
    requires CheckExtend(s, Infos(MemberRow(s, name), None), addition, env).1.Ok?
    ensures var pool := PoolOf(s.vdisks, name);
      pool in env.free && Use(s.vdisks, [ExpandVdisk(name, addition)], pool) <= env.free[pool]
  {
    hide FreeGib, Decimal, TouchingMaps, FunctionOf;
    var pool := PoolOf(s.vdisks, name);
    assert FreeGib(env, pool).Some?;
    PoolListed(env, pool);
    FreeInBytes(env, pool, addition);
    assert [ExpandVdisk(name, addition)][..0] == [];
  }

  /* ---- what lets an extend change anything ---- */

  /** The vdisk carries exactly its own local copies, is not formatting, and its pool has room. */
  ghost predicate Cleared(s: State, name: string, copies: nat, room: nat, env: Env) {
    && Exists(s.vdisks, name) && name !in env.formatting
    && |TouchingMaps(s.maps, name)| == copies
    && PoolOf(s.vdisks, name) in env.free && room * GIB <= env.free[PoolOf(s.vdisks, name)]
  }

  lemma {:induction false} ClearedByRow(s: State, name: string, copies: nat, room: nat, env: Env)
    requires Exists(s.vdisks, name) && name !in env.formatting
    requires var row := MemberRow(s, name);
      row.lcMapCount == Decimal(copies) && FreeGib(env, row.pool).Some? && room <= FreeGib(env, row.pool).value
    ensures Cleared(s, name, copies, room, env)
  {
    hide FreeGib, TouchingMaps, FunctionOf;
    ValueOfDecimal(copies);
    ValueOfDecimal(|TouchingMaps(s.maps, name)|);
    PoolListed(env, PoolOf(s.vdisks, name));
    FreeInBytes(env, PoolOf(s.vdisks, name), room);
  }

  lemma {:induction false} SmallDecimals()
    ensures Decimal(0) == "0" && Decimal(2) == "2"
  {}

  lemma {:induction false} CheckedBasic(s: State, name: string, addition: nat, env: Env)
    requires Exists(s.vdisks, name) && CheckExtend(s, Infos(MemberRow(s, name), None), addition, env).1.Ok?
    ensures Cleared(s, name, 0, addition, env)
  {
    hide FreeGib, TouchingMaps, FunctionOf, Decimal;
    SmallDecimals();
    NameOfMember(s, name);
    ClearedByRow(s, name, 0, addition, env);
  }

  lemma {:induction false} CheckedAa(s: State, a: AaVolume, addition: nat, env: Env)
    requires Exists(s.vdisks, a.master) && Exists(s.vdisks, a.aux)
    requires CheckExtend(s, InfosOf(s, a), addition, env).1.Ok?
    ensures Cleared(s, a.master, 2, addition * 2, env) && Cleared(s, a.aux, 2, addition * 2, env)
  {
    hide FreeGib, TouchingMaps, FunctionOf, Decimal;
    SmallDecimals();
    NameOfMember(s, a.master);
    NameOfMember(s, a.aux);
    ClearedByRow(s, a.master, 2, addition * 2, env);
    ClearedByRow(s, a.aux, 2, addition * 2, env);
  }

  /** Nothing is changed by an extend, whatever fails, unless there is no barrier, the new size is larger,
      and the volume is clear: a basic volume has no local copy and room for the addition; master and aux
      of an active-active one have just their two local copies and room for two additions each. */
  lemma {:induction false} OnlyClearedGrow(d: Driver, layout: Layout, volume: string, master: string,
                                           names: set<string>, size: string, env: Env)
    requires Extendable(d.store, layout, volume, master, names) && Exists(d.store.vdisks, master)
    requires !SameTables(ExtendVolume(d, volume, size, env).0.store, d.store)
    ensures var addition := Atoi(size).value - SizeOf(d.store.vdisks, master) / GIB;
      && !d.barrier && addition > 0
      && (if volume in layout then
            && Cleared(d.store, layout[volume].master, 2, addition * 2, env)
            && Cleared(d.store, layout[volume].aux, 2, addition * 2, env)
          else Cleared(d.store, master, 0, addition, env))
  {
    hide BuildVolumeInfos, VolumeRows, MemberRow, CheckExtend, Grown, ParseStrSize, Atoi, Extendable, SizeOf;
    hide Cleared, AllFour;
    var s := Spend(d.store);
    SameExtendable(d.store, s, layout, volume, master, names);
    MasterRead(s, layout, volume, master, names);
    MasterSizeRead(s, master);
    var infos := BuildVolumeInfos(VolumeRows(s, volume)).value;
    var addition := Atoi(size).value - SizeOf(s.vdisks, master) / GIB;
    if addition > 0 {
      CheckKeepsTables(s, infos, addition, env);
      if volume in layout {
        WholeOfExtendable(s, layout, volume, master, names);
        CheckedAa(s, layout[volume], addition, env);
        ClearedSame(s, d.store, layout[volume].master, 2, addition * 2, env);
        ClearedSame(s, d.store, layout[volume].aux, 2, addition * 2, env);
      } else {
        CheckedBasic(s, master, addition, env);
        ClearedSame(s, d.store, master, 0, addition, env);
      }
    }
  }

  lemma {:induction false} WholeOfExtendable(s: State, layout: Layout, volume: string, master: string,
                                             names: set<string>)
    requires Extendable(s, layout, volume, master, names) && volume in layout
    ensures AllFour(s.vdisks, volume, layout[volume])
    ensures Exists(s.vdisks, layout[volume].master) && Exists(s.vdisks, layout[volume].aux)
  {
    HealthyParts(s.vdisks, s.relations, layout, volume);
  }

  lemma {:induction false} ClearedSame(s: State, t: State, name: string, copies: nat, room: nat, env: Env)
    requires SameTables(s, t) && Cleared(s, name, copies, room, env)
    ensures Cleared(t, name, copies, room, env)
  {}
}
