/** What ExtendVolume answers and leaves under any failures: for a volume of one vdisk and for a whole
    active-active one, exactly when it succeeds, why it is refused, and when the barrier is raised. */
module ExtendOutcomes {
  import opened Wrappers
  import opened Text
  import opened Lists
  import opened Sizes
  import opened VdiskArray
  import opened As18000
  import opened AaExtend
  import opened AaScript
  import opened AaRuns
  import opened ExtendSizes
  import opened ExtendPools
  import opened AaCopies
  import opened SnapshotAtomic

  /* ---- the pre-check ---- */

  lemma {:induction false} CountRead(n: nat, k: nat)
    ensures Decimal(n) == Decimal(k) <==> n == k
  {
    ValueOfDecimal(n);
    ValueOfDecimal(k);
  }

  /** The pool is listed with this many GiB free. */
  predicate HasRoom(vs: seq<Vdisk>, name: string, gib: nat, env: Env)
    requires Exists(vs, name)
  {
    PoolOf(vs, name) in env.free && gib * GIB <= env.free[PoolOf(vs, name)]
  }

  /** Why the pre-check refuses a volume of one vdisk, if it does. */
  function BasicRefusal(s: State, name: string, addition: nat, env: Env): Option<Error>
    requires Exists(s.vdisks, name)
  {
    if name in env.formatting then Some(Formatting)
    else if !Answers(s, 0) || PoolOf(s.vdisks, name) !in env.free then Some(PoolUnknown)
    else if exists m | m in s.maps :: Touches(m, name) then Some(HasLocalCopy)
    else if !HasRoom(s.vdisks, name, addition, env) then Some(PoolFull)
    else None
  }

  lemma {:induction false} BasicCheck(s: State, name: string, addition: nat, env: Env)
    requires Exists(s.vdisks, name)
    ensures var (t, r) := CheckExtend(s, Infos(MemberRow(s, name), None), addition, env);
      && r == (if BasicRefusal(s, name, addition, env).Some? then Err(BasicRefusal(s, name, addition, env).value)
               else Ok(()))
      && SameTables(t, s) && (r.Ok? ==> t == Spend(s)) && (s.faults == [] ==> t == s)
  {
    hide FreeGib, FunctionOf, Decimal;
    SmallDecimals();
    NameOfMember(s, name);
    CountRead(|TouchingMaps(s.maps, name)|, 0);
    NoneTouching(s.maps, name);
    RoomInGib(env, PoolOf(s.vdisks, name), addition);
    hide TouchingMaps;
  }

  lemma {:induction false} NoneTouching(ms: seq<LcMap>, name: string)
    ensures |TouchingMaps(ms, name)| == 0 <==> forall m | m in ms :: !Touches(m, name)
  {
    hide Touches;
    forall m | m in ms && Touches(m, name) ensures |TouchingMaps(ms, name)| > 0 { assert m in TouchingMaps(ms, name); }
    if |TouchingMaps(ms, name)| > 0 { assert TouchingMaps(ms, name)[0] in TouchingMaps(ms, name); }
  }

  /** Why it refuses an active-active volume. */
  function AaRefusal(s: State, a: AaVolume, addition: nat, env: Env): Option<Error>
    requires Exists(s.vdisks, a.master) && Exists(s.vdisks, a.aux)
  {
    if a.master in env.formatting then Some(Formatting)
    else if !Answers(s, 0) || PoolOf(s.vdisks, a.master) !in env.free then Some(PoolUnknown)
    else if a.aux in env.formatting then Some(Formatting)
    else if !Answers(s, 1) || PoolOf(s.vdisks, a.aux) !in env.free then Some(PoolUnknown)
    else if |TouchingMaps(s.maps, a.master)| != 2 || |TouchingMaps(s.maps, a.aux)| != 2 then Some(HasLocalCopy)
    else if !HasRoom(s.vdisks, a.master, 2 * addition, env) || !HasRoom(s.vdisks, a.aux, 2 * addition, env) then
      Some(PoolFull)
    else None
  }

  lemma {:induction false} AaCheck(s: State, a: AaVolume, addition: nat, env: Env)
    requires Exists(s.vdisks, a.master) && Exists(s.vdisks, a.aux)
    ensures var (t, r) := CheckExtend(s, InfosOf(s, a), addition, env);
      && r == (if AaRefusal(s, a, addition, env).Some? then Err(AaRefusal(s, a, addition, env).value) else Ok(()))
      && SameTables(t, s) && (r.Ok? ==> t == Spend(Spend(s))) && (s.faults == [] ==> t == s)
  {
    hide FreeGib, FunctionOf, Decimal, TouchingMaps;
    SmallDecimals();
    NameOfMember(s, a.master);
    NameOfMember(s, a.aux);
    CountRead(|TouchingMaps(s.maps, a.master)|, 2);
    CountRead(|TouchingMaps(s.maps, a.aux)|, 2);
    RoomInGib(env, PoolOf(s.vdisks, a.master), 2 * addition);
    RoomInGib(env, PoolOf(s.vdisks, a.aux), 2 * addition);
    AnswersFrom(s, Spend(s));
  }

  /* ---- what is read about a volume ---- */

  predicate HasPart(rows: seq<Row>, part: Part) { exists row | row in rows :: row.part == part }

  /** Any rows: without an aux vdisk there must be a master, or a vdisk without a part, and is then a volume of one
      vdisk; with one, a missing master or change volume is the source's nil dereference. */
  lemma {:induction false} RowsRead(rows: seq<Row>)
    ensures var r, master := BuildVolumeInfos(rows), HasPart(rows, Master) || HasPart(rows, Blank);
      && (r == Err(NoVolume) <==> !HasPart(rows, Aux) && !master)
      && (r == Err(Panic) <==>
            HasPart(rows, Aux) && !(master && HasPart(rows, MasterChange) && HasPart(rows, AuxChange)))
      && (r.Ok? ==> (r.value.aux.Some? <==> HasPart(rows, Aux)))
      && (r.Err? ==> r.error in [NoVolume, Panic])
  {
    RolesRead(rows);
    hide AssignAll, HasPart;
  }

  lemma {:induction false} RolesRead(rows: seq<Row>)
    ensures var roles := AssignAll(rows);
      && (roles.master.Some? <==> HasPart(rows, Master) || HasPart(rows, Blank))
      && (roles.aux.Some? <==> HasPart(rows, Aux))
      && (roles.masterChange.Some? <==> HasPart(rows, MasterChange))
      && (roles.auxChange.Some? <==> HasPart(rows, AuxChange))
  {
    if rows != [] {
      var last := |rows| - 1;
      var before, row := rows[..last], rows[last];
      RolesRead(before);
      forall part ensures HasPart(rows, part) <==> HasPart(before, part) || row.part == part {
        assert row in rows && forall r | r in rows :: r in before || r == row;
        assert forall r | r in before :: r in rows;
      }
      hide HasPart;
    }
  }

  /** A volume that is not there cannot be extended. */
  lemma {:induction false} MissingVolume(d: Driver, volume: string, size: string, env: Env)
    requires forall v | v in d.store.vdisks :: v.volume != volume
    ensures var (after, r) := ExtendVolume(d, volume, size, env);
      && after.barrier == d.barrier && SameTables(after.store, d.store)
      && r == Err(if d.barrier then BarrierExists else if !Answers(d.store, 0) then ArrayFailure else NoVolume)
  {
    hide BuildVolumeInfos;
    var rows := VolumeRows(Spend(d.store), volume);
    NoRows(d.store.vdisks, volume);
    RowsRead(rows);
  }

  lemma {:induction false} NoRows(vs: seq<Vdisk>, volume: string)
    requires forall v | v in vs :: v.volume != volume
    ensures InVolume(vs, volume) == []
  {
    FilterNone(vs, (v: Vdisk) => v.volume == volume);
  }

  /* ---- a volume of one vdisk ---- */

  /** What becomes of an extend to n GiB of a volume of one vdisk, whatever fails: it succeeds exactly when no
      barrier stands, its rows can be read, and its size reads as n, or as less and the pre-check has nothing
      against it and the one command gets through. It then has grown by the difference, and nothing else has
      changed; any failure changes nothing. */
  lemma {:induction false} BasicExtendOutcome(d: Driver, volume: string, name: string, size: string, env: Env)
    requires DistinctVdisks(d.store.vdisks) && IsBasic(d.store.vdisks, d.store.relations, volume, name)
    ensures var (after, r) := ExtendVolume(d, volume, size, env);
      var s, n, was := d.store, Atoi(size).value, SizeOf(d.store.vdisks, name) / GIB;
      var refusal := if n > was then BasicRefusal(Spend(s), name, n - was, env) else None;
      && (r.Ok? <==> !d.barrier && Answers(s, 0) && (n == was || (n > was && refusal.None? && Answers(s, 2))))
      && (r.Err? ==> r.error == if d.barrier then BarrierExists
                                else if !Answers(s, 0) then ArrayFailure
                                else if n < was then NotLarger
                                else if refusal.Some? then refusal.value
                                else ArrayFailure)
      && after.barrier == d.barrier && after.writable == d.writable
      && SameTables(after.store,
                    if r.Ok? then s.(vdisks := Grow(s.vdisks, name, if n > was then n - was else 0)) else s)
      && (s.faults == [] ==> after.store.faults == [])
  {
    hide BuildVolumeInfos, VolumeRows, MemberRow, CheckExtend, Grown, ParseStrSize, Atoi, SizeOf, BasicRefusal;
    var s := Spend(d.store);
    BasicRead(s, volume, name);
    NameOfMember(s, name);
    MasterSizeRead(s, name);
    SameSize(d.store, s, name);
    AnswersFrom(d.store, s);
    AnswersFrom(s, Spend(s));
    GrowNothing(d.store.vdisks, name);
    var n, was := Atoi(size).value, SizeOf(d.store.vdisks, name) / GIB;
    if n > was {
      BasicCheck(s, name, n - was, env);
      BasicGrowth(d.(store := Spend(s)), MemberRow(s, name), name, n - was);
    }
    hide IsBasic, Grow, Exists;
  }

  /** The one command of the expansion, which the array does not refuse. */
  lemma {:induction false} BasicGrowth(d: Driver, row: Row, name: string, addition: nat)
    requires row.name == name && Exists(d.store.vdisks, name)
    ensures var (after, r) := Grown(d, Infos(row, None), addition);
      && (r.Ok? <==> Answers(d.store, 0)) && (r.Err? ==> r.error == ArrayFailure)
      && after.barrier == d.barrier && after.writable == d.writable
      && SameTables(after.store,
                    if r.Ok? then d.store.(vdisks := Grow(d.store.vdisks, name, addition)) else d.store)
      && (d.store.faults == [] ==> after.store.faults == [])
  {
    hide Grow, Exists;
  }

  lemma {:induction false} SameSize(s: State, t: State, name: string)
    requires SameTables(s, t) && Exists(s.vdisks, name)
    ensures SizeOf(t.vdisks, name) == SizeOf(s.vdisks, name)
  {}

  lemma {:induction false} GrowNothing(vs: seq<Vdisk>, name: string)
    ensures Grow(vs, name, 0) == vs
  {}

  /** With nothing failing, a volume of one vdisk is extended to n GiB if and only if no barrier stands, and either
      its size reads as n, or n is larger, it is not formatting, no map touches it, and its pool is listed with
      the difference free. A refusal changes nothing. */
  lemma {:induction false} FaultFreeBasicExtend(d: Driver, volume: string, name: string, size: string, env: Env)
    requires DistinctVdisks(d.store.vdisks) && IsBasic(d.store.vdisks, d.store.relations, volume, name)
    requires d.store.faults == []
    ensures var (after, r) := ExtendVolume(d, volume, size, env);
      var s, n, was := d.store, Atoi(size).value, SizeOf(d.store.vdisks, name) / GIB;
      && (r.Ok? <==>
            && !d.barrier
            && (n == was || (n > was && name !in env.formatting && (forall m | m in s.maps :: !Touches(m, name))
                             && HasRoom(s.vdisks, name, n - was, env))))
      && (r.Err? ==> after == d)
      && (r.Ok? ==> after == d.(store := s.(vdisks := Grow(s.vdisks, name, n - was))))
  {
    hide ExtendVolume, Atoi, SizeOf, IsBasic, PoolOf, Touches;
    BasicExtendOutcome(d, volume, name, size, env);
    GrowNothing(d.store.vdisks, name);
    assert Spend(d.store) == d.store;
    assert forall i: nat :: Answers(d.store, i);
    var after := ExtendVolume(d, volume, size, env).0;
    hide Grow, Answers;
    assert after == d.(store := after.store);
  }

  /* ---- an active-active volume ---- */

  /** The nine commands for a whole volume: the relationship goes by the id of the master vdisk, the four vdisks grow in
      turn, master and aux are related again, the master is made reachable through the I/O group of the aux vdisk,
      and the two change volumes are attached, each to its own half. */
  lemma {:induction false} ScriptInWords(s: State, a: AaVolume, addition: nat)
    requires Exists(s.vdisks, a.master) && Exists(s.vdisks, a.aux)
    ensures var master, aux := FindVdisk(s.vdisks, a.master).value, FindVdisk(s.vdisks, a.aux).value;
      AaScriptOf(s, a, addition)
      == [RmRelation(master.id), ExpandVdisk(a.master, addition), ExpandVdisk(a.aux, addition),
          ExpandVdisk(a.masterChange, addition), ExpandVdisk(a.auxChange, addition), MkRelation(a.master, a.aux),
          AddVdiskAccess(aux.iogrp, a.master), ChMasterChange(a.masterChange, master.id),
          ChAuxChange(a.auxChange, master.id)]
  {}

  /** The first failure among nine answers, the first being the one numbered `first`: after `done` of them. */
  predicate Leading(s: State, first: nat, done: nat) {
    && done <= 9 && (forall i: nat | first <= i < first + done :: Answers(s, i))
    && (done < 9 ==> !Answers(s, first + done))
  }

  lemma {:induction false} LeadingOnce(s: State, first: nat, done: nat, more: nat)
    requires Leading(s, first, done) && Leading(s, first, more)
    ensures done == more
  {
    hide Answers;
  }

  /** The array refuses none of the nine commands of a whole volume, so that the script goes as far as they get
      through. */
  lemma {:induction false} ScriptGoes(s: State, layout: Layout, volume: string, addition: nat, k: nat, t: State)
    requires Healthy(s.vdisks, s.relations, layout) && volume in layout && k <= 9
    requires AllFour(s.vdisks, volume, layout[volume]) && AtStep(s, volume, layout[volume], addition, k, t)
    ensures var done := RunScript(t, AaScriptOf(s, layout[volume], addition)[k..]).1;
      && k + done <= 9 && (forall i: nat | i < done :: Answers(t, i)) && (k + done < 9 ==> !Answers(t, done))
    decreases 9 - k
  {
    hide Can, Apply, AtStep, Healthy, AllFour, MemberRow, Answers;
    MembersExist(s.vdisks, volume, layout[volume]);
    var script := AaScriptOf(s, layout[volume], addition);
    if k < 9 {
      assert script[k..][0] == script[k] && script[k..][1..] == script[k + 1..];
      StepTables(s, layout, volume, addition, k, t);
      var (u, ok) := Execute(t, script[k]);
      AnswersFrom(t, u);
      if ok {
        SameTablesAtStep(s, volume, layout[volume], addition, k + 1, Apply(t, script[k]), u);
        ScriptGoes(s, layout, volume, addition, k + 1, u);
        var done := RunScript(u, script[k + 1..]).1;
        forall i: nat | i < done + 1 ensures Answers(t, i) { if i > 0 { assert Answers(u, i - 1); } }
      }
    }
  }

  /** The script as far as it goes from `s`, leaving what its commands up to there make of the tables. */
  lemma {:induction false} ScriptLeaves(s: State, layout: Layout, volume: string, addition: nat)
    requires Healthy(s.vdisks, s.relations, layout) && volume in layout && AllFour(s.vdisks, volume, layout[volume])
    ensures var script := AaScriptOf(s, layout[volume], addition);
      var (t, done) := RunScript(s, script);
      Leading(s, 0, done) && SameTables(t, ApplyAll(s, script[..done]))
  {
    hide Healthy, AllFour, MemberRow, RunScript, ApplyAll;
    MembersExist(s.vdisks, volume, layout[volume]);
    var script := AaScriptOf(s, layout[volume], addition);
    assert script[0..] == script;
    TablesBefore(s, layout[volume], addition);
    ScriptGoes(s, layout, volume, addition, 0, s);
    StopsAtFailure(s, script);
  }

  /** What becomes of the extension once the check has passed: nothing when the cluster's name cannot be read;
      else as many commands as get through, and the barrier when one does not and the file can be made. */
  lemma {:induction false} AaGrowth(d: Driver, layout: Layout, volume: string, addition: nat)
    requires Healthy(d.store.vdisks, d.store.relations, layout) && volume in layout
    requires AllFour(d.store.vdisks, volume, layout[volume])
    ensures var (after, r) := Grown(d, InfosOf(d.store, layout[volume]), addition);
      && after.writable == d.writable && (r.Err? ==> r.error == ArrayFailure)
      && (r.Ok? <==> Answers(d.store, 0) && Leading(d.store, 1, 9))
      && (!Answers(d.store, 0) ==> SameTables(after.store, d.store) && after.barrier == d.barrier)
      && (Answers(d.store, 0) ==>
            exists done: nat ::
              && done <= 9 && Leading(d.store, 1, done)
              && SameTables(after.store, ApplyAll(d.store, AaScriptOf(d.store, layout[volume], addition)[..done]))
              && after.barrier == (d.barrier || (done < 9 && d.writable)))
  {
    hide Healthy, AllFour, MemberRow, RunScript, ApplyAll, Leading;
    var s, a := Spend(d.store), layout[volume];
    MembersExist(d.store.vdisks, volume, a);
    SpentRows(d.store, a);
    ScriptLeaves(s, layout, volume, addition);
    AnswersFrom(d.store, s);
    var script := AaScriptOf(s, a, addition);
    var (t, done) := RunScript(s, script);
    LaterLeading(d.store, s, done);
    if Leading(d.store, 1, 9) { LeadingOnce(d.store, 1, done, 9); }
    LeadingBound(s, 0, done);
    ApplyAllSame(s, d.store, script[..done]);
    assert AaScriptOf(d.store, a, addition) == script;
  }

  lemma {:induction false} LeadingBound(s: State, first: nat, done: nat)
    requires Leading(s, first, done)
    ensures done <= 9
  {}

  lemma {:induction false} LaterLeading(s: State, t: State, done: nat)
    requires Leading(t, 0, done) && forall i: nat :: Answers(t, i) <==> Answers(s, i + 1)
    ensures Leading(s, 1, done)
  {
    hide Answers;
    forall i: nat | 1 <= i < 1 + done ensures Answers(s, i) { assert Answers(t, i - 1); }
    if done < 9 { assert !Answers(t, 0 + done); }
  }

  /** What becomes of an extend to n GiB of a whole active-active volume, whatever fails. It succeeds exactly
      when no barrier stands, its rows can be read, and its size reads as n, or as less, the pre-check has nothing
      against it, and the ten answers that follow are given. Where the script has begun, the commands before the
      first that fails have been carried out and the barrier is raised if one fails and the file can be made;
      otherwise nothing has changed. */
  lemma {:induction false} AaExtendOutcome(d: Driver, layout: Layout, volume: string, size: string, env: Env)
    requires Healthy(d.store.vdisks, d.store.relations, layout) && volume in layout
    requires AllFour(d.store.vdisks, volume, layout[volume])
    ensures var (after, r) := ExtendVolume(d, volume, size, env);
      var s, a := d.store, layout[volume];
      var n, was := Atoi(size).value, SizeOf(s.vdisks, a.master) / GIB;
      var refusal := if n > was then AaRefusal(Spend(s), a, n - was, env) else None;
      var begun := !d.barrier && Answers(s, 0) && n > was && refusal.None? && Answers(s, 3);
      && (r.Ok? <==> !d.barrier && Answers(s, 0) && (n == was || (begun && Leading(s, 4, 9))))
      && (r.Err? ==> r.error == if d.barrier then BarrierExists
                                else if !Answers(s, 0) then ArrayFailure
                                else if n < was then NotLarger
                                else if refusal.Some? then refusal.value
                                else ArrayFailure)
      && after.writable == d.writable
      && (!begun ==> SameTables(after.store, s) && after.barrier == d.barrier)
      && (begun ==>
            exists done: nat ::
              && done <= 9 && Leading(s, 4, done)
              && SameTables(after.store, ApplyAll(s, AaScriptOf(s, a, n - was)[..done]))
              && after.barrier == (done < 9 && d.writable))
  {
    hide BuildVolumeInfos, VolumeRows, MemberRow, CheckExtend, Grown, ParseStrSize, Atoi, SizeOf, Healthy, AllFour;
    hide AaRefusal, Leading, ApplyAll, AaScriptOf;
    var s, a := Spend(d.store), layout[volume];
    MembersExist(s.vdisks, volume, a);
    HealthyInfos(s, layout, volume);
    MasterSizeRead(s, a.master);
    SameSize(d.store, s, a.master);
    AnswersFrom(d.store, s);
    var n, was := Atoi(size).value, SizeOf(d.store.vdisks, a.master) / GIB;
    if n > was && !d.barrier && Up(d.store) {
      AaCheck(s, a, n - was, env);
      if AaRefusal(s, a, n - was, env).None? {
        SpentRows(s, a);
        SpentRows(Spend(s), a);
        GrowthFromTheStart(d, layout, volume, n - was);
      }
    }
  }

  /** The same once the rows and the two pools have been read, counted in answers from the start. */
  lemma {:induction false} GrowthFromTheStart(d: Driver, layout: Layout, volume: string, addition: nat)
    requires Healthy(d.store.vdisks, d.store.relations, layout) && volume in layout
    requires AllFour(d.store.vdisks, volume, layout[volume])
    ensures var s, s3, a := d.store, Spend(Spend(Spend(d.store))), layout[volume];
      var (after, r) := Grown(d.(store := s3), InfosOf(s3, a), addition);
      && after.writable == d.writable && (r.Err? ==> r.error == ArrayFailure)
      && (r.Ok? <==> Answers(s, 3) && Leading(s, 4, 9))
      && (!Answers(s, 3) ==> SameTables(after.store, s) && after.barrier == d.barrier)
      && (Answers(s, 3) ==>
            exists done: nat ::
              && done <= 9 && Leading(s, 4, done)
              && SameTables(after.store, ApplyAll(s, AaScriptOf(s, a, addition)[..done]))
              && after.barrier == (d.barrier || (done < 9 && d.writable)))
  {
    hide Grown, MemberRow, Healthy, AllFour, Leading, ApplyAll, Answers;
    var s3, a := Spend(Spend(Spend(d.store))), layout[volume];
    LaterAnswers(d.store);
    MembersExist(d.store.vdisks, volume, a);
    AaGrowth(d.(store := s3), layout, volume, addition);
    SeenFromTheStart(d.store, s3, a, addition);
    if Answers(s3, 0) {
      var g, script := Grown(d.(store := s3), InfosOf(s3, a), addition).0, AaScriptOf(d.store, a, addition);
      var done: nat :| done <= 9 && Leading(s3, 1, done) && SameTables(g.store, ApplyAll(s3, script[..done]))
        && g.barrier == (d.barrier || (done < 9 && d.writable));
      assert Leading(d.store, 4, done) && SameTables(g.store, ApplyAll(d.store, script[..done]));
    }
  }

  /** The answers once three have been spent. */
  lemma {:induction false} LaterAnswers(s: State)
    ensures var t := Spend(Spend(Spend(s)));
      && SameTables(t, s)
      && forall i: nat :: Answers(t, i) <==> Answers(s, i + 3)
  {
    AnswersFrom(s, Spend(s));
    AnswersFrom(Spend(s), Spend(Spend(s)));
    AnswersFrom(Spend(Spend(s)), Spend(Spend(Spend(s))));
    hide Answers;
    forall i: nat ensures Answers(Spend(Spend(Spend(s))), i) <==> Answers(s, i + 3) {
      assert Answers(Spend(Spend(s)), i + 1) <==> Answers(Spend(s), i + 2);
      assert Answers(Spend(s), i + 2) <==> Answers(s, i + 3);
    }
  }

  lemma {:induction false} SeenFromTheStart(s: State, t: State, a: AaVolume, addition: nat)
    requires SameTables(t, s) && forall i: nat :: Answers(t, i) <==> Answers(s, i + 3)
    requires Exists(s.vdisks, a.master) && Exists(s.vdisks, a.aux)
    ensures forall done: nat :: Leading(t, 1, done) <==> Leading(s, 4, done)
    ensures AaScriptOf(t, a, addition) == AaScriptOf(s, a, addition)
    ensures forall done: nat | done <= 9 :: var script := AaScriptOf(s, a, addition);
      SameTables(ApplyAll(t, script[..done]), ApplyAll(s, script[..done]))
  {
    hide Answers, ApplyAll;
    forall done: nat ensures Leading(t, 1, done) <==> Leading(s, 4, done) {
      if Leading(t, 1, done) {
        forall i: nat | 4 <= i < 4 + done ensures Answers(s, i) { assert Answers(t, i - 3); }
      }
      if Leading(s, 4, done) {
        forall i: nat | 1 <= i < 1 + done ensures Answers(t, i) { assert Answers(s, i + 3); }
      }
      assert Answers(t, 1 + done) <==> Answers(s, 1 + done + 3);
    }
    var script := AaScriptOf(s, a, addition);
    forall done: nat | done <= 9 ensures SameTables(ApplyAll(t, script[..done]), ApplyAll(s, script[..done])) {
      ApplyAllSame(t, s, script[..done]);
    }
  }
}
