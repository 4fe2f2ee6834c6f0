/** The AS18000 driver's volume operations: create, clone, delete, snapshot, and the extend
    transaction with its failure barrier. Each operation is a function from state to state and a
    method of `StorageUtil` proved to do exactly that, command by command. */
module As18000 {
  import opened Wrappers
  import opened Text
  import opened Sizes
  import opened VdiskArray

  datatype Error =
    | ArrayFailure
    | BarrierExists
    | NoVolume
    | Panic
    | CountInvalid
    | NotLarger
    | Formatting
    | PoolUnknown
    | HasLocalCopy
    | PoolFull
    | BadLevel
    | BadOptions
    | AaUnsupported
    | NothingToClone
    | SourceOfMaps

  /** The array together with the barrier file; `writable` says whether the file can be created. */
  datatype Driver = Driver(store: State, barrier: bool, writable: bool)

  /* ---- creating a volume ---- */

  /** The options a volume is created from; `wellFormed` is whether its flags parse. */
  datatype Options = Options(level: Option<string>, pool: Option<string>, auxPool: Option<string>,
                             iogrp: Option<string>, auxIogrp: Option<string>, wellFormed: bool)

  function OrEmpty(o: Option<string>): string { if o.Some? then o.value else "" }

  function CreateCommand(name: string, gib: nat, o: Options): Result<Command, Error> {
    var level := if o.level.Some? then o.level.value else "basic";
    if level != "basic" && level != "mirror" && level != "aa" then Err(BadLevel)
    else if o.pool.None? || (level != "basic" && o.auxPool.None?)
            || (level == "aa" && (o.iogrp.None? || o.auxIogrp.None?)) || !o.wellFormed then Err(BadOptions)
    else if level == "aa" then
      Ok(MkVolume(name, gib, o.pool.value, o.auxPool.value, o.iogrp.value, o.auxIogrp.value))
    else Ok(MkVdisk(name, gib, o.pool.value, OrEmpty(o.iogrp)))
  }

  function CreateVolume(s: State, name: string, gib: nat, o: Options): (State, Result<(), Error>) {
    var c := CreateCommand(name, gib, o);
    if c.Err? then (s, Err(c.error))
    else
      var (s1, ok) := Execute(s, c.value);
      (s1, if ok then Ok(()) else Err(ArrayFailure))
  }

  /* ---- cloning ---- */

  function CloneVolume(s: State, name: string, gib: nat, o: Options, source: string, snapshot: string)
    : (State, Result<(), Error>)
  {
    if o.level == Some("aa") then (s, Err(AaUnsupported))
    else if source == "" && snapshot == "" then (s, Err(NothingToClone))
    else
      var (s1, created) := CreateVolume(s, name, gib, o);
      if created.Err? then (s1, created)
      else
        var id := NextMapId(s1.maps);
        var (s2, made) := Execute(s1, MkLcMap(if source != "" then source else snapshot, name, true));
        if !made then (Execute(s2, RmVdisk(name)).0, Err(ArrayFailure))
        else
          var (s3, started) := Execute(s2, StartLcMap(id));
          if !started then
            var s4 := Execute(s3, StopLcMap(id)).0;
            (Execute(s4, RmVdisk(name)).0, Err(ArrayFailure))
          else (s3, Ok(()))
  }

  /* ---- deleting ---- */

  function DeleteVolume(s: State, name: string): (State, Result<(), Error>) {
    if !Up(s) then (Spend(s), Err(ArrayFailure))
    else
      var s1 := Spend(s);
      var size := |VolumeRows(s1, name)|;
      if size == 0 then (s1, Ok(()))
      else if size != 1 && size != 4 then (s1, Err(CountInvalid))
      else if !Up(s1) then (Spend(s1), Err(ArrayFailure))
      else
        var s2 := Spend(s1);
        var sources := |MapsFrom(s2.maps, name)|;
        if (size == 1 && sources != 0) || (size == 4 && sources > 1) then (s2, Err(SourceOfMaps))
        else
          var (s3, ok) := Execute(s2, if size == 1 then RmVdisk(name) else RmVolume(name));
          (s3, if ok then Ok(()) else Err(ArrayFailure))
  }

  /* ---- snapshots ---- */

  datatype Reply = Reply(ready: bool, time: Option<string>, error: Option<Error>)

  /** yyMMddhhmmss as a date and a time; anything else is left alone. */
  function StdTime(t: string): string {
    if |t| == 12 then
      "20" + t[0..2] + "-" + t[2..4] + "-" + t[4..6] + " " + t[6..8] + ":" + t[8..10] + ":" + t[10..12]
    else t
  }

  function Failed(e: Error): Reply { Reply(false, None, Some(e)) }

  /** Removing what an unfinished snapshot has made: its map, when there is one, and its vdisk. */
  function CleanUp(s: State, name: string, mapId: Option<nat>, stop: bool): State {
    var s1 := if mapId.Some? && stop then Execute(s, StopLcMap(mapId.value)).0 else s;
    var s2 := if mapId.Some? then Execute(s1, RmLcMap(mapId.value)).0 else s1;
    Execute(s2, RmVdisk(name)).0
  }

  function SnapshotOptions(v: Vdisk): Options {
    Options(Some("basic"), Some(v.pool), None, Some(v.iogrp), None, true)
  }

  /** From the moment the snapshot's vdisk exists: map it, start the map, read its time back. */
  function MapSnapshot(s: State, source: string, name: string): (State, Reply) {
    var id := NextMapId(s.maps);
    var (s1, made) := Execute(s, MkLcMap(source, name, false));
    if !made then (CleanUp(s1, name, None, false), Failed(ArrayFailure))
    else
      var (s2, started) := Execute(s1, StartLcMap(id));
      if !started then (CleanUp(s2, name, Some(id), false), Failed(ArrayFailure))
      else if !Up(s2) then (CleanUp(Spend(s2), name, Some(id), true), Failed(ArrayFailure))
      else
        var s3 := Spend(s2);
        var rows := MapsTo(s3.maps, name);
        if rows == [] then (s3, Reply(true, None, None))
        else if rows[0].source == source then (s3, Reply(true, Some(StdTime(rows[0].startTime)), None))
        else (CleanUp(s3, name, Some(id), true), Reply(true, None, None))
  }

  function NewSnapshot(s: State, source: string, name: string): (State, Reply) {
    if !Up(s) then (Spend(s), Failed(ArrayFailure))
    else
      var s1 := Spend(s);
      var size := |VolumeRows(s1, source)|;
      if size == 0 then (s1, Failed(NoVolume))
      else if size == 4 then (s1, Failed(AaUnsupported))
      else if size != 1 then (s1, Failed(CountInvalid))
      else if !Up(s1) then (Spend(s1), Failed(ArrayFailure))
      else
        var s2 := Spend(s1);
        var found := FindVdisk(s2.vdisks, source);
        if found.None? then (s2, Failed(CountInvalid))
        else
          var gib := ParseStrSize(Decimal(found.value.size));
          var (s3, created) := CreateVolume(s2, name, gib, SnapshotOptions(found.value));
          if created.Err? then (s3, Failed(created.error)) else MapSnapshot(s3, source, name)
  }

  function CreateSnapshot(s: State, source: string, name: string): (State, Reply) {
    if !Up(s) then (Spend(s), Failed(ArrayFailure))
    else
      var s1 := Spend(s);
      var rows := MapsTo(s1.maps, name);
      if rows != [] && rows[0].source == source then
        var time := Some(StdTime(rows[0].startTime));
        if rows[0].startTime != "" then (s1, Reply(true, time, None))
        else (Execute(s1, StartLcMap(rows[0].id)).0, Reply(false, time, None))
      else NewSnapshot(s1, source, name)
  }

  /** Waiting, for at most `rounds` queries, until the map is stopped, which it is once `settle`
      queries have been answered. */
  function Poll(s: State, name: string, settle: nat, rounds: nat): State
    decreases rounds
  {
    if rounds == 0 then s
    else if !Up(s) || MapsTo(s.maps, name) == [] || settle == 0 then Spend(s)
    else Poll(Spend(s), name, settle - 1, rounds - 1)
  }

  const POLL_ROUNDS := 20

  function DeleteSnapshot(s: State, name: string, settle: nat): (State, Result<(), Error>) {
    if !Up(s) then (Spend(s), Err(ArrayFailure))
    else
      var s1 := Spend(s);
      var rows := MapsTo(s1.maps, name);
      if rows == [] then (s1, Ok(()))
      else if !Up(s1) then (Spend(s1), Err(ArrayFailure))
      else
        var s2 := Spend(s1);
        if MapsFrom(s2.maps, name) != [] then (s2, Err(SourceOfMaps))
        else
          var id := rows[0].id;
          var s3 := Poll(Execute(s2, StopLcMap(id)).0, name, settle, POLL_ROUNDS);
          var (s4, ok) := Execute(Execute(s3, RmLcMap(id)).0, RmVdisk(name));
          (s4, if ok then Ok(()) else Err(ArrayFailure))
  }

  /* ---- extending ---- */

  /** What the array reports, during one call, about pools (free bytes) and formatting vdisks. */
  datatype Env = Env(free: map<string, nat>, formatting: set<string>)

  datatype Roles = Roles(master: Option<Row>, aux: Option<Row>,
                         masterChange: Option<Row>, auxChange: Option<Row>)

  function Assign(roles: Roles, row: Row): Roles {
    match row.part
    case Master => roles.(master := Some(row))
    case Blank => roles.(master := Some(row))
    case Aux => roles.(aux := Some(row))
    case MasterChange => roles.(masterChange := Some(row))
    case AuxChange => roles.(auxChange := Some(row))
  }

  function AssignAll(rows: seq<Row>): Roles {
    if rows == [] then Roles(None, None, None, None)
    else Assign(AssignAll(rows[..|rows| - 1]), rows[|rows| - 1])
  }

  /** A basic volume has a master only; an active-active one also an aux and two change volumes. */
  datatype Infos = Infos(master: Row, aux: Option<(Row, string, string)>)

  function BuildVolumeInfos(rows: seq<Row>): Result<Infos, Error> {
    var roles := AssignAll(rows);
    if roles.aux.Some? then
      if roles.master.None? || roles.masterChange.None? || roles.auxChange.None? then Err(Panic)
      else Ok(Infos(roles.master.value,
                    Some((roles.aux.value, roles.masterChange.value.name, roles.auxChange.value.name))))
    else if roles.master.None? then Err(NoVolume)
    else Ok(Infos(roles.master.value, None))
  }

  function FreeGib(env: Env, pool: string): Option<int> {
    if pool in env.free then Some(ParseStrSize(Decimal(env.free[pool]))) else None
  }

  /** canVolumeBeExtend, up to the queries it makes: one for the master pool, one for the aux pool. */
  function CheckExtend(s: State, infos: Infos, addition: nat, env: Env): (State, Result<(), Error>) {
    var master := infos.master;
    if master.name in env.formatting then (s, Err(Formatting))
    else
      var free := FreeGib(env, master.pool);
      var s1 := Spend(s);
      if !Up(s) || free.None? then (s1, Err(PoolUnknown))
      else if infos.aux.None? then
        (s1, if master.lcMapCount != "0" then Err(HasLocalCopy)
             else if free.value < addition then Err(PoolFull)
             else Ok(()))
      else
        var aux := infos.aux.value.0;
        if aux.name in env.formatting then (s1, Err(Formatting))
        else
          var auxFree := FreeGib(env, aux.pool);
          var s2 := Spend(s1);
          if !Up(s1) || auxFree.None? then (s2, Err(PoolUnknown))
          else
            (s2, if master.lcMapCount != "2" || aux.lcMapCount != "2" then Err(HasLocalCopy)
                 else if free.value < addition * 2 || auxFree.value < addition * 2 then Err(PoolFull)
                 else Ok(()))
  }

  /** The nine commands that take an active-active volume apart, grow it and rebuild it. */
  function Script(master: Row, aux: Row, masterChange: string, auxChange: string, addition: nat): seq<Command> {
    [RmRelation(master.id),
     ExpandVdisk(master.name, addition),
     ExpandVdisk(aux.name, addition),
     ExpandVdisk(masterChange, addition),
     ExpandVdisk(auxChange, addition),
     MkRelation(master.name, aux.name),
     AddVdiskAccess(aux.iogrp, master.name),
     ChMasterChange(masterChange, master.id),
     ChAuxChange(auxChange, master.id)]
  }

  /** Commands in order up to the first failure; the number of commands carried out. */
  function RunScript(s: State, script: seq<Command>): (State, nat)
    decreases |script|
  {
    if script == [] then (s, 0)
    else
      var (s1, ok) := Execute(s, script[0]);
      if !ok then (s1, 0)
      else
        var (s2, done) := RunScript(s1, script[1..]);
        (s2, done + 1)
  }

  /** Carrying out an extension whose pre-check has passed. */
  function Grown(d: Driver, infos: Infos, addition: nat): (Driver, Result<(), Error>) {
    var s := d.store;
    if infos.aux.None? then
      var (s1, ok) := Execute(s, ExpandVdisk(infos.master.name, addition));
      (d.(store := s1), if ok then Ok(()) else Err(ArrayFailure))
    else if !Up(s) then (d.(store := Spend(s)), Err(ArrayFailure))
    else
      var (aux, masterChange, auxChange) := infos.aux.value;
      var script := Script(infos.master, aux, masterChange, auxChange, addition);
      var (s1, done) := RunScript(Spend(s), script);
      if done < |script| then (d.(store := s1, barrier := d.barrier || d.writable), Err(ArrayFailure))
      else (d.(store := s1), Ok(()))
  }

  function ExtendVolume(d: Driver, volume: string, size: string, env: Env): (Driver, Result<(), Error>) {
    if d.barrier then (d, Err(BarrierExists))
    else if !Up(d.store) then (d.(store := Spend(d.store)), Err(ArrayFailure))
    else
      var s := Spend(d.store);
      var d1 := d.(store := s);
      var infos := BuildVolumeInfos(VolumeRows(s, volume));
      if infos.Err? then (d1, Err(infos.error))
      else
        var newSize, oldSize := Atoi(size).value, ParseStrSize(infos.value.master.capacity);
        if newSize == oldSize then (d1, Ok(()))
        else if newSize < oldSize then (d1, Err(NotLarger))
        else
          var (s1, check) := CheckExtend(s, infos.value, newSize - oldSize, env);
          var d2 := d.(store := s1);
          if check.Err? then (d2, Err(check.error)) else Grown(d2, infos.value, newSize - oldSize)
  }

  /* ---- the driver object ---- */

  class StorageUtil {
    const cli: CliArray
    var barrier: bool
    const writable: bool

    constructor (cli: CliArray, barrier: bool, writable: bool)
      ensures this.cli == cli && State() == Driver(cli.Current(), barrier, writable)
    {
      this.cli, this.barrier, this.writable := cli, barrier, writable;
    }

    function State(): Driver
      reads this, cli
    {
      Driver(cli.Current(), barrier, writable)
    }

    method Create(name: string, gib: nat, o: Options) returns (r: Result<(), Error>)
      modifies cli
      ensures (cli.Current(), r) == CreateVolume(old(cli.Current()), name, gib, o)
    {
      var c := CreateCommand(name, gib, o);
      if c.Err? { return Err(c.error); }
      var ok := cli.Run(c.value);
      return if ok then Ok(()) else Err(ArrayFailure);
    }

    method Clone(name: string, gib: nat, o: Options, source: string, snapshot: string)
      returns (r: Result<(), Error>)
      modifies cli
      ensures (cli.Current(), r) == CloneVolume(old(cli.Current()), name, gib, o, source, snapshot)
    {
      if o.level == Some("aa") { return Err(AaUnsupported); }
      if source == "" && snapshot == "" { return Err(NothingToClone); }
      hide Can, Apply;
      r := Create(name, gib, o);
      if r.Err? { return; }
      var made, id := cli.MakeMap(if source != "" then source else snapshot, name, true);
      if !made {
        var _ := cli.Run(RmVdisk(name));
        return Err(ArrayFailure);
      }
      var started := cli.Run(StartLcMap(id));
      if !started {
        var _ := cli.Run(StopLcMap(id));
        var _ := cli.Run(RmVdisk(name));
        return Err(ArrayFailure);
      }
      return Ok(());
    }

    method Delete(name: string) returns (r: Result<(), Error>)
      modifies cli
      ensures (cli.Current(), r) == DeleteVolume(old(cli.Current()), name)
    {
      hide Can, Apply, VolumeRows, MapsFrom;
      var up := cli.Answer();
      if !up { return Err(ArrayFailure); }
      var rows := VolumeRows(cli.Current(), name);
      if |rows| == 0 { return Ok(()); }
      if |rows| != 1 && |rows| != 4 { return Err(CountInvalid); }
      up := cli.Answer();
      if !up { return Err(ArrayFailure); }
      var sources := MapsFrom(cli.maps, name);
      if (|rows| == 1 && |sources| != 0) || (|rows| == 4 && |sources| > 1) { return Err(SourceOfMaps); }
      var ok := cli.Run(if |rows| == 1 then RmVdisk(name) else RmVolume(name));
      return if ok then Ok(()) else Err(ArrayFailure);
    }

    method RemoveUnfinished(name: string, mapId: Option<nat>, stop: bool)
      modifies cli
      ensures cli.Current() == CleanUp(old(cli.Current()), name, mapId, stop)
    {
      hide Can, Apply;
      if mapId.Some? {
        if stop { var _ := cli.Run(StopLcMap(mapId.value)); }
        var _ := cli.Run(RmLcMap(mapId.value));
      }
      var _ := cli.Run(RmVdisk(name));
    }

    method MapNewSnapshot(source: string, name: string) returns (r: Reply)
      modifies cli
      ensures (cli.Current(), r) == MapSnapshot(old(cli.Current()), source, name)
    {
      hide Can, Apply, CleanUp, MapsTo, StdTime;
      var made, id := cli.MakeMap(source, name, false);
      if !made {
        RemoveUnfinished(name, None, false);
        return Failed(ArrayFailure);
      }
      var started := cli.Run(StartLcMap(id));
      if !started {
        RemoveUnfinished(name, Some(id), false);
        return Failed(ArrayFailure);
      }
      var up := cli.Answer();
      if !up {
        RemoveUnfinished(name, Some(id), true);
        return Failed(ArrayFailure);
      }
      var rows := MapsTo(cli.maps, name);
      if rows == [] { return Reply(true, None, None); }
      if rows[0].source == source { return Reply(true, Some(StdTime(rows[0].startTime)), None); }
      RemoveUnfinished(name, Some(id), true);
      return Reply(true, None, None);
    }

    method Snapshot(source: string, name: string) returns (r: Reply)
      modifies cli
      ensures (cli.Current(), r) == CreateSnapshot(old(cli.Current()), source, name)
    {
      hide Can, Apply, MapsTo, StdTime, MapSnapshot, VolumeRows, ParseStrSize, Decimal, CreateVolume;
      var up := cli.Answer();
      if !up { return Failed(ArrayFailure); }
      var rows := MapsTo(cli.maps, name);
      if rows != [] && rows[0].source == source {
        var time := Some(StdTime(rows[0].startTime));
        if rows[0].startTime != "" { return Reply(true, time, None); }
        var _ := cli.Run(StartLcMap(rows[0].id));
        return Reply(false, time, None);
      }

      up := cli.Answer();
      if !up { return Failed(ArrayFailure); }
      var size := |VolumeRows(cli.Current(), source)|;
      if size == 0 { return Failed(NoVolume); }
      if size == 4 { return Failed(AaUnsupported); }
      if size != 1 { return Failed(CountInvalid); }

      up := cli.Answer();
      if !up { return Failed(ArrayFailure); }
      var found := FindVdisk(cli.vdisks, source);
      if found.None? { return Failed(CountInvalid); }
      var gib := ParseStrSize(Decimal(found.value.size));
      var created := Create(name, gib, SnapshotOptions(found.value));
      if created.Err? { return Failed(created.error); }
      r := MapNewSnapshot(source, name);
    }

    method RemoveSnapshot(name: string, settle: nat) returns (r: Result<(), Error>)
      modifies cli
      ensures (cli.Current(), r) == DeleteSnapshot(old(cli.Current()), name, settle)
    {
      hide Can, Apply, MapsTo, MapsFrom;
      var up := cli.Answer();
      if !up { return Err(ArrayFailure); }
      var rows := MapsTo(cli.maps, name);
      if rows == [] { return Ok(()); }
      up := cli.Answer();
      if !up { return Err(ArrayFailure); }
      if MapsFrom(cli.maps, name) != [] { return Err(SourceOfMaps); }

      var id := rows[0].id;
      var _ := cli.Run(StopLcMap(id));
      ghost var s0 := cli.Current();
      var i := 0;
      while i < POLL_ROUNDS
        invariant 0 <= i <= POLL_ROUNDS && i <= settle
        invariant Poll(s0, name, settle, POLL_ROUNDS) == Poll(cli.Current(), name, settle - i, POLL_ROUNDS - i)
      {
        up := cli.Answer();
        if !up || MapsTo(cli.maps, name) == [] || i == settle { break; }
        i := i + 1;
      }
      assert Poll(s0, name, settle, POLL_ROUNDS) == cli.Current();
      var _ := cli.Run(RmLcMap(id));
      var ok := cli.Run(RmVdisk(name));
      return if ok then Ok(()) else Err(ArrayFailure);
    }

    method CollectInfos(rows: seq<Row>) returns (r: Result<Infos, Error>)
      ensures r == BuildVolumeInfos(rows)
    {
      var roles := Roles(None, None, None, None);
      for i := 0 to |rows|
        invariant roles == AssignAll(rows[..i])
      {
        assert rows[..i + 1][..i] == rows[..i];
        roles := Assign(roles, rows[i]);
      }
      assert rows[..|rows|] == rows;
      if roles.aux.Some? {
        if roles.master.None? || roles.masterChange.None? || roles.auxChange.None? { return Err(Panic); }
        return Ok(Infos(roles.master.value,
                        Some((roles.aux.value, roles.masterChange.value.name, roles.auxChange.value.name))));
      }
      return if roles.master.None? then Err(NoVolume) else Ok(Infos(roles.master.value, None));
    }

    method CanBeExtended(infos: Infos, addition: nat, env: Env) returns (r: Result<(), Error>)
      modifies cli
      ensures (cli.Current(), r) == CheckExtend(old(cli.Current()), infos, addition, env)
    {
      hide FreeGib;
      var master := infos.master;
      if master.name in env.formatting { return Err(Formatting); }
      var up := cli.Answer();
      var free := FreeGib(env, master.pool);
      if !up || free.None? { return Err(PoolUnknown); }
      if infos.aux.Some? {
        var aux := infos.aux.value.0;
        if aux.name in env.formatting { return Err(Formatting); }
        up := cli.Answer();
        var auxFree := FreeGib(env, aux.pool);
        if !up || auxFree.None? { return Err(PoolUnknown); }
        if master.lcMapCount != "2" || aux.lcMapCount != "2" { return Err(HasLocalCopy); }
        if free.value < addition * 2 || auxFree.value < addition * 2 { return Err(PoolFull); }
      } else {
        if master.lcMapCount != "0" { return Err(HasLocalCopy); }
        if free.value < addition { return Err(PoolFull); }
      }
      return Ok(());
    }

    /** The nine steps in order, with the early stop. */
    method RunTasks(tasks: seq<Command>) returns (done: nat)
      modifies cli
      ensures (cli.Current(), done) == RunScript(old(cli.Current()), tasks)
      ensures done <= |tasks|
    {
      hide Can, Apply;
      ghost var s0 := cli.Current();
      done := 0;
      while done < |tasks|
        invariant 0 <= done <= |tasks|
        invariant RunScript(s0, tasks).0 == RunScript(cli.Current(), tasks[done..]).0
        invariant RunScript(s0, tasks).1 == RunScript(cli.Current(), tasks[done..]).1 + done
      {
        assert tasks[done..][1..] == tasks[done + 1..];
        var ok := cli.Run(tasks[done]);
        if !ok { return; }
        done := done + 1;
      }
    }

    method Extend(volume: string, size: string, env: Env) returns (r: Result<(), Error>)
      modifies this, cli
      ensures (State(), r) == ExtendVolume(old(State()), volume, size, env)
    {
      hide Can, Apply, VolumeRows, BuildVolumeInfos, CheckExtend, ParseStrSize, RunScript, Atoi;
      if barrier { return Err(BarrierExists); }
      var up := cli.Answer();
      if !up { return Err(ArrayFailure); }
      var infos := CollectInfos(VolumeRows(cli.Current(), volume));
      if infos.Err? { return Err(infos.error); }
      var newSize, oldSize := Atoi(size).value, ParseStrSize(infos.value.master.capacity);
      if newSize == oldSize { return Ok(()); }
      if newSize < oldSize { return Err(NotLarger); }
      var addition := newSize - oldSize;
      var check := CanBeExtended(infos.value, addition, env);
      if check.Err? { return Err(check.error); }

      if infos.value.aux.None? {
        var ok := cli.Run(ExpandVdisk(infos.value.master.name, addition));
        return if ok then Ok(()) else Err(ArrayFailure);
      }
      up := cli.Answer();
      if !up { return Err(ArrayFailure); }
      var (aux, masterChange, auxChange) := infos.value.aux.value;
      var tasks := Script(infos.value.master, aux, masterChange, auxChange, addition);
      var done := RunTasks(tasks);
      if done < |tasks| {
        barrier := barrier || writable;
        return Err(ArrayFailure);
      }
      return Ok(());
    }
  }
}
