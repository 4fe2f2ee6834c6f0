/** Runs of volume operations, with any command or query failing: the tables stay sound. */
module VolumeRuns {
  import opened Wrappers
  import opened Text
  import opened Lists
  import opened Sizes
  import opened VdiskArray
  import opened As18000
  import opened AaExtend
  import opened AaScript
  import opened AaRuns
  import opened ArrayInvariant

  /** A driver call, or a change of the array on its own: a finished self-deleting map goes away, and
      the clock moves on. */
  datatype Call =
    | Creating(name: string, gib: nat, o: Options)
    | Cloning(name: string, gib: nat, o: Options, source: string, snapshot: string)
    | Deleting(name: string)
    | Snapshotting(source: string, name: string)
    | DeletingSnapshot(name: string, settle: nat)
    | Extending(volume: string, size: string, env: Env)
    | CopyFinished(id: nat)
    | ClockMoved(now: string)

  function WithoutFinished(ms: seq<LcMap>, id: nat): seq<LcMap> {
    Filter(ms, (m: LcMap) => m.id != id || !m.autodelete)
  }

  function Step(d: Driver, call: Call): Driver {
    match call
    case Creating(name, gib, o) => d.(store := CreateVolume(d.store, name, gib, o).0)
    case Cloning(name, gib, o, source, snapshot) => d.(store := CloneVolume(d.store, name, gib, o, source, snapshot).0)
    case Deleting(name) => d.(store := DeleteVolume(d.store, name).0)
    case Snapshotting(source, name) => d.(store := CreateSnapshot(d.store, source, name).0)
    case DeletingSnapshot(name, settle) => d.(store := DeleteSnapshot(d.store, name, settle).0)
    case Extending(volume, size, env) => ExtendVolume(d, volume, size, env).0
    case CopyFinished(id) => d.(store := d.store.(maps := WithoutFinished(d.store.maps, id)))
    case ClockMoved(now) => d.(store := d.store.(now := if now != "" then now else d.store.now))
  }

  function Run(d: Driver, calls: seq<Call>): Driver
    decreases |calls|
  {
    if calls == [] then d else Run(Step(d, calls[0]), calls[1..])
  }

  lemma {:induction false} RunInTwo(d: Driver, first: seq<Call>, second: seq<Call>)
    ensures Run(d, first + second) == Run(Run(d, first), second)
    decreases |first|
  {
    hide Step;
    if first == [] {
      assert first + second == second;
    } else {
      assert (first + second)[1..] == first[1..] + second;
      RunInTwo(Step(d, first[0]), first[1..], second);
    }
  }

  /* ---- the tables stay sound ---- */

  ghost predicate CommandsKeepSound() {
    && (forall s, c | Sound(s) :: Sound(Execute(s, c).0))
    && (forall s | Sound(s) :: Sound(Spend(s)))
  }

  lemma {:induction false} CommandsKeep()
    ensures CommandsKeepSound()
  {
    hide Execute, Sound;
    forall s, c | Sound(s) ensures Sound(Execute(s, c).0) { ExecuteSound(s, c); }
    forall s | Sound(s) ensures Sound(Spend(s)) { SoundClock(s); SoundIgnoresFaults(s, Spend(s).faults, s.now); }
  }

  lemma {:induction false} PollSpends(s: State, name: string, settle: nat, rounds: nat)
    ensures SameTables(Poll(s, name, settle, rounds), s)
    decreases rounds
  {
    hide MapsTo;
    if rounds > 0 && Up(s) && MapsTo(s.maps, name) != [] && settle > 0 {
      PollSpends(Spend(s), name, settle - 1, rounds - 1);
    }
  }

  lemma {:induction false} ScriptSound(s: State, script: seq<Command>)
    requires Sound(s)
    ensures Sound(RunScript(s, script).0)
    decreases |script|
  {
    hide Sound, Execute;
    if script != [] {
      ExecuteSound(s, script[0]);
      if Execute(s, script[0]).1 { ScriptSound(Execute(s, script[0]).0, script[1..]); }
    }
  }

  lemma {:induction false} SameTablesSound(s: State, t: State)
    requires Sound(s) && SameTables(s, t)
    ensures Sound(t)
  {}

  lemma {:induction false} GrownSound(d: Driver, infos: Infos, addition: nat)
    requires Sound(d.store)
    ensures Sound(Grown(d, infos, addition).0.store)
  {
    hide Sound, Execute, RunScript, Script, Spend;
    var s := d.store;
    ExecuteSound(s, ExpandVdisk(infos.master.name, addition));
    CommandsKeep();
    if infos.aux.Some? {
      var (aux, masterChange, auxChange) := infos.aux.value;
      ScriptSound(Spend(s), Script(infos.master, aux, masterChange, auxChange, addition));
    }
  }

  lemma {:induction false} ExtendSound(d: Driver, volume: string, size: string, env: Env)
    requires Sound(d.store)
    ensures Sound(ExtendVolume(d, volume, size, env).0.store)
  {
    hide Sound, ExtendVolume, Grown, VolumeRows, BuildVolumeInfos;
    var after := ExtendVolume(d, volume, size, env).0;
    if d.barrier {
      BarrierStops(d, volume, size, env);
    } else {
      ExtendCases(d, volume, size, env);
      if after == d.(store := after.store) && SameTables(after.store, d.store) {
        SameTablesSound(d.store, after.store);
      } else {
        var infos, addition: nat, s1 :| GrowthOf(d, volume, infos, addition, s1, after);
        SameTablesSound(d.store, s1);
        GrownSound(d.(store := s1), infos, addition);
      }
    }
  }

  lemma {:induction false} BarrierStops(d: Driver, volume: string, size: string, env: Env)
    requires d.barrier
    ensures ExtendVolume(d, volume, size, env).0 == d
  {}

  lemma {:induction false} SnapshotSound(s: State, source: string, name: string)
    requires Sound(s)
    ensures Sound(CreateSnapshot(s, source, name).0)
  {
    hide Sound, Execute, Spend, Up, VolumeRows, MapsTo, ParseStrSize, Decimal, StdTime, FindVdisk;
    CommandsKeep();
  }

  lemma {:induction false} DeleteSnapshotSound(s: State, name: string, settle: nat)
    requires Sound(s)
    ensures Sound(DeleteSnapshot(s, name, settle).0)
  {
    hide Sound, Execute, Spend, Up, MapsTo, MapsFrom, Poll;
    CommandsKeep();
    if Up(s) && Up(Spend(s)) && MapsTo(Spend(s).maps, name) != [] {
      var s3 := Execute(Spend(Spend(s)), StopLcMap(MapsTo(Spend(s).maps, name)[0].id)).0;
      PollSpends(s3, name, settle, POLL_ROUNDS);
      SameTablesSound(s3, Poll(s3, name, settle, POLL_ROUNDS));
    }
  }

  lemma {:induction false} CloneSound(s: State, name: string, gib: nat, o: Options, source: string, snapshot: string)
    requires Sound(s)
    ensures Sound(CreateVolume(s, name, gib, o).0)
    ensures Sound(CloneVolume(s, name, gib, o, source, snapshot).0)
  {
    hide Sound, Execute, CreateCommand;
    CommandsKeep();
  }

  lemma {:induction false} DeleteSound(s: State, name: string)
    requires Sound(s)
    ensures Sound(DeleteVolume(s, name).0)
  {
    hide Sound, Execute, Spend, Up, VolumeRows, MapsFrom;
    CommandsKeep();
  }

  lemma {:induction false} FinishedSound(s: State, id: nat)
    requires Sound(s)
    ensures Sound(s.(maps := WithoutFinished(s.maps, id)))
  {
    hide DistinctVdisks, RelationsAttached, Exists, WholeGib, DistinctMapIds;
    FilterMapIds(s.maps, (m: LcMap) => m.id != id || !m.autodelete);
  }

  lemma {:induction false} StepSound(d: Driver, call: Call)
    requires Sound(d.store)
    ensures Sound(Step(d, call).store)
  {
    hide Sound, CreateVolume, CloneVolume, DeleteVolume, CreateSnapshot, DeleteSnapshot, ExtendVolume, WithoutFinished;
    match call {
      case Creating(name, gib, o) => CloneSound(d.store, name, gib, o, "", "");
      case Cloning(name, gib, o, source, snapshot) => CloneSound(d.store, name, gib, o, source, snapshot);
      case Deleting(name) => DeleteSound(d.store, name);
      case Snapshotting(source, name) => SnapshotSound(d.store, source, name);
      case DeletingSnapshot(name, settle) => DeleteSnapshotSound(d.store, name, settle);
      case Extending(volume, size, env) => ExtendSound(d, volume, size, env);
      case CopyFinished(id) => FinishedSound(d.store, id);
      case ClockMoved(now) =>
        SoundClock(d.store);
        SoundIgnoresFaults(d.store, d.store.faults, if now != "" then now else d.store.now);
    }
  }

  /** Over every run of volume operations, with any failures, names and ids stay distinct, maps and
      relationships hang on existing vdisks, and every size stays a whole number of GiB. */
  lemma {:induction false} RunSound(d: Driver, calls: seq<Call>)
    requires Sound(d.store)
    ensures Sound(Run(d, calls).store)
    decreases |calls|
  {
    hide Sound, Step;
    if calls != [] {
      StepSound(d, calls[0]);
      RunSound(Step(d, calls[0]), calls[1..]);
    }
  }
}
