/** CreateSnapshot is all or nothing: what each failing command leaves behind, exactly when the clean-up
    restores the tables, what a repeated call answers, and when the result is durable. */
module SnapshotAtomic {
  import opened Wrappers
  import opened Text
  import opened Lists
  import opened Sizes
  import opened VdiskArray
  import opened As18000
  import opened AaExtend
  import opened AaScript
  import opened AaRuns
  import opened ExtendSizes
  import opened ArrayInvariant
  import opened SnapshotStands
  import opened VolumeRuns
  import opened SnapshotRuns

  /** Whether the i-th command or query from now on gets through. */
  predicate Answers(s: State, i: nat) { i >= |s.faults| || s.faults[i] }

  lemma {:induction false} OneAnswerLess(s: State, t: State, i: nat)
    requires t.faults == Spend(s).faults
    ensures Up(s) <==> Answers(s, 0)
    ensures Answers(t, i) <==> Answers(s, i + 1)
  {}

  /* ---- undoing ---- */

  /** A name nothing hangs on. */
  lemma {:induction false} FreeOfName(s: State, name: string)
    requires Sound(s) && !Exists(s.vdisks, name)
    ensures forall m | m in s.maps :: !Touches(m, name)
    ensures forall r | r in s.relations :: !Mentions(r, name)
    ensures MapsTo(s.maps, name) == []
  {
    FilterNone(s.maps, (m: LcMap) => m.target == name);
  }

  lemma {:induction false} DropNewVdisk(vs: seq<Vdisk>, v: Vdisk)
    requires !Exists(vs, v.name)
    ensures DropVdisk(vs + [v], v.name) == vs
  {
    var keep := (w: Vdisk) => w.name != v.name;
    FilterAppend(vs, [v], keep);
    FilterAll(vs, keep);
    FilterNone([v], keep);
  }

  lemma {:induction false} DropNewMap(ms: seq<LcMap>, m: LcMap)
    requires forall n | n in ms :: n.id < m.id
    ensures DropMap(ms + [m], m.id) == ms
  {
    var keep := (n: LcMap) => n.id != m.id;
    FilterAppend(ms, [m], keep);
    FilterAll(ms, keep);
    FilterNone([m], keep);
  }

  lemma {:induction false} DropMapsTo(ms: seq<LcMap>, more: seq<LcMap>, gone: set<string>)
    requires forall m | m in ms :: m.source !in gone && m.target !in gone
    requires forall m | m in more :: m.target in gone
    ensures DropMaps(ms + more, gone) == ms
  {
    var keep := (m: LcMap) => m.source !in gone && m.target !in gone;
    FilterAppend(ms, more, keep);
    FilterAll(ms, keep);
    FilterNone(more, keep);
  }

  lemma {:induction false} DropNoRelation(rs: seq<Relation>, gone: set<string>)
    requires forall r | r in rs :: forall name | name in gone :: !Mentions(r, name)
    ensures DropRelationsOf(rs, gone) == rs
  {
    FilterAll(rs, (r: Relation) => forall name | name in gone :: !Mentions(r, name));
  }

  /** `s` with the snapshot's vdisk and whatever maps onto it. */
  function With(s: State, v: Vdisk, more: seq<LcMap>, faults: seq<bool>): State {
    s.(vdisks := s.vdisks + [v], maps := s.maps + more, faults := faults)
  }

  /** The snapshot's vdisk is left behind, perhaps with its map. */
  ghost predicate Left(s: State, v: Vdisk, after: State) {
    exists more :: after == With(s, v, more, after.faults)
  }

  /** Removing the vdisk takes its maps along. */
  lemma {:induction false} RemovalUndoes(s: State, v: Vdisk, more: seq<LcMap>, faults: seq<bool>)
    requires Sound(s) && !Exists(s.vdisks, v.name) && forall m | m in more :: m.target == v.name
    ensures var t := With(s, v, more, faults);
      var (after, ok) := Execute(t, RmVdisk(v.name));
      && (ok <==> Answers(t, 0))
      && (if ok then SameTables(after, s) else SameTables(after, t))
      && after.faults == Spend(t).faults
  {
    FreeOfName(s, v.name);
    var t := With(s, v, more, faults);
    assert v in t.vdisks;
    DropNewVdisk(s.vdisks, v);
    DropMapsTo(s.maps, more, {v.name});
    DropNoRelation(s.relations, {v.name});
    hide DropVdisk, DropMaps, DropRelationsOf, Sound, Mentions, Touches;
  }

  lemma {:induction false} MapRemoval(s: State, v: Vdisk, m: LcMap, faults: seq<bool>)
    requires Sound(s) && !Exists(s.vdisks, v.name) && m.target == v.name && m.id == NextMapId(s.maps)
    ensures var t := With(s, v, [m], faults);
      var (after, ok) := Execute(t, RmLcMap(m.id));
      after == With(s, v, if Answers(t, 0) then [] else [m], Spend(t).faults)
  {
    hide DropMap, Sound, NextMapId, Exists;
    var t := With(s, v, [m], faults);
    assert m in t.maps;
    DropNewMap(s.maps, m);
    assert s.maps + [] == s.maps;
    assert Apply(t, RmLcMap(m.id)).maps == s.maps;
  }

  lemma {:induction false} MapStop(s: State, v: Vdisk, m: LcMap, faults: seq<bool>)
    ensures var t := With(s, v, [m], faults); Execute(t, StopLcMap(m.id)).0 == With(s, v, [m], Spend(t).faults)
  {}

  /** The clean-up restores the tables exactly when its last command, rmvdisk, gets through. */
  lemma {:induction false} CleanUpUndoes(s: State, v: Vdisk, made: bool, m: LcMap, stop: bool, faults: seq<bool>)
    requires Sound(s) && !Exists(s.vdisks, v.name) && m.target == v.name && m.id == NextMapId(s.maps)
    requires made || !stop
    ensures var t := With(s, v, if made then [m] else [], faults);
      var after := CleanUp(t, v.name, if made then Some(m.id) else None, stop);
      if Answers(t, if stop then 2 else if made then 1 else 0) then SameTables(after, s)
      else Left(s, v, after)
  {
    hide Execute, Sound, Exists;
    var t := With(s, v, if made then [m] else [], faults);
    MapStop(s, v, m, faults);
    var t1 := if stop then With(s, v, [m], Spend(t).faults) else t;
    var t2 := if made then With(s, v, if Answers(t1, 0) then [] else [m], Spend(t1).faults) else t1;
    if stop { AnswersFrom(t, t1); }
    if made {
      MapRemoval(s, v, m, t1.faults);
      AnswersFrom(t1, t2);
    }
    var more: seq<LcMap> := if made && !Answers(t1, 0) then [m] else [];
    RemovalUndoes(s, v, more, t2.faults);
    LeftAsIs(s, v, more, Execute(t2, RmVdisk(v.name)).0, t2);
  }

  lemma {:induction false} LeftAsIs(s: State, v: Vdisk, more: seq<LcMap>, after: State, t: State)
    requires t == With(s, v, more, t.faults)
    ensures SameTables(after, t) ==> Left(s, v, after)
  {
    if SameTables(after, t) { assert after == With(s, v, more, after.faults); }
  }

  /* ---- mapping the snapshot's new vdisk ---- */

  function NewMap(s: State, source: string, name: string, startTime: string): LcMap {
    LcMap(NextMapId(s.maps), source, name, startTime, false)
  }

  lemma {:induction false} MapMade(s: State, v: Vdisk, source: string, autodelete: bool, faults: seq<bool>)
    requires Sound(s) && !Exists(s.vdisks, v.name) && Exists(s.vdisks, source)
    ensures var t := With(s, v, [], faults);
      && t.maps == s.maps
      && Execute(t, MkLcMap(source, v.name, autodelete))
         == (With(s, v, if Answers(t, 0) then [NewMap(s, source, v.name, "").(autodelete := autodelete)] else [],
                  Spend(t).faults), Answers(t, 0))
  {
    var t := With(s, v, [], faults);
    FreeOfName(s, v.name);
    MoreVdisks(s.vdisks, [v]);
    assert v in t.vdisks && t.maps == s.maps;
  }

  lemma {:induction false} MapStarted(s: State, v: Vdisk, m: LcMap, faults: seq<bool>)
    requires m.id == NextMapId(s.maps)
    ensures var t := With(s, v, [m], faults);
      var started := if Answers(t, 0) then m.(startTime := s.now) else m;
      Execute(t, StartLcMap(m.id)) == (With(s, v, [started], Spend(t).faults), Answers(t, 0))
  {
    var t := With(s, v, [m], faults);
    assert m in t.maps;
    assert Start(t.maps, m.id, s.now) == s.maps + [m.(startTime := s.now)];
  }

  lemma {:induction false} OnlyMapTo(s: State, name: string, m: LcMap)
    requires Sound(s) && !Exists(s.vdisks, name) && m.target == name
    ensures MapsTo(s.maps + [m], name) == [m]
  {
    FreeOfName(s, name);
    FilterAppend(s.maps, [m], (n: LcMap) => n.target == name);
    assert MapsTo([m], name) == [m] + MapsTo([], name);
  }

  /** The answer, counted from the creation of the map, that the clean-up's rmvdisk gets. */
  function Removal(s: State, from: nat): nat {
    if !Answers(s, from) then from + 1 else if !Answers(s, from + 1) then from + 3 else from + 5
  }

  lemma {:induction false} MapSnapshotOutcome(s: State, v: Vdisk, source: string, faults: seq<bool>)
    requires Sound(s) && !Exists(s.vdisks, v.name) && Exists(s.vdisks, source)
    ensures var t := With(s, v, [], faults);
      var (after, r) := MapSnapshot(t, source, v.name);
      if Answers(t, 0) && Answers(t, 1) && Answers(t, 2) then
        && r == Reply(true, Some(StdTime(s.now)), None)
        && after == With(s, v, [NewMap(s, source, v.name, s.now)], after.faults)
      else
        && r == Failed(ArrayFailure)
        && (if Answers(t, Removal(t, 0)) then SameTables(after, s)
            else Left(s, v, after))
  {
    hide Execute, Sound, Exists, CleanUp, StdTime, MapsTo;
    var t, name := With(s, v, [], faults), v.name;
    MapMade(s, v, source, false, faults);
    var (t1, made) := Execute(t, MkLcMap(source, name, false));
    AnswersFrom(t, t1);
    var m := NewMap(s, source, name, "");
    if !made {
      CleanUpUndoes(s, v, false, m, false, t1.faults);
    } else {
      MapStarted(s, v, m, t1.faults);
      var (t2, started) := Execute(t1, StartLcMap(m.id));
      AnswersFrom(t1, t2);
      if !started {
        CleanUpUndoes(s, v, true, m, false, t2.faults);
      } else {
        var n := m.(startTime := s.now);
        AnswersFrom(t2, Spend(t2));
        if !Up(t2) { CleanUpUndoes(s, v, true, n, true, Spend(t2).faults); }
        OnlyMapTo(s, name, n);
      }
    }
  }

  lemma {:induction false} AnswersFrom(s: State, t: State)
    requires t.faults == Spend(s).faults
    ensures Up(s) <==> Answers(s, 0)
    ensures forall i: nat :: Answers(t, i) <==> Answers(s, i + 1)
  {
    forall i: nat ensures Answers(t, i) <==> Answers(s, i + 1) { OneAnswerLess(s, t, i); }
  }

  /* ---- the whole call ---- */

  /** There is already a map onto `name` and the first listed comes from `source`. */
  predicate Known(s: State, source: string, name: string) {
    MapsTo(s.maps, name) != [] && MapsTo(s.maps, name)[0].source == source
  }

  /** A new snapshot can be made: the source is a volume of one vdisk and the name is free. */
  predicate Snapshottable(s: State, source: string, name: string) {
    |VolumeRows(s, source)| == 1 && Exists(s.vdisks, source) && NameFree(s, name)
  }

  /** The snapshot's vdisk: like its source, with the size floored to GiB. */
  function SnapVdisk(s: State, source: string, name: string): Vdisk
    requires Exists(s.vdisks, source)
  {
    var v := FindVdisk(s.vdisks, source).value;
    Vdisk(NextVdiskId(s.vdisks), name, name, v.pool, v.iogrp, v.size / GIB * GIB)
  }

  predicate AllAnswer(s: State, from: nat, to: nat) { forall i | from <= i < to :: Answers(s, i) }

  lemma {:induction false} SnapshotCreated(s: State, source: string, name: string)
    requires Exists(s.vdisks, source)
    ensures var v := FindVdisk(s.vdisks, source).value;
      var (t, r) := CreateVolume(s, name, ParseStrSize(Decimal(v.size)), SnapshotOptions(v));
      if Answers(s, 0) && NameFree(s, name) then
        r.Ok? && t == With(s, SnapVdisk(s, source, name), [], Spend(s).faults)
      else r == Err(ArrayFailure) && SameTables(t, s)
  {
    ParsesBytes(FindVdisk(s.vdisks, source).value.size);
    assert s.maps + [] == s.maps;
    hide ParseStrSize, Decimal;
  }

  /** What CreateSnapshot does under a name it does not know. It succeeds exactly when a snapshot can be
      made and its seven commands and queries get through, and then has added one vdisk and one started
      map. When it fails, everything is as before, except when the vdisk had been created and the
      clean-up's last command fails too. */
  lemma {:induction false} SnapshotOutcome(s: State, source: string, name: string)
    requires Sound(s) && !Known(s, source, name)
    ensures var (t, r) := CreateSnapshot(s, source, name);
      if Snapshottable(s, source, name) && AllAnswer(s, 0, 7) then
        && r == Reply(true, Some(StdTime(s.now)), None)
        && t == With(s, SnapVdisk(s, source, name), [NewMap(s, source, name, s.now)], t.faults)
      else
        && r.error.Some? && !r.ready
        && (if Snapshottable(s, source, name) && AllAnswer(s, 0, 4) && !Answers(s, Removal(s, 4)) then
              Left(s, SnapVdisk(s, source, name), t)
            else SameTables(t, s))
  {
    hide Sound, CreateVolume, MapSnapshot, VolumeRows, MapsTo, Removal, SnapVdisk, NewMap;
    hide StdTime, FindVdisk, ParseStrSize, Decimal;
    var s1, s2 := Spend(s), Spend(Spend(s));
    var s3 := Spend(s2);
    AnswersFrom(s, s1);
    AnswersFrom(s1, s2);
    AnswersFrom(s2, s3);
    SameTablesSameRows(s, s2, source);
    assert Up(s) ==> CreateSnapshot(s, source, name) == NewSnapshot(s1, source, name);
    if Exists(s.vdisks, source) {
      AboutToCreate(s, s3, source, name);
      assert FindVdisk(s3.vdisks, source).Some?;
      if Up(s) && Up(s1) && |VolumeRows(s2, source)| == 1 && Up(s2) {
        var v := FindVdisk(s3.vdisks, source).value;
        var (t0, created) := CreateVolume(s3, name, ParseStrSize(Decimal(v.size)), SnapshotOptions(v));
        assert NewSnapshot(s1, source, name)
          == if created.Err? then (t0, Failed(created.error)) else MapSnapshot(t0, source, name);
      } else {
        assert Up(s) ==> NewSnapshot(s1, source, name).1.error.Some?;
        assert Up(s) ==> SameTables(NewSnapshot(s1, source, name).0, s);
      }
    }
  }

  lemma {:induction false} AboutToCreate(s: State, s3: State, source: string, name: string)
    requires Sound(s) && Exists(s.vdisks, source) && s3 == s.(faults := s3.faults)
    requires forall i: nat :: Answers(s3, i) <==> Answers(s, i + 3)
    ensures var v := FindVdisk(s3.vdisks, source).value;
      var (t0, created) := CreateVolume(s3, name, ParseStrSize(Decimal(v.size)), SnapshotOptions(v));
      var (t, r) := MapSnapshot(t0, source, name);
      && (created.Ok? <==> NameFree(s, name) && Answers(s, 3))
      && (created.Err? ==> SameTables(t0, s) && created.error == ArrayFailure)
      && (created.Ok? ==>
            if AllAnswer(s, 4, 7) then
              && r == Reply(true, Some(StdTime(s.now)), None)
              && t == With(s, SnapVdisk(s, source, name), [NewMap(s, source, name, s.now)], t.faults)
            else
              && r == Failed(ArrayFailure)
              && (if Answers(s, Removal(s, 4)) then SameTables(t, s)
                  else Left(s, SnapVdisk(s, source, name), t)))
  {
    hide CreateVolume, MapSnapshot, StdTime, ParseStrSize, Decimal, FindVdisk, Answers, Exists, Sound;
    SnapshotCreated(s3, source, name);
    assert SnapVdisk(s3, source, name) == SnapVdisk(s, source, name);
    if NameFree(s, name) && Answers(s, 3) {
      var v := SnapVdisk(s, source, name);
      var t0 := With(s, v, [], Spend(s3).faults);
      assert t0 == With(s3, v, [], Spend(s3).faults);
      AnswersFrom(s3, t0);
      MapSnapshotOutcome(s, v, source, Spend(s3).faults);
      assert Removal(s, 4) == Removal(t0, 0) + 4;
    }
  }

  /* ---- what follows ---- */

  /** The time of a snapshot is its start time's six pairs of digits, in their order, the year completed. */
  lemma {:induction false} TimeReadsBack(t: string)
    requires |t| == 12
    ensures var u := StdTime(t);
      && |u| == 19 && u[..2] == "20"
      && u[2..4] + u[5..7] + u[8..10] + u[11..13] + u[14..16] + u[17..19] == t
      && u[4] == u[7] == '-' && u[10] == ' ' && u[13] == u[16] == ':'
  {
    assert t == t[0..2] + t[2..4] + t[4..6] + t[6..8] + t[8..10] + t[10..12];
  }

  /** Under at most one failure, CreateSnapshot is all or nothing. */
  predicate AtMostOneFault(s: State) {
    forall i, j | 0 <= i < j < |s.faults| :: s.faults[i] || s.faults[j]
  }

  lemma {:induction false} AllOrNothing(s: State, source: string, name: string)
    requires Sound(s) && !Known(s, source, name) && AtMostOneFault(s)
    ensures var (t, r) := CreateSnapshot(s, source, name);
      if r.error.Some? then SameTables(t, s) && !r.ready
      else
        && Exists(s.vdisks, source)
        && t == With(s, SnapVdisk(s, source, name), [NewMap(s, source, name, s.now)], t.faults)
        && r == Reply(true, Some(StdTime(s.now)), None)
  {
    hide Sound, CreateSnapshot, SameTables, With, StdTime, SnapVdisk, NewMap;
    SnapshotOutcome(s, source, name);
  }

  /** A known snapshot is reported, and started when it was not; nothing is made or removed. */
  lemma {:induction false} KnownOutcome(s: State, source: string, name: string)
    requires Known(s, source, name)
    ensures var (t, r) := CreateSnapshot(s, source, name);
      && t.vdisks == s.vdisks && t.relations == s.relations && |t.maps| == |s.maps|
      && (forall i | 0 <= i < |s.maps| :: t.maps[i] == s.maps[i].(startTime := t.maps[i].startTime))
      && (r.ready ==> SameTables(t, s) && r.time.Some? && MapsTo(s.maps, name)[0].startTime != "")
  {
    hide MapsTo, StdTime, NewSnapshot;
  }

  /** A known snapshot whose map has not been started: when the query and the start get through, that map and
      no other now has the array's time as its start time; nothing else changes. */
  lemma {:induction false} KnownIsStarted(s: State, source: string, name: string)
    requires Sound(s) && Known(s, source, name) && MapsTo(s.maps, name)[0].startTime == ""
    ensures var (t, r) := CreateSnapshot(s, source, name);
      var first := MapsTo(s.maps, name)[0];
      && !r.ready && r == (if Answers(s, 0) then Reply(false, Some(StdTime("")), None) else Failed(ArrayFailure))
      && t.vdisks == s.vdisks && t.relations == s.relations && t.now == s.now && |t.maps| == |s.maps|
      && (forall i | 0 <= i < |s.maps| ::
            t.maps[i] == if Answers(s, 0) && Answers(s, 1) && s.maps[i] == first then first.(startTime := s.now)
                         else s.maps[i])
  {
    hide StdTime, NewSnapshot, DistinctVdisks, MapsAttached, RelationsAttached, WholeGib;
    var first := MapsTo(s.maps, name)[0];
    assert first in MapsTo(s.maps, name) && first in s.maps;
    AnswersFrom(s, Spend(s));
    forall i | 0 <= i < |s.maps| ensures s.maps[i].id == first.id <==> s.maps[i] == first {
      var j :| 0 <= j < |s.maps| && s.maps[j] == first;
    }
    hide MapsTo, Answers;
    assert HasMap(s.maps, first.id);
  }

  /** Asked for again, it is then ready with that time, so that retrying leads to a ready snapshot. */
  lemma {:induction false} RetryIsReady(s: State, source: string, name: string, later: string, faults: seq<bool>)
    requires Sound(s) && Known(s, source, name) && MapsTo(s.maps, name)[0].startTime == ""
    requires Answers(s, 0) && Answers(s, 1)
    ensures var u := CreateSnapshot(s, source, name).0.(now := later, faults := faults);
      CreateSnapshot(u, source, name)
      == (Spend(u), if Up(u) then Reply(true, Some(StdTime(s.now)), None) else Failed(ArrayFailure))
  {
    var t, first := CreateSnapshot(s, source, name).0, MapsTo(s.maps, name)[0];
    KnownIsStarted(s, source, name);
    SoundClock(s);
    hide CreateSnapshot, Known, Answers, Sound;
    FirstMapTo(s.maps, t.maps, name);
    hide MapsTo;
    var u := t.(now := later, faults := faults);
    FirstAnswer(u, source, name);
  }

  /** Maps that differ in their start times only are listed in the same order. */
  lemma {:induction false} FirstMapTo(ms: seq<LcMap>, ns: seq<LcMap>, name: string)
    requires |ms| == |ns| && forall i | 0 <= i < |ms| :: ns[i] == ms[i].(startTime := ns[i].startTime)
    ensures |MapsTo(ns, name)| == |MapsTo(ms, name)|
    ensures MapsTo(ms, name) != [] ==>
      exists i | 0 <= i < |ms| :: ms[i] == MapsTo(ms, name)[0] && ns[i] == MapsTo(ns, name)[0]
  {
    if ms != [] {
      FirstMapTo(ms[1..], ns[1..], name);
      if ms[0].target != name && MapsTo(ms, name) != [] {
        var i :| 0 <= i < |ms[1..]| && ms[1..][i] == MapsTo(ms, name)[0] && ns[1..][i] == MapsTo(ns, name)[0];
        assert ms[i + 1] == MapsTo(ms, name)[0] && ns[i + 1] == MapsTo(ns, name)[0];
      }
    }
  }

  lemma {:induction false} FirstAnswer(u: State, source: string, name: string)
    requires Known(u, source, name) && MapsTo(u.maps, name)[0].startTime != ""
    ensures CreateSnapshot(u, source, name)
      == (Spend(u), if Up(u) then Reply(true, Some(StdTime(MapsTo(u.maps, name)[0].startTime)), None)
                    else Failed(ArrayFailure))
  {
    hide MapsTo, StdTime, NewSnapshot;
  }

  /** The branch that finds a foreign map on the new snapshot, removes it and still answers ready, is
      never taken: a ready answer carries a time, whatever fails. */
  lemma {:induction false} ReadyHasTime(s: State, source: string, name: string)
    requires Sound(s)
    ensures var r := CreateSnapshot(s, source, name).1; r.ready ==> r.time.Some? && r.error.None?
  {
    hide Sound, CreateSnapshot;
    if Known(s, source, name) {
      KnownOutcome(s, source, name);
      KnownHasNoError(s, source, name);
    } else {
      SnapshotOutcome(s, source, name);
    }
  }

  lemma {:induction false} KnownHasNoError(s: State, source: string, name: string)
    requires Known(s, source, name)
    ensures var r := CreateSnapshot(s, source, name).1; r.ready ==> r.error.None?
  {
    hide MapsTo, StdTime, NewSnapshot;
  }

  /** Asking again, at any later time, gives the same answer and changes nothing. */
  lemma {:induction false} RepeatChangesNothing(s: State, source: string, name: string, later: string,
                                                faults: seq<bool>)
    requires Sound(s) && !Known(s, source, name) && CreateSnapshot(s, source, name).1.ready
    ensures var (t, r) := CreateSnapshot(s, source, name);
      var u := t.(now := later, faults := faults);
      if Up(u) then CreateSnapshot(u, source, name) == (Spend(u), r)
      else CreateSnapshot(u, source, name) == (Spend(u), Failed(ArrayFailure))
  {
    hide Sound, CreateSnapshot, VolumeRows, StdTime, Answers, Exists, MapsTo;
    SnapshotOutcome(s, source, name);
    SoundClock(s);
    var m := NewMap(s, source, name, s.now);
    OnlyMapTo(s, name, m);
    KnownAnswer(CreateSnapshot(s, source, name).0.(now := later, faults := faults), source, name, m);
  }

  lemma {:induction false} KnownAnswer(u: State, source: string, name: string, m: LcMap)
    requires MapsTo(u.maps, name) == [m] && m.source == source && m.startTime != ""
    ensures CreateSnapshot(u, source, name)
      == (Spend(u), if Up(u) then Reply(true, Some(StdTime(m.startTime)), None) else Failed(ArrayFailure))
  {
    hide MapsTo, StdTime, NewSnapshot;
  }

  /** A vdisk left behind without its map blocks the name: every later CreateSnapshot under it fails,
      from whatever source, and changes nothing. */
  lemma {:induction false} LeftoverBlocks(u: State, source: string, name: string)
    requires Sound(u) && Exists(u.vdisks, name) && MapsTo(u.maps, name) == []
    ensures var (t, r) := CreateSnapshot(u, source, name); r.error.Some? && SameTables(t, u)
  {
    hide Sound, CreateSnapshot, MapsTo, VolumeRows;
    SnapshotOutcome(u, source, name);
  }

  /** Two failures reach that state: mapping the new vdisk, then removing it. */
  lemma {:induction false} LeftoverReached(s: State, source: string, name: string)
    requires Sound(s) && Snapshottable(s, source, name) && s.faults == [true, true, true, true, false, false]
    ensures var (t, r) := CreateSnapshot(s, source, name);
      r.error.Some? && Exists(t.vdisks, name) && MapsTo(t.maps, name) == []
  {
    hide VolumeRows, ParseStrSize, Decimal, Sound;
    FreeOfName(s, name);
    var s3 := Spend(Spend(Spend(s)));
    SameTablesSameRows(s, Spend(Spend(s)), source);
    SnapshotCreated(s3, source, name);
    var v := SnapVdisk(s, source, name);
    assert v in (s.vdisks + [v]);
  }
}
