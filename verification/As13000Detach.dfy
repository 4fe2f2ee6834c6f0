/** What one fault-free DetachVolume makes of the targets, by `pool/volume` or by a bare volume name: nothing
    when nothing answers to the name, the release of one place when one does, and a refusal when a bare
    name fits several. */
module As13000Detach {
  import opened Wrappers
  import opened Text
  import opened TargetArray
  import opened As13000
  import opened As13000Bounds
  import opened As13000Outcome

  /** The name has a pool part, so the driver compares whole mapping names. */
  predicate Qualified(name: string) {
    0 < SlashPosition(name) < |name|
  }

  /** The volume part of a name, which is all of it without a slash. */
  function VolumePart(name: string): string {
    var i := SlashPosition(name);
    if i == |name| then name else name[i + 1..]
  }

  /** The characters that make a name blank are those with the Unicode property White_Space. */
  lemma {:induction false} WhiteSpace(c: char)
    ensures IsSpace(c) <==>
      c as int in {0x09, 0x0A, 0x0B, 0x0C, 0x0D, 0x20, 0x85, 0xA0, 0x1680, 0x2000, 0x2001, 0x2002, 0x2003, 0x2004,
                   0x2005, 0x2006, 0x2007, 0x2008, 0x2009, 0x200A, 0x2028, 0x2029, 0x202F, 0x205F, 0x3000}
  {}

  lemma {:induction false} NameParses(name: string)
    ensures Qualified(name) ==> !Blank(name)
    ensures Blank(name) <==> PoolAndVolume(name).None?
    ensures !Blank(name) ==>
      && PoolAndVolume(name).value.1 == VolumePart(name)
      && (PoolAndVolume(name).value.0 != "" <==> Qualified(name))
  {
    if Qualified(name) {
      var c := name[SlashPosition(name)];
      assert c in name && !IsSpace(c);
    }
  }

  lemma {:induction false} MappingNameQualified(pool: string, volume: string)
    requires '/' !in pool
    ensures VolumePart(MappingName(pool, volume)) == volume
    ensures Qualified(MappingName(pool, volume)) <==> pool != ""
    ensures !Blank(MappingName(pool, volume))
  {
    var name, n := MappingName(pool, volume), |pool|;
    assert name[n] == '/' && name[n] in name && !IsSpace('/');
    assert forall j | 0 <= j < n :: name[j] == pool[j] && pool[j] in pool;
    assert SlashPosition(name) == n;
    assert name[n + 1..] == volume;
  }

  /* ---- what answers to a name ---- */

  /** LUN `a` of the target at `i` answers to `name`: by its whole mapping name when the name is qualified,
      by its volume part when it is bare. */
  predicate AnswersAt(ts: seq<Target>, name: string, i: nat, a: nat) {
    && i < |ts| && a < |ts[i].luns|
    && (if Qualified(name) then ts[i].luns[a].lvm == name else Carries(ts[i].luns[a].lvm, VolumePart(name)))
  }

  ghost predicate Nothing(ts: seq<Target>, name: string) {
    forall i: nat, a: nat :: !AnswersAt(ts, name, i, a)
  }

  /** The place a detach releases: the first that answers to a qualified name, the only one that answers to
      a bare one. */
  ghost predicate Releasable(ts: seq<Target>, name: string, i: nat, a: nat) {
    && AnswersAt(ts, name, i, a)
    && (if Qualified(name) then forall j: nat, b: nat | j < i || (j == i && b < a) :: !AnswersAt(ts, name, j, b)
        else forall j: nat, b: nat | AnswersAt(ts, name, j, b) :: j == i && b == a)
  }

  /** A bare name fits two places. */
  ghost predicate Ambiguous(ts: seq<Target>, name: string) {
    && !Qualified(name)
    && exists i: nat, a: nat, j: nat, b: nat ::
         AnswersAt(ts, name, i, a) && AnswersAt(ts, name, j, b) && (i != j || a != b)
  }

  /* ---- the search by a qualified name ---- */

  lemma {:induction false} FindFirst(s: State, ts: seq<Target>, name: string, pool: string, volume: string, i: nat,
                                     a: nat)
    requires s.faults == [] && Mirrors(s.targets, ts) && Qualified(name) && pool != "" && Releasable(ts, name, i, a)
    ensures FindMappings(s, ts, name, pool, volume, []) == (s, Ok([Place(ts[i].name, ts[i].luns[a])]))
    decreases |ts|
  {
    assert ts[0] in ts && Spend(s) == s;
    assert [] + [Place(ts[i].name, ts[i].luns[a])] == [Place(ts[i].name, ts[i].luns[a])];
    var b := LvmPosition(ts[0].luns, name);
    if i == 0 {
      assert b <= a;
      assert b < a ==> AnswersAt(ts, name, 0, b);
    } else {
      assert b < |ts[0].luns| ==> AnswersAt(ts, name, 0, b);
      var none: seq<Place> := [];
      assert none + none == none;
      assert ts[1..][i - 1] == ts[i];
      forall j: nat, c: nat | j < i - 1 || (j == i - 1 && c < a) ensures !AnswersAt(ts[1..], name, j, c) {
        assert AnswersAt(ts[1..], name, j, c) <==> AnswersAt(ts, name, j + 1, c);
      }
      FindFirst(s, ts[1..], name, pool, volume, i - 1, a);
    }
  }

  lemma {:induction false} FindNone(s: State, ts: seq<Target>, name: string, pool: string, volume: string)
    requires s.faults == [] && Mirrors(s.targets, ts) && Qualified(name) && pool != "" && Nothing(ts, name)
    ensures FindMappings(s, ts, name, pool, volume, []) == (s, Ok([]))
    decreases |ts|
  {
    if ts != [] {
      assert ts[0] in ts && Spend(s) == s;
      var none: seq<Place> := [];
      assert none + none == none;
      var b := LvmPosition(ts[0].luns, name);
      assert !AnswersAt(ts, name, 0, b);
      forall j: nat, c: nat ensures !AnswersAt(ts[1..], name, j, c) {
        assert AnswersAt(ts[1..], name, j, c) <==> AnswersAt(ts, name, j + 1, c);
      }
      FindNone(s, ts[1..], name, pool, volume);
    }
  }

  /* ---- the search by a bare name ---- */

  function AllNamed(ts: seq<Target>, volume: string): seq<Place> {
    if ts == [] then [] else NamedLuns(ts[0].name, ts[0].luns, volume) + AllNamed(ts[1..], volume)
  }

  lemma {:induction false} FindBare(s: State, ts: seq<Target>, name: string, volume: string, found: seq<Place>)
    requires s.faults == [] && Mirrors(s.targets, ts)
    ensures FindMappings(s, ts, name, "", volume, found) == (s, Ok(found + AllNamed(ts, volume)))
    decreases |ts|
  {
    if ts == [] {
      assert found + [] == found;
    } else {
      assert ts[0] in ts && Spend(s) == s;
      var more := NamedLuns(ts[0].name, ts[0].luns, volume);
      FindBare(s, ts[1..], name, volume, found + more);
      assert found + more + AllNamed(ts[1..], volume) == found + (more + AllNamed(ts[1..], volume));
    }
  }

  predicate CarriedIn(luns: seq<Lun>, volume: string) { exists l | l in luns :: Carries(l.lvm, volume) }

  lemma {:induction false} NamedHalves(target: string, x: seq<Lun>, y: seq<Lun>, volume: string)
    ensures NamedLuns(target, x + y, volume) == NamedLuns(target, x, volume) + NamedLuns(target, y, volume)
  {
    if x == [] {
      assert x + y == y;
    } else {
      assert (x + y)[1..] == x[1..] + y;
      NamedHalves(target, x[1..], y, volume);
    }
  }

  lemma {:induction false} NamedSome(target: string, luns: seq<Lun>, volume: string)
    ensures NamedLuns(target, luns, volume) != [] <==> CarriedIn(luns, volume)
  {
    if luns != [] {
      NamedSome(target, luns[1..], volume);
      assert forall l | l in luns :: l == luns[0] || l in luns[1..];
      assert luns[0] in luns && forall l | l in luns[1..] :: l in luns;
    }
  }

  lemma {:induction false} AllHalves(x: seq<Target>, y: seq<Target>, volume: string)
    ensures AllNamed(x + y, volume) == AllNamed(x, volume) + AllNamed(y, volume)
  {
    if x == [] {
      assert x + y == y;
    } else {
      assert (x + y)[1..] == x[1..] + y;
      AllHalves(x[1..], y, volume);
      var named := NamedLuns(x[0].name, x[0].luns, volume);
      assert named + (AllNamed(x[1..], volume) + AllNamed(y, volume))
        == named + AllNamed(x[1..], volume) + AllNamed(y, volume);
    }
  }

  lemma {:induction false} AllSome(ts: seq<Target>, volume: string)
    ensures AllNamed(ts, volume) != [] <==> exists t | t in ts :: CarriedIn(t.luns, volume)
  {
    if ts != [] {
      AllSome(ts[1..], volume);
      NamedSome(ts[0].name, ts[0].luns, volume);
      assert forall t | t in ts :: t == ts[0] || t in ts[1..];
      assert ts[0] in ts && forall t | t in ts[1..] :: t in ts;
    }
  }

  /** Around one target, and around one of its LUNs. */
  lemma {:induction false} NamedAround(ts: seq<Target>, volume: string, i: nat, a: nat)
    requires i < |ts| && a < |ts[i].luns|
    ensures var t, l := ts[i], ts[i].luns[a];
      AllNamed(ts, volume)
      == AllNamed(ts[..i], volume)
         + (NamedLuns(t.name, t.luns[..a], volume)
            + (if Carries(l.lvm, volume) then [Place(t.name, l)] else [])
            + NamedLuns(t.name, t.luns[a + 1..], volume))
         + AllNamed(ts[i + 1..], volume)
  {
    var t, l := ts[i], ts[i].luns[a];
    assert ts == ts[..i] + ts[i..] && ts[i..][1..] == ts[i + 1..];
    AllHalves(ts[..i], ts[i..], volume);
    assert t.luns == t.luns[..a] + t.luns[a..] && t.luns[a..][1..] == t.luns[a + 1..];
    NamedHalves(t.name, t.luns[..a], t.luns[a..], volume);
  }

  lemma {:induction false} BareNothing(ts: seq<Target>, name: string)
    requires !Qualified(name) && Nothing(ts, name)
    ensures AllNamed(ts, VolumePart(name)) == []
  {
    hide Carries, VolumePart;
    AllSome(ts, VolumePart(name));
    forall t | t in ts ensures !CarriedIn(t.luns, VolumePart(name)) {
      var i :| 0 <= i < |ts| && ts[i] == t;
      forall l | l in t.luns ensures !Carries(l.lvm, VolumePart(name)) {
        var a :| 0 <= a < |t.luns| && t.luns[a] == l;
        assert !AnswersAt(ts, name, i, a);
      }
    }
  }

  lemma {:induction false} BareOnly(ts: seq<Target>, name: string, i: nat, a: nat)
    requires !Qualified(name) && Releasable(ts, name, i, a)
    ensures AllNamed(ts, VolumePart(name)) == [Place(ts[i].name, ts[i].luns[a])]
  {
    hide Carries, VolumePart, AllNamed, NamedLuns;
    var volume, t := VolumePart(name), ts[i];
    NamedAround(ts, volume, i, a);
    AllSome(ts[..i], volume);
    AllSome(ts[i + 1..], volume);
    NamedSome(t.name, t.luns[..a], volume);
    NamedSome(t.name, t.luns[a + 1..], volume);
    forall u | u in ts[..i] + ts[i + 1..] ensures !CarriedIn(u.luns, volume) {
      var j :| 0 <= j < |ts| && j != i && ts[j] == u;
      forall l | l in u.luns ensures !Carries(l.lvm, volume) {
        var b :| 0 <= b < |u.luns| && u.luns[b] == l;
        assert !AnswersAt(ts, name, j, b);
      }
    }
    forall l | l in t.luns[..a] + t.luns[a + 1..] ensures !Carries(l.lvm, volume) {
      var b :| 0 <= b < |t.luns| && b != a && t.luns[b] == l;
      assert !AnswersAt(ts, name, i, b);
    }
  }

  lemma {:induction false} BareSeveral(ts: seq<Target>, name: string)
    requires Ambiguous(ts, name)
    ensures |AllNamed(ts, VolumePart(name))| > 1
  {
    hide Carries, VolumePart, AllNamed, NamedLuns;
    var i: nat, a: nat, j: nat, b: nat :|
      AnswersAt(ts, name, i, a) && AnswersAt(ts, name, j, b) && (i != j || a != b);
    var volume, t := VolumePart(name), ts[i];
    NamedAround(ts, volume, i, a);
    if i != j {
      AllSome(ts[..i], volume);
      AllSome(ts[i + 1..], volume);
      assert ts[j].luns[b] in ts[j].luns && CarriedIn(ts[j].luns, volume);
      if j < i { assert ts[..i][j] == ts[j]; } else { assert ts[i + 1..][j - i - 1] == ts[j]; }
    } else {
      NamedSome(t.name, t.luns[..a], volume);
      NamedSome(t.name, t.luns[a + 1..], volume);
      if b < a { assert t.luns[..a][b] == t.luns[b]; } else { assert t.luns[a + 1..][b - a - 1] == t.luns[b]; }
    }
  }

  /* ---- releasing a place ---- */

  lemma {:induction false} UnmapAt(s: State, i: nat, a: nat)
    requires s.faults == [] && DistinctNames(s.targets)
    requires i < |s.targets| && DistinctIds(s.targets[i].luns) && a < |s.targets[i].luns|
    ensures Unmap(s, s.targets[i].name, s.targets[i].luns[a].id)
      == (State(WithoutLun(s.targets, i, a), []), Ok(()))
  {
    var ts := s.targets;
    NamePosition(ts, i);
    IdPosition(ts[i].luns, a);
    var left := ts[i].luns[..a] + ts[i].luns[a + 1..];
    var dropped := DropLun(ts, ts[i].name, ts[i].luns[a].id);
    assert dropped == ts[i := Target(ts[i].name, left)];
    NamePosition(dropped, i);
    assert |left| == |ts[i].luns| - 1;
    if |left| == 0 {
      assert dropped[..i] + dropped[i + 1..] == ts[..i] + ts[i + 1..];
    }
  }

  lemma {:induction false} UnbindAt(s: State, i: nat, a: nat, iqn: string)
    requires s.faults == [] && DistinctNames(s.targets)
    requires i < |s.targets| && DistinctIds(s.targets[i].luns) && a < |s.targets[i].luns|
    ensures var lun := s.targets[i].luns[a];
      Unbind(s, s.targets[i].name, lun.id, iqn)
      == (State(WithPort(s.targets, i, a, UnbindPort(lun.iqnPort, iqn)), []), true)
  {
    NamePosition(s.targets, i);
    IdPosition(s.targets[i].luns, a);
  }

  /** The targets once the LUN at (i, a) is released by `iqn`: unbound if it was bound, and unmapped, with
      its target when it was the last, once that binding or the initial "ALL" is all there was. */
  function Released(ts: seq<Target>, i: nat, a: nat, iqn: string): seq<Target>
    requires i < |ts| && a < |ts[i].luns|
  {
    var port := ts[i].luns[a].iqnPort;
    var parts := Split(port, ',');
    if |parts| == 1 && (iqn in parts || parts[0] == "ALL") then WithoutLun(ts, i, a)
    else if iqn in parts then WithPort(ts, i, a, UnbindPort(port, iqn))
    else ts
  }

  lemma {:induction false} ReleaseAt(s: State, i: nat, a: nat, iqn: string)
    requires s.faults == [] && DistinctNames(s.targets)
    requires i < |s.targets| && DistinctIds(s.targets[i].luns) && a < |s.targets[i].luns|
    ensures Release(s, Place(s.targets[i].name, s.targets[i].luns[a]), iqn)
      == (State(Released(s.targets, i, a, iqn), []), Ok(()))
  {
    hide Split, UnbindPort, Unbind, Unmap, DistinctNames;
    var ts, lun := s.targets, s.targets[i].luns[a];
    var parts := Split(lun.iqnPort, ',');
    assert Spend(s) == s;
    if iqn in parts {
      UnbindAt(s, i, a, iqn);
      if |parts| == 1 {
        var s1 := State(WithPort(ts, i, a, UnbindPort(lun.iqnPort, iqn)), []);
        UnmapUnbound(s, i, a, UnbindPort(lun.iqnPort, iqn));
      }
    } else {
      UnmapAt(s, i, a);
    }
  }

  lemma {:induction false} UnmapUnbound(s: State, i: nat, a: nat, port: string)
    requires s.faults == [] && DistinctNames(s.targets)
    requires i < |s.targets| && DistinctIds(s.targets[i].luns) && a < |s.targets[i].luns|
    ensures Unmap(State(WithPort(s.targets, i, a, port), []), s.targets[i].name, s.targets[i].luns[a].id)
      == (State(WithoutLun(s.targets, i, a), []), Ok(()))
  {
    hide Unmap;
    var ts := WithPort(s.targets, i, a, port);
    assert forall b | 0 <= b < |ts[i].luns| :: ts[i].luns[b].id == s.targets[i].luns[b].id;
    UnmapAt(State(ts, []), i, a);
    assert |ts[i].luns| == |s.targets[i].luns|;
    assert WithoutLun(ts, i, a) == WithoutLun(s.targets, i, a);
  }

  /* ---- detaching by any name ---- */

  /** No mapping answers to the name: detaching by it changes nothing. */
  lemma {:induction false} DetachUnmapped(s: State, name: string, iqn: string)
    requires s.faults == [] && DistinctNames(s.targets) && !Blank(name) && Nothing(s.targets, name)
    ensures Detach(s, name, iqn) == (s, Ok(()))
  {
    hide Blank, Qualified, VolumePart, FindMappings, Nothing, SlashPosition;
    NameParses(name);
    MirrorsItself(s.targets);
    assert Spend(s) == s;
    var (pool, volume) := PoolAndVolume(name).value;
    if Qualified(name) {
      FindNone(s, s.targets, name, pool, volume);
    } else {
      FindBare(s, s.targets, name, volume, []);
      BareNothing(s.targets, name);
    }
  }

  /** One mapping is to be released: by the first qualified match or the only bare one. */
  lemma {:induction false} DetachMapped(s: State, name: string, iqn: string, i: nat, a: nat)
    requires s.faults == [] && DistinctNames(s.targets) && !Blank(name) && Releasable(s.targets, name, i, a)
    requires DistinctIds(s.targets[i].luns)
    ensures Detach(s, name, iqn) == (State(Released(s.targets, i, a, iqn), []), Ok(()))
  {
    hide Blank, Qualified, VolumePart, FindMappings, Release, Released, SlashPosition, DistinctNames, DistinctIds;
    NameParses(name);
    MirrorsItself(s.targets);
    assert Spend(s) == s;
    ReleaseAt(s, i, a, iqn);
    var place := Place(s.targets[i].name, s.targets[i].luns[a]);
    var (pool, volume) := PoolAndVolume(name).value;
    hide Releasable;
    if Qualified(name) {
      FindFirst(s, s.targets, name, pool, volume, i, a);
    } else {
      FindBare(s, s.targets, name, volume, []);
      BareOnly(s.targets, name, i, a);
      assert [] + AllNamed(s.targets, volume) == [place];
    }
  }

  /** A bare name that fits several mappings is refused, and a blank one is an error; both change nothing. */
  lemma {:induction false} DetachRefused(s: State, name: string, iqn: string)
    requires s.faults == [] && DistinctNames(s.targets) && (Blank(name) || Ambiguous(s.targets, name))
    ensures Detach(s, name, iqn) == (s, Err(if Blank(name) then EmptyMappingName else SeveralMappings))
  {
    hide Blank, Qualified, VolumePart, FindMappings, Ambiguous, SlashPosition;
    NameParses(name);
    if !Blank(name) {
      NotQualified(s.targets, name);
      MirrorsItself(s.targets);
      assert Spend(s) == s;
      FindBare(s, s.targets, name, VolumePart(name), []);
      BareSeveral(s.targets, name);
    }
  }

  lemma {:induction false} NotQualified(ts: seq<Target>, name: string)
    requires Ambiguous(ts, name)
    ensures !Qualified(name)
  {}

  /** The four outcomes cover every name. */
  lemma {:induction false} OneOutcome(ts: seq<Target>, name: string)
    requires !Blank(name)
    ensures Nothing(ts, name) || Ambiguous(ts, name) || exists i: nat, a: nat :: Releasable(ts, name, i, a)
  {
    hide Qualified, Carries, VolumePart;
    if !Nothing(ts, name) {
      var i: nat, a: nat :| AnswersAt(ts, name, i, a);
      if Qualified(name) {
        FirstAnswer(ts, name, i, a);
      } else if !Ambiguous(ts, name) {
        assert Releasable(ts, name, i, a);
      }
    }
  }

  lemma {:induction false} FirstAnswer(ts: seq<Target>, name: string, i: nat, a: nat)
    requires Qualified(name) && AnswersAt(ts, name, i, a)
    ensures exists j: nat, b: nat :: Releasable(ts, name, j, b)
    decreases i, a
  {
    hide Qualified, Carries, VolumePart;
    if j: nat, b: nat :| (j < i || (j == i && b < a)) && AnswersAt(ts, name, j, b) {
      FirstAnswer(ts, name, j, b);
    } else {
      assert Releasable(ts, name, i, a);
    }
  }
}
