/** The nine-step script of the active-active extend, step by step. */
module AaScript {
  import opened Wrappers
  import opened Sizes
  import opened VdiskArray
  import opened As18000
  import opened AaExtend

  /* ---- stopping at the first failure ---- */

  /** The effect of commands in order, with nothing failing but what the array refuses. */
  function ApplyAll(s: State, script: seq<Command>): State
    decreases |script|
  {
    if script == [] then s
    else ApplyAll(if Can(s, script[0]) then Apply(s, script[0]) else s, script[1..])
  }

  /** Two states that differ at most in the outcomes still to come. */
  predicate SameTables(s: State, t: State) { s == t.(faults := s.faults) }

  lemma {:induction false} ApplySame(s: State, t: State, c: Command)
    requires SameTables(s, t)
    ensures Can(s, c) <==> Can(t, c)
    ensures Can(s, c) ==> SameTables(Apply(s, c), Apply(t, c))
  {}

  lemma {:induction false} ApplyAllSame(s: State, t: State, script: seq<Command>)
    requires SameTables(s, t)
    ensures SameTables(ApplyAll(s, script), ApplyAll(t, script))
    decreases |script|
  {
    if script != [] {
      hide Can, Apply;
      ApplySame(s, t, script[0]);
      ApplyAllSame(if Can(s, script[0]) then Apply(s, script[0]) else s,
                   if Can(t, script[0]) then Apply(t, script[0]) else t, script[1..]);
    }
  }

  /** A script that stops at its k-th command leaves exactly the first k commands carried out. */
  lemma {:induction false} StopsAtFailure(s: State, script: seq<Command>)
    ensures var (after, done) := RunScript(s, script);
      done <= |script| && SameTables(after, ApplyAll(s, script[..done]))
    decreases |script|
  {
    hide Can, Apply;
    if script != [] {
      var (s1, ok) := Execute(s, script[0]);
      if ok {
        StopsAtFailure(s1, script[1..]);
        var done := RunScript(s1, script[1..]).1;
        assert script[..done + 1][1..] == script[1..][..done];
        ExecuteApplies(s, script[0]);
        ApplyAllSame(s1, Apply(s, script[0]), script[1..][..done]);
      }
    }
  }

  lemma {:induction false} ExecuteApplies(s: State, c: Command)
    ensures var (after, ok) := Execute(s, c);
      && (ok ==> Can(s, c) && SameTables(after, Apply(s, c)))
      && (!ok ==> SameTables(after, s))
  {}

  lemma {:induction false} ApplyOneMore(s: State, script: seq<Command>, c: Command)
    ensures ApplyAll(s, script + [c])
      == var t := ApplyAll(s, script); if Can(t, c) then Apply(t, c) else t
    decreases |script|
  {
    hide Can, Apply;
    if script == [] {
      assert script + [c] == [c] && [c][1..] == [];
    } else {
      assert (script + [c])[1..] == script[1..] + [c];
      ApplyOneMore(if Can(s, script[0]) then Apply(s, script[0]) else s, script[1..], c);
    }
  }

  /* ---- the state after each step ---- */

  lemma {:induction false} HealthyParts(vs: seq<Vdisk>, rs: seq<Relation>, layout: Layout, volume: string)
    requires Healthy(vs, rs, layout) && volume in layout
    ensures DistinctVdisks(vs) && AllFour(vs, volume, layout[volume]) && RelationOf(vs, layout[volume]) in rs
  {}

  function AaScriptOf(s: State, a: AaVolume, addition: nat): seq<Command>
    requires Exists(s.vdisks, a.master) && Exists(s.vdisks, a.aux)
  {
    Script(MemberRow(s, a.master), MemberRow(s, a.aux), a.masterChange, a.auxChange, addition)
  }

  /** The vdisks after k steps: steps 1 to 4 grow the four members in turn. */
  function VdisksAfter(vs: seq<Vdisk>, a: AaVolume, addition: nat, k: nat): seq<Vdisk> {
    if k <= 1 then vs
    else if k == 2 then Grow(vs, a.master, addition)
    else if k == 3 then Grow(VdisksAfter(vs, a, addition, 2), a.aux, addition)
    else if k == 4 then Grow(VdisksAfter(vs, a, addition, 3), a.masterChange, addition)
    else Grow(VdisksAfter(vs, a, addition, 4), a.auxChange, addition)
  }

  /** The relationships after k steps: gone after step 0, back after step 5, complete after step 8. */
  function RelationsAfter(rs: seq<Relation>, r: Relation, k: nat): seq<Relation> {
    if k == 0 then rs
    else if k <= 5 then DropRelation(rs, r.id)
    else DropRelation(rs, r.id)
         + [r.(masterChange := if k >= 8 then r.masterChange else None,
               auxChange := if k >= 9 then r.auxChange else None)]
  }

  lemma {:induction false} VdisksAfterSame(vs: seq<Vdisk>, a: AaVolume, addition: nat, k: nat)
    ensures SameButSizes(vs, VdisksAfter(vs, a, addition, k))
  {
    if k > 2 { VdisksAfterSame(vs, a, addition, if k > 4 then 4 else k - 1); }
  }

  lemma {:induction false} DroppedRelation(rs: seq<Relation>, r: Relation)
    requires r in rs && forall q | q in rs && q.id == r.id :: q == r
    ensures forall q :: q in DropRelation(rs, r.id) <==> q in rs && q != r
  {}

  lemma {:induction false} OtherIdsUntouched(rs: seq<Relation>, r: Relation, change: string)
    requires forall q | q in rs :: q.id != r.id
    ensures WithMasterChange(rs + [r], r.id, change) == rs + [r.(masterChange := Some(change))]
    ensures WithAuxChange(rs + [r], r.id, change) == rs + [r.(auxChange := Some(change))]
  {
    forall i | 0 <= i < |rs| ensures rs[i].id != r.id { assert rs[i] in rs; }
  }

  lemma {:induction false} NoOtherMention(vs: seq<Vdisk>, rs: seq<Relation>, layout: Layout, volume: string,
                                          q: Relation)
    requires Healthy(vs, rs, layout) && volume in layout
    requires q in DropRelation(rs, IdOf(vs, layout[volume].master))
    ensures forall name | name in Members(layout[volume]) :: !Mentions(q, name)
  {
    forall name | name in Members(layout[volume]) && Mentions(q, name) ensures false {
      MentionsMeansOwn(vs, rs, layout, volume, q, name);
    }
  }

  lemma {:induction false} FoundById(rs: seq<Relation>, r: Relation)
    requires r in rs
    ensures FindRelation(rs, r.id).Some?
  {}

  /** The tables are those k steps into the script for `volume` from `s`. */
  ghost predicate AtStep(s: State, volume: string, a: AaVolume, addition: nat, k: nat, t: State) {
    && AllFour(s.vdisks, volume, a)
    && t.vdisks == VdisksAfter(s.vdisks, a, addition, k)
    && t.relations == RelationsAfter(s.relations, RelationOf(s.vdisks, a), k)
  }

  ghost predicate Steps(s: State, volume: string, a: AaVolume, addition: nat, k: nat, t: State, c: Command) {
    Can(t, c) && AtStep(s, volume, a, addition, k + 1, Apply(t, c))
  }

  lemma {:induction false} StepRemove(s: State, volume: string, a: AaVolume, addition: nat, t: State)
    requires AtStep(s, volume, a, addition, 0, t) && RelationOf(s.vdisks, a) in s.relations
    ensures Steps(s, volume, a, addition, 0, t, RmRelation(IdOf(s.vdisks, a.master)))
  {
    hide DropLinks;
    FoundById(s.relations, RelationOf(s.vdisks, a));
  }

  lemma {:induction false} StepGrow(s: State, volume: string, a: AaVolume, addition: nat, k: nat, t: State)
    requires AtStep(s, volume, a, addition, k, t) && 1 <= k <= 4
    ensures var name := [a.master, a.aux, a.masterChange, a.auxChange][k - 1];
      Steps(s, volume, a, addition, k, t, ExpandVdisk(name, addition))
  {
    hide Grow, RelationOf, DropRelation;
    VdisksAfterSame(s.vdisks, a, addition, k);
    SameButSizesFour(s.vdisks, t.vdisks, volume, a);
  }

  lemma {:induction false} StepMake(s: State, layout: Layout, volume: string, addition: nat, t: State)
    requires Healthy(s.vdisks, s.relations, layout) && volume in layout
    requires AtStep(s, volume, layout[volume], addition, 5, t)
    ensures Steps(s, volume, layout[volume], addition, 5, t, MkRelation(layout[volume].master, layout[volume].aux))
  {
    hide Grow, VdisksAfter, Mentions, Healthy, DropRelation;
    var a := layout[volume];
    VdisksAfterSame(s.vdisks, a, addition, 5);
    SameButSizesFour(s.vdisks, t.vdisks, volume, a);
    forall q | q in t.relations ensures !Mentions(q, a.master) && !Mentions(q, a.aux) {
      NoOtherMention(s.vdisks, s.relations, layout, volume, q);
    }
    VdisksAtRest(s.vdisks, a, addition, 6);
  }

  lemma {:induction false} VdisksAtRest(vs: seq<Vdisk>, a: AaVolume, addition: nat, k: nat)
    requires k >= 5
    ensures VdisksAfter(vs, a, addition, k) == VdisksAfter(vs, a, addition, 5)
  {}

  lemma {:induction false} StepAccess(s: State, volume: string, a: AaVolume, addition: nat, t: State, iogrp: string)
    requires AtStep(s, volume, a, addition, 6, t)
    ensures Steps(s, volume, a, addition, 6, t, AddVdiskAccess(iogrp, a.master))
  {
    hide VdisksAfter, RelationOf, DropRelation;
    VdisksAfterSame(s.vdisks, a, addition, 6);
    SameButSizesFour(s.vdisks, t.vdisks, volume, a);
    VdisksAtRest(s.vdisks, a, addition, 6);
    VdisksAtRest(s.vdisks, a, addition, 7);
  }

  lemma {:induction false} StepMasterChange(s: State, volume: string, a: AaVolume, addition: nat, t: State)
    requires AtStep(s, volume, a, addition, 7, t)
    ensures Steps(s, volume, a, addition, 7, t, ChMasterChange(a.masterChange, IdOf(s.vdisks, a.master)))
  {
    hide VdisksAfter, DropRelation, AddLink;
    VdisksAfterSame(s.vdisks, a, addition, 7);
    SameButSizesFour(s.vdisks, t.vdisks, volume, a);
    VdisksAtRest(s.vdisks, a, addition, 7);
    VdisksAtRest(s.vdisks, a, addition, 8);
    var r := RelationOf(s.vdisks, a);
    var bare := r.(masterChange := None, auxChange := None);
    FoundById(t.relations, bare);
    DroppedIds(s.relations, r.id);
    OtherIdsUntouched(DropRelation(s.relations, r.id), bare, a.masterChange);
  }

  lemma {:induction false} StepAuxChange(s: State, volume: string, a: AaVolume, addition: nat, t: State)
    requires AtStep(s, volume, a, addition, 8, t)
    ensures Steps(s, volume, a, addition, 8, t, ChAuxChange(a.auxChange, IdOf(s.vdisks, a.master)))
  {
    hide VdisksAfter, DropRelation, AddLink;
    VdisksAfterSame(s.vdisks, a, addition, 8);
    SameButSizesFour(s.vdisks, t.vdisks, volume, a);
    VdisksAtRest(s.vdisks, a, addition, 8);
    VdisksAtRest(s.vdisks, a, addition, 9);
    var r := RelationOf(s.vdisks, a);
    var half := r.(auxChange := None);
    FoundById(t.relations, half);
    DroppedIds(s.relations, r.id);
    OtherIdsUntouched(DropRelation(s.relations, r.id), half, a.auxChange);
  }

  lemma {:induction false} DroppedIds(rs: seq<Relation>, id: nat)
    ensures forall q | q in DropRelation(rs, id) :: q.id != id
  {}

  /** One step of the script on the tables it meets. */
  lemma {:induction false} StepTables(s: State, layout: Layout, volume: string, addition: nat, k: nat, t: State)
    requires Healthy(s.vdisks, s.relations, layout) && volume in layout && k < 9
    requires AtStep(s, volume, layout[volume], addition, k, t)
    ensures Steps(s, volume, layout[volume], addition, k, t, AaScriptOf(s, layout[volume], addition)[k])
  {
    hide AtStep, Steps, Healthy, MemberRow;
    var a := layout[volume];
    HealthyParts(s.vdisks, s.relations, layout, volume);
    NameOfMember(s, a.master);
    NameOfMember(s, a.aux);
    match k {
      case 0 => StepRemove(s, volume, a, addition, t);
      case 5 => StepMake(s, layout, volume, addition, t);
      case 6 => StepAccess(s, volume, a, addition, t, MemberRow(s, a.aux).iogrp);
      case 7 => StepMasterChange(s, volume, a, addition, t);
      case 8 => StepAuxChange(s, volume, a, addition, t);
      case _ => StepGrow(s, volume, a, addition, k, t);
    }
  }

  lemma {:induction false} TablesAfter(s: State, layout: Layout, volume: string, addition: nat, k: nat)
    requires Healthy(s.vdisks, s.relations, layout) && volume in layout && k <= 9
    requires AllFour(s.vdisks, volume, layout[volume])
    ensures AtStep(s, volume, layout[volume], addition, k,
                   ApplyAll(s, AaScriptOf(s, layout[volume], addition)[..k]))
  {
    hide Can, Apply, Healthy, VdisksAfter, RelationsAfter, AllFour;
    HealthyParts(s.vdisks, s.relations, layout, volume);
    var script := AaScriptOf(s, layout[volume], addition);
    if k == 0 {
      assert script[..0] == [];
      TablesBefore(s, layout[volume], addition);
    } else {
      TablesAfter(s, layout, volume, addition, k - 1);
      var t := ApplyAll(s, script[..k - 1]);
      assert script[..k] == script[..k - 1] + [script[k - 1]];
      ApplyOneMore(s, script[..k - 1], script[k - 1]);
      StepTables(s, layout, volume, addition, k - 1, t);
    }
  }

  lemma {:induction false} TablesBefore(s: State, a: AaVolume, addition: nat)
    requires Exists(s.vdisks, a.master)
    ensures VdisksAfter(s.vdisks, a, addition, 0) == s.vdisks
    ensures RelationsAfter(s.relations, RelationOf(s.vdisks, a), 0) == s.relations
  {}

  /* ---- the step invariant ---- */

  /** Related vdisks exist and have equal size. */
  ghost predicate EqualPairs(vs: seq<Vdisk>, rs: seq<Relation>) {
    forall r | r in rs :: Exists(vs, r.master) && Exists(vs, r.aux) && SizeOf(vs, r.master) == SizeOf(vs, r.aux)
  }

  /** Sizes after k steps: each of the four has grown once its step is done; no other vdisk changes. */
  lemma {:induction false} SizesAfter(vs: seq<Vdisk>, volume: string, a: AaVolume, addition: nat, k: nat, name: string)
    requires AllFour(vs, volume, a) && Exists(vs, name)
    ensures Exists(VdisksAfter(vs, a, addition, k), name)
    ensures SizeOf(VdisksAfter(vs, a, addition, k), name)
      == SizeOf(vs, name) + if (name == a.master && k >= 2) || (name == a.aux && k >= 3)
                               || (name == a.masterChange && k >= 4) || (name == a.auxChange && k >= 5)
                            then addition * GIB else 0
  {
    hide Grow;
    GrowFound(vs, a.master, addition, name);
    GrowFound(VdisksAfter(vs, a, addition, 2), a.aux, addition, name);
    GrowFound(VdisksAfter(vs, a, addition, 3), a.masterChange, addition, name);
    GrowFound(VdisksAfter(vs, a, addition, 4), a.auxChange, addition, name);
  }

  lemma {:induction false} PairAfter(vs: seq<Vdisk>, rs: seq<Relation>, layout: Layout, volume: string, addition: nat,
                                     k: nat, q: Relation)
    requires Healthy(vs, rs, layout) && EqualPairs(vs, rs) && volume in layout
    requires AllFour(vs, volume, layout[volume])
    requires q in RelationsAfter(rs, RelationOf(vs, layout[volume]), k) && k <= 9
    ensures var ws := VdisksAfter(vs, layout[volume], addition, k);
      Exists(ws, q.master) && Exists(ws, q.aux) && SizeOf(ws, q.master) == SizeOf(ws, q.aux)
  {
    hide VdisksAfter, Healthy, Mentions, SizeOf;
    var a := layout[volume];
    var r := RelationOf(vs, a);
    HealthyParts(vs, rs, layout, volume);
    if k == 0 || q in DropRelation(rs, r.id) {
      assert q in rs;
      SizesAfter(vs, volume, a, addition, k, q.master);
      SizesAfter(vs, volume, a, addition, k, q.aux);
      if k != 0 { UninvolvedPair(vs, rs, layout, volume, q); }
    } else {
      assert q.master == a.master && q.aux == a.aux;
      assert r in rs;
      SizesAfter(vs, volume, a, addition, k, a.master);
      SizesAfter(vs, volume, a, addition, k, a.aux);
    }
  }

  lemma {:induction false} UninvolvedPair(vs: seq<Vdisk>, rs: seq<Relation>, layout: Layout, volume: string,
                                          q: Relation)
    requires Healthy(vs, rs, layout) && volume in layout && AllFour(vs, volume, layout[volume])
    requires q in DropRelation(rs, RelationOf(vs, layout[volume]).id)
    ensures q.master !in Members(layout[volume]) && q.aux !in Members(layout[volume])
  {
    NoOtherMention(vs, rs, layout, volume, q);
  }

  /** At every intermediate state of the script, so at every point it can fail: related vdisks have
      equal size, and a vdisk about to be expanded is in no relationship. */
  lemma {:induction false} StepInvariant(s: State, layout: Layout, volume: string, addition: nat, k: nat)
    requires Healthy(s.vdisks, s.relations, layout) && EqualPairs(s.vdisks, s.relations)
    requires volume in layout && k <= 9
    ensures AllFour(s.vdisks, volume, layout[volume])
    ensures var script := AaScriptOf(s, layout[volume], addition);
      var t := ApplyAll(s, script[..k]);
      && EqualPairs(t.vdisks, t.relations)
      && (k < 9 && script[k].ExpandVdisk? ==> !Related(t.relations, script[k].name))
  {
    hide VdisksAfter, ApplyAll, Healthy, AllFour, Mentions, MemberRow;
    HealthyParts(s.vdisks, s.relations, layout, volume);
    TablesAfter(s, layout, volume, addition, k);
    var vs, rs, a := s.vdisks, s.relations, layout[volume];
    forall q | q in RelationsAfter(rs, RelationOf(vs, a), k)
      ensures Exists(VdisksAfter(vs, a, addition, k), q.master) && Exists(VdisksAfter(vs, a, addition, k), q.aux)
        && SizeOf(VdisksAfter(vs, a, addition, k), q.master) == SizeOf(VdisksAfter(vs, a, addition, k), q.aux)
    {
      PairAfter(vs, rs, layout, volume, addition, k, q);
    }
    if 1 <= k <= 4 {
      NameOfMember(s, a.master);
      NameOfMember(s, a.aux);
      forall q | q in DropRelation(rs, IdOf(vs, a.master))
        ensures forall name | name in Members(a) :: !Mentions(q, name)
      {
        NoOtherMention(vs, rs, layout, volume, q);
      }
    }
  }

  /** The completed script restores health: the relationship is back, with both change volumes, and
      the four members have grown by the same amount. */
  lemma {:induction false} ScriptRestores(s: State, layout: Layout, volume: string, addition: nat)
    requires Healthy(s.vdisks, s.relations, layout) && volume in layout
    ensures AllFour(s.vdisks, volume, layout[volume])
    ensures var a := layout[volume];
      var t := ApplyAll(s, AaScriptOf(s, a, addition));
      && Healthy(t.vdisks, t.relations, layout)
      && t.vdisks == VdisksAfter(s.vdisks, a, addition, 9)
  {
    hide Healthy, VdisksAfter, ApplyAll, DistinctVdisks, AllFour, MemberRow, DropRelation;
    HealthyParts(s.vdisks, s.relations, layout, volume);
    var a, script := layout[volume], AaScriptOf(s, layout[volume], addition);
    TablesAfter(s, layout, volume, addition, 9);
    assert script[..9] == script;
    var r := RelationOf(s.vdisks, a);
    forall q | q in s.relations && q.id == r.id ensures q == r {
      SameIdMeansOwn(s.vdisks, s.relations, layout, volume, q);
    }
    DroppedRelation(s.relations, r);
    VdisksAfterSame(s.vdisks, a, addition, 9);
    assert forall q :: q in RelationsAfter(s.relations, r, 9) <==> q in DropRelation(s.relations, r.id) || q == r;
    HealthySurvives(s.vdisks, s.relations, VdisksAfter(s.vdisks, a, addition, 9),
                    RelationsAfter(s.relations, r, 9), layout);
  }
}
