/** The active-active extend transaction: its nine-step script, step by step, and every run of
    extends in which any command may fail. */
module AaExtend {
  import opened Wrappers
  import opened Text
  import opened Sizes
  import opened VdiskArray
  import opened As18000

  /* ---- healthy active-active volumes ---- */

  /** The four vdisks of an active-active volume. */
  datatype AaVolume = AaVolume(master: string, aux: string, masterChange: string, auxChange: string)

  type Layout = map<string, AaVolume>

  function Members(a: AaVolume): set<string> { {a.master, a.aux, a.masterChange, a.auxChange} }

  predicate DistinctVdisks(vs: seq<Vdisk>) {
    forall i, j | 0 <= i < j < |vs| :: vs[i].name != vs[j].name && vs[i].id != vs[j].id
  }

  predicate AllFour(vs: seq<Vdisk>, volume: string, a: AaVolume) {
    && a.master != a.aux && a.master != a.masterChange && a.master != a.auxChange
    && a.aux != a.masterChange && a.aux != a.auxChange && a.masterChange != a.auxChange
    && Exists(vs, a.master) && Exists(vs, a.aux) && Exists(vs, a.masterChange) && Exists(vs, a.auxChange)
    && (forall v | v in vs :: v.name in Members(a) <==> v.volume == volume)
  }

  function IdOf(vs: seq<Vdisk>, name: string): nat
    requires Exists(vs, name)
  {
    FindVdisk(vs, name).value.id
  }

  function SizeOf(vs: seq<Vdisk>, name: string): nat
    requires Exists(vs, name)
  {
    FindVdisk(vs, name).value.size
  }

  /** The relationship of `a`, with both change volumes attached. */
  function RelationOf(vs: seq<Vdisk>, a: AaVolume): Relation
    requires Exists(vs, a.master)
  {
    Relation(IdOf(vs, a.master), a.master, a.aux, Some(a.masterChange), Some(a.auxChange))
  }

  ghost predicate IsRelationOf(vs: seq<Vdisk>, layout: Layout, r: Relation) {
    exists volume | volume in layout ::
      AllFour(vs, volume, layout[volume]) && r == RelationOf(vs, layout[volume])
  }

  /** Every active-active volume has its four vdisks and its complete relationship, and there are no
      other relationships. */
  ghost predicate Healthy(vs: seq<Vdisk>, rs: seq<Relation>, layout: Layout) {
    && DistinctVdisks(vs)
    && (forall volume | volume in layout :: AllFour(vs, volume, layout[volume]))
    && (forall volume | volume in layout :: RelationOf(vs, layout[volume]) in rs)
    && (forall r | r in rs :: IsRelationOf(vs, layout, r))
  }

  lemma {:induction false} FoundVdisk(vs: seq<Vdisk>, v: Vdisk)
    requires DistinctVdisks(vs) && v in vs
    ensures FindVdisk(vs, v.name) == Some(v)
  {
    var i :| 0 <= i < |vs| && vs[i] == v;
    assert VdiskPosition(vs, v.name, 0) == i;
  }

  lemma {:induction false} SameVdisk(vs: seq<Vdisk>, v: Vdisk, w: Vdisk)
    requires DistinctVdisks(vs) && v in vs && w in vs && (v.name == w.name || v.id == w.id)
    ensures v == w
  {
    var i :| 0 <= i < |vs| && vs[i] == v;
    var j :| 0 <= j < |vs| && vs[j] == w;
  }

  lemma {:induction false} MemberVolume(vs: seq<Vdisk>, layout: Layout, volume: string, name: string)
    requires volume in layout && AllFour(vs, volume, layout[volume]) && name in Members(layout[volume])
    ensures Exists(vs, name) && FindVdisk(vs, name).value.volume == volume
  {}

  /** A relationship that mentions a member of one volume is that volume's. */
  lemma {:induction false} MentionsMeansOwn(vs: seq<Vdisk>, rs: seq<Relation>, layout: Layout, volume: string,
                                            r: Relation, name: string)
    requires Healthy(vs, rs, layout) && volume in layout && r in rs
    requires name in Members(layout[volume]) && Mentions(r, name)
    ensures r == RelationOf(vs, layout[volume])
  {
    assert IsRelationOf(vs, layout, r);
    var other :| other in layout && r == RelationOf(vs, layout[other]);
    MemberVolume(vs, layout, volume, name);
    MemberVolume(vs, layout, other, name);
  }

  lemma {:induction false} SameIdMeansOwn(vs: seq<Vdisk>, rs: seq<Relation>, layout: Layout, volume: string,
                                          r: Relation)
    requires Healthy(vs, rs, layout) && volume in layout && r in rs
    requires r.id == IdOf(vs, layout[volume].master)
    ensures r == RelationOf(vs, layout[volume])
  {
    assert IsRelationOf(vs, layout, r);
    var other :| other in layout && r == RelationOf(vs, layout[other]);
    var v, w := FindVdisk(vs, layout[volume].master).value, FindVdisk(vs, layout[other].master).value;
    SameVdisk(vs, v, w);
    MemberVolume(vs, layout, volume, layout[volume].master);
    MemberVolume(vs, layout, other, layout[other].master);
  }

  /* ---- growing vdisks ---- */

  lemma {:induction false} GrowPosition(vs: seq<Vdisk>, grown: string, gib: nat, name: string, k: nat)
    requires k <= |vs|
    ensures VdiskPosition(Grow(vs, grown, gib), name, k) == VdiskPosition(vs, name, k)
    decreases |vs| - k
  {
    if k < |vs| { GrowPosition(vs, grown, gib, name, k + 1); }
  }

  /** Growing one vdisk changes its size and nothing else. */
  lemma {:induction false} GrowFound(vs: seq<Vdisk>, grown: string, gib: nat, name: string)
    ensures Exists(Grow(vs, grown, gib), name) <==> Exists(vs, name)
    ensures Exists(vs, name) ==>
      var v := FindVdisk(vs, name).value;
      FindVdisk(Grow(vs, grown, gib), name)
      == Some(if name == grown then v.(size := v.size + gib * GIB) else v)
  {
    GrowPosition(vs, grown, gib, name, 0);
    var after := Grow(vs, grown, gib);
    assert FindVdisk(after, name).Some? <==> VdiskPosition(vs, name, 0) < |vs|;
    assert FindVdisk(vs, name).Some? <==> VdiskPosition(vs, name, 0) < |vs|;
  }

  /** The same vdisks up to their sizes. */
  predicate SameButSizes(vs: seq<Vdisk>, ws: seq<Vdisk>) {
    |vs| == |ws| && forall i | 0 <= i < |vs| :: ws[i] == vs[i].(size := ws[i].size)
  }

  lemma {:induction false} SameButSizesPosition(vs: seq<Vdisk>, ws: seq<Vdisk>, name: string, k: nat)
    requires SameButSizes(vs, ws) && k <= |vs|
    ensures VdiskPosition(ws, name, k) == VdiskPosition(vs, name, k)
    decreases |vs| - k
  {
    if k < |vs| {
      assert ws[k].name == vs[k].name;
      SameButSizesPosition(vs, ws, name, k + 1);
    }
  }

  lemma {:induction false} SameButSizesFound(vs: seq<Vdisk>, ws: seq<Vdisk>, name: string)
    requires SameButSizes(vs, ws)
    ensures Exists(ws, name) <==> Exists(vs, name)
    ensures Exists(vs, name) ==> IdOf(ws, name) == IdOf(vs, name)
  {
    SameButSizesPosition(vs, ws, name, 0);
    assert FindVdisk(ws, name).Some? <==> VdiskPosition(vs, name, 0) < |vs|;
    assert FindVdisk(vs, name).Some? <==> VdiskPosition(vs, name, 0) < |vs|;
  }

  lemma {:induction false} SameButSizesFour(vs: seq<Vdisk>, ws: seq<Vdisk>, volume: string, a: AaVolume)
    requires SameButSizes(vs, ws) && AllFour(vs, volume, a)
    ensures AllFour(ws, volume, a) && RelationOf(ws, a) == RelationOf(vs, a)
  {
    forall name | name in Members(a) ensures Exists(ws, name) { SameButSizesFound(vs, ws, name); }
    SameButSizesFound(vs, ws, a.master);
    forall w | w in ws ensures w.name in Members(a) <==> w.volume == volume {
      var i :| 0 <= i < |ws| && ws[i] == w;
      assert vs[i] in vs && w == vs[i].(size := w.size);
    }
  }

  /** Health does not depend on sizes, nor on the order of the relationships. */
  lemma {:induction false} HealthySurvives(vs: seq<Vdisk>, rs: seq<Relation>, ws: seq<Vdisk>, qs: seq<Relation>,
                                           layout: Layout)
    requires Healthy(vs, rs, layout) && SameButSizes(vs, ws) && forall r :: r in rs <==> r in qs
    ensures Healthy(ws, qs, layout)
  {
    forall i, j | 0 <= i < j < |ws| ensures ws[i].name != ws[j].name && ws[i].id != ws[j].id {
      assert ws[i] == vs[i].(size := ws[i].size) && ws[j] == vs[j].(size := ws[j].size);
    }
    forall volume | volume in layout
      ensures AllFour(ws, volume, layout[volume]) && RelationOf(ws, layout[volume]) == RelationOf(vs, layout[volume])
    {
      SameButSizesFour(vs, ws, volume, layout[volume]);
    }
    forall r | r in qs ensures IsRelationOf(ws, layout, r) {
      assert IsRelationOf(vs, layout, r);
    }
  }

  /* ---- what the driver reads about a healthy volume ---- */

  lemma {:induction false} OnlyRelation(rs: seq<Relation>, r: Relation, name: string)
    requires r in rs && Mentions(r, name) && forall q | q in rs && Mentions(q, name) :: q == r
    ensures FunctionOf(rs, name) == FunctionOf([r], name)
  {
    if !Mentions(rs[0], name) { OnlyRelation(rs[1..], r, name); } else { assert rs[0] in rs; }
  }

  lemma {:induction false} NoRelation(rs: seq<Relation>, name: string)
    requires forall q | q in rs :: !Mentions(q, name)
    ensures FunctionOf(rs, name) == Blank
  {
    if rs != [] {
      assert rs[0] in rs;
      NoRelation(rs[1..], name);
    }
  }

  /** The function column of the four members. */
  lemma {:induction false} MemberFunction(vs: seq<Vdisk>, rs: seq<Relation>, layout: Layout, volume: string,
                                          name: string)
    requires Healthy(vs, rs, layout) && volume in layout && name in Members(layout[volume])
    ensures var a := layout[volume];
      FunctionOf(rs, name) == if name == a.master then Master else if name == a.aux then Aux
                              else if name == a.masterChange then MasterChange else AuxChange
  {
    var r := RelationOf(vs, layout[volume]);
    forall q | q in rs && Mentions(q, name) ensures q == r {
      MentionsMeansOwn(vs, rs, layout, volume, q, name);
    }
    OnlyRelation(rs, r, name);
  }

  /** A role is filled iff some row has that function, and then by such a row. */
  predicate Fills(rows: seq<Row>, role: Option<Row>, f: Part, g: Part) {
    && (role.Some? ==> role.value in rows && (role.value.part == f || role.value.part == g))
    && (role.None? ==> forall r | r in rows :: r.part != f && r.part != g)
  }

  lemma {:induction false} AssignFacts(rows: seq<Row>)
    ensures var roles := AssignAll(rows);
      && Fills(rows, roles.master, Master, Blank)
      && Fills(rows, roles.aux, Aux, Aux)
      && Fills(rows, roles.masterChange, MasterChange, MasterChange)
      && Fills(rows, roles.auxChange, AuxChange, AuxChange)
  {
    if rows != [] {
      var last := |rows| - 1;
      AssignFacts(rows[..last]);
      assert forall r | r in rows :: r in rows[..last] || r == rows[last];
    }
  }

  lemma {:induction false} VolumeRow(s: State, volume: string, row: Row) returns (v: Vdisk)
    requires row in VolumeRows(s, volume)
    ensures v in s.vdisks && v.volume == volume && row == RowOf(s, v)
  {
    var vs := InVolume(s.vdisks, volume);
    var i :| 0 <= i < |vs| && VolumeRows(s, volume)[i] == row;
    v := vs[i];
    assert v in vs;
  }

  lemma {:induction false} RowOfVdisk(s: State, v: Vdisk)
    requires v in s.vdisks
    ensures RowOf(s, v) in VolumeRows(s, v.volume)
  {
    var vs := InVolume(s.vdisks, v.volume);
    assert v in vs;
    var i :| 0 <= i < |vs| && vs[i] == v;
    assert VolumeRows(s, v.volume)[i] == RowOf(s, v);
  }

  function MemberRow(s: State, name: string): Row
    requires Exists(s.vdisks, name)
  {
    RowOf(s, FindVdisk(s.vdisks, name).value)
  }

  lemma {:induction false} MemberByFunction(vs: seq<Vdisk>, rs: seq<Relation>, layout: Layout, volume: string,
                                            name: string, other: string)
    requires Healthy(vs, rs, layout) && volume in layout
    requires name in Members(layout[volume]) && other in Members(layout[volume])
    requires FunctionOf(rs, name) == FunctionOf(rs, other)
    ensures name == other
  {
    hide Healthy, FunctionOf;
    MemberFunction(vs, rs, layout, volume, name);
    MemberFunction(vs, rs, layout, volume, other);
  }

  /** The row of a volume with a given function is the row of the member with that function. */
  lemma {:induction false} RowWithFunction(s: State, layout: Layout, volume: string, row: Row, name: string)
    requires Healthy(s.vdisks, s.relations, layout) && volume in layout && row in VolumeRows(s, volume)
    requires name in Members(layout[volume]) && row.part == FunctionOf(s.relations, name)
    ensures Exists(s.vdisks, name) && row == MemberRow(s, name)
  {
    hide FunctionOf, VolumeRows, IsRelationOf, TouchingMaps, Decimal, RelationOf;
    var v := VolumeRow(s, volume, row);
    assert AllFour(s.vdisks, volume, layout[volume]);
    assert v.name in Members(layout[volume]);
    MemberByFunction(s.vdisks, s.relations, layout, volume, v.name, name);
    FoundVdisk(s.vdisks, v);
  }

  lemma {:induction false} MemberRowListed(s: State, layout: Layout, volume: string, name: string)
    requires Healthy(s.vdisks, s.relations, layout) && volume in layout && name in Members(layout[volume])
    ensures MemberRow(s, name) in VolumeRows(s, volume)
    ensures MemberRow(s, name).part == FunctionOf(s.relations, name)
  {
    MemberVolume(s.vdisks, layout, volume, name);
    RowOfVdisk(s, FindVdisk(s.vdisks, name).value);
  }

  function InfosOf(s: State, a: AaVolume): Infos
    requires Exists(s.vdisks, a.master) && Exists(s.vdisks, a.aux)
  {
    Infos(MemberRow(s, a.master), Some((MemberRow(s, a.aux), a.masterChange, a.auxChange)))
  }

  /** Reading a healthy active-active volume finds its four vdisks in their roles, and never panics. */
  lemma {:induction false} HealthyInfos(s: State, layout: Layout, volume: string)
    requires Healthy(s.vdisks, s.relations, layout) && volume in layout
    ensures BuildVolumeInfos(VolumeRows(s, volume)) == Ok(InfosOf(s, layout[volume]))
  {
    hide Mentions, DistinctVdisks, RowOf, VolumeRows, RelationOf, IsRelationOf;
    var a, rows := layout[volume], VolumeRows(s, volume);
    AssignFacts(rows);
    var roles := AssignAll(rows);
    forall name | name in Members(a)
      ensures MemberRow(s, name) in rows && MemberRow(s, name).part == FunctionOf(s.relations, name)
    {
      MemberRowListed(s, layout, volume, name);
    }
    MemberFunction(s.vdisks, s.relations, layout, volume, a.master);
    MemberFunction(s.vdisks, s.relations, layout, volume, a.aux);
    MemberFunction(s.vdisks, s.relations, layout, volume, a.masterChange);
    MemberFunction(s.vdisks, s.relations, layout, volume, a.auxChange);
    assert MemberRow(s, a.master) in rows && MemberRow(s, a.aux) in rows;
    assert MemberRow(s, a.masterChange) in rows && MemberRow(s, a.auxChange) in rows;
    NotBlank(s, layout, volume, roles.master.value);
    RowWithFunction(s, layout, volume, roles.master.value, a.master);
    RowWithFunction(s, layout, volume, roles.aux.value, a.aux);
    RowWithFunction(s, layout, volume, roles.masterChange.value, a.masterChange);
    RowWithFunction(s, layout, volume, roles.auxChange.value, a.auxChange);
    NameOfMember(s, a.masterChange);
    NameOfMember(s, a.auxChange);
  }

  lemma {:induction false} NotBlank(s: State, layout: Layout, volume: string, row: Row)
    requires Healthy(s.vdisks, s.relations, layout) && volume in layout && row in VolumeRows(s, volume)
    ensures row.part != Blank
  {
    var v := VolumeRow(s, volume, row);
    MemberFunction(s.vdisks, s.relations, layout, volume, v.name);
  }

  lemma {:induction false} NameOfMember(s: State, name: string)
    requires Exists(s.vdisks, name)
    ensures MemberRow(s, name).name == name && MemberRow(s, name).id == IdOf(s.vdisks, name)
  {}
}
