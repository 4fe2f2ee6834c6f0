/** The AS18000 array as the driver drives it over its CLI: vdisks, active-active relationships and
    local-copy maps, and a script of outcomes that decides which command or query fails.

    Assumptions about the array: a command that fails has no effect; vdisk names are unique; a
    rebuilt relationship has its master vdisk's id; attaching a change volume makes the two local
    copies between it and its base, and removing the relationship removes them; a vdisk is the target
    of at most one local-copy map; `rmvdisk -force` and `rmvolume` also drop the maps and
    relationships that touch what they remove; `mkvolume` names the other three vdisks after the
    volume. The array does not check that related or copied vdisks have equal size, nor that a vdisk
    being expanded is unrelated: that is the driver's business. */
module VdiskArray {
  import opened Wrappers
  import opened Text
  import opened Lists
  import opened Sizes

  datatype Vdisk = Vdisk(id: nat, name: string, volume: string, pool: string, iogrp: string, size: nat)

  datatype Relation = Relation(id: nat, master: string, aux: string,
                               masterChange: Option<string>, auxChange: Option<string>)

  /** `startTime` is empty until the map is started. */
  datatype LcMap = LcMap(id: nat, source: string, target: string, startTime: string, autodelete: bool)

  /** `now` is the array's clock; `faults` the outcomes of the commands and queries still to come,
      all of which succeed once it is used up. */
  datatype State = State(vdisks: seq<Vdisk>, relations: seq<Relation>, maps: seq<LcMap>,
                         now: string, faults: seq<bool>)

  predicate Up(s: State) { s.faults == [] || s.faults[0] }

  function Spend(s: State): State {
    s.(faults := if s.faults == [] then [] else s.faults[1..])
  }

  predicate Exists(vs: seq<Vdisk>, name: string) {
    exists v | v in vs :: v.name == name
  }

  function VdiskPosition(vs: seq<Vdisk>, name: string, k: nat): (i: nat)
    requires k <= |vs|
    ensures k <= i <= |vs|
    ensures i < |vs| ==> vs[i].name == name
    ensures forall j | k <= j < i :: vs[j].name != name
    decreases |vs| - k
  {
    if k == |vs| || vs[k].name == name then k else VdiskPosition(vs, name, k + 1)
  }

  function FindVdisk(vs: seq<Vdisk>, name: string): (found: Option<Vdisk>)
    ensures found.Some? <==> Exists(vs, name)
    ensures found.Some? ==> found.value in vs && found.value.name == name
  {
    var i := VdiskPosition(vs, name, 0);
    if i < |vs| then Some(vs[i]) else None
  }

  predicate Touches(m: LcMap, name: string) { m.source == name || m.target == name }

  predicate Links(m: LcMap, a: string, b: string) {
    (m.source == a && m.target == b) || (m.source == b && m.target == a)
  }

  predicate Mentions(r: Relation, name: string) {
    r.master == name || r.aux == name || r.masterChange == Some(name) || r.auxChange == Some(name)
  }

  predicate Related(relations: seq<Relation>, name: string) {
    exists r | r in relations :: Mentions(r, name)
  }

  /* ---- new ids ---- */

  function NextVdiskId(vs: seq<Vdisk>): (id: nat)
    ensures forall v | v in vs :: v.id < id
  {
    if vs == [] then 0
    else
      var rest := NextVdiskId(vs[1..]);
      assert forall v | v in vs :: v == vs[0] || v in vs[1..];
      if vs[0].id < rest then rest else vs[0].id + 1
  }

  function NextMapId(ms: seq<LcMap>): (id: nat)
    ensures forall m | m in ms :: m.id < id
  {
    if ms == [] then 0
    else
      var rest := NextMapId(ms[1..]);
      assert forall m | m in ms :: m == ms[0] || m in ms[1..];
      if ms[0].id < rest then rest else ms[0].id + 1
  }

  /* ---- changes of the tables ---- */

  function Grow(vs: seq<Vdisk>, name: string, gib: nat): (grown: seq<Vdisk>)
    ensures |grown| == |vs|
    ensures forall i | 0 <= i < |vs| ::
      grown[i] == if vs[i].name == name then vs[i].(size := vs[i].size + gib * GIB) else vs[i]
  {
    seq(|vs|, i requires 0 <= i < |vs| =>
      if vs[i].name == name then vs[i].(size := vs[i].size + gib * GIB) else vs[i])
  }

  function DropVdisk(vs: seq<Vdisk>, name: string): seq<Vdisk> { Filter(vs, (v: Vdisk) => v.name != name) }

  function DropVolume(vs: seq<Vdisk>, volume: string): seq<Vdisk> { Filter(vs, (v: Vdisk) => v.volume != volume) }

  function DropMaps(ms: seq<LcMap>, gone: set<string>): seq<LcMap> {
    Filter(ms, (m: LcMap) => m.source !in gone && m.target !in gone)
  }

  function DropMap(ms: seq<LcMap>, id: nat): seq<LcMap> { Filter(ms, (m: LcMap) => m.id != id) }

  function DropLink(ms: seq<LcMap>, base: string, change: Option<string>): seq<LcMap> {
    Filter(ms, (m: LcMap) => change.None? || !Links(m, base, change.value))
  }

  function AddLink(ms: seq<LcMap>, base: string, change: string, now: string): seq<LcMap> {
    var id := NextMapId(ms);
    ms + [LcMap(id, base, change, now, false), LcMap(id + 1, change, base, now, false)]
  }

  function Start(ms: seq<LcMap>, id: nat, now: string): (started: seq<LcMap>)
    ensures |started| == |ms|
    ensures forall i | 0 <= i < |ms| ::
      started[i] == if ms[i].id == id then ms[i].(startTime := now) else ms[i]
  {
    seq(|ms|, i requires 0 <= i < |ms| => if ms[i].id == id then ms[i].(startTime := now) else ms[i])
  }

  function NamesOf(vs: seq<Vdisk>, volume: string): set<string> {
    set v | v in vs && v.volume == volume :: v.name
  }

  function DropRelationsOf(rs: seq<Relation>, gone: set<string>): seq<Relation> {
    Filter(rs, (r: Relation) => forall name | name in gone :: !Mentions(r, name))
  }

  function DropRelation(rs: seq<Relation>, id: nat): seq<Relation> {
    Filter(rs, (r: Relation) => r.id != id)
  }

  function FindRelation(rs: seq<Relation>, id: nat): (found: Option<Relation>)
    ensures found.Some? ==> found.value in rs && found.value.id == id
    ensures found.None? ==> forall r | r in rs :: r.id != id
  {
    if rs == [] then None else if rs[0].id == id then Some(rs[0]) else FindRelation(rs[1..], id)
  }

  function WithMasterChange(rs: seq<Relation>, id: nat, change: string): (after: seq<Relation>)
    ensures |after| == |rs|
    ensures forall i | 0 <= i < |rs| ::
      after[i] == if rs[i].id == id then rs[i].(masterChange := Some(change)) else rs[i]
  {
    seq(|rs|, i requires 0 <= i < |rs| =>
      if rs[i].id == id then rs[i].(masterChange := Some(change)) else rs[i])
  }

  function WithAuxChange(rs: seq<Relation>, id: nat, change: string): (after: seq<Relation>)
    ensures |after| == |rs|
    ensures forall i | 0 <= i < |rs| ::
      after[i] == if rs[i].id == id then rs[i].(auxChange := Some(change)) else rs[i]
  {
    seq(|rs|, i requires 0 <= i < |rs| =>
      if rs[i].id == id then rs[i].(auxChange := Some(change)) else rs[i])
  }

  /** The local copies left once the relationship is gone. */
  function DropLinks(ms: seq<LcMap>, r: Relation): seq<LcMap> {
    DropLink(DropLink(ms, r.master, r.masterChange), r.aux, r.auxChange)
  }

  /* ---- commands ---- */

  /** The state-changing commands the driver issues; sizes are in GiB. */
  datatype Command =
    | MkVdisk(name: string, gib: nat, pool: string, iogrp: string)
    | MkVolume(name: string, gib: nat, pool: string, auxPool: string, iogrp: string, auxIogrp: string)
    | RmVdisk(name: string)
    | RmVolume(name: string)
    | ExpandVdisk(name: string, gib: nat)
    | RmRelation(id: nat)
    | MkRelation(master: string, aux: string)
    | AddVdiskAccess(iogrp: string, name: string)
    | ChMasterChange(change: string, id: nat)
    | ChAuxChange(change: string, id: nat)
    | MkLcMap(source: string, target: string, autodelete: bool)
    | StartLcMap(id: nat)
    | StopLcMap(id: nat)
    | RmLcMap(id: nat)

  function AuxName(volume: string): string { volume + "_aux" }

  function MasterChangeName(volume: string): string { volume + "_mcv" }

  function AuxChangeName(volume: string): string { volume + "_acv" }

  predicate NameFree(s: State, name: string) {
    !Exists(s.vdisks, name) && forall v | v in s.vdisks :: v.volume != name
  }

  predicate HasMap(ms: seq<LcMap>, id: nat) { exists m | m in ms :: m.id == id }

  /** Whether the array carries the command out. */
  predicate Can(s: State, c: Command) {
    match c
    case MkVdisk(name, _, _, _) => NameFree(s, name)
    case MkVolume(name, _, _, _, _, _) =>
      NameFree(s, name) && NameFree(s, AuxName(name))
      && NameFree(s, MasterChangeName(name)) && NameFree(s, AuxChangeName(name))
    case RmVdisk(name) => Exists(s.vdisks, name)
    case RmVolume(name) => NamesOf(s.vdisks, name) != {}
    case ExpandVdisk(name, _) => Exists(s.vdisks, name)
    case RmRelation(id) => FindRelation(s.relations, id).Some?
    case MkRelation(master, aux) =>
      && Exists(s.vdisks, master) && Exists(s.vdisks, aux) && master != aux
      && forall r | r in s.relations :: !Mentions(r, master) && !Mentions(r, aux)
    case AddVdiskAccess(_, name) => Exists(s.vdisks, name)
    case ChMasterChange(change, id) => Exists(s.vdisks, change) && FindRelation(s.relations, id).Some?
    case ChAuxChange(change, id) => Exists(s.vdisks, change) && FindRelation(s.relations, id).Some?
    case MkLcMap(source, target, _) =>
      && Exists(s.vdisks, source) && Exists(s.vdisks, target) && source != target
      && forall m | m in s.maps :: m.target != target
    case StartLcMap(id) => HasMap(s.maps, id)
    case StopLcMap(id) => HasMap(s.maps, id)
    case RmLcMap(id) => HasMap(s.maps, id)
  }

  function NewVolume(s: State, name: string, gib: nat, pool: string, auxPool: string,
                     iogrp: string, auxIogrp: string): State
  {
    var id, size := NextVdiskId(s.vdisks), gib * GIB;
    var (aux, mcv, acv) := (AuxName(name), MasterChangeName(name), AuxChangeName(name));
    s.(vdisks := s.vdisks + [Vdisk(id, name, name, pool, iogrp, size),
                             Vdisk(id + 1, aux, name, auxPool, auxIogrp, size),
                             Vdisk(id + 2, mcv, name, pool, iogrp, size),
                             Vdisk(id + 3, acv, name, auxPool, auxIogrp, size)],
       relations := s.relations + [Relation(id, name, aux, Some(mcv), Some(acv))],
       maps := AddLink(AddLink(s.maps, name, mcv, s.now), aux, acv, s.now))
  }

  /** What a command that is carried out makes of the tables. */
  function Apply(s: State, c: Command): State
    requires Can(s, c)
  {
    match c
    case MkVdisk(name, gib, pool, iogrp) =>
      s.(vdisks := s.vdisks + [Vdisk(NextVdiskId(s.vdisks), name, name, pool, iogrp, gib * GIB)])
    case MkVolume(name, gib, pool, auxPool, iogrp, auxIogrp) =>
      NewVolume(s, name, gib, pool, auxPool, iogrp, auxIogrp)
    case RmVdisk(name) =>
      s.(vdisks := DropVdisk(s.vdisks, name),
         relations := DropRelationsOf(s.relations, {name}),
         maps := DropMaps(s.maps, {name}))
    case RmVolume(name) =>
      s.(vdisks := DropVolume(s.vdisks, name),
         relations := DropRelationsOf(s.relations, NamesOf(s.vdisks, name)),
         maps := DropMaps(s.maps, NamesOf(s.vdisks, name)))
    case ExpandVdisk(name, gib) => s.(vdisks := Grow(s.vdisks, name, gib))
    case RmRelation(id) =>
      s.(relations := DropRelation(s.relations, id),
         maps := DropLinks(s.maps, FindRelation(s.relations, id).value))
    case MkRelation(master, aux) =>
      s.(relations := s.relations + [Relation(FindVdisk(s.vdisks, master).value.id, master, aux, None, None)])
    case AddVdiskAccess(_, _) => s
    case ChMasterChange(change, id) =>
      s.(relations := WithMasterChange(s.relations, id, change),
         maps := AddLink(s.maps, FindRelation(s.relations, id).value.master, change, s.now))
    case ChAuxChange(change, id) =>
      s.(relations := WithAuxChange(s.relations, id, change),
         maps := AddLink(s.maps, FindRelation(s.relations, id).value.aux, change, s.now))
    case MkLcMap(source, target, autodelete) =>
      s.(maps := s.maps + [LcMap(NextMapId(s.maps), source, target, "", autodelete)])
    case StartLcMap(id) => s.(maps := Start(s.maps, id, s.now))
    case StopLcMap(_) => s
    case RmLcMap(id) => s.(maps := DropMap(s.maps, id))
  }

  /** One command: it fails when the script says so or the array refuses it. */
  function Execute(s: State, c: Command): (State, bool) {
    var ok := Up(s) && Can(s, c);
    ((if ok then Apply(s, c) else s).(faults := Spend(s).faults), ok)
  }

  /* ---- queries ---- */

  /** The function column of lsvdisk: a vdisk's part in an active-active volume, blank without one. */
  datatype Part = Blank | Master | Aux | MasterChange | AuxChange

  function FunctionOf(rs: seq<Relation>, name: string): Part {
    if rs == [] then Blank
    else if rs[0].master == name then Master
    else if rs[0].aux == name then Aux
    else if rs[0].masterChange == Some(name) then MasterChange
    else if rs[0].auxChange == Some(name) then AuxChange
    else FunctionOf(rs[1..], name)
  }

  /** A row of lsvdisk: sizes come in bytes, counts as text. */
  datatype Row = Row(id: nat, name: string, part: Part, iogrp: string, pool: string,
                     capacity: string, lcMapCount: string)

  function TouchingMaps(ms: seq<LcMap>, name: string): seq<LcMap> {
    Filter(ms, (m: LcMap) => Touches(m, name))
  }

  function MapsFrom(ms: seq<LcMap>, source: string): seq<LcMap> {
    Filter(ms, (m: LcMap) => m.source == source)
  }

  function MapsTo(ms: seq<LcMap>, target: string): seq<LcMap> {
    Filter(ms, (m: LcMap) => m.target == target)
  }

  function RowOf(s: State, v: Vdisk): Row {
    Row(v.id, v.name, FunctionOf(s.relations, v.name), v.iogrp, v.pool,
        Decimal(v.size), Decimal(|TouchingMaps(s.maps, v.name)|))
  }

  function RowsOf(s: State, vs: seq<Vdisk>): (rows: seq<Row>)
    ensures |rows| == |vs|
    ensures forall i | 0 <= i < |vs| :: rows[i] == RowOf(s, vs[i])
  {
    seq(|vs|, i requires 0 <= i < |vs| => RowOf(s, vs[i]))
  }

  function InVolume(vs: seq<Vdisk>, volume: string): seq<Vdisk> {
    Filter(vs, (v: Vdisk) => v.volume == volume)
  }

  /** lsvdisk -filtervalue volume_name=... */
  function VolumeRows(s: State, volume: string): seq<Row> {
    RowsOf(s, InVolume(s.vdisks, volume))
  }

  /** The CLI connection: every state change goes through Execute, every query costs one answer. */
  class CliArray {
    var vdisks: seq<Vdisk>
    var relations: seq<Relation>
    var maps: seq<LcMap>
    var now: string
    var faults: seq<bool>

    constructor (s: State)
      ensures Current() == s
    {
      vdisks, relations, maps, now, faults := s.vdisks, s.relations, s.maps, s.now, s.faults;
    }

    function Current(): State
      reads this
    {
      State(vdisks, relations, maps, now, faults)
    }

    method Answer() returns (up: bool)
      modifies this`faults
      ensures up == Up(old(Current())) && Current() == Spend(old(Current()))
    {
      up := faults == [] || faults[0];
      faults := if faults == [] then [] else faults[1..];
    }

    method Run(c: Command) returns (ok: bool)
      modifies this
      ensures (Current(), ok) == Execute(old(Current()), c)
    {
      var before := Current();
      ok := Answer();
      ok := ok && Can(before, c);
      if ok {
        var after := Apply(before, c);
        vdisks, relations, maps := after.vdisks, after.relations, after.maps;
      }
    }

    /** mklcmap answers with the id of the map it made. */
    method MakeMap(source: string, target: string, autodelete: bool) returns (ok: bool, id: nat)
      modifies this
      ensures (Current(), ok) == Execute(old(Current()), MkLcMap(source, target, autodelete))
      ensures id == NextMapId(old(maps))
    {
      id := NextMapId(maps);
      ok := Run(MkLcMap(source, target, autodelete));
    }
  }
}
