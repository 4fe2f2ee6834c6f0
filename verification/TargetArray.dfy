/** The AS13000 array as the driver sees it through REST: iSCSI targets, each with the LUNs mapped
    on it, and a script of outcomes that decides which call fails.

    Assumptions about the array: a call that fails has no effect; a new LUN mapping carries the
    IqnPort "ALL", which the first bind replaces and which is back once nothing is bound; later
    binds append after a comma; targets are listed in creation order. The array enforces none of
    the limits and none of the uniqueness the driver is responsible for. */
module TargetArray {
  import opened Text
  import opened Lists

  datatype Lun = Lun(id: nat, lvm: string, iqnPort: string)

  datatype Target = Target(name: string, luns: seq<Lun>)

  /** `faults` holds the outcomes of the calls still to come, true for success; when it is used up
      every further call succeeds, so `faults == []` is a fault-free run. */
  datatype State = State(targets: seq<Target>, faults: seq<bool>)

  predicate Up(s: State) { s.faults == [] || s.faults[0] }

  /** The state after one call has been spent. */
  function Spend(s: State): State {
    s.(faults := if s.faults == [] then [] else s.faults[1..])
  }

  /** Whether the i-th call from now on gets through. */
  predicate Answers(s: State, i: nat) { i >= |s.faults| || s.faults[i] }

  /** The first position of a target called `name`, or the number of targets. */
  function Position(ts: seq<Target>, name: string): (i: nat)
    ensures i <= |ts|
    ensures i < |ts| ==> ts[i].name == name
    ensures forall j | 0 <= j < i :: ts[j].name != name
  {
    FirstFrom(ts, (t: Target) => t.name == name, 0)
  }

  predicate HasTarget(ts: seq<Target>, name: string) { Position(ts, name) < |ts| }

  function LunsOf(ts: seq<Target>, name: string): seq<Lun>
    requires HasTarget(ts, name)
  {
    ts[Position(ts, name)].luns
  }

  function WithLuns(ts: seq<Target>, name: string, luns: seq<Lun>): seq<Target>
    requires HasTarget(ts, name)
  {
    ts[Position(ts, name) := Target(name, luns)]
  }

  function LunPosition(luns: seq<Lun>, id: nat): (i: nat)
    ensures i <= |luns|
    ensures i < |luns| ==> luns[i].id == id
    ensures forall j | 0 <= j < i :: luns[j].id != id
  {
    FirstFrom(luns, (l: Lun) => l.id == id, 0)
  }

  predicate HasLun(ts: seq<Target>, name: string, id: nat) {
    HasTarget(ts, name) && LunPosition(LunsOf(ts, name), id) < |LunsOf(ts, name)|
  }

  /** The id the array gives a new LUN: one that no LUN of the target has. */
  function FreshId(luns: seq<Lun>): (id: nat)
    ensures forall l | l in luns :: l.id < id
  {
    if luns == [] then 1
    else
      var rest := FreshId(luns[1..]);
      assert forall l | l in luns :: l == luns[0] || l in luns[1..];
      if luns[0].id < rest then rest else luns[0].id + 1
  }

  function Without(parts: seq<string>, piece: string): seq<string> {
    if parts == [] then []
    else if parts[0] == piece then Without(parts[1..], piece)
    else [parts[0]] + Without(parts[1..], piece)
  }

  function BindPort(port: string, iqn: string): string {
    if port == "ALL" then iqn else port + "," + iqn
  }

  function UnbindPort(port: string, iqn: string): string {
    var left := Without(Split(port, ','), iqn);
    if left == [] then "ALL" else Join(left, ',')
  }

  /* ---- what each call makes of the targets ---- */

  function AddLun(ts: seq<Target>, name: string, lvm: string): seq<Target>
    requires HasTarget(ts, name)
  {
    var luns := LunsOf(ts, name);
    WithLuns(ts, name, luns + [Lun(FreshId(luns), lvm, "ALL")])
  }

  function SetPort(ts: seq<Target>, name: string, id: nat, port: string): seq<Target>
    requires HasLun(ts, name, id)
  {
    var luns := LunsOf(ts, name);
    var k := LunPosition(luns, id);
    WithLuns(ts, name, luns[k := luns[k].(iqnPort := port)])
  }

  function PortOf(ts: seq<Target>, name: string, id: nat): string
    requires HasLun(ts, name, id)
  {
    var luns := LunsOf(ts, name);
    luns[LunPosition(luns, id)].iqnPort
  }

  function DropLun(ts: seq<Target>, name: string, id: nat): seq<Target>
    requires HasLun(ts, name, id)
  {
    var luns := LunsOf(ts, name);
    var k := LunPosition(luns, id);
    WithLuns(ts, name, luns[..k] + luns[k + 1..])
  }

  function DropTarget(ts: seq<Target>, name: string): seq<Target>
    requires HasTarget(ts, name)
  {
    var i := Position(ts, name);
    ts[..i] + ts[i + 1..]
  }

  /* ---- the calls: the new state and whether the call succeeded ---- */

  function Perform(s: State, can: bool, after: seq<Target>): (State, bool) {
    var ok := Up(s) && can;
    (State(if ok then after else s.targets, Spend(s).faults), ok)
  }

  function CreateTarget(s: State, name: string): (State, bool) {
    Perform(s, true, s.targets + [Target(name, [])])
  }

  function CreateLun(s: State, name: string, lvm: string): (State, bool) {
    var can := HasTarget(s.targets, name);
    Perform(s, can, if can then AddLun(s.targets, name, lvm) else [])
  }

  function Bind(s: State, name: string, id: nat, iqn: string): (State, bool) {
    var can := HasLun(s.targets, name, id);
    Perform(s, can,
      if can then SetPort(s.targets, name, id, BindPort(PortOf(s.targets, name, id), iqn)) else [])
  }

  function Unbind(s: State, name: string, id: nat, iqn: string): (State, bool) {
    var can := HasLun(s.targets, name, id);
    Perform(s, can,
      if can then SetPort(s.targets, name, id, UnbindPort(PortOf(s.targets, name, id), iqn)) else [])
  }

  function DeleteLun(s: State, name: string, id: nat): (State, bool) {
    var can := HasLun(s.targets, name, id);
    Perform(s, can, if can then DropLun(s.targets, name, id) else [])
  }

  function DeleteTarget(s: State, name: string): (State, bool) {
    var can := HasTarget(s.targets, name);
    Perform(s, can, if can then DropTarget(s.targets, name) else [])
  }

  /** The array itself: every method is one REST call. */
  class RestArray {
    var targets: seq<Target>
    var faults: seq<bool>

    constructor (targets: seq<Target>, faults: seq<bool>)
      ensures Current() == State(targets, faults)
    {
      this.targets, this.faults := targets, faults;
    }

    function Current(): State
      reads this
    {
      State(targets, faults)
    }

    method Answer() returns (up: bool)
      modifies this`faults
      ensures up == Up(old(Current())) && Current() == Spend(old(Current()))
    {
      up := faults == [] || faults[0];
      faults := if faults == [] then [] else faults[1..];
    }

    method QueryTargets() returns (ok: bool, found: seq<Target>)
      modifies this`faults
      ensures ok == Up(old(Current())) && Current() == Spend(old(Current()))
      ensures ok ==> found == targets
    {
      ok := Answer();
      found := if ok then targets else [];
    }

    method QueryLuns(name: string) returns (ok: bool, luns: seq<Lun>)
      modifies this`faults
      ensures ok == (Up(old(Current())) && HasTarget(targets, name))
      ensures Current() == Spend(old(Current()))
      ensures ok ==> luns == LunsOf(targets, name)
    {
      var up := Answer();
      ok := up && HasTarget(targets, name);
      luns := if ok then LunsOf(targets, name) else [];
    }

    method PostTarget(name: string) returns (ok: bool)
      modifies this
      ensures (Current(), ok) == CreateTarget(old(Current()), name)
    {
      ok := Answer();
      if ok { targets := targets + [Target(name, [])]; }
    }

    method PostLun(name: string, lvm: string) returns (ok: bool)
      modifies this
      ensures (Current(), ok) == CreateLun(old(Current()), name, lvm)
    {
      ok := Answer();
      ok := ok && HasTarget(targets, name);
      if ok { targets := AddLun(targets, name, lvm); }
    }

    method BindIqn(name: string, id: nat, iqn: string) returns (ok: bool)
      modifies this
      ensures (Current(), ok) == Bind(old(Current()), name, id, iqn)
    {
      ok := Answer();
      ok := ok && HasLun(targets, name, id);
      if ok { targets := SetPort(targets, name, id, BindPort(PortOf(targets, name, id), iqn)); }
    }

    method UnbindIqn(name: string, id: nat, iqn: string) returns (ok: bool)
      modifies this
      ensures (Current(), ok) == Unbind(old(Current()), name, id, iqn)
    {
      ok := Answer();
      ok := ok && HasLun(targets, name, id);
      if ok { targets := SetPort(targets, name, id, UnbindPort(PortOf(targets, name, id), iqn)); }
    }

    method RemoveLun(name: string, id: nat) returns (ok: bool)
      modifies this
      ensures (Current(), ok) == DeleteLun(old(Current()), name, id)
    {
      ok := Answer();
      ok := ok && HasLun(targets, name, id);
      if ok { targets := DropLun(targets, name, id); }
    }

    method RemoveTarget(name: string) returns (ok: bool)
      modifies this
      ensures (Current(), ok) == DeleteTarget(old(Current()), name)
    {
      ok := Answer();
      ok := ok && HasTarget(targets, name);
      if ok { targets := DropTarget(targets, name); }
    }
  }
}
