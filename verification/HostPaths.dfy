/** The paths a host connects to a mapped volume by: which ports of the array are listed, and with which
    SCSI id. */
module HostPaths {
  import opened Wrappers
  import opened Lists

  type LunMap = map<string, nat>

  /** A row of lsportip. */
  datatype IpRow = IpRow(node: string, state: string, link: string, ipv4: string, ipv6: string)

  /** A row of lsnode. */
  datatype NodeRow = NodeRow(id: string, name: string, online: bool, iscsiName: string, iogrp: string)

  /** A row of lsfabric or lsportfc: a port of the array, its node, and whether it is active. */
  datatype FcRow = FcRow(wwpn: string, node: string, active: bool)

  /** The protocol of the host, and what the array lists of its ports. */
  datatype Net = Net(link: string, ips: seq<IpRow>, nodes: seq<NodeRow>, visible: seq<FcRow>, ports: seq<FcRow>)

  const FC_LINK := "fc"
  const ISCSI_LINK := "iscsi"

  /** The port, its portal in the case of iSCSI, and the SCSI id behind it, None when it is left empty. */
  datatype Path = Path(port: string, portal: string, lun: Option<nat>)

  function LunAt(luns: LunMap, group: string): Option<nat> {
    if group in luns then Some(luns[group]) else None
  }

  /* ---- iSCSI ---- */

  predicate Usable(row: IpRow) {
    ((row.state == "configured" && row.link == "active") || row.state == "online") && (row.ipv4 != "" || row.ipv6 != "")
  }

  function Portal(row: IpRow): string {
    if row.ipv4 != "" then row.ipv4 + ":3260" else "[" + row.ipv6 + "]:3260"
  }

  function NodePaths(row: IpRow, nodes: seq<NodeRow>, luns: LunMap): seq<Path> {
    if nodes == [] then []
    else
      var rest := NodePaths(row, nodes[1..], luns);
      if nodes[0].online && row.node == nodes[0].id then
        [Path(nodes[0].iscsiName, Portal(row), LunAt(luns, nodes[0].iogrp))] + rest
      else rest
  }

  function IscsiPaths(ips: seq<IpRow>, nodes: seq<NodeRow>, luns: LunMap): seq<Path> {
    if ips == [] then []
    else (if Usable(ips[0]) then NodePaths(ips[0], nodes, luns) else []) + IscsiPaths(ips[1..], nodes, luns)
  }

  lemma {:induction false} Associative(a: seq<Path>, b: seq<Path>, c: seq<Path>)
    ensures a + (b + c) == a + b + c
  {}

  method GetiSCSITargets(ips: seq<IpRow>, nodes: seq<NodeRow>, luns: LunMap) returns (paths: seq<Path>)
    ensures paths == IscsiPaths(ips, nodes, luns)
  {
    hide Usable, Portal, LunAt;
    paths := [];
    for i := 0 to |ips|
      invariant IscsiPaths(ips, nodes, luns) == paths + IscsiPaths(ips[i..], nodes, luns)
    {
      assert ips[i..][1..] == ips[i + 1..];
      if Usable(ips[i]) {
        ghost var before := paths;
        for j := 0 to |nodes|
          invariant before + NodePaths(ips[i], nodes, luns) == paths + NodePaths(ips[i], nodes[j..], luns)
        {
          assert nodes[j..][1..] == nodes[j + 1..];
          if nodes[j].online && ips[i].node == nodes[j].id {
            Associative(paths, [Path(nodes[j].iscsiName, Portal(ips[i]), LunAt(luns, nodes[j].iogrp))],
                        NodePaths(ips[i], nodes[j + 1..], luns));
            paths := paths + [Path(nodes[j].iscsiName, Portal(ips[i]), LunAt(luns, nodes[j].iogrp))];
          }
        }
        assert paths == before + NodePaths(ips[i], nodes, luns);
        Associative(before, NodePaths(ips[i], nodes, luns), IscsiPaths(ips[i + 1..], nodes, luns));
      }
    }
  }

  lemma {:induction false} NodePathsExact(row: IpRow, nodes: seq<NodeRow>, luns: LunMap, p: Path)
    ensures p in NodePaths(row, nodes, luns)
      <==> exists n | n in nodes ::
             n.online && row.node == n.id && p == Path(n.iscsiName, Portal(row), LunAt(luns, n.iogrp))
  {
    if nodes != [] {
      NodePathsExact(row, nodes[1..], luns, p);
      assert nodes[0] in nodes && forall n | n in nodes :: n == nodes[0] || n in nodes[1..];
      assert forall n | n in nodes[1..] :: n in nodes;
    }
  }

  /** An address that can be connected to: configured with its link up, or online, and not empty. */
  lemma {:induction false} UsableExact(row: IpRow)
    ensures Usable(row) <==>
      && (row.state == "online" || (row.state == "configured" && row.link == "active"))
      && !(row.ipv4 == "" && row.ipv6 == "")
    ensures Usable(row) ==>
      Portal(row) == if row.ipv4 == "" then "[" + row.ipv6 + "]:3260" else row.ipv4 + ":3260"
  {}

  /** The path leads to this node by this address. */
  predicate LeadsTo(p: Path, row: IpRow, n: NodeRow) {
    && (row.state == "online" || (row.state == "configured" && row.link == "active"))
    && !(row.ipv4 == "" && row.ipv6 == "")
    && n.online && n.id == row.node && p.port == n.iscsiName
    && p.portal == if row.ipv4 == "" then "[" + row.ipv6 + "]:3260" else row.ipv4 + ":3260"
  }

  /** The paths of an iSCSI host are those over the usable addresses of online nodes, each with the SCSI id the
      volume has in the node's own I/O group. */
  lemma {:induction false} IscsiPathsExact(ips: seq<IpRow>, nodes: seq<NodeRow>, luns: LunMap, p: Path)
    ensures p in IscsiPaths(ips, nodes, luns)
      <==> exists row, n | row in ips && n in nodes :: LeadsTo(p, row, n) && p.lun == LunAt(luns, n.iogrp)
  {
    hide LeadsTo, Usable, Portal, LunAt;
    if ips != [] {
      IscsiPathsExact(ips[1..], nodes, luns, p);
      NodePathsExact(ips[0], nodes, luns, p);
      OneAddress(ips[0], nodes, luns, p);
      assert ips[0] in ips && forall row | row in ips :: row == ips[0] || row in ips[1..];
      assert forall row | row in ips[1..] :: row in ips;
    }
  }

  lemma {:induction false} OneAddress(row: IpRow, nodes: seq<NodeRow>, luns: LunMap, p: Path)
    ensures (Usable(row) && exists n | n in nodes ::
               n.online && row.node == n.id && p == Path(n.iscsiName, Portal(row), LunAt(luns, n.iogrp)))
      <==> exists n | n in nodes :: LeadsTo(p, row, n) && p.lun == LunAt(luns, n.iogrp)
  {
    hide LunAt;
    forall n: NodeRow
      ensures Usable(row) && n.online && row.node == n.id && p == Path(n.iscsiName, Portal(row), LunAt(luns, n.iogrp))
        <==> LeadsTo(p, row, n) && p.lun == LunAt(luns, n.iogrp)
    {
      UsableExact(row);
    }
  }

  /* ---- Fibre Channel ---- */

  /** The I/O group of the last node of that name, empty without one. */
  function GroupOf(nodes: seq<NodeRow>, name: string): string {
    if nodes == [] then ""
    else if nodes[|nodes| - 1].name == name then nodes[|nodes| - 1].iogrp
    else GroupOf(nodes[..|nodes| - 1], name)
  }

  predicate Listed(paths: seq<Path>, wwpn: string) { exists p | p in paths :: p.port == wwpn }

  function FcPath(row: FcRow, nodes: seq<NodeRow>, luns: LunMap): Path {
    Path(row.wwpn, "", LunAt(luns, GroupOf(nodes, row.node)))
  }

  /** Each port the host sees, at its first row. */
  function VisiblePaths(rows: seq<FcRow>, nodes: seq<NodeRow>, luns: LunMap, found: seq<Path>): seq<Path>
    decreases |rows|
  {
    if rows == [] then found
    else if rows[0].wwpn == "" || Listed(found, rows[0].wwpn) then VisiblePaths(rows[1..], nodes, luns, found)
    else VisiblePaths(rows[1..], nodes, luns, found + [FcPath(rows[0], nodes, luns)])
  }

  function ActivePaths(rows: seq<FcRow>, nodes: seq<NodeRow>, luns: LunMap): seq<Path> {
    if rows == [] then []
    else (if rows[0].active then [FcPath(rows[0], nodes, luns)] else []) + ActivePaths(rows[1..], nodes, luns)
  }

  method CollectVisible(rows: seq<FcRow>, nodes: seq<NodeRow>, luns: LunMap) returns (paths: seq<Path>)
    ensures paths == VisiblePaths(rows, nodes, luns, [])
  {
    paths := [];
    for i := 0 to |rows|
      invariant VisiblePaths(rows, nodes, luns, []) == VisiblePaths(rows[i..], nodes, luns, paths)
    {
      assert rows[i..][1..] == rows[i + 1..];
      if rows[i].wwpn != "" {
        var exist := false;
        for j := 0 to |paths|
          invariant !exist && forall k | 0 <= k < j :: paths[k].port != rows[i].wwpn
        {
          if paths[j].port == rows[i].wwpn {
            exist := true;
            break;
          }
        }
        assert exist <==> Listed(paths, rows[i].wwpn);
        if !exist { paths := paths + [FcPath(rows[i], nodes, luns)]; }
      }
    }
  }

  method CollectActive(rows: seq<FcRow>, nodes: seq<NodeRow>, luns: LunMap) returns (paths: seq<Path>)
    ensures paths == ActivePaths(rows, nodes, luns)
  {
    hide FcPath;
    paths := [];
    for i := 0 to |rows|
      invariant ActivePaths(rows, nodes, luns) == paths + ActivePaths(rows[i..], nodes, luns)
    {
      assert rows[i..][1..] == rows[i + 1..];
      if rows[i].active {
        Associative(paths, [FcPath(rows[i], nodes, luns)], ActivePaths(rows[i + 1..], nodes, luns));
        paths := paths + [FcPath(rows[i], nodes, luns)];
      }
    }
  }

  predicate OncePerPort(paths: seq<Path>) { forall i, j | 0 <= i < j < |paths| :: paths[i].port != paths[j].port }

  /** A Fibre Channel host gets each port it sees exactly once, however many logins list it. */
  lemma {:induction false} VisiblePathsExact(rows: seq<FcRow>, nodes: seq<NodeRow>, luns: LunMap, found: seq<Path>)
    requires OncePerPort(found)
    ensures var paths := VisiblePaths(rows, nodes, luns, found);
      && OncePerPort(paths)
      && (forall w :: Listed(paths, w) <==> Listed(found, w) || (w != "" && exists row | row in rows :: row.wwpn == w))
      && (forall p | p in paths :: p in found || exists row | row in rows :: p == FcPath(row, nodes, luns))
    decreases |rows|
  {
    hide LunAt, GroupOf;
    if rows != [] {
      var more := if rows[0].wwpn == "" || Listed(found, rows[0].wwpn) then found
                  else found + [FcPath(rows[0], nodes, luns)];
      forall w ensures Listed(more, w) <==> Listed(found, w) || (w != "" && rows[0].wwpn == w) {
        if more != found && rows[0].wwpn == w { assert more[|found|] in more; }
      }
      VisiblePathsExact(rows[1..], nodes, luns, more);
      assert rows[0] in rows && forall row | row in rows :: row == rows[0] || row in rows[1..];
      assert forall row | row in rows[1..] :: row in rows;
      hide Listed;
    }
  }

  predicate LastNamed(nodes: seq<NodeRow>, name: string, i: nat) {
    i < |nodes| && nodes[i].name == name && forall j | i < j < |nodes| :: nodes[j].name != name
  }

  /** The I/O group of a port's node: that of the last node of the name. */
  lemma {:induction false} GroupOfExact(nodes: seq<NodeRow>, name: string)
    ensures (forall n | n in nodes :: n.name != name) ==> GroupOf(nodes, name) == ""
    ensures forall i: nat | LastNamed(nodes, name, i) :: GroupOf(nodes, name) == nodes[i].iogrp
  {
    if forall n | n in nodes :: n.name != name { NoGroup(nodes, name); }
    forall i: nat | LastNamed(nodes, name, i) ensures GroupOf(nodes, name) == nodes[i].iogrp {
      LastGroup(nodes, name, i);
    }
  }

  lemma {:induction false} NoGroup(nodes: seq<NodeRow>, name: string)
    requires forall n | n in nodes :: n.name != name
    ensures GroupOf(nodes, name) == ""
  {
    if nodes != [] {
      assert nodes[|nodes| - 1] in nodes;
      NoGroup(nodes[..|nodes| - 1], name);
    }
  }

  lemma {:induction false} LastGroup(nodes: seq<NodeRow>, name: string, i: nat)
    requires LastNamed(nodes, name, i)
    ensures GroupOf(nodes, name) == nodes[i].iogrp
  {
    var last := |nodes| - 1;
    if i < last {
      var before := nodes[..last];
      assert nodes[last].name != name;
      assert forall j | i < j < last :: before[j] == nodes[j];
      LastGroup(before, name, i);
    }
  }

  /** The paths are to these ports, in this order, each with the SCSI id of its node's I/O group. */
  predicate ToPorts(paths: seq<Path>, rows: seq<FcRow>, nodes: seq<NodeRow>, luns: LunMap) {
    && |paths| == |rows|
    && forall k | 0 <= k < |paths| ::
         && paths[k].port == rows[k].wwpn && paths[k].portal == ""
         && paths[k].lun == LunAt(luns, GroupOf(nodes, rows[k].node))
  }

  /** Without a port the host is seen at, the paths are to the active ports, one for each of their rows and in the
      order of the rows. */
  lemma {:induction false} ActivePathsExact(rows: seq<FcRow>, nodes: seq<NodeRow>, luns: LunMap)
    ensures ToPorts(ActivePaths(rows, nodes, luns), Filter(rows, (r: FcRow) => r.active), nodes, luns)
  {
    hide ToPorts, FcPath;
    if rows == [] {
      NoPorts(nodes, luns);
    } else {
      var rest, active := ActivePaths(rows[1..], nodes, luns), Filter(rows[1..], (r: FcRow) => r.active);
      ActivePathsExact(rows[1..], nodes, luns);
      OneMorePort(rows[0], rest, active, nodes, luns);
      assert [] + rest == rest;
    }
  }

  lemma {:induction false} NoPorts(nodes: seq<NodeRow>, luns: LunMap)
    ensures ToPorts([], [], nodes, luns)
  {}

  lemma {:induction false} OneMorePort(row: FcRow, rest: seq<Path>, rows: seq<FcRow>, nodes: seq<NodeRow>, luns: LunMap)
    requires ToPorts(rest, rows, nodes, luns)
    ensures ToPorts([FcPath(row, nodes, luns)] + rest, [row] + rows, nodes, luns)
  {
    hide LunAt, GroupOf;
  }

  /** The first row of its port. */
  predicate FirstRow(rows: seq<FcRow>, i: nat) {
    i < |rows| && rows[i].wwpn != "" && forall j | 0 <= j < i :: rows[j].wwpn != rows[i].wwpn
  }

  /** Each port a Fibre Channel host sees is listed with the SCSI id of the node in its first row. */
  lemma {:induction false} VisibleFirst(rows: seq<FcRow>, nodes: seq<NodeRow>, luns: LunMap, p: Path)
    ensures p in VisiblePaths(rows, nodes, luns, [])
      <==> exists i: nat :: FirstRow(rows, i) && p.port == rows[i].wwpn && p.portal == ""
                            && p.lun == LunAt(luns, GroupOf(nodes, rows[i].node))
  {
    hide LunAt, GroupOf;
    VisibleFrom(rows, nodes, luns, [], p);
    forall i: nat ensures FirstRow(rows, i) <==> FirstUnlisted(rows, [], i) {}
  }

  predicate FirstUnlisted(rows: seq<FcRow>, found: seq<Path>, i: nat) {
    FirstRow(rows, i) && !Listed(found, rows[i].wwpn)
  }

  lemma {:induction false} VisibleFrom(rows: seq<FcRow>, nodes: seq<NodeRow>, luns: LunMap, found: seq<Path>, p: Path)
    ensures p in VisiblePaths(rows, nodes, luns, found)
      <==> p in found || exists i: nat :: FirstUnlisted(rows, found, i) && p == FcPath(rows[i], nodes, luns)
    decreases |rows|
  {
    hide FcPath;
    if rows != [] {
      var rest, skip := rows[1..], rows[0].wwpn == "" || Listed(found, rows[0].wwpn);
      var more := if skip then found else found + [FcPath(rows[0], nodes, luns)];
      VisibleFrom(rest, nodes, luns, more, p);
      forall i: nat ensures FirstUnlisted(rest, more, i) <==> FirstUnlisted(rows, found, i + 1) {
        LaterRow(rows, nodes, luns, found, i);
      }
      assert FirstUnlisted(rows, found, 0) <==> !skip;
      if i: nat :| FirstUnlisted(rows, found, i) && p == FcPath(rows[i], nodes, luns) {
        if i > 0 { assert FirstUnlisted(rest, more, i - 1) && rest[i - 1] == rows[i]; }
      }
      if i: nat :| FirstUnlisted(rest, more, i) && p == FcPath(rest[i], nodes, luns) {
        assert FirstUnlisted(rows, found, i + 1) && rest[i] == rows[i + 1];
      }
    }
  }

  lemma {:induction false} LaterRow(rows: seq<FcRow>, nodes: seq<NodeRow>, luns: LunMap, found: seq<Path>, i: nat)
    requires rows != []
    ensures var more := if rows[0].wwpn == "" || Listed(found, rows[0].wwpn) then found
                        else found + [FcPath(rows[0], nodes, luns)];
      FirstUnlisted(rows[1..], more, i) <==> FirstUnlisted(rows, found, i + 1)
  {
    hide LunAt, GroupOf;
    var rest := rows[1..];
    var more := if rows[0].wwpn == "" || Listed(found, rows[0].wwpn) then found
                else found + [FcPath(rows[0], nodes, luns)];
    forall w ensures Listed(more, w) <==> Listed(found, w) || (rows[0].wwpn != "" && rows[0].wwpn == w) {
      if more != found && rows[0].wwpn == w { assert more[|found|] in more; }
    }
    hide Listed;
    if i < |rest| {
      assert (forall j | 0 <= j < i + 1 :: rows[j].wwpn != rows[i + 1].wwpn)
        <==> rows[0].wwpn != rows[i + 1].wwpn && forall j | 0 <= j < i :: rest[j].wwpn != rest[i].wwpn by {
        if rows[0].wwpn != rows[i + 1].wwpn && forall j | 0 <= j < i :: rest[j].wwpn != rest[i].wwpn {
          forall j | 0 <= j < i + 1 ensures rows[j].wwpn != rows[i + 1].wwpn {
            if j > 0 { assert rows[j] == rest[j - 1]; }
          }
        }
        if forall j | 0 <= j < i + 1 :: rows[j].wwpn != rows[i + 1].wwpn {
          forall j | 0 <= j < i ensures rest[j].wwpn != rest[i].wwpn { assert rows[j + 1] == rest[j]; }
        }
      }
    }
  }
}
