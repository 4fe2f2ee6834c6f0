/** The SCSI ids and the paths an attach answers with: they are those of the mapping rows. */
module HostLuns {
  import opened Wrappers
  import opened Lists
  import opened HostArray
  import opened HostPaths
  import opened Hosts
  import opened HostLookup
  import opened HostOutcomes
  import opened HostFaults

  /* ---- SCSI ids ---- */

  predicate RowOfPair(r: MapRow, volume: string, host: string) { r.volume == volume && r.host == host }

  /** The i-th row is the last of this volume and host in its I/O group. */
  predicate LastRow(rows: seq<MapRow>, volume: string, host: string, i: nat) {
    && i < |rows| && RowOfPair(rows[i], volume, host)
    && forall j | i < j < |rows| && RowOfPair(rows[j], volume, host) :: rows[j].iogrp != rows[i].iogrp
  }

  /** The I/O groups of the volume's rows for the host, each with the SCSI id of its last row. */
  ghost predicate ListsLuns(luns: LunMap, rows: seq<MapRow>, volume: string, host: string) {
    && (forall g :: g in luns <==> exists r | r in rows :: RowOfPair(r, volume, host) && r.iogrp == g)
    && (forall i: nat | LastRow(rows, volume, host, i) :: rows[i].iogrp in luns && luns[rows[i].iogrp] == rows[i].scsi)
  }

  lemma {:induction false} LastAmongAll(rows: seq<MapRow>, volume: string)
    requires rows != []
    ensures var last := |rows| - 1;
      RowsOf(rows, volume) == RowsOf(rows[..last], volume) + if rows[last].volume == volume then [rows[last]] else []
  {
    var last := |rows| - 1;
    var of := (r: MapRow) => r.volume == volume;
    assert rows == rows[..last] + [rows[last]];
    FilterAppend(rows[..last], [rows[last]], of);
    assert [rows[last]][1..] == [];
  }

  /** What getLunID collects, told by the array's rows alone. */
  lemma {:induction false} LunsExact(rows: seq<MapRow>, volume: string, host: string)
    ensures ListsLuns(LunIds(RowsOf(rows, volume), host), rows, volume, host)
  {
    if rows != [] {
      var last := |rows| - 1;
      var before, row := rows[..last], rows[last];
      LunsExact(before, volume, host);
      LastAmongAll(rows, volume);
      hide RowsOf, ListsLuns;
      OneMoreRow(RowsOf(before, volume), row, host);
      ListsOneMore(LunIds(RowsOf(before, volume), host), before, row, volume, host);
      assert RowsOf(before, volume) + [] == RowsOf(before, volume) && before + [row] == rows;
    }
  }

  lemma {:induction false} ListsOneMore(luns: LunMap, rows: seq<MapRow>, row: MapRow, volume: string, host: string)
    requires ListsLuns(luns, rows, volume, host)
    ensures ListsLuns(if RowOfPair(row, volume, host) then luns[row.iogrp := row.scsi] else luns,
                      rows + [row], volume, host)
  {
    var more, next := rows + [row], if RowOfPair(row, volume, host) then luns[row.iogrp := row.scsi] else luns;
    forall g ensures g in next <==> exists r | r in more :: RowOfPair(r, volume, host) && r.iogrp == g {
      assert forall r :: r in more <==> r in rows || r == row;
    }
    forall i: nat | LastRow(more, volume, host, i)
      ensures more[i].iogrp in next && next[more[i].iogrp] == more[i].scsi
    {
      if i < |rows| {
        assert LastRow(rows, volume, host, i) by {
          forall j | i < j < |rows| && RowOfPair(rows[j], volume, host) ensures rows[j].iogrp != rows[i].iogrp {
            assert more[j] == rows[j];
          }
        }
        assert more[|rows|] == row;
      }
    }
  }

  lemma {:induction false} OneMoreRow(rows: seq<MapRow>, row: MapRow, host: string)
    ensures LunIds(rows + [row], host)
      == if row.host == host then LunIds(rows, host)[row.iogrp := row.scsi] else LunIds(rows, host)
  {
    assert (rows + [row])[..|rows|] == rows;
  }

  /** The SCSI ids an attach answers with are those of the rows that are there afterwards, whatever failed on the
      way, and the rows it has made are of this volume and host, with an id that no other row of the host has. */
  lemma {:induction false} AttachAnswers(s: State, volume: string, info: HostInfo)
    requires RowsAttached(s) && Attach(s, volume, info).1.Ok?
    ensures var (t, r) := Attach(s, volume, info);
      var host, luns := HostOf(s, info), OrEmpty(r.value);
      && ListsLuns(luns, t.rows, volume, host) && s.rows <= t.rows
      && forall i | |s.rows| <= i < |t.rows| ::
           && RowOfPair(t.rows[i], volume, host)
           && t.rows[i].iogrp in luns && luns[t.rows[i].iogrp] == t.rows[i].scsi
           && forall r | r in s.rows && r.host == host :: r.scsi != t.rows[i].scsi
  {
    hide HostFor, PreferSite, CreateHost, Creatable, Answers, HostExists, AllAnswer, ListsLuns, Mapped, MapToHost;
    AttachOutcome(s, volume, info);
    var (t, r) := Attach(s, volume, info);
    var host := HostOf(s, info);
    AnswerIsRead(s, volume, info);
    LunsExact(t.rows, volume, host);
    if IsMapped(s.rows, volume, host) {
    } else {
      var base := if HostFor(s, info).1.value != "" then s
                  else s.(hosts := s.hosts + [FullHost(info, PreferSite(HostFor(s, info).0, volume).1.value)]);
      NewRowsAnswered(base, volume, host, OrEmpty(r.value));
    }
  }

  lemma {:induction false} AnswerIsRead(s: State, volume: string, info: HostInfo)
    requires RowsAttached(s) && Attach(s, volume, info).1.Ok?
    ensures var (t, r) := Attach(s, volume, info);
      OrEmpty(r.value) == LunIds(RowsOf(t.rows, volume), HostOf(s, info))
  {
    hide HostFor, PreferSite, CreateHost, LunIds, RowsOf, Execute;
    var (s1, found) := HostFor(s, info);
    if found.value == "" {
      var (u, site) := PreferSite(s1, volume);
      NameOfNew(u, info, site.value);
    }
  }

  lemma {:induction false} NameOfNew(u: State, info: HostInfo, site: string)
    ensures CreateHost(u, info, site).1.Ok? ==> CreateHost(u, info, site).1.value == info.hostname
  {
    hide Execute, AddPorts;
  }

  lemma {:induction false} NewRowsAnswered(s: State, volume: string, host: string, luns: LunMap)
    requires volume in s.volumes && !IsMapped(s.rows, volume, host)
    requires ListsLuns(luns, Mapped(s, volume, host).rows, volume, host)
    ensures var rows := Mapped(s, volume, host).rows;
      && s.rows <= rows
      && forall i | |s.rows| <= i < |rows| ::
           && RowOfPair(rows[i], volume, host)
           && rows[i].iogrp in luns && luns[rows[i].iogrp] == rows[i].scsi
           && forall r | r in s.rows && r.host == host :: r.scsi != rows[i].scsi
  {
    hide NextScsi, IsMapped, LastRow;
    var rows, n, groups := Mapped(s, volume, host).rows, |s.rows|, s.volumes[volume].groups;
    var id := NextScsi(s.rows, host);
    var more := NewRows(volume, host, groups, id);
    hide Mapped, NewRows;
    forall i | n <= i < |rows|
      ensures RowOfPair(rows[i], volume, host) && rows[i].scsi == id
      ensures rows[i].iogrp in luns && luns[rows[i].iogrp] == id
    {
      var j := LastOfGroup(rows, volume, host, i);
      assert rows[i] == more[i - n] && rows[j] == more[j - n];
    }
  }

  lemma {:induction false} LastOfGroup(rows: seq<MapRow>, volume: string, host: string, i: nat) returns (j: nat)
    requires i < |rows| && RowOfPair(rows[i], volume, host)
    ensures i <= j && LastRow(rows, volume, host, j) && rows[j].iogrp == rows[i].iogrp
    decreases |rows| - i
  {
    if k :| i < k < |rows| && RowOfPair(rows[k], volume, host) && rows[k].iogrp == rows[i].iogrp {
      j := LastOfGroup(rows, volume, host, k);
    } else {
      j := i;
    }
  }

  /** Reading the SCSI ids answers with those of the rows, and none exactly when the volume is not mapped. */
  lemma {:induction false} ReadExact(s: State, volume: string, host: string)
    ensures var (t, r) := GetLunId(s, volume, host);
      && SameTables(s, t) && (r.Ok? <==> Up(s))
      && (r.Ok? ==>
            && (r.value.Some? <==> IsMapped(s.rows, volume, host))
            && ListsLuns(OrEmpty(r.value), s.rows, volume, host))
  {
    hide IsMapped, ListsLuns, LunIds, RowsOf;
    LunsIffMapped(s, volume, host);
    LunsExact(s.rows, volume, host);
  }

  /* ---- paths ---- */

  /** The SCSI id of the volume for the host in this I/O group, told by the rows: None without one. */
  ghost predicate LunOfGroup(lun: Option<nat>, rows: seq<MapRow>, volume: string, host: string, group: string) {
    && (lun.Some? <==> exists r | r in rows :: RowOfPair(r, volume, host) && r.iogrp == group)
    && forall i: nat | LastRow(rows, volume, host, i) && rows[i].iogrp == group :: lun == Some(rows[i].scsi)
  }

  lemma {:induction false} LunOfGroupExact(luns: LunMap, rows: seq<MapRow>, volume: string, host: string, group: string,
                                           lun: Option<nat>)
    requires ListsLuns(luns, rows, volume, host)
    ensures LunOfGroup(lun, rows, volume, host, group) <==> lun == LunAt(luns, group)
  {
    if group in luns {
      var r :| r in rows && RowOfPair(r, volume, host) && r.iogrp == group;
      var i :| 0 <= i < |rows| && rows[i] == r;
      var j := LastOfGroup(rows, volume, host, i);
    } else {
      forall i: nat | LastRow(rows, volume, host, i) ensures rows[i].iogrp != group { assert rows[i] in rows; }
    }
  }

  /** Which of the path lists is answered, whatever fails: for Fibre Channel that of the ports the host is seen
      at, when it can be asked for and is not empty, else that of all active ports. */
  lemma {:induction false} ConnectAnswers(s: State, luns: LunMap, net: Net)
    requires Connect(s, luns, net).1.Ok?
    ensures Connect(s, luns, net).1.value
      == if net.link == ISCSI_LINK then IscsiPaths(net.ips, net.nodes, luns)
         else if Answers(s, 1) && exists row | row in net.visible :: row.wwpn != "" then
           VisiblePaths(net.visible, net.nodes, luns, [])
         else ActivePaths(net.ports, net.nodes, luns)
    ensures net.link == ISCSI_LINK || net.link == FC_LINK
  {
    hide IscsiPaths, ActivePaths, VisiblePaths;
    AnswersFrom(s, Spend(s));
    SeenOrNot(net.visible, net.nodes, luns);
  }

  lemma {:induction false} SeenOrNot(rows: seq<FcRow>, nodes: seq<NodeRow>, luns: LunMap)
    ensures VisiblePaths(rows, nodes, luns, []) != [] <==> exists row | row in rows :: row.wwpn != ""
  {
    hide FcPath;
    VisiblePathsExact(rows, nodes, luns, []);
    var paths := VisiblePaths(rows, nodes, luns, []);
    hide VisiblePaths;
    if paths != [] { assert paths[0] in paths && Listed(paths, paths[0].port); }
    forall row | row in rows && row.wwpn != "" ensures paths != [] { assert Listed(paths, row.wwpn); }
  }

  /** The paths lead by these ports and addresses, each to the volume's SCSI id in the I/O group of the node,
      as the rows have it. */
  ghost predicate RightPaths(paths: seq<Path>, net: Net, seen: bool, rows: seq<MapRow>, volume: string, host: string) {
    if net.link == ISCSI_LINK then
      forall p :: p in paths
        <==> exists row, n | row in net.ips && n in net.nodes ::
               LeadsTo(p, row, n) && LunOfGroup(p.lun, rows, volume, host, n.iogrp)
    else if seen && exists row | row in net.visible :: row.wwpn != "" then
      forall p :: p in paths
        <==> exists i: nat :: FirstRow(net.visible, i) && p.port == net.visible[i].wwpn && p.portal == ""
               && LunOfGroup(p.lun, rows, volume, host, GroupOf(net.nodes, net.visible[i].node))
    else
      var active := Filter(net.ports, (r: FcRow) => r.active);
      && |paths| == |active|
      && forall k | 0 <= k < |paths| ::
           && paths[k].port == active[k].wwpn && paths[k].portal == ""
           && LunOfGroup(paths[k].lun, rows, volume, host, GroupOf(net.nodes, active[k].node))
  }

  lemma {:induction false} ConnectRight(s: State, luns: LunMap, net: Net, rows: seq<MapRow>, volume: string,
                                        host: string)
    requires ListsLuns(luns, rows, volume, host) && Connect(s, luns, net).1.Ok?
    ensures RightPaths(Connect(s, luns, net).1.value, net, Answers(s, 1), rows, volume, host)
  {
    hide Connect, ListsLuns, LunOfGroup, LunAt, GroupOf, LeadsTo, IscsiPaths, ActivePaths, VisiblePaths;
    hide Answers;
    ConnectAnswers(s, luns, net);
    forall lun, group ensures LunOfGroup(lun, rows, volume, host, group) <==> lun == LunAt(luns, group) {
      LunOfGroupExact(luns, rows, volume, host, group, lun);
    }
    var paths := Connect(s, luns, net).1.value;
    if net.link == ISCSI_LINK {
      forall p
        ensures p in paths
          <==> exists row, n | row in net.ips && n in net.nodes ::
                 LeadsTo(p, row, n) && LunOfGroup(p.lun, rows, volume, host, n.iogrp)
      {
        IscsiPathsExact(net.ips, net.nodes, luns, p);
      }
    } else if Answers(s, 1) && exists row | row in net.visible :: row.wwpn != "" {
      forall p
        ensures p in paths
          <==> exists i: nat :: FirstRow(net.visible, i) && p.port == net.visible[i].wwpn && p.portal == ""
                 && LunOfGroup(p.lun, rows, volume, host, GroupOf(net.nodes, net.visible[i].node))
      {
        VisibleFirst(net.visible, net.nodes, luns, p);
      }
    } else {
      ActivePathsExact(net.ports, net.nodes, luns);
    }
  }

  /** An attach answers with the paths to the volume as it is mapped afterwards, for either protocol and whatever
      failed on the way. */
  lemma {:induction false} AttachPaths(s: State, volume: string, info: HostInfo, net: Net)
    requires RowsAttached(s) && AttachAndConnect(s, volume, info, net).1.Ok?
    ensures var (mapped, luns) := Attach(s, volume, info);
      var (t, r) := AttachAndConnect(s, volume, info, net);
      luns.Ok? && SameTables(mapped, t)
      && RightPaths(r.value, net, Answers(mapped, 1), t.rows, volume, HostOf(s, info))
  {
    hide Attach, Connect, ListsLuns, RightPaths, HostOf, Answers;
    var (mapped, luns) := Attach(s, volume, info);
    AttachAnswers(s, volume, info);
    ConnectKeeps(mapped, OrEmpty(luns.value), net);
    ConnectRight(mapped, OrEmpty(luns.value), net, mapped.rows, volume, HostOf(s, info));
  }

  /** GetVolumeAttachInfo answers with the same for a volume that is mapped, without changing anything. */
  lemma {:induction false} InfoPaths(s: State, volume: string, info: HostInfo, net: Net)
    requires AttachInfo(s, volume, info, net).1.Ok? && AttachInfo(s, volume, info, net).1.value.Some?
    ensures var (t, r) := AttachInfo(s, volume, info, net);
      && HostFor(s, info).1 == Ok(HostOf(s, info)) && IsMapped(s.rows, volume, HostOf(s, info)) && SameTables(s, t)
      && RightPaths(r.value.value, net, Answers(Spend(HostFor(s, info).0), 1), s.rows, volume, HostOf(s, info))
  {
    hide HostFor, GetLunId, Connect, ListsLuns, RightPaths, Answers, IsMapped;
    var (s1, found) := HostFor(s, info);
    SearchKeeps(s, info);
    ReadExact(s1, volume, found.value);
    var (s2, luns) := GetLunId(s1, volume, found.value);
    ReadSpends(s1, volume, found.value);
    ConnectKeeps(s2, luns.value.value, net);
    ConnectRight(s2, luns.value.value, net, s.rows, volume, found.value);
  }

  lemma {:induction false} ReadSpends(s: State, volume: string, host: string)
    ensures GetLunId(s, volume, host).0 == Spend(s)
  {}
}
