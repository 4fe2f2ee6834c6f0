/** Listing volumes and snapshots page by page, and following the tokens from page to page. */
module Pages {
  import opened Wrappers
  import opened Text
  import As18000

  /** A listed row: its id as text, the name that becomes the key of the page, and what is said of it. */
  datatype Entry = Entry(id: string, key: string, value: string)

  type Page = map<string, string>

  predicate Numeric(e: Entry) { Atoi(e.id).ok }

  function Id(e: Entry): int { Atoi(e.id).value }

  /** The page filled row by row, and the id of the first row that finds it full. */
  function Collect(rows: seq<Entry>, start: int, max: int, page: Page): (Page, string)
    decreases |rows|
  {
    if rows == [] then (page, "")
    else if !Numeric(rows[0]) || Id(rows[0]) < start then Collect(rows[1..], start, max, page)
    else if |page| < max then Collect(rows[1..], start, max, page[rows[0].key := rows[0].value])
    else (page, rows[0].id)
  }

  datatype Listing = Listing(page: Page, next: string) | BadToken | QueryFailed | NoSource

  function StartOf(token: string): ParsedInt { if token == "" then ParsedInt(-1, true) else Atoi(token) }

  /** `rows` is what the array lists, None when the query fails. */
  function VolumePage(rows: Option<seq<Entry>>, max: int, token: string): Listing {
    if !StartOf(token).ok then BadToken
    else if rows.None? then QueryFailed
    else
      var (page, next) := Collect(rows.value, StartOf(token).value, if max > 0 then max else 64, map[]);
      Listing(page, next)
  }

  /** A snapshot's row is listed with its map's start time in the form CreateSnapshot reports it in. */
  function Timed(rows: seq<Entry>): (timed: seq<Entry>)
    ensures |timed| == |rows|
    ensures forall i | 0 <= i < |rows| :: timed[i] == rows[i].(value := As18000.StdTime(rows[i].value))
  {
    seq(|rows|, i requires 0 <= i < |rows| => rows[i].(value := As18000.StdTime(rows[i].value)))
  }

  function SnapshotPage(rows: Option<seq<Entry>>, max: int, token: string, source: string): Listing {
    if !StartOf(token).ok then BadToken
    else if source == "" then NoSource
    else if rows.None? then QueryFailed
    else
      var (page, next) := Collect(Timed(rows.value), StartOf(token).value, if max < 64 then max else 64, map[]);
      Listing(page, next)
  }

  method ListVolume(rows: Option<seq<Entry>>, maxEntries: int, startingToken: string) returns (r: Listing)
    ensures r == VolumePage(rows, maxEntries, startingToken)
  {
    var maxCount := 64;
    if maxEntries > 0 { maxCount := maxEntries; }
    var startId := -1;
    if startingToken != "" {
      var parsed := Atoi(startingToken);
      if !parsed.ok { return BadToken; }
      startId := parsed.value;
    }
    if rows.None? { return QueryFailed; }
    var page: Page, next := map[], "";
    for i := 0 to |rows.value|
      invariant |page| <= maxCount && next == ""
      invariant Collect(rows.value, startId, maxCount, map[]) == Collect(rows.value[i..], startId, maxCount, page)
    {
      var row := rows.value[i];
      assert rows.value[i..][1..] == rows.value[i + 1..];
      if !Numeric(row) { continue; }
      if Id(row) < startId { continue; }
      if |page| < maxCount {
        page := page[row.key := row.value];
      } else if |page| == maxCount {
        next := row.id;
        break;
      }
    }
    return Listing(page, next);
  }

  method ListSnapshots(rows: Option<seq<Entry>>, maxEntries: int, startingToken: string, source: string)
    returns (r: Listing)
    ensures r == SnapshotPage(rows, maxEntries, startingToken, source)
  {
    var maxCount := if maxEntries < 64 then maxEntries else 64;
    var startId := -1;
    if startingToken != "" {
      var parsed := Atoi(startingToken);
      if !parsed.ok { return BadToken; }
      startId := parsed.value;
    }
    if source == "" { return NoSource; }
    if rows.None? { return QueryFailed; }
    var page: Page, next := map[], "";
    ghost var timed := Timed(rows.value);
    for i := 0 to |rows.value|
      invariant next == ""
      invariant Collect(timed, startId, maxCount, map[]) == Collect(timed[i..], startId, maxCount, page)
    {
      var row := rows.value[i];
      assert timed[i..][1..] == timed[i + 1..];
      if !Numeric(row) { continue; }
      if Id(row) < startId { continue; }
      if |page| < maxCount {
        page := page[row.key := As18000.StdTime(row.value)];
      } else {
        next := row.id;
        break;
      }
    }
    return Listing(page, next);
  }

  /* ---- what is still to be listed ---- */

  function Remaining(rows: seq<Entry>, start: int): (rest: seq<Entry>)
    ensures forall e :: e in rest <==> e in rows && Numeric(e) && Id(e) >= start
  {
    if rows == [] then []
    else if Numeric(rows[0]) && Id(rows[0]) >= start then [rows[0]] + Remaining(rows[1..], start)
    else Remaining(rows[1..], start)
  }

  /** Numeric ids ascend and are not negative. */
  predicate Ascending(rows: seq<Entry>) {
    && (forall e | e in rows && Numeric(e) :: Id(e) >= 0)
    && (forall i, j | 0 <= i < j < |rows| && Numeric(rows[i]) && Numeric(rows[j]) :: Id(rows[i]) < Id(rows[j]))
  }

  predicate DistinctKeys(rows: seq<Entry>) {
    forall i, j | 0 <= i < j < |rows| :: rows[i].key != rows[j].key
  }

  function Fill(page: Page, rows: seq<Entry>): Page
    decreases |rows|
  {
    if rows == [] then page else Fill(page[rows[0].key := rows[0].value], rows[1..])
  }

  lemma {:induction false} FillFacts(page: Page, rows: seq<Entry>)
    requires DistinctKeys(rows) && forall e | e in rows :: e.key !in page
    ensures var filled := Fill(page, rows);
      && |filled| == |page| + |rows|
      && (forall e | e in rows :: e.key in filled && filled[e.key] == e.value)
      && (forall key | key in page :: key in filled && filled[key] == page[key])
      && (forall key | key in filled :: key in page || exists e | e in rows :: e.key == key)
    decreases |rows|
  {
    if rows != [] {
      var next := page[rows[0].key := rows[0].value];
      assert forall e | e in rows[1..] :: e in rows && e.key != rows[0].key;
      assert rows[0] in rows && next.Keys == page.Keys + {rows[0].key};
      FillFacts(next, rows[1..]);
      assert forall e | e in rows :: e == rows[0] || e in rows[1..];
    }
  }

  lemma {:induction false} RemainingDistinct(rows: seq<Entry>, start: int)
    requires DistinctKeys(rows)
    ensures DistinctKeys(Remaining(rows, start))
  {
    if rows != [] {
      RemainingDistinct(rows[1..], start);
      var rest := Remaining(rows[1..], start);
      forall j | 0 <= j < |rest| ensures rest[j].key != rows[0].key {
        assert rest[j] in rest;
        var i :| 0 <= i < |rows[1..]| && rows[1..][i] == rest[j];
        assert rows[i + 1] == rest[j];
      }
    }
  }

  lemma {:induction false} AscendingTail(rows: seq<Entry>)
    requires Ascending(rows) && rows != []
    ensures Ascending(rows[1..])
    ensures Numeric(rows[0]) ==> forall e | e in rows[1..] && Numeric(e) :: Id(e) > Id(rows[0])
  {
    hide Numeric, Id;
    forall e | e in rows[1..] ensures e in rows && (Numeric(rows[0]) && Numeric(e) ==> Id(e) > Id(rows[0])) {
      var i :| 0 <= i < |rows[1..]| && rows[1..][i] == e;
      assert rows[i + 1] == e;
    }
    forall i, j | 0 <= i < j < |rows[1..]| && Numeric(rows[1..][i]) && Numeric(rows[1..][j])
      ensures Id(rows[1..][i]) < Id(rows[1..][j])
    {
      assert rows[i + 1] == rows[1..][i] && rows[j + 1] == rows[1..][j];
    }
  }

  /** Starting over at a remaining row leaves that row and what follows it. */
  lemma {:induction false} RemainingFrom(rows: seq<Entry>, start: int, k: nat)
    requires Ascending(rows) && k < |Remaining(rows, start)|
    ensures Remaining(rows, Id(Remaining(rows, start)[k])) == Remaining(rows, start)[k..]
  {
    hide Numeric, Id, Ascending;
    var rest := Remaining(rows[1..], start);
    assert rows[0] in rows && forall e | e in rows[1..] :: e in rows;
    AscendingTail(rows);
    assert Remaining(rows, start)[k] in Remaining(rows, start);
    if Numeric(rows[0]) && Id(rows[0]) >= start {
      if k == 0 {
        SameRemaining(rows[1..], start, Id(rows[0]));
      } else {
        assert rest[k - 1] in rest;
        RemainingFrom(rows[1..], start, k - 1);
        assert Remaining(rows, start)[k..] == rest[k - 1..];
      }
    } else {
      RemainingFrom(rows[1..], start, k);
    }
  }

  lemma {:induction false} SameRemaining(rows: seq<Entry>, a: int, b: int)
    requires forall e | e in rows && Numeric(e) :: Id(e) >= a && Id(e) >= b
    ensures Remaining(rows, a) == Remaining(rows, b)
  {
    if rows != [] {
      assert rows[0] in rows;
      SameRemaining(rows[1..], a, b);
    }
  }

  /* ---- one page ---- */

  lemma {:induction false} HeadApart(e: Entry, tail: seq<Entry>, page: Page)
    requires DistinctKeys([e] + tail) && forall f | f in [e] + tail :: f.key !in page
    ensures DistinctKeys(tail) && e.key !in page && forall f | f in tail :: f.key !in page[e.key := e.value]
    ensures |page[e.key := e.value]| == |page| + 1
  {
    var rest := [e] + tail;
    assert rest[0] == e && e in rest;
    forall i | 0 <= i < |tail| ensures rest[i + 1] == tail[i] && tail[i] in rest && tail[i].key != e.key {
      assert rest[i + 1] in rest;
    }
    assert page[e.key := e.value].Keys == page.Keys + {e.key};
  }

  lemma {:induction false} CollectExact(rows: seq<Entry>, start: int, max: int, page: Page)
    requires |page| <= max && DistinctKeys(Remaining(rows, start))
    requires forall e | e in Remaining(rows, start) :: e.key !in page
    ensures var rest, room := Remaining(rows, start), max - |page|;
      Collect(rows, start, max, page)
      == if |rest| <= room then (Fill(page, rest), "") else (Fill(page, rest[..room]), rest[room].id)
    decreases |rows|
  {
    hide Numeric, Id, DistinctKeys, Fill;
    FillNone(page);
    if rows != [] {
      var e, tail, room := rows[0], Remaining(rows[1..], start), max - |page|;
      if !Numeric(e) || Id(e) < start {
        CollectExact(rows[1..], start, max, page);
      } else {
        HeadApart(e, tail, page);
        if room > 0 {
          var next := page[e.key := e.value];
          CollectExact(rows[1..], start, max, next);
          FillMore(page, e, tail);
          if |tail| >= room {
            FillMore(page, e, tail[..room - 1]);
            assert ([e] + tail)[..room] == [e] + tail[..room - 1];
          }
        }
      }
    }
  }

  lemma {:induction false} FillNone(page: Page)
    ensures Fill(page, []) == page
  {}

  lemma {:induction false} FillMore(page: Page, e: Entry, rows: seq<Entry>)
    ensures Fill(page, [e] + rows) == Fill(page[e.key := e.value], rows)
  {
    assert ([e] + rows)[1..] == rows;
  }

  /* ---- following the tokens ---- */

  /** A listing that can be walked: at least one row a page, ids ascending, names distinct. */
  predicate Walkable(rows: seq<Entry>, max: int) {
    max >= 1 && Ascending(rows) && DistinctKeys(rows) && NoEmptyIds(rows)
  }

  predicate NoEmptyIds(rows: seq<Entry>) { forall e | e in rows && Numeric(e) :: e.id != "" }

  lemma {:induction false} NumericIsNotEmpty(rows: seq<Entry>)
    ensures NoEmptyIds(rows)
  {}

  lemma {:induction false} OnePage(rows: seq<Entry>, token: string, max: int)
    requires Walkable(rows, max) && StartOf(token).ok
    ensures var rest := Remaining(rows, StartOf(token).value);
      var (page, next) := Collect(rows, StartOf(token).value, max, map[]);
      && (|rest| <= max ==> page == Fill(map[], rest) && next == "")
      && (|rest| > max ==>
            && page == Fill(map[], rest[..max]) && next != ""
            && StartOf(next).ok && Remaining(rows, StartOf(next).value) == rest[max..])
  {
    hide Collect, Atoi;
    var start := StartOf(token).value;
    var rest := Remaining(rows, start);
    RemainingDistinct(rows, start);
    CollectExact(rows, start, max, map[]);
    if |rest| > max {
      assert rest[max] in rest;
      RemainingFrom(rows, start, max);
    }
  }

  /** All pages from a token on, while each names a next one. */
  function Walk(rows: seq<Entry>, max: int, token: string): seq<Page>
    requires Walkable(rows, max) && StartOf(token).ok
    decreases |Remaining(rows, StartOf(token).value)|
  {
    OnePage(rows, token, max);
    var (page, next) := Collect(rows, StartOf(token).value, max, map[]);
    if next == "" then [page] else [page] + Walk(rows, max, next)
  }

  /** A list cut into stretches of `max` rows; one empty stretch when there are none. */
  function Stretches(rows: seq<Entry>, max: int): (stretches: seq<seq<Entry>>)
    requires max >= 1
    ensures |stretches| >= 1
    decreases |rows|
  {
    if |rows| <= max then [rows] else [rows[..max]] + Stretches(rows[max..], max)
  }

  function Flatten(stretches: seq<seq<Entry>>): seq<Entry> {
    if stretches == [] then [] else stretches[0] + Flatten(stretches[1..])
  }

  /** The stretches follow each other without loss, all full but the last. */
  lemma {:induction false} StretchFacts(rows: seq<Entry>, max: int)
    requires max >= 1
    ensures var stretches := Stretches(rows, max);
      && Flatten(stretches) == rows
      && (forall k | 0 <= k < |stretches| - 1 :: |stretches[k]| == max)
      && |stretches[|stretches| - 1]| <= max
      && (rows != [] ==> stretches[|stretches| - 1] != [])
    decreases |rows|
  {
    if |rows| <= max {
      assert Flatten([rows]) == rows + Flatten([]) == rows;
    } else {
      StretchFacts(rows[max..], max);
      var tail := Stretches(rows[max..], max);
      assert ([rows[..max]] + tail)[1..] == tail && rows[..max] + rows[max..] == rows;
    }
  }

  lemma {:induction false} WalkableMax(rows: seq<Entry>, max: int)
    requires Walkable(rows, max)
    ensures max >= 1
  {}

  /** Following the tokens ends, and gives one page for each stretch of the remaining rows. */
  lemma {:induction false} WalkExact(rows: seq<Entry>, max: int, token: string)
    requires Walkable(rows, max) && StartOf(token).ok
    ensures var stretches, pages := Stretches(Remaining(rows, StartOf(token).value), max), Walk(rows, max, token);
      && |pages| == |stretches|
      && forall k | 0 <= k < |pages| :: pages[k] == Fill(map[], stretches[k])
    decreases |Remaining(rows, StartOf(token).value)|
  {
    hide Walkable, Collect, StartOf, Fill;
    var start := StartOf(token).value;
    var rest := Remaining(rows, start);
    WalkableMax(rows, max);
    OnePage(rows, token, max);
    if |rest| > max { WalkExact(rows, max, Collect(rows, start, max, map[]).1); }
  }

  predicate Holds(page: Page, e: Entry) { e.key in page && page[e.key] == e.value }

  /** Some page holds the row. */
  ghost predicate PageHeld(pages: seq<Page>, e: Entry) { exists k | 0 <= k < |pages| :: Holds(pages[k], e) }

  /** The page holds these rows and nothing else. */
  ghost predicate PageOf(page: Page, rows: seq<Entry>) {
    && |page| == |rows|
    && (forall e | e in rows :: Holds(page, e))
    && (forall key | key in page :: exists e | e in rows :: e.key == key)
  }

  ghost predicate InSome(stretches: seq<seq<Entry>>, e: Entry) {
    exists k | 0 <= k < |stretches| :: e in stretches[k]
  }

  lemma {:induction false} InFlatten(stretches: seq<seq<Entry>>, e: Entry)
    ensures e in Flatten(stretches) <==> InSome(stretches, e)
  {
    if stretches != [] {
      InFlatten(stretches[1..], e);
      if InSome(stretches, e) && e !in stretches[0] {
        var k :| 0 <= k < |stretches| && e in stretches[k];
        assert e in stretches[1..][k - 1];
      }
      if InSome(stretches[1..], e) {
        var k :| 0 <= k < |stretches[1..]| && e in stretches[1..][k];
        assert e in stretches[k + 1];
      }
    }
  }

  lemma {:induction false} DistinctHalves(a: seq<Entry>, b: seq<Entry>)
    requires DistinctKeys(a + b)
    ensures DistinctKeys(a) && DistinctKeys(b) && forall e, f | e in a && f in b :: e.key != f.key
  {
    forall i, j | 0 <= i < j < |a| ensures a[i].key != a[j].key {
      assert (a + b)[i] == a[i] && (a + b)[j] == a[j];
    }
    forall i, j | 0 <= i < j < |b| ensures b[i].key != b[j].key {
      assert (a + b)[|a| + i] == b[i] && (a + b)[|a| + j] == b[j];
    }
    forall i, j | 0 <= i < |a| && 0 <= j < |b| ensures a[i].key != b[j].key {
      assert (a + b)[i] == a[i] && (a + b)[|a| + j] == b[j];
    }
  }

  /** Stretches of rows with distinct keys have no key in common. */
  lemma {:induction false} StretchesApart(stretches: seq<seq<Entry>>, k: nat, l: nat)
    requires DistinctKeys(Flatten(stretches)) && k < l < |stretches|
    ensures forall e, f | e in stretches[k] && f in stretches[l] :: e.key != f.key
  {
    hide DistinctKeys;
    DistinctHalves(stretches[0], Flatten(stretches[1..]));
    if k == 0 {
      forall f | f in stretches[l] ensures f in Flatten(stretches[1..]) {
        assert stretches[l] == stretches[1..][l - 1];
        assert InSome(stretches[1..], f);
        InFlatten(stretches[1..], f);
      }
    } else {
      StretchesApart(stretches[1..], k - 1, l - 1);
    }
  }

  lemma {:induction false} StretchDistinct(stretches: seq<seq<Entry>>, k: nat)
    requires DistinctKeys(Flatten(stretches)) && k < |stretches|
    ensures DistinctKeys(stretches[k])
  {
    DistinctHalves(stretches[0], Flatten(stretches[1..]));
    if k > 0 { StretchDistinct(stretches[1..], k - 1); }
  }

  lemma {:induction false} StretchPage(rows: seq<Entry>)
    requires DistinctKeys(rows)
    ensures PageOf(Fill(map[], rows), rows)
  {
    FillFacts(map[], rows);
  }

  lemma {:induction false} AllRemain(rows: seq<Entry>, max: int)
    requires Walkable(rows, max)
    ensures DistinctKeys(Remaining(rows, -1))
    ensures forall e :: e in Remaining(rows, -1) <==> e in rows && Numeric(e)
  {
    hide Atoi;
    RemainingDistinct(rows, -1);
  }

  lemma {:induction false} PagesHoldAll(rows: seq<Entry>, max: int)
    requires Walkable(rows, max)
    ensures forall e | e in rows && Numeric(e) :: PageHeld(Walk(rows, max, ""), e)
    ensures forall k, key | 0 <= k < |Walk(rows, max, "")| && key in Walk(rows, max, "")[k] ::
      exists e | e in rows :: Numeric(e) && e.key == key
  {
    hide Walkable, Walk, Fill, Atoi, Stretches, DistinctKeys, Flatten, PagesOf, Numeric, Holds, PageHeld;
    WalkableMax(rows, max);
    var all := Remaining(rows, -1);
    var pages, stretches := Walk(rows, max, ""), Stretches(all, max);
    AllRemain(rows, max);
    WalkPages(rows, max);
    StretchFacts(all, max);
    forall e | e in rows && Numeric(e) ensures PageHeld(pages, e) { RowIsHeld(pages, stretches, e); }
    forall k, key | 0 <= k < |pages| && key in pages[k] ensures exists e | e in rows :: Numeric(e) && e.key == key {
      var e := KeyIsOfRow(pages, stretches, k, key);
    }
  }

  lemma {:induction false} PagesAreFull(rows: seq<Entry>, max: int)
    requires Walkable(rows, max)
    ensures var pages := Walk(rows, max, "");
      && |pages| >= 1 && |pages[|pages| - 1]| <= max
      && forall k | 0 <= k < |pages| - 1 :: |pages[k]| == max
  {
    hide Walkable, Walk, Fill, Atoi, Stretches, DistinctKeys, Flatten, PagesOf;
    WalkableMax(rows, max);
    var all := Remaining(rows, -1);
    var pages, stretches := Walk(rows, max, ""), Stretches(all, max);
    WalkPages(rows, max);
    StretchFacts(all, max);
    forall k | 0 <= k < |pages| ensures |pages[k]| == |stretches[k]| { PageSize(pages, stretches, k); }
  }

  lemma {:induction false} PagesShareNoKey(rows: seq<Entry>, max: int, k: nat, l: nat, key: string)
    requires Walkable(rows, max) && k < l < |Walk(rows, max, "")| && key in Walk(rows, max, "")[k]
    ensures key !in Walk(rows, max, "")[l]
  {
    hide Walkable, Walk, Fill, Atoi, Stretches, DistinctKeys, Flatten, PagesOf;
    WalkableMax(rows, max);
    var all := Remaining(rows, -1);
    AllRemain(rows, max);
    WalkPages(rows, max);
    StretchFacts(all, max);
    NoKeyTwice(Walk(rows, max, ""), Stretches(all, max), k, l, key);
  }

  /** Completeness: following the tokens from the beginning, every row with a numeric id is on exactly one
      page, with its value; the pages hold nothing else; and all but the last are full. */
  lemma {:induction false} PagesAreComplete(rows: seq<Entry>, max: int)
    requires Walkable(rows, max)
    ensures var pages := Walk(rows, max, "");
      && (forall e | e in rows && Numeric(e) :: PageHeld(pages, e))
      && (forall k, l, key | 0 <= k < l < |pages| && key in pages[k] :: key !in pages[l])
      && (forall k, key | 0 <= k < |pages| && key in pages[k] :: exists e | e in rows :: Numeric(e) && e.key == key)
      && (forall k | 0 <= k < |pages| - 1 :: |pages[k]| == max)
      && |pages| >= 1 && |pages[|pages| - 1]| <= max
  {
    hide Walkable, Walk, Numeric, PageHeld, Atoi;
    PagesHoldAll(rows, max);
    PagesAreFull(rows, max);
    forall k, l, key | 0 <= k < l < |Walk(rows, max, "")| && key in Walk(rows, max, "")[k]
      ensures key !in Walk(rows, max, "")[l]
    {
      PagesShareNoKey(rows, max, k, l, key);
    }
  }

  ghost predicate PagesOf(pages: seq<Page>, stretches: seq<seq<Entry>>) {
    |pages| == |stretches| && forall k | 0 <= k < |pages| :: PageOf(pages[k], stretches[k])
  }

  lemma {:induction false} WalkPages(rows: seq<Entry>, max: int)
    requires Walkable(rows, max)
    ensures var stretches := Stretches(Remaining(rows, -1), max);
      PagesOf(Walk(rows, max, ""), stretches) && |Walk(rows, max, "")| == |stretches|
  {
    hide Walkable, Walk, Fill, Atoi, Stretches, DistinctKeys, PageOf;
    WalkableMax(rows, max);
    var all := Remaining(rows, -1);
    var stretches := Stretches(all, max);
    WalkExact(rows, max, "");
    AllRemain(rows, max);
    StretchFacts(all, max);
    forall k | 0 <= k < |stretches| ensures PageOf(Fill(map[], stretches[k]), stretches[k]) {
      StretchDistinct(stretches, k);
      StretchPage(stretches[k]);
    }
  }

  lemma {:induction false} RowIsHeld(pages: seq<Page>, stretches: seq<seq<Entry>>, e: Entry)
    requires PagesOf(pages, stretches) && e in Flatten(stretches)
    ensures PageHeld(pages, e)
  {
    InFlatten(stretches, e);
    var k :| 0 <= k < |stretches| && e in stretches[k];
    assert PageOf(pages[k], stretches[k]);
    assert Holds(pages[k], e);
  }

  lemma {:induction false} KeyIsOfRow(pages: seq<Page>, stretches: seq<seq<Entry>>, k: nat, key: string)
    returns (e: Entry)
    requires PagesOf(pages, stretches) && k < |pages| && key in pages[k]
    ensures e in stretches[k] && e in Flatten(stretches) && e.key == key
  {
    assert PageOf(pages[k], stretches[k]);
    e :| e in stretches[k] && e.key == key;
    assert InSome(stretches, e);
    InFlatten(stretches, e);
  }

  lemma {:induction false} NoKeyTwice(pages: seq<Page>, stretches: seq<seq<Entry>>, k: nat, l: nat, key: string)
    requires PagesOf(pages, stretches) && DistinctKeys(Flatten(stretches))
    requires k < l < |pages| && key in pages[k]
    ensures key !in pages[l]
  {
    hide PagesOf, DistinctKeys;
    assert |pages| == |stretches| by { SameCount(pages, stretches); }
    StretchesApart(stretches, k, l);
    var e := KeyIsOfRow(pages, stretches, k, key);
    if key in pages[l] {
      var f := KeyIsOfRow(pages, stretches, l, key);
      assert false;
    }
  }

  lemma {:induction false} SameCount(pages: seq<Page>, stretches: seq<seq<Entry>>)
    requires PagesOf(pages, stretches)
    ensures |pages| == |stretches|
  {}

  lemma {:induction false} PageSize(pages: seq<Page>, stretches: seq<seq<Entry>>, k: nat)
    requires PagesOf(pages, stretches) && k < |pages|
    ensures |pages| == |stretches| && |pages[k]| == |stretches[k]|
  {
    assert PageOf(pages[k], stretches[k]);
  }

  /* ---- the two list calls ---- */

  /** Following ListVolume's tokens is such a walk, of 64 rows a page when no maximum is asked for. */
  lemma {:induction false} VolumeListing(rows: seq<Entry>, max: int, token: string)
    requires Walkable(rows, if max > 0 then max else 64) && StartOf(token).ok
    ensures var limit, listing := if max > 0 then max else 64, VolumePage(Some(rows), max, token);
      && listing.Listing?
      && (if listing.next == "" then Walk(rows, limit, token) == [listing.page]
          else StartOf(listing.next).ok
               && Walk(rows, limit, token) == [listing.page] + Walk(rows, limit, listing.next))
  {
    OnePage(rows, token, if max > 0 then max else 64);
    hide Walkable, Collect, StartOf, Fill;
  }

  /** Following ListSnapshots' tokens is one too, of at most 64 rows a page, for any maximum of one or more, with
      each snapshot's time. */
  lemma {:induction false} SnapshotListing(rows: seq<Entry>, max: int, token: string, source: string)
    requires max >= 1 && source != "" && Walkable(rows, if max < 64 then max else 64) && StartOf(token).ok
    ensures var limit, listing := if max < 64 then max else 64, SnapshotPage(Some(rows), max, token, source);
      && listing.Listing? && Walkable(Timed(rows), limit)
      && (if listing.next == "" then Walk(Timed(rows), limit, token) == [listing.page]
          else StartOf(listing.next).ok
               && Walk(Timed(rows), limit, token) == [listing.page] + Walk(Timed(rows), limit, listing.next))
  {
    TimedWalkable(rows, if max < 64 then max else 64);
    OnePage(Timed(rows), token, if max < 64 then max else 64);
    hide Walkable, Collect, StartOf, Fill, Timed;
  }

  lemma {:induction false} TimedWalkable(rows: seq<Entry>, max: int)
    ensures Ascending(rows) ==> Ascending(Timed(rows))
    ensures Walkable(rows, max) ==> Walkable(Timed(rows), max)
  {
    hide Atoi;
    NumericIsNotEmpty(Timed(rows));
    forall e | e in Timed(rows) ensures exists f :: f in rows && f.id == e.id {
      var i :| 0 <= i < |rows| && Timed(rows)[i] == e;
      assert rows[i] in rows;
    }
  }

  lemma {:induction false} TimedRemaining(rows: seq<Entry>, start: int)
    ensures Remaining(Timed(rows), start) == Timed(Remaining(rows, start))
  {
    hide Atoi;
    if rows != [] {
      TimedRemaining(rows[1..], start);
      assert Timed(rows)[1..] == Timed(rows[1..]);
    }
  }

  /** ListSnapshots with a maximum of zero or less never gets anywhere: while any snapshot remains its page
      is empty and its token leads back to the same answer. */
  lemma {:induction false} SnapshotListingStuck(rows: seq<Entry>, max: int, token: string, source: string)
    requires max <= 0 && source != "" && StartOf(token).ok && Ascending(rows)
    requires Remaining(rows, StartOf(token).value) != []
    ensures var first := Remaining(rows, StartOf(token).value)[0].id;
      && SnapshotPage(Some(rows), max, token, source) == Listing(map[], first)
      && SnapshotPage(Some(rows), max, first, source) == Listing(map[], first)
  {
    hide Atoi;
    var start := StartOf(token).value;
    var first := Remaining(rows, start)[0];
    assert first in Remaining(rows, start);
    TimedRemaining(rows, start);
    TimedRemaining(rows, Id(first));
    NothingCollected(Timed(rows), start, max);
    RemainingFrom(rows, start, 0);
    NumericIsNotEmpty([first]);
    assert first in [first];
    NothingCollected(Timed(rows), Id(first), max);
  }

  lemma {:induction false} NothingCollected(rows: seq<Entry>, start: int, max: int)
    requires max <= 0 && Remaining(rows, start) != []
    ensures Collect(rows, start, max, map[]) == (map[], Remaining(rows, start)[0].id)
  {
    if !Numeric(rows[0]) || Id(rows[0]) < start { NothingCollected(rows[1..], start, max); }
  }

  /** What the two calls answer instead of a page: a token that is not a number, for snapshots then a missing
      source, and last a query that fails. */
  lemma {:induction false} ListingErrors(rows: Option<seq<Entry>>, max: int, token: string, source: string)
    ensures (VolumePage(rows, max, token) == BadToken <==> token != "" && !Atoi(token).ok)
    ensures (VolumePage(rows, max, token) == QueryFailed <==> (token == "" || Atoi(token).ok) && rows.None?)
    ensures (SnapshotPage(rows, max, token, source) == BadToken <==> token != "" && !Atoi(token).ok)
    ensures (SnapshotPage(rows, max, token, source) == NoSource <==> (token == "" || Atoi(token).ok) && source == "")
    ensures (SnapshotPage(rows, max, token, source) == QueryFailed
             <==> (token == "" || Atoi(token).ok) && source != "" && rows.None?)
  {
    hide Atoi, Collect;
  }
}
