/** The parser of CLI output: tables under a header row, and blocks of key and value. */
module Parser {
  import opened Wrappers
  import opened Text

  type CliRow = map<string, string>

  /* ---- splitting into lines ---- */

  function TrimLeft(s: string): string { if s != "" && s[0] == '\n' then TrimLeft(s[1..]) else s }

  function TrimRight(s: string): string {
    if s != "" && s[|s| - 1] == '\n' then TrimRight(s[..|s| - 1]) else s
  }

  /** strings.Trim(s, "\n") */
  function Trim(s: string): string { TrimRight(TrimLeft(s)) }

  function LinesOf(raw: string): seq<string> { Split(Trim(raw), '\n') }

  /* ---- tables ---- */

  /** A row of a table; a column that comes again overrides. */
  function Zip(headers: seq<string>, columns: seq<string>): CliRow
    requires |headers| <= |columns|
  {
    if headers == [] then map[]
    else
      var last := |headers| - 1;
      Zip(headers[..last], columns)[headers[last] := columns[last]]
  }

  /** The rows up to the first blank line; None when a row has fewer columns than there are headers,
      which makes the parser panic. */
  function TableRows(headers: seq<string>, lines: seq<string>, delimiter: char): Option<seq<CliRow>> {
    if lines == [] || lines[0] == "" then Some([])
    else
      var columns := Split(lines[0], delimiter);
      if |columns| < |headers| then None
      else
        var rest := TableRows(headers, lines[1..], delimiter);
        if rest.None? then None else Some([Zip(headers, columns)] + rest.value)
  }

  function ParseTable(lines: seq<string>, delimiter: char): Option<seq<CliRow>> {
    if lines == [] || lines[0] == "" then Some([])
    else TableRows(Split(lines[0], delimiter), lines[1..], delimiter)
  }

  /* ---- blocks ---- */

  /** The blocks, begun with what `row` holds already. A value that contains the delimiter comes out with
      blanks in its place. */
  function Blocks(lines: seq<string>, row: CliRow, delimiter: char): seq<CliRow>
    decreases |lines|
  {
    if lines == [] then if row == map[] then [] else [row]
    else if lines[0] == "" then [row] + Blocks(lines[1..], map[], delimiter)
    else
      var columns := Split(lines[0], delimiter);
      Blocks(lines[1..], row[columns[0] := Join(columns[1..], ' ')], delimiter)
  }

  function Parsed(raw: string, withHeader: bool, delimiter: char): Option<seq<CliRow>> {
    if withHeader then ParseTable(LinesOf(raw), delimiter) else Some(Blocks(LinesOf(raw), map[], delimiter))
  }

  method Parse(raw: string, withHeader: bool, delimiter: char) returns (result: Option<seq<CliRow>>)
    ensures result == Parsed(raw, withHeader, delimiter)
  {
    hide LinesOf, Split, Join, Prepended;
    var lines := LinesOf(raw);
    var rows: seq<CliRow> := [];
    if withHeader {
      var headers: seq<string> := [];
      var i := 0;
      while i < |lines|
        invariant 0 <= i <= |lines|
        invariant i == 0 ==> rows == []
        invariant i > 0 ==> headers == Split(lines[0], delimiter) && lines[0] != ""
        invariant i > 0 ==> Prepended(rows, TableRows(headers, lines[i..], delimiter)) == ParseTable(lines, delimiter)
      {
        PrependNothing(rows, TableRows(headers, lines[i..], delimiter));
        if |lines[i]| == 0 { break; }
        assert lines[i..][1..] == lines[i + 1..];
        var columns := Split(lines[i], delimiter);
        if i == 0 {
          headers := columns;
          PrependNothing(rows, TableRows(headers, lines[1..], delimiter));
        } else {
          if |columns| < |headers| { return None; }
          ghost var before := rows;
          var row: CliRow := map[];
          for j := 0 to |headers|
            invariant row == Zip(headers[..j], columns)
          {
            assert headers[..j + 1][..j] == headers[..j];
            row := row[headers[j] := columns[j]];
          }
          assert headers[..|headers|] == headers;
          rows := rows + [row];
          PrependMore(before, row, TableRows(headers, lines[i + 1..], delimiter));
        }
        i := i + 1;
      }
      assert i == |lines| ==> lines[i..] == [];
      PrependNothing(rows, Some([]));
      return Some(rows);
    }
    var row: CliRow := map[];
    for i := 0 to |lines|
      invariant Blocks(lines, map[], delimiter) == rows + Blocks(lines[i..], row, delimiter)
    {
      assert lines[i..][1..] == lines[i + 1..];
      if |lines[i]| != 0 {
        var columns := Split(lines[i], delimiter);
        row := row[columns[0] := Join(columns[1..], ' ')];
      } else {
        rows := rows + [row];
        row := map[];
      }
    }
    assert lines[|lines|..] == [] && rows + [] == rows;
    if row != map[] { rows := rows + [row]; }
    return Some(rows);
  }

  function Prepended(rows: seq<CliRow>, rest: Option<seq<CliRow>>): Option<seq<CliRow>> {
    if rest.None? then None else Some(rows + rest.value)
  }

  lemma {:induction false} PrependNothing(rows: seq<CliRow>, rest: Option<seq<CliRow>>)
    ensures Prepended([], rest) == rest
    ensures Prepended(rows, Some([])) == Some(rows) && Prepended(rows, None) == None
  {
    assert rows + [] == rows;
    if rest.Some? { assert [] + rest.value == rest.value; }
  }

  lemma {:induction false} PrependMore(rows: seq<CliRow>, row: CliRow, rest: Option<seq<CliRow>>)
    ensures Prepended(rows, if rest.None? then None else Some([row] + rest.value)) == Prepended(rows + [row], rest)
  {
    if rest.Some? { assert rows + ([row] + rest.value) == rows + [row] + rest.value; }
  }

  /* ---- printed lines come back ---- */

  function Newlines(k: nat): (s: string)
    ensures |s| == k && forall i | 0 <= i < k :: s[i] == '\n'
  {
    seq(k, _ => '\n')
  }

  lemma {:induction false} TrimTail(s: string, k: nat)
    requires s != "" && s[|s| - 1] != '\n'
    ensures TrimRight(s + Newlines(k)) == s
  {
    if k == 0 {
      assert s + Newlines(0) == s;
    } else {
      TrimTail(s, k - 1);
      var t := s + Newlines(k);
      assert t[..|t| - 1] == s + Newlines(k - 1);
    }
  }

  lemma {:induction false} JoinEnds(lines: seq<string>)
    requires lines != [] && Free(lines, '\n') && lines[0] != "" && lines[|lines| - 1] != ""
    ensures var text := Join(lines, '\n'); text != "" && text[0] != '\n' && text[|text| - 1] != '\n'
  {
    var last := lines[|lines| - 1];
    assert lines[0] in lines && lines[0][0] != '\n' && last in lines && last[|last| - 1] != '\n';
    if |lines| > 1 { JoinLast(lines); }
  }

  lemma {:induction false} JoinLast(lines: seq<string>)
    requires lines != [] && lines[|lines| - 1] != ""
    ensures var text, last := Join(lines, '\n'), lines[|lines| - 1];
      text != "" && text[|text| - 1] == last[|last| - 1]
  {
    if |lines| > 1 { JoinLast(lines[1..]); }
  }

  /** Lines printed one after the other, with any number of newlines at the end, come back as they were,
      unless the first or the last is blank. */
  lemma {:induction false} LinesComeBack(lines: seq<string>, k: nat)
    requires lines != [] && Free(lines, '\n') && lines[0] != "" && lines[|lines| - 1] != ""
    ensures LinesOf(Join(lines, '\n') + Newlines(k)) == lines
  {
    var text := Join(lines, '\n');
    JoinEnds(lines);
    assert (text + Newlines(k))[0] == text[0];
    TrimTail(text, k);
    SplitOfJoin(lines, '\n');
  }

  /* ---- tables come back ---- */

  function Printed(rows: seq<seq<string>>, delimiter: char): (lines: seq<string>)
    ensures |lines| == |rows|
    ensures forall i | 0 <= i < |rows| :: lines[i] == Join(rows[i], delimiter)
  {
    seq(|rows|, i requires 0 <= i < |rows| => Join(rows[i], delimiter))
  }

  function Table(headers: seq<string>, rows: seq<seq<string>>, delimiter: char): string {
    Join(Printed([headers] + rows, delimiter), '\n')
  }

  predicate Plain(cells: seq<string>, delimiter: char) { Free(cells, delimiter) && Free(cells, '\n') }

  predicate IsTable(headers: seq<string>, rows: seq<seq<string>>, delimiter: char) {
    && delimiter != '\n' && |headers| >= 2 && Plain(headers, delimiter)
    && forall row | row in rows :: |row| == |headers| && Plain(row, delimiter)
  }

  lemma {:induction false} JoinFree(cells: seq<string>, delimiter: char, c: char)
    requires Free(cells, c) && c != delimiter
    ensures c !in Join(cells, delimiter)
  {
    if cells != [] {
      assert cells[0] in cells;
      if |cells| > 1 { JoinFree(cells[1..], delimiter, c); }
    }
  }

  function Zipped(headers: seq<string>, rows: seq<seq<string>>): (zipped: seq<CliRow>)
    requires forall row | row in rows :: |row| == |headers|
    ensures |zipped| == |rows|
  {
    seq(|rows|, i requires 0 <= i < |rows| => assert rows[i] in rows; Zip(headers, rows[i]))
  }

  /** A row gives each header its cell. */
  lemma {:induction false} ZipFacts(headers: seq<string>, columns: seq<string>)
    requires |headers| <= |columns| && forall i, j | 0 <= i < j < |headers| :: headers[i] != headers[j]
    ensures Zip(headers, columns).Keys == set h | h in headers
    ensures forall i | 0 <= i < |headers| :: headers[i] in headers && Zip(headers, columns)[headers[i]] == columns[i]
  {
    if headers != [] {
      var last := |headers| - 1;
      ZipFacts(headers[..last], columns);
      assert forall h | h in headers :: h in headers[..last] || h == headers[last];
    }
  }

  lemma {:induction false} LongJoin(cells: seq<string>, delimiter: char)
    requires |cells| >= 2
    ensures Join(cells, delimiter) != ""
  {}

  lemma {:induction false} RowsComeBack(headers: seq<string>, rows: seq<seq<string>>, delimiter: char)
    requires |headers| >= 2
    requires forall row | row in rows :: |row| == |headers| && Free(row, delimiter)
    ensures TableRows(headers, Printed(rows, delimiter), delimiter) == Some(Zipped(headers, rows))
  {
    hide Join, Split, Zip;
    if rows != [] {
      assert rows[0] in rows;
      SplitOfJoin(rows[0], delimiter);
      LongJoin(rows[0], delimiter);
      RowsComeBack(headers, rows[1..], delimiter);
      var lines := Printed(rows, delimiter);
      assert lines[1..] == Printed(rows[1..], delimiter) && lines[0] == Join(rows[0], delimiter);
      assert Zipped(headers, rows) == [Zip(headers, rows[0])] + Zipped(headers, rows[1..]);
    }
  }

  /** Printing a table of at least two columns and parsing it gives its rows back. */
  lemma {:induction false} TableRoundTrip(headers: seq<string>, rows: seq<seq<string>>, delimiter: char, k: nat)
    requires IsTable(headers, rows, delimiter)
    ensures Parsed(Table(headers, rows, delimiter) + Newlines(k), true, delimiter) == Some(Zipped(headers, rows))
  {
    var all := [headers] + rows;
    var lines := Printed(all, delimiter);
    forall line | line in lines ensures '\n' !in line && line != "" {
      var i :| 0 <= i < |lines| && lines[i] == line;
      assert all[i] in all;
      assert i > 0 ==> all[i] in rows;
      JoinFree(all[i], delimiter, '\n');
    }
    LinesComeBack(lines, k);
    SplitOfJoin(headers, delimiter);
    assert lines[1..] == Printed(rows, delimiter);
    RowsComeBack(headers, rows, delimiter);
  }

  /** With a single column this fails: an empty cell prints as a blank line, which ends the table. */
  lemma {:induction false} SingleColumnCut()
    ensures Parsed(Table(["h"], [[""], ["x"]], '!'), true, '!') == Some([])
  {
    var lines := ["h", "", "x"];
    assert Printed([["h"]] + [[""], ["x"]], '!') == lines;
    assert forall l | l in lines :: l == "h" || l == "" || l == "x";
    LinesComeBack(lines, 0);
    assert Join(lines, '\n') + Newlines(0) == Join(lines, '\n');
  }

  /* ---- blocks come back ---- */

  datatype Pair = Pair(key: string, value: string)

  function PairLines(block: seq<Pair>, delimiter: char): (lines: seq<string>)
    ensures |lines| == |block|
    ensures forall i | 0 <= i < |block| :: lines[i] == block[i].key + [delimiter] + block[i].value
  {
    seq(|block|, i requires 0 <= i < |block| => block[i].key + [delimiter] + block[i].value)
  }

  /** Blocks separated by one blank line. */
  function BlockLines(blocks: seq<seq<Pair>>, delimiter: char): seq<string> {
    if blocks == [] then []
    else if |blocks| == 1 then PairLines(blocks[0], delimiter)
    else PairLines(blocks[0], delimiter) + [""] + BlockLines(blocks[1..], delimiter)
  }

  predicate IsBlock(block: seq<Pair>, delimiter: char) {
    && block != []
    && (forall p | p in block :: delimiter !in p.key && '\n' !in p.key && delimiter !in p.value && '\n' !in p.value)
    && (forall i, j | 0 <= i < j < |block| :: block[i].key != block[j].key)
  }

  function RowOf(block: seq<Pair>, row: CliRow): CliRow
    decreases |block|
  {
    if block == [] then row else RowOf(block[1..], row[block[0].key := block[0].value])
  }

  lemma {:induction false} RowOfKeeps(block: seq<Pair>, row: CliRow, key: string)
    requires key in row && forall p | p in block :: p.key != key
    ensures key in RowOf(block, row) && RowOf(block, row)[key] == row[key]
    decreases |block|
  {
    if block != [] {
      assert block[0] in block && forall p | p in block[1..] :: p in block;
      RowOfKeeps(block[1..], row[block[0].key := block[0].value], key);
    }
  }

  lemma {:induction false} RowOfHas(block: seq<Pair>, row: CliRow, i: nat)
    requires i < |block| && forall i, j | 0 <= i < j < |block| :: block[i].key != block[j].key
    ensures block[i].key in RowOf(block, row) && RowOf(block, row)[block[i].key] == block[i].value
    decreases |block|
  {
    var next := row[block[0].key := block[0].value];
    if i == 0 {
      forall p | p in block[1..] ensures p.key != block[0].key {
        var j :| 0 <= j < |block[1..]| && block[1..][j] == p;
        assert block[j + 1] == p;
      }
      RowOfKeeps(block[1..], next, block[0].key);
    } else {
      assert block[1..][i - 1] == block[i];
      RowOfHas(block[1..], next, i - 1);
    }
  }

  lemma {:induction false} RowOfOnly(block: seq<Pair>, row: CliRow, key: string)
    requires key in RowOf(block, row)
    ensures key in row || exists p | p in block :: p.key == key
    decreases |block|
  {
    if block != [] {
      assert block[0] in block && forall p | p in block[1..] :: p in block;
      RowOfOnly(block[1..], row[block[0].key := block[0].value], key);
    }
  }

  /** The row of a block of distinct keys holds its pairs and nothing else. */
  lemma {:induction false} RowOfFacts(block: seq<Pair>)
    requires forall i, j | 0 <= i < j < |block| :: block[i].key != block[j].key
    ensures var r := RowOf(block, map[]);
      && (forall p | p in block :: p.key in r && r[p.key] == p.value)
      && (forall key | key in r :: exists p | p in block :: p.key == key)
  {
    forall p | p in block ensures p.key in RowOf(block, map[]) && RowOf(block, map[])[p.key] == p.value {
      var i :| 0 <= i < |block| && block[i] == p;
      RowOfHas(block, map[], i);
    }
    forall key | key in RowOf(block, map[]) ensures exists p | p in block :: p.key == key {
      RowOfOnly(block, map[], key);
    }
  }

  /** Within a block the lines fill the row; a blank line, or the end, closes it. */
  lemma {:induction false} BlockFills(block: seq<Pair>, rest: seq<string>, row: CliRow, delimiter: char)
    requires forall p | p in block :: delimiter !in p.key && delimiter !in p.value
    ensures Blocks(PairLines(block, delimiter) + rest, row, delimiter) == Blocks(rest, RowOf(block, row), delimiter)
    decreases |block|
  {
    var lines := PairLines(block, delimiter) + rest;
    if block == [] {
      assert lines == rest;
    } else {
      assert block[0] in block;
      var p := block[0];
      SplitFirst(p.key, p.value, delimiter);
      SplitPlain(p.value, delimiter);
      assert Split(lines[0], delimiter) == [p.key, p.value];
      assert lines[1..] == PairLines(block[1..], delimiter) + rest;
      BlockFills(block[1..], rest, row[p.key := p.value], delimiter);
    }
  }

  function RowsOfBlocks(blocks: seq<seq<Pair>>): (rows: seq<CliRow>)
    ensures |rows| == |blocks|
  {
    seq(|blocks|, i requires 0 <= i < |blocks| => RowOf(blocks[i], map[]))
  }

  lemma {:induction false} BlocksComeBack(blocks: seq<seq<Pair>>, delimiter: char)
    requires blocks != [] && forall block | block in blocks :: IsBlock(block, delimiter)
    ensures Blocks(BlockLines(blocks, delimiter), map[], delimiter) == RowsOfBlocks(blocks)
    decreases |blocks|
  {
    var block := blocks[0];
    assert block in blocks;
    RowIsFilled(block, delimiter);
    hide IsBlock, Split, Join, RowOf, PairLines;
    if |blocks| == 1 {
      OneBlock(block, [], delimiter);
      assert PairLines(block, delimiter) + [] == PairLines(block, delimiter);
    } else {
      var tail := BlockLines(blocks[1..], delimiter);
      assert PairLines(block, delimiter) + [""] + tail == PairLines(block, delimiter) + ([""] + tail);
      OneBlock(block, [""] + tail, delimiter);
      assert ([""] + tail)[1..] == tail;
      BlocksComeBack(blocks[1..], delimiter);
      assert RowsOfBlocks(blocks) == [RowOf(block, map[])] + RowsOfBlocks(blocks[1..]);
    }
  }

  lemma {:induction false} RowIsFilled(block: seq<Pair>, delimiter: char)
    requires IsBlock(block, delimiter)
    ensures RowOf(block, map[]) != map[]
  {
    RowOfHas(block, map[], 0);
  }

  lemma {:induction false} OneBlock(block: seq<Pair>, rest: seq<string>, delimiter: char)
    requires IsBlock(block, delimiter)
    ensures Blocks(PairLines(block, delimiter) + rest, map[], delimiter) == Blocks(rest, RowOf(block, map[]), delimiter)
  {
    BlockFills(block, rest, map[], delimiter);
  }

  lemma {:induction false} BlockLinesPlain(blocks: seq<seq<Pair>>, delimiter: char)
    requires blocks != [] && delimiter != '\n' && forall block | block in blocks :: IsBlock(block, delimiter)
    ensures var lines := BlockLines(blocks, delimiter);
      lines != [] && Free(lines, '\n') && lines[0] != "" && lines[|lines| - 1] != ""
    decreases |blocks|
  {
    var block := blocks[0];
    assert block in blocks;
    forall line | line in PairLines(block, delimiter) ensures '\n' !in line {
      var i :| 0 <= i < |block| && PairLines(block, delimiter)[i] == line;
      assert block[i] in block;
    }
    if |blocks| > 1 { BlockLinesPlain(blocks[1..], delimiter); }
  }

  /** Printing blocks of distinct keys and parsing them gives their pairs back. */
  lemma {:induction false} BlockRoundTrip(blocks: seq<seq<Pair>>, delimiter: char, k: nat)
    requires blocks != [] && delimiter != '\n' && forall block | block in blocks :: IsBlock(block, delimiter)
    ensures Parsed(Join(BlockLines(blocks, delimiter), '\n') + Newlines(k), false, delimiter)
      == Some(RowsOfBlocks(blocks))
  {
    BlockLinesPlain(blocks, delimiter);
    LinesComeBack(BlockLines(blocks, delimiter), k);
    BlocksComeBack(blocks, delimiter);
  }

  lemma {:induction false} OnlyNewlines(k: nat)
    ensures TrimLeft(Newlines(k)) == ""
  {
    if k > 0 {
      assert Newlines(k)[1..] == Newlines(k - 1);
      OnlyNewlines(k - 1);
    }
  }

  /** Empty output is no row under a header, but one empty row in block form: the row an absent host
      reads as. */
  lemma {:induction false} EmptyOutput(k: nat, delimiter: char)
    ensures Parsed(Newlines(k), true, delimiter) == Some([])
    ensures Parsed(Newlines(k), false, delimiter) == Some([map[]])
  {
    OnlyNewlines(k);
    assert Split("", '\n') == [""];
    assert [""][1..] == [];
    assert TrimRight("") == "" && LinesOf(Newlines(k)) == [""];
    var none: CliRow := map[];
    assert Blocks([""], none, delimiter) == [none] + Blocks([], none, delimiter) == [none];
  }

  /* ---- irregular output ---- */

  /** Newlines before the text do not matter, as those after it do not. */
  lemma {:induction false} LeadingNewlines(raw: string, k: nat)
    ensures LinesOf(Newlines(k) + raw) == LinesOf(raw)
  {
    if k == 0 {
      assert Newlines(0) + raw == raw;
    } else {
      assert (Newlines(k) + raw)[1..] == Newlines(k - 1) + raw;
      LeadingNewlines(raw, k - 1);
    }
  }

  /** The line is blank, or there is none, and no line before it is. */
  predicate FirstBlank(lines: seq<string>, n: nat) {
    && n <= |lines| && (n < |lines| ==> lines[n] == "") && forall i | 0 <= i < n :: lines[i] != ""
  }

  /** Whatever the lines are: the rows are those of the lines up to the first blank one, each header with its own
      column and further columns dropped; and the parser panics exactly when one of these lines has fewer columns
      than there are headers. */
  lemma {:induction false} TableExact(headers: seq<string>, lines: seq<string>, delimiter: char, n: nat)
    requires FirstBlank(lines, n)
    ensures var r := TableRows(headers, lines, delimiter);
      && (r.None? <==> exists i | 0 <= i < n :: |Split(lines[i], delimiter)| < |headers|)
      && (r.Some? ==>
            && |r.value| == n
            && forall i | 0 <= i < n ::
                 |Split(lines[i], delimiter)| >= |headers| && r.value[i] == Zip(headers, Split(lines[i], delimiter)))
    decreases n
  {
    hide Split, Zip;
    if n > 0 {
      var rest := lines[1..];
      assert forall i | 0 <= i < |rest| :: rest[i] == lines[i + 1];
      TableExact(headers, rest, delimiter, n - 1);
      if i :| 0 <= i < n - 1 && |Split(rest[i], delimiter)| < |headers| {
        assert |Split(lines[i + 1], delimiter)| < |headers|;
      }
      if i :| 0 <= i < n && |Split(lines[i], delimiter)| < |headers| {
        assert i > 0 ==> |Split(rest[i - 1], delimiter)| < |headers|;
      }
    }
  }

  /** In block form a value that holds the delimiter comes out with blanks in its place, and a blank line always
      ends a row, so that two in a row give an empty one. */
  lemma {:induction false} BlockLine(key: string, parts: seq<string>, rest: seq<string>, row: CliRow, delimiter: char)
    requires parts != [] && delimiter !in key && Free(parts, delimiter)
    ensures Blocks([key + [delimiter] + Join(parts, delimiter)] + rest, row, delimiter)
      == Blocks(rest, row[key := Join(parts, ' ')], delimiter)
    ensures Blocks([""] + rest, row, delimiter) == [row] + Blocks(rest, map[], delimiter)
  {
    var line := key + [delimiter] + Join(parts, delimiter);
    SplitFirst(key, Join(parts, delimiter), delimiter);
    SplitOfJoin(parts, delimiter);
    assert Split(line, delimiter)[1..] == parts;
    assert ([line] + rest)[1..] == rest && ([""] + rest)[1..] == rest;
  }
}
