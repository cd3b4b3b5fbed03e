/** Reading the source board (monday_functions.py): parsing one item into a
    row, the RD fallback and column selection of transform_dataframe, the
    limit/pages arithmetic and the paged fetches with their group filters. */
module Monday {
  import opened Wrappers

  /** A row of the frame built from parsed items: column title to text. */
  type Row = map<string, string>

  /** One `column_values` entry of an API item. */
  datatype ColumnValue = ColumnValue(id: string, text: string)

  /** An API item: its id, its name, the title of its group and its column values. */
  datatype Item = Item(id: string, name: string, group: string, columnValues: seq<ColumnValue>)

  // ---------------------------------------------------------------------
  // parse_item: the name split
  // ---------------------------------------------------------------------

  /** The position of the first occurrence of `c` in `s`, as `str.split(c, 1)` uses it. */
  function Find(s: string, c: char): (r: Option<nat>)
    ensures r.Some? ==> r.value < |s|
  {
    if s == [] then None
    else if s[0] == c then Some(0)
    else
      match Find(s[1..], c)
      case None => None
      case Some(i) => Some(i + 1)
  }

  /** Find reports the first occurrence, and None only when there is none. */
  lemma {:induction false} FindFirst(s: string, c: char)
    ensures Find(s, c).None? <==> c !in s
    ensures Find(s, c).Some? ==> s[Find(s, c).value] == c && c !in s[..Find(s, c).value]
  {
    if s != [] && s[0] != c {
      FindFirst(s[1..], c);
      assert s == [s[0]] + s[1..];
      if Find(s[1..], c).Some? {
        var i := Find(s[1..], c).value;
        assert s[..i + 1] == [s[0]] + s[1..][..i];
      }
    }
  }

  /** The (facility, item name) pair before stripping: split at the first '-',
      else at the first ' ', else the whole name is the facility. */
  function SplitName(name: string): (r: (string, string))
    ensures |r.0| + |r.1| <= |name| && r.0 == name[..|r.0|]
  {
    match Find(name, '-')
    case Some(i) => (name[..i], name[i + 1..])
    case None =>
      match Find(name, ' ')
      case Some(i) => (name[..i], name[i + 1..])
      case None => (name, "")
  }

  /** The three cases of the split: the facility never holds the separator
      and facility + separator + item name gives back the name. */
  lemma SplitNameCases(name: string)
    ensures '-' in name ==>
              '-' !in SplitName(name).0 && name == SplitName(name).0 + "-" + SplitName(name).1
    ensures '-' !in name && ' ' in name ==>
              ' ' !in SplitName(name).0 && '-' !in SplitName(name).0
              && name == SplitName(name).0 + " " + SplitName(name).1
    ensures '-' !in name && ' ' !in name ==> SplitName(name) == (name, "")
  {
    FindFirst(name, '-');
    FindFirst(name, ' ');
    match Find(name, '-')
    case Some(i) =>
      assert name == name[..i] + [name[i]] + name[i + 1..];
    case None =>
      match Find(name, ' ')
      case Some(i) =>
        assert name == name[..i] + [name[i]] + name[i + 1..];
        assert forall k :: 0 <= k < i ==> name[..i][k] == name[k];
      case None =>
  }

  // ---------------------------------------------------------------------
  // parse_item: str.strip()
  // ---------------------------------------------------------------------

  /** The characters str.isspace() accepts. */
  predicate IsSpace(c: char)
  {
    c == ' ' || '\t' <= c <= '\r' || '\U{1C}' <= c <= '\U{1F}'
    || c == '\U{85}' || c == '\U{A0}' || c == '\U{1680}' || '\U{2000}' <= c <= '\U{200A}'
    || c == '\U{2028}' || c == '\U{2029}' || c == '\U{202F}' || c == '\U{205F}' || c == '\U{3000}'
  }

  /** Drops the leading whitespace. */
  function TrimLeft(s: string): (r: string)
    ensures |r| <= |s|
  {
    if s != [] && IsSpace(s[0]) then TrimLeft(s[1..]) else s
  }

  /** Drops the trailing whitespace. */
  function TrimRight(s: string): (r: string)
    ensures |r| <= |s|
  {
    if s != [] && IsSpace(s[|s| - 1]) then TrimRight(s[..|s| - 1]) else s
  }

  function Strip(s: string): (r: string)
    ensures |r| <= |s|
  {
    TrimRight(TrimLeft(s))
  }

  /** TrimLeft keeps a suffix, drops only whitespace, and the suffix does not
      start with whitespace. */
  lemma {:induction false} TrimLeftSpec(s: string)
    ensures var r := TrimLeft(s);
            |r| <= |s| && r == s[|s| - |r|..]
            && (forall k :: 0 <= k < |s| - |r| ==> IsSpace(s[k]))
            && (r == [] || !IsSpace(r[0]))
  {
    if s != [] && IsSpace(s[0]) {
      var t := s[1..];
      TrimLeftSpec(t);
      assert TrimLeft(s) == TrimLeft(t);
      assert forall k :: 1 <= k < |s| ==> s[k] == t[k - 1];
    }
  }

  /** TrimRight keeps a prefix, drops only whitespace, and the prefix does not
      end with whitespace. */
  lemma {:induction false} TrimRightSpec(s: string)
    ensures var r := TrimRight(s);
            |r| <= |s| && r == s[..|r|]
            && (forall k :: |r| <= k < |s| ==> IsSpace(s[k]))
            && (r == [] || !IsSpace(r[|r| - 1]))
  {
    if s != [] && IsSpace(s[|s| - 1]) {
      var t := s[..|s| - 1];
      TrimRightSpec(t);
      assert TrimRight(s) == TrimRight(t);
      assert forall k :: 0 <= k < |t| ==> s[k] == t[k];
    }
  }

  /** How many leading characters strip() drops. */
  function Leading(s: string): nat
  {
    TrimLeftSpec(s);
    |s| - |TrimLeft(s)|
  }

  /** strip() keeps one contiguous piece of the text, drops only whitespace
      around it, and the piece neither starts nor ends with whitespace. */
  lemma StripIsTrimmedSlice(s: string)
    ensures var r, i := Strip(s), Leading(s);
            i + |r| <= |s| && s[i..i + |r|] == r
            && (forall k :: 0 <= k < i ==> IsSpace(s[k]))
            && (forall k :: i + |r| <= k < |s| ==> IsSpace(s[k]))
            && (r == [] || (!IsSpace(r[0]) && !IsSpace(r[|r| - 1])))
  {
    var t := TrimLeft(s);
    TrimLeftSpec(s);
    TrimRightSpec(t);
    var r := TrimRight(t);
    var i := |s| - |t|;
    assert s[i..i + |r|] == t[..|r|];
    assert forall k :: i + |r| <= k < |s| ==> s[k] == t[k - i];
  }

  /** Stripping twice is stripping once. */
  lemma {:induction false} StripIdempotent(s: string)
    ensures Strip(Strip(s)) == Strip(s)
  {
    var r := Strip(s);
    StripIsTrimmedSlice(s);
    assert TrimLeft(r) == r;
    assert TrimRight(r) == r;
  }

  // ---------------------------------------------------------------------
  // parse_item: the row
  // ---------------------------------------------------------------------

  /** A column value is stored under its title when the board knows the id,
      else under the raw id. */
  function ColumnKey(cv: ColumnValue, columnNames: map<string, string>): string
  {
    if cv.id in columnNames then columnNames[cv.id] else cv.id
  }

  /** The four entries parse_item sets before the column values. */
  function BaseRow(item: Item): Row
  {
    var split := SplitName(item.name);
    map["region" := item.group, "id" := item.id, "item_name" := Strip(split.1), "facility" := split.0]
  }

  /** The row after writing the column values in order; a later value under
      the same key overwrites an earlier one. */
  function WithColumns(row: Row, cvs: seq<ColumnValue>, columnNames: map<string, string>): Row
  {
    if cvs == [] then row
    else
      var n := |cvs| - 1;
      WithColumns(row, cvs[..n], columnNames)[ColumnKey(cvs[n], columnNames) := cvs[n].text]
  }

  function ParsedRow(item: Item, columnNames: map<string, string>): Row
  {
    WithColumns(BaseRow(item), item.columnValues, columnNames)
  }

  /** The name split of parse_item, with the item name stripped. */
  method SplitItemName(name: string) returns (facility: string, itemName: string)
    ensures facility == SplitName(name).0 && itemName == Strip(SplitName(name).1)
  {
    facility, itemName := name, "";
    var dash := Find(name, '-');
    if dash.Some? {
      facility, itemName := name[..dash.value], name[dash.value + 1..];
    } else {
      var space := Find(name, ' ');
      if space.Some? {
        facility, itemName := name[..space.value], name[space.value + 1..];
      }
    }
    itemName := Strip(itemName);
  }

  /** parse_item */
  method ParseItem(item: Item, columnNames: map<string, string>) returns (row: Row)
    ensures row == ParsedRow(item, columnNames)
  {
    var facility, itemName := SplitItemName(item.name);
    row := map["region" := item.group, "id" := item.id, "item_name" := itemName, "facility" := facility];
    assert row == BaseRow(item);
    var k := 0;
    while k < |item.columnValues|
      invariant 0 <= k <= |item.columnValues|
      invariant row == WithColumns(BaseRow(item), item.columnValues[..k], columnNames)
    {
      var column := item.columnValues[k];
      row := row[ColumnKey(column, columnNames) := column.text];
      assert item.columnValues[..k + 1][..k] == item.columnValues[..k];
      k := k + 1;
    }
    assert item.columnValues[..k] == item.columnValues;
  }

  /** The keys the column values write. */
  function ColumnKeys(cvs: seq<ColumnValue>, columnNames: map<string, string>): set<string>
  {
    set j | 0 <= j < |cvs| :: ColumnKey(cvs[j], columnNames)
  }

  lemma ColumnKeysStep(cvs: seq<ColumnValue>, columnNames: map<string, string>)
    requires cvs != []
    ensures ColumnKeys(cvs, columnNames)
            == ColumnKeys(cvs[..|cvs| - 1], columnNames) + {ColumnKey(cvs[|cvs| - 1], columnNames)}
  {
    var n := |cvs| - 1;
    var front, all := ColumnKeys(cvs[..n], columnNames), ColumnKeys(cvs, columnNames);
    forall x | x in all ensures x in front + {ColumnKey(cvs[n], columnNames)} {
      var j :| 0 <= j < |cvs| && x == ColumnKey(cvs[j], columnNames);
      if j < n {
        assert cvs[..n][j] == cvs[j];
      }
    }
    forall x | x in front ensures x in all {
      var j :| 0 <= j < n && x == ColumnKey(cvs[..n][j], columnNames);
      assert cvs[..n][j] == cvs[j];
    }
  }

  /** The keys of the row: the base keys and the key of every column value. */
  lemma {:induction false} WithColumnsKeys(row: Row, cvs: seq<ColumnValue>, columnNames: map<string, string>)
    ensures WithColumns(row, cvs, columnNames).Keys == row.Keys + ColumnKeys(cvs, columnNames)
  {
    if cvs != [] {
      WithColumnsKeys(row, cvs[..|cvs| - 1], columnNames);
      ColumnKeysStep(cvs, columnNames);
    } else {
      assert ColumnKeys(cvs, columnNames) == {};
    }
  }

  /** The last column value written under a key is the one the row keeps. */
  lemma {:induction false} ColumnLastWriteWins(row: Row, cvs: seq<ColumnValue>, columnNames: map<string, string>, k: int)
    requires 0 <= k < |cvs|
    requires forall j :: k < j < |cvs| ==> ColumnKey(cvs[j], columnNames) != ColumnKey(cvs[k], columnNames)
    ensures var key := ColumnKey(cvs[k], columnNames);
            key in WithColumns(row, cvs, columnNames) && WithColumns(row, cvs, columnNames)[key] == cvs[k].text
  {
    var n := |cvs| - 1;
    if k < n {
      assert cvs[..n][k] == cvs[k];
      assert forall j :: k < j < n ==> cvs[..n][j] == cvs[j];
      ColumnLastWriteWins(row, cvs[..n], columnNames, k);
    }
  }

  /** A key no column value maps to keeps its base entry, or stays absent. */
  lemma {:induction false} ColumnsKeepOthers(row: Row, cvs: seq<ColumnValue>, columnNames: map<string, string>, key: string)
    requires forall j :: 0 <= j < |cvs| ==> ColumnKey(cvs[j], columnNames) != key
    ensures key in WithColumns(row, cvs, columnNames) <==> key in row
    ensures key in row ==> WithColumns(row, cvs, columnNames)[key] == row[key]
  {
    if cvs != [] {
      var n := |cvs| - 1;
      assert forall j :: 0 <= j < n ==> cvs[..n][j] == cvs[j];
      ColumnsKeepOthers(row, cvs[..n], columnNames, key);
    }
  }

  /** Unless a column is titled like them, the row's facility and item name
      are the two halves of the split, the item name stripped. */
  lemma ParsedNameFields(item: Item, columnNames: map<string, string>)
    requires forall j :: 0 <= j < |item.columnValues| ==>
               ColumnKey(item.columnValues[j], columnNames) != "facility"
               && ColumnKey(item.columnValues[j], columnNames) != "item_name"
    ensures var row := ParsedRow(item, columnNames);
            "facility" in row && row["facility"] == SplitName(item.name).0
            && "item_name" in row && row["item_name"] == Strip(SplitName(item.name).1)
  {
    ColumnsKeepOthers(BaseRow(item), item.columnValues, columnNames, "facility");
    ColumnsKeepOthers(BaseRow(item), item.columnValues, columnNames, "item_name");
  }

  // ---------------------------------------------------------------------
  // transform_dataframe
  // ---------------------------------------------------------------------

  /** The columns transform_dataframe keeps, in order. */
  const SELECTED: seq<string> :=
    ["region", "id", "RD", "Item Type", "item_name", "Priority", "Status", "Open", "Scheduled",
     "Estimated Cost", "Quoted Cost", "Deposit Date", "Deposit Amount", "Final Cost"]

  /** The frame built from the rows has the column when some row has the key. */
  predicate HasColumn(rows: seq<Row>, column: string)
  {
    exists i :: 0 <= i < |rows| && column in rows[i]
  }

  /** RD with "" turned into NaN and NaN filled from the facility; a missing
      entry is NaN. */
  function FillRd(row: Row): Row
  {
    if "RD" in row && row["RD"] != "" then row
    else if "facility" in row then row["RD" := row["facility"]]
    else row - {"RD"}
  }

  function SelectColumns(row: Row): Row
  {
    map c | c in row && c in SELECTED :: row[c]
  }

  /** transform_dataframe over the frame built from `rows`: a KeyError when a
      column it reads is absent from the frame. */
  function TransformDataframe(rows: seq<Row>): (r: Result<seq<Row>>)
    ensures r.Success? ==> |r.value| == |rows|
  {
    if !HasColumn(rows, "RD") then Failure("KeyError: RD")
    else if !HasColumn(rows, "facility") then Failure("KeyError: facility")
    else if exists c :: c in SELECTED && !HasColumn(rows, c) then Failure("KeyError: missing column")
    else Success(seq(|rows|, i requires 0 <= i < |rows| => SelectColumns(FillRd(rows[i]))))
  }

  /** The transform fails exactly when the frame lacks the facility column or
      one of the selected columns. */
  lemma TransformFailsIffColumnMissing(rows: seq<Row>)
    ensures TransformDataframe(rows).Failure?
            <==> !HasColumn(rows, "facility") || exists c :: c in SELECTED && !HasColumn(rows, c)
  {
    assert "RD" in SELECTED;
  }

  /** An empty or missing RD is replaced by the facility; any other RD is kept. */
  lemma TransformRdFallback(rows: seq<Row>, i: int)
    requires TransformDataframe(rows).Success? && 0 <= i < |rows|
    ensures var out := TransformDataframe(rows).value;
            |out| == |rows|
            && ("RD" in rows[i] && rows[i]["RD"] != "" ==> "RD" in out[i] && out[i]["RD"] == rows[i]["RD"])
            && (("RD" !in rows[i] || rows[i]["RD"] == "") && "facility" in rows[i] ==>
                  "RD" in out[i] && out[i]["RD"] == rows[i]["facility"])
            && (("RD" !in rows[i] || rows[i]["RD"] == "") && "facility" !in rows[i] ==> "RD" !in out[i])
  {
    assert "RD" in SELECTED;
  }

  /** Every other selected column is copied as it is, and nothing else is kept. */
  lemma TransformKeepsSelected(rows: seq<Row>, i: int, c: string)
    requires TransformDataframe(rows).Success? && 0 <= i < |rows| && c != "RD"
    ensures var out := TransformDataframe(rows).value[i];
            (c in out <==> c in rows[i] && c in SELECTED)
            && (c in out ==> out[c] == rows[i][c])
  {
  }

  // ---------------------------------------------------------------------
  // The limit/pages arithmetic
  // ---------------------------------------------------------------------

  const PAGE_CAP: nat := 1000

  /** The page size and the number of pages for `total` items; None for the
      ZeroDivisionError when `total` is 0. */
  function Paging(total: nat): (r: Option<(nat, nat)>)
    ensures r.None? <==> total == 0
    ensures r.Some? ==> 1 <= r.value.0 <= PAGE_CAP && 1 <= r.value.1
  {
    if total == 0 then None
    else
      var limit := if total <= PAGE_CAP then total else PAGE_CAP;
      Some((limit, total / limit + 1))
  }

  /** The page size is min(total, 1000), the page count total // limit + 1,
      and the pages together reach past the total; up to 1000 items that
      makes two pages of `total` items. */
  lemma PagingCovers(total: nat)
    ensures Paging(total).None? <==> total == 0
    ensures Paging(total).Some? ==>
              var limit, pages := Paging(total).value.0, Paging(total).value.1;
              limit == (if total <= PAGE_CAP then total else PAGE_CAP) && 1 <= limit
              && pages == total / limit + 1
              && (pages - 1) * limit <= total < pages * limit
    ensures 0 < total <= PAGE_CAP ==> Paging(total) == Some((total, 2))
  {
    if total > 0 {
      var limit := if total <= PAGE_CAP then total else PAGE_CAP;
      var q := total / limit;
      assert q * limit <= total < q * limit + limit;
      assert (q + 1) * limit == q * limit + limit;
    }
  }

  // ---------------------------------------------------------------------
  // fetch_open_items / fetch_completed
  // ---------------------------------------------------------------------

  const OPEN_GROUPS: set<string> := {"North", "South", "Central"}
  const COMPLETED_COUNT_GROUPS: set<string> := {"North", "South", "Central", "Complete"}
  const COMPLETE_GROUP: set<string> := {"Complete"}

  function Min(a: int, b: int): int
  {
    if a <= b then a else b
  }

  /** count_items_in_groups: the board's items whose group is one of `titles`. */
  function CountInGroups(board: seq<Item>, titles: set<string>): (r: nat)
    ensures r <= |board|
  {
    if board == [] then 0
    else
      var n := |board| - 1;
      CountInGroups(board[..n], titles) + if board[n].group in titles then 1 else 0
  }

  /** The API's page `page` (from 1) of `limit` items, in board order. */
  function PageOf(board: seq<Item>, limit: nat, page: nat): seq<Item>
    requires page >= 1
  {
    board[Min((page - 1) * limit, |board|)..Min(page * limit, |board|)]
  }

  /** The items whose group is one of `titles`, in order. */
  function Kept(items: seq<Item>, titles: set<string>): seq<Item>
  {
    if items == [] then []
    else
      var n := |items| - 1;
      Kept(items[..n], titles) + if items[n].group in titles then [items[n]] else []
  }

  /** The items the page loop keeps from pages 1..pages; a page whose request
      fails is skipped. */
  function FetchedItems(board: seq<Item>, titles: set<string>, limit: nat, pages: nat, failed: set<nat>): seq<Item>
  {
    if pages == 0 then []
    else
      FetchedItems(board, titles, limit, pages - 1, failed)
      + if pages in failed then [] else Kept(PageOf(board, limit, pages), titles)
  }

  /** The rows parse_item makes of the items, in order. */
  function ParseAll(items: seq<Item>, columnNames: map<string, string>): (r: seq<Row>)
    ensures |r| == |items| && forall k :: 0 <= k < |items| ==> r[k] == ParsedRow(items[k], columnNames)
  {
    seq(|items|, k requires 0 <= k < |items| => ParsedRow(items[k], columnNames))
  }

  lemma ParseAllAppend(items: seq<Item>, item: Item, columnNames: map<string, string>)
    ensures ParseAll(items + [item], columnNames) == ParseAll(items, columnNames) + [ParsedRow(item, columnNames)]
  {
    assert ParseAll(items + [item], columnNames)[|items|] == ParsedRow(item, columnNames);
  }

  /** A fetch: the paging from `total`, the page loop, then transform_dataframe. */
  function FetchOutcome(board: seq<Item>, total: nat, titles: set<string>, failed: set<nat>,
                        columnNames: map<string, string>): Result<seq<Row>>
  {
    match Paging(total)
    case None => Failure("ZeroDivisionError")
    case Some(paging) => TransformDataframe(ParseAll(FetchedItems(board, titles, paging.0, paging.1, failed), columnNames))
  }

  lemma {:induction false} ParseAllConcat(a: seq<Item>, b: seq<Item>, columnNames: map<string, string>)
    ensures ParseAll(a + b, columnNames) == ParseAll(a, columnNames) + ParseAll(b, columnNames)
  {
    var l, r := ParseAll(a + b, columnNames), ParseAll(a, columnNames) + ParseAll(b, columnNames);
    assert |l| == |r|;
    forall k | 0 <= k < |l| ensures l[k] == r[k] {
      if k < |a| {
        assert (a + b)[k] == a[k];
      } else {
        assert (a + b)[k] == b[k - |a|];
      }
    }
  }

  /** One page: the items of the page whose group is one of `titles`, parsed. */
  method FetchPage(data: seq<Item>, titles: set<string>, columnNames: map<string, string>) returns (rows: seq<Row>)
    ensures rows == ParseAll(Kept(data, titles), columnNames)
  {
    rows := [];
    ghost var fetched: seq<Item> := [];
    var k := 0;
    while k < |data|
      invariant 0 <= k <= |data|
      invariant fetched == Kept(data[..k], titles)
      invariant rows == ParseAll(fetched, columnNames)
    {
      assert data[..k + 1][..k] == data[..k];
      if data[k].group in titles {
        var row := ParseItem(data[k], columnNames);
        ParseAllAppend(fetched, data[k], columnNames);
        rows := rows + [row];
        fetched := fetched + [data[k]];
      } else {
        assert fetched + [] == fetched;
      }
      k := k + 1;
    }
    assert data[..k] == data;
  }

  /** The page loop shared by both fetches. */
  method FetchPages(board: seq<Item>, titles: set<string>, limit: nat, pages: nat, failed: set<nat>,
                    columnNames: map<string, string>) returns (rows: seq<Row>)
    ensures rows == ParseAll(FetchedItems(board, titles, limit, pages, failed), columnNames)
  {
    rows := [];
    ghost var fetched: seq<Item> := [];
    var page := 1;
    while page <= pages
      invariant 1 <= page <= pages + 1
      invariant fetched == FetchedItems(board, titles, limit, page - 1, failed)
      invariant rows == ParseAll(fetched, columnNames)
    {
      if page in failed {
        assert fetched + [] == fetched;
      } else {
        var pageRows := FetchPage(PageOf(board, limit, page), titles, columnNames);
        ghost var kept := Kept(PageOf(board, limit, page), titles);
        ParseAllConcat(fetched, kept, columnNames);
        rows := rows + pageRows;
        fetched := fetched + kept;
      }
      page := page + 1;
    }
  }

  /** fetch_open_items: pages sized from the count of North/South/Central items. */
  method FetchOpenItems(board: seq<Item>, columnNames: map<string, string>, failed: set<nat>)
    returns (r: Result<seq<Row>>)
    ensures r == FetchOutcome(board, CountInGroups(board, OPEN_GROUPS), OPEN_GROUPS, failed, columnNames)
  {
    var total := CountInGroups(board, OPEN_GROUPS);
    var paging := Paging(total);
    if paging.None? {
      return Failure("ZeroDivisionError");
    }
    var rows := FetchPages(board, OPEN_GROUPS, paging.value.0, paging.value.1, failed, columnNames);
    r := TransformDataframe(rows);
  }

  /** fetch_completed: pages sized from the count of the region and Complete
      groups, keeping the Complete items. */
  method FetchCompleted(board: seq<Item>, columnNames: map<string, string>, failed: set<nat>)
    returns (r: Result<seq<Row>>)
    ensures r == FetchOutcome(board, CountInGroups(board, COMPLETED_COUNT_GROUPS), COMPLETE_GROUP, failed, columnNames)
  {
    var total := CountInGroups(board, COMPLETED_COUNT_GROUPS);
    var paging := Paging(total);
    if paging.None? {
      return Failure("ZeroDivisionError");
    }
    var rows := FetchPages(board, COMPLETE_GROUP, paging.value.0, paging.value.1, failed, columnNames);
    r := TransformDataframe(rows);
  }

  /** fetch_open_items with the pages sized from the whole board, which is
      what the API pages over. */
  method FetchOpenItemsFromBoardSize(board: seq<Item>, columnNames: map<string, string>, failed: set<nat>)
    returns (r: Result<seq<Row>>)
    ensures r == FetchOutcome(board, |board|, OPEN_GROUPS, failed, columnNames)
  {
    var paging := Paging(|board|);
    if paging.None? {
      return Failure("ZeroDivisionError");
    }
    var rows := FetchPages(board, OPEN_GROUPS, paging.value.0, paging.value.1, failed, columnNames);
    r := TransformDataframe(rows);
  }

  // ---------------------------------------------------------------------
  // What the fetches collect
  // ---------------------------------------------------------------------

  lemma {:induction false} KeptConcat(a: seq<Item>, b: seq<Item>, titles: set<string>)
    ensures Kept(a + b, titles) == Kept(a, titles) + Kept(b, titles)
  {
    if b == [] {
      assert a + b == a;
    } else {
      var n := |b| - 1;
      KeptConcat(a, b[..n], titles);
      assert (a + b)[..|a| + n] == a + b[..n];
      assert (a + b)[|a| + n] == b[n];
    }
  }

  /** The filter keeps exactly the items of the groups, in order: each kept
      item is an item of one of the groups. */
  lemma {:induction false} KeptSound(items: seq<Item>, titles: set<string>)
    ensures forall it :: it in Kept(items, titles) ==> it in items && it.group in titles
  {
    if items != [] {
      var n := |items| - 1;
      KeptSound(items[..n], titles);
      assert forall it :: it in items[..n] ==> it in items;
    }
  }

  /** ... and every item of the groups is kept. */
  lemma {:induction false} KeptComplete(items: seq<Item>, titles: set<string>, k: int)
    requires 0 <= k < |items| && items[k].group in titles
    ensures items[k] in Kept(items, titles)
  {
    var n := |items| - 1;
    if k < n {
      assert items[..n][k] == items[k];
      KeptComplete(items[..n], titles, k);
    }
  }

  /** The count of the groups' items is the number of items the filter keeps. */
  lemma {:induction false} CountIsKeptLength(items: seq<Item>, titles: set<string>)
    ensures CountInGroups(items, titles) == |Kept(items, titles)|
  {
    if items != [] {
      CountIsKeptLength(items[..|items| - 1], titles);
    }
  }

  /** A page holds only items of the board. */
  lemma PageItemsOnBoard(board: seq<Item>, limit: nat, page: nat)
    requires page >= 1
    ensures forall it :: it in PageOf(board, limit, page) ==> it in board
  {
    var lo, hi := Min((page - 1) * limit, |board|), Min(page * limit, |board|);
    forall it | it in board[lo..hi] ensures it in board {
      var k :| 0 <= k < hi - lo && board[lo..hi][k] == it;
      assert board[lo + k] == it;
    }
  }

  /** Whatever the page size and the failed pages, every fetched item is an
      item of the board whose group passes the filter. */
  lemma {:induction false} FetchedItemsSound(board: seq<Item>, titles: set<string>, limit: nat, pages: nat, failed: set<nat>)
    ensures forall it :: it in FetchedItems(board, titles, limit, pages, failed) ==> it in board && it.group in titles
  {
    if pages > 0 {
      FetchedItemsSound(board, titles, limit, pages - 1, failed);
      var before := FetchedItems(board, titles, limit, pages - 1, failed);
      var kept := if pages in failed then [] else Kept(PageOf(board, limit, pages), titles);
      KeptSound(PageOf(board, limit, pages), titles);
      PageItemsOnBoard(board, limit, pages);
      forall it | it in before + kept ensures it in board && it.group in titles {
        if it !in before {
          assert it in kept;
        }
      }
    }
  }

  /** Cutting the board at two bounds, each capped at its length. */
  lemma SliceSplit(board: seq<Item>, x: nat, y: nat)
    requires x <= y
    ensures board[..Min(y, |board|)] == board[..Min(x, |board|)] + board[Min(x, |board|)..Min(y, |board|)]
  {
  }

  lemma PageStartsBeforeEnd(limit: nat, pages: nat)
    requires pages >= 1
    ensures (pages - 1) * limit <= pages * limit
  {
    assert pages * limit == (pages - 1) * limit + limit;
  }

  /** The first `pages` pages of the board are the first `pages - 1` pages
      followed by page `pages`. */
  lemma PrefixSplitsAtPage(board: seq<Item>, limit: nat, pages: nat)
    requires pages >= 1
    ensures board[..Min(pages * limit, |board|)]
            == board[..Min((pages - 1) * limit, |board|)] + PageOf(board, limit, pages)
  {
    PageStartsBeforeEnd(limit, pages);
    SliceSplit(board, (pages - 1) * limit, pages * limit);
  }

  /** With no failed page, pages 1..pages keep the items of the first
      pages * limit items of the board, and no others. */
  lemma {:induction false} FetchedItemsArePrefix(board: seq<Item>, titles: set<string>, limit: nat, pages: nat)
    ensures FetchedItems(board, titles, limit, pages, {}) == Kept(board[..Min(pages * limit, |board|)], titles)
  {
    if pages == 0 {
      assert board[..0] == [];
    } else {
      FetchedItemsArePrefix(board, titles, limit, pages - 1);
      PrefixSplitsAtPage(board, limit, pages);
      KeptConcat(board[..Min((pages - 1) * limit, |board|)], PageOf(board, limit, pages), titles);
    }
  }

  /** Sized from the whole board, the open fetch without failed pages keeps
      every open item, in board order. */
  lemma FetchFromBoardSizeIsComplete(board: seq<Item>)
    requires board != []
    ensures var paging := Paging(|board|).value;
            FetchedItems(board, OPEN_GROUPS, paging.0, paging.1, {}) == Kept(board, OPEN_GROUPS)
  {
    var paging := Paging(|board|).value;
    PagingCovers(|board|);
    FetchedItemsArePrefix(board, OPEN_GROUPS, paging.0, paging.1);
    assert board[..Min(paging.1 * paging.0, |board|)] == board;
  }

  /** fetch_open_items as written: three Complete items ahead of one North
      item give a count of 1, hence pages of one item and two pages, which
      reach only the two Complete items at the front; the North item is never
      fetched, with no page failing. */
  lemma OpenFetchMissesItem()
    ensures var board := [Item("1", "A-1", "Complete", []), Item("2", "B-2", "Complete", []),
                          Item("3", "C-3", "Complete", []), Item("4", "D-4", "North", [])];
            CountInGroups(board, OPEN_GROUPS) == 1 && Paging(1) == Some((1, 2))
            && Kept(board, OPEN_GROUPS) == [board[3]]
            && FetchedItems(board, OPEN_GROUPS, 1, 2, {}) == []
  {
    var board := [Item("1", "A-1", "Complete", []), Item("2", "B-2", "Complete", []),
                  Item("3", "C-3", "Complete", []), Item("4", "D-4", "North", [])];
    assert "Complete" !in OPEN_GROUPS && "North" in OPEN_GROUPS;
    var front2, front3 := board[..2], board[..3];
    assert front3[..2] == front2 && front2[..1] == board[..1] && board[..1][..0] == [];
    assert Kept(board[..1], OPEN_GROUPS) == [];
    assert Kept(front2, OPEN_GROUPS) == [];
    assert Kept(front3, OPEN_GROUPS) == [];
    CountIsKeptLength(board, OPEN_GROUPS);
    FetchedItemsArePrefix(board, OPEN_GROUPS, 1, 2);
    assert Min(2 * 1, |board|) == 2;
  }
}
