/** preprocess_df (monday_push_helpers.py): rename each known column to the
    target board's column id, or create it with a default, build the item
    name, then keep only the columns the target board has. */
module Preprocess {

  /** A cell of a frame: NaN, text, a number or a boolean. */
  datatype Cell = Null | Text(s: string) | Num(x: real) | Flag(b: bool)

  /** A frame: its number of rows and its columns by name. */
  datatype Frame = Frame(height: nat, columns: map<string, seq<Cell>>)

  ghost predicate WellFormed(f: Frame)
  {
    forall c :: c in f.columns ==> |f.columns[c]| == f.height
  }

  /** Rename `source` to `target`, or create `target` filled with `default`. */
  datatype Mapping = Mapping(source: string, target: string, default: Cell)

  /** The renamed columns, the board column ids they become, and the value a
      missing column is created with, position by position. */
  const SOURCES: seq<string> := [
    "RD", "id", "cost", "cost_effectiveness", "current_rd_budget_status",
    "current_fund_budget_status", "exceeds_facility_budget", "exceeds_fund_budget",
    "Status", "Priority", "priority_value", "region", "fund",
    "remaining_budget_by_rd", "remaining_budget_by_fund", "PC", "item_name"]
  const TARGETS: seq<string> := [
    "rd", "text2", "numbers", "numbers6", "numbers0",
    "numbers_1", "exceeds_rd_budget5", "exceeds_fund_budget2",
    "status19", "status9", "numbers1", "region5", "text",
    "numbers05", "numbers_15", "text8", "item_name"]
  const DEFAULTS: seq<Cell> := [
    Text(""), Text(""), Num(0.0), Num(0.0), Num(0.0),
    Num(0.0), Text("N/A"), Text("N/A"),
    Text(""), Text(""), Num(0.0), Text(""), Text(""),
    Num(0.0), Num(0.0), Text(""), Text("")]

  /** The mapping table, in the order the loop applies it. */
  function ColumnMappings(): (r: seq<Mapping>)
    ensures |r| == |SOURCES|
    ensures forall i :: 0 <= i < |r| ==> r[i] == Mapping(SOURCES[i], TARGETS[i], DEFAULTS[i])
  {
    seq(|SOURCES|, i requires 0 <= i < |SOURCES| => Mapping(SOURCES[i], TARGETS[i], DEFAULTS[i]))
  }

  function Constant(height: nat, v: Cell): (r: seq<Cell>)
    ensures |r| == height && forall k :: 0 <= k < height ==> r[k] == v
  {
    seq(height, _ => v)
  }

  /** One step of the mapping loop. */
  function ApplyMapping(f: Frame, m: Mapping): Frame
  {
    if m.source in f.columns then Frame(f.height, (f.columns - {m.source})[m.target := f.columns[m.source]])
    else Frame(f.height, f.columns[m.target := Constant(f.height, m.default)])
  }

  /** The mapping loop over a list of mappings, in order. */
  function ApplyMappings(f: Frame, ms: seq<Mapping>): (r: Frame)
    ensures r.height == f.height
  {
    if ms == [] then f else ApplyMapping(ApplyMappings(f, ms[..|ms| - 1]), ms[|ms| - 1])
  }

  /** No two mappings share a source or a target, and no mapping renames onto
      another mapping's source. */
  ghost predicate Unambiguous(ms: seq<Mapping>)
  {
    DistinctSources(ms) && DistinctTargets(ms) && NoChain(ms)
  }

  ghost predicate DistinctSources(ms: seq<Mapping>)
  {
    forall i, j :: 0 <= i < |ms| && 0 <= j < |ms| && i != j ==> ms[i].source != ms[j].source
  }

  ghost predicate DistinctTargets(ms: seq<Mapping>)
  {
    forall i, j :: 0 <= i < |ms| && 0 <= j < |ms| && i != j ==> ms[i].target != ms[j].target
  }

  ghost predicate NoChain(ms: seq<Mapping>)
  {
    forall i, j :: 0 <= i < |ms| && 0 <= j < |ms| && i != j ==> ms[i].source != ms[j].target
  }

  ghost predicate Untouched(ms: seq<Mapping>, c: string)
  {
    forall j :: 0 <= j < |ms| ==> ms[j].source != c && ms[j].target != c
  }

  /** Columns no mapping names pass through unchanged. */
  lemma {:induction false} MappingsKeepOthers(f: Frame, ms: seq<Mapping>, c: string)
    requires Untouched(ms, c)
    ensures ApplyMappings(f, ms).height == f.height
    ensures c in ApplyMappings(f, ms).columns <==> c in f.columns
    ensures c in f.columns ==> ApplyMappings(f, ms).columns[c] == f.columns[c]
  {
    if ms != [] {
      MappingsKeepOthers(f, ms[..|ms| - 1], c);
    }
  }

  /** Each mapped column holds the renamed source column when the source
      existed, and its default in every row when it did not. */
  lemma {:induction false} MappingResult(f: Frame, ms: seq<Mapping>, i: int)
    requires Unambiguous(ms) && 0 <= i < |ms|
    ensures ms[i].target in ApplyMappings(f, ms).columns
    ensures ApplyMappings(f, ms).columns[ms[i].target]
            == if ms[i].source in f.columns then f.columns[ms[i].source] else Constant(f.height, ms[i].default)
  {
    var n := |ms|;
    var front := ms[..n - 1];
    assert Unambiguous(front);
    if i == n - 1 {
      MappingsKeepOthers(f, front, ms[i].source);
    } else {
      MappingResult(f, front, i);
    }
  }

  /** The source of a real rename is gone afterwards. */
  lemma {:induction false} MappingRemovesSource(f: Frame, ms: seq<Mapping>, i: int)
    requires Unambiguous(ms) && 0 <= i < |ms| && ms[i].source != ms[i].target
    ensures ms[i].source !in ApplyMappings(f, ms).columns
  {
    var n := |ms|;
    var front := ms[..n - 1];
    assert Unambiguous(front);
    if i < n - 1 {
      MappingRemovesSource(f, front, i);
    }
  }

  lemma MappingsWellFormed(f: Frame, ms: seq<Mapping>)
    requires WellFormed(f)
    ensures WellFormed(ApplyMappings(f, ms))
  {
    if ms != [] {
      MappingsWellFormed(f, ms[..|ms| - 1]);
    }
  }

  /** The board's mapping table is unambiguous. */
  lemma ColumnMappingsUnambiguous()
    ensures Unambiguous(ColumnMappings())
  {
    SourcesDistinct();
    TargetsDistinct();
    NoMappingChains();
  }

  lemma SourcesDistinct()
    ensures DistinctSources(ColumnMappings())
  {
    assert forall i, j :: 0 <= i < |SOURCES| && 0 <= j < |SOURCES| && i != j ==> SOURCES[i] != SOURCES[j];
  }

  lemma TargetsDistinct()
    ensures DistinctTargets(ColumnMappings())
  {
    assert forall i, j :: 0 <= i < |TARGETS| && 0 <= j < |TARGETS| && i != j ==> TARGETS[i] != TARGETS[j];
  }

  lemma NoMappingChains()
    ensures NoChain(ColumnMappings())
  {
    assert forall i, j :: 0 <= i < |SOURCES| && 0 <= j < |TARGETS| && i != j ==> SOURCES[i] != TARGETS[j];
  }

  // ---------------------------------------------------------------------
  // Name column, string conversion and the board restriction
  // ---------------------------------------------------------------------

  /** Text of a cell after fillna('') and astype(str). */
  function TextOf(c: Cell): string
  {
    match c
    case Null => ""
    case Text(s) => s
    case Flag(b) => if b then "True" else "False"
    case Num(_) => ""
  }

  /** astype(str) without fillna: NaN becomes "nan". */
  function AsStr(c: Cell): Cell
  {
    match c
    case Null => Text("nan")
    case Flag(b) => Text(if b then "True" else "False")
    case _ => c
  }

  /** The `name`, `rd`, `item_name` and `text2` columns after the mapping loop. */
  function Finish(f: Frame): (r: Frame)
    requires WellFormed(f)
    ensures r.height == f.height && WellFormed(r)
    ensures r.columns.Keys == f.columns.Keys + {"name"}
    ensures "rd" in f.columns && "item_name" in f.columns ==>
              forall k :: 0 <= k < f.height ==>
                r.columns["name"][k] == Text(TextOf(f.columns["rd"][k]) + " - " + TextOf(f.columns["item_name"][k]))
                && r.columns["rd"][k] == Text(TextOf(f.columns["rd"][k]))
                && r.columns["item_name"][k] == Text(TextOf(f.columns["item_name"][k]))
    ensures !("rd" in f.columns && "item_name" in f.columns) ==>
              (forall k :: 0 <= k < f.height ==> r.columns["name"][k] == Text(""))
              && ("rd" in f.columns ==> r.columns["rd"] == f.columns["rd"])
              && ("item_name" in f.columns ==> r.columns["item_name"] == f.columns["item_name"])
    ensures "text2" in f.columns ==>
              forall k :: 0 <= k < f.height ==> r.columns["text2"][k] == AsStr(f.columns["text2"][k])
  {
    var cols := f.columns;
    var cols :=
      if "rd" in cols && "item_name" in cols then
        var rd := seq(f.height, k requires 0 <= k < f.height => Text(TextOf(cols["rd"][k])));
        var item := seq(f.height, k requires 0 <= k < f.height => Text(TextOf(cols["item_name"][k])));
        cols["rd" := rd]["item_name" := item]
            ["name" := seq(f.height, k requires 0 <= k < f.height => Text(rd[k].s + " - " + item[k].s))]
      else cols["name" := Constant(f.height, Text(""))];
    var cols :=
      if "text2" in cols then cols["text2" := seq(f.height, k requires 0 <= k < f.height => AsStr(cols["text2"][k]))]
      else cols;
    Frame(f.height, cols)
  }

  /** The name step rewrites only `rd`, `item_name`, `text2` and `name`. */
  lemma FinishKeepsOthers(f: Frame, c: string)
    requires WellFormed(f) && c != "rd" && c != "item_name" && c != "text2" && c != "name"
    ensures c in Finish(f).columns <==> c in f.columns
    ensures c in f.columns ==> Finish(f).columns[c] == f.columns[c]
  {
  }

  function Restrict(f: Frame, keep: set<string>): (r: Frame)
    ensures r.height == f.height
    ensures r.columns.Keys == f.columns.Keys * keep
    ensures forall c :: c in r.columns ==> r.columns[c] == f.columns[c]
  {
    Frame(f.height, map c | c in f.columns && c in keep :: f.columns[c])
  }

  /** The frame preprocess_df returns, as a function of its input. */
  function Prepared(df: Frame, boardColumns: set<string>): Frame
    requires WellFormed(df)
  {
    MappingsWellFormed(df, ColumnMappings());
    Restrict(Finish(ApplyMappings(df, ColumnMappings())), boardColumns)
  }

  /** preprocess_df: the mapping loop, the name column, then the restriction
      to the target board's columns. */
  method PreprocessDf(df: Frame, boardColumns: set<string>) returns (r: Frame)
    requires WellFormed(df)
    ensures r == Prepared(df, boardColumns)
  {
    var f := df;
    var i := 0;
    while i < |ColumnMappings()|
      invariant 0 <= i <= |ColumnMappings()|
      invariant f == ApplyMappings(df, ColumnMappings()[..i])
    {
      var m := ColumnMappings()[i];
      assert ColumnMappings()[..i + 1][..i] == ColumnMappings()[..i];
      if m.source in f.columns {
        f := Frame(f.height, (f.columns - {m.source})[m.target := f.columns[m.source]]);
      } else {
        f := Frame(f.height, f.columns[m.target := Constant(f.height, m.default)]);
      }
      i := i + 1;
    }
    assert ColumnMappings()[..i] == ColumnMappings();
    MappingsWellFormed(df, ColumnMappings());
    r := Restrict(Finish(f), boardColumns);
  }

  /** What a mapped column holds in the returned frame, for the mapped
      columns the name step does not rewrite. */
  lemma PreparedColumn(df: Frame, boardColumns: set<string>, i: int)
    requires WellFormed(df) && 0 <= i < |ColumnMappings()|
    requires ColumnMappings()[i].target !in {"rd", "item_name", "text2"}
    ensures var m := ColumnMappings()[i];
            (m.target in Prepared(df, boardColumns).columns <==> m.target in boardColumns)
            && (m.target in boardColumns ==>
                  Prepared(df, boardColumns).columns[m.target]
                  == if m.source in df.columns then df.columns[m.source] else Constant(df.height, m.default))
  {
    ColumnMappingsUnambiguous();
    MappingResult(df, ColumnMappings(), i);
    MappingsWellFormed(df, ColumnMappings());
    FinishKeepsOthers(ApplyMappings(df, ColumnMappings()), ColumnMappings()[i].target);
  }

  /** The returned frame holds only columns of the target board, always
      including a mapped column the board has. */
  lemma PreparedColumnsOnBoard(df: Frame, boardColumns: set<string>, i: int)
    requires WellFormed(df) && 0 <= i < |ColumnMappings()|
    ensures Prepared(df, boardColumns).columns.Keys <= boardColumns
    ensures ColumnMappings()[i].target in boardColumns ==> ColumnMappings()[i].target in Prepared(df, boardColumns).columns
  {
    ColumnMappingsUnambiguous();
    MappingResult(df, ColumnMappings(), i);
    MappingsWellFormed(df, ColumnMappings());
  }
}
