/** Board reconciliation (monday_push_helpers.py): the snapshot of the target
    board, moving items whose project changed stage, and creating items for
    projects the board does not list yet. */
module Reconcile {
  import opened Wrappers

  /** A row of a preprocessed frame: its `text2` cell (the project id, already
      a string) and its other cells by board column id. */
  datatype PushRow = PushRow(projectId: string, values: map<string, string>)

  /** The column texts of the item created from a row. */
  function Columns(row: PushRow): (r: map<string, string>)
    ensures "text2" in r && r["text2"] == row.projectId
  {
    row.values["text2" := row.projectId]
  }

  /** An item of the target board: the title of its group and its column texts by column id. */
  datatype BoardItem = BoardItem(group: string, columns: map<string, string>)

  /** The three groups items are sorted into. */
  datatype Target = CompleteGroup | InProcessGroup | InQueueGroup
  {
    function Title(): string
    {
      match this
      case CompleteGroup => "Complete"
      case InProcessGroup => "In Process"
      case InQueueGroup => "In Queue"
    }
  }

  /** The target board. Item ids are handed out by the board and never reused. */
  class Board {
    var items: map<nat, BoardItem>
    var nextId: nat

    ghost predicate Valid()
      reads this
    {
      forall id :: id in items ==> id < nextId
    }

    constructor ()
      ensures Valid() && items == map[] && nextId == 0
    {
      items := map[];
      nextId := 0;
    }

    /** delete_item */
    method Delete(itemId: nat)
      requires Valid()
      modifies this
      ensures Valid()
      ensures items == old(items) - {itemId} && nextId == old(nextId)
    {
      items := items - {itemId};
    }

    /** create_item: a new item under a fresh id. */
    method Create(columns: map<string, string>, group: string) returns (itemId: nat)
      requires Valid()
      modifies this
      ensures Valid()
      ensures itemId == old(nextId) && itemId !in old(items)
      ensures items == old(items)[itemId := BoardItem(group, columns)] && nextId == old(nextId) + 1
    {
      itemId := nextId;
      items := items[itemId := BoardItem(group, columns)];
      nextId := nextId + 1;
    }

    /** The body of move_between_groups for one listed item: the rule chain,
        then delete and recreate when a rule applies. */
    method MoveItem(item: ExistingRow, completed: seq<PushRow>, inProcess: seq<PushRow>, open: seq<PushRow>)
      requires Valid()
      modifies this
      ensures Valid()
      ensures var step := MoveOf(item, completed, inProcess, open);
              items == Apply(old(items), step, old(nextId)) && nextId == old(nextId) + |Step(step)|
    {
      DecideChain(PidText(item.id), item.group, completed, inProcess, open);
      var projectId := PidText(item.id);
      var itemGroup := item.group;
      var itemId := item.itemId;
      if itemGroup != "Complete" && InFrame(projectId, completed) {
        Delete(itemId);
        var created := Create(Columns(FirstRow(projectId, completed)), CompleteGroup.Title());
      } else if itemGroup != "In Process" && InFrame(projectId, inProcess) {
        Delete(itemId);
        var created := Create(Columns(FirstRow(projectId, inProcess)), InProcessGroup.Title());
      } else if itemGroup != "In Queue" && InFrame(projectId, open) {
        Delete(itemId);
        var created := Create(Columns(FirstRow(projectId, open)), InQueueGroup.Title());
      }
    }

    /** move_between_groups: take the snapshot, then run every listed item
        through the rule chain. */
    method MoveBetweenGroups(completed: seq<PushRow>, inProcess: seq<PushRow>, open: seq<PushRow>, order: seq<nat>)
      requires Valid() && Listing(order, items)
      modifies this
      ensures Valid()
      ensures var moves := Moves(FindExistingRows(old(items), order), completed, inProcess, open);
              items == AfterMoves(old(items), moves, old(nextId)) && nextId == old(nextId) + |moves|
    {
      var output := FindExistingRows(items, order);
      MoveAll(output, completed, inProcess, open);
    }

    /** The loop of move_between_groups over a snapshot, in order. */
    method MoveAll(output: seq<ExistingRow>, completed: seq<PushRow>, inProcess: seq<PushRow>, open: seq<PushRow>)
      requires Valid()
      modifies this
      ensures Valid()
      ensures var moves := Moves(output, completed, inProcess, open);
              items == AfterMoves(old(items), moves, old(nextId)) && nextId == old(nextId) + |moves|
    {
      ghost var items0, next0 := items, nextId;
      ghost var plan := Plan(output, completed, inProcess, open);
      ghost var done: seq<Move> := [];
      var i := 0;
      while i < |output|
        invariant 0 <= i <= |output|
        invariant Valid()
        invariant done == Chosen(plan[..i])
        invariant items == AfterMoves(items0, done, next0)
        invariant nextId == next0 + |done|
      {
        ChosenStep(plan, i);
        ghost var before, beforeNext := items, nextId;
        MoveItem(output[i], completed, inProcess, open);
        ghost var verdict := plan[i];
        assert verdict == MoveOf(output[i], completed, inProcess, open);
        assert items == Apply(before, verdict, beforeNext);
        AfterMovesApply(items0, done, verdict, next0, before, beforeNext);
        done := done + Step(verdict);
        i := i + 1;
      }
      assert plan[..i] == plan;
    }

    /** The body of create_missing_items for one row: create it in the group
        unless its project id is an existing id. */
    method CreateIfMissing(row: PushRow, t: Target, existingIds: seq<string>)
      requires Valid()
      modifies this
      ensures Valid()
      ensures row.projectId in existingIds ==> items == old(items) && nextId == old(nextId)
      ensures row.projectId !in existingIds ==>
                items == old(items)[old(nextId) := BoardItem(t.Title(), Columns(row))] && nextId == old(nextId) + 1
    {
      var itemId := row.projectId;
      if itemId !in existingIds {
        var created := Create(Columns(row), t.Title());
      }
    }

    /** create_missing_items: take the ids listed on the board, then create
        the missing rows frame by frame. */
    method CreateMissingItems(completed: seq<PushRow>, inProcess: seq<PushRow>, open: seq<PushRow>, order: seq<nat>)
      requires Valid() && Listing(order, items)
      modifies this
      ensures Valid()
      ensures var cs := MissingAll(Jobs(completed, inProcess, open), ExistingIds(FindExistingRows(old(items), order)));
              items == AfterCreations(old(items), cs, old(nextId)) && nextId == old(nextId) + |cs|
    {
      var existingIds := ExistingIds(FindExistingRows(items, order));
      CreateAll(Jobs(completed, inProcess, open), existingIds);
    }

    /** The outer loop of create_missing_items: each frame in turn. */
    method CreateAll(jobs: seq<(seq<PushRow>, Target)>, existingIds: seq<string>)
      requires Valid()
      modifies this
      ensures Valid()
      ensures var cs := MissingAll(jobs, existingIds);
              items == AfterCreations(old(items), cs, old(nextId)) && nextId == old(nextId) + |cs|
    {
      ghost var items0, next0 := items, nextId;
      ghost var done: seq<Creation> := [];
      var i := 0;
      while i < |jobs|
        invariant 0 <= i <= |jobs|
        invariant Valid()
        invariant done == MissingAll(jobs[..i], existingIds)
        invariant items == AfterCreations(items0, done, next0) && nextId == next0 + |done|
      {
        var df: seq<PushRow>, group: Target := jobs[i].0, jobs[i].1;
        ghost var current, currentNext := items, nextId;
        CreateFrame(df, group, existingIds);
        ghost var cs := Missing(df, group, existingIds);
        AfterCreationsConcat(items0, done, cs, next0, current, currentNext);
        MissingAllStep(jobs, i, existingIds);
        done := done + cs;
        i := i + 1;
      }
      assert jobs[..i] == jobs;
    }

    /** The inner loop of create_missing_items: each row of one frame in turn. */
    method CreateFrame(df: seq<PushRow>, group: Target, existingIds: seq<string>)
      requires Valid()
      modifies this
      ensures Valid()
      ensures var cs := Missing(df, group, existingIds);
              items == AfterCreations(old(items), cs, old(nextId)) && nextId == old(nextId) + |cs|
    {
      ghost var items0, next0 := items, nextId;
      ghost var done: seq<Creation> := [];
      var k := 0;
      while k < |df|
        invariant 0 <= k <= |df|
        invariant Valid()
        invariant done == Missing(df[..k], group, existingIds)
        invariant items == AfterCreations(items0, done, next0) && nextId == next0 + |done|
      {
        MissingStep(df, k, group, existingIds);
        ghost var current, currentNext := items, nextId;
        CreateIfMissing(df[k], group, existingIds);
        CreateIfMissingStep(items0, done, df[k], group, existingIds, next0, current, currentNext, items, nextId);
        done := done + if df[k].projectId !in existingIds then [Creation(df[k], group)] else [];
        k := k + 1;
      }
      assert df[..k] == df;
    }
  }

  // ---------------------------------------------------------------------
  // find_existing_rows
  // ---------------------------------------------------------------------

  /** `order` lists every item of the board exactly once (the order the API
      returns them in). */
  ghost predicate Listing(order: seq<nat>, items: map<nat, BoardItem>)
  {
    (forall k :: 0 <= k < |order| ==> order[k] in items)
    && (forall id :: id in items ==> id in order)
    && (forall j, k :: 0 <= j < k < |order| ==> order[j] != order[k])
  }

  /** One entry of find_existing_rows: the `text2` and `status19` column texts,
      None when the item has no such column. */
  datatype ExistingRow = ExistingRow(id: Option<string>, group: string, status: Option<string>, itemId: nat)

  function Lookup(columns: map<string, string>, column: string): (r: Option<string>)
    ensures r.Some? <==> column in columns
    ensures r.Some? ==> r.value == columns[column]
  {
    if column in columns then Some(columns[column]) else None
  }

  function FindExistingRows(items: map<nat, BoardItem>, order: seq<nat>): (r: seq<ExistingRow>)
    requires forall k :: 0 <= k < |order| ==> order[k] in items
    ensures |r| == |order|
    ensures forall k :: 0 <= k < |r| ==>
              r[k].itemId == order[k] && r[k].group == items[order[k]].group
              && r[k].id == Lookup(items[order[k]].columns, "text2")
              && r[k].status == Lookup(items[order[k]].columns, "status19")
  {
    seq(|order|, k requires 0 <= k < |order| =>
      var item := items[order[k]];
      ExistingRow(Lookup(item.columns, "text2"), item.group, Lookup(item.columns, "status19"), order[k]))
  }

  /** Python's str() of the id: a missing id becomes the text "None". */
  function PidText(id: Option<string>): string
  {
    match id
    case Some(s) => s
    case None => "None"
  }

  // ---------------------------------------------------------------------
  // move_between_groups
  // ---------------------------------------------------------------------

  function Ids(frame: seq<PushRow>): (r: seq<string>)
    ensures |r| == |frame| && forall k :: 0 <= k < |frame| ==> r[k] == frame[k].projectId
  {
    seq(|frame|, k requires 0 <= k < |frame| => frame[k].projectId)
  }

  /** `project_id in df['text2'].values` */
  predicate InFrame(pid: string, frame: seq<PushRow>)
  {
    pid in Ids(frame)
  }

  /** The position of the first row listing the project. */
  function FirstIndex(pid: string, frame: seq<PushRow>): (k: nat)
    requires InFrame(pid, frame)
    ensures k < |frame| && frame[k].projectId == pid
    ensures forall j :: 0 <= j < k ==> frame[j].projectId != pid
  {
    if frame[0].projectId == pid then 0
    else
      assert Ids(frame[1..]) == Ids(frame)[1..];
      1 + FirstIndex(pid, frame[1..])
  }

  /** The row `.iloc[0]` picks: the first one with this project id. */
  function FirstRow(pid: string, frame: seq<PushRow>): (r: PushRow)
    requires InFrame(pid, frame)
    ensures r in frame && r.projectId == pid
  {
    frame[FirstIndex(pid, frame)]
  }

  function FrameOf(t: Target, completed: seq<PushRow>, inProcess: seq<PushRow>, open: seq<PushRow>): seq<PushRow>
  {
    match t
    case CompleteGroup => completed
    case InProcessGroup => inProcess
    case InQueueGroup => open
  }

  /** The groups of move_between_groups' rule chain, in the order the rules are tried. */
  function RuleOrder(): seq<Target>
  {
    [CompleteGroup, InProcessGroup, InQueueGroup]
  }

  /** The first rule that applies: the item is outside the rule's group and
      the rule's frame lists the project. */
  function FirstRule(rules: seq<Target>, pid: string, group: string,
                     completed: seq<PushRow>, inProcess: seq<PushRow>, open: seq<PushRow>): (r: Option<Target>)
    ensures r.Some? ==> r.value in rules && group != r.value.Title()
                        && InFrame(pid, FrameOf(r.value, completed, inProcess, open))
    ensures r.None? ==> forall t :: t in rules ==> group == t.Title() || !InFrame(pid, FrameOf(t, completed, inProcess, open))
  {
    if rules == [] then None
    else if group != rules[0].Title() && InFrame(pid, FrameOf(rules[0], completed, inProcess, open)) then Some(rules[0])
    else FirstRule(rules[1..], pid, group, completed, inProcess, open)
  }

  /** The verdict of the rule chain for one listed item. */
  function Decide(pid: string, group: string, completed: seq<PushRow>, inProcess: seq<PushRow>, open: seq<PushRow>): (r: Option<Target>)
    ensures r.Some? ==> group != r.value.Title() && InFrame(pid, FrameOf(r.value, completed, inProcess, open))
    ensures r.None? <==> forall t :: t in RuleOrder() ==> group == t.Title() || !InFrame(pid, FrameOf(t, completed, inProcess, open))
  {
    FirstRule(RuleOrder(), pid, group, completed, inProcess, open)
  }

  /** The chain spelled out: Complete, then In Process, then In Queue. */
  lemma DecideChain(pid: string, group: string, completed: seq<PushRow>, inProcess: seq<PushRow>, open: seq<PushRow>)
    ensures Decide(pid, group, completed, inProcess, open)
            == if group != "Complete" && InFrame(pid, completed) then Some(CompleteGroup)
               else if group != "In Process" && InFrame(pid, inProcess) then Some(InProcessGroup)
               else if group != "In Queue" && InFrame(pid, open) then Some(InQueueGroup)
               else None
  {
    var rules := RuleOrder();
    var queue, last := rules[1..], rules[2..];
    assert queue == [InProcessGroup, InQueueGroup] && queue[1..] == last;
    assert last == [InQueueGroup] && last[1..] == [];
    assert FirstRule(last, pid, group, completed, inProcess, open)
           == if group != "In Queue" && InFrame(pid, open) then Some(InQueueGroup) else None;
    assert FirstRule(queue, pid, group, completed, inProcess, open)
           == if group != "In Process" && InFrame(pid, inProcess) then Some(InProcessGroup)
              else FirstRule(last, pid, group, completed, inProcess, open);
  }

  /** No project id is listed by two of the frames, as when each comes from
      its own groups of the source board. */
  ghost predicate Disjoint(completed: seq<PushRow>, inProcess: seq<PushRow>, open: seq<PushRow>)
  {
    forall pid ::
      !(InFrame(pid, completed) && InFrame(pid, inProcess))
      && !(InFrame(pid, completed) && InFrame(pid, open))
      && !(InFrame(pid, inProcess) && InFrame(pid, open))
  }

  /** The stage a project belongs to: the first frame listing it. */
  function FirstTarget(pid: string, completed: seq<PushRow>, inProcess: seq<PushRow>, open: seq<PushRow>): Option<Target>
  {
    if InFrame(pid, completed) then Some(CompleteGroup)
    else if InFrame(pid, inProcess) then Some(InProcessGroup)
    else if InFrame(pid, open) then Some(InQueueGroup)
    else None
  }

  /** With disjoint frames the chain moves an item exactly when its group
      differs from its project's stage, and moves it to that stage's group. */
  lemma DecideIsFirstMatch(pid: string, group: string, completed: seq<PushRow>, inProcess: seq<PushRow>, open: seq<PushRow>)
    requires Disjoint(completed, inProcess, open)
    ensures Decide(pid, group, completed, inProcess, open)
            == match FirstTarget(pid, completed, inProcess, open)
               case None => None
               case Some(t) => if group == t.Title() then None else Some(t)
  {
    DecideChain(pid, group, completed, inProcess, open);
    assert !(InFrame(pid, completed) && InFrame(pid, inProcess));
    assert !(InFrame(pid, completed) && InFrame(pid, open));
    assert !(InFrame(pid, inProcess) && InFrame(pid, open));
  }

  /** One delete-and-recreate. */
  datatype Move = Move(itemId: nat, target: Target, row: PushRow)

  function MoveOf(r: ExistingRow, completed: seq<PushRow>, inProcess: seq<PushRow>, open: seq<PushRow>): Option<Move>
  {
    var pid := PidText(r.id);
    match Decide(pid, r.group, completed, inProcess, open)
    case None => None
    case Some(t) => Some(Move(r.itemId, t, FirstRow(pid, FrameOf(t, completed, inProcess, open))))
  }

  /** A move deletes the listed item, targets a group the item is not in,
      and recreates the row its target's frame lists for the project. */
  lemma MoveOfFacts(r: ExistingRow, completed: seq<PushRow>, inProcess: seq<PushRow>, open: seq<PushRow>)
    ensures var m := MoveOf(r, completed, inProcess, open);
            var d := Decide(PidText(r.id), r.group, completed, inProcess, open);
            (m.Some? <==> d.Some?)
            && (m.Some? ==> m.value.itemId == r.itemId && m.value.target == d.value
                            && r.group != d.value.Title()
                            && m.value.row.projectId == PidText(r.id)
                            && m.value.row in FrameOf(m.value.target, completed, inProcess, open))
  {
    DecideChain(PidText(r.id), r.group, completed, inProcess, open);
  }

  /** The rule chain's verdict for each listed item, in order. */
  function Plan(rows: seq<ExistingRow>, completed: seq<PushRow>, inProcess: seq<PushRow>, open: seq<PushRow>): (r: seq<Option<Move>>)
    ensures |r| == |rows| && forall k :: 0 <= k < |rows| ==> r[k] == MoveOf(rows[k], completed, inProcess, open)
  {
    seq(|rows|, k requires 0 <= k < |rows| => MoveOf(rows[k], completed, inProcess, open))
  }

  /** The moves a plan carries out, in order. */
  function Chosen(plan: seq<Option<Move>>): (r: seq<Move>)
    ensures |r| <= |plan|
  {
    if plan == [] then []
    else
      var n := |plan| - 1;
      Chosen(plan[..n]) + match plan[n] case None => [] case Some(m) => [m]
  }

  /** The moves of one pass over the snapshot. */
  function Moves(rows: seq<ExistingRow>, completed: seq<PushRow>, inProcess: seq<PushRow>, open: seq<PushRow>): (r: seq<Move>)
    ensures |r| <= |rows|
  {
    Chosen(Plan(rows, completed, inProcess, open))
  }

  lemma ChosenStep(plan: seq<Option<Move>>, i: int)
    requires 0 <= i < |plan|
    ensures Chosen(plan[..i + 1]) == Chosen(plan[..i]) + match plan[i] case None => [] case Some(m) => [m]
  {
    assert plan[..i + 1][..i] == plan[..i];
  }

  /** Every chosen move is one of the plan's verdicts. */
  lemma {:induction false} ChosenFromPlan(plan: seq<Option<Move>>, j: int)
    requires 0 <= j < |Chosen(plan)|
    ensures exists k :: 0 <= k < |plan| && plan[k] == Some(Chosen(plan)[j])
  {
    var n := |plan| - 1;
    var front := Chosen(plan[..n]);
    if j < |front| {
      ChosenFromPlan(plan[..n], j);
      var k :| 0 <= k < n && plan[..n][k] == Some(front[j]);
      assert plan[k] == Some(Chosen(plan)[j]);
    } else {
      assert plan[n] == Some(Chosen(plan)[j]);
    }
  }

  /** Every verdict that is a move is carried out. */
  lemma {:induction false} ChosenComplete(plan: seq<Option<Move>>, k: int)
    requires 0 <= k < |plan| && plan[k].Some?
    ensures plan[k].value in Chosen(plan)
  {
    var n := |plan| - 1;
    if k < n {
      assert plan[..n][k] == plan[k];
      ChosenComplete(plan[..n], k);
    }
  }

  lemma {:induction false} NothingChosen(plan: seq<Option<Move>>)
    requires forall k :: 0 <= k < |plan| ==> plan[k].None?
    ensures Chosen(plan) == []
  {
    if plan != [] {
      var n := |plan| - 1;
      assert forall k :: 0 <= k < n ==> plan[..n][k] == plan[k];
      NothingChosen(plan[..n]);
    }
  }

  /** The items a pass deletes. */
  function MovedIds(moves: seq<Move>): (r: set<nat>)
    ensures forall j :: 0 <= j < |moves| ==> moves[j].itemId in r
  {
    if moves == [] then {} else MovedIds(moves[..|moves| - 1]) + {moves[|moves| - 1].itemId}
  }

  lemma {:induction false} MovedIdsIndex(moves: seq<Move>, id: nat)
    requires id in MovedIds(moves)
    ensures exists j :: 0 <= j < |moves| && moves[j].itemId == id
  {
    var n := |moves| - 1;
    if id != moves[n].itemId {
      MovedIdsIndex(moves[..n], id);
      var j :| 0 <= j < n && moves[..n][j].itemId == id;
      assert moves[j].itemId == id;
    }
  }

  /** When the plan's verdicts are about distinct items, an item is deleted
      exactly when its verdict is a move. */
  lemma MovedIffChosen(plan: seq<Option<Move>>, ids: seq<nat>, k: int)
    requires |ids| == |plan| && 0 <= k < |plan|
    requires forall j, i :: 0 <= j < i < |ids| ==> ids[j] != ids[i]
    requires forall i :: 0 <= i < |plan| && plan[i].Some? ==> plan[i].value.itemId == ids[i]
    ensures ids[k] in MovedIds(Chosen(plan)) <==> plan[k].Some?
  {
    if plan[k].Some? {
      ChosenComplete(plan, k);
      var j :| 0 <= j < |Chosen(plan)| && Chosen(plan)[j] == plan[k].value;
    } else if ids[k] in MovedIds(Chosen(plan)) {
      MovedIdsIndex(Chosen(plan), ids[k]);
      var j :| 0 <= j < |Chosen(plan)| && Chosen(plan)[j].itemId == ids[k];
      ChosenFromPlan(plan, j);
    }
  }

  function Recreated(m: Move): BoardItem
  {
    BoardItem(m.target.Title(), Columns(m.row))
  }

  /** The board after the first |moves| moves; move j creates item next0 + j. */
  function AfterMoves(items: map<nat, BoardItem>, moves: seq<Move>, next0: nat): map<nat, BoardItem>
  {
    if moves == [] then items
    else
      var n := |moves| - 1;
      (AfterMoves(items, moves[..n], next0) - {moves[n].itemId})[next0 + n := Recreated(moves[n])]
  }

  /** The moves a verdict adds: none or one. */
  function Step(verdict: Option<Move>): seq<Move>
  {
    match verdict
    case None => []
    case Some(m) => [m]
  }

  /** The board after one verdict, the new item (if any) taking id `id`. */
  function Apply(items: map<nat, BoardItem>, verdict: Option<Move>, id: nat): map<nat, BoardItem>
  {
    match verdict
    case None => items
    case Some(m) => (items - {m.itemId})[id := Recreated(m)]
  }

  /** One more verdict of the pass, applied to the board it finds. */
  lemma AfterMovesApply(items: map<nat, BoardItem>, moves: seq<Move>, verdict: Option<Move>, next0: nat,
                        current: map<nat, BoardItem>, currentNext: nat)
    requires current == AfterMoves(items, moves, next0) && currentNext == next0 + |moves|
    ensures Apply(current, verdict, currentNext) == AfterMoves(items, moves + Step(verdict), next0)
  {
    if verdict.Some? {
      AfterMovesStep(items, moves, verdict.value, next0);
    } else {
      assert moves + Step(verdict) == moves;
    }
  }

  lemma AfterMovesStep(items: map<nat, BoardItem>, moves: seq<Move>, m: Move, next0: nat)
    ensures AfterMoves(items, moves + [m], next0)
            == (AfterMoves(items, moves, next0) - {m.itemId})[next0 + |moves| := Recreated(m)]
  {
    assert (moves + [m])[..|moves|] == moves;
  }

  /** The items a pass leaves: the ones not moved and one new item per move. */
  lemma {:induction false} AfterMovesKeys(items: map<nat, BoardItem>, moves: seq<Move>, next0: nat)
    requires forall id :: id in items ==> id < next0
    requires forall j :: 0 <= j < |moves| ==> moves[j].itemId < next0
    ensures forall id :: id in AfterMoves(items, moves, next0) <==>
              (id in items && id !in MovedIds(moves)) || next0 <= id < next0 + |moves|
  {
    if moves != [] {
      var n := |moves| - 1;
      assert forall j :: 0 <= j < n ==> moves[..n][j] == moves[j];
      AfterMovesKeys(items, moves[..n], next0);
    }
  }

  /** The items not moved keep their content. */
  lemma {:induction false} AfterMovesKeeps(items: map<nat, BoardItem>, moves: seq<Move>, next0: nat, id: nat)
    requires forall id :: id in items ==> id < next0
    requires id in items && id !in MovedIds(moves)
    ensures id in AfterMoves(items, moves, next0) && AfterMoves(items, moves, next0)[id] == items[id]
  {
    if moves != [] {
      AfterMovesKeeps(items, moves[..|moves| - 1], next0, id);
    }
  }

  /** Move j's new item is item next0 + j, in the move's group. */
  lemma {:induction false} AfterMovesCreates(items: map<nat, BoardItem>, moves: seq<Move>, next0: nat, j: int)
    requires forall j :: 0 <= j < |moves| ==> moves[j].itemId < next0
    requires 0 <= j < |moves|
    ensures next0 + j in AfterMoves(items, moves, next0) && AfterMoves(items, moves, next0)[next0 + j] == Recreated(moves[j])
  {
    var n := |moves| - 1;
    if j < n {
      assert moves[..n][j] == moves[j];
      assert forall i :: 0 <= i < n ==> moves[..n][i] == moves[i];
      AfterMovesCreates(items, moves[..n], next0, j);
    }
  }

  /** Facts about a snapshot's plan: verdicts name their own listed item,
      listed items are distinct, and every move deletes an item older than next0. */
  lemma PlanFacts(items: map<nat, BoardItem>, order: seq<nat>, next0: nat,
                  completed: seq<PushRow>, inProcess: seq<PushRow>, open: seq<PushRow>)
    requires Listing(order, items) && (forall id :: id in items ==> id < next0)
    ensures var plan := Plan(FindExistingRows(items, order), completed, inProcess, open);
            (forall i :: 0 <= i < |plan| && plan[i].Some? ==> plan[i].value.itemId == order[i])
            && (forall j :: 0 <= j < |Chosen(plan)| ==> Chosen(plan)[j].itemId < next0)
  {
    var rows := FindExistingRows(items, order);
    var plan := Plan(rows, completed, inProcess, open);
    forall i | 0 <= i < |plan| && plan[i].Some?
      ensures plan[i].value.itemId == order[i]
    {
      MoveOfFacts(rows[i], completed, inProcess, open);
    }
    forall j | 0 <= j < |Chosen(plan)|
      ensures Chosen(plan)[j].itemId < next0
    {
      ChosenFromPlan(plan, j);
      var i :| 0 <= i < |plan| && plan[i] == Some(Chosen(plan)[j]);
      assert plan[i].value.itemId == order[i];
    }
  }

  /** An item the rule chain leaves alone is still on the board, unchanged. */
  lemma SettledItemUntouched(items: map<nat, BoardItem>, order: seq<nat>, next0: nat,
                             completed: seq<PushRow>, inProcess: seq<PushRow>, open: seq<PushRow>, k: int)
    requires Listing(order, items) && (forall id :: id in items ==> id < next0) && 0 <= k < |order|
    requires MoveOf(FindExistingRows(items, order)[k], completed, inProcess, open).None?
    ensures var after := AfterMoves(items, Moves(FindExistingRows(items, order), completed, inProcess, open), next0);
            order[k] in after && after[order[k]] == items[order[k]]
  {
    var plan := Plan(FindExistingRows(items, order), completed, inProcess, open);
    PlanFacts(items, order, next0, completed, inProcess, open);
    MovedIffChosen(plan, order, k);
    AfterMovesKeeps(items, Chosen(plan), next0, order[k]);
  }

  /** An item the rule chain applies to is deleted, and its project's row is
      recreated in the rule's group under a fresh id. */
  lemma MovedItemRecreated(items: map<nat, BoardItem>, order: seq<nat>, next0: nat,
                           completed: seq<PushRow>, inProcess: seq<PushRow>, open: seq<PushRow>, k: int)
    requires Listing(order, items) && (forall id :: id in items ==> id < next0) && 0 <= k < |order|
    requires MoveOf(FindExistingRows(items, order)[k], completed, inProcess, open).Some?
    ensures var r := FindExistingRows(items, order)[k];
            var t := Decide(PidText(r.id), r.group, completed, inProcess, open).value;
            var after := AfterMoves(items, Moves(FindExistingRows(items, order), completed, inProcess, open), next0);
            order[k] !in after
            && exists id :: id >= next0 && id in after
                            && after[id] == BoardItem(t.Title(), Columns(FirstRow(PidText(r.id), FrameOf(t, completed, inProcess, open))))
  {
    var rows := FindExistingRows(items, order);
    var plan := Plan(rows, completed, inProcess, open);
    var moves := Chosen(plan);
    PlanFacts(items, order, next0, completed, inProcess, open);
    MovedIffChosen(plan, order, k);
    AfterMovesKeys(items, moves, next0);
    ChosenComplete(plan, k);
    var j :| 0 <= j < |moves| && moves[j] == plan[k].value;
    AfterMovesCreates(items, moves, next0, j);
  }

  /** With disjoint frames, an item in its project's group is left alone. */
  lemma SettledStaysSettled(pid: string, t: Target, completed: seq<PushRow>, inProcess: seq<PushRow>, open: seq<PushRow>)
    requires Disjoint(completed, inProcess, open) && InFrame(pid, FrameOf(t, completed, inProcess, open))
    ensures Decide(pid, t.Title(), completed, inProcess, open).None?
  {
    DecideIsFirstMatch(pid, t.Title(), completed, inProcess, open);
  }

  /** With disjoint frames, moving is idempotent: a second pass over the
      resulting board, in any listing order, moves nothing. */
  lemma SecondMoveIsNoOp(items: map<nat, BoardItem>, order: seq<nat>, next0: nat,
                         completed: seq<PushRow>, inProcess: seq<PushRow>, open: seq<PushRow>, order2: seq<nat>)
    requires Disjoint(completed, inProcess, open)
    requires Listing(order, items) && (forall id :: id in items ==> id < next0)
    requires Listing(order2, AfterMoves(items, Moves(FindExistingRows(items, order), completed, inProcess, open), next0))
    ensures var after := AfterMoves(items, Moves(FindExistingRows(items, order), completed, inProcess, open), next0);
            Moves(FindExistingRows(after, order2), completed, inProcess, open) == []
  {
    var after := AfterMoves(items, Moves(FindExistingRows(items, order), completed, inProcess, open), next0);
    var plan2 := Plan(FindExistingRows(after, order2), completed, inProcess, open);
    forall k | 0 <= k < |plan2|
      ensures plan2[k].None?
    {
      if order2[k] < next0 {
        SurvivorSettled(items, order, next0, completed, inProcess, open, order2, k);
      } else {
        RecreatedSettled(items, order, next0, completed, inProcess, open, order2, k);
      }
    }
    NothingChosen(plan2);
  }

  /** An item that survives the pass was left alone by it, so the second pass
      sees the same id and group and leaves it alone too. */
  lemma SurvivorSettled(items: map<nat, BoardItem>, order: seq<nat>, next0: nat,
                        completed: seq<PushRow>, inProcess: seq<PushRow>, open: seq<PushRow>, order2: seq<nat>, k: int)
    requires Listing(order, items) && (forall id :: id in items ==> id < next0)
    requires Listing(order2, AfterMoves(items, Moves(FindExistingRows(items, order), completed, inProcess, open), next0))
    requires 0 <= k < |order2| && order2[k] < next0
    ensures var after := AfterMoves(items, Moves(FindExistingRows(items, order), completed, inProcess, open), next0);
            MoveOf(FindExistingRows(after, order2)[k], completed, inProcess, open).None?
  {
    var rows := FindExistingRows(items, order);
    var plan := Plan(rows, completed, inProcess, open);
    var moves := Chosen(plan);
    var after := AfterMoves(items, moves, next0);
    PlanFacts(items, order, next0, completed, inProcess, open);
    AfterMovesKeys(items, moves, next0);
    var rows2 := FindExistingRows(after, order2);
    var id := order2[k];
    var k' :| 0 <= k' < |order| && order[k'] == id;
    MovedIffChosen(plan, order, k');
    AfterMovesKeeps(items, moves, next0, id);
    MoveOfFacts(rows2[k], completed, inProcess, open);
    MoveOfFacts(rows[k'], completed, inProcess, open);
    assert rows2[k].id == rows[k'].id && rows2[k].group == rows[k'].group;
  }

  /** With disjoint frames, an item the pass recreated sits in its project's
      group, so the second pass leaves it alone. */
  lemma RecreatedSettled(items: map<nat, BoardItem>, order: seq<nat>, next0: nat,
                         completed: seq<PushRow>, inProcess: seq<PushRow>, open: seq<PushRow>, order2: seq<nat>, k: int)
    requires Disjoint(completed, inProcess, open)
    requires Listing(order, items) && (forall id :: id in items ==> id < next0)
    requires Listing(order2, AfterMoves(items, Moves(FindExistingRows(items, order), completed, inProcess, open), next0))
    requires 0 <= k < |order2| && order2[k] >= next0
    ensures var after := AfterMoves(items, Moves(FindExistingRows(items, order), completed, inProcess, open), next0);
            MoveOf(FindExistingRows(after, order2)[k], completed, inProcess, open).None?
  {
    var rows := FindExistingRows(items, order);
    var plan := Plan(rows, completed, inProcess, open);
    var moves := Chosen(plan);
    var after := AfterMoves(items, moves, next0);
    PlanFacts(items, order, next0, completed, inProcess, open);
    AfterMovesKeys(items, moves, next0);
    var rows2 := FindExistingRows(after, order2);
    var j := order2[k] - next0;
    AfterMovesCreates(items, moves, next0, j);
    var m := moves[j];
    ChosenFromPlan(plan, j);
    var i :| 0 <= i < |plan| && plan[i] == Some(m);
    MoveOfFacts(rows[i], completed, inProcess, open);
    MoveOfFacts(rows2[k], completed, inProcess, open);
    assert rows2[k].id == Some(m.row.projectId) && rows2[k].group == m.target.Title();
    assert InFrame(m.row.projectId, FrameOf(m.target, completed, inProcess, open));
    SettledStaysSettled(m.row.projectId, m.target, completed, inProcess, open);
  }

  // ---------------------------------------------------------------------
  // create_missing_items
  // ---------------------------------------------------------------------

  /** `existing_ids`: the str() of each listed item's project id. */
  function ExistingIds(rows: seq<ExistingRow>): (r: seq<string>)
    ensures |r| == |rows| && forall k :: 0 <= k < |rows| ==> r[k] == PidText(rows[k].id)
  {
    seq(|rows|, k requires 0 <= k < |rows| => PidText(rows[k].id))
  }

  datatype Creation = Creation(row: PushRow, target: Target)

  /** The creations for one frame, in row order: the rows whose id is not an existing id. */
  function Missing(frame: seq<PushRow>, t: Target, existing: seq<string>): (r: seq<Creation>)
    ensures |r| <= |frame|
  {
    if frame == [] then []
    else
      var n := |frame| - 1;
      Missing(frame[..n], t, existing) + if frame[n].projectId !in existing then [Creation(frame[n], t)] else []
  }

  /** Each creation is a row of the frame, for the frame's group, whose id is not an existing id. */
  lemma {:induction false} MissingSound(frame: seq<PushRow>, t: Target, existing: seq<string>)
    ensures forall j :: 0 <= j < |Missing(frame, t, existing)| ==>
              Missing(frame, t, existing)[j].target == t && Missing(frame, t, existing)[j].row in frame
              && Missing(frame, t, existing)[j].row.projectId !in existing
  {
    if frame != [] {
      var n := |frame| - 1;
      MissingSound(frame[..n], t, existing);
      var front := Missing(frame[..n], t, existing);
      var r := Missing(frame, t, existing);
      assert r == front + if frame[n].projectId !in existing then [Creation(frame[n], t)] else [];
      forall j | 0 <= j < |r|
        ensures r[j].target == t && r[j].row in frame && r[j].row.projectId !in existing
      {
        if j < |front| {
          assert r[j] == front[j];
          assert front[j].target == t && front[j].row in frame[..n] && front[j].row.projectId !in existing;
          assert frame[..n] <= frame;
        } else {
          assert r[j] == Creation(frame[n], t);
        }
      }
    }
  }

  /** Each row whose id is not an existing id gets a creation. */
  lemma {:induction false} MissingComplete(frame: seq<PushRow>, t: Target, existing: seq<string>, k: int)
    requires 0 <= k < |frame| && frame[k].projectId !in existing
    ensures Creation(frame[k], t) in Missing(frame, t, existing)
  {
    var n := |frame| - 1;
    if k < n {
      assert frame[..n][k] == frame[k];
      MissingComplete(frame[..n], t, existing, k);
    }
  }

  /** The frames and their groups, in the order they are handled. */
  function Jobs(completed: seq<PushRow>, inProcess: seq<PushRow>, open: seq<PushRow>): seq<(seq<PushRow>, Target)>
  {
    [(completed, CompleteGroup), (inProcess, InProcessGroup), (open, InQueueGroup)]
  }

  /** The number of rows over all frames. */
  function TotalRows(jobs: seq<(seq<PushRow>, Target)>): nat
  {
    if jobs == [] then 0 else TotalRows(jobs[..|jobs| - 1]) + |jobs[|jobs| - 1].0|
  }

  function MissingAll(jobs: seq<(seq<PushRow>, Target)>, existing: seq<string>): (r: seq<Creation>)
    ensures |r| <= TotalRows(jobs)
  {
    if jobs == [] then []
    else
      var n := |jobs| - 1;
      MissingAll(jobs[..n], existing) + Missing(jobs[n].0, jobs[n].1, existing)
  }

  /** Over all frames: each creation is a row of one of the frames, for that
      frame's group, whose id is not an existing id. */
  lemma {:induction false} MissingAllSound(jobs: seq<(seq<PushRow>, Target)>, existing: seq<string>, j: int)
    requires 0 <= j < |MissingAll(jobs, existing)|
    ensures var c := MissingAll(jobs, existing)[j];
            c.row.projectId !in existing
            && exists i :: 0 <= i < |jobs| && c.row in jobs[i].0 && c.target == jobs[i].1
  {
    var n := |jobs| - 1;
    var front := MissingAll(jobs[..n], existing);
    var last := Missing(jobs[n].0, jobs[n].1, existing);
    var c := MissingAll(jobs, existing)[j];
    assert MissingAll(jobs, existing) == front + last;
    if j < |front| {
      assert c == front[j];
      MissingAllSound(jobs[..n], existing, j);
      var i :| 0 <= i < n && c.row in jobs[..n][i].0 && c.target == jobs[..n][i].1;
      assert jobs[..n][i] == jobs[i];
    } else {
      var frame, t := jobs[n].0, jobs[n].1;
      MissingSound(frame, t, existing);
      var jj := j - |front|;
      assert last == Missing(frame, t, existing);
      assert forall q :: 0 <= q < |Missing(frame, t, existing)| ==> Missing(frame, t, existing)[q].row in frame;
      assert 0 <= jj < |last|;
      assert c == last[jj];
      assert last[jj].row in frame;
    }
  }

  /** Over all frames: each row whose id is not an existing id gets a creation. */
  lemma {:induction false} MissingAllComplete(jobs: seq<(seq<PushRow>, Target)>, existing: seq<string>, i: int, k: int)
    requires 0 <= i < |jobs| && 0 <= k < |jobs[i].0| && jobs[i].0[k].projectId !in existing
    ensures Creation(jobs[i].0[k], jobs[i].1) in MissingAll(jobs, existing)
  {
    var n := |jobs| - 1;
    if i < n {
      assert jobs[..n][i] == jobs[i];
      MissingAllComplete(jobs[..n], existing, i, k);
    } else {
      MissingComplete(jobs[n].0, jobs[n].1, existing, k);
    }
  }

  /** The board after the first |cs| creations; creation j makes item next0 + j. */
  function AfterCreations(items: map<nat, BoardItem>, cs: seq<Creation>, next0: nat): map<nat, BoardItem>
  {
    if cs == [] then items
    else
      var n := |cs| - 1;
      AfterCreations(items, cs[..n], next0)[next0 + n := BoardItem(cs[n].target.Title(), Columns(cs[n].row))]
  }

  lemma MissingStep(frame: seq<PushRow>, k: int, t: Target, existing: seq<string>)
    requires 0 <= k < |frame|
    ensures Missing(frame[..k + 1], t, existing)
            == Missing(frame[..k], t, existing) + if frame[k].projectId !in existing then [Creation(frame[k], t)] else []
  {
    assert frame[..k + 1][..k] == frame[..k];
  }

  lemma MissingAllStep(jobs: seq<(seq<PushRow>, Target)>, i: int, existing: seq<string>)
    requires 0 <= i < |jobs|
    ensures MissingAll(jobs[..i + 1], existing) == MissingAll(jobs[..i], existing) + Missing(jobs[i].0, jobs[i].1, existing)
  {
    assert jobs[..i + 1][..i] == jobs[..i];
  }

  /** One more creation, applied to the board it finds. */
  lemma AfterCreationsStep(items: map<nat, BoardItem>, cs: seq<Creation>, c: Creation, next0: nat,
                           current: map<nat, BoardItem>, currentNext: nat)
    requires current == AfterCreations(items, cs, next0) && currentNext == next0 + |cs|
    ensures current[currentNext := BoardItem(c.target.Title(), Columns(c.row))] == AfterCreations(items, cs + [c], next0)
  {
    assert (cs + [c])[..|cs|] == cs;
  }

  /** One row of the create loop, created or skipped, applied to the board it finds. */
  lemma CreateIfMissingStep(items: map<nat, BoardItem>, cs: seq<Creation>, row: PushRow, t: Target, existing: seq<string>,
                            next0: nat, current: map<nat, BoardItem>, currentNext: nat,
                            after: map<nat, BoardItem>, afterNext: nat)
    requires current == AfterCreations(items, cs, next0) && currentNext == next0 + |cs|
    requires row.projectId in existing ==> after == current && afterNext == currentNext
    requires row.projectId !in existing ==>
               after == current[currentNext := BoardItem(t.Title(), Columns(row))] && afterNext == currentNext + 1
    ensures var step := if row.projectId !in existing then [Creation(row, t)] else [];
            after == AfterCreations(items, cs + step, next0) && afterNext == next0 + |cs + step|
  {
    if row.projectId !in existing {
      AfterCreationsStep(items, cs, Creation(row, t), next0, current, currentNext);
    } else {
      assert cs + [] == cs;
    }
  }

  /** Creations made in two batches land where they would in one. */
  lemma {:induction false} AfterCreationsConcat(items: map<nat, BoardItem>, done: seq<Creation>, cs: seq<Creation>, next0: nat,
                                                current: map<nat, BoardItem>, currentNext: nat)
    requires current == AfterCreations(items, done, next0) && currentNext == next0 + |done|
    ensures AfterCreations(current, cs, currentNext) == AfterCreations(items, done + cs, next0)
  {
    if cs == [] {
      assert done + cs == done;
    } else {
      var n := |cs| - 1;
      AfterCreationsConcat(items, done, cs[..n], next0, current, currentNext);
      assert (done + cs)[..|done| + n] == done + cs[..n];
      assert (done + cs)[|done| + n] == cs[n];
    }
  }

  /** Creating never touches an existing item and adds exactly one item per creation. */
  lemma {:induction false} AfterCreationsShape(items: map<nat, BoardItem>, cs: seq<Creation>, next0: nat)
    requires forall id :: id in items ==> id < next0
    ensures forall id :: id in AfterCreations(items, cs, next0) <==> id in items || next0 <= id < next0 + |cs|
    ensures forall id :: id in items ==> AfterCreations(items, cs, next0)[id] == items[id]
    ensures forall j :: 0 <= j < |cs| ==>
              AfterCreations(items, cs, next0)[next0 + j] == BoardItem(cs[j].target.Title(), Columns(cs[j].row))
  {
    if cs != [] {
      AfterCreationsShape(items, cs[..|cs| - 1], next0);
    }
  }

  /** After create_missing_items every row of the three frames has its project
      id on the board: a second call, in any listing order, creates nothing. */
  lemma SecondCreateIsNoOp(items: map<nat, BoardItem>, order: seq<nat>, next0: nat,
                           completed: seq<PushRow>, inProcess: seq<PushRow>, open: seq<PushRow>, order2: seq<nat>)
    requires Listing(order, items) && (forall id :: id in items ==> id < next0)
    requires var cs := MissingAll(Jobs(completed, inProcess, open), ExistingIds(FindExistingRows(items, order)));
             Listing(order2, AfterCreations(items, cs, next0))
    ensures var cs := MissingAll(Jobs(completed, inProcess, open), ExistingIds(FindExistingRows(items, order)));
            var after := AfterCreations(items, cs, next0);
            MissingAll(Jobs(completed, inProcess, open), ExistingIds(FindExistingRows(after, order2))) == []
  {
    var jobs := Jobs(completed, inProcess, open);
    var existing := ExistingIds(FindExistingRows(items, order));
    var cs := MissingAll(jobs, existing);
    var existing2 := ExistingIds(FindExistingRows(AfterCreations(items, cs, next0), order2));
    var again := MissingAll(jobs, existing2);
    if again != [] {
      MissingAllSound(jobs, existing2, 0);
      var i :| 0 <= i < |jobs| && again[0].row in jobs[i].0 && again[0].target == jobs[i].1;
      var k :| 0 <= k < |jobs[i].0| && jobs[i].0[k] == again[0].row;
      RowListedAfterCreations(items, order, next0, jobs, order2, i, k);
    }
  }

  /** After the creations, the project id of every row of every frame is listed. */
  lemma RowListedAfterCreations(items: map<nat, BoardItem>, order: seq<nat>, next0: nat,
                                jobs: seq<(seq<PushRow>, Target)>, order2: seq<nat>, i: int, k: int)
    requires Listing(order, items) && (forall id :: id in items ==> id < next0)
    requires Listing(order2, AfterCreations(items, MissingAll(jobs, ExistingIds(FindExistingRows(items, order))), next0))
    requires 0 <= i < |jobs| && 0 <= k < |jobs[i].0|
    ensures var cs := MissingAll(jobs, ExistingIds(FindExistingRows(items, order)));
            jobs[i].0[k].projectId in ExistingIds(FindExistingRows(AfterCreations(items, cs, next0), order2))
  {
    var existing := ExistingIds(FindExistingRows(items, order));
    var cs := MissingAll(jobs, existing);
    var row := jobs[i].0[k];
    if row.projectId in existing {
      var m :| 0 <= m < |order| && existing[m] == row.projectId;
      KeptIdListed(items, order, next0, cs, order2, m);
    } else {
      MissingAllComplete(jobs, existing, i, k);
      var j :| 0 <= j < |cs| && cs[j] == Creation(row, jobs[i].1);
      CreatedIdListed(items, next0, cs, order2, j);
    }
  }

  /** An id listed before the creations is still listed after them. */
  lemma KeptIdListed(items: map<nat, BoardItem>, order: seq<nat>, next0: nat, cs: seq<Creation>, order2: seq<nat>, k: int)
    requires Listing(order, items) && (forall id :: id in items ==> id < next0) && 0 <= k < |order|
    requires Listing(order2, AfterCreations(items, cs, next0))
    ensures ExistingIds(FindExistingRows(items, order))[k]
            in ExistingIds(FindExistingRows(AfterCreations(items, cs, next0), order2))
  {
    var after := AfterCreations(items, cs, next0);
    AfterCreationsShape(items, cs, next0);
    assert after[order[k]] == items[order[k]];
    ListedIdText(after, order2, order[k]);
  }

  /** The project id of every created row is listed after the creations. */
  lemma CreatedIdListed(items: map<nat, BoardItem>, next0: nat, cs: seq<Creation>, order2: seq<nat>, j: int)
    requires (forall id :: id in items ==> id < next0) && 0 <= j < |cs|
    requires Listing(order2, AfterCreations(items, cs, next0))
    ensures cs[j].row.projectId in ExistingIds(FindExistingRows(AfterCreations(items, cs, next0), order2))
  {
    var after := AfterCreations(items, cs, next0);
    AfterCreationsShape(items, cs, next0);
    assert after[next0 + j].columns == Columns(cs[j].row);
    ListedIdText(after, order2, next0 + j);
  }

  /** The id text of every listed item is among the existing ids. */
  lemma ListedIdText(items: map<nat, BoardItem>, order: seq<nat>, id: nat)
    requires Listing(order, items) && id in items
    ensures PidText(Lookup(items[id].columns, "text2")) in ExistingIds(FindExistingRows(items, order))
  {
    var k :| 0 <= k < |order| && order[k] == id;
    assert ExistingIds(FindExistingRows(items, order))[k] == PidText(Lookup(items[id].columns, "text2"));
  }

  /** No existing project id is ever recreated. */
  lemma ExistingNeverRecreated(items: map<nat, BoardItem>, order: seq<nat>,
                               completed: seq<PushRow>, inProcess: seq<PushRow>, open: seq<PushRow>, k: int, j: int)
    requires Listing(order, items) && 0 <= k < |order|
    requires 0 <= j < |MissingAll(Jobs(completed, inProcess, open), ExistingIds(FindExistingRows(items, order)))|
    ensures var rows := FindExistingRows(items, order);
            MissingAll(Jobs(completed, inProcess, open), ExistingIds(rows))[j].row.projectId != PidText(rows[k].id)
  {
    var rows := FindExistingRows(items, order);
    MissingAllSound(Jobs(completed, inProcess, open), ExistingIds(rows), j);
    assert ExistingIds(rows)[k] == PidText(rows[k].id);
  }
}
