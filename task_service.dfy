/** The server's task rules (server/services/task.service.ts) over the
    in-memory `tasks` table.  Each query's outcome is a parameter (it answers,
    returns an error, or throws); the rows it answers with are computed from
    the table. */
module TaskService {
  import opened Common
  import opened Types
  import opened Db
  import Seqs

  /** An `H3Error` made by `createError`, or a raw value thrown by a query. */
  datatype ServiceError = Http(statusCode: int, message: string) | Raw(thrown: Thrown)

  const CountFailed := "Failed to count tasks"
  const FetchFailed := "Failed to fetch tasks"
  const SubtasksFetchFailed := "Failed to fetch subtasks"
  const RetrieveFailed := "Failed to retrieve tasks"
  const ParentNotFound := "Parent task not found or does not belong to the user"
  const NestingExceeded := "Maximum nesting level exceeded (max 2 levels)"
  const GenerationNotFound := "Generation not found or does not belong to the user"
  const CreateFailed := "Failed to create task"
  const TaskNotOwned := "Task not found or does not belong to the user"
  const SubtasksDeleteFailed := "Failed to delete subtasks"
  const DeleteFailed := "Failed to delete task"
  const TaskDeleted := "Task deleted successfully"
  const TaskNotFound := "Task not found"
  const UpdateFailed := "Failed to update task"
  const InternalError := "Internal server error"
  const CompletionFailed := "Failed to update task completion status"
  const SubtasksCompletionFailed := "Failed to update subtasks completion status"
  const CompletionUpdated := "Task completion status updated successfully"

  const DefaultLimit := 20
  const MaxLimit := 100

  // ---------------------------------------------------------------------------
  // getTasks
  // ---------------------------------------------------------------------------

  function NormalPage(page: int): (p: int)
    ensures p >= 1 && (page >= 1 ==> p == page)
  {
    if page < 1 then 1 else page
  }

  function NormalLimit(limit: int): (l: int)
    ensures 1 <= l <= MaxLimit && (1 <= limit <= MaxLimit ==> l == limit)
  {
    if limit < 1 then DefaultLimit else if limit > MaxLimit then MaxLimit else limit
  }

  /** Normalising is idempotent, and out-of-range values get the documented
      replacements. */
  lemma NormalizationFacts(page: int, limit: int)
    ensures NormalPage(NormalPage(page)) == NormalPage(page)
    ensures NormalLimit(NormalLimit(limit)) == NormalLimit(limit)
    ensures page < 1 ==> NormalPage(page) == 1
    ensures limit < 1 ==> NormalLimit(limit) == DefaultLimit
    ensures limit > MaxLimit ==> NormalLimit(limit) == MaxLimit
  {
  }

  function Min(a: int, b: int): int
  {
    if a <= b then a else b
  }

  /** `.range(offset, offset + limit - 1)`: at most `limit` rows from `offset`. */
  function PageOf<T>(rows: seq<T>, offset: nat, limit: nat): (r: seq<T>)
    ensures |r| <= limit
    ensures offset + limit <= |rows| ==> r == rows[offset..offset + limit]
    ensures offset >= |rows| ==> r == []
  {
    rows[Min(offset, |rows|)..Min(offset + limit, |rows|)]
  }

  /** Two consecutive pages make up the page of their combined size. */
  lemma PagesConcatenate<T>(rows: seq<T>, offset: nat, a: nat, b: nat)
    ensures PageOf(rows, offset, a) + PageOf(rows, offset + a, b) == PageOf(rows, offset, a + b)
  {
    var n := |rows|;
    var x, y, z := Min(offset, n), Min(offset + a, n), Min(offset + a + b, n);
    assert rows[x..y] + rows[y..z] == rows[x..z];
  }

  /** With 25 top-level tasks and 20 per page, the second page holds the
      last five and the third is empty. */
  lemma PaginationExample(rows: seq<TaskRow>)
    requires |rows| == 25
    ensures PageOf(rows, (NormalPage(1) - 1) * NormalLimit(0), NormalLimit(0)) == rows[..20]
    ensures PageOf(rows, (NormalPage(2) - 1) * NormalLimit(20), NormalLimit(20)) == rows[20..]
    ensures PageOf(rows, (NormalPage(3) - 1) * NormalLimit(500), NormalLimit(500)) == []
  {
    assert NormalPage(1) == 1 && NormalLimit(0) == DefaultLimit;
    assert NormalPage(2) == 2 && NormalLimit(20) == 20;
    assert NormalPage(3) == 3 && NormalLimit(500) == MaxLimit;
    assert (NormalPage(3) - 1) * NormalLimit(500) == 200;
  }

  function Dto(r: TaskRow): TaskDto
  {
    TaskDto(r.id, r.title, r.description, r.source, r.completed, r.createdAt)
  }

  function Dtos(rows: seq<TaskRow>): (r: seq<TaskDto>)
    ensures |r| == |rows| && forall i :: 0 <= i < |rows| ==> r[i] == Dto(rows[i])
  {
    seq(|rows|, i requires 0 <= i < |rows| => Dto(rows[i]))
  }

  lemma DtosAppend(a: seq<TaskRow>, b: seq<TaskRow>)
    ensures Dtos(a + b) == Dtos(a) + Dtos(b)
  {
    assert |Dtos(a + b)| == |Dtos(a) + Dtos(b)|;
    forall i | 0 <= i < |a + b| ensures Dtos(a + b)[i] == (Dtos(a) + Dtos(b))[i] {
      if i >= |a| { assert (a + b)[i] == b[i - |a|]; }
    }
  }

  function Ids(rows: seq<TaskRow>): (r: seq<string>)
    ensures |r| == |rows| && forall i :: 0 <= i < |rows| ==> r[i] == rows[i].id
  {
    seq(|rows|, i requires 0 <= i < |rows| => rows[i].id)
  }

  /** The response items for a page of top-level rows: each with the caller's
      rows filed under it, newest first. */
  function ListItems(table: seq<TaskRow>, userId: string, page: seq<TaskRow>): (r: seq<TaskListItem>)
    ensures |r| == |page|
    ensures forall i :: 0 <= i < |page| ==> r[i].task == Dto(page[i])
    ensures forall i :: 0 <= i < |page| ==> r[i].subtasks == Dtos(Seqs.Filter(table, OwnChildOf(userId, page[i].id)))
  {
    seq(|page|, i requires 0 <= i < |page| =>
      TaskListItem(Dto(page[i]), Dtos(Seqs.Filter(table, OwnChildOf(userId, page[i].id)))))
  }

  /** The response of a successful getTasks. */
  function TasksPage(table: seq<TaskRow>, userId: string, page: int, limit: int, countReported: bool): GetTasksResponse
  {
    var p := NormalPage(page);
    var l := NormalLimit(limit);
    var parents := Seqs.Filter(table, TopLevelOf(userId));
    GetTasksResponse(ListItems(table, userId, PageOf(parents, (p - 1) * l, l)),
                     Pagination(p, l, if countReported then |parents| else 0))
  }

  /** What a page lists: only the caller's top-level tasks, in table order
      (newest first), at most `limit` of them, and the total counts all of
      the caller's top-level tasks. */
  lemma TasksPageParents(table: seq<TaskRow>, userId: string, page: int, limit: int)
    ensures var resp := TasksPage(table, userId, page, limit, true);
            var parents := Seqs.Filter(table, TopLevelOf(userId));
            && Seqs.IsSubsequence(parents, table)
            && resp.pagination.total == |parents|
            && |resp.tasks| <= resp.pagination.limit <= MaxLimit
            && (forall i :: 0 <= i < |parents| ==> parents[i].userId == userId && parents[i].parentTaskId.None?)
            && (forall i :: 0 <= i < |table| && table[i].userId == userId && table[i].parentTaskId.None? ==>
                  table[i] in parents)
  {
    Seqs.FilterIsSubsequence(table, TopLevelOf(userId));
  }

  /** Each listed item: a row of the page, with every one of the caller's
      subtasks filed under it and nothing else. */
  lemma ListItemShape(table: seq<TaskRow>, userId: string, page: seq<TaskRow>, i: nat)
    requires i < |page|
    ensures ListItems(table, userId, page)[i].task == Dto(page[i])
    ensures forall r :: r in table && OwnChildOf(userId, page[i].id)(r) ==>
              Dto(r) in ListItems(table, userId, page)[i].subtasks
    ensures forall d :: d in ListItems(table, userId, page)[i].subtasks ==>
              exists r :: r in table && OwnChildOf(userId, page[i].id)(r) && d == Dto(r)
  {
    var item := ListItems(table, userId, page)[i];
    var kids := Seqs.Filter(table, OwnChildOf(userId, page[i].id));
    assert item.subtasks == Dtos(kids);
    forall r | r in table && OwnChildOf(userId, page[i].id)(r) ensures Dto(r) in item.subtasks {
      var a :| 0 <= a < |table| && table[a] == r;
      assert r in kids;
      var m :| 0 <= m < |kids| && kids[m] == r;
      assert item.subtasks[m] == Dto(r);
    }
    forall d | d in item.subtasks
      ensures exists r :: r in table && OwnChildOf(userId, page[i].id)(r) && d == Dto(r)
    {
      var k :| 0 <= k < |item.subtasks| && item.subtasks[k] == d;
      var w := kids[k];
      assert w in table && OwnChildOf(userId, page[i].id)(w);
      assert d == Dto(w);
    }
  }

  /** Grouping the fetched subtasks by parent and then looking a parent up is
      filtering the table for that parent's own subtasks. */
  lemma GroupedIsOwnChildren(table: seq<TaskRow>, userId: string, parentIds: seq<string>, id: string)
    requires id in parentIds
    ensures Seqs.Filter(Seqs.Filter(table, ChildOfAny(userId, parentIds)), FiledUnder(id))
         == Seqs.Filter(table, OwnChildOf(userId, id))
  {
    Seqs.FilterFilter(table, ChildOfAny(userId, parentIds), FiledUnder(id));
    Seqs.FilterExt(table, Seqs.And(ChildOfAny(userId, parentIds), FiledUnder(id)), OwnChildOf(userId, id));
  }

  /** The grouping of getTasks as a function of the rows seen so far. */
  function Grouped(rows: seq<TaskRow>): map<string, seq<TaskDto>>
  {
    if rows == [] then map[]
    else
      var g := Grouped(rows[..|rows| - 1]);
      var x := rows[|rows| - 1];
      if Truthy(x.parentTaskId) then
        var key := x.parentTaskId.value;
        g[key := (if key in g then g[key] else []) + [Dto(x)]]
      else g
  }

  /** Filing one more row under `k` appends it to `k`'s list, and to no other. */
  lemma FiledSnoc(prefix: seq<TaskRow>, x: TaskRow, k: string)
    ensures Seqs.Filter(prefix + [x], FiledUnder(k))
         == Seqs.Filter(prefix, FiledUnder(k)) + (if FiledUnder(k)(x) then [x] else [])
    ensures Dtos(Seqs.Filter(prefix + [x], FiledUnder(k)))
         == Dtos(Seqs.Filter(prefix, FiledUnder(k))) + (if FiledUnder(k)(x) then [Dto(x)] else [])
  {
    Seqs.FilterAppend(prefix, [x], FiledUnder(k));
    assert Seqs.Filter([x], FiledUnder(k))
        == (if FiledUnder(k)(x) then [x] else []) + Seqs.Filter([x][1..], FiledUnder(k));
    DtosAppend(Seqs.Filter(prefix, FiledUnder(k)), Seqs.Filter([x], FiledUnder(k)));
  }

  /** The grouping files each row under its parent id, in the order seen;
      ids with nothing filed under them are absent. */
  lemma {:induction false} GroupedIsFiled(rows: seq<TaskRow>)
    ensures forall k :: k in Grouped(rows) ==> Grouped(rows)[k] == Dtos(Seqs.Filter(rows, FiledUnder(k)))
    ensures forall k :: k !in Grouped(rows) ==> Seqs.Filter(rows, FiledUnder(k)) == []
    decreases |rows|
  {
    if rows != [] {
      var prefix := rows[..|rows| - 1];
      var x := rows[|rows| - 1];
      assert rows == prefix + [x];
      GroupedIsFiled(prefix);
      forall k
        ensures Dtos(Seqs.Filter(rows, FiledUnder(k)))
             == Dtos(Seqs.Filter(prefix, FiledUnder(k))) + (if FiledUnder(k)(x) then [Dto(x)] else [])
        ensures Seqs.Filter(rows, FiledUnder(k))
             == Seqs.Filter(prefix, FiledUnder(k)) + (if FiledUnder(k)(x) then [x] else [])
      {
        FiledSnoc(prefix, x, k);
      }
    }
  }

  /** The forEach of getTasks: file each fetched subtask under its parent id,
      in the order received; rows without a parent are skipped. */
  method GroupByParent(all: seq<TaskRow>) returns (groups: map<string, seq<TaskDto>>)
    ensures forall k :: k in groups ==> groups[k] == Dtos(Seqs.Filter(all, FiledUnder(k)))
    ensures forall k :: k !in groups ==> Seqs.Filter(all, FiledUnder(k)) == []
  {
    groups := map[];
    var i := 0;
    while i < |all|
      invariant 0 <= i <= |all|
      invariant groups == Grouped(all[..i])
    {
      var subtask := all[i];
      assert all[..i + 1][..i] == all[..i];
      if Truthy(subtask.parentTaskId) {
        var key := subtask.parentTaskId.value;
        if key !in groups {
          groups := groups[key := []];
        }
        groups := groups[key := groups[key] + [Dto(subtask)]];
      }
      i := i + 1;
    }
    assert all[..i] == all;
    GroupedIsFiled(all);
  }

  /** The page's items: each parent with the list filed under its id, or none. */
  function Assemble(parents: seq<TaskRow>, groups: map<string, seq<TaskDto>>): (r: seq<TaskListItem>)
    ensures |r| == |parents|
    ensures forall i :: 0 <= i < |parents| ==> r[i].task == Dto(parents[i])
    ensures forall i :: 0 <= i < |parents| && parents[i].id !in groups ==> r[i].subtasks == []
    ensures forall i :: 0 <= i < |parents| && parents[i].id in groups ==> r[i].subtasks == groups[parents[i].id]
  {
    seq(|parents|, i requires 0 <= i < |parents| =>
      TaskListItem(Dto(parents[i]), if parents[i].id in groups then groups[parents[i].id] else []))
  }

  lemma AssembleIsListItems(table: seq<TaskRow>, userId: string, parents: seq<TaskRow>, groups: map<string, seq<TaskDto>>)
    requires var all := Seqs.Filter(table, ChildOfAny(userId, Ids(parents)));
             && (forall k :: k in groups ==> groups[k] == Dtos(Seqs.Filter(all, FiledUnder(k))))
             && (forall k :: k !in groups ==> Seqs.Filter(all, FiledUnder(k)) == [])
    ensures Assemble(parents, groups) == ListItems(table, userId, parents)
  {
    forall i | 0 <= i < |parents|
      ensures Assemble(parents, groups)[i] == ListItems(table, userId, parents)[i]
    {
      var id := parents[i].id;
      assert Ids(parents)[i] == id;
      GroupedIsOwnChildren(table, userId, Ids(parents), id);
    }
  }

  /** The parents query, the subtasks query and the grouping of getTasks. */
  method PageItems(table: seq<TaskRow>, userId: string, offset: nat, limit: nat) returns (tasks: seq<TaskListItem>)
    ensures tasks == ListItems(table, userId, PageOf(Seqs.Filter(table, TopLevelOf(userId)), offset, limit))
  {
    var parentTasks := PageOf(Seqs.Filter(table, TopLevelOf(userId)), offset, limit);
    var parentIds := Ids(parentTasks);
    var allSubtasks := Seqs.Filter(table, ChildOfAny(userId, parentIds));
    var subtasksByParentId := GroupByParent(allSubtasks);
    tasks := Assemble(parentTasks, subtasksByParentId);
    AssembleIsListItems(table, userId, parentTasks, subtasksByParentId);
  }

  /** The successful response of getTasks once page and limit are normalised. */
  method PageResponse(table: seq<TaskRow>, userId: string, p: int, l: int, offset: int, totalCount: Option<nat>)
    returns (r: Result<GetTasksResponse, ServiceError>)
    requires 1 <= l && 1 <= p && offset == (p - 1) * l
    ensures r == Ok(GetTasksResponse(ListItems(table, userId, PageOf(Seqs.Filter(table, TopLevelOf(userId)), offset, l)),
                                    Pagination(p, l, if totalCount.Some? then totalCount.value else 0)))
  {
    var tasks := PageItems(table, userId, offset, l);
    r := Ok(GetTasksResponse(tasks, Pagination(p, l, if totalCount.Some? then totalCount.value else 0)));
  }

  class TaskService {
    const db: Database

    constructor (db: Database)
      ensures this.db == db
    {
      this.db := db;
    }

    /** getTasks: one page of the caller's top-level tasks, newest first, each
        with its subtasks, and the pagination used; read-only. */
    method GetTasks(userId: string, page: int, limit: int,
                    countStep: Step, countReported: bool, parentsStep: Step, subtasksStep: Step)
      returns (r: Result<GetTasksResponse, ServiceError>)
      ensures countStep.Errored? ==> r == Err(Http(500, CountFailed))
      ensures countStep.Raised? ==> r == Err(Http(500, RetrieveFailed))
      ensures countStep.Answered? && parentsStep.Errored? ==> r == Err(Http(500, FetchFailed))
      ensures countStep.Answered? && parentsStep.Raised? ==> r == Err(Http(500, RetrieveFailed))
      ensures countStep.Answered? && parentsStep.Answered? && subtasksStep.Errored? ==>
                r == Err(Http(500, SubtasksFetchFailed))
      ensures countStep.Answered? && parentsStep.Answered? && subtasksStep.Raised? ==>
                r == Err(Http(500, RetrieveFailed))
      ensures countStep.Answered? && parentsStep.Answered? && subtasksStep.Answered? ==>
                r == Ok(TasksPage(db.tasks, userId, page, limit, countReported))
    {
      var p := page;
      var l := limit;
      if p < 1 { p := 1; }
      if l < 1 { l := DefaultLimit; }
      if l > MaxLimit { l := MaxLimit; }
      var offset := (p - 1) * l;

      if !countStep.Answered? {
        return Err(Http(500, if countStep.Errored? then CountFailed else RetrieveFailed));
      }
      var totalCount: Option<nat> := if countReported then Some(|Seqs.Filter(db.tasks, TopLevelOf(userId))|) else None;
      if !parentsStep.Answered? {
        return Err(Http(500, if parentsStep.Errored? then FetchFailed else RetrieveFailed));
      }
      if !subtasksStep.Answered? {
        return Err(Http(500, if subtasksStep.Errored? then SubtasksFetchFailed else RetrieveFailed));
      }
      r := PageResponse(db.tasks, userId, p, l, offset, totalCount);
    }

    /** createTask: check the parent (owned, top-level) and the generation
        (owned) when given, work out the position, and insert one row; any
        failure inserts nothing. */
    method CreateTask(command: CreateTaskCommand, userId: string,
                      parentStep: Step, generationStep: Step, positionStep: Step, insertStep: Step,
                      newId: string, now: string)
      returns (r: Result<CreateTaskResponse, ServiceError>)
      modifies db
      ensures db.generations == old(db.generations) && db.errorLogs == old(db.errorLogs)
      ensures r.Err? ==> db.tasks == old(db.tasks)
      ensures Truthy(command.parentTaskId) ==>
                var parent := Single(old(db.tasks), IdAndOwner(command.parentTaskId.value, userId));
                && (parentStep.Errored? || (parentStep.Answered? && parent.None?) ==>
                      r == Err(Http(404, ParentNotFound)))
                && (parentStep.Raised? ==> r == Err(Raw(parentStep.thrown)))
                && (parentStep.Answered? && parent.Some? && Truthy(parent.value.parentTaskId) ==>
                      r == Err(Http(400, NestingExceeded)))
      ensures Truthy(command.generationId)
              && (!Truthy(command.parentTaskId) || (parentStep.Answered? && ParentAllowed(old(db.tasks), command, userId))) ==>
                && (generationStep.Errored? || (generationStep.Answered? && !GenerationAllowed(old(db.generations), command, userId)) ==>
                      r == Err(Http(404, GenerationNotFound)))
                && (generationStep.Raised? ==> r == Err(Raw(generationStep.thrown)))
      ensures r.Ok? ==> CreateAllowed(old(db.tasks), old(db.generations), command, userId) && insertStep.Answered?
      ensures CreateAllowed(old(db.tasks), old(db.generations), command, userId)
              && Truthy(command.parentTaskId) && parentStep.Answered?
              && (Truthy(command.generationId) ==> generationStep.Answered?)
              && positionStep.Raised? ==>
                r == Err(Raw(positionStep.thrown))
      ensures CreateAllowed(old(db.tasks), old(db.generations), command, userId)
              && LookupsProceed(command, parentStep, generationStep, positionStep) ==>
                && (insertStep.Answered? ==> r.Ok?)
                && (insertStep.Errored? ==> r == Err(Http(500, CreateFailed)))
                && (insertStep.Raised? ==> r == Err(Raw(insertStep.thrown)))
      ensures r.Ok? ==>
        && r.value == CreateTaskResponse(newId, command.title, DescriptionOrNull(command.description), command.source, now)
        && |db.tasks| == |old(db.tasks)| + 1 && db.tasks[1..] == old(db.tasks)
        && db.tasks[0] == NewRow(command, userId, newId, now, db.tasks[0].position)
      ensures r.Ok? && UniqueIds(old(db.tasks)) ==>
        db.tasks[0].position == if Truthy(command.parentTaskId) then 2 else 1
      ensures r.Ok? && Truthy(command.parentTaskId) && positionStep.Errored? ==> db.tasks[0].position == 2
      ensures r.Ok? && !Truthy(command.parentTaskId) ==> db.tasks[0].position == 1
      ensures r.Ok? && old(db.Valid()) && FreshId(old(db.tasks), newId)
              && command.parentTaskId != Some("") && command.generationId != Some("") ==>
                db.Valid()
    {
      ghost var before := db.tasks;
      if Truthy(command.parentTaskId) {
        match parentStep {
          case Errored => return Err(Http(404, ParentNotFound));
          case Raised(e) => return Err(Raw(e));
          case Answered =>
        }
        var parentTask := Single(db.tasks, IdAndOwner(command.parentTaskId.value, userId));
        if parentTask.None? {
          return Err(Http(404, ParentNotFound));
        }
        if Truthy(parentTask.value.parentTaskId) {
          return Err(Http(400, NestingExceeded));
        }
      }

      if Truthy(command.generationId) {
        match generationStep {
          case Errored => return Err(Http(404, GenerationNotFound));
          case Raised(e) => return Err(Raw(e));
          case Answered =>
        }
        var k := Seqs.FindIndex(db.generations, GenerationIdAndOwner(command.generationId.value, userId));
        if k == -1 {
          return Err(Http(404, GenerationNotFound));
        }
      }

      var position := 1;
      if Truthy(command.parentTaskId) {
        var parentTask: Option<TaskRow> := None;
        match positionStep {
          case Errored =>
          case Raised(e) => return Err(Raw(e));
          case Answered => parentTask := Single(db.tasks, IdIs(command.parentTaskId.value));
        }
        position := if parentTask.Some? && Truthy(parentTask.value.parentTaskId) then 3 else 2;
        if UniqueIds(db.tasks) {
          SingleByIdIsOwned(db.tasks, command.parentTaskId.value, userId);
        }
      }

      var taskData := NewRow(command, userId, newId, now, position);
      match insertStep {
        case Errored => return Err(Http(500, CreateFailed));
        case Raised(e) => return Err(Raw(e));
        case Answered =>
      }
      db.tasks := [taskData] + db.tasks;
      if old(db.Valid()) && FreshId(before, newId)
         && command.parentTaskId != Some("") && command.generationId != Some("") {
        NewRowKeepsValid(before, db.generations, command, userId, newId, now, position);
      }
      r := Ok(CreateTaskResponse(newId, command.title, DescriptionOrNull(command.description), command.source, now));
    }

    /** deleteTask: a task the caller does not own gives 404; a top-level task
        goes together with every row that has it as parent, a subtask alone;
        a failure between the two deletes leaves the subtasks deleted. */
    method DeleteTask(taskId: string, userId: string, lookupStep: Step, childrenStep: Step, deleteStep: Step)
      returns (r: Result<string, ServiceError>)
      modifies db
      ensures db.generations == old(db.generations) && db.errorLogs == old(db.errorLogs)
      ensures var t := Single(old(db.tasks), IdAndOwner(taskId, userId));
              if lookupStep.Raised? || (lookupStep.Errored? || t.None?) then
                && db.tasks == old(db.tasks)
                && r == Err(if lookupStep.Raised? then Http(500, DeleteFailed) else Http(404, TaskNotOwned))
              else if !Truthy(t.value.parentTaskId) && !childrenStep.Answered? then
                && db.tasks == old(db.tasks)
                && r == Err(Http(500, if childrenStep.Errored? then SubtasksDeleteFailed else DeleteFailed))
              else
                var mid := if Truthy(t.value.parentTaskId) then old(db.tasks)
                           else Seqs.Filter(old(db.tasks), NotChildOf(taskId));
                if deleteStep.Answered? then
                  r == Ok(TaskDeleted) && db.tasks == Seqs.Filter(mid, NotIdAndOwner(taskId, userId))
                else
                  r == Err(Http(500, DeleteFailed)) && db.tasks == mid
      ensures old(db.Valid()) ==> db.Valid()
    {
      ghost var before := db.tasks;
      match lookupStep {
        case Errored => return Err(Http(404, TaskNotOwned));
        case Raised(_) => return Err(Http(500, DeleteFailed));
        case Answered =>
      }
      var task := Single(db.tasks, IdAndOwner(taskId, userId));
      if task.None? {
        return Err(Http(404, TaskNotOwned));
      }

      if !Truthy(task.value.parentTaskId) {
        match childrenStep {
          case Errored => return Err(Http(500, SubtasksDeleteFailed));
          case Raised(_) => return Err(Http(500, DeleteFailed));
          case Answered =>
        }
        if db.Valid() {
          DeleteChildrenKeepsValid(db.tasks, db.generations, taskId);
        }
        db.tasks := Seqs.Filter(db.tasks, NotChildOf(taskId));
      }
      ghost var mid := db.tasks;

      match deleteStep {
        case Errored => return Err(Http(500, DeleteFailed));
        case Raised(_) => return Err(Http(500, DeleteFailed));
        case Answered =>
      }
      if old(db.Valid()) {
        DeleteRowKeepsValid(before, mid, db.generations, task.value, taskId, userId);
      }
      db.tasks := Seqs.Filter(db.tasks, NotIdAndOwner(taskId, userId));
      r := Ok(TaskDeleted);
    }

    /** updateTask: a task the caller does not own gives 404; otherwise only
        that row's title and description change. */
    method UpdateTask(taskId: string, command: UpdateTaskCommand, userId: string,
                      lookupStep: Step, updateStep: Step, now: string)
      returns (r: Result<UpdateTaskResponse, ServiceError>)
      modifies db
      ensures db.generations == old(db.generations) && db.errorLogs == old(db.errorLogs)
      ensures var t := Single(old(db.tasks), IdAndOwner(taskId, userId));
              if lookupStep.Raised? || lookupStep.Errored? || t.None? then
                && db.tasks == old(db.tasks)
                && r == Err(Http(if lookupStep.Raised? then 500 else 404,
                                 if lookupStep.Raised? then InternalError else TaskNotFound))
              else if updateStep.Answered? then
                && r == Ok(UpdateTaskResponse(taskId, command.title, command.description, now))
                && db.tasks == MapRows(old(db.tasks), SetText(taskId, userId, command.title, command.description))
              else
                && db.tasks == old(db.tasks)
                && r == Err(Http(500, if updateStep.Errored? then UpdateFailed else InternalError))
      ensures old(db.Valid()) ==> db.Valid()
    {
      match lookupStep {
        case Errored => return Err(Http(404, TaskNotFound));
        case Raised(_) => return Err(Http(500, InternalError));
        case Answered =>
      }
      var existingTask := Single(db.tasks, IdAndOwner(taskId, userId));
      if existingTask.None? {
        return Err(Http(404, TaskNotFound));
      }
      match updateStep {
        case Errored => return Err(Http(500, UpdateFailed));
        case Raised(_) => return Err(Http(500, InternalError));
        case Answered =>
      }
      var f := SetText(taskId, userId, command.title, command.description);
      if old(db.Valid()) {
        MapKeepsValid(db.tasks, db.generations, f);
      }
      db.tasks := MapRows(db.tasks, f);
      r := Ok(UpdateTaskResponse(taskId, command.title, command.description, now));
    }

    /** completeTask: flip the row's `completed`; only when that completes a
        top-level task are the caller's subtasks of it completed too. */
    method CompleteTask(taskId: string, userId: string, lookupStep: Step, updateStep: Step, childrenStep: Step)
      returns (r: Result<string, ServiceError>)
      modifies db
      ensures db.generations == old(db.generations) && db.errorLogs == old(db.errorLogs)
      ensures var t := Single(old(db.tasks), IdAndOwner(taskId, userId));
              if lookupStep.Raised? || lookupStep.Errored? || t.None? then
                && db.tasks == old(db.tasks)
                && r == Err(Http(if lookupStep.Raised? then 500 else 404,
                                 if lookupStep.Raised? then CompletionFailed else TaskNotOwned))
              else if !updateStep.Answered? then
                db.tasks == old(db.tasks) && r == Err(Http(500, CompletionFailed))
              else
                var flipped := MapRows(old(db.tasks), SetCompleted(taskId, userId, !t.value.completed));
                if !t.value.completed && !Truthy(t.value.parentTaskId) then
                  if childrenStep.Answered? then
                    r == Ok(CompletionUpdated) && db.tasks == MapRows(flipped, CompleteChildren(taskId, userId))
                  else
                    && db.tasks == flipped
                    && r == Err(Http(500, if childrenStep.Errored? then SubtasksCompletionFailed else CompletionFailed))
                else
                  r == Ok(CompletionUpdated) && db.tasks == flipped
      ensures old(db.Valid()) ==> db.Valid()
    {
      match lookupStep {
        case Errored => return Err(Http(404, TaskNotOwned));
        case Raised(_) => return Err(Http(500, CompletionFailed));
        case Answered =>
      }
      var task := Single(db.tasks, IdAndOwner(taskId, userId));
      if task.None? {
        return Err(Http(404, TaskNotOwned));
      }
      var newCompletionStatus := !task.value.completed;
      match updateStep {
        case Errored => return Err(Http(500, CompletionFailed));
        case Raised(_) => return Err(Http(500, CompletionFailed));
        case Answered =>
      }
      if old(db.Valid()) {
        MapKeepsValid(db.tasks, db.generations, SetCompleted(taskId, userId, newCompletionStatus));
      }
      db.tasks := MapRows(db.tasks, SetCompleted(taskId, userId, newCompletionStatus));
      if newCompletionStatus && !Truthy(task.value.parentTaskId) {
        match childrenStep {
          case Errored => return Err(Http(500, SubtasksCompletionFailed));
          case Raised(_) => return Err(Http(500, CompletionFailed));
          case Answered =>
        }
        if old(db.Valid()) {
          MapKeepsValid(db.tasks, db.generations, CompleteChildren(taskId, userId));
        }
        db.tasks := MapRows(db.tasks, CompleteChildren(taskId, userId));
      }
      r := Ok(CompletionUpdated);
    }
  }

  // ---------------------------------------------------------------------------
  // createTask: the row and its conditions
  // ---------------------------------------------------------------------------

  /** `command.description || null` */
  function DescriptionOrNull(d: Option<string>): (r: Option<string>)
    ensures r == None || (r == d && r.value != "")
  {
    if Truthy(d) then d else None
  }

  function NewRow(command: CreateTaskCommand, userId: string, newId: string, now: string, position: int): TaskRow
  {
    TaskRow(newId, userId, command.title, DescriptionOrNull(command.description), command.parentTaskId,
            command.source, command.generationId, position, false, now)
  }

  /** The checks createTask makes before inserting: a given parent is the
      caller's and top-level, a given generation is the caller's. */
  predicate CreateAllowed(tasks: seq<TaskRow>, generations: seq<GenerationRow>, command: CreateTaskCommand, userId: string)
  {
    ParentAllowed(tasks, command, userId) && GenerationAllowed(generations, command, userId)
  }

  predicate ParentAllowed(tasks: seq<TaskRow>, command: CreateTaskCommand, userId: string)
  {
    Truthy(command.parentTaskId) ==>
      var parent := Single(tasks, IdAndOwner(command.parentTaskId.value, userId));
      parent.Some? && !Truthy(parent.value.parentTaskId)
  }

  predicate GenerationAllowed(generations: seq<GenerationRow>, command: CreateTaskCommand, userId: string)
  {
    Truthy(command.generationId) ==>
      Seqs.FindIndex(generations, GenerationIdAndOwner(command.generationId.value, userId)) != -1
  }

  /** A non-empty id no row has yet. */
  ghost predicate FreshId(rows: seq<TaskRow>, id: string)
  {
    id != "" && forall i :: 0 <= i < |rows| ==> rows[i].id != id
  }

  /** The lookups createTask makes let it go on to the insert: the parent
      and generation lookups answered, and the position lookup did not throw
      (an error it returns is ignored). */
  predicate LookupsProceed(command: CreateTaskCommand, parentStep: Step, generationStep: Step, positionStep: Step)
  {
    (Truthy(command.parentTaskId) ==> parentStep.Answered? && !positionStep.Raised?)
    && (Truthy(command.generationId) ==> generationStep.Answered?)
  }

  /** With unique ids the position lookup (by id alone) finds the row the
      ownership check found, so the parent is top-level and the position is 2. */
  lemma SingleByIdIsOwned(rows: seq<TaskRow>, id: string, userId: string)
    requires UniqueIds(rows) && Single(rows, IdAndOwner(id, userId)).Some?
    ensures Single(rows, IdIs(id)) == Single(rows, IdAndOwner(id, userId))
  {
    var k := Seqs.FindIndex(rows, IdAndOwner(id, userId));
    assert IdIs(id)(rows[k]);
    var j := Seqs.FindIndex(rows, IdIs(id));
    assert rows[j].id == rows[k].id;
  }

  /** Under unique ids, the row a `.single()` lookup by id and owner finds is
      the only row with that id. */
  lemma OnlyRowWithId(rows: seq<TaskRow>, id: string, userId: string, t: TaskRow)
    requires UniqueIds(rows) && Single(rows, IdAndOwner(id, userId)) == Some(t)
    ensures forall q :: q in rows && q.id == id ==> q == t
  {
    var k := Seqs.FindIndex(rows, IdAndOwner(id, userId));
    assert rows[k] == t;
    forall q | q in rows && q.id == id ensures q == t {
      var b :| 0 <= b < |rows| && rows[b] == q;
      assert rows[b].id == rows[k].id;
    }
  }

  lemma NewRowKeepsValid(rows: seq<TaskRow>, generations: seq<GenerationRow>, command: CreateTaskCommand,
                         userId: string, newId: string, now: string, position: int)
    requires ValidTables(rows, generations) && CreateAllowed(rows, generations, command, userId)
    requires FreshId(rows, newId)
    requires command.parentTaskId != Some("") && command.generationId != Some("")
    ensures ValidTables([NewRow(command, userId, newId, now, position)] + rows, generations)
  {
    var n := NewRow(command, userId, newId, now, position);
    if n.parentTaskId.Some? {
      var q := Single(rows, IdAndOwner(command.parentTaskId.value, userId)).value;
      assert q in rows && q.parentTaskId.None?;
    }
    if n.generationId.Some? {
      var k := Seqs.FindIndex(generations, GenerationIdAndOwner(command.generationId.value, userId));
      assert generations[k] in generations;
    }
    InsertKeepsValid(rows, generations, n);
  }

  // ---------------------------------------------------------------------------
  // deleteTask: the rows removed
  // ---------------------------------------------------------------------------

  /** Deleting every row whose parent is `taskId` keeps the tables consistent:
      no remaining row can have a deleted row as parent, since deleted rows
      are not top-level. */
  lemma DeleteChildrenKeepsValid(rows: seq<TaskRow>, generations: seq<GenerationRow>, taskId: string)
    requires ValidTables(rows, generations)
    ensures ValidTables(Seqs.Filter(rows, NotChildOf(taskId)), generations)
  {
    var keep := NotChildOf(taskId);
    forall i, j | 0 <= i < |rows| && 0 <= j < |rows| && keep(rows[i]) && !keep(rows[j])
      ensures rows[i].parentTaskId != Some(rows[j].id)
    {
      assert ParentOk(rows, rows[i]);
      forall q | q in rows && q.id == rows[j].id ensures q.parentTaskId.Some? {
        var b :| 0 <= b < |rows| && rows[b] == q;
        assert rows[b].id == rows[j].id;
      }
    }
    FilterKeepsValid(rows, generations, keep);
  }

  /** Deleting the task row itself keeps the tables consistent: a top-level
      task has lost its subtasks already, and a subtask has none. */
  lemma DeleteRowKeepsValid(rows: seq<TaskRow>, mid: seq<TaskRow>, generations: seq<GenerationRow>,
                            t: TaskRow, taskId: string, userId: string)
    requires ValidTables(rows, generations)
    requires Single(rows, IdAndOwner(taskId, userId)) == Some(t)
    requires mid == if Truthy(t.parentTaskId) then rows else Seqs.Filter(rows, NotChildOf(taskId))
    ensures ValidTables(Seqs.Filter(mid, NotIdAndOwner(taskId, userId)), generations)
  {
    var keep := NotIdAndOwner(taskId, userId);
    if Truthy(t.parentTaskId) {
      OnlyRowWithId(rows, taskId, userId, t);
      forall i, j | 0 <= i < |mid| && 0 <= j < |mid| && keep(mid[i]) && !keep(mid[j])
        ensures mid[i].parentTaskId != Some(mid[j].id)
      {
        assert ParentOk(rows, rows[i]);
      }
      FilterKeepsValid(mid, generations, keep);
    } else {
      DeleteChildrenKeepsValid(rows, generations, taskId);
      forall i, j | 0 <= i < |mid| && 0 <= j < |mid| && keep(mid[i]) && !keep(mid[j])
        ensures mid[i].parentTaskId != Some(mid[j].id)
      {
        assert NotChildOf(taskId)(mid[i]);
      }
      FilterKeepsValid(mid, generations, keep);
    }
  }

  /** What deleting a top-level task removes, stated without the two steps:
      the task and every row that has it as parent. */
  lemma DeleteTopLevelRemoves(rows: seq<TaskRow>, t: TaskRow, taskId: string, userId: string)
    requires UniqueIds(rows) && Single(rows, IdAndOwner(taskId, userId)) == Some(t)
    requires !Truthy(t.parentTaskId)
    ensures Seqs.Filter(Seqs.Filter(rows, NotChildOf(taskId)), NotIdAndOwner(taskId, userId))
         == Seqs.Filter(rows, (r: TaskRow) => r.id != taskId && r.parentTaskId != Some(taskId))
  {
    OnlyRowWithId(rows, taskId, userId, t);
    Seqs.FilterFilter(rows, NotChildOf(taskId), NotIdAndOwner(taskId, userId));
    Seqs.FilterExt(rows, Seqs.And(NotChildOf(taskId), NotIdAndOwner(taskId, userId)),
                   (r: TaskRow) => r.id != taskId && r.parentTaskId != Some(taskId));
  }

  /** What deleting a subtask removes: that row only. */
  lemma DeleteSubtaskRemoves(rows: seq<TaskRow>, t: TaskRow, taskId: string, userId: string)
    requires UniqueIds(rows) && Single(rows, IdAndOwner(taskId, userId)) == Some(t)
    ensures Seqs.Filter(rows, NotIdAndOwner(taskId, userId)) == Seqs.Filter(rows, (r: TaskRow) => r.id != taskId)
  {
    OnlyRowWithId(rows, taskId, userId, t);
    Seqs.FilterExt(rows, NotIdAndOwner(taskId, userId), (r: TaskRow) => r.id != taskId);
  }

  /** What a completion changes: the task's own row, and only when the new
      value completes a top-level task, the caller's rows under it; every
      other row is left as it was. */
  lemma CompleteChanges(rows: seq<TaskRow>, t: TaskRow, taskId: string, userId: string)
    requires Single(rows, IdAndOwner(taskId, userId)) == Some(t)
    ensures var flipped := MapRows(rows, SetCompleted(taskId, userId, !t.completed));
            var after := if !t.completed && !Truthy(t.parentTaskId) then MapRows(flipped, CompleteChildren(taskId, userId)) else flipped;
            && |after| == |rows|
            && forall i :: 0 <= i < |rows| ==>
                 if rows[i].id == taskId && rows[i].userId == userId then after[i] == rows[i].(completed := !t.completed)
                 else if !t.completed && !Truthy(t.parentTaskId) && rows[i].parentTaskId == Some(taskId) && rows[i].userId == userId
                   then after[i] == rows[i].(completed := true)
                 else after[i] == rows[i]
  {
  }
}
