/** The three tables the server writes (`tasks`, `generation_process` and
    `generation_process_error_logs`), held in memory.  Each table lists its
    rows newest first: an insert puts the row in front, so "order by
    created_at descending" is the table order and a query is a filter. */
module Db {
  import opened Common
  import opened Types
  import Seqs

  datatype TaskRow = TaskRow(
    id: string,
    userId: string,
    title: string,
    description: Option<string>,
    parentTaskId: Option<string>,
    source: TaskSource,
    generationId: Option<string>,
    position: int,
    completed: bool,
    createdAt: string)

  /** The processing time is a floating-point reading; it is stored as given. */
  type Duration = real

  datatype GenerationRow = GenerationRow(
    id: string,
    userId: string,
    model: string,
    sourceTextHash: string,
    duration: Duration,
    generatedCount: int,
    createdAt: string)

  datatype ErrorLogRow = ErrorLogRow(
    userId: string,
    errorCode: string,
    errorMessage: string,
    model: string,
    sourceTextHash: string)

  /** How one query came back: with its rows, with a returned `error`, or by
      throwing. */
  datatype Step = Answered | Errored | Raised(thrown: Thrown)

  // ---------------------------------------------------------------------------
  // Row tests used by the queries
  // ---------------------------------------------------------------------------

  /** `.eq('id', id).eq('user_id', userId)` */
  function IdAndOwner(id: string, userId: string): TaskRow -> bool
  {
    (r: TaskRow) => r.id == id && r.userId == userId
  }

  /** `.eq('id', id)` */
  function IdIs(id: string): TaskRow -> bool
  {
    (r: TaskRow) => r.id == id
  }

  /** `.eq('user_id', userId).is('parent_task_id', null)` */
  function TopLevelOf(userId: string): TaskRow -> bool
  {
    (r: TaskRow) => r.userId == userId && r.parentTaskId.None?
  }

  /** `.eq('user_id', userId).in('parent_task_id', parentIds)` */
  function ChildOfAny(userId: string, parentIds: seq<string>): TaskRow -> bool
  {
    (r: TaskRow) => r.userId == userId && r.parentTaskId.Some? && r.parentTaskId.value in parentIds
  }

  /** A row filed under `parentId` when subtasks are grouped. */
  function FiledUnder(parentId: string): TaskRow -> bool
  {
    (r: TaskRow) => Truthy(r.parentTaskId) && r.parentTaskId.value == parentId
  }

  /** The caller's subtasks of one task, as grouping finds them. */
  function OwnChildOf(userId: string, parentId: string): TaskRow -> bool
  {
    (r: TaskRow) => r.userId == userId && Truthy(r.parentTaskId) && r.parentTaskId.value == parentId
  }

  /** `.eq('parent_task_id', parentId)` kept out by a delete. */
  function NotChildOf(parentId: string): TaskRow -> bool
  {
    (r: TaskRow) => r.parentTaskId != Some(parentId)
  }

  function NotIdAndOwner(id: string, userId: string): TaskRow -> bool
  {
    (r: TaskRow) => !(r.id == id && r.userId == userId)
  }

  /** `.eq('id', id).eq('user_id', userId).single()` on generation_process */
  function GenerationIdAndOwner(id: string, userId: string): GenerationRow -> bool
  {
    (g: GenerationRow) => g.id == id && g.userId == userId
  }

  /** The row a `.single()` lookup returns, if there is one: the first that
      matches. */
  function Single(rows: seq<TaskRow>, p: TaskRow -> bool): (r: Option<TaskRow>)
    ensures r.Some? ==> r.value in rows && p(r.value)
    ensures r.Some? ==> exists k :: 0 <= k < |rows| && r.value == rows[k] && forall j :: 0 <= j < k ==> !p(rows[j])
    ensures r.None? ==> forall i :: 0 <= i < |rows| ==> !p(rows[i])
  {
    var k := Seqs.FindIndex(rows, p);
    if k == -1 then None else Some(rows[k])
  }

  // ---------------------------------------------------------------------------
  // Updates
  // ---------------------------------------------------------------------------

  function MapRows(rows: seq<TaskRow>, f: TaskRow -> TaskRow): (r: seq<TaskRow>)
    ensures |r| == |rows| && forall i :: 0 <= i < |rows| ==> r[i] == f(rows[i])
  {
    seq(|rows|, i requires 0 <= i < |rows| => f(rows[i]))
  }

  /** `.update({ title, description }).eq('id', id).eq('user_id', userId)` */
  function SetText(id: string, userId: string, title: string, description: Option<string>): TaskRow -> TaskRow
  {
    (r: TaskRow) => if r.id == id && r.userId == userId then r.(title := title, description := description) else r
  }

  /** `.update({ completed }).eq('id', id).eq('user_id', userId)` */
  function SetCompleted(id: string, userId: string, completed: bool): TaskRow -> TaskRow
  {
    (r: TaskRow) => if r.id == id && r.userId == userId then r.(completed := completed) else r
  }

  /** `.update({ completed: true }).eq('parent_task_id', id).eq('user_id', userId)` */
  function CompleteChildren(parentId: string, userId: string): TaskRow -> TaskRow
  {
    (r: TaskRow) => if r.parentTaskId == Some(parentId) && r.userId == userId then r.(completed := true) else r
  }

  // ---------------------------------------------------------------------------
  // Integrity of the tables
  // ---------------------------------------------------------------------------

  /** The primary key: no two rows share an id. */
  ghost predicate UniqueIds(rows: seq<TaskRow>)
  {
    forall i, j :: 0 <= i < j < |rows| ==> rows[i].id != rows[j].id
  }

  /** A row's parent is a top-level row of the same user: tasks are at most
      two levels deep. */
  ghost predicate ParentOk(rows: seq<TaskRow>, r: TaskRow)
  {
    r.parentTaskId.Some? ==>
      exists q :: q in rows && q.id == r.parentTaskId.value && q.userId == r.userId && q.parentTaskId.None?
  }

  /** A row's generation is a generation of the same user. */
  ghost predicate GenerationOk(generations: seq<GenerationRow>, r: TaskRow)
  {
    r.generationId.Some? ==>
      exists g :: g in generations && g.id == r.generationId.value && g.userId == r.userId
  }

  ghost predicate ValidTables(rows: seq<TaskRow>, generations: seq<GenerationRow>)
  {
    && UniqueIds(rows)
    && (forall i :: 0 <= i < |rows| ==> rows[i].id != "")
    && (forall i :: 0 <= i < |rows| ==> ParentOk(rows, rows[i]))
    && (forall i :: 0 <= i < |rows| ==> GenerationOk(generations, rows[i]))
  }

  /** The rows after the first have unique ids, none of them the first's. */
  lemma UniqueIdsTail(rows: seq<TaskRow>)
    requires UniqueIds(rows) && rows != []
    ensures UniqueIds(rows[1..])
    ensures forall r :: r in rows[1..] ==> r.id != rows[0].id
  {
    var tail := rows[1..];
    forall i, j | 0 <= i < j < |tail| ensures tail[i].id != tail[j].id {
      assert tail[i] == rows[i + 1] && tail[j] == rows[j + 1];
    }
    forall r | r in tail ensures r.id != rows[0].id {
      var k :| 0 <= k < |tail| && tail[k] == r;
      assert tail[k] == rows[k + 1];
    }
  }

  /** A row whose id no other row has can go in front. */
  lemma UniqueIdsCons(x: TaskRow, rest: seq<TaskRow>)
    requires UniqueIds(rest)
    requires forall r :: r in rest ==> r.id != x.id
    ensures UniqueIds([x] + rest)
  {
    var r := [x] + rest;
    forall i, j | 0 <= i < j < |r| ensures r[i].id != r[j].id {
      assert r[j] == rest[j - 1];
      if i > 0 {
        assert r[i] == rest[i - 1];
      }
    }
  }

  lemma {:induction false} FilterUniqueIds(rows: seq<TaskRow>, p: TaskRow -> bool)
    requires UniqueIds(rows)
    ensures UniqueIds(Seqs.Filter(rows, p))
    decreases |rows|
  {
    if rows != [] {
      var tail := rows[1..];
      UniqueIdsTail(rows);
      FilterUniqueIds(tail, p);
      var rest := Seqs.Filter(tail, p);
      if p(rows[0]) {
        assert Seqs.Filter(rows, p) == [rows[0]] + rest;
        assert forall r :: r in rest ==> r in tail;
        UniqueIdsCons(rows[0], rest);
      } else {
        assert Seqs.Filter(rows, p) == rest;
      }
    }
  }


  /** Removing the rows of a delete keeps the tables consistent, provided no
      remaining row points at a removed one. */
  lemma FilterKeepsValid(rows: seq<TaskRow>, generations: seq<GenerationRow>, keep: TaskRow -> bool)
    requires ValidTables(rows, generations)
    requires forall i, j :: 0 <= i < |rows| && 0 <= j < |rows| && keep(rows[i]) && !keep(rows[j]) ==>
               rows[i].parentTaskId != Some(rows[j].id)
    ensures ValidTables(Seqs.Filter(rows, keep), generations)
  {
    var r := Seqs.Filter(rows, keep);
    FilterUniqueIds(rows, keep);
    forall i | 0 <= i < |r| ensures ParentOk(r, r[i]) && GenerationOk(generations, r[i]) && r[i].id != "" {
      var a :| 0 <= a < |rows| && rows[a] == r[i];
      assert ParentOk(rows, rows[a]) && GenerationOk(generations, rows[a]);
      if r[i].parentTaskId.Some? {
        var q :| q in rows && q.id == r[i].parentTaskId.value && q.userId == r[i].userId && q.parentTaskId.None?;
        var b :| 0 <= b < |rows| && rows[b] == q;
        assert keep(rows[b]);
        assert q in r;
      }
    }
  }

  /** An update that keeps every row's id, owner, parent and generation keeps
      the tables consistent. */
  lemma MapKeepsValid(rows: seq<TaskRow>, generations: seq<GenerationRow>, f: TaskRow -> TaskRow)
    requires ValidTables(rows, generations)
    requires forall r :: f(r).id == r.id && f(r).userId == r.userId && f(r).parentTaskId == r.parentTaskId
                         && f(r).generationId == r.generationId
    ensures ValidTables(MapRows(rows, f), generations)
  {
    var m := MapRows(rows, f);
    forall i | 0 <= i < |m| ensures ParentOk(m, m[i]) {
      assert ParentOk(rows, rows[i]);
      if m[i].parentTaskId.Some? {
        var q :| q in rows && q.id == m[i].parentTaskId.value && q.userId == m[i].userId && q.parentTaskId.None?;
        var b :| 0 <= b < |rows| && rows[b] == q;
        assert m[b] in m;
      }
    }
    forall i | 0 <= i < |m| ensures GenerationOk(generations, m[i]) {
      assert GenerationOk(generations, rows[i]);
    }
  }

  /** Inserting a row with a fresh, non-empty id whose parent is a top-level
      row of the same user and whose generation is the user's keeps the
      tables consistent. */
  lemma InsertKeepsValid(rows: seq<TaskRow>, generations: seq<GenerationRow>, n: TaskRow)
    requires ValidTables(rows, generations)
    requires n.id != "" && forall i :: 0 <= i < |rows| ==> rows[i].id != n.id
    requires ParentOk(rows, n) && GenerationOk(generations, n)
    ensures ValidTables([n] + rows, generations)
  {
    var r := [n] + rows;
    forall i, j | 0 <= i < j < |r| ensures r[i].id != r[j].id {
      assert r[j] == rows[j - 1];
      if i > 0 { assert r[i] == rows[i - 1]; }
    }
    forall i | 0 <= i < |r| ensures ParentOk(r, r[i]) && GenerationOk(generations, r[i]) {
      if i > 0 {
        assert r[i] == rows[i - 1];
        assert ParentOk(rows, rows[i - 1]) && GenerationOk(generations, rows[i - 1]);
        if r[i].parentTaskId.Some? {
          var q :| q in rows && q.id == r[i].parentTaskId.value && q.userId == r[i].userId && q.parentTaskId.None?;
          assert q in r;
        }
      } else if n.parentTaskId.Some? {
        var q :| q in rows && q.id == n.parentTaskId.value && q.userId == n.userId && q.parentTaskId.None?;
        assert q in r;
      }
    }
  }

  /** The server's store: the three tables. */
  class Database {
    var tasks: seq<TaskRow>
    var generations: seq<GenerationRow>
    var errorLogs: seq<ErrorLogRow>

    constructor ()
      ensures tasks == [] && generations == [] && errorLogs == []
    {
      tasks := [];
      generations := [];
      errorLogs := [];
    }

    ghost predicate Valid()
      reads this
    {
      ValidTables(tasks, generations)
    }
  }
}
