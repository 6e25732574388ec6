/** The client's task tree (the `TaskViewModel` forest held by stores/tasks.ts)
    as a value, with the pure operations the store's actions are made of:
    depth-first lookup, the view model built from a fetch, and the node
    rewrites done by create, complete and delete. */
module TaskTree {
  import opened Common
  import opened Types
  import Seqs

  /** TaskViewModel: a task DTO with the UI's `isEdited` flag and nested subtasks. */
  datatype Task = Task(
    id: string,
    title: string,
    description: Option<string>,
    source: TaskSource,
    completed: bool,
    createdAt: string,
    isEdited: bool,
    subtasks: seq<Task>)

  // ---------------------------------------------------------------------------
  // Depth-first lookup
  // ---------------------------------------------------------------------------

  /** Every node of the forest in depth-first pre-order: a task, then all of
      its subtasks, then its later siblings. */
  function PreOrder(ts: seq<Task>): seq<Task>
    decreases ts
  {
    if ts == [] then [] else [ts[0]] + PreOrder(ts[0].subtasks) + PreOrder(ts[1..])
  }

  /** The test `t.id === id`, as one function value shared by every search. */
  function HasId(id: string): Task -> bool
  {
    (t: Task) => t.id == id
  }

  /** The first node of a flat list that has the given id (a linear search). */
  function FirstWithId(nodes: seq<Task>, id: string): Option<Task>
  {
    var k := Seqs.FindIndex(nodes, HasId(id));
    if k == -1 then None else Some(nodes[k])
  }

  /** A path of child indices from the top-level list down to one node. */
  predicate ValidPath(ts: seq<Task>, p: seq<nat>)
    decreases p
  {
    |p| > 0 && p[0] < |ts| && (|p| == 1 || ValidPath(ts[p[0]].subtasks, p[1..]))
  }

  function At(ts: seq<Task>, p: seq<nat>): Task
    requires ValidPath(ts, p)
    decreases p
  {
    if |p| == 1 then ts[p[0]] else At(ts[p[0]].subtasks, p[1..])
  }

  /** The forest with the node at `p` replaced by `n` (a write through the
      reference that the lookup returned). */
  function Replace(ts: seq<Task>, p: seq<nat>, n: Task): (r: seq<Task>)
    requires ValidPath(ts, p)
    ensures |r| == |ts| && ValidPath(r, p) && At(r, p) == n
    ensures forall k :: 0 <= k < |ts| && k != p[0] ==> r[k] == ts[k]
    decreases p
  {
    if |p| == 1 then ts[p[0] := n]
    else ts[p[0] := ts[p[0]].(subtasks := Replace(ts[p[0]].subtasks, p[1..], n))]
  }

  /** `a` is a prefix of `b`: the node at `a` is `b`'s node or one of its
      ancestors. */
  predicate IsPrefix(a: seq<nat>, b: seq<nat>)
  {
    |a| <= |b| && b[..|a|] == a
  }

  /** A write through `p` changes only the node at `p`: a node at a path
      neither inside nor above it is unchanged, and an ancestor of it
      differs only in its subtasks. */
  lemma {:induction false} ReplaceFrame(ts: seq<Task>, p: seq<nat>, n: Task, q: seq<nat>)
    requires ValidPath(ts, p) && ValidPath(ts, q)
    ensures !IsPrefix(p, q) && !IsPrefix(q, p) ==>
              ValidPath(Replace(ts, p, n), q) && At(Replace(ts, p, n), q) == At(ts, q)
    ensures IsPrefix(q, p) && |q| < |p| ==>
              ValidPath(Replace(ts, p, n), q)
              && At(Replace(ts, p, n), q).(subtasks := At(ts, q).subtasks) == At(ts, q)
    decreases p
  {
    var r := Replace(ts, p, n);
    if q[0] != p[0] {
      assert !IsPrefix(p, q) && !IsPrefix(q, p);
      assert r[q[0]] == ts[q[0]];
      if |q| > 1 {
        assert At(r, q) == At(r[q[0]].subtasks, q[1..]);
      }
    } else if |p| > 1 {
      if |q| > 1 {
        assert IsPrefix(p, q) <==> IsPrefix(p[1..], q[1..]) by {
          if |p| <= |q| {
            assert q[..|p|] == [q[0]] + q[1..][..|p| - 1];
            assert p == [p[0]] + p[1..];
          }
        }
        assert IsPrefix(q, p) <==> IsPrefix(q[1..], p[1..]) by {
          if |q| <= |p| {
            assert p[..|q|] == [p[0]] + p[1..][..|q| - 1];
            assert q == [q[0]] + q[1..];
          }
        }
        ReplaceFrame(ts[p[0]].subtasks, p[1..], n, q[1..]);
      }
    }
  }

  /** findTaskRecursively: scan `ts` from index `i`; a node matches before its
      subtasks are searched, and its subtasks before its later siblings. */
  function FindPathFrom(ts: seq<Task>, id: string, i: nat): (r: Option<seq<nat>>)
    requires i <= |ts|
    ensures r.Some? ==> ValidPath(ts, r.value) && i <= r.value[0] && At(ts, r.value).id == id
    decreases ts, |ts| - i
  {
    if i == |ts| then None
    else if ts[i].id == id then Some([i])
    else match FindPathFrom(ts[i].subtasks, id, 0)
      case Some(p) =>
        assert ([i] + p)[1..] == p;
        Some([i] + p)
      case None => FindPathFrom(ts, id, i + 1)
  }

  function FindPath(ts: seq<Task>, id: string): Option<seq<nat>>
  {
    FindPathFrom(ts, id, 0)
  }

  /** getTaskById: the node the depth-first search stops at. */
  function Find(ts: seq<Task>, id: string): (r: Option<Task>)
  {
    match FindPath(ts, id)
    case None => None
    case Some(p) => Some(At(ts, p))
  }

  lemma FirstWithIdAppend(a: seq<Task>, b: seq<Task>, id: string)
    ensures FirstWithId(a + b, id) == if FirstWithId(a, id).Some? then FirstWithId(a, id) else FirstWithId(b, id)
  {
    Seqs.FindIndexAppend(a, b, HasId(id));
    var kb := Seqs.FindIndex(b, HasId(id));
    if Seqs.FindIndex(a, HasId(id)) == -1 && kb != -1 {
      assert (a + b)[|a| + kb] == b[kb];
    }
  }

  /** The lookup is a linear search of the pre-order listing: it returns the
      first node with the id in pre-order, and nothing exactly when no node of
      the forest has that id. */
  lemma {:induction false} FindFromIsFirstInPreOrder(ts: seq<Task>, id: string, i: nat)
    requires i <= |ts|
    ensures match FindPathFrom(ts, id, i)
            case None => FirstWithId(PreOrder(ts[i..]), id) == None
            case Some(p) => FirstWithId(PreOrder(ts[i..]), id) == Some(At(ts, p))
    decreases ts, |ts| - i
  {
    if i < |ts| {
      var sub := ts[i].subtasks;
      assert ts[i..][0] == ts[i] && ts[i..][1..] == ts[i + 1..];
      assert PreOrder(ts[i..]) == [ts[i]] + PreOrder(sub) + PreOrder(ts[i + 1..]);
      FirstWithIdAppend([ts[i]] + PreOrder(sub), PreOrder(ts[i + 1..]), id);
      FirstWithIdAppend([ts[i]], PreOrder(sub), id);
      assert FirstWithId([ts[i]], id) == if ts[i].id == id then Some(ts[i]) else None;
      if ts[i].id != id {
        FindFromIsFirstInPreOrder(sub, id, 0);
        assert sub[0..] == sub;
        match FindPathFrom(sub, id, 0)
        case Some(q) =>
          assert ([i] + q)[1..] == q;
        case None =>
          FindFromIsFirstInPreOrder(ts, id, i + 1);
      }
    }
  }

  lemma FindIsFirstInPreOrder(ts: seq<Task>, id: string)
    ensures Find(ts, id) == FirstWithId(PreOrder(ts), id)
  {
    FindFromIsFirstInPreOrder(ts, id, 0);
    assert ts[0..] == ts;
  }

  /** Writing a node with the same id over the one a lookup found leaves the
      lookup where it was: the search stops there before it looks inside. */
  lemma {:induction false} FindFromAfterReplace(ts: seq<Task>, id: string, i: nat, p: seq<nat>, n: Task)
    requires i <= |ts| && FindPathFrom(ts, id, i) == Some(p) && n.id == id
    ensures FindPathFrom(Replace(ts, p, n), id, i) == Some(p)
    decreases ts, |ts| - i
  {
    var r := Replace(ts, p, n);
    if ts[i].id == id {
      assert p == [i];
    } else {
      match FindPathFrom(ts[i].subtasks, id, 0)
      case Some(q) =>
        assert p == [i] + q && p[1..] == q;
        FindFromAfterReplace(ts[i].subtasks, id, 0, q, n);
        assert r[i] == ts[i].(subtasks := Replace(ts[i].subtasks, q, n));
      case None =>
        assert FindPathFrom(ts, id, i + 1) == Some(p) && p[0] != i;
        assert r[i] == ts[i];
        FindFromAfterReplace(ts, id, i + 1, p, n);
    }
  }

  lemma FindAfterReplace(ts: seq<Task>, id: string, n: Task)
    requires FindPath(ts, id).Some? && n.id == id
    ensures FindPath(Replace(ts, FindPath(ts, id).value, n), id) == FindPath(ts, id)
  {
    FindFromAfterReplace(ts, id, 0, FindPath(ts, id).value, n);
  }

  /** Writing a node twice at the same place keeps only the second write. */
  lemma {:induction false} ReplaceTwice(ts: seq<Task>, p: seq<nat>, n: Task, m: Task)
    requires ValidPath(ts, p)
    ensures Replace(Replace(ts, p, n), p, m) == Replace(ts, p, m)
    decreases p
  {
    if |p| > 1 {
      ReplaceTwice(ts[p[0]].subtasks, p[1..], n, m);
    }
  }

  /** Writing back the node that is already there changes nothing. */
  lemma {:induction false} ReplaceSelf(ts: seq<Task>, p: seq<nat>)
    requires ValidPath(ts, p)
    ensures Replace(ts, p, At(ts, p)) == ts
    decreases p
  {
    if |p| > 1 {
      ReplaceSelf(ts[p[0]].subtasks, p[1..]);
    }
  }

  // ---------------------------------------------------------------------------
  // The view model built from a fetch
  // ---------------------------------------------------------------------------

  function SubtaskToViewModel(d: TaskDto): Task
  {
    Task(d.id, d.title, d.description, d.source, d.completed, d.createdAt, false, [])
  }

  function ItemToViewModel(item: TaskListItem): Task
  {
    var d := item.task;
    Task(d.id, d.title, d.description, d.source, d.completed, d.createdAt, false,
         seq(|item.subtasks|, j requires 0 <= j < |item.subtasks| => SubtaskToViewModel(item.subtasks[j])))
  }

  /** Every second-level node is a leaf: the forest is at most two levels deep. */
  predicate DepthAtMost2(ts: seq<Task>)
  {
    forall i, j :: 0 <= i < |ts| && 0 <= j < |ts[i].subtasks| ==> ts[i].subtasks[j].subtasks == []
  }

  /** The tree built from GET /api/tasks: each item and each of its subtasks
      keeps its DTO fields, with `isEdited` false and no third level. */
  function ToViewModels(items: seq<TaskListItem>): (r: seq<Task>)
    ensures |r| == |items| && DepthAtMost2(r)
    ensures forall i :: 0 <= i < |r| ==>
      var d := items[i].task;
      && r[i].id == d.id && r[i].title == d.title && r[i].description == d.description
      && r[i].source == d.source && r[i].completed == d.completed && r[i].createdAt == d.createdAt
      && !r[i].isEdited && |r[i].subtasks| == |items[i].subtasks|
    ensures forall i, j :: 0 <= i < |r| && 0 <= j < |r[i].subtasks| ==>
      var d := items[i].subtasks[j];
      && r[i].subtasks[j].id == d.id && r[i].subtasks[j].title == d.title
      && r[i].subtasks[j].description == d.description && r[i].subtasks[j].source == d.source
      && r[i].subtasks[j].completed == d.completed && r[i].subtasks[j].createdAt == d.createdAt
      && !r[i].subtasks[j].isEdited
  {
    seq(|items|, i requires 0 <= i < |items| => ItemToViewModel(items[i]))
  }

  /** A node of the pre-order listing is a top-level node or lies in the
      listing of some top-level node's subtasks. */
  lemma {:induction false} PreOrderMember(ts: seq<Task>, n: Task)
    requires n in PreOrder(ts)
    ensures exists i :: 0 <= i < |ts| && (n == ts[i] || n in PreOrder(ts[i].subtasks))
    decreases ts
  {
    if n != ts[0] && n !in PreOrder(ts[0].subtasks) {
      PreOrderMember(ts[1..], n);
      var i :| 0 <= i < |ts[1..]| && (n == ts[1..][i] || n in PreOrder(ts[1..][i].subtasks));
      assert ts[1..][i] == ts[i + 1];
    }
  }

  /** No node of a freshly fetched tree is in edit mode. */
  lemma FetchedTreeNotEdited(items: seq<TaskListItem>)
    ensures forall n :: n in PreOrder(ToViewModels(items)) ==> !n.isEdited
  {
    var r := ToViewModels(items);
    forall n | n in PreOrder(r) ensures !n.isEdited {
      PreOrderMember(r, n);
      var i :| 0 <= i < |r| && (n == r[i] || n in PreOrder(r[i].subtasks));
      if n != r[i] {
        PreOrderMember(r[i].subtasks, n);
        var j :| 0 <= j < |r[i].subtasks| && (n == r[i].subtasks[j] || n in PreOrder(r[i].subtasks[j].subtasks));
        assert r[i].subtasks[j].subtasks == [];
      }
    }
  }

  // ---------------------------------------------------------------------------
  // createTask
  // ---------------------------------------------------------------------------

  const TempPrefix := "temp-"

  /** `` `temp-${Date.now()}` ``: the clock reading is an input. */
  function TempId(stamp: string): (id: string)
    ensures StartsWith(id, TempPrefix)
  {
    assert (TempPrefix + stamp)[..|TempPrefix|] == TempPrefix;
    TempPrefix + stamp
  }

  predicate IsNotTemp(t: Task)
  {
    !StartsWith(t.id, TempPrefix)
  }

  /** `list.filter(t => !t.id.startsWith('temp-'))` */
  function WithoutTemp(s: seq<Task>): seq<Task>
  {
    Seqs.Filter(s, IsNotTemp)
  }

  /** The optimistic node of createTask; `command.description || null` turns
      an empty description into null. */
  function NewTask(command: CreateTaskCommand, tempId: string, createdAt: string): (t: Task)
    ensures t.id == tempId && t.title == command.title && t.source == command.source
    ensures t.description == (if Truthy(command.description) then command.description else None)
    ensures !t.completed && !t.isEdited && t.subtasks == [] && t.createdAt == createdAt
  {
    Task(tempId, command.title, if Truthy(command.description) then command.description else None,
         command.source, false, createdAt, false, [])
  }

  /** `i = list.findIndex(t => t.id === tempId); if (i !== -1) list[i].id = newId` */
  function SetIdOfFirst(s: seq<Task>, tempId: string, newId: string): (r: seq<Task>)
    ensures |r| == |s|
    ensures (forall k :: 0 <= k < |s| ==> s[k].id != tempId) ==> r == s
    ensures forall k :: 0 <= k < |s| && s[k].id == tempId && (forall j :: 0 <= j < k ==> s[j].id != tempId) ==>
              r == s[k := s[k].(id := newId)]
  {
    var k := Seqs.FindIndex(s, HasId(tempId));
    if k == -1 then s else s[k := s[k].(id := newId)]
  }

  /** When no earlier entry carries the temporary id, confirming the create
      renames exactly the appended node. */
  lemma ConfirmRenamesAppended(s: seq<Task>, n: Task, newId: string)
    requires forall k :: 0 <= k < |s| ==> s[k].id != n.id
    ensures SetIdOfFirst(s + [n], n.id, newId) == s + [n.(id := newId)]
  {
    var k := Seqs.FindIndex(s + [n], HasId(n.id));
    assert (s + [n])[|s|] == n;
    assert forall j :: 0 <= j < |s| ==> (s + [n])[j] == s[j];
    assert k == |s|;
  }

  /** Rolling back a failed create drops the optimistic node along with every
      other temporary entry, and keeps the confirmed entries in order. */
  lemma RollbackDropsTemporary(s: seq<Task>, n: Task)
    requires !IsNotTemp(n)
    ensures WithoutTemp(s + [n]) == WithoutTemp(s)
    ensures Seqs.IsSubsequence(WithoutTemp(s), s)
    ensures forall k :: 0 <= k < |WithoutTemp(s)| ==> IsNotTemp(WithoutTemp(s)[k])
    ensures forall k :: 0 <= k < |s| && IsNotTemp(s[k]) ==> s[k] in WithoutTemp(s)
  {
    Seqs.FilterAppend(s, [n], IsNotTemp);
    assert Seqs.Filter([n], IsNotTemp) == [] + Seqs.Filter([n][1..], IsNotTemp);
    assert s + [] == s;
    Seqs.FilterIsSubsequence(s, IsNotTemp);
  }

  /** The optimistic insertion: under the task with id `parentId` when that
      id is truthy (nowhere when no task has it), else at the end of the
      top-level list. */
  function AddTask(ts: seq<Task>, parentId: Option<string>, n: Task): seq<Task>
  {
    if Truthy(parentId) then
      match FindPath(ts, parentId.value)
      case None => ts
      case Some(p) => Replace(ts, p, At(ts, p).(subtasks := At(ts, p).subtasks + [n]))
    else ts + [n]
  }

  /** After the server answered: the temporary id becomes the real one, in the
      list the node was added to. */
  function ConfirmTask(ts: seq<Task>, parentId: Option<string>, tempId: string, newId: string): seq<Task>
  {
    if Truthy(parentId) then
      match FindPath(ts, parentId.value)
      case None => ts
      case Some(p) => Replace(ts, p, At(ts, p).(subtasks := SetIdOfFirst(At(ts, p).subtasks, tempId, newId)))
    else SetIdOfFirst(ts, tempId, newId)
  }

  /** After the server failed: every temporary entry leaves the list the node
      was added to. */
  function RevertTask(ts: seq<Task>, parentId: Option<string>): seq<Task>
  {
    if Truthy(parentId) then
      match FindPath(ts, parentId.value)
      case None => ts
      case Some(p) => Replace(ts, p, At(ts, p).(subtasks := WithoutTemp(At(ts, p).subtasks)))
    else WithoutTemp(ts)
  }

  /** What one createTask call of the tasks store does to its tree. */
  function CreateStep(ts: seq<Task>, command: CreateTaskCommand, stamp: string, now: string,
                      reply: Result<CreateTaskResponse, Thrown>): seq<Task>
  {
    var n := NewTask(command, TempId(stamp), now);
    var added := AddTask(ts, command.parentTaskId, n);
    match reply
    case Ok(response) => ConfirmTask(added, command.parentTaskId, n.id, response.id)
    case Err(_) => RevertTask(added, command.parentTaskId)
  }

  /** A failed top-level create gives back the list it started from, provided
      that list held no other temporary entry. */
  lemma AddThenRevertTopLevel(ts: seq<Task>, parentId: Option<string>, n: Task)
    requires !Truthy(parentId) && !IsNotTemp(n)
    requires forall k :: 0 <= k < |ts| ==> IsNotTemp(ts[k])
    ensures RevertTask(AddTask(ts, parentId, n), parentId) == ts
  {
    RollbackDropsTemporary(ts, n);
    Seqs.FilterKeepsAll(ts, IsNotTemp);
  }

  /** A failed create of a subtask gives back the tree it started from,
      provided the parent held no other temporary subtask. */
  lemma AddThenRevertSubtask(ts: seq<Task>, parentId: Option<string>, p: seq<nat>, n: Task)
    requires Truthy(parentId) && FindPath(ts, parentId.value) == Some(p) && !IsNotTemp(n)
    requires forall k :: 0 <= k < |At(ts, p).subtasks| ==> IsNotTemp(At(ts, p).subtasks[k])
    ensures RevertTask(AddTask(ts, parentId, n), parentId) == ts
  {
    var q := At(ts, p);
    var q1 := q.(subtasks := q.subtasks + [n]);
    FindAfterReplace(ts, parentId.value, q1);
    RollbackDropsTemporary(q.subtasks, n);
    Seqs.FilterKeepsAll(q.subtasks, IsNotTemp);
    assert q1.(subtasks := WithoutTemp(q1.subtasks)) == q;
    ReplaceTwice(ts, p, q1, q);
    ReplaceSelf(ts, p);
  }

  /** A successful top-level create leaves the old list followed by the new
      task under its real id. */
  lemma AddThenConfirmTopLevel(ts: seq<Task>, parentId: Option<string>, n: Task, newId: string)
    requires !Truthy(parentId)
    requires forall k :: 0 <= k < |ts| ==> ts[k].id != n.id
    ensures ConfirmTask(AddTask(ts, parentId, n), parentId, n.id, newId) == ts + [n.(id := newId)]
  {
    ConfirmRenamesAppended(ts, n, newId);
  }

  /** A successful create of a subtask leaves the tree with the parent's
      subtasks followed by the new task under its real id. */
  lemma AddThenConfirmSubtask(ts: seq<Task>, parentId: Option<string>, p: seq<nat>, n: Task, newId: string)
    requires Truthy(parentId) && FindPath(ts, parentId.value) == Some(p)
    requires forall k :: 0 <= k < |At(ts, p).subtasks| ==> At(ts, p).subtasks[k].id != n.id
    ensures ConfirmTask(AddTask(ts, parentId, n), parentId, n.id, newId)
              == Replace(ts, p, At(ts, p).(subtasks := At(ts, p).subtasks + [n.(id := newId)]))
  {
    var q := At(ts, p);
    var q1 := q.(subtasks := q.subtasks + [n]);
    FindAfterReplace(ts, parentId.value, q1);
    ConfirmRenamesAppended(q.subtasks, n, newId);
    ReplaceTwice(ts, p, q1, q.(subtasks := q.subtasks + [n.(id := newId)]));
  }

  // ---------------------------------------------------------------------------
  // completeTask
  // ---------------------------------------------------------------------------

  function SetAllCompleted(s: seq<Task>, v: bool): (r: seq<Task>)
    ensures |r| == |s|
    ensures forall j :: 0 <= j < |s| ==> r[j] == s[j].(completed := v)
  {
    seq(|s|, j requires 0 <= j < |s| => s[j].(completed := v))
  }

  /** The optimistic toggle: flip `completed`; completing also completes every
      direct subtask. */
  function Toggled(n: Task): (r: Task)
  {
    var c := !n.completed;
    n.(completed := c,
       subtasks := if c && |n.subtasks| > 0 then SetAllCompleted(n.subtasks, true) else n.subtasks)
  }

  /** The rollback after a failed toggle, as written: the task and every direct
      subtask get the task's value from before the toggle. */
  function RolledBack(n: Task, original: bool): (r: Task)
  {
    n.(completed := original,
       subtasks := if |n.subtasks| > 0 then SetAllCompleted(n.subtasks, original) else n.subtasks)
  }

  lemma ToggledFlipsAndCascadesOnlyOnCompletion(n: Task)
    ensures Toggled(n).completed == !n.completed
    ensures |Toggled(n).subtasks| == |n.subtasks|
    ensures !n.completed ==> forall j :: 0 <= j < |n.subtasks| ==> Toggled(n).subtasks[j] == n.subtasks[j].(completed := true)
    ensures n.completed ==> Toggled(n).subtasks == n.subtasks
    ensures Toggled(n).(completed := n.completed, subtasks := n.subtasks) == n
  {
  }

  /** After the failed toggle of `n` every direct subtask carries `n`'s old
      value, whatever its own value was; nothing else changes. */
  lemma RollbackSetsSubtasksToParentValue(n: Task)
    ensures RolledBack(Toggled(n), n.completed).completed == n.completed
    ensures |RolledBack(Toggled(n), n.completed).subtasks| == |n.subtasks|
    ensures forall j :: 0 <= j < |n.subtasks| ==>
      RolledBack(Toggled(n), n.completed).subtasks[j] == n.subtasks[j].(completed := n.completed)
  {
  }

  /** The rollback as written gives a task back exactly when every direct
      subtask already carried the task's value. */
  lemma RolledBackRestoresIff(n: Task)
    ensures RolledBack(Toggled(n), n.completed) == n <==>
            forall j :: 0 <= j < |n.subtasks| ==> n.subtasks[j].completed == n.completed
  {
    RollbackSetsSubtasksToParentValue(n);
    var r := RolledBack(Toggled(n), n.completed);
    if forall j :: 0 <= j < |n.subtasks| ==> n.subtasks[j].completed == n.completed {
      assert forall j :: 0 <= j < |n.subtasks| ==> r.subtasks[j] == n.subtasks[j];
      assert r.subtasks == n.subtasks;
    }
  }

  /** A parent that is not completed, with one completed subtask. */
  function RollbackWitness(): Task
  {
    Task("p", "Parent", None, Manual, false, "", false,
         [Task("a", "Done already", None, Manual, true, "", false, [])])
  }

  /** Completing the witness's parent and then failing leaves its subtask
      un-completed, so the rollback does not give back the tree it started from. */
  lemma RollbackDoesNotRestore()
    ensures var n := RollbackWitness();
            RolledBack(Toggled(n), n.completed) != n
  {
    var n := RollbackWitness();
    assert RolledBack(Toggled(n), n.completed).subtasks[0].completed != n.subtasks[0].completed;
  }

  /** A field-level rollback that gives each node back its own value. */
  function Restored(n: Task, snapshot: Task): (r: Task)
    requires |n.subtasks| == |snapshot.subtasks|
  {
    n.(completed := snapshot.completed,
       subtasks := seq(|n.subtasks|, j requires 0 <= j < |n.subtasks| =>
                         n.subtasks[j].(completed := snapshot.subtasks[j].completed)))
  }

  /** The restoring rollback undoes the toggle exactly. */
  lemma RestoredUndoesToggle(n: Task)
    ensures |Toggled(n).subtasks| == |n.subtasks|
    ensures Restored(Toggled(n), n) == n
  {
    var r := Restored(Toggled(n), n);
    assert |r.subtasks| == |n.subtasks|;
    forall j | 0 <= j < |n.subtasks| ensures r.subtasks[j] == n.subtasks[j] {
    }
  }

  // ---------------------------------------------------------------------------
  // deleteTask
  // ---------------------------------------------------------------------------

  /** The first top-level task, from index `i`, one of whose direct subtasks has
      the id: that task's index and the subtask's index. */
  function ParentOfFrom(ts: seq<Task>, id: string, i: nat): (r: Option<(nat, nat)>)
    requires i <= |ts|
    ensures r.Some? ==> i <= r.value.0 < |ts| && r.value.1 < |ts[r.value.0].subtasks|
    ensures r.Some? ==> r.value.1 == Seqs.FindIndex(ts[r.value.0].subtasks, HasId(id))
    ensures r.Some? ==> forall k :: i <= k < r.value.0 ==> Seqs.FindIndex(ts[k].subtasks, HasId(id)) == -1
    ensures r.None? <==> forall k :: i <= k < |ts| ==> Seqs.FindIndex(ts[k].subtasks, HasId(id)) == -1
    decreases |ts| - i
  {
    if i == |ts| then None
    else
      var j := Seqs.FindIndex(ts[i].subtasks, HasId(id));
      if j != -1 then Some((i, j as nat)) else ParentOfFrom(ts, id, i + 1)
  }

  /** The optimistic delete: the top-level task with the id, or else the
      subtask with the id under the first top-level task that has one. */
  function Deleted(ts: seq<Task>, id: string): (r: seq<Task>)
  {
    var top := Seqs.FindIndex(ts, HasId(id));
    if top != -1 then Seqs.RemoveAt(ts, top)
    else match ParentOfFrom(ts, id, 0)
      case Some((i, j)) => ts[i := ts[i].(subtasks := Seqs.RemoveAt(ts[i].subtasks, j))]
      case None => ts
  }

  /** An id found at the top level: that task goes, the others keep their order. */
  lemma DeletedTopLevel(ts: seq<Task>, id: string)
    requires Seqs.FindIndex(ts, HasId(id)) != -1
    ensures var top := Seqs.FindIndex(ts, HasId(id));
            ts[top].id == id && Deleted(ts, id) == ts[..top] + ts[top + 1..]
  {
  }

  /** An id found only one level down: that subtask goes from the first
      top-level task holding it, and nothing else changes. */
  lemma DeletedSubtask(ts: seq<Task>, id: string)
    requires Seqs.FindIndex(ts, HasId(id)) == -1 && ParentOfFrom(ts, id, 0).Some?
    ensures var (i, j) := ParentOfFrom(ts, id, 0).value;
            && ts[i].subtasks[j].id == id
            && |Deleted(ts, id)| == |ts|
            && Deleted(ts, id)[i].subtasks == ts[i].subtasks[..j] + ts[i].subtasks[j + 1..]
            && Deleted(ts, id)[i].(subtasks := ts[i].subtasks) == ts[i]
            && forall k :: 0 <= k < |ts| && k != i ==> Deleted(ts, id)[k] == ts[k]
  {
  }

  /** An id held by no task of the first two levels changes nothing. */
  lemma DeletedAbsent(ts: seq<Task>, id: string)
    requires forall k :: 0 <= k < |ts| ==> ts[k].id != id
    requires forall k, j :: 0 <= k < |ts| && 0 <= j < |ts[k].subtasks| ==> ts[k].subtasks[j].id != id
    ensures Deleted(ts, id) == ts
  {
    assert Seqs.FindIndex(ts, HasId(id)) == -1;
    forall k | 0 <= k < |ts| ensures Seqs.FindIndex(ts[k].subtasks, HasId(id)) == -1 {
      assert forall j :: 0 <= j < |ts[k].subtasks| ==> !HasId(id)(ts[k].subtasks[j]);
    }
  }

  /** Putting a removed subtask back at its index gives back the tree it was
      removed from. */
  lemma ReinsertSubtask(ts: seq<Task>, i: nat, j: nat)
    requires i < |ts| && j < |ts[i].subtasks|
    ensures var d := ts[i := ts[i].(subtasks := Seqs.RemoveAt(ts[i].subtasks, j))];
            d[i := d[i].(subtasks := Seqs.InsertAt(d[i].subtasks, j, ts[i].subtasks[j]))] == ts
  {
    Seqs.InsertRemoved(ts[i].subtasks, j);
    var d := ts[i := ts[i].(subtasks := Seqs.RemoveAt(ts[i].subtasks, j))];
    var r := d[i := d[i].(subtasks := Seqs.InsertAt(d[i].subtasks, j, ts[i].subtasks[j]))];
    assert r[i] == ts[i];
    assert forall k :: 0 <= k < |ts| ==> r[k] == ts[k];
  }
}
