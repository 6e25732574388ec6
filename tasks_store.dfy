/** The client's tasks store (stores/tasks.ts): the task tree, the loading
    flag, the last error and the pagination, with optimistic actions that
    are rolled back when the server call fails.  The outcome of each server
    call is a parameter; a failed call is the value it throws. */
module TasksStore {
  import opened Common
  import opened Types
  import opened TaskTree
  import Seqs

  /** Most subtasks a task may have. */
  const MaxSubtasks := 10

  const LoadFailed := "Failed to load tasks. Please try again."
  const CreateFailed := "Failed to create task. Please try again."
  const UpdateFailed := "Failed to update task. Please try again."
  const DeleteFailed := "Failed to delete task. Please try again."
  const CompleteFailed := "Failed to update task status. Please try again."

  /** findTaskRecursively: visit the tasks in order, each before its subtasks. */
  method FindRecursively(ts: seq<Task>, taskId: string) returns (r: Option<Task>)
    ensures r == Find(ts, taskId)
    decreases ts
  {
    var i := 0;
    while i < |ts|
      invariant 0 <= i <= |ts|
      invariant FindPathFrom(ts, taskId, 0) == FindPathFrom(ts, taskId, i)
    {
      var task := ts[i];
      if task.id == taskId {
        return Some(task);
      }
      if |task.subtasks| > 0 {
        var found := FindRecursively(task.subtasks, taskId);
        if found.Some? {
          var q := FindPath(task.subtasks, taskId).value;
          assert ([i] + q)[1..] == q;
          return found;
        }
      }
      i := i + 1;
    }
    return None;
  }

  /** The parent search of deleteTask: the index of the first task with a
      direct subtask of the id, and that subtask's index, or none and -1. */
  method FindParent(ts: seq<Task>, taskId: string) returns (parent: Option<nat>, subtaskIndex: int)
    ensures parent.None? <==> ParentOfFrom(ts, taskId, 0).None?
    ensures parent.None? ==> subtaskIndex == -1
    ensures parent.Some? ==> subtaskIndex >= 0 && ParentOfFrom(ts, taskId, 0) == Some((parent.value, subtaskIndex as nat))
  {
    parent := None;
    subtaskIndex := -1;
    var i := 0;
    while i < |ts|
      invariant 0 <= i <= |ts|
      invariant subtaskIndex == -1
      invariant ParentOfFrom(ts, taskId, 0) == ParentOfFrom(ts, taskId, i)
    {
      subtaskIndex := Seqs.FindIndex(ts[i].subtasks, HasId(taskId));
      if subtaskIndex != -1 {
        parent := Some(i);
        return;
      }
      i := i + 1;
    }
  }

  class Store {
    var tasks: seq<Task>
    var isLoading: bool
    var error: Option<string>
    var pagination: Option<Pagination>

    constructor ()
      ensures tasks == [] && isLoading && error == None && pagination == None
    {
      tasks := [];
      isLoading := true;
      error := None;
      pagination := None;
    }

    /** getTaskById: the first task in depth-first order with that id. */
    method GetTaskById(taskId: string) returns (r: Option<Task>)
      ensures r == Find(tasks, taskId)
      ensures r == FirstWithId(PreOrder(tasks), taskId)
    {
      r := FindRecursively(tasks, taskId);
      FindIsFirstInPreOrder(tasks, taskId);
    }

    /** canAddSubtask: a top-level task can always be added; a subtask only
        under an existing task with fewer than ten subtasks. */
    method CanAddSubtask(parentTaskId: Option<string>) returns (b: bool)
      ensures parentTaskId.None? ==> b
      ensures parentTaskId.Some? ==>
        (b <==> exists n :: Find(tasks, parentTaskId.value) == Some(n) && |n.subtasks| < MaxSubtasks)
    {
      if parentTaskId.None? {
        return true;
      } else {
        var parentTask := GetTaskById(parentTaskId.value);
        if parentTask.None? {
          return false;
        }
        return |parentTask.value.subtasks| < MaxSubtasks;
      }
    }

    /** fetchTasks: replace the tree by the fetched one, or record the load
        error and keep the old tree; the loading flag ends up cleared. */
    method FetchTasks(reply: Result<GetTasksResponse, Thrown>)
      modifies this
      ensures !isLoading
      ensures reply.Ok? ==>
        tasks == ToViewModels(reply.value.tasks) && pagination == Some(reply.value.pagination) && error == None
      ensures reply.Err? ==>
        tasks == old(tasks) && pagination == old(pagination) && error == Some(LoadFailed)
    {
      isLoading := true;
      error := None;
      match reply {
        case Ok(response) =>
          tasks := ToViewModels(response.tasks);
          pagination := Some(response.pagination);
        case Err(_) =>
          error := Some(LoadFailed);
      }
      isLoading := false;
    }

    /** createTask: add the task under a temporary id, then give it the
        server's id, or on failure remove the temporary entries and rethrow. */
    method CreateTask(command: CreateTaskCommand, stamp: string, now: string,
                      reply: Result<CreateTaskResponse, Thrown>)
      returns (outcome: Result<string, Thrown>)
      modifies this
      ensures isLoading == old(isLoading) && pagination == old(pagination)
      ensures tasks == CreateStep(old(tasks), command, stamp, now, reply)
      ensures reply.Ok? ==> outcome == Ok(reply.value.id) && error == old(error)
      ensures reply.Err? ==> outcome == Err(reply.error) && error == Some(CreateFailed)
    {
      var tempId := TempId(stamp);
      var newTask := NewTask(command, tempId, now);
      tasks := AddTask(tasks, command.parentTaskId, newTask);
      match reply
      case Ok(response) =>
        tasks := ConfirmTask(tasks, command.parentTaskId, tempId, response.id);
        outcome := Ok(response.id);
      case Err(e) =>
        tasks := RevertTask(tasks, command.parentTaskId);
        error := Some(CreateFailed);
        outcome := Err(e);
    }

    /** updateTask: nothing happens for an unknown id; otherwise the new title
        and description are shown at once and the edit mode is left when the
        server agrees, or the old title and description come back. */
    method UpdateTask(taskId: string, command: UpdateTaskCommand, reply: Result<(), Thrown>)
      returns (outcome: Result<(), Thrown>)
      modifies this
      ensures isLoading == old(isLoading) && pagination == old(pagination)
      ensures match FindPath(old(tasks), taskId)
              case None => tasks == old(tasks) && error == old(error) && outcome == Ok(())
              case Some(p) =>
                var t := At(old(tasks), p);
                match reply
                case Ok(_) =>
                  && outcome == Ok(()) && error == old(error)
                  && tasks == Replace(old(tasks), p,
                                      t.(title := command.title, description := command.description, isEdited := false))
                case Err(e) =>
                  outcome == Err(e) && error == Some(UpdateFailed) && tasks == old(tasks)
    {
      var found := FindPath(tasks, taskId);
      if found.None? {
        return Ok(());
      }
      var p := found.value;
      var task := At(tasks, p);
      var originalTitle := task.title;
      var originalDescription := task.description;
      var before := tasks;
      var edited := task.(title := command.title, description := command.description);
      tasks := Replace(tasks, p, edited);
      match reply
      case Ok(_) =>
        FindAfterReplace(before, taskId, edited);
        SetEditingState(taskId, false);
        ReplaceTwice(before, p, edited, edited.(isEdited := false));
        outcome := Ok(());
      case Err(e) =>
        var restored := edited.(title := originalTitle, description := originalDescription);
        tasks := Replace(tasks, p, restored);
        ReplaceTwice(before, p, edited, restored);
        assert restored == At(before, p);
        ReplaceSelf(before, p);
        error := Some(UpdateFailed);
        outcome := Err(e);
    }

    /** deleteTask: remove the task (top-level, or a subtask of the first
        top-level task that holds it), call the server whether or not it was
        found, and put the task back at its place if the call fails. */
    method DeleteTask(taskId: string, reply: Result<(), Thrown>)
      returns (outcome: Result<(), Thrown>)
      modifies this
      ensures isLoading == old(isLoading) && pagination == old(pagination)
      ensures reply.Ok? ==> outcome == Ok(()) && error == old(error) && tasks == Deleted(old(tasks), taskId)
      ensures reply.Err? ==> outcome == reply && error == Some(DeleteFailed) && tasks == old(tasks)
    {
      var topLevelIndex := Seqs.FindIndex(tasks, HasId(taskId));
      var parentTask: Option<nat> := None;
      var subtaskIndex := -1;
      if topLevelIndex == -1 {
        parentTask, subtaskIndex := FindParent(tasks, taskId);
      }

      var before := tasks;
      var deletedTask: Option<Task> := None;
      if topLevelIndex != -1 {
        deletedTask := Some(tasks[topLevelIndex]);
        tasks := Seqs.RemoveAt(tasks, topLevelIndex);
      } else if parentTask.Some? && subtaskIndex != -1 {
        var i := parentTask.value;
        deletedTask := Some(tasks[i].subtasks[subtaskIndex]);
        tasks := tasks[i := tasks[i].(subtasks := Seqs.RemoveAt(tasks[i].subtasks, subtaskIndex))];
      }
      assert tasks == Deleted(before, taskId);

      match reply
      case Ok(_) =>
        outcome := Ok(());
      case Err(e) =>
        if deletedTask.Some? {
          if topLevelIndex != -1 {
            tasks := Seqs.InsertAt(tasks, topLevelIndex, deletedTask.value);
            Seqs.InsertRemoved(before, topLevelIndex);
          } else if parentTask.Some? && subtaskIndex != -1 {
            var i := parentTask.value;
            tasks := tasks[i := tasks[i].(subtasks := Seqs.InsertAt(tasks[i].subtasks, subtaskIndex, deletedTask.value))];
            ReinsertSubtask(before, i, subtaskIndex);
          }
        }
        assert tasks == before;
        error := Some(DeleteFailed);
        outcome := Err(e);
    }

    /** completeTask: nothing happens for an unknown id; otherwise the task is
        toggled at once (completing it also completes its direct subtasks)
        and, if the server call fails, the task and each direct subtask are
        set to the task's previous value (TaskTree.RolledBack), so a subtask
        loses its own previous value; TaskTree.Restored is the rollback that
        gives each node back its own. */
    method CompleteTask(taskId: string, reply: Result<(), Thrown>)
      returns (outcome: Result<(), Thrown>)
      modifies this
      ensures isLoading == old(isLoading) && pagination == old(pagination)
      ensures match FindPath(old(tasks), taskId)
              case None => tasks == old(tasks) && error == old(error) && outcome == Ok(())
              case Some(p) =>
                var t := At(old(tasks), p);
                match reply
                case Ok(_) => outcome == Ok(()) && error == old(error) && tasks == Replace(old(tasks), p, Toggled(t))
                case Err(e) =>
                  && outcome == Err(e) && error == Some(CompleteFailed)
                  && tasks == Replace(old(tasks), p, RolledBack(Toggled(t), t.completed))
    {
      var found := FindPath(tasks, taskId);
      if found.None? {
        return Ok(());
      }
      var p := found.value;
      var task := At(tasks, p);
      var before := tasks;
      var toggled := Toggled(task);
      tasks := Replace(tasks, p, toggled);
      match reply
      case Ok(_) =>
        outcome := Ok(());
      case Err(e) =>
        var originalState := task.completed;
        tasks := Replace(tasks, p, RolledBack(toggled, originalState));
        ReplaceTwice(before, p, toggled, RolledBack(toggled, originalState));
        error := Some(CompleteFailed);
        outcome := Err(e);
    }

    /** setEditingState: set the edit flag of the task with that id, if any. */
    method SetEditingState(taskId: string, isEditing: bool)
      modifies this
      ensures isLoading == old(isLoading) && pagination == old(pagination) && error == old(error)
      ensures match FindPath(old(tasks), taskId)
              case None => tasks == old(tasks)
              case Some(p) => tasks == Replace(old(tasks), p, At(old(tasks), p).(isEdited := isEditing))
    {
      match FindPath(tasks, taskId)
      case None =>
      case Some(p) =>
        tasks := Replace(tasks, p, At(tasks, p).(isEdited := isEditing));
    }
  }
}
