/** The shapes exchanged between the client and the server (the DTOs and
    commands of types.ts) and the provenance tag of a task. */
module Types {
  import opened Common

  /** `task_source`: a task written by hand, an AI proposal accepted as is,
      or an AI proposal edited before it was accepted. */
  datatype TaskSource = AiFull | AiEdited | Manual

  /** TaskDTOBase, also the element type of a task's `subtasks` list. */
  datatype TaskDto = TaskDto(
    id: string,
    title: string,
    description: Option<string>,
    source: TaskSource,
    completed: bool,
    createdAt: string)

  /** TaskListItemDTO: a top-level task with its subtasks. */
  datatype TaskListItem = TaskListItem(task: TaskDto, subtasks: seq<TaskDto>)

  datatype Pagination = Pagination(page: int, limit: int, total: int)

  /** GET /api/tasks response */
  datatype GetTasksResponse = GetTasksResponse(tasks: seq<TaskListItem>, pagination: Pagination)

  /** POST /api/tasks request body.  `description` is optional and nullable;
      both absences are `None`, because every reader treats them alike. */
  datatype CreateTaskCommand = CreateTaskCommand(
    title: string,
    description: Option<string>,
    parentTaskId: Option<string>,
    source: TaskSource,
    generationId: Option<string>)

  /** PUT /api/tasks/{id} request body */
  datatype UpdateTaskCommand = UpdateTaskCommand(title: string, description: Option<string>)

  /** POST /api/tasks response */
  datatype CreateTaskResponse = CreateTaskResponse(
    id: string,
    title: string,
    description: Option<string>,
    source: TaskSource,
    createdAt: string)

  /** PUT /api/tasks/{id} response; `updatedAt` is made up by the server. */
  datatype UpdateTaskResponse = UpdateTaskResponse(
    id: string,
    title: string,
    description: Option<string>,
    updatedAt: string)

  /** GenerationProposalTaskDTO; the server always tags it `ai_full`. */
  datatype ProposalDto = ProposalDto(title: string, description: Option<string>, source: TaskSource)

  /** POST /api/generations response */
  datatype CreateGenerationResponse = CreateGenerationResponse(
    generationId: string,
    tasks: seq<ProposalDto>,
    generatedCount: int,
    createdAt: string)
}
