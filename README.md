# 10xTODO: a Dafny model of the task tree, its rules and its validators

10xTODO is a Nuxt to-do application. Tasks form a forest at most two levels
deep (a task and its subtasks), and an AI generation turns a short
description into proposed tasks that the user may edit, delete or accept.
This project models the logic at the heart of that application and proves its
properties:

- **The client tasks store** (`TasksStore.Store`) holds the `TaskViewModel`
  forest (`TaskTree.Task`). It looks tasks up depth-first, caps subtasks at
  ten, and performs optimistic create, update, delete and complete actions,
  each rolled back by its own rule when the server call fails.
- **The client generation store** (`GenerationStore.Store`) is a session
  state machine over `idle | loading | proposals | error | submitting`. It
  holds proposals that are edited or deleted by temporary id; accepting them
  creates one task per proposal, in order.
- **The server task service** (`TaskService.TaskService`) works over an
  in-memory `tasks` table (`Db.Database`). It normalises pagination, groups
  subtasks under their parents, checks ownership and depth on create,
  assigns positions, cascades deletes one level down, and cascades
  completion only on completion.
- **The input validators** cover task and generation bodies (`TaskSchema`,
  `GenerationSchema`) and the four authentication schemas (`AuthSchema`).
  `AuthValidation` holds the client's `safeParse` wrappers. `FormValidation`
  holds the form helpers that fold issues into a field-to-message map. The
  zod behaviour these schemas rely on is in `Zod`: a type failure stops a
  field, while length and format checks only add issues. An object-level
  refine runs only when no field was stopped, and a missing field takes the
  `required_error` message.
- **The route guard** (`RouteGuard`) decides the redirect for a signed-in or
  signed-out user.
- **The generation service** (`GenerationService`) asks the model for tasks
  through the chat-completion client (`OpenRouter`). It records the
  generation, and on failure it logs the error and throws the same error
  on.

Effects are parameters. Each server reply, each database step (answered,
returned an error, or threw), the model's answer, the description hash, new
ids, clock readings and durations are inputs to the operation that uses them.
A database table is a sequence of rows kept newest first, so an
`order by created_at desc` query is a filter. Every operation is
deterministic once these inputs are fixed.

The generation schema's own doc comment
(server/validation/generation.schema.ts:7) calls for a non-empty description
of at most 1000 characters, and its message for a short one is "Description
is required". The code checks the length of the description as received and
trims afterwards. `GenerationSchema.ParseGeneration` follows the code, and
the difference is the second finding below.

The client's `completeTask` rollback gives every direct subtask the parent's
old value, not the subtask's own old value (`TaskTree.RolledBack`, the first
finding). `TasksStore.Store.CompleteTask` models that rollback as written;
`TaskTree.Restored` is the rollback that gives each node back its own value,
under which a failed call would leave the tree as it was.

## Model

| member | source | states |
|---|---|---|
| TasksStore.FindRecursively | stores/tasks.ts:21-36 | the depth-first loop returns exactly the node the specification function `Find` selects |
| TasksStore.Store.GetTaskById | stores/tasks.ts:19-39 | the result is the first node, in depth-first pre-order (a task before its subtasks, subtasks before later siblings), whose id is the query; none when no node has it |
| TaskTree.FindPathFrom | stores/tasks.ts:21-36 | a path it returns is valid and leads to a node with the sought id |
| TaskTree.FindIsFirstInPreOrder | stores/tasks.ts:19-39 | the recursive lookup equals a linear search of the pre-order listing of the forest |
| TaskTree.FindFromIsFirstInPreOrder | stores/tasks.ts:21-36 | from any start index, the search finds the first match of the pre-order listing of the remaining tasks |
| TaskTree.FirstWithIdAppend | stores/tasks.ts:22-33 | searching a concatenation finds the match in the first part, else in the second |
| TaskTree.Replace | stores/tasks.ts:159-160 | the written node is at the path afterwards; the list keeps its length and the other top-level entries |
| TaskTree.ReplaceFrame | stores/tasks.ts:159-160 | writing through a found node changes only that node: a node neither inside nor above it is unchanged, and an ancestor differs only in its subtasks |
| TaskTree.FindAfterReplace | stores/tasks.ts:149-181 | a node written over the found one with the same id is found again at the same place |
| TaskTree.FindFromAfterReplace | stores/tasks.ts:149-181 | the same fact from any start index of the search |
| TaskTree.ReplaceTwice | stores/tasks.ts:159-177 | two writes to the same node keep only the second |
| TaskTree.ReplaceSelf | stores/tasks.ts:170-177 | writing back the node's own values leaves the forest unchanged |
| TasksStore.Store.CanAddSubtask | stores/tasks.ts:41-52 | always true without a parent; with one, true exactly when that node exists and has fewer than 10 subtasks |
| TaskTree.ToViewModels | stores/tasks.ts:63-71 | one node per fetched item, in order, with its fetched fields, and every second-level node a leaf, so the depth is at most 2 |
| TaskTree.FetchedTreeNotEdited | stores/tasks.ts:63-71 | no node of a freshly fetched tree is in edit mode |
| TaskTree.PreOrderMember | stores/tasks.ts:21-36 | a node of the pre-order listing is a top-level node or lies beneath one |
| TasksStore.Store.FetchTasks | stores/tasks.ts:55-80 | on success the tree and the pagination are the response's and the error is cleared; on failure the tree is kept and the load error is set; loading ends false |
| TaskTree.TempId | stores/tasks.ts:85 | the optimistic id carries the `temp-` prefix |
| TaskTree.NewTask | stores/tasks.ts:86-95 | the optimistic node has the command's title and source, its description or null, the temporary id, not completed, not edited, no subtasks |
| TaskTree.SetIdOfFirst | stores/tasks.ts:119-128 | only the first entry carrying the temporary id gets the new id; with no such entry the list is unchanged; the length is kept |
| TaskTree.ConfirmRenamesAppended | stores/tasks.ts:125-128 | when no earlier entry has the temporary id, confirming renames exactly the appended node |
| TaskTree.RollbackDropsTemporary | stores/tasks.ts:137-140 | the revert keeps every non-`temp-` entry in order, drops every `temp-` entry, and drops the appended node |
| TaskTree.AddThenRevertTopLevel | stores/tasks.ts:104-106 | a failed top-level create gives back a list without temporary entries unchanged |
| TaskTree.AddThenRevertSubtask | stores/tasks.ts:98-103 | a failed subtask create gives back the tree unchanged when the parent's subtasks have no temporary entries |
| TaskTree.AddThenConfirmTopLevel | stores/tasks.ts:104-128 | a successful top-level create appends exactly one node, carrying the server's id, at the end of the list |
| TaskTree.AddThenConfirmSubtask | stores/tasks.ts:98-123 | a successful subtask create appends exactly one node, carrying the server's id, to the found parent's subtasks |
| TasksStore.Store.CreateTask | stores/tasks.ts:82-147 | the new tree is the create step for the reply; success returns the server's id, failure rethrows the error and sets the create message |
| TasksStore.Store.UpdateTask | stores/tasks.ts:149-181 | an unknown id changes nothing; on success only the found node's title and description change and it leaves edit mode; on failure the tree is exactly the old one and the update message is set |
| TasksStore.Store.SetEditingState | stores/tasks.ts:274-279 | only the found node's edit flag changes; an unknown id changes nothing |
| TaskTree.ParentOfFrom | stores/tasks.ts:191-197 | it returns the first top-level task holding the id among its direct subtasks, with that subtask's index; none exactly when no such task exists |
| TaskTree.DeletedTopLevel | stores/tasks.ts:205-208 | a top-level id: that task is removed at its index and the rest keep their order |
| TaskTree.DeletedSubtask | stores/tasks.ts:209-211 | an id found one level down: only that subtask leaves the first parent holding it |
| TaskTree.DeletedAbsent | stores/tasks.ts:186-211 | an id on neither level leaves the tree unchanged |
| TasksStore.FindParent | stores/tasks.ts:189-198 | the first task holding a direct subtask with the id and that subtask's index, or none and -1 when no task does |
| TaskTree.ReinsertSubtask | stores/tasks.ts:222-224 | putting a removed subtask back at its index restores the tree it was removed from |
| TasksStore.Store.DeleteTask | stores/tasks.ts:183-231 | success leaves the deleted tree; failure puts the removed node back at its index, so the tree is exactly the old one, and sets the delete message |
| TaskTree.SetAllCompleted | stores/tasks.ts:245-265 | every subtask gets the given value and nothing else changes |
| TaskTree.ToggledFlipsAndCascadesOnlyOnCompletion | stores/tasks.ts:240-248 | the toggle flips `completed` and completes every direct subtask only when it completes the task; un-completing leaves the subtasks alone |
| TaskTree.RollbackSetsSubtasksToParentValue | stores/tasks.ts:255-264 | after a failed toggle, the task and every direct subtask carry the task's old value |
| TaskTree.RolledBackRestoresIff | stores/tasks.ts:255-264 | the rollback as written gives a task back exactly when every direct subtask already had the task's value |
| TaskTree.RollbackDoesNotRestore | stores/tasks.ts:255-264 | a parent that is not completed, with one completed subtask, ends the failed toggle with that subtask not completed |
| TaskTree.RestoredUndoesToggle | stores/tasks.ts:255-264 | the intended rollback, giving each node its own old value, undoes the toggle exactly |
| TasksStore.Store.CompleteTask | stores/tasks.ts:233-272 | an unknown id changes nothing; success leaves the toggled node; failure writes back the toggled node with the task and every direct subtask set to the task's old `completed` value, and sets the completion message |
| GenerationStore.Store.ResetSession | stores/generation.ts:50-58 | no generation id, `idle`, empty description, no proposals, no error |
| GenerationStore.Store.RejectSession | stores/generation.ts:173-176 | the session is reset and the modal is closed |
| GenerationStore.Store.OpenModal | stores/generation.ts:42-44 | the modal opens; the session is unchanged |
| GenerationStore.Store.CloseModal | stores/generation.ts:46-48 | the modal closes; the session is unchanged |
| GenerationStore.Store.constructor | stores/generation.ts:31-39 | a new store starts with a reset session and a closed modal |
| GenerationStore.CaughtMessage | stores/generation.ts:99-170 | an Error gives its message; anything else gives the fallback |
| GenerationStore.GenerateErrorNeverBlankUnlessThrown | stores/generation.ts:75-81 | a fetch error or missing data always ends with a non-empty message, the server's own when it is non-empty |
| GenerationStore.ToProposals | stores/generation.ts:84-89 | one proposal per returned task, in order, with its fields, a fresh temporary id, not edited and not being edited |
| GenerationStore.Store.GenerateProposals | stores/generation.ts:60-108 | the description is the new one from any state; success shows the proposals of the new generation with no error; failure goes to `error` with its message and keeps the proposals and the generation id |
| GenerationStore.Store.UpdateProposal | stores/generation.ts:110-127 | only the proposal with the matching temporary id is replaced, marked edited; an unknown id changes nothing; the list of temporary ids is unchanged |
| GenerationStore.TempIds | stores/generation.ts:111 | the temporary ids of the list, in order |
| GenerationStore.Store.DeleteProposal | stores/generation.ts:129-131 | the proposals become those with another temporary id |
| GenerationStore.DeleteProposalFacts | stores/generation.ts:129-131 | the deletion keeps the order of the rest, removes every proposal with that id and keeps every other one, and repeating it changes nothing |
| GenerationStore.DeleteProposalCopies | stores/generation.ts:129-131 | the deletion keeps every copy of each proposal with another temporary id and no copy of one with that id |
| GenerationStore.AcceptCommands | stores/generation.ts:144-156 | one command per proposal, in order, keeping its title and description, with no parent and the session's generation id, `ai_edited` exactly when the proposal was edited and never `manual` |
| GenerationStore.AcceptCommandsMeetCreateSchema | stores/generation.ts:145-153 | with a generation id and valid titles, the server's create schema accepts every command as sent; without a generation id it rejects every one |
| GenerationStore.FirstFailure | stores/generation.ts:144-156 | the index of the first failing create call, or -1 exactly when every call succeeds |
| GenerationStore.FirstFailureExtend | stores/generation.ts:144-156 | one more successful call after calls that all succeeded still leaves no failure |
| GenerationStore.FirstFailureAfterOks | stores/generation.ts:144-156 | calls that all succeed before a failing one place the first failure there |
| GenerationStore.CreatedAllSnoc | stores/generation.ts:144-156 | one more create call extends the sequence of create steps by one |
| GenerationStore.CreateEach | stores/generation.ts:144-156 | it sends the commands in order until the first failure, and the tasks tree is the result of exactly those create steps |
| GenerationStore.Store.AcceptProposals | stores/generation.ts:133-171 | an empty list changes nothing; otherwise all commands in order, then a refresh, a reset session and a closed modal, or at the first failure status `proposals` with its message, the proposals kept and the earlier creates not undone |
| TaskService.NormalPage | server/services/task.service.ts:41-42 | the page is at least 1, and unchanged when it already is |
| TaskService.NormalLimit | server/services/task.service.ts:43-44 | the limit lies in 1..100, and is unchanged when it already does |
| TaskService.NormalizationFacts | server/services/task.service.ts:41-46 | page below 1 becomes 1, limit below 1 becomes 20, limit above 100 becomes 100, and normalising twice equals normalising once |
| TaskService.PageOf | server/services/task.service.ts:71 | at most `limit` rows, exactly those from the offset when enough remain, none past the end |
| TaskService.PagesConcatenate | server/services/task.service.ts:71 | consecutive pages make up the page of their combined size |
| TaskService.PaginationExample | server/services/task.service.ts:41-71 | with 25 tasks, page 1 holds the first 20 and page 2 the last 5, and page 3 (limit capped at 100) is empty |
| TaskService.Dtos | server/services/task.service.ts:121-129 | one DTO per row, in order |
| TaskService.DtosAppend | server/services/task.service.ts:121-129 | mapping distributes over concatenation |
| TaskService.Ids | server/services/task.service.ts:84 | the ids of the page, in order |
| TaskService.ListItems | server/services/task.service.ts:121-129 | one item per page row, carrying that row, with the caller's direct children of the row, in table order, as its subtasks |
| TaskService.TasksPageParents | server/services/task.service.ts:50-137 | only the caller's top-level tasks are listed, in table order, at most `limit` of them; every such task is among the candidates; the total counts them all |
| TaskService.ListItemShape | server/services/task.service.ts:84-129 | each item is its page row, its subtasks include every one of the caller's rows with that parent, and nothing else |
| TaskService.GroupedIsOwnChildren | server/services/task.service.ts:84-118 | looking a parent up in the grouped subtasks equals filtering the table for that parent's own subtasks |
| TaskService.FiledSnoc | server/services/task.service.ts:102-118 | one more row is filed under its own parent only |
| TaskService.GroupedIsFiled | server/services/task.service.ts:102-118 | the grouping files every row under its parent id, in order; an id that is absent has nothing filed under it |
| TaskService.GroupByParent | server/services/task.service.ts:102-118 | the loop's dictionary maps every parent id to exactly its rows, in order received |
| TaskService.Assemble | server/services/task.service.ts:121-129 | one item per parent, carrying that parent, with the group filed under its id as subtasks, or none when no group is |
| TaskService.AssembleIsListItems | server/services/task.service.ts:84-129 | joining parents with the grouping yields each parent with exactly its own subtasks |
| TaskService.PageItems | server/services/task.service.ts:71-129 | the parents, subtasks and grouping steps give the page's items |
| TaskService.PageResponse | server/services/task.service.ts:131-138 | the response pairs the items with the normalised page, limit and the count, or 0 when it is absent |
| TaskService.TaskService.GetTasks | server/services/task.service.ts:35-154 | each failing query maps to its 500 message, a raw throw to the generic one; when all answer, the response is the caller's page |
| TaskService.DescriptionOrNull | server/services/task.service.ts:228 | the description is kept when non-empty, else null |
| TaskService.TaskService.CreateTask | server/services/task.service.ts:163-267 | a missing or foreign parent gives 404, a nested parent 400, a missing or foreign generation 404, a throwing position lookup rethrows, a failed insert 500; any failure inserts nothing; success inserts exactly one row of the caller, not completed, with the command's fields, at position 1 without a parent and 2 with one when the position lookup returns an error, and keeps the table consistent |
| TaskService.SingleByIdIsOwned | server/services/task.service.ts:213-222 | with unique ids the position lookup finds the parent the ownership check found |
| TaskService.OnlyRowWithId | server/services/task.service.ts:282-292 | with unique ids the owned row found is the only row with that id |
| TaskService.NewRowKeepsValid | server/services/task.service.ts:224-235 | an allowed insert with a fresh id keeps ids unique, parents top-level and owned, and generations owned |
| TaskService.TaskService.DeleteTask | server/services/task.service.ts:276-346 | a task not owned gives 404 and removes nothing; a top-level task goes with its subtasks, a subtask alone; the tables stay consistent |
| TaskService.DeleteChildrenKeepsValid | server/services/task.service.ts:296-310 | deleting the subtasks of a task keeps the tables consistent |
| TaskService.DeleteRowKeepsValid | server/services/task.service.ts:313-326 | deleting the task row after its subtasks keeps the tables consistent |
| TaskService.DeleteTopLevelRemoves | server/services/task.service.ts:296-326 | the two deletes of a top-level task remove exactly it and the rows whose parent it is |
| TaskService.DeleteSubtaskRemoves | server/services/task.service.ts:313-326 | deleting a subtask removes exactly that row |
| TaskService.TaskService.UpdateTask | server/services/task.service.ts:355-412 | a task not owned gives 404; otherwise only that row's title and description change |
| TaskService.TaskService.CompleteTask | server/services/task.service.ts:414-488 | the owned row's `completed` flips; only when a top-level task becomes completed are the caller's direct subtasks completed |
| TaskService.CompleteChanges | server/services/task.service.ts:435-470 | a completion changes the task's own row, and its subtasks only on completion of a top-level task; every other row is left alone |
| Db.Single | server/services/task.service.ts:282-292 | a `.single()` lookup yields a matching row with no matching row before it, or none when no row matches |
| Db.MapRows | server/services/task.service.ts:376-386 | an update keeps the table's length and changes each row by the given update |
| Db.FilterUniqueIds | server/services/task.service.ts:296-326 | deleting rows keeps ids unique |
| Db.FilterKeepsValid | server/services/task.service.ts:296-326 | deleting rows that no remaining row depends on keeps the tables consistent |
| Db.MapKeepsValid | server/services/task.service.ts:376-470 | updating fields other than ids, owners and links keeps the tables consistent |
| Db.InsertKeepsValid | server/services/task.service.ts:224-242 | inserting a row with a fresh id and valid links keeps the tables consistent |
| TaskSchema.SourceField | server/validation/task.schema.ts:10 | exactly `ai_full`, `ai_edited` and `manual` are accepted, each as its source |
| TaskSchema.CreateTaskAccepts | server/validation/task.schema.ts:6-21 | a create body is accepted exactly when the title has 1..255 characters, the description is absent, null or a string, both ids are null or UUIDs, the source is one of the three, and an AI source has a truthy generation id; the parsed command carries those values |
| TaskSchema.GenerationIdRuleReported | server/validation/task.schema.ts:12-21 | an AI source without a truthy generation id is rejected with the message on path `generationId` |
| TaskSchema.ManualSourceNeedsNoGeneration | server/validation/task.schema.ts:14-17 | with source `manual` no issue comes from the generation rule, whatever the generation id |
| TaskSchema.ParseEncoded | server/validation/task.schema.ts:6-21 | a command within the rules parses back from its body unchanged |
| TaskSchema.UpdateTaskAccepts | server/validation/task.schema.ts:26-29 | an update body is accepted exactly when the title has 1..255 characters and the description is null or any string |
| GenerationSchema.StartOf | server/validation/generation.schema.ts:14 | the first position from a given one that is not white space, or the end; everything skipped is white space |
| GenerationSchema.EndOf | server/validation/generation.schema.ts:14 | the position after the last character, above a lower bound, that is not white space; everything skipped is white space |
| GenerationSchema.TrimFacts | server/validation/generation.schema.ts:14 | the trimmed string is a piece of the input, no longer than it, with no white space at either end, and everything cut off is white space |
| GenerationSchema.TrimIdempotent | server/validation/generation.schema.ts:14 | trimming twice is trimming once |
| GenerationSchema.TrimEmptyIffBlank | server/validation/generation.schema.ts:14 | a string trims to nothing exactly when it is all white space |
| GenerationSchema.NonEmptyTrimBy | server/validation/generation.schema.ts:14 | a string that does not trim to nothing has a character that is not white space, and its trimmed form starts and ends with one |
| GenerationSchema.GenerationAccepts | server/validation/generation.schema.ts:9-15 | accepted exactly when the description is a string of 1..1000 characters as received, yielding its trimmed form; the type, empty and too-long cases give their messages |
| GenerationSchema.BlankDescriptionAccepted | server/validation/generation.schema.ts:12-14 | a description of one space is accepted and becomes empty |
| GenerationSchema.TrimmedGenerationAccepts | server/validation/generation.schema.ts:9-15 | the corrected schema accepts exactly a string whose trimmed form has 1..1000 characters |
| GenerationSchema.TrimmedGenerationNonBlank | server/validation/generation.schema.ts:9-15 | what the corrected schema yields is non-empty and has no white space at either end |
| AuthSchema.EmailField | server/validation/auth.schema.ts:4-6 | a non-string stops the field, a missing one with the required message; a string passes exactly when it is an e-mail, else gives the invalid-address message |
| AuthSchema.PasswordField | server/validation/auth.schema.ts:9-11 | a non-string stops the field, a missing one with the required message; a string passes exactly when it has 6 or more characters, else gives the length message |
| AuthSchema.LoginAccepts | server/validation/auth.schema.ts:26-29 | login accepts exactly a valid e-mail and a password of 6 or more characters |
| AuthSchema.PasswordBoundary | server/validation/auth.schema.ts:9-11 | with a valid e-mail, 6 characters pass and 5 fail with exactly the length message |
| AuthSchema.EmptyLoginMessages | server/validation/auth.schema.ts:4-11 | an empty login form gets the two required messages, in field order |
| AuthSchema.ForgotAccepts | server/validation/auth.schema.ts:32-34 | forgot-password accepts exactly a valid e-mail |
| AuthSchema.RegisterAccepts | server/validation/auth.schema.ts:14-23 | register accepts exactly the login conditions plus a confirmation string equal to the password |
| AuthSchema.RegisterMismatchReported | server/validation/auth.schema.ts:20-23 | string fields with differing passwords are rejected, and the last issue is the mismatch message on `confirmPassword` |
| AuthSchema.RegisterAbortSkipsMismatch | server/validation/auth.schema.ts:14-23 | a field that is not a string keeps the mismatch check from running |
| AuthSchema.ResetAccepts | server/validation/auth.schema.ts:37-46 | reset accepts exactly a token string, a new password of 6 or more characters and an equal confirmation |
| AuthSchema.ResetMismatchReported | server/validation/auth.schema.ts:43-46 | differing new passwords are rejected, and the last issue is the mismatch message on `confirmPassword` |
| AuthSchema.LoginIssueFields | server/validation/auth.schema.ts:26-29 | every issue of the login schema names `email` or `password` |
| AuthSchema.ForgotIssueFields | server/validation/auth.schema.ts:32-34 | every issue of the forgot-password schema names `email` |
| AuthSchema.RegisterIssueFields | server/validation/auth.schema.ts:14-23 | every issue of the register schema names `email`, `password` or `confirmPassword` |
| AuthSchema.ResetIssueFields | server/validation/auth.schema.ts:37-46 | every issue of the reset schema names `token`, `newPassword` or `confirmPassword` |
| AuthValidation.ValidateLogin | composables/useAuthValidation.ts:50-52 | succeeds exactly on a valid e-mail and a password of 6 or more characters, with those values; a failure carries issues on `email` or `password` only, and nothing is thrown |
| AuthValidation.ValidateRegister | composables/useAuthValidation.ts:54-56 | succeeds exactly when the confirmation also equals the password; a failure carries issues on the three fields only |
| AuthValidation.ValidateForgotPassword | composables/useAuthValidation.ts:58-60 | succeeds exactly on a valid e-mail; a failure carries issues on `email` only |
| AuthValidation.ValidateResetPassword | composables/useAuthValidation.ts:62-64 | succeeds exactly on a token, a new password of 6 or more characters and an equal confirmation; a failure carries issues on those fields only |
| FormValidation.Parse | composables/useFormValidation.ts:17 | `parse` returns the data exactly when the schema accepts, and otherwise throws its issues |
| FormValidation.ErrorMapKeys | composables/useFormValidation.ts:21-24 | the keys of the error object are exactly the fields of the issues |
| FormValidation.ErrorMapLastWins | composables/useFormValidation.ts:21-24 | a field shows the message of its last issue |
| FormValidation.FromSafeParse | composables/useFormValidation.ts:37-47 | success exactly when the schema accepts, with no errors; otherwise the error keys are the issues' fields |
| FormValidation.Catching | composables/useFormValidation.ts:16-28 | success exactly when parse returns; validation issues are folded by field; any other throw gives only the form-wide message |
| FormValidation.CatchingParseIsSafeParse | composables/useFormValidation.ts:15-48 | the try/catch shape and the safeParse shape give the same result for every schema outcome |
| FormValidation.ValidateRegister | composables/useFormValidation.ts:15-29 | success exactly when registration is valid; a failure shows at least one error, on the schema's fields only |
| FormValidation.ValidateLogin | composables/useFormValidation.ts:36-48 | success exactly when login is valid; a failure shows errors on `email` or `password`, never the form-wide key |
| FormValidation.ValidateForgotPassword | composables/useFormValidation.ts:55-69 | success exactly on a valid e-mail; a failure shows an error on `email` |
| FormValidation.ValidateResetPassword | composables/useFormValidation.ts:76-90 | success exactly when the reset is valid; a failure shows errors on the schema's fields only |
| FormValidation.RegisterMismatchShown | composables/useFormValidation.ts:15-29 | differing passwords show the mismatch message beside `confirmPassword` |
| FormValidation.ResetMismatchShown | composables/useFormValidation.ts:76-90 | differing new passwords show the mismatch message beside `confirmPassword` |
| RouteGuard.Guard | middleware/auth.global.ts:1-19 | redirect to `/` exactly for a signed-in user on an auth page; to `/auth/login` exactly for a signed-out user elsewhere; no redirect exactly otherwise |
| RouteGuard.NoRedirectLoop | middleware/auth.global.ts:5-18 | a redirect's target, with the same sign-in state, is let through |
| RouteGuard.AuthPages | middleware/auth.global.ts:5-17 | each listed auth page, and every path under `/auth/reset-password`, is open to signed-out users and closed to signed-in ones |
| OpenRouter.NewService | server/services/openrouter.service.ts:31-43 | creating the service fails with the configuration message exactly when the key is missing or empty; otherwise it keeps the key and defaults to Claude 3.5 Sonnet |
| OpenRouter.BuildPayload | server/services/openrouter.service.ts:86-113 | the model is the truthy requested one else the default; exactly the system and user messages, in that order; a strict `json_schema` format named `json_schema`; temperature and max tokens passed through |
| OpenRouter.DefaultModelUsed | server/services/openrouter.service.ts:41-100 | no model or an empty one requested gives `anthropic/claude-3.5-sonnet` |
| OpenRouter.Classify | server/services/openrouter.service.ts:132-148 | 400 gives `Invalid request: ` plus the provider message or `Bad request`; 401, 429 and 500 or more each give their fixed message; any other failure is thrown on unchanged |
| OpenRouter.MakeRequest | server/services/openrouter.service.ts:118-150 | the reply, or the classified error |
| OpenRouter.GetJsonResponse | server/services/openrouter.service.ts:48-81 | every error leaving it is an Error with the `Failed to get a valid response` prefix; no choices, a first choice without a message, a parse failure (an absent or null content included) and a request failure each have their own wrapped message; a decoded answer is returned as is |
| GenerationService.Proposals | server/services/generation.service.ts:79-82 | one proposal per model item, in order, with its title and description and source `ai_full` |
| GenerationService.ErrorCode | server/services/generation.service.ts:132 | the error's name when it is an Error with a name, else `UNKNOWN_ERROR` |
| GenerationService.ModelName | server/services/generation.service.ts:92 | the configured model when set, else `mock-model`; never empty |
| GenerationService.AddGenerationKeepsValid | server/services/generation.service.ts:88-102 | recording a generation keeps every task's generation link valid |
| GenerationService.GenerationService.LogGenerationError | server/services/generation.service.ts:126-146 | one error-log row with the code, the message (or the value as text), the model and the hash when the insert answers; a failing insert is dropped; the other tables are untouched |
| GenerationService.GenerationService.GenerateTasks | server/services/generation.service.ts:30-117 | success exactly when the model and the insert succeed, with exactly one generation row whose count is the number of tasks and whose hash is the description's; any failure writes no generation row, attempts one error-log insert with the same hash, and rethrows the same error; the tasks table is untouched |

## Left out

- Network and storage are inputs: `$fetch`, `useFetch`, the Supabase client's query builders and the chat-completion HTTP call. Each becomes the outcome it delivers. A query that answers, returns an error, or throws is a `Db.Step`.
- The SHA-256 hash (server/services/generation.service.ts:154-156) is a function parameter, and `uuidv4`, `Date.now()`, ISO timestamps and database ids are inputs. Nothing is assumed about their uniqueness beyond the `FreshId` precondition of the consistency result in `TaskService.TaskService.CreateTask`.
- Durations from `performance.now()` and the request's `temperature` are Dafny `real`s carried through unchanged; floating-point arithmetic is not modelled.
- The zod library itself is modelled only as far as these schemas use it (`Zod`). The e-mail and UUID syntax checks are predicate parameters. Default messages of zod are `Default(code)` values, not texts. `JSON.parse`, the answer schema and `zod-to-json-schema` are one `decode` parameter and one opaque schema value.
- String lengths count Dafny characters; JavaScript counts UTF-16 code units, so characters outside the Basic Multilingual Plane are not modelled.
- In `TaskSchema`, and in the command sent by `GenerationStore.Store.AcceptProposals`, a missing description and a null one are both `None`. The extra `position: 0` member that stores/generation.ts:152 adds to each create command is not modelled, because the server ignores it.
- `TaskService.TaskService.CreateTask` states the position (1 without a parent, 2 with one) only when table ids are unique. The position lookup reads the parent by id alone, so with a duplicate id it could find another row. The `!data` check after the insert (server/services/task.service.ts:252-257) is not modelled, because an insert step that answers always yields its row here.
- `TaskService.TaskService.GetTasks` takes the count from the table. The `countReported` flag stands for a count query that answers null, giving a total of 0.
- In `TaskService`, a raw value thrown inside a `try` is taken to have no `statusCode`, so the catch-all wraps it; an H3 error is passed on. This matches every throw the modelled code can make.
- Node identity in the client tree: stores/tasks.ts mutates the node object `getTaskById` returns. The model writes through the path of that node (`TaskTree.Replace`), so aliasing between two references to the same node object is not modelled.
- Vue and Pinia reactivity (`ref`, `computed`, re-rendering) and interleaving of concurrent store actions are not modelled: each action runs to completion with its awaited outcomes as inputs.
- The request headers, the URL and the fixed system prompt of server/services/generation.service.ts:44-54 are not modelled. `GenerationService.GenerationService.GenerateTasks` takes the model's answer as an input rather than building the request through `OpenRouter.GetJsonResponse`. The "3-5 tasks" wording of the prompt is not enforced by any schema, so no bound on the proposals is stated.
- Console logging, composables/useAuth.ts, the server/api handlers and nuxt.config.ts are not part of this model: they carry no logic of the core. That includes the handlers' query parsing, which can yield `NaN`; `getTasks` takes integer arguments.
- types.ts has no behaviour; its shapes are the datatypes of `Types`.
- Db.Single: `.single()` answers with an error when several rows match; the model returns the first of them. Every lookup through it matches on a row id, and with unique ids (`TaskService.OnlyRowWithId`) at most one row can match.
- The runtime's TypeError for a first choice without a `message` is the `missingMessage` parameter of `OpenRouter.GetJsonResponse`; its text is not modelled. What `JSON.parse` does with an absent or null content is part of the `decode` parameter.
- The two-step delete and complete cascades are not atomic. They are modelled as sequential steps, either of which may fail, leaving the first step done.

## Findings

| source | as written | input that shows it | evidently intended | confidence | as-written member | corrected member |
|---|---|---|---|---|---|---|
| stores/tasks.ts:255-264 | after a failed completion the rollback sets the task and every direct subtask to the task's old `completed` value | a task that is not completed, with one completed subtask: completing it and failing leaves the subtask not completed, although it was completed before | the rollback restores each node's own value, so a failed toggle changes nothing | medium, not executed | TaskTree.RollbackDoesNotRestore | TaskTree.RestoredUndoesToggle |
| server/validation/generation.schema.ts:12-14 | `min(1)` and `max(1000)` run on the string as received, before `.trim()` | the description `" "` passes `min(1)` and is handed on as the empty string | a description that is empty after trimming is rejected as required | medium, not executed | GenerationSchema.BlankDescriptionAccepted | GenerationSchema.TrimmedGenerationNonBlank |
