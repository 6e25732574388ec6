/** The server side of a generation (server/services/generation.service.ts):
    ask the model for tasks, record the generation, and on any failure log
    it and throw the same error on.  The model's answer, the hash of the
    description, the store's replies, the new row's id and time, and the
    measured duration are inputs. */
module GenerationService {
  import opened Common
  import opened Types
  import opened Db

  const FallbackModel := "mock-model"
  const UnknownError := "UNKNOWN_ERROR"
  const SaveFailedPrefix := "Failed to save generation process: "

  /** One task of the model's answer: `{ title, description }`. */
  datatype AnswerTask = AnswerTask(title: string, description: string)

  /** How the insert of the generation row came back: with the new row, with
      a returned error and its message, or by throwing. */
  datatype InsertReply = Inserted | InsertFailed(message: string) | InsertThrew(thrown: Thrown)

  /** `response.tasks.map(task => ({ ...task, source: 'ai_full' }))` */
  function Proposals(answer: seq<AnswerTask>): (ps: seq<ProposalDto>)
    ensures |ps| == |answer|
    ensures forall i :: 0 <= i < |answer| ==>
      ps[i] == ProposalDto(answer[i].title, Some(answer[i].description), AiFull)
  {
    seq(|answer|, i requires 0 <= i < |answer| => ProposalDto(answer[i].title, Some(answer[i].description), AiFull))
  }

  /** `error_code`: the error's name when it has one, else a fixed code. */
  function ErrorCode(e: Thrown): (c: string)
    ensures e.Error? && e.name != "" ==> c == e.name
    ensures !(e.Error? && e.name != "") ==> c == UnknownError
  {
    if e.Error? && e.name != "" then e.name else UnknownError
  }

  /** `this.config.AI_MODEL || 'mock-model'` */
  function ModelName(aiModel: Option<string>): (m: string)
    ensures m != ""
    ensures Truthy(aiModel) ==> m == aiModel.value
  {
    OrElse(aiModel, FallbackModel)
  }

  /** The error thrown for an insert that did not answer with its row. */
  function InsertError(reply: InsertReply): Thrown
    requires !reply.Inserted?
  {
    match reply
    case InsertFailed(message) => NewError(SaveFailedPrefix + message)
    case InsertThrew(thrown) => thrown
  }

  /** Adding a generation keeps every task's generation link valid. */
  lemma AddGenerationKeepsValid(rows: seq<TaskRow>, generations: seq<GenerationRow>, g: GenerationRow)
    requires ValidTables(rows, generations)
    ensures ValidTables(rows, [g] + generations)
  {
    forall i | 0 <= i < |rows| ensures GenerationOk([g] + generations, rows[i]) {
      assert GenerationOk(generations, rows[i]);
      if rows[i].generationId.Some? {
        var h :| h in generations && h.id == rows[i].generationId.value && h.userId == rows[i].userId;
        assert h in [g] + generations;
      }
    }
  }

  class GenerationService {
    const db: Database
    /** The configured `AI_MODEL`, if any. */
    const aiModel: Option<string>

    constructor (db: Database, aiModel: Option<string>)
      ensures this.db == db && this.aiModel == aiModel
    {
      this.db := db;
      this.aiModel := aiModel;
    }

    /** `logGenerationError`: one insert into the error log, whose failure,
        returned or thrown, is dropped.  Nothing is thrown. */
    method LogGenerationError(userId: string, sourceTextHash: string, error: Thrown, logStep: Step)
      modifies db
      ensures logStep.Answered? ==>
        db.errorLogs == [ErrorLogRow(userId, ErrorCode(error), MessageOf(error), ModelName(aiModel), sourceTextHash)] + old(db.errorLogs)
      ensures !logStep.Answered? ==> db.errorLogs == old(db.errorLogs)
      ensures db.tasks == old(db.tasks) && db.generations == old(db.generations)
    {
      if logStep.Answered? {
        var row := ErrorLogRow(userId, ErrorCode(error), MessageOf(error), ModelName(aiModel), sourceTextHash);
        db.errorLogs := [row] + db.errorLogs;
      }
    }

    /** `generateTasks`.  `answer` is how the model request ended; the
        generation row gets the id `newId` and the time `now`. */
    method GenerateTasks(
      userId: string, description: string, hash: string -> string,
      answer: Result<seq<AnswerTask>, Thrown>, duration: Duration,
      insertReply: InsertReply, newId: string, now: string, logStep: Step)
      returns (r: Result<CreateGenerationResponse, Thrown>)
      modifies db
      ensures r.Ok? <==> answer.Ok? && insertReply.Inserted?
      ensures r.Ok? ==>
        && r.value == CreateGenerationResponse(newId, Proposals(answer.value), |answer.value|, now)
        && db.generations == [GenerationRow(newId, userId, ModelName(aiModel), hash(description), duration, |r.value.tasks|, now)] + old(db.generations)
        && db.errorLogs == old(db.errorLogs)
      ensures r.Err? ==>
        && r.error == (if answer.Err? then answer.error else InsertError(insertReply))
        && db.generations == old(db.generations)
        && db.errorLogs == (if logStep.Answered?
                            then [ErrorLogRow(userId, ErrorCode(r.error), MessageOf(r.error), ModelName(aiModel), hash(description))] + old(db.errorLogs)
                            else old(db.errorLogs))
      ensures db.tasks == old(db.tasks)
      ensures old(db.Valid()) ==> db.Valid()
    {
      var sourceTextHash := hash(description);
      var failure: Thrown;
      if answer.Ok? {
        var tasks := Proposals(answer.value);
        if insertReply.Inserted? {
          var row := GenerationRow(newId, userId, ModelName(aiModel), sourceTextHash, duration, |tasks|, now);
          if db.Valid() {
            AddGenerationKeepsValid(db.tasks, db.generations, row);
          }
          db.generations := [row] + db.generations;
          return Ok(CreateGenerationResponse(newId, tasks, |tasks|, now));
        }
        failure := InsertError(insertReply);
      } else {
        failure := answer.error;
      }
      LogGenerationError(userId, sourceTextHash, failure, logStep);
      r := Err(failure);
    }
  }
}
