/** The client's AI generation store (stores/generation.ts): one generation
    session (its status, the description sent, the proposals received and
    the last error) and the modal flag.  Server replies, fresh uuids and
    clock readings are parameters. */
module GenerationStore {
  import opened Common
  import opened Types
  import opened TaskTree
  import TasksStore
  import Seqs
  import TaskSchema

  datatype Status = Idle | Loading | Proposals | Failed | Submitting

  /** GenerationProposalViewModel */
  datatype Proposal = Proposal(
    title: string,
    description: Option<string>,
    source: TaskSource,
    tempId: string,
    isEdited: bool,
    isEditing: bool)

  /** What `useFetch` gives back: its `error` ref set (with or without a
      message), no data, the data, or a value thrown before either. */
  datatype GenerateReply =
    | FetchError(message: Option<string>)
    | NoData
    | Data(response: CreateGenerationResponse)
    | Threw(thrown: Thrown)

  const GenerateFailed := "Wystąpił błąd podczas generowania zadań"
  const NothingGenerated := "Nie udało się wygenerować zadań"
  const UnknownGenerateError := "Wystąpił nieznany błąd podczas generowania zadań"
  const SaveFailed := "Wystąpił błąd podczas zapisywania zadań"

  /** `err instanceof Error ? err.message : fallback` */
  function CaughtMessage(e: Thrown, fallback: string): (m: string)
    ensures e.Error? ==> m == e.message
    ensures e.NonError? ==> m == fallback
  {
    if e.Error? then e.message else fallback
  }

  /** The error a failed generateProposals ends with. */
  function GenerateError(reply: GenerateReply): (m: string)
    requires !reply.Data?
  {
    match reply
    case FetchError(message) => OrElse(message, GenerateFailed)
    case NoData => NothingGenerated
    case Threw(e) => CaughtMessage(e, UnknownGenerateError)
  }

  /** Every failure ends with a non-empty message, which is the server's own
      message when the fetch error carries a non-empty one. */
  lemma GenerateErrorNeverBlankUnlessThrown(reply: GenerateReply)
    requires !reply.Data? && !reply.Threw?
    ensures GenerateError(reply) != ""
    ensures reply.FetchError? && Truthy(reply.message) ==> GenerateError(reply) == reply.message.value
    ensures reply.FetchError? && !Truthy(reply.message) ==> GenerateError(reply) == GenerateFailed
  {
  }

  /** The proposals shown for a generation: each fetched task with a fresh
      temporary id, neither edited nor being edited. */
  function ToProposals(dtos: seq<ProposalDto>, uuid: nat -> string): (r: seq<Proposal>)
    ensures |r| == |dtos|
    ensures forall i :: 0 <= i < |r| ==>
      && r[i].title == dtos[i].title && r[i].description == dtos[i].description
      && r[i].source == dtos[i].source && r[i].tempId == uuid(i)
      && !r[i].isEdited && !r[i].isEditing
  {
    seq(|dtos|, i requires 0 <= i < |dtos| =>
      Proposal(dtos[i].title, dtos[i].description, dtos[i].source, uuid(i), false, false))
  }

  /** The command acceptProposals sends for one proposal. */
  function ProposalCommand(p: Proposal, generationId: Option<string>): CreateTaskCommand
  {
    CreateTaskCommand(p.title, p.description, None, if p.isEdited then AiEdited else AiFull, generationId)
  }

  /** Accepted proposals become top-level tasks of the session's generation,
      one per proposal in order, keeping title and description; the source
      says whether the user edited the proposal, and is never `manual`. */
  function AcceptCommands(ps: seq<Proposal>, generationId: Option<string>): (r: seq<CreateTaskCommand>)
    ensures |r| == |ps|
    ensures forall i :: 0 <= i < |ps| ==>
      && r[i].title == ps[i].title && r[i].description == ps[i].description
      && r[i].parentTaskId == None && r[i].generationId == generationId
      && (r[i].source == AiEdited <==> ps[i].isEdited)
      && r[i].source != Manual
  {
    seq(|ps|, i requires 0 <= i < |ps| => ProposalCommand(ps[i], generationId))
  }
  /** The server's create schema accepts every command an accept sends when
      the session has a generation id and the titles are within bounds, and
      rejects every one of them when the session has none. */
  lemma AcceptCommandsMeetCreateSchema(ps: seq<Proposal>, generationId: Option<string>, isUuid: string -> bool)
    requires forall i :: 0 <= i < |ps| ==> 1 <= |ps[i].title| <= TaskSchema.MaxTitle
    ensures generationId.Some? && generationId.value != "" && isUuid(generationId.value) ==>
      forall i :: 0 <= i < |ps| ==>
        TaskSchema.ParseCreateTask(TaskSchema.Encode(AcceptCommands(ps, generationId)[i]), isUuid)
          == Ok(AcceptCommands(ps, generationId)[i])
    ensures generationId.None? ==>
      forall i :: 0 <= i < |ps| ==>
        TaskSchema.ParseCreateTask(TaskSchema.Encode(AcceptCommands(ps, generationId)[i]), isUuid).Err?
  {
    forall i | 0 <= i < |ps|
      ensures var c := AcceptCommands(ps, generationId)[i];
              && (generationId.Some? && generationId.value != "" && isUuid(generationId.value) ==>
                    TaskSchema.ParseCreateTask(TaskSchema.Encode(c), isUuid) == Ok(c))
              && (generationId.None? ==> TaskSchema.ParseCreateTask(TaskSchema.Encode(c), isUuid).Err?)
    {
      var c := AcceptCommands(ps, generationId)[i];
      if generationId.Some? && generationId.value != "" && isUuid(generationId.value) {
        TaskSchema.ParseEncoded(c, isUuid);
      }
      TaskSchema.CreateTaskAccepts(TaskSchema.Encode(c), isUuid);
    }
  }


  /** The tree after createTask was called with each command in turn; call
      `i` reads the clock as `stamps(i)` and `nows(i)` and gets `replies(i)`. */
  function CreatedAll(ts: seq<Task>, commands: seq<CreateTaskCommand>, stamps: nat -> string,
                      nows: nat -> string, replies: nat -> Result<CreateTaskResponse, Thrown>): seq<Task>
    decreases |commands|
  {
    if commands == [] then ts
    else
      var k := |commands| - 1;
      CreateStep(CreatedAll(ts, commands[..k], stamps, nows, replies), commands[k], stamps(k), nows(k), replies(k))
  }

  /** The index of the first create call from `i` on that fails among the
      first `n`, or -1. */
  function FirstFailure(replies: nat -> Result<CreateTaskResponse, Thrown>, n: nat, i: nat := 0): (k: int)
    ensures k == -1 || i <= k < n
    ensures k == -1 <==> forall j :: i <= j < n ==> replies(j).Ok?
    ensures k != -1 ==> replies(k).Err? && forall j :: i <= j < k ==> replies(j).Ok?
    decreases n - i
  {
    if i >= n then -1
    else if replies(i).Err? then i
    else FirstFailure(replies, n, i + 1)
  }

  /** Deleting by temporary id keeps the other proposals in order and leaves
      none with that id; deleting again changes nothing. */
  lemma DeleteProposalFacts(ps: seq<Proposal>, tempId: string)
    ensures var r := Seqs.Filter(ps, OtherThan(tempId));
            && Seqs.IsSubsequence(r, ps)
            && (forall i :: 0 <= i < |r| ==> r[i].tempId != tempId)
            && (forall i :: 0 <= i < |ps| && ps[i].tempId != tempId ==> ps[i] in r)
            && Seqs.Filter(r, OtherThan(tempId)) == r
  {
    var r := Seqs.Filter(ps, OtherThan(tempId));
    Seqs.FilterIsSubsequence(ps, OtherThan(tempId));
    forall x | x in r ensures OtherThan(tempId)(x) {
      var i :| 0 <= i < |r| && r[i] == x;
    }
    Seqs.FilterKeepsAll(r, OtherThan(tempId));
  }

  /** Deleting by temporary id keeps every copy of each other proposal and
      no copy of one with that id. */
  lemma DeleteProposalCopies(ps: seq<Proposal>, tempId: string, x: Proposal)
    ensures multiset(Seqs.Filter(ps, OtherThan(tempId)))[x] == if x.tempId != tempId then multiset(ps)[x] else 0
  {
    Seqs.FilterMultiplicity(ps, OtherThan(tempId), x);
  }

  /** The test `p.tempId !== tempId` */
  function OtherThan(tempId: string): Proposal -> bool
  {
    (p: Proposal) => p.tempId != tempId
  }

  function SameTempId(tempId: string): Proposal -> bool
  {
    (p: Proposal) => p.tempId == tempId
  }

  /** The temporary ids of a proposal list, in order. */
  function TempIds(ps: seq<Proposal>): (r: seq<string>)
    ensures |r| == |ps| && forall i :: 0 <= i < |ps| ==> r[i] == ps[i].tempId
  {
    seq(|ps|, i requires 0 <= i < |ps| => ps[i].tempId)
  }

  lemma CreatedAllSnoc(ts: seq<Task>, commands: seq<CreateTaskCommand>, i: nat, stamps: nat -> string,
                       nows: nat -> string, replies: nat -> Result<CreateTaskResponse, Thrown>)
    requires i < |commands|
    ensures CreatedAll(ts, commands[..i + 1], stamps, nows, replies)
         == CreateStep(CreatedAll(ts, commands[..i], stamps, nows, replies), commands[i], stamps(i), nows(i), replies(i))
  {
    assert commands[..i + 1][..i] == commands[..i];
  }

  /** The first failure is at `i` when the calls before `i` succeed and call `i` fails. */
  lemma {:induction false} FirstFailureAfterOks(replies: nat -> Result<CreateTaskResponse, Thrown>, n: nat, i: nat)
    requires i < n && FirstFailure(replies, i) == -1 && replies(i).Err?
    ensures FirstFailure(replies, n) == i
  {
    assert forall j :: 0 <= j < i ==> replies(j).Ok?;
  }

  /** One more successful call keeps the first `i + 1` calls free of failures. */
  lemma FirstFailureExtend(replies: nat -> Result<CreateTaskResponse, Thrown>, i: nat)
    requires FirstFailure(replies, i) == -1 && replies(i).Ok?
    ensures FirstFailure(replies, i + 1) == -1
  {
    assert forall j :: 0 <= j < i ==> replies(j).Ok?;
  }

  /** The loop of acceptProposals: createTask for each proposal in turn,
      stopping at the first call that throws; `sent` lists the commands. */
  method CreateEach(tasks: TasksStore.Store, ps: seq<Proposal>, generationId: Option<string>,
                    stamps: nat -> string, nows: nat -> string,
                    replies: nat -> Result<CreateTaskResponse, Thrown>)
    returns (sent: seq<CreateTaskCommand>, failure: Option<Thrown>)
    modifies tasks
    ensures tasks.isLoading == old(tasks.isLoading) && tasks.pagination == old(tasks.pagination)
    ensures var commands := AcceptCommands(ps, generationId);
            var k := FirstFailure(replies, |commands|);
            if k == -1 then
              && sent == commands && failure == None && tasks.error == old(tasks.error)
              && tasks.tasks == CreatedAll(old(tasks.tasks), commands, stamps, nows, replies)
            else
              && sent == commands[..k + 1] && failure == Some(replies(k).error)
              && tasks.error == Some(TasksStore.CreateFailed)
              && tasks.tasks == CreatedAll(old(tasks.tasks), commands[..k + 1], stamps, nows, replies)
  {
    ghost var commands := AcceptCommands(ps, generationId);
    ghost var start, loading, pagination, error := tasks.tasks, tasks.isLoading, tasks.pagination, tasks.error;
    sent := [];
    var i := 0;
    while i < |ps|
      invariant 0 <= i <= |ps| == |commands|
      invariant sent == commands[..i]
      invariant FirstFailure(replies, i) == -1
      invariant tasks.tasks == CreatedAll(start, commands[..i], stamps, nows, replies)
      invariant tasks.isLoading == loading && tasks.pagination == pagination && tasks.error == error
    {
      var command := ProposalCommand(ps[i], generationId);
      assert command == commands[i];
      Seqs.TakeSnoc(commands, i);
      sent := sent + [command];
      CreatedAllSnoc(start, commands, i, stamps, nows, replies);
      var outcome := tasks.CreateTask(command, stamps(i), nows(i), replies(i));
      if outcome.Err? {
        FirstFailureAfterOks(replies, |commands|, i);
        return sent, Some(outcome.error);
      }
      FirstFailureExtend(replies, i);
      i := i + 1;
    }
    assert commands[..i] == commands;
    return sent, None;
  }

  class Store {
    var generationId: Option<string>
    var status: Status
    var description: string
    var proposals: seq<Proposal>
    var error: Option<string>
    var isModalOpen: bool

    predicate IsReset()
      reads this
    {
      generationId == None && status == Idle && description == "" && proposals == [] && error == None
    }

    constructor ()
      ensures IsReset() && !isModalOpen
    {
      generationId := None;
      status := Idle;
      description := "";
      proposals := [];
      error := None;
      isModalOpen := false;
    }

    method OpenModal()
      modifies this
      ensures isModalOpen
      ensures generationId == old(generationId) && status == old(status) && description == old(description)
      ensures proposals == old(proposals) && error == old(error)
    {
      isModalOpen := true;
    }

    method CloseModal()
      modifies this
      ensures !isModalOpen
      ensures generationId == old(generationId) && status == old(status) && description == old(description)
      ensures proposals == old(proposals) && error == old(error)
    {
      isModalOpen := false;
    }

    method ResetSession()
      modifies this
      ensures IsReset() && isModalOpen == old(isModalOpen)
    {
      generationId := None;
      status := Idle;
      description := "";
      proposals := [];
      error := None;
    }

    method RejectSession()
      modifies this
      ensures IsReset() && !isModalOpen
    {
      ResetSession();
      CloseModal();
    }

    /** generateProposals: go to `loading` with the description; then either
        show the proposals of the new generation, or go to `error` keeping
        the rest of the session. */
    method GenerateProposals(desc: string, reply: GenerateReply, uuid: nat -> string)
      modifies this
      ensures description == desc && isModalOpen == old(isModalOpen)
      ensures reply.Data? ==>
        && generationId == Some(reply.response.generationId) && status == Proposals
        && proposals == ToProposals(reply.response.tasks, uuid) && error == None
      ensures !reply.Data? ==>
        && generationId == old(generationId) && status == Failed
        && proposals == old(proposals) && error == Some(GenerateError(reply))
    {
      status := Loading;
      description := desc;
      match reply
      case FetchError(message) =>
        var thrown := NewError(OrElse(message, GenerateFailed));
        status := Failed;
        error := Some(CaughtMessage(thrown, UnknownGenerateError));
      case NoData =>
        var thrown := NewError(NothingGenerated);
        status := Failed;
        error := Some(CaughtMessage(thrown, UnknownGenerateError));
      case Threw(thrown) =>
        status := Failed;
        error := Some(CaughtMessage(thrown, UnknownGenerateError));
      case Data(response) =>
        var ps := ToProposals(response.tasks, uuid);
        generationId := Some(response.generationId);
        status := Proposals;
        description := desc;
        proposals := ps;
        error := None;
    }

    /** updateProposal: the first proposal with the same temporary id is
        replaced by the given one, marked as edited; an unknown id changes
        nothing.  The list of temporary ids stays what it was. */
    method UpdateProposal(proposal: Proposal)
      modifies this
      ensures generationId == old(generationId) && status == old(status) && description == old(description)
      ensures error == old(error) && isModalOpen == old(isModalOpen)
      ensures var k := Seqs.FindIndex(old(proposals), SameTempId(proposal.tempId));
              && (k == -1 ==> proposals == old(proposals))
              && (k != -1 ==> proposals == old(proposals)[k := proposal.(isEdited := true)])
      ensures TempIds(proposals) == TempIds(old(proposals))
    {
      var index := Seqs.FindIndex(proposals, SameTempId(proposal.tempId));
      if index != -1 {
        var updated := proposals;
        updated := updated[index := proposal.(isEdited := true, isEditing := proposal.isEditing)];
        proposals := updated;
      }
    }

    /** deleteProposal: drop every proposal with that temporary id. */
    method DeleteProposal(tempId: string)
      modifies this
      ensures generationId == old(generationId) && status == old(status) && description == old(description)
      ensures error == old(error) && isModalOpen == old(isModalOpen)
      ensures proposals == Seqs.Filter(old(proposals), OtherThan(tempId))
    {
      proposals := Seqs.Filter(proposals, OtherThan(tempId));
    }

    /** acceptProposals: nothing for an empty list; otherwise one createTask
        per proposal, in order, stopping at the first failure (back to
        `proposals` with its message), and after the last one a refresh of
        the task list, a reset session and a closed modal.  `sent` lists the
        commands handed to createTask. */
    method AcceptProposals(tasks: TasksStore.Store, stamps: nat -> string, nows: nat -> string,
                           replies: nat -> Result<CreateTaskResponse, Thrown>,
                           fetchReply: Result<GetTasksResponse, Thrown>)
      returns (sent: seq<CreateTaskCommand>)
      modifies this, tasks
      ensures old(proposals) == [] ==>
        && sent == [] && generationId == old(generationId) && status == old(status)
        && description == old(description) && proposals == old(proposals) && error == old(error)
        && isModalOpen == old(isModalOpen)
        && tasks.tasks == old(tasks.tasks) && tasks.isLoading == old(tasks.isLoading)
        && tasks.error == old(tasks.error) && tasks.pagination == old(tasks.pagination)
      ensures old(proposals) != [] ==>
        var commands := AcceptCommands(old(proposals), old(generationId));
        var k := FirstFailure(replies, |commands|);
        if k == -1 then
          && sent == commands && IsReset() && !isModalOpen && !tasks.isLoading
          && (fetchReply.Ok? ==> tasks.tasks == ToViewModels(fetchReply.value.tasks) && tasks.error == None
                                 && tasks.pagination == Some(fetchReply.value.pagination))
          && (fetchReply.Err? ==> tasks.tasks == CreatedAll(old(tasks.tasks), commands, stamps, nows, replies)
                                  && tasks.error == Some(TasksStore.LoadFailed)
                                  && tasks.pagination == old(tasks.pagination))
        else
          && sent == commands[..k + 1]
          && status == Proposals && error == Some(CaughtMessage(replies(k).error, SaveFailed))
          && generationId == old(generationId) && description == old(description)
          && proposals == old(proposals) && isModalOpen == old(isModalOpen)
          && tasks.tasks == CreatedAll(old(tasks.tasks), commands[..k + 1], stamps, nows, replies)
          && tasks.error == Some(TasksStore.CreateFailed)
          && tasks.isLoading == old(tasks.isLoading) && tasks.pagination == old(tasks.pagination)
    {
      sent := [];
      if |proposals| == 0 {
        return;
      }
      status := Submitting;
      var failure;
      sent, failure := CreateEach(tasks, proposals, generationId, stamps, nows, replies);
      if failure.Some? {
        status := Proposals;
        error := Some(CaughtMessage(failure.value, SaveFailed));
        return;
      }
      tasks.FetchTasks(fetchReply);
      ResetSession();
      CloseModal();
    }
  }
}
