/** The request schemas for creating and updating a task
    (server/validation/task.schema.ts).  The UUID syntax is a parameter. */
module TaskSchema {
  import opened Common
  import opened Types
  import opened Zod

  const MaxTitle := 255
  const GenerationIdRequired := "generationId is required when source is ai_full or ai_edited"

  /** The submitted body of a create request. */
  datatype CreateTaskInput = CreateTaskInput(
    title: Value, description: Value, parentTaskId: Value, source: Value, generationId: Value)

  /** The submitted body of an update request. */
  datatype UpdateTaskInput = UpdateTaskInput(title: Value, description: Value)

  function SourceName(t: TaskSource): string
  {
    match t
    case AiFull => "ai_full"
    case AiEdited => "ai_edited"
    case Manual => "manual"
  }

  predicate IsSourceName(s: string)
  {
    s == "ai_full" || s == "ai_edited" || s == "manual"
  }

  /** `z.enum(['ai_full', 'ai_edited', 'manual'])`: any other value aborts. */
  function SourceField(field: string, v: Value): (r: Checked<TaskSource>)
    ensures !r.aborted <==> v.Str? && IsSourceName(v.s)
    ensures !r.aborted ==> r.issues == [] && SourceName(r.value) == v.s
    ensures r.aborted ==> |r.issues| == 1 && r.issues[0].field == field
  {
    match v
    case Str(s) =>
      if s == "ai_full" then Checked([], false, AiFull)
      else if s == "ai_edited" then Checked([], false, AiEdited)
      else if s == "manual" then Checked([], false, Manual)
      else Checked([Issue(field, InvalidEnum, Default(InvalidEnum))], true, Manual)
    case _ => Checked([TypeIssue(field, v, None)], true, Manual)
  }

  /** `z.string().min(1).max(255)` */
  function TitleChecks(field: string): string -> seq<Issue>
  {
    s => MinCheck(field, s, 1, Default(TooSmall)) + MaxCheck(field, s, MaxTitle, Default(TooBig))
  }

  function UuidChecks(field: string, isUuid: string -> bool): string -> seq<Issue>
  {
    s => FormatCheck(field, s, isUuid, Default(InvalidString))
  }

  /** The cross-field rule: an AI source needs a (truthy) generation id. */
  predicate GenerationRule(source: TaskSource, generationId: Option<string>)
  {
    !((source == AiFull || source == AiEdited) && !Truthy(generationId))
  }

  /** `createTaskSchema.safeParse(body)` */
  function ParseCreateTask(input: CreateTaskInput, isUuid: string -> bool): Result<CreateTaskCommand, seq<Issue>>
  {
    var title := StringField("title", input.title, None, TitleChecks("title"));
    var description := OptionalNullableString("description", input.description);
    var parent := NullableString("parentTaskId", input.parentTaskId, UuidChecks("parentTaskId", isUuid));
    var source := SourceField("source", input.source);
    var generation := NullableString("generationId", input.generationId, UuidChecks("generationId", isUuid));
    var aborted := title.aborted || description.aborted || parent.aborted || source.aborted || generation.aborted;
    var refine := Refine(aborted, GenerationRule(source.value, generation.value), "generationId", GenerationIdRequired);
    Finish(title.issues + description.issues + parent.issues + source.issues + generation.issues + refine,
           CreateTaskCommand(title.value, description.value, parent.value, source.value, generation.value))
  }

  predicate TitleOk(v: Value)
  {
    v.Str? && 1 <= |v.s| <= MaxTitle
  }

  predicate NullableUuid(v: Value, isUuid: string -> bool)
  {
    v.Null? || (v.Str? && isUuid(v.s))
  }

  /** What a create body must satisfy, field by field. */
  predicate CreateTaskValid(input: CreateTaskInput, isUuid: string -> bool)
  {
    && TitleOk(input.title)
    && !input.description.Other?
    && NullableUuid(input.parentTaskId, isUuid)
    && input.source.Str? && IsSourceName(input.source.s)
    && NullableUuid(input.generationId, isUuid)
    && ((input.source.s == "ai_full" || input.source.s == "ai_edited") ==>
          input.generationId.Str? && input.generationId.s != "")
  }

  function AsOption(v: Value): Option<string>
  {
    if v.Str? then Some(v.s) else None
  }

  /** A create body is accepted exactly when every field rule and the
      cross-field rule hold, and then parses to its own field values. */
  lemma CreateTaskAccepts(input: CreateTaskInput, isUuid: string -> bool)
    ensures ParseCreateTask(input, isUuid).Ok? <==> CreateTaskValid(input, isUuid)
    ensures ParseCreateTask(input, isUuid).Ok? ==>
      var c := ParseCreateTask(input, isUuid).value;
      && c.title == input.title.s && SourceName(c.source) == input.source.s
      && c.description == AsOption(input.description)
      && c.parentTaskId == AsOption(input.parentTaskId)
      && c.generationId == AsOption(input.generationId)
  {
    var title := StringField("title", input.title, None, TitleChecks("title"));
    if input.title.Str? {
      var s := input.title.s;
      assert title.issues == MinCheck("title", s, 1, Default(TooSmall)) + MaxCheck("title", s, MaxTitle, Default(TooBig));
    }
    var parent := NullableString("parentTaskId", input.parentTaskId, UuidChecks("parentTaskId", isUuid));
    if input.parentTaskId.Str? {
      assert parent.issues == FormatCheck("parentTaskId", input.parentTaskId.s, isUuid, Default(InvalidString));
    }
    var generation := NullableString("generationId", input.generationId, UuidChecks("generationId", isUuid));
    if input.generationId.Str? {
      assert generation.issues == FormatCheck("generationId", input.generationId.s, isUuid, Default(InvalidString));
    }
  }

  /** With an AI source and no truthy generation id, and every field of the
      right type, the refinement reports on `generationId`; a manual source
      never draws that issue. */
  lemma GenerationIdRuleReported(input: CreateTaskInput, isUuid: string -> bool)
    requires input.title.Str? && !input.description.Other?
    requires input.parentTaskId.Str? || input.parentTaskId.Null?
    requires input.generationId.Str? || input.generationId.Null?
    requires input.source == Str("ai_full") || input.source == Str("ai_edited")
    requires !Truthy(AsOption(input.generationId))
    ensures ParseCreateTask(input, isUuid).Err?
    ensures Issue("generationId", Custom, Given(GenerationIdRequired)) in ParseCreateTask(input, isUuid).error
  {
    var r := ParseCreateTask(input, isUuid);
    var refine := [Issue("generationId", Custom, Given(GenerationIdRequired))];
    var title := StringField("title", input.title, None, TitleChecks("title"));
    var description := OptionalNullableString("description", input.description);
    var parent := NullableString("parentTaskId", input.parentTaskId, UuidChecks("parentTaskId", isUuid));
    var source := SourceField("source", input.source);
    var generation := NullableString("generationId", input.generationId, UuidChecks("generationId", isUuid));
    var all := title.issues + description.issues + parent.issues + source.issues + generation.issues + refine;
    assert all[|all| - 1] == refine[0];
  }

  lemma ManualSourceNeedsNoGeneration(input: CreateTaskInput, isUuid: string -> bool)
    requires input.source == Str("manual")
    ensures ParseCreateTask(input, isUuid).Err? ==>
      Issue("generationId", Custom, Given(GenerationIdRequired)) !in ParseCreateTask(input, isUuid).error
  {
    var title := StringField("title", input.title, None, TitleChecks("title"));
    var parent := NullableString("parentTaskId", input.parentTaskId, UuidChecks("parentTaskId", isUuid));
    var generation := NullableString("generationId", input.generationId, UuidChecks("generationId", isUuid));
    forall i | 0 <= i < |title.issues| ensures title.issues[i].code != Custom {
      if input.title.Str? {
        var s := input.title.s;
        assert title.issues == MinCheck("title", s, 1, Default(TooSmall)) + MaxCheck("title", s, MaxTitle, Default(TooBig));
      }
    }
    forall i | 0 <= i < |parent.issues| ensures parent.issues[i].code != Custom {
      if input.parentTaskId.Str? {
        assert parent.issues == FormatCheck("parentTaskId", input.parentTaskId.s, isUuid, Default(InvalidString));
      }
    }
    forall i | 0 <= i < |generation.issues| ensures generation.issues[i].code != Custom {
      if input.generationId.Str? {
        assert generation.issues == FormatCheck("generationId", input.generationId.s, isUuid, Default(InvalidString));
      }
    }
  }

  /** The JSON body a client sends for a command: no value becomes `null`. */
  function Encode(c: CreateTaskCommand): CreateTaskInput
  {
    CreateTaskInput(Str(c.title), Enc(c.description), Enc(c.parentTaskId), Str(SourceName(c.source)), Enc(c.generationId))
  }

  function Enc(o: Option<string>): Value
  {
    if o.Some? then Str(o.value) else Null
  }

  /** A command within the rules parses back from its body unchanged. */
  lemma ParseEncoded(c: CreateTaskCommand, isUuid: string -> bool)
    requires 1 <= |c.title| <= MaxTitle
    requires c.parentTaskId.Some? ==> isUuid(c.parentTaskId.value)
    requires c.generationId.Some? ==> isUuid(c.generationId.value)
    requires GenerationRule(c.source, c.generationId)
    ensures ParseCreateTask(Encode(c), isUuid) == Ok(c)
  {
    CreateTaskAccepts(Encode(c), isUuid);
  }

  /** `updateTaskSchema.safeParse(body)` */
  function ParseUpdateTask(input: UpdateTaskInput): Result<UpdateTaskCommand, seq<Issue>>
  {
    var title := StringField("title", input.title, None, TitleChecks("title"));
    var description := NullableString("description", input.description, NoChecks);
    Finish(title.issues + description.issues, UpdateTaskCommand(title.value, description.value))
  }

  /** An update body is accepted exactly when the title has 1 to 255
      characters and the description is `null` or any string, of any length. */
  lemma UpdateTaskAccepts(input: UpdateTaskInput)
    ensures ParseUpdateTask(input).Ok? <==> TitleOk(input.title) && (input.description.Null? || input.description.Str?)
    ensures ParseUpdateTask(input).Ok? ==>
      ParseUpdateTask(input).value == UpdateTaskCommand(input.title.s, AsOption(input.description))
  {
    var title := StringField("title", input.title, None, TitleChecks("title"));
    if input.title.Str? {
      var s := input.title.s;
      assert title.issues == MinCheck("title", s, 1, Default(TooSmall)) + MaxCheck("title", s, MaxTitle, Default(TooBig));
    }
  }
}
