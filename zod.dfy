/** The part of schema validation the input schemas rely on: what a field
    holds, the issues a check reports, and when a check ends the parse of a
    field.  A wrong type ends the field's parse ("aborts"); a failed length
    or format check only records its issue, and the later checks of the same
    field still run.  A refinement of a whole object runs only when no field
    aborted. */
module Zod {
  import opened Common

  /** A field of the submitted record: absent, `null`, a string, or a value
      of any other type. */
  datatype Value = Missing | Null | Str(s: string) | Other

  datatype Code = InvalidType | TooSmall | TooBig | InvalidString | InvalidEnum | Custom

  /** A message the schema states, or the library's own default text. */
  datatype Message = Given(text: string) | Default(code: Code)

  /** One validation issue; every issue of these schemas has a one-element
      path, the field it is about. */
  datatype Issue = Issue(field: string, code: Code, message: Message)

  /** The outcome of checking one field: its issues, whether the field
      aborted, and the value it parsed to. */
  datatype Checked<T> = Checked(issues: seq<Issue>, aborted: bool, value: T)

  /** `safeParse`: the value when there is no issue, else all issues. */
  function Finish<T>(issues: seq<Issue>, value: T): (r: Result<T, seq<Issue>>)
    ensures r.Ok? <==> issues == []
    ensures issues == [] ==> r == Ok(value)
    ensures issues != [] ==> r == Err(issues)
  {
    if issues == [] then Ok(value) else Err(issues)
  }

  /** The issue of a field that is not a string: the schema's
      `required_error` when the field is absent and one is given. */
  function TypeIssue(field: string, v: Value, requiredError: Option<string>): (i: Issue)
    ensures i.field == field && i.code == InvalidType
    ensures v.Missing? && requiredError.Some? ==> i.message == Given(requiredError.value)
  {
    Issue(field, InvalidType, if v.Missing? && requiredError.Some? then Given(requiredError.value) else Default(InvalidType))
  }

  /** `.min(n, message)` */
  function MinCheck(field: string, s: string, n: nat, message: Message): (r: seq<Issue>)
    ensures r == [] <==> |s| >= n
    ensures |s| < n ==> r == [Issue(field, TooSmall, message)]
  {
    if |s| < n then [Issue(field, TooSmall, message)] else []
  }

  /** `.max(n, message)` */
  function MaxCheck(field: string, s: string, n: nat, message: Message): (r: seq<Issue>)
    ensures r == [] <==> |s| <= n
    ensures |s| > n ==> r == [Issue(field, TooBig, message)]
  {
    if |s| > n then [Issue(field, TooBig, message)] else []
  }

  /** A format check (`.email()`, `.uuid()`) given as a predicate. */
  function FormatCheck(field: string, s: string, valid: string -> bool, message: Message): (r: seq<Issue>)
    ensures r == [] <==> valid(s)
    ensures !valid(s) ==> r == [Issue(field, InvalidString, message)]
  {
    if valid(s) then [] else [Issue(field, InvalidString, message)]
  }

  /** A refinement that runs only when no field aborted. */
  function Refine(aborted: bool, holds: bool, field: string, message: string): (r: seq<Issue>)
    ensures r == [] <==> aborted || holds
    ensures !(aborted || holds) ==> r == [Issue(field, Custom, Given(message))]
  {
    if aborted || holds then [] else [Issue(field, Custom, Given(message))]
  }

  /** `z.string(...)` followed by `checks`. */
  function StringField(field: string, v: Value, requiredError: Option<string>, checks: string -> seq<Issue>): (r: Checked<string>)
    ensures r.aborted <==> !v.Str?
    ensures v.Str? ==> r.value == v.s && r.issues == checks(v.s)
    ensures !v.Str? ==> r.issues == [TypeIssue(field, v, requiredError)]
  {
    match v
    case Str(s) => Checked(checks(s), false, s)
    case _ => Checked([TypeIssue(field, v, requiredError)], true, "")
  }

  /** `z.string()` with `checks`, then `.nullable()`: `null` passes as no value. */
  function NullableString(field: string, v: Value, checks: string -> seq<Issue>): (r: Checked<Option<string>>)
    ensures r.aborted <==> !(v.Str? || v.Null?)
    ensures v.Null? ==> r.value == None && r.issues == []
    ensures v.Str? ==> r.value == Some(v.s) && r.issues == checks(v.s)
    ensures r.aborted ==> r.issues == [TypeIssue(field, v, None)]
  {
    match v
    case Null => Checked([], false, None)
    case Str(s) => Checked(checks(s), false, Some(s))
    case _ => Checked([TypeIssue(field, v, None)], true, None)
  }

  /** `z.string().nullable().optional()`: absent or `null` passes as no value. */
  function OptionalNullableString(field: string, v: Value): (r: Checked<Option<string>>)
    ensures r.aborted <==> v.Other?
    ensures v.Missing? || v.Null? ==> r.value == None && r.issues == []
    ensures v.Str? ==> r.value == Some(v.s) && r.issues == []
    ensures r.aborted ==> r.issues == [TypeIssue(field, v, None)]
  {
    match v
    case Missing => Checked([], false, None)
    case Null => Checked([], false, None)
    case Str(s) => Checked([], false, Some(s))
    case Other => Checked([TypeIssue(field, v, None)], true, None)
  }

  function NoChecks(s: string): seq<Issue>
  {
    []
  }

  /** The fields an issue list is about. */
  function Fields(issues: seq<Issue>): (r: set<string>)
    ensures forall i :: 0 <= i < |issues| ==> issues[i].field in r
    ensures forall f :: f in r ==> exists i :: 0 <= i < |issues| && issues[i].field == f
  {
    set i | 0 <= i < |issues| :: issues[i].field
  }
}
