/** The request schema for a generation (server/validation/generation.schema.ts):
    a description of 1 to 1000 characters, handed on trimmed. */
module GenerationSchema {
  import opened Common
  import opened Zod

  const MaxDescription := 1000
  const DescriptionRequired := "Description is required"
  const DescriptionTooLong := "Description cannot exceed 1000 characters"

  /** The code points `String.prototype.trim` removes: white space (tab,
      vertical tab, form feed, space, no-break space, the Unicode space
      separators and the byte order mark) and line terminators. */
  predicate IsSpace(c: char)
  {
    var n := c as int;
    || 0x09 <= n <= 0x0D || n == 0x20 || n == 0xA0 || n == 0x1680
    || 0x2000 <= n <= 0x200A || n == 0x2028 || n == 0x2029 || n == 0x202F
    || n == 0x205F || n == 0x3000 || n == 0xFEFF
  }

  /** The index of the first character from `i` on that `ws` does not hold
      for, or the length when there is none. */
  function StartOf(s: string, ws: char -> bool, i: nat): (k: nat)
    requires i <= |s|
    ensures i <= k <= |s|
    ensures k == |s| || !ws(s[k])
    ensures forall j :: i <= j < k ==> ws(s[j])
    decreases |s| - i
  {
    if i < |s| && ws(s[i]) then StartOf(s, ws, i + 1) else i
  }

  /** The index just after the last character before `j`, and not before
      `lo`, that `ws` does not hold for, or `lo` when there is none. */
  function EndOf(s: string, ws: char -> bool, lo: nat, j: nat): (e: nat)
    requires lo <= j <= |s|
    ensures lo <= e <= j
    ensures e == lo || !ws(s[e - 1])
    ensures forall m :: e <= m < j ==> ws(s[m])
    decreases j - lo
  {
    if lo < j && ws(s[j - 1]) then EndOf(s, ws, lo, j - 1) else j
  }

  /** Drop the leading and the trailing characters that `ws` holds for. */
  function TrimBy(s: string, ws: char -> bool): string
  {
    var k := StartOf(s, ws, 0);
    s[k..EndOf(s, ws, k, |s|)]
  }

  /** `String.prototype.trim` */
  function Trim(s: string): string
  {
    TrimBy(s, IsSpace)
  }

  /** The trimmed string is the piece of the input between its first and its
      last character that is not white space; everything cut off is white
      space. */
  lemma TrimFacts(s: string, ws: char -> bool)
    ensures var t := TrimBy(s, ws);
            var k := StartOf(s, ws, 0);
            && |t| <= |s| && k + |t| <= |s|
            && (t == [] || (!ws(t[0]) && !ws(t[|t| - 1])))
            && t == s[k..k + |t|]
            && (forall i :: 0 <= i < k ==> ws(s[i]))
            && (forall i :: k + |t| <= i < |s| ==> ws(s[i]))
  {
    var k := StartOf(s, ws, 0);
    var e := EndOf(s, ws, k, |s|);
    var t := s[k..e];
    if t != [] {
      assert t[0] == s[k] && t[|t| - 1] == s[e - 1];
    }
  }

  /** Trimming twice is trimming once. */
  lemma TrimIdempotent(s: string, ws: char -> bool)
    ensures TrimBy(TrimBy(s, ws), ws) == TrimBy(s, ws)
  {
    var t := TrimBy(s, ws);
    TrimFacts(s, ws);
    assert StartOf(t, ws, 0) == 0;
    assert EndOf(t, ws, 0, |t|) == |t|;
  }

  /** A string trims to nothing exactly when it is all white space. */
  lemma TrimEmptyIffBlank(s: string, ws: char -> bool)
    ensures TrimBy(s, ws) == [] <==> forall i :: 0 <= i < |s| ==> ws(s[i])
  {
    TrimFacts(s, ws);
  }

  function DescriptionChecks(s: string): seq<Issue>
  {
    MinCheck("description", s, 1, Given(DescriptionRequired))
    + MaxCheck("description", s, MaxDescription, Given(DescriptionTooLong))
  }

  /** `createGenerationSchema.safeParse(body).description` as written: the
      length checks look at the string as received, and only then is it
      trimmed. */
  function ParseGeneration(v: Value): Result<string, seq<Issue>>
  {
    var d := StringField("description", v, None, DescriptionChecks);
    Finish(d.issues, Trim(d.value))
  }

  /** Accepted exactly when the description is a string of 1 to 1000
      characters as received; the result is that string trimmed.  The empty
      string and an over-long one get the schema's own messages. */
  lemma GenerationAccepts(v: Value)
    ensures ParseGeneration(v).Ok? <==> v.Str? && 1 <= |v.s| <= MaxDescription
    ensures ParseGeneration(v).Ok? ==> ParseGeneration(v).value == Trim(v.s)
    ensures !v.Str? ==> ParseGeneration(v) == Err([TypeIssue("description", v, None)])
    ensures v == Str("") ==> ParseGeneration(v) == Err([Issue("description", TooSmall, Given(DescriptionRequired))])
    ensures v.Str? && |v.s| > MaxDescription ==>
      ParseGeneration(v) == Err([Issue("description", TooBig, Given(DescriptionTooLong))])
  {
    if v.Str? {
      var s := v.s;
      assert StringField("description", v, None, DescriptionChecks).issues == DescriptionChecks(s);
      assert ParseGeneration(v) == Finish(DescriptionChecks(s), Trim(s));
      if |s| == 0 {
        assert DescriptionChecks(s) == [Issue("description", TooSmall, Given(DescriptionRequired))] + [];
        assert DescriptionChecks(s) == [Issue("description", TooSmall, Given(DescriptionRequired))];
      }
      if |s| > MaxDescription {
        assert DescriptionChecks(s) == [] + [Issue("description", TooBig, Given(DescriptionTooLong))];
        assert DescriptionChecks(s) == [Issue("description", TooBig, Given(DescriptionTooLong))];
      }
    }
  }

  /** A description of white space alone passes the checks and is handed on
      as the empty string, although the schema is meant to require a
      non-empty description. */
  lemma BlankDescriptionAccepted()
    ensures ParseGeneration(Str(" ")) == Ok("")
  {
    assert IsSpace(' ');
    assert StartOf(" ", IsSpace, 0) == 1;
    assert Trim(" ") == "";
    GenerationAccepts(Str(" "));
  }

  function TrimmedChecks(s: string): seq<Issue>
  {
    DescriptionChecks(Trim(s))
  }

  /** The intended schema, trimming before the length checks
      (`z.string().trim().min(1).max(1000)`). */
  function ParseGenerationTrimmed(v: Value): Result<string, seq<Issue>>
  {
    var d := StringField("description", v, None, TrimmedChecks);
    Finish(d.issues, Trim(d.value))
  }

  /** The intended schema accepts exactly a string whose trimmed form has 1
      to 1000 characters, and yields that trimmed form. */
  lemma TrimmedGenerationAccepts(v: Value)
    ensures ParseGenerationTrimmed(v).Ok? <==> v.Str? && 1 <= |Trim(v.s)| <= MaxDescription
    ensures ParseGenerationTrimmed(v).Ok? ==> ParseGenerationTrimmed(v).value == Trim(v.s)
  {
    if v.Str? {
      assert StringField("description", v, None, TrimmedChecks).issues == DescriptionChecks(Trim(v.s));
    }
  }

  /** What the intended schema yields is never blank: it has no white space
      at either end, and the input was not all white space. */
  lemma TrimmedGenerationNonBlank(v: Value)
    requires ParseGenerationTrimmed(v).Ok?
    ensures var d := ParseGenerationTrimmed(v).value;
            && 1 <= |d| <= MaxDescription
            && !IsSpace(d[0]) && !IsSpace(d[|d| - 1])
            && exists i :: 0 <= i < |v.s| && !IsSpace(v.s[i])
  {
    TrimmedGenerationAccepts(v);
    var d := ParseGenerationTrimmed(v).value;
    assert d == TrimBy(v.s, IsSpace) && 1 <= |d| <= MaxDescription;
    NonEmptyTrimBy(v.s, IsSpace);
  }

  /** A string that does not trim to nothing trims to one with no white
      space at either end, and held a character that is not white space. */
  lemma NonEmptyTrimBy(s: string, ws: char -> bool)
    requires TrimBy(s, ws) != []
    ensures var t := TrimBy(s, ws);
            && !ws(t[0]) && !ws(t[|t| - 1])
            && exists i :: 0 <= i < |s| && !ws(s[i])
  {
    TrimFacts(s, ws);
    TrimEmptyIffBlank(s, ws);
  }
}
