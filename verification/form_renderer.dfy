/**
 * The public form renderer: the answer schema built from a form's fields,
 * the default answers, the completion progress shown in the sticky bar,
 * and the preview guard on submission.
 *
 * The schema is a tagged variant over the field type. Each schema accepts a
 * value or reports the first issue zod would report for it. The email
 * grammar and `Number(val)` parsing are left abstract as two predicates.
 */
module AnswerSchema {
  import opened Options
  import opened JsValues
  import opened Seqs
  import opened Rounding

  /** A field as the renderer receives it; `type` is free text here. */
  datatype Field = Field(id: string, kind: string, required: bool)

  /** The base schema chosen from the field type. */
  datatype Base =
    | EmailText    // z.string().email(...)
    | NumericText  // z.string().refine(v => !isNaN(Number(v)), ...)
    | PlainText    // z.string()
    | TextList     // z.array(z.string())
    | NullableDate // z.date().nullable()
    | AnyValue     // z.any()

  datatype Schema = Schema(base: Base, required: bool)

  /** The two library predicates the schema relies on. */
  datatype Predicates = Predicates(isEmail: string -> bool, isNumeric: string -> bool)

  datatype Issue =
    | NotAString
    | NotAList
    | NotADate
    | InvalidEmail
    | NotANumber
    | TooShort(message: string)
    | MissingDate
    | NoAlternative

  const RequiredMessage: string := "This field is required"
  const SelectOneMessage: string := "Please select at least one option"

  /** The message the renderer shows under the field, where the source gives one. */
  function Message(i: Issue): Option<string> {
    match i
    case InvalidEmail => Some("Invalid email format")
    case NotANumber => Some("Must be a number")
    case TooShort(m) => Some(m)
    case MissingDate => Some(RequiredMessage)
    case _ => None
  }

  function BaseOf(kind: string): Base {
    if kind == "email" then EmailText
    else if kind == "number" then NumericText
    else if kind in ["text", "textarea", "select", "radio"] then PlainText
    else if kind == "checkbox" then TextList
    else if kind == "date" then NullableDate
    else AnyValue
  }

  /**
   * A required field must have a type whose schema has a `min` check or is a
   * date; for file, location and unknown types the source calls `min` on
   * `z.any()`, which has none.
   */
  predicate Compilable(f: Field) {
    f.required ==> BaseOf(f.kind) != AnyValue
  }

  predicate AllCompilable(fields: seq<Field>) {
    forall i :: 0 <= i < |fields| ==> Compilable(fields[i])
  }

  /** The schema of one field: only types outside the eight known ones fall back to `z.any()`. */
  function Compile(f: Field): (s: Schema)
    requires Compilable(f)
    ensures s.required == f.required
    ensures s.required ==> s.base != AnyValue
    ensures s.base == AnyValue <==>
      f.kind !in ["email", "number", "text", "textarea", "select", "radio", "checkbox", "date"]
  {
    Schema(BaseOf(f.kind), f.required)
  }

  /** The type check and the refinements of a base schema, before `min` or the optional alternatives. */
  function CheckBase(b: Base, v: Value, p: Predicates): Option<Issue> {
    match b
    case EmailText =>
      if !v.Str? then Some(NotAString) else if !p.isEmail(v.s) then Some(InvalidEmail) else None
    case NumericText =>
      if !v.Str? then Some(NotAString) else if !p.isNumeric(v.s) then Some(NotANumber) else None
    case PlainText => if v.Str? then None else Some(NotAString)
    case TextList => if v.Arr? then None else Some(NotAList)
    case NullableDate => if v.DateV? || v.Null? then None else Some(NotADate)
    case AnyValue => None
  }

  /** The first issue the schema reports for `v`, or `None` when it accepts `v`. */
  function Validate(s: Schema, v: Value, p: Predicates): (r: Option<Issue>)
    requires s.required ==> s.base != AnyValue
    ensures s.required ==> (r.None? <==>
      CheckBase(s.base, v, p).None? &&
      (s.base == TextList ==> v.Arr? && |v.items| > 0) &&
      (s.base == NullableDate ==> v.DateV?) &&
      (s.base != TextList && s.base != NullableDate ==> v != Str("")))
    ensures !s.required ==> (r.None? <==>
      v.Undefined? || CheckBase(s.base, v, p).None? ||
      (s.base != NullableDate && (v.Null? || v == Str(""))))
  {
    if s.required then
      match s.base
      case TextList =>
        if !v.Arr? then Some(NotAList)
        else if |v.items| < 1 then Some(TooShort(SelectOneMessage))
        else None
      case NullableDate => if v.DateV? then None else Some(MissingDate)
      case _ =>
        // the refinement's issue comes before the one from `min(1)`
        var first := CheckBase(s.base, v, p);
        if first.Some? then first
        else if v == Str("") then Some(TooShort(RequiredMessage))
        else None
    else if s.base == NullableDate then
      if v.Undefined? then None else CheckBase(NullableDate, v, p)
    else if v.Undefined? || v == Str("") || v.Null? || CheckBase(s.base, v, p).None? then None
    else Some(NoAlternative)
  }

  /**
   * What a compiled field accepts: a required text-like field any non-empty
   * text, a required checkbox any non-empty list, and an optional field
   * everything its base type accepts.
   */
  lemma ValidateAccepts(f: Field, v: Value, t: string, xs: seq<string>, p: Predicates)
    requires Compilable(f)
    ensures f.required && BaseOf(f.kind) == PlainText ==> (Validate(Compile(f), Str(t), p).None? <==> t != "")
    ensures f.required && f.kind == "checkbox" ==> (Validate(Compile(f), Arr(xs), p).None? <==> |xs| > 0)
    ensures f.required && f.kind == "checkbox" ==> (Validate(Compile(f), v, p).None? ==> v.Arr?)
    ensures !f.required && CheckBase(BaseOf(f.kind), v, p).None? ==> Validate(Compile(f), v, p).None?
  {
  }

  /** The answer a field starts with. */
  function DefaultValue(kind: string): (v: Value)
    ensures kind == "checkbox" ==> v == Arr([])
    ensures kind == "date" ==> v == Null
    ensures kind != "checkbox" && kind != "date" ==> v == Str("")
  {
    if kind == "checkbox" then Arr([]) else if kind == "date" then Null else Str("")
  }

  /** A field starts valid exactly when it is optional. */
  lemma DefaultValidIffOptional(f: Field, p: Predicates)
    requires Compilable(f)
    ensures Validate(Compile(f), DefaultValue(f.kind), p).None? <==> !f.required
  {
  }

  /** An optional field accepts the blank answers whatever its type. */
  lemma OptionalAcceptsBlank(f: Field, p: Predicates)
    requires !f.required
    ensures Validate(Compile(f), Undefined, p).None?
    ensures Validate(Compile(f), Null, p).None?
    ensures BaseOf(f.kind) != NullableDate ==> Validate(Compile(f), Str(""), p).None?
  {
  }

  /** A required field rejects every blank answer, with the message the source attaches. */
  lemma RequiredRejectsBlank(f: Field, p: Predicates)
    requires f.required && Compilable(f)
    ensures Validate(Compile(f), Undefined, p).Some?
    ensures Validate(Compile(f), Null, p).Some?
    ensures Validate(Compile(f), Str(""), p).Some?
    ensures Validate(Compile(f), Arr([]), p).Some?
    ensures f.kind == "checkbox" ==> Validate(Compile(f), Arr([]), p) == Some(TooShort(SelectOneMessage))
    ensures f.kind == "date" ==> Validate(Compile(f), Null, p) == Some(MissingDate)
    ensures BaseOf(f.kind) == PlainText ==> Validate(Compile(f), Str(""), p) == Some(TooShort(RequiredMessage))
  {
  }

  /** A required date accepts any date and nothing else. */
  lemma RequiredDateAcceptsDates(f: Field, v: Value, p: Predicates)
    requires f.required && f.kind == "date"
    ensures Validate(Compile(f), v, p).None? <==> v.DateV?
  {
  }

  /** A non-empty text that fails the email or number predicate is rejected, required or not. */
  lemma PredicatesReject(f: Field, t: string, p: Predicates)
    requires Compilable(f) && t != ""
    ensures f.kind == "email" && !p.isEmail(t) ==> Validate(Compile(f), Str(t), p).Some?
    ensures f.kind == "number" && !p.isNumeric(t) ==> Validate(Compile(f), Str(t), p).Some?
    ensures f.kind == "email" && p.isEmail(t) ==> Validate(Compile(f), Str(t), p).None?
    ensures f.kind == "number" && p.isNumeric(t) ==> Validate(Compile(f), Str(t), p).None?
  {
  }

  /** The progress bar's completion test for one answer. */
  predicate IsComplete(v: Value) {
    match v
    case Arr(items) => |items| > 0
    case DateV(_) => true
    case _ => Truthy(v)
  }

  /** An answer a required field accepts counts as complete. */
  lemma AcceptedRequiredIsComplete(f: Field, v: Value, p: Predicates)
    requires f.required && Compilable(f)
    requires Validate(Compile(f), v, p).None?
    ensures IsComplete(v)
  {
  }

  /**
   * `z.object(shape)` with one key per field; a later field with the same
   * id replaces an earlier one.
   */
  function Shape(fields: seq<Field>): (r: map<string, Schema>)
    requires AllCompilable(fields)
    ensures r.Keys == set i | 0 <= i < |fields| :: fields[i].id
    ensures forall k :: k in r ==> (r[k].required ==> r[k].base != AnyValue)
  {
    if |fields| == 0 then map[]
    else
      var n := |fields| - 1;
      var prefix := fields[..n];
      assert forall i :: 0 <= i < n ==> prefix[i] == fields[i];
      Shape(prefix)[fields[n].id := Compile(fields[n])]
  }

  /** The field that decides a key is the last one carrying it. */
  predicate IsLastWithId(fields: seq<Field>, i: int) {
    0 <= i < |fields| && forall j :: i < j < |fields| ==> fields[j].id != fields[i].id
  }

  lemma {:induction false} ShapeLastWins(fields: seq<Field>, i: int)
    requires AllCompilable(fields)
    requires IsLastWithId(fields, i)
    ensures Shape(fields)[fields[i].id] == Compile(fields[i])
  {
    var n := |fields| - 1;
    if i < n {
      var prefix := fields[..n];
      assert forall j :: 0 <= j < n ==> prefix[j] == fields[j];
      ShapeLastWins(prefix, i);
    }
  }

  /** `defaultValues`: the reduce over the fields, so a later field with the same id wins here too. */
  function Defaults(fields: seq<Field>): (r: Answers)
    ensures r.Keys == set i | 0 <= i < |fields| :: fields[i].id
  {
    if |fields| == 0 then map[]
    else
      var n := |fields| - 1;
      var prefix := fields[..n];
      assert forall i :: 0 <= i < n ==> prefix[i] == fields[i];
      Defaults(prefix)[fields[n].id := DefaultValue(fields[n].kind)]
  }

  lemma {:induction false} DefaultsLastWins(fields: seq<Field>, i: int)
    requires IsLastWithId(fields, i)
    ensures Defaults(fields)[fields[i].id] == DefaultValue(fields[i].kind)
  {
    var n := |fields| - 1;
    if i < n {
      var prefix := fields[..n];
      assert forall j :: 0 <= j < n ==> prefix[j] == fields[j];
      DefaultsLastWins(prefix, i);
    }
  }

  /** The resolver's errors: the first issue of every key whose answer its schema rejects. */
  function Errors(fields: seq<Field>, answers: Answers, p: Predicates): (r: map<string, Issue>)
    requires AllCompilable(fields)
    ensures r.Keys <= Shape(fields).Keys
  {
    var shape := Shape(fields);
    map k | k in shape && Validate(shape[k], Lookup(answers, k), p).Some? ::
      Validate(shape[k], Lookup(answers, k), p).value
  }

  predicate DistinctIds(fields: seq<Field>) {
    forall i, j :: 0 <= i < j < |fields| ==> fields[i].id != fields[j].id
  }

  lemma UntouchedErrorAt(fields: seq<Field>, p: Predicates, i: int)
    requires AllCompilable(fields) && DistinctIds(fields) && 0 <= i < |fields|
    ensures fields[i].id in Errors(fields, Defaults(fields), p) <==> fields[i].required
  {
    ShapeLastWins(fields, i);
    DefaultsLastWins(fields, i);
    DefaultValidIffOptional(fields[i], p);
    assert Lookup(Defaults(fields), fields[i].id) == DefaultValue(fields[i].kind);
  }

  /** Submitting the untouched form reports an error for exactly the required fields. */
  lemma UntouchedErrorsAreRequired(fields: seq<Field>, p: Predicates)
    requires AllCompilable(fields) && DistinctIds(fields)
    ensures Errors(fields, Defaults(fields), p).Keys ==
      set i | 0 <= i < |fields| && fields[i].required :: fields[i].id
  {
    var errs := Errors(fields, Defaults(fields), p).Keys;
    var req := set i | 0 <= i < |fields| && fields[i].required :: fields[i].id;
    forall k | k in errs
      ensures k in req
    {
      var i :| 0 <= i < |fields| && fields[i].id == k;
      UntouchedErrorAt(fields, p, i);
    }
    forall k | k in req
      ensures k in errs
    {
      var i :| 0 <= i < |fields| && fields[i].required && fields[i].id == k;
      UntouchedErrorAt(fields, p, i);
    }
  }

  function RequiredFields(fields: seq<Field>): seq<Field> {
    Filter(fields, (f: Field) => f.required)
  }

  function CompletedRequired(fields: seq<Field>, values: Answers): seq<Field> {
    Filter(RequiredFields(fields), (f: Field) => IsComplete(Lookup(values, f.id)))
  }

  /** The completion percentage of the required fields, as written: rounded half up. */
  function Progress(fields: seq<Field>, values: Answers): (r: nat)
    ensures r <= 100
  {
    var required := RequiredFields(fields);
    if |required| == 0 then 100
    else RoundPercent(|CompletedRequired(fields, values)|, |required|)
  }

  predicate AllRequiredComplete(fields: seq<Field>, values: Answers) {
    forall i :: 0 <= i < |fields| && fields[i].required ==> IsComplete(Lookup(values, fields[i].id))
  }

  lemma CompletedAll(fields: seq<Field>, values: Answers)
    requires AllRequiredComplete(fields, values)
    ensures CompletedRequired(fields, values) == RequiredFields(fields)
  {
    var required := RequiredFields(fields);
    forall i | 0 <= i < |required|
      ensures IsComplete(Lookup(values, required[i].id))
    {
      assert required[i] in fields;
    }
    FilterAll(required, (f: Field) => IsComplete(Lookup(values, f.id)));
  }

  lemma CompletedFewer(fields: seq<Field>, values: Answers)
    requires !AllRequiredComplete(fields, values)
    ensures |CompletedRequired(fields, values)| < |RequiredFields(fields)|
  {
    var required := RequiredFields(fields);
    var i :| 0 <= i < |fields| && fields[i].required && !IsComplete(Lookup(values, fields[i].id));
    assert fields[i] in required;
    var k :| 0 <= k < |required| && required[k] == fields[i];
    FilterDropsRejected(required, (f: Field) => IsComplete(Lookup(values, f.id)), k);
  }

  /** With every required field complete, the bar is full. */
  lemma ProgressFullWhenComplete(fields: seq<Field>, values: Answers)
    requires AllRequiredComplete(fields, values)
    ensures Progress(fields, values) == 100
  {
    CompletedAll(fields, values);
    if |RequiredFields(fields)| > 0 {
      RoundPercentOfWhole(|RequiredFields(fields)|);
    }
  }

  /** With fewer than 200 required fields, a full bar means every required field is complete. */
  lemma ProgressFullOnlyWhenComplete(fields: seq<Field>, values: Answers)
    requires |RequiredFields(fields)| < 200
    requires Progress(fields, values) == 100
    ensures AllRequiredComplete(fields, values)
  {
    if !AllRequiredComplete(fields, values) {
      CompletedFewer(fields, values);
    }
  }

  /** With 201 required fields of which 200 are complete, the bar already shows 100. */
  lemma ProgressRoundsUpToFull(fields: seq<Field>, values: Answers)
    requires |RequiredFields(fields)| == 201
    requires |CompletedRequired(fields, values)| == 200
    ensures Progress(fields, values) == 100
    ensures !AllRequiredComplete(fields, values)
  {
    RoundPercentNearlyWhole();
    if AllRequiredComplete(fields, values) {
      CompletedAll(fields, values);
    }
  }

  /** The completion percentage rounded down, which reaches 100 only when every required field is complete. */
  function ProgressFloor(fields: seq<Field>, values: Answers): (r: nat)
    ensures r <= 100
    ensures r == 100 <==> AllRequiredComplete(fields, values)
  {
    var required := RequiredFields(fields);
    var c := |CompletedRequired(fields, values)|;
    if |required| == 0 then
      NoneRequiredAllComplete(fields, values);
      100
    else
      ProgressFloorFacts(fields, values);
      FloorPercent(c, |required|)
  }

  lemma NoneRequiredAllComplete(fields: seq<Field>, values: Answers)
    requires |RequiredFields(fields)| == 0
    ensures AllRequiredComplete(fields, values)
  {
  }

  lemma ProgressFloorFacts(fields: seq<Field>, values: Answers)
    requires |RequiredFields(fields)| > 0
    ensures FloorPercent(|CompletedRequired(fields, values)|, |RequiredFields(fields)|) <= 100
    ensures FloorPercent(|CompletedRequired(fields, values)|, |RequiredFields(fields)|) == 100 <==>
      AllRequiredComplete(fields, values)
  {
    var n := |RequiredFields(fields)|;
    var c := |CompletedRequired(fields, values)|;
    FloorPercentFullIffWhole(c, n);
    if AllRequiredComplete(fields, values) {
      CompletedAll(fields, values);
    } else {
      CompletedFewer(fields, values);
    }
  }

  /** When no field is required the bar is full whatever the answers. */
  lemma NothingRequiredIsFull(fields: seq<Field>, values: Answers)
    requires forall i :: 0 <= i < |fields| ==> !fields[i].required
    ensures Progress(fields, values) == 100 && ProgressFloor(fields, values) == 100
  {
    assert AllRequiredComplete(fields, values);
    CompletedAll(fields, values);
    ProgressFullWhenComplete(fields, values);
  }

  /** What pressing submit leads to. */
  datatype Outcome =
    | ShowErrors(errors: map<string, Issue>)
    | PreviewBlocked(message: string)
    | Posted(url: string, answers: Answers, succeeded: bool)

  const PreviewMessage: string := "Submissions are disabled in preview mode"

  /** The parsed object: only the declared keys survive, each value unchanged. */
  function Parsed(fields: seq<Field>, answers: Answers): (r: Answers)
    requires AllCompilable(fields)
    ensures r.Keys == answers.Keys * Shape(fields).Keys
    ensures forall k :: k in r ==> r[k] == answers[k]
  {
    var shape := Shape(fields);
    map k | k in answers && k in shape :: answers[k]
  }

  /**
   * `handleSubmit(onSubmit)`: the resolver runs first; then the preview
   * guard; then the POST, whose success (`res.ok` and no exception) is a
   * parameter.
   */
  function HandleSubmit(formId: string, fields: seq<Field>, answers: Answers, isPreview: bool,
                        p: Predicates, ok: bool): (r: Outcome)
    requires AllCompilable(fields)
    ensures r.ShowErrors? <==> Errors(fields, answers, p) != map[]
    ensures r.PreviewBlocked? <==> Errors(fields, answers, p) == map[] && isPreview
    ensures r.Posted? ==> r.url == "/api/f/" + formId + "/submit" && r.answers == Parsed(fields, answers)
    ensures r.Posted? ==> r.succeeded == ok
  {
    var errors := Errors(fields, answers, p);
    if errors != map[] then ShowErrors(errors)
    else if isPreview then PreviewBlocked(PreviewMessage)
    else Posted("/api/f/" + formId + "/submit", Parsed(fields, answers), ok)
  }

  /** A preview never posts. */
  lemma PreviewNeverPosts(formId: string, fields: seq<Field>, answers: Answers, p: Predicates, ok: bool)
    requires AllCompilable(fields)
    ensures !HandleSubmit(formId, fields, answers, true, p, ok).Posted?
  {
  }

  /** Whatever gets posted had every required field complete, so the bar showed 100. */
  lemma PostedMeansComplete(formId: string, fields: seq<Field>, answers: Answers, isPreview: bool,
                            p: Predicates, ok: bool)
    requires AllCompilable(fields) && DistinctIds(fields)
    requires !HandleSubmit(formId, fields, answers, isPreview, p, ok).ShowErrors?
    ensures AllRequiredComplete(fields, answers)
    ensures Progress(fields, answers) == 100
  {
    var shape := Shape(fields);
    forall i | 0 <= i < |fields| && fields[i].required
      ensures IsComplete(Lookup(answers, fields[i].id))
    {
      ShapeLastWins(fields, i);
      assert fields[i].id !in Errors(fields, answers, p);
      AcceptedRequiredIsComplete(fields[i], Lookup(answers, fields[i].id), p);
    }
    ProgressFullWhenComplete(fields, answers);
  }
}
