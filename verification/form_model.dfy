/**
 * The Form document: its field-type, status and visibility enumerations, the
 * attributes mongoose requires, and the defaults it fills in when a document
 * is created.
 */
module FormModel {
  import opened Options

  /** The folder a form is filed under when it names none. */
  const Uncategorized: string := "Uncategorized"

  const DefaultClosedMessage: string := "This form is no longer accepting responses."

  /** The nine values the `type` enum of a field admits. */
  datatype FieldKind = Text | Email | Number | Select | Radio | Checkbox | Date | File | Location

  function KindName(k: FieldKind): string {
    match k
    case Text => "text"
    case Email => "email"
    case Number => "number"
    case Select => "select"
    case Radio => "radio"
    case Checkbox => "checkbox"
    case Date => "date"
    case File => "file"
    case Location => "location"
  }

  const KindNames: seq<string> :=
    ["text", "email", "number", "select", "radio", "checkbox", "date", "file", "location"]

  /** The enum validator on a field's `type`. */
  function ParseKind(s: string): (r: Option<FieldKind>)
    ensures r.Some? ==> KindName(r.value) == s
    ensures r.Some? <==> s in KindNames
  {
    if s == "text" then Some(Text)
    else if s == "email" then Some(Email)
    else if s == "number" then Some(Number)
    else if s == "select" then Some(Select)
    else if s == "radio" then Some(Radio)
    else if s == "checkbox" then Some(Checkbox)
    else if s == "date" then Some(Date)
    else if s == "file" then Some(File)
    else if s == "location" then Some(Location)
    else None
  }

  /** Every kind's stored name is accepted and read back as that kind; there are exactly nine. */
  lemma ParseKindName(k: FieldKind)
    ensures ParseKind(KindName(k)) == Some(k)
    ensures |KindNames| == 9 && KindName(k) in KindNames
  {
  }

  /** The renderer handles `textarea`, but the document schema does not admit it. */
  lemma TextareaIsNotAKind()
    ensures ParseKind("textarea") == None
  {
  }

  datatype Status = Draft | Live | Closed

  function StatusName(s: Status): string {
    match s
    case Draft => "Draft"
    case Live => "Live"
    case Closed => "Closed"
  }

  function ParseStatus(s: string): (r: Option<Status>)
    ensures r.Some? ==> StatusName(r.value) == s
    ensures r.Some? <==> s in ["Draft", "Live", "Closed"]
  {
    if s == "Draft" then Some(Draft)
    else if s == "Live" then Some(Live)
    else if s == "Closed" then Some(Closed)
    else None
  }

  datatype Visibility = Public | Private | PasswordProtected

  function VisibilityName(v: Visibility): string {
    match v
    case Public => "Public"
    case Private => "Private"
    case PasswordProtected => "Password Protected"
  }

  function ParseVisibility(s: string): (r: Option<Visibility>)
    ensures r.Some? ==> VisibilityName(r.value) == s
    ensures r.Some? <==> s in ["Public", "Private", "Password Protected"]
  {
    if s == "Public" then Some(Public)
    else if s == "Private" then Some(Private)
    else if s == "Password Protected" then Some(PasswordProtected)
    else None
  }

  /** Both enumerations read back every name they write. */
  lemma EnumNamesRoundTrip(s: Status, v: Visibility)
    ensures ParseStatus(StatusName(s)) == Some(s)
    ensures ParseVisibility(VisibilityName(v)) == Some(v)
  {
  }

  /** A stored settings sub-document; times are milliseconds since the epoch. */
  datatype Settings = Settings(
    maxResponses: Option<int>,
    expiryDate: Option<int>,
    singleSubmission: bool,
    isActive: bool,
    closedMessage: string,
    status: Status,
    visibility: Visibility,
    password: string)

  /** The settings of a document created without any. */
  const DefaultSettings: Settings :=
    Settings(None, None, false, true, DefaultClosedMessage, Draft, Public, "")

  /** The settings a client sends: every property may be absent; the enums arrive as text. */
  datatype SettingsInput = SettingsInput(
    maxResponses: Option<int>,
    expiryDate: Option<int>,
    singleSubmission: Option<bool>,
    isActive: Option<bool>,
    closedMessage: Option<string>,
    status: Option<string>,
    visibility: Option<string>,
    password: Option<string>)

  const NoSettings: SettingsInput := SettingsInput(None, None, None, None, None, None, None, None)

  /**
   * Mongoose casting of a settings sub-document: each absent property takes
   * its default, each present one is kept, and an enum value outside its
   * enumeration fails validation.
   */
  function CastSettings(input: SettingsInput): (r: Option<Settings>)
    ensures r.Some? <==>
      (input.status.None? || ParseStatus(input.status.value).Some?) &&
      (input.visibility.None? || ParseVisibility(input.visibility.value).Some?)
    ensures r.Some? ==>
      && r.value.maxResponses == input.maxResponses
      && r.value.expiryDate == input.expiryDate
      && r.value.singleSubmission == input.singleSubmission.GetOr(false)
      && r.value.isActive == input.isActive.GetOr(true)
      && r.value.closedMessage == input.closedMessage.GetOr(DefaultClosedMessage)
      && r.value.password == input.password.GetOr("")
      && (input.status.None? ==> r.value.status == Draft)
      && (input.status.Some? ==> StatusName(r.value.status) == input.status.value)
      && (input.visibility.None? ==> r.value.visibility == Public)
      && (input.visibility.Some? ==> VisibilityName(r.value.visibility) == input.visibility.value)
  {
    var status := if input.status.None? then Some(Draft) else ParseStatus(input.status.value);
    var visibility := if input.visibility.None? then Some(Public) else ParseVisibility(input.visibility.value);
    if status.None? || visibility.None? then None
    else
      Some(Settings(
        input.maxResponses,
        input.expiryDate,
        input.singleSubmission.GetOr(false),
        input.isActive.GetOr(true),
        input.closedMessage.GetOr(DefaultClosedMessage),
        status.value,
        visibility.value,
        input.password.GetOr("")))
  }

  /** Casting an empty settings object yields exactly the documented defaults. */
  lemma CastNoSettings()
    ensures CastSettings(NoSettings) == Some(DefaultSettings)
    ensures DefaultSettings.maxResponses.None? && DefaultSettings.expiryDate.None?
    ensures !DefaultSettings.singleSubmission && DefaultSettings.isActive
    ensures DefaultSettings.status == Draft && DefaultSettings.visibility == Public
    ensures DefaultSettings.password == ""
  {
  }

  /** A stored field. The `logic` and `validation` objects carry no behaviour and are not modelled. */
  datatype FieldDoc = FieldDoc(
    id: string,
    kind: FieldKind,
    labelText: string,
    placeholder: Option<string>,
    helpText: Option<string>,
    required: bool,
    options: seq<string>)

  datatype FieldInput = FieldInput(
    id: Option<string>,
    kind: Option<string>,
    labelText: Option<string>,
    placeholder: Option<string>,
    helpText: Option<string>,
    required: Option<bool>,
    options: seq<string>)

  /** Mongoose's `required` validator on a string: present and non-empty. */
  predicate PresentText(s: Option<string>) {
    s.Some? && s.value != ""
  }

  /** Casting a field: id, type and label are required, the type must be one of the nine, `required` defaults to false. */
  function CastField(input: FieldInput): (r: Option<FieldDoc>)
    ensures r.Some? <==>
      PresentText(input.id) && PresentText(input.labelText) &&
      input.kind.Some? && ParseKind(input.kind.value).Some?
    ensures r.Some? ==>
      && r.value.id == input.id.value
      && r.value.labelText == input.labelText.value
      && KindName(r.value.kind) == input.kind.value
      && r.value.required == input.required.GetOr(false)
      && r.value.options == input.options
  {
    if !PresentText(input.id) || !PresentText(input.labelText) || input.kind.None? then None
    else
      match ParseKind(input.kind.value)
      case None => None
      case Some(k) =>
        Some(FieldDoc(input.id.value, k, input.labelText.value, input.placeholder, input.helpText,
                      input.required.GetOr(false), input.options))
  }

  /** Casting a list of fields succeeds when every field casts, keeping their order. */
  function CastFields(inputs: seq<FieldInput>): (r: Option<seq<FieldDoc>>)
    ensures r.Some? <==> forall i :: 0 <= i < |inputs| ==> CastField(inputs[i]).Some?
    ensures r.Some? ==> |r.value| == |inputs|
    ensures r.Some? ==> forall i :: 0 <= i < |inputs| ==> CastField(inputs[i]) == Some(r.value[i])
  {
    if |inputs| == 0 then Some([])
    else
      var head := CastField(inputs[0]);
      var rest := CastFields(inputs[1..]);
      assert forall i :: 1 <= i < |inputs| ==> inputs[i] == inputs[1..][i - 1];
      if head.Some? && rest.Some? then Some([head.value] + rest.value) else None
  }

  /** A stored form. */
  datatype FormDoc = FormDoc(
    title: string,
    description: Option<string>,
    creatorId: string,
    fields: seq<FieldDoc>,
    settings: Settings,
    folderName: string,
    createdAt: int,
    updatedAt: int)

  datatype FormInput = FormInput(
    title: Option<string>,
    description: Option<string>,
    creatorId: Option<string>,
    fields: seq<FieldInput>,
    settings: SettingsInput,
    folderName: Option<string>)

  /**
   * Creating a document: title and creator are required, every field and the
   * settings must cast, `folderName` defaults to "Uncategorized", and both
   * timestamps are the creation time.
   */
  function CastForm(input: FormInput, now: int): (r: Option<FormDoc>)
    ensures r.Some? <==>
      PresentText(input.title) && PresentText(input.creatorId) &&
      CastFields(input.fields).Some? && CastSettings(input.settings).Some?
    ensures r.Some? ==>
      && r.value.title == input.title.value
      && r.value.creatorId == input.creatorId.value
      && r.value.description == input.description
      && r.value.fields == CastFields(input.fields).value
      && r.value.settings == CastSettings(input.settings).value
      && r.value.folderName == input.folderName.GetOr(Uncategorized)
      && r.value.createdAt == now && r.value.updatedAt == now
  {
    if !PresentText(input.title) || !PresentText(input.creatorId) then None
    else
      match (CastFields(input.fields), CastSettings(input.settings))
      case (Some(fields), Some(settings)) =>
        Some(FormDoc(input.title.value, input.description, input.creatorId.value, fields, settings,
                     input.folderName.GetOr(Uncategorized), now, now))
      case _ => None
  }
}

/** The shape of a stored submission. It has no behaviour of its own. */
module SubmissionModel {
  import opened Options
  import opened JsValues

  datatype LocationData = LocationData(
    latitude: Option<int>,
    longitude: Option<int>,
    city: Option<string>,
    timestamp: Option<int>)

  datatype SubmissionDoc = SubmissionDoc(
    formId: string,
    answers: Answers,
    ip: Option<string>,
    userAgent: Option<string>,
    locationData: Option<LocationData>,
    submittedAt: int)
}

/** The shape of an activity-log entry: four event types. It has no behaviour of its own. */
module ActivityModel {
  datatype EventType = Created | StatusChanged | ResponseReceived | SettingsUpdated

  datatype ActivityDoc = ActivityDoc(formId: string, eventType: EventType, description: string, timestamp: int)
}
