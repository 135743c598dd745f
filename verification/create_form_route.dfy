/**
 * `POST /api/forms`: creating a form over an abstract form store. The
 * database connection, the request parsing and the save are parameters;
 * each may fail, and any failure is a 500.
 */
module CreateFormRoute {
  import opened Options
  import opened FormModel

  /** The JSON body; `None` when it does not parse. */
  datatype Body = Body(title: Option<string>, description: Option<string>)

  /** The creator every form gets until sign-in is wired in. */
  const PlaceholderCreator := "user_123"

  datatype Response =
    | Created(form: FormDoc)
    | Failed(status: int, error: string)

  function Status(r: Response): int {
    if r.Created? then 201 else r.status
  }

  /** What the route hands to the document constructor: no fields, and only `isActive` among the settings. */
  function NewFormInput(b: Body): (input: FormInput)
    ensures input.title == b.title && input.description == b.description
    ensures input.creatorId == Some(PlaceholderCreator) && input.fields == [] && input.folderName.None?
    ensures input.settings == NoSettings.(isActive := Some(true))
  {
    FormInput(b.title, b.description, Some(PlaceholderCreator), [], NoSettings.(isActive := Some(true)), None)
  }

  /**
   * Handling one request at time `now`. The connection is made before the
   * body is read, so a connection failure is a 500 even for a body without
   * a title.
   */
  function CreateForm(store: seq<FormDoc>, connected: bool, body: Option<Body>, saved: bool, now: int)
    : (seq<FormDoc>, Response)
  {
    if !connected || body.None? then (store, Failed(500, "Failed to create form"))
    else if !PresentText(body.value.title) then (store, Failed(400, "Title is required"))
    else
      match CastForm(NewFormInput(body.value), now)
      case None => (store, Failed(500, "Failed to create form"))
      case Some(doc) =>
        if saved then (store + [doc], Created(doc)) else (store, Failed(500, "Failed to create form"))
  }

  /** A missing or empty title is a 400 and creates nothing. */
  lemma MissingTitleRefused(store: seq<FormDoc>, b: Body, saved: bool, now: int)
    requires !PresentText(b.title)
    ensures CreateForm(store, true, Some(b), saved, now) == (store, Failed(400, "Title is required"))
  {
  }

  /**
   * With a title, a connection and a successful save, exactly one form is
   * added and returned with 201: the given title and description, no
   * fields, the placeholder creator, the default settings (active), the
   * "Uncategorized" folder, and both timestamps at the creation time.
   */
  lemma CreatedForm(store: seq<FormDoc>, b: Body, now: int)
    requires PresentText(b.title)
    ensures var doc := FormDoc(b.title.value, b.description, PlaceholderCreator, [], DefaultSettings,
                               Uncategorized, now, now);
      CreateForm(store, true, Some(b), true, now) == (store + [doc], Created(doc))
    ensures CreateForm(store, true, Some(b), true, now).1.form.settings.isActive
  {
    var input := NewFormInput(b);
    assert CastFields(input.fields) == Some([]);
    CastNoSettings();
    assert CastSettings(input.settings) == Some(DefaultSettings);
  }

  /** Any failure answers 500 or 400 and leaves the store as it was; success is always 201. */
  lemma FailureSavesNothing(store: seq<FormDoc>, connected: bool, body: Option<Body>, saved: bool, now: int)
    ensures Status(CreateForm(store, connected, body, saved, now).1) != 201 ==>
      CreateForm(store, connected, body, saved, now).0 == store
    ensures Status(CreateForm(store, connected, body, saved, now).1) in {201, 400, 500}
    ensures !connected || body.None? || (PresentText(body.value.title) && !saved) ==>
      CreateForm(store, connected, body, saved, now) == (store, Failed(500, "Failed to create form"))
  {
  }
}
