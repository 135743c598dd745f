# Form platform core, modelled in Dafny

This project models the decision and transformation logic of a Next.js form
builder. Form owners build forms out of typed fields, publish them, and read
the responses on a dashboard. The model covers these parts:

- **Response analytics.** Per-option counts, totals, the top option and its percentage (`Analytics`).
- **Device and location detection.** User-agent classification and splitting an address into city and country (`DeviceDetection`).
- **Viewport classification.** The width classes the layout hook uses (`ViewportClass`).
- **Answer schema.** The per-field schema the form renderer builds, its default answers, the resolver's errors, the completion progress and the submit guard (`AnswerSchema`).
- **Form status badge.** The badge on a dashboard card (`StatusBadge`).
- **Dashboard list pipeline.** Folder derivation, folder filter, search, sort and the optimistic folder move (`Dashboard`), plus the sidebar's folder list and drop targets (`Sidebar`).
- **Exports and tables.**
  - the ExportCSV row construction and file name (`CsvExport`);
  - the hand-built CSV, its file name and the active switch on the responses page (`ResponseCsv`);
  - the responses table (`SubmissionsTable`).
- **Password lock screen.** Its state transitions (`LockScreen`).
- **API admission rules.** Registering a user (`RegisterRoute`) and creating a form (`CreateFormRoute`), each over an abstract store.
- **Form document.** Enumerations, required attributes and defaults (`FormModel`), and the shapes of submissions and activity entries.

Shared helpers are in their own modules:

- `Options`: optional properties;
- `JsValues`: JavaScript values and truthiness;
- `Strings`: lower-casing, `includes`, `join`, `split`, `trim`, decimal text;
- `Seqs`: `filter`, counting, first-occurrence de-duplication;
- `Sorting`: `Array.prototype.sort` as a stable insertion sort;
- `Rounding`: `Math.round` of a percentage, done on exact integers.

Values from outside the code are parameters of the functions that use them:

- the current time;
- the date parser and formatters;
- the email and number predicates;
- the password hash;
- whether a fetch or a database step succeeds.

## Model

| member | source | states |
|---|---|---|
| Analytics.ProcessSubmissions | lib/analytics.ts:12-17 | one statistics entry per radio, select or checkbox field, in field order, each computed by FieldStats |
| Analytics.ChartedFields | lib/analytics.ts:13-15 | the charted fields are a subsequence of the fields; every radio/select/checkbox field is charted; others are not |
| Analytics.FieldStats | lib/analytics.ts:17-48 | id, label and type are copied; one datum per option in option order, holding that option's count; total is the sum of the counts; a field with no options gets topOption "N/A" and 0; otherwise topOption is the first option with the largest count; the percentage is 0 for total 0, else the half-up rounding of top·100/total, never above 100 |
| Analytics.CountOption | lib/analytics.ts:20-26 | an option's count never exceeds the number of submissions |
| Analytics.CountIsNumberOfPickers | lib/analytics.ts:20-26 | the count equals the number of submissions whose answer is the option or an array containing it, so each submission adds at most one |
| Analytics.ValueAtMostSum | lib/analytics.ts:31 | every option's count is at most the total |
| Analytics.FirstMaxIndex | lib/analytics.ts:34-35 | the index chosen holds a maximal count and every earlier option has a strictly smaller one |
| Analytics.SortedHeadIsFirstMax | lib/analytics.ts:34-35 | the head of the stable descending sort is the first option with the largest count |
| Analytics.TopFacts | lib/analytics.ts:34-36 | the sorted head is that first maximum, and its count is at most the total |
| DeviceDetection.NoUserAgentIsUnknown | lib/deviceDetection.ts:7 | a null or empty user agent is 'unknown' |
| DeviceDetection.DetectIgnoresCase | lib/deviceDetection.ts:9-24 | user agents that agree after lower-casing get the same class |
| DeviceDetection.MobileTokenWins | lib/deviceDetection.ts:12-14 | any user agent with a mobile token is 'mobile' |
| DeviceDetection.AndroidWithoutMobileHasAndroid | lib/deviceDetection.ts:12-17 | an agent that matches `android(?!.*mobile)` already holds the mobile token "android" |
| DeviceDetection.TabletIffTabletToken | lib/deviceDetection.ts:12-19 | 'tablet' exactly when a tablet token is present and no mobile token is |
| DeviceDetection.AndroidIsNeverTablet | lib/deviceDetection.ts:12-19 | an agent mentioning android is always 'mobile', never 'tablet' |
| DeviceDetection.DesktopOrUnknown | lib/deviceDetection.ts:22-26 | without mobile or tablet tokens, a desktop token gives 'desktop' and its absence gives 'unknown' |
| DeviceDetection.LineRest | lib/deviceDetection.ts:17 | the text a regular-expression `.*` can scan is a prefix of the input |
| DeviceDetection.TrimmedParts | lib/deviceDetection.ts:36 | one trimmed part per comma-separated piece, in order |
| DeviceDetection.NoCommaIsUnknown | lib/deviceDetection.ts:36-48 | an address without a comma, the empty one included, gives city and country 'Unknown' |
| DeviceDetection.ExtractTwoParts | lib/deviceDetection.ts:38-43 | for "city,country" the result is the trimmed sides, with an empty side 'Unknown' |
| DeviceDetection.ExtractIgnoresLeadingParts | lib/deviceDetection.ts:38-43 | everything before the second-to-last comma is ignored |
| ViewportClass.Classify | hooks/use-device-type.ts:8-15 | mobile iff width < 768; tablet iff 768 ≤ width ≤ 1024; desktop iff width > 1024 |
| ViewportClass.ClassifyMonotone | hooks/use-device-type.ts:8-15 | a wider viewport never gets a narrower class |
| ViewportClass.TabletBoundaries | hooks/use-device-type.ts:4-15 | 767 is mobile, 768 and 1024 are tablet, 1025 is desktop; the initial class is desktop |
| AnswerSchema.Compile | components/FormRenderer.tsx:51-63 | a field falls back to `z.any()` exactly when its type is none of the eight known ones, and a compiled required schema never has that fallback |
| AnswerSchema.Validate | components/FormRenderer.tsx:65-79 | a required answer passes iff its base type accepts it and it is non-empty (a non-empty list for checkbox, a Date for date); an optional answer passes iff it is undefined, accepted by its base type, or (for non-date types) null or "" |
| AnswerSchema.ValidateAccepts | components/FormRenderer.tsx:51-79 | a required text, textarea, select or radio field accepts exactly the non-empty texts; a required checkbox exactly the non-empty lists; an optional field everything its base type accepts |
| AnswerSchema.DefaultValue | components/FormRenderer.tsx:95 | [] for checkbox, null for date, "" for every other type |
| AnswerSchema.DefaultValidIffOptional | components/FormRenderer.tsx:51-97 | a field's default answer passes its schema exactly when the field is optional |
| AnswerSchema.OptionalAcceptsBlank | components/FormRenderer.tsx:73-78 | an optional field accepts undefined and null, and every optional non-date field accepts "" |
| AnswerSchema.RequiredRejectsBlank | components/FormRenderer.tsx:65-72 | a required field rejects undefined, null, "" and []; a checkbox says "Please select at least one option"; a date reports the missing date; text-like fields say "This field is required" |
| AnswerSchema.RequiredDateAcceptsDates | components/FormRenderer.tsx:68-69 | a required date accepts exactly the Date values |
| AnswerSchema.PredicatesReject | components/FormRenderer.tsx:51-54 | a non-empty text is accepted by an email or number field exactly when the email or number predicate holds |
| AnswerSchema.AcceptedRequiredIsComplete | components/FormRenderer.tsx:65-112 | an answer a required field accepts counts as complete for the progress bar |
| AnswerSchema.Shape | components/FormRenderer.tsx:46-84 | one schema per distinct field id, each satisfying the schema invariant |
| AnswerSchema.ShapeLastWins | components/FormRenderer.tsx:81 | the schema under an id is that of the last field with the id |
| AnswerSchema.Defaults | components/FormRenderer.tsx:94-97 | the default answers have exactly the fields' ids as keys |
| AnswerSchema.DefaultsLastWins | components/FormRenderer.tsx:94-97 | the default under an id is that of the last field with the id |
| AnswerSchema.Errors | components/FormRenderer.tsx:83-93 | errors are reported only under the schema's keys |
| AnswerSchema.UntouchedErrorAt | components/FormRenderer.tsx:65-97 | with distinct ids, submitting the untouched form reports an error for a field iff it is required |
| AnswerSchema.UntouchedErrorsAreRequired | components/FormRenderer.tsx:65-97 | with distinct ids, the untouched form's error keys are exactly the required fields' ids |
| AnswerSchema.Progress | components/FormRenderer.tsx:103-115 | the progress never exceeds 100 |
| AnswerSchema.CompletedAll | components/FormRenderer.tsx:104-112 | with every required field complete, the completed list is the required list |
| AnswerSchema.CompletedFewer | components/FormRenderer.tsx:104-112 | with some required field incomplete, strictly fewer are completed than required |
| AnswerSchema.ProgressFullWhenComplete | components/FormRenderer.tsx:103-115 | every required field complete ⇒ progress 100 |
| AnswerSchema.ProgressFullOnlyWhenComplete | components/FormRenderer.tsx:103-115 | with fewer than 200 required fields, progress 100 ⇒ every required field complete |
| AnswerSchema.ProgressRoundsUpToFull | components/FormRenderer.tsx:114 | with 200 of 201 required fields complete, the progress already shows 100 |
| AnswerSchema.ProgressFloor | components/FormRenderer.tsx:103-115 | corrected progress: at most 100, and 100 exactly when every required field is complete |
| AnswerSchema.ProgressFloorFacts | components/FormRenderer.tsx:104-114 | the rounded-down percentage is at most 100, and 100 exactly when all required fields are complete |
| AnswerSchema.NoneRequiredAllComplete | components/FormRenderer.tsx:104-105 | with no required field, every required field is vacuously complete |
| AnswerSchema.NothingRequiredIsFull | components/FormRenderer.tsx:104-105 | with no required field both progress measures are 100 whatever the answers |
| AnswerSchema.Parsed | components/FormRenderer.tsx:83-117 | the parsed object keeps exactly the answered keys the schema declares, values unchanged |
| AnswerSchema.HandleSubmit | components/FormRenderer.tsx:93-130 | errors are shown iff the resolver finds any; a valid preview is blocked; otherwise the parsed answers are posted to /api/f/{id}/submit |
| AnswerSchema.PreviewNeverPosts | components/FormRenderer.tsx:118-121 | a preview never posts |
| AnswerSchema.PostedMeansComplete | components/FormRenderer.tsx:93-130 | whatever passes the resolver has every required field complete and progress 100 |
| StatusBadge.StatusText | components/FormCard.tsx:53 | a missing or empty status reads 'Draft'; any other status is kept |
| StatusBadge.BadgeOf | components/FormCard.tsx:48-63 | Live is green and Draft amber, unchanged; otherwise Closed (status Closed or inactive) beats Expired, which beats Limit Reached, all red; with none of these the status is kept, plain |
| StatusBadge.EnumStatusStaysInEnum | components/FormCard.tsx:53-62 | a status among Draft, Live and Closed always displays as one of those three, itself |
| StatusBadge.LiveAndDraftIgnoreLimits | components/FormCard.tsx:56-59 | Live and Draft badges do not depend on activity, expiry, response count or time |
| StatusBadge.NoSettingsIsDraft | components/FormCard.tsx:48-53 | without settings a card is active, not expired, unlimited, and shows Draft |
| StatusBadge.ZeroLimitIsUnlimited | components/FormCard.tsx:50 | a missing or zero limit is never reached |
| StatusBadge.LimitReachedAt | components/FormCard.tsx:50 | a positive limit m is reached exactly when the responses are at least m |
| Dashboard.FolderNames | components/DashboardClient.tsx:58 | each form's folder, `folderName` or 'Uncategorized', in form order |
| Dashboard.Folders | components/DashboardClient.tsx:57-60 | the folders have no repeats, include every form's folder, and include only forms' folders |
| Dashboard.FoldersInFirstUseOrder | components/DashboardClient.tsx:58 | folders appear in the order the forms first use them |
| Dashboard.FiltersKeep | components/DashboardClient.tsx:78-90 | the folder and search filters keep every form passing both exactly as often as it occurs, and no other form |
| Dashboard.VisibleIsFilteredPermutation | components/DashboardClient.tsx:75-102 | the visible list is a permutation of the forms that pass both filters: each passing form appears as often as in the input, and no other form appears |
| Dashboard.NoFiltersShowsEverything | components/DashboardClient.tsx:79-84 | folder 'all' and an empty search show a reordering of all forms |
| Dashboard.ComparatorIsPreorder | components/DashboardClient.tsx:93-99 | every sort key's comparator is a total preorder |
| Dashboard.SortedByComparatorIsOrdered | components/DashboardClient.tsx:93-99 | a list sorted by a key's comparator is ordered as that key names |
| Dashboard.VisibleIsOrdered | components/DashboardClient.tsx:93-99 | 'newest' gives non-increasing update times, 'oldest' non-decreasing, 'responses' non-increasing counts, 'status' status-text order |
| Dashboard.UnknownKeyKeepsOrder | components/DashboardClient.tsx:98 | an unknown sort key keeps the filtered order |
| Dashboard.HandleDragEnd | components/DashboardClient.tsx:104-120 | a move happens iff the target id starts with 'folder-' and carries a truthy folder name; it then PATCHes that name, sets it on the forms with the dragged id and leaves the others unchanged |
| Dashboard.MoveFilesUnderTarget | components/DashboardClient.tsx:57-113 | after a move the dragged form is in the target folder, and that folder is listed |
| Dashboard.MoveChangesAtMostOne | components/DashboardClient.tsx:113 | with distinct ids, a move changes at most one form |
| Sidebar.TargetOf | components/DashboardSidebar.tsx:31-34 | a folder's drop id is 'folder-' followed by its name, and its data carries the name |
| Sidebar.Items | components/DashboardSidebar.tsx:85-98 | one entry per listed folder name, in list order |
| Sidebar.UncategorizedFirstAndOnce | components/DashboardSidebar.tsx:86-91 | 'Uncategorized' is first and appears exactly once |
| Sidebar.OtherFoldersInOrder | components/DashboardSidebar.tsx:91-98 | the remaining entries keep the input order, and every input folder is listed |
| Sidebar.FolderListDistinct | components/DashboardSidebar.tsx:86-98 | folders without repeats are listed without repeats, 'Uncategorized' included |
| Sidebar.DashboardFoldersListedOnce | components/DashboardSidebar.tsx:86-98 | listing the dashboard's folders shows no name twice |
| Sidebar.DropOnListedFolderMoves | components/DashboardSidebar.tsx:31-34 | dropping a card on a listed folder with a non-empty name moves it into that folder |
| Sidebar.ActiveIffSelected | components/DashboardSidebar.tsx:88-95 | an entry is highlighted iff its name is the selected folder |
| CsvExport.Keys | components/ExportCSV.tsx:48-53 | a row has one column name per entry |
| CsvExport.AssignKeys | components/ExportCSV.tsx:70 | assigning keeps the column order and appends a new name at the end |
| CsvExport.AssignGet | components/ExportCSV.tsx:70 | the assigned column holds the new value; other columns are unchanged |
| CsvExport.MetaRowKeys | components/ExportCSV.tsx:48-53 | the metadata row has the four columns in order |
| CsvExport.MetaDefaults | components/ExportCSV.tsx:50-52 | without metadata, device is 'Unknown' and city and country are 'N/A' |
| CsvExport.Normalize | components/ExportCSV.tsx:57-68 | no cell is null or undefined; an object location answer becomes its address or 'N/A'; a truthy file answer is kept; null, undefined and "" become 'N/A'; only a joined array can be empty |
| CsvExport.ScalarsPassThrough | components/ExportCSV.tsx:66-67 | a non-blank string, a number or a boolean passes through unchanged, 0 and false included |
| CsvExport.ArraysAreJoined | components/ExportCSV.tsx:64-65 | for types other than file and location, an array is joined with ", " |
| CsvExport.Labels | components/ExportCSV.tsx:56-70 | one label per field, in field order; the responses header and table read the same labels |
| CsvExport.RowColumns | components/ExportCSV.tsx:48-71 | a row's columns are the four metadata columns then the labels, each name once at its first occurrence |
| CsvExport.LabelColumnValue | components/ExportCSV.tsx:56-71 | a label's column holds the normalised answer of the last field with that label |
| CsvExport.MetaColumnValue | components/ExportCSV.tsx:48-70 | a metadata column that no label reuses keeps its metadata value |
| CsvExport.SafeTitle | components/ExportCSV.tsx:86 | the sanitised title holds only ASCII letters, digits and '_' |
| CsvExport.SafeTitleKeepsLength | components/ExportCSV.tsx:86 | sanitising keeps the length in UTF-16 code units, and the length in characters when no character is astral |
| CsvExport.SafeTitleKeepsAlnum | components/ExportCSV.tsx:86 | a title of ASCII letters and digits is unchanged |
| CsvExport.SafeTitleAt | components/ExportCSV.tsx:86 | with no astral character, each position keeps its ASCII letter or digit and holds '_' for any other character |
| CsvExport.HandleExport | components/ExportCSV.tsx:39-86 | nothing without submissions; otherwise one row per submission in order, and the name title_responses_date.csv |
| ResponseCsv.Escape | components/ResponseHeader.tsx:105-115 | escaping never shortens a text |
| ResponseCsv.QuoteAll | components/ResponseHeader.tsx:105-115 | each cell quoted, in order |
| ResponseCsv.ReadQuoted | components/ResponseHeader.tsx:115 | reading a quoted cell consumes at least its closing quote |
| ResponseCsv.ReadEscaped | components/ResponseHeader.tsx:115 | reading an escaped text followed by a closing quote gives the text and what follows |
| ResponseCsv.UnquoteQuote | components/ResponseHeader.tsx:115 | stripping the outer quotes and halving "" recovers the original text |
| ResponseCsv.ParseJoinedCells | components/ResponseHeader.tsx:105-118 | quoted cells joined by commas read back as exactly the cells, whatever quotes or commas they hold |
| ResponseCsv.AnswerTexts | components/ResponseHeader.tsx:112-116 | one text per field, in field order, from that field's answer |
| ResponseCsv.RowLines | components/ResponseHeader.tsx:108-119 | one comma-joined line per submission, in order |
| ResponseCsv.HeaderLineShape | components/ResponseHeader.tsx:105-121 | the header line is "Submission ID,Submitted At" then the quoted labels, which read back as the labels |
| ResponseCsv.RowLineShape | components/ResponseHeader.tsx:108-118 | a row line is the id, the locale date, then one quoted cell per field, which read back as the answers' texts |
| ResponseCsv.AnswerTextRules | components/ResponseHeader.tsx:113-115 | arrays are joined with "; "; null and undefined become the empty quoted cell "" |
| ResponseCsv.CsvText | components/ResponseHeader.tsx:93-121 | no CSV text is produced exactly when there are no submissions |
| ResponseCsv.CsvLines | components/ResponseHeader.tsx:94-121 | with submissions and no line breaks inside lines, the text splits at '\n' into the header line then one line per submission |
| ResponseCsv.UnderscoredHasNoSpace | components/ResponseHeader.tsx:126 | the file name's stem holds no white space and is never longer than the title |
| ResponseCsv.UnderscoredKeepsPlain | components/ResponseHeader.tsx:126 | a title without white space is kept |
| ResponseCsv.UnderscoredRunThenWord | components/ResponseHeader.tsx:126 | a white-space run before a word becomes one underscore |
| ResponseCsv.UnderscoredRun | components/ResponseHeader.tsx:126 | a white-space run between two words becomes one underscore |
| ResponseCsv.UnderscoredAfterPlain | components/ResponseHeader.tsx:126 | a leading white-space-free part is kept and the rest is handled independently |
| ResponseCsv.FilenameFacts | components/ResponseHeader.tsx:126 | the download name has no white space and ends in "_responses.csv"; a title without white space is kept whole before it |
| ResponseCsv.ToggleBody | components/ResponseHeader.tsx:64 | the sent settings have the received keys plus isActive; isActive is the new value; every other key is unchanged |
| ResponseCsv.InitialToggle | components/ResponseHeader.tsx:52-54 | the switch starts from the stored isActive when it is neither null nor undefined, from true otherwise, and not updating |
| ResponseCsv.HandleToggle | components/ResponseHeader.tsx:58-81 | the PATCH goes to /api/forms/{id} with the merged settings; the switch takes the new value only on success, else keeps its old one; updating ends either way; the message matches the outcome |
| ResponseCsv.ToggleIgnoresLocalState | components/ResponseHeader.tsx:64 | the request depends on the received settings, never on the switch's local state |
| SubmissionsTable.RowOf | components/SubmissionsTable.tsx:34-54 | a row is keyed by the submission, shows its formatted date, and has one cell per field in field order |
| SubmissionsTable.Render | components/SubmissionsTable.tsx:8-39 | the empty state iff there are no submissions; otherwise columns 'Submitted At' then the labels, and one row per submission in order |
| SubmissionsTable.NotProvidedIff | components/SubmissionsTable.tsx:40-51 | 'Not provided' exactly for undefined, null, "", 0, false or an array whose join is empty; otherwise the display value |
| SubmissionsTable.MissingAnswerNotProvided | components/SubmissionsTable.tsx:40-51 | an unanswered field shows 'Not provided' |
| SubmissionsTable.SeveralChoicesShown | components/SubmissionsTable.tsx:41-48 | two or more choices are always shown, joined with ", " |
| LockScreen.Complete | components/LockScreen.tsx:28-34 | onVerified is called iff the entered password equals the expected one; a mismatch sets the error and clears the password; loading ends |
| LockScreen.VerifyOutcome | components/LockScreen.tsx:21-35 | a whole attempt verifies iff the password matches; success keeps the password and clears the error; failure gives an empty password and the error; loading is off |
| LockScreen.TypingDuringDelayIgnored | components/LockScreen.tsx:21-28 | typing during the delay does not change the verdict, which uses the password at the attempt's start |
| LockScreen.FailureDisablesButton | components/LockScreen.tsx:30-108 | after a failure the button is disabled; retyping enables it iff the text is non-empty |
| LockScreen.IgnoredInputs | components/LockScreen.tsx:92-108 | a click on a disabled button and any key but Enter change nothing and verify nothing |
| LockScreen.EnterSkipsEmptyGuard | components/LockScreen.tsx:92-108 | with an empty input the button does nothing, but Enter still compares and unlocks an empty expected password |
| LockScreen.ClickIsEnterWhenEnabled | components/LockScreen.tsx:92-108 | on an enabled button, a click and Enter do the same |
| RegisterRoute.MissingFieldRefused | app/api/auth/register/route.ts:10-15 | a missing or empty name, email or password is 400 "All fields are required." and the store is unchanged |
| RegisterRoute.DuplicateRefused | app/api/auth/register/route.ts:19-26 | an email already stored is 400 "User already exists." and nothing is saved |
| RegisterRoute.RegisterSucceeds | app/api/auth/register/route.ts:6-43 | 201 iff every field is given, the email is new and nothing fails; exactly the user with hash(password) is appended; any other answer leaves the store; statuses are 201, 400 or 500 |
| RegisterRoute.FaultIsServerError | app/api/auth/register/route.ts:8-42 | an unparsable body or a failing step after validation is 500 and saves nothing |
| RegisterRoute.RegisterKeepsEmailsUnique | app/api/auth/register/route.ts:19-36 | one request keeps the stored emails distinct |
| RegisterRoute.SequentialEmailsUnique | app/api/auth/register/route.ts:19-36 | requests handled one after another keep the stored emails distinct |
| RegisterRoute.RegisterAllKeepsPrefix | app/api/auth/register/route.ts:30-36 | requests only append users; earlier users stay in place |
| CreateFormRoute.NewFormInput | app/api/forms/route.ts:15-25 | the route sends the title and description, creator "user_123", no fields, settings with only isActive true, and no folder |
| CreateFormRoute.MissingTitleRefused | app/api/forms/route.ts:10-12 | a missing or empty title is 400 "Title is required" and creates nothing |
| CreateFormRoute.CreatedForm | app/api/forms/route.ts:15-27 | a created form has the title and description, no fields, creator "user_123", the default settings (active), folder 'Uncategorized' and both timestamps now; it is appended and returned with 201 |
| CreateFormRoute.FailureSavesNothing | app/api/forms/route.ts:5-31 | every non-201 answer leaves the store; statuses are 201, 400 or 500; a connection, body or save failure is 500 |
| FormModel.ParseKind | models/Form.ts:5-9 | a type is accepted iff it is one of the nine names, and it reads back as its name |
| FormModel.ParseKindName | models/Form.ts:5-9 | each of the nine kinds round-trips through its name; there are exactly nine |
| FormModel.TextareaIsNotAKind | models/Form.ts:7 | 'textarea' is not an admitted field type |
| FormModel.ParseStatus | models/Form.ts:30-34 | a status is accepted iff it is Draft, Live or Closed, and reads back as its name |
| FormModel.ParseVisibility | models/Form.ts:35-39 | a visibility is accepted iff it is Public, Private or Password Protected, and reads back as its name |
| FormModel.EnumNamesRoundTrip | models/Form.ts:30-39 | both enumerations read back every name they write |
| FormModel.CastSettings | models/Form.ts:24-41 | settings cast iff both enums are valid; each missing property takes its default and each given one is kept |
| FormModel.CastNoSettings | models/Form.ts:24-41 | empty settings cast to limits null, singleSubmission false, isActive true, status Draft, visibility Public, password "" |
| FormModel.CastField | models/Form.ts:3-17 | a field casts iff id, label and an admitted type are given; required defaults to false; the rest is kept |
| FormModel.CastFields | models/Form.ts:23 | a field list casts iff every field does, keeping the order |
| FormModel.CastForm | models/Form.ts:19-43 | a form casts iff title, creator, fields and settings do; folderName defaults to 'Uncategorized'; both timestamps are the creation time |
| JsValues.OrElse | components/DashboardClient.tsx:58-80 | the logical-or default: a non-empty string is kept; a missing or empty one gives the fallback |
| Strings.Lower | components/DashboardClient.tsx:85-88 | lower-casing keeps the length and maps each character |
| Strings.JoinEmptyIff | components/SubmissionsTable.tsx:41-45 | with a non-empty separator a join is empty iff there are no parts or one empty part |
| Strings.Split | lib/deviceDetection.ts:36 | splitting always yields at least one piece |
| Strings.SplitPieces | lib/deviceDetection.ts:36 | one piece more than separators, none holding a separator |
| Strings.JoinSplit | lib/deviceDetection.ts:36 | re-joining the pieces gives back the input |
| Strings.SplitJoin | components/ResponseHeader.tsx:121 | joining separator-free pieces and splitting again gives the pieces |
| Strings.SplitWithoutSeparator | lib/deviceDetection.ts:36 | a text without the separator is one piece |
| Strings.SplitAppend | lib/deviceDetection.ts:36 | splitting at one separator splits both sides independently |
| Strings.TrimStart | components/ResponseHeader.tsx:126 | only leading white space is dropped, up to a non-space |
| Strings.TrimEnd | lib/deviceDetection.ts:36 | only trailing white space is dropped, back to a non-space |
| Strings.Trim | lib/deviceDetection.ts:36 | the trimmed text is a slice of the input, everything outside it is white space, and it has no white space at either end |
| Strings.TrimEmptyIffAllSpace | lib/deviceDetection.ts:36-41 | trimming gives "" iff the text is all white space |
| Strings.CompareText | components/DashboardClient.tsx:97 | the comparison (code-point order) is a sign, zero iff the texts are equal |
| Strings.CompareTextAntisymmetric | components/DashboardClient.tsx:97 | swapping the texts negates the comparison |
| Strings.CompareTextTransitive | components/DashboardClient.tsx:97 | the comparison is transitive |
| Strings.NatToDecimal | components/ResponseHeader.tsx:115 | the decimal text is non-empty, made of digits, and has no leading zero |
| Strings.DecimalRoundTrip | components/ResponseHeader.tsx:115 | reading the decimal text of n back as digits gives n |
| Seqs.Filter | lib/analytics.ts:13-15 | every survivor passes and comes from the input, every passing element survives, and no element is kept more often than it occurs |
| Seqs.FilterCount | lib/analytics.ts:13-15 | a passing element survives exactly as often as it occurs in the input, and a failing one not at all |
| Seqs.FilterIsSubsequence | lib/analytics.ts:13-15 | filtering keeps the survivors in order |
| Seqs.FilterKeepsDistinct | components/DashboardSidebar.tsx:91 | filtering a list without repeats leaves none |
| Seqs.Dedup | components/DashboardClient.tsx:58 | `new Set`: no repeats, only elements of the input, and every element of the input |
| Seqs.DedupFirstOccurrenceOrder | components/DashboardClient.tsx:58 | the distinct elements come in first-occurrence order |
| Seqs.DedupDistinct | components/DashboardClient.tsx:58 | a list without repeats is unchanged |
| Sorting.Sort | lib/analytics.ts:34 | sorting keeps the length |
| Sorting.SortPermutes | components/DashboardClient.tsx:93-99 | sorting only reorders: same elements, as often |
| Sorting.SortSorted | components/DashboardClient.tsx:93-99 | under a preorder comparator the result is ordered |
| Sorting.SortKeepsOrderWhenNothingPrecedes | components/DashboardClient.tsx:98 | a comparator that never answers "before" keeps the order, as a stable sort must |
| Rounding.RoundPercent | lib/analytics.ts:36 | the result is the nearest integer to 100·part/whole, halves rounded up, and at most 100 for part ≤ whole |
| Rounding.RoundPercentOfWhole | components/FormRenderer.tsx:114 | a whole rounds to exactly 100 |
| Rounding.RoundPercentNearlyWhole | components/FormRenderer.tsx:114 | 200 of 201 already rounds to 100 |
| Rounding.FloorPercent | components/FormRenderer.tsx:114 | the largest integer r with whole·r ≤ 100·part |
| Rounding.FloorPercentFullIffWhole | components/FormRenderer.tsx:114 | rounded down, the percentage reaches 100 iff part equals whole |

## Left out

- Floating point: `Math.round` over float division is exact half-up integer rounding; numbers are integers, so NaN, Infinity and fractions are not modelled.
- Text: `toLowerCase` covers only ASCII letters. `localeCompare` is modelled as Unicode code-point order, with no locale collation; this differs from UTF-16 code-unit order only between astral characters and U+E000–U+FFFF.
- Libraries: the zod email grammar and `Number()` parsing are the abstract `isEmail` and `isNumeric` predicates. Only the first zod issue per key is modelled, not union messages.
- The json2csv `Parser` output of ExportCSV is not modelled; the model stops at the rows and the file name.
- Dates: date-fns `format`, `toLocaleString` and `toString` are parameters. An invalid expiry date is a parser returning nothing.
- I/O: fetch, database queries, bcrypt, toasts, router navigation, clipboard and Blob downloads. Their success or failure is a parameter, and bcrypt is an uninterpreted `hash`.
- Timers and listeners: the lock screen's 800 ms delay, the copied-flag timeout, the resize listener, drag sensors and animations.
- Concurrency: the register route's check-then-insert race and concurrent drag or PATCH replies. Requests are handled one at a time.
- Submission handling: the submit endpoint (app/api/f/[id]/submit/route.ts), the edit window, the undo countdown, single-submission gating, conditional logic and min/max/digit validation. None of these are part of this model.
- models/User.ts is not part of this model: users are records of name, email and password hash.
- Input types: request bodies hold only string properties, as optional strings. Mongoose's casting of other JSON types is not modelled.
- Arrays: answer arrays hold only strings, as checkbox answers do.
- Object key order: JavaScript puts integer-like keys first; object rows here keep insertion order.
- AnswerSchema.Compile: requires that a required field is not of type file or location. There the source calls `min` on `z.any()`, whose runtime behaviour is not modelled.
- ResponseCsv.CsvLines: assumes no header or row line contains a line break. A label, answer or locale date holding '\n' would split a line.
- ResponseCsv.RowLineShape: the locale date is written unquoted and may hold commas, so no fixed column count is claimed for a row.
- SubmissionsTable.Render: a cell's value is modelled, not React's rendering of it. React renders `true` as nothing and fails on a Date object and on any plain object, such as a location answer, which the model shows as `Provided(Obj(..))`.
- Rendering-only components (charts, field widgets, modals, navigation) and the dashboard page's per-form response counting carry no decision logic and are not modelled.

## Findings

| source | as written | input that shows it | evidently intended | confidence | as-written member | corrected member |
|---|---|---|---|---|---|---|
| components/FormRenderer.tsx:114 | progress is `Math.round(completed / required * 100)` | 201 required fields, 200 of them complete: 99.5 rounds to 100 | a full bar only when every required field is complete | not executed | AnswerSchema.ProgressRoundsUpToFull | AnswerSchema.ProgressFloor |
