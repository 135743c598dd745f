/**
 * The responses page header: the hand-built CSV download, its file name,
 * and the switch that turns a form's `isActive` setting on or off.
 *
 * Every field cell is wrapped in double quotes with inner quotes doubled,
 * as rule 7 of section 2 of RFC 4180 describes. The id and date cells are
 * written unquoted.
 */
module ResponseCsv {
  import opened Options
  import opened JsValues
  import opened Strings
  import CsvExport

  /** A field as the page receives it: id, label and type, the same shape the export button reads. */
  type Field = CsvExport.Field

  datatype Submission = Submission(id: string, submittedAt: int, answers: Answers)

  /** How the browser writes dates: `toLocaleString` for the date column, `toString` for a Date answer. */
  datatype DateTexts = DateTexts(locale: int -> string, plain: int -> string)

  /** Every `"` doubled. */
  function Escape(s: string): (r: string)
    ensures |r| >= |s|
  {
    if |s| == 0 then ""
    else (if s[0] == '"' then "\"\"" else [s[0]]) + Escape(s[1..])
  }

  /** `"${s.replace(/"/g, '""')}"`. */
  function Quote(s: string): string {
    "\"" + Escape(s) + "\""
  }

  function QuoteAll(cells: seq<string>): (r: seq<string>)
    ensures |r| == |cells| && forall i :: 0 <= i < |cells| ==> r[i] == Quote(cells[i])
  {
    seq(|cells|, i requires 0 <= i < |cells| => Quote(cells[i]))
  }

  /**
   * Reads the inside of a quoted cell, given the text after its opening
   * quote: a doubled quote stands for one quote, a single quote closes the
   * cell. Yields the cell's text and what follows the closing quote.
   */
  function ReadQuoted(s: string): (r: Option<(string, string)>)
    ensures r.Some? ==> |r.value.1| < |s|
  {
    if |s| == 0 then None
    else if s[0] == '"' then
      if |s| >= 2 && s[1] == '"' then
        match ReadQuoted(s[2..])
        case Some((c, rest)) => Some(("\"" + c, rest))
        case None => None
      else Some(("", s[1..]))
    else
      match ReadQuoted(s[1..])
      case Some((c, rest)) => Some(([s[0]] + c, rest))
      case None => None
  }

  /** Reads comma-separated quoted cells; `None` when the text is not of that form. */
  function ParseCells(s: string): Option<seq<string>>
    decreases |s|
  {
    if |s| == 0 then Some([])
    else if s[0] != '"' then None
    else
      match ReadQuoted(s[1..])
      case None => None
      case Some((c, rest)) =>
        if |rest| == 0 then Some([c])
        else if rest[0] != ',' then None
        else
          match ParseCells(rest[1..])
          case None => None
          case Some(cs) => Some([c] + cs)
  }

  lemma {:induction false} ReadEscaped(x: string, rest: string)
    requires |rest| == 0 || rest[0] != '"'
    ensures ReadQuoted(Escape(x) + "\"" + rest) == Some((x, rest))
  {
    var s := Escape(x) + "\"" + rest;
    if |x| == 0 {
      assert s == "\"" + rest;
      assert s[1..] == rest;
    } else if x[0] == '"' {
      ReadEscaped(x[1..], rest);
      assert s == "\"\"" + (Escape(x[1..]) + "\"" + rest);
      assert s[2..] == Escape(x[1..]) + "\"" + rest;
      assert "\"" + x[1..] == x;
    } else {
      ReadEscaped(x[1..], rest);
      assert s == [x[0]] + (Escape(x[1..]) + "\"" + rest);
      assert s[1..] == Escape(x[1..]) + "\"" + rest;
      assert [x[0]] + x[1..] == x;
    }
  }

  /** Un-quoting a quoted cell gives back the original text. */
  lemma UnquoteQuote(x: string)
    ensures ReadQuoted(Quote(x)[1..]) == Some((x, ""))
  {
    ReadEscaped(x, "");
    assert Quote(x)[1..] == Escape(x) + "\"" + "";
  }

  /** Reading back quoted cells joined by commas gives the cells, however many quotes or commas they hold. */
  lemma {:induction false} ParseJoinedCells(cells: seq<string>)
    ensures ParseCells(Join(QuoteAll(cells), ",")) == Some(cells)
  {
    if |cells| == 1 {
      assert Join(QuoteAll(cells), ",") == Quote(cells[0]);
      assert Quote(cells[0])[0] == '"';
      UnquoteQuote(cells[0]);
      assert [cells[0]] == cells;
    } else if |cells| > 1 {
      var tail := Join(QuoteAll(cells[1..]), ",");
      assert QuoteAll(cells)[1..] == QuoteAll(cells[1..]);
      var s := Quote(cells[0]) + "," + tail;
      assert Join(QuoteAll(cells), ",") == s;
      ReadEscaped(cells[0], "," + tail);
      assert s[1..] == Escape(cells[0]) + "\"" + ("," + tail);
      assert ("," + tail)[1..] == tail;
      ParseJoinedCells(cells[1..]);
      assert [cells[0]] + cells[1..] == cells;
    }
  }

  /** `(val ?? '').toString()`, after an array has been joined with "; ". */
  function AnswerText(v: Value, dates: DateTexts): string {
    match v
    case Undefined => ""
    case Null => ""
    case Str(s) => s
    case Num(n) => IntToDecimal(n)
    case Bool(b) => if b then "true" else "false"
    case Arr(items) => Join(items, "; ")
    case DateV(t) => dates.plain(t)
    case Obj(_) => "[object Object]"
  }

  /** The text of each field's cell for one submission, in field order. */
  function AnswerTexts(s: Submission, fields: seq<Field>, dates: DateTexts): (r: seq<string>)
    ensures |r| == |fields|
    ensures forall i :: 0 <= i < |fields| ==> r[i] == AnswerText(Lookup(s.answers, fields[i].id), dates)
  {
    seq(|fields|, i requires 0 <= i < |fields| => AnswerText(Lookup(s.answers, fields[i].id), dates))
  }

  function HeaderCells(fields: seq<Field>): seq<string> {
    ["Submission ID", "Submitted At"] + QuoteAll(CsvExport.Labels(fields))
  }

  function RowCells(s: Submission, fields: seq<Field>, dates: DateTexts): seq<string> {
    [s.id, dates.locale(s.submittedAt)] + QuoteAll(AnswerTexts(s, fields, dates))
  }

  function RowLines(subs: seq<Submission>, fields: seq<Field>, dates: DateTexts): (r: seq<string>)
    ensures |r| == |subs|
    ensures forall i :: 0 <= i < |subs| ==> r[i] == Join(RowCells(subs[i], fields, dates), ",")
  {
    seq(|subs|, i requires 0 <= i < |subs| => Join(RowCells(subs[i], fields, dates), ","))
  }

  /** The CSV text: nothing without submissions; otherwise the header line and one line per submission. */
  function CsvText(subs: seq<Submission>, fields: seq<Field>, dates: DateTexts): (r: Option<string>)
    ensures r.None? <==> |subs| == 0
  {
    if |subs| == 0 then None
    else Some(Join([Join(HeaderCells(fields), ",")] + RowLines(subs, fields, dates), "\n"))
  }

  /** The quoted cells after the two leading ones, with the comma that introduces them. */
  function QuotedTail(cells: seq<string>): string {
    if |cells| == 0 then "" else "," + Join(QuoteAll(cells), ",")
  }

  lemma JoinTwoThenRest(a: string, b: string, q: seq<string>)
    ensures Join([a, b] + q, ",") == a + "," + b + (if |q| == 0 then "" else "," + Join(q, ","))
  {
    assert [a, b] + q == [a] + ([b] + q);
    JoinCons(a, [b] + q, ",");
    JoinCons(b, q, ",");
  }

  /**
   * The header line is the two fixed names and then the labels, quoted; its
   * quoted part reads back as exactly the labels.
   */
  lemma HeaderLineShape(fields: seq<Field>)
    ensures Join(HeaderCells(fields), ",") == "Submission ID,Submitted At" + QuotedTail(CsvExport.Labels(fields))
    ensures ParseCells(Join(QuoteAll(CsvExport.Labels(fields)), ",")) == Some(CsvExport.Labels(fields))
  {
    JoinTwoThenRest("Submission ID", "Submitted At", QuoteAll(CsvExport.Labels(fields)));
    ParseJoinedCells(CsvExport.Labels(fields));
  }

  /**
   * A row line is the id, the locale date, and one quoted cell per field in
   * field order, which reads back as the answers' texts. The date is not
   * quoted and may itself hold commas.
   */
  lemma RowLineShape(s: Submission, fields: seq<Field>, dates: DateTexts)
    ensures Join(RowCells(s, fields, dates), ",") ==
      s.id + "," + dates.locale(s.submittedAt) + QuotedTail(AnswerTexts(s, fields, dates))
    ensures ParseCells(Join(QuoteAll(AnswerTexts(s, fields, dates)), ",")) == Some(AnswerTexts(s, fields, dates))
  {
    JoinTwoThenRest(s.id, dates.locale(s.submittedAt), QuoteAll(AnswerTexts(s, fields, dates)));
    ParseJoinedCells(AnswerTexts(s, fields, dates));
  }

  /** Array answers are joined with "; "; a missing or null answer is an empty cell. */
  lemma AnswerTextRules(items: seq<string>, dates: DateTexts)
    ensures AnswerText(Arr(items), dates) == Join(items, "; ")
    ensures AnswerText(Null, dates) == "" && AnswerText(Undefined, dates) == ""
    ensures Quote(AnswerText(Undefined, dates)) == "\"\""
  {
  }

  /**
   * When no line holds a line break, splitting the text at line breaks gives
   * the header line and then one line per submission, in order.
   */
  lemma CsvLines(subs: seq<Submission>, fields: seq<Field>, dates: DateTexts)
    requires |subs| > 0
    requires '\n' !in Join(HeaderCells(fields), ",")
    requires forall i :: 0 <= i < |subs| ==> '\n' !in Join(RowCells(subs[i], fields, dates), ",")
    ensures CsvText(subs, fields, dates).Some?
    ensures Split(CsvText(subs, fields, dates).value, '\n') ==
      [Join(HeaderCells(fields), ",")] + RowLines(subs, fields, dates)
  {
    var lines := [Join(HeaderCells(fields), ",")] + RowLines(subs, fields, dates);
    assert forall i :: 0 <= i < |lines| ==> '\n' !in lines[i] by {
      forall i | 0 <= i < |lines|
        ensures '\n' !in lines[i]
      {
        if i > 0 {
          assert lines[i] == RowLines(subs, fields, dates)[i - 1];
        }
      }
    }
    SplitJoin(lines, '\n');
  }

  /** `title.replace(/\s+/g, '_')`: every run of white space becomes one underscore. */
  function Underscored(s: string): string {
    if |s| == 0 then ""
    else if IsJsSpace(s[0]) then "_" + Underscored(TrimStart(s[1..]))
    else [s[0]] + Underscored(s[1..])
  }

  /** No white space is left, and the name is never longer than the title. */
  lemma {:induction false} UnderscoredHasNoSpace(s: string)
    ensures forall i :: 0 <= i < |Underscored(s)| ==> !IsJsSpace(Underscored(s)[i])
    ensures |Underscored(s)| <= |s|
  {
    if |s| > 0 {
      if IsJsSpace(s[0]) {
        var t := TrimStart(s[1..]);
        UnderscoredHasNoSpace(t);
        var u := Underscored(t);
        assert Underscored(s) == "_" + u;
        assert !IsJsSpace('_');
        assert forall i :: 1 <= i < |"_" + u| ==> ("_" + u)[i] == u[i - 1];
      } else {
        UnderscoredHasNoSpace(s[1..]);
        var u := Underscored(s[1..]);
        assert Underscored(s) == [s[0]] + u;
        assert forall i :: 1 <= i < |[s[0]] + u| ==> ([s[0]] + u)[i] == u[i - 1];
      }
    }
  }

  /** A title without white space is kept as it is. */
  lemma {:induction false} UnderscoredKeepsPlain(s: string)
    requires forall i :: 0 <= i < |s| ==> !IsJsSpace(s[i])
    ensures Underscored(s) == s
  {
    if |s| > 0 {
      UnderscoredKeepsPlain(s[1..]);
      assert [s[0]] + s[1..] == s;
    }
  }

  /** A run of white space in front of a word becomes a single underscore. */
  lemma UnderscoredRunThenWord(run: string, b: string)
    requires |run| > 0 && forall i :: 0 <= i < |run| ==> IsJsSpace(run[i])
    requires |b| > 0 && forall i :: 0 <= i < |b| ==> !IsJsSpace(b[i])
    ensures Underscored(run + b) == "_" + b
  {
    var s := run + b;
    assert s[0] == run[0] && IsJsSpace(s[0]);
    assert s[1..] == run[1..] + b;
    TrimStartOfRun(run[1..], b);
    assert TrimStart(s[1..]) == b;
    assert Underscored(s) == "_" + Underscored(b);
    UnderscoredKeepsPlain(b);
  }

  /** Between two words, a run of white space becomes a single underscore. */
  lemma UnderscoredRun(a: string, run: string, b: string)
    requires forall i :: 0 <= i < |a| ==> !IsJsSpace(a[i])
    requires |run| > 0 && forall i :: 0 <= i < |run| ==> IsJsSpace(run[i])
    requires |b| > 0 && forall i :: 0 <= i < |b| ==> !IsJsSpace(b[i])
    ensures Underscored(a + run + b) == a + "_" + b
  {
    assert a + run + b == a + (run + b);
    UnderscoredAfterPlain(a, run + b);
    UnderscoredRunThenWord(run, b);
  }

  lemma {:induction false} UnderscoredAfterPlain(a: string, rest: string)
    requires forall i :: 0 <= i < |a| ==> !IsJsSpace(a[i])
    ensures Underscored(a + rest) == a + Underscored(rest)
  {
    if |a| > 0 {
      UnderscoredAfterPlain(a[1..], rest);
      assert (a + rest)[0] == a[0];
      assert (a + rest)[1..] == a[1..] + rest;
      assert [a[0]] + a[1..] == a;
    } else {
      assert a + rest == rest;
    }
  }

  lemma {:induction false} TrimStartOfRun(run: string, b: string)
    requires forall i :: 0 <= i < |run| ==> IsJsSpace(run[i])
    requires |b| > 0 && !IsJsSpace(b[0])
    ensures TrimStart(run + b) == b
  {
    if |run| > 0 {
      TrimStartOfRun(run[1..], b);
      assert (run + b)[0] == run[0];
      assert (run + b)[1..] == run[1..] + b;
    } else {
      assert run + b == b;
    }
  }

  function Filename(title: string): string {
    Underscored(title) + "_responses.csv"
  }

  /**
   * The download name holds no white space and ends in "_responses.csv"; a
   * title without white space is kept whole in front of that suffix.
   */
  lemma FilenameFacts(title: string)
    ensures forall i :: 0 <= i < |Filename(title)| ==> !IsJsSpace(Filename(title)[i])
    ensures |Filename(title)| <= |title| + |"_responses.csv"|
    ensures "_responses.csv" <= Filename(title)[|Filename(title)| - |"_responses.csv"|..]
    ensures (forall i :: 0 <= i < |title| ==> !IsJsSpace(title[i])) ==> Filename(title) == title + "_responses.csv"
  {
    UnderscoredHasNoSpace(title);
    var u := Underscored(title);
    var suffix := "_responses.csv";
    assert forall i :: 0 <= i < |suffix| ==> !IsJsSpace(suffix[i]);
    assert forall i :: |u| <= i < |u + suffix| ==> (u + suffix)[i] == suffix[i - |u|];
    assert (u + suffix)[|u|..] == suffix;
    if forall i :: 0 <= i < |title| ==> !IsJsSpace(title[i]) {
      UnderscoredKeepsPlain(title);
    }
  }

  /** The settings object as the page received it; `undefined` spreads to nothing. */
  type SettingsObject = map<string, Value>

  /** `{ ...form.settings, isActive: checked }`. */
  function ToggleBody(settings: Option<SettingsObject>, checked: bool): (r: SettingsObject)
    ensures r.Keys == settings.GetOr(map[]).Keys + {"isActive"}
    ensures r["isActive"] == Bool(checked)
    ensures forall k :: k in settings.GetOr(map[]) && k != "isActive" ==> r[k] == settings.GetOr(map[])[k]
  {
    settings.GetOr(map[])["isActive" := Bool(checked)]
  }

  datatype ToggleState = ToggleState(isActive: Value, isUpdating: bool)

  /** `settings?.isActive ?? true`. */
  function InitialToggle(settings: Option<SettingsObject>): (st: ToggleState)
    ensures !st.isUpdating
    ensures var m := settings.GetOr(map[]);
      "isActive" in m && !m["isActive"].Null? && !m["isActive"].Undefined? ==> st.isActive == m["isActive"]
    ensures var m := settings.GetOr(map[]);
      "isActive" !in m || m["isActive"].Null? || m["isActive"].Undefined? ==> st.isActive == Bool(true)
  {
    var v := Lookup(settings.GetOr(map[]), "isActive");
    ToggleState(if v.Null? || v.Undefined? then Bool(true) else v, false)
  }

  datatype PatchRequest = PatchRequest(url: string, settings: SettingsObject)

  datatype ToggleResult = ToggleResult(state: ToggleState, request: PatchRequest, message: string)

  /**
   * `handleToggleActive(checked)`: sends the received settings with
   * `isActive` replaced; the switch follows only when the server answers ok
   * (`ok` covers both `res.ok` and the absence of an exception).
   */
  function HandleToggle(formId: string, settings: Option<SettingsObject>, st: ToggleState,
                        checked: bool, ok: bool): (r: ToggleResult)
    ensures r.request == PatchRequest("/api/forms/" + formId, ToggleBody(settings, checked))
    ensures ok ==> r.state.isActive == Bool(checked)
    ensures !ok ==> r.state.isActive == st.isActive
    ensures !r.state.isUpdating
    ensures ok ==> r.message == "Form is now " + (if checked then "Active" else "Inactive") + "."
    ensures !ok ==> r.message == "Failed to update form status."
  {
    var request := PatchRequest("/api/forms/" + formId, ToggleBody(settings, checked));
    if ok then
      ToggleResult(ToggleState(Bool(checked), false), request,
                   "Form is now " + (if checked then "Active" else "Inactive") + ".")
    else ToggleResult(ToggleState(st.isActive, false), request, "Failed to update form status.")
  }

  /** The request never depends on the switch's current state, only on the received settings. */
  lemma ToggleIgnoresLocalState(formId: string, settings: Option<SettingsObject>, st: ToggleState, st': ToggleState,
                                checked: bool, ok: bool)
    ensures HandleToggle(formId, settings, st, checked, ok).request == HandleToggle(formId, settings, st', checked, ok).request
  {
  }
}
