/**
 * The responses table: a "Submitted At" column, then one column per field;
 * one row per submission, with a placeholder for every empty answer.
 */
module SubmissionsTable {
  import opened JsValues
  import opened Strings
  import CsvExport
  import ResponseCsv

  type Field = CsvExport.Field

  /** A submission as the page receives it: id, time and answers, as the responses header reads it. */
  type Submission = ResponseCsv.Submission

  /** What one answer cell shows: the display value, or the "Not provided" placeholder. */
  datatype Cell = Provided(shown: Value) | NotProvided

  /** The submission time as date-fns formats it, which is a parameter. */
  type DateFormat = int -> string

  datatype Row = Row(key: string, date: string, cells: seq<Cell>)

  datatype View =
    | EmptyState
    | Table(columns: seq<string>, rows: seq<Row>)

  /** An array answer joined with ", "; anything else as it is. */
  function DisplayValue(v: Value): Value {
    if v.Arr? then Str(Join(v.items, ", ")) else v
  }

  function CellOf(s: Submission, f: Field): Cell {
    var d := DisplayValue(Lookup(s.answers, f.id));
    if Truthy(d) then Provided(d) else NotProvided
  }

  function RowOf(s: Submission, fields: seq<Field>, format: DateFormat): (r: Row)
    ensures r.key == s.id && r.date == format(s.submittedAt)
    ensures |r.cells| == |fields|
    ensures forall j :: 0 <= j < |fields| ==> r.cells[j] == CellOf(s, fields[j])
  {
    Row(s.id, format(s.submittedAt), seq(|fields|, j requires 0 <= j < |fields| => CellOf(s, fields[j])))
  }

  /** The table for a form's fields and its submissions. */
  function Render(fields: seq<Field>, subs: seq<Submission>, format: DateFormat): (v: View)
    ensures |subs| == 0 <==> v.EmptyState?
    ensures v.Table? ==>
      && |v.columns| == |fields| + 1
      && v.columns == ["Submitted At"] + CsvExport.Labels(fields)
    ensures v.Table? ==>
      && |v.rows| == |subs|
      && forall i :: 0 <= i < |subs| ==> v.rows[i] == RowOf(subs[i], fields, format)
  {
    if |subs| == 0 then EmptyState
    else
      Table(["Submitted At"] + CsvExport.Labels(fields),
            seq(|subs|, i requires 0 <= i < |subs| => RowOf(subs[i], fields, format)))
  }

  /** The values shown as "Not provided", named case by case. */
  predicate LooksEmpty(v: Value) {
    match v
    case Undefined => true
    case Null => true
    case Str(s) => s == ""
    case Num(n) => n == 0
    case Bool(b) => !b
    case Arr(items) => |items| == 0 || (|items| == 1 && items[0] == "")
    case DateV(_) => false
    case Obj(_) => false
  }

  /**
   * A cell shows the placeholder exactly for a missing, null, empty, zero or
   * false answer, or an array whose join is empty (no items, or a single
   * empty one); every other answer is shown as its display value.
   */
  lemma NotProvidedIff(s: Submission, f: Field)
    ensures CellOf(s, f) == NotProvided <==> LooksEmpty(Lookup(s.answers, f.id))
    ensures CellOf(s, f).Provided? ==> CellOf(s, f).shown == DisplayValue(Lookup(s.answers, f.id))
  {
    var v := Lookup(s.answers, f.id);
    if v.Arr? {
      JoinEmptyIff(v.items, ", ");
    }
  }

  /** A field the submission did not answer shows the placeholder. */
  lemma MissingAnswerNotProvided(s: Submission, f: Field)
    requires f.id !in s.answers
    ensures CellOf(s, f) == NotProvided
  {
  }

  /** A checkbox answer with two or more choices is always shown, as the choices joined by ", ". */
  lemma SeveralChoicesShown(s: Submission, f: Field)
    requires Lookup(s.answers, f.id).Arr? && |Lookup(s.answers, f.id).items| >= 2
    ensures CellOf(s, f) == Provided(Str(Join(Lookup(s.answers, f.id).items, ", ")))
  {
    NotProvidedIff(s, f);
  }
}
