/**
 * The analytics page's CSV export: one flat row per submission, holding
 * four metadata columns and one column per field label, each answer
 * normalised for the spreadsheet; and the download's file name.
 *
 * The rows are what is handed to the CSV serialiser; the serialiser's own
 * output is not modelled.
 */
module CsvExport {
  import opened Options
  import opened JsValues
  import opened Strings
  import opened Seqs

  datatype Field = Field(id: string, labelText: string, kind: string)

  datatype Place = Place(city: Option<string>, country: Option<string>)

  datatype Metadata = Metadata(device: Option<string>, location: Option<Place>)

  datatype Submission = Submission(submittedAt: int, metadata: Option<Metadata>, answers: Answers)

  const NotAvailable: string := "N/A"

  const MetaColumns: seq<string> := ["Submission Time", "Device", "Location (City)", "Location (Country)"]

  /** A row object: its properties in insertion order. */
  type Row = seq<(string, Value)>

  function Keys(row: Row): (r: seq<string>)
    ensures |r| == |row|
  {
    if |row| == 0 then [] else [row[0].0] + Keys(row[1..])
  }

  /** `row[key]`. */
  function Get(row: Row, key: string): Option<Value> {
    if |row| == 0 then None
    else if row[0].0 == key then Some(row[0].1)
    else Get(row[1..], key)
  }

  /** `row[key] = v`: an existing property keeps its place and takes the new value; a new one goes last. */
  function Assign(row: Row, key: string, v: Value): Row {
    if |row| == 0 then [(key, v)]
    else if row[0].0 == key then [(key, v)] + row[1..]
    else [row[0]] + Assign(row[1..], key, v)
  }

  /** Assigning keeps the property order and appends a new key at the end. */
  lemma {:induction false} AssignKeys(row: Row, key: string, v: Value)
    ensures Keys(Assign(row, key, v)) == if key in Keys(row) then Keys(row) else Keys(row) + [key]
  {
    if |row| > 0 {
      var rest := Assign(row[1..], key, v);
      if row[0].0 != key {
        AssignKeys(row[1..], key, v);
        assert ([row[0]] + rest)[1..] == rest;
      } else {
        assert ([(key, v)] + row[1..])[1..] == row[1..];
      }
    }
  }

  lemma {:induction false} AssignGet(row: Row, key: string, v: Value, other: string)
    ensures Get(Assign(row, key, v), key) == Some(v)
    ensures other != key ==> Get(Assign(row, key, v), other) == Get(row, other)
  {
    if |row| > 0 && row[0].0 != key {
      AssignGet(row[1..], key, v, other);
    }
  }

  /** The metadata columns of a row, before any answer is added. */
  function MetaRow(s: Submission, formatTime: int -> string): Row {
    var m := s.metadata.GetOr(Metadata(None, None));
    var place := m.location.GetOr(Place(None, None));
    [ ("Submission Time", Str(formatTime(s.submittedAt))),
      ("Device", Str(OrElse(m.device, "Unknown"))),
      ("Location (City)", Str(OrElse(place.city, NotAvailable))),
      ("Location (Country)", Str(OrElse(place.country, NotAvailable))) ]
  }

  lemma MetaRowKeys(s: Submission, formatTime: int -> string)
    ensures Keys(MetaRow(s, formatTime)) == MetaColumns
  {
    var r := MetaRow(s, formatTime);
    assert Keys(r[4..]) == [];
    assert Keys(r[3..]) == [r[3].0] + Keys(r[4..]);
    assert Keys(r[2..]) == [r[2].0] + Keys(r[3..]);
    assert Keys(r[1..]) == [r[1].0] + Keys(r[2..]);
  }

  /** The cell an answer becomes, by field type. */
  function Normalize(kind: string, v: Value): (r: Value)
    ensures !r.Null? && !r.Undefined?
    ensures r == Str("") ==> v.Arr? && kind != "location" && kind != "file"
    ensures kind == "location" && Truthy(v) && IsObject(v) ==>
      r == Str(if v.Obj? then OrElse(v.address, NotAvailable) else NotAvailable)
    ensures kind == "file" && Truthy(v) ==> r == v
    ensures (v.Null? || v.Undefined? || v == Str("")) ==> r == Str(NotAvailable)
  {
    if kind == "location" && Truthy(v) && IsObject(v) then
      Str(if v.Obj? then OrElse(v.address, NotAvailable) else NotAvailable)
    else if kind == "file" && Truthy(v) then v
    else if v.Arr? then Str(Join(v.items, ", "))
    else if v.Null? || v.Undefined? || v == Str("") then Str(NotAvailable)
    else v
  }

  /** A scalar that is not blank, such as `0` or `false`, passes through unchanged for every non-location type. */
  lemma ScalarsPassThrough(kind: string, v: Value)
    requires kind != "location"
    requires v.Str? || v.Num? || v.Bool?
    requires v != Str("")
    ensures Normalize(kind, v) == v
  {
  }

  /** An array answer to a field other than a file or location becomes its items joined by ", ". */
  lemma ArraysAreJoined(kind: string, items: seq<string>)
    requires kind != "location" && kind != "file"
    ensures Normalize(kind, Arr(items)) == Str(Join(items, ", "))
  {
  }

  function Labels(fields: seq<Field>): (r: seq<string>)
    ensures |r| == |fields| && forall i :: 0 <= i < |fields| ==> r[i] == fields[i].labelText
  {
    seq(|fields|, i requires 0 <= i < |fields| => fields[i].labelText)
  }

  lemma LabelsSnoc(fields: seq<Field>)
    requires |fields| > 0
    ensures MetaColumns + Labels(fields) ==
      (MetaColumns + Labels(fields[..|fields| - 1])) + [fields[|fields| - 1].labelText]
  {
    assert Labels(fields) == Labels(fields[..|fields| - 1]) + [fields[|fields| - 1].labelText];
  }

  /** The row of one submission: the metadata, then one assignment per field, in field order. */
  function BuildRow(s: Submission, fields: seq<Field>, formatTime: int -> string): Row {
    if |fields| == 0 then MetaRow(s, formatTime)
    else
      var n := |fields| - 1;
      var f := fields[n];
      Assign(BuildRow(s, fields[..n], formatTime), f.labelText, Normalize(f.kind, Lookup(s.answers, f.id)))
  }

  /**
   * The columns of a row are the four metadata columns followed by the
   * labels, each name once, at its first occurrence.
   */
  lemma {:induction false} RowColumns(s: Submission, fields: seq<Field>, formatTime: int -> string)
    ensures Keys(BuildRow(s, fields, formatTime)) == Dedup(MetaColumns + Labels(fields))
  {
    if |fields| == 0 {
      assert MetaColumns + Labels(fields) == MetaColumns;
      DedupDistinct(MetaColumns);
      MetaRowKeys(s, formatTime);
    } else {
      var n := |fields| - 1;
      var f := fields[n];
      var prefix := fields[..n];
      RowColumns(s, prefix, formatTime);
      AssignKeys(BuildRow(s, prefix, formatTime), f.labelText, Normalize(f.kind, Lookup(s.answers, f.id)));
      LabelsSnoc(fields);
      DedupSnoc(MetaColumns + Labels(prefix), f.labelText);
    }
  }

  /** A label's column holds the normalised answer of the last field with that label. */
  lemma {:induction false} LabelColumnValue(s: Submission, fields: seq<Field>, formatTime: int -> string, i: int)
    requires 0 <= i < |fields|
    requires forall j :: i < j < |fields| ==> fields[j].labelText != fields[i].labelText
    ensures Get(BuildRow(s, fields, formatTime), fields[i].labelText) ==
      Some(Normalize(fields[i].kind, Lookup(s.answers, fields[i].id)))
  {
    var n := |fields| - 1;
    var f := fields[n];
    var prefix := fields[..n];
    var v := Normalize(f.kind, Lookup(s.answers, f.id));
    AssignGet(BuildRow(s, prefix, formatTime), f.labelText, v, fields[i].labelText);
    if i < n {
      LabelColumnValue(s, prefix, formatTime, i);
    }
  }

  /** A metadata column that no label reuses keeps its metadata value. */
  lemma {:induction false} MetaColumnValue(s: Submission, fields: seq<Field>, formatTime: int -> string, key: string)
    requires key in MetaColumns
    requires forall j :: 0 <= j < |fields| ==> fields[j].labelText != key
    ensures Get(BuildRow(s, fields, formatTime), key) == Get(MetaRow(s, formatTime), key)
  {
    if |fields| > 0 {
      var n := |fields| - 1;
      var f := fields[n];
      MetaColumnValue(s, fields[..n], formatTime, key);
      AssignGet(BuildRow(s, fields[..n], formatTime), f.labelText, Normalize(f.kind, Lookup(s.answers, f.id)), key);
    }
  }

  /** The metadata defaults: an unknown device, and N/A for a missing city or country. */
  lemma MetaDefaults(s: Submission, formatTime: int -> string)
    requires s.metadata.None?
    ensures Get(MetaRow(s, formatTime), "Device") == Some(Str("Unknown"))
    ensures Get(MetaRow(s, formatTime), "Location (City)") == Some(Str(NotAvailable))
    ensures Get(MetaRow(s, formatTime), "Location (Country)") == Some(Str(NotAvailable))
  {
    var r := MetaRow(s, formatTime);
    assert Get(r[1..], "Location (City)") == Get(r[2..], "Location (City)");
    assert Get(r[2..], "Location (Country)") == Get(r[3..], "Location (Country)");
  }

  predicate IsAsciiAlnum(c: char) {
    ('a' <= c <= 'z') || ('A' <= c <= 'Z') || ('0' <= c <= '9')
  }

  /** The number of UTF-16 code units a character takes. */
  function Utf16Units(c: char): nat {
    if c as int > 0xFFFF then 2 else 1
  }

  function Utf16Length(s: string): nat {
    if |s| == 0 then 0 else Utf16Units(s[0]) + Utf16Length(s[1..])
  }

  /**
   * `title.replace(/[^a-z0-9]/gi, '_')`: the pattern works on UTF-16 code
   * units, so a character outside the Basic Multilingual Plane becomes two
   * underscores.
   */
  function SafeTitle(title: string): (r: string)
    ensures forall i :: 0 <= i < |r| ==> IsAsciiAlnum(r[i]) || r[i] == '_'
  {
    if |title| == 0 then ""
    else
      var c := title[0];
      (if IsAsciiAlnum(c) then [c] else if Utf16Units(c) == 2 then "__" else "_") + SafeTitle(title[1..])
  }

  /** The replacement keeps the title's length in code units, and in characters when no character is astral. */
  lemma {:induction false} SafeTitleKeepsLength(title: string)
    ensures Utf16Length(SafeTitle(title)) == Utf16Length(title)
    ensures (forall i :: 0 <= i < |title| ==> Utf16Units(title[i]) == 1) ==> |SafeTitle(title)| == |title|
  {
    if |title| > 0 {
      SafeTitleKeepsLength(title[1..]);
      var c := title[0];
      var head: string := if IsAsciiAlnum(c) then [c] else if Utf16Units(c) == 2 then "__" else "_";
      Utf16LengthAppend(head, SafeTitle(title[1..]));
      if forall i :: 0 <= i < |title| ==> Utf16Units(title[i]) == 1 {
        assert forall i :: 0 <= i < |title| - 1 ==> title[1..][i] == title[i + 1];
      }
    }
  }

  /**
   * With no astral character, the replacement works in place: a letter or
   * digit stays where it is and every other character becomes '_'.
   */
  lemma {:induction false} SafeTitleAt(title: string, i: int)
    requires forall j :: 0 <= j < |title| ==> Utf16Units(title[j]) == 1
    requires 0 <= i < |title|
    ensures |SafeTitle(title)| == |title|
    ensures SafeTitle(title)[i] == if IsAsciiAlnum(title[i]) then title[i] else '_'
  {
    SafeTitleKeepsLength(title);
    if i > 0 {
      assert forall j :: 0 <= j < |title| - 1 ==> title[1..][j] == title[j + 1];
      SafeTitleAt(title[1..], i - 1);
    }
  }

  lemma {:induction false} Utf16LengthAppend(a: string, b: string)
    ensures Utf16Length(a + b) == Utf16Length(a) + Utf16Length(b)
  {
    if |a| > 0 {
      Utf16LengthAppend(a[1..], b);
      assert (a + b)[1..] == a[1..] + b;
    } else {
      assert a + b == b;
    }
  }

  /** A title of letters and digits only is used unchanged. */
  lemma {:induction false} SafeTitleKeepsAlnum(title: string)
    requires forall i :: 0 <= i < |title| ==> IsAsciiAlnum(title[i])
    ensures SafeTitle(title) == title
  {
    if |title| > 0 {
      SafeTitleKeepsAlnum(title[1..]);
      assert [title[0]] + title[1..] == title;
    }
  }

  datatype Export = Export(rows: seq<Row>, filename: string)

  /**
   * `handleExport`, up to the serialiser: nothing without submissions;
   * otherwise one row per submission, in order, and the file name built
   * from the title and today's date (`today`, already formatted).
   */
  function HandleExport(title: string, fields: seq<Field>, subs: seq<Submission>,
                        formatTime: int -> string, today: string): (r: Option<Export>)
    ensures r.None? <==> |subs| == 0
    ensures r.Some? ==> |r.value.rows| == |subs|
    ensures r.Some? ==> forall i :: 0 <= i < |subs| ==> r.value.rows[i] == BuildRow(subs[i], fields, formatTime)
    ensures r.Some? ==> r.value.filename == SafeTitle(title) + "_responses_" + today + ".csv"
  {
    if |subs| == 0 then None
    else
      Some(Export(
        seq(|subs|, i requires 0 <= i < |subs| => BuildRow(subs[i], fields, formatTime)),
        SafeTitle(title) + "_responses_" + today + ".csv"))
  }
}
