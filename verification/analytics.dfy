/**
 * Response analytics for the choice fields of a form: how often each option
 * was picked, the total number of picks, and the most picked option with its
 * share of the picks.
 */
module Analytics {
  import opened Options
  import opened JsValues
  import opened Seqs
  import opened Sorting
  import opened Rounding

  datatype Field = Field(id: string, labelText: string, kind: string, options: Option<seq<string>>)

  datatype Submission = Submission(answers: Answers)

  /** One bar of a chart: an option and how many submissions picked it. */
  datatype Datum = Datum(name: string, value: nat)

  datatype Summary = Summary(topOption: string, percentage: nat)

  datatype FieldStat = FieldStat(
    fieldId: string,
    labelText: string,
    kind: string,
    data: seq<Datum>,
    total: nat,
    summary: Summary)

  /** Only radio, select and checkbox fields are charted. */
  predicate IsChartable(f: Field) {
    f.kind in ["radio", "select", "checkbox"]
  }

  /** `field.options || []`. */
  function OptionsOf(f: Field): seq<string> {
    f.options.GetOr([])
  }

  /** A submission picked `option`: its answer is that string, or an array containing it. */
  predicate Picked(s: Submission, fieldId: string, option: string) {
    match Lookup(s.answers, fieldId)
    case Arr(items) => option in items
    case Str(a) => a == option
    case _ => false
  }

  /** The per-option count, accumulated over the submissions from left to right as `reduce` does. */
  function CountOption(subs: seq<Submission>, fieldId: string, option: string): (r: nat)
    ensures r <= |subs|
  {
    if |subs| == 0 then 0
    else
      CountOption(subs[..|subs| - 1], fieldId, option)
        + (if Picked(subs[|subs| - 1], fieldId, option) then 1 else 0)
  }

  ghost function Pickers(subs: seq<Submission>, fieldId: string, option: string): set<nat> {
    set i: nat | i < |subs| && Picked(subs[i], fieldId, option)
  }

  /** An option's count is the number of submissions that picked it: each adds at most one. */
  lemma {:induction false} CountIsNumberOfPickers(subs: seq<Submission>, fieldId: string, option: string)
    ensures CountOption(subs, fieldId, option) == |Pickers(subs, fieldId, option)|
  {
    if |subs| > 0 {
      var n := |subs| - 1;
      var p := subs[..n];
      CountIsNumberOfPickers(p, fieldId, option);
      var before := Pickers(p, fieldId, option);
      assert forall i: nat :: i < n ==> subs[i] == p[i];
      if Picked(subs[n], fieldId, option) {
        assert Pickers(subs, fieldId, option) == before + {n};
      } else {
        assert Pickers(subs, fieldId, option) == before;
      }
    }
  }

  function Sum(data: seq<Datum>): nat {
    if |data| == 0 then 0 else data[0].value + Sum(data[1..])
  }

  lemma {:induction false} ValueAtMostSum(data: seq<Datum>, k: nat)
    requires k < |data|
    ensures data[k].value <= Sum(data)
  {
    if k > 0 {
      ValueAtMostSum(data[1..], k - 1);
    }
  }

  /** The comparator `(a, b) => b.value - a.value`: larger counts first. */
  function ByCountDescending(a: Datum, b: Datum): int {
    b.value - a.value
  }

  /** The position of the first option, in option order, with the largest count. */
  function FirstMaxIndex(data: seq<Datum>): (k: nat)
    requires |data| > 0
    ensures k < |data|
    ensures forall j :: 0 <= j < |data| ==> data[j].value <= data[k].value
    ensures forall j :: 0 <= j < k ==> data[j].value < data[k].value
  {
    if |data| == 1 then 0
    else
      var k := FirstMaxIndex(data[..|data| - 1]);
      if data[|data| - 1].value > data[k].value then |data| - 1 else k
  }

  /** The head of the stable descending sort is the first option with the largest count. */
  lemma {:induction false} SortedHeadIsFirstMax(data: seq<Datum>)
    requires |data| > 0
    ensures Sort(data, ByCountDescending)[0] == data[FirstMaxIndex(data)]
  {
    if |data| > 1 {
      var p := data[..|data| - 1];
      SortedHeadIsFirstMax(p);
      assert forall j :: 0 <= j < |p| ==> data[j] == p[j];
    }
  }

  lemma TopFacts(data: seq<Datum>)
    ensures |data| > 0 ==> Sort(data, ByCountDescending)[0] == data[FirstMaxIndex(data)]
    ensures |data| > 0 ==> data[FirstMaxIndex(data)].value <= Sum(data)
  {
    if |data| > 0 {
      SortedHeadIsFirstMax(data);
      ValueAtMostSum(data, FirstMaxIndex(data));
    }
  }

  /** The statistics of one chartable field. */
  function FieldStats(f: Field, subs: seq<Submission>): (r: FieldStat)
    ensures r.fieldId == f.id && r.labelText == f.labelText && r.kind == f.kind
    ensures |r.data| == |OptionsOf(f)|
    ensures forall i :: 0 <= i < |r.data| ==>
      r.data[i].name == OptionsOf(f)[i] && r.data[i].value == CountOption(subs, f.id, OptionsOf(f)[i])
    ensures r.total == Sum(r.data)
    ensures |r.data| == 0 ==> r.summary == Summary("N/A", 0)
    ensures |r.data| > 0 ==> r.summary.topOption == r.data[FirstMaxIndex(r.data)].name
    ensures r.total == 0 ==> r.summary.percentage == 0
    ensures r.total > 0 ==>
      r.summary.percentage == RoundPercent(r.data[FirstMaxIndex(r.data)].value, r.total)
    ensures r.summary.percentage <= 100
  {
    var options := OptionsOf(f);
    var data := seq(|options|, i requires 0 <= i < |options| => Datum(options[i], CountOption(subs, f.id, options[i])));
    var total := Sum(data);
    var sorted := Sort(data, ByCountDescending);
    var top := if |sorted| > 0 then sorted[0] else Datum("N/A", 0);
    TopFacts(data);
    var percentage := if total > 0 then RoundPercent(top.value, total) else 0;
    FieldStat(f.id, f.labelText, f.kind, data, total, Summary(top.name, percentage))
  }

  /** `processSubmissions`: one entry per chartable field, in field order. */
  function ProcessSubmissions(fields: seq<Field>, subs: seq<Submission>): (r: seq<FieldStat>)
    ensures |r| == |Filter(fields, IsChartable)|
    ensures forall i :: 0 <= i < |r| ==> r[i] == FieldStats(Filter(fields, IsChartable)[i], subs)
  {
    var charted := Filter(fields, IsChartable);
    seq(|charted|, i requires 0 <= i < |charted| => FieldStats(charted[i], subs))
  }

  /** The charted fields are exactly the radio, select and checkbox fields, in their original order. */
  lemma ChartedFields(fields: seq<Field>, subs: seq<Submission>)
    ensures IsSubsequence(Filter(fields, IsChartable), fields)
    ensures forall i :: 0 <= i < |ProcessSubmissions(fields, subs)| ==>
      ProcessSubmissions(fields, subs)[i].kind in ["radio", "select", "checkbox"]
    ensures forall i :: 0 <= i < |fields| && IsChartable(fields[i]) ==> fields[i] in Filter(fields, IsChartable)
  {
    FilterIsSubsequence(fields, IsChartable);
  }
}
