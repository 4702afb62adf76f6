/**
 * The insert schema of parliamentary proceedings
 * (lib/db/schema/parliamentary-proceedings.ts).
 *
 * A new proceeding needs a title, a date, a summary and the original text,
 * all strings; the date must have the shape YYYY-MM-DD. Keys outside those
 * four (the row's id and timestamps among them) are dropped. The schema
 * reports one issue per field that fails, in the order the fields are
 * declared.
 */
module ProceedingSchema {
  import opened Wrappers
  import opened Text

  /** The parameters of a new proceeding. */
  datatype NewProceeding = NewProceeding(title: string, date: string, summary: string, originalText: string)

  /** A validation issue: the field it is about and its message. */
  datatype Issue = Issue(path: string, message: string)

  const RequiredMessage := "Required"
  const DateMessage := "Date must be in YYYY-MM-DD format"

  /** The keys the schema keeps, in declaration order. */
  const FieldNames: seq<string> := ["title", "date", "summary", "originalText"]

  /** `/^\d{4}-\d{2}-\d{2}$/`: without the `m` flag the anchors match only at
    * the ends of the whole string, so the string is exactly the shape. */
  predicate IsDateFormat(date: string): (b: bool)
    ensures b <==>
      && |date| == 10 && date[4] == '-' && date[7] == '-'
      && forall i :: 0 <= i < 10 && i != 4 && i != 7 ==> '0' <= date[i] <= '9'
  {
    IsYmd(date)
  }

  /** The issue of a required text field, if any. */
  function RequiredIssue(input: map<string, string>, key: string): (r: seq<Issue>)
    ensures r == [] <==> key in input
    ensures r != [] ==> r == [Issue(key, RequiredMessage)]
  {
    if key in input then [] else [Issue(key, RequiredMessage)]
  }

  /** The issue of the date field, if any: missing, or not of the shape. */
  function DateIssue(input: map<string, string>): (r: seq<Issue>)
    ensures r == [] <==> "date" in input && IsDateFormat(input["date"])
    ensures "date" !in input ==> r == [Issue("date", RequiredMessage)]
    ensures "date" in input && !IsDateFormat(input["date"]) ==> r == [Issue("date", DateMessage)]
  {
    if "date" !in input then [Issue("date", RequiredMessage)]
    else if !IsDateFormat(input["date"]) then [Issue("date", DateMessage)]
    else []
  }

  /** `insertProceedingSchema.safeParse`: the four fields, or the issues in
    * field order. */
  function Validate(input: map<string, string>): (r: Result<NewProceeding, seq<Issue>>)
    ensures r.Ok? <==>
      && "title" in input && "date" in input && "summary" in input && "originalText" in input
      && IsDateFormat(input["date"])
    ensures r.Ok? ==>
      r.value == NewProceeding(input["title"], input["date"], input["summary"], input["originalText"])
    ensures r.Err? ==> 1 <= |r.error| <= 4 && forall i :: 0 <= i < |r.error| ==> r.error[i].path in FieldNames
    ensures r.Err? ==>
      forall k :: k in FieldNames ==> (Issue(k, RequiredMessage) in r.error <==> k !in input)
    ensures r.Err? ==>
      (Issue("date", DateMessage) in r.error <==> "date" in input && !IsDateFormat(input["date"]))
  {
    var issues := Issues(input);
    IssuesCover(input);
    IssuesName(input);
    if issues == [] then Ok(NewProceeding(input["title"], input["date"], input["summary"], input["originalText"]))
    else Err(issues)
  }

  /** The issues of the four fields, in declaration order. */
  function Issues(input: map<string, string>): (r: seq<Issue>)
    ensures r == [] <==>
      && "title" in input && "date" in input && "summary" in input && "originalText" in input
      && IsDateFormat(input["date"])
    ensures |r| <= 4 && forall i :: 0 <= i < |r| ==> r[i].path in FieldNames
  {
    RequiredIssue(input, "title") + DateIssue(input) +
    RequiredIssue(input, "summary") + RequiredIssue(input, "originalText")
  }

  /** A missing field is reported as required, and a date of the wrong shape
    * as such. */
  lemma {:induction false} IssuesCover(input: map<string, string>)
    ensures forall k :: k in FieldNames && k !in input ==> Issue(k, RequiredMessage) in Issues(input)
    ensures "date" in input && !IsDateFormat(input["date"]) ==> Issue("date", DateMessage) in Issues(input)
  {
    var r := Issues(input);
    forall k | k in FieldNames && k !in input ensures Issue(k, RequiredMessage) in r {
      if k == "title" { assert r[0] == Issue(k, RequiredMessage); }
      else if k == "date" { assert DateIssue(input) == [Issue(k, RequiredMessage)]; }
      else if k == "summary" { assert RequiredIssue(input, k) == [Issue(k, RequiredMessage)]; }
      else { assert RequiredIssue(input, k) == [Issue(k, RequiredMessage)]; }
    }
    if "date" in input && !IsDateFormat(input["date"]) {
      assert DateIssue(input) == [Issue("date", DateMessage)];
    }
  }

  /** Every issue names a field that is missing, or the date when its shape
    * is wrong. */
  lemma {:induction false} IssuesName(input: map<string, string>)
    ensures forall x :: x in Issues(input) && x.message == RequiredMessage ==> x.path in FieldNames && x.path !in input
    ensures forall x :: x in Issues(input) && x.message != RequiredMessage ==>
      x == Issue("date", DateMessage) && "date" in input && !IsDateFormat(input["date"])
  {
    var t, d, su, o := RequiredIssue(input, "title"), DateIssue(input),
      RequiredIssue(input, "summary"), RequiredIssue(input, "originalText");
    assert Issues(input) == t + d + su + o;
    assert DateMessage != RequiredMessage by { assert DateMessage[0] != RequiredMessage[0]; }
    forall x | x in Issues(input)
      ensures x.message == RequiredMessage ==> x.path in FieldNames && x.path !in input
      ensures x.message != RequiredMessage ==>
        x == Issue("date", DateMessage) && "date" in input && !IsDateFormat(input["date"])
    {
      assert x in t || x in d || x in su || x in o;
    }
  }

  /** Keys other than the four fields do not affect the outcome: in
    * particular an `id`, `createdAt` or `updatedAt` in the input is dropped. */
  lemma {:induction false} OtherKeysIgnored(input: map<string, string>, key: string, value: string)
    requires key !in FieldNames
    ensures Validate(input[key := value]) == Validate(input)
  {
    var extended := input[key := value];
    assert forall k :: k in FieldNames ==> (k in extended <==> k in input);
    assert forall k :: k in FieldNames && k in input ==> extended[k] == input[k];
  }

  /** The shape is checked, the calendar is not: month 13, day 45 passes. */
  lemma {:induction false} CalendarNotChecked(input: map<string, string>)
    requires input == map["title" := "Session", "date" := "2024-13-45", "summary" := "", "originalText" := ""]
    ensures Validate(input).Ok?
    ensures Validate(input).value.date == "2024-13-45"
  {
    assert IsYmd("2024-13-45");
  }
}
