/** The job creation form: the schema, the job data `onSubmit` builds from the form values
    (requirement and responsibility lines split on newlines with blank lines dropped, a salary
    only when both bounds are filled) and the generate-description handler, whose generated
    lists are joined with newlines into the same text fields. */
module CreateJobForm {
  import opened Common
  import opened Strings

  const JobTypes: seq<string> := ["full-time", "part-time", "contract", "remote"]
  const JobStatuses: seq<string> := ["draft", "active", "closed", "on-hold"]

  /** The form's fields. The optional text fields are "" when left empty. */
  datatype JobFormValues = JobFormValues(
    title: string,
    department: string,
    location: string,
    jobType: string,
    status: string,
    description: string,
    requirements: string,
    responsibilities: string,
    salaryMin: string,
    salaryMax: string,
    currency: string)

  /** The form's default values; the currency starts as US dollars. */
  const DefaultValues := JobFormValues("", "", "", "full-time", "draft", "", "", "", "", "", "USD")

  /** The schema: a title of at least three UTF-16 code units, a department and a location, and a
      type and status from their lists. */
  predicate ValidValues(v: JobFormValues) {
    && Utf16Length(v.title) >= 3
    && Utf16Length(v.department) >= 1
    && Utf16Length(v.location) >= 1
    && v.jobType in JobTypes
    && v.status in JobStatuses
  }

  /** The salary the job carries; a bound that `parseInt` cannot read is None (`NaN`). */
  datatype SalaryInput = SalaryInput(min: Option<int>, max: Option<int>, currency: string)

  /** The job data sent to the jobs service. */
  datatype JobPayload = JobPayload(
    title: string,
    department: string,
    location: string,
    jobType: string,
    status: string,
    description: string,
    requirements: Option<seq<string>>,
    responsibilities: Option<seq<string>>,
    salary: Option<SalaryInput>)

  /** A line the lists keep: one that is not whitespace only. */
  predicate Listed(line: string) {
    !IsBlank(line)
  }

  /** A text field read as a list: None for an empty field, otherwise its lines split on
      newlines with whitespace-only lines dropped and the order kept. */
  function Lines(text: string): (r: Option<seq<string>>)
    ensures r.None? <==> text == ""
    ensures r.Some? ==> forall line :: line in r.value <==> line in Split(text, '\n') && Listed(line)
    ensures r.Some? ==> forall i :: 0 <= i < |r.value| ==> !IsBlank(r.value[i]) && '\n' !in r.value[i]
  {
    if text == "" then None else Some(Filter(Split(text, '\n'), Listed))
  }

  /** A list joined with newlines reads back as its non-blank items, in order, provided no
      item holds a newline; only a join that gives the empty text reads back as None. */
  lemma LinesOfJoin(items: seq<string>)
    requires forall i :: 0 <= i < |items| ==> '\n' !in items[i]
    ensures Lines(Join(items, "\n")) == if Join(items, "\n") == "" then None else Some(Filter(items, Listed))
  {
    if items != [] {
      assert "\n" == ['\n'];
      SplitJoin(items, '\n');
    }
  }

  /** In particular a non-empty list of non-blank, newline-free items comes back whole. */
  lemma LinesRecoverItems(items: seq<string>)
    requires |items| >= 1
    requires forall i :: 0 <= i < |items| ==> '\n' !in items[i] && Listed(items[i])
    ensures Lines(Join(items, "\n")) == Some(items)
  {
    LinesOfJoin(items);
    FilterKeepsAll(items, Listed);
    assert Join(items, "\n") != "" by {
      if |items| > 1 {
        assert Join(items, "\n") == items[0] + "\n" + Join(items[1..], "\n");
      }
    }
  }

  /** The salary entry: present only when both bounds are filled, with both read by
      `parseInt` and the form's currency. */
  function SalaryOf(v: JobFormValues): (r: Option<SalaryInput>)
    ensures r.Some? <==> v.salaryMin != "" && v.salaryMax != ""
    ensures r.Some? ==> r.value.currency == v.currency
  {
    if v.salaryMin != "" && v.salaryMax != "" then
      Some(SalaryInput(ParseInt(v.salaryMin), ParseInt(v.salaryMax), v.currency))
    else None
  }

  /** Bounds typed as integers are read back as those integers. */
  lemma SalaryRoundTrip(v: JobFormValues, min: int, max: int)
    requires v.salaryMin == IntToDecimal(min) && v.salaryMax == IntToDecimal(max)
    ensures SalaryOf(v) == Some(SalaryInput(Some(min), Some(max), v.currency))
  {
    ParseIntRoundTrip(min);
    ParseIntRoundTrip(max);
  }

  /** The job data of `onSubmit`. */
  function Payload(v: JobFormValues): (p: JobPayload)
    ensures p.requirements == Lines(v.requirements) && p.responsibilities == Lines(v.responsibilities)
    ensures p.salary == SalaryOf(v)
    ensures p.title == v.title && p.department == v.department && p.location == v.location
    ensures p.jobType == v.jobType && p.status == v.status && p.description == v.description
  {
    JobPayload(v.title, v.department, v.location, v.jobType, v.status, v.description,
      Lines(v.requirements), Lines(v.responsibilities), SalaryOf(v))
  }

  /** What the description generator answers. A list it leaves out is None. */
  datatype Generated = Generated(
    description: string,
    requirements: Option<seq<string>>,
    responsibilities: Option<seq<string>>)

  /** The form after a successful generation: the description replaced, and each list the
      generator returned written into its field one item per line. */
  function Applied(v: JobFormValues, g: Generated): (r: JobFormValues)
    ensures r.description == g.description
    ensures g.requirements.None? ==> r.requirements == v.requirements
    ensures g.requirements.Some? ==> r.requirements == Join(g.requirements.value, "\n")
    ensures g.responsibilities.None? ==> r.responsibilities == v.responsibilities
    ensures g.responsibilities.Some? ==> r.responsibilities == Join(g.responsibilities.value, "\n")
    ensures r.(description := v.description, requirements := v.requirements,
               responsibilities := v.responsibilities) == v
  {
    v.(description := g.description,
       requirements := if g.requirements.Some? then Join(g.requirements.value, "\n") else v.requirements,
       responsibilities :=
         if g.responsibilities.Some? then Join(g.responsibilities.value, "\n") else v.responsibilities)
  }

  /** Generated requirements of non-blank, newline-free lines reach the submitted job as the
      same list. */
  lemma GeneratedRequirementsSubmitted(v: JobFormValues, g: Generated)
    requires g.requirements.Some? && |g.requirements.value| >= 1
    requires forall i :: 0 <= i < |g.requirements.value| ==>
      '\n' !in g.requirements.value[i] && Listed(g.requirements.value[i])
    ensures Payload(Applied(v, g)).requirements == g.requirements
  {
    LinesRecoverItems(g.requirements.value);
  }

  /** The form's state: the values, whether a description is being generated, and whether
      the dialog is open. */
  class JobForm {
    var values: JobFormValues
    var isGenerating: bool
    var open: bool

    constructor(open: bool)
      ensures values == DefaultValues && !isGenerating && this.open == open
    {
      values := DefaultValues;
      isGenerating := false;
      this.open := open;
    }

    /** A change to any field of the form. */
    method SetValues(v: JobFormValues)
      modifies this
      ensures values == v && isGenerating == old(isGenerating) && open == old(open)
    {
      values := v;
    }

    /** `handleGenerateDescription` with the generator's answer as a parameter (None when the
        call fails). An empty title changes nothing; otherwise a failure leaves the values as
        they were, a success applies the answer, and generation is over either way. */
    method GenerateDescription(answer: Option<Generated>)
      modifies this
      ensures old(values.title) == "" ==>
        values == old(values) && isGenerating == old(isGenerating) && open == old(open)
      ensures old(values.title) != "" ==> !isGenerating && open == old(open)
      ensures old(values.title) != "" && answer.None? ==> values == old(values)
      ensures old(values.title) != "" && answer.Some? ==> values == Applied(old(values), answer.value)
    {
      if values.title == "" {
        return;
      }
      isGenerating := true;
      if answer.Some? {
        var g := answer.value;
        values := values.(description := g.description);
        if g.requirements.Some? {
          values := values.(requirements := Join(g.requirements.value, "\n"));
        }
        if g.responsibilities.Some? {
          values := values.(responsibilities := Join(g.responsibilities.value, "\n"));
        }
      }
      isGenerating := false;
    }

    /** `onSubmit`: values the schema rejects send nothing and change nothing. Otherwise the
        job data is sent; when the service accepts it the form is reset and closed, and when
        it fails the form stays as it was. */
    method Submit(serviceFails: bool) returns (sent: Option<JobPayload>)
      modifies this
      ensures !ValidValues(old(values)) ==> sent == None && values == old(values) && open == old(open)
      ensures ValidValues(old(values)) ==> sent == Some(Payload(old(values)))
      ensures ValidValues(old(values)) && !serviceFails ==> values == DefaultValues && !open
      ensures ValidValues(old(values)) && serviceFails ==> values == old(values) && open == old(open)
      ensures isGenerating == old(isGenerating)
    {
      if !ValidValues(values) {
        return None;
      }
      sent := Some(Payload(values));
      if !serviceFails {
        values := DefaultValues;
        open := false;
      }
    }
  }
}
