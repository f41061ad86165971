/** The interview scheduling dialog: the schema its values must pass, the initials it
    derives from names, the interviewer list `handleSubmit` builds by conditional pushes
    and the interview it hands to the page. */
module ScheduleInterviewDialog {
  import opened Common
  import opened Strings
  import opened Types
  import CandidatesPage

  /** `getInitials(name)`: for a name with a space, the first characters of the first and
      last words, as written (an empty word contributes `undefined`); for one word, its
      first two characters upper-cased. */
  function GetInitials(name: string): string {
    var parts := Split(name, ' ');
    if |parts| > 1 then FirstLetter(parts[0]) + FirstLetter(parts[|parts| - 1])
    else ToUpper(Take(name, 2))
  }

  /** A name of several non-empty words separated by single spaces gets the first letters of
      its first and last words, in their own case. */
  lemma {:induction false} GetInitialsOfWords(words: seq<string>)
    requires |words| >= 2
    requires forall i :: 0 <= i < |words| ==> words[i] != [] && ' ' !in words[i]
    ensures GetInitials(Join(words, " ")) == [words[0][0], words[|words| - 1][0]]
  {
    SplitJoinedWords(words);
    GetInitialsOfSplit(Join(words, " "), words);
  }

  /** The initials of a name read off its pieces when it splits into several non-empty ones. */
  lemma GetInitialsOfSplit(name: string, words: seq<string>)
    requires Split(name, ' ') == words && |words| >= 2
    requires words[0] != [] && words[|words| - 1] != []
    ensures GetInitials(name) == [words[0][0], words[|words| - 1][0]]
  {
  }

  /** A one-word name gets its first two characters upper-cased (fewer if it is shorter). */
  lemma {:induction false} GetInitialsOfOneWord(name: string)
    requires ' ' !in name
    ensures GetInitials(name) == ToUpper(Take(name, 2))
    ensures |GetInitials(name)| == if |name| < 2 then |name| else 2
  {
    SplitJoin([name], ' ');
    assert Join([name], " ") == name;
  }

  /** The candidates page derives initials by the same split but upper-cases both cases, so
      its initials are exactly these upper-cased; the two agree on any name whose first and
      last words start with a capital or a non-letter. */
  lemma SameInitialsUpToCase(name: string)
    ensures CandidatesPage.Initials(name) == ToUpper(GetInitials(name))
  {
    if |Split(name, ' ')| <= 1 {
      ToUpperIdempotent(Take(name, 2));
    }
  }

  /** The form's fields. `interviewDate` is the picked day already formatted as the page shows
      it, or None while no day is picked; the optional interviewers are "" when left blank. */
  datatype ScheduleValues = ScheduleValues(
    candidateName: string,
    candidatePosition: string,
    interviewType: string,
    interviewDate: Option<string>,
    startTime: string,
    endTime: string,
    interviewer1: string,
    interviewer2: string,
    interviewer3: string)

  /** The form's default values. */
  const DefaultValues := ScheduleValues("", "", "technical", None, "", "", "", "", "")

  /** The schema: a candidate name and position of at least two UTF-16 code units, a known interview
      type, a picked date, non-empty start and end times and a first interviewer of at least
      two UTF-16 code units (what `length` counts). */
  predicate ValidValues(v: ScheduleValues) {
    && Utf16Length(v.candidateName) >= 2
    && Utf16Length(v.candidatePosition) >= 2
    && v.interviewType in InterviewTypes
    && v.interviewDate.Some?
    && Utf16Length(v.startTime) >= 1
    && Utf16Length(v.endTime) >= 1
    && Utf16Length(v.interviewer1) >= 2
  }

  /** An interviewer entry: the name and its initials. */
  function Entry(name: string): Person {
    Person(name, GetInitials(name))
  }

  /** How many interviewers the form names: the first, and each optional one that is filled. */
  function InterviewerCount(v: ScheduleValues): nat {
    1 + (if v.interviewer2 != "" then 1 else 0) + (if v.interviewer3 != "" then 1 else 0)
  }

  /** `r` is the interviewer list of `v`: the first interviewer leads, the second follows it
      when filled, the third closes the list when filled, and nothing else is in it. */
  predicate ListsInterviewers(v: ScheduleValues, r: seq<Person>) {
    && |r| == InterviewerCount(v)
    && r[0] == Entry(v.interviewer1)
    && (v.interviewer2 != "" ==> r[1] == Entry(v.interviewer2))
    && (v.interviewer3 != "" ==> r[|r| - 1] == Entry(v.interviewer3))
  }

  /** `ListsInterviewers` pins the list down: one to three entries, each an interviewer of the
      form with its own initials, and no two lists fit it. */
  lemma {:induction false} InterviewersDetermined(v: ScheduleValues, r1: seq<Person>, r2: seq<Person>)
    requires ListsInterviewers(v, r1) && ListsInterviewers(v, r2)
    ensures 1 <= |r1| <= 3
    ensures forall p :: p in r1 ==>
      p.initials == GetInitials(p.name) &&
      (p.name == v.interviewer1 || (p.name == v.interviewer2 != "") || (p.name == v.interviewer3 != ""))
    ensures r1 == r2
  {
    var n := |r1|;
    assert n == 1 ==> r1 == [r1[0]];
    assert n == 2 ==> r1 == [r1[0], r1[1]];
    assert n == 3 ==> r1 == [r1[0], r1[1], r1[2]];
    assert n == 1 ==> r2 == [r2[0]];
    assert n == 2 ==> r2 == [r2[0], r2[1]];
    assert n == 3 ==> r2 == [r2[0], r2[1], r2[2]];
  }

  /** The interviewer list of `handleSubmit`: a one-element list, then a push for each
      optional interviewer that is filled. */
  method BuildInterviewers(v: ScheduleValues) returns (interviewers: seq<Person>)
    ensures ListsInterviewers(v, interviewers)
  {
    interviewers := [Entry(v.interviewer1)];
    if v.interviewer2 != "" {
      interviewers := interviewers + [Entry(v.interviewer2)];
    }
    if v.interviewer3 != "" {
      interviewers := interviewers + [Entry(v.interviewer3)];
    }
  }

  /** What the dialog hands to the page for values `v`: the candidate with initials, the
      interviewer list, the formatted date, the time span written `start - end`, the type,
      and the status `scheduled`. */
  predicate SchedulesAs(v: ScheduleValues, data: InterviewData)
    requires v.interviewDate.Some?
  {
    && data.candidate == InterviewCandidate(v.candidateName, v.candidatePosition, GetInitials(v.candidateName))
    && ListsInterviewers(v, data.interviewers)
    && data.date == v.interviewDate.value
    && data.time == v.startTime + " - " + v.endTime
    && data.interviewType == v.interviewType
    && data.status == "scheduled"
  }

  /** The dialog's form: the values being edited and whether it is open. */
  class ScheduleDialog {
    var values: ScheduleValues
    var open: bool

    constructor(open: bool)
      ensures values == DefaultValues && this.open == open
    {
      values := DefaultValues;
      this.open := open;
    }

    /** A change to any field of the form. */
    method SetValues(v: ScheduleValues)
      modifies this
      ensures values == v && open == old(open)
    {
      values := v;
    }

    /** Submitting: values the schema rejects send nothing and change nothing; otherwise
        `handleSubmit` hands the interview to the page, closes the dialog and resets the form. */
    method Submit() returns (sent: Option<InterviewData>)
      modifies this
      ensures !ValidValues(old(values)) ==> sent == None && values == old(values) && open == old(open)
      ensures ValidValues(old(values)) ==>
        sent.Some? && SchedulesAs(old(values), sent.value) &&
        values == DefaultValues && !open
    {
      if !ValidValues(values) {
        return None;
      }
      var v := values;
      var interviewers := BuildInterviewers(v);
      sent := Some(InterviewData(
        InterviewCandidate(v.candidateName, v.candidatePosition, GetInitials(v.candidateName)),
        interviewers,
        v.interviewDate.value,
        v.startTime + " - " + v.endTime,
        v.interviewType,
        "scheduled"));
      open := false;
      values := DefaultValues;
    }
  }
}
