/** The candidate form: its skills and ratings, its experience list, and the data it hands
    to the candidates page on submit. */
module CreateCandidateForm {
  import opened Common
  import opened Types
  import Strings

  /** One entry of the experience list. */
  datatype Experience = Experience(id: string, company: string, position: string, duration: string, description: string)

  /** The experience being typed in. */
  datatype ExperienceDraft = ExperienceDraft(company: string, position: string, duration: string, description: string)

  const BlankDraft := ExperienceDraft("", "", "", "")

  /** The draft can be added: company, position and duration are filled in. */
  predicate Complete(d: ExperienceDraft) {
    d.company != "" && d.position != "" && d.duration != ""
  }

  /** The form's field values. */
  datatype FormValues = FormValues(
    name: string, email: string, phone: string, position: string, status: string,
    education: string, resume: string, overallRating: int)

  /** `x || d` on a string: the empty string is falsy. */
  function OrElse(s: string, d: string): string {
    if s == "" then d else s
  }

  /** The default values: the edited candidate's fields, or blanks, with status `new`,
      the first education entry and an overall rating of 3. */
  function Defaults(initial: Option<CandidateData>): (v: FormValues)
    ensures initial.None? ==> v == FormValues("", "", "", "", "new", "", "", 3)
    ensures initial.Some? ==> v.name == initial.value.name && v.email == initial.value.email
    ensures initial.Some? ==> v.position == initial.value.position
    ensures initial.Some? ==> v.status == if initial.value.status == "" then "new" else initial.value.status
    ensures v.overallRating == 3
  {
    match initial
    case None => FormValues("", "", "", "", "new", "", "", 3)
    case Some(d) =>
      FormValues(
        OrElse(d.name, ""), OrElse(d.email, ""), OrElse(d.phone.GetOr(""), ""), OrElse(d.position, ""),
        OrElse(d.status, "new"),
        OrElse(if d.education.Some? && |d.education.value| > 0 then d.education.value[0] else "", ""),
        OrElse(d.resume.GetOr(""), ""), 3)
  }

  /** The schema bounds that can be stated without the email pattern: name and position of
      at least two UTF-16 code units, a listed status and an overall rating in 1..5. */
  predicate ValidValues(v: FormValues) {
    Strings.Utf16Length(v.name) >= 2 && Strings.Utf16Length(v.position) >= 2 && v.status in CandidateStatuses && 1 <= v.overallRating <= 5
  }

  /** The data `handleSubmit` passes on: education as a one-element list unless it is empty,
      and the number of experience entries unless there are none. */
  function Submission(v: FormValues, experiences: seq<Experience>): (d: CandidateData)
    ensures d.name == v.name && d.email == v.email && d.position == v.position && d.status == v.status
    ensures d.phone == Some(v.phone) && d.resume == Some(v.resume)
    ensures d.education.None? <==> v.education == ""
    ensures d.education.Some? ==> d.education.value == [v.education]
    ensures d.experience.None? <==> experiences == []
    ensures d.experience.Some? ==> d.experience.value == |experiences| && d.experience.value > 0
  {
    CandidateData(
      v.name, v.email, v.position, v.status, Some(v.phone),
      if v.education != "" then Some([v.education]) else None,
      Some(v.resume),
      if |experiences| > 0 then Some(|experiences|) else None)
  }

  /** Editing a candidate and submitting unchanged values keeps its name, email, position,
      status and first education entry, but drops its experience count (the edit form starts
      with no experience entries) and any further education entries. */
  lemma EditRoundTrip(d: CandidateData, e: string, rest: seq<string>)
    requires d.status != "" && d.education == Some([e] + rest) && e != ""
    ensures
      var back := Submission(Defaults(Some(d)), []);
      back.name == d.name && back.email == d.email && back.position == d.position &&
      back.status == d.status && back.education == Some([e]) && back.experience == None
  {
  }

  /** The parsed resume's skills, each rated 3. */
  const ResumeSkills: seq<string> := ["JavaScript", "React", "Node.js", "TypeScript", "MongoDB"]

  const ResumeExperiences: seq<Experience> := [
    Experience("1", "Tech Solutions Inc.", "Software Engineer", "2018-2021",
      "Developed full-stack applications using React and Node.js"),
    Experience("2", "Innovation Labs", "Junior Developer", "2016-2018",
      "Worked on front-end development with HTML, CSS and JavaScript")
  ]

  const ResumeValues := FormValues(
    "John Smith", "john.smith@example.com", "+1 (555) 123-4567", "Senior Software Engineer", "new",
    "Master's in Computer Science, Stanford University", "", 3)

  /** Every skill rated `rating`, as the resume fill builds its ratings. */
  function RateAll(skills: seq<string>, rating: int): (m: map<string, int>)
    ensures m.Keys == AsSet(skills)
    ensures forall s :: s in m ==> m[s] == rating
  {
    map s | s in skills :: rating
  }

  predicate HasOtherExperienceId(id: string, e: Experience) {
    e.id != id
  }

  /** The form's local state, and whether the dialog holding it is open. */
  class CandidateForm {
    var values: FormValues
    var open: bool
    const defaults: FormValues
    var skillInput: string
    var skills: seq<string>
    var skillRatings: map<string, int>
    var overallRating: int
    var experiences: seq<Experience>
    var newExperience: ExperienceDraft

    /** The skill list holds each skill once, the ratings are keyed by exactly the listed
        skills, and every rating is on the 1..5 scale. */
    ghost predicate Valid()
      reads this
    {
      NoDuplicates(skills) && skillRatings.Keys == AsSet(skills) &&
      (forall s :: s in skillRatings ==> 1 <= skillRatings[s] <= 5)
    }

    /** The form opens on its defaults with no skills, no experiences and a blank draft. */
    constructor(initial: Option<CandidateData>, open: bool)
      ensures values == Defaults(initial) && defaults == values && this.open == open
      ensures skillInput == "" && skills == [] && skillRatings == map[] && overallRating == 3
      ensures experiences == [] && newExperience == BlankDraft
      ensures Valid()
    {
      values := Defaults(initial);
      this.open := open;
      defaults := Defaults(initial);
      skillInput := "";
      skills := [];
      skillRatings := map[];
      overallRating := 3;
      experiences := [];
      newExperience := BlankDraft;
    }

    /** Typing into the form's fields. */
    method SetValues(v: FormValues)
      modifies this
      ensures values == v && open == old(open)
      ensures skillInput == old(skillInput) && skills == old(skills) && skillRatings == old(skillRatings)
      ensures overallRating == old(overallRating) && experiences == old(experiences)
      ensures newExperience == old(newExperience)
    {
      values := v;
    }

    /** Typing into the skill box. */
    method SetSkillInput(s: string)
      modifies this
      ensures skillInput == s
      ensures values == old(values) && skills == old(skills) && skillRatings == old(skillRatings)
      ensures overallRating == old(overallRating) && experiences == old(experiences)
      ensures newExperience == old(newExperience)
      ensures open == old(open)
    {
      skillInput := s;
    }

    /** `handleAddSkill()`: a non-empty skill not yet listed is appended with rating 3 and
        the input is cleared; otherwise nothing changes. */
    method AddSkill()
      requires Valid()
      modifies this
      ensures Valid()
      ensures old(skillInput) != "" && old(skillInput) !in old(skills) ==>
        skills == old(skills) + [old(skillInput)] &&
        skillRatings == old(skillRatings)[old(skillInput) := 3] && skillInput == ""
      ensures !(old(skillInput) != "" && old(skillInput) !in old(skills)) ==>
        skills == old(skills) && skillRatings == old(skillRatings) && skillInput == old(skillInput)
      ensures values == old(values) && overallRating == old(overallRating)
      ensures experiences == old(experiences) && newExperience == old(newExperience)
      ensures open == old(open)
    {
      if skillInput != "" && skillInput !in skills {
        skills := skills + [skillInput];
        skillRatings := skillRatings[skillInput := 3];
        skillInput := "";
      }
    }

    /** `handleRemoveSkill(skill)`: the skill leaves the list and its rating is deleted. */
    method RemoveSkill(skill: string)
      requires Valid()
      modifies this
      ensures Valid()
      ensures skills == RemoveAll(old(skills), skill)
      ensures skillRatings == old(skillRatings) - {skill}
      ensures skillInput == old(skillInput) && values == old(values) && overallRating == old(overallRating)
      ensures experiences == old(experiences) && newExperience == old(newExperience)
      ensures open == old(open)
    {
      skills := RemoveAll(skills, skill);
      skillRatings := skillRatings - {skill};
    }

    /** `handleSkillRatingChange(skill, rating)`: only that skill's rating changes. The
        buttons offer 1..5 next to each listed skill, which keeps the ratings valid. */
    method SetSkillRating(skill: string, rating: int)
      requires Valid()
      modifies this
      ensures skillRatings == old(skillRatings)[skill := rating]
      ensures skill in skills && 1 <= rating <= 5 ==> Valid()
      ensures skills == old(skills) && skillInput == old(skillInput) && values == old(values)
      ensures overallRating == old(overallRating)
      ensures experiences == old(experiences) && newExperience == old(newExperience)
      ensures open == old(open)
    {
      skillRatings := skillRatings[skill := rating];
    }

    /** The overall rating buttons. */
    method SetOverallRating(rating: int)
      modifies this
      ensures overallRating == rating
      ensures skills == old(skills) && skillRatings == old(skillRatings) && skillInput == old(skillInput)
      ensures values == old(values) && experiences == old(experiences) && newExperience == old(newExperience)
      ensures open == old(open)
    {
      overallRating := rating;
    }

    /** Typing into the experience fields. */
    method SetDraft(draft: ExperienceDraft)
      modifies this
      ensures newExperience == draft
      ensures skills == old(skills) && skillRatings == old(skillRatings) && skillInput == old(skillInput)
      ensures values == old(values) && overallRating == old(overallRating) && experiences == old(experiences)
      ensures open == old(open)
    {
      newExperience := draft;
    }

    /** `handleAddExperience()` with the id the clock gives: a draft with company, position
        and duration is appended and the draft is reset; an incomplete draft changes nothing. */
    method AddExperience(id: string)
      modifies this
      ensures Complete(old(newExperience)) ==>
        experiences == old(experiences) + [Experience(id, old(newExperience.company),
          old(newExperience.position), old(newExperience.duration), old(newExperience.description))] &&
        newExperience == BlankDraft
      ensures !Complete(old(newExperience)) ==>
        experiences == old(experiences) && newExperience == old(newExperience)
      ensures skills == old(skills) && skillRatings == old(skillRatings) && skillInput == old(skillInput)
      ensures values == old(values) && overallRating == old(overallRating)
      ensures open == old(open)
    {
      var d := newExperience;
      if Complete(d) {
        experiences := experiences + [Experience(id, d.company, d.position, d.duration, d.description)];
        newExperience := BlankDraft;
      }
    }

    /** `handleRemoveExperience(id)`: every entry with that id goes, the others stay in order. */
    method RemoveExperience(id: string)
      modifies this
      ensures experiences == Filter(old(experiences), e => HasOtherExperienceId(id, e))
      ensures forall e :: e in experiences <==> e in old(experiences) && e.id != id
      ensures skills == old(skills) && skillRatings == old(skillRatings) && skillInput == old(skillInput)
      ensures values == old(values) && overallRating == old(overallRating)
      ensures newExperience == old(newExperience)
      ensures open == old(open)
    {
      experiences := Filter(experiences, e => HasOtherExperienceId(id, e));
    }

    /** The resume fill: the parsed fields, experiences and skills replace the form's, each
        skill rated 3. */
    method FillFromResume()
      modifies this
      ensures Valid()
      ensures values == old(values).(name := ResumeValues.name, email := ResumeValues.email,
        phone := ResumeValues.phone, education := ResumeValues.education, position := ResumeValues.position)
      ensures experiences == ResumeExperiences && skills == ResumeSkills
      ensures skillRatings == RateAll(ResumeSkills, 3)
      ensures skillInput == old(skillInput) && overallRating == old(overallRating)
      ensures newExperience == old(newExperience)
      ensures open == old(open)
    {
      values := values.(name := ResumeValues.name, email := ResumeValues.email,
        phone := ResumeValues.phone, education := ResumeValues.education, position := ResumeValues.position);
      experiences := ResumeExperiences;
      skills := ResumeSkills;
      skillRatings := RateAll(ResumeSkills, 3);
    }

    /** `handleSubmit`: values that fail the schema never reach it. Valid values give the
        data for the page and close the dialog; creating resets the form, editing leaves it as
        it is. */
    method Submit(isCreate: bool) returns (sent: Option<CandidateData>)
      requires Valid()
      modifies this
      ensures Valid()
      ensures !ValidValues(old(values)) ==>
        sent == None && values == old(values) && skills == old(skills) &&
        skillRatings == old(skillRatings) && experiences == old(experiences) &&
        overallRating == old(overallRating) && open == old(open)
      ensures ValidValues(old(values)) ==> sent == Some(Submission(old(values), old(experiences))) && !open
      ensures ValidValues(old(values)) && isCreate ==>
        values == defaults && experiences == [] && skills == [] && skillRatings == map[] && overallRating == 3
      ensures ValidValues(old(values)) && !isCreate ==>
        values == old(values) && experiences == old(experiences) && skills == old(skills) &&
        skillRatings == old(skillRatings) && overallRating == old(overallRating)
      ensures skillInput == old(skillInput) && newExperience == old(newExperience)
    {
      if !ValidValues(values) {
        return None;
      }
      sent := Some(Submission(values, experiences));
      open := false;
      if isCreate {
        values := defaults;
        experiences := [];
        skills := [];
        skillRatings := map[];
        overallRating := 3;
      }
    }
  }

  /** The resume's skills are distinct, so the fill keeps the skills invariant. */
  lemma ResumeSkillsDistinct()
    ensures NoDuplicates(ResumeSkills)
  {
  }
}
