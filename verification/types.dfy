/** The shared vocabulary of the application: roles, the (action, subject)
    permission pairs, jobs and the default candidate application stages. */
module Types {
  import opened Common

  /** The four user roles. */
  datatype Role = Admin | Recruiter | HiringManager | Viewer

  datatype Action = Create | Read | Update | Delete

  datatype Subject = Users | Roles | Candidates | Jobs | Interviews | Reports | PipelineLevels | Settings

  /** A permission is nothing but an (action, subject) pair, compared structurally. */
  datatype Permission = Permission(action: Action, subject: Subject)

  const AllRoles: seq<Role> := [Admin, Recruiter, HiringManager, Viewer]

  /** The action columns, in the order every permission table lists them. */
  const AllActions: seq<Action> := [Create, Read, Update, Delete]

  const AllSubjects: seq<Subject> :=
    [Users, Roles, Candidates, Jobs, Interviews, Reports, PipelineLevels, Settings]

  /** The string a role is written as (the keys of the permission table). */
  function RoleKey(r: Role): string {
    match r
    case Admin => "admin"
    case Recruiter => "recruiter"
    case HiringManager => "hiring_manager"
    case Viewer => "viewer"
  }

  function ActionKey(a: Action): string {
    match a
    case Create => "create"
    case Read => "read"
    case Update => "update"
    case Delete => "delete"
  }

  function SubjectKey(s: Subject): string {
    match s
    case Users => "users"
    case Roles => "roles"
    case Candidates => "candidates"
    case Jobs => "jobs"
    case Interviews => "interviews"
    case Reports => "reports"
    case PipelineLevels => "pipeline_levels"
    case Settings => "settings"
  }

  /** Reads a role back from its key; any other string is not a role. */
  function ParseRole(k: string): (r: Option<Role>)
    ensures r.Some? ==> RoleKey(r.value) == k
    ensures r.None? ==> forall role :: RoleKey(role) != k
  {
    if k == "admin" then Some(Admin)
    else if k == "recruiter" then Some(Recruiter)
    else if k == "hiring_manager" then Some(HiringManager)
    else if k == "viewer" then Some(Viewer)
    else None
  }

  /** Reads a subject back from its key. */
  function ParseSubject(k: string): (r: Option<Subject>)
    ensures r.Some? ==> SubjectKey(r.value) == k
    ensures r.None? ==> forall s :: SubjectKey(s) != k
  {
    if k == "users" then Some(Users)
    else if k == "roles" then Some(Roles)
    else if k == "candidates" then Some(Candidates)
    else if k == "jobs" then Some(Jobs)
    else if k == "interviews" then Some(Interviews)
    else if k == "reports" then Some(Reports)
    else if k == "pipeline_levels" then Some(PipelineLevels)
    else if k == "settings" then Some(Settings)
    else None
  }

  /** `Role` is a closed set of exactly four values, each with its own key. */
  lemma RolesAreClosed()
    ensures |AllRoles| == 4 && NoDuplicates(AllRoles)
    ensures forall r: Role :: r in AllRoles
    ensures forall r: Role :: ParseRole(RoleKey(r)) == Some(r)
  {
    forall r: Role ensures r in AllRoles {
      match r
      case Admin => assert AllRoles[0] == r;
      case Recruiter => assert AllRoles[1] == r;
      case HiringManager => assert AllRoles[2] == r;
      case Viewer => assert AllRoles[3] == r;
    }
  }

  /** Actions are exactly create, read, update and delete; subjects exactly the eight listed. */
  lemma ActionsAndSubjectsAreClosed()
    ensures |AllActions| == 4 && NoDuplicates(AllActions)
    ensures forall a: Action :: a in AllActions
    ensures |AllSubjects| == 8 && NoDuplicates(AllSubjects)
    ensures forall s: Subject :: s in AllSubjects
    ensures forall s: Subject :: ParseSubject(SubjectKey(s)) == Some(s)
  {
    forall a: Action ensures a in AllActions {
      match a
      case Create => assert AllActions[0] == a;
      case Read => assert AllActions[1] == a;
      case Update => assert AllActions[2] == a;
      case Delete => assert AllActions[3] == a;
    }
    forall s: Subject ensures s in AllSubjects {
      match s
      case Users => assert AllSubjects[0] == s;
      case Roles => assert AllSubjects[1] == s;
      case Candidates => assert AllSubjects[2] == s;
      case Jobs => assert AllSubjects[3] == s;
      case Interviews => assert AllSubjects[4] == s;
      case Reports => assert AllSubjects[5] == s;
      case PipelineLevels => assert AllSubjects[6] == s;
      case Settings => assert AllSubjects[7] == s;
    }
  }

  /** Distinct actions have distinct keys. */
  lemma ActionKeyInjective(a: Action, b: Action)
    ensures ActionKey(a) == ActionKey(b) ==> a == b
  {
    if ActionKey(a) == ActionKey(b) {
      assert ActionKey(a)[0] == ActionKey(b)[0];
    }
  }

  /** Distinct subjects have distinct keys: each key reads back as its own subject. */
  lemma SubjectKeyInjective(s: Subject, t: Subject)
    ensures SubjectKey(s) == SubjectKey(t) ==> s == t
  {
    assert ParseSubject(SubjectKey(s)) == Some(s);
    assert ParseSubject(SubjectKey(t)) == Some(t);
  }

  datatype Salary = Salary(min: int, max: int, currency: string)

  /** A job opening. The type file lists the job types full-time, part-time, contract,
      internship and the statuses draft, active, paused, closed; the model uses the job
      form's lists instead (`CreateJobForm.JobTypes`, `CreateJobForm.JobStatuses`). */
  datatype Job = Job(
    id: string,
    title: string,
    department: string,
    location: string,
    jobType: string,
    status: string,
    applicants: int,
    postedDate: string,
    description: Option<string>,
    requirements: Option<seq<string>>,
    responsibilities: Option<seq<string>>,
    salary: Option<Salary>)

  /** What the candidate form hands to the page: the fields besides id, date and initials.
      `experience` is the number of experience entries. */
  datatype CandidateData = CandidateData(
    name: string,
    email: string,
    position: string,
    status: string,
    phone: Option<string>,
    education: Option<seq<string>>,
    resume: Option<string>,
    experience: Option<int>)

  /** A candidate as the candidates page keeps it. */
  datatype Candidate = Candidate(id: string, date: string, initials: string, data: CandidateData)

  /** The statuses the candidates page and its form work with. */
  const CandidateStatuses: seq<string> := ["new", "reviewing", "interview", "offer", "rejected"]

  /** An interviewer, or the candidate of an interview, by name and initials. */
  datatype Person = Person(name: string, initials: string)

  datatype InterviewCandidate = InterviewCandidate(name: string, position: string, initials: string)

  /** An interview without its id: what the scheduling dialog hands to the page. */
  datatype InterviewData = InterviewData(
    candidate: InterviewCandidate,
    interviewers: seq<Person>,
    date: string,
    time: string,
    interviewType: string,
    status: string)

  datatype Interview = Interview(id: string, data: InterviewData)

  /** The interview kinds the scheduling form offers. */
  const InterviewTypes: seq<string> := ["technical", "culture", "screening", "final"]

  /** The statuses an interview can be set to. */
  const InterviewStatuses: seq<string> := ["scheduled", "completed", "cancelled"]

  /** One stage of a candidate's application. */
  datatype ApplicationStage = ApplicationStage(
    id: string, name: string, description: string, color: string, order: int)

  /** The default application stages, in pipeline order. */
  const ApplicationStages: seq<ApplicationStage> := [
    ApplicationStage("new", "New", "Candidate has just applied", "blue", 1),
    ApplicationStage("screening", "Resume Screening", "Resume being reviewed", "purple", 2),
    ApplicationStage("phone_screen", "Phone Screen", "Initial phone screening", "orange", 3),
    ApplicationStage("assessment", "Assessment", "Technical or skill assessment", "yellow", 4),
    ApplicationStage("interview", "First Interview", "First round interview", "green", 5),
    ApplicationStage("second_interview", "Second Interview", "Second round interview", "cyan", 6),
    ApplicationStage("final_interview", "Final Interview", "Final interview round", "indigo", 7),
    ApplicationStage("offer", "Offer", "Offer extended", "pink", 8),
    ApplicationStage("hired", "Hired", "Candidate accepted offer", "green", 9),
    ApplicationStage("rejected", "Rejected", "Candidate was rejected", "red", 10)
  ]

  /** The ids of a list of stages, in order. */
  function StageIds(stages: seq<ApplicationStage>): (ids: seq<string>)
    ensures |ids| == |stages|
    ensures forall i :: 0 <= i < |stages| ==> ids[i] == stages[i].id
  {
    seq(|stages|, i requires 0 <= i < |stages| => stages[i].id)
  }

  /** Ten stages, numbered 1..10 by position, with distinct ids, from "new" to "rejected". */
  lemma ApplicationStagesWellFormed()
    ensures |ApplicationStages| == 10
    ensures forall i :: 0 <= i < |ApplicationStages| ==> ApplicationStages[i].order == i + 1
    ensures NoDuplicates(StageIds(ApplicationStages))
    ensures ApplicationStages[0].id == "new" && ApplicationStages[9].id == "rejected"
  {
  }
}
