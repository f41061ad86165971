/** The interviews page: the search and type filter over the interview list, and the two
    handlers that replace the list, one appending a scheduled interview and one setting an
    interview's status. */
module InterviewsPage {
  import opened Common
  import opened Strings
  import opened Types

  /** The search box matches the candidate's name or position, ignoring case. */
  predicate MatchesSearch(iv: Interview, query: string) {
    MatchesQuery(iv.data.candidate.name, query) || MatchesQuery(iv.data.candidate.position, query)
  }

  /** The type filter: "all" or the interview's own type. */
  predicate MatchesType(iv: Interview, selectedType: string) {
    selectedType == "all" || iv.data.interviewType == selectedType
  }

  predicate Shown(iv: Interview, query: string, selectedType: string) {
    MatchesSearch(iv, query) && MatchesType(iv, selectedType)
  }

  /** `filteredInterviews`: an interview is listed exactly when it matches both the search and
      the type filter, and the list keeps the page's order. */
  function FilteredInterviews(list: seq<Interview>, query: string, selectedType: string): (r: seq<Interview>)
    ensures |r| <= |list|
    ensures forall iv :: iv in r <==> iv in list && Shown(iv, query, selectedType)
  {
    Filter(list, iv => Shown(iv, query, selectedType))
  }

  /** With an empty search and type "all" every interview is listed, in order. */
  lemma NoFilterShowsAll(list: seq<Interview>)
    ensures FilteredInterviews(list, "", "all") == list
  {
    forall i | 0 <= i < |list|
      ensures Shown(list[i], "", "all")
    {
      EmptyQueryMatches(list[i].data.candidate.name);
    }
    FilterKeepsAll(list, iv => Shown(iv, "", "all"));
  }

  /** Filtering a list that grew at the end lists the old matches first, then the new one
      if it matches: a scheduled interview shows at the end of the filtered list. */
  lemma FilterAfterAppend(list: seq<Interview>, iv: Interview, query: string, selectedType: string)
    ensures FilteredInterviews(list + [iv], query, selectedType) ==
      FilteredInterviews(list, query, selectedType) + (if Shown(iv, query, selectedType) then [iv] else [])
  {
    FilterAppend(list, [iv], iv => Shown(iv, query, selectedType));
  }

  /** The ids of the interviews, in order. */
  function Ids(list: seq<Interview>): (ids: seq<string>)
    ensures |ids| == |list|
    ensures forall i :: 0 <= i < |list| ==> ids[i] == list[i].id
  {
    seq(|list|, i requires 0 <= i < |list| => list[i].id)
  }

  /** The ids the page hands out: the interview at position i has id i + 1. */
  predicate Sequential(list: seq<Interview>) {
    forall i :: 0 <= i < |list| ==> list[i].id == NatToDecimal(i + 1)
  }

  /** Numbering by position gives every interview its own id. */
  lemma SequentialIdsDistinct(list: seq<Interview>)
    requires Sequential(list)
    ensures NoDuplicates(Ids(list))
  {
    forall i, j | 0 <= i < j < |list|
      ensures list[i].id != list[j].id
    {
      NatToDecimalInjective(i + 1, j + 1);
    }
  }

  /** `handleAddInterview`: the data under the id one past the current length. */
  function NewInterview(list: seq<Interview>, data: InterviewData): (iv: Interview)
    ensures iv.data == data
    ensures iv.id == NatToDecimal(|list| + 1)
  {
    Interview(NatToDecimal(|list| + 1), data)
  }

  /** Appending the new interview keeps the numbering by position. */
  lemma AppendKeepsSequential(list: seq<Interview>, data: InterviewData)
    requires Sequential(list)
    ensures Sequential(list + [NewInterview(list, data)])
  {
  }

  /** `handleUpdateStatus(id, status)`: interviews with that id take the status; nothing else
      changes. */
  function WithStatus(list: seq<Interview>, id: string, status: string): (r: seq<Interview>)
    ensures |r| == |list|
    ensures forall i :: 0 <= i < |list| ==>
      r[i].id == list[i].id && r[i].data == list[i].data.(status := r[i].data.status)
    ensures forall i :: 0 <= i < |list| ==>
      r[i].data.status == if list[i].id == id then status else list[i].data.status
  {
    seq(|list|, i requires 0 <= i < |list| =>
      if list[i].id == id then list[i].(data := list[i].data.(status := status)) else list[i])
  }

  /** Setting a status keeps the ids, and with them the numbering by position; setting the
      same status twice is setting it once; an unknown id changes nothing. */
  lemma WithStatusProperties(list: seq<Interview>, id: string, status: string)
    ensures Ids(WithStatus(list, id, status)) == Ids(list)
    ensures Sequential(list) ==> Sequential(WithStatus(list, id, status))
    ensures WithStatus(WithStatus(list, id, status), id, status) == WithStatus(list, id, status)
    ensures id !in Ids(list) ==> WithStatus(list, id, status) == list
  {
    if id !in Ids(list) {
      forall i | 0 <= i < |list|
        ensures WithStatus(list, id, status)[i] == list[i]
      {
        assert Ids(list)[i] == list[i].id;
      }
    }
  }

  /** With ids numbered by position, setting the status of interview `k + 1` touches the
      interview at position `k` and no other. */
  lemma {:induction false} StatusOfOneInterview(list: seq<Interview>, k: nat, status: string, i: int)
    requires Sequential(list) && k < |list| && 0 <= i < |list|
    ensures WithStatus(list, NatToDecimal(k + 1), status)[i] ==
      if i == k then list[k].(data := list[k].data.(status := status)) else list[i]
  {
    if i != k {
      NatToDecimalInjective(i + 1, k + 1);
    }
  }

  /** Every status is one of the three the status menu offers. */
  predicate KnownStatuses(list: seq<Interview>) {
    forall i :: 0 <= i < |list| ==> list[i].data.status in InterviewStatuses
  }

  function Mock(id: string, name: string, position: string, initials: string,
                interviewers: seq<Person>, date: string, time: string, kind: string): Interview {
    Interview(id, InterviewData(InterviewCandidate(name, position, initials),
      interviewers, date, time, kind, "scheduled"))
  }

  /** The five interviews the page starts with, all scheduled. */
  const InitialInterviews: seq<Interview> := [
    Mock("1", "Emma Davis", "Frontend Developer", "ED",
      [Person("John Smith", "JS"), Person("Alice Wong", "AW")], "Today", "10:00 AM - 11:00 AM", "technical"),
    Mock("2", "Michael Brown", "Product Manager", "MB",
      [Person("Sarah Johnson", "SJ")], "Today", "2:00 PM - 3:00 PM", "culture"),
    Mock("3", "Sophie Miller", "UX Designer", "SM",
      [Person("David Chen", "DC"), Person("Emma Wilson", "EW")], "Tomorrow", "9:30 AM - 10:30 AM", "screening"),
    Mock("4", "James Wilson", "Backend Developer", "JW",
      [Person("Robert Taylor", "RT"), Person("Jennifer Lee", "JL"), Person("Mark Garcia", "MG")],
      "Tomorrow", "1:00 PM - 2:30 PM", "final"),
    Mock("5", "Olivia Martinez", "Marketing Specialist", "OM",
      [Person("Thomas Wright", "TW")], "Jun 10", "11:00 AM - 12:00 PM", "screening")
  ]

  /** The starting list is numbered 1 to 5 by position and every interview is scheduled. */
  lemma InitialInterviewsWellFormed()
    ensures |InitialInterviews| == 5
    ensures Sequential(InitialInterviews)
    ensures KnownStatuses(InitialInterviews)
  {
    assert NatToDecimal(1) == "1" && NatToDecimal(2) == "2" && NatToDecimal(3) == "3";
    assert NatToDecimal(4) == "4" && NatToDecimal(5) == "5";
  }

  /** The page's state: the filters and the interview list. */
  class InterviewsPage {
    var searchQuery: string
    var selectedType: string
    var interviewsList: seq<Interview>
    var scheduleDialogOpen: bool
    var detailsDialogOpen: bool
    var selectedInterview: Option<Interview>

    /** Ids number the interviews by position, and every status is one the menu offers. */
    ghost predicate Valid()
      reads this
    {
      Sequential(interviewsList) && KnownStatuses(interviewsList)
    }

    constructor()
      ensures searchQuery == "" && selectedType == "all" && interviewsList == InitialInterviews
      ensures !scheduleDialogOpen && !detailsDialogOpen && selectedInterview == None
      ensures Valid()
    {
      searchQuery := "";
      selectedType := "all";
      interviewsList := InitialInterviews;
      scheduleDialogOpen := false;
      detailsDialogOpen := false;
      selectedInterview := None;
      InitialInterviewsWellFormed();
    }

    /** The interviews on screen. */
    function Filtered(): seq<Interview>
      reads this
    {
      FilteredInterviews(interviewsList, searchQuery, selectedType)
    }

    /** `handleSearchChange`. */
    method SetSearch(query: string)
      modifies this
      ensures searchQuery == query
      ensures selectedType == old(selectedType) && interviewsList == old(interviewsList)
      ensures scheduleDialogOpen == old(scheduleDialogOpen) && detailsDialogOpen == old(detailsDialogOpen)
      ensures selectedInterview == old(selectedInterview)
    {
      searchQuery := query;
    }

    /** `handleTypeChange`. */
    method SetType(t: string)
      modifies this
      ensures selectedType == t
      ensures searchQuery == old(searchQuery) && interviewsList == old(interviewsList)
      ensures scheduleDialogOpen == old(scheduleDialogOpen) && detailsDialogOpen == old(detailsDialogOpen)
      ensures selectedInterview == old(selectedInterview)
    {
      selectedType := t;
    }

    /** `handleScheduleInterview`: opens the scheduling dialog. */
    method OpenSchedule()
      modifies this
      ensures scheduleDialogOpen
      ensures searchQuery == old(searchQuery) && selectedType == old(selectedType)
      ensures interviewsList == old(interviewsList) && detailsDialogOpen == old(detailsDialogOpen)
      ensures selectedInterview == old(selectedInterview)
    {
      scheduleDialogOpen := true;
    }

    /** `handleViewDetails`: remembers the interview and opens the details dialog. */
    method ViewDetails(iv: Interview)
      modifies this
      ensures selectedInterview == Some(iv) && detailsDialogOpen
      ensures searchQuery == old(searchQuery) && selectedType == old(selectedType)
      ensures interviewsList == old(interviewsList) && scheduleDialogOpen == old(scheduleDialogOpen)
    {
      selectedInterview := Some(iv);
      detailsDialogOpen := true;
    }

    /** `handleAddInterview`: appends exactly one interview at the end, numbered one past the
        old length; the numbering and the known statuses are kept. */
    method AddInterview(data: InterviewData)
      requires Valid() && data.status in InterviewStatuses
      modifies this
      ensures Valid()
      ensures interviewsList == old(interviewsList) + [NewInterview(old(interviewsList), data)]
      ensures searchQuery == old(searchQuery) && selectedType == old(selectedType)
      ensures scheduleDialogOpen == old(scheduleDialogOpen) && detailsDialogOpen == old(detailsDialogOpen)
      ensures selectedInterview == old(selectedInterview)
    {
      AppendKeepsSequential(interviewsList, data);
      interviewsList := interviewsList + [NewInterview(interviewsList, data)];
    }

    /** `handleUpdateStatus`: the status menu sets one of its three statuses on the interviews
        with that id; lengths, ids and every other field stay as they were. */
    method UpdateStatus(id: string, status: string)
      requires Valid() && status in InterviewStatuses
      modifies this
      ensures Valid()
      ensures interviewsList == WithStatus(old(interviewsList), id, status)
      ensures searchQuery == old(searchQuery) && selectedType == old(selectedType)
      ensures scheduleDialogOpen == old(scheduleDialogOpen) && detailsDialogOpen == old(detailsDialogOpen)
      ensures selectedInterview == old(selectedInterview)
    {
      WithStatusProperties(interviewsList, id, status);
      interviewsList := WithStatus(interviewsList, id, status);
    }
  }
}
