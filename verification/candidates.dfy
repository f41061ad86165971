/** The candidates page: the search and status filter, the selection, and the handlers
    that add, edit, delete and re-status candidates in the page's list. */
module CandidatesPage {
  import opened Common
  import opened Strings
  import opened Types

  /** The ids of a list of candidates, in order. */
  function Ids(cands: seq<Candidate>): (ids: seq<string>)
    ensures |ids| == |cands|
    ensures forall i :: 0 <= i < |cands| ==> ids[i] == cands[i].id
  {
    seq(|cands|, i requires 0 <= i < |cands| => cands[i].id)
  }

  /** The search test: the query occurs, ignoring case, in the name, the email or the position. */
  predicate MatchesSearch(query: string, c: Candidate) {
    MatchesQuery(c.data.name, query) || MatchesQuery(c.data.email, query) || MatchesQuery(c.data.position, query)
  }

  /** The status test: `"all"` lets every candidate through. */
  predicate MatchesStatus(selectedStatus: string, c: Candidate) {
    selectedStatus == "all" || c.data.status == selectedStatus
  }

  predicate Shown(query: string, selectedStatus: string, c: Candidate) {
    MatchesSearch(query, c) && MatchesStatus(selectedStatus, c)
  }

  /** `filteredCandidates`: the candidates passing both tests, in list order. */
  function FilteredCandidates(cands: seq<Candidate>, query: string, selectedStatus: string): (r: seq<Candidate>)
    ensures forall c :: c in r <==> c in cands && MatchesSearch(query, c) && MatchesStatus(selectedStatus, c)
  {
    Filter(cands, c => Shown(query, selectedStatus, c))
  }

  /** With no query and the `"all"` status the whole list is shown, in order. */
  lemma NoFilterShowsAll(cands: seq<Candidate>)
    ensures FilteredCandidates(cands, "", "all") == cands
  {
    forall i | 0 <= i < |cands| ensures Shown("", "all", cands[i]) {
      EmptyQueryMatches(cands[i].data.name);
    }
    FilterKeepsAll(cands, c => Shown("", "all", c));
  }

  /** Filtering keeps the list's order: the filter of a concatenation is the concatenation
      of the filters. */
  lemma FilterKeepsOrder(xs: seq<Candidate>, ys: seq<Candidate>, query: string, selectedStatus: string)
    ensures FilteredCandidates(xs + ys, query, selectedStatus) ==
      FilteredCandidates(xs, query, selectedStatus) + FilteredCandidates(ys, query, selectedStatus)
  {
    FilterAppend(xs, ys, c => Shown(query, selectedStatus, c));
  }

  /** The initials before upper-casing: first letters of the first and last words of a
      name with a space, else its first two characters. */
  function RawInitials(name: string): string {
    var parts := Split(name, ' ');
    if |parts| > 1 then FirstLetter(parts[0]) + FirstLetter(parts[|parts| - 1])
    else Take(name, 2)
  }

  /** The initials `handleAddCandidate` stores. */
  function Initials(name: string): string {
    ToUpper(RawInitials(name))
  }

  /** A name of several non-empty words separated by single spaces gets the upper-cased
      first letters of its first and last words. */
  lemma {:induction false} InitialsOfWords(words: seq<string>)
    requires |words| >= 2
    requires forall i :: 0 <= i < |words| ==> words[i] != [] && ' ' !in words[i]
    ensures Initials(Join(words, " ")) == [UpperChar(words[0][0]), UpperChar(words[|words| - 1][0])]
  {
    SplitJoinedWords(words);
    InitialsOfSplit(Join(words, " "), words);
  }

  /** The initials of a name read off its pieces when it splits into several non-empty ones. */
  lemma InitialsOfSplit(name: string, words: seq<string>)
    requires Split(name, ' ') == words && |words| >= 2
    requires words[0] != [] && words[|words| - 1] != []
    ensures Initials(name) == [UpperChar(words[0][0]), UpperChar(words[|words| - 1][0])]
  {
    assert RawInitials(name) == [words[0][0], words[|words| - 1][0]];
    ToUpperPair(words[0][0], words[|words| - 1][0]);
  }

  /** A one-word name gets its first two characters, upper-cased (fewer if it is shorter). */
  lemma InitialsOfOneWord(name: string)
    requires ' ' !in name
    ensures Initials(name) == ToUpper(Take(name, 2))
    ensures |Initials(name)| == if |name| < 2 then |name| else 2
  {
  }

  /** A trailing space makes the last word empty, and its missing letter is written as
      `UNDEFINED`. */
  lemma TrailingSpaceInitials(word: string)
    requires word != [] && ' ' !in word
    ensures Initials(word + " ") == [UpperChar(word[0])] + "UNDEFINED"
  {
    SplitJoinedWords([word, ""]);
    assert Join([word, ""], " ") == word + " ";
  }

  /** The candidate `handleAddCandidate` builds: id one past the list length, the given
      date, initials from the name and the form's data. */
  function NewCandidate(cands: seq<Candidate>, data: CandidateData, date: string): (c: Candidate)
    ensures c.data == data && c.date == date && c.initials == Initials(data.name)
    ensures c.id == NatToDecimal(|cands| + 1)
  {
    Candidate(NatToDecimal(|cands| + 1), date, Initials(data.name), data)
  }

  /** The list after `handleUpdateStatus(id, status)`: candidates with that id get the new
      status and nothing else changes. */
  function WithStatus(cands: seq<Candidate>, id: string, status: string): (r: seq<Candidate>)
    ensures |r| == |cands|
    ensures forall i :: 0 <= i < |cands| ==>
      r[i].id == cands[i].id && r[i].date == cands[i].date && r[i].initials == cands[i].initials &&
      r[i].data == cands[i].data.(status := r[i].data.status)
    ensures forall i :: 0 <= i < |cands| ==>
      r[i].data.status == if cands[i].id == id then status else cands[i].data.status
  {
    seq(|cands|, i requires 0 <= i < |cands| =>
      if cands[i].id == id then cands[i].(data := cands[i].data.(status := status)) else cands[i])
  }

  /** The list after `handleUpdateCandidate` for the candidate with id `id`: the matching
      candidates take the form's data and keep their id, date and initials. */
  function WithData(cands: seq<Candidate>, id: string, data: CandidateData): (r: seq<Candidate>)
    ensures |r| == |cands|
    ensures forall i :: 0 <= i < |cands| ==>
      r[i].id == cands[i].id && r[i].date == cands[i].date && r[i].initials == cands[i].initials
    ensures forall i :: 0 <= i < |cands| ==> r[i].data == if cands[i].id == id then data else cands[i].data
  {
    seq(|cands|, i requires 0 <= i < |cands| => if cands[i].id == id then cands[i].(data := data) else cands[i])
  }

  /** Setting the same status again changes nothing more, and an id that is not in the
      list leaves it as it is. */
  lemma WithStatusProperties(cands: seq<Candidate>, id: string, status: string)
    ensures WithStatus(WithStatus(cands, id, status), id, status) == WithStatus(cands, id, status)
    ensures id !in Ids(cands) ==> WithStatus(cands, id, status) == cands
    ensures Ids(WithStatus(cands, id, status)) == Ids(cands)
  {
    if id !in Ids(cands) {
      assert forall i :: 0 <= i < |cands| ==> cands[i].id != Ids(cands)[i] || cands[i].id != id;
    }
  }

  /** Editing keeps the ids, and editing an absent id changes nothing. */
  lemma WithDataProperties(cands: seq<Candidate>, id: string, data: CandidateData)
    ensures Ids(WithData(cands, id, data)) == Ids(cands)
    ensures id !in Ids(cands) ==> WithData(cands, id, data) == cands
  {
    if id !in Ids(cands) {
      assert forall i :: 0 <= i < |cands| ==> cands[i].id != Ids(cands)[i] || cands[i].id != id;
    }
  }

  predicate HasOtherId(id: string, c: Candidate) {
    c.id != id
  }

  /** The list after `confirmDeleteCandidate` for `id`: every candidate with that id goes,
      every other one stays, in order. */
  function WithoutId(cands: seq<Candidate>, id: string): (r: seq<Candidate>)
    ensures id !in Ids(r)
    ensures forall c :: c in r <==> c in cands && c.id != id
  {
    Filter(cands, c => HasOtherId(id, c))
  }

  predicate IsUnselected(selected: seq<string>, c: Candidate) {
    c.id !in selected
  }

  /** The list after `confirmBulkDelete`: exactly the candidates whose id is not selected. */
  function WithoutSelected(cands: seq<Candidate>, selected: seq<string>): (r: seq<Candidate>)
    ensures forall i :: 0 <= i < |r| ==> r[i].id !in selected
    ensures forall c :: c in r <==> c in cands && c.id !in selected
  {
    Filter(cands, c => IsUnselected(selected, c))
  }

  /** Deleting one id is bulk-deleting the selection holding only that id. */
  lemma DeleteIsBulkDeleteOfOne(cands: seq<Candidate>, id: string)
    ensures WithoutId(cands, id) == WithoutSelected(cands, [id])
  {
    if cands != [] {
      DeleteIsBulkDeleteOfOne(cands[1..], id);
    }
  }

  /** With distinct ids, deleting an id in the list removes exactly one candidate. */
  lemma {:induction false} DeleteRemovesOne(cands: seq<Candidate>, id: string)
    requires NoDuplicates(Ids(cands)) && id in Ids(cands)
    ensures |WithoutId(cands, id)| == |cands| - 1
  {
    var ids := Ids(cands);
    if cands[0].id == id {
      assert id !in Ids(cands[1..]) by {
        forall k | 0 <= k < |cands| - 1 ensures Ids(cands[1..])[k] != id {
          assert ids[k + 1] == Ids(cands[1..])[k];
        }
      }
      assert Ids(cands[1..]) == ids[1..];
      var rest := WithoutId(cands[1..], id);
      RemoveAbsentId(cands[1..], id);
    } else {
      assert Ids(cands[1..]) == ids[1..];
      assert id in ids[1..] by {
        var k :| 0 <= k < |ids| && ids[k] == id;
        assert k != 0;
        assert ids[1..][k - 1] == id;
      }
      DeleteRemovesOne(cands[1..], id);
    }
  }

  /** Deleting an id that no candidate has changes nothing. */
  lemma RemoveAbsentId(cands: seq<Candidate>, id: string)
    requires id !in Ids(cands)
    ensures WithoutId(cands, id) == cands
  {
    assert forall i :: 0 <= i < |cands| ==> Ids(cands)[i] == cands[i].id;
    FilterKeepsAll(cands, c => HasOtherId(id, c));
  }

  /** Ids are derived from the list length, so adding after a delete can reuse an id: when
      the list holds `${n}` among its n distinct ids and another candidate is deleted, the
      id the next add assigns (see `NewCandidate`), `${n}`, is taken; `RepeatedId` shows
      that adding then repeats an id. */
  lemma AddAfterDeleteReusesId(cands: seq<Candidate>, id: string)
    requires NoDuplicates(Ids(cands)) && id in Ids(cands)
    requires NatToDecimal(|cands|) in Ids(cands) && id != NatToDecimal(|cands|)
    ensures
      var rest := WithoutId(cands, id);
      NatToDecimal(|rest| + 1) in Ids(rest)
  {
    DeleteRemovesOne(cands, id);
    var k :| 0 <= k < |cands| && Ids(cands)[k] == NatToDecimal(|cands|);
    KeptAfterDelete(cands, id, k);
  }

  /** A candidate with another id survives the delete, so its id is still listed. */
  lemma KeptAfterDelete(cands: seq<Candidate>, id: string, k: int)
    requires 0 <= k < |cands| && cands[k].id != id
    ensures cands[k].id in Ids(WithoutId(cands, id))
  {
    var rest := WithoutId(cands, id);
    assert cands[k] in rest;
    var j :| 0 <= j < |rest| && rest[j] == cands[k];
    assert Ids(rest)[j] == cands[k].id;
  }

  /** A new candidate sharing its id with a listed one makes the ids repeat. */
  lemma RepeatedId(rest: seq<Candidate>, added: Candidate)
    requires added.id in Ids(rest)
    ensures !NoDuplicates(Ids([added] + rest))
  {
    var j :| 0 <= j < |rest| && Ids(rest)[j] == added.id;
    var all := Ids([added] + rest);
    assert all[0] == added.id && all[j + 1] == added.id;
  }

  function Mock(id: string, name: string, email: string, position: string, status: string,
    date: string, initials: string): Candidate
  {
    Candidate(id, date, initials, CandidateData(name, email, position, status, None, None, None, None))
  }

  /** The list the page mounts with. */
  const InitialCandidates: seq<Candidate> := [
    Mock("1", "Alex Morgan", "alex.morgan@example.com", "Frontend Developer", "interview", "June 3, 2025", "AM"),
    Mock("2", "Jordan Smith", "jordan.smith@example.com", "UX Designer", "new", "June 3, 2025", "JS"),
    Mock("3", "Taylor Johnson", "taylor.johnson@example.com", "Product Manager", "reviewing", "June 2, 2025", "TJ"),
    Mock("4", "Casey Wilson", "casey.wilson@example.com", "Backend Developer", "offer", "June 1, 2025", "CW"),
    Mock("5", "Riley Parker", "riley.parker@example.com", "Marketing Specialist", "rejected", "May 31, 2025", "RP"),
    Mock("6", "Jamie Lee", "jamie.lee@example.com", "Data Scientist", "new", "May 30, 2025", "JL"),
    Mock("7", "Morgan Chen", "morgan.chen@example.com", "Full Stack Developer", "reviewing", "May 29, 2025", "MC"),
    Mock("8", "Drew Garcia", "drew.garcia@example.com", "DevOps Engineer", "interview", "May 28, 2025", "DG")
  ]

  /** The id `handleImportCandidates` gives its k-th candidate at time `stamp`. */
  function ImportedId(stamp: nat, k: string): string {
    "imported-" + NatToDecimal(stamp) + "-" + k
  }

  /** The two candidates `handleImportCandidates` simulates fetching from a job portal. */
  function MorganRoberts(): CandidateData {
    CandidateData("Morgan Roberts", "morgan.roberts@example.com", "DevOps Engineer", "new", None, None, None, None)
  }

  function TaylorSwift(): CandidateData {
    CandidateData("Taylor Swift", "taylor.swift@example.com", "UI/UX Designer", "new", None, None, None, None)
  }

  /** The imported pair, with ids stamped by `Date.now()` and today's date. */
  function ImportedPair(stamp: nat, date: string): seq<Candidate> {
    [Candidate(ImportedId(stamp, "1"), date, "MR", MorganRoberts()), Candidate(ImportedId(stamp, "2"), date, "TS", TaylorSwift())]
  }

  /** The initials the import writes for each name are the ones the page computes. */
  lemma ImportedInitials(name: string, first: string, last: string, initials: string)
    requires first != [] && ' ' !in first && last != [] && ' ' !in last
    requires name == first + " " + last
    requires initials == [UpperChar(first[0]), UpperChar(last[0])]
    ensures Initials(name) == initials
  {
    assert Join([first, last], " ") == name;
    InitialsOfWords([first, last]);
  }

  /** The hard-coded initials of the first imported candidate are the page's. */
  lemma MorganRobertsInitials()
    ensures Initials(MorganRoberts().name) == "MR"
  {
    ImportedInitials(MorganRoberts().name, "Morgan", "Roberts", "MR");
  }

  /** The hard-coded initials of the second imported candidate are the page's. */
  lemma TaylorSwiftInitials()
    ensures Initials(TaylorSwift().name) == "TS"
  {
    ImportedInitials(TaylorSwift().name, "Taylor", "Swift", "TS");
  }

  /** The imported candidates are new, dated today, and carry the initials the page would
      compute from their names. */
  lemma ImportedPairShape(stamp: nat, date: string)
    ensures |ImportedPair(stamp, date)| == 2
    ensures forall c :: c in ImportedPair(stamp, date) ==> c.data.status == "new" && c.date == date
    ensures ImportedPair(stamp, date)[0].initials == Initials(ImportedPair(stamp, date)[0].data.name)
    ensures ImportedPair(stamp, date)[1].initials == Initials(ImportedPair(stamp, date)[1].data.name)
  {
    var pair := ImportedPair(stamp, date);
    assert pair[0].data == MorganRoberts() && pair[0].initials == "MR";
    assert pair[1].data == TaylorSwift() && pair[1].initials == "TS";
    MorganRobertsInitials();
    TaylorSwiftInitials();
  }

  /** A list whose ids are all decimal numerals, as the sample list's and the added
      candidates' are, keeps distinct ids when an import is prepended: the imported ids
      start with a letter and differ in their last character. */
  lemma ImportKeepsIdsDistinct(cands: seq<Candidate>, stamp: nat, date: string)
    requires NoDuplicates(Ids(cands))
    requires forall c :: c in cands ==> IsDigits(c.id)
    ensures NoDuplicates(Ids(ImportedPair(stamp, date) + cands))
  {
    var pair := ImportedPair(stamp, date);
    var all := Ids(pair + cands);
    forall i, j | 0 <= i < j < |all|
      ensures all[i] != all[j]
    {
      if j < 2 {
        assert i == 0 && j == 1;
        assert all[0][|all[0]| - 1] == '1' && all[1][|all[1]| - 1] == '2';
      } else if i < 2 {
        assert all[i][0] == 'i';
        assert cands[j - 2] in cands;
        assert all[j] == cands[j - 2].id;
        assert |all[j]| == 0 || IsDigit(all[j][0]);
      } else {
        assert all[i] == Ids(cands)[i - 2] && all[j] == Ids(cands)[j - 2];
      }
    }
  }

  /** The page's state: the list, the search inputs, the selection, and the candidates
      waiting for edit or delete confirmation. */
  class CandidatesPage {
    var candidates: seq<Candidate>
    var searchQuery: string
    var selectedStatus: string
    var selectedCandidates: seq<string>
    var isAllSelected: bool
    var candidateToEdit: Option<Candidate>
    var candidateToDelete: Option<string>
    var deleteDialogOpen: bool
    var bulkDeleteDialogOpen: bool

    /** The page mounts with the mock list, no search, every status, nothing selected. */
    constructor()
      ensures candidates == InitialCandidates && searchQuery == "" && selectedStatus == "all"
      ensures selectedCandidates == [] && !isAllSelected
      ensures candidateToEdit == None && candidateToDelete == None
      ensures !deleteDialogOpen && !bulkDeleteDialogOpen
    {
      candidates := InitialCandidates;
      searchQuery := "";
      selectedStatus := "all";
      selectedCandidates := [];
      isAllSelected := false;
      candidateToEdit := None;
      candidateToDelete := None;
      deleteDialogOpen := false;
      bulkDeleteDialogOpen := false;
    }

    /** The rows the table shows. */
    function Filtered(): seq<Candidate>
      reads this
    {
      FilteredCandidates(candidates, searchQuery, selectedStatus)
    }

    /** `handleSearchChange` and `handleStatusChange`. */
    method SetFilters(query: string, status: string)
      modifies this
      ensures searchQuery == query && selectedStatus == status
      ensures candidates == old(candidates) && selectedCandidates == old(selectedCandidates)
      ensures isAllSelected == old(isAllSelected)
      ensures candidateToEdit == old(candidateToEdit) && candidateToDelete == old(candidateToDelete)
      ensures deleteDialogOpen == old(deleteDialogOpen) && bulkDeleteDialogOpen == old(bulkDeleteDialogOpen)
    {
      searchQuery := query;
      selectedStatus := status;
    }

    /** `handleSelectCandidate(id, isChecked)`: checking appends the id without looking
        for it first; unchecking drops every occurrence. */
    method SelectCandidate(id: string, isChecked: bool)
      modifies this
      ensures isChecked ==> selectedCandidates == old(selectedCandidates) + [id]
      ensures !isChecked ==> selectedCandidates == RemoveAll(old(selectedCandidates), id)
      ensures candidates == old(candidates) && isAllSelected == old(isAllSelected)
      ensures searchQuery == old(searchQuery) && selectedStatus == old(selectedStatus)
      ensures candidateToEdit == old(candidateToEdit) && candidateToDelete == old(candidateToDelete)
      ensures deleteDialogOpen == old(deleteDialogOpen) && bulkDeleteDialogOpen == old(bulkDeleteDialogOpen)
    {
      if isChecked {
        selectedCandidates := selectedCandidates + [id];
      } else {
        selectedCandidates := RemoveAll(selectedCandidates, id);
      }
    }

    /** `handleSelectAll(isChecked)`: checking selects the ids of the shown rows, in order;
        unchecking clears the selection. */
    method SelectAll(isChecked: bool)
      modifies this
      ensures isAllSelected == isChecked
      ensures isChecked ==> selectedCandidates == Ids(old(Filtered()))
      ensures !isChecked ==> selectedCandidates == []
      ensures candidates == old(candidates)
      ensures searchQuery == old(searchQuery) && selectedStatus == old(selectedStatus)
      ensures candidateToEdit == old(candidateToEdit) && candidateToDelete == old(candidateToDelete)
      ensures deleteDialogOpen == old(deleteDialogOpen) && bulkDeleteDialogOpen == old(bulkDeleteDialogOpen)
    {
      isAllSelected := isChecked;
      if isChecked {
        selectedCandidates := Ids(Filtered());
      } else {
        selectedCandidates := [];
      }
    }

    /** `handleAddCandidate(data)` on a given date: the new candidate goes first. */
    method AddCandidate(data: CandidateData, date: string)
      modifies this
      ensures candidates == [NewCandidate(old(candidates), data, date)] + old(candidates)
      ensures selectedCandidates == old(selectedCandidates) && isAllSelected == old(isAllSelected)
      ensures searchQuery == old(searchQuery) && selectedStatus == old(selectedStatus)
      ensures candidateToEdit == old(candidateToEdit) && candidateToDelete == old(candidateToDelete)
      ensures deleteDialogOpen == old(deleteDialogOpen) && bulkDeleteDialogOpen == old(bulkDeleteDialogOpen)
    {
      candidates := [NewCandidate(candidates, data, date)] + candidates;
    }

    /** `handleEditCandidate(c)`: remembers the candidate being edited. */
    method EditCandidate(c: Candidate)
      modifies this
      ensures candidateToEdit == Some(c)
      ensures candidates == old(candidates) && selectedCandidates == old(selectedCandidates)
      ensures isAllSelected == old(isAllSelected) && candidateToDelete == old(candidateToDelete)
      ensures searchQuery == old(searchQuery) && selectedStatus == old(selectedStatus)
      ensures deleteDialogOpen == old(deleteDialogOpen) && bulkDeleteDialogOpen == old(bulkDeleteDialogOpen)
    {
      candidateToEdit := Some(c);
    }

    /** `handleUpdateCandidate(data)`: without a candidate being edited nothing happens;
        otherwise the candidates with its id take the data and the edit is cleared. */
    method UpdateCandidate(data: CandidateData)
      modifies this
      ensures old(candidateToEdit).None? ==> candidates == old(candidates) && candidateToEdit == None
      ensures old(candidateToEdit).Some? ==>
        candidates == WithData(old(candidates), old(candidateToEdit).value.id, data) && candidateToEdit == None
      ensures selectedCandidates == old(selectedCandidates) && isAllSelected == old(isAllSelected)
      ensures searchQuery == old(searchQuery) && selectedStatus == old(selectedStatus)
      ensures candidateToDelete == old(candidateToDelete)
      ensures deleteDialogOpen == old(deleteDialogOpen) && bulkDeleteDialogOpen == old(bulkDeleteDialogOpen)
    {
      if candidateToEdit.Some? {
        candidates := WithData(candidates, candidateToEdit.value.id, data);
        candidateToEdit := None;
      }
    }

    /** `handleDeleteCandidate(id)`: asks for confirmation. */
    method DeleteCandidate(id: string)
      modifies this
      ensures candidateToDelete == Some(id) && deleteDialogOpen
      ensures candidates == old(candidates) && selectedCandidates == old(selectedCandidates)
      ensures isAllSelected == old(isAllSelected) && candidateToEdit == old(candidateToEdit)
      ensures searchQuery == old(searchQuery) && selectedStatus == old(selectedStatus)
      ensures bulkDeleteDialogOpen == old(bulkDeleteDialogOpen)
    {
      candidateToDelete := Some(id);
      deleteDialogOpen := true;
    }

    /** `confirmDeleteCandidate()`: with a pending id (the empty id counts as none, being
        falsy) the candidates with that id go, the dialog closes and the pending id is
        cleared; otherwise nothing changes. */
    method ConfirmDelete()
      modifies this
      ensures old(candidateToDelete).Some? && old(candidateToDelete).value != "" ==>
        candidates == WithoutId(old(candidates), old(candidateToDelete).value) &&
        candidateToDelete == None && !deleteDialogOpen
      ensures !(old(candidateToDelete).Some? && old(candidateToDelete).value != "") ==>
        candidates == old(candidates) && candidateToDelete == old(candidateToDelete) &&
        deleteDialogOpen == old(deleteDialogOpen)
      ensures selectedCandidates == old(selectedCandidates) && isAllSelected == old(isAllSelected)
      ensures searchQuery == old(searchQuery) && selectedStatus == old(selectedStatus)
      ensures candidateToEdit == old(candidateToEdit) && bulkDeleteDialogOpen == old(bulkDeleteDialogOpen)
    {
      if candidateToDelete.Some? && candidateToDelete.value != "" {
        candidates := WithoutId(candidates, candidateToDelete.value);
        deleteDialogOpen := false;
        candidateToDelete := None;
      }
    }

    /** `handleBulkDelete()`: asks for confirmation only when something is selected. */
    method BulkDelete()
      modifies this
      ensures bulkDeleteDialogOpen == (old(bulkDeleteDialogOpen) || |selectedCandidates| > 0)
      ensures candidates == old(candidates) && selectedCandidates == old(selectedCandidates)
      ensures isAllSelected == old(isAllSelected)
      ensures searchQuery == old(searchQuery) && selectedStatus == old(selectedStatus)
      ensures candidateToEdit == old(candidateToEdit) && candidateToDelete == old(candidateToDelete)
      ensures deleteDialogOpen == old(deleteDialogOpen)
    {
      if |selectedCandidates| > 0 {
        bulkDeleteDialogOpen := true;
      }
    }

    /** `confirmBulkDelete()`: the selected candidates go and the selection is cleared. */
    method ConfirmBulkDelete()
      modifies this
      ensures candidates == WithoutSelected(old(candidates), old(selectedCandidates))
      ensures selectedCandidates == [] && !isAllSelected && !bulkDeleteDialogOpen
      ensures searchQuery == old(searchQuery) && selectedStatus == old(selectedStatus)
      ensures candidateToEdit == old(candidateToEdit) && candidateToDelete == old(candidateToDelete)
      ensures deleteDialogOpen == old(deleteDialogOpen)
    {
      candidates := WithoutSelected(candidates, selectedCandidates);
      selectedCandidates := [];
      isAllSelected := false;
      bulkDeleteDialogOpen := false;
    }

    /** `handleImportCandidates()` for the portal picked in the import sheet, at time `stamp`
        on the given date: without a portal nothing changes; otherwise the two simulated
        candidates are put in front of the list. */
    method ImportCandidates(portal: string, stamp: nat, date: string)
      modifies this
      ensures portal == "" ==> candidates == old(candidates)
      ensures portal != "" ==> candidates == ImportedPair(stamp, date) + old(candidates)
      ensures selectedCandidates == old(selectedCandidates) && isAllSelected == old(isAllSelected)
      ensures searchQuery == old(searchQuery) && selectedStatus == old(selectedStatus)
      ensures candidateToEdit == old(candidateToEdit) && candidateToDelete == old(candidateToDelete)
      ensures deleteDialogOpen == old(deleteDialogOpen) && bulkDeleteDialogOpen == old(bulkDeleteDialogOpen)
    {
      if portal != "" {
        candidates := ImportedPair(stamp, date) + candidates;
      }
    }

    /** `handleUpdateStatus(id, status)`. */
    method UpdateStatus(id: string, status: string)
      modifies this
      ensures candidates == WithStatus(old(candidates), id, status)
      ensures selectedCandidates == old(selectedCandidates) && isAllSelected == old(isAllSelected)
      ensures searchQuery == old(searchQuery) && selectedStatus == old(selectedStatus)
      ensures candidateToEdit == old(candidateToEdit) && candidateToDelete == old(candidateToDelete)
      ensures deleteDialogOpen == old(deleteDialogOpen) && bulkDeleteDialogOpen == old(bulkDeleteDialogOpen)
    {
      candidates := WithStatus(candidates, id, status);
    }
  }
}
