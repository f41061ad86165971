/** The jobs page: the search filter, the portal and job selections, and the guards of the
    simulated import and export. */
module JobsPage {
  import opened Common
  import opened Strings
  import opened Types

  /** The search test: the query occurs, ignoring case, in the title, department or location. */
  predicate JobMatches(query: string, job: Job) {
    MatchesQuery(job.title, query) || MatchesQuery(job.department, query) || MatchesQuery(job.location, query)
  }

  /** `filteredJobs`: the matching jobs, in list order. */
  function FilteredJobs(jobs: seq<Job>, query: string): (r: seq<Job>)
    ensures forall j :: j in r <==> j in jobs && JobMatches(query, j)
  {
    Filter(jobs, j => JobMatches(query, j))
  }

  /** The empty search shows every job, in order. */
  lemma EmptySearchShowsAll(jobs: seq<Job>)
    ensures FilteredJobs(jobs, "") == jobs
  {
    forall i | 0 <= i < |jobs| ensures JobMatches("", jobs[i]) {
      EmptyQueryMatches(jobs[i].title);
    }
    FilterKeepsAll(jobs, j => JobMatches("", j));
  }

  /** The two toggles: an element present is removed (every occurrence), an absent one is
      appended. */
  function Toggle(selection: seq<string>, x: string): (r: seq<string>)
    ensures x in r <==> x !in selection
    ensures forall y :: y != x ==> (y in r <==> y in selection)
    ensures NoDuplicates(selection) ==> NoDuplicates(r)
  {
    if x in selection then RemoveAll(selection, x)
    else
      var r := selection + [x];
      assert forall i :: 0 <= i < |selection| ==> r[i] == selection[i];
      r
  }

  /** Toggling an absent element twice restores the selection; toggling a present element
      of a duplicate-free selection twice moves it to the end. */
  lemma ToggleTwice(selection: seq<string>, x: string)
    ensures x !in selection ==> Toggle(Toggle(selection, x), x) == selection
    ensures x in selection ==> Toggle(Toggle(selection, x), x) == RemoveAll(selection, x) + [x]
  {
    if x !in selection {
      var r := selection + [x];
      assert Toggle(selection, x) == r;
      RemoveAllAppend(selection, [x], x);
      RemoveAbsent(selection, x);
      assert RemoveAll([x], x) == [];
    } else {
      var r := RemoveAll(selection, x);
      assert Toggle(selection, x) == r;
      assert x !in r;
      assert Toggle(r, x) == r + [x];
    }
  }

  /** On a duplicate-free selection, a double toggle leaves the same set of elements. */
  lemma ToggleTwiceSameSet(selection: seq<string>, x: string)
    ensures AsSet(Toggle(Toggle(selection, x), x)) == AsSet(selection)
  {
  }

  /** The two jobs a portal import simulates. */
  function ImportedPair(portal: string, stamp: string): seq<Job> {
    [ Job(portal + "-" + stamp + "-1", portal + " Marketing Specialist", "Marketing", "Remote",
        "full-time", "active", 0, "Just imported", None, None, None, None),
      Job(portal + "-" + stamp + "-2", portal + " Software Engineer", "Engineering", "San Francisco, CA",
        "full-time", "active", 0, "Just imported", None, None, None, None) ]
  }

  /** `selectedJobPortals.flatMap(...)`: two jobs per portal, in portal order. */
  function ImportedJobs(portals: seq<string>, stamp: string): (r: seq<Job>)
    ensures |r| == 2 * |portals|
    ensures forall i :: 0 <= i < |portals| ==> r[2 * i..2 * i + 2] == ImportedPair(portals[i], stamp)
  {
    if portals == [] then []
    else
      var rest := ImportedJobs(portals[1..], stamp);
      var r := ImportedPair(portals[0], stamp) + rest;
      assert forall i :: 1 <= i < |portals| ==> r[2 * i..2 * i + 2] == rest[2 * (i - 1)..2 * (i - 1) + 2];
      r
  }

  /** The page's selections and dialog flags. */
  class JobsPage {
    var searchQuery: string
    var selectedJobPortals: seq<string>
    var jobsToExport: seq<string>
    var importDialogOpen: bool
    var exportDialogOpen: bool
    var isImporting: bool
    var isExporting: bool

    constructor()
      ensures searchQuery == "" && selectedJobPortals == [] && jobsToExport == []
      ensures !importDialogOpen && !exportDialogOpen && !isImporting && !isExporting
    {
      searchQuery := "";
      selectedJobPortals := [];
      jobsToExport := [];
      importDialogOpen := false;
      exportDialogOpen := false;
      isImporting := false;
      isExporting := false;
    }

    /** Both selections hold each element once. */
    ghost predicate Valid()
      reads this
    {
      NoDuplicates(selectedJobPortals) && NoDuplicates(jobsToExport)
    }

    /** `toggleJobPortalSelection(portal)`. */
    method TogglePortal(portal: string)
      requires Valid()
      modifies this
      ensures Valid()
      ensures selectedJobPortals == Toggle(old(selectedJobPortals), portal)
      ensures jobsToExport == old(jobsToExport) && searchQuery == old(searchQuery)
      ensures importDialogOpen == old(importDialogOpen) && exportDialogOpen == old(exportDialogOpen)
      ensures isImporting == old(isImporting) && isExporting == old(isExporting)
    {
      selectedJobPortals := Toggle(selectedJobPortals, portal);
    }

    /** `toggleJobSelection(jobId)`. */
    method ToggleJob(jobId: string)
      requires Valid()
      modifies this
      ensures Valid()
      ensures jobsToExport == Toggle(old(jobsToExport), jobId)
      ensures selectedJobPortals == old(selectedJobPortals) && searchQuery == old(searchQuery)
      ensures importDialogOpen == old(importDialogOpen) && exportDialogOpen == old(exportDialogOpen)
      ensures isImporting == old(isImporting) && isExporting == old(isExporting)
    {
      jobsToExport := Toggle(jobsToExport, jobId);
    }

    /** The import button is enabled with a portal selected and no import running. */
    predicate ImportEnabled()
      reads this
    {
      |selectedJobPortals| > 0 && !isImporting
    }

    /** The export button needs a job and a portal selected and no export running. */
    predicate ExportEnabled()
      reads this
    {
      |jobsToExport| > 0 && |selectedJobPortals| > 0 && !isExporting
    }

    /** `handleImportJobs()` at time `stamp`: without a portal nothing happens; otherwise
        two jobs per portal are built and the portal selection is cleared. The built jobs
        are announced, not added to the list. */
    method ImportJobs(stamp: string) returns (newJobs: seq<Job>)
      modifies this
      ensures old(selectedJobPortals) == [] ==>
        newJobs == [] && importDialogOpen == old(importDialogOpen) && isImporting == old(isImporting)
      ensures old(selectedJobPortals) != [] ==>
        newJobs == ImportedJobs(old(selectedJobPortals), stamp) && |newJobs| == 2 * |old(selectedJobPortals)| &&
        selectedJobPortals == [] && !importDialogOpen && !isImporting
      ensures old(selectedJobPortals) == [] ==> selectedJobPortals == old(selectedJobPortals)
      ensures old(ImportEnabled()) ==> |newJobs| >= 2 && newJobs[..2] == ImportedPair(old(selectedJobPortals)[0], stamp)
      ensures jobsToExport == old(jobsToExport) && searchQuery == old(searchQuery)
      ensures exportDialogOpen == old(exportDialogOpen) && isExporting == old(isExporting)
    {
      if |selectedJobPortals| == 0 {
        return [];
      }
      isImporting := true;
      newJobs := ImportedJobs(selectedJobPortals, stamp);
      importDialogOpen := false;
      selectedJobPortals := [];
      isImporting := false;
    }

    /** `handleExportJobs()`: with no job selected it is rejected; otherwise the selected
        jobs count as exported and the job selection is cleared. */
    method ExportJobs() returns (exported: nat)
      modifies this
      ensures old(jobsToExport) == [] ==>
        exported == 0 && jobsToExport == old(jobsToExport) && exportDialogOpen == old(exportDialogOpen) &&
        isExporting == old(isExporting)
      ensures old(jobsToExport) != [] ==>
        exported == |old(jobsToExport)| && jobsToExport == [] && !exportDialogOpen && !isExporting
      ensures old(ExportEnabled()) ==> exported >= 1 && jobsToExport == [] && !exportDialogOpen
      ensures selectedJobPortals == old(selectedJobPortals) && searchQuery == old(searchQuery)
      ensures importDialogOpen == old(importDialogOpen) && isImporting == old(isImporting)
    {
      if |jobsToExport| == 0 {
        return 0;
      }
      isExporting := true;
      exported := |jobsToExport|;
      exportDialogOpen := false;
      jobsToExport := [];
      isExporting := false;
    }
  }

  /** A click on the enabled import button never reaches the handler's no-portal branch:
      it builds two jobs for each selected portal, the first portal's pair first. */
  lemma EnabledImportBuildsJobs(page: JobsPage, stamp: string)
    requires page.ImportEnabled()
    ensures page.selectedJobPortals != [] && !page.isImporting
    ensures |ImportedJobs(page.selectedJobPortals, stamp)| == 2 * |page.selectedJobPortals| >= 2
    ensures ImportedJobs(page.selectedJobPortals, stamp)[..2] == ImportedPair(page.selectedJobPortals[0], stamp)
  {
    assert ImportedJobs(page.selectedJobPortals, stamp)[2 * 0..2 * 0 + 2] == ImportedPair(page.selectedJobPortals[0], stamp);
  }

  /** A click on the enabled export button never reaches the handler's rejection: a job
      is selected, and so is a portal, which the handler itself does not check. */
  lemma EnabledExportHasJobs(page: JobsPage)
    requires page.ExportEnabled()
    ensures page.jobsToExport != [] && page.selectedJobPortals != [] && !page.isExporting
  {
  }
}
