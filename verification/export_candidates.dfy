/** The candidates export button: which candidates it exports, when it is disabled and
    who sees it. */
module ExportCandidates {
  import opened Common
  import opened Types
  import opened AuthContext
  import RBACWrapper
  import CsvUtils

  /** Whether a candidate's id is among the selected ids. */
  predicate IsSelected(selected: seq<string>, c: Candidate) {
    c.id in selected
  }

  /** The candidates `handleExportCandidates` writes: the selected ones, in list order, when
      exporting the selection and something is selected; otherwise all of them. */
  function DataToExport(candidates: seq<Candidate>, selectedOnly: bool, selected: seq<string>): (r: seq<Candidate>)
    ensures !(selectedOnly && |selected| > 0) ==> r == candidates
    ensures selectedOnly && |selected| > 0 ==>
      |r| <= |candidates| && forall c :: c in r <==> c in candidates && c.id in selected
  {
    if selectedOnly && |selected| > 0 then Filter(candidates, c => IsSelected(selected, c))
    else candidates
  }

  /** The selection keeps the list's order: exporting the selection of a concatenation is
      exporting the selection of each part, one after the other. */
  lemma SelectionKeepsOrder(xs: seq<Candidate>, ys: seq<Candidate>, selected: seq<string>)
    requires |selected| > 0
    ensures DataToExport(xs + ys, true, selected) ==
      DataToExport(xs, true, selected) + DataToExport(ys, true, selected)
  {
    FilterAppend(xs, ys, c => IsSelected(selected, c));
  }

  /** Selecting every candidate exports the whole list; selecting none of them (with ids
      that match nobody) exports nothing. */
  lemma SelectionExtremes(candidates: seq<Candidate>, selected: seq<string>)
    requires |selected| > 0
    ensures (forall i :: 0 <= i < |candidates| ==> candidates[i].id in selected) ==>
      DataToExport(candidates, true, selected) == candidates
    ensures (forall i :: 0 <= i < |candidates| ==> candidates[i].id !in selected) ==>
      DataToExport(candidates, true, selected) == []
  {
    if forall i :: 0 <= i < |candidates| ==> candidates[i].id in selected {
      FilterKeepsAll(candidates, c => IsSelected(selected, c));
    }
    if forall i :: 0 <= i < |candidates| ==> candidates[i].id !in selected {
      FilterDropsAll(candidates, c => IsSelected(selected, c));
    }
  }

  /** The button's `disabled` flag. */
  predicate Disabled(candidates: seq<Candidate>, selectedOnly: bool, selected: seq<string>) {
    (selectedOnly && |selected| == 0) || |candidates| == 0
  }

  /** The label the button shows. */
  function EntityName(selectedOnly: bool): string {
    if selectedOnly then "Selected Candidates" else "Candidates"
  }

  /** An enabled button for the whole list always has something to export, but an enabled
      button for the selection does not: the selected ids may match no candidate in the list. */
  lemma EnabledExports(candidates: seq<Candidate>, selected: seq<string>)
    ensures !Disabled(candidates, false, selected) ==> DataToExport(candidates, false, selected) != []
    ensures !Disabled(candidates, true, selected) ==>
      (DataToExport(candidates, true, selected) != [] <==> exists c :: c in candidates && c.id in selected)
  {
    if !Disabled(candidates, true, selected) {
      var r := DataToExport(candidates, true, selected);
      if r != [] {
        assert r[0] in r;
      }
    }
  }

  /** The file the button writes for the given list and selection. */
  function ExportText(candidates: seq<Candidate>, selectedOnly: bool, selected: seq<string>): string {
    CsvUtils.CandidatesCsv(DataToExport(candidates, selectedOnly, selected))
  }

  /** The button sits behind the read-candidates check: it is rendered exactly for users
      who may read candidates, and a viewer sees it. */
  lemma ButtonVisibility<T>(user: Option<User>, button: T)
    ensures RBACWrapper.Render(user, Some(Permission(Read, Candidates)), button, None) == Some(button)
      <==> HasPermission(user, Read, Candidates)
    ensures user.Some? ==>
      RBACWrapper.Render(user, Some(Permission(Read, Candidates)), button, None) == Some(button)
  {
    if user.Some? {
      ReadGrants(user.value.role);
    }
  }
}
