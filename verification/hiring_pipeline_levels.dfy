/** The hiring pipeline of a job: an ordered list of levels numbered 1..n, edited by
    add, edit and delete. */
module HiringPipelineLevels {
  import opened Common

  datatype PipelineLevel = PipelineLevel(
    id: string, name: string, description: string, assignedUsers: seq<string>, order: int, jobId: string)

  /** What the level form submits; description and users may be left out. */
  datatype LevelValues = LevelValues(name: string, description: Option<string>, assignedUsers: Option<seq<string>>)

  /** The schema: a level needs a name. */
  predicate ValidValues(v: LevelValues) {
    v.name != ""
  }

  /** The level at index i has order i + 1. */
  predicate Numbered(levels: seq<PipelineLevel>) {
    forall i :: 0 <= i < |levels| ==> levels[i].order == i + 1
  }

  /** The levels a job with a non-empty id starts with. */
  function MockLevels(jobId: string): (levels: seq<PipelineLevel>)
    ensures |levels| == 3 && Numbered(levels)
    ensures forall i :: 0 <= i < |levels| ==> levels[i].jobId == jobId
  {
    [ PipelineLevel("1", "Resume Screening", "Initial review of candidate resumes", ["user1", "user2"], 1, jobId),
      PipelineLevel("2", "Phone Interview", "Initial phone screening with candidates", ["user3"], 2, jobId),
      PipelineLevel("3", "Technical Assessment", "Technical skills evaluation", ["user1", "user4"], 3, jobId) ]
  }

  /** The level `handleAddLevel` appends to a list of `n` levels. */
  function NewLevel(id: string, v: LevelValues, n: nat, jobId: string): (l: PipelineLevel)
    ensures l.id == id && l.name == v.name && l.order == n + 1 && l.jobId == jobId
    ensures l.description == v.description.GetOr("") && l.assignedUsers == v.assignedUsers.GetOr([])
  {
    PipelineLevel(id, v.name, v.description.GetOr(""), v.assignedUsers.GetOr([]), n + 1, jobId)
  }

  /** The list after `handleEditLevel` for the level with id `id`: the matching levels take
      the new name, description and users; id, order and job stay. */
  function Edited(levels: seq<PipelineLevel>, id: string, v: LevelValues): (r: seq<PipelineLevel>)
    ensures |r| == |levels|
    ensures forall i :: 0 <= i < |levels| ==>
      r[i].id == levels[i].id && r[i].order == levels[i].order && r[i].jobId == levels[i].jobId
    ensures forall i :: 0 <= i < |levels| && levels[i].id != id ==> r[i] == levels[i]
    ensures forall i :: 0 <= i < |levels| && levels[i].id == id ==>
      r[i].name == v.name && r[i].description == v.description.GetOr("") &&
      r[i].assignedUsers == v.assignedUsers.GetOr([])
  {
    seq(|levels|, i requires 0 <= i < |levels| =>
      if levels[i].id == id
      then levels[i].(name := v.name, description := v.description.GetOr(""), assignedUsers := v.assignedUsers.GetOr([]))
      else levels[i])
  }

  /** Each level numbered by its position; everything but the order is kept. */
  function Renumbered(levels: seq<PipelineLevel>): (r: seq<PipelineLevel>)
    ensures |r| == |levels| && Numbered(r)
    ensures forall i :: 0 <= i < |levels| ==> r[i] == levels[i].(order := r[i].order)
  {
    seq(|levels|, i requires 0 <= i < |levels| => levels[i].(order := i + 1))
  }

  /** A list that is already numbered is its own renumbering. */
  lemma RenumberNumbered(levels: seq<PipelineLevel>)
    requires Numbered(levels)
    ensures Renumbered(levels) == levels
  {
  }

  predicate HasOtherLevelId(id: string, l: PipelineLevel) {
    l.id != id
  }

  /** The list after `handleDeleteLevel(id)`: the other levels, in order, renumbered 1..n. */
  function AfterDelete(levels: seq<PipelineLevel>, id: string): (r: seq<PipelineLevel>)
    ensures Numbered(r) && |r| <= |levels|
    ensures forall i :: 0 <= i < |r| ==> r[i].id != id
  {
    Renumbered(Filter(levels, l => HasOtherLevelId(id, l)))
  }

  /** The levels left after a delete are the levels with another id, renumbered: each
      such level is at some position i with order i + 1 and everything else unchanged, and
      each position holds such a level. */
  lemma DeleteKeepsOthers(levels: seq<PipelineLevel>, id: string, l: PipelineLevel, k: int)
    ensures l in levels && l.id != id ==>
      exists i :: 0 <= i < |AfterDelete(levels, id)| && AfterDelete(levels, id)[i] == l.(order := i + 1)
    ensures 0 <= k < |AfterDelete(levels, id)| ==>
      exists m :: m in levels && m.id != id && AfterDelete(levels, id)[k] == m.(order := k + 1)
  {
    var kept := Filter(levels, x => HasOtherLevelId(id, x));
    var r := AfterDelete(levels, id);
    if l in levels && l.id != id {
      assert l in kept;
      var i :| 0 <= i < |kept| && kept[i] == l;
      assert r[i] == l.(order := i + 1);
    }
    if 0 <= k < |r| {
      assert r[k] == kept[k].(order := k + 1);
      assert kept[k] in kept;
    }
  }

  /** Deleting keeps the other levels, everything but their order, in their relative order:
      deleting from a concatenation deletes from each part. */
  lemma DeleteKeepsOrder(xs: seq<PipelineLevel>, ys: seq<PipelineLevel>, id: string)
    ensures Filter(xs + ys, l => HasOtherLevelId(id, l)) ==
      Filter(xs, l => HasOtherLevelId(id, l)) + Filter(ys, l => HasOtherLevelId(id, l))
    ensures |AfterDelete(xs + ys, id)| ==
      |Filter(xs, l => HasOtherLevelId(id, l))| + |Filter(ys, l => HasOtherLevelId(id, l))|
  {
    FilterAppend(xs, ys, l => HasOtherLevelId(id, l));
  }

  /** Deleting an id no level has renumbers but otherwise keeps the list; on a numbered list
      it changes nothing at all. */
  lemma DeleteAbsent(levels: seq<PipelineLevel>, id: string)
    requires forall i :: 0 <= i < |levels| ==> levels[i].id != id
    ensures AfterDelete(levels, id) == Renumbered(levels)
    ensures Numbered(levels) ==> AfterDelete(levels, id) == levels
  {
    FilterKeepsAll(levels, l => HasOtherLevelId(id, l));
  }

  /** The component's state. */
  class PipelineLevels {
    const jobId: string
    var levels: seq<PipelineLevel>
    var editingLevel: Option<PipelineLevel>

    ghost predicate Valid()
      reads this
    {
      Numbered(levels)
    }

    /** The mount effect: a job id loads the three mock levels; the empty id loads nothing. */
    constructor(jobId: string)
      ensures this.jobId == jobId && editingLevel == None
      ensures jobId != "" ==> levels == MockLevels(jobId)
      ensures jobId == "" ==> levels == []
      ensures Valid()
    {
      this.jobId := jobId;
      levels := if jobId != "" then MockLevels(jobId) else [];
      editingLevel := None;
    }

    /** `handleAddLevel(values)` with the id the clock gives; values failing the schema never
        reach it. The new level goes last with order n + 1. */
    method AddLevel(values: LevelValues, id: string)
      requires Valid()
      modifies this
      ensures Valid()
      ensures ValidValues(values) ==> levels == old(levels) + [NewLevel(id, values, |old(levels)|, jobId)]
      ensures !ValidValues(values) ==> levels == old(levels)
      ensures editingLevel == old(editingLevel)
    {
      if ValidValues(values) {
        levels := levels + [NewLevel(id, values, |levels|, jobId)];
      }
    }

    /** `handleEditClick(level)`. */
    method EditClick(level: PipelineLevel)
      modifies this
      ensures editingLevel == Some(level) && levels == old(levels)
    {
      editingLevel := Some(level);
    }

    /** `handleEditLevel(values)`: without a level being edited nothing happens; otherwise
        the levels with its id are edited and the edit is cleared. */
    method EditLevel(values: LevelValues)
      requires Valid()
      modifies this
      ensures Valid()
      ensures old(editingLevel).None? || !ValidValues(values) ==>
        levels == old(levels) && editingLevel == old(editingLevel)
      ensures old(editingLevel).Some? && ValidValues(values) ==>
        levels == Edited(old(levels), old(editingLevel).value.id, values) && editingLevel == None
    {
      if editingLevel.Some? && ValidValues(values) {
        levels := Edited(levels, editingLevel.value.id, values);
        editingLevel := None;
      }
    }

    /** `handleDeleteLevel(id)`: the list is numbered afterwards whatever it was before. */
    method DeleteLevel(id: string)
      modifies this
      ensures Valid()
      ensures levels == AfterDelete(old(levels), id)
      ensures editingLevel == old(editingLevel)
    {
      levels := AfterDelete(levels, id);
    }
  }
}
