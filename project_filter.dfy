/**
 * The "filter by project" select shared by the systems table and the
 * project-assignment table: both hold rows that may point to a project, and
 * both show either every row or the rows of the selected project.
 */
module ProjectFilter {
  import opened Wrappers
  import opened JsValues
  import ArrayOps

  /** The `{ uuid, name }` project a row may point to. */
  datatype ProjectRef = ProjectRef(uuid: string, name: string)

  /** The filter callback `row => row.project?.uuid === selected`: a row without a project never matches. */
  function OnProject<T>(projectOf: T -> Option<ProjectRef>, selected: string): T -> bool {
    row => projectOf(row).Some? && projectOf(row).value.uuid == selected
  }

  /** `selected ? rows.filter(row => row.project?.uuid === selected) : rows`. */
  function SelectRows<T>(rows: seq<T>, projectOf: T -> Option<ProjectRef>, selected: string): (r: seq<T>)
    ensures |r| <= |rows|
    ensures selected == "" ==> r == rows
    ensures selected != "" ==> forall i :: 0 <= i < |r| ==>
      r[i] in rows && projectOf(r[i]).Some? && projectOf(r[i]).value.uuid == selected
    ensures selected != "" ==>
      forall i :: 0 <= i < |rows| && projectOf(rows[i]).Some? && projectOf(rows[i]).value.uuid == selected ==>
        rows[i] in r
  {
    if Truthy(Some(selected)) then ArrayOps.Filter(rows, OnProject(projectOf, selected)) else rows
  }

  /** The selected rows keep their relative order. */
  lemma SelectRowsConcat<T>(front: seq<T>, back: seq<T>, projectOf: T -> Option<ProjectRef>, selected: string)
    ensures SelectRows(front + back, projectOf, selected) ==
      SelectRows(front, projectOf, selected) + SelectRows(back, projectOf, selected)
  {
    if selected != "" {
      ArrayOps.FilterConcat(front, back, OnProject(projectOf, selected));
    }
  }

  /** Each selected row occurs as often as in the full list; the other rows not at all. */
  lemma SelectRowsCount<T>(rows: seq<T>, projectOf: T -> Option<ProjectRef>, selected: string, x: T)
    ensures multiset(SelectRows(rows, projectOf, selected))[x] ==
      if selected == "" || OnProject(projectOf, selected)(x) then multiset(rows)[x] else 0
  {
    if selected != "" {
      ArrayOps.FilterCount(rows, OnProject(projectOf, selected), x);
    }
  }

  /** Selecting a project again on an already filtered list changes nothing. */
  lemma SelectRowsTwice<T>(rows: seq<T>, projectOf: T -> Option<ProjectRef>, selected: string)
    ensures SelectRows(SelectRows(rows, projectOf, selected), projectOf, selected) ==
      SelectRows(rows, projectOf, selected)
  {
    if selected != "" {
      ArrayOps.FilterIdempotent(rows, OnProject(projectOf, selected));
    }
  }

  /** `row.project?.name ?? "-"`: the related project's name, or `-` when there is none. */
  function ProjectName(project: Option<ProjectRef>): (s: string)
    ensures project.None? ==> s == "-"
    ensures project.Some? ==> s == project.value.name
  {
    Nullish(if project.Some? then Some(project.value.name) else None, "-")
  }
}
