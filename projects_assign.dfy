/**
 * The project-assignment table of src/components/projectsAssign.tsx: its
 * `projectUsers` state, the deletion handler, the project filter and the
 * cells that show an assignment's project, user and date.
 */
module ProjectsAssign {
  import opened Wrappers
  import opened JsValues
  import opened ProjectFilter
  import Keyed

  datatype UserRef = UserRef(uuid: string, name: string)

  /** An assignment of a user to a project; either relation may be `null`. */
  datatype ProjectUser = ProjectUser(
    uuid: string,
    user: Option<UserRef>,
    project: Option<ProjectRef>,
    assignedAt: Option<string>)

  function UuidOf(pu: ProjectUser): string {
    pu.uuid
  }

  function ProjectOf(pu: ProjectUser): Option<ProjectRef> {
    pu.project
  }

  /**
   * `filteredProjectUsers`: every assignment when no project is selected;
   * otherwise exactly those whose project is present and has the selected uuid.
   */
  function FilteredProjectUsers(rows: seq<ProjectUser>, selected: string): (r: seq<ProjectUser>)
    ensures |r| <= |rows|
    ensures selected == "" ==> r == rows
    ensures selected != "" ==> forall i :: 0 <= i < |r| ==>
      r[i] in rows && r[i].project.Some? && r[i].project.value.uuid == selected
    ensures selected != "" ==>
      forall i :: 0 <= i < |rows| && rows[i].project.Some? && rows[i].project.value.uuid == selected ==>
        rows[i] in r
  {
    SelectRows(rows, ProjectOf, selected)
  }

  /** The filter keeps the original order and is idempotent. */
  lemma FilteredKeepsOrder(front: seq<ProjectUser>, back: seq<ProjectUser>, selected: string)
    ensures FilteredProjectUsers(front + back, selected) ==
      FilteredProjectUsers(front, selected) + FilteredProjectUsers(back, selected)
    ensures FilteredProjectUsers(FilteredProjectUsers(front, selected), selected) ==
      FilteredProjectUsers(front, selected)
  {
    SelectRowsConcat(front, back, ProjectOf, selected);
    SelectRowsTwice(front, ProjectOf, selected);
  }

  /** `prev.filter(pu => pu.uuid !== uuid)`. */
  function WithoutAssignment(rows: seq<ProjectUser>, uuid: string): (r: seq<ProjectUser>)
    ensures |r| <= |rows|
    ensures forall i :: 0 <= i < |r| ==> r[i].uuid != uuid && r[i] in rows
    ensures forall i :: 0 <= i < |rows| && rows[i].uuid != uuid ==> rows[i] in r
  {
    Keyed.RemoveKey(rows, UuidOf, uuid)
  }

  /** The assignments a deletion keeps stay in their relative order and keep distinct uuids. */
  lemma DeleteKeepsOrder(front: seq<ProjectUser>, back: seq<ProjectUser>, uuid: string)
    ensures WithoutAssignment(front + back, uuid) == WithoutAssignment(front, uuid) + WithoutAssignment(back, uuid)
    ensures Keyed.UniqueKeys(front, UuidOf) ==> Keyed.UniqueKeys(WithoutAssignment(front, uuid), UuidOf)
  {
    Keyed.RemoveKeyConcat(front, back, UuidOf, uuid);
    if Keyed.UniqueKeys(front, UuidOf) {
      Keyed.RemoveKeyPreservesUnique(front, UuidOf, uuid);
    }
  }

  /**
   * A deletion keeps every other assignment as many times as it occurred and
   * the deleted uuid none; deleting an absent uuid changes nothing, and
   * deleting a uuid twice is deleting it once.
   */
  lemma DeleteCounts(rows: seq<ProjectUser>, uuid: string, pu: ProjectUser)
    ensures multiset(WithoutAssignment(rows, uuid))[pu] == if pu.uuid != uuid then multiset(rows)[pu] else 0
    ensures (forall i :: 0 <= i < |rows| ==> rows[i].uuid != uuid) ==> WithoutAssignment(rows, uuid) == rows
    ensures WithoutAssignment(WithoutAssignment(rows, uuid), uuid) == WithoutAssignment(rows, uuid)
  {
    Keyed.RemoveKeyCount(rows, UuidOf, uuid, pu);
    if forall i :: 0 <= i < |rows| ==> rows[i].uuid != uuid {
      Keyed.RemoveAbsentKey(rows, UuidOf, uuid);
    }
    Keyed.RemoveKeyTwice(rows, UuidOf, uuid);
  }

  /** The Project column. */
  function ProjectColumn(row: ProjectUser): (s: string)
    ensures row.project.None? ==> s == "-"
    ensures row.project.Some? ==> s == row.project.value.name
  {
    ProjectName(row.project)
  }

  /** The User column: `row.user?.name ?? "-"`. */
  function UserColumn(row: ProjectUser): (s: string)
    ensures row.user.None? ==> s == "-"
    ensures row.user.Some? ==> s == row.user.value.name
  {
    Nullish(if row.user.Some? then Some(row.user.value.name) else None, "-")
  }

  /**
   * The Assigned At cell: `-` for a missing or empty date. `format` stands for
   * `new Date(s)` with its `isNaN` test and `toLocaleString()`, `None` for an
   * invalid date.
   */
  function AssignedAtCell(assignedAt: Option<string>, format: string -> Option<string>): (s: string)
    ensures !Truthy(assignedAt) ==> s == "-"
    ensures Truthy(assignedAt) && format(assignedAt.value).None? ==> s == "-"
    ensures Truthy(assignedAt) && format(assignedAt.value).Some? ==> s == format(assignedAt.value).value
  {
    if !Truthy(assignedAt) then "-"
    else
      match format(assignedAt.value)
      case None => "-"
      case Some(text) => text
  }

  /** The component's state. */
  class Component {
    var projectUsers: seq<ProjectUser>

    constructor ()
      ensures projectUsers == []
    {
      projectUsers := [];
    }

    /**
     * `handleDelete`: a declined confirmation returns at once; otherwise an
     * accepted DELETE drops the assignment with that uuid and a failed one
     * changes nothing.
     */
    method HandleDelete(uuid: string, confirmed: bool, responseOk: bool)
      modifies this
      ensures projectUsers == if confirmed && responseOk then WithoutAssignment(old(projectUsers), uuid)
                              else old(projectUsers)
    {
      if !confirmed {
        return;
      }
      if !responseOk {
        return;
      }
      projectUsers := WithoutAssignment(projectUsers, uuid);
    }
  }
}
