/**
 * The systems table of src/components/systemTable.tsx: the project filter
 * over the fetched systems and the Project column.
 */
module SystemTable {
  import opened Wrappers
  import opened ProjectFilter

  datatype System = System(
    uuid: string,
    systemNumber: string,
    description: string,
    area: string,
    systemType: string,
    contractors: string,
    project: Option<ProjectRef>)

  function ProjectOf(sys: System): Option<ProjectRef> {
    sys.project
  }

  /**
   * `filteredSystems`: every system when no project is selected; otherwise
   * exactly those whose project is present and has the selected uuid.
   */
  function FilteredSystems(systems: seq<System>, selected: string): (r: seq<System>)
    ensures |r| <= |systems|
    ensures selected == "" ==> r == systems
    ensures selected != "" ==> forall i :: 0 <= i < |r| ==>
      r[i] in systems && r[i].project.Some? && r[i].project.value.uuid == selected
    ensures selected != "" ==>
      forall i :: 0 <= i < |systems| && systems[i].project.Some? && systems[i].project.value.uuid == selected ==>
        systems[i] in r
  {
    SelectRows(systems, ProjectOf, selected)
  }

  /** Filtering keeps the original order, and filtering the filtered list changes nothing. */
  lemma FilteredSystemsKeepsOrder(front: seq<System>, back: seq<System>, selected: string)
    ensures FilteredSystems(front + back, selected) == FilteredSystems(front, selected) + FilteredSystems(back, selected)
    ensures FilteredSystems(FilteredSystems(front, selected), selected) == FilteredSystems(front, selected)
  {
    SelectRowsConcat(front, back, ProjectOf, selected);
    SelectRowsTwice(front, ProjectOf, selected);
  }

  /** A system without a project survives no selection but the empty one. */
  lemma UnassignedSystemsHidden(systems: seq<System>, selected: string, i: nat)
    requires selected != "" && i < |systems| && systems[i].project.None?
    ensures multiset(FilteredSystems(systems, selected))[systems[i]] == 0
  {
    SelectRowsCount(systems, ProjectOf, selected, systems[i]);
  }

  /** The Project column: `row.project?.name ?? "-"`. */
  function ProjectColumn(sys: System): (s: string)
    ensures sys.project.None? ==> s == "-"
    ensures sys.project.Some? ==> s == sys.project.value.name
  {
    ProjectName(sys.project)
  }
}
