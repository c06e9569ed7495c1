/**
 * The project table of src/components/projectTable.tsx: its `data`,
 * `editOpen` and `editForm` state, the Edit button that fills the form, and
 * the two handlers that change the list once the server has accepted a save
 * or a deletion.
 */
module ProjectTable {
  import opened Wrappers
  import Keyed

  datatype Project = Project(
    uuid: string,
    name: string,
    description: string,
    sector: Option<string>,
    createdAt: Option<string>)

  /** The edit dialog's fields. */
  datatype EditForm = EditForm(uuid: string, name: string, description: string)

  const BlankForm := EditForm("", "", "")

  function UuidOf(p: Project): string {
    p.uuid
  }

  /** The form the Edit button opens for a row. */
  function FormFor(row: Project): EditForm {
    EditForm(row.uuid, row.name, row.description)
  }

  /** `{ ...p, name: editForm.name, description: editForm.description }`. */
  function Renamed(form: EditForm): Project -> Project {
    (p: Project) => p.(name := form.name, description := form.description)
  }

  /** The `handleEditSave` map: the entries with the form's uuid take its name and description. */
  function WithEdit(data: seq<Project>, form: EditForm): (r: seq<Project>)
    ensures |r| == |data|
    ensures forall i :: 0 <= i < |data| ==>
      r[i].uuid == data[i].uuid && r[i].sector == data[i].sector && r[i].createdAt == data[i].createdAt
    ensures forall i :: 0 <= i < |data| && data[i].uuid == form.uuid ==>
      r[i].name == form.name && r[i].description == form.description
    ensures forall i :: 0 <= i < |data| && data[i].uuid != form.uuid ==> r[i] == data[i]
  {
    Keyed.UpdateKey(data, UuidOf, form.uuid, Renamed(form))
  }

  /** `prev.filter(p => p.uuid !== uuid)`. */
  function WithoutProject(data: seq<Project>, uuid: string): (r: seq<Project>)
    ensures |r| <= |data|
    ensures forall i :: 0 <= i < |r| ==> r[i].uuid != uuid && r[i] in data
    ensures forall i :: 0 <= i < |data| && data[i].uuid != uuid ==> data[i] in r
  {
    Keyed.RemoveKey(data, UuidOf, uuid)
  }

  /**
   * Opening the editor on a row and saving without changes leaves the list as
   * it was, provided no two projects share a uuid.
   */
  lemma SaveUnchangedForm(data: seq<Project>, row: Project)
    requires Keyed.UniqueKeys(data, UuidOf)
    requires row in data
    ensures WithEdit(data, FormFor(row)) == data
  {
    var j :| 0 <= j < |data| && data[j] == row;
    assert forall i :: 0 <= i < |data| && data[i].uuid == row.uuid ==> i == j;
  }

  /** Saving the same form twice leaves the list as saving it once. */
  lemma EditTwice(data: seq<Project>, form: EditForm)
    ensures WithEdit(WithEdit(data, form), form) == WithEdit(data, form)
  {
    Keyed.UpdateKeyTwice(data, UuidOf, form.uuid, Renamed(form));
  }

  /** An edit keeps every entry's uuid, so it never makes two entries share one. */
  lemma EditKeepsUuids(data: seq<Project>, form: EditForm)
    ensures Keyed.Keys(WithEdit(data, form), UuidOf) == Keyed.Keys(data, UuidOf)
    ensures Keyed.UniqueKeys(data, UuidOf) ==> Keyed.UniqueKeys(WithEdit(data, form), UuidOf)
  {
    Keyed.UpdateKeyKeepsKeys(data, UuidOf, form.uuid, Renamed(form));
    if Keyed.UniqueKeys(data, UuidOf) {
      Keyed.UpdateKeyPreservesUnique(data, UuidOf, form.uuid, Renamed(form));
    }
  }

  /** The entries a deletion keeps stay in their relative order, each as often as before. */
  lemma DeleteKeepsOrder(front: seq<Project>, back: seq<Project>, uuid: string, p: Project)
    ensures WithoutProject(front + back, uuid) == WithoutProject(front, uuid) + WithoutProject(back, uuid)
    ensures multiset(WithoutProject(front, uuid))[p] == if p.uuid != uuid then multiset(front)[p] else 0
  {
    Keyed.RemoveKeyConcat(front, back, UuidOf, uuid);
    Keyed.RemoveKeyCount(front, UuidOf, uuid, p);
  }

  /** Deleting an absent uuid changes nothing; deleting a uuid twice is deleting it once. */
  lemma DeleteAbsentOrTwice(data: seq<Project>, uuid: string)
    ensures (forall i :: 0 <= i < |data| ==> data[i].uuid != uuid) ==> WithoutProject(data, uuid) == data
    ensures WithoutProject(WithoutProject(data, uuid), uuid) == WithoutProject(data, uuid)
  {
    if forall i :: 0 <= i < |data| ==> data[i].uuid != uuid {
      Keyed.RemoveAbsentKey(data, UuidOf, uuid);
    }
    Keyed.RemoveKeyTwice(data, UuidOf, uuid);
  }

  /** Saving the form of a project that has just been deleted changes nothing. */
  lemma EditAfterDelete(data: seq<Project>, form: EditForm)
    ensures WithEdit(WithoutProject(data, form.uuid), form) == WithoutProject(data, form.uuid)
  {
    Keyed.UpdateAfterRemove(data, UuidOf, form.uuid, Renamed(form));
  }

  /** A deletion never makes two entries share a uuid. */
  lemma DeleteKeepsUuidsUnique(data: seq<Project>, uuid: string)
    requires Keyed.UniqueKeys(data, UuidOf)
    ensures Keyed.UniqueKeys(WithoutProject(data, uuid), UuidOf)
  {
    Keyed.RemoveKeyPreservesUnique(data, UuidOf, uuid);
  }

  /** The component's state. */
  class Component {
    var data: seq<Project>
    var editOpen: bool
    var editForm: EditForm

    constructor ()
      ensures data == [] && !editOpen && editForm == BlankForm
    {
      data := [];
      editOpen := false;
      editForm := BlankForm;
    }

    /** The row's Edit button: copy the row's uuid, name and description into the form and open it. */
    method OpenEdit(row: Project)
      modifies this
      ensures editForm == FormFor(row) && editOpen && data == old(data)
    {
      editForm := FormFor(row);
      editOpen := true;
    }

    /**
     * `handleEditSave`: after an accepted PUT the list takes the form's values
     * and the dialog closes; a rejected or failed PUT changes neither.
     */
    method HandleEditSave(responseOk: bool)
      modifies this
      ensures data == if responseOk then WithEdit(old(data), old(editForm)) else old(data)
      ensures editOpen == if responseOk then false else old(editOpen)
      ensures editForm == old(editForm)
      ensures Keyed.UniqueKeys(old(data), UuidOf) ==> Keyed.UniqueKeys(data, UuidOf)
    {
      if !responseOk {
        return;
      }
      EditKeepsUuids(data, editForm);
      data := WithEdit(data, editForm);
      editOpen := false;
    }

    /**
     * `handleDelete`: a declined confirmation returns at once; otherwise an
     * accepted DELETE drops the entries with that uuid and a failed one
     * changes nothing.
     */
    method HandleDelete(uuid: string, confirmed: bool, responseOk: bool)
      modifies this
      ensures data == if confirmed && responseOk then WithoutProject(old(data), uuid) else old(data)
      ensures editOpen == old(editOpen) && editForm == old(editForm)
      ensures Keyed.UniqueKeys(old(data), UuidOf) ==> Keyed.UniqueKeys(data, UuidOf)
    {
      if !confirmed {
        return;
      }
      if !responseOk {
        return;
      }
      if Keyed.UniqueKeys(data, UuidOf) {
        DeleteKeepsUuidsUnique(data, uuid);
      }
      data := WithoutProject(data, uuid);
    }
  }
}
