/**
 * The user table of src/components/userTable.tsx: its `users` and `editUser`
 * state, and the two handlers that change them once the server has accepted
 * an edit or a deletion.
 */
module UserTable {
  import opened Wrappers
  import Keyed

  /** The role vocabulary of the user records (not the middleware's roles). */
  datatype UserRole = Commissioning | Completion

  datatype User = User(uuid: string, name: string, surname: Option<string>, email: string, role: UserRole)

  function UuidOf(u: User): string {
    u.uuid
  }

  /** The map callback's replacement: the edited user, whatever the entry held. */
  function Becomes(updated: User): User -> User {
    _ => updated
  }

  /** `prev.map(u => u.uuid === updatedUser.uuid ? updatedUser : u)`. */
  function WithEdit(users: seq<User>, updated: User): (r: seq<User>)
    ensures |r| == |users|
    ensures forall i :: 0 <= i < |users| && users[i].uuid == updated.uuid ==> r[i] == updated
    ensures forall i :: 0 <= i < |users| && users[i].uuid != updated.uuid ==> r[i] == users[i]
  {
    Keyed.UpdateKey(users, UuidOf, updated.uuid, Becomes(updated))
  }

  /** `prev.filter(u => u.uuid !== uuid)`. */
  function WithoutUser(users: seq<User>, uuid: string): (r: seq<User>)
    ensures |r| <= |users|
    ensures forall i :: 0 <= i < |r| ==> r[i].uuid != uuid && r[i] in users
    ensures forall i :: 0 <= i < |users| && users[i].uuid != uuid ==> users[i] in r
  {
    Keyed.RemoveKey(users, UuidOf, uuid)
  }

  /** An edit keeps the column of uuids, so it never makes two entries share a uuid. */
  lemma EditKeepsUuids(users: seq<User>, updated: User)
    ensures Keyed.Keys(WithEdit(users, updated), UuidOf) == Keyed.Keys(users, UuidOf)
    ensures Keyed.UniqueKeys(users, UuidOf) ==> Keyed.UniqueKeys(WithEdit(users, updated), UuidOf)
  {
    Keyed.UpdateKeyKeepsKeys(users, UuidOf, updated.uuid, Becomes(updated));
    if Keyed.UniqueKeys(users, UuidOf) {
      Keyed.UpdateKeyPreservesUnique(users, UuidOf, updated.uuid, Becomes(updated));
    }
  }

  /** Saving the same edit twice leaves the list as saving it once. */
  lemma EditTwice(users: seq<User>, updated: User)
    ensures WithEdit(WithEdit(users, updated), updated) == WithEdit(users, updated)
  {
    Keyed.UpdateKeyTwice(users, UuidOf, updated.uuid, Becomes(updated));
  }

  /** The entries a deletion keeps stay in their relative order. */
  lemma DeleteKeepsOrder(front: seq<User>, back: seq<User>, uuid: string)
    ensures WithoutUser(front + back, uuid) == WithoutUser(front, uuid) + WithoutUser(back, uuid)
  {
    Keyed.RemoveKeyConcat(front, back, UuidOf, uuid);
  }

  /** A deletion keeps every other entry as many times as it occurred, and the deleted uuid none. */
  lemma DeleteCounts(users: seq<User>, uuid: string, u: User)
    ensures multiset(WithoutUser(users, uuid))[u] == if u.uuid != uuid then multiset(users)[u] else 0
  {
    Keyed.RemoveKeyCount(users, UuidOf, uuid, u);
  }

  /** Deleting an absent uuid changes nothing; deleting a uuid twice is deleting it once. */
  lemma DeleteAbsentOrTwice(users: seq<User>, uuid: string)
    ensures (forall i :: 0 <= i < |users| ==> users[i].uuid != uuid) ==> WithoutUser(users, uuid) == users
    ensures WithoutUser(WithoutUser(users, uuid), uuid) == WithoutUser(users, uuid)
  {
    if forall i :: 0 <= i < |users| ==> users[i].uuid != uuid {
      Keyed.RemoveAbsentKey(users, UuidOf, uuid);
    }
    Keyed.RemoveKeyTwice(users, UuidOf, uuid);
  }

  /** A deletion never makes two entries share a uuid. */
  lemma DeleteKeepsUuidsUnique(users: seq<User>, uuid: string)
    requires Keyed.UniqueKeys(users, UuidOf)
    ensures Keyed.UniqueKeys(WithoutUser(users, uuid), UuidOf)
  {
    Keyed.RemoveKeyPreservesUnique(users, UuidOf, uuid);
  }

  /** Deleting a user right after editing them gives what deleting alone gives. */
  lemma DeleteAfterEdit(users: seq<User>, updated: User)
    ensures WithoutUser(WithEdit(users, updated), updated.uuid) == WithoutUser(users, updated.uuid)
  {
    Keyed.RemoveAfterUpdate(users, UuidOf, updated.uuid, Becomes(updated));
  }

  /** Saving an edit of a user who has just been deleted changes nothing. */
  lemma EditAfterDelete(users: seq<User>, updated: User)
    ensures WithEdit(WithoutUser(users, updated.uuid), updated) == WithoutUser(users, updated.uuid)
  {
    Keyed.UpdateAfterRemove(users, UuidOf, updated.uuid, Becomes(updated));
  }

  /** The component's state. */
  class Component {
    var users: seq<User>
    var editUser: Option<User>

    constructor ()
      ensures users == [] && editUser == None
    {
      users := [];
      editUser := None;
    }

    /** The row's Edit button: `setEditUser(row.original)`. */
    method OpenEditor(row: User)
      modifies this
      ensures editUser == Some(row) && users == old(users)
    {
      editUser := Some(row);
    }

    /**
     * `handleEditUser`: after an accepted PUT, every entry with the edited
     * uuid becomes the edited user and the editor closes; a rejected or failed
     * PUT throws before either update.
     */
    method HandleEditUser(updated: User, responseOk: bool)
      modifies this
      ensures users == if responseOk then WithEdit(old(users), updated) else old(users)
      ensures editUser == if responseOk then None else old(editUser)
      ensures Keyed.UniqueKeys(old(users), UuidOf) ==> Keyed.UniqueKeys(users, UuidOf)
    {
      if !responseOk {
        return;
      }
      EditKeepsUuids(users, updated);
      users := WithEdit(users, updated);
      editUser := None;
    }

    /**
     * `handleDeleteUser`: a declined confirmation returns at once; otherwise
     * an accepted DELETE drops the entries with that uuid and a failed one
     * changes nothing.
     */
    method HandleDeleteUser(uuid: string, confirmed: bool, responseOk: bool)
      modifies this
      ensures users == if confirmed && responseOk then WithoutUser(old(users), uuid) else old(users)
      ensures editUser == old(editUser)
      ensures Keyed.UniqueKeys(old(users), UuidOf) ==> Keyed.UniqueKeys(users, UuidOf)
    {
      if !confirmed {
        return;
      }
      if !responseOk {
        return;
      }
      if Keyed.UniqueKeys(users, UuidOf) {
        DeleteKeepsUuidsUnique(users, uuid);
      }
      users := WithoutUser(users, uuid);
    }
  }
}
