/**
 * The role resolver of src/utils/roles.ts: one query against the `users`
 * table of the record store, collapsed to an optional role, and an equality
 * test on the result.
 */
module Roles {
  import opened Wrappers
  import ArrayOps

  /**
   * A role as the middleware sees it. The store's column is cast to the role
   * type without any check, so any string can come back: `Other` carries it.
   */
  datatype Role = Admin | Completion | Other(name: string)

  /** The string a role stands for; role comparisons in the source are string comparisons. */
  function RoleName(r: Role): string {
    match r
    case Admin => "admin"
    case Completion => "completion"
    case Other(n) => n
  }

  /** The role a stored string denotes, as the cast reads it. */
  function ParseRole(s: string): (r: Role)
    ensures RoleName(r) == s
    ensures Canonical(r)
  {
    if s == "admin" then Admin
    else if s == "completion" then Completion
    else Other(s)
  }

  /** `Other` never carries the name of a named role. */
  predicate Canonical(r: Role) {
    r.Other? ==> r.name != "admin" && r.name != "completion"
  }

  /** On canonical roles, the name determines the role: parsing the name gives the role back. */
  lemma ParseRoleName(r: Role)
    requires Canonical(r)
    ensures ParseRole(RoleName(r)) == r
  {
  }

  /** `role === r` for a lookup result that may be `undefined`. */
  predicate HasRole(found: Option<Role>, r: Role) {
    found.Some? && RoleName(found.value) == RoleName(r)
  }

  /** A row of the `users` table; only the columns the query touches. */
  datatype UserRow = UserRow(uuid: string, role: string)

  /** The record store: reachable with its `users` rows, or failing with a message. */
  datatype Store = Online(users: seq<UserRow>) | Offline(reason: string)

  /** What `select('role')` yields for a row. */
  datatype RoleRow = RoleRow(role: string)

  /** The `{ data, error }` pair a query resolves to. */
  datatype QueryResponse = QueryResponse(data: Option<RoleRow>, error: Option<string>)

  /** The error the store reports when `.single()` does not find exactly one row. */
  const NotSingleRow := "JSON object requested, multiple (or no) rows returned"

  /** The condition of `.eq('uuid', userId)` as a filter callback. */
  function HasUuid(userId: string): UserRow -> bool {
    (row: UserRow) => row.uuid == userId
  }

  /** The rows `.eq('uuid', userId)` selects, in table order. */
  function RowsFor(users: seq<UserRow>, userId: string): (rows: seq<UserRow>)
    ensures forall i :: 0 <= i < |rows| ==> rows[i] in users && rows[i].uuid == userId
    ensures forall i :: 0 <= i < |users| && users[i].uuid == userId ==> users[i] in rows
  {
    ArrayOps.Filter(users, HasUuid(userId))
  }

  /**
   * `from('users').select('role').eq('uuid', userId).single()`: data exactly
   * when the store answers and exactly one row matches, an error otherwise.
   */
  function SelectRole(store: Store, userId: string): (resp: QueryResponse)
    ensures resp.data.Some? <==> resp.error.None?
    ensures resp.data.Some? <==> store.Online? && |RowsFor(store.users, userId)| == 1
    ensures resp.data.Some? ==> resp.data == Some(RoleRow(RowsFor(store.users, userId)[0].role))
  {
    match store
    case Offline(reason) => QueryResponse(None, Some(reason))
    case Online(users) =>
      var rows := RowsFor(users, userId);
      if |rows| == 1 then QueryResponse(Some(RoleRow(rows[0].role)), None)
      else QueryResponse(None, Some(NotSingleRow))
  }

  /**
   * `getRoleFromDb`, given the query's response: `undefined` when the query
   * reports an error or no row, otherwise the row's role unchanged.
   */
  function GetRoleFromDb(resp: QueryResponse): (r: Option<Role>)
    ensures r.None? <==> resp.error.Some? || resp.data.None?
    ensures r.Some? ==> RoleName(r.value) == resp.data.value.role && Canonical(r.value)
  {
    if resp.error.Some? || resp.data.None? then None
    else Some(ParseRole(resp.data.value.role))
  }

  /** The lookup the middleware is given: `getRoleFromDb` against a fixed store. */
  function RoleLookup(store: Store): string -> Option<Role> {
    userId => GetRoleFromDb(SelectRole(store, userId))
  }

  /** `checkRoleFromDb(userId, role)`: the looked-up role equals `role`. */
  function CheckRoleFromDb(lookup: string -> Option<Role>, userId: string, role: Role): (b: bool)
    ensures b ==> lookup(userId).Some?
    ensures lookup(userId) == Some(role) ==> b
  {
    var userRole := lookup(userId);
    HasRole(userRole, role)
  }

  /** Row `i` is the one and only row of the table with uuid `userId`. */
  ghost predicate OnlyRowFor(users: seq<UserRow>, userId: string, i: int) {
    0 <= i < |users| && users[i].uuid == userId &&
    forall j :: 0 <= j < |users| && users[j].uuid == userId ==> j == i
  }

  /**
   * A lookup finds a role exactly when the store answers and exactly one row
   * of the table has the user's uuid; the role is that row's, unchanged.
   */
  lemma LookupSelectsSingleRow(store: Store, userId: string)
    ensures RoleLookup(store)(userId).Some? <==>
      store.Online? && exists i :: OnlyRowFor(store.users, userId, i)
    ensures forall i :: store.Online? && OnlyRowFor(store.users, userId, i) ==>
      RoleLookup(store)(userId) == Some(ParseRole(store.users[i].role))
  {
    if store.Online? {
      forall i | OnlyRowFor(store.users, userId, i)
        ensures RoleLookup(store)(userId) == Some(ParseRole(store.users[i].role))
      {
        LookupOfStoredUser(store.users, i);
      }
      if !exists i :: OnlyRowFor(store.users, userId, i) {
        LookupWithoutSingleRow(store.users, userId);
      }
    }
  }

  /** Without a one and only row for the user, the lookup fails. */
  lemma LookupWithoutSingleRow(users: seq<UserRow>, userId: string)
    requires forall i :: !OnlyRowFor(users, userId, i)
    ensures RoleLookup(Online(users))(userId) == None
  {
    if exists k :: 0 <= k < |users| && users[k].uuid == userId {
      var k :| 0 <= k < |users| && users[k].uuid == userId;
      assert !OnlyRowFor(users, userId, k);
      var j :| 0 <= j < |users| && users[j].uuid == userId && j != k;
      if j < k {
        RowsForCountsMatches(users, userId, j, k);
      } else {
        RowsForCountsMatches(users, userId, k, j);
      }
    } else {
      RowsForNone(users, userId);
    }
  }

  /** A user with exactly one row in the table gets that row's role. */
  lemma LookupOfStoredUser(users: seq<UserRow>, i: nat)
    requires i < |users|
    requires forall j :: 0 <= j < |users| && j != i ==> users[j].uuid != users[i].uuid
    ensures RoleLookup(Online(users))(users[i].uuid) == Some(ParseRole(users[i].role))
  {
    var u := users[i].uuid;
    var front, back := users[..i], users[i + 1..];
    assert users == front + [users[i]] + back;
    ArrayOps.FilterConcat(front + [users[i]], back, HasUuid(u));
    ArrayOps.FilterConcat(front, [users[i]], HasUuid(u));
    RowsForNone(front, u);
    RowsForNone(back, u);
    assert RowsFor([users[i]], u) == [users[i]];
    assert RowsFor(users, u) == [users[i]];
  }

  /** A table without a row for the user selects nothing. */
  lemma {:induction false} RowsForNone(users: seq<UserRow>, userId: string)
    requires forall j :: 0 <= j < |users| ==> users[j].uuid != userId
    ensures RowsFor(users, userId) == []
  {
    if users != [] {
      RowsForNone(users[1..], userId);
    }
  }

  /** A user without a row, a user with several rows, and an unreachable store all give `undefined`. */
  lemma LookupFailures(users: seq<UserRow>, userId: string, reason: string)
    ensures (forall i :: 0 <= i < |users| ==> users[i].uuid != userId) ==>
      RoleLookup(Online(users))(userId) == None
    ensures (exists i, j :: 0 <= i < j < |users| && users[i].uuid == userId && users[j].uuid == userId) ==>
      RoleLookup(Online(users))(userId) == None
    ensures RoleLookup(Offline(reason))(userId) == None
  {
    if exists i, j :: 0 <= i < j < |users| && users[i].uuid == userId && users[j].uuid == userId {
      var i, j :| 0 <= i < j < |users| && users[i].uuid == userId && users[j].uuid == userId;
      RowsForCountsMatches(users, userId, i, j);
    }
  }

  /** Two matching rows of the table are two rows of the selection. */
  lemma {:induction false} RowsForCountsMatches(users: seq<UserRow>, userId: string, i: nat, j: nat)
    requires i < j < |users| && users[i].uuid == userId && users[j].uuid == userId
    ensures |RowsFor(users, userId)| >= 2
  {
    ArrayOps.FilterConcat(users[..j], users[j..], HasUuid(userId));
    assert users == users[..j] + users[j..];
    assert users[i] == users[..j][i];
    assert users[j] == users[j..][0];
  }

  /** A failed lookup makes every role check false. */
  lemma CheckRoleOnFailure(lookup: string -> Option<Role>, userId: string, role: Role)
    requires lookup(userId).None?
    ensures !CheckRoleFromDb(lookup, userId, role)
  {
  }

  /** For the store's lookup, the check is exactly equality of roles. */
  lemma CheckRoleIsEquality(store: Store, userId: string, role: Role)
    requires Canonical(role)
    ensures CheckRoleFromDb(RoleLookup(store), userId, role) <==> RoleLookup(store)(userId) == Some(role)
  {
    var found := RoleLookup(store)(userId);
    if CheckRoleFromDb(RoleLookup(store), userId, role) {
      ParseRoleName(found.value);
      ParseRoleName(role);
    }
  }

  /** No user passes both the admin check and the completion check. */
  lemma ChecksExclusive(lookup: string -> Option<Role>, userId: string)
    ensures !(CheckRoleFromDb(lookup, userId, Admin) && CheckRoleFromDb(lookup, userId, Completion))
  {
  }
}
