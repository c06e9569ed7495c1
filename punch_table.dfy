/**
 * The punch table of src/components/punchTable.tsx: the `"NULL"` fallbacks of
 * its cells, the status badge, and the status update applied to the `data`
 * state once the server has accepted it.
 */
module PunchTable {
  import opened Wrappers
  import opened JsValues
  import Keyed

  datatype Punch = Punch(
    id: int,
    title: string,
    description: Option<string>,
    status: string,
    projectId: Option<string>,
    createdByName: Option<string>,
    modifiedByName: Option<string>,
    createdAt: Option<string>,
    updatedAt: Option<string>)

  /** The statuses the table knows. */
  const Statuses: seq<string> := ["OPEN", "IN_PROGRESS", "RESOLVED"]

  const NullText := "NULL"

  // ---------------------------------------------------------------------------
  // Cells

  /** `displayValue`: `"NULL"` for `null`, `undefined` and `""`; any other value as it is. */
  function DisplayValue(value: Option<string>): (s: string)
    ensures !Truthy(value) ==> s == NullText
    ensures Truthy(value) ==> s == value.value
    ensures s != ""
  {
    if value.None? || value.value == "" then NullText else value.value
  }

  /** Showing a shown value again changes nothing. */
  lemma DisplayValueStable(value: Option<string>)
    ensures DisplayValue(Some(DisplayValue(value))) == DisplayValue(value)
  {
  }

  /**
   * The Created At and Updated At cells: `"NULL"` for a falsy date, otherwise
   * the date as `format` (standing for `new Date(s).toLocaleString()`) renders it.
   */
  function DateCell(value: Option<string>, format: string -> string): (s: string)
    ensures !Truthy(value) ==> s == NullText && s == DisplayValue(value)
    ensures Truthy(value) ==> s == format(value.value)
  {
    if Truthy(value) then format(value.value) else NullText
  }

  // ---------------------------------------------------------------------------
  // The status badge

  /** A badge: its `label` (here `text`) and its `color` classes. */
  datatype Badge = Badge(text: string, color: string)

  const OpenColor := "bg-red-200 text-red-800"
  const InProgressColor := "bg-yellow-200 text-yellow-800"
  const ResolvedColor := "bg-green-200 text-green-800"
  const FallbackColor := "bg-gray-100 text-gray-700"

  /** The own entries of `statusMap`. */
  function StatusMapEntry(status: string): (entry: Option<Badge>)
    ensures entry.Some? <==> status in Statuses
  {
    if status == "OPEN" then Some(Badge("Open", OpenColor))
    else if status == "IN_PROGRESS" then Some(Badge("In Progress", InProgressColor))
    else if status == "RESOLVED" then Some(Badge("Resolved", ResolvedColor))
    else None
  }

  /**
   * The badge the fallback intends: the mapped label and colour for a known
   * status, the status itself in gray for any other.
   */
  function StatusBadge(status: string): (b: Badge)
    ensures status == "OPEN" ==> b == Badge("Open", OpenColor)
    ensures status == "IN_PROGRESS" ==> b == Badge("In Progress", InProgressColor)
    ensures status == "RESOLVED" ==> b == Badge("Resolved", ResolvedColor)
    ensures status !in Statuses ==> b == Badge(status, FallbackColor)
  {
    StatusMapEntry(status).GetOr(Badge(status, FallbackColor))
  }

  /** A badge is gray exactly when its status is not one of the listed statuses. */
  lemma GrayExactlyForUnlisted(status: string)
    ensures StatusBadge(status).color == FallbackColor <==> status !in Statuses
  {
    assert Statuses[0] == "OPEN" && Statuses[1] == "IN_PROGRESS" && Statuses[2] == "RESOLVED";
  }

  /**
   * The names every object literal inherits from `Object.prototype`; looking
   * one of them up in `statusMap` finds a truthy inherited member.
   */
  const InheritedNames: set<string> := {
    "constructor", "hasOwnProperty", "isPrototypeOf", "propertyIsEnumerable",
    "toString", "toLocaleString", "valueOf", "__proto__",
    "__defineGetter__", "__defineSetter__", "__lookupGetter__", "__lookupSetter__"
  }

  /** A badge whose fields may be `undefined`. */
  datatype RawBadge = RawBadge(text: Option<string>, color: Option<string>)

  function Raw(b: Badge): RawBadge {
    RawBadge(Some(b.text), Some(b.color))
  }

  /**
   * `statusMap[status] || fallback` as written: an inherited name finds a
   * function (or `Object.prototype`), which is truthy and has neither a
   * `label` nor a `color` property.
   */
  function StatusBadgeAsWritten(status: string): (b: RawBadge)
    ensures status !in InheritedNames ==> b == Raw(StatusBadge(status))
  {
    match StatusMapEntry(status)
    case Some(entry) => Raw(entry)
    case None =>
      if status in InheritedNames then RawBadge(None, None)
      else Raw(Badge(status, FallbackColor))
  }

  /** For an inherited name the written lookup loses both the label and the gray class. */
  lemma InheritedStatusLosesFallback(status: string)
    requires status in InheritedNames
    ensures StatusBadgeAsWritten(status) == RawBadge(None, None)
    ensures StatusBadge(status) == Badge(status, FallbackColor)
  {
    assert status !in Statuses;
  }

  // ---------------------------------------------------------------------------
  // The status update

  function IdOf(p: Punch): int {
    p.id
  }

  /** `{ ...punch, status: newStatus }`. */
  function WithStatusValue(newStatus: string): Punch -> Punch {
    (p: Punch) => p.(status := newStatus)
  }

  /** The `updateStatus` map: the punches with that id take the new status, and only that field changes. */
  function WithStatus(data: seq<Punch>, id: int, newStatus: string): (r: seq<Punch>)
    ensures |r| == |data|
    ensures forall i :: 0 <= i < |data| ==> r[i].(status := data[i].status) == data[i]
    ensures forall i :: 0 <= i < |data| && data[i].id == id ==> r[i].status == newStatus
    ensures forall i :: 0 <= i < |data| && data[i].id != id ==> r[i] == data[i]
  {
    Keyed.UpdateKey(data, IdOf, id, WithStatusValue(newStatus))
  }

  /** Of two updates of the same punch, the later status wins. */
  lemma LaterStatusWins(data: seq<Punch>, id: int, first: string, second: string)
    ensures WithStatus(WithStatus(data, id, first), id, second) == WithStatus(data, id, second)
  {
    var once := WithStatus(data, id, first);
    var twice := WithStatus(once, id, second);
    forall i | 0 <= i < |data| ensures twice[i] == WithStatus(data, id, second)[i] {
      assert twice[i].(status := once[i].status) == once[i];
    }
  }

  /** A status update keeps the ids of all punches, so it never makes two punches share one. */
  lemma StatusKeepsIds(data: seq<Punch>, id: int, newStatus: string)
    ensures Keyed.Keys(WithStatus(data, id, newStatus), IdOf) == Keyed.Keys(data, IdOf)
    ensures Keyed.UniqueKeys(data, IdOf) ==> Keyed.UniqueKeys(WithStatus(data, id, newStatus), IdOf)
  {
    Keyed.UpdateKeyKeepsKeys(data, IdOf, id, WithStatusValue(newStatus));
    if Keyed.UniqueKeys(data, IdOf) {
      Keyed.UpdateKeyPreservesUnique(data, IdOf, id, WithStatusValue(newStatus));
    }
  }

  /** The component's state. */
  class Component {
    var data: seq<Punch>

    constructor ()
      ensures data == []
    {
      data := [];
    }

    /** `updateStatus`: an accepted PUT rewrites the status of the punches with that id; a failed one changes nothing. */
    method UpdateStatus(id: int, newStatus: string, responseOk: bool)
      modifies this
      ensures data == if responseOk then WithStatus(old(data), id, newStatus) else old(data)
    {
      if !responseOk {
        return;
      }
      data := WithStatus(data, id, newStatus);
    }
  }
}
