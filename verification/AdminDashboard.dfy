/**
 * The administrator's dashboard: the badge style of a moderation status and
 * the counters of the user table.
 */
module AdminDashboard {
  import opened Wrappers
  import opened JsString
  import opened JsArray
  import ServerModel

  /** The four badge styles. */
  predicate IsBadgeClass(s: string) {
    s == "published" || s == "pending" || s == "rejected" || s == "draft"
  }

  /**
   * `getStatusBadgeClass`: the lower-cased status when it is one of the four
   * styles, and `pending` for anything else, a missing status included.
   */
  function GetStatusBadgeClass(status: Option<string>): (r: string)
    ensures IsBadgeClass(r)
    ensures status.Some? && IsBadgeClass(ToLower(status.value)) ==> r == ToLower(status.value)
    ensures status.None? || !IsBadgeClass(ToLower(status.value)) ==> r == "pending"
  {
    if status.None? then "pending"
    else
      var s := ToLower(status.value);
      if s == "published" then "published"
      else if s == "pending" then "pending"
      else if s == "rejected" then "rejected"
      else if s == "draft" then "draft"
      else "pending"
  }

  /** The status names the back end stores. */
  function StatusName(s: ServerModel.Status): string {
    match s
    case Draft => "draft"
    case Pending => "pending"
    case Published => "published"
    case Rejected => "rejected"
  }

  /** Every status the back end stores is shown in its own style. */
  lemma StoredStatusKeepsItsStyle(s: ServerModel.Status)
    ensures GetStatusBadgeClass(Some(StatusName(s))) == StatusName(s)
  {
    assert ToLower(StatusName(s)) == StatusName(s);
  }

  /** Capitalisation does not change the style. */
  lemma StyleIgnoresCase(status: string)
    ensures GetStatusBadgeClass(Some(ToUpper(status))) == GetStatusBadgeClass(Some(status))
  {
    assert ToLower(ToUpper(status)) == ToLower(status) by {
      forall i | 0 <= i < |status|
        ensures LowerChar(UpperChar(status[i])) == LowerChar(status[i])
      {
      }
    }
  }

  /** The user-table fields the counters read. */
  datatype UserRow = UserRow(isActive: bool, role: string)

  function IsActive(u: UserRow): bool { u.isActive }
  function IsInactive(u: UserRow): bool { !u.isActive }
  function IsAdminRow(u: UserRow): bool { u.role == "admin" }
  function IsNotAdminRow(u: UserRow): bool { u.role != "admin" }

  /** The `Active:` counter. */
  function ActiveCount(users: seq<UserRow>): (n: nat)
    ensures n <= |users|
  {
    Count(users, IsActive)
  }

  /** The `Admins:` counter. */
  function AdminCount(users: seq<UserRow>): (n: nat)
    ensures n <= |users|
  {
    Count(users, IsAdminRow)
  }

  /** Active and inactive users together are all users; so are administrators and the rest. */
  lemma CountersSplitTheTable(users: seq<UserRow>)
    ensures ActiveCount(users) + Count(users, IsInactive) == |users|
    ensures AdminCount(users) + Count(users, IsNotAdminRow) == |users|
  {
    CountSplits(users, IsActive, IsInactive);
    CountSplits(users, IsAdminRow, IsNotAdminRow);
  }
}
