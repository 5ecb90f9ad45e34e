/**
 * Automatic granting of reviewer rights from a user's local Wikipedia
 * groups and edit history. The Wikipedia lookups are inputs (`Lookups`);
 * a passing check is `Some(reason)`, a failing one `None`, standing for the
 * source's `(True, reason)` and `(False, None)`.
 */
module Rights {
  import opened Wrappers
  import opened Models

  /** The enwiki account of a user as the users query reports it. */
  datatype WikiUser = WikiUser(username: string, groups: set<string>)

  /** The answers of the Wikipedia reader, by username. */
  datatype Lookups = Lookups(
    localUser: string -> Option<WikiUser>,
    editCount: string -> Option<int>,
    warningCount: string -> Option<int>)

  /** The checks of `should_have_access`. */
  datatype Check = IsAdmin | IsReviewer | IsRollbacker | IsExtendedConfirmed | HasEditHistory

  /** Quickest to slowest. */
  const CheckOrder: seq<Check> := [IsAdmin, IsReviewer, IsRollbacker, IsExtendedConfirmed, HasEditHistory]

  const MinimumEditCount := 50

  /** A check on membership of one Wikipedia group. */
  function GroupCheck(wikiUser: Option<WikiUser>, group: string, reason: string): (r: Option<string>)
    ensures r.Some? <==> wikiUser.Some? && group in wikiUser.value.groups
    ensures r.Some? ==> r.value == reason
  {
    if wikiUser.Some? && group in wikiUser.value.groups then Some(reason) else None
  }

  /**
   * `_user_has_edit_history`: more than 50 edits and under 10% of them
   * warnings, written as `10 * warnings < edits`; a failed lookup fails the
   * check. The warning count is only asked for once the edit count passes.
   */
  function EditHistory(wikiUser: Option<WikiUser>, lookups: Lookups): (r: Option<string>)
    ensures r.Some? <==>
              && wikiUser.Some?
              && lookups.editCount(wikiUser.value.username).Some?
              && lookups.editCount(wikiUser.value.username).value > MinimumEditCount
              && lookups.warningCount(wikiUser.value.username).Some?
              && 10 * lookups.warningCount(wikiUser.value.username).value < lookups.editCount(wikiUser.value.username).value
    ensures r.Some? ==> r.value == "user has edit count"
  {
    if wikiUser.None? then None
    else
      var edits := lookups.editCount(wikiUser.value.username);
      if edits.None? then None
      else if edits.value > MinimumEditCount then
        var warnings := lookups.warningCount(wikiUser.value.username);
        if warnings.None? then None
        else if 10 * warnings.value < edits.value then Some("user has edit count")
        else None
      else None
  }

  /** The integer form of the ratio test is the source's `warnings / edits < 0.10`. */
  lemma RatioTest(warnings: int, edits: int)
    requires edits > 0
    ensures warnings as real / edits as real < 0.10 <==> 10 * warnings < edits
  {
    var q := warnings as real / edits as real;
    assert q * edits as real == warnings as real;
    ScaledRatio(q, edits as real, warnings as real);
    assert (10 * warnings) as real == 10.0 * warnings as real;
  }

  lemma ScaledRatio(q: real, e: real, w: real)
    requires e > 0.0 && q * e == w
    ensures q < 0.10 <==> 10.0 * w < e
  {
    assert (0.10 - q) * e == 0.10 * e - w;
    if q < 0.10 {
      assert (0.10 - q) * e > 0.0;
    }
    if q >= 0.10 {
      assert (q - 0.10) * e >= 0.0;
    }
  }

  function RunCheck(c: Check, wikiUser: Option<WikiUser>, lookups: Lookups): Option<string>
  {
    match c
    case IsAdmin => GroupCheck(wikiUser, "sysop", "user has admin access")
    case IsReviewer => GroupCheck(wikiUser, "reviewer", "user has reviewer access")
    case IsRollbacker => GroupCheck(wikiUser, "rollbacker", "user has rollbacker access")
    case IsExtendedConfirmed => GroupCheck(wikiUser, "extendedconfirmed", "user is extended confirmed")
    case HasEditHistory => EditHistory(wikiUser, lookups)
  }

  /** The reason of the first passing check of `checks`, if any passes. */
  function FirstPassing(checks: seq<Check>, wikiUser: Option<WikiUser>, lookups: Lookups): Option<string>
  {
    if checks == [] then None
    else if RunCheck(checks[0], wikiUser, lookups).Some? then RunCheck(checks[0], wikiUser, lookups)
    else FirstPassing(checks[1..], wikiUser, lookups)
  }

  /** The first passing check decides, and access is refused only when none passes. */
  lemma {:induction false} FirstPassingIsFirst(checks: seq<Check>, wikiUser: Option<WikiUser>, lookups: Lookups)
    ensures FirstPassing(checks, wikiUser, lookups).None? <==>
            forall k | 0 <= k < |checks| :: RunCheck(checks[k], wikiUser, lookups).None?
    ensures FirstPassing(checks, wikiUser, lookups).Some? ==>
            exists k | 0 <= k < |checks| :: && FirstPassing(checks, wikiUser, lookups) == RunCheck(checks[k], wikiUser, lookups)
                                             && forall j | 0 <= j < k :: RunCheck(checks[j], wikiUser, lookups).None?
    decreases |checks|
  {
    if checks != [] {
      FirstPassingIsFirst(checks[1..], wikiUser, lookups);
      if RunCheck(checks[0], wikiUser, lookups).None? {
        if FirstPassing(checks, wikiUser, lookups).Some? {
          var k :| 0 <= k < |checks[1..]| && FirstPassing(checks[1..], wikiUser, lookups) == RunCheck(checks[1..][k], wikiUser, lookups)
                   && forall j | 0 <= j < k :: RunCheck(checks[1..][j], wikiUser, lookups).None?;
          assert FirstPassing(checks, wikiUser, lookups) == RunCheck(checks[k + 1], wikiUser, lookups);
          forall j | 0 <= j < k + 1 ensures RunCheck(checks[j], wikiUser, lookups).None? {
            if j > 0 {
              assert checks[j] == checks[1..][j - 1];
            }
          }
        }
        forall k | 0 <= k < |checks[1..]| ensures checks[1..][k] == checks[k + 1] {}
      } else {
        assert RunCheck(checks[0], wikiUser, lookups).Some?;
      }
    }
  }

  /**
   * `should_have_access`: looks the user up once, then runs the checks in
   * order and returns the reason of the first one that passes.
   */
  method ShouldHaveAccess(username: string, lookups: Lookups) returns (r: Option<string>)
    ensures r == FirstPassing(CheckOrder, lookups.localUser(username), lookups)
  {
    var wikiUser := lookups.localUser(username);
    var i := 0;
    while i < |CheckOrder|
      invariant 0 <= i <= |CheckOrder|
      invariant FirstPassing(CheckOrder, wikiUser, lookups) == FirstPassing(CheckOrder[i..], wikiUser, lookups)
    {
      var granted := RunCheck(CheckOrder[i], wikiUser, lookups);
      if granted.Some? {
        return granted;
      }
      assert CheckOrder[i..][1..] == CheckOrder[i + 1..];
      i := i + 1;
    }
    return None;
  }

  /** A user with no enwiki account, or one failing every check, is refused. */
  lemma AccessOfUnknownUser(lookups: Lookups)
    ensures FirstPassing(CheckOrder, None, lookups) == None
  {
    FirstPassingIsFirst(CheckOrder, None, lookups);
  }

  /** A sysop is admitted as such, before any slower check is made. */
  lemma AccessOfSysop(u: WikiUser, lookups: Lookups)
    requires "sysop" in u.groups
    ensures FirstPassing(CheckOrder, Some(u), lookups) == Some("user has admin access")
  {
  }

  /** Access is granted iff the user is in one of the four groups or has the edit history. */
  lemma AccessGranted(u: Option<WikiUser>, lookups: Lookups)
    ensures FirstPassing(CheckOrder, u, lookups).Some? <==>
            || (u.Some? && ("sysop" in u.value.groups || "reviewer" in u.value.groups ||
                            "rollbacker" in u.value.groups || "extendedconfirmed" in u.value.groups))
            || EditHistory(u, lookups).Some?
  {
    FirstPassingIsFirst(CheckOrder, u, lookups);
    assert CheckOrder[0] == IsAdmin && CheckOrder[1] == IsReviewer && CheckOrder[2] == IsRollbacker;
    assert CheckOrder[3] == IsExtendedConfirmed && CheckOrder[4] == HasEditHistory;
    assert (forall k | 0 <= k < |CheckOrder| :: RunCheck(CheckOrder[k], u, lookups).None?) <==>
           (forall k | 0 <= k < 5 :: RunCheck(CheckOrder[k], u, lookups).None?);
  }

  // ---------------------------------------------------------------------
  // Granting
  // ---------------------------------------------------------------------

  /** A relayed notice of granted access; `toUser` says whether the user is messaged too. */
  datatype Notice = Notice(user: UserId, reason: string, toUser: bool)

  /** The parameters of `notify_user_review_rights_granted` in libs/utils.py, besides the user. */
  const UtilsNotifyKeywords: set<string> := {}

  /** The keyword arguments `execute` passes to it. */
  const ExecuteNotifyKeywords: set<string> := {"notify_user", "reason"}

  /** Whether `execute` promotes a user: not already a reviewer and access granted. */
  predicate Promotes(u: User, force: bool, access: Option<string>)
  {
    !u.isReviewer && access.Some?
  }

  /** An existing reviewer is never touched, whatever `force` says. */
  lemma ReviewersUntouched(u: User, force: bool, access: Option<string>)
    ensures u.isReviewer ==> !Promotes(u, force, access)
    ensures !u.isReviewer ==> (Promotes(u, force, access) <==> access.Some?)
  {
  }

  /** The users table and the notices sent. */
  class UserTable {
    var users: map<UserId, User>
    var notices: seq<Notice>

    constructor ()
      ensures users == map[] && notices == []
    {
      users, notices := map[], [];
    }

    /**
     * The decision and save of `execute`: a reviewer is left alone without
     * consulting Wikipedia unless `force`; otherwise the user becomes a
     * reviewer iff access is granted. Returns the reason when it promotes.
     */
    method Promote(id: UserId, force: bool, lookups: Lookups) returns (granted: Option<string>)
      requires id in users
      modifies this
      ensures notices == old(notices)
      ensures granted.Some? <==> Promotes(old(users[id]), force, FirstPassing(CheckOrder, lookups.localUser(old(users[id]).username), lookups))
      ensures granted.Some? ==> granted == FirstPassing(CheckOrder, lookups.localUser(old(users[id]).username), lookups)
      ensures users == if granted.Some? then old(users)[id := old(users[id]).(isReviewer := true)] else old(users)
    {
      var u := users[id];
      if u.isReviewer && !force {
        return None;
      }
      var access := ShouldHaveAccess(u.username, lookups);
      if access.Some? {
        if u.isReviewer {
          return None;
        }
        users := users[id := u.(isReviewer := true)];
        return access;
      }
      return None;
    }

    /**
     * `execute` as written: after the save it calls the `libs/utils.py`
     * notifier, which takes no keyword arguments, with two, so every
     * promotion ends in a TypeError (`raised`) after the user is saved.
     */
    method ExecuteAsWritten(id: UserId, force: bool, notifyUser: bool, lookups: Lookups) returns (raised: bool)
      requires id in users
      modifies this
      ensures raised <==> users != old(users)
      ensures raised ==> users == old(users)[id := old(users[id]).(isReviewer := true)]
      ensures notices == old(notices)
    {
      var granted := Promote(id, force, lookups);
      raised := granted.Some? && !(ExecuteNotifyKeywords <= UtilsNotifyKeywords);
      assert "reason" in ExecuteNotifyKeywords;
    }

    /**
     * `execute` with the notifier that takes `notify_user` and `reason`: a
     * promotion is relayed with its reason, and messaged to the user iff
     * `notifyUser`.
     */
    method Execute(id: UserId, force: bool, notifyUser: bool, lookups: Lookups)
      requires id in users
      modifies this
      ensures id in users && (old(users[id]).isReviewer ==> users[id].isReviewer)
      ensures users.Keys == old(users.Keys)
      ensures forall other | other in users && other != id :: users[other] == old(users[other])
      ensures users[id] == old(users[id]) || users[id] == old(users[id]).(isReviewer := true)
      ensures users != old(users) <==> Promotes(old(users[id]), force, FirstPassing(CheckOrder, lookups.localUser(old(users[id]).username), lookups))
      ensures notices == if users == old(users) then old(notices)
                         else old(notices) + [Notice(id, FirstPassing(CheckOrder, lookups.localUser(old(users[id]).username), lookups).value, notifyUser)]
    {
      var granted := Promote(id, force, lookups);
      if granted.Some? {
        assert users[id] != old(users[id]);
        notices := notices + [Notice(id, granted.value, notifyUser)];
      }
    }
  }

  /** The notifier `execute` imports cannot take the keywords it is given. */
  lemma NotifierRejectsKeywords()
    ensures !(ExecuteNotifyKeywords <= UtilsNotifyKeywords)
  {
    assert "reason" in ExecuteNotifyKeywords;
  }
}
