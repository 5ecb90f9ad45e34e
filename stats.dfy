/**
 * The statistics pages: per-group progress counts and per-reviewer totals
 * and accuracy. The database tables are passed in; a vote's edit is looked
 * up in `edits`.
 */
module Statistics {
  import opened Wrappers
  import opened Models
  import Settings

  // ---------------------------------------------------------------------
  // Edit group statistics
  // ---------------------------------------------------------------------

  datatype GroupStats = GroupStats(weight: int, pending: nat, inProgress: nat, done: nat)

  /** The edits of group `g` whose status is `s`. */
  function InStatus(edits: map<EditId, Edit>, g: GroupId, s: Status): set<EditId>
  {
    set id | id in edits && g in edits[id].groups && edits[id].status == s
  }

  /** The edits of group `g` whose status is not `s` (an `exclude(status=...)` filter). */
  function NotInStatus(edits: map<EditId, Edit>, g: GroupId, s: Status): set<EditId>
  {
    set id | id in edits && g in edits[id].groups && edits[id].status != s
  }

  /** All edits of group `g`. */
  function GroupEdits(edits: map<EditId, Edit>, g: GroupId): set<EditId>
  {
    set id | id in edits && g in edits[id].groups
  }

  /** The counters of one group as written: `done` is the count of edits NOT done. */
  function GroupStatsAsWritten(edits: map<EditId, Edit>, group: EditGroup): GroupStats
  {
    GroupStats(group.weight, |InStatus(edits, group.id, Pending)|, |InStatus(edits, group.id, Partial)|,
               |NotInStatus(edits, group.id, Done)|)
  }

  /** The counters of one group as intended: `done` is the count of edits that are done. */
  function GroupStatsOf(edits: map<EditId, Edit>, group: EditGroup): GroupStats
  {
    GroupStats(group.weight, |InStatus(edits, group.id, Pending)|, |InStatus(edits, group.id, Partial)|,
               |InStatus(edits, group.id, Done)|)
  }

  /** An edit of a group is in exactly one of the three statuses. */
  lemma StatusPartition(edits: map<EditId, Edit>, g: GroupId)
    ensures GroupEdits(edits, g) == InStatus(edits, g, Pending) + InStatus(edits, g, Partial) + InStatus(edits, g, Done)
    ensures NotInStatus(edits, g, Done) == InStatus(edits, g, Pending) + InStatus(edits, g, Partial)
    ensures InStatus(edits, g, Pending) !! InStatus(edits, g, Partial)
    ensures (InStatus(edits, g, Pending) + InStatus(edits, g, Partial)) !! InStatus(edits, g, Done)
  {
    forall id | id in GroupEdits(edits, g)
      ensures id in InStatus(edits, g, Pending) + InStatus(edits, g, Partial) + InStatus(edits, g, Done)
    {
      assert edits[id].status == Pending || edits[id].status == Partial || edits[id].status == Done;
    }
  }

  /** The cardinality of a union of two disjoint sets. */
  lemma DisjointUnionSize<T>(a: set<T>, b: set<T>)
    requires a !! b
    ensures |a + b| == |a| + |b|
  {
    if a != {} {
      var x :| x in a;
      assert (a - {x}) + b == (a + b) - {x};
      DisjointUnionSize(a - {x}, b);
    }
  }

  /** As written, `done` always equals pending plus in progress, whatever is finished. */
  lemma DoneAsWrittenIsUnfinished(edits: map<EditId, Edit>, group: EditGroup)
    ensures GroupStatsAsWritten(edits, group).done ==
            GroupStatsAsWritten(edits, group).pending + GroupStatsAsWritten(edits, group).inProgress
  {
    StatusPartition(edits, group.id);
    DisjointUnionSize(InStatus(edits, group.id, Pending), InStatus(edits, group.id, Partial));
  }

  /** A group whose only edit is done is reported with zero edits done. */
  lemma DoneAsWrittenMissesFinishedEdit()
    ensures GroupStatsAsWritten(map[1 := Edit(1, {7}, false, Done, Some(Vandalism), false, 2, 2, 0)],
                                EditGroup(7, "g", 0, 0, None)).done == 0
    ensures GroupStatsOf(map[1 := Edit(1, {7}, false, Done, Some(Vandalism), false, 2, 2, 0)],
                         EditGroup(7, "g", 0, 0, None)).done == 1
  {
    var edits := map[1 := Edit(1, {7}, false, Done, Some(Vandalism), false, 2, 2, 0)];
    assert NotInStatus(edits, 7, Done) == {};
    assert InStatus(edits, 7, Done) == {1};
  }

  /** As intended, the three counters add up to the number of edits in the group. */
  lemma GroupStatsAddUp(edits: map<EditId, Edit>, group: EditGroup)
    ensures GroupStatsOf(edits, group).pending + GroupStatsOf(edits, group).inProgress +
            GroupStatsOf(edits, group).done == |GroupEdits(edits, group.id)|
  {
    var g := group.id;
    StatusPartition(edits, g);
    DisjointUnionSize(InStatus(edits, g, Pending), InStatus(edits, g, Partial));
    DisjointUnionSize(InStatus(edits, g, Pending) + InStatus(edits, g, Partial), InStatus(edits, g, Done));
  }

  /**
   * `get_edit_group_statistics`: one entry per group, keyed by the group's
   * name (unique in the schema), every group included even without edits.
   */
  function EditGroupStatistics(groups: map<GroupId, EditGroup>, edits: map<EditId, Edit>): (r: map<string, GroupStats>)
    requires UniqueGroupNames(groups)
    ensures forall name :: name in r <==> exists g | g in groups :: groups[g].name == name
    ensures forall g | g in groups :: groups[g].name in r && r[groups[g].name] == GroupStatsOf(edits, groups[g])
  {
    map g | g in groups :: groups[g].name := GroupStatsOf(edits, groups[g])
  }

  // ---------------------------------------------------------------------
  // Reviewer accuracy
  // ---------------------------------------------------------------------

  /**
   * A vote by `user` that enters the accuracy figure: its edit has a final
   * classification and neither that nor the vote is Skipped.
   */
  predicate Counted(v: Vote, edits: map<EditId, Edit>, user: UserId)
  {
    && v.user == user
    && v.edit in edits
    && edits[v.edit].classification.Some?
    && edits[v.edit].classification.value != Skipped
    && v.classification != Skipped
  }

  /** A counted vote that matches the edit's final classification. */
  predicate Agrees(v: Vote, edits: map<EditId, Edit>, user: UserId)
  {
    Counted(v, edits, user) && edits[v.edit].classification == Some(v.classification)
  }

  function CountedVotes(votes: seq<Vote>, edits: map<EditId, Edit>, user: UserId): nat
  {
    if votes == [] then 0
    else CountedVotes(votes[..|votes| - 1], edits, user) + (if Counted(votes[|votes| - 1], edits, user) then 1 else 0)
  }

  function AgreeingVotes(votes: seq<Vote>, edits: map<EditId, Edit>, user: UserId): nat
  {
    if votes == [] then 0
    else AgreeingVotes(votes[..|votes| - 1], edits, user) + (if Agrees(votes[|votes| - 1], edits, user) then 1 else 0)
  }

  /** `Classification.objects.filter(user=user).count()` */
  function UserVoteCount(votes: seq<Vote>, user: UserId): nat
  {
    if votes == [] then 0
    else UserVoteCount(votes[..|votes| - 1], user) + (if votes[|votes| - 1].user == user then 1 else 0)
  }

  /**
   * The percentage of agreeing votes, only once more than the minimum number
   * of votes is counted.
   */
  function AccuracyOf(correct: nat, total: nat): (r: Option<real>)
    ensures r.Some? <==> total > Settings.MinimumEditsForUserAccuracy
  {
    if total > Settings.MinimumEditsForUserAccuracy then
      Some(if correct > 0 then (correct as real / total as real) * 100.0 else 0.0)
    else None
  }

  /** No more votes agree than are counted, and no more are counted than the user cast. */
  lemma {:induction false} CountsBounded(votes: seq<Vote>, edits: map<EditId, Edit>, user: UserId)
    ensures AgreeingVotes(votes, edits, user) <= CountedVotes(votes, edits, user) <= UserVoteCount(votes, user)
    decreases |votes|
  {
    if votes != [] {
      CountsBounded(votes[..|votes| - 1], edits, user);
    }
  }

  /** The accuracy is a percentage. */
  lemma AccuracyIsPercentage(correct: nat, total: nat)
    requires correct <= total
    ensures AccuracyOf(correct, total).Some? ==> 0.0 <= AccuracyOf(correct, total).value <= 100.0
  {
    if total > Settings.MinimumEditsForUserAccuracy && correct > 0 {
      var q := correct as real / total as real;
      assert q * total as real == correct as real;
      assert q <= 1.0;
    }
  }

  /** Agreeing on every counted vote gives full accuracy. */
  lemma AllAgreeingIsFull(total: nat)
    requires total > Settings.MinimumEditsForUserAccuracy
    ensures AccuracyOf(total, total) == Some(100.0)
  {
    assert total as real / total as real == 1.0;
  }

  /** The figures of the accuracy cases in the repository's tests. */
  lemma AccuracyExamples()
    ensures AccuracyOf(50, 50) == Some(100.0)
    ensures AccuracyOf(20, 50) == Some(40.0)
    ensures AccuracyOf(5, 50) == Some(10.0)
    ensures AccuracyOf(0, 50) == Some(0.0)
    ensures AccuracyOf(20, 20) == None
  {
  }

  /** A Skipped vote, or one on a Skipped edit, changes neither count. */
  lemma SkippedNotCounted(votes: seq<Vote>, edits: map<EditId, Edit>, user: UserId, v: Vote)
    requires v.classification == Skipped || (v.edit in edits && edits[v.edit].classification == Some(Skipped))
    ensures CountedVotes(votes + [v], edits, user) == CountedVotes(votes, edits, user)
    ensures AgreeingVotes(votes + [v], edits, user) == AgreeingVotes(votes, edits, user)
  {
    assert (votes + [v])[..|votes|] == votes;
  }

  /**
   * `_calculate_accuracy`: walks the user's votes on classified edits,
   * counting those not Skipped and those agreeing with the edit.
   */
  method CalculateAccuracy(votes: seq<Vote>, edits: map<EditId, Edit>, user: UserId)
    returns (accuracy: Option<real>, total: nat)
    ensures total == CountedVotes(votes, edits, user)
    ensures accuracy == AccuracyOf(AgreeingVotes(votes, edits, user), total)
  {
    var correct: nat := 0;
    total := 0;
    var i := 0;
    while i < |votes|
      invariant 0 <= i <= |votes|
      invariant total == CountedVotes(votes[..i], edits, user)
      invariant correct == AgreeingVotes(votes[..i], edits, user)
    {
      var v := votes[i];
      assert votes[..i + 1][..i] == votes[..i];
      if v.user == user && v.edit in edits && edits[v.edit].classification.Some? {
        var final := edits[v.edit].classification.value;
        if final != Skipped && v.classification != Skipped {
          total := total + 1;
          if final == v.classification {
            correct := correct + 1;
          }
        }
      }
      i := i + 1;
    }
    assert votes[..|votes|] == votes;
    if total > Settings.MinimumEditsForUserAccuracy {
      accuracy := Some(if correct > 0 then (correct as real / total as real) * 100.0 else 0.0);
    } else {
      accuracy := None;
    }
  }

  // ---------------------------------------------------------------------
  // Reviewer statistics
  // ---------------------------------------------------------------------

  datatype AccuracyStats = AccuracyStats(accuracy: Option<real>, classifications: nat)

  /** `extra` holds the two keys the extended listing adds. */
  datatype UserStats = UserStats(isAdmin: bool, totalClassifications: int, extra: Option<AccuracyStats>)

  /** Historical edits plus the votes stored in the reviewer tool. */
  function TotalClassifications(u: User, votes: seq<Vote>): int
  {
    u.historicalEditCount + UserVoteCount(votes, u.id)
  }

  /** The entry of one reviewer. */
  function StatsOf(u: User, votes: seq<Vote>, edits: map<EditId, Edit>, extended: bool): (r: UserStats)
    ensures r.isAdmin == u.isAdmin && r.totalClassifications == TotalClassifications(u, votes)
    ensures r.extra.Some? <==> extended
    ensures extended ==> r.extra.value.classifications == CountedVotes(votes, edits, u.id)
  {
    UserStats(u.isAdmin, TotalClassifications(u, votes),
              if extended then Some(AccuracyStats(AccuracyOf(AgreeingVotes(votes, edits, u.id), CountedVotes(votes, edits, u.id)),
                                                  CountedVotes(votes, edits, u.id)))
              else None)
  }

  /** The extended listing only adds the accuracy keys to the plain one. */
  lemma ExtendedOnlyAdds(u: User, votes: seq<Vote>, edits: map<EditId, Edit>)
    ensures StatsOf(u, votes, edits, true).(extra := None) == StatsOf(u, votes, edits, false)
    ensures StatsOf(u, votes, edits, true).extra.value.classifications <=
            StatsOf(u, votes, edits, true).totalClassifications - u.historicalEditCount
    ensures var a := StatsOf(u, votes, edits, true).extra.value.accuracy;
            a.Some? ==> 0.0 <= a.value <= 100.0
  {
    CountsBounded(votes, edits, u.id);
    AccuracyIsPercentage(AgreeingVotes(votes, edits, u.id), CountedVotes(votes, edits, u.id));
  }

  /** Django's `unique=True` on the username. */
  predicate UniqueUsernames(users: seq<User>)
  {
    forall i, j | 0 <= i < |users| && 0 <= j < |users| && users[i].username == users[j].username :: i == j
  }

  /** A user listed by `get_user_statistics`. */
  predicate Listed(u: User, votes: seq<Vote>)
  {
    u.isReviewer && TotalClassifications(u, votes) > 0
  }

  /**
   * `get_user_statistics`: one entry per reviewer, keyed by username, for
   * those with at least one classification, historical or stored.
   */
  method UserStatistics(users: seq<User>, votes: seq<Vote>, edits: map<EditId, Edit>, extended: bool)
    returns (r: map<string, UserStats>)
    requires UniqueUsernames(users)
    ensures forall name :: name in r <==> exists i | 0 <= i < |users| :: users[i].username == name && Listed(users[i], votes)
    ensures forall i | 0 <= i < |users| && Listed(users[i], votes) ::
              users[i].username in r && r[users[i].username] == StatsOf(users[i], votes, edits, extended)
  {
    var all: map<string, UserStats> := map[];
    var i := 0;
    while i < |users|
      invariant 0 <= i <= |users|
      invariant forall name :: name in all <==> exists j | 0 <= j < i :: users[j].username == name && users[j].isReviewer
      invariant forall j | 0 <= j < i && users[j].isReviewer ::
                  users[j].username in all && all[users[j].username] == StatsOf(users[j], votes, edits, extended)
    {
      var u := users[i];
      if u.isReviewer {
        var extra: Option<AccuracyStats> := None;
        if extended {
          var accuracy, counted := CalculateAccuracy(votes, edits, u.id);
          extra := Some(AccuracyStats(accuracy, counted));
        }
        all := all[u.username := UserStats(u.isAdmin, u.historicalEditCount + UserVoteCount(votes, u.id), extra)];
      }
      i := i + 1;
    }
    r := map name | name in all && all[name].totalClassifications > 0 :: all[name];
  }
}
