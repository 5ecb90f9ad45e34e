/**
 * The review database schema: status and classification enumerations, the
 * row types, and the uniqueness constraints the schema declares. Fields that
 * the using code reads but the schema file does not declare (is_deleted,
 * has_training_data, the reviewer counts, group_type, related_to,
 * last_updated and the current/previous revision tables) are included.
 */
module Models {
  import opened Wrappers

  /** Edits are keyed by their Wikipedia revision id, always positive. */
  type EditId = x: int | x > 0 witness 1
  type UserId = int
  type GroupId = int

  /** STATUSES */
  datatype Status = Pending | Partial | Done

  function StatusCode(s: Status): int
  {
    match s
    case Pending => 0
    case Partial => 1
    case Done => 2
  }

  function StatusOfCode(code: int): (r: Option<Status>)
    ensures r.Some? <==> 0 <= code <= 2
    ensures r.Some? ==> StatusCode(r.value) == code
  {
    if code == 0 then Some(Pending) else if code == 1 then Some(Partial)
    else if code == 2 then Some(Done) else None
  }

  /** `get_status_display()` */
  function StatusLabel(s: Status): string
  {
    match s
    case Pending => "Pending"
    case Partial => "Partial"
    case Done => "Done"
  }

  /** CLASSIFICATIONS */
  datatype Label = Vandalism | Constructive | Skipped

  const Classifications: seq<(int, string)> := [(0, "Vandalism"), (1, "Constructive"), (2, "Skipped")]

  /** CLASSIFICATION_IDS: `{i for i, _ in CLASSIFICATIONS}` */
  const ClassificationIds: set<int> := set p | p in Classifications :: p.0

  function LabelCode(l: Label): int
  {
    match l
    case Vandalism => 0
    case Constructive => 1
    case Skipped => 2
  }

  function LabelOfCode(code: int): (r: Option<Label>)
    ensures r.Some? ==> LabelCode(r.value) == code
  {
    if code == 0 then Some(Vandalism) else if code == 1 then Some(Constructive)
    else if code == 2 then Some(Skipped) else None
  }

  /** The classification ids are exactly 0, 1 and 2, the codes of the three labels. */
  lemma ClassificationIdsAreLabelCodes(code: int)
    ensures ClassificationIds == {0, 1, 2}
    ensures code in ClassificationIds <==> LabelOfCode(code).Some?
  {
    assert Classifications[0].0 == 0 && Classifications[1].0 == 1 && Classifications[2].0 == 2;
    assert forall p | p in Classifications :: p.0 in {0, 1, 2};
  }

  /** Label codes and statuses codes are read back as what was written. */
  lemma CodesRoundTrip(l: Label, s: Status)
    ensures LabelOfCode(LabelCode(l)) == Some(l)
    ensures StatusOfCode(StatusCode(s)) == Some(s)
  {
  }

  datatype User = User(
    id: UserId,
    username: string,
    isReviewer: bool,
    isAdmin: bool,
    isBot: bool,
    historicalEditCount: int)

  datatype EditGroup = EditGroup(
    id: GroupId,
    name: string,
    weight: int,
    groupType: int,
    relatedTo: Option<GroupId>)

  datatype Edit = Edit(
    id: EditId,
    groups: set<GroupId>,
    isDeleted: bool,
    status: Status,
    classification: Option<Label>,
    hasTrainingData: bool,
    numberOfReviewers: int,
    numberOfReviewersAgreeing: int,
    lastUpdated: int)

  /** A new Edit row with the schema's defaults: status Pending, no classification. */
  function NewEdit(id: EditId): (e: Edit)
    ensures e.id == id && e.status == Pending && e.classification == None
    ensures !e.isDeleted && !e.hasTrainingData && e.groups == {}
  {
    Edit(id, {}, false, Pending, None, false, 0, 0, 0)
  }

  /** A row of the Classification table: one user's vote on one edit. */
  datatype Vote = Vote(edit: EditId, user: UserId, classification: Label, comment: Option<string>)

  /** The `type` column of the legacy Revision table. */
  datatype RevisionType = Current | Previous

  function RevisionTypeCode(t: RevisionType): int
  {
    if t == Current then 0 else 1
  }

  /** A stored revision; `isCreation` is only ever set on a current revision. */
  datatype RevisionRow = RevisionRow(minor: bool, isCreation: bool, timestamp: int, text: string)

  /** TrainingData: every column is required except prevUser. */
  datatype TrainingData = TrainingData(
    timestamp: int,
    comment: string,
    user: string,
    userEditCount: int,
    userDistinctPages: int,
    userWarns: int,
    userRegTime: int,
    prevUser: Option<string>,
    pageTitle: string,
    pageNamespace: int,
    pageCreatedTime: int,
    pageCreator: string,
    pageNumRecentEdits: int,
    pageNumRecentReverts: int)

  /** Scores recorded for an edit; a zero or missing score is falsy. */
  datatype ScoreData = ScoreData(reverted: Option<int>, training: Option<int>)

  /** Classification's constraint `one_edit_classification_per_user`. */
  predicate OneVotePerUser(votes: seq<Vote>)
  {
    forall i, j | 0 <= i < |votes| && 0 <= j < |votes| &&
                  votes[i].edit == votes[j].edit && votes[i].user == votes[j].user :: i == j
  }

  /** EditGroup's `unique=True` on name. */
  predicate UniqueGroupNames(groups: map<GroupId, EditGroup>)
  {
    forall g, h | g in groups && h in groups && groups[g].name == groups[h].name :: g == h
  }

  /** Whether `user` has a vote on `edit`. */
  predicate HasVote(votes: seq<Vote>, edit: EditId, user: UserId)
  {
    exists i :: 0 <= i < |votes| && votes[i].edit == edit && votes[i].user == user
  }

  /** `Classification.objects.filter(edit=edit, classification=kind).count()` */
  function CountVotes(votes: seq<Vote>, edit: EditId, kind: Label): nat
  {
    if votes == [] then 0
    else CountVotes(votes[..|votes| - 1], edit, kind) +
         (if votes[|votes| - 1].edit == edit && votes[|votes| - 1].classification == kind then 1 else 0)
  }

  /** The votes on `edit`, in table order. */
  function VotesOn(votes: seq<Vote>, edit: EditId): (r: seq<Vote>)
    ensures forall v :: v in r <==> v in votes && v.edit == edit
    ensures |r| <= |votes|
  {
    if votes == [] then []
    else VotesOn(votes[..|votes| - 1], edit) +
         (if votes[|votes| - 1].edit == edit then [votes[|votes| - 1]] else [])
  }

  /** The rows left by `Classification.objects.filter(edit=edit).delete()`. */
  function VotesWithout(votes: seq<Vote>, edit: EditId): (r: seq<Vote>)
    ensures forall v :: v in r <==> v in votes && v.edit != edit
    ensures |r| <= |votes|
  {
    if votes == [] then []
    else VotesWithout(votes[..|votes| - 1], edit) +
         (if votes[|votes| - 1].edit != edit then [votes[|votes| - 1]] else [])
  }

  /** Removing an edit's votes keeps one vote per user and edit. */
  lemma {:induction false} VotesWithoutKeepsOneVotePerUser(votes: seq<Vote>, edit: EditId)
    requires OneVotePerUser(votes)
    ensures OneVotePerUser(VotesWithout(votes, edit))
    decreases |votes|
  {
    if votes != [] {
      var prefix := votes[..|votes| - 1];
      var last := votes[|votes| - 1];
      assert OneVotePerUser(prefix) by {
        forall i, j | 0 <= i < |prefix| && 0 <= j < |prefix| &&
                      prefix[i].edit == prefix[j].edit && prefix[i].user == prefix[j].user
          ensures i == j
        {
          assert votes[i] == prefix[i] && votes[j] == prefix[j];
        }
      }
      VotesWithoutKeepsOneVotePerUser(prefix, edit);
      var rest := VotesWithout(prefix, edit);
      if last.edit != edit {
        forall v | v in rest ensures !(v.edit == last.edit && v.user == last.user) {
          var k :| 0 <= k < |prefix| && prefix[k] == v;
          assert votes[k] == v;
        }
        var r := rest + [last];
        forall i, j | 0 <= i < |r| && 0 <= j < |r| && r[i].edit == r[j].edit && r[i].user == r[j].user
          ensures i == j
        {
        }
      }
    }
  }

  /** Appending a vote by a user who has none on that edit keeps the constraint. */
  lemma AppendVoteKeepsOneVotePerUser(votes: seq<Vote>, v: Vote)
    requires OneVotePerUser(votes)
    requires !HasVote(votes, v.edit, v.user)
    ensures OneVotePerUser(votes + [v])
  {
    var r := votes + [v];
    forall i, j | 0 <= i < |r| && 0 <= j < |r| && r[i].edit == r[j].edit && r[i].user == r[j].user
      ensures i == j
    {
    }
  }
}
