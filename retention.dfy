/**
 * The three retention commands that react to a deleted source revision:
 * `mark_edits_as_deleted` (keep, tombstone or remove), `update_edit_deletion`
 * (its older variant over the legacy Revision table) and
 * `update_deleted_edits` (keep or remove, without tombstones).
 *
 * The revision-deletion lookup is an input: for each edit it reports that
 * the revision is present, that it was deleted, or that the lookup raised.
 * Each command's worker pool becomes a sequential pass over the rows of the
 * population in the order the query returns them; what the pass does to one
 * edit's rows is what handling that edit alone does.
 */
module Retention {
  import opened Wrappers
  import opened Models
  import opened Store
  import opened EditSetUtils

  /** What `has_revision_been_deleted(edit.id)` gave for one edit. */
  datatype Signal = NotDeleted | Deleted | LookupFailed

  /** The three commands. */
  datatype Policy = MarkEditsAsDeleted | UpdateEditDeletion | UpdateDeletedEdits

  /** Deleting the edit's votes, TrainingData, CurrentRevision and PreviousRevision rows. */
  function Purged(db: Db, id: EditId): Db
  {
    db.(votes := VotesWithout(db.votes, id), trainingData := db.trainingData - {id},
        currentRevisions := db.currentRevisions - {id}, previousRevisions := db.previousRevisions - {id})
  }

  /** Deleting the edit's votes, TrainingData and legacy Revision rows. */
  function PurgedLegacy(db: Db, id: EditId): Db
  {
    db.(votes := VotesWithout(db.votes, id), trainingData := db.trainingData - {id},
        revisions := db.revisions - {(id, Current), (id, Previous)})
  }

  /** `edit.delete()` with the rows that cascade from it. */
  function Removed(db: Db, id: EditId): Db
  {
    db.(edits := db.edits - {id}, trainingData := db.trainingData - {id},
        currentRevisions := db.currentRevisions - {id}, previousRevisions := db.previousRevisions - {id},
        revisions := db.revisions - {(id, Current), (id, Previous)}, scores := db.scores - {id})
  }

  /** Whether the edit is in one of the review groups (the group_type 1 groups). */
  predicate InReviewGroup(e: Edit, reviewGroups: set<GroupId>)
  {
    e.groups * reviewGroups != {}
  }

  /** The ids of the group_type 1 groups, read once when a command starts. */
  function ReviewGroups(groups: map<GroupId, EditGroup>): (r: set<GroupId>)
    ensures forall g :: g in r <==> g in groups && groups[g].groupType == 1
  {
    set g | g in groups && groups[g].groupType == 1
  }

  /** `_have_training_data` of `update_deleted_edits`, reading the Revision type filter as `type=0`. */
  predicate HaveTrainingData(db: Db, e: Edit)
  {
    e.status == Done && (e.id, Current) in db.revisions && e.id in db.trainingData
  }

  /**
   * `_handle_edit` of each command for the edit object `e`, read when the
   * population was queried. The boolean says whether the item raised (its
   * exception is logged by the first two commands and dropped by the third).
   */
  function Item(p: Policy, db: Db, e: Edit, reviewGroups: set<GroupId>, s: Signal): (Db, bool)
  {
    match s
    case LookupFailed => (db, true)
    case NotDeleted => (db, false)
    case Deleted =>
      match p
      case MarkEditsAsDeleted =>
        if e.status == Done && e.hasTrainingData then MarkedDeleted(db, e)
        else if InReviewGroup(e, reviewGroups) then MarkedDeleted(Purged(db, e.id), e)
        else (Removed(Purged(db, e.id), e.id), false)
      case UpdateEditDeletion =>
        if e.status == Done && e.hasTrainingData then MarkedDeleted(db, e)
        else if InReviewGroup(e, reviewGroups) then MarkedDeleted(PurgedLegacy(db, e.id), e)
        else MarkedDeleted(Removed(PurgedLegacy(db, e.id), e.id), e)
      case UpdateDeletedEdits =>
        if HaveTrainingData(db, e) then (db.(edits := db.edits[e.id := e.(isDeleted := true)]), false)
        else (Removed(PurgedLegacy(db, e.id), e.id), false)
  }

  /** Every row that belongs to one edit; notices are shared and not part of it. */
  datatype Rows = Rows(
    edit: Option<Edit>,
    training: Option<TrainingData>,
    current: Option<RevisionRow>,
    previous: Option<RevisionRow>,
    legacyCurrent: Option<RevisionRow>,
    legacyPrevious: Option<RevisionRow>,
    score: Option<ScoreData>,
    votes: seq<Vote>)

  function Get<K, V>(m: map<K, V>, k: K): Option<V>
  {
    if k in m then Some(m[k]) else None
  }

  function RowsOf(db: Db, id: EditId): Rows
  {
    Rows(Get(db.edits, id), Get(db.trainingData, id), Get(db.currentRevisions, id), Get(db.previousRevisions, id),
         Get(db.revisions, (id, Current)), Get(db.revisions, (id, Previous)), Get(db.scores, id),
         VotesOn(db.votes, id))
  }

  /** Deleting one edit's votes leaves another edit's votes as they were. */
  lemma {:induction false} VotesOnWithoutOther(votes: seq<Vote>, gone: EditId, id: EditId)
    requires id != gone
    ensures VotesOn(VotesWithout(votes, gone), id) == VotesOn(votes, id)
    decreases |votes|
  {
    if votes != [] {
      var prefix, last := votes[..|votes| - 1], votes[|votes| - 1];
      VotesOnWithoutOther(prefix, gone, id);
      var w := VotesWithout(prefix, gone);
      if last.edit != gone {
        assert VotesWithout(votes, gone) == w + [last];
        assert (w + [last])[..|w|] == w;
      } else {
        assert VotesWithout(votes, gone) == w;
      }
    }
  }

  /** Deleting an edit's votes leaves none on it. */
  lemma {:induction false} VotesOnWithoutSame(votes: seq<Vote>, id: EditId)
    ensures VotesOn(VotesWithout(votes, id), id) == []
    decreases |votes|
  {
    if votes != [] {
      var prefix, last := votes[..|votes| - 1], votes[|votes| - 1];
      VotesOnWithoutSame(prefix, id);
      var w := VotesWithout(prefix, id);
      if last.edit != id {
        assert VotesWithout(votes, id) == w + [last];
        assert (w + [last])[..|w|] == w;
      } else {
        assert VotesWithout(votes, id) == w;
      }
    }
  }

  /** Removing another edit's legacy Revision rows keeps this edit's. */
  lemma LegacyRowsFrame(revisions: map<(EditId, RevisionType), RevisionRow>, gone: EditId, id: EditId)
    requires id != gone
    ensures Get(revisions - {(gone, Current), (gone, Previous)}, (id, Current)) == Get(revisions, (id, Current))
    ensures Get(revisions - {(gone, Current), (gone, Previous)}, (id, Previous)) == Get(revisions, (id, Previous))
  {
    assert (id, Current) != (gone, Current) && (id, Current) != (gone, Previous);
    assert (id, Previous) != (gone, Current) && (id, Previous) != (gone, Previous);
  }

  lemma MarkedDeletedFrameRows(db: Db, e: Edit, id: EditId)
    requires id != e.id
    ensures RowsOf(MarkedDeleted(db, e).0, id) == RowsOf(db, id)
  {
    if !e.isDeleted && e.id in db.edits {
      var flagged := db.edits[e.id := db.edits[e.id].(isDeleted := true)];
      assert Get(flagged, id) == Get(db.edits, id);
    }
  }

  /** The rows of `id` after deleting another edit's rows, or flagging another edit. */
  lemma StepsFrame(db: Db, e: Edit, id: EditId)
    requires id != e.id
    ensures RowsOf(Purged(db, e.id), id) == RowsOf(db, id)
    ensures RowsOf(PurgedLegacy(db, e.id), id) == RowsOf(db, id)
    ensures RowsOf(Removed(db, e.id), id) == RowsOf(db, id)
    ensures RowsOf(MarkedDeleted(db, e).0, id) == RowsOf(db, id)
    ensures RowsOf(db.(edits := db.edits[e.id := e.(isDeleted := true)]), id) == RowsOf(db, id)
  {
    VotesOnWithoutOther(db.votes, e.id, id);
    LegacyRowsFrame(db.revisions, e.id, id);
    MarkedDeletedFrameRows(db, e, id);
  }

  /** The decision and every deletion concern the rows of `e.id` alone. */
  lemma ItemFrame(p: Policy, db: Db, e: Edit, reviewGroups: set<GroupId>, s: Signal, id: EditId)
    requires id != e.id
    ensures RowsOf(Item(p, db, e, reviewGroups, s).0, id) == RowsOf(db, id)
  {
    StepsFrame(db, e, id);
    StepsFrame(Purged(db, e.id), e, id);
    StepsFrame(PurgedLegacy(db, e.id), e, id);
    StepsFrame(Removed(PurgedLegacy(db, e.id), e.id), e, id);
  }

  /** `MarkedDeleted` seen through the edit's own rows. */
  function Flagged(rows: Rows, e: Edit): (Rows, bool)
  {
    if e.isDeleted then (rows, false)
    else if rows.edit.Some? then (rows.(edit := Some(rows.edit.value.(isDeleted := true))), false)
    else (rows, true)
  }

  /** The rows left once the edit row and its cascade are gone; votes are protected and stay. */
  function Gone(rows: Rows): Rows
  {
    Rows(None, None, None, None, None, None, None, rows.votes)
  }

  /** What handling an edit does to a view of its own rows. */
  function ItemRows(p: Policy, r: Rows, e: Edit, reviewGroups: set<GroupId>, s: Signal): (Rows, bool)
  {
    var purged := r.(training := None, current := None, previous := None, votes := []);
    var purgedLegacy := r.(training := None, legacyCurrent := None, legacyPrevious := None, votes := []);
    match s
    case LookupFailed => (r, true)
    case NotDeleted => (r, false)
    case Deleted =>
      match p
      case MarkEditsAsDeleted =>
        if e.status == Done && e.hasTrainingData then Flagged(r, e)
        else if InReviewGroup(e, reviewGroups) then Flagged(purged, e)
        else (Gone(purged), false)
      case UpdateEditDeletion =>
        if e.status == Done && e.hasTrainingData then Flagged(r, e)
        else if InReviewGroup(e, reviewGroups) then Flagged(purgedLegacy, e)
        else Flagged(Gone(purgedLegacy), e)
      case UpdateDeletedEdits =>
        if e.status == Done && r.legacyCurrent.Some? && r.training.Some? then
          (r.(edit := Some(e.(isDeleted := true))), false)
        else (Gone(purgedLegacy), false)
  }

  /** Each deletion step seen through the edit's own rows. */
  lemma StepsOwn(db: Db, e: Edit)
    ensures RowsOf(Purged(db, e.id), e.id) == RowsOf(db, e.id).(training := None, current := None, previous := None, votes := [])
    ensures RowsOf(PurgedLegacy(db, e.id), e.id) ==
            RowsOf(db, e.id).(training := None, legacyCurrent := None, legacyPrevious := None, votes := [])
    ensures RowsOf(Removed(db, e.id), e.id) == Gone(RowsOf(db, e.id))
    ensures var rows := RowsOf(db, e.id);
            var (after, raised) := MarkedDeleted(db, e);
            (RowsOf(after, e.id), raised) == Flagged(rows, e)
  {
    VotesOnWithoutSame(db.votes, e.id);
  }

  lemma MarkEditsAsDeletedOwn(db: Db, e: Edit, reviewGroups: set<GroupId>)
    ensures var (after, raised) := Item(MarkEditsAsDeleted, db, e, reviewGroups, Deleted);
            (RowsOf(after, e.id), raised) == ItemRows(MarkEditsAsDeleted, RowsOf(db, e.id), e, reviewGroups, Deleted)
  {
    StepsOwn(db, e);
    StepsOwn(Purged(db, e.id), e);
  }

  lemma UpdateEditDeletionOwn(db: Db, e: Edit, reviewGroups: set<GroupId>)
    ensures var (after, raised) := Item(UpdateEditDeletion, db, e, reviewGroups, Deleted);
            (RowsOf(after, e.id), raised) == ItemRows(UpdateEditDeletion, RowsOf(db, e.id), e, reviewGroups, Deleted)
  {
    StepsOwn(db, e);
    var purged := PurgedLegacy(db, e.id);
    StepsOwn(purged, e);
    if !(e.status == Done && e.hasTrainingData) && !InReviewGroup(e, reviewGroups) {
      StepsOwn(Removed(purged, e.id), e);
      assert RowsOf(Removed(purged, e.id), e.id) == Gone(RowsOf(purged, e.id));
    }
  }

  lemma UpdateDeletedEditsOwn(db: Db, e: Edit, reviewGroups: set<GroupId>)
    ensures var (after, raised) := Item(UpdateDeletedEdits, db, e, reviewGroups, Deleted);
            (RowsOf(after, e.id), raised) == ItemRows(UpdateDeletedEdits, RowsOf(db, e.id), e, reviewGroups, Deleted)
  {
    var rows := RowsOf(db, e.id);
    assert rows.legacyCurrent.Some? <==> (e.id, Current) in db.revisions;
    assert rows.training.Some? <==> e.id in db.trainingData;
    if HaveTrainingData(db, e) {
      var kept := db.(edits := db.edits[e.id := e.(isDeleted := true)]);
      assert kept.votes == db.votes;
      assert Get(kept.edits, e.id) == Some(e.(isDeleted := true));
      assert RowsOf(kept, e.id) == rows.(edit := Some(e.(isDeleted := true)));
    } else {
      var purged := PurgedLegacy(db, e.id);
      StepsOwn(db, e);
      StepsOwn(purged, e);
    }
  }

  /** Handling an edit on the whole tables agrees with `ItemRows` on its own rows. */
  lemma ItemOwn(p: Policy, db: Db, e: Edit, reviewGroups: set<GroupId>, s: Signal)
    ensures var (after, raised) := Item(p, db, e, reviewGroups, s);
            (RowsOf(after, e.id), raised) == ItemRows(p, RowsOf(db, e.id), e, reviewGroups, s)
  {
    if s == Deleted {
      match p
      case MarkEditsAsDeleted => MarkEditsAsDeletedOwn(db, e, reviewGroups);
      case UpdateEditDeletion => UpdateEditDeletionOwn(db, e, reviewGroups);
      case UpdateDeletedEdits => UpdateDeletedEditsOwn(db, e, reviewGroups);
    }
  }

  /** What handling `e` does to its own rows depends on those rows only. */
  lemma ItemLocal(p: Policy, db1: Db, db2: Db, e: Edit, reviewGroups: set<GroupId>, s: Signal)
    requires RowsOf(db1, e.id) == RowsOf(db2, e.id)
    ensures RowsOf(Item(p, db1, e, reviewGroups, s).0, e.id) == RowsOf(Item(p, db2, e, reviewGroups, s).0, e.id)
  {
    ItemOwn(p, db1, e, reviewGroups, s);
    ItemOwn(p, db2, e, reviewGroups, s);
  }

  predicate Distinct(order: seq<EditId>)
  {
    forall i, j | 0 <= i < j < |order| :: order[i] != order[j]
  }

  /**
   * A whole pass: each id of `order` is handled with the edit object read
   * when the population was queried (`rows`), and the ids whose item raised
   * are collected in order.
   */
  function Run(p: Policy, db: Db, rows: map<EditId, Edit>, order: seq<EditId>, signal: EditId -> Signal,
               reviewGroups: set<GroupId>): (Db, seq<EditId>)
    requires forall id | id in order :: id in rows
    decreases |order|
  {
    if order == [] then (db, [])
    else
      var (before, failed) := Run(p, db, rows, order[..|order| - 1], signal, reviewGroups);
      var id := order[|order| - 1];
      var (after, raised) := Item(p, before, rows[id], reviewGroups, signal(id));
      (after, failed + if raised then [id] else [])
  }

  /** A pass leaves the rows of an edit it does not handle as they were. */
  lemma {:induction false} RunFrame(p: Policy, db: Db, rows: map<EditId, Edit>, order: seq<EditId>,
                                    signal: EditId -> Signal, reviewGroups: set<GroupId>, id: EditId)
    requires forall i | i in order :: i in rows && rows[i].id == i
    requires id !in order
    ensures RowsOf(Run(p, db, rows, order, signal, reviewGroups).0, id) == RowsOf(db, id)
    decreases |order|
  {
    if order != [] {
      var prefix := order[..|order| - 1];
      assert forall i | i in prefix :: i in order;
      RunFrame(p, db, rows, prefix, signal, reviewGroups, id);
      var last := order[|order| - 1];
      ItemFrame(p, Run(p, db, rows, prefix, signal, reviewGroups).0, rows[last], reviewGroups, signal(last), id);
    }
  }

  /**
   * Order independence: after a pass over distinct ids, the rows of each
   * handled edit are what handling that edit alone, on the starting
   * tables, would have left.
   */
  lemma {:induction false} RunIsPerEdit(p: Policy, db: Db, rows: map<EditId, Edit>, order: seq<EditId>,
                                        signal: EditId -> Signal, reviewGroups: set<GroupId>, id: EditId)
    requires forall i | i in order :: i in rows && rows[i].id == i
    requires Distinct(order) && id in order
    ensures RowsOf(Run(p, db, rows, order, signal, reviewGroups).0, id) ==
            RowsOf(Item(p, db, rows[id], reviewGroups, signal(id)).0, id)
    decreases |order|
  {
    var prefix, last := order[..|order| - 1], order[|order| - 1];
    assert forall i | i in prefix :: i in order;
    var before := Run(p, db, rows, prefix, signal, reviewGroups).0;
    if last == id {
      assert id !in prefix by {
        forall k | 0 <= k < |prefix| ensures prefix[k] != id {
          assert order[k] == prefix[k];
        }
      }
      RunFrame(p, db, rows, prefix, signal, reviewGroups, id);
      ItemLocal(p, before, db, rows[id], reviewGroups, signal(id));
    } else {
      assert id in prefix by {
        var k :| 0 <= k < |order| && order[k] == id;
        assert k < |order| - 1 && prefix[k] == id;
      }
      assert Distinct(prefix) by {
        forall i, j | 0 <= i < j < |prefix| ensures prefix[i] != prefix[j] {
          assert order[i] == prefix[i] && order[j] == prefix[j];
        }
      }
      RunIsPerEdit(p, db, rows, prefix, signal, reviewGroups, id);
      ItemFrame(p, before, rows[last], reviewGroups, signal(last), id);
    }
  }

  /**
   * The keep / tombstone / remove policy of `mark_edits_as_deleted`, for an
   * edit object that matches its stored row: an edit whose revision was not
   * reported deleted keeps every row; a Done edit with training data keeps
   * every row and is only flagged; any other edit loses its votes, training
   * data and revisions, and its row survives, flagged, exactly when it is in
   * a review group.
   */
  lemma MarkEditsAsDeletedPolicy(db: Db, e: Edit, reviewGroups: set<GroupId>, s: Signal)
    requires e.id in db.edits && db.edits[e.id] == e
    ensures var before, after := RowsOf(db, e.id), RowsOf(Item(MarkEditsAsDeleted, db, e, reviewGroups, s).0, e.id);
      && (s != Deleted ==> after == before)
      && (s == Deleted && e.status == Done && e.hasTrainingData ==>
            after == before.(edit := Some(e.(isDeleted := true))))
      && (s == Deleted && !(e.status == Done && e.hasTrainingData) ==>
            && after.training.None? && after.current.None? && after.previous.None? && after.votes == []
            && (after.edit.Some? <==> InReviewGroup(e, reviewGroups))
            && (after.edit.Some? ==> after.edit == Some(e.(isDeleted := true))))
  {
    ItemOwn(MarkEditsAsDeleted, db, e, reviewGroups, s);
  }

  /**
   * `update_edit_deletion`: the same decision over the legacy Revision table.
   * The flag is set on every kept edit; on a removed edit that was not yet
   * flagged, the notice goes out and the flag update then raises.
   */
  lemma UpdateEditDeletionPolicy(db: Db, e: Edit, reviewGroups: set<GroupId>, s: Signal)
    requires e.id in db.edits && db.edits[e.id] == e
    ensures var (afterDb, raised) := Item(UpdateEditDeletion, db, e, reviewGroups, s);
            var before, after := RowsOf(db, e.id), RowsOf(afterDb, e.id);
      && (s == NotDeleted ==> after == before && !raised)
      && (s == Deleted && e.status == Done && e.hasTrainingData ==>
            after == before.(edit := Some(e.(isDeleted := true))) && !raised)
      && (s == Deleted && !(e.status == Done && e.hasTrainingData) ==>
            && after.training.None? && after.legacyCurrent.None? && after.legacyPrevious.None? && after.votes == []
            && (after.edit.Some? <==> InReviewGroup(e, reviewGroups))
            && (after.edit.Some? ==> after.edit == Some(e.(isDeleted := true)))
            && (raised <==> !InReviewGroup(e, reviewGroups) && !e.isDeleted))
  {
    ItemOwn(UpdateEditDeletion, db, e, reviewGroups, s);
    var before := RowsOf(db, e.id);
    assert before.edit == Some(e);
    if s == Deleted && !(e.status == Done && e.hasTrainingData) {
      var purged := before.(training := None, legacyCurrent := None, legacyPrevious := None, votes := []);
      if InReviewGroup(e, reviewGroups) {
        assert ItemRows(UpdateEditDeletion, before, e, reviewGroups, s) == Flagged(purged, e);
      } else {
        assert ItemRows(UpdateEditDeletion, before, e, reviewGroups, s) == Flagged(Gone(purged), e);
      }
    }
  }

  /**
   * `update_deleted_edits`: a deleted edit is kept, only flagged, exactly
   * when it is Done and has a current Revision row and TrainingData; any
   * other deleted edit disappears with all of its rows.
   */
  lemma UpdateDeletedEditsPolicy(db: Db, e: Edit, reviewGroups: set<GroupId>, s: Signal)
    requires e.id in db.edits && db.edits[e.id] == e
    ensures var before, after := RowsOf(db, e.id), RowsOf(Item(UpdateDeletedEdits, db, e, reviewGroups, s).0, e.id);
      && (s != Deleted ==> after == before)
      && (s == Deleted && e.status == Done && before.legacyCurrent.Some? && before.training.Some? ==>
            after == before.(edit := Some(e.(isDeleted := true))))
      && (s == Deleted && !(e.status == Done && before.legacyCurrent.Some? && before.training.Some?) ==>
            after == Rows(None, None, None, None, None, None, None, []))
  {
    ItemOwn(UpdateDeletedEdits, db, e, reviewGroups, s);
  }

  /**
   * `_have_training_data` exactly as written filters with `type__in=0`,
   * which the query layer rejects because 0 is not a list of values: the
   * item raises before anything is deleted or flagged.
   */
  function UpdateDeletedEditsItemAsWritten(db: Db, e: Edit, s: Signal): (Db, bool)
  {
    match s
    case LookupFailed => (db, true)
    case NotDeleted => (db, false)
    case Deleted => (db, true)
  }

  /** As written, the command never removes or flags an edit, even when its revision is deleted. */
  lemma UpdateDeletedEditsAsWrittenChangesNothing(db: Db, e: Edit, s: Signal)
    ensures UpdateDeletedEditsItemAsWritten(db, e, s).0 == db
    ensures s == Deleted ==> UpdateDeletedEditsItemAsWritten(db, e, s).1
  {
  }

  /** The corrected reading does clean up: a deleted edit without stored training data is removed. */
  lemma UpdateDeletedEditsCorrectedRemoves(db: Db, e: Edit)
    requires e.id in db.edits && !HaveTrainingData(db, e)
    ensures e.id !in Item(UpdateDeletedEdits, db, e, {}, Deleted).0.edits
    ensures UpdateDeletedEditsItemAsWritten(db, e, Deleted).0.edits == db.edits
  {
  }

  /** `mark_edits_as_deleted._handle_edit` on the store. */
  method MarkEditsAsDeletedItem(store: Store, e: Edit, reviewGroups: set<GroupId>, s: Signal) returns (raised: bool)
    requires store.Valid() && e.id in store.edits && store.edits[e.id] == e
    modifies store
    ensures store.Valid()
    ensures (store.State(), raised) == Item(MarkEditsAsDeleted, old(store.State()), e, reviewGroups, s)
  {
    if s == LookupFailed {
      return true;
    }
    if s == NotDeleted {
      return false;
    }
    if e.status == Done && e.hasTrainingData {
      raised := MarkEditAsDeleted(store, e);
      return;
    }
    store.DeleteVotes(e.id);
    store.DeleteTrainingData(e.id);
    store.DeleteCurrentRevision(e.id);
    store.DeletePreviousRevision(e.id);
    assert store.State() == Purged(old(store.State()), e.id);
    if e.groups * reviewGroups != {} {
      raised := MarkEditAsDeleted(store, e);
      return;
    }
    store.DeleteEdit(e.id);
    raised := false;
  }

  /** `update_edit_deletion._handle_edit` on the store. */
  method UpdateEditDeletionItem(store: Store, e: Edit, reviewGroups: set<GroupId>, s: Signal) returns (raised: bool)
    requires store.Valid() && e.id in store.edits && store.edits[e.id] == e
    modifies store
    ensures store.Valid()
    ensures (store.State(), raised) == Item(UpdateEditDeletion, old(store.State()), e, reviewGroups, s)
  {
    if s == LookupFailed {
      return true;
    }
    if s == NotDeleted {
      return false;
    }
    if !(e.status == Done && e.hasTrainingData) {
      store.DeleteVotes(e.id);
      store.DeleteTrainingData(e.id);
      store.DeleteRevisions(e.id);
      assert store.State() == PurgedLegacy(old(store.State()), e.id);
      if e.groups * reviewGroups == {} {
        store.DeleteEdit(e.id);
      }
    }
    raised := MarkEditAsDeleted(store, e);
  }

  /** `update_deleted_edits._handle_edit` on the store, with the Revision filter read as `type=0`. */
  method UpdateDeletedEditsItem(store: Store, e: Edit, s: Signal) returns (raised: bool)
    requires store.Valid() && e.id in store.edits && store.edits[e.id] == e
    modifies store
    ensures store.Valid()
    ensures (store.State(), raised) == Item(UpdateDeletedEdits, old(store.State()), e, {}, s)
  {
    if s == LookupFailed {
      return true;
    }
    if s == NotDeleted {
      return false;
    }
    if e.status == Done && (e.id, Current) in store.revisions && e.id in store.trainingData {
      store.SaveEdit(e.(isDeleted := true));
      return false;
    }
    store.DeleteVotes(e.id);
    store.DeleteTrainingData(e.id);
    store.DeleteRevisions(e.id);
    store.DeleteEdit(e.id);
    raised := false;
  }

  /** The rows `handle` iterates: the one given id, or else every edit not flagged deleted. */
  function Population(edits: map<EditId, Edit>, editId: Option<EditId>): (r: set<EditId>)
    ensures editId.Some? ==> r == if editId.value in edits then {editId.value} else {}
    ensures editId.None? ==> forall id :: id in r <==> id in edits && !edits[id].isDeleted
  {
    if editId.Some? then (if editId.value in edits then {editId.value} else {})
    else set id | id in edits && !edits[id].isDeleted
  }

  /**
   * The `handle` of the three commands: every row of the population, in the
   * query's order, is handled with the object the query returned, and the
   * pass as a whole is `Run`; the result lists the items that raised.
   */
  method Handle(store: Store, p: Policy, editId: Option<EditId>, order: seq<EditId>, signal: EditId -> Signal)
    returns (failed: seq<EditId>)
    requires store.Valid()
    requires p == UpdateDeletedEdits ==> editId.None?
    requires Distinct(order) && forall id :: id in order <==> id in Population(store.edits, editId)
    modifies store
    ensures store.Valid()
    ensures var reviewGroups := if p == UpdateDeletedEdits then {} else ReviewGroups(old(store.groups));
      (store.State(), failed) == Run(p, old(store.State()), old(store.edits), order, signal, reviewGroups)
  {
    ghost var db := store.State();
    var rows := store.edits;
    var reviewGroups := if p == UpdateDeletedEdits then {} else ReviewGroups(store.groups);
    failed := [];
    var i := 0;
    while i < |order|
      invariant 0 <= i <= |order|
      invariant store.Valid()
      invariant forall id | id in order :: id in rows && rows[id].id == id
      invariant (store.State(), failed) == Run(p, db, rows, order[..i], signal, reviewGroups)
      invariant forall k | i <= k < |order| :: order[k] in store.edits && store.edits[order[k]] == rows[order[k]]
    {
      var id := order[i];
      var e := rows[id];
      ghost var before, failedBefore := store.State(), failed;
      var raised;
      if p == MarkEditsAsDeleted {
        raised := MarkEditsAsDeletedItem(store, e, reviewGroups, signal(id));
      } else if p == UpdateEditDeletion {
        raised := UpdateEditDeletionItem(store, e, reviewGroups, signal(id));
      } else {
        raised := UpdateDeletedEditsItem(store, e, signal(id));
      }
      assert (store.State(), raised) == Item(p, before, e, reviewGroups, signal(id));
      if raised {
        failed := failed + [id];
      }
      assert forall j | j in order[..i + 1] :: j in order;
      assert order[..i + 1][..i] == order[..i] && order[..i + 1][i] == id;
      assert Run(p, db, rows, order[..i + 1], signal, reviewGroups) == (store.State(), failed) by {
        var step := Item(p, before, e, reviewGroups, signal(id));
        assert failed == failedBefore + if raised then [id] else [];
        assert Run(p, db, rows, order[..i + 1], signal, reviewGroups) ==
               (step.0, failedBefore + if step.1 then [id] else []);
      }
      forall k | i + 1 <= k < |order|
        ensures order[k] in store.edits && store.edits[order[k]] == rows[order[k]]
      {
        ItemFrame(p, Run(p, db, rows, order[..i], signal, reviewGroups).0, e, reviewGroups, signal(id), order[k]);
      }
      i := i + 1;
    }
    assert order[..|order|] == order;
  }
}
