/**
 * The import helpers shared by the importers: replacing an edit's training
 * data, upserting an edit into a group, and flagging an edit as deleted.
 */
module EditSetUtils {
  import opened Wrappers
  import opened Models
  import opened Store
  import opened WpRecords

  /**
   * What `mark_edit_as_deleted` does to the tables, given the in-memory
   * edit object `e`: nothing when `e` is already flagged; otherwise a notice
   * is relayed and the stored row's flag is set. When the row is gone (the
   * object was deleted and has lost its key) the flag update raises after
   * the notice went out; the boolean says whether it raised.
   */
  function MarkedDeleted(db: Db, e: Edit): (Db, bool)
  {
    if e.isDeleted then (db, false)
    else if e.id in db.edits then
      (db.(notices := db.notices + [e.id], edits := db.edits[e.id := db.edits[e.id].(isDeleted := true)]), false)
    else (db.(notices := db.notices + [e.id]), true)
  }

  /** Flagging twice notifies once: a second call on the refreshed row changes nothing. */
  lemma MarkedDeletedIdempotent(db: Db, e: Edit)
    requires e.id in db.edits && db.edits[e.id] == e
    ensures var (once, _) := MarkedDeleted(db, e);
            MarkedDeleted(once, once.edits[e.id]) == (once, false)
    ensures var (once, raised) := MarkedDeleted(db, e);
            !raised && once.edits[e.id].isDeleted && |once.notices| <= |db.notices| + 1
  {
  }

  /** Only the flag of that one row and the notice list ever change. */
  lemma MarkedDeletedFrame(db: Db, e: Edit)
    ensures var (after, _) := MarkedDeleted(db, e);
      && after.edits.Keys == db.edits.Keys
      && (forall id | id in db.edits && id != e.id :: after.edits[id] == db.edits[id])
      && (e.id in db.edits && !e.isDeleted ==> after.edits[e.id] == db.edits[e.id].(isDeleted := true))
      && (e.isDeleted ==> after == db)
      && after.(edits := db.edits, notices := db.notices) == db
      && (after.notices == db.notices || after.notices == db.notices + [e.id])
  {
  }

  /** `mark_edit_as_deleted(edit)` */
  method MarkEditAsDeleted(store: Store, e: Edit) returns (raised: bool)
    requires store.Valid()
    modifies store
    ensures store.Valid()
    ensures (store.State(), raised) == MarkedDeleted(old(store.State()), e)
  {
    if !e.isDeleted {
      store.Notify(e.id);
      if e.id in store.edits {
        store.SaveEdit(store.edits[e.id].(isDeleted := true));
        raised := false;
      } else {
        raised := true;
      }
    } else {
      raised := false;
    }
  }

  /**
   * `import_training_data(edit, wp_edit)`: the TrainingData row is replaced
   * by one built from the record; the current and previous revision rows
   * are replaced only when that revision is present and complete, and are
   * otherwise left as they were.
   */
  method ImportTrainingData(
    store: Store, id: EditId, w: WpEdit, nameToId: map<string, int>, complete: Completeness)
    requires store.Valid() && id in store.edits
    requires TrainingRow(w, nameToId).Some? && CompletenessSound(w, nameToId, complete)
    modifies store
    ensures store.Valid()
    ensures store.trainingData == old(store.trainingData)[id := TrainingRow(w, nameToId).value]
    ensures store.currentRevisions ==
      if w.current.Some? && complete.current
      then old(store.currentRevisions)[id := RevisionRowOf(w.current.value, true).value]
      else old(store.currentRevisions)
    ensures store.previousRevisions ==
      if w.previous.Some? && complete.previous
      then old(store.previousRevisions)[id := RevisionRowOf(w.previous.value, false).value]
      else old(store.previousRevisions)
    ensures store.edits == old(store.edits) && store.groups == old(store.groups) && store.votes == old(store.votes)
    ensures store.revisions == old(store.revisions) && store.scores == old(store.scores)
    ensures store.notices == old(store.notices)
  {
    store.DeleteTrainingData(id);
    store.CreateTrainingData(id, TrainingRow(w, nameToId).value);

    ghost var previous := store.previousRevisions;
    if w.current.Some? && complete.current {
      var row := RevisionRowOf(w.current.value, true);
      store.ReplaceCurrentRevision(id, row.value);
    }
    assert store.previousRevisions == previous;

    ghost var current := store.currentRevisions;
    if w.previous.Some? && complete.previous {
      var row := RevisionRowOf(w.previous.value, false);
      store.ReplacePreviousRevision(id, row.value);
    }
    assert store.currentRevisions == current;
  }

  /** The status and counts an imported record gives a new (or force-updated) edit. */
  function ImportedReview(e: Edit, w: WpEdit): (r: Edit)
    ensures r.status == Done
    ensures r.classification == Some(if w.isVandalism then Vandalism else Constructive)
    ensures r.numberOfReviewers == (if w.reviewers.Some? then w.reviewers.value else e.numberOfReviewers)
    ensures r.numberOfReviewersAgreeing ==
      (if w.reviewersAgreeing.Some? then w.reviewersAgreeing.value else e.numberOfReviewersAgreeing)
    ensures r.(status := e.status, classification := e.classification, numberOfReviewers := e.numberOfReviewers,
               numberOfReviewersAgreeing := e.numberOfReviewersAgreeing) == e
  {
    var r := e.(classification := Some(if w.isVandalism then Vandalism else Constructive), status := Done);
    var r := if w.reviewers.Some? then r.(numberOfReviewers := w.reviewers.value) else r;
    if w.reviewersAgreeing.Some? then r.(numberOfReviewersAgreeing := w.reviewersAgreeing.value) else r
  }

  /** Whether the record names a source group: `dynamic_group_from_source and wp_edit.editdb_source`. */
  predicate UsesSourceGroup(w: WpEdit, dynamicGroupFromSource: bool)
  {
    dynamicGroupFromSource && w.editdbSource.Some? && w.editdbSource.value != ""
  }

  /** How one call of `import_wp_edit_to_edit_group` ended. */
  datatype ImportOutcome =
    | Imported(group: GroupId, trainingImported: bool)
    /** The source group's name is taken by a group with another parent. */
    | GroupConflict

  /** The edit after the `get_or_create` and, for a new edit or under force_status, the imported review. */
  function ReviewedEdit(edits: map<EditId, Edit>, w: WpEdit, forceStatus: bool): Edit
  {
    var before := if w.editId in edits then edits[w.editId] else NewEdit(w.editId);
    if w.editId !in edits || forceStatus then ImportedReview(before, w) else before
  }

  /**
   * The `get_or_create` of the edit and the review a new edit (or any edit
   * under force_status) takes from the record; returns the edit as saved.
   */
  method UpsertEdit(store: Store, w: WpEdit, forceStatus: bool) returns (edit: Edit)
    requires store.Valid()
    modifies store
    ensures store.Valid()
    ensures edit == ReviewedEdit(old(store.edits), w, forceStatus)
    ensures store.edits == old(store.edits)[w.editId := edit]
    ensures store.groups == old(store.groups) && store.votes == old(store.votes)
    ensures store.trainingData == old(store.trainingData) && store.currentRevisions == old(store.currentRevisions)
    ensures store.previousRevisions == old(store.previousRevisions) && store.revisions == old(store.revisions)
    ensures store.scores == old(store.scores) && store.notices == old(store.notices)
  {
    var id := w.editId;
    var created := id !in store.edits;
    if created {
      store.CreateEdit(NewEdit(id));
    }
    edit := store.edits[id];
    ghost var before := edit;
    if created || forceStatus {
      edit := edit.(classification := Some(if w.isVandalism then Vandalism else Constructive), status := Done);
      if w.reviewers.Some? {
        edit := edit.(numberOfReviewers := w.reviewers.value);
      }
      if w.reviewersAgreeing.Some? {
        edit := edit.(numberOfReviewersAgreeing := w.reviewersAgreeing.value);
      }
      store.SaveEdit(edit);
    }
    assert edit == (if created || forceStatus then ImportedReview(before, w) else before);
  }

  /** `if not edit.groups.filter(pk=group.pk).exists(): edit.groups.add(group)` */
  method AddToGroup(store: Store, edit: Edit, group: GroupId) returns (added: Edit)
    requires store.Valid() && edit.id in store.edits && store.edits[edit.id] == edit && group in store.groups
    modifies store
    ensures store.Valid()
    ensures added == edit.(groups := edit.groups + {group})
    ensures store.edits == old(store.edits)[edit.id := added]
    ensures store.groups == old(store.groups) && store.votes == old(store.votes)
    ensures store.trainingData == old(store.trainingData) && store.currentRevisions == old(store.currentRevisions)
    ensures store.previousRevisions == old(store.previousRevisions) && store.revisions == old(store.revisions)
    ensures store.scores == old(store.scores) && store.notices == old(store.notices)
  {
    added := edit;
    if group !in edit.groups {
      added := edit.(groups := edit.groups + {group});
      store.SaveEdit(added);
    } else {
      assert added == edit.(groups := edit.groups + {group});
      assert store.edits[edit.id := added] == store.edits;
    }
  }

  /**
   * The group choice of `import_wp_edit_to_edit_group` and the membership
   * it ensures; None when the source group cannot be created.
   */
  method JoinGroup(
    store: Store, target: GroupId, w: WpEdit, dynamicGroupFromSource: bool, freshGroupId: GroupId, edit: Edit)
    returns (group: Option<GroupId>, joined: Edit)
    requires store.Valid() && target in store.groups && freshGroupId !in store.groups
    requires edit.id in store.edits && store.edits[edit.id] == edit
    modifies store
    ensures store.Valid()
    ensures group.Some? ==> group.value in store.groups && joined == edit.(groups := edit.groups + {group.value})
    ensures group.None? ==> joined == edit && UsesSourceGroup(w, dynamicGroupFromSource)
    ensures store.edits == old(store.edits)[edit.id := joined]
    ensures !UsesSourceGroup(w, dynamicGroupFromSource) ==> group == Some(target)
    ensures group.Some? && UsesSourceGroup(w, dynamicGroupFromSource) ==>
              store.groups[group.value].name == w.editdbSource.value &&
              store.groups[group.value].relatedTo == Some(target)
    ensures store.votes == old(store.votes) && store.trainingData == old(store.trainingData)
    ensures store.currentRevisions == old(store.currentRevisions) && store.previousRevisions == old(store.previousRevisions)
    ensures store.revisions == old(store.revisions) && store.scores == old(store.scores)
    ensures store.notices == old(store.notices)
  {
    var chosen := target;
    if UsesSourceGroup(w, dynamicGroupFromSource) {
      var found := store.GetOrCreateGroup(w.editdbSource.value, target, freshGroupId);
      if found.None? {
        assert store.edits[edit.id := edit] == store.edits;
        return None, edit;
      }
      chosen := found.value;
    }
    joined := AddToGroup(store, edit, chosen);
    group := Some(chosen);
  }

  /**
   * `import_wp_edit_to_edit_group`: the edit is fetched or created; a new
   * edit, or any edit under force_status, takes its review from the record;
   * it is put in the target group (or the source's child group) unless it
   * is there already; and the training data is imported when the record is
   * complete, unless skip_existing holds and the edit already has some.
   */
  method ImportWpEditToEditGroup(
    store: Store, target: GroupId, w: WpEdit, skipExisting: bool, dynamicGroupFromSource: bool,
    forceStatus: bool, freshGroupId: GroupId, nameToId: map<string, int>, complete: Completeness)
    returns (outcome: ImportOutcome)
    requires store.Valid() && target in store.groups && freshGroupId !in store.groups
    requires CompletenessSound(w, nameToId, complete)
    modifies store
    ensures store.Valid()
    ensures w.editId in store.edits && store.edits == old(store.edits)[w.editId := store.edits[w.editId]]
    ensures var reviewed := ReviewedEdit(old(store.edits), w, forceStatus);
      && (outcome.Imported? ==> store.edits[w.editId] == reviewed.(groups := reviewed.groups + {outcome.group}))
      && (outcome.GroupConflict? ==> store.edits[w.editId] == reviewed)
      && (outcome.Imported? ==>
            (outcome.trainingImported <==> !(skipExisting && reviewed.hasTrainingData) && complete.edit))
    ensures !UsesSourceGroup(w, dynamicGroupFromSource) ==> outcome.Imported? && outcome.group == target
    ensures outcome.Imported? && UsesSourceGroup(w, dynamicGroupFromSource) ==>
              store.groups[outcome.group].name == w.editdbSource.value &&
              store.groups[outcome.group].relatedTo == Some(target)
    ensures outcome.GroupConflict? ==> UsesSourceGroup(w, dynamicGroupFromSource)
    ensures outcome.Imported? && outcome.trainingImported ==>
              store.trainingData == old(store.trainingData)[w.editId := TrainingRow(w, nameToId).value]
    ensures !(outcome.Imported? && outcome.trainingImported) ==> store.trainingData == old(store.trainingData)
    ensures store.votes == old(store.votes) && store.revisions == old(store.revisions)
    ensures store.scores == old(store.scores) && store.notices == old(store.notices)
  {
    var edit := UpsertEdit(store, w, forceStatus);
    var group;
    group, edit := JoinGroup(store, target, w, dynamicGroupFromSource, freshGroupId, edit);
    if group.None? {
      return GroupConflict;
    }

    var imported := false;
    if !(skipExisting && edit.hasTrainingData) {
      if complete.edit {
        ImportTrainingData(store, w.editId, w, nameToId, complete);
        imported := true;
      }
    }
    outcome := Imported(group.value, imported);
  }
}
