/**
 * The `import_training_data` command: for each edit without training data
 * (or every edit, when forced) either flag it deleted, when its source
 * revision is gone, or build its record and import the training data when
 * the record is complete. Building the record, which may raise, and the
 * deletion lookup are inputs, one value per edit.
 */
module ImportTrainingDataCommand {
  import opened Wrappers
  import opened Models
  import opened Store
  import opened WpRecords
  import opened EditSetUtils
  import Retention
  import Training

  /** The tables as `import_training_data(edit, wp_edit)` leaves them. */
  function TrainingImported(db: Db, id: EditId, w: WpEdit, nameToId: map<string, int>, c: Completeness): Db
    requires TrainingRow(w, nameToId).Some? && CompletenessSound(w, nameToId, c)
  {
    db.(trainingData := db.trainingData[id := TrainingRow(w, nameToId).value],
        currentRevisions :=
          if w.current.Some? && c.current then db.currentRevisions[id := RevisionRowOf(w.current.value, true).value]
          else db.currentRevisions,
        previousRevisions :=
          if w.previous.Some? && c.previous then db.previousRevisions[id := RevisionRowOf(w.previous.value, false).value]
          else db.previousRevisions)
  }

  /** A record the builder gave satisfies the completeness assumption; a raising builder gives none. */
  predicate BuildSound(b: Training.Built, nameToId: map<string, int>, c: Completeness)
  {
    b.Built? ==> CompletenessSound(b.edit, nameToId, c)
  }

  /**
   * `_handle_edit(edit, force)` for the edit object `e`, the lookup's answer
   * `s`, and what `build_wp_edit` gives, `b`: a record, with its
   * completeness `c`, or an exception. The boolean says whether the item
   * raised.
   */
  function Item(db: Db, e: Edit, force: bool, s: Retention.Signal, b: Training.Built, c: Completeness,
                nameToId: map<string, int>): (Db, bool)
    requires BuildSound(b, nameToId, c)
  {
    if !force && e.hasTrainingData then (db, false)
    else
      match s
      case LookupFailed => (db, true)
      case Deleted => (db.(edits := db.edits[e.id := e.(isDeleted := true)]), false)
      case NotDeleted =>
        match b
        case Raised => (db, true)
        case Built(w) => if c.edit then (TrainingImported(db, e.id, w, nameToId, c), false) else (db, false)
  }

  /**
   * What one item does to the edit's own rows: an edit that already has
   * training data is skipped unless forced; a failed lookup raises; a
   * deleted revision only sets the flag; otherwise a raising builder raises
   * with nothing changed, a complete record leaves exactly its TrainingData
   * row and the rows of its complete revisions, and an incomplete one
   * changes nothing.
   */
  lemma ItemOutcome(db: Db, e: Edit, force: bool, s: Retention.Signal, b: Training.Built, c: Completeness,
                    nameToId: map<string, int>)
    requires BuildSound(b, nameToId, c)
    requires e.id in db.edits && db.edits[e.id] == e
    ensures var (after, raised) := Item(db, e, force, s, b, c, nameToId);
            var before, own := Retention.RowsOf(db, e.id), Retention.RowsOf(after, e.id);
      && (raised <==> (force || !e.hasTrainingData) && (s == Retention.LookupFailed || (s == Retention.NotDeleted && b.Raised?)))
      && (raised ==> after == db)
      && (!force && e.hasTrainingData ==> after == db)
      && ((force || !e.hasTrainingData) && s == Retention.Deleted ==>
            own == before.(edit := Some(e.(isDeleted := true))))
      && ((force || !e.hasTrainingData) && s == Retention.NotDeleted && b.Built? && c.edit ==>
            && own.edit == before.edit && own.votes == before.votes && own.score == before.score
            && own.training == TrainingRow(b.edit, nameToId)
            && own.current == (if b.edit.current.Some? && c.current then RevisionRowOf(b.edit.current.value, true) else before.current)
            && own.previous == (if b.edit.previous.Some? && c.previous then RevisionRowOf(b.edit.previous.value, false) else before.previous))
      && ((force || !e.hasTrainingData) && s == Retention.NotDeleted && b.Built? && !c.edit ==> after == db)
  {
    if (force || !e.hasTrainingData) && s == Retention.NotDeleted && b.Built? && c.edit {
      var after := TrainingImported(db, e.id, b.edit, nameToId, c);
      assert after.votes == db.votes && after.edits == db.edits && after.scores == db.scores;
    }
  }

  /**
   * With the record built by `build_wp_edit` itself, an item on a live
   * revision raises exactly when the builder does: for an unknown namespace
   * id, or for a titled page without a current revision whose empty
   * revision counts as complete.
   */
  lemma ItemRaisesWithBuilder(db: Db, e: Edit, force: bool, src: Training.Sources, c: Completeness,
                              nameToId: map<string, int>)
    requires BuildSound(Training.BuildWpEdit(e.id, src), nameToId, c)
    requires force || !e.hasTrainingData
    ensures Item(db, e, force, Retention.NotDeleted, Training.BuildWpEdit(e.id, src), c, nameToId).1 <==>
              || Training.EditMetadata(src.metadata(e.id)).UnknownNamespace?
              || (Training.IsTitled(e.id, src) && Training.RevisionsOf(e.id, src).0 == EmptyRevision &&
                  src.complete(EmptyRevision))
  {
    Training.BuildRaises(e.id, src);
  }

  /** Importing twice with the same record leaves what importing once left. */
  lemma TrainingImportedIdempotent(db: Db, id: EditId, w: WpEdit, nameToId: map<string, int>, c: Completeness)
    requires TrainingRow(w, nameToId).Some? && CompletenessSound(w, nameToId, c)
    ensures TrainingImported(TrainingImported(db, id, w, nameToId, c), id, w, nameToId, c) ==
            TrainingImported(db, id, w, nameToId, c)
  {
    var once := TrainingImported(db, id, w, nameToId, c);
    assert once.trainingData[id := TrainingRow(w, nameToId).value] == once.trainingData;
    if w.current.Some? && c.current {
      assert once.currentRevisions[id := RevisionRowOf(w.current.value, true).value] == once.currentRevisions;
    }
    if w.previous.Some? && c.previous {
      assert once.previousRevisions[id := RevisionRowOf(w.previous.value, false).value] == once.previousRevisions;
    }
  }

  /** One item touches the rows of its own edit only. */
  lemma ItemFrame(db: Db, e: Edit, force: bool, s: Retention.Signal, b: Training.Built, c: Completeness,
                  nameToId: map<string, int>, id: EditId)
    requires BuildSound(b, nameToId, c)
    requires id != e.id
    ensures Retention.RowsOf(Item(db, e, force, s, b, c, nameToId).0, id) == Retention.RowsOf(db, id)
  {
    var after := Item(db, e, force, s, b, c, nameToId).0;
    assert after.votes == db.votes && after.revisions == db.revisions && after.scores == db.scores;
    assert Retention.Get(after.edits, id) == Retention.Get(db.edits, id);
    assert Retention.Get(after.trainingData, id) == Retention.Get(db.trainingData, id);
    assert Retention.Get(after.currentRevisions, id) == Retention.Get(db.currentRevisions, id);
    assert Retention.Get(after.previousRevisions, id) == Retention.Get(db.previousRevisions, id);
  }

  /** The edits later in a duplicate-free order are untouched by the item at position `i`. */
  lemma ItemKeepsLater(db: Db, e: Edit, force: bool, s: Retention.Signal, b: Training.Built, c: Completeness,
                       nameToId: map<string, int>, rows: map<EditId, Edit>, order: seq<EditId>, i: nat)
    requires BuildSound(b, nameToId, c)
    requires Retention.Distinct(order) && i < |order| && e.id == order[i]
    requires forall id | id in order :: id in rows
    requires forall k | i <= k < |order| :: order[k] in db.edits && db.edits[order[k]] == rows[order[k]]
    ensures var after := Item(db, e, force, s, b, c, nameToId).0;
            forall k | i + 1 <= k < |order| :: order[k] in after.edits && after.edits[order[k]] == rows[order[k]]
  {
    var after := Item(db, e, force, s, b, c, nameToId).0;
    forall k | i + 1 <= k < |order|
      ensures order[k] in after.edits && after.edits[order[k]] == rows[order[k]]
    {
      ItemFrame(db, e, force, s, b, c, nameToId, order[k]);
      assert Retention.Get(after.edits, order[k]) == Retention.Get(db.edits, order[k]);
    }
  }

  /** `Command._handle_edit` on the store. */
  method HandleEdit(store: Store, e: Edit, force: bool, s: Retention.Signal, b: Training.Built, c: Completeness,
                    nameToId: map<string, int>) returns (raised: bool)
    requires store.Valid() && e.id in store.edits && store.edits[e.id] == e
    requires BuildSound(b, nameToId, c)
    modifies store
    ensures store.Valid()
    ensures (store.State(), raised) == Item(old(store.State()), e, force, s, b, c, nameToId)
  {
    if !force && e.hasTrainingData {
      return false;
    }
    if s == Retention.LookupFailed {
      return true;
    }
    if s == Retention.Deleted {
      store.SaveEdit(e.(isDeleted := true));
      return false;
    }
    if b.Raised? {
      return true;
    }
    if c.edit {
      ImportTrainingData(store, e.id, b.edit, nameToId, c);
    }
    raised := false;
  }

  /** A whole pass in the query's order; the result lists the items that raised. */
  function Run(db: Db, rows: map<EditId, Edit>, order: seq<EditId>, force: bool, signal: EditId -> Retention.Signal,
               build: EditId -> Training.Built, complete: EditId -> Completeness, nameToId: map<string, int>)
    : (Db, seq<EditId>)
    requires forall id | id in order :: id in rows
    requires forall id | id in order :: BuildSound(build(id), nameToId, complete(id))
    decreases |order|
  {
    if order == [] then (db, [])
    else
      var (before, failed) := Run(db, rows, order[..|order| - 1], force, signal, build, complete, nameToId);
      var id := order[|order| - 1];
      var (after, raised) := Item(before, rows[id], force, signal(id), build(id), complete(id), nameToId);
      (after, failed + if raised then [id] else [])
  }

  /** A pass over one more item of the order is the pass so far followed by that item. */
  lemma RunStep(db: Db, rows: map<EditId, Edit>, order: seq<EditId>, i: nat, force: bool, signal: EditId -> Retention.Signal,
                build: EditId -> Training.Built, complete: EditId -> Completeness, nameToId: map<string, int>)
    requires i < |order|
    requires forall id | id in order :: id in rows
    requires forall id | id in order :: BuildSound(build(id), nameToId, complete(id))
    ensures forall j | j in order[..i] :: j in order
    ensures var (before, failed) := Run(db, rows, order[..i], force, signal, build, complete, nameToId);
            var (after, raised) := Item(before, rows[order[i]], force, signal(order[i]), build(order[i]), complete(order[i]), nameToId);
            Run(db, rows, order[..i + 1], force, signal, build, complete, nameToId) == (after, failed + if raised then [order[i]] else [])
  {
    assert forall j | j in order[..i + 1] :: j in order;
    assert forall j | j in order[..i] :: j in order;
    assert order[..i + 1][..i] == order[..i] && order[..i + 1][i] == order[i];
  }

  /**
   * `handle`: every edit of the population (the given id, or every edit not
   * flagged deleted) is handled in the query's order with the object the
   * query returned, and an exception in one item does not stop the others.
   */
  method Handle(store: Store, editId: Option<EditId>, order: seq<EditId>, force: bool,
                signal: EditId -> Retention.Signal, build: EditId -> Training.Built, complete: EditId -> Completeness,
                nameToId: map<string, int>) returns (failed: seq<EditId>)
    requires store.Valid()
    requires Retention.Distinct(order) && forall id :: id in order <==> id in Retention.Population(store.edits, editId)
    requires forall id | id in order :: BuildSound(build(id), nameToId, complete(id))
    modifies store
    ensures store.Valid()
    ensures (store.State(), failed) == Run(old(store.State()), old(store.edits), order, force, signal, build, complete, nameToId)
  {
    ghost var db := store.State();
    var rows := store.edits;
    failed := [];
    var i := 0;
    while i < |order|
      invariant 0 <= i <= |order|
      invariant store.Valid()
      invariant forall id | id in order :: id in rows && rows[id].id == id
      invariant (store.State(), failed) == Run(db, rows, order[..i], force, signal, build, complete, nameToId)
      invariant forall k | i <= k < |order| :: order[k] in store.edits && store.edits[order[k]] == rows[order[k]]
    {
      var id := order[i];
      var e := rows[id];
      ghost var before, failedBefore := store.State(), failed;
      var raised := HandleEdit(store, e, force, signal(id), build(id), complete(id), nameToId);
      if raised {
        failed := failed + [id];
      }
      RunStep(db, rows, order, i, force, signal, build, complete, nameToId);
      assert failed == failedBefore + if raised then [id] else [];
      ItemKeepsLater(before, e, force, signal(id), build(id), complete(id), nameToId, rows, order, i);
      i := i + 1;
    }
    assert order[..|order|] == order;
  }
}
