/**
 * The typed WPEdit record that the importer and the training-data builder
 * pass around. Every field starts out empty (`WpEdit(edit_id=...)` is
 * built with the id alone and filled in by later lookups), so all of them
 * except the id are optional here. The fields `reviewers`,
 * `reviewers_agreeing`, `editdb_source`, `is_minor` and `is_creation` are
 * the ones the using code reads.
 */
module WpRecords {
  import opened Wrappers
  import opened Strings
  import opened Models

  datatype WpRevision = WpRevision(
    timestamp: Option<int>,
    user: Option<string>,
    comment: Option<string>,
    text: Option<string>,
    isMinor: bool,
    isCreation: bool)

  /** `WpRevision()` with nothing filled in. */
  const EmptyRevision := WpRevision(None, None, None, None, false, false)

  datatype WpEdit = WpEdit(
    editId: EditId,
    title: Option<string>,
    namespace: Option<string>,
    comment: Option<string>,
    user: Option<string>,
    creator: Option<string>,
    userEditCount: Option<int>,
    userDistinctPages: Option<int>,
    userWarns: Option<int>,
    prevUser: Option<string>,
    userRegTime: Option<int>,
    pageMadeTime: Option<int>,
    numRecentEdits: Option<int>,
    numRecentReversions: Option<int>,
    isVandalism: bool,
    current: Option<WpRevision>,
    previous: Option<WpRevision>,
    editdbSource: Option<string>,
    reviewers: Option<int>,
    reviewersAgreeing: Option<int>)

  /** `WpEdit(edit_id=...)` */
  function NewWpEdit(id: EditId): (w: WpEdit)
    ensures w.editId == id && w.current.None? && w.previous.None? && w.title.None? && w.namespace.None?
  {
    WpEdit(id, None, None, None, None, None, None, None, None, None, None, None, None, None,
           false, None, None, None, None, None)
  }

  /**
   * The TrainingData row `import_training_data` creates from a record, or
   * None when one of the non-null columns would be empty or the namespace
   * name is not a key of `nameToId` (the settings' name-to-id table): the
   * create would then raise.
   */
  function TrainingRow(w: WpEdit, nameToId: map<string, int>): Option<TrainingData>
  {
    if && w.current.Some? && w.current.value.timestamp.Some?
       && w.comment.Some? && w.user.Some? && w.userEditCount.Some?
       && w.userDistinctPages.Some? && w.userWarns.Some? && w.userRegTime.Some?
       && w.title.Some? && w.namespace.Some? && w.pageMadeTime.Some?
       && w.creator.Some? && w.numRecentEdits.Some? && w.numRecentReversions.Some?
       && Lower(w.namespace.value) in nameToId
    then
      Some(TrainingData(
        w.current.value.timestamp.value, w.comment.value, w.user.value, w.userEditCount.value,
        w.userDistinctPages.value, w.userWarns.value, w.userRegTime.value, w.prevUser,
        w.title.value, nameToId[Lower(w.namespace.value)], w.pageMadeTime.value,
        w.creator.value, w.numRecentEdits.value, w.numRecentReversions.value))
    else None
  }

  /**
   * A built row stores the id of the record's namespace, the current
   * revision's timestamp, the title, and the nullable previous user as given.
   */
  lemma TrainingRowColumns(w: WpEdit, nameToId: map<string, int>)
    ensures TrainingRow(w, nameToId).Some? ==>
              && w.namespace.Some? && Lower(w.namespace.value) in nameToId
              && TrainingRow(w, nameToId).value.pageNamespace == nameToId[Lower(w.namespace.value)]
    ensures TrainingRow(w, nameToId).Some? ==> w.current.Some? && w.current.value.timestamp == Some(TrainingRow(w, nameToId).value.timestamp)
    ensures TrainingRow(w, nameToId).Some? ==> TrainingRow(w, nameToId).value.prevUser == w.prevUser && Some(TrainingRow(w, nameToId).value.pageTitle) == w.title
  {
  }

  /**
   * The CurrentRevision / PreviousRevision row built from a revision, or None
   * when its timestamp or text is empty. A previous row has no creation flag.
   */
  function RevisionRowOf(r: WpRevision, isCurrent: bool): (row: Option<RevisionRow>)
    ensures row.Some? <==> r.timestamp.Some? && r.text.Some?
    ensures row.Some? ==> row.value.timestamp == r.timestamp.value && row.value.text == r.text.value
    ensures row.Some? ==> row.value.minor == r.isMinor && row.value.isCreation == (isCurrent && r.isCreation)
  {
    if r.timestamp.Some? && r.text.Some? then
      Some(RevisionRow(r.isMinor, isCurrent && r.isCreation, r.timestamp.value, r.text.value))
    else None
  }

  /**
   * `has_complete_training_data` is referenced but not defined, so its value
   * for a record and for each of its revisions is an input wherever it is
   * used. The model assumes only that a complete revision has the timestamp
   * and text its stored row needs, and that a complete record has every
   * column of its TrainingData row.
   */
  predicate CompletenessSound(w: WpEdit, nameToId: map<string, int>, complete: Completeness)
  {
    && (complete.edit ==> TrainingRow(w, nameToId).Some?)
    && (complete.current && w.current.Some? ==> RevisionRowOf(w.current.value, true).Some?)
    && (complete.previous && w.previous.Some? ==> RevisionRowOf(w.previous.value, false).Some?)
  }

  /** The values of `has_complete_training_data` for a record and its two revisions. */
  datatype Completeness = Completeness(edit: bool, current: bool, previous: bool)
}
