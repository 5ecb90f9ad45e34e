/**
 * The older `Wikipedia` client (libs/wikipedia.py, shadowed by the package
 * of the same name): the deletion check, revision shaping, `fetch_edit` and
 * `create_training_data_for_edit`. Its `_clean_page_title` and
 * `_is_revision_minor` are the same as the package's and are modelled once,
 * in `Training`. Answers of the API and the replica are inputs.
 */
module LegacyWikipedia {
  import opened Wrappers
  import opened Strings
  import opened Models
  import opened Store
  import Settings
  import Training

  // ---------------------------------------------------------------------
  // `has_revision_been_deleted`
  // ---------------------------------------------------------------------

  /**
   * The answers the deletion check reads: whether either query lists the id
   * as bad, the title of the first page of the first query (None when
   * missing or empty), and the keys of each revision of the second query.
   */
  datatype DeletionAnswer = DeletionAnswer(
    titleBadRevids: bool,
    title: Option<string>,
    revisionsBadRevids: bool,
    revisions: seq<set<string>>)

  /** The outcome: the verdict, or the IndexError (`EmptyListError`) of an empty revision list. */
  datatype Deleted = Verdict(deleted: bool) | EmptyListError

  /** The revisions the check compares, named as the source names them. */
  function Compared(revisions: seq<set<string>>): (set<string>, set<string>)
    requires |revisions| > 0
  {
    if |revisions| == 1 then ({}, revisions[0]) else (revisions[0], revisions[1])
  }

  /** The flag test as written: the key `current_revision`, and `suppressed` looked up twice on the previous revision. */
  predicate FlagsAsWritten(previous: set<string>, current: set<string>)
  {
    || "texthidden" in previous
    || "userhidden" in previous
    || "suppressed" in previous
    || "current_revision" in current
    || "userhidden" in current
    || "suppressed" in previous
  }

  /** The flag test as intended: any of the three removal keys on either revision. */
  predicate Flags(previous: set<string>, current: set<string>)
  {
    || "texthidden" in previous || "userhidden" in previous || "suppressed" in previous
    || "texthidden" in current || "userhidden" in current || "suppressed" in current
  }

  function RevisionDeletedWith(a: DeletionAnswer, flags: (set<string>, set<string>) -> bool): Deleted
  {
    if a.titleBadRevids then Verdict(true)
    else if a.title.None? then Verdict(true)
    else if a.revisionsBadRevids then Verdict(true)
    else if a.revisions == [] then EmptyListError
    else Verdict(flags(Compared(a.revisions).0, Compared(a.revisions).1))
  }

  function HasRevisionBeenDeletedAsWritten(a: DeletionAnswer): Deleted
  {
    RevisionDeletedWith(a, (p, c) => FlagsAsWritten(p, c))
  }

  /**
   * `has_revision_been_deleted` with the intended flag test: deleted when
   * either query reports a bad id or no title, otherwise iff a compared
   * revision carries a removal key.
   */
  function HasRevisionBeenDeleted(a: DeletionAnswer): (r: Deleted)
    ensures r == EmptyListError <==> !a.titleBadRevids && a.title.Some? && !a.revisionsBadRevids && a.revisions == []
    ensures a.titleBadRevids || a.title.None? || a.revisionsBadRevids ==> r == Verdict(true)
  {
    RevisionDeletedWith(a, (p, c) => Flags(p, c))
  }

  /** As written, the test never sees hidden text or suppression on the current revision. */
  lemma DeletionFlagsAsWritten(previous: set<string>, current: set<string>)
    ensures FlagsAsWritten(previous, current) <==>
            "texthidden" in previous || "userhidden" in previous || "suppressed" in previous ||
            "current_revision" in current || "userhidden" in current
  {
  }

  /** A lone revision with its text hidden is reported as not deleted. */
  lemma HiddenTextMissedAsWritten()
    ensures HasRevisionBeenDeletedAsWritten(DeletionAnswer(false, Some("Page"), false, [{"texthidden"}])) == Verdict(false)
    ensures HasRevisionBeenDeleted(DeletionAnswer(false, Some("Page"), false, [{"texthidden"}])) == Verdict(true)
  {
    assert Compared([{"texthidden"}]) == ({}, {"texthidden"});
  }

  /** The intended test does not depend on which of the two revisions is taken as current. */
  lemma FlagsSymmetric(previous: set<string>, current: set<string>)
    ensures Flags(previous, current) == Flags(current, previous)
  {
  }

  /** With revisions listed, the intended verdict is whether one of the compared ones has a removal key. */
  lemma HasRevisionBeenDeletedFlags(a: DeletionAnswer)
    requires !a.titleBadRevids && a.title.Some? && !a.revisionsBadRevids && a.revisions != []
    ensures HasRevisionBeenDeleted(a) == Verdict(exists k | k in {"texthidden", "userhidden", "suppressed"} ::
                                                   k in Compared(a.revisions).0 || k in Compared(a.revisions).1)
  {
    var (p, c) := Compared(a.revisions);
    if Flags(p, c) {
      if "texthidden" in p || "texthidden" in c {
        assert "texthidden" in {"texthidden", "userhidden", "suppressed"};
      } else if "userhidden" in p || "userhidden" in c {
        assert "userhidden" in {"texthidden", "userhidden", "suppressed"};
      } else {
        assert "suppressed" in {"texthidden", "userhidden", "suppressed"};
      }
    }
  }

  // ---------------------------------------------------------------------
  // `get_page_revisions`
  // ---------------------------------------------------------------------

  /** `WikipediaRevision`: every field is required. */
  datatype Revision = Revision(minor: bool, timestamp: int, user: string, comment: string, text: string)

  /**
   * A shown revision made into a record: none when its text is missing or
   * empty (the walrus test is on truthiness), a KeyError without a comment.
   */
  datatype Slot = NoText | Built(rev: Revision) | MissingComment

  function SlotOf(r: Training.ApiRevision): (s: Slot)
    ensures s.NoText? <==> r.slotText.None? || r.slotText.value == ""
    ensures s.Built? ==> r.comment.Some? && r.slotText.Some? && r.slotText.value != "" &&
                         s.rev == Revision(Training.IsRevisionMinor(r), r.timestamp, r.user, r.comment.value, r.slotText.value)
    ensures s.MissingComment? <==> r.slotText.Some? && r.slotText.value != "" && r.comment.None?
  {
    if r.slotText.None? || r.slotText.value == "" then NoText
    else if r.comment.None? then MissingComment
    else Built(Revision(Training.IsRevisionMinor(r), r.timestamp, r.user, r.comment.value, r.slotText.value))
  }

  function RevisionOf(s: Slot): Option<Revision>
  {
    if s.Built? then Some(s.rev) else None
  }

  /** The two records, or the exception raised while making them. */
  datatype Shaped = Shaped(current: Option<Revision>, previous: Option<Revision>) | IndexError | KeyError

  /**
   * `get_page_revisions` as written: a single shown revision sets the offset
   * of the current one to 1, past the end of the list.
   */
  function PageRevisionsAsWritten(page: Option<seq<Training.ApiRevision>>): Shaped
  {
    if page.None? then Shaped(None, None)
    else
      var shown := Training.FilterVisible(page.value);
      if shown == [] then Shaped(None, None)
      else if |shown| == 1 then IndexError
      else if SlotOf(shown[1]).MissingComment? || SlotOf(shown[0]).MissingComment? then KeyError
      else Shaped(RevisionOf(SlotOf(shown[0])), RevisionOf(SlotOf(shown[1])))
  }

  /**
   * `get_page_revisions` with the current revision at index 0 in every case:
   * the newest shown revision is current and the next one previous, each
   * made into a record only when it has text.
   */
  function PageRevisions(page: Option<seq<Training.ApiRevision>>): (r: Shaped)
    ensures r != IndexError
    ensures r.Shaped? && r.current.Some? ==> r.current.value.text != ""
    ensures r.Shaped? && r.previous.Some? ==> r.previous.value.text != ""
    ensures page.None? || Training.FilterVisible(page.value) == [] ==> r == Shaped(None, None)
    ensures r.Shaped? && page.Some? && Training.FilterVisible(page.value) != [] ==>
              r.current == RevisionOf(SlotOf(Training.FilterVisible(page.value)[0])) &&
              r.previous == (if |Training.FilterVisible(page.value)| > 1 then RevisionOf(SlotOf(Training.FilterVisible(page.value)[1])) else None)
  {
    if page.None? then Shaped(None, None)
    else
      var shown := Training.FilterVisible(page.value);
      if shown == [] then Shaped(None, None)
      else if |shown| == 1 then
        if SlotOf(shown[0]).MissingComment? then KeyError else Shaped(RevisionOf(SlotOf(shown[0])), None)
      else if SlotOf(shown[1]).MissingComment? || SlotOf(shown[0]).MissingComment? then KeyError
      else Shaped(RevisionOf(SlotOf(shown[0])), RevisionOf(SlotOf(shown[1])))
  }

  /** As written, a page with exactly one shown revision always raises. */
  lemma SingleRevisionRaisesAsWritten(revs: seq<Training.ApiRevision>)
    requires |Training.FilterVisible(revs)| == 1
    ensures PageRevisionsAsWritten(Some(revs)) == IndexError
    ensures PageRevisions(Some(revs)) != IndexError
  {
  }

  /** The correction changes nothing unless exactly one revision is shown. */
  lemma PageRevisionsAgree(page: Option<seq<Training.ApiRevision>>)
    requires page.None? || |Training.FilterVisible(page.value)| != 1
    ensures PageRevisions(page) == PageRevisionsAsWritten(page)
  {
  }

  /** A KeyError comes only from one of the first two shown revisions having text but no comment. */
  lemma PageRevisionsKeyError(page: Option<seq<Training.ApiRevision>>)
    ensures PageRevisions(page) == KeyError <==>
            && page.Some? && Training.FilterVisible(page.value) != []
            && (|| SlotOf(Training.FilterVisible(page.value)[0]).MissingComment?
                || (|Training.FilterVisible(page.value)| > 1 && SlotOf(Training.FilterVisible(page.value)[1]).MissingComment?))
  {
  }

  /**
   * A blanked page, whose newest shown revision has empty text, has no
   * current record and raises nothing, whatever its comment.
   */
  lemma BlankCurrentHasNoRecord(revs: seq<Training.ApiRevision>)
    requires Training.FilterVisible(revs) != [] && Training.FilterVisible(revs)[0].slotText == Some("")
    ensures PageRevisions(Some(revs)) != KeyError ==> PageRevisions(Some(revs)).current.None?
    ensures |Training.FilterVisible(revs)| == 1 ==> PageRevisions(Some(revs)) == Shaped(None, None)
  {
  }

  // ---------------------------------------------------------------------
  // `fetch_edit`
  // ---------------------------------------------------------------------

  /** `WikipediaEdit`: the page, the edit's time and its two revisions. */
  datatype WikipediaEdit = WikipediaEdit(
    title: string,
    namespace: string,
    timestamp: int,
    current: Option<Revision>,
    previous: Option<Revision>)

  /**
   * The queries of the client, each taking exactly its parameters:
   * `metadata`/`editTimestamp` answer the revision-id query (its shaping is
   * `Training.EditMetadata`), `pageRevisions` the two-revision query, the
   * rest the replica's counts; times are seconds.
   */
  datatype Sources = Sources(
    metadata: EditId -> Training.MetadataAnswer,
    editTimestamp: EditId -> int,
    pageRevisions: (string, EditId) -> Option<seq<Training.ApiRevision>>,
    creation: (string, string) -> Option<(int, string)>,
    registration: string -> Option<int>,
    editCount: (string, int) -> Option<int>,
    distinctPages: (string, int) -> Option<int>,
    warnings: (string, int) -> Option<int>,
    recentEdits: (string, string, int) -> Option<int>,
    recentReverts: (string, string, int) -> Option<int>)

  datatype Fetched = NotFetched | FetchedEdit(edit: WikipediaEdit) | FetchRaised

  /**
   * `fetch_edit`: the edit when the metadata names a page and that page has
   * a current revision, with the previous revision (possibly none).
   */
  function FetchEdit(s: Sources, id: EditId): (r: Fetched)
    ensures r.FetchedEdit? ==> r.edit.current.Some? && r.edit.current.value.text != ""
    ensures r.FetchedEdit? ==> Training.EditMetadata(s.metadata(id)).Titled? && r.edit.title == Training.EditMetadata(s.metadata(id)).title
    ensures r.FetchedEdit? ==> Lower(r.edit.namespace) in Settings.NameToId()
    ensures Training.EditMetadata(s.metadata(id)).Untitled? ==> r == NotFetched
    ensures Training.EditMetadata(s.metadata(id)).UnknownNamespace? ==> r == FetchRaised
  {
    var m := Training.EditMetadata(s.metadata(id));
    match m
    case Untitled => NotFetched
    case UnknownNamespace => FetchRaised
    case Titled(title, namespace) =>
      Training.EditMetadataNamespace(s.metadata(id));
      match PageRevisions(s.pageRevisions(title, id))
      case IndexError => FetchRaised
      case KeyError => FetchRaised
      case Shaped(current, previous) =>
        if current.None? then NotFetched
        else FetchedEdit(WikipediaEdit(title, namespace, s.editTimestamp(id), current, previous))
  }

  /** A found edit carries exactly the shaped revisions of its page. */
  lemma FetchEditRevisions(s: Sources, id: EditId)
    requires Training.EditMetadata(s.metadata(id)).Titled?
    ensures var title := Training.EditMetadata(s.metadata(id)).title;
            var shaped := PageRevisions(s.pageRevisions(title, id));
            && (FetchEdit(s, id).FetchedEdit? <==> shaped.Shaped? && shaped.current.Some?)
            && (FetchEdit(s, id).FetchedEdit? ==>
                  FetchEdit(s, id).edit.current == shaped.current && FetchEdit(s, id).edit.previous == shaped.previous)
  {
  }

  // ---------------------------------------------------------------------
  // `create_training_data_for_edit`
  // ---------------------------------------------------------------------

  /** What the guard chain writes: the TrainingData row and the Revision rows. */
  datatype Rows = Rows(training: TrainingData, current: RevisionRow, previous: Option<RevisionRow>)

  function RowOf(r: Revision): RevisionRow
  {
    RevisionRow(r.minor, false, r.timestamp, r.text)
  }

  /**
   * The lookups that follow a fetched edit, in their order: page creation,
   * user registration, edit count, distinct pages, warnings, recent edits,
   * recent reverts. The rows exist iff every lookup answers.
   */
  function RowsFor(e: WikipediaEdit, s: Sources): (r: Option<Rows>)
    requires e.current.Some? && Lower(e.namespace) in Settings.NameToId()
    ensures r.Some? <==>
              && s.creation(e.title, e.namespace).Some?
              && s.registration(e.current.value.user).Some?
              && s.editCount(e.current.value.user, e.timestamp).Some?
              && s.distinctPages(e.current.value.user, e.timestamp).Some?
              && s.warnings(e.current.value.user, e.timestamp).Some?
              && s.recentEdits(e.title, e.namespace, e.timestamp).Some?
              && s.recentReverts(e.title, e.namespace, e.timestamp).Some?
    ensures r.Some? ==>
              && r.value.current == RowOf(e.current.value)
              && r.value.previous == (if e.previous.Some? then Some(RowOf(e.previous.value)) else None)
              && r.value.training.user == e.current.value.user
              && r.value.training.comment == e.current.value.comment
              && r.value.training.timestamp == e.timestamp
              && r.value.training.pageTitle == e.title
              && r.value.training.pageNamespace == Settings.NameToId()[Lower(e.namespace)]
              && r.value.training.prevUser == (if e.previous.Some? then Some(e.previous.value.user) else None)
  {
    var user := e.current.value.user;
    var page := s.creation(e.title, e.namespace);
    if page.None? then None
    else
      var registered := s.registration(user);
      if registered.None? then None
      else
        var edits := s.editCount(user, e.timestamp);
        if edits.None? then None
        else
          var pages := s.distinctPages(user, e.timestamp);
          if pages.None? then None
          else
            var warns := s.warnings(user, e.timestamp);
            if warns.None? then None
            else
              var recentEdits := s.recentEdits(e.title, e.namespace, e.timestamp);
              if recentEdits.None? then None
              else
                var recentReverts := s.recentReverts(e.title, e.namespace, e.timestamp);
                if recentReverts.None? then None
                else
                  Some(Rows(
                    TrainingData(e.timestamp, e.current.value.comment, user, edits.value, pages.value, warns.value,
                                 registered.value, if e.previous.Some? then Some(e.previous.value.user) else None,
                                 e.title, Settings.NameToId()[Lower(e.namespace)], page.value.0, page.value.1,
                                 recentEdits.value, recentReverts.value),
                    RowOf(e.current.value),
                    if e.previous.Some? then Some(RowOf(e.previous.value)) else None))
  }

  /** The rows `create_training_data_for_edit` writes for `id`, when it writes any. */
  function TrainingRows(s: Sources, id: EditId): Option<Rows>
  {
    var fetched := FetchEdit(s, id);
    if fetched.FetchedEdit? then RowsFor(fetched.edit, s) else None
  }

  /** The TrainingData table after the writes: the row for `id` replaced. */
  function TrainingAfter(old_: map<EditId, TrainingData>, id: EditId, rows: Rows): map<EditId, TrainingData>
  {
    old_[id := rows.training]
  }

  /** The legacy Revision table after the writes: both rows of `id` replaced by the new ones. */
  function RevisionsAfter(old_: map<(EditId, RevisionType), RevisionRow>, id: EditId, rows: Rows): map<(EditId, RevisionType), RevisionRow>
  {
    var cleared := (old_ - {(id, Current), (id, Previous)})[(id, Current) := rows.current];
    if rows.previous.Some? then cleared[(id, Previous) := rows.previous.value] else cleared
  }

  /** The rows written for an edit are its rows and none other's. */
  lemma RevisionsAfterKeys(old_: map<(EditId, RevisionType), RevisionRow>, id: EditId, rows: Rows)
    ensures (id, Current) in RevisionsAfter(old_, id, rows) && RevisionsAfter(old_, id, rows)[(id, Current)] == rows.current
    ensures (id, Previous) in RevisionsAfter(old_, id, rows) <==> rows.previous.Some?
    ensures forall k | k in old_ && k.0 != id :: k in RevisionsAfter(old_, id, rows) && RevisionsAfter(old_, id, rows)[k] == old_[k]
    ensures forall k | k in RevisionsAfter(old_, id, rows) && k.0 != id :: k in old_
  {
  }

  /** The writes of `create_training_data_for_edit` once every lookup has answered. */
  method WriteRows(store: Store, id: EditId, rows: Rows)
    requires store.Valid() && id in store.edits
    modifies store
    ensures store.Valid()
    ensures store.trainingData == TrainingAfter(old(store.trainingData), id, rows)
    ensures store.revisions == RevisionsAfter(old(store.revisions), id, rows)
    ensures store.edits == old(store.edits) && store.groups == old(store.groups) && store.votes == old(store.votes)
    ensures store.currentRevisions == old(store.currentRevisions) && store.previousRevisions == old(store.previousRevisions)
    ensures store.scores == old(store.scores) && store.notices == old(store.notices)
  {
    store.DeleteTrainingData(id);
    store.CreateTrainingData(id, rows.training);
    store.DeleteRevisions(id);
    store.CreateRevision(id, Current, rows.current);
    if rows.previous.Some? {
      store.CreateRevision(id, Previous, rows.previous.value);
    }
  }

  /**
   * `create_training_data_for_edit`: nothing is written unless the edit is
   * fetched and every lookup answers; then the edit's TrainingData row and
   * Revision rows are replaced, the previous one only when there is one.
   * `raised` is an exception of the fetch, which also writes nothing.
   */
  method CreateTrainingDataForEdit(store: Store, id: EditId, s: Sources) returns (raised: bool)
    requires store.Valid() && id in store.edits
    modifies store
    ensures store.Valid()
    ensures raised <==> FetchEdit(s, id) == FetchRaised
    ensures TrainingRows(s, id).None? ==> store.State() == old(store.State())
    ensures TrainingRows(s, id).Some? ==>
              && store.trainingData == TrainingAfter(old(store.trainingData), id, TrainingRows(s, id).value)
              && store.revisions == RevisionsAfter(old(store.revisions), id, TrainingRows(s, id).value)
    ensures store.edits == old(store.edits) && store.groups == old(store.groups) && store.votes == old(store.votes)
    ensures store.currentRevisions == old(store.currentRevisions) && store.previousRevisions == old(store.previousRevisions)
    ensures store.scores == old(store.scores) && store.notices == old(store.notices)
  {
    var fetched := FetchEdit(s, id);
    raised := fetched == FetchRaised;
    if !fetched.FetchedEdit? {
      return;
    }
    var e := fetched.edit;
    if e.current.None? {
      return;
    }
    var rows := RowsFor(e, s);
    assert TrainingRows(s, id) == rows;
    if rows.None? {
      return;
    }
    WriteRows(store, id, rows.value);
  }

  /** Rows are written iff the metadata names a page with a current revision and every later lookup answers. */
  lemma TrainingRowsGuard(s: Sources, id: EditId)
    ensures TrainingRows(s, id).Some? <==>
              FetchEdit(s, id).FetchedEdit? && RowsFor(FetchEdit(s, id).edit, s).Some?
    ensures Training.EditMetadata(s.metadata(id)).Untitled? ==> TrainingRows(s, id).None?
  {
  }
}
