/**
 * The review API: the report-status dump of an edit group, the WPEditSet
 * stream, the edit-group listing, storing a reviewer's vote and choosing the
 * next edit to review. Every view reads or writes the review database
 * through the `Store` object.
 */
module ReviewApi {
  import opened Wrappers
  import opened Models
  import opened Store
  import opened Xml
  import Dumper

  // ---------------------------------------------------------------------
  // `report_status`

  /** `_calculate_report_status`: the report interface's status code of an edit. */
  function ReportStatus(e: Edit): Option<int>
  {
    if e.status == Pending then Some(0)
    else if e.status == Partial then Some(1)
    else match e.classification
      case Some(Vandalism) => Some(2)
      case Some(Constructive) => Some(3)
      case Some(Skipped) => Some(4)
      case None => None
  }

  /**
   * An unfinished edit reports its status code; a finished one reports its
   * classification code moved up by two, and nothing without a classification.
   */
  lemma ReportStatusCodes(e: Edit)
    ensures e.status != Done ==> ReportStatus(e) == Some(StatusCode(e.status))
    ensures e.status == Done ==> (ReportStatus(e).Some? <==> e.classification.Some?)
    ensures e.status == Done && e.classification.Some? ==> ReportStatus(e) == Some(LabelCode(e.classification.value) + 2)
  {
  }

  /** The code determines what it reports: the status of an unfinished edit, or the label of a finished one. */
  lemma ReportStatusInjective(a: Edit, b: Edit)
    requires ReportStatus(a).Some? && ReportStatus(a) == ReportStatus(b)
    ensures (a.status == Done) == (b.status == Done)
    ensures a.status != Done ==> a.status == b.status
    ensures a.status == Done ==> a.classification == b.classification
  {
  }

  /**
   * The entry an edit of the group gets in the report: its status code when
   * it is not deleted, 5 when it is deleted before being finished, and none
   * when it is deleted after being finished.
   */
  function ReportEntry(e: Edit): Option<int>
  {
    if !e.isDeleted then ReportStatus(e)
    else if e.status != Done then Some(5)
    else None
  }

  /** Every reported code is one of the six the report interface knows. */
  lemma ReportEntryRange(e: Edit)
    ensures ReportEntry(e).Some? ==> 0 <= ReportEntry(e).value <= 5
    ensures ReportEntry(e) == Some(5) <==> e.isDeleted && e.status != Done
    ensures e.isDeleted && e.status == Done ==> ReportEntry(e).None?
  {
  }

  /** The edits of the group, keyed by id. */
  predicate InGroup(edits: map<EditId, Edit>, g: GroupId, id: EditId)
  {
    id in edits && g in edits[id].groups
  }

  /** The two loops of `report_status`: the group's live edits, then its deleted unfinished ones. */
  method ReportStatusMap(edits: map<EditId, Edit>, g: GroupId) returns (m: map<EditId, int>)
    ensures forall id :: id in m <==> InGroup(edits, g, id) && ReportEntry(edits[id]).Some?
    ensures forall id | id in m :: id in edits && m[id] == ReportEntry(edits[id]).value
  {
    var live := set id | id in edits && g in edits[id].groups && !edits[id].isDeleted;
    var todo := live;
    m := map[];
    while todo != {}
      invariant todo <= live
      invariant forall id :: id in m <==> id in live - todo && ReportStatus(edits[id]).Some?
      invariant forall id | id in m :: m[id] == ReportStatus(edits[id]).value
      decreases |todo|
    {
      var id :| id in todo;
      var status := ReportStatus(edits[id]);
      if status.Some? {
        m := m[id := status.value];
      }
      todo := todo - {id};
    }
    var removed := set id | id in edits && g in edits[id].groups && edits[id].isDeleted && edits[id].status != Done;
    todo := removed;
    while todo != {}
      invariant todo <= removed
      invariant forall id :: id in m <==> (id in live && ReportStatus(edits[id]).Some?) || id in removed - todo
      invariant forall id | id in m && id in live :: m[id] == ReportStatus(edits[id]).value
      invariant forall id | id in m && id !in live :: m[id] == 5
      decreases |todo|
    {
      var id :| id in todo;
      m := m[id := 5];
      todo := todo - {id};
    }
  }

  /**
   * `report_status` of a group: `get_object()` looks the id up in the
   * listed groups, so 404 for a group that is missing or filtered out, and
   * for one that is not a report group.
   */
  method ReportStatusResponse(store: Store, g: GroupId, excludeEmpty: Option<string>) returns (r: Option<map<EditId, int>>)
    ensures r.None? <==> !Listed(store.groups, store.edits, excludeEmpty, g) || store.groups[g].groupType != 1
    ensures r.Some? ==> forall id :: id in r.value <==> InGroup(store.edits, g, id) && ReportEntry(store.edits[id]).Some?
    ensures r.Some? ==> forall id | id in r.value :: id in store.edits && r.value[id] == ReportEntry(store.edits[id]).value
  {
    var listed := ListedGroups(store, excludeEmpty);
    if g !in listed || store.groups[g].groupType != 1 {
      return None;
    }
    var m := ReportStatusMap(store.edits, g);
    r := Some(m);
  }

  // ---------------------------------------------------------------------
  // `dump`

  /** The groups whose edits are dumped: the group, and with `expand=1` the groups related to it. */
  function DumpedGroups(groups: map<GroupId, EditGroup>, g: GroupId, expand: bool): (r: set<GroupId>)
    ensures g in r
    ensures forall h :: h in r <==> h == g || (expand && h in groups && groups[h].relatedTo == Some(g))
  {
    {g} + (if expand then set h | h in groups && groups[h].relatedTo == Some(g) else {})
  }

  /** An edit the dump query returns: finished, with training data, in one of the dumped groups. */
  predicate Dumpable(e: Edit, groups: set<GroupId>)
  {
    e.status == Done && e.hasTrainingData && e.groups * groups != {}
  }

  /** The rows of the dump query: every one a dumpable edit, every dumpable edit among them. */
  predicate DumpRows(edits: map<EditId, Edit>, groups: set<GroupId>, rows: seq<EditId>)
  {
    && (forall i | 0 <= i < |rows| :: rows[i] in edits && Dumpable(edits[rows[i]], groups))
    && (forall id | id in edits && Dumpable(edits[id], groups) :: id in rows)
  }

  const EditSetOpen := "<WPEditSet>\n"
  const EditSetClose := "</WPEditSet>\n"

  /**
   * The chunks `_xml_generator` yields for the given WPEdit results, and
   * whether a KeyError ended the stream early: the opening tag, each
   * rendered WPEdit with a newline, then the closing tag.
   */
  function EditSetChunks(docs: seq<Dumper.Dump>): (seq<string>, bool)
  {
    Stream([EditSetOpen], docs)
  }

  /** The generator from a point on, given what it has yielded so far. */
  function Stream(done: seq<string>, docs: seq<Dumper.Dump>): (seq<string>, bool)
    decreases |docs|
  {
    if docs == [] then (done + [EditSetClose], false)
    else match docs[0]
      case NoDump => Stream(done, docs[1..])
      case Document(text) => Stream(done + [text + "\n"], docs[1..])
      case UnknownNamespace(_) => (done, true)
  }

  /** One step of the generator, at position `i`. */
  lemma StreamStep(done: seq<string>, docs: seq<Dumper.Dump>, i: nat)
    requires i < |docs|
    ensures docs[i].NoDump? ==> Stream(done, docs[i..]) == Stream(done, docs[i + 1..])
    ensures docs[i].Document? ==> Stream(done, docs[i..]) == Stream(done + [docs[i].text + "\n"], docs[i + 1..])
    ensures docs[i].UnknownNamespace? ==> Stream(done, docs[i..]) == (done, true)
  {
    assert docs[i..][0] == docs[i] && docs[i..][1..] == docs[i + 1..];
  }

  /** The rendered WPEdits in order, each with its newline. */
  function Bodies(docs: seq<Dumper.Dump>): seq<string>
  {
    if docs == [] then []
    else (if docs[0].Document? then [docs[0].text + "\n"] else []) + Bodies(docs[1..])
  }

  predicate NoKeyError(docs: seq<Dumper.Dump>)
  {
    forall i | 0 <= i < |docs| :: !docs[i].UnknownNamespace?
  }

  lemma {:induction false} StreamComplete(done: seq<string>, docs: seq<Dumper.Dump>)
    requires NoKeyError(docs)
    ensures Stream(done, docs) == (done + Bodies(docs) + [EditSetClose], false)
    decreases |docs|
  {
    if docs != [] {
      assert NoKeyError(docs[1..]) by {
        forall i | 0 <= i < |docs[1..]| ensures !docs[1..][i].UnknownNamespace? {
          assert docs[1..][i] == docs[i + 1];
        }
      }
      var head := if docs[0].Document? then [docs[0].text + "\n"] else [];
      assert !docs[0].UnknownNamespace?;
      assert Stream(done, docs) == Stream(done + head, docs[1..]) by {
        if docs[0].NoDump? {
          assert done + head == done;
        }
      }
      StreamComplete(done + head, docs[1..]);
      assert done + head + Bodies(docs[1..]) + [EditSetClose] == done + Bodies(docs) + [EditSetClose];
    } else {
      assert done + Bodies(docs) == done;
    }
  }

  lemma {:induction false} StreamStops(done: seq<string>, docs: seq<Dumper.Dump>, k: int)
    requires 0 <= k < |docs| && docs[k].UnknownNamespace? && NoKeyError(docs[..k])
    ensures Stream(done, docs) == (done + Bodies(docs[..k]), true)
    decreases |docs|
  {
    if k == 0 {
      assert docs[..0] == [];
      assert done + Bodies(docs[..0]) == done;
    } else {
      assert docs[1..][..k - 1] == docs[..k][1..];
      assert NoKeyError(docs[..k][1..]) by {
        forall i | 0 <= i < k - 1 ensures !docs[..k][1..][i].UnknownNamespace? {
          assert docs[..k][1..][i] == docs[..k][i + 1];
        }
      }
      assert !docs[0].UnknownNamespace? by { assert docs[..k][0] == docs[0]; }
      var head := if docs[0].Document? then [docs[0].text + "\n"] else [];
      assert Stream(done, docs) == Stream(done + head, docs[1..]) by {
        if docs[0].NoDump? {
          assert done + head == done;
        }
      }
      StreamStops(done + head, docs[1..], k - 1);
      assert Bodies(docs[..k]) == head + Bodies(docs[..k][1..]);
      assert done + head + Bodies(docs[..k][1..]) == done + Bodies(docs[..k]);
    }
  }

  /**
   * Without a KeyError the stream is the opening tag, the rendered WPEdits
   * with their newlines, and the closing tag; a KeyError at the `k`-th row
   * ends it after the rows before, with no closing tag.
   */
  lemma EditSetFraming(docs: seq<Dumper.Dump>)
    ensures NoKeyError(docs) ==> EditSetChunks(docs) == ([EditSetOpen] + Bodies(docs) + [EditSetClose], false)
    ensures forall k | 0 <= k < |docs| && docs[k].UnknownNamespace? && NoKeyError(docs[..k]) ::
              EditSetChunks(docs) == ([EditSetOpen] + Bodies(docs[..k]), true)
  {
    if NoKeyError(docs) {
      StreamComplete([EditSetOpen], docs);
    }
    forall k | 0 <= k < |docs| && docs[k].UnknownNamespace? && NoKeyError(docs[..k])
      ensures EditSetChunks(docs) == ([EditSetOpen] + Bodies(docs[..k]), true)
    {
      StreamStops([EditSetOpen], docs, k);
    }
  }

  /** Exactly the rows that render contribute a body, in their order. */
  lemma {:induction false} BodiesAppend(a: seq<Dumper.Dump>, b: seq<Dumper.Dump>)
    ensures Bodies(a + b) == Bodies(a) + Bodies(b)
  {
    if a == [] {
      assert a + b == b;
    } else {
      assert (a + b)[1..] == a[1..] + b;
      BodiesAppend(a[1..], b);
    }
  }

  /** A body is streamed for a row exactly when that row was rendered. */
  lemma {:induction false} BodiesMembership(docs: seq<Dumper.Dump>, text: string)
    ensures text + "\n" in Bodies(docs) <==> exists i | 0 <= i < |docs| :: docs[i] == Dumper.Document(text)
  {
    if docs != [] {
      BodiesMembership(docs[1..], text);
      if docs[0] == Dumper.Document(text) {
        assert Bodies(docs)[0] == text + "\n";
      } else {
        var head := if docs[0].Document? then [docs[0].text + "\n"] else [];
        assert Bodies(docs) == head + Bodies(docs[1..]);
        if docs[0].Document? {
          NewlineInjective(docs[0].text, text);
        }
        assert text + "\n" !in head;
        forall i | 1 <= i < |docs| ensures docs[i] == docs[1..][i - 1] {}
        assert (exists i | 0 <= i < |docs| :: docs[i] == Dumper.Document(text)) ==>
               (exists i | 0 <= i < |docs[1..]| :: docs[1..][i] == Dumper.Document(text));
      }
    }
  }

  lemma NewlineInjective(a: string, b: string)
    ensures a + "\n" == b + "\n" ==> a == b
  {
    assert (a + "\n")[..|a|] == a && (b + "\n")[..|b|] == b;
  }

  /** The WPEdit results for the rows of the dump query, rendered with the current escaping. */
  function DumpResults(db: Db, rows: seq<EditId>, source: Option<string>, esc: Escaper): (r: seq<Dumper.Dump>)
    requires forall i | 0 <= i < |rows| :: rows[i] in db.edits
    ensures |r| == |rows|
    ensures forall i | 0 <= i < |rows| :: r[i] == Dumper.Dumped(Dumper.Generate(db, db.edits[rows[i]], source), esc, true)
  {
    seq(|rows|, i requires 0 <= i < |rows| => Dumper.Dumped(Dumper.Generate(db, db.edits[rows[i]], source), esc, true))
  }

  /**
   * `dump`: 404 for a group `get_object()` does not find among the listed
   * groups; otherwise the chunks streamed, given the rows the query returns.
   * Every WPEdit names the requested group as its source, even one drawn
   * from a related group.
   */
  method DumpEditSet(et: Dumper.ElementTreeModule, store: Store, g: GroupId, excludeEmpty: Option<string>,
                     expand: bool, rows: seq<EditId>)
    returns (found: bool, chunks: seq<string>, raised: bool)
    requires g in store.groups ==> DumpRows(store.edits, DumpedGroups(store.groups, g, expand), rows)
    modifies et
    ensures et.escapeCdata == old(et.escapeCdata)
    ensures found <==> Listed(store.groups, store.edits, excludeEmpty, g)
    ensures !found ==> chunks == [] && !raised
    ensures found ==>
              (chunks, raised) == EditSetChunks(DumpResults(store.State(), rows, Some(store.groups[g].name), old(et.escapeCdata)))
  {
    var listed := ListedGroups(store, excludeEmpty);
    if g !in listed {
      return false, [], false;
    }
    found := true;
    ghost var docs := DumpResults(store.State(), rows, Some(store.groups[g].name), old(et.escapeCdata));
    ghost var db := store.State();
    chunks := [EditSetOpen];
    raised := false;
    var i := 0;
    while i < |rows|
      invariant 0 <= i <= |rows|
      invariant et.escapeCdata == old(et.escapeCdata)
      invariant store.State() == db
      invariant EditSetChunks(docs) == Stream(chunks, docs[i..])
    {
      assert Dumper.GroupName(Some(store.groups[g])) == Some(store.groups[g].name);
      var d := Dumper.GenerateWpEdit(et, store, store.edits[rows[i]], Some(store.groups[g]), true);
      assert docs[i] == d;
      StreamStep(chunks, docs, i);
      match d {
        case NoDump =>
        case Document(text) =>
          chunks := chunks + [text + "\n"];
        case UnknownNamespace(_) =>
          raised := true;
          return;
      }
      i := i + 1;
    }
    chunks := chunks + [EditSetClose];
  }

  // ---------------------------------------------------------------------
  // `dump_edit_as_wp_edit`

  /** The single-edit view's answer: 404, the WPEdit document, or the KeyError of an unknown namespace. */
  datatype EditDocument = NotFound404 | WpEditXml(text: string) | NamespaceKeyError(namespace: int)

  function AsDocument(d: Dumper.Dump): EditDocument
  {
    match d
    case NoDump => NotFound404
    case Document(text) => WpEditXml(text)
    case UnknownNamespace(n) => NamespaceKeyError(n)
  }

  /**
   * `dump_edit_as_wp_edit`: 404 for an unknown edit id and for an edit with
   * nothing to render; otherwise the WPEdit without a source and without the
   * post-pass.
   */
  method DumpEditAsWpEdit(et: Dumper.ElementTreeModule, store: Store, editId: int) returns (r: EditDocument)
    modifies et
    ensures et.escapeCdata == old(et.escapeCdata)
    ensures editId !in store.edits ==> r == NotFound404
    ensures editId in store.edits ==>
              r == AsDocument(Dumper.Dumped(Dumper.Generate(store.State(), store.edits[editId], None), old(et.escapeCdata), false))
  {
    if editId !in store.edits {
      return NotFound404;
    }
    var d := Dumper.GenerateWpEdit(et, store, store.edits[editId], None, false);
    r := AsDocument(d);
  }

  // ---------------------------------------------------------------------
  // `get_queryset`

  /** A group one of whose edits is finished and has training data. */
  predicate HasDumpableEdit(edits: map<EditId, Edit>, g: GroupId)
  {
    exists id | id in edits :: edits[id].status == Done && edits[id].hasTrainingData && g in edits[id].groups
  }

  /**
   * A group the queryset holds: every group, or with
   * `exclude_empty_editsets=1` those with a finished, trained edit and the
   * groups they are related to.
   */
  predicate Listed(groups: map<GroupId, EditGroup>, edits: map<EditId, Edit>, excludeEmpty: Option<string>, h: GroupId)
  {
    && h in groups
    && (excludeEmpty == Some("1") ==>
          HasDumpableEdit(edits, h) ||
          exists k | k in groups && HasDumpableEdit(edits, k) :: groups[k].relatedTo == Some(h))
  }

  /** `get_queryset`: the filtered groups, expanded by the groups they are related to. */
  method ListedGroups(store: Store, excludeEmpty: Option<string>) returns (ids: set<GroupId>)
    ensures excludeEmpty != Some("1") ==> ids == store.groups.Keys
    ensures excludeEmpty == Some("1") ==>
              forall h :: h in ids <==>
                h in store.groups &&
                (HasDumpableEdit(store.edits, h) ||
                 exists k | k in store.groups && HasDumpableEdit(store.edits, k) :: store.groups[k].relatedTo == Some(h))
    ensures forall h :: h in ids <==> Listed(store.groups, store.edits, excludeEmpty, h)
  {
    if excludeEmpty != Some("1") {
      return store.groups.Keys;
    }
    var filtered := set k | k in store.groups && HasDumpableEdit(store.edits, k);
    var todo := filtered;
    var expanded: seq<GroupId> := [];
    while todo != {}
      invariant todo <= filtered
      invariant forall h :: h in expanded <==>
                  h in filtered - todo ||
                  exists k | k in filtered - todo :: store.groups[k].relatedTo == Some(h)
      decreases |todo|
    {
      var k :| k in todo;
      expanded := expanded + [k];
      if store.groups[k].relatedTo.Some? {
        expanded := expanded + [store.groups[k].relatedTo.value];
      }
      todo := todo - {k};
    }
    ids := set h | h in store.groups && h in expanded;
  }

  // ---------------------------------------------------------------------
  // `store_edit_classification`

  /** The answers of the vote view. */
  datatype VoteResponse = NotFound | AlreadyStored | InvalidClassification | RequireConfirmation | Stored

  /** The comment stored with a vote: none when `len(comment.strip()) == 0`. */
  function StoredComment(comment: string): (r: Option<string>)
    ensures r.None? <==> Blank(Some(comment))
    ensures r.Some? ==> r.value == comment
  {
    if Blank(Some(comment)) then None else Some(comment)
  }

  /** Unicode spaces and the ASCII separators count as blank; a comment with a letter is kept as given. */
  lemma StoredCommentExamples()
    ensures StoredComment("") == None
    ensures StoredComment("\U{A0}") == None
    ensures StoredComment("\U{1C}\U{3000}\n") == None
    ensures StoredComment(" ok ") == Some(" ok ")
  {
    assert !IsSpace(" ok "[1]);
  }

  /**
   * The POSTed vote of `user`: the edit id, the classification (None when
   * it is missing or not a number), the confirmation flag and the comment
   * (empty when missing).
   */
  method StoreEditClassification(store: Store, user: UserId, editId: int, classification: Option<int>,
                                 confirmation: bool, comment: string) returns (r: VoteResponse)
    requires store.Valid()
    modifies store
    ensures store.Valid()
    ensures r == NotFound <==> editId !in store.edits
    ensures r == AlreadyStored <==> editId in store.edits && HasVote(old(store.votes), editId, user)
    ensures r == InvalidClassification <==>
              editId in store.edits && !HasVote(old(store.votes), editId, user) &&
              (classification.None? || classification.value !in ClassificationIds)
    ensures r == RequireConfirmation <==>
              && editId in store.edits && !HasVote(old(store.votes), editId, user)
              && classification.Some? && classification.value in ClassificationIds
              && store.edits[editId].classification.Some?
              && LabelCode(store.edits[editId].classification.value) != classification.value
              && !confirmation
    ensures r == Stored ==>
              && LabelOfCode(classification.value).Some?
              && store.votes == old(store.votes) + [Vote(editId, user, LabelOfCode(classification.value).value, StoredComment(comment))]
    ensures r != Stored ==> store.votes == old(store.votes)
    ensures store.edits == old(store.edits) && store.groups == old(store.groups)
    ensures store.trainingData == old(store.trainingData) && store.scores == old(store.scores)
    ensures store.currentRevisions == old(store.currentRevisions) && store.previousRevisions == old(store.previousRevisions)
    ensures store.revisions == old(store.revisions) && store.notices == old(store.notices)
  {
    if editId !in store.edits {
      return NotFound;
    }
    var edit := store.edits[editId];
    if HasVote(store.votes, editId, user) {
      return AlreadyStored;
    }
    ClassificationIdsAreLabelCodes(if classification.Some? then classification.value else -1);
    if classification.None? || classification.value !in ClassificationIds {
      return InvalidClassification;
    }
    if edit.classification.Some? && LabelCode(edit.classification.value) != classification.value && !confirmation {
      return RequireConfirmation;
    }
    store.AddVote(Vote(editId, user, LabelOfCode(classification.value).value, StoredComment(comment)));
    r := Stored;
  }

  /** A second vote by the same user on the same edit is refused and stores nothing. */
  lemma RepeatVoteRefused(votes: seq<Vote>, v: Vote)
    ensures HasVote(votes + [v], v.edit, v.user)
  {
    assert (votes + [v])[|votes|] == v;
  }

  // ---------------------------------------------------------------------
  // `get_next_edit_id_for_review`

  /** The edits of a group the user may review next: live, unfinished and not yet voted on by them. */
  function Candidates(edits: map<EditId, Edit>, votes: seq<Vote>, user: UserId, g: GroupId): set<EditId>
  {
    set id | id in edits && g in edits[id].groups && !edits[id].isDeleted && edits[id].status != Done && !HasVote(votes, id, user)
  }

  /** The groups with a positive weight, each once, heaviest first. */
  predicate WeightOrder(groups: map<GroupId, EditGroup>, order: seq<GroupId>)
  {
    && (forall i | 0 <= i < |order| :: order[i] in groups && groups[order[i]].weight > 0)
    && (forall g | g in groups && groups[g].weight > 0 :: g in order)
    && (forall i, j | 0 <= i < j < |order| :: order[i] != order[j] && groups[order[i]].weight >= groups[order[j]].weight)
  }

  /**
   * The next edit for `user`, scanning the groups by descending weight (the
   * order among equal weights being the database's): an edit of the first
   * group that has candidates, a partly reviewed one when there is one, and
   * otherwise a pending one; the random choice among them is left open.
   */
  method NextEditForReview(store: Store, user: UserId, order: seq<GroupId>) returns (r: Option<EditId>)
    requires store.Valid()
    requires WeightOrder(store.groups, order)
    ensures r.None? <==> forall g | g in store.groups && store.groups[g].weight > 0 :: Candidates(store.edits, store.votes, user, g) == {}
    ensures r.Some? ==>
              exists k | 0 <= k < |order| ::
                && r.value in Candidates(store.edits, store.votes, user, order[k])
                && (forall j | 0 <= j < k :: Candidates(store.edits, store.votes, user, order[j]) == {})
                && ((exists id | id in Candidates(store.edits, store.votes, user, order[k]) :: store.edits[id].status == Partial) ==>
                      store.edits[r.value].status == Partial)
  {
    var i := 0;
    while i < |order|
      invariant 0 <= i <= |order|
      invariant forall j | 0 <= j < i :: Candidates(store.edits, store.votes, user, order[j]) == {}
    {
      var candidates := Candidates(store.edits, store.votes, user, order[i]);
      if candidates != {} {
        var inProgress := set id | id in candidates && store.edits[id].status == Partial;
        if inProgress != {} {
          var id :| id in inProgress;
          assert id in Candidates(store.edits, store.votes, user, order[i]);
          return Some(id);
        }
        forall id | id in candidates ensures store.edits[id].status != Partial {
          assert id in inProgress <==> store.edits[id].status == Partial;
        }
        var pending := set id | id in candidates && store.edits[id].status == Pending;
        var id :| id in candidates;
        assert id !in inProgress;
        assert id in pending;
        var chosen :| chosen in pending;
        assert chosen in Candidates(store.edits, store.votes, user, order[i]);
        return Some(chosen);
      }
      i := i + 1;
    }
    r := None;
  }
}
