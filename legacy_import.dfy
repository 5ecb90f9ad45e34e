/**
 * The event loop of the older `EditSetParser.import_to_group`
 * (libs/edit_set.py): it gathers each WPEdit's leaves and revision blocks
 * into a dictionary and, at `</WPEdit>`, looks the edit up, skips it on a
 * partial run when it already has training data, stops the whole import
 * on a deleted revision, fleshes the record out and imports its training
 * data. The Wikipedia answers are inputs, one per edit id.
 */
module LegacyImport {
  import opened Wrappers
  import opened Strings
  import opened Models
  import opened Store
  import opened Xml
  import P = EditSetParser
  import LW = LegacyWikipedia
  import opened LegacyEditSet

  // ---------------------------------------------------------------------
  // Storing a leaf
  // ---------------------------------------------------------------------

  /** `current_edit[tag] = elem.text` for an accepted or a mapped tag. */
  function Stored(d: P.Dict, tag: string, text: Option<string>): P.Dict
  {
    if tag in P.EditFields then d[tag := text]
    else if P.MappedField(tag).Some? then d[P.MappedField(tag).value := text]
    else d
  }

  /** The assignments at an end event, then the `match` on the tag as written: its `user` case writes `comment`. */
  function StoreFieldAsWritten(d: P.Dict, tag: string, text: Option<string>): P.Dict
  {
    var stored := Stored(d, tag, text);
    if tag == "EditID" then stored["edit_id" := text]
    else if tag == "comment" then stored["comment" := text]
    else if tag == "user" then stored["comment" := text]
    else stored
  }

  /** The same with the `user` case writing the user, as the other cases write their own key. */
  function StoreField(d: P.Dict, tag: string, text: Option<string>): P.Dict
  {
    var stored := Stored(d, tag, text);
    if tag == "EditID" then stored["edit_id" := text]
    else if tag == "comment" then stored["comment" := text]
    else if tag == "user" then stored["user" := text]
    else stored
  }

  /**
   * An end event stores exactly one entry: an accepted tag under its own
   * name, `EditID` and `isVandalism` under their mapped names, and any
   * other tag nothing at all.
   */
  lemma StoreFieldStores(d: P.Dict, tag: string, text: Option<string>)
    ensures tag in P.EditFields ==> StoreField(d, tag, text) == d[tag := text]
    ensures tag == "EditID" ==> StoreField(d, tag, text) == d["edit_id" := text]
    ensures tag == "isVandalism" ==> StoreField(d, tag, text) == d["is_vandalism" := text]
    ensures tag !in P.EditFields && tag != "EditID" && tag != "isVandalism" ==> StoreField(d, tag, text) == d
  {
    if tag == "EditID" {
      assert d["edit_id" := text]["edit_id" := text] == d["edit_id" := text];
    } else if tag == "comment" {
      assert d[tag := text][tag := text] == d[tag := text];
    } else if tag == "user" {
      assert d[tag := text][tag := text] == d[tag := text];
    }
  }

  /** As written, the user's end event replaces the comment with the user name. */
  lemma UserOverwritesCommentAsWritten(d: P.Dict, text: Option<string>)
    ensures StoreFieldAsWritten(d, "user", text) == StoreField(d, "user", text)["comment" := text]
  {
    assert "user" in P.EditFields;
  }

  /** In the order the dump writes them, a comment followed by the user leaves the user name as the comment. */
  lemma CommentLostAsWritten()
    ensures StoreFieldAsWritten(StoreFieldAsWritten(map[], "comment", Some("typo")), "user", Some("Alice"))["comment"] == Some("Alice")
    ensures StoreField(StoreField(map[], "comment", Some("typo")), "user", Some("Alice"))["comment"] == Some("typo")
  {
    assert "comment" in P.EditFields && "user" in P.EditFields;
    StoreFieldStores(map[], "comment", Some("typo"));
    StoreFieldStores(map[]["comment" := Some("typo")], "user", Some("Alice"));
  }

  // ---------------------------------------------------------------------
  // Gathering one edit
  // ---------------------------------------------------------------------

  /** The loop's variables: the edit being gathered, if any, and the open revision dictionaries. */
  datatype Loop = Loop(edit: Option<Gathered>, currentRevision: Option<P.Dict>, previousRevision: Option<P.Dict>)

  const Fresh: Loop := Loop(None, None, None)

  /** `current_edit = {}` */
  const EmptyEdit: Gathered := Gathered(map[], None, None)

  /**
   * The branches after `if current_edit is None: continue`: a revision leaf
   * of an open block, the start or end of a block (converting the block at
   * its end), and a leaf of the edit at its end. None when converting a
   * block raises.
   */
  function Collect(l: Loop, ev: Event): (r: Option<Loop>)
    requires l.edit.Some?
    ensures r.Some? ==> r.value.edit.Some?
  {
    var g := l.edit.value;
    if l.currentRevision.Some? && ev.kind == End && ev.tag in P.RevisionFields then
      Some(l.(currentRevision := Some(l.currentRevision.value[ev.tag := ev.text])))
    else if ev.tag == "current" then
      if ev.kind == Start then Some(l.(currentRevision := Some(map[])))
      else if l.currentRevision.Some? then
        match P.RevisionFromXml(l.currentRevision.value)
        case Converted(rev) => Some(l.(edit := Some(g.(current := Some(rev))), currentRevision := None))
        case _ => None
      else Some(l)
    else if l.previousRevision.Some? && ev.kind == End && ev.tag in P.RevisionFields then
      Some(l.(previousRevision := Some(l.previousRevision.value[ev.tag := ev.text])))
    else if ev.tag == "previous" then
      if ev.kind == Start then Some(l.(previousRevision := Some(map[])))
      else if l.previousRevision.Some? then
        match P.RevisionFromXml(l.previousRevision.value)
        case Converted(rev) => Some(l.(edit := Some(g.(previous := Some(rev))), previousRevision := None))
        case _ => None
      else Some(l)
    else if ev.kind == End then Some(l.(edit := Some(g.(fields := StoreField(g.fields, ev.tag, ev.text)))))
    else Some(l)
  }

  /**
   * The end of an open revision block converts the block into the edit's
   * entry and closes it, and raises exactly when the conversion does.
   */
  lemma CollectClosesBlock(l: Loop, ev: Event)
    requires l.edit.Some? && ev.kind == End && (ev.tag == "current" || ev.tag == "previous")
    requires ev.tag == "current" ==> l.currentRevision.Some?
    requires ev.tag == "previous" ==> l.currentRevision.None? && l.previousRevision.Some?
    ensures var block := if ev.tag == "current" then l.currentRevision.value else l.previousRevision.value;
      && (Collect(l, ev).Some? <==> P.RevisionFromXml(block).Converted?)
      && (Collect(l, ev).Some? ==>
            var g := Collect(l, ev).value.edit.value;
            && g.fields == l.edit.value.fields
            && (ev.tag == "current" ==> g.current == Some(P.RevisionFromXml(block).value) && g.previous == l.edit.value.previous
                                        && Collect(l, ev).value.currentRevision.None?)
            && (ev.tag == "previous" ==> g.previous == Some(P.RevisionFromXml(block).value) && g.current == l.edit.value.current
                                         && Collect(l, ev).value.previousRevision.None?))
  {
  }

  /** A revision leaf inside an open block goes to that block and nowhere else. */
  lemma CollectRevisionLeaf(l: Loop, ev: Event)
    requires l.edit.Some? && ev.kind == End && ev.tag in P.RevisionFields
    requires l.currentRevision.Some? || l.previousRevision.Some?
    ensures Collect(l, ev) == Some(
              if l.currentRevision.Some? then l.(currentRevision := Some(l.currentRevision.value[ev.tag := ev.text]))
              else l.(previousRevision := Some(l.previousRevision.value[ev.tag := ev.text])))
  {
  }

  /** Outside the revision blocks, an end event stores the leaf in the edit as `StoreField` says, and changes nothing else. */
  lemma CollectLeaf(l: Loop, ev: Event)
    requires l.edit.Some? && ev.kind == End && ev.tag != "current" && ev.tag != "previous"
    requires ev.tag !in P.RevisionFields || (l.currentRevision.None? && l.previousRevision.None?)
    ensures Collect(l, ev) == Some(l.(edit := Some(l.edit.value.(fields := StoreField(l.edit.value.fields, ev.tag, ev.text)))))
  {
  }

  // ---------------------------------------------------------------------
  // Handling one gathered edit
  // ---------------------------------------------------------------------

  /** The Wikipedia answers the import reads: the deletion check's answer and fleshing out's lookups. */
  datatype ImportSources = ImportSources(deletion: EditId -> LW.DeletionAnswer, flesh: FleshSources)

  /** After one edit: the loop goes on with a fresh dictionary, goes on keeping it (`continue`), or the import ends. */
  datatype Handled = Continued | SkippedExisting | Stopped(raised: bool)

  /**
   * `Edit.objects.get(id=wp_edit.edit_id)` reads the id text as an integer;
   * None for any text that is not a positive integer.
   */
  function EditIdOf(v: Value): (id: Option<EditId>)
    ensures id.Some? <==> v.Text? && v.text.Some? && ParseInt(v.text.value).Some? && ParseInt(v.text.value).value > 0
    ensures id.Some? ==> id.value == ParseInt(v.text.value).value
  {
    if v.Text? && v.text.Some? && ParseInt(v.text.value).Some? && ParseInt(v.text.value).value > 0 then
      Some(ParseInt(v.text.value).value)
    else None
  }

  /** The edit `Imported` starts from: the stored one, or the one it creates. */
  function Creating(db: Db, id: EditId, w: Record): (e: Edit)
    requires WellFormed(w)
  {
    if id in db.edits then db.edits[id] else NewImportedEdit(id, w.fields["is_vandalism"])
  }

  /** The tables once a record that fleshed out is imported: the edit is created when missing, then its training data. */
  function Imported(db: Db, id: EditId, group: GroupId, w: Record): (Db, bool)
    requires WellFormed(w)
  {
    ImportedTrainingData(db.(edits := db.edits[id := Creating(db, id, w)]), id, group, w)
  }

  /** A deleted revision: the edit, when there is one not yet flagged, is flagged deleted. */
  function MarkedDeleted(db: Db, id: EditId): Db
  {
    if id in db.edits && !db.edits[id].isDeleted then db.(edits := db.edits[id := db.edits[id].(isDeleted := true)]) else db
  }

  /** The body of `if context == "end" and current_edit:` for a record that converted, with edit id `id`. */
  function HandleRecord(db: Db, id: EditId, r: Record, group: GroupId, partial: bool, s: ImportSources): (Db, Handled)
    requires WellFormed(r)
  {
    if partial && id in db.edits && db.edits[id].hasTrainingData then (db, SkippedExisting)
    else
      match LW.HasRevisionBeenDeleted(s.deletion(id))
      case EmptyListError => (db, Stopped(true))
      case Verdict(deleted) =>
        if deleted then (MarkedDeleted(db, id), Stopped(false))
        else
          match FleshOut(r, s.flesh)
          case FleshRaised => (db, Stopped(true))
          case Rejected => (db, Continued)
          case Fleshed(w) =>
            var (after, raised) := Imported(db, id, group, w);
            (after, if raised then Stopped(true) else Continued)
  }

  /** `WpEdit.from_xml(current_edit)`, the edit id, then the handling; a record that does not convert raises. */
  function Handle(db: Db, g: Gathered, group: GroupId, partial: bool, s: ImportSources): (Db, Handled)
  {
    match FromXml(g)
    case Converted(r) =>
      (match EditIdOf(r.fields["edit_id"])
       case Some(id) => HandleRecord(db, id, r, group, partial, s)
       case None => (db, Stopped(true)))
    case _ => (db, Stopped(true))
  }

  /** Whether the record would be imported: not skipped, its revision not deleted, and fleshed out. */
  predicate Importing(db: Db, id: EditId, r: Record, partial: bool, s: ImportSources)
    requires WellFormed(r)
  {
    && !(partial && id in db.edits && db.edits[id].hasTrainingData)
    && LW.HasRevisionBeenDeleted(s.deletion(id)) == LW.Verdict(false)
    && FleshOut(r, s.flesh).Fleshed?
  }

  /** On a partial run, an edit that already has training data is skipped before anything is asked of Wikipedia. */
  lemma HandleSkipsTrained(db: Db, id: EditId, r: Record, group: GroupId, partial: bool, s: ImportSources)
    requires WellFormed(r)
    ensures HandleRecord(db, id, r, group, partial, s).1 == SkippedExisting <==> partial && id in db.edits && db.edits[id].hasTrainingData
    ensures HandleRecord(db, id, r, group, partial, s).1 == SkippedExisting ==> HandleRecord(db, id, r, group, partial, s).0 == db
  {
  }

  /**
   * A deleted revision ends the whole import without an exception, after
   * flagging the edit deleted when it exists: nothing else changes.
   */
  lemma HandleStopsOnDeletion(db: Db, id: EditId, r: Record, group: GroupId, partial: bool, s: ImportSources)
    requires WellFormed(r)
    requires !(partial && id in db.edits && db.edits[id].hasTrainingData)
    requires LW.HasRevisionBeenDeleted(s.deletion(id)) == LW.Verdict(true)
    ensures var (after, o) := HandleRecord(db, id, r, group, partial, s);
      && o == Stopped(false)
      && after.edits.Keys == db.edits.Keys
      && (id in db.edits ==> after.edits[id] == db.edits[id].(isDeleted := true))
      && (forall k | k in db.edits && k != id :: after.edits[k] == db.edits[k])
      && after.(edits := db.edits) == db
  {
    if id in db.edits && db.edits[id].isDeleted {
      assert db.edits[id].(isDeleted := true) == db.edits[id];
    }
  }

  /** The handling raises exactly when the deletion check, fleshing out or the import itself does. */
  lemma HandleRaises(db: Db, id: EditId, r: Record, group: GroupId, partial: bool, s: ImportSources)
    requires WellFormed(r)
    ensures HandleRecord(db, id, r, group, partial, s).1 == Stopped(true) <==>
      && !(partial && id in db.edits && db.edits[id].hasTrainingData)
      && (|| LW.HasRevisionBeenDeleted(s.deletion(id)).EmptyListError?
          || (LW.HasRevisionBeenDeleted(s.deletion(id)) == LW.Verdict(false) &&
              (FleshOut(r, s.flesh).FleshRaised? || (FleshOut(r, s.flesh).Fleshed? && ImportRaises(FleshOut(r, s.flesh).record)))))
  {
    if Importing(db, id, r, partial, s) {
      var w := FleshOut(r, s.flesh).record;
      var created := if id in db.edits then db else db.(edits := db.edits[id := NewImportedEdit(id, w.fields["is_vandalism"])]);
      ImportedTrainingDataRaises(created, id, group, w);
    }
  }

  /** The rows an import that does not raise leaves for the edit. */
  lemma ImportedEdit(db: Db, id: EditId, group: GroupId, w: Record)
    requires WellFormed(w) && !ImportRaises(w)
    ensures var (after, raised) := Imported(db, id, group, w);
      && !raised
      && id in after.edits && after.edits[id] == Creating(db, id, w).(groups := Creating(db, id, w).groups + {group})
      && after.trainingData[id] == TrainingRowOf(w).value
  {
    var created := db.(edits := db.edits[id := Creating(db, id, w)]);
    ImportedTrainingDataRows(created, id, group, w);
  }

  /** The ORM calls of the import keep every other edit and TrainingData row, whatever rows they insert. */
  lemma WriteImportKeepsOthers(db: Db, id: EditId, group: GroupId, row: Option<TrainingData>,
                               current: Option<RevisionRow>, previous: Option<Option<RevisionRow>>)
    requires id in db.edits
    ensures var after := WriteImport(db, id, group, row, current, previous).0;
      && (forall k | k in db.edits && k != id :: k in after.edits && after.edits[k] == db.edits[k])
      && (forall k | k in db.trainingData && k != id :: k in after.trainingData && after.trainingData[k] == db.trainingData[k])
  {
  }

  /** Whether or not it raises, an import keeps every other edit and TrainingData row. */
  lemma ImportedFrame(db: Db, id: EditId, group: GroupId, w: Record)
    requires WellFormed(w)
    ensures var after := Imported(db, id, group, w).0;
      && (forall k | k in db.edits && k != id :: k in after.edits && after.edits[k] == db.edits[k])
      && (forall k | k in db.trainingData && k != id :: k in after.trainingData && after.trainingData[k] == db.trainingData[k])
  {
    var created := db.(edits := db.edits[id := Creating(db, id, w)]);
    WriteImportKeepsOthers(created, id, group, TrainingRowOf(w), RevisionRowOf(w.current), PreviousRowOf(w));
    forall k | k in db.edits && k != id
      ensures created.edits[k] == db.edits[k]
    {
    }
  }

  /**
   * A record that is imported leaves the edit with the group, its
   * TrainingData row built from the fleshed-out record and, when the edit
   * was new, the classification the record's isVandalism gives and status
   * done; the rows of every other edit stay.
   */
  lemma HandleImports(db: Db, id: EditId, r: Record, group: GroupId, partial: bool, s: ImportSources)
    requires WellFormed(r) && Importing(db, id, r, partial, s) && !ImportRaises(FleshOut(r, s.flesh).record)
    ensures var w := FleshOut(r, s.flesh).record;
      var (after, o) := HandleRecord(db, id, r, group, partial, s);
      && o == Continued
      && id in after.edits && group in after.edits[id].groups
      && after.trainingData[id] == TrainingRowOf(w).value
      && (id in db.edits ==> after.edits[id] == db.edits[id].(groups := db.edits[id].groups + {group}))
      && (id !in db.edits ==> after.edits[id] == NewImportedEdit(id, w.fields["is_vandalism"]).(groups := {group}))
      && (id !in db.edits ==> after.edits[id].classification == Some(ClassificationOf(w.fields["is_vandalism"])))
      && (forall k | k in db.edits && k != id :: k in after.edits && after.edits[k] == db.edits[k])
      && (forall k | k in db.trainingData && k != id :: k in after.trainingData && after.trainingData[k] == db.trainingData[k])
  {
    var w := FleshOut(r, s.flesh).record;
    assert HandleRecord(db, id, r, group, partial, s) == (Imported(db, id, group, w).0, Continued);
    ImportedEdit(db, id, group, w);
    ImportedFrame(db, id, group, w);
  }

  // ---------------------------------------------------------------------
  // The loop over the events
  // ---------------------------------------------------------------------

  /** The loop while it runs, or the tables once it has returned or raised. */
  datatype Run = Running(loop: Loop, db: Db) | Halted(db: Db, raised: bool)

  /** One iteration of the `for context, elem in ET.iterparse(...)` loop. */
  function Advance(run: Run, ev: Event, group: GroupId, partial: bool, s: ImportSources): Run
  {
    match run
    case Halted(_, _) => run
    case Running(l, db) =>
      var l1 := Opened(l, ev);
      if EndsEdit(l1, ev) then Closed(l1, Handle(db, l1.edit.value, group, partial, s))
      else if l1.edit.None? then Running(l1, db)
      else Collected(db, Collect(l1, ev))
  }

  /** `if elem.tag == "WPEdit" and context == "start": current_edit = {}` */
  function Opened(l: Loop, ev: Event): Loop
  {
    if ev.tag == "WPEdit" && ev.kind == Start then l.(edit := Some(EmptyEdit)) else l
  }

  /** `if elem.tag == "WPEdit" and context == "end" and current_edit:` */
  predicate EndsEdit(l: Loop, ev: Event)
  {
    ev.tag == "WPEdit" && ev.kind == End && l.edit.Some? && NonEmpty(l.edit.value)
  }

  /** The loop after handling an edit: a fresh dictionary, the same one (`continue`), or the end of the import. */
  function Closed(l: Loop, h: (Db, Handled)): Run
  {
    match h.1
    case Continued => Running(l.(edit := None), h.0)
    case SkippedExisting => Running(l, h.0)
    case Stopped(raised) => Halted(h.0, raised)
  }

  /** The loop after gathering: the new variables, or the end of the import when a block does not convert. */
  function Collected(db: Db, c: Option<Loop>): Run
  {
    match c
    case Some(l) => Running(l, db)
    case None => Halted(db, true)
  }

  function Feed(run: Run, evs: seq<Event>, group: GroupId, partial: bool, s: ImportSources): Run
    decreases |evs|
  {
    if evs == [] then run else Advance(Feed(run, evs[..|evs| - 1], group, partial, s), evs[|evs| - 1], group, partial, s)
  }

  /** `import_to_group(target_group, path, partial_run)`: the tables it leaves, and whether it raised. */
  function ImportToGroup(db: Db, group: GroupId, partial: bool, s: ImportSources, stream: P.Stream): (Db, bool)
  {
    match Feed(Running(Fresh, db), stream.events, group, partial, s)
    case Halted(after, raised) => (after, raised)
    case Running(_, after) => (after, !stream.wellFormed)
  }

  /** One more event of a stream is one more iteration. */
  lemma FeedLast(run: Run, evs: seq<Event>, i: nat, group: GroupId, partial: bool, s: ImportSources)
    requires i < |evs|
    ensures Feed(run, evs[..i + 1], group, partial, s) == Advance(Feed(run, evs[..i], group, partial, s), evs[i], group, partial, s)
  {
    assert evs[..i + 1][..i] == evs[..i];
  }

  /** Once the loop has returned or raised, later events change nothing. */
  lemma {:induction false} HaltedStays(db: Db, raised: bool, evs: seq<Event>, group: GroupId, partial: bool, s: ImportSources)
    ensures Feed(Halted(db, raised), evs, group, partial, s) == Halted(db, raised)
    decreases |evs|
  {
    if evs != [] {
      HaltedStays(db, raised, evs[..|evs| - 1], group, partial, s);
    }
  }

  /** Feeding two runs of events is feeding the second after the first. */
  lemma {:induction false} FeedConcat(run: Run, a: seq<Event>, b: seq<Event>, group: GroupId, partial: bool, s: ImportSources)
    ensures Feed(run, a + b, group, partial, s) == Feed(Feed(run, a, group, partial, s), b, group, partial, s)
    decreases |b|
  {
    if b == [] {
      assert a + b == a;
    } else {
      assert (a + b)[..|a + b| - 1] == a + b[..|b| - 1];
      FeedConcat(run, a, b[..|b| - 1], group, partial, s);
    }
  }

  /**
   * Once the loop has halted, by a deleted revision or an exception, the
   * import's outcome is the halted one whatever events follow.
   */
  lemma HaltEndsImport(db: Db, group: GroupId, partial: bool, s: ImportSources, stream: P.Stream, i: nat)
    requires i <= |stream.events|
    requires Feed(Running(Fresh, db), stream.events[..i], group, partial, s).Halted?
    ensures var h := Feed(Running(Fresh, db), stream.events[..i], group, partial, s);
      ImportToGroup(db, group, partial, s, stream) == (h.db, h.raised)
  {
    var h := Feed(Running(Fresh, db), stream.events[..i], group, partial, s);
    FeedConcat(Running(Fresh, db), stream.events[..i], stream.events[i..], group, partial, s);
    assert stream.events[..i] + stream.events[i..] == stream.events;
    HaltedStays(h.db, h.raised, stream.events[i..], group, partial, s);
  }

  /**
   * A skipped edit keeps its dictionary: the loop goes on gathering into
   * it until the next `<WPEdit>` starts a blank one.
   */
  lemma SkipKeepsGathering(l: Loop, db: Db, ev: Event, group: GroupId, partial: bool, s: ImportSources)
    requires ev.tag == "WPEdit" && ev.kind == End && l.edit.Some? && NonEmpty(l.edit.value)
    requires Handle(db, l.edit.value, group, partial, s).1 == SkippedExisting
    ensures Advance(Running(l, db), ev, group, partial, s) == Running(l, db)
    ensures Advance(Running(l, db), Event(Start, "WPEdit", ev.text), group, partial, s).Running?
    ensures Advance(Running(l, db), Event(Start, "WPEdit", ev.text), group, partial, s).loop.edit == Some(EmptyEdit)
  {
    assert Handle(db, l.edit.value, group, partial, s).0 == db by {
      var r := FromXml(l.edit.value).value;
      HandleSkipsTrained(db, EditIdOf(r.fields["edit_id"]).value, r, group, partial, s);
    }
    assert Collect(l.(edit := Some(EmptyEdit)), Event(Start, "WPEdit", ev.text)) == Some(l.(edit := Some(EmptyEdit)));
  }

  /** A dictionary left empty at `</WPEdit>` is not handled: the tables stay. */
  lemma EmptyEditIgnored(l: Loop, db: Db, text: Option<string>, group: GroupId, partial: bool, s: ImportSources)
    requires l.edit == Some(EmptyEdit)
    ensures Advance(Running(l, db), Event(End, "WPEdit", text), group, partial, s).Running?
    ensures Advance(Running(l, db), Event(End, "WPEdit", text), group, partial, s).db == db
  {
    StoreFieldStores(EmptyEdit.fields, "WPEdit", text);
  }

  // ---------------------------------------------------------------------
  // The import on the store
  // ---------------------------------------------------------------------

  /** `if not edit: Edit.objects.create(...)`, then `_import_training_data`. */
  method ImportRecord(store: Store, id: EditId, group: GroupId, w: Record) returns (raised: bool)
    requires store.Valid() && group in store.groups && WellFormed(w)
    modifies store
    ensures store.Valid()
    ensures store.groups == old(store.groups)
    ensures (store.State(), raised) == Imported(old(store.State()), id, group, w)
  {
    if id !in store.edits {
      store.CreateEdit(NewImportedEdit(id, w.fields["is_vandalism"]));
    } else {
      assert store.edits[id := store.edits[id]] == store.edits;
    }
    assert store.State() == old(store.State()).(edits := old(store.edits)[id := Creating(old(store.State()), id, w)]);
    raised := ImportTrainingData(store, id, group, w);
  }

  /** The handling of a record that converted, on the store. */
  method HandleRecordOn(store: Store, id: EditId, r: Record, group: GroupId, partial: bool, s: ImportSources)
    returns (o: Handled)
    requires store.Valid() && group in store.groups && WellFormed(r)
    modifies store
    ensures store.Valid()
    ensures store.groups == old(store.groups)
    ensures (store.State(), o) == HandleRecord(old(store.State()), id, r, group, partial, s)
  {
    if partial && id in store.edits && store.edits[id].hasTrainingData {
      return SkippedExisting;
    }
    var deleted := LW.HasRevisionBeenDeleted(s.deletion(id));
    if deleted.EmptyListError? {
      return Stopped(true);
    }
    if deleted.deleted {
      if id in store.edits && !store.edits[id].isDeleted {
        store.SaveEdit(store.edits[id].(isDeleted := true));
      }
      return Stopped(false);
    }
    var fleshed := FleshOutEdit(r, s.flesh);
    match fleshed
    case FleshRaised => o := Stopped(true);
    case Rejected => o := Continued;
    case Fleshed(w) =>
      var raised := ImportRecord(store, id, group, w);
      o := if raised then Stopped(true) else Continued;
  }

  /** The handling of a gathered dictionary at `</WPEdit>`, on the store. */
  method HandleOn(store: Store, g: Gathered, group: GroupId, partial: bool, s: ImportSources) returns (o: Handled)
    requires store.Valid() && group in store.groups
    modifies store
    ensures store.Valid()
    ensures store.groups == old(store.groups)
    ensures (store.State(), o) == Handle(old(store.State()), g, group, partial, s)
  {
    var wpEdit := FromXml(g);
    if !wpEdit.Converted? {
      return Stopped(true);
    }
    var id := EditIdOf(wpEdit.value.fields["edit_id"]);
    if id.None? {
      return Stopped(true);
    }
    o := HandleRecordOn(store, id.value, wpEdit.value, group, partial, s);
  }

  /** One iteration of the loop on the store: the loop's new variables, or whether the import ended and raised. */
  method AdvanceOn(store: Store, l: Loop, ev: Event, group: GroupId, partial: bool, s: ImportSources)
    returns (next: Loop, halted: bool, raised: bool)
    requires store.Valid() && group in store.groups
    modifies store
    ensures store.Valid() && group in store.groups
    ensures store.groups == old(store.groups)
    ensures Advance(Running(l, old(store.State())), ev, group, partial, s) ==
            if halted then Halted(store.State(), raised) else Running(next, store.State())
  {
    next, halted, raised := Opened(l, ev), false, false;
    if EndsEdit(next, ev) {
      next, halted, raised := CloseOn(store, next, group, partial, s);
    } else if next.edit.Some? {
      var collected := Collect(next, ev);
      if collected.None? {
        halted, raised := true, true;
      } else {
        next := collected.value;
      }
    }
  }

  /** The handling at `</WPEdit>` on the store, and what the loop does next. */
  method CloseOn(store: Store, l: Loop, group: GroupId, partial: bool, s: ImportSources)
    returns (next: Loop, halted: bool, raised: bool)
    requires store.Valid() && group in store.groups && l.edit.Some?
    modifies store
    ensures store.Valid() && group in store.groups
    ensures store.groups == old(store.groups)
    ensures Closed(l, Handle(old(store.State()), l.edit.value, group, partial, s)) ==
            if halted then Halted(store.State(), raised) else Running(next, store.State())
  {
    var o := HandleOn(store, l.edit.value, group, partial, s);
    next := if o == Continued then l.(edit := None) else l;
    halted, raised := o.Stopped?, o.Stopped? && o.raised;
  }

  /**
   * `import_to_group(target_group, path, partial_run)`: the loop over the
   * events with its three variables, handling each gathered edit on the
   * store; true when it raised.
   */
  method ImportToGroupOn(store: Store, group: GroupId, partial: bool, s: ImportSources, stream: P.Stream)
    returns (raised: bool)
    requires store.Valid() && group in store.groups
    modifies store
    ensures store.Valid()
    ensures (store.State(), raised) == ImportToGroup(old(store.State()), group, partial, s, stream)
  {
    ghost var db := store.State();
    var edit: Option<Gathered>, currentRevision: Option<P.Dict>, previousRevision: Option<P.Dict> := None, None, None;
    var i := 0;
    while i < |stream.events|
      invariant 0 <= i <= |stream.events|
      invariant store.Valid() && group in store.groups
      invariant Feed(Running(Fresh, db), stream.events[..i], group, partial, s) ==
                Running(Loop(edit, currentRevision, previousRevision), store.State())
    {
      FeedLast(Running(Fresh, db), stream.events, i, group, partial, s);
      var next, halted, raisedHere := AdvanceOn(store, Loop(edit, currentRevision, previousRevision), stream.events[i], group, partial, s);
      if halted {
        HaltEndsImport(db, group, partial, s, stream, i + 1);
        return raisedHere;
      }
      edit, currentRevision, previousRevision := next.edit, next.currentRevision, next.previousRevision;
      i := i + 1;
    }
    assert stream.events[..i] == stream.events;
    raised := !stream.wellFormed;
  }

}
