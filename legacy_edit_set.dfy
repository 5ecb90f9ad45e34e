/**
 * The older edit set module (libs/edit_set.py, shadowed by the package of
 * the same name): its dumper's WPEdit element, the record it imports, the
 * fleshing out of missing fields from Wikipedia, and the rows its import
 * writes. The event loop that drives the import is in `LegacyImport`.
 */
module LegacyEditSet {
  import opened Wrappers
  import opened Strings
  import opened Models
  import opened Store
  import opened Xml
  import Settings
  import Dumper
  import P = EditSetParser
  import Training
  import LW = LegacyWikipedia

  // ---------------------------------------------------------------------
  // `EditSetDumper.generate_wp_edit`
  // ---------------------------------------------------------------------

  /** The previous block of the legacy dump holds minor, timestamp and text, like the current one. */
  function PreviousBlock(r: RevisionRow): Element
  {
    Node("previous", Dumper.CurrentBlock(r).children)
  }

  /**
   * The legacy WPEdit element: no EditDB and no ReviewInterface block, the
   * namespace name as the settings' table spells it, and isVandalism always
   * last, whatever the edit's status.
   */
  function WpEditTree(e: Edit, td: TrainingData, current: RevisionRow, previous: RevisionRow, namespace: string): Element
  {
    Node("WPEdit", [
      Leaf("EditType", Some("change")),
      Leaf("EditID", Dumper.Number(e.id)),
      Leaf("comment", Some(td.comment)),
      Leaf("user", Some(td.user)),
      Leaf("user_edit_count", Dumper.Number(td.userEditCount)),
      Leaf("user_distinct_pages", Dumper.Number(td.userDistinctPages)),
      Leaf("user_warns", Dumper.Number(td.userWarns)),
      Leaf("prev_user", td.prevUser),
      Leaf("user_reg_time", Dumper.Number(td.userRegTime)),
      Dumper.CommonBlock(td, namespace),
      Dumper.CurrentBlock(current),
      PreviousBlock(previous),
      Leaf("isVandalism", Some(Dumper.BoolText(e.classification == Some(Vandalism))))])
  }

  /** `generate_wp_edit(edit)` before rendering, over the stored tables. */
  function Generate(db: Db, e: Edit): Dumper.Generated
  {
    if e.id !in db.trainingData || (e.id, Current) !in db.revisions || (e.id, Previous) !in db.revisions then Dumper.NotBuilt
    else
      var td := db.trainingData[e.id];
      if td.pageNamespace !in Settings.IdToName() then Dumper.NamespaceUnknown(td.pageNamespace)
      else Dumper.Built(WpEditTree(e, td, db.revisions[(e.id, Current)], db.revisions[(e.id, Previous)],
                                   Settings.IdToName()[td.pageNamespace]))
  }

  /** What `generate_wp_edit` returns: `ET.tostring` of the element with the library's escaping. */
  function GenerateWpEdit(db: Db, e: Edit): Dumper.Dump
  {
    match Generate(db, e)
    case NotBuilt => Dumper.NoDump
    case Built(tree) => Dumper.Document(Serialize(tree, StandardEscape))
    case NamespaceUnknown(n) => Dumper.UnknownNamespace(n)
  }

  /**
   * Nothing is generated exactly when the TrainingData row or either
   * revision row is missing; otherwise a namespace id missing from the
   * settings' table raises, and every other edit is rendered.
   */
  lemma GenerateOutcome(db: Db, e: Edit)
    ensures GenerateWpEdit(db, e) == Dumper.NoDump <==>
              e.id !in db.trainingData || (e.id, Current) !in db.revisions || (e.id, Previous) !in db.revisions
    ensures GenerateWpEdit(db, e).UnknownNamespace? <==>
              && e.id in db.trainingData && (e.id, Current) in db.revisions && (e.id, Previous) in db.revisions
              && db.trainingData[e.id].pageNamespace !in Settings.IdToName()
  {
  }

  /** The children of the legacy WPEdit come in one fixed order, without EditDB or ReviewInterface. */
  lemma TopLevelOrder(e: Edit, td: TrainingData, current: RevisionRow, previous: RevisionRow, namespace: string)
    ensures Tags(WpEditTree(e, td, current, previous, namespace).children) ==
            ["EditType", "EditID", "comment", "user", "user_edit_count", "user_distinct_pages", "user_warns",
             "prev_user", "user_reg_time", "common", "current", "previous", "isVandalism"]
    ensures "EditDB" !in Tags(WpEditTree(e, td, current, previous, namespace).children)
    ensures "ReviewInterface" !in Tags(WpEditTree(e, td, current, previous, namespace).children)
  {
    var t := Tags(WpEditTree(e, td, current, previous, namespace).children);
    assert |t| == 13;
    assert t[0] != "EditDB" && t[1] != "EditDB" && t[12] != "EditDB";
  }

  /**
   * A built element names the namespace exactly as the table spells it, ends
   * with isVandalism saying whether the edit is classified as vandalism, and
   * writes minor, timestamp and text for both revisions.
   */
  lemma BuiltContents(db: Db, e: Edit)
    requires Generate(db, e).Built?
    ensures var w := Generate(db, e).tree;
      && |w.children| == 13
      && w.children[9].children[2] == Leaf("namespace", Some(Settings.IdToName()[db.trainingData[e.id].pageNamespace]))
      && w.children[12] == Leaf("isVandalism", Some(if e.classification == Some(Vandalism) then "true" else "false"))
      && w.children[10].children == [Leaf("minor", Some(Dumper.BoolText(db.revisions[(e.id, Current)].minor))),
                                     Leaf("timestamp", Dumper.Number(db.revisions[(e.id, Current)].timestamp)),
                                     Leaf("text", Some(db.revisions[(e.id, Current)].text))]
      && w.children[11].children == [Leaf("minor", Some(Dumper.BoolText(db.revisions[(e.id, Previous)].minor))),
                                     Leaf("timestamp", Dumper.Number(db.revisions[(e.id, Previous)].timestamp)),
                                     Leaf("text", Some(db.revisions[(e.id, Previous)].text))]
  {
  }

  // ---------------------------------------------------------------------
  // The record the legacy import works on
  // ---------------------------------------------------------------------

  /** A record attribute: the text as parsed, a time (a datetime, as epoch seconds), or a count looked up. */
  datatype Value = Text(text: Option<string>) | Seconds(seconds: int) | Count(count: int)

  function ValueOf(f: P.Field): Value
  {
    match f
    case Text(t) => Text(t)
    case Seconds(n) => Seconds(n)
  }

  /** An attribute read as a Python condition: a datetime is always true, a count when non-zero. */
  predicate Truthy(v: Value)
  {
    match v
    case Text(t) => P.Truthy(t)
    case Seconds(_) => true
    case Count(n) => n != 0
  }

  /** A `WpRevision` once it may be overwritten by fleshing out. */
  datatype Rev = Rev(timestamp: Value, text: Option<string>, minor: bool)

  function RevOf(r: P.Revision): Rev
  {
    Rev(ValueOf(r.timestamp), r.text, r.minor)
  }

  /** A `WpEdit`: the declared fields by name, the current revision, and the previous one if any. */
  datatype Record = Record(fields: map<string, Value>, current: Rev, previous: Option<Rev>)

  predicate WellFormed(r: Record)
  {
    P.RecordArguments <= r.fields.Keys
  }

  /**
   * The dictionary the legacy loop gathers: the leaf texts, and the
   * `current` and `previous` entries once their blocks have been converted.
   */
  datatype Gathered = Gathered(fields: P.Dict, current: Option<P.Revision>, previous: Option<P.Revision>)

  /** `if current_edit:` — a dictionary is true once it holds any entry. */
  predicate NonEmpty(g: Gathered)
  {
    g.fields != map[] || g.current.Some? || g.previous.Some?
  }

  /** The two revision entries the record type requires and `g` lacks. */
  function MissingRevisions(g: Gathered): set<string>
  {
    (if g.current.None? then {"current"} else {}) + (if g.previous.None? then {"previous"} else {})
  }

  /**
   * `WpEdit.from_xml(current_edit)`: the conversions of the leaf texts, then
   * the dataclass's keyword check, in which the two revision entries are
   * required arguments like the rest.
   */
  function FromXml(g: Gathered): (r: P.Conversion<Record>)
    ensures r.Converted? ==> WellFormed(r.value) && r.value.previous.Some?
  {
    match P.FromXml(P.Raw(g.fields, map[], map[]))
    case Converted(rec) =>
      if MissingRevisions(g) != {} then P.ArgumentsMissing(MissingRevisions(g))
      else P.Converted(Record(map k | k in rec.fields :: ValueOf(rec.fields[k]), RevOf(g.current.value), Some(RevOf(g.previous.value))))
    case KeyMissing(k) => P.KeyMissing(k)
    case NotAnInteger(k, t) => P.NotAnInteger(k, t)
    case ArgumentsMissing(ks) => P.ArgumentsMissing(ks + MissingRevisions(g))
    case ArgumentsUnexpected(ks) => P.ArgumentsUnexpected(ks)
  }

  /**
   * A gathered dictionary converts exactly when the shared conversion of its
   * leaves succeeds and both revision entries are there; each leaf keeps
   * what that conversion gives it.
   */
  lemma FromXmlConverts(g: Gathered)
    ensures FromXml(g).Converted? <==> P.FromXml(P.Raw(g.fields, map[], map[])).Converted? && g.current.Some? && g.previous.Some?
    ensures FromXml(g).Converted? ==>
              var leaves := P.FromXml(P.Raw(g.fields, map[], map[])).value.fields;
              && FromXml(g).value.fields.Keys == leaves.Keys
              && (forall k | k in leaves :: FromXml(g).value.fields[k] == ValueOf(leaves[k]))
              && FromXml(g).value.current == RevOf(g.current.value)
              && FromXml(g).value.previous == Some(RevOf(g.previous.value))
  {
  }

  /** Without its previous block a dictionary with every leaf still fails, naming `previous`. */
  lemma MissingPreviousRaises(g: Gathered)
    requires P.FromXml(P.Raw(g.fields, map[], map[])).Converted? && g.current.Some? && g.previous.None?
    ensures FromXml(g) == P.ArgumentsMissing({"previous"})
  {
  }

  // ---------------------------------------------------------------------
  // `_flesh_out_edit`
  // ---------------------------------------------------------------------

  /**
   * The Wikipedia lookups fleshing out uses, as functions of the record
   * attributes passed to them: page creation metadata (title, namespace),
   * the API answer `get_page_revisions` shapes (title, edit id), the user's
   * registration time, the user's warnings and edits before a time, and the
   * page's recent reverts and edits (page, namespace, time).
   */
  datatype FleshSources = FleshSources(
    creation: (Value, Value) -> Option<(int, string)>,
    pageRevisions: (Value, Value) -> LW.Shaped,
    registration: Value -> Option<int>,
    warnings: (Value, Value) -> Option<int>,
    editCount: (Value, Value) -> Option<int>,
    recentReverts: ((Value, Value, Value)) -> Option<int>,
    recentEdits: ((Value, Value, Value)) -> Option<int>)

  /**
   * A fleshed-out record, None (`Rejected`), or an exception: from shaping
   * the revisions, or from a page query whose arguments the client cannot
   * prepare.
   */
  datatype Fleshed = Fleshed(record: Record) | Rejected | FleshRaised

  /** A count lookup read as a Python condition. */
  predicate Found(n: Option<int>)
  {
    n.Some? && n.value != 0
  }

  /** The attributes fleshing out may overwrite. */
  const Fleshable: set<string> := {
    "page_made_time", "creator", "prev_user", "user_reg_time", "user_warns", "user_edit_count",
    "num_recent_reversions", "num_recent_edits"}

  /** The page lookups of lines 125-127 and 134-136 as written: the user's name where the page title belongs. */
  function RecentArgumentsAsWritten(r: Record): (Value, Value, Value)
    requires WellFormed(r)
  {
    (r.fields["user"], r.fields["namespace"], r.current.timestamp)
  }

  /** The page lookups as their signature asks: title, namespace, and time of the current revision. */
  function RecentArguments(r: Record): (Value, Value, Value)
    requires WellFormed(r)
  {
    (r.fields["title"], r.fields["namespace"], r.current.timestamp)
  }

  /** As written, the page counts are those of the page named after the user, unless user and title coincide. */
  lemma RecentArgumentsUseUser(r: Record)
    requires WellFormed(r)
    ensures RecentArgumentsAsWritten(r) == RecentArguments(r) <==> r.fields["user"] == r.fields["title"]
    ensures RecentArgumentsAsWritten(r).0 == r.fields["user"] && RecentArguments(r).0 == r.fields["title"]
  {
  }

  /**
   * The page queries (creation metadata, recent reverts, recent edits) look
   * the lower-cased namespace up in the settings' table and clean the title
   * with a regular expression before querying, so they raise on a namespace
   * the table does not know and on a title that is None.
   */
  predicate PageQueryRaises(title: Value, namespace: Value)
  {
    || !(namespace.Text? && namespace.text.Some? && Lower(namespace.text.value) in Settings.NameToId())
    || !(title.Text? && title.text.Some?)
  }

  /** The record's page: its title and namespace attributes. */
  function PageOf(r: Record): (Value, Value)
    requires WellFormed(r)
  {
    (r.fields["title"], r.fields["namespace"])
  }

  /** The creation fields need a lookup when either is falsy. */
  predicate NeedsCreation(r: Record)
    requires WellFormed(r)
  {
    !Truthy(r.fields["page_made_time"]) || !Truthy(r.fields["creator"])
  }

  /** The current revision needs a lookup when its text or timestamp is falsy. */
  predicate NeedsRevisions(r: Record)
  {
    !P.Truthy(r.current.text) || !Truthy(r.current.timestamp)
  }

  function WithCreation(r: Record, s: FleshSources): (f: Fleshed)
    requires WellFormed(r)
    ensures f.Fleshed? ==> f.record.fields.Keys == r.fields.Keys
  {
    if !NeedsCreation(r) then Fleshed(r)
    else if PageQueryRaises(r.fields["title"], r.fields["namespace"]) then FleshRaised
    else
      var meta := s.creation(r.fields["title"], r.fields["namespace"]);
      if meta.None? then Rejected
      else Fleshed(r.(fields := r.fields["page_made_time" := Seconds(meta.value.0)]["creator" := Text(Some(meta.value.1))]))
  }

  function RevFromWikipedia(w: LW.Revision): Rev
  {
    Rev(Seconds(w.timestamp), Some(w.text), w.minor)
  }

  function WithRevisions(r: Record, s: FleshSources): (f: Fleshed)
    requires WellFormed(r)
    ensures f.Fleshed? ==> f.record.fields.Keys == r.fields.Keys
  {
    if !NeedsRevisions(r) then Fleshed(r)
    else
      var shaped := s.pageRevisions(r.fields["title"], r.fields["edit_id"]);
      if !shaped.Shaped? then FleshRaised
      else if shaped.current.None? then Rejected
      else
        var withCurrent := r.(current := RevFromWikipedia(shaped.current.value));
        if shaped.previous.None? then Fleshed(withCurrent.(previous := None))
        // `wp_edit.previous.timestamp = ...` on a record without a previous revision
        else if r.previous.None? then FleshRaised
        else Fleshed(withCurrent.(previous := Some(RevFromWikipedia(shaped.previous.value)),
                                  fields := r.fields["prev_user" := Text(Some(shaped.previous.value.user))]))
  }

  function WithRegistration(r: Record, s: FleshSources): (f: Fleshed)
    requires WellFormed(r)
    ensures f.Fleshed? ==> f.record.fields.Keys == r.fields.Keys
  {
    if Truthy(r.fields["user_reg_time"]) then Fleshed(r)
    else
      var t := s.registration(r.fields["user"]);
      if t.None? then Rejected else Fleshed(r.(fields := r.fields["user_reg_time" := Seconds(t.value)]))
  }

  /** One count step: keep a truthy attribute, else store a found count, else reject. */
  function WithCount(r: Record, key: string, n: Option<int>): (f: Fleshed)
    requires WellFormed(r) && key in r.fields
    ensures f.Fleshed? ==> f.record.fields.Keys == r.fields.Keys
  {
    if Truthy(r.fields[key]) then Fleshed(r)
    else if Found(n) then Fleshed(r.(fields := r.fields[key := Count(n.value)]))
    else Rejected
  }

  /** A page count step: the query raises on arguments it cannot prepare, and is otherwise a count step. */
  function WithPageCount(r: Record, key: string, n: Option<int>): (f: Fleshed)
    requires WellFormed(r) && key in r.fields
    ensures f.FleshRaised? <==> !Truthy(r.fields[key]) && PageQueryRaises(r.fields["title"], r.fields["namespace"])
    ensures !f.FleshRaised? ==> f == WithCount(r, key, n)
  {
    if !Truthy(r.fields[key]) && PageQueryRaises(r.fields["title"], r.fields["namespace"]) then FleshRaised
    else WithCount(r, key, n)
  }

  function Then(f: Fleshed, step: Record -> Fleshed): Fleshed
  {
    if f.Fleshed? then step(f.record) else f
  }

  /**
   * `_flesh_out_edit(wp_edit)`: creation metadata, revisions, registration
   * time, warnings, edit count, recent reverts and recent edits, each looked
   * up only when falsy and each rejecting the record when the lookup is.
   */
  function FleshOut(r: Record, s: FleshSources): (f: Fleshed)
    requires WellFormed(r)
    ensures f.Fleshed? ==> f.record.fields.Keys == r.fields.Keys
  {
    FleshFrom(0, r, s)
  }

  /** The seven steps of `_flesh_out_edit`, in their order. */
  function Step(i: nat, r: Record, s: FleshSources): (f: Fleshed)
    requires i < 7 && WellFormed(r)
    ensures f.Fleshed? ==> f.record.fields.Keys == r.fields.Keys
  {
    if i == 0 then WithCreation(r, s)
    else if i == 1 then WithRevisions(r, s)
    else if i == 2 then WithRegistration(r, s)
    else if i == 3 then WithCount(r, "user_warns", s.warnings(r.fields["user"], r.current.timestamp))
    else if i == 4 then WithCount(r, "user_edit_count", s.editCount(r.fields["user"], r.current.timestamp))
    else if i == 5 then WithPageCount(r, "num_recent_reversions", s.recentReverts(RecentArguments(r)))
    else WithPageCount(r, "num_recent_edits", s.recentEdits(RecentArguments(r)))
  }

  /** The steps from the `i`-th on, each run on the record the one before left. */
  function FleshFrom(i: nat, r: Record, s: FleshSources): (f: Fleshed)
    requires i <= 7 && WellFormed(r)
    ensures f.Fleshed? ==> f.record.fields.Keys == r.fields.Keys
    decreases 7 - i
  {
    if i == 7 then Fleshed(r)
    else match Step(i, r, s)
      case Fleshed(next) => FleshFrom(i + 1, next, s)
      case other => other
  }

  /** Every attribute fleshing out would look up is already truthy. */
  predicate Complete(r: Record)
    requires WellFormed(r)
  {
    && !NeedsCreation(r) && !NeedsRevisions(r)
    && Truthy(r.fields["user_reg_time"]) && Truthy(r.fields["user_warns"]) && Truthy(r.fields["user_edit_count"])
    && Truthy(r.fields["num_recent_reversions"]) && Truthy(r.fields["num_recent_edits"])
  }

  /** A record with nothing to look up comes back as it is. */
  lemma CompleteUntouched(r: Record, s: FleshSources)
    requires WellFormed(r) && Complete(r)
    ensures FleshOut(r, s) == Fleshed(r)
  {
    CompleteFrom(0, r, s);
  }

  lemma {:induction false} CompleteFrom(i: nat, r: Record, s: FleshSources)
    requires i <= 7 && WellFormed(r) && Complete(r)
    ensures FleshFrom(i, r, s) == Fleshed(r)
    decreases 7 - i
  {
    if i < 7 {
      assert Step(i, r, s) == Fleshed(r);
      CompleteFrom(i + 1, r, s);
    }
  }

  /**
   * Only a step that needs a lookup can reject or raise. The creation step
   * raises on page arguments the client cannot prepare, and otherwise
   * rejects when its lookup finds nothing; an exception comes only from
   * shaping the revisions or from such page arguments.
   */
  lemma FleshOutFailures(r: Record, s: FleshSources)
    requires WellFormed(r)
    ensures !FleshOut(r, s).Fleshed? ==> !Complete(r)
    ensures NeedsCreation(r) && PageQueryRaises(r.fields["title"], r.fields["namespace"]) ==> FleshOut(r, s) == FleshRaised
    ensures (NeedsCreation(r) && !PageQueryRaises(r.fields["title"], r.fields["namespace"]) &&
             s.creation(r.fields["title"], r.fields["namespace"]).None?) ==> FleshOut(r, s) == Rejected
    ensures FleshOut(r, s).FleshRaised? ==> NeedsRevisions(r) || PageQueryRaises(r.fields["title"], r.fields["namespace"])
  {
    if WithCreation(r, s).Fleshed? {
      CreationStep(r, s);
      RevisionsRaise(WithCreation(r, s).record, s);
    }
  }

  /** After the creation step, an exception comes from the revisions or from the page arguments. */
  lemma RevisionsRaise(r: Record, s: FleshSources)
    requires WellFormed(r)
    ensures FleshFrom(1, r, s).FleshRaised? ==> NeedsRevisions(r) || PageQueryRaises(r.fields["title"], r.fields["namespace"])
  {
    if WithRevisions(r, s).Fleshed? && !NeedsRevisions(r) {
      var r3 := WithRevisions(r, s).record;
      assert r3 == r;
      if WithRegistration(r3, s).Fleshed? {
        RegistrationStep(r3, s);
        var r4 := WithRegistration(r3, s).record;
        var n := s.warnings(r4.fields["user"], r4.current.timestamp);
        if WithCount(r4, "user_warns", n).Fleshed? {
          CountStep(r4, "user_warns", n);
          RecentRaise(WithCount(r4, "user_warns", n).record, s);
        }
      }
    }
  }

  /** From the user's edit count on, an exception comes only from the page arguments. */
  lemma RecentRaise(r: Record, s: FleshSources)
    requires WellFormed(r)
    ensures FleshFrom(4, r, s).FleshRaised? ==> PageQueryRaises(r.fields["title"], r.fields["namespace"])
  {
    var n := s.editCount(r.fields["user"], r.current.timestamp);
    if WithCount(r, "user_edit_count", n).Fleshed? {
      CountStep(r, "user_edit_count", n);
      var r5 := WithCount(r, "user_edit_count", n).record;
      var n6 := s.recentReverts(RecentArguments(r5));
      if WithPageCount(r5, "num_recent_reversions", n6).Fleshed? {
        CountStep(r5, "num_recent_reversions", n6);
      }
    }
  }

  /** A fleshed-out record has the same attributes, and those fleshing out never writes are unchanged. */
  lemma FleshOutFrame(r: Record, s: FleshSources)
    requires WellFormed(r) && FleshOut(r, s).Fleshed?
    ensures var o := FleshOut(r, s).record;
      && o.fields.Keys == r.fields.Keys
      && (forall k | k in r.fields && k !in Fleshable :: o.fields[k] == r.fields[k])
  {
    var r1, r2, r3, r4, r5, r6 := Chain(r, s);
  }

  /** A truthy registration time, warning count or edit count is kept. */
  lemma FleshOutKeepsUser(r: Record, s: FleshSources)
    requires WellFormed(r) && FleshOut(r, s).Fleshed?
    ensures var o := FleshOut(r, s).record;
      && (Truthy(r.fields["user_reg_time"]) ==> o.fields["user_reg_time"] == r.fields["user_reg_time"])
      && (Truthy(r.fields["user_warns"]) ==> o.fields["user_warns"] == r.fields["user_warns"])
      && (Truthy(r.fields["user_edit_count"]) ==> o.fields["user_edit_count"] == r.fields["user_edit_count"])
  {
    var r1, r2, r3, r4, r5, r6 := Chain(r, s);
    KeepsUserOnChain(r, s, r1, r2, r3, r4, r5, r6, FleshOut(r, s).record);
  }

  lemma KeepsUserOnChain(r: Record, s: FleshSources, r1: Record, r2: Record, r3: Record, r4: Record, r5: Record, r6: Record, o: Record)
    requires Chained(r, s, r1, r2, r3, r4, r5, r6, o)
    ensures Truthy(r.fields["user_reg_time"]) ==> o.fields["user_reg_time"] == r.fields["user_reg_time"]
    ensures Truthy(r.fields["user_warns"]) ==> o.fields["user_warns"] == r.fields["user_warns"]
    ensures Truthy(r.fields["user_edit_count"]) ==> o.fields["user_edit_count"] == r.fields["user_edit_count"]
  {
  }

  /** Truthy recent revert and edit counts are kept. */
  lemma FleshOutKeepsRecent(r: Record, s: FleshSources)
    requires WellFormed(r) && FleshOut(r, s).Fleshed?
    ensures var o := FleshOut(r, s).record;
      && (Truthy(r.fields["num_recent_reversions"]) ==> o.fields["num_recent_reversions"] == r.fields["num_recent_reversions"])
      && (Truthy(r.fields["num_recent_edits"]) ==> o.fields["num_recent_edits"] == r.fields["num_recent_edits"])
  {
    var r1, r2, r3, r4, r5, r6 := Chain(r, s);
    KeepsRecentOnChain(r, s, r1, r2, r3, r4, r5, r6, FleshOut(r, s).record);
  }

  lemma KeepsRecentOnChain(r: Record, s: FleshSources, r1: Record, r2: Record, r3: Record, r4: Record, r5: Record, r6: Record, o: Record)
    requires Chained(r, s, r1, r2, r3, r4, r5, r6, o)
    ensures Truthy(r.fields["num_recent_reversions"]) ==> o.fields["num_recent_reversions"] == r.fields["num_recent_reversions"]
    ensures Truthy(r.fields["num_recent_edits"]) ==> o.fields["num_recent_edits"] == r.fields["num_recent_edits"]
  {
    assert r5.fields["num_recent_reversions"] == r.fields["num_recent_reversions"] && r6.fields["num_recent_edits"] == r.fields["num_recent_edits"];
  }

  /** The creation fields change only when one of them is falsy, the revisions and prev_user only when the current revision has no text or no timestamp. */
  lemma FleshOutKeepsPage(r: Record, s: FleshSources)
    requires WellFormed(r) && FleshOut(r, s).Fleshed?
    ensures var o := FleshOut(r, s).record;
      && (!NeedsCreation(r) ==> o.fields["page_made_time"] == r.fields["page_made_time"] && o.fields["creator"] == r.fields["creator"])
      && (!NeedsRevisions(r) ==> o.current == r.current && o.previous == r.previous && o.fields["prev_user"] == r.fields["prev_user"])
  {
    var r1, r2, r3, r4, r5, r6 := Chain(r, s);
    KeepsPageOnChain(r, s, r1, r2, r3, r4, r5, r6, FleshOut(r, s).record);
  }

  lemma KeepsPageOnChain(r: Record, s: FleshSources, r1: Record, r2: Record, r3: Record, r4: Record, r5: Record, r6: Record, o: Record)
    requires Chained(r, s, r1, r2, r3, r4, r5, r6, o)
    ensures !NeedsCreation(r) ==> o.fields["page_made_time"] == r.fields["page_made_time"] && o.fields["creator"] == r.fields["creator"]
    ensures !NeedsRevisions(r) ==> o.current == r.current && o.previous == r.previous && o.fields["prev_user"] == r.fields["prev_user"]
  {
    assert r1.current == r.current && r1.previous == r.previous && r1.fields["prev_user"] == r.fields["prev_user"];
    assert o.current == r2.current && o.previous == r2.previous;
  }

  /** Falsy creation fields come from the creation metadata of the title and namespace. */
  lemma FleshOutCreation(r: Record, s: FleshSources)
    requires WellFormed(r) && FleshOut(r, s).Fleshed?
    ensures var o := FleshOut(r, s).record;
      NeedsCreation(r) ==>
        var meta := s.creation(r.fields["title"], r.fields["namespace"]);
        meta.Some? && o.fields["page_made_time"] == Seconds(meta.value.0) && o.fields["creator"] == Text(Some(meta.value.1))
  {
    var r1, r2, r3, r4, r5, r6 := Chain(r, s);
    CreationOnChain(r, s, r1, r2, r3, r4, r5, r6, FleshOut(r, s).record);
  }

  lemma CreationOnChain(r: Record, s: FleshSources, r1: Record, r2: Record, r3: Record, r4: Record, r5: Record, r6: Record, o: Record)
    requires Chained(r, s, r1, r2, r3, r4, r5, r6, o)
    ensures NeedsCreation(r) ==>
        var meta := s.creation(r.fields["title"], r.fields["namespace"]);
        meta.Some? && o.fields["page_made_time"] == Seconds(meta.value.0) && o.fields["creator"] == Text(Some(meta.value.1))
  {
    assert o.fields["page_made_time"] == r1.fields["page_made_time"] && o.fields["creator"] == r1.fields["creator"];
  }

  /** A current revision without text or timestamp is replaced by the newest shown revision of the page, and the previous one by the next shown revision, or by none. */
  lemma FleshOutRevisions(r: Record, s: FleshSources)
    requires WellFormed(r) && FleshOut(r, s).Fleshed?
    ensures var o := FleshOut(r, s).record;
      NeedsRevisions(r) ==>
        var shaped := s.pageRevisions(r.fields["title"], r.fields["edit_id"]);
        && shaped.Shaped? && shaped.current.Some?
        && o.current == RevFromWikipedia(shaped.current.value)
        && o.previous == (if shaped.previous.Some? then Some(RevFromWikipedia(shaped.previous.value)) else None)
  {
    var r1, r2, r3, r4, r5, r6 := Chain(r, s);
    RevisionsOnChain(r, s, r1, r2, r3, r4, r5, r6, FleshOut(r, s).record);
  }

  lemma RevisionsOnChain(r: Record, s: FleshSources, r1: Record, r2: Record, r3: Record, r4: Record, r5: Record, r6: Record, o: Record)
    requires Chained(r, s, r1, r2, r3, r4, r5, r6, o)
    ensures NeedsRevisions(r) ==>
        var shaped := s.pageRevisions(r.fields["title"], r.fields["edit_id"]);
        && shaped.Shaped? && shaped.current.Some?
        && o.current == RevFromWikipedia(shaped.current.value)
        && o.previous == (if shaped.previous.Some? then Some(RevFromWikipedia(shaped.previous.value)) else None)
  {
    assert r1.current == r.current && r1.fields["title"] == r.fields["title"] && r1.fields["edit_id"] == r.fields["edit_id"];
    assert o.current == r2.current && o.previous == r2.previous;
  }

  /** A falsy registration time comes from the user's registration. */
  lemma FleshOutRegistration(r: Record, s: FleshSources)
    requires WellFormed(r) && FleshOut(r, s).Fleshed?
    ensures var o := FleshOut(r, s).record;
      !Truthy(r.fields["user_reg_time"]) ==>
        s.registration(r.fields["user"]).Some? && o.fields["user_reg_time"] == Seconds(s.registration(r.fields["user"]).value)
  {
    var r1, r2, r3, r4, r5, r6 := Chain(r, s);
    RegistrationOnChain(r, s, r1, r2, r3, r4, r5, r6, FleshOut(r, s).record);
  }

  lemma RegistrationOnChain(r: Record, s: FleshSources, r1: Record, r2: Record, r3: Record, r4: Record, r5: Record, r6: Record, o: Record)
    requires Chained(r, s, r1, r2, r3, r4, r5, r6, o)
    ensures !Truthy(r.fields["user_reg_time"]) ==>
        s.registration(r.fields["user"]).Some? && o.fields["user_reg_time"] == Seconds(s.registration(r.fields["user"]).value)
  {
    assert r2.fields["user"] == r.fields["user"] && r2.fields["user_reg_time"] == r.fields["user_reg_time"];
    assert o.fields["user_reg_time"] == r3.fields["user_reg_time"];
  }

  /** Falsy warning and edit counts are the user's non-zero counts before the record's final current revision. */
  lemma FleshOutUserCounts(r: Record, s: FleshSources)
    requires WellFormed(r) && FleshOut(r, s).Fleshed?
    ensures var o := FleshOut(r, s).record;
      && (!Truthy(r.fields["user_warns"]) ==>
            Found(s.warnings(r.fields["user"], o.current.timestamp)) &&
            o.fields["user_warns"] == Count(s.warnings(r.fields["user"], o.current.timestamp).value))
      && (!Truthy(r.fields["user_edit_count"]) ==>
            Found(s.editCount(r.fields["user"], o.current.timestamp)) &&
            o.fields["user_edit_count"] == Count(s.editCount(r.fields["user"], o.current.timestamp).value))
  {
    var r1, r2, r3, r4, r5, r6 := Chain(r, s);
    UserCountsOnChain(r, s, r1, r2, r3, r4, r5, r6, FleshOut(r, s).record);
  }

  lemma UserCountsOnChain(r: Record, s: FleshSources, r1: Record, r2: Record, r3: Record, r4: Record, r5: Record, r6: Record, o: Record)
    requires Chained(r, s, r1, r2, r3, r4, r5, r6, o)
    ensures && (!Truthy(r.fields["user_warns"]) ==>
              Found(s.warnings(r.fields["user"], o.current.timestamp)) &&
              o.fields["user_warns"] == Count(s.warnings(r.fields["user"], o.current.timestamp).value))
            && (!Truthy(r.fields["user_edit_count"]) ==>
              Found(s.editCount(r.fields["user"], o.current.timestamp)) &&
              o.fields["user_edit_count"] == Count(s.editCount(r.fields["user"], o.current.timestamp).value))
  {
    assert r3.fields["user"] == r.fields["user"] && r4.fields["user"] == r.fields["user"];
    assert r6.current == r3.current && o.current == r3.current;
  }

  /** Falsy recent revert and edit counts are the page's non-zero counts for the record's final title, namespace and time. */
  lemma FleshOutRecentLookups(r: Record, s: FleshSources)
    requires WellFormed(r) && FleshOut(r, s).Fleshed?
    ensures var o := FleshOut(r, s).record;
      && (!Truthy(r.fields["num_recent_reversions"]) ==>
            Found(s.recentReverts(RecentArguments(o))) && o.fields["num_recent_reversions"] == Count(s.recentReverts(RecentArguments(o)).value))
      && (!Truthy(r.fields["num_recent_edits"]) ==>
            Found(s.recentEdits(RecentArguments(o))) && o.fields["num_recent_edits"] == Count(s.recentEdits(RecentArguments(o)).value))
  {
    var r1, r2, r3, r4, r5, r6 := Chain(r, s);
    RecentLookupsOnChain(r, s, r1, r2, r3, r4, r5, r6, FleshOut(r, s).record);
  }

  lemma RecentLookupsOnChain(r: Record, s: FleshSources, r1: Record, r2: Record, r3: Record, r4: Record, r5: Record, r6: Record, o: Record)
    requires Chained(r, s, r1, r2, r3, r4, r5, r6, o)
    ensures !Truthy(r.fields["num_recent_reversions"]) ==>
              Found(s.recentReverts(RecentArguments(o))) && o.fields["num_recent_reversions"] == Count(s.recentReverts(RecentArguments(o)).value)
    ensures !Truthy(r.fields["num_recent_edits"]) ==>
              Found(s.recentEdits(RecentArguments(o))) && o.fields["num_recent_edits"] == Count(s.recentEdits(RecentArguments(o)).value)
  {
    assert RecentArguments(r5) == RecentArguments(o);
  }

  /** `r1` to `r6` are the records a successful `FleshOut` of `r` passes through, and `o` the one it ends with: each left by its step from the one before. */
  predicate Chained(r: Record, s: FleshSources, r1: Record, r2: Record, r3: Record, r4: Record, r5: Record, r6: Record, o: Record)
  {
    && WellFormed(r) && WellFormed(r1) && WellFormed(r2) && WellFormed(r3) && WellFormed(r4) && WellFormed(r5) && WellFormed(r6)
    && CreationDone(r, s, r1) && RevisionsDone(r1, s, r2) && RegistrationDone(r2, s, r3)
    && CountDone(r3, "user_warns", s.warnings(r3.fields["user"], r3.current.timestamp), r4)
    && CountDone(r4, "user_edit_count", s.editCount(r4.fields["user"], r4.current.timestamp), r5)
    && CountDone(r5, "num_recent_reversions", s.recentReverts(RecentArguments(r5)), r6)
    && CountDone(r6, "num_recent_edits", s.recentEdits(RecentArguments(r6)), o)
  }

  /** The intermediate records of a `FleshOut` that succeeds. */
  lemma Chain(r: Record, s: FleshSources) returns (r1: Record, r2: Record, r3: Record, r4: Record, r5: Record, r6: Record)
    requires WellFormed(r) && FleshOut(r, s).Fleshed?
    ensures Chained(r, s, r1, r2, r3, r4, r5, r6, FleshOut(r, s).record)
  {
    r1, r2, r3 := ChainHead(r, s);
    r4, r5, r6 := ChainTail(r3, s);
  }

  /** The first three steps of a `FleshOut` that succeeds. */
  lemma ChainHead(r: Record, s: FleshSources) returns (r1: Record, r2: Record, r3: Record)
    requires WellFormed(r) && FleshOut(r, s).Fleshed?
    ensures WellFormed(r1) && WellFormed(r2) && WellFormed(r3)
    ensures CreationDone(r, s, r1) && RevisionsDone(r1, s, r2) && RegistrationDone(r2, s, r3)
    ensures FleshOut(r, s) == FleshFrom(3, r3, s)
  {
    r1 := StepOk(0, r, s);
    CreationStep(r, s);
    r2 := StepOk(1, r1, s);
    RevisionsStep(r1, s);
    r3 := StepOk(2, r2, s);
    RegistrationStep(r2, s);
  }

  /** The four count steps, from the fourth on, of a `FleshOut` that succeeds. */
  lemma ChainTail(r3: Record, s: FleshSources) returns (r4: Record, r5: Record, r6: Record)
    requires WellFormed(r3) && FleshFrom(3, r3, s).Fleshed?
    ensures WellFormed(r4) && WellFormed(r5) && WellFormed(r6)
    ensures CountDone(r3, "user_warns", s.warnings(r3.fields["user"], r3.current.timestamp), r4)
    ensures CountDone(r4, "user_edit_count", s.editCount(r4.fields["user"], r4.current.timestamp), r5)
    ensures CountDone(r5, "num_recent_reversions", s.recentReverts(RecentArguments(r5)), r6)
    ensures CountDone(r6, "num_recent_edits", s.recentEdits(RecentArguments(r6)), FleshFrom(3, r3, s).record)
  {
    r4 := StepOk(3, r3, s);
    CountStep(r3, "user_warns", s.warnings(r3.fields["user"], r3.current.timestamp));
    r5 := StepOk(4, r4, s);
    CountStep(r4, "user_edit_count", s.editCount(r4.fields["user"], r4.current.timestamp));
    r6 := StepOk(5, r5, s);
    CountStep(r5, "num_recent_reversions", s.recentReverts(RecentArguments(r5)));
    var r7 := StepOk(6, r6, s);
    CountStep(r6, "num_recent_edits", s.recentEdits(RecentArguments(r6)));
    assert FleshFrom(7, r7, s) == Fleshed(r7);
  }

  /** When the steps from the `i`-th on succeed, the `i`-th does, and the rest run on what it left. */
  lemma StepOk(i: nat, r: Record, s: FleshSources) returns (next: Record)
    requires i < 7 && WellFormed(r) && FleshFrom(i, r, s).Fleshed?
    ensures WellFormed(next) && Step(i, r, s) == Fleshed(next)
    ensures FleshFrom(i, r, s) == FleshFrom(i + 1, next, s)
  {
    next := Step(i, r, s).record;
  }

  /** The attribute a step leaves: the old one when truthy, else what was found. */
  function KeptOr(v: Value, found: Value): Value
  {
    if Truthy(v) then v else found
  }

  function SecondsOf(t: Option<int>): Value
  {
    if t.Some? then Seconds(t.value) else Text(None)
  }

  function CountOf(n: Option<int>): Value
  {
    if n.Some? then Count(n.value) else Count(0)
  }

  /** `o` is what a successful creation step leaves of `r`. */
  predicate CreationDone(r: Record, s: FleshSources, o: Record)
    requires WellFormed(r)
  {
    var meta := s.creation(r.fields["title"], r.fields["namespace"]);
    && (NeedsCreation(r) ==> meta.Some? && !PageQueryRaises(r.fields["title"], r.fields["namespace"]))
    && o == if !NeedsCreation(r) then r
            else r.(fields := r.fields["page_made_time" := Seconds(meta.value.0)]["creator" := Text(Some(meta.value.1))])
  }

  /** `o` is what a successful revisions step leaves of `r`. */
  predicate RevisionsDone(r: Record, s: FleshSources, o: Record)
    requires WellFormed(r)
  {
    var shaped := s.pageRevisions(r.fields["title"], r.fields["edit_id"]);
    && (NeedsRevisions(r) ==> shaped.Shaped? && shaped.current.Some?)
    && o == if !NeedsRevisions(r) then r
            else if shaped.previous.Some? then
              Record(r.fields["prev_user" := Text(Some(shaped.previous.value.user))],
                     RevFromWikipedia(shaped.current.value), Some(RevFromWikipedia(shaped.previous.value)))
            else Record(r.fields, RevFromWikipedia(shaped.current.value), None)
  }

  /** `o` is what a successful registration step leaves of `r`. */
  predicate RegistrationDone(r: Record, s: FleshSources, o: Record)
    requires WellFormed(r)
  {
    && (!Truthy(r.fields["user_reg_time"]) ==> s.registration(r.fields["user"]).Some?)
    && o == r.(fields := r.fields["user_reg_time" := KeptOr(r.fields["user_reg_time"], SecondsOf(s.registration(r.fields["user"])))])
  }

  /** `o` is what a successful count step with lookup answer `n` leaves of `r`. */
  predicate CountDone(r: Record, key: string, n: Option<int>, o: Record)
    requires key in r.fields
  {
    && (!Truthy(r.fields[key]) ==> Found(n))
    && o == r.(fields := r.fields[key := KeptOr(r.fields[key], CountOf(n))])
  }

  lemma CreationStep(r: Record, s: FleshSources)
    requires WellFormed(r) && WithCreation(r, s).Fleshed?
    ensures CreationDone(r, s, WithCreation(r, s).record)
  {
  }

  lemma RevisionsStep(r: Record, s: FleshSources)
    requires WellFormed(r) && WithRevisions(r, s).Fleshed?
    ensures RevisionsDone(r, s, WithRevisions(r, s).record)
  {
  }

  lemma RegistrationStep(r: Record, s: FleshSources)
    requires WellFormed(r) && WithRegistration(r, s).Fleshed?
    ensures RegistrationDone(r, s, WithRegistration(r, s).record)
  {
  }

  lemma CountStep(r: Record, key: string, n: Option<int>)
    requires WellFormed(r) && key in r.fields && WithCount(r, key, n).Fleshed?
    ensures CountDone(r, key, n, WithCount(r, key, n).record)
  {
  }

  /** `_flesh_out_edit`, overwriting the record's attributes one step after another. */
  method FleshOutEdit(wpEdit: Record, s: FleshSources) returns (out: Fleshed)
    requires WellFormed(wpEdit)
    ensures out == FleshOut(wpEdit, s)
  {
    out := FillCreation(wpEdit, s);
    if !out.Fleshed? {
      return;
    }
    out := FillRevisions(out.record, s);
    if !out.Fleshed? {
      return;
    }
    out := FillRegistration(out.record, s);
    if !out.Fleshed? {
      return;
    }
    var r := out.record;
    out := FillCount(r, "user_warns", s.warnings(r.fields["user"], r.current.timestamp));
    if !out.Fleshed? {
      return;
    }
    r := out.record;
    out := FillCount(r, "user_edit_count", s.editCount(r.fields["user"], r.current.timestamp));
    if !out.Fleshed? {
      return;
    }
    r := out.record;
    out := FillPageCount(r, "num_recent_reversions", s.recentReverts((r.fields["title"], r.fields["namespace"], r.current.timestamp)));
    if !out.Fleshed? {
      return;
    }
    r := out.record;
    out := FillPageCount(r, "num_recent_edits", s.recentEdits((r.fields["title"], r.fields["namespace"], r.current.timestamp)));
  }

  method FillCreation(wpEdit: Record, s: FleshSources) returns (out: Fleshed)
    requires WellFormed(wpEdit)
    ensures out == WithCreation(wpEdit, s)
  {
    var r := wpEdit;
    if !Truthy(r.fields["page_made_time"]) || !Truthy(r.fields["creator"]) {
      if PageQueryRaises(r.fields["title"], r.fields["namespace"]) {
        return FleshRaised;
      }
      var meta := s.creation(r.fields["title"], r.fields["namespace"]);
      if meta.None? {
        return Rejected;
      }
      r := r.(fields := r.fields["page_made_time" := Seconds(meta.value.0)]);
      r := r.(fields := r.fields["creator" := Text(Some(meta.value.1))]);
    }
    return Fleshed(r);
  }

  method FillRevisions(wpEdit: Record, s: FleshSources) returns (out: Fleshed)
    requires WellFormed(wpEdit)
    ensures out == WithRevisions(wpEdit, s)
  {
    var r := wpEdit;
    if !P.Truthy(r.current.text) || !Truthy(r.current.timestamp) {
      var shaped := s.pageRevisions(r.fields["title"], r.fields["edit_id"]);
      if !shaped.Shaped? {
        return FleshRaised;
      }
      if shaped.current.None? {
        return Rejected;
      }
      var c := shaped.current.value;
      r := r.(current := Rev(Seconds(c.timestamp), Some(c.text), c.minor));
      if shaped.previous.Some? {
        if r.previous.None? {
          return FleshRaised;
        }
        var p := shaped.previous.value;
        r := r.(previous := Some(Rev(Seconds(p.timestamp), Some(p.text), p.minor)));
        r := r.(fields := r.fields["prev_user" := Text(Some(p.user))]);
      } else {
        r := r.(previous := None);
      }
    }
    return Fleshed(r);
  }

  method FillRegistration(wpEdit: Record, s: FleshSources) returns (out: Fleshed)
    requires WellFormed(wpEdit)
    ensures out == WithRegistration(wpEdit, s)
  {
    var r := wpEdit;
    if !Truthy(r.fields["user_reg_time"]) {
      var t := s.registration(r.fields["user"]);
      if t.None? {
        return Rejected;
      }
      r := r.(fields := r.fields["user_reg_time" := Seconds(t.value)]);
    }
    return Fleshed(r);
  }

  method FillCount(wpEdit: Record, key: string, n: Option<int>) returns (out: Fleshed)
    requires WellFormed(wpEdit) && key in wpEdit.fields
    ensures out == WithCount(wpEdit, key, n)
  {
    var r := wpEdit;
    if !Truthy(r.fields[key]) {
      if !Found(n) {
        return Rejected;
      }
      r := r.(fields := r.fields[key := Count(n.value)]);
    }
    return Fleshed(r);
  }

  method FillPageCount(wpEdit: Record, key: string, n: Option<int>) returns (out: Fleshed)
    requires WellFormed(wpEdit) && key in wpEdit.fields
    ensures out == WithPageCount(wpEdit, key, n)
  {
    if !Truthy(wpEdit.fields[key]) && PageQueryRaises(wpEdit.fields["title"], wpEdit.fields["namespace"]) {
      return FleshRaised;
    }
    out := FillCount(wpEdit, key, n);
  }

  // ---------------------------------------------------------------------
  // The new Edit row and `_import_training_data`
  // ---------------------------------------------------------------------

  /** `classification=0 if wp_edit.is_vandalism else 1` as written: the raw text's truthiness. */
  function ClassificationAsWritten(isVandalism: Value): Label
  {
    if Truthy(isVandalism) then Vandalism else Constructive
  }

  /** The classification the dump's isVandalism text stands for: vandalism exactly for "true". */
  function ClassificationOf(isVandalism: Value): (l: Label)
    ensures l == Vandalism <==> isVandalism == Text(Some("true"))
  {
    if isVandalism == Text(Some("true")) then Vandalism else Constructive
  }

  /** As written, a dumped "false" reads as vandalism; read as intended it is constructive. */
  lemma FalseReadsAsVandalismAsWritten()
    ensures ClassificationAsWritten(Text(Some("false"))) == Vandalism
    ensures ClassificationOf(Text(Some("false"))) == Constructive
  {
  }

  /** What the legacy dump writes for a classification is read back as vandalism exactly when it was vandalism. */
  lemma ClassificationRoundTrip(c: Option<Label>)
    ensures ClassificationOf(Text(Some(Dumper.BoolText(c == Some(Vandalism))))) == Vandalism <==> c == Some(Vandalism)
    ensures ClassificationAsWritten(Text(Some(Dumper.BoolText(c == Some(Vandalism))))) == Vandalism
  {
  }

  /** `Edit.objects.create(id=..., classification=..., status=2)` */
  function NewImportedEdit(id: EditId, isVandalism: Value): (e: Edit)
    ensures e.id == id && e.status == Done && e.classification == Some(ClassificationOf(isVandalism))
    ensures !e.isDeleted && !e.hasTrainingData && e.groups == {}
  {
    NewEdit(id).(status := Done, classification := Some(ClassificationOf(isVandalism)))
  }

  /** An integer column: the text as `int()` reads it, or a looked-up count; None when the insert raises. */
  function IntColumn(v: Value): (n: Option<int>)
    ensures v.Count? ==> n == Some(v.count)
    ensures v.Text? ==> n == (if v.text.Some? then ParseInt(v.text.value) else None)
  {
    match v
    case Text(t) => if t.Some? then ParseInt(t.value) else None
    case Count(c) => Some(c)
    case Seconds(_) => None
  }

  /** `.timestamp()`, which only a datetime has. */
  function TimeColumn(v: Value): (n: Option<int>)
    ensures n.Some? <==> v.Seconds?
  {
    if v.Seconds? then Some(v.seconds) else None
  }

  /** A required text column: None (the insert raises) for a missing text. */
  function TextColumn(v: Value): (t: Option<string>)
    ensures t.Some? <==> v.Text? && v.text.Some?
  {
    if v.Text? && v.text.Some? then Some(v.text.value) else None
  }

  /** `settings.WIKIPEDIA_NAMESPACE_NAME_TO_ID[wp_edit.namespace.lower()]` */
  function NamespaceColumn(v: Value): (n: Option<int>)
    ensures n.Some? <==> v.Text? && v.text.Some? && Lower(v.text.value) in Settings.NameToId()
  {
    if v.Text? && v.text.Some? && Lower(v.text.value) in Settings.NameToId() then Some(Settings.NameToId()[Lower(v.text.value)])
    else None
  }

  /** The TrainingData row `_import_training_data` creates, or None when building it raises. */
  function TrainingRowOf(r: Record): Option<TrainingData>
    requires WellFormed(r)
  {
    var f := r.fields;
    if && TimeColumn(r.current.timestamp).Some? && TextColumn(f["comment"]).Some? && TextColumn(f["user"]).Some?
       && IntColumn(f["user_edit_count"]).Some? && IntColumn(f["user_distinct_pages"]).Some? && IntColumn(f["user_warns"]).Some?
       && TimeColumn(f["user_reg_time"]).Some? && f["prev_user"].Text? && TextColumn(f["title"]).Some?
       && NamespaceColumn(f["namespace"]).Some? && TimeColumn(f["page_made_time"]).Some? && TextColumn(f["creator"]).Some?
       && IntColumn(f["num_recent_edits"]).Some? && IntColumn(f["num_recent_reversions"]).Some?
    then
      Some(TrainingData(
        TimeColumn(r.current.timestamp).value, TextColumn(f["comment"]).value, TextColumn(f["user"]).value,
        IntColumn(f["user_edit_count"]).value, IntColumn(f["user_distinct_pages"]).value, IntColumn(f["user_warns"]).value,
        TimeColumn(f["user_reg_time"]).value, f["prev_user"].text, TextColumn(f["title"]).value,
        NamespaceColumn(f["namespace"]).value, TimeColumn(f["page_made_time"]).value, TextColumn(f["creator"]).value,
        IntColumn(f["num_recent_edits"]).value, IntColumn(f["num_recent_reversions"]).value))
    else None
  }

  /** A Revision row: `.timestamp()` and `.encode()` raise on anything but a datetime and a text. */
  function RevisionRowOf(v: Rev): (row: Option<RevisionRow>)
    ensures row.Some? <==> v.timestamp.Seconds? && v.text.Some?
    ensures row.Some? ==> row.value == RevisionRow(v.minor, false, v.timestamp.seconds, v.text.value)
  {
    if v.timestamp.Seconds? && v.text.Some? then Some(RevisionRow(v.minor, false, v.timestamp.seconds, v.text.value)) else None
  }

  /** The previous revision's row: None without a previous revision, `Some(None)` when building it raises. */
  function PreviousRowOf(r: Record): Option<Option<RevisionRow>>
  {
    if r.previous.Some? then Some(RevisionRowOf(r.previous.value)) else None
  }

  /**
   * How far the ORM calls of `_import_training_data` get, given the rows
   * they insert (None where building a row raises): 0 when the TrainingData
   * row raises, 1 when the current Revision row does, 2 when a previous
   * Revision row that is there does, 3 when all of them are created.
   */
  function ImportStage(row: Option<TrainingData>, current: Option<RevisionRow>, previous: Option<Option<RevisionRow>>): (n: nat)
    ensures n <= 3
  {
    if row.None? then 0 else if current.None? then 1 else if previous == Some(None) then 2 else 3
  }

  /** The TrainingData table: the edit's row is deleted, then recreated when it can be built. */
  function ImportedTrainingRows(rows: map<EditId, TrainingData>, id: EditId, row: Option<TrainingData>): map<EditId, TrainingData>
  {
    if row.None? then rows - {id} else (rows - {id})[id := row.value]
  }

  /**
   * The Revision table: once the TrainingData row is created, the edit's two
   * rows are deleted, then the current one and the previous one, if any,
   * are created as far as they can be built.
   */
  function ImportedRevisionRows(rows: map<(EditId, RevisionType), RevisionRow>, id: EditId, stage: nat,
                                current: Option<RevisionRow>, previous: Option<Option<RevisionRow>>): map<(EditId, RevisionType), RevisionRow>
    requires stage >= 2 ==> current.Some?
    requires stage >= 3 && previous.Some? ==> previous.value.Some?
  {
    if stage == 0 then rows
    else
      var cleared := rows - {(id, Current), (id, Previous)};
      if stage == 1 then cleared
      else
        var withCurrent := cleared[(id, Current) := current.value];
        if stage == 2 || previous.None? then withCurrent
        else withCurrent[(id, Previous) := previous.value.value]
  }

  /** The Edit table: once every row is created, the edit joins the group unless it is already in it. */
  function ImportedEditRows(edits: map<EditId, Edit>, id: EditId, group: GroupId, stage: nat): map<EditId, Edit>
    requires id in edits
  {
    var e := edits[id];
    if stage < 3 || group in e.groups then edits else edits[id := e.(groups := e.groups + {group})]
  }

  /**
   * The ORM calls of `_import_training_data`, given the rows they insert: a
   * row that cannot be built raises after what came before it.
   */
  function WriteImport(db: Db, id: EditId, group: GroupId, row: Option<TrainingData>,
                       current: Option<RevisionRow>, previous: Option<Option<RevisionRow>>): (Db, bool)
    requires id in db.edits
  {
    var stage := ImportStage(row, current, previous);
    (db.(trainingData := ImportedTrainingRows(db.trainingData, id, row),
         revisions := ImportedRevisionRows(db.revisions, id, stage, current, previous),
         edits := ImportedEditRows(db.edits, id, group, stage)),
     stage < 3)
  }

  /** `_import_training_data(edit, target_group, wp_edit)` over the tables, and whether it raised. */
  function ImportedTrainingData(db: Db, id: EditId, group: GroupId, r: Record): (Db, bool)
    requires WellFormed(r) && id in db.edits
  {
    WriteImport(db, id, group, TrainingRowOf(r), RevisionRowOf(r.current), PreviousRowOf(r))
  }

  /** Building a row fails for the TrainingData row, the current revision, or a previous revision that is there. */
  predicate ImportRaises(r: Record)
    requires WellFormed(r)
  {
    TrainingRowOf(r).None? || RevisionRowOf(r.current).None? || (r.previous.Some? && RevisionRowOf(r.previous.value).None?)
  }

  /** The import raises exactly when a row cannot be built. */
  lemma ImportedTrainingDataRaises(db: Db, id: EditId, group: GroupId, r: Record)
    requires WellFormed(r) && id in db.edits
    ensures ImportedTrainingData(db, id, group, r).1 <==> ImportRaises(r)
  {
  }

  /** The frame of the ORM calls, whatever rows they insert. */
  lemma WriteImportFrame(db: Db, id: EditId, group: GroupId, row: Option<TrainingData>,
                         current: Option<RevisionRow>, previous: Option<Option<RevisionRow>>)
    requires id in db.edits
    ensures var after := WriteImport(db, id, group, row, current, previous).0;
      && after.edits.Keys == db.edits.Keys
      && (forall k | k in db.edits && k != id :: after.edits[k] == db.edits[k])
      && after.edits[id] == db.edits[id].(groups := after.edits[id].groups)
      && after.trainingData.Keys - {id} == db.trainingData.Keys - {id}
      && (forall k | k in db.trainingData && k != id :: after.trainingData[k] == db.trainingData[k])
      && (forall k | k in db.revisions && k.0 != id :: k in after.revisions && after.revisions[k] == db.revisions[k])
      && (forall k | k in after.revisions && k.0 != id :: k in db.revisions)
      && after.votes == db.votes && after.groups == db.groups && after.scores == db.scores && after.notices == db.notices
      && after.currentRevisions == db.currentRevisions && after.previousRevisions == db.previousRevisions
  {
  }

  /**
   * Whether or not it raises, the import touches only the edit's own rows
   * and its groups: every other edit, TrainingData row and Revision row, and
   * the votes, groups, scores, notices and the newer revision tables, stay.
   */
  lemma ImportedTrainingDataFrame(db: Db, id: EditId, group: GroupId, r: Record)
    requires WellFormed(r) && id in db.edits
    ensures var after := ImportedTrainingData(db, id, group, r).0;
      && after.edits.Keys == db.edits.Keys
      && (forall k | k in db.edits && k != id :: after.edits[k] == db.edits[k])
      && after.edits[id] == db.edits[id].(groups := after.edits[id].groups)
      && after.trainingData.Keys - {id} == db.trainingData.Keys - {id}
      && (forall k | k in db.trainingData && k != id :: after.trainingData[k] == db.trainingData[k])
      && (forall k | k in db.revisions && k.0 != id :: k in after.revisions && after.revisions[k] == db.revisions[k])
      && (forall k | k in after.revisions && k.0 != id :: k in db.revisions)
      && after.votes == db.votes && after.groups == db.groups && after.scores == db.scores && after.notices == db.notices
      && after.currentRevisions == db.currentRevisions && after.previousRevisions == db.previousRevisions
  {
    WriteImportFrame(db, id, group, TrainingRowOf(r), RevisionRowOf(r.current), PreviousRowOf(r));
  }

  /**
   * An import that does not raise leaves the edit with the TrainingData row
   * built from the record, exactly the current and previous revision rows
   * built from it, and the group among its groups.
   */
  lemma ImportedTrainingDataRows(db: Db, id: EditId, group: GroupId, r: Record)
    requires WellFormed(r) && id in db.edits && !ImportRaises(r)
    ensures var after := ImportedTrainingData(db, id, group, r).0;
      && !ImportedTrainingData(db, id, group, r).1
      && id in after.trainingData && after.trainingData[id] == TrainingRowOf(r).value
      && (id, Current) in after.revisions && after.revisions[(id, Current)] == RevisionRowOf(r.current).value
      && ((id, Previous) in after.revisions <==> r.previous.Some?)
      && (r.previous.Some? ==> after.revisions[(id, Previous)] == RevisionRowOf(r.previous.value).value)
      && after.edits[id].groups == db.edits[id].groups + {group}
  {
  }

  /** Writing the same rows twice is writing them once. */
  lemma WriteImportIdempotent(db: Db, id: EditId, group: GroupId, row: TrainingData,
                              current: RevisionRow, previous: Option<RevisionRow>)
    requires id in db.edits
    ensures var prev := if previous.Some? then Some(previous) else None;
      var after := WriteImport(db, id, group, Some(row), Some(current), prev).0;
      && id in after.edits
      && WriteImport(after, id, group, Some(row), Some(current), prev) == WriteImport(db, id, group, Some(row), Some(current), prev)
  {
    var prev := if previous.Some? then Some(previous) else None;
    var after := WriteImport(db, id, group, Some(row), Some(current), prev).0;
    var again := WriteImport(after, id, group, Some(row), Some(current), prev).0;
    assert again.trainingData == after.trainingData;
    assert again.revisions == after.revisions;
    assert again.edits == after.edits;
  }

  /** Importing the same record again changes nothing more: the group is added once. */
  lemma ImportedTrainingDataIdempotent(db: Db, id: EditId, group: GroupId, r: Record)
    requires WellFormed(r) && id in db.edits && !ImportRaises(r)
    ensures id in ImportedTrainingData(db, id, group, r).0.edits
    ensures ImportedTrainingData(ImportedTrainingData(db, id, group, r).0, id, group, r) == ImportedTrainingData(db, id, group, r)
  {
    WriteImportIdempotent(db, id, group, TrainingRowOf(r).value, RevisionRowOf(r.current).value,
                          if r.previous.Some? then RevisionRowOf(r.previous.value) else None);
  }

  /** The ORM calls of `_import_training_data` in turn, given the rows they insert. */
  method WriteImportRows(store: Store, id: EditId, group: GroupId, row: Option<TrainingData>,
                         current: Option<RevisionRow>, previous: Option<Option<RevisionRow>>) returns (raised: bool)
    requires store.Valid() && id in store.edits && group in store.groups
    modifies store
    ensures store.Valid()
    ensures store.groups == old(store.groups)
    ensures (store.State(), raised) == WriteImport(old(store.State()), id, group, row, current, previous)
  {
    ghost var d := store.State();
    ghost var stage := ImportStage(row, current, previous);
    store.DeleteTrainingData(id);
    if row.None? {
      assert store.trainingData == ImportedTrainingRows(d.trainingData, id, row);
      return true;
    }
    store.CreateTrainingData(id, row.value);
    assert store.trainingData == ImportedTrainingRows(d.trainingData, id, row);
    store.DeleteRevisions(id);
    if current.None? {
      assert store.revisions == ImportedRevisionRows(d.revisions, id, stage, current, previous);
      return true;
    }
    store.CreateRevision(id, Current, current.value);
    if previous.Some? {
      if previous.value.None? {
        assert store.revisions == ImportedRevisionRows(d.revisions, id, stage, current, previous);
        return true;
      }
      store.CreateRevision(id, Previous, previous.value.value);
    }
    assert store.revisions == ImportedRevisionRows(d.revisions, id, stage, current, previous);
    var e := store.edits[id];
    if group !in e.groups {
      store.SaveEdit(e.(groups := e.groups + {group}));
    }
    assert store.edits == ImportedEditRows(d.edits, id, group, stage);
    return false;
  }

  /** `_import_training_data(edit, target_group, wp_edit)`: the rows built from the record, written in turn. */
  method ImportTrainingData(store: Store, id: EditId, group: GroupId, r: Record) returns (raised: bool)
    requires store.Valid() && id in store.edits && group in store.groups && WellFormed(r)
    modifies store
    ensures store.Valid()
    ensures store.groups == old(store.groups)
    ensures (store.State(), raised) == ImportedTrainingData(old(store.State()), id, group, r)
  {
    raised := WriteImportRows(store, id, group, TrainingRowOf(r), RevisionRowOf(r.current), PreviousRowOf(r));
  }
}
