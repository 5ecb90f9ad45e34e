/**
 * `EditSetParser` and the record conversions of the WPEdit codec: a state
 * machine over the (start|end, tag, text) events of an edit set, which
 * collects each WPEdit's fields into a dictionary and turns the dictionary
 * into a record at `</WPEdit>`.
 */
module EditSetParser {
  import opened Wrappers
  import opened Strings
  import opened Xml

  /** Tags seen outside an edit that are not worth a warning. */
  const IgnoreFields: set<string> := {"WPEditSet"}

  /** Leaves of an edit stored under their own tag. */
  const EditFields: seq<string> := [
    "comment", "user", "user_edit_count", "user_distinct_pages", "user_warns", "prev_user",
    "user_reg_time", "page_made_time", "title", "namespace", "creator", "num_recent_edits",
    "num_recent_reversions"]

  const RevisionFields: seq<string> := ["minor", "timestamp", "text"]
  const ReviewInterfaceFields: seq<string> := ["reviewers", "reviewers_agreeing"]

  /** The blocks whose start and end switch an `in_*` flag. */
  const BlockTags: set<string> := {"current", "previous", "EditDB", "ReviewInterface"}

  /** `_mapped_fields`: leaves stored under another key. */
  function MappedField(tag: string): (r: Option<string>)
    ensures r.Some? <==> tag == "EditID" || tag == "isVandalism"
  {
    if tag == "EditID" then Some("edit_id") else if tag == "isVandalism" then Some("is_vandalism") else None
  }

  type Dict = map<string, Option<string>>

  /** `ctx["edit"]`: the edit's own fields and its "current" and "previous" dictionaries. */
  datatype Raw = Raw(fields: Dict, current: Dict, previous: Dict)

  datatype Ctx = Ctx(edit: Raw, inEdit: bool, inCurrent: bool, inPrevious: bool, inEditDb: bool, inReviewInterface: bool)

  /** `_new_processing_context(in_edit)` */
  function NewContext(inEdit: bool): Ctx
  {
    Ctx(Raw(map[], map[], map[]), inEdit, false, false, false, false)
  }

  /** `ctx[f"in_{tag.lower()}"] = value` for one of the block tags. */
  function WithFlag(ctx: Ctx, tag: string, value: bool): Ctx
  {
    if tag == "current" then ctx.(inCurrent := value)
    else if tag == "previous" then ctx.(inPrevious := value)
    else if tag == "EditDB" then ctx.(inEditDb := value)
    else ctx.(inReviewInterface := value)
  }

  /** One call of `_process_element`: the new context, the dictionary completed at `</WPEdit>`, and the tag logged as ignored. */
  datatype Outcome = Outcome(ctx: Ctx, record: Option<Raw>, ignored: Option<string>)

  function Step(ctx: Ctx, ev: Event): Outcome
  {
    if ev.tag == "WPEdit" then
      Outcome(NewContext(true), if ev.kind == End && ctx.inEdit then Some(ctx.edit) else None, None)
    else if !ctx.inEdit then Outcome(ctx, None, if ev.tag !in IgnoreFields then Some(ev.tag) else None)
    else if ev.tag in BlockTags then Outcome(WithFlag(ctx, ev.tag, ev.kind == Start), None, None)
    else Outcome(ctx.(edit := Stored(ctx, ev)), None, None)
  }

  /** The field assignment of an event inside an edit that is not a block boundary. */
  function Stored(ctx: Ctx, ev: Event): Raw
  {
    var e := ctx.edit;
    if ctx.inCurrent then
      if ev.kind == End && ev.tag in RevisionFields then e.(current := e.current[ev.tag := ev.text]) else e
    else if ctx.inPrevious then
      if ev.kind == End && ev.tag in RevisionFields then e.(previous := e.previous[ev.tag := ev.text]) else e
    else if ctx.inEditDb then
      if ev.kind == Start && ev.tag == "source" then e.(fields := e.fields["editdb_source" := ev.text]) else e
    else if ctx.inReviewInterface then
      if ev.kind == End && ev.tag in ReviewInterfaceFields then e.(fields := e.fields[ev.tag := ev.text]) else e
    else if ev.kind == End && ev.tag in EditFields then e.(fields := e.fields[ev.tag := ev.text])
    else if ev.kind == End && MappedField(ev.tag).Some? then e.(fields := e.fields[MappedField(ev.tag).value := ev.text])
    else e
  }

  // ---------------------------------------------------------------------
  // Properties of one step

  /**
   * Every `WPEdit` start or end starts a fresh context inside an edit; the
   * dictionary is handed over exactly at an end seen inside an edit, and
   * this is the only way a step hands one over.
   */
  lemma StepRecord(ctx: Ctx, ev: Event)
    ensures Step(ctx, ev).record.Some? <==> ev.tag == "WPEdit" && ev.kind == End && ctx.inEdit
    ensures Step(ctx, ev).record.Some? ==> Step(ctx, ev).record.value == ctx.edit
    ensures ev.tag == "WPEdit" ==> Step(ctx, ev).ctx == NewContext(true)
  {
  }

  /** Outside an edit nothing changes, and every tag but WPEditSet is logged. */
  lemma StepOutsideEdit(ctx: Ctx, ev: Event)
    requires !ctx.inEdit && ev.tag != "WPEdit"
    ensures Step(ctx, ev).ctx == ctx && Step(ctx, ev).record.None?
    ensures Step(ctx, ev).ignored.Some? <==> ev.tag != "WPEditSet"
  {
  }

  /** Inside an edit nothing is logged. */
  lemma StepInsideEditSilent(ctx: Ctx, ev: Event)
    requires ctx.inEdit
    ensures Step(ctx, ev).ignored.None?
  {
  }

  /** A block boundary sets its own flag on start and clears it on end, and touches nothing else. */
  lemma StepBlock(ctx: Ctx, ev: Event)
    requires ctx.inEdit && ev.tag in BlockTags
    ensures var c := Step(ctx, ev).ctx;
      && c.edit == ctx.edit && c.inEdit
      && c.inCurrent == (if ev.tag == "current" then ev.kind == Start else ctx.inCurrent)
      && c.inPrevious == (if ev.tag == "previous" then ev.kind == Start else ctx.inPrevious)
      && c.inEditDb == (if ev.tag == "EditDB" then ev.kind == Start else ctx.inEditDb)
      && c.inReviewInterface == (if ev.tag == "ReviewInterface" then ev.kind == Start else ctx.inReviewInterface)
  {
  }

  /**
   * Inside a revision block only the end of minor, timestamp or text writes,
   * and only to that revision's dictionary; current takes precedence over
   * previous.
   */
  lemma StepRevision(ctx: Ctx, ev: Event)
    requires ctx.inEdit && ev.tag != "WPEdit" && ev.tag !in BlockTags && (ctx.inCurrent || ctx.inPrevious)
    ensures var c := Step(ctx, ev).ctx;
      && c.edit.fields == ctx.edit.fields
      && (ctx.inCurrent ==> c.edit.previous == ctx.edit.previous)
      && (ctx.inCurrent && ev.kind == End && ev.tag in RevisionFields ==> c.edit.current == ctx.edit.current[ev.tag := ev.text])
      && (!ctx.inCurrent ==> c.edit.current == ctx.edit.current)
      && (!ctx.inCurrent && ev.kind == End && ev.tag in RevisionFields ==> c.edit.previous == ctx.edit.previous[ev.tag := ev.text])
      && (ev.kind == Start || ev.tag !in RevisionFields ==> c.edit == ctx.edit)
  {
  }

  /** In EditDB only the start of `source` writes; in ReviewInterface only the ends of the two counts. */
  lemma StepEditDbAndReview(ctx: Ctx, ev: Event)
    requires ctx.inEdit && ev.tag != "WPEdit" && ev.tag !in BlockTags && !ctx.inCurrent && !ctx.inPrevious
    requires ctx.inEditDb || ctx.inReviewInterface
    ensures var c := Step(ctx, ev).ctx;
      && c.edit.current == ctx.edit.current && c.edit.previous == ctx.edit.previous
      && (ctx.inEditDb ==>
            c.edit.fields == if ev.kind == Start && ev.tag == "source" then ctx.edit.fields["editdb_source" := ev.text]
                             else ctx.edit.fields)
      && (!ctx.inEditDb ==>
            c.edit.fields ==
              if ev.kind == End && (ev.tag == "reviewers" || ev.tag == "reviewers_agreeing") then ctx.edit.fields[ev.tag := ev.text]
              else ctx.edit.fields)
  {
  }

  /**
   * Elsewhere in an edit the end of one of the thirteen edit fields stores
   * its text under its tag, EditID and isVandalism are stored as edit_id
   * and is_vandalism, and every other event changes nothing.
   */
  lemma StepGeneral(ctx: Ctx, ev: Event)
    requires ctx.inEdit && ev.tag != "WPEdit" && ev.tag !in BlockTags
    requires !ctx.inCurrent && !ctx.inPrevious && !ctx.inEditDb && !ctx.inReviewInterface
    ensures var c := Step(ctx, ev).ctx;
      && c == ctx.(edit := c.edit)
      && c.edit.current == ctx.edit.current && c.edit.previous == ctx.edit.previous
      && (ev.kind == End && ev.tag in EditFields ==> c.edit.fields == ctx.edit.fields[ev.tag := ev.text])
      && (ev.kind == End && ev.tag == "EditID" ==> c.edit.fields == ctx.edit.fields["edit_id" := ev.text])
      && (ev.kind == End && ev.tag == "isVandalism" ==> c.edit.fields == ctx.edit.fields["is_vandalism" := ev.text])
      && (ev.kind == Start || (ev.tag !in EditFields && ev.tag != "EditID" && ev.tag != "isVandalism") ==>
            c.edit == ctx.edit)
  {
  }

  // ---------------------------------------------------------------------
  // `WpRevision.from_xml` and `WpEdit.from_xml`

  /** A dictionary value after conversion: the text as parsed, or epoch seconds. */
  datatype Field = Text(text: Option<string>) | Seconds(seconds: int)

  /** What a conversion gives: a record, or the exception raised. */
  datatype Conversion<T> =
    | Converted(value: T)
    | KeyMissing(key: string)                  // KeyError
    | NotAnInteger(key: string, text: string)   // ValueError from int()
    | ArgumentsMissing(keys: set<string>)       // TypeError: required dataclass field not given
    | ArgumentsUnexpected(keys: set<string>)    // TypeError: unknown keyword

  /** A value read as a Python condition. */
  predicate Truthy(v: Option<string>)
  {
    v.Some? && v.value != ""
  }

  /** `if data[key]: data[key] = datetime.fromtimestamp(int(data[key]))`, None when int() raises. */
  function TimeField(v: Option<string>): (r: Option<Field>)
    ensures !Truthy(v) ==> r == Some(Text(v))
    ensures Truthy(v) ==> (r.Some? <==> ParseInt(v.value).Some?)
    ensures Truthy(v) && r.Some? ==> r.value == Seconds(ParseInt(v.value).value)
  {
    if Truthy(v) then
      match ParseInt(v.value)
      case Some(n) => Some(Seconds(n))
      case None => None
    else Some(Text(v))
  }

  datatype Revision = Revision(timestamp: Field, text: Option<string>, minor: bool)

  const RevisionArguments: set<string> := {"timestamp", "text", "minor"}

  /** `WpRevision.from_xml(data)` */
  function RevisionFromXml(data: Dict): Conversion<Revision>
  {
    if "timestamp" !in data then KeyMissing("timestamp")
    else if TimeField(data["timestamp"]).None? then NotAnInteger("timestamp", data["timestamp"].value)
    else
      var minor := "minor" in data && data["minor"] == Some("true");
      var keys := data.Keys + {"minor"};
      if keys - RevisionArguments != {} then ArgumentsUnexpected(keys - RevisionArguments)
      else if "text" !in data then ArgumentsMissing({"text"})
      else Converted(Revision(TimeField(data["timestamp"]).value, data["text"], minor))
  }

  /**
   * `minor` is true exactly when the raw value is the string "true"; a
   * truthy timestamp is read as seconds and any other one is passed through.
   */
  lemma RevisionFromXmlFields(data: Dict)
    requires RevisionFromXml(data).Converted?
    ensures var r := RevisionFromXml(data).value;
      && (r.minor <==> "minor" in data && data["minor"] == Some("true"))
      && (Truthy(data["timestamp"]) ==> r.timestamp == Seconds(ParseInt(data["timestamp"].value).value))
      && (!Truthy(data["timestamp"]) ==> r.timestamp == Text(data["timestamp"]))
      && r.text == data["text"]
  {
  }

  /** The dictionary of the revision blocks is accepted exactly when it holds a timestamp that reads and a text. */
  lemma RevisionFromXmlAccepts(data: Dict)
    requires data.Keys <= {"minor", "timestamp", "text"}
    ensures RevisionFromXml(data).Converted? <==>
              "timestamp" in data && "text" in data && TimeField(data["timestamp"]).Some?
  {
  }

  /**
   * The fields of the record type as the shown dataclass declares them,
   * none with a default; `current` and `previous` are always present.
   */
  const RecordArguments: set<string> := {
    "edit_id", "title", "namespace", "comment", "user", "creator", "user_edit_count",
    "user_distinct_pages", "user_warns", "prev_user", "user_reg_time", "page_made_time",
    "num_recent_edits", "num_recent_reversions", "is_vandalism"}

  /** Fields the importer reads from records that the shown dataclass does not declare. */
  const OptionalArguments: set<string> := {"editdb_source", "reviewers", "reviewers_agreeing"}

  /** The record: converted fields and the two revision dictionaries, which this conversion leaves as they are. */
  datatype Record = Record(fields: map<string, Field>, current: Dict, previous: Dict)

  function Texts(d: Dict): (r: map<string, Field>)
    ensures r.Keys == d.Keys && forall k | k in d :: r[k] == Text(d[k])
  {
    map k | k in d :: Text(d[k])
  }

  /** Both times are present and read. */
  predicate TimesRead(d: Dict)
  {
    && "user_reg_time" in d && TimeField(d["user_reg_time"]).Some?
    && "page_made_time" in d && TimeField(d["page_made_time"]).Some?
  }

  /** The keyword arguments `from_xml` builds: the dictionary with its times converted and the namespace defaulted. */
  function Prepared(d: Dict): map<string, Field>
    requires TimesRead(d)
  {
    var timed := Texts(d)["user_reg_time" := TimeField(d["user_reg_time"]).value]
                         ["page_made_time" := TimeField(d["page_made_time"]).value];
    if "namespace" !in d || !Truthy(d["namespace"]) then timed["namespace" := Text(Some("main"))] else timed
  }

  /** `WpEdit.from_xml(data)` */
  function FromXml(raw: Raw): Conversion<Record>
  {
    if "user_reg_time" !in raw.fields then KeyMissing("user_reg_time")
    else if TimeField(raw.fields["user_reg_time"]).None? then NotAnInteger("user_reg_time", raw.fields["user_reg_time"].value)
    else if "page_made_time" !in raw.fields then KeyMissing("page_made_time")
    else if TimeField(raw.fields["page_made_time"]).None? then NotAnInteger("page_made_time", raw.fields["page_made_time"].value)
    else
      var fields := Prepared(raw.fields);
      if fields.Keys - (RecordArguments + OptionalArguments) != {} then
        ArgumentsUnexpected(fields.Keys - (RecordArguments + OptionalArguments))
      else if !(RecordArguments <= fields.Keys) then ArgumentsMissing(RecordArguments - fields.Keys)
      else Converted(Record(fields, raw.current, raw.previous))
  }

  /** The prepared arguments keep every key, add the namespace, and keep the text of every other key. */
  lemma PreparedKeys(d: Dict)
    requires TimesRead(d)
    ensures Prepared(d).Keys == d.Keys + {"namespace"}
    ensures forall k | k in d && k !in {"namespace", "user_reg_time", "page_made_time"} :: Prepared(d)[k] == Text(d[k])
  {
  }

  /** A missing or empty namespace becomes "main"; a present one is kept. */
  lemma PreparedNamespace(d: Dict)
    requires TimesRead(d)
    ensures "namespace" in d && Truthy(d["namespace"]) ==> Prepared(d)["namespace"] == Text(d["namespace"])
    ensures "namespace" !in d || !Truthy(d["namespace"]) ==> Prepared(d)["namespace"] == Text(Some("main"))
  {
  }

  /** The two times are read as seconds when truthy and passed through otherwise. */
  lemma PreparedTimes(d: Dict)
    requires TimesRead(d)
    ensures Prepared(d)["user_reg_time"] == TimeField(d["user_reg_time"]).value
    ensures Prepared(d)["page_made_time"] == TimeField(d["page_made_time"]).value
  {
  }

  /**
   * A converted record: a missing or empty namespace becomes "main" and a
   * present one is kept; the two times are read as seconds when truthy and
   * passed through otherwise; every other key keeps its text.
   */
  lemma FromXmlFields(raw: Raw)
    requires FromXml(raw).Converted?
    ensures var r := FromXml(raw).value;
      && r.current == raw.current && r.previous == raw.previous
      && r.fields.Keys == raw.fields.Keys + {"namespace"}
      && (r.fields["namespace"] == Text(Some("main")) <==>
            "namespace" !in raw.fields || !Truthy(raw.fields["namespace"]) || raw.fields["namespace"] == Some("main"))
      && ("namespace" in raw.fields && Truthy(raw.fields["namespace"]) ==> r.fields["namespace"] == Text(raw.fields["namespace"]))
      && (forall k | k in raw.fields && k !in {"namespace", "user_reg_time", "page_made_time"} :: r.fields[k] == Text(raw.fields[k]))
      && (Truthy(raw.fields["user_reg_time"]) ==> r.fields["user_reg_time"] == Seconds(ParseInt(raw.fields["user_reg_time"].value).value))
      && (!Truthy(raw.fields["user_reg_time"]) ==> r.fields["user_reg_time"] == Text(raw.fields["user_reg_time"]))
      && (Truthy(raw.fields["page_made_time"]) ==> r.fields["page_made_time"] == Seconds(ParseInt(raw.fields["page_made_time"].value).value))
      && (!Truthy(raw.fields["page_made_time"]) ==> r.fields["page_made_time"] == Text(raw.fields["page_made_time"]))
  {
    assert FromXml(raw).value.fields == Prepared(raw.fields);
    PreparedKeys(raw.fields);
    PreparedNamespace(raw.fields);
    PreparedTimes(raw.fields);
  }

  /**
   * The conversion fails on a missing time key first, then on a time that is
   * not an integer, and otherwise exactly when a declared field is missing.
   */
  lemma FromXmlFailures(raw: Raw)
    requires raw.fields.Keys <= RecordArguments + OptionalArguments
    ensures "user_reg_time" !in raw.fields ==> FromXml(raw) == KeyMissing("user_reg_time")
    ensures FromXml(raw).Converted? <==>
              && "user_reg_time" in raw.fields && TimeField(raw.fields["user_reg_time"]).Some?
              && "page_made_time" in raw.fields && TimeField(raw.fields["page_made_time"]).Some?
              && RecordArguments - {"namespace"} <= raw.fields.Keys
  {
    if TimesRead(raw.fields) {
      PreparedKeys(raw.fields);
    }
  }

  // ---------------------------------------------------------------------
  // `read_file`

  /** The progress of the event loop: context, records handed to the callback, ignored tags, and the exception if one escaped. */
  datatype Progress = Progress(ctx: Ctx, delivered: seq<Record>, ignored: seq<string>, failure: Option<Conversion<Record>>)

  function Initial(): Progress
  {
    Progress(NewContext(false), [], [], None)
  }

  /** One iteration: process the event, convert a completed dictionary, and stop at an exception. */
  function Advance(p: Progress, ev: Event): Progress
  {
    if p.failure.Some? then p
    else
      var o := Step(p.ctx, ev);
      var ignored := p.ignored + (if o.ignored.Some? then [o.ignored.value] else []);
      if o.record.None? then Progress(o.ctx, p.delivered, ignored, None)
      else
        var c := FromXml(o.record.value);
        if c.Converted? then Progress(o.ctx, p.delivered + [c.value], ignored, None)
        else Progress(o.ctx, p.delivered, ignored, Some(c))
  }

  function Feed(p: Progress, evs: seq<Event>): Progress
    decreases |evs|
  {
    if evs == [] then p else Advance(Feed(p, evs[..|evs| - 1]), evs[|evs| - 1])
  }

  /** The input: the events the tokenizer yields, and whether it then reaches the end or raises ParseError. */
  datatype Stream = Stream(events: seq<Event>, wellFormed: bool)

  datatype Returned = Returned(ok: bool) | Raised(error: Conversion<Record>)

  datatype ReadOutcome = ReadOutcome(result: Returned, delivered: seq<Record>, ignored: seq<string>)

  /** `read_file(path, callback)`; `delivered` lists the callback's arguments in order. */
  function Read(present: bool, s: Stream): ReadOutcome
  {
    if !present then ReadOutcome(Returned(false), [], [])
    else
      var p := Feed(Initial(), s.events);
      if p.failure.Some? then ReadOutcome(Raised(p.failure.value), p.delivered, p.ignored)
      else ReadOutcome(Returned(s.wellFormed), p.delivered, p.ignored)
  }

  /** Feeding two runs of events is feeding the second after the first. */
  lemma {:induction false} FeedConcat(p: Progress, a: seq<Event>, b: seq<Event>)
    ensures Feed(p, a + b) == Feed(Feed(p, a), b)
    decreases |b|
  {
    if b == [] {
      assert a + b == a;
    } else {
      assert (a + b)[..|a + b| - 1] == a + b[..|b| - 1];
      FeedConcat(p, a, b[..|b| - 1]);
    }
  }

  /** Once an exception has escaped nothing more happens. */
  lemma {:induction false} FeedAfterFailure(p: Progress, evs: seq<Event>)
    requires p.failure.Some?
    ensures Feed(p, evs) == p
    decreases |evs|
  {
    if evs != [] {
      FeedAfterFailure(p, evs[..|evs| - 1]);
    }
  }

  /** Records only accumulate: what was handed over stays, in order, and later records follow it. */
  lemma {:induction false} FeedDeliversInOrder(p: Progress, evs: seq<Event>)
    ensures p.delivered <= Feed(p, evs).delivered
    ensures p.ignored <= Feed(p, evs).ignored
    decreases |evs|
  {
    if evs != [] {
      FeedDeliversInOrder(p, evs[..|evs| - 1]);
    }
  }

  /** The number of `</WPEdit>` events the parser meets while inside an edit. */
  function EditEnds(ctx: Ctx, evs: seq<Event>): nat
    decreases |evs|
  {
    if evs == [] then 0
    else
      (if evs[0].tag == "WPEdit" && evs[0].kind == End && ctx.inEdit then 1 else 0) +
      EditEnds(Step(ctx, evs[0]).ctx, evs[1..])
  }

  /** Feeding one event more, from the front. */
  lemma FeedFront(p: Progress, evs: seq<Event>)
    requires evs != []
    ensures Feed(p, evs) == Feed(Advance(p, evs[0]), evs[1..])
  {
    FeedConcat(p, [evs[0]], evs[1..]);
    assert [evs[0]] + evs[1..] == evs;
    assert Feed(p, [evs[0]]) == Advance(Feed(p, []), evs[0]);
  }

  /** Without an exception, exactly one record is handed over per `</WPEdit>` met inside an edit. */
  lemma {:induction false} OneRecordPerEditEnd(p: Progress, evs: seq<Event>)
    requires p.failure.None?
    ensures Feed(p, evs).failure.None? ==> |Feed(p, evs).delivered| == |p.delivered| + EditEnds(p.ctx, evs)
    decreases |evs|
  {
    if evs != [] {
      FeedFront(p, evs);
      var q := Advance(p, evs[0]);
      StepRecord(p.ctx, evs[0]);
      if q.failure.None? {
        OneRecordPerEditEnd(q, evs[1..]);
      } else {
        FeedAfterFailure(q, evs[1..]);
      }
    }
  }

  /**
   * A missing file returns False and calls nothing; a stream that breaks
   * returns False after handing over the records completed before the
   * break; a sound stream returns True; an exception from a conversion
   * escapes.
   */
  lemma ReadResult(present: bool, s: Stream)
    ensures !present ==> Read(present, s) == ReadOutcome(Returned(false), [], [])
    ensures present && Feed(Initial(), s.events).failure.None? ==>
              Read(present, s).result == Returned(s.wellFormed) && Read(present, s).delivered == Feed(Initial(), s.events).delivered
    ensures present && Feed(Initial(), s.events).failure.Some? ==> Read(present, s).result.Raised?
  {
  }

  /**
   * `ctx`, the dictionary that `_process_element` updates in place; a call
   * with a `WPEdit` tag replaces it with a new one, which is the same as
   * resetting every entry.
   */
  class ProcessingContext {
    var fields: Dict
    var current: Dict
    var previous: Dict
    var inEdit: bool
    var inCurrent: bool
    var inPrevious: bool
    var inEditDb: bool
    var inReviewInterface: bool

    ghost function State(): Ctx
      reads this
    {
      Ctx(Raw(fields, current, previous), inEdit, inCurrent, inPrevious, inEditDb, inReviewInterface)
    }

    /** `_new_processing_context(in_edit)` */
    constructor (inEdit: bool)
      ensures State() == NewContext(inEdit)
    {
      fields, current, previous := map[], map[], map[];
      this.inEdit := inEdit;
      inCurrent, inPrevious, inEditDb, inReviewInterface := false, false, false, false;
    }

    method Reset(inEdit: bool)
      modifies this
      ensures State() == NewContext(inEdit)
    {
      fields, current, previous := map[], map[], map[];
      this.inEdit := inEdit;
      inCurrent, inPrevious, inEditDb, inReviewInterface := false, false, false, false;
    }

    /** `_process_element(ctx, context, elem)`, with the conversion of a completed dictionary. */
    method ProcessElement(ev: Event) returns (wpEdit: Option<Conversion<Record>>, ignored: Option<string>)
      modifies this
      ensures var o := Step(old(State()), ev);
        && State() == o.ctx && ignored == o.ignored
        && wpEdit == if o.record.Some? then Some(FromXml(o.record.value)) else None
    {
      ignored := None;
      wpEdit := None;
      if ev.tag == "WPEdit" {
        if ev.kind == End && inEdit {
          wpEdit := Some(FromXml(Raw(fields, current, previous)));
        }
        Reset(true);
        return;
      }
      if !inEdit {
        if ev.tag !in IgnoreFields {
          ignored := Some(ev.tag);
        }
        return;
      }
      if ev.tag in BlockTags {
        var value := ev.kind == Start;
        if ev.tag == "current" {
          inCurrent := value;
        } else if ev.tag == "previous" {
          inPrevious := value;
        } else if ev.tag == "EditDB" {
          inEditDb := value;
        } else {
          inReviewInterface := value;
        }
        return;
      }
      if inCurrent {
        if ev.kind == End && ev.tag in RevisionFields {
          current := current[ev.tag := ev.text];
        }
        return;
      }
      if inPrevious {
        if ev.kind == End && ev.tag in RevisionFields {
          previous := previous[ev.tag := ev.text];
        }
        return;
      }
      if inEditDb {
        if ev.kind == Start && ev.tag == "source" {
          fields := fields["editdb_source" := ev.text];
        }
        return;
      }
      if inReviewInterface {
        if ev.kind == End && ev.tag in ReviewInterfaceFields {
          fields := fields[ev.tag := ev.text];
        }
        return;
      }
      if ev.kind == End {
        var mapped := MappedField(ev.tag);
        if ev.tag in EditFields {
          fields := fields[ev.tag := ev.text];
        } else if mapped.Some? {
          fields := fields[mapped.value := ev.text];
        }
      }
    }
  }

  lemma FeedPrefixStep(p: Progress, evs: seq<Event>, i: nat)
    requires i < |evs|
    ensures Feed(p, evs[..i + 1]) == Advance(Feed(p, evs[..i]), evs[i])
  {
    assert evs[..i + 1][..i] == evs[..i];
  }

  /**
   * One turn of the event loop: from the progress after `i` events, the
   * step's outcome either ends the read with the failed conversion or is
   * the progress after `i + 1` events.
   */
  lemma LoopStep(s: Stream, i: nat, st: Ctx, delivered: seq<Record>, ignored: seq<string>,
                 o: Outcome, wpEdit: Option<Conversion<Record>>)
    requires i < |s.events| && Feed(Initial(), s.events[..i]) == Progress(st, delivered, ignored, None)
    requires o == Step(st, s.events[i])
    requires wpEdit == if o.record.Some? then Some(FromXml(o.record.value)) else None
    ensures var ig := ignored + (if o.ignored.Some? then [o.ignored.value] else []);
      && (wpEdit.Some? && !wpEdit.value.Converted? ==> Read(true, s) == ReadOutcome(Raised(wpEdit.value), delivered, ig))
      && (wpEdit.Some? && wpEdit.value.Converted? ==>
            Feed(Initial(), s.events[..i + 1]) == Progress(o.ctx, delivered + [wpEdit.value.value], ig, None))
      && (wpEdit.None? ==> Feed(Initial(), s.events[..i + 1]) == Progress(o.ctx, delivered, ig, None))
  {
    FeedPrefixStep(Initial(), s.events, i);
    if wpEdit.Some? && !wpEdit.value.Converted? {
      ReadStopsAt(s, i);
    }
  }

  /** Once a conversion fails, what was read so far is the outcome. */
  lemma ReadStopsAt(s: Stream, i: nat)
    requires i < |s.events| && Feed(Initial(), s.events[..i + 1]).failure.Some?
    ensures var q := Feed(Initial(), s.events[..i + 1]);
            Read(true, s) == ReadOutcome(Raised(q.failure.value), q.delivered, q.ignored)
  {
    FeedConcat(Initial(), s.events[..i + 1], s.events[i + 1..]);
    assert s.events[..i + 1] + s.events[i + 1..] == s.events;
    FeedAfterFailure(Feed(Initial(), s.events[..i + 1]), s.events[i + 1..]);
  }

  /** `read_file(path, callback_func)`: the event loop over a context updated in place. */
  method ReadFile(present: bool, s: Stream) returns (outcome: ReadOutcome)
    ensures outcome == Read(present, s)
  {
    if !present {
      return ReadOutcome(Returned(false), [], []);
    }
    var ctx := new ProcessingContext(false);
    var delivered: seq<Record> := [];
    var ignored: seq<string> := [];
    var i := 0;
    while i < |s.events|
      invariant 0 <= i <= |s.events|
      invariant Feed(Initial(), s.events[..i]) == Progress(ctx.State(), delivered, ignored, None)
    {
      var ev := s.events[i];
      ghost var o := Step(ctx.State(), ev);
      ghost var before := ctx.State();
      var wpEdit, warned := ctx.ProcessElement(ev);
      LoopStep(s, i, before, delivered, ignored, o, wpEdit);
      if warned.Some? {
        ignored := ignored + [warned.value];
      }
      if wpEdit.Some? {
        if !wpEdit.value.Converted? {
          return ReadOutcome(Raised(wpEdit.value), delivered, ignored);
        }
        delivered := delivered + [wpEdit.value.value];
      }
      i := i + 1;
    }
    assert s.events[..i] == s.events;
    outcome := ReadOutcome(Returned(s.wellFormed), delivered, ignored);
  }
}
