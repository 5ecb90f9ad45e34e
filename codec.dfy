/**
 * The WPEdit codec end to end: the element `generate_wp_edit` builds,
 * indented as `_xml_to_string` does, yields events which `read_file` turns
 * back into one record carrying the stored values.
 */
module Codec {
  import opened Wrappers
  import opened Strings
  import opened Models
  import opened Xml
  import opened EditSetParser
  import Dumper

  // ---------------------------------------------------------------------
  // Indentation does not change what the parser reads

  /** The tags whose own text the parser never stores: the WPEdit element and its blocks. */
  predicate IgnoresText(tag: string)
  {
    tag in {"WPEdit", "EditDB", "common", "current", "previous", "ReviewInterface", "core_scores"}
  }

  function Erase(ev: Event): Event
  {
    if IgnoresText(ev.tag) then ev.(text := None) else ev
  }

  function EraseAll(evs: seq<Event>): (r: seq<Event>)
    ensures |r| == |evs|
  {
    seq(|evs|, i requires 0 <= i < |evs| => Erase(evs[i]))
  }

  /** Every element with children has one of the tags whose text is not read. */
  predicate Shaped(e: Element)
    decreases e
  {
    (e.children != [] ==> IgnoresText(e.tag)) && forall i | 0 <= i < |e.children| :: Shaped(e.children[i])
  }

  /** The text of a block's own events does not change what a step does. */
  lemma StepErase(ctx: Ctx, ev: Event)
    ensures Step(ctx, Erase(ev)) == Step(ctx, ev)
  {
  }

  lemma {:induction false} FeedErase(p: Progress, evs: seq<Event>)
    ensures Feed(p, EraseAll(evs)) == Feed(p, evs)
    decreases |evs|
  {
    if evs != [] {
      var n := |evs| - 1;
      assert EraseAll(evs)[..n] == EraseAll(evs[..n]);
      FeedErase(p, evs[..n]);
      StepErase(Feed(p, evs[..n]).ctx, evs[n]);
    }
  }

  lemma EraseConcat(a: seq<Event>, b: seq<Event>)
    ensures EraseAll(a + b) == EraseAll(a) + EraseAll(b)
  {
  }

  /** The events of an element depend on its tag, text and children, never on its tail. */
  lemma {:induction false} EventsFromSameChildren(a: Element, b: Element, from: nat)
    requires a.children == b.children
    ensures EventsFrom(a, from) == EventsFrom(b, from)
    decreases |a.children| - from
  {
    if from < |a.children| {
      EventsFromSameChildren(a, b, from + 1);
    }
  }

  lemma {:induction false} IndentNodeEvents(e: Element, level: nat)
    requires Shaped(e) && e.children != []
    ensures EraseAll(Events(IndentNode(e, level))) == EraseAll(Events(e))
    decreases e, |e.children| + 1
  {
    var n := IndentNode(e, level);
    IndentFromEvents(e, level, 0);
    EraseConcat([Event(Start, n.tag, TextSeen(n.text))] + EventsFrom(n, 0), [Event(End, n.tag, TextSeen(n.text))]);
    EraseConcat([Event(Start, n.tag, TextSeen(n.text))], EventsFrom(n, 0));
    EraseConcat([Event(Start, e.tag, TextSeen(e.text))] + EventsFrom(e, 0), [Event(End, e.tag, TextSeen(e.text))]);
    EraseConcat([Event(Start, e.tag, TextSeen(e.text))], EventsFrom(e, 0));
  }

  lemma {:induction false} IndentFromEvents(e: Element, level: nat, from: nat)
    requires Shaped(e)
    ensures EraseAll(EventsFrom(IndentNode(e, level), from)) == EraseAll(EventsFrom(e, from))
    decreases e, |e.children| - from
  {
    var n := IndentNode(e, level);
    if from < |e.children| {
      var c := e.children[from];
      IndentFromSuffix(e, level, 0, from);
      assert n.children[from] == IndentChild(c, level, from == |e.children| - 1);
      IndentChildEvents(c, level, from == |e.children| - 1);
      IndentFromEvents(e, level, from + 1);
      EraseConcat(Events(n.children[from]), EventsFrom(n, from + 1));
      EraseConcat(Events(c), EventsFrom(e, from + 1));
    }
  }

  lemma {:induction false} IndentChildEvents(c: Element, level: nat, last: bool)
    requires Shaped(c)
    ensures EraseAll(Events(IndentChild(c, level, last))) == EraseAll(Events(c))
    decreases c, |c.children| + 2
  {
    var child := IndentChild(c, level, last);
    if c.children == [] {
      EventsFromSameChildren(child, c, 0);
    } else {
      EventsFromSameChildren(child, IndentNode(c, level + 1), 0);
      IndentNodeEvents(c, level + 1);
    }
  }

  /** `ET.indent` changes only the text of blocks, so the parser reads an indented tree as the tree itself. */
  lemma IndentInvisible(p: Progress, t: Element)
    requires Shaped(t)
    ensures Feed(p, Events(Indent(t))) == Feed(p, Events(t))
  {
    if t.children != [] {
      IndentNodeEvents(t, 0);
      FeedErase(p, Events(IndentNode(t, 0)));
      FeedErase(p, Events(t));
    }
  }

  // ---------------------------------------------------------------------
  // Feeding an element's events, element by element

  function Visit(p: Progress, c: Element): Progress
    decreases c, |c.children| + 1
  {
    Advance(VisitFrom(Advance(p, Event(Start, c.tag, TextSeen(c.text))), c, 0), Event(End, c.tag, TextSeen(c.text)))
  }

  function VisitFrom(p: Progress, e: Element, from: nat): Progress
    decreases e, |e.children| - from
  {
    if from >= |e.children| then p else VisitFrom(Visit(p, e.children[from]), e, from + 1)
  }

  lemma FeedOne(p: Progress, ev: Event)
    ensures Feed(p, [ev]) == Advance(p, ev)
  {
    assert [ev][..0] == [];
  }

  lemma {:induction false} FeedEvents(p: Progress, c: Element)
    ensures Feed(p, Events(c)) == Visit(p, c)
    decreases c, |c.children| + 1
  {
    var s, t := Event(Start, c.tag, TextSeen(c.text)), Event(End, c.tag, TextSeen(c.text));
    FeedConcat(p, [s] + EventsFrom(c, 0), [t]);
    FeedConcat(p, [s], EventsFrom(c, 0));
    FeedOne(p, s);
    FeedOne(Feed(p, [s] + EventsFrom(c, 0)), t);
    FeedEventsFrom(Advance(p, s), c, 0);
  }

  lemma {:induction false} FeedEventsFrom(p: Progress, e: Element, from: nat)
    ensures Feed(p, EventsFrom(e, from)) == VisitFrom(p, e, from)
    decreases e, |e.children| - from
  {
    if from < |e.children| {
      FeedConcat(p, Events(e.children[from]), EventsFrom(e, from + 1));
      FeedEvents(p, e.children[from]);
      FeedEventsFrom(Visit(p, e.children[from]), e, from + 1);
    }
  }

  // ---------------------------------------------------------------------
  // The WPEdit element, block by block

  /** Inside an edit and outside every block, nothing handed over or logged. */
  function Inside(r: Raw): Progress
  {
    Progress(Ctx(r, true, false, false, false, false), [], [], None)
  }

  /** What the end of a leaf does to the edit's own fields outside every block. */
  function Put(r: Raw, tag: string, v: Option<string>): Raw
  {
    if tag in EditFields then r.(fields := r.fields[tag := v])
    else if MappedField(tag).Some? then r.(fields := r.fields[MappedField(tag).value := v])
    else r
  }

  /** A leaf outside every block: one of the edit fields is stored, mapped or not, and anything else is skipped. */
  lemma VisitLeaf(r: Raw, tag: string, text: Option<string>)
    requires tag !in BlockTags && tag != "WPEdit"
    ensures Visit(Inside(r), Leaf(tag, text)) == Inside(Put(r, tag, TextSeen(text)))
  {
  }

  lemma NumberSeen(n: int)
    ensures TextSeen(Dumper.Number(n)) == Dumper.Number(n)
  {
    IntToStringNonEmpty(n);
  }

  /** The events of a childless element: its start and its end. */
  lemma VisitChildless(p: Progress, c: Element)
    requires c.children == []
    ensures Visit(p, c) == Advance(Advance(p, Event(Start, c.tag, TextSeen(c.text))), Event(End, c.tag, TextSeen(c.text)))
  {
  }

  /** The EditDB block: only its `source` is kept, read at its start. */
  lemma VisitEditDb(r: Raw, e: Edit, source: Option<string>)
    ensures Visit(Inside(r), Dumper.EditDbBlock(e, source)) ==
            Inside(if source.Some? then r.(fields := r.fields["editdb_source" := TextSeen(source)]) else r)
  {
    var b := Dumper.EditDbBlock(e, source);
    var q := Advance(Inside(r), Event(Start, "EditDB", None));
    assert q == Progress(Ctx(r, true, false, false, true, false), [], [], None);
    VisitChildless(q, b.children[0]);
    if source.Some? {
      assert b.children == [Leaf("isActive", Some("true")), Leaf("source", source), Leaf("lastUpdated", Dumper.Number(e.lastUpdated))];
      VisitChildless(q, b.children[1]);
      var q2 := Visit(q, b.children[1]);
      assert q2 == Progress(Ctx(r.(fields := r.fields["editdb_source" := TextSeen(source)]), true, false, false, true, false), [], [], None);
      VisitChildless(q2, b.children[2]);
      assert VisitFrom(q2, b, 2) == VisitFrom(q2, b, 3) == q2;
      assert VisitFrom(q, b, 0) == VisitFrom(q, b, 1) == VisitFrom(q2, b, 2);
    } else {
      assert b.children == [Leaf("isActive", Some("true")), Leaf("lastUpdated", Dumper.Number(e.lastUpdated))];
      VisitChildless(q, b.children[1]);
      assert VisitFrom(q, b, 0) == VisitFrom(q, b, 1) == VisitFrom(q, b, 2) == q;
    }
  }

  /** Inside `current` (or else `previous`), with no other block open. */
  function InRevision(r: Raw, current: bool): Progress
  {
    Progress(Ctx(r, true, current, !current, false, false), [], [], None)
  }

  /** A revision leaf is stored at its end in the open revision's dictionary. */
  lemma VisitRevisionLeaf(r: Raw, current: bool, tag: string, text: Option<string>)
    requires tag in RevisionFields
    ensures Visit(InRevision(r, current), Leaf(tag, text)) ==
            InRevision(if current then r.(current := r.current[tag := TextSeen(text)])
                       else r.(previous := r.previous[tag := TextSeen(text)]), current)
  {
    VisitChildless(InRevision(r, current), Leaf(tag, text));
  }

  /** One step along a block's children outside every block: the child at `i` is a leaf stored under its tag. */
  lemma VisitFieldChild(r: Raw, b: Element, i: nat)
    requires i < |b.children| && b.children[i].children == [] && b.children[i].tag in EditFields
    ensures VisitFrom(Inside(r), b, i) ==
            VisitFrom(Inside(r.(fields := r.fields[b.children[i].tag := TextSeen(b.children[i].text)])), b, i + 1)
  {
    VisitChildless(Inside(r), b.children[i]);
  }

  /** Leaves whose ends store their text under their own tag. */
  predicate FieldLeaves(cs: seq<Element>)
  {
    forall i | 0 <= i < |cs| :: cs[i].children == [] && cs[i].tag in EditFields
  }

  /** The edit fields after a run of field leaves, in document order. */
  function StoreLeaves(f: Dict, cs: seq<Element>): Dict
    decreases |cs|
  {
    if cs == [] then f else StoreLeaves(f[cs[0].tag := TextSeen(cs[0].text)], cs[1..])
  }

  lemma {:induction false} VisitFieldsFrom(r: Raw, b: Element, lo: nat, hi: nat)
    requires lo <= hi <= |b.children| && FieldLeaves(b.children[lo..hi])
    ensures VisitFrom(Inside(r), b, lo) ==
            VisitFrom(Inside(r.(fields := StoreLeaves(r.fields, b.children[lo..hi]))), b, hi)
    decreases hi - lo
  {
    if lo < hi {
      var cs := b.children[lo..hi];
      assert cs[0] == b.children[lo] && cs[1..] == b.children[lo + 1..hi];
      VisitFieldChild(r, b, lo);
      VisitFieldsFrom(r.(fields := r.fields[b.children[lo].tag := TextSeen(b.children[lo].text)]), b, lo + 1, hi);
    }
  }

  /** A block outside every block whose children are all field leaves stores them in order. */
  lemma VisitFieldBlock(r: Raw, b: Element)
    requires b.tag !in BlockTags && b.tag != "WPEdit" && b.tag !in EditFields && MappedField(b.tag).None?
    requires FieldLeaves(b.children)
    ensures Visit(Inside(r), b) == Inside(r.(fields := StoreLeaves(r.fields, b.children)))
  {
    assert b.children[0..|b.children|] == b.children;
    VisitFieldsFrom(r, b, 0, |b.children|);
  }

  /** The keys a run of field leaves adds: their tags. */
  lemma {:induction false} StoreLeavesKeys(f: Dict, cs: seq<Element>)
    ensures StoreLeaves(f, cs).Keys == f.Keys + set k | k in Tags(cs)
    decreases |cs|
  {
    if cs != [] {
      StoreLeavesKeys(f[cs[0].tag := TextSeen(cs[0].text)], cs[1..]);
      assert Tags(cs) == [cs[0].tag] + Tags(cs[1..]);
    }
  }

  /** A tag that occurs once in the run maps to its leaf's text. */
  lemma {:induction false} StoreLeavesAt(f: Dict, cs: seq<Element>, i: nat)
    requires i < |cs| && forall j | 0 <= j < |cs| && j != i :: cs[j].tag != cs[i].tag
    ensures cs[i].tag in StoreLeaves(f, cs) && StoreLeaves(f, cs)[cs[i].tag] == TextSeen(cs[i].text)
    decreases |cs|
  {
    var g := f[cs[0].tag := TextSeen(cs[0].text)];
    if i == 0 {
      StoreLeavesElse(g, cs[1..], cs[0].tag);
    } else {
      assert cs[1..][i - 1] == cs[i];
      StoreLeavesAt(g, cs[1..], i - 1);
    }
  }

  /** A tag that does not occur in the run keeps what it had. */
  lemma {:induction false} StoreLeavesElse(f: Dict, cs: seq<Element>, k: string)
    requires forall j | 0 <= j < |cs| :: cs[j].tag != k
    ensures (k in StoreLeaves(f, cs) <==> k in f) && (k in f ==> StoreLeaves(f, cs)[k] == f[k])
    decreases |cs|
  {
    if cs != [] {
      StoreLeavesElse(f[cs[0].tag := TextSeen(cs[0].text)], cs[1..], k);
    }
  }

  /** The `common` block stores its six leaves as edit fields. */
  lemma VisitCommon(r: Raw, td: TrainingData, namespace: string)
    ensures Visit(Inside(r), Dumper.CommonBlock(td, namespace)) ==
            Inside(r.(fields := StoreLeaves(r.fields, Dumper.CommonBlock(td, namespace).children)))
  {
    VisitFieldBlock(r, Dumper.CommonBlock(td, namespace));
  }

  /** The `current` block fills the current revision's dictionary with minor, timestamp and text. */
  lemma VisitCurrent(r: Raw, c: RevisionRow)
    ensures Visit(Inside(r), Dumper.CurrentBlock(c)) ==
            Inside(r.(current := r.current["minor" := Some(Dumper.BoolText(c.minor))]
                                          ["timestamp" := Dumper.Number(c.timestamp)]
                                          ["text" := TextSeen(Some(c.text))]))
  {
    var b := Dumper.CurrentBlock(c);
    var q0 := Advance(Inside(r), Event(Start, "current", None));
    assert q0 == InRevision(r, true);
    NumberSeen(c.timestamp);
    VisitRevisionLeaf(q0.ctx.edit, true, "minor", Some(Dumper.BoolText(c.minor)));
    var q1 := Visit(q0, b.children[0]);
    VisitRevisionLeaf(q1.ctx.edit, true, "timestamp", Dumper.Number(c.timestamp));
    var q2 := Visit(q1, b.children[1]);
    VisitRevisionLeaf(q2.ctx.edit, true, "text", Some(c.text));
    var q3 := Visit(q2, b.children[2]);
    assert VisitFrom(q0, b, 0) == VisitFrom(q1, b, 1) == VisitFrom(q2, b, 2) == VisitFrom(q3, b, 3) == q3;
  }

  /** The `previous` block fills the previous revision's dictionary with timestamp and text, or leaves it empty. */
  lemma VisitPrevious(r: Raw, p: Option<RevisionRow>)
    ensures Visit(Inside(r), Dumper.PreviousBlock(p)) ==
            Inside(if p.Some? then r.(previous := r.previous["timestamp" := Dumper.Number(p.value.timestamp)]
                                                            ["text" := TextSeen(Some(p.value.text))])
                   else r)
  {
    var b := Dumper.PreviousBlock(p);
    var q0 := Advance(Inside(r), Event(Start, "previous", None));
    assert q0 == InRevision(r, false);
    if p.Some? {
      NumberSeen(p.value.timestamp);
      VisitRevisionLeaf(q0.ctx.edit, false, "timestamp", Dumper.Number(p.value.timestamp));
      var q1 := Visit(q0, b.children[0]);
      VisitRevisionLeaf(q1.ctx.edit, false, "text", Some(p.value.text));
      var q2 := Visit(q1, b.children[1]);
      assert VisitFrom(q0, b, 0) == VisitFrom(q1, b, 1) == VisitFrom(q2, b, 2) == q2;
    } else {
      assert VisitFrom(q0, b, 0) == q0;
    }
  }

  /** Inside ReviewInterface, with no other block open. */
  function InReview(r: Raw): Progress
  {
    Progress(Ctx(r, true, false, false, false, true), [], [], None)
  }

  /** One step along ReviewInterface's children: a reviewer count is stored at its end, anything else is skipped. */
  lemma VisitReviewChild(r: Raw, b: Element, i: nat)
    requires i < |b.children| && b.children[i].children == [] && b.children[i].tag !in BlockTags && b.children[i].tag != "WPEdit"
    ensures VisitFrom(InReview(r), b, i) ==
            VisitFrom(InReview(if b.children[i].tag in ReviewInterfaceFields
                               then r.(fields := r.fields[b.children[i].tag := TextSeen(b.children[i].text)])
                               else r), b, i + 1)
  {
    VisitChildless(InReview(r), b.children[i]);
  }

  /** The ReviewInterface block keeps the two reviewer counts, which are there only when the edit is Done. */
  lemma VisitReviewInterface(r: Raw, e: Edit)
    ensures Visit(Inside(r), Dumper.ReviewInterfaceBlock(e)) ==
            Inside(if e.status == Done then
                     r.(fields := r.fields["reviewers" := Dumper.Number(e.numberOfReviewers)]
                                          ["reviewers_agreeing" := Dumper.Number(e.numberOfReviewersAgreeing)])
                   else r)
  {
    var b := Dumper.ReviewInterfaceBlock(e);
    assert Advance(Inside(r), Event(Start, "ReviewInterface", None)) == InReview(r);
    VisitReviewChild(r, b, 0);
    if e.status == Done {
      NumberSeen(e.numberOfReviewers);
      NumberSeen(e.numberOfReviewersAgreeing);
      var r1 := r.(fields := r.fields["reviewers" := Dumper.Number(e.numberOfReviewers)]);
      var r2 := r1.(fields := r1.fields["reviewers_agreeing" := Dumper.Number(e.numberOfReviewersAgreeing)]);
      VisitReviewChild(r, b, 1);
      VisitReviewChild(r1, b, 2);
      assert VisitFrom(InReview(r2), b, 3) == InReview(r2);
      assert Advance(InReview(r2), Event(End, "ReviewInterface", None)) == Inside(r2);
    } else {
      assert VisitFrom(InReview(r), b, 1) == InReview(r);
      assert Advance(InReview(r), Event(End, "ReviewInterface", None)) == Inside(r);
    }
  }

  /** A leaf outside every block that is not an edit field. */
  predicate Skipped(c: Element)
  {
    && c.children == [] && c.tag !in BlockTags && c.tag != "WPEdit" && c.tag !in EditFields
    && MappedField(c.tag).None?
  }

  lemma {:induction false} VisitSkippedFrom(r: Raw, b: Element, lo: nat)
    requires forall i | lo <= i < |b.children| :: Skipped(b.children[i])
    ensures VisitFrom(Inside(r), b, lo) == Inside(r)
    decreases |b.children| - lo
  {
    if lo < |b.children| {
      var c := b.children[lo];
      VisitChildless(Inside(r), c);
      assert Advance(Inside(r), Event(Start, c.tag, TextSeen(c.text))) == Inside(r);
      assert Advance(Inside(r), Event(End, c.tag, TextSeen(c.text))) == Inside(r);
      VisitSkippedFrom(r, b, lo + 1);
    }
  }

  /** Nothing in core_scores is stored. */
  lemma VisitScores(r: Raw, sd: ScoreData)
    ensures Visit(Inside(r), Dumper.ScoresBlock(sd)) == Inside(r)
  {
    ScoresSkipped(sd);
    VisitScoresBlock(r, Dumper.ScoresBlock(sd));
  }

  lemma ScoresSkipped(sd: ScoreData)
    ensures var b := Dumper.ScoresBlock(sd);
            b.tag == "core_scores" && b.text.None? && forall i | 0 <= i < |b.children| :: Skipped(b.children[i])
  {
  }

  lemma VisitScoresBlock(r: Raw, b: Element)
    requires b.tag == "core_scores" && b.text.None? && forall i | 0 <= i < |b.children| :: Skipped(b.children[i])
    ensures Visit(Inside(r), b) == Inside(r)
  {
    assert Advance(Inside(r), Event(Start, "core_scores", None)) == Inside(r);
    VisitSkippedFrom(r, b, 0);
    assert Advance(Inside(r), Event(End, "core_scores", None)) == Inside(r);
  }

  // ---------------------------------------------------------------------
  // The whole WPEdit element

  function Empty(): Raw
  {
    Raw(map[], map[], map[])
  }

  lemma ChildStep(t: Element, i: nat, r: Raw, r': Raw)
    requires i < |t.children| && Visit(Inside(r), t.children[i]) == Inside(r')
    ensures VisitFrom(Inside(r), t, i) == VisitFrom(Inside(r'), t, i + 1)
  {
  }

  /** The seven edit fields written between EditID and common. */
  lemma HeadFieldLeaves(cs: seq<Element>)
    requires Tags(cs) == EditFields[..7] && forall i | 0 <= i < |cs| :: cs[i].children == []
    ensures FieldLeaves(cs)
  {
    forall i | 0 <= i < |cs|
      ensures cs[i].tag in EditFields
    {
      assert cs[i].tag == EditFields[i];
    }
  }

  /** The first ten children of a dumped WPEdit element. */
  lemma TreeHead(e: Edit, td: TrainingData, current: RevisionRow, previous: Option<RevisionRow>,
                 score: Option<ScoreData>, source: Option<string>, namespace: string)
    ensures var t := Dumper.WpEditTree(e, td, current, previous, score, source, namespace);
      && 14 <= |t.children|
      && t.children[0] == Dumper.EditDbBlock(e, source)
      && t.children[1] == Leaf("EditType", Some("change"))
      && t.children[2] == Leaf("EditID", Dumper.Number(e.id))
      && t.children[3..10] == Dumper.EditLeaves(td)
      && Tags(t.children[3..10]) == EditFields[..7]
      && forall i | 3 <= i < 10 :: t.children[i].children == []
  {
    var t := Dumper.WpEditTree(e, td, current, previous, score, source, namespace);
    var head := [Dumper.EditDbBlock(e, source), Leaf("EditType", Some("change")), Leaf("EditID", Dumper.Number(e.id))];
    var blocks := [Dumper.CommonBlock(td, namespace), Dumper.CurrentBlock(current),
                   Dumper.PreviousBlock(previous), Dumper.ReviewInterfaceBlock(e)];
    Middle(head, Dumper.EditLeaves(td), blocks, Dumper.VerdictAndScores(e, score));
    EditLeavesTags(td);
  }

  lemma Middle<T>(a: seq<T>, b: seq<T>, c: seq<T>, d: seq<T>)
    ensures (a + b + c + d)[|a|..|a| + |b|] == b
  {
  }

  lemma EditLeavesTags(td: TrainingData)
    ensures Tags(Dumper.EditLeaves(td)) == EditFields[..7]
    ensures forall i | 0 <= i < 7 :: Dumper.EditLeaves(td)[i].children == []
  {
  }

  /** Children ten to thirteen of a dumped WPEdit element, and what follows them. */
  lemma TreeBlocks(e: Edit, td: TrainingData, current: RevisionRow, previous: Option<RevisionRow>,
                   score: Option<ScoreData>, source: Option<string>, namespace: string)
    ensures var t := Dumper.WpEditTree(e, td, current, previous, score, source, namespace);
      && 14 <= |t.children|
      && t.children[10] == Dumper.CommonBlock(td, namespace)
      && t.children[11] == Dumper.CurrentBlock(current)
      && t.children[12] == Dumper.PreviousBlock(previous)
      && t.children[13] == Dumper.ReviewInterfaceBlock(e)
      && t.children[14..] == Dumper.VerdictAndScores(e, score)
  {
    var t := Dumper.WpEditTree(e, td, current, previous, score, source, namespace);
    var front := [Dumper.EditDbBlock(e, source), Leaf("EditType", Some("change")), Leaf("EditID", Dumper.Number(e.id))] +
                 Dumper.EditLeaves(td);
    var blocks := [Dumper.CommonBlock(td, namespace), Dumper.CurrentBlock(current),
                   Dumper.PreviousBlock(previous), Dumper.ReviewInterfaceBlock(e)];
    assert (front + blocks + Dumper.VerdictAndScores(e, score))[|front + blocks|..] == Dumper.VerdictAndScores(e, score);
  }

  /** EditID is stored as edit_id and EditType is skipped. */
  lemma VisitTypeAndId(t: Element, r: Raw, id: Option<string>)
    requires 3 <= |t.children| && t.children[1] == Leaf("EditType", Some("change")) && t.children[2] == Leaf("EditID", id)
    ensures VisitFrom(Inside(r), t, 1) == VisitFrom(Inside(r.(fields := r.fields["edit_id" := TextSeen(id)])), t, 3)
  {
    VisitLeaf(r, "EditType", Some("change"));
    ChildStep(t, 1, r, r);
    VisitLeaf(r, "EditID", id);
    ChildStep(t, 2, r, r.(fields := r.fields["edit_id" := TextSeen(id)]));
  }

  /** From EditDB through user_reg_time. */
  lemma VisitHead(t: Element, e: Edit, source: Option<string>)
    requires 10 <= |t.children| && t.children[0] == Dumper.EditDbBlock(e, source)
    requires t.children[1] == Leaf("EditType", Some("change")) && t.children[2] == Leaf("EditID", Dumper.Number(e.id))
    requires FieldLeaves(t.children[3..10])
    ensures var f0: Dict := if source.Some? then map["editdb_source" := TextSeen(source)] else map[];
            VisitFrom(Inside(Empty()), t, 0) ==
            VisitFrom(Inside(Raw(StoreLeaves(f0["edit_id" := Dumper.Number(e.id)], t.children[3..10]), map[], map[])), t, 10)
  {
    var f0: Dict := if source.Some? then map["editdb_source" := TextSeen(source)] else map[];
    var r0 := Raw(f0, map[], map[]);
    var r1 := Raw(f0["edit_id" := Dumper.Number(e.id)], map[], map[]);
    VisitEditDb(Empty(), e, source);
    ChildStep(t, 0, Empty(), r0);
    NumberSeen(e.id);
    VisitTypeAndId(t, r0, Dumper.Number(e.id));
    VisitFieldsFrom(r1, t, 3, 10);
  }

  /** common, current, previous and ReviewInterface. */
  lemma VisitBlocks(t: Element, r: Raw, e: Edit, td: TrainingData, current: RevisionRow, previous: Option<RevisionRow>,
                    namespace: string)
    requires 14 <= |t.children| && r.current == map[] && r.previous == map[]
    requires t.children[10] == Dumper.CommonBlock(td, namespace) && t.children[11] == Dumper.CurrentBlock(current)
    requires t.children[12] == Dumper.PreviousBlock(previous) && t.children[13] == Dumper.ReviewInterfaceBlock(e)
    ensures var f := StoreLeaves(r.fields, Dumper.CommonBlock(td, namespace).children);
            VisitFrom(Inside(r), t, 10) ==
            VisitFrom(Inside(Raw(if e.status == Done then
                                   f["reviewers" := Dumper.Number(e.numberOfReviewers)]
                                    ["reviewers_agreeing" := Dumper.Number(e.numberOfReviewersAgreeing)]
                                 else f,
                                 map["minor" := Some(Dumper.BoolText(current.minor))]["timestamp" := Dumper.Number(current.timestamp)]
                                    ["text" := TextSeen(Some(current.text))],
                                 if previous.Some? then map["timestamp" := Dumper.Number(previous.value.timestamp)]
                                                           ["text" := TextSeen(Some(previous.value.text))]
                                 else map[])), t, 14)
  {
    var r1 := r.(fields := StoreLeaves(r.fields, Dumper.CommonBlock(td, namespace).children));
    VisitCommon(r, td, namespace);
    ChildStep(t, 10, r, r1);
    var r2 := r1.(current := map["minor" := Some(Dumper.BoolText(current.minor))]["timestamp" := Dumper.Number(current.timestamp)]
                                ["text" := TextSeen(Some(current.text))]);
    VisitCurrent(r1, current);
    ChildStep(t, 11, r1, r2);
    var r3 := if previous.Some? then r2.(previous := map["timestamp" := Dumper.Number(previous.value.timestamp)]
                                                       ["text" := TextSeen(Some(previous.value.text))])
              else r2;
    VisitPrevious(r2, previous);
    ChildStep(t, 12, r2, r3);
    VisitReviewInterface(r3, e);
  }

  /** isVandalism, if the edit is Done, and core_scores, if there are scores. */
  lemma VisitTail(t: Element, r: Raw, e: Edit, score: Option<ScoreData>)
    requires 14 <= |t.children|
    requires t.children[14..] ==
               (if e.status == Done then [Leaf("isVandalism", Some(Dumper.BoolText(e.classification == Some(Vandalism))))] else []) +
               (if score.Some? then [Dumper.ScoresBlock(score.value)] else [])
    ensures VisitFrom(Inside(r), t, 14) ==
            Inside(if e.status == Done then r.(fields := r.fields["is_vandalism" := Some(Dumper.BoolText(e.classification == Some(Vandalism)))])
                   else r)
  {
    var r1 := if e.status == Done then r.(fields := r.fields["is_vandalism" := Some(Dumper.BoolText(e.classification == Some(Vandalism)))])
              else r;
    var k := if e.status == Done then 15 else 14;
    if e.status == Done {
      assert t.children[14] == t.children[14..][0];
      VisitLeaf(r, "isVandalism", Some(Dumper.BoolText(e.classification == Some(Vandalism))));
      ChildStep(t, 14, r, r1);
    }
    if score.Some? {
      assert t.children[k] == t.children[14..][k - 14];
      VisitScores(r1, score.value);
      ChildStep(t, k, r1, r1);
      assert VisitFrom(Inside(r1), t, k + 1) == Inside(r1);
    } else {
      assert VisitFrom(Inside(r1), t, k) == Inside(r1);
    }
  }

  /**
   * What the parser has collected when it reaches `</WPEdit>` of a dumped
   * element: the group's name as editdb_source, the edit id as edit_id,
   * the seven edit fields before `common` and the six inside it as they
   * were written, and for a Done edit the reviewer counts and is_vandalism;
   * the current revision's three leaves, and the previous revision's two
   * if there is one.
   */
  function ParsedRaw(e: Edit, td: TrainingData, current: RevisionRow, previous: Option<RevisionRow>,
                     score: Option<ScoreData>, source: Option<string>, namespace: string): Raw
  {
    var f0: Dict := if source.Some? then map["editdb_source" := TextSeen(source)] else map[];
    var f1 := StoreLeaves(f0["edit_id" := Dumper.Number(e.id)], Dumper.EditLeaves(td));
    var f2 := StoreLeaves(f1, Dumper.CommonBlock(td, namespace).children);
    var f3 := if e.status == Done then
                f2["reviewers" := Dumper.Number(e.numberOfReviewers)]
                  ["reviewers_agreeing" := Dumper.Number(e.numberOfReviewersAgreeing)]
              else f2;
    var f4 := if e.status == Done then f3["is_vandalism" := Some(Dumper.BoolText(e.classification == Some(Vandalism)))]
              else f3;
    Raw(f4,
        map["minor" := Some(Dumper.BoolText(current.minor))]["timestamp" := Dumper.Number(current.timestamp)]
           ["text" := TextSeen(Some(current.text))],
        if previous.Some? then map["timestamp" := Dumper.Number(previous.value.timestamp)]["text" := TextSeen(Some(previous.value.text))]
        else map[])
  }

  /** Between `<WPEdit>` and `</WPEdit>` the parser collects exactly `ParsedRaw`. */
  lemma VisitDumped(e: Edit, td: TrainingData, current: RevisionRow, previous: Option<RevisionRow>,
                    score: Option<ScoreData>, source: Option<string>, namespace: string)
    ensures VisitFrom(Inside(Empty()), Dumper.WpEditTree(e, td, current, previous, score, source, namespace), 0) ==
            Inside(ParsedRaw(e, td, current, previous, score, source, namespace))
  {
    var t := Dumper.WpEditTree(e, td, current, previous, score, source, namespace);
    var f0: Dict := if source.Some? then map["editdb_source" := TextSeen(source)] else map[];
    var f1 := StoreLeaves(f0["edit_id" := Dumper.Number(e.id)], t.children[3..10]);
    TreeHead(e, td, current, previous, score, source, namespace);
    HeadFieldLeaves(t.children[3..10]);
    VisitHead(t, e, source);
    TreeBlocks(e, td, current, previous, score, source, namespace);
    VisitBlocks(t, Raw(f1, map[], map[]), e, td, current, previous, namespace);
    var p := ParsedRaw(e, td, current, previous, score, source, namespace);
    var f2 := StoreLeaves(f1, Dumper.CommonBlock(td, namespace).children);
    var f3 := if e.status == Done then
                f2["reviewers" := Dumper.Number(e.numberOfReviewers)]
                  ["reviewers_agreeing" := Dumper.Number(e.numberOfReviewersAgreeing)]
              else f2;
    VisitTail(t, Raw(f3, p.current, p.previous), e, score);
  }

  /** An element with no children, or a block whose children have none, is shaped. */
  lemma ShapedFlat(b: Element)
    requires b.children != [] ==> IgnoresText(b.tag)
    requires forall i | 0 <= i < |b.children| :: b.children[i].children == []
    ensures Shaped(b)
  {
    forall i | 0 <= i < |b.children|
      ensures Shaped(b.children[i])
    {
      assert b.children[i].children == [];
    }
  }

  /** Every element of a run is shaped. */
  predicate AllShaped(cs: seq<Element>)
  {
    forall i | 0 <= i < |cs| :: Shaped(cs[i])
  }

  /** A run of leaves and of blocks of leaves, each block one that ignores text, is shaped. */
  lemma FlatRunShaped(cs: seq<Element>)
    requires forall i | 0 <= i < |cs| :: cs[i].children != [] ==> IgnoresText(cs[i].tag)
    requires forall i, j | 0 <= i < |cs| && 0 <= j < |cs[i].children| :: cs[i].children[j].children == []
    ensures AllShaped(cs)
  {
    forall i | 0 <= i < |cs|
      ensures Shaped(cs[i])
    {
      ShapedFlat(cs[i]);
    }
  }

  lemma AllShapedConcat(a: seq<Element>, b: seq<Element>)
    requires AllShaped(a) && AllShaped(b)
    ensures AllShaped(a + b)
  {
    forall i | 0 <= i < |a + b|
      ensures Shaped((a + b)[i])
    {
      if i < |a| {
        assert (a + b)[i] == a[i];
      } else {
        assert (a + b)[i] == b[i - |a|];
      }
    }
  }

  lemma NodeShaped(tag: string, cs: seq<Element>)
    requires IgnoresText(tag) && AllShaped(cs)
    ensures Shaped(Node(tag, cs))
  {
  }

  lemma HeadShaped(e: Edit, source: Option<string>)
    ensures AllShaped([Dumper.EditDbBlock(e, source), Leaf("EditType", Some("change")), Leaf("EditID", Dumper.Number(e.id))])
  {
    FlatRunShaped([Dumper.EditDbBlock(e, source), Leaf("EditType", Some("change")), Leaf("EditID", Dumper.Number(e.id))]);
  }

  lemma BlocksShaped(e: Edit, td: TrainingData, current: RevisionRow, previous: Option<RevisionRow>, namespace: string)
    ensures AllShaped([Dumper.CommonBlock(td, namespace), Dumper.CurrentBlock(current),
                       Dumper.PreviousBlock(previous), Dumper.ReviewInterfaceBlock(e)])
  {
    FlatRunShaped([Dumper.CommonBlock(td, namespace), Dumper.CurrentBlock(current),
                   Dumper.PreviousBlock(previous), Dumper.ReviewInterfaceBlock(e)]);
  }

  lemma TailShaped(e: Edit, score: Option<ScoreData>)
    ensures AllShaped(Dumper.VerdictAndScores(e, score))
  {
    FlatRunShaped(Dumper.VerdictAndScores(e, score));
  }

  /** Every element of a dumped WPEdit element that has children is WPEdit or one of its blocks. */
  lemma DumpedShaped(e: Edit, td: TrainingData, current: RevisionRow, previous: Option<RevisionRow>,
                     score: Option<ScoreData>, source: Option<string>, namespace: string)
    ensures Shaped(Dumper.WpEditTree(e, td, current, previous, score, source, namespace))
  {
    var head := [Dumper.EditDbBlock(e, source), Leaf("EditType", Some("change")), Leaf("EditID", Dumper.Number(e.id))];
    var leaves := Dumper.EditLeaves(td);
    var blocks := [Dumper.CommonBlock(td, namespace), Dumper.CurrentBlock(current),
                   Dumper.PreviousBlock(previous), Dumper.ReviewInterfaceBlock(e)];
    var tail := Dumper.VerdictAndScores(e, score);
    HeadShaped(e, source);
    FlatRunShaped(leaves);
    BlocksShaped(e, td, current, previous, namespace);
    TailShaped(e, score);
    AllShapedConcat(head, leaves);
    AllShapedConcat(head + leaves, blocks);
    AllShapedConcat(head + leaves + blocks, tail);
    NodeShaped("WPEdit", head + leaves + blocks + tail);
  }

  /** What was handed over and logged before does not change what later events do. */
  lemma {:induction false} FeedShift(c: Ctx, d: seq<Record>, ig: seq<string>, evs: seq<Event>)
    ensures var a := Feed(Progress(c, [], [], None), evs);
            Feed(Progress(c, d, ig, None), evs) == Progress(a.ctx, d + a.delivered, ig + a.ignored, a.failure)
    decreases |evs|
  {
    if evs != [] {
      FeedShift(c, d, ig, evs[..|evs| - 1]);
    }
  }

  /**
   * The events of a dumped element, indented, read from any point between
   * edits: a fresh context in an edit follows, and the record converted
   * from `ParsedRaw` is handed over, or the conversion's exception escapes.
   */
  lemma FeedDumped(p: Progress, e: Edit, td: TrainingData, current: RevisionRow, previous: Option<RevisionRow>,
                   score: Option<ScoreData>, source: Option<string>, namespace: string)
    requires p.failure.None?
    ensures var c := FromXml(ParsedRaw(e, td, current, previous, score, source, namespace));
            Feed(p, Events(Indent(Dumper.WpEditTree(e, td, current, previous, score, source, namespace)))) ==
            if c.Converted? then Progress(NewContext(true), p.delivered + [c.value], p.ignored, None)
            else Progress(NewContext(true), p.delivered, p.ignored, Some(c))
  {
    var t := Dumper.WpEditTree(e, td, current, previous, score, source, namespace);
    DumpedShaped(e, td, current, previous, score, source, namespace);
    VisitDumped(e, td, current, previous, score, source, namespace);
    FeedWpEdit(p, t, ParsedRaw(e, td, current, previous, score, source, namespace));
  }

  /** A WPEdit element whose children collect `raw` hands over the conversion of `raw`. */
  lemma FeedWpEdit(p: Progress, t: Element, raw: Raw)
    requires p.failure.None? && Shaped(t) && t.tag == "WPEdit" && t.text.None?
    requires VisitFrom(Inside(Empty()), t, 0) == Inside(raw)
    ensures var c := FromXml(raw);
            Feed(p, Events(Indent(t))) ==
            if c.Converted? then Progress(NewContext(true), p.delivered + [c.value], p.ignored, None)
            else Progress(NewContext(true), p.delivered, p.ignored, Some(c))
  {
    var q := Progress(p.ctx, [], [], None);
    IndentInvisible(p, t);
    FeedShift(p.ctx, p.delivered, p.ignored, Events(t));
    FeedEvents(q, t);
    assert Advance(q, Event(Start, "WPEdit", None)) == Inside(Empty());
  }

  // ---------------------------------------------------------------------
  // What the collected dictionary holds

  /** The thirteen edit fields are distinct names. */
  lemma EditFieldsDistinct()
    ensures forall i, j | 0 <= i < j < |EditFields| :: EditFields[i] != EditFields[j]
  {
  }

  /** In a run of leaves with distinct tags, each tag maps to its leaf's text. */
  lemma StoreLeavesDistinct(f: Dict, cs: seq<Element>)
    requires forall i, j | 0 <= i < j < |cs| :: cs[i].tag != cs[j].tag
    ensures forall i | 0 <= i < |cs| :: cs[i].tag in StoreLeaves(f, cs) && StoreLeaves(f, cs)[cs[i].tag] == TextSeen(cs[i].text)
  {
    forall i | 0 <= i < |cs|
      ensures cs[i].tag in StoreLeaves(f, cs) && StoreLeaves(f, cs)[cs[i].tag] == TextSeen(cs[i].text)
    {
      StoreLeavesAt(f, cs, i);
    }
  }

  /** Across two runs whose tags are all distinct, each tag maps to its leaf's text. */
  lemma StoreTwoRunsAt(g: Dict, a: seq<Element>, b: seq<Element>, i: nat)
    requires i < |a + b| && forall j, k | 0 <= j < k < |a + b| :: (a + b)[j].tag != (a + b)[k].tag
    ensures var f := StoreLeaves(StoreLeaves(g, a), b);
            (a + b)[i].tag in f && f[(a + b)[i].tag] == TextSeen((a + b)[i].text)
  {
    var f1 := StoreLeaves(g, a);
    if i < |a| {
      assert forall j | 0 <= j < |a| && j != i :: a[j].tag != a[i].tag by {
        forall j | 0 <= j < |a| && j != i
          ensures a[j].tag != a[i].tag
        {
          assert (a + b)[j] == a[j] && (a + b)[i] == a[i];
        }
      }
      StoreLeavesAt(g, a, i);
      forall j | 0 <= j < |b|
        ensures b[j].tag != a[i].tag
      {
        assert (a + b)[|a| + j] == b[j] && (a + b)[i] == a[i];
      }
      StoreLeavesElse(f1, b, a[i].tag);
    } else {
      var k := i - |a|;
      forall j | 0 <= j < |b| && j != k
        ensures b[j].tag != b[k].tag
      {
        assert (a + b)[|a| + j] == b[j] && (a + b)[i] == b[k];
      }
      StoreLeavesAt(f1, b, k);
    }
  }

  /** Two runs of leaves, the first seven edit fields then the last six, add the edit fields as keys. */
  lemma StoreEditFieldKeys(g: Dict, a: seq<Element>, b: seq<Element>)
    requires Tags(a) == EditFields[..7] && Tags(b) == EditFields[7..]
    ensures StoreLeaves(StoreLeaves(g, a), b).Keys == g.Keys + set k | k in EditFields
  {
    StoreLeavesKeys(g, a);
    StoreLeavesKeys(StoreLeaves(g, a), b);
    assert EditFields == EditFields[..7] + EditFields[7..];
  }

  /** The same two runs: every edit field maps to its leaf's text. */
  lemma StoreEditFields(g: Dict, a: seq<Element>, b: seq<Element>)
    requires Tags(a) == EditFields[..7] && Tags(b) == EditFields[7..]
    ensures var f := StoreLeaves(StoreLeaves(g, a), b);
            forall i | 0 <= i < |EditFields| :: EditFields[i] in f && f[EditFields[i]] == TextSeen((a + b)[i].text)
  {
    TagsConcat(a, b);
    assert EditFields[..7] + EditFields[7..] == EditFields;
    EditFieldTagsDistinct(a + b);
    forall i | 0 <= i < |EditFields|
      ensures EditFields[i] in StoreLeaves(StoreLeaves(g, a), b)
      ensures StoreLeaves(StoreLeaves(g, a), b)[EditFields[i]] == TextSeen((a + b)[i].text)
    {
      assert (a + b)[i].tag == Tags(a + b)[i];
      StoreTwoRunsAt(g, a, b, i);
    }
  }

  /** Leaves tagged with the edit fields in order have distinct tags. */
  lemma EditFieldTagsDistinct(cs: seq<Element>)
    requires Tags(cs) == EditFields
    ensures forall j, k | 0 <= j < k < |cs| :: cs[j].tag != cs[k].tag
  {
    EditFieldsDistinct();
    forall j, k | 0 <= j < k < |cs|
      ensures cs[j].tag != cs[k].tag
    {
      assert cs[j].tag == Tags(cs)[j] && cs[k].tag == Tags(cs)[k];
    }
  }

  /** None of the edit fields is one of the keys stored outside the two runs. */
  lemma EditFieldsOther()
    ensures forall i | 0 <= i < |EditFields| ::
              EditFields[i] !in {"editdb_source", "edit_id", "reviewers", "reviewers_agreeing", "is_vandalism"}
  {
  }

  /** The leaves that carry the thirteen edit fields, in document order. */
  function DumpedFieldLeaves(td: TrainingData, namespace: string): seq<Element>
  {
    Dumper.EditLeaves(td) + Dumper.CommonBlock(td, namespace).children
  }

  /** The collected fields: editdb_source when a group is dumped, edit_id, the edit fields, and for a Done edit the reviewer counts and is_vandalism. */
  lemma ParsedKeys(e: Edit, td: TrainingData, current: RevisionRow, previous: Option<RevisionRow>,
                   score: Option<ScoreData>, source: Option<string>, namespace: string)
    ensures ParsedRaw(e, td, current, previous, score, source, namespace).fields.Keys ==
              (if source.Some? then {"editdb_source"} else {}) + {"edit_id"} + (set k | k in EditFields) +
              (if e.status == Done then {"reviewers", "reviewers_agreeing", "is_vandalism"} else {})
  {
    var f0: Dict := if source.Some? then map["editdb_source" := TextSeen(source)] else map[];
    StoreEditFieldKeys(f0["edit_id" := Dumper.Number(e.id)], Dumper.EditLeaves(td), Dumper.CommonBlock(td, namespace).children);
  }

  /** Each of the thirteen edit fields holds the text of its leaf. */
  lemma ParsedEditFields(e: Edit, td: TrainingData, current: RevisionRow, previous: Option<RevisionRow>,
                         score: Option<ScoreData>, source: Option<string>, namespace: string)
    ensures var f := ParsedRaw(e, td, current, previous, score, source, namespace).fields;
            forall i | 0 <= i < |EditFields| :: EditFields[i] in f && f[EditFields[i]] == TextSeen(DumpedFieldLeaves(td, namespace)[i].text)
  {
    var f0: Dict := if source.Some? then map["editdb_source" := TextSeen(source)] else map[];
    StoreEditFields(f0["edit_id" := Dumper.Number(e.id)], Dumper.EditLeaves(td), Dumper.CommonBlock(td, namespace).children);
    EditFieldsOther();
  }

  /** edit_id, the group's name, the reviewer counts and the verdict hold what the dumper wrote. */
  lemma ParsedOtherFields(e: Edit, td: TrainingData, current: RevisionRow, previous: Option<RevisionRow>,
                          score: Option<ScoreData>, source: Option<string>, namespace: string)
    ensures var f := ParsedRaw(e, td, current, previous, score, source, namespace).fields;
      && "edit_id" in f && f["edit_id"] == Dumper.Number(e.id)
      && (source.Some? ==> "editdb_source" in f && f["editdb_source"] == TextSeen(source))
      && (e.status == Done ==>
            && "reviewers" in f && f["reviewers"] == Dumper.Number(e.numberOfReviewers)
            && "reviewers_agreeing" in f && f["reviewers_agreeing"] == Dumper.Number(e.numberOfReviewersAgreeing)
            && "is_vandalism" in f && f["is_vandalism"] == Some(Dumper.BoolText(e.classification == Some(Vandalism))))
  {
    var f0: Dict := if source.Some? then map["editdb_source" := TextSeen(source)] else map[];
    var g := f0["edit_id" := Dumper.Number(e.id)];
    var a, b := Dumper.EditLeaves(td), Dumper.CommonBlock(td, namespace).children;
    StoreLeavesElse(g, a, "edit_id");
    StoreLeavesElse(StoreLeaves(g, a), b, "edit_id");
    if source.Some? {
      StoreLeavesElse(g, a, "editdb_source");
      StoreLeavesElse(StoreLeaves(g, a), b, "editdb_source");
    }
  }

  // ---------------------------------------------------------------------
  // What the conversion makes of it

  /** A number the dumper wrote reads back as that number. */
  lemma NumberReads(n: int)
    ensures Truthy(Dumper.Number(n)) && TimeField(Dumper.Number(n)) == Some(Seconds(n))
  {
    IntToStringNonEmpty(n);
    ParseIntOfIntToString(n);
  }

  /** The two times of a dumped edit are present and read as seconds. */
  lemma ParsedTimes(e: Edit, td: TrainingData, current: RevisionRow, previous: Option<RevisionRow>,
                    score: Option<ScoreData>, source: Option<string>, namespace: string)
    ensures var f := ParsedRaw(e, td, current, previous, score, source, namespace).fields;
      && "user_reg_time" in f && f["user_reg_time"] == Dumper.Number(td.userRegTime)
      && "page_made_time" in f && f["page_made_time"] == Dumper.Number(td.pageCreatedTime)
      && TimesRead(f)
  {
    ParsedEditFields(e, td, current, previous, score, source, namespace);
    assert EditFields[6] == "user_reg_time" && EditFields[7] == "page_made_time";
    NumberSeen(td.userRegTime);
    NumberSeen(td.pageCreatedTime);
    NumberReads(td.userRegTime);
    NumberReads(td.pageCreatedTime);
  }

  /** A dictionary with both times read, edit_id, the edit fields and some of the optional keys converts exactly when is_vandalism is there. */
  lemma ConversionByKeys(raw: Raw, extra: set<string>)
    requires TimesRead(raw.fields)
    requires raw.fields.Keys == (set k | k in EditFields) + {"edit_id"} + extra
    requires extra <= OptionalArguments + {"is_vandalism"}
    ensures FromXml(raw).Converted? <==> "is_vandalism" in extra
    ensures "is_vandalism" !in extra ==> FromXml(raw) == ArgumentsMissing({"is_vandalism"})
  {
    PreparedKeys(raw.fields);
    EditFieldNames();
    var keys := Prepared(raw.fields).Keys;
    assert keys == (RecordArguments - {"is_vandalism"}) + extra;
    assert keys - (RecordArguments + OptionalArguments) == {};
    if "is_vandalism" in extra {
      assert RecordArguments <= keys;
    } else {
      assert RecordArguments - keys == {"is_vandalism"};
    }
  }

  /** The leaves stored under their own tag are the record's arguments but the id and the verdict. */
  lemma EditFieldNames()
    ensures (set k | k in EditFields) == RecordArguments - {"edit_id", "is_vandalism"}
  {
    var names := set k | k in EditFields;
    forall k | k in RecordArguments - {"edit_id", "is_vandalism"}
      ensures k in names
    {
      assert k in EditFields;
    }
  }

  /**
   * A dumped Done edit converts into a record; any other edit has no
   * isVandalism element, and the conversion raises for that one missing
   * field.
   */
  lemma DumpedConversion(e: Edit, td: TrainingData, current: RevisionRow, previous: Option<RevisionRow>,
                         score: Option<ScoreData>, source: Option<string>, namespace: string)
    ensures var c := FromXml(ParsedRaw(e, td, current, previous, score, source, namespace));
      && (c.Converted? <==> e.status == Done)
      && (e.status != Done ==> c == ArgumentsMissing({"is_vandalism"}))
  {
    var raw := ParsedRaw(e, td, current, previous, score, source, namespace);
    ParsedKeys(e, td, current, previous, score, source, namespace);
    ParsedTimes(e, td, current, previous, score, source, namespace);
    var extra := (if source.Some? then {"editdb_source"} else {}) +
                 (if e.status == Done then {"reviewers", "reviewers_agreeing", "is_vandalism"} else {});
    assert raw.fields.Keys == (set k | k in EditFields) + {"edit_id"} + extra;
    ConversionByKeys(raw, extra);
  }

  /** A converted record keeps the text of every key other than the namespace and the times. */
  lemma ConvertedText(raw: Raw, k: string)
    requires FromXml(raw).Converted? && k in raw.fields && k !in {"namespace", "user_reg_time", "page_made_time"}
    ensures k in FromXml(raw).value.fields && FromXml(raw).value.fields[k] == Text(raw.fields[k])
  {
    FromXmlFields(raw);
  }

  /** The namespace as a dumped name reads back: the name, or "main" for an empty one. */
  lemma ConvertedNamespace(raw: Raw, namespace: string)
    requires FromXml(raw).Converted? && "namespace" in raw.fields && raw.fields["namespace"] == TextSeen(Some(namespace))
    ensures FromXml(raw).value.fields["namespace"] == Text(Some(if namespace == "" then "main" else namespace))
  {
    FromXmlFields(raw);
  }

  /** Times written as numbers read back as those seconds. */
  lemma ConvertedTimes(raw: Raw, regTime: int, madeTime: int)
    requires FromXml(raw).Converted?
    requires raw.fields["user_reg_time"] == Dumper.Number(regTime) && raw.fields["page_made_time"] == Dumper.Number(madeTime)
    ensures FromXml(raw).value.fields["user_reg_time"] == Seconds(regTime)
    ensures FromXml(raw).value.fields["page_made_time"] == Seconds(madeTime)
  {
    FromXmlFields(raw);
    NumberReads(regTime);
    NumberReads(madeTime);
  }

  /** The edit fields other than the namespace and the times keep their leaves' text. */
  lemma ConvertedTexts(raw: Raw, leaves: seq<Element>)
    requires FromXml(raw).Converted? && |leaves| == |EditFields|
    requires forall i | 0 <= i < |EditFields| :: EditFields[i] in raw.fields && raw.fields[EditFields[i]] == TextSeen(leaves[i].text)
    ensures forall i | 0 <= i < |EditFields| && i != 6 && i != 7 && i != 9 ::
              FromXml(raw).value.fields[EditFields[i]] == Text(TextSeen(leaves[i].text))
  {
    forall i | 0 <= i < |EditFields| && i != 6 && i != 7 && i != 9
      ensures FromXml(raw).value.fields[EditFields[i]] == Text(TextSeen(leaves[i].text))
    {
      ConvertedText(raw, EditFields[i]);
    }
  }

  /** What `ParsedTimes` and `ParsedOtherFields` say of a Done edit's dictionary, with the namespace leaf. */
  predicate CollectedDone(f: Dict, e: Edit, td: TrainingData, source: Option<string>, namespace: string)
  {
    && TimesRead(f)
    && f["user_reg_time"] == Dumper.Number(td.userRegTime)
    && f["page_made_time"] == Dumper.Number(td.pageCreatedTime)
    && "namespace" in f && f["namespace"] == TextSeen(Some(namespace))
    && "edit_id" in f && f["edit_id"] == Dumper.Number(e.id)
    && (source.Some? ==> "editdb_source" in f && f["editdb_source"] == TextSeen(source))
    && "reviewers" in f && f["reviewers"] == Dumper.Number(e.numberOfReviewers)
    && "reviewers_agreeing" in f && f["reviewers_agreeing"] == Dumper.Number(e.numberOfReviewersAgreeing)
    && "is_vandalism" in f && f["is_vandalism"] == Some(Dumper.BoolText(e.classification == Some(Vandalism)))
  }

  lemma ParsedDone(e: Edit, td: TrainingData, current: RevisionRow, previous: Option<RevisionRow>,
                   score: Option<ScoreData>, source: Option<string>, namespace: string)
    requires e.status == Done
    ensures CollectedDone(ParsedRaw(e, td, current, previous, score, source, namespace).fields, e, td, source, namespace)
  {
    ParsedTimes(e, td, current, previous, score, source, namespace);
    ParsedOtherFields(e, td, current, previous, score, source, namespace);
    ParsedEditFields(e, td, current, previous, score, source, namespace);
    NamespaceLeaf(td, namespace);
    var f := ParsedRaw(e, td, current, previous, score, source, namespace).fields;
    FieldAt(f, DumpedFieldLeaves(td, namespace), 9);
    assert EditFields[9] == "namespace";
    CollectDone(f, e, td, source, namespace);
  }

  lemma FieldAt(f: Dict, leaves: seq<Element>, i: nat)
    requires i < |EditFields| && i < |leaves|
    requires forall j | 0 <= j < |EditFields| && j < |leaves| :: EditFields[j] in f && f[EditFields[j]] == TextSeen(leaves[j].text)
    ensures EditFields[i] in f && f[EditFields[i]] == TextSeen(leaves[i].text)
  {
  }

  /** The tenth field leaf is the namespace. */
  lemma NamespaceLeaf(td: TrainingData, namespace: string)
    ensures |DumpedFieldLeaves(td, namespace)| > 9 && DumpedFieldLeaves(td, namespace)[9].text == Some(namespace)
  {
    assert |Dumper.EditLeaves(td)| == 7;
  }

  lemma CollectDone(f: Dict, e: Edit, td: TrainingData, source: Option<string>, namespace: string)
    requires "namespace" in f && f["namespace"] == TextSeen(Some(namespace))
    requires "user_reg_time" in f && f["user_reg_time"] == Dumper.Number(td.userRegTime)
    requires "page_made_time" in f && f["page_made_time"] == Dumper.Number(td.pageCreatedTime)
    requires TimesRead(f)
    requires "edit_id" in f && f["edit_id"] == Dumper.Number(e.id)
    requires source.Some? ==> "editdb_source" in f && f["editdb_source"] == TextSeen(source)
    requires "reviewers" in f && f["reviewers"] == Dumper.Number(e.numberOfReviewers)
    requires "reviewers_agreeing" in f && f["reviewers_agreeing"] == Dumper.Number(e.numberOfReviewersAgreeing)
    requires "is_vandalism" in f && f["is_vandalism"] == Some(Dumper.BoolText(e.classification == Some(Vandalism)))
    ensures CollectedDone(f, e, td, source, namespace)
  {
  }

  /** The conversion of such a dictionary. */
  lemma RecordOfDone(raw: Raw, e: Edit, td: TrainingData, source: Option<string>, namespace: string)
    requires FromXml(raw).Converted? && CollectedDone(raw.fields, e, td, source, namespace)
    ensures var r := FromXml(raw).value;
      && r.fields["edit_id"] == Text(Dumper.Number(e.id))
      && r.fields["user_reg_time"] == Seconds(td.userRegTime)
      && r.fields["page_made_time"] == Seconds(td.pageCreatedTime)
      && r.fields["namespace"] == Text(Some(if namespace == "" then "main" else namespace))
      && r.fields["is_vandalism"] == Text(Some(Dumper.BoolText(e.classification == Some(Vandalism))))
      && r.fields["reviewers"] == Text(Dumper.Number(e.numberOfReviewers))
      && r.fields["reviewers_agreeing"] == Text(Dumper.Number(e.numberOfReviewersAgreeing))
      && (source.Some? ==> r.fields["editdb_source"] == Text(TextSeen(source)))
  {
    ConvertedNamespace(raw, namespace);
    ConvertedTimes(raw, td.userRegTime, td.pageCreatedTime);
    ConvertedText(raw, "edit_id");
    ConvertedText(raw, "is_vandalism");
    ConvertedText(raw, "reviewers");
    ConvertedText(raw, "reviewers_agreeing");
    if source.Some? {
      ConvertedText(raw, "editdb_source");
    }
  }

  /** The keys of a converted record from a dictionary with these keys. */
  lemma RecordKeysOfDone(raw: Raw, source: Option<string>)
    requires FromXml(raw).Converted?
    requires raw.fields.Keys == (if source.Some? then {"editdb_source"} else {}) + {"edit_id"} + (set k | k in EditFields) +
                                {"reviewers", "reviewers_agreeing", "is_vandalism"}
    ensures var r := FromXml(raw).value;
      && r.current == raw.current && r.previous == raw.previous
      && r.fields.Keys == RecordArguments + {"reviewers", "reviewers_agreeing"} + (if source.Some? then {"editdb_source"} else {})
  {
    FromXmlFields(raw);
  }

  /**
   * The record read back from a dumped Done edit: its keys are the declared
   * fields, the reviewer counts and the group's name when one was dumped;
   * the id, the counts and the verdict are the dumper's text, the two times
   * are read back as the seconds that were written, and the namespace is
   * the name written or "main" when that was empty.
   */
  lemma DumpedRecord(e: Edit, td: TrainingData, current: RevisionRow, previous: Option<RevisionRow>,
                     score: Option<ScoreData>, source: Option<string>, namespace: string)
    requires e.status == Done
    ensures var raw := ParsedRaw(e, td, current, previous, score, source, namespace);
      && FromXml(raw).Converted?
      && var r := FromXml(raw).value;
      && r.current == raw.current && r.previous == raw.previous
      && r.fields.Keys == RecordArguments + {"reviewers", "reviewers_agreeing"} + (if source.Some? then {"editdb_source"} else {})
      && r.fields["edit_id"] == Text(Dumper.Number(e.id))
      && r.fields["user_reg_time"] == Seconds(td.userRegTime)
      && r.fields["page_made_time"] == Seconds(td.pageCreatedTime)
      && r.fields["namespace"] == Text(Some(if namespace == "" then "main" else namespace))
      && r.fields["is_vandalism"] == Text(Some(Dumper.BoolText(e.classification == Some(Vandalism))))
      && r.fields["reviewers"] == Text(Dumper.Number(e.numberOfReviewers))
      && r.fields["reviewers_agreeing"] == Text(Dumper.Number(e.numberOfReviewersAgreeing))
      && (source.Some? ==> r.fields["editdb_source"] == Text(TextSeen(source)))
  {
    var raw := ParsedRaw(e, td, current, previous, score, source, namespace);
    DumpedConversion(e, td, current, previous, score, source, namespace);
    ParsedDone(e, td, current, previous, score, source, namespace);
    RecordOfDone(raw, e, td, source, namespace);
    ParsedKeys(e, td, current, previous, score, source, namespace);
    RecordKeysOfDone(raw, source);
  }

  /** The text fields of a converted record whose edit fields hold the dumped leaves' text. */
  lemma TextsOfDumped(raw: Raw, td: TrainingData, namespace: string)
    requires FromXml(raw).Converted?
    requires forall i | 0 <= i < |EditFields| ::
               EditFields[i] in raw.fields && raw.fields[EditFields[i]] == TextSeen(DumpedFieldLeaves(td, namespace)[i].text)
    ensures var r := FromXml(raw).value;
      && r.fields["comment"] == Text(TextSeen(Some(td.comment)))
      && r.fields["user"] == Text(TextSeen(Some(td.user)))
      && r.fields["user_edit_count"] == Text(Dumper.Number(td.userEditCount))
      && r.fields["user_distinct_pages"] == Text(Dumper.Number(td.userDistinctPages))
      && r.fields["user_warns"] == Text(Dumper.Number(td.userWarns))
      && r.fields["prev_user"] == Text(TextSeen(td.prevUser))
      && r.fields["title"] == Text(TextSeen(Some(td.pageTitle)))
      && r.fields["creator"] == Text(TextSeen(Some(td.pageCreator)))
      && r.fields["num_recent_edits"] == Text(Dumper.Number(td.pageNumRecentEdits))
      && r.fields["num_recent_reversions"] == Text(Dumper.Number(td.pageNumRecentReverts))
  {
    DumpedFieldTexts(td, namespace);
    TextsOfLeaves(raw, td, DumpedFieldLeaves(td, namespace));
  }

  /** The texts the dumper gives the field leaves. */
  lemma DumpedFieldTexts(td: TrainingData, namespace: string)
    ensures var ls := DumpedFieldLeaves(td, namespace);
      && |ls| == |EditFields|
      && ls[0].text == Some(td.comment) && ls[1].text == Some(td.user)
      && ls[2].text == Dumper.Number(td.userEditCount) && ls[3].text == Dumper.Number(td.userDistinctPages)
      && ls[4].text == Dumper.Number(td.userWarns) && ls[5].text == td.prevUser
      && ls[8].text == Some(td.pageTitle) && ls[10].text == Some(td.pageCreator)
      && ls[11].text == Dumper.Number(td.pageNumRecentEdits) && ls[12].text == Dumper.Number(td.pageNumRecentReverts)
  {
  }

  lemma TextsOfLeaves(raw: Raw, td: TrainingData, ls: seq<Element>)
    requires FromXml(raw).Converted? && |ls| == |EditFields|
    requires forall i | 0 <= i < |EditFields| :: EditFields[i] in raw.fields && raw.fields[EditFields[i]] == TextSeen(ls[i].text)
    requires ls[0].text == Some(td.comment) && ls[1].text == Some(td.user)
    requires ls[2].text == Dumper.Number(td.userEditCount) && ls[3].text == Dumper.Number(td.userDistinctPages)
    requires ls[4].text == Dumper.Number(td.userWarns) && ls[5].text == td.prevUser
    requires ls[8].text == Some(td.pageTitle) && ls[10].text == Some(td.pageCreator)
    requires ls[11].text == Dumper.Number(td.pageNumRecentEdits) && ls[12].text == Dumper.Number(td.pageNumRecentReverts)
    ensures var r := FromXml(raw).value;
      && r.fields["comment"] == Text(TextSeen(Some(td.comment)))
      && r.fields["user"] == Text(TextSeen(Some(td.user)))
      && r.fields["user_edit_count"] == Text(Dumper.Number(td.userEditCount))
      && r.fields["user_distinct_pages"] == Text(Dumper.Number(td.userDistinctPages))
      && r.fields["user_warns"] == Text(Dumper.Number(td.userWarns))
      && r.fields["prev_user"] == Text(TextSeen(td.prevUser))
      && r.fields["title"] == Text(TextSeen(Some(td.pageTitle)))
      && r.fields["creator"] == Text(TextSeen(Some(td.pageCreator)))
      && r.fields["num_recent_edits"] == Text(Dumper.Number(td.pageNumRecentEdits))
      && r.fields["num_recent_reversions"] == Text(Dumper.Number(td.pageNumRecentReverts))
  {
    ConvertedTexts(raw, ls);
    NumberSeen(td.userEditCount);
    NumberSeen(td.userDistinctPages);
    NumberSeen(td.userWarns);
    NumberSeen(td.pageNumRecentEdits);
    NumberSeen(td.pageNumRecentReverts);
    assert EditFields[0] == "comment" && EditFields[1] == "user" && EditFields[2] == "user_edit_count";
    assert EditFields[3] == "user_distinct_pages" && EditFields[4] == "user_warns" && EditFields[5] == "prev_user";
    assert EditFields[8] == "title" && EditFields[10] == "creator";
    assert EditFields[11] == "num_recent_edits" && EditFields[12] == "num_recent_reversions";
  }

  /** The text fields of the record read back from a dumped Done edit: each leaf's text, an empty one read back as None. */
  lemma DumpedRecordTexts(e: Edit, td: TrainingData, current: RevisionRow, previous: Option<RevisionRow>,
                          score: Option<ScoreData>, source: Option<string>, namespace: string)
    requires e.status == Done
    ensures var raw := ParsedRaw(e, td, current, previous, score, source, namespace);
      && FromXml(raw).Converted?
      && var r := FromXml(raw).value;
      && r.fields["comment"] == Text(TextSeen(Some(td.comment)))
      && r.fields["user"] == Text(TextSeen(Some(td.user)))
      && r.fields["user_edit_count"] == Text(Dumper.Number(td.userEditCount))
      && r.fields["user_distinct_pages"] == Text(Dumper.Number(td.userDistinctPages))
      && r.fields["user_warns"] == Text(Dumper.Number(td.userWarns))
      && r.fields["prev_user"] == Text(TextSeen(td.prevUser))
      && r.fields["title"] == Text(TextSeen(Some(td.pageTitle)))
      && r.fields["creator"] == Text(TextSeen(Some(td.pageCreator)))
      && r.fields["num_recent_edits"] == Text(Dumper.Number(td.pageNumRecentEdits))
      && r.fields["num_recent_reversions"] == Text(Dumper.Number(td.pageNumRecentReverts))
  {
    DumpedConversion(e, td, current, previous, score, source, namespace);
    ParsedEditFields(e, td, current, previous, score, source, namespace);
    TextsOfDumped(ParsedRaw(e, td, current, previous, score, source, namespace), td, namespace);
  }

  /**
   * The revision dictionaries read back: the current one as its seconds,
   * text and minor flag; the previous one, which the dumper writes without
   * a minor element, as its seconds and text with minor false; and without a
   * previous revision the empty block raises on the missing timestamp.
   */
  lemma DumpedRevisions(e: Edit, td: TrainingData, current: RevisionRow, previous: Option<RevisionRow>,
                        score: Option<ScoreData>, source: Option<string>, namespace: string)
    ensures var raw := ParsedRaw(e, td, current, previous, score, source, namespace);
      && RevisionFromXml(raw.current) == Converted(Revision(Seconds(current.timestamp), TextSeen(Some(current.text)), current.minor))
      && (previous.Some? ==>
            RevisionFromXml(raw.previous) ==
            Converted(Revision(Seconds(previous.value.timestamp), TextSeen(Some(previous.value.text)), false)))
      && (previous.None? ==> RevisionFromXml(raw.previous) == KeyMissing("timestamp"))
  {
    NumberReads(current.timestamp);
    if previous.Some? {
      NumberReads(previous.value.timestamp);
    }
  }

  // ---------------------------------------------------------------------
  // A whole edit set

  /** The stored rows one WPEdit element is generated from. */
  datatype DumpedEdit = DumpedEdit(edit: Edit, td: TrainingData, current: RevisionRow, previous: Option<RevisionRow>,
                                   score: Option<ScoreData>, source: Option<string>, namespace: string)

  function TreeOf(d: DumpedEdit): Element
  {
    Indent(Dumper.WpEditTree(d.edit, d.td, d.current, d.previous, d.score, d.source, d.namespace))
  }

  function ConversionOf(d: DumpedEdit): Conversion<Record>
  {
    FromXml(ParsedRaw(d.edit, d.td, d.current, d.previous, d.score, d.source, d.namespace))
  }

  /** From any point between edits, a dumped Done edit's events hand over its record and leave a fresh context in an edit. */
  lemma DumpedDelivers(p: Progress, d: DumpedEdit)
    requires p.failure.None? && d.edit.status == Done
    ensures ConversionOf(d).Converted?
    ensures Feed(p, Events(TreeOf(d))) == Progress(NewContext(true), p.delivered + [ConversionOf(d).value], p.ignored, None)
  {
    DumpedConversion(d.edit, d.td, d.current, d.previous, d.score, d.source, d.namespace);
    FeedDumped(p, d.edit, d.td, d.current, d.previous, d.score, d.source, d.namespace);
  }

  /** The events of the dumped elements, one element after the other. */
  function EditEvents(ds: seq<DumpedEdit>): seq<Event>
    decreases |ds|
  {
    if ds == [] then [] else EditEvents(ds[..|ds| - 1]) + Events(TreeOf(ds[|ds| - 1]))
  }

  /** The events of a `WPEditSet` document holding the dumped elements. */
  function EditSetEvents(ds: seq<DumpedEdit>): seq<Event>
  {
    [Event(Start, "WPEditSet", None)] + EditEvents(ds) + [Event(End, "WPEditSet", None)]
  }

  /** The records of dumped Done edits. */
  function RecordsOf(ds: seq<DumpedEdit>): (rs: seq<Record>)
    requires forall i | 0 <= i < |ds| :: ds[i].edit.status == Done
    ensures |rs| == |ds|
    decreases |ds|
  {
    if ds == [] then []
    else
      var d := ds[|ds| - 1];
      DumpedConversion(d.edit, d.td, d.current, d.previous, d.score, d.source, d.namespace);
      RecordsOf(ds[..|ds| - 1]) + [ConversionOf(d).value]
  }

  /** Where reading stands after handing over `rs`: nothing read yet, or inside the set after the last edit. */
  function Delivered(rs: seq<Record>): Progress
  {
    if rs == [] then Initial() else Progress(NewContext(true), rs, [], None)
  }

  /** The dumped elements hand over their records, one per element in order, and nothing is ignored. */
  lemma {:induction false} FeedEdits(ds: seq<DumpedEdit>)
    requires forall i | 0 <= i < |ds| :: ds[i].edit.status == Done
    ensures Feed(Initial(), EditEvents(ds)) == Delivered(RecordsOf(ds))
    decreases |ds|
  {
    if ds != [] {
      var n := |ds| - 1;
      var front := ds[..n];
      FeedEdits(front);
      FeedConcat(Initial(), EditEvents(front), Events(TreeOf(ds[n])));
      var p := Delivered(RecordsOf(front));
      DumpedDelivers(p, ds[n]);
      assert p.delivered == RecordsOf(front) && p.ignored == [];
    }
  }

  /** The framing elements of the document change nothing. */
  lemma FeedFraming(evs: seq<Event>, q: Progress)
    requires Feed(Initial(), evs) == q && q.failure.None? && q.ignored == []
    requires q.ctx == Initial().ctx || q.ctx == NewContext(true)
    ensures Feed(Initial(), [Event(Start, "WPEditSet", None)] + evs + [Event(End, "WPEditSet", None)]) == q
  {
    var open, close := Event(Start, "WPEditSet", None), Event(End, "WPEditSet", None);
    OpenSet();
    FeedFront(Initial(), [open] + evs);
    assert ([open] + evs)[1..] == evs;
    FeedConcat(Initial(), [open] + evs, [close]);
    CloseSet(q);
  }

  lemma OpenSet()
    ensures Advance(Initial(), Event(Start, "WPEditSet", None)) == Initial()
  {
  }

  lemma CloseSet(q: Progress)
    requires q.failure.None? && (q.ctx == Initial().ctx || q.ctx == NewContext(true))
    ensures Feed(q, [Event(End, "WPEditSet", None)]) == q
  {
    var close := Event(End, "WPEditSet", None);
    assert Feed(q, [close]) == Advance(Feed(q, []), close);
    assert Step(q.ctx, close).ctx == q.ctx && Step(q.ctx, close).record.None? && Step(q.ctx, close).ignored.None?;
  }

  /**
   * Reading a `WPEditSet` document of dumped Done edits returns True, hands
   * over exactly one record per edit in document order, each the conversion
   * of what that edit's element carries, and logs nothing as ignored.
   */
  lemma ReadEditSet(ds: seq<DumpedEdit>)
    requires forall i | 0 <= i < |ds| :: ds[i].edit.status == Done
    ensures Read(true, Stream(EditSetEvents(ds), true)) == ReadOutcome(Returned(true), RecordsOf(ds), [])
  {
    FeedEdits(ds);
    ReadFramed(EditEvents(ds), RecordsOf(ds));
  }

  /** Events that hand over `rs` and nothing else, framed by the set's tags, read as True with `rs`. */
  lemma ReadFramed(evs: seq<Event>, rs: seq<Record>)
    requires Feed(Initial(), evs) == Delivered(rs)
    ensures Read(true, Stream([Event(Start, "WPEditSet", None)] + evs + [Event(End, "WPEditSet", None)], true)) ==
            ReadOutcome(Returned(true), rs, [])
  {
    FeedFraming(evs, Delivered(rs));
  }
}
