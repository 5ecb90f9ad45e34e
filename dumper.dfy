/**
 * `EditSetDumper`: the WPEdit element built from an edit's stored rows, its
 * rendering with the dumper's escaping installed in place of the library's,
 * and the optional post-pass that indents every tag line by one space.
 */
module Dumper {
  import opened Wrappers
  import opened Strings
  import opened Models
  import opened Store
  import opened Xml
  import Settings

  /** What `generate_wp_edit` builds: nothing, a tree, or a KeyError on the namespace table. */
  datatype Generated = NotBuilt | Built(tree: Element) | NamespaceUnknown(namespace: int)

  /** A nullable integer column, read as a Python condition. */
  predicate Truthy(v: Option<int>)
  {
    v.Some? && v.value != 0
  }

  function BoolText(b: bool): string
  {
    if b then "true" else "false"
  }

  function Number(n: int): Option<string>
  {
    Some(IntToString(n))
  }

  function EditDbBlock(e: Edit, source: Option<string>): Element
  {
    Node("EditDB",
         [Leaf("isActive", Some("true"))] +
         (if source.Some? then [Leaf("source", source)] else []) +
         [Leaf("lastUpdated", Number(e.lastUpdated))])
  }

  function CommonBlock(td: TrainingData, namespace: string): Element
  {
    Node("common", [
      Leaf("page_made_time", Number(td.pageCreatedTime)),
      Leaf("title", Some(td.pageTitle)),
      Leaf("namespace", Some(namespace)),
      Leaf("creator", Some(td.pageCreator)),
      Leaf("num_recent_edits", Number(td.pageNumRecentEdits)),
      Leaf("num_recent_reversions", Number(td.pageNumRecentReverts))])
  }

  function CurrentBlock(r: RevisionRow): Element
  {
    Node("current", [
      Leaf("minor", Some(BoolText(r.minor))),
      Leaf("timestamp", Number(r.timestamp)),
      Leaf("text", Some(r.text))])
  }

  function PreviousBlock(r: Option<RevisionRow>): Element
  {
    Node("previous",
         if r.Some? then [Leaf("timestamp", Number(r.value.timestamp)), Leaf("text", Some(r.value.text))]
         else [])
  }

  function ReviewInterfaceBlock(e: Edit): Element
  {
    Node("ReviewInterface",
         [Leaf("status", Some(StatusLabel(e.status)))] +
         (if e.status == Done then
            [Leaf("reviewers", Number(e.numberOfReviewers)), Leaf("reviewers_agreeing", Number(e.numberOfReviewersAgreeing))]
          else []))
  }

  function ScoresBlock(s: ScoreData): Element
  {
    Node("core_scores",
         (if Truthy(s.reverted) then [Leaf("reverted", Number(s.reverted.value))] else []) +
         (if Truthy(s.training) then [Leaf("training", Number(s.training.value))] else []))
  }

  /**
   * The WPEdit element for an edit, its TrainingData row, its current
   * revision, its previous revision if any, its scores if any, the name of
   * the group being dumped if any, and the namespace name as written.
   */
  function WpEditTree(e: Edit, td: TrainingData, current: RevisionRow, previous: Option<RevisionRow>,
                      score: Option<ScoreData>, source: Option<string>, namespace: string): Element
  {
    Node("WPEdit",
         [EditDbBlock(e, source), Leaf("EditType", Some("change")), Leaf("EditID", Number(e.id))] +
         EditLeaves(td) +
         [CommonBlock(td, namespace), CurrentBlock(current), PreviousBlock(previous), ReviewInterfaceBlock(e)] +
         VerdictAndScores(e, score))
  }

  /** The seven TrainingData leaves between EditID and common. */
  function EditLeaves(td: TrainingData): seq<Element>
  {
    [Leaf("comment", Some(td.comment)),
     Leaf("user", Some(td.user)),
     Leaf("user_edit_count", Number(td.userEditCount)),
     Leaf("user_distinct_pages", Number(td.userDistinctPages)),
     Leaf("user_warns", Number(td.userWarns)),
     Leaf("prev_user", td.prevUser),
     Leaf("user_reg_time", Number(td.userRegTime))]
  }

  /** isVandalism for a Done edit, then core_scores when a ScoreData row exists. */
  function VerdictAndScores(e: Edit, score: Option<ScoreData>): seq<Element>
  {
    (if e.status == Done then [Leaf("isVandalism", Some(BoolText(e.classification == Some(Vandalism))))] else []) +
    (if score.Some? then [ScoresBlock(score.value)] else [])
  }

  /** `generate_wp_edit(edit, edit_group)` before rendering, over the stored tables. */
  function Generate(db: Db, e: Edit, source: Option<string>): Generated
  {
    if e.id !in db.trainingData || e.id !in db.currentRevisions then NotBuilt
    else if e.id !in db.previousRevisions && !db.currentRevisions[e.id].isCreation then NotBuilt
    else
      var td := db.trainingData[e.id];
      if td.pageNamespace !in Settings.IdToName() then NamespaceUnknown(td.pageNamespace)
      else
        Built(WpEditTree(e, td, db.currentRevisions[e.id],
                         if e.id in db.previousRevisions then Some(db.previousRevisions[e.id]) else None,
                         if e.id in db.scores then Some(db.scores[e.id]) else None,
                         source, Capitalize(Settings.IdToName()[td.pageNamespace])))
  }

  /** The child order of a WPEdit element, written out. */
  function TopLevelTags(done: bool, scored: bool): seq<string>
  {
    ["EditDB", "EditType", "EditID"] +
    ["comment", "user", "user_edit_count", "user_distinct_pages", "user_warns", "prev_user", "user_reg_time"] +
    ["common", "current", "previous", "ReviewInterface"] +
    ((if done then ["isVandalism"] else []) + (if scored then ["core_scores"] else []))
  }

  lemma HeadTags(e: Edit, source: Option<string>)
    ensures Tags([EditDbBlock(e, source), Leaf("EditType", Some("change")), Leaf("EditID", Number(e.id))]) ==
            ["EditDB", "EditType", "EditID"]
  {
  }

  lemma LeafTags(td: TrainingData)
    ensures Tags(EditLeaves(td)) ==
            ["comment", "user", "user_edit_count", "user_distinct_pages", "user_warns", "prev_user", "user_reg_time"]
  {
  }

  lemma BlockTags(e: Edit, td: TrainingData, current: RevisionRow, previous: Option<RevisionRow>, namespace: string)
    ensures Tags([CommonBlock(td, namespace), CurrentBlock(current), PreviousBlock(previous), ReviewInterfaceBlock(e)]) ==
            ["common", "current", "previous", "ReviewInterface"]
  {
  }

  lemma TailTags(e: Edit, score: Option<ScoreData>)
    ensures Tags(VerdictAndScores(e, score)) ==
            (if e.status == Done then ["isVandalism"] else []) + (if score.Some? then ["core_scores"] else [])
  {
  }

  /**
   * Nothing is generated exactly when the TrainingData row or the current
   * revision is missing, or the previous revision is missing and the current
   * one is not a page creation; otherwise a namespace id missing from the
   * settings' table raises, and every other edit gets a tree.
   */
  lemma GenerateOutcome(db: Db, e: Edit, source: Option<string>)
    ensures Generate(db, e, source).NotBuilt? <==>
              || e.id !in db.trainingData || e.id !in db.currentRevisions
              || (e.id !in db.previousRevisions && !db.currentRevisions[e.id].isCreation)
    ensures Generate(db, e, source).NamespaceUnknown? <==>
              && !Generate(db, e, source).NotBuilt?
              && db.trainingData[e.id].pageNamespace !in Settings.IdToName()
  {
  }

  /** The children of WPEdit come in a fixed order; isVandalism and core_scores are optional. */
  lemma TopLevelOrder(e: Edit, td: TrainingData, current: RevisionRow, previous: Option<RevisionRow>,
                      score: Option<ScoreData>, source: Option<string>, namespace: string)
    ensures Tags(WpEditTree(e, td, current, previous, score, source, namespace).children) ==
            TopLevelTags(e.status == Done, score.Some?)
  {
    var head := [EditDbBlock(e, source), Leaf("EditType", Some("change")), Leaf("EditID", Number(e.id))];
    var blocks := [CommonBlock(td, namespace), CurrentBlock(current), PreviousBlock(previous), ReviewInterfaceBlock(e)];
    TagsConcat(head, EditLeaves(td));
    TagsConcat(head + EditLeaves(td), blocks);
    TagsConcat(head + EditLeaves(td) + blocks, VerdictAndScores(e, score));
    HeadTags(e, source);
    LeafTags(td);
    BlockTags(e, td, current, previous, namespace);
    TailTags(e, score);
  }

  /**
   * EditDB always holds isActive = "true" and lastUpdated, the epoch seconds
   * written so that reading them back gives the stored value; `source`, the
   * group's name, sits between them exactly when a group is dumped.
   */
  lemma EditDbContents(e: Edit, td: TrainingData, current: RevisionRow, previous: Option<RevisionRow>,
                       score: Option<ScoreData>, source: Option<string>, namespace: string)
    ensures var db := WpEditTree(e, td, current, previous, score, source, namespace).children[0];
      && db.tag == "EditDB"
      && Tags(db.children) == ["isActive"] + (if source.Some? then ["source"] else []) + ["lastUpdated"]
      && db.children[0].text == Some("true")
      && (source.Some? ==> db.children[1].text == source)
      && db.children[|db.children| - 1].text.Some?
      && ParseInt(db.children[|db.children| - 1].text.value) == Some(e.lastUpdated)
  {
    ParseIntOfIntToString(e.lastUpdated);
  }

  /**
   * Without a previous revision the `previous` element is still there, with
   * no children; once indented and rendered with the dumper's escaping it is
   * `<previous></previous>` followed by its indentation. With a previous
   * revision it holds its timestamp and text.
   */
  lemma PreviousContents(e: Edit, td: TrainingData, current: RevisionRow, previous: Option<RevisionRow>,
                         score: Option<ScoreData>, source: Option<string>, namespace: string)
    ensures var p := WpEditTree(e, td, current, previous, score, source, namespace).children[12];
      && p.tag == "previous"
      && (previous.None? ==>
            && p.children == [] && p.text.None?
            && Serialize(IndentChild(p, 0, false), QuoteEscape(StandardEscape)) == "<previous>" + "</previous>" + "\n ")
      && (previous.Some? ==> Tags(p.children) == ["timestamp", "text"] && p.children[1].text == Some(previous.value.text))
  {
    if previous.None? {
      EmptyPreviousRendered();
    }
  }

  /** `<previous/>` with `short_empty_elements=False`, indented as a child that is not the last. */
  lemma EmptyPreviousRendered()
    ensures Serialize(IndentChild(Node("previous", []), 0, false), QuoteEscape(StandardEscape)) == "<previous>" + "</previous>" + "\n "
  {
    EmptyChildRendered("previous");
    PreviousTags();
  }

  lemma PreviousTags()
    ensures "<" + "previous" + ">" + "</" + "previous" + ">" == "<previous>" + "</previous>"
  {
  }

  /** Any empty child that is not the last renders as its two tags and the indentation after it. */
  lemma EmptyChildRendered(tag: string)
    ensures Serialize(IndentChild(Node(tag, []), 0, false), QuoteEscape(StandardEscape)) == "<" + tag + ">" + "</" + tag + ">" + "\n "
  {
    IndentedEmptyChild(tag);
    EmptyWithTail(tag, "\n ", QuoteEscape(StandardEscape));
    EscapedIndentation();
  }

  lemma IndentedEmptyChild(tag: string)
    ensures IndentChild(Node(tag, []), 0, false) == Element(tag, None, [], Some("\n "))
  {
    assert Indentation(1) == "\n " by { assert Spaces(1) == Spaces(0) + " "; }
  }

  lemma EmptyWithTail(tag: string, tail: string, esc: Escaper)
    requires tail != ""
    ensures Serialize(Element(tag, None, [], Some(tail)), esc) == "<" + tag + ">" + "</" + tag + ">" + Apply(esc, tail)
  {
    assert SerializeFrom(Element(tag, None, [], Some(tail)), esc, 0) == "";
  }

  lemma EscapedIndentation()
    ensures Apply(QuoteEscape(StandardEscape), "\n ") == "\n "
  {
    ExtendedEscape("\n ");
    assert FullEscape(" ") == " " + FullEscape("");
    assert FullEscape("\n ") == FullEscapeChar('\n') + FullEscape(" ");
  }

  /**
   * ReviewInterface carries the status label, and the reviewer counts only
   * when the edit is Done; isVandalism follows it only then, and reads
   * "true" exactly when the classification is Vandalism.
   */
  lemma ReviewContents(e: Edit, td: TrainingData, current: RevisionRow, previous: Option<RevisionRow>,
                       score: Option<ScoreData>, source: Option<string>, namespace: string)
    ensures var cs := WpEditTree(e, td, current, previous, score, source, namespace).children;
      && Tags(cs[13].children) == ["status"] + (if e.status == Done then ["reviewers", "reviewers_agreeing"] else [])
      && cs[13].children[0].text == Some(StatusLabel(e.status))
      && (e.status == Done ==> cs[14].tag == "isVandalism" &&
                               (cs[14].text == Some("true") <==> e.classification == Some(Vandalism)))
      && (e.status == Done ==> cs[13].children[1].text == Some(IntToString(e.numberOfReviewers)))
  {
  }

  /**
   * core_scores is the last child exactly when a ScoreData row exists, and
   * holds `reverted` and `training` only for non-zero, non-null scores.
   */
  lemma ScoresContents(e: Edit, td: TrainingData, current: RevisionRow, previous: Option<RevisionRow>,
                       score: Option<ScoreData>, source: Option<string>, namespace: string)
    ensures var cs := WpEditTree(e, td, current, previous, score, source, namespace).children;
      && (cs[|cs| - 1].tag == "core_scores" <==> score.Some?)
      && (score.Some? ==>
            Tags(cs[|cs| - 1].children) ==
            (if Truthy(score.value.reverted) then ["reverted"] else []) +
            (if Truthy(score.value.training) then ["training"] else []))
  {
    TopLevelOrder(e, td, current, previous, score, source, namespace);
    var cs := WpEditTree(e, td, current, previous, score, source, namespace).children;
    assert Tags(cs)[|cs| - 1] == cs[|cs| - 1].tag;
  }

  /**
   * The namespace is written as the capitalised name of the stored id, and
   * the importer's lower-casing of it finds that id again.
   */
  lemma NamespaceFindsId(db: Db, e: Edit, source: Option<string>)
    requires Generate(db, e, source).Built?
    ensures var ns := Generate(db, e, source).tree.children[10].children[2];
      && ns.tag == "namespace" && ns.text.Some?
      && Lower(ns.text.value) in Settings.NameToId()
      && Settings.NameToId()[Lower(ns.text.value)] == db.trainingData[e.id].pageNamespace
  {
    Settings.CapitalisedNameFindsId(db.trainingData[e.id].pageNamespace);
  }

  // ---------------------------------------------------------------------
  // Rendering

  /**
   * The module-level state of ElementTree the dumper patches: the escaping
   * function in use and the attribute it saves the original under.
   */
  class ElementTreeModule {
    /** `ET._escape_cdata` */
    var escapeCdata: Escaper
    /** `ET._original_escape_cdata`, only present while the dumper's escaping is installed. */
    var originalEscapeCdata: Option<Escaper>

    constructor ()
      ensures escapeCdata == StandardEscape && originalEscapeCdata == None
    {
      escapeCdata := StandardEscape;
      originalEscapeCdata := None;
    }
  }

  /** The line post-pass: a line whose first visible character is `<` gains one leading space. */
  function IndentedLines(lines: seq<string>): (r: seq<string>)
    ensures |r| == |lines|
  {
    seq(|lines|, i requires 0 <= i < |lines| => if StartsWithTag(lines[i]) then " " + lines[i] else lines[i])
  }

  /** What `_xml_to_string(wp_edit, indent_block)` returns when `esc` is the installed escaping. */
  function Rendered(tree: Element, esc: Escaper, indentBlock: bool): string
  {
    var output := Serialize(Indent(tree), QuoteEscape(esc));
    if indentBlock then JoinLines(IndentedLines(SplitLines(output))) else output
  }

  /** The loop of the post-pass over `output.splitlines()`. */
  method IndentBlock(output: string) returns (r: string)
    ensures r == JoinLines(IndentedLines(SplitLines(output)))
  {
    var all := SplitLines(output);
    var lines: seq<string> := [];
    var i := 0;
    while i < |all|
      invariant 0 <= i <= |all|
      invariant lines == IndentedLines(all[..i])
    {
      var line := all[i];
      FirstVisibleStartsWithTag(line);
      if FirstVisible(line) == Some('<') {
        line := " " + line;
      }
      lines := lines + [line];
      assert all[..i + 1][..i] == all[..i];
      i := i + 1;
    }
    assert all[..i] == all;
    r := JoinLines(lines);
  }

  /**
   * `_xml_to_string`: indent the tree, install the dumper's escaping over the
   * current one, render, restore the current one and drop the saved
   * attribute, then apply the post-pass when asked.
   */
  method XmlToString(et: ElementTreeModule, wpEdit: Element, indentBlock: bool) returns (output: string)
    modifies et
    ensures et.escapeCdata == old(et.escapeCdata) && et.originalEscapeCdata == None
    ensures output == Rendered(wpEdit, old(et.escapeCdata), indentBlock)
  {
    var indented := Indent(wpEdit);
    et.originalEscapeCdata := Some(et.escapeCdata);
    et.escapeCdata := QuoteEscape(et.escapeCdata);
    output := Serialize(indented, et.escapeCdata);
    et.escapeCdata := et.originalEscapeCdata.value;
    et.originalEscapeCdata := None;
    if indentBlock {
      output := IndentBlock(output);
    }
  }

  /** What `generate_wp_edit` returns: None, the rendered text, or a KeyError. */
  datatype Dump = NoDump | Document(text: string) | UnknownNamespace(namespace: int)

  function Dumped(g: Generated, esc: Escaper, indentBlock: bool): Dump
  {
    match g
    case NotBuilt => NoDump
    case Built(tree) => Document(Rendered(tree, esc, indentBlock))
    case NamespaceUnknown(n) => UnknownNamespace(n)
  }

  function GroupName(group: Option<EditGroup>): Option<string>
  {
    if group.Some? then Some(group.value.name) else None
  }

  /**
   * `generate_wp_edit(edit, edit_group, indent_block)`: the three lookups
   * that can end it early, the namespace lookup that can raise, the optional
   * score lookup, then the element and its rendering.
   */
  method GenerateWpEdit(et: ElementTreeModule, store: Store, e: Edit, group: Option<EditGroup>, indentBlock: bool)
    returns (r: Dump)
    modifies et
    ensures et.escapeCdata == old(et.escapeCdata)
    ensures r == Dumped(Generate(store.State(), e, GroupName(group)), old(et.escapeCdata), indentBlock)
  {
    if e.id !in store.trainingData || e.id !in store.currentRevisions {
      return NoDump;
    }
    var td := store.trainingData[e.id];
    var current := store.currentRevisions[e.id];
    var previous: Option<RevisionRow> := None;
    if e.id in store.previousRevisions {
      previous := Some(store.previousRevisions[e.id]);
    } else if !current.isCreation {
      return NoDump;
    }
    if td.pageNamespace !in Settings.IdToName() {
      return UnknownNamespace(td.pageNamespace);
    }
    var namespace := Settings.IdToName()[td.pageNamespace];
    var score: Option<ScoreData> := None;
    if e.id in store.scores {
      score := Some(store.scores[e.id]);
    }
    var tree := WpEditTree(e, td, current, previous, score, GroupName(group), Capitalize(namespace));
    var text := XmlToString(et, tree, indentBlock);
    r := Document(text);
  }

  // ---------------------------------------------------------------------
  // Properties of the rendering

  /** Every tag of the tree, at any depth, is free of double quotes. */
  predicate QuoteFreeTags(e: Element)
    decreases e, 1
  {
    '"' !in e.tag && QuoteFreeChildren(e, 0)
  }

  predicate QuoteFreeChildren(e: Element, from: nat)
    decreases e, 0, |e.children| - from
  {
    from < |e.children| ==> QuoteFreeTags(e.children[from]) && QuoteFreeChildren(e, from + 1)
  }

  /** Rendering with the dumper's escaping writes no raw double quote when the tags have none. */
  lemma {:induction false} SerializeNoQuote(e: Element)
    requires QuoteFreeTags(e)
    ensures '"' !in Serialize(e, QuoteEscape(StandardEscape))
    decreases e, 1
  {
    if e.text.Some? && e.text.value != "" {
      ExtendedEscape(e.text.value);
    }
    if e.tail.Some? && e.tail.value != "" {
      ExtendedEscape(e.tail.value);
    }
    SerializeFromNoQuote(e, 0);
  }

  lemma {:induction false} SerializeFromNoQuote(e: Element, from: nat)
    requires QuoteFreeChildren(e, from)
    ensures '"' !in SerializeFrom(e, QuoteEscape(StandardEscape), from)
    decreases e, 0, |e.children| - from
  {
    if from < |e.children| {
      SerializeNoQuote(e.children[from]);
      SerializeFromNoQuote(e, from + 1);
    }
  }

  /** Indenting changes texts and tails only, so the tags stay free of quotes. */
  lemma {:induction false} IndentNodeQuoteFree(e: Element, level: nat)
    requires QuoteFreeTags(e)
    ensures QuoteFreeTags(IndentNode(e, level))
    decreases e, |e.children| + 1
  {
    IndentFromQuoteFree(e, level, 0);
    QuoteFreeSameChildren(IndentNode(e, level), e, level, 0);
  }

  lemma {:induction false} IndentFromQuoteFree(e: Element, level: nat, from: nat)
    requires QuoteFreeChildren(e, from)
    ensures forall i | 0 <= i < |IndentFrom(e, level, from)| :: QuoteFreeTags(IndentFrom(e, level, from)[i])
    decreases e, |e.children| - from
  {
    if from < |e.children| {
      var c := e.children[from];
      IndentChildQuoteFree(c, level, from == |e.children| - 1);
      IndentFromQuoteFree(e, level, from + 1);
      var r := IndentFrom(e, level, from);
      forall i | 0 <= i < |r| ensures QuoteFreeTags(r[i]) {
        if i > 0 {
          assert r[i] == IndentFrom(e, level, from + 1)[i - 1];
        }
      }
    }
  }

  lemma {:induction false} IndentChildQuoteFree(c: Element, level: nat, last: bool)
    requires QuoteFreeTags(c)
    ensures QuoteFreeTags(IndentChild(c, level, last))
    decreases c, |c.children| + 2
  {
    var inner := if c.children != [] then IndentNode(c, level + 1) else c;
    if c.children != [] {
      IndentNodeQuoteFree(c, level + 1);
    }
    QuoteFreeTail(inner, IndentChild(c, level, last).tail);
  }

  /** A new tail leaves the tags alone. */
  lemma QuoteFreeTail(e: Element, tail: Option<string>)
    requires QuoteFreeTags(e)
    ensures QuoteFreeTags(e.(tail := tail))
  {
    QuoteFreeChildrenSame(e.(tail := tail), e, 0);
  }

  lemma {:induction false} QuoteFreeChildrenSame(a: Element, b: Element, from: nat)
    requires a.children == b.children && QuoteFreeChildren(b, from)
    ensures QuoteFreeChildren(a, from)
    decreases |a.children| - from
  {
    if from < |a.children| {
      QuoteFreeChildrenSame(a, b, from + 1);
    }
  }

  /** Children that are each quote-free make `QuoteFreeChildren` hold. */
  lemma {:induction false} QuoteFreeSameChildren(r: Element, e: Element, level: nat, from: nat)
    requires r.children == IndentFrom(e, level, 0)
    requires forall i | 0 <= i < |r.children| :: QuoteFreeTags(r.children[i])
    requires '"' !in r.tag
    ensures QuoteFreeChildren(r, from)
    ensures from == 0 ==> QuoteFreeTags(r)
    decreases |r.children| - from
  {
    if from < |r.children| {
      QuoteFreeSameChildren(r, e, level, from + 1);
    }
  }

  /** Joining lines adds only line feeds. */
  lemma {:induction false} JoinLinesChars(lines: seq<string>, c: char)
    requires c != '\n' && forall i | 0 <= i < |lines| :: c !in lines[i]
    ensures c !in JoinLines(lines)
    decreases |lines|
  {
    if |lines| > 1 {
      JoinLinesChars(lines[1..], c);
      assert c !in lines[0];
    }
  }

  /**
   * The dumper's output holds no raw double quote, with or without the
   * post-pass, when the library's own escaping is the one installed and the
   * tags hold none.
   */
  lemma RenderedNoQuote(tree: Element, indentBlock: bool)
    requires QuoteFreeTags(tree)
    ensures '"' !in Rendered(tree, StandardEscape, indentBlock)
  {
    if tree.children != [] {
      IndentNodeQuoteFree(tree, 0);
    }
    var output := Serialize(Indent(tree), QuoteEscape(StandardEscape));
    SerializeNoQuote(Indent(tree));
    if indentBlock {
      SplitLinesChars(output, '"');
      var lines := IndentedLines(SplitLines(output));
      forall i | 0 <= i < |lines| ensures '"' !in lines[i] {
        assert '"' !in SplitLines(output)[i];
      }
      JoinLinesChars(lines, '"');
    }
  }

  /** The post-pass changes no line that does not start with a tag, and prefixes each one that does. */
  lemma IndentedLinesShape(lines: seq<string>, i: int)
    requires 0 <= i < |lines|
    ensures FirstVisible(lines[i]) == Some('<') ==> IndentedLines(lines)[i] == " " + lines[i]
    ensures FirstVisible(lines[i]) != Some('<') ==> IndentedLines(lines)[i] == lines[i]
  {
    FirstVisibleStartsWithTag(lines[i]);
  }

  /**
   * Splitting and joining again gives the text back when its only line
   * boundaries are line feeds and it does not end with one: on such text the
   * post-pass does nothing but insert the spaces.
   */
  lemma {:induction false} JoinSplitLines(s: string)
    requires forall i | 0 <= i < |s| && IsLineBreak(s[i]) :: s[i] == '\n'
    requires s == [] || s[|s| - 1] != '\n'
    ensures JoinLines(SplitLines(s)) == s
    decreases |s|
  {
    if s != [] {
      var k := LineEnd(s);
      if k < |s| {
        assert s[k] == '\n';
        var rest := s[k + 1..];
        assert rest != [] by { assert s[|s| - 1] != '\n'; }
        forall i | 0 <= i < |rest| && IsLineBreak(rest[i]) ensures rest[i] == '\n' {
          assert rest[i] == s[k + 1 + i];
        }
        assert rest[|rest| - 1] == s[|s| - 1];
        JoinSplitLines(rest);
        assert SplitLines(s) == [s[..k]] + SplitLines(rest);
        SplitLinesNonEmpty(rest);
        assert s == s[..k] + "\n" + rest;
      }
    }
  }

  lemma SplitLinesNonEmpty(s: string)
    requires s != []
    ensures |SplitLines(s)| >= 1
  {
  }

  /**
   * The element written for a page creation with no previous revision
   * appears in the rendering as `<previous></previous>`.
   */
  lemma CreationRendersEmptyPrevious(e: Edit, td: TrainingData, current: RevisionRow,
                                     score: Option<ScoreData>, source: Option<string>, namespace: string)
    returns (k: nat)
    ensures var out := Rendered(WpEditTree(e, td, current, None, score, source, namespace), StandardEscape, false);
      k + 21 <= |out| && out[k..k + 21] == "<previous>" + "</previous>"
  {
    var tree := WpEditTree(e, td, current, None, score, source, namespace);
    BlockAt(e, td, current, None, score, source, namespace);
    EmptyPreviousRendered();
    var child := Serialize(IndentChild(Node("previous", []), 0, false), QuoteEscape(StandardEscape));
    k := IndentedChildRendered(tree, QuoteEscape(StandardEscape), 12);
    var out := Serialize(IndentNode(tree, 0), QuoteEscape(StandardEscape));
    assert Rendered(tree, StandardEscape, false) == out;
    SliceOfSlice(out, k, |child|, 21);
  }

  lemma SliceOfSlice<T>(s: seq<T>, k: nat, n: nat, m: nat)
    requires k + n <= |s| && m <= n
    ensures s[k..k + m] == s[k..k + n][..m]
  {
  }

  /** The previous block is the thirteenth child of a WPEdit element, which has at least fourteen. */
  lemma BlockAt(e: Edit, td: TrainingData, current: RevisionRow, previous: Option<RevisionRow>,
                score: Option<ScoreData>, source: Option<string>, namespace: string)
    ensures var cs := WpEditTree(e, td, current, previous, score, source, namespace).children;
            |cs| >= 14 && cs[12] == PreviousBlock(previous)
  {
    var head := [EditDbBlock(e, source), Leaf("EditType", Some("change")), Leaf("EditID", Number(e.id))];
    var blocks := [CommonBlock(td, namespace), CurrentBlock(current), PreviousBlock(previous), ReviewInterfaceBlock(e)];
    ThirdPart(head, EditLeaves(td), blocks, VerdictAndScores(e, score), 2);
  }

  lemma ThirdPart<T>(a: seq<T>, b: seq<T>, c: seq<T>, d: seq<T>, j: nat)
    requires j < |c|
    ensures (a + b + c + d)[|a| + |b| + j] == c[j]
  {
  }
}
