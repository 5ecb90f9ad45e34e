/**
 * The part of ElementTree the edit-set codec relies on: an element is a
 * tag, an optional text, an ordered list of children and an optional tail;
 * `indent` fills in whitespace, `tostring` with `short_empty_elements=False`
 * writes every element as a start and an end tag, character data goes
 * through the module's current escaping function, and `iterparse` with
 * start and end events yields each element twice, around its children.
 */
module Xml {
  import opened Wrappers

  datatype Element = Element(tag: string, text: Option<string>, children: seq<Element>, tail: Option<string>)

  /** `ET.SubElement(parent, tag).text = text` */
  function Leaf(tag: string, text: Option<string>): Element
  {
    Element(tag, text, [], None)
  }

  /** An element built by `ET.Element` / `ET.SubElement` whose text is never set. */
  function Node(tag: string, children: seq<Element>): Element
  {
    Element(tag, None, children, None)
  }

  function Tags(es: seq<Element>): (r: seq<string>)
    ensures |r| == |es| && forall i | 0 <= i < |es| :: r[i] == es[i].tag
  {
    seq(|es|, i requires 0 <= i < |es| => es[i].tag)
  }

  lemma TagsConcat(a: seq<Element>, b: seq<Element>)
    ensures Tags(a + b) == Tags(a) + Tags(b)
  {
  }

  // ---------------------------------------------------------------------
  // Escaping of character data

  /** What `_escape_cdata` writes for one character. */
  function EscapeChar(c: char): string
  {
    if c == '&' then "&amp;" else if c == '<' then "&lt;" else if c == '>' then "&gt;" else [c]
  }

  /** `_escape_cdata`: `&`, then `<`, then `>` are replaced by their entities. */
  function EscapeCdata(s: string): string
  {
    if s == [] then [] else EscapeChar(s[0]) + EscapeCdata(s[1..])
  }

  /** `text.replace('"', "&quot;")` */
  function ReplaceQuotes(s: string): string
  {
    if s == [] then [] else (if s[0] == '"' then "&quot;" else [s[0]]) + ReplaceQuotes(s[1..])
  }

  /**
   * The function installed as `ET._escape_cdata`: the library's own, or the
   * dumper's replacement wrapped around whatever was installed before it.
   */
  datatype Escaper = StandardEscape | QuoteEscape(original: Escaper)

  function Apply(esc: Escaper, s: string): string
  {
    match esc
    case StandardEscape => EscapeCdata(s)
    case QuoteEscape(original) =>
      var text := Apply(original, s);
      if '"' in text then ReplaceQuotes(text) else text
  }

  /** The dumper's escaping over the library's: one entity or character per input character. */
  function FullEscapeChar(c: char): string
  {
    if c == '"' then "&quot;" else EscapeChar(c)
  }

  function FullEscape(s: string): string
  {
    if s == [] then [] else FullEscapeChar(s[0]) + FullEscape(s[1..])
  }

  lemma {:induction false} ReplaceQuotesWithoutQuote(s: string)
    requires '"' !in s
    ensures ReplaceQuotes(s) == s
    decreases |s|
  {
    if s != [] {
      assert s[0] != '"' && '"' !in s[1..] by { assert s[0] in s; }
      ReplaceQuotesWithoutQuote(s[1..]);
    }
  }

  lemma {:induction false} ReplaceQuotesAppend(a: string, b: string)
    ensures ReplaceQuotes(a + b) == ReplaceQuotes(a) + ReplaceQuotes(b)
    decreases |a|
  {
    if a != [] {
      assert (a + b)[0] == a[0] && (a + b)[1..] == a[1..] + b;
      ReplaceQuotesAppend(a[1..], b);
      var head := if a[0] == '"' then "&quot;" else [a[0]];
      assert ReplaceQuotes(a + b) == head + ReplaceQuotes(a[1..] + b);
      assert ReplaceQuotes(a) == head + ReplaceQuotes(a[1..]);
      assert head + (ReplaceQuotes(a[1..]) + ReplaceQuotes(b)) == (head + ReplaceQuotes(a[1..])) + ReplaceQuotes(b);
    } else {
      assert a + b == b;
    }
  }

  lemma {:induction false} EscapeThenQuotes(s: string)
    ensures ReplaceQuotes(EscapeCdata(s)) == FullEscape(s)
    decreases |s|
  {
    if s != [] {
      ReplaceQuotesAppend(EscapeChar(s[0]), EscapeCdata(s[1..]));
      EscapeThenQuotes(s[1..]);
      if s[0] != '"' {
        ReplaceQuotesWithoutQuote(EscapeChar(s[0]));
      }
    }
  }

  lemma {:induction false} FullEscapeClean(s: string)
    ensures '"' !in FullEscape(s) && '<' !in FullEscape(s) && '>' !in FullEscape(s)
    decreases |s|
  {
    if s != [] {
      FullEscapeClean(s[1..]);
    }
  }

  lemma {:induction false} FullEscapePlain(s: string)
    requires '"' !in s
    ensures FullEscape(s) == EscapeCdata(s)
    decreases |s|
  {
    if s != [] {
      assert s[0] != '"' && '"' !in s[1..] by { assert s[0] in s; }
      FullEscapePlain(s[1..]);
    }
  }

  /**
   * The dumper's escaping over the library's is `FullEscape`, and its
   * output holds no raw double quote and no raw angle bracket.
   */
  lemma ExtendedEscape(s: string)
    ensures Apply(QuoteEscape(StandardEscape), s) == FullEscape(s)
    ensures '"' !in Apply(QuoteEscape(StandardEscape), s)
    ensures '<' !in Apply(QuoteEscape(StandardEscape), s) && '>' !in Apply(QuoteEscape(StandardEscape), s)
  {
    var text := EscapeCdata(s);
    if '"' in text {
      EscapeThenQuotes(s);
    } else {
      ReplaceQuotesWithoutQuote(text);
      EscapeThenQuotes(s);
    }
    FullEscapeClean(s);
  }

  /** What an XML parser reports for escaped character data: the four entities decoded. */
  function Unescape(s: string): string
    decreases |s|
  {
    if s == [] then []
    else if |s| >= 5 && s[..5] == "&amp;" then "&" + Unescape(s[5..])
    else if |s| >= 4 && s[..4] == "&lt;" then "<" + Unescape(s[4..])
    else if |s| >= 4 && s[..4] == "&gt;" then ">" + Unescape(s[4..])
    else if |s| >= 6 && s[..6] == "&quot;" then "\"" + Unescape(s[6..])
    else [s[0]] + Unescape(s[1..])
  }

  lemma UnescapeChar(c: char, rest: string)
    ensures Unescape(FullEscapeChar(c) + rest) == [c] + Unescape(rest)
  {
    if c == '&' {
      UnescapeEntity("&amp;", '&', rest);
    } else if c == '<' {
      UnescapeEntity("&lt;", '<', rest);
    } else if c == '>' {
      UnescapeEntity("&gt;", '>', rest);
    } else if c == '"' {
      UnescapeEntity("&quot;", '"', rest);
    } else {
      assert FullEscapeChar(c) == [c];
      UnescapePlain(c, rest);
    }
  }

  /** An entity at the front decodes to its character. */
  lemma UnescapeEntity(entity: string, c: char, rest: string)
    requires (entity, c) in {("&amp;", '&'), ("&lt;", '<'), ("&gt;", '>'), ("&quot;", '"')}
    ensures Unescape(entity + rest) == [c] + Unescape(rest)
  {
    var s := entity + rest;
    assert s[..|entity|] == entity && s[|entity|..] == rest;
    assert s[1] == entity[1];
  }

  /** A character that starts no entity stands for itself. */
  lemma UnescapePlain(c: char, rest: string)
    requires c != '&'
    ensures Unescape([c] + rest) == [c] + Unescape(rest)
  {
    var s := [c] + rest;
    assert s[0] == c && s[1..] == rest;
  }

  /** Parsing back what the dumper escaped gives the original text. */
  lemma {:induction false} UnescapeFullEscape(s: string)
    ensures Unescape(FullEscape(s)) == s
    decreases |s|
  {
    if s != [] {
      UnescapeChar(s[0], FullEscape(s[1..]));
      UnescapeFullEscape(s[1..]);
    }
  }

  // ---------------------------------------------------------------------
  // Whitespace and `ET.indent`

  /** The characters Python's `str.strip()` removes. */
  predicate IsSpace(c: char)
  {
    || c == ' ' || ('\t' <= c <= '\r') || ('\U{1C}' <= c <= '\U{1F}') || c == '\U{85}' || c == '\U{A0}'
    || c == '\U{1680}' || ('\U{2000}' <= c <= '\U{200A}') || c == '\U{2028}' || c == '\U{2029}'
    || c == '\U{202F}' || c == '\U{205F}' || c == '\U{3000}'
  }

  /** `not text` or `not text.strip()` */
  predicate Blank(t: Option<string>)
  {
    t.None? || forall i | 0 <= i < |t.value| :: IsSpace(t.value[i])
  }

  function Spaces(n: nat): (r: string)
    ensures |r| == n && forall i | 0 <= i < n :: r[i] == ' '
  {
    if n == 0 then "" else Spaces(n - 1) + " "
  }

  /** `"\n" + level * space` with `space=" "` */
  function Indentation(level: nat): string
  {
    "\n" + Spaces(level)
  }

  /** `ET.indent(tree, space=" ")`: an element without children is left as it is. */
  function Indent(root: Element): Element
  {
    if root.children == [] then root else IndentNode(root, 0)
  }

  /** `_indent_children(elem, level)` */
  function IndentNode(e: Element, level: nat): Element
    decreases e, |e.children| + 1
  {
    e.(text := if Blank(e.text) then Some(Indentation(level + 1)) else e.text,
       children := IndentFrom(e, level, 0))
  }

  /** The children of `e` from position `from` on, each indented and given its tail. */
  function IndentFrom(e: Element, level: nat, from: nat): (r: seq<Element>)
    ensures |r| == if from <= |e.children| then |e.children| - from else 0
    decreases e, |e.children| - from
  {
    if from >= |e.children| then []
    else [IndentChild(e.children[from], level, from == |e.children| - 1)] + IndentFrom(e, level, from + 1)
  }

  /** One child: its own children indented one level deeper; a blank tail becomes the indentation. */
  function IndentChild(c: Element, level: nat, last: bool): Element
    decreases c, |c.children| + 2
  {
    var inner := if c.children != [] then IndentNode(c, level + 1) else c;
    inner.(tail := if !Blank(c.tail) then c.tail else if last then Some(Indentation(level)) else Some(Indentation(level + 1)))
  }

  /** Indenting keeps each child's tag and, for a child without children, its text. */
  lemma {:induction false} IndentFromShape(e: Element, level: nat, from: nat, i: nat)
    requires from <= i < |e.children|
    ensures IndentFrom(e, level, from)[i - from].tag == e.children[i].tag
    ensures e.children[i].children == [] ==>
              IndentFrom(e, level, from)[i - from].children == [] &&
              IndentFrom(e, level, from)[i - from].text == e.children[i].text
    ensures e.children[i].children != [] ==>
              IndentFrom(e, level, from)[i - from].children == IndentFrom(e.children[i], level + 1, 0)
    decreases |e.children| - from
  {
    if i > from {
      IndentFromShape(e, level, from + 1, i);
    } else {
      var c := e.children[i];
      var child := IndentChild(c, level, i == |e.children| - 1);
      assert IndentFrom(e, level, from)[0] == child;
      if c.children != [] {
        assert child.tag == IndentNode(c, level + 1).tag == c.tag;
        assert child.children == IndentNode(c, level + 1).children == IndentFrom(c, level + 1, 0);
      }
    }
  }

  /** Indenting from a later position is a suffix of indenting from an earlier one. */
  lemma {:induction false} IndentFromSuffix(e: Element, level: nat, from: nat, i: nat)
    requires from <= i < |e.children|
    ensures IndentFrom(e, level, from)[i - from] == IndentFrom(e, level, i)[0]
    decreases i - from
  {
    if from < i {
      IndentFromSuffix(e, level, from + 1, i);
    }
  }

  // ---------------------------------------------------------------------
  // `ET.tostring(elem, encoding="unicode", short_empty_elements=False)`

  /** An element: start tag, escaped text, children, end tag, escaped tail. */
  function Serialize(e: Element, esc: Escaper): string
    decreases e, |e.children| + 1
  {
    Opening(e, esc) + SerializeFrom(e, esc, 0) + Closing(e, esc)
  }

  /** Text and tails are written only when non-empty, through the installed escaping. */
  function CharData(esc: Escaper, t: Option<string>): string
  {
    if t.Some? && t.value != "" then Apply(esc, t.value) else ""
  }

  function Opening(e: Element, esc: Escaper): string
  {
    "<" + e.tag + ">" + CharData(esc, e.text)
  }

  function Closing(e: Element, esc: Escaper): string
  {
    "</" + e.tag + ">" + CharData(esc, e.tail)
  }

  function SerializeFrom(e: Element, esc: Escaper, from: nat): string
    decreases e, |e.children| - from
  {
    if from >= |e.children| then "" else Serialize(e.children[from], esc) + SerializeFrom(e, esc, from + 1)
  }

  /** With `short_empty_elements=False` an element with nothing in it is written `<tag></tag>`. */
  lemma EmptyElementForm(tag: string, esc: Escaper)
    ensures Serialize(Node(tag, []), esc) == "<" + tag + "></" + tag + ">"
  {
  }

  // ---------------------------------------------------------------------
  // `ET.iterparse(path, events=("start", "end"))`

  datatype Kind = Start | End

  /** One event: its kind and the element's tag and text as the parser reports them. */
  datatype Event = Event(kind: Kind, tag: string, text: Option<string>)

  /** Empty character data is reported as no text. */
  function TextSeen(t: Option<string>): Option<string>
  {
    if t.Some? && t.value != "" then t else None
  }

  /**
   * The events for an element: its start, its children's events in
   * document order, its end. The element's text, unescaped, is attached to
   * both of its events.
   */
  function Events(e: Element): seq<Event>
    decreases e, |e.children| + 1
  {
    [Event(Start, e.tag, TextSeen(e.text))] + EventsFrom(e, 0) + [Event(End, e.tag, TextSeen(e.text))]
  }

  function EventsFrom(e: Element, from: nat): seq<Event>
    decreases e, |e.children| - from
  {
    if from >= |e.children| then [] else Events(e.children[from]) + EventsFrom(e, from + 1)
  }

  // ---------------------------------------------------------------------
  // Lines

  /** The line boundaries of Python's `str.splitlines()`. */
  predicate IsLineBreak(c: char)
  {
    ('\n' <= c <= '\r') || ('\U{1C}' <= c <= '\U{1E}') || c == '\U{85}' || c == '\U{2028}' || c == '\U{2029}'
  }

  /** The position of the first line boundary, or the length. */
  function LineEnd(s: string): (k: nat)
    ensures k <= |s| && (k < |s| ==> IsLineBreak(s[k]))
    ensures forall i | 0 <= i < k :: !IsLineBreak(s[i])
  {
    if s == [] || IsLineBreak(s[0]) then 0 else 1 + LineEnd(s[1..])
  }

  /** `s.splitlines()`: `\r\n` is one boundary and a final boundary adds no empty line. */
  function SplitLines(s: string): seq<string>
    decreases |s|
  {
    if s == [] then []
    else
      var k := LineEnd(s);
      if k == |s| then [s]
      else if s[k] == '\r' && k + 1 < |s| && s[k + 1] == '\n' then [s[..k]] + SplitLines(s[k + 2..])
      else [s[..k]] + SplitLines(s[k + 1..])
  }

  /** `"\n".join(lines)` */
  function JoinLines(lines: seq<string>): string
  {
    if lines == [] then "" else if |lines| == 1 then lines[0] else lines[0] + "\n" + JoinLines(lines[1..])
  }

  /** `s.strip()` seen from the left: `s.strip().startswith("<")` */
  predicate StartsWithTag(line: string)
  {
    exists k | 0 <= k < |line| :: line[k] == '<' && forall j | 0 <= j < k :: IsSpace(line[j])
  }

  /** A function that computes `StartsWithTag` by scanning from the left. */
  function FirstVisible(line: string): Option<char>
  {
    if line == [] then None else if IsSpace(line[0]) then FirstVisible(line[1..]) else Some(line[0])
  }

  lemma {:induction false} FirstVisibleStartsWithTag(line: string)
    ensures StartsWithTag(line) <==> FirstVisible(line) == Some('<')
    decreases |line|
  {
    if line != [] {
      FirstVisibleStartsWithTag(line[1..]);
      if IsSpace(line[0]) {
        if StartsWithTag(line) {
          var k :| 0 <= k < |line| && line[k] == '<' && forall j | 0 <= j < k :: IsSpace(line[j]);
          assert k > 0;
          assert line[1..][k - 1] == '<' && forall j | 0 <= j < k - 1 :: IsSpace(line[1..][j]);
        }
        if StartsWithTag(line[1..]) {
          var k :| 0 <= k < |line[1..]| && line[1..][k] == '<' && forall j | 0 <= j < k :: IsSpace(line[1..][j]);
          assert line[k + 1] == '<' && forall j | 0 <= j < k + 1 :: IsSpace(line[j]);
        }
      } else if StartsWithTag(line) {
        var k :| 0 <= k < |line| && line[k] == '<' && forall j | 0 <= j < k :: IsSpace(line[j]);
        assert k == 0;
      }
    }
  }

  // ---------------------------------------------------------------------
  // Where pieces sit in a rendering

  /** What `splitlines` gives back holds no character the text did not hold. */
  lemma {:induction false} SplitLinesChars(s: string, c: char)
    requires c !in s
    ensures forall i | 0 <= i < |SplitLines(s)| :: c !in SplitLines(s)[i]
    decreases |s|
  {
    if s != [] {
      var k := LineEnd(s);
      if k < |s| {
        var skip := if s[k] == '\r' && k + 1 < |s| && s[k + 1] == '\n' then k + 2 else k + 1;
        var rest := s[skip..];
        NotInSlice(s, c, 0, k);
        NotInSlice(s, c, skip, |s|);
        assert s[0..k] == s[..k] && s[skip..|s|] == rest;
        SplitLinesChars(rest, c);
        assert SplitLines(s) == [s[..k]] + SplitLines(rest);
      } else {
        assert SplitLines(s) == [s];
      }
    }
  }

  lemma NotInSlice(s: string, c: char, lo: nat, hi: nat)
    requires c !in s && lo <= hi <= |s|
    ensures c !in s[lo..hi]
  {
    forall j | 0 <= j < hi - lo
      ensures s[lo..hi][j] != c
    {
      assert s[lo..hi][j] == s[lo + j];
    }
  }


  /** The rendering of an indented element holds the rendering of each of its indented children. */
  lemma IndentedChildRendered(t: Element, esc: Escaper, i: nat) returns (k: nat)
    requires i < |t.children|
    ensures var out := Serialize(IndentNode(t, 0), esc);
            var child := Serialize(IndentChild(t.children[i], 0, i == |t.children| - 1), esc);
            k + |child| <= |out| && out[k..k + |child|] == child
  {
    var root := IndentNode(t, 0);
    IndentFromSuffix(t, 0, 0, i);
    assert root.children[i] == IndentChild(t.children[i], 0, i == |t.children| - 1);
    k := ChildRendered(root, esc, i);
  }

  /** The rendering of an element holds the rendering of each of its children. */
  lemma ChildRendered(root: Element, esc: Escaper, i: nat) returns (k: nat)
    requires i < |root.children|
    ensures var out := Serialize(root, esc);
            var child := Serialize(root.children[i], esc);
            k + |child| <= |out| && out[k..k + |child|] == child
  {
    var j := SerializeFromHasChild(root, esc, 0, i);
    var head, body, rest := Opening(root, esc), SerializeFrom(root, esc, 0), Closing(root, esc);
    SliceThrough(head, body, rest, j, Serialize(root.children[i], esc));
    k := |head| + j;
  }

  /** Each child's rendering is a slice of the rendering of the children. */
  lemma SerializeFromHasChild(e: Element, esc: Escaper, from: nat, i: nat) returns (k: nat)
    requires from <= i < |e.children|
    ensures k + |Serialize(e.children[i], esc)| <= |SerializeFrom(e, esc, from)|
    ensures SerializeFrom(e, esc, from)[k..k + |Serialize(e.children[i], esc)|] == Serialize(e.children[i], esc)
  {
    SerializeFromJoin(e, esc, from);
    k := JoinHas(ChildTexts(e, esc), from, i);
  }

  /** The renderings of the children of `e`, in order. */
  function ChildTexts(e: Element, esc: Escaper): (r: seq<string>)
    ensures |r| == |e.children| && forall j | 0 <= j < |e.children| :: r[j] == Serialize(e.children[j], esc)
  {
    seq(|e.children|, j requires 0 <= j < |e.children| => Serialize(e.children[j], esc))
  }

  /** The concatenation of `parts` from position `from` on. */
  function Join(parts: seq<string>, from: nat): string
    decreases |parts| - from
  {
    if from >= |parts| then "" else parts[from] + Join(parts, from + 1)
  }

  lemma {:induction false} SerializeFromJoin(e: Element, esc: Escaper, from: nat)
    ensures SerializeFrom(e, esc, from) == Join(ChildTexts(e, esc), from)
    decreases |e.children| - from
  {
    var parts := ChildTexts(e, esc);
    if from < |e.children| {
      SerializeFromJoin(e, esc, from + 1);
      SerializeFromStep(e, esc, from);
      JoinStep(parts, from);
      assert parts[from] == Serialize(e.children[from], esc);
    } else {
      assert Join(parts, from) == "";
    }
  }

  lemma JoinStep(parts: seq<string>, from: nat)
    requires from < |parts|
    ensures Join(parts, from) == parts[from] + Join(parts, from + 1)
  {
  }

  /** Each part is a slice of the concatenation. */
  lemma {:induction false} JoinHas(parts: seq<string>, from: nat, i: nat) returns (k: nat)
    requires from <= i < |parts|
    ensures k + |parts[i]| <= |Join(parts, from)| && Join(parts, from)[k..k + |parts[i]|] == parts[i]
    decreases i - from
  {
    if from == i {
      k := 0;
      FirstOfTwo(parts[from], Join(parts, from + 1));
    } else {
      var k' := JoinHas(parts, from + 1, i);
      k := |parts[from]| + k';
      InSecondOfTwo(parts[from], Join(parts, from + 1), k', parts[i]);
    }
  }

  lemma FirstOfTwo<T>(a: seq<T>, b: seq<T>)
    ensures |a| <= |a + b| && (a + b)[0..|a|] == a
  {
    SliceInPrefix(a, b, 0, |a|);
    assert a[0..|a|] == a;
  }

  lemma InSecondOfTwo<T>(a: seq<T>, b: seq<T>, k: nat, c: seq<T>)
    requires k + |c| <= |b| && b[k..k + |c|] == c
    ensures |a| + k + |c| <= |a + b| && (a + b)[|a| + k..|a| + k + |c|] == c
  {
    SliceShift(a, b, k, |c|);
  }

  lemma SerializeFromStep(e: Element, esc: Escaper, from: nat)
    requires from < |e.children|
    ensures SerializeFrom(e, esc, from) == Serialize(e.children[from], esc) + SerializeFrom(e, esc, from + 1)
  {
  }

  lemma SliceShift<T>(a: seq<T>, b: seq<T>, k: nat, n: nat)
    requires k + n <= |b|
    ensures (a + b)[|a| + k..|a| + k + n] == b[k..k + n]
  {
  }

  lemma SliceInPrefix<T>(a: seq<T>, b: seq<T>, k: nat, n: nat)
    requires k + n <= |a|
    ensures (a + b)[k..k + n] == a[k..k + n]
  {
  }

  lemma SliceThrough<T>(head: seq<T>, body: seq<T>, rest: seq<T>, j: nat, c: seq<T>)
    requires j + |c| <= |body| && body[j..j + |c|] == c
    ensures |head| + j + |c| <= |head + body + rest|
    ensures (head + body + rest)[|head| + j..|head| + j + |c|] == c
  {
    SliceShift(head, body, j, |c|);
    SliceInPrefix(head + body, rest, |head| + j, |c|);
  }
}
