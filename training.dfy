/**
 * `WikipediaTraining`: the record of an edit built from the answers of the
 * Wikipedia API and of the replica database. The answers are inputs (one
 * function per query, taking exactly the query's parameters); what is
 * modelled is how they are shaped and the guard chain of `build_wp_edit`.
 */
module Training {
  import opened Wrappers
  import opened Strings
  import opened Models
  import opened WpRecords
  import Settings

  // ---------------------------------------------------------------------
  // `_clean_page_title`

  /** The alternatives of the namespace-prefix pattern, in the order of the name-to-id table. */
  function NamespaceNames(): (names: seq<string>)
    ensures |names| == |Settings.NamespaceTable|
    ensures forall i | 0 <= i < |names| :: names[i] == Settings.NamespaceTable[i].0
  {
    seq(|Settings.NamespaceTable|, i requires 0 <= i < |Settings.NamespaceTable| => Settings.NamespaceTable[i].0)
  }

  /** The title starts with the (lower-case) name, in any case, followed by a colon. */
  predicate PrefixedBy(title: string, name: string)
  {
    |name| < |title| && Lower(title[..|name|]) == name && title[|name|] == ':'
  }

  /** The length of the name the anchored alternation matches first, if any. */
  function MatchedPrefix(names: seq<string>, title: string): (r: Option<nat>)
    ensures r.Some? ==> r.value < |title|
  {
    if names == [] then None
    else if PrefixedBy(title, names[0]) then Some(|names[0]|)
    else MatchedPrefix(names[1..], title)
  }

  /** The alternation fails exactly when no name prefixes the title, and otherwise matches the length of one that does. */
  lemma {:induction false} MatchedPrefixSound(names: seq<string>, title: string)
    ensures MatchedPrefix(names, title).None? <==> forall n | n in names :: !PrefixedBy(title, n)
    ensures MatchedPrefix(names, title).Some? ==>
              exists n | n in names :: PrefixedBy(title, n) && MatchedPrefix(names, title).value == |n|
  {
    if names != [] && !PrefixedBy(title, names[0]) {
      MatchedPrefixSound(names[1..], title);
      assert forall n | n in names[1..] :: n in names;
      assert forall n | n in names :: n == names[0] || n in names[1..];
    }
  }

  /** Removing the prefix the alternation of `names` matches first, if any. */
  function StripPrefixOf(names: seq<string>, title: string): string
  {
    match MatchedPrefix(names, title)
    case None => title
    case Some(k) => title[k + 1..]
  }

  /** `_RE_NS_PREFIX.sub("", title)`: the anchored pattern matches at most once, at the start. */
  function StripNamespacePrefix(title: string): string
  {
    StripPrefixOf(NamespaceNames(), title)
  }

  /** With colon-free names, a title prefixed by one of them loses exactly that prefix, and any other title is kept. */
  lemma {:induction false} StripPrefixOfStrips(names: seq<string>, title: string)
    requires forall n | n in names :: ':' !in n
    ensures (forall n | n in names :: !PrefixedBy(title, n)) ==> StripPrefixOf(names, title) == title
    ensures forall n | n in names && PrefixedBy(title, n) :: StripPrefixOf(names, title) == title[|n| + 1..]
    decreases |names|
  {
    if names != [] {
      if PrefixedBy(title, names[0]) {
        assert StripPrefixOf(names, title) == title[|names[0]| + 1..];
        forall n | n in names && PrefixedBy(title, n)
          ensures StripPrefixOf(names, title) == title[|n| + 1..]
        {
          PrefixUnique(title, names[0], n);
        }
      } else {
        var rest := names[1..];
        assert StripPrefixOf(names, title) == StripPrefixOf(rest, title);
        assert forall n | n in names && n != names[0] :: n in rest;
        assert forall n | n in rest :: n in names;
        StripPrefixOfStrips(rest, title);
      }
    }
  }

  /** `title.replace(" ", "_")` */
  function Underscored(s: string): (r: string)
    ensures |r| == |s| && ' ' !in r
  {
    seq(|s|, i requires 0 <= i < |s| => if s[i] == ' ' then '_' else s[i])
  }

  function CleanPageTitle(title: string): string
  {
    Underscored(StripNamespacePrefix(title))
  }

  /** No namespace name contains a colon. */
  lemma NamesColonFree()
    ensures forall n | n in NamespaceNames() :: ':' !in n
  {
    forall n | n in NamespaceNames()
      ensures ':' !in n
    {
      var i :| 0 <= i < |NamespaceNames()| && NamespaceNames()[i] == n;
      EntryColonFree(i);
    }
  }

  lemma EntryColonFree(i: int)
    requires 0 <= i < |Settings.NamespaceTable|
    ensures ':' !in Settings.NamespaceTable[i].0
  {
    NamesColonFree0();
    NamesColonFree1();
    NamesColonFree2();
    NamesColonFree3();
  }

  lemma NamesColonFree0()
    ensures ':' !in "special" &&
            ':' !in "media" &&
            ':' !in "main" &&
            ':' !in "talk" &&
            ':' !in "user" &&
            ':' !in "user talk" &&
            ':' !in "wikipedia" &&
            ':' !in "wikipedia talk"
  {
  }

  lemma NamesColonFree1()
    ensures ':' !in "file" &&
            ':' !in "file talk" &&
            ':' !in "mediawiki" &&
            ':' !in "mediawiki talk" &&
            ':' !in "template" &&
            ':' !in "template talk" &&
            ':' !in "help" &&
            ':' !in "help talk"
  {
  }

  lemma NamesColonFree2()
    ensures ':' !in "category" &&
            ':' !in "category talk" &&
            ':' !in "portal" &&
            ':' !in "portal talk" &&
            ':' !in "book" &&
            ':' !in "book talk" &&
            ':' !in "draft" &&
            ':' !in "draft talk"
  {
  }

  lemma NamesColonFree3()
    ensures ':' !in "timedtext" &&
            ':' !in "timedtext talk" &&
            ':' !in "module" &&
            ':' !in "module talk" &&
            ':' !in "gadget" &&
            ':' !in "gadget talk" &&
            ':' !in "gadget definition" &&
            ':' !in "gadget definition talk"
  {
  }

  /** Two names that both prefix a title are the same name: which alternative is tried first does not matter. */
  lemma PrefixUnique(title: string, n: string, m: string)
    requires ':' !in n && ':' !in m && PrefixedBy(title, n) && PrefixedBy(title, m)
    ensures n == m
  {
  }

  /**
   * A title prefixed by a namespace name and a colon, in any case, loses
   * exactly that prefix and no more; any other title keeps every character;
   * then every space becomes an underscore.
   */
  lemma CleanPageTitleStrips(title: string)
    ensures (forall n | n in NamespaceNames() :: !PrefixedBy(title, n)) ==> CleanPageTitle(title) == Underscored(title)
    ensures forall n | n in NamespaceNames() && PrefixedBy(title, n) :: CleanPageTitle(title) == Underscored(title[|n| + 1..])
  {
    NamesColonFree();
    StripPrefixOfStrips(NamespaceNames(), title);
  }

  /** Replacing spaces twice is replacing them once. */
  lemma UnderscoredIdempotent(s: string)
    ensures Underscored(Underscored(s)) == Underscored(s)
  {
  }

  /** A cleaned title has no space, and only the stripped prefix is lost. */
  lemma CleanPageTitleShape(title: string)
    ensures ' ' !in CleanPageTitle(title)
    ensures |CleanPageTitle(title)| <= |title|
    ensures |CleanPageTitle(title)| < |title| ==> exists n | n in NamespaceNames() :: PrefixedBy(title, n)
  {
    MatchedPrefixSound(NamespaceNames(), title);
  }

  /** The two titles of the module's tests: one is kept, one loses its space. */
  lemma CleanPageTitleKept()
    ensures CleanPageTitle("HelloWorld") == "HelloWorld"
  {
    CleanPageTitleNoColon("HelloWorld");
  }

  lemma CleanPageTitleSpaced()
    ensures CleanPageTitle("Hello World") == "Hello_World"
  {
    CleanPageTitleNoColon("Hello World");
  }

  /** A title without a colon is only underscored. */
  lemma CleanPageTitleNoColon(title: string)
    requires ':' !in title
    ensures CleanPageTitle(title) == Underscored(title)
  {
    CleanPageTitleStrips(title);
  }

  /**
   * A title written the way the API writes it, the capitalised namespace
   * name, a colon and the page's own name, loses the namespace part.
   */
  lemma CleanPageTitleOfNamespaced(i: int, rest: string)
    requires 0 <= i < |Settings.NamespaceTable|
    ensures CleanPageTitle(Capitalize(Settings.NamespaceTable[i].0) + ":" + rest) == Underscored(rest)
  {
    var n := Settings.NamespaceTable[i].0;
    var title := Capitalize(n) + ":" + rest;
    Settings.EntryNameHasNoUpperCase(i);
    NoUpperCaseIsLower(n);
    LowerOfCapitalize(n);
    assert title[..|n|] == Capitalize(n);
    assert NamespaceNames()[i] == n;
    assert PrefixedBy(title, n);
    CleanPageTitleStrips(title);
    assert title[|n| + 1..] == rest;
  }

  // ---------------------------------------------------------------------
  // `get_edit_metadata`

  /** The page an API answer lists first: its title and namespace id. */
  datatype PageInfo = PageInfo(title: string, ns: int)

  /**
   * The parts of the answer to the revision-id query that are read: whether
   * the query lists the id as bad, and the first listed page, if any (an
   * empty page entry counts as none).
   */
  datatype MetadataAnswer = MetadataAnswer(badRevids: bool, firstPage: Option<PageInfo>)

  /** The outcome of `get_edit_metadata`: a title and namespace name, the pair of Nones, or the KeyError of the id-to-name lookup. */
  datatype Metadata = Titled(title: string, namespace: string) | Untitled | UnknownNamespace

  function EditMetadata(a: MetadataAnswer): (m: Metadata)
    ensures m.Titled? <==> !a.badRevids && a.firstPage.Some? && a.firstPage.value.ns in Settings.IdToName()
    ensures m.UnknownNamespace? <==> !a.badRevids && a.firstPage.Some? && a.firstPage.value.ns !in Settings.IdToName()
    ensures m.Titled? ==> m.title == a.firstPage.value.title
  {
    if a.badRevids then Untitled
    else match a.firstPage
      case None => Untitled
      case Some(p) =>
        if p.ns in Settings.IdToName() then Titled(p.title, Settings.IdToName()[p.ns]) else UnknownNamespace
  }

  /**
   * The namespace name handed back is lower case and leads back to the
   * page's namespace id, so the name-to-id lookups the later queries make
   * with it never fail.
   */
  lemma EditMetadataNamespace(a: MetadataAnswer)
    requires EditMetadata(a).Titled?
    ensures Lower(EditMetadata(a).namespace) == EditMetadata(a).namespace
    ensures EditMetadata(a).namespace in Settings.NameToId()
    ensures Settings.NameToId()[EditMetadata(a).namespace] == a.firstPage.value.ns
  {
    Settings.IdToNameRoundTrip(a.firstPage.value.ns);
    Settings.NamesAreLowerCase(EditMetadata(a).namespace);
  }

  // ---------------------------------------------------------------------
  // `_is_revision_minor`, `get_page_revisions`

  /**
   * A revision as the page-revisions query lists it: the hidden markers, the
   * raw `minor` value, the timestamp (already parsed), user, comment, and
   * the content of the first slot, if it has one.
   */
  datatype ApiRevision = ApiRevision(
    texthidden: bool,
    userhidden: bool,
    minor: Option<string>,
    timestamp: int,
    user: string,
    comment: Option<string>,
    slotText: Option<string>)

  /** `_is_revision_minor`: a missing or empty `minor` value is not minor. */
  function IsRevisionMinor(r: ApiRevision): (b: bool)
    ensures b ==> r.minor.Some?
    ensures r.minor.Some? ==> (b <==> r.minor.value != "")
  {
    match r.minor
    case None => false
    case Some(v) => v != ""
  }

  /** The two revisions of the module's tests: none given, and the value "1". */
  lemma IsRevisionMinorExamples(r: ApiRevision)
    ensures !IsRevisionMinor(r.(minor := None))
    ensures IsRevisionMinor(r.(minor := Some("1")))
    ensures !IsRevisionMinor(r.(minor := Some("")))
  {
  }

  predicate Visible(r: ApiRevision)
  {
    !r.texthidden && !r.userhidden
  }

  /** The revisions whose text and user are both shown, in their order. */
  function FilterVisible(revs: seq<ApiRevision>): (r: seq<ApiRevision>)
    ensures |r| <= |revs|
    ensures forall x | x in r :: x in revs && Visible(x)
    ensures forall x | x in revs && Visible(x) :: x in r
  {
    if revs == [] then []
    else if Visible(revs[0]) then [revs[0]] + FilterVisible(revs[1..])
    else FilterVisible(revs[1..])
  }

  /** Filtering distributes over concatenation. */
  lemma {:induction false} FilterVisibleAppend(a: seq<ApiRevision>, b: seq<ApiRevision>)
    ensures FilterVisible(a + b) == FilterVisible(a) + FilterVisible(b)
  {
    if a == [] {
      assert a + b == b;
    } else {
      assert (a + b)[1..] == a[1..] + b;
      FilterVisibleAppend(a[1..], b);
    }
  }

  /** A list of shown revisions is kept whole; filtering twice is filtering once. */
  lemma {:induction false} FilterVisibleAllShown(revs: seq<ApiRevision>)
    requires forall i | 0 <= i < |revs| :: Visible(revs[i])
    ensures FilterVisible(revs) == revs
  {
    if revs != [] {
      FilterVisibleAllShown(revs[1..]);
    }
  }

  lemma FilterVisibleIdempotent(revs: seq<ApiRevision>)
    ensures FilterVisible(FilterVisible(revs)) == FilterVisible(revs)
  {
    var r := FilterVisible(revs);
    assert forall i | 0 <= i < |r| :: r[i] in r;
    FilterVisibleAllShown(r);
  }

  /** Hidden revisions before the first shown one are skipped. */
  lemma {:induction false} FilterVisibleSkips(revs: seq<ApiRevision>, i: int)
    requires 0 <= i <= |revs|
    requires forall j | 0 <= j < i :: !Visible(revs[j])
    ensures FilterVisible(revs) == FilterVisible(revs[i..])
  {
    if i > 0 {
      assert revs[1..][i - 1..] == revs[i..];
      FilterVisibleSkips(revs[1..], i - 1);
    }
  }

  /** The record of an API revision, for one whose first slot has a text. */
  function RevisionOf(r: ApiRevision): WpRevision
  {
    WpRevision(Some(r.timestamp), Some(r.user), r.comment, r.slotText, IsRevisionMinor(r), false)
  }

  /** A listed revision with text becomes its record, one without text an empty record. */
  function RevisionOrEmpty(r: ApiRevision): (w: WpRevision)
    ensures w == EmptyRevision <==> r.slotText.None?
    ensures r.slotText.Some? ==> w.timestamp == Some(r.timestamp) && w.user == Some(r.user) && w.text == r.slotText
    ensures r.slotText.Some? ==> w.comment == r.comment && w.isMinor == IsRevisionMinor(r) && !w.isCreation
  {
    if r.slotText.Some? then RevisionOf(r) else EmptyRevision
  }

  /**
   * `get_page_revisions`, given the revisions the first listed page holds
   * (None when no page is listed): the first two shown revisions, newest
   * first, as records.
   */
  function PageRevisions(page: Option<seq<ApiRevision>>): (WpRevision, WpRevision)
  {
    match page
    case None => (EmptyRevision, EmptyRevision)
    case Some(revs) =>
      var shown := FilterVisible(revs);
      if shown == [] then (EmptyRevision, EmptyRevision)
      else (RevisionOrEmpty(shown[0]), if |shown| > 1 then RevisionOrEmpty(shown[1]) else EmptyRevision)
  }

  /** Without a page, or without a shown revision, both records are empty. */
  lemma PageRevisionsEmpty(page: Option<seq<ApiRevision>>)
    requires page.None? || forall i | 0 <= i < |page.value| :: !Visible(page.value[i])
    ensures PageRevisions(page) == (EmptyRevision, EmptyRevision)
  {
    if page.Some? {
      FilterVisibleAllHidden(page.value);
    }
  }

  /**
   * The current record comes from the first shown revision, whatever hidden
   * revisions precede it; it is empty exactly when that revision has no text.
   */
  lemma PageRevisionsCurrent(revs: seq<ApiRevision>, i: int)
    requires 0 <= i < |revs| && Visible(revs[i])
    requires forall j | 0 <= j < i :: !Visible(revs[j])
    ensures PageRevisions(Some(revs)).0 == RevisionOrEmpty(revs[i])
  {
    FilterVisibleSkips(revs, i);
  }

  /**
   * The previous record comes from the second shown revision: only hidden
   * revisions lie between the first, at `i`, and it, at `k`.
   */
  lemma PageRevisionsPrevious(revs: seq<ApiRevision>, i: int, k: int)
    requires 0 <= i < k < |revs| && Visible(revs[i]) && Visible(revs[k])
    requires forall j | 0 <= j < i :: !Visible(revs[j])
    requires forall j | i < j < k :: !Visible(revs[j])
    ensures PageRevisions(Some(revs)).0 == RevisionOrEmpty(revs[i])
    ensures PageRevisions(Some(revs)).1 == RevisionOrEmpty(revs[k])
  {
    FirstShown(revs, i);
    FirstShown(revs[i + 1..], k - i - 1);
    assert revs[i + 1..][k - i - 1] == revs[k];
  }

  /** The first shown revision heads the filtered list. */
  lemma FirstShown(revs: seq<ApiRevision>, i: int)
    requires 0 <= i < |revs| && Visible(revs[i])
    requires forall j | 0 <= j < i :: !Visible(revs[j])
    ensures FilterVisible(revs) == [revs[i]] + FilterVisible(revs[i + 1..])
  {
    FilterVisibleSkips(revs, i);
    assert revs[i..][1..] == revs[i + 1..];
  }

  /** One shown revision leaves the previous record empty. */
  lemma PageRevisionsSingle(revs: seq<ApiRevision>, i: int)
    requires 0 <= i < |revs| && Visible(revs[i])
    requires forall j | 0 <= j < |revs| && j != i :: !Visible(revs[j])
    ensures PageRevisions(Some(revs)).0 == RevisionOrEmpty(revs[i])
    ensures PageRevisions(Some(revs)).1 == EmptyRevision
  {
    FilterVisibleSkips(revs, i);
    assert revs[i..][1..] == revs[i + 1..];
    FilterVisibleAllHidden(revs[i + 1..]);
  }

  lemma FilterVisibleAllHidden(revs: seq<ApiRevision>)
    requires forall j | 0 <= j < |revs| :: !Visible(revs[j])
    ensures FilterVisible(revs) == []
  {
    if FilterVisible(revs) != [] {
      assert FilterVisible(revs)[0] in FilterVisible(revs);
    }
  }

  /** The hidden revisions do not matter: the answer is the one for the shown ones alone. */
  lemma PageRevisionsOfShown(revs: seq<ApiRevision>)
    ensures PageRevisions(Some(revs)) == PageRevisions(Some(FilterVisible(revs)))
  {
    FilterVisibleIdempotent(revs);
  }

  // ---------------------------------------------------------------------
  // The replica queries and `build_wp_edit`

  const SecondsPerDay := 86400

  /** The truth value of an optional string field. */
  predicate Filled(v: Option<string>)
  {
    v.Some? && v.value != ""
  }

  /**
   * The answers of the API and of the replica database, one function per
   * query, applied to exactly the values the query is given. Times are
   * seconds. `complete` is `has_complete_training_data` of a revision.
   *   - `creation(ns, title)`: the first revision's time and actor for the page;
   *   - `recentEdits`, `recentReverts(ns, title, after, upTo)`: the page's
   *     revisions (those with a comment starting "Revert") in the window;
   *   - `userRegistration(user)`: the time of the user's first revision;
   *   - `userEditCount`, `userDistinctPages(user, upTo)`: the user's
   *     revisions, and the pages they touch, up to the time;
   *   - `userWarnings(ns, title, upTo)`: the revisions of that page whose
   *     comment mentions a warning or starts "General note: Nonconstructive".
   */
  datatype Sources = Sources(
    metadata: EditId -> MetadataAnswer,
    pageRevisions: (string, EditId) -> Option<seq<ApiRevision>>,
    creation: (int, string) -> Option<(int, string)>,
    recentEdits: (int, string, int, int) -> Option<int>,
    recentReverts: (int, string, int, int) -> Option<int>,
    userRegistration: Option<string> -> Option<int>,
    userEditCount: (Option<string>, int) -> Option<int>,
    userDistinctPages: (Option<string>, int) -> Option<int>,
    userWarnings: (int, Option<string>, int) -> Option<int>,
    complete: WpRevision -> bool)

  /** The outcome of `build_wp_edit`: the record, or an exception. */
  datatype Built = Built(edit: WpEdit) | Raised

  /** `WIKIPEDIA_NAMESPACE_NAME_TO_ID[namespace.lower()]`, None for the KeyError. */
  function NamespaceId(namespace: string): (r: Option<int>)
    ensures r.Some? <==> Lower(namespace) in Settings.NameToId()
  {
    if Lower(namespace) in Settings.NameToId() then Some(Settings.NameToId()[Lower(namespace)]) else None
  }

  /** The creation metadata and the two revisions, looked up for a titled record. */
  function WithPage(w: WpEdit, src: Sources): Built
    requires w.title.Some? && w.namespace.Some?
  {
    match NamespaceId(w.namespace.value)
    case None => Raised
    case Some(ns) =>
      var created := src.creation(ns, CleanPageTitle(w.title.value));
      var w1 := w.(creator := if created.Some? then Some(created.value.1) else None,
                   pageMadeTime := if created.Some? then Some(created.value.0) else None);
      var revisions := PageRevisions(src.pageRevisions(w.title.value, w.editId));
      var w2 := if src.complete(revisions.0) then w1.(current := Some(revisions.0)) else w1;
      Built(if src.complete(revisions.1) then w2.(previous := Some(revisions.1)) else w2)
  }

  /** The user fields, from the attached current revision; formatting a missing timestamp raises. */
  function WithUser(w: WpEdit, src: Sources): Built
  {
    if w.current.None? then Built(w)
    else
      var cur := w.current.value;
      match cur.timestamp
      case None => Raised
      case Some(t) =>
        Built(w.(user := cur.user, comment := cur.comment,
                 userRegTime := src.userRegistration(cur.user),
                 userEditCount := src.userEditCount(cur.user, t),
                 userDistinctPages := src.userDistinctPages(cur.user, t),
                 userWarns := src.userWarnings(Settings.UserTalkNamespace, cur.user, t)))
  }

  /** The page's recent edits and reverts, over the window that ends at the current revision. */
  function WithRecent(w: WpEdit, src: Sources): Built
  {
    if Filled(w.title) && Filled(w.namespace) && w.current.Some? then
      var ns := NamespaceId(w.namespace.value);
      var t := w.current.value.timestamp;
      if ns.None? || t.None? then Raised
      else
        var title := CleanPageTitle(w.title.value);
        var after := t.value - Settings.RecentEditWindowDays * SecondsPerDay;
        Built(w.(numRecentEdits := src.recentEdits(ns.value, title, after, t.value),
                 numRecentReversions := src.recentReverts(ns.value, title, after, t.value)))
    else Built(w)
  }

  /** The record after the metadata lookup, None for its KeyError. */
  function Metadataed(id: EditId, src: Sources): Option<WpEdit>
  {
    match EditMetadata(src.metadata(id))
    case UnknownNamespace => None
    case Untitled => Some(NewWpEdit(id))
    case Titled(title, namespace) => Some(NewWpEdit(id).(title := Some(title), namespace := Some(namespace)))
  }

  function BuildWpEdit(id: EditId, src: Sources): Built
  {
    match Metadataed(id, src)
    case None => Raised
    case Some(w0) =>
      match (if Filled(w0.title) && Filled(w0.namespace) then WithPage(w0, src) else Built(w0))
      case Raised => Raised
      case Built(w1) =>
        match WithUser(w1, src)
        case Raised => Raised
        case Built(w2) => WithRecent(w2, src)
  }

  /** The guard of the page lookups: the metadata gave a non-empty title and namespace. */
  predicate IsTitled(id: EditId, src: Sources)
  {
    var m := EditMetadata(src.metadata(id));
    m.Titled? && m.title != "" && m.namespace != ""
  }

  /** The two revisions the page-revisions query gives for a titled edit. */
  function RevisionsOf(id: EditId, src: Sources): (WpRevision, WpRevision)
    requires EditMetadata(src.metadata(id)).Titled?
  {
    PageRevisions(src.pageRevisions(EditMetadata(src.metadata(id)).title, id))
  }

  /** Every record `get_page_revisions` gives is empty or has its timestamp, user and text. */
  lemma PageRevisionsFilled(page: Option<seq<ApiRevision>>)
    ensures PageRevisions(page).0 == EmptyRevision || (PageRevisions(page).0.timestamp.Some? && PageRevisions(page).0.user.Some? && PageRevisions(page).0.text.Some?)
    ensures PageRevisions(page).1 == EmptyRevision || (PageRevisions(page).1.timestamp.Some? && PageRevisions(page).1.user.Some? && PageRevisions(page).1.text.Some?)
  {
  }

  /** The page lookups of a titled record, field by field. */
  lemma WithPageFields(w: WpEdit, src: Sources)
    requires Filled(w.title) && Filled(w.namespace) && Lower(w.namespace.value) in Settings.NameToId()
    requires w.current.None? && w.previous.None?
    ensures WithPage(w, src).Built?
    ensures var created := src.creation(Settings.NameToId()[Lower(w.namespace.value)], CleanPageTitle(w.title.value));
            var w' := WithPage(w, src).edit;
            && w'.creator == (if created.Some? then Some(created.value.1) else None)
            && w'.pageMadeTime == (if created.Some? then Some(created.value.0) else None)
    ensures var revisions := PageRevisions(src.pageRevisions(w.title.value, w.editId));
            var w' := WithPage(w, src).edit;
            && w'.current == (if src.complete(revisions.0) then Some(revisions.0) else None)
            && w'.previous == (if src.complete(revisions.1) then Some(revisions.1) else None)
    ensures var w' := WithPage(w, src).edit;
            w'.(creator := w.creator, pageMadeTime := w.pageMadeTime, current := None, previous := None) == w
  {
  }

  /**
   * `build_wp_edit` raises only when the metadata names a namespace id the
   * settings do not know, or when `has_complete_training_data` accepts the
   * empty current revision, whose missing timestamp cannot be formatted.
   * The name-to-id lookups of the replica queries never raise.
   */
  lemma BuildRaises(id: EditId, src: Sources)
    ensures BuildWpEdit(id, src).Raised? <==>
              || EditMetadata(src.metadata(id)).UnknownNamespace?
              || (IsTitled(id, src) && RevisionsOf(id, src).0 == EmptyRevision && src.complete(EmptyRevision))
  {
    var m := EditMetadata(src.metadata(id));
    if m.Titled? {
      EditMetadataNamespace(src.metadata(id));
      PageRevisionsFilled(src.pageRevisions(m.title, id));
      var w0 := Metadataed(id, src).value;
      if IsTitled(id, src) {
        WithPageFields(w0, src);
      }
    }
  }

  /** Without a non-empty title and namespace nothing but the metadata is looked up: the record has only its id, title and namespace. */
  lemma BuildUntitled(id: EditId, src: Sources)
    requires !IsTitled(id, src) && !EditMetadata(src.metadata(id)).UnknownNamespace?
    ensures BuildWpEdit(id, src).Built?
    ensures var m := EditMetadata(src.metadata(id));
            BuildWpEdit(id, src).edit ==
              NewWpEdit(id).(title := if m.Titled? then Some(m.title) else None,
                             namespace := if m.Titled? then Some(m.namespace) else None)
  {
  }

  /**
   * Whatever the lookups answer, a built record keeps the edit id, takes
   * its title and namespace from the metadata, leaves the previous user and
   * the classification fields unset.
   */
  lemma BuildIdentity(id: EditId, src: Sources)
    requires BuildWpEdit(id, src).Built?
    ensures var w := BuildWpEdit(id, src).edit;
            var m := EditMetadata(src.metadata(id));
            && w.editId == id
            && w.title == (if m.Titled? then Some(m.title) else None)
            && w.namespace == (if m.Titled? then Some(m.namespace) else None)
            && w.prevUser.None? && !w.isVandalism
            && w.editdbSource.None? && w.reviewers.None? && w.reviewersAgreeing.None?
  {
    var m := EditMetadata(src.metadata(id));
    if IsTitled(id, src) {
      EditMetadataNamespace(src.metadata(id));
      WithPageFields(Metadataed(id, src).value, src);
    }
  }

  /**
   * For a titled edit, the creation lookup is made with the page's own
   * namespace id and its cleaned title, and a revision is attached exactly
   * when it is complete.
   */
  lemma BuildPage(id: EditId, src: Sources)
    requires IsTitled(id, src) && BuildWpEdit(id, src).Built?
    ensures var w := BuildWpEdit(id, src).edit;
            var p := src.metadata(id).firstPage.value;
            var created := src.creation(p.ns, CleanPageTitle(p.title));
            && w.creator == (if created.Some? then Some(created.value.1) else None)
            && w.pageMadeTime == (if created.Some? then Some(created.value.0) else None)
    ensures var w := BuildWpEdit(id, src).edit;
            var revisions := src.pageRevisions(src.metadata(id).firstPage.value.title, id);
            && w.current == (if src.complete(PageRevisions(revisions).0) then Some(PageRevisions(revisions).0) else None)
            && w.previous == (if src.complete(PageRevisions(revisions).1) then Some(PageRevisions(revisions).1) else None)
  {
    EditMetadataNamespace(src.metadata(id));
    WithPageFields(Metadataed(id, src).value, src);
  }

  /**
   * The user fields are set exactly when a current revision is attached:
   * then the user and comment are the revision's, and the user queries are
   * made with its user and timestamp (the warning count on the user-talk
   * page named exactly as the user, not cleaned); otherwise they stay unset.
   */
  lemma BuildUser(id: EditId, src: Sources)
    requires BuildWpEdit(id, src).Built?
    ensures var w := BuildWpEdit(id, src).edit;
            w.current.Some? ==> w.current.value.timestamp.Some?
    ensures var w := BuildWpEdit(id, src).edit;
            w.current.Some? ==>
              var cur := w.current.value;
              var t := cur.timestamp.value;
              && w.user == cur.user && w.comment == cur.comment
              && w.userRegTime == src.userRegistration(cur.user)
              && w.userEditCount == src.userEditCount(cur.user, t)
              && w.userDistinctPages == src.userDistinctPages(cur.user, t)
              && w.userWarns == src.userWarnings(Settings.UserTalkNamespace, cur.user, t)
    ensures var w := BuildWpEdit(id, src).edit;
            w.current.None? ==>
              && w.user.None? && w.comment.None? && w.userRegTime.None?
              && w.userEditCount.None? && w.userDistinctPages.None? && w.userWarns.None?
    ensures !IsTitled(id, src) ==> BuildWpEdit(id, src).edit.current.None?
  {
    var w0 := Metadataed(id, src).value;
    if IsTitled(id, src) {
      EditMetadataNamespace(src.metadata(id));
      WithPageFields(w0, src);
    }
    var w1 := (if Filled(w0.title) && Filled(w0.namespace) then WithPage(w0, src) else Built(w0)).edit;
    var w2 := WithUser(w1, src).edit;
    assert w2.title == w0.title && w2.namespace == w0.namespace && w2.current == w1.current;
    assert BuildWpEdit(id, src) == WithRecent(w2, src);
  }

  /** `WithRecent` on a record with a title, namespace and current revision with a timestamp. */
  lemma WithRecentFields(w: WpEdit, src: Sources)
    requires Filled(w.title) && Filled(w.namespace) && w.current.Some? && w.current.value.timestamp.Some?
    requires NamespaceId(w.namespace.value).Some?
    ensures var ns := NamespaceId(w.namespace.value).value;
            var title := CleanPageTitle(w.title.value);
            var t := w.current.value.timestamp.value;
            WithRecent(w, src) == Built(w.(numRecentEdits := src.recentEdits(ns, title, t - Settings.RecentEditWindowDays * SecondsPerDay, t),
                                           numRecentReversions := src.recentReverts(ns, title, t - Settings.RecentEditWindowDays * SecondsPerDay, t)))
  {
  }

  /** The record `WithRecent` is given inside `build_wp_edit`. */
  function BeforeRecent(id: EditId, src: Sources): (w: WpEdit)
    requires BuildWpEdit(id, src).Built?
    ensures BuildWpEdit(id, src) == WithRecent(w, src)
    ensures w.title == Metadataed(id, src).value.title && w.namespace == Metadataed(id, src).value.namespace
    ensures w.current == BuildWpEdit(id, src).edit.current
    ensures w.numRecentEdits.None? && w.numRecentReversions.None?
  {
    var w0 := Metadataed(id, src).value;
    var w1 := (if Filled(w0.title) && Filled(w0.namespace) then WithPage(w0, src) else Built(w0)).edit;
    WithUser(w1, src).edit
  }

  /**
   * The recent counts are set exactly for a titled edit with a current
   * revision, over the fourteen days that end at that revision, on the
   * page's namespace id and cleaned title.
   */
  lemma BuildRecent(id: EditId, src: Sources)
    requires BuildWpEdit(id, src).Built?
    ensures var w := BuildWpEdit(id, src).edit;
            IsTitled(id, src) && w.current.Some? ==>
              var p := src.metadata(id).firstPage.value;
              var t := w.current.value.timestamp.value;
              && w.current.value.timestamp.Some?
              && w.numRecentEdits == src.recentEdits(p.ns, CleanPageTitle(p.title), t - Settings.RecentEditWindowDays * SecondsPerDay, t)
              && w.numRecentReversions == src.recentReverts(p.ns, CleanPageTitle(p.title), t - Settings.RecentEditWindowDays * SecondsPerDay, t)
    ensures var w := BuildWpEdit(id, src).edit;
            !(IsTitled(id, src) && w.current.Some?) ==> w.numRecentEdits.None? && w.numRecentReversions.None?
  {
    var w := BeforeRecent(id, src);
    BuildUser(id, src);
    if IsTitled(id, src) && w.current.Some? {
      EditMetadataNamespace(src.metadata(id));
      WithRecentFields(w, src);
    }
  }

  /**
   * A training row made from a built record carries the id and title of
   * the page the API named, the current revision's time and user, and no
   * previous user.
   */
  lemma BuildTrainingRow(id: EditId, src: Sources)
    requires BuildWpEdit(id, src).Built?
    requires TrainingRow(BuildWpEdit(id, src).edit, Settings.NameToId()).Some?
    ensures IsTitled(id, src) || EditMetadata(src.metadata(id)).Titled?
    ensures var row := TrainingRow(BuildWpEdit(id, src).edit, Settings.NameToId()).value;
            var p := src.metadata(id).firstPage.value;
            var w := BuildWpEdit(id, src).edit;
            && row.pageNamespace == p.ns && row.pageTitle == p.title
            && Some(row.timestamp) == w.current.value.timestamp
            && Some(row.user) == w.current.value.user
            && row.prevUser.None?
  {
    BuildIdentity(id, src);
    BuildUser(id, src);
    EditMetadataNamespace(src.metadata(id));
  }
}
