/**
 * The namespace tables and the CBNG_* thresholds of the project settings.
 * `CBNG_ADMIN_ONLY` comes from configuration and is a parameter where used.
 */
module Settings {
  import opened Strings

  /** The items of WIKIPEDIA_NAMESPACE_NAME_TO_ID, in the order the dictionary lists them. */
  const NamespaceTable: seq<(string, int)> := [
    ("special", -1), ("media", -2), ("main", 0), ("talk", 1),
    ("user", 2), ("user talk", 3), ("wikipedia", 4), ("wikipedia talk", 5),
    ("file", 6), ("file talk", 7), ("mediawiki", 8), ("mediawiki talk", 9),
    ("template", 10), ("template talk", 11), ("help", 12), ("help talk", 13),
    ("category", 14), ("category talk", 15), ("portal", 100), ("portal talk", 101),
    ("book", 108), ("book talk", 109), ("draft", 118), ("draft talk", 119),
    ("timedtext", 710), ("timedtext talk", 711), ("module", 828), ("module talk", 829),
    ("gadget", 2300), ("gadget talk", 2301), ("gadget definition", 2302),
    ("gadget definition talk", 2303)
  ]

  const MinimumClassificationsForEdit := 2
  const MinimumEditsForUserAccuracy := 20
  const CleanupUserDays := 30
  const RecentEditWindowDays := 14

  /** The user-talk namespace id that the warning-count query hardcodes. */
  const UserTalkNamespace := 3

  /**
   * The dictionary built from a list of items, later items overriding earlier
   * ones: a Python dict display, or a dict comprehension over `items()`.
   */
  function DictOf<K, V>(items: seq<(K, V)>): map<K, V>
  {
    if items == [] then map[]
    else DictOf(items[..|items| - 1])[items[|items| - 1].0 := items[|items| - 1].1]
  }

  function Swapped<K, V>(items: seq<(K, V)>): (r: seq<(V, K)>)
    ensures |r| == |items|
    ensures forall i :: 0 <= i < |items| ==> r[i] == (items[i].1, items[i].0)
  {
    seq(|items|, i requires 0 <= i < |items| => (items[i].1, items[i].0))
  }

  predicate KeysDistinct<K(==), V>(items: seq<(K, V)>)
  {
    forall i, j | 0 <= i < |items| && 0 <= j < |items| && items[i].0 == items[j].0 :: i == j
  }

  /** WIKIPEDIA_NAMESPACE_NAME_TO_ID */
  function NameToId(): map<string, int>
  {
    DictOf(NamespaceTable)
  }

  /** WIKIPEDIA_NAMESPACE_ID_TO_NAME: `{v: k for k, v in NAME_TO_ID.items()}`. */
  function IdToName(): map<int, string>
  {
    DictOf(Swapped(NamespaceTable))
  }

  /** With distinct keys, every item is found under its key. */
  lemma {:induction false} DictOfFindsItem<K, V>(items: seq<(K, V)>, i: int)
    requires KeysDistinct(items)
    requires 0 <= i < |items|
    ensures items[i].0 in DictOf(items) && DictOf(items)[items[i].0] == items[i].1
    decreases |items|
  {
    var last := |items| - 1;
    if i < last {
      var prefix := items[..last];
      assert KeysDistinct(prefix) by {
        forall a, b | 0 <= a < |prefix| && 0 <= b < |prefix| && prefix[a].0 == prefix[b].0
          ensures a == b
        {
          assert items[a].0 == items[b].0;
        }
      }
      assert prefix[i] == items[i];
      DictOfFindsItem(prefix, i);
      assert items[i].0 != items[last].0;
    }
  }

  /** Every key of the dictionary comes from some item. */
  lemma {:induction false} DictOfKeyFromItem<K, V>(items: seq<(K, V)>, k: K) returns (i: int)
    requires k in DictOf(items)
    ensures 0 <= i < |items| && items[i].0 == k
    decreases |items|
  {
    var last := |items| - 1;
    if items[last].0 == k {
      i := last;
    } else {
      i := DictOfKeyFromItem(items[..last], k);
    }
  }

  // Proof helpers: a name is identified by its length and first letter, and
  // each (length, first letter) pair and each id occurs at one table position.
  function Fingerprint(s: string): int
  {
    if |s| == 0 then 0 else |s| * 128 + s[0] as int
  }

  const PositionOfFingerprint: map<int, int> := map[
    1011 := 0, 749 := 1, 621 := 2, 628 := 3, 629 := 4, 1269 := 5, 1271 := 6, 1911 := 7,
    614 := 8, 1254 := 9, 1261 := 10, 1901 := 11, 1140 := 12, 1780 := 13, 616 := 14,
    1256 := 15, 1123 := 16, 1763 := 17, 880 := 18, 1520 := 19, 610 := 20, 1250 := 21,
    740 := 22, 1380 := 23, 1268 := 24, 1908 := 25, 877 := 26, 1517 := 27, 871 := 28,
    1511 := 29, 2279 := 30, 2919 := 31]

  const PositionOfId: map<int, int> := map[
    -1 := 0, -2 := 1, 0 := 2, 1 := 3, 2 := 4, 3 := 5, 4 := 6, 5 := 7, 6 := 8, 7 := 9,
    8 := 10, 9 := 11, 10 := 12, 11 := 13, 12 := 14, 13 := 15, 14 := 16, 15 := 17,
    100 := 18, 101 := 19, 108 := 20, 109 := 21, 118 := 22, 119 := 23, 710 := 24,
    711 := 25, 828 := 26, 829 := 27, 2300 := 28, 2301 := 29, 2302 := 30, 2303 := 31]

  lemma PositionOfEntryName(i: int)
    requires 0 <= i < |NamespaceTable|
    ensures Fingerprint(NamespaceTable[i].0) in PositionOfFingerprint
    ensures PositionOfFingerprint[Fingerprint(NamespaceTable[i].0)] == i
  {
    if i < 8 { PositionOfEntryName0(i); }
    else if i < 16 { PositionOfEntryName1(i); }
    else if i < 24 { PositionOfEntryName2(i); }
    else { PositionOfEntryName3(i); }
  }

  lemma PositionOfEntryName0(i: int)
    requires 0 <= i < 8
    ensures Fingerprint(NamespaceTable[i].0) in PositionOfFingerprint
    ensures PositionOfFingerprint[Fingerprint(NamespaceTable[i].0)] == i
  {
  }

  lemma PositionOfEntryName1(i: int)
    requires 8 <= i < 16
    ensures Fingerprint(NamespaceTable[i].0) in PositionOfFingerprint
    ensures PositionOfFingerprint[Fingerprint(NamespaceTable[i].0)] == i
  {
  }

  lemma PositionOfEntryName2(i: int)
    requires 16 <= i < 24
    ensures Fingerprint(NamespaceTable[i].0) in PositionOfFingerprint
    ensures PositionOfFingerprint[Fingerprint(NamespaceTable[i].0)] == i
  {
  }

  lemma PositionOfEntryName3(i: int)
    requires 24 <= i < |NamespaceTable|
    ensures Fingerprint(NamespaceTable[i].0) in PositionOfFingerprint
    ensures PositionOfFingerprint[Fingerprint(NamespaceTable[i].0)] == i
  {
  }

  lemma PositionOfEntryId(i: int)
    requires 0 <= i < |NamespaceTable|
    ensures NamespaceTable[i].1 in PositionOfId && PositionOfId[NamespaceTable[i].1] == i
  {
    if i < 8 { PositionOfEntryId0(i); }
    else if i < 16 { PositionOfEntryId1(i); }
    else if i < 24 { PositionOfEntryId2(i); }
    else { PositionOfEntryId3(i); }
  }

  lemma PositionOfEntryId0(i: int)
    requires 0 <= i < 8
    ensures NamespaceTable[i].1 in PositionOfId && PositionOfId[NamespaceTable[i].1] == i
  {
  }

  lemma PositionOfEntryId1(i: int)
    requires 8 <= i < 16
    ensures NamespaceTable[i].1 in PositionOfId && PositionOfId[NamespaceTable[i].1] == i
  {
  }

  lemma PositionOfEntryId2(i: int)
    requires 16 <= i < 24
    ensures NamespaceTable[i].1 in PositionOfId && PositionOfId[NamespaceTable[i].1] == i
  {
  }

  lemma PositionOfEntryId3(i: int)
    requires 24 <= i < |NamespaceTable|
    ensures NamespaceTable[i].1 in PositionOfId && PositionOfId[NamespaceTable[i].1] == i
  {
  }

  /** No two namespaces share a name. */
  lemma NamesDistinct()
    ensures KeysDistinct(NamespaceTable)
  {
    forall i, j | 0 <= i < |NamespaceTable| && 0 <= j < |NamespaceTable| &&
                  NamespaceTable[i].0 == NamespaceTable[j].0
      ensures i == j
    {
      PositionOfEntryName(i);
      PositionOfEntryName(j);
    }
  }

  /** No two namespaces share an id. */
  lemma IdsDistinct()
    ensures KeysDistinct(Swapped(NamespaceTable))
  {
    var swapped := Swapped(NamespaceTable);
    forall i, j | 0 <= i < |swapped| && 0 <= j < |swapped| && swapped[i].0 == swapped[j].0
      ensures i == j
    {
      PositionOfEntryId(i);
      PositionOfEntryId(j);
    }
  }

  /** Every name maps to an id whose name is that name again. */
  lemma NameToIdRoundTrip(n: string)
    requires n in NameToId()
    ensures NameToId()[n] in IdToName() && IdToName()[NameToId()[n]] == n
  {
    var i := DictOfKeyFromItem(NamespaceTable, n);
    NamesDistinct();
    IdsDistinct();
    DictOfFindsItem(NamespaceTable, i);
    DictOfFindsItem(Swapped(NamespaceTable), i);
  }

  /** Every id maps to a name whose id is that id again. */
  lemma IdToNameRoundTrip(id: int)
    requires id in IdToName()
    ensures IdToName()[id] in NameToId() && NameToId()[IdToName()[id]] == id
  {
    var i := DictOfKeyFromItem(Swapped(NamespaceTable), id);
    NamesDistinct();
    IdsDistinct();
    DictOfFindsItem(NamespaceTable, i);
    DictOfFindsItem(Swapped(NamespaceTable), i);
  }

  /** Every namespace name is written in lower case. */
  lemma NamesAreLowerCase(n: string)
    requires n in NameToId()
    ensures IsLower(n)
  {
    var i := DictOfKeyFromItem(NamespaceTable, n);
    EntryNameHasNoUpperCase(i);
    NoUpperCaseIsLower(n);
  }

  lemma EntryNameHasNoUpperCase(i: int)
    requires 0 <= i < |NamespaceTable|
    ensures HasNoUpperCase(NamespaceTable[i].0)
  {
    NamesWithoutUpperCase0();
    NamesWithoutUpperCase1();
    NamesWithoutUpperCase2();
    NamesWithoutUpperCase3();
  }

  lemma NamesWithoutUpperCase0()
    ensures HasNoUpperCase("special") &&
            HasNoUpperCase("media") &&
            HasNoUpperCase("main") &&
            HasNoUpperCase("talk") &&
            HasNoUpperCase("user") &&
            HasNoUpperCase("user talk") &&
            HasNoUpperCase("wikipedia") &&
            HasNoUpperCase("wikipedia talk")
  {
  }

  lemma NamesWithoutUpperCase1()
    ensures HasNoUpperCase("file") &&
            HasNoUpperCase("file talk") &&
            HasNoUpperCase("mediawiki") &&
            HasNoUpperCase("mediawiki talk") &&
            HasNoUpperCase("template") &&
            HasNoUpperCase("template talk") &&
            HasNoUpperCase("help") &&
            HasNoUpperCase("help talk")
  {
  }

  lemma NamesWithoutUpperCase2()
    ensures HasNoUpperCase("category") &&
            HasNoUpperCase("category talk") &&
            HasNoUpperCase("portal") &&
            HasNoUpperCase("portal talk") &&
            HasNoUpperCase("book") &&
            HasNoUpperCase("book talk") &&
            HasNoUpperCase("draft") &&
            HasNoUpperCase("draft talk")
  {
  }

  lemma NamesWithoutUpperCase3()
    ensures HasNoUpperCase("timedtext") &&
            HasNoUpperCase("timedtext talk") &&
            HasNoUpperCase("module") &&
            HasNoUpperCase("module talk") &&
            HasNoUpperCase("gadget") &&
            HasNoUpperCase("gadget talk") &&
            HasNoUpperCase("gadget definition") &&
            HasNoUpperCase("gadget definition talk")
  {
  }

  /**
   * A name capitalised for the dump and lower-cased again on import finds its
   * id: `NAME_TO_ID[ID_TO_NAME[id].capitalize().lower()] == id`.
   */
  lemma CapitalisedNameFindsId(id: int)
    requires id in IdToName()
    ensures Lower(Capitalize(IdToName()[id])) in NameToId()
    ensures NameToId()[Lower(Capitalize(IdToName()[id]))] == id
  {
    var n := IdToName()[id];
    IdToNameRoundTrip(id);
    LowerOfCapitalize(n);
    NamesAreLowerCase(n);
    assert Lower(Capitalize(n)) == n;
  }

  /** "user talk" is the namespace the warning-count query hardcodes; "main" is 0. */
  lemma KnownEntries()
    ensures "user talk" in NameToId() && NameToId()["user talk"] == UserTalkNamespace
    ensures 0 in IdToName() && IdToName()[0] == "main"
  {
    NamesDistinct();
    IdsDistinct();
    DictOfFindsItem(NamespaceTable, 5);
    DictOfFindsItem(Swapped(NamespaceTable), 2);
  }
}
