// The lazily sorted list cache of src/itemcache.rs. A vector, sorted only when it has to be
// searched, stands in for a map keyed by lower-cased name and guid.

module ItemCache {
  import opened Results
  import opened TextOrder

  datatype ListKey = ListKey(name: string, guid: string)

  datatype ListItem = ListItem(
    name: string, sortableName: string, extra: string, guid: string, atime: nat, count: nat)

  function KeyOf(item: ListItem): ListKey { ListKey(item.sortableName, item.guid) }

  function CmpKey(a: ListKey, b: ListKey): Ordering {
    match CmpText(a.name, b.name)
    case Equal => CmpText(a.guid, b.guid)
    case o => o
  }

  lemma CmpKeyLaws(a: ListKey, b: ListKey)
    ensures CmpKey(b, a) == Flip(CmpKey(a, b))
    ensures CmpKey(a, b) == Equal <==> a == b
  {
    CmpTextFlips(a.name, b.name);
    CmpTextFlips(a.guid, b.guid);
    CmpTextEqual(a.name, b.name);
    CmpTextEqual(a.guid, b.guid);
  }

  lemma CmpKeyTransitive(a: ListKey, b: ListKey, c: ListKey)
    requires CmpKey(a, b) != Greater && CmpKey(b, c) != Greater
    ensures CmpKey(a, c) != Greater
  {
    CmpTextTransitive(a.name, b.name, c.name);
    CmpTextEqual(a.name, b.name);
    CmpTextEqual(b.name, c.name);
    CmpTextEqual(a.name, c.name);
    if a.name == b.name == c.name {
      CmpTextTransitive(a.guid, b.guid, c.guid);
    }
  }

  /** Item a may stand before item b. */
  predicate Before(a: ListItem, b: ListItem) { CmpKey(KeyOf(a), KeyOf(b)) != Greater }

  ghost predicate Ascending(list: seq<ListItem>) {
    forall i, j :: 0 <= i < j < |list| ==> Before(list[i], list[j])
  }

  ghost predicate Distinct(list: seq<ListItem>) {
    forall i, j :: 0 <= i < j < |list| ==> KeyOf(list[i]) != KeyOf(list[j])
  }

  /** The map a list of distinct keys stands for. */
  ghost function Contents(list: seq<ListItem>): map<ListKey, ListItem>
    requires Distinct(list)
  {
    map x | x in list :: KeyOf(x) := x
  }

  lemma ContentsAt(list: seq<ListItem>, i: nat)
    requires Distinct(list) && i < |list|
    ensures KeyOf(list[i]) in Contents(list) && Contents(list)[KeyOf(list[i])] == list[i]
  {
    assert list[i] in list;
  }

  // ---------- the stable sort ----------

  function InsertSorted(x: ListItem, list: seq<ListItem>): seq<ListItem> {
    if list == [] || Before(x, list[0]) then [x] + list
    else [list[0]] + InsertSorted(x, list[1..])
  }

  function Sorted(list: seq<ListItem>): seq<ListItem> {
    if list == [] then [] else InsertSorted(list[0], Sorted(list[1..]))
  }

  lemma {:induction false} InsertSortedAdds(x: ListItem, list: seq<ListItem>)
    ensures multiset(InsertSorted(x, list)) == multiset([x] + list)
  {
    if list != [] && !Before(x, list[0]) {
      InsertSortedAdds(x, list[1..]);
      assert [x] + list == [x, list[0]] + list[1..];
    }
  }

  lemma {:induction false} InsertSortedAscends(x: ListItem, list: seq<ListItem>)
    requires Ascending(list)
    ensures Ascending(InsertSorted(x, list))
  {
    if list == [] {
    } else if Before(x, list[0]) {
      forall j | 0 <= j < |list| ensures Before(x, list[j]) {
        if j > 0 {
          CmpKeyTransitive(KeyOf(x), KeyOf(list[0]), KeyOf(list[j]));
        }
      }
    } else {
      var rest := InsertSorted(x, list[1..]);
      InsertSortedAscends(x, list[1..]);
      InsertSortedAdds(x, list[1..]);
      CmpKeyLaws(KeyOf(x), KeyOf(list[0]));
      forall j | 0 <= j < |rest| ensures Before(list[0], rest[j]) {
        assert rest[j] in multiset(rest);
        assert rest[j] == x || rest[j] in list[1..];
      }
    }
  }

  lemma {:induction false} SortedIsAscendingPermutation(list: seq<ListItem>)
    ensures multiset(Sorted(list)) == multiset(list)
    ensures |Sorted(list)| == |list|
    ensures Ascending(Sorted(list))
  {
    if list != [] {
      SortedIsAscendingPermutation(list[1..]);
      InsertSortedAdds(list[0], Sorted(list[1..]));
      InsertSortedAscends(list[0], Sorted(list[1..]));
      assert list == [list[0]] + list[1..];
    }
    assert |multiset(Sorted(list))| == |multiset(list)|;
  }

  /** The items of one key, in the order they stand in. */
  function WithKey(list: seq<ListItem>, key: ListKey): seq<ListItem> {
    if list == [] then []
    else (if KeyOf(list[0]) == key then [list[0]] else []) + WithKey(list[1..], key)
  }

  lemma {:induction false} InsertSortedIsStable(x: ListItem, list: seq<ListItem>, key: ListKey)
    ensures WithKey(InsertSorted(x, list), key) == WithKey([x] + list, key)
  {
    assert ([x] + list)[1..] == list;
    if list != [] && !Before(x, list[0]) {
      InsertSortedIsStable(x, list[1..], key);
      CmpKeyLaws(KeyOf(x), KeyOf(list[0]));
      var rest := InsertSorted(x, list[1..]);
      assert ([list[0]] + rest)[1..] == rest;
      assert ([x] + list[1..])[1..] == list[1..];
    }
  }

  /** Items of equal key keep their order, so the sort is the one stable sort. */
  lemma {:induction false} SortedIsStable(list: seq<ListItem>, key: ListKey)
    ensures WithKey(Sorted(list), key) == WithKey(list, key)
  {
    if list != [] {
      SortedIsStable(list[1..], key);
      InsertSortedIsStable(list[0], Sorted(list[1..]), key);
      assert ([list[0]] + Sorted(list[1..]))[1..] == Sorted(list[1..]);
    }
  }

  lemma DistinctPermutes(a: seq<ListItem>, b: seq<ListItem>)
    requires Distinct(a) && multiset(a) == multiset(b)
    ensures Distinct(b) && Contents(b) == Contents(a)
  {
    forall i, j | 0 <= i < j < |b| ensures KeyOf(b[i]) != KeyOf(b[j]) {
      if KeyOf(b[i]) == KeyOf(b[j]) {
        assert b[i] in multiset(b) && b[j] in multiset(b);
        var k :| 0 <= k < |a| && a[k] == b[i];
        var l :| 0 <= l < |a| && a[l] == b[j];
        assert k == l;
        TwiceIsTwice(b, i, j);
        OnceIsOnce(a, k);
      }
    }
    forall x ensures x in a <==> x in b {
      assert x in multiset(a) <==> x in multiset(b);
    }
  }

  lemma TwiceIsTwice(s: seq<ListItem>, i: nat, j: nat)
    requires i < j < |s| && s[i] == s[j]
    ensures multiset(s)[s[i]] >= 2
  {
    assert s == s[..j] + s[j..];
    assert s[i] == s[..j][i] && s[j] == s[j..][0];
    assert s[i] in multiset(s[..j]) && s[i] in multiset(s[j..]);
  }

  lemma OnceIsOnce(s: seq<ListItem>, k: nat)
    requires Distinct(s) && k < |s|
    ensures multiset(s)[s[k]] == 1
  {
    assert s == s[..k] + [s[k]] + s[k + 1..];
    assert s[k] !in s[..k] && s[k] !in s[k + 1..];
    assert s[k] !in multiset(s[..k]) && s[k] !in multiset(s[k + 1..]);
  }

  // ---------- the binary search ----------

  /** What the library search promises: a matching index, or the place to insert at. */
  ghost predicate SearchAnswer<T>(list: seq<T>, cmp: T -> Ordering, found: bool, index: nat) {
    if found then index < |list| && cmp(list[index]) == Equal
    else
      && index <= |list|
      && (forall i :: 0 <= i < index ==> cmp(list[i]) == Less)
      && (forall i :: index <= i < |list| ==> cmp(list[i]) == Greater)
  }

  ghost predicate Searchable<T>(list: seq<T>, cmp: T -> Ordering) {
    forall i, j :: 0 <= i < j < |list| ==> Rank(cmp(list[i])) <= Rank(cmp(list[j]))
  }

  method BinarySearchBy<T>(list: seq<T>, cmp: T -> Ordering) returns (found: bool, index: nat)
    requires Searchable(list, cmp)
    ensures SearchAnswer(list, cmp, found, index)
  {
    var left, right := 0, |list|;
    while left < right
      invariant left <= right <= |list|
      invariant forall i :: 0 <= i < left ==> cmp(list[i]) == Less
      invariant forall i :: right <= i < |list| ==> cmp(list[i]) == Greater
    {
      var mid := left + (right - left) / 2;
      match cmp(list[mid])
      case Equal => return true, mid;
      case Less => left := mid + 1;
      case Greater => right := mid;
    }
    return false, left;
  }

  function ByKey(key: ListKey): ListItem -> Ordering { (probe: ListItem) => CmpKey(KeyOf(probe), key) }

  function ByName(name: string): ListItem -> Ordering { (probe: ListItem) => CmpText(probe.sortableName, name) }

  lemma SearchableByKey(list: seq<ListItem>, key: ListKey)
    requires Ascending(list)
    ensures Searchable(list, ByKey(key))
  {
    forall i, j | 0 <= i < j < |list| ensures Rank(ByKey(key)(list[i])) <= Rank(ByKey(key)(list[j])) {
      var a, b := KeyOf(list[i]), KeyOf(list[j]);
      assert Before(list[i], list[j]);
      CmpKeyLaws(a, b);
      CmpKeyLaws(a, key);
      CmpKeyLaws(b, key);
      if CmpKey(b, key) != Greater {
        CmpKeyTransitive(a, b, key);
      }
      if CmpKey(key, a) != Greater {
        CmpKeyTransitive(key, a, b);
      }
    }
  }

  lemma AscendingNames(list: seq<ListItem>, i: nat, j: nat)
    requires Ascending(list) && i <= j < |list|
    ensures AtMost(list[i].sortableName, list[j].sortableName)
  {
    if i < j {
      assert Before(list[i], list[j]);
    } else {
      CmpTextEqual(list[i].sortableName, list[j].sortableName);
    }
  }

  lemma SearchableByName(list: seq<ListItem>, name: string)
    requires Ascending(list)
    ensures Searchable(list, ByName(name))
  {
    forall i, j | 0 <= i < j < |list| ensures Rank(ByName(name)(list[i])) <= Rank(ByName(name)(list[j])) {
      var a, b := list[i].sortableName, list[j].sortableName;
      AscendingNames(list, i, j);
      CmpTextFlips(a, name);
      CmpTextFlips(b, name);
      CmpTextEqual(a, name);
      if AtMost(b, name) {
        CmpTextTransitive(a, b, name);
      }
      if AtMost(name, a) {
        CmpTextTransitive(name, a, b);
      }
    }
  }

  // ---------- what each edit does to the list ----------

  /** Which keys a list has, and how to tell the map it stands for. */
  ghost predicate HasKey(list: seq<ListItem>, key: ListKey) {
    exists i :: 0 <= i < |list| && KeyOf(list[i]) == key
  }

  lemma ContentsKeys(list: seq<ListItem>, key: ListKey)
    requires Distinct(list)
    ensures key in Contents(list) <==> HasKey(list, key)
  {
    if key in Contents(list) {
      var x :| x in list && KeyOf(x) == key;
      var i :| 0 <= i < |list| && list[i] == x;
    }
    if HasKey(list, key) {
      var i :| 0 <= i < |list| && KeyOf(list[i]) == key;
      ContentsAt(list, i);
    }
  }

  lemma ContentsAre(list: seq<ListItem>, m: map<ListKey, ListItem>)
    requires Distinct(list)
    requires forall i :: 0 <= i < |list| ==> KeyOf(list[i]) in m && m[KeyOf(list[i])] == list[i]
    requires forall k :: k in m ==> HasKey(list, k)
    ensures Contents(list) == m
  {
    forall k ensures k in Contents(list) <==> k in m {
      ContentsKeys(list, k);
    }
    forall k | k in m ensures Contents(list)[k] == m[k] {
      var i :| 0 <= i < |list| && KeyOf(list[i]) == k;
      ContentsAt(list, i);
    }
  }

  lemma InsertAscends(list: seq<ListItem>, i: nat, item: ListItem)
    requires Ascending(list) && SearchAnswer(list, ByKey(KeyOf(item)), false, i)
    ensures Ascending(list[..i] + [item] + list[i..])
  {
    var after := list[..i] + [item] + list[i..];
    forall j, k | 0 <= j < k < |after| ensures Before(after[j], after[k]) {
      if j == i {
        assert after[k] == list[k - 1];
        assert ByKey(KeyOf(item))(list[k - 1]) == Greater;
        CmpKeyLaws(KeyOf(list[k - 1]), KeyOf(item));
      } else if k == i {
        assert ByKey(KeyOf(item))(list[j]) == Less;
      } else {
        assert after[j] == list[if j < i then j else j - 1] && after[k] == list[if k < i then k else k - 1];
      }
    }
  }

  /** Where an item of the list stands once another one is inserted at i. */
  function Shifted(j: nat, i: nat): nat { if j < i then j else j + 1 }

  lemma InsertDistinct(list: seq<ListItem>, i: nat, item: ListItem)
    requires Distinct(list) && i <= |list| && !HasKey(list, KeyOf(item))
    ensures Distinct(list[..i] + [item] + list[i..])
  {
    var after := list[..i] + [item] + list[i..];
    forall j, k | 0 <= j < k < |after| ensures KeyOf(after[j]) != KeyOf(after[k]) {
      if j == i {
        assert after[k] == list[k - 1];
      } else if k == i {
        assert after[j] == list[j];
      } else {
        assert after[j] == list[if j < i then j else j - 1];
        assert after[k] == list[if k < i then k else k - 1];
      }
    }
  }

  /** An item of the list stays under its own key beside one with a new key. */
  lemma OtherItem(list: seq<ListItem>, l: nat, item: ListItem)
    requires Distinct(list) && l < |list| && !HasKey(list, KeyOf(item))
    ensures KeyOf(list[l]) in Contents(list) && Contents(list)[KeyOf(list[l])] == list[l]
    ensures KeyOf(list[l]) != KeyOf(item)
  {
    hide Contents, KeyOf;
    ContentsAt(list, l);
  }

  lemma KeyAfterInsert(list: seq<ListItem>, i: nat, item: ListItem, k: ListKey)
    requires Distinct(list) && i <= |list| && (k == KeyOf(item) || k in Contents(list))
    ensures HasKey(list[..i] + [item] + list[i..], k)
  {
    hide Contents, Distinct, KeyOf;
    var after := list[..i] + [item] + list[i..];
    if k == KeyOf(item) {
      assert after[i] == item;
    } else {
      ContentsKeys(list, k);
      var j :| 0 <= j < |list| && KeyOf(list[j]) == k;
      assert after[Shifted(j, i)] == list[j];
    }
  }

  lemma InsertRefines(list: seq<ListItem>, i: nat, item: ListItem)
    requires Distinct(list) && i <= |list| && !HasKey(list, KeyOf(item))
    ensures var after := list[..i] + [item] + list[i..];
      Distinct(after) && Contents(after) == Contents(list)[KeyOf(item) := item]
  {
    hide Contents, Distinct, KeyOf, HasKey;
    var after := list[..i] + [item] + list[i..];
    InsertDistinct(list, i, item);
    var m := Contents(list)[KeyOf(item) := item];
    forall j | 0 <= j < |after| ensures KeyOf(after[j]) in m && m[KeyOf(after[j])] == after[j] {
      if j != i {
        var l := if j < i then j else j - 1;
        assert after[j] == list[l];
        OtherItem(list, l, item);
      }
    }
    forall k | k in m ensures HasKey(after, k) {
      KeyAfterInsert(list, i, item, k);
    }
    ContentsAre(after, m);
  }

  lemma ReplaceAt(list: seq<ListItem>, i: nat, item: ListItem)
    requires i < |list| && KeyOf(list[i]) == KeyOf(item)
    ensures Ascending(list) ==> Ascending(list[i := item])
    ensures Distinct(list) ==>
      Distinct(list[i := item]) && Contents(list[i := item]) == Contents(list)[KeyOf(item) := item]
  {
    if Distinct(list) {
      hide Contents;
      var m := Contents(list)[KeyOf(item) := item];
      var after := list[i := item];
      forall j | 0 <= j < |after| ensures KeyOf(after[j]) in m && m[KeyOf(after[j])] == after[j] {
        ContentsAt(list, j);
      }
      forall k | k in m ensures HasKey(after, k) {
        ContentsAt(list, i);
        ContentsKeys(list, k);
        var j :| 0 <= j < |list| && KeyOf(list[j]) == k;
        assert KeyOf(after[j]) == k;
      }
      ContentsAre(after, m);
    }
  }

  lemma RemoveDistinct(list: seq<ListItem>, i: nat)
    requires i < |list|
    ensures Ascending(list) ==> Ascending(list[..i] + list[i + 1..])
    ensures Distinct(list) ==> Distinct(list[..i] + list[i + 1..])
  {
    var after := list[..i] + list[i + 1..];
    forall j, k | 0 <= j < k < |after|
      ensures Ascending(list) ==> Before(after[j], after[k])
      ensures Distinct(list) ==> KeyOf(after[j]) != KeyOf(after[k])
    {
      assert after[j] == list[Shifted(j, i)] && after[k] == list[Shifted(k, i)];
    }
  }

  lemma RemoveRefines(list: seq<ListItem>, i: nat)
    requires i < |list| && Distinct(list)
    ensures Distinct(list[..i] + list[i + 1..])
    ensures Contents(list[..i] + list[i + 1..]) == Contents(list) - {KeyOf(list[i])}
  {
    var after := list[..i] + list[i + 1..];
    RemoveDistinct(list, i);
    var m := Contents(list) - {KeyOf(list[i])};
    forall j | 0 <= j < |after| ensures KeyOf(after[j]) in m && m[KeyOf(after[j])] == after[j] {
      KeptItem(list, i, j);
    }
    forall k | k in m ensures HasKey(after, k) {
      KeptKey(list, i, k);
    }
    hide Contents, KeyOf, HasKey, Distinct;
    ContentsAre(after, m);
  }

  /** An item left after a removal was in the list under its key, which is not the removed one. */
  lemma KeptItem(list: seq<ListItem>, i: nat, j: nat)
    requires i < |list| && Distinct(list) && j < |list| - 1
    ensures var x := (list[..i] + list[i + 1..])[j];
      KeyOf(x) in Contents(list) && Contents(list)[KeyOf(x)] == x && KeyOf(x) != KeyOf(list[i])
  {
    assert (list[..i] + list[i + 1..])[j] == list[Shifted(j, i)];
    ContentsAt(list, Shifted(j, i));
    hide Contents;
  }

  lemma KeptKey(list: seq<ListItem>, i: nat, k: ListKey)
    requires i < |list| && Distinct(list) && k in Contents(list) && k != KeyOf(list[i])
    ensures HasKey(list[..i] + list[i + 1..], k)
  {
    hide Contents, Distinct, KeyOf;
    var after := list[..i] + list[i + 1..];
    ContentsKeys(list, k);
    var j :| 0 <= j < |list| && KeyOf(list[j]) == k;
    assert j != i && after[if j < i then j else j - 1] == list[j];
  }

  lemma PushAt(list: seq<ListItem>, item: ListItem)
    requires Distinct(list) && KeyOf(item) !in Contents(list)
    ensures Distinct(list + [item]) && Contents(list + [item]) == Contents(list)[KeyOf(item) := item]
  {
    forall j | 0 <= j < |list| ensures KeyOf(list[j]) != KeyOf(item) {
      ContentsAt(list, j);
    }
  }

  lemma SearchHits(list: seq<ListItem>, key: ListKey, i: nat)
    requires SearchAnswer(list, ByKey(key), true, i)
    ensures i < |list| && KeyOf(list[i]) == key
  {
    CmpKeyLaws(KeyOf(list[i]), key);
    assert ByKey(key)(list[i]) == Equal;
  }

  lemma SearchMisses(list: seq<ListItem>, key: ListKey, i: nat)
    requires SearchAnswer(list, ByKey(key), false, i)
    ensures !HasKey(list, key)
  {
    forall k | 0 <= k < |list| ensures KeyOf(list[k]) != key {
      CmpKeyLaws(KeyOf(list[k]), key);
      assert ByKey(key)(list[k]) != Equal;
    }
  }

  /** A search by key of a sorted list of distinct keys answers as the map does. */
  lemma SearchReadsTheMap(list: seq<ListItem>, key: ListKey, found: bool, i: nat)
    requires Distinct(list) && SearchAnswer(list, ByKey(key), found, i)
    ensures found <==> key in Contents(list)
    ensures found ==> KeyOf(list[i]) == key && Contents(list)[key] == list[i]
  {
    if found {
      SearchHits(list, key, i);
      ContentsAt(list, i);
    } else {
      SearchMisses(list, key, i);
      ContentsKeys(list, key);
    }
  }

  // ---------- the prefix window ----------

  predicate Matches(item: ListItem, criteria: string) { criteria <= item.sortableName }

  /** Where the backward scan from index stops. It never looks at the item at index 0. */
  function WindowStart(list: seq<ListItem>, criteria: string, index: nat): nat
    requires index <= |list|
  {
    if index > 1 && Matches(list[index - 1], criteria) then WindowStart(list, criteria, index - 1) else index
  }

  function WindowEnd(list: seq<ListItem>, criteria: string, end: nat): nat
    requires end <= |list|
    decreases |list| - end
  {
    if end < |list| && Matches(list[end], criteria) then WindowEnd(list, criteria, end + 1) else end
  }

  function Min(a: nat, b: nat): nat { if a < b then a else b }

  /** The window `filter` sets when its search lands at index. */
  function Window(list: seq<ListItem>, criteria: string, index: nat): Option<(nat, nat)>
    requires list != [] && index <= |list|
  {
    if !Matches(list[Min(index, |list| - 1)], criteria) then None
    else
      var lo := WindowStart(list, criteria, index);
      Some((lo, if lo < |list| then WindowEnd(list, criteria, lo + 1) else lo + 1))
  }

  lemma {:induction false} WindowStartIs(list: seq<ListItem>, criteria: string, index: nat)
    requires index <= |list|
    ensures var lo := WindowStart(list, criteria, index);
      && lo <= index && (lo == 0 <==> index == 0)
      && (forall i :: lo <= i < index ==> Matches(list[i], criteria))
      && (lo > 1 ==> !Matches(list[lo - 1], criteria))
  {
    if index > 1 && Matches(list[index - 1], criteria) {
      WindowStartIs(list, criteria, index - 1);
    }
  }

  lemma {:induction false} WindowEndIs(list: seq<ListItem>, criteria: string, end: nat)
    requires end <= |list|
    ensures var hi := WindowEnd(list, criteria, end);
      && end <= hi <= |list|
      && (forall i :: end <= i < hi ==> Matches(list[i], criteria))
      && (hi < |list| ==> !Matches(list[hi], criteria))
    decreases |list| - end
  {
    if end < |list| && Matches(list[end], criteria) {
      WindowEndIs(list, criteria, end + 1);
    }
  }

  lemma WindowBounds(list: seq<ListItem>, criteria: string, index: nat)
    requires index < |list|
    ensures WindowStart(list, criteria, index) <= index
    ensures var lo := WindowStart(list, criteria, index); var hi := WindowEnd(list, criteria, lo + 1);
      lo < hi <= |list| && (Matches(list[index], criteria) ==> Window(list, criteria, index) == Some((lo, hi)))
  {
    hide WindowStart, WindowEnd, Matches;
    WindowStartIs(list, criteria, index);
    WindowEndIs(list, criteria, WindowStart(list, criteria, index) + 1);
  }

  /** Items below the criteria do not match, and a search that lands by insertion lands on the first match. */
  lemma LandingIsFirst(list: seq<ListItem>, criteria: string, index: nat)
    requires SearchAnswer(list, ByName(criteria), false, index)
    ensures forall i :: 0 <= i < index ==> !Matches(list[i], criteria)
  {
    forall i | 0 <= i < index ensures !Matches(list[i], criteria) {
      assert ByName(criteria)(list[i]) == Less;
      if Matches(list[i], criteria) {
        PrefixIsAtMost(criteria, list[i].sortableName);
        CmpTextFlips(criteria, list[i].sortableName);
      }
    }
  }

  /** No item below the landing matches unless the landing is a name equal to the criteria. */
  lemma MatchesLieTogether(list: seq<ListItem>, criteria: string, i: nat, j: nat, k: nat)
    requires Ascending(list) && i <= j <= k < |list|
    requires Matches(list[i], criteria) && Matches(list[k], criteria)
    ensures Matches(list[j], criteria)
  {
    AscendingNames(list, i, j);
    AscendingNames(list, j, k);
    PrefixIsContiguous(criteria, list[i].sortableName, list[j].sortableName, list[k].sortableName);
  }

  lemma EqualNameMatches(item: ListItem, criteria: string)
    ensures ByName(criteria)(item) == Equal ==> Matches(item, criteria)
  {
    CmpTextEqual(item.sortableName, criteria);
  }

  /** Without a match at the landing there is no match at all. */
  lemma NoMatchAtLanding(list: seq<ListItem>, criteria: string, found: bool, index: nat, i: nat)
    requires Ascending(list) && list != [] && SearchAnswer(list, ByName(criteria), found, index) && i < |list|
    requires !Matches(list[Min(index, |list| - 1)], criteria)
    ensures !Matches(list[i], criteria)
  {
    if found {
      EqualNameMatches(list[index], criteria);
      assert false;
    } else {
      LandingIsFirst(list, criteria, index);
      if index <= i && Matches(list[i], criteria) {
        // the criteria itself lies below every item from the landing on
        assert ByName(criteria)(list[index]) == Greater;
        CmpTextFlips(criteria, list[index].sortableName);
        AscendingNames(list, index, i);
        PrefixIsContiguous(criteria, criteria, list[index].sortableName, list[i].sortableName);
      }
    }
  }

  /** A match at the landing means the search did not land past the end. */
  lemma LandingIsInside(list: seq<ListItem>, criteria: string, found: bool, index: nat)
    requires list != [] && SearchAnswer(list, ByName(criteria), found, index)
    requires Matches(list[Min(index, |list| - 1)], criteria)
    ensures index < |list|
  {
    if !found {
      LandingIsFirst(list, criteria, index);
    }
  }

  /**
   * The window `filter` sets is the run of matches, whatever the search answers: it is absent
   * exactly when nothing matches, holds only matches and every match from index 1 on, and the
   * match at index 0 exactly when the search landed there.
   */
  lemma WindowIsTheRunOfMatches(list: seq<ListItem>, criteria: string, found: bool, index: nat)
    requires Ascending(list) && list != [] && SearchAnswer(list, ByName(criteria), found, index)
    ensures var w := Window(list, criteria, index);
      && (w == None <==> forall i :: 0 <= i < |list| ==> !Matches(list[i], criteria))
      && (w.Some? ==>
            && w.value.0 < w.value.1 <= |list|
            && (forall i :: w.value.0 <= i < w.value.1 ==> Matches(list[i], criteria))
            && (forall i :: 1 <= i < |list| && Matches(list[i], criteria) ==> w.value.0 <= i < w.value.1)
            && (Matches(list[0], criteria) ==> (w.value.0 == 0 <==> index == 0)))
  {
    hide Matches, Ascending, SearchAnswer, WindowStart, WindowEnd;
    var at := Min(index, |list| - 1);
    if !Matches(list[at], criteria) {
      forall i | 0 <= i < |list| ensures !Matches(list[i], criteria) {
        NoMatchAtLanding(list, criteria, found, index, i);
      }
    } else {
      LandingIsInside(list, criteria, found, index);
      RunAround(list, criteria, index);
    }
  }

  /** From a match, the two scans find the whole run of matches, item 0 aside. */
  lemma RunAround(list: seq<ListItem>, criteria: string, index: nat)
    requires Ascending(list) && index < |list| && Matches(list[index], criteria)
    ensures var lo := WindowStart(list, criteria, index); lo < |list|
    ensures var lo := WindowStart(list, criteria, index); var hi := WindowEnd(list, criteria, lo + 1);
      && lo < hi <= |list| && (lo == 0 <==> index == 0)
      && (forall i :: lo <= i < hi ==> Matches(list[i], criteria))
      && (forall i :: 1 <= i < |list| && Matches(list[i], criteria) ==> lo <= i < hi)
  {
    hide Matches, Ascending, WindowStart, WindowEnd;
    var lo := WindowStart(list, criteria, index);
    WindowStartIs(list, criteria, index);
    var hi := WindowEnd(list, criteria, lo + 1);
    WindowEndIs(list, criteria, lo + 1);
    assert Matches(list[lo], criteria);
    forall i | 1 <= i < |list| && Matches(list[i], criteria) ensures lo <= i < hi {
      if i < lo {
        MatchesLieTogether(list, criteria, i, lo - 1, lo);
      } else if hi <= i {
        MatchesLieTogether(list, criteria, lo, hi, i);
      }
    }
  }

  /** Every match is in the window. */
  ghost predicate ShowsAll(list: seq<ListItem>, criteria: string, window: Option<(nat, nat)>) {
    forall i :: 0 <= i < |list| && Matches(list[i], criteria) ==>
      window.Some? && window.value.0 <= i < window.value.1
  }

  /** The two front items are both named exactly as the criteria. */
  predicate FrontIsARun(list: seq<ListItem>, criteria: string) {
    |list| >= 2 && list[0].sortableName == criteria && list[1].sortableName == criteria
  }

  /**
   * The window shows every match, whichever of the allowed answers the search gives, if and
   * only if the list does not start with two items named exactly as the criteria.
   */
  lemma WindowShowsAllUnlessARunIsInFront(list: seq<ListItem>, criteria: string)
    requires Ascending(list) && list != []
    ensures (forall found, index: nat :: SearchAnswer(list, ByName(criteria), found, index) ==>
               ShowsAll(list, criteria, Window(list, criteria, index)))
            <==> !FrontIsARun(list, criteria)
  {
    forall found, index: nat | SearchAnswer(list, ByName(criteria), found, index) && !FrontIsARun(list, criteria)
      ensures ShowsAll(list, criteria, Window(list, criteria, index))
    {
      WindowIsTheRunOfMatches(list, criteria, found, index);
      if Matches(list[0], criteria) && index > 0 {
        FirstMatchIsARun(list, criteria, found, index);
        assert false;
      }
    }
    if FrontIsARun(list, criteria) {
      CmpTextEqual(list[1].sortableName, criteria);
      assert SearchAnswer(list, ByName(criteria), true, 1);
      WindowIsTheRunOfMatches(list, criteria, true, 1);
      assert Matches(list[0], criteria);
      assert !ShowsAll(list, criteria, Window(list, criteria, 1));
    }
  }

  lemma FirstMatchIsARun(list: seq<ListItem>, criteria: string, found: bool, index: nat)
    requires Ascending(list) && SearchAnswer(list, ByName(criteria), found, index)
    requires 0 < index && list != [] && Matches(list[0], criteria)
    ensures FrontIsARun(list, criteria)
  {
    if !found {
      LandingIsFirst(list, criteria, index);
      assert false;
    } else {
      forall i | 0 <= i <= 1 ensures list[i].sortableName == criteria {
        CmpTextEqual(list[index].sortableName, criteria);
        assert ByName(criteria)(list[index]) == Equal;
        AscendingNames(list, 0, i);
        AscendingNames(list, i, index);
        PrefixIsAtMost(criteria, list[0].sortableName);
        CmpTextTransitive(criteria, list[0].sortableName, list[i].sortableName);
        CmpTextFlips(criteria, list[i].sortableName);
        CmpTextEqual(list[i].sortableName, criteria);
      }
    }
  }

  /** Two items named "a": a search for "a" may land on the second, and the first drops out of view. */
  lemma FilterCanMissTheFirstItem()
    ensures var list := [ListItem("a", "a", "", "1", 0, 0), ListItem("A", "a", "", "2", 0, 0)];
      && Ascending(list) && SearchAnswer(list, ByName("a"), true, 1)
      && Window(list, "a", 1) == Some((1, 2)) && Matches(list[0], "a")
  {
    var list := [ListItem("a", "a", "", "1", 0, 0), ListItem("A", "a", "", "2", 0, 0)];
    CmpTextEqual("a", "a");
    assert CmpText("1", "2") == Less;
    assert Before(list[0], list[1]);
    assert WindowEnd(list, "a", 2) == 2;
  }

  // ---------- upper-case criteria ----------

  /** What to_lowercase promises of the letters it changes: none is left, and without one nothing changes. */
  ghost predicate Lowers(lower: string -> string, isUpper: char -> bool) {
    && (forall s, c :: c in lower(s) ==> !isUpper(c))
    && (forall s :: (forall c :: c in s ==> !isUpper(c)) ==> lower(s) == s)
  }

  /** The criteria are compared as typed, so they find what they would in lower case only if they are. */
  lemma CaseBlindIff(lower: string -> string, isUpper: char -> bool, criteria: string)
    requires Lowers(lower, isUpper)
    ensures (forall name :: criteria <= lower(name) <==> lower(criteria) <= lower(name)) <==>
      forall c :: c in criteria ==> !isUpper(c)
  {
    if c :| c in criteria && isUpper(c) {
      assert !(criteria <= lower(criteria)) by {
        assert c !in lower(criteria);
      }
    }
  }

  /** With an upper-case letter in them nothing matches, and the window is absent: the whole list is shown. */
  lemma UpperCaseFindsNothing(
    lower: string -> string, isUpper: char -> bool, list: seq<ListItem>, criteria: string, index: nat)
    requires Lowers(lower, isUpper) && list != [] && index <= |list|
    requires forall x :: x in list ==> x.sortableName == lower(x.name)
    requires exists c :: c in criteria && isUpper(c)
    ensures Window(list, criteria, index) == None
  {
    var item := list[Min(index, |list| - 1)];
    var c :| c in criteria && isUpper(c);
    assert item in list && c !in lower(item.name);
  }
}
