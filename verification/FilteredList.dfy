// FilteredListView of src/itemcache.rs: the operations on the lazily sorted list, each proved
// to do to the map it stands for what a map operation would do.

module FilteredList {
  import opened ItemCache
  import opened Results

  class FilteredListView {
    var list: seq<ListItem>
    var sorted: bool
    var filterRange: Option<(nat, nat)>
    const lower: string -> string  // the library's to_lowercase

    ghost predicate Valid()
      reads this
    {
      && (sorted ==> Ascending(list))
      && (filterRange.Some? ==> filterRange.value.0 <= filterRange.value.1 <= |list|)
      && forall x :: x in list ==> x.sortableName == lower(x.name)
    }

    /** No two items have the same key. Only an unguarded push can break it. */
    ghost predicate Unique()
      reads this
    {
      Distinct(list)
    }

    ghost function Model(): map<ListKey, ListItem>
      reads this
    {
      if Distinct(list) then Contents(list) else map[]
    }

    constructor (lower: string -> string)
      ensures Valid() && Unique() && Model() == map[]
      ensures list == [] && this.lower == lower
    {
      list, sorted, filterRange := [], false, None;
      this.lower := lower;
    }

    method Push(item: ListItem)
      requires Valid() && item.sortableName == lower(item.name)
      modifies this
      ensures Valid() && list == old(list) + [item] && !sorted && filterRange == old(filterRange)
      ensures old(Unique()) && KeyOf(item) !in old(Model()) ==>
        Unique() && Model() == old(Model())[KeyOf(item) := item]
    {
      ghost var before := list;
      list := list + [item];
      sorted := false;
      if Distinct(before) && KeyOf(item) !in Contents(before) {
        PushAt(before, item);
      }
    }

    method Clear()
      modifies this
      ensures Valid() && Unique() && Model() == map[]
      ensures list == [] && !sorted && filterRange == None
    {
      list, sorted, filterRange := [], false, None;
    }

    /** What every search does first. */
    method EnsureSorted()
      requires Valid()
      modifies this`list, this`sorted
      ensures Valid() && sorted && Ascending(list)
      ensures list == if old(sorted) then old(list) else Sorted(old(list))
      ensures |list| == |old(list)| && multiset(list) == multiset(old(list))
      ensures old(Unique()) ==> Unique() && Model() == old(Model())
    {
      if !sorted {
        ghost var before := list;
        SortedIsAscendingPermutation(list);
        list := Sorted(list);
        sorted := true;
        if Distinct(before) {
          DistinctPermutes(before, list);
        }
        forall x | x in list ensures x.sortableName == lower(x.name) {
          assert x in multiset(list);
          assert x in before;
        }
      }
    }

    method InsertUnique(item: ListItem) returns (previous: Option<ListItem>)
      requires Valid() && item.sortableName == lower(item.name)
      modifies this
      ensures Valid() && sorted && filterRange == None
      ensures old(Unique()) ==>
        && Unique() && Model() == old(Model())[KeyOf(item) := item]
        && previous == if KeyOf(item) in old(Model()) then Some(old(Model())[KeyOf(item)]) else None
    {
      hide Ascending, Distinct, Contents, HasKey, SearchAnswer, ByKey, CmpKey;
      EnsureSorted();
      filterRange := None;
      SearchableByKey(list, KeyOf(item));
      var found, index := BinarySearchBy(list, ByKey(KeyOf(item)));
      ghost var before := list;
      if Distinct(list) {
        SearchReadsTheMap(list, KeyOf(item), found, index);
      }
      if found {
        SearchHits(list, KeyOf(item), index);
        previous := Some(list[index]);
        ReplaceAt(list, index, item);
        list := list[index := item];
      } else {
        previous := None;
        InsertAscends(list, index, item);
        SearchMisses(list, KeyOf(item), index);
        if Distinct(before) {
          InsertRefines(list, index, item);
        }
        list := list[..index] + [item] + list[index..];
      }
    }

    method Remove(key: ListKey) returns (removed: Option<ListItem>)
      requires Valid()
      modifies this
      ensures Valid() && sorted && filterRange == None
      ensures old(Unique()) ==>
        && Unique() && Model() == old(Model()) - {key}
        && removed == if key in old(Model()) then Some(old(Model())[key]) else None
    {
      hide Ascending, Distinct, Contents, KeyOf, HasKey, SearchAnswer, ByKey, CmpKey;
      EnsureSorted();
      filterRange := None;
      SearchableByKey(list, key);
      var found, index := BinarySearchBy(list, ByKey(key));
      if Distinct(list) {
        SearchReadsTheMap(list, key, found, index);
      }
      if found {
        removed := Some(list[index]);
        RemoveDistinct(list, index);
        if Distinct(list) {
          RemoveRefines(list, index);
        }
        list := list[..index] + list[index + 1..];
      } else {
        removed := None;
      }
    }

    /** The index of the item with the key; the caller edits the item there in place. */
    method Get(key: ListKey) returns (at: Option<nat>)
      requires Valid()
      modifies this`list, this`sorted
      ensures Valid() && sorted && |list| == |old(list)| && multiset(list) == multiset(old(list))
      ensures at.Some? ==> at.value < |list| && KeyOf(list[at.value]) == key
      ensures old(Unique()) ==>
        && Unique() && Model() == old(Model())
        && (at.Some? <==> key in Model())
        && (at.Some? ==> list[at.value] == Model()[key])
    {
      EnsureSorted();
      SearchableByKey(list, key);
      var found, index := BinarySearchBy(list, ByKey(key));
      if Distinct(list) {
        SearchReadsTheMap(list, key, found, index);
      }
      if found {
        SearchHits(list, key, index);
        at := Some(index);
      } else {
        at := None;
      }
    }

    method FilterReset()
      requires Valid()
      modifies this`filterRange
      ensures Valid() && filterRange == Some((0, |list|))
    {
      filterRange := Some((0, |list|));
    }

    /**
     * Narrow the view to the items starting with the criteria. The search answer is whatever
     * the library gives; `landed` is the index it gave.
     */
    method Filter(criteria: string) returns (ghost found: bool, ghost landed: nat)
      requires Valid()
      modifies this
      ensures Valid() && sorted && list == if old(sorted) then old(list) else Sorted(old(list))
      ensures old(Unique()) ==> Unique() && Model() == old(Model())
      ensures criteria == "" ==> filterRange == Some((0, |list|))
      ensures criteria != "" && list == [] ==> filterRange == old(filterRange)
      ensures criteria != "" && list != [] ==>
        && SearchAnswer(list, ByName(criteria), found, landed) && landed <= |list|
        && filterRange == Window(list, criteria, landed)
    {
      hide Ascending, Distinct, Contents, SearchAnswer, ByName, Window, Sorted;
      found, landed := false, 0;
      EnsureSorted();
      if |criteria| == 0 {
        FilterReset();
      } else if |list| != 0 {
        var range;
        found, landed, range := SearchPrefix(criteria);
        filterRange := range;
      }
    }

    /** The search behind `Filter`, on a sorted list with something in it. */
    method SearchPrefix(criteria: string)
      returns (ghost found: bool, ghost landed: nat, range: Option<(nat, nat)>)
      requires Valid() && Ascending(list) && list != []
      ensures SearchAnswer(list, ByName(criteria), found, landed) && landed <= |list|
      ensures range == Window(list, criteria, landed)
      ensures range.Some? ==> range.value.0 <= range.value.1 <= |list|
    {
      SearchableByName(list, criteria);
      var hit, index := BinarySearchBy(list, ByName(criteria));
      found, landed := hit, index;
      var at := Min(index, |list| - 1);
      assert list[at] in list;
      range := None;
      if criteria <= lower(list[at].name) {
        LandingIsInside(list, criteria, hit, index);
        hide SearchAnswer, Window;
        var start, end := Scan(criteria, index);
        range := Some((start, end));
      }
    }

    /** Both scans, from where the search landed. */
    method Scan(criteria: string, index: nat) returns (start: nat, end: nat)
      requires Valid() && index < |list|
      ensures start < end <= |list|
      ensures Matches(list[index], criteria) ==> Window(list, criteria, index) == Some((start, end))
    {
      WindowBounds(list, criteria, index);
      hide WindowStart, WindowEnd, Window, Valid;
      start := FirstMatch(criteria, index);
      end := PastMatches(criteria, start + 1);
    }

    /** Walk back over matching items; the item at index 0 is never looked at. */
    method FirstMatch(criteria: string, from: nat) returns (index: nat)
      requires Valid() && from <= |list|
      ensures index == WindowStart(list, criteria, from)
    {
      index := from;
      while index > 1 && criteria <= lower(list[index - 1].name)
        invariant index <= from
        invariant WindowStart(list, criteria, index) == WindowStart(list, criteria, from)
      {
        assert list[index - 1] in list;
        index := index - 1;
      }
      assert index > 1 ==> list[index - 1] in list;
    }

    /** Walk on to the first item that does not match. */
    method PastMatches(criteria: string, from: nat) returns (end: nat)
      requires Valid() && from <= |list|
      ensures end == WindowEnd(list, criteria, from)
    {
      end := from;
      while end < |list| && criteria <= lower(list[end].name)
        invariant end <= |list|
        invariant WindowEnd(list, criteria, end) == WindowEnd(list, criteria, from)
      {
        assert list[end] in list;
        end := end + 1;
      }
      assert end < |list| ==> list[end] in list;
    }

    /** The visible items. With no window - also after a filter nothing matched - that is all of them. */
    method FilteredList() returns (visible: seq<ListItem>)
      requires Valid()
      ensures visible == if filterRange.Some? then list[filterRange.value.0..filterRange.value.1] else list
    {
      match filterRange
      case Some((lo, hi)) => visible := list[lo..hi];
      case None => visible := list;
    }
  }

  // ---------- every interleaving ----------

  datatype Op =
    | Insert(item: ListItem) | Remove(key: ListKey) | Get(key: ListKey) | PushIfAbsent(item: ListItem)
    | Filter(criteria: string) | FilterReset | Clear

  /** What a map does for the operation: the map after it and the item it answers with. */
  function MapStep(m: map<ListKey, ListItem>, op: Op): (map<ListKey, ListItem>, Option<ListItem>) {
    match op
    case Insert(item) => (m[KeyOf(item) := item], Lookup(m, KeyOf(item)))
    case Remove(key) => (m - {key}, Lookup(m, key))
    case Get(key) => (m, Lookup(m, key))
    case PushIfAbsent(item) => (if KeyOf(item) in m then m else m[KeyOf(item) := item], Lookup(m, KeyOf(item)))
    case Filter(_) => (m, None)
    case FilterReset => (m, None)
    case Clear => (map[], None)
  }

  function Lookup(m: map<ListKey, ListItem>, key: ListKey): Option<ListItem> {
    if key in m then Some(m[key]) else None
  }

  function MapAfter(ops: seq<Op>): map<ListKey, ListItem> {
    if ops == [] then map[] else MapStep(MapAfter(ops[..|ops| - 1]), ops[|ops| - 1]).0
  }

  predicate WellFormed(lower: string -> string, op: Op) {
    op.Insert? || op.PushIfAbsent? ==> op.item.sortableName == lower(op.item.name)
  }

  /** One operation on the view, a push guarded by a failed get as the callers guard it. */
  method Apply(view: FilteredListView, op: Op) returns (answer: Option<ListItem>)
    requires view.Valid() && view.Unique() && WellFormed(view.lower, op)
    modifies view
    ensures view.Valid() && view.Unique()
    ensures (view.Model(), answer) == MapStep(old(view.Model()), op)
  {
    answer := None;
    match op {
      case Insert(item) => answer := view.InsertUnique(item);
      case Remove(key) => answer := view.Remove(key);
      case Get(key) =>
        var at := view.Get(key);
        if at.Some? {
          answer := Some(view.list[at.value]);
        }
      case PushIfAbsent(item) =>
        var at := view.Get(KeyOf(item));
        if at.Some? {
          answer := Some(view.list[at.value]);
        } else {
          view.Push(item);
        }
      case Filter(criteria) =>
        ghost var found, landed := view.Filter(criteria);
      case FilterReset => view.FilterReset();
      case Clear => view.Clear();
    }
  }

  function MapAnswers(ops: seq<Op>): seq<Option<ListItem>> {
    if ops == [] then []
    else MapAnswers(ops[..|ops| - 1]) + [MapStep(MapAfter(ops[..|ops| - 1]), ops[|ops| - 1]).1]
  }

  /**
   * Any sequence of operations on a new view answers as the map does and leaves the view
   * standing for the map's contents, its window inside the list.
   */
  method Replay(lower: string -> string, ops: seq<Op>)
    returns (answers: seq<Option<ListItem>>, list: seq<ListItem>, window: Option<(nat, nat)>)
    requires forall i :: 0 <= i < |ops| ==> WellFormed(lower, ops[i])
    ensures answers == MapAnswers(ops)
    ensures Distinct(list) && Contents(list) == MapAfter(ops)
    ensures window.Some? ==> window.value.0 <= window.value.1 <= |list|
  {
    var view := new FilteredListView(lower);
    answers := [];
    for i := 0 to |ops|
      invariant view.Valid() && view.Unique() && view.lower == lower
      invariant view.Model() == MapAfter(ops[..i])
      invariant answers == MapAnswers(ops[..i])
    {
      assert ops[..i + 1][..i] == ops[..i];
      var answer := Apply(view, ops[i]);
      answers := answers + [answer];
    }
    assert ops[..|ops|] == ops;
    list, window := view.list, view.filterRange;
  }
}
