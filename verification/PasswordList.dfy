// ActionManager::retrieve_db for passwords (src/actions.rs): the stored records are merged into
// the cached list, refreshing items in place where they are already there.

module PasswordList {
  import opened FilteredList
  import opened ItemCache
  import opened Results
  import Pw = PasswordRecords

  /** What reading the dictionary gives for a key: nothing (out of cache space), bytes, or text. */
  datatype Body = Missing | NotText | Text(text: string)

  datatype DbKey = DbKey(name: string, body: Body)

  function Data(body: Body): Option<string> { if body.Text? then Some(body.text) else None }

  /** The record a key holds, when there is one and it can be read. */
  function Loaded(key: DbKey): Option<Pw.Password> {
    if key.body.Missing? || Pw.From(Pw.BLANK, Data(key.body)).Err? then None
    else Some(Pw.From(Pw.BLANK, Data(key.body)).value)
  }

  function ItemKey(lower: string -> string, key: DbKey, pw: Pw.Password): ListKey {
    ListKey(lower(pw.description), key.name)
  }

  /** The item for a record. An item whose use did not change keeps the extra text it shows. */
  function Refreshed(lower: string -> string, previous: Option<ListItem>, key: DbKey, pw: Pw.Password): ListItem {
    ListItem(pw.description, lower(pw.description),
      if previous.Some? && previous.value.atime == pw.atime && previous.value.count == pw.count
      then previous.value.extra else pw.username,
      key.name, pw.atime, pw.count)
  }

  function Merged(lower: string -> string, m: map<ListKey, ListItem>, key: DbKey): map<ListKey, ListItem> {
    match Loaded(key)
    case None => m
    case Some(pw) =>
      var k := ItemKey(lower, key, pw);
      m[k := Refreshed(lower, Lookup(m, k), key, pw)]
  }

  function MergedAll(lower: string -> string, m: map<ListKey, ListItem>, keys: seq<DbKey>): map<ListKey, ListItem> {
    if keys == [] then m else Merged(lower, MergedAll(lower, m, keys[..|keys| - 1]), keys[|keys| - 1])
  }

  /** How many keys came without their data. */
  function MissingIn(keys: seq<DbKey>): nat {
    if keys == [] then 0
    else MissingIn(keys[..|keys| - 1]) + if keys[|keys| - 1].body.Missing? then 1 else 0
  }

  /** Merge one record into the view: refresh the item it has, or push a new one. */
  method MergeOne(view: FilteredListView, key: DbKey, pw: Pw.Password)
    requires view.Valid() && view.Unique() && Loaded(key) == Some(pw)
    modifies view
    ensures view.Valid() && view.Unique()
    ensures view.Model() == Merged(view.lower, old(view.Model()), key)
  {
    hide Ascending, Distinct, Contents, Loaded;
    var desc := pw.description;
    var lookupKey := ListKey(view.lower(desc), key.name);
    var at := view.Get(lookupKey);
    MergedIs(view.lower, view.Model(), key, pw);
    match at
    case Some(i) =>
      var entry := view.list[i];
      assert entry in view.list;
      if entry.atime != pw.atime || entry.count != pw.count {
        entry := entry.(extra := pw.username);
      }
      if entry.name != desc {
        entry := entry.(name := desc, sortableName := view.lower(desc));
      }
      if entry.guid != key.name {
        entry := entry.(guid := key.name);
      }
      entry := entry.(atime := pw.atime, count := pw.count);
      assert entry == Refreshed(view.lower, Some(view.list[i]), key, pw);
      hide Refreshed, Merged;
      ReplaceAt(view.list, i, entry);
      view.list := view.list[i := entry];
    case None =>
      view.Push(ListItem(desc, view.lower(desc), pw.username, key.name, pw.atime, pw.count));
  }

  lemma MergedIs(lower: string -> string, m: map<ListKey, ListItem>, key: DbKey, pw: Pw.Password)
    requires Loaded(key) == Some(pw)
    ensures var k := ListKey(lower(pw.description), key.name);
      k == ItemKey(lower, key, pw) && Merged(lower, m, key) == m[k := Refreshed(lower, Lookup(m, k), key, pw)]
  {
    hide Loaded, Refreshed;
  }

  /** Load the whole dictionary. Keys whose data did not fit are counted, unreadable ones skipped. */
  method RetrievePasswords(view: FilteredListView, keys: seq<DbKey>) returns (missing: nat)
    requires view.Valid() && view.Unique()
    modifies view
    ensures view.Valid() && view.Unique()
    ensures view.Model() == MergedAll(view.lower, old(view.Model()), keys)
    ensures view.filterRange == Some((0, |view.list|))
    ensures missing == MissingIn(keys)
  {
    missing := 0;
    var record := new Pw.PasswordRecord();
    for i := 0 to |keys|
      invariant view.Valid() && view.Unique() && fresh(record)
      invariant view.Model() == MergedAll(view.lower, old(view.Model()), keys[..i])
      invariant missing == MissingIn(keys[..i])
    {
      assert keys[..i + 1][..i] == keys[..i];
      if keys[i].body.Missing? {
        missing := missing + 1;
      } else {
        var error := record.FromVec(Data(keys[i].body));
        if error == None {
          var pw := Pw.Password(record.version, record.description, record.username, record.password,
                                record.notes, record.ctime, record.atime, record.count);
          MergeOne(view, keys[i], pw);
        }
      }
    }
    assert keys[..|keys|] == keys;
    view.FilterReset();
  }

  // ---------- what the merge promises ----------

  ghost predicate DistinctNames(keys: seq<DbKey>) {
    forall i, j :: 0 <= i < j < |keys| ==> keys[i].name != keys[j].name
  }

  /** Some record of the dictionary has the item key. */
  ghost predicate Recorded(lower: string -> string, keys: seq<DbKey>, k: ListKey) {
    exists i :: 0 <= i < |keys| && Loaded(keys[i]).Some? && ItemKey(lower, keys[i], Loaded(keys[i]).value) == k
  }

  /** Items no record names are untouched, and the merge adds no item of its own. */
  lemma {:induction false} OthersUntouched(
    lower: string -> string, m: map<ListKey, ListItem>, keys: seq<DbKey>, k: ListKey)
    requires !Recorded(lower, keys, k)
    ensures Lookup(MergedAll(lower, m, keys), k) == Lookup(m, k)
  {
    if keys != [] {
      var front, last := keys[..|keys| - 1], keys[|keys| - 1];
      assert forall i :: 0 <= i < |front| ==> front[i] == keys[i];
      OthersUntouched(lower, m, front, k);
      assert keys[|keys| - 1] == last;
    }
  }

  /** With distinct key names, the item of a readable record is the one before, refreshed. */
  lemma {:induction false} EveryRecordRefreshed(
    lower: string -> string, m: map<ListKey, ListItem>, keys: seq<DbKey>, i: nat)
    requires DistinctNames(keys) && i < |keys| && Loaded(keys[i]).Some?
    ensures var pw := Loaded(keys[i]).value; var k := ItemKey(lower, keys[i], pw);
      Lookup(MergedAll(lower, m, keys), k) == Some(Refreshed(lower, Lookup(m, k), keys[i], pw))
  {
    var front := keys[..|keys| - 1];
    var pw := Loaded(keys[i]).value;
    var k := ItemKey(lower, keys[i], pw);
    if i == |keys| - 1 {
      forall j | 0 <= j < |front| ensures front[j].name != keys[i].name {
        assert front[j] == keys[j];
      }
      OthersUntouched(lower, m, front, k);
    } else {
      assert front[i] == keys[i];
      EveryRecordRefreshed(lower, m, front, i);
      assert keys[|keys| - 1].name != keys[i].name;
    }
  }

  /**
   * Every readable record ends up as one item, under its lower-cased description and its key,
   * carrying its description, its key and when and how often it was used. The extra text is the
   * user name, unless the item was there already with the same use: then it is kept.
   */
  lemma EveryRecordMerged(lower: string -> string, m: map<ListKey, ListItem>, keys: seq<DbKey>, i: nat)
    requires DistinctNames(keys) && i < |keys| && Loaded(keys[i]).Some?
    ensures var pw := Loaded(keys[i]).value; var k := ListKey(lower(pw.description), keys[i].name);
      var after := MergedAll(lower, m, keys);
      && k in after && KeyOf(after[k]) == k
      && after[k].name == pw.description && after[k].guid == keys[i].name
      && after[k].atime == pw.atime && after[k].count == pw.count
      && after[k].extra ==
           if k in m && m[k].atime == pw.atime && m[k].count == pw.count then m[k].extra else pw.username
  {
    hide Loaded, MergedAll;
    EveryRecordRefreshed(lower, m, keys, i);
  }

  /** Where the keys are that came without their data. */
  ghost function MissingAt(keys: seq<DbKey>): set<nat> { set i: nat | i < |keys| && keys[i].body == Missing }

  lemma MissingAtLast(keys: seq<DbKey>)
    requires keys != []
    ensures var n := |keys| - 1;
      && MissingAt(keys) == MissingAt(keys[..n]) + (if keys[n].body == Missing then {n} else {})
      && n !in MissingAt(keys[..n])
  {
    var n := |keys| - 1;
    assert forall i: nat :: i < n ==> keys[..n][i] == keys[i];
  }

  /** They are the ones counted. */
  lemma {:induction false} MissingAreCounted(keys: seq<DbKey>)
    ensures MissingIn(keys) == |MissingAt(keys)|
  {
    hide MissingAt;
    if keys == [] {
      assert MissingAt(keys) == {} by {
        NoneMissing();
      }
    } else {
      MissingAtLast(keys);
      MissingAreCounted(keys[..|keys| - 1]);
    }
  }

  lemma NoneMissing()
    ensures MissingAt([]) == {}
  {
  }

  /**
   * Reloading an unchanged dictionary changes nothing: the merge is idempotent, so the extra
   * text an item shows survives.
   */
  lemma ReloadIsIdempotent(lower: string -> string, m: map<ListKey, ListItem>, keys: seq<DbKey>)
    requires DistinctNames(keys)
    ensures var once := MergedAll(lower, m, keys); MergedAll(lower, once, keys) == once
  {
    var once := MergedAll(lower, m, keys);
    var twice := MergedAll(lower, once, keys);
    forall k ensures Lookup(twice, k) == Lookup(once, k) {
      if Recorded(lower, keys, k) {
        var i :| 0 <= i < |keys| && Loaded(keys[i]).Some? && ItemKey(lower, keys[i], Loaded(keys[i]).value) == k;
        EveryRecordRefreshed(lower, m, keys, i);
        EveryRecordRefreshed(lower, once, keys, i);
      } else {
        OthersUntouched(lower, once, keys, k);
      }
    }
    forall k ensures k in twice <==> k in once {
      assert Lookup(twice, k) == Lookup(once, k);
    }
    forall k | k in once ensures twice[k] == once[k] {
      assert Lookup(twice, k) == Lookup(once, k);
    }
  }
}
