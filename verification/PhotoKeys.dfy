// The photo dictionary of src/storage.rs: numbered keys, one above the highest there is.

module PhotoKeys {
  import opened FixedDigits
  import opened Photos
  import opened Results
  import opened TextFormat
  import opened TextOrder

  const PREFIX := "photo_"

  /** format!("photo_{:04}", n). */
  function KeyOf(n: nat): string { PREFIX + Padded(n, 10, 4) }

  /** The number in a key, for keys that have one. */
  function NumberOf(key: string): Option<nat> {
    if PREFIX <= key then Read(key[|PREFIX|..], 10, TWO_32) else None
  }

  /** One above the highest number among the keys, or zero. */
  ghost predicate IsNext(keys: set<string>, n: nat) {
    && (forall k :: k in keys && NumberOf(k).Some? ==> NumberOf(k).value < n)
    && (n == 0 || exists k :: k in keys && NumberOf(k) == Some(n - 1))
  }

  // ---------- a key's number ----------

  /** A key reads back as the number it was made from. */
  lemma KeyReads(n: nat)
    requires n < TWO_32
    ensures NumberOf(KeyOf(n)) == Some(n)
    ensures |KeyOf(n)| >= 10 && KeyOf(n)[..6] == "photo_" && ReadDigits(KeyOf(n)[6..], 10) == Some(n)
  {
    PaddedReads(n, 10, 4);
    hide Padded, ReadDigits;
    assert KeyOf(n)[|PREFIX|..] == Padded(n, 10, 4);
  }

  /** The next key is new: a delete cannot cause a collision. */
  lemma NextKeyIsNew(keys: set<string>, n: nat)
    requires IsNext(keys, n) && n < TWO_32
    ensures KeyOf(n) !in keys
  {
    KeyReads(n);
  }

  // ---------- the order of the list ----------

  lemma {:induction false} CmpTextPrefix(p: string, a: string, b: string)
    ensures CmpText(p + a, p + b) == CmpText(a, b)
  {
    if p == [] {
      assert p + a == a && p + b == b;
    } else {
      CmpTextPrefix(p[1..], a, b);
      assert (p + a)[1..] == p[1..] + a && (p + b)[1..] == p[1..] + b;
    }
  }

  /** The keys of two photos are in the order of their numbers exactly when TextsInOrder says so. */
  lemma KeysSortIff(n: nat, m: nat)
    requires n < m
    ensures CmpText(KeyOf(n), KeyOf(m)) == Less <==> TextsInOrder(n, m, 10, 4)
  {
    hide Padded, CmpText, TextsInOrder;
    TextsSortIff(n, m, 10, 4);
    CmpTextPrefix(PREFIX, Padded(n, 10, 4), Padded(m, 10, 4));
  }

  /** Four digits hold all numbers below 10000, and among those nothing is out of order. */
  lemma LowKeysRise(n: nat, m: nat)
    requires n < m < 10000
    ensures TextsInOrder(n, m, 10, 4)
  {
    assert Pow(10, 4) == 10000;
    hide Show, Pow;
    PaddedIsFixed(n, 10, 4);
    PaddedIsFixed(m, 10, 4);
  }

  /** The numbers of a list of photos as it is shown, sorted by key. */
  ghost predicate SortedByKey(shown: seq<nat>) {
    forall i, j :: 0 <= i < j < |shown| ==> CmpText(KeyOf(shown[i]), KeyOf(shown[j])) == Less
  }

  ghost predicate Rises(shown: seq<nat>) { forall i, j :: 0 <= i < j < |shown| ==> shown[i] < shown[j] }

  /** A sorted list of photos is in the order they were numbered exactly when each pair is. */
  lemma ListRisesIff(shown: seq<nat>)
    requires SortedByKey(shown)
    ensures Rises(shown) <==>
      forall n, m :: n in shown && m in shown && n < m ==> TextsInOrder(n, m, 10, 4)
  {
    hide KeyOf, CmpText, TextsInOrder;
    if Rises(shown) {
      forall n, m | n in shown && m in shown && n < m ensures TextsInOrder(n, m, 10, 4) {
        var i :| 0 <= i < |shown| && shown[i] == n;
        var j :| 0 <= j < |shown| && shown[j] == m;
        assert i < j;
        KeysSortIff(n, m);
      }
    }
    if forall n, m :: n in shown && m in shown && n < m ==> TextsInOrder(n, m, 10, 4) {
      forall i, j | 0 <= i < j < |shown| ensures shown[i] < shown[j] {
        SortedPairRises(shown[i], shown[j]);
      }
    }
  }

  lemma SortedPairRises(n: nat, m: nat)
    requires CmpText(KeyOf(n), KeyOf(m)) == Less
    ensures (m < n ==> TextsInOrder(m, n, 10, 4)) ==> n < m
  {
    hide KeyOf, CmpText, TextsInOrder;
    CmpTextFlips(KeyOf(n), KeyOf(m));
    CmpTextEqual(KeyOf(n), KeyOf(m));
    if m < n {
      KeysSortIff(m, n);
    }
  }

  // ---------- numbers over a run ----------

  datatype Change = Issued(number: nat) | Removed(number: nat)

  /** One above the highest number there is, or zero. */
  ghost predicate IsTop(present: set<nat>, n: nat) {
    (forall k :: k in present ==> k < n) && (n == 0 || n - 1 in present)
  }

  ghost predicate IsHighest(present: set<nat>, n: nat) {
    n in present && forall k :: k in present ==> k <= n
  }

  ghost predicate Changes(before: set<nat>, c: Change, after: set<nat>) {
    match c
    case Issued(n) => IsTop(before, n) && after == before + {n}
    case Removed(n) => after == before - {n}
  }

  /** From an empty dictionary, the numbers present before and after each change. */
  ghost predicate IsHistory(present: seq<set<nat>>, cs: seq<Change>) {
    && |present| == |cs| + 1
    && present[0] == {}
    && forall i {:trigger cs[i]} :: 0 <= i < |cs| ==> Changes(present[i], cs[i], present[i + 1])
  }

  ghost predicate NeverReissued(cs: seq<Change>) {
    forall i, j :: 0 <= i < j < |cs| && cs[i].Issued? && cs[j].Issued? ==> cs[i].number != cs[j].number
  }

  ghost predicate NumbersRise(cs: seq<Change>) {
    forall i, j :: 0 <= i < j < |cs| && cs[i].Issued? && cs[j].Issued? ==> cs[i].number < cs[j].number
  }

  /** The i-th change takes the photo with the highest number. */
  ghost predicate TakesTheHighest(present: seq<set<nat>>, cs: seq<Change>, i: nat)
  {
    i < |cs| <= |present| && cs[i].Removed? && IsHighest(present[i], cs[i].number)
  }

  /** Nothing is stored any more once the photo with the highest number was deleted. */
  ghost predicate HighestIsKept(present: seq<set<nat>>, cs: seq<Change>) {
    forall i, j :: 0 <= i < j < |cs| && cs[j].Issued? ==> !TakesTheHighest(present, cs, i)
  }

  ghost predicate NeverTaken(present: seq<set<nat>>, cs: seq<Change>) {
    forall i :: 0 <= i < |cs| ==> !TakesTheHighest(present, cs, i)
  }

  /** One above the highest number ever issued. */
  ghost function Ever(cs: seq<Change>): nat {
    if cs == [] then 0
    else
      var rest := Ever(cs[..|cs| - 1]);
      match cs[|cs| - 1]
      case Issued(n) => if n < rest then rest else n + 1
      case Removed(_) => rest
  }

  lemma HistoryFront(present: seq<set<nat>>, cs: seq<Change>)
    requires IsHistory(present, cs) && cs != []
    ensures var i := |cs| - 1;
      && IsHistory(present[..i + 1], cs[..i])
      && present[..i + 1][i] == present[i]
      && Changes(present[i], cs[i], present[i + 1])
  {
  }

  lemma {:induction false} HistoryPrefix(present: seq<set<nat>>, cs: seq<Change>, i: nat)
    requires IsHistory(present, cs) && i <= |cs|
    ensures IsHistory(present[..i + 1], cs[..i])
  {
  }

  lemma NeverTakenBefore(present: seq<set<nat>>, cs: seq<Change>, i: nat)
    requires IsHistory(present, cs) && i <= |cs|
    requires forall k :: 0 <= k < i ==> !TakesTheHighest(present, cs, k)
    ensures NeverTaken(present[..i + 1], cs[..i])
  {
    var front, changes := present[..i + 1], cs[..i];
    forall k | 0 <= k < |changes| ensures !TakesTheHighest(front, changes, k) {
      assert !TakesTheHighest(present, cs, k);
    }
  }

  lemma HistoryGrows(present: seq<set<nat>>, cs: seq<Change>, c: Change, after: set<nat>)
    requires IsHistory(present, cs) && Changes(present[|cs|], c, after)
    ensures IsHistory(present + [after], cs + [c])
  {
    hide Changes;
  }

  /** The numbers ever issued are those below Ever, and all that are present are among them. */
  lemma {:induction false} EverIssued(present: seq<set<nat>>, cs: seq<Change>)
    requires IsHistory(present, cs)
    ensures forall k :: k in present[|cs|] ==> k < Ever(cs)
    ensures forall k: nat :: k < Ever(cs) <==> Issued(k) in cs
    decreases |cs|
  {
    if cs != [] {
      var i := |cs| - 1;
      HistoryFront(present, cs);
      EverIssued(present[..i + 1], cs[..i]);
      assert cs == cs[..i] + [cs[i]];
    }
  }

  /** While the highest is kept, the next number is one never issued. */
  lemma {:induction false} TopIsEver(present: seq<set<nat>>, cs: seq<Change>)
    requires IsHistory(present, cs) && NeverTaken(present, cs)
    ensures IsTop(present[|cs|], Ever(cs))
    decreases |cs|
  {
    if cs != [] {
      var i := |cs| - 1;
      HistoryFront(present, cs);
      assert NeverTaken(present[..i + 1], cs[..i]) by {
        NeverTakenBefore(present, cs, i);
      }
      TopIsEver(present[..i + 1], cs[..i]);
      assert !TakesTheHighest(present, cs, i);
    }
  }

  lemma KeptHighestRises(present: seq<set<nat>>, cs: seq<Change>, i: nat, j: nat)
    requires IsHistory(present, cs) && HighestIsKept(present, cs)
    requires i < j < |cs| && cs[i].Issued? && cs[j].Issued?
    ensures cs[i].number < cs[j].number
  {
    HistoryPrefix(present, cs, j);
    NeverTakenBefore(present, cs, j);
    TopIsEver(present[..j + 1], cs[..j]);
    EverIssued(present[..j + 1], cs[..j]);
    assert cs[..j][i] == cs[i];
    assert Changes(present[j], cs[j], present[j + 1]);
  }

  /** The first number issued from i on, with only removals before it. */
  lemma {:induction false} FirstIssued(present: seq<set<nat>>, cs: seq<Change>, i: nat, j: nat) returns (k: nat)
    requires IsHistory(present, cs) && i <= j < |cs| && cs[j].Issued?
    ensures i <= k <= j && cs[k].Issued? && present[k] <= present[i]
    decreases j - i
  {
    if cs[i].Issued? {
      k := i;
    } else {
      assert Changes(present[i], cs[i], present[i + 1]);
      k := FirstIssued(present, cs, i + 1, j);
    }
  }

  /** After the highest was deleted, the next photo stored gets a number that was issued before. */
  lemma HighestComesBack(present: seq<set<nat>>, cs: seq<Change>, i: nat, j: nat)
    requires IsHistory(present, cs) && i < j < |cs| && cs[j].Issued? && TakesTheHighest(present, cs, i)
    ensures !NeverReissued(cs)
  {
    assert Changes(present[i], cs[i], present[i + 1]);
    var k := FirstIssued(present, cs, i + 1, j);
    assert Changes(present[k], cs[k], present[k + 1]);
    HistoryPrefix(present, cs, i);
    EverIssued(present[..i + 1], cs[..i]);
    assert present[..i + 1][i] == present[i];
    assert Issued(cs[k].number) in cs[..i];
    var h :| 0 <= h < i && cs[..i][h] == Issued(cs[k].number);
    assert cs[h] == cs[k];
  }

  /**
   * Over any run of stores and deletes, the numbers rise, and none is issued twice, exactly when
   * no photo is stored after the one with the highest number was deleted.
   */
  lemma NumbersRiseIff(present: seq<set<nat>>, cs: seq<Change>)
    requires IsHistory(present, cs)
    ensures NumbersRise(cs) <==> HighestIsKept(present, cs)
    ensures NeverReissued(cs) <==> HighestIsKept(present, cs)
  {
    hide IsHistory, TakesTheHighest;
    if HighestIsKept(present, cs) {
      forall i, j | 0 <= i < j < |cs| && cs[i].Issued? && cs[j].Issued? ensures cs[i].number < cs[j].number {
        KeptHighestRises(present, cs, i, j);
      }
    } else {
      var i, j :| 0 <= i < j < |cs| && cs[j].Issued? && TakesTheHighest(present, cs, i);
      HighestComesBack(present, cs, i, j);
    }
  }

  function KeysOf(present: set<nat>): set<string> { set n | n in present :: KeyOf(n) }

  /** Among photo keys alone, the next number is read off the numbers. */
  lemma NextIsTop(present: set<nat>, n: nat)
    requires forall k :: k in present ==> k < TWO_32
    ensures IsNext(KeysOf(present), n) <==> IsTop(present, n)
  {
    hide KeyOf, NumberOf;
    forall k | k in present ensures KeyOf(k) in KeysOf(present) && NumberOf(KeyOf(k)) == Some(k) {
      KeyReads(k);
    }
    assert forall key :: key in KeysOf(present) ==> exists k :: k in present && key == KeyOf(k);
  }

  lemma KeysDiffer(n: nat, m: nat)
    ensures KeyOf(n) == KeyOf(m) <==> n == m
  {
    PaddedReads(n, 10, 4);
    PaddedReads(m, 10, 4);
    hide Padded, ReadDigits;
    assert KeyOf(n)[|PREFIX|..] == Padded(n, 10, 4) && KeyOf(m)[|PREFIX|..] == Padded(m, 10, 4);
  }

  lemma KeysOfChange(present: set<nat>, n: nat)
    ensures KeysOf(present + {n}) == KeysOf(present) + {KeyOf(n)}
    ensures KeysOf(present - {n}) == KeysOf(present) - {KeyOf(n)}
  {
    hide KeyOf;
    forall k | k in present ensures KeyOf(k) == KeyOf(n) ==> k == n {
      KeysDiffer(k, n);
    }
    assert forall k :: k in present && k != n ==> k in present - {n};
  }

  // ---------- storing and deleting ----------

  /** What is under a key; a write that failed leaves something that does not read as a photo. */
  datatype Stored = Whole(photo: Photo) | Partial

  class PhotoDict {
    var dict: map<string, Stored>
    const cap: nat

    constructor (cap: nat)
      ensures dict == map[] && this.cap == cap
    {
      dict, this.cap := map[], cap;
    }

    /** One above the highest number there is. */
    method Next() returns (next: nat)
      ensures IsNext(dict.Keys, next)
    {
      next := 0;
      var rest := dict.Keys;
      while rest != {}
        invariant rest <= dict.Keys && IsNext(dict.Keys - rest, next)
        decreases rest
      {
        var k :| k in rest;
        ghost var seen := dict.Keys - rest;
        rest := rest - {k};
        assert dict.Keys - rest == seen + {k};
        var n := NumberOf(k);
        if n.Some? && n.value >= next {
          next := n.value + 1;
        }
      }
      assert dict.Keys - rest == dict.Keys;
    }

    /** Store a photo under a new key, unless the cap is reached, the numbers run out or a write fails. */
    method Store(photo: Photo, openFails: bool, writeFails: bool) returns (key: Option<string>, ghost next: nat)
      modifies this
      ensures |old(dict)| < cap ==> IsNext(old(dict).Keys, next)
      ensures var made := |old(dict)| < cap && next < TWO_32 && !openFails;
        && (made ==> KeyOf(next) !in old(dict))
        && dict == (if !made then old(dict)
                    else old(dict)[KeyOf(next) := if writeFails then Partial else Whole(photo)])
        && key == if made && !writeFails then Some(KeyOf(next)) else None
    {
      if |dict| >= cap {
        return None, 0;
      }
      var number := Next();
      next := number;
      if number >= TWO_32 {
        return None, next;
      }
      NextKeyIsNew(dict.Keys, number);
      var name := KeyOf(number);
      if openFails {
        return None, next;
      }
      if writeFails {
        dict := dict[name := Partial];
        return None, next;
      }
      dict := dict[name := Whole(photo)];
      return Some(name), next;
    }

    method Get(key: string) returns (photo: Option<Photo>)
      ensures photo == if key in dict && dict[key].Whole? then Some(dict[key].photo) else None
    {
      if key in dict && dict[key].Whole? {
        return Some(dict[key].photo);
      }
      return None;
    }

    method Delete(key: string)
      modifies this
      ensures dict == old(dict) - {key}
    {
      dict := dict - {key};
    }
  }

  datatype PhotoOp = Take(photo: Photo, openFails: bool, writeFails: bool) | Discard(number: nat)

  /** The i-th name given out is that of the at[i]-th change. */
  ghost predicate NamesFrom(names: seq<string>, cs: seq<Change>, at: seq<nat>) {
    && |at| == |names| && Rises(at)
    && forall i {:trigger at[i]} :: 0 <= i < |at| ==>
         at[i] < |cs| && cs[at[i]].Issued? && names[i] == KeyOf(cs[at[i]].number)
  }

  lemma NamesGrow(names: seq<string>, cs: seq<Change>, at: seq<nat>, c: Change)
    requires NamesFrom(names, cs, at)
    ensures NamesFrom(names, cs + [c], at)
    ensures c.Issued? ==> NamesFrom(names + [KeyOf(c.number)], cs + [c], at + [|cs|])
  {
    hide KeyOf;
  }

  /** The dictionary holds photo keys only, those of the last numbers of the history. */
  ghost predicate Follows(dict: map<string, Stored>, present: seq<set<nat>>, cs: seq<Change>) {
    && IsHistory(present, cs)
    && dict.Keys == KeysOf(present[|cs|])
    && forall k :: k in present[|cs|] ==> k < TWO_32
  }

  lemma StoreFollows(dict: map<string, Stored>, present: seq<set<nat>>, cs: seq<Change>, n: nat, content: Stored)
    requires Follows(dict, present, cs) && IsNext(dict.Keys, n) && n < TWO_32
    ensures Follows(dict[KeyOf(n) := content], present + [present[|cs|] + {n}], cs + [Issued(n)])
  {
    hide KeyOf, KeysOf, IsNext, IsHistory;
    LengthOf(present, cs);
    var now := present[|cs|];
    NextIsTop(now, n);
    KeysOfChange(now, n);
    HistoryGrows(present, cs, Issued(n), now + {n});
    assert dict[KeyOf(n) := content].Keys == dict.Keys + {KeyOf(n)};
  }

  lemma DeleteFollows(dict: map<string, Stored>, present: seq<set<nat>>, cs: seq<Change>, n: nat)
    requires Follows(dict, present, cs)
    ensures Follows(dict - {KeyOf(n)}, present + [present[|cs|] - {n}], cs + [Removed(n)])
  {
    hide KeyOf, KeysOf, IsHistory;
    LengthOf(present, cs);
    var now := present[|cs|];
    KeysOfChange(now, n);
    HistoryGrows(present, cs, Removed(n), now - {n});
    assert (dict - {KeyOf(n)}).Keys == dict.Keys - {KeyOf(n)};
  }

  lemma LengthOf(present: seq<set<nat>>, cs: seq<Change>)
    requires IsHistory(present, cs)
    ensures |present| == |cs| + 1
  {
  }

  /**
   * Any run of stores and deletes from an empty dictionary is a history of its numbers, so as long
   * as no photo is stored after the one with the highest number was deleted, all names differ.
   */
  method Replay(photos: PhotoDict, ops: seq<PhotoOp>)
    returns (names: seq<string>, ghost present: seq<set<nat>>, ghost cs: seq<Change>, ghost at: seq<nat>)
    requires photos.dict == map[]
    modifies photos
    ensures Follows(photos.dict, present, cs) && NamesFrom(names, cs, at)
    ensures HighestIsKept(present, cs) ==> forall i, j :: 0 <= i < j < |names| ==> names[i] != names[j]
  {
    names, present, cs, at := [], [{}], [], [];
    hide KeyOf, KeysOf, IsNext, IsHistory, NamesFrom;
    assert Follows(photos.dict, present, cs) && NamesFrom(names, cs, at) by {
      EmptyFollows();
    }
    for n := 0 to |ops|
      invariant Follows(photos.dict, present, cs) && NamesFrom(names, cs, at)
    {
      LengthOf(present, cs);
      match ops[n]
      case Take(photo, openFails, writeFails) =>
        ghost var before := photos.dict;
        var key, next := photos.Store(photo, openFails, writeFails);
        if photos.dict != before {
          StoreFollows(before, present, cs, next, if writeFails then Partial else Whole(photo));
          NamesGrow(names, cs, at, Issued(next));
          present := present + [present[|cs|] + {next}];
          if key.Some? {
            at := at + [|cs|];
          }
          cs := cs + [Issued(next)];
        }
        if key.Some? {
          names := names + [key.value];
        }
      case Discard(number) =>
        DeleteFollows(photos.dict, present, cs, number);
        NamesGrow(names, cs, at, Removed(number));
        photos.Delete(KeyOf(number));
        present, cs := present + [present[|cs|] - {number}], cs + [Removed(number)];
    }
    NamesDiffer(names, present, cs, at);
  }

  lemma EmptyFollows()
    ensures Follows(map[], [{}], []) && NamesFrom([], [], [])
  {
  }

  lemma NamesDiffer(names: seq<string>, present: seq<set<nat>>, cs: seq<Change>, at: seq<nat>)
    requires IsHistory(present, cs) && NamesFrom(names, cs, at)
    ensures HighestIsKept(present, cs) ==> forall i, j :: 0 <= i < j < |names| ==> names[i] != names[j]
  {
    hide KeyOf, IsHistory;
    if HighestIsKept(present, cs) {
      forall i, j | 0 <= i < j < |names| ensures names[i] != names[j] {
        assert at[i] < at[j];
        KeptHighestRises(present, cs, at[i], at[j]);
        KeysDiffer(cs[at[i]].number, cs[at[j]].number);
      }
    }
  }
}
