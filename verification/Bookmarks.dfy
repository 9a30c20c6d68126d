// Saved URLs: the hex keys, the counter behind them and the stored bodies (src/storage.rs), and
// the list the screen shows (src/ux.rs).

module BookmarkKeys {
  import opened FixedDigits
  import opened Results
  import opened TextFormat
  import opened TextOrder

  /** format!("{:016x}", n). */
  function Key(n: nat): string { Padded(n, 16, 16) }

  lemma SixteenDigits()
    ensures Pow(16, 16) == TWO_64
  {
    assert Pow(16, 4) == 0x1_0000;
    assert Pow(16, 8) == 0x1_0000_0000;
    assert Pow(16, 12) == 0x1_0000_0000_0000;
  }

  /** A key has sixteen digits, so it is never the counter's own name. */
  lemma KeyIsSixteenDigits(n: nat)
    requires n < TWO_64
    ensures |Key(n)| == 16 && ReadDigits(Key(n), 16) == Some(n)
  {
    SixteenDigits();
    PaddedIsFixed(n, 16, 16);
    PaddedReads(n, 16, 16);
    hide Fixed, Show, Pow, Padded, ReadDigits;
  }

  /** Keys sort as their numbers do, over the whole 64-bit range. */
  lemma KeysSortAsNumbers(n: nat, m: nat)
    requires n < TWO_64 && m < TWO_64
    ensures CmpText(Key(n), Key(m)) == (if n < m then Less else if m < n then Greater else Equal)
    ensures Key(n) == Key(m) <==> n == m
  {
    hide Pow, Padded;
    SixteenDigits();
    CmpTextEqual(Key(n), Key(m));
    CmpTextFlips(Key(n), Key(m));
    if n < m {
      PaddedOrder(n, m, 16, 16);
    } else if m < n {
      PaddedOrder(m, n, 16, 16);
    }
  }
}

module Bookmarks {
  import opened Results
  import opened TextFormat
  import opened TextOrder
  import opened BookmarkKeys
  import opened FixedDigits

  datatype Error = CounterCorrupt | CounterExhausted | StoreFailed | MissingField | BadTimestamp

  datatype Bookmark = Bookmark(url: string, labelText: string, timestamp: nat)

  /** What char::is_whitespace holds of. */
  predicate IsSpace(c: char) {
    || '\U{9}' <= c <= '\U{d}' || c == ' ' || c == '\U{85}' || c == '\U{a0}' || c == '\U{1680}'
    || '\U{2000}' <= c <= '\U{200a}' || c in {'\U{2028}', '\U{2029}', '\U{202f}', '\U{205f}', '\U{3000}'}
  }

  function Trim(s: string): string {
    if s == [] then s
    else if IsSpace(s[0]) then Trim(s[1..])
    else if IsSpace(s[|s| - 1]) then Trim(s[..|s| - 1])
    else s
  }

  predicate Blanks(s: string) { forall c :: c in s ==> IsSpace(c) }

  lemma OneBlankMore(c: char, a: string, middle: string, b: string)
    requires IsSpace(c) && Blanks(a) && Blanks(b)
    ensures Blanks([c] + a) && Blanks(b + [c])
    ensures [c] + (a + middle + b) == ([c] + a) + middle + b
    ensures (a + middle + b) + [c] == a + middle + (b + [c])
  {
    hide IsSpace;
  }

  /** Trimming takes off the blanks at both ends and nothing else. */
  lemma {:induction false} TrimTakesBlanks(s: string) returns (a: string, b: string)
    ensures s == a + Trim(s) + b && Blanks(a) && Blanks(b)
    ensures Trim(s) != [] ==> !IsSpace(Trim(s)[0]) && !IsSpace(Trim(s)[|Trim(s)| - 1])
    decreases |s|
  {
    hide IsSpace, Blanks;
    if s != [] && IsSpace(s[0]) {
      a, b := TrimTakesBlanks(s[1..]);
      OneBlankMore(s[0], a, Trim(s[1..]), b);
      a := [s[0]] + a;
      assert s == [s[0]] + s[1..];
    } else if s != [] && IsSpace(s[|s| - 1]) {
      a, b := TrimTakesBlanks(s[..|s| - 1]);
      OneBlankMore(s[|s| - 1], a, Trim(s[..|s| - 1]), b);
      b := b + [s[|s| - 1]];
      assert s == s[..|s| - 1] + [s[|s| - 1]];
    } else {
      a, b := NoBlanks();
      assert s == [] + s + [];
    }
  }

  lemma NoBlanks() returns (a: string, b: string)
    ensures a == b == [] && Blanks([])
  {
    a, b := [], [];
  }

  /** Writing at the start of a value in place: what the new text does not cover stays. */
  function Overwrite(before: string, text: string): string {
    text + if |text| < |before| then before[|text|..] else []
  }

  lemma ShownIsTrimmed(n: nat, base: nat)
    requires 2 <= base <= 16
    ensures Trim(Show(n, base)) == Show(n, base)
  {
    ShownHasNoSpace(n, base);
    var s := Show(n, base);
    assert s[0] in s && s[|s| - 1] in s;
  }

  lemma {:induction false} ShownHasNoSpace(n: nat, base: nat)
    requires 2 <= base <= 16
    ensures Show(n, base) != [] && forall c :: c in Show(n, base) ==> !IsSpace(c)
  {
    DigitIsNoSpace(n % base);
    if n < base {
      assert n % base == n;
    } else {
      ShownHasNoSpace(n / base, base);
    }
  }

  lemma DigitIsNoSpace(d: nat)
    requires d < 16
    ensures '0' <= DIGITS[d] <= 'f' && !IsSpace(DIGITS[d])
  {
  }

  // ---------- bodies ----------

  function Body(b: Bookmark): string { b.url + "\n" + b.labelText + "\n" + Show(b.timestamp, 10) }

  /** splitn(3, '\n'). */
  function SplitThree(s: string): seq<string> {
    var i := Find(s, '\n');
    if i == |s| then [s]
    else
      var rest := s[i + 1..];
      var j := Find(rest, '\n');
      if j == |rest| then [s[..i], rest] else [s[..i], rest[..j], rest[j + 1..]]
  }

  function ParseBody(s: string): Result<Bookmark, Error> {
    var parts := SplitThree(s);
    if |parts| < 3 then Err(MissingField)
    else
      match Read(Trim(parts[2]), 10, TWO_64)
      case Some(t) => Ok(Bookmark(parts[0], parts[1], t))
      case None => Err(BadTimestamp)
  }

  lemma SplitThreeLines(a: string, b: string, c: string)
    requires OneLine(a) && OneLine(b)
    ensures SplitThree(a + "\n" + b + "\n" + c) == [a, b, c]
  {
    var rest := b + "\n" + c;
    var s := a + "\n" + b + "\n" + c;
    assert s == a + ['\n'] + rest;
    FindAfter(a, '\n', rest);
    assert s[..|a|] == a && s[|a| + 1..] == rest;
    assert rest == b + ['\n'] + c;
    FindAfter(b, '\n', c);
    assert rest[..|b|] == b && rest[|b| + 1..] == c;
  }

  lemma PartsAreOneLine(s: string)
    ensures |SplitThree(s)| == 3 ==> OneLine(SplitThree(s)[0]) && OneLine(SplitThree(s)[1])
  {
  }

  /** A stored bookmark reads back as it was exactly when its URL and label are one line each. */
  lemma BodyRoundTrip(b: Bookmark)
    requires b.timestamp < TWO_64
    ensures ParseBody(Body(b)) == Ok(b) <==> OneLine(b.url) && OneLine(b.labelText)
  {
    if OneLine(b.url) && OneLine(b.labelText) {
      SplitThreeLines(b.url, b.labelText, Show(b.timestamp, 10));
      ShownIsTrimmed(b.timestamp, 10);
      ReadShow(b.timestamp, 10, TWO_64);
    } else {
      PartsAreOneLine(Body(b));
    }
  }

  ghost predicate TwoBreaks(s: string) { exists i, j :: 0 <= i < j < |s| && s[i] == '\n' == s[j] }

  lemma ThreeParts(s: string)
    ensures |SplitThree(s)| == 3 <==> TwoBreaks(s)
  {
    var i := Find(s, '\n');
    if i < |s| {
      var rest := s[i + 1..];
      var j := Find(rest, '\n');
      assert forall k :: 0 <= k < |rest| ==> rest[k] == s[i + 1 + k];
      if j < |rest| {
        assert s[i] == '\n' == s[i + 1 + j];
      }
    }
  }

  /** A body is refused for missing lines, or for a time that is no number of 64 bits. */
  lemma BadBodiesAreNamed(s: string)
    ensures ParseBody(s) == Err(MissingField) <==> !TwoBreaks(s)
    ensures ParseBody(s) == Err(BadTimestamp) <==>
      TwoBreaks(s) && Read(Trim(SplitThree(s)[|SplitThree(s)| - 1]), 10, 0x1_0000_0000_0000_0000) == None
  {
    ThreeParts(s);
    hide Trim, Read;
  }

  // ---------- the store ----------

  /** What is stored under a key: a text, or nothing that reads as one. */
  type Content = Option<string>

  /** A live entry: its number in the order of storing, and what it holds. */
  datatype Live = Live(number: nat, body: Content)

  /** Where storing a bookmark can fail; a failed write leaves something behind. */
  datatype Fault = NoFault | CounterFails | OpenFails | WriteFails(left: Content)

  /** Sixteen-digit keys, by what the store needs of them: they are as many and as ordered as the numbers. */
  ghost predicate OrderedKeys(keyOf: nat -> string) {
    && (forall n: nat, m: nat {:trigger AtMost(keyOf(n), keyOf(m))} ::
          n <= m < TWO_64 ==> AtMost(keyOf(n), keyOf(m)))
    && (forall n: nat, m: nat {:trigger keyOf(n), keyOf(m)} ::
          n < TWO_64 && m < TWO_64 && keyOf(n) == keyOf(m) ==> n == m)
  }

  /**
   * The bookmark dictionary. The counter's entry is kept apart from those under hex keys, which
   * are all longer than its name.
   */
  class BookmarkStore {
    var counter: Option<string>
    var dict: map<string, Content>
    ghost var issued: nat        // how many keys have ever been handed out
    ghost var live: seq<Live>    // the entries not deleted since, oldest first
    const keyOf: nat -> string

    ghost predicate Valid()
      reads this
    {
      && OrderedKeys(keyOf)
      && issued < TWO_64
      && counter == (if issued == 0 then None else Some(Show(issued, 16)))
      && Listed(keyOf, dict, issued, live)
    }

    constructor ()
      ensures Valid() && issued == 0 && live == []
      ensures forall n :: keyOf(n) == Key(n)
    {
      counter, dict := None, map[];
      issued, live := 0, [];
      keyOf := Key;
      KeysAreOrdered();
    }

    /** Hand out the next key. The counter is overwritten in place, without truncating it. */
    method NextKey() returns (key: Result<string, Error>)
      requires Valid()
      modifies this`counter, this`issued
      ensures Valid()
      ensures old(issued) + 1 < TWO_64 ==>
        issued == old(issued) + 1 && key == Ok(keyOf(issued)) && keyOf(issued) !in dict
      ensures old(issued) + 1 == TWO_64 ==> key == Err(CounterExhausted) && issued == old(issued)
    {
      CounterReads(issued);
      match ReadCounter(counter) {
        case Err(e) => return Err(e);
        case Ok(current) =>
          var next := current + 1;
          if next >= TWO_64 {
            return Err(CounterExhausted);
          }
          OverwriteCounter(issued);
          NextIsNew(keyOf, dict, issued, live);
          counter := Some(Overwrite(if counter.Some? then counter.value else "", Show(next, 16)));
          issued := next;
          key := Ok(keyOf(next));
      }
    }

    /** The number is used up even when the body cannot be written. */
    method Store(b: Bookmark, fault: Fault) returns (key: Result<string, Error>)
      requires Valid()
      modifies this
      ensures Valid()
      ensures var moved := fault != CounterFails && old(issued) + 1 < TWO_64;
        && issued == old(issued) + (if moved then 1 else 0)
        && (moved ==> keyOf(issued) !in old(dict))
        && live == old(live) + (if !moved then [] else Left(issued, b, fault))
        && (key.Ok? <==> moved && fault == NoFault)
        && (key.Ok? ==> key.value == keyOf(issued))
    {
      if fault == CounterFails {
        return Err(StoreFailed);
      }
      key := NextKey();
      if key.Ok? && fault != OpenFails {
        assert Overwrite("", Body(b)) == Body(b);
        var content := if fault == NoFault then Some(Overwrite("", Body(b))) else fault.left;
        AddListed(keyOf, dict, issued, live, content);
        dict := dict[key.value := content];
        live := live + [Live(issued, content)];
      }
      if key.Ok? && fault != NoFault {
        return Err(StoreFailed);
      }
    }

    /** Delete a listed bookmark. */
    method Delete(key: string)
      requires Valid()
      modifies this`dict, this`live
      ensures Valid()
      ensures live == Without(keyOf, old(live), key)
    {
      DropListed(keyOf, dict, issued, live, key);
      dict := dict - {key};
      live := Without(keyOf, live, key);
    }

    /** The list the screen shows: every readable entry, in the order they were stored. */
    method LoadBookmarks() returns (entries: seq<Entry>)
      requires Valid()
      ensures entries == Shown(keyOf, live)
    {
      entries := SortedEntries(dict, keyOf, issued, live);
    }
  }

  /** What an attempt to store leaves in the dictionary. */
  function Left(number: nat, b: Bookmark, fault: Fault): seq<Live> {
    match fault
    case NoFault => [Live(number, Some(Body(b)))]
    case WriteFails(left) => [Live(number, left)]
    case _ => []
  }

  datatype StoreOp = Keep(bookmark: Bookmark, fault: Fault) | Drop(key: string)

  /** Which numbers the keys are those of. */
  ghost predicate KeysAre(keyOf: nat -> string, keys: seq<string>, numbers: seq<nat>) {
    && |keys| == |numbers|
    && forall i {:trigger numbers[i]} :: 0 <= i < |numbers| ==> keys[i] == keyOf(numbers[i])
  }

  /** Numbers that go up from above one bound and stay within another. */
  ghost predicate Ascend(numbers: seq<nat>, above: nat, upTo: nat) {
    && (forall i :: 0 <= i < |numbers| ==> above < numbers[i] <= upTo)
    && forall i, j :: 0 <= i < j < |numbers| ==> numbers[i] < numbers[j]
  }

  lemma AscendMore(numbers: seq<nat>, above: nat, upTo: nat)
    requires Ascend(numbers, above, upTo) && above <= upTo
    ensures Ascend(numbers, above, upTo + 1) && Ascend(numbers + [upTo + 1], above, upTo + 1)
  {
  }

  lemma AscendingKeysDiffer(keyOf: nat -> string, keys: seq<string>, numbers: seq<nat>, above: nat, upTo: nat)
    requires OrderedKeys(keyOf) && KeysAre(keyOf, keys, numbers) && Ascend(numbers, above, upTo) && upTo < TWO_64
    ensures forall i, j :: 0 <= i < j < |keys| ==> keys[i] != keys[j]
  {
    forall i, j | 0 <= i < j < |keys| ensures keys[i] != keys[j] {
      assert numbers[i] < numbers[j] <= upTo;
      assert keys[i] == keyOf(numbers[i]) && keys[j] == keyOf(numbers[j]);
    }
  }

  /**
   * Any run of stores and deletes, with any failures: the keys handed out go up from the last one
   * ever issued, so none is issued twice, deleted or not.
   */
  method Replay(store: BookmarkStore, ops: seq<StoreOp>) returns (keys: seq<string>, ghost numbers: seq<nat>)
    requires store.Valid()
    modifies store
    ensures store.Valid()
    ensures KeysAre(store.keyOf, keys, numbers) && Ascend(numbers, old(store.issued), store.issued)
    ensures forall i, j :: 0 <= i < j < |keys| ==> keys[i] != keys[j]
  {
    hide OrderedKeys, Listed, Body, Without, Left;
    keys, numbers := [], [];
    for n := 0 to |ops|
      invariant store.Valid() && old(store.issued) <= store.issued
      invariant KeysAre(store.keyOf, keys, numbers) && Ascend(numbers, old(store.issued), store.issued)
    {
      match ops[n]
      case Keep(bookmark, fault) =>
        AscendMore(numbers, old(store.issued), store.issued);
        var key := store.Store(bookmark, fault);
        if key.Ok? {
          keys, numbers := keys + [key.value], numbers + [store.issued];
        }
      case Drop(key) => store.Delete(key);
    }
    AscendingKeysDiffer(store.keyOf, keys, numbers, old(store.issued), store.issued);
  }

  // ---------- the list ----------

  datatype Entry = Entry(key: string, url: string, labelText: string)

  /** The line of an entry, if it reads as text: its first two fields. */
  function LineOf(key: string, content: Content): seq<Entry> {
    match content
    case None => []
    case Some(body) =>
      var parts := SplitThree(body);
      [Entry(key, parts[0], if |parts| > 1 then parts[1] else "")]
  }

  ghost function Shown(keyOf: nat -> string, live: seq<Live>): seq<Entry> {
    if live == [] then []
    else
      var last := live[|live| - 1];
      Shown(keyOf, live[..|live| - 1]) + LineOf(keyOf(last.number), last.body)
  }

  lemma ShowsNext(keyOf: nat -> string, live: seq<Live>, i: nat)
    requires i < |live|
    ensures Shown(keyOf, live[..i + 1]) == Shown(keyOf, live[..i]) + LineOf(keyOf(live[i].number), live[i].body)
  {
    assert live[..i + 1][..i] == live[..i];
  }

  /** A bookmark stored whole is listed with its own URL and label exactly when they are one line each. */
  lemma StoredIsListed(key: string, b: Bookmark)
    ensures LineOf(key, Some(Body(b))) == [Entry(key, b.url, b.labelText)] <==> OneLine(b.url) && OneLine(b.labelText)
  {
    if OneLine(b.url) && OneLine(b.labelText) {
      SplitThreeLines(b.url, b.labelText, Show(b.timestamp, 10));
    } else {
      PartsAreOneLine(Body(b));
    }
  }

  /** The entries of the dictionary sorted by key. */
  method SortedEntries(dict: map<string, Content>, keyOf: nat -> string, ghost issued: nat, ghost live: seq<Live>)
    returns (entries: seq<Entry>)
    requires OrderedKeys(keyOf) && issued < TWO_64 && Listed(keyOf, dict, issued, live)
    ensures entries == Shown(keyOf, live)
  {
    var keys := dict.Keys;
    entries := [];
    ghost var i := 0;
    AllKeysAreRest(keyOf, dict, issued, live);
    while keys != {}
      invariant i <= |live| && IsRest(keyOf, live, i, keys)
      invariant entries == Shown(keyOf, live[..i])
      decreases keys
    {
      var k := LeastKey(keys, keyOf, dict, issued, live, i);
      RestShrinks(keyOf, dict, issued, live, i, keys);
      ShowsNext(keyOf, live, i);
      entries := entries + LineOf(k, dict[k]);
      keys := keys - {k};
      i := i + 1;
    }
    RestIsAll(keyOf, live, i, keys);
  }

  /** The key that sorts first. */
  method LeastKey(
    keys: set<string>, ghost keyOf: nat -> string, ghost dict: map<string, Content>, ghost issued: nat,
    ghost live: seq<Live>, ghost i: nat)
    returns (k: string)
    requires OrderedKeys(keyOf) && issued < TWO_64 && Listed(keyOf, dict, issued, live)
    requires IsRest(keyOf, live, i, keys) && keys != {}
    ensures k in keys && i < |live| && k == keyOf(live[i].number) && k in dict && dict[k] == live[i].body
  {
    FirstIsLeast(keyOf, dict, issued, live, i, keys);
    k :| k in keys && forall x :: x in keys ==> AtMost(k, x);
    assert AtMost(k, keyOf(live[i].number)) && AtMost(keyOf(live[i].number), k);
    CmpTextFlips(k, keyOf(live[i].number));
    CmpTextEqual(k, keyOf(live[i].number));
  }

  /** Numbers go up along the list. */
  ghost predicate Rising(live: seq<Live>) {
    forall i, j :: 0 <= i < j < |live| ==> live[i].number < live[j].number
  }

  /** The dictionary holds the live bookmarks and nothing else, numbered in the order of storing. */
  ghost predicate Listed(keyOf: nat -> string, dict: map<string, Content>, issued: nat, live: seq<Live>) {
    && (forall i :: 0 <= i < |live| ==> 1 <= live[i].number <= issued)
    && Rising(live)
    && (forall i :: 0 <= i < |live| ==> keyOf(live[i].number) in dict && dict[keyOf(live[i].number)] == live[i].body)
    && (forall k :: k in dict ==> HasLive(keyOf, live, k))
  }

  ghost predicate HasLive(keyOf: nat -> string, live: seq<Live>, key: string) {
    exists i :: 0 <= i < |live| && key == keyOf(live[i].number)
  }

  /** The count a counter's text stands for; none yet is zero. */
  function ReadCounter(counter: Option<string>): Result<nat, Error> {
    match counter
    case None => Ok(0)
    case Some(text) =>
      match Read(Trim(text), 16, TWO_64)
      case Some(n) => Ok(n)
      case None => Err(CounterCorrupt)
  }

  lemma CounterReads(n: nat)
    requires n < TWO_64
    ensures ReadCounter(if n == 0 then None else Some(Show(n, 16))) == Ok(n)
  {
    ShownIsTrimmed(n, 16);
    ReadShow(n, 16, TWO_64);
  }

  /** The next count covers the text of the last one, so no stale digit is left behind. */
  lemma OverwriteCounter(n: nat)
    ensures Overwrite(Show(n, 16), Show(n + 1, 16)) == Show(n + 1, 16)
    ensures Overwrite("", Show(n + 1, 16)) == Show(n + 1, 16)
  {
    ShowGrows(n, n + 1, 16);
  }

  lemma KeysAreOrdered()
    ensures OrderedKeys(Key)
  {
    forall n: nat, m: nat | n < TWO_64 && m < TWO_64
      ensures (Key(n) == Key(m) ==> n == m) && (n <= m ==> AtMost(Key(n), Key(m)))
    {
      KeysSortAsNumbers(n, m);
    }
  }

  lemma NextIsNew(keyOf: nat -> string, dict: map<string, Content>, issued: nat, live: seq<Live>)
    requires OrderedKeys(keyOf) && issued + 1 < TWO_64 && Listed(keyOf, dict, issued, live)
    ensures keyOf(issued + 1) !in dict && Listed(keyOf, dict, issued + 1, live)
  {
    forall i | 0 <= i < |live| ensures keyOf(live[i].number) != keyOf(issued + 1) {
      assert live[i].number <= issued;
    }
  }

  lemma AddListed(keyOf: nat -> string, dict: map<string, Content>, issued: nat, live: seq<Live>, body: Content)
    requires OrderedKeys(keyOf) && 1 <= issued < TWO_64 && Listed(keyOf, dict, issued, live)
    requires keyOf(issued) !in dict
    ensures Listed(keyOf, dict[keyOf(issued) := body], issued, live + [Live(issued, body)])
  {
    var now := live + [Live(issued, body)];
    forall i | 0 <= i < |live| ensures live[i].number < issued {
      assert keyOf(live[i].number) in dict;
    }
    forall k | k in dict[keyOf(issued) := body] ensures HasLive(keyOf, now, k) {
      if k == keyOf(issued) {
        assert now[|live|].number == issued;
      } else {
        assert HasLive(keyOf, live, k);
        var i :| 0 <= i < |live| && k == keyOf(live[i].number);
        assert now[i] == live[i];
      }
    }
  }

  lemma DropListed(keyOf: nat -> string, dict: map<string, Content>, issued: nat, live: seq<Live>, key: string)
    requires issued < TWO_64 && Listed(keyOf, dict, issued, live)
    ensures Listed(keyOf, dict - {key}, issued, Without(keyOf, live, key))
  {
    WithoutIs(keyOf, live, key);
    var now := Without(keyOf, live, key);
    forall i | 0 <= i < |now|
      ensures 1 <= now[i].number <= issued
      ensures keyOf(now[i].number) in dict - {key} && (dict - {key})[keyOf(now[i].number)] == now[i].body
    {
      assert now[i] in now;
      LiveIsListed(keyOf, dict, issued, live, now[i]);
    }
    forall k | k in dict - {key} ensures HasLive(keyOf, now, k) {
      KeyStaysLive(keyOf, live, key, k);
    }
  }

  lemma LiveIsListed(keyOf: nat -> string, dict: map<string, Content>, issued: nat, live: seq<Live>, x: Live)
    requires Listed(keyOf, dict, issued, live) && x in live
    ensures 1 <= x.number <= issued && keyOf(x.number) in dict && dict[keyOf(x.number)] == x.body
  {
    var j :| 0 <= j < |live| && live[j] == x;
  }

  lemma KeyStaysLive(keyOf: nat -> string, live: seq<Live>, key: string, k: string)
    requires Rising(live)
    requires HasLive(keyOf, live, k) && k != key
    ensures HasLive(keyOf, Without(keyOf, live, key), k)
  {
    WithoutIs(keyOf, live, key);
    var now := Without(keyOf, live, key);
    var j :| 0 <= j < |live| && k == keyOf(live[j].number);
    assert live[j] in now;
    var i :| 0 <= i < |now| && now[i] == live[j];
  }

  /** keys are those of the live bookmarks from i on. */
  ghost predicate IsRest(keyOf: nat -> string, live: seq<Live>, i: nat, keys: set<string>) {
    && (forall j :: i <= j < |live| ==> keyOf(live[j].number) in keys)
    && (forall k :: k in keys ==> exists j :: i <= j < |live| && k == keyOf(live[j].number))
  }

  lemma AllKeysAreRest(keyOf: nat -> string, dict: map<string, Content>, issued: nat, live: seq<Live>)
    requires Listed(keyOf, dict, issued, live)
    ensures IsRest(keyOf, live, 0, dict.Keys)
  {
    forall k | k in dict.Keys ensures exists j :: 0 <= j < |live| && k == keyOf(live[j].number) {
      assert HasLive(keyOf, live, k);
    }
  }

  lemma RestIsAll(keyOf: nat -> string, live: seq<Live>, i: nat, keys: set<string>)
    requires i <= |live| && IsRest(keyOf, live, i, keys)
    ensures keys == {} ==> i == |live| && live[..i] == live
  {
    assert i < |live| ==> keyOf(live[i].number) in keys;
  }

  /** A later bookmark's key is no less than an earlier one's. */
  lemma LaterIsNoLess(keyOf: nat -> string, issued: nat, live: seq<Live>, i: nat, l: nat)
    requires OrderedKeys(keyOf) && issued < TWO_64 && Rising(live) && i <= l < |live| && live[l].number <= issued
    ensures AtMost(keyOf(live[i].number), keyOf(live[l].number))
  {
    assert live[i].number <= live[l].number;
    hide AtMost;
  }

  lemma FirstIsLeast(
    keyOf: nat -> string, dict: map<string, Content>, issued: nat, live: seq<Live>, i: nat, keys: set<string>)
    requires OrderedKeys(keyOf) && issued < TWO_64 && Listed(keyOf, dict, issued, live)
    requires IsRest(keyOf, live, i, keys) && keys != {}
    ensures i < |live| && keyOf(live[i].number) in keys
    ensures forall x :: x in keys ==> AtMost(keyOf(live[i].number), x)
  {
    hide AtMost, OrderedKeys, Rising, HasLive;
    var k :| k in keys;
    var j :| i <= j < |live| && k == keyOf(live[j].number);
    forall x | x in keys ensures AtMost(keyOf(live[i].number), x) {
      var l :| i <= l < |live| && x == keyOf(live[l].number);
      LaterIsNoLess(keyOf, issued, live, i, l);
    }
  }

  lemma RestShrinks(
    keyOf: nat -> string, dict: map<string, Content>, issued: nat, live: seq<Live>, i: nat, keys: set<string>)
    requires OrderedKeys(keyOf) && issued < TWO_64 && Listed(keyOf, dict, issued, live)
    requires IsRest(keyOf, live, i, keys) && i < |live|
    ensures IsRest(keyOf, live, i + 1, keys - {keyOf(live[i].number)})
  {
    forall j | i + 1 <= j < |live| ensures keyOf(live[j].number) != keyOf(live[i].number) {
      assert live[i].number < live[j].number;
    }
    hide OrderedKeys, Rising, HasLive;
  }

  ghost function Without(keyOf: nat -> string, live: seq<Live>, key: string): seq<Live> {
    if live == [] then []
    else if keyOf(live[0].number) == key then Without(keyOf, live[1..], key)
    else [live[0]] + Without(keyOf, live[1..], key)
  }

  lemma {:induction false} WithoutHolds(keyOf: nat -> string, live: seq<Live>, key: string)
    ensures forall x :: x in Without(keyOf, live, key) <==> x in live && keyOf(x.number) != key
  {
    if live != [] {
      WithoutHolds(keyOf, live[1..], key);
      assert live == [live[0]] + live[1..];
    }
  }

  lemma RisingHead(first: Live, rest: seq<Live>)
    requires Rising(rest) && forall x :: x in rest ==> first.number < x.number
    ensures Rising([first] + rest)
  {
  }

  lemma RisingTail(live: seq<Live>, x: Live)
    requires Rising(live) && live != [] && x in live[1..]
    ensures Rising(live[1..]) && live[0].number < x.number
  {
  }

  lemma {:induction false} WithoutRises(keyOf: nat -> string, live: seq<Live>, key: string)
    requires Rising(live)
    ensures Rising(Without(keyOf, live, key))
  {
    if live != [] {
      var rest := Without(keyOf, live[1..], key);
      WithoutHolds(keyOf, live[1..], key);
      forall x | x in rest ensures live[0].number < x.number {
        RisingTail(live, x);
      }
      assert Rising(live[1..]);
      WithoutRises(keyOf, live[1..], key);
      RisingHead(live[0], rest);
    }
  }

  /** Deleting a key keeps the other bookmarks and their order. */
  lemma WithoutIs(keyOf: nat -> string, live: seq<Live>, key: string)
    requires Rising(live)
    ensures forall x :: x in Without(keyOf, live, key) <==> x in live && keyOf(x.number) != key
    ensures Rising(Without(keyOf, live, key))
  {
    WithoutHolds(keyOf, live, key);
    WithoutRises(keyOf, live, key);
  }
}
