// The text pieces the stored formats are made of: lines, tags, and numbers in decimal or hex.

module TextFormat {
  import opened Results

  // ---------- numbers ----------

  const DIGITS := "0123456789abcdef"

  const TWO_32: nat := 0x1_0000_0000
  const TWO_64: nat := 0x1_0000_0000_0000_0000

  /** Rust's Display for an unsigned number, in the given base. */
  function Show(n: nat, base: nat): string
    requires 2 <= base <= 16
  {
    if n < base then [DIGITS[n]] else Show(n / base, base) + [DIGITS[n % base]]
  }

  /** char::to_digit. */
  function DigitValue(c: char, base: nat): Option<nat>
    requires 2 <= base <= 16
  {
    var v :=
      if '0' <= c <= '9' then c as int - '0' as int
      else if 'a' <= c <= 'z' then c as int - 'a' as int + 10
      else if 'A' <= c <= 'Z' then c as int - 'A' as int + 10
      else base;
    if v < base then Some(v) else None
  }

  function ReadDigits(s: string, base: nat): Option<nat>
    requires 2 <= base <= 16
  {
    if s == [] then Some(0)
    else
      match (ReadDigits(s[..|s| - 1], base), DigitValue(s[|s| - 1], base))
      case (Some(v), Some(d)) => Some(v * base + d)
      case _ => None
  }

  /** from_str_radix for an unsigned type of the given size: a sign '+' is allowed, overflow is an error. */
  function Read(s: string, base: nat, size: nat): Option<nat>
    requires 2 <= base <= 16
  {
    if s == [] || s == "+" || s == "-" then None
    else
      match ReadDigits(if s[0] == '+' then s[1..] else s, base)
      case Some(v) => if v < size then Some(v) else None
      case None => None
  }

  lemma DigitRoundTrip(d: nat, base: nat)
    requires d < base && 2 <= base <= 16
    ensures DigitValue(DIGITS[d], base) == Some(d)
    ensures DIGITS[d] == if d < 10 then '0' + d as char else 'a' + (d - 10) as char
    ensures DIGITS[d] != '+' && DIGITS[d] != '-' && DIGITS[d] != '\n' && DIGITS[d] > ' '
  {
  }

  lemma ReadOneMore(s: string, c: char, base: nat)
    requires 2 <= base <= 16
    ensures ReadDigits(s + [c], base) ==
      if ReadDigits(s, base).Some? && DigitValue(c, base).Some?
      then Some(ReadDigits(s, base).value * base + DigitValue(c, base).value) else None
  {
    assert (s + [c])[..|s|] == s;
    hide DigitValue;
  }

  /** Only digits of the base are read. */
  lemma {:induction false} OnlyDigitsRead(s: string, base: nat)
    requires 2 <= base <= 16
    ensures ReadDigits(s, base).Some? <==> forall c :: c in s ==> DigitValue(c, base).Some?
  {
    hide DigitValue;
    if s != [] {
      var front, last := s[..|s| - 1], s[|s| - 1];
      OnlyDigitsRead(front, base);
      assert s == front + [last];
    }
  }

  /** A number may have a plus sign, and must have a digit; a minus sign, a blank or anything else is refused. */
  lemma ReadAccepts(s: string, base: nat, size: nat)
    requires 2 <= base <= 16
    ensures var digits := if s != [] && s[0] == '+' then s[1..] else s;
      && (Read(s, base, size).Some? <==>
            && digits != [] && (forall c :: c in digits ==> DigitValue(c, base).Some?)
            && ReadDigits(digits, base).Some? && ReadDigits(digits, base).value < size)
      && (Read(s, base, size).Some? ==> Read(s, base, size) == ReadDigits(digits, base))
  {
    var digits := if s != [] && s[0] == '+' then s[1..] else s;
    OnlyDigitsRead(digits, base);
    assert s == "-" ==> s[0] in digits;
    hide ReadDigits;
  }

  lemma QuotientRemainder(n: nat, base: nat)
    requires base >= 2
    ensures n / base * base + n % base == n && n % base < base
    ensures if n < base then n / base == 0 else n / base < n
  {
  }

  lemma ShowEnds(n: nat, base: nat)
    requires 2 <= base <= 16
    ensures Show(n, base) == (if n < base then [] else Show(n / base, base)) + [DIGITS[n % base]]
  {
  }

  /** One digit more than what reads as q reads as q * base + r. */
  lemma ReadDigit(front: string, q: nat, r: nat, base: nat)
    requires 2 <= base <= 16 && r < base && ReadDigits(front, base) == Some(q)
    ensures ReadDigits(front + [DIGITS[r]], base) == Some(q * base + r)
  {
    DigitRoundTrip(r, base);
    ReadOneMore(front, DIGITS[r], base);
    hide ReadDigits, DigitValue, DIGITS;
  }

  lemma {:induction false} ReadDigitsShow(n: nat, base: nat)
    requires 2 <= base <= 16
    ensures ReadDigits(Show(n, base), base) == Some(n)
  {
    hide DigitValue, Show, DIGITS;
    QuotientRemainder(n, base);
    ShowEnds(n, base);
    if n < base {
      assert ReadDigits([], base) == Some(0);
      ReadDigit([], n / base, n % base, base);
    } else {
      ReadDigitsShow(n / base, base);
      ReadDigit(Show(n / base, base), n / base, n % base, base);
    }
  }

  /** A shown number is all digits: no sign, no line break, no blank. */
  lemma {:induction false} ShowIsDigits(n: nat, base: nat)
    requires 2 <= base <= 16
    ensures Show(n, base) != []
    ensures forall c :: c in Show(n, base) ==> c != '+' && c != '-' && c != '\n' && c > ' '
  {
    if n < base {
      DigitRoundTrip(n, base);
    } else {
      ShowIsDigits(n / base, base);
      DigitRoundTrip(n % base, base);
    }
  }

  lemma ReadShow(n: nat, base: nat, size: nat)
    requires 2 <= base <= 16 && n < size
    ensures Read(Show(n, base), base, size) == Some(n)
  {
    ReadDigitsShow(n, base);
    ShowIsDigits(n, base);
    var s := Show(n, base);
    assert s[0] in s;
    assert s != "+" && s != "-";
  }

  // ---------- lines ----------

  /** Index of the first c in s, or the length of s. */
  function Find(s: string, c: char): (i: nat)
    ensures i <= |s| && (i < |s| ==> s[i] == c)
    ensures forall j :: 0 <= j < i ==> s[j] != c
  {
    if s == [] || s[0] == c then 0 else 1 + Find(s[1..], c)
  }

  function SplitLines(s: string): (lines: seq<string>)
    ensures lines != []
  {
    var i := Find(s, '\n');
    if i == |s| then [s] else [s[..i]] + SplitLines(s[i + 1..])
  }

  function JoinLines(lines: seq<string>): string {
    if lines == [] then "" else lines[0] + "\n" + JoinLines(lines[1..])
  }

  predicate OneLine(s: string) { '\n' !in s }

  lemma FindAfter(a: string, c: char, b: string)
    requires c !in a
    ensures Find(a + [c] + b, c) == |a|
  {
    var s := a + [c] + b;
    assert s[|a|] == c;
    assert forall j :: 0 <= j < |a| ==> s[j] == a[j];
  }

  lemma SplitFirst(line: string, rest: string)
    requires OneLine(line)
    ensures SplitLines(line + "\n" + rest) == [line] + SplitLines(rest)
  {
    var s := line + ['\n'] + rest;
    assert s == line + "\n" + rest;
    FindAfter(line, '\n', rest);
    assert s[..|line|] == line && s[|line| + 1..] == rest;
  }

  lemma {:induction false} SplitJoin(lines: seq<string>)
    requires forall l :: l in lines ==> OneLine(l)
    ensures SplitLines(JoinLines(lines)) == lines + [""]
  {
    if lines != [] {
      assert lines[0] in lines;
      SplitFirst(lines[0], JoinLines(lines[1..]));
      SplitJoin(lines[1..]);
      assert lines == [lines[0]] + lines[1..];
      assert [lines[0]] + (lines[1..] + [""]) == lines + [""];
    }
  }

  lemma {:induction false} SplitGivesLines(s: string)
    ensures forall l :: l in SplitLines(s) ==> OneLine(l)
  {
    var i := Find(s, '\n');
    if i < |s| {
      SplitGivesLines(s[i + 1..]);
    }
  }

  /** str::split_once(':'). */
  function SplitTag(line: string): Option<(string, string)> {
    var i := Find(line, ':');
    if i == |line| then None else Some((line[..i], line[i + 1..]))
  }

  lemma SplitTagged(tag: string, data: string)
    requires ':' !in tag
    ensures SplitTag(tag + ":" + data) == Some((tag, data))
  {
    var line := tag + ":" + data;
    assert line == tag + [':'] + data;
    FindAfter(tag, ':', data);
    assert line[..|tag|] == tag && line[|tag| + 1..] == data;
  }

  // ---------- records as tagged lines ----------

  /** Read tagged lines into a record: an untagged line is skipped, the first bad field ends it. */
  function ReadLines<R, E>(r: R, lines: seq<string>, assign: (R, string, string) -> Result<R, E>): Result<R, E> {
    if lines == [] then Ok(r)
    else
      match SplitTag(lines[0])
      case None => ReadLines(r, lines[1..], assign)
      case Some((tag, data)) =>
        match assign(r, tag, data)
        case Ok(r') => ReadLines(r', lines[1..], assign)
        case Err(e) => Err(e)
  }

  /** The same with the lines already taken apart, for any kind of field name. */
  function ReadFields<R, K, E>(r: R, fields: seq<(K, string)>, assign: (R, K, string) -> Result<R, E>): Result<R, E> {
    if fields == [] then Ok(r)
    else
      match assign(r, fields[0].0, fields[0].1)
      case Ok(r') => ReadFields(r', fields[1..], assign)
      case Err(e) => Err(e)
  }

  /** Fields read one after another pass through the records in between. */
  lemma {:induction false} ReadThrough<R, K, E>(
    rs: seq<R>, fields: seq<(K, string)>, assign: (R, K, string) -> Result<R, E>)
    requires |rs| == |fields| + 1
    requires forall i :: 0 <= i < |fields| ==> assign(rs[i], fields[i].0, fields[i].1) == Ok(rs[i + 1])
    ensures ReadFields(rs[0], fields, assign) == Ok(rs[|fields|])
    decreases |fields|
  {
    if fields != [] {
      assert assign(rs[0], fields[0].0, fields[0].1) == Ok(rs[1]);
      ReadThrough(rs[1..], fields[1..], assign);
    }
  }

  function ToLines(fields: seq<(string, string)>): seq<string> {
    if fields == [] then [] else [fields[0].0 + ":" + fields[0].1] + ToLines(fields[1..])
  }

  /** Tags have no colon and no line break, and the data has no line break. */
  ghost predicate Printable(fields: seq<(string, string)>) {
    forall f :: f in fields ==> ':' !in f.0 && OneLine(f.0) && OneLine(f.1)
  }

  lemma {:induction false} PrintableLines(fields: seq<(string, string)>)
    requires Printable(fields)
    ensures forall l :: l in ToLines(fields) ==> OneLine(l)
  {
    if fields != [] {
      assert fields[0] in fields;
      PrintableLines(fields[1..]);
    }
  }

  lemma ReadTagged<R, E>(
    r: R, tag: string, data: string, rest: seq<string>, assign: (R, string, string) -> Result<R, E>)
    requires ':' !in tag
    ensures ReadLines(r, [tag + ":" + data] + rest, assign) ==
      if assign(r, tag, data).Ok? then ReadLines(assign(r, tag, data).value, rest, assign)
      else Err(assign(r, tag, data).error)
  {
    SplitTagged(tag, data);
    assert ([tag + ":" + data] + rest)[1..] == rest;
  }

  lemma ReadBlankEnd<R, E>(r: R, assign: (R, string, string) -> Result<R, E>)
    ensures ReadLines(r, [""], assign) == Ok(r)
  {
    assert SplitTag("") == None;
    assert [""][1..] == [];
  }

  lemma {:induction false} LinesReadAsFields<R, E>(
    r: R, fields: seq<(string, string)>, assign: (R, string, string) -> Result<R, E>)
    requires Printable(fields)
    ensures ReadLines(r, ToLines(fields) + [""], assign) == ReadFields(r, fields, assign)
  {
    if fields == [] {
      ReadBlankEnd(r, assign);
      assert ToLines(fields) + [""] == [""];
    } else {
      var (tag, data) := fields[0];
      assert fields[0] in fields;
      var rest := ToLines(fields[1..]) + [""];
      assert ToLines(fields) + [""] == [tag + ":" + data] + rest;
      ReadTagged(r, tag, data, rest, assign);
      if assign(r, tag, data).Ok? {
        LinesReadAsFields(assign(r, tag, data).value, fields[1..], assign);
      }
    }
  }

  /** Reading back what was printed is assigning the fields in turn. */
  lemma PrintedReadsAsFields<R, E>(
    r: R, fields: seq<(string, string)>, assign: (R, string, string) -> Result<R, E>)
    requires Printable(fields)
    ensures ReadLines(r, SplitLines(JoinLines(ToLines(fields))), assign) == ReadFields(r, fields, assign)
  {
    PrintableLines(fields);
    SplitJoin(ToLines(fields));
    LinesReadAsFields(r, fields, assign);
  }

  // ---------- fields named by a type of their own ----------

  /** Fields under the tags their names are printed as. */
  function Tagged<K>(fields: seq<(K, string)>, tagOf: K -> string): seq<(string, string)> {
    if fields == [] then [] else [(tagOf(fields[0].0), fields[0].1)] + Tagged(fields[1..], tagOf)
  }

  lemma {:induction false} TaggedLines<K>(fields: seq<(K, string)>, tagOf: K -> string)
    ensures var lines := ToLines(Tagged(fields, tagOf));
      && |lines| == |fields|
      && forall i :: 0 <= i < |fields| ==> lines[i] == tagOf(fields[i].0) + ":" + fields[i].1
    decreases |fields|
  {
    if fields != [] {
      TaggedLines(fields[1..], tagOf);
      assert Tagged(fields, tagOf)[1..] == Tagged(fields[1..], tagOf);
    }
  }

  /** Every name reads back from its tag, and the tags are printable. */
  ghost predicate TagsRead<K(!new)>(tagOf: K -> string, fieldOf: string -> K) {
    forall k :: fieldOf(tagOf(k)) == k && ':' !in tagOf(k) && OneLine(tagOf(k))
  }

  lemma {:induction false} TaggedPrintable<K(!new)>(
    fields: seq<(K, string)>, tagOf: K -> string, fieldOf: string -> K)
    requires TagsRead(tagOf, fieldOf) && forall f :: f in fields ==> OneLine(f.1)
    ensures Printable(Tagged(fields, tagOf))
  {
    if fields != [] {
      assert fields[0] in fields;
      TaggedPrintable(fields[1..], tagOf, fieldOf);
    }
  }

  /** Assigning by tag is assigning by the name the tag stands for. */
  ghost predicate ByTag<R(!new), K, E>(
    assignTag: (R, string, string) -> Result<R, E>, assign: (R, K, string) -> Result<R, E>, fieldOf: string -> K)
  {
    forall r, tag, data :: assignTag(r, tag, data) == assign(r, fieldOf(tag), data)
  }

  lemma {:induction false} TaggedReads<R(!new), K(!new), E>(
    r: R, fields: seq<(K, string)>, tagOf: K -> string, fieldOf: string -> K,
    assignTag: (R, string, string) -> Result<R, E>, assign: (R, K, string) -> Result<R, E>)
    requires TagsRead(tagOf, fieldOf) && ByTag(assignTag, assign, fieldOf)
    ensures ReadFields(r, Tagged(fields, tagOf), assignTag) == ReadFields(r, fields, assign)
    decreases |fields|
  {
    if fields != [] {
      var (f, data) := fields[0];
      assert Tagged(fields, tagOf)[1..] == Tagged(fields[1..], tagOf);
      assert assignTag(r, tagOf(f), data) == assign(r, f, data);
      if assign(r, f, data).Ok? {
        TaggedReads(assign(r, f, data).value, fields[1..], tagOf, fieldOf, assignTag, assign);
      }
    }
  }

  /** Reading one line after another keeps what every single one-line field keeps. */
  lemma {:induction false} ReadingKeeps<R(!new), E>(
    r: R, lines: seq<string>, assign: (R, string, string) -> Result<R, E>, good: R -> bool)
    requires good(r) && forall l :: l in lines ==> OneLine(l)
    requires forall x, tag, data :: good(x) && OneLine(data) && assign(x, tag, data).Ok? ==>
      good(assign(x, tag, data).value)
    ensures ReadLines(r, lines, assign).Ok? ==> good(ReadLines(r, lines, assign).value)
    decreases |lines|
  {
    if lines != [] {
      assert lines[0] in lines;
      match SplitTag(lines[0])
      case None => ReadingKeeps(r, lines[1..], assign, good);
      case Some((tag, data)) =>
        assert OneLine(data);
        var next := assign(r, tag, data);
        if next.Ok? {
          ReadingKeeps(next.value, lines[1..], assign, good);
        }
    }
  }
}
