// The two text forms of an exported photo (src/ux.rs): base64 of section 4 of RFC 4648, and ASCII
// art, with the host's reader of the art (tools/show-export.py).

module Base64 {
  import opened Bytes
  import opened Division
  import opened Results

  const UPPERCASE: string := "ABCDEFGHIJKLMNOPQRSTUVWXYZ"
  const LOWERCASE: string := "abcdefghijklmnopqrstuvwxyz"
  const DIGITS: string := "0123456789"
  const SET: string := UPPERCASE + LOWERCASE + DIGITS + "+/"

  type Sextet = x: int | 0 <= x < 64

  /** SET[v], by the runs of the alphabet. */
  function Letter(v: Sextet): char {
    if v < 26 then ('A' as int + v) as char
    else if v < 52 then ('a' as int + v - 26) as char
    else if v < 62 then ('0' as int + v - 52) as char
    else if v == 62 then '+' else '/'
  }

  /** The value a letter of the alphabet stands for. */
  function Value(c: char): Option<Sextet> {
    if 'A' <= c <= 'Z' then Some(c as int - 'A' as int)
    else if 'a' <= c <= 'z' then Some(c as int - 'a' as int + 26)
    else if '0' <= c <= '9' then Some(c as int - '0' as int + 52)
    else if c == '+' then Some(62)
    else if c == '/' then Some(63)
    else None
  }

  lemma LettersAreTheSet(v: Sextet)
    ensures SET[v] == Letter(v)
  {
    Uppercase();
    Lowercase();
    Digits();
    LettersInRuns(UPPERCASE, LOWERCASE, DIGITS, v);
  }

  lemma LettersInRuns(upper: string, lower: string, digits: string, v: Sextet)
    requires |upper| == 26 && forall i :: 0 <= i < 26 ==> upper[i] as int == 'A' as int + i
    requires |lower| == 26 && forall i :: 0 <= i < 26 ==> lower[i] as int == 'a' as int + i
    requires |digits| == 10 && forall i :: 0 <= i < 10 ==> digits[i] as int == '0' as int + i
    ensures (upper + lower + digits + "+/")[v] == Letter(v)
  {
  }

  lemma Uppercase()
    ensures |UPPERCASE| == 26 && forall i :: 0 <= i < 26 ==> UPPERCASE[i] as int == 'A' as int + i
  {
  }

  lemma Lowercase()
    ensures |LOWERCASE| == 26 && forall i :: 0 <= i < 26 ==> LOWERCASE[i] as int == 'a' as int + i
  {
  }

  lemma Digits()
    ensures |DIGITS| == 10 && forall i :: 0 <= i < 10 ==> DIGITS[i] as int == '0' as int + i
  {
  }

  // ---- Encoding ----

  /** What four characters stand for: six bits each, or padding. */
  type Digit = Option<Sextet>

  datatype Quartet = Quartet(d0: Digit, d1: Digit, d2: Digit, d3: Digit)

  /** One to three bytes as 24 bits, cut into sixes; no byte, no digit. */
  function Cut(chunk: ByteString): Quartet
    requires 1 <= |chunk| <= 3
  {
    var b1: nat := if |chunk| > 1 then chunk[1] else 0;
    var b2: nat := if |chunk| > 2 then chunk[2] else 0;
    var n: nat := chunk[0] as int * 65536 + b1 * 256 + b2;
    Quartet(Some(n / 262144 % 64), Some(n / 4096 % 64),
            if |chunk| > 1 then Some(n / 64 % 64) else None,
            if |chunk| > 2 then Some(n % 64) else None)
  }

  function Spell(d: Digit): char {
    if d.Some? then Letter(d.value) else '='
  }

  function Group(chunk: ByteString): (g: string)
    requires 1 <= |chunk| <= 3
    ensures |g| == 4
  {
    var q := Cut(chunk);
    [Spell(q.d0), Spell(q.d1), Spell(q.d2), Spell(q.d3)]
  }

  function Chunk(data: ByteString): ByteString {
    if |data| < 3 then data else data[..3]
  }

  function Encode(data: ByteString): string {
    if data == [] then "" else Group(Chunk(data)) + Encode(data[|Chunk(data)|..])
  }

  method Encode64(data: ByteString) returns (out: string)
    ensures out == Encode(data)
  {
    out := "";
    var at := 0;
    while at < |data|
      invariant at <= |data| && out + Encode(data[at..]) == Encode(data)
    {
      var rest := data[at..];
      var chunk := Chunk(rest);
      out := out + Group(chunk);
      at := at + |chunk|;
      assert rest[|chunk|..] == data[at..];
    }
    assert data[at..] == [];
  }

  lemma {:induction false} EncodedLength(data: ByteString)
    ensures |Encode(data)| == (|data| + 2) / 3 * 4
    decreases |data|
  {
    if data != [] {
      var rest := data[|Chunk(data)|..];
      EncodedLength(rest);
      assert |Encode(data)| == 4 + |Encode(rest)|;
      if |data| > 3 {
        assert (|rest| + 2) / 3 == (|data| + 2) / 3 - 1;
      } else {
        assert (|data| + 2) / 3 == 1;
      }
    }
  }

  // ---- Decoding, by the standard ----

  /** The bytes of four digits; bits the padding leaves over must be zero. */
  function Join(q: Quartet): Option<ByteString> {
    if q.d0.None? || q.d1.None? then None
    else
      var b0: byte := q.d0.value * 4 + q.d1.value / 16;
      if q.d2.None? then
        if q.d3.None? && q.d1.value % 16 == 0 then Some([b0]) else None
      else
        var b1: byte := q.d1.value % 16 * 16 + q.d2.value / 4;
        if q.d3.None? then
          if q.d2.value % 4 == 0 then Some([b0, b1]) else None
        else Some([b0, b1, q.d2.value % 4 * 64 + q.d3.value])
  }

  /** A character of the alphabet or padding. */
  predicate Legal(c: char) {
    c == '=' || Value(c).Some?
  }

  function Quad(g: string): Option<ByteString>
    requires |g| == 4
  {
    if Legal(g[0]) && Legal(g[1]) && Legal(g[2]) && Legal(g[3])
    then Join(Quartet(Value(g[0]), Value(g[1]), Value(g[2]), Value(g[3])))
    else None
  }

  /** Whole groups, padding in the last one only. */
  function Decode(text: string): Option<ByteString> {
    if text == "" then Some([])
    else if |text| < 4 then None
    else
      var first := Quad(text[..4]);
      var rest := Decode(text[4..]);
      if first.None? || rest.None? || (|first.value| < 3 && text[4..] != "") then None
      else Some(first.value + rest.value)
  }

  /** The sixes of 24 bits, byte by byte. */
  lemma Sixes(b0: nat, b1: nat, b2: nat)
    requires b0 < 256 && b1 < 256 && b2 < 256
    ensures var n := b0 * 65536 + b1 * 256 + b2;
      && n / 262144 % 64 == b0 / 4
      && n / 4096 % 64 == b0 % 4 * 16 + b1 / 16
      && n / 64 % 64 == b1 % 16 * 4 + b2 / 64
      && n % 64 == b2 % 64
  {
    var n := b0 * 65536 + b1 * 256 + b2;
    DivMod(n, 64, b0 * 1024 + b1 * 4 + b2 / 64, b2 % 64);
    DivMod(n, 4096, b0 * 16 + b1 / 16, b1 % 16 * 256 + b2);
    DivMod(n, 262144, b0 / 4, b0 % 4 * 65536 + b1 * 256 + b2);
    DivMod(n / 64, 64, b0 * 16 + b1 / 16, b1 % 16 * 4 + b2 / 64);
    DivMod(n / 4096, 64, b0 / 4, b0 % 4 * 16 + b1 / 16);
  }

  /** The bytes back from their sixes. */
  lemma Rejoined(b0: nat, b1: nat, b2: nat)
    requires b0 < 256 && b1 < 256 && b2 < 256
    ensures (b0 % 4 * 16 + b1 / 16) / 16 == b0 % 4 && (b0 % 4 * 16 + b1 / 16) % 16 == b1 / 16
    ensures (b1 % 16 * 4 + b2 / 64) / 4 == b1 % 16 && (b1 % 16 * 4 + b2 / 64) % 4 == b2 / 64
    ensures b0 / 4 * 4 + b0 % 4 == b0 && b1 / 16 * 16 + b1 % 16 == b1 && b2 / 64 * 64 + b2 % 64 == b2
  {
    DivMod(b0 % 4 * 16 + b1 / 16, 16, b0 % 4, b1 / 16);
    DivMod(b1 % 16 * 4 + b2 / 64, 4, b1 % 16, b2 / 64);
  }

  function Worth(d: Digit): nat { if d.Some? then d.value else 0 }

  /** The four digits are the bytes as one number to the base 64, with padding for the bytes there are not. */
  lemma CutCounts(chunk: ByteString)
    requires 1 <= |chunk| <= 3
    ensures var q := Cut(chunk);
      && Worth(q.d0) * 0x40000 + Worth(q.d1) * 0x1000 + Worth(q.d2) * 0x40 + Worth(q.d3)
         == chunk[0] as int * 0x10000 + (if |chunk| > 1 then chunk[1] as int * 0x100 else 0)
            + (if |chunk| > 2 then chunk[2] else 0)
      && q.d0.Some? && q.d1.Some? && (q.d2 == None <==> |chunk| == 1) && (q.d3 == None <==> |chunk| <= 2)
  {
    var b0: nat, b1: nat, b2: nat := chunk[0], if |chunk| > 1 then chunk[1] else 0, if |chunk| > 2 then chunk[2] else 0;
    Sixes(b0, b1, b2);
    Rejoined(b0, b1, b2);
  }

  lemma JoinCut(chunk: ByteString)
    requires 1 <= |chunk| <= 3
    ensures Join(Cut(chunk)) == Some(chunk)
  {
    var b0: nat, b1: nat, b2: nat := chunk[0], if |chunk| > 1 then chunk[1] else 0, if |chunk| > 2 then chunk[2] else 0;
    Sixes(b0, b1, b2);
    Rejoined(b0, b1, b2);
    var q := Cut(chunk);
    assert q.d0 == Some(b0 / 4) && q.d1 == Some(b0 % 4 * 16 + b1 / 16);
    if |chunk| == 1 {
      assert Join(q).value == chunk;
    } else if |chunk| == 2 {
      assert Join(q).value == chunk;
    } else {
      assert Join(q).value == chunk;
    }
  }

  lemma CutJoin(q: Quartet)
    requires Join(q).Some?
    ensures 1 <= |Join(q).value| <= 3 && Cut(Join(q).value) == q
  {
    var chunk := Join(q).value;
    var v0, v1 := q.d0.value, q.d1.value;
    var v2: nat, v3: nat := if q.d2.Some? then q.d2.value else 0, if q.d3.Some? then q.d3.value else 0;
    var b0, b1, b2: nat := chunk[0], if |chunk| > 1 then chunk[1] else 0, if |chunk| > 2 then chunk[2] else 0;
    Sixes(b0, b1, b2);
    DivMod(b0, 4, v0, v1 / 16);
    if |chunk| > 1 {
      DivMod(b1, 16, v1 % 16, v2 / 4);
    }
    if |chunk| > 2 {
      DivMod(b2, 64, v2 % 4, v3);
    }
  }

  lemma SpeltDigit(d: Digit)
    ensures Legal(Spell(d)) && Value(Spell(d)) == d
  {
  }

  lemma LegalCharacter(c: char)
    requires Legal(c)
    ensures Spell(Value(c)) == c
  {
  }

  lemma QuadOfGroup(chunk: ByteString)
    requires 1 <= |chunk| <= 3
    ensures Quad(Group(chunk)) == Some(chunk)
  {
    var q := Cut(chunk);
    SpeltDigit(q.d0);
    SpeltDigit(q.d1);
    SpeltDigit(q.d2);
    SpeltDigit(q.d3);
    JoinCut(chunk);
  }

  lemma GroupOfQuad(g: string)
    requires |g| == 4 && Quad(g).Some?
    ensures 1 <= |Quad(g).value| <= 3 && Group(Quad(g).value) == g
  {
    LegalCharacter(g[0]);
    LegalCharacter(g[1]);
    LegalCharacter(g[2]);
    LegalCharacter(g[3]);
    CutJoin(Quartet(Value(g[0]), Value(g[1]), Value(g[2]), Value(g[3])));
  }

  /** Decoding gives back every byte string. */
  lemma {:induction false} DecodeEncode(data: ByteString)
    ensures Decode(Encode(data)) == Some(data)
    decreases |data|
  {
    if data != [] {
      hide Quad, Group;
      var chunk := Chunk(data);
      var rest := data[|chunk|..];
      var text := Encode(data);
      assert text[..4] == Group(chunk) && text[4..] == Encode(rest);
      QuadOfGroup(chunk);
      DecodeEncode(rest);
      assert data == chunk + rest;
    }
  }

  lemma FirstGroup(first: ByteString, rest: ByteString)
    requires 1 <= |first| <= 3 && (|first| < 3 ==> rest == [])
    ensures Encode(first + rest) == Group(first) + Encode(rest)
  {
    hide Group;
    var data := first + rest;
    assert Chunk(data) == first && data[|first|..] == rest;
  }

  lemma FirstQuad(text: string)
    requires text != "" && Decode(text).Some?
    ensures |text| >= 4 && Quad(text[..4]).Some? && Decode(text[4..]).Some?
    ensures Decode(text).value == Quad(text[..4]).value + Decode(text[4..]).value
    ensures |Quad(text[..4]).value| < 3 ==> text[4..] == "" && Decode(text[4..]).value == []
  {
    hide Quad;
  }

  /** The encoder's texts are exactly the ones a strict decoder accepts. */
  lemma {:induction false} EncodeDecode(text: string)
    requires Decode(text).Some?
    ensures Encode(Decode(text).value) == text
    decreases |text|
  {
    if text != "" {
      FirstQuad(text);
      GroupOfQuad(text[..4]);
      EncodeDecode(text[4..]);
      hide Quad, Group, Decode, Encode;
      FirstGroup(Quad(text[..4]).value, Decode(text[4..]).value);
      assert text == text[..4] + text[4..];
    }
  }
}

module AsciiArt {
  import opened Photos
  import opened TextFormat

  const LINES: int := W / 2
  const MARKS: string := " \".#"

  /** The mark of a cell of two pixels, one above the other. */
  function Mark(top: bool, bottom: bool): char {
    MARKS[(if top then 1 else 0) + if bottom then 2 else 0]
  }

  function Line(bits: Photo, row: nat): (r: string)
    requires row < LINES
    ensures |r| == W
  {
    seq(W, x requires 0 <= x < W => Mark(Pixel(bits, x, 2 * row), Pixel(bits, x, 2 * row + 1)))
  }

  function Lines(bits: Photo): (r: seq<string>)
    ensures |r| == LINES
  {
    seq(LINES, row requires 0 <= row < LINES => Line(bits, row))
  }

  lemma {:induction false} JoinOneMore(lines: seq<string>, line: string)
    ensures JoinLines(lines + [line]) == JoinLines(lines) + line + "\n"
  {
    if lines == [] {
      assert [line][1..] == [];
    } else {
      JoinOneMore(lines[1..], line);
      assert (lines + [line])[1..] == lines[1..] + [line];
    }
  }

  method DrawLine(bits: Photo, row: nat) returns (line: string)
    requires row < LINES
    ensures line == Line(bits, row)
  {
    line := "";
    for x := 0 to W
      invariant line == Line(bits, row)[..x]
    {
      var t := Pixel(bits, x, row * 2);
      var b := Pixel(bits, x, row * 2 + 1);
      line := line + [Mark(t, b)];
    }
  }

  /** 64 lines of 128 marks, and nothing else. */
  method Draw(bits: Photo) returns (out: string)
    ensures out == JoinLines(Lines(bits))
    ensures |out| == LINES * (W + 1)
  {
    out := "";
    for row := 0 to LINES
      invariant out == JoinLines(Lines(bits)[..row]) && |out| == row * (W + 1)
    {
      var line := DrawLine(bits, row);
      out := out + line + "\n";
      JoinOneMore(Lines(bits)[..row], line);
      assert Lines(bits)[..row + 1] == Lines(bits)[..row] + [line];
    }
    assert Lines(bits)[..LINES] == Lines(bits);
  }

  // ---- The host's reader ----

  /** Top and bottom pixel of a character; anything unknown is blank. */
  function Cell(c: char): (bool, bool) {
    (c == '"' || c == '#', c == '.' || c == '#')
  }

  /** A line padded with blanks or cut to the width. */
  function Fitted(line: string): (r: string)
    ensures |r| == W
  {
    seq(W, x requires 0 <= x => if x < |line| then line[x] else ' ')
  }

  function Blank(line: string): bool {
    forall i :: 0 <= i < |line| ==> line[i] == ' '
  }

  function TopRow(line: string): seq<bool> {
    seq(W, x requires 0 <= x < W => Cell(Fitted(line)[x]).0)
  }

  function BottomRow(line: string): seq<bool> {
    seq(W, x requires 0 <= x < W => Cell(Fitted(line)[x]).1)
  }

  /** Two pixel rows for every line that is not blank. */
  function HostRows(lines: seq<string>): seq<seq<bool>> {
    if lines == [] then []
    else (if Blank(lines[0]) then [] else [TopRow(lines[0]), BottomRow(lines[0])]) + HostRows(lines[1..])
  }

  lemma LineReads(bits: Photo, row: nat)
    requires row < LINES
    ensures TopRow(Line(bits, row)) == Row(bits, 2 * row)
    ensures BottomRow(Line(bits, row)) == Row(bits, 2 * row + 1)
    ensures '\n' !in Line(bits, row)
  {
  }

  /** Reading the text line by line gives back the lines drawn. */
  lemma LinesRead(bits: Photo)
    ensures SplitLines(JoinLines(Lines(bits))) == Lines(bits) + [""]
  {
    forall row | 0 <= row < LINES ensures OneLine(Lines(bits)[row]) {
      LineReads(bits, row);
    }
    SplitJoin(Lines(bits));
  }

  lemma SameLine(a: Photo, b: Photo, x: nat, y: nat)
    requires x < W && y < W && Line(a, y / 2) == Line(b, y / 2)
    ensures Pixel(a, x, y) <==> Pixel(b, x, y)
  {
    LineReads(a, y / 2);
    LineReads(b, y / 2);
    assert Row(a, y)[x] == Row(b, y)[x];
  }

  /** The drawing is lossless: different photos never give the same text. */
  lemma DrawingsDiffer(a: Photo, b: Photo)
    requires JoinLines(Lines(a)) == JoinLines(Lines(b))
    ensures a == b
  {
    LinesRead(a);
    LinesRead(b);
    assert (Lines(a) + [""])[..LINES] == Lines(a) && (Lines(b) + [""])[..LINES] == Lines(b);
    forall x, y | 0 <= x < W && 0 <= y < W ensures Pixel(a, x, y) <==> Pixel(b, x, y) {
      assert Lines(a)[y / 2] == Lines(b)[y / 2];
      SameLine(a, b, x, y);
    }
    SamePixels(a, b);
  }

  lemma {:induction false} RowsKept(lines: seq<string>)
    ensures |HostRows(lines)| <= 2 * |lines|
    ensures |HostRows(lines)| == 2 * |lines| <==> forall i :: 0 <= i < |lines| ==> !Blank(lines[i])
    ensures |HostRows(lines)| == 2 * |lines| ==> forall i :: 0 <= i < |lines| ==>
      HostRows(lines)[2 * i] == TopRow(lines[i]) && HostRows(lines)[2 * i + 1] == BottomRow(lines[i])
  {
    hide Blank, TopRow, BottomRow;
    if lines != [] {
      var rest, after := lines[1..], HostRows(lines[1..]);
      RowsKept(rest);
      assert forall i :: 1 <= i < |lines| ==> lines[i] == rest[i - 1];
      if |HostRows(lines)| == 2 * |lines| {
        assert !Blank(lines[0]);
        forall i | 0 <= i < |lines|
          ensures HostRows(lines)[2 * i] == TopRow(lines[i]) && HostRows(lines)[2 * i + 1] == BottomRow(lines[i])
        {
          if i > 0 {
            assert after[2 * (i - 1)] == TopRow(rest[i - 1]) && after[2 * (i - 1) + 1] == BottomRow(rest[i - 1]);
          }
        }
      }
      if forall i :: 0 <= i < |lines| ==> !Blank(lines[i]) {
        assert !Blank(lines[0]);
        forall i | 0 <= i < |rest| ensures !Blank(rest[i]) {
          assert !Blank(lines[i + 1]);
        }
      }
    }
  }

  /** Some pixel of the two rows of a line is set. */
  ghost predicate HasInk(bits: Photo, row: nat)
    requires row < LINES
  {
    exists x :: 0 <= x < W && (Pixel(bits, x, 2 * row) || Pixel(bits, x, 2 * row + 1))
  }

  lemma BlankLines(bits: Photo, row: nat)
    requires row < LINES
    ensures Blank(Line(bits, row)) <==> !HasInk(bits, row)
  {
    hide Pixel, Line;
    var line := Line(bits, row);
    forall x: nat | x < W
      ensures x < |line| && (line[x] == ' ' <==> !Pixel(bits, x, 2 * row) && !Pixel(bits, x, 2 * row + 1))
    {
      BlankMark(bits, row, x);
    }
    if !Blank(line) {
      var x :| 0 <= x < |line| && line[x] != ' ';
      assert Pixel(bits, x, 2 * row) || Pixel(bits, x, 2 * row + 1);
    }
    if HasInk(bits, row) {
      var x :| 0 <= x < W && (Pixel(bits, x, 2 * row) || Pixel(bits, x, 2 * row + 1));
      assert line[x] != ' ';
    }
  }

  lemma BlankMark(bits: Photo, row: nat, x: nat)
    requires row < LINES && x < W
    ensures x < |Line(bits, row)|
    ensures Line(bits, row)[x] == ' ' <==> !Pixel(bits, x, 2 * row) && !Pixel(bits, x, 2 * row + 1)
  {
    hide Pixel;
  }

  /** What the host gets out of the text. */
  function HostReads(text: string): seq<seq<bool>> {
    HostRows(SplitLines(text))
  }

  /** The empty text after the last line break reads as nothing. */
  lemma {:induction false} BlankEnd(lines: seq<string>)
    ensures HostRows(lines + [""]) == HostRows(lines)
  {
    if lines == [] {
      assert [""][1..] == [];
    } else {
      BlankEnd(lines[1..]);
      assert (lines + [""])[1..] == lines[1..] + [""];
    }
  }

  lemma HostReadsTheLines(bits: Photo)
    ensures HostReads(JoinLines(Lines(bits))) == HostRows(Lines(bits))
  {
    LinesRead(bits);
    BlankEnd(Lines(bits));
  }

  lemma InkKeepsEveryRow(bits: Photo)
    requires forall row :: 0 <= row < LINES ==> HasInk(bits, row)
    ensures HostRows(Lines(bits)) == Picture(bits)
  {
    hide TopRow, BottomRow, Blank, Row, Line, HasInk;
    var lines := Lines(bits);
    forall row | 0 <= row < LINES ensures !Blank(lines[row]) {
      BlankLines(bits, row);
    }
    RowsKept(lines);
    forall y | 0 <= y < W ensures HostRows(lines)[y] == Row(bits, y) {
      var row := y / 2;
      LineReads(bits, row);
      assert HostRows(lines)[2 * row] == TopRow(lines[row]) && HostRows(lines)[2 * row + 1] == BottomRow(lines[row]);
    }
  }

  lemma BlankLosesRows(bits: Photo, row: nat)
    requires row < LINES && !HasInk(bits, row)
    ensures |HostRows(Lines(bits))| < W
  {
    BlankLines(bits, row);
    RowsKept(Lines(bits));
    assert Blank(Lines(bits)[row]);
  }

  /**
   * The host drops blank lines, so it sees the photo exactly when every pair of rows has ink:
   * one empty pair anywhere and the picture comes out shorter.
   */
  lemma HostSeesThePhotoIff(bits: Photo)
    ensures HostReads(JoinLines(Lines(bits))) == Picture(bits) <==> forall row :: 0 <= row < LINES ==> HasInk(bits, row)
  {
    HostReadsTheLines(bits);
    if row :| 0 <= row < LINES && !HasInk(bits, row) {
      BlankLosesRows(bits, row);
    } else {
      InkKeepsEveryRow(bits);
    }
  }
}

module PhotoTyping {
  import opened BmpExport
  import opened Bytes
  import opened Photos
  import opened Results
  import B = Base64

  /** What the badge puts in front, and what the host looks for. */
  const PREFIX: string := "data:image/bmp;base64,"
  const HOST_PREFIX: string := "data:image/bmp;base64,"

  /** What follows the first mark in the text. */
  function AfterFirst(text: string, mark: string): Option<string> {
    if mark <= text then Some(text[|mark|..])
    else if text == "" then None
    else AfterFirst(text[1..], mark)
  }

  /** The characters base64 is made of; blanks and anything else are dropped. */
  function Kept(text: string): string {
    if text == "" then "" else (if B.Legal(text[0]) then [text[0]] else []) + Kept(text[1..])
  }

  /** What the host hands to its decoder: all it can use after the prefix, if there is one. */
  function HostBody(text: string): string {
    var body := AfterFirst(text, HOST_PREFIX);
    Kept(if body.Some? then body.value else text)
  }

  lemma KeptHead(c: char, rest: string)
    ensures Kept([c] + rest) == (if B.Legal(c) then [c] else []) + Kept(rest)
    ensures Kept("") == ""
  {
    hide B.Legal;
    assert ([c] + rest)[1..] == rest;
  }

  lemma {:induction false} KeptAppend(a: string, b: string)
    ensures Kept(a + b) == Kept(a) + Kept(b)
  {
    hide B.Legal, Kept;
    if a == "" {
      KeptHead(' ', "");
      assert a + b == b;
    } else {
      var rest := a[1..];
      assert a == [a[0]] + rest && a + b == [a[0]] + (rest + b);
      KeptHead(a[0], rest);
      KeptHead(a[0], rest + b);
      KeptAppend(rest, b);
    }
  }

  lemma {:induction false} LegalIsKept(s: string)
    requires forall c :: c in s ==> B.Legal(c)
    ensures Kept(s) == s
  {
    hide B.Legal;
    if s != "" {
      assert s[0] in s;
      LegalIsKept(s[1..]);
      assert s == [s[0]] + s[1..];
    }
  }

  lemma GroupIsKept(chunk: ByteString)
    requires 1 <= |chunk| <= 3
    ensures Kept(B.Group(chunk)) == B.Group(chunk)
  {
    hide B.Cut, B.Legal, B.Spell, Kept;
    var q := B.Cut(chunk);
    B.SpeltDigit(q.d0);
    B.SpeltDigit(q.d1);
    B.SpeltDigit(q.d2);
    B.SpeltDigit(q.d3);
    LegalIsKept(B.Group(chunk));
  }

  lemma {:induction false} EncodingIsKept(data: ByteString)
    ensures Kept(B.Encode(data)) == B.Encode(data)
    decreases |data|
  {
    if data != [] {
      hide B.Group, Kept;
      var chunk := B.Chunk(data);
      GroupIsKept(chunk);
      EncodingIsKept(data[|chunk|..]);
      KeptAppend(B.Group(chunk), B.Encode(data[|chunk|..]));
    }
  }

  /** The prefix and the line end around an encoding are all that the host takes off. */
  lemma FramingComesOff(data: ByteString)
    ensures HostBody(PREFIX + B.Encode(data) + "\n") == B.Encode(data)
  {
    var text := PREFIX + B.Encode(data) + "\n";
    assert text[|PREFIX|..] == B.Encode(data) + "\n";
    KeptAppend(B.Encode(data), "\n");
    EncodingIsKept(data);
    assert Kept("\n") == "";
  }

  /** The base64 export from the badge's frame to the host's rows: every photo arrives whole. */
  method Export(bits: Photo) returns (rows: Option<seq<seq<bool>>>)
    ensures rows == Some(Picture(bits))
  {
    var bmp := PhotoToBmp(bits);
    var encoded := B.Encode64(bmp);
    var text := PREFIX + encoded + "\n";
    FramingComesOff(bmp);
    B.DecodeEncode(bmp);
    var raw := B.Decode(HostBody(text));
    HeaderReads(bits, raw.value);
    rows := HostRows(raw.value, bits);
  }
}
