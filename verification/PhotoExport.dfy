// Photos as the badge keeps them, and the three ways it hands one to a host: a BMP, base64 text,
// and ASCII art (src/ux.rs), with the host's readers of tools/show-export.py.

module Photos {
  import opened Bits

  /** Photos are square, this many pixels a side. */
  const W := 128
  const PIXELS := W * W

  type Word = x: nat | x < WORD

  /** 512 packed words; pixel i is bit i & 31 of word i >> 5. */
  type Photo = s: seq<Word> | |s| == 512 witness seq(512, _ => 0)

  predicate Lit(bits: Photo, i: nat)
    requires i < PIXELS
  {
    Bit(bits[i / 32], i % 32)
  }

  predicate Pixel(bits: Photo, x: nat, y: nat)
    requires x < W && y < W
  {
    Lit(bits, x + y * W)
  }

  function Row(bits: Photo, y: nat): (r: seq<bool>)
    requires y < W
    ensures |r| == W
  {
    seq(W, x requires 0 <= x < W => Pixel(bits, x, y))
  }

  /** W rows of W pixels. */
  ghost predicate Square(rows: seq<seq<bool>>) {
    |rows| == W && forall y :: 0 <= y < W ==> |rows[y]| == W
  }

  /** The photo as rows of pixels. */
  function Picture(bits: Photo): (r: seq<seq<bool>>)
    ensures Square(r)
    ensures forall x, y :: 0 <= x < W && 0 <= y < W ==> r[y][x] == Pixel(bits, x, y)
  {
    seq(W, y requires 0 <= y < W => Row(bits, y))
  }

  /** A photo is its pixels. */
  lemma SamePixels(a: Photo, b: Photo)
    requires forall x, y :: 0 <= x < W && 0 <= y < W ==> (Pixel(a, x, y) <==> Pixel(b, x, y))
    ensures a == b
  {
    WordIsPow2();
    forall w | 0 <= w < 512 ensures a[w] == b[w] {
      forall k | 0 <= k < 32 ensures Bit(a[w], k) <==> Bit(b[w], k) {
        var i := w * 32 + k;
        assert Pixel(a, i % W, i / W) <==> Pixel(b, i % W, i / W);
        assert i / 32 == w && i % 32 == k;
      }
      SameBits(a[w], b[w], 32);
    }
  }
}

module BmpExport {
  import opened Bits
  import opened Bytes
  import opened Division
  import opened Photos
  import opened Results

  const ROW: nat := W / 8
  const RASTER: nat := ROW * W
  const OFFSET: nat := 14 + 40 + 8

  function Le16(n: nat): (b: ByteString)
    ensures |b| == 2
  {
    [n % 256, n / 256 % 256]
  }

  /** A 32-bit number, little-endian; negative numbers in two's complement. */
  function Le32(n: int): (b: ByteString)
    ensures |b| == 4
  {
    var u := n % WORD;
    [u % 256, u / 256 % 256, u / 65536 % 256, u / 16777216 % 256]
  }

  /** The little-endian number in some bytes. */
  function FromLe(bytes: ByteString): nat {
    if bytes == [] then 0 else bytes[0] + 256 * FromLe(bytes[1..])
  }

  /** A four-byte number with a sign. */
  function FromLeSigned(bytes: ByteString): int {
    var u := FromLe(bytes);
    if u >= WORD / 2 then u - WORD else u
  }

  /** The pixel at index i of a BMP raster: the leftmost of eight is the top bit. */
  predicate Ink(raster: ByteString, i: nat)
    requires |raster| == RASTER && i < PIXELS
  {
    Bit(raster[i / 8], 7 - i % 8)
  }

  const FILE_HEADER: ByteString := [66, 77] + Le32(OFFSET + RASTER) + Le32(0) + Le32(OFFSET)
  const INFO_HEADER: ByteString :=
    Le32(40) + Le32(W) + Le32(-W) + Le16(1) + Le16(1) + Le32(0) + Le32(RASTER) + Le32(0) + Le32(0) + Le32(2) + Le32(0)
  const PALETTE: ByteString := [0xFF, 0xFF, 0xFF, 0x00, 0x00, 0x00, 0x00, 0x00]

  /** The file of a photo: the fixed header and a raster holding exactly its pixels. */
  ghost predicate BmpOf(bits: Photo, bmp: ByteString) {
    && |bmp| == OFFSET + RASTER
    && bmp[..OFFSET] == FILE_HEADER + INFO_HEADER + PALETTE
    && forall i :: 0 <= i < PIXELS ==> (Ink(bmp[OFFSET..], i) <==> Lit(bits, i))
  }

  /** Setting one bit of one byte inks one pixel. */
  lemma OneInk(before: ByteString, after: ByteString, p: nat, i: nat)
    requires |before| == |after| == RASTER && p < PIXELS && i < PIXELS
    requires after[p / 8] == Or(before[p / 8], Pow2(7 - p % 8))
    requires i / 8 != p / 8 ==> after[i / 8] == before[i / 8]
    ensures Ink(after, i) <==> i == p || Ink(before, i)
  {
    if i / 8 == p / 8 {
      SettingABit(before[p / 8], 7 - p % 8, 7 - i % 8);
    }
  }

  /** The byte and bit of the pixel at (x, y), by row or by index. */
  lemma WhereInk(x: nat, y: nat)
    requires x < W && y < W
    ensures y * ROW + x / 8 == (x + y * W) / 8 < RASTER && x % 8 == (x + y * W) % 8 && x + y * W < PIXELS
  {
    assert y * ROW == 16 * y && y * W == 128 * y;
    DivMod(x + 128 * y, 8, 16 * y + x / 8, x % 8);
  }

  /** rows[y * ROW + x / 8] |= 0x80 >> (x % 8) sets the pixel at (x, y) and no other. */
  method SetInk(rows: array<byte>, x: nat, y: nat)
    requires rows.Length == RASTER && x < W && y < W
    modifies rows
    ensures forall i :: 0 <= i < PIXELS ==> (Ink(rows[..], i) <==> i == x + y * W || Ink(old(rows[..]), i))
  {
    WhereInk(x, y);
    var k := 7 - x % 8;
    var at := y * ROW + x / 8;
    ghost var before := rows[..];
    assert Pow2(8) == 256;
    SettingFits(rows[at], k, 8);
    rows[at] := Or(rows[at], Pow2(k));
    ghost var after, p := rows[..], x + y * W;
    assert after == before[at := Or(before[at], Pow2(k))];
    forall i | 0 <= i < PIXELS ensures Ink(after, i) <==> i == p || Ink(before, i) {
      OneInk(before, after, p, i);
    }
  }

  method PhotoToBmp(bits: Photo) returns (b: ByteString)
    ensures BmpOf(bits, b)
  {
    b := [66, 77];
    b := b + Le32(OFFSET + RASTER);
    b := b + Le32(0);
    b := b + Le32(OFFSET);
    b := b + Le32(40);
    b := b + Le32(W);
    b := b + Le32(-W);
    b := b + Le16(1);
    b := b + Le16(1);
    b := b + Le32(0);
    b := b + Le32(RASTER);
    b := b + Le32(0);
    b := b + Le32(0);
    b := b + Le32(2);
    b := b + Le32(0);
    b := b + [0xFF, 0xFF, 0xFF, 0x00];
    b := b + [0x00, 0x00, 0x00, 0x00];
    assert b == FILE_HEADER + INFO_HEADER + PALETTE;
    var rows := Raster(bits);
    ghost var header := b;
    b := b + rows;
    assert b[..OFFSET] == header && b[OFFSET..] == rows;
  }

  method Raster(bits: Photo) returns (raster: ByteString)
    ensures |raster| == RASTER
    ensures forall i :: 0 <= i < PIXELS ==> (Ink(raster, i) <==> Lit(bits, i))
  {
    var rows := new byte[RASTER](_ => 0);
    forall i | 0 <= i < PIXELS ensures !Ink(rows[..], i) {
      BitOfZero(7 - i % 8);
    }
    for y := 0 to W
      invariant forall i :: 0 <= i < PIXELS ==> (Ink(rows[..], i) <==> i < y * W && Lit(bits, i))
    {
      for x := 0 to W
        invariant forall i :: 0 <= i < PIXELS ==> (Ink(rows[..], i) <==> i < x + y * W && Lit(bits, i))
      {
        if Lit(bits, x + y * W) {
          SetInk(rows, x, y);
        }
      }
    }
    return rows[..];
  }

  // ---- The host's reader ----

  /** The host's first look: the two letters of the format. */
  predicate Signed(raw: ByteString) { |raw| >= 2 && raw[..2] == ['B' as int, 'M' as int] }

  function HostOffset(raw: ByteString): nat
    requires |raw| >= 30
  {
    FromLe(raw[10..14])
  }

  function HostWidth(raw: ByteString): int
    requires |raw| >= 30
  {
    FromLeSigned(raw[18..22])
  }

  function HostHeight(raw: ByteString): int
    requires |raw| >= 30
  {
    FromLeSigned(raw[22..26])
  }

  function HostDepth(raw: ByteString): nat
    requires |raw| >= 30
  {
    FromLe(raw[28..30])
  }

  lemma LeReads(n: int)
    ensures FromLe(Le32(n)) == n % WORD
  {
    var b := Le32(n);
    var u := n % WORD;
    assert FromLe(b[4..]) == 0;
    assert b[3..][1..] == b[4..] && FromLe(b[3..]) == b[3];
    assert b[2..][1..] == b[3..] && FromLe(b[2..]) == b[2] + 256 * FromLe(b[3..]);
    assert b[1..][1..] == b[2..] && FromLe(b[1..]) == b[1] + 256 * FromLe(b[2..]);
    assert u / 65536 == u / 256 / 256 && u / 16777216 == u / 256 / 256 / 256;
  }

  lemma OneReads()
    ensures FromLe(Le16(1)) == 1
  {
    assert Le16(1)[1..] == [0] && [0][1..] == [];
  }

  lemma FileHeader()
    ensures |FILE_HEADER| == 14
    ensures FILE_HEADER[..2] == ['B' as int, 'M' as int]
    ensures FILE_HEADER[2..6] == Le32(OFFSET + RASTER)
    ensures FILE_HEADER[6..10] == Le32(0)
    ensures FILE_HEADER[10..14] == Le32(OFFSET)
  {
    hide Le32;
  }

  lemma InfoHeader()
    ensures |INFO_HEADER| == 40
    ensures INFO_HEADER[..4] == Le32(40)
    ensures INFO_HEADER[4..8] == Le32(W)
    ensures INFO_HEADER[8..12] == Le32(-W)
    ensures INFO_HEADER[12..14] == Le16(1)
    ensures INFO_HEADER[14..16] == Le16(1)
    ensures INFO_HEADER[16..20] == Le32(0)
    ensures INFO_HEADER[20..24] == Le32(RASTER)
    ensures INFO_HEADER[24..28] == Le32(0)
    ensures INFO_HEADER[28..32] == Le32(0)
    ensures INFO_HEADER[32..36] == Le32(2)
    ensures INFO_HEADER[36..40] == Le32(0)
  {
    hide Le32, Le16;
  }

  lemma ThreeHeaders(raw: ByteString, file: ByteString, info: ByteString, palette: ByteString)
    requires |file| == 14 && |info| == 40 && |palette| == 8 && |raw| >= 62 && raw[..62] == file + info + palette
    ensures raw[..14] == file && raw[14..54] == info && raw[54..62] == palette
  {
    var header := raw[..62];
    assert raw[..14] == header[..14] && raw[14..54] == header[14..54] && raw[54..62] == header[54..62];
  }

  lemma Within(raw: ByteString, from: nat, part: ByteString, i: nat, j: nat)
    requires i <= j <= |part| && from + |part| <= |raw| && raw[from..from + |part|] == part
    ensures raw[from + i..from + j] == part[i..j]
  {
    assert forall k :: 0 <= k < |part| ==> part[k] == raw[from..from + |part|][k] == raw[from + k];
  }

  lemma SmallLe(n: nat)
    requires n < WORD
    ensures FromLe(Le32(n)) == n
  {
    LeReads(n);
  }

  /** What a BMP of a 128 by 128 bitmap in two colours has to say, field by field, whoever wrote it. */
  ghost predicate IsTwoColourBmp(raw: ByteString) {
    && |raw| >= 62
    // the file: signature, size, nothing, where the pixels are
    && raw[0] == 'B' as int && raw[1] == 'M' as int
    && FromLe(raw[2..6]) == |raw| && FromLe(raw[6..10]) == 0 && FromLe(raw[10..14]) == 62
    // the bitmap: size of this part, width, height from the top, planes, bits, no compression, size
    && FromLe(raw[14..18]) == 40 && FromLeSigned(raw[18..22]) == 128 && FromLeSigned(raw[22..26]) == -128
    && FromLe(raw[26..28]) == 1 && FromLe(raw[28..30]) == 1 && FromLe(raw[30..34]) == 0
    && FromLe(raw[34..38]) == |raw| - 62
    // no resolution, two colours: white and black
    && FromLe(raw[38..42]) == 0 && FromLe(raw[42..46]) == 0 && FromLe(raw[46..50]) == 2 && FromLe(raw[50..54]) == 0
    && raw[54..58] == [255, 255, 255, 0] && raw[58..62] == [0, 0, 0, 0]
  }

  lemma FileFieldsRead(raw: ByteString)
    requires |raw| == OFFSET + RASTER && raw[..14] == FILE_HEADER
    ensures raw[0] == 'B' as int && raw[1] == 'M' as int
    ensures FromLe(raw[2..6]) == |raw| && FromLe(raw[6..10]) == 0 && FromLe(raw[10..14]) == 62
  {
    FileHeader();
    SmallLe(OFFSET + RASTER);
    SmallLe(0);
    SmallLe(OFFSET);
    hide FILE_HEADER, Le32, FromLe;
    Within(raw, 0, FILE_HEADER, 0, 2);
    Within(raw, 0, FILE_HEADER, 2, 6);
    Within(raw, 0, FILE_HEADER, 6, 10);
    Within(raw, 0, FILE_HEADER, 10, 14);
    assert raw[0] == raw[..2][0] && raw[1] == raw[..2][1];
  }

  lemma InfoFieldsRead(raw: ByteString)
    requires |raw| == OFFSET + RASTER && raw[14..54] == INFO_HEADER
    ensures FromLe(raw[14..18]) == 40 && FromLeSigned(raw[18..22]) == 128 && FromLeSigned(raw[22..26]) == -128
    ensures FromLe(raw[26..28]) == 1 && FromLe(raw[28..30]) == 1 && FromLe(raw[30..34]) == 0
    ensures FromLe(raw[34..38]) == |raw| - 62
    ensures FromLe(raw[38..42]) == 0 && FromLe(raw[42..46]) == 0
    ensures FromLe(raw[46..50]) == 2 && FromLe(raw[50..54]) == 0
  {
    InfoHeader();
    SmallLe(40);
    SmallLe(W);
    LeReads(-W);
    OneReads();
    SmallLe(0);
    SmallLe(RASTER);
    SmallLe(2);
    hide INFO_HEADER, Le32, Le16, FromLe;
    Within(raw, 14, INFO_HEADER, 0, 4);
    Within(raw, 14, INFO_HEADER, 4, 8);
    Within(raw, 14, INFO_HEADER, 8, 12);
    Within(raw, 14, INFO_HEADER, 12, 14);
    Within(raw, 14, INFO_HEADER, 14, 16);
    Within(raw, 14, INFO_HEADER, 16, 20);
    Within(raw, 14, INFO_HEADER, 20, 24);
    Within(raw, 14, INFO_HEADER, 24, 28);
    Within(raw, 14, INFO_HEADER, 28, 32);
    Within(raw, 14, INFO_HEADER, 32, 36);
    Within(raw, 14, INFO_HEADER, 36, 40);
  }

  /** An export is such a file, and the host finds its geometry. */
  lemma HeaderReads(bits: Photo, raw: ByteString)
    requires BmpOf(bits, raw)
    ensures IsTwoColourBmp(raw) && Signed(raw)
    ensures HostOffset(raw) == OFFSET && HostWidth(raw) == W && HostHeight(raw) == -W && HostDepth(raw) == 1
  {
    FileHeader();
    InfoHeader();
    hide Ink, FILE_HEADER, INFO_HEADER, Le32, Le16, FromLe, FromLeSigned;
    ThreeHeaders(raw, FILE_HEADER, INFO_HEADER, PALETTE);
    FileFieldsRead(raw);
    InfoFieldsRead(raw);
    Within(raw, 54, PALETTE, 0, 4);
    Within(raw, 54, PALETTE, 4, 8);
  }

  /** One row as the host cuts it out of the raster. */
  function HostRow(line: ByteString): seq<bool> {
    seq(|line| * 8, x requires 0 <= x < |line| * 8 => Bit(line[x / 8], 7 - x % 8))
  }

  /** The bit the host picks out of a row is the ink of the pixel. */
  lemma HostBit(raw: ByteString, start: nat, x: nat, y: nat)
    requires |raw| == OFFSET + RASTER && start == OFFSET + y * ROW && x < W && y < W
    ensures start + x / 8 < |raw| && x + y * W < PIXELS
    ensures Bit(raw[start + x / 8], 7 - x % 8) == Ink(raw[OFFSET..], x + y * W)
  {
    hide Bit;
    WhereInk(x, y);
  }

  /** A line of the raster shows the pixels of its row. */
  lemma LineShows(bits: Photo, raw: ByteString, start: nat, y: nat)
    requires BmpOf(bits, raw) && y < W && start == OFFSET + y * ROW && start + ROW <= |raw|
    ensures HostRow(raw[start..start + ROW]) == Row(bits, y)
  {
    hide Bit, Lit, Ink, FILE_HEADER, INFO_HEADER, PALETTE;
    var line := raw[start..start + ROW];
    forall x | 0 <= x < W ensures Bit(line[x / 8], 7 - x % 8) == Pixel(bits, x, y) {
      assert line[x / 8] == raw[start + x / 8];
      HostBit(raw, start, x, y);
      WhereInk(x, y);
      assert Ink(raw[OFFSET..], x + y * W) <==> Lit(bits, x + y * W);
    }
  }

  /** The rows read so far and the one at its place in the file. */
  lemma RowReads(bits: Photo, raw: ByteString, rows: seq<seq<bool>>, y: nat)
    requires BmpOf(bits, raw) && y < W && rows == Picture(bits)[..y]
    ensures var start := RowStart(OFFSET, y, ROW);
      start + ROW <= |raw| && rows + [HostRow(raw[start..start + ROW])] == Picture(bits)[..y + 1]
  {
    var start := RowStart(OFFSET, y, ROW);
    hide Row, HostRow, Lit, Ink, FILE_HEADER, INFO_HEADER, PALETTE;
    assert y * ROW == 16 * y;
    LineShows(bits, raw, start, y);
  }

  /** Where the host looks for a row. */
  function RowStart(offset: nat, y: nat, stride: nat): nat { offset + y * stride }

  lemma WholePicture(bits: Photo)
    ensures Picture(bits)[..0] == [] && |Picture(bits)| == W && Picture(bits)[..W] == Picture(bits)
  {
  }

  /**
   * The host's reader: anything that does not start as the format does is refused, and the row
   * loop stops where the pixel data ends early. A width it can index is a whole number of bytes.
   * What it reads from an export of some photo is that photo.
   */
  method HostRows(raw: ByteString, ghost photo: Photo) returns (rows: Option<seq<seq<bool>>>)
    requires Signed(raw) ==> |raw| >= 30 && HostWidth(raw) >= 0 && HostWidth(raw) % 8 == 0
    ensures rows == None <==> !Signed(raw)
    ensures BmpOf(photo, raw) ==> rows == Some(Picture(photo))
  {
    hide BmpOf, Picture, HostRow, HostOffset, HostWidth, HostHeight, FromLe, RowStart, IsTwoColourBmp;
    if BmpOf(photo, raw) {
      HeaderReads(photo, raw);
    }
    if |raw| < 2 || raw[0] != 'B' as int || raw[1] != 'M' as int {
      return None;
    }
    var stride := HostWidth(raw) / 8;
    var height := if HostHeight(raw) < 0 then -HostHeight(raw) else HostHeight(raw);
    WholePicture(photo);
    var read := [];
    for y := 0 to height
      invariant BmpOf(photo, raw) ==> stride == ROW && height == W && read == Picture(photo)[..y]
    {
      var start := RowStart(HostOffset(raw), y, stride);
      if BmpOf(photo, raw) {
        RowReads(photo, raw, read, y);
      }
      if start + stride > |raw| {
        break;
      }
      read := read + [HostRow(raw[start..start + stride])];
    }
    return Some(read);
  }

  /** Nothing is lost on the way to the host: two photos never have the same file. */
  method BmpRoundTrip(bits: Photo) returns (rows: Option<seq<seq<bool>>>)
    ensures rows == Some(Picture(bits))
  {
    var raw := PhotoToBmp(bits);
    HeaderReads(bits, raw);
    rows := HostRows(raw, bits);
  }
}
