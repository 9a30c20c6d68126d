// The thumbnail compositor of src/ux.rs: four photos scaled by nearest neighbour into one frame
// of packed words.

module PhotoGrid {
  import opened Bits
  import opened Division
  import opened Photos
  import opened Results

  const CELL := 54
  const COLS := 2
  const ROWS := 2
  const GAP := 4
  const PAD := 1
  const PITCH := CELL + GAP
  const X0 := (W - (CELL * COLS + GAP)) / 2
  const Y0 := PAD
  const SLOTS := COLS * ROWS

  /** The left edge of a slot's cell, and the top. */
  function Left(slot: nat): nat { X0 + slot % COLS * PITCH }

  function Top(slot: nat): nat { Y0 + slot / COLS * PITCH }

  predicate InCell(slot: nat, x: nat, y: nat) {
    Left(slot) <= x < Left(slot) + CELL && Top(slot) <= y < Top(slot) + CELL
  }

  /** The source coordinate of a destination offset. */
  function Scaled(d: nat): (s: nat)
    requires d < CELL
    ensures s < W
  {
    d * W / CELL
  }

  /** Nearest neighbour: of W source coordinates, s is the one at offset d of CELL. */
  predicate Samples(s: nat, d: nat) { s * CELL <= d * W < (s + 1) * CELL }

  lemma ScaledSamples(s: nat, d: nat)
    requires d < CELL
    ensures Samples(s, d) <==> s == Scaled(d)
  {
    if Samples(s, d) {
      DivMod(d * W, CELL, s, d * W - s * CELL);
    }
  }

  /** The slots fill the frame in reading order, two to a row, centred across and a pixel from the top. */
  lemma SlotsReadLikeText(slot: nat)
    requires slot < SLOTS
    ensures Left(slot) == 8 + 58 * (if slot == 1 || slot == 3 then 1 else 0)
    ensures Top(slot) == 1 + 58 * if slot >= 2 then 1 else 0
    ensures Left(0) == W - (Left(1) + CELL)
  {
  }

  /** Cells never overlap and lie inside the frame. */
  lemma CellsAreDisjoint(a: nat, b: nat, x: nat, y: nat)
    requires a < SLOTS && b < SLOTS && InCell(a, x, y) && InCell(b, x, y)
    ensures a == b && x < W && y < W
  {
  }

  // ---- One pixel ----

  /** Changing one bit of one word changes one pixel. */
  lemma OnePixel(before: Photo, after: Photo, x: nat, y: nat, on: bool, u: nat, v: nat)
    requires x < W && y < W && u < W && v < W
    requires var di := x + y * W; var w, k := di / 32, di % 32;
      && Pow2(k) < WORD
      && after[w] == (if on then Or(before[w], Pow2(k)) else And(before[w], Not(Pow2(k))))
      && forall i :: 0 <= i < 512 && i != w ==> after[i] == before[i]
    ensures Pixel(after, u, v) <==> if u == x && v == y then on else Pixel(before, u, v)
  {
    var i, j := x + y * W, u + v * W;
    assert i == j ==> x == u && y == v;
    if on {
      SettingABit(before[i / 32], i % 32, j % 32);
    } else {
      ClearingABit(before[i / 32], i % 32, j % 32);
    }
  }

  function Put(rows: seq<seq<bool>>, x: nat, y: nat, on: bool): (r: seq<seq<bool>>)
    requires Square(rows) && x < W && y < W
    ensures Square(r)
  {
    rows[y := rows[y][x := on]]
  }

  /** frame[di >> 5] |= 1 << (di & 31), or &= !(1 << (di & 31)): one pixel, and no other. */
  method PutPixel(frame: array<Word>, x: nat, y: nat, on: bool)
    requires frame.Length == 512 && x < W && y < W
    modifies frame
    ensures Picture(frame[..]) == Put(Picture(old(frame[..])), x, y, on)
  {
    var di := x + y * W;
    var w, k := di / 32, di % 32;
    ghost var before: Photo := frame[..];
    WordIsPow2();
    Pow2IsAWord(k);
    if on {
      SettingFits(frame[w], k, 32);
      frame[w] := Or(frame[w], Pow2(k));
    } else {
      AndFits(frame[w], Not(Pow2(k)), 32);
      frame[w] := And(frame[w], Not(Pow2(k)));
    }
    PixelPut(before, frame[..], x, y, on);
  }

  lemma PixelPut(before: Photo, after: Photo, x: nat, y: nat, on: bool)
    requires x < W && y < W
    requires var di := x + y * W; var w, k := di / 32, di % 32;
      && Pow2(k) < WORD
      && after[w] == (if on then Or(before[w], Pow2(k)) else And(before[w], Not(Pow2(k))))
      && forall i :: 0 <= i < 512 && i != w ==> after[i] == before[i]
    ensures Picture(after) == Put(Picture(before), x, y, on)
  {
    var was, now := Picture(before), Picture(after);
    forall u, v | 0 <= u < W && 0 <= v < W ensures now[v][u] == Put(was, x, y, on)[v][u] {
      OnePixel(before, after, x, y, on, u, v);
    }
    SameRows(now, Put(was, x, y, on));
  }

  lemma SameRows(a: seq<seq<bool>>, b: seq<seq<bool>>)
    requires Square(a) && Square(b)
    requires forall x, y :: 0 <= x < W && 0 <= y < W ==> a[y][x] == b[y][x]
    ensures a == b
  {
    forall y | 0 <= y < W ensures a[y] == b[y] {
      assert forall x :: 0 <= x < W ==> a[y][x] == b[y][x];
    }
  }

  // ---- One cell ----

  /** The pixel at (x, y) when the first n pixels of a slot's cell are drawn, in the order of the loops. */
  predicate Painted(before: seq<seq<bool>>, src: seq<seq<bool>>, slot: nat, n: nat, x: nat, y: nat)
    requires Square(before) && Square(src) && slot < SLOTS && x < W && y < W
  {
    if InCell(slot, x, y) && (y - Top(slot)) * CELL + (x - Left(slot)) < n
    then src[Scaled(y - Top(slot))][Scaled(x - Left(slot))]
    else before[y][x]
  }

  ghost predicate Shows(rows: seq<seq<bool>>, before: seq<seq<bool>>, src: seq<seq<bool>>, slot: nat, n: nat)
    requires Square(rows) && Square(before) && Square(src) && slot < SLOTS
  {
    forall x, y :: 0 <= x < W && 0 <= y < W ==> rows[y][x] == Painted(before, src, slot, n, x, y)
  }

  /** The cell shows the photo and nothing else has changed. */
  ghost predicate Drawn(before: seq<seq<bool>>, after: seq<seq<bool>>, slot: nat, src: seq<seq<bool>>)
    requires Square(before) && Square(after) && Square(src) && slot < SLOTS
  {
    && CellShows(after, slot, src)
    && forall x, y :: 0 <= x < W && 0 <= y < W && !InCell(slot, x, y) ==> after[y][x] == before[y][x]
  }

  method DrawCell(frame: array<Word>, src: Photo, slot: nat)
    requires frame.Length == 512 && slot < SLOTS
    modifies frame
    ensures Drawn(Picture(old(frame[..])), Picture(frame[..]), slot, Picture(src))
  {
    hide Lit, Put;
    ghost var before := Picture(frame[..]);
    var ox, oy := Left(slot), Top(slot);
    for dy := 0 to CELL
      invariant Shows(Picture(frame[..]), before, Picture(src), slot, dy * CELL)
    {
      hide Painted;
      for dx := 0 to CELL
        invariant Shows(Picture(frame[..]), before, Picture(src), slot, dy * CELL + dx)
      {
        ghost var prior := Picture(frame[..]);
        var on := Pixel(src, Scaled(dx), Scaled(dy));
        PutPixel(frame, ox + dx, oy + dy, on);
        NextPixel(before, Picture(src), slot, dx, dy, prior, on);
      }
    }
    CellIsDrawn(before, Picture(frame[..]), slot, Picture(src));
  }

  lemma NextPixel(before: seq<seq<bool>>, src: seq<seq<bool>>, slot: nat, dx: nat, dy: nat,
                  prior: seq<seq<bool>>, on: bool)
    requires Square(before) && Square(src) && Square(prior)
    requires slot < SLOTS && dx < CELL && dy < CELL && on == src[Scaled(dy)][Scaled(dx)]
    requires Shows(prior, before, src, slot, dy * CELL + dx)
    ensures Shows(Put(prior, Left(slot) + dx, Top(slot) + dy, on), before, src, slot, dy * CELL + dx + 1)
  {
    var next := Put(prior, Left(slot) + dx, Top(slot) + dy, on);
    forall x, y | 0 <= x < W && 0 <= y < W
      ensures next[y][x] == Painted(before, src, slot, dy * CELL + dx + 1, x, y)
    {
      assert prior[y][x] == Painted(before, src, slot, dy * CELL + dx, x, y);
      if InCell(slot, x, y) && (y - Top(slot)) * CELL + (x - Left(slot)) == dy * CELL + dx {
        assert y - Top(slot) == dy && x - Left(slot) == dx;
      }
    }
  }

  // ---- The grid ----

  /** The photo in a slot of the page, if the key is there and reads. */
  function InSlot(photos: seq<Option<Photo>>, first: nat, slot: nat): Option<Photo> {
    if first + slot < |photos| then photos[first + slot] else None
  }

  /** The slot's cell shows the photo: at each offset the source pixel that nearest neighbour picks. */
  ghost predicate CellShows(rows: seq<seq<bool>>, slot: nat, src: seq<seq<bool>>)
    requires Square(rows) && Square(src) && slot < SLOTS
  {
    forall dx, dy, sx, sy ::
      0 <= dx < CELL && 0 <= dy < CELL && 0 <= sx < W && 0 <= sy < W && Samples(sx, dx) && Samples(sy, dy) ==>
      rows[Top(slot) + dy][Left(slot) + dx] == src[sy][sx]
  }

  /** None of the first slots has a photo over this pixel. */
  ghost predicate Uncovered(photos: seq<Option<Photo>>, first: nat, slots: nat, x: nat, y: nat) {
    forall slot :: 0 <= slot < slots && InCell(slot, x, y) ==> InSlot(photos, first, slot).None?
  }

  /** Every filled slot's cell shows its photo. */
  ghost predicate CellsShow(rows: seq<seq<bool>>, photos: seq<Option<Photo>>, first: nat, slots: nat)
    requires Square(rows) && slots <= SLOTS
  {
    forall slot :: 0 <= slot < slots && InSlot(photos, first, slot).Some? ==>
      CellShows(rows, slot, Picture(InSlot(photos, first, slot).value))
  }

  /** Every other pixel is set. */
  ghost predicate RestSet(rows: seq<seq<bool>>, photos: seq<Option<Photo>>, first: nat, slots: nat)
    requires Square(rows)
  {
    forall x, y :: 0 <= x < W && 0 <= y < W && Uncovered(photos, first, slots, x, y) ==> rows[y][x]
  }

  /** Every pixel of the frame: the scaled photo inside a filled cell, set everywhere else. */
  ghost predicate Composed(rows: seq<seq<bool>>, photos: seq<Option<Photo>>, first: nat, slots: nat)
    requires Square(rows) && slots <= SLOTS
  {
    CellsShow(rows, photos, first, slots) && RestSet(rows, photos, first, slots)
  }

  lemma CellIsDrawn(before: seq<seq<bool>>, after: seq<seq<bool>>, slot: nat, src: seq<seq<bool>>)
    requires Square(before) && Square(after) && Square(src)
    requires slot < SLOTS && Shows(after, before, src, slot, CELL * CELL)
    ensures Drawn(before, after, slot, src)
  {
    hide Painted, Scaled, Samples, InCell;
    forall dx, dy, sx, sy |
      0 <= dx < CELL && 0 <= dy < CELL && 0 <= sx < W && 0 <= sy < W && Samples(sx, dx) && Samples(sy, dy)
      ensures after[Top(slot) + dy][Left(slot) + dx] == src[sy][sx]
    {
      ScaledSamples(sx, dx);
      ScaledSamples(sy, dy);
      PaintedInside(before, src, slot, dx, dy);
      assert after[Top(slot) + dy][Left(slot) + dx]
          == Painted(before, src, slot, CELL * CELL, Left(slot) + dx, Top(slot) + dy);
    }
    forall x, y | 0 <= x < W && 0 <= y < W && !InCell(slot, x, y) ensures after[y][x] == before[y][x] {
      Unpainted(before, src, slot, CELL * CELL, x, y);
      assert after[y][x] == Painted(before, src, slot, CELL * CELL, x, y);
    }
  }

  lemma PaintedInside(before: seq<seq<bool>>, src: seq<seq<bool>>, slot: nat, dx: nat, dy: nat)
    requires Square(before) && Square(src) && slot < SLOTS && dx < CELL && dy < CELL
    ensures var x, y := Left(slot) + dx, Top(slot) + dy;
      && InCell(slot, x, y) && x < W && y < W
      && Painted(before, src, slot, CELL * CELL, x, y) == src[Scaled(dy)][Scaled(dx)]
  {
    CellsAreDisjoint(slot, slot, Left(slot) + dx, Top(slot) + dy);
    hide Scaled;
  }

  lemma Unpainted(before: seq<seq<bool>>, src: seq<seq<bool>>, slot: nat, n: nat, x: nat, y: nat)
    requires Square(before) && Square(src) && slot < SLOTS && x < W && y < W && !InCell(slot, x, y)
    ensures Painted(before, src, slot, n, x, y) == before[y][x]
  {
    hide Scaled;
  }

  lemma OtherCell(before: seq<seq<bool>>, after: seq<seq<bool>>, slot: nat, src: seq<seq<bool>>,
                  s: nat, other: seq<seq<bool>>)
    requires Square(before) && Square(after) && Square(src) && Square(other)
    requires s < SLOTS && slot < SLOTS && s != slot
    requires CellShows(before, s, other) && Drawn(before, after, slot, src)
    ensures CellShows(after, s, other)
  {
    hide Samples, InCell;
    forall dx, dy, sx, sy |
      0 <= dx < CELL && 0 <= dy < CELL && 0 <= sx < W && 0 <= sy < W && Samples(sx, dx) && Samples(sy, dy)
      ensures after[Top(s) + dy][Left(s) + dx] == other[sy][sx]
    {
      Apart(s, slot, dx, dy);
      assert after[Top(s) + dy][Left(s) + dx] == before[Top(s) + dy][Left(s) + dx];
    }
  }

  lemma Apart(s: nat, slot: nat, dx: nat, dy: nat)
    requires s < SLOTS && slot < SLOTS && s != slot && dx < CELL && dy < CELL
    ensures !InCell(slot, Left(s) + dx, Top(s) + dy)
  {
    var x, y := Left(s) + dx, Top(s) + dy;
    assert InCell(s, x, y);
    if InCell(slot, x, y) {
      CellsAreDisjoint(s, slot, x, y);
    }
  }

  lemma CellAdded(photos: seq<Option<Photo>>, first: nat, slot: nat, before: seq<seq<bool>>, after: seq<seq<bool>>)
    requires Square(before) && Square(after)
    requires slot < SLOTS && CellsShow(before, photos, first, slot) && InSlot(photos, first, slot).Some?
    requires Drawn(before, after, slot, Picture(InSlot(photos, first, slot).value))
    ensures CellsShow(after, photos, first, slot + 1)
  {
    forall s | 0 <= s < slot + 1 && InSlot(photos, first, s).Some?
      ensures CellShows(after, s, Picture(InSlot(photos, first, s).value))
    {
      if s == slot {
        assert Drawn(before, after, slot, Picture(InSlot(photos, first, slot).value));
      } else {
        OtherCell(before, after, slot, Picture(InSlot(photos, first, slot).value),
                  s, Picture(InSlot(photos, first, s).value));
      }
    }
  }

  lemma RestStaysSet(photos: seq<Option<Photo>>, first: nat, slot: nat, src: seq<seq<bool>>,
                     before: seq<seq<bool>>, after: seq<seq<bool>>)
    requires Square(before) && Square(after) && Square(src)
    requires slot < SLOTS && RestSet(before, photos, first, slot) && InSlot(photos, first, slot).Some?
    requires Drawn(before, after, slot, src)
    ensures RestSet(after, photos, first, slot + 1)
  {
    forall x, y | 0 <= x < W && 0 <= y < W && Uncovered(photos, first, slot + 1, x, y) ensures after[y][x] {
      assert !InCell(slot, x, y) && Uncovered(photos, first, slot, x, y);
    }
  }

  /** An empty slot changes nothing. */
  lemma SlotsSkipped(photos: seq<Option<Photo>>, first: nat, slot: nat, next: nat, rows: seq<seq<bool>>)
    requires Square(rows) && slot < next <= SLOTS && Composed(rows, photos, first, slot)
    requires forall s :: slot <= s < next ==> InSlot(photos, first, s).None?
    ensures Composed(rows, photos, first, next)
  {
    forall x, y | 0 <= x < W && 0 <= y < W && Uncovered(photos, first, next, x, y) ensures rows[y][x] {
      assert Uncovered(photos, first, slot, x, y);
    }
  }

  /** The page of the cursor, composed into one frame. A photo is None when its key does not read. */
  method Compose(photos: seq<Option<Photo>>, cursor: nat) returns (frame: Photo)
    ensures forall first: nat :: first % SLOTS == 0 && first <= cursor < first + SLOTS ==>
      Composed(Picture(frame), photos, first, SLOTS)
  {
    var first := cursor / SLOTS * SLOTS;
    var words := new Word[512](_ => WORD - 1);
    AllSet(words[..]);
    var slot := 0;
    while slot < SLOTS
      invariant slot <= SLOTS && Composed(Picture(words[..]), photos, first, slot)
      decreases SLOTS - slot
    {
      ghost var before := Picture(words[..]);
      if first + slot >= |photos| {
        SlotsSkipped(photos, first, slot, SLOTS, before);
        break;
      }
      match photos[first + slot] {
        case None =>
          SlotsSkipped(photos, first, slot, slot + 1, before);
        case Some(src) =>
          DrawCell(words, src, slot);
          CellAdded(photos, first, slot, before, Picture(words[..]));
          RestStaysSet(photos, first, slot, Picture(src), before, Picture(words[..]));
      }
      slot := slot + 1;
    }
    hide Composed;
    forall f: nat | f % SLOTS == 0 && f <= cursor < f + SLOTS ensures f == first {
      DivMod(cursor, SLOTS, f / SLOTS, cursor - f);
    }
    return words[..];
  }

  /** The specification leaves no pixel open: only one frame meets it. */
  lemma FrameIsDetermined(a: Photo, b: Photo, photos: seq<Option<Photo>>, first: nat)
    requires Composed(Picture(a), photos, first, SLOTS) && Composed(Picture(b), photos, first, SLOTS)
    ensures a == b
  {
    forall x, y | 0 <= x < W && 0 <= y < W ensures Pixel(a, x, y) <==> Pixel(b, x, y) {
      PixelIsDetermined(Picture(a), Picture(b), photos, first, x, y);
    }
    SamePixels(a, b);
  }

  lemma PixelIsDetermined(a: seq<seq<bool>>, b: seq<seq<bool>>, photos: seq<Option<Photo>>, first: nat, x: nat, y: nat)
    requires Square(a) && Square(b) && x < W && y < W
    requires Composed(a, photos, first, SLOTS) && Composed(b, photos, first, SLOTS)
    ensures a[y][x] == b[y][x]
  {
    hide Picture, CellShows, Scaled;
    if slot :| 0 <= slot < SLOTS && InCell(slot, x, y) && InSlot(photos, first, slot).Some? {
      var src := Picture(InSlot(photos, first, slot).value);
      assert CellShows(a, slot, src) && CellShows(b, slot, src);
      SameInCell(a, b, slot, src, x, y);
    } else {
      assert Uncovered(photos, first, SLOTS, x, y);
    }
  }

  lemma SameInCell(a: seq<seq<bool>>, b: seq<seq<bool>>, slot: nat, src: seq<seq<bool>>, x: nat, y: nat)
    requires Square(a) && Square(b) && Square(src) && slot < SLOTS && InCell(slot, x, y) && x < W && y < W
    requires CellShows(a, slot, src) && CellShows(b, slot, src)
    ensures a[y][x] == b[y][x]
  {
    var dx, dy := x - Left(slot), y - Top(slot);
    hide Samples, Scaled;
    ScaledSamples(Scaled(dx), dx);
    ScaledSamples(Scaled(dy), dy);
    assert a[Top(slot) + dy][Left(slot) + dx] == src[Scaled(dy)][Scaled(dx)];
    assert b[Top(slot) + dy][Left(slot) + dx] == src[Scaled(dy)][Scaled(dx)];
  }

  lemma AllSet(frame: Photo)
    requires forall i :: 0 <= i < 512 ==> frame[i] == WORD - 1
    ensures forall x, y :: 0 <= x < W && 0 <= y < W ==> Picture(frame)[y][x]
  {
    WordIsPow2();
    forall x, y | 0 <= x < W && 0 <= y < W ensures Picture(frame)[y][x] {
      BitOfLowOnes(32, (x + y * W) % 32);
    }
  }
}
