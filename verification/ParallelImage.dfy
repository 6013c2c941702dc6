/** The conversion of an image into character cells by five threads, in print_img.cpp. */
module ParallelImage {
  import opened Bytes

  const THREAD_NUM: nat := 5
  const BLOCK_SIZE: nat := 96   // 4 x 8 pixels of three bytes

  /** findCharData as a function of the bytes it looks at. */
  type Match<T> = seq<Byte> -> T

  lemma Ordered(w: nat, a: nat, b: nat)
    requires a <= b
    ensures w * a <= w * b
  {
    assert w * b == w * a + w * (b - a);
    NonNegative(w, b - a);
  }

  lemma NonNegative(a: nat, b: nat)
    ensures a * b >= 0
  {}

  /** The n-th byte of the block at (x, y) of an image of width `w` that starts at `base`. */
  function Position(base: nat, x: nat, y: nat, w: nat, n: nat): int {
    base + ((x + n / 3 % 4) + w * (y + n / 12)) * 3 + n % 3
  }

  lemma PositionFits(base: nat, x: nat, y: nat, w: nat, rows: nat, n: nat)
    requires x + 4 <= w && y + 8 <= rows && n < BLOCK_SIZE
    ensures 0 <= Position(base, x, y, w, n) < base + w * rows * 3
  {
    var py := y + n / 12;
    Ordered(w, py + 1, rows);
    assert w * (py + 1) == w * py + w;
    NonNegative(w, py);
  }

  function Block(image: seq<Byte>, base: nat, x: nat, y: nat, w: nat, rows: nat): (b: seq<Byte>)
    requires x + 4 <= w && y + 8 <= rows && base + w * rows * 3 <= |image|
    ensures |b| == BLOCK_SIZE
  {
    seq(BLOCK_SIZE, n requires 0 <= n < BLOCK_SIZE => PositionFits(base, x, y, w, rows, n);
        image[Position(base, x, y, w, n)])
  }

  /** Row by row, pixel by pixel: byte `c` of the pixel at (dx, dy) of the block. */
  lemma BlockBytes(image: seq<Byte>, base: nat, x: nat, y: nat, w: nat, rows: nat, dx: nat, dy: nat, c: nat)
    requires x + 4 <= w && y + 8 <= rows && base + w * rows * 3 <= |image| && dx < 4 && dy < 8 && c < 3
    ensures 0 <= base + ((y + dy) * w + x + dx) * 3 + c < |image|
    ensures Block(image, base, x, y, w, rows)[(4 * dy + dx) * 3 + c] == image[base + ((y + dy) * w + x + dx) * 3 + c]
  {
    var n := (4 * dy + dx) * 3 + c;
    assert n / 3 % 4 == dx && n / 12 == dy && n % 3 == c;
    PositionFits(base, x, y, w, rows, n);
    assert w * (y + dy) == (y + dy) * w;
  }

  /** A block of a slice that starts `skip` rows down is a block of the whole image. */
  lemma SliceBlock(image: seq<Byte>, skip: nat, x: nat, y: nat, w: nat, sliceRows: nat, rows: nat)
    requires x + 4 <= w && y + 8 <= sliceRows && skip + sliceRows <= rows && w * rows * 3 <= |image|
    ensures w * skip * 3 + w * sliceRows * 3 <= |image|
    ensures Block(image, w * skip * 3, x, y, w, sliceRows) == Block(image, 0, x, skip + y, w, rows)
  {
    Ordered(w, skip + sliceRows, rows);
    assert w * (skip + sliceRows) == w * skip + w * sliceRows;
    forall n | 0 <= n < BLOCK_SIZE
      ensures Position(w * skip * 3, x, y, w, n) == Position(0, x, skip + y, w, n)
    {
      assert w * (skip + y + n / 12) == w * skip + w * (y + n / 12);
    }
  }

  // ---------------------------------------------------------------- one pass

  /** The i-th cell of a pass over `r` rows of `cols` cells whose pixels start at `base`. */
  function Cell<T>(f: Match<T>, image: seq<Byte>, base: nat, cols: nat, r: nat, i: nat): T
    requires i < cols * r && base + (4 * cols) * (8 * r) * 3 <= |image|
  {
    CellFits(cols, r, i);
    f(Block(image, base, i % cols * 4, i / cols * 8, 4 * cols, 8 * r))
  }

  lemma CellFits(cols: nat, r: nat, i: nat)
    requires i < cols * r
    ensures cols > 0 && i % cols * 4 + 4 <= 4 * cols && i / cols * 8 + 8 <= 8 * r
  {
    assert cols > 0;
    var q := i / cols;
    assert i == cols * q + i % cols;
    if q >= r {
      Ordered(cols, r, q);
      assert false;
    }
  }

  /** trans_to_chardata over `8 * r` rows of pixels: the cells of a pass, written from position `at` on. */
  method TransToCharData<T>(f: Match<T>, cells: array<T>, at: nat, image: seq<Byte>, base: nat, cols: nat, r: nat)
    requires base + (4 * cols) * (8 * r) * 3 <= |image| && at + cols * r <= cells.Length
    modifies cells
    ensures forall i :: 0 <= i < cols * r ==> cells[at + i] == Cell(f, image, base, cols, r, i)
    ensures forall i :: 0 <= i < at || at + cols * r <= i < cells.Length ==> cells[i] == old(cells[i])
  {
    var height, next, y := 8 * r, 0, 0;
    ghost var row := 0;
    hide Cell, Block;
    while y < height
      invariant y == 8 * row && row <= r && next == cols * row <= cols * r
      invariant forall i :: 0 <= i < next ==> cells[at + i] == Cell(f, image, base, cols, r, i)
      invariant forall i :: 0 <= i < at || at + cols * r <= i < cells.Length ==> cells[i] == old(cells[i])
      decreases height - y
    {
      RowsFit(cols, row, 1, r);
      assert cols * 1 == cols;
      next := TransRow(f, cells, at, next, image, base, cols, r, y, row);
      y, row := y + 8, row + 1;
    }
  }

  /** The inner loop, for one row of cells. */
  method TransRow<T>(f: Match<T>, cells: array<T>, at: nat, first: nat, image: seq<Byte>, base: nat,
                     cols: nat, r: nat, y: nat, ghost row: nat)
    returns (next: nat)
    requires y == 8 * row && row < r && base + (4 * cols) * (8 * r) * 3 <= |image|
    requires first == cols * row && first + cols <= cols * r && at + cols * r <= cells.Length
    modifies cells
    ensures next == first + cols
    ensures forall i :: first <= i < first + cols ==> cells[at + i] == Cell(f, image, base, cols, r, i)
    ensures forall i :: 0 <= i < at + first || at + first + cols <= i < cells.Length ==> cells[i] == old(cells[i])
  {
    next := first;
    var width, x := 4 * cols, 0;
    ghost var col := 0;
    while x < width
      invariant x == 4 * col && col <= cols && next == first + col
      invariant forall i :: first <= i < next ==> cells[at + i] == Cell(f, image, base, cols, r, i)
      invariant forall i :: 0 <= i < at + first || at + first + cols <= i < cells.Length ==> cells[i] == old(cells[i])
      decreases width - x
    {
      CellPlace(cols, row, col);
      CellIs(f, image, base, cols, r, next, x, y);
      hide Cell, Block;
      cells[at + next] := f(Block(image, base, x, y, width, 8 * r));
      next := next + 1;
      x, col := x + 4, col + 1;
    }
  }

  lemma CellPlace(cols: nat, row: nat, col: nat)
    requires col < cols
    ensures (cols * row + col) % cols == col && (cols * row + col) / cols == row
  {
    DivUnique(cols * row + col, cols, row, col);
  }

  /** Byte `c` of the pixel at (dx, dy) of the block `b` is that of the pixel at (x + dx, y + dy) of the image. */
  predicate SamePixel(b: seq<Byte>, image: seq<Byte>, base: nat, w: nat, x: nat, y: nat, dx: nat, dy: nat, c: nat) {
    var i, j := (4 * dy + dx) * 3 + c, base + ((y + dy) * w + x + dx) * 3 + c;
    i < |b| && 0 <= j < |image| && b[i] == image[j]
  }

  ghost predicate Tile(b: seq<Byte>, image: seq<Byte>, base: nat, w: nat, x: nat, y: nat) {
    |b| == BLOCK_SIZE
    && forall dx: nat, dy: nat, c: nat :: dx < 4 && dy < 8 && c < 3 ==> SamePixel(b, image, base, w, x, y, dx, dy, c)
  }

  lemma BlockIsTile(image: seq<Byte>, base: nat, x: nat, y: nat, w: nat, rows: nat)
    requires x + 4 <= w && y + 8 <= rows && base + w * rows * 3 <= |image|
    ensures Tile(Block(image, base, x, y, w, rows), image, base, w, x, y)
  {
    var b := Block(image, base, x, y, w, rows);
    forall dx: nat, dy: nat, c: nat | dx < 4 && dy < 8 && c < 3 ensures SamePixel(b, image, base, w, x, y, dx, dy, c) {
      BlockBytes(image, base, x, y, w, rows, dx, dy, c);
    }
  }

  /** Cells follow each other row by row, and each is made of its own 4 by 8 pixels of the image. */
  lemma CellAt<T>(f: Match<T>, image: seq<Byte>, base: nat, cols: nat, r: nat, row: nat, col: nat)
    requires row < r && col < cols && base + (4 * cols) * (8 * r) * 3 <= |image|
    ensures cols * row + col < cols * r
    ensures exists b ::
      Tile(b, image, base, 4 * cols, 4 * col, 8 * row) && Cell(f, image, base, cols, r, cols * row + col) == f(b)
  {
    RowsFit(cols, row, 1, r);
    CellPlace(cols, row, col);
    var x, y := 4 * col, 8 * row;
    CellIs(f, image, base, cols, r, cols * row + col, x, y);
    BlockIsTile(image, base, x, y, 4 * cols, 8 * r);
    hide Cell, Block, Tile;
  }

  // ---------------------------------------------------------------- the split into threads

  /** Where print_raw_img lets a thread write, for an image `height` rows high. */
  function Start(cols: nat, height: nat, k: nat): nat {
    NonNegative(cols, height / 8);
    NonNegative(cols * (height / 8) / THREAD_NUM, k);
    cols * (height / 8) / THREAD_NUM * k
  }

  /** Where in the image it lets the thread start reading. */
  function Source(cols: nat, height: nat, k: nat): nat {
    NonNegative(4 * cols, height);
    NonNegative((4 * cols) * height / THREAD_NUM, k);
    (4 * cols) * height / THREAD_NUM * k * 3
  }

  /** How many cells the loops of one thread write. */
  function Share(cols: nat, height: nat): nat {
    NonNegative(cols, (height / THREAD_NUM + 7) / 8);
    cols * ((height / THREAD_NUM + 7) / 8)
  }

  /** For a height divisible by 8 a thread never stops short of where the next one starts, and it stops exactly
      there if and only if the height is divisible by 40; otherwise the two write some of the same cells. */
  lemma SharesMeet(cols: nat, height: nat, k: nat)
    requires cols > 0 && height % 8 == 0
    ensures Start(cols, height, k + 1) <= Start(cols, height, k) + Share(cols, height)
    ensures Start(cols, height, k + 1) == Start(cols, height, k) + Share(cols, height) <==> height % 40 == 0
  {
    var rows := height / 8;
    var q, r := rows / 5, rows % 5;
    var each := cols * rows / 5;
    assert each * (k + 1) == each * k + each;
    assert cols * rows == 5 * (cols * q) + cols * r;
    assert height / 5 == 8 * q + 8 * r / 5;
    assert (height / 5 + 7) / 8 == q + if r == 0 then 0 else 1;
    assert cols * (q + 1) == cols * q + cols;
    assert r < 5 ==> cols * r / 5 < cols by { Ordered(cols, r, 4); }
    NonNegative(cols, r);
    assert each == cols * q + cols * r / 5;
  }

  /** The five ranges lie one behind the other and fill the cell array exactly. */
  predicate Tiles(cols: nat, height: nat) {
    && Start(cols, height, 0) == 0
    && (forall k :: 0 <= k < THREAD_NUM - 1 ==>
          Start(cols, height, k + 1) == Start(cols, height, k) + Share(cols, height))
    && Start(cols, height, THREAD_NUM - 1) + Share(cols, height) == cols * (height / 8)
  }

  /** How many cells one pass over the whole image writes. */
  function PassLength(cols: nat, height: nat): nat {
    NonNegative(cols, (height + 7) / 8);
    cols * ((height + 7) / 8)
  }

  /** One pass fits the allocated cells exactly for heights divisible by 8. */
  lemma PassFits(cols: nat, height: nat)
    requires cols > 0
    ensures PassLength(cols, height) == cols * (height / 8) <==> height % 8 == 0
  {
    var rows := height / 8;
    assert (height + 7) / 8 == rows + if height % 8 == 0 then 0 else 1;
    assert cols * (rows + 1) == cols * rows + cols;
  }

  /** For every height: one pass fits the cells and the split tiles them exactly when it is divisible by 40. */
  lemma SplitExact(cols: nat, height: nat)
    requires cols > 0
    ensures PassLength(cols, height) == cols * (height / 8) && Tiles(cols, height) <==> height % 40 == 0
  {
    hide Tiles, PassLength;
    PassFits(cols, height);
    Fortieths(height);
    if height % 8 == 0 { TilesOnly(cols, height); }
    if height % 40 == 0 { EvenTiles(cols, height / 40); }
  }

  lemma TilesOnly(cols: nat, height: nat)
    requires cols > 0 && height % 8 == 0
    ensures Tiles(cols, height) ==> height % 40 == 0
  {
    SharesMeet(cols, height, 0);
    hide Start, Share;
    assert Tiles(cols, height) ==> Start(cols, height, 0 + 1) == Start(cols, height, 0) + Share(cols, height);
  }

  lemma Fortieths(n: nat)
    ensures n % 40 == 0 ==> n % 8 == 0 && n == 40 * (n / 40)
  {}

  /** 48 rows of 20 cells: the second thread starts among the cells of the first, and the last one does not stop at the
      end of the array. */
  lemma Overlap()
    ensures Start(20, 48, 1) == 24 && Share(20, 48) == 40
    ensures Start(20, 48, 4) + Share(20, 48) == 136 && 20 * (48 / 8) == 120
  {}

  lemma EvenTiles(cols: nat, m: nat)
    ensures Tiles(cols, 40 * m)
  {
    assert 40 * m / 8 == 5 * m;
    assert cols * (5 * m) == 5 * (cols * m);
    forall k | 0 <= k < THREAD_NUM
      ensures Start(cols, 40 * m, k) == cols * m * k && Share(cols, 40 * m) == cols * m
    {
      EvenSplit(cols, m, k);
      Regroup(cols, m, k);
    }
    hide Start, Share;
  }

  /** Heights that divide evenly: `m` rows of cells for each thread. */
  lemma EvenSplit(cols: nat, m: nat, k: nat)
    ensures Start(cols, 40 * m, k) == cols * (m * k) && Share(cols, 40 * m) == cols * m
    ensures Source(cols, 40 * m, k) == (4 * cols) * (8 * (m * k)) * 3
    ensures 40 * m / THREAD_NUM == 8 * m
  {
    assert 40 * m / 8 == 5 * m && 40 * m / 5 == 8 * m && (8 * m + 7) / 8 == m;
    assert cols * (5 * m) == 5 * (cols * m);
    NonNegative(cols, m);
    assert (4 * cols) * (40 * m) == 5 * ((4 * cols) * (8 * m));
    NonNegative(4 * cols, 8 * m);
    assert cols * m * k == cols * (m * k);
    assert (4 * cols) * (8 * m) * k == (4 * cols) * (8 * (m * k));
  }

  /** The i-th cell of the k-th thread is the cell of the whole image at the place it is written to. */
  lemma ThreadCell<T>(f: Match<T>, image: seq<Byte>, cols: nat, m: nat, k: nat, i: nat)
    requires k < THREAD_NUM && i < cols * m && (4 * cols) * (8 * (5 * m)) * 3 <= |image|
    ensures cols * (m * k) + i < cols * (5 * m)
    ensures (4 * cols) * (8 * (m * k)) * 3 + (4 * cols) * (8 * m) * 3 <= |image|
    ensures Cell(f, image, (4 * cols) * (8 * (m * k)) * 3, cols, m, i)
        == Cell(f, image, 0, cols, 5 * m, cols * (m * k) + i)
  {
    hide Cell;
    SliceEnds(image, cols, m, k);
    CellFits(cols, m, i);
    SamePlace(cols, m * k, i);
    Further(f, image, cols, m * k, m, 5 * m, i, cols * (m * k) + i);
  }

  lemma CellIs<T>(f: Match<T>, image: seq<Byte>, base: nat, cols: nat, r: nat, i: nat, x: nat, y: nat)
    requires i < cols * r && base + (4 * cols) * (8 * r) * 3 <= |image|
    requires cols > 0 && x == i % cols * 4 && y == i / cols * 8
    ensures x + 4 <= 4 * cols && y + 8 <= 8 * r
    ensures Cell(f, image, base, cols, r, i) == f(Block(image, base, x, y, 4 * cols, 8 * r))
  {
    CellFits(cols, r, i);
    hide Block;
  }

  /** The i-th cell of the slice that starts `skip` rows of cells down is the cell `at` of the image. */
  lemma Further<T>(f: Match<T>, image: seq<Byte>, cols: nat, skip: nat, slice: nat, r: nat, i: nat, at: nat)
    requires skip + slice <= r && (4 * cols) * (8 * r) * 3 <= |image|
    requires i < cols * slice && at < cols * r
    requires cols > 0 && at % cols == i % cols && at / cols == skip + i / cols
    ensures (4 * cols) * (8 * skip) * 3 + (4 * cols) * (8 * slice) * 3 <= |image|
    ensures Cell(f, image, (4 * cols) * (8 * skip) * 3, cols, slice, i) == Cell(f, image, 0, cols, r, at)
  {
    hide Block, Position, Cell;
    var w, x, y := 4 * cols, i % cols * 4, i / cols * 8;
    CellFits(cols, slice, i);
    SliceBlock(image, 8 * skip, x, y, w, 8 * slice, 8 * r);
    CellIs(f, image, w * (8 * skip) * 3, cols, slice, i, x, y);
    CellIs(f, image, 0, cols, r, at, x, 8 * skip + y);
  }

  /** A cell `skip` rows further down. */
  lemma SamePlace(cols: nat, skip: nat, i: nat)
    requires cols > 0
    ensures cols * skip + i >= 0
    ensures (cols * skip + i) % cols == i % cols && (cols * skip + i) / cols == skip + i / cols
  {
    var row, col := i / cols, i % cols;
    NonNegative(cols, skip);
    assert i == cols * row + col;
    assert cols * (skip + row) == cols * skip + cols * row;
    CellPlace(cols, skip + row, col);
  }

  lemma SliceEnds(image: seq<Byte>, cols: nat, m: nat, k: nat)
    requires k < THREAD_NUM && (4 * cols) * (8 * (5 * m)) * 3 <= |image|
    ensures 0 <= m * k && m * k + m <= 5 * m
    ensures (4 * cols) * (8 * (m * k)) * 3 + (4 * cols) * (8 * m) * 3 <= |image|
    ensures 0 <= cols * (m * k) && cols * (m * k) + cols * m == cols * (m * (k + 1)) <= cols * (5 * m)
  {
    Ordered(m, k + 1, 5);
    assert m * (k + 1) == m * k + m;
    NonNegative(m, k);
    RowsFit(cols, m * k, m, 5 * m);
    RowsFit(4 * cols, 8 * (m * k), 8 * m, 8 * (5 * m));
  }

  lemma RowsFit(w: nat, a: nat, b: nat, c: nat)
    requires a + b <= c
    ensures 0 <= w * a && w * a + w * b == w * (a + b) <= w * c
  {
    Ordered(w, a + b, c);
    NonNegative(w, a);
  }

  /** One sequential pass over the whole image. */
  function Whole<T>(f: Match<T>, image: seq<Byte>, cols: nat, r: nat): (cells: seq<T>)
    requires (4 * cols) * (8 * r) * 3 <= |image|
    ensures |cells| == cols * r
  {
    NonNegative(cols, r);
    seq(cols * r, i requires 0 <= i < cols * r => Cell(f, image, 0, cols, r, i))
  }

  /** The five passes of print_raw_img over an image `40 * m` rows high, one after the other. */
  method Convert<T>(f: Match<T>, cells: array<T>, image: seq<Byte>, cols: nat, m: nat)
    requires (4 * cols) * (8 * (5 * m)) * 3 <= |image| && cells.Length == cols * (5 * m)
    modifies cells
    ensures cells[..] == Whole(f, image, cols, 5 * m)
  {
    for k := 0 to THREAD_NUM
      invariant forall p :: 0 <= p < cols * (m * k) ==>
        p < cells.Length && cells[p] == Cell(f, image, 0, cols, 5 * m, p)
    {
      EvenSplit(cols, m, k);
      SliceEnds(image, cols, m, k);
      TransToCharData(f, cells, Start(cols, 40 * m, k), image, Source(cols, 40 * m, k), cols, m);
      forall p | 0 <= p < cols * (m * (k + 1))
        ensures p < cells.Length && cells[p] == Cell(f, image, 0, cols, 5 * m, p)
      {
        if p >= cols * (m * k) {
          ThreadCell(f, image, cols, m, k, p - cols * (m * k));
          assert cells[cols * (m * k) + (p - cols * (m * k))] == cells[p];
        }
      }
    }
  }

  // ---------------------------------------------------------------- the threads at work

  /** The cells, and how many of its own each thread has written. */
  datatype Threads<T> = Threads(cells: seq<T>, done: seq<nat>)

  predicate CanWrite<T>(s: Threads<T>, k: nat, cols: nat, m: nat) {
    k < THREAD_NUM == |s.done| && s.done[k] < cols * m && |s.cells| == cols * (5 * m)
  }

  /** One more cell by the k-th thread. */
  function Write<T>(f: Match<T>, image: seq<Byte>, cols: nat, m: nat, s: Threads<T>, k: nat): Threads<T>
    requires CanWrite(s, k, cols, m) && (4 * cols) * (8 * (5 * m)) * 3 <= |image|
  {
    EvenSplit(cols, m, k);
    SliceEnds(image, cols, m, k);
    Threads(
      s.cells[Start(cols, 40 * m, k) + s.done[k] := Cell(f, image, Source(cols, 40 * m, k), cols, m, s.done[k])],
      s.done[k := s.done[k] + 1])
  }

  /** A schedule names the thread of each step. */
  predicate CanRun<T>(f: Match<T>, image: seq<Byte>, cols: nat, m: nat, s: Threads<T>, schedule: seq<nat>)
    requires (4 * cols) * (8 * (5 * m)) * 3 <= |image|
    decreases |schedule|
  {
    schedule != [] ==>
      CanWrite(s, schedule[0], cols, m)
          && CanRun(f, image, cols, m, Write(f, image, cols, m, s, schedule[0]), schedule[1..])
  }

  function Ran<T>(f: Match<T>, image: seq<Byte>, cols: nat, m: nat, s: Threads<T>, schedule: seq<nat>): Threads<T>
    requires (4 * cols) * (8 * (5 * m)) * 3 <= |image| && CanRun(f, image, cols, m, s, schedule)
    decreases |schedule|
  {
    if schedule == [] then s else Ran(f, image, cols, m, Write(f, image, cols, m, s, schedule[0]), schedule[1..])
  }

  /** Every cell written so far is the one of the sequential pass. */
  ghost predicate Agrees<T>(f: Match<T>, image: seq<Byte>, cols: nat, m: nat, s: Threads<T>)
    requires (4 * cols) * (8 * (5 * m)) * 3 <= |image|
  {
    && |s.done| == THREAD_NUM && |s.cells| == cols * (5 * m)
    && forall p :: 0 <= p < |s.cells| ==> Settled(f, image, cols, m, s, p)
  }

  ghost predicate Settled<T>(f: Match<T>, image: seq<Byte>, cols: nat, m: nat, s: Threads<T>, p: nat)
    requires (4 * cols) * (8 * (5 * m)) * 3 <= |image| && |s.done| == THREAD_NUM && p < |s.cells| == cols * (5 * m)
  {
    Owner(cols, m, p);
    p % (cols * m) < s.done[p / (cols * m)] ==> s.cells[p] == Cell(f, image, 0, cols, 5 * m, p)
  }

  lemma Owner(cols: nat, m: nat, p: nat)
    requires p < cols * (5 * m)
    ensures cols * m > 0 && 0 <= p / (cols * m) < THREAD_NUM
  {
    assert cols * (5 * m) == 5 * (cols * m);
    NonNegative(cols, m);
  }

  lemma WriteAgrees<T>(f: Match<T>, image: seq<Byte>, cols: nat, m: nat, s: Threads<T>, k: nat)
    requires (4 * cols) * (8 * (5 * m)) * 3 <= |image| && Agrees(f, image, cols, m, s) && CanWrite(s, k, cols, m)
    ensures Agrees(f, image, cols, m, Write(f, image, cols, m, s, k))
  {
    var s', share := Write(f, image, cols, m, s, k), cols * m;
    EvenSplit(cols, m, k);
    ThreadCell(f, image, cols, m, k, s.done[k]);
    var at := cols * (m * k) + s.done[k];
    Regroup(cols, m, k);
    DivUnique(at, share, k, s.done[k]);
    hide Cell, Start, Source;
    forall p | 0 <= p < |s'.cells| ensures Settled(f, image, cols, m, s', p) {
      assert Settled(f, image, cols, m, s, p);
      Owner(cols, m, p);
      WholeShares(p, share);
    }
  }

  lemma Regroup(a: nat, b: nat, c: nat)
    ensures a * (b * c) == (a * b) * c
  {}

  lemma WholeShares(p: nat, d: nat)
    requires d > 0
    ensures p == d * (p / d) + p % d
  {}

  lemma {:induction false} RunAgrees<T>(f: Match<T>, image: seq<Byte>, cols: nat, m: nat, s: Threads<T>,
      schedule: seq<nat>)
    requires (4 * cols) * (8 * (5 * m)) * 3 <= |image| && Agrees(f, image, cols, m, s)
        && CanRun(f, image, cols, m, s, schedule)
    ensures Agrees(f, image, cols, m, Ran(f, image, cols, m, s, schedule))
    decreases |schedule|
  {
    if schedule != [] {
      WriteAgrees(f, image, cols, m, s, schedule[0]);
      RunAgrees(f, image, cols, m, Write(f, image, cols, m, s, schedule[0]), schedule[1..]);
    }
  }

  /** However the five threads interleave, once all have finished the cells are those of one sequential pass. */
  lemma ParallelIsSequential<T>(f: Match<T>, image: seq<Byte>, cols: nat, m: nat, s: Threads<T>, schedule: seq<nat>)
    requires (4 * cols) * (8 * (5 * m)) * 3 <= |image|
    requires s.done == [0, 0, 0, 0, 0] && |s.cells| == cols * (5 * m) && CanRun(f, image, cols, m, s, schedule)
    requires forall k :: 0 <= k < |Ran(f, image, cols, m, s, schedule).done| ==>
      Ran(f, image, cols, m, s, schedule).done[k] == Share(cols, 40 * m)
    ensures Ran(f, image, cols, m, s, schedule).cells == Whole(f, image, cols, 5 * m)
  {
    forall p | 0 <= p < |s.cells| ensures Settled(f, image, cols, m, s, p) {
      Owner(cols, m, p);
    }
    RunAgrees(f, image, cols, m, s, schedule);
    EvenSplit(cols, m, 0);
    var e := Ran(f, image, cols, m, s, schedule);
    hide Ran, Cell, Share;
    forall p | 0 <= p < |e.cells| ensures e.cells[p] == Cell(f, image, 0, cols, 5 * m, p) {
      assert Settled(f, image, cols, m, e, p);
      Owner(cols, m, p);
    }
  }
}
