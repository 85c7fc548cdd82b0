/** Frame buffers (src/rdp/server/display_handler.rs, lines 785-1031): compaction, vertical flip,
    half turn and padding, each a loop that fills a byte buffer, proved against what it does to
    the grid of pixels. */
module PixelGrid {
  import opened Common

  type Pixel = seq<byte>
  type Row = seq<Pixel>

  /** Equal-sized chunks laid end to end. */
  function Flatten(chunks: seq<seq<byte>>): seq<byte> {
    if chunks == [] then [] else Flatten(chunks[..|chunks| - 1]) + chunks[|chunks| - 1]
  }

  ghost predicate Sized(chunks: seq<seq<byte>>, size: nat) {
    forall k :: 0 <= k < |chunks| ==> |chunks[k]| == size
  }

  /** A grid of pixels as tightly packed bytes. */
  function Pack(grid: seq<Row>): seq<byte> {
    if grid == [] then [] else Pack(grid[..|grid| - 1]) + Flatten(grid[|grid| - 1])
  }

  /** A grid of the given dimensions. */
  ghost predicate Shaped(grid: seq<Row>, width: nat, height: nat, size: nat) {
    |grid| == height && forall y :: 0 <= y < height ==> |grid[y]| == width && Sized(grid[y], size)
  }

  /** The offset of item k among items of size n: k * n, as repeated addition, which is how the
      inductive proofs below use it. */
  function Offset(k: nat, n: nat): nat { if k == 0 then 0 else Offset(k - 1, n) + n }

  lemma {:induction false} OffsetIsProduct(k: nat, n: nat)
    ensures Offset(k, n) == k * n
  {
    if k > 0 {
      OffsetIsProduct(k - 1, n);
      assert k * n == (k - 1) * n + n;
    }
  }

  lemma {:induction false} OffsetMonotone(a: nat, b: nat, c: nat)
    requires a <= b
    ensures Offset(a, c) <= Offset(b, c)
  {
    if a < b {
      OffsetMonotone(a, b - 1, c);
    }
  }

  /** Item j of row k lies inside a block of rows. */
  lemma {:induction false} InsideBlock(rows: nat, row: nat, items: nat, size: nat, k: nat, j: nat)
    requires k < rows && j < items && Offset(items, size) <= row
    ensures Offset(k, row) + Offset(j, size) + size <= Offset(k, row) + row <= Offset(rows, row)
  {
    assert Offset(j + 1, size) == Offset(j, size) + size && Offset(k + 1, row) == Offset(k, row) + row;
    OffsetMonotone(k + 1, rows, row);
    OffsetMonotone(j + 1, items, size);
  }

  lemma {:induction false} FlattenSize(chunks: seq<seq<byte>>, size: nat)
    requires Sized(chunks, size)
    ensures |Flatten(chunks)| == Offset(|chunks|, size)
  {
    if chunks != [] {
      FlattenSize(chunks[..|chunks| - 1], size);
    }
  }

  lemma {:induction false} FlattenAppend(chunks: seq<seq<byte>>, chunk: seq<byte>)
    ensures Flatten(chunks + [chunk]) == Flatten(chunks) + chunk
  {
    assert (chunks + [chunk])[..|chunks|] == chunks;
  }

  lemma {:induction false} FlattenPrefix(chunks: seq<seq<byte>>, k: nat)
    requires k < |chunks|
    ensures Flatten(chunks[..k + 1]) == Flatten(chunks[..k]) + chunks[k]
  {
    assert chunks[..k + 1] == chunks[..k] + [chunks[k]];
    FlattenAppend(chunks[..k], chunks[k]);
  }

  /** n bytes from a position on, if there are that many. */
  function Slice(data: seq<byte>, at: nat, n: nat): seq<byte> {
    if at + n <= |data| then data[at .. at + n] else []
  }

  lemma {:induction false} SliceOfFirst(a: seq<byte>, b: seq<byte>, at: nat, n: nat)
    requires at + n <= |a|
    ensures Slice(a + b, at, n) == Slice(a, at, n)
  {
    assert (a + b)[at .. at + n] == a[at .. at + n];
  }

  lemma {:induction false} SliceOfSecond(a: seq<byte>, b: seq<byte>)
    ensures Slice(a + b, |a|, |b|) == b
  {
    assert (a + b)[|a| .. |a| + |b|] == b;
  }

  /** A chunk is found where its index says. */
  lemma {:induction false} ChunkAt(chunks: seq<seq<byte>>, size: nat, k: nat)
    requires Sized(chunks, size) && k < |chunks|
    ensures Offset(k, size) + size <= |Flatten(chunks)|
    ensures Slice(Flatten(chunks), Offset(k, size), size) == chunks[k]
  {
    var last := |chunks| - 1;
    FlattenSize(chunks[..last], size);
    OffsetMonotone(k + 1, |chunks|, size);
    if k < last {
      ChunkAt(chunks[..last], size, k);
      SliceOfFirst(Flatten(chunks[..last]), chunks[last], Offset(k, size), size);
    } else {
      SliceOfSecond(Flatten(chunks[..last]), chunks[last]);
    }
  }

  lemma {:induction false} SliceSplits(data: seq<byte>, at: nat, a: nat, b: nat)
    requires at + a + b <= |data|
    ensures Slice(data, at, a + b) == Slice(data, at, a) + Slice(data, at + a, b)
  {}

  /** Consecutive slices of some bytes, laid end to end, are those bytes. */
  lemma {:induction false} FlattenSlices(data: seq<byte>, from: nat, size: nat, chunks: seq<seq<byte>>)
    requires from + Offset(|chunks|, size) <= |data|
    requires forall k :: 0 <= k < |chunks| ==> chunks[k] == Slice(data, from + Offset(k, size), size)
    ensures Flatten(chunks) == Slice(data, from, Offset(|chunks|, size))
    decreases |chunks|
  {
    if chunks != [] {
      var last := |chunks| - 1;
      FlattenSlices(data, from, size, chunks[..last]);
      SliceSplits(data, from, Offset(last, size), size);
    }
  }

  lemma {:induction false} SliceOfSlice(data: seq<byte>, a: nat, n: nat, b: nat, m: nat)
    requires a + n <= |data| && b + m <= n
    ensures Slice(Slice(data, a, n), b, m) == Slice(data, a + b, m)
  {
    var outer := data[a .. a + n];
    var left, right := outer[b .. b + m], data[a + b .. a + b + m];
    forall k | 0 <= k < m ensures left[k] == right[k] {
      assert outer[b + k] == data[a + (b + k)];
    }
  }

  /** The buffer begins with what has been written so far. */
  ghost predicate Holds(buffer: array<byte>, written: seq<byte>)
    reads buffer
  {
    |written| <= buffer.Length && buffer[..|written|] == written
  }

  /** `copy_from_slice` into the place after what has been written so far. */
  method CopySlice(data: seq<byte>, from: nat, n: nat, buffer: array<byte>, ghost written: seq<byte>, to: nat)
    requires from + n <= |data| && to + n <= buffer.Length
    requires to == |written| && Holds(buffer, written)
    modifies buffer
    ensures Holds(buffer, written + Slice(data, from, n))
  {
    ghost var was := buffer[..];
    assert was[..to] == written;
    forall c | 0 <= c < n {
      buffer[to + c] := data[from + c];
    }
    forall k | 0 <= k < to + n ensures buffer[k] == (written + Slice(data, from, n))[k] {
      if k < to {
        assert buffer[k] == was[k] == written[k];
      } else {
        assert buffer[to + (k - to)] == data[from + (k - to)];
      }
    }
  }

  /** The same, with offsets the source computes in 32 bits. */
  method CopySlice32(data: seq<byte>, from: u32, n: u32, buffer: array<byte>, ghost written: seq<byte>, to: u32)
    requires from + n <= |data| && to + n <= buffer.Length
    requires to == |written| && Holds(buffer, written)
    modifies buffer
    ensures Holds(buffer, written + Slice(data, from, n))
  {
    CopySlice(data, from, n, buffer, written, to);
  }

  lemma {:induction false} Appended(written: seq<byte>, chunks: seq<seq<byte>>, k: nat)
    requires k < |chunks|
    ensures written + Flatten(chunks[..k + 1]) == written + Flatten(chunks[..k]) + chunks[k]
    ensures |Flatten(chunks[..k + 1])| == |Flatten(chunks[..k])| + |chunks[k]|
  {
    FlattenPrefix(chunks, k);
  }

  lemma {:induction false} PackPrefix(grid: seq<Row>, y: nat)
    requires y < |grid|
    ensures Pack(grid[..y + 1]) == Pack(grid[..y]) + Flatten(grid[y])
  {
    assert grid[..y + 1][..y] == grid[..y];
  }

  /** Every row has the same number of bytes. */
  ghost predicate RowsSized(grid: seq<Row>, row: nat) {
    forall y :: 0 <= y < |grid| ==> |Flatten(grid[y])| == row
  }

  lemma {:induction false} ShapedRows(grid: seq<Row>, width: nat, height: nat, size: nat)
    requires Shaped(grid, width, height, size)
    ensures RowsSized(grid, Offset(width, size))
  {
    forall y | 0 <= y < |grid| ensures |Flatten(grid[y])| == Offset(width, size) {
      FlattenSize(grid[y], size);
    }
  }

  lemma {:induction false} PackSize(grid: seq<Row>, row: nat)
    requires RowsSized(grid, row)
    ensures |Pack(grid)| == Offset(|grid|, row)
  {
    if grid != [] {
      PackSize(grid[..|grid| - 1], row);
    }
  }

  /** A row is found where its index says. */
  lemma {:induction false} RowAt(grid: seq<Row>, row: nat, y: nat)
    requires RowsSized(grid, row) && y < |grid|
    ensures Offset(y, row) + row <= |Pack(grid)|
    ensures Slice(Pack(grid), Offset(y, row), row) == Flatten(grid[y])
  {
    var last := |grid| - 1;
    PackSize(grid[..last], row);
    OffsetMonotone(y + 1, |grid|, row);
    if y < last {
      RowAt(grid[..last], row, y);
      SliceOfFirst(Pack(grid[..last]), Flatten(grid[last]), Offset(y, row), row);
    } else {
      SliceOfSecond(Pack(grid[..last]), Flatten(grid[last]));
    }
  }

  /** Every row of the grid is the corresponding stretch of the data. */
  ghost predicate RowsAreSlices(data: seq<byte>, row: nat, grid: seq<Row>) {
    forall y :: 0 <= y < |grid| ==> Flatten(grid[y]) == Slice(data, Offset(y, row), row)
  }

  lemma {:induction false} PackSlices(data: seq<byte>, row: nat, grid: seq<Row>)
    requires Offset(|grid|, row) <= |data| && RowsAreSlices(data, row, grid)
    ensures Pack(grid) == Slice(data, 0, Offset(|grid|, row))
    decreases |grid|
  {
    if grid != [] {
      var last := |grid| - 1;
      var before := grid[..last];
      assert RowsAreSlices(data, row, before);
      PackSlices(data, row, before);
      assert Pack(grid) == Pack(before) + Slice(data, Offset(last, row), row);
      SliceSplits(data, 0, Offset(last, row), row);
    }
  }

  /** The bytes of pixel (x, y) of a packed grid. */
  lemma {:induction false} PixelAt(grid: seq<Row>, width: nat, height: nat, size: nat, x: nat, y: nat)
    requires Shaped(grid, width, height, size) && x < width && y < height
    ensures Slice(Pack(grid), Offset(y, Offset(width, size)) + Offset(x, size), size) == grid[y][x]
  {
    var row := Offset(width, size);
    ShapedRows(grid, width, height, size);
    RowAt(grid, row, y);
    ChunkAt(grid[y], size, x);
    SliceOfSlice(Pack(grid), Offset(y, row), row, Offset(x, size), size);
  }
}

module Frames {
  import opened Common
  import opened PixelGrid

  datatype PixelFormat = BGRA | BGRx | RGBA | RGBx | RGB | BGR | GRAY8 | NV12 | I420 | YUY2

  function BytesPerPixel(format: PixelFormat): (n: nat)
    ensures 1 <= n <= 4
  {
    match format
    case BGRA | BGRx | RGBA | RGBx => 4
    case RGB | BGR => 3
    case GRAY8 | NV12 | I420 => 1
    case YUY2 => 2
  }

  datatype Region = Region(x: u32, y: u32, width: u32, height: u32)

  datatype VideoFrame = VideoFrame(
    width: u32, height: u32, stride: u32, format: PixelFormat, data: seq<byte>, damage: seq<Region>)

  // ---- Geometry policy ---------------------------------------------------------------------------

  datatype Size = Size(width: u16, height: u16)

  /** `allowed` is None when no resolution list is configured. */
  datatype DisplayPolicy = DisplayPolicy(allowResize: bool, allowed: Option<set<Size>>)

  const MAX_DESKTOP_AREA: nat := 3840 * 2400

  predicate GeometryAccepted(policy: DisplayPolicy, requested: Size, fixed: Option<Size>) {
    && requested.width != 0 && requested.height != 0
    && requested.width * requested.height <= MAX_DESKTOP_AREA
    && (policy.allowResize || fixed == Some(requested))
    && (policy.allowed.Some? ==> requested in policy.allowed.value)
  }

  /** A frame that passed the geometry gate: its size is one the policy accepted. */
  predicate Gated(f: VideoFrame) {
    1 <= f.width <= 0xffff && 1 <= f.height <= 0xffff && f.width * f.height <= MAX_DESKTOP_AREA
  }

  lemma {:induction false} AcceptedIsGated(policy: DisplayPolicy, requested: Size, fixed: Option<Size>, f: VideoFrame)
    requires GeometryAccepted(policy, requested, fixed)
    requires f.width == requested.width && f.height == requested.height
    ensures Gated(f)
  {}

  // ---- The pixels of a frame -----------------------------------------------------------------------

  function RowSize(f: VideoFrame): nat { Offset(f.width, BytesPerPixel(f.format)) }

  /** The data reaches the end of the last row. */
  predicate Complete(f: VideoFrame) {
    f.height > 0 && Enough(f)
  }

  /** The check of the source, whose height minus one saturates at zero. */
  predicate Enough(f: VideoFrame) {
    Offset(if f.height == 0 then 0 else f.height - 1, f.stride) + RowSize(f) <= |f.data|
  }

  function PixelStart(f: VideoFrame, x: nat, y: nat): nat {
    Offset(y, f.stride) + Offset(x, BytesPerPixel(f.format))
  }

  /** The bytes of pixel (x, y). */
  function PixelOf(f: VideoFrame, x: nat, y: nat): Pixel {
    Slice(f.data, PixelStart(f, x, y), BytesPerPixel(f.format))
  }

  lemma {:induction false} PixelInside(f: VideoFrame, x: nat, y: nat)
    requires Complete(f) && x < f.width && y < f.height
    ensures PixelStart(f, x, y) + BytesPerPixel(f.format) <= Offset(y, f.stride) + RowSize(f) <= |f.data|
  {
    OffsetMonotone(y, f.height - 1, f.stride);
    OffsetMonotone(x + 1, f.width, BytesPerPixel(f.format));
  }

  /** Where the loops fetch pixel (x, y) of the result. */
  datatype Transform = Upright | Flip | HalfTurn

  function SourceX(t: Transform, width: nat, x: nat): nat {
    if t == HalfTurn && x < width then width - 1 - x else x
  }

  function SourceY(t: Transform, height: nat, y: nat): nat {
    if t != Upright && y < height then height - 1 - y else y
  }

  function TransformedRow(f: VideoFrame, t: Transform, y: nat): Row {
    seq(f.width, x requires 0 <= x => PixelOf(f, SourceX(t, f.width, x), SourceY(t, f.height, y)))
  }

  /** The picture as a grid of pixels, transformed. */
  function TransformedGrid(f: VideoFrame, t: Transform): seq<Row> {
    seq(f.height, y requires 0 <= y => TransformedRow(f, t, y))
  }

  function Grid(f: VideoFrame): seq<Row> { TransformedGrid(f, Upright) }

  /** Row y of the transformed picture, pixel by pixel. */
  ghost predicate IsRow(f: VideoFrame, t: Transform, y: nat, row: Row) {
    && |row| == f.width
    && forall x :: 0 <= x < |row| ==> row[x] == PixelOf(f, SourceX(t, f.width, x), SourceY(t, f.height, y))
  }

  ghost predicate IsGrid(f: VideoFrame, t: Transform, grid: seq<Row>) {
    |grid| == f.height && forall y :: 0 <= y < |grid| ==> IsRow(f, t, y, grid[y])
  }

  lemma {:induction false} GridIsGrid(f: VideoFrame, t: Transform)
    ensures IsGrid(f, t, TransformedGrid(f, t))
  {}

  lemma {:induction false} GridUnique(f: VideoFrame, t: Transform, a: seq<Row>, b: seq<Row>)
    requires IsGrid(f, t, a) && IsGrid(f, t, b)
    ensures a == b
  {
    forall y | 0 <= y < f.height ensures a[y] == b[y] {
      assert IsRow(f, t, y, a[y]) && IsRow(f, t, y, b[y]);
    }
  }

  lemma {:induction false} PixelSized(f: VideoFrame, x: nat, y: nat)
    requires Complete(f) && x < f.width && y < f.height
    ensures |PixelOf(f, x, y)| == BytesPerPixel(f.format)
  {
    PixelInside(f, x, y);
  }

  lemma {:induction false} GridShaped(f: VideoFrame, t: Transform, grid: seq<Row>)
    requires Complete(f) && IsGrid(f, t, grid)
    ensures Shaped(grid, f.width, f.height, BytesPerPixel(f.format))
  {
    forall y, x | 0 <= y < f.height && 0 <= x < |grid[y]|
      ensures |grid[y]| == f.width && |grid[y][x]| == BytesPerPixel(f.format)
    {
      assert IsRow(f, t, y, grid[y]);
      PixelSized(f, SourceX(t, f.width, x), SourceY(t, f.height, y));
    }
    forall y | 0 <= y < f.height ensures |grid[y]| == f.width {
      assert IsRow(f, t, y, grid[y]);
    }
  }

  /** The bytes of one row are the bytes of its pixels. */
  lemma {:induction false} RowIsSlice(f: VideoFrame, y: nat, row: Row)
    requires Complete(f) && y < f.height && IsRow(f, Upright, y, row)
    ensures Offset(y, f.stride) + RowSize(f) <= |f.data|
    ensures Flatten(row) == Slice(f.data, Offset(y, f.stride), RowSize(f))
  {
    OffsetMonotone(y, f.height - 1, f.stride);
    FlattenSlices(f.data, Offset(y, f.stride), BytesPerPixel(f.format), row);
  }

  // ---- Flip and half turn -----------------------------------------------------------------------------

  method CopyPixels(f: VideoFrame, t: Transform, y: nat, buffer: array<byte>, ghost written: seq<byte>, start: nat,
                    ghost row: Row)
    requires Complete(f) && y < f.height && IsRow(f, t, y, row)
    requires Holds(buffer, written) && start == |written| && start + RowSize(f) <= buffer.Length
    modifies buffer
    ensures Holds(buffer, written + Flatten(row))
  {
    var size := BytesPerPixel(f.format);
    assert written + Flatten(row[..0]) == written;
    for x := 0 to f.width
      invariant |Flatten(row[..x])| == Offset(x, size) && start + Offset(x, size) <= buffer.Length
      invariant Holds(buffer, written + Flatten(row[..x]))
    {
      var sx, sy := SourceX(t, f.width, x), SourceY(t, f.height, y);
      OffsetMonotone(x + 1, f.width, size);
      PixelInside(f, sx, sy);
      CopySlice(f.data, PixelStart(f, sx, sy), size, buffer, written + Flatten(row[..x]), start + Offset(x, size));
      Appended(written, row, x);
    }
    assert row[..f.width] == row;
  }

  lemma {:induction false} RowBytesFit(f: VideoFrame, t: Transform, y: nat, row: Row)
    requires Complete(f) && y < f.height && IsRow(f, t, y, row)
    ensures |Flatten(row)| == RowSize(f)
  {
    forall x | 0 <= x < f.width ensures |row[x]| == BytesPerPixel(f.format) {
      PixelSized(f, SourceX(t, f.width, x), SourceY(t, f.height, y));
    }
    FlattenSize(row, BytesPerPixel(f.format));
  }

  method CopyRows(f: VideoFrame, t: Transform, ghost grid: seq<Row>) returns (data: seq<byte>)
    requires Complete(f) && IsGrid(f, t, grid)
    ensures data == Pack(grid)
  {
    var row := RowSize(f);
    var buffer := new byte[Offset(f.height, row)];
    for y := 0 to f.height
      invariant Offset(y, row) <= buffer.Length && |Pack(grid[..y])| == Offset(y, row)
      invariant Holds(buffer, Pack(grid[..y]))
    {
      OffsetMonotone(y + 1, f.height, row);
      CopyPixels(f, t, y, buffer, Pack(grid[..y]), Offset(y, row), grid[y]);
      PackPrefix(grid, y);
      RowBytesFit(f, t, y, grid[y]);
    }
    assert grid[..f.height] == grid;
    data := buffer[..];
  }

  /** The frame whose pixels are those of f at their transformed places, tightly packed. */
  function Transformed(f: VideoFrame, t: Transform): VideoFrame {
    if f.width == 0 || !Complete(f) then f
    else f.(stride := RowSize(f) % 0x1_0000_0000, data := Pack(TransformedGrid(f, t)), damage := [])
  }

  /** `copy_frame_with_transform`: the result is tightly packed and holds each source pixel at
      its transformed place; a frame without pixels or with too little data is returned as is. */
  method CopyFrameWithTransform(f: VideoFrame, t: Transform) returns (out: VideoFrame)
    ensures out == Transformed(f, t)
  {
    if f.width == 0 || f.height == 0 {
      return f;
    }
    if |f.data| < Offset(f.height - 1, f.stride) + RowSize(f) {
      return f;
    }
    GridIsGrid(f, t);
    var data := CopyRows(f, t, TransformedGrid(f, t));
    out := f.(stride := RowSize(f) % 0x1_0000_0000, data := data, damage := []);
  }

  // ---- Compaction ----------------------------------------------------------------------------------------

  /** `row_bytes`, which saturates. */
  function RowBytes(f: VideoFrame): u32 {
    if RowSize(f) < 0x1_0000_0000 then RowSize(f) else 0xffff_ffff
  }

  function LastRowStart(f: VideoFrame): nat { Offset(if f.height == 0 then 0 else f.height - 1, f.stride) }

  /** The frame has stride padding, and enough data to copy its rows. */
  predicate Copies(f: VideoFrame) {
    f.stride != RowBytes(f) && LastRowStart(f) + RowBytes(f) <= |f.data|
  }

  /** Every offset of the row copies, which the source computes in 32 bits, fits. */
  predicate Fits32(f: VideoFrame) {
    RowSize(f) < 0x1_0000_0000 && Offset(f.height, RowSize(f)) < 0x1_0000_0000 && LastRowStart(f) < 0x1_0000_0000
  }

  /** So it does for a frame that passed the gate, with less than 4 GiB of data. */
  lemma {:induction false} GatedFits(f: VideoFrame)
    requires Gated(f) && |f.data| < 0x1_0000_0000
    ensures Copies(f) ==> Fits32(f)
  {
    var size, area := BytesPerPixel(f.format), f.width * f.height;
    BufferSize(f.width, f.height, size);
    BufferSize(f.width, 1, size);
    ProductBound(area, size, 4);
    ProductBound(f.width, size, 4);
  }

  lemma {:induction false} BufferSize(width: nat, height: nat, size: nat)
    ensures Offset(height, Offset(width, size)) == (width * height) * size
  {
    OffsetIsProduct(height, Offset(width, size));
    OffsetIsProduct(width, size);
    assert height * (width * size) == (width * height) * size;
  }

  lemma {:induction false} ProductBound(n: nat, k: nat, bound: nat)
    requires k <= bound
    ensures n * k <= n * bound && k * n <= bound * n
  {}

  /** The frame without stride padding. */
  function Compacted(f: VideoFrame): VideoFrame
    requires Copies(f) ==> RowSize(f) < 0x1_0000_0000
  {
    if Copies(f) then Packed(f, Grid(f)) else f
  }

  /** The packed frame that a grid of this frame's shape makes. */
  function Packed(f: VideoFrame, grid: seq<Row>): VideoFrame
    requires RowSize(f) < 0x1_0000_0000
  {
    f.(stride := RowSize(f), data := Pack(grid), damage := [])
  }

  /** 32-bit arithmetic that wraps around. */
  function Wrap32(n: nat): (r: u32)
    ensures r <= n && (n < 0x1_0000_0000 ==> r == n)
  {
    n % 0x1_0000_0000
  }

  /** Row y as it is copied, from an offset computed in 32 bits. */
  function CopiedRow(f: VideoFrame, y: nat): seq<byte> {
    Slice(f.data, Wrap32(Offset(y, f.stride)), RowBytes(f))
  }

  lemma {:induction false} RowInside(f: VideoFrame, y: nat)
    requires Copies(f) && y < f.height
    ensures Wrap32(Offset(y, f.stride)) + RowBytes(f) <= |f.data| && |CopiedRow(f, y)| == RowBytes(f)
  {
    OffsetMonotone(y, f.height - 1, f.stride);
  }

  function CopiedRows(f: VideoFrame, n: nat): seq<byte> {
    if n == 0 then [] else CopiedRows(f, n - 1) + CopiedRow(f, n - 1)
  }

  /** What `compact_frame` does with 32-bit offsets that wrap around: nothing to a frame that is tight
      or too short; it panics if the packed picture has 4 GiB or more. */
  function CompactResult(f: VideoFrame): Option<VideoFrame> {
    if !Copies(f) then Some(f)
    else if Offset(f.height, RowBytes(f)) >= 0x1_0000_0000 then None
    else Some(f.(stride := RowBytes(f), data := CopiedRows(f, f.height), damage := []))
  }

  /** The copying loop; None is a panic, when a slice would leave the buffer. */
  method CopyWrapped(f: VideoFrame, row: u32) returns (data: Option<seq<byte>>)
    requires Copies(f) && row == RowBytes(f)
    ensures data == if Offset(f.height, row) >= 0x1_0000_0000 then None else Some(CopiedRows(f, f.height))
  {
    var length := Wrap32(Offset(f.height, row));
    var buffer := new byte[length];
    for y := 0 to f.height
      invariant Offset(y, row) == |CopiedRows(f, y)| <= buffer.Length && Holds(buffer, CopiedRows(f, y))
    {
      RowInside(f, y);
      OffsetMonotone(y + 1, f.height, row);
      var src, dst := Wrap32(Offset(y, f.stride)), Wrap32(Offset(y, row));
      if dst + row > buffer.Length {
        return None;
      }
      CopySlice32(f.data, src, row, buffer, CopiedRows(f, y), dst);
      assert CopiedRows(f, y + 1) == CopiedRows(f, y) + CopiedRow(f, y);
    }
    assert Offset(f.height, row) == length && buffer[..] == buffer[..|CopiedRows(f, f.height)|];
    return Some(buffer[..]);
  }

  /** `compact_frame` */
  method CompactFrame(f: VideoFrame) returns (out: Option<VideoFrame>)
    ensures out == CompactResult(f)
  {
    var row := RowBytes(f);
    if f.stride == row {
      return Some(f);
    }
    if |f.data| < Offset(if f.height == 0 then 0 else f.height - 1, f.stride) + row {
      return Some(f);
    }
    var data := CopyWrapped(f, row);
    out := if data.None? then None else Some(f.(stride := row, data := data.value, damage := []));
  }

  /** Where every offset fits, that is the frame without its stride padding and nothing else changed. */
  lemma {:induction false} CompactsToGrid(f: VideoFrame)
    requires Copies(f) ==> Fits32(f)
    ensures CompactResult(f) == Some(Compacted(f))
  {
    if Copies(f) {
      GridIsGrid(f, Upright);
      CopiedIsPacked(f, f.height, Grid(f));
      assert Grid(f)[..f.height] == Grid(f);
    }
  }

  lemma {:induction false} CopiedIsPacked(f: VideoFrame, n: nat, grid: seq<Row>)
    requires Copies(f) && Fits32(f) && n <= f.height && IsGrid(f, Upright, grid)
    ensures CopiedRows(f, n) == Pack(grid[..n])
  {
    if n > 0 {
      CopiedIsPacked(f, n - 1, grid);
      CopiedIsRow(f, n - 1, grid[n - 1]);
      PackPrefix(grid, n - 1);
    }
  }

  lemma {:induction false} CopiedIsRow(f: VideoFrame, y: nat, row: Row)
    requires Copies(f) && Fits32(f) && y < f.height && IsRow(f, Upright, y, row)
    ensures CopiedRow(f, y) == Flatten(row)
  {
    OffsetMonotone(y, f.height - 1, f.stride);
    RowIsSlice(f, y, row);
  }

  // ---- Twice is compaction ---------------------------------------------------------------------------------

  lemma {:induction false} GridOfPacked(f: VideoFrame, grid: seq<Row>)
    requires RowSize(f) < 0x1_0000_0000 && f.height > 0
    requires Shaped(grid, f.width, f.height, BytesPerPixel(f.format))
    ensures Complete(Packed(f, grid)) && IsGrid(Packed(f, grid), Upright, grid)
  {
    var p := Packed(f, grid);
    ShapedRows(grid, f.width, f.height, BytesPerPixel(f.format));
    PackSize(grid, RowSize(f));
    forall y | 0 <= y < f.height ensures IsRow(p, Upright, y, grid[y]) {
      forall x | 0 <= x < f.width ensures grid[y][x] == PixelOf(p, x, y) {
        PixelAt(grid, f.width, f.height, BytesPerPixel(f.format), x, y);
      }
    }
  }

  /** Transforming the packed result again undoes the transformation. */
  lemma {:induction false} TwiceUpright(f: VideoFrame, t: Transform, once: seq<Row>, grid: seq<Row>)
    requires RowSize(f) < 0x1_0000_0000 && Complete(f)
    requires IsGrid(f, t, once) && IsGrid(f, Upright, grid)
    ensures Complete(Packed(f, once)) && IsGrid(Packed(f, once), t, grid)
  {
    GridShaped(f, t, once);
    GridOfPacked(f, once);
    forall y | 0 <= y < f.height ensures IsRow(Packed(f, once), t, y, grid[y]) {
      TwiceRow(f, Packed(f, once), t, y, once[SourceY(t, f.height, y)], grid[y]);
    }
  }

  lemma {:induction false} TwiceRow(f: VideoFrame, p: VideoFrame, t: Transform, y: nat, once: Row, row: Row)
    requires y < f.height && IsRow(f, Upright, y, row) && p.width == f.width && p.height == f.height
    requires IsRow(f, t, SourceY(t, f.height, y), once) && IsRow(p, Upright, SourceY(t, f.height, y), once)
    ensures IsRow(p, t, y, row)
  {
    forall x | 0 <= x < f.width
      ensures row[x] == PixelOf(p, SourceX(t, f.width, x), SourceY(t, f.height, y))
    {
      assert once[SourceX(t, f.width, x)] == PixelOf(f, x, y);
    }
  }

  /** Flipping twice, or turning twice, gives the packed picture. Against compaction, on a
      complete frame: they agree exactly when the frame had stride padding, or was already
      tightly packed with neither trailing bytes nor damage regions. */
  lemma {:induction false} TwiceIsCompact(f: VideoFrame, t: Transform)
    requires f.width > 0 && RowSize(f) < 0x1_0000_0000 && Complete(f)
    ensures var twice := Transformed(Transformed(f, t), t);
      && twice == Packed(f, Grid(f))
      && (twice == Compacted(f) <==>
            f.stride != RowSize(f) || (|f.data| == Offset(f.height, RowSize(f)) && f.damage == []))
  {
    TwicePacked(f, t);
    if f.stride == RowSize(f) {
      GridIsGrid(f, Upright);
      PackOfTight(f, Grid(f));
    }
  }

  lemma {:induction false} TwicePacked(f: VideoFrame, t: Transform)
    requires f.width > 0 && RowSize(f) < 0x1_0000_0000 && Complete(f)
    ensures Transformed(Transformed(f, t), t) == Packed(f, Grid(f))
  {
    var once := Packed(f, TransformedGrid(f, t));
    TwiceGrid(f, t);
    assert Transformed(f, t) == once;
    assert Transformed(once, t) == Packed(f, Grid(f));
  }

  /** Where each pixel of a transformed frame comes from: flipped, the same column and the row as far
      from the bottom; turned, that row and the column as far from the right. */
  lemma {:induction false} TransformedPixel(f: VideoFrame, t: Transform, x: nat, y: nat)
    requires Complete(f) && RowSize(f) < 0x1_0000_0000 && x < f.width && y < f.height
    ensures var out, size := Transformed(f, t), BytesPerPixel(f.format);
      var sx := if t.HalfTurn? then f.width - 1 - x else x;
      var sy := if t.Upright? then y else f.height - 1 - y;
      && out == f.(stride := RowSize(f), data := out.data, damage := []) && |out.data| == Offset(f.height, RowSize(f))
      && Slice(out.data, Offset(y, RowSize(f)) + Offset(x, size), size)
           == Slice(f.data, Offset(sy, f.stride) + Offset(sx, size), size)
  {
    GridIsGrid(f, t);
    GridShaped(f, t, TransformedGrid(f, t));
    PixelOfPacked(f, t, x, y, TransformedGrid(f, t));
    TransformedIs(f, t, TransformedGrid(f, t));
  }

  lemma {:induction false} TransformedIs(f: VideoFrame, t: Transform, grid: seq<Row>)
    requires Complete(f) && f.width > 0 && RowSize(f) < 0x1_0000_0000 && grid == TransformedGrid(f, t)
    ensures Transformed(f, t) == f.(stride := RowSize(f), data := Pack(grid), damage := [])
  {}

  lemma {:induction false} PixelOfPacked(f: VideoFrame, t: Transform, x: nat, y: nat, grid: seq<Row>)
    requires x < f.width && y < f.height && IsGrid(f, t, grid)
    requires Shaped(grid, f.width, f.height, BytesPerPixel(f.format))
    ensures var size := BytesPerPixel(f.format);
      && |Pack(grid)| == Offset(f.height, RowSize(f))
      && Slice(Pack(grid), Offset(y, RowSize(f)) + Offset(x, size), size)
           == Slice(f.data, Offset(if t.Upright? then y else f.height - 1 - y, f.stride)
                              + Offset(if t.HalfTurn? then f.width - 1 - x else x, size), size)
  {
    var size := BytesPerPixel(f.format);
    assert |Pack(grid)| == Offset(f.height, RowSize(f)) by {
      ShapedRows(grid, f.width, f.height, size);
      PackSize(grid, RowSize(f));
    }
    assert Slice(Pack(grid), Offset(y, RowSize(f)) + Offset(x, size), size) == grid[y][x] by {
      PixelAt(grid, f.width, f.height, size, x, y);
    }
    PixelOfGrid(f, t, x, y, grid);
  }

  lemma {:induction false} PixelOfGrid(f: VideoFrame, t: Transform, x: nat, y: nat, grid: seq<Row>)
    requires x < f.width && y < f.height && IsGrid(f, t, grid)
    ensures |grid| == f.height && |grid[y]| == f.width
    ensures grid[y][x]
      == Slice(f.data, Offset(if t.Upright? then y else f.height - 1 - y, f.stride)
                         + Offset(if t.HalfTurn? then f.width - 1 - x else x, BytesPerPixel(f.format)),
               BytesPerPixel(f.format))
  {
    assert IsRow(f, t, y, grid[y]);
  }

  /** A frame without pixels, or whose data ends before its last row does, is not transformed. */
  lemma {:induction false} NotTransformed(f: VideoFrame, t: Transform)
    requires f.width == 0 || f.height == 0 || |f.data| < Offset(f.height - 1, f.stride) + RowSize(f)
    ensures Transformed(f, t) == f
  {}

  /** Each pixel of a compacted frame is the one that was there. */
  lemma {:induction false} CompactedPixel(f: VideoFrame, x: nat, y: nat)
    requires Copies(f) && Fits32(f) && x < f.width && y < f.height
    ensures var size := BytesPerPixel(f.format);
      CompactResult(f).Some? && var out := CompactResult(f).value;
      && out == f.(stride := RowSize(f), data := out.data, damage := []) && |out.data| == Offset(f.height, RowSize(f))
      && Slice(out.data, Offset(y, RowSize(f)) + Offset(x, size), size)
           == Slice(f.data, Offset(y, f.stride) + Offset(x, size), size)
  {
    CompactsToGrid(f);
    var grid := Grid(f);
    GridIsGrid(f, Upright);
    GridShaped(f, Upright, grid);
    PixelOfPacked(f, Upright, x, y, grid);
  }

  /** The exception does occur: a tight frame keeps its damage region when it is compacted, and loses
      it when it is flipped twice. */
  lemma {:induction false} TightFrameKeepsDamage(t: Transform)
    ensures var f := VideoFrame(1, 1, 4, BGRA, [0, 0, 0, 0], [Region(0, 0, 1, 1)]);
      CompactResult(f) == Some(f) && Transformed(Transformed(f, t), t) != f
  {
    var f := VideoFrame(1, 1, 4, BGRA, [0, 0, 0, 0], [Region(0, 0, 1, 1)]);
    assert Offset(1, 4) == Offset(0, 4) + 4;
    assert RowSize(f) == 4 && Complete(f) && !Copies(f);
    TwiceIsCompact(f, t);
  }

  lemma {:induction false} TwiceGrid(f: VideoFrame, t: Transform)
    requires RowSize(f) < 0x1_0000_0000 && Complete(f)
    ensures var once := Packed(f, TransformedGrid(f, t));
      Complete(once) && TransformedGrid(once, t) == Grid(f)
  {
    var once := Packed(f, TransformedGrid(f, t));
    GridIsGrid(f, t);
    GridIsGrid(f, Upright);
    TwiceUpright(f, t, TransformedGrid(f, t), Grid(f));
    GridIsGrid(once, t);
    GridUnique(once, t, TransformedGrid(once, t), Grid(f));
  }

  lemma {:induction false} PackOfTight(f: VideoFrame, grid: seq<Row>)
    requires Complete(f) && f.stride == RowSize(f) && IsGrid(f, Upright, grid)
    ensures Offset(f.height, RowSize(f)) <= |f.data| && Pack(grid) == Slice(f.data, 0, Offset(f.height, RowSize(f)))
  {
    forall y | 0 <= y < f.height
      ensures Flatten(grid[y]) == Slice(f.data, Offset(y, RowSize(f)), RowSize(f))
    {
      RowIsSlice(f, y, grid[y]);
    }
    PackSlices(f.data, RowSize(f), grid);
  }

  // ---- Padding to aligned sizes ------------------------------------------------------------------------------

  function Clamp(k: nat, n: nat): nat { if k < n then k else if n == 0 then 0 else n - 1 }

  /** Pixel (x, y) of the padded picture: the nearest pixel of the source. */
  function ClampedPixel(data: seq<byte>, width: nat, height: nat, x: nat, y: nat): Pixel {
    Slice(data, Offset(Clamp(y, height), Offset(width, 4)) + Offset(Clamp(x, width), 4), 4)
  }

  ghost predicate IsPaddedRow(data: seq<byte>, width: nat, height: nat, aligned: nat, y: nat, row: Row) {
    |row| == aligned && forall x :: 0 <= x < |row| ==> row[x] == ClampedPixel(data, width, height, x, y)
  }

  ghost predicate IsPadded(data: seq<byte>, width: nat, height: nat, alignedWidth: nat, alignedHeight: nat,
                           grid: seq<Row>)
  {
    && |grid| == alignedHeight
    && forall y :: 0 <= y < |grid| ==> IsPaddedRow(data, width, height, alignedWidth, y, grid[y])
  }

  function PaddedGrid(data: seq<byte>, width: nat, height: nat, alignedWidth: nat, alignedHeight: nat): (grid: seq<Row>)
    ensures IsPadded(data, width, height, alignedWidth, alignedHeight, grid)
  {
    seq(alignedHeight, y requires 0 <= y =>
      seq(alignedWidth, x requires 0 <= x => ClampedPixel(data, width, height, x, y)))
  }

  /** For every geometry the policy accepts, and aligned sizes at most 15 larger, the buffer and
      so every offset into it fits in 32 bits. */
  lemma {:induction false} PaddingFits(width: nat, height: nat, alignedWidth: nat, alignedHeight: nat)
    requires 1 <= width <= 0xffff && 1 <= height <= 0xffff && width * height <= MAX_DESKTOP_AREA
    requires width <= alignedWidth <= width + 15 && height <= alignedHeight <= height + 15
    ensures Offset(alignedHeight, Offset(alignedWidth, 4)) < 0x1_0000_0000
    ensures Offset(height, Offset(width, 4)) < 0x1_0000_0000
  {
    BufferSize(alignedWidth, alignedHeight, 4);
    BufferSize(width, height, 4);
    AlignedArea(width, height, alignedWidth, alignedHeight);
  }

  lemma {:induction false} AlignedArea(w: nat, h: nat, aw: nat, ah: nat)
    requires w <= 0xffff && h <= 0xffff && w * h <= MAX_DESKTOP_AREA
    requires w <= aw <= w + 15 && h <= ah <= h + 15
    ensures (aw * ah) * 4 < 0x1_0000_0000 && (w * h) * 4 < 0x1_0000_0000
  {
    AreaGrowsLittle(w, h, aw, ah);
  }

  lemma {:induction false} AreaGrowsLittle(w: nat, h: nat, aw: nat, ah: nat)
    requires w <= aw <= w + 15 && h <= ah <= h + 15
    ensures aw * ah <= w * h + 15 * w + 15 * h + 225
  {
    var a, b := aw - w, ah - h;
    assert aw * ah == w * h + w * b + a * h + a * b;
    ProductBound(w, b, 15);
    ProductBound(h, a, 15);
    ProductBound(a, b, 15);
  }

  /** The source row itself. */
  method PadRowStart(data: seq<byte>, width: nat, height: nat, y: nat,
                     buffer: array<byte>, ghost written: seq<byte>, start: nat, ghost pixels: Row)
    requires y < height && Offset(height, Offset(width, 4)) <= |data|
    requires Offset(height, Offset(width, 4)) < 0x1_0000_0000
    requires IsPaddedRow(data, width, height, width, y, pixels)
    requires Holds(buffer, written) && start == |written| && start + Offset(width, 4) <= buffer.Length < 0x1_0000_0000
    modifies buffer
    ensures Holds(buffer, written + Flatten(pixels)) && |Flatten(pixels)| == Offset(width, 4)
  {
    var src := Offset(width, 4);
    OffsetMonotone(y + 1, height, src);
    FlattenSlices(data, Offset(y, src), 4, pixels);
    CopySlice32(data, Offset(y, src), src, buffer, written, start);
  }

  /** Its last pixel, repeated up to the aligned width. */
  method PadRowEnd(data: seq<byte>, last: nat, width: nat, alignedWidth: nat,
                   buffer: array<byte>, ghost written: seq<byte>, start: nat, ghost row: Row)
    requires width <= alignedWidth == |row| && last + 4 <= |data| && last < 0x1_0000_0000
    requires forall x :: width <= x < alignedWidth ==> row[x] == Slice(data, last, 4)
    requires start == |written| && start + Offset(alignedWidth, 4) <= buffer.Length < 0x1_0000_0000
    requires Holds(buffer, written + Flatten(row[..width])) && |Flatten(row[..width])| == Offset(width, 4)
    modifies buffer
    ensures Holds(buffer, written + Flatten(row)) && |Flatten(row)| == Offset(alignedWidth, 4)
  {
    OffsetMonotone(width, alignedWidth, 4);
    for x := width to alignedWidth
      invariant |Flatten(row[..x])| == Offset(x, 4) && start + Offset(x, 4) <= buffer.Length
      invariant Holds(buffer, written + Flatten(row[..x]))
    {
      OffsetMonotone(x + 1, alignedWidth, 4);
      CopySlice32(data, last, 4, buffer, written + Flatten(row[..x]), start + Offset(x, 4));
      Appended(written, row, x);
    }
    assert row[..alignedWidth] == row;
  }

  method PadRow(data: seq<byte>, width: nat, height: nat, alignedWidth: nat, y: nat,
                buffer: array<byte>, ghost written: seq<byte>, start: nat, ghost row: Row)
    requires 0 < width <= alignedWidth && y < height
    requires Offset(height, Offset(width, 4)) <= |data| && Offset(height, Offset(width, 4)) < 0x1_0000_0000
    requires IsPaddedRow(data, width, height, alignedWidth, y, row)
    requires Holds(buffer, written) && start == |written|
    requires start + Offset(alignedWidth, 4) <= buffer.Length < 0x1_0000_0000
    modifies buffer
    ensures Holds(buffer, written + Flatten(row)) && |Flatten(row)| == Offset(alignedWidth, 4)
  {
    OffsetMonotone(width, alignedWidth, 4);
    PadRowStart(data, width, height, y, buffer, written, start, row[..width]);
    OffsetMonotone(y + 1, height, Offset(width, 4));
    var last := Offset(y, Offset(width, 4)) + (Offset(width, 4) - 4);
    PadRowEnd(data, last, width, alignedWidth, buffer, written, start, row);
  }

  method RepeatLastRow(lastRow: seq<byte>, from: nat, to: nat, buffer: array<byte>, ghost grid: seq<Row>)
    requires 0 < from <= to == |grid| && buffer.Length == Offset(to, |lastRow|) < 0x1_0000_0000
    requires forall y :: from <= y < to ==> Flatten(grid[y]) == lastRow
    requires Holds(buffer, Pack(grid[..from])) && |Pack(grid[..from])| == Offset(from, |lastRow|)
    modifies buffer
    ensures Holds(buffer, Pack(grid)) && |Pack(grid)| == buffer.Length
  {
    for y := from to to
      invariant Offset(y, |lastRow|) <= buffer.Length && |Pack(grid[..y])| == Offset(y, |lastRow|)
      invariant Holds(buffer, Pack(grid[..y]))
    {
      OffsetMonotone(y + 1, to, |lastRow|);
      var offset: u32 := Offset(y, |lastRow|);
      CopySlice(lastRow, 0, |lastRow|, buffer, Pack(grid[..y]), offset);
      PackPrefix(grid, y);
      assert Slice(lastRow, 0, |lastRow|) == lastRow;
    }
    assert grid[..to] == grid;
  }

  lemma {:induction false} LastRowBytes(grid: seq<Row>, h: nat, row: nat, bytes: seq<byte>)
    requires 0 < h <= |grid| && |Flatten(grid[h - 1])| == row && |Pack(grid[..h])| == Offset(h, row)
    requires bytes == Pack(grid[..h])
    ensures bytes[Offset(h - 1, row)..] == Flatten(grid[h - 1])
  {
    PackPrefix(grid, h - 1);
  }

  lemma {:induction false} SameRowBelow(data: seq<byte>, width: nat, height: nat, aligned: nat, y: nat, a: Row, b: Row)
    requires 0 < height <= y
    requires IsPaddedRow(data, width, height, aligned, height - 1, a) && IsPaddedRow(data, width, height, aligned, y, b)
    ensures a == b
  {}

  /** `pad_frame_to_aligned` is clamp-to-edge: pixel (x, y) of the result is the source pixel at
      (min(x, width - 1), min(y, height - 1)). No 32-bit offset overflows and no index leaves
      its buffer. */
  method PadFrameToAligned(data: seq<byte>, width: nat, height: nat, alignedWidth: nat, alignedHeight: nat)
    returns (padded: seq<byte>)
    requires 1 <= width <= 0xffff && 1 <= height <= 0xffff && width * height <= MAX_DESKTOP_AREA
    requires width <= alignedWidth <= width + 15 && height <= alignedHeight <= height + 15
    requires Offset(height, Offset(width, 4)) <= |data|
    ensures padded == Pack(PaddedGrid(data, width, height, alignedWidth, alignedHeight))
  {
    PaddingFits(width, height, alignedWidth, alignedHeight);
    ghost var grid := PaddedGrid(data, width, height, alignedWidth, alignedHeight);
    padded := PadRows(data, width, height, alignedWidth, alignedHeight, grid);
  }

  /** The rows that have a source row. */
  method PadSourceRows(data: seq<byte>, width: nat, height: nat, alignedWidth: nat, buffer: array<byte>,
                       ghost grid: seq<Row>)
    requires 0 < width <= alignedWidth && 0 < height <= |grid|
    requires Offset(height, Offset(width, 4)) <= |data| && Offset(height, Offset(width, 4)) < 0x1_0000_0000
    requires buffer.Length == Offset(|grid|, Offset(alignedWidth, 4)) < 0x1_0000_0000
    requires IsPadded(data, width, height, alignedWidth, |grid|, grid)
    modifies buffer
    ensures Holds(buffer, Pack(grid[..height])) && |Pack(grid[..height])| == Offset(height, Offset(alignedWidth, 4))
  {
    var dst := Offset(alignedWidth, 4);
    for y := 0 to height
      invariant Offset(y, dst) <= buffer.Length && |Pack(grid[..y])| == Offset(y, dst)
      invariant Holds(buffer, Pack(grid[..y]))
    {
      OffsetMonotone(y + 1, |grid|, dst);
      PadRow(data, width, height, alignedWidth, y, buffer, Pack(grid[..y]), Offset(y, dst), grid[y]);
      PackPrefix(grid, y);
    }
  }

  method PadRows(data: seq<byte>, width: nat, height: nat, alignedWidth: nat, alignedHeight: nat, ghost grid: seq<Row>)
    returns (padded: seq<byte>)
    requires 0 < width <= alignedWidth && 0 < height <= alignedHeight
    requires Offset(alignedHeight, Offset(alignedWidth, 4)) < 0x1_0000_0000
    requires Offset(height, Offset(width, 4)) <= |data| && Offset(height, Offset(width, 4)) < 0x1_0000_0000
    requires IsPadded(data, width, height, alignedWidth, alignedHeight, grid)
    ensures padded == Pack(grid)
  {
    var dst := Offset(alignedWidth, 4);
    var buffer := new byte[Offset(alignedHeight, dst)];
    PadSourceRows(data, width, height, alignedWidth, buffer, grid);
    PaddedShaped(data, width, height, alignedWidth, alignedHeight, grid);
    FlattenSize(grid[height - 1], 4);
    LastRowBytes(grid, height, dst, buffer[..Offset(height, dst)]);
    var lastRow := buffer[..Offset(height, dst)][Offset(height - 1, dst)..];
    forall y | height <= y < alignedHeight ensures Flatten(grid[y]) == lastRow {
      SameRowBelow(data, width, height, alignedWidth, y, grid[height - 1], grid[y]);
    }
    RepeatLastRow(lastRow, height, alignedHeight, buffer, grid);
    padded := buffer[..];
  }

  lemma {:induction false} PaddedShaped(data: seq<byte>, width: nat, height: nat, alignedWidth: nat, alignedHeight: nat,
                                        grid: seq<Row>)
    requires 0 < width && 0 < height && Offset(height, Offset(width, 4)) <= |data|
    requires IsPadded(data, width, height, alignedWidth, alignedHeight, grid)
    ensures Shaped(grid, alignedWidth, alignedHeight, 4)
  {
    forall y | 0 <= y < |grid| ensures |grid[y]| == alignedWidth && Sized(grid[y], 4) {
      assert IsPaddedRow(data, width, height, alignedWidth, y, grid[y]);
      forall x | 0 <= x < |grid[y]| ensures |grid[y][x]| == 4 {
        ClampedPixelSized(data, width, height, x, y);
      }
    }
  }

  /** The padded picture, byte by byte: where its pixel (x, y) lies and what it is. */
  lemma {:induction false} PaddedPixel(data: seq<byte>, width: nat, height: nat, alignedWidth: nat, alignedHeight: nat,
                                       x: nat, y: nat, grid: seq<Row>)
    requires 0 < width && 0 < height && x < alignedWidth && y < alignedHeight
    requires Offset(height, Offset(width, 4)) <= |data|
    requires IsPadded(data, width, height, alignedWidth, alignedHeight, grid)
    ensures var sx, sy := if x < width then x else width - 1, if y < height then y else height - 1;
      var source := Slice(data, Offset(sy, Offset(width, 4)) + Offset(sx, 4), 4);
      |source| == 4 && Slice(Pack(grid), Offset(y, Offset(alignedWidth, 4)) + Offset(x, 4), 4) == source
  {
    assert Slice(Pack(grid), Offset(y, Offset(alignedWidth, 4)) + Offset(x, 4), 4) == grid[y][x] by {
      PaddedShaped(data, width, height, alignedWidth, alignedHeight, grid);
      PixelAt(grid, alignedWidth, alignedHeight, 4, x, y);
    }
    assert grid[y][x] == ClampedPixel(data, width, height, x, y) by {
      assert IsPaddedRow(data, width, height, alignedWidth, y, grid[y]);
    }
    ClampedPixelSized(data, width, height, x, y);
  }

  lemma {:induction false} ClampedPixelSized(data: seq<byte>, width: nat, height: nat, x: nat, y: nat)
    requires 0 < width && 0 < height && Offset(height, Offset(width, 4)) <= |data|
    ensures |ClampedPixel(data, width, height, x, y)| == 4
  {
    InsideBlock(height, Offset(width, 4), width, 4, Clamp(y, height), Clamp(x, width));
  }
}
