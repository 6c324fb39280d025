/** The snapshot encoder: nearest-neighbour sampling, scan lines, and the PNG container (RFC 2083). */
module Png {
  import opened Common

  type Bytes = seq<Byte>

  const MAX_SNAPSHOT_BYTES: int := 8_388_608
  const MAX_SNAPSHOT_EDGE_PX: int := 1_920
  const PNG_SIGNATURE: Bytes := [0x89, 0x50, 0x4E, 0x47, 0x0D, 0x0A, 0x1A, 0x0A]
  const PNG_FIXED_BYTES: int := 57

  datatype Format = Gray8 | Rgb24 | Bgr24 | Unsupported

  datatype Frame = Frame(width: int, height: int, stride: int, format: Format, payload: Bytes)

  function Channels(f: Format): nat { if f.Gray8? then 1 else 3 }

  /** The checks on a frame before it is encoded. */
  predicate ValidFrame(f: Frame) {
    && !f.format.Unsupported? && f.width > 0 && f.height > 0
    && f.width * Channels(f.format) <= f.stride && |f.payload| == f.stride * f.height
  }

  // ---- dimensions ------------------------------------------------------------------

  /** The longer edge is cut to the limit and the shorter one scaled with it, rounding down but never to 0. */
  function Scaled(edge: int, longer: int, limit: int): int
    requires longer > 0
  {
    if longer <= limit then edge else Max(1, edge * limit / longer)
  }

  function TargetWidth(f: Frame, limit: int): int
    requires f.width > 0 && f.height > 0
  {
    if f.width >= f.height then Min(f.width, limit) else Scaled(f.width, f.height, limit)
  }

  function TargetHeight(f: Frame, limit: int): int
    requires f.width > 0 && f.height > 0
  {
    if f.width >= f.height then Scaled(f.height, f.width, limit) else Min(f.height, limit)
  }

  lemma ProductLeft(a: int, b: int, k: int)
    requires a <= b && 0 <= k
    ensures a * k <= b * k
  {
  }

  /** n / d for positive d, by its defining inequalities. */
  lemma Quotient(n: int, d: int)
    requires d > 0
    ensures d * (n / d) <= n < d * (n / d) + d
  {
  }

  lemma QuotientBelow(n: int, d: int, bound: int)
    requires d > 0 && n <= d * bound
    ensures n / d <= bound
  {
    Quotient(n, d);
    var q := n / d;
    if q > bound { ProductLeft(bound + 1, q, d); }
  }

  lemma QuotientAbove(n: int, d: int, bound: int)
    requires d > 0 && d * bound <= n
    ensures bound <= n / d
  {
    Quotient(n, d);
    var q := n / d;
    if q < bound { ProductLeft(q + 1, bound, d); }
  }

  lemma ScaledIsBounded(edge: int, longer: int, limit: int)
    requires 1 <= edge <= longer && limit >= 1
    ensures 1 <= Scaled(edge, longer, limit) <= Min(edge, limit)
    ensures
      var s := Scaled(edge, longer, limit);
      longer > limit && edge * limit >= longer ==> longer * s <= edge * limit < longer * (s + 1)
    ensures longer > limit && edge * limit < longer ==> Scaled(edge, longer, limit) == 1
  {
    if longer > limit {
      var n := edge * limit;
      ProductLeft(edge, longer, limit);
      ProductLeft(limit, longer, edge);
      assert limit * edge == n;
      ScaledQuotient(n, longer, limit, edge);
    }
  }

  lemma ScaledQuotient(n: int, longer: int, limit: int, edge: int)
    requires longer >= 1 && 0 <= n <= longer * limit && n <= longer * edge
    ensures n / longer <= limit && n / longer <= edge
    ensures n < longer ==> n / longer == 0
    ensures n >= longer ==> n / longer >= 1
    ensures longer * (n / longer) <= n < longer * (n / longer + 1)
  {
    QuotientBelow(n, longer, limit);
    QuotientBelow(n, longer, edge);
    Quotient(n, longer);
    QuotientAbove(n, longer, 0);
    var q := n / longer;
    if n >= longer { QuotientAbove(n, longer, 1); }
    if q >= 1 { ProductLeft(1, q, longer); }
  }

  /** Both target edges lie between 1 and the limit and never exceed the source's; a picture within the limit
      keeps its size; and a larger one keeps its aspect up to rounding the shorter edge down, or to 1. */
  lemma TargetIsBounded(f: Frame, limit: int)
    requires f.width > 0 && f.height > 0 && limit >= 1
    ensures 1 <= TargetWidth(f, limit) <= Min(f.width, limit) && 1 <= TargetHeight(f, limit) <= Min(f.height, limit)
    ensures Max(f.width, f.height) <= limit ==> TargetWidth(f, limit) == f.width && TargetHeight(f, limit) == f.height
    ensures
      var w, h := TargetWidth(f, limit), TargetHeight(f, limit);
      && (f.width > limit && f.width >= f.height ==>
            w == limit && (h == 1 || f.width * h <= f.height * w < f.width * (h + 1)))
      && (f.height > limit && f.width < f.height ==>
            h == limit && (w == 1 || f.height * w <= f.width * h < f.height * (w + 1)))
  {
    ScaledIsBounded(Min(f.width, f.height), Max(f.width, f.height), limit);
  }

  // ---- sampling ------------------------------------------------------------------------

  /** The source index of a target index. */
  function Sample(target: int, source: int, targetEdge: int): int
    requires targetEdge > 0
  {
    target * source / targetEdge
  }

  /** Source indices are in bounds and strictly increasing, so no source pixel is used twice. */
  lemma SamplesIncrease(a: int, b: int, source: int, targetEdge: int)
    requires 0 <= a < b < targetEdge <= source
    ensures 0 <= Sample(a, source, targetEdge) < Sample(b, source, targetEdge) < source
  {
    SampleInBounds(a, source, targetEdge);
    SampleInBounds(b, source, targetEdge);
    var q := Sample(a, source, targetEdge);
    Quotient(a * source, targetEdge);
    ProductLeft(a + 1, b, source);
    assert targetEdge * (q + 1) <= b * source;
    QuotientAbove(b * source, targetEdge, q + 1);
  }

  lemma SampleInBounds(a: int, source: int, targetEdge: int)
    requires 0 <= a < targetEdge <= source
    ensures 0 <= Sample(a, source, targetEdge) < source
  {
    ProductLeft(a + 1, targetEdge, source);
    ProductLeft(0, a, source);
    QuotientAbove(a * source, targetEdge, 0);
    Quotient(a * source, targetEdge);
    var q := Sample(a, source, targetEdge);
    if q >= source { ProductLeft(source, q, targetEdge); }
  }

  /** The first byte of a source pixel. */
  function Offset(f: Frame, x: int, y: int): int { y * f.stride + x * Channels(f.format) }

  lemma OffsetInBounds(f: Frame, x: int, y: int)
    requires ValidFrame(f) && 0 <= x < f.width && 0 <= y < f.height
    ensures 0 <= Offset(f, x, y) && Offset(f, x, y) + Channels(f.format) <= |f.payload|
  {
    ProductLeft(y + 1, f.height, f.stride);
    ProductLeft(0, y, f.stride);
    ProductLeft(x + 1, f.width, Channels(f.format));
    ProductLeft(0, x, Channels(f.format));
  }

  /** A source pixel in the byte order of the PNG: gray, or red, green and blue. */
  function Pixel(f: Frame, x: int, y: int): (p: Bytes)
    requires ValidFrame(f) && 0 <= x < f.width && 0 <= y < f.height
    ensures |p| == Channels(f.format)
  {
    OffsetInBounds(f, x, y);
    var o := Offset(f, x, y);
    if f.format.Bgr24? then [f.payload[o + 2], f.payload[o + 1], f.payload[o]]
    else f.payload[o..o + Channels(f.format)]
  }

  /** A frame with target dimensions that sampling can serve. */
  predicate Sampling(f: Frame, w: int, h: int) { ValidFrame(f) && 1 <= w <= f.width && 1 <= h <= f.height }

  function SampledPixel(f: Frame, w: int, h: int, x: int, y: int): Bytes
    requires Sampling(f, w, h) && 0 <= x < w && 0 <= y < h
  {
    SampleInBounds(x, f.width, w);
    SampleInBounds(y, f.height, h);
    Pixel(f, Sample(x, f.width, w), Sample(y, f.height, h))
  }

  /** The filter byte 0 and the first n pixels of a target row. */
  function RowPrefix(f: Frame, w: int, h: int, y: int, n: nat): (row: Bytes)
    requires Sampling(f, w, h) && n <= w && 0 <= y < h
    ensures |row| == 1 + n * Channels(f.format)
  {
    if n == 0 then [0] else RowPrefix(f, w, h, y, n - 1) + SampledPixel(f, w, h, n - 1, y)
  }

  function Row(f: Frame, w: int, h: int, y: int): Bytes
    requires Sampling(f, w, h) && 0 <= y < h
  {
    RowPrefix(f, w, h, y, w)
  }

  /** The bytes handed to the compressor. */
  function Image(f: Frame, w: int, h: int, rows: nat): (image: Bytes)
    requires Sampling(f, w, h) && rows <= h
    ensures |image| == rows * (1 + w * Channels(f.format))
  {
    if rows == 0 then [] else Image(f, w, h, rows - 1) + Row(f, w, h, rows - 1)
  }

  /** The pixel at (x, y) of an image of unfiltered scan lines. */
  function PixelAt(image: Bytes, w: int, channels: nat, x: nat, y: nat): Bytes
    requires y * (1 + w * channels) + 1 + x * channels + channels <= |image| && w >= 0
  {
    var start := y * (1 + w * channels) + 1 + x * channels;
    image[start..start + channels]
  }

  lemma RowGrows(f: Frame, w: int, h: int, y: int, n: nat)
    requires Sampling(f, w, h) && 0 < n <= w && 0 <= y < h
    ensures RowPrefix(f, w, h, y, n) == RowPrefix(f, w, h, y, n - 1) + SampledPixel(f, w, h, n - 1, y)
    ensures |SampledPixel(f, w, h, n - 1, y)| == Channels(f.format)
  {
    hide Channels, ValidFrame, Sample, Pixel;
  }

  lemma {:induction false} RowHoldsPixel(f: Frame, w: int, h: int, y: int, n: nat, x: nat)
    requires Sampling(f, w, h) && x < n <= w && 0 <= y < h
    ensures 1 + x * Channels(f.format) + Channels(f.format) <= 1 + n * Channels(f.format)
    ensures RowPrefix(f, w, h, y, n)[1 + x * Channels(f.format)..1 + x * Channels(f.format) + Channels(f.format)]
              == SampledPixel(f, w, h, x, y)
    decreases n
  {
    var c := Channels(f.format);
    ProductLeft(x + 1, n, c);
    var before := RowPrefix(f, w, h, y, n - 1);
    RowGrows(f, w, h, y, n);
    hide *;
    if x < n - 1 {
      RowHoldsPixel(f, w, h, y, n - 1, x);
      SliceOfPrefix(before, SampledPixel(f, w, h, n - 1, y), 1 + x * c, c);
    } else {
      SliceOfSuffix(before, SampledPixel(f, w, h, n - 1, y));
    }
  }

  lemma SliceOfPrefix(a: Bytes, b: Bytes, start: nat, length: nat)
    requires start + length <= |a|
    ensures (a + b)[start..start + length] == a[start..start + length]
  {
  }

  lemma SliceOfSuffix(a: Bytes, b: Bytes)
    ensures (a + b)[|a|..|a| + |b|] == b
  {
  }

  lemma SliceInSuffix(a: Bytes, b: Bytes, start: nat, length: nat)
    requires start + length <= |b|
    ensures (a + b)[|a| + start..|a| + start + length] == b[start..start + length]
  {
  }

  lemma PixelFits(w: int, c: nat, rows: nat, x: nat, y: nat)
    requires x < w && y < rows
    ensures y * (1 + w * c) + 1 + x * c + c <= rows * (1 + w * c)
  {
    ProductLeft(x + 1, w, c);
    ProductLeft(y + 1, rows, 1 + w * c);
  }

  lemma PixelOfEarlierRow(before: Bytes, last: Bytes, w: int, c: nat, x: nat, y: nat)
    requires w >= 0 && y * (1 + w * c) + 1 + x * c + c <= |before|
    ensures PixelAt(before + last, w, c, x, y) == PixelAt(before, w, c, x, y)
  {
    SliceOfPrefix(before, last, y * (1 + w * c) + 1 + x * c, c);
  }

  lemma PixelOfLastRow(before: Bytes, last: Bytes, w: int, c: nat, x: nat, y: nat)
    requires w >= 0 && |before| == y * (1 + w * c) && 1 + x * c + c <= |last|
    ensures PixelAt(before + last, w, c, x, y) == last[1 + x * c..1 + x * c + c]
  {
    var k := 1 + x * c;
    assert y * (1 + w * c) + 1 + x * c == |before| + k;
    SliceInSuffix(before, last, k, c);
  }

  /** Where the scan lines hold a target pixel. */
  lemma {:induction false} ImageHoldsSamples(f: Frame, w: int, h: int, rows: nat, x: nat, y: nat)
    requires Sampling(f, w, h) && x < w && y < rows <= h
    ensures y * (1 + w * Channels(f.format)) + 1 + x * Channels(f.format) + Channels(f.format)
              <= |Image(f, w, h, rows)|
    ensures PixelAt(Image(f, w, h, rows), w, Channels(f.format), x, y) == SampledPixel(f, w, h, x, y)
    decreases rows
  {
    var c := Channels(f.format);
    PixelFits(w, c, rows, x, y);
    hide SampledPixel, RowPrefix, Channels, ValidFrame, PixelAt;
    var before, last := Image(f, w, h, rows - 1), Row(f, w, h, rows - 1);
    if y < rows - 1 {
      PixelFits(w, c, rows - 1, x, y);
      ImageHoldsSamples(f, w, h, rows - 1, x, y);
      PixelOfEarlierRow(before, last, w, c, x, y);
    } else {
      RowHoldsPixel(f, w, h, y, w, x);
      PixelOfLastRow(before, last, w, c, x, y);
    }
  }

  /** The index of channel k of a pixel in the scan lines: one filter byte and w pixels of c bytes to a line. */
  function ScanIndex(w: int, c: nat, x: nat, y: nat, k: nat): int { y * (1 + w * c) + 1 + x * c + k }

  /** The index in a payload of what the PNG shows as channel k of target pixel (x, y): that of source pixel
      (floor(x W / w), floor(y H / h)), with blue and red exchanged for bgr24 and for nothing else. */
  function SourceIndex(f: Frame, w: int, h: int, x: nat, y: nat, k: nat): int
    requires w > 0 && h > 0
  {
    y * f.height / h * f.stride + x * f.width / w * (if f.format.Gray8? then 1 else 3)
    + if f.format.Bgr24? then 2 - k else k
  }

  lemma SampledChannel(f: Frame, w: int, h: int, x: nat, y: nat, k: nat)
    requires Sampling(f, w, h) && x < w && y < h && k < Channels(f.format)
    ensures 0 <= SourceIndex(f, w, h, x, y, k) < |f.payload|
    ensures SampledPixel(f, w, h, x, y)[k] == f.payload[SourceIndex(f, w, h, x, y, k)]
  {
    SampleInBounds(x, f.width, w);
    SampleInBounds(y, f.height, h);
    var sx, sy := Sample(x, f.width, w), Sample(y, f.height, h);
    OffsetInBounds(f, sx, sy);
    assert Offset(f, sx, sy) + (if f.format.Bgr24? then 2 - k else k) == SourceIndex(f, w, h, x, y, k);
    hide ValidFrame;
  }

  /** Every byte of the scan lines: 0 before each line, and the channels of the sampled source pixels. */
  lemma ImageHoldsPixels(f: Frame, w: int, h: int, x: nat, y: nat, k: nat)
    requires ValidFrame(f) && 1 <= w <= f.width && 1 <= h <= f.height
    requires x < w && y < h && k < if f.format.Gray8? then 1 else 3
    ensures
      var image, c := Image(f, w, h, h), if f.format.Gray8? then 1 else 3;
      && 0 < ScanIndex(w, c, x, y, k) < |image| == h * (1 + w * c)
      && 0 <= SourceIndex(f, w, h, x, y, k) < |f.payload|
      && image[ScanIndex(w, c, x, y, k)] == f.payload[SourceIndex(f, w, h, x, y, k)]
      && 0 <= y * (1 + w * c) < |image| && image[y * (1 + w * c)] == 0
  {
    var c := Channels(f.format);
    ImageHoldsSamples(f, w, h, h, x, y);
    SampledChannel(f, w, h, x, y, k);
    ImageHoldsFilters(f, w, h, h, y);
    PixelFits(w, c, h, x, y);
    var image := Image(f, w, h, h);
    ChannelOfPixel(image, w, c, x, y, k);
    hide SampledPixel, ValidFrame, Image, SourceIndex, PixelAt;
  }

  lemma ScanIndexIsPositive(w: int, c: nat, x: nat, y: nat, k: nat)
    requires w >= 0
    ensures ScanIndex(w, c, x, y, k) == ScanIndex(w, c, x, y, 0) + k && ScanIndex(w, c, x, y, 0) > 0
  {
    ProductLeft(0, w, c);
    ProductLeft(0, y, 1 + w * c);
    ProductLeft(0, x, c);
  }

  lemma SliceIndex(image: Bytes, start: int, c: nat, k: nat)
    requires 0 <= start && start + c <= |image| && k < c
    ensures image[start..start + c][k] == image[start + k]
  {
  }

  lemma ChannelOfPixel(image: Bytes, w: int, c: nat, x: nat, y: nat, k: nat)
    requires w >= 0 && k < c && ScanIndex(w, c, x, y, 0) + c <= |image|
    ensures 0 < ScanIndex(w, c, x, y, k) < |image|
    ensures PixelAt(image, w, c, x, y)[k] == image[ScanIndex(w, c, x, y, k)]
  {
    ScanIndexIsPositive(w, c, x, y, k);
    var start := ScanIndex(w, c, x, y, 0);
    assert PixelAt(image, w, c, x, y) == image[start..start + c];
    hide *;
    SliceIndex(image, start, c, k);
  }

  lemma {:induction false} RowStartsWithFilter(f: Frame, w: int, h: int, y: int, n: nat)
    requires Sampling(f, w, h) && n <= w && 0 <= y < h
    ensures RowPrefix(f, w, h, y, n)[0] == 0
    decreases n
  {
    if n > 0 {
      RowStartsWithFilter(f, w, h, y, n - 1);
      RowGrows(f, w, h, y, n);
      hide SampledPixel, ValidFrame;
    }
  }

  lemma {:induction false} ImageHoldsFilters(f: Frame, w: int, h: int, rows: nat, y: nat)
    requires Sampling(f, w, h) && y < rows <= h
    ensures 0 <= y * (1 + w * Channels(f.format)) < |Image(f, w, h, rows)|
    ensures Image(f, w, h, rows)[y * (1 + w * Channels(f.format))] == 0
    decreases rows
  {
    var c := Channels(f.format);
    PixelFits(w, c, rows, 0, y);
    ProductLeft(0, y, 1 + w * c);
    if y < rows - 1 {
      ImageHoldsFilters(f, w, h, rows - 1, y);
    } else {
      RowStartsWithFilter(f, w, h, y, w);
    }
    hide RowPrefix, ValidFrame, Channels;
  }

  // ---- the container ---------------------------------------------------------------

  /** CRC-32 of a byte string; its computation is not modelled. */
  type Checksum = Bytes -> bv32

  /** A 32-bit integer, most significant byte first. */
  function U32(n: int): (b: Bytes)
    requires 0 <= n < 0x1_0000_0000
    ensures |b| == 4
  {
    [n / 0x100_0000, n / 0x1_0000 % 256, n / 256 % 256, n % 256]
  }

  function U32Value(b: Bytes): int
    requires |b| == 4
  {
    var b0: int, b1: int, b2: int, b3: int := b[0], b[1], b[2], b[3];
    ((b0 * 256 + b1) * 256 + b2) * 256 + b3
  }

  lemma U32RoundTrip(n: int)
    requires 0 <= n < 0x1_0000_0000
    ensures U32Value(U32(n)) == n
  {
    var q := n / 256;
    assert n == q * 256 + n % 256;
    assert q == q / 256 * 256 + q % 256;
    assert n / 0x1_0000 == q / 256 && n / 0x100_0000 == q / 256 / 256;
  }

  const IHDR: Bytes := [0x49, 0x48, 0x44, 0x52]
  const IDAT: Bytes := [0x49, 0x44, 0x41, 0x54]
  const IEND: Bytes := [0x49, 0x45, 0x4E, 0x44]

  /** A chunk: length, type, data, and the checksum of type and data. */
  function Chunk(crc: Checksum, kind: Bytes, data: Bytes): (c: Bytes)
    requires |kind| == 4 && |data| < 0x1_0000_0000
    ensures |c| == 12 + |data|
  {
    U32(|data|) + kind + data + U32(crc(kind + data) as int)
  }

  function Header(w: int, h: int, color: Byte): (b: Bytes)
    requires 0 <= w < 0x1_0000_0000 && 0 <= h < 0x1_0000_0000
    ensures |b| == 13
  {
    U32(w) + U32(h) + [8, color, 0, 0, 0]
  }

  function ColorType(f: Format): Byte { if f.Gray8? then 0 else 2 }

  function Container(crc: Checksum, w: int, h: int, color: Byte, compressed: Bytes): (b: Bytes)
    requires 0 <= w < 0x1_0000_0000 && 0 <= h < 0x1_0000_0000 && |compressed| < 0x1_0000_0000
    ensures |b| == PNG_FIXED_BYTES + |compressed|
  {
    PNG_SIGNATURE + (Chunk(crc, IHDR, Header(w, h, color)) + (Chunk(crc, IDAT, compressed) + Chunk(crc, IEND, [])))
  }

  // A reader of the container, written against sections 3.1, 3.2 and 4.1 of RFC 2083.

  datatype ReadChunk = ReadChunk(kind: Bytes, data: Bytes, rest: Bytes)

  function ParseChunk(crc: Checksum, b: Bytes): Option<ReadChunk> {
    if |b| < 12 then None
    else
      var n := U32Value(b[..4]);
      if n < 0 || |b| < 12 + n then None
      else
        var kind, data := b[4..8], b[8..8 + n];
        if U32Value(b[8 + n..12 + n]) != crc(kind + data) as int then None
        else Some(ReadChunk(kind, data, b[12 + n..]))
  }

  datatype Picture = Picture(width: int, height: int, depth: Byte, color: Byte, compressed: Bytes)

  /** A picture of exactly one header, one data and one end chunk, with no compression, filter or interlace method
      but the standard ones. */
  function ParsePng(crc: Checksum, b: Bytes): Option<Picture> {
    if |b| < 8 || b[..8] != PNG_SIGNATURE then None
    else
      var header := ParseChunk(crc, b[8..]);
      if header.None? || header.value.kind != IHDR || |header.value.data| != 13 then None
      else
        var data := ParseChunk(crc, header.value.rest);
        if data.None? || data.value.kind != IDAT then None
        else
          var end := ParseChunk(crc, data.value.rest);
          if end.None? || end.value.kind != IEND || end.value.data != [] || end.value.rest != [] then None
          else
            var h := header.value.data;
            if h[10..] != [0, 0, 0] then None
            else Some(Picture(U32Value(h[..4]), U32Value(h[4..8]), h[8], h[9], data.value.data))
  }

  lemma FieldsOf(length: Bytes, kind: Bytes, data: Bytes, check: Bytes, rest: Bytes)
    requires |length| == 4 && |kind| == 4 && |check| == 4
    ensures
      var b, n := length + (kind + (data + (check + rest))), |data|;
      && |b| == 12 + n + |rest| && b[..4] == length && b[4..8] == kind && b[8..8 + n] == data
      && b[8 + n..12 + n] == check && b[12 + n..] == rest
  {
  }

  lemma ChunkParses(crc: Checksum, kind: Bytes, data: Bytes, rest: Bytes)
    requires |kind| == 4 && |data| < 0x1_0000_0000
    ensures ParseChunk(crc, Chunk(crc, kind, data) + rest) == Some(ReadChunk(kind, data, rest))
  {
    U32RoundTrip(|data|);
    U32RoundTrip(crc(kind + data) as int);
    hide U32, U32Value;
    var length, check := U32(|data|), U32(crc(kind + data) as int);
    assert Chunk(crc, kind, data) + rest == length + (kind + (data + (check + rest)));
    FieldsOf(length, kind, data, check, rest);
  }

  lemma HeaderParses(w: int, h: int, color: Byte)
    requires 0 <= w < 0x1_0000_0000 && 0 <= h < 0x1_0000_0000
    ensures
      var b := Header(w, h, color);
      U32Value(b[..4]) == w && U32Value(b[4..8]) == h && b[8] == 8 && b[9] == color && b[10..] == [0, 0, 0]
  {
    U32RoundTrip(w);
    U32RoundTrip(h);
    hide U32, U32Value;
    var b := Header(w, h, color);
    assert b[..4] == U32(w) && b[4..8] == U32(h);
  }

  /** The container reads back as the picture it was made of. */
  lemma ContainerParses(crc: Checksum, w: int, h: int, color: Byte, compressed: Bytes)
    requires 0 <= w < 0x1_0000_0000 && 0 <= h < 0x1_0000_0000 && |compressed| < 0x1_0000_0000
    ensures ParsePng(crc, Container(crc, w, h, color, compressed)) == Some(Picture(w, h, 8, color, compressed))
  {
    HeaderParses(w, h, color);
    hide ParseChunk, Chunk, Header, U32, U32Value;
    var tail := Chunk(crc, IEND, []);
    var middle := Chunk(crc, IDAT, compressed) + tail;
    var b := Container(crc, w, h, color, compressed);
    assert b[..8] == PNG_SIGNATURE && b[8..] == Chunk(crc, IHDR, Header(w, h, color)) + middle;
    ChunkParses(crc, IHDR, Header(w, h, color), middle);
    ChunkParses(crc, IDAT, compressed, tail);
    ChunkParses(crc, IEND, [], []);
    assert tail + [] == tail;
  }

  // ---- the encoder ---------------------------------------------------------------------

  /** A streaming compressor: what it emits for the last of the rows given so far, and when flushed after them. */
  datatype Compressor = Compressor(emit: seq<Bytes> -> Bytes, flush: seq<Bytes> -> Bytes)

  function Rows(f: Frame, w: int, h: int, n: nat): (rows: seq<Bytes>)
    requires Sampling(f, w, h) && n <= h
    ensures |rows| == n
  {
    if n == 0 then [] else Rows(f, w, h, n - 1) + [Row(f, w, h, n - 1)]
  }

  /** Everything emitted for the rows, one after the other. */
  function Emitted(z: Compressor, rows: seq<Bytes>): Bytes {
    if rows == [] then [] else Emitted(z, rows[..|rows| - 1]) + z.emit(rows)
  }

  function Compressed(z: Compressor, rows: seq<Bytes>): Bytes { Emitted(z, rows) + z.flush(rows) }

  function Joined(rows: seq<Bytes>): Bytes {
    if rows == [] then [] else Joined(rows[..|rows| - 1]) + rows[|rows| - 1]
  }

  lemma {:induction false} RowsJoin(f: Frame, w: int, h: int, n: nat)
    requires Sampling(f, w, h) && n <= h
    ensures Joined(Rows(f, w, h, n)) == Image(f, w, h, n)
    decreases n
  {
    if n > 0 {
      RowsJoin(f, w, h, n - 1);
      assert Rows(f, w, h, n)[..n - 1] == Rows(f, w, h, n - 1);
    }
  }

  datatype Encoding = Invalid | TooLarge | Encoded(width: int, height: int, png: Bytes)

  /** The compressed image of a valid frame under an edge limit. */
  function CompressedImage(z: Compressor, f: Frame, maxEdge: int): Bytes
    requires ValidFrame(f) && maxEdge >= 1
  {
    TargetIsBounded(f, maxEdge);
    var w, h := TargetWidth(f, maxEdge), TargetHeight(f, maxEdge);
    Compressed(z, Rows(f, w, h, h))
  }

  /** Rows are compressed one by one and the encoder gives up as soon as the budget is exceeded; its very last size
      check, `finalRejections`, never fires. */
  method EncodePngSnapshot(z: Compressor, crc: Checksum, f: Frame, allowed: bool, maxEdge: int, maxBytes: int)
    returns (r: Encoding, finalRejections: int)
    ensures finalRejections == 0
    ensures r.Invalid? <==>
              !(&& 1 <= maxEdge <= 1_920 && 1 <= maxBytes <= 8_388_608 && allowed
                && f.format in {Gray8, Rgb24, Bgr24} && f.width > 0 && f.height > 0
                && f.width * (if f.format.Gray8? then 1 else 3) <= f.stride && |f.payload| == f.stride * f.height)
    ensures !r.Invalid? ==>
              var compressed := CompressedImage(z, f, maxEdge);
              var w, h := TargetWidth(f, maxEdge), TargetHeight(f, maxEdge);
              if 57 + |compressed| > maxBytes then r.TooLarge?
              else
                && r.Encoded? && r.width == w && r.height == h && |r.png| == 57 + |compressed|
                && ParsePng(crc, r.png) == Some(Picture(w, h, 8, if f.format.Gray8? then 0 else 2, compressed))
  {
    finalRejections := 0;
    if !(1 <= maxEdge <= MAX_SNAPSHOT_EDGE_PX) || !(1 <= maxBytes <= MAX_SNAPSHOT_BYTES) || !allowed
       || !ValidFrame(f)
    {
      return Invalid, 0;
    }
    TargetIsBounded(f, maxEdge);
    var w, h := TargetWidth(f, maxEdge), TargetHeight(f, maxEdge);
    var fits, compressed := CompressRows(z, f, w, h, maxBytes - PNG_FIXED_BYTES);
    if !fits {
      return TooLarge, 0;
    }
    ContainerParses(crc, w, h, ColorType(f.format), compressed);
    var png := Container(crc, w, h, ColorType(f.format), compressed);
    if |png| > maxBytes {
      return TooLarge, 1;
    }
    r := Encoded(w, h, png);
  }

  lemma {:induction false} EmittedGrows(z: Compressor, rows: seq<Bytes>, n: nat)
    requires n <= |rows|
    ensures |Emitted(z, rows[..n])| <= |Emitted(z, rows)|
    decreases |rows| - n
  {
    if n < |rows| {
      assert rows[..n + 1][..n] == rows[..n];
      EmittedGrows(z, rows, n + 1);
    } else {
      assert rows[..n] == rows;
    }
  }

  lemma {:induction false} RowsPrefix(f: Frame, w: int, h: int, n: nat, m: nat)
    requires Sampling(f, w, h) && n <= m <= h
    ensures Rows(f, w, h, m)[..n] == Rows(f, w, h, n)
    decreases m
  {
    if n < m { RowsPrefix(f, w, h, n, m - 1); }
  }

  method CompressRows(z: Compressor, f: Frame, w: int, h: int, budget: int) returns (fits: bool, compressed: Bytes)
    requires Sampling(f, w, h)
    ensures fits <==> |Compressed(z, Rows(f, w, h, h))| <= budget
    ensures fits ==> compressed == Compressed(z, Rows(f, w, h, h))
  {
    compressed := [];
    if budget < 0 {
      return false, compressed;
    }
    var rows: seq<Bytes> := [];
    for y := 0 to h
      invariant rows == Rows(f, w, h, y)
      invariant compressed == Emitted(z, rows) && |compressed| <= budget
    {
      rows := rows + [Row(f, w, h, y)];
      assert rows[..y] == Rows(f, w, h, y);
      compressed := compressed + z.emit(rows);
      if |compressed| > budget {
        RowsPrefix(f, w, h, y + 1, h);
        EmittedGrows(z, Rows(f, w, h, h), y + 1);
        return false, compressed;
      }
    }
    compressed := compressed + z.flush(rows);
    fits := |compressed| <= budget;
  }

  /** With a decompressor that undoes the compressor, every byte of an encoded picture's scan lines is the one it
      should show of the source, and each line says that it is not filtered. */
  lemma EncodedShowsSource(z: Compressor, inflate: Bytes -> Bytes, f: Frame, maxEdge: int, x: nat, y: nat, k: nat)
    requires ValidFrame(f) && 1 <= maxEdge
    requires forall rows: seq<Bytes> :: inflate(Compressed(z, rows)) == Joined(rows)
    requires x < TargetWidth(f, maxEdge) && y < TargetHeight(f, maxEdge) && k < if f.format.Gray8? then 1 else 3
    ensures
      var w, h := TargetWidth(f, maxEdge), TargetHeight(f, maxEdge);
      var image, c := inflate(CompressedImage(z, f, maxEdge)), if f.format.Gray8? then 1 else 3;
      && 0 < ScanIndex(w, c, x, y, k) < |image| == h * (1 + w * c)
      && 0 <= SourceIndex(f, w, h, x, y, k) < |f.payload|
      && image[ScanIndex(w, c, x, y, k)] == f.payload[SourceIndex(f, w, h, x, y, k)]
      && 0 <= y * (1 + w * c) < |image| && image[y * (1 + w * c)] == 0
  {
    TargetIsBounded(f, maxEdge);
    var w, h := TargetWidth(f, maxEdge), TargetHeight(f, maxEdge);
    RowsJoin(f, w, h, h);
    ImageHoldsPixels(f, w, h, x, y, k);
    hide Image, Joined, Rows, ScanIndex, SourceIndex, TargetWidth, TargetHeight, ValidFrame;
  }
}
