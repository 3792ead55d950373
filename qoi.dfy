/** The QOI ("Quite OK Image", v1.0) decoder that reads G-code preview thumbnails
    (`decode_qoi` in python-api/gcode_analyzer.py).

    `Decode` is the decoder written as a function over an explicit decoder state;
    `DecodeQoi` is the imperative loop of the original, with its 64-slot colour cache
    held in an array, proved to compute exactly `Decode`. The lemmas state what the
    decoder promises: the header checks, the pixel count, the recovery policy for a
    stream that runs out, the effect of each chunk type, the colour cache discipline
    and a round trip through a simple encoder. */
module Qoi {
  import opened Common

  datatype Pixel = Pixel(r: byte, g: byte, b: byte, a: byte)

  /** The bytes of `qoif`. */
  const Magic: seq<byte> := [0x71, 0x6f, 0x69, 0x66]
  const HeaderSize: nat := 14
  /** The colour a stream starts from, and what every cache slot starts as. */
  const StartPixel := Pixel(0, 0, 0, 255)
  const EmptySlot := Pixel(0, 0, 0, 0)

  /** The colour-cache position of a pixel, (3r + 5g + 7b + 11a) mod 64. */
  function Hash(p: Pixel): (h: nat)
    ensures h < 64
  {
    (p.r as int * 3 + p.g as int * 5 + p.b as int * 7 + p.a as int * 11) % 64
  }

  /** A big-endian unsigned 32-bit integer read from four bytes (`struct.unpack('>I', ...)`). */
  function U32BE(data: seq<byte>, at: nat): (n: nat)
    requires at + 4 <= |data|
    ensures n < 0x1_0000_0000
  {
    (data[at] as int) * 0x100_0000 + (data[at + 1] as int) * 0x1_0000 + (data[at + 2] as int) * 0x100 + data[at + 3] as int
  }

  datatype QoiError =
    | InvalidData      // the `ValueError("Invalid QOI data")` raised for a bad header
    | IndexOutOfRange  // the `IndexError` of a chunk whose bytes run past the buffer

  datatype Result<T> = Ok(value: T) | Err(error: QoiError)

  /** What the decoder hands to the imaging library: the declared size, the channel
      count byte and the decoded RGBA pixels in row order. */
  datatype Image = Image(width: nat, height: nat, channels: byte, pixels: seq<Pixel>)

  /** The decoder's variables between two iterations of its loop: the read position,
      the pending run length, the previous pixel, the colour cache and the output. */
  datatype State = State(index: nat, run: nat, px: Pixel, cache: seq<Pixel>, out: seq<Pixel>)

  /** The 64 slots of the colour cache before anything is decoded. */
  function EmptyCache(): (c: seq<Pixel>)
    ensures |c| == 64 && forall k :: 0 <= k < 64 ==> c[k] == EmptySlot
  {
    Repeat(EmptySlot, 64)
  }


  function Repeat(p: Pixel, n: nat): (s: seq<Pixel>)
    ensures |s| == n && forall i :: 0 <= i < n ==> s[i] == p
  {
    seq(n, _ => p)
  }

  /** The effect of one chunk: where reading goes on, the run length it starts and the
      new previous pixel. */
  datatype Chunk = Chunk(next: nat, run: nat, px: Pixel)

  /** Decodes the chunk whose control byte is at `index`, or fails where Python's
      indexing raises `IndexError`. */
  function ReadChunk(data: seq<byte>, index: nat, px: Pixel, cache: seq<Pixel>): Result<Chunk>
    requires |cache| == 64
  {
    if index >= |data| then Err(IndexOutOfRange)
    else
      var b1 := data[index] as int;
      var i := index + 1;
      if b1 == 0xfe then
        if i + 2 >= |data| then Err(IndexOutOfRange)
        else Ok(Chunk(i + 3, 0, Pixel(data[i], data[i + 1], data[i + 2], px.a)))
      else if b1 == 0xff then
        if i + 3 >= |data| then Err(IndexOutOfRange)
        else Ok(Chunk(i + 4, 0, Pixel(data[i], data[i + 1], data[i + 2], data[i + 3])))
      else if b1 / 64 == 0 then
        Ok(Chunk(i, 0, cache[b1]))
      else if b1 / 64 == 1 then
        Ok(Chunk(i, 0, Pixel((px.r as int + (b1 / 16) % 4 - 2) % 256,
                             (px.g as int + (b1 / 4) % 4 - 2) % 256,
                             (px.b as int + b1 % 4 - 2) % 256, px.a)))
      else if b1 / 64 == 2 then
        if i >= |data| then Err(IndexOutOfRange)
        else
          var b2 := data[i] as int;
          var vg := b1 % 64 - 32;
          Ok(Chunk(i + 1, 0, Pixel((px.r as int + vg - 8 + b2 / 16) % 256,
                                   (px.g as int + vg) % 256,
                                   (px.b as int + vg - 8 + b2 % 16) % 256, px.a)))
      else
        Ok(Chunk(i, b1 % 64, px))
  }

  /** Appends the previous pixel to the output and files it in its cache slot. */
  function Emit(st: State): (r: State)
    requires |st.cache| == 64
    ensures |r.cache| == 64 && r.out == st.out + [st.px]
    ensures r.cache[Hash(st.px)] == st.px
    ensures forall k :: 0 <= k < 64 && k != Hash(st.px) ==> r.cache[k] == st.cache[k]
    ensures r.index == st.index && r.run == st.run && r.px == st.px
  {
    st.(out := st.out + [st.px], cache := st.cache[Hash(st.px) := st.px])
  }

  /** The decoding loop from state `st` until `count` pixels exist. */
  function Iterate(data: seq<byte>, count: nat, st: State): (r: Result<seq<Pixel>>)
    requires |st.cache| == 64 && |st.out| <= count
    ensures r.Ok? ==> |r.value| == count && r.value[..|st.out|] == st.out
    ensures r.Err? ==> r.error == IndexOutOfRange
    decreases count - |st.out|
  {
    if |st.out| == count then Ok(st.out)
    else if st.run > 0 then Iterate(data, count, Emit(st.(run := st.run - 1)))
    else if st.index >= |data| - 1 && |st.out| < count - 1 then
      Ok(st.out + Repeat(st.px, count - |st.out|))
    else
      match ReadChunk(data, st.index, st.px, st.cache)
      case Err(e) => Err(e)
      case Ok(c) => Iterate(data, count, Emit(State(c.next, c.run, c.px, st.cache, st.out)))
  }

  /** The number of pixels of a width x height image, counted row by row. */
  function PixelCount(width: nat, height: nat): nat
    decreases height
  {
    if height == 0 then 0 else PixelCount(width, height - 1) + width
  }

  /** Counting row by row gives `width * height`, the `px_count` of the decoder. */
  lemma {:induction false} PixelCountIsProduct(width: nat, height: nat)
    ensures PixelCount(width, height) == width * height
    decreases height
  {
    if height > 0 {
      PixelCountIsProduct(width, height - 1);
    }
  }

  predicate HeaderValid(data: seq<byte>) {
    |data| >= HeaderSize && data[..4] == Magic
  }

  /** `decode_qoi` as a function. */
  function Decode(data: seq<byte>): (r: Result<Image>)
    ensures r == Err(InvalidData) <==> !HeaderValid(data)
    ensures r.Ok? ==> r.value.width == U32BE(data, 4) && r.value.height == U32BE(data, 8)
                      && r.value.channels == data[12]
                      && |r.value.pixels| == PixelCount(r.value.width, r.value.height)
  {
    if !HeaderValid(data) then Err(InvalidData)
    else
      var width := U32BE(data, 4);
      var height := U32BE(data, 8);
      var decoded := Iterate(data, PixelCount(width, height), State(HeaderSize, 0, StartPixel, EmptyCache(), []));
      if decoded.Err? then Err(decoded.error)
      else Ok(Image(width, height, data[12], decoded.value))
  }

  /** One turn of the loop while a run is pending. */
  lemma IterateRun(data: seq<byte>, count: nat, st: State)
    requires |st.cache| == 64 && |st.out| < count && st.run > 0
    ensures Iterate(data, count, st) == Iterate(data, count, Emit(st.(run := st.run - 1)))
  {
  }

  /** The turn of the loop that pads the output when the stream is exhausted. */
  lemma IteratePad(data: seq<byte>, count: nat, st: State)
    requires |st.cache| == 64 && st.run == 0
    requires st.index >= |data| - 1 && |st.out| < count - 1
    ensures Iterate(data, count, st) == Ok(st.out + Repeat(st.px, count - |st.out|))
  {
  }

  /** One turn of the loop that reads a chunk. */
  lemma IterateChunk(data: seq<byte>, count: nat, st: State)
    requires |st.cache| == 64 && |st.out| < count && st.run == 0
    requires !(st.index >= |data| - 1 && |st.out| < count - 1)
    ensures ReadChunk(data, st.index, st.px, st.cache).Err? ==>
              Iterate(data, count, st) == Err(IndexOutOfRange)
    ensures ReadChunk(data, st.index, st.px, st.cache).Ok? ==>
              var c := ReadChunk(data, st.index, st.px, st.cache).value;
              Iterate(data, count, st) == Iterate(data, count, Emit(State(c.next, c.run, c.px, st.cache, st.out)))
  {
  }

  /** The body of one loop turn that reads a chunk: the control byte at `index`
      and its operands, decoded against the previous pixel and the array cache. */
  method ReadNextChunk(data: seq<byte>, index: nat, px: Pixel, cache: array<Pixel>) returns (c: Result<Chunk>)
    requires cache.Length == 64
    ensures c == ReadChunk(data, index, px, cache[..])
  {
    if index >= |data| {
      return Err(IndexOutOfRange);
    }
    var pr, pg, pb, pa := px.r, px.g, px.b, px.a;
    var run: nat := 0;
    var b1 := data[index] as int;
    var i := index + 1;
    if b1 == 0xfe {
      if i + 2 >= |data| {
        return Err(IndexOutOfRange);
      }
      pr, pg, pb := data[i], data[i + 1], data[i + 2];
      i := i + 3;
    } else if b1 == 0xff {
      if i + 3 >= |data| {
        return Err(IndexOutOfRange);
      }
      pr, pg, pb, pa := data[i], data[i + 1], data[i + 2], data[i + 3];
      i := i + 4;
    } else if b1 / 64 == 0 {
      var p := cache[b1];
      pr, pg, pb, pa := p.r, p.g, p.b, p.a;
    } else if b1 / 64 == 1 {
      pr := (pr as int + (b1 / 16) % 4 - 2) % 256;
      pg := (pg as int + (b1 / 4) % 4 - 2) % 256;
      pb := (pb as int + b1 % 4 - 2) % 256;
    } else if b1 / 64 == 2 {
      if i >= |data| {
        return Err(IndexOutOfRange);
      }
      var b2 := data[i] as int;
      i := i + 1;
      var vg := b1 % 64 - 32;
      pr := (pr as int + vg - 8 + b2 / 16) % 256;
      pg := (pg as int + vg) % 256;
      pb := (pb as int + vg - 8 + b2 % 16) % 256;
    } else {
      run := b1 % 64;
    }
    return Ok(Chunk(i, run, Pixel(pr, pg, pb, pa)));
  }

  /** Files the pixel just produced in its hash slot of the array cache. */
  method Remember(cache: array<Pixel>, px: Pixel)
    requires cache.Length == 64
    modifies cache
    ensures cache[..] == old(cache[..])[Hash(px) := px]
  {
    cache[Hash(px)] := px;
  }

  /** The decoding loop of the original, over a 64-slot array cache: produces `count`
      pixels from the chunks that follow the header. */
  method DecodePixels(data: seq<byte>, count: nat) returns (r: Result<seq<Pixel>>)
    ensures r == Iterate(data, count, State(HeaderSize, 0, StartPixel, EmptyCache(), []))
  {
    var pixels: seq<Pixel> := [];
    var index: nat := HeaderSize;
    var px := StartPixel;
    var cache := new Pixel[64](_ => EmptySlot);
    var run: nat := 0;
    assert cache[..] == EmptyCache();
    while |pixels| < count
      invariant cache.Length == 64 && |pixels| <= count
      invariant Iterate(data, count, State(index, run, px, cache[..], pixels))
             == Iterate(data, count, State(HeaderSize, 0, StartPixel, EmptyCache(), []))
      decreases count - |pixels|
    {
      ghost var before := State(index, run, px, cache[..], pixels);
      if run > 0 {
        run := run - 1;
        IterateRun(data, count, before);
      } else {
        if index >= |data| - 1 && |pixels| < count - 1 {
          // The stream is exhausted: pad with the previous pixel.
          IteratePad(data, count, before);
          while |pixels| < count
            invariant |before.out| <= |pixels| <= count
            invariant pixels == before.out + Repeat(before.px, |pixels| - |before.out|)
            decreases count - |pixels|
          {
            pixels := pixels + [px];
          }
          return Ok(pixels);
        }
        IterateChunk(data, count, before);
        var chunk := ReadNextChunk(data, index, px, cache);
        if chunk.Err? {
          return Err(chunk.error);
        }
        index, run, px := chunk.value.next, chunk.value.run, chunk.value.px;
      }
      pixels := pixels + [px];
      Remember(cache, px);
    }
    return Ok(pixels);
  }

  /** `decode_qoi`: header check, then the decoding loop. */
  method DecodeQoi(data: seq<byte>) returns (r: Result<Image>)
    ensures r == Decode(data)
  {
    if !HeaderValid(data) {
      return Err(InvalidData);
    }
    var width := U32BE(data, 4);
    var height := U32BE(data, 8);
    var pixels := DecodePixels(data, PixelCount(width, height));
    if pixels.Err? {
      return Err(pixels.error);
    }
    return Ok(Image(width, height, data[12], pixels.value));
  }

  // ---------------------------------------------------------------------------
  // The six chunk kinds of QOI v1.0, as a reference semantics for the decoder.
  // ---------------------------------------------------------------------------

  /** A chunk of a QOI stream with its operands: RGB and RGBA literals, a cache index,
      a small per-channel difference, a luma difference (green delta plus red and blue
      deltas relative to it) and a run of repeats. */
  datatype Op =
    | OpRgb(r: byte, g: byte, b: byte)
    | OpRgba(p: Pixel)
    | OpIndex(slot: nat)
    | OpDiff(dr: int, dg: int, db: int)
    | OpLuma(vg: int, drg: int, dbg: int)
    | OpRun(n: nat)

  /** The operand ranges the format allows. */
  predicate ValidOp(op: Op) {
    match op
    case OpRgb(_, _, _) => true
    case OpRgba(_) => true
    case OpIndex(slot) => slot < 64
    case OpDiff(dr, dg, db) => -2 <= dr <= 1 && -2 <= dg <= 1 && -2 <= db <= 1
    case OpLuma(vg, drg, dbg) => -32 <= vg <= 31 && -8 <= drg <= 7 && -8 <= dbg <= 7
    case OpRun(n) => 1 <= n <= 62
  }

  /** The bytes of a chunk, as an encoder writes them. */
  function OpBytes(op: Op): (bs: seq<byte>)
    requires ValidOp(op)
    ensures 1 <= |bs| <= 5
  {
    match op
    case OpRgb(r, g, b) => [0xfe, r, g, b]
    case OpRgba(p) => [0xff, p.r, p.g, p.b, p.a]
    case OpIndex(slot) => [slot]
    case OpDiff(dr, dg, db) => [0x40 + (dr + 2) * 16 + (dg + 2) * 4 + (db + 2)]
    case OpLuma(vg, drg, dbg) => [0x80 + (vg + 32), (drg + 8) * 16 + (dbg + 8)]
    case OpRun(n) => [0xc0 + (n - 1)]
  }

  /** The pixel a chunk produces from the previous pixel and the cache. */
  function OpPixel(op: Op, px: Pixel, cache: seq<Pixel>): Pixel
    requires ValidOp(op) && |cache| == 64
  {
    match op
    case OpRgb(r, g, b) => Pixel(r, g, b, px.a)
    case OpRgba(p) => p
    case OpIndex(slot) => cache[slot]
    case OpDiff(dr, dg, db) =>
      Pixel((px.r as int + dr) % 256, (px.g as int + dg) % 256, (px.b as int + db) % 256, px.a)
    case OpLuma(vg, drg, dbg) =>
      Pixel((px.r as int + vg + drg) % 256, (px.g as int + vg) % 256, (px.b as int + vg + dbg) % 256, px.a)
    case OpRun(_) => px
  }

  /** How many pixels a chunk produces. */
  function OpCount(op: Op): (n: nat)
    ensures n >= 1
  {
    if op.OpRun? && op.n >= 1 then op.n else 1
  }

  predicate ValidOps(ops: seq<Op>) {
    forall i :: 0 <= i < |ops| ==> ValidOp(ops[i])
  }

  function OpsBytes(ops: seq<Op>): seq<byte>
    requires ValidOps(ops)
  {
    if ops == [] then [] else OpBytes(ops[0]) + OpsBytes(ops[1..])
  }

  /** The pixels a chunk sequence denotes: each chunk's pixel, repeated for a run, with
      every produced pixel filed in the cache. */
  function Render(ops: seq<Op>, px: Pixel, cache: seq<Pixel>): seq<Pixel>
    requires ValidOps(ops) && |cache| == 64
  {
    if ops == [] then []
    else
      var p := OpPixel(ops[0], px, cache);
      Repeat(p, OpCount(ops[0])) + Render(ops[1..], p, cache[Hash(p) := p])
  }

  /** The eight-byte end marker that closes a QOI stream. */
  const EndMarker: seq<byte> := [0, 0, 0, 0, 0, 0, 0, 1]

  function Be32(n: nat): (bs: seq<byte>)
    requires n < 0x1_0000_0000
    ensures |bs| == 4 && U32BE(bs, 0) == n
  {
    var low := n / 256;
    var middle := low / 256;
    [middle / 256, middle % 256, low % 256, n % 256]
  }

  /** A complete QOI file: header (magic, width, height, channels, colour space),
      the chunks and the end marker. */
  function Encode(width: nat, height: nat, channels: byte, colorspace: byte, ops: seq<Op>): seq<byte>
    requires width < 0x1_0000_0000 && height < 0x1_0000_0000 && ValidOps(ops)
  {
    Magic + Be32(width) + Be32(height) + [channels, colorspace] + OpsBytes(ops) + EndMarker
  }

  /** Each chunk kind, read from its encoding, has the effect the format defines:
      RGB keeps alpha, RGBA sets all four channels, INDEX takes the cache slot,
      DIFF and LUMA add their deltas modulo 256, RUN starts a run of n - 1 more. */
  lemma ReadChunkOfOp(data: seq<byte>, index: nat, op: Op, px: Pixel, cache: seq<Pixel>)
    requires ValidOp(op) && |cache| == 64
    requires index + |OpBytes(op)| <= |data| && data[index..index + |OpBytes(op)|] == OpBytes(op)
    ensures ReadChunk(data, index, px, cache)
         == Ok(Chunk(index + |OpBytes(op)|, OpCount(op) - 1, OpPixel(op, px, cache)))
  {
    var bs := OpBytes(op);
    assert data[index] == bs[0];
    match op
    case OpRgb(r, g, b) =>
      ReadLiteralOp(data, index, op, px, cache);
    case OpRgba(p) =>
      ReadLiteralOp(data, index, op, px, cache);
    case OpIndex(slot) =>
    case OpDiff(dr, dg, db) =>
      ReadDiffOp(data, index, op, px, cache);
    case OpLuma(vg, drg, dbg) =>
      ReadLumaOp(data, index, op, px, cache);
    case OpRun(n) =>
  }

  lemma ReadLiteralOp(data: seq<byte>, index: nat, op: Op, px: Pixel, cache: seq<Pixel>)
    requires (op.OpRgb? || op.OpRgba?) && |cache| == 64
    requires index + |OpBytes(op)| <= |data| && data[index..index + |OpBytes(op)|] == OpBytes(op)
    ensures ReadChunk(data, index, px, cache)
         == Ok(Chunk(index + |OpBytes(op)|, OpCount(op) - 1, OpPixel(op, px, cache)))
  {
    var bs := OpBytes(op);
    assert data[index] == bs[0];
    assert data[index + 1] == bs[1] && data[index + 2] == bs[2] && data[index + 3] == bs[3];
    if op.OpRgba? {
      assert data[index + 4] == bs[4];
    }
  }

  lemma ReadDiffOp(data: seq<byte>, index: nat, op: Op, px: Pixel, cache: seq<Pixel>)
    requires op.OpDiff? && ValidOp(op) && |cache| == 64
    requires index + |OpBytes(op)| <= |data| && data[index..index + |OpBytes(op)|] == OpBytes(op)
    ensures ReadChunk(data, index, px, cache)
         == Ok(Chunk(index + |OpBytes(op)|, OpCount(op) - 1, OpPixel(op, px, cache)))
  {
    var bs := OpBytes(op);
    assert data[index] == bs[0];
    var b1 := data[index] as int;
    assert (b1 / 16) % 4 == op.dr + 2 && (b1 / 4) % 4 == op.dg + 2 && b1 % 4 == op.db + 2;
  }

  lemma ReadLumaOp(data: seq<byte>, index: nat, op: Op, px: Pixel, cache: seq<Pixel>)
    requires op.OpLuma? && ValidOp(op) && |cache| == 64
    requires index + |OpBytes(op)| <= |data| && data[index..index + |OpBytes(op)|] == OpBytes(op)
    ensures ReadChunk(data, index, px, cache)
         == Ok(Chunk(index + |OpBytes(op)|, OpCount(op) - 1, OpPixel(op, px, cache)))
  {
    var bs := OpBytes(op);
    assert data[index] == bs[0];
    var b2 := data[index + 1] as int;
    assert b2 == bs[1];
    assert b2 / 16 == op.drg + 8 && b2 % 16 == op.dbg + 8;
  }

  /** Conversely, every chunk the decoder accepts is one of the six kinds with operands
      in range: DIFF moves each channel by -2..1 and LUMA moves green by -32..31 and
      red and blue by the green delta plus -8..7, all modulo 256. */
  lemma ChunkIsOp(data: seq<byte>, index: nat, px: Pixel, cache: seq<Pixel>)
    requires |cache| == 64 && ReadChunk(data, index, px, cache).Ok?
    ensures var c := ReadChunk(data, index, px, cache).value;
            exists op :: ValidOp(op) && index + |OpBytes(op)| == c.next <= |data|
                      && data[index..c.next] == OpBytes(op)
                      && c.px == OpPixel(op, px, cache) && c.run == OpCount(op) - 1
  {
    var b1 := data[index] as int;
    if b1 == 0xfe || b1 == 0xff {
      LiteralIsOp(data, index, px, cache);
    } else if b1 / 64 == 2 {
      LumaIsOp(data, index, px, cache);
    } else {
      ShortIsOp(data, index, px, cache);
    }
  }

  lemma LiteralIsOp(data: seq<byte>, index: nat, px: Pixel, cache: seq<Pixel>)
    requires |cache| == 64 && ReadChunk(data, index, px, cache).Ok?
    requires data[index] == 0xfe || data[index] == 0xff
    ensures var c := ReadChunk(data, index, px, cache).value;
            exists op :: ValidOp(op) && index + |OpBytes(op)| == c.next <= |data|
                      && data[index..c.next] == OpBytes(op)
                      && c.px == OpPixel(op, px, cache) && c.run == OpCount(op) - 1
  {
    var c := ReadChunk(data, index, px, cache).value;
    if data[index] == 0xfe {
      var op := OpRgb(data[index + 1], data[index + 2], data[index + 3]);
      assert data[index..c.next] == OpBytes(op);
    } else {
      var op := OpRgba(Pixel(data[index + 1], data[index + 2], data[index + 3], data[index + 4]));
      assert data[index..c.next] == OpBytes(op);
    }
  }

  /** The one-byte chunks: INDEX, DIFF and RUN. */
  lemma ShortIsOp(data: seq<byte>, index: nat, px: Pixel, cache: seq<Pixel>)
    requires |cache| == 64 && ReadChunk(data, index, px, cache).Ok?
    requires data[index] != 0xfe && data[index] != 0xff && data[index] / 64 != 2
    ensures var c := ReadChunk(data, index, px, cache).value;
            exists op :: ValidOp(op) && index + |OpBytes(op)| == c.next <= |data|
                      && data[index..c.next] == OpBytes(op)
                      && c.px == OpPixel(op, px, cache) && c.run == OpCount(op) - 1
  {
    var c := ReadChunk(data, index, px, cache).value;
    var b1 := data[index] as int;
    if b1 / 64 == 0 {
      var op := OpIndex(b1);
      assert data[index..c.next] == OpBytes(op);
    } else if b1 / 64 == 1 {
      DiffIsOp(data, index, px, cache);
    } else {
      var op := OpRun(b1 % 64 + 1);
      assert data[index..c.next] == OpBytes(op);
    }
  }

  lemma DiffIsOp(data: seq<byte>, index: nat, px: Pixel, cache: seq<Pixel>)
    requires |cache| == 64 && index < |data| && data[index] / 64 == 1
    ensures var c := ReadChunk(data, index, px, cache).value;
            exists op :: ValidOp(op) && index + |OpBytes(op)| == c.next <= |data|
                      && data[index..c.next] == OpBytes(op)
                      && c.px == OpPixel(op, px, cache) && c.run == OpCount(op) - 1
  {
    var b1 := data[index] as int;
    var op := OpDiff((b1 / 16) % 4 - 2, (b1 / 4) % 4 - 2, b1 % 4 - 2);
    DiffByte(b1);
    assert OpBytes(op) == [b1];
    assert data[index..index + 1] == OpBytes(op);
  }

  /** A DIFF control byte is its tag plus its three two-bit fields. */
  lemma DiffByte(b: int)
    requires 64 <= b < 128
    ensures b == 0x40 + ((b / 16) % 4) * 16 + ((b / 4) % 4) * 4 + b % 4
  {
  }

  lemma LumaIsOp(data: seq<byte>, index: nat, px: Pixel, cache: seq<Pixel>)
    requires |cache| == 64 && ReadChunk(data, index, px, cache).Ok? && data[index] / 64 == 2
    ensures var c := ReadChunk(data, index, px, cache).value;
            exists op :: ValidOp(op) && index + |OpBytes(op)| == c.next <= |data|
                      && data[index..c.next] == OpBytes(op)
                      && c.px == OpPixel(op, px, cache) && c.run == OpCount(op) - 1
  {
    var c := ReadChunk(data, index, px, cache).value;
    var b1 := data[index] as int;
    var b2 := data[index + 1] as int;
    var op := OpLuma(b1 % 64 - 32, b2 / 16 - 8, b2 % 16 - 8);
    assert OpBytes(op) == [b1, b2];
    assert data[index..c.next] == OpBytes(op);
  }

  /** A pending run emits the previous pixel until it is used up; the cache already
      holds that pixel, so it does not change. */
  lemma {:induction false} RunDrains(data: seq<byte>, count: nat, st: State)
    requires |st.cache| == 64 && |st.out| + st.run <= count
    requires st.cache[Hash(st.px)] == st.px
    ensures Iterate(data, count, st)
         == Iterate(data, count, st.(run := 0, out := st.out + Repeat(st.px, st.run)))
    decreases st.run
  {
    if st.run == 0 {
      assert st.out + Repeat(st.px, 0) == st.out;
    } else {
      var next := Emit(st.(run := st.run - 1));
      assert next.cache == st.cache;
      RunDrains(data, count, next);
      assert next.out + Repeat(st.px, next.run) == st.out + Repeat(st.px, st.run);
    }
  }

  /** A QOI_OP_RUN byte whose low six bits are n yields n + 1 copies of the previous
      pixel. */
  lemma RunRepeatsPrevious(data: seq<byte>, count: nat, st: State)
    requires |st.cache| == 64 && st.run == 0 && st.index < |data| - 1
    requires 0xc0 <= data[st.index] < 0xfe
    requires |st.out| + data[st.index] % 64 + 1 <= count
    ensures Iterate(data, count, st)
         == Iterate(data, count, State(st.index + 1, 0, st.px, st.cache[Hash(st.px) := st.px],
                                       st.out + Repeat(st.px, data[st.index] % 64 + 1)))
  {
    var n := data[st.index] % 64;
    IterateChunk(data, count, st);
    var next := Emit(State(st.index + 1, n, st.px, st.cache, st.out));
    RunDrains(data, count, next);
    assert next.out + Repeat(st.px, n) == st.out + Repeat(st.px, n + 1);
  }

  /** Once the read position is at or past the last byte, every pixel still owed
      (at least two beyond a pending run) is a copy of the previous pixel: a truncated
      stream is padded, never over- or under-run. */
  lemma {:induction false} ExhaustedStreamRepeatsLastPixel(data: seq<byte>, count: nat, st: State)
    requires |st.cache| == 64 && st.index >= |data| - 1
    requires |st.out| + st.run + 2 <= count
    ensures Iterate(data, count, st) == Ok(st.out + Repeat(st.px, count - |st.out|))
    decreases st.run
  {
    if st.run > 0 {
      var next := Emit(st.(run := st.run - 1));
      ExhaustedStreamRepeatsLastPixel(data, count, next);
      assert next.out + Repeat(st.px, count - |next.out|) == st.out + Repeat(st.px, count - |st.out|);
    }
  }

  /** The colour cache discipline: every slot holds either its initial (0,0,0,0) or
      a pixel already produced whose hash is that slot. */
  ghost predicate CacheConsistent(st: State) {
    |st.cache| == 64 &&
    forall k :: 0 <= k < 64 ==>
      st.cache[k] == EmptySlot || (Hash(st.cache[k]) == k && st.cache[k] in st.out)
  }

  /** Filing each produced pixel under its hash keeps the cache consistent. */
  lemma EmitKeepsCacheConsistent(st: State)
    requires CacheConsistent(st)
    ensures CacheConsistent(Emit(st))
  {
    var e := Emit(st);
    forall k | 0 <= k < 64
      ensures e.cache[k] == EmptySlot || (Hash(e.cache[k]) == k && e.cache[k] in e.out)
    {
      if k != Hash(st.px) {
        assert e.cache[k] == st.cache[k];
        assert st.cache[k] in st.out ==> st.cache[k] in e.out;
      }
    }
  }

  /** Hence QOI_OP_INDEX can only reproduce the initial empty slot or a pixel that was
      produced earlier and hashes to the slot it names. */
  lemma IndexChunkRecallsEarlierPixel(data: seq<byte>, st: State)
    requires CacheConsistent(st) && st.index < |data| && data[st.index] < 64
    ensures ReadChunk(data, st.index, st.px, st.cache).Ok?
    ensures var p := ReadChunk(data, st.index, st.px, st.cache).value.px;
            p == EmptySlot || (Hash(p) == data[st.index] && p in st.out)
  {
  }

  /** The first state of the decoding loop is consistent. */
  lemma StartIsCacheConsistent()
    ensures CacheConsistent(State(HeaderSize, 0, StartPixel, EmptyCache(), []))
  {
  }

  /** The decoder's state after one chunk: reading moves past the chunk's bytes, its
      pixel is produced as often as the chunk says and is filed in the cache. */
  function AfterOp(st: State, op: Op): (r: State)
    requires |st.cache| == 64 && ValidOp(op)
    ensures |r.cache| == 64 && r.run == 0
  {
    var p := OpPixel(op, st.px, st.cache);
    State(st.index + |OpBytes(op)|, 0, p, st.cache[Hash(p) := p], st.out + Repeat(p, OpCount(op)))
  }

  /** One well-formed chunk at the read position: the decoder produces its pixels,
      files the pixel in the cache and moves past its bytes. */
  lemma DecodeOneOp(data: seq<byte>, count: nat, st: State, op: Op)
    requires |st.cache| == 64 && st.run == 0 && ValidOp(op)
    requires |st.out| + OpCount(op) <= count
    requires st.index + |OpBytes(op)| + 8 <= |data|
    requires data[st.index..st.index + |OpBytes(op)|] == OpBytes(op)
    ensures Iterate(data, count, st) == Iterate(data, count, AfterOp(st, op))
  {
    var p := OpPixel(op, st.px, st.cache);
    IterateChunk(data, count, st);
    ReadChunkOfOp(data, st.index, op, st.px, st.cache);
    var emitted := Emit(State(st.index + |OpBytes(op)|, OpCount(op) - 1, p, st.cache, st.out));
    RunDrains(data, count, emitted);
    assert emitted.out + Repeat(p, emitted.run) == st.out + Repeat(p, OpCount(op));
  }

  /** Decoding a stream of well-formed chunks followed by the end marker produces
      exactly the pixels the chunks denote. */
  lemma {:induction false} StreamDecodes(data: seq<byte>, count: nat, st: State, ops: seq<Op>)
    requires |st.cache| == 64 && st.run == 0 && ValidOps(ops)
    requires |st.out| + |Render(ops, st.px, st.cache)| == count
    requires st.index + |OpsBytes(ops)| + 8 <= |data|
    requires data[st.index..st.index + |OpsBytes(ops)|] == OpsBytes(ops)
    ensures Iterate(data, count, st) == Ok(st.out + Render(ops, st.px, st.cache))
    decreases |ops|
  {
    if ops == [] {
      assert st.out + [] == st.out;
    } else {
      var next := StreamStep(data, count, st, ops);
      DecodeOneOp(data, count, st, ops[0]);
      StreamDecodes(data, count, next, ops[1..]);
    }
  }

  /** The first chunk of a well-formed stream can be decoded on its own, and the state
      after its pixels starts the rest of the stream, which denotes the rest of the
      pixels. */
  lemma StreamStep(data: seq<byte>, count: nat, st: State, ops: seq<Op>) returns (next: State)
    requires |st.cache| == 64 && st.run == 0 && ValidOps(ops) && ops != []
    requires |st.out| + |Render(ops, st.px, st.cache)| == count
    requires st.index + |OpsBytes(ops)| + 8 <= |data|
    requires data[st.index..st.index + |OpsBytes(ops)|] == OpsBytes(ops)
    ensures ValidOp(ops[0]) && |st.out| + OpCount(ops[0]) <= count
    ensures st.index + |OpBytes(ops[0])| + 8 <= |data|
    ensures data[st.index..st.index + |OpBytes(ops[0])|] == OpBytes(ops[0])
    ensures next == AfterOp(st, ops[0])
    ensures |next.cache| == 64 && ValidOps(ops[1..])
    ensures |next.out| + |Render(ops[1..], next.px, next.cache)| == count
    ensures next.index + |OpsBytes(ops[1..])| + 8 <= |data|
    ensures data[next.index..next.index + |OpsBytes(ops[1..])|] == OpsBytes(ops[1..])
    ensures next.out + Render(ops[1..], next.px, next.cache) == st.out + Render(ops, st.px, st.cache)
  {
    var op := ops[0];
    var p := OpPixel(op, st.px, st.cache);
    var head := Repeat(p, OpCount(op));
    var tail := Render(ops[1..], p, st.cache[Hash(p) := p]);
    assert Render(ops, st.px, st.cache) == head + tail;
    var at := SplitOpsBytes(data, st.index, ops);
    next := State(at, 0, p, st.cache[Hash(p) := p], st.out + head);
    assert next.out + tail == st.out + (head + tail);
  }

  /** The bytes of a chunk sequence are the first chunk's bytes then the rest's. */
  lemma SplitOpsBytes(data: seq<byte>, at: nat, ops: seq<Op>) returns (next: nat)
    requires ValidOps(ops) && ops != []
    requires at + |OpsBytes(ops)| <= |data| && data[at..at + |OpsBytes(ops)|] == OpsBytes(ops)
    ensures next == at + |OpBytes(ops[0])| && ValidOps(ops[1..])
    ensures data[at..next] == OpBytes(ops[0])
    ensures next + |OpsBytes(ops[1..])| == at + |OpsBytes(ops)|
    ensures data[next..next + |OpsBytes(ops[1..])|] == OpsBytes(ops[1..])
  {
    var bs := OpBytes(ops[0]);
    var rest := OpsBytes(ops[1..]);
    var whole := data[at..at + |OpsBytes(ops)|];
    assert whole == bs + rest;
    next := at + |bs|;
    assert data[at..next] == whole[..|bs|];
    assert data[next..next + |rest|] == whole[|bs|..];
  }

  /** Round trip: a QOI file built from well-formed chunks that cover width x height
      pixels decodes to exactly those pixels, with the declared size and channel count. */
  lemma RoundTrip(width: nat, height: nat, channels: byte, colorspace: byte, ops: seq<Op>)
    requires width < 0x1_0000_0000 && height < 0x1_0000_0000 && ValidOps(ops)
    requires |Render(ops, StartPixel, EmptyCache())| == width * height
    ensures Decode(Encode(width, height, channels, colorspace, ops))
         == Ok(Image(width, height, channels, Render(ops, StartPixel, EmptyCache())))
  {
    var data := Encode(width, height, channels, colorspace, ops);
    var header := Magic + Be32(width) + Be32(height) + [channels, colorspace];
    assert |header| == HeaderSize;
    assert data == header + OpsBytes(ops) + EndMarker;
    assert data[..4] == Magic;
    assert data[4..8] == Be32(width) && data[8..12] == Be32(height);
    assert U32BE(data, 4) == U32BE(Be32(width), 0);
    assert U32BE(data, 8) == U32BE(Be32(height), 0);
    assert data[12] == channels;
    assert data[HeaderSize..HeaderSize + |OpsBytes(ops)|] == OpsBytes(ops);
    PixelCountIsProduct(width, height);
    StreamDecodes(data, PixelCount(width, height), State(HeaderSize, 0, StartPixel, EmptyCache(), []), ops);
  }

  /** The simplest encoder, one QOI_OP_RGBA chunk per pixel. */
  function RgbaOps(pixels: seq<Pixel>): (ops: seq<Op>)
    ensures |ops| == |pixels| && ValidOps(ops)
  {
    seq(|pixels|, i requires 0 <= i < |pixels| => OpRgba(pixels[i]))
  }

  /** What the RGBA-only encoder writes denotes the pixels it was given. */
  lemma {:induction false} RenderRgbaOps(pixels: seq<Pixel>, px: Pixel, cache: seq<Pixel>)
    requires |cache| == 64
    ensures Render(RgbaOps(pixels), px, cache) == pixels
    decreases |pixels|
  {
    if pixels != [] {
      var p := pixels[0];
      assert RgbaOps(pixels)[1..] == RgbaOps(pixels[1..]);
      RenderRgbaOps(pixels[1..], p, cache[Hash(p) := p]);
      assert pixels == [p] + pixels[1..];
    }
  }

  /** Decoding what the RGBA-only encoder writes gives back the exact pixel grid. */
  lemma RgbaRoundTrip(width: nat, height: nat, pixels: seq<Pixel>)
    requires width < 0x1_0000_0000 && height < 0x1_0000_0000 && |pixels| == width * height
    ensures Decode(Encode(width, height, 4, 0, RgbaOps(pixels))) == Ok(Image(width, height, 4, pixels))
  {
    RenderRgbaOps(pixels, StartPixel, EmptyCache());
    RoundTrip(width, height, 4, 0, RgbaOps(pixels));
  }

  /** A 1x1 header with no chunk after it: the single pixel owed is read from past the
      end of the buffer, and Python's `IndexError` escapes the decoder. */
  lemma TruncatedSinglePixelFails()
    ensures Decode(Magic + [0, 0, 0, 1, 0, 0, 0, 1, 4, 0]) == Err(IndexOutOfRange)
  {
    var data := Magic + [0, 0, 0, 1, 0, 0, 0, 1, 4, 0];
    assert data[..4] == Magic;
    assert U32BE(data, 4) == 1 && U32BE(data, 8) == 1;
  }

  /** A 2x1 header followed by one stray RGB control byte: the read position is at the
      last byte with two pixels owed, so the byte is never read and both pixels are the
      starting colour. */
  lemma ExhaustedStreamIsPadded()
    ensures Decode(Magic + [0, 0, 0, 2, 0, 0, 0, 1, 4, 0, 0xfe])
         == Ok(Image(2, 1, 4, [StartPixel, StartPixel]))
  {
    var data := Magic + [0, 0, 0, 2, 0, 0, 0, 1, 4, 0, 0xfe];
    assert data[..4] == Magic;
    assert U32BE(data, 4) == 2 && U32BE(data, 8) == 1;
    assert Repeat(StartPixel, 2) == [StartPixel, StartPixel];
  }
}
