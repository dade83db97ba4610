/** The guards and lengths of the views of a decoded buffer
    (`as_slice_*` and `channel_as_slice_*`).  Slices are modelled by their
    length only; the reinterpretation of raw memory is not modelled. */
module Buffers {
  import opened Wrappers
  import opened Formats

  /** The fields of a native `GrooveBuffer` that the views read.  `size` is the
      total number of bytes it holds. */
  datatype DecodedBuffer = DecodedBuffer(format: GrooveAudioFormat, frameCount: Int32, size: Int32)

  /** An encoded buffer; only its byte size is modelled. */
  datatype EncodedBuffer = EncodedBuffer(size: Int32)

  /** The element type a view asks for: the raw accessors take bytes whatever
      the sample type, the typed ones need a matching sample type. */
  datatype View = AsRaw | AsF64 | AsF32 | AsI32 | AsI16 | AsU8

  function RequiredType(v: View): SampleType
    requires v != AsRaw
  {
    match v
    case AsF64 => Dbl
    case AsF32 => Flt
    case AsI32 => S32
    case AsI16 => S16
    case AsU8 => U8
  }

  function MismatchMessage(v: View): string
    requires v != AsRaw
  {
    match v
    case AsF64 => "buffer not in f64 format"
    case AsF32 => "buffer not in f32 format"
    case AsI32 => "buffer not in i32 format"
    case AsI16 => "buffer not in i16 format"
    case AsU8 => "buffer not in u8 format"
  }

  /** Whether view `v` may read samples of type `t`. */
  predicate Admits(v: View, t: SampleType)
  {
    v == AsRaw || t == RequiredType(v)
  }

  const NOT_INTERLEAVED: string := "as_vec works for interleaved buffers only"
  const NOT_PLANAR: string := "expected planar buffer"
  const INVALID_CHANNEL_INDEX: string := "invalid channel index"

  /** `usize` multiplication on a 64-bit target, wrapping. */
  function WrappingMul(a: U64, b: U64): U64
  {
    (a * b) % 0x1_0000_0000_0000_0000
  }

  /** `sample_format()` of a buffer: the decoded native code, panicking on
      a code no format has. */
  function BufferSampleFormat(b: DecodedBuffer): (r: Checked<SampleFormat>)
    ensures r.Panic? <==> !(SAMPLE_FMT_NONE <= b.format.sampleFmt <= SAMPLE_FMT_DBLP)
    ensures r.Panic? ==> r.msg == INVALID_SAMPLE_FORMAT
    ensures r.Value? ==> SampleFormatToGroove(r.value) == b.format.sampleFmt
  {
    SampleFormatFromGroove(b.format.sampleFmt)
  }

  /** `as_slice_generic`: `channelCount` is what the engine's
      `groove_channel_layout_count` returns for the buffer's layout. */
  function InterleavedLength(b: DecodedBuffer, channelCount: Int32): (r: Checked<U64>)
    ensures r.Value? <==> BufferSampleFormat(b).Value? && !BufferSampleFormat(b).value.planar
    ensures BufferSampleFormat(b).Panic? ==> r == Panic(INVALID_SAMPLE_FORMAT)
    ensures BufferSampleFormat(b).Value? && BufferSampleFormat(b).value.planar ==> r == Panic(NOT_INTERLEAVED)
    ensures r.Value? ==> r.value == WrappingMul(AsUsize(channelCount), AsUsize(b.frameCount))
  {
    match BufferSampleFormat(b)
    case Panic(msg) => Panic(msg)
    case Value(f) =>
      if f.planar then Panic(NOT_INTERLEAVED)
      else Value(WrappingMul(AsUsize(channelCount), AsUsize(b.frameCount)))
  }

  /** `as_slice_raw` and the typed `as_slice_*`: the typed ones first check
      the sample type, then every one needs an interleaved buffer.  The
      length counts elements of the requested type: channels × frames. */
  function AsSlice(b: DecodedBuffer, v: View, channelCount: Int32): (r: Checked<U64>)
    ensures BufferSampleFormat(b).Panic? ==> r == Panic(INVALID_SAMPLE_FORMAT)
    ensures r.Value? <==> BufferSampleFormat(b).Value? && Admits(v, BufferSampleFormat(b).value.sampleType)
                          && !BufferSampleFormat(b).value.planar
    ensures BufferSampleFormat(b).Value? && !Admits(v, BufferSampleFormat(b).value.sampleType) ==>
              r == Panic(MismatchMessage(v))
    ensures (BufferSampleFormat(b).Value? && Admits(v, BufferSampleFormat(b).value.sampleType)
             && BufferSampleFormat(b).value.planar) ==> r == Panic(NOT_INTERLEAVED)
    ensures r.Value? ==> r.value == WrappingMul(AsUsize(channelCount), AsUsize(b.frameCount))
  {
    if v == AsRaw then InterleavedLength(b, channelCount)
    else
      match BufferSampleFormat(b)
      case Panic(msg) => Panic(msg)
      case Value(f) =>
        if f.sampleType == RequiredType(v) then InterleavedLength(b, channelCount)
        else Panic(MismatchMessage(v))
  }

  /** `channel_as_slice_generic`: needs a planar buffer and a channel index
      below the channel count (read as `u32`); one channel holds `frameCount`
      samples. */
  function PlaneLength(b: DecodedBuffer, channelIndex: U32, channelCount: Int32): (r: Checked<U64>)
    ensures r.Value? <==> (BufferSampleFormat(b).Value? && BufferSampleFormat(b).value.planar
                           && channelIndex < AsU32(channelCount))
    ensures BufferSampleFormat(b).Panic? ==> r == Panic(INVALID_SAMPLE_FORMAT)
    ensures BufferSampleFormat(b).Value? && !BufferSampleFormat(b).value.planar ==> r == Panic(NOT_PLANAR)
    ensures (BufferSampleFormat(b).Value? && BufferSampleFormat(b).value.planar
             && channelIndex >= AsU32(channelCount)) ==> r == Panic(INVALID_CHANNEL_INDEX)
    ensures r.Value? ==> r.value == AsUsize(b.frameCount)
  {
    match BufferSampleFormat(b)
    case Panic(msg) => Panic(msg)
    case Value(f) =>
      if !f.planar then Panic(NOT_PLANAR)
      else if channelIndex >= AsU32(channelCount) then Panic(INVALID_CHANNEL_INDEX)
      else Value(AsUsize(b.frameCount))
  }

  /** `channel_as_slice_raw` and the typed `channel_as_slice_*`. */
  function ChannelAsSlice(b: DecodedBuffer, v: View, channelIndex: U32, channelCount: Int32): (r: Checked<U64>)
    ensures BufferSampleFormat(b).Panic? ==> r == Panic(INVALID_SAMPLE_FORMAT)
    ensures r.Value? <==> BufferSampleFormat(b).Value? && Admits(v, BufferSampleFormat(b).value.sampleType)
                          && BufferSampleFormat(b).value.planar && channelIndex < AsU32(channelCount)
    ensures BufferSampleFormat(b).Value? && !Admits(v, BufferSampleFormat(b).value.sampleType) ==>
              r == Panic(MismatchMessage(v))
    ensures (BufferSampleFormat(b).Value? && Admits(v, BufferSampleFormat(b).value.sampleType)
             && !BufferSampleFormat(b).value.planar) ==> r == Panic(NOT_PLANAR)
    ensures (BufferSampleFormat(b).Value? && Admits(v, BufferSampleFormat(b).value.sampleType)
             && BufferSampleFormat(b).value.planar && channelIndex >= AsU32(channelCount)) ==>
              r == Panic(INVALID_CHANNEL_INDEX)
    ensures r.Value? ==> r.value == AsUsize(b.frameCount)
  {
    if v == AsRaw then PlaneLength(b, channelIndex, channelCount)
    else
      match BufferSampleFormat(b)
      case Panic(msg) => Panic(msg)
      case Value(f) =>
        if f.sampleType == RequiredType(v) then PlaneLength(b, channelIndex, channelCount)
        else Panic(MismatchMessage(v))
  }

  /** No buffer has both an interleaved and a per-channel view: whatever the
      sample format, view type and channel index, one of the two panics. */
  lemma InterleavedAndPlanarViewsExclusive(b: DecodedBuffer, v: View, w: View, channelIndex: U32, channelCount: Int32)
    ensures !(AsSlice(b, v, channelCount).Value? && ChannelAsSlice(b, w, channelIndex, channelCount).Value?)
  {
  }

  /** With non-negative counts whose product fits, the interleaved view holds
      every sample of every channel and one plane holds every frame. */
  lemma ViewLengths(b: DecodedBuffer, v: View, w: View, channelIndex: U32, channelCount: Int32)
    requires 0 <= channelCount && 0 <= b.frameCount
    requires channelCount * b.frameCount < 0x1_0000_0000_0000_0000
    ensures AsSlice(b, v, channelCount).Value? ==> AsSlice(b, v, channelCount).value == channelCount * b.frameCount
    ensures ChannelAsSlice(b, w, channelIndex, channelCount).Value? ==>
              ChannelAsSlice(b, w, channelIndex, channelCount).value == b.frameCount
  {
  }

  // ------------------------------------------------ bytes per sample

  /** Sample widths in bytes, as the `SampleType` documentation gives them
      (unsigned 8 bits, signed 16 and 32 bits, 32-bit float, 64-bit double). */
  function SampleBytes(t: SampleType): nat
  {
    match t
    case NoType => 0
    case U8 => 1
    case S16 => 2
    case S32 => 4
    case Flt => 4
    case Dbl => 8
  }

  /** A native buffer whose byte size is what its format and frame count
      describe. */
  predicate Consistent(b: DecodedBuffer, channelCount: Int32)
  {
    && BufferSampleFormat(b).Value?
    && 0 <= channelCount && 0 <= b.frameCount
    && b.size == channelCount * b.frameCount * SampleBytes(BufferSampleFormat(b).value.sampleType)
  }

  lemma MulBound(a: int, b: int, bound: int)
    requires 0 <= a <= bound && 0 <= b <= bound
    ensures a * b <= bound * bound
  {
    assert a * b <= bound * b;
    assert bound * b <= bound * bound;
  }

  /** Products of non-negative `c_int` counts and a sample width fit in
      `usize`, so in a consistent buffer no multiplication wraps. */
  lemma CountProductsFit(c: Int32, f: Int32, k: nat)
    requires 0 <= c && 0 <= f && k <= 8
    ensures c * f < 0x1_0000_0000_0000_0000
    ensures f * k < 0x1_0000_0000_0000_0000
    ensures c * f * k == (c * f) * k == (f * k) * c
  {
    MulBound(c, f, INT32_MAX);
    assert f * k <= f * 8;
  }

  /** A typed interleaved view of a consistent buffer covers exactly its
      bytes: elements × element width == size. */
  lemma TypedViewCoversBuffer(b: DecodedBuffer, v: View, channelCount: Int32)
    requires v != AsRaw
    requires Consistent(b, channelCount)
    requires AsSlice(b, v, channelCount).Value?
    ensures AsSlice(b, v, channelCount).value * SampleBytes(RequiredType(v)) == b.size
  {
    var t := BufferSampleFormat(b).value.sampleType;
    assert t == RequiredType(v);
    CountProductsFit(channelCount, b.frameCount, SampleBytes(t));
  }

  /** `as_slice_raw` as written: a byte slice whose length is the number of
      samples.  For a 16-bit stereo buffer of one frame (4 bytes) it covers 2. */
  lemma RawViewMissesBytes()
    ensures var b := DecodedBuffer(GrooveAudioFormat(44100, CH_LAYOUT_STEREO, SAMPLE_FMT_S16), 1, 4);
            Consistent(b, 2) && AsSlice(b, AsRaw, 2) == Value(2) && b.size == 4
  {
  }

  /** `channel_as_slice_raw` as written: one plane of a 32-bit float planar
      stereo buffer of one frame holds 4 bytes, the view covers 1. */
  lemma RawPlaneViewMissesBytes()
    ensures var b := DecodedBuffer(GrooveAudioFormat(44100, CH_LAYOUT_STEREO, SAMPLE_FMT_FLTP), 1, 8);
            Consistent(b, 2) && ChannelAsSlice(b, AsRaw, 0, 2) == Value(1) && b.size == 2 * 4
  {
  }

  /** `as_slice_raw` corrected: all the buffer data as bytes, so the length is
      channels × frames × bytes per sample. */
  function RawBytes(b: DecodedBuffer, channelCount: Int32): (r: Checked<U64>)
    ensures r.Value? <==> AsSlice(b, AsRaw, channelCount).Value?
    ensures r.Panic? ==> r == AsSlice(b, AsRaw, channelCount)
    ensures r.Value? && Consistent(b, channelCount) ==> r.value == b.size
  {
    match InterleavedLength(b, channelCount)
    case Panic(msg) => Panic(msg)
    case Value(n) =>
      ConsistentBytesFit(b, channelCount);
      Value(WrappingMul(n, SampleBytes(BufferSampleFormat(b).value.sampleType)))
  }

  /** `channel_as_slice_raw` corrected: one plane holds frames × bytes per
      sample bytes, and the planes together make up the buffer. */
  function RawPlaneBytes(b: DecodedBuffer, channelIndex: U32, channelCount: Int32): (r: Checked<U64>)
    ensures r.Value? <==> ChannelAsSlice(b, AsRaw, channelIndex, channelCount).Value?
    ensures r.Panic? ==> r == ChannelAsSlice(b, AsRaw, channelIndex, channelCount)
    ensures r.Value? && Consistent(b, channelCount) ==> r.value * channelCount == b.size
  {
    match PlaneLength(b, channelIndex, channelCount)
    case Panic(msg) => Panic(msg)
    case Value(n) =>
      ConsistentBytesFit(b, channelCount);
      Value(WrappingMul(n, SampleBytes(BufferSampleFormat(b).value.sampleType)))
  }

  /** In a consistent buffer the byte counts computed with `usize`
      arithmetic do not wrap. */
  lemma ConsistentBytesFit(b: DecodedBuffer, channelCount: Int32)
    ensures Consistent(b, channelCount) ==>
      && WrappingMul(WrappingMul(AsUsize(channelCount), AsUsize(b.frameCount)),
                     SampleBytes(BufferSampleFormat(b).value.sampleType)) == b.size
      && WrappingMul(AsUsize(b.frameCount), SampleBytes(BufferSampleFormat(b).value.sampleType)) * channelCount
         == b.size
  {
    if Consistent(b, channelCount) {
      var c: int, f: int, k := channelCount, b.frameCount, SampleBytes(BufferSampleFormat(b).value.sampleType);
      CountProductsFit(c, f, k);
      assert AsUsize(c) == c && AsUsize(f) == f;
      assert WrappingMul(c, f) == c * f;
      assert WrappingMul(c * f, k) == b.size;
      assert WrappingMul(f, k) == f * k;
    }
  }

  /** `EncodedBuffer::as_vec`: all the encoded bytes. */
  function EncodedBytes(b: EncodedBuffer): (n: U64)
    ensures b.size >= 0 ==> n == b.size
  {
    AsUsize(b.size)
  }
}
