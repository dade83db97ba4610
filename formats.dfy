/** The enums of the safe layer and their native integer codes:
    sample formats, channel layouts, audio formats, fill modes and log
    levels. */
module Formats {
  import opened Wrappers

  // ---------------------------------------------------------------- samples

  datatype SampleType = NoType | U8 | S16 | S32 | Flt | Dbl

  /** How samples are laid out; planar means one plane per channel. */
  datatype SampleFormat = SampleFormat(sampleType: SampleType, planar: bool)

  const SAMPLE_FMT_NONE: Int32 := -1
  const SAMPLE_FMT_U8: Int32 := 0
  const SAMPLE_FMT_S16: Int32 := 1
  const SAMPLE_FMT_S32: Int32 := 2
  const SAMPLE_FMT_FLT: Int32 := 3
  const SAMPLE_FMT_DBL: Int32 := 4
  const SAMPLE_FMT_U8P: Int32 := 5
  const SAMPLE_FMT_S16P: Int32 := 6
  const SAMPLE_FMT_S32P: Int32 := 7
  const SAMPLE_FMT_FLTP: Int32 := 8
  const SAMPLE_FMT_DBLP: Int32 := 9

  const INVALID_SAMPLE_FORMAT: string := "invalid sample format value"

  /** The code of a sample format: interleaved types take 0..4, planar types
      5..9, and "no type" is -1 whatever its planarity. */
  function SampleFormatToGroove(f: SampleFormat): (code: Int32)
    ensures SAMPLE_FMT_NONE <= code <= SAMPLE_FMT_DBLP
    ensures code == SAMPLE_FMT_NONE <==> f.sampleType == NoType
    ensures code >= SAMPLE_FMT_U8P <==> f.planar && f.sampleType != NoType
  {
    match (f.sampleType, f.planar)
    case (NoType, false) => SAMPLE_FMT_NONE
    case (U8, false) => SAMPLE_FMT_U8
    case (S16, false) => SAMPLE_FMT_S16
    case (S32, false) => SAMPLE_FMT_S32
    case (Flt, false) => SAMPLE_FMT_FLT
    case (Dbl, false) => SAMPLE_FMT_DBL
    case (NoType, true) => SAMPLE_FMT_NONE
    case (U8, true) => SAMPLE_FMT_U8P
    case (S16, true) => SAMPLE_FMT_S16P
    case (S32, true) => SAMPLE_FMT_S32P
    case (Flt, true) => SAMPLE_FMT_FLTP
    case (Dbl, true) => SAMPLE_FMT_DBLP
  }

  /** Decodes a sample-format code; any code outside -1..9 panics.  Every code
      it accepts is re-encoded to itself, and -1 decodes as interleaved. */
  function SampleFormatFromGroove(code: Int32): (r: Checked<SampleFormat>)
    ensures r.Value? <==> SAMPLE_FMT_NONE <= code <= SAMPLE_FMT_DBLP
    ensures r.Panic? ==> r.msg == INVALID_SAMPLE_FORMAT
    ensures r.Value? ==> SampleFormatToGroove(r.value) == code
    ensures r.Value? && r.value.sampleType == NoType ==> !r.value.planar
  {
    match code
    case -1 => Value(SampleFormat(NoType, false))
    case 0 => Value(SampleFormat(U8, false))
    case 1 => Value(SampleFormat(S16, false))
    case 2 => Value(SampleFormat(S32, false))
    case 3 => Value(SampleFormat(Flt, false))
    case 4 => Value(SampleFormat(Dbl, false))
    case 5 => Value(SampleFormat(U8, true))
    case 6 => Value(SampleFormat(S16, true))
    case 7 => Value(SampleFormat(S32, true))
    case 8 => Value(SampleFormat(Flt, true))
    case 9 => Value(SampleFormat(Dbl, true))
    case _ => Panic(INVALID_SAMPLE_FORMAT)
  }

  /** The sample format a round trip through the native code yields: the
      planarity of "no type" is lost. */
  function NormalSampleFormat(f: SampleFormat): SampleFormat
  {
    if f.sampleType == NoType then SampleFormat(NoType, false) else f
  }

  lemma SampleFormatRoundTrip(f: SampleFormat)
    ensures SampleFormatFromGroove(SampleFormatToGroove(f)) == Value(NormalSampleFormat(f))
    ensures f.sampleType != NoType ==> SampleFormatFromGroove(SampleFormatToGroove(f)) == Value(f)
  {
  }

  /** (NoType, planar) does not survive the round trip. */
  lemma PlanarNoTypeComesBackInterleaved()
    ensures SampleFormatFromGroove(SampleFormatToGroove(SampleFormat(NoType, true)))
         == Value(SampleFormat(NoType, false))
  {
  }

  lemma SampleCodeRoundTrip(code: Int32)
    requires SAMPLE_FMT_NONE <= code <= SAMPLE_FMT_DBLP
    ensures SampleFormatFromGroove(code).Value?
    ensures SampleFormatToGroove(SampleFormatFromGroove(code).value) == code
  {
  }

  // ---------------------------------------------------------------- channels

  datatype ChannelLayout = FrontLeft | FrontRight | FrontCenter | LayoutMono | LayoutStereo

  const CH_FRONT_LEFT: U64 := 0x00000001
  const CH_FRONT_RIGHT: U64 := 0x00000002
  const CH_FRONT_CENTER: U64 := 0x00000004
  /** Mono is the front-centre bit itself. */
  const CH_LAYOUT_MONO: U64 := CH_FRONT_CENTER
  const CH_LAYOUT_STEREO: U64 := 0x00000003  // CH_FRONT_LEFT | CH_FRONT_RIGHT

  const INVALID_CHANNEL_LAYOUT: string := "invalid channel layout"

  function ChannelLayoutToGroove(l: ChannelLayout): (mask: U64)
    ensures mask in {CH_FRONT_LEFT, CH_FRONT_RIGHT, CH_FRONT_CENTER, CH_LAYOUT_STEREO}
    ensures mask == CH_FRONT_CENTER <==> l == FrontCenter || l == LayoutMono
  {
    match l
    case FrontLeft => CH_FRONT_LEFT
    case FrontRight => CH_FRONT_RIGHT
    case FrontCenter => CH_FRONT_CENTER
    case LayoutMono => CH_LAYOUT_MONO
    case LayoutStereo => CH_LAYOUT_STEREO
  }

  /** Decodes a channel-layout bitmask; there is no arm for mono (its mask is
      front-centre's), and every other mask panics. */
  function ChannelLayoutFromGroove(mask: U64): (r: Checked<ChannelLayout>)
    ensures r.Value? <==> mask in {CH_FRONT_LEFT, CH_FRONT_RIGHT, CH_FRONT_CENTER, CH_LAYOUT_STEREO}
    ensures r.Panic? ==> r.msg == INVALID_CHANNEL_LAYOUT
    ensures r.Value? ==> ChannelLayoutToGroove(r.value) == mask && r.value != LayoutMono
  {
    if mask == CH_FRONT_LEFT then Value(FrontLeft)
    else if mask == CH_FRONT_RIGHT then Value(FrontRight)
    else if mask == CH_FRONT_CENTER then Value(FrontCenter)
    else if mask == CH_LAYOUT_STEREO then Value(LayoutStereo)
    else Panic(INVALID_CHANNEL_LAYOUT)
  }

  function NormalChannelLayout(l: ChannelLayout): ChannelLayout
  {
    if l == LayoutMono then FrontCenter else l
  }

  lemma ChannelLayoutRoundTrip(l: ChannelLayout)
    ensures ChannelLayoutFromGroove(ChannelLayoutToGroove(l)) == Value(NormalChannelLayout(l))
  {
  }

  /** Mono and front-centre share one code, so mono never decodes back. */
  lemma MonoComesBackFrontCenter()
    ensures ChannelLayoutToGroove(LayoutMono) == ChannelLayoutToGroove(FrontCenter)
    ensures ChannelLayoutFromGroove(ChannelLayoutToGroove(LayoutMono)) == Value(FrontCenter)
    ensures forall mask: U64 :: ChannelLayoutFromGroove(mask) != Value(LayoutMono)
  {
  }

  // ---------------------------------------------------------------- formats

  /** The native `GrooveAudioFormat` record. */
  datatype GrooveAudioFormat = GrooveAudioFormat(sampleRate: Int32, channelLayout: U64, sampleFmt: Int32)

  datatype AudioFormat = AudioFormat(sampleRate: Int32, channelLayout: ChannelLayout, sampleFmt: SampleFormat)

  function AudioFormatToGroove(f: AudioFormat): (g: GrooveAudioFormat)
    ensures g.sampleRate == f.sampleRate
    ensures ChannelLayoutFromGroove(g.channelLayout) == Value(NormalChannelLayout(f.channelLayout))
    ensures SampleFormatFromGroove(g.sampleFmt) == Value(NormalSampleFormat(f.sampleFmt))
  {
    SampleFormatRoundTrip(f.sampleFmt);
    ChannelLayoutRoundTrip(f.channelLayout);
    GrooveAudioFormat(f.sampleRate, ChannelLayoutToGroove(f.channelLayout), SampleFormatToGroove(f.sampleFmt))
  }

  /** Decodes a native audio format.  The fields are decoded in order, so an
      invalid channel layout panics before the sample format is looked at. */
  function AudioFormatFromGroove(g: GrooveAudioFormat): (r: Checked<AudioFormat>)
    ensures r.Value? <==> ChannelLayoutFromGroove(g.channelLayout).Value? && SampleFormatFromGroove(g.sampleFmt).Value?
    ensures ChannelLayoutFromGroove(g.channelLayout).Panic? ==> r == Panic(INVALID_CHANNEL_LAYOUT)
    ensures ChannelLayoutFromGroove(g.channelLayout).Value? && SampleFormatFromGroove(g.sampleFmt).Panic? ==>
              r == Panic(INVALID_SAMPLE_FORMAT)
    ensures r.Value? ==> AudioFormatToGroove(r.value) == g
  {
    match ChannelLayoutFromGroove(g.channelLayout)
    case Panic(msg) => Panic(msg)
    case Value(layout) =>
      match SampleFormatFromGroove(g.sampleFmt)
      case Panic(msg) => Panic(msg)
      case Value(fmt) => Value(AudioFormat(g.sampleRate, layout, fmt))
  }

  function NormalAudioFormat(f: AudioFormat): AudioFormat
  {
    AudioFormat(f.sampleRate, NormalChannelLayout(f.channelLayout), NormalSampleFormat(f.sampleFmt))
  }

  lemma AudioFormatRoundTrip(f: AudioFormat)
    ensures AudioFormatFromGroove(AudioFormatToGroove(f)) == Value(NormalAudioFormat(f))
  {
  }

  // ---------------------------------------------------------------- modes

  datatype FillMode = EverySinkFull | AnySinkFull

  const EVERY_SINK_FULL: Int32 := 0
  const ANY_SINK_FULL: Int32 := 1

  /** The code `set_fill_mode` passes on; the two modes get distinct codes. */
  function FillModeCode(mode: FillMode): (c: Int32)
    ensures c in {EVERY_SINK_FULL, ANY_SINK_FULL}
    ensures c == EVERY_SINK_FULL <==> mode == EverySinkFull
  {
    match mode
    case EverySinkFull => EVERY_SINK_FULL
    case AnySinkFull => ANY_SINK_FULL
  }

  datatype Log = Quiet | Error | Warning | Info

  /** How much a level lets through, from quiet to informational. */
  function Verbosity(level: Log): nat
  {
    match level
    case Quiet => 0
    case Error => 1
    case Warning => 2
    case Info => 3
  }

  /** The native logging level `set_logging` passes on. */
  function LogLevelCode(level: Log): (c: Int32)
    ensures c in {-8, 16, 24, 32}
  {
    match level
    case Quiet => -8
    case Error => 16
    case Warning => 24
    case Info => 32
  }

  /** The codes grow strictly with verbosity, so distinct levels never share
      a code and a more verbose level never logs less. */
  lemma LogLevelCodeMonotonic(a: Log, b: Log)
    ensures Verbosity(a) < Verbosity(b) <==> LogLevelCode(a) < LogLevelCode(b)
  {
  }
}
