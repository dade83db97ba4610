/** The consumers a playlist feeds: a sink, which hands out decoded buffers,
    and an encoder, which hands out encoded ones.  Each wraps one native
    object whose `playlist` pointer the engine sets on attach and clears on
    detach; the native calls each wrapper makes are recorded in order. */
module Consumers {
  import opened Wrappers
  import opened Formats
  import opened Engine
  import opened Media
  import opened Buffers

  /** The native lifecycle calls of a sink or an encoder. */
  datatype ConsumerCall = AttachCall(playlist: Playlist) | DetachCall | DestroyCall

  /** `Sink`. */
  class Sink {
    var audioFormat: GrooveAudioFormat
    var disableResample: Int32
    var playlist: Playlist?
    ghost var calls: seq<ConsumerCall>

    /** `Sink::new`: a detached native sink. */
    constructor ()
      ensures playlist == null && calls == []
    {
      audioFormat := GrooveAudioFormat(0, 0, 0);
      disableResample := 0;
      playlist := null;
      calls := [];
    }

    /** `set_audio_format`: the native field reads back as the same format,
        up to the codes mono and planar "no type" share. */
    method SetAudioFormat(format: AudioFormat)
      modifies this`audioFormat
      ensures audioFormat == AudioFormatToGroove(format)
      ensures AudioFormatFromGroove(audioFormat) == Value(NormalAudioFormat(format))
    {
      audioFormat := AudioFormatToGroove(format);
      AudioFormatRoundTrip(format);
    }

    /** `disable_resample`: the native flag is non-zero exactly when
        resampling is disabled. */
    method DisableResample(disabled: bool)
      modifies this`disableResample
      ensures disableResample != 0 <==> disabled
      ensures disableResample in {0, 1}
    {
      disableResample := if disabled then 1 else 0;
    }

    /** `attach`: `code` is the engine's answer; the engine records the
        playlist only on success. */
    method Attach(p: Playlist, code: Int32) returns (r: EngineResult)
      modifies this`playlist, this`calls
      ensures r.Ok? <==> code >= 0
      ensures r.Err? ==> r.code == code
      ensures playlist == if code >= 0 then p else old(playlist)
      ensures calls == old(calls) + [AttachCall(p)]
    {
      calls := calls + [AttachCall(p)];
      if code >= 0 {
        playlist := p;
      }
      r := CheckCode(code);
    }

    /** `detach`: the engine's result is ignored; the sink is detached
        afterwards. */
    method Detach()
      modifies this`playlist, this`calls
      ensures playlist == null
      ensures calls == old(calls) + [DetachCall]
    {
      calls := calls + [DetachCall];
      playlist := null;
    }

    /** `buffer_get_blocking`: `status` is the engine's status and `buffer`
        the buffer it produced. */
    method BufferGetBlocking(status: Int32, buffer: DecodedBuffer) returns (r: Checked<Option<DecodedBuffer>>)
      ensures r == BlockingPull(status, buffer)
    {
      r := BlockingPull(status, buffer);
    }

    /** `Drop for Sink`: detaches only a sink that is attached, then
        destroys it. */
    method Drop()
      modifies this`playlist, this`calls
      ensures playlist == null
      ensures calls == old(calls) + if old(playlist) != null then [DetachCall, DestroyCall] else [DestroyCall]
    {
      if playlist != null {
        Detach();
      }
      calls := calls + [DestroyCall];
    }
  }

  const DEFAULT_SAMPLE_RATE: Int32 := 44100
  const DEFAULT_BIT_RATE: Int32 := 256000

  /** `Encoder`. */
  class Encoder {
    var targetAudioFormat: GrooveAudioFormat
    var bitRate: Int32
    var playlist: Playlist?
    var actualAudioFormat: GrooveAudioFormat
    ghost var calls: seq<ConsumerCall>

    /** `Encoder::new`: a detached native encoder targeting 44100 Hz, signed
        16-bit interleaved stereo at 256000 bits per second. */
    constructor ()
      ensures playlist == null && calls == []
      ensures targetAudioFormat == GrooveAudioFormat(DEFAULT_SAMPLE_RATE, CH_LAYOUT_STEREO, SAMPLE_FMT_S16)
      ensures TargetAudioFormat() == Value(AudioFormat(DEFAULT_SAMPLE_RATE, LayoutStereo, SampleFormat(S16, false)))
      ensures bitRate == DEFAULT_BIT_RATE
    {
      targetAudioFormat := GrooveAudioFormat(DEFAULT_SAMPLE_RATE, CH_LAYOUT_STEREO, SAMPLE_FMT_S16);
      bitRate := DEFAULT_BIT_RATE;
      playlist := null;
      actualAudioFormat := GrooveAudioFormat(0, 0, 0);
      calls := [];
    }

    /** `get_target_audio_format`: decodes the native field, panicking on a
        code no format has. */
    function TargetAudioFormat(): (r: Checked<AudioFormat>)
      reads this
      ensures r.Value? ==> AudioFormatToGroove(r.value) == targetAudioFormat
      ensures r.Panic? <==> AudioFormatFromGroove(targetAudioFormat).Panic?
    {
      AudioFormatFromGroove(targetAudioFormat)
    }

    /** `get_actual_audio_format`. */
    function ActualAudioFormat(): (r: Checked<AudioFormat>)
      reads this
      ensures r.Value? ==> AudioFormatToGroove(r.value) == actualAudioFormat
      ensures r.Panic? <==> AudioFormatFromGroove(actualAudioFormat).Panic?
    {
      AudioFormatFromGroove(actualAudioFormat)
    }

    /** `set_target_audio_format`: the target then reads back as `format`,
        up to the codes mono and planar "no type" share. */
    method SetTargetAudioFormat(format: AudioFormat)
      modifies this`targetAudioFormat
      ensures targetAudioFormat == AudioFormatToGroove(format)
      ensures TargetAudioFormat() == Value(NormalAudioFormat(format))
    {
      targetAudioFormat := AudioFormatToGroove(format);
      AudioFormatRoundTrip(format);
    }

    /** `set_bit_rate`: `BitRate` then returns `rate`. */
    method SetBitRate(rate: Int32)
      modifies this`bitRate
      ensures BitRate() == rate
    {
      bitRate := rate;
    }

    /** `get_bit_rate`. */
    function BitRate(): (rate: Int32)
      reads this
      ensures rate == bitRate
    {
      bitRate
    }

    /** `metadata_set`: as for a file, a NUL in the key or the value panics
        before the engine is asked; `engine` is the engine's answer to each
        request. */
    function MetadataSet(key: string, value: string, caseSensitive: bool,
                         engine: TagUpdate -> Int32): (r: Checked<EngineResult>)
      ensures r.Panic? <==> '\0' in key || '\0' in value
      ensures r.Panic? ==> r.msg == INTERIOR_NUL
      ensures r.Value? ==> (r.value.Ok? <==> engine(MetadataSetRequest(key, value, caseSensitive)) >= 0)
      ensures r.Value? && r.value.Err? ==> r.value.code == engine(MetadataSetRequest(key, value, caseSensitive))
    {
      match CStringOf(key)
      case Panic(m) => Panic(m)
      case Value(k) =>
        match CStringOf(value)
        case Panic(m) => Panic(m)
        case Value(v) => Value(CheckCode(engine(MetadataSetRequest(k, v, caseSensitive))))
    }

    /** `attach`: `code` is the engine's answer and `actual` the format the
        engine settles on; on success it records both the playlist and that
        format. */
    method Attach(p: Playlist, code: Int32, actual: GrooveAudioFormat) returns (r: EngineResult)
      modifies this`playlist, this`actualAudioFormat, this`calls
      ensures r.Ok? <==> code >= 0
      ensures r.Err? ==> r.code == code
      ensures playlist == if code >= 0 then p else old(playlist)
      ensures actualAudioFormat == if code >= 0 then actual else old(actualAudioFormat)
      ensures calls == old(calls) + [AttachCall(p)]
    {
      calls := calls + [AttachCall(p)];
      if code >= 0 {
        playlist := p;
        actualAudioFormat := actual;
      }
      r := CheckCode(code);
    }

    /** `detach`. */
    method Detach()
      modifies this`playlist, this`calls
      ensures playlist == null
      ensures calls == old(calls) + [DetachCall]
    {
      calls := calls + [DetachCall];
      playlist := null;
    }

    /** `buffer_get_blocking`. */
    method BufferGetBlocking(status: Int32, buffer: EncodedBuffer) returns (r: Checked<Option<EncodedBuffer>>)
      ensures r == BlockingPull(status, buffer)
    {
      r := BlockingPull(status, buffer);
    }

    /** `Drop for Encoder`: detaches only an encoder that is attached, then
        destroys it. */
    method Drop()
      modifies this`playlist, this`calls
      ensures playlist == null
      ensures calls == old(calls) + if old(playlist) != null then [DetachCall, DestroyCall] else [DestroyCall]
    {
      if playlist != null {
        Detach();
      }
      calls := calls + [DestroyCall];
    }
  }
}
