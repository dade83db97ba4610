# groove-rs safe layer, modelled in Dafny

groove-rs is a Rust wrapper around libgroove, a native audio engine. Most of
`src/lib.rs` passes calls straight to the engine. The part modelled here is
the wrapper's own logic:

- **Registry** (`registry.dfy`). The process-wide reference-counting registry
  (`PointerReferenceCounter`) decides when a native file is closed. It is a
  class with the real count map and two ghost records: the log of successful
  operations and the sequence of destroyed handles. The class invariant says
  the state is the replay of the log. The lemmas about replays carry the
  lifetime properties: counts track increments minus decrements, a `decr`
  panics exactly when it over-releases, a handle is destroyed exactly when its
  releases balance its acquisitions, and never twice without a new `incr`.
- **Media** (`media.dfy`). `File` open/drop, the `Playlist` class
  (append/insert/clear/drop/iter/len/first/last/set_fill_mode), `PlaylistItem`
  accessors, and the two iterators.
  - The native playlist is a sequence of items. The engine's insert may fail,
    which is modelled by an `allocates` flag.
  - Each wrapper site performs exactly one registry operation, and those
    contracts say so.
  - `Clear` releases the files snapshotted before the native clear, once each.
- **Formats** (`formats.dfy`). The codecs between the Rust enums and the
  native integer codes, with their round trips and quirks: mono and
  front-centre share a code, and a planar "no type" comes back interleaved.
  Also the fill-mode and logging-level maps.
- **Engine** (`engine.dfy`). The error-code-to-`Result` rule, the decoding of
  a blocking buffer pull's status, and tag-update requests.
- **Buffers** (`buffers.dfy`). The guards and lengths of the decoded-buffer
  views. Slices are modelled by length only.
- **Consumers** (`consumers.dfy`). The `Sink` and `Encoder` classes: setters,
  attach/detach, blocking pulls, and a `drop` that detaches only when attached
  and then destroys.

Shared types:

- `Wrappers.Checked` is `Value(v)` or `Panic(msg)`. A Rust `panic!` or
  `expect` becomes `Panic` with the source's exact message. A panic raised
  inside the standard library (a C string copy of a string holding a NUL)
  carries a descriptive message instead.
- `Int32`, `U32` and `U64` are the C and Rust integer widths. Casts between
  them are written out (`AsU32`, `AsUsize`, `WrappingMul`).

Engine results are parameters of the operations that depend on them: the
handle `groove_file_open` returns, whether an insert's allocation succeeds,
attach codes, buffer statuses, the channel count of a layout, and the engine's
answers to tag and save requests. The global registry behind a mutex is an
explicit `ReferenceCounter` object passed to every operation that uses it.

## Model

| member | source | states |
|---|---|---|
| Wrappers.AsU32 | src/lib.rs:348-349 | `c_int as u32` is the two's-complement reinterpretation: the value itself when non-negative, plus 2^32 when negative |
| Wrappers.AsUsize | src/lib.rs:431-432 | `c_int as usize` on a 64-bit target: the value when non-negative, plus 2^64 when negative |
| Registry.Step | src/lib.rs:1246-1261 | one `incr`/`decr`: defined unless it is a `decr` of an untracked handle; the count of the handle goes up or down by one, every other handle keeps its count, and the handle is destroyed exactly when a `decr` finds its count at 1 |
| Registry.IncrOps | src/lib.rs:1246-1252 | the log of registering each handle of a list once: one operation per handle, the k-th being the `incr` of the k-th handle |
| Registry.DecrOps | src/lib.rs:1253-1261 | the log of releasing each handle of a list once: one operation per handle, the k-th being the `decr` of the k-th handle |
| Registry.RunFrom | src/lib.rs:1246-1261 | replaying a log of `incr`/`decr` calls one after the other: an empty log changes nothing, and the destroy record only grows: the old record is a prefix of the new one |
| Registry.ReferenceCounter.constructor | src/lib.rs:1241-1245 | a new counter tracks no handle, has destroyed nothing and is the replay of the empty log |
| Registry.RunFromAppend | src/lib.rs:1240-1262 | replaying two logs one after the other is replaying their concatenation, and a panic in the first ends the replay |
| Registry.RunTracksBalance | src/lib.rs:1246-1261 | after any replay, every handle's count is its starting count plus its increments minus its decrements |
| Registry.RunDefinedIff | src/lib.rs:1254 | a replay panics with "too many dereferences" if and only if some `decr` finds its handle's count already at zero |
| Registry.LifetimeEndsInOneDestroy | src/lib.rs:1253-1261 | a handle's destroys plus whether it is still tracked equals the same number before, plus the lifetimes started (an `incr` of an untracked handle); so each lifetime ends in at most one destroy |
| Registry.DestroyExactlyWhenBalanced | src/lib.rs:1255-1260 | from an empty registry, a `decr` destroys the handle exactly when, counting it, the handle's decrements equal its increments; otherwise it destroys nothing |
| Registry.NoSecondDestroyWithoutIncr | src/lib.rs:1253-1261 | once a handle is untracked, no sequence of operations without an `incr` of it can destroy it again; any `decr` of it panics |
| Registry.AcquireAll | src/lib.rs:1246-1252 | registering a list of handles always succeeds, destroys nothing, and adds each handle's number of occurrences to its count |
| Registry.ReleaseAll | src/lib.rs:1253-1261 | releasing a list of handles succeeds when every handle is held at least as often as it occurs; each count drops by its occurrences and exactly the handles that reach zero are destroyed, once each |
| Registry.CountsDetermineMap | src/lib.rs:1236-1238 | two registries whose counts agree on every handle have the same map (no entry is ever 0) |
| Registry.AcquireThenRelease | src/lib.rs:1246-1261 | acquiring and then releasing the same handles, in any order, restores every count and destroys only the handles untracked at the start, once each |
| Registry.ReferenceCounter.Incr | src/lib.rs:1246-1252 | the count of `h` becomes its old count (0 if absent) plus one; every other handle is unchanged; nothing is destroyed; the invariant holds |
| Registry.ReferenceCounter.Decr | src/lib.rs:1253-1261 | on an untracked handle it panics with "too many dereferences" and changes nothing; at count 1 it removes the entry and destroys the handle once; otherwise it stores count-1 and destroys nothing |
| Formats.SampleFormatToGroove | src/lib.rs:900-917 | codes lie in -1..9; -1 exactly for "no type"; 5..9 exactly for planar formats with a type |
| Formats.SampleFormatFromGroove | src/lib.rs:918-935 | decodes exactly the codes -1..9, panicking with "invalid sample format value" otherwise; every decoded format re-encodes to its code; -1 decodes as interleaved |
| Formats.SampleFormatRoundTrip | src/lib.rs:900-935 | decoding an encoded sample format gives it back, except that a planar "no type" comes back interleaved |
| Formats.PlanarNoTypeComesBackInterleaved | src/lib.rs:911 | (NoType, planar) encodes to -1, which decodes to (NoType, interleaved) |
| Formats.SampleCodeRoundTrip | src/lib.rs:900-935 | every code in -1..9 decodes and re-encodes to itself |
| Formats.ChannelLayoutToGroove | src/lib.rs:824-851 | masks are 1, 2, 4 or 3; mono and front-centre both give 4 |
| Formats.ChannelLayoutFromGroove | src/lib.rs:852-860 | decodes exactly the masks 1, 2, 4 and 3, panicking with "invalid channel layout" otherwise; the result re-encodes to the mask and is never mono |
| Formats.ChannelLayoutRoundTrip | src/lib.rs:842-860 | decoding an encoded layout gives it back, with mono coming back as front-centre |
| Formats.MonoComesBackFrontCenter | src/lib.rs:827 | mono and front-centre share a code, mono decodes as front-centre, and no mask decodes as mono |
| Formats.AudioFormatToGroove | src/lib.rs:991-997 | the sample rate is kept, and both codes decode back to the normalised layout and sample format |
| Formats.AudioFormatFromGroove | src/lib.rs:984-990 | defined exactly when both codes decode; an invalid layout panics first; a decoded format re-encodes to the native record |
| Formats.AudioFormatRoundTrip | src/lib.rs:983-998 | decoding an encoded audio format gives it back, normalised for mono and planar "no type" |
| Formats.FillModeCode | src/lib.rs:604-610 | each mode maps to its own code, 0 for "every sink full" and 1 for "any sink full" |
| Formats.LogLevelCode | src/lib.rs:1194-1203 | the code is one of -8, 16, 24, 32 |
| Formats.LogLevelCodeMonotonic | src/lib.rs:1196-1201 | a level is more verbose than another exactly when its code is larger |
| Engine.CheckCode | src/lib.rs:171-180 | a native call succeeds exactly when its code is non-negative; a failure carries the code unchanged |
| Engine.BlockingPull | src/lib.rs:190-199 | status 1 gives the buffer, 2 gives end of playlist, 0 panics with "did not expect BUFFER_NO when blocking", any other status panics with "unexpected buffer result" |
| Engine.TagFlags | src/lib.rs:715 | the flags are `TAG_MATCH_CASE` exactly when matching is case-sensitive, else 0 |
| Engine.CStringOf | src/lib.rs:716-717 | `CString::from_slice` of a string's bytes: it panics exactly when the string contains a NUL, and otherwise is the string itself, free of NULs |
| Engine.MetadataSetRequest | src/lib.rs:714-720 | a set request carries the key, the value and the case flag |
| Engine.MetadataDeleteRequest | src/lib.rs:729-735 | a delete is the set request with a null value and the same flags |
| Buffers.AsSlice | src/lib.rs:371-432 | the interleaved views: an invalid code panics, a typed view panics unless the sample type matches, and any view of a planar buffer panics; otherwise the length is channels × frames (`usize` arithmetic) |
| Buffers.ChannelAsSlice | src/lib.rs:289-364 | the per-channel views: typed views need a matching sample type; an interleaved buffer panics; a channel index at or beyond the channel count panics; otherwise the length is the frame count |
| Buffers.InterleavedAndPlanarViewsExclusive | src/lib.rs:342-360 | no buffer has both an interleaved and a per-channel view |
| Buffers.ViewLengths | src/lib.rs:424-439 | with non-negative counts, the interleaved view holds channels × frames elements and a plane holds frames elements |
| Buffers.CountProductsFit | src/lib.rs:431-435 | products of non-negative `c_int` counts and a sample width fit in `usize` |
| Buffers.TypedViewCoversBuffer | src/lib.rs:371-416 | a typed interleaved view of a buffer whose size matches its format covers exactly its bytes |
| Buffers.RawViewMissesBytes | src/lib.rs:420-422 | as written: a 16-bit stereo buffer of one frame holds 4 bytes but its raw view has length 2 |
| Buffers.RawPlaneViewMissesBytes | src/lib.rs:364-366 | as written: one plane of a 32-bit float planar stereo buffer of one frame holds 4 bytes but its raw view has length 1 |
| Buffers.RawBytes | src/lib.rs:418-422 | corrected raw view: the same panics as the view as written, and on a buffer whose size matches its format its length is the buffer's byte size |
| Buffers.RawPlaneBytes | src/lib.rs:362-366 | corrected raw plane view: the same panics as the view as written, and on a consistent buffer the planes' lengths add up to the buffer's byte size |
| Buffers.ConsistentBytesFit | src/lib.rs:431-435 | in a buffer whose size matches its format, the byte counts computed with `usize` arithmetic do not wrap |
| Buffers.BufferSampleFormat | src/lib.rs:336-340 | the buffer's sample format: it panics with "invalid sample format value" exactly when the native code is outside -1..9, and a decoded format re-encodes to the native code |
| Buffers.InterleavedLength | src/lib.rs:424-439 | the element count of the interleaved view: defined exactly when the sample format decodes and is interleaved, panicking with the source's messages otherwise; it is channel count times frame count, both cast to `usize`, multiplied with wrap-around |
| Buffers.PlaneLength | src/lib.rs:342-360 | the element count of one plane: defined exactly when the format decodes, is planar and the channel index is below the channel count cast to `u32`; each failure panics with its message; the count is the frame count cast to `usize` |
| Buffers.EncodedBytes | src/lib.rs:259-267 | the encoded view covers the buffer's `size` bytes |
| Media.Open | src/lib.rs:659-672 | a null result from the engine gives `None` and changes nothing; otherwise the file is registered exactly once |
| Media.DropFile | src/lib.rs:651-655 | exactly one `decr` of the file: it panics, changing nothing, on an untracked file |
| Media.MetadataSet | src/lib.rs:714-727 | panics exactly when the key or the value contains a NUL, before the engine is asked; otherwise Ok exactly when the engine's answer to the set request is non-negative, Err carrying that answer |
| Media.MetadataDelete | src/lib.rs:729-742 | panics exactly when the key contains a NUL, before the engine is asked; otherwise Ok exactly when the engine's answer to the delete request (a null value) is non-negative, Err carrying that answer |
| Media.Save | src/lib.rs:744-753 | Ok exactly when the engine's save code is non-negative; Err carries it |
| Media.FileAudioFormat | src/lib.rs:756-767 | the engine's record is decoded; a decoded format re-encodes to it, and it panics exactly when decoding does |
| Media.Ids | src/lib.rs:493-498 | the addresses of the playlist's items, head to tail |
| Media.Files | src/lib.rs:593-596 | the items' files, head to tail |
| Media.IndexOf | src/lib.rs:572-575 | the first position of an item in the list |
| Media.IndexOfDistinct | src/lib.rs:493-498 | in a list with distinct addresses, the item at position k is found at k |
| Media.InsertBefore | src/lib.rs:553-583 | the engine's insert: one more item, before `next` or at the tail |
| Media.InsertBeforeDistinct | src/lib.rs:553-583 | inserting an item with a fresh address keeps addresses distinct and adds no other item |
| Media.NextPtr | src/lib.rs:620-629 | the `next` link of an item points into the list or is null |
| Media.Playlist.constructor | src/lib.rs:513-527 | a new playlist is empty, has gain 1.0 and fills in "every sink full" mode |
| Media.Playlist.Len | src/lib.rs:586-590 | the number of items, one per address and one per file; zero exactly when the head is null |
| Media.Playlist.First | src/lib.rs:529-534 | the head item, null exactly when the playlist is empty |
| Media.Playlist.Last | src/lib.rs:536-541 | the tail item, null exactly when the playlist is empty |
| Media.Playlist.InsertNative | src/lib.rs:67-69 | a failed allocation returns null and changes nothing; otherwise a fresh item is placed before `next` or at the tail |
| Media.Playlist.Append | src/lib.rs:553-564 | a failed native insert panics with "out of memory" and registers nothing; otherwise the new item goes to the tail and its file is registered exactly once, after the insert; the native call trace gains one insert of the new item on success and nothing on failure |
| Media.Playlist.Insert | src/lib.rs:572-583 | the same as append, with the new item placed just before `before`, and the same call trace |
| Media.Playlist.ItemFile | src/lib.rs:481-487 | returns the item's file and registers it exactly once |
| Media.Playlist.ItemGain | src/lib.rs:464-468 | the gain stored in the native item at that address |
| Media.Playlist.ItemPeak | src/lib.rs:475-479 | the peak stored in the native item at that address |
| Media.Playlist.Iter | src/lib.rs:542-546 | a fresh cursor at the head |
| Media.Playlist.Items | src/lib.rs:542-546 | collecting the iterator yields every item once, head to tail, so exactly `len` items |
| Media.Playlist.SnapshotFiles | src/lib.rs:594-595 | the files of the items, read through the iterator, head to tail |
| Media.Playlist.Clear | src/lib.rs:593-602 | the list ends empty; each snapshotted file is released once, in order, stopping at the first panic; when the playlist's references are held it succeeds and each count drops by the file's occurrences |
| Media.Playlist.Drop | src/lib.rs:505-510 | clear first, then destroy; a panic in clear skips the destroy. It keeps every promise of `Clear`: the release log on success, the message and a released prefix on a panic, and the restored counts when the playlist's references are held |
| Media.Playlist.SetFillMode | src/lib.rs:604-610 | the native fill mode becomes the mode's code |
| Media.AppendPair | src/lib.rs:553-564 | appending a then b to a new playlist leaves the files a, b, each registered once |
| Media.BuildPlaylist | src/lib.rs:553-583 | appending a, b and inserting c before b leaves the files in the order a, c, b, each registered once |
| Media.AppendAll | src/lib.rs:553-564 | appending every file of a list to a new playlist raises each handle's count by its number of occurrences among the playlist's files |
| Media.AppendAllThenClear | src/lib.rs:553-602 | appending any list of files to a new playlist and then clearing it succeeds and restores every count |
| Media.PlaylistLifecycle | src/lib.rs:505-602 | a new playlist built from files a, b and c (a and b appended, c inserted before b) yields three distinct items with files a, c, b, and dropping it succeeds and restores every count |
| Media.ReleaseFiles | src/lib.rs:598-600 | releases the files one after the other: succeeds exactly when the replay of the releases does, its new state being that replay; a panic stops after a prefix |
| Media.DecrOpsSnoc | src/lib.rs:598-600 | releasing one more file appends one `decr` to the log |
| Media.DecrOpsPrefix | src/lib.rs:598-600 | the log of releasing a prefix is the prefix of the log |
| Media.PanicPersists | src/lib.rs:1254 | a replay that panics on a prefix of the releases panics on all of them |
| Media.PlaylistIterator.constructor | src/lib.rs:542-546 | a new cursor stands at the head |
| Media.PlaylistIterator.Next | src/lib.rs:620-629 | a null cursor yields `None` and stays null; otherwise it yields the item under the cursor and moves to its `next` link, the next item in head-to-tail order |
| Media.NextTag | src/lib.rs:776-788 | the engine's lookup of every tag: the first tag after a null cursor, the following one otherwise, null after the last |
| Media.MetadataIterator.constructor | src/lib.rs:710-712 | a new tag iterator starts with a null cursor |
| Media.MetadataIterator.Next | src/lib.rs:776-788 | the cursor moves to the next tag, even when that is null; a tag is returned exactly when the new cursor is not null |
| Media.AllTags | src/lib.rs:769-789 | draining a fresh tag iterator yields every tag in order, and then it is back at its start |
| Consumers.Sink.constructor | src/lib.rs:157-163 | a new sink is detached |
| Consumers.Sink.SetAudioFormat | src/lib.rs:165-169 | the native format reads back as the given format, normalised |
| Consumers.Sink.DisableResample | src/lib.rs:204-208 | the native flag is 1 when disabled and 0 otherwise |
| Consumers.Sink.Attach | src/lib.rs:171-180 | Ok exactly when the code is non-negative, Err carrying it; the engine records the playlist only on success |
| Consumers.Sink.Detach | src/lib.rs:182-186 | the sink is detached whatever the engine answers |
| Consumers.Sink.BufferGetBlocking | src/lib.rs:190-199 | the blocking pull as decoded by `Engine.BlockingPull` |
| Consumers.Sink.Drop | src/lib.rs:145-154 | detaches only an attached sink, then destroys it |
| Consumers.Encoder.constructor | src/lib.rs:1049-1059 | a new encoder is detached, targets 44100 Hz signed 16-bit interleaved stereo (which decodes back as such) at 256000 bits per second |
| Consumers.Encoder.TargetAudioFormat | src/lib.rs:1066-1070 | decodes the target record; a decoded format re-encodes to it |
| Consumers.Encoder.ActualAudioFormat | src/lib.rs:1129-1133 | decodes the actual record; a decoded format re-encodes to it |
| Consumers.Encoder.SetTargetAudioFormat | src/lib.rs:1061-1065 | the target then reads back as the given format, normalised |
| Consumers.Encoder.SetBitRate | src/lib.rs:1077-1086 | the bit rate then reads back as given |
| Consumers.Encoder.BitRate | src/lib.rs:1082-1086 | the native bit rate |
| Consumers.Encoder.MetadataSet | src/lib.rs:1136-1149 | panics exactly when the key or the value contains a NUL, before the engine is asked; otherwise Ok exactly when the engine's answer to the set request is non-negative, Err carrying that answer |
| Consumers.Encoder.Attach | src/lib.rs:1153-1162 | Ok exactly when the code is non-negative, Err carrying it; on success the playlist and the actual format are recorded |
| Consumers.Encoder.Detach | src/lib.rs:1164-1168 | the encoder is detached whatever the engine answers |
| Consumers.Encoder.BufferGetBlocking | src/lib.rs:1172-1182 | the blocking pull as decoded by `Engine.BlockingPull` |
| Consumers.Encoder.Drop | src/lib.rs:1037-1046 | detaches only an attached encoder, then destroys it |

## Left out

- The mutex around the global registry and the `Once`-guarded `init` (src/lib.rs:22-38) exist for threads and one-time setup. The registry is a single-threaded object passed explicitly. A panic inside `decr` would poison the mutex, so that every later registry use panics too; this is not modelled.
- Everything inside the native engine is taken as given: decoding, the fill thread, the list surgery of `groove_playlist_insert`, `groove_channel_layout_count`, tag lookup and storage, saving. Their results are parameters.
- The engine's `bytes_per_sample` is not consulted. `Buffers.SampleBytes` is a fixed width table (1, 2, 4, 4 and 8 bytes, and 0 for "no type") taken from the `SampleType` documentation (src/lib.rs:884-896). `Buffers.Consistent`, `Buffers.TypedViewCoversBuffer`, `Buffers.RawBytes`, `Buffers.RawPlaneBytes` and both findings rest on that table.
- The engine's tag lookup with key "" and a `prev` cursor is assumed to visit every tag in order. That is how `MetadataIterator` uses it.
- Media.AllTags / Media.MetadataIterator: `metadata_set` and `metadata_delete` take `&self`, so tags can be edited while an iterator is live. Such edits are not modelled: the tags are fixed for the iterator's lifetime.
- `is_dirty` and `filename` (src/lib.rs:674-685) read the native file's `dirty` and `filename` fields (src/lib.rs:635-636). Those fields are not modelled: `Media.File` is only a handle.
- `metadata_get`, `duration`, `ChannelLayout::default`/`count` and `SampleFormat::bytes_per_sample` forward to the engine and are not modelled.
- Fill-mode pause/resume behaviour is inside the engine. Only the mode-to-code map is modelled.
- Floating-point values (gain, peak, duration) are carried as `real` and never computed with.
- Raw-pointer reinterpretation (`std::raw::Slice`, `transmute`) is not modelled. Slices are lengths.
- Buffers.AsSlice: `channel_count * frame_count` is modelled as wrapping `usize` multiplication. A debug build would panic on overflow instead.
- Buffer reference counting (`groove_buffer_unref` on drop) is inside the engine and not modelled.
- The encoder's string-hint setters (src/lib.rs:1091-1124) only store pointers to temporaries. Tag UTF-8 decoding, the version functions and `finish` (src/lib.rs:947-966, 1188-1224) are thin; none of them is modelled.
- The example programs (`examples/*.rs`) are command-line tools doing process I/O. They are not part of this model.
- Consumers.Sink.constructor and Consumers.Encoder.constructor: the engine's other defaults (buffer sizes, gain, a zeroed audio format) are not stated; only the documented ones are.
- Engine.CStringOf: the standard library's panic message for a string with an interior NUL is not reproduced; `INTERIOR_NUL` is a descriptive stand-in.
- Media.Playlist.Insert: requires `before` to be an item of the list. The source also accepts, say, the null item `first()` returns on an empty playlist and hands it to the engine; the library's design leaves head and tail of an empty playlist undefined, so callers check the length first. That call is not modelled.
- Media.Playlist.Drop: ownership makes a dropped playlist unusable in Rust. The model records the destroy in the call trace but does not forbid later calls.

## Findings

| source | as written | input that shows it | evidently intended | confidence | as-written member | corrected member |
|---|---|---|---|---|---|---|
| src/lib.rs:418-435 | `as_slice_raw` ("all the buffer data as [u8]") reuses `as_slice_generic`, whose length counts samples (channels × frames), not bytes | interleaved signed 16-bit stereo, 1 frame, 4 bytes: the byte view has length 2 | length channels × frames × bytes per sample, i.e. the buffer's byte size | medium, not executed | Buffers.RawViewMissesBytes | Buffers.RawBytes |
| src/lib.rs:342-366 | `channel_as_slice_raw` reuses `channel_as_slice_generic`, whose length is the frame count, not the plane's bytes | planar 32-bit float stereo, 1 frame, 8 bytes: one plane's byte view has length 1 instead of 4 | length frames × bytes per sample | medium, not executed | Buffers.RawPlaneViewMissesBytes | Buffers.RawPlaneBytes |
