/** How the safe layer reads the native engine's return values: signed error
    codes, the three-way status of a buffer pull, and tag-lookup flags. */
module Engine {
  import opened Wrappers

  /** `Result<(), i32>` of attach, metadata_set, metadata_delete and save. */
  datatype EngineResult = Ok | Err(code: Int32)

  /** A native call succeeded exactly when its code is non-negative; a failure
      carries the engine's code unchanged. */
  function CheckCode(code: Int32): (r: EngineResult)
    ensures r.Ok? <==> code >= 0
    ensures r.Err? ==> r.code == code && r.code < 0
  {
    if code >= 0 then Ok else Err(code)
  }

  const BUFFER_NO: Int32 := 0
  const BUFFER_YES: Int32 := 1
  const BUFFER_END: Int32 := 2

  const NO_WHEN_BLOCKING: string := "did not expect BUFFER_NO when blocking"
  const UNEXPECTED_BUFFER_RESULT: string := "unexpected buffer result"

  /** The outcome of a blocking buffer pull with native status `status`:
      the buffer for "yes", end of playlist (`None`) for "end"; "no" cannot
      happen when blocking and panics, as does any other status. */
  function BlockingPull<B>(status: Int32, buffer: B): (r: Checked<Option<B>>)
    ensures r == Value(Some(buffer)) <==> status == BUFFER_YES
    ensures r == Value(None) <==> status == BUFFER_END
    ensures r.Panic? <==> status != BUFFER_YES && status != BUFFER_END
    ensures status == BUFFER_NO ==> r == Panic(NO_WHEN_BLOCKING)
    ensures r.Panic? && status != BUFFER_NO ==> r.msg == UNEXPECTED_BUFFER_RESULT
  {
    if status == BUFFER_NO then Panic(NO_WHEN_BLOCKING)
    else if status == BUFFER_YES then Value(Some(buffer))
    else if status == BUFFER_END then Value(None)
    else Panic(UNEXPECTED_BUFFER_RESULT)
  }

  const TAG_MATCH_CASE: Int32 := 1

  /** The flags of a tag lookup or update: match case only when asked. */
  function TagFlags(caseSensitive: bool): (flags: Int32)
    ensures flags == TAG_MATCH_CASE <==> caseSensitive
    ensures !caseSensitive ==> flags == 0
  {
    if caseSensitive then TAG_MATCH_CASE else 0
  }

  const INTERIOR_NUL: string := "interior nul byte in C string"

  /** `CString::from_slice(s.as_bytes())`: the C copy of a Rust string.  NUL
      is the only character whose UTF-8 encoding holds a zero byte, so the
      copy panics exactly when `s` contains a NUL, and is otherwise `s`. */
  function CStringOf(s: string): (r: Checked<string>)
    ensures r.Panic? <==> '\0' in s
    ensures r.Panic? ==> r.msg == INTERIOR_NUL
    ensures r.Value? ==> r.value == s && forall i :: 0 <= i < |r.value| ==> r.value[i] != '\0'
  {
    if '\0' in s then Panic(INTERIOR_NUL) else Value(s)
  }

  /** What a tag update asks the engine to do: set `key` to `value`, or
      delete it when `value` is `None` (a null value pointer). */
  datatype TagUpdate = TagUpdate(key: string, value: Option<string>, flags: Int32)

  function MetadataSetRequest(key: string, value: string, caseSensitive: bool): (u: TagUpdate)
    ensures u.key == key && u.value == Some(value)
    ensures u.flags == TAG_MATCH_CASE <==> caseSensitive
  {
    TagUpdate(key, Some(value), TagFlags(caseSensitive))
  }

  /** Deleting a tag is the set call with a null value. */
  function MetadataDeleteRequest(key: string, caseSensitive: bool): (u: TagUpdate)
    ensures u.key == key && u.value.None?
    ensures u.flags == MetadataSetRequest(key, "", caseSensitive).flags
  {
    TagUpdate(key, None, TagFlags(caseSensitive))
  }
}
