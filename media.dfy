/** Files, playlists and their iterators, and how each of them keeps the file
    registry balanced.

    The native engine is abstract here: an opened file is a `Handle`, the
    native playlist (a doubly linked list) is the sequence of its items from
    head to tail, and the results of native calls that the wrapper cannot see
    into (open, the allocation inside an insert, tag-store calls) are
    parameters. */
module Media {
  import opened Wrappers
  import opened Registry
  import opened Formats
  import opened Engine

  /** A double that the wrapper stores and returns but never computes with. */
  type F64 = real

  /** The identity (address) of a native playlist item. */
  type ItemId = nat

  // ------------------------------------------------------------------ files

  /** `File`: one alias of a native file; every alias holds one count in the
      registry. */
  datatype File = File(handle: Handle)

  /** `File::open`.  `native` is what the engine's open returned (`None` for a
      null pointer: unreadable, corrupt or unsupported).  A file is counted
      once, and only when the engine produced one. */
  method Open(rc: ReferenceCounter, native: Option<Handle>) returns (f: Option<File>)
    requires rc.Valid()
    modifies rc
    ensures rc.Valid()
    ensures f.None? <==> native.None?
    ensures native.None? ==> rc.counts == old(rc.counts) && rc.destroyed == old(rc.destroyed) && rc.log == old(rc.log)
    ensures native.Some? ==> f == Some(File(native.value)) && rc.Incremented(native.value)
  {
    match native
    case None =>
      f := None;
    case Some(h) =>
      rc.Incr(h);
      f := Some(File(h));
  }

  /** `File::drop`: releases this alias, closing the native file when it was
      the last one, and panicking if the registry does not know the file. */
  method DropFile(rc: ReferenceCounter, f: File) returns (r: Checked<()>)
    requires rc.Valid()
    modifies rc
    ensures rc.Valid()
    ensures r.Panic? <==> f.handle !in old(rc.counts)
    ensures r.Panic? ==> r.msg == TOO_MANY_DEREFERENCES && rc.counts == old(rc.counts)
                         && rc.destroyed == old(rc.destroyed) && rc.log == old(rc.log)
    ensures r.Value? ==> rc.Decremented(f.handle)
  {
    r := rc.Decr(f.handle);
  }

  /** `metadata_set`: copies the key, then the value, into C strings (either
      copy panics on a NUL, before the engine is asked), then asks the engine
      to set the tag; `engine` is the engine's answer to each request.  Ok
      exactly when the answer is non-negative. */
  function MetadataSet(f: File, key: string, value: string, caseSensitive: bool,
                       engine: (Handle, TagUpdate) -> Int32): (r: Checked<EngineResult>)
    ensures r.Panic? <==> '\0' in key || '\0' in value
    ensures r.Panic? ==> r.msg == INTERIOR_NUL
    ensures r.Value? ==> (r.value.Ok? <==> engine(f.handle, MetadataSetRequest(key, value, caseSensitive)) >= 0)
    ensures r.Value? && r.value.Err? ==> r.value.code == engine(f.handle, MetadataSetRequest(key, value, caseSensitive))
  {
    match CStringOf(key)
    case Panic(m) => Panic(m)
    case Value(k) =>
      match CStringOf(value)
      case Panic(m) => Panic(m)
      case Value(v) => Value(CheckCode(engine(f.handle, MetadataSetRequest(k, v, caseSensitive))))
  }

  /** `metadata_delete`: the same engine call with a null value; only the
      key is copied, so only a NUL in the key panics. */
  function MetadataDelete(f: File, key: string, caseSensitive: bool,
                          engine: (Handle, TagUpdate) -> Int32): (r: Checked<EngineResult>)
    ensures r.Panic? <==> '\0' in key
    ensures r.Panic? ==> r.msg == INTERIOR_NUL
    ensures r.Value? ==> (r.value.Ok? <==> engine(f.handle, MetadataDeleteRequest(key, caseSensitive)) >= 0)
    ensures r.Value? && r.value.Err? ==> r.value.code == engine(f.handle, MetadataDeleteRequest(key, caseSensitive))
  {
    match CStringOf(key)
    case Panic(m) => Panic(m)
    case Value(k) => Value(CheckCode(engine(f.handle, MetadataDeleteRequest(k, caseSensitive))))
  }

  /** `save`: `engine` is the engine's answer to saving each file. */
  function Save(f: File, engine: Handle -> Int32): (r: EngineResult)
    ensures r.Ok? <==> engine(f.handle) >= 0
    ensures r.Err? ==> r.code == engine(f.handle)
  {
    CheckCode(engine(f.handle))
  }

  /** `audio_format`: the engine fills a native record, which is decoded. */
  function FileAudioFormat(native: GrooveAudioFormat): (r: Checked<AudioFormat>)
    ensures r.Value? ==> AudioFormatToGroove(r.value) == native
    ensures r.Panic? <==> AudioFormatFromGroove(native).Panic?
  {
    AudioFormatFromGroove(native)
  }

  // ------------------------------------------------------------- playlists

  /** A native playlist item: its address, its file, gain and peak. */
  datatype NativeItem = NativeItem(id: ItemId, file: Handle, gain: F64, peak: F64)

  /** A nullable item pointer (`head`, `tail`, `next`, an iterator's cursor). */
  datatype ItemPtr = Null | Ptr(id: ItemId)

  /** `PlaylistItem`: a reference to a native item. */
  datatype PlaylistItem = PlaylistItem(id: ItemId)

  /** The native playlist calls, in the order the wrapper makes them. */
  datatype PlaylistCall = Created | Inserted(id: ItemId) | Cleared | FillModeSet(mode: Int32) | Destroyed

  const OUT_OF_MEMORY: string := "out of memory"

  function Ids(items: seq<NativeItem>): (ids: seq<ItemId>)
    ensures |ids| == |items|
    ensures forall k :: 0 <= k < |items| ==> ids[k] == items[k].id
  {
    seq(|items|, k requires 0 <= k < |items| => items[k].id)
  }

  /** The file of every item, head to tail. */
  function Files(items: seq<NativeItem>): (files: seq<Handle>)
    ensures |files| == |items|
    ensures forall k :: 0 <= k < |items| ==> files[k] == items[k].file
  {
    seq(|items|, k requires 0 <= k < |items| => items[k].file)
  }

  predicate Contains(items: seq<NativeItem>, id: ItemId)
  {
    exists k :: 0 <= k < |items| && items[k].id == id
  }

  predicate DistinctIds(items: seq<NativeItem>)
  {
    forall i, j :: 0 <= i < j < |items| ==> items[i].id != items[j].id
  }

  /** The position of item `id`. */
  function IndexOf(items: seq<NativeItem>, id: ItemId): (k: nat)
    requires Contains(items, id)
    ensures k < |items| && items[k].id == id
    ensures forall j :: 0 <= j < k ==> items[j].id != id
  {
    if items[0].id == id then 0
    else
      assert Contains(items[1..], id) by {
        var k :| 0 <= k < |items| && items[k].id == id;
        assert items[1..][k - 1].id == id;
      }
      1 + IndexOf(items[1..], id)
  }

  lemma IndexOfDistinct(items: seq<NativeItem>, k: nat)
    requires DistinctIds(items) && k < |items|
    ensures Contains(items, items[k].id) && IndexOf(items, items[k].id) == k
  {
  }

  function HeadPtr(items: seq<NativeItem>): ItemPtr
  {
    if items == [] then Null else Ptr(items[0].id)
  }

  function TailPtr(items: seq<NativeItem>): ItemPtr
  {
    if items == [] then Null else Ptr(items[|items| - 1].id)
  }

  /** The `next` link of item `id`: the following item, or null at the tail. */
  function NextPtr(items: seq<NativeItem>, id: ItemId): (p: ItemPtr)
    requires Contains(items, id)
    ensures p.Ptr? ==> Contains(items, p.id)
  {
    var k := IndexOf(items, id);
    if k + 1 < |items| then Ptr(items[k + 1].id) else Null
  }

  /** The items after inserting `x` before `next`, or at the tail when `next`
      is null (what the engine's insert does to its list). */
  function InsertBefore(items: seq<NativeItem>, x: NativeItem, next: ItemPtr): (r: seq<NativeItem>)
    requires next.Ptr? ==> Contains(items, next.id)
    ensures |r| == |items| + 1
  {
    if next.Null? then items + [x]
    else
      var k := IndexOf(items, next.id);
      items[..k] + [x] + items[k..]
  }

  /** Inserting an item with a fresh address keeps the addresses distinct. */
  lemma InsertBeforeDistinct(items: seq<NativeItem>, x: NativeItem, next: ItemPtr)
    requires next.Ptr? ==> Contains(items, next.id)
    requires DistinctIds(items) && !Contains(items, x.id)
    ensures DistinctIds(InsertBefore(items, x, next))
    ensures forall k :: 0 <= k < |InsertBefore(items, x, next)| ==>
              InsertBefore(items, x, next)[k] == x || InsertBefore(items, x, next)[k] in items
  {
    var r := InsertBefore(items, x, next);
    var k := if next.Null? then |items| else IndexOf(items, next.id);
    assert r == items[..k] + [x] + items[k..];
    forall i, j | 0 <= i < j < |r|
      ensures r[i].id != r[j].id
    {
      var i' := if i < k then i else i - 1;
      var j' := if j < k then j else j - 1;
      if i == k {
        assert r[j] == items[j'];
      } else if j == k {
        assert r[i] == items[i'];
      } else {
        assert r[i] == items[i'] && r[j] == items[j'] && i' < j';
      }
    }
  }

  /** A playlist.  `items`, `nextId` and `fillMode` stand for the native
      playlist's state; `nextId` is the engine's allocator, which hands out
      an address no live item has. */
  class Playlist {
    var items: seq<NativeItem>
    var nextId: ItemId
    var gain: F64
    var fillMode: Int32
    ghost var trace: seq<PlaylistCall>

    ghost predicate Valid()
      reads this
    {
      && DistinctIds(items)
      && forall k :: 0 <= k < |items| ==> items[k].id < nextId
    }

    /** `Playlist::new`: an empty playlist with gain 1.0, filling in
        `EverySinkFull` mode. */
    constructor ()
      ensures Valid()
      ensures items == [] && gain == 1.0 && fillMode == EVERY_SINK_FULL && trace == [Created]
    {
      items, nextId, gain, fillMode := [], 0, 1.0, EVERY_SINK_FULL;
      trace := [Created];
    }

    /** `len`: the number of items, one per address in the list. */
    function Len(): (n: nat)
      reads this
      ensures n == |Ids(items)| == |Files(items)|
      ensures n == 0 <==> First().Null?
    {
      |items|
    }

    /** `first`: the head item, a null item when the playlist is empty. */
    function First(): (p: ItemPtr)
      reads this
      ensures p.Null? <==> items == []
      ensures p.Ptr? ==> p.id == items[0].id
    {
      HeadPtr(items)
    }

    /** `last`: the tail item, a null item when the playlist is empty. */
    function Last(): (p: ItemPtr)
      reads this
      ensures p.Null? <==> items == []
      ensures p.Ptr? ==> p.id == items[|items| - 1].id
    {
      TailPtr(items)
    }

    /** The engine's insert.  `allocates` is false when its allocation fails:
        then it returns null and changes nothing. */
    method InsertNative(file: Handle, gain: F64, peak: F64, next: ItemPtr, allocates: bool) returns (p: ItemPtr)
      requires Valid()
      requires next.Ptr? ==> Contains(items, next.id)
      modifies this`items, this`nextId, this`trace
      ensures Valid()
      ensures !allocates ==> p.Null? && items == old(items) && trace == old(trace)
      ensures allocates ==> p.Ptr? && !Contains(old(items), p.id)
      ensures allocates ==> items == InsertBefore(old(items), NativeItem(p.id, file, gain, peak), next)
      ensures allocates ==> trace == old(trace) + [Inserted(p.id)]
    {
      if !allocates {
        return Null;
      }
      var x := NativeItem(nextId, file, gain, peak);
      InsertBeforeDistinct(items, x, next);
      items := InsertBefore(items, x, next);
      p := Ptr(nextId);
      nextId := nextId + 1;
      trace := trace + [Inserted(p.id)];
    }

    /** `append`: the new item goes to the tail and the file is counted once
        for it, only after the engine's insert succeeded.  A failed insert
        panics with "out of memory" and counts nothing. */
    method Append(rc: ReferenceCounter, file: File, gain: F64, peak: F64, allocates: bool)
      returns (r: Checked<PlaylistItem>)
      requires Valid() && rc.Valid()
      modifies this`items, this`nextId, this`trace, rc
      ensures Valid() && rc.Valid()
      ensures r.Panic? <==> !allocates
      ensures !allocates ==> r.msg == OUT_OF_MEMORY && items == old(items)
                             && rc.counts == old(rc.counts) && rc.destroyed == old(rc.destroyed) && rc.log == old(rc.log)
      ensures allocates ==> !Contains(old(items), r.value.id)
      ensures allocates ==> items == old(items) + [NativeItem(r.value.id, file.handle, gain, peak)]
      ensures allocates ==> rc.Incremented(file.handle)
      ensures forall g :: Count(rc.counts, g) == Count(old(rc.counts), g) + if allocates && g == file.handle then 1 else 0
      ensures !allocates ==> trace == old(trace)
      ensures allocates ==> trace == old(trace) + [Inserted(r.value.id)]
    {
      var p := InsertNative(file.handle, gain, peak, Null, allocates);
      if p.Null? {
        return Panic(OUT_OF_MEMORY);
      }
      rc.Incr(file.handle);
      r := Value(PlaylistItem(p.id));
    }

    /** `insert`: the new item goes just before `before`; counting as in
        `Append`. */
    method Insert(rc: ReferenceCounter, file: File, gain: F64, peak: F64, before: PlaylistItem, allocates: bool)
      returns (r: Checked<PlaylistItem>)
      requires Valid() && rc.Valid()
      requires Contains(items, before.id)
      modifies this`items, this`nextId, this`trace, rc
      ensures Valid() && rc.Valid()
      ensures r.Panic? <==> !allocates
      ensures !allocates ==> r.msg == OUT_OF_MEMORY && items == old(items)
                             && rc.counts == old(rc.counts) && rc.destroyed == old(rc.destroyed) && rc.log == old(rc.log)
      ensures allocates ==> !Contains(old(items), r.value.id)
      ensures allocates ==>
        var k := IndexOf(old(items), before.id);
        items == old(items)[..k] + [NativeItem(r.value.id, file.handle, gain, peak)] + old(items)[k..]
      ensures allocates ==> rc.Incremented(file.handle)
      ensures forall g :: Count(rc.counts, g) == Count(old(rc.counts), g) + if allocates && g == file.handle then 1 else 0
      ensures !allocates ==> trace == old(trace)
      ensures allocates ==> trace == old(trace) + [Inserted(r.value.id)]
    {
      var p := InsertNative(file.handle, gain, peak, Ptr(before.id), allocates);
      if p.Null? {
        return Panic(OUT_OF_MEMORY);
      }
      rc.Incr(file.handle);
      r := Value(PlaylistItem(p.id));
    }

    /** `PlaylistItem::file`: a new alias of the item's file, counted once. */
    method ItemFile(rc: ReferenceCounter, item: PlaylistItem) returns (f: File)
      requires Valid() && rc.Valid()
      requires Contains(items, item.id)
      modifies rc
      ensures rc.Valid()
      ensures f.handle == items[IndexOf(items, item.id)].file
      ensures rc.Incremented(f.handle)
    {
      var h := items[IndexOf(items, item.id)].file;
      rc.Incr(h);
      f := File(h);
    }

    /** `PlaylistItem::gain`. */
    function ItemGain(item: PlaylistItem): (g: F64)
      reads this
      requires Contains(items, item.id)
      ensures exists k :: 0 <= k < |items| && items[k].id == item.id && g == items[k].gain
    {
      items[IndexOf(items, item.id)].gain
    }

    /** `PlaylistItem::peak`. */
    function ItemPeak(item: PlaylistItem): (pk: F64)
      reads this
      requires Contains(items, item.id)
      ensures exists k :: 0 <= k < |items| && items[k].id == item.id && pk == items[k].peak
    {
      items[IndexOf(items, item.id)].peak
    }

    /** `iter`: a cursor at the head. */
    method Iter() returns (it: PlaylistIterator)
      requires Valid()
      ensures fresh(it) && it.Valid() && it.list == this
      ensures it.curr == HeadPtr(items) && it.pos == 0
    {
      it := new PlaylistIterator(this);
    }

    /** Collects `iter()`: yields every item, head to tail, once each, so
        exactly `Len()` of them. */
    method Items() returns (r: seq<PlaylistItem>)
      requires Valid()
      ensures |r| == Len()
      ensures forall k :: 0 <= k < |r| ==> r[k] == PlaylistItem(items[k].id)
    {
      var it := Iter();
      r := [];
      var done := false;
      while !done
        invariant it.Valid() && it.list == this
        invariant |r| == it.pos
        invariant forall k :: 0 <= k < |r| ==> r[k] == PlaylistItem(items[k].id)
        invariant done ==> it.curr.Null?
        decreases !done, it.Left()
      {
        var x := it.Next();
        match x {
          case None => done := true;
          case Some(item) => r := r + [item];
        }
      }
    }

    /** The file of every item, head to tail, read through `iter()` as
        `clear` does before it touches the native list. */
    method SnapshotFiles() returns (files: seq<Handle>)
      requires Valid()
      ensures files == Files(items)
    {
      var its := Items();
      files := [];
      var i := 0;
      while i < |its|
        invariant 0 <= i <= |its|
        invariant files == Files(items[..i])
      {
        IndexOfDistinct(items, i);
        files := files + [items[IndexOf(items, its[i].id)].file];
        i := i + 1;
        assert Files(items[..i]) == Files(items[..i - 1]) + [items[i - 1].file];
      }
      assert items[..|its|] == items;
    }

    /** `clear`: snapshots the items' files, clears the native list, then
        releases each file once.  A release of a file the registry does not
        know panics and stops the remaining releases; the list is empty
        either way. */
    method Clear(rc: ReferenceCounter) returns (r: Checked<()>)
      requires Valid() && rc.Valid()
      modifies this`items, this`trace, rc
      ensures Valid() && rc.Valid()
      ensures items == [] && trace == old(trace) + [Cleared]
      ensures r.Value? <==> RunFrom(old(rc.State()), DecrOps(Files(old(items)))).Some?
      ensures r.Value? ==> rc.State() == RunFrom(old(rc.State()), DecrOps(Files(old(items)))).value
      ensures r.Value? ==> rc.log == old(rc.log) + DecrOps(Files(old(items)))
      ensures r.Panic? ==> r.msg == TOO_MANY_DEREFERENCES
      ensures r.Panic? ==> exists k :: 0 <= k < |old(items)| && rc.log == old(rc.log) + DecrOps(Files(old(items))[..k])
      ensures (forall h :: multiset(Files(old(items)))[h] <= Count(old(rc.counts), h)) ==>
                r.Value? && forall h :: Count(rc.counts, h) == Count(old(rc.counts), h) - multiset(Files(old(items)))[h]
    {
      var files := SnapshotFiles();
      items := [];
      trace := trace + [Cleared];
      r := ReleaseFiles(rc, files);
      if forall h :: multiset(files)[h] <= Count(old(rc.counts), h) {
        ReleaseAll(old(rc.State()), files);
      }
    }

    /** `Drop for Playlist`: clears, then destroys the native playlist (never
        in the other order).  A panic inside the clear skips the destroy. */
    method Drop(rc: ReferenceCounter) returns (r: Checked<()>)
      requires Valid() && rc.Valid()
      modifies this`items, this`trace, rc
      ensures Valid() && rc.Valid()
      ensures items == []
      ensures trace == old(trace) + if r.Value? then [Cleared, Destroyed] else [Cleared]
      ensures r.Value? <==> RunFrom(old(rc.State()), DecrOps(Files(old(items)))).Some?
      ensures r.Value? ==> rc.State() == RunFrom(old(rc.State()), DecrOps(Files(old(items)))).value
      ensures r.Value? ==> rc.log == old(rc.log) + DecrOps(Files(old(items)))
      ensures r.Panic? ==> r.msg == TOO_MANY_DEREFERENCES
      ensures r.Panic? ==> exists k :: 0 <= k < |old(items)| && rc.log == old(rc.log) + DecrOps(Files(old(items))[..k])
      ensures (forall h :: multiset(Files(old(items)))[h] <= Count(old(rc.counts), h)) ==>
                r.Value? && forall h :: Count(rc.counts, h) == Count(old(rc.counts), h) - multiset(Files(old(items)))[h]
    {
      r := Clear(rc);
      if r.Value? {
        trace := trace + [Destroyed];
      }
    }

    /** `set_fill_mode`. */
    method SetFillMode(mode: FillMode)
      modifies this`fillMode, this`trace
      ensures fillMode == FillModeCode(mode)
      ensures trace == old(trace) + [FillModeSet(FillModeCode(mode))]
    {
      fillMode := FillModeCode(mode);
      trace := trace + [FillModeSet(fillMode)];
    }
  }

  /** A new playlist of `a` then `b`, each counted once. */
  method AppendPair(rc: ReferenceCounter, a: File, b: File) returns (p: Playlist, second: PlaylistItem)
    requires rc.Valid()
    modifies rc
    ensures fresh(p) && p.Valid() && rc.Valid()
    ensures Files(p.items) == [a.handle, b.handle]
    ensures |p.items| == 2 && p.items[1].id == second.id
    ensures forall g :: Count(rc.counts, g) == Count(old(rc.counts), g) + multiset([a.handle, b.handle])[g]
  {
    p := new Playlist();
    var ia := p.Append(rc, a, 1.0, 1.0, true);
    assert Files(p.items) == [a.handle];
    var ib := p.Append(rc, b, 1.0, 1.0, true);
    assert Files(p.items) == [a.handle, b.handle];
    second := ib.value;
  }

  /** A new playlist of `a` and `b` with `c` inserted before `b`: its files
      are a, c, b, and each took one count. */
  method BuildPlaylist(rc: ReferenceCounter, a: File, b: File, c: File) returns (p: Playlist)
    requires rc.Valid()
    modifies rc
    ensures fresh(p) && p.Valid() && rc.Valid()
    ensures Files(p.items) == [a.handle, c.handle, b.handle]
    ensures forall g :: Count(rc.counts, g) == Count(old(rc.counts), g) + multiset([a.handle, c.handle, b.handle])[g]
  {
    var second;
    p, second := AppendPair(rc, a, b);
    ghost var c2 := rc.counts;
    ghost var before := p.items;
    IndexOfDistinct(p.items, 1);
    assert IndexOf(before, second.id) == 1;
    var ic := p.Insert(rc, c, 1.0, 1.0, second, true);
    FilesAfterInsertAtOne(before, p.items, NativeItem(ic.value.id, c.handle, 1.0, 1.0));
    CountsOfThree(old(rc.counts), c2, rc.counts, a.handle, b.handle, c.handle);
  }

  /** Inserting before the second of two items puts its file in the middle. */
  lemma FilesAfterInsertAtOne(before: seq<NativeItem>, after: seq<NativeItem>, x: NativeItem)
    requires |before| == 2 && after == before[..1] + [x] + before[1..]
    ensures Files(after) == [before[0].file, x.file, before[1].file]
  {
    assert after == [before[0], x, before[1]];
  }

  /** Two appends then one insert add the multiset of the three files. */
  lemma CountsOfThree(c0: map<Handle, Pos>, c2: map<Handle, Pos>, c3: map<Handle, Pos>, x: Handle, y: Handle, z: Handle)
    requires forall g :: Count(c2, g) == Count(c0, g) + multiset([x, y])[g]
    requires forall g :: Count(c3, g) == Count(c2, g) + if g == z then 1 else 0
    ensures forall g :: Count(c3, g) == Count(c0, g) + multiset([x, z, y])[g]
  {
    CountsAddOne(c0, c2, c3, [x, y], z);
    assert [x, y] + [z] == [x, y, z];
    assert multiset([x, y, z]) == multiset([x, z, y]);
  }

  /** Appends every file of `files` to a new playlist; each file takes one
      count, so the counts grow by the multiset of the playlist's files. */
  method AppendAll(rc: ReferenceCounter, files: seq<File>) returns (p: Playlist)
    requires rc.Valid()
    modifies rc
    ensures fresh(p) && p.Valid() && rc.Valid()
    ensures forall g :: Count(rc.counts, g) == Count(old(rc.counts), g) + multiset(Files(p.items))[g]
  {
    p := new Playlist();
    ghost var c0 := rc.counts;
    for i := 0 to |files|
      invariant rc.Valid() && p.Valid()
      invariant forall g :: Count(rc.counts, g) == Count(c0, g) + multiset(Files(p.items))[g]
    {
      ghost var before := p.items;
      ghost var c1 := rc.counts;
      var item := p.Append(rc, files[i], 1.0, 1.0, true);
      assert Files(p.items) == Files(before) + [files[i].handle];
      CountsAddOne(c0, c1, rc.counts, Files(before), files[i].handle);
    }
  }

  /** One more count of `h` extends the multiset the counts grew by. */
  lemma CountsAddOne(c0: map<Handle, Pos>, c1: map<Handle, Pos>, c2: map<Handle, Pos>, fs: seq<Handle>, h: Handle)
    requires forall g :: Count(c1, g) == Count(c0, g) + multiset(fs)[g]
    requires forall g :: Count(c2, g) == Count(c1, g) + if g == h then 1 else 0
    ensures forall g :: Count(c2, g) == Count(c0, g) + multiset(fs + [h])[g]
  {
    assert multiset(fs + [h]) == multiset(fs) + multiset{h};
  }

  /** Open → append N → clear: a new playlist of all of `files`, cleared,
      gives back every count it took and leaves every count as before. */
  method AppendAllThenClear(rc: ReferenceCounter, files: seq<File>) returns (r: Checked<()>)
    requires rc.Valid()
    modifies rc
    ensures rc.Valid()
    ensures r.Value?
    ensures rc.counts == old(rc.counts)
  {
    var p := AppendAll(rc, files);
    r := p.Clear(rc);
    CountsDetermineMap(rc.counts, old(rc.counts));
  }

  /** A playlist's life: append `a` and `b`, insert `c` before `b`; the
      playlist then yields three distinct items whose files come in the
      order a, c, b, and dropping it gives back every count it took. */
  method PlaylistLifecycle(rc: ReferenceCounter, a: File, b: File, c: File)
    returns (order: seq<PlaylistItem>, files: seq<Handle>, dropped: Checked<()>)
    requires rc.Valid()
    modifies rc
    ensures rc.Valid()
    ensures |order| == 3 && order[0] != order[1] && order[1] != order[2] && order[0] != order[2]
    ensures files == [a.handle, c.handle, b.handle]
    ensures dropped.Value?
    ensures rc.counts == old(rc.counts)
  {
    var p := BuildPlaylist(rc, a, b, c);
    order := p.Items();
    files := p.SnapshotFiles();
    ReleaseAll(rc.State(), files);
    dropped := p.Drop(rc);
    CountsDetermineMap(rc.counts, old(rc.counts));
  }

  /** Releases one alias of each file in turn, stopping at the first release
      that panics. */
  method ReleaseFiles(rc: ReferenceCounter, files: seq<Handle>) returns (r: Checked<()>)
    requires rc.Valid()
    modifies rc
    ensures rc.Valid()
    ensures r.Value? <==> RunFrom(old(rc.State()), DecrOps(files)).Some?
    ensures r.Value? ==> rc.State() == RunFrom(old(rc.State()), DecrOps(files)).value
    ensures r.Value? ==> rc.log == old(rc.log) + DecrOps(files)
    ensures r.Panic? ==> r.msg == TOO_MANY_DEREFERENCES
    ensures r.Panic? ==> exists k :: 0 <= k < |files| && rc.log == old(rc.log) + DecrOps(files[..k])
  {
    ghost var s0 := rc.State();
    var i := 0;
    while i < |files|
      invariant 0 <= i <= |files|
      invariant rc.Valid()
      invariant rc.log == old(rc.log) + DecrOps(files[..i])
      invariant RunFrom(s0, DecrOps(files[..i])) == Some(rc.State())
    {
      ghost var before := rc.State();
      var s := rc.Decr(files[i]);
      DecrOpsSnoc(files, i);
      if s.Panic? {
        assert RunFrom(s0, DecrOps(files[..i + 1])) == Step(before, Decr(files[i]));
        PanicPersists(s0, files, i + 1);
        return Panic(s.msg);
      }
      i := i + 1;
    }
    assert files[..i] == files;
    r := Value(());
  }

  lemma DecrOpsSnoc(files: seq<Handle>, i: nat)
    requires i < |files|
    ensures DecrOps(files[..i + 1]) == DecrOps(files[..i]) + [Decr(files[i])]
  {
    assert files[..i + 1][..i] == files[..i];
  }

  lemma {:induction false} DecrOpsPrefix(files: seq<Handle>, i: nat)
    requires i <= |files|
    ensures DecrOps(files)[..i] == DecrOps(files[..i])
    decreases |files|
  {
    if i < |files| {
      var p := files[..|files| - 1];
      DecrOpsPrefix(p, i);
      assert p[..i] == files[..i];
    } else {
      assert files[..i] == files;
    }
  }

  /** A replay that panicked on a prefix never recovers. */
  lemma PanicPersists(s: RcState, files: seq<Handle>, i: nat)
    requires i <= |files|
    requires RunFrom(s, DecrOps(files[..i])).None?
    ensures RunFrom(s, DecrOps(files)).None?
  {
    var ops := DecrOps(files);
    DecrOpsPrefix(files, i);
    assert ops == ops[..i] + ops[i..];
    RunFromAppend(s, ops[..i], ops[i..]);
  }

  /** The cursor that stands at position `pos`: that item, or null past the
      tail. */
  function PtrAt(items: seq<NativeItem>, pos: nat): ItemPtr
  {
    if pos < |items| then Ptr(items[pos].id) else Null
  }

  /** `PlaylistIterator`: a cursor following `next` links from the head.
      `list` is the native memory the cursor points into; `pos` is how many
      items the cursor has passed. */
  class PlaylistIterator {
    const list: Playlist
    var curr: ItemPtr
    ghost var pos: nat

    ghost predicate Valid()
      reads this, list
    {
      && list.Valid()
      && pos <= |list.items|
      && curr == PtrAt(list.items, pos)
    }

    /** How many items are still to come. */
    ghost function Left(): nat
      reads this, list
      requires Valid()
    {
      |list.items| - pos
    }

    constructor (list: Playlist)
      requires list.Valid()
      ensures Valid() && this.list == list
      ensures curr == HeadPtr(list.items) && pos == 0
    {
      this.list := list;
      curr := HeadPtr(list.items);
      pos := 0;
    }

    /** `next`: the item under the cursor, moving to its `next` link; `None`
        once the cursor is null.  The items come head to tail. */
    method Next() returns (r: Option<PlaylistItem>)
      requires Valid()
      modifies this
      ensures Valid()
      ensures old(curr).Null? ==> r.None? && curr.Null? && pos == old(pos)
      ensures old(curr).Ptr? ==>
                (&& r == Some(PlaylistItem(old(curr).id))
                 && Contains(list.items, old(curr).id)
                 && curr == NextPtr(list.items, old(curr).id))
      ensures old(curr).Ptr? ==> r == Some(PlaylistItem(list.items[old(pos)].id)) && pos == old(pos) + 1
    {
      if curr.Null? {
        return None;
      }
      IndexOfDistinct(list.items, pos);
      r := Some(PlaylistItem(curr.id));
      curr := NextPtr(list.items, curr.id);
      pos := pos + 1;
    }
  }

  // -------------------------------------------------------------- metadata

  datatype Tag = Tag(key: string, value: string)

  /** A nullable tag pointer, as an index into the file's tags. */
  datatype TagPtr = NoTag | AtTag(index: nat)

  /** The engine's tag lookup with key "" and flags 0, which visits every tag
      in order: the tag after `prev`, or the first one after a null `prev`. */
  function NextTag(tags: seq<Tag>, prev: TagPtr): (p: TagPtr)
    requires prev.AtTag? ==> prev.index < |tags|
    ensures p.AtTag? ==> p.index < |tags|
    ensures prev.NoTag? ==> p == if tags == [] then NoTag else AtTag(0)
    ensures prev.AtTag? ==> p == if prev.index + 1 < |tags| then AtTag(prev.index + 1) else NoTag
  {
    match prev
    case NoTag => if tags == [] then NoTag else AtTag(0)
    case AtTag(i) => if i + 1 < |tags| then AtTag(i + 1) else NoTag
  }

  /** `MetadataIterator`.  `tags` are the file's tags as the engine holds
      them; the model takes them as fixed for the iterator's lifetime. */
  class MetadataIterator {
    const file: File
    const tags: seq<Tag>
    var curr: TagPtr

    ghost predicate Valid()
      reads this
    {
      curr.AtTag? ==> curr.index < |tags|
    }

    /** `metadata_iter`: starts before the first tag. */
    constructor (file: File, tags: seq<Tag>)
      ensures Valid() && this.file == file && this.tags == tags && curr == NoTag
    {
      this.file, this.tags, curr := file, tags, NoTag;
    }

    /** `next`: the tag after the cursor.  The cursor is set to the result
        even when that is null, so after `None` the next call starts over
        from the first tag. */
    method Next() returns (r: Option<Tag>)
      requires Valid()
      modifies this
      ensures Valid()
      ensures curr == NextTag(tags, old(curr))
      ensures r.Some? <==> curr.AtTag?
      ensures r.Some? ==> r.value == tags[curr.index]
    {
      curr := NextTag(tags, curr);
      r := if curr.AtTag? then Some(tags[curr.index]) else None;
    }
  }

  /** Drains a fresh `metadata_iter()`: every tag of the file, in order, then
      one `None`; after that the iterator is back at its start. */
  method AllTags(file: File, tags: seq<Tag>) returns (r: seq<Tag>, restarted: bool)
    ensures r == tags
    ensures restarted
  {
    var it := new MetadataIterator(file, tags);
    r := [];
    var x := it.Next();
    while x.Some?
      invariant it.Valid() && it.tags == tags
      invariant x.Some? <==> it.curr.AtTag?
      invariant x.Some? ==> it.curr.index == |r| && x.value == tags[|r|]
      invariant x.None? ==> |r| == |tags|
      invariant r == tags[..|r|]
      decreases |tags| - |r|
    {
      r := r + [x.value];
      x := it.Next();
    }
    restarted := it.curr == NoTag;
  }
}
