/** The older region-file parser (pyblock/parsemca.py): it reads the 1024
    location and timestamp entries of a region file, creates a legacy chunk
    object for every slot with a positive offset, decompresses and decodes
    each chunk's payload, drops the chunks whose coordinates are not wanted,
    and adds up or collects the block positions of the chunks it kept.
    Reading the file, zlib decompression and tag decoding are parameters. */
module Mca {
  import opened Common
  import opened Tags
  import opened LegacyChunks
  import Regions

  /** The number of location (and of timestamp) entries of a region file;
      each entry is 4 bytes long and the timestamps start at byte 4096. */
  const SLOTS: nat := 1024

  /** `int(start, end)`: the unsigned big-endian value of bytes [start, end),
      slicing as Python does past the end of the data. */
  function IntAt(data: seq<byte>, start: nat, end: nat): nat
  {
    BigEndian(Slice(data, start, end))
  }

  /** `end - start` bytes hold a value below 256^(end - start). */
  lemma IntAtBound(data: seq<byte>, start: nat, end: nat)
    requires start <= end
    ensures IntAt(data, start, end) < Pow2(8 * (end - start))
  {
    var s := Slice(data, start, end);
    assert |s| <= end - start;
    Pow2Monotone(8 * |s|, 8 * (end - start));
  }

  /** A value written as `len` big-endian bytes at position `start` reads back. */
  lemma IntRoundTrip(prefix: seq<byte>, n: nat, len: nat, rest: seq<byte>)
    requires n < Pow2(8 * len)
    ensures IntAt(prefix + ToBytesFit(n, len) + rest, |prefix|, |prefix| + len) == n
  {
    var data := prefix + ToBytesFit(n, len) + rest;
    assert data[|prefix|..|prefix| + len] == ToBytesFit(n, len);
  }

  /** The sector offset of location entry n: the three bytes at [4n, 4n+3). */
  function LocationOffset(data: seq<byte>, n: nat): nat
  {
    IntAt(data, 4 * n, 4 * n + 3)
  }

  /** Three bytes hold offsets below 2^24, and the timestamp's four below 2^32. */
  lemma HeaderBounds(data: seq<byte>, n: nat)
    ensures LocationOffset(data, n) < Regions.MAX_OFFSET
    ensures TimestampAt(data, n) < Regions.MAX_FRAME
  {
    Regions.Pow2Small();
    IntAtBound(data, 4 * n, 4 * n + 3);
    IntAtBound(data, 4096 + 4 * n, 4096 + 4 * n + 4);
  }

  /** The fourth byte of a location entry (its sector count) is never read. */
  lemma LocationIgnoresCount(data: seq<byte>, n: nat, c: byte)
    requires 4 * n + 3 < |data|
    ensures LocationOffset(data[4 * n + 3 := c], n) == LocationOffset(data, n)
  {
    var i := 4 * n;
    assert data[i + 3 := c][i..i + 3] == data[i..i + 3];
  }

  /** Timestamp entry n: the four bytes at [4096 + 4n, 4096 + 4n + 4). */
  function TimestampAt(data: seq<byte>, n: nat): nat
  {
    var index := 4096 + 4 * n;
    IntAt(data, index, index + 4)
  }

  /** The compressed payload of the chunk at sector `offset`: after the
      4-byte length and the compression byte, length - 1 bytes. */
  function ZipData(data: seq<byte>, offset: nat): seq<byte>
  {
    var index := offset * 4096;
    var length := IntAt(data, index, index + 4);
    Slice(data, index + 5, index + 4 + length)
  }

  /** Where the newer region reader finds a payload, this parser reads the same bytes. */
  lemma ZipDataIsPayload(data: seq<byte>, offset: nat)
    requires Regions.PayloadAt(data, offset).Ok?
    ensures ZipData(data, offset) == Regions.PayloadAt(data, offset).value
  {
  }

  /** The compression byte is never inspected: changing it changes nothing read. */
  lemma ZipIgnoresCompression(data: seq<byte>, offset: nat, c: byte)
    requires offset * 4096 + 4 < |data|
    ensures ZipData(data[offset * 4096 + 4 := c], offset) == ZipData(data, offset)
  {
    var index := offset * 4096;
    var data' := data[index + 4 := c];
    assert data'[index..index + 4] == data[index..index + 4];
    assert IntAt(data', index, index + 4) == IntAt(data, index, index + 4);
    var length := IntAt(data, index, index + 4);
    var lo, hi := index + 5, index + 4 + length;
    if lo <= hi {
      var hi' := if hi <= |data| then hi else |data|;
      if lo <= hi' {
        assert data'[lo..hi'] == data[lo..hi'];
      }
    }
  }

  /** The chunk list `'all'` is `None`; otherwise the wanted (x, z) coordinates. */
  type ChunkList = Option<seq<(int, int)>>

  /** The state of the chunk of slot n after the header loops: its offset,
      the parser's area and slot n's timestamp. */
  function Header(data: seq<byte>, area: Area, n: nat): ChunkState
  {
    ChunkState(LocationOffset(data, n), area, Some(TimestampAt(data, n)), None, None, Some([]))
  }

  /** The chunks after `extract_locations` and `extract_timestamps`: one for
      each slot with a positive offset. */
  function Headers(data: seq<byte>, area: Area): map<int, ChunkState>
  {
    map n | n in Located(data) :: Header(data, area, n)
  }

  /** A chunk state after `add_data` of its inflated payload. */
  function Loaded(data: seq<byte>, st: ChunkState, inflate: seq<byte> -> Result<seq<byte>>,
                  parse: seq<byte> -> Result<Tag>): (r: Result<ChunkState>)
    ensures r.Ok? ==> r.value.root.Some? && r.value.data.Some?
    ensures r.Ok? ==> r.value.offset == st.offset && r.value.area == st.area && r.value.timestamp == st.timestamp
  {
    var raw :- inflate(ZipData(data, st.offset));
    var d :- Decoded(raw, parse);
    Ok(st.(data := Some(raw), root := Some(d.0), sections := d.1))
  }

  /** Whether a decoded chunk is kept: always for `'all'`, else when its
      coordinates are listed; reading the coordinates can fail. */
  function Kept(chunkList: ChunkList, st: ChunkState): (r: Result<bool>)
    ensures chunkList.None? ==> r == Ok(true)
  {
    if chunkList.None? then Ok(true)
    else
      var c :- if st.root.None? then Err(TypeError) else Coords(st.root.value);
      Ok(c in chunkList.value)
  }

  /** The kept chunks among slots [0, k) of `states`, each loaded with
      `load` and tested with `keep` in slot order; the first failure in that
      order is the result. */
  function Extracted(states: map<int, ChunkState>, load: ChunkState -> Result<ChunkState>,
                     keep: ChunkState -> Result<bool>, k: nat): Result<map<int, ChunkState>>
  {
    if k == 0 then Ok(map[])
    else
      var m :- Extracted(states, load, keep, k - 1);
      if k - 1 !in states then Ok(m)
      else
        var st :- load(states[k - 1]);
        var kept :- keep(st);
        Ok(if kept then m[k - 1 := st] else m)
  }

  /** The kept chunks are exactly the slots below k that load and pass the
      test, each as loaded from its old state. */
  lemma {:induction false} ExtractedSpec(states: map<int, ChunkState>, load: ChunkState -> Result<ChunkState>,
                                         keep: ChunkState -> Result<bool>, k: nat, n: int)
    requires Extracted(states, load, keep, k).Ok?
    ensures var m := Extracted(states, load, keep, k).value;
            n in m <==> 0 <= n < k && n in states && load(states[n]).Ok? && keep(load(states[n]).value) == Ok(true)
    ensures var m := Extracted(states, load, keep, k).value;
            n in m ==> m[n] == load(states[n]).value
  {
    if k > 0 {
      ExtractedSpec(states, load, keep, k - 1, n);
    }
  }

  /** Every chunk below k loads and can be tested when the extraction succeeds. */
  lemma {:induction false} ExtractedLoads(states: map<int, ChunkState>, load: ChunkState -> Result<ChunkState>,
                                          keep: ChunkState -> Result<bool>, k: nat, n: int)
    requires Extracted(states, load, keep, k).Ok? && 0 <= n < k && n in states
    ensures load(states[n]).Ok? && keep(load(states[n]).value).Ok?
  {
    if n < k - 1 {
      ExtractedLoads(states, load, keep, k - 1, n);
    }
  }

  /** One more slot: nothing new for an empty slot, else the slot's loaded
      state when its test keeps it. */
  lemma ExtractedStep(states: map<int, ChunkState>, load: ChunkState -> Result<ChunkState>,
                      keep: ChunkState -> Result<bool>, n: nat, kept: map<int, ChunkState>)
    requires Extracted(states, load, keep, n) == Ok(kept)
    requires n in states ==> load(states[n]).Ok? && keep(load(states[n]).value).Ok?
    ensures Extracted(states, load, keep, n + 1) ==
            Ok(if n in states && keep(load(states[n]).value).value then kept[n := load(states[n]).value] else kept)
  {
  }

  /** A failure among slots [0, k) stays the result for more slots. */
  lemma {:induction false} ExtractedErr(states: map<int, ChunkState>, load: ChunkState -> Result<ChunkState>,
                                        keep: ChunkState -> Result<bool>, k: nat, k': nat)
    requires k <= k' && Extracted(states, load, keep, k).Err?
    ensures Extracted(states, load, keep, k') == Extracted(states, load, keep, k)
  {
    if k < k' {
      ExtractedErr(states, load, keep, k, k' - 1);
    }
  }

  /** A test that keeps everything keeps every chunk once all of them load. */
  lemma {:induction false} ExtractedAll(states: map<int, ChunkState>, load: ChunkState -> Result<ChunkState>,
                                        keep: ChunkState -> Result<bool>, k: nat)
    requires forall st :: keep(st) == Ok(true)
    requires Extracted(states, load, keep, k).Ok?
    ensures forall n :: n in Extracted(states, load, keep, k).value <==> 0 <= n < k && n in states
  {
    if k > 0 {
      ExtractedAll(states, load, keep, k - 1);
    }
  }

  /** What the chunk-data loop does to one chunk: inflate its payload and `add_data`. */
  function Loader(data: seq<byte>, inflate: seq<byte> -> Result<seq<byte>>, parse: seq<byte> -> Result<Tag>)
    : ChunkState -> Result<ChunkState>
  {
    st => Loaded(data, st, inflate, parse)
  }

  /** The coordinate test of the chunk-data loop. */
  function Keeper(chunkList: ChunkList): ChunkState -> Result<bool>
  {
    st => Kept(chunkList, st)
  }

  /** What parsing a region file gives: its kept chunks by slot, or the first error. */
  function Parsed(data: seq<byte>, chunkList: ChunkList, area: Area,
                  inflate: seq<byte> -> Result<seq<byte>>, parse: seq<byte> -> Result<Tag>): Result<map<int, ChunkState>>
  {
    Extracted(Headers(data, area), Loader(data, inflate, parse), Keeper(chunkList), SLOTS)
  }

  /** `len(locs)` added per block key into a running total. */
  function AddLengths<B(==)>(acc: map<B, nat>, blocks: map<B, seq<Point>>): (r: map<B, nat>)
    ensures r.Keys == acc.Keys + blocks.Keys
    ensures forall b :: b in r ==> r[b] == (if b in acc then acc[b] else 0) + (if b in blocks then |blocks[b]| else 0)
  {
    map b | b in acc.Keys + blocks.Keys :: (if b in acc then acc[b] else 0) + (if b in blocks then |blocks[b]| else 0)
  }

  /** The totals over the block dictionaries of several chunks, in order. */
  function SumCounts<B(==)>(ms: seq<map<B, seq<Point>>>): map<B, nat>
  {
    if ms == [] then map[] else AddLengths(SumCounts(ms[..|ms| - 1]), ms[|ms| - 1])
  }

  /** The positions of block b over several chunks' dictionaries, in order. */
  function Locations<B(==)>(ms: seq<map<B, seq<Point>>>, b: B): seq<Point>
  {
    if ms == [] then []
    else
      var last := ms[|ms| - 1];
      Locations(ms[..|ms| - 1], b) + (if b in last then last[b] else [])
  }

  /** The total of a block is the number of positions found for it, and it
      has a total exactly when some chunk has the block. */
  lemma {:induction false} SumMatchesFind<B>(ms: seq<map<B, seq<Point>>>, b: B)
    ensures b in SumCounts(ms) <==> exists i :: 0 <= i < |ms| && b in ms[i]
    ensures b in SumCounts(ms) ==> SumCounts(ms)[b] == |Locations(ms, b)|
    ensures b !in SumCounts(ms) ==> Locations(ms, b) == []
  {
    if ms != [] {
      var init := ms[..|ms| - 1];
      SumMatchesFind(init, b);
      assert forall i :: 0 <= i < |init| ==> init[i] == ms[i];
      if b in ms[|ms| - 1] {
        assert exists i :: 0 <= i < |ms| && b in ms[i] by {
          assert b in ms[|ms| - 1];
        }
      }
    }
  }

  /** The block dictionaries of the chunks below slot k, in slot order, each
      read with `scan`, or the first chunk's error. */
  function AllBlocks<B(==)>(states: map<int, ChunkState>, scan: ChunkState -> Result<map<B, seq<Point>>>, k: nat)
    : Result<seq<map<B, seq<Point>>>>
  {
    if k == 0 then Ok([])
    else
      var ms :- AllBlocks(states, scan, k - 1);
      if k - 1 !in states then Ok(ms)
      else
        var m :- scan(states[k - 1]);
        Ok(ms + [m])
  }

  /** What `get_blocks()` gives for a chunk in state `st`. */
  function Scanner<B(==)>(blockAt: (Tag, int, int, int, int) -> B): ChunkState -> Result<map<B, seq<Point>>>
  {
    (st: ChunkState) => BlocksOf(st.root, st.sections, st.area, blockAt)
  }

  /** One more slot: nothing new for an empty slot, else that chunk's blocks. */
  lemma AllBlocksStep<B>(states: map<int, ChunkState>, scan: ChunkState -> Result<map<B, seq<Point>>>, n: nat,
                         ms: seq<map<B, seq<Point>>>)
    requires AllBlocks(states, scan, n) == Ok(ms)
    ensures n !in states ==> AllBlocks(states, scan, n + 1) == Ok(ms)
    ensures n in states && scan(states[n]).Err? ==> AllBlocks(states, scan, n + 1) == Err(scan(states[n]).error)
    ensures n in states && scan(states[n]).Ok? ==> AllBlocks(states, scan, n + 1) == Ok(ms + [scan(states[n]).value])
  {
  }


  /** The slots below n whose offset is positive, for the offsets `offset`. */
  function LocatedBelow(offset: nat -> nat, n: nat): set<int>
  {
    if n == 0 then {}
    else LocatedBelow(offset, n - 1) + (if offset(n - 1) > 0 then {n - 1} else {})
  }

  /** A slot is located exactly when it is below n and its offset is positive. */
  lemma {:induction false} LocatedBelowSpec(offset: nat -> nat, n: nat, m: int)
    ensures m in LocatedBelow(offset, n) <==> 0 <= m < n && offset(m) > 0
  {
    if n > 0 {
      LocatedBelowSpec(offset, n - 1, m);
    }
  }

  /** The location offsets of a file, slot by slot. */
  function Offsets(data: seq<byte>): nat -> nat
  {
    n => LocationOffset(data, n)
  }

  /** The slots with a positive location offset. */
  function Located(data: seq<byte>): set<int>
  {
    LocatedBelow(Offsets(data), SLOTS)
  }

  /** With `'all'`, a parse that succeeds keeps a chunk for every slot with a
      positive offset, so `number_chunks` counts those slots. */
  lemma ParsedAll(data: seq<byte>, area: Area, inflate: seq<byte> -> Result<seq<byte>>, parse: seq<byte> -> Result<Tag>)
    requires Parsed(data, None, area, inflate, parse).Ok?
    ensures Parsed(data, None, area, inflate, parse).value.Keys == Located(data)
  {
    var states := Headers(data, area);
    var load, keep := Loader(data, inflate, parse), Keeper(None);
    assert forall st :: keep(st) == Ok(true);
    ExtractedAll(states, load, keep, SLOTS);
    var m := Extracted(states, load, keep, SLOTS).value;
    forall n
      ensures n in m <==> n in Located(data)
    {
      LocatedBelowSpec(Offsets(data), SLOTS, n);
    }
  }

  /** A failing chunk below slot k stays the result for more slots. */
  lemma {:induction false} AllBlocksErr<B>(states: map<int, ChunkState>, scan: ChunkState -> Result<map<B, seq<Point>>>,
                                          k: nat, k': nat)
    requires k <= k' && AllBlocks(states, scan, k).Err?
    ensures AllBlocks(states, scan, k') == AllBlocks(states, scan, k)
  {
    if k < k' {
      AllBlocksErr(states, scan, k, k' - 1);
    }
  }

  /** `extract_sum_blocks()` of chunks in the states `states`. */
  function SumBlocks<B(==)>(states: map<int, ChunkState>, blockAt: (Tag, int, int, int, int) -> B): Result<map<B, nat>>
  {
    var ms :- AllBlocks(states, Scanner(blockAt), SLOTS);
    Ok(SumCounts(ms))
  }

  /** `find_block_locations(name)` of chunks in the states `states`. */
  function FindLocations<B(==)>(states: map<int, ChunkState>, blockAt: (Tag, int, int, int, int) -> B, name: B)
    : Result<seq<Point>>
  {
    var ms :- AllBlocks(states, Scanner(blockAt), SLOTS);
    Ok(Locations(ms, name))
  }

  /** The two scans fail together, and the total of a block is the number of
      positions the search finds for it. */
  lemma SumBlocksMatchesFind<B>(states: map<int, ChunkState>, blockAt: (Tag, int, int, int, int) -> B, name: B)
    ensures SumBlocks(states, blockAt).Ok? <==> FindLocations(states, blockAt, name).Ok?
    ensures SumBlocks(states, blockAt).Ok? && name in SumBlocks(states, blockAt).value ==>
              SumBlocks(states, blockAt).value[name] == |FindLocations(states, blockAt, name).value|
    ensures SumBlocks(states, blockAt).Ok? && name !in SumBlocks(states, blockAt).value ==>
              FindLocations(states, blockAt, name).value == []
  {
    var ms := AllBlocks(states, Scanner(blockAt), SLOTS);
    if ms.Ok? {
      SumMatchesFind(ms.value, name);
    }
  }

  class MCA {
    const data: seq<byte>
    const chunkList: ChunkList
    const area: Area
    /** `self.chunks`: the chunk objects by slot number. */
    var chunks: map<int, Chunk>
    /** The slot each chunk object was stored under. */
    ghost var slotOf: map<Chunk, int>

    /** Slots lie in [0, 1024) and no two share a chunk object (each
        object knows its one slot). */
    ghost predicate Valid()
      reads this
    {
      forall n :: n in chunks ==> 0 <= n < SLOTS && chunks[n] in slotOf && slotOf[chunks[n]] == n
    }

    /** The chunks' fields, by slot. */
    ghost function Snapshot(): map<int, ChunkState>
      reads this, slotOf.Keys
    {
      map n | n in chunks && chunks[n] in slotOf :: chunks[n].State()
    }

    /** Under `Valid()` the snapshot has one state per slot in use. */
    lemma SnapshotSlots()
      requires Valid()
      ensures Snapshot().Keys == chunks.Keys
      ensures forall m :: m in chunks ==> Snapshot()[m] == chunks[m].State()
    {
      assert forall m :: m in chunks ==> chunks[m] in slotOf;
    }

    /** The fields `__init__` sets before it extracts anything. */
    constructor (data: seq<byte>, chunkList: ChunkList, area: Area)
      ensures this.data == data && this.chunkList == chunkList && this.area == area
      ensures chunks == map[] && slotOf == map[] && Valid()
    {
      slotOf := map[];
      this.data := data;
      this.chunkList := chunkList;
      this.area := area;
      chunks := map[];
    }

    /** `extract_locations()`: a new chunk for every slot with a positive offset. */
    method ExtractLocations() returns (ghost created: set<Chunk>)
      requires Valid()
      modifies this`chunks, this`slotOf
      ensures Valid()
      ensures forall n :: n in chunks <==> n in old(chunks) || n in Located(data)
      ensures forall n :: n in Located(data) ==>
                chunks[n] in created && chunks[n].State() == ChunkState(LocationOffset(data, n), area, None, None, None, Some([]))
      ensures forall n :: n in old(chunks) && n !in Located(data) ==> chunks[n] == old(chunks[n])
      ensures fresh(created) && slotOf.Keys <= old(slotOf.Keys) + created
    {
      var located;
      ghost var slots;
      located, slots, created := NewChunks(data, area, chunks, slotOf);
      chunks, slotOf := located, slots;
    }

    /** The loop of `extract_locations()`, for the offset read at each slot. */
    static method NewChunks(bytes: seq<byte>, area: Area, chunks0: map<int, Chunk>, ghost slotOf0: map<Chunk, int>)
      returns (chunks: map<int, Chunk>, ghost slotOf: map<Chunk, int>, ghost created: set<Chunk>)
      requires forall n :: n in chunks0 ==> 0 <= n < SLOTS && chunks0[n] in slotOf0 && slotOf0[chunks0[n]] == n
      ensures forall n :: n in chunks ==> 0 <= n < SLOTS && chunks[n] in slotOf && slotOf[chunks[n]] == n
      ensures forall n :: n in chunks <==> n in chunks0 || n in Located(bytes)
      ensures forall n :: n in Located(bytes) ==>
                chunks[n] in created && chunks[n].State() == ChunkState(LocationOffset(bytes, n), area, None, None, None, Some([]))
      ensures forall n :: n in chunks0 && n !in Located(bytes) ==> chunks[n] == chunks0[n]
      ensures fresh(created) && slotOf.Keys <= slotOf0.Keys + created
    {
      chunks, slotOf, created := chunks0, slotOf0, {};
      for n := 0 to SLOTS
        invariant forall m :: m in chunks ==> 0 <= m < SLOTS && chunks[m] in slotOf && slotOf[chunks[m]] == m
        invariant forall m :: m in chunks <==> m in chunks0 || (0 <= m < n && LocationOffset(bytes, m) > 0)
        invariant forall m :: 0 <= m < n && LocationOffset(bytes, m) > 0 ==>
                    chunks[m] in created && chunks[m].State() == ChunkState(LocationOffset(bytes, m), area, None, None, None, Some([]))
        invariant forall m :: m in chunks0 && !(0 <= m < n && LocationOffset(bytes, m) > 0) ==> chunks[m] == chunks0[m]
        invariant fresh(created) && slotOf.Keys <= slotOf0.Keys + created
      {
        chunks, slotOf, created := NewChunkAt(bytes, area, n, chunks0, slotOf0, chunks, slotOf, created);
      }
      forall m {
        LocatedBelowSpec(Offsets(bytes), SLOTS, m);
      }
    }

    /** One slot of the loop of `extract_locations()`: a new chunk for slot n
        when its offset is positive, and nothing otherwise; the loop's
        invariants over the slots below n then hold below n + 1. */
    static method NewChunkAt(bytes: seq<byte>, area: Area, n: int, ghost start: map<int, Chunk>, ghost startSlots: map<Chunk, int>,
                             chunks0: map<int, Chunk>, ghost slotOf0: map<Chunk, int>, ghost created0: set<Chunk>)
      returns (chunks: map<int, Chunk>, ghost slotOf: map<Chunk, int>, ghost created: set<Chunk>)
      requires 0 <= n < SLOTS
      requires forall m :: m in chunks0 ==> 0 <= m < SLOTS && chunks0[m] in slotOf0 && slotOf0[chunks0[m]] == m
      requires forall m :: m in chunks0 <==> m in start || (0 <= m < n && LocationOffset(bytes, m) > 0)
      requires forall m :: 0 <= m < n && LocationOffset(bytes, m) > 0 ==>
                 chunks0[m] in created0 && chunks0[m].State() == ChunkState(LocationOffset(bytes, m), area, None, None, None, Some([]))
      requires forall m :: m in start && !(0 <= m < n && LocationOffset(bytes, m) > 0) ==> chunks0[m] == start[m]
      requires slotOf0.Keys <= startSlots.Keys + created0
      ensures forall m :: m in chunks ==> 0 <= m < SLOTS && chunks[m] in slotOf && slotOf[chunks[m]] == m
      ensures forall m :: m in chunks <==> m in start || (0 <= m < n + 1 && LocationOffset(bytes, m) > 0)
      ensures forall m :: 0 <= m < n + 1 && LocationOffset(bytes, m) > 0 ==>
                chunks[m] in created && chunks[m].State() == ChunkState(LocationOffset(bytes, m), area, None, None, None, Some([]))
      ensures forall m :: m in start && !(0 <= m < n + 1 && LocationOffset(bytes, m) > 0) ==> chunks[m] == start[m]
      ensures slotOf.Keys <= startSlots.Keys + created
      ensures created0 <= created && fresh(created - created0)
    {
      chunks, slotOf, created := chunks0, slotOf0, created0;
      var locationOffset := LocationOffset(bytes, n);
      if locationOffset > 0 {
        var chunk := new Chunk(locationOffset, area);
        chunks := chunks[n := chunk];
        slotOf := slotOf[chunk := n];
        created := created + {chunk};
      }
    }

    /** `extract_timestamps()`: every chunk gets its slot's timestamp. */
    method ExtractTimestamps()
      requires Valid()
      modifies slotOf.Keys`timestamp
      ensures forall n :: n in chunks ==> chunks[n].State() == old(chunks[n].State()).(timestamp := Some(TimestampAt(data, n)))
    {
      for n := 0 to SLOTS
        invariant forall m :: m in chunks ==>
                    chunks[m].State() == if m < n then old(chunks[m].State()).(timestamp := Some(TimestampAt(data, m)))
                                         else old(chunks[m].State())
      {
        var timestamp := TimestampAt(data, n);
        if n in chunks {
          SetSlotTimestamp(n, timestamp);
        }
      }
    }

    /** The turn of the timestamp loop for slot n: only that chunk changes. */
    method SetSlotTimestamp(n: int, timestamp: nat)
      requires Valid() && n in chunks
      modifies {chunks[n]}`timestamp
      ensures chunks[n].State() == old(chunks[n].State()).(timestamp := Some(timestamp))
      ensures forall m :: m in chunks && m != n ==> chunks[m].State() == old(chunks[m].State())
    {
      assert forall m :: m in chunks && m != n ==> chunks[m] != chunks[n] by {
        forall m | m in chunks && m != n ensures chunks[m] != chunks[n] {
          assert slotOf[chunks[m]] == m && slotOf[chunks[n]] == n;
        }
      }
      chunks[n].SetTimestamp(timestamp);
    }

    /** `extract_chunkdata()`: in slot order, every chunk's payload is
        inflated and added, and its coordinates are tested; the chunks that
        fail the test are removed afterwards. Any failure stops the loop. */
    method ExtractChunkdata(inflate: seq<byte> -> Result<seq<byte>>, parse: seq<byte> -> Result<Tag>) returns (r: Result<()>)
      requires Valid()
      modifies this`chunks, slotOf.Keys`data, slotOf.Keys`root, slotOf.Keys`sections
      ensures var e := Extracted(old(Snapshot()), Loader(data, inflate, parse), Keeper(chunkList), SLOTS);
              (r.Ok? <==> e.Ok?) && (r.Err? ==> r.error == e.error) &&
              (r.Ok? ==> Valid() && Snapshot() == e.value &&
                         forall n :: n in chunks ==> n in old(chunks) && chunks[n] == old(chunks[n]))
    {
      SnapshotSlots();
      ghost var states := Snapshot();
      ghost var load, keep := Loader(data, inflate, parse), Keeper(chunkList);
      var chunksToRemove;
      ghost var kept;
      r, chunksToRemove, kept := LoadChunks(inflate, parse, states, load, keep);
      if r.Err? {
        return;
      }
      ghost var loaded := chunks;
      RemoveChunks(chunksToRemove);
      KeptSnapshot(states, load, keep, loaded, chunksToRemove, kept);
    }

    /** The loop of `extract_chunkdata()` up to the removals: the chunks of
        `states`, loaded with `load` and tested with `keep` in slot order,
        and the slots of the chunks that fail the test. */
    method LoadChunks(inflate: seq<byte> -> Result<seq<byte>>, parse: seq<byte> -> Result<Tag>,
                      ghost states: map<int, ChunkState>, ghost load: ChunkState -> Result<ChunkState>,
                      ghost keep: ChunkState -> Result<bool>)
      returns (r: Result<()>, chunksToRemove: seq<int>, ghost kept: map<int, ChunkState>)
      requires Valid() && chunks.Keys == states.Keys
      requires forall m :: m in chunks ==> chunks[m].State() == states[m]
      requires forall st {:trigger Loaded(data, st, inflate, parse)} :: load(st) == Loaded(data, st, inflate, parse)
      requires forall st {:trigger Kept(chunkList, st)} :: keep(st) == Kept(chunkList, st)
      modifies slotOf.Keys`data, slotOf.Keys`root, slotOf.Keys`sections
      ensures r.Err? ==> Extracted(states, load, keep, SLOTS) == Err(r.error)
      ensures r.Ok? ==> Extracted(states, load, keep, SLOTS) == Ok(kept)
      ensures r.Ok? ==> forall m :: m in chunks ==> load(states[m]).Ok? && chunks[m].State() == load(states[m]).value
      ensures r.Ok? ==> forall m :: m in chunksToRemove <==> m in chunks && m !in kept
    {
      kept := map[];
      chunksToRemove := [];
      for n := 0 to SLOTS
        invariant Extracted(states, load, keep, n) == Ok(kept)
        invariant forall m :: m in kept ==> m < n
        invariant forall m :: m in chunks ==>
                    if m < n then load(states[m]) == Ok(chunks[m].State()) else chunks[m].State() == states[m]
        invariant forall m :: m in chunksToRemove <==> m in chunks && m < n && m !in kept
      {
        r, chunksToRemove, kept := LoadSlot(n, inflate, parse, states, load, keep, chunksToRemove, kept);
        if r.Err? {
          ExtractedErr(states, load, keep, n + 1, SLOTS);
          return;
        }
      }
      r := Ok(());
    }

    /** One turn of the chunk-data loop: slot n, if it holds a chunk, is
        loaded and tested, and its number is listed for removal when the
        test fails. */
    method LoadSlot(n: nat, inflate: seq<byte> -> Result<seq<byte>>, parse: seq<byte> -> Result<Tag>,
                    ghost states: map<int, ChunkState>, ghost load: ChunkState -> Result<ChunkState>,
                    ghost keep: ChunkState -> Result<bool>, chunksToRemove: seq<int>, ghost kept: map<int, ChunkState>)
      returns (r: Result<()>, chunksToRemove': seq<int>, ghost kept': map<int, ChunkState>)
      requires Valid() && chunks.Keys == states.Keys
      requires n in chunks ==> chunks[n].State() == states[n]
      requires forall st {:trigger Loaded(data, st, inflate, parse)} :: load(st) == Loaded(data, st, inflate, parse)
      requires forall st {:trigger Kept(chunkList, st)} :: keep(st) == Kept(chunkList, st)
      requires Extracted(states, load, keep, n) == Ok(kept)
      requires n !in kept && n !in chunksToRemove
      modifies (if n in chunks then {chunks[n]} else {})`data, (if n in chunks then {chunks[n]} else {})`root,
               (if n in chunks then {chunks[n]} else {})`sections
      ensures r.Err? ==> Extracted(states, load, keep, n + 1) == Err(r.error)
      ensures r.Ok? ==> Extracted(states, load, keep, n + 1) == Ok(kept')
      ensures r.Ok? && n in chunks ==> load(states[n]) == Ok(chunks[n].State())
      ensures forall m :: m in chunks && m != n ==> chunks[m].State() == old(chunks[m].State())
      ensures r.Ok? ==> forall m :: m != n ==> (m in kept' <==> m in kept) && (m in chunksToRemove' <==> m in chunksToRemove)
      ensures r.Ok? ==> (n in chunksToRemove' <==> n in chunks && n !in kept') && (n in kept' ==> n in chunks)
    {
      assert forall m :: m in chunks && m != n && n in chunks ==> chunks[m] != chunks[n] by {
        forall m | m in chunks && m != n && n in chunks ensures chunks[m] != chunks[n] {
          assert slotOf[chunks[m]] == m && slotOf[chunks[n]] == n;
        }
      }
      chunksToRemove', kept' := chunksToRemove, kept;
      if n !in chunks {
        ExtractedStep(states, load, keep, n, kept);
        return Ok(()), chunksToRemove', kept';
      }
      var chunk := chunks[n];
      var keepIt := LoadChunk(chunk, inflate, parse, load, keep);
      if keepIt.Err? {
        return Err(keepIt.error), chunksToRemove', kept';
      }
      ExtractedStep(states, load, keep, n, kept);
      if keepIt.value {
        kept' := kept[n := chunk.State()];
      } else {
        chunksToRemove' := chunksToRemove + [n];
      }
      r := Ok(());
    }

    /** The body of the chunk-data loop for one chunk: slice out its payload,
        inflate it, `add_data` it, and say whether its coordinates are wanted. */
    method LoadChunk(chunk: Chunk, inflate: seq<byte> -> Result<seq<byte>>, parse: seq<byte> -> Result<Tag>,
                     ghost load: ChunkState -> Result<ChunkState>, ghost keep: ChunkState -> Result<bool>)
      returns (r: Result<bool>)
      requires forall st :: load(st) == Loaded(data, st, inflate, parse)
      requires forall st :: keep(st) == Kept(chunkList, st)
      modifies chunk`data, chunk`root, chunk`sections
      ensures var l := load(old(chunk.State()));
              (r.Ok? <==> l.Ok? && keep(l.value).Ok?) &&
              (r.Err? ==> r.error == if l.Err? then l.error else keep(l.value).error) &&
              (r.Ok? ==> chunk.State() == l.value && r.value == keep(l.value).value)
    {
      var index := 4096 * chunk.offset;
      var length := IntAt(data, index, index + 4);
      var iBegin := index + 5;
      var iEnd := iBegin + length - 1;
      var zipdata := Slice(data, iBegin, iEnd);
      assert zipdata == ZipData(data, chunk.offset);
      var chunkdata := inflate(zipdata);
      if chunkdata.Err? {
        return Err(chunkdata.error);
      }
      var added := chunk.AddData(chunkdata.value, parse);
      if added.Err? {
        return Err(added.error);
      }
      if chunkList.None? {
        return Ok(true);
      }
      var coords := chunk.GetCoords();
      if coords.Err? {
        return Err(coords.error);
      }
      r := Ok(coords.value in chunkList.value);
    }

    /** `del self.chunks[number]` for every listed slot. */
    method RemoveChunks(numbers: seq<int>)
      modifies this`chunks
      ensures chunks == map m | m in old(chunks) && m !in numbers :: old(chunks)[m]
    {
      for i := 0 to |numbers|
        invariant chunks == map m | m in old(chunks) && m !in numbers[..i] :: old(chunks)[m]
      {
        assert numbers[..i + 1] == numbers[..i] + [numbers[i]];
        chunks := chunks - {numbers[i]};
      }
      assert numbers[..|numbers|] == numbers;
    }

  /** After the removals, the chunks left are the kept ones, in their loaded states. */
  static lemma KeptChunks(states: map<int, ChunkState>, load: ChunkState -> Result<ChunkState>,
                          keep: ChunkState -> Result<bool>, loaded: map<int, Chunk>, chunks: map<int, Chunk>,
                          removed: seq<int>, kept: map<int, ChunkState>)
    requires Extracted(states, load, keep, SLOTS) == Ok(kept)
    requires loaded.Keys == states.Keys && (forall m :: m in loaded ==> 0 <= m < SLOTS)
    requires chunks == map m | m in loaded && m !in removed :: loaded[m]
    requires forall m :: m in removed <==> m in loaded && m !in kept
    ensures forall m :: m in chunks <==> m in kept
    ensures forall m :: m in kept ==> chunks[m] == loaded[m] && load(states[m]).Ok? && kept[m] == load(states[m]).value
  {
    forall m | m in kept
      ensures m in loaded && load(states[m]).Ok? && kept[m] == load(states[m]).value
    {
      ExtractedSpec(states, load, keep, SLOTS, m);
    }
  }

    /** The chunks left after the removals hold exactly the kept states. */
    lemma KeptSnapshot(states: map<int, ChunkState>, load: ChunkState -> Result<ChunkState>,
                       keep: ChunkState -> Result<bool>, loaded: map<int, Chunk>, removed: seq<int>,
                       kept: map<int, ChunkState>)
      requires Extracted(states, load, keep, SLOTS) == Ok(kept)
      requires loaded.Keys == states.Keys
      requires forall m :: m in loaded ==> 0 <= m < SLOTS && loaded[m] in slotOf && slotOf[loaded[m]] == m
      requires forall m :: m in loaded ==> load(states[m]).Ok? && loaded[m].State() == load(states[m]).value
      requires chunks == map m | m in loaded && m !in removed :: loaded[m]
      requires forall m :: m in removed <==> m in loaded && m !in kept
      ensures Valid() && Snapshot() == kept
      ensures forall n :: n in chunks ==> n in loaded && chunks[n] == loaded[n]
    {
      KeptChunks(states, load, keep, loaded, chunks, removed, kept);
      assert Valid();
      SnapshotSlots();
      assert chunks.Keys == kept.Keys by {
        forall m ensures m in chunks.Keys <==> m in kept.Keys {
        }
      }
      forall m | m in kept ensures Snapshot()[m] == kept[m] {
        assert chunks[m] == loaded[m];
      }
    }

    /** After the two header passes the chunks hold the states `Headers` gives. */
    lemma HeadersSnapshot()
      requires Valid()
      requires forall n :: n in chunks <==> n in Located(data)
      requires forall n :: n in chunks ==> chunks[n].State() == Header(data, area, n)
      ensures Snapshot() == Headers(data, area)
    {
      SnapshotSlots();
    }

    /** `MCA(filename, chunk_list, area, verbose)` for the file's bytes: the
        three extraction passes, or the first error of the last one. */
    static method Create(data: seq<byte>, chunkList: ChunkList, area: Area,
                         inflate: seq<byte> -> Result<seq<byte>>, parse: seq<byte> -> Result<Tag>) returns (r: Result<MCA>)
      ensures var p := Parsed(data, chunkList, area, inflate, parse);
              (r.Ok? <==> p.Ok?) && (r.Err? ==> r.error == p.error) &&
              (r.Ok? ==> r.value.Valid() && r.value.data == data && r.value.chunkList == chunkList &&
                         r.value.area == area && r.value.Snapshot() == p.value)
    {
      var mca := new MCA(data, chunkList, area);
      ghost var created := mca.ExtractLocations();
      mca.ExtractTimestamps();
      mca.HeadersSnapshot();
      var done := mca.ExtractChunkdata(inflate, parse);
      if done.Err? {
        return Err(done.error);
      }
      r := Ok(mca);
    }

    /** `number_chunks()`. */
    function NumberChunks(): nat
      reads this
    {
      |chunks|
    }

    /** `extract_sum_blocks()`: over the chunks in slot order, the number of
        positions of every block; a chunk whose blocks cannot be read stops it. */
    method ExtractSumBlocks<B(==)>(blockAt: (Tag, int, int, int, int) -> B) returns (r: Result<map<B, nat>>)
      requires Valid()
      ensures r == SumBlocks(Snapshot(), blockAt)
    {
      SnapshotSlots();
      ghost var ms;
      r, ms := SumScan(blockAt, Snapshot(), Scanner(blockAt));
    }

    /** The loop of `extract_sum_blocks()`, for chunks in the states `states`
        that `scan` reads. */
    method SumScan<B(==)>(blockAt: (Tag, int, int, int, int) -> B, ghost states: map<int, ChunkState>,
                          ghost scan: ChunkState -> Result<map<B, seq<Point>>>)
      returns (r: Result<map<B, nat>>, ghost ms: seq<map<B, seq<Point>>>)
      requires Valid() && chunks.Keys == states.Keys
      requires forall m :: m in chunks ==> chunks[m].State() == states[m]
      requires forall st {:trigger BlocksOf(st.root, st.sections, st.area, blockAt)} ::
                 scan(st) == BlocksOf(st.root, st.sections, st.area, blockAt)
      ensures var all := AllBlocks(states, scan, SLOTS);
              (r.Ok? <==> all.Ok?) && (r.Err? ==> r.error == all.error) && (r.Ok? ==> r.value == SumCounts(all.value))
    {
      var blocks: map<B, nat> := map[];
      ms := [];
      for n := 0 to SLOTS
        invariant AllBlocks(states, scan, n) == Ok(ms) && blocks == SumCounts(ms)
      {
        AllBlocksStep(states, scan, n, ms);
        if n in chunks {
          var chunkBlocks := chunks[n].GetBlocks(blockAt);
          assert chunkBlocks == scan(states[n]) by {
            var st := states[n];
            assert scan(st) == BlocksOf(st.root, st.sections, st.area, blockAt);
          }
          if chunkBlocks.Err? {
            AllBlocksErr(states, scan, n + 1, SLOTS);
            return Err(chunkBlocks.error), ms;
          }
          blocks := AddLengthsTo(blocks, chunkBlocks.value);
          assert (ms + [chunkBlocks.value])[..|ms|] == ms;
          ms := ms + [chunkBlocks.value];
        }
      }
      r := Ok(blocks);
    }

    /** The inner loop of `extract_sum_blocks`: each key's `len(locs)` added to its total. */
    static method AddLengthsTo<B(==)>(blocks: map<B, nat>, chunkBlocks: map<B, seq<Point>>) returns (r: map<B, nat>)
      ensures r == AddLengths(blocks, chunkBlocks)
    {
      r := blocks;
      var todo := chunkBlocks.Keys;
      while todo != {}
        invariant todo <= chunkBlocks.Keys
        invariant r.Keys == blocks.Keys + (chunkBlocks.Keys - todo)
        invariant forall b :: b in r ==>
                    r[b] == (if b in blocks then blocks[b] else 0) + (if b in chunkBlocks && b !in todo then |chunkBlocks[b]| else 0)
        decreases todo
      {
        var key :| key in todo;
        var value := |chunkBlocks[key]|;
        if key in r {
          r := r[key := r[key] + value];
        } else {
          r := r[key := value];
        }
        todo := todo - {key};
      }
    }

    /** `find_block_locations(name)`: the positions of block `name` in every
        chunk, chunk after chunk in slot order. */
    method FindBlockLocations<B(==)>(blockAt: (Tag, int, int, int, int) -> B, name: B) returns (r: Result<seq<Point>>)
      requires Valid()
      ensures r == FindLocations(Snapshot(), blockAt, name)
    {
      SnapshotSlots();
      ghost var ms;
      r, ms := FindScan(blockAt, name, Snapshot(), Scanner(blockAt));
    }

    /** The loop of `find_block_locations(name)`, for chunks in the states
        `states` that `scan` reads. */
    method FindScan<B(==)>(blockAt: (Tag, int, int, int, int) -> B, name: B, ghost states: map<int, ChunkState>,
                           ghost scan: ChunkState -> Result<map<B, seq<Point>>>)
      returns (r: Result<seq<Point>>, ghost ms: seq<map<B, seq<Point>>>)
      requires Valid() && chunks.Keys == states.Keys
      requires forall m :: m in chunks ==> chunks[m].State() == states[m]
      requires forall st {:trigger BlocksOf(st.root, st.sections, st.area, blockAt)} ::
                 scan(st) == BlocksOf(st.root, st.sections, st.area, blockAt)
      ensures var all := AllBlocks(states, scan, SLOTS);
              (r.Ok? <==> all.Ok?) && (r.Err? ==> r.error == all.error) && (r.Ok? ==> r.value == Locations(all.value, name))
    {
      var locations: seq<Point> := [];
      ms := [];
      for n := 0 to SLOTS
        invariant AllBlocks(states, scan, n) == Ok(ms) && locations == Locations(ms, name)
      {
        AllBlocksStep(states, scan, n, ms);
        if n in chunks {
          var blocks := chunks[n].GetBlocks(blockAt);
          assert blocks == scan(states[n]) by {
            var st := states[n];
            assert scan(st) == BlocksOf(st.root, st.sections, st.area, blockAt);
          }
          if blocks.Err? {
            AllBlocksErr(states, scan, n + 1, SLOTS);
            return Err(blocks.error), ms;
          }
          if name in blocks.value {
            locations := locations + blocks.value[name];
          }
          assert (ms + [blocks.value])[..|ms|] == ms;
          ms := ms + [blocks.value];
        }
      }
      r := Ok(locations);
    }
  }
}
