/** A region file (pyblock/region.py): a 4096-byte table of chunk locations,
    4096 bytes of timestamps, then chunk payloads stored in 4096-byte sectors.
    A region holds the file's bytes as read and never changes them; `write`
    builds the bytes of a new file. Decompression and tag parsing are
    collaborators passed in as functions. */
module Regions {
  import opened Common
  import opened Tags

  /** Chunks per region side, and header slots. */
  const SIDE: nat := 32
  const SLOTS: nat := 1024

  /** One past the largest sector offset three bytes can hold. */
  const MAX_OFFSET: nat := 0x100_0000

  /** The powers of two behind the entry's byte sizes. */
  /** The largest value a 4-byte length field holds, plus one. */
  const MAX_FRAME: nat := 0x1_0000_0000

  lemma Pow2Small()
    ensures Pow2(8) == 0x100 && Pow2(24) == MAX_OFFSET && Pow2(32) == MAX_FRAME
  {
    assert Pow2(8) == 0x100;
    assert Pow2(16) == 0x1_0000 by { Pow2Add(8, 8); }
    assert Pow2(24) == MAX_OFFSET by { Pow2Add(16, 8); }
    assert Pow2(32) == MAX_FRAME by { Pow2Add(24, 8); }
  }

  /** What `write` is told to do with one chunk: the integer sentinel 0
      drops the chunk, anything else is the chunk's new sector bytes. */
  datatype Update = Remove | Replace(bytes: seq<byte>)

  /** `off, sectors` of one header entry. */
  type Location = (nat, nat)

  /** The bytes one slot contributes and its sector count, or the error
      reading its old entry raised. */
  type SlotResult = Result<(seq<byte>, nat)>

  /** `write`'s state after some slots: the location table so far, the chunk
      bytes so far, and the sector the next chunk starts at. */
  datatype Progress = Progress(header: seq<byte>, chunks: seq<byte>, cursor: nat)

  /** `header_offset`: the byte position of a chunk's entry in the location
      table. The chunk coordinates are reduced with floored modulo, so any
      chunk coordinate names one of the 1024 entries. */
  function HeaderOffset(cx: int, cz: int): nat
  {
    4 * (cx % 32 + cz % 32 * 32)
  }

  /** The entry is a whole 4-byte slot inside the table, and the slot it
      names gives back both reduced coordinates. */
  lemma HeaderOffsetSlot(cx: int, cz: int)
    ensures var r := HeaderOffset(cx, cz);
            r % 4 == 0 && r <= 4092 && (r / 4) % SIDE == cx % SIDE && (r / 4) / SIDE == cz % SIDE
  {
  }

  /** Slot k, visited by `write` as `chunk_x = k % 32`, `chunk_z = k / 32`,
      has its entry at byte 4k. */
  lemma HeaderOffsetOfSlot(k: nat)
    requires k < SLOTS
    ensures HeaderOffset(k % SIDE, k / SIDE) == 4 * k
  {
  }

  /** Chunks 32 apart share an entry; negative coordinates wrap. */
  lemma HeaderOffsetPeriodic(cx: int, cz: int)
    ensures HeaderOffset(cx + 32, cz) == HeaderOffset(cx, cz)
    ensures HeaderOffset(cx, cz + 32) == HeaderOffset(cx, cz)
    ensures HeaderOffset(-1, -1) == 4092 && HeaderOffset(-32, 0) == 0
  {
  }

  /** The 4 bytes of a location entry: zeros for an absent chunk, otherwise
      the 3-byte big-endian sector offset and the 1-byte sector count. */
  function HeaderEntry(cursor: nat, sectors: nat): (r: Result<seq<byte>>)
    ensures r.Ok? <==> sectors == 0 || (cursor < MAX_OFFSET && sectors < 256)
    ensures r.Ok? ==> |r.value| == 4
  {
    if sectors == 0 then Ok([0, 0, 0, 0])
    else if cursor < MAX_OFFSET && sectors < 256 then
      Ok([cursor / 0x1_0000, cursor / 0x100 % 0x100, cursor % 0x100, sectors])
    else Err(OverflowError)
  }

  /** The entry is `bytes(4)`, or `cursor.to_bytes(3, "big") +
      sectors.to_bytes(1, "big")`, failing as `to_bytes` does. */
  lemma HeaderEntryIsToBytes(cursor: nat, sectors: nat)
    ensures sectors == 0 ==> HeaderEntry(cursor, sectors) == Ok(Zeros(4))
    ensures sectors > 0 ==> HeaderEntry(cursor, sectors).Ok? == (ToBytes(cursor, 3).Ok? && ToBytes(sectors, 1).Ok?)
    ensures sectors > 0 && HeaderEntry(cursor, sectors).Ok? ==>
              HeaderEntry(cursor, sectors).value == ToBytes(cursor, 3).value + ToBytes(sectors, 1).value
  {
    Pow2Small();
    if sectors == 0 {
      assert HeaderEntry(cursor, sectors).value == Zeros(4);
    } else if cursor < MAX_OFFSET && sectors < 256 {
      OffsetBytes(cursor);
      CountBytes(sectors);
    }
  }

  lemma OffsetBytes(cursor: nat)
    requires cursor < MAX_OFFSET
    ensures ToBytes(cursor, 3) == Ok([cursor / 0x1_0000, cursor / 0x100 % 0x100, cursor % 0x100])
  {
    Pow2Small();
    EntryDigits(cursor);
    BytesOfValue([cursor / 0x1_0000, cursor / 0x100 % 0x100, cursor % 0x100], ToBytes(cursor, 3).value);
  }

  lemma CountBytes(sectors: nat)
    requires sectors < 256
    ensures ToBytes(sectors, 1) == Ok([sectors])
  {
    Pow2Small();
    var t := ToBytes(sectors, 1).value;
    assert BigEndian([sectors]) == sectors by {
      assert [sectors][..0] == [];
    }
    BytesOfValue([sectors], t);
  }

  /** The three digits of an offset read back, big-endian, as the offset. */
  lemma EntryDigits(cursor: nat)
    requires cursor < MAX_OFFSET
    ensures BigEndian([cursor / 0x1_0000, cursor / 0x100 % 0x100, cursor % 0x100]) == cursor
  {
    var a: int := cursor / 0x1_0000;
    var b: int := cursor / 0x100 % 0x100;
    var c: int := cursor % 0x100;
    var s: seq<byte> := [a, b, c];
    assert s[..2][..1][..0] == [];
    assert s[..2][..1] == [a] && s[..2] == [a, b];
    assert BigEndian([a]) == a;
    assert BigEndian(s[..2]) == a * 256 + b;
    assert BigEndian(s) == (a * 256 + b) * 256 + c;
  }

  /** Byte strings of one length with the same big-endian value are equal. */
  lemma {:induction false} BytesOfValue(a: seq<byte>, b: seq<byte>)
    requires |a| == |b| && BigEndian(a) == BigEndian(b)
    ensures a == b
  {
    if a != [] {
      var n := |a| - 1;
      BytesOfValue(a[..n], b[..n]);
      assert a == a[..n] + [a[n]] && b == b[..n] + [b[n]];
    }
  }

  /** `write`'s state after the first n slots: each slot's entry made from
      the cursor and the slot's sector count, its bytes appended, the cursor
      advanced by its sectors. */
  function Assemble(slots: seq<SlotResult>, n: nat): (r: Result<Progress>)
    requires n <= |slots|
    ensures r.Ok? ==> |r.value.header| == 4 * n && r.value.cursor >= 2
  {
    if n == 0 then Ok(Progress([], [], 2))
    else
      var p :- Assemble(slots, n - 1);
      var slot :- slots[n - 1];
      var e :- HeaderEntry(p.cursor, slot.1);
      Ok(Progress(p.header + e, p.chunks + slot.0, p.cursor + slot.1))
  }

  /** The bytes of a file assembled from all 1024 slots: location table,
      zeroed timestamps, chunk sectors; `AssertionError` when their length is
      not a whole number of sectors. */
  function FileOf(slots: seq<SlotResult>): (r: Result<seq<byte>>)
    requires |slots| == SLOTS
    ensures r.Ok? ==> |r.value| % SECTOR == 0 && |r.value| >= 2 * SECTOR
    ensures r.Ok? ==> r.value[SECTOR..2 * SECTOR] == Zeros(SECTOR)
  {
    var p :- Assemble(slots, SLOTS);
    var final := p.header + Zeros(SECTOR) + p.chunks;
    assert final[SECTOR..2 * SECTOR] == Zeros(SECTOR);
    if |final| % SECTOR != 0 then Err(AssertionError) else Ok(final)
  }

  /** Slot k's entry sits at byte 4k of the file. */
  lemma FileEntry(slots: seq<SlotResult>, k: nat)
    requires |slots| == SLOTS && k < SLOTS && FileOf(slots).Ok?
    ensures Assemble(slots, k).Ok? && slots[k].Ok?
    ensures var e := HeaderEntry(Assemble(slots, k).value.cursor, slots[k].value.1);
            e.Ok? && FileOf(slots).value[4 * k..4 * k + 4] == e.value
  {
    var p := Assemble(slots, SLOTS).value;
    AssembleEntry(slots, k, SLOTS);
    assert FileOf(slots).value[4 * k..4 * k + 4] == p.header[4 * k..4 * k + 4];
  }

  /** Slot k's bytes start at the sector its entry names when the slots
      before it are aligned. */
  lemma FileBytes(slots: seq<SlotResult>, k: nat)
    requires |slots| == SLOTS && k < SLOTS && FileOf(slots).Ok?
    requires forall j :: 0 <= j < k ==> Aligned(slots[j])
    ensures Assemble(slots, k).Ok? && slots[k].Ok?
    ensures var c := Assemble(slots, k).value.cursor;
            var b := slots[k].value.0;
            var f := FileOf(slots).value;
            c * SECTOR + |b| <= |f| && f[c * SECTOR..c * SECTOR + |b|] == b
  {
    var p := Assemble(slots, SLOTS).value;
    var h := p.header + Zeros(SECTOR);
    assert FileOf(slots).value == h + p.chunks;
    AssembleBytes(slots, k, SLOTS);
    var q := Assemble(slots, k).value;
    ChunksFillSectors(slots, k);
    OffsetSlice(h, p.chunks, |q.chunks|, slots[k].value.0);
  }

  /** A slice of the second part of a concatenation, seen in the whole. */
  lemma OffsetSlice(h: seq<byte>, c: seq<byte>, n: nat, b: seq<byte>)
    requires n + |b| <= |c| && c[n..n + |b|] == b
    ensures (h + c)[|h| + n..|h| + n + |b|] == b
  {
    assert (h + c)[|h|..] == c;
  }

  /** The length assertion cannot fail when every slot is aligned, and the
      file then ends where the cursor does. */
  lemma AlignedFileSucceeds(slots: seq<SlotResult>)
    requires |slots| == SLOTS && Assemble(slots, SLOTS).Ok?
    requires forall k :: 0 <= k < SLOTS ==> Aligned(slots[k])
    ensures FileOf(slots).Ok?
    ensures |FileOf(slots).value| == Assemble(slots, SLOTS).value.cursor * SECTOR
  {
    ChunksFillSectors(slots, SLOTS);
  }

  /** The compressed bytes of the chunk stored from sector `sector` on. */
  function PayloadAt(data: seq<byte>, sector: nat): (r: Result<seq<byte>>)
    ensures r.Ok? ==> |r.value| < MAX_FRAME
  {
    Pow2Small();
    var off := sector * SECTOR;
    var length := BigEndian(Slice(data, off, off + 4));
    if off + 4 >= |data| then Err(IndexError)
    else if data[off + 4] == 1 then Err(ValueError)
    else Ok(Slice(data, off + 5, off + 4 + length))
  }

  /** The arguments `pyblock.Chunk` takes: that name is the class of
      pyblock/chunk.py, whose constructor has `offset`, `area` and `verbose`,
      none with a default. */
  const CHUNK_ARGS: nat := 3

  /** Calling that constructor with n positional arguments: `TypeError`
      unless n is exactly its number of parameters. */
  function ConstructChunk(n: nat): (r: Result<()>)
    ensures r.Ok? <==> n == CHUNK_ARGS
    ensures r.Err? ==> r.error == TypeError
  {
    if n == CHUNK_ARGS then Ok(()) else Err(TypeError)
  }

  datatype Region = Region(x: int, z: int, data: seq<byte>)
  {
    /** `chunk_location`: the sector offset and sector count stored in the
        chunk's entry; `IndexError` when the file ends before the count byte. */
    function ChunkLocation(cx: int, cz: int): (r: Result<Location>)
      ensures r.Ok? <==> HeaderOffset(cx, cz) + 3 < |data|
      ensures r.Ok? ==> r.value.0 < MAX_OFFSET && r.value.1 < 256
    {
      Pow2Small();
      var b := HeaderOffset(cx, cz);
      var off := BigEndian(Slice(data, b, b + 3));
      if b + 3 < |data| then Ok((off, data[b + 3])) else Err(IndexError)
    }

    /** `chunk_data` up to decompression: `None` for a chunk never generated
        (location (0, 0)); `ValueError` for compression type 1 (GZip);
        otherwise the compressed bytes after the 4-byte length and the
        compression byte. The length counts the compression byte, hence the
        `- 1`; the slices clamp at the end of the file as Python's do. */
    function ChunkPayload(cx: int, cz: int): (r: Result<Option<seq<byte>>>)
      ensures r == Ok(None) <==> ChunkLocation(cx, cz) == Ok((0, 0))
      ensures r.Ok? && r.value.Some? ==> |r.value.value| < MAX_FRAME
      ensures ChunkLocation(cx, cz).Err? ==> r == Err(IndexError)
    {
      var loc :- ChunkLocation(cx, cz);
      if loc == (0, 0) then Ok(None)
      else
        var c :- PayloadAt(data, loc.0);
        Ok(Some(c))
    }

    /** `chunk_data`: the payload decompressed and parsed by `inflate`
        (`zlib.decompress` and the tag reader, not part of this model). */
    function ChunkData(cx: int, cz: int, inflate: seq<byte> -> Result<Tag>): (r: Result<Option<Tag>>)
      ensures ChunkPayload(cx, cz) == Ok(None) ==> r == Ok(None)
      ensures ChunkPayload(cx, cz).Err? ==> r == Err(ChunkPayload(cx, cz).error)
      ensures ChunkPayload(cx, cz).Ok? && ChunkPayload(cx, cz).value.Some? ==>
                r == (var t := inflate(ChunkPayload(cx, cz).value.value); if t.Ok? then Ok(Some(t.value)) else Err(t.error))
    {
      var p :- ChunkPayload(cx, cz);
      match p
      case None => Ok(None)
      case Some(c) =>
        var t :- inflate(c);
        Ok(Some(t))
    }

    /** `get_chunk` as intended: the chunk's tag, to be wrapped in a chunk
        type that reads and replaces sections; `ValueError` when there is
        none. A tag file with no child tags is false in Python and is refused
        the same way. */
    function GetChunk(cx: int, cz: int, inflate: seq<byte> -> Result<Tag>): (r: Result<Tag>)
      ensures ChunkPayload(cx, cz) == Ok(None) ==> r == Err(ValueError)
      ensures r.Ok? ==> ChunkData(cx, cz, inflate) == Ok(Some(r.value)) && !Falsy(r.value)
      ensures var d := ChunkData(cx, cz, inflate); d.Ok? && d.value.Some? && !Falsy(d.value.value) ==> r == Ok(d.value.value)
    {
      var d :- ChunkData(cx, cz, inflate);
      if d.None? || Falsy(d.value) then Err(ValueError) else Ok(d.value)
    }

    /** `get_chunk` as written: `pyblock.Chunk(nbt_data)` calls the class of
        pyblock/chunk.py with one argument, which Python refuses. */
    function GetChunkAsWritten(cx: int, cz: int, inflate: seq<byte> -> Result<Tag>): (r: Result<Tag>)
      ensures ChunkPayload(cx, cz) == Ok(None) ==> r == Err(ValueError)
    {
      var d :- ChunkData(cx, cz, inflate);
      if d.None? || Falsy(d.value) then Err(ValueError)
      else
        var made :- ConstructChunk(1);
        Ok(d.value)
    }

    /** As written, `get_chunk` raises `TypeError` for every chunk the
        intended version returns, and fails as it does everywhere else: it
        never returns a chunk. */
    lemma GetChunkAsWrittenFails(cx: int, cz: int, inflate: seq<byte> -> Result<Tag>)
      ensures GetChunk(cx, cz, inflate).Ok? ==> GetChunkAsWritten(cx, cz, inflate) == Err(TypeError)
      ensures GetChunk(cx, cz, inflate).Err? ==> GetChunkAsWritten(cx, cz, inflate) == GetChunk(cx, cz, inflate)
      ensures GetChunkAsWritten(cx, cz, inflate).Err?
    {
    }

    /** What `write` puts in the file for slot k, and its sector count. */
    function SlotContent(updates: map<(int, int), Update>, k: nat): (r: SlotResult)
      ensures ChunkLocation(k % SIDE, k / SIDE).Err? ==> r == Err(ChunkLocation(k % SIDE, k / SIDE).error)
    {
      var loc :- ChunkLocation(k % SIDE, k / SIDE);
      var key := (k % SIDE as int, k / SIDE as int);
      if key in updates then
        match updates[key]
        case Remove => Ok(([], 0))
        case Replace(b) => Ok((b, CeilDiv(|b|, SECTOR)))
      else if loc != (0, 0) then
        var start := loc.0 * SECTOR;
        Ok((Slice(data, start, start + loc.1 * SECTOR), loc.1))
      else Ok(([], 0))
    }

    /** What `write` puts in the file for each slot, in visiting order. */
    function Slots(updates: map<(int, int), Update>): (r: seq<SlotResult>)
      ensures |r| == SLOTS
    {
      SlotsUpTo(updates, SLOTS)
    }

    /** The contents of the first n slots. */
    function SlotsUpTo(updates: map<(int, int), Update>, n: nat): (r: seq<SlotResult>)
      ensures |r| == n
    {
      if n == 0 then [] else SlotsUpTo(updates, n - 1) + [SlotContent(updates, n - 1)]
    }

    /** The bytes `write` saves to the file (`FileOf`). */
    function Written(updates: map<(int, int), Update>): (r: Result<seq<byte>>)
    {
      FileOf(Slots(updates))
    }

    /** `write`, without the final file write: one pass over the 1024 slots
        with a sector cursor starting at 2. */
    method Write(updates: map<(int, int), Update>) returns (r: Result<seq<byte>>)
      ensures r == Written(updates)
    {
      ghost var slots := Slots(updates);
      var header: seq<byte> := [];
      var timestamps := Zeros(SECTOR);
      var chunkBytes: seq<byte> := [];
      var sectorOffset: nat := 2;
      for chunkZ := 0 to 32
        invariant Assemble(slots, 32 * chunkZ) == Ok(Progress(header, chunkBytes, sectorOffset))
      {
        for chunkX := 0 to 32
          invariant Assemble(slots, 32 * chunkZ + chunkX) == Ok(Progress(header, chunkBytes, sectorOffset))
        {
          ghost var k: nat := 32 * chunkZ + chunkX;
          ghost var before := chunkBytes;
          SlotAt(this, updates, chunkX, chunkZ);
          var loc := ChunkLocation(chunkX, chunkZ);
          if loc.Err? {
            r := Err(loc.error);
            FileFails(slots, k, header, chunkBytes, sectorOffset, loc.error);
            return;
          }
          var added, sectors := NewSlotBytes(updates, chunkX, chunkZ, loc.value);
          chunkBytes := chunkBytes + added;
          var entry := HeaderEntry(sectorOffset, sectors);
          if entry.Err? {
            r := Err(entry.error);
            FileFails(slots, k, header, before, sectorOffset, entry.error);
            return;
          }
          AssembleNext(slots, k, header, before, sectorOffset, added, sectors, entry.value);
          header := header + entry.value;
          sectorOffset := sectorOffset + sectors;
          assert Assemble(slots, k + 1).Ok?;
          assert Assemble(slots, k + 1).value.header == header;
          assert Assemble(slots, k + 1).value.chunks == chunkBytes;
          assert Assemble(slots, k + 1).value.cursor == sectorOffset;
        }
      }
      FileDone(slots, header, chunkBytes, sectorOffset);
      var final := header + timestamps + chunkBytes;
      if |final| % SECTOR != 0 {
        return Err(AssertionError);
      }
      r := Ok(final);
    }

    /** The bytes `write` appends for chunk (chunkX, chunkZ) and the sector
        count its entry gets: an update's bytes and `ceil(len / 4096)`
        sectors, none for the sentinel, otherwise the old sectors copied
        verbatim, none for an absent chunk. */
    method NewSlotBytes(updates: map<(int, int), Update>, chunkX: nat, chunkZ: nat, loc: Location)
        returns (added: seq<byte>, sectors: nat)
      requires chunkX < SIDE && chunkZ < SIDE && ChunkLocation(chunkX, chunkZ) == Ok(loc)
      ensures SlotContent(updates, 32 * chunkZ + chunkX) == Ok((added, sectors))
    {
      var off;
      off, sectors := loc.0, loc.1;
      added := [];
      if (chunkX, chunkZ) in updates {
        match updates[(chunkX, chunkZ)]
        case Replace(toAdd) =>
          added := toAdd;
          sectors := CeilDiv(|toAdd|, SECTOR);
        case Remove =>
          sectors := 0;
      } else {
        if (off, sectors) != (0, 0) {
          var start := off * SECTOR;
          var end := start + sectors * SECTOR;
          added := Slice(data, start, end);
        } else {
          sectors := 0;
        }
      }
      SlotCases(this, updates, chunkX, chunkZ);
    }
  }

  /** A slot whose content or entry fails is the file's error. */
  lemma FileFails(slots: seq<SlotResult>, k: nat, header: seq<byte>, chunks: seq<byte>, cursor: nat, e: Error)
    requires |slots| == SLOTS && k < SLOTS && Assemble(slots, k) == Ok(Progress(header, chunks, cursor))
    requires slots[k] == Err(e) || (slots[k].Ok? && HeaderEntry(cursor, slots[k].value.1) == Err(e))
    ensures FileOf(slots) == Err(e)
  {
    AssembleStops(slots, k);
    AssembleErrorPersists(slots, k + 1, SLOTS);
  }

  /** Once all slots are assembled, the length is checked. */
  lemma FileDone(slots: seq<SlotResult>, header: seq<byte>, chunks: seq<byte>, cursor: nat)
    requires |slots| == SLOTS && Assemble(slots, SLOTS) == Ok(Progress(header, chunks, cursor))
    ensures var f := header + Zeros(SECTOR) + chunks;
            FileOf(slots) == if |f| % SECTOR != 0 then Err(AssertionError) else Ok(f)
  {
  }

  /** Slot `32 * cz + cx` is chunk (cx, cz). */
  lemma SlotAt(rg: Region, updates: map<(int, int), Update>, cx: nat, cz: nat)
    requires cx < SIDE && cz < SIDE
    ensures var k := 32 * cz + cx; k < SLOTS && k % SIDE == cx && k / SIDE == cz
    ensures rg.Slots(updates)[32 * cz + cx] == rg.SlotContent(updates, 32 * cz + cx)
  {
    SlotCoords(cx, cz);
    SlotsAt(rg, updates, SLOTS, 32 * cz + cx);
  }

  /** Chunk (cx, cz) of a region is slot `32 * cz + cx`. */
  lemma SlotCoords(cx: nat, cz: nat)
    requires cx < SIDE && cz < SIDE
    ensures var k := 32 * cz + cx; k < SLOTS && k % SIDE == cx && k / SIDE == cz
  {
    DivModUnique(32 * cz + cx, SIDE, cz, cx);
  }

  /** The k-th of the first n slots is slot k. */
  lemma {:induction false} SlotsAt(rg: Region, updates: map<(int, int), Update>, n: nat, k: nat)
    requires k < n
    ensures rg.SlotsUpTo(updates, n)[k] == rg.SlotContent(updates, k)
  {
    if k < n - 1 {
      SlotsAt(rg, updates, n - 1, k);
    }
  }

  /** Every slot of the file is the slot's content. */
  lemma SlotsAll(rg: Region, updates: map<(int, int), Update>)
    ensures forall k :: 0 <= k < SLOTS ==> rg.Slots(updates)[k] == rg.SlotContent(updates, k)
  {
    forall k | 0 <= k < SLOTS
      ensures rg.Slots(updates)[k] == rg.SlotContent(updates, k)
    {
      SlotsAt(rg, updates, SLOTS, k);
    }
  }

  /** Slot `32 * cz + cx` case by case, in the chunk's own coordinates. */
  lemma SlotCases(rg: Region, updates: map<(int, int), Update>, cx: nat, cz: nat)
    requires cx < SIDE && cz < SIDE && rg.ChunkLocation(cx, cz).Ok?
    ensures var loc := rg.ChunkLocation(cx, cz).value;
            var r := rg.SlotContent(updates, 32 * cz + cx);
            ((cx, cz) in updates && updates[(cx, cz)].Replace? ==>
               r == Ok((updates[(cx, cz)].bytes, CeilDiv(|updates[(cx, cz)].bytes|, SECTOR)))) &&
            ((cx, cz) in updates && updates[(cx, cz)].Remove? ==> r == Ok(([], 0))) &&
            ((cx, cz) !in updates && loc != (0, 0) ==>
               r == Ok((Slice(rg.data, loc.0 * SECTOR, loc.0 * SECTOR + loc.1 * SECTOR), loc.1))) &&
            ((cx, cz) !in updates && loc == (0, 0) ==> r == Ok(([], 0)))
  {
    SlotCoords(cx, cz);
  }

  /** A slot that fails stops the assembly with its error. */
  lemma AssembleStops(slots: seq<SlotResult>, k: nat)
    requires k < |slots| && Assemble(slots, k).Ok?
    requires slots[k].Err? || HeaderEntry(Assemble(slots, k).value.cursor, slots[k].value.1).Err?
    ensures Assemble(slots, k + 1) ==
              Err(if slots[k].Err? then slots[k].error else HeaderEntry(Assemble(slots, k).value.cursor, slots[k].value.1).error)
  {
  }

  /** A slot that succeeds extends the assembly. */
  lemma AssembleNext(slots: seq<SlotResult>, k: nat, header: seq<byte>, chunks: seq<byte>, cursor: nat,
                     bytes: seq<byte>, sectors: nat, entry: seq<byte>)
    requires k < |slots| && Assemble(slots, k) == Ok(Progress(header, chunks, cursor))
    requires slots[k] == Ok((bytes, sectors)) && HeaderEntry(cursor, sectors) == Ok(entry)
    ensures Assemble(slots, k + 1) == Ok(Progress(header + entry, chunks + bytes, cursor + sectors))
  {
  }

  /** Python's truth value of a tag file: false when it has no child tags. */
  predicate Falsy(t: Tag)
  {
    t.payload.Compound? && t.payload.tags == []
  }

  /** The first failing slot decides `write`'s error. */
  lemma {:induction false} AssembleErrorPersists(slots: seq<SlotResult>, n: nat, m: nat)
    requires n <= m <= |slots| && Assemble(slots, n).Err?
    ensures Assemble(slots, m) == Err(Assemble(slots, n).error)
    decreases m
  {
    if m > n {
      AssembleErrorPersists(slots, n, m - 1);
    }
  }

  /** Later slots only append to the table and to the chunk bytes. */
  lemma {:induction false} AssemblePrefix(slots: seq<SlotResult>, n: nat, m: nat)
    requires n <= m <= |slots| && Assemble(slots, m).Ok?
    ensures Assemble(slots, n).Ok?
    ensures Assemble(slots, n).value.header <= Assemble(slots, m).value.header
    ensures Assemble(slots, n).value.chunks <= Assemble(slots, m).value.chunks
    decreases m
  {
    if m > n {
      AssemblePrefix(slots, n, m - 1);
    }
  }

  /** Slot k's entry in an assembled table is the entry made from the cursor
      before slot k and slot k's sector count. */
  lemma AssembleEntry(slots: seq<SlotResult>, k: nat, m: nat)
    requires k < m <= |slots| && Assemble(slots, m).Ok?
    ensures Assemble(slots, k).Ok? && slots[k].Ok?
    ensures var e := HeaderEntry(Assemble(slots, k).value.cursor, slots[k].value.1);
            e.Ok? && Assemble(slots, m).value.header[4 * k..4 * k + 4] == e.value
  {
    AssemblePrefix(slots, k + 1, m);
    AssembleStep(slots, k);
    var p := Assemble(slots, k).value;
    var e := HeaderEntry(p.cursor, slots[k].value.1).value;
    PrefixSlice(p.header + e, Assemble(slots, m).value.header, 4 * k, 4 * k + 4);
    assert (p.header + e)[4 * k..4 * k + 4] == e;
  }

  /** Slot k's bytes follow the chunk bytes of the slots before it. */
  lemma {:induction false} AssembleBytes(slots: seq<SlotResult>, k: nat, m: nat)
    requires k < m <= |slots| && Assemble(slots, m).Ok?
    ensures Assemble(slots, k).Ok? && slots[k].Ok?
    ensures var n := |Assemble(slots, k).value.chunks|;
            var b := slots[k].value.0;
            n + |b| <= |Assemble(slots, m).value.chunks| && Assemble(slots, m).value.chunks[n..n + |b|] == b
  {
    AssemblePrefix(slots, m - 1, m);
    if m == k + 1 {
      AssembleStep(slots, k);
      AppendedSlice(Assemble(slots, k).value.chunks, slots[k].value.0, Assemble(slots, m).value.chunks);
    } else {
      AssembleBytes(slots, k, m - 1);
      var n := |Assemble(slots, k).value.chunks|;
      PrefixSlice(Assemble(slots, m - 1).value.chunks, Assemble(slots, m).value.chunks, n, n + |slots[k].value.0|);
    }
  }

  /** What was appended after `c` sits right after it in any extension. */
  lemma AppendedSlice(c: seq<byte>, b: seq<byte>, big: seq<byte>)
    requires c + b <= big
    ensures |c| + |b| <= |big| && big[|c|..|c| + |b|] == b
  {
    assert big[..|c| + |b|] == c + b;
    assert big[|c|..|c| + |b|] == (c + b)[|c|..];
  }

  /** One more slot: its entry and bytes appended, the cursor advanced. */
  lemma AssembleStep(slots: seq<SlotResult>, k: nat)
    requires k < |slots| && Assemble(slots, k + 1).Ok?
    ensures Assemble(slots, k).Ok? && slots[k].Ok?
    ensures var p := Assemble(slots, k).value;
            var s := slots[k].value;
            HeaderEntry(p.cursor, s.1).Ok? &&
            Assemble(slots, k + 1).value == Progress(p.header + HeaderEntry(p.cursor, s.1).value, p.chunks + s.0, p.cursor + s.1)
  {
  }

  /** A slice inside a prefix is the same slice of the whole. */
  lemma PrefixSlice(a: seq<byte>, b: seq<byte>, lo: nat, hi: nat)
    requires a <= b && lo <= hi <= |a|
    ensures b[lo..hi] == a[lo..hi]
  {
    assert b[..|a|] == a;
  }

  /** A slot keeps its bytes whole: it stores as many bytes as the sectors
      it counts. */
  predicate Aligned(slot: SlotResult)
  {
    slot.Ok? ==> |slot.value.0| == slot.value.1 * SECTOR
  }

  /** When every slot before n is aligned, the chunk bytes fill exactly the
      sectors from 2 up to the cursor. */
  lemma {:induction false} ChunksFillSectors(slots: seq<SlotResult>, n: nat)
    requires n <= |slots| && Assemble(slots, n).Ok?
    requires forall k :: 0 <= k < n ==> Aligned(slots[k])
    ensures |Assemble(slots, n).value.chunks| == (Assemble(slots, n).value.cursor - 2) * SECTOR
  {
    if n > 0 {
      ChunksFillSectors(slots, n - 1);
      assert Aligned(slots[n - 1]);
    }
  }

  /** Reading an entry back gives what was written into it. */
  lemma LocationOfEntry(rg: Region, cx: int, cz: int, cursor: nat, sectors: nat)
    requires HeaderEntry(cursor, sectors).Ok?
    requires var h := HeaderOffset(cx, cz); h + 4 <= |rg.data| && rg.data[h..h + 4] == HeaderEntry(cursor, sectors).value
    ensures rg.ChunkLocation(cx, cz) == Ok(if sectors == 0 then (0, 0) else (cursor, sectors))
  {
    var h := HeaderOffset(cx, cz);
    var e := HeaderEntry(cursor, sectors).value;
    assert Slice(rg.data, h, h + 3) == rg.data[h..h + 4][..3] == e[..3];
    assert rg.data[h + 3] == e[3];
    if sectors == 0 {
      ZeroDigits();
      assert e[..3] == [0, 0, 0];
    } else {
      EntryDigits(cursor);
      assert e[..3] == [cursor / 0x1_0000, cursor / 0x100 % 0x100, cursor % 0x100];
    }
  }

  lemma ZeroDigits()
    ensures BigEndian([0, 0, 0]) == 0
  {
    var s: seq<byte> := [0, 0, 0];
    assert s[..2][..1][..0] == [] && s[..2][..1] == [0] && s[..2] == [0, 0];
  }

  /** Reading a written file's location table: slot k names the sector the
      cursor had reached when slot k was visited, and the slot's sector count;
      a dropped or absent chunk reads as (0, 0). */
  lemma WrittenLocation(rg: Region, updates: map<(int, int), Update>, k: nat)
    requires k < SLOTS && rg.Written(updates).Ok?
    ensures Assemble(rg.Slots(updates), k).Ok? && rg.SlotContent(updates, k).Ok?
    ensures var c := Assemble(rg.Slots(updates), k).value.cursor;
            var s := rg.SlotContent(updates, k).value.1;
            Region(rg.x, rg.z, rg.Written(updates).value).ChunkLocation(k % SIDE, k / SIDE) ==
              Ok(if s == 0 then (0, 0) else (c, s))
  {
    var slots := rg.Slots(updates);
    SlotsAt(rg, updates, SLOTS, k);
    FileEntry(slots, k);
    HeaderOffsetOfSlot(k);
    LocationOfEntry(Region(rg.x, rg.z, FileOf(slots).value), k % SIDE, k / SIDE,
                    Assemble(slots, k).value.cursor, slots[k].value.1);
  }

  /** Slot k's bytes start at the sector its entry names when the slots
      before it are aligned: reading the new file there finds them. */
  lemma WrittenBytes(rg: Region, updates: map<(int, int), Update>, k: nat)
    requires k < SLOTS && rg.Written(updates).Ok?
    requires forall j :: 0 <= j < k ==> Aligned(rg.SlotContent(updates, j))
    ensures Assemble(rg.Slots(updates), k).Ok? && rg.SlotContent(updates, k).Ok?
    ensures var c := Assemble(rg.Slots(updates), k).value.cursor;
            var b := rg.SlotContent(updates, k).value.0;
            var f := rg.Written(updates).value;
            c * SECTOR + |b| <= |f| && f[c * SECTOR..c * SECTOR + |b|] == b
  {
    var slots := rg.Slots(updates);
    SlotsAll(rg, updates);
    assert forall j :: 0 <= j < k ==> Aligned(slots[j]);
    FileBytes(slots, k);
  }

  /** The length assertion cannot fail when every slot is aligned, and the
      file then ends where the cursor does. */
  lemma AlignedWriteSucceeds(rg: Region, updates: map<(int, int), Update>)
    requires Assemble(rg.Slots(updates), SLOTS).Ok?
    requires forall k :: 0 <= k < SLOTS ==> Aligned(rg.SlotContent(updates, k))
    ensures rg.Written(updates).Ok?
    ensures |rg.Written(updates).value| == Assemble(rg.Slots(updates), SLOTS).value.cursor * SECTOR
  {
    var slots := rg.Slots(updates);
    SlotsAll(rg, updates);
    assert forall k :: 0 <= k < SLOTS ==> Aligned(slots[k]);
    AlignedFileSucceeds(slots);
  }

  /** An updated slot is aligned when its bytes fill whole sectors, as the
      frames made by `get_data` do; a dropped slot always is. */
  lemma ReplaceAligned(rg: Region, updates: map<(int, int), Update>, k: nat)
    requires rg.SlotContent(updates, k).Ok?
    requires (k % SIDE as int, k / SIDE as int) in updates
    requires var u := updates[(k % SIDE as int, k / SIDE as int)]; u.Replace? ==> |u.bytes| % SECTOR == 0
    ensures Aligned(rg.SlotContent(updates, k))
  {
    var u := updates[(k % SIDE as int, k / SIDE as int)];
    if u.Replace? {
      DivModParts(|u.bytes|, SECTOR);
      DivModParts(|u.bytes| + SECTOR - 1, SECTOR);
    }
  }

  /** An untouched slot is aligned when its sectors lie inside the old file. */
  lemma CopyAligned(rg: Region, updates: map<(int, int), Update>, k: nat)
    requires rg.ChunkLocation(k % SIDE, k / SIDE).Ok?
    requires (k % SIDE as int, k / SIDE as int) !in updates
    requires var loc := rg.ChunkLocation(k % SIDE, k / SIDE).value; (loc.0 + loc.1) * SECTOR <= |rg.data|
    ensures Aligned(rg.SlotContent(updates, k))
    ensures var loc := rg.ChunkLocation(k % SIDE, k / SIDE).value;
            rg.SlotContent(updates, k).value ==
              (if loc == (0, 0) then ([], 0) else (rg.data[loc.0 * SECTOR..(loc.0 + loc.1) * SECTOR], loc.1))
  {
  }

  /** A chunk frame as `get_data` lays it out: the length (payload plus the
      compression byte) in 4 big-endian bytes, compression type 2, the payload. */
  function Frame(payload: seq<byte>): (r: seq<byte>)
    requires |payload| + 1 < MAX_FRAME
    ensures |r| == |payload| + 5
  {
    Pow2Small();
    ToBytes(|payload| + 1, 4).value + [2] + payload
  }

  /** Reading a frame back through a location entry gives its payload. */
  lemma FramedPayload(rg: Region, cx: int, cz: int, payload: seq<byte>)
    requires |payload| + 1 < MAX_FRAME
    requires rg.ChunkLocation(cx, cz).Ok? && rg.ChunkLocation(cx, cz).value != (0, 0)
    requires var off := rg.ChunkLocation(cx, cz).value.0 * SECTOR;
             off + |payload| + 5 <= |rg.data| && rg.data[off..off + |payload| + 5] == Frame(payload)
    ensures rg.ChunkPayload(cx, cz) == Ok(Some(payload))
  {
    FrameAt(rg.data, rg.ChunkLocation(cx, cz).value.0, payload);
  }

  /** A frame stored from sector `sector` on reads back as its payload. */
  lemma FrameAt(data: seq<byte>, sector: nat, payload: seq<byte>)
    requires |payload| + 1 < MAX_FRAME
    requires var off := sector * SECTOR;
             off + |payload| + 5 <= |data| && data[off..off + |payload| + 5] == Frame(payload)
    ensures PayloadAt(data, sector) == Ok(payload)
  {
    Pow2Small();
    var off := sector * SECTOR;
    var fr := Frame(payload);
    assert Slice(data, off, off + 4) == fr[..4];
    assert fr[..4] == ToBytes(|payload| + 1, 4).value;
    assert data[off + 4] == fr[4];
    assert Slice(data, off + 5, off + 4 + (|payload| + 1)) == fr[5..];
  }
}
