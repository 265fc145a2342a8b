/** A 16x16x16 section of a chunk (pyblock/section.py): the 4096 blocks
    decoded from the section's palette and packed index words, and the
    section tag rebuilt from the blocks. */
module Sections {
  import opened Common
  import opened Tags
  import opened Blocks
  import opened Packing
  import opened Palettes

  /** `Block(compound=entry)` for a palette entry. */
  function FromEntry(t: Tag): (r: Result<Block>)
    ensures r.Ok? ==> r.value.compound == t
    ensures !t.payload.Compound? ==> r == Err(TypeError)
  {
    if !t.payload.Compound? || t.payload.tags == [] then Err(TypeError) else FromCompound(t)
  }

  /** A block read from an entry is well formed. */
  lemma FromEntryWellFormed(t: Tag)
    requires FromEntry(t).Ok?
    ensures WellFormed(FromEntry(t).value)
  {
  }

  /** `FromEntry` is the constructor called with only a compound. */
  lemma FromEntryIsNew(t: Tag)
    requires t.payload.Compound?
    ensures FromEntry(t) == New(None, None, Some(t))
  {
  }

  /** A well-formed block's compound reads back as that block. */
  lemma FromEntryOfWellFormed(b: Block)
    requires WellFormed(b)
    ensures FromEntry(b.compound) == Ok(b)
  {
    assert Has(b.compound, "Name");
  }

  /** `[Block(compound=entry) for entry in palette]`, failing at the first bad entry. */
  function EntryBlocks(entries: seq<Tag>): (r: Result<seq<Block>>)
    ensures r.Ok? ==> |r.value| == |entries| && forall i :: 0 <= i < |entries| ==> FromEntry(entries[i]) == Ok(r.value[i])
  {
    Collect(EntryResults(entries))
  }

  /** The blocks of a list of results, or the first error in it. */
  function Collect(rs: seq<Result<Block>>): (r: Result<seq<Block>>)
    ensures r.Ok? ==> |r.value| == |rs| && forall i :: 0 <= i < |rs| ==> rs[i] == Ok(r.value[i])
  {
    if rs == [] then Ok([])
    else
      var prev :- Collect(rs[..|rs| - 1]);
      var b :- rs[|rs| - 1];
      Ok(prev + [b])
  }

  /** Results that are all blocks collect to those blocks, in order. */
  lemma {:induction false} CollectAllOk(rs: seq<Result<Block>>, bs: seq<Block>)
    requires |rs| == |bs| && forall i :: 0 <= i < |rs| ==> rs[i] == Ok(bs[i])
    ensures Collect(rs) == Ok(bs)
  {
    if rs != [] {
      var n := |rs| - 1;
      CollectAllOk(rs[..n], bs[..n]);
      assert bs == bs[..n] + [bs[n]];
    }
  }

  /** What each palette entry reads as, `Block(compound=entry)`. The loop
      builds the block anew at every position that uses an entry; since that
      is a pure function of the entry, reading it from this sequence gives the
      same blocks and the same errors. */
  function EntryResults(palette: seq<Tag>): seq<Result<Block>>
  {
    seq(|palette|, j requires 0 <= j < |palette| => FromEntry(palette[j]))
  }

  /** `entries` holds what each palette entry reads as. */
  predicate ReadsAs(palette: seq<Tag>, entries: seq<Result<Block>>)
  {
    |entries| == |palette| && forall j {:trigger FromEntry(palette[j])} :: 0 <= j < |palette| ==> entries[j] == FromEntry(palette[j])
  }

  /** The block at position i of a section whose palette has more than one
      entry: its index is read from the words; a missing word or an index past
      the palette is an `IndexError`, a bad entry fails as the entry does. */
  function DecodeEntry(entries: seq<Result<Block>>, words: seq<nat>, bits: nat, i: nat): Result<Block>
    requires MIN_BITS <= bits <= WORD_BITS
  {
    var (q, c) := Locate(i, PerWord(bits));
    if q >= |words| then Err(IndexError)
    else
      var id := Low(Shr(words[q], Times(bits, c)), bits);
      if id >= |entries| then Err(IndexError) else entries[id]
  }

  /** Word and slot of position i when every word holds k indices, counted
      off one word at a time. */
  function Locate(i: nat, k: nat): (r: (nat, nat))
    requires k > 0
    ensures r.1 < k
  {
    if i < k then (0, i) else var l := Locate(i - k, k); (l.0 + 1, l.1)
  }

  /** Counting off words is division with remainder. */
  lemma {:induction false} LocateIsDivMod(i: nat, k: nat)
    requires k > 0
    ensures Locate(i, k) == (i / k, i % k)
  {
    if i >= k {
      LocateIsDivMod(i - k, k);
      DivModAddMultiple(i - k, 1, k);
    }
  }

  /** A position decodes from the index `IndexAt` reads out of the words. */
  lemma DecodeEntryIndexAt(entries: seq<Result<Block>>, words: seq<nat>, bits: nat, i: nat)
    requires MIN_BITS <= bits <= WORD_BITS
    ensures i / PerWord(bits) >= |words| ==> DecodeEntry(entries, words, bits, i) == Err(IndexError)
    ensures i / PerWord(bits) < |words| ==>
              var id := IndexAt(words, bits, i);
              DecodeEntry(entries, words, bits, i) == if id >= |entries| then Err(IndexError) else entries[id]
  {
    LocateIsDivMod(i, PerWord(bits));
  }

  /** The first n blocks, failing at the first position that fails. */
  function Unpack(entries: seq<Result<Block>>, words: seq<nat>, bits: nat, n: nat): (r: Result<seq<Block>>)
    requires MIN_BITS <= bits <= WORD_BITS
    ensures r.Ok? ==> |r.value| == n
  {
    if n == 0 then Ok([])
    else
      var prev :- Unpack(entries, words, bits, n - 1);
      var b :- DecodeEntry(entries, words, bits, n - 1);
      Ok(prev + [b])
  }

  /** A decoded prefix holds, position for position, the decoded entries. */
  lemma {:induction false} UnpackElements(entries: seq<Result<Block>>, words: seq<nat>, bits: nat, n: nat)
    requires MIN_BITS <= bits <= WORD_BITS && Unpack(entries, words, bits, n).Ok?
    ensures forall i :: 0 <= i < n ==> DecodeEntry(entries, words, bits, i) == Ok(Unpack(entries, words, bits, n).value[i])
  {
    if n > 0 {
      UnpackElements(entries, words, bits, n - 1);
    }
  }

  /** Once a position fails, every longer prefix fails with the same error. */
  lemma {:induction false} UnpackErrorPersists(entries: seq<Result<Block>>, words: seq<nat>, bits: nat, n: nat, m: nat)
    requires MIN_BITS <= bits <= WORD_BITS && n <= m
    requires Unpack(entries, words, bits, n).Err?
    ensures Unpack(entries, words, bits, m) == Unpack(entries, words, bits, n)
    decreases m - n
  {
    if n < m {
      UnpackErrorPersists(entries, words, bits, n, m - 1);
    }
  }

  /** When every position decodes, the prefix decodes to those blocks. */
  lemma {:induction false} UnpackAllOk(entries: seq<Result<Block>>, words: seq<nat>, bits: nat, n: nat)
    requires MIN_BITS <= bits <= WORD_BITS
    requires forall i :: 0 <= i < n ==> DecodeEntry(entries, words, bits, i).Ok?
    ensures Unpack(entries, words, bits, n).Ok?
  {
    if n > 0 {
      UnpackAllOk(entries, words, bits, n - 1);
    }
  }

  /** The blocks decoded before the first failing position among the first
      n: what the loop has appended when it raises. */
  function UnpackedPrefix(entries: seq<Result<Block>>, words: seq<nat>, bits: nat, n: nat): seq<Block>
    requires MIN_BITS <= bits <= WORD_BITS
  {
    var u := Unpack(entries, words, bits, n);
    if u.Ok? then u.value else if n == 0 then [] else UnpackedPrefix(entries, words, bits, n - 1)
  }

  /** How many of the first n positions decode before the first failure. */
  function DecodedCount(entries: seq<Result<Block>>, words: seq<nat>, bits: nat, n: nat): (k: nat)
    requires MIN_BITS <= bits <= WORD_BITS
    ensures k <= n
  {
    if n == 0 || Unpack(entries, words, bits, n).Ok? then n else DecodedCount(entries, words, bits, n - 1)
  }

  /** The prefix is the decoding of the first k positions, where k is n or
      the first position that fails. */
  lemma {:induction false} UnpackedPrefixSpec(entries: seq<Result<Block>>, words: seq<nat>, bits: nat, n: nat)
    requires MIN_BITS <= bits <= WORD_BITS
    ensures var k := DecodedCount(entries, words, bits, n);
            Unpack(entries, words, bits, k) == Ok(UnpackedPrefix(entries, words, bits, n)) &&
            (k < n ==> Unpack(entries, words, bits, k + 1).Err?)
  {
    if n > 0 && Unpack(entries, words, bits, n).Err? {
      UnpackedPrefixSpec(entries, words, bits, n - 1);
    }
  }

  /** When position k is the first to fail, the prefix of any longer run is
      the decoding of the first k positions. */
  lemma {:induction false} UnpackedPrefixAt(entries: seq<Result<Block>>, words: seq<nat>, bits: nat, k: nat, n: nat)
    requires MIN_BITS <= bits <= WORD_BITS && k < n
    requires Unpack(entries, words, bits, k).Ok? && Unpack(entries, words, bits, k + 1).Err?
    ensures UnpackedPrefix(entries, words, bits, n) == Unpack(entries, words, bits, k).value
    decreases n
  {
    if n > k + 1 {
      UnpackErrorPersists(entries, words, bits, k + 1, n);
      UnpackedPrefixAt(entries, words, bits, k, n - 1);
    }
  }

  /** Every entry that reads as a block reads as a well-formed one. */
  predicate EntriesWellFormed(entries: seq<Result<Block>>)
  {
    forall j :: 0 <= j < |entries| && entries[j].Ok? ==> WellFormed(entries[j].value)
  }

  lemma EntryResultsWellFormed(palette: seq<Tag>)
    ensures EntriesWellFormed(EntryResults(palette))
  {
    var entries := EntryResults(palette);
    forall j | 0 <= j < |entries| && entries[j].Ok? ensures WellFormed(entries[j].value) {
      FromEntryWellFormed(palette[j]);
    }
  }

  /** A position that decodes gives one of the entries. */
  lemma DecodeEntryIsEntry(entries: seq<Result<Block>>, words: seq<nat>, bits: nat, i: nat)
    requires MIN_BITS <= bits <= WORD_BITS && DecodeEntry(entries, words, bits, i).Ok?
    ensures exists j :: 0 <= j < |entries| && entries[j] == DecodeEntry(entries, words, bits, i)
  {
    var (q, c) := Locate(i, PerWord(bits));
    var id := Low(Shr(words[q], Times(bits, c)), bits);
    assert entries[id] == DecodeEntry(entries, words, bits, i);
  }

  /** Every block unpacked from well-formed entries is well formed. */
  lemma UnpackWellFormed(entries: seq<Result<Block>>, words: seq<nat>, bits: nat, n: nat)
    requires MIN_BITS <= bits <= WORD_BITS && EntriesWellFormed(entries)
    requires Unpack(entries, words, bits, n).Ok?
    ensures forall i :: 0 <= i < n ==> WellFormed(Unpack(entries, words, bits, n).value[i])
  {
    var r := Unpack(entries, words, bits, n).value;
    UnpackElements(entries, words, bits, n);
    forall i | 0 <= i < n ensures WellFormed(r[i]) {
      DecodeEntryIsEntry(entries, words, bits, i);
    }
  }

  /** Sections whose palette, if any, is short enough for word-sized indices. */
  predicate PaletteFits(nbtSection: Tag)
  {
    var states := Get(nbtSection, "block_states");
    states.Ok? ==>
      var palette := Get(states.value, "palette");
      palette.Ok? && palette.value.payload.List? ==> |palette.value.payload.items| <= Pow2(WORD_BITS)
  }

  /** The 4096 blocks of a section tag, as `read_blocks` reads them: a
      one-entry palette fills the section without reading any word; otherwise
      the `data` words are unpacked with `Bits(|palette|)`-wide indices. */
  function SectionBlocks(nbtSection: Tag): (r: Result<seq<Block>>)
    requires PaletteFits(nbtSection)
    ensures r.Ok? ==> |r.value| == SECTION_VOLUME && forall i :: 0 <= i < SECTION_VOLUME ==> WellFormed(r.value[i])
  {
    var states :- Get(nbtSection, "block_states");
    var paletteTag :- Get(states, "palette");
    var palette :- Items(paletteTag);
    if |palette| == 1 then
      var b :- FromEntry(palette[0]);
      FromEntryWellFormed(palette[0]);
      Ok(seq(SECTION_VOLUME, _ => b))
    else
      var dataTag :- Get(states, "data");
      if !dataTag.payload.LongArray? then Err(TypeError)
      else
        var r := Unpack(EntryResults(palette), dataTag.payload.words, Bits(|palette|), SECTION_VOLUME);
        if r.Ok? then
          EntryResultsWellFormed(palette);
          UnpackWellFormed(EntryResults(palette), dataTag.payload.words, Bits(|palette|), SECTION_VOLUME);
          r
        else r
  }

  /** The list `read_blocks` leaves in `blocks`: `None` when it raises
      before assigning it (a missing key, a bad one-entry palette, no first
      word), otherwise the blocks appended before it returns or raises. */
  function BlocksLeft(nbtSection: Tag): (r: Option<seq<Block>>)
    requires PaletteFits(nbtSection)
    ensures SectionBlocks(nbtSection).Ok? ==> r == Some(SectionBlocks(nbtSection).value)
  {
    var states := Get(nbtSection, "block_states");
    var paletteTag := if states.Ok? then Get(states.value, "palette") else Err(KeyError);
    var palette := if paletteTag.Ok? then Items(paletteTag.value) else Err(KeyError);
    if states.Err? || paletteTag.Err? || palette.Err? then None
    else if |palette.value| == 1 then
      var b := FromEntry(palette.value[0]);
      if b.Ok? then Some(seq(SECTION_VOLUME, _ => b.value)) else None
    else
      var dataTag := Get(states.value, "data");
      if dataTag.Err? || !dataTag.value.payload.LongArray? then None
      else if dataTag.value.payload.words == [] then
        NoWordFails(EntryResults(palette.value), Bits(|palette.value|));
        None
      else Some(UnpackedPrefix(EntryResults(palette.value), dataTag.value.payload.words, Bits(|palette.value|), SECTION_VOLUME))
  }

  /** Without a first word the unpacking fails. */
  lemma NoWordFails(entries: seq<Result<Block>>, bits: nat)
    requires MIN_BITS <= bits <= WORD_BITS
    ensures Unpack(entries, [], bits, SECTION_VOLUME).Err?
  {
    DecodeEntryIndexAt(entries, [], bits, 0);
    UnpackFails(entries, [], bits, 0, []);
  }

  /** Position i of word `state`, slot c, is index `i / K`, `i % K`. */
  lemma SlotOf(i: nat, k: nat, state: nat, c: nat)
    requires k > 0 && c < k && i == k * state + c
    ensures i / k == state && i % k == c
  {
    DivModUnique(i, k, state, c);
  }

  /** `read_blocks` on a section tag: the tag lookups, the one-entry palette
      shortcut, then the unpacking loop. */
  method DecodeBlocks(nbtSection: Tag) returns (r: Result<seq<Block>>, left: Option<seq<Block>>)
    requires PaletteFits(nbtSection)
    ensures r == SectionBlocks(nbtSection)
    ensures left == BlocksLeft(nbtSection)
  {
    left := None;
    var states := Get(nbtSection, "block_states");
    if states.Err? { return Err(states.error), None; }
    var paletteTag := Get(states.value, "palette");
    if paletteTag.Err? { return Err(paletteTag.error), None; }
    var items := Items(paletteTag.value);
    if items.Err? { return Err(items.error), None; }
    var palette := items.value;
    if |palette| == 1 {
      var b := FromEntry(palette[0]);
      if b.Err? { return Err(b.error), None; }
      left := Some(seq(SECTION_VOLUME, _ => b.value));
      return Ok(left.value), left;
    }
    var dataTag := Get(states.value, "data");
    if dataTag.Err? { return Err(dataTag.error), None; }
    if !dataTag.value.payload.LongArray? { return Err(TypeError), None; }
    var appended;
    r, appended := UnpackWords(palette, dataTag.value.payload.words, Bits(|palette|), EntryResults(palette));
    if dataTag.value.payload.words != [] {
      left := Some(appended);
    }
  }

  /** The loop of `read_blocks`: walks the words keeping the current word
      shifted down (`data`) and the number of its bits not yet consumed
      (`data_len`), taking the next word when fewer than `bits` are left. */
  method UnpackWords(palette: seq<Tag>, datas: seq<nat>, bits: nat, ghost entries: seq<Result<Block>>)
    returns (r: Result<seq<Block>>, appended: seq<Block>)
    requires MIN_BITS <= bits <= WORD_BITS && ReadsAs(palette, entries)
    ensures r == Unpack(entries, datas, bits, SECTION_VOLUME)
    ensures datas != [] ==> appended == UnpackedPrefix(entries, datas, bits, SECTION_VOLUME)
  {
    var state: nat := 0;
    var dataLen: int := WORD_BITS;
    if |datas| == 0 {
      MissingWord(entries, datas, bits, 0, [], 0, 0);
      return Err(IndexError), [];
    }
    var data := datas[0];
    var blocks: seq<Block> := [];
    var index: nat := 0;
    ghost var c: nat := 0;     // indices already taken from the current word
    ghost var base: nat := 0;  // position of the current word's first index
    ghost var used: nat := 0;  // bits already taken from the current word
    while index < SECTION_VOLUME
      invariant index <= SECTION_VOLUME && state < |datas| && c <= PerWord(bits)
      invariant index == base + c && base == Times(PerWord(bits), state) && used == Times(bits, c)
      invariant dataLen == WORD_BITS - used && data == Shr(datas[state], used)
      invariant Unpack(entries, datas, bits, index) == Ok(blocks)
    {
      var more;
      more, state, data, dataLen, c, base, used := Refill(entries, datas, bits, index, blocks, state, data, dataLen, c, base, used);
      if !more {
        UnpackedPrefixAt(entries, datas, bits, index, SECTION_VOLUME);
        return Err(IndexError), blocks;
      }
      var block;
      block, data, dataLen, c, used := NextBlock(palette, datas, bits, entries, index, blocks, state, data, dataLen, c, base, used);
      if block.Err? {
        UnpackedPrefixAt(entries, datas, bits, index, SECTION_VOLUME);
        return Err(block.error), blocks;
      }
      blocks := blocks + [block.value];
      index := index + 1;
    }
    r, appended := Ok(blocks), blocks;
  }

  /** The refill step of the loop: when fewer than `bits` bits are left, the
      next word is taken (`datas[state]`), which fails past the last word. */
  method Refill(ghost entries: seq<Result<Block>>, datas: seq<nat>, bits: nat, ghost index: nat, ghost blocks: seq<Block>,
                state: nat, data: nat, dataLen: int, ghost c: nat, ghost base: nat, ghost used: nat)
    returns (more: bool, state': nat, data': nat, dataLen': int, ghost c': nat, ghost base': nat, ghost used': nat)
    requires MIN_BITS <= bits <= WORD_BITS && index < SECTION_VOLUME && state < |datas| && c <= PerWord(bits)
    requires index == base + c && base == Times(PerWord(bits), state) && used == Times(bits, c)
    requires dataLen == WORD_BITS - used && data == Shr(datas[state], used)
    requires Unpack(entries, datas, bits, index) == Ok(blocks)
    ensures !more ==> Unpack(entries, datas, bits, index + 1).Err? && Unpack(entries, datas, bits, SECTION_VOLUME) == Err(IndexError)
    ensures more ==>
              state' < |datas| && c' < PerWord(bits) &&
              index == base' + c' && base' == Times(PerWord(bits), state') && used' == Times(bits, c') &&
              dataLen' == WORD_BITS - used' && data' == Shr(datas[state'], used')
  {
    more, state', data', dataLen', c', base', used' := true, state, data, dataLen, c, base, used;
    SlotRoom(bits, c, used);
    if dataLen < bits {
      state' := state + 1;
      base' := base + PerWord(bits);
      c' := 0;
      used' := 0;
      if state' >= |datas| {
        MissingWord(entries, datas, bits, index, blocks, state', base');
        return false, state', data', dataLen', c', base', used';
      }
      data' := datas[state'];
      dataLen' := WORD_BITS;
    }
  }

  /** The rest of one turn of the loop: mask out the palette index, read the
      entry as a block, and shift the word down by `bits`. */
  method NextBlock(palette: seq<Tag>, datas: seq<nat>, bits: nat, ghost entries: seq<Result<Block>>,
                   ghost index: nat, ghost blocks: seq<Block>,
                   state: nat, data: nat, dataLen: int, ghost c: nat, ghost base: nat, ghost used: nat)
    returns (block: Result<Block>, data': nat, dataLen': int, ghost c': nat, ghost used': nat)
    requires MIN_BITS <= bits <= WORD_BITS && ReadsAs(palette, entries)
    requires index < SECTION_VOLUME && state < |datas| && c < PerWord(bits)
    requires index == base + c && base == Times(PerWord(bits), state) && used == Times(bits, c)
    requires dataLen == WORD_BITS - used && data == Shr(datas[state], used)
    requires Unpack(entries, datas, bits, index) == Ok(blocks)
    ensures block.Err? ==> Unpack(entries, datas, bits, index + 1).Err? && Unpack(entries, datas, bits, SECTION_VOLUME) == Err(block.error)
    ensures block.Ok? ==>
              Unpack(entries, datas, bits, index + 1) == Ok(blocks + [block.value]) &&
              c' <= PerWord(bits) && index + 1 == base + c' && used' == Times(bits, c') &&
              dataLen' == WORD_BITS - used' && data' == Shr(datas[state], used')
  {
    var paletteId := Low(data, bits);  // `data & (2 ** bits - 1)`
    Advance(entries, datas, bits, index, blocks, state, c, base, used);
    if paletteId >= |palette| {
      return Err(IndexError), data, dataLen, c, used;
    }
    block := ReadEntry(palette, entries, paletteId);
    data', dataLen', c', used' := ShiftOut(datas[state], data, dataLen, bits, c, used);
  }

  /** `Block(compound=palette[id])`, which `entries` records. */
  method ReadEntry(palette: seq<Tag>, ghost entries: seq<Result<Block>>, id: nat) returns (block: Result<Block>)
    requires ReadsAs(palette, entries) && id < |palette|
    ensures block == entries[id]
  {
    block := FromEntry(palette[id]);
  }

  /** `data >>= bits`: one more index taken from the word. */
  method ShiftOut(word: nat, data: nat, dataLen: int, bits: nat, ghost c: nat, ghost used: nat)
    returns (data': nat, dataLen': int, ghost c': nat, ghost used': nat)
    requires dataLen == WORD_BITS - used && data == Shr(word, used) && used == Times(bits, c)
    ensures c' == c + 1 && used' == Times(bits, c')
    ensures dataLen' == WORD_BITS - used' && data' == Shr(word, used')
  {
    ShrShr(word, used, bits);
    data' := Shr(data, bits);
    dataLen' := dataLen - bits;
    c' := c + 1;
    used' := used + bits;
  }

  /** The first position of a word past the last one makes the section fail. */
  lemma MissingWord(entries: seq<Result<Block>>, words: seq<nat>, bits: nat, i: nat, blocks: seq<Block>, state: nat, base: nat)
    requires MIN_BITS <= bits <= WORD_BITS && i < SECTION_VOLUME
    requires i == base && base == Times(PerWord(bits), state) && state >= |words|
    requires Unpack(entries, words, bits, i) == Ok(blocks)
    ensures Unpack(entries, words, bits, i + 1).Err? && Unpack(entries, words, bits, SECTION_VOLUME) == Err(IndexError)
  {
    DecodeEntryAt(entries, words, bits, i, state, 0, base, 0);
    UnpackFails(entries, words, bits, i, blocks);
  }

  /** One position of the loop, read from slot c of word `state`: an index
      past the palette or a bad entry makes the section fail with that error;
      otherwise the prefix grows by the entry's block. */
  lemma Advance(entries: seq<Result<Block>>, words: seq<nat>, bits: nat, i: nat, blocks: seq<Block>,
                state: nat, c: nat, base: nat, used: nat)
    requires MIN_BITS <= bits <= WORD_BITS && i < SECTION_VOLUME && c < PerWord(bits) && state < |words|
    requires i == base + c && base == Times(PerWord(bits), state) && used == Times(bits, c)
    requires Unpack(entries, words, bits, i) == Ok(blocks)
    ensures var id := Low(Shr(words[state], used), bits);
            (id >= |entries| ==> Unpack(entries, words, bits, SECTION_VOLUME) == Err(IndexError)) &&
            (id < |entries| && entries[id].Err? ==>
               Unpack(entries, words, bits, SECTION_VOLUME) == Err(entries[id].error)) &&
            (id < |entries| && entries[id].Ok? ==>
               Unpack(entries, words, bits, i + 1) == Ok(blocks + [entries[id].value])) &&
            (id >= |entries| || entries[id].Err? ==> Unpack(entries, words, bits, i + 1).Err?)
  {
    DecodeEntryAt(entries, words, bits, i, state, c, base, used);
    if DecodeEntry(entries, words, bits, i).Err? {
      UnpackFails(entries, words, bits, i, blocks);
    } else {
      UnpackStep(entries, words, bits, i, blocks);
    }
  }

  /** With c indices (`used` bits) taken from a word, another one fits
      exactly when c is below the word's capacity. */
  lemma SlotRoom(bits: nat, c: nat, used: nat)
    requires MIN_BITS <= bits <= WORD_BITS && c <= PerWord(bits) && used == Times(bits, c)
    ensures c < PerWord(bits) <==> used + bits <= WORD_BITS
    ensures used <= WORD_BITS
  {
    TimesIsProduct(bits, c);
    RoomInWord(bits, c);
  }

  /** Position `K * state + c` is read from slot c of word `state`, which
      starts `bits * c` bits into the word. */
  lemma DecodeEntryAt(entries: seq<Result<Block>>, words: seq<nat>, bits: nat, i: nat, state: nat, c: nat, base: nat, used: nat)
    requires MIN_BITS <= bits <= WORD_BITS && c < PerWord(bits)
    requires i == base + c && base == Times(PerWord(bits), state) && used == Times(bits, c)
    ensures state >= |words| ==> DecodeEntry(entries, words, bits, i) == Err(IndexError)
    ensures state < |words| ==>
              var id := Low(Shr(words[state], used), bits);
              DecodeEntry(entries, words, bits, i) == if id >= |entries| then Err(IndexError) else entries[id]
  {
    TimesIsProduct(PerWord(bits), state);
    SlotOf(i, PerWord(bits), state, c);
    LocateIsDivMod(i, PerWord(bits));
  }

  lemma UnpackStep(entries: seq<Result<Block>>, words: seq<nat>, bits: nat, n: nat, blocks: seq<Block>)
    requires MIN_BITS <= bits <= WORD_BITS
    requires Unpack(entries, words, bits, n) == Ok(blocks) && DecodeEntry(entries, words, bits, n).Ok?
    ensures Unpack(entries, words, bits, n + 1) == Ok(blocks + [DecodeEntry(entries, words, bits, n).value])
  {
  }

  /** A failing position makes the whole section fail with its error. */
  lemma UnpackFails(entries: seq<Result<Block>>, words: seq<nat>, bits: nat, n: nat, blocks: seq<Block>)
    requires MIN_BITS <= bits <= WORD_BITS && n < SECTION_VOLUME
    requires Unpack(entries, words, bits, n) == Ok(blocks) && DecodeEntry(entries, words, bits, n).Err?
    ensures Unpack(entries, words, bits, n + 1) == Err(DecodeEntry(entries, words, bits, n).error)
    ensures Unpack(entries, words, bits, SECTION_VOLUME) == Err(DecodeEntry(entries, words, bits, n).error)
  {
    UnpackErrorPersists(entries, words, bits, n + 1, SECTION_VOLUME);
  }

  /** The indices of `blocks` in `palette`, by `palette.index` (`ValueError`
      for a block the palette lacks), of the first n blocks. */
  function Indices(blocks: seq<Block>, palette: seq<Block>, n: nat): (r: Result<seq<nat>>)
    requires n <= |blocks|
    ensures r.Ok? ==> |r.value| == n && forall i :: 0 <= i < n ==> IndexOf(palette, blocks[i]) == Ok(r.value[i])
  {
    if n == 0 then Ok([])
    else
      var prev :- Indices(blocks, palette, n - 1);
      var x :- IndexOf(palette, blocks[n - 1]);
      Ok(prev + [x])
  }

  /** The first n blocks have indices exactly when the palette holds an
      equal block for each. */
  lemma {:induction false} IndicesOk(blocks: seq<Block>, palette: seq<Block>, n: nat)
    requires n <= |blocks|
    ensures Indices(blocks, palette, n).Ok? <==> forall i :: 0 <= i < n ==> HasSame(palette, blocks[i])
  {
    if n > 0 {
      IndicesOk(blocks, palette, n - 1);
    }
  }

  /** A block missing from the palette spoils every longer prefix, with the same error. */
  lemma {:induction false} IndicesErrorPersists(blocks: seq<Block>, palette: seq<Block>, n: nat, m: nat)
    requires n <= m <= |blocks| && Indices(blocks, palette, n).Err?
    ensures Indices(blocks, palette, m) == Indices(blocks, palette, n)
    decreases m - n
  {
    if n < m {
      IndicesErrorPersists(blocks, palette, n, m - 1);
    }
  }

  /** The words `blockstates` produces for `blocks` against an nbt palette. */
  function BlockstatesOf(blocks: seq<Block>, nbtPalette: Tag): Result<seq<nat>>
    requires nbtPalette.payload.List? ==> |nbtPalette.payload.items| <= Pow2(WORD_BITS)
  {
    var entries :- Items(nbtPalette);
    var palette :- EntryBlocks(entries);
    var idx :- Indices(blocks, palette, |blocks|);
    Ok(PackWords(idx, Bits(|palette|)))
  }

  /** Number of indices held by the last word of a packing. */
  function Fill(idx: seq<nat>, bits: nat): (c: nat)
    requires MIN_BITS <= bits <= WORD_BITS
    ensures c <= PerWord(bits) && (c == 0 <==> idx == [])
    decreases |idx|
  {
    if |idx| <= PerWord(bits) then |idx| else Fill(idx[PerWord(bits)..], bits)
  }

  /** Appending an index either opens a new word (the last one is full) or
      or-s it into the last word above the indices already there. */
  lemma {:induction false} PackAppend(idx: seq<nat>, x: nat, bits: nat)
    requires MIN_BITS <= bits <= WORD_BITS
    ensures Fill(idx, bits) == PerWord(bits) ==>
              Fill(idx + [x], bits) == 1 && PackWords(idx + [x], bits) == PackWords(idx, bits) + [x]
    ensures Fill(idx, bits) < PerWord(bits) ==>
              Fill(idx + [x], bits) == Fill(idx, bits) + 1 &&
              PackWords(idx + [x], bits) == AddToLast(PackWords(idx, bits), Shl(x, Times(bits, Fill(idx, bits))))
    decreases |idx|
  {
    var k := PerWord(bits);
    if |idx| < k {
      FieldsValueAppend(idx, x, bits);
      PackWordsOne(idx, bits);
      PackWordsOne(idx + [x], bits);
      AddToLastOne(FieldsValue(idx, bits), Shl(x, Times(bits, |idx|)));
    } else if |idx| == k {
      PackAppendFull(idx, x, bits);
    } else {
      var rest := idx[k..];
      var a := FieldsValue(idx[..k], bits);
      var v := Shl(x, Times(bits, Fill(rest, bits)));
      PackAppend(rest, x, bits);
      PackAppendLater(idx, x, bits, v);
      if Fill(rest, bits) == k {
        assert [a] + (PackWords(rest, bits) + [x]) == ([a] + PackWords(rest, bits)) + [x];
      }
    }
  }

  /** Up to one word's worth of indices packs into that one word. */
  lemma PackWordsOne(idx: seq<nat>, bits: nat)
    requires MIN_BITS <= bits <= WORD_BITS && |idx| <= PerWord(bits)
    ensures PackWords(idx, bits) == [FieldsValue(idx, bits)]
  {
  }

  lemma PackAppendFull(idx: seq<nat>, x: nat, bits: nat)
    requires MIN_BITS <= bits <= WORD_BITS && |idx| == PerWord(bits)
    ensures Fill(idx, bits) == PerWord(bits) && Fill(idx + [x], bits) == 1
    ensures PackWords(idx + [x], bits) == PackWords(idx, bits) + [x]
  {
    var k := PerWord(bits);
    var s := idx + [x];
    assert s[..k] == idx && s[k..] == [x];
    assert FieldsValue([x], bits) == x by { assert [x][..0] == []; }
    assert PackWords(s, bits) == [FieldsValue(idx, bits)] + PackWords([x], bits);
  }

  /** Past the first word, appending acts on the packing of the rest. */
  lemma PackAppendLater(idx: seq<nat>, x: nat, bits: nat, v: nat)
    requires MIN_BITS <= bits <= WORD_BITS && |idx| > PerWord(bits)
    ensures Fill(idx, bits) == Fill(idx[PerWord(bits)..], bits)
    ensures Fill(idx + [x], bits) == Fill(idx[PerWord(bits)..] + [x], bits)
    ensures PackWords(idx, bits) == [FieldsValue(idx[..PerWord(bits)], bits)] + PackWords(idx[PerWord(bits)..], bits)
    ensures PackWords(idx + [x], bits) == [FieldsValue(idx[..PerWord(bits)], bits)] + PackWords(idx[PerWord(bits)..] + [x], bits)
    ensures AddToLast(PackWords(idx, bits), v) ==
              [FieldsValue(idx[..PerWord(bits)], bits)] + AddToLast(PackWords(idx[PerWord(bits)..], bits), v)
  {
    var k := PerWord(bits);
    var s := idx + [x];
    PackWordsFront(idx, bits);
    PackWordsFront(s, bits);
    assert s[..k] == idx[..k];
    assert s[k..] == idx[k..] + [x];
    AddToLastCons(FieldsValue(idx[..k], bits), PackWords(idx[k..], bits), v);
  }

  /** A packing longer than one word: its first word, then the rest's packing. */
  lemma PackWordsFront(idx: seq<nat>, bits: nat)
    requires MIN_BITS <= bits <= WORD_BITS && |idx| > PerWord(bits)
    ensures Fill(idx, bits) == Fill(idx[PerWord(bits)..], bits)
    ensures PackWords(idx, bits) == [FieldsValue(idx[..PerWord(bits)], bits)] + PackWords(idx[PerWord(bits)..], bits)
  {
  }

  /** The words with `v` added to the last. */
  function AddToLast(w: seq<nat>, v: nat): seq<nat>
    requires |w| >= 1
  {
    if |w| == 1 then [w[0] + v] else [w[0]] + AddToLast(w[1..], v)
  }

  /** Adding to the last word changes that word only. */
  lemma {:induction false} AddToLastSnoc(ws: seq<nat>, cur: nat, v: nat)
    ensures AddToLast(ws + [cur], v) == ws + [cur + v]
  {
    if ws != [] {
      assert (ws + [cur])[1..] == ws[1..] + [cur];
      AddToLastSnoc(ws[1..], cur, v);
      assert ws == [ws[0]] + ws[1..];
    }
  }

  lemma AddToLastOne(a: nat, v: nat)
    ensures AddToLast([a], v) == [a + v]
  {
  }

  lemma AddToLastCons(a: nat, w: seq<nat>, v: nat)
    requires |w| >= 1
    ensures AddToLast([a] + w, v) == [a] + AddToLast(w, v)
  {
    assert ([a] + w)[1..] == w;
  }

  /** Or-ing an index of width `bits` above `len` bits keeps the word below 2^(len + bits). */
  lemma AppendBound(x: nat, cur: nat, len: nat, bits: nat)
    requires x < Pow2(bits) && cur < Pow2(len)
    ensures Shl(x, len) + cur < Pow2(len + bits)
  {
    FieldStepBound(cur, x, bits, len);
  }

  /** `(a << length) | b`. */
  function BinAppend(a: nat, b: nat, length: nat): (r: nat)
    ensures b < Pow2(length) ==> r == Shl(a, length) + b
  {
    BitOrDisjointIf(a, length, b);
    BitOr(Shl(a, length), b)
  }

  lemma BitOrDisjointIf(a: nat, l: nat, b: nat)
    ensures b < Pow2(l) ==> BitOr(Shl(a, l), b) == Shl(a, l) + b
  {
    if b < Pow2(l) {
      ShlIsMul(a, l);
      BitOrDisjoint(a, l, b);
    }
  }

  /** `(a << l) | b` with a wide `b` is not an addition: 1 | 1 is 1. */
  lemma BinAppendOverlaps()
    ensures BinAppend(0, 1, 0) == 1 && BinAppend(1, 1, 0) == 1
  {
  }

  /** The packing loop of `blockstates`, for a given list of palette blocks. */
  method PackIndices(blocks: seq<Block>, palette: seq<Block>) returns (r: Result<seq<nat>>)
    requires |palette| <= Pow2(WORD_BITS)
    ensures r.Ok? <==> Indices(blocks, palette, |blocks|).Ok?
    ensures r.Ok? ==> r.value == PackWords(Indices(blocks, palette, |blocks|).value, Bits(|palette|))
    ensures r.Ok? ==> forall j :: 0 <= j < |r.value| ==> r.value[j] < Pow2(WORD_BITS)
  {
    var bits := Bits(|palette|);
    var states: seq<nat> := [];
    var current: nat := 0;
    var currentLen: nat := 0;
    ghost var idx: seq<nat> := [];
    var i := 0;
    while i < |blocks|
      invariant 0 <= i <= |blocks|
      invariant Indices(blocks, palette, i) == Ok(idx)
      invariant Fits(idx, bits)
      invariant PackWords(idx, bits) == states + [current]
      invariant currentLen == Times(bits, Fill(idx, bits))
      invariant current < Pow2(currentLen)
    {
      var ok;
      ok, states, current, currentLen, idx := PackStep(blocks, palette, bits, i, states, current, currentLen, idx);
      if !ok {
        return Err(ValueError);
      }
      i := i + 1;
    }
    PackWordsAllFit(idx, bits);
    r := Ok(states + [current]);
  }

  /** One turn of the packing loop: look the block up in the palette and
      pack its index. */
  method PackStep(blocks: seq<Block>, palette: seq<Block>, bits: nat, i: nat,
                  states: seq<nat>, current: nat, currentLen: nat, ghost idx: seq<nat>)
    returns (ok: bool, states': seq<nat>, current': nat, currentLen': nat, ghost idx': seq<nat>)
    requires |palette| <= Pow2(bits) && MIN_BITS <= bits <= WORD_BITS && i < |blocks|
    requires Indices(blocks, palette, i) == Ok(idx) && Fits(idx, bits)
    requires PackWords(idx, bits) == states + [current]
    requires currentLen == Times(bits, Fill(idx, bits)) && current < Pow2(currentLen)
    ensures !ok ==> Indices(blocks, palette, |blocks|).Err?
    ensures ok ==> Indices(blocks, palette, i + 1) == Ok(idx') && Fits(idx', bits)
    ensures ok ==> PackWords(idx', bits) == states' + [current']
    ensures ok ==> currentLen' == Times(bits, Fill(idx', bits)) && current' < Pow2(currentLen')
  {
    var index := IndexOf(palette, blocks[i]);
    IndicesStep(blocks, palette, i, idx);
    if index.Err? {
      return false, states, current, currentLen, idx;
    }
    var x := index.value;
    ok, idx' := true, idx + [x];
    states', current', currentLen' := PushIndex(bits, states, current, currentLen, idx, x);
  }

  /** One turn of the packing loop: a full word is closed first, then the
      index is or-ed in above the bits already taken. */
  method PushIndex(bits: nat, states: seq<nat>, current: nat, currentLen: nat, ghost idx: seq<nat>, x: nat)
    returns (states': seq<nat>, current': nat, currentLen': nat)
    requires MIN_BITS <= bits <= WORD_BITS && x < Pow2(bits)
    requires PackWords(idx, bits) == states + [current]
    requires currentLen == Times(bits, Fill(idx, bits)) && current < Pow2(currentLen)
    ensures PackWords(idx + [x], bits) == states' + [current']
    ensures currentLen' == Times(bits, Fill(idx + [x], bits)) && current' < Pow2(currentLen')
  {
    PackPush(bits, states, current, currentLen, idx, x);
    states', current', currentLen' := states, current, currentLen;
    if currentLen' + bits > WORD_BITS {
      states' := states' + [current'];
      current' := 0;
      currentLen' := 0;
    }
    current' := BinAppend(x, current', currentLen');
    currentLen' := currentLen' + bits;
  }

  /** The packing after one more index: a new word `x` when the last word
      has no room for it, otherwise `x << currentLen` added to the last word. */
  lemma PackPush(bits: nat, states: seq<nat>, current: nat, currentLen: nat, idx: seq<nat>, x: nat)
    requires MIN_BITS <= bits <= WORD_BITS && x < Pow2(bits)
    requires PackWords(idx, bits) == states + [current]
    requires currentLen == Times(bits, Fill(idx, bits)) && current < Pow2(currentLen)
    ensures currentLen + bits > WORD_BITS ==>
              PackWords(idx + [x], bits) == (states + [current]) + [x] && Times(bits, Fill(idx + [x], bits)) == bits
    ensures currentLen + bits <= WORD_BITS ==>
              PackWords(idx + [x], bits) == states + [Shl(x, currentLen) + current] &&
              Times(bits, Fill(idx + [x], bits)) == currentLen + bits &&
              Shl(x, currentLen) + current < Pow2(currentLen + bits)
  {
    PackAppend(idx, x, bits);
    SlotRoom(bits, Fill(idx, bits), currentLen);
    if currentLen + bits <= WORD_BITS {
      AppendBound(x, current, currentLen, bits);
      AddToLastSnoc(states, current, Shl(x, currentLen));
    }
  }

  /** The index of the next block extends the indices of the prefix, or,
      missing, makes the whole section's indices fail. */
  lemma IndicesStep(blocks: seq<Block>, palette: seq<Block>, i: nat, idx: seq<nat>)
    requires i < |blocks| && Indices(blocks, palette, i) == Ok(idx)
    ensures IndexOf(palette, blocks[i]).Err? ==> Indices(blocks, palette, |blocks|).Err?
    ensures IndexOf(palette, blocks[i]).Ok? ==>
              Indices(blocks, palette, i + 1) == Ok(idx + [IndexOf(palette, blocks[i]).value])
  {
    if IndexOf(palette, blocks[i]).Err? {
      IndicesErrorPersists(blocks, palette, i + 1, |blocks|);
    }
  }

  lemma PackWordsAllFit(idx: seq<nat>, bits: nat)
    requires MIN_BITS <= bits <= WORD_BITS && Fits(idx, bits)
    ensures forall j :: 0 <= j < |PackWords(idx, bits)| ==> PackWords(idx, bits)[j] < Pow2(WORD_BITS)
  {
    forall j | 0 <= j < |PackWords(idx, bits)| ensures PackWords(idx, bits)[j] < Pow2(WORD_BITS) {
      PackWordsFit(idx, bits, j);
    }
  }

  lemma EntryBlocksOfPalette(ps: seq<Block>)
    requires forall i :: 0 <= i < |ps| ==> WellFormed(ps[i])
    ensures EntryBlocks(Compounds(ps)) == Ok(ps)
  {
    var rs := EntryResults(Compounds(ps));
    forall i | 0 <= i < |ps| ensures rs[i] == Ok(ps[i]) {
      FromEntryOfWellFormed(ps[i]);
    }
    CollectAllOk(rs, ps);
  }

  /** The compound tags of a list of blocks, in order. */
  function Compounds(ps: seq<Block>): (r: seq<Tag>)
    ensures |r| == |ps| && forall i :: 0 <= i < |ps| ==> r[i] == ps[i].compound
  {
    seq(|ps|, i requires 0 <= i < |ps| => ps[i].compound)
  }

  /** `[block.compound for block in palette]`. */
  method CompoundList(palette: seq<Block>) returns (tags: seq<Tag>)
    ensures tags == Compounds(palette)
  {
    tags := [];
    for i := 0 to |palette|
      invariant tags == Compounds(palette[..i])
    {
      assert palette[..i + 1] == palette[..i] + [palette[i]];
      CompoundsSnoc(palette[..i], palette[i]);
      tags := tags + [palette[i].compound];
    }
    assert palette[..|palette|] == palette;
  }

  lemma CompoundsSnoc(ps: seq<Block>, b: Block)
    ensures Compounds(ps + [b]) == Compounds(ps) + [b.compound]
  {
    assert forall i :: 0 <= i < |ps| ==> (ps + [b])[i] == ps[i];
  }

  /** The `palette` list tag of a section with these blocks. */
  function PaletteTag(blocks: seq<Block>): (t: Tag)
    ensures t.name == "palette" && t.payload.List?
    ensures t.payload.items == Compounds(PaletteBlocks(blocks))
  {
    Tag("palette", List(Compounds(PaletteBlocks(blocks))))
  }

  /** The `data` words `get_nbt` writes for 4096 blocks: their indices in
      the new palette, packed. */
  function WrittenWords(blocks: seq<Block>): seq<nat>
    requires |blocks| == SECTION_VOLUME
  {
    var p := PaletteBlocks(blocks);
    PaletteSize(blocks);
    PaletteCovers(blocks);
    IndicesOk(blocks, p, |blocks|);
    PackWords(Indices(blocks, p, |blocks|).value, Bits(|p|))
  }

  /** The section tag `get_nbt` builds: Y, the old biomes, and `block_states`
      with the palette, plus the `data` words when the palette has more than
      one entry. */
  function SectionTag(ylevel: int, biomes: Tag, palette: Tag, words: seq<nat>): Tag
  {
    var data := if palette.payload.List? && |palette.payload.items| > 1 then [Tag("data", LongArray(words))] else [];
    Tag("", Compound([Tag("Y", Byte(ylevel)), biomes, Tag("block_states", Compound([palette] + data))]))
  }

  class Section {
    var ylevel: int
    var nbtSection: Tag
    var blocks: seq<Block>
    const air: Block

    /** Every section holds 4096 blocks, each of which its compound describes. */
    ghost predicate Valid()
      reads this
    {
      |blocks| == SECTION_VOLUME && forall i :: 0 <= i < |blocks| ==> WellFormed(blocks[i])
    }

    constructor Empty(ylevel: int, nbtSection: Tag)
      ensures this.ylevel == ylevel && this.nbtSection == nbtSection && blocks == [] && air == Air()
    {
      this.ylevel := ylevel;
      this.nbtSection := nbtSection;
      this.blocks := [];
      this.air := Air();
    }

    /** `Section(ylevel, nbt_section)`: stores the tag and reads its blocks;
        the errors of `read_blocks` escape the constructor. */
    static method Create(ylevel: int, nbtSection: Tag) returns (r: Result<Section>)
      requires PaletteFits(nbtSection)
      ensures r.Ok? <==> SectionBlocks(nbtSection).Ok?
      ensures r.Err? ==> r.error == SectionBlocks(nbtSection).error
      ensures r.Ok? ==> fresh(r.value) && r.value.Valid() && r.value.ylevel == ylevel &&
                        r.value.nbtSection == nbtSection && r.value.blocks == SectionBlocks(nbtSection).value
    {
      var s := new Section.Empty(ylevel, nbtSection);
      var ok := s.ReadBlocks();
      if ok.Err? { return Err(ok.error); }
      r := Ok(s);
    }

    /** `read_blocks`: replaces the blocks by those the section tag
        describes; when it raises inside the loop, the blocks decoded so far
        remain. */
    method ReadBlocks() returns (r: Result<()>)
      requires PaletteFits(nbtSection)
      modifies this
      ensures ylevel == old(ylevel) && nbtSection == old(nbtSection)
      ensures r.Ok? <==> SectionBlocks(nbtSection).Ok?
      ensures r.Err? ==> r.error == SectionBlocks(nbtSection).error &&
                         blocks == (if BlocksLeft(nbtSection).Some? then BlocksLeft(nbtSection).value else old(blocks))
      ensures r.Ok? ==> blocks == SectionBlocks(nbtSection).value && Valid()
    {
      var decoded, left := DecodeBlocks(nbtSection);
      if left.Some? { blocks := left.value; }
      if decoded.Err? { return Err(decoded.error); }
      r := Ok(());
    }

    /** `get_block(index)`, Python indexing (a block is always truthy, so the
        air fallback never applies). */
    function GetBlock(index: int): (r: Result<Block>)
      reads this
      ensures Valid() && 0 <= index < SECTION_VOLUME ==> r == Ok(blocks[index])
      ensures Valid() && -4096 <= index < 0 ==> r == Ok(blocks[4096 + index])
      ensures Valid() ==> (r.Err? <==> !(-4096 <= index < 4096))
    {
      PyIndex(blocks, index)
    }

    /** `set_block(block, index)`. */
    method SetBlock(block: Block, index: int) returns (r: Result<()>)
      modifies this
      ensures r.Ok? <==> -|old(blocks)| <= index < |old(blocks)|
      ensures r.Ok? ==> blocks == old(blocks)[Normalize(index, |old(blocks)|) := block]
      ensures r.Err? ==> r.error == IndexError && blocks == old(blocks)
      ensures ylevel == old(ylevel) && nbtSection == old(nbtSection)
      ensures old(Valid()) && WellFormed(block) ==> Valid()
    {
      if !(-|blocks| <= index < |blocks|) { return Err(IndexError); }
      blocks := blocks[Normalize(index, |blocks|) := block];
      r := Ok(());
    }

    /** `get_palette`: the list tag of one compound per kind of block, by repr. */
    method GetPalette() returns (p: Tag)
      ensures p == PaletteTag(blocks)
    {
      var tags := CompoundList(PaletteBlocks(blocks));
      p := Tag("palette", List(tags));
    }

    /** `blockstates(nbt_palette)`: each block's index in the palette, packed. */
    method Blockstates(nbtPalette: Tag) returns (r: Result<seq<nat>>)
      requires nbtPalette.payload.List? ==> |nbtPalette.payload.items| <= Pow2(WORD_BITS)
      ensures r == BlockstatesOf(blocks, nbtPalette)
      ensures r.Ok? ==> forall j :: 0 <= j < |r.value| ==> r.value[j] < Pow2(WORD_BITS)
    {
      var entries := Items(nbtPalette);
      if entries.Err? { return Err(entries.error); }
      var palette := EntryBlocks(entries.value);
      if palette.Err? { return Err(palette.error); }
      r := PackIndices(blocks, palette.value);
      if r.Err? {
        r := Err(ValueError);
        IndicesErrorIsValueError(blocks, palette.value, |blocks|);
      }
    }

    /** `get_nbt`: the section tag with a fresh palette and fresh words, or
        `KeyError` when the stored tag has no biomes. */
    method GetNbt() returns (r: Result<Tag>)
      requires Valid()
      ensures r.Ok? <==> Has(nbtSection, "biomes")
      ensures r.Ok? ==> r.value == SectionTag(ylevel, Get(nbtSection, "biomes").value, PaletteTag(blocks), WrittenWords(blocks))
    {
      var biomes := Get(nbtSection, "biomes");
      if biomes.Err? { return Err(biomes.error); }
      var newPalette := GetPalette();
      PaletteWellFormed(blocks);
      var newData := Blockstates(newPalette);
      assert newData.Ok?;
      r := Ok(SectionTag(ylevel, biomes.value, newPalette, newData.value));
    }
  }

  /** The only error `palette.index` raises is `ValueError`. */
  lemma {:induction false} IndicesErrorIsValueError(blocks: seq<Block>, palette: seq<Block>, n: nat)
    requires n <= |blocks| && Indices(blocks, palette, n).Err?
    ensures Indices(blocks, palette, n) == Err(ValueError)
  {
    if Indices(blocks, palette, n - 1).Err? {
      IndicesErrorIsValueError(blocks, palette, n - 1);
    }
  }

  /** The palette of a valid section is no longer than the section, its
      entries are well formed, and rereading its compounds gives it back, so
      every block has an index and `blockstates` cannot fail. */
  lemma PaletteWellFormed(blocks: seq<Block>)
    requires |blocks| == SECTION_VOLUME && forall i :: 0 <= i < |blocks| ==> WellFormed(blocks[i])
    ensures 1 <= |PaletteBlocks(blocks)| <= SECTION_VOLUME && |PaletteBlocks(blocks)| <= Pow2(WORD_BITS)
    ensures EntryBlocks(Compounds(PaletteBlocks(blocks))) == Ok(PaletteBlocks(blocks))
    ensures Indices(blocks, PaletteBlocks(blocks), |blocks|).Ok?
    ensures BlockstatesOf(blocks, PaletteTag(blocks)) == Ok(WrittenWords(blocks))
  {
    var p := PaletteBlocks(blocks);
    PaletteSize(blocks);
    PaletteEntriesWellFormed(blocks);
    EntryBlocksOfPalette(p);
    PaletteCovers(blocks);
    IndicesOk(blocks, p, |blocks|);
  }

  /** A section's palette has between one and 4096 entries. */
  lemma PaletteSize(blocks: seq<Block>)
    requires |blocks| == SECTION_VOLUME
    ensures 1 <= |PaletteBlocks(blocks)| <= SECTION_VOLUME && |PaletteBlocks(blocks)| <= Pow2(WORD_BITS)
  {
    VolumeFitsWord();
    PaletteNoLonger(blocks);
    PaletteCovers(blocks);
    assert HasSame(PaletteBlocks(blocks), blocks[0]);
  }

  /** 4096 indices need no more than 64 bits each. */
  lemma VolumeFitsWord()
    ensures SECTION_VOLUME <= Pow2(WORD_BITS)
  {
    Pow2Monotone(12, WORD_BITS);
    Pow2Twelve();
  }

  lemma Pow2Twelve()
    ensures Pow2(12) == SECTION_VOLUME
  {
  }

  /** The entries of a valid section's palette are well formed. */
  lemma PaletteEntriesWellFormed(blocks: seq<Block>)
    requires forall i :: 0 <= i < |blocks| ==> WellFormed(blocks[i])
    ensures forall j :: 0 <= j < |PaletteBlocks(blocks)| ==> WellFormed(PaletteBlocks(blocks)[j])
  {
    var p := PaletteBlocks(blocks);
    PaletteFromBlocks(blocks);
    forall j | 0 <= j < |p| ensures WellFormed(p[j]) {
      var k :| 0 <= k < |blocks| && blocks[k] == p[j];
    }
  }

  /** A palette has at most one entry per block. */
  lemma PaletteNoLonger(blocks: seq<Block>)
    ensures |PaletteBlocks(blocks)| <= |blocks|
  {
    DedupNoLonger(blocks);
    assert |multiset(PaletteBlocks(blocks))| == |multiset(Dedup(blocks))|;
  }

  lemma {:induction false} DedupNoLonger(s: seq<Block>)
    ensures |Dedup(s)| <= |s|
  {
    if s != [] {
      DedupNoLonger(s[..|s| - 1]);
    }
  }

  /** Writing a valid section and reading the tag back gives, position for
      position, a block equal to the one written. */
  lemma SectionRoundTrip(ylevel: int, biomes: Tag, blocks: seq<Block>)
    requires biomes.name == "biomes"
    requires |blocks| == SECTION_VOLUME && forall i :: 0 <= i < |blocks| ==> WellFormed(blocks[i])
    ensures var t := SectionTag(ylevel, biomes, PaletteTag(blocks), WrittenWords(blocks));
            PaletteFits(t) && SectionBlocks(t).Ok? &&
            forall i :: 0 <= i < SECTION_VOLUME ==> Same(SectionBlocks(t).value[i], blocks[i])
  {
    var p := PaletteBlocks(blocks);
    PaletteSize(blocks);
    SectionTagBlocks(ylevel, biomes, PaletteTag(blocks), WrittenWords(blocks));
    if |p| == 1 {
      OneEntryRoundTrip(blocks);
    } else {
      PaletteEntriesWellFormed(blocks);
      ManyEntriesRoundTrip(blocks);
    }
  }

  /** What `read_blocks` reads from a section tag built by `get_nbt`: the
      one entry everywhere, or the words unpacked against the entries. */
  lemma SectionTagBlocks(ylevel: int, biomes: Tag, palette: Tag, words: seq<nat>)
    requires biomes.name == "biomes" && palette.name == "palette" && palette.payload.List?
    requires |palette.payload.items| <= Pow2(WORD_BITS)
    ensures var t := SectionTag(ylevel, biomes, palette, words);
            var items := palette.payload.items;
            PaletteFits(t) &&
            (|items| == 1 && FromEntry(items[0]).Ok? ==>
               SectionBlocks(t) == Ok(seq(SECTION_VOLUME, _ => FromEntry(items[0]).value))) &&
            (|items| > 1 ==> SectionBlocks(t) == Unpack(EntryResults(items), words, Bits(|items|), SECTION_VOLUME))
  {
    SectionTagLookups(ylevel, biomes, palette, words);
    var t, items := SectionTag(ylevel, biomes, palette, words), palette.payload.items;
    assert PaletteFits(t);
    if |items| == 1 && FromEntry(items[0]).Ok? {
      SectionTagOne(ylevel, biomes, palette, words);
    } else if |items| > 1 {
      SectionTagMany(ylevel, biomes, palette, words);
    }
  }

  lemma SectionTagOne(ylevel: int, biomes: Tag, palette: Tag, words: seq<nat>)
    requires biomes.name == "biomes" && palette.name == "palette" && palette.payload.List?
    requires |palette.payload.items| == 1 && FromEntry(palette.payload.items[0]).Ok?
    requires PaletteFits(SectionTag(ylevel, biomes, palette, words))
    ensures SectionBlocks(SectionTag(ylevel, biomes, palette, words)) ==
            Ok(seq(SECTION_VOLUME, _ => FromEntry(palette.payload.items[0]).value))
  {
    SectionTagLookups(ylevel, biomes, palette, words);
  }

  lemma SectionTagMany(ylevel: int, biomes: Tag, palette: Tag, words: seq<nat>)
    requires biomes.name == "biomes" && palette.name == "palette" && palette.payload.List?
    requires 1 < |palette.payload.items| <= Pow2(WORD_BITS)
    requires PaletteFits(SectionTag(ylevel, biomes, palette, words))
    ensures var items := palette.payload.items;
            SectionBlocks(SectionTag(ylevel, biomes, palette, words)) ==
            Unpack(EntryResults(items), words, Bits(|items|), SECTION_VOLUME)
  {
    SectionTagLookups(ylevel, biomes, palette, words);
  }

  /** The lookups `read_blocks` makes find what `get_nbt` put there. */
  lemma SectionTagLookups(ylevel: int, biomes: Tag, palette: Tag, words: seq<nat>)
    requires biomes.name == "biomes" && palette.name == "palette"
    ensures var t := SectionTag(ylevel, biomes, palette, words);
            var many := palette.payload.List? && |palette.payload.items| > 1;
            var st := Tag("block_states", Compound([palette] + if many then [Tag("data", LongArray(words))] else []));
            Get(t, "block_states") == Ok(st) && Get(st, "palette") == Ok(palette) &&
            (many ==> Get(st, "data") == Ok(Tag("data", LongArray(words))))
  {
    var t := SectionTag(ylevel, biomes, palette, words);
    var many := palette.payload.List? && |palette.payload.items| > 1;
    var st := Tag("block_states", Compound([palette] + if many then [Tag("data", LongArray(words))] else []));
    assert t.payload.tags[2] == st;
    assert FirstIndex(t.payload.tags, "block_states") == 2;
    if many {
      assert st.payload.tags[1].name == "data";
    }
  }

  /** A one-entry palette reads back as its entry, which equals every block. */
  lemma OneEntryRoundTrip(blocks: seq<Block>)
    requires |blocks| == SECTION_VOLUME && forall i :: 0 <= i < |blocks| ==> WellFormed(blocks[i])
    requires |PaletteBlocks(blocks)| == 1
    ensures FromEntry(PaletteBlocks(blocks)[0].compound) == Ok(PaletteBlocks(blocks)[0])
    ensures forall i :: 0 <= i < SECTION_VOLUME ==> Same(PaletteBlocks(blocks)[0], blocks[i])
  {
    PaletteEntriesWellFormed(blocks);
    FromEntryOfWellFormed(PaletteBlocks(blocks)[0]);
    OneEntryCovers(blocks);
  }

  lemma OneEntryCovers(blocks: seq<Block>)
    requires |PaletteBlocks(blocks)| == 1
    ensures forall i :: 0 <= i < |blocks| ==> Same(PaletteBlocks(blocks)[0], blocks[i])
  {
    var p := PaletteBlocks(blocks);
    PaletteCovers(blocks);
    forall i | 0 <= i < |blocks| ensures Same(p[0], blocks[i]) {
      HasSameOne(p, blocks[i]);
    }
  }

  /** In a one-entry palette, the equal entry is the first. */
  lemma HasSameOne(p: seq<Block>, b: Block)
    requires |p| == 1 && HasSame(p, b)
    ensures Same(p[0], b)
  {
    var k :| 0 <= k < |p| && Same(p[k], b);
    assert k == 0;
  }

  /** The written indices exist and fit their width. */
  lemma WrittenIndicesFit(blocks: seq<Block>)
    requires |blocks| == SECTION_VOLUME
    ensures Indices(blocks, PaletteBlocks(blocks), |blocks|).Ok?
    ensures Bits(|PaletteBlocks(blocks)|) <= WORD_BITS
    ensures Fits(Indices(blocks, PaletteBlocks(blocks), |blocks|).value, Bits(|PaletteBlocks(blocks)|))
    ensures WrittenWords(blocks) == PackWords(Indices(blocks, PaletteBlocks(blocks), |blocks|).value, Bits(|PaletteBlocks(blocks)|))
  {
    var p := PaletteBlocks(blocks);
    PaletteSize(blocks);
    PaletteCovers(blocks);
    IndicesOk(blocks, p, |blocks|);
    var idx := Indices(blocks, p, |blocks|).value;
    forall i | 0 <= i < |idx| ensures idx[i] < Pow2(Bits(|p|)) {
      assert IndexOf(p, blocks[i]) == Ok(idx[i]);
    }
  }

  /** Position i of the written words decodes to the palette entry at the
      block's index, which equals the block. */
  lemma DecodeWrittenAt(blocks: seq<Block>, i: nat)
    requires |blocks| == SECTION_VOLUME && 1 < |PaletteBlocks(blocks)| && i < SECTION_VOLUME
    requires forall j :: 0 <= j < |PaletteBlocks(blocks)| ==> WellFormed(PaletteBlocks(blocks)[j])
    ensures Bits(|PaletteBlocks(blocks)|) <= WORD_BITS
    ensures var d := DecodeEntry(EntryResults(Compounds(PaletteBlocks(blocks))), WrittenWords(blocks), Bits(|PaletteBlocks(blocks)|), i);
            d.Ok? && Same(d.value, blocks[i])
  {
    var p := PaletteBlocks(blocks);
    WrittenIndicesFit(blocks);
    var idx := Indices(blocks, p, |blocks|).value;
    var bits := Bits(|p|);
    PackRoundTrip(idx, bits, i);
    DecodeEntryIndexAt(EntryResults(Compounds(p)), WrittenWords(blocks), bits, i);
    assert IndexOf(p, blocks[i]) == Ok(idx[i]);
    FromEntryOfWellFormed(p[idx[i]]);
  }

  /** With several palette entries, the written words unpack, position for
      position, to blocks equal to those written. */
  lemma ManyEntriesRoundTrip(blocks: seq<Block>)
    requires |blocks| == SECTION_VOLUME && |PaletteBlocks(blocks)| > 1
    requires forall j :: 0 <= j < |PaletteBlocks(blocks)| ==> WellFormed(PaletteBlocks(blocks)[j])
    ensures Bits(|PaletteBlocks(blocks)|) <= WORD_BITS
    ensures var p := PaletteBlocks(blocks);
            var u := Unpack(EntryResults(Compounds(p)), WrittenWords(blocks), Bits(|p|), SECTION_VOLUME);
            u.Ok? && forall i :: 0 <= i < SECTION_VOLUME ==> Same(u.value[i], blocks[i])
  {
    var p := PaletteBlocks(blocks);
    WrittenIndicesFit(blocks);
    var bits := Bits(|p|);
    var words := WrittenWords(blocks);
    var entries := EntryResults(Compounds(p));
    forall i | 0 <= i < SECTION_VOLUME
      ensures DecodeEntry(entries, words, bits, i).Ok? && Same(DecodeEntry(entries, words, bits, i).value, blocks[i])
    {
      DecodeWrittenAt(blocks, i);
    }
    UnpackAllSame(entries, words, bits, blocks);
  }

  /** When every position decodes to a block equal to the one given, the
      whole section unpacks to blocks equal to those given. */
  lemma UnpackAllSame(entries: seq<Result<Block>>, words: seq<nat>, bits: nat, blocks: seq<Block>)
    requires MIN_BITS <= bits <= WORD_BITS && |blocks| == SECTION_VOLUME
    requires forall i :: 0 <= i < SECTION_VOLUME ==>
               DecodeEntry(entries, words, bits, i).Ok? && Same(DecodeEntry(entries, words, bits, i).value, blocks[i])
    ensures var u := Unpack(entries, words, bits, SECTION_VOLUME);
            u.Ok? && forall i :: 0 <= i < SECTION_VOLUME ==> Same(u.value[i], blocks[i])
  {
    UnpackAllOk(entries, words, bits, SECTION_VOLUME);
    UnpackElements(entries, words, bits, SECTION_VOLUME);
  }

  /** Setting a position and reading it back gives the block set; other
      positions keep their blocks. */
  lemma SetThenGet(s: seq<Block>, index: int, b: Block, other: int)
    requires -|s| <= index < |s| && -|s| <= other < |s|
    ensures PyIndex(s[Normalize(index, |s|) := b], index) == Ok(b)
    ensures Normalize(other, |s|) != Normalize(index, |s|) ==>
              PyIndex(s[Normalize(index, |s|) := b], other) == PyIndex(s, other)
  {
  }
}
