# PyBlock in Dafny

A model of the core of PyBlock, a Python library that reads and edits the
saved worlds of a voxel game. A world is stored as *region* files. A region
file holds 32 x 32 *chunks*. A chunk holds vertical *sections* of 16 x 16 x 16
*blocks*, and each section stores its blocks as a *palette* plus packed
64-bit index words. The model covers:

- `Blocks`, `Tags` (block.dfy, tags.dfy): the block value type, namespaced
  id plus an ordered property dictionary, with its order-blind equality and
  hash. Also its conversion to and from the tag compound a palette holds.
  The named binary tag tree is a plain datatype.
- `Packing`, `Palettes`, `Sections` (packing.dfy, palette.dfy, section.dfy):
  the section codec. It decodes the 4096 blocks from a palette and packed
  words, and it rebuilds the palette (distinct blocks ordered by `repr`) and
  the words from the blocks. It is proved to round-trip.
- `Regions` (region.dfy): the region file. Header entries, payload framing
  and slicing, `get_chunk`, and the one-pass rebuild of a whole file by
  `write`, with its sector cursor and 4096-byte alignment.
- `Tools`, `Converter` (tools.dfy, converter.dfy): the floored coordinate
  maps between blocks, chunks and regions, including `block_to_id_index`.
- `Editing` and the `Editor*` modules (editor*.dfy): the world editor.
  - pending writes keyed by section;
  - the chunk and section read caches;
  - maze and piece placement;
  - `list_blocks`, `find_blocks`;
  - `copy_blocks`, with the re-homing of block entities;
  - `done`, the two-phase flush in which the last write to a block wins.
  The saved world is a parameter. What `done` writes is returned as the
  region writes it issues.
- `EmptyChunks` (empty_chunk.dfy): the from-scratch chunk builder and its
  padded byte framing.
- `Mca` and `LegacyChunks` (parsemca.dfy, chunk.dfy): the older region parser
  and its chunk object with the area filter.
- `Mazes` (maze.dfy): the maze grid and its probe.
- `McMain` (mcmain.dfy): the search-area helpers `get_area` and `get_regions`.
- `Mapper` (mapper.dfy): the per-level colour buffer.

Code that works by changing state is modelled as classes:
- `Sections.Section`, `Regions.Region` (a value with member functions),
  `Editing.Editor`, `EmptyChunks.EmptyChunk`, `Mca.MCA`,
  `LegacyChunks.Chunk`, `Mazes.Maze`, `Mapper.PyLevel`, `Mapper.PyMap`.
- Their methods carry loops with invariants.
- Each method is proved against a specification function, and the lemmas
  about that function state what the source promises.

Python's floored `//` and `%` agree with Dafny's `/` and `%` for the
positive divisors used. Negative Python list indices are modelled explicitly
(`Common.PyIndex`).

`block_to_id_index` is not defined in pyblock/tools.py. The editor unpacks
it as a flat 4-tuple at every call site (pyblock/editor.py:85). Its test
expects a nested pair (tests/test_tools.py:27-29). The model follows the
editor; see Findings.

`pyblock.Chunk` is the class of pyblock/chunk.py (pyblock/__init__.py:7),
modelled as `LegacyChunks.Chunk`. Its constructor takes `offset`, `area` and
`verbose` (pyblock/chunk.py:16), and it has no `get_section`, `set_section`
or `get_bytes`. So `pyblock.Chunk(nbt_data)` in `read_chunk` and `get_chunk`
(pyblock/region.py:78, 89) raises `TypeError` for every chunk that exists,
and the editor's calls of those three methods (pyblock/editor.py:142, 652,
655) have nothing to call. The model assumes the chunk type these call sites
evidently expect: it wraps the chunk's tag, reads a section's blocks from it
and replaces a section in it. See Findings and "Left out".

Proof effort is bounded by the solver's resource count, not by time, so
the project is verified with all files in one command:
`dafny verify --resource-limit 2000000 --verification-time-limit 0 *.dfy`.

## Model

| member | source | states |
|---|---|---|
| Blocks.FromName | pyblock/block.py:48-62 | the id is `namespace + ":" + name` and the properties are kept; the compound holds a `Properties` compound (one string tag per property, in order) only when there are properties, then the `Name` string |
| Blocks.PropertyTags | pyblock/block.py:55-60 | one string tag per property, in insertion order, named by the key and holding the value |
| Blocks.PropertiesFromTags | pyblock/block.py:44-47 | reading the children of `Properties` succeeds exactly when every child is a string tag, and otherwise raises `TypeError`; on success the dict has a key exactly for each child's name, each key maps to the string of the last child of that name, and the keys come in the order their names first occur |
| Blocks.ReadAsStep | pyblock/block.py:44-47 | one more string child, inserted as the comprehension does, keeps the dict an exact reading of the children |
| Blocks.LaterPropertyWins | pyblock/block.py:44-47 | two children named `a` with values "x" then "y" give the dict `{a: "y"}` |
| Blocks.FromCompound | pyblock/block.py:39-47 | the compound is kept and the id is its `Name` string; without `Properties` the properties are empty; without `Name` it raises `KeyError` |
| Blocks.FromCompoundReads | pyblock/block.py:39-47 | with a `Properties` child, the properties are those `PropertiesFromTags` reads from it; reading a compound succeeds exactly when `Name` is a string and `Properties`, if present, is a compound of string tags |
| Blocks.New | pyblock/block.py:22-62 | a non-empty compound takes the compound path; otherwise (no compound or an empty, falsy one) it succeeds exactly when a name is given and builds from the name, with missing properties read as `{}` |
| Blocks.NewIsWellFormed | pyblock/block.py:22-62 | both construction paths give a well-formed block (its compound's `Name` is its id) |
| Blocks.CompoundRoundTrip | pyblock/block.py:39-62 | `Block(compound=Block(n, p).compound)` is `Block(n, p)`: same id, same properties in the same order, same compound |
| Blocks.PropertiesFromPropertyTags | pyblock/block.py:44-60 | the properties read back from the tags the name path builds are the properties given |
| Blocks.Insert | pyblock/block.py:60 | `d[k] = v` on an insertion-ordered dict: the map gains k with value v, an existing key keeps its place and a new key goes last |
| Blocks.Name | pyblock/block.py:64-68 | the name of a well-formed block is its compound's `Name` string |
| Blocks.Repr | pyblock/block.py:70-72 | the text is `Block(` then the id, then a space and the property dict, ending in `})`; with no properties it is `Block(<id> {})` |
| Blocks.Eq | pyblock/block.py:74-79 | false against a non-block; otherwise true exactly when the ids are equal and the property maps are equal |
| Blocks.EqualIgnoresOrder | pyblock/block.py:74-79 | two blocks of one name are equal exactly when their property dicts hold the same entries, whatever their insertion order |
| Blocks.SameIsEquivalence | pyblock/block.py:74-79 | block equality is reflexive, symmetric and transitive |
| Blocks.EqualBlocksHashEqually | pyblock/block.py:81-82 | equal blocks have equal hashes, for any string and frozen-dict hash functions |
| Tools.ChunkToBlock | pyblock/tools.py:21-31 | chunk (x, z) covers the inclusive block range starting at 16x and spanning 16 blocks, on each axis |
| Tools.ChunkToRegion | pyblock/tools.py:33-41 | `floor(16x / 512)` is the region whose 32 chunks hold x: 32r <= x < 32r + 32, per axis |
| Tools.BlockToRegion | pyblock/tools.py:43-49 | floored division by 512: 512r <= x < 512r + 512, per axis, negatives included |
| Tools.RegionToBlock | pyblock/tools.py:51-61 | region (x, z) covers the inclusive block range starting at 512x and spanning 512 blocks, on each axis |
| Tools.BlockToChunk | pyblock/tools.py:63-69 | floored division by 16: 16c <= x < 16c + 16, per axis |
| Tools.BlockToRegionChunk | pyblock/tools.py:71-81 | the chunk lies in [0, 31] and the block in [0, 15] on each axis, and 512 * region + 16 * chunk + block is the coordinate |
| Tools.AbsChunkToRegionChunk | pyblock/tools.py:84-93 | the chunk lies in [0, 31] and 32 * region + chunk is the absolute chunk coordinate, per axis |
| Tools.CombineDicts | pyblock/tools.py:96-108 | the keys are those of either dict; each key holds the sum of its values in both, a missing side counting 0 |
| Tools.ChunkRangeMatchesBlockToChunk | pyblock/tools.py:21-31 | a block lies in the range of chunk c exactly when `block_to_chunk` maps it to c |
| Tools.RegionRangeMatchesBlockToRegion | pyblock/tools.py:43-61 | a block lies in the range of region r exactly when `block_to_region` maps it to r |
| Tools.BlockToRegionViaChunk | pyblock/tools.py:33-69 | the region of a block's chunk is the block's region |
| Tools.ToolsExamples | tests/test_tools.py:5-19 | the values the tests pin for `block_to_region` and `block_to_chunk`, (-1, -1) included |
| Tools.BlockToIdIndex | pyblock/editor.py:85-87 | the region and chunk of the block, the level with 16 * level <= y < 16 * level + 16, and index (y mod 16) * 256 + (z mod 16) * 16 + x mod 16 in [0, 4096) |
| Tools.IdIndexOrigin | tests/test_tools.py:27-28 | (0, 0, 0) is region (0, 0), chunk (0, 0), level 0, index 0 |
| Tools.IdIndexTestValue | tests/test_tools.py:27-29 | (712, 70, 612) is region (1, 1), chunk (12, 6), level 4, index 1608 |
| Tools.YLevelExamples | tests/test_tools.py:21-25 | the level of y = -1 is -1, of -64 is -4, of 100 is 6 (the level part of `block_to_id_index`; tools.py has no `block_to_ylevel`) |
| Tools.BlockToIdIndexAsTested | tests/test_tools.py:27-29 | the nested pair the tests expect: the section id (region, chunk, level), then the index |
| Tools.UnpackFour | pyblock/editor.py:85-87 | unpacking into four names succeeds exactly on a tuple of four items |
| Tools.AsTestedOrigin | tests/test_tools.py:27-29 | the tested shape at (0, 0, 0) is the pair ((region (0, 0), chunk (0, 0), level 0), index 0) |
| Tools.AsTestedBreaksUnpacking | pyblock/editor.py:85-87 | the value the tests expect at (0, 0, 0) is a pair of two items, so the editor's four-name unpacking of it raises `ValueError` |
| Converter.BlockToChunk | pyblock/converter.py:21-25 | `floor(x / 16)` per axis: 16c <= x < 16c + 16 |
| Converter.ChunkToBlock | pyblock/converter.py:27-33 | the inclusive range from 16x spanning 16 blocks, per axis |
| Converter.RegionToBlock | pyblock/converter.py:35-41 | the inclusive range from 512x spanning 512 blocks, per axis |
| Converter.ChunkToRegion | pyblock/converter.py:43-47 | `floor(16x / 512)` per axis: 32r <= x < 32r + 32 |
| Converter.BlockToRegion | pyblock/converter.py:49-53 | `floor(x / 512)` per axis: 512r <= x < 512r + 512 |
| Converter.AgreesWithTools | pyblock/converter.py:21-53 | each converter helper gives the same result as its tools.py counterpart |
| Converter.NegativeExamples | pyblock/converter.py:21-53 | negatives floor: block -1 is chunk -1 and region -1, chunk -1 is region -1 |
| Packing.Bits | pyblock/section.py:75 | at least 4 bits, enough for every palette index, at most 64 for a palette of up to 2^64 entries; exactly 4 up to 16 entries, the bit length of the largest index beyond |
| Packing.PerWord | pyblock/section.py:93-101 | a word holds between 1 and 16 whole indices |
| Packing.PerWordBounds | pyblock/section.py:93-101 | the indices of a word fill it as far as one more index still fits in 64 bits |
| Packing.RoomInWord | pyblock/section.py:93-101 | with c indices already in a word, another one fits exactly when c is below the word's capacity: the refill test of `read_blocks` and the flush test of `blockstates` agree |
| Packing.FieldsValueField | pyblock/section.py:104-113 | shifting right by `bits * j` and masking with `2^bits - 1` extracts field j of a packed word |
| Packing.PackWords | pyblock/section.py:188-207 | the packing has at least one word (an empty section still appends its final word) |
| Packing.PackWordsChunks | pyblock/section.py:188-207 | the packing has `WordCount` words and word j packs the j-th group of `PerWord(bits)` indices |
| Packing.PackRoundTrip | pyblock/section.py:91-207 | unpacking what was packed gives every index back, from a word that exists |
| Packing.PackWordsUnique | pyblock/section.py:188-207 | any word list agreeing group by group is the packing |
| Packing.PackWordsFit | pyblock/section.py:181-206 | every packed word fits an unsigned 64-bit integer (the `"Q"` array) |
| Packing.SectionWordCounts | pyblock/section.py:75-78 | a 16-entry palette packs a section into 256 words of 16 four-bit indices; a 17-entry palette needs 5 bits, 12 per word, 342 words |
| Palettes.Dedup | pyblock/section.py:141 | `set(blocks)` keeps one representative of each kind of block, each one of the section's blocks |
| Palettes.DedupNoTwoSame | pyblock/section.py:141 | no two representatives are equal blocks |
| Palettes.DedupCovers | pyblock/section.py:141 | every block of the section equals some representative |
| Palettes.InsertByRepr | pyblock/section.py:142 | a stable insertion adds exactly one element (multiset) |
| Palettes.SortByRepr | pyblock/section.py:142 | the sort by repr is a permutation |
| Palettes.SortByReprSorted | pyblock/section.py:142 | the sort by repr gives a list ordered by repr |
| Palettes.SortByReprNoTwoSame | pyblock/section.py:141-142 | sorting keeps the palette free of equal pairs |
| Palettes.StrLtTransitive | pyblock/section.py:142 | the repr order (Python string comparison) is transitive |
| Palettes.StrLtTotal | pyblock/section.py:142 | the repr order is total |
| Palettes.PaletteProperties | pyblock/section.py:140-150 | the written palette is sorted by repr, has no two equal entries, covers every block of the section and holds only its blocks |
| Palettes.IndexOf | pyblock/section.py:191 | `palette.index(block)`: found exactly when an equal block is present, at the first such position; `ValueError` otherwise |
| Sections.FromEntry | pyblock/section.py:65 | `Block(compound=entry)` keeps the entry as its compound; a non-compound entry is a `TypeError` |
| Sections.FromEntryIsNew | pyblock/block.py:39-47 | reading a palette entry is the constructor called with only a compound |
| Sections.FromEntryOfWellFormed | pyblock/section.py:149-172 | a well-formed block's compound reads back as that block |
| Sections.EntryBlocks | pyblock/section.py:172 | the comprehension reads each entry in order, or fails |
| Sections.Unpack | pyblock/section.py:91-114 | an unpacked prefix has the requested length |
| Sections.UnpackElements | pyblock/section.py:91-114 | each decoded position holds the palette entry its index names |
| Sections.UnpackErrorPersists | pyblock/section.py:97-107 | the first failing position decides the error of the whole section |
| Sections.UnpackAllOk | pyblock/section.py:91-114 | when every position decodes, the section decodes |
| Sections.DecodeEntryIsEntry | pyblock/section.py:104-107 | every decoded block is one of the palette entries |
| Sections.UnpackWellFormed | pyblock/section.py:91-114 | blocks unpacked from well-formed entries are well formed |
| Sections.SectionBlocks | pyblock/section.py:55-114 | a section reads as 4096 well-formed blocks, or fails |
| Sections.DecodeBlocks | pyblock/section.py:55-114 | the lookups, the one-entry shortcut and the loop compute `SectionBlocks`, and the list left in `self.blocks` is `BlocksLeft` |
| Sections.UnpackWords | pyblock/section.py:81-114 | the word-walking loop, with its `data` and `data_len`, computes the first 4096 decoded positions, failing as `datas[state]` does past the last word; the blocks it has appended are those decoded before the first failing position |
| Sections.Refill | pyblock/section.py:93-101 | taking the next word when fewer than `bits` bits are left either fails the section with `IndexError` or starts slot 0 of the next word |
| Sections.NextBlock | pyblock/section.py:104-114 | one turn of the loop extends the prefix by the entry at the masked index, or fails the section with that entry's error |
| Sections.ReadEntry | pyblock/section.py:107 | the block built from the palette entry at the masked index is the one that entry reads as |
| Sections.ShiftOut | pyblock/section.py:113-114 | after `data >>= bits` the word holds one index fewer: the bits used grow by `bits` and the remaining length shrinks by the same |
| Sections.Advance | pyblock/section.py:104-110 | an index past the palette fails with `IndexError`, a bad entry with its error, otherwise the prefix grows by one block |
| Sections.Indices | pyblock/section.py:190-191 | the indices of the first n blocks, each what `palette.index` gives |
| Sections.IndicesOk | pyblock/section.py:191 | every block has an index exactly when the palette holds an equal block for each |
| Sections.IndicesErrorIsValueError | pyblock/section.py:191 | the only error is `ValueError` |
| Sections.BinAppend | pyblock/section.py:183-185 | shifting a left by `length` and or-ing in b is `a * 2^length + b` when b is below `2^length` |
| Sections.BinAppendOverlaps | pyblock/section.py:183-185 | without that bound the or is not an addition: 1 or-ed with 1 is 1 |
| Sections.PackIndices | pyblock/section.py:187-208 | the loop succeeds exactly when every block has an index and then yields `PackWords` of the indices, each word below 2^64 |
| Sections.PackStep | pyblock/section.py:190-206 | one turn either fails the whole list of indices or extends the packing by one index |
| Sections.PushIndex | pyblock/section.py:195-206 | closing a full word, then or-ing the index in above the bits taken, extends the packing |
| Sections.PackPush | pyblock/section.py:195-206 | a word with no room is appended and `x` starts the next; otherwise `x << current_len` is added to the last word |
| Sections.Compounds | pyblock/section.py:148-149 | the compounds of the palette blocks, in order |
| Sections.CompoundList | pyblock/section.py:148-149 | the append loop builds `Compounds(palette)` |
| Sections.PaletteTag | pyblock/section.py:145-150 | the tag is the list named `palette` of the compounds of the sorted distinct blocks |
| Sections.Section.Create | pyblock/section.py:37-53 | construction succeeds exactly when `read_blocks` does, with its error otherwise, and then holds the level, the tag and the blocks read |
| Sections.BlocksLeft | pyblock/section.py:55-114 | what `read_blocks` leaves in `self.blocks`: the section's blocks when it succeeds; nothing new when it raises before line 90; otherwise the blocks decoded before it raised |
| Sections.NoWordFails | pyblock/section.py:87 | without a first long, `datas[0]` fails and so does the section |
| Sections.UnpackedPrefixSpec | pyblock/section.py:90-114 | the blocks the loop has appended are the decoding of the first k positions, where k is the number of positions or the first one that fails |
| Sections.UnpackedPrefixAt | pyblock/section.py:90-114 | when position k is the first to fail, the appended blocks are exactly the first k blocks decoded |
| Sections.Section.ReadBlocks | pyblock/section.py:55-114 | the blocks become those the tag describes; an error before `self.blocks = []` changes nothing, and an error inside the loop leaves the blocks decoded before it |
| Sections.Section.GetBlock | pyblock/section.py:116-122 | Python indexing of the 4096 blocks, negatives from the end, `IndexError` outside [-4096, 4096) |
| Sections.Section.SetBlock | pyblock/section.py:124-133 | the one position, by Python indexing, now holds the block; `IndexError` and no change outside the list |
| Sections.Section.GetPalette | pyblock/section.py:136-150 | the result is `PaletteTag(blocks)` |
| Sections.Section.Blockstates | pyblock/section.py:163-208 | the result is the indices of the blocks in the given palette, packed, each word below 2^64 |
| Sections.Section.GetNbt | pyblock/section.py:210-258 | `KeyError` exactly when the stored tag has no biomes; otherwise Y, the biomes and a block-states compound with the new palette and, for more than one entry, the packed words |
| Sections.PaletteWellFormed | pyblock/section.py:136-208 | a valid section's palette has 1 to 4096 well-formed entries that read back as themselves, so `blockstates` cannot fail |
| Sections.PaletteSize | pyblock/section.py:141 | a section's palette has between one and 4096 entries |
| Sections.SectionRoundTrip | pyblock/section.py:55-258 | writing a valid section and reading the tag back gives, position for position, a block equal to the one written |
| Sections.SectionTagBlocks | pyblock/section.py:55-256 | the tag `get_nbt` builds reads back through the one-entry shortcut or through the unpacking of its words |
| Sections.SectionTagOne | pyblock/section.py:64-67 | a tag whose one palette entry reads as a block reads as that block at all 4096 positions |
| Sections.SectionTagMany | pyblock/section.py:69-114 | a tag with several entries reads as the unpacking of its words, with indices as wide as the palette needs |
| Sections.SectionTagLookups | pyblock/section.py:237-258 | the lookups of `read_blocks` find what `get_nbt` put there |
| Sections.OneEntryRoundTrip | pyblock/section.py:64-250 | a one-entry palette writes no words and reads back as a block equal to every block written |
| Sections.ManyEntriesRoundTrip | pyblock/section.py:91-208 | with several entries the written words unpack to blocks equal to those written |
| Sections.SetThenGet | pyblock/section.py:116-133 | a position set reads back as the block set, and every other position is unchanged |
| Sections.Section.Empty | pyblock/section.py:37-53 | the fields a section starts with before `read_blocks` fills its blocks: its level and tag, no blocks |
| Regions.HeaderOffsetSlot | pyblock/region.py:158-167 | the entry offset is a whole 4-byte slot of the 4096-byte table, and its slot gives back both coordinates reduced modulo 32 |
| Regions.HeaderOffsetOfSlot | pyblock/region.py:110-115 | the slot `write` visits k-th, as `chunk_x = k % 32`, `chunk_z = k / 32`, has its entry at byte 4k |
| Regions.HeaderOffsetPeriodic | pyblock/region.py:158-167 | chunks 32 apart share an entry; negative coordinates wrap (floored modulo), (-1, -1) naming the last entry |
| Regions.HeaderEntry | pyblock/region.py:139-144 | a location entry is 4 bytes, and is made exactly when the chunk is absent or its offset fits 3 bytes and its count 1 byte |
| Regions.HeaderEntryIsToBytes | pyblock/region.py:139-144 | the entry is `bytes(4)` for no sectors, else the 3-byte big-endian offset and the 1-byte count, failing as `to_bytes` does |
| Regions.EntryDigits | pyblock/region.py:139-144 | the three bytes written for an offset read back, big-endian, as that offset |
| Regions.Assemble | pyblock/region.py:107-147 | after n slots the location table has 4n bytes and the sector cursor is at least 2 |
| Regions.FileOf | pyblock/region.py:150-151 | the file is a whole number of sectors, at least two, the second one all zero timestamps |
| Regions.FileEntry | pyblock/region.py:139-150 | slot k's entry sits at byte 4k of the file and is made from the cursor before slot k |
| Regions.FileBytes | pyblock/region.py:120-150 | slot k's bytes start at the sector its entry names when the slots before it fill whole sectors |
| Regions.AlignedFileSucceeds | pyblock/region.py:151 | the length assertion cannot fail when every slot fills whole sectors, and the file then ends at the cursor |
| Regions.Region.ChunkLocation | pyblock/region.py:169-184 | the 3-byte offset and 1-byte count of the chunk's entry; `IndexError` exactly when the file ends before the count byte |
| Regions.Region.ChunkPayload | pyblock/region.py:55-66 | `None` exactly for location (0, 0); an `IndexError` from the location; otherwise the compressed bytes after the length and compression byte, shorter than 2^32 |
| Regions.Region.ChunkData | pyblock/region.py:44-67 | the payload passed through the decompressor and tag reader, `None` and errors passed on |
| Regions.Region.GetChunk | pyblock/region.py:81-92 | as intended: `ValueError` for a chunk never generated; a result is the chunk's tag, which is not empty, and every chunk that exists and is not empty is returned |
| Regions.ConstructChunk | pyblock/chunk.py:16 | calling `Chunk(offset, area, verbose)` succeeds exactly with three arguments; otherwise Python raises `TypeError` |
| Regions.Region.GetChunkAsWritten | pyblock/region.py:81-92 | as written: the chunk's tag goes to `pyblock.Chunk`, whose constructor takes three arguments (pyblock/chunk.py:16); `ValueError` for a chunk never generated |
| Regions.Region.GetChunkAsWrittenFails | pyblock/region.py:81-92 | as written, `get_chunk` raises `TypeError` for every chunk the intended version returns, and otherwise fails as it does: it never returns a chunk |
| Regions.Region.SlotContent | pyblock/region.py:115-136 | a slot whose location cannot be read fails with that error |
| Regions.Region.Slots | pyblock/region.py:110-112 | the file visits 1024 slots |
| Regions.Region.Write | pyblock/region.py:94-151 | the one-pass loop over 1024 slots with the cursor starting at 2 computes `Written(updates)` |
| Regions.Region.NewSlotBytes | pyblock/region.py:115-136 | the bytes appended and the sector count are those of `SlotContent` for the slot |
| Regions.FileFails | pyblock/region.py:115-144 | a slot whose content or entry fails is the file's error |
| Regions.FileDone | pyblock/region.py:150-151 | after all slots the file is table, zeroed timestamps and chunk bytes, or `AssertionError` when not whole sectors |
| Regions.SlotAt | pyblock/region.py:110-112 | slot `32 * cz + cx` is chunk (cx, cz) |
| Regions.SlotsAll | pyblock/region.py:110-112 | every slot of the file holds that slot's content |
| Regions.SlotCases | pyblock/region.py:117-136 | an update's bytes with `ceil(len / 4096)` sectors, nothing for the `0` sentinel, the old sectors copied for an untouched chunk, nothing for an absent one |
| Regions.AssembleErrorPersists | pyblock/region.py:110-147 | the first failing slot decides the error of `write` |
| Regions.AssemblePrefix | pyblock/region.py:110-147 | later slots only append to the table and to the chunk bytes |
| Regions.AssembleEntry | pyblock/region.py:139-144 | slot k's table entry is made from the cursor before slot k and slot k's sector count |
| Regions.AssembleBytes | pyblock/region.py:122-133 | slot k's bytes follow the bytes of the slots before it |
| Regions.ChunksFillSectors | pyblock/region.py:107-147 | when every slot so far fills whole sectors, the chunk bytes fill exactly the sectors from 2 to the cursor |
| Regions.LocationOfEntry | pyblock/region.py:169-184 | reading an entry back gives the offset and count written, (0, 0) for no sectors |
| Regions.WrittenLocation | pyblock/region.py:94-184 | in a written file, `chunk_location` of slot k is the cursor when slot k was visited and its count, or (0, 0) for a dropped or absent chunk |
| Regions.WrittenBytes | pyblock/region.py:94-151 | reading the new file at the sector slot k's entry names finds slot k's bytes, when the slots before are aligned |
| Regions.AlignedWriteSucceeds | pyblock/region.py:151 | `write`'s assertion holds when every slot is aligned, and the file ends at the cursor |
| Regions.ReplaceAligned | pyblock/region.py:120-125 | an updated slot whose bytes fill whole sectors, or a dropped one, is aligned |
| Regions.CopyAligned | pyblock/region.py:127-136 | an untouched slot inside the old file copies its sectors verbatim and is aligned |
| Regions.Frame | pyblock/region.py:61-66 | a frame is the payload plus 5 bytes of length and compression type |
| Regions.FramedPayload | pyblock/region.py:55-66 | reading a frame back through its location entry gives its payload |
| LegacyChunks.InAreaBox | pyblock/chunk.py:60-67 | an area holds exactly the positions with cmin <= p on each axis and p < cmax, and a box with some max not above its min holds none |
| LegacyChunks.Lookup | pyblock/chunk.py:50-91 | `tag.get(key)`: the first child of that name exactly when there is one, else `None`; only a compound has children |
| LegacyChunks.IntOf | pyblock/chunk.py:56-91 | `int(str(tag))` is the value of an integer tag; a missing tag prints as `None` and raises `ValueError` |
| LegacyChunks.Level | pyblock/chunk.py:50-56 | `nbt.tags[0]` is the first child of the root compound, `IndexError` for an empty one |
| LegacyChunks.Coords | pyblock/chunk.py:52-58 | both coordinates exactly when `xPos` and `zPos` read as integers, the `xPos` error first |
| LegacyChunks.CoordsOfLevel | pyblock/chunk.py:52-58 | a level tag whose first `xPos` and `zPos` are integers gives them as the coordinates, whatever else it holds |
| LegacyChunks.SectionsOf | pyblock/chunk.py:50 | the lookup of `Sections` fails exactly when the level tag is no compound |
| LegacyChunks.SectionVersion | pyblock/chunk.py:84-87 | 1631 or 0, and 1631 only for a section with a palette |
| LegacyChunks.CellsSpec | pyblock/chunk.py:93-104 | the records of a section are exactly its in-area cells, each at its absolute position with its block |
| LegacyChunks.SectionCells | pyblock/chunk.py:93-99 | cell (x, y, z) of the section is recorded exactly when it is in the area |
| LegacyChunks.SectionsRecordsFail | pyblock/chunk.py:79-91 | a section that fails after good ones makes the whole pass fail with its error |
| LegacyChunks.GroupedTail | pyblock/chunk.py:99-104 | one more cell appends its position under its block when it is in the area, and changes nothing otherwise |
| LegacyChunks.PointsOf | pyblock/chunk.py:101-104 | a block's positions are never more than the records |
| LegacyChunks.GroupedSpec | pyblock/chunk.py:78-104 | the dictionary has a key exactly for each recorded block, holding that block's positions in visiting order |
| LegacyChunks.Chunk.constructor | pyblock/chunk.py:16-38 | a new chunk keeps its offset and area and has no data, no tag tree and no sections |
| LegacyChunks.Chunk.SetTimestamp | pyblock/chunk.py:40-43 | the timestamp is set |
| LegacyChunks.Chunk.AddData | pyblock/chunk.py:45-50 | the bytes are kept, the tree decoded and the level's sections kept; fields not reached on a failure keep their values |
| LegacyChunks.Chunk.GetCoords | pyblock/chunk.py:52-58 | `TypeError` before any data (the module has no `tags`), else the level tag's coordinates |
| LegacyChunks.Chunk.GetBlocks | pyblock/chunk.py:69-106 | the loops compute `BlocksOf`: each in-area cell of every section after the first with a palette or block array, grouped by block |
| LegacyChunks.Chunk.SectionBlocks | pyblock/chunk.py:93-104 | the triple loop appends the section's cells to the records and keeps the dictionary their grouping |
| LegacyChunks.Chunk.SliceBlocks | pyblock/chunk.py:94-104 | the loops over y and z append slice x's in-area cells |
| LegacyChunks.Chunk.RowBlocks | pyblock/chunk.py:95-104 | the loop over z appends row (x, y)'s in-area cells under their blocks |
| Mca.IntAtBound | pyblock/parsemca.py:52-55 | `end - start` bytes read big-endian give a value below 256^(end - start) |
| Mca.IntRoundTrip | pyblock/parsemca.py:52-55 | a value written as big-endian bytes at a position reads back from there |
| Mca.HeaderBounds | pyblock/parsemca.py:65-84 | location offsets read from 3 bytes are below 2^24, timestamps from 4 below 2^32 |
| Mca.LocationIgnoresCount | pyblock/parsemca.py:65-67 | the sector-count byte of a location entry is never read |
| Mca.ZipDataIsPayload | pyblock/parsemca.py:102-111 | this parser slices out the same compressed bytes as the region reader of region.py |
| Mca.ZipIgnoresCompression | pyblock/parsemca.py:102-111 | the compression-type byte is never inspected |
| Mca.Loaded | pyblock/parsemca.py:102-113 | a chunk after `add_data` has data and a tag tree, and keeps its offset, area and timestamp |
| Mca.Kept | pyblock/parsemca.py:116-118 | with `'all'` every chunk is kept |
| Mca.ExtractedSpec | pyblock/parsemca.py:86-124 | the chunks left are exactly the slots that load and pass the coordinate test, each as loaded |
| Mca.ExtractedLoads | pyblock/parsemca.py:96-118 | when extraction succeeds every chunk was loaded and its coordinates checked against the wanted list |
| Mca.ExtractedStep | pyblock/parsemca.py:96-118 | one more slot adds its loaded chunk exactly when the test keeps it |
| Mca.ExtractedErr | pyblock/parsemca.py:96-118 | the first failing chunk decides the error |
| Mca.ExtractedAll | pyblock/parsemca.py:116 | with a test that keeps everything, every chunk is kept |
| Mca.AddLengths | pyblock/parsemca.py:141-146 | the totals gain every key of the chunk, each adding `len(locs)` to the running total or starting from it |
| Mca.SumMatchesFind | pyblock/parsemca.py:131-160 | a block has a total exactly when some chunk has it, and the total is the number of positions `find_block_locations` gives |
| Mca.AllBlocksStep | pyblock/parsemca.py:136-157 | one more slot adds nothing when empty, fails with the chunk's error, or adds the chunk's blocks |
| Mca.LocatedBelowSpec | pyblock/parsemca.py:65-71 | a slot has a chunk exactly when it is one of the 1024 and its offset is positive |
| Mca.ParsedAll | pyblock/parsemca.py:25-129 | with `'all'`, a parse that succeeds keeps a chunk for every slot with a positive offset |
| Mca.AllBlocksErr | pyblock/parsemca.py:136-157 | a chunk whose blocks cannot be read stops both scans with its error |
| Mca.SumBlocksMatchesFind | pyblock/parsemca.py:131-160 | the two scans fail together, and a block's total is the length of its positions list, or it has no total and no positions |
| Mca.MCA.SnapshotSlots | pyblock/parsemca.py:47 | the chunk states are one per slot in use |
| Mca.MCA.constructor | pyblock/parsemca.py:34-47 | the file bytes, chunk list and area are kept, and there are no chunks yet |
| Mca.MCA.ExtractLocations | pyblock/parsemca.py:57-71 | a new chunk with its offset and area for every slot with a positive offset; other slots unchanged |
| Mca.MCA.NewChunks | pyblock/parsemca.py:65-71 | the loop over 1024 slots creates one new chunk per located slot |
| Mca.MCA.NewChunkAt | pyblock/parsemca.py:66-71 | one slot: a new chunk with its offset and area when the offset is positive, filed under the slot, and no other slot changes |
| Mca.MCA.ExtractTimestamps | pyblock/parsemca.py:73-84 | every chunk gets its slot's timestamp and nothing else changes |
| Mca.MCA.SetSlotTimestamp | pyblock/parsemca.py:83-84 | only the slot's chunk gets the timestamp |
| Mca.MCA.ExtractChunkdata | pyblock/parsemca.py:86-124 | the chunks left are `Extracted` of the old states, or the first error; kept chunks are the same objects |
| Mca.MCA.LoadChunks | pyblock/parsemca.py:96-118 | the loop loads every chunk in slot order and lists for removal exactly those whose coordinates are not wanted |
| Mca.MCA.LoadSlot | pyblock/parsemca.py:96-118 | one turn loads and tests slot n's chunk and changes no other chunk |
| Mca.MCA.LoadChunk | pyblock/parsemca.py:102-118 | the payload is sliced, inflated and added, then its coordinates checked against the wanted list; either step's error is the result |
| Mca.MCA.RemoveChunks | pyblock/parsemca.py:123-124 | the listed slots are deleted and the others kept |
| Mca.MCA.KeptChunks | pyblock/parsemca.py:116-124 | after the removals the chunks left are the kept ones, in their loaded states |
| Mca.MCA.KeptSnapshot | pyblock/parsemca.py:116-124 | the chunks left hold exactly the kept states |
| Mca.MCA.HeadersSnapshot | pyblock/parsemca.py:57-84 | after the two header passes the chunks hold the states read from the header tables |
| Mca.MCA.Create | pyblock/parsemca.py:25-50 | the three passes give `Parsed` of the bytes, or the first error |
| Mca.MCA.ExtractSumBlocks | pyblock/parsemca.py:131-147 | the per-block totals over the chunks in slot order, or the first chunk's error |
| Mca.MCA.SumScan | pyblock/parsemca.py:136-146 | the loop gives `SumCounts` of every chunk's blocks, or the first error |
| Mca.MCA.AddLengthsTo | pyblock/parsemca.py:141-146 | the inner loop gives `AddLengths` |
| Mca.MCA.FindBlockLocations | pyblock/parsemca.py:149-160 | the positions of the named block chunk after chunk in slot order, or the first error |
| Mca.MCA.FindScan | pyblock/parsemca.py:153-159 | the loop gives `Locations` of every chunk's blocks, or the first error |
| EmptyChunks.KeptSections | pyblock/empty_chunk.py:167-175 | `save` keeps no more sections than there are slots |
| EmptyChunks.EmptyChunk.constructor | pyblock/empty_chunk.py:25-29 | sixteen empty slots, the coordinates given and data version 1976 |
| EmptyChunks.EmptyChunk.AddSection | pyblock/empty_chunk.py:31-49 | slot `section.y`, by Python indexing, takes the section unless it is occupied and `replace` is false (`EmptySectionAlreadyExists`, no change); a level outside [-16, 16) is an `IndexError` |
| EmptyChunks.EmptyChunk.GetBlock | pyblock/empty_chunk.py:51-82 | `OutOfBoundsCoordinates` exactly outside 0..15, 0..255, 0..15; `None` for an absent section; otherwise the section's block at (x, y % 16, z) |
| EmptyChunks.EmptyChunk.SetBlock | pyblock/empty_chunk.py:84-111 | `OutOfBoundsCoordinates` and no change exactly outside the bounds; otherwise slot `y // 16`, created first when absent, takes the block at (x, y % 16, z) and no other slot changes |
| EmptyChunks.EmptyChunk.Save | pyblock/empty_chunk.py:141-178 | the root tag with the data version, the level tags, the coordinates and the kept sections |
| EmptyChunks.EmptyChunk.GetData | pyblock/empty_chunk.py:115-138 | the compressed tag framed with length and compression type 2, padded to a sector boundary; `OverflowError` when the length does not fit 4 bytes |
| EmptyChunks.KeptSectionsSpec | pyblock/empty_chunk.py:167-175 | the kept tags are exactly the saves of the present sections whose palette is not just air |
| EmptyChunks.NothingKept | pyblock/empty_chunk.py:168-174 | a chunk of empty or all-air sections saves no section |
| EmptyChunks.PaddedFrameAligned | pyblock/empty_chunk.py:127-136 | the padded frame fills whole sectors, so the assertion holds, with 1 to 4096 zero bytes after the frame |
| EmptyChunks.PadAligned | pyblock/empty_chunk.py:135-136 | padding with `4096 - n % 4096` zeros reaches the next sector boundary strictly after n |
| EmptyChunks.PaddedFrameReadsBack | pyblock/empty_chunk.py:115-138 | stored from a sector on, the padded frame reads back through a region's location entry as its payload |
| Mapper.ColorName | pyblock/mapper.py:49-54 | the table's colour name for a known id, `'Red'` for any other |
| Mapper.HitsInside | pyblock/mapper.py:95-97 | a write lands inside the buffer but never in its last row (local x = 0 is refused by the strict bound) nor in its first column |
| Mapper.HitsExactly | pyblock/mapper.py:95-97 | the cells some write reaches are exactly those outside the last row and the first column, each from the one mirrored position |
| Mapper.PyLevel.constructor | pyblock/mapper.py:71-86 | the level keeps y and the dimensions and holds a new all-zero buffer |
| Mapper.PyLevel.SetBlockAtCoord | pyblock/mapper.py:88-97 | the mirrored cell (dx - x - 1, z) takes the colour when 0 < x < dx and 0 < z < dz, and no other cell changes |
| Mapper.PyMap.constructor | pyblock/mapper.py:16-40 | the bounds, ranges and output folder are kept, no unknown blocks, and 256 blank levels of their own |
| Mapper.PyMap.SetBlock | pyblock/mapper.py:42-58 | an id missing from the table is recorded and drawn red; level `levels[y]` by Python indexing takes the colour at the local position; a y outside [-256, 256) is an `IndexError` and changes no level |
| Mazes.InitialGridShape | pyblock/maze.py:120-135 | for at least two rows and columns the grid is `height` rows of `width` walls, border exactly on the outer ring |
| Mazes.InitialGridSmall | pyblock/maze.py:125-135 | fewer than two rows still gives the two border rows, and a width below two gives middle rows of two border cells |
| Mazes.Modify | pyblock/maze.py:148-162 | changing `maze[y][x]` by Python indexing succeeds exactly when that cell exists (`IndexError` otherwise), changes that cell only and keeps the grid's shape |
| Mazes.Opened | pyblock/maze.py:139-142 | after opening, the exit cell exists and is no border |
| Mazes.DefaultOpening | pyblock/maze.py:66-142 | with the default entry (w//2, 0) and exit (w//2, h-1) opening succeeds, both lose their border flag and every cell is still a wall |
| Mazes.InitialGridFits | pyblock/maze.py:120-135 | the initial grid has at least `height` rows of at least `width` cells, whatever size is asked |
| Mazes.ModifyFits | pyblock/maze.py:148-162 | a cell change keeps the grid fitting the maze's size |
| Mazes.Maze.Fields | pyblock/maze.py:64-104 | the size, the entry and exit (defaults (w//2, 0) and (w//2, h-1)), empty path, blocked and choices lists, the probe at (0, 0), no stop, counter 0, both flags false, stage 0 |
| Mazes.Maze.Create | pyblock/maze.py:43-112 | the fields, then `init_maze`; an `IndexError` of `set_entry_exit` escapes, otherwise the grid is the opened initial grid |
| Mazes.Maze.InitMaze | pyblock/maze.py:120-137 | the grid becomes the opened initial grid, or `IndexError`; after an `IndexError` at the exit the entry has already lost its border |
| Mazes.Maze.SetEntryExit | pyblock/maze.py:139-142 | the border flags of the entry, then of the exit, are cleared, stopping at the first `IndexError`: an entry out of range changes nothing, and an exit out of range leaves the entry cleared |
| Mazes.Maze.SetPath | pyblock/maze.py:144-150 | `maze[y][x]` becomes a path, or `IndexError` and no change |
| Mazes.Maze.SetWall | pyblock/maze.py:152-154 | `maze[y][x]` becomes a wall, or `IndexError` and no change |
| Mazes.Maze.SetBorder | pyblock/maze.py:156-158 | `maze[y][x]` becomes a border cell, or `IndexError` and no change |
| Mazes.Maze.UnsetBorder | pyblock/maze.py:160-162 | `maze[y][x]` is no longer a border cell, or `IndexError` and no change |
| Mazes.Maze.Change | pyblock/maze.py:148-162 | one flag write at `maze[y][x]`, or `IndexError` and no change |
| Mazes.Maze.IsBlocked | pyblock/maze.py:211-217 | true for a listed cell, else the cell's border flag, Python indexing raising `IndexError` |
| Mazes.Maze.PossibleMeans | pyblock/maze.py:164-209 | a step is possible exactly when it stays in the grid and either reaches the stage-1 stop, or goes to an unblocked non-border wall whose continuation and both side neighbours are no path |
| Mazes.Maze.ChoicesAmong | pyblock/maze.py:301-307 | no more choices than directions |
| Mazes.Maze.ChoicesAmongSpec | pyblock/maze.py:301-307 | a direction is a choice exactly when it is listed and possible |
| Mazes.Maze.GetChoices | pyblock/maze.py:301-307 | the possible directions in the order up, down, left, right, also stored in `choices` |
| Mazes.Maze.Forward | pyblock/maze.py:266-278 | the counter grows by one, the probe moves to (x, y), which is pushed on the path and made a path cell; inside the grid this cannot fail |
| Mazes.Maze.Backward | pyblock/maze.py:280-299 | the path is popped; with cells left the probe moves to the new last one and, without a main path, the popped cell is blocked and re-walled; with none left the probe stays and the maze is done; an empty path raises `IndexError` |
| Mazes.Maze.GetMatrix | pyblock/maze.py:425-441 | `height` rows of `width` entries, 1 for a wall and 0 exactly for a path cell |
| McMain.Shifted | pyblock/mcmain.py:59-60 | `[c + d for c in coords]`: same length, each component moved by d |
| McMain.GetArea | pyblock/mcmain.py:44-68 | no area when a region is given; otherwise a pair of bounds as long as `coords`; `IndexError` exactly when `vertical` meets a list too short to have a y |
| McMain.AreaIsBox | pyblock/mcmain.py:56-66 | the area holds exactly the points within `radius` of the centre on every axis, y running from -1 to 256 with `vertical` |
| McMain.RegionOf | pyblock/mcmain.py:112 | `chunk_to_region`: the region whose 32 chunks hold the chunk, per axis |
| McMain.Rel32 | pyblock/tools.py:84-93 | the chunk's position inside its own region, in [0, 32), adding back to the chunk |
| McMain.RowCount | pyblock/mcmain.py:107-108 | the inner loop visits (x, z) once for each z from `zmin` to `zmax` and no other chunk |
| McMain.RectCount | pyblock/mcmain.py:106-108 | each chunk of the inclusive rectangle is visited exactly once, and no other chunk is |
| McMain.RectSize | pyblock/mcmain.py:104-110 | `number_chunks` ends at (xmax - xmin + 1) * (zmax - zmin + 1), or 0 for an empty rectangle |
| McMain.GroupListed | pyblock/mcmain.py:105-116 | the dictionary holds a region exactly when some visited chunk lies in it, with that region's relative chunks in visiting order |
| McMain.ListedMembers | pyblock/mcmain.py:109-116 | a region's list holds the relative chunk of each visited chunk of that region and nothing else |
| McMain.ListedCount | pyblock/mcmain.py:109-116 | when the relative-chunk rule tells a region's chunks apart, each is listed as often as visited |
| McMain.ListedCollision | pyblock/mcmain.py:109-116 | two chunks of one region with the same relative chunk are both listed under it |
| McMain.SquareInRect | pyblock/mcmain.py:93-96 | every block column of the square `centre ± radius` lies in a chunk of the walked rectangle |
| McMain.RectMeetsSquare | pyblock/mcmain.py:93-96 | the block range of every walked chunk meets `centre ± radius` on each axis |
| McMain.RegionsOnce | pyblock/mcmain.py:104-116 | with region-relative chunks every walked chunk is listed exactly once, under its own region |
| McMain.RegionsOnly | pyblock/mcmain.py:104-116 | a listed relative chunk names a walked chunk of that region |
| McMain.AreaColumnsListed | pyblock/mcmain.py:44-116 | every block column of the area `get_area` returns has its chunk listed under its region |
| McMain.AsWrittenRepeatsChunk | pyblock/mcmain.py:109 | as written, any rectangle holding chunks (0, 0) and (16, 0) lists relative chunk (0, 0) of region (0, 0) at least twice |
| McMain.CollisionExample | pyblock/mcmain.py:93-96 | centre x 128, z 0 with radius 128 walks chunks 0 to 16 along x and -8 to 8 along z |
| McMain.CollectRegions | pyblock/mcmain.py:104-116 | the nested loops build `Group` of the visited chunks and count them |
| McMain.CollectColumn | pyblock/mcmain.py:107-116 | the inner loop extends the grouping and the count by one row of chunks |
| McMain.GroupSnoc | pyblock/mcmain.py:113-116 | one more chunk appends its relative chunk to its region's list, or starts the list |
| McMain.GetRegionsAsWritten | pyblock/mcmain.py:71-120 | with a region, `UnboundLocalError` at the log line; with too short coordinates `IndexError`; otherwise the chunks grouped with the modulo-16 rule |
| McMain.GetRegions | pyblock/mcmain.py:71-120 | with a region, that whole region; with too short coordinates `IndexError`; otherwise the chunks grouped region-relative |
| EditorReads.BlocksAt | pyblock/editor.py:413-416 | reading a list of positions gives one block per position, in order, or the first read error |
| EditorReads.BlocksAtMeaning | pyblock/editor.py:413-416 | the scan succeeds exactly when every position can be read, and then its i-th block is the one read at the i-th position |
| EditorReads.ReadCount | pyblock/editor.py:455-459 | the positions read before the first failing `get_block`: all of them read fine, and the next one (if any) fails |
| EditorReads.BlocksAtSnoc | pyblock/editor.py:455-459 | one more position read extends the blocks by its block, or stops at the first error, which is kept |
| EditorReads.BlocksAtPrefix | pyblock/editor.py:455-459 | once a read fails, reading further positions keeps that first error |
| EditorReads.ErrorInSpan | pyblock/editor.py:413-416 | a read error at any position of the box makes the whole scan fail |
| EditorReads.LoadSectionReads | pyblock/editor.py:118-143 | `get_section` through the chunk cache gives what a fresh read of the world gives; a cached chunk is not read again, a new one is cached once, and nothing cached is lost |
| EditorReads.LoadBlockReads | pyblock/editor.py:98-116 | `get_block` through both caches gives the world's block at that position, and a cached section is neither re-read nor replaced |
| EditorReads.XZYBoxMembers | pyblock/editor.py:413-415 | the x, z, y loop nest visits exactly the positions of the box with those origins and extents |
| EditorReads.XYZBoxMembers | pyblock/editor.py:260-262 | the x, y, z loop nest visits exactly the positions of the box with those origins and extents |
| EditorReads.SpanMembers | pyblock/editor.py:413-415 | `list_blocks` and `find_blocks` visit exactly the positions p with start <= p < end on every axis |
| EditorReads.CuboidMembers | pyblock/editor.py:260-263 | `copy_blocks` reads exactly the source positions of the box [s, s + w) |
| EditorResults.BumpFacts | pyblock/editor.py:418-421 | one more block of an id: its count goes up by one, a new id is appended to the insertion order, every other count is unchanged |
| EditorResults.Ids | pyblock/editor.py:416-418 | the i-th id is the id of the i-th block read |
| EditorResults.TallySnoc | pyblock/editor.py:416-421 | counting one more block is one `Bump` of its id |
| EditorResults.TallyCounts | pyblock/editor.py:412-421 | after the loop, an id is a key exactly when some block read carries it, and its count is the number of blocks carrying it |
| EditorResults.ItemsOf | pyblock/editor.py:424 | `blocks.items()` lists the ids in insertion order |
| EditorResults.ItemsOfMembers | pyblock/editor.py:424 | a pair is an item exactly when its id is a key and its number is that id's count |
| EditorResults.Reverse | pyblock/editor.py:426 | `[::-1]` keeps the length and puts element n - 1 - i at i |
| EditorResults.InsertBounded | pyblock/editor.py:424 | inserting into the sort keeps every count under a common bound |
| EditorResults.InsertSorted | pyblock/editor.py:424 | inserting into a list sorted by count keeps it sorted |
| EditorResults.InsertPermutes | pyblock/editor.py:424 | insertion adds exactly the new item and loses none |
| EditorResults.InsertKeys | pyblock/editor.py:424 | insertion adds its id to the key set and keeps the ids distinct |
| EditorResults.SortAscendingSpec | pyblock/editor.py:424 | `sorted(.., key=itemgetter(1))` is ascending by count and a permutation of the items |
| EditorResults.SortAscendingKeys | pyblock/editor.py:424 | sorting keeps the set of ids and their distinctness |
| EditorResults.ReverseMultiset | pyblock/editor.py:426 | reversing is a permutation |
| EditorResults.ReverseDescending | pyblock/editor.py:426 | reversing an ascending list of distinct ids gives a descending one, ids still distinct |
| EditorResults.ListingMembers | pyblock/editor.py:412-429 | `list_blocks` lists (id, k) exactly when k is the positive number of blocks read with that id |
| EditorResults.ListingOrdered | pyblock/editor.py:424-429 | the listing names each id once, by count from the largest down |
| EditorResults.FoundSnoc | pyblock/editor.py:459-460 | one more scanned position is appended to the locations exactly when its block matches |
| EditorResults.FoundMembers | pyblock/editor.py:443-460 | a position is found exactly when it was scanned and its block matches: by `==` when exact, by id otherwise |
| EditorResults.Repeats | pyblock/editor.py:266-270 | one write per repetition offset r, of the block at dest + d + r, in `rep` order |
| EditorResults.CellCopies | pyblock/editor.py:265-272 | the writes for one source block are exactly its copies: at dest + d without `rep`, at dest + d + r for each r of `rep` |
| EditorResults.CopyWrites | pyblock/editor.py:260-272 | a write is among those of `copy_blocks` exactly when it copies one of the blocks read |
| EditorResults.CopyWritesSnoc | pyblock/editor.py:260-272 | one more source block appends its copies, in order |
| EditorPlans.PushFacts | pyblock/editor.py:93-96 | appending a change for a key: its list gains the value at the end, no other list changes, and the key joins the insertion order only when it is new |
| EditorPlans.PushAllSnoc | pyblock/editor.py:93-96 | pushing one more pair is one more push |
| EditorPlans.PushAllAppend | pyblock/editor.py:93-96 | pushing a + b is pushing a, then b |
| EditorPlans.PushAllOne | pyblock/editor.py:93-96 | pushing one pair is one push |
| EditorPlans.PushAllOf | pyblock/editor.py:93-96 | after a run of pushes, each key's list is its old list followed by exactly the values paired with it, in order, and every key is listed once |
| EditorPlans.SelectedMembers | pyblock/editor.py:93-96 | a value is recorded for a key exactly when that pair was pushed |
| EditorPlans.IndexDigits | pyblock/tools.py:95-108 | the index 256y + 16z + x of a block inside a section determines its three in-section coordinates |
| EditorPlans.QuotientRemainder | pyblock/tools.py:95-108 | a coordinate is fixed by its chunk (floor quotient by 16) and its remainder |
| EditorPlans.IdIndexNamesPosition | pyblock/editor.py:85-88 | two positions with the same section id and block index are the same position |
| EditorPlans.Changes | pyblock/editor.py:85-91 | each write becomes the (section id, (block, index)) entry `set_block` records |
| EditorPlans.PlannedSnoc | pyblock/editor.py:76-96 | one more `set_block` pushes its (block, index) under its section id |
| EditorPlans.PlannedUpToIs | pyblock/editor.py:76-96 | the plan after n writes is the plan of the first n writes |
| EditorPlans.PlannedUpToPrefix | pyblock/editor.py:76-96 | writes after the first n do not change what the first n plan |
| EditorPlans.PlannedPushes | pyblock/editor.py:76-96 | recording writes is pushing their entries in call order |
| EditorPlans.PlannedOf | pyblock/editor.py:76-96 | each section's list gains the (block, index) of every write into that section in call order, and a change is listed under a section exactly when some write produced it |
| EditorPlans.FillMembers | pyblock/editor.py:174-175 | the fill loop writes the fill block at y1 + 1 through y1 + height of its column and nowhere else |
| EditorPlans.PieceColumnMembers | pyblock/editor.py:173-176 | one column of a piece writes floor, fill and ceiling at its layers and nothing outside that column |
| EditorPlans.PieceRowMembers | pyblock/editor.py:170-176 | one dx-row of a piece covers exactly the columns z1 to z1 + n - 1 |
| EditorPlans.PieceRowsMembers | pyblock/editor.py:169-176 | n rows of a piece cover exactly the columns of x1 to x1 + n - 1 by z1 to z1 + mag - 1 |
| EditorPlans.PieceMembers | pyblock/editor.py:145-176 | `place_piece` writes, in every column of the mag by mag square at (x1, z1), the floor at y1, the fill from y1 + 1 to y1 + height and the ceiling at y1 + height + 1, and nothing else |
| EditorPlans.GridRowMembers | pyblock/editor.py:208-233 | the first n cells of a matrix row contribute exactly their cells' writes |
| EditorPlans.GridRowsMembers | pyblock/editor.py:207-233 | the first n matrix rows contribute exactly their cells' writes |
| EditorPlans.MazeMembers | pyblock/editor.py:178-233 | `create_maze` writes exactly the pieces of the matrix cells, cell (row, col) placed at (x0 + mag row, y0, z0 + mag col), with the wall on a truthy cell and air otherwise |
| EditorPlans.CellIsPiece | pyblock/editor.py:209-233 | the writes of cell (row, col) are the piece at its position with the fill chosen by the cell's truthiness |
| EditorScans.FoldAtSnoc | pyblock/editor.py:455-460 | one more position of a scan applies the loop body to its block, or stops at the first read error, which is kept |
| EditorScans.ColumnFoldStops | pyblock/editor.py:457-460 | once a `get_block` of the innermost y loop raises, the rest of the column changes nothing: the exception ends the scan |
| EditorScans.ColumnFoldNext | pyblock/editor.py:457-460 | step k of the y loop applies the body to the block at (x, y0 + k, z), and a failing read there ends the column with its error |
| EditorScans.SlabFoldNext | pyblock/editor.py:456-460 | step k of the z loop runs the whole y column at z0 + k, and a failing column ends the slab |
| EditorScans.BoxFoldNext | pyblock/editor.py:455-460 | step k of the x loop runs the whole slab at x0 + k, and a failing slab ends the box |
| EditorScans.ColumnFolds | pyblock/editor.py:457-460 | the y loop continues the scan over the column's positions in y order |
| EditorScans.SlabFolds | pyblock/editor.py:456-460 | the z loop continues the scan over the slab's positions, z outer, y inner |
| EditorScans.BoxFolds | pyblock/editor.py:455-460 | the three loops scan the box's positions in x, z, y order |
| EditorScans.SpanFolds | pyblock/editor.py:413-416 | the loops of `list_blocks` and `find_blocks` scan the box [start, end) in `Span` order |
| EditorScans.TallyingFolds | pyblock/editor.py:412-421 | the counting loop gives the tally of the blocks read, or the first read error |
| EditorScans.FindingFolds | pyblock/editor.py:454-462 | the matching loop gives the positions whose blocks match, in scan order, or the first read error |
| EditorScans.CopyAtSnoc | pyblock/editor.py:260-272 | one more source position of `copy_blocks` is one more copy step |
| EditorScans.CopyLineStops | pyblock/editor.py:262-272 | once a read of the innermost z loop fails, the rest of the loop changes nothing |
| EditorScans.CopyBoxFolds | pyblock/editor.py:260-272 | the dx, dy, dz loops copy the positions of the box in x, y, z order |
| EditorScans.CuboidCopies | pyblock/editor.py:260-272 | the three copy loops copy over `Cuboid(s, w)`, the box of size w at s |
| EditorScans.CopyAtMeaning | pyblock/editor.py:260-272 | the copy reads every block before the first failing read, logs their copies in order after the earlier writes, and fails exactly when a read fails, with that error |
| EditorEntities.PushAllFiled | pyblock/editor.py:309-318 | recording entities each under the chunk of its own position keeps every entity filed under its chunk |
| EditorEntities.Rehomed | pyblock/editor.py:284-314 | a chunk's entity list after the pass: entities inside the box moved by the shift in place, all others unchanged, same length |
| EditorEntities.Picked | pyblock/editor.py:284-318 | the pass records, for one chunk, exactly each entity inside the box, moved by the shift, under the chunk of its new position |
| EditorEntities.Gathered | pyblock/editor.py:283-318 | over the cached chunks in cache order, a pair is recorded exactly when it is picked from one of them |
| EditorEntities.RehomedChunks | pyblock/editor.py:283-314 | moving the entities keeps every cached chunk and its sections |
| EditorEntities.RehomedCoherent | pyblock/editor.py:283-314 | after the entity move the section cache still agrees with the saved world |
| EditorEntities.GatherOf | pyblock/editor.py:282-318 | an entity is recorded under a key exactly when the pass pushes it under that key |
| EditorEntities.GatherFiled | pyblock/editor.py:282-318 | the fresh `defaultdict(list)`: keys once each in first-use order, every entity under its chunk |
| EditorEntities.GatherMeaning | pyblock/editor.py:282-318 | the record holds under k exactly the moved entities of the box, from the cached chunks, whose new position lies in chunk k |
| EditorEntities.PickEntities | pyblock/editor.py:284-318 | the loop over one chunk's entities pushes exactly its picked entities and re-homes its list |
| EditorEntities.GatheredSnoc | pyblock/editor.py:283-318 | one more cached chunk appends its picked pairs |
| EditorEntities.RehomedOver | pyblock/editor.py:283-314 | the chunks visited so far have their entities re-homed, the others are as cached |
| EditorEntities.GatherStep | pyblock/editor.py:283-318 | one more cached chunk pushes its picked pairs |
| EditorEntities.RehomedStep | pyblock/editor.py:283-314 | one more cached chunk re-homes its own entity list and no other |
| EditorEntities.GatherChunk | pyblock/editor.py:283-318 | one iteration of the outer loop keeps the record and the chunks equal to the pass over the chunks visited so far |
| EditorEntities.GatherEntities | pyblock/editor.py:282-318 | the gather loop yields the record `Gather` and the chunks with their entities re-homed |
| EditorEntities.Clones | pyblock/editor.py:332-358 | one clone per repetition offset, moved by it and filed under the chunk of its new position |
| EditorEntities.Unit | pyblock/editor.py:327-358 | one original yields itself under its key and then its clones, and nothing else |
| EditorEntities.Group | pyblock/editor.py:327-358 | the pairs pushed for a key's entities are exactly each one's original and clones |
| EditorEntities.Repeated | pyblock/editor.py:326-358 | the pairs pushed over all keys are exactly the originals and clones of every recorded entity |
| EditorEntities.RepeatedFiled | pyblock/editor.py:326-358 | repeating a well-filed record pushes only pairs whose entity lies in the key's chunk |
| EditorEntities.RepeatOf | pyblock/editor.py:324-358 | after the repetition an entity is under k exactly when some original or clone is pushed under k |
| EditorEntities.RepeatFiled | pyblock/editor.py:324-358 | the repeated record keeps every entity under the chunk it lies in |
| EditorEntities.RepeatHas | pyblock/editor.py:326-358 | every pushed pair is in the new record |
| EditorEntities.RepeatKeeps | pyblock/editor.py:326-358 | every original stays under its key and gets a clone at every offset, under the clone's chunk |
| EditorEntities.RepeatOnly | pyblock/editor.py:326-358 | nothing else is recorded: each entity is an original under its own key or a moved clone of an original |
| EditorEntities.RepeatClones | pyblock/editor.py:332-358 | the repetition loop pushes exactly the clones of one original, in offset order |
| EditorEntities.GroupStep | pyblock/editor.py:327-358 | one more original pushes itself under the key and then its clones |
| EditorEntities.RepeatGroup | pyblock/editor.py:327-358 | the loop over one key's originals pushes exactly that key's `Group` |
| EditorEntities.RepeatedStep | pyblock/editor.py:326-358 | one more key pushes its group |
| EditorEntities.RepeatEntities | pyblock/editor.py:321-358 | the repetition pass, with each original filed under its own key, yields `Repeat` of the gathered record |
| EditorEntities.GroupAsWrittenMembers | pyblock/editor.py:326-358 | as written, every clone is still filed under its own chunk, but each original after the first goes under the key left by the previous original's last clone |
| EditorEntities.ExampleChunks | pyblock/tools.py:95-108 | positions 0 and 1 lie in chunk (0, 0); positions 16 and 17 lie in chunk (1, 0) |
| EditorEntities.AsWrittenMisfiles | pyblock/editor.py:326-358 | two entities of chunk (0, 0) repeated 16 blocks east: as written the second original is filed under chunk (1, 0), where it does not lie |
| EditorEntities.CopyEntities | pyblock/editor.py:276-358 | the entity pass records the moved entities of the box in a fresh record, repeated when there are repetitions (as intended; see Findings), keeps every entity under its own chunk, and re-homes the cached chunks |
| EditorFlush.Apply | pyblock/editor.py:615-616 | applying a section's pending changes keeps its length; it raises `IndexError` exactly when some index is out of Python's range, and otherwise each index holds the block of its last change |
| EditorFlush.PendingLastWrite | pyblock/editor.py:85-96 | last write wins: a section's pending list leaves at an index the block of the last `set_block` to that position, or the old block when there was none |
| EditorFlush.FetchReads | pyblock/editor.py:611-613 | fetching a section for `done` gives its stored copy or a fresh read, and keeps the caches coherent |
| EditorFlush.FlushStep | pyblock/editor.py:607-622 | one section of the first loop: unless an earlier one raised, it is fetched, its changes applied and stored, and it is noted under its region; no other section changes |
| EditorFlush.RegionPairs | pyblock/editor.py:618-622 | each section is noted as its (chunk, level) under its region |
| EditorFlush.FlushStepCaches | pyblock/editor.py:611-613 | one step of the first loop reads through the caches and keeps them coherent |
| EditorFlush.FlushStepMeaning | pyblock/editor.py:607-622 | a step on a section succeeds exactly when the section can be fetched and its changes applied, and then stores the updated blocks and notes the section under its region |
| EditorFlush.FlushPrefix | pyblock/editor.py:607-622 | the first loop keeps the caches coherent and leaves the sections it has not reached as they were |
| EditorFlush.FlushSucceeds | pyblock/editor.py:607-622 | the first loop over distinct sections succeeds exactly when every section is flushable |
| EditorFlush.FlushExtend | pyblock/editor.py:607-622 | one more section that the first loop has not reached yet: the loop still has no error exactly when it had none before and that section is flushable |
| EditorFlush.FlushMeaning | pyblock/editor.py:607-622 | when it succeeds, each section holds its changes applied to its base, and every section is noted under its region in order |
| EditorFlush.FlushLastWrite | pyblock/editor.py:601-622 | after the first loop every section touched by `set_block` is stored, as long as its base, and each index holds the block of the last call that wrote that position, or the old block |
| EditorFlush.StoredSections | pyblock/editor.py:647-652 | the levels of a chunk's stored sections in order; a missing one raises `KeyError` |
| EditorFlush.ChunkFetchMeaning | pyblock/region.py:81-92 | `get_chunk` gives a chunk only from a generated, non-empty chunk tag of its region file, and a (0, 0) header entry raises `ValueError` |
| EditorFlush.ChunkUpdates | pyblock/editor.py:639-655 | a region's chunk updates in order succeed exactly when every one does, and then the i-th is the update of the i-th chunk |
| EditorFlush.Issued | pyblock/editor.py:625-658 | the pass over the regions issues the writes before the first error and stops there with that error |
| EditorFlush.RegionUpdaterAt | pyblock/editor.py:625-658 | the update of a region uses the (chunk, level) pairs noted under it |
| EditorFlush.IssuedRegion | pyblock/editor.py:625-658 | the i-th region write issued is the update of the i-th region noted |
| EditorFlush.RegionChunk | pyblock/editor.py:630-658 | a region's write hands each grouped chunk that chunk's update, in grouping order |
| EditorFlush.ChunkSections | pyblock/editor.py:640-655 | a chunk update carries the chunk, the entities recorded for it, and its stored section at each level |
| EditorFlush.GroupedLevels | pyblock/editor.py:630-635 | grouping a region's pairs by chunk lists under each chunk exactly the levels paired with it |
| EditorFlush.KeyIndex | pyblock/editor.py:625 | every key of a dictionary sits somewhere in its insertion order |
| EditorFlush.GroupIndex | pyblock/editor.py:630-635 | each (chunk, level) pair of a region sits at some chunk and level position once grouped |
| EditorFlush.CoverAt | pyblock/editor.py:625-658 | the positions of the region write, chunk and level that carry a noted section |
| EditorFlush.RegionWritesCover | pyblock/editor.py:625-658 | when the second loop raises nothing, each noted section reaches the write of its region, handed to its chunk at its level, with that chunk's entities |
| EditorFlush.RegionWritesOnly | pyblock/editor.py:625-658 | and nothing else is sent: every section a region write carries is a stored section noted under that region |
| EditorFlush.ApplyStops | pyblock/editor.py:615-616 | once a change has raised, later changes are not applied |
| EditorFlush.FlushStops | pyblock/editor.py:607-622 | once a section has raised, the first loop reaches no later section |
| EditorFlush.StoredStops | pyblock/editor.py:647-652 | once a level is missing, later levels are not looked up |
| EditorFlush.ChunkUpdatesStops | pyblock/editor.py:639-655 | once a chunk has raised, the region's later chunks are not updated |
| EditorFlush.IssuedStops | pyblock/editor.py:625-658 | once a region has raised, no later region is written |
| EditorFlush.FlushNext | pyblock/editor.py:607-622 | step i of the first loop follows the first i, and a step that raises ends the pass |
| EditorFlush.StoredNext | pyblock/editor.py:647-652 | level l follows the first l levels, and a missing one raises `KeyError` |
| EditorFlush.ChunkUpdatesNext | pyblock/editor.py:639-655 | chunk j follows the first j, and one that raises ends the region |
| EditorFlush.IssuedNext | pyblock/editor.py:625-658 | region i follows the first i, and one that raises ends the pass |
| EditorFlush.RegionsNoted | pyblock/editor.py:618-622 | each flushed section is noted under its region, each region once |
| EditorFlush.FlushRegions | pyblock/editor.py:607-622 | when the first loop succeeds, it notes every pending section under its region, in order |
| EditorFlush.DoneLastWrite | pyblock/editor.py:601-658 | when neither loop of `done` raises, every section touched by `set_block` reaches its region's write, handed to its chunk at its level, and each index holds the block of the last call that wrote that position, or the old block |
| Editing.RegionFolder | pyblock/editor.py:46-50 | the editor's folder ends in "region": the path itself when it already does, else the path with "/region" appended |
| Editing.ApplyChanges | pyblock/editor.py:615-616 | the loop over one section's pending list gives exactly `Apply`: the blocks after each change in order, stopping at the first `IndexError` |
| Editing.Editor.constructor | pyblock/editor.py:40-68 | a new editor has its region folder, nothing pending, nothing cached, no entities |
| Editing.Editor.SetBlock | pyblock/editor.py:76-96 | the change is appended to the list of the position's section, and the call joins the write log |
| Editing.Editor.GetSection | pyblock/editor.py:118-143 | the section a fresh read of the world gives; its chunk is cached on first use and the caches stay coherent |
| Editing.Editor.GetBlock | pyblock/editor.py:98-116 | the block a fresh read of the world gives at (x, y, z); its section is cached on first use |
| Editing.Editor.PlaceFill | pyblock/editor.py:174-175 | the fill loop logs the fill block at y1 + 1 through y1 + height of one column |
| Editing.Editor.PlaceColumn | pyblock/editor.py:171-176 | one column of a piece logs the floor, the fill and the ceiling |
| Editing.Editor.PlaceRow | pyblock/editor.py:170-176 | row dx of a piece logs its columns dz = 0 to mag - 1 |
| Editing.Editor.PlacePiece | pyblock/editor.py:145-176 | `place_piece` logs exactly the writes of `Piece`, whose members are proved by `PieceMembers` |
| Editing.Editor.PlaceNextRow | pyblock/editor.py:169-176 | one iteration of the dx loop extends the logged rows by one |
| Editing.Editor.PlaceMazeCell | pyblock/editor.py:209-233 | a maze cell logs a piece with the wall block when the cell is truthy and air otherwise |
| Editing.Editor.PlaceMazeRow | pyblock/editor.py:208-233 | a matrix row logs the pieces of its cells in column order |
| Editing.Editor.PlaceMaze | pyblock/editor.py:207-233 | the row loop logs exactly the maze's writes |
| Editing.Editor.CreateMaze | pyblock/editor.py:178-233 | `create_maze` takes the maze's 0/1 matrix (1 on a wall) and logs the piece of every cell, wall or air, row by row |
| Editing.Editor.ReadBlock | pyblock/editor.py:416 | one `get_block` of a scan gives what the world holds and only grows the caches |
| Editing.Editor.ScanColumn | pyblock/editor.py:415-416 | the y loop folds the blocks read over one column, stopping at the first failed read |
| Editing.Editor.ScanSlab | pyblock/editor.py:414-416 | the z loop folds over one slab |
| Editing.Editor.ScanBox | pyblock/editor.py:413-416 | the three loops fold the body over the positions of the box in `Span` order |
| Editing.Editor.ListBlocks | pyblock/editor.py:405-429 | `list_blocks` gives the listing of the blocks read in the box (each id with its count, largest first), or the first read error |
| Editing.Editor.FindBlocks | pyblock/editor.py:431-462 | `find_blocks` gives the positions of the box, in scan order, whose block matches by id or exactly, or the first read error |
| Editing.Editor.PlaceRepeats | pyblock/editor.py:266-270 | one copied block is written at q + r for each repetition r, in order |
| Editing.Editor.CopyCell | pyblock/editor.py:263-272 | one source position: its block is read and written at the destination, once per repetition when there are any |
| Editing.Editor.CopyLineStep | pyblock/editor.py:262-272 | one iteration of the dz loop is one more copy step |
| Editing.Editor.CopyLine | pyblock/editor.py:262-272 | the dz loop copies one line, stopping at the first failed read |
| Editing.Editor.CopySlab | pyblock/editor.py:261-272 | the dy loop copies one slab |
| Editing.Editor.CopyBox | pyblock/editor.py:260-272 | the three loops copy the box `Cuboid(s, w)`, logging after the old log |
| Editing.Editor.CopyPass | pyblock/editor.py:260-272 | the block pass of `copy_blocks` logs the copies of every block read before the first failed read, and reports that failure |
| Editing.Editor.CopyBlocks | pyblock/editor.py:235-358 | `copy_blocks` copies the box from this world or from `world_source`; a failed read stops it after the earlier writes; otherwise the entity record is rebuilt from the moved entities of the box, repeated when there are repetitions (as intended; see Findings) |
| Editing.Editor.CopyWithin | pyblock/editor.py:251-358 | the same-world copy: its own caches grow, and the cached chunks keep the moved entities; the entity record is repeated as intended (see Findings) |
| Editing.Editor.RehomeEntities | pyblock/editor.py:274-358 | the entity pass within this world rebuilds the record from the editor's cached chunks, repeated as intended (see Findings), and leaves their entities moved, keeping the editor's invariant (pending changes as logged, record ordered and filed, caches coherent) |
| Editing.Editor.CopyAcross | pyblock/editor.py:251-358 | the copy from another world read by its own editor leaves this editor's caches as they were; the entity record is repeated as intended (see Findings) |
| Editing.Editor.ReadAcross | pyblock/editor.py:251-272 | the block pass from another world logs the copies read through that world's editor |
| Editing.Editor.FlushSection | pyblock/editor.py:607-622 | one section of the first loop of `done` is exactly `FlushStep` on the editor's state |
| Editing.Editor.FlushPending | pyblock/editor.py:607-622 | the first loop of `done` is exactly `Flush` over the pending sections in insertion order |
| Editing.Editor.StoredLevels | pyblock/editor.py:647-652 | the stored section of each level of a chunk, or `KeyError` |
| Editing.Editor.UpdateChunk | pyblock/editor.py:639-655 | one chunk of the second loop: the chunk fetched afresh, its entities, its stored sections by level |
| Editing.Editor.GroupLevels | pyblock/editor.py:630-635 | the `chunks` dictionary lists under each chunk exactly the levels paired with it, each chunk once |
| Editing.Editor.UpdateRegion | pyblock/editor.py:625-658 | one region of the second loop: its chunks grouped and each updated, until one raises |
| Editing.Editor.WriteRegions | pyblock/editor.py:625-658 | the second loop issues the write of each noted region in order, until one raises |
| Editing.Editor.Done | pyblock/editor.py:601-658 | `done` applies every pending change (first loop), then writes each noted region with its chunks fetched afresh, their stored sections and entities; the error that stops either loop is reported |

## Left out

- Blocks.StrRepr: always wraps a string in single quotes. Python's `repr` switches to double quotes when the text contains a single quote, and escapes backslashes and control characters. The palette is sorted by `repr` (pyblock/section.py:141-150), so `Palettes.SortByRepr` may order blocks whose id or property values contain such characters differently from the source.
- Blocks.PropertiesFromTags: a `Properties` child that is not a string tag gives `Err(TypeError)`. pyblock/block.py:44-46 stores the value of any tag kind, such as an integer. The model's property dictionary maps strings to strings, so it cannot hold such a block.
- LegacyChunks.IntOf: a string tag gives `Err(ValueError)`. The source's `int(str(tag))` (pyblock/chunk.py:56, 75, 91) also accepts a string tag holding a decimal numeral.
- Converter.BlockToChunk: exact floored division. The source divides in floating point and then floors, which differs once a coordinate exceeds 2^53 in magnitude. The same holds for the other `Converter` functions.
- Tools.ChunkToRegion: exact `floor(16x / 512)`. The source computes it in floating point (pyblock/tools.py:39-40), which is exact only up to 2^53.
- Mapper.PyLevel.constructor: requires non-negative dimensions. `np.zeros` raises `ValueError` on a negative size (pyblock/mapper.py:86); that error path is not modelled.
- Mapper.PyMap.constructor: requires `xmin <= xmax` and `zmin <= zmax` for the same reason (pyblock/mapper.py:24-37 builds a `PyLevel` of that size).
- EmptyChunks.EmptyChunk: its slots hold section values, not shared objects, so a caller keeping a reference to a stored section does not see later changes. The section class is not part of this model; its operations are passed in as `EmptyChunks.SectionOps`.
- Editing.Editor: its caches hold sections and chunks as values, so the sharing of one Python section or chunk object between `sections`, `chunks` and `write_sections` is not modelled.
- EditorReads.World: `Region(path, region).read_chunk(chunk)` together with the file read, zlib and the tag reader is one function from a chunk id to a loaded chunk or an error. That includes `read_chunk` returning `{}` on a zlib error, which appears only as whatever that function yields.
- Editing.Editor.Done: returns the region writes it issues, as region, chunk, stored sections by level and entities. It does not turn them into bytes. pyblock/chunk.py's `Chunk`, which `get_chunk` returns, has no `set_section` or `get_bytes` (pyblock/editor.py:652, 655), so `done` as written raises at its first chunk, already inside `get_chunk`. The model's writes are those of the intended chunk type; the final file write is I/O.
- Regions.Region.GetChunk: returns the chunk's tag, where pyblock/region.py:89 passes it to `pyblock.Chunk`, pyblock/chunk.py's three-argument constructor, which raises `TypeError`. The model follows the intended wrapper; `GetChunkAsWritten` is the code as written (see Findings). `read_chunk` (pyblock/region.py:78) makes the same call, and `EditorReads.World` stands for its intended result; a read chunk's `get_section` (pyblock/editor.py:142) is the intended wrapper's too.
- EditorReads.LoadedChunk: its entity list is always present and every entity has integer x, y and z. The `KeyError` that `copy_blocks` raises for a cached chunk without a `block_entities` tag, or an entity without `x`, `y` or `z` (pyblock/editor.py:284-287, no guard, unlike line 383), is not modelled. It would come after all block writes are queued. `Editing.Editor.CopyBlocks` and `EditorEntities.CopyEntities` therefore never fail in the entity pass.
- Blocks.FromCompound: a `Name` tag that is not a string gives `Err(TypeError)`. pyblock/block.py:41 stores the value of any tag kind as the id; the model's id is a string.
- Mazes.Maze.Create: width and height have no default; the source defaults both to 10.
- Mazes: `choose_next`, `create` and `finish` are driven by `random` and `time.sleep` and are not modelled. The same goes for `print`, `printrow`, `pos` and the curses output. The debug and timing fields are left out.
- Sections: `print_palette` and the `TAG_Long_Array` patch are not modelled, since they are console output and library glue. Packed words are unsigned 64-bit naturals.
- Regions: `Region.__init__` reads the file, and `write` ends with a file write; both are file I/O. The region holds the bytes it was given, and `write` returns the new file's bytes.
- Mca: `MCA.__init__` reading the file and the verbose printing are I/O. zlib decompression and tag decoding are parameters.
- LegacyChunks: reading a block out of a section (the tag library's `AnvilSection`) is a parameter. The `section_version` distinction is kept only as the version number passed to that parameter.
- Editing: `set_verbosity` and logging are not modelled. `analyze_chest` is printing. `wayfinder` uses `input()` and `sys.exit`, `search_closest_color` uses floating-point square roots, and `surface` uses images, JSON and text files; none of these is modelled.
- Converter: `dist` uses a floating-point square root and is not modelled.
- Mapper: `draw` (image resize and PNG output) and the colour tables are not part of this model; the table is a parameter.
- McMain: the click commands `mclist`, `mcfind`, `mcplot` and `mccopy`, and `get_world_path`, are command-line plumbing and are not modelled.
- pyblock/mc_editor.py is not part of this model: it calls functions and constructors that do not exist in the library.
- zlib and the external tag library: compression and decompression are opaque functions over bytes. Parsing and serialising tags are parameters, and the tag tree is the datatype `Tags.Tag`.

## Findings

| source | as written | input that shows it | evidently intended | confidence | as-written member | corrected member |
|---|---|---|---|---|---|---|
| pyblock/mcmain.py:109 | the chunk relative to its region is recorded as (cx mod 16, cz mod 16), but a region is 32 chunks wide | centre (128, y, 0) with radius 128 walks chunks 0 to 16 along x; chunks (0, 0) and (16, 0) both lie in region (0, 0) and are both recorded as relative chunk (0, 0) | (cx mod 32, cz mod 32), so every chunk of the search is listed exactly once under its own region | not executed | McMain.AsWrittenRepeatsChunk | McMain.RegionsOnce |
| pyblock/mcmain.py:80-119 | `number_chunks` is assigned only in the branch without a region, and is read by the log line after both branches | any region argument, e.g. region (0, 0): `UnboundLocalError` | the region's whole selection is returned, {region: 'all'} | not executed | McMain.GetRegionsAsWritten | McMain.GetRegions |
| pyblock/editor.py:326-358 | the repetition loop reassigns `key`, the outer loop's variable, so every original after the first in a list is appended under the chunk of the previous original's last clone | two entities at (0, 0, 0) and (1, 0, 0) in chunk (0, 0), repeated once at offset (16, 0, 0): the second original is filed under chunk (1, 0), where it does not lie | each original kept under its own key, each clone under the chunk of its shifted position | not executed | EditorEntities.AsWrittenMisfiles | EditorEntities.RepeatKeeps |
| pyblock/editor.py:85 | the editor unpacks `block_to_id_index` into four names, while tests/test_tools.py:27-29 expect a nested pair (section id, index) | block (0, 0, 0): the value the tests expect has two items, so the four-name unpacking raises `ValueError` | the flat 4-tuple (region, chunk, level, index) that all four call sites of the editor read | not executed | Tools.AsTestedBreaksUnpacking | Tools.BlockToIdIndex |
| pyblock/region.py:81-92 | `get_chunk` wraps the chunk's tag as `pyblock.Chunk(nbt_data)`; that name is pyblock/chunk.py's class, whose constructor takes offset, area and verbose, none with a default | any chunk that exists: a slot whose location is not (0, 0), whose frame reads, and whose payload inflates to a tag with children; `get_chunk` raises `TypeError` | the chunk's tag wrapped in the chunk type the editor reads sections from and writes sections into | not executed | Regions.Region.GetChunkAsWritten | Regions.Region.GetChunk |
