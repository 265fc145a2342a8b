/** Coordinate conversions between blocks, chunks, regions and section
    positions (pyblock/tools.py). Python's `//` and `%` floor, which is what
    Dafny's `/` and `%` do for a positive divisor. */
module Tools {
  import opened Common

  const REGION_SIZE: int := 512
  const CHUNK_SIZE: int := 16
  const CHUNKS_REGION: int := 32

  /** An inclusive range of block coordinates on one axis. */
  datatype Range = Range(lo: int, hi: int)

  /** Block range covered by chunk (x, z), per axis. */
  function ChunkToBlock(x: int, z: int): (r: (Range, Range))
    ensures r.0.hi - r.0.lo == CHUNK_SIZE - 1 && r.1.hi - r.1.lo == CHUNK_SIZE - 1
    ensures r.0.lo == CHUNK_SIZE * x && r.1.lo == CHUNK_SIZE * z
  {
    (Range(CHUNK_SIZE * x, CHUNK_SIZE * (x + 1) - 1), Range(CHUNK_SIZE * z, CHUNK_SIZE * (z + 1) - 1))
  }

  /** Region holding chunk (x, z): `floor(x * 16 / 512)`. */
  function ChunkToRegion(x: int, z: int): (r: (int, int))
    ensures CHUNKS_REGION * r.0 <= x < CHUNKS_REGION * r.0 + CHUNKS_REGION
    ensures CHUNKS_REGION * r.1 <= z < CHUNKS_REGION * r.1 + CHUNKS_REGION
  {
    ((x * CHUNK_SIZE) / REGION_SIZE, (z * CHUNK_SIZE) / REGION_SIZE)
  }

  /** Region holding block (x, z). */
  function BlockToRegion(x: int, z: int): (r: (int, int))
    ensures REGION_SIZE * r.0 <= x < REGION_SIZE * r.0 + REGION_SIZE
    ensures REGION_SIZE * r.1 <= z < REGION_SIZE * r.1 + REGION_SIZE
  {
    (x / REGION_SIZE, z / REGION_SIZE)
  }

  /** Block range covered by region (x, z), per axis. */
  function RegionToBlock(x: int, z: int): (r: (Range, Range))
    ensures r.0.hi - r.0.lo == REGION_SIZE - 1 && r.1.hi - r.1.lo == REGION_SIZE - 1
    ensures r.0.lo == REGION_SIZE * x && r.1.lo == REGION_SIZE * z
  {
    (Range(REGION_SIZE * x, REGION_SIZE * (x + 1) - 1), Range(REGION_SIZE * z, REGION_SIZE * (z + 1) - 1))
  }

  /** Chunk holding block (x, z). */
  function BlockToChunk(x: int, z: int): (r: (int, int))
    ensures CHUNK_SIZE * r.0 <= x < CHUNK_SIZE * r.0 + CHUNK_SIZE
    ensures CHUNK_SIZE * r.1 <= z < CHUNK_SIZE * r.1 + CHUNK_SIZE
  {
    (x / CHUNK_SIZE, z / CHUNK_SIZE)
  }

  /** Region, chunk within the region and block within the chunk of block (x, z). */
  function BlockToRegionChunk(x: int, z: int): (r: ((int, int), (int, int), (int, int)))
    ensures 0 <= r.1.0 < CHUNKS_REGION && 0 <= r.1.1 < CHUNKS_REGION
    ensures 0 <= r.2.0 < CHUNK_SIZE && 0 <= r.2.1 < CHUNK_SIZE
    ensures REGION_SIZE * r.0.0 + CHUNK_SIZE * r.1.0 + r.2.0 == x
    ensures REGION_SIZE * r.0.1 + CHUNK_SIZE * r.1.1 + r.2.1 == z
  {
    var region := BlockToRegion(x, z);
    var chunk := BlockToChunk(x % REGION_SIZE, z % REGION_SIZE);
    var block := (x % CHUNK_SIZE, z % CHUNK_SIZE);
    RegionChunkSplit(x);
    RegionChunkSplit(z);
    (region, chunk, block)
  }

  lemma RegionChunkSplit(x: int)
    ensures 0 <= (x % REGION_SIZE) / CHUNK_SIZE < CHUNKS_REGION
    ensures REGION_SIZE * (x / REGION_SIZE) + CHUNK_SIZE * ((x % REGION_SIZE) / CHUNK_SIZE) + x % CHUNK_SIZE == x
  {
    var q, m := x / REGION_SIZE, x % REGION_SIZE;
    assert x == REGION_SIZE * q + m;
    assert (REGION_SIZE * q + m) % CHUNK_SIZE == m % CHUNK_SIZE;
  }

  /** Region and chunk within the region of absolute chunk (x, z). */
  function AbsChunkToRegionChunk(x: int, z: int): (r: ((int, int), (int, int)))
    ensures 0 <= r.1.0 < CHUNKS_REGION && 0 <= r.1.1 < CHUNKS_REGION
    ensures CHUNKS_REGION * r.0.0 + r.1.0 == x && CHUNKS_REGION * r.0.1 + r.1.1 == z
  {
    ((x / CHUNKS_REGION, z / CHUNKS_REGION), (x % CHUNKS_REGION, z % CHUNKS_REGION))
  }

  /** `block_to_id_index`: the region, the chunk within the region, the
      vertical section level and the index of the block within its 16x16x16
      section. tools.py does not define it. Its two sides disagree on its
      shape: the editor unpacks a flat 4-tuple at all four call sites
      (pyblock/editor.py:85, 105, 308, 348), which is what is modelled here,
      while tests/test_tools.py:27-29 expect the nested pair
      ((region, chunk, level), index) of `BlockToIdIndexAsTested`. */
  function BlockToIdIndex(x: int, y: int, z: int): (r: ((int, int), (int, int), int, int))
    ensures r.0 == BlockToRegion(x, z) && r.1 == BlockToRegionChunk(x, z).1
    ensures CHUNK_SIZE * r.2 <= y < CHUNK_SIZE * r.2 + CHUNK_SIZE
    ensures 0 <= r.3 < 4096
    ensures r.3 == (y % 16) * 256 + (z % 16) * 16 + x % 16
  {
    var rc := BlockToRegionChunk(x, z);
    (rc.0, rc.1, y / CHUNK_SIZE, (y % 16) * 256 + (z % 16) * 16 + x % 16)
  }

  /** The shape tests/test_tools.py:27-29 expect of `block_to_id_index`: the
      section id as one item, then the index. */
  function BlockToIdIndexAsTested(x: int, y: int, z: int): (r: (((int, int), (int, int), int), int))
    ensures r.0 == (BlockToRegion(x, z), BlockToRegionChunk(x, z).1, y / CHUNK_SIZE)
    ensures 0 <= r.1 < 4096 && r.1 == BlockToIdIndex(x, y, z).3
  {
    var t := BlockToIdIndex(x, y, z);
    ((t.0, t.1, t.2), t.3)
  }

  /** `a, b, c, d = t` for a tuple t of `arity` items: `ValueError` unless
      there are exactly four. */
  function UnpackFour(arity: nat): (r: Result<()>)
    ensures r.Ok? <==> arity == 4
  {
    if arity == 4 then Ok(()) else Err(ValueError)
  }

  /** The tested shape at the tests' first input, (0, 0, 0). */
  lemma AsTestedOrigin()
    ensures BlockToIdIndexAsTested(0, 0, 0) == (((0, 0), (0, 0), 0), 0)
  {
    IdIndexOrigin();
  }

  /** The tested shape has two items, so the editor's four-name unpacking
      of it raises, at the tests' own first input. (The modelled 4-tuple
      unpacks: `UnpackFour`; its value there is `IdIndexOrigin`.) */
  lemma AsTestedBreaksUnpacking()
    ensures BlockToIdIndexAsTested(0, 0, 0) == (((0, 0), (0, 0), 0), 0)
    ensures UnpackFour(2) == Err(ValueError)
  {
    AsTestedOrigin();
  }

  /** A block belongs to the chunk range of `ChunkToBlock` exactly when
      `BlockToChunk` maps it to that chunk. */
  lemma ChunkRangeMatchesBlockToChunk(bx: int, bz: int, cx: int, cz: int)
    ensures BlockToChunk(bx, bz) == (cx, cz) <==>
            (ChunkToBlock(cx, cz).0.lo <= bx <= ChunkToBlock(cx, cz).0.hi &&
             ChunkToBlock(cx, cz).1.lo <= bz <= ChunkToBlock(cx, cz).1.hi)
  {
    var r := BlockToChunk(bx, bz);
    if ChunkToBlock(cx, cz).0.lo <= bx <= ChunkToBlock(cx, cz).0.hi {
      FloorUnique(bx, CHUNK_SIZE, cx, r.0);
    }
    if ChunkToBlock(cx, cz).1.lo <= bz <= ChunkToBlock(cx, cz).1.hi {
      FloorUnique(bz, CHUNK_SIZE, cz, r.1);
    }
  }

  /** Same for regions. */
  lemma RegionRangeMatchesBlockToRegion(bx: int, bz: int, rx: int, rz: int)
    ensures BlockToRegion(bx, bz) == (rx, rz) <==>
            (RegionToBlock(rx, rz).0.lo <= bx <= RegionToBlock(rx, rz).0.hi &&
             RegionToBlock(rx, rz).1.lo <= bz <= RegionToBlock(rx, rz).1.hi)
  {
    var r := BlockToRegion(bx, bz);
    if RegionToBlock(rx, rz).0.lo <= bx <= RegionToBlock(rx, rz).0.hi {
      FloorUnique(bx, REGION_SIZE, rx, r.0);
    }
    if RegionToBlock(rx, rz).1.lo <= bz <= RegionToBlock(rx, rz).1.hi {
      FloorUnique(bz, REGION_SIZE, rz, r.1);
    }
  }

  /** Going through chunks agrees with going to the region directly. */
  lemma BlockToRegionViaChunk(x: int, z: int)
    ensures ChunkToRegion(BlockToChunk(x, z).0, BlockToChunk(x, z).1) == BlockToRegion(x, z)
  {
    var c := BlockToChunk(x, z);
    var r := ChunkToRegion(c.0, c.1);
    var s := BlockToRegion(x, z);
    FloorUnique(x, REGION_SIZE, r.0, s.0);
    FloorUnique(z, REGION_SIZE, r.1, s.1);
  }

  /** The values pinned by tests/test_tools.py. */
  lemma ToolsExamples()
    ensures BlockToRegion(0, 512) == (0, 1) && BlockToRegion(511, 0) == (0, 0)
    ensures BlockToRegion(512, 0) == (1, 0) && BlockToRegion(-1, -1) == (-1, -1)
    ensures BlockToChunk(511, 511) == (31, 31) && BlockToChunk(0, 16) == (0, 1)
    ensures BlockToChunk(15, 0) == (0, 0) && BlockToChunk(16, 0) == (1, 0)
  {
  }

  lemma IdIndexOrigin()
    ensures BlockToIdIndex(0, 0, 0) == ((0, 0), (0, 0), 0, 0)
  {
  }

  /** (712, 70, 612) lies in region (1, 1), chunk (12, 6), level 4, index 1608. */
  lemma IdIndexTestValue()
    ensures BlockToIdIndex(712, 70, 612).0 == (1, 1) && BlockToIdIndex(712, 70, 612).1 == (12, 6)
    ensures BlockToIdIndex(712, 70, 612).2 == 4 && BlockToIdIndex(712, 70, 612).3 == 1608
  {
  }

  /** The vertical level floors: -1 is level -1 and -64 is level -4. */
  lemma YLevelExamples()
    ensures BlockToIdIndex(0, -1, 0).2 == -1 && BlockToIdIndex(0, -64, 0).2 == -4
    ensures BlockToIdIndex(0, 100, 0).2 == 6
  {
  }

  /** `combine_dicts`: a copy of `dict1` into which every entry of `dict2` is
      added, summing the values of shared keys. */
  method CombineDicts<K>(dict1: map<K, int>, dict2: map<K, int>) returns (d: map<K, int>)
    ensures d.Keys == dict1.Keys + dict2.Keys
    ensures forall k :: k in d ==> d[k] == (if k in dict1 then dict1[k] else 0) + (if k in dict2 then dict2[k] else 0)
  {
    d := dict1;
    var todo := dict2.Keys;
    while todo != {}
      invariant todo <= dict2.Keys
      invariant d.Keys == dict1.Keys + (dict2.Keys - todo)
      invariant forall k :: k in d ==> d[k] == (if k in dict1 then dict1[k] else 0) + (if k in dict2 && k !in todo then dict2[k] else 0)
      decreases todo
    {
      var key :| key in todo;
      if key in d {
        d := d[key := d[key] + dict2[key]];
      } else {
        d := d[key := dict2[key]];
      }
      todo := todo - {key};
    }
  }
}
