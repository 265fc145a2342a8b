/** The older coordinate helpers of pyblock/converter.py. They divide with
    floating point and then take `math.floor`; on integers this is floored
    division, which is what is modelled. */
module Converter {
  import Tools

  const REGION_SIZE: int := 512
  const CHUNK_SIZE: int := 16

  /** `(floor(x / 16), floor(z / 16))`. */
  function BlockToChunk(x: int, z: int): (r: (int, int))
    ensures CHUNK_SIZE * r.0 <= x < CHUNK_SIZE * r.0 + CHUNK_SIZE
    ensures CHUNK_SIZE * r.1 <= z < CHUNK_SIZE * r.1 + CHUNK_SIZE
  {
    (x / CHUNK_SIZE, z / CHUNK_SIZE)
  }

  /** The inclusive 16-wide block ranges of chunk (x, z). */
  function ChunkToBlock(x: int, z: int): (r: (Tools.Range, Tools.Range))
    ensures r.0.lo == CHUNK_SIZE * x && r.0.hi == CHUNK_SIZE * x + CHUNK_SIZE - 1
    ensures r.1.lo == CHUNK_SIZE * z && r.1.hi == CHUNK_SIZE * z + CHUNK_SIZE - 1
  {
    (Tools.Range(CHUNK_SIZE * x, CHUNK_SIZE * (x + 1) - 1), Tools.Range(CHUNK_SIZE * z, CHUNK_SIZE * (z + 1) - 1))
  }

  /** The inclusive 512-wide block ranges of region (x, z). */
  function RegionToBlock(x: int, z: int): (r: (Tools.Range, Tools.Range))
    ensures r.0.lo == REGION_SIZE * x && r.0.hi == REGION_SIZE * x + REGION_SIZE - 1
    ensures r.1.lo == REGION_SIZE * z && r.1.hi == REGION_SIZE * z + REGION_SIZE - 1
  {
    (Tools.Range(REGION_SIZE * x, REGION_SIZE * (x + 1) - 1), Tools.Range(REGION_SIZE * z, REGION_SIZE * (z + 1) - 1))
  }

  /** `(floor(16x / 512), floor(16z / 512))`, i.e. floored division by 32. */
  function ChunkToRegion(x: int, z: int): (r: (int, int))
    ensures 32 * r.0 <= x < 32 * r.0 + 32 && 32 * r.1 <= z < 32 * r.1 + 32
  {
    ((x * CHUNK_SIZE) / REGION_SIZE, (z * CHUNK_SIZE) / REGION_SIZE)
  }

  /** `(floor(x / 512), floor(z / 512))`. */
  function BlockToRegion(x: int, z: int): (r: (int, int))
    ensures REGION_SIZE * r.0 <= x < REGION_SIZE * r.0 + REGION_SIZE
    ensures REGION_SIZE * r.1 <= z < REGION_SIZE * r.1 + REGION_SIZE
  {
    (x / REGION_SIZE, z / REGION_SIZE)
  }

  /** The float-and-floor helpers agree with the integer-division ones of tools.py. */
  lemma AgreesWithTools(x: int, z: int)
    ensures BlockToChunk(x, z) == Tools.BlockToChunk(x, z)
    ensures BlockToRegion(x, z) == Tools.BlockToRegion(x, z)
    ensures ChunkToRegion(x, z) == Tools.ChunkToRegion(x, z)
    ensures ChunkToBlock(x, z) == Tools.ChunkToBlock(x, z)
    ensures RegionToBlock(x, z) == Tools.RegionToBlock(x, z)
  {
  }

  /** Negative coordinates floor rather than truncate. */
  lemma NegativeExamples()
    ensures BlockToChunk(-1, 0) == (-1, 0) && BlockToRegion(-1, -1) == (-1, -1)
    ensures ChunkToRegion(-1, 32) == (-1, 1)
  {
  }
}
