/** The search-area helpers of the command-line tools (pyblock/mcmain.py):
    `get_area` turns a centre and a radius into a box of block coordinates,
    and `get_regions` lists, per region file, the chunks a square search
    around the centre has to read. The click commands, the world path and
    the logging are not part of this model. */
module McMain {
  import opened Common
  import opened Tools

  type Chunk = (int, int)

  /** What `get_regions` maps a region to: the string `'all'`, or the list
      of chunks to read, given relative to their region. */
  datatype Selection = All | Chunks(rel: seq<Chunk>)

  // ---------------------------------------------------------------- get_area

  /** Every component of `coords` moved by `d`: `[c + d for c in coords]`. */
  function Shifted(coords: seq<int>, d: int): (r: seq<int>)
    ensures |r| == |coords|
    ensures forall i :: 0 <= i < |coords| ==> r[i] - coords[i] == d
  {
    seq(|coords|, i requires 0 <= i < |coords| => coords[i] + d)
  }

  /** `get_area(region, coords, radius, vertical)`: no area when a region is
      given; otherwise the box `coords ± radius`, whose y bounds become -1 and
      256 with `vertical` (the assignment to index 1 raises on a shorter list). */
  function GetArea(region: Option<Chunk>, coords: seq<int>, radius: int, vertical: bool)
    : (r: Result<Option<(seq<int>, seq<int>)>>)
    ensures region.Some? ==> r == Ok(None)
    ensures region.None? ==> (r.Err? <==> vertical && |coords| < 2)
    ensures r.Err? ==> r.error == IndexError
    ensures region.None? && r.Ok? ==>
              r.value.Some? && |r.value.value.0| == |coords| && |r.value.value.1| == |coords|
  {
    if region.Some? then Ok(None)
    else
      var coordMin := Shifted(coords, -radius);
      var coordMax := Shifted(coords, radius);
      if !vertical then Ok(Some((coordMin, coordMax)))
      else if |coordMin| < 2 then Err(IndexError)
      else Ok(Some((coordMin[1 := -1], coordMax[1 := 256])))
  }

  /** Point `p` lies in the box from `lo` to `hi`, component by component. */
  predicate InBox(p: seq<int>, lo: seq<int>, hi: seq<int>)
  {
    |p| == |lo| == |hi| && forall i :: 0 <= i < |p| ==> lo[i] <= p[i] <= hi[i]
  }

  /** The area holds exactly the points within `radius` of the centre on
      every axis, except that with `vertical` every y from -1 to 256 is in.
      This inclusive box is the point set the pair describes; it is not the
      set `in_area` of the legacy chunk accepts (`LegacyChunks.InArea`),
      whose test leaves out the maximum bound on every axis. */
  lemma AreaIsBox(coords: seq<int>, radius: int, vertical: bool, p: seq<int>)
    requires GetArea(None, coords, radius, vertical).Ok?
    ensures var area := GetArea(None, coords, radius, vertical).value.value;
            InBox(p, area.0, area.1) <==>
              |p| == |coords| &&
              forall i :: 0 <= i < |p| ==>
                if vertical && i == 1 then -1 <= p[i] <= 256
                else coords[i] - radius <= p[i] <= coords[i] + radius
  {
  }

  // ------------------------------------------------------------- get_regions

  /** The region holding (absolute) chunk c. */
  function RegionOf(c: Chunk): (r: (int, int))
    ensures CHUNKS_REGION * r.0 <= c.0 < CHUNKS_REGION * r.0 + CHUNKS_REGION
    ensures CHUNKS_REGION * r.1 <= c.1 < CHUNKS_REGION * r.1 + CHUNKS_REGION
  {
    ChunkToRegion(c.0, c.1)
  }

  /** The relative chunk as written: `(chunk_x % 16, chunk_z % 16)`. */
  function Rel16(c: Chunk): Chunk
  {
    (c.0 % 16, c.1 % 16)
  }

  /** The chunk's position inside its region, as `abs_chunk_to_region_chunk`
      computes it. */
  function Rel32(c: Chunk): (r: Chunk)
    ensures 0 <= r.0 < CHUNKS_REGION && 0 <= r.1 < CHUNKS_REGION
    ensures CHUNKS_REGION * RegionOf(c).0 + r.0 == c.0
    ensures CHUNKS_REGION * RegionOf(c).1 + r.1 == c.1
  {
    FloorUnique(c.0, CHUNKS_REGION, RegionOf(c).0, AbsChunkToRegionChunk(c.0, c.1).0.0);
    FloorUnique(c.1, CHUNKS_REGION, RegionOf(c).1, AbsChunkToRegionChunk(c.0, c.1).0.1);
    AbsChunkToRegionChunk(c.0, c.1).1
  }

  /** The chunks (x, z) with z from zmin to zmax, in increasing z. */
  function Row(x: int, zmin: int, zmax: int): seq<Chunk>
    decreases zmax - zmin
  {
    if zmax < zmin then [] else Row(x, zmin, zmax - 1) + [(x, zmax)]
  }

  /** The chunks of the inclusive rectangle in the order of the two nested
      `range` loops: x outer, z inner. */
  function Rect(xmin: int, xmax: int, zmin: int, zmax: int): seq<Chunk>
    decreases xmax - xmin
  {
    if xmax < xmin then [] else Rect(xmin, xmax - 1, zmin, zmax) + Row(xmax, zmin, zmax)
  }

  /** The chunk rectangle `get_regions` walks: the chunks of the centre moved
      by the radius along x and along z. */
  function ChunkBounds(xc: int, zc: int, radius: int): (int, int, int, int)
  {
    (BlockToChunk(xc - radius, zc).0, BlockToChunk(xc + radius, zc).0,
     BlockToChunk(xc, zc - radius).1, BlockToChunk(xc, zc + radius).1)
  }

  function RectOf(xc: int, zc: int, radius: int): seq<Chunk>
  {
    var b := ChunkBounds(xc, zc, radius);
    Rect(b.0, b.1, b.2, b.3)
  }

  /** One turn of the loop: the relative chunk is appended to its region's
      list, which is created on first use. */
  function Add(g: map<(int, int), seq<Chunk>>, c: Chunk, rel: Chunk -> Chunk): map<(int, int), seq<Chunk>>
  {
    var reg := RegionOf(c);
    if reg in g then g[reg := g[reg] + [rel(c)]] else g[reg := [rel(c)]]
  }

  /** The region lists after visiting the chunks of `s` in order. */
  function Group(s: seq<Chunk>, rel: Chunk -> Chunk): map<(int, int), seq<Chunk>>
  {
    if s == [] then map[] else Add(Group(s[..|s| - 1], rel), s[|s| - 1], rel)
  }

  /** Independently of the loop: the relative chunks of the chunks of `s`
      that lie in region `reg`, in visiting order. */
  function Listed(s: seq<Chunk>, reg: (int, int), rel: Chunk -> Chunk): seq<Chunk>
  {
    if s == [] then []
    else Listed(s[..|s| - 1], reg, rel) + (if RegionOf(s[|s| - 1]) == reg then [rel(s[|s| - 1])] else [])
  }

  /** The dictionary `get_regions` builds for centre (xc, zc). */
  function RegionsOf(xc: int, zc: int, radius: int, rel: Chunk -> Chunk): map<(int, int), Selection>
  {
    var g := Group(RectOf(xc, zc, radius), rel);
    map reg | reg in g :: Chunks(g[reg])
  }

  lemma RowCount(x: int, zmin: int, zmax: int, c: Chunk)
    ensures multiset(Row(x, zmin, zmax))[c] == if c.0 == x && zmin <= c.1 <= zmax then 1 else 0
    decreases zmax - zmin
  {
    if zmin <= zmax {
      RowCount(x, zmin, zmax - 1, c);
    }
  }

  /** Each chunk of the rectangle is visited exactly once, and no other chunk is. */
  lemma {:induction false} RectCount(xmin: int, xmax: int, zmin: int, zmax: int, c: Chunk)
    ensures multiset(Rect(xmin, xmax, zmin, zmax))[c] ==
              if xmin <= c.0 <= xmax && zmin <= c.1 <= zmax then 1 else 0
    decreases xmax - xmin
  {
    if xmin <= xmax {
      RectCount(xmin, xmax - 1, zmin, zmax, c);
      RowCount(xmax, zmin, zmax, c);
    }
  }

  /** The loop runs (xmax - xmin + 1) * (zmax - zmin + 1) times, or not at all. */
  lemma {:induction false} RectSize(xmin: int, xmax: int, zmin: int, zmax: int)
    ensures |Rect(xmin, xmax, zmin, zmax)| == Max(0, xmax - xmin + 1) * Max(0, zmax - zmin + 1)
    decreases xmax - xmin
  {
    if xmin <= xmax {
      RectSize(xmin, xmax - 1, zmin, zmax);
      RowSize(xmax, zmin, zmax);
      var w := Max(0, zmax - zmin + 1);
      assert Max(0, xmax - 1 - xmin + 1) * w + w == (xmax - xmin + 1) * w;
    }
  }

  lemma RowSize(x: int, zmin: int, zmax: int)
    ensures |Row(x, zmin, zmax)| == Max(0, zmax - zmin + 1)
    decreases zmax - zmin
  {
    if zmin <= zmax {
      RowSize(x, zmin, zmax - 1);
    }
  }

  /** The loop's dictionary holds a region exactly when some visited chunk
      lies in it, and its list is that region's `Listed` sequence. */
  lemma {:induction false} GroupListed(s: seq<Chunk>, rel: Chunk -> Chunk, reg: (int, int))
    ensures reg in Group(s, rel) <==> Listed(s, reg, rel) != []
    ensures reg in Group(s, rel) ==> Group(s, rel)[reg] == Listed(s, reg, rel)
  {
    if s != [] {
      GroupListed(s[..|s| - 1], rel, reg);
    }
  }

  /** What a region's list holds: the relative chunk of each visited chunk
      of that region, and nothing else. */
  lemma {:induction false} ListedMembers(s: seq<Chunk>, reg: (int, int), rel: Chunk -> Chunk, e: Chunk)
    ensures e in Listed(s, reg, rel) <==> exists c :: c in s && RegionOf(c) == reg && rel(c) == e
  {
    if s != [] {
      var t, d := s[..|s| - 1], s[|s| - 1];
      assert s == t + [d];
      ListedMembers(t, reg, rel, e);
      if e in Listed(s, reg, rel) && e !in Listed(t, reg, rel) {
        assert RegionOf(d) == reg && rel(d) == e;
      }
    }
  }

  /** When `rel` tells the chunks of region `reg` apart, each chunk of the
      region is listed as often as it was visited. */
  lemma {:induction false} ListedCount(s: seq<Chunk>, reg: (int, int), rel: Chunk -> Chunk, c: Chunk)
    requires RegionOf(c) == reg
    requires forall d :: RegionOf(d) == reg && rel(d) == rel(c) ==> d == c
    ensures multiset(Listed(s, reg, rel))[rel(c)] == multiset(s)[c]
  {
    if s != [] {
      var t, d := s[..|s| - 1], s[|s| - 1];
      assert s == t + [d];
      ListedCount(t, reg, rel, c);
    }
  }

  /** Two different chunks of region `reg` that `rel` sends to the same
      relative chunk are both listed under that relative chunk. */
  lemma {:induction false} ListedCollision(s: seq<Chunk>, reg: (int, int), rel: Chunk -> Chunk, c: Chunk, d: Chunk)
    requires c != d && RegionOf(c) == reg && RegionOf(d) == reg && rel(c) == rel(d)
    ensures multiset(Listed(s, reg, rel))[rel(c)] >= multiset(s)[c] + multiset(s)[d]
  {
    if s != [] {
      var t, x := s[..|s| - 1], s[|s| - 1];
      assert s == t + [x];
      ListedCollision(t, reg, rel, c, d);
    }
  }

  /** Every block column of the square `centre ± radius` lies in a chunk of
      the walked rectangle. */
  lemma SquareInRect(xc: int, zc: int, radius: int, bx: int, bz: int)
    requires xc - radius <= bx <= xc + radius && zc - radius <= bz <= zc + radius
    ensures var b := ChunkBounds(xc, zc, radius);
            var c := BlockToChunk(bx, bz);
            b.0 <= c.0 <= b.1 && b.2 <= c.1 <= b.3
  {
  }

  /** Conversely, the block range of every chunk of the rectangle meets the
      interval `centre ± radius` on each axis. */
  lemma RectMeetsSquare(xc: int, zc: int, radius: int, c: Chunk)
    requires var b := ChunkBounds(xc, zc, radius); b.0 <= c.0 <= b.1 && b.2 <= c.1 <= b.3
    ensures var blocks := ChunkToBlock(c.0, c.1);
            blocks.0.lo <= xc + radius && xc - radius <= blocks.0.hi &&
            blocks.1.lo <= zc + radius && zc - radius <= blocks.1.hi
  {
  }

  /** With region-relative chunks, every chunk of the rectangle appears
      exactly once, under its own region. */
  lemma RegionsOnce(xc: int, zc: int, radius: int, c: Chunk)
    requires var b := ChunkBounds(xc, zc, radius); b.0 <= c.0 <= b.1 && b.2 <= c.1 <= b.3
    ensures var g := RegionsOf(xc, zc, radius, Rel32);
            RegionOf(c) in g && g[RegionOf(c)].Chunks? && multiset(g[RegionOf(c)].rel)[Rel32(c)] == 1
  {
    var b := ChunkBounds(xc, zc, radius);
    var s := Rect(b.0, b.1, b.2, b.3);
    var reg := RegionOf(c);
    forall d | RegionOf(d) == reg && Rel32(d) == Rel32(c) ensures d == c {
    }
    ListedCount(s, reg, Rel32, c);
    RectCount(b.0, b.1, b.2, b.3, c);
    GroupListed(s, Rel32, reg);
  }

  /** And every listed chunk is one of the rectangle's: region `reg` lists
      `e` only when chunk 32 * reg + e was walked. */
  lemma RegionsOnly(xc: int, zc: int, radius: int, reg: (int, int), e: Chunk)
    requires var g := RegionsOf(xc, zc, radius, Rel32); reg in g && g[reg].Chunks? && e in g[reg].rel
    ensures 0 <= e.0 < CHUNKS_REGION && 0 <= e.1 < CHUNKS_REGION
    ensures var b := ChunkBounds(xc, zc, radius);
            b.0 <= CHUNKS_REGION * reg.0 + e.0 <= b.1 && b.2 <= CHUNKS_REGION * reg.1 + e.1 <= b.3
  {
    var b := ChunkBounds(xc, zc, radius);
    var s := Rect(b.0, b.1, b.2, b.3);
    GroupListed(s, Rel32, reg);
    ListedMembers(s, reg, Rel32, e);
    var c :| c in s && RegionOf(c) == reg && Rel32(c) == e;
    RectCount(b.0, b.1, b.2, b.3, c);
  }

  /** Every block column of the area `get_area` returns is read: its chunk is
      listed under its region. */
  lemma AreaColumnsListed(coords: seq<int>, radius: int, vertical: bool, bx: int, bz: int)
    requires |coords| >= 3
    requires var area := GetArea(None, coords, radius, vertical).value.value;
             area.0[0] <= bx <= area.1[0] && area.0[2] <= bz <= area.1[2]
    ensures var c := BlockToChunk(bx, bz);
            var g := RegionsOf(coords[0], coords[2], radius, Rel32);
            RegionOf(c) in g && g[RegionOf(c)].Chunks? && Rel32(c) in g[RegionOf(c)].rel
  {
    var area := GetArea(None, coords, radius, vertical).value.value;
    assert area.0[0] == coords[0] - radius && area.1[0] == coords[0] + radius;
    assert area.0[2] == coords[2] - radius && area.1[2] == coords[2] + radius;
    SquareInRect(coords[0], coords[2], radius, bx, bz);
    RegionsOnce(coords[0], coords[2], radius, BlockToChunk(bx, bz));
  }

  /** As written, any search whose rectangle holds chunks (0, 0) and (16, 0)
      (the centre (128, 64, 0) with radius 128 walks chunks 0 to 16 along x
      and -8 to 8 along z) lists relative chunk (0, 0) of region (0, 0) at
      least twice: both chunks lie in that region and both are recorded as
      (0, 0), so chunk (16, 0) of the region is never named. */
  lemma AsWrittenRepeatsChunk(xc: int, zc: int, radius: int)
    requires var b := ChunkBounds(xc, zc, radius); b.0 <= 0 && 16 <= b.1 && b.2 <= 0 <= b.3
    ensures var g := RegionsOf(xc, zc, radius, Rel16);
            (0, 0) in g && g[(0, 0)].Chunks? && multiset(g[(0, 0)].rel)[(0, 0)] >= 2
  {
    var b := ChunkBounds(xc, zc, radius);
    var s := Rect(b.0, b.1, b.2, b.3);
    RectCount(b.0, b.1, b.2, b.3, (0, 0));
    RectCount(b.0, b.1, b.2, b.3, (16, 0));
    var other := (16, 0);
    FloorUnique(other.0, CHUNKS_REGION, RegionOf(other).0, 0);
    FloorUnique(other.1, CHUNKS_REGION, RegionOf(other).1, 0);
    assert Rel16(other) == (0, 0);
    ListedCollision(s, (0, 0), Rel16, (0, 0), other);
    GroupListed(s, Rel16, (0, 0));
  }

  /** The centre and radius named above walk that rectangle. */
  lemma CollisionExample()
    ensures ChunkBounds(128, 0, 128) == (0, 16, -8, 8)
  {
  }

  /** The two nested loops of `get_regions`, with the relative-chunk rule
      passed in: the dictionary of region lists and the chunk counter. */
  method CollectRegions(xmin: int, xmax: int, zmin: int, zmax: int, rel: Chunk -> Chunk)
    returns (regions: map<(int, int), seq<Chunk>>, numberChunks: nat)
    ensures regions == Group(Rect(xmin, xmax, zmin, zmax), rel)
    ensures numberChunks == |Rect(xmin, xmax, zmin, zmax)|
  {
    regions, numberChunks := map[], 0;
    var chunkX := xmin;
    while chunkX < xmax + 1
      invariant xmin <= chunkX && (chunkX <= xmax + 1 || chunkX == xmin)
      invariant regions == Group(Rect(xmin, chunkX - 1, zmin, zmax), rel)
      invariant numberChunks == |Rect(xmin, chunkX - 1, zmin, zmax)|
      decreases xmax + 1 - chunkX
    {
      regions, numberChunks := CollectColumn(chunkX, zmin, zmax, rel, regions, numberChunks, Rect(xmin, chunkX - 1, zmin, zmax));
      chunkX := chunkX + 1;
    }
  }

  /** The inner loop of `get_regions`: the chunks (chunkX, z) for z from zmin
      to zmax, visited after the chunks of `done`. */
  method CollectColumn(chunkX: int, zmin: int, zmax: int, rel: Chunk -> Chunk,
                       regions0: map<(int, int), seq<Chunk>>, numberChunks0: nat, ghost done: seq<Chunk>)
    returns (regions: map<(int, int), seq<Chunk>>, numberChunks: nat)
    requires regions0 == Group(done, rel) && numberChunks0 == |done|
    ensures regions == Group(done + Row(chunkX, zmin, zmax), rel)
    ensures numberChunks == |done + Row(chunkX, zmin, zmax)|
  {
    regions, numberChunks := regions0, numberChunks0;
    ghost var visited := done;
    var chunkZ := zmin;
    while chunkZ < zmax + 1
      invariant zmin <= chunkZ && (chunkZ <= zmax + 1 || chunkZ == zmin)
      invariant visited == done + Row(chunkX, zmin, chunkZ - 1)
      invariant regions == Group(visited, rel) && numberChunks == |visited|
      decreases zmax + 1 - chunkZ
    {
      var chunk := (chunkX, chunkZ);
      var relChunk := rel(chunk);
      numberChunks := numberChunks + 1;
      var reg := RegionOf(chunk);
      if reg in regions {
        regions := regions[reg := regions[reg] + [relChunk]];
      } else {
        regions := regions[reg := [relChunk]];
      }
      GroupSnoc(visited, chunk, rel);
      visited := visited + [chunk];
      chunkZ := chunkZ + 1;
    }
  }

  lemma GroupSnoc(s: seq<Chunk>, c: Chunk, rel: Chunk -> Chunk)
    ensures Group(s + [c], rel) == Add(Group(s, rel), c, rel)
  {
    assert (s + [c])[..|s|] == s;
  }

  /** `get_regions(region, coords, radius)` as written (`vertical` is not
      used): with a region the log line reads `number_chunks`, which only the
      other branch assigns, so the call fails; otherwise the chunks are
      recorded modulo 16. */
  method GetRegionsAsWritten(region: Option<Chunk>, coords: seq<int>, radius: int)
    returns (r: Result<map<(int, int), Selection>>)
    ensures region.Some? ==> r == Err(UnboundLocalError)
    ensures region.None? && |coords| < 3 ==> r == Err(IndexError)
    ensures region.None? && |coords| >= 3 ==> r == Ok(RegionsOf(coords[0], coords[2], radius, Rel16))
  {
    if region.Some? {
      return Err(UnboundLocalError);
    }
    if |coords| < 3 {
      return Err(IndexError);
    }
    var b := ChunkBounds(coords[0], coords[2], radius);
    var regions, numberChunks := CollectRegions(b.0, b.1, b.2, b.3, Rel16);
    r := Ok(map reg | reg in regions :: Chunks(regions[reg]));
  }

  /** `get_regions` as evidently intended: a given region is read whole, and
      the walked chunks are recorded relative to their region. */
  method GetRegions(region: Option<Chunk>, coords: seq<int>, radius: int)
    returns (r: Result<map<(int, int), Selection>>)
    ensures region.Some? ==> r == Ok(map[region.value := All])
    ensures region.None? && |coords| < 3 ==> r == Err(IndexError)
    ensures region.None? && |coords| >= 3 ==> r == Ok(RegionsOf(coords[0], coords[2], radius, Rel32))
  {
    if region.Some? {
      return Ok(map[region.value := All]);
    }
    if |coords| < 3 {
      return Err(IndexError);
    }
    var b := ChunkBounds(coords[0], coords[2], radius);
    var regions, numberChunks := CollectRegions(b.0, b.1, b.2, b.3, Rel32);
    r := Ok(map reg | reg in regions :: Chunks(regions[reg]));
  }
}
