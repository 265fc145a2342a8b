/** The editor's reads (pyblock/editor.py): the saved world it reads chunks
    from, its two read-through caches, and the scans over a box of blocks
    that `list_blocks`, `find_blocks` and `copy_blocks` perform. */
module EditorReads {
  import opened Common
  import opened Tags
  import opened Blocks
  import opened EditorPlans

  /** A block entity: its position and the rest of its compound. */
  datatype Entity = Entity(x: int, y: int, z: int, data: Tag)

  /** What reading a chunk yields, as far as the editor uses it: the block
      list of each section level, and the chunk's block entities. */
  datatype LoadedChunk = LoadedChunk(sectionAt: int -> Result<seq<Block>>, blockEntities: seq<Entity>)

  /** The saved world under the editor's path:
      `Region(path, region).read_chunk(chunk)`, or the error reading raises. */
  type World = ChunkId -> Result<LoadedChunk>

  /** The section a fresh read of the world gives. */
  function SectionRead(world: World, sid: SectionId): Result<seq<Block>>
  {
    var chunk :- world((sid.0, sid.1));
    chunk.sectionAt(sid.2)
  }

  /** The block a fresh read of the world gives at an absolute position. */
  function WorldBlock(world: World, p: Point): Result<Block>
  {
    var s :- SectionRead(world, SectionOf(p));
    PyIndex(s, IndexOf(p))
  }

  /** The fresh reads of the world, position by position. */
  function WorldReads(world: World): Point -> Result<Block>
  {
    p => WorldBlock(world, p)
  }

  /** `read` gives what a fresh read of the world gives, at every position.
      (Stated over `WorldBlock` terms only, so that a scan that reads
      through `read` never unfolds the position arithmetic.) */
  ghost predicate ReadsWorld(world: World, read: Point -> Result<Block>)
  {
    forall p {:trigger WorldBlock(world, p)} :: read(p) == WorldBlock(world, p)
  }

  /** The blocks `read` gives at `ps`, in order, or the first read error. */
  function BlocksAt(read: Point -> Result<Block>, ps: seq<Point>): (r: Result<seq<Block>>)
    ensures r.Ok? ==> |r.value| == |ps|
  {
    if ps == [] then Ok([])
    else
      var bs :- BlocksAt(read, ps[..|ps| - 1]);
      var b :- read(ps[|ps| - 1]);
      Ok(bs + [b])
  }

  /** All reads succeed exactly when each position can be read, and then
      the blocks are those positions' blocks. */
  lemma {:induction false} BlocksAtMeaning(read: Point -> Result<Block>, ps: seq<Point>)
    ensures BlocksAt(read, ps).Ok? <==> forall i :: 0 <= i < |ps| ==> read(ps[i]).Ok?
    ensures BlocksAt(read, ps).Ok? ==>
              |BlocksAt(read, ps).value| == |ps| &&
              forall i :: 0 <= i < |ps| ==> read(ps[i]) == Ok(BlocksAt(read, ps).value[i])
  {
    if ps != [] {
      BlocksAtMeaning(read, ps[..|ps| - 1]);
      if BlocksAt(read, ps[..|ps| - 1]).Err? {
        var i :| 0 <= i < |ps| - 1 && read(ps[..|ps| - 1][i]).Err?;
        assert read(ps[i]).Err?;
      }
    }
  }

  /** How many positions of `ps` are read before the first read error:
      all of them when no read fails. */
  function ReadCount(read: Point -> Result<Block>, ps: seq<Point>): (n: nat)
    ensures n <= |ps|
    ensures forall i :: 0 <= i < n ==> read(ps[i]).Ok?
    ensures n < |ps| ==> read(ps[n]).Err?
  {
    if ps == [] then 0
    else
      var q := ps[..|ps| - 1];
      assert forall i :: 0 <= i < |q| ==> q[i] == ps[i];
      var n := ReadCount(read, q);
      if n < |q| then n else if read(ps[|ps| - 1]).Ok? then |ps| else |q|
  }

  // ------------------------------------------------------------ the caches

  /** The editor's read caches: `sections` by section id, and `chunks` with
      the order in which they were first read. */
  datatype Cache = Cache(sections: map<SectionId, seq<Block>>, order: seq<ChunkId>, chunks: map<ChunkId, LoadedChunk>)

  /** Every cached chunk and section is what the world holds, and each chunk
      was read once. A cached chunk's entities may differ from the saved
      ones: `copy_blocks` moves them in place. */
  ghost predicate Coherent(world: World, c: Cache)
  {
    (forall i, j :: 0 <= i < j < |c.order| ==> c.order[i] != c.order[j]) &&
    (forall k :: k in c.chunks <==> k in c.order) &&
    (forall k :: k in c.chunks ==> world(k).Ok? && world(k).value.sectionAt == c.chunks[k].sectionAt) &&
    (forall sid :: sid in c.sections ==> SectionRead(world, sid) == Ok(c.sections[sid]))
  }

  /** Nothing cached is forgotten or replaced, and chunks read later come after. */
  ghost predicate Grows(c: Cache, d: Cache)
  {
    c.order <= d.order &&
    (forall k :: k in c.chunks ==> k in d.chunks && d.chunks[k] == c.chunks[k]) &&
    (forall sid :: sid in c.sections ==> sid in d.sections && d.sections[sid] == c.sections[sid])
  }

  /** The chunks cached since c are the world's chunks as read. */
  ghost predicate Fresh(world: World, c: Cache, d: Cache)
  {
    forall k :: k in d.chunks && k !in c.chunks ==> world(k) == Ok(d.chunks[k])
  }

  lemma GrowsTransitive(c: Cache, d: Cache, e: Cache)
    requires Grows(c, d) && Grows(d, e)
    ensures Grows(c, e)
  {
  }

  lemma FreshTransitive(world: World, c: Cache, d: Cache, e: Cache)
    requires Grows(d, e) && Fresh(world, c, d) && Fresh(world, d, e)
    ensures Fresh(world, c, e)
  {
  }

  /** `get_section`: the chunk from the cache, else read it and cache it. */
  function LoadSection(world: World, c: Cache, sid: SectionId): (Cache, Result<seq<Block>>)
  {
    var key := (sid.0, sid.1);
    if key in c.chunks then (c, c.chunks[key].sectionAt(sid.2))
    else match world(key)
      case Err(e) => (c, Err(e))
      case Ok(chunk) => (c.(order := c.order + [key], chunks := c.chunks[key := chunk]), chunk.sectionAt(sid.2))
  }

  /** Reading a section through the chunk cache gives what a fresh read
      gives; a chunk already cached is not read again, and a chunk read is
      cached once, at the end of the order. */
  lemma LoadSectionReads(world: World, c: Cache, sid: SectionId)
    requires Coherent(world, c)
    ensures LoadSection(world, c, sid).1 == SectionRead(world, sid)
    ensures Coherent(world, LoadSection(world, c, sid).0) && Grows(c, LoadSection(world, c, sid).0)
    ensures Fresh(world, c, LoadSection(world, c, sid).0)
    ensures (sid.0, sid.1) in c.chunks ==> LoadSection(world, c, sid).0 == c
    ensures LoadSection(world, c, sid).0.sections == c.sections
  {
  }

  /** `get_block`: the section from the cache, else load and cache it, then
      the block at the position's index. */
  function LoadBlock(world: World, c: Cache, p: Point): (Cache, Result<Block>)
  {
    var sid := SectionOf(p);
    if sid in c.sections then (c, PyIndex(c.sections[sid], IndexOf(p)))
    else
      var loaded := LoadSection(world, c, sid);
      match loaded.1
      case Err(e) => (loaded.0, Err(e))
      case Ok(s) => (loaded.0.(sections := loaded.0.sections[sid := s]), PyIndex(s, IndexOf(p)))
  }

  /** Reading a block through both caches gives the world's block, and a
      cached section is neither read nor replaced. */
  lemma LoadBlockReads(world: World, c: Cache, p: Point)
    requires Coherent(world, c)
    ensures LoadBlock(world, c, p).1 == WorldBlock(world, p)
    ensures Coherent(world, LoadBlock(world, c, p).0) && Grows(c, LoadBlock(world, c, p).0)
    ensures Fresh(world, c, LoadBlock(world, c, p).0)
    ensures SectionOf(p) in c.sections ==> LoadBlock(world, c, p).0 == c
  {
    LoadSectionReads(world, c, SectionOf(p));
  }

  /** One more position read. */
  lemma BlocksAtSnoc(read: Point -> Result<Block>, ps: seq<Point>, p: Point)
    ensures BlocksAt(read, ps + [p]) ==
      if BlocksAt(read, ps).Err? then BlocksAt(read, ps)
      else if read(p).Err? then Err(read(p).error)
      else Ok(BlocksAt(read, ps).value + [read(p).value])
  {
    assert (ps + [p])[..|ps|] == ps;
  }

  // ------------------------------------------------------------ the boxes

  /** The position lies in the half-open box [start, end). */
  predicate InBox(p: Point, start: Point, end: Point)
  {
    start.0 <= p.0 < end.0 && start.1 <= p.1 < end.1 && start.2 <= p.2 < end.2
  }

  /** y from y0 to y0 + n - 1 at column (x, z). */
  function YLine(x: int, z: int, y0: int, n: int): seq<Point>
    decreases n
  {
    if n <= 0 then [] else YLine(x, z, y0, n - 1) + [(x, y0 + n - 1, z)]
  }

  /** z from z0 to z0 + nz - 1, each column bottom to top. */
  function ZYSlab(x: int, z0: int, nz: int, y0: int, ny: int): seq<Point>
    decreases nz
  {
    if nz <= 0 then [] else ZYSlab(x, z0, nz - 1, y0, ny) + YLine(x, z0 + nz - 1, y0, ny)
  }

  /** The box of sizes nx, nz, ny at (x0, y0, z0) with x outermost, then z,
      then y: the loop order of `list_blocks` and `find_blocks`. */
  function XZYBox(x0: int, nx: int, z0: int, nz: int, y0: int, ny: int): seq<Point>
    decreases nx
  {
    if nx <= 0 then [] else XZYBox(x0, nx - 1, z0, nz, y0, ny) + ZYSlab(x0 + nx - 1, z0, nz, y0, ny)
  }

  /** The positions `list_blocks` and `find_blocks` visit: exactly those of
      the box [start, end). */
  function Span(start: Point, end: Point): seq<Point>
  {
    XZYBox(start.0, end.0 - start.0, start.2, end.2 - start.2, start.1, end.1 - start.1)
  }

  /** z from z0 to z0 + n - 1 at (x, y). */
  function ZLine(x: int, y: int, z0: int, n: int): seq<Point>
    decreases n
  {
    if n <= 0 then [] else ZLine(x, y, z0, n - 1) + [(x, y, z0 + n - 1)]
  }

  /** y from y0 to y0 + ny - 1, each row along z. */
  function YZSlab(x: int, y0: int, ny: int, z0: int, nz: int): seq<Point>
    decreases ny
  {
    if ny <= 0 then [] else YZSlab(x, y0, ny - 1, z0, nz) + ZLine(x, y0 + ny - 1, z0, nz)
  }

  /** The box with x outermost, then y, then z: the loop order of `copy_blocks`. */
  function XYZBox(x0: int, nx: int, y0: int, ny: int, z0: int, nz: int): seq<Point>
    decreases nx
  {
    if nx <= 0 then [] else XYZBox(x0, nx - 1, y0, ny, z0, nz) + YZSlab(x0 + nx - 1, y0, ny, z0, nz)
  }

  /** The source positions `copy_blocks` visits: exactly those of the box
      [s, s + w). */
  function Cuboid(s: Point, w: Point): seq<Point>
  {
    XYZBox(s.0, w.0, s.1, w.1, s.2, w.2)
  }

  lemma InAppend<T>(a: seq<T>, b: seq<T>, v: T)
    ensures v in a + b <==> v in a || v in b
  {
  }

  /** Membership in a + b, from membership in each part. */
  lemma AppendMembers<T>(s: seq<T>, a: seq<T>, b: seq<T>, v: T, inA: bool, inB: bool)
    requires s == a + b && (v in a <==> inA) && (v in b <==> inB)
    ensures v in s <==> inA || inB
  {
  }

  lemma {:induction false} YLineMembers(x: int, z: int, y0: int, n: int, p: Point)
    ensures p in YLine(x, z, y0, n) <==> p.0 == x && p.2 == z && y0 <= p.1 < y0 + n
    decreases n
  {
    if n > 0 {
      YLineMembers(x, z, y0, n - 1, p);
    }
  }

  lemma {:induction false} ZYSlabMembers(x: int, z0: int, nz: int, y0: int, ny: int, p: Point)
    ensures p in ZYSlab(x, z0, nz, y0, ny) <==> p.0 == x && y0 <= p.1 < y0 + ny && z0 <= p.2 < z0 + nz
    decreases nz
  {
    if nz > 0 {
      var a, b := ZYSlab(x, z0, nz - 1, y0, ny), YLine(x, z0 + nz - 1, y0, ny);
      ZYSlabMembers(x, z0, nz - 1, y0, ny, p);
      YLineMembers(x, z0 + nz - 1, y0, ny, p);
      InAppend(a, b, p);
    }
  }

  lemma {:induction false} XZYBoxMembers(x0: int, nx: int, z0: int, nz: int, y0: int, ny: int, p: Point)
    ensures p in XZYBox(x0, nx, z0, nz, y0, ny) <==> x0 <= p.0 < x0 + nx && y0 <= p.1 < y0 + ny && z0 <= p.2 < z0 + nz
    decreases nx
  {
    if nx > 0 {
      XZYBoxMembers(x0, nx - 1, z0, nz, y0, ny, p);
      ZYSlabMembers(x0 + nx - 1, z0, nz, y0, ny, p);
      XZYBoxLast(x0, nx, z0, nz, y0, ny, p);
    }
  }

  /** The box of nx slabs is that of nx - 1 slabs and the last slab. */
  lemma XZYBoxLast(x0: int, nx: int, z0: int, nz: int, y0: int, ny: int, p: Point)
    requires nx > 0
    requires p in XZYBox(x0, nx - 1, z0, nz, y0, ny) <==> x0 <= p.0 < x0 + (nx - 1) && y0 <= p.1 < y0 + ny && z0 <= p.2 < z0 + nz
    requires p in ZYSlab(x0 + nx - 1, z0, nz, y0, ny) <==> p.0 == x0 + nx - 1 && y0 <= p.1 < y0 + ny && z0 <= p.2 < z0 + nz
    ensures p in XZYBox(x0, nx, z0, nz, y0, ny) <==> x0 <= p.0 < x0 + nx && y0 <= p.1 < y0 + ny && z0 <= p.2 < z0 + nz
  {
    var between := y0 <= p.1 < y0 + ny && z0 <= p.2 < z0 + nz;
    AppendMembers(XZYBox(x0, nx, z0, nz, y0, ny), XZYBox(x0, nx - 1, z0, nz, y0, ny), ZYSlab(x0 + nx - 1, z0, nz, y0, ny), p,
                  x0 <= p.0 < x0 + (nx - 1) && between, p.0 == x0 + nx - 1 && between);
  }

  /** `list_blocks` and `find_blocks` visit exactly the positions of the box
      [start, end). */
  lemma SpanMembers(start: Point, end: Point, p: Point)
    ensures p in Span(start, end) <==> InBox(p, start, end)
  {
    XZYBoxMembers(start.0, end.0 - start.0, start.2, end.2 - start.2, start.1, end.1 - start.1, p);
  }

  lemma {:induction false} ZLineMembers(x: int, y: int, z0: int, n: int, p: Point)
    ensures p in ZLine(x, y, z0, n) <==> p.0 == x && p.1 == y && z0 <= p.2 < z0 + n
    decreases n
  {
    if n > 0 {
      ZLineMembers(x, y, z0, n - 1, p);
    }
  }

  lemma {:induction false} YZSlabMembers(x: int, y0: int, ny: int, z0: int, nz: int, p: Point)
    ensures p in YZSlab(x, y0, ny, z0, nz) <==> p.0 == x && y0 <= p.1 < y0 + ny && z0 <= p.2 < z0 + nz
    decreases ny
  {
    if ny > 0 {
      var a, b := YZSlab(x, y0, ny - 1, z0, nz), ZLine(x, y0 + ny - 1, z0, nz);
      YZSlabMembers(x, y0, ny - 1, z0, nz, p);
      ZLineMembers(x, y0 + ny - 1, z0, nz, p);
      InAppend(a, b, p);
    }
  }

  lemma {:induction false} XYZBoxMembers(x0: int, nx: int, y0: int, ny: int, z0: int, nz: int, p: Point)
    ensures p in XYZBox(x0, nx, y0, ny, z0, nz) <==> x0 <= p.0 < x0 + nx && y0 <= p.1 < y0 + ny && z0 <= p.2 < z0 + nz
    decreases nx
  {
    if nx > 0 {
      XYZBoxMembers(x0, nx - 1, y0, ny, z0, nz, p);
      YZSlabMembers(x0 + nx - 1, y0, ny, z0, nz, p);
      XYZBoxLast(x0, nx, y0, ny, z0, nz, p);
    }
  }

  /** The box of nx slabs is that of nx - 1 slabs and the last slab. */
  lemma XYZBoxLast(x0: int, nx: int, y0: int, ny: int, z0: int, nz: int, p: Point)
    requires nx > 0
    requires p in XYZBox(x0, nx - 1, y0, ny, z0, nz) <==> x0 <= p.0 < x0 + (nx - 1) && y0 <= p.1 < y0 + ny && z0 <= p.2 < z0 + nz
    requires p in YZSlab(x0 + nx - 1, y0, ny, z0, nz) <==> p.0 == x0 + nx - 1 && y0 <= p.1 < y0 + ny && z0 <= p.2 < z0 + nz
    ensures p in XYZBox(x0, nx, y0, ny, z0, nz) <==> x0 <= p.0 < x0 + nx && y0 <= p.1 < y0 + ny && z0 <= p.2 < z0 + nz
  {
    var between := y0 <= p.1 < y0 + ny && z0 <= p.2 < z0 + nz;
    AppendMembers(XYZBox(x0, nx, y0, ny, z0, nz), XYZBox(x0, nx - 1, y0, ny, z0, nz), YZSlab(x0 + nx - 1, y0, ny, z0, nz), p,
                  x0 <= p.0 < x0 + (nx - 1) && between, p.0 == x0 + nx - 1 && between);
  }

  /** `copy_blocks` visits exactly the source positions of the box [s, s + w). */
  lemma CuboidMembers(s: Point, w: Point, p: Point)
    ensures p in Cuboid(s, w) <==> InBox(p, s, (s.0 + w.0, s.1 + w.1, s.2 + w.2))
  {
    XYZBoxMembers(s.0, w.0, s.1, w.1, s.2, w.2, p);
  }

  /** Once a read fails, reading further positions keeps that first error. */
  lemma {:induction false} BlocksAtPrefix(read: Point -> Result<Block>, a: seq<Point>, b: seq<Point>)
    requires a <= b && BlocksAt(read, a).Err?
    ensures BlocksAt(read, b) == BlocksAt(read, a)
    decreases |b|
  {
    if |b| > |a| {
      assert a <= b[..|b| - 1];
      BlocksAtPrefix(read, a, b[..|b| - 1]);
    } else {
      assert a == b;
    }
  }

  /** A read error anywhere in the box makes reading the whole box fail. */
  lemma ErrorInSpan(read: Point -> Result<Block>, start: Point, end: Point, e: Error)
    requires exists p :: InBox(p, start, end) && read(p) == Err(e)
    ensures BlocksAt(read, Span(start, end)).Err?
  {
    var p :| InBox(p, start, end) && read(p) == Err(e);
    SpanMembers(start, end, p);
    BlocksAtMeaning(read, Span(start, end));
    var i :| 0 <= i < |Span(start, end)| && Span(start, end)[i] == p;
  }
}
