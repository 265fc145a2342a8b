/** The world editor of pyblock/editor.py: it records block changes per
    section, reads blocks through a chunk cache and a section cache, copies
    boxes of blocks with their block entities, and finally writes every
    touched section back, region by region. The saved world it reads is a
    parameter; what it writes is returned as the region writes issued. */
module Editing {
  import opened Common
  import opened Tools
  import opened Blocks
  import opened Mazes
  import opened EditorPlans
  import opened EditorReads
  import opened EditorResults
  import opened EditorScans
  import opened EditorEntities
  import opened EditorFlush
  import opened Tags
  import Regions

  /** The path names a folder called "region". */
  predicate EndsInRegion(s: string)
  {
    |s| >= 6 && s[|s| - 6..] == "region"
  }

  /** The folder the editor reads regions from: the given path when it
      already ends in "region", else its "region" sub-folder. */
  function RegionFolder(path: string): (r: string)
    ensures EndsInRegion(r)
    ensures path <= r
    ensures r == path <==> EndsInRegion(path)
    ensures r != path ==> r[|path|..] == "/region"
  {
    if EndsInRegion(path) then path else path + "/region"
  }

  /** The loop of `done` over one section's pending list:
      `section.set_block(*update)` for each change, in order, until one
      raises `IndexError`. */
  method ApplyChanges(s: seq<Block>, changes: seq<Change>) returns (r: seq<Block>, failure: Option<Error>)
    ensures (r, failure) == Apply(s, changes)
  {
    r := s;
    var i := 0;
    while i < |changes|
      invariant 0 <= i <= |changes|
      invariant Apply(s, changes[..i]) == (r, None)
    {
      assert changes[..i + 1][..i] == changes[..i];
      var c := changes[i];
      if !(-|r| <= c.1 < |r|) {
        ApplyStops(s, changes, i + 1);
        return r, Some(IndexError);
      }
      r := r[Normalize(c.1, |r|) := c.0];
      i := i + 1;
    }
    assert changes[..i] == changes;
    failure := None;
  }

  class Editor {
    /** The region folder of the world. */
    const path: string
    /** The saved world under `path`. */
    const world: World
    /** The pending changes: for each section id, its (block, index) list. */
    var blocksMap: Lists<SectionId, Change>
    /** The read cache of `get_block`, by section id. */
    var sections: map<SectionId, seq<Block>>
    /** The chunk cache of `get_section`, with the order of first reads. */
    var chunkOrder: seq<ChunkId>
    var chunks: map<ChunkId, LoadedChunk>
    /** The sections `done` has fetched and changed, by section id. */
    var writeSections: map<SectionId, seq<Block>>
    /** The block entities recorded by the last copy, by destination chunk. */
    var entities: Lists<ChunkId, Entity>
    /** Every `set_block` call so far, in order. */
    ghost var log: seq<Write>

    ghost function Caches(): Cache
      reads this`sections, this`chunkOrder, this`chunks
    {
      Cache(sections, chunkOrder, chunks)
    }

    /** The pending changes are those of the `set_block` calls logged.
        (Stated for the one n that is |log|, so that the plan is unfolded
        only where it is asked for.) */
    ghost predicate Recorded()
      reads this`blocksMap, this`log
    {
      forall n: nat {:trigger PlannedUpTo(log, n)} :: n == |log| ==> blocksMap == PlannedUpTo(log, n)
    }

    /** The pending changes are those logged, the entity record lists each
        key once, every recorded entity lies in the chunk it is filed under,
        and the caches hold what the world holds. */
    ghost predicate Valid()
      reads this`blocksMap, this`log, this`entities, this`sections, this`chunkOrder, this`chunks
    {
      Recorded() && Indexed() && Cached()
    }

    /** The entity record lists each key once and files every entity under
        its chunk. */
    ghost predicate Indexed()
      reads this`entities
    {
      Ordered(entities) && Filed(entities)
    }

    /** The caches hold what the world holds. */
    ghost predicate Cached()
      reads this`sections, this`chunkOrder, this`chunks
    {
      Coherent(world, Caches())
    }

    /** `Editor(path)`: nothing recorded, nothing cached. */
    constructor (path: string, world: World)
      ensures this.path == RegionFolder(path) && this.world == world
      ensures blocksMap == Empty() && entities == Empty() && writeSections == map[] && log == []
      ensures sections == map[] && chunkOrder == [] && chunks == map[]
      ensures Valid()
    {
      this.path := RegionFolder(path);
      this.world := world;
      blocksMap := Empty();
      sections := map[];
      chunkOrder := [];
      chunks := map[];
      writeSections := map[];
      entities := Empty();
      log := [];
    }

    /** `set_block`: the change is appended to the list of the position's
        section. */
    method SetBlock(block: Block, x: int, y: int, z: int)
      requires Recorded()
      modifies this`blocksMap, this`log
      ensures Recorded() && log == old(log) + [(block, (x, y, z))]
    {
      PlannedUpToPrefix(log, log + [(block, (x, y, z))], |log|);
      var t := BlockToIdIndex(x, y, z);
      var sectionId := (t.0, t.1, t.2);
      blocksMap := Push(blocksMap, sectionId, (block, t.3));
      log := log + [(block, (x, y, z))];
    }

    /** `get_section`: the section a fresh read of the world gives, with its
        chunk cached on first use. */
    method GetSection(sectionId: SectionId) returns (r: Result<seq<Block>>)
      requires Coherent(world, Caches())
      modifies this`chunkOrder, this`chunks
      ensures Coherent(world, Caches())
      ensures r == SectionRead(world, sectionId)
      ensures Caches() == LoadSection(world, old(Caches()), sectionId).0
    {
      LoadSectionReads(world, Caches(), sectionId);
      var chunkId := (sectionId.0, sectionId.1);
      var chunk: LoadedChunk;
      if chunkId in chunks {
        chunk := chunks[chunkId];
      } else {
        var read := world(chunkId);
        if read.Err? {
          return Err(read.error);
        }
        chunk := read.value;
        chunks := chunks[chunkId := chunk];
        chunkOrder := chunkOrder + [chunkId];
      }
      r := chunk.sectionAt(sectionId.2);
    }

    /** `get_block`: the block a fresh read of the world gives, with its
        section cached on first use. */
    method GetBlock(x: int, y: int, z: int) returns (r: Result<Block>)
      requires Coherent(world, Caches())
      modifies this`sections, this`chunkOrder, this`chunks
      ensures Coherent(world, Caches())
      ensures r == WorldBlock(world, (x, y, z))
      ensures Caches() == LoadBlock(world, old(Caches()), (x, y, z)).0
    {
      LoadBlockReads(world, Caches(), (x, y, z));
      var t := BlockToIdIndex(x, y, z);
      var sectionId := (t.0, t.1, t.2);
      if sectionId !in sections {
        var section := GetSection(sectionId);
        if section.Err? {
          return Err(section.error);
        }
        sections := sections[sectionId := section.value];
      }
      r := PyIndex(sections[sectionId], t.3);
    }

    // ------------------------------------------------------------ planning

    /** The fill of one column of `place_piece`: y1 + 1 to y1 + height. */
    method PlaceFill(x: int, y1: int, z: int, fill: Block, height: int)
      requires Recorded()
      modifies this`blocksMap, this`log
      ensures Recorded() && log == old(log) + Fill(x, y1, z, fill, height)
    {
      var n := 0;
      while n < height
        invariant 0 <= n && (n <= height || n == 0)
        invariant Recorded() && log == old(log) + Fill(x, y1, z, fill, n)
      {
        ghost var w := (fill, (x, y1 + n + 1, z));
        assert Fill(x, y1, z, fill, n + 1) == Fill(x, y1, z, fill, n) + [w];
        AppendAssoc(old(log), Fill(x, y1, z, fill, n), [w]);
        SetBlock(fill, x, y1 + n + 1, z);
        n := n + 1;
      }
      assert Fill(x, y1, z, fill, n) == Fill(x, y1, z, fill, height);
    }

    /** One column of `place_piece`: the floor, the fill above it, the
        ceiling. */
    method PlaceColumn(x: int, y1: int, z: int, floor: Block, fill: Block, ceil: Block, height: int)
      requires Recorded()
      modifies this`blocksMap, this`log
      ensures Recorded() && log == old(log) + PieceColumn(x, y1, z, floor, fill, ceil, height)
    {
      ghost var first, fills, last := [(floor, (x, y1, z))], Fill(x, y1, z, fill, height), [(ceil, (x, y1 + height + 1, z))];
      AppendAssoc(old(log), first, fills);
      AppendAssoc(old(log), first + fills, last);
      SetBlock(floor, x, y1, z);
      PlaceFill(x, y1, z, fill, height);
      SetBlock(ceil, x, y1 + height + 1, z);
    }

    /** Row dx of `place_piece`: its columns dz = 0 .. mag - 1. */
    method PlaceRow(x1: int, y1: int, z1: int, floor: Block, fill: Block, ceil: Block, height: int, mag: int, dx: int)
      requires Recorded()
      modifies this`blocksMap, this`log
      ensures Recorded() && log == old(log) + PieceRow(x1, y1, z1, floor, fill, ceil, height, dx, mag)
    {
      var dz := 0;
      while dz < mag
        invariant 0 <= dz && (dz <= mag || dz == 0)
        invariant Recorded() && log == old(log) + PieceRow(x1, y1, z1, floor, fill, ceil, height, dx, dz)
      {
        AppendAssoc(old(log), PieceRow(x1, y1, z1, floor, fill, ceil, height, dx, dz), PieceColumn(x1 + dx, y1, z1 + dz, floor, fill, ceil, height));
        PlaceColumn(x1 + dx, y1, z1 + dz, floor, fill, ceil, height);
        dz := dz + 1;
      }
    }

    /** `place_piece`: the columns of the mag x mag square at (x1, z1), row
        by row. */
    method PlacePiece(x1: int, y1: int, z1: int, floor: Block, fill: Block, ceil: Block, height: int := 4, mag: int := 1)
      requires Recorded()
      modifies this`blocksMap, this`log
      ensures Recorded() && log == old(log) + Piece(x1, y1, z1, floor, fill, ceil, height, mag)
    {
      ghost var log0 := log;
      var dx := 0;
      while dx < mag
        invariant 0 <= dx && (dx <= mag || dx == 0)
        invariant Recorded() && log == log0 + PieceRows(x1, y1, z1, floor, fill, ceil, height, mag, dx)
      {
        PlaceNextRow(x1, y1, z1, floor, fill, ceil, height, mag, dx, log0);
        dx := dx + 1;
      }
    }

    /** One step of `place_piece`'s loop: rows 0 .. dx - 1 are logged after
        log0, row dx follows. */
    method PlaceNextRow(x1: int, y1: int, z1: int, floor: Block, fill: Block, ceil: Block, height: int, mag: int, dx: nat,
                        ghost log0: seq<Write>)
      requires Recorded() && log == log0 + PieceRows(x1, y1, z1, floor, fill, ceil, height, mag, dx)
      modifies this`blocksMap, this`log
      ensures Recorded() && log == log0 + PieceRows(x1, y1, z1, floor, fill, ceil, height, mag, dx + 1)
    {
      ghost var rows, row := PieceRows(x1, y1, z1, floor, fill, ceil, height, mag, dx), PieceRow(x1, y1, z1, floor, fill, ceil, height, dx, mag);
      assert PieceRows(x1, y1, z1, floor, fill, ceil, height, mag, dx + 1) == rows + row;
      AppendAssoc(log0, rows, row);
      PlaceRow(x1, y1, z1, floor, fill, ceil, height, mag, dx);
    }

    /** Cell (row, col) of `create_maze`: a piece with the wall block when
        the cell is a wall, with air when it is a path. */
    method PlaceMazeCell(matrix: seq<seq<int>>, row: int, col: int, x0: int, y0: int, z0: int,
                         floor: Block, wall: Block, ceil: Block, air: Block, height: int, mag: int)
      requires 0 <= row < |matrix| && 0 <= col < |matrix[row]| && Recorded()
      modifies this`blocksMap, this`log
      ensures Recorded()
      ensures log == old(log) + MazeCell(x0, y0, z0, floor, wall, ceil, air, height, mag)(row, col, matrix[row][col])
    {
      CellIsPiece(matrix, x0, y0, z0, floor, wall, ceil, air, height, mag, row, col);
      if matrix[row][col] != 0 {
        PlacePiece(x0 + mag * row, y0, z0 + mag * col, floor, wall, ceil, height, mag);
      } else {
        PlacePiece(x0 + mag * row, y0, z0 + mag * col, floor, air, ceil, height, mag);
      }
    }

    /** Row `row` of `create_maze`: the pieces of its cells. */
    method PlaceMazeRow(matrix: seq<seq<int>>, row: int, x0: int, y0: int, z0: int,
                        floor: Block, wall: Block, ceil: Block, air: Block, height: int, mag: int)
      requires 0 <= row < |matrix| && Recorded()
      modifies this`blocksMap, this`log
      ensures Recorded()
      ensures log == old(log) + GridRow(matrix, MazeCell(x0, y0, z0, floor, wall, ceil, air, height, mag), row, |matrix[row]|)
    {
      ghost var cell := MazeCell(x0, y0, z0, floor, wall, ceil, air, height, mag);
      var col := 0;
      while col < |matrix[row]|
        invariant 0 <= col <= |matrix[row]|
        invariant Recorded() && log == old(log) + GridRow(matrix, cell, row, col)
      {
        AppendAssoc(old(log), GridRow(matrix, cell, row, col), cell(row, col, matrix[row][col]));
        PlaceMazeCell(matrix, row, col, x0, y0, z0, floor, wall, ceil, air, height, mag);
        col := col + 1;
      }
    }

    /** The loop of `create_maze` over the rows of its matrix. */
    method PlaceMaze(matrix: seq<seq<int>>, x0: int, y0: int, z0: int,
                     floor: Block, wall: Block, ceil: Block, air: Block, height: int, mag: int)
      requires Recorded()
      modifies this`blocksMap, this`log
      ensures Recorded() && log == old(log) + MazeWrites(matrix, x0, y0, z0, floor, wall, ceil, air, height, mag)
    {
      ghost var cell := MazeCell(x0, y0, z0, floor, wall, ceil, air, height, mag);
      var row := 0;
      while row < |matrix|
        invariant 0 <= row <= |matrix|
        invariant Recorded() && log == old(log) + GridRows(matrix, cell, row)
      {
        AppendAssoc(old(log), GridRows(matrix, cell, row), GridRow(matrix, cell, row, |matrix[row]|));
        PlaceMazeRow(matrix, row, x0, y0, z0, floor, wall, ceil, air, height, mag);
        row := row + 1;
      }
    }

    /** `create_maze`: the piece of every cell of the maze's matrix, row by
        row, with the wall block on a wall cell and air on a path cell. */
    method CreateMaze(maze: Maze, coord: Point, blocks: (string, string, string), height: int := 4, mag: int := 1)
      requires maze.Valid() && Recorded()
      modifies this`blocksMap, this`log
      ensures Recorded()
      ensures exists matrix: seq<seq<int>> ::
        |matrix| == Max(maze.height, 0) &&
        (forall row :: 0 <= row < |matrix| ==> row < |maze.maze| && |matrix[row]| == Max(maze.width, 0) <= |maze.maze[row]|) &&
        (forall row, col :: 0 <= row < |matrix| && 0 <= col < |matrix[row]| ==>
           matrix[row][col] == if maze.maze[row][col].isWall then 1 else 0) &&
        log == old(log) + MazeWrites(matrix, coord.0, coord.1, coord.2,
                 FromName(blocks.0, []), FromName(blocks.1, []), FromName(blocks.2, []), FromName("air", []), height, mag)
    {
      var matrix := maze.GetMatrix();
      PlaceMaze(matrix, coord.0, coord.1, coord.2,
                FromName(blocks.0, []), FromName(blocks.1, []), FromName(blocks.2, []), FromName("air", []), height, mag);
    }

    // -------------------------------------------------------------- scans

    /** One block read by a scan: the block `read` gives, with the caches
        still holding what the world holds. */
    method ReadBlock(p: Point, ghost read: Point -> Result<Block>) returns (r: Result<Block>)
      requires Coherent(world, Caches()) && ReadsWorld(world, read)
      modifies this`sections, this`chunkOrder, this`chunks
      ensures Coherent(world, Caches())
      ensures Grows(old(Caches()), Caches()) && Fresh(world, old(Caches()), Caches())
      ensures r == read(p)
    {
      LoadBlockReads(world, Caches(), p);
      r := GetBlock(p.0, p.1, p.2);
      assert r == WorldBlock(world, p);
    }

    /** The innermost loop of `list_blocks` and `find_blocks`: column
        (x, z), y = start.1 + k for k from 0 to end.1 - start.1 - 1, each
        block read folded into `acc` by `step`. The first failed read ends
        the scan. */
    method ScanColumn<A>(x: int, z: int, start: Point, end: Point, step: (A, Point, Block) -> A, acc: A,
                         ghost read: Point -> Result<Block>)
      returns (r: Result<A>)
      requires Coherent(world, Caches()) && ReadsWorld(world, read)
      modifies this`sections, this`chunkOrder, this`chunks
      ensures Coherent(world, Caches())
      ensures r == ColumnFold(read, step, Ok(acc), x, z, start.1, end.1 - start.1)
    {
      ghost var y0, ny := start.1, end.1 - start.1;
      var a := acc;
      var k := 0;
      while k < end.1 - start.1
        invariant 0 <= k && (k == 0 || k <= ny)
        invariant Coherent(world, Caches())
        invariant ColumnFold(read, step, Ok(acc), x, z, y0, k) == Ok(a)
      {
        ColumnFoldNext(read, step, Ok(acc), x, z, y0, k, ny, a);
        var block := ReadBlock((x, start.1 + k, z), read);
        if block.Err? {
          return Err(block.error);
        }
        a := step(a, (x, start.1 + k, z), block.value);
        k := k + 1;
      }
      return Ok(a);
    }

    /** The middle loop: slab x, z = start.2 + k for k from 0 to end.2 - start.2 - 1. */
    method ScanSlab<A>(x: int, start: Point, end: Point, step: (A, Point, Block) -> A, acc: A,
                       ghost read: Point -> Result<Block>)
      returns (r: Result<A>)
      requires Coherent(world, Caches()) && ReadsWorld(world, read)
      modifies this`sections, this`chunkOrder, this`chunks
      ensures Coherent(world, Caches())
      ensures r == SlabFold(read, step, Ok(acc), x, start.2, end.2 - start.2, start.1, end.1 - start.1)
    {
      ghost var z0, nz, y0, ny := start.2, end.2 - start.2, start.1, end.1 - start.1;
      var a := acc;
      var k := 0;
      while k < end.2 - start.2
        invariant 0 <= k && (k == 0 || k <= nz)
        invariant Coherent(world, Caches())
        invariant SlabFold(read, step, Ok(acc), x, z0, k, y0, ny) == Ok(a)
      {
        SlabFoldNext(read, step, Ok(acc), x, z0, k, nz, y0, ny, a);
        var column := ScanColumn(x, start.2 + k, start, end, step, a, read);
        if column.Err? {
          return Err(column.error);
        }
        a := column.value;
        k := k + 1;
      }
      return Ok(a);
    }

    /** The outer loop: x = start.0 + k for k from 0 to end.0 - start.0 - 1. */
    method ScanBox<A>(start: Point, end: Point, step: (A, Point, Block) -> A, init: A, ghost read: Point -> Result<Block>)
      returns (r: Result<A>)
      requires Coherent(world, Caches()) && ReadsWorld(world, read)
      modifies this`sections, this`chunkOrder, this`chunks
      ensures Coherent(world, Caches())
      ensures r == FoldAt(read, step, init, Span(start, end))
    {
      ghost var x0, nx, z0, nz, y0, ny := start.0, end.0 - start.0, start.2, end.2 - start.2, start.1, end.1 - start.1;
      SpanFolds(read, step, init, start, end);
      var a := init;
      var k := 0;
      while k < end.0 - start.0
        invariant 0 <= k && (k == 0 || k <= nx)
        invariant Coherent(world, Caches())
        invariant BoxFold(read, step, Ok(init), x0, k, z0, nz, y0, ny) == Ok(a)
      {
        BoxFoldNext(read, step, Ok(init), x0, k, nx, z0, nz, y0, ny, a);
        var slab := ScanSlab(start.0 + k, start, end, step, a, read);
        if slab.Err? {
          assert BoxFold(read, step, Ok(init), x0, nx, z0, nz, y0, ny) == slab;
          return Err(slab.error);
        }
        a := slab.value;
        k := k + 1;
      }
      assert BoxFold(read, step, Ok(init), x0, nx, z0, nz, y0, ny) == Ok(a);
      return Ok(a);
    }

    /** `list_blocks`: the number of blocks of each id in the box
        [start, end), largest count first; the first failed read, in the
        scan's order, is its error. */
    method ListBlocks(start: Point, end: Point) returns (r: Result<seq<(string, nat)>>)
      requires Coherent(world, Caches())
      modifies this`sections, this`chunkOrder, this`chunks
      ensures Coherent(world, Caches())
      ensures BlocksAt(WorldReads(world), Span(start, end)).Ok? ==>
                r == Ok(Listing(BlocksAt(WorldReads(world), Span(start, end)).value))
      ensures BlocksAt(WorldReads(world), Span(start, end)).Err? ==>
                r == Err(BlocksAt(WorldReads(world), Span(start, end)).error)
    {
      var counts := ScanBox(start, end, Tallying, Counts([], map[]), WorldReads(world));
      TallyingFolds(WorldReads(world), Span(start, end));
      if counts.Err? {
        return Err(counts.error);
      }
      r := Ok(Reverse(SortAscending(ItemsOf(counts.value.ids, counts.value.n))));
    }

    /** `find_blocks`: the positions of the box [start, end), in scan
        order, whose block matches `block` (by id, or completely when
        `exact`); the first failed read, in the scan's order, is its error. */
    method FindBlocks(start: Point, end: Point, block: Block, exact: bool) returns (r: Result<seq<Point>>)
      requires Coherent(world, Caches())
      modifies this`sections, this`chunkOrder, this`chunks
      ensures Coherent(world, Caches())
      ensures BlocksAt(WorldReads(world), Span(start, end)).Ok? ==>
                r == Ok(Found(Span(start, end), BlocksAt(WorldReads(world), Span(start, end)).value, block, exact))
      ensures BlocksAt(WorldReads(world), Span(start, end)).Err? ==>
                r == Err(BlocksAt(WorldReads(world), Span(start, end)).error)
    {
      r := ScanBox(start, end, Finding(block, exact), [], WorldReads(world));
      FindingFolds(WorldReads(world), Span(start, end), block, exact);
    }
  
    // --------------------------------------------------------- copy_blocks

    /** The writes of one copied block with repetitions: `set_block` at
        q + r for each repetition r, in order. */
    method PlaceRepeats(b: Block, q: Point, rep: seq<Point>)
      requires Recorded()
      modifies this`blocksMap, this`log
      ensures Recorded() && log == old(log) + Repeats(b, q, rep)
    {
      var i := 0;
      while i < |rep|
        invariant 0 <= i <= |rep|
        invariant Recorded() && log == old(log) + Repeats(b, q, rep[..i])
      {
        assert rep[..i + 1][..i] == rep[..i] && rep[..i + 1][i] == rep[i];
        AppendAssoc(old(log), Repeats(b, q, rep[..i]), [(b, Plus(q, rep[i]))]);
        SetBlock(b, q.0 + rep[i].0, q.1 + rep[i].1, q.2 + rep[i].2);
        i := i + 1;
      }
      assert rep[..i] == rep;
    }

    /** One source position of `copy_blocks`, after the copies `c`, whose
        writes are the log: the block read from `src`, then written at the
        destination, once per repetition when there are repetitions. */
    method CopyCell(src: Editor, p: Point, s: Point, t: Point, rep: seq<Point>, ghost read: Point -> Result<Block>,
                    ghost cell: (Point, Block) -> seq<Write>, ghost c: Copied)
      returns (failure: Option<Error>)
      requires Recorded() && Coherent(src.world, src.Caches()) && ReadsWorld(src.world, read)
      requires cell == CellsOf(s, t, rep) && c.failure.None? && log == c.writes
      modifies this`blocksMap, this`log, src`sections, src`chunkOrder, src`chunks
      ensures Recorded() && Coherent(src.world, src.Caches())
      ensures Grows(old(src.Caches()), src.Caches()) && Fresh(src.world, old(src.Caches()), src.Caches())
      ensures var d := CopyStep(read, cell, c, p); log == d.writes && failure == d.failure
    {
      var block := src.ReadBlock(p, read);
      if block.Err? {
        return Some(block.error);
      }
      ghost var read0 := Cache(src.sections, src.chunkOrder, src.chunks);
      assert read0 == src.Caches();
      var q := Plus(t, Minus(p, s));
      assert cell(p, block.value) == CellCopies(block.value, p, s, t, rep);
      if rep != [] {
        PlaceRepeats(block.value, q, rep);
      } else {
        SetBlock(block.value, q.0, q.1, q.2);
      }
      assert src.Caches() == read0;
      return None;
    }

    /** One step of the innermost loop: the position at dz. */
    method CopyLineStep(src: Editor, s: Point, t: Point, rep: seq<Point>, dx: int, dy: int, dz: nat,
                        ghost read: Point -> Result<Block>, ghost cell: (Point, Block) -> seq<Write>, ghost c: Copied)
      returns (failure: Option<Error>)
      requires Recorded() && Coherent(src.world, src.Caches()) && ReadsWorld(src.world, read)
      requires cell == CellsOf(s, t, rep)
      requires var d := CopyLineFold(read, cell, s, c, dx, dy, dz); d.failure.None? && log == d.writes
      modifies this`blocksMap, this`log, src`sections, src`chunkOrder, src`chunks
      ensures Recorded() && Coherent(src.world, src.Caches())
      ensures Grows(old(src.Caches()), src.Caches()) && Fresh(src.world, old(src.Caches()), src.Caches())
      ensures var d := CopyLineFold(read, cell, s, c, dx, dy, dz + 1); log == d.writes && failure == d.failure
    {
      ghost var d := CopyLineFold(read, cell, s, c, dx, dy, dz);
      var p := (s.0 + dx, s.1 + dy, s.2 + dz);
      assert CopyLineFold(read, cell, s, c, dx, dy, dz + 1) == CopyStep(read, cell, d, p);
      failure := CopyCell(src, p, s, t, rep, read, cell, d);
    }

    /** The innermost loop of `copy_blocks`: dz from 0 to w.2 - 1 at
        (dx, dy), after the copies `c`. */
    method CopyLine(src: Editor, s: Point, t: Point, w: Point, rep: seq<Point>, dx: int, dy: int,
                    ghost read: Point -> Result<Block>, ghost cell: (Point, Block) -> seq<Write>, ghost c: Copied)
      returns (failure: Option<Error>)
      requires Recorded() && Coherent(src.world, src.Caches()) && ReadsWorld(src.world, read)
      requires cell == CellsOf(s, t, rep) && c.failure.None? && log == c.writes
      modifies this`blocksMap, this`log, src`sections, src`chunkOrder, src`chunks
      ensures Recorded() && Coherent(src.world, src.Caches())
      ensures Grows(old(src.Caches()), src.Caches()) && Fresh(src.world, old(src.Caches()), src.Caches())
      ensures var d := CopyLineFold(read, cell, s, c, dx, dy, w.2); log == d.writes && failure == d.failure
    {
      ghost var c0 := src.Caches();
      var dz := 0;
      while dz < w.2
        invariant 0 <= dz && (dz <= w.2 || dz == 0)
        invariant Recorded() && Coherent(src.world, src.Caches())
        invariant Grows(c0, src.Caches()) && Fresh(src.world, c0, src.Caches())
        invariant var d := CopyLineFold(read, cell, s, c, dx, dy, dz); d.failure.None? && log == d.writes
      {
        ghost var c1 := src.Caches();
        failure := CopyLineStep(src, s, t, rep, dx, dy, dz, read, cell, c);
        GrowsTransitive(c0, c1, src.Caches());
        FreshTransitive(src.world, c0, c1, src.Caches());
        if failure.Some? {
          CopyLineStops(read, cell, s, c, dx, dy, dz + 1, w.2);
          return;
        }
        dz := dz + 1;
      }
      return None;
    }

    /** The middle loop: dy from 0 to w.1 - 1 at dx, after the copies `c`. */
    method CopySlab(src: Editor, s: Point, t: Point, w: Point, rep: seq<Point>, dx: int,
                    ghost read: Point -> Result<Block>, ghost cell: (Point, Block) -> seq<Write>, ghost c: Copied)
      returns (failure: Option<Error>)
      requires Recorded() && Coherent(src.world, src.Caches()) && ReadsWorld(src.world, read)
      requires cell == CellsOf(s, t, rep) && c.failure.None? && log == c.writes
      modifies this`blocksMap, this`log, src`sections, src`chunkOrder, src`chunks
      ensures Recorded() && Coherent(src.world, src.Caches())
      ensures Grows(old(src.Caches()), src.Caches()) && Fresh(src.world, old(src.Caches()), src.Caches())
      ensures var d := CopySlabFold(read, cell, s, c, dx, w.1, w.2); log == d.writes && failure == d.failure
    {
      ghost var c0 := src.Caches();
      var dy := 0;
      while dy < w.1
        invariant 0 <= dy && (dy <= w.1 || dy == 0)
        invariant Recorded() && Coherent(src.world, src.Caches())
        invariant Grows(c0, src.Caches()) && Fresh(src.world, c0, src.Caches())
        invariant var d := CopySlabFold(read, cell, s, c, dx, dy, w.2); d.failure.None? && log == d.writes
      {
        ghost var c1 := src.Caches();
        failure := CopyLine(src, s, t, w, rep, dx, dy, read, cell, CopySlabFold(read, cell, s, c, dx, dy, w.2));
        GrowsTransitive(c0, c1, src.Caches());
        FreshTransitive(src.world, c0, c1, src.Caches());
        if failure.Some? {
          CopySlabStops(read, cell, s, c, dx, dy + 1, w.1, w.2);
          return;
        }
        dy := dy + 1;
      }
      return None;
    }

    /** The outer loop: dx from 0 to w.0 - 1; the whole block pass, whose
        writes follow the log as it was. */
    method CopyBox(src: Editor, s: Point, t: Point, w: Point, rep: seq<Point>, ghost read: Point -> Result<Block>)
      returns (failure: Option<Error>)
      requires Recorded() && Coherent(src.world, src.Caches()) && ReadsWorld(src.world, read)
      modifies this`blocksMap, this`log, src`sections, src`chunkOrder, src`chunks
      ensures Recorded() && Coherent(src.world, src.Caches())
      ensures Grows(old(src.Caches()), src.Caches()) && Fresh(src.world, old(src.Caches()), src.Caches())
      ensures var d := CopyAt(read, CellsOf(s, t, rep), Copied(old(log), None), Cuboid(s, w));
        log == d.writes && failure == d.failure
    {
      ghost var c0 := src.Caches();
      ghost var cell := CellsOf(s, t, rep);
      ghost var start := Copied(log, None);
      var dx := 0;
      while dx < w.0
        invariant 0 <= dx && (dx <= w.0 || dx == 0)
        invariant Recorded() && Coherent(src.world, src.Caches())
        invariant Grows(c0, src.Caches()) && Fresh(src.world, c0, src.Caches())
        invariant var d := CopyBoxFold(read, cell, s, start, dx, w.1, w.2); d.failure.None? && log == d.writes
      {
        ghost var c1 := src.Caches();
        failure := CopySlab(src, s, t, w, rep, dx, read, cell, CopyBoxFold(read, cell, s, start, dx, w.1, w.2));
        GrowsTransitive(c0, c1, src.Caches());
        FreshTransitive(src.world, c0, c1, src.Caches());
        if failure.Some? {
          CopyBoxStops(read, cell, s, start, dx + 1, w.0, w.1, w.2);
          CuboidCopies(read, cell, s, start, w);
          return;
        }
        dx := dx + 1;
      }
      CuboidCopies(read, cell, s, start, w);
      return None;
    }

    /** The block pass of `copy_blocks`: the blocks of the box of size w
        at s, read from `src` until a read fails, and their copies written
        at t, in the order of the loops. */
    method CopyPass(src: Editor, s: Point, t: Point, w: Point, rep: seq<Point>)
      returns (failure: Option<Error>)
      requires Recorded() && Coherent(src.world, src.Caches())
      modifies this`blocksMap, this`log, src`sections, src`chunkOrder, src`chunks
      ensures Recorded() && Coherent(src.world, src.Caches())
      ensures Grows(old(src.Caches()), src.Caches()) && Fresh(src.world, old(src.Caches()), src.Caches())
      ensures CopyLogged(src.world, s, t, w, rep, old(log), log, failure)
    {
      failure := CopyBox(src, s, t, w, rep, WorldReads(src.world));
      CopyAtMeaning(WorldReads(src.world), s, t, rep, old(log), Cuboid(s, w));
    }

    /** `copy_blocks`: the box of size `size` at `source`, read from this
        world, or from the world of `worldSource` when it names a path, is
        written at `dest` block by block (once at each repetition offset
        when there are any); a failed read stops the copy with its error,
        after the writes before it. When every block is read, the entity
        record is rebuilt from the block entities of the source chunks read
        (`scanned`) that lie inside the box, moved by dest - source, then
        repeated; the source's cached chunks keep those entities moved. */
    method CopyBlocks(source: Point, dest: Point, size: Point, rep: seq<Point>,
                      worldSource: Option<(string, World)>)
      returns (r: Option<Error>, ghost from: World, ghost scanned: Cache)
      requires Valid()
      modifies this`blocksMap, this`log, this`entities, this`sections, this`chunkOrder, this`chunks
      ensures Valid()
      ensures var other := worldSource.Some? && worldSource.value.0 != "";
        from == (if other then worldSource.value.1 else world) &&
        (other ==> Caches() == old(Caches())) &&
        (!other ==> Grows(old(Caches()), scanned) && Fresh(world, old(Caches()), scanned) &&
                    Caches() == if r.None? then scanned.(chunks := RehomedChunks(scanned.chunks, source, size, Minus(dest, source)))
                                else scanned)
      ensures Coherent(from, scanned) && CopyLogged(from, source, dest, size, rep, old(log), log, r)
      ensures r.Some? ==> entities == old(entities)
      ensures r.None? ==> var g := Gather(scanned, source, size, Minus(dest, source));
        entities == if rep == [] then g else Repeat(g, rep)
    {
      if worldSource.Some? && worldSource.value.0 != "" {
        from := worldSource.value.1;
        r, scanned := CopyAcross(source, dest, size, rep, worldSource.value.0, worldSource.value.1);
      } else {
        from := world;
        r, scanned := CopyWithin(source, dest, size, rep);
      }
    }

    /** `copy_blocks` within this world. */
    method CopyWithin(source: Point, dest: Point, size: Point, rep: seq<Point>)
      returns (r: Option<Error>, ghost scanned: Cache)
      requires Valid()
      modifies this`blocksMap, this`log, this`entities, this`sections, this`chunkOrder, this`chunks
      ensures Valid()
      ensures Grows(old(Caches()), scanned) && Fresh(world, old(Caches()), scanned)
      ensures Caches() == if r.None? then scanned.(chunks := RehomedChunks(scanned.chunks, source, size, Minus(dest, source)))
                          else scanned
      ensures Coherent(world, scanned) && CopyLogged(world, source, dest, size, rep, old(log), log, r)
      ensures r.Some? ==> entities == old(entities)
      ensures r.None? ==> var g := Gather(scanned, source, size, Minus(dest, source));
        entities == if rep == [] then g else Repeat(g, rep)
    {
      r := CopyPass(this, source, dest, size, rep);
      scanned := Caches();
      if r.None? {
        RehomeEntities(source, dest, size, rep);
      }
    }

    /** The entity pass of `copy_blocks` within this world: the record
        rebuilt from this editor's cached chunks, whose entities in the box
        stay moved. */
    method RehomeEntities(source: Point, dest: Point, size: Point, rep: seq<Point>)
      requires Valid()
      modifies this`entities, this`chunks
      ensures Valid()
      ensures chunks == RehomedChunks(old(chunks), source, size, Minus(dest, source))
      ensures var g := Gather(old(Caches()), source, size, Minus(dest, source));
        entities == if rep == [] then g else Repeat(g, rep)
      ensures Ordered(entities) && Filed(entities)
    {
      ghost var c := Caches();
      var rehomed;
      entities, rehomed := CopyEntities(Cache(sections, chunkOrder, chunks), source, size, Minus(dest, source), rep);
      RehomedCoherent(world, c, source, size, Minus(dest, source));
      chunks := rehomed;
      assert Caches() == c.(chunks := RehomedChunks(c.chunks, source, size, Minus(dest, source)));
    }

    /** `copy_blocks` from the world at `path`, read by an editor of its
        own, whose caches are left behind. */
    method CopyAcross(source: Point, dest: Point, size: Point, rep: seq<Point>, path: string, from: World)
      returns (r: Option<Error>, ghost scanned: Cache)
      requires Valid()
      modifies this`blocksMap, this`log, this`entities
      ensures Valid()
      ensures Coherent(from, scanned) && CopyLogged(from, source, dest, size, rep, old(log), log, r)
      ensures r.Some? ==> entities == old(entities)
      ensures r.None? ==> var g := Gather(scanned, source, size, Minus(dest, source));
        entities == if rep == [] then g else Repeat(g, rep)
    {
      var cache;
      r, cache := ReadAcross(source, dest, size, rep, path, from);
      scanned := cache;
      if r.None? {
        RecordAcross(cache, source, dest, size, rep, from);
      }
    }

    /** The entity pass of `copy_blocks` over the chunks another editor has
        cached: the record is rebuilt from their moved entities. */
    method RecordAcross(cache: Cache, source: Point, dest: Point, size: Point, rep: seq<Point>, ghost from: World)
      requires Valid() && Coherent(from, cache)
      modifies this`entities
      ensures Valid()
      ensures var g := Gather(cache, source, size, Minus(dest, source));
        entities == if rep == [] then g else Repeat(g, rep)
    {
      var record, rehomed := CopyEntities(cache, source, size, Minus(dest, source), rep);
      entities := record;
    }

    /** The block pass of `copy_blocks` from the world at `path`, read by
        an editor of its own; `cache` is what that editor has cached. */
    method ReadAcross(source: Point, dest: Point, size: Point, rep: seq<Point>, path: string, from: World)
      returns (r: Option<Error>, cache: Cache)
      requires Valid()
      modifies this`blocksMap, this`log
      ensures Valid()
      ensures Coherent(from, cache) && CopyLogged(from, source, dest, size, rep, old(log), log, r)
    {
      var src := new Editor(path, from);
      r := CopyPass(src, source, dest, size, rep);
      cache := Cache(src.sections, src.chunkOrder, src.chunks);
    }
  
    // ---------------------------------------------------------------- done

    /** One section of the first loop of `done`: the stored section, else
        `get_section`, is stored, given its changes, and noted under its
        region (`regions` is the loop's dictionary). */
    method FlushSection(sid: SectionId, changes: seq<Change>, regions: Lists<(int, int), ((int, int), int)>)
      returns (noted: Lists<(int, int), ((int, int), int)>, failure: Option<Error>)
      requires Coherent(world, Caches())
      modifies this`writeSections, this`chunkOrder, this`chunks
      ensures Coherent(world, Caches())
      ensures var g := FlushStep(world, Flushing(old(Caches()), old(writeSections), regions, None), sid, changes);
        Caches() == g.cache && writeSections == g.written && noted == g.regions && failure == g.failure
    {
      FetchReads(world, Flushing(Caches(), writeSections, regions, None), sid);
      var base: seq<Block>;
      if sid in writeSections {
        base := writeSections[sid];
      } else {
        var read := GetSection(sid);
        if read.Err? {
          return regions, Some(read.error);
        }
        base := read.value;
      }
      var applied;
      applied, failure := ApplyChanges(base, changes);
      writeSections := writeSections[sid := applied];
      noted := if failure.Some? then regions else Push(regions, sid.0, (sid.1, sid.2));
    }

    /** The first loop of `done`: every pending section, in the order the
        dictionary of pending changes first saw it, until one raises. */
    method FlushPending() returns (regions: Lists<(int, int), ((int, int), int)>, failure: Option<Error>)
      requires Coherent(world, Caches())
      modifies this`writeSections, this`chunkOrder, this`chunks
      ensures Coherent(world, Caches())
      ensures var g := Flush(world, Flushing(old(Caches()), old(writeSections), Empty(), None), blocksMap, blocksMap.order);
        Caches() == g.cache && writeSections == g.written && regions == g.regions && failure == g.failure
    {
      ghost var f0 := Flushing(Caches(), writeSections, Empty(), None);
      var keys := blocksMap.order;
      regions := Empty();
      var i := 0;
      while i < |keys|
        invariant 0 <= i <= |keys| && Coherent(world, Caches())
        invariant var g := Flush(world, f0, blocksMap, keys[..i]);
          g.failure.None? && Caches() == g.cache && writeSections == g.written && regions == g.regions
      {
        FlushNext(world, f0, blocksMap, keys, i);
        regions, failure := FlushSection(keys[i], Of(blocksMap, keys[i]), regions);
        if failure.Some? {
          return;
        }
        i := i + 1;
      }
      assert keys[..i] == keys;
      failure := None;
    }

    /** The levels of one chunk in the second loop of `done`: the stored
        section of each, in order; a level never stored raises `KeyError`. */
    method StoredLevels(region: (int, int), chunk: (int, int), ys: seq<int>) returns (r: Result<seq<(int, seq<Block>)>>)
      ensures r == StoredSections(writeSections, region, chunk, ys)
    {
      var secs := [];
      var l := 0;
      while l < |ys|
        invariant 0 <= l <= |ys|
        invariant StoredSections(writeSections, region, chunk, ys[..l]) == Ok(secs)
      {
        StoredNext(writeSections, region, chunk, ys, l, secs);
        var sid := (region, chunk, ys[l]);
        if sid !in writeSections {
          return Err(KeyError);
        }
        secs := secs + [(ys[l], writeSections[sid])];
        l := l + 1;
      }
      assert ys[..l] == ys;
      r := Ok(secs);
    }

    /** One chunk of the second loop of `done`: its recorded entities, the
        chunk fetched afresh, and its stored sections by level. */
    method UpdateChunk(fetch: World, region: (int, int), chunk: (int, int), ys: seq<int>) returns (r: Result<ChunkWrite>)
      ensures r == ChunkUpdate(fetch, writeSections, entities, region, chunk, ys)
    {
      var key := (region, chunk);
      var es := if key in entities.items then entities.items[key] else [];
      var fetched := fetch(key);
      if fetched.Err? {
        return Err(fetched.error);
      }
      var secs := StoredLevels(region, chunk, ys);
      if secs.Err? {
        return Err(secs.error);
      }
      r := Ok(ChunkWrite(chunk, fetched.value, secs.value, es));
    }

    /** The `chunks` dictionary of the second loop of `done`: the levels of
        a region's pairs grouped by chunk, in first-use order. */
    static method GroupLevels(pairs: seq<((int, int), int)>) returns (groups: Lists<(int, int), int>)
      ensures groups == PushAll(Empty(), pairs)
      ensures Ordered(groups) && forall c, y :: y in Of(groups, c) <==> (c, y) in pairs
    {
      groups := Empty();
      var i := 0;
      while i < |pairs|
        invariant 0 <= i <= |pairs| && groups == PushAll(Empty(), pairs[..i])
      {
        PushAllSnoc(Empty(), pairs[..i], pairs[i]);
        assert pairs[..i + 1] == pairs[..i] + [pairs[i]];
        var c, y := pairs[i].0, pairs[i].1;
        if c in groups.items {
          groups := Lists(groups.order, groups.items[c := groups.items[c] + [y]]);
        } else {
          groups := Lists(groups.order + [c], groups.items[c := [y]]);
        }
        i := i + 1;
      }
      assert pairs[..i] == pairs;
      forall c, y
        ensures Ordered(groups) && (y in Of(groups, c) <==> (c, y) in pairs)
      {
        GroupedLevels(pairs, c, y);
      }
    }

    /** One region of the second loop of `done`: its chunks grouped, and
        each chunk's update, until one raises. */
    method UpdateRegion(fetch: World, region: (int, int), pairs: seq<((int, int), int)>) returns (r: Result<RegionWrite>)
      ensures r == RegionUpdate(fetch, writeSections, entities, region, pairs)
    {
      var groups := GroupLevels(pairs);
      var cs := groups.order;
      var cws := [];
      var j := 0;
      while j < |cs|
        invariant 0 <= j <= |cs|
        invariant ChunkUpdates(fetch, writeSections, entities, region, groups, cs[..j]) == Ok(cws)
      {
        ChunkUpdatesNext(fetch, writeSections, entities, region, groups, cs, j, cws);
        var cw := UpdateChunk(fetch, region, cs[j], Of(groups, cs[j]));
        if cw.Err? {
          return Err(cw.error);
        }
        cws := cws + [cw.value];
        j := j + 1;
      }
      assert cs[..j] == cs;
      r := Ok(RegionWrite(region, cws));
    }

    /** The second loop of `done`: the write of each noted region, in the
        order first noted, until one raises. */
    method WriteRegions(fetch: World, regions: Lists<(int, int), ((int, int), int)>)
      returns (issued: seq<RegionWrite>, failure: Option<Error>)
      ensures (issued, failure) == RegionWrites(fetch, writeSections, entities, regions)
    {
      ghost var update := RegionUpdater(fetch, writeSections, entities, regions);
      var rs := regions.order;
      issued := [];
      var i := 0;
      while i < |rs|
        invariant 0 <= i <= |rs|
        invariant Issued(update, rs[..i]) == (issued, None)
      {
        IssuedNext(update, rs, i, issued);
        var w := UpdateRegion(fetch, rs[i], Of(regions, rs[i]));
        RegionUpdaterAt(fetch, writeSections, entities, regions, rs[i]);
        if w.Err? {
          return issued, Some(w.error);
        }
        issued := issued + [w.value];
        i := i + 1;
      }
      assert rs[..i] == rs;
      failure := None;
    }

    /** `done`: the pending changes of every `set_block` call are applied
        to their sections (phase one); then every region noted is written
        with its chunks, fetched afresh through `get_chunk` of the region
        file (`files`, `inflate`, `wrap`), each given its stored sections
        and its recorded entities (phase two). The region writes issued are
        returned, with the error that stopped either phase. */
    method Done(files: ((int, int)) -> Result<Regions.Region>, inflate: seq<byte> -> Result<Tag>,
                wrap: Tag -> Result<LoadedChunk>)
      returns (issued: seq<RegionWrite>, failure: Option<Error>, regions: Lists<(int, int), ((int, int), int)>)
      requires Valid()
      modifies this`writeSections, this`chunkOrder, this`chunks
      ensures Valid() && blocksMap == Planned(Empty(), log)
      ensures var g := Flush(world, Flushing(old(Caches()), old(writeSections), Empty(), None), blocksMap, blocksMap.order);
        Caches() == g.cache && writeSections == g.written && regions == g.regions &&
        (g.failure.Some? ==> issued == [] && failure == g.failure) &&
        (g.failure.None? ==> (issued, failure) == RegionWrites(ChunkFetch(files, inflate, wrap), writeSections, entities, regions))
    {
      assert blocksMap == PlannedUpTo(log, |log|);
      PlannedUpToIs(log, |log|);
      assert log[..|log|] == log;
      regions, failure := FlushPending();
      issued := [];
      if failure.None? {
        issued, failure := WriteRegions(ChunkFetch(files, inflate, wrap), regions);
      }
    }
}
}
