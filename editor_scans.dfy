// The scans of `list_blocks` and `find_blocks`: three nested loops over a
// box, x outermost, then z, then y, each step reading one block. Both are
// modelled as one left fold of a `step` over the blocks read, stopping at
// the first read error. The loops of the editor's methods follow the
// count-indexed folds below (`ColumnFold`, `SlabFold`, `BoxFold`); the
// lemmas tie them to the fold over the scanned positions, `FoldAt`, and
// that in turn to the tally and to the found positions of the blocks read.

module EditorScans {
  import opened Common
  import opened Blocks
  import opened EditorPlans
  import opened EditorReads
  import opened EditorResults

  /** `step` folded over the blocks read at `ps`, in order, from `init`; the
      first read error instead, if any. */
  function FoldAt<A>(read: Point -> Result<Block>, step: (A, Point, Block) -> A, init: A, ps: seq<Point>): Result<A>
  {
    if ps == [] then Ok(init)
    else
      var a :- FoldAt(read, step, init, ps[..|ps| - 1]);
      var b :- read(ps[|ps| - 1]);
      Ok(step(a, ps[|ps| - 1], b))
  }

  lemma FoldAtSnoc<A>(read: Point -> Result<Block>, step: (A, Point, Block) -> A, init: A, ps: seq<Point>, p: Point)
    ensures FoldAt(read, step, init, ps + [p]) ==
      if FoldAt(read, step, init, ps).Err? then FoldAt(read, step, init, ps)
      else if read(p).Err? then Err(read(p).error)
      else Ok(step(FoldAt(read, step, init, ps).value, p, read(p).value))
  {
    assert (ps + [p])[..|ps|] == ps;
  }

  /** The innermost loop: column (x, z), y from y0 up, n blocks, folded on
      top of `acc`. */
  function ColumnFold<A>(read: Point -> Result<Block>, step: (A, Point, Block) -> A, acc: Result<A>,
                         x: int, z: int, y0: int, n: int): Result<A>
    decreases n
  {
    if n <= 0 then acc
    else
      var a :- ColumnFold(read, step, acc, x, z, y0, n - 1);
      var b :- read((x, y0 + n - 1, z));
      Ok(step(a, (x, y0 + n - 1, z), b))
  }

  /** The middle loop: slab x, nz columns from z0, each of ny blocks. */
  function SlabFold<A>(read: Point -> Result<Block>, step: (A, Point, Block) -> A, acc: Result<A>,
                       x: int, z0: int, nz: int, y0: int, ny: int): Result<A>
    decreases nz
  {
    if nz <= 0 then acc
    else ColumnFold(read, step, SlabFold(read, step, acc, x, z0, nz - 1, y0, ny), x, z0 + nz - 1, y0, ny)
  }

  /** The outer loop: nx slabs from x0. */
  function BoxFold<A>(read: Point -> Result<Block>, step: (A, Point, Block) -> A, acc: Result<A>,
                      x0: int, nx: int, z0: int, nz: int, y0: int, ny: int): Result<A>
    decreases nx
  {
    if nx <= 0 then acc
    else SlabFold(read, step, BoxFold(read, step, acc, x0, nx - 1, z0, nz, y0, ny), x0 + nx - 1, z0, nz, y0, ny)
  }

  // ------------------------------------------------------------ errors stop the scan

  /** A scan that starts from an error keeps it. */
  lemma {:induction false} ColumnFoldErr<A>(read: Point -> Result<Block>, step: (A, Point, Block) -> A, acc: Result<A>,
                                            x: int, z: int, y0: int, n: int)
    requires acc.Err?
    ensures ColumnFold(read, step, acc, x, z, y0, n) == acc
    decreases n
  {
    if n > 0 {
      ColumnFoldErr(read, step, acc, x, z, y0, n - 1);
    }
  }

  lemma {:induction false} SlabFoldErr<A>(read: Point -> Result<Block>, step: (A, Point, Block) -> A, acc: Result<A>,
                                          x: int, z0: int, nz: int, y0: int, ny: int)
    requires acc.Err?
    ensures SlabFold(read, step, acc, x, z0, nz, y0, ny) == acc
    decreases nz
  {
    if nz > 0 {
      SlabFoldErr(read, step, acc, x, z0, nz - 1, y0, ny);
      ColumnFoldErr(read, step, acc, x, z0 + nz - 1, y0, ny);
    }
  }

  /** Once the first m blocks of a column fail, the whole column does,
      with the same error: the loop may stop there. */
  lemma {:induction false} ColumnFoldStops<A>(read: Point -> Result<Block>, step: (A, Point, Block) -> A, acc: Result<A>,
                                              x: int, z: int, y0: int, m: nat, n: int)
    requires m <= n && ColumnFold(read, step, acc, x, z, y0, m).Err?
    ensures ColumnFold(read, step, acc, x, z, y0, n) == ColumnFold(read, step, acc, x, z, y0, m)
    decreases n
  {
    if m < n {
      ColumnFoldStops(read, step, acc, x, z, y0, m, n - 1);
    }
  }

  /** Block k of a column follows the first k, and a read that fails ends the column. */
  lemma ColumnFoldNext<A>(read: Point -> Result<Block>, step: (A, Point, Block) -> A, acc: Result<A>,
                          x: int, z: int, y0: int, k: nat, n: int, a: A)
    requires k < n && ColumnFold(read, step, acc, x, z, y0, k) == Ok(a)
    ensures var b := read((x, y0 + k, z));
      (b.Ok? ==> ColumnFold(read, step, acc, x, z, y0, k + 1) == Ok(step(a, (x, y0 + k, z), b.value))) &&
      (b.Err? ==> ColumnFold(read, step, acc, x, z, y0, n) == Err(b.error))
  {
    if read((x, y0 + k, z)).Err? {
      ColumnFoldStops(read, step, acc, x, z, y0, k + 1, n);
    }
  }

  lemma {:induction false} SlabFoldStops<A>(read: Point -> Result<Block>, step: (A, Point, Block) -> A, acc: Result<A>,
                                            x: int, z0: int, m: nat, nz: int, y0: int, ny: int)
    requires m <= nz && SlabFold(read, step, acc, x, z0, m, y0, ny).Err?
    ensures SlabFold(read, step, acc, x, z0, nz, y0, ny) == SlabFold(read, step, acc, x, z0, m, y0, ny)
    decreases nz
  {
    if m < nz {
      SlabFoldStops(read, step, acc, x, z0, m, nz - 1, y0, ny);
      ColumnFoldErr(read, step, SlabFold(read, step, acc, x, z0, nz - 1, y0, ny), x, z0 + nz - 1, y0, ny);
    }
  }

  /** Slab column k follows the first k, and a column that fails ends the slab. */
  lemma SlabFoldNext<A>(read: Point -> Result<Block>, step: (A, Point, Block) -> A, acc: Result<A>,
                        x: int, z0: int, k: nat, nz: int, y0: int, ny: int, a: A)
    requires k < nz && SlabFold(read, step, acc, x, z0, k, y0, ny) == Ok(a)
    ensures var c := ColumnFold(read, step, Ok(a), x, z0 + k, y0, ny);
      SlabFold(read, step, acc, x, z0, k + 1, y0, ny) == c &&
      (c.Err? ==> SlabFold(read, step, acc, x, z0, nz, y0, ny) == c)
  {
    if ColumnFold(read, step, Ok(a), x, z0 + k, y0, ny).Err? {
      SlabFoldStops(read, step, acc, x, z0, k + 1, nz, y0, ny);
    }
  }

  lemma {:induction false} BoxFoldStops<A>(read: Point -> Result<Block>, step: (A, Point, Block) -> A, acc: Result<A>,
                                           x0: int, m: nat, nx: int, z0: int, nz: int, y0: int, ny: int)
    requires m <= nx && BoxFold(read, step, acc, x0, m, z0, nz, y0, ny).Err?
    ensures BoxFold(read, step, acc, x0, nx, z0, nz, y0, ny) == BoxFold(read, step, acc, x0, m, z0, nz, y0, ny)
    decreases nx
  {
    if m < nx {
      BoxFoldStops(read, step, acc, x0, m, nx - 1, z0, nz, y0, ny);
      SlabFoldErr(read, step, BoxFold(read, step, acc, x0, nx - 1, z0, nz, y0, ny), x0 + nx - 1, z0, nz, y0, ny);
    }
  }

  /** Slab k follows the first k, and a slab that fails ends the box. */
  lemma BoxFoldNext<A>(read: Point -> Result<Block>, step: (A, Point, Block) -> A, acc: Result<A>,
                       x0: int, k: nat, nx: int, z0: int, nz: int, y0: int, ny: int, a: A)
    requires k < nx && BoxFold(read, step, acc, x0, k, z0, nz, y0, ny) == Ok(a)
    ensures var c := SlabFold(read, step, Ok(a), x0 + k, z0, nz, y0, ny);
      BoxFold(read, step, acc, x0, k + 1, z0, nz, y0, ny) == c &&
      (c.Err? ==> BoxFold(read, step, acc, x0, nx, z0, nz, y0, ny) == c)
  {
    if SlabFold(read, step, Ok(a), x0 + k, z0, nz, y0, ny).Err? {
      BoxFoldStops(read, step, acc, x0, k + 1, nx, z0, nz, y0, ny);
    }
  }

  // ------------------------------------------------------------ the loops visit the box

  /** Scanning a column on top of the fold over `ps` is the fold over `ps`
      followed by the column's positions. */
  lemma {:induction false} ColumnFolds<A>(read: Point -> Result<Block>, step: (A, Point, Block) -> A, init: A,
                                          ps: seq<Point>, x: int, z: int, y0: int, n: int)
    ensures ColumnFold(read, step, FoldAt(read, step, init, ps), x, z, y0, n) ==
            FoldAt(read, step, init, ps + YLine(x, z, y0, n))
    decreases n
  {
    if n <= 0 {
      assert ps + YLine(x, z, y0, n) == ps;
    } else {
      ColumnFolds(read, step, init, ps, x, z, y0, n - 1);
      AppendAssoc(ps, YLine(x, z, y0, n - 1), [(x, y0 + n - 1, z)]);
      FoldAtSnoc(read, step, init, ps + YLine(x, z, y0, n - 1), (x, y0 + n - 1, z));
    }
  }

  lemma {:induction false} SlabFolds<A>(read: Point -> Result<Block>, step: (A, Point, Block) -> A, init: A,
                                        ps: seq<Point>, x: int, z0: int, nz: int, y0: int, ny: int)
    ensures SlabFold(read, step, FoldAt(read, step, init, ps), x, z0, nz, y0, ny) ==
            FoldAt(read, step, init, ps + ZYSlab(x, z0, nz, y0, ny))
    decreases nz
  {
    if nz <= 0 {
      assert ps + ZYSlab(x, z0, nz, y0, ny) == ps;
    } else {
      var prev, line := ZYSlab(x, z0, nz - 1, y0, ny), YLine(x, z0 + nz - 1, y0, ny);
      SlabFolds(read, step, init, ps, x, z0, nz - 1, y0, ny);
      ColumnFolds(read, step, init, ps + prev, x, z0 + nz - 1, y0, ny);
      assert ps + ZYSlab(x, z0, nz, y0, ny) == (ps + prev) + line by {
        AppendAssoc(ps, prev, line);
      }
    }
  }

  /** The three loops together fold over `Span`-ordered positions of the box. */
  lemma {:induction false} BoxFolds<A>(read: Point -> Result<Block>, step: (A, Point, Block) -> A, init: A,
                                       x0: int, nx: int, z0: int, nz: int, y0: int, ny: int)
    ensures BoxFold(read, step, Ok(init), x0, nx, z0, nz, y0, ny) ==
            FoldAt(read, step, init, XZYBox(x0, nx, z0, nz, y0, ny))
    decreases nx
  {
    if nx > 0 {
      BoxFolds(read, step, init, x0, nx - 1, z0, nz, y0, ny);
      SlabFolds(read, step, init, XZYBox(x0, nx - 1, z0, nz, y0, ny), x0 + nx - 1, z0, nz, y0, ny);
    }
  }

  /** The scan of the box [start, end) in the loop order of `list_blocks`. */
  lemma SpanFolds<A>(read: Point -> Result<Block>, step: (A, Point, Block) -> A, init: A, start: Point, end: Point)
    ensures BoxFold(read, step, Ok(init), start.0, end.0 - start.0, start.2, end.2 - start.2, start.1, end.1 - start.1) ==
            FoldAt(read, step, init, Span(start, end))
  {
    BoxFolds(read, step, init, start.0, end.0 - start.0, start.2, end.2 - start.2, start.1, end.1 - start.1);
  }

  // ------------------------------------------------------------ the two steps

  /** One step of `list_blocks`: count the block's id. */
  function Tallying(c: Counts, p: Point, b: Block): Counts
  {
    Bump(c, b.id)
  }

  /** Folding the counting step over the blocks read is their tally. */
  lemma {:induction false} TallyingFolds(read: Point -> Result<Block>, ps: seq<Point>)
    ensures FoldAt(read, Tallying, Counts([], map[]), ps) ==
      if BlocksAt(read, ps).Err? then Err(BlocksAt(read, ps).error) else Ok(Tally(BlocksAt(read, ps).value))
  {
    if ps != [] {
      var q, p := ps[..|ps| - 1], ps[|ps| - 1];
      assert ps == q + [p];
      TallyingFolds(read, q);
      FoldAtSnoc(read, Tallying, Counts([], map[]), q, p);
      BlocksAtSnoc(read, q, p);
      if BlocksAt(read, q).Ok? && read(p).Ok? {
        TallySnoc(BlocksAt(read, q).value, read(p).value);
      }
    }
  }

  /** One step of `find_blocks`: keep the position when its block matches. */
  function Finding(block: Block, exact: bool): (seq<Point>, Point, Block) -> seq<Point>
  {
    (ls: seq<Point>, p: Point, b: Block) => if Matches(block, b, exact) then ls + [p] else ls
  }

  /** Folding the matching step over the blocks read gives the positions
      found among them. */
  lemma {:induction false} FindingFolds(read: Point -> Result<Block>, ps: seq<Point>, block: Block, exact: bool)
    ensures FoldAt(read, Finding(block, exact), [], ps) ==
      if BlocksAt(read, ps).Err? then Err(BlocksAt(read, ps).error) else Ok(Found(ps, BlocksAt(read, ps).value, block, exact))
  {
    if ps != [] {
      var q, p := ps[..|ps| - 1], ps[|ps| - 1];
      assert ps == q + [p];
      FindingFolds(read, q, block, exact);
      FoldAtSnoc(read, Finding(block, exact), [], q, p);
      BlocksAtSnoc(read, q, p);
      if BlocksAt(read, q).Ok? && read(p).Ok? {
        FoundSnoc(q, BlocksAt(read, q).value, p, read(p).value, block, exact);
        if !Matches(block, read(p).value, exact) {
          assert Found(q, BlocksAt(read, q).value, block, exact) + [] == Found(q, BlocksAt(read, q).value, block, exact);
        }
      }
    }
  }

  // ------------------------------------------------------------ the copy scan

  // The block pass of `copy_blocks` loops dx, then dy, then dz over the
  // box of size w at s, reading each block and writing its copies at
  // once; a failed read ends the copy with the writes made so far kept.
  // The folds below record the blocks read, with their positions; the
  // writes made are `ReadCopies` of those.

  /** The copy so far: the log of writes it has made, and the read error
      that ended it. */
  datatype Copied = Copied(writes: seq<Write>, failure: Option<Error>)

  /** The writes of `copy_blocks` for one block read at a source position. */
  function CellsOf(s: Point, t: Point, rep: seq<Point>): (Point, Block) -> seq<Write>
  {
    (p: Point, b: Block) => CellCopies(b, p, s, t, rep)
  }

  /** One source position: unless a read has failed, read its block and
      log its writes, `cell`. */
  function CopyStep(read: Point -> Result<Block>, cell: (Point, Block) -> seq<Write>, c: Copied, p: Point): Copied
  {
    if c.failure.Some? then c
    else match read(p)
      case Err(e) => c.(failure := Some(e))
      case Ok(b) => c.(writes := c.writes + cell(p, b))
  }

  /** The copy over the source positions `ps`, in order, after `c`. */
  function CopyAt(read: Point -> Result<Block>, cell: (Point, Block) -> seq<Write>, c: Copied, ps: seq<Point>): Copied
  {
    if ps == [] then c
    else CopyStep(read, cell, CopyAt(read, cell, c, ps[..|ps| - 1]), ps[|ps| - 1])
  }

  lemma CopyAtSnoc(read: Point -> Result<Block>, cell: (Point, Block) -> seq<Write>, c: Copied, ps: seq<Point>, p: Point)
    ensures CopyAt(read, cell, c, ps + [p]) == CopyStep(read, cell, CopyAt(read, cell, c, ps), p)
  {
    assert (ps + [p])[..|ps|] == ps;
  }

  /** The innermost loop of `copy_blocks`: dz from 0, n positions at (dx, dy). */
  function CopyLineFold(read: Point -> Result<Block>, cell: (Point, Block) -> seq<Write>, s: Point, c: Copied,
                        dx: int, dy: int, n: int): Copied
    decreases n
  {
    if n <= 0 then c
    else CopyStep(read, cell, CopyLineFold(read, cell, s, c, dx, dy, n - 1), (s.0 + dx, s.1 + dy, s.2 + n - 1))
  }

  /** The middle loop: dy from 0, ny lines of nz positions, at dx. */
  function CopySlabFold(read: Point -> Result<Block>, cell: (Point, Block) -> seq<Write>, s: Point, c: Copied,
                        dx: int, ny: int, nz: int): Copied
    decreases ny
  {
    if ny <= 0 then c
    else CopyLineFold(read, cell, s, CopySlabFold(read, cell, s, c, dx, ny - 1, nz), dx, ny - 1, nz)
  }

  /** The outer loop: dx from 0, nx slabs. */
  function CopyBoxFold(read: Point -> Result<Block>, cell: (Point, Block) -> seq<Write>, s: Point, c: Copied,
                       nx: int, ny: int, nz: int): Copied
    decreases nx
  {
    if nx <= 0 then c
    else CopySlabFold(read, cell, s, CopyBoxFold(read, cell, s, c, nx - 1, ny, nz), nx - 1, ny, nz)
  }

  /** A copy that has failed stays as it is. */
  lemma {:induction false} CopyLineFailed(read: Point -> Result<Block>, cell: (Point, Block) -> seq<Write>,
                                          s: Point, c: Copied, dx: int, dy: int, n: int)
    requires c.failure.Some?
    ensures CopyLineFold(read, cell, s, c, dx, dy, n) == c
    decreases n
  {
    if n > 0 {
      CopyLineFailed(read, cell, s, c, dx, dy, n - 1);
    }
  }

  lemma {:induction false} CopySlabFailed(read: Point -> Result<Block>, cell: (Point, Block) -> seq<Write>,
                                          s: Point, c: Copied, dx: int, ny: int, nz: int)
    requires c.failure.Some?
    ensures CopySlabFold(read, cell, s, c, dx, ny, nz) == c
    decreases ny
  {
    if ny > 0 {
      CopySlabFailed(read, cell, s, c, dx, ny - 1, nz);
      CopyLineFailed(read, cell, s, c, dx, ny - 1, nz);
    }
  }

  /** Once the first m steps of a loop fail, the whole loop gives the same:
      the loop may stop there. */
  lemma {:induction false} CopyLineStops(read: Point -> Result<Block>, cell: (Point, Block) -> seq<Write>,
                                         s: Point, c: Copied, dx: int, dy: int, m: nat, n: int)
    requires m <= n && CopyLineFold(read, cell, s, c, dx, dy, m).failure.Some?
    ensures CopyLineFold(read, cell, s, c, dx, dy, n) == CopyLineFold(read, cell, s, c, dx, dy, m)
    decreases n
  {
    if m < n {
      CopyLineStops(read, cell, s, c, dx, dy, m, n - 1);
    }
  }

  lemma {:induction false} CopySlabStops(read: Point -> Result<Block>, cell: (Point, Block) -> seq<Write>,
                                         s: Point, c: Copied, dx: int, m: nat, ny: int, nz: int)
    requires m <= ny && CopySlabFold(read, cell, s, c, dx, m, nz).failure.Some?
    ensures CopySlabFold(read, cell, s, c, dx, ny, nz) == CopySlabFold(read, cell, s, c, dx, m, nz)
    decreases ny
  {
    if m < ny {
      CopySlabStops(read, cell, s, c, dx, m, ny - 1, nz);
      CopyLineFailed(read, cell, s, CopySlabFold(read, cell, s, c, dx, ny - 1, nz), dx, ny - 1, nz);
    }
  }

  lemma {:induction false} CopyBoxStops(read: Point -> Result<Block>, cell: (Point, Block) -> seq<Write>,
                                        s: Point, c: Copied, m: nat, nx: int, ny: int, nz: int)
    requires m <= nx && CopyBoxFold(read, cell, s, c, m, ny, nz).failure.Some?
    ensures CopyBoxFold(read, cell, s, c, nx, ny, nz) == CopyBoxFold(read, cell, s, c, m, ny, nz)
    decreases nx
  {
    if m < nx {
      CopyBoxStops(read, cell, s, c, m, nx - 1, ny, nz);
      CopySlabFailed(read, cell, s, CopyBoxFold(read, cell, s, c, nx - 1, ny, nz), nx - 1, ny, nz);
    }
  }

  /** The loops visit the positions of `Cuboid`, in its order. */
  lemma {:induction false} CopyLineFolds(read: Point -> Result<Block>, cell: (Point, Block) -> seq<Write>,
                                         s: Point, c: Copied, ps: seq<Point>, dx: int, dy: int, n: int)
    ensures CopyLineFold(read, cell, s, CopyAt(read, cell, c, ps), dx, dy, n) ==
            CopyAt(read, cell, c, ps + ZLine(s.0 + dx, s.1 + dy, s.2, n))
    decreases n
  {
    if n <= 0 {
      assert ps + ZLine(s.0 + dx, s.1 + dy, s.2, n) == ps;
    } else {
      var p := (s.0 + dx, s.1 + dy, s.2 + n - 1);
      CopyLineFolds(read, cell, s, c, ps, dx, dy, n - 1);
      AppendAssoc(ps, ZLine(s.0 + dx, s.1 + dy, s.2, n - 1), [p]);
      CopyAtSnoc(read, cell, c, ps + ZLine(s.0 + dx, s.1 + dy, s.2, n - 1), p);
    }
  }

  lemma {:induction false} CopySlabFolds(read: Point -> Result<Block>, cell: (Point, Block) -> seq<Write>,
                                         s: Point, c: Copied, ps: seq<Point>, dx: int, ny: int, nz: int)
    ensures CopySlabFold(read, cell, s, CopyAt(read, cell, c, ps), dx, ny, nz) ==
            CopyAt(read, cell, c, ps + YZSlab(s.0 + dx, s.1, ny, s.2, nz))
    decreases ny
  {
    if ny <= 0 {
      assert ps + YZSlab(s.0 + dx, s.1, ny, s.2, nz) == ps;
    } else {
      var prev, line := YZSlab(s.0 + dx, s.1, ny - 1, s.2, nz), ZLine(s.0 + dx, s.1 + (ny - 1), s.2, nz);
      var before := CopySlabFold(read, cell, s, CopyAt(read, cell, c, ps), dx, ny - 1, nz);
      assert CopySlabFold(read, cell, s, CopyAt(read, cell, c, ps), dx, ny, nz) ==
             CopyLineFold(read, cell, s, before, dx, ny - 1, nz);
      CopySlabFolds(read, cell, s, c, ps, dx, ny - 1, nz);
      CopyLineFolds(read, cell, s, c, ps + prev, dx, ny - 1, nz);
      assert ps + YZSlab(s.0 + dx, s.1, ny, s.2, nz) == (ps + prev) + line by {
        AppendAssoc(ps, prev, line);
      }
    }
  }

  lemma {:induction false} CopyBoxFolds(read: Point -> Result<Block>, cell: (Point, Block) -> seq<Write>,
                                        s: Point, c: Copied, nx: int, ny: int, nz: int)
    ensures CopyBoxFold(read, cell, s, c, nx, ny, nz) == CopyAt(read, cell, c, XYZBox(s.0, nx, s.1, ny, s.2, nz))
    decreases nx
  {
    if nx > 0 {
      var prev := XYZBox(s.0, nx - 1, s.1, ny, s.2, nz);
      CopyBoxFolds(read, cell, s, c, nx - 1, ny, nz);
      CopySlabFolds(read, cell, s, c, prev, nx - 1, ny, nz);
      assert XYZBox(s.0, nx, s.1, ny, s.2, nz) == prev + YZSlab(s.0 + (nx - 1), s.1, ny, s.2, nz);
    } else {
      assert XYZBox(s.0, nx, s.1, ny, s.2, nz) == [];
    }
  }

  /** The three loops together copy over the box of size w at s. */
  lemma CuboidCopies(read: Point -> Result<Block>, cell: (Point, Block) -> seq<Write>, s: Point, c: Copied, w: Point)
    ensures CopyBoxFold(read, cell, s, c, w.0, w.1, w.2) == CopyAt(read, cell, c, Cuboid(s, w))
  {
    CopyBoxFolds(read, cell, s, c, w.0, w.1, w.2);
  }

  /** What the block pass of `copy_blocks` over the box of size w at s
      does, reading `from`: the blocks at the positions before the first
      failed read are all read, and their copies at t are logged in order
      after `log0`; the pass fails exactly when a read does, with that
      read's error. */
  ghost predicate CopyLogged(from: World, s: Point, t: Point, w: Point, rep: seq<Point>,
                             log0: seq<Write>, log: seq<Write>, failure: Option<Error>)
  {
    var read, ps := WorldReads(from), Cuboid(s, w);
    var n := ReadCount(read, ps);
    BlocksAt(read, ps[..n]).Ok? &&
    log == log0 + CopyWrites(ps[..n], BlocksAt(read, ps[..n]).value, s, t, rep) &&
    (failure.None? <==> n == |ps|) &&
    (n < |ps| ==> failure == Some(read(ps[n]).error))
  }

  /** What the copy over `ps` does: the blocks at the positions before the
      first failed read are all read, and their copies are logged in
      order after `log0`; the copy fails exactly when a read does, with that
      read's error. */
  lemma {:induction false} CopyAtMeaning(read: Point -> Result<Block>, s: Point, t: Point, rep: seq<Point>,
                                         log0: seq<Write>, ps: seq<Point>)
    ensures var c, n := CopyAt(read, CellsOf(s, t, rep), Copied(log0, None), ps), ReadCount(read, ps);
      BlocksAt(read, ps[..n]).Ok? &&
      c.writes == log0 + CopyWrites(ps[..n], BlocksAt(read, ps[..n]).value, s, t, rep) &&
      (c.failure.None? <==> n == |ps|) &&
      (n < |ps| ==> c.failure == Some(read(ps[n]).error))
  {
    var cell := CellsOf(s, t, rep);
    if ps == [] {
      assert ps[..0] == [];
    } else {
      var q, p := ps[..|ps| - 1], ps[|ps| - 1];
      assert ps == q + [p];
      CopyAtMeaning(read, s, t, rep, log0, q);
      var d := CopyAt(read, cell, Copied(log0, None), q);
      assert CopyAt(read, cell, Copied(log0, None), ps) == CopyStep(read, cell, d, p);
      var m := ReadCount(read, q);
      assert forall i :: 0 <= i < |q| ==> q[i] == ps[i];
      if m < |q| {
        assert ps[..m] == q[..m];
      } else {
        assert q[..m] == q;
        if read(p).Ok? {
          assert ps[..|ps|] == ps;
          BlocksAtSnoc(read, q, p);
          var ws := CopyWrites(q, BlocksAt(read, q).value, s, t, rep);
          CopyWritesSnoc(q, BlocksAt(read, q).value, p, read(p).value, s, t, rep);
          AppendAssoc(log0, ws, CellCopies(read(p).value, p, s, t, rep));
        } else {
          assert ps[..m] == q;
        }
      }
    }
  }
}
