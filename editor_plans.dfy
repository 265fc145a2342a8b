/** What the editor (pyblock/editor.py) computes, as values: its dictionaries
    of lists with their insertion order, the writes that placing a maze piece,
    a maze or a copy records, the nested coordinate loops that read blocks,
    the re-homing of block entities and the flush of pending writes. The
    `Editor` class in module `Editing` is proved against these. */
module EditorPlans {
  import opened Common
  import opened Tools
  import opened Tags
  import opened Blocks

  type Point = (int, int, int)
  type ChunkId = ((int, int), (int, int))
  type SectionId = ((int, int), (int, int), int)

  /** A pending write: the block and its index inside the section. */
  type Change = (Block, int)

  /** `set_block(block, x, y, z)`: a block and the absolute position it goes to. */
  type Write = (Block, Point)

  // ----------------------------------------------------- dictionaries of lists

  /** A Python dict whose values are lists: the keys in insertion order and
      the list of each key. */
  datatype Lists<K(==,!new), V> = Lists(order: seq<K>, items: map<K, seq<V>>)

  function Empty<K(==,!new), V>(): Lists<K, V>
  {
    Lists([], map[])
  }

  /** The list of key k, the empty list when k is absent. */
  function Of<K(==,!new), V>(d: Lists<K, V>, k: K): seq<V>
  {
    if k in d.items then d.items[k] else []
  }

  /** The order lists every key once, and only keys. */
  predicate Ordered<K(==,!new), V>(d: Lists<K, V>)
  {
    (forall i, j :: 0 <= i < j < |d.order| ==> d.order[i] != d.order[j]) &&
    (forall k :: k in d.items ==> k in d.order) &&
    (forall i :: 0 <= i < |d.order| ==> d.order[i] in d.items)
  }

  /** `d[k].append(v)` when k is present, else `d[k] = [v]`. */
  function Push<K(==,!new), V>(d: Lists<K, V>, k: K, v: V): Lists<K, V>
  {
    if k in d.items then Lists(d.order, d.items[k := d.items[k] + [v]])
    else Lists(d.order + [k], d.items[k := [v]])
  }

  /** A push appends v to the list of k and to no other list, adds k to the
      keys, appends k to the order exactly when it is new, and keeps every
      key listed once. */
  lemma PushFacts<K(!new), V>(d: Lists<K, V>, k: K, v: V)
    ensures Ordered(d) ==> Ordered(Push(d, k, v))
    ensures Push(d, k, v).items.Keys == d.items.Keys + {k}
    ensures forall j :: Of(Push(d, k, v), j) == Of(d, j) + (if j == k then [v] else [])
    ensures Push(d, k, v).order == if k in d.items then d.order else d.order + [k]
  {
  }

  /** The pairs of `ps` pushed in order. */
  function PushAll<K(==,!new), V>(d: Lists<K, V>, ps: seq<(K, V)>): Lists<K, V>
  {
    if ps == [] then d else var q := ps[|ps| - 1]; Push(PushAll(d, ps[..|ps| - 1]), q.0, q.1)
  }

  /** Independently of the dictionary: the values paired with key k, in order. */
  function Selected<K(==,!new), V>(ps: seq<(K, V)>, k: K): seq<V>
  {
    if ps == [] then []
    else Selected(ps[..|ps| - 1], k) + (if ps[|ps| - 1].0 == k then [ps[|ps| - 1].1] else [])
  }

  lemma PushAllSnoc<K(!new), V>(d: Lists<K, V>, ps: seq<(K, V)>, q: (K, V))
    ensures PushAll(d, ps + [q]) == Push(PushAll(d, ps), q.0, q.1)
  {
    assert (ps + [q])[..|ps|] == ps;
  }

  /** Pushing a + b is pushing a, then b. */
  lemma {:induction false} PushAllAppend<K(!new), V>(d: Lists<K, V>, a: seq<(K, V)>, b: seq<(K, V)>)
    ensures PushAll(d, a + b) == PushAll(PushAll(d, a), b)
    decreases |b|
  {
    if b == [] {
      assert a + b == a;
    } else {
      var q := b[..|b| - 1];
      PushAllAppend(d, a, q);
      assert (a + b)[..|a + b| - 1] == a + q;
    }
  }

  lemma PushAllOne<K(!new), V>(d: Lists<K, V>, q: (K, V))
    ensures PushAll(d, [q]) == Push(d, q.0, q.1)
  {
    assert [q][..0] == [];
  }

  /** Pushing a sequence of pairs appends to each key's list exactly the
      values paired with it, in order, and keeps the keys in first-use order. */
  lemma {:induction false} PushAllOf<K(!new), V>(d: Lists<K, V>, ps: seq<(K, V)>, k: K)
    ensures Of(PushAll(d, ps), k) == Of(d, k) + Selected(ps, k)
    ensures k in PushAll(d, ps).items <==> k in d.items || Selected(ps, k) != []
    ensures Ordered(d) ==> Ordered(PushAll(d, ps))
  {
    if ps != [] {
      PushAllOf(d, ps[..|ps| - 1], k);
      PushFacts(PushAll(d, ps[..|ps| - 1]), ps[|ps| - 1].0, ps[|ps| - 1].1);
    }
  }

  /** A value is selected for k exactly when the pair (k, v) occurs. */
  lemma {:induction false} SelectedMembers<K(!new), V>(ps: seq<(K, V)>, k: K, v: V)
    ensures v in Selected(ps, k) <==> (k, v) in ps
  {
    if ps != [] {
      var t := ps[..|ps| - 1];
      assert ps == t + [ps[|ps| - 1]];
      SelectedMembers(t, k, v);
    }
  }

  // ------------------------------------------------------------- set_block

  /** The section of an absolute position: region, chunk in the region, level. */
  function SectionOf(p: Point): SectionId
  {
    var t := BlockToIdIndex(p.0, p.1, p.2);
    (t.0, t.1, t.2)
  }

  /** The index of an absolute position inside its section. */
  function IndexOf(p: Point): int
  {
    BlockToIdIndex(p.0, p.1, p.2).3
  }

  /** The chunk of an absolute position: region and chunk in the region. */
  function ChunkOf(p: Point): ChunkId
  {
    var t := BlockToIdIndex(p.0, p.1, p.2);
    (t.0, t.1)
  }

  /** The three base-16 digits of an index inside a section are unique. */
  lemma IndexDigits(a1: int, b1: int, c1: int, a2: int, b2: int, c2: int)
    requires 0 <= a1 < 16 && 0 <= b1 < 16 && 0 <= c1 < 16
    requires 0 <= a2 < 16 && 0 <= b2 < 16 && 0 <= c2 < 16
    requires a1 * 256 + b1 * 16 + c1 == a2 * 256 + b2 * 16 + c2
    ensures a1 == a2 && b1 == b2 && c1 == c2
  {
    var v := a1 * 256 + b1 * 16 + c1;
    FloorUnique(v, 256, a1, a2);
    FloorUnique(v - 256 * a1, 16, b1, b2);
  }

  /** A coordinate is fixed by its floor quotient by 16 and its remainder. */
  lemma QuotientRemainder(u: int, v: int, l: int)
    requires 16 * l <= u < 16 * l + 16 && 16 * l <= v < 16 * l + 16
    requires u % 16 == v % 16
    ensures u == v
  {
    FloorUnique(u, 16, u / 16, l);
    FloorUnique(v, 16, v / 16, l);
  }

  /** Section and index name the position: no two positions share both, so
      pending writes to one index of one section are writes to one block. */
  lemma IdIndexNamesPosition(p: Point, q: Point)
    requires SectionOf(p) == SectionOf(q) && IndexOf(p) == IndexOf(q)
    ensures p == q
  {
    var i, j := BlockToIdIndex(p.0, p.1, p.2), BlockToIdIndex(q.0, q.1, q.2);
    IndexDigits(p.1 % 16, p.2 % 16, p.0 % 16, q.1 % 16, q.2 % 16, q.0 % 16);
    QuotientRemainder(p.1, q.1, i.2);
    var a, b := BlockToRegionChunk(p.0, p.2), BlockToRegionChunk(q.0, q.2);
    assert a.2 == (p.0 % 16, p.2 % 16) && b.2 == (q.0 % 16, q.2 % 16);
    assert a.0 == b.0 && a.1 == b.1;
  }

  /** The dictionary entry `set_block` appends for one write. */
  function ChangeOf(w: Write): (SectionId, Change)
  {
    (SectionOf(w.1), (w.0, IndexOf(w.1)))
  }

  function Changes(ws: seq<Write>): (r: seq<(SectionId, Change)>)
    ensures |r| == |ws| && forall i :: 0 <= i < |ws| ==> r[i] == ChangeOf(ws[i])
  {
    if ws == [] then [] else Changes(ws[..|ws| - 1]) + [ChangeOf(ws[|ws| - 1])]
  }

  /** The pending writes after `set_block` was called for each of `ws` in order. */
  function Planned(m: Lists<SectionId, Change>, ws: seq<Write>): Lists<SectionId, Change>
  {
    if ws == [] then m
    else var w := ws[|ws| - 1]; Push(Planned(m, ws[..|ws| - 1]), SectionOf(w.1), (w.0, IndexOf(w.1)))
  }

  lemma PlannedSnoc(m: Lists<SectionId, Change>, ws: seq<Write>, w: Write)
    ensures Planned(m, ws + [w]) == Push(Planned(m, ws), SectionOf(w.1), (w.0, IndexOf(w.1)))
  {
    assert (ws + [w])[..|ws|] == ws;
  }

  /** `Planned` from the empty dictionary over the first n writes of `ws`,
      reading them by position (the same dictionary: `PlannedUpToIs`). */
  function PlannedUpTo(ws: seq<Write>, n: nat): Lists<SectionId, Change>
    requires n <= |ws|
    decreases n
  {
    if n == 0 then Empty()
    else var w := ws[n - 1]; Push(PlannedUpTo(ws, n - 1), SectionOf(w.1), (w.0, IndexOf(w.1)))
  }

  lemma {:induction false} PlannedUpToIs(ws: seq<Write>, n: nat)
    requires n <= |ws|
    ensures PlannedUpTo(ws, n) == Planned(Empty(), ws[..n])
    decreases n
  {
    if n > 0 {
      PlannedUpToIs(ws, n - 1);
      assert ws[..n][..n - 1] == ws[..n - 1];
    }
  }

  /** Writes beyond the first n do not change what the first n plan. */
  lemma {:induction false} PlannedUpToPrefix(a: seq<Write>, b: seq<Write>, n: nat)
    requires n <= |a| && n <= |b| && a[..n] == b[..n]
    ensures PlannedUpTo(a, n) == PlannedUpTo(b, n)
    decreases n
  {
    if n > 0 {
      assert a[..n - 1] == a[..n][..n - 1] && b[..n - 1] == b[..n][..n - 1];
      assert a[n - 1] == a[..n][n - 1] && b[n - 1] == b[..n][n - 1];
      PlannedUpToPrefix(a, b, n - 1);
    }
  }

  /** Recording writes is pushing their dictionary entries in order. */
  lemma {:induction false} PlannedPushes(m: Lists<SectionId, Change>, ws: seq<Write>)
    ensures Planned(m, ws) == PushAll(m, Changes(ws))
  {
    if ws != [] {
      PlannedPushes(m, ws[..|ws| - 1]);
    }
  }

  /** Each section's list gains the (block, index) of every write to that
      section, in call order, and a write to a position is recorded under
      that position's section exactly when it is one of `ws`. */
  lemma PlannedOf(m: Lists<SectionId, Change>, ws: seq<Write>, sid: SectionId, c: Change)
    ensures Of(Planned(m, ws), sid) == Of(m, sid) + Selected(Changes(ws), sid)
    ensures Ordered(m) ==> Ordered(Planned(m, ws))
    ensures c in Selected(Changes(ws), sid) <==> exists i :: 0 <= i < |ws| && ChangeOf(ws[i]) == (sid, c)
  {
    PlannedPushes(m, ws);
    PushAllOf(m, Changes(ws), sid);
    SelectedMembers(Changes(ws), sid, c);
    if (sid, c) in Changes(ws) {
      var i :| 0 <= i < |Changes(ws)| && Changes(ws)[i] == (sid, c);
      assert ChangeOf(ws[i]) == (sid, c);
    }
  }

  // ----------------------------------------------------------- place_piece

  /** What a piece writes at height y of one of its columns: the floor at
      y1, the fill above it up to y1 + height, the ceiling at y1 + height + 1. */
  predicate PieceLayer(y1: int, floor: Block, fill: Block, ceil: Block, height: int, w: Write)
  {
    (w.1.1 == y1 && w.0 == floor) ||
    (y1 < w.1.1 <= y1 + height && w.0 == fill) ||
    (w.1.1 == y1 + height + 1 && w.0 == ceil)
  }

  /** The fill of one column: y from y1 + 1 to y1 + n. */
  function Fill(x: int, y1: int, z: int, fill: Block, n: int): seq<Write>
    decreases n
  {
    if n <= 0 then [] else Fill(x, y1, z, fill, n - 1) + [(fill, (x, y1 + n, z))]
  }

  /** One column of a piece: floor, fill, ceiling, bottom to top. */
  function PieceColumn(x: int, y1: int, z: int, floor: Block, fill: Block, ceil: Block, height: int): seq<Write>
  {
    [(floor, (x, y1, z))] + Fill(x, y1, z, fill, height) + [(ceil, (x, y1 + height + 1, z))]
  }

  /** The columns dz = 0 .. n - 1 of row dx. */
  function PieceRow(x1: int, y1: int, z1: int, floor: Block, fill: Block, ceil: Block, height: int, dx: int, n: int)
    : seq<Write>
    decreases n
  {
    if n <= 0 then []
    else PieceRow(x1, y1, z1, floor, fill, ceil, height, dx, n - 1) + PieceColumn(x1 + dx, y1, z1 + n - 1, floor, fill, ceil, height)
  }

  /** Rows dx = 0 .. n - 1 of a piece of side `mag`. */
  function PieceRows(x1: int, y1: int, z1: int, floor: Block, fill: Block, ceil: Block, height: int, mag: int, n: int)
    : seq<Write>
    decreases n
  {
    if n <= 0 then []
    else PieceRows(x1, y1, z1, floor, fill, ceil, height, mag, n - 1) + PieceRow(x1, y1, z1, floor, fill, ceil, height, n - 1, mag)
  }

  /** The writes of `place_piece(x1, y1, z1, floor, fill, ceil, height, mag)`. */
  function Piece(x1: int, y1: int, z1: int, floor: Block, fill: Block, ceil: Block, height: int, mag: int): seq<Write>
  {
    PieceRows(x1, y1, z1, floor, fill, ceil, height, mag, mag)
  }

  lemma {:induction false} FillMembers(x: int, y1: int, z: int, fill: Block, n: int, w: Write)
    ensures w in Fill(x, y1, z, fill, n) <==> w.0 == fill && w.1.0 == x && w.1.2 == z && y1 < w.1.1 <= y1 + n
    decreases n
  {
    if n > 0 {
      FillMembers(x, y1, z, fill, n - 1, w);
    }
  }

  lemma PieceColumnMembers(x: int, y1: int, z: int, floor: Block, fill: Block, ceil: Block, height: int, w: Write)
    ensures w in PieceColumn(x, y1, z, floor, fill, ceil, height) <==>
              w.1.0 == x && w.1.2 == z && PieceLayer(y1, floor, fill, ceil, height, w)
  {
    FillMembers(x, y1, z, fill, height, w);
  }

  lemma {:induction false} PieceRowMembers(x1: int, y1: int, z1: int, floor: Block, fill: Block, ceil: Block, height: int,
                                           dx: int, n: int, w: Write)
    ensures w in PieceRow(x1, y1, z1, floor, fill, ceil, height, dx, n) <==>
              w.1.0 == x1 + dx && z1 <= w.1.2 < z1 + n && PieceLayer(y1, floor, fill, ceil, height, w)
    decreases n
  {
    if n > 0 {
      var a, b := PieceRow(x1, y1, z1, floor, fill, ceil, height, dx, n - 1), PieceColumn(x1 + dx, y1, z1 + n - 1, floor, fill, ceil, height);
      assert w in a + b <==> w in a || w in b;
      PieceRowMembers(x1, y1, z1, floor, fill, ceil, height, dx, n - 1, w);
      PieceColumnMembers(x1 + dx, y1, z1 + n - 1, floor, fill, ceil, height, w);
      assert z1 <= w.1.2 < z1 + n <==> z1 <= w.1.2 < z1 + (n - 1) || w.1.2 == z1 + n - 1;
    }
  }

  lemma {:induction false} PieceRowsMembers(x1: int, y1: int, z1: int, floor: Block, fill: Block, ceil: Block, height: int,
                                            mag: int, n: int, w: Write)
    ensures w in PieceRows(x1, y1, z1, floor, fill, ceil, height, mag, n) <==>
              x1 <= w.1.0 < x1 + n && z1 <= w.1.2 < z1 + mag && PieceLayer(y1, floor, fill, ceil, height, w)
    decreases n
  {
    if n > 0 {
      var a, b := PieceRows(x1, y1, z1, floor, fill, ceil, height, mag, n - 1), PieceRow(x1, y1, z1, floor, fill, ceil, height, n - 1, mag);
      assert w in a + b <==> w in a || w in b;
      PieceRowsMembers(x1, y1, z1, floor, fill, ceil, height, mag, n - 1, w);
      PieceRowMembers(x1, y1, z1, floor, fill, ceil, height, n - 1, mag, w);
      assert x1 <= w.1.0 < x1 + n <==> x1 <= w.1.0 < x1 + (n - 1) || w.1.0 == x1 + (n - 1);
    }
  }

  /** A piece writes, in every column of the mag x mag square at (x1, z1),
      the floor at y1, the fill from y1 + 1 to y1 + height and the ceiling
      at y1 + height + 1, and nothing anywhere else. */
  lemma PieceMembers(x1: int, y1: int, z1: int, floor: Block, fill: Block, ceil: Block, height: int, mag: int, w: Write)
    ensures w in Piece(x1, y1, z1, floor, fill, ceil, height, mag) <==>
              x1 <= w.1.0 < x1 + mag && z1 <= w.1.2 < z1 + mag && PieceLayer(y1, floor, fill, ceil, height, w)
  {
    PieceRowsMembers(x1, y1, z1, floor, fill, ceil, height, mag, mag, w);
  }

  // ----------------------------------------------------------- create_maze

  /** Cells 0 .. n - 1 of one row of a matrix, each contributing `cell(row,
      col, value)`, in order. */
  function GridRow<T>(matrix: seq<seq<int>>, cell: (int, int, int) -> seq<T>, row: int, n: int): seq<T>
    requires 0 <= row < |matrix| && n <= |matrix[row]|
    decreases n
  {
    if n <= 0 then [] else GridRow(matrix, cell, row, n - 1) + cell(row, n - 1, matrix[row][n - 1])
  }

  /** Rows 0 .. n - 1 of a matrix, row by row. */
  function GridRows<T>(matrix: seq<seq<int>>, cell: (int, int, int) -> seq<T>, n: int): seq<T>
    requires n <= |matrix|
    decreases n
  {
    if n <= 0 then [] else GridRows(matrix, cell, n - 1) + GridRow(matrix, cell, n - 1, |matrix[n - 1]|)
  }

  ghost predicate InCell<T>(matrix: seq<seq<int>>, cell: (int, int, int) -> seq<T>, row: int, col: int, w: T)
  {
    0 <= row < |matrix| && 0 <= col < |matrix[row]| && w in cell(row, col, matrix[row][col])
  }

  lemma {:induction false} GridRowMembers<T>(matrix: seq<seq<int>>, cell: (int, int, int) -> seq<T>, row: int, n: int, w: T)
    requires 0 <= row < |matrix| && n <= |matrix[row]|
    ensures w in GridRow(matrix, cell, row, n) <==> exists col :: col < n && InCell(matrix, cell, row, col, w)
    decreases n
  {
    if n > 0 {
      GridRowMembers(matrix, cell, row, n - 1, w);
      if w in cell(row, n - 1, matrix[row][n - 1]) {
        assert InCell(matrix, cell, row, n - 1, w);
      }
    }
  }

  lemma {:induction false} GridRowsMembers<T>(matrix: seq<seq<int>>, cell: (int, int, int) -> seq<T>, n: int, w: T)
    requires n <= |matrix|
    ensures w in GridRows(matrix, cell, n) <==> exists row, col :: row < n && InCell(matrix, cell, row, col, w)
    decreases n
  {
    if n > 0 {
      GridRowsMembers(matrix, cell, n - 1, w);
      GridRowMembers(matrix, cell, n - 1, |matrix[n - 1]|, w);
      if exists row, col :: row < n && InCell(matrix, cell, row, col, w) {
        var row, col :| row < n && InCell(matrix, cell, row, col, w);
        if row == n - 1 {
          assert w in GridRow(matrix, cell, n - 1, |matrix[n - 1]|);
        } else {
          assert w in GridRows(matrix, cell, n - 1);
        }
      }
    }
  }

  /** The piece `create_maze` places for cell (row, col): at
      (x0 + mag * row, y0, z0 + mag * col), filled with `wall` when the cell
      is truthy and with `air` otherwise. */
  function MazeCell(x0: int, y0: int, z0: int, floor: Block, wall: Block, ceil: Block, air: Block, height: int, mag: int)
    : (int, int, int) -> seq<Write>
  {
    (row, col, v) => Piece(x0 + mag * row, y0, z0 + mag * col, floor, if v != 0 then wall else air, ceil, height, mag)
  }

  /** The writes of `create_maze`: the pieces of every cell, row by row. */
  function MazeWrites(matrix: seq<seq<int>>, x0: int, y0: int, z0: int,
                      floor: Block, wall: Block, ceil: Block, air: Block, height: int, mag: int): seq<Write>
  {
    GridRows(matrix, MazeCell(x0, y0, z0, floor, wall, ceil, air, height, mag), |matrix|)
  }

  /** A maze writes exactly the pieces of its cells: a write belongs to the
      maze when it belongs to the piece of some cell (row, col) of the
      matrix, placed at (x0 + mag * row, y0, z0 + mag * col) and filled with
      `wall` on a truthy cell, `air` otherwise. */
  lemma MazeMembers(matrix: seq<seq<int>>, x0: int, y0: int, z0: int,
                    floor: Block, wall: Block, ceil: Block, air: Block, height: int, mag: int, w: Write)
    ensures w in MazeWrites(matrix, x0, y0, z0, floor, wall, ceil, air, height, mag) <==>
              exists row, col :: 0 <= row < |matrix| && 0 <= col < |matrix[row]| &&
                w in Piece(x0 + mag * row, y0, z0 + mag * col, floor, if matrix[row][col] != 0 then wall else air, ceil, height, mag)
  {
    var cell := MazeCell(x0, y0, z0, floor, wall, ceil, air, height, mag);
    GridRowsMembers(matrix, cell, |matrix|, w);
    if w in MazeWrites(matrix, x0, y0, z0, floor, wall, ceil, air, height, mag) {
      var row, col :| row < |matrix| && InCell(matrix, cell, row, col, w);
      CellIsPiece(matrix, x0, y0, z0, floor, wall, ceil, air, height, mag, row, col);
      assert w in Piece(x0 + mag * row, y0, z0 + mag * col, floor, if matrix[row][col] != 0 then wall else air, ceil, height, mag);
    }
    if exists row, col :: 0 <= row < |matrix| && 0 <= col < |matrix[row]| &&
         w in Piece(x0 + mag * row, y0, z0 + mag * col, floor, if matrix[row][col] != 0 then wall else air, ceil, height, mag)
    {
      var row, col :| 0 <= row < |matrix| && 0 <= col < |matrix[row]| &&
        w in Piece(x0 + mag * row, y0, z0 + mag * col, floor, if matrix[row][col] != 0 then wall else air, ceil, height, mag);
      CellIsPiece(matrix, x0, y0, z0, floor, wall, ceil, air, height, mag, row, col);
      assert InCell(matrix, cell, row, col, w);
    }
  }

  lemma CellIsPiece(matrix: seq<seq<int>>, x0: int, y0: int, z0: int,
                    floor: Block, wall: Block, ceil: Block, air: Block, height: int, mag: int, row: int, col: int)
    requires 0 <= row < |matrix| && 0 <= col < |matrix[row]|
    ensures MazeCell(x0, y0, z0, floor, wall, ceil, air, height, mag)(row, col, matrix[row][col]) ==
            Piece(x0 + mag * row, y0, z0 + mag * col, floor, if matrix[row][col] != 0 then wall else air, ceil, height, mag)
  {
  }
}
