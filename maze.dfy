/** The maze generator's grid and its probe (pyblock/maze.py): a grid of
    wall/path cells with border flags, a probe that walks forward along a
    path and backs out of dead ends, blocked cells, and the four-way move
    test. The random walk that drives the probe (`choose_next`, `create`)
    and the curses output are not part of this model. */
module Mazes {
  import opened Common

  /** A cell's two flags. Every `Cell` object of the source sits at exactly
      one grid position, so the grid holds cells as values and a flag change
      replaces the value at that position. */
  datatype Cell = Cell(isWall: bool, isBorder: bool)

  type Grid = seq<seq<Cell>>
  type Pos = (int, int)

  /** `Maze.directions`: up, down, left, right. */
  const DIRECTIONS: seq<Pos> := [(0, -1), (0, 1), (-1, 0), (1, 0)]

  /** `[Cell(border=True) for _ in range(w)]`. */
  function BorderRow(w: int): seq<Cell>
  {
    seq(Max(w, 0), _ => Cell(true, true))
  }

  /** A border cell, `w - 2` inner cells and a border cell: all walls. */
  function MiddleRow(w: int): seq<Cell>
  {
    [Cell(true, true)] + seq(Max(w - 2, 0), _ => Cell(true, false)) + [Cell(true, true)]
  }

  /** The grid `init_maze` builds before the entry and exit are opened: an
      upper border row, `height - 2` middle rows (none when height < 2) and a
      lower border row. */
  function InitialGrid(w: int, h: int): seq<seq<Cell>>
  {
    [BorderRow(w)] + seq(Max(h - 2, 0), _ => MiddleRow(w)) + [BorderRow(w)]
  }

  /** For a grid of at least two rows and columns, the initial grid is h rows
      of w walls, and a cell is border exactly on the outer ring. */
  lemma InitialGridShape(w: int, h: int)
    requires 2 <= w && 2 <= h
    ensures var g := InitialGrid(w, h);
            |g| == h &&
            (forall i :: 0 <= i < h ==> |g[i]| == w) &&
            (forall i, j :: 0 <= i < h && 0 <= j < w ==>
               g[i][j].isWall && (g[i][j].isBorder <==> i == 0 || i == h - 1 || j == 0 || j == w - 1))
  {
    var g: Grid := InitialGrid(w, h);
    forall i, j | 0 <= i < h && 0 <= j < w
      ensures g[i][j].isWall && (g[i][j].isBorder <==> i == 0 || i == h - 1 || j == 0 || j == w - 1)
    {
      if 0 < i < h - 1 {
        assert g[i] == MiddleRow(w);
      }
    }
  }

  /** A grid asked for with fewer than two rows still gets its two border
      rows, and a width below two still gives middle rows of two border cells. */
  lemma InitialGridSmall(w: int, h: int)
    ensures h < 2 ==> |InitialGrid(w, h)| == 2
    ensures 2 < h && w < 2 ==> |InitialGrid(w, h)[1]| == 2
  {
    if 2 < h && w < 2 {
      assert InitialGrid(w, h)[1] == MiddleRow(w);
    }
  }

  /** `maze[y][x]`, with Python's negative indices. */
  function CellAt(g: Grid, x: int, y: int): Result<Cell>
  {
    var row :- PyIndex(g, y);
    PyIndex(row, x)
  }

  /** The grid with cell `maze[y][x]` replaced by `f` of itself. */
  function Modify(g: Grid, x: int, y: int, f: Cell -> Cell): (r: Result<Grid>)
    ensures r.Ok? <==> CellAt(g, x, y).Ok?
    ensures r.Err? ==> r.error == IndexError
    ensures r.Ok? ==> |r.value| == |g| && forall i :: 0 <= i < |g| ==> |r.value[i]| == |g[i]|
    ensures r.Ok? ==> CellAt(r.value, x, y) == Ok(f(CellAt(g, x, y).value))
    ensures r.Ok? ==> forall i, j ::
                        (0 <= i < |g| && 0 <= j < |g[i]| && (i, j) != (Normalize(y, |g|), Normalize(x, |g[i]|))) ==>
                        r.value[i][j] == g[i][j]
  {
    if !(-|g| <= y < |g|) then Err(IndexError)
    else
      var i := Normalize(y, |g|);
      if !(-|g[i]| <= x < |g[i]|) then Err(IndexError)
      else
        var j := Normalize(x, |g[i]|);
        Ok(g[i := g[i][j := f(g[i][j])]])
  }

  function AsPath(c: Cell): Cell { c.(isWall := false) }
  function AsWall(c: Cell): Cell { c.(isWall := true) }
  function AsBorder(c: Cell): Cell { c.(isBorder := true) }
  function AsInner(c: Cell): Cell { c.(isBorder := false) }

  /** `set_entry_exit` on a grid: the border flag of the entry, then of the
      exit, is cleared; an index error at either stops there. */
  function Opened(g: Grid, entry: Pos, exit: Pos): (r: Result<Grid>)
    ensures r.Ok? ==> CellAt(r.value, exit.0, exit.1).Ok? && !CellAt(r.value, exit.0, exit.1).value.isBorder
  {
    var g1 :- Modify(g, entry.0, entry.1, AsInner);
    Modify(g1, exit.0, exit.1, AsInner)
  }

  /** With the default entry (w//2, 0) and exit (w//2, h-1) on a grid of at
      least two rows and columns, opening succeeds, both cells lose their
      border flag and every cell is still a wall. */
  lemma DefaultOpening(w: int, h: int)
    requires 2 <= w && 2 <= h
    ensures var r := Opened(InitialGrid(w, h), (w / 2, 0), (w / 2, h - 1));
            r.Ok? && |r.value| == h &&
            !r.value[0][w / 2].isBorder && !r.value[h - 1][w / 2].isBorder &&
            forall i, j :: 0 <= i < h && 0 <= j < |r.value[i]| ==> r.value[i][j].isWall
  {
    InitialGridShape(w, h);
    var g: Grid := InitialGrid(w, h);
    var g1: Grid := Modify(g, w / 2, 0, AsInner).value;
    assert !g1[0][w / 2].isBorder;
    var g2: Grid := Modify(g1, w / 2, h - 1, AsInner).value;
    assert g2[0][w / 2] == g1[0][w / 2];
  }

  /** The probe's grid: rows as tall as the maze and at least as wide. */
  ghost predicate Fits(g: Grid, width: int, height: int)
  {
    height <= |g| && forall i :: 0 <= i < height ==> width <= |g[i]|
  }

  /** The initial grid fits the maze's size whatever the size asked for. */
  lemma InitialGridFits(w: int, h: int)
    ensures Fits(InitialGrid(w, h), w, h)
  {
    var g: Grid := InitialGrid(w, h);
    forall i | 0 <= i < h
      ensures w <= |g[i]|
    {
      if 0 < i < |g| - 1 {
        assert g[i] == MiddleRow(w);
      }
    }
  }

  /** A cell change keeps a grid's shape, so it keeps fitting. */
  lemma ModifyFits(g: Grid, x: int, y: int, f: Cell -> Cell, width: int, height: int)
    requires Fits(g, width, height) && Modify(g, x, y, f).Ok?
    ensures Fits(Modify(g, x, y, f).value, width, height)
  {
  }

  class Maze {
    const width: int
    const height: int
    const entry: Pos
    const exit: Pos
    var maze: Grid
    var path: seq<Pos>
    var blocked: seq<Pos>
    var choices: seq<Pos>
    var x: int
    var y: int
    var stop: Option<Pos>
    var counter: int
    var flagPath: bool
    var flagDone: bool
    var stage: int

    /** Every in-range cell the move test looks at is in the grid. */
    ghost predicate Valid()
      reads this`maze
    {
      Fits(maze, width, height)
    }

    /** The field assignments of `Maze.__init__` before `init_maze`. */
    constructor Fields(width: int, height: int, entryPoint: Option<Pos>, exitPoint: Option<Pos>)
      ensures this.width == width && this.height == height
      ensures entry == (if entryPoint.Some? then entryPoint.value else (width / 2, 0))
      ensures exit == (if exitPoint.Some? then exitPoint.value else (width / 2, height - 1))
      ensures maze == [] && path == [] && blocked == [] && choices == []
      ensures x == 0 && y == 0 && stop == None && counter == 0
      ensures !flagPath && !flagDone && stage == 0
    {
      this.width := width;
      this.height := height;
      entry := if entryPoint.Some? then entryPoint.value else (width / 2, 0);
      exit := if exitPoint.Some? then exitPoint.value else (width / 2, height - 1);
      maze := [];
      path := [];
      blocked := [];
      choices := [];
      x := 0;
      y := 0;
      stop := None;
      counter := 0;
      flagPath := false;
      flagDone := false;
      stage := 0;
    }

    /** `Maze(width, height, entry_point, exit_point)`: the fields, then
        `init_maze`, whose index errors escape the constructor. */
    static method Create(width: int, height: int, entryPoint: Option<Pos>, exitPoint: Option<Pos>)
      returns (r: Result<Maze>)
      ensures var entry := if entryPoint.Some? then entryPoint.value else (width / 2, 0);
              var exit := if exitPoint.Some? then exitPoint.value else (width / 2, height - 1);
              var g := Opened(InitialGrid(width, height), entry, exit);
              (r.Ok? <==> g.Ok?) && (r.Err? ==> r.error == IndexError) &&
              (r.Ok? ==> fresh(r.value) && r.value.Valid() && r.value.maze == g.value &&
                         r.value.width == width && r.value.height == height &&
                         r.value.entry == entry && r.value.exit == exit &&
                         r.value.path == [] && r.value.blocked == [] && r.value.choices == [] &&
                         r.value.x == 0 && r.value.y == 0 && r.value.stop == None &&
                         r.value.counter == 0 && !r.value.flagPath && !r.value.flagDone && r.value.stage == 0)
    {
      var m := new Maze.Fields(width, height, entryPoint, exitPoint);
      var ok := m.InitMaze();
      if ok.Err? {
        return Err(ok.error);
      }
      r := Ok(m);
    }

    /** `init_maze`: builds the bordered grid row by row, then opens the
        entry and the exit. */
    method InitMaze() returns (r: Result<()>)
      modifies this`maze
      ensures var g := Opened(InitialGrid(width, height), entry, exit);
              (r.Ok? <==> g.Ok?) && (r.Err? ==> r.error == IndexError) && (r.Ok? ==> maze == g.value && Valid())
      ensures var g1 := Modify(InitialGrid(width, height), entry.0, entry.1, AsInner);
              r.Err? ==> maze == if g1.Ok? then g1.value else InitialGrid(width, height)
    {
      var upper := BorderRow(width);
      var g: Grid := [upper];
      var k := 0;
      while k < height - 2
        invariant 0 <= k <= Max(height - 2, 0)
        invariant g == [upper] + seq(k, _ => MiddleRow(width))
      {
        g := g + [MiddleRow(width)];
        k := k + 1;
        assert g == [upper] + seq(k, _ => MiddleRow(width));
      }
      g := g + [BorderRow(width)];
      assert g == InitialGrid(width, height);
      maze := g;
      InitialGridFits(width, height);
      r := SetEntryExit();
    }

    /** `set_entry_exit`: clears the border flag of the entry, then of the exit. */
    method SetEntryExit() returns (r: Result<()>)
      requires Valid()
      modifies this`maze
      ensures var g := Opened(old(maze), entry, exit);
              (r.Ok? <==> g.Ok?) && (r.Err? ==> r.error == IndexError) && (r.Ok? ==> maze == g.value) && Valid()
      ensures var g1 := Modify(old(maze), entry.0, entry.1, AsInner);
              r.Err? ==> maze == if g1.Ok? then g1.value else old(maze)
    {
      r := UnsetBorder(entry.0, entry.1);
      if r.Err? {
        return;
      }
      r := UnsetBorder(exit.0, exit.1);
    }

    /** `set_path(x, y)`: `maze[y][x]` becomes a path. */
    method SetPath(x: int, y: int) returns (r: Result<()>)
      requires Valid()
      modifies this`maze
      ensures var g := Modify(old(maze), x, y, AsPath);
              (r.Ok? <==> g.Ok?) && (r.Err? ==> r.error == IndexError && maze == old(maze)) &&
              (r.Ok? ==> maze == g.value) && Valid()
    {
      r := Change(x, y, AsPath);
    }

    /** `set_wall(x, y)`: `maze[y][x]` becomes a wall. */
    method SetWall(x: int, y: int) returns (r: Result<()>)
      requires Valid()
      modifies this`maze
      ensures var g := Modify(old(maze), x, y, AsWall);
              (r.Ok? <==> g.Ok?) && (r.Err? ==> r.error == IndexError && maze == old(maze)) &&
              (r.Ok? ==> maze == g.value) && Valid()
    {
      r := Change(x, y, AsWall);
    }

    /** `set_border(x, y)`: `maze[y][x]` becomes a border cell. */
    method SetBorder(x: int, y: int) returns (r: Result<()>)
      requires Valid()
      modifies this`maze
      ensures var g := Modify(old(maze), x, y, AsBorder);
              (r.Ok? <==> g.Ok?) && (r.Err? ==> r.error == IndexError && maze == old(maze)) &&
              (r.Ok? ==> maze == g.value) && Valid()
    {
      r := Change(x, y, AsBorder);
    }

    /** `unset_border(x, y)`: `maze[y][x]` is no longer a border cell. */
    method UnsetBorder(x: int, y: int) returns (r: Result<()>)
      requires Valid()
      modifies this`maze
      ensures var g := Modify(old(maze), x, y, AsInner);
              (r.Ok? <==> g.Ok?) && (r.Err? ==> r.error == IndexError && maze == old(maze)) &&
              (r.Ok? ==> maze == g.value) && Valid()
    {
      r := Change(x, y, AsInner);
    }

    /** One flag write at `maze[y][x]`, shared by the four setters. */
    method Change(x: int, y: int, f: Cell -> Cell) returns (r: Result<()>)
      requires Valid()
      modifies this`maze
      ensures var g := Modify(old(maze), x, y, f);
              (r.Ok? <==> g.Ok?) && (r.Err? ==> r.error == IndexError && maze == old(maze)) &&
              (r.Ok? ==> maze == g.value) && Valid()
    {
      var g := Modify(maze, x, y, f);
      if g.Err? {
        return Err(g.error);
      }
      ModifyFits(maze, x, y, f, width, height);
      maze := g.value;
      r := Ok(());
    }

    /** `is_path(x, y)`: false outside the grid, else whether the cell is not a wall. */
    predicate IsPath(x: int, y: int)
      requires Valid()
      reads this`maze
    {
      if x < 0 || x >= width then false
      else if y < 0 || y >= height then false
      else !maze[y][x].isWall
    }

    /** `is_blocked(x, y)`: listed as blocked, or a border cell; the grid
        lookup follows Python's indexing and can raise. */
    function IsBlocked(x: int, y: int): (r: Result<bool>)
      reads this`maze, this`blocked
      ensures (x, y) in blocked ==> r == Ok(true)
      ensures (x, y) !in blocked ==> r == (if CellAt(maze, x, y).Ok? then Ok(CellAt(maze, x, y).value.isBorder) else Err(IndexError))
    {
      if (x, y) in blocked then Ok(true)
      else
        var c :- CellAt(maze, x, y);
        Ok(c.isBorder)
    }

    /** `possible(x, y, dx, dy)`: whether the probe at (x, y) may step to
        (x+dx, y+dy). */
    predicate Possible(x: int, y: int, dx: int, dy: int)
      requires Valid()
      reads this`maze, this`blocked, this`stage, this`stop
    {
      var tx, ty := x + dx, y + dy;
      if tx < 0 || tx >= width then false
      else if ty < 0 || ty >= height then false
      else if stage == 1 && stop == Some((tx, ty)) then true
      else if IsPath(tx, ty) then false
      else if IsPath(x + 2 * dx, y + 2 * dy) then false
      else if IsBlocked(tx, ty).value then false
      else if dx == 0 then !(IsPath(x + 1, ty) || IsPath(x - 1, ty))
      else !(IsPath(tx, y + 1) || IsPath(tx, y - 1))
    }

    /** A step is possible exactly when it stays in the grid and either hits
        the stop point of stage 1, or goes to an unblocked, non-border wall
        whose continuation and whose two side neighbours are walls. */
    lemma PossibleMeans(x: int, y: int, dx: int, dy: int)
      requires Valid()
      ensures var tx, ty := x + dx, y + dy;
              Possible(x, y, dx, dy) <==>
                0 <= tx < width && 0 <= ty < height &&
                ((stage == 1 && stop == Some((tx, ty))) ||
                 (maze[ty][tx].isWall && !maze[ty][tx].isBorder && (tx, ty) !in blocked &&
                  !IsPath(x + 2 * dx, y + 2 * dy) &&
                  (dx == 0 ==> !IsPath(x + 1, ty) && !IsPath(x - 1, ty)) &&
                  (dx != 0 ==> !IsPath(tx, y + 1) && !IsPath(tx, y - 1))))
    {
    }

    /** The directions among `dirs` that `possible` accepts from (x, y), in order. */
    function ChoicesAmong(x: int, y: int, dirs: seq<Pos>): (r: seq<Pos>)
      requires Valid()
      reads this`maze, this`blocked, this`stage, this`stop
      ensures |r| <= |dirs|
    {
      if dirs == [] then []
      else
        var d := dirs[|dirs| - 1];
        ChoicesAmong(x, y, dirs[..|dirs| - 1]) + (if Possible(x, y, d.0, d.1) then [d] else [])
    }

    /** A direction is a choice exactly when it is listed and possible. */
    lemma {:induction false} ChoicesAmongSpec(x: int, y: int, dirs: seq<Pos>, d: Pos)
      requires Valid()
      ensures d in ChoicesAmong(x, y, dirs) <==> d in dirs && Possible(x, y, d.0, d.1)
    {
      if dirs != [] {
        ChoicesAmongSpec(x, y, dirs[..|dirs| - 1], d);
        assert dirs == dirs[..|dirs| - 1] + [dirs[|dirs| - 1]];
      }
    }

    /** `get_choices`: the possible directions from the probe, in the order
        up, down, left, right; they are also stored in `choices`. */
    method GetChoices() returns (r: seq<Pos>)
      requires Valid()
      modifies this`choices
      ensures r == choices == ChoicesAmong(x, y, DIRECTIONS)
      ensures forall d :: d in r <==> d in DIRECTIONS && Possible(x, y, d.0, d.1)
    {
      var found: seq<Pos> := [];
      for i := 0 to |DIRECTIONS|
        invariant found == ChoicesAmong(x, y, DIRECTIONS[..i])
      {
        var d := DIRECTIONS[i];
        assert DIRECTIONS[..i + 1][..i] == DIRECTIONS[..i];
        if Possible(x, y, d.0, d.1) {
          found := found + [d];
        }
      }
      assert DIRECTIONS[..|DIRECTIONS|] == DIRECTIONS;
      choices := found;
      r := found;
      forall d | true
        ensures d in r <==> d in DIRECTIONS && Possible(x, y, d.0, d.1)
      {
        ChoicesAmongSpec(x, y, DIRECTIONS, d);
      }
    }

    /** `forward(x, y)`: the probe moves to (x, y), which is pushed on the
        path and made a path cell; the step counter grows by one. */
    method Forward(x: int, y: int) returns (r: Result<()>)
      requires Valid()
      modifies this`counter, this`x, this`y, this`path, this`maze
      ensures counter == old(counter) + 1 && this.x == x && this.y == y && path == old(path) + [(x, y)]
      ensures var g := Modify(old(maze), x, y, AsPath);
              (r.Ok? <==> g.Ok?) && (r.Err? ==> r.error == IndexError && maze == old(maze)) &&
              (r.Ok? ==> maze == g.value) && Valid()
      ensures 0 <= x < width && 0 <= y < height ==> r.Ok? && IsPath(x, y)
    {
      counter := counter + 1;
      this.x := x;
      this.y := y;
      path := path + [(x, y)];
      r := SetPath(x, y);
    }

    /** `backward()`: pops the path. With cells left the probe moves to the
        new last one and, while no main path is known, the popped cell is
        blocked and walled again; with none left the probe stays on the popped
        cell and the maze is done. Popping an empty path raises. */
    method Backward() returns (r: Result<()>)
      requires Valid()
      modifies this`counter, this`x, this`y, this`path, this`maze, this`blocked, this`flagDone
      ensures counter == old(counter) + 1 && Valid()
      ensures old(path) == [] ==>
                r == Err(IndexError) && path == [] && x == old(x) && y == old(y) &&
                maze == old(maze) && blocked == old(blocked) && flagDone == old(flagDone)
      ensures old(path) != [] ==>
                var n := |old(path)| - 1;
                var p := old(path)[n];
                path == old(path)[..n] &&
                (n == 0 ==> (x, y) == p && flagDone && r == Ok(()) && maze == old(maze) && blocked == old(blocked)) &&
                (n > 0 ==> (x, y) == path[n - 1] && flagDone == old(flagDone)) &&
                (n > 0 && flagPath ==> r == Ok(()) && maze == old(maze) && blocked == old(blocked)) &&
                (n > 0 && !flagPath ==>
                   blocked == old(blocked) + [p] &&
                   var g := Modify(old(maze), p.0, p.1, AsWall);
                   (r.Ok? <==> g.Ok?) && (r.Ok? ==> maze == g.value) && (r.Err? ==> maze == old(maze)))
    {
      counter := counter + 1;
      if path == [] {
        return Err(IndexError);
      }
      var p := path[|path| - 1];
      path := path[..|path| - 1];
      if |path| > 0 {
        x, y := path[|path| - 1].0, path[|path| - 1].1;
      } else {
        x, y := p.0, p.1;
        flagDone := true;
        return Ok(());
      }
      if !flagPath {
        blocked := blocked + [p];
        r := SetWall(p.0, p.1);
      } else {
        r := Ok(());
      }
    }

    /** `get_matrix()`: one row per maze row and one entry per column, 1 for a
        wall and 0 for a path. */
    method GetMatrix() returns (m: seq<seq<int>>)
      requires Valid()
      ensures |m| == Max(height, 0) && forall i :: 0 <= i < |m| ==> i < |maze| && Max(width, 0) <= |maze[i]|
      ensures forall i :: 0 <= i < |m| ==> |m[i]| == Max(width, 0)
      ensures forall i, j :: 0 <= i < |m| && 0 <= j < |m[i]| ==> m[i][j] == (if maze[i][j].isWall then 1 else 0)
      ensures forall i, j :: 0 <= i < |m| && 0 <= j < |m[i]| ==> (m[i][j] == 0 <==> IsPath(j, i))
    {
      m := [];
      var i := 0;
      while i < height
        invariant 0 <= i <= Max(height, 0) && |m| == i
        invariant forall a :: 0 <= a < i ==> |m[a]| == Max(width, 0)
        invariant forall a, b :: 0 <= a < i && 0 <= b < |m[a]| ==> m[a][b] == (if maze[a][b].isWall then 1 else 0)
      {
        var row: seq<int> := [];
        var j := 0;
        while j < width
          invariant 0 <= j <= Max(width, 0) && |row| == j
          invariant forall b :: 0 <= b < j ==> row[b] == (if maze[i][b].isWall then 1 else 0)
        {
          row := row + [if maze[i][j].isWall then 1 else 0];
          j := j + 1;
        }
        m := m + [row];
        i := i + 1;
      }
    }
  }
}
