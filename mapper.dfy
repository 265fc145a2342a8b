/** The colour map of an area (pyblock/mapper.py): one RGB buffer of
    dx x dz cells per y level, written with the x axis mirrored. The block
    colour table and the colour-name lookup are parameters; drawing the
    levels as images is not part of this model. */
module Mapper {
  import opened Common

  datatype Rgb = Rgb(red: byte, green: byte, blue: byte)

  /** What `np.zeros` fills a new level with. */
  const BLACK := Rgb(0, 0, 0)

  /** A map always has this many levels, one per y from 0 to 255. */
  const LEVELS: nat := 256

  /** The colour name a block id is drawn with: its entry in the table, else `'Red'`. */
  function ColorName(colors: map<string, string>, id: string): (r: string)
    ensures id in colors ==> r == colors[id]
    ensures id !in colors ==> r == "Red"
  {
    if id in colors then colors[id] else "Red"
  }

  /** `set_block_at_coord(x, z)` on a dx x dz level writes buffer cell (i, j). */
  predicate Hits(dx: int, dz: int, x: int, z: int, i: int, j: int)
  {
    0 < x < dx && 0 < z < dz && i == dx - x - 1 && j == z
  }

  /** A write lands inside the buffer, but never in its last row (local x = 0
      is rejected by the strict bound) nor in its first column (local z = 0). */
  lemma HitsInside(dx: int, dz: int, x: int, z: int, i: int, j: int)
    requires Hits(dx, dz, x, z, i, j)
    ensures 0 <= i < dx - 1 && 0 < j < dz
  {
  }

  /** The cells some write reaches are exactly those outside the last row and
      the first column, and each of them is reached from one local position only. */
  lemma HitsExactly(dx: int, dz: int, i: int, j: int)
    requires 0 <= i < dx && 0 <= j < dz
    ensures (exists x, z :: Hits(dx, dz, x, z, i, j)) <==> i < dx - 1 && 0 < j
    ensures forall x, z :: Hits(dx, dz, x, z, i, j) ==> x == dx - i - 1 && z == j
  {
    if i < dx - 1 && 0 < j {
      assert Hits(dx, dz, dx - i - 1, j, i, j);
    }
  }

  /** Every cell of a level holds `BLACK`. */
  ghost predicate Blank(l: PyLevel)
    reads l.data
  {
    forall i, j :: 0 <= i < l.data.Length0 && 0 <= j < l.data.Length1 ==> l.data[i, j] == BLACK
  }

  /** The image data of one y level. */
  class PyLevel {
    const y: int
    const dx: nat
    const dz: nat
    const data: array2<Rgb>

    ghost predicate Valid()
    {
      data.Length0 == dx && data.Length1 == dz
    }

    /** `PyLevel(y, dx, dz)`: an all-zero buffer; numpy refuses negative sizes. */
    constructor (y: int, dx: int, dz: int)
      requires 0 <= dx && 0 <= dz
      ensures this.y == y && this.dx == dx && this.dz == dz && Valid()
      ensures fresh(data) && Blank(this)
    {
      this.y := y;
      this.dx := dx;
      this.dz := dz;
      data := new Rgb[dx, dz]((i, j) => BLACK);
    }

    /** `set_block_at_coord(x, z, color)`: the mirrored cell (dx-x-1, z) takes
        the colour when 0 < x < dx and 0 < z < dz; nothing else changes. */
    method SetBlockAtCoord(x: int, z: int, color: Rgb)
      requires Valid()
      modifies data
      ensures forall i, j :: 0 <= i < dx && 0 <= j < dz ==>
                data[i, j] == if Hits(dx, dz, x, z, i, j) then color else old(data[i, j])
    {
      if x > 0 && x < dx && z > 0 && z < dz {
        data[dx - x - 1, z] := color;
      }
    }
  }

  /** The map of an area: its x and z limits, its levels and the block ids
      that had no colour. */
  class PyMap {
    const xmin: int
    const xmax: int
    const zmin: int
    const zmax: int
    const output: string
    const deltax: int
    const deltaz: int
    const levels: seq<PyLevel>
    var unknownBlocks: set<string>

    /** 256 levels of the map's size, level k at y = k, with separate buffers. */
    ghost predicate Valid()
    {
      |levels| == LEVELS &&
      (forall k :: 0 <= k < |levels| ==>
         levels[k].Valid() && levels[k].dx == deltax && levels[k].dz == deltaz && levels[k].y == k) &&
      (forall k, l :: 0 <= k < l < |levels| ==> levels[k].data != levels[l].data)
    }

    /** `PyMap(area, output)` for an area `(min, max)` of x, y, z triples. */
    constructor (area: ((int, int, int), (int, int, int)), output: string)
      requires area.0.0 <= area.1.0 && area.0.2 <= area.1.2
      ensures xmin == area.0.0 && xmax == area.1.0 && zmin == area.0.2 && zmax == area.1.2
      ensures deltax == xmax - xmin && deltaz == zmax - zmin && this.output == output
      ensures Valid() && unknownBlocks == {}
      ensures forall k :: 0 <= k < |levels| ==> fresh(levels[k].data) && Blank(levels[k])
    {
      var dx := area.1.0 - area.0.0;
      var dz := area.1.2 - area.0.2;
      var ls: seq<PyLevel> := [];
      var k := 0;
      while k < LEVELS
        invariant 0 <= k <= LEVELS && |ls| == k
        invariant forall m :: 0 <= m < k ==>
                    ls[m].Valid() && ls[m].dx == dx && ls[m].dz == dz && ls[m].y == m &&
                    fresh(ls[m].data) && Blank(ls[m])
        invariant forall m, l :: 0 <= m < l < k ==> ls[m].data != ls[l].data
      {
        var level := new PyLevel(k, dx, dz);
        ls := ls + [level];
        k := k + 1;
      }
      xmin := area.0.0;
      xmax := area.1.0;
      zmin := area.0.2;
      zmax := area.1.2;
      this.output := output;
      deltax := dx;
      deltaz := dz;
      levels := ls;
      unknownBlocks := {};
    }

    /** `set_block(x, y, z, block)` for a block with id `id`: an id missing
        from the table is recorded and drawn red; the colour goes to local
        position (x - xmin, z - zmin) of level `levels[y]` (a negative y counts
        from the top level), and a y outside [-256, 256) raises. */
    method SetBlock(x: int, y: int, z: int, id: string, colors: map<string, string>, nameToRgb: string -> Rgb)
      returns (r: Result<()>)
      requires Valid()
      modifies this, set k | 0 <= k < |levels| :: levels[k].data
      ensures Valid()
      ensures unknownBlocks == if id in colors then old(unknownBlocks) else old(unknownBlocks) + {id}
      ensures r.Err? <==> !(-(LEVELS as int) <= y < LEVELS)
      ensures r.Err? ==> r.error == IndexError
      ensures forall k, i, j :: 0 <= k < LEVELS && 0 <= i < deltax && 0 <= j < deltaz ==>
                levels[k].data[i, j] ==
                  if r.Ok? && k == Normalize(y, LEVELS) && Hits(deltax, deltaz, x - xmin, z - zmin, i, j)
                  then nameToRgb(ColorName(colors, id))
                  else old(levels[k].data[i, j])
    {
      var colorname := ColorName(colors, id);
      if id !in colors {
        unknownBlocks := unknownBlocks + {id};
      }
      var color := nameToRgb(colorname);
      var level := PyIndex(levels, y);
      if level.Err? {
        return Err(level.error);
      }
      ghost var n := Normalize(y, LEVELS);
      assert level.value == levels[n];
      level.value.SetBlockAtCoord(x - xmin, z - zmin, color);
      r := Ok(());
    }
  }
}
