/** The chunk object of the older region parser (pyblock/chunk.py): a
    chunk's header data, its decoded tag tree, and the grouping of the
    absolute block positions of its sections by block, restricted to a
    search area. Decoding the tag bytes and reading a block out of a section
    (the tag library's `AnvilSection`) are parameters. */
module LegacyChunks {
  import opened Common
  import opened Tags

  type Point = (int, int, int)

  /** The search area `(cmin, cmax)`; `None` stands for an unset (falsy) area. */
  type Area = Option<(Point, Point)>

  /** `in_area(x, y, z)`: every position when no area is set, otherwise the
      half-open box cmin <= p < cmax on each axis. */
  predicate InArea(area: Area, x: int, y: int, z: int)
  {
    area.None? ||
    (var (cmin, cmax) := area.value;
     cmin.0 <= x < cmax.0 && cmin.1 <= y < cmax.1 && cmin.2 <= z < cmax.2)
  }

  /** A box contains exactly the positions between its corners, and an empty
      box (some max not above its min) contains none. */
  lemma InAreaBox(cmin: Point, cmax: Point, p: Point)
    ensures InArea(Some((cmin, cmax)), p.0, p.1, p.2) ==> cmin.0 <= p.0 && cmin.1 <= p.1 && cmin.2 <= p.2
    ensures InArea(Some((cmin, cmax)), p.0, p.1, p.2) ==> p.0 < cmax.0 && p.1 < cmax.1 && p.2 < cmax.2
    ensures cmax.0 <= cmin.0 || cmax.1 <= cmin.1 || cmax.2 <= cmin.2 ==> !InArea(Some((cmin, cmax)), p.0, p.1, p.2)
  {
  }

  /** `tag.get(key)`: the first child of that name or `None`; only a
      compound has children. */
  function Lookup(t: Tag, key: string): (r: Result<Option<Tag>>)
    ensures r.Err? <==> !t.payload.Compound?
    ensures r.Ok? ==> (r.value.Some? <==> Has(t, key))
    ensures r.Ok? && r.value.Some? ==> r.value == Some(Get(t, key).value)
  {
    if !t.payload.Compound? then Err(TypeError)
    else if Has(t, key) then Ok(Some(Get(t, key).value))
    else Ok(None)
  }

  /** `int(str(tag))`: the value of an integer tag; a missing tag prints as
      `None`, which is no integer. */
  function IntOf(t: Option<Tag>): (r: Result<int>)
    ensures t.Some? && t.value.payload.Int? ==> r == Ok(t.value.payload.i)
    ensures t.None? ==> r == Err(ValueError)
  {
    if t.None? then Err(ValueError)
    else match t.value.payload
      case Byte(b) => Ok(b)
      case Int(i) => Ok(i)
      case Long(l) => Ok(l)
      case _ => Err(ValueError)
  }

  /** `nbt.tags[0]`: the first child of the root compound. */
  function Level(root: Tag): (r: Result<Tag>)
    ensures r.Ok? ==> root.payload.Compound? && root.payload.tags != [] && r.value == root.payload.tags[0]
    ensures root.payload.Compound? && root.payload.tags == [] ==> r == Err(IndexError)
  {
    if !root.payload.Compound? then Err(TypeError)
    else if root.payload.tags == [] then Err(IndexError)
    else Ok(root.payload.tags[0])
  }

  /** The value of integer field `key` of the level tag. */
  function LevelInt(root: Tag, key: string): Result<int>
  {
    var level :- Level(root);
    var t :- Lookup(level, key);
    IntOf(t)
  }

  /** `get_coords()` of a decoded chunk: (xPos, zPos) of its level tag. */
  function Coords(root: Tag): (r: Result<(int, int)>)
    ensures r.Ok? <==> LevelInt(root, "xPos").Ok? && LevelInt(root, "zPos").Ok?
    ensures r.Ok? ==> r.value == (LevelInt(root, "xPos").value, LevelInt(root, "zPos").value)
    ensures LevelInt(root, "xPos").Err? ==> r.Err? && r.error == LevelInt(root, "xPos").error
  {
    var x :- LevelInt(root, "xPos");
    var z :- LevelInt(root, "zPos");
    Ok((x, z))
  }

  /** A level tag whose first `xPos` and `zPos` children are integers gives
      those integers as the chunk's coordinates, whatever else it holds. */
  lemma CoordsOfLevel(name: string, x: int, z: int, rest: seq<Tag>, others: seq<Tag>)
    ensures var level := Tag("Level", Compound([Tag("xPos", Int(x)), Tag("zPos", Int(z))] + rest));
            Coords(Tag(name, Compound([level] + others))) == Ok((x, z))
  {
    var tags := [Tag("xPos", Int(x)), Tag("zPos", Int(z))] + rest;
    var level := Tag("Level", Compound(tags));
    assert tags[0].name == "xPos" && tags[1].name == "zPos";
    assert Has(level, "xPos") && Has(level, "zPos");
    assert ([level] + others)[0] == level;
  }

  /** `tags[0].get("Sections")` where that is a list; `None` when it is
      missing or not a list (slicing it later fails). */
  function SectionsOf(level: Tag): (r: Result<Option<seq<Tag>>>)
    ensures r.Err? <==> !level.payload.Compound?
  {
    var s :- Lookup(level, "Sections");
    if s.Some? && s.value.payload.List? then Ok(Some(s.value.payload.items)) else Ok(None)
  }

  /** What `add_data` reads from chunk bytes: the decoded root, then the
      section list of its level tag. */
  function Decoded(raw: seq<byte>, parse: seq<byte> -> Result<Tag>): Result<(Tag, Option<seq<Tag>>)>
  {
    var root :- parse(raw);
    var level :- Level(root);
    var secs :- SectionsOf(level);
    Ok((root, secs))
  }

  /** Whether a tag is truthy: an empty list, compound, array or string is not. */
  predicate Truthy(t: Tag)
  {
    match t.payload
      case List(items) => items != []
      case Compound(tags) => tags != []
      case LongArray(words) => words != []
      case Str(s) => s != ""
      case _ => true
  }

  /** The format version `get_blocks` passes for a section: 1631 when it has
      a (non-empty) palette, else 0. */
  function SectionVersion(s: Tag): (r: int)
    ensures r == 1631 || r == 0
    ensures r == 1631 ==> Has(s, "Palette")
  {
    if Has(s, "Palette") && Truthy(Get(s, "Palette").value) then 1631 else 0
  }

  /** `int(str(section.get('Y')))`. */
  function SectionY(s: Tag): Result<int>
  {
    var t :- Lookup(s, "Y");
    IntOf(t)
  }

  /** The record cell (x, y, z) of a section at (cx, cy, cz) adds: its block
      and absolute position when that position is in the area, else nothing. */
  function CellTail<B>(cx: int, cy: int, cz: int, area: Area, cellBlock: (int, int, int) -> B, x: int, y: int, z: int)
    : seq<(B, Point)>
  {
    if InArea(area, cx + x, cy + y, cz + z) then [(cellBlock(x, y, z), (cx + x, cy + y, cz + z))] else []
  }

  /** The records of cells (x, y, 0) .. (x, y, n-1): the innermost loop. */
  function ZRun<B>(cx: int, cy: int, cz: int, area: Area, cellBlock: (int, int, int) -> B, x: int, y: int, n: nat)
    : seq<(B, Point)>
  {
    if n == 0 then [] else ZRun(cx, cy, cz, area, cellBlock, x, y, n - 1) + CellTail(cx, cy, cz, area, cellBlock, x, y, n - 1)
  }

  /** The records of rows y = 0 .. n-1 of slice x: the middle loop. */
  function YRun<B>(cx: int, cy: int, cz: int, area: Area, cellBlock: (int, int, int) -> B, x: int, n: nat)
    : seq<(B, Point)>
  {
    if n == 0 then [] else YRun(cx, cy, cz, area, cellBlock, x, n - 1) + ZRun(cx, cy, cz, area, cellBlock, x, n - 1, 16)
  }

  /** The records of slices x = 0 .. n-1: the outer loop. */
  function XRun<B>(cx: int, cy: int, cz: int, area: Area, cellBlock: (int, int, int) -> B, n: nat)
    : seq<(B, Point)>
  {
    if n == 0 then [] else XRun(cx, cy, cz, area, cellBlock, n - 1) + YRun(cx, cy, cz, area, cellBlock, n - 1, 16)
  }

  /** The records of a whole section at (cx, cy, cz), in loop order. */
  function Cells<B>(cx: int, cy: int, cz: int, area: Area, cellBlock: (int, int, int) -> B): seq<(B, Point)>
  {
    XRun(cx, cy, cz, area, cellBlock, 16)
  }

  /** A record of the first n cells of a row is an in-area cell of it. */
  lemma {:induction false} ZRunSpec<B>(cx: int, cy: int, cz: int, area: Area, cellBlock: (int, int, int) -> B,
                                       x: int, y: int, n: nat, rec: (B, Point))
    ensures rec in ZRun(cx, cy, cz, area, cellBlock, x, y, n) <==>
              exists z :: 0 <= z < n && InArea(area, cx + x, cy + y, cz + z) && rec == (cellBlock(x, y, z), (cx + x, cy + y, cz + z))
  {
    if n > 0 {
      ZRunSpec(cx, cy, cz, area, cellBlock, x, y, n - 1, rec);
    }
  }

  /** A record of the first n rows of a slice is an in-area cell of them. */
  lemma {:induction false} YRunSpec<B>(cx: int, cy: int, cz: int, area: Area, cellBlock: (int, int, int) -> B,
                                       x: int, n: nat, rec: (B, Point))
    ensures rec in YRun(cx, cy, cz, area, cellBlock, x, n) <==>
              exists y, z :: 0 <= y < n && 0 <= z < 16 &&
                            InArea(area, cx + x, cy + y, cz + z) && rec == (cellBlock(x, y, z), (cx + x, cy + y, cz + z))
  {
    if n > 0 {
      YRunSpec(cx, cy, cz, area, cellBlock, x, n - 1, rec);
      ZRunSpec(cx, cy, cz, area, cellBlock, x, n - 1, 16, rec);
    }
  }

  /** A record of the first n slices is an in-area cell of them. */
  lemma {:induction false} XRunSpec<B>(cx: int, cy: int, cz: int, area: Area, cellBlock: (int, int, int) -> B,
                                       n: nat, rec: (B, Point))
    ensures rec in XRun(cx, cy, cz, area, cellBlock, n) <==>
              exists x, y, z :: 0 <= x < n && 0 <= y < 16 && 0 <= z < 16 &&
                               InArea(area, cx + x, cy + y, cz + z) && rec == (cellBlock(x, y, z), (cx + x, cy + y, cz + z))
  {
    if n > 0 {
      XRunSpec(cx, cy, cz, area, cellBlock, n - 1, rec);
      YRunSpec(cx, cy, cz, area, cellBlock, n - 1, 16, rec);
    }
  }

  /** Every record of a section is an in-area cell of it, at its absolute
      position and with its block; and every in-area cell is recorded. */
  lemma CellsSpec<B>(cx: int, cy: int, cz: int, area: Area, cellBlock: (int, int, int) -> B, rec: (B, Point))
    ensures rec in Cells(cx, cy, cz, area, cellBlock) <==>
              exists x, y, z :: 0 <= x < 16 && 0 <= y < 16 && 0 <= z < 16 &&
                                InArea(area, cx + x, cy + y, cz + z) && rec == (cellBlock(x, y, z), (cx + x, cy + y, cz + z))
  {
    XRunSpec(cx, cy, cz, area, cellBlock, 16, rec);
  }

  /** Cell (x, y, z) of the section is recorded exactly when it is in the area. */
  lemma SectionCells<B>(cx: int, cy: int, cz: int, area: Area, cellBlock: (int, int, int) -> B, x: int, y: int, z: int)
    requires 0 <= x < 16 && 0 <= y < 16 && 0 <= z < 16
    ensures (cellBlock(x, y, z), (cx + x, cy + y, cz + z)) in Cells(cx, cy, cz, area, cellBlock) <==>
              InArea(area, cx + x, cy + y, cz + z)
  {
    CellsSpec(cx, cy, cz, area, cellBlock, (cellBlock(x, y, z), (cx + x, cy + y, cz + z)));
  }

  /** The records of one section of `sections[1:]`: none when it has neither
      `Palette` nor `Blocks`, otherwise its 4096 cells at height 16*Y. */
  function SectionRecords<B>(cx: int, cz: int, area: Area, blockAt: (Tag, int, int, int, int) -> B, s: Tag): Result<seq<(B, Point)>>
  {
    if !Has(s, "Palette") && !Has(s, "Blocks") then Ok([])
    else
      var y :- SectionY(s);
      Ok(Cells(cx, 16 * y, cz, area, (x, y', z) => blockAt(s, SectionVersion(s), x, y', z)))
  }

  /** The records of a list of sections, in order, or the first section's error. */
  function SectionsRecords<B>(cx: int, cz: int, area: Area, blockAt: (Tag, int, int, int, int) -> B, secs: seq<Tag>): Result<seq<(B, Point)>>
  {
    if secs == [] then Ok([])
    else
      var prev :- SectionsRecords(cx, cz, area, blockAt, secs[..|secs| - 1]);
      var last :- SectionRecords(cx, cz, area, blockAt, secs[|secs| - 1]);
      Ok(prev + last)
  }

  /** A section that fails after a run of good ones makes the whole list fail with its error. */
  lemma {:induction false} SectionsRecordsFail<B>(cx: int, cz: int, area: Area, blockAt: (Tag, int, int, int, int) -> B,
                                                   secs: seq<Tag>, i: nat, e: Error)
    requires i < |secs| && SectionsRecords(cx, cz, area, blockAt, secs[..i]).Ok?
    requires SectionRecords(cx, cz, area, blockAt, secs[i]) == Err(e)
    ensures SectionsRecords(cx, cz, area, blockAt, secs) == Err(e)
  {
    if |secs| == i + 1 {
      assert secs[..|secs| - 1] == secs[..i];
    } else {
      var init := secs[..|secs| - 1];
      assert init[..i] == secs[..i] && init[i] == secs[i];
      SectionsRecordsFail(cx, cz, area, blockAt, init, i, e);
    }
  }

  /** The dictionary after cell (x, y, z): its record appended, if any. */
  lemma GroupedTail<B>(recs: seq<(B, Point)>, cx: int, cy: int, cz: int, area: Area,
                       cellBlock: (int, int, int) -> B, x: int, y: int, z: int)
    ensures Grouped(recs + CellTail(cx, cy, cz, area, cellBlock, x, y, z)) ==
            if InArea(area, cx + x, cy + y, cz + z) then AddTo(Grouped(recs), cellBlock(x, y, z), (cx + x, cy + y, cz + z))
            else Grouped(recs)
  {
    var tail := CellTail(cx, cy, cz, area, cellBlock, x, y, z);
    if InArea(area, cx + x, cy + y, cz + z) {
      assert (recs + tail)[..|recs|] == recs;
    } else {
      assert recs + tail == recs;
    }
  }

  /** `blocks[b].append(p)`, or `blocks[b] = [p]` for a new block. */
  function AddTo<B(==)>(blocks: map<B, seq<Point>>, b: B, p: Point): map<B, seq<Point>>
  {
    if b in blocks then blocks[b := blocks[b] + [p]] else blocks[b := [p]]
  }

  /** The dictionary `get_blocks` builds from a list of records. */
  function Grouped<B(==)>(recs: seq<(B, Point)>): map<B, seq<Point>>
  {
    if recs == [] then map[]
    else
      var last := recs[|recs| - 1];
      AddTo(Grouped(recs[..|recs| - 1]), last.0, last.1)
  }

  /** The positions recorded for block b, in record order. */
  function PointsOf<B(==)>(recs: seq<(B, Point)>, b: B): (r: seq<Point>)
    ensures |r| <= |recs|
  {
    if recs == [] then []
    else
      var last := recs[|recs| - 1];
      PointsOf(recs[..|recs| - 1], b) + (if last.0 == b then [last.1] else [])
  }

  /** The dictionary has a key for each recorded block, and under it that
      block's positions in record order. */
  lemma {:induction false} GroupedSpec<B>(recs: seq<(B, Point)>, b: B)
    ensures b in Grouped(recs) <==> PointsOf(recs, b) != []
    ensures b in Grouped(recs) ==> Grouped(recs)[b] == PointsOf(recs, b)
  {
    if recs != [] {
      GroupedSpec(recs[..|recs| - 1], b);
    }
  }

  /** `get_blocks()` of a chunk with root tag `root` and section list
      `sections`: the records of `sections[1:]` grouped by block. */
  function BlocksOf<B(==)>(root: Option<Tag>, sections: Option<seq<Tag>>, area: Area, blockAt: (Tag, int, int, int, int) -> B)
    : Result<map<B, seq<Point>>>
  {
    if root.None? then Err(TypeError)
    else
      var xPos :- LevelInt(root.value, "xPos");
      var zPos :- LevelInt(root.value, "zPos");
      if sections.None? then Err(TypeError)
      else
        var secs := sections.value;
        var recs :- SectionsRecords(16 * xPos, 16 * zPos, area, blockAt, if secs == [] then [] else secs[1..]);
        Ok(Grouped(recs))
  }

  /** The fields of a chunk, as a value. */
  datatype ChunkState = ChunkState(offset: nat, area: Area, timestamp: Option<int>, data: Option<seq<byte>>,
                                   root: Option<Tag>, sections: Option<seq<Tag>>)

  class Chunk {
    const offset: nat
    const area: Area
    var timestamp: Option<int>
    var data: Option<seq<byte>>
    /** `self.nbt`: `None` while it still names the tag module (before `add_data`). */
    var root: Option<Tag>
    /** `self.sections`: `None` when the level tag has no section list. */
    var sections: Option<seq<Tag>>

    ghost function State(): ChunkState
      reads this
    {
      ChunkState(offset, area, timestamp, data, root, sections)
    }

    /** `Chunk(offset, area, verbose)`: no data and no sections yet. */
    constructor (offset: nat, area: Area)
      ensures State() == ChunkState(offset, area, None, None, None, Some([]))
    {
      this.offset := offset;
      this.area := area;
      timestamp := None;
      data := None;
      root := None;
      sections := Some([]);
    }

    /** `set_timestamp(t)`. */
    method SetTimestamp(t: int)
      modifies this`timestamp
      ensures timestamp == Some(t)
    {
      timestamp := Some(t);
    }

    /** `add_data(raw)`: stores the bytes, decodes them, and keeps the
        section list of the level tag; a failure leaves the fields that
        were not reached as they were. */
    method AddData(raw: seq<byte>, parse: seq<byte> -> Result<Tag>) returns (r: Result<()>)
      modifies this`data, this`root, this`sections
      ensures data == Some(raw)
      ensures r.Ok? <==> Decoded(raw, parse).Ok?
      ensures r.Ok? ==> (root, sections) == (Some(Decoded(raw, parse).value.0), Decoded(raw, parse).value.1)
      ensures r.Err? ==> r.error == Decoded(raw, parse).error && sections == old(sections) &&
                         root == (if parse(raw).Ok? then Some(parse(raw).value) else old(root))
    {
      data := Some(raw);
      var t := parse(raw);
      if t.Err? {
        return Err(t.error);
      }
      root := Some(t.value);
      var level := Level(t.value);
      if level.Err? {
        return Err(level.error);
      }
      var secs := SectionsOf(level.value);
      if secs.Err? {
        return Err(secs.error);
      }
      sections := secs.value;
      r := Ok(());
    }

    /** `get_coords()`; the tag module has no `tags` before `add_data`. */
    function GetCoords(): (r: Result<(int, int)>)
      reads this`root
      ensures root.None? ==> r == Err(TypeError)
      ensures root.Some? ==> r == Coords(root.value)
    {
      if root.None? then Err(TypeError) else Coords(root.value)
    }

    /** `get_blocks()`: for every section after the first that has a palette
        or block array, every in-area cell's absolute position is appended
        under the block `blockAt` reads there. */
    method GetBlocks<B(==)>(blockAt: (Tag, int, int, int, int) -> B) returns (r: Result<map<B, seq<Point>>>)
      ensures r == BlocksOf(root, sections, area, blockAt)
    {
      if root.None? {
        return Err(TypeError);
      }
      var xPos := LevelInt(root.value, "xPos");
      if xPos.Err? {
        return Err(xPos.error);
      }
      var zPos := LevelInt(root.value, "zPos");
      if zPos.Err? {
        return Err(zPos.error);
      }
      var cx, cz := 16 * xPos.value, 16 * zPos.value;
      if sections.None? {
        return Err(TypeError);
      }
      var secs := if sections.value == [] then [] else sections.value[1..];
      var blocks: map<B, seq<Point>> := map[];
      ghost var recs: seq<(B, Point)> := [];
      for i := 0 to |secs|
        invariant SectionsRecords(cx, cz, area, blockAt, secs[..i]) == Ok(recs)
        invariant blocks == Grouped(recs)
      {
        var s := secs[i];
        assert secs[..i + 1][..i] == secs[..i];
        if !Has(s, "Palette") && !Has(s, "Blocks") {
          assert recs + [] == recs;
          continue;
        }
        var y := SectionY(s);
        if y.Err? {
          SectionsRecordsFail(cx, cz, area, blockAt, secs, i, y.error);
          return Err(y.error);
        }
        var version := SectionVersion(s);
        blocks, recs := SectionBlocks(blocks, recs, cx, 16 * y.value, cz, area, (x, y', z) => blockAt(s, version, x, y', z));
      }
      assert secs[..|secs|] == secs;
      r := Ok(blocks);
    }

    /** The triple loop over one section at (cx, cy, cz): slice by slice. */
    static method SectionBlocks<B(==)>(blocks: map<B, seq<Point>>, ghost recs: seq<(B, Point)>, cx: int, cy: int, cz: int,
                                       area: Area, cellBlock: (int, int, int) -> B)
      returns (blocks': map<B, seq<Point>>, ghost recs': seq<(B, Point)>)
      requires blocks == Grouped(recs)
      ensures recs' == recs + Cells(cx, cy, cz, area, cellBlock) && blocks' == Grouped(recs')
    {
      blocks' := blocks;
      recs' := recs;
      for x := 0 to 16
        invariant recs' == recs + XRun(cx, cy, cz, area, cellBlock, x) && blocks' == Grouped(recs')
      {
        blocks', recs' := SliceBlocks(blocks', recs', cx, cy, cz, area, cellBlock, x);
        AppendAssoc(recs, XRun(cx, cy, cz, area, cellBlock, x), YRun(cx, cy, cz, area, cellBlock, x, 16));
      }
    }

    /** The loops over y and z of slice x. */
    static method SliceBlocks<B(==)>(blocks: map<B, seq<Point>>, ghost recs: seq<(B, Point)>, cx: int, cy: int, cz: int,
                                     area: Area, cellBlock: (int, int, int) -> B, x: int)
      returns (blocks': map<B, seq<Point>>, ghost recs': seq<(B, Point)>)
      requires blocks == Grouped(recs)
      ensures recs' == recs + YRun(cx, cy, cz, area, cellBlock, x, 16) && blocks' == Grouped(recs')
    {
      blocks' := blocks;
      recs' := recs;
      for y := 0 to 16
        invariant recs' == recs + YRun(cx, cy, cz, area, cellBlock, x, y) && blocks' == Grouped(recs')
      {
        blocks', recs' := RowBlocks(blocks', recs', cx, cy, cz, area, cellBlock, x, y);
        AppendAssoc(recs, YRun(cx, cy, cz, area, cellBlock, x, y), ZRun(cx, cy, cz, area, cellBlock, x, y, 16));
      }
    }

    /** The loop over z of row (x, y): each in-area cell's position is
        appended under its block. */
    static method RowBlocks<B(==)>(blocks: map<B, seq<Point>>, ghost recs: seq<(B, Point)>, cx: int, cy: int, cz: int,
                                   area: Area, cellBlock: (int, int, int) -> B, x: int, y: int)
      returns (blocks': map<B, seq<Point>>, ghost recs': seq<(B, Point)>)
      requires blocks == Grouped(recs)
      ensures recs' == recs + ZRun(cx, cy, cz, area, cellBlock, x, y, 16) && blocks' == Grouped(recs')
    {
      blocks' := blocks;
      recs' := recs;
      for z := 0 to 16
        invariant recs' == recs + ZRun(cx, cy, cz, area, cellBlock, x, y, z) && blocks' == Grouped(recs')
      {
        GroupedTail(recs', cx, cy, cz, area, cellBlock, x, y, z);
        if InArea(area, cx + x, cy + y, cz + z) {
          blocks' := AddTo(blocks', cellBlock(x, y, z), (cx + x, cy + y, cz + z));
        }
        AppendAssoc(recs, ZRun(cx, cy, cz, area, cellBlock, x, y, z), CellTail(cx, cy, cz, area, cellBlock, x, y, z));
        recs' := recs' + CellTail(cx, cy, cz, area, cellBlock, x, y, z);
      }
    }
  }
}
