/** A chunk built from scratch (pyblock/empty_chunk.py): sixteen section
    slots, bounds-checked block access, the chunk tag and its framed,
    sector-padded bytes. The section class it stores is not part of this
    model; its operations are passed in as `SectionOps`. */
module EmptyChunks {
  import opened Common
  import opened Tags
  import opened Blocks
  import Regions

  const DATA_VERSION: int := 1976
  const SECTION_SLOTS: nat := 16

  /** What the chunk uses of a section object: its `y`, the constructor
      `EmptySection(y)`, `get_block`, `set_block`, `palette()` and `save()`.
      A section is a value here; `set_block` returns the updated section. */
  datatype SectionOps<!S> = SectionOps(
    y: S -> int,
    create: int -> S,
    getBlock: (S, int, int, int) -> Option<Block>,
    setBlock: (S, Block, int, int, int) -> S,
    palette: S -> seq<Block>,
    save: S -> Tag)

  /** The coordinate checks of `get_block` and `set_block`: x and z in
      [0, 15], y in [0, 255]. */
  predicate InBounds(x: int, y: int, z: int)
  {
    0 <= x <= 15 && 0 <= z <= 15 && 0 <= y <= 255
  }

  /** A section `save` leaves out: its palette is just `minecraft:air`. */
  predicate AllAir<S>(ops: SectionOps<S>, s: S)
  {
    var p := ops.palette(s);
    |p| == 1 && Name(p[0]) == "minecraft:air"
  }

  /** The tags of the sections `save` keeps, in slot order. */
  function KeptSections<S>(ops: SectionOps<S>, slots: seq<Option<S>>): (r: seq<Tag>)
    ensures |r| <= |slots|
  {
    if slots == [] then []
    else
      var rest := KeptSections(ops, slots[..|slots| - 1]);
      var last := slots[|slots| - 1];
      if last.Some? && !AllAir(ops, last.value) then rest + [ops.save(last.value)] else rest
  }

  /** Whether slot i is one `save` writes. */
  predicate Kept<S>(ops: SectionOps<S>, slots: seq<Option<S>>, i: int)
  {
    0 <= i < |slots| && slots[i].Some? && !AllAir(ops, slots[i].value)
  }

  /** The chunk tag `save` builds: the data version, then the `Level`
      compound with empty entity lists, the position, fixed status fields
      and the kept sections. */
  function ChunkTag(x: int, z: int, version: int, sections: seq<Tag>): Tag
  {
    var level := Tag("Level", Compound([
      Tag("Entities", List([])),
      Tag("TileEntities", List([])),
      Tag("LiquidTicks", List([])),
      Tag("xPos", Int(x)),
      Tag("zPos", Int(z)),
      Tag("LastUpdate", Long(0)),
      Tag("InhabitedTime", Long(0)),
      Tag("isLightOn", Byte(1)),
      Tag("Status", Str("full")),
      Tag("Sections", List(sections))]));
    Tag("", Compound([Tag("DataVersion", Int(version)), level]))
  }

  /** The bytes `get_data` returns for a compressed payload: the frame,
      then zero bytes up to the next sector boundary, a whole sector of them
      when the frame already ends on one. */
  function PaddedFrame(payload: seq<byte>): (r: seq<byte>)
    requires |payload| + 1 < Regions.MAX_FRAME
  {
    var frame := Regions.Frame(payload);
    frame + Zeros(SECTOR - |frame| % SECTOR)
  }

  class EmptyChunk<S> {
    var x: int
    var z: int
    var sections: seq<Option<S>>
    var version: int

    /** There are always sixteen slots. */
    predicate Valid()
      reads this
    {
      |sections| == SECTION_SLOTS
    }

    /** `EmptyChunk(x, z)`: sixteen empty slots, data version 1976. */
    constructor (x: int, z: int)
      ensures this.x == x && this.z == z && version == DATA_VERSION
      ensures sections == seq(SECTION_SLOTS, _ => None) && Valid()
    {
      this.x := x;
      this.z := z;
      this.sections := seq(SECTION_SLOTS, _ => None);
      this.version := DATA_VERSION;
    }

    /** `add_section(section, replace)`: slot `section.y` (Python list
        indexing) takes the section, unless it is occupied and `replace` is
        false; a `y` outside [-16, 16) is an `IndexError`. */
    method AddSection(ops: SectionOps<S>, section: S, replace: bool) returns (r: Result<()>)
      requires Valid()
      modifies this
      ensures Valid() && x == old(x) && z == old(z) && version == old(version)
      ensures var i := ops.y(section);
              if !(-16 <= i < 16) then r == Err(IndexError) && sections == old(sections)
              else if old(sections)[Normalize(i, 16)].Some? && !replace then
                r == Err(EmptySectionAlreadyExists) && sections == old(sections)
              else r == Ok(()) && sections == old(sections)[Normalize(i, 16) := Some(section)]
    {
      var current := PyIndex(sections, ops.y(section));
      if current.Err? {
        return Err(current.error);
      }
      if current.value.Some? && !replace {
        return Err(EmptySectionAlreadyExists);
      }
      sections := sections[Normalize(ops.y(section), 16) := Some(section)];
      r := Ok(());
    }

    /** `get_block(x, y, z)`: `OutOfBoundsCoordinates` outside the chunk,
        `None` when section `y // 16` is absent, otherwise the section's
        block at (x, y % 16, z). */
    function GetBlock(ops: SectionOps<S>, x: int, y: int, z: int): (r: Result<Option<Block>>)
      requires Valid()
      reads this
      ensures r.Err? <==> !InBounds(x, y, z)
      ensures r.Err? ==> r.error == OutOfBoundsCoordinates
      ensures r.Ok? && sections[y / 16].None? ==> r.value.None?
      ensures r.Ok? && sections[y / 16].Some? ==>
                r.value == ops.getBlock(sections[y / 16].value, x, y % 16, z)
    {
      if !InBounds(x, y, z) then Err(OutOfBoundsCoordinates)
      else
        var section := sections[y / 16];
        if section.None? then Ok(None)
        else Ok(ops.getBlock(section.value, x, y % 16, z))
    }

    /** `set_block(block, x, y, z)`: after the bounds checks, a missing
        section `y // 16` is created and added first; the section then takes
        the block at (x, y % 16, z). The new section's `y` is the one it was
        created with, as the section class's constructor stores it. */
    method SetBlock(ops: SectionOps<S>, block: Block, x: int, y: int, z: int) returns (r: Result<()>)
      requires Valid()
      requires 0 <= y <= 255 ==> ops.y(ops.create(y / 16)) == y / 16
      modifies this
      ensures Valid() && this.x == old(this.x) && this.z == old(this.z) && version == old(version)
      ensures r.Ok? <==> InBounds(x, y, z)
      ensures r.Err? ==> r.error == OutOfBoundsCoordinates && sections == old(sections)
      ensures r.Ok? ==>
                var i := y / 16;
                var base := if old(sections)[i].Some? then old(sections)[i].value else ops.create(i);
                sections == old(sections)[i := Some(ops.setBlock(base, block, x, y % 16, z))]
    {
      if x < 0 || x > 15 {
        return Err(OutOfBoundsCoordinates);
      }
      if z < 0 || z > 15 {
        return Err(OutOfBoundsCoordinates);
      }
      if y < 0 || y > 255 {
        return Err(OutOfBoundsCoordinates);
      }
      var i := y / 16;
      var section := sections[i];
      var s: S;
      if section.None? {
        s := ops.create(i);
        var added := AddSection(ops, s, true);
        assert added.Ok?;
      } else {
        s := section.value;
      }
      sections := sections[i := Some(ops.setBlock(s, block, x, y % 16, z))];
      r := Ok(());
    }

    /** `save`: the chunk tag, with every present section whose palette is
        not just air. */
    method Save(ops: SectionOps<S>) returns (root: Tag)
      ensures root == ChunkTag(x, z, version, KeptSections(ops, sections))
    {
      var kept: seq<Tag> := [];
      for i := 0 to |sections|
        invariant kept == KeptSections(ops, sections[..i])
      {
        assert sections[..i + 1][..i] == sections[..i];
        var s := sections[i];
        if s.Some? {
          var p := ops.palette(s.value);
          if |p| == 1 && Name(p[0]) == "minecraft:air" {
            continue;
          }
          kept := kept + [ops.save(s.value)];
        }
      }
      assert sections[..|sections|] == sections;
      root := ChunkTag(x, z, version, kept);
    }

    /** `get_data`: the saved tag serialised and compressed by `compress`
        (the tag writer and `zlib.compress`, not part of this model), framed
        with its length and compression type 2 and padded with zeros to a
        sector boundary. A payload too long for the 4-byte length is an
        `OverflowError`. */
    method GetData(ops: SectionOps<S>, compress: Tag -> seq<byte>) returns (r: Result<seq<byte>>)
      ensures var payload := compress(ChunkTag(x, z, version, KeptSections(ops, sections)));
              if |payload| + 1 < Regions.MAX_FRAME then r == Ok(PaddedFrame(payload))
              else r == Err(OverflowError)
    {
      var nbtData := Save(ops);
      var chunkData := compress(nbtData);
      Regions.Pow2Small();
      var length := ToBytes(|chunkData| + 1, 4);
      if length.Err? {
        return Err(length.error);
      }
      var bytesData := length.value + [2] + chunkData;
      PadAligned(|bytesData|);
      bytesData := bytesData + Zeros(SECTOR - |bytesData| % SECTOR);
      if |bytesData| % SECTOR != 0 {
        return Err(AssertionError);
      }
      r := Ok(bytesData);
    }
  }

  /** `save` keeps exactly the present sections that are not all air, in
      slot order: the i-th kept tag is the save of the i-th kept slot. */
  lemma {:induction false} KeptSectionsSpec<S>(ops: SectionOps<S>, slots: seq<Option<S>>)
    ensures forall t :: t in KeptSections(ops, slots) <==>
              exists i :: Kept(ops, slots, i) && t == ops.save(slots[i].value)
  {
    if slots != [] {
      var init := slots[..|slots| - 1];
      KeptSectionsSpec(ops, init);
      forall i | Kept(ops, init, i) ensures Kept(ops, slots, i) && slots[i] == init[i] { }
      forall i | Kept(ops, slots, i) && i < |init| ensures Kept(ops, init, i) { }
    }
  }

  /** A chunk with only empty or all-air sections saves no section at all. */
  lemma {:induction false} NothingKept<S>(ops: SectionOps<S>, slots: seq<Option<S>>)
    requires forall i :: 0 <= i < |slots| ==> slots[i].None? || AllAir(ops, slots[i].value)
    ensures KeptSections(ops, slots) == []
  {
    if slots != [] {
      NothingKept(ops, slots[..|slots| - 1]);
    }
  }

  /** The padded frame fills whole sectors, has at least one padding byte,
      and fewer than a sector of them. */
  lemma PaddedFrameAligned(payload: seq<byte>)
    requires |payload| + 1 < Regions.MAX_FRAME
    ensures |PaddedFrame(payload)| % SECTOR == 0
    ensures |payload| + 5 < |PaddedFrame(payload)| <= |payload| + 5 + SECTOR
    ensures PaddedFrame(payload)[..|payload| + 5] == Regions.Frame(payload)
  {
    PadAligned(|payload| + 5);
  }

  /** Padding n bytes with `SECTOR - n % SECTOR` zeros reaches the next
      sector boundary strictly after n. */
  lemma PadAligned(n: nat)
    ensures 0 < SECTOR - n % SECTOR <= SECTOR
    ensures (n + (SECTOR - n % SECTOR)) % SECTOR == 0
  {
    DivModParts(n, SECTOR);
    DivModUnique(n + (SECTOR - n % SECTOR), SECTOR, n / SECTOR + 1, 0);
  }

  /** Stored from a sector on, the padded frame reads back as its payload
      through a region's location entry. */
  lemma PaddedFrameReadsBack(data: seq<byte>, sector: nat, payload: seq<byte>)
    requires |payload| + 1 < Regions.MAX_FRAME
    requires var at := sector * SECTOR; var b := PaddedFrame(payload);
             at + |b| <= |data| && data[at..at + |b|] == b
    ensures Regions.PayloadAt(data, sector) == Ok(payload)
  {
    PaddedFrameAligned(payload);
    var at := sector * SECTOR;
    var b := PaddedFrame(payload);
    assert data[at..at + |payload| + 5] == b[..|payload| + 5];
    Regions.FrameAt(data, sector, payload);
  }
}
