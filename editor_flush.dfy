/** The flush of pending writes in `done` (pyblock/editor.py): first every
    pending section is fetched (from the write-section store, else through
    the chunk cache) and its changes are applied in order; then, region by
    region, every touched chunk is fetched afresh and given its updated
    sections and the block entities recorded for it. */
module EditorFlush {
  import opened Common
  import opened Blocks
  import opened EditorPlans
  import opened EditorReads
  import opened Tags
  import Regions

  // ------------------------------------------------ applying a section's list

  /** `section.set_block(block, index)` for each change in order, stopping at
      the first `IndexError`: the blocks as far as the changes got, and the
      error if one was raised. */
  function Apply(s: seq<Block>, changes: seq<Change>): (r: (seq<Block>, Option<Error>))
    ensures |r.0| == |s|
    ensures r.1.None? <==> forall i :: 0 <= i < |changes| ==> -|s| <= changes[i].1 < |s|
    ensures r.1.Some? ==> r.1 == Some(IndexError)
    ensures r.1.None? ==> forall j :: 0 <= j < |s| ==> r.0[j] == LastAt(s[j], changes, j, |s|)
  {
    if changes == [] then (s, None)
    else
      var q, c := changes[..|changes| - 1], changes[|changes| - 1];
      assert forall i :: 0 <= i < |q| ==> q[i] == changes[i];
      var prev := Apply(s, q);
      if prev.1.Some? then prev
      else if -|prev.0| <= c.1 < |prev.0| then (prev.0[Normalize(c.1, |prev.0|) := c.0], None)
      else (prev.0, Some(IndexError))
  }

  /** Independently of the order of application: at index j of a list of
      length n, the block of the last change aimed at j, or b when none is. */
  function LastAt(b: Block, changes: seq<Change>, j: int, n: nat): Block
  {
    if changes == [] then b
    else
      var c := changes[|changes| - 1];
      if -(n as int) <= c.1 < n && Normalize(c.1, n) == j then c.0 else LastAt(b, changes[..|changes| - 1], j, n)
  }

  /** Independently of sections: the block of the last of `ws` aimed at p,
      or b when none is. */
  function LastWrite(b: Block, ws: seq<Write>, p: Point): Block
  {
    if ws == [] then b
    else if ws[|ws| - 1].1 == p then ws[|ws| - 1].0
    else LastWrite(b, ws[..|ws| - 1], p)
  }

  /** Last write wins: when `set_block` has recorded `ws`, the pending list
      of p's section, applied to a section that holds p's index, leaves at
      that index the block of the last write to p, and the old block when
      nothing was written there. */
  lemma {:induction false} PendingLastWrite(b: Block, ws: seq<Write>, p: Point, n: nat)
    requires IndexOf(p) < n
    ensures LastAt(b, Selected(Changes(ws), SectionOf(p)), IndexOf(p), n) == LastWrite(b, ws, p)
  {
    if ws != [] {
      var q, w := ws[..|ws| - 1], ws[|ws| - 1];
      PendingLastWrite(b, q, p, n);
      assert Changes(ws) == Changes(q) + [ChangeOf(w)];
      var cs := Changes(ws);
      assert cs[..|cs| - 1] == Changes(q);
      var sel := Selected(cs, SectionOf(p));
      if SectionOf(w.1) == SectionOf(p) {
        assert sel == Selected(Changes(q), SectionOf(p)) + [(w.0, IndexOf(w.1))];
        assert sel[..|sel| - 1] == Selected(Changes(q), SectionOf(p));
        if IndexOf(w.1) == IndexOf(p) {
          IdIndexNamesPosition(w.1, p);
        }
      } else {
        assert sel == Selected(Changes(q), SectionOf(p));
      }
    }
  }

  // ------------------------------------------------------ phase one: sections

  /** The flush so far: the caches, the write-section store, the touched
      (chunk, level) pairs per region, and the error that ended it. */
  datatype Flushing = Flushing(cache: Cache, written: map<SectionId, seq<Block>>,
                               regions: Lists<(int, int), ((int, int), int)>, failure: Option<Error>)

  /** The section a pending list is applied to: the stored one, else a read. */
  function Base(world: World, written: map<SectionId, seq<Block>>, sid: SectionId): Result<seq<Block>>
  {
    if sid in written then Ok(written[sid]) else SectionRead(world, sid)
  }

  /** `write_sections[sid]` when stored, else `get_section(sid)` through the chunk cache. */
  function Fetch(world: World, f: Flushing, sid: SectionId): (Cache, Result<seq<Block>>)
  {
    if sid in f.written then (f.cache, Ok(f.written[sid])) else LoadSection(world, f.cache, sid)
  }

  /** Fetching gives the base section and keeps the caches coherent. */
  lemma FetchReads(world: World, f: Flushing, sid: SectionId)
    requires Coherent(world, f.cache)
    ensures Fetch(world, f, sid).1 == Base(world, f.written, sid)
    ensures Coherent(world, Fetch(world, f, sid).0) && Grows(f.cache, Fetch(world, f, sid).0)
  {
    if sid !in f.written {
      LoadSectionReads(world, f.cache, sid);
    }
  }

  /** One section of phase one, unless an earlier one raised: fetch it,
      store it, apply its changes, and note it under its region. */
  function FlushStep(world: World, f: Flushing, sid: SectionId, changes: seq<Change>): (g: Flushing)
    ensures f.failure.Some? ==> g == f
    ensures f.failure.None? ==> g.cache == Fetch(world, f, sid).0
    ensures forall t :: t != sid ==> (t in g.written <==> t in f.written) && (t in f.written ==> g.written[t] == f.written[t])
    ensures f.failure.None? ==>
      var loaded := Fetch(world, f, sid);
      (g.failure.None? <==> loaded.1.Ok? && Apply(loaded.1.value, changes).1.None?) &&
      (g.failure.None? ==> g.regions == Push(f.regions, sid.0, (sid.1, sid.2)) &&
                           g.written == f.written[sid := Apply(loaded.1.value, changes).0])
  {
    if f.failure.Some? then f
    else
      var loaded := Fetch(world, f, sid);
      match loaded.1
      case Err(e) => f.(cache := loaded.0, failure := Some(e))
      case Ok(s) =>
        var applied := Apply(s, changes);
        var g := f.(cache := loaded.0, written := f.written[sid := applied.0]);
        if applied.1.Some? then g.(failure := applied.1)
        else g.(regions := Push(f.regions, sid.0, (sid.1, sid.2)))
  }

  /** Phase one over the pending sections `keys`, in order. */
  function Flush(world: World, f: Flushing, m: Lists<SectionId, Change>, keys: seq<SectionId>): Flushing
  {
    if keys == [] then f
    else
      var k := keys[|keys| - 1];
      FlushStep(world, Flush(world, f, m, keys[..|keys| - 1]), k, Of(m, k))
  }

  /** The region entry phase one adds for a section. */
  function RegionPairs(keys: seq<SectionId>): (r: seq<((int, int), ((int, int), int))>)
    ensures |r| == |keys| && forall i :: 0 <= i < |keys| ==> r[i] == (keys[i].0, (keys[i].1, keys[i].2))
  {
    if keys == [] then [] else var k := keys[|keys| - 1]; RegionPairs(keys[..|keys| - 1]) + [(k.0, (k.1, k.2))]
  }

  /** A pending section that can be flushed: it is stored or readable, and
      every change of its list lies inside it. */
  predicate Flushable(world: World, written: map<SectionId, seq<Block>>, m: Lists<SectionId, Change>, sid: SectionId)
  {
    Base(world, written, sid).Ok? && Apply(Base(world, written, sid).value, Of(m, sid)).1.None?
  }

  /** One step reads through the caches and keeps them coherent. */
  lemma FlushStepCaches(world: World, f: Flushing, sid: SectionId, changes: seq<Change>)
    requires Coherent(world, f.cache)
    ensures Coherent(world, FlushStep(world, f, sid, changes).cache) && Grows(f.cache, FlushStep(world, f, sid, changes).cache)
  {
    FetchReads(world, f, sid);
  }

  /** One step on a section not yet flushed: it succeeds exactly when the
      section is flushable, and then stores its updated blocks and notes it
      under its region. */
  lemma FlushStepMeaning(world: World, f: Flushing, m: Lists<SectionId, Change>, f0: map<SectionId, seq<Block>>, sid: SectionId)
    requires Coherent(world, f.cache) && f.failure.None?
    requires sid in f.written <==> sid in f0
    requires sid in f0 ==> f.written[sid] == f0[sid]
    ensures var g := FlushStep(world, f, sid, Of(m, sid));
      (g.failure.None? <==> Flushable(world, f0, m, sid)) &&
      (g.failure.None? ==> g.regions == Push(f.regions, sid.0, (sid.1, sid.2)) &&
                           sid in g.written && g.written[sid] == Apply(Base(world, f0, sid).value, Of(m, sid)).0)
  {
    FetchReads(world, f, sid);
    assert Base(world, f.written, sid) == Base(world, f0, sid);
  }

  /** The sections phase one has not reached yet are as they were. */
  ghost predicate Untouched(f: Flushing, g: Flushing, keys: seq<SectionId>)
  {
    forall t :: t !in keys ==> (t in g.written <==> t in f.written) && (t in f.written ==> g.written[t] == f.written[t])
  }

  /** The state phase one reaches over `keys` from a state with no error
      still has coherent caches, and sections it has not reached are as
      they were. */
  lemma {:induction false} FlushPrefix(world: World, f: Flushing, m: Lists<SectionId, Change>, keys: seq<SectionId>)
    requires Coherent(world, f.cache)
    ensures Coherent(world, Flush(world, f, m, keys).cache) && Grows(f.cache, Flush(world, f, m, keys).cache)
    ensures Untouched(f, Flush(world, f, m, keys), keys)
  {
    if keys != [] {
      var q := keys[..|keys| - 1];
      FlushPrefix(world, f, m, q);
      var h := Flush(world, f, m, q);
      FlushStepCaches(world, h, keys[|keys| - 1], Of(m, keys[|keys| - 1]));
      GrowsTransitive(f.cache, h.cache, Flush(world, f, m, keys).cache);
    }
  }

  /** Phase one over distinct sections, from a state with no error,
      succeeds exactly when every section is flushable. */
  lemma {:induction false} FlushSucceeds(world: World, f: Flushing, m: Lists<SectionId, Change>, keys: seq<SectionId>)
    requires Coherent(world, f.cache) && f.failure.None?
    requires forall i, j :: 0 <= i < j < |keys| ==> keys[i] != keys[j]
    ensures Flush(world, f, m, keys).failure.None? <==> forall i :: 0 <= i < |keys| ==> Flushable(world, f.written, m, keys[i])
  {
    if keys != [] {
      var q, k := keys[..|keys| - 1], keys[|keys| - 1];
      assert keys == q + [k];
      assert forall i :: 0 <= i < |q| ==> keys[i] == q[i];
      FlushSucceeds(world, f, m, q);
      FlushExtend(world, f, m, q, k);
      AllFlushableSnoc(world, f.written, m, q, k);
    }
  }

  /** One more section not reached yet: phase one still has no error exactly
      when it had none before and that section is flushable. */
  lemma FlushExtend(world: World, f: Flushing, m: Lists<SectionId, Change>, q: seq<SectionId>, k: SectionId)
    requires Coherent(world, f.cache) && f.failure.None? && k !in q
    ensures Flush(world, f, m, q + [k]).failure.None? <==>
            Flush(world, f, m, q).failure.None? && Flushable(world, f.written, m, k)
  {
    FlushPrefix(world, f, m, q);
    assert (q + [k])[..|q|] == q;
    if Flush(world, f, m, q).failure.None? {
      FlushStepMeaning(world, Flush(world, f, m, q), m, f.written, k);
    }
  }

  lemma AllFlushableSnoc(world: World, written: map<SectionId, seq<Block>>, m: Lists<SectionId, Change>, q: seq<SectionId>, k: SectionId)
    ensures (forall i :: 0 <= i < |q + [k]| ==> Flushable(world, written, m, (q + [k])[i])) <==>
            (forall i :: 0 <= i < |q| ==> Flushable(world, written, m, q[i])) && Flushable(world, written, m, k)
  {
    assert forall i :: 0 <= i < |q| ==> (q + [k])[i] == q[i];
    assert (q + [k])[|q|] == k;
  }

  /** Then each section holds its list applied to its base, and the regions
      record notes every section under its region, in order. */
  lemma {:induction false} FlushMeaning(world: World, f: Flushing, m: Lists<SectionId, Change>, keys: seq<SectionId>)
    requires Coherent(world, f.cache) && f.failure.None?
    requires forall i, j :: 0 <= i < j < |keys| ==> keys[i] != keys[j]
    requires forall i :: 0 <= i < |keys| ==> Flushable(world, f.written, m, keys[i])
    ensures var g := Flush(world, f, m, keys);
      g.regions == PushAll(f.regions, RegionPairs(keys)) &&
      forall i :: 0 <= i < |keys| ==>
        keys[i] in g.written && Base(world, f.written, keys[i]).Ok? &&
        g.written[keys[i]] == Apply(Base(world, f.written, keys[i]).value, Of(m, keys[i])).0
  {
    if keys != [] {
      var q, k := keys[..|keys| - 1], keys[|keys| - 1];
      var h := Flush(world, f, m, q);
      var g := Flush(world, f, m, keys);
      assert forall i :: 0 <= i < |q| ==> keys[i] == q[i];
      FlushSucceeds(world, f, m, q);
      FlushMeaning(world, f, m, q);
      FlushPrefix(world, f, m, q);
      assert forall i :: 0 <= i < |q| ==> keys[i] == q[i];
      assert k !in q;
      FlushStepMeaning(world, h, m, f.written, k);
      assert RegionPairs(keys) == RegionPairs(q) + [(k.0, (k.1, k.2))];
      PushAllSnoc(f.regions, RegionPairs(q), (k.0, (k.1, k.2)));
      forall i | 0 <= i < |q|
        ensures keys[i] in g.written && g.written[keys[i]] == Apply(Base(world, f.written, keys[i]).value, Of(m, keys[i])).0
      {
        assert keys[i] != k;
      }
    }
  }

  /** Phase one on the pending changes of the `set_block` calls `log`, in
      the dictionary's insertion order: when it succeeds, every section a
      call touched is stored, as long as its base, and each of its indices
      holds the block of the last call that wrote that position, or its
      old block when no call did. */
  lemma FlushLastWrite(world: World, f: Flushing, log: seq<Write>, p: Point)
    requires Coherent(world, f.cache) && f.failure.None?
    requires Flush(world, f, Planned(Empty(), log), Planned(Empty(), log).order).failure.None?
    requires SectionOf(p) in Planned(Empty(), log).items
    ensures var g, sid := Flush(world, f, Planned(Empty(), log), Planned(Empty(), log).order), SectionOf(p);
      Base(world, f.written, sid).Ok? && sid in g.written && |g.written[sid]| == |Base(world, f.written, sid).value| &&
      (0 <= IndexOf(p) < |g.written[sid]| ==>
         g.written[sid][IndexOf(p)] == LastWrite(Base(world, f.written, sid).value[IndexOf(p)], log, p))
  {
    var m := Planned(Empty(), log);
    var sid := SectionOf(p);
    PlannedPushes(Empty(), log);
    PushAllOf(Empty(), Changes(log), sid);
    FlushSucceeds(world, f, m, m.order);
    FlushMeaning(world, f, m, m.order);
    var i := KeyIndex(m, sid);
    var base := Base(world, f.written, sid).value;
    var changes := Selected(Changes(log), sid);
    assert Of(m, sid) == changes;
    var g := Flush(world, f, m, m.order);
    assert g.written[sid] == Apply(base, changes).0;
    if 0 <= IndexOf(p) < |base| {
      PendingLastWrite(base[IndexOf(p)], log, p, |base|);
      assert Apply(base, changes).0[IndexOf(p)] == LastAt(base[IndexOf(p)], changes, IndexOf(p), |base|);
    }
  }

  // ----------------------------------------------------- phase two: chunks

  /** What `done` hands to one chunk: its stored sections by level, and the
      entities recorded for it, given to the chunk as fetched afresh. */
  datatype ChunkWrite = ChunkWrite(chunk: (int, int), fetched: LoadedChunk,
                                   sections: seq<(int, seq<Block>)>, entities: seq<Entity>)

  /** The updated chunks `region.write` receives for one region, in order. */
  datatype RegionWrite = RegionWrite(region: (int, int), chunks: seq<ChunkWrite>)

  /** `write_sections[(region, chunk, ylevel)]` for each level, in order; a
      missing one raises `KeyError`. */
  function StoredSections(written: map<SectionId, seq<Block>>, region: (int, int), chunk: (int, int), ys: seq<int>)
    : (r: Result<seq<(int, seq<Block>)>>)
    ensures r.Ok? <==> forall i :: 0 <= i < |ys| ==> (region, chunk, ys[i]) in written
    ensures r.Err? ==> r.error == KeyError
    ensures r.Ok? ==> |r.value| == |ys| && forall i :: 0 <= i < |ys| ==> r.value[i] == (ys[i], written[(region, chunk, ys[i])])
  {
    if ys == [] then Ok([])
    else
      var q, y := ys[..|ys| - 1], ys[|ys| - 1];
      assert forall i :: 0 <= i < |q| ==> q[i] == ys[i];
      var prev :- StoredSections(written, region, chunk, q);
      if (region, chunk, y) in written then Ok(prev + [(y, written[(region, chunk, y)])]) else Err(KeyError)
  }

  /** The read of phase two, `Region(path, region).get_chunk(chunk)`: the
      region file as read (`files`), the chunk's tag through `get_chunk`
      (`inflate` stands for decompression and tag parsing), made into the
      chunk type the editor works with by `wrap`. Unlike the reads of
      `get_section`, a chunk never generated raises `ValueError` here. */
  function ChunkFetch(files: ((int, int)) -> Result<Regions.Region>, inflate: seq<byte> -> Result<Tag>,
                      wrap: Tag -> Result<LoadedChunk>): (fetch: World)
  {
    (key: ChunkId) => var rg :- files(key.0);
           var t :- rg.GetChunk(key.1.0, key.1.1, inflate);
           wrap(t)
  }

  /** What `get_chunk` demands: a chunk is fetched only from a generated,
      non-empty chunk tag of its region file, and a chunk whose header
      entry is (0, 0) makes the fetch fail with `ValueError`. */
  lemma ChunkFetchMeaning(files: ((int, int)) -> Result<Regions.Region>, inflate: seq<byte> -> Result<Tag>,
                          wrap: Tag -> Result<LoadedChunk>, key: ChunkId)
    ensures var r := ChunkFetch(files, inflate, wrap)(key);
      (files(key.0).Ok? && files(key.0).value.ChunkLocation(key.1.0, key.1.1) == Ok((0, 0)) ==> r == Err(ValueError)) &&
      (r.Ok? ==> files(key.0).Ok? &&
                 exists t :: files(key.0).value.ChunkData(key.1.0, key.1.1, inflate) == Ok(Some(t)) && !Regions.Falsy(t) && wrap(t) == r)
  {
    var r := ChunkFetch(files, inflate, wrap)(key);
    if r.Ok? {
      var t := files(key.0).value.GetChunk(key.1.0, key.1.1, inflate).value;
      assert wrap(t) == r;
    }
  }

  /** One chunk of phase two: its entity list (empty when none was
      recorded), the chunk fetched afresh, and its stored sections. */
  function ChunkUpdate(fetch: World, written: map<SectionId, seq<Block>>, entities: Lists<ChunkId, Entity>,
                       region: (int, int), chunk: (int, int), ys: seq<int>): Result<ChunkWrite>
  {
    var es := Of(entities, (region, chunk));
    var fetched :- fetch((region, chunk));
    var secs :- StoredSections(written, region, chunk, ys);
    Ok(ChunkWrite(chunk, fetched, secs, es))
  }

  /** The chunks `cs` of a region in order, or the first error. */
  function ChunkUpdates(fetch: World, written: map<SectionId, seq<Block>>, entities: Lists<ChunkId, Entity>,
                        region: (int, int), groups: Lists<(int, int), int>, cs: seq<(int, int)>): (r: Result<seq<ChunkWrite>>)
    ensures r.Ok? <==> forall i :: 0 <= i < |cs| ==> ChunkUpdate(fetch, written, entities, region, cs[i], Of(groups, cs[i])).Ok?
    ensures r.Ok? ==> (|r.value| == |cs| &&
      forall i :: 0 <= i < |cs| ==> r.value[i] == ChunkUpdate(fetch, written, entities, region, cs[i], Of(groups, cs[i])).value)
  {
    if cs == [] then Ok([])
    else
      var q, c := cs[..|cs| - 1], cs[|cs| - 1];
      assert forall i :: 0 <= i < |q| ==> q[i] == cs[i];
      var prev :- ChunkUpdates(fetch, written, entities, region, groups, q);
      var cw :- ChunkUpdate(fetch, written, entities, region, c, Of(groups, c));
      Ok(prev + [cw])
  }

  /** One region of phase two: its (chunk, level) pairs grouped by chunk in
      first-use order, and each chunk's update. */
  function RegionUpdate(fetch: World, written: map<SectionId, seq<Block>>, entities: Lists<ChunkId, Entity>,
                        region: (int, int), pairs: seq<((int, int), int)>): Result<RegionWrite>
  {
    var groups := PushAll(Empty(), pairs);
    var cws :- ChunkUpdates(fetch, written, entities, region, groups, groups.order);
    Ok(RegionWrite(region, cws))
  }

  /** A pass over `rs` that stops at the first error: the results issued
      before it, and that error. */
  function Issued<K, T>(update: K -> Result<T>, rs: seq<K>): (r: (seq<T>, Option<Error>))
    ensures r.1.None? <==> forall i :: 0 <= i < |rs| ==> update(rs[i]).Ok?
    ensures r.1.None? ==> |r.0| == |rs|
    ensures r.1.Some? ==> |r.0| < |rs| && update(rs[|r.0|]).Err? && r.1 == Some(update(rs[|r.0|]).error)
    ensures forall i :: 0 <= i < |r.0| ==> update(rs[i]) == Ok(r.0[i])
  {
    if rs == [] then ([], None)
    else
      var q, g := rs[..|rs| - 1], rs[|rs| - 1];
      assert forall i :: 0 <= i < |q| ==> q[i] == rs[i];
      var prev := Issued(update, q);
      if prev.1.Some? then prev
      else match update(g)
        case Err(e) => (prev.0, Some(e))
        case Ok(w) => (prev.0 + [w], None)
  }

  /** Phase two: the region writes issued before the first error, and that error. */
  function RegionWrites(fetch: World, written: map<SectionId, seq<Block>>, entities: Lists<ChunkId, Entity>,
                        regions: Lists<(int, int), ((int, int), int)>): (seq<RegionWrite>, Option<Error>)
  {
    Issued(RegionUpdater(fetch, written, entities, regions), regions.order)
  }

  function RegionUpdater(fetch: World, written: map<SectionId, seq<Block>>, entities: Lists<ChunkId, Entity>,
                         regions: Lists<(int, int), ((int, int), int)>): ((int, int)) -> Result<RegionWrite>
  {
    g => RegionUpdate(fetch, written, entities, g, Of(regions, g))
  }

  lemma RegionUpdaterAt(fetch: World, written: map<SectionId, seq<Block>>, entities: Lists<ChunkId, Entity>,
                        regions: Lists<(int, int), ((int, int), int)>, g: (int, int))
    ensures RegionUpdater(fetch, written, entities, regions)(g) == RegionUpdate(fetch, written, entities, g, Of(regions, g))
  {
  }

  /** The i-th region write issued is the update of the i-th region. */
  lemma IssuedRegion(fetch: World, written: map<SectionId, seq<Block>>, entities: Lists<ChunkId, Entity>,
                     regions: Lists<(int, int), ((int, int), int)>, i: int)
    requires 0 <= i < |RegionWrites(fetch, written, entities, regions).0|
    ensures i < |regions.order|
    ensures RegionUpdate(fetch, written, entities, regions.order[i], Of(regions, regions.order[i]))
            == Ok(RegionWrites(fetch, written, entities, regions).0[i])
  {
    RegionUpdaterAt(fetch, written, entities, regions, regions.order[i]);
  }

  /** A region update hands each of its grouped chunks that chunk's update. */
  lemma RegionChunk(fetch: World, written: map<SectionId, seq<Block>>, entities: Lists<ChunkId, Entity>,
                    r: (int, int), pairs: seq<((int, int), int)>, j: int)
    requires RegionUpdate(fetch, written, entities, r, pairs).Ok?
    requires 0 <= j < |PushAll(Empty(), pairs).order|
    ensures var groups, rw := PushAll(Empty(), pairs), RegionUpdate(fetch, written, entities, r, pairs).value;
      var c := groups.order[j];
      rw.region == r && |rw.chunks| == |groups.order| &&
      ChunkUpdate(fetch, written, entities, r, c, Of(groups, c)) == Ok(rw.chunks[j])
  {
  }

  /** A chunk update carries the chunk, its recorded entities, and its
      stored section at each level. */
  lemma ChunkSections(fetch: World, written: map<SectionId, seq<Block>>, entities: Lists<ChunkId, Entity>,
                      r: (int, int), c: (int, int), ys: seq<int>, l: int)
    requires ChunkUpdate(fetch, written, entities, r, c, ys).Ok?
    requires 0 <= l < |ys|
    ensures var cw := ChunkUpdate(fetch, written, entities, r, c, ys).value;
      cw.chunk == c && cw.entities == Of(entities, (r, c)) && |cw.sections| == |ys| &&
      (r, c, ys[l]) in written && cw.sections[l] == (ys[l], written[(r, c, ys[l])])
  {
  }

  /** The levels of a chunk grouped from a region's pairs are the levels
      paired with it, and a chunk is grouped exactly when it is paired. */
  lemma GroupedLevels(pairs: seq<((int, int), int)>, c: (int, int), y: int)
    ensures Ordered(PushAll(Empty(), pairs))
    ensures y in Of(PushAll(Empty(), pairs), c) <==> (c, y) in pairs
    ensures c in PushAll(Empty(), pairs).items <==> Of(PushAll(Empty(), pairs), c) != []
  {
    PushAllOf(Empty(), pairs, c);
    SelectedMembers(pairs, c, y);
  }

  /** Where a key sits in the order of a well-ordered dictionary. */
  lemma KeyIndex<K(!new), V>(d: Lists<K, V>, k: K) returns (i: int)
    requires Ordered(d) && k in d.items
    ensures 0 <= i < |d.order| && d.order[i] == k
  {
    i :| 0 <= i < |d.order| && d.order[i] == k;
  }

  /** Where a (chunk, level) pair of a region sits once grouped by chunk. */
  lemma GroupIndex(pairs: seq<((int, int), int)>, c: (int, int), y: int) returns (j: int, l: int)
    requires (c, y) in pairs
    ensures var groups := PushAll(Empty(), pairs);
      0 <= j < |groups.order| && groups.order[j] == c && 0 <= l < |Of(groups, c)| && Of(groups, c)[l] == y
  {
    GroupedLevels(pairs, c, y);
    j := KeyIndex(PushAll(Empty(), pairs), c);
    var ys := Of(PushAll(Empty(), pairs), c);
    l :| 0 <= l < |ys| && ys[l] == y;
  }

  /** The indices of the region write, chunk and section that carry sid. */
  lemma CoverAt(fetch: World, written: map<SectionId, seq<Block>>, entities: Lists<ChunkId, Entity>,
                regions: Lists<(int, int), ((int, int), int)>, sid: SectionId) returns (i: int, j: int, l: int)
    requires Ordered(regions) && (sid.1, sid.2) in Of(regions, sid.0)
    requires RegionWrites(fetch, written, entities, regions).1.None?
    ensures var ws := RegionWrites(fetch, written, entities, regions).0;
      sid in written && 0 <= i < |ws| && ws[i].region == sid.0 && 0 <= j < |ws[i].chunks| &&
      ws[i].chunks[j].chunk == sid.1 && ws[i].chunks[j].entities == Of(entities, (sid.0, sid.1)) &&
      0 <= l < |ws[i].chunks[j].sections| && ws[i].chunks[j].sections[l] == (sid.2, written[sid])
  {
    var pairs := Of(regions, sid.0);
    i := KeyIndex(regions, sid.0);
    IssuedRegion(fetch, written, entities, regions, i);
    j, l := GroupIndex(pairs, sid.1, sid.2);
    RegionChunk(fetch, written, entities, sid.0, pairs, j);
    ChunkSections(fetch, written, entities, sid.0, sid.1, Of(PushAll(Empty(), pairs), sid.1), l);
  }

  /** Where the flush sends a section: if phase two issues every region
      write, the write of the section's region hands the section's chunk
      its stored blocks at its level, with the entities recorded for it. */
  lemma RegionWritesCover(fetch: World, written: map<SectionId, seq<Block>>, entities: Lists<ChunkId, Entity>,
                          regions: Lists<(int, int), ((int, int), int)>, sid: SectionId)
    requires Ordered(regions) && (sid.1, sid.2) in Of(regions, sid.0)
    requires RegionWrites(fetch, written, entities, regions).1.None?
    ensures var ws := RegionWrites(fetch, written, entities, regions).0;
      sid in written &&
      exists i, j, l :: 0 <= i < |ws| && ws[i].region == sid.0 && 0 <= j < |ws[i].chunks| &&
        ws[i].chunks[j].chunk == sid.1 && ws[i].chunks[j].entities == Of(entities, (sid.0, sid.1)) &&
        0 <= l < |ws[i].chunks[j].sections| && ws[i].chunks[j].sections[l] == (sid.2, written[sid])
  {
    var i, j, l := CoverAt(fetch, written, entities, regions, sid);
  }

  /** And nothing else is sent: every section a region write hands to a
      chunk is a stored section noted under that region. */
  lemma RegionWritesOnly(fetch: World, written: map<SectionId, seq<Block>>, entities: Lists<ChunkId, Entity>,
                         regions: Lists<(int, int), ((int, int), int)>, i: int, j: int, l: int)
    requires var ws := RegionWrites(fetch, written, entities, regions).0;
      0 <= i < |ws| && 0 <= j < |ws[i].chunks| && 0 <= l < |ws[i].chunks[j].sections|
    ensures var ws := RegionWrites(fetch, written, entities, regions).0;
      var r, c, s := ws[i].region, ws[i].chunks[j].chunk, ws[i].chunks[j].sections[l];
      (c, s.0) in Of(regions, r) && (r, c, s.0) in written && s.1 == written[(r, c, s.0)] &&
      ws[i].chunks[j].entities == Of(entities, (r, c))
  {
    var ws := RegionWrites(fetch, written, entities, regions).0;
    IssuedRegion(fetch, written, entities, regions, i);
    var r := regions.order[i];
    var pairs := Of(regions, r);
    var groups := PushAll(Empty(), pairs);
    RegionChunk(fetch, written, entities, r, pairs, j);
    var c := groups.order[j];
    var ys := Of(groups, c);
    ChunkSections(fetch, written, entities, r, c, ys, l);
    GroupedLevels(pairs, c, ys[l]);
  }

  // ------------------------------------------------ where each pass stops

  /** Once a change has raised, the later ones are not applied. */
  lemma {:induction false} ApplyStops(s: seq<Block>, changes: seq<Change>, n: nat)
    requires n <= |changes| && Apply(s, changes[..n]).1.Some?
    ensures Apply(s, changes) == Apply(s, changes[..n])
    decreases |changes|
  {
    if n < |changes| {
      var q := changes[..|changes| - 1];
      assert q[..n] == changes[..n];
      ApplyStops(s, q, n);
    } else {
      assert changes[..n] == changes;
    }
  }

  /** Once a section has raised, phase one reaches no later section. */
  lemma {:induction false} FlushStops(world: World, f: Flushing, m: Lists<SectionId, Change>, keys: seq<SectionId>, n: nat)
    requires n <= |keys| && Flush(world, f, m, keys[..n]).failure.Some?
    ensures Flush(world, f, m, keys) == Flush(world, f, m, keys[..n])
    decreases |keys|
  {
    if n < |keys| {
      var q := keys[..|keys| - 1];
      assert q[..n] == keys[..n];
      FlushStops(world, f, m, q, n);
    } else {
      assert keys[..n] == keys;
    }
  }

  /** Once a level is missing, the chunk's later levels are not looked up. */
  lemma {:induction false} StoredStops(written: map<SectionId, seq<Block>>, region: (int, int), chunk: (int, int),
                                       ys: seq<int>, n: nat)
    requires n <= |ys| && StoredSections(written, region, chunk, ys[..n]).Err?
    ensures StoredSections(written, region, chunk, ys) == StoredSections(written, region, chunk, ys[..n])
    decreases |ys|
  {
    if n < |ys| {
      var q := ys[..|ys| - 1];
      assert q[..n] == ys[..n];
      StoredStops(written, region, chunk, q, n);
    } else {
      assert ys[..n] == ys;
    }
  }

  /** Once a chunk has raised, the region's later chunks are not updated. */
  lemma {:induction false} ChunkUpdatesStops(fetch: World, written: map<SectionId, seq<Block>>, entities: Lists<ChunkId, Entity>,
                                             region: (int, int), groups: Lists<(int, int), int>, cs: seq<(int, int)>, n: nat)
    requires n <= |cs| && ChunkUpdates(fetch, written, entities, region, groups, cs[..n]).Err?
    ensures ChunkUpdates(fetch, written, entities, region, groups, cs) == ChunkUpdates(fetch, written, entities, region, groups, cs[..n])
    decreases |cs|
  {
    if n < |cs| {
      var q := cs[..|cs| - 1];
      assert q[..n] == cs[..n];
      ChunkUpdatesStops(fetch, written, entities, region, groups, q, n);
    } else {
      assert cs[..n] == cs;
    }
  }

  /** Once an update has raised, no later one is issued. */
  lemma {:induction false} IssuedStops<K, T>(update: K -> Result<T>, rs: seq<K>, n: nat)
    requires n <= |rs| && Issued(update, rs[..n]).1.Some?
    ensures Issued(update, rs) == Issued(update, rs[..n])
    decreases |rs|
  {
    if n < |rs| {
      var q := rs[..|rs| - 1];
      assert q[..n] == rs[..n];
      IssuedStops(update, q, n);
    } else {
      assert rs[..n] == rs;
    }
  }

  // ------------------------------------------------- one step of each pass

  /** Phase one over keys[..i + 1] is one more step, and a step that raises
      ends the pass. */
  lemma FlushNext(world: World, f: Flushing, m: Lists<SectionId, Change>, keys: seq<SectionId>, i: nat)
    requires i < |keys| && Flush(world, f, m, keys[..i]).failure.None?
    ensures var g := FlushStep(world, Flush(world, f, m, keys[..i]), keys[i], Of(m, keys[i]));
      Flush(world, f, m, keys[..i + 1]) == g && (g.failure.Some? ==> Flush(world, f, m, keys) == g)
  {
    assert keys[..i + 1][..i] == keys[..i];
    if Flush(world, f, m, keys[..i + 1]).failure.Some? {
      FlushStops(world, f, m, keys, i + 1);
    }
  }

  /** The levels ys[..l + 1] are the levels ys[..l] and one more, and a
      missing one ends the lookup. */
  lemma StoredNext(written: map<SectionId, seq<Block>>, region: (int, int), chunk: (int, int), ys: seq<int>,
                   l: nat, secs: seq<(int, seq<Block>)>)
    requires l < |ys| && StoredSections(written, region, chunk, ys[..l]) == Ok(secs)
    ensures var sid := (region, chunk, ys[l]);
      (sid in written ==> StoredSections(written, region, chunk, ys[..l + 1]) == Ok(secs + [(ys[l], written[sid])])) &&
      (sid !in written ==> StoredSections(written, region, chunk, ys) == Err(KeyError))
  {
    assert ys[..l + 1][..l] == ys[..l];
    if (region, chunk, ys[l]) !in written {
      StoredStops(written, region, chunk, ys, l + 1);
    }
  }

  /** The chunks cs[..j + 1] are the chunks cs[..j] and one more, and one
      that raises ends the region. */
  lemma ChunkUpdatesNext(fetch: World, written: map<SectionId, seq<Block>>, entities: Lists<ChunkId, Entity>,
                         region: (int, int), groups: Lists<(int, int), int>, cs: seq<(int, int)>, j: nat, cws: seq<ChunkWrite>)
    requires j < |cs| && ChunkUpdates(fetch, written, entities, region, groups, cs[..j]) == Ok(cws)
    ensures var u := ChunkUpdate(fetch, written, entities, region, cs[j], Of(groups, cs[j]));
      (u.Ok? ==> ChunkUpdates(fetch, written, entities, region, groups, cs[..j + 1]) == Ok(cws + [u.value])) &&
      (u.Err? ==> ChunkUpdates(fetch, written, entities, region, groups, cs) == Err(u.error))
  {
    assert cs[..j + 1][..j] == cs[..j];
    if ChunkUpdate(fetch, written, entities, region, cs[j], Of(groups, cs[j])).Err? {
      ChunkUpdatesStops(fetch, written, entities, region, groups, cs, j + 1);
    }
  }

  /** The updates of rs[..i + 1] are those of rs[..i] and one more, and one
      that raises ends the pass. */
  lemma IssuedNext<K, T>(update: K -> Result<T>, rs: seq<K>, i: nat, issued: seq<T>)
    requires i < |rs| && Issued(update, rs[..i]) == (issued, None)
    ensures update(rs[i]).Ok? ==> Issued(update, rs[..i + 1]) == (issued + [update(rs[i]).value], None)
    ensures update(rs[i]).Err? ==> Issued(update, rs) == (issued, Some(update(rs[i]).error))
  {
    assert rs[..i + 1][..i] == rs[..i];
    if update(rs[i]).Err? {
      IssuedStops(update, rs, i + 1);
    }
  }

  // ---------------------------------------------------------- the whole flush

  /** A section of `keys` is noted under its region, each region once. */
  lemma RegionsNoted(keys: seq<SectionId>, sid: SectionId)
    requires sid in keys
    ensures Ordered(PushAll(Empty(), RegionPairs(keys)))
    ensures (sid.1, sid.2) in Of(PushAll(Empty(), RegionPairs(keys)), sid.0)
  {
    var pairs := RegionPairs(keys);
    var k :| 0 <= k < |keys| && keys[k] == sid;
    assert pairs[k] == (sid.0, (sid.1, sid.2));
    PushAllOf(Empty(), pairs, sid.0);
    SelectedMembers(pairs, sid.0, (sid.1, sid.2));
  }

  /** Phase one on the pending changes of `log`, when it succeeds, notes
      every pending section under its region, in order. */
  lemma FlushRegions(world: World, f: Flushing, log: seq<Write>)
    requires Coherent(world, f.cache) && f.failure.None?
    requires Flush(world, f, Planned(Empty(), log), Planned(Empty(), log).order).failure.None?
    ensures Ordered(Planned(Empty(), log))
    ensures Flush(world, f, Planned(Empty(), log), Planned(Empty(), log).order).regions
            == PushAll(f.regions, RegionPairs(Planned(Empty(), log).order))
  {
    var m := Planned(Empty(), log);
    PlannedPushes(Empty(), log);
    PushAllOf(Empty(), Changes(log), SectionOf((0, 0, 0)));
    FlushSucceeds(world, f, m, m.order);
    FlushMeaning(world, f, m, m.order);
  }

  /** Both phases of `done` on the pending changes of the `set_block` calls
      `log`: when neither raises, every section a call touched reaches the
      write of its region, handed to its chunk at its level, as long as its
      base section, and each of its indices holds the block of the last call
      that wrote that position, or its old block when no call did. */
  lemma DoneLastWrite(world: World, fetch: World, f: Flushing, entities: Lists<ChunkId, Entity>, log: seq<Write>, p: Point)
    returns (i: int, j: int, l: int)
    requires Coherent(world, f.cache) && f.failure.None? && f.regions == Empty()
    requires var m := Planned(Empty(), log); var g := Flush(world, f, m, m.order);
      g.failure.None? && RegionWrites(fetch, g.written, entities, g.regions).1.None?
    requires SectionOf(p) in Planned(Empty(), log).items
    ensures var m := Planned(Empty(), log); var g := Flush(world, f, m, m.order);
      var ws, sid := RegionWrites(fetch, g.written, entities, g.regions).0, SectionOf(p);
      0 <= i < |ws| && ws[i].region == sid.0 && 0 <= j < |ws[i].chunks| && ws[i].chunks[j].chunk == sid.1 &&
      0 <= l < |ws[i].chunks[j].sections| && ws[i].chunks[j].sections[l].0 == sid.2 &&
      var blocks, base := ws[i].chunks[j].sections[l].1, Base(world, f.written, sid);
      base.Ok? && |blocks| == |base.value| &&
      (0 <= IndexOf(p) < |blocks| ==> blocks[IndexOf(p)] == LastWrite(base.value[IndexOf(p)], log, p))
  {
    var m := Planned(Empty(), log);
    var g := Flush(world, f, m, m.order);
    var sid := SectionOf(p);
    FlushLastWrite(world, f, log, p);
    FlushRegions(world, f, log);
    RegionsNoted(m.order, sid);
    i, j, l := CoverAt(fetch, g.written, entities, g.regions, sid);
  }
}
