/** The block-entity passes of `copy_blocks` in pyblock/editor.py: entities
    in the copied box are moved by the copy's shift inside the cached source
    chunks and recorded under the chunk of their new position; with
    repetitions, each recorded entity is also cloned at every repetition
    offset. */
module EditorEntities {
  import opened Common
  import opened Tags
  import opened EditorPlans
  import opened EditorReads

  /** The entity lies in the box of size w at s (half-open on every axis). */
  predicate Inside(e: Entity, s: Point, w: Point)
  {
    s.0 <= e.x < s.0 + w.0 && s.1 <= e.y < s.1 + w.1 && s.2 <= e.z < s.2 + w.2
  }

  /** The entity with its coordinates shifted by d. */
  function Moved(e: Entity, d: Point): Entity
  {
    e.(x := e.x + d.0, y := e.y + d.1, z := e.z + d.2)
  }

  /** The chunk holding the entity's position: the key it is recorded under. */
  function EntityChunk(e: Entity): ChunkId
  {
    ChunkOf((e.x, e.y, e.z))
  }

  /** A record of entities per chunk in which every entity sits under the
      chunk that contains it: the chunk `done` writes it into. */
  ghost predicate Filed(d: Lists<ChunkId, Entity>)
  {
    forall k, e :: e in Of(d, k) ==> EntityChunk(e) == k
  }

  /** Every pair names the chunk of its entity. */
  ghost predicate PairsFiled(ps: seq<(ChunkId, Entity)>)
  {
    forall i :: 0 <= i < |ps| ==> ps[i].0 == EntityChunk(ps[i].1)
  }

  /** Pushing only well-filed pairs into a well-filed record keeps it so. */
  lemma PushAllFiled(d: Lists<ChunkId, Entity>, ps: seq<(ChunkId, Entity)>)
    requires Filed(d) && PairsFiled(ps)
    ensures Filed(PushAll(d, ps))
  {
    forall k, e | e in Of(PushAll(d, ps), k)
      ensures EntityChunk(e) == k
    {
      PushAllOf(d, ps, k);
      if e !in Of(d, k) {
        SelectedMembers(ps, k, e);
        var i :| 0 <= i < |ps| && ps[i] == (k, e);
      }
    }
  }

  // ---------------------------------------------------------- the gather pass

  /** A chunk's entity list after the pass: the entities in the box are
      moved by d where they are, the others stay as they were. */
  function Rehomed(es: seq<Entity>, s: Point, w: Point, d: Point): (r: seq<Entity>)
    ensures |r| == |es|
    ensures forall i :: 0 <= i < |es| ==> r[i] == if Inside(es[i], s, w) then Moved(es[i], d) else es[i]
  {
    if es == [] then []
    else
      var e := es[|es| - 1];
      Rehomed(es[..|es| - 1], s, w, d) + [if Inside(e, s, w) then Moved(e, d) else e]
  }

  /** What the pass records for one chunk's entities: each entity inside
      the box, moved by d, under the chunk of its new position. */
  function Picked(es: seq<Entity>, s: Point, w: Point, d: Point): (r: seq<(ChunkId, Entity)>)
    ensures PairsFiled(r)
    ensures forall kv :: kv in r <==>
      exists i :: 0 <= i < |es| && Inside(es[i], s, w) && kv == (EntityChunk(Moved(es[i], d)), Moved(es[i], d))
  {
    if es == [] then []
    else
      var q, e := es[..|es| - 1], es[|es| - 1];
      assert forall i :: 0 <= i < |q| ==> q[i] == es[i];
      Picked(q, s, w, d) + (if Inside(e, s, w) then [(EntityChunk(Moved(e, d)), Moved(e, d))] else [])
  }

  /** The pairs recorded over the cached chunks `order`, in cache order. */
  function Gathered(order: seq<ChunkId>, chunks: map<ChunkId, LoadedChunk>, s: Point, w: Point, d: Point)
    : (r: seq<(ChunkId, Entity)>)
    ensures PairsFiled(r)
    ensures forall kv :: kv in r <==>
      exists j :: 0 <= j < |order| && order[j] in chunks && kv in Picked(chunks[order[j]].blockEntities, s, w, d)
  {
    if order == [] then []
    else
      var q, k := order[..|order| - 1], order[|order| - 1];
      assert forall j :: 0 <= j < |q| ==> q[j] == order[j];
      var r := Gathered(q, chunks, s, w, d) + (if k in chunks then Picked(chunks[k].blockEntities, s, w, d) else []);
      assert forall i :: 0 <= i < |Gathered(q, chunks, s, w, d)| ==> r[i] == Gathered(q, chunks, s, w, d)[i];
      r
  }

  /** The cached chunks after the pass, every entity list re-homed. */
  function RehomedChunks(chunks: map<ChunkId, LoadedChunk>, s: Point, w: Point, d: Point): (r: map<ChunkId, LoadedChunk>)
    ensures r.Keys == chunks.Keys
    ensures forall k :: k in r ==> r[k].sectionAt == chunks[k].sectionAt
  {
    map k | k in chunks :: chunks[k].(blockEntities := Rehomed(chunks[k].blockEntities, s, w, d))
  }

  /** Moving entities leaves the cached chunks' sections as the world holds
      them. */
  lemma RehomedCoherent(world: World, c: Cache, s: Point, w: Point, d: Point)
    requires Coherent(world, c)
    ensures Coherent(world, c.(chunks := RehomedChunks(c.chunks, s, w, d)))
  {
  }

  /** The record the pass builds: a fresh dictionary of the gathered pairs. */
  function Gather(c: Cache, s: Point, w: Point, d: Point): Lists<ChunkId, Entity>
  {
    PushAll(Empty(), Gathered(c.order, c.chunks, s, w, d))
  }

  /** An entity is recorded under k exactly when the pass pushes it under k. */
  lemma GatherOf(c: Cache, s: Point, w: Point, d: Point, k: ChunkId, e: Entity)
    ensures Ordered(Gather(c, s, w, d)) && Filed(Gather(c, s, w, d))
    ensures e in Of(Gather(c, s, w, d), k) <==> (k, e) in Gathered(c.order, c.chunks, s, w, d)
  {
    var ps := Gathered(c.order, c.chunks, s, w, d);
    PushAllOf(Empty(), ps, k);
    PushAllFiled(Empty(), ps);
    SelectedMembers(ps, k, e);
  }

  /** The gathered record keeps its keys once each and files every entity
      under its chunk. */
  lemma GatherFiled(c: Cache, s: Point, w: Point, d: Point)
    ensures Ordered(Gather(c, s, w, d)) && Filed(Gather(c, s, w, d))
  {
    var ps := Gathered(c.order, c.chunks, s, w, d);
    PushAllOf(Empty(), ps, ((0, 0), (0, 0)));
    PushAllFiled(Empty(), ps);
  }

  /** The gathered record files every entity under its chunk, keeps its
      keys in first-use order, and holds exactly the moved entities of the
      box found in the cached chunks. */
  lemma GatherMeaning(c: Cache, s: Point, w: Point, d: Point, k: ChunkId, e: Entity)
    ensures Ordered(Gather(c, s, w, d)) && Filed(Gather(c, s, w, d))
    ensures e in Of(Gather(c, s, w, d), k) <==>
      EntityChunk(e) == k &&
      exists j, i :: 0 <= j < |c.order| && c.order[j] in c.chunks && 0 <= i < |c.chunks[c.order[j]].blockEntities| &&
        Inside(c.chunks[c.order[j]].blockEntities[i], s, w) && e == Moved(c.chunks[c.order[j]].blockEntities[i], d)
  {
    GatherOf(c, s, w, d, k, e);
    if e in Of(Gather(c, s, w, d), k) {
      var j :| 0 <= j < |c.order| && c.order[j] in c.chunks && (k, e) in Picked(c.chunks[c.order[j]].blockEntities, s, w, d);
    }
    if exists j, i :: 0 <= j < |c.order| && c.order[j] in c.chunks && 0 <= i < |c.chunks[c.order[j]].blockEntities| &&
        Inside(c.chunks[c.order[j]].blockEntities[i], s, w) && e == Moved(c.chunks[c.order[j]].blockEntities[i], d)
    {
      var j, i :| 0 <= j < |c.order| && c.order[j] in c.chunks && 0 <= i < |c.chunks[c.order[j]].blockEntities| &&
        Inside(c.chunks[c.order[j]].blockEntities[i], s, w) && e == Moved(c.chunks[c.order[j]].blockEntities[i], d);
      if EntityChunk(e) == k {
        assert (k, e) in Picked(c.chunks[c.order[j]].blockEntities, s, w, d);
      }
    }
  }

  /** The pass over one cached chunk's entities: each entity inside the
      box is moved by d where it is and recorded under the chunk of its new
      position. */
  method PickEntities(record: Lists<ChunkId, Entity>, es: seq<Entity>, s: Point, w: Point, d: Point)
    returns (r: Lists<ChunkId, Entity>, moved: seq<Entity>)
    ensures r == PushAll(record, Picked(es, s, w, d))
    ensures moved == Rehomed(es, s, w, d)
  {
    r, moved := record, [];
    var i := 0;
    while i < |es|
      invariant 0 <= i <= |es|
      invariant r == PushAll(record, Picked(es[..i], s, w, d))
      invariant moved == Rehomed(es[..i], s, w, d)
    {
      var e := es[i];
      assert es[..i + 1][..i] == es[..i] && es[..i + 1][i] == e;
      if Inside(e, s, w) {
        var m := Moved(e, d);
        assert Picked(es[..i + 1], s, w, d) == Picked(es[..i], s, w, d) + [(EntityChunk(m), m)];
        PushAllSnoc(record, Picked(es[..i], s, w, d), (EntityChunk(m), m));
        r := Push(r, EntityChunk(m), m);
        moved := moved + [m];
      } else {
        assert Picked(es[..i + 1], s, w, d) == Picked(es[..i], s, w, d);
        moved := moved + [e];
      }
      i := i + 1;
    }
    assert es[..i] == es;
  }

  lemma GatheredSnoc(order: seq<ChunkId>, chunks: map<ChunkId, LoadedChunk>, s: Point, w: Point, d: Point, j: int)
    requires 0 <= j < |order|
    ensures Gathered(order[..j + 1], chunks, s, w, d) ==
      Gathered(order[..j], chunks, s, w, d) + (if order[j] in chunks then Picked(chunks[order[j]].blockEntities, s, w, d) else [])
  {
    assert order[..j + 1][..j] == order[..j];
  }

  /** The cached chunks once the pass has re-homed the entities of the
      chunks `keys`. */
  function RehomedOver(chunks: map<ChunkId, LoadedChunk>, keys: seq<ChunkId>, s: Point, w: Point, d: Point)
    : (r: map<ChunkId, LoadedChunk>)
    ensures r.Keys == chunks.Keys
    ensures forall k :: k in chunks ==>
      r[k] == (if k in keys then chunks[k].(blockEntities := Rehomed(chunks[k].blockEntities, s, w, d)) else chunks[k])
  {
    if keys == [] then chunks
    else
      var q, k := keys[..|keys| - 1], keys[|keys| - 1];
      assert forall j :: j in keys <==> j in q || j == k;
      var m := RehomedOver(chunks, q, s, w, d);
      if k in chunks then m[k := chunks[k].(blockEntities := Rehomed(chunks[k].blockEntities, s, w, d))] else m
  }

  /** One more cached chunk gathered. */
  lemma GatherStep(c: Cache, s: Point, w: Point, d: Point, j: int)
    requires 0 <= j < |c.order|
    ensures var k := c.order[j];
      PushAll(Empty(), Gathered(c.order[..j + 1], c.chunks, s, w, d)) ==
        PushAll(PushAll(Empty(), Gathered(c.order[..j], c.chunks, s, w, d)),
                if k in c.chunks then Picked(c.chunks[k].blockEntities, s, w, d) else [])
  {
    var k := c.order[j];
    GatheredSnoc(c.order, c.chunks, s, w, d, j);
    var before := Gathered(c.order[..j], c.chunks, s, w, d);
    var picked := if k in c.chunks then Picked(c.chunks[k].blockEntities, s, w, d) else [];
    PushAllAppend(Empty(), before, picked);
  }

  /** One more cached chunk re-homed. */
  lemma RehomedStep(chunks: map<ChunkId, LoadedChunk>, keys: seq<ChunkId>, s: Point, w: Point, d: Point, j: int)
    requires 0 <= j < |keys|
    ensures var k := keys[j];
      RehomedOver(chunks, keys[..j + 1], s, w, d) ==
        if k in chunks then RehomedOver(chunks, keys[..j], s, w, d)[k := chunks[k].(blockEntities := Rehomed(chunks[k].blockEntities, s, w, d))]
        else RehomedOver(chunks, keys[..j], s, w, d)
  {
    assert keys[..j + 1][..j] == keys[..j];
  }

  /** The pass over one cached chunk: its picked entities pushed, and the
      chunk with its entities re-homed. */
  method GatherChunk(c: Cache, s: Point, w: Point, d: Point, j: int, r0: Lists<ChunkId, Entity>,
                     chunks0: map<ChunkId, LoadedChunk>)
    returns (r: Lists<ChunkId, Entity>, chunks: map<ChunkId, LoadedChunk>)
    requires 0 <= j < |c.order|
    requires r0 == PushAll(Empty(), Gathered(c.order[..j], c.chunks, s, w, d))
    requires chunks0 == RehomedOver(c.chunks, c.order[..j], s, w, d)
    ensures r == PushAll(Empty(), Gathered(c.order[..j + 1], c.chunks, s, w, d))
    ensures chunks == RehomedOver(c.chunks, c.order[..j + 1], s, w, d)
  {
    var k := c.order[j];
    GatherStep(c, s, w, d, j);
    RehomedStep(c.chunks, c.order, s, w, d, j);
    if k in c.chunks {
      var moved;
      r, moved := PickEntities(r0, c.chunks[k].blockEntities, s, w, d);
      chunks := chunks0[k := c.chunks[k].(blockEntities := moved)];
    } else {
      r, chunks := r0, chunks0;
    }
  }

  /** The gather pass of `copy_blocks` over the cached chunks, in cache
      order: the fresh record of the moved entities in the box, and the
      chunks with those entities moved in place. */
  method GatherEntities(c: Cache, s: Point, w: Point, d: Point)
    returns (r: Lists<ChunkId, Entity>, chunks: map<ChunkId, LoadedChunk>)
    requires forall k :: k in c.chunks ==> k in c.order
    ensures r == Gather(c, s, w, d)
    ensures chunks == RehomedChunks(c.chunks, s, w, d)
  {
    r, chunks := Empty(), c.chunks;
    var j := 0;
    while j < |c.order|
      invariant 0 <= j <= |c.order|
      invariant r == PushAll(Empty(), Gathered(c.order[..j], c.chunks, s, w, d))
      invariant chunks == RehomedOver(c.chunks, c.order[..j], s, w, d)
    {
      r, chunks := GatherChunk(c, s, w, d, j, r, chunks);
      j := j + 1;
    }
    assert c.order[..j] == c.order;
    assert chunks == RehomedChunks(c.chunks, s, w, d);
  }

  // ------------------------------------------------------ the repetition pass

  /** The clones of one entity, one per repetition offset, each under the
      chunk of its shifted position. */
  function Clones(e: Entity, rep: seq<Point>): (r: seq<(ChunkId, Entity)>)
    ensures |r| == |rep| && PairsFiled(r)
    ensures forall i :: 0 <= i < |rep| ==> r[i] == (EntityChunk(Moved(e, rep[i])), Moved(e, rep[i]))
  {
    if rep == [] then []
    else Clones(e, rep[..|rep| - 1]) + [(EntityChunk(Moved(e, rep[|rep| - 1])), Moved(e, rep[|rep| - 1]))]
  }

  /** The pair is one the pass pushes for original o recorded under k:
      o itself under k, or o's clone at one of the offsets. */
  predicate Renders(k: ChunkId, o: Entity, rep: seq<Point>, kv: (ChunkId, Entity))
  {
    kv == (k, o) || exists m :: 0 <= m < |rep| && kv == (EntityChunk(Moved(o, rep[m])), Moved(o, rep[m]))
  }

  /** The pairs pushed for one original recorded under k: itself under k,
      then its clones. */
  function Unit(k: ChunkId, e: Entity, rep: seq<Point>): (r: seq<(ChunkId, Entity)>)
    ensures EntityChunk(e) == k ==> PairsFiled(r)
    ensures forall kv :: kv in r <==> Renders(k, e, rep, kv)
  {
    var c := Clones(e, rep);
    assert forall kv :: kv in c <==> exists m :: 0 <= m < |c| && c[m] == kv;
    [(k, e)] + c
  }

  /** The pairs pushed for the entities `es` recorded under k, in order. */
  function Group(k: ChunkId, es: seq<Entity>, rep: seq<Point>): (r: seq<(ChunkId, Entity)>)
    ensures (forall i :: 0 <= i < |es| ==> EntityChunk(es[i]) == k) ==> PairsFiled(r)
    ensures forall kv :: kv in r <==> exists i :: 0 <= i < |es| && Renders(k, es[i], rep, kv)
  {
    if es == [] then []
    else
      var q, e := es[..|es| - 1], es[|es| - 1];
      assert forall i :: 0 <= i < |q| ==> q[i] == es[i];
      var g := Group(k, q, rep);
      var r := g + Unit(k, e, rep);
      assert forall i :: 0 <= i < |g| ==> r[i] == g[i];
      assert forall i :: 0 <= i < |Unit(k, e, rep)| ==> r[|g| + i] == Unit(k, e, rep)[i];
      r
  }

  /** The pairs pushed for the keys `keys` of record d, in order. */
  function Repeated(d: Lists<ChunkId, Entity>, keys: seq<ChunkId>, rep: seq<Point>): (r: seq<(ChunkId, Entity)>)
    ensures forall kv :: kv in r <==>
      exists j, i :: 0 <= j < |keys| && 0 <= i < |Of(d, keys[j])| && Renders(keys[j], Of(d, keys[j])[i], rep, kv)
  {
    if keys == [] then []
    else
      var q, k := keys[..|keys| - 1], keys[|keys| - 1];
      assert forall j :: 0 <= j < |q| ==> q[j] == keys[j];
      var a := Repeated(d, q, rep);
      a + Group(k, Of(d, k), rep)
  }

  /** Repeating a well-filed record pushes only well-filed pairs. */
  lemma {:induction false} RepeatedFiled(d: Lists<ChunkId, Entity>, keys: seq<ChunkId>, rep: seq<Point>)
    requires Filed(d)
    ensures PairsFiled(Repeated(d, keys, rep))
  {
    if keys != [] {
      var q, k := keys[..|keys| - 1], keys[|keys| - 1];
      RepeatedFiled(d, q, rep);
      assert forall i :: 0 <= i < |Of(d, k)| ==> EntityChunk(Of(d, k)[i]) == k;
      var a, g := Repeated(d, q, rep), Group(k, Of(d, k), rep);
      assert Repeated(d, keys, rep) == a + g;
      assert forall i :: 0 <= i < |a| ==> (a + g)[i] == a[i];
      assert forall i :: 0 <= i < |g| ==> (a + g)[|a| + i] == g[i];
    }
  }

  /** The record after the repetition pass, as intended: a fresh dictionary
      of the originals and their clones. */
  function Repeat(d: Lists<ChunkId, Entity>, rep: seq<Point>): Lists<ChunkId, Entity>
  {
    PushAll(Empty(), Repeated(d, d.order, rep))
  }

  /** An entity is recorded under k after the pass exactly when the pass
      pushes it under k. */
  lemma RepeatOf(d: Lists<ChunkId, Entity>, rep: seq<Point>, k: ChunkId, e: Entity)
    ensures Ordered(Repeat(d, rep))
    ensures e in Of(Repeat(d, rep), k) <==> (k, e) in Repeated(d, d.order, rep)
  {
    PushAllOf(Empty(), Repeated(d, d.order, rep), k);
    SelectedMembers(Repeated(d, d.order, rep), k, e);
  }

  /** Repeating keeps a well-filed record well filed. */
  lemma RepeatFiled(d: Lists<ChunkId, Entity>, rep: seq<Point>)
    requires Filed(d)
    ensures Ordered(Repeat(d, rep)) && Filed(Repeat(d, rep))
  {
    PushAllOf(Empty(), Repeated(d, d.order, rep), ((0, 0), (0, 0)));
    RepeatedFiled(d, d.order, rep);
    PushAllFiled(Empty(), Repeated(d, d.order, rep));
  }

  /** A pair pushed for the n-th original of the j-th key is recorded. */
  lemma RepeatHas(d: Lists<ChunkId, Entity>, rep: seq<Point>, j: int, n: int, kv: (ChunkId, Entity))
    requires 0 <= j < |d.order| && 0 <= n < |Of(d, d.order[j])|
    requires Renders(d.order[j], Of(d, d.order[j])[n], rep, kv)
    ensures kv.1 in Of(Repeat(d, rep), kv.0)
  {
    RepeatOf(d, rep, kv.0, kv.1);
  }

  /** Every original stays under its key and gets its clone at every
      offset, under the clone's chunk. */
  lemma RepeatKeeps(d: Lists<ChunkId, Entity>, rep: seq<Point>, k: ChunkId, e: Entity)
    requires Ordered(d) && e in Of(d, k)
    ensures e in Of(Repeat(d, rep), k)
    ensures forall i :: 0 <= i < |rep| ==> Moved(e, rep[i]) in Of(Repeat(d, rep), EntityChunk(Moved(e, rep[i])))
  {
    var j :| 0 <= j < |d.order| && d.order[j] == k;
    var n :| 0 <= n < |Of(d, k)| && Of(d, k)[n] == e;
    RepeatHas(d, rep, j, n, (k, e));
    forall i | 0 <= i < |rep|
      ensures Moved(e, rep[i]) in Of(Repeat(d, rep), EntityChunk(Moved(e, rep[i])))
    {
      RepeatHas(d, rep, j, n, (EntityChunk(Moved(e, rep[i])), Moved(e, rep[i])));
    }
  }

  /** Nothing else is recorded: each entity is an original under its own
      key or a clone of an original at one of the offsets. */
  lemma RepeatOnly(d: Lists<ChunkId, Entity>, rep: seq<Point>, k: ChunkId, e: Entity)
    requires e in Of(Repeat(d, rep), k)
    ensures e in Of(d, k) || exists o, j, i :: 0 <= i < |rep| && o in Of(d, j) && e == Moved(o, rep[i])
  {
    RepeatOf(d, rep, k, e);
    var j, n :| 0 <= j < |d.order| && 0 <= n < |Of(d, d.order[j])| && Renders(d.order[j], Of(d, d.order[j])[n], rep, (k, e));
    var o := Of(d, d.order[j])[n];
    if (k, e) != (d.order[j], o) {
      var m :| 0 <= m < |rep| && (k, e) == (EntityChunk(Moved(o, rep[m])), Moved(o, rep[m]));
      assert o in Of(d, d.order[j]) && e == Moved(o, rep[m]);
    }
  }

  /** The clones of one original, pushed one repetition at a time. */
  method RepeatClones(r0: Lists<ChunkId, Entity>, e: Entity, rep: seq<Point>) returns (r: Lists<ChunkId, Entity>)
    ensures r == PushAll(r0, Clones(e, rep))
  {
    r := r0;
    var m := 0;
    while m < |rep|
      invariant 0 <= m <= |rep|
      invariant r == PushAll(r0, Clones(e, rep[..m]))
    {
      var clone := Moved(e, rep[m]);
      assert rep[..m + 1][..m] == rep[..m] && rep[..m + 1][m] == rep[m];
      PushAllSnoc(r0, Clones(e, rep[..m]), (EntityChunk(clone), clone));
      r := Push(r, EntityChunk(clone), clone);
      m := m + 1;
    }
    assert rep[..m] == rep;
  }

  /** One more original of a list: itself under the list's key, then its clones. */
  lemma GroupStep(r0: Lists<ChunkId, Entity>, k: ChunkId, es: seq<Entity>, rep: seq<Point>, i: int)
    requires 0 <= i < |es|
    ensures PushAll(r0, Group(k, es[..i + 1], rep)) == PushAll(Push(PushAll(r0, Group(k, es[..i], rep)), k, es[i]), Clones(es[i], rep))
  {
    assert es[..i + 1][..i] == es[..i] && es[..i + 1][i] == es[i];
    var g, c := Group(k, es[..i], rep), Clones(es[i], rep);
    assert Group(k, es[..i + 1], rep) == (g + [(k, es[i])]) + c;
    PushAllAppend(r0, g + [(k, es[i])], c);
    PushAllSnoc(r0, g, (k, es[i]));
  }

  /** The originals recorded under one key, each followed by its clones. */
  method RepeatGroup(r0: Lists<ChunkId, Entity>, k: ChunkId, es: seq<Entity>, rep: seq<Point>) returns (r: Lists<ChunkId, Entity>)
    ensures r == PushAll(r0, Group(k, es, rep))
  {
    r := r0;
    var i := 0;
    while i < |es|
      invariant 0 <= i <= |es|
      invariant r == PushAll(r0, Group(k, es[..i], rep))
    {
      GroupStep(r0, k, es, rep, i);
      r := Push(r, k, es[i]);
      r := RepeatClones(r, es[i], rep);
      i := i + 1;
    }
    assert es[..i] == es;
  }

  lemma RepeatedStep(d: Lists<ChunkId, Entity>, rep: seq<Point>, j: int)
    requires 0 <= j < |d.order|
    ensures PushAll(Empty(), Repeated(d, d.order[..j + 1], rep)) ==
            PushAll(PushAll(Empty(), Repeated(d, d.order[..j], rep)), Group(d.order[j], Of(d, d.order[j]), rep))
  {
    assert d.order[..j + 1][..j] == d.order[..j] && d.order[..j + 1][j] == d.order[j];
    PushAllAppend(Empty(), Repeated(d, d.order[..j], rep), Group(d.order[j], Of(d, d.order[j]), rep));
  }

  /** The repetition pass of `copy_blocks`, as intended: a fresh record of
      every recorded original, key by key, each followed by its clones. */
  method RepeatEntities(d: Lists<ChunkId, Entity>, rep: seq<Point>) returns (r: Lists<ChunkId, Entity>)
    ensures r == Repeat(d, rep)
  {
    r := Empty();
    var j := 0;
    while j < |d.order|
      invariant 0 <= j <= |d.order|
      invariant r == PushAll(Empty(), Repeated(d, d.order[..j], rep))
    {
      RepeatedStep(d, rep, j);
      r := RepeatGroup(r, d.order[j], Of(d, d.order[j]), rep);
      j := j + 1;
    }
    assert d.order[..j] == d.order;
  }

  // ------------------------------------------------ the pass as it is written

  /** The repetition pass as written: after the clones of an entity the
      loop variable `key` holds the chunk of its last clone, and the next
      original of the same list is pushed under that key. */
  function GroupAsWritten(k: ChunkId, es: seq<Entity>, rep: seq<Point>): seq<(ChunkId, Entity)>
    decreases |es|
  {
    if es == [] then []
    else
      var next := if rep == [] then k else EntityChunk(Moved(es[0], rep[|rep| - 1]));
      [(k, es[0])] + Clones(es[0], rep) + GroupAsWritten(next, es[1..], rep)
  }

  /** The key the pass as written pushes the i-th original of a list
      under: the list's own key for the first, and after that the chunk of
      the last clone of the original before it. */
  function KeyAsWritten(k: ChunkId, es: seq<Entity>, rep: seq<Point>, i: int): ChunkId
    requires 0 <= i < |es|
  {
    if i == 0 || rep == [] then k else EntityChunk(Moved(es[i - 1], rep[|rep| - 1]))
  }

  /** For every list and every repetition: as written, each clone is still
      pushed under its own chunk, but each original is pushed under
      `KeyAsWritten`, which for all but the first is the chunk of the
      previous original's last clone. */
  lemma {:induction false} GroupAsWrittenMembers(k: ChunkId, es: seq<Entity>, rep: seq<Point>, kv: (ChunkId, Entity))
    ensures kv in GroupAsWritten(k, es, rep) <==>
      exists i :: 0 <= i < |es| && (kv == (KeyAsWritten(k, es, rep, i), es[i]) || kv in Clones(es[i], rep))
    decreases |es|
  {
    if es != [] {
      var next := if rep == [] then k else EntityChunk(Moved(es[0], rep[|rep| - 1]));
      var tail := es[1..];
      GroupAsWrittenMembers(next, tail, rep, kv);
      assert GroupAsWritten(k, es, rep) == [(k, es[0])] + Clones(es[0], rep) + GroupAsWritten(next, tail, rep);
      forall j | 0 <= j < |tail|
        ensures tail[j] == es[j + 1] && KeyAsWritten(next, tail, rep, j) == KeyAsWritten(k, es, rep, j + 1)
      {
      }
      if kv in GroupAsWritten(k, es, rep) {
        if kv == (k, es[0]) || kv in Clones(es[0], rep) {
          assert kv == (KeyAsWritten(k, es, rep, 0), es[0]) || kv in Clones(es[0], rep);
        } else {
          var j :| 0 <= j < |tail| && (kv == (KeyAsWritten(next, tail, rep, j), tail[j]) || kv in Clones(tail[j], rep));
          assert kv == (KeyAsWritten(k, es, rep, j + 1), es[j + 1]) || kv in Clones(es[j + 1], rep);
        }
      }
      if exists i :: 0 <= i < |es| && (kv == (KeyAsWritten(k, es, rep, i), es[i]) || kv in Clones(es[i], rep)) {
        var i :| 0 <= i < |es| && (kv == (KeyAsWritten(k, es, rep, i), es[i]) || kv in Clones(es[i], rep));
        if i > 0 {
          assert kv == (KeyAsWritten(next, tail, rep, i - 1), tail[i - 1]) || kv in Clones(tail[i - 1], rep);
        }
      }
    }
  }

  /** The chunks of the positions the example below uses. */
  lemma ExampleChunks(data: Tag)
    ensures EntityChunk(Entity(0, 0, 0, data)) == ((0, 0), (0, 0)) && EntityChunk(Entity(1, 0, 0, data)) == ((0, 0), (0, 0))
    ensures EntityChunk(Entity(16, 0, 0, data)) == ((0, 0), (1, 0)) && EntityChunk(Entity(17, 0, 0, data)) == ((0, 0), (1, 0))
  {
  }

  /** Two entities at (0, 0, 0) and (1, 0, 0), both in chunk (0, 0) of
      region (0, 0), repeated once 16 blocks east: as written, the second
      original is pushed under chunk (1, 0), the chunk of the first one's
      clone, where it does not lie; the intended pass pushes it under
      chunk (0, 0). */
  lemma AsWrittenMisfiles(data: Tag)
    ensures var e1, e2, rep := Entity(0, 0, 0, data), Entity(1, 0, 0, data), [(16, 0, 0)];
            var k0, k1 := ((0, 0), (0, 0)), ((0, 0), (1, 0));
            EntityChunk(e1) == k0 && EntityChunk(e2) == k0 &&
            GroupAsWritten(k0, [e1, e2], rep) == [(k0, e1), (k1, Moved(e1, rep[0])), (k1, e2), (k1, Moved(e2, rep[0]))] &&
            Group(k0, [e1, e2], rep) == [(k0, e1), (k1, Moved(e1, rep[0])), (k0, e2), (k1, Moved(e2, rep[0]))]
  {
    var e1, e2, rep := Entity(0, 0, 0, data), Entity(1, 0, 0, data), [(16, 0, 0)];
    var k0, k1 := ((0, 0), (0, 0)), ((0, 0), (1, 0));
    ExampleChunks(data);
    assert Moved(e1, rep[0]) == Entity(16, 0, 0, data) && Moved(e2, rep[0]) == Entity(17, 0, 0, data);
    var c1, c2 := Clones(e1, rep), Clones(e2, rep);
    assert c1 == [(k1, Moved(e1, rep[0]))] && c2 == [(k1, Moved(e2, rep[0]))];
    assert [e1, e2][1..] == [e2] && [e2][1..] == [];
    assert GroupAsWritten(k1, [e2], rep) == [(k1, e2)] + c2;
    assert GroupAsWritten(k0, [e1, e2], rep) == [(k0, e1)] + c1 + GroupAsWritten(k1, [e2], rep);
    assert [e1, e2][..1] == [e1] && [e1][..0] == [];
    assert Group(k0, [e1], rep) == Unit(k0, e1, rep);
    assert Group(k0, [e1, e2], rep) == Group(k0, [e1], rep) + Unit(k0, e2, rep);
  }

  /** The entity pass of `copy_blocks`: the entities of the box of size w
      at s found in the chunks cached in `c`, moved by d, recorded in a
      fresh dictionary, then repeated when there are repetitions; `rehomed`
      is those chunks with their entities in the box moved. */
  method CopyEntities(c: Cache, s: Point, w: Point, d: Point, rep: seq<Point>)
    returns (record: Lists<ChunkId, Entity>, rehomed: map<ChunkId, LoadedChunk>)
    requires forall k :: k in c.chunks ==> k in c.order
    ensures rehomed == RehomedChunks(c.chunks, s, w, d)
    ensures record == if rep == [] then Gather(c, s, w, d) else Repeat(Gather(c, s, w, d), rep)
    ensures Ordered(record) && Filed(record)
  {
    var gathered;
    gathered, rehomed := GatherEntities(c, s, w, d);
    GatherFiled(c, s, w, d);
    if rep != [] {
      record := RepeatEntities(gathered, rep);
      RepeatFiled(gathered, rep);
    } else {
      record := gathered;
    }
  }
}
