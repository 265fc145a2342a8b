/** What the box scans of pyblock/editor.py make of the blocks they read:
    the per-id counts of `list_blocks` and their ordering, the matches of
    `find_blocks`, and the writes `copy_blocks` records. */
module EditorResults {
  import opened Common
  import opened Blocks
  import opened EditorPlans

  // ----------------------------------------------------------- list_blocks

  /** The `blocks` dict of `list_blocks`: ids in insertion order and their counts. */
  datatype Counts = Counts(ids: seq<string>, n: map<string, nat>)

  predicate CountsOrdered(c: Counts)
  {
    (forall i, j :: 0 <= i < j < |c.ids| ==> c.ids[i] != c.ids[j]) &&
    (forall k :: k in c.n ==> k in c.ids) &&
    (forall i :: 0 <= i < |c.ids| ==> c.ids[i] in c.n)
  }

  /** `blocks[id] += 1`, or `blocks[id] = 1` for a new id. */
  function Bump(c: Counts, id: string): Counts
  {
    if id in c.n then Counts(c.ids, c.n[id := c.n[id] + 1]) else Counts(c.ids + [id], c.n[id := 1])
  }

  /** One more block of `id`: its count goes up by one, a new id is
      appended, and nothing else changes. */
  lemma BumpFacts(c: Counts, id: string)
    ensures CountsOrdered(c) ==> CountsOrdered(Bump(c, id))
    ensures Bump(c, id).n.Keys == c.n.Keys + {id}
    ensures forall k :: k in Bump(c, id).n ==> Bump(c, id).n[k] == (if k in c.n then c.n[k] else 0) + (if k == id then 1 else 0)
  {
  }

  /** The counts after one `Bump` per block read, in order. */
  function Tally(bs: seq<Block>): Counts
  {
    if bs == [] then Counts([], map[]) else Bump(Tally(bs[..|bs| - 1]), bs[|bs| - 1].id)
  }

  /** The ids of the blocks read, in order. */
  function Ids(bs: seq<Block>): (r: seq<string>)
    ensures |r| == |bs| && forall i :: 0 <= i < |bs| ==> r[i] == bs[i].id
  {
    if bs == [] then [] else Ids(bs[..|bs| - 1]) + [bs[|bs| - 1].id]
  }

  lemma TallySnoc(bs: seq<Block>, b: Block)
    ensures Tally(bs + [b]) == Bump(Tally(bs), b.id)
  {
    assert (bs + [b])[..|bs|] == bs;
  }

  /** Each id seen is counted once per block carrying it, and only ids seen
      are present. */
  lemma {:induction false} TallyCounts(bs: seq<Block>, id: string)
    ensures CountsOrdered(Tally(bs))
    ensures id in Tally(bs).n <==> multiset(Ids(bs))[id] > 0
    ensures id in Tally(bs).n ==> Tally(bs).n[id] == multiset(Ids(bs))[id]
  {
    if bs != [] {
      var q := bs[..|bs| - 1];
      TallyCounts(q, id);
      BumpFacts(Tally(q), bs[|bs| - 1].id);
      assert Ids(bs) == Ids(q) + [bs[|bs| - 1].id];
    }
  }

  /** `blocks.items()`: each id with its count, in insertion order. */
  function ItemsOf(ids: seq<string>, n: map<string, nat>): (r: seq<(string, nat)>)
    ensures |r| == |ids| && forall i :: 0 <= i < |ids| ==> r[i].0 == ids[i]
  {
    if ids == [] then []
    else ItemsOf(ids[..|ids| - 1], n) + [(ids[|ids| - 1], if ids[|ids| - 1] in n then n[ids[|ids| - 1]] else 0)]
  }

  lemma {:induction false} ItemsOfMembers(ids: seq<string>, n: map<string, nat>, id: string, k: nat)
    ensures (id, k) in ItemsOf(ids, n) <==> id in ids && k == (if id in n then n[id] else 0)
  {
    if ids != [] {
      ItemsOfMembers(ids[..|ids| - 1], n, id, k);
      assert ids == ids[..|ids| - 1] + [ids[|ids| - 1]];
    }
  }

  /** Stable insertion into a list sorted by count: after every entry whose
      count is at most the new one's. */
  function Insert(s: seq<(string, nat)>, x: (string, nat)): seq<(string, nat)>
  {
    if s == [] then [x]
    else if s[|s| - 1].1 > x.1 then Insert(s[..|s| - 1], x) + [s[|s| - 1]]
    else s + [x]
  }

  /** `sorted(items, key=itemgetter(1))`: by count, ascending, stable. */
  function SortAscending(s: seq<(string, nat)>): seq<(string, nat)>
  {
    if s == [] then [] else Insert(SortAscending(s[..|s| - 1]), s[|s| - 1])
  }

  function Reverse<T>(s: seq<T>): (r: seq<T>)
    ensures |r| == |s| && forall i :: 0 <= i < |s| ==> r[i] == s[|s| - 1 - i]
  {
    if s == [] then [] else [s[|s| - 1]] + Reverse(s[..|s| - 1])
  }

  predicate Ascending(s: seq<(string, nat)>)
  {
    forall i, j :: 0 <= i < j < |s| ==> s[i].1 <= s[j].1
  }

  predicate KeysDistinct(s: seq<(string, nat)>)
  {
    forall i, j :: 0 <= i < j < |s| ==> s[i].0 != s[j].0
  }

  function KeySet(s: seq<(string, nat)>): set<string>
  {
    set i | 0 <= i < |s| :: s[i].0
  }

  lemma {:induction false} InsertBounded(s: seq<(string, nat)>, x: (string, nat), m: nat)
    requires forall k :: 0 <= k < |s| ==> s[k].1 <= m
    requires x.1 <= m
    ensures forall k :: 0 <= k < |Insert(s, x)| ==> Insert(s, x)[k].1 <= m
  {
    if s != [] && s[|s| - 1].1 > x.1 {
      InsertBounded(s[..|s| - 1], x, m);
    }
  }

  lemma {:induction false} InsertSorted(s: seq<(string, nat)>, x: (string, nat))
    requires Ascending(s)
    ensures Ascending(Insert(s, x))
  {
    if s != [] && s[|s| - 1].1 > x.1 {
      var q, y := s[..|s| - 1], s[|s| - 1];
      assert s == q + [y];
      InsertSorted(q, x);
      InsertBounded(q, x, y.1);
      var r := Insert(q, x);
      assert Insert(s, x) == r + [y];
      forall i, j | 0 <= i < j < |r| + 1
        ensures (r + [y])[i].1 <= (r + [y])[j].1
      {
        assert (r + [y])[i] == r[i];
        if j < |r| {
          assert (r + [y])[j] == r[j];
        }
      }
    } else if s != [] {
      forall i, j | 0 <= i < j < |s| + 1
        ensures (s + [x])[i].1 <= (s + [x])[j].1
      {
        assert (s + [x])[i] == s[i];
        if j < |s| {
          assert (s + [x])[j] == s[j];
        } else {
          assert s[i].1 <= s[|s| - 1].1;
        }
      }
    }
  }

  lemma {:induction false} InsertPermutes(s: seq<(string, nat)>, x: (string, nat))
    ensures multiset(Insert(s, x)) == multiset(s) + multiset{x}
  {
    if s != [] && s[|s| - 1].1 > x.1 {
      var q, y := s[..|s| - 1], s[|s| - 1];
      assert s == q + [y];
      InsertPermutes(q, x);
    }
  }

  lemma {:induction false} InsertKeys(s: seq<(string, nat)>, x: (string, nat))
    ensures KeySet(Insert(s, x)) == KeySet(s) + {x.0}
    ensures KeysDistinct(s) && x.0 !in KeySet(s) ==> KeysDistinct(Insert(s, x))
  {
    if s == [] {
      assert Insert(s, x)[0] == x;
    } else if s[|s| - 1].1 > x.1 {
      var q, y := s[..|s| - 1], s[|s| - 1];
      assert s == q + [y];
      InsertKeys(q, x);
      var r := Insert(q, x);
      assert KeySet(r + [y]) == KeySet(r) + {y.0} by {
        assert forall k :: 0 <= k < |r| ==> (r + [y])[k] == r[k];
        assert (r + [y])[|r|] == y;
      }
      assert KeySet(s) == KeySet(q) + {y.0} by {
        assert forall k :: 0 <= k < |q| ==> s[k] == q[k];
      }
      if KeysDistinct(s) && x.0 !in KeySet(s) {
        assert y.0 !in KeySet(q) by {
          forall k | 0 <= k < |q| ensures q[k].0 != y.0 { assert s[k] == q[k]; }
        }
        assert y.0 !in KeySet(r);
      }
    } else {
      assert forall k :: 0 <= k < |s| ==> (s + [x])[k] == s[k];
      assert (s + [x])[|s|] == x;
    }
  }

  lemma {:induction false} SortAscendingSpec(s: seq<(string, nat)>)
    ensures Ascending(SortAscending(s)) && multiset(SortAscending(s)) == multiset(s)
  {
    if s != [] {
      var q, y := s[..|s| - 1], s[|s| - 1];
      assert s == q + [y];
      SortAscendingSpec(q);
      InsertSorted(SortAscending(q), y);
      InsertPermutes(SortAscending(q), y);
    }
  }

  lemma {:induction false} SortAscendingKeys(s: seq<(string, nat)>)
    ensures KeySet(SortAscending(s)) == KeySet(s)
    ensures KeysDistinct(s) ==> KeysDistinct(SortAscending(s))
  {
    if s != [] {
      var q, y := s[..|s| - 1], s[|s| - 1];
      SortAscendingKeys(q);
      InsertKeys(SortAscending(q), y);
      assert KeySet(s) == KeySet(q) + {y.0} by {
        assert forall k :: 0 <= k < |q| ==> s[k] == q[k];
        assert s[|q|] == y;
      }
      if KeysDistinct(s) {
        assert y.0 !in KeySet(q) by {
          forall k | 0 <= k < |q| ensures q[k].0 != y.0 { assert s[k] == q[k]; }
        }
        assert KeysDistinct(q) by {
          forall a, b | 0 <= a < b < |q| ensures q[a].0 != q[b].0 { assert s[a] == q[a] && s[b] == q[b]; }
        }
      }
    }
  }

  lemma {:induction false} ReverseMultiset<T>(s: seq<T>)
    ensures multiset(Reverse(s)) == multiset(s)
  {
    if s != [] {
      ReverseMultiset(s[..|s| - 1]);
      assert s == s[..|s| - 1] + [s[|s| - 1]];
    }
  }

  /** The ordered dict `list_blocks` returns: the ascending sort, reversed. */
  function Listing(bs: seq<Block>): seq<(string, nat)>
  {
    var c := Tally(bs);
    Reverse(SortAscending(ItemsOf(c.ids, c.n)))
  }

  /** `list_blocks` lists every id read with the number of blocks carrying
      it, and nothing else. */
  lemma ListingMembers(bs: seq<Block>, id: string, k: nat)
    ensures (id, k) in Listing(bs) <==> k > 0 && k == multiset(Ids(bs))[id]
  {
    var c := Tally(bs);
    var items := ItemsOf(c.ids, c.n);
    TallyCounts(bs, id);
    ItemsOfMembers(c.ids, c.n, id, k);
    SortAscendingSpec(items);
    var sorted := SortAscending(items);
    ReverseMultiset(sorted);
    assert (id, k) in Listing(bs) <==> (id, k) in multiset(Listing(bs));
    assert (id, k) in items <==> (id, k) in multiset(items);
  }

  /** The listing names each id once, by count from the largest down. */
  lemma ListingOrdered(bs: seq<Block>)
    ensures forall i, j :: 0 <= i < j < |Listing(bs)| ==> Listing(bs)[i].1 >= Listing(bs)[j].1
    ensures forall i, j :: 0 <= i < j < |Listing(bs)| ==> Listing(bs)[i].0 != Listing(bs)[j].0
  {
    var c := Tally(bs);
    var items := ItemsOf(c.ids, c.n);
    TallyCounts(bs, "");
    assert KeysDistinct(items);
    SortAscendingSpec(items);
    SortAscendingKeys(items);
    var sorted := SortAscending(items);
    ReverseDescending(sorted);
  }

  lemma ReverseDescending(s: seq<(string, nat)>)
    requires Ascending(s) && KeysDistinct(s)
    ensures forall i, j :: 0 <= i < j < |Reverse(s)| ==> Reverse(s)[i].1 >= Reverse(s)[j].1
    ensures KeysDistinct(Reverse(s))
  {
    var r := Reverse(s);
    forall i, j | 0 <= i < j < |r|
      ensures r[i].0 != r[j].0 && r[i].1 >= r[j].1
    {
      assert r[i] == s[|s| - 1 - i] && r[j] == s[|s| - 1 - j];
    }
  }

  // ----------------------------------------------------------- find_blocks

  /** `comp_exact` (Python `==`) when `exact`, else `comp_name` (same id). */
  predicate Matches(block: Block, b: Block, exact: bool)
  {
    if exact then Eq(block, IsBlock(b)) else block.id == b.id
  }

  /** The positions among `ps` whose block (the one at the same index of
      `bs`) matches, in scan order. */
  function Found(ps: seq<Point>, bs: seq<Block>, block: Block, exact: bool): seq<Point>
    requires |bs| == |ps|
  {
    if bs == [] then []
    else Found(ps[..|ps| - 1], bs[..|bs| - 1], block, exact) + (if Matches(block, bs[|bs| - 1], exact) then [ps[|ps| - 1]] else [])
  }

  lemma FoundSnoc(ps: seq<Point>, bs: seq<Block>, p: Point, b: Block, block: Block, exact: bool)
    requires |bs| == |ps|
    ensures Found(ps + [p], bs + [b], block, exact) == Found(ps, bs, block, exact) + (if Matches(block, b, exact) then [p] else [])
  {
    assert (bs + [b])[..|bs|] == bs && (ps + [p])[..|ps|] == ps;
  }

  /** A position is found exactly when it was scanned and its block matches. */
  lemma {:induction false} FoundMembers(ps: seq<Point>, bs: seq<Block>, block: Block, exact: bool, p: Point)
    requires |bs| == |ps|
    ensures p in Found(ps, bs, block, exact) <==> exists i :: 0 <= i < |bs| && ps[i] == p && Matches(block, bs[i], exact)
  {
    if bs != [] {
      var q, qs := bs[..|bs| - 1], ps[..|ps| - 1];
      FoundMembers(qs, q, block, exact, p);
      if exists i :: 0 <= i < |bs| && ps[i] == p && Matches(block, bs[i], exact) {
        var i :| 0 <= i < |bs| && ps[i] == p && Matches(block, bs[i], exact);
        if i < |q| {
          assert q[i] == bs[i] && qs[i] == ps[i];
        }
      }
    }
  }

  // ----------------------------------------------------------- copy_blocks

  function Plus(p: Point, d: Point): Point
  {
    (p.0 + d.0, p.1 + d.1, p.2 + d.2)
  }

  function Minus(p: Point, d: Point): Point
  {
    (p.0 - d.0, p.1 - d.1, p.2 - d.2)
  }

  /** The repetition writes of one copied block: at `q + r` for each r of `rep`. */
  function Repeats(b: Block, q: Point, rep: seq<Point>): (r: seq<Write>)
    ensures |r| == |rep| && forall i :: 0 <= i < |rep| ==> r[i] == (b, Plus(q, rep[i]))
  {
    if rep == [] then [] else Repeats(b, q, rep[..|rep| - 1]) + [(b, Plus(q, rep[|rep| - 1]))]
  }

  /** A block read at source position p with no repetitions is written to
      `t + (p - s)`; with repetitions it is written to `t + (p - s) + r` for
      every r, and not to `t + (p - s)` itself unless some r is zero. */
  predicate CopiedTo(w: Write, b: Block, p: Point, s: Point, t: Point, rep: seq<Point>)
  {
    w.0 == b &&
    if rep == [] then w.1 == Plus(t, Minus(p, s))
    else exists i :: 0 <= i < |rep| && w.1 == Plus(Plus(t, Minus(p, s)), rep[i])
  }

  /** The writes for the block read at source position p. */
  function CellCopies(b: Block, p: Point, s: Point, t: Point, rep: seq<Point>): (r: seq<Write>)
    ensures forall w :: w in r <==> CopiedTo(w, b, p, s, t, rep)
  {
    if rep == [] then [(b, Plus(t, Minus(p, s)))] else Repeats(b, Plus(t, Minus(p, s)), rep)
  }

  /** The writes of `copy_blocks` for the blocks `bs` read at `ps`, in
      order: a write is among them exactly when it is a copy of one of them. */
  function CopyWrites(ps: seq<Point>, bs: seq<Block>, s: Point, t: Point, rep: seq<Point>): (r: seq<Write>)
    requires |bs| == |ps|
    ensures forall w :: w in r <==> exists i :: 0 <= i < |bs| && CopiedTo(w, bs[i], ps[i], s, t, rep)
  {
    if bs == [] then []
    else
      var q, qs := bs[..|bs| - 1], ps[..|ps| - 1];
      assert forall i :: 0 <= i < |q| ==> q[i] == bs[i] && qs[i] == ps[i];
      CopyWrites(qs, q, s, t, rep) + CellCopies(bs[|bs| - 1], ps[|ps| - 1], s, t, rep)
  }

  lemma CopyWritesSnoc(ps: seq<Point>, bs: seq<Block>, p: Point, b: Block, s: Point, t: Point, rep: seq<Point>)
    requires |bs| == |ps|
    ensures CopyWrites(ps + [p], bs + [b], s, t, rep) == CopyWrites(ps, bs, s, t, rep) + CellCopies(b, p, s, t, rep)
  {
    assert (bs + [b])[..|bs|] == bs && (ps + [p])[..|ps|] == ps;
  }
}
