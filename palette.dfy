/** The palette a section writes (pyblock/section.py, get_palette): one block
    of every kind present, ordered by the block's repr string. */
module Palettes {
  import opened Common
  import opened Blocks

  /** Python's `a < b` on strings: lexicographic by code point. */
  predicate StrLt(a: string, b: string)
  {
    if a == [] then b != []
    else if b == [] then false
    else if a[0] != b[0] then a[0] < b[0]
    else StrLt(a[1..], b[1..])
  }

  lemma {:induction false} StrLtIrreflexive(a: string)
    ensures !StrLt(a, a)
  {
    if a != [] {
      StrLtIrreflexive(a[1..]);
    }
  }

  lemma {:induction false} StrLtTransitive(a: string, b: string, c: string)
    requires StrLt(a, b) && StrLt(b, c)
    ensures StrLt(a, c)
  {
    if a != [] && b != [] && c != [] && a[0] == b[0] && b[0] == c[0] {
      StrLtTransitive(a[1..], b[1..], c[1..]);
    }
  }

  lemma {:induction false} StrLtTotal(a: string, b: string)
    ensures a == b || StrLt(a, b) || StrLt(b, a)
  {
    if a != [] && b != [] && a[0] == b[0] {
      StrLtTotal(a[1..], b[1..]);
      if a[1..] == b[1..] {
        assert a == [a[0]] + a[1..] && b == [b[0]] + b[1..];
      }
    }
  }

  function Key(b: Block): string { Repr(b) }

  /** Ordered by repr, as `list.sort(key=repr)` leaves a list. */
  predicate SortedByRepr(s: seq<Block>)
  {
    forall i, j :: 0 <= i < j < |s| ==> !StrLt(Key(s[j]), Key(s[i]))
  }

  /** No two entries are equal blocks. */
  predicate NoTwoSame(s: seq<Block>)
  {
    forall i, j :: 0 <= i < j < |s| ==> !Same(s[i], s[j])
  }

  /** Some entry equals `b`. */
  predicate HasSame(s: seq<Block>, b: Block)
  {
    exists i :: 0 <= i < |s| && Same(s[i], b)
  }

  /** `set(blocks)`: one representative, the first one met, of every kind of block. */
  function Dedup(s: seq<Block>): (d: seq<Block>)
    ensures forall i :: 0 <= i < |d| ==> d[i] in s
  {
    if s == [] then []
    else
      var d := Dedup(s[..|s| - 1]);
      if HasSame(d, s[|s| - 1]) then d else d + [s[|s| - 1]]
  }

  /** Place `x` after every entry whose key is not greater (a stable insertion). */
  function InsertByRepr(x: Block, s: seq<Block>): (r: seq<Block>)
    ensures multiset(r) == multiset(s) + multiset{x}
  {
    if s == [] then [x]
    else if StrLt(Key(x), Key(s[0])) then [x] + s
    else
      assert s == [s[0]] + s[1..];
      [s[0]] + InsertByRepr(x, s[1..])
  }

  /** `list.sort(key=lambda x: x.__repr__())`: a stable sort by repr. */
  function SortByRepr(s: seq<Block>): (r: seq<Block>)
    ensures multiset(r) == multiset(s)
  {
    if s == [] then []
    else
      assert s == s[..|s| - 1] + [s[|s| - 1]];
      InsertByRepr(s[|s| - 1], SortByRepr(s[..|s| - 1]))
  }

  /** The blocks of a palette, in palette order. */
  function PaletteBlocks(blocks: seq<Block>): seq<Block>
  {
    SortByRepr(Dedup(blocks))
  }

  lemma {:induction false} DedupNoTwoSame(s: seq<Block>)
    ensures NoTwoSame(Dedup(s))
  {
    if s != [] {
      var d := Dedup(s[..|s| - 1]);
      DedupNoTwoSame(s[..|s| - 1]);
      if !HasSame(d, s[|s| - 1]) {
        var e := d + [s[|s| - 1]];
        forall i, j | 0 <= i < j < |e| ensures !Same(e[i], e[j]) {
          if j == |d| {
            assert !Same(d[i], s[|s| - 1]);
          }
        }
      }
    }
  }

  lemma {:induction false} DedupCovers(s: seq<Block>, i: nat)
    requires i < |s|
    ensures HasSame(Dedup(s), s[i])
  {
    var init := s[..|s| - 1];
    var d := Dedup(init);
    var last := s[|s| - 1];
    if i < |s| - 1 {
      DedupCovers(init, i);
      assert init[i] == s[i];
      var k :| 0 <= k < |d| && Same(d[k], s[i]);
      assert Dedup(s)[k] == d[k];
    } else if HasSame(d, last) {
    } else {
      assert Dedup(s)[|d|] == last;
      assert Same(last, last);
    }
  }

  lemma {:induction false} InsertByReprSorted(x: Block, s: seq<Block>)
    requires SortedByRepr(s)
    ensures SortedByRepr(InsertByRepr(x, s))
  {
    if s == [] {
    } else if StrLt(Key(x), Key(s[0])) {
      var r := [x] + s;
      forall i, j | 0 <= i < j < |r| ensures !StrLt(Key(r[j]), Key(r[i])) {
        if i == 0 {
          if StrLt(Key(r[j]), Key(x)) {
            if j > 1 {
              StrLtTransitive(Key(r[j]), Key(x), Key(s[0]));
              assert false;
            } else {
              StrLtTransitive(Key(x), Key(s[0]), Key(x));
              StrLtIrreflexive(Key(x));
            }
          }
        }
      }
    } else {
      var t := InsertByRepr(x, s[1..]);
      InsertByReprSorted(x, s[1..]);
      var r := [s[0]] + t;
      forall i, j | 0 <= i < j < |r| ensures !StrLt(Key(r[j]), Key(r[i])) {
        if i == 0 {
          var e := r[j];
          assert e in multiset(t);
          assert e in multiset(s[1..]) + multiset{x};
          if e != x {
            assert e in s[1..];
            var q :| 0 <= q < |s[1..]| && s[1..][q] == e;
            assert s[q + 1] == e;
          }
        }
      }
    }
  }

  lemma {:induction false} SortByReprSorted(s: seq<Block>)
    ensures SortedByRepr(SortByRepr(s))
  {
    if s != [] {
      SortByReprSorted(s[..|s| - 1]);
      InsertByReprSorted(s[|s| - 1], SortByRepr(s[..|s| - 1]));
    }
  }

  lemma {:induction false} InsertByReprNoTwoSame(x: Block, s: seq<Block>)
    requires NoTwoSame(s) && !HasSame(s, x)
    ensures NoTwoSame(InsertByRepr(x, s))
  {
    if s == [] {
    } else if StrLt(Key(x), Key(s[0])) {
      var r := [x] + s;
      forall i, j | 0 <= i < j < |r| ensures !Same(r[i], r[j]) {
        if i == 0 {
          assert r[j] == s[j - 1];
        }
      }
    } else {
      var t := InsertByRepr(x, s[1..]);
      assert !HasSame(s[1..], x) by {
        forall q | 0 <= q < |s[1..]| ensures !Same(s[1..][q], x) {
          assert s[1..][q] == s[q + 1];
        }
      }
      assert NoTwoSame(s[1..]) by {
        forall a, b | 0 <= a < b < |s[1..]| ensures !Same(s[1..][a], s[1..][b]) {
          assert s[1..][a] == s[a + 1] && s[1..][b] == s[b + 1];
        }
      }
      InsertByReprNoTwoSame(x, s[1..]);
      var r := [s[0]] + t;
      forall i, j | 0 <= i < j < |r| ensures !Same(r[i], r[j]) {
        if i == 0 {
          var e := r[j];
          assert e in multiset(t);
          assert e in multiset(s[1..]) + multiset{x};
          if e == x {
            assert !Same(s[0], x);
          } else {
            assert e in s[1..];
            var q :| 0 <= q < |s[1..]| && s[1..][q] == e;
            assert s[q + 1] == e;
          }
        }
      }
    }
  }

  lemma {:induction false} SortByReprNoTwoSame(s: seq<Block>)
    requires NoTwoSame(s)
    ensures NoTwoSame(SortByRepr(s))
  {
    if s != [] {
      var init := s[..|s| - 1];
      var last := s[|s| - 1];
      assert NoTwoSame(init) by {
        forall a, b | 0 <= a < b < |init| ensures !Same(init[a], init[b]) {
          assert init[a] == s[a] && init[b] == s[b];
        }
      }
      SortByReprNoTwoSame(init);
      var sorted := SortByRepr(init);
      assert !HasSame(sorted, last) by {
        forall q | 0 <= q < |sorted| ensures !Same(sorted[q], last) {
          assert sorted[q] in multiset(init);
          var p :| 0 <= p < |init| && init[p] == sorted[q];
          assert s[p] == sorted[q];
        }
      }
      InsertByReprNoTwoSame(last, sorted);
    }
  }

  /** The written palette: sorted by repr, no block twice, every block of the
      section equal to some entry, and every entry one of the section's blocks. */
  lemma PaletteProperties(blocks: seq<Block>)
    ensures SortedByRepr(PaletteBlocks(blocks))
    ensures NoTwoSame(PaletteBlocks(blocks))
    ensures forall i :: 0 <= i < |blocks| ==> HasSame(PaletteBlocks(blocks), blocks[i])
    ensures forall j :: 0 <= j < |PaletteBlocks(blocks)| ==> PaletteBlocks(blocks)[j] in blocks
  {
    var d := Dedup(blocks);
    SortByReprSorted(d);
    DedupNoTwoSame(blocks);
    SortByReprNoTwoSame(d);
    PaletteCovers(blocks);
    PaletteFromBlocks(blocks);
  }

  /** Every block of the section equals some palette entry. */
  lemma PaletteCovers(blocks: seq<Block>)
    ensures forall i :: 0 <= i < |blocks| ==> HasSame(PaletteBlocks(blocks), blocks[i])
  {
    var d := Dedup(blocks);
    var p := PaletteBlocks(blocks);
    forall i | 0 <= i < |blocks| ensures HasSame(p, blocks[i]) {
      DedupCovers(blocks, i);
      var k :| 0 <= k < |d| && Same(d[k], blocks[i]);
      assert d[k] in multiset(p);
      var q :| 0 <= q < |p| && p[q] == d[k];
    }
  }

  /** Every palette entry is one of the section's blocks. */
  lemma PaletteFromBlocks(blocks: seq<Block>)
    ensures forall j :: 0 <= j < |PaletteBlocks(blocks)| ==> PaletteBlocks(blocks)[j] in blocks
  {
    var d := Dedup(blocks);
    var p := PaletteBlocks(blocks);
    forall j | 0 <= j < |p| ensures p[j] in blocks {
      assert p[j] in multiset(d);
    }
  }

  /** `palette.index(block)`: the first position holding an equal block;
      `ValueError` when there is none. */
  function IndexOf(palette: seq<Block>, b: Block): (r: Result<nat>)
    ensures r.Ok? <==> HasSame(palette, b)
    ensures r.Ok? ==> r.value < |palette| && Same(palette[r.value], b)
    ensures r.Ok? ==> forall j :: 0 <= j < r.value ==> !Same(palette[j], b)
  {
    if palette == [] then Err(ValueError)
    else if Same(palette[0], b) then Ok(0)
    else
      var r := IndexOf(palette[1..], b);
      assert HasSame(palette, b) ==> HasSame(palette[1..], b) by {
        if HasSame(palette, b) {
          var k :| 0 <= k < |palette| && Same(palette[k], b);
          assert palette[1..][k - 1] == palette[k];
        }
      }
      if r.Err? then Err(ValueError)
      else
        assert palette[1..][r.value] == palette[r.value + 1];
        Ok(r.value + 1)
  }
}
