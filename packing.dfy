/** The bit-packed palette index storage of a 16x16x16 section
    (pyblock/section.py): every block is stored as a `bits`-wide palette index;
    indices are laid down from the low end of 64-bit words, as many whole
    indices per word as fit, and no index straddles two words. */
module Packing {
  import opened Common

  const WORD_BITS: nat := 64
  const MIN_BITS: nat := 4
  const SECTION_VOLUME: nat := 4096

  /** `max((palette_len - 1).bit_length(), 4)`. */
  function Bits(paletteLen: nat): (r: nat)
    ensures r >= MIN_BITS
    ensures paletteLen <= Pow2(r)
    ensures paletteLen <= Pow2(WORD_BITS) ==> r <= WORD_BITS
    ensures paletteLen <= 16 ==> r == MIN_BITS
    ensures paletteLen > 16 ==> r == BitLength(paletteLen - 1)
  {
    BitsBounds(paletteLen);
    Max(BitLength(paletteLen - 1), MIN_BITS)
  }

  lemma BitsBounds(paletteLen: nat)
    ensures paletteLen <= Pow2(Max(BitLength(paletteLen - 1), MIN_BITS))
    ensures paletteLen <= Pow2(WORD_BITS) ==> Max(BitLength(paletteLen - 1), MIN_BITS) <= WORD_BITS
    ensures paletteLen <= 16 ==> Max(BitLength(paletteLen - 1), MIN_BITS) == MIN_BITS
  {
    BitsCover(paletteLen);
    BitsFitWord(paletteLen);
    BitsSmall(paletteLen);
  }

  lemma BitsFitWord(paletteLen: nat)
    ensures paletteLen <= Pow2(WORD_BITS) ==> Max(BitLength(paletteLen - 1), MIN_BITS) <= WORD_BITS
  {
    if paletteLen <= Pow2(WORD_BITS) && paletteLen > 0 {
      BitLengthAtMost(paletteLen - 1, WORD_BITS);
    }
  }

  lemma BitsSmall(paletteLen: nat)
    ensures paletteLen <= 16 ==> Max(BitLength(paletteLen - 1), MIN_BITS) == MIN_BITS
  {
    if paletteLen <= 16 && paletteLen > 0 {
      SmallBitLength(paletteLen - 1);
    }
  }

  lemma BitsCover(paletteLen: nat)
    ensures paletteLen <= Pow2(Max(BitLength(paletteLen - 1), MIN_BITS))
  {
    var b := BitLength(paletteLen - 1);
    Pow2Monotone(b, Max(b, MIN_BITS));
  }

  lemma SmallBitLength(n: nat)
    requires n < 16
    ensures BitLength(n) <= MIN_BITS
  {
    assert Pow2(MIN_BITS) == 16;
    BitLengthAtMost(n, MIN_BITS);
  }

  lemma BitLengthAtMost(n: nat, k: nat)
    requires n < Pow2(k)
    ensures BitLength(n) <= k
  {
    if n > 0 {
      Pow2Order(BitLength(n) - 1, k);
    }
  }

  /** How many whole indices of width `bits` fit in one 64-bit word. */
  function PerWord(bits: nat): (k: nat)
    requires MIN_BITS <= bits <= WORD_BITS
    ensures 1 <= k <= 16
  {
    WORD_BITS / bits
  }

  /** The indices of a word fill it as far as a whole index still fits. */
  lemma PerWordBounds(bits: nat)
    requires MIN_BITS <= bits <= WORD_BITS
    ensures bits * PerWord(bits) <= WORD_BITS < bits * (PerWord(bits) + 1)
  {
    var k := PerWord(bits);
    assert WORD_BITS == bits * k + WORD_BITS % bits;
  }

  /** Word capacity decides the refill/flush test of both loops: with c
      indices already in a word, another fits exactly when c < PerWord. */
  lemma RoomInWord(bits: nat, c: nat)
    requires MIN_BITS <= bits <= WORD_BITS && c <= PerWord(bits)
    ensures c < PerWord(bits) <==> bits * c + bits <= WORD_BITS
  {
    var k := PerWord(bits);
    PerWordBounds(bits);
    if c < k {
      assert bits * (c + 1) <= bits * k;
    }
    assert bits * c + bits == bits * (c + 1);
  }

  /** A sequence of `bits`-wide fields, the first in the lowest bits: field
      i is shifted left by `bits * i`. */
  function FieldsValue(s: seq<nat>, bits: nat): nat
  {
    if s == [] then 0
    else FieldsValue(s[..|s| - 1], bits) + Shl(s[|s| - 1], Times(bits, |s| - 1))
  }

  predicate Fits(s: seq<nat>, bits: nat)
  {
    forall i :: 0 <= i < |s| ==> s[i] < Pow2(bits)
  }

  lemma {:induction false} FieldsValueBound(s: seq<nat>, bits: nat)
    requires Fits(s, bits)
    ensures FieldsValue(s, bits) < Pow2(Times(bits, |s|))
  {
    if s != [] {
      var init := s[..|s| - 1];
      FieldsValueBound(init, bits);
      FieldStepBound(FieldsValue(init, bits), s[|s| - 1], bits, Times(bits, |init|));
    }
  }

  /** Appending a field puts it above the fields already there. */
  lemma FieldsValueAppend(s: seq<nat>, x: nat, bits: nat)
    ensures FieldsValue(s + [x], bits) == FieldsValue(s, bits) + Shl(x, Times(bits, |s|))
  {
    assert (s + [x])[..|s|] == s;
  }

  /** One more field above `used` bits keeps the value below 2^(used + bits). */
  lemma FieldStepBound(v: nat, x: nat, bits: nat, used: nat)
    requires v < Pow2(used) && x < Pow2(bits)
    ensures v + Shl(x, used) < Pow2(used + bits)
  {
    ShlIsMul(x, used);
    Pow2Add(used, bits);
    TopFieldBound(v, x, Pow2(used), Pow2(bits));
  }

  /** A field below m placed above a value below p stays below m * p. */
  lemma TopFieldBound(v: nat, x: nat, p: nat, m: nat)
    requires v < p && x < m
    ensures v + x * p < p * m
  {
    MulMonotone(x, m - 1, p);
    assert (m - 1) * p == m * p - p;
  }

  /** Field j of the packed value is `s[j]`: shifting right by `bits * j` and
      masking with `2^bits - 1` extracts it. */
  lemma FieldsValueField(s: seq<nat>, bits: nat, j: nat)
    requires Fits(s, bits) && j < |s|
    ensures Low(Shr(FieldsValue(s, bits), Times(bits, j)), bits) == s[j]
  {
    ShrIsDiv(FieldsValue(s, bits), Times(bits, j));
    LowIsMod(FieldsValue(s, bits) / Pow2(Times(bits, j)), bits);
    FieldsValueDivMod(s, bits, j);
  }

  /** Field j by division and remainder. */
  lemma {:induction false} FieldsValueDivMod(s: seq<nat>, bits: nat, j: nat)
    requires Fits(s, bits) && j < |s|
    ensures (FieldsValue(s, bits) / Pow2(Times(bits, j))) % Pow2(bits) == s[j]
  {
    var init := s[..|s| - 1];
    var v, x := FieldsValue(init, bits), s[|s| - 1];
    var d, w, p := Pow2(Times(bits, j)), Pow2(bits), Pow2(Times(bits, |init|));
    assert FieldsValue(s, bits) == v + x * p by {
      ShlIsMul(x, Times(bits, |init|));
    }
    SliceFits(s, bits, 0, |s| - 1);
    if j == |s| - 1 {
      FieldsValueBound(init, bits);
      TopField(v, x, d, w);
    } else {
      var q := Pow2(Times(bits, |init| - j - 1));
      assert p == d * (w * q) by {
        ShiftSplit(bits, j, |init|);
      }
      LowerField(v, x, d, w, q, p);
      FieldsValueDivMod(init, bits, j);
      assert init[j] == s[j];
    }
  }

  lemma TopField(v: nat, x: nat, d: nat, m: nat)
    requires v < d && x < m
    ensures ((v + x * d) / d) % m == x
  {
    DivModUnique(v + x * d, d, x, v);
    DivModUnique(x, m, 0, x);
  }

  lemma LowerField(v: nat, x: nat, d: nat, m: nat, q: nat, p: nat)
    requires d > 0 && m > 0 && p == d * (m * q)
    ensures ((v + x * p) / d) % m == (v / d) % m
  {
    var k := x * (m * q);
    assert x * p == k * d;
    DivModAddMultiple(v, k, d);
    assert k == (x * q) * m;
    DivModAddMultiple(v / d, x * q, m);
  }

  /** Below field m: the fields under j, field j, and the fields between. */
  lemma ShiftSplit(bits: nat, j: nat, m: nat)
    requires j < m
    ensures Pow2(Times(bits, m)) == Pow2(Times(bits, j)) * (Pow2(bits) * Pow2(Times(bits, m - j - 1)))
  {
    var e := m - j - 1;
    TimesSplit(bits, j, m);
    assert Times(bits, m - j) == Times(bits, e) + bits;
    Pow2Add(Times(bits, j), bits + Times(bits, e));
    Pow2Add(bits, Times(bits, e));
  }

  /** `bits`-wide indices packed into words, `PerWord(bits)` to a word; the
      last word holds the remaining one to `PerWord(bits)` indices, and an
      empty index sequence gives the single word 0. */
  function PackWords(idx: seq<nat>, bits: nat): (w: seq<nat>)
    requires MIN_BITS <= bits <= WORD_BITS
    ensures |w| >= 1
    decreases |idx|
  {
    var k := PerWord(bits);
    if |idx| <= k then [FieldsValue(idx, bits)]
    else [FieldsValue(idx[..k], bits)] + PackWords(idx[k..], bits)
  }

  /** Word number j of a packing: the indices `j*K .. min(j*K + K, n)`,
      taken K at a time from the front as `PackWords` does. */
  function Chunk(idx: seq<nat>, bits: nat, j: nat): (c: seq<nat>)
    requires MIN_BITS <= bits <= WORD_BITS
    ensures |c| <= PerWord(bits)
    decreases j
  {
    var k := PerWord(bits);
    if |idx| <= k then (if j == 0 then idx else [])
    else if j == 0 then idx[..k]
    else Chunk(idx[k..], bits, j - 1)
  }

  /** The number of words `PackWords` produces. */
  function WordCount(n: nat, bits: nat): (c: nat)
    requires MIN_BITS <= bits <= WORD_BITS
    ensures c >= 1
  {
    if n == 0 then 1 else CeilDiv(n, PerWord(bits))
  }

  /** `PackWords` word by word: it has `WordCount` words and word j packs chunk j. */
  lemma {:induction false} PackWordsChunks(idx: seq<nat>, bits: nat)
    requires MIN_BITS <= bits <= WORD_BITS
    ensures |PackWords(idx, bits)| == WordCount(|idx|, bits)
    ensures forall j :: 0 <= j < |PackWords(idx, bits)| ==>
              PackWords(idx, bits)[j] == FieldsValue(Chunk(idx, bits, j), bits)
    decreases |idx|
  {
    var k := PerWord(bits);
    var w := PackWords(idx, bits);
    if |idx| <= k {
      if |idx| > 0 {
        DivModUnique(|idx| + k - 1, k, 1, |idx| - 1);
      }
    } else {
      var rest := idx[k..];
      var wr := PackWords(rest, bits);
      PackWordsChunks(rest, bits);
      assert w == [FieldsValue(idx[..k], bits)] + wr;
      WordCountStep(|idx|, bits);
      forall j | 1 <= j < |w|
        ensures w[j] == FieldsValue(Chunk(idx, bits, j), bits)
      {
        assert w[j] == wr[j - 1];
      }
    }
  }

  /** Word j of a packing, on its own. */
  lemma PackWordsWord(idx: seq<nat>, bits: nat, j: nat)
    requires MIN_BITS <= bits <= WORD_BITS && j < WordCount(|idx|, bits)
    ensures j < |PackWords(idx, bits)|
    ensures PackWords(idx, bits)[j] == FieldsValue(Chunk(idx, bits, j), bits)
  {
    PackWordsChunks(idx, bits);
  }

  lemma PackWordsLength(idx: seq<nat>, bits: nat)
    requires MIN_BITS <= bits <= WORD_BITS
    ensures |PackWords(idx, bits)| == WordCount(|idx|, bits)
  {
    PackWordsChunks(idx, bits);
  }

  lemma WordCountStep(n: nat, bits: nat)
    requires MIN_BITS <= bits <= WORD_BITS && n > PerWord(bits)
    ensures WordCount(n, bits) == WordCount(n - PerWord(bits), bits) + 1
  {
    var k := PerWord(bits);
    DivModAddMultiple(n - k + k - 1, 1, k);
  }

  /** The index at position i: word i / K shifted right past the i % K
      indices below it, masked to `bits` bits. */
  function IndexAt(words: seq<nat>, bits: nat, i: nat): nat
    requires MIN_BITS <= bits <= WORD_BITS && i / PerWord(bits) < |words|
  {
    var k := PerWord(bits);
    Low(Shr(words[i / k], Times(bits, i % k)), bits)
  }

  /** Unpacking what was packed gives every index back, and the packing has
      exactly the words unpacking reads. */
  lemma PackRoundTrip(idx: seq<nat>, bits: nat, i: nat)
    requires MIN_BITS <= bits <= WORD_BITS && Fits(idx, bits) && i < |idx|
    ensures i / PerWord(bits) < |PackWords(idx, bits)|
    ensures IndexAt(PackWords(idx, bits), bits, i) == idx[i]
  {
    var k := PerWord(bits);
    var j, c := i / k, i % k;
    WordOfIndex(|idx|, bits, i);
    PackWordsWord(idx, bits, j);
    var ch := Chunk(idx, bits, j);
    ChunkElement(idx, bits, i);
    ChunkFits(idx, bits, j);
    FieldsValueField(ch, bits, c);
  }

  /** Index i < n lies in word i / K, one of the `WordCount(n)` words. */
  lemma WordOfIndex(n: nat, bits: nat, i: nat)
    requires MIN_BITS <= bits <= WORD_BITS && i < n
    ensures i / PerWord(bits) < WordCount(n, bits)
  {
    var k := PerWord(bits);
    var j, c := i / k, i % k;
    assert i == j * k + c;
    var w := (n + k - 1) / k;
    assert n + k - 1 == w * k + (n + k - 1) % k;
    if j >= w {
      MulMonotone(w, j, k);
    }
  }

  lemma {:induction false} ChunkFits(idx: seq<nat>, bits: nat, j: nat)
    requires MIN_BITS <= bits <= WORD_BITS && Fits(idx, bits)
    ensures Fits(Chunk(idx, bits, j), bits)
    decreases j
  {
    var k := PerWord(bits);
    if |idx| > k {
      if j == 0 {
        SliceFits(idx, bits, 0, k);
      } else {
        SliceFits(idx, bits, k, |idx|);
        ChunkFits(idx[k..], bits, j - 1);
      }
    }
  }

  lemma SliceFits(s: seq<nat>, bits: nat, lo: nat, hi: nat)
    requires lo <= hi <= |s| && Fits(s, bits)
    ensures Fits(s[lo..hi], bits)
  {
    assert forall t :: 0 <= t < hi - lo ==> s[lo..hi][t] == s[lo + t];
  }

  /** Index i is element i % K of chunk i / K. */
  lemma {:induction false} ChunkElement(idx: seq<nat>, bits: nat, i: nat)
    requires MIN_BITS <= bits <= WORD_BITS && i < |idx|
    ensures i % PerWord(bits) < |Chunk(idx, bits, i / PerWord(bits))|
    ensures Chunk(idx, bits, i / PerWord(bits))[i % PerWord(bits)] == idx[i]
    decreases i
  {
    var k := PerWord(bits);
    if i < k {
      DivModUnique(i, k, 0, i);
    } else {
      DivModAddMultiple(i - k, 1, k);
      ChunkElement(idx[k..], bits, i - k);
    }
  }

  /** Any word sequence that agrees chunk by chunk is the packing. */
  lemma PackWordsUnique(idx: seq<nat>, bits: nat, w: seq<nat>)
    requires MIN_BITS <= bits <= WORD_BITS
    requires |w| == WordCount(|idx|, bits)
    requires forall j :: 0 <= j < |w| ==> w[j] == FieldsValue(Chunk(idx, bits, j), bits)
    ensures w == PackWords(idx, bits)
  {
    PackWordsChunks(idx, bits);
  }

  /** Every word fits an unsigned 64-bit integer. */
  lemma PackWordsFit(idx: seq<nat>, bits: nat, j: nat)
    requires MIN_BITS <= bits <= WORD_BITS && Fits(idx, bits) && j < |PackWords(idx, bits)|
    ensures PackWords(idx, bits)[j] < Pow2(WORD_BITS)
  {
    PackWordsLength(idx, bits);
    PackWordsWord(idx, bits, j);
    ChunkFits(idx, bits, j);
    ChunkValueFits(Chunk(idx, bits, j), bits);
  }

  /** A chunk of at most `PerWord(bits)` fitting indices packs below 2^64. */
  lemma ChunkValueFits(ch: seq<nat>, bits: nat)
    requires MIN_BITS <= bits <= WORD_BITS && |ch| <= PerWord(bits) && Fits(ch, bits)
    ensures FieldsValue(ch, bits) < Pow2(WORD_BITS)
  {
    FieldsValueBound(ch, bits);
    assert Times(bits, |ch|) <= WORD_BITS by {
      TimesIsProduct(bits, |ch|);
      PerWordBounds(bits);
      MulMonotone(|ch|, PerWord(bits), bits);
    }
    Pow2Monotone(Times(bits, |ch|), WORD_BITS);
  }

  /** 4096 four-bit indices take 256 words; a 17-entry palette needs five bits,
      twelve indices to a word and 342 words. */
  lemma SectionWordCounts()
    ensures Bits(16) == 4 && PerWord(4) == 16 && WordCount(SECTION_VOLUME, 4) == 256
    ensures Bits(17) == 5 && PerWord(5) == 12 && WordCount(SECTION_VOLUME, 5) == 342
    ensures Bits(2) == 4 && Bits(33) == 6 && PerWord(6) == 10
  {
    assert BitLength(16) == 5;
    assert BitLength(32) == 6;
  }
}
