/**
 * The circular-buffer configuration vector of a Tensix core: one
 * fixed-size slot of 32-bit words per circular buffer, holding the
 * buffer's address and size in 16-byte units, its page count and its page
 * size in 16-byte units.
 */
module CircularBuffers {

  const NUM_CIRCULAR_BUFFERS: nat := 32
  const WORDS_PER_CONFIG: nat := 4
  const TWO_32: nat := 0x1_0000_0000

  /** A `uint32_t`. */
  type Word = x: nat | x < TWO_32

  /** The four words of one slot, in slot order. */
  datatype SlotConfig = SlotConfig(addrWords: Word, sizeWords: Word, numPages: Word, pageSizeWords: Word)

  /**
   * The state of the vector after a sequence of `vector::at` stores;
   * `thrown` records that one of them raised `std::out_of_range`, after
   * which no further store runs.
   */
  datatype Outcome = Outcome(vec: seq<Word>, thrown: bool)

  /** `create_circular_buffer_config_vector`. */
  function CreateConfigVector(): (v: seq<Word>)
    ensures |v| == NUM_CIRCULAR_BUFFERS * WORDS_PER_CONFIG
    ensures forall i | 0 <= i < |v| :: v[i] == 0
  {
    seq(NUM_CIRCULAR_BUFFERS * WORDS_PER_CONFIG, _ => 0)
  }

  /** The words the source stores for one buffer. */
  function ConfigWords(addr: Word, size: Word, numPages: Word): (c: SlotConfig)
    requires numPages > 0
    ensures c.addrWords * 16 <= addr < c.addrWords * 16 + 16
    ensures c.sizeWords * 16 <= size < c.sizeWords * 16 + 16
    ensures c.numPages == numPages
    ensures c.pageSizeWords * 16 * numPages <= size
    ensures size < (c.pageSizeWords + 1) * 16 * numPages
  {
    var pageSize := size / numPages;
    PageSizeFloor(size, numPages);
    SlotConfig(addr / 16, size / 16, numPages, pageSize / 16)
  }

  lemma PageSizeFloor(size: nat, n: nat)
    requires n > 0
    ensures (size / n) / 16 * 16 * n <= size < ((size / n) / 16 + 1) * 16 * n
  {
    var p := size / n;
    var q := p / 16;
    assert p * n <= size < p * n + n by {
      assert size == p * n + size % n;
    }
    assert q * 16 <= p < q * 16 + 16;
    MulMono(q * 16, p, n);
    MulMono(p + 1, (q + 1) * 16, n);
    assert (p + 1) * n == p * n + n;
  }

  lemma MulMono(a: int, b: int, c: nat)
    requires a <= b
    ensures a * c <= b * c
  {
    assert b * c - a * c == (b - a) * c;
  }

  /** Index `k` of slot `index`, computed in `uint32_t` as the source does. */
  function SlotIndex(index: Word, k: nat): (r: Word)
    requires k < WORDS_PER_CONFIG
    ensures r == (WORDS_PER_CONFIG * index) % TWO_32 + k
  {
    ((WORDS_PER_CONFIG * index) % TWO_32 + k) % TWO_32
  }

  lemma SlotIndexNoWrap(index: Word)
    requires WORDS_PER_CONFIG * index < TWO_32
    ensures forall k | 0 <= k < WORDS_PER_CONFIG :: SlotIndex(index, k) == WORDS_PER_CONFIG * index + k
  {
  }

  /** `vec.at(i) = w`. */
  function Store(o: Outcome, i: nat, w: Word): (r: Outcome)
    ensures |r.vec| == |o.vec|
  {
    if o.thrown then o
    else if i < |o.vec| then Outcome(o.vec[i := w], false)
    else Outcome(o.vec, true)
  }

  /** The four words starting at `base`. */
  function ReadSlot(vec: seq<Word>, base: nat): SlotConfig
    requires base + 3 < |vec|
  {
    SlotConfig(vec[base], vec[base + 1], vec[base + 2], vec[base + 3])
  }

  /** The store sequence shared by the as-written and corrected versions. */
  function StoreSlot(v: seq<Word>, i0: nat, i1: nat, i2: nat, i3: nat, c: SlotConfig): (r: Outcome)
    requires i1 == i0 + 1 && i2 == i0 + 2 && i3 == i0 + 3
    ensures |r.vec| == |v|
    ensures !r.thrown <==> i3 < |v|
    ensures !r.thrown ==> ReadSlot(r.vec, i0) == c
    ensures !r.thrown ==> forall j | 0 <= j < |v| && (j < i0 || i3 < j) :: r.vec[j] == v[j]
    ensures r.thrown && i0 < |v| ==> forall j | 0 <= j < |v| && j < i0 :: r.vec[j] == v[j]
    ensures r.thrown && i0 >= |v| ==> r.vec == v
  {
    Store(Store(Store(Store(Outcome(v, false), i0, c.addrWords), i1, c.sizeWords), i2, c.numPages), i3, c.pageSizeWords)
  }

  /**
   * `set_config_for_circular_buffer`, as written: every slot index is
   * `uint32_t` arithmetic, so an `index` of 2^30 or more wraps around.
   */
  function SetConfig(v: seq<Word>, index: Word, addr: Word, size: Word, numPages: Word): (r: Outcome)
    requires numPages > 0
    ensures |r.vec| == |v|
    ensures var base := SlotIndex(index, 0);
            && (!r.thrown <==> base + 3 < |v|)
            && (!r.thrown ==> ReadSlot(r.vec, base) == ConfigWords(addr, size, numPages))
            && (!r.thrown ==> forall j | 0 <= j < |v| && (j < base || base + 3 < j) :: r.vec[j] == v[j])
  {
    StoreSlot(v, SlotIndex(index, 0), SlotIndex(index, 1), SlotIndex(index, 2), SlotIndex(index, 3),
              ConfigWords(addr, size, numPages))
  }

  /**
   * On a vector made of whole slots a store that throws has written
   * nothing: all four indices of a slot are in range or none is.
   */
  lemma ThrowLeavesVectorUnchanged(v: seq<Word>, index: Word, addr: Word, size: Word, numPages: Word)
    requires numPages > 0 && |v| % WORDS_PER_CONFIG == 0
    ensures SetConfig(v, index, addr, size, numPages).thrown ==> SetConfig(v, index, addr, size, numPages).vec == v
  {
    var base := SlotIndex(index, 0);
    assert base % WORDS_PER_CONFIG == 0;
    if base < |v| {
      assert base + 3 < |v|;
    }
  }

  /** Configuring two different buffers of a fresh vector in either order gives the same vector. */
  lemma ConfigsCommute(v: seq<Word>, i: Word, j: Word, ai: Word, si: Word, ni: Word, aj: Word, sj: Word, nj: Word)
    requires |v| == NUM_CIRCULAR_BUFFERS * WORDS_PER_CONFIG
    requires i < NUM_CIRCULAR_BUFFERS && j < NUM_CIRCULAR_BUFFERS && i != j
    requires ni > 0 && nj > 0
    ensures !SetConfig(v, i, ai, si, ni).thrown && !SetConfig(v, j, aj, sj, nj).thrown
    ensures SetConfig(SetConfig(v, i, ai, si, ni).vec, j, aj, sj, nj)
         == SetConfig(SetConfig(v, j, aj, sj, nj).vec, i, ai, si, ni)
  {
    SlotIndexNoWrap(i);
    SlotIndexNoWrap(j);
    var a := SetConfig(SetConfig(v, i, ai, si, ni).vec, j, aj, sj, nj).vec;
    var b := SetConfig(SetConfig(v, j, aj, sj, nj).vec, i, ai, si, ni).vec;
    forall x | 0 <= x < |v|
      ensures a[x] == b[x]
    {
      SecondStore(v, i, ai, si, ni, j, aj, sj, nj, x);
      SecondStore(v, j, aj, sj, nj, i, ai, si, ni, x);
    }
  }

  /** The word at `x` after configuring buffer `i`, then buffer `j`. */
  lemma SecondStore(v: seq<Word>, i: Word, ai: Word, si: Word, ni: Word, j: Word, aj: Word, sj: Word, nj: Word, x: nat)
    requires |v| == NUM_CIRCULAR_BUFFERS * WORDS_PER_CONFIG
    requires i < NUM_CIRCULAR_BUFFERS && j < NUM_CIRCULAR_BUFFERS && i != j
    requires ni > 0 && nj > 0 && x < |v|
    ensures var vi := SetConfig(v, i, ai, si, ni);
            var a := SetConfig(vi.vec, j, aj, sj, nj);
            && !vi.thrown && !a.thrown
            && a.vec[x] == if 4 * i <= x < 4 * i + 4 then SlotWords(ConfigWords(ai, si, ni))[x - 4 * i]
                           else if 4 * j <= x < 4 * j + 4 then SlotWords(ConfigWords(aj, sj, nj))[x - 4 * j]
                           else v[x]
  {
    SlotIndexNoWrap(i);
    SlotIndexNoWrap(j);
    var vi := SetConfig(v, i, ai, si, ni).vec;
    var a := SetConfig(vi, j, aj, sj, nj).vec;
    if 4 * j <= x < 4 * j + 4 {
      SlotWord(a, 4 * j, x, ConfigWords(aj, sj, nj));
    } else if 4 * i <= x < 4 * i + 4 {
      assert a[x] == vi[x];
      SlotWord(vi, 4 * i, x, ConfigWords(ai, si, ni));
    }
  }

  function SlotWords(c: SlotConfig): seq<Word> {
    [c.addrWords, c.sizeWords, c.numPages, c.pageSizeWords]
  }

  lemma SlotWord(vec: seq<Word>, base: nat, x: nat, c: SlotConfig)
    requires base <= x <= base + 3 < |vec| && ReadSlot(vec, base) == c
    ensures vec[x] == SlotWords(c)[x - base]
  {
  }

  /** The buffer indices `index` and `index + 2^30` name the same slot. */
  lemma IndexWrapAliases(v: seq<Word>, index: Word, addr: Word, size: Word, numPages: Word)
    requires numPages > 0 && index + 0x4000_0000 < TWO_32
    ensures SetConfig(v, index + 0x4000_0000, addr, size, numPages) == SetConfig(v, index, addr, size, numPages)
  {
    var j: Word := index + 0x4000_0000;
    assert WORDS_PER_CONFIG * j == WORDS_PER_CONFIG * index + TWO_32;
    ModPeriod(WORDS_PER_CONFIG * index);
    assert SlotIndex(j, 0) == SlotIndex(index, 0);
    assert SlotIndex(j, 1) == SlotIndex(index, 1);
    assert SlotIndex(j, 2) == SlotIndex(index, 2);
    assert SlotIndex(j, 3) == SlotIndex(index, 3);
  }

  lemma ModPeriod(a: nat)
    ensures (a + TWO_32) % TWO_32 == a % TWO_32
  {
    var q := a / TWO_32;
    var r := a % TWO_32;
    assert a == q * TWO_32 + r;
    assert a + TWO_32 == (q + 1) * TWO_32 + r;
  }

  /**
   * Buffer 2^30 of a fresh vector: no `std::out_of_range` is raised and the
   * configuration of buffer 0 is overwritten.
   */
  lemma WrappedIndexOverwritesSlotZero()
    ensures var r := SetConfig(CreateConfigVector(), 0x4000_0000, 0x1000, 0x800, 2);
            && !r.thrown
            && ReadSlot(r.vec, 0) == SlotConfig(0x100, 0x80, 2, 0x40)
  {
    var v := CreateConfigVector();
    assert SlotIndex(0x4000_0000, 0) == 0;
    var r := SetConfig(v, 0x4000_0000, 0x1000, 0x800, 2);
    assert ReadSlot(r.vec, 0) == ConfigWords(0x1000, 0x800, 2);
  }

  /**
   * `set_config_for_circular_buffer` with the slot index computed without
   * wrap-around, so that `vector::at` rejects every buffer past the end.
   */
  function SetConfigChecked(v: seq<Word>, index: Word, addr: Word, size: Word, numPages: Word): (r: Outcome)
    requires numPages > 0
    ensures |r.vec| == |v|
    ensures var base := WORDS_PER_CONFIG * index;
            && (!r.thrown <==> base + 3 < |v|)
            && (!r.thrown ==> ReadSlot(r.vec, base) == ConfigWords(addr, size, numPages))
            && (!r.thrown ==> forall j | 0 <= j < |v| && (j < base || base + 3 < j) :: r.vec[j] == v[j])
  {
    var base := WORDS_PER_CONFIG * index;
    StoreSlot(v, base, base + 1, base + 2, base + 3, ConfigWords(addr, size, numPages))
  }

  /** On a fresh vector the corrected version accepts exactly the existing buffers. */
  lemma CheckedAcceptsExactlyBuffers(index: Word, addr: Word, size: Word, numPages: Word)
    requires numPages > 0
    ensures !SetConfigChecked(CreateConfigVector(), index, addr, size, numPages).thrown
            <==> index < NUM_CIRCULAR_BUFFERS
  {
  }

  /** Below the wrap-around the two versions agree. */
  lemma CheckedAgreesBelowWrap(v: seq<Word>, index: Word, addr: Word, size: Word, numPages: Word)
    requires numPages > 0 && WORDS_PER_CONFIG * index < TWO_32
    ensures SetConfigChecked(v, index, addr, size, numPages) == SetConfig(v, index, addr, size, numPages)
  {
    SlotIndexNoWrap(index);
  }
}
