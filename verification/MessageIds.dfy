/** Message ids of the producer sweep: the producer in the high 24 bits, its sequence number in the low 40. */
module MessageIds {
  import opened Basics

  const TWO_24: nat := 0x100_0000
  const TWO_32: nat := 0x1_0000_0000
  const TWO_40: nat := 0x100_0000_0000

  /** Bitwise or of two naturals. */
  function BitOr(x: nat, y: nat): nat
    decreases x + y
  {
    if x == 0 then y
    else if y == 0 then x
    else (if x % 2 == 1 || y % 2 == 1 then 1 else 0) + 2 * BitOr(x / 2, y / 2)
  }

  /** `(uint64{p} << 40) | i` */
  function PackId(p: nat, i: nat): nat {
    BitOr(p * TWO_40 % TWO_64, i)
  }

  /** `static_cast<unsigned>(id >> 40)` */
  function Sender(id: nat): nat { id / TWO_40 % TWO_32 }

  /** `id & ((1 << 40) - 1)` */
  function SeqNo(id: nat): nat { id % TWO_40 }

  function Pow2(k: nat): (r: nat)
    ensures r > 0
  {
    if k == 0 then 1 else 2 * Pow2(k - 1)
  }

  lemma {:induction false} OrOfDisjoint(k: nat, h: nat, i: nat)
    requires i < Pow2(k)
    ensures BitOr(h * Pow2(k), i) == h * Pow2(k) + i
  {
    if k == 0 {
      assert i == 0 && h * Pow2(0) == h;
    } else if h == 0 {
      assert h * Pow2(k) == 0;
    } else if i == 0 {
    } else {
      var x := h * Pow2(k);
      assert x == 2 * (h * Pow2(k - 1));
      assert x > 0 by { Scale(h, Pow2(k - 1)); }
      OrOfDisjoint(k - 1, h, i / 2);
    }
  }

  lemma Scale(h: nat, m: nat)
    requires h >= 1
    ensures h * m >= m
  {
  }

  lemma Pow2Of40()
    ensures Pow2(40) == TWO_40
  {
    assert Pow2(10) == 1024;
    assert Pow2(20) == 0x10_0000;
    assert Pow2(30) == 0x4000_0000;
  }

  lemma PackedValue(p: nat, i: nat)
    requires p < TWO_24 && i < TWO_40
    ensures PackId(p, i) == p * TWO_40 + i < TWO_64
  {
    Pow2Of40();
    OrOfDisjoint(40, p, i);
  }

  /** Up to 2^24 producers with up to 2^40 messages each, an id decodes to the pair it was made of. */
  lemma RoundTrip(p: nat, i: nat)
    requires p < TWO_24 && i < TWO_40
    ensures Sender(PackId(p, i)) == p && SeqNo(PackId(p, i)) == i
  {
    PackedValue(p, i);
  }

  /** Those bounds are exact: beyond either, some pair is confused with another. */
  lemma RoundTripIff(producers: nat, per: nat)
    requires producers > 0 && per > 0
    ensures (forall p, i :: 0 <= p < producers && 0 <= i < per ==> Sender(PackId(p, i)) == p && SeqNo(PackId(p, i)) == i)
       <==> producers <= TWO_24 && per <= TWO_40
  {
    if producers <= TWO_24 && per <= TWO_40 {
      forall p, i | 0 <= p < producers && 0 <= i < per
        ensures Sender(PackId(p, i)) == p && SeqNo(PackId(p, i)) == i
      {
        RoundTrip(p, i);
      }
    } else if producers > TWO_24 {
      assert PackId(TWO_24, 0) == 0;
      assert Sender(PackId(TWO_24, 0)) != TWO_24;
    } else {
      assert PackId(0, TWO_40) == TWO_40;
      assert SeqNo(PackId(0, TWO_40)) != TWO_40;
    }
  }
}
