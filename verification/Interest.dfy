// The interest mask: which field groups some view wants from a call site, its bit
// form, and the word that pairs it with the generation it was computed for.

module Interest {
  import opened Facade

  datatype Interest = Interest(
    coreSupport: bool,
    coreLocal: bool,
    coreSecret: bool,
    detailSupport: bool,
    detailLocal: bool,
    detailSecret: bool,
    contextual: bool)
  {
    predicate Any() {
      this != NOTHING
    }

    function Union(other: Interest): Interest {
      Interest(coreSupport || other.coreSupport, coreLocal || other.coreLocal, coreSecret || other.coreSecret,
               detailSupport || other.detailSupport, detailLocal || other.detailLocal,
               detailSecret || other.detailSecret, contextual || other.contextual)
    }

    function WithoutContextual(): (i: Interest)
      ensures !i.contextual && forall privacy, detail :: i.Wants(privacy, detail) <==> Wants(privacy, detail)
    {
      this.(contextual := false)
    }

    predicate Wants(privacy: Privacy, detail: Detail) {
      match (detail, privacy)
      case (Core, SupportSafe) => coreSupport
      case (Core, LocalOnly) => coreLocal
      case (Core, Secret) => coreSecret
      case (Deferred, SupportSafe) => detailSupport
      case (Deferred, LocalOnly) => detailLocal
      case (Deferred, Secret) => detailSecret
    }

    function Bits(): nat {
      Shift(coreSupport, Shift(coreLocal, Shift(coreSecret,
        Shift(detailSupport, Shift(detailLocal, Shift(detailSecret, Shift(contextual, 0)))))))
    }
  }

  const NOTHING := Interest(false, false, false, false, false, false, false)
  const ONLY_CONTEXTUAL := Interest(false, false, false, false, false, false, true)

  const INTEREST_WIDTH: nat := 7
  const INTEREST_SPAN: nat := 128

  // `rest` shifted left by one, with `b` in the free place.
  function Shift(b: bool, rest: nat): nat {
    2 * rest + (if b then 1 else 0)
  }

  lemma ShiftUndone(b: bool, rest: nat)
    ensures Shift(b, rest) / 2 == rest && (Shift(b, rest) % 2 == 1 <==> b)
  {
  }

  function Decode(bits: nat): Interest {
    var b1 := bits / 2;
    var b2 := b1 / 2;
    var b3 := b2 / 2;
    var b4 := b3 / 2;
    var b5 := b4 / 2;
    var b6 := b5 / 2;
    Interest(bits % 2 == 1, b1 % 2 == 1, b2 % 2 == 1, b3 % 2 == 1, b4 % 2 == 1, b5 % 2 == 1, b6 % 2 == 1)
  }

  // Bits this version does not define are discarded.
  function FromBits(bits: nat): Interest {
    Decode(bits % INTEREST_SPAN)
  }

  lemma DecodeUndoes(i: Interest)
    ensures Decode(i.Bits()) == i
  {
    var b6 := Shift(i.contextual, 0);
    var b5 := Shift(i.detailSecret, b6);
    var b4 := Shift(i.detailLocal, b5);
    var b3 := Shift(i.detailSupport, b4);
    var b2 := Shift(i.coreSecret, b3);
    var b1 := Shift(i.coreLocal, b2);
    ShiftUndone(i.contextual, 0);
    ShiftUndone(i.detailSecret, b6);
    ShiftUndone(i.detailLocal, b5);
    ShiftUndone(i.detailSupport, b4);
    ShiftUndone(i.coreSecret, b3);
    ShiftUndone(i.coreLocal, b2);
    ShiftUndone(i.coreSupport, b1);
  }

  function Weight(b: bool, place: nat): nat {
    if b then place else 0
  }

  // Each group has its own bit, the lowest first.
  lemma BitsHavePlaces(i: Interest)
    ensures i.Bits() == Weight(i.coreSupport, 1) + Weight(i.coreLocal, 2) + Weight(i.coreSecret, 4)
      + Weight(i.detailSupport, 8) + Weight(i.detailLocal, 16) + Weight(i.detailSecret, 32) + Weight(i.contextual, 64)
  {
  }

  lemma LowPart(high: nat, low: nat)
    requires low < INTEREST_SPAN
    ensures (INTEREST_SPAN * high + low) % INTEREST_SPAN == low
  {
  }

  // The mask survives its bit form, whatever sits above it in the word.
  lemma BitsRoundTrip(high: nat, i: Interest)
    ensures i.Bits() < INTEREST_SPAN
    ensures FromBits(INTEREST_SPAN * high + i.Bits()) == i
  {
    DecodeUndoes(i);
    LowPart(high, i.Bits());
  }

  // A union wants a field exactly when one of its parts does.
  lemma UnionWants(a: Interest, b: Interest, privacy: Privacy, detail: Detail)
    ensures a.Union(b).Wants(privacy, detail) <==> a.Wants(privacy, detail) || b.Wants(privacy, detail)
  {
  }

  // ---- the tagged cache word of a machine with `width`-bit words ----

  function Pow2(n: nat): (p: nat)
    ensures p > 0
  {
    if n == 0 then 1 else 2 * Pow2(n - 1)
  }

  // What is left for the generation above the mask.
  function TagSpan(width: nat): (p: nat)
    requires width >= INTEREST_WIDTH
    ensures p > 0
  {
    Pow2(width - INTEREST_WIDTH)
  }

  // `(generation << 7) | bits` in a word of `width` bits; the mask's bits are below
  // the shifted generation's, so the disjunction is a sum.
  function Tag(width: nat, generation: nat, i: Interest): nat
    requires width >= INTEREST_WIDTH
  {
    INTEREST_SPAN * generation % (INTEREST_SPAN * TagSpan(width)) + i.Bits()
  }

  lemma ShiftWraps(generation: nat, span: nat)
    requires span > 0
    ensures INTEREST_SPAN * generation % (INTEREST_SPAN * span) == INTEREST_SPAN * (generation % span)
  {
    var q, r := generation / span, generation % span;
    assert INTEREST_SPAN * generation == (INTEREST_SPAN * span) * q + INTEREST_SPAN * r by {
      assert generation == span * q + r;
    }
    ModuloUnique(INTEREST_SPAN * generation, INTEREST_SPAN * span, q, INTEREST_SPAN * r);
  }

  lemma MulStep(m: nat, a: nat, b: nat)
    requires a < b
    ensures m * a + m <= m * b
  {
    var d := b - a - 1;
    assert m * (a + 1 + d) == m * a + m + m * d;
  }

  lemma ModuloUnique(x: nat, m: nat, q: nat, r: nat)
    requires m > 0 && x == m * q + r && r < m
    ensures x % m == r
  {
    var a := x / m;
    assert x == m * a + x % m;
    if a < q {
      MulStep(m, a, q);
    } else if q < a {
      MulStep(m, q, a);
    }
  }

  lemma TagSplits(width: nat, generation: nat, i: Interest)
    requires width >= INTEREST_WIDTH
    ensures Tag(width, generation, i) == INTEREST_SPAN * (generation % TagSpan(width)) + i.Bits()
    ensures i.Bits() < INTEREST_SPAN
  {
    ShiftWraps(generation, TagSpan(width));
    BitsRoundTrip(0, i);
  }

  // The word determines the mask and the generation modulo what the tag can hold:
  // the check a hit performs accepts exactly those pairs.
  lemma TagExact(width: nat, generation: nat, i: Interest, h: nat, j: Interest)
    requires width >= INTEREST_WIDTH
    ensures Tag(width, generation, i) == Tag(width, h, j) <==>
      i == j && generation % TagSpan(width) == h % TagSpan(width)
    ensures FromBits(Tag(width, h, j)) == j
  {
    TagSplits(width, generation, i);
    TagSplits(width, h, j);
    WordsDiffer(generation % TagSpan(width), i, h % TagSpan(width), j);
  }

  lemma WordsDiffer(x: nat, i: Interest, y: nat, j: Interest)
    ensures INTEREST_SPAN * x + i.Bits() == INTEREST_SPAN * y + j.Bits() <==> i == j && x == y
    ensures FromBits(INTEREST_SPAN * y + j.Bits()) == j
  {
    BitsRoundTrip(x, i);
    BitsRoundTrip(y, j);
    ScaleIsInjective(x, y, i.Bits());
  }

  lemma ScaleIsInjective(x: nat, y: nat, low: nat)
    ensures INTEREST_SPAN * x + low == INTEREST_SPAN * y + low ==> x == y
  {
  }
}
