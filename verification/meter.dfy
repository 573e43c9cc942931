/** The simulated persistent-memory cost meter shared by every leaf design:
    word writes (Nw), cache-line flushes (Nclf) and memory fences (Nmf).
    Every source file declares the same three-counter `Stats` record; it is
    defined once here and passed explicitly to every mutating operation. */
module Meter {

  /** The three counters. They only ever grow. */
  datatype Stats = Stats(nw: nat, nclf: nat, nmf: nat)

  /** A freshly constructed meter. */
  const Zero := Stats(0, 0, 0)

  /** `pcm_write(s, words)`: charge `words` word writes. */
  function Write(s: Stats, words: nat): Stats
  {
    s.(nw := s.nw + words)
  }

  /** `pcm_flush(s)`: charge one cache-line flush. */
  function Flush(s: Stats): Stats
  {
    s.(nclf := s.nclf + 1)
  }

  /** `pcm_fence(s)`: charge one memory fence. */
  function Fence(s: Stats): Stats
  {
    s.(nmf := s.nmf + 1)
  }

  /** Componentwise sum of two charges. */
  function Add(a: Stats, b: Stats): Stats
  {
    Stats(a.nw + b.nw, a.nclf + b.nclf, a.nmf + b.nmf)
  }

  /** Componentwise order: `a` costs no more than `b` on every counter. */
  predicate Le(a: Stats, b: Stats)
  {
    a.nw <= b.nw && a.nclf <= b.nclf && a.nmf <= b.nmf
  }

  /** The charge of `n` operations that each cost `c`. */
  function Times(c: Stats, n: nat): Stats
  {
    if n == 0 then Zero else Add(c, Times(c, n - 1))
  }

  /** Every counter of `c` multiplied by `n`. */
  function Scale(c: Stats, n: nat): Stats
  {
    Stats(c.nw * n, c.nclf * n, c.nmf * n)
  }

  /** `n` operations of cost `c` cost `n` times `c` on every counter. */
  lemma {:induction false} TimesClosedForm(c: Stats, n: nat)
    ensures Times(c, n) == Scale(c, n)
  {
    if n > 0 {
      TimesClosedForm(c, n - 1);
      assert c.nw * n == c.nw + c.nw * (n - 1);
      assert c.nclf * n == c.nclf + c.nclf * (n - 1);
      assert c.nmf * n == c.nmf + c.nmf * (n - 1);
    }
  }

  /** Each primitive adds exactly its own unit charge to one counter, leaves
      the other two alone, and never decreases anything. */
  lemma PrimitivesAreIncrements(s: Stats, words: nat)
    ensures Write(s, words) == Add(s, Stats(words, 0, 0))
    ensures Flush(s) == Add(s, Stats(0, 1, 0))
    ensures Fence(s) == Add(s, Stats(0, 0, 1))
    ensures Le(s, Write(s, words)) && Le(s, Flush(s)) && Le(s, Fence(s))
  {
  }

  /** Charging `a` and then `b` is the same as charging their sum: counters
      are strictly additive across operations. */
  lemma AddAssociates(s: Stats, a: Stats, b: Stats)
    ensures Add(Add(s, a), b) == Add(s, Add(a, b))
  {
  }

  /** `m + n` operations cost `m` operations plus `n` more. */
  lemma {:induction false} TimesSplit(c: Stats, m: nat, n: nat)
    ensures Times(c, m + n) == Add(Times(c, m), Times(c, n))
  {
    if m > 0 {
      TimesSplit(c, m - 1, n);
    }
  }

  /** A charge that is no larger on every counter stays no larger when
      repeated `n` times. */
  lemma {:induction false} TimesMonotone(a: Stats, b: Stats, n: nat)
    requires Le(a, b)
    ensures Le(Times(a, n), Times(b, n))
  {
    if n > 0 {
      TimesMonotone(a, b, n - 1);
    }
  }

  /** The counters `r` after inserts that took a fixed-capacity leaf from
      fill level `c` to fill level `m`, starting from `s`. Every insert pays
      the design's `fixed` charge; a `shifting` design also pays one write
      per key it moves, which is at most the fill level at the time. So
      flushes and fences are exact, and the extra writes number at most
      `c + (c + 1) + ... + (m - 1)`, which is `(m(m - 1) - c(c - 1)) / 2`. */
  predicate RunCharge(fixed: Stats, shifting: bool, s: Stats, r: Stats, c: nat, m: nat)
    requires c <= m
  {
    var base := s.nw + fixed.nw * (m - c);
    && r.nclf == s.nclf + fixed.nclf * (m - c)
    && r.nmf == s.nmf + fixed.nmf * (m - c)
    && base <= r.nw
    && (shifting ==> 2 * r.nw + c * (c - 1) <= 2 * base + m * (m - 1))
    && (!shifting ==> r.nw == base)
  }

  /** A run that stores nothing charges nothing. */
  lemma RunChargeNone(fixed: Stats, shifting: bool, s: Stats, c: nat)
    ensures RunCharge(fixed, shifting, s, s, c, c)
  {
  }

  /** One insert at fill level `c` in front of a run whose charge is known:
      the insert pays `fixed` plus, when shifting, at most `c` more writes. */
  lemma RunChargeStep(fixed: Stats, shifting: bool, s: Stats, s1: Stats, r: Stats, c: nat, m: nat)
    requires c < m
    requires s1.nclf == s.nclf + fixed.nclf && s1.nmf == s.nmf + fixed.nmf
    requires s.nw + fixed.nw <= s1.nw <= s.nw + fixed.nw + (if shifting then c else 0)
    requires RunCharge(fixed, shifting, s1, r, c + 1, m)
    ensures RunCharge(fixed, shifting, s, r, c, m)
  {
    assert fixed.nw * (m - c) == fixed.nw + fixed.nw * (m - (c + 1));
    assert fixed.nclf * (m - c) == fixed.nclf + fixed.nclf * (m - (c + 1));
    assert fixed.nmf * (m - c) == fixed.nmf + fixed.nmf * (m - (c + 1));
    assert (c + 1) * c == c * (c - 1) + 2 * c;
  }
}
