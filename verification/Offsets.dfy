/** The values a 16-bit offset goes through when the same step is added to it over and over. */
module Offsets {
  import opened Layout

  const WRAP: nat := 0x1_0000

  /** The offset after k steps. */
  function Offset(k: nat, step: nat): (r: nat)
    ensures r < WRAP
  {
    if k == 0 then 0 else (Offset(k - 1, step) + step) % WRAP
  }

  /** The largest power of two, of those up to w, that divides n. */
  function Granule(n: nat, w: nat): nat
    decreases n
  {
    if n == 0 then w else if n % 2 == 1 then 1 else 2 * Granule(n / 2, w / 2)
  }

  ghost predicate PowerOfTwo(w: nat) { w == 1 || (w > 1 && w % 2 == 0 && PowerOfTwo(w / 2)) }

  lemma ModShift(x: nat, q: nat)
    ensures (q * WRAP + x) % WRAP == x % WRAP
  {
    DivUnique(q * WRAP + x, WRAP, q + x / WRAP, x % WRAP);
  }

  lemma {:induction false} OffsetIs(k: nat, step: nat)
    ensures Offset(k, step) == Times(k, step) % WRAP
  {
    if k > 0 {
      OffsetIs(k - 1, step);
      var before := Times(k - 1, step);
      ModShift(before % WRAP + step, before / WRAP);
    }
  }

  /** Before the first overflow, the offset is the number of pages gone through. */
  lemma OffsetExact(k: nat, step: nat)
    requires Times(k, step) < WRAP
    ensures Offset(k, step) == Times(k, step)
  {
    OffsetIs(k, step);
  }

  lemma {:induction false} OffsetShift(k: nat, j: nat, step: nat)
    requires Offset(j, step) == 0
    ensures Offset(j + k, step) == Offset(k, step)
  {
    if k > 0 {
      OffsetShift(k - 1, j, step);
    }
  }

  /** After 2^16 steps everything repeats. */
  lemma {:induction false} Periodic(k: nat, step: nat, w: nat)
    requires w == WRAP
    ensures Offset(k, step) == Offset(Rem(k, w), step)
    decreases k
  {
    hide Offset;
    if k >= w {
      FullTurn(w, step);
      OffsetShift(k - w, w, step);
      Periodic(k - w, step, w);
    }
  }

  lemma FullTurn(w: nat, step: nat)
    requires w == WRAP
    ensures Offset(w, step) == 0
  {
    hide Offset;
    OffsetIs(w, step);
    TimesIs(w, step);
  }

  lemma Double(h: nat, u: nat)
    ensures (2 * h) * u == h * (2 * u) == 2 * (h * u)
  {}

  lemma Spread(k: nat, n: nat, u: nat)
    ensures (k + u) * n == k * n + n * u
  {}

  lemma EvenStep(a: nat, h: nat, u: nat)
    requires a == (2 * h) * u
    ensures a == h * (2 * u)
  {
    Double(h, u);
  }

  lemma UnevenStep(n: nat, u: nat, k: nat, q: nat, h: nat)
    requires k * n + 1 == q * u && q + n == 2 * h
    ensures (k + u) * n + 1 == h * (2 * u)
  {
    Spread(k, n, u);
    Spread(q, u, n);
    Double(h, u);
  }

  /** One step of the search for such a multiple, from half the power of two. */
  lemma OddStep(n: nat, u: nat, k: nat, q: nat) returns (k': nat, q': nat)
    requires n % 2 == 1 && k * n + 1 == q * u
    ensures k' * n + 1 == q' * (2 * u)
  {
    if q % 2 == 0 {
      EvenStep(k * n + 1, q / 2, u);
      k', q' := k, q / 2;
    } else {
      UnevenStep(n, u, k, q, (q + n) / 2);
      k', q' := k + u, (q + n) / 2;
    }
  }

  /** Some multiple of an odd number is one below a multiple of any power of two. */
  lemma {:induction false} OddReaches(n: nat, w: nat) returns (k: nat, q: nat)
    requires n % 2 == 1 && PowerOfTwo(w)
    ensures k * n + 1 == q * w
  {
    if w == 1 {
      k, q := 0, 1;
    } else {
      k, q := OddReaches(n, w / 2);
      k, q := OddStep(n, w / 2, k, q);
      assert w == 2 * (w / 2);
    }
  }

  lemma HalfReaches(n: nat, w: nat, d: nat, k: nat, q: nat)
    requires k * n + d == q * w
    ensures k * (2 * n) + 2 * d == q * (2 * w)
  {
    Double(k, n);
    Double(q, w);
  }

  lemma {:induction false} Reaches(n: nat, w: nat) returns (k: nat, q: nat)
    requires n < w && PowerOfTwo(w)
    ensures k * n + Granule(n, w) == q * w
    decreases n
  {
    if n == 0 {
      k, q := 0, 1;
    } else if n % 2 == 1 {
      k, q := OddReaches(n, w);
    } else {
      k, q := Reaches(n / 2, w / 2);
      HalfReaches(n / 2, w / 2, Granule(n / 2, w / 2), k, q);
      assert n == 2 * (n / 2) && w == 2 * (w / 2);
    }
  }

  lemma {:induction false} GranuleDivides(n: nat, w: nat) returns (m: nat, r: nat)
    requires n < w && PowerOfTwo(w)
    ensures Granule(n, w) > 0 && n == m * Granule(n, w) && w == r * Granule(n, w)
    decreases n
  {
    if n == 0 {
      m, r := 0, 1;
    } else if n % 2 == 1 {
      m, r := n, w;
    } else {
      m, r := GranuleDivides(n / 2, w / 2);
      Double(m, Granule(n / 2, w / 2));
      Double(r, Granule(n / 2, w / 2));
      assert n == 2 * (n / 2) && w == 2 * (w / 2);
    }
  }

  lemma BelowMultiple(x: int, y: int, r: int, d: nat)
    requires d > 0 && x == y * d < r * d
    ensures x <= r * d - d
  {
    assert (y - r) * d == y * d - r * d;
    assert (r - 1 - y) * d == r * d - d - y * d;
    if y >= r {
      MulNonneg(y - r, d);
    } else {
      MulNonneg(r - 1 - y, d);
    }
  }

  lemma MultipleLess(k: nat, m: nat, t: nat, r: nat, d: nat)
    ensures k * (m * d) - t * (r * d) == (k * m - t * r) * d
  {
    assert k * (m * d) == (k * m) * d && t * (r * d) == (t * r) * d;
    assert (k * m - t * r) * d == (k * m) * d - (t * r) * d;
  }

  lemma WrapIsPower()
    ensures PowerOfTwo(WRAP)
  {
    assert PowerOfTwo(0x100);
    assert PowerOfTwo(0x1000);
  }

  /** No offset comes closer to 2^16 than the granule of the step. */
  lemma OffsetAtMost(k: nat, step: nat)
    requires step < WRAP
    ensures Offset(k, step) <= WRAP - Granule(step, WRAP)
  {
    hide Granule, Offset;
    WrapIsPower();
    var m, r := GranuleDivides(step, WRAP);
    OffsetIs(k, step);
    TimesIs(k, step);
    MultipleLess(k, m, k * step / WRAP, r, Granule(step, WRAP));
    BelowMultiple(Offset(k, step), k * m - k * step / WRAP * r, r, Granule(step, WRAP));
  }

  /** The offset reaches p at some time exactly if the granule of the step leaves room for it. */
  lemma OffsetReaches(p: nat, step: nat)
    requires step < WRAP
    ensures (exists k :: Offset(k, step) >= p) <==> p <= WRAP - Granule(step, WRAP)
  {
    if k :| Offset(k, step) >= p {
      OffsetAtMost(k, step);
    }
    if p <= WRAP - Granule(step, WRAP) {
      WrapIsPower();
      var k, q := Reaches(step, WRAP);
      var m, r := GranuleDivides(step, WRAP);
      OffsetIs(k, step);
      TimesIs(k, step);
      DivUnique(k * step, WRAP, q - 1, WRAP - Granule(step, WRAP));
      assert Offset(k, step) >= p;
    }
  }
}
