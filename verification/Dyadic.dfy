/** Powers of two, aligned runs of minimum blocks, and the exclusive-or that finds a buddy. */
module Dyadic {

  function Pow2(k: nat): (p: nat)
    ensures 1 <= p
  {
    if k == 0 then 1 else 2 * Pow2(k - 1)
  }

  lemma {:induction false} Pow2Mono(a: nat, b: nat)
    requires a <= b
    ensures Pow2(a) <= Pow2(b)
  {
    if a < b {
      Pow2Mono(a, b - 1);
    }
  }

  lemma Pow2Strict(a: nat, b: nat)
    ensures a < b ==> Pow2(a) < Pow2(b)
  {
    if a < b { Pow2Mono(a + 1, b); }
  }

  /** The low `k` bits of `u` are zero. */
  predicate Aligned(u: nat, k: nat) {
    k == 0 || (u % 2 == 0 && Aligned(u / 2, k - 1))
  }

  lemma MulDouble(q: nat, p: nat)
    ensures q * (2 * p) == 2 * (q * p) == (2 * q) * p
  {
  }

  lemma {:induction false} MultipleAligned(q: nat, k: nat)
    ensures Aligned(q * Pow2(k), k)
  {
    if k != 0 {
      MultipleAligned(q, k - 1);
      MulDouble(q, Pow2(k - 1));
      var half := q * Pow2(k - 1);
      assert q * Pow2(k) == 2 * half;
      assert 2 * half % 2 == 0 && 2 * half / 2 == half;
    }
  }

  lemma {:induction false} AlignedQuotient(u: nat, k: nat) returns (q: nat)
    requires Aligned(u, k)
    ensures u == q * Pow2(k)
  {
    if k == 0 {
      q := u;
    } else {
      q := AlignedQuotient(u / 2, k - 1);
      MulDouble(q, Pow2(k - 1));
    }
  }

  predicate IsMultiple(u: nat, q: nat, p: nat) { u == q * p }

  /** An aligned block starts at a multiple of its own size, and nothing else does. */
  lemma AlignedIsMultiple(u: nat, k: nat)
    ensures Aligned(u, k) <==> exists q: nat :: IsMultiple(u, q, Pow2(k))
  {
    if Aligned(u, k) {
      var q := AlignedQuotient(u, k);
      assert IsMultiple(u, q, Pow2(k));
    }
    if q: nat :| IsMultiple(u, q, Pow2(k)) {
      MultipleAligned(q, k);
    }
  }

  /** A coarser alignment implies every finer one. */
  lemma {:induction false} AlignedDown(u: nat, k: nat, j: nat)
    requires Aligned(u, k) && j <= k
    ensures Aligned(u, j)
  {
    if j == 0 {
    } else {
      AlignedDown(u / 2, k - 1, j - 1);
    }
  }

  /** Stepping by one block keeps alignment and flips the alignment one order up. */
  lemma {:induction false} AlignedStep(u: nat, k: nat)
    requires Aligned(u, k)
    ensures Aligned(u + Pow2(k), k)
    ensures Aligned(u, k + 1) <==> !Aligned(u + Pow2(k), k + 1)
    ensures !Aligned(u, k + 1) ==> Pow2(k) <= u
  {
    if k == 0 {
    } else {
      AlignedStep(u / 2, k - 1);
    }
  }

  /** Two aligned runs are nested or disjoint. */
  lemma {:induction false} Nested(u: nat, k: nat, v: nat, j: nat)
    requires Aligned(u, k) && Aligned(v, j) && k <= j
    ensures || (v <= u && u + Pow2(k) <= v + Pow2(j))
            || u + Pow2(k) <= v
            || v + Pow2(j) <= u
  {
    if k == 0 {
    } else {
      Nested(u / 2, k - 1, v / 2, j - 1);
    }
  }

  /** The neighbour a block merges with: right of it when it is a left half, left of it otherwise. */
  function Buddy(u: nat, k: nat): (b: nat)
    requires Aligned(u, k)
    ensures Aligned(b, k) && b != u
    ensures Aligned(u, k + 1) <==> !Aligned(b, k + 1)
  {
    AlignedStep(u, k);
    if Aligned(u, k + 1) then u + Pow2(k)
    else
      assert Aligned(u - Pow2(k), k) by { AlignedBack(u, k); }
      AlignedStep(u - Pow2(k), k);
      u - Pow2(k)
  }

  lemma {:induction false} AlignedBack(u: nat, k: nat)
    requires Aligned(u, k) && Pow2(k) <= u
    ensures Aligned(u - Pow2(k), k)
  {
    if k == 0 {
    } else {
      AlignedBack(u / 2, k - 1);
    }
  }

  /** Being buddies is symmetric, and the pair is exactly one block of the next order. */
  lemma BuddyInvolution(u: nat, k: nat)
    requires Aligned(u, k)
    ensures Buddy(Buddy(u, k), k) == u
    ensures var lo := if Buddy(u, k) < u then Buddy(u, k) else u;
            Aligned(lo, k + 1) && {u, Buddy(u, k)} == {lo, lo + Pow2(k)}
  {
  }

  /** Bitwise exclusive-or of two natural numbers. */
  function Xor(a: nat, b: nat): nat
  {
    if a == 0 && b == 0 then 0
    else 2 * Xor(a / 2, b / 2) + (if a % 2 != b % 2 then 1 else 0)
  }

  lemma {:induction false} XorZero(a: nat)
    ensures Xor(a, 0) == a
  {
    if a != 0 {
      XorZero(a / 2);
    }
  }

  /** Flipping bit `k` of an aligned address moves to the buddy. */
  lemma {:induction false} XorIsBuddy(u: nat, k: nat)
    requires Aligned(u, k)
    ensures Xor(u, Pow2(k)) == Buddy(u, k)
  {
    if k == 0 {
      XorZero(u / 2);
    } else {
      XorIsBuddy(u / 2, k - 1);
    }
  }

  lemma XorDouble(x: nat, y: nat)
    ensures Xor(2 * x, 2 * y) == 2 * Xor(x, y)
  {
  }

  lemma {:induction false} XorScale(a: nat, b: nat, m: nat, p: nat)
    requires p == Pow2(m)
    ensures Xor(a * p, b * p) == Xor(a, b) * p
  {
    if m == 0 {
    } else {
      var q := Pow2(m - 1);
      MulDouble(a, q);
      MulDouble(b, q);
      MulDouble(Xor(a, b), q);
      XorScale(a, b, m - 1, q);
      XorDouble(a * q, b * q);
    }
  }

  lemma Pow2Twelve()
    ensures Pow2(12) == 4096
  {
  }

  lemma XorPages(a: nat, b: nat)
    ensures Xor(4096 * a, 4096 * b) == 4096 * Xor(a, b)
  {
    Pow2Twelve();
    XorScale(a, b, 12, 4096);
  }
}
