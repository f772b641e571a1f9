/**
The shape of the kernel heap's section tree: node k's children are 2k and 2k + 1, except
that the root, index 0, has the single child 1.
*/
module HeapGeometry {
  import opened Common

  const HEAP_LEN: nat := 1048575
  const HEAP_SIZE: nat := 0x8000_0000
  const MINBLOCK: nat := 64 * 1024

  function SizeOf(k: nat): nat { if k == 0 then HEAP_SIZE else SizeOf(k / 2) / 2 }

  function OffsetOf(k: nat): nat {
    if k == 0 then 0 else if k % 2 == 1 then OffsetOf(k / 2) + SizeOf(k / 2) / 2 else OffsetOf(k / 2)
  }

  // k lies in the subtree of a.
  predicate Below(a: nat, k: nat) { k == a || (k > a && Below(a, k / 2)) }

  // ---------- sizes are powers of two ----------

  function Depth(k: nat): nat { if k == 0 then 0 else Depth(k / 2) + 1 }

  lemma {:induction false} DepthBound(k: nat)
    ensures k > 0 ==> Pow2(Depth(k) - 1) <= k
  {
    if k > 1 { DepthBound(k / 2); }
  }

  lemma {:induction false} Pow2Grows(a: nat, b: nat)
    requires a <= b
    ensures Pow2(a) <= Pow2(b)
  {
    if a < b { Pow2Grows(a, b - 1); }
  }

  lemma Pow2Values()
    ensures Pow2(11) == 2048 && Pow2(14) == 16384 && Pow2(16) == MINBLOCK && Pow2(20) == 1048576 && Pow2(31) == HEAP_SIZE
  {
    assert Pow2(4) == 16;
    assert Pow2(8) == 256;
    assert Pow2(12) == 4096;
    assert Pow2(16) == 65536;
    assert Pow2(20) == 1048576;
    assert Pow2(24) == 0x100_0000;
    assert Pow2(28) == 0x1000_0000;
  }

  lemma TreeDepth(k: nat)
    requires k < HEAP_LEN
    ensures Depth(k) <= 20
  {
    DepthBound(k);
    Pow2Values();
    if Depth(k) > 20 { Pow2Grows(20, Depth(k) - 1); }
  }

  lemma {:induction false} SizeIsPow2(k: nat)
    requires Depth(k) <= 20
    ensures SizeOf(k) == Pow2(31 - Depth(k))
  {
    if k == 0 {
      Pow2Values();
    } else {
      SizeIsPow2(k / 2);
    }
  }

  // Halving is exact throughout the tree.
  lemma Halves(k: nat)
    requires 0 < k < HEAP_LEN
    ensures SizeOf(k / 2) == 2 * SizeOf(k) && SizeOf(k) >= 2048
  {
    TreeDepth(k);
    SizeIsPow2(k);
    SizeIsPow2(k / 2);
    AtLeast2048(31 - Depth(k));
  }

  lemma AtLeast2048(n: nat)
    requires n >= 11
    ensures Pow2(n) >= 2048
  {
    Pow2Grows(11, n);
    Pow2Values();
  }

  lemma SizeByDepth(k: nat)
    requires k < HEAP_LEN
    ensures Depth(k) <= 20 && SizeOf(k) == Pow2(31 - Depth(k))
  {
    TreeDepth(k);
    SizeIsPow2(k);
  }

  lemma DeepIsSmall(k: nat)
    requires k < HEAP_LEN && Depth(k) > 14
    ensures SizeOf(k) <= MINBLOCK
  {
    SizeByDepth(k);
    AtMostMin(31 - Depth(k));
  }

  // Blocks above the minimum are near the root.
  lemma LargeIsShallow(k: nat)
    requires k < HEAP_LEN && SizeOf(k) > MINBLOCK
    ensures Depth(k) <= 14 && SizeOf(k) == Pow2(31 - Depth(k))
  {
    SizeByDepth(k);
    if Depth(k) > 14 { DeepIsSmall(k); }
  }

  lemma AtMostMin(n: nat)
    requires n <= 16
    ensures Pow2(n) <= MINBLOCK
  {
    Pow2Grows(n, 16);
    Pow2Values();
  }

  lemma ShallowIsSmall(k: nat)
    requires Depth(k) <= 14
    ensures k < 16384
  {
    SmallIndex(k);
    Pow2Grows(Depth(k), 14);
    Pow2Values();
  }

  // Sizes above the minimum are twice it or more, and such blocks have children.
  lemma AboveMin(k: nat)
    requires k < HEAP_LEN && SizeOf(k) > MINBLOCK
    ensures SizeOf(k) >= 2 * MINBLOCK && 2 * k + 1 < HEAP_LEN
  {
    LargeIsShallow(k);
    ShallowIsSmall(k);
    TwiceMin(31 - Depth(k));
  }

  lemma TwiceMin(n: nat)
    requires n >= 17
    ensures Pow2(n) >= 2 * MINBLOCK
  {
    Pow2Grows(16, n - 1);
    Pow2Values();
  }

  lemma {:induction false} SmallIndex(k: nat)
    ensures k < Pow2(Depth(k))
  {
    if k > 0 { SmallIndex(k / 2); }
  }

  // ---------- where blocks lie ----------

  lemma Regroup(p: nat, r: nat, z: nat)
    ensures (2 * p + r) * z == p * (2 * z) + r * z
  {
  }

  // Closed form of the offsets: every block is aligned to its size.
  lemma {:induction false} OffsetIsMultiple(k: nat)
    requires k < HEAP_LEN
    ensures OffsetOf(k) == k * SizeOf(k)
  {
    if k > 0 {
      OffsetIsMultiple(k / 2);
      Halves(k);
      Regroup(k / 2, k % 2, SizeOf(k));
      assert k == 2 * (k / 2) + k % 2;
    }
  }

  function End(k: nat): nat { OffsetOf(k) + SizeOf(k) }

  // From index 1 down, two siblings split their parent.
  lemma Siblings(p: nat)
    requires 0 < p && 2 * p + 1 < HEAP_LEN
    ensures OffsetOf(2 * p) == OffsetOf(p) && End(2 * p) == OffsetOf(2 * p + 1) && End(2 * p + 1) == End(p)
  {
    assert (2 * p) / 2 == p && (2 * p) % 2 == 0 && (2 * p + 1) / 2 == p && (2 * p + 1) % 2 == 1;
    Halves(2 * p);
    Halves(2 * p + 1);
    var z := SizeOf(2 * p);
    assert SizeOf(p) == 2 * z && SizeOf(p) / 2 == z && SizeOf(2 * p + 1) == z;
  }

  lemma {:induction false} BelowInside(a: nat, k: nat)
    requires Below(a, k) && k < HEAP_LEN
    ensures OffsetOf(a) <= OffsetOf(k) && End(k) <= End(a) && SizeOf(k) <= SizeOf(a)
    ensures k != a ==> 2 * SizeOf(k) <= SizeOf(a)
  {
    if k != a {
      BelowInside(a, k / 2);
      Halves(k);
    }
  }

  lemma {:induction false} BelowTrans(a: nat, b: nat, c: nat)
    requires Below(a, b) && Below(b, c)
    ensures Below(a, c)
  {
    if c != b { BelowTrans(a, b, c / 2); }
  }

  lemma {:induction false} BelowRoot(k: nat)
    ensures Below(0, k)
  {
    if k > 0 { BelowRoot(k / 2); }
  }

  // Two nodes above the same node are above one another.
  lemma {:induction false} Chain(a: nat, b: nat, k: nat)
    requires Below(a, k) && Below(b, k)
    ensures Below(a, b) || Below(b, a)
  {
    if k != a && k != b { Chain(a, b, k / 2); }
  }

  lemma {:induction false} BelowChild(a: nat, k: nat)
    requires Below(a, k) && k != a
    ensures a == 0 ==> Below(1, k)
    ensures a > 0 ==> Below(2 * a, k) || Below(2 * a + 1, k)
  {
    if k / 2 != a { BelowChild(a, k / 2); }
  }

  lemma ChildBelow(a: nat, c: nat)
    requires c > 0 && c / 2 == a
    ensures Below(a, c)
  {
  }

  // Blocks of nodes that are not above one another are disjoint.
  lemma {:induction false} Disjoint(a: nat, b: nat)
    requires a < HEAP_LEN && b < HEAP_LEN && !Below(a, b) && !Below(b, a)
    ensures End(a) <= OffsetOf(b) || End(b) <= OffsetOf(a)
    decreases a + b, a
  {
    if a > b {
      Disjoint(b, a);
    } else {
      var p := b / 2;
      BelowRoot(b);
      ChildBelow(p, b);
      BelowInside(p, b);
      if Below(p, a) {
        assert p != a;
        BelowChild(p, a);
        BelowRoot(a);
        if p > 0 {
          var c := if b == 2 * p then 2 * p + 1 else 2 * p;
          assert Below(c, a) && c <= a;
          Siblings(p);
          BelowInside(c, a);
        }
      } else {
        Disjoint(a, p);
      }
    }
  }
}
