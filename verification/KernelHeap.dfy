/**
The kernel heap: kernel_heap_tree_init, find_heap_frame, kalloc, heap_search_by_offset,
get_buddy and kfree, over the section tree in its array.
*/
module KernelHeap {
  import opened Common
  import opened HeapGeometry

  datatype Section = Section(size: nat, offset: nat, index: nat, inUse: bool, occupied: bool)

  function Fresh(k: nat): Section { Section(SizeOf(k), OffsetOf(k), k, false, false) }

  // ---------- what a request may get ----------

  // A block of the order of a request of `size` bytes.
  predicate Fits(k: nat, size: nat) {
    k < HEAP_LEN && SizeOf(k) >= MINBLOCK && SizeOf(k) >= size && (SizeOf(k) < 2 * size || SizeOf(k) == MINBLOCK)
  }

  // No outstanding block overlaps that of k.
  predicate FreeNode(t: seq<Section>, k: nat) {
    forall o :: 0 <= o < |t| && t[o].occupied ==> !Below(o, k) && !Below(k, o)
  }

  predicate HoldsOccupied(t: seq<Section>, k: nat) {
    exists o :: 0 <= o < |t| && t[o].occupied && Below(k, o)
  }

  predicate Shaped(t: seq<Section>) {
    && |t| == HEAP_LEN
    && forall k :: 0 <= k < HEAP_LEN ==> t[k].size == SizeOf(k) && t[k].offset == OffsetOf(k) && t[k].index == k
  }

  predicate Antichain(t: seq<Section>) {
    forall a, b :: 0 <= a < |t| && 0 <= b < |t| && t[a].occupied && t[b].occupied && Below(a, b) ==> a == b
  }

  // in_use says exactly that the subtree holds an occupied node, and no occupied node
  // is above another.
  predicate HeapInv(t: seq<Section>) {
    && Shaped(t)
    && Antichain(t)
    && (forall k :: 0 <= k < HEAP_LEN ==> (t[k].inUse <==> HoldsOccupied(t, k)))
    && (forall k :: 0 <= k < HEAP_LEN && t[k].occupied ==> SizeOf(k) >= MINBLOCK)
  }

  // The tree after node k below node i was taken: i and everything between is in use.
  function Mark(x: Section, i: nat, k: nat, j: nat): Section {
    if j == k then x.(inUse := true, occupied := true)
    else if Below(i, j) && Below(j, k) then x.(inUse := true)
    else x
  }

  predicate Taken(t: seq<Section>, i: nat, k: nat, t': seq<Section>) {
    |t'| == |t| && forall j :: 0 <= j < |t| ==> t'[j] == Mark(t[j], i, k, j)
  }

  predicate LowestFree(t: seq<Section>, i: nat, size: nat, k: nat) {
    && Below(i, k) && Fits(k, size) && FreeNode(t, k)
    && forall j :: 0 <= j < HEAP_LEN && Below(i, j) && Fits(j, size) && FreeNode(t, j) ==> OffsetOf(k) <= OffsetOf(j)
  }

  predicate NoneFree(t: seq<Section>, i: nat, size: nat) {
    forall j :: 0 <= j < HEAP_LEN && Below(i, j) && Fits(j, size) ==> !FreeNode(t, j)
  }

  // The same in bytes: a size of the request's order, and an extent that meets no outstanding block.
  predicate InOrder(blockSize: nat, size: nat) {
    blockSize >= 65536 && blockSize >= size && (blockSize < 2 * size || blockSize == 65536)
  }

  predicate ApartFromAll(t: seq<Section>, k: nat) {
    forall o :: 0 <= o < |t| && o < HEAP_LEN && t[o].occupied ==> End(o) <= OffsetOf(k) || End(k) <= OffsetOf(o)
  }

  lemma FitsIsInOrder(k: nat, size: nat)
    requires k < HEAP_LEN
    ensures Fits(k, size) <==> InOrder(SizeOf(k), size)
  {
  }

  // Blocks in the tree are apart exactly when neither is above the other.
  lemma FreeNodeIff(t: seq<Section>, k: nat)
    requires |t| == HEAP_LEN && k < HEAP_LEN && SizeOf(k) > 0
    requires forall o :: 0 <= o < |t| && t[o].occupied ==> SizeOf(o) > 0
    ensures FreeNode(t, k) <==> ApartFromAll(t, k)
  {
    forall o | 0 <= o < HEAP_LEN && SizeOf(o) > 0
      ensures !Below(o, k) && !Below(k, o) <==> End(o) <= OffsetOf(k) || End(k) <= OffsetOf(o)
    {
      NestedOrApart(o, k);
    }
  }

  lemma NestedOrApart(o: nat, k: nat)
    requires o < HEAP_LEN && k < HEAP_LEN && SizeOf(o) > 0 && SizeOf(k) > 0
    ensures !Below(o, k) && !Below(k, o) <==> End(o) <= OffsetOf(k) || End(k) <= OffsetOf(o)
  {
    if Below(o, k) {
      BelowInside(o, k);
    } else if Below(k, o) {
      BelowInside(k, o);
    } else {
      Disjoint(o, k);
    }
  }

  lemma FreeInBytes(t: seq<Section>, k: nat, size: nat)
    requires HeapInv(t) && k < HEAP_LEN
    ensures Fits(k, size) && FreeNode(t, k) <==> InOrder(SizeOf(k), size) && ApartFromAll(t, k)
  {
    FitsIsInOrder(k, size);
    if Fits(k, size) { FreeNodeIff(t, k); }
  }

  // ---------- lemmas about one node of the search ----------

  lemma TooSmall(t: seq<Section>, i: nat, size: nat)
    requires i < HEAP_LEN && size > SizeOf(i)
    ensures NoneFree(t, i, size)
  {
    forall j | 0 <= j < HEAP_LEN && Below(i, j) ensures !Fits(j, size) { BelowInside(i, j); }
  }

  lemma OccupiedBlocks(t: seq<Section>, i: nat, size: nat)
    requires i < |t| && t[i].occupied
    ensures NoneFree(t, i, size)
  {
  }

  // A free node that is above no occupied one, with nothing occupied above it.
  predicate ClearAbove(t: seq<Section>, i: nat) {
    forall o :: 0 <= o < |t| && t[o].occupied && Below(o, i) ==> o == i
  }

  lemma TakeHere(t: seq<Section>, i: nat, size: nat)
    requires HeapInv(t) && i < HEAP_LEN && ClearAbove(t, i) && !t[i].inUse && Fits(i, size)
    ensures LowestFree(t, i, size, i)
  {
    assert !HoldsOccupied(t, i);
    assert Below(i, i);
    forall j | 0 <= j < HEAP_LEN && Below(i, j) ensures OffsetOf(i) <= OffsetOf(j) { BelowInside(i, j); }
    forall o | 0 <= o < |t| && t[o].occupied ensures !Below(o, i) && !Below(i, o) {
    }
  }

  // The search goes below node i only if i is larger than the minimum block.
  lemma GoesDown(t: seq<Section>, i: nat, size: nat)
    requires HeapInv(t) && i < HEAP_LEN && SizeOf(i) >= MINBLOCK && !t[i].occupied && size <= SizeOf(i)
    requires !(SizeOf(i) / 2 < size || SizeOf(i) == MINBLOCK) || t[i].inUse
    ensures SizeOf(i) > MINBLOCK && 2 * i + 1 < HEAP_LEN
    ensures SizeOf(2 * i + 1) >= MINBLOCK && (i > 0 ==> SizeOf(2 * i) >= MINBLOCK)
    ensures Fits(i, size) ==> !FreeNode(t, i)
  {
    if t[i].inUse {
      assert HoldsOccupied(t, i);
      var o :| 0 <= o < |t| && t[o].occupied && Below(i, o);
      BelowInside(i, o);
    }
    ChildSizes(i);
  }

  lemma ChildSizes(i: nat)
    requires i < HEAP_LEN && SizeOf(i) > MINBLOCK
    ensures 2 * i + 1 < HEAP_LEN && SizeOf(2 * i + 1) >= MINBLOCK && (i > 0 ==> SizeOf(2 * i) >= MINBLOCK)
  {
    AboveMin(i);
    Halves(2 * i + 1);
    if i > 0 { Halves(2 * i); }
  }

  lemma ChildClear(t: seq<Section>, i: nat, c: nat)
    requires |t| == HEAP_LEN && i < HEAP_LEN && ClearAbove(t, i) && !t[i].occupied && c > 0 && c / 2 == i
    ensures ClearAbove(t, c)
  {
  }

  lemma NeitherChild(t: seq<Section>, i: nat, size: nat)
    requires i < HEAP_LEN && (Fits(i, size) ==> !FreeNode(t, i))
    requires i > 0 ==> NoneFree(t, 2 * i, size)
    requires NoneFree(t, 2 * i + 1, size)
    ensures NoneFree(t, i, size)
  {
    forall j | 0 <= j < HEAP_LEN && Below(i, j) && Fits(j, size) ensures !FreeNode(t, j) {
      if j != i { BelowChild(i, j); }
    }
  }

  // The child c holds the lowest block below i, if everything to its left is taken.
  lemma FromChild(t: seq<Section>, i: nat, size: nat, c: nat, k: nat)
    requires 2 * i + 1 < HEAP_LEN && c > 0 && c / 2 == i && k < HEAP_LEN && LowestFree(t, c, size, k)
    requires Fits(i, size) ==> !FreeNode(t, i)
    requires c == 2 * i + 1 && i > 0 ==> NoneFree(t, 2 * i, size)
    ensures LowestFree(t, i, size, k)
  {
    ChildBelow(i, c);
    BelowTrans(i, c, k);
    forall j | 0 <= j < HEAP_LEN && Below(i, j) && Fits(j, size) && FreeNode(t, j)
      ensures OffsetOf(k) <= OffsetOf(j)
    {
      assert j != i;
      BelowChild(i, j);
      if !Below(c, j) {
        assert i > 0 && c == 2 * i && Below(2 * i + 1, j);
        Siblings(i);
        BelowInside(c, k);
        BelowInside(2 * i + 1, j);
      }
    }
  }

  // What a child's search found and marked is what the search found and marks here.
  lemma UpOne(t: seq<Section>, i: nat, size: nat, c: nat, k: nat, t': seq<Section>, t'': seq<Section>)
    requires |t| == HEAP_LEN && 2 * i + 1 < HEAP_LEN && c > 0 && c / 2 == i && k < HEAP_LEN && LowestFree(t, c, size, k)
    requires Fits(i, size) ==> !FreeNode(t, i)
    requires c == 2 * i + 1 && i > 0 ==> NoneFree(t, 2 * i, size)
    requires Taken(t, c, k, t') && t'' == t'[i := t'[i].(inUse := true)]
    ensures LowestFree(t, i, size, k) && Taken(t, i, k, t'')
  {
    FromChild(t, i, size, c, k);
    MarkUp(t, i, c, k, t', t'');
  }

  lemma MarkUp(t: seq<Section>, i: nat, c: nat, k: nat, t': seq<Section>, t'': seq<Section>)
    requires |t| == HEAP_LEN && i < HEAP_LEN && c > 0 && c / 2 == i && Below(c, k) && c < HEAP_LEN
    requires Taken(t, c, k, t') && t'' == t'[i := t'[i].(inUse := true)]
    ensures Taken(t, i, k, t'')
  {
    ChildBelow(i, c);
    forall j | 0 <= j < |t| ensures t''[j] == Mark(t[j], i, k, j) {
      if j == i {
        BelowTrans(i, c, k);
      } else if Below(i, j) && Below(j, k) {
        BelowChild(i, j);
        if !Below(c, j) {
          Chain(c, j, k);
          NotBoth(i, c, j);
        }
      } else if Below(c, j) {
        BelowTrans(i, c, j);
      }
    }
  }

  // Nothing lies strictly between a node and its child.
  lemma NotBoth(i: nat, c: nat, j: nat)
    requires c > 0 && c / 2 == i && Below(i, j) && Below(j, c) && j != i
    ensures j == c
  {
    OrderOfBelow(i, j);
    if j != c { OrderOfBelow(j, i); }
  }

  lemma {:induction false} OrderOfBelow(a: nat, k: nat)
    requires Below(a, k)
    ensures a <= k
  {
  }

  // What taking k from the root amounts to.
  predicate TakenAt(t: seq<Section>, k: nat, t': seq<Section>) {
    && Shaped(t') && |t| == HEAP_LEN
    && forall j :: 0 <= j < HEAP_LEN ==>
         (t'[j].occupied <==> t[j].occupied || j == k) && (t'[j].inUse <==> t[j].inUse || Below(j, k))
  }

  lemma FromRoot(t: seq<Section>, k: nat, t': seq<Section>)
    requires Shaped(t) && k < HEAP_LEN && Taken(t, 0, k, t')
    ensures TakenAt(t, k, t')
  {
    forall j | 0 <= j < HEAP_LEN ensures t'[j] == Mark(t[j], 0, k, j) && Below(0, j) { BelowRoot(j); }
  }

  lemma TakenInUse(t: seq<Section>, k: nat, t': seq<Section>, j: nat)
    requires HeapInv(t) && k < HEAP_LEN && TakenAt(t, k, t') && j < HEAP_LEN
    ensures t'[j].inUse <==> HoldsOccupied(t', j)
  {
    if HoldsOccupied(t, j) {
      var o :| 0 <= o < |t| && t[o].occupied && Below(j, o);
      assert t'[o].occupied;
    }
    if HoldsOccupied(t', j) {
      var o :| 0 <= o < |t'| && t'[o].occupied && Below(j, o);
      assert t[o].occupied || o == k;
    }
    assert t'[k].occupied;
  }

  // Taking a free block keeps the invariant.
  lemma TakenKeepsInv(t: seq<Section>, k: nat, t': seq<Section>)
    requires HeapInv(t) && k < HEAP_LEN && SizeOf(k) >= MINBLOCK && FreeNode(t, k) && TakenAt(t, k, t')
    ensures HeapInv(t')
  {
    forall j | 0 <= j < HEAP_LEN ensures t'[j].inUse <==> HoldsOccupied(t', j) {
      TakenInUse(t, k, t', j);
    }
  }

  // ---------- heap_search_by_offset and get_buddy ----------

  const NOT_FOUND: nat := 0xFFFF_FFFF

  // From the root, the source recurses for ever on an offset in the lower half of a heap
  // in which nothing was allocated.
  predicate Searchable(t: seq<Section>, offset: nat)
    requires |t| == HEAP_LEN
  {
    t[0].inUse || offset >= HEAP_SIZE / 2
  }

  function HeapSearch(t: seq<Section>, offset: nat, i: nat): nat
    requires Shaped(t) && (i == 0 ==> Searchable(t, offset))
    decreases HEAP_LEN - i, if i == 0 then 1 else 0
  {
    if i >= HEAP_LEN then NOT_FOUND
    else if !(t[i].offset <= offset < t[i].offset + t[i].size) then NOT_FOUND
    else if t[i].inUse then i
    else if offset >= t[i].offset + t[i].size / 2 then HeapSearch(t, offset, 2 * i + 1)
    else HeapSearch(t, offset, 2 * i)
  }

  // Once anything was allocated the search never leaves the root.
  lemma SearchStopsAtRoot(t: seq<Section>, offset: nat)
    requires HeapInv(t) && HoldsOccupied(t, 0)
    ensures HeapSearch(t, offset, 0) == if offset < HEAP_SIZE then 0 else NOT_FOUND
  {
  }

  class KernelHeap {
    var tree: array<Section>
    var vaStart: nat
    ghost var given: seq<nat>     // the nodes whose blocks kalloc has handed out, in order

    ghost predicate Valid()
      reads this, tree
    {
      && HeapInv(tree[..])
      && (forall k :: 0 <= k < HEAP_LEN ==> (tree[k].occupied <==> k in given))
      && (forall a, b :: 0 <= a < b < |given| ==> given[a] != given[b])
      && (forall a :: 0 <= a < |given| ==> given[a] < HEAP_LEN)
    }

    constructor (vaStart: nat)
      ensures Valid() && given == [] && this.vaStart == vaStart && fresh(tree)
      ensures forall k :: 0 <= k < HEAP_LEN ==> tree[k] == Fresh(k)
    {
      this.vaStart := vaStart;
      given := [];
      tree := new Section[HEAP_LEN];
      new;
      TreeInit(0, HEAP_SIZE, 0);
      forall k | 0 <= k < HEAP_LEN ensures tree[k] == Fresh(k) { BelowRoot(k); }
    }

    // kernel_heap_tree_init
    method TreeInit(i: nat, size: nat, offset: nat)
      requires tree.Length == HEAP_LEN
      requires i < HEAP_LEN ==> size == SizeOf(i) && offset == OffsetOf(i)
      modifies tree
      ensures forall k :: 0 <= k < HEAP_LEN ==> tree[k] == if Below(i, k) then Fresh(k) else old(tree[k])
      decreases HEAP_LEN - i, if i == 0 then 1 else 0
    {
      if i >= HEAP_LEN {
        forall k | 0 <= k < HEAP_LEN && Below(i, k) ensures false { OrderOfBelow(i, k); }
        return;
      }
      tree[i] := Section(size, offset, i, false, false);
      if i != 0 {
        TreeInit(2 * i, size / 2, offset);
      }
      TreeInit(2 * i + 1, size / 2, offset + size / 2);
      forall k | 0 <= k < HEAP_LEN ensures tree[k] == if Below(i, k) then Fresh(k) else old(tree[k]) {
        SubtreeSplit(i, k);
      }
    }

    // find_heap_frame; the missing final return is UINT64_MAX, the documented failure value.
    method FindHeapFrame(size: nat, i: nat) returns (address: Option<nat>, ghost k: nat)
      requires HeapInv(tree[..]) && (i < HEAP_LEN ==> SizeOf(i) >= MINBLOCK && ClearAbove(tree[..], i))
      modifies tree
      ensures address == None ==> tree[..] == old(tree[..]) && NoneFree(old(tree[..]), i, size)
      ensures address.Some? ==> k < HEAP_LEN && LowestFree(old(tree[..]), i, size, k)
      ensures address.Some? ==> Taken(old(tree[..]), i, k, tree[..]) && address.value == OffsetOf(k) + vaStart
      decreases HEAP_LEN - i, 1
    {
      ghost var t := tree[..];
      address, k := None, 0;
      if i >= HEAP_LEN {
        forall j | 0 <= j < HEAP_LEN ensures !Below(i, j) { NotAbove(i, j); }
      } else if size > tree[i].size || tree[i].occupied {
        NothingHere(t, i, size);
      } else if tree[i].size >= size && (tree[i].size / 2 < size || tree[i].size == MINBLOCK) && !tree[i].inUse {
        tree[i] := tree[i].(occupied := true);
        tree[i] := tree[i].(inUse := true);
        TakesHere(t, i, size, tree[..]);
        address, k := Some(tree[i].offset + vaStart), i;
      } else {
        GoesDown(t, i, size);
        if i != 0 {
          address, k := SearchChild(size, i, 2 * i);
        }
        if address == None {
          address, k := SearchChild(size, i, 2 * i + 1);
          if address == None {
            NeitherChild(t, i, size);
          }
        }
      }
    }

    // One of find_heap_frame's two recursive calls, with the marking after it.
    method SearchChild(size: nat, i: nat, c: nat) returns (address: Option<nat>, ghost k: nat)
      requires HeapInv(tree[..]) && 2 * i + 1 < HEAP_LEN && ClearAbove(tree[..], i) && !tree[i].occupied
      requires c > 0 && c / 2 == i && SizeOf(c) >= MINBLOCK
      requires Fits(i, size) ==> !FreeNode(tree[..], i)
      requires c == 2 * i + 1 && i > 0 ==> NoneFree(tree[..], 2 * i, size)
      modifies tree
      ensures address == None ==> tree[..] == old(tree[..]) && NoneFree(old(tree[..]), c, size)
      ensures address.Some? ==> k < HEAP_LEN && LowestFree(old(tree[..]), i, size, k)
      ensures address.Some? ==> Taken(old(tree[..]), i, k, tree[..]) && address.value == OffsetOf(k) + vaStart
      decreases HEAP_LEN - i, 0
    {
      ghost var t := tree[..];
      ChildClear(t, i, c);
      address, k := FindHeapFrame(size, c);
      if address.Some? {
        ghost var t' := tree[..];
        tree[i] := tree[i].(inUse := true);
        UpOne(t, i, size, c, k, t', tree[..]);
      }
    }

    // On success the lowest free block of the request's order; NULL exactly when there
    // is none.
    method Kalloc(size: nat) returns (address: Option<nat>)
      requires Valid()
      modifies tree, this`given
      ensures Valid()
      ensures address == None <==> NoneFree(old(tree[..]), 0, size)
      ensures address == None ==> tree[..] == old(tree[..]) && given == old(given)
      ensures address.Some? ==> |given| == |old(given)| + 1 && given[..|old(given)|] == old(given)
      ensures address.Some? ==> LowestFree(old(tree[..]), 0, size, given[|given| - 1])
                                && address.value == OffsetOf(given[|given| - 1]) + vaStart
      // no free block of the request's order lies lower, and there is none when NULL is returned
      ensures forall k :: 0 <= k < HEAP_LEN && InOrder(SizeOf(k), size) && ApartFromAll(old(tree[..]), k) ==>
        address.Some? && address.value <= OffsetOf(k) + vaStart
      // the block is of the request's order and was free
      ensures address.Some? ==>
        exists k: nat :: k < HEAP_LEN && InOrder(SizeOf(k), size) && ApartFromAll(old(tree[..]), k) && address.value == OffsetOf(k) + vaStart
    {
      ghost var t, k := tree[..], 0;
      Halves(1);
      address, k := FindHeapFrame(size, 0);
      forall j | 0 <= j < HEAP_LEN
        ensures Fits(j, size) && FreeNode(t, j) <==> InOrder(SizeOf(j), size) && ApartFromAll(t, j)
        ensures Below(0, j)
      {
        FreeInBytes(t, j, size);
        BelowRoot(j);
      }
      if address.Some? {
        FromRoot(t, k, tree[..]);
        TakenKeepsInv(t, k, tree[..]);
        assert Below(k, k);
        given := given + [k];
        forall j | 0 <= j < HEAP_LEN ensures tree[j].occupied <==> j in given {
          assert tree[..][j] == tree[j] && t[j] == old(tree[j]);
        }
      }
    }

    function GetBuddy(index: nat): Section
      requires tree.Length == HEAP_LEN && index + 1 < HEAP_LEN
      reads this, tree
    {
      if index % 2 == 0 then tree[index + 1] else tree[index - 1]
    }

    // kfree clears flags in copies of the sections, so the tree stays as it is.  The
    // offset is passed as a uint32_t.
    method Kfree(address: nat) returns (ok: bool)
      requires Valid() && (address >= vaStart ==> Searchable(tree[..], (address - vaStart) % 0x1_0000_0000))
      ensures tree[..] == old(tree[..]) && given == old(given) && Valid()
      ensures ok <==> given != [] && address >= vaStart && (address - vaStart) % 0x1_0000_0000 < 0x8000_0000
    {
      if address < vaStart {
        return false;
      }
      var offset := (address - vaStart) % 0x1_0000_0000;
      var index := Search(offset, 0);
      if index == NOT_FOUND {
        Accepts(offset);
        return false;
      }
      SearchedIsInUse(tree[..], offset, 0);
      var curr := tree[index];
      var buddy := GetBuddy(index);
      curr := curr.(occupied := false, inUse := false);
      while !buddy.inUse && !buddy.occupied && index > 0
        invariant index + 1 < HEAP_LEN
        decreases index
      {
        index := index / 2;
        var parent := tree[index];
        parent := parent.(inUse := false, occupied := false);
        buddy := GetBuddy(index);
      }
      Accepts(offset);
      return true;
    }

    // The search finds a section exactly when anything was allocated and the offset is in the heap.
    lemma Accepts(offset: nat)
      requires Valid() && Searchable(tree[..], offset)
      ensures HeapSearch(tree[..], offset, 0) != NOT_FOUND <==> given != [] && offset < HEAP_SIZE
    {
      var t := tree[..];
      if given != [] {
        assert t[given[0]].occupied;
        BelowRoot(given[0]);
        assert HoldsOccupied(t, 0);
        SearchStopsAtRoot(t, offset);
      } else if HeapSearch(t, offset, 0) != NOT_FOUND {
        SearchedIsInUse(t, offset, 0);
      }
    }

    // heap_search_by_offset
    method Search(offset: nat, i: nat) returns (index: nat)
      requires Shaped(tree[..]) && (i == 0 ==> Searchable(tree[..], offset))
      ensures index == HeapSearch(tree[..], offset, i)
      decreases HEAP_LEN - i, if i == 0 then 1 else 0
    {
      if i >= HEAP_LEN {
        return NOT_FOUND;
      }
      var curr := tree[i];
      if !(offset >= curr.offset && offset < curr.offset + curr.size) {
        return NOT_FOUND;
      }
      if curr.inUse {
        return i;
      }
      if offset >= curr.offset + curr.size / 2 {
        index := Search(offset, 2 * i + 1);
      } else {
        index := Search(offset, 2 * i);
      }
    }
  }

  lemma NotAbove(i: nat, j: nat)
    requires j < i
    ensures !Below(i, j)
  {
  }

  lemma SubtreeSplit(i: nat, k: nat)
    ensures Below(i, k) ==> k == i || (i > 0 && Below(2 * i, k)) || Below(2 * i + 1, k)
    ensures Below(2 * i + 1, k) || (i > 0 && Below(2 * i, k)) ==> Below(i, k)
    ensures i > 0 ==> !(Below(2 * i, k) && Below(2 * i + 1, k))
    ensures !Below(2 * i + 1, i) && (i > 0 ==> !Below(2 * i, i))
  {
    if Below(i, k) && k != i { BelowChild(i, k); }
    ChildBelow(i, 2 * i + 1);
    if Below(2 * i + 1, k) { BelowTrans(i, 2 * i + 1, k); }
    if i > 0 {
      ChildBelow(i, 2 * i);
      if Below(2 * i, k) {
        BelowTrans(i, 2 * i, k);
        if Below(2 * i + 1, k) { Chain(2 * i, 2 * i + 1, k); }
      }
    }
  }

  lemma OnlyItself(t: seq<Section>, i: nat, t': seq<Section>)
    requires i < |t| && t' == t[i := t[i].(inUse := true, occupied := true)]
    ensures Taken(t, i, i, t')
  {
    forall j | 0 <= j < |t| ensures t'[j] == Mark(t[j], i, i, j) {
      if j != i && Below(i, j) && Below(j, i) {
        OrderOfBelow(i, j);
        OrderOfBelow(j, i);
      }
    }
  }

  // Where the search goes on from a section that is not in use.
  lemma SearchDescends(t: seq<Section>, offset: nat, i: nat) returns (c: nat)
    requires Shaped(t) && (i == 0 ==> Searchable(t, offset))
    requires i < HEAP_LEN && !t[i].inUse && HeapSearch(t, offset, i) != NOT_FOUND
    ensures i < c < HEAP_LEN && HeapSearch(t, offset, i) == HeapSearch(t, offset, c)
  {
    c := if offset >= t[i].offset + t[i].size / 2 then 2 * i + 1 else 2 * i;
    assert HeapSearch(t, offset, i) == HeapSearch(t, offset, c);
  }

  lemma NothingHere(t: seq<Section>, i: nat, size: nat)
    requires |t| == HEAP_LEN && i < HEAP_LEN && (size > SizeOf(i) || t[i].occupied)
    ensures NoneFree(t, i, size)
  {
    if size > SizeOf(i) { TooSmall(t, i, size); } else { OccupiedBlocks(t, i, size); }
  }

  lemma TakesHere(t: seq<Section>, i: nat, size: nat, t': seq<Section>)
    requires HeapInv(t) && i < HEAP_LEN && ClearAbove(t, i) && !t[i].inUse && Fits(i, size)
    requires t' == t[i := t[i].(inUse := true, occupied := true)]
    ensures LowestFree(t, i, size, i) && Taken(t, i, i, t')
  {
    TakeHere(t, i, size);
    OnlyItself(t, i, t');
  }

  lemma {:induction false} SearchedIsInUse(t: seq<Section>, offset: nat, i: nat)
    requires HeapInv(t) && (i == 0 ==> Searchable(t, offset))
    requires i < HEAP_LEN && HeapSearch(t, offset, i) != NOT_FOUND
    ensures var k := HeapSearch(t, offset, i); k < HEAP_LEN && t[k].inUse && k + 1 < HEAP_LEN
    decreases HEAP_LEN - i
  {
    if t[i].inUse {
      assert HoldsOccupied(t, i);
      var o :| 0 <= o < |t| && t[o].occupied && Below(i, o);
      OrderOfBelow(i, o);
      SmallEnough(o);
    } else {
      var c := SearchDescends(t, offset, i);
      SearchedIsInUse(t, offset, c);
    }
  }

  lemma SmallEnough(k: nat)
    requires k < HEAP_LEN && SizeOf(k) >= MINBLOCK
    ensures k + 1 < HEAP_LEN
  {
    if SizeOf(k) > MINBLOCK {
      AboveMin(k);
    } else {
      TreeDepth(k);
      SizeIsPow2(k);
      Pow2Values();
      SmallIndex(k);
      if Depth(k) > 19 { Pow2Grows(31 - Depth(k), 11); }
      Pow2Grows(Depth(k), 19);
      assert Pow2(20) == 2 * Pow2(19);
    }
  }

  // ---------- main results ----------

  // However kalloc and kfree were called, the outstanding blocks are pairwise disjoint
  // and inside the 2 GB heap.
  lemma OutstandingDisjoint(heap: KernelHeap, a: nat, b: nat)
    requires heap.Valid() && a < b < |heap.given|
    ensures End(heap.given[a]) <= OffsetOf(heap.given[b]) || End(heap.given[b]) <= OffsetOf(heap.given[a])
    ensures End(heap.given[a]) <= HEAP_SIZE && End(heap.given[b]) <= HEAP_SIZE
  {
    var x, y := heap.given[a], heap.given[b];
    assert heap.tree[..][x].occupied && heap.tree[..][y].occupied;
    Disjoint(x, y);
    BelowRoot(x);
    BelowRoot(y);
    BelowInside(0, x);
    BelowInside(0, y);
  }

  // The nodes handed out form an antichain, and in_use is set exactly above them.
  lemma InUseExact(heap: KernelHeap, k: nat)
    requires heap.Valid() && k < HEAP_LEN
    ensures heap.tree[k].inUse <==> exists a :: 0 <= a < |heap.given| && Below(k, heap.given[a])
    ensures forall a, b :: 0 <= a < |heap.given| && 0 <= b < |heap.given| && a != b ==> !Below(heap.given[a], heap.given[b])
  {
    var t := heap.tree[..];
    assert forall o :: 0 <= o < HEAP_LEN ==> (t[o].occupied <==> o in heap.given);
    if heap.tree[k].inUse {
      assert HoldsOccupied(t, k);
      var o :| 0 <= o < |t| && t[o].occupied && Below(k, o);
      assert o in heap.given;
    }
  }

  // The block of a request is aligned to its size, large enough, and under twice the
  // request or the minimum.
  lemma BlockFits(t: seq<Section>, size: nat, k: nat)
    requires LowestFree(t, 0, size, k)
    ensures OffsetOf(k) == k * SizeOf(k)
    ensures size <= SizeOf(k) && (SizeOf(k) < 2 * size || SizeOf(k) == MINBLOCK)
    ensures End(k) <= HEAP_SIZE
  {
    OffsetIsMultiple(k);
    BelowInside(0, k);
  }
}
