/**
The pages of a process: where stack, heap and ELF pages go, map_4kb_page_user on a
process, and the copy of an address space by fork.
*/
module ProcessPages {
  import opened Common
  import opened PageTables
  import O = FrameOwnership

  // ---------- the table indices the kernel chooses ----------

  const USER_STACK_LOC: nat := 0xf_ffff_c000
  const USER_HEAP_START: nat := 0xffff_fffe_ffff_f000
  const HEAP_PAGES: nat := 512 * 64

  datatype Page = Stack(i: nat) | Heap(k: nat) | Elf(va: nat)

  predicate IsPage(p: Page) {
    match p
    case Stack(i) => i < 5
    case Heap(k) => k < HEAP_PAGES
    case Elf(_) => true
  }

  function PageSlot(p: Page, pa: nat): Slot
    requires IsPage(p)
  {
    match p
    case Stack(i) => SlotOf(USER_STACK_LOC - i * PGSIZE, pa, 500, 500)
    case Heap(k) =>
      var va := USER_HEAP_START - PGSIZE * k;
      SlotOf(va, pa, 3, 2 + (USER_HEAP_START - va) / HUGEPGSIZE)
    case Elf(va) => SlotOf(va, pa, 1, 0)
  }

  // Heap page k uses its own entry of the pd table of its 2 MB region.
  lemma HeapIndices(k: nat)
    requires k < HEAP_PAGES
    ensures var va := USER_HEAP_START - PGSIZE * k;
            P4(va) == 511 && P3(va) == 507 && P2(va) == 511 - k / 512 && P1(va) == 511 - k % 512
    ensures PageSlot(Heap(k), 0).a == 3 && PageSlot(Heap(k), 0).b == 2 + k / 512
  {
    var va := USER_HEAP_START - PGSIZE * k;
    var q, j, r := 0xf_ffff_ffef_ffff - k, k / 512, k % 512;
    assert va == 4096 * q;
    PageNumber(va);
    DivStep(q, 0x7ff_ffff_f7ff - j, 511 - r);
    DivStep(0x7ff_ffff_f7ff - j, 0x3_ffff_fffb, 511 - j);
    DivStep(0x3_ffff_fffb, 0x1ff_ffff, 507);
    assert q / 0x4_0000 == (q / 512) / 512 && q / 0x800_0000 == (q / 0x4_0000) / 512;
  }

  lemma DivStep(q: nat, m: nat, r: nat)
    requires q == 512 * m + r && r < 512
    ensures q / 512 == m && q % 512 == r
  {
  }

  lemma StackIndices(i: nat)
    requires i < 5
    ensures var va := USER_STACK_LOC - i * PGSIZE; P4(va) == 0 && P3(va) == 63 && P2(va) == 511 && P1(va) == 508 - i
    ensures PageSlot(Stack(i), 0).a == 500 && PageSlot(Stack(i), 0).b == 500
  {
  }

  // Two different pages never make map_4kb_page_user panic, unless both are ELF pages, which
  // clash exactly when their last-level indices are equal.
  lemma LayoutAgrees(p: Page, q: Page, pa: nat, pb: nat)
    requires IsPage(p) && IsPage(q) && p != q
    ensures Compatible(PageSlot(p, pa), PageSlot(q, pb)) <==>
            !(p.Elf? && q.Elf? && PageSlot(p, pa).i1 == PageSlot(q, pb).i1)
  {
    if p.Heap? { HeapIndices(p.k); }
    if q.Heap? { HeapIndices(q.k); }
    if p.Stack? { StackIndices(p.i); }
    if q.Stack? { StackIndices(q.i); }
  }

  // An ELF page in the gigabyte of the stack or of the heap.
  predicate Intrudes(p: Page, q: Page) {
    p.Elf? && ((q.Stack? && P3(p.va) == 63) || (q.Heap? && P3(p.va) == 507))
  }

  // Two pages with the same pdpt index use different pdt tables exactly when one is an ELF page
  // in the other's gigabyte, which the loader does not check for.
  lemma SamePdtIff(p: Page, q: Page, pa: nat, pb: nat)
    requires IsPage(p) && IsPage(q)
    ensures var s, r := PageSlot(p, pa), PageSlot(q, pb);
            (s.i3 == r.i3 ==> s.a == r.a) <==> !Intrudes(p, q) && !Intrudes(q, p)
  {
    if p.Heap? { HeapIndices(p.k); }
    if q.Heap? { HeapIndices(q.k); }
    if p.Stack? { StackIndices(p.i); }
    if q.Stack? { StackIndices(q.i); }
  }

  // Every page is legal, and one uses the kernel's pdpt entry exactly when it is an ELF page
  // in the kernel's gigabyte.
  lemma LayoutAvoidsKernelIff(p: Page, pa: nat)
    requires IsPage(p) && pa % 4096 == 0 && pa > 0
    ensures Legal(PageSlot(p, pa))
    ensures PageSlot(p, pa).i3 == 510 <==> p.Elf? && P3(p.va) == 510
    ensures p.Elf? ==> PageSlot(p, pa) == Slot(P4(p.va), P3(p.va), P2(p.va), P1(p.va), pa, 1, 0)
  {
    if p.Heap? { HeapIndices(p.k); }
    if p.Stack? { StackIndices(p.i); }
  }

  // What it costs: loading an ELF page at the start of the stack's gigabyte takes the stack's
  // translation away, without a panic.
  lemma StackLost(base: nat, pa: nat, pb: nat)
    requires base % 4096 == 0 && pa % 4096 == 0 && pb % 4096 == 0 && pa > 0 && pb > 0
    ensures var stack, elf := PageSlot(Stack(0), pa), PageSlot(Elf(0xf_c000_0000), pb);
            var d := Mapped(Fresh(base), stack);
            && Legal(stack) && Legal(elf) && !Panics(Fresh(base), stack) && !Panics(d, elf)
            && Walk(d, USER_STACK_LOC) == Some(pa)
            && Walk(Mapped(d, elf), USER_STACK_LOC) == None
  {
    var stack, elf := PageSlot(Stack(0), pa), PageSlot(Elf(0xf_c000_0000), pb);
    var d := Mapped(Fresh(base), stack);
    StackIndices(0);
    assert stack == Slot(0, 63, 511, 508, pa, 500, 500) && elf == Slot(0, 63, 0, 0, pb, 1, 0);
    AddressesTranslate(Fresh(base), USER_STACK_LOC, pa, 500, 500, USER_STACK_LOC);
    var d' := Mapped(d, elf);
    TableEntries(d', 0, USER_FLAGS);
    PdptLevel(d', 1, USER_FLAGS, 511, 508);
  }

  // ---------- lists of recorded pages ----------

  lemma MapStep(d: PgDir, used: seq<Slot>, s: Slot)
    requires BuiltFrom(d, used) && Legal(s) && SamePdt([s] + used)
    ensures Panics(d, s) <==> exists k :: 0 <= k < |used| && !Compatible(s, used[k])
    ensures !Panics(d, s) ==> BuiltFrom(Mapped(d, s), [s] + used)
  {
    BuiltHolds(d.base, used);
    PanicsExactly(d, used, s);
    if !Panics(d, s) { BuildOne(d, used, s); }
  }

  // ---------- processes ----------

  type Memory = map<nat, Bytes>     // the contents of each 4 KB frame

  function Read(m: Memory, frame: nat): Bytes { if frame in m then m[frame] else [] }

  class Process {
    var dir: PgDir
    var used: seq<Slot>     // used_pages, from its head

    // The tables are what mapping the recorded pages made them, and equal pdpt indices
    // use the same pdt table.
    ghost predicate Valid()
      reads this
    {
      BuiltFrom(dir, used)
    }

    // The process's share of CreatePageTables: memset and uva_copy_kernel.
    constructor (base: nat)
      requires base % 4096 == 0
      ensures Valid() && used == [] && dir == Fresh(base)
    {
      dir := Fresh(base);
      used := [];
    }

    // map_4kb_page_user; ok is false where it panics.
    method MapPage(s: Slot) returns (ok: bool)
      requires Valid() && Legal(s) && SamePdt([s] + used)
      modifies this
      ensures ok <==> forall k :: 0 <= k < |old(used)| ==> Compatible(s, old(used)[k])
      ensures ok ==> Valid() && dir == Mapped(old(dir), s) && used == [s] + old(used)
      ensures ok ==> LeafAt(dir, s.i4, s.i3, s.i2, s.i1) == Small(s.pa) && AccessAt(dir, s.i4, s.i3, s.i2, s.i1, true)
    {
      MapStep(dir, used, s);
      MappedTranslates(dir, s);
      MappedIsAccessible(dir, s);
      if Panics(dir, s) {
        return false;
      }
      dir := Mapped(dir, s);
      used := [s] + used;
      return true;
    }

    // The indices of a recorded page lead to its frame.
    lemma Translates(k: nat)
      requires Valid() && k < |used|
      ensures var s := used[k]; LeafAt(dir, s.i4, s.i3, s.i2, s.i1) == Small(s.pa)
    {
      var s := used[k];
      assert Reaches(used, s.i3, s.i2, s.i1, k);
      PageIsLeaf(dir, used, s.i4, s.i3, s.i2, s.i1, k);
    }

    // The frame behind a recorded page, found through the tables.
    method Lookup(s: Slot) returns (frame: nat)
      requires Valid() && s in used
      ensures frame == s.pa
    {
      ghost var k :| 0 <= k < |used| && used[k] == s;
      Translates(k);
      frame := LeafAt(dir, s.i4, s.i3, s.i2, s.i1).frame;
    }

    // The copying loop of CreatePageTableFromCopy, for frames as it needs them.
    method CopyPages(parent: Process, supply: seq<nat>, memory: Memory) returns (ok: bool, m: Memory)
      requires Valid() && used == [] && parent != this && parent.Valid() && GoodSupply(supply, parent.used)
      modifies this
      ensures ok <==> |parent.used| <= |supply|
      ensures ok ==> Valid() && used == Copies(parent.used, supply, |parent.used|)
      ensures ok ==> Copied(memory, m, parent.used, supply, |parent.used|)
    {
      m := memory;
      dir := Fresh(dir.base);
      var n := 0;
      while n < |parent.used|
        invariant n <= |parent.used| && n <= |supply| && Valid()
        invariant used == Copies(parent.used, supply, n)
        invariant Copied(memory, m, parent.used, supply, n)
      {
        if n == |supply| {
          return false, m;
        }
        var entry := parent.used[n];
        var frame := parent.Lookup(entry);
        var buf := Read(m, frame);
        BuiltIff(parent.dir.base, parent.used);
        CopyStep(parent.used, supply, n);
        var mapped := MapPage(entry.(pa := supply[n]));
        assert mapped;
        frame := Lookup(entry.(pa := supply[n]));
        CopyOne(memory, m, parent.used, supply, n);
        m := m[frame := buf];
        n := n + 1;
      }
      return true, m;
    }

    // CreatePageTableFromCopy into this new process.  `supply` is what
    // physical_frame_request_4kb returns, call by call, and runs out where it fails; s is the
    // machine's frames after the last of these calls, with the parent's pages in list p and
    // the new frames in hand or in the child's list c.  ok is false where the source panics.
    method CopyFrom(parent: Process, supply: seq<nat>, memory: Memory, ghost s: O.State, ghost p: nat, ghost c: nat)
        returns (ok: bool, m: Memory)
      requires Valid() && used == [] && parent != this && parent.Valid()
      requires O.Reachable(s) && Owns(s, p, parent.used) && Supplies(s, c, supply) && p != c
      modifies this
      ensures ok <==> |parent.used| <= |supply|
      ensures ok ==> Valid() && used == Copies(parent.used, supply, |parent.used|)
      ensures ok ==> Copied(memory, m, parent.used, supply, |parent.used|)
      ensures ok ==> Isolated(used, parent.used)
    {
      SupplyIsGood(s, p, c, parent.used, supply);
      ok, m := CopyPages(parent, supply, memory);
      CopiesIsolated(parent.used, supply, if ok then |parent.used| else 0);
    }
  }

  // What the copying loop needs of its frames: distinct, aligned, and none of the parent's.
  predicate GoodSupply(supply: seq<nat>, used: seq<Slot>) {
    && (forall i :: 0 <= i < |supply| ==> supply[i] % 4096 == 0 && supply[i] > 0)
    && (forall i, j :: 0 <= i < j < |supply| ==> supply[i] != supply[j])
    && (forall i, k :: 0 <= i < |supply| && 0 <= k < |used| ==> supply[i] != used[k].pa)
  }

  // ---------- where the frames come from ----------

  // `used` are the pages whose frames process p holds.
  ghost predicate Owns(s: O.State, p: nat, used: seq<Slot>) {
    0 < p < |s.held| && |used| == |s.held[p]| && forall k :: 0 <= k < |used| ==> used[k].pa == s.held[p][k]
  }

  // The frames that were requested for process c are in hand or in its list.
  ghost predicate Supplies(s: O.State, c: nat, supply: seq<nat>) {
    0 < c < |s.held| && multiset(supply) <= multiset(s.held[0]) + multiset(s.held[c])
  }

  // Whatever the run of the allocator was, the frames it gave the child are what fork needs.
  lemma SupplyIsGood(s: O.State, p: nat, c: nat, used: seq<Slot>, supply: seq<nat>)
    requires O.Reachable(s) && Owns(s, p, used) && Supplies(s, c, supply) && p != c
    ensures GoodSupply(supply, used)
  {
    forall i | 0 <= i < |supply| ensures supply[i] % 4096 == 0 && supply[i] > 0 {
      assert supply[i] in multiset(supply);
      O.HeldPage(s, if supply[i] in multiset(s.held[0]) then 0 else c, supply[i]);
    }
    forall i, j | 0 <= i < j < |supply| ensures supply[i] != supply[j] {
      O.TwoHolders(s, c, p, supply[i]);
      if supply[i] == supply[j] { O.InTwice(supply, i, j); }
    }
    forall i, k | 0 <= i < |supply| && 0 <= k < |used| ensures supply[i] != used[k].pa {
      O.TwoHolders(s, c, p, supply[i]);
      assert supply[i] in multiset(supply) && s.held[p][k] in multiset(s.held[p]);
    }
  }

  // Mapping a frame in hand keeps the pages of every process and the frames in step.
  lemma MapTracks(s: O.State, t: O.State, c: nat, j: nat, q: nat, used: seq<Slot>, slot: Slot)
    requires O.MapStep(s, t, c, j) && Owns(s, q, used) && slot.pa == s.held[0][j]
    ensures Owns(t, q, if q == c then [slot] + used else used)
  {
  }

  // And so does giving a page back.
  lemma ReleaseTracks(s: O.State, t: O.State, c: nat, q: nat, used: seq<Slot>)
    requires O.ReleaseStep(s, t, c) && Owns(s, q, used)
    ensures Owns(t, q, if q == c then used[1..] else used)
  {
  }

  // In every reachable state no two processes share a frame, nor does one map a frame twice,
  // and none maps a frame of the kernel's gigabyte.
  lemma ProcessesIsolated(s: O.State, p: nat, q: nat, used: seq<Slot>, other: seq<Slot>)
    requires O.Reachable(s) && p != q && Owns(s, p, used) && Owns(s, q, other)
    ensures Isolated(used, other)
    ensures forall i :: 0 <= i < |used| ==> used[i].pa >= KERNELTOP
  {
    var ss: seq<O.State>, acts: seq<O.Action> :| O.Run(ss, acts) && ss[|acts|] == s;
    forall i | 0 <= i < |used|
      ensures used[i].pa >= KERNELTOP
      ensures forall k :: 0 <= k < |other| ==> used[i].pa != other[k].pa
      ensures forall k :: i < k < |used| ==> used[i].pa != used[k].pa
    {
      O.FramesDisjoint(ss, acts, |acts|, p, i);
      assert forall k :: 0 <= k < |other| ==> other[k].pa == s.held[q][k];
    }
  }

  // No page of c shares a frame with a page of u, or with another page of c.
  predicate Isolated(c: seq<Slot>, u: seq<Slot>) {
    && (forall i, k :: 0 <= i < |c| && 0 <= k < |u| ==> c[i].pa != u[k].pa)
    && (forall i, k :: 0 <= i < k < |c| ==> c[i].pa != c[k].pa)
  }

  lemma CopiesIsolated(used: seq<Slot>, supply: seq<nat>, n: nat)
    requires n <= |used| && n <= |supply| && GoodSupply(supply, used)
    ensures Isolated(Copies(used, supply, n), used)
  {
  }

  // The first n new frames hold what the parent's pages hold; no other frame changed.
  ghost predicate Copied(before: Memory, after: Memory, used: seq<Slot>, supply: seq<nat>, n: nat)
    requires n <= |used| && n <= |supply|
  {
    && (forall k :: 0 <= k < n ==> Read(after, supply[k]) == Read(before, used[k].pa))
    && (forall f :: f !in supply[..n] ==> Read(after, f) == Read(before, f))
  }

  lemma CopyOne(before: Memory, m: Memory, used: seq<Slot>, supply: seq<nat>, n: nat)
    requires n < |used| && n < |supply| && GoodSupply(supply, used) && Copied(before, m, used, supply, n)
    ensures Copied(before, m[supply[n] := Read(m, used[n].pa)], used, supply, n + 1)
  {
    var m' := m[supply[n] := Read(m, used[n].pa)];
    assert used[n].pa !in supply[..n];
    assert supply[..n + 1] == supply[..n] + [supply[n]];
  }

  // The copies of the parent's first n entries, most recent first.
  function Copies(used: seq<Slot>, supply: seq<nat>, n: nat): (c: seq<Slot>)
    requires n <= |used| && n <= |supply|
    ensures |c| == n && forall j :: 0 <= j < n ==> c[j] == used[n - 1 - j].(pa := supply[n - 1 - j])
  {
    seq(n, j requires 0 <= j < n => used[n - 1 - j].(pa := supply[n - 1 - j]))
  }

  // Replaying the parent's list, which starts with its latest page, meets no conflict.
  lemma CopyStep(used: seq<Slot>, supply: seq<nat>, n: nat)
    requires AllLegal(used) && SamePdt(used) && AllCompatible(used)
    requires n < |used| && n < |supply| && supply[n] % 4096 == 0 && supply[n] > 0
    ensures var c, s := Copies(used, supply, n), used[n].(pa := supply[n]);
            && Legal(s) && SamePdt([s] + c)
            && (forall k :: 0 <= k < n ==> Compatible(s, c[k]))
            && [s] + c == Copies(used, supply, n + 1)
  {
    var c, s := Copies(used, supply, n), used[n].(pa := supply[n]);
    forall k | 0 <= k < n ensures Compatible(s, c[k]) {
      assert Compatible(used[n - 1 - k], used[n]);
    }
    var l := [s] + c;
    forall k | 0 <= k < |l| ensures l[k] == used[n - k].(pa := supply[n - k]) { }
  }

  // ---------- what fork gives ----------

  // c is u reversed, up to the frames.
  predicate Mirror(u: seq<Slot>, c: seq<Slot>) {
    |u| == |c| && forall k :: 0 <= k < |u| ==> c[|u| - 1 - k] == u[k].(pa := c[|u| - 1 - k].pa)
  }

  lemma MirrorBack(u: seq<Slot>, c: seq<Slot>)
    requires Mirror(u, c)
    ensures Mirror(c, u)
  {
    forall k | 0 <= k < |c| ensures u[|c| - 1 - k] == c[k].(pa := u[|c| - 1 - k].pa) {
      assert c[|u| - 1 - (|u| - 1 - k)] == u[|u| - 1 - k].(pa := c[k].pa);
    }
  }

  lemma TopCopied(u: seq<Slot>, c: seq<Slot>, i4: nat)
    requires Mirror(u, c) && TopMapped(u, i4)
    ensures TopMapped(c, i4)
  {
    if UsesPml4(u, i4) {
      var k :| 0 <= k < |u| && u[k].i4 == i4;
      assert c[|u| - 1 - k].i4 == i4;
    }
  }

  lemma ReachesCopied(u: seq<Slot>, c: seq<Slot>, i3: nat, i2: nat, i1: nat, k: nat)
    requires Mirror(u, c) && Reaches(u, i3, i2, i1, k)
    ensures Reaches(c, i3, i2, i1, |u| - 1 - k)
  {
    var m, n :| 0 <= m < |u| && 0 <= n < |u| && u[m].i3 == i3 && u[n].a == u[m].a && u[n].i2 == i2 && u[k].b == u[n].b;
    var z := |u| - 1;
    assert c[z - m].i3 == i3 && c[z - n].a == c[z - m].a && c[z - n].i2 == i2 && c[z - k].b == c[z - n].b;
  }

  lemma LeafCarries(d: PgDir, u: seq<Slot>, d': PgDir, c: seq<Slot>, i4: nat, i3: nat, i2: nat, i1: nat) returns (k: nat)
    requires BuiltFrom(d, u) && BuiltFrom(d', c) && Mirror(u, c)
    requires i4 < 512 && i3 < 512 && i2 < 512 && i1 < 512 && i3 != 510 && LeafAt(d, i4, i3, i2, i1) != Unmapped
    ensures k < |u| && LeafAt(d, i4, i3, i2, i1) == Small(u[k].pa) && LeafAt(d', i4, i3, i2, i1) == Small(c[|u| - 1 - k].pa)
  {
    k := LeafIsPage(d, u, i4, i3, i2, i1);
    TopCopied(u, c, i4);
    ReachesCopied(u, c, i3, i2, i1, k);
    PageIsLeaf(d', c, i4, i3, i2, i1, |u| - 1 - k);
  }

  lemma ForkLeaves(d: PgDir, u: seq<Slot>, d': PgDir, supply: seq<nat>, i4: nat, i3: nat, i2: nat, i1: nat)
    requires |u| <= |supply| && BuiltFrom(d, u) && BuiltFrom(d', Copies(u, supply, |u|))
    requires i4 < 512 && i3 < 512 && i2 < 512 && i1 < 512 && i3 != 510 && LeafAt(d, i4, i3, i2, i1) != Unmapped
    ensures exists k :: 0 <= k < |u| && LeafAt(d, i4, i3, i2, i1) == Small(u[k].pa)
                        && LeafAt(d', i4, i3, i2, i1) == Small(supply[k])
  {
    var c := Copies(u, supply, |u|);
    var k := LeafCarries(d, u, d', c, i4, i3, i2, i1);
    assert c[|u| - 1 - k].pa == supply[k];
  }

  // The child maps an address exactly when the parent does: where the parent translates
  // to its recorded page k, the child translates to the copy of page k.
  lemma ForkMapsTheSamePages(parent: Process, child: Process, supply: seq<nat>, i4: nat, i3: nat, i2: nat, i1: nat)
    requires parent.Valid() && child.Valid() && |parent.used| <= |supply|
    requires child.used == Copies(parent.used, supply, |parent.used|)
    requires i4 < 512 && i3 < 512 && i2 < 512 && i1 < 512 && i3 != 510
    ensures LeafAt(parent.dir, i4, i3, i2, i1) == Unmapped <==> LeafAt(child.dir, i4, i3, i2, i1) == Unmapped
    ensures LeafAt(parent.dir, i4, i3, i2, i1) != Unmapped ==>
              exists k :: 0 <= k < |parent.used| && LeafAt(parent.dir, i4, i3, i2, i1) == Small(parent.used[k].pa)
                          && LeafAt(child.dir, i4, i3, i2, i1) == Small(supply[k])
  {
    if LeafAt(parent.dir, i4, i3, i2, i1) != Unmapped {
      ForkLeaves(parent.dir, parent.used, child.dir, supply, i4, i3, i2, i1);
    } else if LeafAt(child.dir, i4, i3, i2, i1) != Unmapped {
      MirrorBack(parent.used, child.used);
      var k := LeafCarries(child.dir, child.used, parent.dir, parent.used, i4, i3, i2, i1);
    }
  }
}
