/**
  * The 4 KB frames: 2 MB frames cut into chunks of 500 frames, kept in a list that is pushed
  * at its head and truncated to a suffix when a chunk empties (see LinkedList.List.Remove).
  */
module SmallFrames {
  import opened Common

  const CAPACITY: nat := 500

  // A chunk of the 2 MB frame number `base`; bit i of the bitmap stands for its i-th 4 KB.
  datatype Chunk = Chunk(base: nat, bits: seq<bool>, useCount: nat)

  function Start(base: nat): nat { base * HUGEPGSIZE }

  function Addr(base: nat, i: nat): nat { base * HUGEPGSIZE + i * PGSIZE }

  function BaseOf(f: nat): nat { f / HUGEPGSIZE }

  function IndexOf(f: nat): nat { f % HUGEPGSIZE / PGSIZE }

  lemma AddrParts(base: nat, i: nat)
    requires i < 512
    ensures BaseOf(Addr(base, i)) == base && IndexOf(Addr(base, i)) == i
  {
    assert Addr(base, i) / HUGEPGSIZE == base;
  }

  // Freeing's index arithmetic undoes allocation's.
  lemma IndexInvertsAddress(base: nat, i: nat, offset: nat)
    requires i < CAPACITY && offset < PGSIZE
    ensures var bit, index := i % 4, i / 4;
      var addr := Start(base) + bit * PGSIZE + index * 4 * PGSIZE + offset;
      var absolute := (addr - addr % PGSIZE - Start(base)) / PGSIZE;
      absolute % 4 == bit && absolute / 4 == index && index < 125 && absolute == i
  {
    var addr := Addr(base, i) + offset;
    assert addr % PGSIZE == offset;
  }

  ghost function Count(bits: seq<bool>): nat {
    if bits == [] then 0 else Count(bits[..|bits| - 1]) + if bits[|bits| - 1] then 1 else 0
  }

  lemma {:induction false} CountUpdate(bits: seq<bool>, i: nat, b: bool)
    requires i < |bits|
    ensures Count(bits[i := b]) == Count(bits) - (if bits[i] then 1 else 0) + (if b then 1 else 0)
  {
    var n := |bits| - 1;
    if i == n {
      assert bits[i := b][..n] == bits[..n];
    } else {
      CountUpdate(bits[..n], i, b);
      assert bits[i := b][..n] == bits[..n][i := b];
    }
  }

  lemma {:induction false} CountBounds(bits: seq<bool>)
    ensures Count(bits) <= |bits|
    ensures Count(bits) == |bits| <==> forall i :: 0 <= i < |bits| ==> bits[i]
    ensures Count(bits) == 0 <==> forall i :: 0 <= i < |bits| ==> !bits[i]
  {
    if bits != [] {
      var front := bits[..|bits| - 1];
      CountBounds(front);
      assert forall i :: 0 <= i < |front| ==> front[i] == bits[i];
    }
  }

  ghost predicate ChunkOk(c: Chunk) {
    |c.bits| == CAPACITY && c.useCount == Count(c.bits) && c.useCount > 0
  }

  // Distinct 2 MB frames, so the list has at most one chunk for an address.
  ghost predicate ListOk(cs: seq<Chunk>) {
    && (forall k :: 0 <= k < |cs| ==> ChunkOk(cs[k]) && cs[k].base < HUGEFRAMES)
    && forall k, l :: 0 <= k < l < |cs| ==> cs[k].base != cs[l].base
  }

  // Chunk k is the first with a free frame, and i its lowest free one.
  ghost predicate FirstFree(cs: seq<Chunk>, k: nat, i: nat) {
    && k < |cs| && i < |cs[k].bits| == CAPACITY && !cs[k].bits[i]
    && (forall j :: 0 <= j < i ==> cs[k].bits[j])
    && forall l, j :: 0 <= l < k && 0 <= j < |cs[l].bits| ==> cs[l].bits[j]
  }

  function Taken(c: Chunk, i: nat): Chunk
    requires i < |c.bits|
  {
    c.(bits := c.bits[i := true], useCount := c.useCount + 1)
  }

  function Returned(c: Chunk, i: nat): Chunk
    requires i < |c.bits| && c.useCount > 0
  {
    c.(bits := c.bits[i := false], useCount := c.useCount - 1)
  }

  // Every frame of an earlier chunk, and every lower one of chunk k, is in use; this one is not.
  ghost predicate LowestIn(cs: seq<Chunk>, k: nat, i: nat) {
    && k < |cs| && i < 500 && |cs[k].bits| == 500
    && (forall j :: 0 <= j < 500 ==> (j < i ==> cs[k].bits[j]) && (j == i ==> !cs[k].bits[j]))
    && forall l, j :: 0 <= l < k && 0 <= j < 500 ==> |cs[l].bits| == 500 && cs[l].bits[j]
  }

  ghost predicate TakenAt(cs: seq<Chunk>, ds: seq<Chunk>, f: nat, k: nat, i: nat) {
    FirstFree(cs, k, i) && f == Addr(cs[k].base, i) && ds == cs[k := Taken(cs[k], i)]
  }

  // Handing out f, the lowest free frame of the first chunk that has one.
  ghost predicate TakeStep(cs: seq<Chunk>, ds: seq<Chunk>, f: nat) {
    exists k: nat, i: nat :: TakenAt(cs, ds, f, k, i)
  }

  function NewChunk(base: nat): Chunk {
    Chunk(base, seq(CAPACITY, i => i == 0), 1)
  }

  ghost predicate Listed(cs: seq<Chunk>, base: nat) {
    exists k :: 0 <= k < |cs| && cs[k].base == base
  }

  // What freeing frame i of the 2 MB frame `base` does to the list.
  ghost predicate Freed(cs: seq<Chunk>, ds: seq<Chunk>, base: nat, i: nat) {
    if !Listed(cs, base) then ds == cs else exists k :: FreedAt(cs, ds, base, i, k)
  }

  ghost predicate FreedAt(cs: seq<Chunk>, ds: seq<Chunk>, base: nat, i: nat, k: int) {
    && 0 <= k < |cs| && cs[k].base == base
    && i < |cs[k].bits| && cs[k].useCount > 0
    && ds == if cs[k].useCount == 1 then cs[k + 1..] else cs[k := Returned(cs[k], i)]
  }

  lemma NewChunkOk(base: nat)
    ensures ChunkOk(NewChunk(base))
  {
    var none := seq(CAPACITY, i => false);
    CountBounds(none);
    CountUpdate(none, 0, true);
    assert NewChunk(base).bits == none[0 := true];
  }

  class SmallPageManager {
    var chunks: seq<Chunk>

    constructor ()
      ensures chunks == [] && ListOk(chunks)
    {
      chunks := [];
    }

    // A free 4 KB frame of the listed chunks, or failure when every one of them is full.
    method CheckAvailable() returns (frame: nat)
      requires ListOk(chunks)
      modifies this
      ensures frame == FAILURE <==> forall k :: 0 <= k < |old(chunks)| ==> old(chunks)[k].useCount == CAPACITY
      ensures frame == FAILURE ==> chunks == old(chunks)
      ensures frame != FAILURE ==> TakeStep(old(chunks), chunks, frame)
      // the lowest free frame of the first chunk that has one
      ensures frame != FAILURE ==> exists k: nat, i: nat :: LowestIn(old(chunks), k, i) && frame == old(chunks)[k].base * 0x20_0000 + i * 4096
    {
      for k := 0 to |chunks|
        invariant chunks == old(chunks)
        invariant forall l :: 0 <= l < k ==> chunks[l].useCount == CAPACITY && forall j :: 0 <= j < CAPACITY ==> chunks[l].bits[j]
      {
        var chunk := chunks[k];
        CountBounds(chunk.bits);
        if chunk.useCount < 500 {
          for i := 0 to 500
            invariant chunks == old(chunks)
            invariant forall j :: 0 <= j < i ==> chunk.bits[j]
          {
            var bit, index := i % 4, i / 4;
            if !chunk.bits[index * 4 + bit] {
              frame := Start(chunk.base) + bit * PGSIZE + index * 4 * PGSIZE;
              chunks := chunks[k := Taken(chunk, i)];
              assert TakenAt(old(chunks), chunks, frame, k, i);
              assert LowestIn(old(chunks), k, i);
              return;
            }
          }
        }
      }
      return FAILURE;
    }

    // Gives back the frame of addr, which its caller holds. False when no listed chunk has it.
    method TryFree(addr: nat) returns (found: bool)
      requires ListOk(chunks)
      requires forall k :: 0 <= k < |chunks| && chunks[k].base == BaseOf(addr) ==>
        IndexOf(addr) < CAPACITY && chunks[k].bits[IndexOf(addr)]
      modifies this
      ensures found <==> Listed(old(chunks), BaseOf(addr))
      ensures Freed(old(chunks), chunks, BaseOf(addr), IndexOf(addr))
    {
      ghost var base, i := BaseOf(addr), IndexOf(addr);
      for k := 0 to |chunks|
        invariant chunks == old(chunks)
        invariant forall l :: 0 <= l < k ==> chunks[l].base != base
      {
        var chunk := chunks[k];
        var start := Start(chunk.base);
        InChunk(addr, chunk.base);
        if start <= addr < start + HUGEPGSIZE {
          var absolute := (addr - addr % PGSIZE - start) / PGSIZE;
          var bit, index := absolute % 4, absolute / 4;
          assert index * 4 + bit == i;
          if chunk.useCount == 1 {
            chunks := chunks[k + 1..];
          } else {
            chunks := chunks[k := Returned(chunk, index * 4 + bit)];
          }
          assert FreedAt(old(chunks), chunks, base, i, k);
          return true;
        }
      }
      return false;
    }

    // Pushes a chunk over a 2 MB frame; its first 4 KB goes to the caller.
    method CreateChunk(base: nat) returns (frame: nat)
      requires ListOk(chunks) && base < HUGEFRAMES && !Listed(chunks, base)
      modifies this
      ensures frame == Addr(base, 0) && chunks == [NewChunk(base)] + old(chunks) && ListOk(chunks)
    {
      var chunk := Chunk(base, seq(CAPACITY, i => false), 0);
      chunk := Taken(chunk, 0);
      NewChunkOk(base);
      assert chunk.bits == NewChunk(base).bits;
      chunks := [chunk] + chunks;
      frame := Start(base);
    }
  }

  lemma InChunk(addr: nat, base: nat)
    ensures Start(base) <= addr < Start(base) + HUGEPGSIZE <==> base == BaseOf(addr)
    ensures base == BaseOf(addr) ==> (addr - addr % PGSIZE - Start(base)) / PGSIZE == IndexOf(addr)
  {
    var b, r := addr / HUGEPGSIZE, addr % HUGEPGSIZE;
    assert addr == b * HUGEPGSIZE + r;
    if base == b {
      assert addr % PGSIZE == r % PGSIZE;
    }
  }

  // The part of the invariant that the chunk list takes part in.
  ghost predicate Agrees(split: set<nat>, cs: seq<Chunk>, owned: multiset<nat>) {
    && ListOk(cs)
    && (forall k :: 0 <= k < |cs| ==> cs[k].base in split)
    && (forall f :: f in owned ==> owned[f] == 1 && FrameOk(split, f))
    && forall k, i :: 0 <= k < |cs| && 0 <= i < CAPACITY ==> (cs[k].bits[i] <==> Addr(cs[k].base, i) in owned)
  }

  ghost predicate FrameOk(split: set<nat>, f: nat) {
    exists i: nat :: i < CAPACITY && BaseOf(f) in split && f == Addr(BaseOf(f), i)
  }

  lemma TakeKeeps(split: set<nat>, cs: seq<Chunk>, ds: seq<Chunk>, owned: multiset<nat>, f: nat)
    requires Agrees(split, cs, owned) && TakeStep(cs, ds, f)
    ensures f !in owned && Agrees(split, ds, owned + multiset{f})
  {
    var k: nat, i: nat :| TakenAt(cs, ds, f, k, i);
    CountUpdate(cs[k].bits, i, true);
    AddrParts(cs[k].base, i);
    forall l, j | 0 <= l < |ds| && 0 <= j < CAPACITY
      ensures ds[l].bits[j] <==> Addr(ds[l].base, j) in owned + multiset{f}
    {
      AddrParts(ds[l].base, j);
    }
  }

  lemma SplitKeeps(split: set<nat>, cs: seq<Chunk>, owned: multiset<nat>, n: nat)
    requires Agrees(split, cs, owned) && n !in split && n < HUGEFRAMES
    ensures Addr(n, 0) !in owned
    ensures Agrees(split + {n}, [NewChunk(n)] + cs, owned + multiset{Addr(n, 0)})
  {
    var ds := [NewChunk(n)] + cs;
    NewChunkOk(n);
    AddrParts(n, 0);
    forall l, j | 0 <= l < |ds| && 0 <= j < CAPACITY
      ensures ds[l].bits[j] <==> Addr(ds[l].base, j) in owned + multiset{Addr(n, 0)}
    {
      AddrParts(ds[l].base, j);
    }
  }

  // Giving f back when its chunk is listed and keeps other frames.
  lemma ClearKeeps(split: set<nat>, cs: seq<Chunk>, owned: multiset<nat>, k: nat, i: nat)
    requires Agrees(split, cs, owned) && k < |cs| && i < CAPACITY
    requires cs[k].bits[i] && cs[k].useCount > 1
    ensures Agrees(split, cs[k := Returned(cs[k], i)], owned - multiset{Addr(cs[k].base, i)})
  {
    var f, ds := Addr(cs[k].base, i), cs[k := Returned(cs[k], i)];
    CountUpdate(cs[k].bits, i, false);
    AddrParts(cs[k].base, i);
    forall l, j | 0 <= l < |ds| && 0 <= j < CAPACITY
      ensures ds[l].bits[j] <==> Addr(ds[l].base, j) in owned - multiset{f}
    {
      AddrParts(ds[l].base, j);
    }
  }

  // Giving f back when what stays listed does not hold f.
  lemma DropKeeps(split: set<nat>, cs: seq<Chunk>, k: nat, owned: multiset<nat>, f: nat)
    requires Agrees(split, cs, owned) && k <= |cs| && f in owned
    requires forall l :: k <= l < |cs| ==> cs[l].base != BaseOf(f)
    ensures Agrees(split, cs[k..], owned - multiset{f})
  {
    var ds := cs[k..];
    forall l, j | 0 <= l < |ds| && 0 <= j < CAPACITY
      ensures ds[l].bits[j] <==> Addr(ds[l].base, j) in owned - multiset{f}
    {
      assert ds[l] == cs[k + l];
      AddrParts(ds[l].base, j);
    }
  }

  lemma FreeKeeps(split: set<nat>, cs: seq<Chunk>, ds: seq<Chunk>, owned: multiset<nat>, f: nat)
    requires Agrees(split, cs, owned) && f in owned
    requires Freed(cs, ds, BaseOf(f), IndexOf(f))
    ensures Agrees(split, ds, owned - multiset{f})
  {
    var i: nat :| i < CAPACITY && f == Addr(BaseOf(f), i);
    AddrParts(BaseOf(f), i);
    if Listed(cs, BaseOf(f)) {
      var k :| FreedAt(cs, ds, BaseOf(f), i, k);
      if cs[k].useCount > 1 {
        ClearKeeps(split, cs, owned, k, i);
      } else {
        DropKeeps(split, cs, k + 1, owned, f);
      }
    } else {
      DropKeeps(split, cs, 0, owned, f);
      assert cs[0..] == cs;
    }
  }

  // Freeing the frame that was just handed out restores the list, and nothing else does.
  lemma FreeUndoesTake(cs: seq<Chunk>, ds: seq<Chunk>, es: seq<Chunk>, f: nat)
    requires ListOk(cs) && TakeStep(cs, ds, f)
    ensures Freed(ds, es, BaseOf(f), IndexOf(f)) <==> es == cs
  {
    var k: nat, i: nat :| TakenAt(cs, ds, f, k, i);
    AddrParts(cs[k].base, i);
    assert ds[k].base == BaseOf(f) && Listed(ds, BaseOf(f));
    assert ds[k := Returned(ds[k], i)] == cs by {
      assert cs[k].bits[i := true][i := false] == cs[k].bits;
    }
    assert forall l :: 0 <= l < |ds| && l != k ==> ds[l].base != BaseOf(f);
    assert FreedAt(ds, cs, BaseOf(f), i, k);
  }
}
