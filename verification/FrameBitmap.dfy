/**
  * The map of 2 MB physical frames: 512 words of 64 flags, a set flag meaning "in use". The
  * map starts all set; booting clears the frames that lie inside available memory.
  *
  * A panic halts the kernel, so a method that may panic returns `panicked` and promises
  * nothing about the state when it is true.
  */
module FrameBitmap {
  import opened Common

  const WORDS: nat := 512
  const WIDTH: nat := 64
  const MAXMEM: nat := 0x10_0000_0000  // 64 GB

  function RoundUp(x: nat): nat { (x + HUGEPGSIZE) - (x + HUGEPGSIZE) % HUGEPGSIZE }

  function RoundDown(x: nat): nat { x - x % HUGEPGSIZE }

  // RoundUp moves an aligned address to the next frame: it is the least frame above x.
  lemma RoundUpIsNextFrame(x: nat, n: nat)
    ensures RoundUp(x) % HUGEPGSIZE == 0
    ensures RoundUp(x) <= n * HUGEPGSIZE <==> x < n * HUGEPGSIZE
  {
    var q := RoundUp(x) / HUGEPGSIZE;
    assert RoundUp(x) == q * HUGEPGSIZE && x < q * HUGEPGSIZE <= x + HUGEPGSIZE by { Split(x + HUGEPGSIZE); }
    if n < q { assert n * HUGEPGSIZE <= (q - 1) * HUGEPGSIZE; } else { assert n * HUGEPGSIZE >= q * HUGEPGSIZE; }
  }

  lemma Split(x: nat)
    ensures x - x % HUGEPGSIZE == (x / HUGEPGSIZE) * HUGEPGSIZE
  {}

  lemma FrameIndex(n: nat)
    ensures RoundDown(n * HUGEPGSIZE) / HUGEPGSIZE == n && (n * HUGEPGSIZE) % HUGEPGSIZE == 0 && (n * HUGEPGSIZE) / HUGEPGSIZE == n
  {
    assert (n * HUGEPGSIZE) / HUGEPGSIZE == n;
  }

  // The frames that free_hugeframe_range(start, end) gives back while booting.
  ghost predicate InRange(start: nat, end: nat, n: nat) {
    KERNELFRAMES <= n && start < n * HUGEPGSIZE && n * HUGEPGSIZE + HUGEPGSIZE < end
  }

  ghost function RangeFrames(start: nat, end: nat): set<nat> {
    RangeBelow(start, end, HUGEFRAMES)
  }

  ghost function RangeBelow(start: nat, end: nat, k: nat): set<nat> {
    set n | 0 <= n < k && InRange(start, end, n)
  }

  // The scan starts below every frame of the range and stops above all of them.
  lemma RangeStarts(start: nat, end: nat) returns (k: nat)
    ensures RoundUp(start) == k * HUGEPGSIZE && start < RoundUp(start)
    ensures RangeBelow(start, end, k) == {}
  {
    k := RoundUp(start) / HUGEPGSIZE;
    RoundUpIsNextFrame(start, k);
    forall n: nat | n < k ensures !InRange(start, end, n) { RoundUpIsNextFrame(start, n); }
  }

  lemma RangeStep(start: nat, end: nat, k: nat)
    requires start < k * HUGEPGSIZE && k * HUGEPGSIZE + HUGEPGSIZE < end <= MAXMEM
    ensures k < HUGEFRAMES && (k + 1) * HUGEPGSIZE == k * HUGEPGSIZE + HUGEPGSIZE
    ensures k * HUGEPGSIZE >= KERNELTOP <==> k in RangeFrames(start, end)
    ensures RangeBelow(start, end, k + 1) == RangeBelow(start, end, k) + if k * HUGEPGSIZE < KERNELTOP then {} else {k}
    ensures k !in RangeBelow(start, end, k)
  {}

  lemma RangeTooShort(start: nat, end: nat)
    requires end < start + HUGEPGSIZE
    ensures RangeFrames(start, end) == {}
  {
    assert forall n: nat :: !InRange(start, end, n);
  }

  lemma RangeEnds(start: nat, end: nat, k: nat)
    requires end <= k * HUGEPGSIZE + HUGEPGSIZE && end <= MAXMEM
    ensures RangeBelow(start, end, k) == RangeFrames(start, end)
  {
    forall n: nat | InRange(start, end, n) ensures n < k && n < HUGEFRAMES {
      assert n * HUGEPGSIZE < k * HUGEPGSIZE;
    }
  }

  datatype Entry = Entry(available: bool, addr: nat, len: nat)

  ghost function EntryFrames(e: Entry): set<nat> {
    if e.available then RangeFrames(e.addr, e.addr + e.len) else {}
  }

  ghost function BootFrames(es: seq<Entry>): set<nat> {
    if es == [] then {} else BootFrames(es[..|es| - 1]) + EntryFrames(es[|es| - 1])
  }

  // Some available entry gives back a frame that an earlier one gave back already.
  ghost predicate Overlapping(es: seq<Entry>) {
    exists i: nat, j: nat :: i < j < |es| && Share(es, i, j)
  }

  lemma {:induction false} BootFramesAre(es: seq<Entry>, n: nat)
    ensures n in BootFrames(es) <==> exists i :: 0 <= i < |es| && n in EntryFrames(es[i])
  {
    if es != [] {
      var front := es[..|es| - 1];
      BootFramesAre(front, n);
      assert forall i :: 0 <= i < |front| ==> es[i] == front[i];
    }
  }

  // Regions that do not overlap, as the boot loader promises of its memory map.
  ghost predicate DisjointEntries(es: seq<Entry>) {
    forall i, j :: 0 <= i < j < |es| && es[i].available && es[j].available ==>
      es[i].addr + es[i].len <= es[j].addr || es[j].addr + es[j].len <= es[i].addr
  }

  lemma DisjointEntriesBoot(es: seq<Entry>)
    requires DisjointEntries(es)
    ensures !Overlapping(es)
  {
    forall i: nat, j: nat | i < j < |es| ensures !Share(es, i, j) {
      if n: nat :| n in EntryFrames(es[i]) && n in EntryFrames(es[j]) {
        assert es[i].addr < n * HUGEPGSIZE < es[j].addr + es[j].len;
      }
    }
  }

  class FrameMap {
    // flags[i, j] is bit j of word i.
    const flags: array2<bool>
    var freeCount: nat
    var ready: bool

    ghost predicate Shape() {
      flags.Length0 == WORDS && flags.Length1 == WIDTH
    }

    ghost predicate Used(n: nat)
      requires Shape() && n < HUGEFRAMES
      reads flags
    {
      flags[n / WIDTH, n % WIDTH]
    }

    ghost function Free(): set<nat>
      requires Shape()
      reads flags
    {
      set n | 0 <= n < HUGEFRAMES && !Used(n)
    }

    ghost predicate Valid()
      reads this, flags
    {
      && Shape()
      && freeCount == |Free()|
      && forall n :: n in Free() ==> KERNELFRAMES <= n  // the kernel's flags stay set
    }

    // What one flag write does to the set of free frames.
    twostate lemma FlagWritten(n: nat)
      requires Shape() && n < HUGEFRAMES
      requires forall i, j :: 0 <= i < WORDS && 0 <= j < WIDTH && !(i == n / WIDTH && j == n % WIDTH) ==>
        flags[i, j] == old(flags[i, j])
      ensures Free() == if Used(n) then old(Free()) - {n} else old(Free()) + {n}
    {
      forall m: nat | m < HUGEFRAMES && m != n ensures Used(m) == old(Used(m)) {
        assert !(m / WIDTH == n / WIDTH && m % WIDTH == n % WIDTH);
      }
    }

    constructor ()
      ensures Shape() && fresh(flags) && freeCount == 0 && !ready
    {
      flags := new bool[WORDS, WIDTH];
      freeCount := 0;
      ready := false;
    }

    method Whiteout()
      requires Shape()
      modifies flags
      ensures Free() == {}
    {
      for i := 0 to WORDS
        invariant forall k, j :: 0 <= k < i && 0 <= j < WIDTH ==> flags[k, j]
      {
        forall j | 0 <= j < WIDTH { flags[i, j] := true; }
      }
    }

    // The word and the bit of an address.
    method Position(pa: nat) returns (i: nat, j: nat)
      requires pa < MAXMEM
      ensures i < WORDS && j < WIDTH
      ensures i == (pa / HUGEPGSIZE) / WIDTH && j == (pa / HUGEPGSIZE) % WIDTH
    {
      Split(pa);
      FrameIndex(pa / HUGEPGSIZE);
      var absolute := RoundDown(pa) / HUGEPGSIZE;
      j := absolute % WIDTH;
      i := (absolute - j) / WIDTH;
    }

    method InUse(pa: nat) returns (used: bool)
      requires Shape() && pa < MAXMEM
      ensures used == (pa / HUGEPGSIZE !in Free())
    {
      var i, j := Position(pa);
      used := flags[i, j];
    }

    method Checkout(pa: nat) returns (panicked: bool)
      requires Valid() && pa < MAXMEM
      modifies this`freeCount, flags
      ensures panicked <==> pa / HUGEPGSIZE !in old(Free())
      ensures !panicked ==> Valid() && Free() == old(Free()) - {pa / HUGEPGSIZE}
    {
      var i, j := Position(pa);
      if flags[i, j] {
        return true;
      }
      flags[i, j] := true;
      FlagWritten(pa / HUGEPGSIZE);
      assert pa / HUGEPGSIZE in old(Free());
      freeCount := freeCount - 1;
      return false;
    }

    method Checkin(pa: nat)
      requires Valid() && pa < MAXMEM && KERNELFRAMES <= pa / HUGEPGSIZE
      requires pa / HUGEPGSIZE !in Free()
      modifies this`freeCount, flags
      ensures Valid() && Free() == old(Free()) + {pa / HUGEPGSIZE}
    {
      var i, j := Position(pa);
      flags[i, j] := false;
      FlagWritten(pa / HUGEPGSIZE);
      freeCount := freeCount + 1;
    }

    // Hands out the lowest free frame, never one of the kernel's: its panic cannot happen.
    method Request() returns (r: nat, panicked: bool)
      requires Valid()
      modifies this`freeCount, flags
      ensures Valid() && !panicked
      ensures r == FAILURE <==> old(Free()) == {}
      ensures r == FAILURE ==> Free() == old(Free())
      ensures r != FAILURE ==> KERNELTOP <= r < MAXMEM && r % HUGEPGSIZE == 0 && r / HUGEPGSIZE in old(Free())
      ensures r != FAILURE ==> Free() == old(Free()) - {r / HUGEPGSIZE}
      ensures r != FAILURE ==> forall n :: n in old(Free()) ==> r / HUGEPGSIZE <= n
    {
      if freeCount == 0 {
        return FAILURE, false;
      }
      for i := 0 to WORDS
        invariant Valid() && Free() == old(Free())
        invariant forall n :: n in Free() ==> i * WIDTH <= n
      {
        for j := 0 to WIDTH
          invariant Valid() && Free() == old(Free())
          invariant forall n :: n in Free() ==> i * WIDTH + j <= n
        {
          ghost var n := i * WIDTH + j;
          assert n / WIDTH == i && n % WIDTH == j;
          if !flags[i, j] {
            var frame := i * 64 * HUGEPGSIZE + j * HUGEPGSIZE;
            assert frame == n * HUGEPGSIZE;
            FrameIndex(n);
            assert n in Free();
            var halted := Checkout(frame);
            return frame, halted || frame < KERNELTOP;
          }
          assert n !in Free();
        }
      }
      return FAILURE, false;
    }

    method FreeFrame(pa: nat) returns (panicked: bool)
      requires Valid() && pa < MAXMEM
      modifies this`freeCount, flags
      ensures panicked <==>
        (pa % HUGEPGSIZE != 0 || (pa < KERNELTOP && ready) || (pa >= KERNELTOP && pa / HUGEPGSIZE in old(Free())))
      ensures !panicked ==> Valid()
      ensures !panicked ==> Free() == old(Free()) + if pa < KERNELTOP then {} else {pa / HUGEPGSIZE}
    {
      if pa % HUGEPGSIZE != 0 {
        return true;
      }
      if pa < KERNELTOP {
        return ready;
      }
      var used := InUse(pa);
      if !used {
        return true;
      }
      Checkin(pa);
      used := InUse(pa);
      return used;
    }

    // FreeRange's sweep has come to frame k, at address pa.
    ghost predicate Swept(before: set<nat>, start: nat, end: nat, pa: nat, k: nat)
      requires Shape()
      reads this, flags
    {
      && Valid() && !ready && pa == k * HUGEPGSIZE && start < pa
      && Free() == before + RangeBelow(start, end, k)
      && before !! RangeBelow(start, end, k)
    }

    // One turn of FreeRange's loop.
    method FreeNext(start: nat, end: nat, pa: nat, ghost k: nat, ghost before: set<nat>) returns (panicked: bool)
      requires Shape() && Swept(before, start, end, pa, k) && pa + HUGEPGSIZE < end <= MAXMEM
      modifies this`freeCount, flags
      ensures panicked ==> before * RangeFrames(start, end) != {}
      ensures !panicked ==> Swept(before, start, end, pa + HUGEPGSIZE, k + 1)
    {
      FrameIndex(k);
      RangeStep(start, end, k);
      panicked := FreeFrame(pa);
      if panicked {
        assert k in before && k in RangeFrames(start, end);
      }
    }

    method SweepFrom(first: nat, start: nat, end: nat, ghost k: nat) returns (panicked: bool)
      requires Shape() && Swept(Free(), start, end, first, k) && end <= MAXMEM
      modifies this`freeCount, flags
      ensures panicked ==> old(Free()) * RangeFrames(start, end) != {}
      ensures !panicked ==> Valid() && Free() == old(Free()) + RangeFrames(start, end)
      ensures !panicked ==> old(Free()) !! RangeFrames(start, end)
    {
      var pa := first;
      ghost var before, n := Free(), k;
      while pa + HUGEPGSIZE < end
        invariant Swept(before, start, end, pa, n)
      {
        panicked := FreeNext(start, end, pa, n, before);
        if panicked {
          return;
        }
        pa, n := pa + HUGEPGSIZE, n + 1;
      }
      RangeEnds(start, end, n);
      return false;
    }

    method FreeRange(start: nat, end: nat) returns (panicked: bool)
      requires Valid() && !ready && start <= end <= MAXMEM
      modifies this`freeCount, flags
      ensures panicked <==> old(Free()) * RangeFrames(start, end) != {}
      ensures !panicked ==> Valid() && Free() == old(Free()) + RangeFrames(start, end)
    {
      if end - start < HUGEPGSIZE {
        RangeTooShort(start, end);
        return false;
      }
      ghost var k := RangeStarts(start, end);
      panicked := SweepFrom(RoundUp(start), start, end, k);
    }

    // One turn of Boot's loop, at entry i.
    method FreeEntry(es: seq<Entry>, i: nat) returns (panicked: bool)
      requires Valid() && !ready && i < |es| && (es[i].available ==> es[i].addr + es[i].len <= MAXMEM)
      requires Free() == BootFrames(es[..i]) && !Overlapping(es[..i])
      modifies this`freeCount, flags
      ensures panicked <==> Overlapping(es[..i + 1])
      ensures !panicked ==> Valid() && Free() == BootFrames(es[..i + 1])
    {
      Clash(es, i);
      assert es[..i + 1][..i] == es[..i];
      if es[i].available {
        panicked := FreeRange(es[i].addr, es[i].addr + es[i].len);
        return;
      }
      return false;
    }

    // Booting from the memory map.
    method Boot(es: seq<Entry>) returns (panicked: bool)
      requires Shape() && freeCount == 0 && !ready
      requires forall e :: e in es && e.available ==> e.addr + e.len <= MAXMEM
      modifies this, flags
      ensures panicked <==> Overlapping(es)
      ensures !panicked ==> Valid() && ready && Free() == BootFrames(es)
    {
      Whiteout();
      for i := 0 to |es|
        invariant Valid() && !ready
        invariant Free() == BootFrames(es[..i]) && !Overlapping(es[..i])
      {
        panicked := FreeEntry(es, i);
        if panicked {
          Clash(es, i);
          return;
        }
      }
      assert es[..|es|] == es;
      ready := true;
      return false;
    }
  }

  ghost predicate Share(es: seq<Entry>, i: nat, j: nat)
    requires i < |es| && j < |es|
  {
    EntryFrames(es[i]) * EntryFrames(es[j]) != {}
  }

  // The next entry clashes with the frames already given back, or nothing changes.
  lemma Clash(es: seq<Entry>, i: nat)
    requires i < |es| && !Overlapping(es[..i])
    ensures Overlapping(es[..i + 1]) <==> BootFrames(es[..i]) * EntryFrames(es[i]) != {}
    ensures Overlapping(es[..i + 1]) ==> Overlapping(es)
  {
    var now := es[..i + 1];
    if n: nat :| n in BootFrames(es[..i]) && n in EntryFrames(es[i]) {
      BootFramesAre(es[..i], n);
      var k :| 0 <= k < i && n in EntryFrames(es[..i][k]);
      assert n in EntryFrames(now[k]) * EntryFrames(now[i]);
      assert Share(now, k, i);
    }
    if Overlapping(now) {
      var k: nat, j: nat :| k < j < |now| && Share(now, k, j);
      ClashWitness(es, i, k, j);
    }
  }

  lemma ClashWitness(es: seq<Entry>, i: nat, k: nat, j: nat)
    requires i < |es| && !Overlapping(es[..i])
    requires k < j < i + 1 && Share(es[..i + 1], k, j)
    ensures Overlapping(es) && BootFrames(es[..i]) * EntryFrames(es[i]) != {}
  {
    assert Share(es, k, j);
    if j < i {
      assert Share(es[..i], k, j);
    } else {
      var n :| n in EntryFrames(es[k]) && n in EntryFrames(es[i]);
      assert n in EntryFrames(es[..i][k]);
      BootFramesAre(es[..i], n);
      assert n in BootFrames(es[..i]) * EntryFrames(es[i]);
    }
  }

  // The 2 MB block lies strictly inside an available region.
  ghost predicate Inside(e: Entry, n: nat) {
    e.available && e.addr < n * 0x20_0000 && n * 0x20_0000 + 0x20_0000 < e.addr + e.len
  }

  // After a boot whose available regions are disjoint and below 64 GB: the free frames are exactly the aligned
  // 2 MB blocks from 1 GB up that lie strictly inside one available region.
  lemma BootedFree(es: seq<Entry>, n: nat)
    requires DisjointEntries(es)
    requires forall e :: e in es && e.available ==> e.addr + e.len <= MAXMEM
    ensures !Overlapping(es)
    ensures n in BootFrames(es) <==> n * 0x20_0000 >= 0x4000_0000 && exists e :: e in es && Inside(e, n)
  {
    DisjointEntriesBoot(es);
    BootFramesAre(es, n);
    forall e | e in es ensures n in EntryFrames(e) <==> n * HUGEPGSIZE >= KERNELTOP && Inside(e, n) {
      InsideIsInRange(e, n);
    }
    if e :| e in es && n in EntryFrames(e) {
      var i :| 0 <= i < |es| && es[i] == e;
      assert n in EntryFrames(es[i]);
    }
  }

  lemma InsideIsInRange(e: Entry, n: nat)
    requires e.available ==> e.addr + e.len <= MAXMEM
    ensures n in EntryFrames(e) <==> n * HUGEPGSIZE >= KERNELTOP && Inside(e, n)
  {
    if Inside(e, n) {
      assert n < HUGEFRAMES;
    }
  }
}
