/**
Where ext2 blocks and inodes lie on the disk, and reading them through the buffer cache.
The partition starts at sector 2048; sector and offset arithmetic is 32 bits wide.
*/
module Ext2 {
  import opened Common
  import opened CacheModel
  import opened SequentialCache
  import CacheProof
  import CacheTheorems

  const DEVICE_START: nat := 2048
  const WORD: nat := 0x1_0000_0000   // 2^32
  const INODE: nat := 128            // size of ext2_inode_t

  // The driver's fields that place blocks and inodes.
  datatype Driver = Driver(log2: nat, inodesPerGroup: nat, inodeSize: nat, inodeTable: seq<nat>)

  function BlockSize(d: Driver): (bs: nat)
    ensures bs > 0
  {
    1024 * Pow2(d.log2)
  }

  // uint32 shift left.
  function Shl(x: nat, k: nat): nat { (x * Pow2(k)) % WORD }

  function OffsetToSector(offset: nat): nat { DEVICE_START + offset / SECTOR }

  // ext2_block_to_disk_sector
  function BlockToSector(d: Driver, block: nat): nat {
    OffsetToSector(Shl(Shl(block, d.log2), 10))
  }

  // ---------- the partition as bytes ----------

  function PartitionByte(disk: Disk, p: nat): bv8
  {
    Get(disk, Key(0, DEVICE_START + p / SECTOR))[p % SECTOR]
  }

  function PartitionBytes(disk: Disk, p: nat, n: nat): (bytes: Bytes)
    ensures |bytes| == n
  {
    seq(n, x requires 0 <= x < n => PartitionByte(disk, p + x))
  }

  lemma WholeSector(disk: Disk, m: nat)
    ensures PartitionBytes(disk, m * SECTOR, SECTOR) == Get(disk, Key(0, DEVICE_START + m))
  {
    var bytes := PartitionBytes(disk, m * SECTOR, SECTOR);
    forall x | 0 <= x < |bytes| ensures bytes[x] == Get(disk, Key(0, DEVICE_START + m))[x] {
      assert (m * SECTOR + x) / SECTOR == m && (m * SECTOR + x) % SECTOR == x;
      assert bytes[x] == PartitionByte(disk, m * SECTOR + x);
    }
  }

  lemma BytesJoin(disk: Disk, p: nat, m: nat, n: nat)
    ensures PartitionBytes(disk, p, m) + PartitionBytes(disk, p + m, n) == PartitionBytes(disk, p, m + n)
  {}

  lemma BytesWithin(disk: Disk, p: nat, n: nat, i: nat, j: nat)
    requires i <= j <= n
    ensures PartitionBytes(disk, p, n)[i..j] == PartitionBytes(disk, p + i, j - i)
  {}

  // ---------- blocks ----------

  // Shifting twice in 32 bits is one product in 32 bits.
  lemma ShiftsAreProduct(d: Driver, block: nat)
    ensures Shl(Shl(block, d.log2), 10) == (block * BlockSize(d)) % WORD
  {
    var x := block * Pow2(d.log2);
    assert Pow2(10) == 1024 by {
      assert Pow2(5) == 32;
    }
    assert block * BlockSize(d) == 1024 * x;
    assert x == x % WORD + WORD * (x / WORD);
    ModShift(1024 * (x % WORD), 1024 * (x / WORD));
  }

  lemma ModShift(a: nat, q: nat)
    ensures (a + q * WORD) % WORD == a % WORD
  {}

  lemma BlockSectors(d: Driver, block: nat) returns (n: nat)
    ensures n > 0 && BlockSize(d) == n * SECTOR && BlockSize(d) / SECTOR == n
    ensures block * BlockSize(d) == (block * n) * SECTOR
  {
    n := 2 * Pow2(d.log2);
    Exchange(block, n, SECTOR);
  }

  lemma Exchange(a: nat, b: nat, c: nat)
    ensures a * (b * c) == (a * b) * c
  {}

  // The sector of a block is the right one exactly when the block starts below 4 GB; beyond,
  // the computation wraps around to a sector nearer the start of the partition.
  lemma BlockSectorIff(d: Driver, block: nat)
    ensures BlockToSector(d, block) == 2048 + block * (1024 * Pow2(d.log2)) / 512 <==>
      block * (1024 * Pow2(d.log2)) < 0x1_0000_0000
  {
    ShiftsAreProduct(d, block);
    var n := BlockSectors(d, block);
    WrappedSector(block * n);
  }

  // Offsets of whole sectors: the wrapped one is in the same sector only if it did not wrap.
  lemma WrappedSector(m: nat)
    ensures 2048 + m * SECTOR % WORD / SECTOR == 2048 + m * SECTOR / 512 <==> m * SECTOR < 0x1_0000_0000
  {
    var x := m * SECTOR;
    if x >= WORD {
      assert x % WORD <= x - WORD;
    }
  }

  // For instance block 2^22 of 1024 bytes is read where block 0 is.
  lemma FarBlockAliases()
    ensures var d := Driver(0, 1, 128, []);
      BlockToSector(d, 0x40_0000) == BlockToSector(d, 0) == DEVICE_START
  {
    var d := Driver(0, 1, 128, []);
    ShiftsAreProduct(d, 0x40_0000);
    ShiftsAreProduct(d, 0);
    assert BlockSize(d) == 1024;
  }

  lemma BlockStartsAt(d: Driver, block: nat)
    requires block * BlockSize(d) < WORD
    ensures BlockToSector(d, block) == DEVICE_START + block * (BlockSize(d) / SECTOR)
  {
    BlockSectorIff(d, block);
    var n := BlockSectors(d, block);
    var m := block * n;
    assert (m * SECTOR) / SECTOR == m;
  }

  // Blocks of one partition do not share sectors.
  lemma BlocksDisjoint(d: Driver, b: nat, c: nat, j: nat, k: nat)
    requires b * BlockSize(d) < WORD && c * BlockSize(d) < WORD
    requires j < BlockSize(d) / SECTOR && k < BlockSize(d) / SECTOR
    requires BlockToSector(d, b) + j == BlockToSector(d, c) + k
    ensures b == c && j == k
  {
    BlockStartsAt(d, b);
    BlockStartsAt(d, c);
    Digits(b, j, c, k, BlockSize(d) / SECTOR);
  }

  // ---------- inodes ----------

  ghost predicate HasInode(d: Driver, inode: nat) {
    1 <= inode && d.inodesPerGroup > 0 && (inode - 1) / d.inodesPerGroup < |d.inodeTable|
  }

  function InodeGroup(d: Driver, inode: nat): nat
    requires 1 <= inode && d.inodesPerGroup > 0
  {
    (inode - 1) / d.inodesPerGroup
  }

  function InodeIndex(d: Driver, inode: nat): nat
    requires 1 <= inode && d.inodesPerGroup > 0
  {
    (inode - 1) % d.inodesPerGroup
  }

  function TableOffset(d: Driver, inode: nat): nat
    requires 1 <= inode && d.inodesPerGroup > 0
  {
    InodeIndex(d, inode) * d.inodeSize
  }

  function Quotient(x: nat, n: nat): nat
    requires n > 0
  {
    x / n
  }

  function Rest(x: nat, n: nat): (r: nat)
    requires n > 0
    ensures r < n && x == Quotient(x, n) * n + r
  {
    x % n
  }

  // Where "Locating an Inode" puts it: in bytes from the start of the partition.
  function InodePlace(d: Driver, inode: nat): nat
    requires HasInode(d, inode)
  {
    d.inodeTable[InodeGroup(d, inode)] * BlockSize(d) + TableOffset(d, inode)
  }

  // uint32 product and sum.
  function Mul32(x: nat, y: nat): nat { (x * y) % WORD }

  function Add32(x: nat, y: nat): nat { (x + y) % WORD }

  // Slot x of group g's inode table, in bytes from the start of the partition.
  function SlotPlace(d: Driver, g: nat, x: nat): nat
    requires g < |d.inodeTable|
  {
    d.inodeTable[g] * (1024 * Pow2(d.log2)) + x * d.inodeSize
  }

  // Inodes are numbered from 1, group by group: the place of an inode is that of its slot.
  lemma InodeAtSlot(d: Driver, g: nat, x: nat)
    requires g < |d.inodeTable| && x < d.inodesPerGroup
    ensures HasInode(d, g * d.inodesPerGroup + x + 1)
    ensures InodePlace(d, g * d.inodesPerGroup + x + 1) == SlotPlace(d, g, x)
  {
    var inode := g * d.inodesPerGroup + x + 1;
    var q, r := Quotient(inode - 1, d.inodesPerGroup), Rest(inode - 1, d.inodesPerGroup);
    Digits(q, r, g, x, d.inodesPerGroup);
  }

  // ext2_GetInodeOffset
  function InodeOffset(d: Driver, inode: nat): nat
    requires HasInode(d, inode)
  {
    Add32(Mul32(BlockSize(d), d.inodeTable[InodeGroup(d, inode)]), Mul32(InodeIndex(d, inode), d.inodeSize))
  }

  lemma SumWraps(x: nat, y: nat)
    ensures Add32(x % WORD, y % WORD) == (x + y) % WORD
  {
    var q := x / WORD + y / WORD;
    assert x + y == (x % WORD + y % WORD) + q * WORD;
    ModShift(x % WORD + y % WORD, q);
  }

  // The 32-bit products and their 32-bit sum are the inode's place modulo 2^32, hence the
  // place exactly when that lies below 4 GB.
  lemma InodeOffsetIff(d: Driver, inode: nat)
    requires HasInode(d, inode)
    ensures InodeOffset(d, inode) == InodePlace(d, inode) % WORD
    ensures InodeOffset(d, inode) == InodePlace(d, inode) <==> InodePlace(d, inode) < WORD
  {
    var table := d.inodeTable[InodeGroup(d, inode)];
    Swap(BlockSize(d), table);
    SumWraps(table * BlockSize(d), TableOffset(d, inode));
    BelowWord(InodePlace(d, inode));
  }

  // For instance the first inode of a group whose table starts at 4 GB is read from the start
  // of the partition.
  lemma FarInodeAliases()
    ensures var d := Driver(0, 8, 128, [0x40_0000]);
      HasInode(d, 1) && InodePlace(d, 1) == WORD && InodeOffset(d, 1) == 0
  {
    var d := Driver(0, 8, 128, [0x40_0000]);
    assert BlockSize(d) == 1024;
    assert InodeGroup(d, 1) == 0 && InodeIndex(d, 1) == 0;
    InodeOffsetIff(d, 1);
  }

  lemma Swap(x: nat, y: nat)
    ensures x * y == y * x
  {}

  lemma BelowWord(x: nat)
    ensures x % WORD == x <==> x < WORD
  {}

  // The offset inside its sector: a 128-byte slot that ends inside the sector.
  lemma InodeInSector(d: Driver, inode: nat)
    requires HasInode(d, inode) && d.inodeSize % INODE == 0
    ensures Mul32(InodeIndex(d, inode), d.inodeSize) % SECTOR == InodeOffset(d, inode) % SECTOR
    ensures InodeOffset(d, inode) % SECTOR + INODE <= SECTOR
  {
    var x := TableOffset(d, inode);
    var base := d.inodeTable[InodeGroup(d, inode)];
    var n := BlockSectors(d, base);
    InodeOffsetIff(d, inode);
    SameInSector(base * n, x);
    SameInSector(0, x);
    Multiple(InodeIndex(d, inode), d.inodeSize);
    SlotInSector(x);
  }

  lemma SlotInSector(x: nat)
    requires x % INODE == 0
    ensures x % SECTOR + INODE <= SECTOR
  {}

  lemma SameInSector(m: nat, x: nat)
    ensures ((m * SECTOR + x) % WORD) % SECTOR == x % SECTOR
  {
    var y := m * SECTOR + x;
    assert y % WORD == y - (y / WORD) * WORD;
  }

  lemma Multiple(i: nat, size: nat)
    requires size % INODE == 0
    ensures (i * size) % INODE == 0
  {
    var q := size / INODE;
    assert i * size == (i * q) * INODE;
  }

  // The textbook way: the block that contains the inode, and where it starts in there.
  function InodeBlock(d: Driver, inode: nat): nat
    requires HasInode(d, inode)
  {
    d.inodeTable[InodeGroup(d, inode)] + Quotient(TableOffset(d, inode), BlockSize(d))
  }

  function InodeStart(d: Driver, inode: nat): nat
    requires HasInode(d, inode)
  {
    Rest(TableOffset(d, inode), BlockSize(d))
  }

  // An inode whose size divides the block size lies inside that one block.
  lemma InodeFitsBlock(d: Driver, inode: nat)
    requires HasInode(d, inode) && d.inodeSize > 0 && BlockSize(d) % d.inodeSize == 0
    ensures InodeStart(d, inode) + d.inodeSize <= BlockSize(d)
    ensures InodePlace(d, inode) == InodeBlock(d, inode) * BlockSize(d) + InodeStart(d, inode)
  {
    SlotsFit(InodeIndex(d, inode), d.inodeSize, BlockSize(d));
    BlockAndRest(d.inodeTable[InodeGroup(d, inode)], TableOffset(d, inode), BlockSize(d));
  }

  lemma InodeInBlock(d: Driver, inode: nat, disk: Disk)
    requires HasInode(d, inode)
    requires d.inodeSize >= INODE && BlockSize(d) % d.inodeSize == 0
    ensures InodeStart(d, inode) + INODE <= BlockSize(d)
    ensures PartitionBytes(disk, InodePlace(d, inode), INODE)
      == BlockBytes(disk, d, InodeBlock(d, inode))[InodeStart(d, inode)..][..INODE]
  {
    InodeFitsBlock(d, inode);
    BytesWithin(disk, InodeBlock(d, inode) * BlockSize(d), BlockSize(d), InodeStart(d, inode), InodeStart(d, inode) + INODE);
  }

  function BlockBytes(disk: Disk, d: Driver, block: nat): (bytes: Bytes)
    ensures |bytes| == BlockSize(d)
  {
    PartitionBytes(disk, block * BlockSize(d), BlockSize(d))
  }

  lemma BlockAndRest(base: nat, x: nat, bs: nat)
    requires bs > 0
    ensures base * bs + x == (base + Quotient(x, bs)) * bs + Rest(x, bs)
  {}

  lemma SlotsFit(i: nat, size: nat, bs: nat)
    requires size > 0 && bs > 0 && bs % size == 0
    ensures Rest(i * size, bs) + size <= bs
  {
    var n := Quotient(bs, size);
    assert bs == n * size + Rest(bs, size);
    var q, r := Quotient(i, n), Rest(i, n);
    Regroup(i, q, n, r, size);
    Ordered(r, n, size);
    Digits(Quotient(i * size, bs), Rest(i * size, bs), q, r * size, bs);
  }

  lemma Regroup(i: nat, q: nat, n: nat, r: nat, size: nat)
    requires i == q * n + r
    ensures i * size == q * (n * size) + r * size
  {}

  lemma Ordered(b: nat, c: nat, n: nat)
    requires b < c
    ensures b * n + n <= c * n
  {
    assert (b + 1) * n <= c * n;
  }

  // Digits to base n.
  lemma Digits(b: nat, j: nat, c: nat, k: nat, n: nat)
    requires j < n && k < n && b * n + j == c * n + k
    ensures b == c && j == k
  {
    if b < c {
      Ordered(b, c, n);
    } else if c < b {
      Ordered(c, b, n);
    }
  }

  // ---------- reading through the cache ----------

  // Every sector of the block can be had at once.
  ghost predicate ReadyBlock(bufs: seq<Buf>, d: Driver, block: nat) {
    ReadyRun(bufs, BlockToSector(d, block), BlockSize(d) / SECTOR)
  }

  ghost predicate ReadyRun(bufs: seq<Buf>, first: nat, n: nat) {
    forall m: nat :: first <= m < first + n ==> Ready(bufs, m)
  }

  // The block's first sector, counted from the start of the partition, and its length.
  lemma BlockStart(d: Driver, block: nat) returns (start: nat, n: nat)
    ensures BlockToSector(d, block) == DEVICE_START + start && BlockSize(d) / SECTOR == n
    ensures start * SECTOR == (block * BlockSize(d)) % WORD && n * SECTOR == BlockSize(d)
    ensures block * BlockSize(d) < WORD ==> start * SECTOR == block * BlockSize(d)
  {
    ShiftsAreProduct(d, block);
    n := BlockSectors(d, block);
    SameInSector(block * n, 0);
    start := (block * BlockSize(d)) % WORD / SECTOR;
  }

  // ext2_read_block: the block's bytes, whatever the cache held, and the reference counts
  // as they were.  It succeeds exactly when every sector can be had at once; otherwise it
  // waits or panics at one that cannot.
  method ReadBlock(c: Cache, d: Driver, t: nat, block: nat) returns (out: Bytes, outcome: Outcome)
    requires c.Valid()
    modifies c.buf
    ensures outcome == Got <==> ReadyBlock(old(c.buf[..]), d, block)
    ensures outcome == Got ==> c.Valid() && SameCounts(old(c.buf[..]), c.buf[..])
    ensures outcome == Got ==> out == PartitionBytes(c.disk, (block * BlockSize(d)) % WORD, BlockSize(d))
    ensures outcome == Got && block * BlockSize(d) < WORD ==> out == BlockBytes(c.disk, d, block)
  {
    out, outcome := [], Got;
    var sector := BlockToSector(d, block);
    var n := BlockSize(d) / SECTOR;
    ghost var start, count := BlockStart(d, block);
    var j := 0;
    while j < n
      invariant 0 <= j <= n && sector == DEVICE_START + start + j && n == count && outcome == Got
      invariant c.Valid() && SameCounts(old(c.buf[..]), c.buf[..]) && SameReady(old(c.buf[..]), c.buf[..])
      invariant ReadyRun(old(c.buf[..]), DEVICE_START + start, j)
      invariant out == PartitionBytes(c.disk, start * SECTOR, j * SECTOR)
    {
      var bytes;
      bytes, outcome := c.ReadSector(t, sector);
      if outcome != Got {
        assert !Ready(old(c.buf[..]), sector);
        return;
      }
      SectorAppended(c.disk, start, j);
      out := out + bytes;
      sector := sector + 1;
      j := j + 1;
    }
  }

  lemma SectorAppended(disk: Disk, start: nat, j: nat)
    ensures PartitionBytes(disk, start * SECTOR, j * SECTOR) + Get(disk, Key(0, DEVICE_START + start + j))
      == PartitionBytes(disk, start * SECTOR, (j + 1) * SECTOR)
  {
    var p, q := start * SECTOR, j * SECTOR;
    Distribute(start, j);
    Distribute(j, 1);
    WholeSector(disk, start + j);
    BytesJoin(disk, p, q, SECTOR);
  }

  lemma Distribute(a: nat, b: nat)
    ensures (a + b) * SECTOR == a * SECTOR + b * SECTOR
  {}

  // ext2_read_inode: the 128 bytes at the inode's offset.
  method ReadInode(c: Cache, d: Driver, t: nat, inode: nat) returns (out: Bytes, outcome: Outcome)
    requires c.Valid()
    requires HasInode(d, inode) && d.inodeSize % INODE == 0
    modifies c.buf
    ensures outcome == Got <==> Ready(old(c.buf[..]), OffsetToSector(InodeOffset(d, inode)))
    ensures outcome == Got ==> c.Valid() && SameCounts(old(c.buf[..]), c.buf[..])
    ensures outcome == Got ==> out == PartitionBytes(c.disk, InodeOffset(d, inode), 128)
    ensures outcome == Got ==> forall g: nat, x: nat {:trigger SlotPlace(d, g, x)} ::
      g < |d.inodeTable| && x < d.inodesPerGroup && inode == g * d.inodesPerGroup + x + 1 ==>
        out == PartitionBytes(c.disk, SlotPlace(d, g, x) % 0x1_0000_0000, 128)
  {
    var index := InodeIndex(d, inode);
    var offset := InodeOffset(d, inode);
    var raw := offset - offset % SECTOR;
    SectorOf(offset);
    var b2;
    b2, outcome := c.ReadSector(t, OffsetToSector(raw));
    if outcome != Got {
      return [], outcome;
    }
    var at := Mul32(index, d.inodeSize) % SECTOR;
    InodeInSector(d, inode);
    SliceOfSector(c.disk, offset, at);
    out := b2[at..at + INODE];
    forall g: nat, x: nat {:trigger SlotPlace(d, g, x)}
      | g < |d.inodeTable| && x < d.inodesPerGroup && inode == g * d.inodesPerGroup + x + 1
      ensures offset == SlotPlace(d, g, x) % WORD
    {
      InodeAtSlot(d, g, x);
      InodeOffsetIff(d, inode);
    }
  }

  lemma SectorOf(offset: nat)
    ensures OffsetToSector(offset - offset % SECTOR) == OffsetToSector(offset)
  {}

  lemma SliceOfSector(disk: Disk, offset: nat, at: nat)
    requires at == offset % SECTOR && at + INODE <= SECTOR
    ensures Get(disk, Key(0, OffsetToSector(offset)))[at..at + INODE] == PartitionBytes(disk, offset, INODE)
  {
    var m := offset / SECTOR;
    assert offset == m * SECTOR + at;
    WholeSector(disk, m);
    BytesWithin(disk, m * SECTOR, SECTOR, at, at + INODE);
  }

  // ---------- reading a block while other threads use the cache ----------

  // The event at position p is bread's return with sector n.
  predicate Returned(log: seq<Event>, p: nat, n: nat) {
    p < |log| && log[p].BreadReturn? && log[p].key == Key(0, n)
  }

  // ps are the positions, in order, at which bread returned the sectors from `first` on.
  predicate SectorReads(log: seq<Event>, first: nat, ps: seq<nat>) {
    && (forall x :: 0 <= x < |ps| ==> Returned(log, ps[x], first + x))
    && forall x :: 0 < x < |ps| ==> ps[0] <= ps[x] <= ps[|ps| - 1]
  }

  // No bwrite of one of these sectors completes between the first return and the last.
  predicate Undisturbed(log: seq<Event>, first: nat, ps: seq<nat>) {
    |ps| > 0 ==>
      forall q :: ps[0] <= q < ps[|ps| - 1] && q < |log| && log[q].BwriteReturn? && log[q].key.dev == 0 ==>
        !(first <= log[q].key.blockno < first + |ps|)
  }

  // The data that the returns carry, one after the other.
  function Joined(log: seq<Event>, ps: seq<nat>): Bytes
    requires forall x :: 0 <= x < |ps| ==> ps[x] < |log|
  {
    if ps == [] then [] else Joined(log, ps[..|ps| - 1]) + log[ps[|ps| - 1]].data
  }

  lemma {:induction false} LastWrittenStays(log: seq<Event>, init: Disk, k: Key, a: nat, b: nat)
    requires a <= b <= |log|
    requires forall q :: a <= q < b && log[q].BwriteReturn? ==> log[q].key != k
    ensures CacheProof.LastWritten(log[..b], init, k) == CacheProof.LastWritten(log[..a], init, k)
  {
    if a < b {
      assert log[..b][..b - 1] == log[..b - 1];
      LastWrittenStays(log, init, k, a, b - 1);
    }
  }

  // One of the returns carries the sector as it was last written before the first of them.
  lemma ReturnIsSnapshot(init: Disk, ss: seq<State>, acts: seq<Action>, j: nat, first: nat, ps: seq<nat>, x: nat)
    requires CacheTheorems.Run(init, ss, acts) && j < |ss| && x < |ps|
    requires SectorReads(ss[j].log, first, ps) && Undisturbed(ss[j].log, first, ps)
    ensures ps[x] < |ss[j].log| && ps[0] <= |ss[j].log|
    ensures ss[j].log[ps[x]].data == CacheProof.LastWritten(ss[j].log[..ps[0]], init, Key(0, first + x))
  {
    assert Returned(ss[j].log, ps[0], first) && Returned(ss[j].log, ps[x], first + x);
    CacheTheorems.ReadsSeeLastWrite(init, ss, acts, j, ps[x]);
    LastWrittenStays(ss[j].log, init, Key(0, first + x), ps[0], ps[x]);
  }

  // The disk as the completed bwrites of the log leave it.
  function Replayed(log: seq<Event>, init: Disk): Disk {
    if log == [] then init
    else
      var e, disk := log[|log| - 1], Replayed(log[..|log| - 1], init);
      if e.BwriteReturn? then disk[e.key := e.data] else disk
  }

  lemma {:induction false} ReplayedIsLastWritten(log: seq<Event>, init: Disk, k: Key)
    ensures Get(Replayed(log, init), k) == CacheProof.LastWritten(log, init, k)
  {
    if log != [] {
      ReplayedIsLastWritten(log[..|log| - 1], init, k);
    }
  }

  lemma {:induction false} JoinedIsSnapshot(init: Disk, ss: seq<State>, acts: seq<Action>, j: nat, start: nat,
                                            ps: seq<nat>, n: nat)
    requires CacheTheorems.Run(init, ss, acts) && j < |ss| && 0 < n <= |ps|
    requires SectorReads(ss[j].log, DEVICE_START + start, ps) && Undisturbed(ss[j].log, DEVICE_START + start, ps)
    ensures forall x :: 0 <= x < n ==> ps[x] < |ss[j].log|
    ensures Joined(ss[j].log, ps[..n])
      == PartitionBytes(Replayed(ss[j].log[..ps[0]], init), start * SECTOR, n * SECTOR)
  {
    assert ps[..n][..n - 1] == ps[..n - 1];
    ReturnIsSnapshot(init, ss, acts, j, DEVICE_START + start, ps, n - 1);
    ReplayedIsLastWritten(ss[j].log[..ps[0]], init, Key(0, DEVICE_START + start + n - 1));
    if n > 1 {
      JoinedIsSnapshot(init, ss, acts, j, start, ps, n - 1);
    } else {
      assert ps[..0] == [];
    }
    SectorAppended(Replayed(ss[j].log[..ps[0]], init), start, n - 1);
  }

  // In every run, with any number of threads: the sector reads of one ext2_read_block give the
  // block as the bwrites completed before the first of them left it, if no bwrite of its
  // sectors completes between the first and the last.
  lemma ConcurrentReadIsSnapshot(init: Disk, ss: seq<State>, acts: seq<Action>, j: nat, d: Driver, block: nat, ps: seq<nat>)
    requires CacheTheorems.Run(init, ss, acts) && j < |ss|
    requires |ps| == BlockSize(d) / SECTOR && block * BlockSize(d) < WORD
    requires SectorReads(ss[j].log, BlockToSector(d, block), ps) && Undisturbed(ss[j].log, BlockToSector(d, block), ps)
    ensures |ps| > 0 && forall x :: 0 <= x < |ps| ==> ps[x] < |ss[j].log|
    ensures Joined(ss[j].log, ps) == BlockBytes(Replayed(ss[j].log[..ps[0]], init), d, block)
  {
    var start, n := BlockStart(d, block);
    JoinedIsSnapshot(init, ss, acts, j, start, ps, n);
    assert ps[..n] == ps;
  }
}
