/**
The buffer cache as one call sees it that runs without interruption: the two scans of bget
over the array, the read from the disk, and brelse.  It shares the machine's buffers and the
machine's notion of a hit and a victim (CacheModel), so the scans are the machine's steps,
and it may start in whatever state other threads left the cache (RunsAreSound).
*/
module SequentialCache {
  import opened Common
  import opened CacheModel
  import CacheProof
  import CacheTheorems

  // A call got its buffer, or went to sleep on its lock, or panicked.
  datatype Outcome = Got | Waits | Panicked

  // Some buffer can be recycled.
  predicate Room(bufs: seq<Buf>) { exists i :: 0 <= i < |bufs| && Recyclable(bufs[i]) }

  // A request for k finds a buffer, and the drive accepts it.
  predicate Serves(bufs: seq<Buf>, k: Key) {
    k.blockno < FSSIZE && (HasKey(bufs, k) || Room(bufs))
  }

  // Somebody has k's buffer locked.
  predicate Taken(bufs: seq<Buf>, k: Key) {
    exists i :: 0 <= i < |bufs| && bufs[i].key == k && bufs[i].locked
  }

  // A request for the sector succeeds at once.
  predicate Ready(bufs: seq<Buf>, n: nat) { Serves(bufs, Key(0, n)) && !Taken(bufs, Key(0, n)) }

  function Locked(b: Buf, t: nat): Buf { b.(locked := true, owner := t) }

  // The buffer as its next user finds it.
  predicate AtRest(b: Buf, disk: Disk) {
    !b.dirty && (b.valid ==> b.key.blockno < FSSIZE && b.data == Get(disk, DriveKey(b.key)))
  }

  // Buffers that nobody has locked are clean and, where valid, agree with the disk; locked
  // ones are referenced; keys are unique up to untouched copies.
  predicate Sound(bufs: seq<Buf>, disk: Disk) {
    && |bufs| == NBUF
    && (forall i :: 0 <= i < NBUF && !bufs[i].locked ==> AtRest(bufs[i], disk))
    && (forall i :: 0 <= i < NBUF && bufs[i].locked ==> bufs[i].refcnt > 0)
    && CacheProof.UniqueKeys(bufs)
  }

  class Cache {
    const buf: array<Buf>
    const disk: Disk

    ghost predicate Valid()
      reads buf
    {
      buf.Length == NBUF && Sound(buf[..], disk)
    }

    // After binit: every buffer zero.
    constructor (disk: Disk)
      ensures Valid() && fresh(buf) && this.disk == disk
      ensures forall i :: 0 <= i < NBUF ==> CacheTheorems.Zeroed(buf[i])
    {
      this.disk := disk;
      buf := new Buf[NBUF](_ => Buf(Key(0, 0), false, false, 0, Zeros(), false, 0, None, false));
    }

    // As a run of the machine left it.
    constructor Resume(s: State)
      requires Sound(s.bufs, s.disk)
      ensures Valid() && fresh(buf) && disk == s.disk && buf[..] == s.bufs
    {
      disk := s.disk;
      buf := new Buf[NBUF](i requires 0 <= i < NBUF => s.bufs[i]);
      new;
      assert buf[..] == s.bufs;
    }

    // The lowest buffer with the key, or else the lowest unreferenced clean one, referenced,
    // and locked unless somebody else has it: then the call waits, with its reference counted.
    method Bget(t: nat, k: Key) returns (i: nat, outcome: Outcome)
      requires Valid()
      modifies buf
      ensures outcome == Panicked <==> !HasKey(old(buf[..]), k) && !Room(old(buf[..]))
      ensures outcome == Waits <==> Taken(old(buf[..]), k)
      ensures outcome != Panicked ==> |old(buf[..])| == NBUF && i < NBUF
      ensures outcome != Panicked && HasKey(old(buf[..]), k) ==>
        old(buf[i]).key == k && forall j :: 0 <= j < i ==> old(buf[..])[j].key != k
      ensures outcome == Waits ==> buf[..] == old(buf[..])[i := old(buf[i]).(refcnt := old(buf[i]).refcnt + 1)]
      ensures outcome == Got && HasKey(old(buf[..]), k) ==>
        buf[..] == old(buf[..])[i := old(buf[i]).(refcnt := old(buf[i]).refcnt + 1, locked := true, owner := t)]
      ensures outcome == Got && !HasKey(old(buf[..]), k) ==>
        old(buf[i]).refcnt == 0 && !old(buf[i]).dirty
        && forall j :: 0 <= j < i ==> old(buf[..])[j].refcnt > 0 || old(buf[..])[j].dirty
      ensures outcome == Got && !HasKey(old(buf[..]), k) ==>
        buf[..] == old(buf[..])[i :=
          old(buf[i]).(key := k, valid := false, dirty := false, refcnt := 1, locked := true, owner := t)]
    {
      for j := 0 to NBUF
        invariant buf[..] == old(buf[..])
        invariant forall m :: 0 <= m < j ==> buf[m].key != k
      {
        if buf[j].key == k {
          assert old(buf[..])[j].key == k;
          HitDecides(buf[..], disk, k, j);
          buf[j] := buf[j].(refcnt := buf[j].refcnt + 1);
          if buf[j].locked {
            return j, Waits;
          }
          buf[j] := Locked(buf[j], t);
          return j, Got;
        }
      }
      assert !HasKey(old(buf[..]), k);
      for j := 0 to NBUF
        invariant buf[..] == old(buf[..])
        invariant forall m :: 0 <= m < j ==> !Recyclable(buf[m])
      {
        if buf[j].refcnt == 0 && !buf[j].dirty {
          assert Recyclable(old(buf[..])[j]);
          buf[j] := Recycled(buf[j], k);
          buf[j] := Locked(buf[j], t);
          return j, Got;
        }
      }
      return 0, Panicked;
    }

    // Whatever the cache held: a locked valid buffer for k with the disk's contents.
    method Bread(t: nat, k: Key) returns (i: nat, outcome: Outcome)
      requires Valid()
      modifies buf
      ensures outcome == Got <==> Serves(old(buf[..]), k) && !Taken(old(buf[..]), k)
      ensures outcome == Waits <==> Taken(old(buf[..]), k)
      ensures outcome == Waits ==> i < NBUF && buf.Length == NBUF && old(buf[i]).key == k && old(buf[i]).locked
      ensures outcome == Waits ==>
        buf[..] == old(buf[..])[i := old(buf[i]).(refcnt := old(buf[i]).refcnt + 1)]
      ensures outcome == Got ==> i < NBUF && buf.Length == NBUF && !old(buf[i]).locked
      ensures outcome == Got ==> buf[i].key == k && buf[i].locked && buf[i].owner == t && buf[i].valid && !buf[i].dirty
      ensures outcome == Got ==> buf[i].data == Get(disk, DriveKey(k))
      ensures outcome == Got ==> buf[i].refcnt == old(buf[i].refcnt) + 1
      ensures outcome == Got ==> IsHit(old(buf[..]), k, i) || (!HasKey(old(buf[..]), k) && Recyclable(old(buf[i])))
      ensures outcome == Got ==> buf[..] == old(buf[..])[i := buf[i]]
    {
      ghost var was := buf[..];
      i, outcome := Bget(t, k);
      if outcome == Waits { WaitsLocked(was, disk, k, i); }
      if outcome != Got {
        return;
      }
      GotUnlocked(was, disk, k, i);
      if !buf[i].valid {
        if buf[i].key.blockno >= FSSIZE {
          return i, Panicked;
        }
        buf[i] := buf[i].(data := Get(disk, DriveKey(buf[i].key)), valid := true, dirty := false);
      }
    }

    method Brelse(t: nat, i: nat)
      requires buf.Length == NBUF && i < NBUF && buf[i].locked && buf[i].owner == t && buf[i].refcnt > 0
      modifies buf
      ensures buf[..] == old(buf[..])[i := old(buf[i]).(locked := false, owner := -1, refcnt := old(buf[i]).refcnt - 1)]
    {
      buf[i] := buf[i].(locked := false, owner := -1);
      buf[i] := buf[i].(refcnt := buf[i].refcnt - 1);
    }

    // One whole read: the sector's bytes, every reference count as it was, and every later
    // request served exactly if it would have been served before.
    method ReadSector(t: nat, sector: nat) returns (bytes: Block, outcome: Outcome)
      requires Valid()
      modifies buf
      ensures outcome == Got <==> Ready(old(buf[..]), sector)
      ensures outcome == Waits <==> Taken(old(buf[..]), Key(0, sector))
      ensures outcome == Got ==> Valid() && bytes == Get(disk, Key(0, sector))
      ensures outcome == Got ==> SameCounts(old(buf[..]), buf[..])
      ensures outcome == Got ==> SameReady(old(buf[..]), buf[..])
    {
      ghost var was := buf[..];
      var i;
      i, outcome := Bread(t, Key(0, sector));
      if outcome != Got {
        return Zeros(), outcome;
      }
      bytes := buf[i].data;
      Brelse(t, i);
      ReadyAsBefore(was, buf[..], i, Key(0, sector));
      SoundAfterRead(was, buf[..], disk, i, Key(0, sector));
    }
  }

  // The same reference counts, and the same requests that succeed at once.
  predicate SameCounts(was: seq<Buf>, now: seq<Buf>) {
    |was| == |now| && forall j :: 0 <= j < |was| ==> now[j].refcnt == was[j].refcnt
  }

  ghost predicate SameReady(was: seq<Buf>, now: seq<Buf>) {
    forall n: nat :: Ready(now, n) <==> Ready(was, n)
  }

  // The first buffer with the key is the one that somebody could have locked.
  lemma HitDecides(bufs: seq<Buf>, disk: Disk, k: Key, i: nat)
    requires Sound(bufs, disk) && IsHit(bufs, k, i)
    ensures Taken(bufs, k) <==> bufs[i].locked
  {
    if j :| 0 <= j < |bufs| && bufs[j].key == k && bufs[j].locked {
      assert j == i || CacheProof.Untouched(bufs[j]);
    }
  }

  lemma WaitsLocked(bufs: seq<Buf>, disk: Disk, k: Key, i: nat)
    requires Sound(bufs, disk) && Taken(bufs, k) && IsHit(bufs, k, i)
    ensures bufs[i].locked
  {
    HitDecides(bufs, disk, k, i);
  }

  lemma GotUnlocked(bufs: seq<Buf>, disk: Disk, k: Key, i: nat)
    requires Sound(bufs, disk) && !Taken(bufs, k)
    requires if HasKey(bufs, k) then IsHit(bufs, k, i) else IsVictim(bufs, i)
    ensures !bufs[i].locked && AtRest(bufs[i], disk)
  {
  }

  // What reading k through buffer i and releasing it leaves.
  predicate ReadThrough(was: seq<Buf>, now: seq<Buf>, i: nat, k: Key) {
    && i < |was| == |now| && now == was[i := now[i]] && k.blockno < FSSIZE
    && now[i].key == k && now[i].refcnt == was[i].refcnt
    && !now[i].dirty && !was[i].dirty && !now[i].locked && !was[i].locked
    && (IsHit(was, k, i) || (!HasKey(was, k) && Recyclable(was[i])))
  }

  // It changes the cached keys only where there was room, and leaves room.
  lemma ReadyAsBefore(was: seq<Buf>, now: seq<Buf>, i: nat, k: Key)
    requires ReadThrough(was, now, i, k)
    ensures SameCounts(was, now) && SameReady(was, now)
  {
    assert forall j :: 0 <= j < |was| ==> (Recyclable(now[j]) <==> Recyclable(was[j]));
    assert forall j :: 0 <= j < |was| && j != i ==> now[j] == was[j];
    forall n: nat ensures Ready(now, n) <==> Ready(was, n) {
      ServesAsBefore(was, now, i, k, Key(0, n));
    }
  }

  lemma ServesAsBefore(was: seq<Buf>, now: seq<Buf>, i: nat, k: Key, m: Key)
    requires ReadThrough(was, now, i, k)
    ensures Serves(now, m) <==> Serves(was, m)
    ensures Taken(now, m) <==> Taken(was, m)
  {
    assert forall j :: 0 <= j < |was| ==> (Recyclable(now[j]) <==> Recyclable(was[j]));
    assert forall j :: 0 <= j < |was| && j != i ==> now[j] == was[j];
    if was[i].key == k {
      assert forall j :: 0 <= j < |was| ==> now[j].key == was[j].key;
    }
  }

  lemma SoundAfterRead(was: seq<Buf>, now: seq<Buf>, disk: Disk, i: nat, k: Key)
    requires Sound(was, disk) && ReadThrough(was, now, i, k)
    requires now[i].data == Get(disk, DriveKey(k))
    ensures Sound(now, disk)
  {
  }

  // In every state of every run of the concurrent machine the cache is sound, whatever
  // other threads are doing.
  lemma RunsAreSound(init: Disk, ss: seq<State>, acts: seq<Action>, j: nat)
    requires CacheTheorems.Run(init, ss, acts) && j < |ss|
    ensures Sound(ss[j].bufs, ss[j].disk)
  {
    CacheTheorems.RunInv(init, ss, acts, j);
    forall i | 0 <= i < NBUF
      ensures !ss[j].bufs[i].locked ==> AtRest(ss[j].bufs[i], ss[j].disk)
      ensures ss[j].bufs[i].locked ==> ss[j].bufs[i].refcnt > 0
    {
      assert CacheProof.BufOk(ss[j], i);
      CacheTheorems.GoodDriveKey(ss[j].bufs[i].key);
      if ss[j].bufs[i].locked { CacheTheorems.HeldIsReferenced(ss[j], i); }
    }
  }
}
