/**
What every interleaving of the buffer cache machine keeps.
*/
module CacheProof {
  import opened Common
  import opened CacheModel

  // ---------- reference counts ----------

  predicate PcPins(pc: Pc, i: nat) {
    (InWait(pc) && pc.w.OnLock? && pc.w.i == i) || pc == WakePending(i) || pc == Decr(i)
  }

  // How many of the references to buffer i belong to x: one for each buffer it
  // holds, one while it is between bget's increment and taking the lock, and one
  // while it is between releasing the lock and brelse's decrement.
  function Pins(x: Thread, i: nat): nat {
    (if i in x.held then 1 else 0) + (if PcPins(x.pc, i) then 1 else 0)
  }

  function SumPins(ts: seq<Thread>, i: nat): nat {
    if ts == [] then 0 else Pins(ts[0], i) + SumPins(ts[1..], i)
  }

  lemma {:induction false} SumPinsUpdate(ts: seq<Thread>, t: nat, x: Thread, i: nat)
    requires t < |ts|
    ensures SumPins(ts[t := x], i) == SumPins(ts, i) - Pins(ts[t], i) + Pins(x, i)
    ensures Pins(ts[t], i) <= SumPins(ts, i)
  {
    if t == 0 {
      assert ts[t := x][1..] == ts[1..];
    } else {
      assert ts[t := x][1..] == ts[1..][t - 1 := x];
      SumPinsUpdate(ts[1..], t - 1, x, i);
    }
  }

  lemma {:induction false} SumPinsWake(ts: seq<Thread>, ch: Chan, i: nat)
    ensures SumPins(WakeAll(ts, ch), i) == SumPins(ts, i)
  {
    if ts != [] {
      assert WakeAll(ts, ch)[1..] == WakeAll(ts[1..], ch);
      SumPinsWake(ts[1..], ch, i);
    }
  }

  // ---------- the invariant ----------

  predicate IoWait(pc: Pc, i: nat) { InWait(pc) && pc.w.OnIo? && pc.w.i == i }

  predicate Writing(pc: Pc, i: nat) {
    pc == Submit(i, true) || (IoWait(pc, i) && pc.w.writing)
  }

  // The pc is about buffer i, which the thread holds.
  predicate Busy1(pc: Pc, i: nat) {
    IoWait(pc, i) || (pc.Check? && pc.i == i) || (pc.Submit? && pc.i == i)
  }

  predicate BufOk(s: State, i: nat)
    requires i < |s.bufs|
  {
    var b := s.bufs[i];
    && GoodKey(b.key)
    && (b.locked ==> 0 <= b.owner < |s.threads| && i in s.threads[b.owner].held)
    && (b.changed ==> b.locked)
    && (b.dirty ==> b.locked && Writing(s.threads[b.owner].pc, i))
    && (b.inner.Some? ==> b.inner.value < |s.threads| && InSpin(s.threads[b.inner.value].pc)
                          && s.threads[b.inner.value].pc.w.OnLock? && s.threads[b.inner.value].pc.w.i == i)
    && (i in s.queue ==> b.locked && IoWait(s.threads[b.owner].pc, i) && !Synced(b))
    && (b.refcnt == 0 && !b.valid ==> b.key == Key(0, 0))
    && b.refcnt == SumPins(s.threads, i)
  }

  predicate SpinHeld(s: State, w: Wait, t: nat)
    requires w.i < |s.bufs|
  {
    match w
    case OnLock(i, _) => s.bufs[i].inner == Some(t)
    case OnIo(_, _) => s.ide == Some(t)
  }

  // The condition a sleeper tested under the spinlock is still false.
  predicate Blocked(b: Buf, w: Wait) {
    if w.OnLock? then b.locked else !Synced(b)
  }

  predicate WaitOk(s: State, t: nat, pc: Pc)
    requires |s.bufs| == NBUF && t < |s.threads| && InWait(pc)
  {
    var w := pc.w;
    && w.i < NBUF
    && (w.OnLock? ==> s.bufs[w.i].key == w.key)
    && (w.OnIo? ==>
          && w.i in s.threads[t].held
          && (w.i in s.queue || (Synced(s.bufs[w.i]) && !s.bufs[w.i].changed))
          && (w.i in s.queue ==> s.bufs[w.i].dirty == w.writing)
          && (!w.writing ==> !s.bufs[w.i].dirty && !s.bufs[w.i].changed))
    && (InSpin(pc) ==> SpinHeld(s, w, t))
    && (InSpin(pc) && !pc.Test? ==> Blocked(s.bufs[w.i], w))
    && s.threads[t].chan == (if pc.Enter? || pc.Test? || pc.SetChan? then None else Some(ChanOf(w)))
  }

  predicate PcOk(s: State, t: nat)
    requires |s.bufs| == NBUF && t < |s.threads|
  {
    var x := s.threads[t];
    if InWait(x.pc) then WaitOk(s, t, x.pc)
    else
      && x.chan == None
      && match x.pc
         case Check(i, k) => i in x.held && i < NBUF && s.bufs[i].key == k && !s.bufs[i].dirty
                             && !s.bufs[i].changed && i !in s.queue
         case Submit(i, w) => i in x.held && i < NBUF && i !in s.queue && s.bufs[i].dirty == w
                              && (!w ==> !s.bufs[i].valid && !s.bufs[i].changed)
         case Releasing(i) => i in x.held && i < NBUF && !s.bufs[i].changed
         case WakePending(i) => i < NBUF && s.bufs[i].valid
         case Decr(i) => i < NBUF && s.bufs[i].valid
         case _ => true
  }

  predicate ThreadOk(s: State, t: nat)
    requires |s.bufs| == NBUF && t < |s.threads|
  {
    var x := s.threads[t];
    && (forall i :: i in x.held ==> i < NBUF && s.bufs[i].locked && s.bufs[i].owner == t)
    && (forall i :: i in x.held && i < NBUF && !Busy1(x.pc, i) ==> Synced(s.bufs[i]))
    && PcOk(s, t)
  }

  predicate Shape(s: State) {
    && |s.bufs| == NBUF
    && (forall j :: 0 <= j < |s.queue| ==> s.queue[j] < NBUF)
    && (forall i, j :: 0 <= i < j < |s.queue| ==> s.queue[i] != s.queue[j])
    && s.entryCount == 2 * |s.queue|
    && (s.ide.Some? ==> s.ide.value < |s.threads| && InSpin(s.threads[s.ide.value].pc)
                        && s.threads[s.ide.value].pc.w.OnIo?)
  }

  // The drive works on the head of the queue, and on nothing when it is empty.
  predicate DriveOk(s: State)
    requires Shape(s)
  {
    if s.queue == [] then s.drive == Idle
    else
      var b := s.bufs[s.queue[0]];
      && !s.drive.Idle?
      && s.drive.cmd.key == DriveKey(b.key)
      && s.drive.cmd.writing == b.dirty
      && (s.drive.Busy? && b.dirty ==> s.drive.cmd.payload == b.data)
      && (s.drive.Done? && b.dirty ==> Get(s.disk, DriveKey(b.key)) == b.data)
      && (s.drive.Done? && !b.dirty ==> s.drive.cmd.payload == Get(s.disk, DriveKey(b.key)))
  }

  predicate Untouched(b: Buf) { b.refcnt == 0 && !b.valid && b.key == Key(0, 0) }

  // Two buffers share a key only when the higher one was never used.
  predicate UniqueKeys(bufs: seq<Buf>) {
    forall i, j :: 0 <= i < j < |bufs| && bufs[i].key == bufs[j].key ==> Untouched(bufs[j])
  }

  predicate Coherent(s: State) {
    forall i :: 0 <= i < |s.bufs| && Synced(s.bufs[i]) && !s.bufs[i].changed
      ==> s.bufs[i].data == Get(s.disk, s.bufs[i].key)
  }

  // The contents of a block as the completed bwrites left it.
  function LastWritten(log: seq<Event>, init: Disk, k: Key): Block {
    if log == [] then Get(init, k)
    else
      var e := log[|log| - 1];
      if e.BwriteReturn? && e.key == k then e.data else LastWritten(log[..|log| - 1], init, k)
  }

  predicate LogOk(log: seq<Event>, init: Disk) {
    forall p :: 0 <= p < |log| && log[p].BreadReturn? ==>
      log[p].data == LastWritten(log[..p], init, log[p].key)
  }

  // The holder of buffer i is inside bwrite.
  predicate Writer(s: State, i: nat)
    requires i < |s.bufs|
  {
    s.bufs[i].locked && 0 <= s.bufs[i].owner < |s.threads| && Writing(s.threads[s.bufs[i].owner].pc, i)
  }

  predicate WriteInFlight(s: State, k: Key)
    requires |s.bufs| == NBUF
  {
    exists i :: 0 <= i < NBUF && s.bufs[i].key == k && Writer(s, i)
  }

  ghost predicate DiskOk(s: State, init: Disk)
    requires |s.bufs| == NBUF
  {
    forall k: Key :: GoodKey(k) ==>
      Get(s.disk, k) == LastWritten(s.log, init, k) || WriteInFlight(s, k)
  }

  predicate SomeWaker(s: State, i: nat) {
    exists u :: 0 <= u < |s.threads| && s.threads[u].pc == WakePending(i)
  }

  // x is recorded asleep on ch, with no wakeup yet, outside ThreadSleep's locked window.
  predicate RecordedAsleep(x: Thread, ch: Chan) {
    x.asleep && x.chan == Some(ch) && !x.canWake && !InSpin(x.pc)
  }

  predicate NoLostWakeup(s: State)
    requires |s.bufs| == NBUF
  {
    && (forall t, i :: 0 <= t < |s.threads| && 0 <= i < NBUF && RecordedAsleep(s.threads[t], BufChan(i))
          ==> i in s.queue)
    && (forall t, i :: 0 <= t < |s.threads| && 0 <= i < NBUF && RecordedAsleep(s.threads[t], LockChan(i))
          ==> s.bufs[i].locked || SomeWaker(s, i))
  }

  predicate Core(s: State) {
    && Shape(s)
    && (forall i :: 0 <= i < NBUF ==> BufOk(s, i))
    && (forall t :: 0 <= t < |s.threads| ==> ThreadOk(s, t))
    && UniqueKeys(s.bufs)
  }

  ghost predicate Inv(s: State, init: Disk) {
    && Core(s)
    && DriveOk(s)
    && Coherent(s)
    && NoLostWakeup(s)
    && DiskOk(s, init)
    && LogOk(s.log, init)
  }
}
