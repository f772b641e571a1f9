/**
Coherence, unique keys, pinning and no lost wakeup, over whole runs.
*/
module CacheTheorems {
  import opened Common
  import opened CacheModel
  import opened CacheProof
  import opened CacheSteps

  lemma StepCore(s: State, a: Action, s': State)
    requires Core(s) && Step(s, a, s')
    ensures Core(s')
  {
    match a
    case BgetHit(t, i, k) => BgetHitCore(s, t, i, k, s');
    case BgetRecycle(t, i, k) => BgetRecycleCore(s, t, i, k, s');
    case TakeSpin(t) => TakeSpinCore(s, t, s');
    case TestLock(t) => TestLockCore(s, t, s');
    case TestIo(t) => TestIoCore(s, t, s');
    case SleepWrite(t) => SleepWriteCore(s, t, s');
    case SleepUnlock(t) => SleepUnlockCore(s, t, s');
    case SleepReturn(t) => SleepReturnCore(s, t, s');
    case Reschedule(t) => RescheduleCore(s, t, s');
    case CheckValid(t) => CheckValidCore(s, t, s');
    case Modify(t, i, d) => ModifyCore(s, t, i, d, s');
    case Bwrite(t, i) => BwriteCore(s, t, i, s');
    case Enqueue(t) => EnqueueCore(s, t, s');
    case Brelse(t, i) => BrelseCore(s, t, i, s');
    case ClearLock(t) => ClearLockCore(s, t, s');
    case DoWakeup(t) => DoWakeupCore(s, t, s');
    case DecrRef(t) => DecrRefCore(s, t, s');
    case DriveWorks => DriveWorksCore(s, s');
    case Interrupt => InterruptCore(s, s');
  }

  // Some proofs about all steps go over them in two halves.
  predicate Early(a: Action) {
    a.BgetHit? || a.BgetRecycle? || a.TakeSpin? || a.TestLock? || a.TestIo? || a.SleepWrite? || a.SleepUnlock?
  }

  // ---------- the drive and the cached data ----------

  predicate SameView(b: Buf, b': Buf) {
    b'.key == b.key && b'.valid == b.valid && b'.dirty == b.dirty && b'.data == b.data && b'.changed == b.changed
  }

  predicate SameData(s: State, s': State) {
    && |s.bufs| == |s'.bufs| && s'.queue == s.queue && s'.drive == s.drive && s'.disk == s.disk
    && forall i :: 0 <= i < |s.bufs| ==> SameView(s.bufs[i], s'.bufs[i])
  }

  lemma DataFrame(s: State, s': State)
    requires Shape(s) && Shape(s') && SameData(s, s') && DriveOk(s) && Coherent(s)
    ensures DriveOk(s') && Coherent(s')
  {
    if s.queue != [] { assert SameView(s.bufs[s.queue[0]], s'.bufs[s.queue[0]]); }
    forall i | 0 <= i < |s'.bufs| && Synced(s'.bufs[i]) && !s'.bufs[i].changed
      ensures s'.bufs[i].data == Get(s'.disk, s'.bufs[i].key)
    {
      assert SameView(s.bufs[i], s'.bufs[i]);
    }
  }

  // Buffer i, which is not queued, changes and stays or becomes unsynced or changed.
  lemma DataOne(s: State, s': State, i: nat)
    requires Shape(s) && Shape(s') && i < NBUF && i !in s.queue && DriveOk(s) && Coherent(s)
    requires s'.queue == s.queue && s'.drive == s.drive && s'.disk == s.disk
    requires forall j :: 0 <= j < NBUF && j != i ==> s'.bufs[j] == s.bufs[j]
    requires Synced(s'.bufs[i]) ==> s'.bufs[i].changed
    ensures DriveOk(s') && Coherent(s')
  {
    if s.queue != [] { assert s.queue[0] in s.queue; }
  }

  lemma GoodDriveKey(k: Key)
    requires GoodKey(k)
    ensures DriveKey(k) == k
  {
  }

  lemma EnqueueData(s: State, t: nat, s': State)
    requires Core(s) && DriveOk(s) && Coherent(s) && EnqueueStep(s, t, s') && Core(s')
    ensures DriveOk(s') && Coherent(s')
  {
    var i := s.threads[t].pc.i;
    assert ThreadOk(s, t);
    if s.queue != [] { assert s.queue[0] in s.queue; }
  }

  // Two buffers in use never have the same key.
  lemma KeysDiffer(s: State, i: nat, j: nat)
    requires Core(s) && i < NBUF && j < NBUF && i != j
    requires s.bufs[i].valid || s.bufs[i].refcnt > 0
    requires s.bufs[j].valid || s.bufs[j].refcnt > 0
    ensures s.bufs[i].key != s.bufs[j].key
  {
  }

  lemma HeldIsReferenced(s: State, i: nat)
    requires Core(s) && i < NBUF && s.bufs[i].locked
    ensures s.bufs[i].refcnt > 0
  {
    assert BufOk(s, i);
    SumPinsUpdate(s.threads, s.bufs[i].owner, s.threads[s.bufs[i].owner], i);
  }

  lemma DriveWorksData(s: State, s': State)
    requires Core(s) && DriveOk(s) && Coherent(s) && DriveWorksStep(s, s')
    ensures DriveOk(s') && Coherent(s')
  {
    var h := s.queue[0];
    assert h in s.queue && BufOk(s, h);
    HeldIsReferenced(s, h);
    GoodDriveKey(s.bufs[h].key);
    forall j | 0 <= j < NBUF && Synced(s'.bufs[j]) && !s'.bufs[j].changed
      ensures s'.bufs[j].data == Get(s'.disk, s'.bufs[j].key)
    {
      if j != h { KeysDiffer(s, h, j); }
    }
  }

  lemma CompletedData(s: State)
    requires Core(s) && DriveOk(s) && Coherent(s) && s.drive.Done? && s.ide == None && s.queue != []
    requires Core(Completed(s))
    ensures DriveOk(Completed(s)) && Coherent(Completed(s))
  {
    var h := s.queue[0];
    assert h in s.queue && BufOk(s, h);
    GoodDriveKey(s.bufs[h].key);
  }

  predicate TouchesData(a: Action) {
    a.BgetRecycle? || a.Modify? || a.Bwrite? || a.Enqueue? || a.DriveWorks? || a.Interrupt?
  }

  lemma QuietEarly(s: State, a: Action, s': State)
    requires |s.bufs| == NBUF && Step(s, a, s') && !TouchesData(a) && Early(a)
    ensures SameData(s, s')
  {
    if a.BgetHit? || a.TakeSpin? || a.TestLock? { QuietLock(s, a, s'); }
  }

  lemma QuietLock(s: State, a: Action, s': State)
    requires |s.bufs| == NBUF && Step(s, a, s') && (a.BgetHit? || a.TakeSpin? || a.TestLock?)
    ensures SameData(s, s')
  {
  }

  lemma QuietLate(s: State, a: Action, s': State)
    requires |s.bufs| == NBUF && Step(s, a, s') && !TouchesData(a) && !Early(a)
    ensures SameData(s, s')
  {
  }

  lemma EditData(s: State, a: Action, s': State)
    requires Core(s) && DriveOk(s) && Coherent(s) && Step(s, a, s') && Shape(s')
    requires a.BgetRecycle? || a.Modify? || a.Bwrite?
    ensures DriveOk(s') && Coherent(s')
  {
    var i := a.i;
    if a.BgetRecycle? { Unqueued(s, i); } else { HeldNotQueued(s, a.t, i); }
    DataOne(s, s', i);
  }

  lemma InterruptData(s: State, s': State)
    requires Core(s) && DriveOk(s) && Coherent(s) && InterruptStep(s, s') && Shape(s')
    ensures DriveOk(s') && Coherent(s')
  {
    CompletedCore(s);
    CompletedData(s);
    DataFrame(Completed(s), s');
  }

  lemma StepData(s: State, a: Action, s': State)
    requires Core(s) && DriveOk(s) && Coherent(s) && Step(s, a, s') && Core(s')
    ensures DriveOk(s') && Coherent(s')
  {
    if !TouchesData(a) {
      if Early(a) { QuietEarly(s, a, s'); } else { QuietLate(s, a, s'); }
      DataFrame(s, s');
    } else if a.Enqueue? {
      EnqueueData(s, a.t, s');
    } else if a.DriveWorks? {
      DriveWorksData(s, s');
    } else if a.Interrupt? {
      InterruptData(s, s');
    } else {
      EditData(s, a, s');
    }
  }

  lemma Unqueued(s: State, i: nat)
    requires Core(s) && i < NBUF && s.bufs[i].refcnt == 0
    ensures i !in s.queue
  {
    assert BufOk(s, i);
    if i in s.queue { HeldIsReferenced(s, i); }
  }

  lemma HeldNotQueued(s: State, t: nat, i: nat)
    requires Core(s) && t < |s.threads| && s.threads[t].pc == Out && i in s.threads[t].held && i < NBUF
    ensures i !in s.queue
  {
    assert ThreadOk(s, t) && BufOk(s, i);
  }

  // ---------- the disk and the log ----------

  predicate KeepsWriters(s: State, s': State)
    requires |s.bufs| == |s'.bufs| == NBUF
  {
    forall i :: 0 <= i < NBUF && Writer(s, i) ==> Writer(s', i) && s'.bufs[i].key == s.bufs[i].key
  }

  lemma DiskFrame(s: State, s': State, init: Disk)
    requires |s.bufs| == |s'.bufs| == NBUF && KeepsWriters(s, s') && DiskOk(s, init)
    requires s'.log == s.log
    requires forall k: Key :: GoodKey(k) ==> Get(s'.disk, k) == Get(s.disk, k) || WriteInFlight(s, k)
    ensures DiskOk(s', init)
  {
    forall k: Key | GoodKey(k) ensures Get(s'.disk, k) == LastWritten(s'.log, init, k) || WriteInFlight(s', k) {
      if WriteInFlight(s, k) {
        var i :| 0 <= i < NBUF && s.bufs[i].key == k && Writer(s, i);
        assert Writer(s', i);
      }
    }
  }

  lemma WriterOutlivesBget(s: State, a: Action, s': State, i: nat)
    requires |s.bufs| == |s'.bufs| == NBUF && Step(s, a, s') && s'.log == s.log && i < NBUF && Writer(s, i)
    requires (a.BgetHit? || a.BgetRecycle?) && s.bufs[i].refcnt > 0
    ensures Writer(s', i) && s'.bufs[i].key == s.bufs[i].key
  {
  }

  lemma WriterOutlivesSpin(s: State, a: Action, s': State, i: nat)
    requires |s.bufs| == |s'.bufs| == NBUF && Step(s, a, s') && s'.log == s.log && i < NBUF && Writer(s, i)
    requires a.TakeSpin? || a.TestLock? || a.TestIo?
    ensures Writer(s', i) && s'.bufs[i].key == s.bufs[i].key
  {
  }

  lemma WriterOutlivesSleep(s: State, a: Action, s': State, i: nat)
    requires |s.bufs| == |s'.bufs| == NBUF && Step(s, a, s') && s'.log == s.log && i < NBUF && Writer(s, i)
    requires a.SleepWrite? || a.SleepUnlock? || a.SleepReturn? || a.Reschedule?
    ensures Writer(s', i) && s'.bufs[i].key == s.bufs[i].key
  {
  }

  lemma WriterOutlivesCall(s: State, a: Action, s': State, i: nat)
    requires |s.bufs| == |s'.bufs| == NBUF && Step(s, a, s') && s'.log == s.log && i < NBUF && Writer(s, i)
    requires a.CheckValid? || a.Modify? || a.Bwrite? || a.Enqueue? || a.Brelse?
    ensures Writer(s', i) && s'.bufs[i].key == s.bufs[i].key
  {
  }

  lemma WriterOutlivesRelease(s: State, a: Action, s': State, i: nat)
    requires |s.bufs| == |s'.bufs| == NBUF && Step(s, a, s') && s'.log == s.log && i < NBUF && Writer(s, i)
    requires a.ClearLock? || a.DoWakeup? || a.DecrRef? || a.DriveWorks? || a.Interrupt?
    requires a.ClearLock? ==> ThreadOk(s, a.t)
    ensures Writer(s', i) && s'.bufs[i].key == s.bufs[i].key
  {
  }

  lemma StepKeepsWriters(s: State, a: Action, s': State)
    requires Core(s) && Step(s, a, s') && s'.log == s.log && |s'.bufs| == NBUF
    ensures KeepsWriters(s, s')
  {
    forall i | 0 <= i < NBUF && Writer(s, i) ensures Writer(s', i) && s'.bufs[i].key == s.bufs[i].key {
      HeldIsReferenced(s, i);
      if a.BgetHit? || a.BgetRecycle? {
        WriterOutlivesBget(s, a, s', i);
      } else if a.TakeSpin? || a.TestLock? || a.TestIo? {
        WriterOutlivesSpin(s, a, s', i);
      } else if a.SleepWrite? || a.SleepUnlock? || a.SleepReturn? || a.Reschedule? {
        WriterOutlivesSleep(s, a, s', i);
      } else if a.CheckValid? || a.Modify? || a.Bwrite? || a.Enqueue? || a.Brelse? {
        WriterOutlivesCall(s, a, s', i);
      } else {
        if a.ClearLock? { assert ThreadOk(s, a.t); }
        WriterOutlivesRelease(s, a, s', i);
      }
    }
  }

  // ---------- returns from bread and bwrite ----------

  lemma {:induction false} LastWrittenAppend(log: seq<Event>, e: Event, init: Disk, k: Key)
    ensures LastWritten(log + [e], init, k) == if e.BwriteReturn? && e.key == k then e.data else LastWritten(log, init, k)
  {
    assert (log + [e])[..|log|] == log;
  }

  lemma LogAppend(log: seq<Event>, e: Event, init: Disk)
    requires LogOk(log, init)
    requires e.BreadReturn? ==> e.data == LastWritten(log, init, e.key)
    ensures LogOk(log + [e], init)
  {
    var l := log + [e];
    forall p | 0 <= p < |l| && l[p].BreadReturn? ensures l[p].data == LastWritten(l[..p], init, l[p].key) {
      assert l[..p] == log[..p];
      if p == |log| { assert log[..p] == log; }
    }
  }

  // The holder of buffer i is not writing it, so nobody writes its block.
  lemma NoWriter(s: State, t: nat, i: nat, init: Disk)
    requires Core(s) && DiskOk(s, init) && t < |s.threads| && i < NBUF && i in s.threads[t].held
    requires !Writing(s.threads[t].pc, i)
    ensures Get(s.disk, s.bufs[i].key) == LastWritten(s.log, init, s.bufs[i].key)
  {
    assert ThreadOk(s, t) && BufOk(s, i);
    HeldIsReferenced(s, i);
    if WriteInFlight(s, s.bufs[i].key) {
      var j :| 0 <= j < NBUF && s.bufs[j].key == s.bufs[i].key && Writer(s, j);
      HeldIsReferenced(s, j);
      if i != j { KeysDiffer(s, i, j); }
    }
  }

  // A return that logs e: blocks other than e's keep their writers.
  lemma DiskReturn(s: State, s': State, t: nat, i: nat, e: Event, init: Disk)
    requires Core(s) && DiskOk(s, init) && |s'.bufs| == NBUF && s'.bufs == s.bufs && s'.disk == s.disk
    requires t < |s.threads| == |s'.threads| && s'.threads == s.threads[t := s'.threads[t]]
    requires i < NBUF && i in s.threads[t].held
    requires s'.log == s.log + [e] && e.key == s.bufs[i].key && Busy1(s.threads[t].pc, i)
    requires e.BwriteReturn? ==> e.data == Get(s.disk, e.key)
    requires e.BreadReturn? ==> !Writing(s.threads[t].pc, i)
    ensures DiskOk(s', init)
  {
    assert ThreadOk(s, t);
    forall k: Key | GoodKey(k) ensures Get(s'.disk, k) == LastWritten(s'.log, init, k) || WriteInFlight(s', k) {
      LastWrittenAppend(s.log, e, init, k);
      if WriteInFlight(s, k) && !(e.BwriteReturn? && e.key == k) {
        var j :| 0 <= j < NBUF && s.bufs[j].key == k && Writer(s, j);
        assert Writer(s', j);
      }
    }
  }

  lemma TestIoReturn(s: State, t: nat, s': State, init: Disk)
    requires Core(s) && Coherent(s) && DiskOk(s, init) && LogOk(s.log, init)
    requires TestIoStep(s, t, s') && s'.log != s.log && |s'.bufs| == NBUF
    ensures DiskOk(s', init) && LogOk(s'.log, init)
  {
    var i := s.threads[t].pc.w.i;
    assert ThreadOk(s, t) && BufOk(s, i);
    var e := s'.log[|s.log|];
    if !s.threads[t].pc.w.writing { NoWriter(s, t, i, init); }
    LogAppend(s.log, e, init);
    DiskReturn(s, s', t, i, e, init);
  }

  lemma CheckValidReturn(s: State, t: nat, s': State, init: Disk)
    requires Core(s) && Coherent(s) && DiskOk(s, init) && LogOk(s.log, init)
    requires CheckValidStep(s, t, s') && s'.log != s.log && |s'.bufs| == NBUF
    ensures DiskOk(s', init) && LogOk(s'.log, init)
  {
    var i := s.threads[t].pc.i;
    assert ThreadOk(s, t) && BufOk(s, i);
    var e := s'.log[|s.log|];
    NoWriter(s, t, i, init);
    LogAppend(s.log, e, init);
    DiskReturn(s, s', t, i, e, init);
  }

  lemma DriveWriteInFlight(s: State, s': State)
    requires Core(s) && DriveOk(s) && DriveWorksStep(s, s')
    ensures forall k: Key :: GoodKey(k) ==> Get(s'.disk, k) == Get(s.disk, k) || WriteInFlight(s, k)
  {
    if s.drive.cmd.writing {
      var h := s.queue[0];
      assert h in s.queue && BufOk(s, h) && Writer(s, h);
      GoodDriveKey(s.bufs[h].key);
    }
  }

  lemma StepDisk(s: State, a: Action, s': State, init: Disk)
    requires Core(s) && Step(s, a, s') && Core(s')
    requires DriveOk(s) && Coherent(s) && DiskOk(s, init) && LogOk(s.log, init)
    ensures DiskOk(s', init) && LogOk(s'.log, init)
  {
    if s'.log == s.log {
      StepKeepsWriters(s, a, s');
      if a.DriveWorks? { DriveWriteInFlight(s, s'); }
      DiskFrame(s, s', init);
    } else if a.TestIo? {
      TestIoReturn(s, a.t, s', init);
    } else {
      CheckValidReturn(s, a.t, s', init);
    }
  }

  // ---------- wakeups ----------

  predicate BufSleepers(s: State)
    requires |s.bufs| == NBUF
  {
    forall t, i :: 0 <= t < |s.threads| && 0 <= i < NBUF && RecordedAsleep(s.threads[t], BufChan(i))
      ==> i in s.queue
  }

  predicate LockSleepers(s: State)
    requires |s.bufs| == NBUF
  {
    forall t, i :: 0 <= t < |s.threads| && 0 <= i < NBUF && RecordedAsleep(s.threads[t], LockChan(i))
      ==> s.bufs[i].locked || SomeWaker(s, i)
  }

  // Who is newly recorded asleep, and where.
  predicate MaySleep(x: Thread) {
    && (x.chan.Some? && !InSpin(x.pc) ==> x.pc.Asleep?)
    && (x.pc.Test? ==> x.chan == None)
    && (x.pc.Unlock? ==> x.chan == Some(ChanOf(x.pc.w)))
  }

  lemma NewSleeperEarly(s: State, a: Action, s': State, t: nat, ch: Chan)
    requires |s.bufs| == NBUF && Step(s, a, s') && t < |s.threads| && t < |s'.threads| && MaySleep(s.threads[t])
    requires RecordedAsleep(s'.threads[t], ch) && !RecordedAsleep(s.threads[t], ch) && Early(a)
    ensures a == SleepUnlock(t) && s.threads[t].pc.Unlock? && ChanOf(s.threads[t].pc.w) == ch
  {
  }

  lemma NoNewSleeperLate(s: State, a: Action, s': State, t: nat, ch: Chan)
    requires |s.bufs| == NBUF && Step(s, a, s') && t < |s.threads| && t < |s'.threads| && MaySleep(s.threads[t])
    requires RecordedAsleep(s'.threads[t], ch) && !Early(a)
    ensures RecordedAsleep(s.threads[t], ch)
  {
  }

  lemma StepBufSleepers(s: State, a: Action, s': State)
    requires Core(s) && Step(s, a, s') && |s'.bufs| == NBUF && BufSleepers(s)
    ensures BufSleepers(s')
  {
    forall t, i | 0 <= t < |s'.threads| && 0 <= i < NBUF && RecordedAsleep(s'.threads[t], BufChan(i))
      ensures i in s'.queue
    {
      if RecordedAsleep(s.threads[t], BufChan(i)) {
        assert i in s.queue;
        if i !in s'.queue { QueueLoses(s, a, s', i); }
      } else {
        assert ThreadOk(s, t);
        if !Early(a) { NoNewSleeperLate(s, a, s', t, BufChan(i)); }
        NewSleeperEarly(s, a, s', t, BufChan(i));
      }
    }
  }

  lemma InTail(q: seq<nat>, i: nat)
    requires i in q
    ensures i == q[0] || i in q[1..]
  {
    var k :| 0 <= k < |q| && q[k] == i;
    if k > 0 { assert q[1..][k - 1] == i; }
  }

  // A request leaves the queue only in the interrupt handler, which wakes its waiters.
  lemma QueueLoses(s: State, a: Action, s': State, i: nat)
    requires |s.bufs| == NBUF && Step(s, a, s') && i in s.queue && i !in s'.queue
    ensures a == Interrupt && s.queue[0] == i
    ensures forall t :: 0 <= t < |s'.threads| ==> !RecordedAsleep(s'.threads[t], BufChan(i))
  {
    if a == Interrupt { InTail(s.queue, i); }
  }

  lemma StillAsleep(s: State, a: Action, s': State, t: nat, i: nat)
    requires |s.bufs| == |s'.bufs| == NBUF && Step(s, a, s') && t < |s'.threads| && i < NBUF
    requires s.bufs[i].locked || SomeWaker(s, i)
    requires RecordedAsleep(s'.threads[t], LockChan(i))
    ensures s'.bufs[i].locked || SomeWaker(s', i)
  {
    if s.bufs[i].locked {
      LockClears(s, a, s', i);
    } else {
      var u :| 0 <= u < |s.threads| && s.threads[u].pc == WakePending(i);
      if a == DoWakeup(u) { WakeupWakes(s, u, s', t); }
      WakerStays(s, a, s', u);
    }
  }

  lemma FallsAsleep(s: State, a: Action, s': State, t: nat, i: nat)
    requires Core(s) && Step(s, a, s') && t < |s.threads| && t < |s'.threads| && i < NBUF
    requires RecordedAsleep(s'.threads[t], LockChan(i)) && !RecordedAsleep(s.threads[t], LockChan(i))
    ensures s.bufs[i].locked
  {
    assert ThreadOk(s, t);
    if !Early(a) { NoNewSleeperLate(s, a, s', t, LockChan(i)); }
    NewSleeperEarly(s, a, s', t, LockChan(i));
  }

  lemma StepLockSleepers(s: State, a: Action, s': State)
    requires Core(s) && Step(s, a, s') && |s'.bufs| == NBUF && LockSleepers(s)
    ensures LockSleepers(s')
  {
    forall t, i | 0 <= t < |s'.threads| && 0 <= i < NBUF && RecordedAsleep(s'.threads[t], LockChan(i))
      ensures s'.bufs[i].locked || SomeWaker(s', i)
    {
      SameThreads(s, a, s');
      if !RecordedAsleep(s.threads[t], LockChan(i)) { FallsAsleep(s, a, s', t, i); }
      StillAsleep(s, a, s', t, i);
    }
  }

  lemma SameThreads(s: State, a: Action, s': State)
    requires |s.bufs| == NBUF && Step(s, a, s')
    ensures |s'.threads| == |s.threads|
  {
    if Early(a) { SameThreadsEarly(s, a, s'); }
  }

  lemma SameThreadsEarly(s: State, a: Action, s': State)
    requires |s.bufs| == NBUF && Step(s, a, s') && Early(a)
    ensures |s'.threads| == |s.threads|
  {
  }

  // A sleep lock is cleared only by a thread that then still owes a Wakeup.
  lemma LockClears(s: State, a: Action, s': State, i: nat)
    requires |s.bufs| == |s'.bufs| == NBUF && Step(s, a, s') && i < NBUF && s.bufs[i].locked
    ensures s'.bufs[i].locked || SomeWaker(s', i)
  {
    if !s'.bufs[i].locked {
      assert a.ClearLock? && s'.threads[a.t].pc == WakePending(i);
    }
  }

  // A pending Wakeup stays pending until it is performed, which leaves nobody asleep.
  lemma WakerStays(s: State, a: Action, s': State, u: nat)
    requires |s.bufs| == NBUF && Step(s, a, s') && a != DoWakeup(u)
    requires u < |s.threads| && s.threads[u].pc.WakePending?
    ensures u < |s'.threads| && s'.threads[u].pc == s.threads[u].pc
  {
    if Early(a) { WakerStaysEarly(s, a, s', u); }
  }

  lemma WakerStaysEarly(s: State, a: Action, s': State, u: nat)
    requires |s.bufs| == NBUF && Step(s, a, s') && Early(a)
    requires u < |s.threads| && s.threads[u].pc.WakePending?
    ensures u < |s'.threads| && s'.threads[u].pc == s.threads[u].pc
  {
    if a.BgetHit? || a.BgetRecycle? || a.TakeSpin? { WakerOutlivesBget(s, a, s', u); }
  }

  lemma WakerOutlivesBget(s: State, a: Action, s': State, u: nat)
    requires |s.bufs| == NBUF && Step(s, a, s') && (a.BgetHit? || a.BgetRecycle? || a.TakeSpin?)
    requires u < |s.threads| && s.threads[u].pc.WakePending?
    ensures u < |s'.threads| && s'.threads[u].pc == s.threads[u].pc
  {
  }

  lemma WakeupWakes(s: State, u: nat, s': State, t: nat)
    requires |s.bufs| == NBUF && DoWakeupStep(s, u, s') && t < |s'.threads|
    ensures !RecordedAsleep(s'.threads[t], LockChan(s.threads[u].pc.i))
  {
  }

  // ---------- runs ----------

  predicate Zeroed(b: Buf) {
    b.key == Key(0, 0) && !b.valid && !b.dirty && b.refcnt == 0 && !b.locked && b.inner == None && !b.changed
  }

  // All buffers zero, no thread in a cache call, the drive idle.
  ghost predicate Init(s: State, init: Disk) {
    && |s.bufs| == NBUF
    && (forall i :: 0 <= i < NBUF ==> Zeroed(s.bufs[i]))
    && (forall t :: 0 <= t < |s.threads| ==> s.threads[t].pc == Out && s.threads[t].held == {} && s.threads[t].chan == None)
    && s.ide == None && s.queue == [] && s.entryCount == 0 && s.drive == Idle && s.disk == init && s.log == []
  }

  ghost predicate StepAt(ss: seq<State>, acts: seq<Action>, j: nat)
    requires |ss| == |acts| + 1 && j < |acts|
  {
    |ss[j].bufs| == NBUF && Step(ss[j], acts[j], ss[j + 1])
  }

  ghost predicate Run(init: Disk, ss: seq<State>, acts: seq<Action>) {
    && |ss| == |acts| + 1
    && Init(ss[0], init)
    && forall j {:trigger StepAt(ss, acts, j)} :: 0 <= j < |acts| ==> StepAt(ss, acts, j)
  }

  lemma {:induction false} NoPins(ts: seq<Thread>, i: nat)
    requires forall t :: 0 <= t < |ts| ==> ts[t].pc == Out && ts[t].held == {}
    ensures SumPins(ts, i) == 0
  {
    if ts != [] { NoPins(ts[1..], i); }
  }

  lemma InitInv(s: State, init: Disk)
    requires Init(s, init)
    ensures Inv(s, init)
  {
    forall i | 0 <= i < NBUF ensures BufOk(s, i) { NoPins(s.threads, i); }
    forall t | 0 <= t < |s.threads| ensures ThreadOk(s, t) { }
  }

  lemma StepInv(s: State, a: Action, s': State, init: Disk)
    requires Inv(s, init) && Step(s, a, s')
    ensures Inv(s', init)
  {
    StepCore(s, a, s');
    StepData(s, a, s');
    StepDisk(s, a, s', init);
    StepBufSleepers(s, a, s');
    StepLockSleepers(s, a, s');
  }

  lemma {:induction false} RunInv(init: Disk, ss: seq<State>, acts: seq<Action>, j: nat)
    requires Run(init, ss, acts) && j < |ss|
    ensures Inv(ss[j], init)
  {
    if j == 0 {
      InitInv(ss[0], init);
    } else {
      RunInv(init, ss, acts, j - 1);
      assert StepAt(ss, acts, j - 1);
      StepInv(ss[j - 1], acts[j - 1], ss[j], init);
    }
  }

  // ---------- main results ----------

  // Cache coherence: in every run, every value that bread returned is the one that
  // the last bwrite of the block completed before it left, or the initial contents.
  lemma ReadsSeeLastWrite(init: Disk, ss: seq<State>, acts: seq<Action>, j: nat, p: nat)
    requires Run(init, ss, acts) && j < |ss| && p < |ss[j].log| && ss[j].log[p].BreadReturn?
    ensures ss[j].log[p].data == LastWritten(ss[j].log[..p], init, ss[j].log[p].key)
  {
    RunInv(init, ss, acts, j);
  }

  // When bread returns, its caller and nobody else holds the buffer, which is valid,
  // has the block asked for and agrees with the disk.
  lemma BreadReturnsLockedValid(init: Disk, ss: seq<State>, acts: seq<Action>, j: nat)
    requires Run(init, ss, acts) && j < |acts| && |ss[j + 1].log| > |ss[j].log|
    requires ss[j + 1].log[|ss[j].log|].BreadReturn?
    ensures var e, s := ss[j + 1].log[|ss[j].log|], ss[j + 1];
            && e.i < |s.bufs| && e.t < |s.threads| && e.i in s.threads[e.t].held
            && (forall u :: 0 <= u < |s.threads| && u != e.t ==> e.i !in s.threads[u].held)
            && Synced(s.bufs[e.i]) && s.bufs[e.i].key == e.key && s.bufs[e.i].data == e.data
            && Get(s.disk, e.key) == e.data
  {
    RunInv(init, ss, acts, j);
    RunInv(init, ss, acts, j + 1);
    var s, s', a := ss[j], ss[j + 1], acts[j];
    assert StepAt(ss, acts, j);
    assert a.TestIo? || a.CheckValid?;
    assert ThreadOk(s, a.t);
    var e := s'.log[|s.log|];
    forall u | 0 <= u < |s'.threads| && u != e.t ensures e.i !in s'.threads[u].held {
      assert ThreadOk(s', u) && ThreadOk(s', e.t);
    }
  }

  // Every buffer that is valid, clean and not being edited by its holder agrees with the disk.
  lemma CleanBuffersAgree(init: Disk, ss: seq<State>, acts: seq<Action>, j: nat, i: nat)
    requires Run(init, ss, acts) && j < |ss| && i < |ss[j].bufs|
    requires ss[j].bufs[i].valid && !ss[j].bufs[i].dirty && (!ss[j].bufs[i].locked || !ss[j].bufs[i].changed)
    ensures ss[j].bufs[i].data == Get(ss[j].disk, ss[j].bufs[i].key)
  {
    RunInv(init, ss, acts, j);
    assert BufOk(ss[j], i);
  }

  // Two buffers with the same key: the higher one is an untouched copy of (0, 0).
  // So no two referenced or valid buffers share a key.
  lemma KeysAreUnique(init: Disk, ss: seq<State>, acts: seq<Action>, j: nat, a: nat, b: nat)
    requires Run(init, ss, acts) && j < |ss| && a < b < |ss[j].bufs| && ss[j].bufs[a].key == ss[j].bufs[b].key
    ensures Untouched(ss[j].bufs[b])
  {
    RunInv(init, ss, acts, j);
  }

  // refcnt counts the threads between bget's increment and brelse's decrement.
  lemma RefcntCountsPins(init: Disk, ss: seq<State>, acts: seq<Action>, j: nat, i: nat)
    requires Run(init, ss, acts) && j < |ss| && i < |ss[j].bufs|
    ensures ss[j].bufs[i].refcnt == SumPins(ss[j].threads, i)
  {
    RunInv(init, ss, acts, j);
    assert BufOk(ss[j], i);
  }

  // A buffer that some thread holds or waits for is never recycled.
  lemma PinnedNotRecycled(init: Disk, ss: seq<State>, acts: seq<Action>, j: nat, u: nat)
    requires Run(init, ss, acts) && j < |acts| && acts[j].BgetRecycle? && u < |ss[j].threads|
    ensures acts[j].i !in ss[j].threads[u].held && !PcPins(ss[j].threads[u].pc, acts[j].i)
  {
    RunInv(init, ss, acts, j);
    assert StepAt(ss, acts, j);
    Unpinned(ss[j], acts[j].i, u);
  }

  // Outside ThreadSleep's locked window, a thread recorded asleep on a buffer and not
  // yet woken has that buffer's request still queued; on a sleep lock, the lock is
  // held or a releaser's Wakeup is still to come.
  lemma WakeupsAreNotLost(init: Disk, ss: seq<State>, acts: seq<Action>, j: nat, t: nat, i: nat)
    requires Run(init, ss, acts) && j < |ss| && t < |ss[j].threads| && i < NBUF
    ensures RecordedAsleep(ss[j].threads[t], BufChan(i)) ==> i in ss[j].queue
    ensures |ss[j].bufs| == NBUF
    ensures RecordedAsleep(ss[j].threads[t], LockChan(i)) ==> ss[j].bufs[i].locked || SomeWaker(ss[j], i)
  {
    RunInv(init, ss, acts, j);
  }

  // With disk 1 present, the panics of bwrite, iderw, idestart and brelse are unreachable: a
  // thread that got there holds the sleep lock, a request always has something to do, and its
  // block is on the disk.
  lemma NoCachePanic(init: Disk, ss: seq<State>, acts: seq<Action>, j: nat, t: nat)
    requires Run(init, ss, acts) && j < |ss| && t < |ss[j].threads|
    requires ss[j].threads[t].pc.Submit? || ss[j].threads[t].pc.Releasing?
    ensures var s, i := ss[j], ss[j].threads[t].pc.i;
            && i < |s.bufs| && s.bufs[i].locked && s.bufs[i].owner == t
            && (s.threads[t].pc.Submit? ==> !Synced(s.bufs[i]) && i !in s.queue && s.bufs[i].key.blockno < FSSIZE)
  {
    RunInv(init, ss, acts, j);
    assert ThreadOk(ss[j], t) && BufOk(ss[j], ss[j].threads[t].pc.i);
  }

  // The queue holds each buffer once, both layers count, and the drive has exactly
  // one command, for the head, when the queue is nonempty and none when it is empty.
  lemma QueueProtocol(init: Disk, ss: seq<State>, acts: seq<Action>, j: nat)
    requires Run(init, ss, acts) && j < |ss|
    ensures var s := ss[j];
            && s.entryCount == 2 * |s.queue|
            && (forall a, b :: 0 <= a < b < |s.queue| ==> s.queue[a] != s.queue[b])
            && (s.queue == [] <==> s.drive == Idle)
            && (s.queue != [] ==> s.queue[0] < |s.bufs|
                                  && s.drive.cmd.key == s.bufs[s.queue[0]].key
                                  && s.drive.cmd.writing == s.bufs[s.queue[0]].dirty)
  {
    RunInv(init, ss, acts, j);
    var s := ss[j];
    if s.queue != [] {
      assert BufOk(s, s.queue[0]);
      GoodDriveKey(s.bufs[s.queue[0]].key);
    }
  }

  // ---------- who flags a thread ----------

  // The channel that a step calls Wakeup for.
  function WokenChan(s: State, a: Action): Option<Chan> {
    match a
    case Interrupt => if s.queue != [] then Some(BufChan(s.queue[0])) else None
    case DoWakeup(u) => if u < |s.threads| && s.threads[u].pc.WakePending? then Some(LockChan(s.threads[u].pc.i)) else None
    case _ => None
  }

  lemma EarlyFlagsNobody(s: State, a: Action, s': State, t: nat)
    requires |s.bufs| == NBUF && Step(s, a, s') && Early(a) && t < |s.threads| && t < |s'.threads|
    ensures s'.threads[t].canWake ==> s.threads[t].canWake
  {
  }

  lemma LateFlags(s: State, a: Action, s': State, t: nat)
    requires |s.bufs| == NBUF && Step(s, a, s') && !Early(a) && t < |s.threads| && t < |s'.threads|
    ensures s'.threads[t].canWake <==>
      s.threads[t].canWake || (s.threads[t].asleep && s.threads[t].chan.Some? && s.threads[t].chan == WokenChan(s, a))
  {
  }

  // In every run a thread is flagged for wakeup exactly by a step that wakes the very channel
  // it is recorded asleep on: the interrupt for its buffer, the release of its lock.
  lemma FlaggedByItsChannel(init: Disk, ss: seq<State>, acts: seq<Action>, j: nat, t: nat)
    requires Run(init, ss, acts) && j < |acts| && t < |ss[j].threads| && !ss[j].threads[t].canWake
    ensures t < |ss[j + 1].threads|
    ensures ss[j + 1].threads[t].canWake <==>
      ss[j].threads[t].asleep && ss[j].threads[t].chan.Some? && ss[j].threads[t].chan == WokenChan(ss[j], acts[j])
  {
    assert StepAt(ss, acts, j);
    SameThreads(ss[j], acts[j], ss[j + 1]);
    if Early(acts[j]) {
      EarlyFlagsNobody(ss[j], acts[j], ss[j + 1], t);
    } else {
      LateFlags(ss[j], acts[j], ss[j + 1], t);
    }
  }

  lemma EarlyKeepsAsleep(s: State, a: Action, s': State, t: nat)
    requires |s.bufs| == NBUF && Step(s, a, s') && Early(a) && t < |s.threads| && t < |s'.threads|
    ensures s.threads[t].asleep ==> s'.threads[t].asleep
  {
  }

  lemma LateKeepsAsleep(s: State, a: Action, s': State, t: nat)
    requires |s.bufs| == NBUF && Step(s, a, s') && !Early(a) && t < |s.threads| && t < |s'.threads|
    ensures s.threads[t].asleep && !s'.threads[t].asleep ==> s.threads[t].canWake
  {
  }

  // And a thread stops being recorded asleep only when it is flagged.
  lemma OnlyFlaggedAwake(init: Disk, ss: seq<State>, acts: seq<Action>, j: nat, t: nat)
    requires Run(init, ss, acts) && j < |acts| && t < |ss[j].threads| && ss[j].threads[t].asleep
    ensures t < |ss[j + 1].threads| && (ss[j + 1].threads[t].asleep || ss[j].threads[t].canWake)
  {
    assert StepAt(ss, acts, j);
    SameThreads(ss[j], acts[j], ss[j + 1]);
    if Early(acts[j]) {
      EarlyKeepsAsleep(ss[j], acts[j], ss[j + 1], t);
    } else {
      LateKeepsAsleep(ss[j], acts[j], ss[j + 1], t);
    }
  }

  // The requests that a step adds to the queue, and those that it completes.
  function Added(s: State, a: Action): seq<nat> {
    if a.Enqueue? && a.t < |s.threads| && s.threads[a.t].pc.Submit? then [s.threads[a.t].pc.i] else []
  }

  function Completes(s: State, a: Action): seq<nat> {
    if a.Interrupt? && s.queue != [] then [s.queue[0]] else []
  }

  ghost function AllAdded(ss: seq<State>, acts: seq<Action>, j: nat): seq<nat>
    requires |ss| == |acts| + 1 && j <= |acts|
  {
    if j == 0 then [] else AllAdded(ss, acts, j - 1) + Added(ss[j - 1], acts[j - 1])
  }

  ghost function AllCompleted(ss: seq<State>, acts: seq<Action>, j: nat): seq<nat>
    requires |ss| == |acts| + 1 && j <= |acts|
  {
    if j == 0 then [] else AllCompleted(ss, acts, j - 1) + Completes(ss[j - 1], acts[j - 1])
  }

  lemma QueueMoves(s: State, a: Action, s': State)
    requires |s.bufs| == NBUF && Step(s, a, s')
    ensures s.queue + Added(s, a) == Completes(s, a) + s'.queue
  {
  }

  lemma Shift(a: seq<nat>, c: seq<nat>, q: seq<nat>, a1: seq<nat>, c1: seq<nat>, q': seq<nat>)
    requires a == c + q && q + a1 == c1 + q'
    ensures a + a1 == (c + c1) + q'
  {
    assert a + a1 == c + (q + a1);
  }

  // Requests complete in the order in which they were made.
  lemma {:induction false} CompletionOrder(init: Disk, ss: seq<State>, acts: seq<Action>, j: nat)
    requires Run(init, ss, acts) && j <= |acts|
    ensures AllAdded(ss, acts, j) == AllCompleted(ss, acts, j) + ss[j].queue
  {
    if j > 0 {
      var s, a := ss[j - 1], acts[j - 1];
      CompletionOrder(init, ss, acts, j - 1);
      assert StepAt(ss, acts, j - 1);
      QueueMoves(s, a, ss[j]);
      Shift(AllAdded(ss, acts, j - 1), AllCompleted(ss, acts, j - 1), s.queue, Added(s, a), Completes(s, a), ss[j].queue);
    }
  }
}
