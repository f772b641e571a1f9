/**
What bread does in the machine when nobody gets in its way, step by step: to the buffer that
Bget's contract names, to sleep when that buffer is taken, and through the disk queue, the
drive, the interrupt and the wakeup when its data must be read.
*/
module ReadPath {
  import opened Common
  import opened CacheModel

  ghost predicate StepAt(ss: seq<State>, acts: seq<Action>, j: nat)
    requires |ss| == |acts| + 1 && j < |acts|
  {
    |ss[j].bufs| == NBUF && Step(ss[j], acts[j], ss[j + 1])
  }

  ghost predicate Path(ss: seq<State>, acts: seq<Action>) {
    && |ss| == |acts| + 1
    && forall j {:trigger StepAt(ss, acts, j)} :: 0 <= j < |acts| ==> StepAt(ss, acts, j)
  }

  lemma Extended(ss: seq<State>, acts: seq<Action>, a: Action, s: State) returns (ss': seq<State>, acts': seq<Action>)
    requires Path(ss, acts) && |ss[|acts|].bufs| == NBUF && Step(ss[|acts|], a, s)
    ensures Path(ss', acts') && ss'[0] == ss[0] && ss'[|acts'|] == s
  {
    ss', acts' := ss + [s], acts + [a];
    forall j | 0 <= j < |acts'| ensures StepAt(ss', acts', j) {
      assert j < |acts| ==> StepAt(ss, acts, j);
    }
  }

  // Thread t is outside every call, and buffer i's own spinlock is free.
  predicate MayCall(s: State, t: nat, i: nat) {
    |s.bufs| == NBUF && i < NBUF && t < |s.threads| && s.threads[t].pc == Out && s.bufs[i].inner == None
  }

  // What taking the buffer's lock, or going to sleep on it, leaves: b is the buffer with the
  // reference counted.
  function Asking(s: State, t: nat, i: nat, k: Key, b: Buf): State
    requires MayCall(s, t, i)
  {
    PutPc(PutBuf(s, i, b), t, Enter(OnLock(i, k)))
  }

  // Once asked for, a free buffer is locked by the caller, who goes on to look at its data.
  lemma LockIsTaken(s: State, t: nat, i: nat, k: Key, b: Buf) returns (ss: seq<State>, acts: seq<Action>)
    requires MayCall(s, t, i) && !b.locked && b.inner == None
    ensures Path(ss, acts) && ss[0] == Asking(s, t, i, k, b)
    ensures ss[|acts|].bufs == s.bufs[i := b.(locked := true, owner := t)]
    ensures |ss[|acts|].threads| == |s.threads|
    ensures ss[|acts|].threads[t] == s.threads[t].(pc := Check(i, k), held := s.threads[t].held + {i})
  {
    var s1 := Asking(s, t, i, k, b);
    var s2 := PutPc(SetSpin(s1, OnLock(i, k), Some(t)), t, Test(OnLock(i, k)));
    var s3 := Put(PutBuf(s2, i, b.(locked := true, owner := t, inner := None)), t,
                  s2.threads[t].(pc := Check(i, k), held := s2.threads[t].held + {i}));
    ss, acts := [s1], [];
    ss, acts := Extended(ss, acts, TakeSpin(t), s2);
    ss, acts := Extended(ss, acts, TestLock(t), s3);
  }

  // A taken one puts the caller to sleep on the lock, not flagged, with its reference counted.
  lemma LockIsAwaited(s: State, t: nat, i: nat, k: Key, b: Buf) returns (ss: seq<State>, acts: seq<Action>)
    requires MayCall(s, t, i) && b.locked && b.inner == None
    ensures Path(ss, acts) && ss[0] == Asking(s, t, i, k, b)
    ensures ss[|acts|].bufs == s.bufs[i := b]
    ensures |ss[|acts|].threads| == |s.threads|
    ensures ss[|acts|].threads[t]
      == s.threads[t].(pc := Asleep(OnLock(i, k)), chan := Some(LockChan(i)), asleep := true, canWake := false)
  {
    var w := OnLock(i, k);
    var s1 := Asking(s, t, i, k, b);
    var s2 := PutPc(SetSpin(s1, w, Some(t)), t, Test(w));
    var s3 := PutPc(s2, t, SetChan(w));
    ss, acts := [s1], [];
    ss, acts := Extended(ss, acts, TakeSpin(t), s2);
    ss, acts := Extended(ss, acts, TestLock(t), s3);
    var s4, s5, s6 := FallAsleep(s3, t, w);
    ss, acts := Extended(ss, acts, SleepWrite(t), s4);
    ss, acts := Extended(ss, acts, SleepWrite(t), s5);
    ss, acts := Extended(ss, acts, SleepWrite(t), s6);
    var s7 := PutPc(SetSpin(s6, w, None), t, Asleep(w));
    ss, acts := Extended(ss, acts, SleepUnlock(t), s7);
    assert s7.bufs == s.bufs[i := b];
  }

  // ThreadSleep's three writes.
  lemma FallAsleep(s: State, t: nat, w: Wait) returns (s1: State, s2: State, s3: State)
    requires |s.bufs| == NBUF && t < |s.threads| && s.threads[t].pc == SetChan(w)
    ensures SleepWriteStep(s, t, s1) && SleepWriteStep(s1, t, s2) && SleepWriteStep(s2, t, s3)
    ensures s3 == Put(s, t, s.threads[t].(pc := Unlock(w), chan := Some(ChanOf(w)), asleep := true, canWake := false))
    ensures |s1.bufs| == |s2.bufs| == NBUF
  {
    var x := s.threads[t];
    s1 := Put(s, t, x.(pc := SetStatus(w), chan := Some(ChanOf(w))));
    s2 := Put(s1, t, s1.threads[t].(pc := ClearFlag(w), asleep := true));
    s3 := Put(s2, t, s2.threads[t].(pc := Unlock(w), canWake := false));
  }

  // The scans of bget, as the contract of the sequential Bget spells them: the machine's call
  // ends in the same buffers.
  lemma CachedBget(s: State, t: nat, i: nat, k: Key) returns (ss: seq<State>, acts: seq<Action>)
    requires MayCall(s, t, i) && GoodKey(k)
    requires s.bufs[i].key == k && forall j :: 0 <= j < i ==> s.bufs[j].key != k
    ensures Path(ss, acts) && ss[0] == s && |ss[|acts|].threads| == |s.threads|
    ensures var b := s.bufs[i].(refcnt := s.bufs[i].refcnt + 1);
            var last := ss[|acts|];
            if b.locked then last.bufs == s.bufs[i := b] && last.threads[t].pc == Asleep(OnLock(i, k))
            else last.bufs == s.bufs[i := b.(locked := true, owner := t)] && last.threads[t].pc == Check(i, k)
  {
    var b := s.bufs[i].(refcnt := s.bufs[i].refcnt + 1);
    if b.locked {
      ss, acts := LockIsAwaited(s, t, i, k, b);
    } else {
      ss, acts := LockIsTaken(s, t, i, k, b);
    }
    ss, acts := Before(s, BgetHit(t, i, k), ss, acts);
  }

  lemma UncachedBget(s: State, t: nat, i: nat, k: Key) returns (ss: seq<State>, acts: seq<Action>)
    requires MayCall(s, t, i) && GoodKey(k) && !s.bufs[i].locked
    requires forall j :: 0 <= j < NBUF ==> s.bufs[j].key != k
    requires s.bufs[i].refcnt == 0 && !s.bufs[i].dirty
    requires forall j :: 0 <= j < i ==> s.bufs[j].refcnt > 0 || s.bufs[j].dirty
    ensures Path(ss, acts) && ss[0] == s && |ss[|acts|].threads| == |s.threads|
    ensures ss[|acts|].threads[t].pc == Check(i, k)
    ensures ss[|acts|].bufs == s.bufs[i :=
      s.bufs[i].(key := k, valid := false, dirty := false, refcnt := 1, locked := true, owner := t)]
  {
    var b := s.bufs[i].(key := k, valid := false, dirty := false, refcnt := 1);
    ss, acts := LockIsTaken(s, t, i, k, b);
    ss, acts := Before(s, BgetRecycle(t, i, k), ss, acts);
  }

  lemma Before(s: State, a: Action, ss: seq<State>, acts: seq<Action>) returns (ss': seq<State>, acts': seq<Action>)
    requires Path(ss, acts) && |s.bufs| == NBUF && Step(s, a, ss[0])
    ensures Path(ss', acts') && ss'[0] == s && ss'[|acts'|] == ss[|acts|]
  {
    ss', acts' := [s] + ss, [a] + acts;
    forall j | 0 <= j < |acts'| ensures StepAt(ss', acts', j) {
      if j > 0 {
        assert StepAt(ss, acts, j - 1);
      }
    }
  }

  // ---------- reading a buffer's data ----------

  // Thread t has buffer i locked and must read it; the queue and the drive are free.
  predicate MustRead(s: State, t: nat, i: nat, k: Key) {
    && |s.bufs| == NBUF && i < NBUF && t < |s.threads| && GoodKey(k)
    && s.threads[t].pc == Check(i, k) && s.bufs[i].key == k && !s.bufs[i].valid && !s.bufs[i].dirty
    && s.ide == None && s.queue == [] && s.entryCount == 0 && s.drive == Idle
  }

  function Done(s: State, i: nat, k: Key): Buf
    requires i < |s.bufs|
  {
    s.bufs[i].(data := Get(s.disk, k), valid := true, dirty := false, changed := false)
  }

  // The request is queued and the drive started on it.
  function Requested(s: State, t: nat, i: nat, k: Key, pc: Pc): State
    requires t < |s.threads|
  {
    PutPc(s, t, pc).(queue := [i], entryCount := 2, drive := Drive.Busy(Cmd(k, false, Zeros())))
  }

  lemma RequestSubmitted(s: State, t: nat, i: nat, k: Key)
    requires MustRead(s, t, i, k)
    ensures var s1, s2 := PutPc(s, t, Submit(i, false)), Requested(s, t, i, k, Test(OnIo(i, false))).(ide := Some(t));
            CheckValidStep(s, t, s1) && EnqueueStep(s1, t, s2)
  {
    assert s.queue + [i] == [i] && DriveKey(k) == k;
  }

  lemma RequestQueued(s: State, t: nat, i: nat, k: Key) returns (ss: seq<State>, acts: seq<Action>)
    requires MustRead(s, t, i, k)
    ensures Path(ss, acts) && ss[0] == s
    ensures ss[|acts|] == Requested(s, t, i, k, SetChan(OnIo(i, false))).(ide := Some(t))
  {
    RequestSubmitted(s, t, i, k);
    var s2 := Requested(s, t, i, k, Test(OnIo(i, false))).(ide := Some(t));
    ss, acts := [s], [];
    ss, acts := Extended(ss, acts, CheckValid(t), PutPc(s, t, Submit(i, false)));
    ss, acts := Extended(ss, acts, Enqueue(t), s2);
    ss, acts := Extended(ss, acts, TestIo(t), PutPc(s2, t, SetChan(OnIo(i, false))));
  }

  lemma SleepsOnRequest(s: State, t: nat, i: nat) returns (ss: seq<State>, acts: seq<Action>)
    requires |s.bufs| == NBUF && i < NBUF && t < |s.threads| && s.threads[t].pc == SetChan(OnIo(i, false))
    ensures Path(ss, acts) && ss[0] == s
    ensures ss[|acts|] == Put(s, t, s.threads[t].(pc := Asleep(OnIo(i, false)), chan := Some(BufChan(i)),
                                                  asleep := true, canWake := false)).(ide := None)
  {
    var w := OnIo(i, false);
    ss, acts := [s], [];
    var s1, s2, s3 := FallAsleep(s, t, w);
    ss, acts := Extended(ss, acts, SleepWrite(t), s1);
    ss, acts := Extended(ss, acts, SleepWrite(t), s2);
    ss, acts := Extended(ss, acts, SleepWrite(t), s3);
    ss, acts := Extended(ss, acts, SleepUnlock(t), PutPc(SetSpin(s3, w, None), t, Asleep(w)));
  }

  // First half: the thread is asleep on the buffer, whose request the drive works on.
  lemma RequestMade(s: State, t: nat, i: nat, k: Key) returns (ss: seq<State>, acts: seq<Action>)
    requires MustRead(s, t, i, k)
    ensures Path(ss, acts) && ss[0] == s && Served(ss[|acts|], t, i, k)
    ensures ss[|acts|].bufs == s.bufs && ss[|acts|].disk == s.disk && ss[|acts|].log == s.log
    ensures |ss[|acts|].threads| == |s.threads|
  {
    ss, acts := RequestQueued(s, t, i, k);
    var ss', acts' := SleepsOnRequest(ss[|acts|], t, i);
    ss, acts := Joined(ss, acts, ss', acts');
  }

  predicate Served(s: State, t: nat, i: nat, k: Key) {
    && |s.bufs| == NBUF && i < NBUF && t < |s.threads| && s.bufs[i].key == k && !s.bufs[i].dirty
    && s.queue == [i] && s.entryCount == 2 && s.ide == None && s.drive == Drive.Busy(Cmd(k, false, Zeros()))
    && s.threads[t].pc == Asleep(OnIo(i, false)) && s.threads[t].chan == Some(BufChan(i)) && s.threads[t].asleep
  }

  // The drive answers and the interrupt handler completes the request, flagging the thread.
  lemma Interrupted(s: State, t: nat, i: nat, k: Key) returns (ss: seq<State>, acts: seq<Action>)
    requires Served(s, t, i, k)
    ensures Path(ss, acts) && ss[0] == s
    ensures var last := ss[|acts|];
            && |last.threads| == |s.threads| && last.threads[t] == s.threads[t].(canWake := true)
            && last.bufs == s.bufs[i := Done(s, i, k)] && last.queue == [] && last.drive == Idle && last.disk == s.disk
            && last.log == s.log && last.ide == None
  {
    var s1 := s.(drive := Drive.Done(Cmd(k, false, Get(s.disk, k))));
    ss, acts := [s], [];
    ss, acts := Extended(ss, acts, DriveWorks, s1);
    ss, acts := Extended(ss, acts, Interrupt, Waking(Completed(s1), BufChan(i)));
  }

  // A flagged thread whose buffer has its data comes back from ThreadSleep and returns it.
  lemma Returns(s: State, t: nat, i: nat, k: Key) returns (ss: seq<State>, acts: seq<Action>)
    requires |s.bufs| == NBUF && i < NBUF && t < |s.threads| && s.ide == None
    requires Synced(s.bufs[i]) && s.bufs[i].key == k
    requires s.threads[t].pc == Asleep(OnIo(i, false)) && s.threads[t].asleep && s.threads[t].canWake
    ensures Path(ss, acts) && ss[0] == s
    ensures ss[|acts|] == Put(s, t, s.threads[t].(pc := Out, asleep := false, chan := None))
                          .(log := s.log + [BreadReturn(t, i, k, s.bufs[i].data)])
  {
    var w := OnIo(i, false);
    ss, acts := [s], [];
    var s1 := Put(s, t, s.threads[t].(asleep := false));
    ss, acts := Extended(ss, acts, Reschedule(t), s1);
    var s2 := Put(s1, t, s1.threads[t].(pc := Enter(w), chan := None));
    ss, acts := Extended(ss, acts, SleepReturn(t), s2);
    var s3 := PutPc(SetSpin(s2, w, Some(t)), t, Test(w));
    ss, acts := Extended(ss, acts, TakeSpin(t), s3);
    ss, acts := Extended(ss, acts, TestIo(t), PutPc(s3.(ide := None, log := s3.log + [BreadReturn(t, i, k, s.bufs[i].data)]), t, Out));
  }

  // The whole read: the thread sleeps, is woken by the interrupt, and returns the disk's data.
  lemma ReadCompletes(s: State, t: nat, i: nat, k: Key) returns (ss: seq<State>, acts: seq<Action>)
    requires MustRead(s, t, i, k)
    ensures Path(ss, acts) && ss[0] == s
    ensures var last := ss[|acts|];
            && |last.threads| == |s.threads| && last.threads[t].pc == Out
            && last.bufs == s.bufs[i := Done(s, i, k)] && last.queue == [] && last.drive == Idle && last.disk == s.disk
            && last.log == s.log + [BreadReturn(t, i, k, Get(s.disk, k))]
  {
    ss, acts := RequestMade(s, t, i, k);
    var ss', acts' := Interrupted(ss[|acts|], t, i, k);
    ss, acts := Joined(ss, acts, ss', acts');
    ss', acts' := Returns(ss[|acts|], t, i, k);
    ss, acts := Joined(ss, acts, ss', acts');
  }

  lemma Joined(ss: seq<State>, acts: seq<Action>, ss': seq<State>, acts': seq<Action>)
      returns (rs: seq<State>, ras: seq<Action>)
    requires Path(ss, acts) && Path(ss', acts') && ss[|acts|] == ss'[0]
    ensures Path(rs, ras) && rs[0] == ss[0] && rs[|ras|] == ss'[|acts'|]
  {
    rs, ras := ss[..|acts|] + ss', acts + acts';
    forall j | 0 <= j < |ras| ensures StepAt(rs, ras, j) {
      if j < |acts| {
        assert StepAt(ss, acts, j);
      } else {
        assert StepAt(ss', acts', j - |acts|);
      }
    }
  }
}
