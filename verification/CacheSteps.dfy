module CacheSteps {
  import opened Common
  import opened CacheModel
  import opened CacheProof

  // ---------- frame lemmas ----------

  // Differing at most in what the holder of the buffer does not look at.
  predicate Alike(b: Buf, b': Buf) { b' == b.(refcnt := b'.refcnt, inner := b'.inner) }

  // Thread u does not change, and nothing it relies on does.
  predicate Undisturbed(s: State, s': State, u: nat) {
    && |s.bufs| == |s'.bufs| == NBUF && u < |s.threads| && u < |s'.threads|
    && var x, x' := s.threads[u], s'.threads[u];
    && x'.pc == x.pc && x'.held == x.held && x'.chan == x.chan
    && (forall i :: i in x.held && i < NBUF ==> Alike(s.bufs[i], s'.bufs[i]) && (i in s'.queue <==> i in s.queue))
    && (forall i :: 0 <= i < NBUF && PcPins(x.pc, i) ==>
          && s'.bufs[i].key == s.bufs[i].key
          && (s.bufs[i].valid ==> s'.bufs[i].valid)
          && (s.bufs[i].inner == Some(u) ==> s'.bufs[i].inner == Some(u)
                                             && (s.bufs[i].locked ==> s'.bufs[i].locked)))
    && (s.ide == Some(u) ==> s'.ide == Some(u))
  }

  lemma ThreadFrame(s: State, s': State, u: nat)
    requires Undisturbed(s, s', u) && ThreadOk(s, u)
    ensures ThreadOk(s', u)
  {
    var x := s.threads[u];
    if InWait(x.pc) {
      assert x.pc.w.OnLock? ==> PcPins(x.pc, x.pc.w.i);
    }
  }

  // Thread t may have changed, but not in what buffer j's bookkeeping mentions.
  predicate SameFor(x: Thread, x': Thread, j: nat) {
    && (j in x.held <==> j in x'.held)
    && (PcPins(x.pc, j) <==> PcPins(x'.pc, j))
    && (Writing(x.pc, j) ==> Writing(x'.pc, j))
    && (IoWait(x.pc, j) ==> IoWait(x'.pc, j))
    && (InSpin(x.pc) && x.pc.w.OnLock? && x.pc.w.i == j ==> InSpin(x'.pc) && x'.pc.w.OnLock? && x'.pc.w.i == j)
  }

  predicate OneThread(s: State, s': State, t: nat) {
    && |s.bufs| == |s'.bufs| == NBUF && t < |s.threads| == |s'.threads|
    && s'.threads == s.threads[t := s'.threads[t]]
  }

  lemma BufFrame(s: State, s': State, t: nat, j: nat)
    requires OneThread(s, s', t) && j < NBUF && s'.bufs[j] == s.bufs[j] && (j in s'.queue ==> j in s.queue)
    requires SameFor(s.threads[t], s'.threads[t], j) && BufOk(s, j)
    ensures BufOk(s', j)
  {
    SumPinsUpdate(s.threads, t, s'.threads[t], j);
  }

  // ---------- Wakeup ----------

  lemma WakingCore(s: State, ch: Chan)
    requires Core(s)
    ensures Core(Waking(s, ch))
  {
    var s' := Waking(s, ch);
    forall i | 0 <= i < NBUF ensures BufOk(s', i) {
      WakingBuf(s, ch, i);
    }
    forall u | 0 <= u < |s'.threads| ensures ThreadOk(s', u) {
      assert ThreadOk(s, u);
      ThreadFrame(s, s', u);
    }
  }

  lemma WakingBuf(s: State, ch: Chan, i: nat)
    requires |s.bufs| == NBUF && i < NBUF && BufOk(s, i)
    ensures BufOk(Waking(s, ch), i)
  {
    SumPinsWake(s.threads, ch, i);
  }

  // ---------- assembling a step ----------

  lemma Assemble(s: State, s': State, t: nat)
    requires Core(s) && OneThread(s, s', t) && Shape(s') && UniqueKeys(s'.bufs)
    requires ThreadOk(s', t)
    requires forall u :: 0 <= u < |s.threads| && u != t ==> Undisturbed(s, s', u)
    requires forall j :: 0 <= j < NBUF ==>
               (s'.bufs[j] == s.bufs[j] && (j in s'.queue ==> j in s.queue) && SameFor(s.threads[t], s'.threads[t], j)) || BufOk(s', j)
    ensures Core(s')
  {
    forall u | 0 <= u < |s'.threads| && u != t ensures ThreadOk(s', u) {
      assert ThreadOk(s, u);
      ThreadFrame(s, s', u);
    }
    forall j | 0 <= j < NBUF ensures BufOk(s', j) {
      if !BufOk(s', j) {
        assert BufOk(s, j);
        BufFrame(s, s', t, j);
      }
    }
  }

  // Buffer i changes at most in what threads other than t tolerate.
  predicate Gentle(b: Buf, b': Buf, t: nat) {
    && b'.key == b.key && (b.valid ==> b'.valid)
    && (b.inner.Some? && b.inner.value != t ==> b'.inner == b.inner && (b.locked ==> b'.locked))
    && (Alike(b, b') || (b.locked ==> b.owner == t))
  }

  predicate Local(s: State, s': State, t: nat, i: nat) {
    && OneThread(s, s', t) && i < NBUF
    && (forall j :: 0 <= j < NBUF && j != i ==> s'.bufs[j] == s.bufs[j] && (j in s'.queue <==> j in s.queue))
    && Gentle(s.bufs[i], s'.bufs[i], t)
    && (s.ide.Some? && s.ide.value != t ==> s'.ide == s.ide)
    && ((i in s'.queue <==> i in s.queue) || (s.bufs[i].locked && s.bufs[i].owner == t))
  }

  lemma Others(s: State, s': State, t: nat, i: nat, u: nat)
    requires Local(s, s', t, i) && u < |s.threads| && u != t && ThreadOk(s, u)
    ensures Undisturbed(s, s', u)
  {
  }

  lemma LocalStep(s: State, s': State, t: nat, i: nat)
    requires Core(s) && Local(s, s', t, i) && Shape(s') && UniqueKeys(s'.bufs)
    requires ThreadOk(s', t) && BufOk(s', i)
    requires forall j :: 0 <= j < NBUF && j != i ==> SameFor(s.threads[t], s'.threads[t], j)
    ensures Core(s')
  {
    forall u | 0 <= u < |s.threads| && u != t ensures Undisturbed(s, s', u) {
      assert ThreadOk(s, u);
      Others(s, s', t, i, u);
    }
    Assemble(s, s', t);
  }

  lemma TakeSpinSelf(s: State, t: nat, s': State)
    requires |s.bufs| == NBUF && TakeSpinStep(s, t, s') && ThreadOk(s, t) && s.threads[t].pc.w.i < NBUF && BufOk(s, s.threads[t].pc.w.i)
    ensures ThreadOk(s', t) && BufOk(s', s.threads[t].pc.w.i) && Local(s, s', t, s.threads[t].pc.w.i)
  {
    SumPinsUpdate(s.threads, t, s'.threads[t], s.threads[t].pc.w.i);
  }

  lemma TakeSpinCore(s: State, t: nat, s': State)
    requires Core(s) && TakeSpinStep(s, t, s')
    ensures Core(s')
  {
    assert ThreadOk(s, t) && BufOk(s, s.threads[t].pc.w.i);
    TakeSpinSelf(s, t, s');
    LocalStep(s, s', t, s.threads[t].pc.w.i);
  }

  lemma TestLockSelf(s: State, t: nat, s': State)
    requires |s.bufs| == NBUF && TestLockStep(s, t, s') && ThreadOk(s, t) && s.threads[t].pc.w.i < NBUF && BufOk(s, s.threads[t].pc.w.i)
    ensures ThreadOk(s', t) && BufOk(s', s.threads[t].pc.w.i) && Local(s, s', t, s.threads[t].pc.w.i)
  {
    SumPinsUpdate(s.threads, t, s'.threads[t], s.threads[t].pc.w.i);
  }

  lemma TestLockCore(s: State, t: nat, s': State)
    requires Core(s) && TestLockStep(s, t, s')
    ensures Core(s')
  {
    assert ThreadOk(s, t) && BufOk(s, s.threads[t].pc.w.i);
    TestLockSelf(s, t, s');
    LocalStep(s, s', t, s.threads[t].pc.w.i);
  }

  lemma TestIoSelf(s: State, t: nat, s': State)
    requires |s.bufs| == NBUF && TestIoStep(s, t, s') && ThreadOk(s, t) && s.threads[t].pc.w.i < NBUF && BufOk(s, s.threads[t].pc.w.i)
    ensures ThreadOk(s', t) && BufOk(s', s.threads[t].pc.w.i) && Local(s, s', t, s.threads[t].pc.w.i)
  {
    SumPinsUpdate(s.threads, t, s'.threads[t], s.threads[t].pc.w.i);
  }

  lemma TestIoCore(s: State, t: nat, s': State)
    requires Core(s) && TestIoStep(s, t, s')
    ensures Core(s')
  {
    assert ThreadOk(s, t) && BufOk(s, s.threads[t].pc.w.i);
    TestIoSelf(s, t, s');
    LocalStep(s, s', t, s.threads[t].pc.w.i);
  }

  lemma SleepWriteSelf(s: State, t: nat, s': State)
    requires |s.bufs| == NBUF && SleepWriteStep(s, t, s') && ThreadOk(s, t)
    ensures ThreadOk(s', t) && Local(s, s', t, s.threads[t].pc.w.i)
    ensures forall j :: 0 <= j < NBUF ==> SameFor(s.threads[t], s'.threads[t], j)
  {
  }

  lemma SleepWriteBuf(s: State, t: nat, s': State, i: nat)
    requires |s.bufs| == NBUF && SleepWriteStep(s, t, s') && i < NBUF && BufOk(s, i)
    ensures BufOk(s', i)
  {
    BufFrame(s, s', t, i);
  }

  lemma SleepWriteCore(s: State, t: nat, s': State)
    requires Core(s) && SleepWriteStep(s, t, s')
    ensures Core(s')
  {
    assert ThreadOk(s, t) && BufOk(s, s.threads[t].pc.w.i);
    SleepWriteSelf(s, t, s');
    SleepWriteBuf(s, t, s', s.threads[t].pc.w.i);
    LocalStep(s, s', t, s.threads[t].pc.w.i);
  }

  lemma SleepUnlockSelf(s: State, t: nat, s': State)
    requires |s.bufs| == NBUF && SleepUnlockStep(s, t, s') && ThreadOk(s, t) && s.threads[t].pc.w.i < NBUF && BufOk(s, s.threads[t].pc.w.i)
    ensures ThreadOk(s', t) && BufOk(s', s.threads[t].pc.w.i) && Local(s, s', t, s.threads[t].pc.w.i)
  {
    SumPinsUpdate(s.threads, t, s'.threads[t], s.threads[t].pc.w.i);
  }

  lemma SleepUnlockCore(s: State, t: nat, s': State)
    requires Core(s) && SleepUnlockStep(s, t, s')
    ensures Core(s')
  {
    assert ThreadOk(s, t) && BufOk(s, s.threads[t].pc.w.i);
    SleepUnlockSelf(s, t, s');
    LocalStep(s, s', t, s.threads[t].pc.w.i);
  }

  lemma SleepReturnSelf(s: State, t: nat, s': State)
    requires |s.bufs| == NBUF && SleepReturnStep(s, t, s') && ThreadOk(s, t) && s.threads[t].pc.w.i < NBUF && BufOk(s, s.threads[t].pc.w.i)
    ensures ThreadOk(s', t) && BufOk(s', s.threads[t].pc.w.i) && Local(s, s', t, s.threads[t].pc.w.i)
  {
    SumPinsUpdate(s.threads, t, s'.threads[t], s.threads[t].pc.w.i);
  }

  lemma SleepReturnCore(s: State, t: nat, s': State)
    requires Core(s) && SleepReturnStep(s, t, s')
    ensures Core(s')
  {
    assert ThreadOk(s, t) && BufOk(s, s.threads[t].pc.w.i);
    SleepReturnSelf(s, t, s');
    LocalStep(s, s', t, s.threads[t].pc.w.i);
  }

  lemma CheckValidSelf(s: State, t: nat, s': State)
    requires |s.bufs| == NBUF && CheckValidStep(s, t, s') && ThreadOk(s, t) && s.threads[t].pc.i < NBUF && BufOk(s, s.threads[t].pc.i)
    ensures ThreadOk(s', t) && BufOk(s', s.threads[t].pc.i) && Local(s, s', t, s.threads[t].pc.i)
  {
    SumPinsUpdate(s.threads, t, s'.threads[t], s.threads[t].pc.i);
  }

  lemma CheckValidCore(s: State, t: nat, s': State)
    requires Core(s) && CheckValidStep(s, t, s')
    ensures Core(s')
  {
    assert ThreadOk(s, t) && BufOk(s, s.threads[t].pc.i);
    CheckValidSelf(s, t, s');
    LocalStep(s, s', t, s.threads[t].pc.i);
  }

  lemma ClearLockSelf(s: State, t: nat, s': State)
    requires |s.bufs| == NBUF && ClearLockStep(s, t, s') && ThreadOk(s, t) && s.threads[t].pc.i < NBUF && BufOk(s, s.threads[t].pc.i)
    ensures ThreadOk(s', t) && BufOk(s', s.threads[t].pc.i) && Local(s, s', t, s.threads[t].pc.i)
  {
    SumPinsUpdate(s.threads, t, s'.threads[t], s.threads[t].pc.i);
  }

  lemma ClearLockCore(s: State, t: nat, s': State)
    requires Core(s) && ClearLockStep(s, t, s')
    ensures Core(s')
  {
    assert ThreadOk(s, t) && BufOk(s, s.threads[t].pc.i);
    ClearLockSelf(s, t, s');
    LocalStep(s, s', t, s.threads[t].pc.i);
  }

  lemma DecrRefSelf(s: State, t: nat, s': State)
    requires |s.bufs| == NBUF && DecrRefStep(s, t, s') && ThreadOk(s, t) && s.threads[t].pc.i < NBUF && BufOk(s, s.threads[t].pc.i)
    ensures ThreadOk(s', t) && BufOk(s', s.threads[t].pc.i) && Local(s, s', t, s.threads[t].pc.i)
  {
    SumPinsUpdate(s.threads, t, s'.threads[t], s.threads[t].pc.i);
  }

  lemma DecrRefCore(s: State, t: nat, s': State)
    requires Core(s) && DecrRefStep(s, t, s')
    ensures Core(s')
  {
    assert ThreadOk(s, t) && BufOk(s, s.threads[t].pc.i);
    DecrRefSelf(s, t, s');
    LocalStep(s, s', t, s.threads[t].pc.i);
  }

  lemma EnqueueSelf(s: State, t: nat, s': State)
    requires |s.bufs| == NBUF && EnqueueStep(s, t, s') && ThreadOk(s, t) && s.threads[t].pc.i < NBUF && BufOk(s, s.threads[t].pc.i)
    ensures ThreadOk(s', t) && BufOk(s', s.threads[t].pc.i) && Local(s, s', t, s.threads[t].pc.i)
  {
    SumPinsUpdate(s.threads, t, s'.threads[t], s.threads[t].pc.i);
  }

  lemma EnqueueCore(s: State, t: nat, s': State)
    requires Core(s) && EnqueueStep(s, t, s')
    ensures Core(s')
  {
    assert ThreadOk(s, t) && BufOk(s, s.threads[t].pc.i);
    EnqueueSelf(s, t, s');
    LocalStep(s, s', t, s.threads[t].pc.i);
  }

  lemma BgetHitSelf(s: State, t: nat, i: nat, k: Key, s': State)
    requires |s.bufs| == NBUF && BgetHitStep(s, t, i, k, s') && ThreadOk(s, t) && i < NBUF && BufOk(s, i)
    ensures ThreadOk(s', t) && BufOk(s', i) && Local(s, s', t, i)
  {
    SumPinsUpdate(s.threads, t, s'.threads[t], i);
  }

  lemma BgetHitCore(s: State, t: nat, i: nat, k: Key, s': State)
    requires Core(s) && BgetHitStep(s, t, i, k, s')
    ensures Core(s')
  {
    assert ThreadOk(s, t) && BufOk(s, i);
    BgetHitSelf(s, t, i, k, s');
    LocalStep(s, s', t, i);
  }

  lemma BwriteSelf(s: State, t: nat, i: nat, s': State)
    requires |s.bufs| == NBUF && BwriteStep(s, t, i, s') && ThreadOk(s, t) && i < NBUF && BufOk(s, i)
    ensures ThreadOk(s', t) && BufOk(s', i) && Local(s, s', t, i)
  {
    SumPinsUpdate(s.threads, t, s'.threads[t], i);
  }

  lemma BwriteCore(s: State, t: nat, i: nat, s': State)
    requires Core(s) && BwriteStep(s, t, i, s')
    ensures Core(s')
  {
    assert ThreadOk(s, t) && BufOk(s, i);
    BwriteSelf(s, t, i, s');
    LocalStep(s, s', t, i);
  }

  lemma BrelseSelf(s: State, t: nat, i: nat, s': State)
    requires |s.bufs| == NBUF && BrelseStep(s, t, i, s') && ThreadOk(s, t) && i < NBUF && BufOk(s, i)
    ensures ThreadOk(s', t) && BufOk(s', i) && Local(s, s', t, i)
  {
    SumPinsUpdate(s.threads, t, s'.threads[t], i);
  }

  lemma BrelseCore(s: State, t: nat, i: nat, s': State)
    requires Core(s) && BrelseStep(s, t, i, s')
    ensures Core(s')
  {
    assert ThreadOk(s, t) && BufOk(s, i);
    BrelseSelf(s, t, i, s');
    LocalStep(s, s', t, i);
  }

  lemma ModifySelf(s: State, t: nat, i: nat, d: Block, s': State)
    requires |s.bufs| == NBUF && ModifyStep(s, t, i, d, s') && ThreadOk(s, t) && i < NBUF && BufOk(s, i)
    ensures ThreadOk(s', t) && BufOk(s', i) && Local(s, s', t, i)
  {
    SumPinsUpdate(s.threads, t, s'.threads[t], i);
  }

  lemma ModifyCore(s: State, t: nat, i: nat, d: Block, s': State)
    requires Core(s) && ModifyStep(s, t, i, d, s')
    ensures Core(s')
  {
    assert ThreadOk(s, t) && BufOk(s, i);
    ModifySelf(s, t, i, d, s');
    LocalStep(s, s', t, i);
  }

  lemma RescheduleCore(s: State, t: nat, s': State)
    requires Core(s) && RescheduleStep(s, t, s')
    ensures Core(s')
  {
    assert ThreadOk(s, t) && BufOk(s, 0);
    BufFrame(s, s', t, 0);
    ThreadFrame(s, s', t);
    LocalStep(s, s', t, 0);
  }

  // A buffer with no references is held by nobody and pinned by nobody.
  lemma Unpinned(s: State, i: nat, u: nat)
    requires Core(s) && i < NBUF && s.bufs[i].refcnt == 0 && u < |s.threads|
    ensures i !in s.threads[u].held && !PcPins(s.threads[u].pc, i)
  {
    assert BufOk(s, i);
    SumPinsUpdate(s.threads, u, s.threads[u], i);
  }

  lemma BgetRecycleSelf(s: State, t: nat, i: nat, k: Key, s': State)
    requires |s.bufs| == NBUF && BgetRecycleStep(s, t, i, k, s') && ThreadOk(s, t) && BufOk(s, i)
    requires i !in s.threads[t].held
    ensures ThreadOk(s', t) && BufOk(s', i)
  {
    SumPinsUpdate(s.threads, t, s'.threads[t], i);
    if s.bufs[i].locked {
      SumPinsUpdate(s.threads, s.bufs[i].owner, s.threads[s.bufs[i].owner], i);
    }
    if s.bufs[i].inner.Some? {
      SumPinsUpdate(s.threads, s.bufs[i].inner.value, s.threads[s.bufs[i].inner.value], i);
    }
  }

  lemma BgetRecycleCore(s: State, t: nat, i: nat, k: Key, s': State)
    requires Core(s) && BgetRecycleStep(s, t, i, k, s')
    ensures Core(s')
  {
    assert ThreadOk(s, t) && BufOk(s, i);
    Unpinned(s, i, t);
    BgetRecycleSelf(s, t, i, k, s');
    forall u | 0 <= u < |s.threads| && u != t ensures Undisturbed(s, s', u) {
      Unpinned(s, i, u);
    }
    Assemble(s, s', t);
  }

  lemma DecrSelf(s: State, t: nat, s': State)
    requires |s.bufs| == NBUF && t < |s.threads| && s.threads[t].pc.WakePending? && ThreadOk(s, t)
    requires s.threads[t].pc.i < NBUF && BufOk(s, s.threads[t].pc.i)
    requires s' == PutPc(s, t, Decr(s.threads[t].pc.i))
    ensures ThreadOk(s', t) && BufOk(s', s.threads[t].pc.i) && Local(s, s', t, s.threads[t].pc.i)
  {
    SumPinsUpdate(s.threads, t, s'.threads[t], s.threads[t].pc.i);
  }

  lemma DoWakeupCore(s: State, t: nat, s': State)
    requires Core(s) && DoWakeupStep(s, t, s')
    ensures Core(s')
  {
    var i := s.threads[t].pc.i;
    var ch := LockChan(i);
    var m := Waking(s, ch);
    WakingCore(s, ch);
    assert ThreadOk(s, t) && ThreadOk(m, t) && BufOk(m, i);
    assert s' == PutPc(m, t, Decr(i));
    DecrSelf(m, t, s');
    LocalStep(m, s', t, i);
  }

  lemma DriveWorksCore(s: State, s': State)
    requires Core(s) && DriveWorksStep(s, s')
    ensures Core(s')
  {
    forall i | 0 <= i < NBUF ensures BufOk(s', i) { assert BufOk(s, i); }
    forall u | 0 <= u < |s'.threads| ensures ThreadOk(s', u) {
      assert ThreadOk(s, u);
      ThreadFrame(s, s', u);
    }
  }

  lemma CompletedOwner(s: State, t: nat)
    requires Shape(s) && s.drive.Done? && s.ide == None && s.queue != []
    requires t < |s.threads| && s.bufs[s.queue[0]].locked && t == s.bufs[s.queue[0]].owner
    requires ThreadOk(s, t) && BufOk(s, s.queue[0])
    ensures ThreadOk(Completed(s), t) && BufOk(Completed(s), s.queue[0]) && Shape(Completed(s))
    ensures Local(s, Completed(s), t, s.queue[0])
  {
    var i, q, q' := s.queue[0], s.queue, s.queue[1..];
    assert forall j :: 0 <= j < |q'| ==> q'[j] == q[j + 1];
    assert i !in q';
    assert forall j :: j != i ==> (j in q' <==> j in q) by {
      forall j | j != i && j in q ensures j in q' {
        var k :| 0 <= k < |q| && q[k] == j;
        assert q'[k - 1] == j;
      }
    }
  }

  lemma CompletedCore(s: State)
    requires Core(s) && s.drive.Done? && s.ide == None && s.queue != []
    ensures Core(Completed(s))
  {
    var i := s.queue[0];
    assert BufOk(s, i);
    var t := s.bufs[i].owner;
    assert ThreadOk(s, t);
    CompletedOwner(s, t);
    SumPinsUpdate(s.threads, t, s.threads[t], i);
    assert UniqueKeys(Completed(s).bufs);
    LocalStep(s, Completed(s), t, i);
  }

  lemma InterruptCore(s: State, s': State)
    requires Core(s) && InterruptStep(s, s')
    ensures Core(s')
  {
    CompletedCore(s);
    WakingCore(Completed(s), BufChan(s.queue[0]));
    assert s' == Waking(Completed(s), BufChan(s.queue[0]));
  }
}
