/**
The buffer cache, its sleep locks and the IDE request queue as one state machine.

Every region that the kernel runs under a spinlock is one atomic step, except the
body of ThreadSleep, whose separate writes are separate steps because Wakeup does
not take the sleeper's lock.  Threads, the drive and the interrupt handler
interleave freely.  The scheduler is over-approximated: a thread in ThreadSleep may
go on at any time, whether or not it was woken.
*/
module CacheModel {
  import opened Common

  const NBUF: nat := 16
  const FSSIZE: nat := 129024

  // The contents of a disk block, or of a buffer's data field.
  type Block = b: Bytes | |b| == SECTOR witness seq(SECTOR, i => 0)

  function Zeros(): Block { seq(SECTOR, i => 0) }

  datatype Key = Key(dev: nat, blockno: nat)

  // A `struct iobuf`.  `inner` is the holder of the sleep lock's own spinlock.
  // `changed` records that the holder wrote `data` and has not called bwrite since.
  datatype Buf = Buf(key: Key, valid: bool, dirty: bool, refcnt: nat, data: Block,
                     locked: bool, owner: int, inner: Option<nat>, changed: bool)

  datatype Chan = BufChan(b: nat) | LockChan(b: nat)

  // What a thread waits for, and under which spinlock it tests the condition.
  datatype Wait = OnLock(i: nat, key: Key) | OnIo(i: nat, writing: bool)

  datatype Pc =
    | Out                         // between cache calls
    | Enter(w: Wait)              // wants the spinlock guarding w
    | Test(w: Wait)               // holds it, about to test the condition
    | SetChan(w: Wait)            // in ThreadSleep, spinlock held: about to write sleep_channel,
    | SetStatus(w: Wait)          //   then status,
    | ClearFlag(w: Wait)          //   then can_wakeup,
    | Unlock(w: Wait)             //   then to release the spinlock
    | Asleep(w: Wait)             // in ThreadSleep, spinlock released, sleep_channel still set
    | Check(i: nat, key: Key)     // bread: owns the sleep lock, about to test B_VALID
    | Submit(i: nat, writing: bool) // iderw: about to take ide_lock and queue the request
    | Releasing(i: nat)           // brelse: about to clear is_locked
    | WakePending(i: nat)         // release_Sleeplock: lock cleared, Wakeup still to come
    | Decr(i: nat)                // brelse: about to decrement refcnt

  datatype Thread = Thread(pc: Pc, held: set<nat>, chan: Option<Chan>, asleep: bool, canWake: bool)

  datatype Cmd = Cmd(key: Key, writing: bool, payload: Block)
  datatype Drive = Idle | Busy(cmd: Cmd) | Done(cmd: Cmd)

  datatype Event =
    | BreadReturn(t: nat, i: nat, key: Key, data: Block)
    | BwriteReturn(t: nat, i: nat, key: Key, data: Block)

  type Disk = map<Key, Block>

  datatype State = State(bufs: seq<Buf>, threads: seq<Thread>, ide: Option<nat>,
                         queue: seq<nat>, entryCount: nat, drive: Drive, disk: Disk,
                         log: seq<Event>)

  function Get(d: Disk, k: Key): Block { if k in d then d[k] else Zeros() }

  // The drive is selected by the low bit of dev only.
  function DriveKey(k: Key): Key { Key(k.dev % 2, k.blockno) }

  // ---------- bget's two scans ----------

  predicate HasKey(bufs: seq<Buf>, k: Key) {
    exists i :: 0 <= i < |bufs| && bufs[i].key == k
  }

  predicate IsHit(bufs: seq<Buf>, k: Key, i: nat) {
    i < |bufs| && bufs[i].key == k && forall j :: 0 <= j < i ==> bufs[j].key != k
  }

  predicate Recyclable(b: Buf) { b.refcnt == 0 && !b.dirty }

  predicate IsVictim(bufs: seq<Buf>, i: nat) {
    i < |bufs| && Recyclable(bufs[i]) && forall j :: 0 <= j < i ==> !Recyclable(bufs[j])
  }

  function Recycled(b: Buf, k: Key): Buf {
    b.(key := k, valid := false, dirty := false, refcnt := 1)
  }

  // ---------- sleeping and waking ----------

  function ChanOf(w: Wait): Chan {
    match w case OnLock(i, _) => LockChan(i) case OnIo(i, _) => BufChan(i)
  }

  function Woken(x: Thread, ch: Chan): Thread {
    if x.asleep && x.chan == Some(ch) then x.(canWake := true) else x
  }

  function WakeAll(ts: seq<Thread>, ch: Chan): seq<Thread> {
    seq(|ts|, j requires 0 <= j < |ts| => Woken(ts[j], ch))
  }

  // Wakeup(ch)
  function Waking(s: State, ch: Chan): State { s.(threads := WakeAll(s.threads, ch)) }

  // A thread holds the spinlock guarding w exactly at these points.
  predicate InSpin(pc: Pc) {
    pc.Test? || pc.SetChan? || pc.SetStatus? || pc.ClearFlag? || pc.Unlock?
  }

  predicate InWait(pc: Pc) { pc.Enter? || InSpin(pc) || pc.Asleep? }

  predicate Synced(b: Buf) { b.valid && !b.dirty }

  // ---------- the drive ----------

  function CmdFor(b: Buf): Cmd {
    Cmd(DriveKey(b.key), b.dirty, if b.dirty then b.data else Zeros())
  }

  function NextDrive(bufs: seq<Buf>, queue: seq<nat>): Drive
    requires forall j :: 0 <= j < |queue| ==> queue[j] < |bufs|
  {
    if queue == [] then Idle else Busy(CmdFor(bufs[queue[0]]))
  }

  // ---------- steps ----------

  function Put(s: State, t: nat, x: Thread): State requires t < |s.threads| {
    s.(threads := s.threads[t := x])
  }

  function PutPc(s: State, t: nat, pc: Pc): State requires t < |s.threads| {
    Put(s, t, s.threads[t].(pc := pc))
  }

  function PutBuf(s: State, i: nat, b: Buf): State requires i < |s.bufs| {
    s.(bufs := s.bufs[i := b])
  }

  predicate SpinFree(s: State, w: Wait) {
    match w
    case OnLock(i, _) => i < |s.bufs| && s.bufs[i].inner == None
    case OnIo(_, _) => s.ide == None
  }

  function SetSpin(s: State, w: Wait, h: Option<nat>): State requires w.i < |s.bufs| {
    match w
    case OnLock(i, _) => PutBuf(s, i, s.bufs[i].(inner := h))
    case OnIo(_, _) => s.(ide := h)
  }

  datatype Action =
    | BgetHit(t: nat, i: nat, k: Key)
    | BgetRecycle(t: nat, i: nat, k: Key)
    | TakeSpin(t: nat)
    | TestLock(t: nat)
    | TestIo(t: nat)
    | SleepWrite(t: nat)
    | SleepUnlock(t: nat)
    | SleepReturn(t: nat)
    | Reschedule(t: nat)
    | CheckValid(t: nat)
    | Modify(t: nat, i: nat, d: Block)
    | Bwrite(t: nat, i: nat)
    | Enqueue(t: nat)
    | Brelse(t: nat, i: nat)
    | ClearLock(t: nat)
    | DoWakeup(t: nat)
    | DecrRef(t: nat)
    | DriveWorks
    | Interrupt

  predicate At(s: State, t: nat) { t < |s.threads| }

  // Calls that the kernel makes: disk 0 or 1, and a block inside the file system
  // (any other block panics in idestart).
  predicate GoodKey(k: Key) { k.dev < 2 && k.blockno < FSSIZE }

  predicate BgetHitStep(s: State, t: nat, i: nat, k: Key, s': State) requires |s.bufs| == NBUF {
    At(s, t) && s.threads[t].pc == Out && GoodKey(k) && IsHit(s.bufs, k, i) &&
    s' == PutPc(PutBuf(s, i, s.bufs[i].(refcnt := s.bufs[i].refcnt + 1)), t, Enter(OnLock(i, k)))
  }

  predicate BgetRecycleStep(s: State, t: nat, i: nat, k: Key, s': State) requires |s.bufs| == NBUF {
    At(s, t) && s.threads[t].pc == Out && GoodKey(k) && !HasKey(s.bufs, k) && IsVictim(s.bufs, i) &&
    s' == PutPc(PutBuf(s, i, Recycled(s.bufs[i], k)), t, Enter(OnLock(i, k)))
  }

  predicate TakeSpinStep(s: State, t: nat, s': State) requires |s.bufs| == NBUF {
    At(s, t) && s.threads[t].pc.Enter? && s.threads[t].pc.w.i < NBUF && SpinFree(s, s.threads[t].pc.w) &&
    s' == PutPc(SetSpin(s, s.threads[t].pc.w, Some(t)), t, Test(s.threads[t].pc.w))
  }

  predicate TestLockStep(s: State, t: nat, s': State) requires |s.bufs| == NBUF {
    At(s, t) && s.threads[t].pc.Test? && s.threads[t].pc.w.OnLock? && s.threads[t].pc.w.i < NBUF &&
    (var w := s.threads[t].pc.w;
     var b := s.bufs[w.i];
     if b.locked then
       s' == PutPc(s, t, SetChan(w))
     else
       s' == Put(PutBuf(s, w.i, b.(locked := true, owner := t, inner := None)), t,
                 s.threads[t].(pc := Check(w.i, w.key), held := s.threads[t].held + {w.i})))
  }

  predicate TestIoStep(s: State, t: nat, s': State) requires |s.bufs| == NBUF {
    At(s, t) && s.threads[t].pc.Test? && s.threads[t].pc.w.OnIo? && s.threads[t].pc.w.i < NBUF &&
    (var w := s.threads[t].pc.w;
     var b := s.bufs[w.i];
     if Synced(b) then
       s' == PutPc(s.(ide := None,
                      log := s.log + [if w.writing then BwriteReturn(t, w.i, b.key, b.data)
                                      else BreadReturn(t, w.i, b.key, b.data)]), t, Out)
     else
       s' == PutPc(s, t, SetChan(w)))
  }

  predicate SleepWriteStep(s: State, t: nat, s': State) requires |s.bufs| == NBUF {
    At(s, t) &&
    (var x := s.threads[t];
     match x.pc
     case SetChan(w) => s' == Put(s, t, x.(pc := SetStatus(w), chan := Some(ChanOf(w))))
     case SetStatus(w) => s' == Put(s, t, x.(pc := ClearFlag(w), asleep := true))
     case ClearFlag(w) => s' == Put(s, t, x.(pc := Unlock(w), canWake := false))
     case _ => false)
  }

  predicate SleepUnlockStep(s: State, t: nat, s': State) requires |s.bufs| == NBUF {
    At(s, t) && s.threads[t].pc.Unlock? && s.threads[t].pc.w.i < NBUF &&
    s' == PutPc(SetSpin(s, s.threads[t].pc.w, None), t, Asleep(s.threads[t].pc.w))
  }

  predicate SleepReturnStep(s: State, t: nat, s': State) requires |s.bufs| == NBUF {
    At(s, t) && s.threads[t].pc.Asleep? &&
    s' == Put(s, t, s.threads[t].(pc := Enter(s.threads[t].pc.w), chan := None))
  }

  predicate RescheduleStep(s: State, t: nat, s': State) requires |s.bufs| == NBUF {
    At(s, t) && !InSpin(s.threads[t].pc) && s.threads[t].asleep && s.threads[t].canWake &&
    s' == Put(s, t, s.threads[t].(asleep := false))
  }

  predicate CheckValidStep(s: State, t: nat, s': State) requires |s.bufs| == NBUF {
    At(s, t) && s.threads[t].pc.Check? && s.threads[t].pc.i < NBUF &&
    (var i := s.threads[t].pc.i;
     var b := s.bufs[i];
     if b.valid then
       s' == PutPc(s.(log := s.log + [BreadReturn(t, i, s.threads[t].pc.key, b.data)]), t, Out)
     else
       s' == PutPc(s, t, Submit(i, false)))
  }

  predicate ModifyStep(s: State, t: nat, i: nat, d: Block, s': State) requires |s.bufs| == NBUF {
    At(s, t) && s.threads[t].pc == Out && i < NBUF && i in s.threads[t].held &&
    s' == PutBuf(s, i, s.bufs[i].(data := d, changed := true))
  }

  predicate BwriteStep(s: State, t: nat, i: nat, s': State) requires |s.bufs| == NBUF {
    At(s, t) && s.threads[t].pc == Out && i < NBUF && i in s.threads[t].held &&
    s' == PutPc(PutBuf(s, i, s.bufs[i].(dirty := true)), t, Submit(i, true))
  }

  predicate EnqueueStep(s: State, t: nat, s': State) requires |s.bufs| == NBUF {
    At(s, t) && s.threads[t].pc.Submit? && s.threads[t].pc.i < NBUF && s.ide == None &&
    (var i := s.threads[t].pc.i;
     var q := s.queue + [i];
     s' == PutPc(s.(queue := q, entryCount := s.entryCount + 2, ide := Some(t),
                    drive := if q[0] == i then Busy(CmdFor(s.bufs[i])) else s.drive),
                 t, Test(OnIo(i, s.threads[t].pc.writing))))
  }

  predicate BrelseStep(s: State, t: nat, i: nat, s': State) requires |s.bufs| == NBUF {
    At(s, t) && s.threads[t].pc == Out && i < NBUF && i in s.threads[t].held && !s.bufs[i].changed &&
    s' == PutPc(s, t, Releasing(i))
  }

  predicate ClearLockStep(s: State, t: nat, s': State) requires |s.bufs| == NBUF {
    At(s, t) && s.threads[t].pc.Releasing? && s.threads[t].pc.i < NBUF &&
    (var i := s.threads[t].pc.i;
     s.bufs[i].inner == None &&
     s' == Put(PutBuf(s, i, s.bufs[i].(locked := false, owner := -1)), t,
               s.threads[t].(pc := WakePending(i), held := s.threads[t].held - {i})))
  }

  predicate DoWakeupStep(s: State, t: nat, s': State) requires |s.bufs| == NBUF {
    At(s, t) && s.threads[t].pc.WakePending? &&
    s' == PutPc(Waking(s, LockChan(s.threads[t].pc.i)), t, Decr(s.threads[t].pc.i))
  }

  predicate DecrRefStep(s: State, t: nat, s': State) requires |s.bufs| == NBUF {
    At(s, t) && s.threads[t].pc.Decr? && s.threads[t].pc.i < NBUF && s.bufs[s.threads[t].pc.i].refcnt > 0 &&
    s' == PutPc(PutBuf(s, s.threads[t].pc.i,
                       s.bufs[s.threads[t].pc.i].(refcnt := s.bufs[s.threads[t].pc.i].refcnt - 1)), t, Out)
  }

  predicate DriveWorksStep(s: State, s': State) requires |s.bufs| == NBUF {
    s.drive.Busy? &&
    (var c := s.drive.cmd;
     s' == if c.writing then s.(disk := s.disk[c.key := c.payload], drive := Done(c))
           else s.(drive := Done(c.(payload := Get(s.disk, c.key)))))
  }

  // The interrupt handler, before its Wakeup.
  function Completed(s: State): State
    requires |s.bufs| == NBUF && s.drive.Done? && s.queue != [] && s.entryCount >= 2
    requires forall j :: 0 <= j < |s.queue| ==> s.queue[j] < NBUF
  {
    var i := s.queue[0];
    var b := s.bufs[i];
    var bufs := s.bufs[i := b.(data := if b.dirty then b.data else s.drive.cmd.payload,
                               valid := true, dirty := false, changed := false)];
    s.(bufs := bufs, queue := s.queue[1..], entryCount := s.entryCount - 2,
       drive := NextDrive(bufs, s.queue[1..]))
  }

  predicate InterruptStep(s: State, s': State) requires |s.bufs| == NBUF {
    s.drive.Done? && s.ide == None && s.queue != [] && s.entryCount >= 2 &&
    (forall j :: 0 <= j < |s.queue| ==> s.queue[j] < NBUF) &&
    s' == Waking(Completed(s), BufChan(s.queue[0]))
  }

  predicate Step(s: State, a: Action, s': State)
    requires |s.bufs| == NBUF
  {
    match a
    case BgetHit(t, i, k) => BgetHitStep(s, t, i, k, s')
    case BgetRecycle(t, i, k) => BgetRecycleStep(s, t, i, k, s')
    case TakeSpin(t) => TakeSpinStep(s, t, s')
    case TestLock(t) => TestLockStep(s, t, s')
    case TestIo(t) => TestIoStep(s, t, s')
    case SleepWrite(t) => SleepWriteStep(s, t, s')
    case SleepUnlock(t) => SleepUnlockStep(s, t, s')
    case SleepReturn(t) => SleepReturnStep(s, t, s')
    case Reschedule(t) => RescheduleStep(s, t, s')
    case CheckValid(t) => CheckValidStep(s, t, s')
    case Modify(t, i, d) => ModifyStep(s, t, i, d, s')
    case Bwrite(t, i) => BwriteStep(s, t, i, s')
    case Enqueue(t) => EnqueueStep(s, t, s')
    case Brelse(t, i) => BrelseStep(s, t, i, s')
    case ClearLock(t) => ClearLockStep(s, t, s')
    case DoWakeup(t) => DoWakeupStep(s, t, s')
    case DecrRef(t) => DecrRefStep(s, t, s')
    case DriveWorks => DriveWorksStep(s, s')
    case Interrupt => InterruptStep(s, s')
  }
}
