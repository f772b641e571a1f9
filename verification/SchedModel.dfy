/**
The thread table and the CPUs' current threads.  Every region under proc_table.lock is
one step; the writes of ThreadSleep, which does not take that lock, are separate steps.
*/
module SchedModel {
  import opened Common

  const MAX_NUM_THREADS: nat := 300
  const IDLE: nat := 300
  const NULL: int := -1

  datatype Status = NotInitialized | Ready | Running | Killed | Sleeping | WakeupReady

  // A saved register frame; only the instruction pointer is ever inspected.
  datatype Context = Context(rip: nat, rest: nat)

  // channel 0 is the null channel; id -1 is UINT32_MAX.
  datatype Thread = Thread(status: Status, canWakeup: bool, id: int, ctx: Context, channel: nat)

  // What happened to the register frames of threads, in order.
  datatype Event =
    | Created(t: nat, ctx: Context)
    | SwitchedOut(t: nat, ctx: Context)
    | Resumed(t: nat, ctx: Context)

  datatype State = State(ts: seq<Thread>, cur: seq<int>, log: seq<Event>)

  predicate WellFormed(s: State) {
    && |s.ts| == MAX_NUM_THREADS + 1
    && forall c :: 0 <= c < |s.cur| ==> NULL <= s.cur[c] <= IDLE
  }

  // ---------- choosing the next thread ----------

  predicate Runnable(x: Thread) {
    x.status == Ready || (x.status == WakeupReady && x.canWakeup)
  }

  // The slot that the round-robin scan starts behind.
  function ScanFrom(ts: seq<Thread>, prev: int): nat
    requires |ts| == MAX_NUM_THREADS + 1 && NULL <= prev <= IDLE
  {
    if prev == NULL || ts[prev].id < 0 || ts[prev].id > IDLE then IDLE else ts[prev].id
  }

  // How far slot j is ahead of slot i in the cycle of all slots.
  function Distance(i: nat, j: nat): nat
    requires i <= IDLE && j <= IDLE
  {
    if j >= i then j - i else j + MAX_NUM_THREADS + 1 - i
  }

  // k is the first runnable slot behind `from` in cyclic order.
  predicate IsPick(ts: seq<Thread>, from: nat, k: nat)
    requires |ts| == MAX_NUM_THREADS + 1 && from <= IDLE
  {
    && k < MAX_NUM_THREADS && k != from && Runnable(ts[k])
    && forall j :: 0 <= j < MAX_NUM_THREADS && j != from && Distance(from, j) < Distance(from, k) ==> !Runnable(ts[j])
  }

  predicate NothingRunnable(ts: seq<Thread>, from: nat)
    requires |ts| == MAX_NUM_THREADS + 1
  {
    forall j :: 0 <= j < MAX_NUM_THREADS && j != from ==> !Runnable(ts[j])
  }

  // ---------- SaveThreadContext ----------

  predicate SavesContext(ts: seq<Thread>, prev: int)
    requires |ts| == MAX_NUM_THREADS + 1 && NULL <= prev <= IDLE
  {
    prev != NULL && prev != IDLE && (ts[prev].status == Sleeping || ts[prev].status == Running)
  }

  // The panic of SaveThreadContext.
  predicate Unexpected(ts: seq<Thread>, prev: int)
    requires |ts| == MAX_NUM_THREADS + 1 && NULL <= prev <= IDLE
  {
    prev != NULL && prev != IDLE && !SavesContext(ts, prev) && ts[prev].status != Killed
  }

  function Saved(ts: seq<Thread>, prev: int, ctx: Context): seq<Thread>
    requires |ts| == MAX_NUM_THREADS + 1 && NULL <= prev <= IDLE
  {
    if SavesContext(ts, prev) then
      ts[prev := ts[prev].(ctx := ctx, status := if ts[prev].status == Sleeping then WakeupReady else Ready)]
    else ts
  }

  function SavedLog(ts: seq<Thread>, prev: int, ctx: Context): seq<Event>
    requires |ts| == MAX_NUM_THREADS + 1 && NULL <= prev <= IDLE
  {
    if SavesContext(ts, prev) then [SwitchedOut(prev, ctx)] else []
  }

  // ---------- Wakeup ----------

  function WokenOne(x: Thread, ch: nat): Thread {
    if (x.status == Sleeping || x.status == WakeupReady) && x.channel == ch then x.(canWakeup := true) else x
  }

  // Wakeup's loop leaves out the idle thread, in the last slot.
  function Woken(ts: seq<Thread>, ch: nat): seq<Thread> {
    seq(|ts|, i requires 0 <= i < |ts| => if i < MAX_NUM_THREADS then WokenOne(ts[i], ch) else ts[i])
  }

  // ---------- FindFreeThread ----------

  predicate Free(x: Thread) { x.status == NotInitialized || x.status == Killed }

  predicate IsFirstFree(ts: seq<Thread>, i: nat)
    requires |ts| == MAX_NUM_THREADS + 1
  {
    i < MAX_NUM_THREADS && Free(ts[i]) && forall j :: 0 <= j < i ==> !Free(ts[j])
  }

  // ---------- steps ----------

  datatype Action =
    | Switch(c: nat, k: nat, ctx: Context)  // InvokeScheduler finds thread k
    | GoIdle(c: nat)                        // it finds nothing, and no thread is current
    | NoSwitch(c: nat)                      // it finds nothing and returns to the old thread
    | SetChannel(c: nat, ch: nat)           // ThreadSleep: sleep_channel = ch,
    | SetSleeping(c: nat)                   //   status = SLEEPING,
    | ClearWakeup(c: nat)                   //   can_wakeup = false,
    | ClearChannel(c: nat)                  //   and, once back, sleep_channel = NULL
    | Wakeup(ch: nat)
    | Create(i: nat, ctx: Context)          // CreateKernelThread, CreateUserProcess, fork
    | Exit(c: nat)
    | Exec(c: nat)

  // A thread other than idle is current on c and executing.
  predicate Executing(s: State, c: nat) {
    WellFormed(s) && c < |s.cur| && 0 <= s.cur[c] < IDLE
  }

  function SetThread(s: State, i: nat, x: Thread): State
    requires i < |s.ts|
  {
    s.(ts := s.ts[i := x])
  }

  function SwitchTo(s: State, c: nat, k: nat, ctx: Context): State
    requires WellFormed(s) && c < |s.cur| && k <= IDLE
  {
    var ts := Saved(s.ts, s.cur[c], ctx);
    State(ts[k := ts[k].(status := if k == IDLE then Ready else Running)], s.cur[c := k],
          s.log + SavedLog(s.ts, s.cur[c], ctx) + [Resumed(k, ts[k].ctx)])
  }

  predicate SwitchStep(s: State, c: nat, k: nat, ctx: Context, s': State) {
    WellFormed(s) && c < |s.cur| && ctx.rip != 0 &&
    IsPick(s.ts, ScanFrom(s.ts, s.cur[c]), k) && s' == SwitchTo(s, c, k, ctx)
  }

  predicate Dead(s: State, c: nat)
    requires WellFormed(s) && c < |s.cur|
  {
    s.cur[c] == NULL || s.ts[s.cur[c]].status == Killed
  }

  predicate GoIdleStep(s: State, c: nat, s': State) {
    WellFormed(s) && c < |s.cur| &&
    NothingRunnable(s.ts, ScanFrom(s.ts, s.cur[c])) && Dead(s, c) && s' == SwitchTo(s, c, IDLE, s.ts[IDLE].ctx)
  }

  predicate NoSwitchStep(s: State, c: nat, s': State) {
    WellFormed(s) && c < |s.cur| &&
    NothingRunnable(s.ts, ScanFrom(s.ts, s.cur[c])) && !Dead(s, c) && s' == s
  }

  predicate CreateStep(s: State, i: nat, ctx: Context, s': State) {
    WellFormed(s) && ctx.rip != 0 && IsFirstFree(s.ts, i) &&
    s' == s.(ts := s.ts[i := s.ts[i].(id := i, status := Ready, canWakeup := true, ctx := ctx)],
             log := s.log + [Created(i, ctx)])
  }

  predicate ExitStep(s: State, c: nat, s': State) {
    Executing(s, c) &&
    s' == State(s.ts[s.cur[c] := s.ts[s.cur[c]].(status := Killed, id := -1)], s.cur[c := NULL], s.log)
  }

  predicate Step(s: State, a: Action, s': State) {
    match a
    case Switch(c, k, ctx) => SwitchStep(s, c, k, ctx, s')
    case GoIdle(c) => GoIdleStep(s, c, s')
    case NoSwitch(c) => NoSwitchStep(s, c, s')
    case SetChannel(c, ch) =>
      Executing(s, c) && ch != 0 && s' == SetThread(s, s.cur[c], s.ts[s.cur[c]].(channel := ch))
    case SetSleeping(c) => Executing(s, c) && s' == SetThread(s, s.cur[c], s.ts[s.cur[c]].(status := Sleeping))
    case ClearWakeup(c) => Executing(s, c) && s' == SetThread(s, s.cur[c], s.ts[s.cur[c]].(canWakeup := false))
    case ClearChannel(c) => Executing(s, c) && s' == SetThread(s, s.cur[c], s.ts[s.cur[c]].(channel := 0))
    case Wakeup(ch) => ch != 0 && s' == s.(ts := Woken(s.ts, ch))
    case Create(i, ctx) => CreateStep(s, i, ctx, s')
    case Exit(c) => ExitStep(s, c, s')
    case Exec(c) => Executing(s, c) && s' == SetThread(s, s.cur[c], s.ts[s.cur[c]].(status := Running))
  }
}
