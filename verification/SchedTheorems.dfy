/**
Exclusivity, context integrity and bounded bypass, over whole runs on any number of CPUs.
*/
module SchedTheorems {
  import opened Common
  import opened SchedModel

  predicate OnSomeCpu(cur: seq<int>, i: nat) { exists c :: 0 <= c < |cur| && cur[c] == i }

  // A thread other than idle is current on at most one CPU, and is current on one
  // exactly when its status is Running or Sleeping.
  predicate Exclusive(s: State)
    requires WellFormed(s)
  {
    && (forall c, d :: 0 <= c < d < |s.cur| && s.cur[c] == s.cur[d] ==> s.cur[c] == NULL || s.cur[c] == IDLE)
    && (forall i :: 0 <= i < MAX_NUM_THREADS ==>
          (OnSomeCpu(s.cur, i) <==> s.ts[i].status == Running || s.ts[i].status == Sleeping))
  }

  // The register frame recorded when t was last created or switched out.
  function LastSaved(log: seq<Event>, t: nat): Option<Context> {
    if log == [] then None
    else
      var e := log[|log| - 1];
      if !e.Resumed? && e.t == t then Some(e.ctx) else LastSaved(log[..|log| - 1], t)
  }

  predicate WaitsToRun(s: State, i: nat)
    requires WellFormed(s) && i <= IDLE
  {
    i == IDLE || s.ts[i].status == Ready || s.ts[i].status == WakeupReady
  }

  predicate ContextsKept(s: State)
    requires WellFormed(s)
  {
    forall i :: 0 <= i <= IDLE && WaitsToRun(s, i) ==>
      s.ts[i].ctx.rip != 0 && LastSaved(s.log, i) == Some(s.ts[i].ctx)
  }

  predicate LogOk(log: seq<Event>) {
    forall p :: 0 <= p < |log| && log[p].Resumed? ==> LastSaved(log[..p], log[p].t) == Some(log[p].ctx)
  }

  predicate Inv(s: State) {
    && WellFormed(s)
    && Exclusive(s)
    && (forall i :: 0 <= i <= IDLE && !Free(s.ts[i]) ==> s.ts[i].id == i)
    && s.ts[IDLE].status == Ready
    && ContextsKept(s)
    && LogOk(s.log)
  }

  // ---------- the log ----------

  lemma {:induction false} LastSavedAppend(log: seq<Event>, e: Event, t: nat)
    ensures LastSaved(log + [e], t) == if !e.Resumed? && e.t == t then Some(e.ctx) else LastSaved(log, t)
  {
    assert (log + [e])[..|log|] == log;
  }

  lemma LogAppend(log: seq<Event>, e: Event)
    requires LogOk(log) && (e.Resumed? ==> LastSaved(log, e.t) == Some(e.ctx))
    ensures LogOk(log + [e])
  {
    var l := log + [e];
    forall p | 0 <= p < |l| && l[p].Resumed? ensures LastSaved(l[..p], l[p].t) == Some(l[p].ctx) {
      assert l[..p] == log[..p];
      if p == |log| { assert log[..p] == log; }
    }
  }

  // ---------- each step ----------

  lemma SwitchLog(s: State, c: nat, k: nat, ctx: Context)
    requires WellFormed(s) && c < |s.cur| && k <= IDLE && k != s.cur[c] && LogOk(s.log) && ctx.rip != 0
    requires ContextsKept(s) && WaitsToRun(s, k)
    ensures LogOk(SwitchTo(s, c, k, ctx).log) && ContextsKept(SwitchTo(s, c, k, ctx))
  {
    var o := s.cur[c];
    var l1 := s.log + SavedLog(s.ts, o, ctx);
    var ts := Saved(s.ts, o, ctx);
    if SavesContext(s.ts, o) {
      LogAppend(s.log, SwitchedOut(o, ctx));
    } else {
      assert l1 == s.log;
    }
    forall i | 0 <= i <= IDLE ensures SavesContext(s.ts, o) && i == o ==> LastSaved(l1, i) == Some(ctx)
      ensures !(SavesContext(s.ts, o) && i == o) ==> LastSaved(l1, i) == LastSaved(s.log, i)
    {
      if SavesContext(s.ts, o) { LastSavedAppend(s.log, SwitchedOut(o, ctx), i); }
    }
    LogAppend(l1, Resumed(k, ts[k].ctx));
    forall i | 0 <= i <= IDLE ensures LastSaved(l1 + [Resumed(k, ts[k].ctx)], i) == LastSaved(l1, i) {
      LastSavedAppend(l1, Resumed(k, ts[k].ctx), i);
    }
  }

  lemma SwitchExclusive(s: State, c: nat, k: nat, ctx: Context)
    requires Inv(s) && c < |s.cur| && k <= IDLE && WaitsToRun(s, k)
    ensures Exclusive(SwitchTo(s, c, k, ctx))
  {
    var s' := SwitchTo(s, c, k, ctx);
    forall i | 0 <= i < MAX_NUM_THREADS
      ensures OnSomeCpu(s'.cur, i) <==> s'.ts[i].status == Running || s'.ts[i].status == Sleeping
    {
      OthersStay(s.cur, c, k, i);
      if i == k { assert s'.cur[c] == i; }
    }
  }

  lemma OthersStay(cur: seq<int>, c: nat, k: int, i: nat)
    requires c < |cur|
    ensures cur[c] != i && k != i ==> (OnSomeCpu(cur[c := k], i) <==> OnSomeCpu(cur, i))
    ensures cur[c] == i ==> OnSomeCpu(cur, i)
    ensures k == i ==> OnSomeCpu(cur[c := k], i)
  {
    var cur' := cur[c := k];
    if k == i { assert cur'[c] == i; }
    if cur[c] != i && k != i {
      if OnSomeCpu(cur, i) {
        var d :| 0 <= d < |cur| && cur[d] == i;
        assert cur'[d] == i;
      }
    }
  }

  lemma SwitchKeepsInv(s: State, c: nat, k: nat, ctx: Context)
    requires Inv(s) && c < |s.cur| && k <= IDLE && WaitsToRun(s, k) && k != s.cur[c] && ctx.rip != 0
    ensures Inv(SwitchTo(s, c, k, ctx))
  {
    SwitchLog(s, c, k, ctx);
    SwitchExclusive(s, c, k, ctx);
  }

  lemma CreateKeepsInv(s: State, i: nat, ctx: Context, s': State)
    requires Inv(s) && CreateStep(s, i, ctx, s')
    ensures Inv(s')
  {
    LogAppend(s.log, Created(i, ctx));
    forall j | 0 <= j <= IDLE
      ensures LastSaved(s'.log, j) == if j == i then Some(ctx) else LastSaved(s.log, j)
    {
      LastSavedAppend(s.log, Created(i, ctx), j);
    }
  }

  lemma ExitKeepsInv(s: State, c: nat, s': State)
    requires Inv(s) && ExitStep(s, c, s')
    ensures Inv(s')
  {
    forall i | 0 <= i < MAX_NUM_THREADS
      ensures OnSomeCpu(s'.cur, i) <==> s'.ts[i].status == Running || s'.ts[i].status == Sleeping
    {
      OthersStay(s.cur, c, NULL, i);
    }
  }

  // A write by the thread that is current on c, which stays Running or Sleeping.
  lemma OwnWriteKeepsInv(s: State, c: nat, x: Thread)
    requires Inv(s) && Executing(s, c) && x.id == s.cur[c]
    requires x.status == Running || x.status == Sleeping
    ensures Inv(SetThread(s, s.cur[c], x))
  {
    var s' := SetThread(s, s.cur[c], x);
    assert OnSomeCpu(s.cur, s.cur[c]);
  }

  lemma WakeupKeepsInv(s: State, ch: nat)
    requires Inv(s)
    ensures Inv(s.(ts := Woken(s.ts, ch)))
  {
  }

  lemma CurrentStatus(s: State, c: nat)
    requires Inv(s) && Executing(s, c)
    ensures s.ts[s.cur[c]].status == Running || s.ts[s.cur[c]].status == Sleeping
    ensures s.ts[s.cur[c]].id == s.cur[c]
  {
    assert OnSomeCpu(s.cur, s.cur[c]);
  }

  lemma StepKeepsInv(s: State, a: Action, s': State)
    requires Inv(s) && Step(s, a, s')
    ensures Inv(s')
  {
    match a
    case Switch(c, k, ctx) => if s.cur[c] == k { CurrentStatus(s, c); } SwitchKeepsInv(s, c, k, ctx);
    case GoIdle(c) => IdleNotDead(s, c); SwitchKeepsInv(s, c, IDLE, s.ts[IDLE].ctx);
    case NoSwitch(c) =>
    case Wakeup(ch) => WakeupKeepsInv(s, ch);
    case Create(i, ctx) => CreateKeepsInv(s, i, ctx, s');
    case Exit(c) => ExitKeepsInv(s, c, s');
    case _ => CurrentStatus(s, a.c); OwnWriteKeepsInv(s, a.c, s'.ts[s.cur[a.c]]);
  }

  lemma IdleNotDead(s: State, c: nat)
    requires Inv(s) && c < |s.cur| && Dead(s, c)
    ensures s.cur[c] == NULL
  {
    if s.cur[c] != NULL && s.cur[c] != IDLE { CurrentStatus(s, c); }
  }

  // ---------- runs ----------

  // No thread but idle, which has been created; no CPU runs a thread.
  ghost predicate Init(s: State) {
    && WellFormed(s)
    && (forall i :: 0 <= i < MAX_NUM_THREADS ==> s.ts[i].status == NotInitialized)
    && s.ts[IDLE].id == IDLE && s.ts[IDLE].status == Ready && s.ts[IDLE].ctx.rip != 0
    && (forall c :: 0 <= c < |s.cur| ==> s.cur[c] == NULL)
    && s.log == [Created(IDLE, s.ts[IDLE].ctx)]
  }

  ghost predicate StepAt(ss: seq<State>, acts: seq<Action>, j: nat)
    requires |ss| == |acts| + 1 && j < |acts|
  {
    Step(ss[j], acts[j], ss[j + 1])
  }

  ghost predicate Path(ss: seq<State>, acts: seq<Action>) {
    && |ss| == |acts| + 1
    && forall j {:trigger StepAt(ss, acts, j)} :: 0 <= j < |acts| ==> StepAt(ss, acts, j)
  }

  ghost predicate Run(ss: seq<State>, acts: seq<Action>) {
    Path(ss, acts) && Init(ss[0])
  }

  lemma {:induction false} PathInv(ss: seq<State>, acts: seq<Action>, j: nat)
    requires Path(ss, acts) && Inv(ss[0]) && j < |ss|
    ensures Inv(ss[j])
  {
    if j > 0 {
      PathInv(ss, acts, j - 1);
      assert StepAt(ss, acts, j - 1);
      StepKeepsInv(ss[j - 1], acts[j - 1], ss[j]);
    }
  }

  lemma RunInv(ss: seq<State>, acts: seq<Action>, j: nat)
    requires Run(ss, acts) && j < |ss|
    ensures Inv(ss[j])
  {
    LastSavedAppend([], Created(IDLE, ss[0].ts[IDLE].ctx), IDLE);
    PathInv(ss, acts, j);
  }

  // ---------- main results ----------

  lemma SmpExclusivity(ss: seq<State>, acts: seq<Action>, j: nat)
    requires Run(ss, acts) && j < |ss|
    ensures WellFormed(ss[j]) && Exclusive(ss[j])
  {
    RunInv(ss, acts, j);
  }

  // The slots that FindFreeThread hands out are current nowhere.
  lemma FreeSlotsNotCurrent(ss: seq<State>, acts: seq<Action>, j: nat, i: nat)
    requires Run(ss, acts) && j < |ss| && |ss[j].ts| == MAX_NUM_THREADS + 1 && IsFirstFree(ss[j].ts, i)
    ensures !OnSomeCpu(ss[j].cur, i)
  {
    RunInv(ss, acts, j);
  }

  // SaveThreadContext never panics, and schedule never finds a zero instruction pointer.
  lemma NoSchedulerPanic(ss: seq<State>, acts: seq<Action>, j: nat, c: nat)
    requires Run(ss, acts) && j < |ss| && c < |ss[j].cur|
    ensures WellFormed(ss[j]) && !Unexpected(ss[j].ts, ss[j].cur[c])
    ensures forall k :: 0 <= k <= IDLE && Runnable(ss[j].ts[k]) ==> ss[j].ts[k].ctx.rip != 0
  {
    RunInv(ss, acts, j);
    if 0 <= ss[j].cur[c] < IDLE { CurrentStatus(ss[j], c); }
  }

  // Every frame that schedule resumes is the one stored when that thread was last
  // switched out, or its creation frame.
  lemma ContextIntegrity(ss: seq<State>, acts: seq<Action>, j: nat, p: nat)
    requires Run(ss, acts) && j < |ss| && p < |ss[j].log| && ss[j].log[p].Resumed?
    ensures LastSaved(ss[j].log[..p], ss[j].log[p].t) == Some(ss[j].log[p].ctx)
  {
    RunInv(ss, acts, j);
  }

  // A sleeping thread leaves that status only by exit, by exec, or to WakeupReady with
  // the frame of that very switch stored.
  lemma SleepingLeavesThroughWakeupReady(ss: seq<State>, acts: seq<Action>, j: nat, i: nat)
    requires Run(ss, acts) && j < |acts| && i < MAX_NUM_THREADS
    requires |ss[j].ts| == |ss[j + 1].ts| == MAX_NUM_THREADS + 1 && ss[j].ts[i].status == Sleeping
    ensures match ss[j + 1].ts[i].status
            case Sleeping => true
            case Killed => acts[j].Exit?
            case Running => acts[j].Exec?
            case WakeupReady => acts[j].Switch? && ss[j + 1].ts[i].ctx == acts[j].ctx
            case _ => false
  {
    RunInv(ss, acts, j);
    assert StepAt(ss, acts, j);
  }

  // ---------- bounded bypass ----------

  predicate InvokesOn(a: Action, c: nat) { (a.Switch? || a.GoIdle? || a.NoSwitch?) && a.c == c }

  function Invocations(acts: seq<Action>, c: nat): nat {
    if acts == [] then 0
    else Invocations(acts[..|acts| - 1], c) + if InvokesOn(acts[|acts| - 1], c) then 1 else 0
  }

  // Step j is no exit on CPU c, and if c invokes the scheduler then t is runnable but
  // is not the thread chosen.
  ghost predicate BypassAt(ss: seq<State>, acts: seq<Action>, j: nat, c: nat, t: nat)
    requires |ss| == |acts| + 1 && j < |acts|
  {
    && acts[j] != Exit(c)
    && (InvokesOn(acts[j], c) ==> t < |ss[j].ts| && Runnable(ss[j].ts[t]) && c < |ss[j + 1].cur| && ss[j + 1].cur[c] != t)
  }

  ghost predicate Bypassed(ss: seq<State>, acts: seq<Action>, a: nat, b: nat, c: nat, t: nat)
    requires |ss| == |acts| + 1 && a <= b <= |acts|
  {
    forall j {:trigger BypassAt(ss, acts, j, c, t)} :: a <= j < b ==> BypassAt(ss, acts, j, c, t)
  }

  // How far slot t is ahead of the thread that a CPU runs; a CPU without one starts at slot 0.
  function Ahead(current: int, t: nat): nat
    requires NULL <= current <= IDLE && t <= IDLE
  {
    Distance(if current == NULL then IDLE else current, t)
  }

  // Whenever some thread is runnable, a CPU that invokes the scheduler goes on with a runnable
  // one, and no runnable one is nearer in the cycle.
  lemma InvocationChooses(s: State, a: Action, s': State, c: nat)
    requires Inv(s) && Step(s, a, s') && InvokesOn(a, c) && c < |s.cur|
    ensures c < |s'.cur| && forall t :: 0 <= t < MAX_NUM_THREADS && Runnable(s.ts[t]) ==>
              0 <= s'.cur[c] < IDLE && Runnable(s.ts[s'.cur[c]]) && Ahead(s.cur[c], s'.cur[c]) <= Ahead(s.cur[c], t)
  {
    if 0 <= s.cur[c] < IDLE { CurrentStatus(s, c); }
  }

  // Otherwise its thread goes on, and the idle thread if it has none.
  lemma InvocationFallsBack(s: State, a: Action, s': State, c: nat)
    requires Inv(s) && Step(s, a, s') && InvokesOn(a, c) && c < |s.cur|
    ensures (forall t :: 0 <= t < MAX_NUM_THREADS ==> !Runnable(s.ts[t])) ==>
              c < |s'.cur| && s'.cur[c] == (if s.cur[c] == NULL then IDLE else s.cur[c]) && (s.cur[c] != NULL ==> s' == s)
  {
    if 0 <= s.cur[c] < IDLE { CurrentStatus(s, c); }
  }

  // A switch stores the old thread's frame and marks the new thread Running.
  lemma InvocationStores(s: State, a: Action, s': State, c: nat)
    requires Inv(s) && Step(s, a, s') && InvokesOn(a, c) && c < |s.cur| && !a.NoSwitch?
    ensures |s'.ts| == |s.ts| && |s'.cur| == |s.cur|
    ensures a.Switch? && 0 <= s.cur[c] < IDLE ==> s'.ts[s.cur[c]].ctx == a.ctx
    ensures a.Switch? ==> 0 <= s'.cur[c] < IDLE && s'.ts[s'.cur[c]].status == Running
    ensures a.GoIdle? ==> s.cur[c] == NULL && s'.cur[c] == IDLE
  {
    if 0 <= s.cur[c] < IDLE { CurrentStatus(s, c); }
  }

  // The same in every run: idling, or going on, while a thread is runnable does not happen.
  lemma RunsWhatIsRunnable(ss: seq<State>, acts: seq<Action>, j: nat, c: nat, t: nat)
    requires Run(ss, acts) && j < |acts| && InvokesOn(acts[j], c) && c < |ss[j].cur|
    requires t < MAX_NUM_THREADS && t < |ss[j].ts| && Runnable(ss[j].ts[t])
    ensures c < |ss[j + 1].cur| && 0 <= ss[j + 1].cur[c] < IDLE && |ss[j].ts| > IDLE
    ensures Runnable(ss[j].ts[ss[j + 1].cur[c]]) && NULL <= ss[j].cur[c] <= IDLE
    ensures Ahead(ss[j].cur[c], ss[j + 1].cur[c]) <= Ahead(ss[j].cur[c], t)
  {
    RunInv(ss, acts, j);
    assert StepAt(ss, acts, j);
    InvocationChooses(ss[j], acts[j], ss[j + 1], c);
  }

  lemma BypassShrinks(s: State, a: Action, s': State, c: nat, t: nat)
    requires Inv(s) && Step(s, a, s') && c < |s.cur| && t < MAX_NUM_THREADS && a != Exit(c)
    requires InvokesOn(a, c) ==> Runnable(s.ts[t]) && s'.cur[c] != t
    ensures c < |s'.cur| && NULL <= s'.cur[c] <= IDLE
    ensures Ahead(s'.cur[c], t) + (if InvokesOn(a, c) then 1 else 0) <= Ahead(s.cur[c], t)
  {
    if InvokesOn(a, c) {
      InvocationChooses(s, a, s', c);
      if s.cur[c] == s'.cur[c] { CurrentStatus(s, c); }
    }
  }

  lemma OneBypass(ss: seq<State>, acts: seq<Action>, j: nat, c: nat, t: nat)
    requires Run(ss, acts) && j < |acts| && c < |ss[j].cur| && NULL <= ss[j].cur[c] <= IDLE && t < MAX_NUM_THREADS
    requires BypassAt(ss, acts, j, c, t)
    ensures c < |ss[j + 1].cur| && NULL <= ss[j + 1].cur[c] <= IDLE
    ensures Ahead(ss[j + 1].cur[c], t) + Invocations([acts[j]], c) <= Ahead(ss[j].cur[c], t)
  {
    RunInv(ss, acts, j);
    assert StepAt(ss, acts, j);
    BypassShrinks(ss[j], acts[j], ss[j + 1], c, t);
    assert [acts[j]][..0] == [];
  }

  // The number of times CPU c passes t over is bounded by how far t is ahead in the cycle.
  lemma {:induction false} BoundedBypass(ss: seq<State>, acts: seq<Action>, a: nat, b: nat, c: nat, t: nat)
    requires Run(ss, acts) && a <= b <= |acts| && c < |ss[a].cur| && NULL <= ss[a].cur[c] <= IDLE
    requires t < MAX_NUM_THREADS && Bypassed(ss, acts, a, b, c, t)
    ensures c < |ss[b].cur| && NULL <= ss[b].cur[c] <= IDLE
    ensures Invocations(acts[a..b], c) + Ahead(ss[b].cur[c], t) <= Ahead(ss[a].cur[c], t)
    ensures Invocations(acts[a..b], c) <= MAX_NUM_THREADS
    decreases b - a
  {
    if a < b {
      BoundedBypass(ss, acts, a, b - 1, c, t);
      assert BypassAt(ss, acts, b - 1, c, t);
      OneBypass(ss, acts, b - 1, c, t);
      assert acts[a..b][..b - a - 1] == acts[a..b - 1];
    }
  }

  // ---------- who flags a thread ----------

  // The thread is recorded asleep on the channel that a calls Wakeup for.
  predicate Called(x: Thread, a: Action) {
    a.Wakeup? && (x.status == Sleeping || x.status == WakeupReady) && x.channel == a.ch
  }

  lemma WakeupFlags(s: State, a: Action, s': State, i: nat)
    requires WellFormed(s) && Step(s, a, s') && a.Wakeup? && i < MAX_NUM_THREADS
    ensures |s'.ts| == |s.ts| && (s'.ts[i].canWakeup <==> s.ts[i].canWakeup || Called(s.ts[i], a))
  {
  }

  lemma OnlyWakeupFlags(s: State, a: Action, s': State, i: nat)
    requires WellFormed(s) && Step(s, a, s') && !a.Wakeup? && i < MAX_NUM_THREADS
    ensures |s'.ts| == |s.ts|
    ensures !s.ts[i].canWakeup && s'.ts[i].canWakeup ==> a.Create? && a.i == i
  {
  }

  // In every run a thread's can_wakeup turns true only when the thread is created or when
  // Wakeup is called on the channel it is recorded asleep on, and then it does.
  lemma FlaggedByItsChannel(ss: seq<State>, acts: seq<Action>, j: nat, i: nat)
    requires Run(ss, acts) && j < |acts| && i < MAX_NUM_THREADS
    ensures |ss[j].ts| == |ss[j + 1].ts| == MAX_NUM_THREADS + 1
    ensures !ss[j].ts[i].canWakeup && ss[j + 1].ts[i].canWakeup ==>
              Called(ss[j].ts[i], acts[j]) || (acts[j].Create? && acts[j].i == i)
    ensures Called(ss[j].ts[i], acts[j]) ==> ss[j + 1].ts[i].canWakeup
  {
    RunInv(ss, acts, j);
    assert StepAt(ss, acts, j);
    if acts[j].Wakeup? { WakeupFlags(ss[j], acts[j], ss[j + 1], i); } else { OnlyWakeupFlags(ss[j], acts[j], ss[j + 1], i); }
  }

  // ---------- a thread that can never be woken ----------

  // Some continuation makes thread i runnable.
  ghost predicate CanRunAgain(s: State, i: nat) {
    exists ss: seq<State>, acts: seq<Action> :: LeadsToRunnable(s, ss, acts, i)
  }

  ghost predicate LeadsToRunnable(s: State, ss: seq<State>, acts: seq<Action>, i: nat) {
    Path(ss, acts) && ss[0] == s && i < |ss[|acts|].ts| && Runnable(ss[|acts|].ts[i])
  }

  // Switched out, not flagged for wakeup, and recorded on no channel.
  predicate Stranded(x: Thread) { x.status == WakeupReady && !x.canWakeup && x.channel == 0 }

  // No step ever makes such a thread runnable again, whatever happens.
  lemma {:induction false} StrandedForever(ss: seq<State>, acts: seq<Action>, m: nat, i: nat)
    requires Path(ss, acts) && Inv(ss[0]) && m < |ss| && i < MAX_NUM_THREADS && Stranded(ss[0].ts[i])
    ensures i < |ss[m].ts| && Stranded(ss[m].ts[i]) && !Runnable(ss[m].ts[i])
  {
    if m > 0 {
      StrandedForever(ss, acts, m - 1, i);
      PathInv(ss, acts, m - 1);
      assert StepAt(ss, acts, m - 1);
      StrandedStays(ss[m - 1], acts[m - 1], ss[m], i);
    }
  }

  lemma StrandedStays(s: State, a: Action, s': State, i: nat)
    requires Inv(s) && Step(s, a, s') && i < MAX_NUM_THREADS && Stranded(s.ts[i])
    ensures Stranded(s'.ts[i])
  {
    match a
    case SetChannel(c, ch) => CurrentStatus(s, c);
    case SetSleeping(c) => CurrentStatus(s, c);
    case ClearWakeup(c) => CurrentStatus(s, c);
    case ClearChannel(c) => CurrentStatus(s, c);
    case Exit(c) => CurrentStatus(s, c);
    case Exec(c) => CurrentStatus(s, c);
    case _ =>
  }

  // A switched-out thread can run again exactly when it is flagged or recorded on a channel.
  lemma CanRunAgainIff(s: State, i: nat)
    requires Inv(s) && i < MAX_NUM_THREADS && (s.ts[i].status == WakeupReady || s.ts[i].status == Ready)
    ensures CanRunAgain(s, i) <==> !Stranded(s.ts[i])
  {
    var x := s.ts[i];
    if Runnable(x) {
      assert LeadsToRunnable(s, [s], [], i);
    } else if x.channel != 0 {
      var t := s.(ts := Woken(s.ts, x.channel));
      assert StepAt([s, t], [Wakeup(x.channel)], 0);
      assert LeadsToRunnable(s, [s, t], [Wakeup(x.channel)], i);
    } else if ss: seq<State>, acts: seq<Action> :| LeadsToRunnable(s, ss, acts, i) {
      StrandedForever(ss, acts, |acts|, i);
    }
  }

  // In every run, a switch puts the old thread where no continuation can run it again exactly
  // when that thread is still marked Sleeping, has cleared its channel and was not flagged.
  lemma SwitchStrandsExactly(ss: seq<State>, acts: seq<Action>, j: nat)
    requires Run(ss, acts) && j < |acts| && acts[j].Switch?
    requires WellFormed(ss[j]) && acts[j].c < |ss[j].cur| && 0 <= ss[j].cur[acts[j].c] < IDLE
    ensures var i := ss[j].cur[acts[j].c];
            var x := ss[j].ts[i];
            !CanRunAgain(ss[j + 1], i) <==> x.status == Sleeping && !x.canWakeup && x.channel == 0
  {
    RunInv(ss, acts, j);
    RunInv(ss, acts, j + 1);
    assert StepAt(ss, acts, j);
    CurrentStatus(ss[j], acts[j].c);
    CanRunAgainIff(ss[j + 1], ss[j].cur[acts[j].c]);
  }

  // One CPU, and no thread but idle.
  function Boot(f: Context): State {
    State(seq(MAX_NUM_THREADS + 1, i => if i == IDLE then Thread(Ready, true, IDLE, f, 0) else Thread(NotInitialized, false, 0, f, 0)),
          [NULL], [Created(IDLE, f)])
  }

  function WithThread(s: State, i: nat, f: Context): State
    requires i < |s.ts|
  {
    s.(ts := s.ts[i := Thread(Ready, true, i, f, 0)], log := s.log + [Created(i, f)])
  }

  function First(f: Context): State { SwitchTo(WithThread(Boot(f), 0, f), 0, 0, f) }

  lemma FirstSteps(f: Context)
    requires f.rip != 0
    ensures Init(Boot(f)) && Step(Boot(f), Create(0, f), WithThread(Boot(f), 0, f))
    ensures Step(WithThread(Boot(f), 0, f), Switch(0, 0, f), First(f))
  {
    assert IsFirstFree(Boot(f).ts, 0);
    assert IsPick(WithThread(Boot(f), 0, f).ts, IDLE, 0);
  }

  // First's thread, asleep on channel 1 and then back from a scheduler that found nothing.
  function Napping(f: Context, channel: nat): State {
    SetThread(First(f), 0, Thread(Sleeping, false, 0, f, channel))
  }

  lemma LastSteps(f: Context)
    requires f.rip != 0
    ensures var s := WithThread(Napping(f, 0), 1, f);
            && Step(Napping(f, 1), NoSwitch(0), Napping(f, 1))
            && Step(Napping(f, 0), Create(1, f), s)
            && Step(s, Switch(0, 1, f), SwitchTo(s, 0, 1, f))
            && Stranded(SwitchTo(s, 0, 1, f).ts[0])
  {
    var s := WithThread(Napping(f, 0), 1, f);
    assert NothingRunnable(Napping(f, 1).ts, 0);
    assert IsFirstFree(Napping(f, 0).ts, 1);
    assert IsPick(s.ts, 0, 1);
  }

  // Such a switch does happen: one thread on one CPU goes to sleep on channel 1, the
  // scheduler finds nothing to run and returns to it, it clears its channel, another
  // thread is created, and the next timer interrupt switches it out.
  lemma StrandingIsReachable(f: Context) returns (ss: seq<State>, acts: seq<Action>)
    requires f.rip != 0
    ensures Run(ss, acts) && |ss[|acts|].ts| == MAX_NUM_THREADS + 1 && Stranded(ss[|acts|].ts[0])
  {
    ss, acts := [Boot(f)], [];
    FirstSteps(f);
    ss, acts := Extended(ss, acts, Create(0, f), WithThread(Boot(f), 0, f));
    ss, acts := Extended(ss, acts, Switch(0, 0, f), First(f));
    NapSteps(f);
    ss, acts := Extended(ss, acts, SetChannel(0, 1), Dozing(f));
    ss, acts := Extended(ss, acts, SetSleeping(0), Dozed(f));
    ss, acts := Extended(ss, acts, ClearWakeup(0), Napping(f, 1));
    LastSteps(f);
    var s := WithThread(Napping(f, 0), 1, f);
    ss, acts := Extended(ss, acts, NoSwitch(0), Napping(f, 1));
    ss, acts := Extended(ss, acts, ClearChannel(0), Napping(f, 0));
    ss, acts := Extended(ss, acts, Create(1, f), s);
    ss, acts := Extended(ss, acts, Switch(0, 1, f), SwitchTo(s, 0, 1, f));
  }

  lemma Extended(ss: seq<State>, acts: seq<Action>, a: Action, t: State) returns (ss': seq<State>, acts': seq<Action>)
    requires Run(ss, acts) && Step(ss[|acts|], a, t)
    ensures Run(ss', acts') && ss'[|acts'|] == t
  {
    ss', acts' := ss + [t], acts + [a];
    forall j | 0 <= j < |acts'| ensures StepAt(ss', acts', j) {
      assert j < |acts| ==> StepAt(ss, acts, j);
    }
  }

  function Dozing(f: Context): State { SetThread(First(f), 0, Thread(Running, true, 0, f, 1)) }

  function Dozed(f: Context): State { SetThread(First(f), 0, Thread(Sleeping, true, 0, f, 1)) }

  // ThreadSleep's three writes, and the one when it is back.
  lemma NapSteps(f: Context)
    requires f.rip != 0
    ensures Step(First(f), SetChannel(0, 1), Dozing(f)) && Step(Dozing(f), SetSleeping(0), Dozed(f))
    ensures Step(Dozed(f), ClearWakeup(0), Napping(f, 1)) && Step(Napping(f, 1), ClearChannel(0), Napping(f, 0))
  {
    assert First(f).cur == [0] && First(f).ts[0] == Thread(Running, true, 0, f, 0);
  }
}
