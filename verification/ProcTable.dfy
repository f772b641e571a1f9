/**
The scheduler and its neighbours in the form of the source: loops over thread_table that
update it in place.  Each method is proved to perform a step of SchedModel.
*/
module ProcTable {
  import opened Common
  import opened SchedModel
  import T = SchedTheorems

  class ProcTable {
    var threads: array<Thread>     // proc_table.thread_table, the idle thread last
    var current: array<int>        // cpu[c].current_thread, as an index
    ghost var log: seq<Event>

    ghost function View(): State
      reads this, threads, current
    {
      State(threads[..], current[..], log)
    }

    ghost predicate Valid()
      reads this, threads, current
    {
      T.Inv(View())
    }

    // At boot: no thread but idle, whose frame is `idle`, and no CPU runs one.
    constructor (cpus: nat, idle: Context)
      requires idle.rip != 0
      ensures fresh(threads) && fresh(current) && current.Length == cpus
      ensures Valid() && T.Init(View())
    {
      threads := new Thread[MAX_NUM_THREADS + 1](i =>
        if i == IDLE then Thread(Ready, true, IDLE, idle, 0) else Thread(NotInitialized, false, 0, idle, 0));
      current := new int[cpus](_ => NULL);
      log := [Created(IDLE, idle)];
      new;
      T.RunInv([View()], [], 0);
    }

    // ok is false where the source panics.
    method SaveThreadContext(prev: int, ctx: Context) returns (ok: bool)
      requires threads.Length == MAX_NUM_THREADS + 1 && NULL <= prev <= IDLE
      modifies threads, this`log
      ensures ok == !Unexpected(old(threads[..]), prev)
      ensures ok <==> prev == NULL || prev == IDLE || old(threads[prev].status) in {Killed, Sleeping, Running}
      ensures threads[..] == Saved(old(threads[..]), prev, ctx)
      ensures 0 <= prev < IDLE && old(threads[prev].status) == Sleeping ==>
        threads[..] == old(threads[..])[prev := old(threads[prev]).(status := WakeupReady, ctx := ctx)]
      ensures 0 <= prev < IDLE && old(threads[prev].status) == Running ==>
        threads[..] == old(threads[..])[prev := old(threads[prev]).(status := Ready, ctx := ctx)]
      ensures !(0 <= prev < IDLE && old(threads[prev].status) in {Sleeping, Running}) ==> threads[..] == old(threads[..])
      ensures log == old(log) + SavedLog(old(threads[..]), prev, ctx)
    {
      ok := true;
      if prev == NULL || prev == IDLE {
        return;
      }
      match threads[prev].status {
        case Killed =>
          // memset with its size and value arguments exchanged: writes nothing
        case Sleeping =>
          threads[prev] := threads[prev].(status := WakeupReady);
          threads[prev] := threads[prev].(ctx := ctx);
          log := log + [SwitchedOut(prev, ctx)];
        case Running =>
          threads[prev] := threads[prev].(ctx := ctx);
          threads[prev] := threads[prev].(status := Ready);
          log := log + [SwitchedOut(prev, ctx)];
        case _ =>
          ok := false;
      }
    }

    // Returns without effect when the target's instruction pointer is zero; otherwise the
    // CPU goes on with the returned frame.
    method Schedule(c: nat, k: nat, state: Status) returns (frame: Option<Context>)
      requires c < current.Length && k < threads.Length
      modifies threads, current, this`log
      ensures frame == if old(threads[k].ctx.rip) == 0 then None else Some(old(threads[k].ctx))
      ensures frame == None ==> View() == old(View())
      ensures frame.Some? ==> View() == State(old(threads[..])[k := old(threads[k]).(status := state)],
                                              old(current[..])[c := k], old(log) + [Resumed(k, frame.value)])
    {
      if threads[k].ctx.rip == 0 {
        return None;
      }
      current[c] := k;
      threads[k] := threads[k].(status := state);
      log := log + [Resumed(k, threads[k].ctx)];
      return Some(threads[k].ctx);
    }

    // One pass of the round-robin scan over the slots lo..hi.
    method Scan(c: nat, lo: nat, hi: nat, ctx: Context) returns (frame: Option<Context>, ghost k: nat)
      requires Valid() && c < current.Length && ctx.rip != 0
      requires lo <= hi <= MAX_NUM_THREADS && !(lo <= current[c] < hi)
      modifies threads, current, this`log
      ensures k <= hi && forall j :: lo <= j < hi && j < k ==> !Runnable(old(threads[..])[j])
      ensures frame == None ==> k == hi && View() == old(View())
      ensures frame.Some? ==> lo <= k < hi && Runnable(old(threads[..])[k])
      ensures frame.Some? ==> View() == SwitchTo(old(View()), c, k, ctx) && frame == Some(old(threads[k].ctx))
    {
      frame, k := None, hi;
      var i := lo;
      while i < hi
        invariant lo <= i <= hi && frame == None && k == hi
        invariant View() == old(View())
        invariant forall j :: lo <= j < i ==> !Runnable(threads[j])
      {
        ghost var s := View();
        assert T.WaitsToRun(s, IDLE);
        if threads[i].status == WakeupReady && threads[i].canWakeup {
          threads[i] := threads[i].(status := Ready);
        }
        if threads[i].status == Ready {
          if 0 <= current[c] < IDLE { T.CurrentStatus(s, c); }
          assert T.WaitsToRun(s, i);
          var ok := SaveThreadContext(current[c], ctx);
          assert ok;
          frame := Schedule(c, i, Running);
          assert frame.Some?;
          k := i;
          assert threads[..] == SwitchTo(s, c, i, ctx).ts;
          return;
        }
        i := i + 1;
      }
    }

    method ScheduleIdleThread(c: nat, ctx: Context) returns (frame: Option<Context>)
      requires Valid() && c < current.Length && Dead(View(), c)
      modifies threads, current, this`log
      ensures View() == SwitchTo(old(View()), c, IDLE, old(threads[IDLE].ctx))
      ensures frame == Some(old(threads[IDLE].ctx)) && current[..] == old(current[..])[c := IDLE]
      ensures threads[..] == old(threads[..])
    {
      ghost var s := View();
      T.IdleNotDead(s, c);
      assert T.WaitsToRun(s, IDLE);
      var ok := SaveThreadContext(current[c], ctx);
      frame := Schedule(c, IDLE, Ready);
      assert threads[..] == SwitchTo(s, c, IDLE, s.ts[IDLE].ctx).ts;
    }

    // The three scan loops of InvokeScheduler.
    method RoundRobin(c: nat, ctx: Context) returns (frame: Option<Context>, ghost k: nat)
      requires Valid() && c < current.Length && ctx.rip != 0
      modifies threads, current, this`log
      ensures frame.Some? ==> SwitchStep(old(View()), c, k, ctx, View()) && frame == Some(old(threads[..])[k].ctx)
      ensures frame == None ==> View() == old(View()) && NothingRunnable(threads[..], ScanFrom(threads[..], current[c]))
    {
      ghost var s := View();
      var prev := current[c];
      if 0 <= prev < IDLE { T.CurrentStatus(s, c); }
      if prev == NULL {
        frame, k := Scan(c, 0, MAX_NUM_THREADS, ctx);
      } else {
        var from := if threads[prev].id < 0 then MAX_NUM_THREADS else threads[prev].id;
        if from + 1 < MAX_NUM_THREADS {
          frame, k := Scan(c, from + 1, MAX_NUM_THREADS, ctx);
        } else {
          frame, k := None, MAX_NUM_THREADS;
        }
        if frame == None {
          frame, k := Scan(c, 0, from, ctx);
        }
      }
    }

    // InvokeScheduler as a step of the machine.
    method SwitchOrStay(c: nat, ctx: Context) returns (frame: Option<Context>, ghost a: Action)
      requires Valid() && c < current.Length && ctx.rip != 0
      modifies threads, current, this`log
      ensures Valid() && Step(old(View()), a, View()) && T.InvokesOn(a, c) && (a.Switch? ==> a.ctx == ctx)
      ensures frame == None ==> View() == old(View())
      ensures frame.Some? <==> !a.NoSwitch?
      ensures frame.Some? ==> NULL < current[c] <= IDLE && frame.value == old(threads[..])[current[c]].ctx
      ensures frame.Some? ==> |log| > 0 && log[|log| - 1] == Resumed(current[c], frame.value)
    {
      ghost var s := View();
      ghost var k: nat;
      frame, k := RoundRobin(c, ctx);
      a := Switch(c, k, ctx);
      if frame == None {
        if current[c] == NULL || threads[current[c]].status == Killed {
          frame := ScheduleIdleThread(c, ctx);
          a := GoIdle(c);
        } else {
          a := NoSwitch(c);
        }
      }
      assert Step(s, a, View());
      T.StepKeepsInv(s, a, View());
    }

    method InvokeScheduler(c: nat, ctx: Context) returns (frame: Option<Context>)
      requires Valid() && c < current.Length && ctx.rip != 0
      modifies threads, current, this`log
      ensures Valid() && exists a :: T.InvokesOn(a, c) && (a.Switch? ==> a.ctx == ctx) && Step(old(View()), a, View())
      // the first runnable thread behind the old one, whenever there is one
      ensures forall t :: 0 <= t < MAX_NUM_THREADS && Runnable(old(threads[..])[t]) ==>
        0 <= current[c] < IDLE && Runnable(old(threads[..])[current[c]])
        && T.Ahead(old(current[c]), current[c]) <= T.Ahead(old(current[c]), t)
      // else the old thread goes on, or the idle thread where there is none
      ensures (forall t :: 0 <= t < MAX_NUM_THREADS ==> !Runnable(old(threads[..])[t])) ==>
        current[c] == (if old(current[c]) == NULL then IDLE else old(current[c]))
      // with the frame it was switched out with; the old thread's frame is stored
      ensures frame.Some? ==> NULL < current[c] <= IDLE && frame.value == old(threads[..])[current[c]].ctx
      ensures frame.Some? ==> |log| > 0 && log[|log| - 1] == Resumed(current[c], frame.value)
      ensures frame.Some? && 0 <= old(current[c]) < IDLE ==> threads[..][old(current[c])].ctx == ctx
      ensures frame.Some? && current[c] < IDLE ==> threads[..][current[c]].status == Running
      ensures frame == None ==> View() == old(View()) && current[c] != NULL
    {
      ghost var s := View();
      ghost var a;
      frame, a := SwitchOrStay(c, ctx);
      T.InvocationChooses(s, a, View(), c);
      T.InvocationFallsBack(s, a, View(), c);
      if frame.Some? { T.InvocationStores(s, a, View(), c); }
    }

    method Wakeup(channel: nat)
      requires Valid() && channel != 0
      modifies threads
      ensures Valid() && Step(old(View()), SchedModel.Wakeup(channel), View())
      ensures forall i :: 0 <= i < MAX_NUM_THREADS ==>
        threads[i].canWakeup ==
          (old(threads[i].canWakeup) || (old(threads[i].status) in {Sleeping, WakeupReady} && old(threads[i].channel) == channel))
      ensures forall i :: 0 <= i <= IDLE ==> threads[i] == old(threads[i]).(canWakeup := threads[i].canWakeup)
      ensures threads[IDLE] == old(threads[IDLE])
    {
      ghost var s := View();
      for i := 0 to MAX_NUM_THREADS
        invariant threads.Length == MAX_NUM_THREADS + 1
        invariant forall j :: 0 <= j < i ==> threads[j] == WokenOne(s.ts[j], channel)
        invariant forall j :: i <= j <= IDLE ==> threads[j] == s.ts[j]
      {
        if (threads[i].status == Sleeping || threads[i].status == WakeupReady) && threads[i].channel == channel {
          threads[i] := threads[i].(canWakeup := true);
        }
      }
      assert threads[..] == Woken(s.ts, channel);
      T.StepKeepsInv(s, SchedModel.Wakeup(channel), View());
    }

    method FindFreeThread() returns (id: Option<nat>)
      requires threads.Length == MAX_NUM_THREADS + 1
      ensures id.Some? ==> IsFirstFree(threads[..], id.value)
      ensures id.Some? ==> id.value < MAX_NUM_THREADS && threads[id.value].status in {NotInitialized, Killed}
      ensures forall j :: 0 <= j < (if id.Some? then id.value else MAX_NUM_THREADS) ==>
        threads[j].status !in {NotInitialized, Killed}
    {
      for i := 0 to MAX_NUM_THREADS
        invariant forall j :: 0 <= j < i ==> !Free(threads[j])
      {
        if threads[i].status == NotInitialized || threads[i].status == Killed {
          return Some(i);
        }
      }
      return None;
    }

    // CreateKernelThread; also the thread-table part of CreateUserProcess and fork.
    method CreateThread(frame: Context) returns (id: Option<nat>)
      requires Valid() && frame.rip != 0
      modifies threads, this`log
      ensures Valid()
      ensures id.Some? ==> Step(old(View()), Create(id.value, frame), View()) && !T.OnSomeCpu(current[..], id.value)
      ensures id.Some? ==> id.value < MAX_NUM_THREADS && old(threads[..])[id.value].status in {NotInitialized, Killed}
      ensures id.Some? ==> threads[..] == old(threads[..])[id.value :=
        Thread(Ready, true, id.value, frame, old(threads[..])[id.value].channel)]
      ensures id == None ==> View() == old(View())
      ensures forall j :: 0 <= j < (if id.Some? then id.value else MAX_NUM_THREADS) ==>
        old(threads[..])[j].status !in {NotInitialized, Killed}
    {
      ghost var s := View();
      id := FindFreeThread();
      if id.Some? {
        var i := id.value;
        threads[i] := threads[i].(id := i);
        threads[i] := threads[i].(status := Ready, canWakeup := true, ctx := frame);
        log := log + [Created(i, frame)];
        assert Step(s, Create(i, frame), View());
        T.StepKeepsInv(s, Create(i, frame), View());
      }
    }

    // ExitThread, and SYSHANDLER_exit for a process with one thread.
    method ExitThread(c: nat)
      requires Valid() && c < current.Length && 0 <= current[c] < IDLE
      modifies threads, current
      ensures Valid() && Step(old(View()), Exit(c), View())
      ensures current[..] == old(current[..])[c := NULL]
      ensures threads[..] == old(threads[..])[old(current[c]) := old(threads[current[c]]).(status := Killed, id := -1)]
    {
      ghost var s := View();
      var t := current[c];
      current[c] := NULL;
      threads[t] := threads[t].(status := Killed);
      threads[t] := threads[t].(id := -1);
      assert Step(s, Exit(c), View());
      T.StepKeepsInv(s, Exit(c), View());
    }
  }
}
