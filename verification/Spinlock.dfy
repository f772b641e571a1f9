/**
Spinlocks at test-and-set granularity, for any number of CPUs and locks.  Every access
to a lock word is a step of its own; cli_count and the interrupt flag belong to one CPU,
so inc_cli and dec_cli are single steps.
*/
module Spinlock {

  const NOBODY: int := -1   // owner_cpu == (uint32_t)-1, no CPU's 16-bit id

  datatype Lock = Lock(isLocked: bool, owner: int)

  datatype Op =
    | Ready                 // in none of the functions below
    | AcqInc(l: nat)        // acquire_Spinlock: interrupts off, about to count
    | AcqFlag(l: nat)       //   spinlock_check_held: about to read is_locked,
    | AcqOwner(l: nat)      //   then owner_cpu
    | Spin(l: nat)          //   about to test and set
    | SetOwner(l: nat)      //   about to write owner_cpu
    | RelFlag(l: nat)       // release_Spinlock: spinlock_check_held: about to read is_locked,
    | RelOwner(l: nat)      //   then owner_cpu
    | ClearOwner(l: nat)    //   about to write owner_cpu
    | ClearFlag(l: nat)     //   about to clear is_locked
    | Dec                   // about to run dec_cli
    | DeadlockPanic(l: nat)
    | NotHeldPanic(l: nat)
    | DecPanic

  // held and sections record what the CPU's calls so far amount to: the locks it has
  // acquired and not released, and its open explicit inc_cli sections.
  datatype Cpu = Cpu(op: Op, cliCount: nat, intFlag: bool, noINT: bool, held: set<nat>, sections: nat)

  datatype State = State(locks: seq<Lock>, cpus: seq<Cpu>)

  datatype Action =
    | Acquire(c: nat, l: nat)
    | Release(c: nat, l: nat)
    | IncCli(c: nat)
    | DecCli(c: nat)
    | SetNoInt(c: nat, b: bool)     // NoINT_Enable, NoINT_Disable
    | SetIntFlag(c: nat, b: bool)   // interrupt gate, iretq, bare cli and sti
    | Continue(c: nat)

  function PutCpu(s: State, c: nat, x: Cpu): State requires c < |s.cpus| { s.(cpus := s.cpus[c := x]) }

  function PutLock(s: State, l: nat, k: Lock): State requires l < |s.locks| { s.(locks := s.locks[l := k]) }

  function Goto(s: State, c: nat, op: Op): State requires c < |s.cpus| { PutCpu(s, c, s.cpus[c].(op := op)) }

  // dec_cli
  function Decremented(x: Cpu): Cpu {
    if x.intFlag || x.cliCount == 0 then x.(op := DecPanic)
    else x.(op := Ready, cliCount := x.cliCount - 1, intFlag := x.cliCount == 1 && !x.noINT)
  }

  predicate OnLock(op: Op) { !(op.Ready? || op.Dec? || op.DecPanic?) }

  predicate OpInRange(s: State, op: Op) { OnLock(op) ==> op.l < |s.locks| }

  // The next access of a CPU that is inside one of the functions.
  function Next(s: State, c: nat): State
    requires c < |s.cpus| && OpInRange(s, s.cpus[c].op)
  {
    var x := s.cpus[c];
    match x.op
    case AcqInc(l) => PutCpu(s, c, x.(op := AcqFlag(l), cliCount := x.cliCount + 1))
    case AcqFlag(l) => Goto(s, c, if s.locks[l].isLocked then AcqOwner(l) else Spin(l))
    case AcqOwner(l) => Goto(s, c, if s.locks[l].owner == c then DeadlockPanic(l) else Spin(l))
    case Spin(l) =>
      if s.locks[l].isLocked then s
      else Goto(PutLock(s, l, s.locks[l].(isLocked := true)), c, SetOwner(l))
    case SetOwner(l) => PutCpu(PutLock(s, l, s.locks[l].(owner := c)), c, x.(op := Ready, held := x.held + {l}))
    case RelFlag(l) => Goto(s, c, if s.locks[l].isLocked then RelOwner(l) else NotHeldPanic(l))
    case RelOwner(l) => Goto(s, c, if s.locks[l].owner == c then ClearOwner(l) else NotHeldPanic(l))
    case ClearOwner(l) =>
      PutCpu(PutLock(s, l, s.locks[l].(owner := NOBODY)), c, x.(op := ClearFlag(l), held := x.held - {l}))
    case ClearFlag(l) => Goto(PutLock(s, l, s.locks[l].(isLocked := false)), c, Dec)
    case Dec => PutCpu(s, c, Decremented(x))
    case _ => s
  }

  predicate AtRest(s: State, c: nat) { c < |s.cpus| && s.cpus[c].op == Ready }

  predicate Step(s: State, a: Action, s': State) {
    match a
    case Acquire(c, l) =>
      AtRest(s, c) && l < |s.locks| && s' == PutCpu(s, c, s.cpus[c].(op := AcqInc(l), intFlag := false))
    case Release(c, l) => AtRest(s, c) && l < |s.locks| && s' == Goto(s, c, RelFlag(l))
    case IncCli(c) =>
      AtRest(s, c) &&
      s' == PutCpu(s, c, s.cpus[c].(intFlag := false, cliCount := s.cpus[c].cliCount + 1, sections := s.cpus[c].sections + 1))
    case DecCli(c) =>
      AtRest(s, c) && s.cpus[c].sections > 0 &&
      s' == PutCpu(s, c, s.cpus[c].(op := Dec, sections := s.cpus[c].sections - 1))
    case SetNoInt(c, b) => AtRest(s, c) && s' == PutCpu(s, c, s.cpus[c].(noINT := b))
    case SetIntFlag(c, b) =>
      AtRest(s, c) && (b ==> s.cpus[c].cliCount == 0) && s' == PutCpu(s, c, s.cpus[c].(intFlag := b))
    case Continue(c) => c < |s.cpus| && OpInRange(s, s.cpus[c].op) && s' == Next(s, c)
  }

  // ---------- the invariant ----------

  // Between the successful test-and-set and the clearing of is_locked.
  predicate Inside(x: Cpu, l: nat) { l in x.held || x.op == SetOwner(l) || x.op == ClearFlag(l) }

  // What cli_count includes beyond the locks held and the explicit sections.
  function Pending(op: Op): nat {
    if op.AcqFlag? || op.AcqOwner? || op.Spin? || op.SetOwner? || op.ClearFlag? || op.Dec? || op.DeadlockPanic? then 1 else 0
  }

  predicate CpuOk(s: State, c: nat)
    requires c < |s.cpus|
  {
    var x := s.cpus[c];
    && OpInRange(s, x.op)
    && x.op != DecPanic
    && x.cliCount == |x.held| + x.sections + Pending(x.op)
    && (x.intFlag ==> x.cliCount == 0 && !x.op.AcqInc?)
    && (forall l :: l in x.held ==> l < |s.locks| && s.locks[l].owner == c)
    && (x.op.Spin? || x.op.SetOwner? || x.op.ClearFlag? ==> x.op.l !in x.held)
    && (x.op.ClearOwner? || x.op.DeadlockPanic? ==> x.op.l in x.held)
    && (x.op.NotHeldPanic? ==> x.op.l !in x.held)
  }

  predicate LockOk(s: State, l: nat)
    requires l < |s.locks|
  {
    && (s.locks[l].isLocked <==> exists c :: 0 <= c < |s.cpus| && Inside(s.cpus[c], l))
    && (forall c, d :: 0 <= c < d < |s.cpus| ==> !(Inside(s.cpus[c], l) && Inside(s.cpus[d], l)))
    && (s.locks[l].owner == NOBODY ||
        (0 <= s.locks[l].owner < |s.cpus| && l in s.cpus[s.locks[l].owner].held))
  }

  predicate Inv(s: State) {
    && (forall c :: 0 <= c < |s.cpus| ==> CpuOk(s, c))
    && (forall l :: 0 <= l < |s.locks| ==> LockOk(s, l))
  }

  // ---------- each step ----------

  lemma OtherLock(s: State, s': State, c: nat, l: nat)
    requires c < |s.cpus| == |s'.cpus| && l < |s.locks| && l < |s'.locks| && LockOk(s, l)
    requires s'.cpus == s.cpus[c := s'.cpus[c]] && s'.locks[l] == s.locks[l]
    requires (l in s.cpus[c].held <==> l in s'.cpus[c].held) && (Inside(s.cpus[c], l) <==> Inside(s'.cpus[c], l))
    ensures LockOk(s', l)
  {
    forall d | 0 <= d < |s.cpus| ensures Inside(s.cpus[d], l) <==> Inside(s'.cpus[d], l) {
    }
  }

  lemma OtherCpu(s: State, s': State, c: nat, d: nat)
    requires c < |s.cpus| == |s'.cpus| && d < |s.cpus| && d != c && CpuOk(s, d)
    requires s'.cpus == s.cpus[c := s'.cpus[c]] && |s'.locks| == |s.locks|
    requires forall l :: 0 <= l < |s.locks| && s'.locks[l].owner != s.locks[l].owner ==> s.locks[l].owner != d
    ensures CpuOk(s', d)
  {
  }

  predicate Acquiring(op: Op) { op.AcqInc? || op.AcqFlag? || op.AcqOwner? || op.Spin? || op.SetOwner? }

  lemma OwnCpuAcquiring(s: State, c: nat)
    requires c < |s.cpus| && CpuOk(s, c) && Acquiring(s.cpus[c].op) && LockOk(s, s.cpus[c].op.l)
    ensures CpuOk(Next(s, c), c)
  {
    if s.cpus[c].op.l in s.cpus[c].held { assert Inside(s.cpus[c], s.cpus[c].op.l); }
  }

  lemma OwnCpu(s: State, c: nat)
    requires c < |s.cpus| && CpuOk(s, c) && (OnLock(s.cpus[c].op) ==> LockOk(s, s.cpus[c].op.l))
    ensures CpuOk(Next(s, c), c)
  {
    var op := s.cpus[c].op;
    if Acquiring(op) {
      OwnCpuAcquiring(s, c);
    } else if OnLock(op) && op.l in s.cpus[c].held {
      assert Inside(s.cpus[c], op.l);
    }
  }

  lemma OwnLock(s: State, c: nat)
    requires c < |s.cpus| && CpuOk(s, c) && OnLock(s.cpus[c].op) && LockOk(s, s.cpus[c].op.l)
    ensures LockOk(Next(s, c), s.cpus[c].op.l)
  {
    var x, s', l := s.cpus[c], Next(s, c), s.cpus[c].op.l;
    forall d | 0 <= d < |s.cpus| && d != c ensures Inside(s'.cpus[d], l) <==> Inside(s.cpus[d], l) {
    }
    if Inside(s'.cpus[c], l) {
      assert Inside(s'.cpus[c], l);
    }
  }

  lemma ContinueKeepsInv(s: State, c: nat)
    requires Inv(s) && c < |s.cpus| && OpInRange(s, s.cpus[c].op)
    ensures Inv(Next(s, c))
  {
    var s' := Next(s, c);
    var op := s.cpus[c].op;
    assert CpuOk(s, c);
    if OnLock(op) {
      assert LockOk(s, op.l);
      OwnLock(s, c);
    }
    OwnCpu(s, c);
    forall d | 0 <= d < |s'.cpus| && d != c ensures CpuOk(s', d) {
      NextLeavesCpu(s, c, d);
    }
    forall l | 0 <= l < |s'.locks| && !(OnLock(op) && l == op.l) ensures LockOk(s', l) {
      NextLeavesLock(s, c, l);
    }
  }

  lemma NextLeavesCpu(s: State, c: nat, d: nat)
    requires c < |s.cpus| && d < |s.cpus| && d != c && CpuOk(s, c) && CpuOk(s, d)
    requires OnLock(s.cpus[c].op) ==> LockOk(s, s.cpus[c].op.l)
    ensures CpuOk(Next(s, c), d)
  {
    if OnLock(s.cpus[c].op) {
      assert Inside(s.cpus[c], s.cpus[c].op.l) ==> !Inside(s.cpus[d], s.cpus[c].op.l);
    }
    OtherCpu(s, Next(s, c), c, d);
  }

  lemma NextLeavesLock(s: State, c: nat, l: nat)
    requires c < |s.cpus| && CpuOk(s, c) && l < |s.locks| && LockOk(s, l)
    requires OnLock(s.cpus[c].op) ==> l != s.cpus[c].op.l
    ensures LockOk(Next(s, c), l)
  {
    OtherLock(s, Next(s, c), c, l);
  }

  lemma CallKeepsInv(s: State, a: Action, s': State)
    requires Inv(s) && Step(s, a, s') && !a.Continue?
    ensures Inv(s')
  {
    var c := a.c;
    assert CpuOk(s, c);
    forall d | 0 <= d < |s'.cpus| && d != c ensures CpuOk(s', d) {
      assert CpuOk(s, d);
      OtherCpu(s, s', c, d);
    }
    forall l | 0 <= l < |s'.locks| ensures LockOk(s', l) {
      assert LockOk(s, l);
      OtherLock(s, s', c, l);
    }
  }

  lemma StepKeepsInv(s: State, a: Action, s': State)
    requires Inv(s) && Step(s, a, s')
    ensures Inv(s')
  {
    if a.Continue? { ContinueKeepsInv(s, a.c); } else { CallKeepsInv(s, a, s'); }
  }

  // ---------- runs ----------

  // Every lock initialised by init_Spinlock, every CPU outside, counters zero.
  ghost predicate Init(s: State) {
    && (forall l :: 0 <= l < |s.locks| ==> s.locks[l] == Lock(false, NOBODY))
    && (forall c :: 0 <= c < |s.cpus| ==> s.cpus[c].op == Ready && s.cpus[c].cliCount == 0
                                          && s.cpus[c].held == {} && s.cpus[c].sections == 0)
  }

  ghost predicate StepAt(ss: seq<State>, acts: seq<Action>, j: nat)
    requires |ss| == |acts| + 1 && j < |acts|
  {
    Step(ss[j], acts[j], ss[j + 1])
  }

  ghost predicate Run(ss: seq<State>, acts: seq<Action>) {
    && |ss| == |acts| + 1
    && Init(ss[0])
    && forall j {:trigger StepAt(ss, acts, j)} :: 0 <= j < |acts| ==> StepAt(ss, acts, j)
  }

  lemma {:induction false} RunInv(ss: seq<State>, acts: seq<Action>, j: nat)
    requires Run(ss, acts) && j < |ss|
    ensures Inv(ss[j])
  {
    if j > 0 {
      RunInv(ss, acts, j - 1);
      assert StepAt(ss, acts, j - 1);
      StepKeepsInv(ss[j - 1], acts[j - 1], ss[j]);
    }
  }

  // ---------- main results ----------

  // At most one CPU is between acquiring a lock and releasing it, and is_locked is set
  // exactly while one is.
  lemma MutualExclusion(ss: seq<State>, acts: seq<Action>, j: nat, l: nat)
    requires Run(ss, acts) && j < |ss| && l < |ss[j].locks|
    ensures ss[j].locks[l].isLocked <==> exists c :: 0 <= c < |ss[j].cpus| && Inside(ss[j].cpus[c], l)
    ensures forall c, d :: 0 <= c < d < |ss[j].cpus| ==> !(Inside(ss[j].cpus[c], l) && Inside(ss[j].cpus[d], l))
  {
    RunInv(ss, acts, j);
    assert LockOk(ss[j], l);
  }

  // spinlock_check_held: whatever other CPUs do between its two reads, a CPU that reads
  // its own id in owner_cpu holds the lock, and a CPU that holds the lock reads is_locked
  // set and its own id.
  lemma CheckHeldIsExact(ss: seq<State>, acts: seq<Action>, j: nat, c: nat, l: nat)
    requires Run(ss, acts) && j < |ss| && c < |ss[j].cpus| && l < |ss[j].locks|
    ensures ss[j].locks[l].owner == c <==> l in ss[j].cpus[c].held
    ensures l in ss[j].cpus[c].held ==> ss[j].locks[l].isLocked
  {
    RunInv(ss, acts, j);
    assert CpuOk(ss[j], c) && LockOk(ss[j], l);
    if l in ss[j].cpus[c].held { assert Inside(ss[j].cpus[c], l); }
  }

  // A CPU panics only for taking a lock it holds or for releasing one it does not hold, and
  // never spins on a lock it holds; the two panics of dec_cli are unreachable.
  lemma PanicsAreEarned(ss: seq<State>, acts: seq<Action>, j: nat, c: nat)
    requires Run(ss, acts) && j < |ss| && c < |ss[j].cpus|
    ensures var x := ss[j].cpus[c];
            && x.op != DecPanic
            && (x.op.DeadlockPanic? ==> x.op.l in x.held)
            && (x.op.NotHeldPanic? ==> x.op.l !in x.held)
            && (x.op.Spin? ==> x.op.l !in x.held)
  {
    RunInv(ss, acts, j);
    assert CpuOk(ss[j], c);
  }

  // And it does panic then: the read of owner_cpu decides by whether the CPU holds the lock.
  lemma OwnerReadDecides(ss: seq<State>, acts: seq<Action>, j: nat, c: nat)
    requires Run(ss, acts) && j < |acts| && acts[j] == Continue(c) && c < |ss[j].cpus| == |ss[j + 1].cpus|
    requires ss[j].cpus[c].op.AcqOwner? || ss[j].cpus[c].op.RelOwner?
    ensures var op, op', h := ss[j].cpus[c].op, ss[j + 1].cpus[c].op, ss[j].cpus[c].held;
            && (op.AcqOwner? ==> op' == if op.l in h then DeadlockPanic(op.l) else Spin(op.l))
            && (op.RelOwner? ==> op' == if op.l in h then ClearOwner(op.l) else NotHeldPanic(op.l))
  {
    assert StepAt(ss, acts, j);
    CheckHeldIsExact(ss, acts, j, c, ss[j].cpus[c].op.l);
  }

  // The read of is_locked lets a CPU that holds the lock go on to the read of owner_cpu, so
  // taking a lock twice panics, and releasing a held one does not.
  lemma FlagReadDecides(ss: seq<State>, acts: seq<Action>, j: nat, c: nat)
    requires Run(ss, acts) && j < |acts| && acts[j] == Continue(c) && c < |ss[j].cpus| == |ss[j + 1].cpus|
    requires ss[j].cpus[c].op.AcqFlag? || ss[j].cpus[c].op.RelFlag?
    requires ss[j].cpus[c].op.l in ss[j].cpus[c].held
    ensures var op, op' := ss[j].cpus[c].op, ss[j + 1].cpus[c].op;
            op' == if op.AcqFlag? then AcqOwner(op.l) else RelOwner(op.l)
  {
    assert StepAt(ss, acts, j);
    RunInv(ss, acts, j);
    assert CpuOk(ss[j], c);
    CheckHeldIsExact(ss, acts, j, c, ss[j].cpus[c].op.l);
  }

  // The test-and-set takes the lock exactly when no CPU is between acquiring and releasing it.
  lemma SpinTakesFreeLock(ss: seq<State>, acts: seq<Action>, j: nat, c: nat)
    requires Run(ss, acts) && j < |acts| && acts[j] == Continue(c) && c < |ss[j].cpus| == |ss[j + 1].cpus|
    requires ss[j].cpus[c].op.Spin?
    ensures var l := ss[j].cpus[c].op.l;
            ss[j + 1].cpus[c].op == SetOwner(l) <==> forall d :: 0 <= d < |ss[j].cpus| ==> !Inside(ss[j].cpus[d], l)
  {
    assert StepAt(ss, acts, j);
    RunInv(ss, acts, j);
    assert CpuOk(ss[j], c);
    MutualExclusion(ss, acts, j, ss[j].cpus[c].op.l);
  }

  // cli_count counts the locks held or being taken or just given back and the explicit
  // sections; interrupts are never on while it is above zero.
  lemma CliCountIsExact(ss: seq<State>, acts: seq<Action>, j: nat, c: nat)
    requires Run(ss, acts) && j < |ss| && c < |ss[j].cpus|
    ensures var x := ss[j].cpus[c];
            && x.cliCount == |x.held| + x.sections + Pending(x.op)
            && (x.intFlag ==> x.held == {} && x.sections == 0 && x.cliCount == 0)
  {
    RunInv(ss, acts, j);
    assert CpuOk(ss[j], c);
  }

  // dec_cli turns interrupts on exactly when the last lock or section is gone and noINT is clear.
  lemma DecCliEnablesExactly(ss: seq<State>, acts: seq<Action>, j: nat, c: nat)
    requires Run(ss, acts) && j < |acts| && acts[j] == Continue(c) && c < |ss[j].cpus| == |ss[j + 1].cpus|
    requires ss[j].cpus[c].op == Dec
    ensures var x, x' := ss[j].cpus[c], ss[j + 1].cpus[c];
            x'.op == Ready && (x'.intFlag <==> x.held == {} && x.sections == 0 && !x.noINT)
  {
    assert StepAt(ss, acts, j);
    RunInv(ss, acts, j);
    assert CpuOk(ss[j], c);
  }
}
