/**
  * Who holds which physical frame, over every run of the kernel: 2 MB frames taken whole or
  * cut into chunks, and 4 KB frames going from the allocator through a thread's hands into a
  * process's list of used pages (process creation, fork, exec, sbrk) and back (exit).
  */
module FrameOwnership {
  import opened Common
  import opened SmallFrames

  /** The frames of the whole machine. */
  datatype State = State(
    free: set<nat>,           // free 2 MB frames
    whole: set<nat>,          // handed out as 2 MB frames
    pending: set<nat>,        // taken from the map, not in the chunk list yet
    split: set<nat>,          // every 2 MB frame that was ever chunked
    chunks: seq<Chunk>,
    held: seq<seq<nat>>       // 4 KB frames: 0 in hand between request and mapping, p process p's
  )

  ghost function All(held: seq<seq<nat>>): multiset<nat> {
    if held == [] then multiset{} else All(held[..|held| - 1]) + multiset(held[|held| - 1])
  }

  lemma {:induction false} AllUpdate(held: seq<seq<nat>>, p: nat, fs: seq<nat>)
    requires p < |held|
    ensures multiset(held[p]) <= All(held)
    ensures All(held[p := fs]) == All(held) - multiset(held[p]) + multiset(fs)
  {
    var n := |held| - 1;
    if p == n {
      assert held[p := fs][..n] == held[..n];
    } else {
      AllUpdate(held[..n], p, fs);
      assert held[p := fs][..n] == held[..n][p := fs];
    }
  }

  datatype Action =
    | TakeWhole            // physical_frame_request by the kernel heap
    | TakeToSplit          // the same on behalf of a 4 KB request
    | Split(base: nat)     // create_new_chunked_frame
    | Take                 // check_available_chunked_frame
    | Map(p: nat, j: nat)  // a frame in hand enters process p's list
    | Release(p: nat)      // the exit walk frees process p's first page

  ghost predicate LowestFree(s: State, n: nat) {
    n in s.free && forall m :: m in s.free ==> n <= m
  }

  // A request on an empty map fails and changes nothing.
  ghost predicate TakeWholeStep(s: State, t: State) {
    (s.free == {} && t == s)
    || exists n: nat :: LowestFree(s, n) && t == s.(free := s.free - {n}, whole := s.whole + {n})
  }

  ghost predicate TakeToSplitStep(s: State, t: State) {
    (s.free == {} && t == s)
    || exists n: nat :: LowestFree(s, n) && t == s.(free := s.free - {n}, pending := s.pending + {n})
  }

  ghost predicate SplitStep(s: State, t: State, n: nat) {
    n in s.pending && |s.held| > 0 && t == AfterSplit(s, n)
  }

  ghost function AfterSplit(s: State, n: nat): State
    requires |s.held| > 0
  {
    s.(pending := s.pending - {n}, split := s.split + {n}, chunks := [NewChunk(n)] + s.chunks,
       held := s.held[0 := s.held[0] + [Addr(n, 0)]])
  }

  // With every chunk full the search fails and changes nothing.
  ghost predicate TakeOneStep(s: State, t: State) {
    (t == s && forall c :: c in s.chunks ==> c.useCount == CAPACITY)
    || exists f: nat :: |s.held| > 0 && TakeStep(s.chunks, t.chunks, f)
        && t == s.(chunks := t.chunks, held := s.held[0 := s.held[0] + [f]])
  }

  ghost predicate MapStep(s: State, t: State, p: nat, j: nat) {
    0 < p < |s.held| && j < |s.held[0]| && t == AfterMap(s, p, j)
  }

  ghost function AfterMap(s: State, p: nat, j: nat): State
    requires 0 < p < |s.held| && j < |s.held[0]|
  {
    s.(held := s.held[0 := s.held[0][..j] + s.held[0][j + 1..]][p := [s.held[0][j]] + s.held[p]])
  }

  ghost predicate ReleaseStep(s: State, t: State, p: nat) {
    && 0 < p < |s.held| && s.held[p] != []
    && Freed(s.chunks, t.chunks, BaseOf(s.held[p][0]), IndexOf(s.held[p][0]))
    && t == s.(chunks := t.chunks, held := s.held[p := s.held[p][1..]])
  }

  ghost predicate Step(s: State, a: Action, t: State) {
    match a
    case TakeWhole => TakeWholeStep(s, t)
    case TakeToSplit => TakeToSplitStep(s, t)
    case Split(n) => SplitStep(s, t, n)
    case Take => TakeOneStep(s, t)
    case Map(p, j) => MapStep(s, t, p, j)
    case Release(p) => ReleaseStep(s, t, p)
  }

  // After boot (FrameMap.Boot): no 4 KB frame yet, no kernel frame free.
  ghost predicate Init(s: State) {
    && s.whole == s.pending == s.split == {} && s.chunks == []
    && (forall n :: n in s.free ==> KERNELFRAMES <= n < HUGEFRAMES)
    && forall p :: 0 <= p < |s.held| ==> s.held[p] == []
  }

  ghost predicate Inv(s: State) {
    && s.free !! s.whole && s.free !! s.pending && s.free !! s.split
    && s.whole !! s.pending && s.whole !! s.split && s.pending !! s.split
    && (forall n :: n in s.free || n in s.whole || n in s.pending || n in s.split ==> KERNELFRAMES <= n < HUGEFRAMES)
    && Agrees(s.split, s.chunks, All(s.held))
  }

  lemma {:induction false} NothingHeld(held: seq<seq<nat>>)
    requires forall p :: 0 <= p < |held| ==> held[p] == []
    ensures All(held) == multiset{}
  {
    if held != [] {
      NothingHeld(held[..|held| - 1]);
    }
  }

  lemma InitInv(s: State)
    requires Init(s)
    ensures Inv(s)
  {
    NothingHeld(s.held);
  }

  lemma InHand(s: State, f: nat)
    requires |s.held| > 0
    ensures All(s.held[0 := s.held[0] + [f]]) == All(s.held) + multiset{f}
  {
    AllUpdate(s.held, 0, s.held[0] + [f]);
  }

  lemma SplitInv(s: State, t: State, n: nat)
    requires Inv(s) && SplitStep(s, t, n)
    ensures Inv(t)
  {
    SplitKeeps(s.split, s.chunks, All(s.held), n);
    InHand(s, Addr(n, 0));
  }

  lemma TakeInv(s: State, t: State)
    requires Inv(s) && TakeOneStep(s, t)
    ensures Inv(t)
  {
    if t != s {
      var f: nat :| TakeStep(s.chunks, t.chunks, f) && t == s.(chunks := t.chunks, held := s.held[0 := s.held[0] + [f]]);
      TakeKeeps(s.split, s.chunks, t.chunks, All(s.held), f);
      InHand(s, f);
    }
  }

  // Mapping a frame only moves it from one holder to another.
  lemma MapKeepsAll(s: State, t: State, p: nat, j: nat)
    requires MapStep(s, t, p, j)
    ensures All(t.held) == All(s.held)
  {
    var hand, f := s.held[0], s.held[0][j];
    var rest := hand[..j] + hand[j + 1..];
    assert hand == hand[..j] + [f] + hand[j + 1..];
    assert multiset(hand) == multiset(rest) + multiset{f};
    AllUpdate(s.held, 0, rest);
    AllUpdate(s.held[0 := rest], p, [f] + s.held[p]);
  }

  lemma ReleaseAll(s: State, p: nat)
    requires p < |s.held| && s.held[p] != []
    ensures s.held[p][0] in All(s.held)
    ensures All(s.held[p := s.held[p][1..]]) == All(s.held) - multiset{s.held[p][0]}
  {
    AllUpdate(s.held, p, s.held[p][1..]);
    assert s.held[p] == [s.held[p][0]] + s.held[p][1..];
    assert s.held[p][0] in multiset(s.held[p]);
  }

  lemma ReleaseInv(s: State, t: State, p: nat)
    requires Inv(s) && ReleaseStep(s, t, p)
    ensures Inv(t)
  {
    ReleaseAll(s, p);
    FreeKeeps(s.split, s.chunks, t.chunks, All(s.held), s.held[p][0]);
  }

  lemma StepInv(s: State, a: Action, t: State)
    requires Inv(s) && Step(s, a, t)
    ensures Inv(t)
  {
    match a
    case TakeWhole =>
    case TakeToSplit =>
    case Split(n) => SplitInv(s, t, n);
    case Take => TakeInv(s, t);
    case Map(p, j) => MapKeepsAll(s, t, p, j);
    case Release(p) => ReleaseInv(s, t, p);
  }

  ghost predicate StepAt(ss: seq<State>, acts: seq<Action>, j: nat)
    requires j < |acts| && |ss| == |acts| + 1
  {
    Step(ss[j], acts[j], ss[j + 1])
  }

  ghost predicate Run(ss: seq<State>, acts: seq<Action>) {
    && |ss| == |acts| + 1 && Init(ss[0])
    && forall j: nat {:trigger StepAt(ss, acts, j)} :: j < |acts| ==> StepAt(ss, acts, j)
  }

  lemma {:induction false} RunInv(ss: seq<State>, acts: seq<Action>, k: nat)
    requires Run(ss, acts) && k < |ss|
    ensures Inv(ss[k])
  {
    if k == 0 {
      InitInv(ss[0]);
    } else {
      RunInv(ss, acts, k - 1);
      assert StepAt(ss, acts, k - 1);
      StepInv(ss[k - 1], acts[k - 1], ss[k]);
    }
  }

  /** The results. */

  // A frame held at two places would be counted twice.
  lemma {:induction false} HeldTwice(held: seq<seq<nat>>, p: nat, i: nat, q: nat, j: nat)
    requires p < |held| && q < |held| && i < |held[p]| && j < |held[q]|
    requires (p != q || i != j) && held[p][i] == held[q][j]
    ensures All(held)[held[p][i]] >= 2
  {
    var f := held[p][i];
    if p == q {
      InTwice(held[p], i, j);
      AllUpdate(held, p, held[p]);
    } else {
      AllUpdate(held, p, []);
      var rest := held[p := []];
      AllUpdate(rest, q, rest[q]);
      assert f in multiset(held[p]) && f in multiset(rest[q]);
    }
  }

  lemma InTwice(fs: seq<nat>, i: nat, j: nat)
    requires i < |fs| && j < |fs| && i != j && fs[i] == fs[j]
    ensures multiset(fs)[fs[i]] >= 2
  {
    if i < j {
      assert fs == fs[..i] + [fs[i]] + fs[i + 1..];
      assert fs[j] in fs[i + 1..];
    } else {
      InTwice(fs, j, i);
    }
  }

  lemma Held(s: State, p: nat, i: nat)
    requires p < |s.held| && i < |s.held[p]|
    ensures s.held[p][i] in All(s.held)
  {
    AllUpdate(s.held, p, s.held[p]);
    assert s.held[p][i] in multiset(s.held[p]);
  }

  // The 4 KB at f do not meet the 2 MB of frame number n.
  ghost predicate Apart(f: nat, n: nat) {
    f + PGSIZE <= Start(n) || Start(n) + HUGEPGSIZE <= f
  }

  // No 4 KB frame is held twice, in one process or in two, and none lies in a 2 MB frame
  // that is free, on its way to the list, or handed out whole; none is the kernel's.
  lemma FramesDisjoint(ss: seq<State>, acts: seq<Action>, k: nat, p: nat, i: nat)
    requires Run(ss, acts) && k < |ss|
    requires p < |ss[k].held| && i < |ss[k].held[p]|
    ensures ss[k].held[p][i] % PGSIZE == 0 && KERNELTOP <= ss[k].held[p][i]
    ensures forall q, j :: 0 <= q < |ss[k].held| && 0 <= j < |ss[k].held[q]| && (p != q || i != j) ==>
      ss[k].held[q][j] != ss[k].held[p][i]
    ensures forall n :: n in ss[k].free || n in ss[k].whole || n in ss[k].pending ==> Apart(ss[k].held[p][i], n)
  {
    var s := ss[k];
    RunInv(ss, acts, k);
    Held(s, p, i);
    forall q, j | 0 <= q < |s.held| && 0 <= j < |s.held[q]| && (p != q || i != j)
      ensures s.held[q][j] != s.held[p][i]
    {
      if s.held[q][j] == s.held[p][i] {
        HeldTwice(s.held, p, i, q, j);
      }
    }
    PageOf(s.split, s.held[p][i]);
  }

  lemma PageOf(split: set<nat>, f: nat)
    requires FrameOk(split, f)
    ensures f % PGSIZE == 0 && Start(BaseOf(f)) <= f && BaseOf(f) in split
    ensures forall n: nat :: n !in split ==> Apart(f, n)
  {
    var i: nat :| i < CAPACITY && f == Addr(BaseOf(f), i);
    assert f == (BaseOf(f) * 512 + i) * PGSIZE;
    forall n: nat | n !in split ensures Apart(f, n) {
      if n < BaseOf(f) { assert Start(n + 1) <= f; } else { assert Start(BaseOf(f) + 1) <= Start(n); }
    }
  }

  ghost predicate Reachable(s: State) {
    exists ss: seq<State>, acts: seq<Action> :: Run(ss, acts) && ss[|acts|] == s
  }

  lemma ReachableInv(s: State)
    requires Reachable(s)
    ensures Inv(s)
  {
    var ss: seq<State>, acts: seq<Action> :| Run(ss, acts) && ss[|acts|] == s;
    RunInv(ss, acts, |acts|);
  }

  // What two holders have together, the hand and process c say, counts a frame at most once,
  // and counts none that a third holder p has.
  lemma TwoHolders(s: State, c: nat, p: nat, f: nat)
    requires Reachable(s) && 0 < c < |s.held| && 0 < p < |s.held| && c != p
    ensures multiset(s.held[0])[f] + multiset(s.held[c])[f] + multiset(s.held[p])[f] <= 1
  {
    ReachableInv(s);
    var none := s.held[0 := []];
    AllSplit(s.held, 0, f);
    AllSplit(none, c, f);
    AllSplit(none[c := []], p, f);
    assert f in All(s.held) ==> All(s.held)[f] == 1;
  }

  lemma AllSplit(held: seq<seq<nat>>, p: nat, f: nat)
    requires p < |held|
    ensures All(held)[f] == multiset(held[p])[f] + All(held[p := []])[f]
  {
    AllUpdate(held, p, []);
  }

  lemma HeldPage(s: State, p: nat, f: nat)
    requires Reachable(s) && p < |s.held| && f in s.held[p]
    ensures f % PGSIZE == 0 && f >= KERNELTOP
  {
    ReachableInv(s);
    AllUpdate(s.held, p, []);
    assert f in multiset(s.held[p]);
    PageOf(s.split, f);
  }

  // A chunk's count is the number of its frames that somebody holds, bit by bit.
  lemma UseCountIsExact(ss: seq<State>, acts: seq<Action>, k: nat, c: nat, i: nat)
    requires Run(ss, acts) && k < |ss| && c < |ss[k].chunks| && i < CAPACITY
    ensures |ss[k].chunks[c].bits| == CAPACITY
    ensures ss[k].chunks[c].bits[i] <==> Addr(ss[k].chunks[c].base, i) in All(ss[k].held)
    ensures ss[k].chunks[c].useCount == Count(ss[k].chunks[c].bits) > 0
  {
    RunInv(ss, acts, k);
  }

  // Whatever a process gives back is what TryFree asks of its callers.
  lemma ReleasesAreEarned(ss: seq<State>, acts: seq<Action>, k: nat, p: nat, i: nat, c: nat)
    requires Run(ss, acts) && k < |ss| && p < |ss[k].held| && i < |ss[k].held[p]|
    requires c < |ss[k].chunks| && ss[k].chunks[c].base == BaseOf(ss[k].held[p][i])
    ensures ListOk(ss[k].chunks)
    ensures IndexOf(ss[k].held[p][i]) < CAPACITY && ss[k].chunks[c].bits[IndexOf(ss[k].held[p][i])]
  {
    var f := ss[k].held[p][i];
    RunInv(ss, acts, k);
    Held(ss[k], p, i);
    var j: nat :| j < CAPACITY && f == Addr(BaseOf(f), j);
    AddrParts(BaseOf(f), j);
  }

  // A 2 MB frame that was cut up and is off the list, because it emptied or because an older
  // chunk emptied, never comes back: it stays cut up, and off the list.
  ghost predicate Lost(s: State, n: nat) {
    n in s.split && !Listed(s.chunks, n)
  }

  lemma LostTake(s: State, t: State, n: nat)
    requires Inv(s) && TakeOneStep(s, t) && t != s && Lost(s, n)
    ensures Lost(t, n)
    ensures forall f :: f in All(t.held) && BaseOf(f) == n ==> f in All(s.held)
  {
    var f: nat :| TakeStep(s.chunks, t.chunks, f) && t == s.(chunks := t.chunks, held := s.held[0 := s.held[0] + [f]]);
    var k: nat, i: nat :| TakenAt(s.chunks, t.chunks, f, k, i);
    AddrParts(s.chunks[k].base, i);
    InHand(s, f);
  }

  lemma LostRelease(s: State, t: State, p: nat, n: nat)
    requires Inv(s) && ReleaseStep(s, t, p) && Lost(s, n)
    ensures Lost(t, n)
    ensures forall f :: f in All(t.held) && BaseOf(f) == n ==> f in All(s.held)
  {
    ReleaseAll(s, p);
    if Listed(t.chunks, n) {
      FreedListed(s.chunks, t.chunks, BaseOf(s.held[p][0]), IndexOf(s.held[p][0]), n);
    }
  }

  lemma FreedListed(cs: seq<Chunk>, ds: seq<Chunk>, base: nat, i: nat, n: nat)
    requires Freed(cs, ds, base, i) && Listed(ds, n)
    ensures Listed(cs, n)
  {
    var l :| 0 <= l < |ds| && ds[l].base == n;
    if Listed(cs, base) {
      var k :| FreedAt(cs, ds, base, i, k);
      var m := if cs[k].useCount == 1 then k + 1 + l else l;
      assert cs[m].base == n;
    }
  }

  lemma LostForOneStep(s: State, a: Action, t: State, n: nat)
    requires Inv(s) && Step(s, a, t) && Lost(s, n)
    ensures Lost(t, n)
    ensures forall f :: f in All(t.held) && BaseOf(f) == n ==> f in All(s.held)
  {
    match a
    case TakeWhole =>
    case TakeToSplit =>
    case Split(m) =>
      InHand(s, Addr(m, 0));
      AddrParts(m, 0);
    case Take =>
      if t != s {
        LostTake(s, t, n);
      }
    case Map(p, j) =>
      MapKeepsAll(s, t, p, j);
    case Release(p) =>
      LostRelease(s, t, p, n);
  }

  lemma {:induction false} LostForever(ss: seq<State>, acts: seq<Action>, i: nat, j: nat, n: nat)
    requires Run(ss, acts) && i <= j < |ss| && Lost(ss[i], n)
    ensures Lost(ss[j], n)
    ensures forall f :: f in All(ss[j].held) && BaseOf(f) == n ==> f in All(ss[i].held)
  {
    if i < j {
      LostForever(ss, acts, i, j - 1, n);
      RunInv(ss, acts, j - 1);
      assert StepAt(ss, acts, j - 1);
      LostForOneStep(ss[j - 1], acts[j - 1], ss[j], n);
    }
  }

  // ---------- when a chunk that is in use falls off the list ----------

  // Somebody holds a 4 KB frame of the 2 MB frame n.
  ghost predicate InUse(s: State, n: nat) {
    exists f :: f in All(s.held) && BaseOf(f) == n
  }

  // A listed chunk that still holds a frame leaves the list.
  ghost predicate LosesHeld(s: State, t: State) {
    exists n: nat :: Listed(s.chunks, n) && !Listed(t.chunks, n) && InUse(t, n)
  }

  // Process p's first page is the last held one of a chunk that is not the newest.
  ghost predicate EmptiesOlder(s: State, p: nat) {
    && 0 < p < |s.held| && s.held[p] != []
    && exists k: nat :: LastOf(s.chunks, k, s.held[p][0]) && k > 0
  }

  ghost predicate LastOf(cs: seq<Chunk>, k: nat, f: nat) {
    k < |cs| && cs[k].base == BaseOf(f) && cs[k].useCount == 1
  }

  lemma ChunkHolds(split: set<nat>, cs: seq<Chunk>, owned: multiset<nat>, k: nat) returns (i: nat)
    requires Agrees(split, cs, owned) && k < |cs|
    ensures i < CAPACITY && Addr(cs[k].base, i) in owned && BaseOf(Addr(cs[k].base, i)) == cs[k].base
  {
    CountBounds(cs[k].bits);
    i :| i < CAPACITY && cs[k].bits[i];
    AddrParts(cs[k].base, i);
  }

  lemma OneBit(bits: seq<bool>, i: nat, j: nat)
    requires i < |bits| && j < |bits| && bits[i] && bits[j] && Count(bits) == 1
    ensures i == j
  {
    CountUpdate(bits, i, false);
    CountBounds(bits[i := false]);
    assert bits[i := false][j] == (i != j);
  }

  // With its last frame given back, a chunk holds nothing.
  lemma EmptiedHoldsNothing(split: set<nat>, cs: seq<Chunk>, owned: multiset<nat>, k: nat, f: nat, g: nat)
    requires Agrees(split, cs, owned) && LastOf(cs, k, f) && f in owned
    requires g in owned && BaseOf(g) == BaseOf(f)
    ensures g == f
  {
    var i: nat :| i < CAPACITY && f == Addr(BaseOf(f), i);
    var j: nat :| j < CAPACITY && g == Addr(BaseOf(g), j);
    OneBit(cs[k].bits, i, j);
  }

  // Unless the chunk empties, freeing keeps every chunk listed; if it does, those behind stay.
  lemma FreedKeepsListed(cs: seq<Chunk>, ds: seq<Chunk>, base: nat, i: nat, l: nat)
    requires ListOk(cs) && Freed(cs, ds, base, i) && l < |cs|
    ensures Listed(ds, cs[l].base) <==> !exists k: nat :: l <= k < |cs| && cs[k].base == base && cs[k].useCount == 1
  {
    if Listed(cs, base) {
      var k :| FreedAt(cs, ds, base, i, k);
      if cs[k].useCount == 1 {
        if l > k { assert ds[l - k - 1].base == cs[l].base; }
      } else {
        assert ds[l].base == cs[l].base;
      }
    }
  }

  lemma FreedLoses(cs: seq<Chunk>, ds: seq<Chunk>, f: nat, n: nat) returns (k: nat)
    requires ListOk(cs) && Freed(cs, ds, BaseOf(f), IndexOf(f)) && Listed(cs, n) && !Listed(ds, n)
    ensures LastOf(cs, k, f) && (k == 0 ==> n == BaseOf(f))
  {
    var l :| 0 <= l < |cs| && cs[l].base == n;
    FreedKeepsListed(cs, ds, BaseOf(f), IndexOf(f), l);
    k :| l <= k < |cs| && cs[k].base == BaseOf(f) && cs[k].useCount == 1;
  }

  lemma EmptyingOlderLoses(s: State, t: State, p: nat)
    requires Inv(s) && ReleaseStep(s, t, p) && EmptiesOlder(s, p)
    ensures LosesHeld(s, t)
  {
    var f := s.held[p][0];
    ReleaseAll(s, p);
    var k: nat :| LastOf(s.chunks, k, f) && k > 0;
    var i := ChunkHolds(s.split, s.chunks, All(s.held), 0);
    FreedKeepsListed(s.chunks, t.chunks, BaseOf(f), IndexOf(f), 0);
    assert Addr(s.chunks[0].base, i) in All(t.held) && Listed(s.chunks, s.chunks[0].base);
  }

  lemma EmptiedElsewhere(s: State, t: State, p: nat, k: nat, g: nat)
    requires Inv(s) && ReleaseStep(s, t, p) && LastOf(s.chunks, k, s.held[p][0]) && g in All(t.held)
    ensures BaseOf(g) != BaseOf(s.held[p][0])
  {
    ReleaseAll(s, p);
    if BaseOf(g) == BaseOf(s.held[p][0]) {
      EmptiedHoldsNothing(s.split, s.chunks, All(s.held), k, s.held[p][0], g);
    }
  }

  lemma LosingEmptiesOlder(s: State, t: State, p: nat)
    requires Inv(s) && ReleaseStep(s, t, p) && LosesHeld(s, t)
    ensures EmptiesOlder(s, p)
  {
    var f := s.held[p][0];
    var n: nat :| Listed(s.chunks, n) && !Listed(t.chunks, n) && InUse(t, n);
    var g :| g in All(t.held) && BaseOf(g) == n;
    var k := FreedLoses(s.chunks, t.chunks, f, n);
    EmptiedElsewhere(s, t, p, k, g);
  }

  // No other step takes a chunk off the list.
  lemma OthersKeepListed(s: State, a: Action, t: State, n: nat)
    requires Step(s, a, t) && !a.Release? && Listed(s.chunks, n)
    ensures Listed(t.chunks, n)
  {
    var l :| 0 <= l < |s.chunks| && s.chunks[l].base == n;
    if a.Split? {
      assert t.chunks[l + 1].base == n;
    } else if a.Take? && t != s {
      TakeKeepsBase(s, t, l);
    }
  }

  lemma TakeKeepsBase(s: State, t: State, l: nat)
    requires TakeOneStep(s, t) && t != s && l < |s.chunks|
    ensures Listed(t.chunks, s.chunks[l].base)
  {
    var f: nat :| TakeStep(s.chunks, t.chunks, f);
    var k: nat, i: nat :| TakenAt(s.chunks, t.chunks, f, k, i);
    assert t.chunks[l].base == s.chunks[l].base;
  }

  // In every run, a step makes a chunk in use fall off the list if and only if it gives back
  // the last held frame of a chunk that is not the newest.
  lemma HeldChunkLostIff(ss: seq<State>, acts: seq<Action>, j: nat)
    requires Run(ss, acts) && j < |acts|
    ensures LosesHeld(ss[j], ss[j + 1]) <==> acts[j].Release? && EmptiesOlder(ss[j], acts[j].p)
  {
    RunInv(ss, acts, j);
    assert StepAt(ss, acts, j);
    if acts[j].Release? {
      var p := acts[j].p;
      if EmptiesOlder(ss[j], p) { EmptyingOlderLoses(ss[j], ss[j + 1], p); }
      if LosesHeld(ss[j], ss[j + 1]) { LosingEmptiesOlder(ss[j], ss[j + 1], p); }
    } else if n: nat :| Listed(ss[j].chunks, n) && !Listed(ss[j + 1].chunks, n) && InUse(ss[j + 1], n) {
      OthersKeepListed(ss[j], acts[j], ss[j + 1], n);
    }
  }

  // It does happen, for instance like this: two CPUs that find no chunk each push one, and the
  // older one empties while process 2 holds the newer one's frame. (One CPU that fills a chunk
  // and pushes the next will do as well: HeldChunkLostIff asks for no more.)
  lemma HeldChunkCanBeLost() returns (ss: seq<State>, acts: seq<Action>)
    ensures Run(ss, acts)
    ensures var last := ss[|ss| - 1];
      |last.held| == 3 && last.held[2] == [Addr(513, 0)] && Lost(last, 513) && last.chunks == []
  {
    var s0, s1, s2, s3, s4 := TwoChunks();
    var s5 := AfterMap(s4, 1, 0);
    var s6 := AfterMap(s5, 2, 0);
    assert s6.held[1] == [Addr(512, 0)] && s6.held[2] == [Addr(513, 0)];
    var s7 := s6.(chunks := [], held := s6.held[1 := s6.held[1][1..]]);
    assert ReleaseStep(s6, s7, 1) by { OlderChunkEmpties(513, 512); }
    ss := [s0, s1, s2, s3, s4, s5, s6, s7];
    acts := [TakeToSplit, TakeToSplit, Split(512), Split(513), Map(1, 0), Map(2, 0), Release(1)];
  }

  lemma TwoChunks() returns (s0: State, s1: State, s2: State, s3: State, s4: State)
    ensures Init(s0) && TakeToSplitStep(s0, s1) && TakeToSplitStep(s1, s2) && SplitStep(s2, s3, 512) && SplitStep(s3, s4, 513)
    ensures |s4.held| == 3 && s4.held[0] == [Addr(512, 0), Addr(513, 0)] && s4.held[1] == [] && s4.held[2] == []
    ensures s4.chunks == [NewChunk(513), NewChunk(512)] && 513 in s4.split
  {
    s0 := State({512, 513}, {}, {}, {}, [], [[], [], []]);
    s1 := s0.(free := s0.free - {512}, pending := s0.pending + {512});
    s2 := s1.(free := s1.free - {513}, pending := s1.pending + {513});
    assert s0.free - {512} == {513};
    assert LowestFree(s0, 512) && LowestFree(s1, 513);
    s3 := AfterSplit(s2, 512);
    s4 := AfterSplit(s3, 513);
  }

  lemma OlderChunkEmpties(newer: nat, older: nat)
    requires newer != older
    ensures Freed([NewChunk(newer), NewChunk(older)], [], BaseOf(Addr(older, 0)), IndexOf(Addr(older, 0)))
  {
    var cs := [NewChunk(newer), NewChunk(older)];
    AddrParts(older, 0);
    assert Listed(cs, older) by { assert cs[1].base == older; }
    assert FreedAt(cs, [], older, 0, 1);
  }
}
