/**
A process's four-level page tables (Intel SDM volume 3A, section 4.5): uva_copy_kernel,
map_4kb_page_user and virtual_to_physical.  An entry is a table or frame address plus
flag bits in its low twelve bits.
*/
module PageTables {
  import opened Common

  const USER_FLAGS: nat := 7          // present, writable, user
  const KERNEL_FLAGS: nat := 3        // present, writable
  const HUGE_FLAGS: nat := 0x83       // present, writable, huge

  // struct thread_pagetables_t, at physical address base.
  datatype PgDir = PgDir(base: nat, pml4t: seq<nat>, pdpt: seq<nat>, pdt: seq<seq<nat>>, pd: seq<seq<nat>>)

  // A proc_used_page_entry.  page_va is kept as its four table indices (PageAddress
  // below turns them back); a is pdt_table_index and b is pd_table_index.
  datatype Slot = Slot(i4: nat, i3: nat, i2: nat, i1: nat, pa: nat, a: nat, b: nat)

  function P4(va: nat): (i: nat) ensures i < 512 { (va / 0x80_0000_0000) % 512 }
  function P3(va: nat): (i: nat) ensures i < 512 { (va / 0x4000_0000) % 512 }
  function P2(va: nat): (i: nat) ensures i < 512 { (va / 0x20_0000) % 512 }
  function P1(va: nat): (i: nat) ensures i < 512 { (va / 4096) % 512 }

  function SlotOf(va: nat, pa: nat, a: nat, b: nat): Slot { Slot(P4(va), P3(va), P2(va), P1(va), pa, a, b) }

  function PageAddress(s: Slot): nat { (((s.i4 * 512 + s.i3) * 512 + s.i2) * 512 + s.i1) * PGSIZE }

  lemma PageNumber(va: nat)
    ensures va / 0x20_0000 == (va / 4096) / 512
    ensures va / 0x4000_0000 == (va / 4096) / 0x4_0000
    ensures va / 0x80_0000_0000 == (va / 4096) / 0x800_0000
  {
  }

  // The indices stand for the page: they give back its address, up to the bits above 48
  // that no table sees.
  lemma IndicesArePage(va: nat, pa: nat, a: nat, b: nat)
    ensures PageAddress(SlotOf(va, pa, a, b)) == (va - va % PGSIZE) % 0x1_0000_0000_0000
  {
    PageNumber(va);
    var q := va / 4096;
    var q2, q3, q4 := q / 512, q / 0x4_0000, q / 0x800_0000;
    assert q3 == q2 / 512 && q4 == q3 / 512;
    assert q == 512 * q2 + q % 512 && q2 == 512 * q3 + q2 % 512 && q3 == 512 * q4 + q3 % 512 && q4 == 512 * (q4 / 512) + q4 % 512;
    assert va - va % 4096 == 4096 * q;
    assert 4096 * q == PageAddress(SlotOf(va, pa, a, b)) + 0x1_0000_0000_0000 * (q4 / 512);
    assert PageAddress(SlotOf(va, pa, a, b)) < 0x1_0000_0000_0000;
  }

  function PdptAt(base: nat): nat { base + 0x1000 }
  function PdtAt(base: nat, i: nat): nat { base + 0x2000 + i * 4096 }
  function PdAt(base: nat, i: nat): nat { base + 0x20_2000 + i * 4096 }

  function AddressOf(e: nat): nat { e - e % 4096 }
  predicate Present(e: nat) { e % 2 == 1 }
  predicate Huge(e: nat) { (e / 128) % 2 == 1 }

  predicate Table(t: seq<nat>) { |t| == 512 }

  predicate WellFormed(d: PgDir) {
    && d.base % 4096 == 0
    && Table(d.pml4t) && Table(d.pdpt) && |d.pdt| == 512 && |d.pd| == 512
    && (forall i :: 0 <= i < 512 ==> Table(d.pdt[i]))
    && (forall i :: 0 <= i < 512 ==> Table(d.pd[i]))
  }

  function Set(t: seq<nat>, i: nat, e: nat): seq<nat> requires i < |t| { t[i := e] }

  function Zeros(): (t: seq<nat>)
    ensures Table(t) && forall i :: 0 <= i < 512 ==> t[i] == 0
  {
    seq(512, i => 0)
  }

  // memset and uva_copy_kernel: the last gigabyte maps the first physical gigabyte.
  function Fresh(base: nat): (d: PgDir)
    requires base % 4096 == 0
    ensures WellFormed(d)
  {
    PgDir(base, Zeros()[511 := PdptAt(base) + KERNEL_FLAGS], Zeros()[510 := PdtAt(base, 0) + KERNEL_FLAGS],
          seq(512, i => if i == 0 then seq(512, j requires 0 <= j < 512 => j * HUGEPGSIZE + HUGE_FLAGS) else Zeros()),
          seq(512, i => Zeros()))
  }

  // Table 0 of the pdt tables is the kernel's; frame 0 is never handed out.
  predicate Legal(s: Slot) {
    s.i4 < 512 && s.i3 < 512 && s.i2 < 512 && s.i1 < 512 && 0 < s.a < 512 && s.b < 512 && s.pa % 4096 == 0 && s.pa > 0
  }

  predicate AllLegal(used: seq<Slot>) { forall k :: 0 <= k < |used| ==> Legal(used[k]) }

  // The panics "pdt" and "pd" of map_4kb_page_user.
  predicate Panics(d: PgDir, s: Slot)
    requires WellFormed(d) && Legal(s)
  {
    var e := d.pdt[s.a][s.i2];
    (AddressOf(e) != 0 && AddressOf(e) != PdAt(d.base, s.b)) || Present(d.pd[s.b][s.i1])
  }

  function Mapped(d: PgDir, s: Slot): (r: PgDir)
    requires WellFormed(d) && Legal(s)
    ensures WellFormed(r) && r.base == d.base
  {
    PgDir(d.base,
          d.pml4t[s.i4 := PdptAt(d.base) + USER_FLAGS],
          d.pdpt[s.i3 := PdtAt(d.base, s.a) + USER_FLAGS],
          d.pdt[s.a := Set(d.pdt[s.a], s.i2, PdAt(d.base, s.b) + USER_FLAGS)],
          d.pd[s.b := Set(d.pd[s.b], s.i1, s.pa + USER_FLAGS)])
  }

  // The table at a physical address inside the structure.
  function TableAt(d: PgDir, p: nat): (t: Option<seq<nat>>)
    requires WellFormed(d)
    ensures t.Some? ==> Table(t.value)
  {
    if p == PdptAt(d.base) then Some(d.pdpt)
    else if PdtAt(d.base, 0) <= p < PdtAt(d.base, 512) then Some(d.pdt[(p - PdtAt(d.base, 0)) / 4096])
    else if PdAt(d.base, 0) <= p < PdAt(d.base, 512) then Some(d.pd[(p - PdAt(d.base, 0)) / 4096])
    else None
  }

  // What the tables hold for a choice of indices.
  datatype Leaf = Unmapped | Small(frame: nat) | Large(frame: nat)

  function Leaf1(d: PgDir, e: nat, i1: nat): Leaf
    requires WellFormed(d) && i1 < 512
  {
    if e == 0 then Unmapped
    else if Huge(e) then Large(AddressOf(e))
    else
      var t := TableAt(d, AddressOf(e));
      if t == None || AddressOf(t.value[i1]) == 0 then Unmapped else Small(AddressOf(t.value[i1]))
  }

  function Leaf2(d: PgDir, e: nat, i2: nat, i1: nat): Leaf
    requires WellFormed(d) && i2 < 512 && i1 < 512
  {
    var t := TableAt(d, AddressOf(e));
    if t == None then Unmapped else Leaf1(d, t.value[i2], i1)
  }

  function LeafAt(d: PgDir, i4: nat, i3: nat, i2: nat, i1: nat): Leaf
    requires WellFormed(d) && i4 < 512 && i3 < 512 && i2 < 512 && i1 < 512
  {
    var t := TableAt(d, AddressOf(d.pml4t[i4]));
    if t == None then Unmapped else Leaf2(d, t.value[i3], i2, i1)
  }

  // virtual_to_physical, frame and offset added; None when an entry on the way is empty.
  function Walk(d: PgDir, va: nat): Option<nat>
    requires WellFormed(d)
  {
    match LeafAt(d, P4(va), P3(va), P2(va), P1(va))
    case Unmapped => None
    case Small(f) => Some(f + va % PGSIZE)
    case Large(f) => Some(f + va % HUGEPGSIZE)
  }

  // ---------- entries ----------

  lemma EntryAddress(p: nat, flags: nat)
    requires p % 4096 == 0 && flags < 4096
    ensures AddressOf(p + flags) == p
  {
  }

  lemma PdtEntry(d: PgDir, i: nat, flags: nat)
    requires WellFormed(d) && i < 512 && flags < 4096
    ensures TableAt(d, AddressOf(PdtAt(d.base, i) + flags)) == Some(d.pdt[i])
  {
    EntryAddress(PdtAt(d.base, i), flags);
  }

  lemma PdEntry(d: PgDir, i: nat, flags: nat)
    requires WellFormed(d) && i < 512 && flags < 4096
    ensures TableAt(d, AddressOf(PdAt(d.base, i) + flags)) == Some(d.pd[i])
  {
    EntryAddress(PdAt(d.base, i), flags);
  }

  lemma TableEntries(d: PgDir, i: nat, flags: nat)
    requires WellFormed(d) && i < 512 && flags < 4096
    ensures TableAt(d, AddressOf(PdptAt(d.base) + flags)) == Some(d.pdpt)
    ensures TableAt(d, AddressOf(PdtAt(d.base, i) + flags)) == Some(d.pdt[i])
    ensures TableAt(d, AddressOf(PdAt(d.base, i) + flags)) == Some(d.pd[i])
  {
    EntryAddress(PdptAt(d.base), flags);
    PdtEntry(d, i, flags);
    PdEntry(d, i, flags);
  }

  lemma UserEntryNotHuge(p: nat)
    requires p % 4096 == 0
    ensures !Huge(p + USER_FLAGS) && Present(p + USER_FLAGS) && AddressOf(p + USER_FLAGS) == p
  {
  }

  // ---------- which requests agree ----------

  // The second of two such mappings does not panic.
  predicate Compatible(s: Slot, r: Slot) {
    && (s.a == r.a && s.i2 == r.i2 ==> s.b == r.b)
    && !(s.b == r.b && s.i1 == r.i1)
  }

  predicate AllCompatible(used: seq<Slot>) {
    forall i, j :: 0 <= i < j < |used| ==> Compatible(used[i], used[j])
  }

  // Equal pdpt indices always use the same pdt table, and never the kernel's slot.
  predicate SamePdt(used: seq<Slot>) {
    && (forall i, j :: 0 <= i < |used| && 0 <= j < |used| && used[i].i3 == used[j].i3 ==> used[i].a == used[j].a)
    && (forall i :: 0 <= i < |used| ==> used[i].i3 != 510)
  }

  // The tables after mapping `used`, most recent first; None if some mapping panicked.
  function Built(base: nat, used: seq<Slot>): (r: Option<PgDir>)
    requires base % 4096 == 0 && AllLegal(used)
    ensures r.Some? ==> WellFormed(r.value) && r.value.base == base
  {
    if used == [] then Some(Fresh(base))
    else
      var r := Built(base, used[1..]);
      if r == None || Panics(r.value, used[0]) then None else Some(Mapped(r.value, used[0]))
  }

  // ---------- what the tables contain ----------

  predicate UsesPdt(used: seq<Slot>, x: nat, i: nat) { exists k :: 0 <= k < |used| && used[k].a == x && used[k].i2 == i }
  predicate UsesPd(used: seq<Slot>, x: nat, i: nat) { exists k :: 0 <= k < |used| && used[k].b == x && used[k].i1 == i }
  predicate UsesPdpt(used: seq<Slot>, i: nat) { exists k :: 0 <= k < |used| && used[k].i3 == i }
  predicate UsesPml4(used: seq<Slot>, i: nat) { exists k :: 0 <= k < |used| && used[k].i4 == i }

  // The lower levels hold the recorded mappings,
  predicate PdtHas(d: PgDir, used: seq<Slot>)
    requires WellFormed(d) && AllLegal(used)
  {
    forall k :: 0 <= k < |used| ==> d.pdt[used[k].a][used[k].i2] == PdAt(d.base, used[k].b) + USER_FLAGS
  }

  predicate PdHas(d: PgDir, used: seq<Slot>)
    requires WellFormed(d) && AllLegal(used)
  {
    forall k :: 0 <= k < |used| ==> d.pd[used[k].b][used[k].i1] == used[k].pa + USER_FLAGS
  }

  // and besides them only the kernel's.
  predicate PdtOnly(d: PgDir, used: seq<Slot>)
    requires WellFormed(d)
  {
    && (forall x, i :: 0 < x < 512 && 0 <= i < 512 && !UsesPdt(used, x, i) ==> d.pdt[x][i] == 0)
    && (forall i :: 0 <= i < 512 ==> d.pdt[0][i] == i * HUGEPGSIZE + HUGE_FLAGS)
  }

  predicate PdOnly(d: PgDir, used: seq<Slot>)
    requires WellFormed(d)
  {
    forall x, i :: 0 <= x < 512 && 0 <= i < 512 && !UsesPd(used, x, i) ==> d.pd[x][i] == 0
  }

  // The same of the upper levels.
  predicate PdptHas(d: PgDir, used: seq<Slot>)
    requires WellFormed(d) && AllLegal(used)
  {
    && (forall k :: 0 <= k < |used| ==> d.pdpt[used[k].i3] == PdtAt(d.base, used[k].a) + USER_FLAGS)
    && d.pdpt[510] == PdtAt(d.base, 0) + KERNEL_FLAGS
  }

  predicate PdptOnly(d: PgDir, used: seq<Slot>)
    requires WellFormed(d)
  {
    forall i :: 0 <= i < 512 && i != 510 && !UsesPdpt(used, i) ==> d.pdpt[i] == 0
  }

  predicate Pml4Holds(d: PgDir, used: seq<Slot>)
    requires WellFormed(d)
  {
    forall i :: 0 <= i < 512 ==>
      d.pml4t[i] == if UsesPml4(used, i) then PdptAt(d.base) + USER_FLAGS
                    else if i == 511 then PdptAt(d.base) + KERNEL_FLAGS else 0
  }

  predicate PdtHolds(d: PgDir, used: seq<Slot>)
    requires WellFormed(d) && AllLegal(used)
  {
    PdtHas(d, used) && PdtOnly(d, used)
  }

  predicate PdHolds(d: PgDir, used: seq<Slot>)
    requires WellFormed(d) && AllLegal(used)
  {
    PdHas(d, used) && PdOnly(d, used)
  }

  predicate UpperHold(d: PgDir, used: seq<Slot>)
    requires WellFormed(d) && AllLegal(used)
  {
    PdptHas(d, used) && PdptOnly(d, used) && Pml4Holds(d, used)
  }

  lemma FreshHolds(base: nat)
    requires base % 4096 == 0
    ensures PdtHolds(Fresh(base), []) && PdHolds(Fresh(base), []) && UpperHold(Fresh(base), [])
  {
  }

  lemma ConsUses(s: Slot, used: seq<Slot>, x: nat, i: nat)
    ensures UsesPdt([s] + used, x, i) <==> UsesPdt(used, x, i) || (s.a == x && s.i2 == i)
    ensures UsesPd([s] + used, x, i) <==> UsesPd(used, x, i) || (s.b == x && s.i1 == i)
    ensures UsesPdpt([s] + used, i) <==> UsesPdpt(used, i) || s.i3 == i
    ensures UsesPml4([s] + used, i) <==> UsesPml4(used, i) || s.i4 == i
  {
    var l := [s] + used;
    assert l[0] == s && forall k :: 0 <= k < |used| ==> l[k + 1] == used[k];
  }

  lemma MappedPdt(d: PgDir, used: seq<Slot>, s: Slot)
    requires WellFormed(d) && AllLegal(used) && Legal(s) && PdtHolds(d, used)
    requires forall k :: 0 <= k < |used| ==> Compatible(s, used[k])
    ensures AllLegal([s] + used) && PdtHolds(Mapped(d, s), [s] + used)
  {
    var l := [s] + used;
    forall x, i | 0 < x < 512 && 0 <= i < 512 && !UsesPdt(l, x, i) ensures Mapped(d, s).pdt[x][i] == 0 {
      ConsUses(s, used, x, i);
    }
  }

  lemma MappedPd(d: PgDir, used: seq<Slot>, s: Slot)
    requires WellFormed(d) && AllLegal(used) && Legal(s) && PdHolds(d, used)
    requires forall k :: 0 <= k < |used| ==> Compatible(s, used[k])
    ensures AllLegal([s] + used) && PdHolds(Mapped(d, s), [s] + used)
  {
    var l := [s] + used;
    forall x, i | 0 <= x < 512 && 0 <= i < 512 && !UsesPd(l, x, i) ensures Mapped(d, s).pd[x][i] == 0 {
      ConsUses(s, used, x, i);
    }
  }

  lemma MappedUpper(d: PgDir, used: seq<Slot>, s: Slot)
    requires WellFormed(d) && AllLegal(used) && Legal(s) && UpperHold(d, used) && s.i3 != 510
    requires forall k :: 0 <= k < |used| && used[k].i3 == s.i3 ==> used[k].a == s.a
    ensures AllLegal([s] + used) && UpperHold(Mapped(d, s), [s] + used)
  {
    var l := [s] + used;
    forall i | 0 <= i < 512 ensures UsesPml4(l, i) <==> UsesPml4(used, i) || s.i4 == i
      ensures UsesPdpt(l, i) <==> UsesPdpt(used, i) || s.i3 == i
    {
      ConsUses(s, used, 0, i);
    }
  }

  // A mapping panics exactly when it disagrees with some recorded one.
  lemma PanicsExactly(d: PgDir, used: seq<Slot>, s: Slot)
    requires WellFormed(d) && AllLegal(used) && Legal(s) && PdtHolds(d, used) && PdHolds(d, used)
    ensures Panics(d, s) <==> exists k :: 0 <= k < |used| && !Compatible(s, used[k])
  {
    PdtDecides(d, used, s);
    PdDecides(d, used, s);
    if k :| 0 <= k < |used| && s.a == used[k].a && s.i2 == used[k].i2 && s.b != used[k].b { assert !Compatible(s, used[k]); }
    if k :| 0 <= k < |used| && s.b == used[k].b && s.i1 == used[k].i1 { assert !Compatible(s, used[k]); }
  }

  lemma PdtDecides(d: PgDir, used: seq<Slot>, s: Slot)
    requires WellFormed(d) && AllLegal(used) && Legal(s) && PdtHolds(d, used)
    ensures AddressOf(d.pdt[s.a][s.i2]) != 0 && AddressOf(d.pdt[s.a][s.i2]) != PdAt(d.base, s.b) <==>
            exists k :: 0 <= k < |used| && s.a == used[k].a && s.i2 == used[k].i2 && s.b != used[k].b
  {
    if UsesPdt(used, s.a, s.i2) {
      var k :| 0 <= k < |used| && used[k].a == s.a && used[k].i2 == s.i2;
      EntryAddress(PdAt(d.base, used[k].b), USER_FLAGS);
      forall j | 0 <= j < |used| && used[j].a == s.a && used[j].i2 == s.i2 ensures used[j].b == used[k].b { }
    }
  }

  lemma PdDecides(d: PgDir, used: seq<Slot>, s: Slot)
    requires WellFormed(d) && AllLegal(used) && Legal(s) && PdHolds(d, used)
    ensures Present(d.pd[s.b][s.i1]) <==> UsesPd(used, s.b, s.i1)
  {
    if UsesPd(used, s.b, s.i1) {
      var k :| 0 <= k < |used| && used[k].b == s.b && used[k].i1 == s.i1;
      UserEntryNotHuge(used[k].pa);
    }
  }

  // ---------- mapping a whole list ----------

  predicate Holds(d: PgDir, used: seq<Slot>)
    requires WellFormed(d) && AllLegal(used)
  {
    PdtHolds(d, used) && PdHolds(d, used) && UpperHold(d, used)
  }

  // Mapping a list of pages panics exactly when two of them disagree, in whatever order
  // they are mapped.
  lemma {:induction false} BuiltIff(base: nat, used: seq<Slot>)
    requires base % 4096 == 0 && AllLegal(used)
    ensures Built(base, used).Some? <==> AllCompatible(used)
    ensures Built(base, used).Some? ==> PdtHolds(Built(base, used).value, used) && PdHolds(Built(base, used).value, used)
  {
    if used == [] {
      FreshHolds(base);
    } else {
      var s, rest := used[0], used[1..];
      assert used == [s] + rest;
      BuiltIff(base, rest);
      ConsCompatible(s, rest);
      if Built(base, rest).Some? {
        var d := Built(base, rest).value;
        PanicsExactly(d, rest, s);
        if !Panics(d, s) {
          MappedPdt(d, rest, s);
          MappedPd(d, rest, s);
        }
      }
    }
  }

  lemma ConsCompatible(s: Slot, rest: seq<Slot>)
    ensures AllCompatible([s] + rest) <==> AllCompatible(rest) && forall k :: 0 <= k < |rest| ==> Compatible(s, rest[k])
  {
    var l := [s] + rest;
    if AllCompatible(l) {
      forall i, j | 0 <= i < j < |rest| ensures Compatible(rest[i], rest[j]) { assert Compatible(l[i + 1], l[j + 1]); }
      forall k | 0 <= k < |rest| ensures Compatible(s, rest[k]) { assert Compatible(l[0], l[k + 1]); }
    }
  }

  lemma {:induction false} BuiltUpper(base: nat, used: seq<Slot>)
    requires base % 4096 == 0 && AllLegal(used) && SamePdt(used) && Built(base, used).Some?
    ensures UpperHold(Built(base, used).value, used)
  {
    if used == [] {
      FreshHolds(base);
    } else {
      assert used == [used[0]] + used[1..];
      BuiltUpper(base, used[1..]);
      MappedUpper(Built(base, used[1..]).value, used[1..], used[0]);
    }
  }

  // ---------- translation ----------

  // Page k is what the tables lead to from these indices.
  predicate Reaches(used: seq<Slot>, i3: nat, i2: nat, i1: nat, k: nat) {
    k < |used| && used[k].i1 == i1 &&
    exists m, n :: 0 <= m < |used| && 0 <= n < |used| && used[m].i3 == i3 && used[n].a == used[m].a
                   && used[n].i2 == i2 && used[k].b == used[n].b
  }

  predicate TopMapped(used: seq<Slot>, i4: nat) { i4 == 511 || UsesPml4(used, i4) }

  lemma TopLevel(d: PgDir, used: seq<Slot>, i4: nat, i3: nat, i2: nat, i1: nat)
    requires WellFormed(d) && Pml4Holds(d, used) && i4 < 512 && i3 < 512 && i2 < 512 && i1 < 512
    ensures LeafAt(d, i4, i3, i2, i1) == if TopMapped(used, i4) then Leaf2(d, d.pdpt[i3], i2, i1) else Unmapped
  {
    TableEntries(d, 0, USER_FLAGS);
    TableEntries(d, 0, KERNEL_FLAGS);
  }

  lemma PdptLevel(d: PgDir, a: nat, flags: nat, i2: nat, i1: nat)
    requires WellFormed(d) && a < 512 && flags < 4096 && i2 < 512 && i1 < 512
    ensures Leaf2(d, PdtAt(d.base, a) + flags, i2, i1) == Leaf1(d, d.pdt[a][i2], i1)
  {
    TableEntries(d, a, flags);
  }

  lemma PdtLevel(d: PgDir, b: nat, i1: nat)
    requires WellFormed(d) && b < 512 && i1 < 512
    ensures Leaf1(d, PdAt(d.base, b) + USER_FLAGS, i1) ==
            if AddressOf(d.pd[b][i1]) == 0 then Unmapped else Small(AddressOf(d.pd[b][i1]))
  {
    TableEntries(d, b, USER_FLAGS);
    UserEntryNotHuge(PdAt(d.base, b));
  }

  lemma PdLevel(d: PgDir, used: seq<Slot>, b: nat, i1: nat, k: nat)
    requires WellFormed(d) && AllLegal(used) && PdHas(d, used) && k < |used| && used[k].b == b && used[k].i1 == i1
    ensures Leaf1(d, PdAt(d.base, b) + USER_FLAGS, i1) == Small(used[k].pa)
  {
    UserEntryNotHuge(used[k].pa);
    PdtLevel(d, b, i1);
  }

  // Below the top level, every page that the indices reach is the one they lead to.
  lemma ReachedBelow(d: PgDir, used: seq<Slot>, i3: nat, i2: nat, i1: nat, k: nat)
    requires WellFormed(d) && AllLegal(used) && PdptHas(d, used) && PdtHas(d, used) && PdHas(d, used)
    requires i3 < 512 && i2 < 512 && i1 < 512 && Reaches(used, i3, i2, i1, k)
    ensures Leaf2(d, d.pdpt[i3], i2, i1) == Small(used[k].pa)
  {
    var m, n :| 0 <= m < |used| && 0 <= n < |used| && used[m].i3 == i3 && used[n].a == used[m].a
                && used[n].i2 == i2 && used[k].b == used[n].b;
    PdptLevel(d, used[m].a, USER_FLAGS, i2, i1);
    PdLevel(d, used, used[n].b, i1, k);
  }

  lemma UnreachedPd(d: PgDir, used: seq<Slot>, i3: nat, i2: nat, i1: nat, m: nat, n: nat)
    requires WellFormed(d) && PdOnly(d, used)
    requires m < |used| && n < |used| && used[m].i3 == i3 && used[n].a == used[m].a && used[n].i2 == i2
    requires i1 < 512 && used[n].b < 512
    requires forall k :: 0 <= k < |used| ==> !Reaches(used, i3, i2, i1, k)
    ensures Leaf1(d, PdAt(d.base, used[n].b) + USER_FLAGS, i1) == Unmapped
  {
    PdtLevel(d, used[n].b, i1);
    if UsesPd(used, used[n].b, i1) {
      var k :| 0 <= k < |used| && used[k].b == used[n].b && used[k].i1 == i1;
      assert Reaches(used, i3, i2, i1, k);
    }
  }

  lemma UnreachedPdt(d: PgDir, used: seq<Slot>, i3: nat, i2: nat, i1: nat, m: nat)
    requires WellFormed(d) && AllLegal(used) && PdtHas(d, used) && PdtOnly(d, used) && PdOnly(d, used)
    requires m < |used| && used[m].i3 == i3 && i2 < 512 && i1 < 512
    requires forall k :: 0 <= k < |used| ==> !Reaches(used, i3, i2, i1, k)
    ensures Leaf1(d, d.pdt[used[m].a][i2], i1) == Unmapped
  {
    if UsesPdt(used, used[m].a, i2) {
      var n :| 0 <= n < |used| && used[n].a == used[m].a && used[n].i2 == i2;
      UnreachedPd(d, used, i3, i2, i1, m, n);
    }
  }

  // A pdpt entry that no page uses is empty and leads nowhere.
  lemma UnusedPdpt(d: PgDir, used: seq<Slot>, i3: nat, i2: nat, i1: nat)
    requires WellFormed(d) && PdptOnly(d, used)
    requires i3 < 512 && i2 < 512 && i1 < 512 && i3 != 510 && !UsesPdpt(used, i3)
    ensures Leaf2(d, d.pdpt[i3], i2, i1) == Unmapped
  {
    assert d.pdpt[i3] == 0;
    NoTableAtZero(d);
  }

  // An entry that a page uses leads to that page's pdt table.
  lemma UsedPdpt(d: PgDir, used: seq<Slot>, m: nat, i2: nat, i1: nat)
    requires WellFormed(d) && AllLegal(used) && PdptHas(d, used) && m < |used| && i2 < 512 && i1 < 512
    ensures Leaf2(d, d.pdpt[used[m].i3], i2, i1) == Leaf1(d, d.pdt[used[m].a][i2], i1)
  {
    PdptLevel(d, used[m].a, USER_FLAGS, i2, i1);
  }

  lemma NoTableAtZero(d: PgDir)
    requires WellFormed(d)
    ensures TableAt(d, 0) == None && AddressOf(0) == 0
  {
  }

  lemma UnreachedBelow(d: PgDir, used: seq<Slot>, i3: nat, i2: nat, i1: nat)
    requires WellFormed(d) && AllLegal(used) && PdptHas(d, used) && PdptOnly(d, used)
    requires PdtHas(d, used) && PdtOnly(d, used) && PdOnly(d, used)
    requires i3 < 512 && i2 < 512 && i1 < 512 && i3 != 510
    requires forall k :: 0 <= k < |used| ==> !Reaches(used, i3, i2, i1, k)
    ensures Leaf2(d, d.pdpt[i3], i2, i1) == Unmapped
  {
    if UsesPdpt(used, i3) {
      var m :| 0 <= m < |used| && used[m].i3 == i3;
      UsedPdpt(d, used, m, i2, i1);
      UnreachedPdt(d, used, i3, i2, i1, m);
    } else {
      UnusedPdpt(d, used, i3, i2, i1);
    }
  }

  // Indices translate to every page that they reach,
  lemma ReachedLeaf(d: PgDir, used: seq<Slot>, i4: nat, i3: nat, i2: nat, i1: nat, k: nat)
    requires WellFormed(d) && AllLegal(used) && Holds(d, used)
    requires i4 < 512 && i3 < 512 && i2 < 512 && i1 < 512 && TopMapped(used, i4) && Reaches(used, i3, i2, i1, k)
    ensures LeafAt(d, i4, i3, i2, i1) == Small(used[k].pa)
  {
    TopLevel(d, used, i4, i3, i2, i1);
    ReachedBelow(d, used, i3, i2, i1, k);
  }

  // to nothing, outside the kernel's slot, when they reach none,
  lemma UnreachedLeaf(d: PgDir, used: seq<Slot>, i4: nat, i3: nat, i2: nat, i1: nat)
    requires WellFormed(d) && AllLegal(used) && Holds(d, used)
    requires i4 < 512 && i3 < 512 && i2 < 512 && i1 < 512 && i3 != 510
    requires TopMapped(used, i4) ==> forall k :: 0 <= k < |used| ==> !Reaches(used, i3, i2, i1, k)
    ensures LeafAt(d, i4, i3, i2, i1) == Unmapped
  {
    TopLevel(d, used, i4, i3, i2, i1);
    if TopMapped(used, i4) { UnreachedBelow(d, used, i3, i2, i1); }
  }

  lemma KernelBelow(d: PgDir, i2: nat, i1: nat)
    requires WellFormed(d) && i2 < 512 && i1 < 512
    requires d.pdt[0][i2] == i2 * HUGEPGSIZE + HUGE_FLAGS
    ensures Leaf2(d, PdtAt(d.base, 0) + KERNEL_FLAGS, i2, i1) == Large(i2 * HUGEPGSIZE)
  {
    PdptLevel(d, 0, KERNEL_FLAGS, i2, i1);
    HugeEntry(i2);
  }

  // and in the kernel's slot to the physical address itself.
  lemma KernelLeaf(d: PgDir, used: seq<Slot>, i4: nat, i2: nat, i1: nat)
    requires WellFormed(d) && AllLegal(used) && PdptHas(d, used) && PdtOnly(d, used) && Pml4Holds(d, used)
    requires i4 < 512 && i2 < 512 && i1 < 512
    ensures LeafAt(d, i4, 510, i2, i1) == if TopMapped(used, i4) then Large(i2 * HUGEPGSIZE) else Unmapped
  {
    TopLevel(d, used, i4, 510, i2, i1);
    KernelBelow(d, i2, i1);
  }

  lemma HugeEntry(i: nat)
    ensures Huge(i * HUGEPGSIZE + HUGE_FLAGS) && AddressOf(i * HUGEPGSIZE + HUGE_FLAGS) == i * HUGEPGSIZE
  {
    HugeBits(i * 8192, i * 512);
  }

  lemma HugeBits(m: nat, n: nat)
    ensures Huge(256 * m + 0x83) && AddressOf(4096 * n + 0x83) == 4096 * n
  {
    assert 256 * m + 0x83 == 128 * (2 * m + 1) + 3;
  }

  // ---------- main results on mapping ----------

  // map_4kb_page_user makes the page's indices translate to its frame, on any tables.
  lemma MappedTranslates(d: PgDir, s: Slot)
    requires WellFormed(d) && Legal(s)
    ensures LeafAt(Mapped(d, s), s.i4, s.i3, s.i2, s.i1) == Small(s.pa)
  {
    var d' := Mapped(d, s);
    MappedEntries(d, s);
    TableEntries(d', 0, USER_FLAGS);
    PdptLevel(d', s.a, USER_FLAGS, s.i2, s.i1);
    PdtLevel(d', s.b, s.i1);
    UserEntryNotHuge(s.pa);
  }

  lemma MappedEntries(d: PgDir, s: Slot)
    requires WellFormed(d) && Legal(s)
    ensures var r := Mapped(d, s);
            && r.pml4t[s.i4] == PdptAt(d.base) + USER_FLAGS
            && r.pdpt[s.i3] == PdtAt(d.base, s.a) + USER_FLAGS
            && r.pdt[s.a][s.i2] == PdAt(d.base, s.b) + USER_FLAGS
            && r.pd[s.b][s.i1] == s.pa + USER_FLAGS
  {
  }

  lemma ReachesCons(s: Slot, used: seq<Slot>, i3: nat, i2: nat, i1: nat, k: nat)
    requires Reaches(used, i3, i2, i1, k)
    ensures Reaches([s] + used, i3, i2, i1, k + 1)
  {
    var l := [s] + used;
    var m, n :| 0 <= m < |used| && 0 <= n < |used| && used[m].i3 == i3 && used[n].a == used[m].a
                && used[n].i2 == i2 && used[k].b == used[n].b;
    assert l[m + 1] == used[m] && l[n + 1] == used[n] && l[k + 1] == used[k];
  }

  // d is what mapping the pages of `used` made of fresh tables.
  predicate BuiltFrom(d: PgDir, used: seq<Slot>) {
    WellFormed(d) && AllLegal(used) && SamePdt(used) && Built(d.base, used) == Some(d)
  }

  lemma PageIsLeaf(d: PgDir, used: seq<Slot>, i4: nat, i3: nat, i2: nat, i1: nat, k: nat)
    requires BuiltFrom(d, used) && TopMapped(used, i4) && Reaches(used, i3, i2, i1, k)
    requires i4 < 512 && i3 < 512 && i2 < 512 && i1 < 512
    ensures LeafAt(d, i4, i3, i2, i1) == Small(used[k].pa)
  {
    BuiltHolds(d.base, used);
    ReachedLeaf(d, used, i4, i3, i2, i1, k);
  }

  lemma LeafIsPage(d: PgDir, used: seq<Slot>, i4: nat, i3: nat, i2: nat, i1: nat) returns (k: nat)
    requires BuiltFrom(d, used)
    requires i4 < 512 && i3 < 512 && i2 < 512 && i1 < 512 && i3 != 510 && LeafAt(d, i4, i3, i2, i1) != Unmapped
    ensures TopMapped(used, i4) && Reaches(used, i3, i2, i1, k) && LeafAt(d, i4, i3, i2, i1) == Small(used[k].pa)
  {
    BuiltHolds(d.base, used);
    k := WhatIsReached(d, used, i4, i3, i2, i1);
    PageIsLeaf(d, used, i4, i3, i2, i1, k);
  }

  lemma KernelIsLeaf(d: PgDir, used: seq<Slot>, i4: nat, i2: nat, i1: nat)
    requires BuiltFrom(d, used) && i4 < 512 && i2 < 512 && i1 < 512
    ensures LeafAt(d, i4, 510, i2, i1) == if TopMapped(used, i4) then Large(i2 * HUGEPGSIZE) else Unmapped
  {
    BuiltHolds(d.base, used);
    KernelLeaf(d, used, i4, i2, i1);
  }

  lemma BuildOne(d: PgDir, used: seq<Slot>, s: Slot)
    requires BuiltFrom(d, used) && Legal(s) && !Panics(d, s) && SamePdt([s] + used)
    ensures BuiltFrom(Mapped(d, s), [s] + used)
  {
    var l := [s] + used;
    assert l[1..] == used && AllLegal(l);
  }

  lemma UserKept(d: PgDir, d': PgDir, used: seq<Slot>, s: Slot, i4: nat, i3: nat, i2: nat, i1: nat)
    requires BuiltFrom(d, used) && BuiltFrom(d', [s] + used)
    requires i4 < 512 && i3 < 512 && i2 < 512 && i1 < 512 && i3 != 510 && LeafAt(d, i4, i3, i2, i1) != Unmapped
    ensures LeafAt(d', i4, i3, i2, i1) == LeafAt(d, i4, i3, i2, i1)
  {
    var k := LeafIsPage(d, used, i4, i3, i2, i1);
    ConsUses(s, used, 0, i4);
    ReachesCons(s, used, i3, i2, i1, k);
    PageIsLeaf(d', [s] + used, i4, i3, i2, i1, k + 1);
  }

  lemma KernelKept(d: PgDir, d': PgDir, used: seq<Slot>, s: Slot, i4: nat, i2: nat, i1: nat)
    requires BuiltFrom(d, used) && BuiltFrom(d', [s] + used)
    requires i4 < 512 && i2 < 512 && i1 < 512 && LeafAt(d, i4, 510, i2, i1) != Unmapped
    ensures LeafAt(d', i4, 510, i2, i1) == LeafAt(d, i4, 510, i2, i1)
  {
    ConsUses(s, used, 0, i4);
    KernelIsLeaf(d, used, i4, i2, i1);
    KernelIsLeaf(d', [s] + used, i4, i2, i1);
  }

  // And leaves every translation that was there, user or kernel, as it was, provided
  // that equal pdpt indices always use the same pdt table.
  lemma MappedKeepsOthers(d: PgDir, used: seq<Slot>, s: Slot, i4: nat, i3: nat, i2: nat, i1: nat)
    requires BuiltFrom(d, used) && Legal(s) && !Panics(d, s) && SamePdt([s] + used)
    requires i4 < 512 && i3 < 512 && i2 < 512 && i1 < 512 && LeafAt(d, i4, i3, i2, i1) != Unmapped
    ensures LeafAt(Mapped(d, s), i4, i3, i2, i1) == LeafAt(d, i4, i3, i2, i1)
  {
    BuildOne(d, used, s);
    if i3 == 510 {
      KernelKept(d, Mapped(d, s), used, s, i4, i2, i1);
    } else {
      UserKept(d, Mapped(d, s), used, s, i4, i3, i2, i1);
    }
  }

  lemma WhatIsReached(d: PgDir, used: seq<Slot>, i4: nat, i3: nat, i2: nat, i1: nat) returns (k: nat)
    requires WellFormed(d) && AllLegal(used) && Holds(d, used)
    requires i4 < 512 && i3 < 512 && i2 < 512 && i1 < 512 && i3 != 510 && LeafAt(d, i4, i3, i2, i1) != Unmapped
    ensures TopMapped(used, i4) && Reaches(used, i3, i2, i1, k)
  {
    if forall k :: 0 <= k < |used| ==> !Reaches(used, i3, i2, i1, k) { UnreachedLeaf(d, used, i4, i3, i2, i1); }
    if !TopMapped(used, i4) { UnreachedLeaf(d, used, i4, i3, i2, i1); }
    k :| 0 <= k < |used| && Reaches(used, i3, i2, i1, k);
  }

  lemma BuiltHolds(base: nat, used: seq<Slot>)
    requires base % 4096 == 0 && AllLegal(used) && SamePdt(used) && Built(base, used).Some?
    ensures Holds(Built(base, used).value, used)
  {
    BuiltIff(base, used);
    BuiltUpper(base, used);
  }

  // ---------- the same by address ----------

  lemma SamePage(x: nat, y: nat)
    requires x / PGSIZE == y / PGSIZE
    ensures P4(x) == P4(y) && P3(x) == P3(y) && P2(x) == P2(y) && P1(x) == P1(y)
  {
    PageNumber(x);
    PageNumber(y);
  }

  // Every address of the mapped page translates to the frame plus its offset in the page.
  lemma AddressesTranslate(d: PgDir, va: nat, pa: nat, a: nat, b: nat, y: nat)
    requires WellFormed(d) && Legal(SlotOf(va, pa, a, b)) && y / PGSIZE == va / PGSIZE
    ensures Walk(Mapped(d, SlotOf(va, pa, a, b)), y) == Some(pa + y % PGSIZE)
  {
    SamePage(va, y);
    MappedTranslates(d, SlotOf(va, pa, a, b));
  }

  // Every address that translated before translates as before.
  lemma OtherAddressesKept(d: PgDir, used: seq<Slot>, s: Slot, y: nat)
    requires BuiltFrom(d, used) && Legal(s) && !Panics(d, s) && SamePdt([s] + used) && Walk(d, y) != None
    ensures Walk(Mapped(d, s), y) == Walk(d, y)
  {
    MappedKeepsOthers(d, used, s, P4(y), P3(y), P2(y), P1(y));
  }

  const KERNEL_HH_START: nat := 0xffff_ffff_8000_0000

  lemma KernelIndices(x: nat)
    requires x < 0x4000_0000
    ensures var va := KERNEL_HH_START + x;
            P4(va) == 511 && P3(va) == 510 && P2(va) == x / HUGEPGSIZE && va % HUGEPGSIZE == x % HUGEPGSIZE
  {
    var va := KERNEL_HH_START + x;
    assert va / 0x20_0000 == 0x7ff_ffff_fc00 + x / 0x20_0000;
    assert va / 0x4000_0000 == 0x3_ffff_fffe;
    assert va / 0x80_0000_0000 == 0x1ff_ffff;
  }

  // Whatever the process maps, the kernel's gigabyte translates to the first physical one.
  lemma KernelAddresses(d: PgDir, used: seq<Slot>, x: nat)
    requires BuiltFrom(d, used) && x < 0x4000_0000
    ensures Walk(d, KERNEL_HH_START + x) == Some(x)
  {
    KernelIndices(x);
    KernelIsLeaf(d, used, 511, x / HUGEPGSIZE, P1(KERNEL_HH_START + x));
  }

  // ---------- who may use a translation ----------

  // The entry lets the processor through, for writing too, and user code if it asks: of its bits
  // 0, 1 and 2 (present, writable, user; Intel SDM volume 3A, section 4.6) the first two are set,
  // and for user code all three.
  predicate Grants(e: nat, user: bool) { e % 8 == 7 || (!user && e % 8 == 3) }

  predicate Grants1(d: PgDir, e: nat, i1: nat, user: bool)
    requires WellFormed(d) && i1 < 512
  {
    Grants(e, user) && (Huge(e) || (var t := TableAt(d, AddressOf(e)); t.Some? && Grants(t.value[i1], user)))
  }

  predicate Grants2(d: PgDir, e: nat, i2: nat, i1: nat, user: bool)
    requires WellFormed(d) && i2 < 512 && i1 < 512
  {
    Grants(e, user) && var t := TableAt(d, AddressOf(e)); t.Some? && Grants1(d, t.value[i2], i1, user)
  }

  // Every entry on the walk grants it.
  predicate AccessAt(d: PgDir, i4: nat, i3: nat, i2: nat, i1: nat, user: bool)
    requires WellFormed(d) && i4 < 512 && i3 < 512 && i2 < 512 && i1 < 512
  {
    Grants(d.pml4t[i4], user)
    && var t := TableAt(d, AddressOf(d.pml4t[i4])); t.Some? && Grants2(d, t.value[i3], i2, i1, user)
  }

  predicate Access(d: PgDir, va: nat, user: bool)
    requires WellFormed(d)
  {
    AccessAt(d, P4(va), P3(va), P2(va), P1(va), user)
  }

  lemma UserEntryGrants(p: nat)
    requires p % 4096 == 0
    ensures Grants(p + USER_FLAGS, true) && Grants(p + USER_FLAGS, false)
  {
    LowBits(p / 4096, 7);
  }

  lemma KernelEntryGrants(p: nat)
    requires p % 4096 == 0
    ensures Grants(p + KERNEL_FLAGS, false) && !Grants(p + KERNEL_FLAGS, true)
    ensures Grants(p + HUGE_FLAGS, false) && !Grants(p + HUGE_FLAGS, true)
  {
    LowBits(p / 4096, 3);
    LowBits(p / 4096, 0x83);
  }

  lemma LowBits(q: nat, flags: nat)
    ensures (4096 * q + flags) % 8 == flags % 8
  {
    assert 4096 * q + flags == 8 * (512 * q) + flags;
  }

  // One level at a time: a pdpt entry that names a pdt table, and a pdt entry that names a pd table.
  lemma Through(d: PgDir, e: nat, t: seq<nat>, i2: nat, i1: nat, user: bool)
    requires WellFormed(d) && i2 < 512 && i1 < 512 && Grants(e, user) && TableAt(d, AddressOf(e)) == Some(t)
    ensures Grants2(d, e, i2, i1, user) <==> Grants1(d, t[i2], i1, user)
  {
  }

  lemma ThroughPdpt(d: PgDir, a: nat, i2: nat, i1: nat, user: bool)
    requires WellFormed(d) && a < 512 && i2 < 512 && i1 < 512
    ensures Grants2(d, PdtAt(d.base, a) + USER_FLAGS, i2, i1, user) <==> Grants1(d, d.pdt[a][i2], i1, user)
  {
    var e := PdtAt(d.base, a) + USER_FLAGS;
    assert Grants(e, user) by { UserEntryGrants(PdtAt(d.base, a)); }
    assert TableAt(d, AddressOf(e)) == Some(d.pdt[a]) by { PdtEntry(d, a, USER_FLAGS); }
    Through(d, e, d.pdt[a], i2, i1, user);
  }

  lemma ThroughPdt(d: PgDir, b: nat, i1: nat, user: bool)
    requires WellFormed(d) && b < 512 && i1 < 512
    ensures Grants1(d, PdAt(d.base, b) + USER_FLAGS, i1, user) <==> Grants(d.pd[b][i1], user)
  {
    UserEntryGrants(PdAt(d.base, b));
    UserEntryNotHuge(PdAt(d.base, b));
    PdEntry(d, b, USER_FLAGS);
  }

  lemma NothingGranted(d: PgDir, i2: nat, i1: nat)
    requires WellFormed(d) && i2 < 512 && i1 < 512
    ensures !Grants(0, true) && !Grants1(d, 0, i1, true) && !Grants2(d, 0, i2, i1, true)
  {
  }

  // What the lower levels grant, through entries that map_4kb_page_user wrote.
  lemma GrantsBelow(d: PgDir, a: nat, b: nat, i2: nat, i1: nat)
    requires WellFormed(d) && a < 512 && b < 512 && i2 < 512 && i1 < 512
    requires d.pdt[a][i2] == PdAt(d.base, b) + USER_FLAGS && Grants(d.pd[b][i1], true)
    ensures Grants2(d, PdtAt(d.base, a) + USER_FLAGS, i2, i1, true)
  {
    ThroughPdpt(d, a, i2, i1, true);
    ThroughPdt(d, b, i1, true);
  }

  // User code can read and write every address of a page that was just mapped, on any tables.
  lemma MappedIsAccessible(d: PgDir, s: Slot)
    requires WellFormed(d) && Legal(s)
    ensures AccessAt(Mapped(d, s), s.i4, s.i3, s.i2, s.i1, true)
  {
    var d' := Mapped(d, s);
    MappedEntries(d, s);
    UserEntryGrants(s.pa);
    UserEntryGrants(PdptAt(d.base));
    TableEntries(d', 0, USER_FLAGS);
    GrantsBelow(d', s.a, s.b, s.i2, s.i1);
  }

  lemma AddressesAccessible(d: PgDir, va: nat, pa: nat, a: nat, b: nat, y: nat)
    requires WellFormed(d) && Legal(SlotOf(va, pa, a, b)) && y / PGSIZE == va / PGSIZE
    ensures Access(Mapped(d, SlotOf(va, pa, a, b)), y, true)
  {
    SamePage(va, y);
    MappedIsAccessible(d, SlotOf(va, pa, a, b));
  }

  // What user code can reach at all: exactly the recorded pages, through a top-level entry that
  // some recorded page uses.
  predicate Reached(used: seq<Slot>, i4: nat, i3: nat, i2: nat, i1: nat) {
    UsesPml4(used, i4) && exists k :: 0 <= k < |used| && Reaches(used, i3, i2, i1, k)
  }

  lemma TopGrants(d: PgDir, used: seq<Slot>, i4: nat)
    requires WellFormed(d) && Pml4Holds(d, used) && i4 < 512
    ensures Grants(d.pml4t[i4], true) <==> UsesPml4(used, i4)
    ensures UsesPml4(used, i4) ==> d.pml4t[i4] == PdptAt(d.base) + USER_FLAGS
  {
    UserEntryGrants(PdptAt(d.base));
    KernelEntryGrants(PdptAt(d.base));
  }

  // Above the last three levels, user code needs an entry that some page uses.
  lemma AccessFromTop(d: PgDir, used: seq<Slot>, i4: nat, i3: nat, i2: nat, i1: nat)
    requires WellFormed(d) && Pml4Holds(d, used) && i4 < 512 && i3 < 512 && i2 < 512 && i1 < 512
    ensures AccessAt(d, i4, i3, i2, i1, true) <==> UsesPml4(used, i4) && Grants2(d, d.pdpt[i3], i2, i1, true)
  {
    TopGrants(d, used, i4);
    PdptTable(d, USER_FLAGS);
  }

  lemma PdptTable(d: PgDir, flags: nat)
    requires WellFormed(d) && flags < 4096
    ensures TableAt(d, AddressOf(PdptAt(d.base) + flags)) == Some(d.pdpt)
  {
    EntryAddress(PdptAt(d.base), flags);
  }

  lemma ReachedGrants(d: PgDir, used: seq<Slot>, i3: nat, i2: nat, i1: nat, k: nat)
    requires WellFormed(d) && AllLegal(used) && PdptHas(d, used) && PdtHas(d, used) && PdHas(d, used)
    requires i3 < 512 && i2 < 512 && i1 < 512 && Reaches(used, i3, i2, i1, k)
    ensures Grants2(d, d.pdpt[i3], i2, i1, true)
  {
    var m, n :| 0 <= m < |used| && 0 <= n < |used| && used[m].i3 == i3 && used[n].a == used[m].a
                && used[n].i2 == i2 && used[k].b == used[n].b;
    UserEntryGrants(used[k].pa);
    GrantsBelow(d, used[m].a, used[n].b, i2, i1);
  }

  lemma GrantedPd(d: PgDir, used: seq<Slot>, b: nat, i1: nat) returns (k: nat)
    requires WellFormed(d) && PdOnly(d, used) && b < 512 && i1 < 512
    requires Grants1(d, PdAt(d.base, b) + USER_FLAGS, i1, true)
    ensures k < |used| && used[k].b == b && used[k].i1 == i1
  {
    ThroughPdt(d, b, i1, true);
    NothingGranted(d, 0, i1);
    assert UsesPd(used, b, i1);
    k :| 0 <= k < |used| && used[k].b == b && used[k].i1 == i1;
  }

  lemma GrantedPdt(d: PgDir, used: seq<Slot>, a: nat, i2: nat, i1: nat) returns (n: nat)
    requires WellFormed(d) && AllLegal(used) && PdtHas(d, used) && PdtOnly(d, used)
    requires 0 < a < 512 && i2 < 512 && i1 < 512 && Grants2(d, PdtAt(d.base, a) + USER_FLAGS, i2, i1, true)
    ensures n < |used| && used[n].a == a && used[n].i2 == i2
    ensures Grants1(d, PdAt(d.base, used[n].b) + USER_FLAGS, i1, true)
  {
    ThroughPdpt(d, a, i2, i1, true);
    NothingGranted(d, i2, i1);
    assert UsesPdt(used, a, i2);
    n :| 0 <= n < |used| && used[n].a == a && used[n].i2 == i2;
  }

  lemma KernelPdptGrantsNothing(d: PgDir, i2: nat, i1: nat)
    requires WellFormed(d) && i2 < 512 && i1 < 512
    ensures !Grants2(d, PdtAt(d.base, 0) + KERNEL_FLAGS, i2, i1, true)
  {
    KernelEntryGrants(PdtAt(d.base, 0));
  }

  lemma GrantedPdpt(d: PgDir, used: seq<Slot>, i3: nat, i2: nat, i1: nat) returns (m: nat)
    requires WellFormed(d) && AllLegal(used) && PdptHas(d, used) && PdptOnly(d, used)
    requires i3 < 512 && i2 < 512 && i1 < 512 && Grants2(d, d.pdpt[i3], i2, i1, true)
    ensures m < |used| && used[m].i3 == i3
    ensures Grants2(d, PdtAt(d.base, used[m].a) + USER_FLAGS, i2, i1, true)
  {
    KernelPdptGrantsNothing(d, i2, i1);
    NothingGranted(d, i2, i1);
    assert UsesPdpt(used, i3);
    m :| 0 <= m < |used| && used[m].i3 == i3;
  }

  lemma GrantedReaches(d: PgDir, used: seq<Slot>, i3: nat, i2: nat, i1: nat) returns (k: nat)
    requires WellFormed(d) && AllLegal(used) && PdptHas(d, used) && PdptOnly(d, used)
    requires PdtHas(d, used) && PdtOnly(d, used) && PdOnly(d, used)
    requires i3 < 512 && i2 < 512 && i1 < 512 && Grants2(d, d.pdpt[i3], i2, i1, true)
    ensures k < |used| && Reaches(used, i3, i2, i1, k)
  {
    var m := GrantedPdpt(d, used, i3, i2, i1);
    var n;
    n, k := GrantedPage(d, used, used[m].a, i2, i1);
    ChainReaches(used, i3, i2, i1, m, n, k);
  }

  lemma GrantedPage(d: PgDir, used: seq<Slot>, a: nat, i2: nat, i1: nat) returns (n: nat, k: nat)
    requires WellFormed(d) && AllLegal(used) && PdtHas(d, used) && PdtOnly(d, used) && PdOnly(d, used)
    requires 0 < a < 512 && i2 < 512 && i1 < 512 && Grants2(d, PdtAt(d.base, a) + USER_FLAGS, i2, i1, true)
    ensures n < |used| && used[n].a == a && used[n].i2 == i2
    ensures k < |used| && used[k].b == used[n].b && used[k].i1 == i1
  {
    n := GrantedPdt(d, used, a, i2, i1);
    k := GrantedPd(d, used, used[n].b, i1);
  }

  lemma ChainReaches(used: seq<Slot>, i3: nat, i2: nat, i1: nat, m: nat, n: nat, k: nat)
    requires m < |used| && n < |used| && k < |used| && used[m].i3 == i3 && used[n].a == used[m].a
    requires used[n].i2 == i2 && used[k].b == used[n].b && used[k].i1 == i1
    ensures Reaches(used, i3, i2, i1, k)
  {
  }

  lemma GrantedBelow(d: PgDir, used: seq<Slot>, i3: nat, i2: nat, i1: nat)
    requires WellFormed(d) && AllLegal(used) && Holds(d, used) && i3 < 512 && i2 < 512 && i1 < 512
    ensures Grants2(d, d.pdpt[i3], i2, i1, true) <==> exists k :: 0 <= k < |used| && Reaches(used, i3, i2, i1, k)
  {
    if Grants2(d, d.pdpt[i3], i2, i1, true) {
      var k := GrantedReaches(d, used, i3, i2, i1);
    }
    if k :| 0 <= k < |used| && Reaches(used, i3, i2, i1, k) {
      ReachedGrants(d, used, i3, i2, i1, k);
    }
  }

  // User code can use an address if and only if it reaches a recorded page.
  lemma UserAccessIff(d: PgDir, used: seq<Slot>, va: nat)
    requires BuiltFrom(d, used)
    ensures Access(d, va, true) <==> Reached(used, P4(va), P3(va), P2(va), P1(va))
  {
    BuiltHolds(d.base, used);
    AccessFromTop(d, used, P4(va), P3(va), P2(va), P1(va));
    GrantedBelow(d, used, P3(va), P2(va), P1(va));
  }

  lemma KernelBelowGrants(d: PgDir, i2: nat, i1: nat, user: bool)
    requires WellFormed(d) && i2 < 512 && i1 < 512 && d.pdt[0][i2] == i2 * HUGEPGSIZE + HUGE_FLAGS
    ensures Grants2(d, PdtAt(d.base, 0) + KERNEL_FLAGS, i2, i1, user) <==> !user
  {
    if user {
      KernelPdptGrantsNothing(d, i2, i1);
    } else {
      var e := PdtAt(d.base, 0) + KERNEL_FLAGS;
      assert Grants(e, false) by { KernelEntryGrants(PdtAt(d.base, 0)); }
      assert TableAt(d, AddressOf(e)) == Some(d.pdt[0]) by { PdtEntry(d, 0, KERNEL_FLAGS); }
      Through(d, e, d.pdt[0], i2, i1, false);
      HugeGrants(d, i2, i1);
    }
  }

  lemma HugeGrants(d: PgDir, i2: nat, i1: nat)
    requires WellFormed(d) && i2 < 512 && i1 < 512
    ensures Grants1(d, i2 * HUGEPGSIZE + HUGE_FLAGS, i1, false)
  {
    HugeEntry(i2);
    KernelEntryGrants(i2 * HUGEPGSIZE);
  }

  lemma KernelFromTop(d: PgDir, used: seq<Slot>, i3: nat, i2: nat, i1: nat)
    requires WellFormed(d) && Pml4Holds(d, used) && i3 < 512 && i2 < 512 && i1 < 512
    ensures AccessAt(d, 511, i3, i2, i1, false) <==> Grants2(d, d.pdpt[i3], i2, i1, false)
  {
    PdptTable(d, USER_FLAGS);
    PdptTable(d, KERNEL_FLAGS);
    UserEntryGrants(PdptAt(d.base));
    KernelEntryGrants(PdptAt(d.base));
  }

  lemma KernelWalk(d: PgDir, used: seq<Slot>, i2: nat, i1: nat, user: bool)
    requires WellFormed(d) && AllLegal(used) && PdptHas(d, used) && PdtOnly(d, used) && Pml4Holds(d, used)
    requires i2 < 512 && i1 < 512
    ensures AccessAt(d, 511, 510, i2, i1, user) <==> !user
  {
    KernelBelowGrants(d, i2, i1, user);
    if user {
      AccessFromTop(d, used, 511, 510, i2, i1);
    } else {
      KernelFromTop(d, used, 510, i2, i1);
    }
  }

  lemma KernelWalkBuilt(d: PgDir, used: seq<Slot>, i2: nat, i1: nat, user: bool)
    requires BuiltFrom(d, used) && i2 < 512 && i1 < 512
    ensures AccessAt(d, 511, 510, i2, i1, user) <==> !user
  {
    BuiltHolds(d.base, used);
    KernelWalk(d, used, i2, i1, user);
  }

  // Whatever a process maps, the kernel can use every address of its gigabyte, and user code none.
  lemma KernelIsPrivate(d: PgDir, used: seq<Slot>, x: nat)
    requires BuiltFrom(d, used) && x < 0x4000_0000
    ensures Access(d, KERNEL_HH_START + x, false) && !Access(d, KERNEL_HH_START + x, true)
  {
    KernelIndices(x);
    KernelWalkBuilt(d, used, x / HUGEPGSIZE, P1(KERNEL_HH_START + x), true);
    KernelWalkBuilt(d, used, x / HUGEPGSIZE, P1(KERNEL_HH_START + x), false);
  }
}
