/** kalloc.c and vm.c. Page-aligned addresses, virtual and physical, are counted in pages. */
module Vm {
  import opened PageTables

  const KERNBASE: int := 0x8000_0000
  const PTE_W: int := 2
  const PTE_U: int := 4

  lemma Unchanged(m: Memory, d: int, t: set<int>)
    requires Shape(m)
    ensures SamePtes(m, d, m) && Outside(m, m, t)
  {
  }

  lemma SameWords(m: Memory, m': Memory, d: int, x: int)
    requires 0 <= d < |m| == |m'| && m'[d] == m[d]
    ensures Word(m', d, x) == Word(m, d, x)
  {
  }

  lemma SamePtesTrans(m: Memory, d: int, m1: Memory, m2: Memory)
    requires SamePtes(m, d, m1) && SamePtes(m1, d, m2)
    ensures SamePtes(m, d, m2)
  {
    hide Pte;
  }

  lemma AllFlags()
    ensures Present(1 + PTE_W + PTE_U) && Writable(1 + PTE_W + PTE_U) && ForUser(1 + PTE_W + PTE_U)
  {
  }

  /** The free list: distinct pages, each holding the number of the next in its first word. */
  ghost predicate Chain(m: Memory, head: int, chain: seq<int>) {
    && (forall k | 0 <= k < |chain| :: 0 < chain[k] < NPAGES && Word(m, chain[k], 0) == Follow(chain, k + 1))
    && (forall j, k | 0 <= j < k < |chain| :: chain[j] != chain[k])
    && head == Follow(chain, 0)
  }

  function Follow(chain: seq<int>, k: nat): int {
    if k < |chain| then chain[k] else 0
  }

  /** Pages outside t are as they were. */
  ghost predicate Outside(m: Memory, m': Memory, t: set<int>) {
    |m| == |m'| == NPAGES && forall p | 0 <= p < NPAGES && p !in t :: m'[p] == m[p]
  }

  /** t is divided between the free list and the page tables. */
  ghost predicate Split(free: set<int>, tab: map<int, Role>, t: set<int>) {
    free !! tab.Keys && free + tab.Keys == t
  }

  lemma ChainFrame(m: Memory, head: int, chain: seq<int>, m': Memory)
    requires Shape(m) && Shape(m') && Chain(m, head, chain) && forall p | p in chain :: 0 <= p < NPAGES ==>
             m'[p] == m[p]
    ensures Chain(m', head, chain)
  {
    forall k | 0 <= k < |chain| ensures Word(m', chain[k], 0) == Word(m, chain[k], 0) {
      assert chain[k] in chain;
    }
  }

  function Filled(w: int): (p: seq<int>)
    ensures |p| == ENTRIES && forall i | 0 <= i < ENTRIES :: p[i] == w
  {
    seq(ENTRIES, _ => w)
  }

  lemma ShapeAt(m: Memory, p: int)
    requires Shape(m) && 0 <= p < NPAGES
    ensures |m| == NPAGES && |m[p]| == ENTRIES
  {
  }

  ghost function Elems(chain: seq<int>): set<int> {
    set p | p in chain
  }

  lemma Pop(m: Memory, head: int, chain: seq<int>)
    requires Shape(m) && Chain(m, head, chain)
    ensures head == 0 <==> Elems(chain) == {}
    ensures head != 0 ==>
      0 < head < NPAGES && |chain| > 0 && head in Elems(chain) && Elems(chain[1..]) == Elems(chain) - {head}
    ensures head != 0 ==> Chain(m, m[head][0], chain[1..])
  {
    if chain == [] {
      assert Elems(chain) == {} && head == 0;
    } else {
      assert chain[0] in chain && chain[0] == head && head > 0 && head in Elems(chain) &&
        m[head][0] == Word(m, head, 0);
      PopRest(m, head, chain, chain[1..]);
    }
  }

  lemma PopRest(m: Memory, head: int, chain: seq<int>, rest: seq<int>)
    requires Chain(m, head, chain) && |chain| > 0 && rest == chain[1..]
    ensures Elems(rest) == Elems(chain) - {head} && Chain(m, Word(m, head, 0), rest)
  {
    assert chain == [head] + rest;
    forall k | 0 <= k < |rest| ensures rest[k] == chain[k + 1] {
    }
    assert head !in rest by {
      assert forall k | 0 <= k < |rest| :: rest[k] != head;
    }
    assert forall j, k | 0 <= j < k < |rest| :: rest[j] != rest[k];
    assert Follow(rest, 0) == Follow(chain, 1);
    forall k: nat | k < |rest| ensures 0 < rest[k] < NPAGES && Word(m, rest[k], 0) == Follow(rest, k + 1) {
      assert Follow(rest, k + 1) == Follow(chain, k + 2);
    }
  }

  lemma Push(m: Memory, head: int, chain: seq<int>, p: int, m': Memory)
    requires Shape(m) && Shape(m') && Chain(m, head, chain) && p !in chain && 0 < p < NPAGES
    requires Outside(m, m', {p}) && Word(m', p, 0) == head
    ensures Chain(m', p, [p] + chain) && Elems([p] + chain) == Elems(chain) + {p}
  {
    hide Shape, Word;
    ChainFrame(m, head, chain, m');
    var c := [p] + chain;
    forall k: int | 0 <= k < |c| ensures 0 < c[k] < NPAGES && Word(m', c[k], 0) == Follow(c, k + 1) {
      assert Follow(c, k + 1) == Follow(chain, k);
      if k > 0 {
        assert c[k] == chain[k - 1] && Word(m', chain[k - 1], 0) == Follow(chain, k);
      }
    }
    forall j, k | 0 <= j < k < |c| ensures c[j] != c[k] {
      assert c[k] == chain[k - 1] && chain[k - 1] in chain;
    }
  }

  /** Virtual pages from a up to k have been mapped to physical pages from p on, and nothing else
      has been mapped or unmapped. */
  ghost predicate Mapped(m: Memory, d: int, m': Memory, a: int, k: int, p: int, perm: int)
    requires 0 <= perm < 4096
  {
    forall u | 0 <= u < VPAGES :: Pte(m', d, u) == if a <= u < k then Entry(p + (u - a), WithP(perm)) else Pte(m, d, u)
  }

  lemma MappedNext(m: Memory, d: int, m1: Memory, m2: Memory, a: int, k: int, p: int, perm: int)
    requires 0 <= perm < 4096 && Mapped(m, d, m1, a, k, p, perm) && a <= k < VPAGES
    requires OnePte(m1, d, k, Entry(p + (k - a), WithP(perm)), m2)
    ensures Mapped(m, d, m2, a, k + 1, p, perm)
  {
    hide Pte, Entry, WithP;
  }

  lemma OnePteTrans(m: Memory, d: int, v: int, w: int, m1: Memory, m2: Memory)
    requires SamePtes(m, d, m1) && OnePte(m1, d, v, w, m2) && 0 <= v < VPAGES
    ensures OnePte(m, d, v, w, m2)
  {
    hide Pte;
  }

  /** PGROUNDUP, in pages. */
  function RoundUp(sz: int): int {
    (sz + 4095) / 4096
  }

  /** The user pages of data outside addresses lo to hi. */
  ghost function Without(data: map<int, int>, lo: int, hi: int): map<int, int> {
    map p | p in data && !(lo <= data[p] < hi) :: data[p]
  }

  /** The user pages from lo to hi have been unmapped, and nothing else has changed in the tables. */
  ghost predicate Unmapped(m: Memory, d: int, m': Memory, lo: int, hi: int) {
    forall u | 0 <= u < VPAGES :: Pte(m', d, u) == if lo <= u < hi && Present(Pte(m, d, u)) then 0 else Pte(m, d, u)
  }

  /** t is divided between the free list, the page tables and the user pages. */
  ghost predicate Parts(free: set<int>, tab: map<int, Role>, data: map<int, int>, t: set<int>) {
    && free !! tab.Keys && free !! data.Keys && tab.Keys !! data.Keys
    && free + tab.Keys + data.Keys == t
  }

  /** Pages of data hold what they held. */
  ghost predicate SameData(m: Memory, m': Memory, data: map<int, int>) {
    |m| == |m'| == NPAGES && forall p | p in data && 0 <= p < NPAGES :: m'[p] == m[p]
  }

  lemma PartsFreed(free: set<int>, tab: map<int, Role>, data: map<int, int>, t: set<int>, p: int)
    requires Parts(free, tab, data, t) && p in data
    ensures Parts(free + {p}, tab, data - {p}, t) && p !in free && p !in tab
  {
  }

  lemma InParts(free: set<int>, tab: map<int, Role>, data: map<int, int>, t: set<int>, pt: int, pa: int)
    requires Parts(free, tab, data, t) && pt in tab && pa in data
    ensures pt in t && pa in t && pt !in data && pt != pa
  {
  }

  /** Pages below the size, rounded up, are those whose address is below it. */
  lemma BelowSize(a: int, sz: int)
    ensures a * 4096 < sz <==> a < RoundUp(sz)
  {
  }

  lemma SameDataTrans(m: Memory, m1: Memory, m2: Memory, data: map<int, int>, data': map<int, int>)
    requires SameData(m, m1, data) && SameData(m1, m2, data') && data'.Keys <= data.Keys
    ensures SameData(m, m2, data')
  {
  }

  lemma DeallocNothing(m: Memory, d: int, lo: int, data: map<int, int>, t: set<int>)
    requires Shape(m)
    ensures Unmapped(m, d, m, lo, lo) && Outside(m, m, t) && SameData(m, m, data)
  {
  }

  lemma OutsideTrans(m: Memory, m1: Memory, m2: Memory, t: set<int>)
    requires Outside(m, m1, t) && Outside(m1, m2, t)
    ensures Outside(m, m2, t)
  {
  }

  /** The pages freevm's loop has not yet come to. */
  ghost function Rest(tab: map<int, Role>, i: int): set<int> {
    set p | p in tab && (tab[p].Dir? || tab[p].x >= i)
  }

  /** t is divided between the free list and the pages still to free. */
  ghost predicate Left(free: set<int>, rest: set<int>, t: set<int>) {
    free !! rest && free + rest == t
  }

  lemma LeftNext(free: set<int>, rest: set<int>, t: set<int>, p: int)
    requires Left(free, rest, t) && p in rest
    ensures p !in free && p in t && Left(free + {p}, rest - {p}, t)
  {
  }

  lemma RestNext(m: Memory, d: int, tab: map<int, Role>, i: int)
    requires Tables(m, d, tab) && 0 <= i < ENTRIES
    ensures var e := Word(m, d, i);
      if Present(e) then Num(e) in Rest(tab, i) && 0 < Num(e) < NPAGES && Num(e) != d &&
        Rest(tab, i + 1) == Rest(tab, i) - {Num(e)}
      else Rest(tab, i + 1) == Rest(tab, i)
  {
    assert TableOk(m, d, tab, i);
    forall p | p in tab && tab[p] == Table(i) ensures Present(Word(m, d, i)) && p == Num(Word(m, d, i)) {
      assert RoleOk(m, d, p, tab[p]);
    }
    var e := Word(m, d, i);
    assert Present(e) ==> RoleOk(m, d, Num(e), tab[Num(e)]);
  }

  lemma RestEnds(m: Memory, d: int, tab: map<int, Role>)
    requires Tables(m, d, tab)
    ensures Rest(tab, 0) == tab.Keys && Rest(tab, ENTRIES) == {d} && 0 < d < NPAGES
  {
    forall p | p in tab ensures if tab[p].Dir? then p == d else 0 <= tab[p].x < ENTRIES {
      assert RoleOk(m, d, p, tab[p]);
    }
    assert RoleOk(m, d, d, tab[d]);
  }

  /** deallocuvm from KERNBASE to 0 leaves no user page. */
  lemma AllGone(m: Memory, d: int, data: map<int, int>)
    requires Datas(m, d, data)
    ensures Without(data, 0, UPAGES) == map[]
  {
    forall p | p in data ensures 0 <= data[p] < UPAGES {
      assert MappedAt(m, d, p, data[p]);
    }
  }

  lemma PartsTaken(free: set<int>, tab: map<int, Role>, data: map<int, int>, t: set<int>, p: int)
    requires Parts(free, tab, data, t) && p in free
    ensures Parts(free - {p}, tab, data, t - {p}) && Split(free - {p}, tab, free - {p} + tab.Keys) && p !in tab &&
            p !in data && p in t
  {
  }

  /** Tables may have been added from the free pages; p joins the user pages. */
  lemma PartsAgain(free: set<int>, tab: map<int, Role>, data: map<int, int>, t: set<int>, p: int, free': set<int>,
                   tab': map<int, Role>, v: int)
    requires Parts(free, tab, data, t) && p in free && Split(free', tab', free - {p} + tab.Keys) &&
             tab.Keys <= tab'.Keys
    ensures free' <= free
    ensures Parts(free', tab', data, t - {p}) && Parts(free', tab', data[p := v], t) && p !in free' && p !in tab'
  {
  }

  /** Virtual page u is mapped for the user, writable, to a page of f that is all zero. */
  ghost predicate ZeroPage(m: Memory, d: int, u: int, f: set<int>) {
    var e := Pte(m, d, u);
    && Present(e) && Writable(e) && ForUser(e) && Flags(e) == 7
    && Num(e) in f && 0 <= Num(e) < |m| && m[Num(e)] == Filled(0)
  }

  /** User pages from lo to a are new, from the free pages f; everything else is mapped as before. */
  ghost predicate NewPages(m0: Memory, d: int, m: Memory, data: map<int, int>, data': map<int, int>, lo: int, a: int,
                           f: set<int>) {
    && |m| == NPAGES && Without(data', lo, a) == data
    && (forall u | lo <= u < a :: ZeroPage(m, d, u, f))
    && forall u | 0 <= u < VPAGES && !(lo <= u < a) :: Pte(m, d, u) == Pte(m0, d, u)
  }

  lemma NewPagesNext(m0: Memory, d: int, m1: Memory, data: map<int, int>, data1: map<int, int>, lo: int, a: int,
                     f: set<int>, mem: int, m2: Memory)
    requires NewPages(m0, d, m1, data, data1, lo, a, f) && 0 <= lo <= a < UPAGES && Datas(m1, d, data1) &&
             !Present(Pte(m1, d, a))
    requires OnePte(m1, d, a, Entry(mem, 7), m2) && 0 <= mem < NPAGES && mem in f && mem !in data1 &&
             m2[mem] == Filled(0)
    requires SameData(m1, m2, data1)
    ensures NewPages(m0, d, m2, data, data1[mem := a], lo, a + 1, f)
  {
    hide Pte, Entry, Num, Flags, Present, Writable, ForUser;
    AllFlags();
    EntryParts(mem, 7);
    EntryBits(mem, 7);
    forall u | lo <= u < a + 1 ensures ZeroPage(m2, d, u, f) {
      if u < a {
        assert ZeroPage(m1, d, u, f) && DataOk(m1, d, data1, u);
      }
    }
    forall p | p in data1 ensures data1[p] != a {
      assert MappedAt(m1, d, p, data1[p]);
    }
  }

  lemma NewPagesSame(m0: Memory, d: int, m1: Memory, data: map<int, int>, data1: map<int, int>, lo: int, a: int,
                     f: set<int>, m2: Memory)
    requires NewPages(m0, d, m1, data, data1, lo, a, f) && 0 <= lo <= a <= UPAGES && Datas(m1, d, data1)
    requires SamePtes(m1, d, m2) && SameData(m1, m2, data1)
    ensures NewPages(m0, d, m2, data, data1, lo, a, f)
  {
    hide Pte, Writable, ForUser;
    forall u | lo <= u < a ensures ZeroPage(m2, d, u, f) {
      assert ZeroPage(m1, d, u, f) && DataOk(m1, d, data1, u);
    }
  }

  lemma SameDataOf(m0: Memory, m1: Memory, m2: Memory, d: int, m: Memory, data: map<int, int>, data1: map<int, int>,
                   lo: int, a: int, f: set<int>)
    requires NewPages(m, d, m1, data, data1, lo, a, f) && SameData(m0, m1, data) && SameData(m1, m2, data1)
    ensures SameData(m0, m2, data)
  {
    assert forall p | p in data :: p in data1;
  }

  /** deallocuvm takes back what a failed allocuvm had mapped. */
  lemma Undone(m0: Memory, d: int, m1: Memory, data: map<int, int>, data1: map<int, int>, lo: int, a: int, hi: int,
               f: set<int>, m2: Memory)
    requires NewPages(m0, d, m1, data, data1, lo, a, f) && 0 <= lo <= a <= hi <= UPAGES && Datas(m0, d, data) &&
             Unmapped(m1, d, m2, lo, hi)
    requires forall v | lo <= v < hi :: !Present(Pte(m0, d, v))
    ensures Without(data1, lo, hi) == data
    ensures forall u | 0 <= u < VPAGES && !(lo <= u < hi) :: Pte(m2, d, u) == Pte(m0, d, u)
    ensures forall u | lo <= u < hi :: !Present(Pte(m2, d, u))
  {
    hide Pte;
    forall p | p in data ensures !(lo <= data[p] < hi) {
      assert MappedAt(m0, d, p, data[p]);
    }
    forall u | lo <= u < hi ensures !Present(Pte(m2, d, u)) {
      assert 0 <= u < VPAGES;
      assert Pte(m2, d, u) == if Present(Pte(m1, d, u)) then 0 else Pte(m1, d, u);
    }
  }

  lemma MappedOne(m: Memory, d: int, m': Memory, v: int, p: int, perm: int)
    requires 0 <= perm < 4096 && 0 <= v < VPAGES && Mapped(m, d, m', v, v + 1, p, perm) && Shape(m')
    ensures OnePte(m, d, v, Entry(p, WithP(perm)), m')
  {
    hide Pte, Entry, WithP;
  }

  lemma MapNewFrame(free: set<int>, tab: map<int, Role>, data: map<int, int>, t: set<int>, p: int, m0: Memory,
                    m1: Memory, m2: Memory)
    requires Parts(free, tab, data, t) && p in free && 0 <= p < NPAGES && Outside(m0, m1, t) && SameData(m0, m1, data)
    requires Outside(m1, m2, free - {p} + tab.Keys)
    ensures Outside(m0, m2, t) && SameData(m0, m2, data) && m2[p] == m1[p]
  {
  }

  lemma OutsideMore(m: Memory, m1: Memory, m2: Memory, t: set<int>, p: int)
    requires Outside(m, m1, t) && Outside(m1, m2, {p}) && p in t
    ensures Outside(m, m2, t) && forall q | 0 <= q < NPAGES && q != p :: m2[q] == m1[q]
  {
  }

  lemma LeftNone(free: set<int>, rest: set<int>, t: set<int>)
    requires Left(free, rest, t) && rest == {}
    ensures free == t
  {
  }

  lemma PartsBack(free: set<int>, tab: map<int, Role>, data: map<int, int>, t: set<int>, p: int)
    requires Parts(free, tab, data, t - {p}) && p in t
    ensures p !in free && p !in tab && p !in data && Parts(free + {p}, tab, data, t)
  {
  }

  lemma NewPagesNone(m: Memory, d: int, data: map<int, int>, lo: int, f: set<int>)
    requires Shape(m)
    ensures NewPages(m, d, m, data, data, lo, lo, f)
  {
    hide Pte;
  }

  lemma NewPagesAbsent(m0: Memory, d: int, m: Memory, data: map<int, int>, data': map<int, int>, lo: int, a: int,
                       f: set<int>, hi: int)
    requires NewPages(m0, d, m, data, data', lo, a, f) && 0 <= lo <= a < hi <= UPAGES &&
             forall v | lo <= v < hi :: !Present(Pte(m0, d, v))
    ensures !Present(Pte(m, d, a))
  {
    hide Pte;
  }

  lemma OutsideWider(m: Memory, m': Memory, t: set<int>, t': set<int>)
    requires Outside(m, m', t) && t <= t'
    ensures Outside(m, m', t')
  {
  }

  lemma SamePtesAt(m: Memory, d: int, m': Memory)
    requires SamePtes(m, d, m')
    ensures forall u | 0 <= u < VPAGES :: Pte(m', d, u) == Pte(m, d, u)
  {
  }

  // ---- setupkvm ----

  /** A row of kmap, in pages. */
  datatype Kmap = Kmap(virt: int, phys: int, n: int, perm: int)

  /** kmap. `data` is the page where the kernel's writable data begins, which the linker decides. */
  function KmapRow(data: int, k: int): Kmap {
    if k == 0 then Kmap(0x8_0000, 0, 0x100, PTE_W)
    else if k == 1 then Kmap(0x8_0100, 0x100, data - 0x8_0100, 0)
    else if k == 2 then Kmap(data, data - 0x8_0000, NPAGES - (data - 0x8_0000), PTE_W)
    else Kmap(0xF_E000, 0xF_E000, 0x2000, PTE_W)
  }

  predicate DataStart(data: int) {
    0x8_0100 < data < 0x8_0000 + NPAGES
  }

  /** The kernel part of every page table: physical memory from KERNBASE on, read-only in its text,
      and the devices, each at its own address. */
  function KernelPte(data: int, v: int): int {
    if 0x8_0000 <= v < 0x8_0000 + NPAGES then Entry(v - 0x8_0000, if 0x8_0100 <= v < data then 1 else 1 + PTE_W)
    else if 0xF_E000 <= v < VPAGES then Entry(v, 1 + PTE_W)
    else 0
  }

  /** What the kernel sees at virtual page v, and nobody else: physical memory from KERNBASE on, one
      page after the other, where text cannot be written, and the devices, each at its own address. */
  ghost predicate KernelSees(m: Memory, d: int, data: int, v: int) {
    var e := Pte(m, d, v);
    if 0x8_0000 <= v < 0x8_E000 then
      Present(e) && Num(e) == v - 0x8_0000 && !ForUser(e) && (Writable(e) <==> !(0x8_0100 <= v < data))
    else if v >= 0xF_E000 then Present(e) && Num(e) == v && !ForUser(e) && Writable(e)
    else !Present(e)
  }

  lemma SmallFlags()
    ensures Present(1) && !Writable(1) && !ForUser(1) && Present(3) && Writable(3) && !ForUser(3)
  {
  }

  lemma FlagBits(p: int, flags: int)
    requires flags == 1 || flags == 3
    ensures var e := Entry(p, flags); Present(e) && Num(e) == p && !ForUser(e) && (Writable(e) <==> flags == 3)
  {
    hide *;
    SmallFlags();
    EntryParts(p, flags);
    EntryBits(p, flags);
  }

  lemma KernelBits(m: Memory, d: int, data: int, v: int)
    requires Pte(m, d, v) == KernelPte(data, v) && 0 <= v < VPAGES
    ensures KernelSees(m, d, data, v)
  {
    var p := if v < 0xF_E000 then v - 0x8_0000 else v;
    FlagBits(p, 1);
    FlagBits(p, 3);
    hide Pte, Entry;
  }

  lemma KernelSeesFrom(m: Memory, d: int, data: int, i: int)
    requires 0 <= i && forall v | i <= v < VPAGES :: Pte(m, d, v) == KernelPte(data, v)
    ensures forall v | i <= v < VPAGES :: KernelSees(m, d, data, v)
  {
    hide Pte, KernelPte, KernelSees;
    forall v | i <= v < VPAGES ensures KernelSees(m, d, data, v) {
      KernelBits(m, d, data, v);
    }
  }

  /** Where the rows from k on begin. */
  function RowsFrom(data: int, k: int): int {
    if k == 0 then 0x8_0000 else if k == 1 then 0x8_0100
      else if k == 2 then data else if k == 3 then 0x8_0000 + NPAGES else VPAGES
  }

  ghost predicate KernelUpTo(m: Memory, d: int, data: int, k: int) {
    forall v | 0 <= v < VPAGES :: Pte(m, d, v) == if v < RowsFrom(data, k) then KernelPte(data, v) else 0
  }

  lemma NothingUpTo(m: Memory, d: int, data: int)
    requires forall v | 0 <= v < VPAGES :: Pte(m, d, v) == 0
    ensures KernelUpTo(m, d, data, 0)
  {
    hide Pte, Entry;
  }

  lemma KernelRow(m: Memory, d: int, data: int, k: int, m': Memory)
    requires DataStart(data) && 0 <= k < 4 && KernelUpTo(m, d, data, k)
    requires var row := KmapRow(data, k); Mapped(m, d, m', row.virt, row.virt + row.n, row.phys, row.perm)
    ensures KernelUpTo(m', d, data, k + 1)
  {
    hide Pte, Entry;
    var row := KmapRow(data, k);
    assert WithP(row.perm) == if k == 1 then 1 else 1 + PTE_W;
    forall v | 0 <= v < VPAGES ensures Pte(m', d, v) == if v < RowsFrom(data, k + 1) then KernelPte(data, v) else 0 {
      assert row.virt <= v < row.virt + row.n ==>
        KernelPte(data, v) == Entry(row.phys + (v - row.virt), WithP(row.perm));
    }
  }

  /** A zeroed page is an empty directory. */
  lemma EmptyDir(m: Memory, d: int)
    requires Shape(m) && 0 < d < NPAGES && m[d] == Filled(0)
    ensures Tables(m, d, map[d := Dir]) && forall v | 0 <= v < VPAGES :: Pte(m, d, v) == 0
  {
    var tab := map[d := Dir];
    forall x | 0 <= x < ENTRIES ensures TableOk(m, d, tab, x) {
      assert Word(m, d, x) == 0;
    }
    forall p | p in tab ensures RoleOk(m, d, p, tab[p]) {
    }
    forall v | 0 <= v < VPAGES ensures Pte(m, d, v) == 0 {
      Indexes(v, v);
      assert Word(m, d, v / ENTRIES) == 0;
    }
  }

  /** An unfinished kernel part has no user page. */
  lemma NoUserYet(m: Memory, d: int, data: int, k: int, m': Memory, row: Kmap, k': int)
    requires DataStart(data) && 0 <= k < 4 && KernelUpTo(m, d, data, k) && row == KmapRow(data, k) &&
             Mapped(m, d, m', row.virt, k', row.phys, row.perm)
    ensures Datas(m', d, map[])
  {
    hide Pte, Entry;
    forall v | 0 <= v < UPAGES ensures DataOk(m', d, map[], v) {
      assert Pte(m', d, v) == Pte(m, d, v) == 0;
    }
  }

  lemma KernelOnly(m: Memory, d: int, data: int)
    requires KernelUpTo(m, d, data, 4)
    ensures Datas(m, d, map[]) && forall v | 0 <= v < VPAGES :: Pte(m, d, v) == KernelPte(data, v)
  {
    hide Pte, Entry;
    forall v | 0 <= v < UPAGES ensures DataOk(m, d, map[], v) {
      assert Pte(m, d, v) == 0;
    }
  }

  lemma SplitIsParts(free: set<int>, tab: map<int, Role>, t: set<int>)
    requires Split(free, tab, t)
    ensures Parts(free, tab, map[], t)
  {
  }

  lemma AboveEmpty(m: Memory, d: int, data: int, k: int, row: Kmap)
    requires DataStart(data) && 0 <= k < 4 && KernelUpTo(m, d, data, k) && row == KmapRow(data, k)
    ensures 0 < row.n && UPAGES <= row.virt && row.virt + row.n <= VPAGES && 0 <= row.perm < 4096
    ensures forall v | row.virt <= v <= row.virt + row.n - 1 :: !Present(Pte(m, d, v))
  {
    hide Pte;
  }

  // ---- copyuvm ----

  /** The child's page u has the flags and the contents of the parent's, in a page of its own. */
  ghost predicate CopiedPage(m0: Memory, d0: int, m: Memory, d: int, u: int, f: set<int>) {
    var e, c := Pte(m0, d0, u), Pte(m, d, u);
    && Present(c) && Flags(c) == Flags(e) && Num(c) in f
    && 0 <= Num(c) < |m| && 0 <= Num(e) < |m0| && m[Num(c)] == m0[Num(e)]
  }

  /** User pages before i have been copied; otherwise there are only the kernel's mappings. */
  ghost predicate CopiedUpTo(m0: Memory, d0: int, m: Memory, d: int, kdata: int, i: int, f: set<int>) {
    && (forall u | 0 <= u < i :: CopiedPage(m0, d0, m, d, u, f))
    && forall u | i <= u < VPAGES :: Pte(m, d, u) == KernelPte(kdata, u)
  }

  lemma TheRestIsKernel(m0: Memory, d0: int, m: Memory, d: int, kdata: int, i: int, f: set<int>)
    requires CopiedUpTo(m0, d0, m, d, kdata, i, f) && 0 <= i
    ensures forall v | i <= v < VPAGES :: KernelSees(m, d, kdata, v)
  {
    hide Pte, KernelPte, KernelSees, CopiedPage;
    KernelSeesFrom(m, d, kdata, i);
  }

  lemma CopiedKept(m0: Memory, d0: int, m1: Memory, d: int, u: int, f: set<int>, data: map<int, int>, m2: Memory)
    requires CopiedPage(m0, d0, m1, d, u, f) && 0 <= u < UPAGES && Datas(m1, d, data) && SameData(m1, m2, data) &&
             Pte(m2, d, u) == Pte(m1, d, u)
    ensures CopiedPage(m0, d0, m2, d, u, f)
  {
    hide Pte, Num, Flags, Present;
    assert DataOk(m1, d, data, u);
    assert MappedAt(m1, d, Num(Pte(m1, d, u)), data[Num(Pte(m1, d, u))]);
  }

  lemma CopiedNew(m0: Memory, d0: int, d: int, i: int, f: set<int>, mem: int, flags: int, m2: Memory)
    requires 0 <= flags < 4096 && Present(flags) && flags == Flags(Pte(m0, d0, i)) && mem in f && 0 <= mem < |m2|
    requires Pte(m2, d, i) == Entry(mem, WithP(flags)) && 0 <= Num(Pte(m0, d0, i)) < |m0| &&
             m2[mem] == m0[Num(Pte(m0, d0, i))]
    ensures CopiedPage(m0, d0, m2, d, i, f)
  {
    hide Pte, Entry, Num, Flags, Present, WithP;
    PresentEntry(mem, flags);
  }

  lemma CopiedNext(m0: Memory, d0: int, m1: Memory, d: int, kdata: int, i: int, f: set<int>, data: map<int, int>,
                   mem: int, flags: int, m2: Memory)
    requires CopiedUpTo(m0, d0, m1, d, kdata, i, f) && 0 <= i < UPAGES && Datas(m1, d, data) && SameData(m1, m2, data)
    requires 0 <= flags < 4096 && Present(flags) && flags == Flags(Pte(m0, d0, i)) && mem in f && 0 <= mem < NPAGES
    requires OnePte(m1, d, i, Entry(mem, WithP(flags)), m2) && 0 <= Num(Pte(m0, d0, i)) < |m0| &&
             m2[mem] == m0[Num(Pte(m0, d0, i))]
    ensures CopiedUpTo(m0, d0, m2, d, kdata, i + 1, f)
  {
    hide Pte, Entry, KernelPte, Num, Flags, Present, WithP, CopiedPage, Datas;
    CopiedNew(m0, d0, d, i, f, mem, flags, m2);
    forall u | 0 <= u < i ensures CopiedPage(m0, d0, m2, d, u, f) {
      CopiedKept(m0, d0, m1, d, u, f, data, m2);
    }
  }

  /** An address space none of whose pages is in t. */
  ghost predicate Apart(m: Memory, d: int, tab: map<int, Role>, data: map<int, int>, t: set<int>) {
    Tables(m, d, tab) && Datas(m, d, data) && tab.Keys !! t && data.Keys !! t
  }

  /** It is untouched by whatever happens in t. */
  lemma ApartSame(m: Memory, d: int, tab: map<int, Role>, data: map<int, int>, t: set<int>, m': Memory)
    requires Apart(m, d, tab, data, t) && Outside(m, m', t) && Shape(m')
    ensures Apart(m', d, tab, data, t) && SamePtes(m, d, m') && SameData(m, m', data)
  {
    TablesFrame(m, d, tab, m');
    DatasFrame(m, d, data, m');
  }

  /** Reading the entry of a mapped page. */
  lemma EntryAt(m: Memory, d: int, tab: map<int, Role>, data: map<int, int>, v: int)
    requires Tables(m, d, tab) && Datas(m, d, data) && 0 <= v < UPAGES && Present(Pte(m, d, v))
    ensures 0 < d < NPAGES
    ensures var e := Word(m, d, v / ENTRIES);
      Present(e) && 0 < Num(e) < NPAGES && 0 <= v % ENTRIES < |m[Num(e)]| && m[Num(e)][v % ENTRIES] == Pte(m, d, v)
    ensures Num(Pte(m, d, v)) in data && 0 < Num(Pte(m, d, v)) < NPAGES && |m[Num(Pte(m, d, v))]| == ENTRIES
  {
    Indexes(v, v);
    var e := Word(m, d, v / ENTRIES);
    assert TableOk(m, d, tab, v / ENTRIES) && RoleOk(m, d, d, tab[d]) && DataOk(m, d, data, v);
    assert RoleOk(m, d, Num(e), tab[Num(e)]);
    assert MappedAt(m, d, Num(Pte(m, d, v)), data[Num(Pte(m, d, v))]);
  }

  lemma UnmappedPresent(m: Memory, d: int, m1: Memory, m2: Memory, lo: int, v: int)
    requires Unmapped(m, d, m1, lo, v) && OnePte(m1, d, v, 0, m2) && lo <= v < VPAGES && Present(Pte(m1, d, v))
    ensures Unmapped(m, d, m2, lo, v + 1)
  {
    hide Pte;
  }

  lemma UnmappedAbsent(m: Memory, d: int, m1: Memory, lo: int, v: int, v': int)
    requires Unmapped(m, d, m1, lo, v) && 0 <= lo <= v <= v' &&
             forall u | v <= u < v' && u < VPAGES :: !Present(Pte(m1, d, u))
    ensures Unmapped(m, d, m1, lo, v')
  {
    hide Pte;
  }

  lemma WithoutPresent(m: Memory, d: int, data: map<int, int>, data1: map<int, int>, lo: int, v: int, p: int)
    requires data1 == Without(data, lo, v) && lo <= v && p in data1 && data1[p] == v
    requires Datas(m, d, data1) && Num(Pte(m, d, v)) == p
    ensures data1 - {p} == Without(data, lo, v + 1)
  {
    hide Pte;
    forall q | q in data1 && data1[q] == v ensures q == p {
      assert MappedAt(m, d, q, data1[q]);
    }
  }

  lemma WithoutAbsent(m: Memory, d: int, data: map<int, int>, data1: map<int, int>, lo: int, v: int, v': int)
    requires data1 == Without(data, lo, v) && lo <= v <= v' && Datas(m, d, data1)
    requires forall u | v <= u < v' && 0 <= u < UPAGES :: !Present(Pte(m, d, u))
    ensures data1 == Without(data, lo, v')
  {
    hide Pte;
    forall q | q in data1 ensures !(v <= data1[q] < v') {
      assert MappedAt(m, d, q, data1[q]);
    }
  }

  /** What the walk past a missing table leaves out. */
  lemma NoTable(m: Memory, d: int, v: int, u: int)
    requires !Present(Word(m, d, v / ENTRIES)) && 0 <= v <= u < (v / ENTRIES + 1) * ENTRIES
    ensures !Present(Pte(m, d, u))
  {
    assert u / ENTRIES == v / ENTRIES;
  }

  class Machine {
    var pages: Memory
    /** kmem.freelist, 0 when there is no page. */
    var freelist: int
    ghost var chain: seq<int>
    ghost var free: set<int>

    ghost predicate Sys()
      reads this
    {
      Shape(pages) && Chain(pages, freelist, chain) && free == Elems(chain)
    }

    method Kalloc() returns (r: int)
      requires Sys()
      modifies this`freelist, this`chain, this`free
      ensures Sys() && (r == 0 <==> old(free) == {})
      ensures r == 0 ==> free == old(free)
      ensures r != 0 ==> r in old(free) && free == old(free) - {r} && 0 < r < NPAGES
    {
      Pop(pages, freelist, chain);
      hide Chain, Elems, Shape;
      r := freelist;
      if r != 0 {
        assert |pages| == NPAGES && |pages[r]| == ENTRIES by {
          ShapeAt(pages, r);
        }
        freelist := pages[r][0];
        chain := chain[1..];
        free := free - {r};
      }
    }

    method Kfree(p: int)
      requires Sys() && 0 < p < NPAGES && p !in free
      modifies this
      ensures Sys() && free == old(free) + {p} && Outside(old(pages), pages, {p})
    {
      ghost var m0 := pages;
      pages := pages[p := Filled(0x0101_0101)];
      pages := pages[p := pages[p][0 := freelist]];
      assert Outside(m0, pages, {p}) && Word(pages, p, 0) == freelist && p !in chain;
      Push(m0, freelist, chain, p, pages);
      hide Chain, Elems;
      freelist := p;
      chain := [p] + chain;
      free := free + {p};
    }

    /** A page in use gets new contents. */
    method WritePage(p: int, c: seq<int>)
      requires Sys() && 0 < p < NPAGES && p !in free && |c| == ENTRIES
      modifies this`pages
      ensures Sys() && pages == old(pages)[p := c]
    {
      ghost var m0 := pages;
      pages := pages[p := c];
      ChainFrame(m0, freelist, chain, pages);
    }

    /** A directory or table in use gets a new entry. */
    method WriteWord(p: int, i: int, w: int)
      requires Sys() && 0 < p < NPAGES && p !in free && 0 <= i < ENTRIES
      modifies this`pages
      ensures Sys() && pages == Put(old(pages), p, i, w)
    {
      ghost var m0 := pages;
      pages := pages[p := pages[p][i := w]];
      ChainFrame(m0, freelist, chain, pages);
    }

    /** A directory and its tables, in t together with the free pages. */
    ghost predicate Ok(d: int, tab: map<int, Role>, t: set<int>)
      reads this
    {
      Sys() && Tables(pages, d, tab) && Split(free, tab, t)
    }

    /** walkpgdir without alloc: the table with the entry for v, 0 if there is none. */
    method Walk(d: int, v: int) returns (t: int)
      requires Shape(pages) && 0 < d < NPAGES && 0 <= v < VPAGES
      ensures t == (if Present(Word(pages, d, v / ENTRIES)) then Num(Word(pages, d, v / ENTRIES)) else 0)
    {
      Indexes(v, v);
      var pde := pages[d][v / ENTRIES];
      t := if Present(pde) then Num(pde) else 0;
    }

    /** walkpgdir with alloc: a missing table is made from a free page; it fails when there is none,
        and then nothing has changed. */
    method WalkAlloc(d: int, v: int, ghost tab: map<int, Role>, ghost t: set<int>)
      returns (p: int, ghost tab': map<int, Role>)
      requires Ok(d, tab, t) && 0 <= v < VPAGES
      modifies this
      ensures Ok(d, tab', t) && SamePtes(old(pages), d, pages) && Outside(old(pages), pages, t) && tab.Keys <= tab'.Keys
      ensures p == 0 ==>
        pages == old(pages) && free == old(free) && tab' == tab && free == {} &&
        !Present(Word(pages, d, v / ENTRIES))
      ensures p != 0 ==> Present(Word(pages, d, v / ENTRIES)) && p == Num(Word(pages, d, v / ENTRIES)) && p in tab'
    {
      hide Tables, SamePtes, Outside, Chain, Shape, Pte;
      TableAt(pages, d, tab, v);
      Unchanged(pages, d, t);
      var pde := pages[d][v / ENTRIES];
      tab' := tab;
      if Present(pde) {
        p := Num(pde);
      } else {
        p := Kalloc();
        if p != 0 {
          tab' := NewTable(d, v, p, tab, t);
        }
      }
    }

    /** The page p, taken from the free ones, becomes the table that v lacks. */
    method NewTable(d: int, v: int, p: int, ghost tab: map<int, Role>, ghost t: set<int>)
      returns (ghost tab': map<int, Role>)
      requires Sys() && Tables(pages, d, tab) && 0 < p < NPAGES && p !in free && Split(free + {p}, tab, t)
      requires 0 <= v < VPAGES && !Present(Word(pages, d, v / ENTRIES))
      modifies this`pages
      ensures Ok(d, tab', t) && SamePtes(old(pages), d, pages) && Outside(old(pages), pages, t)
      ensures tab' == tab[p := Table(v / ENTRIES)] && Present(Word(pages, d, v / ENTRIES))
      ensures p == Num(Word(pages, d, v / ENTRIES))
    {
      hide Tables, SamePtes, Chain, Pte, Writable, ForUser, Word, Present, Num, Entry;
      AllFlags();
      TableAt(pages, d, tab, v);
      ghost var m0 := pages;
      WritePage(p, Filled(0));
      TablesFrame(m0, d, tab, pages);
      ghost var m1 := pages;
      SameWords(m0, m1, d, v / ENTRIES);
      WriteWord(d, v / ENTRIES, Entry(p, 1 + PTE_W + PTE_U));
      AddTable(m1, d, tab, v / ENTRIES, p, 1 + PTE_W + PTE_U, pages);
      SamePtesTrans(m0, d, m1, pages);
      tab' := tab[p := Table(v / ENTRIES)];
    }

    /** One round of mappages: the entry of v, absent before, is set to w. */
    method MapOne(d: int, v: int, w: int, ghost tab: map<int, Role>, ghost t: set<int>)
      returns (ok: bool, ghost tab': map<int, Role>)
      requires Ok(d, tab, t) && 0 <= v < VPAGES && !Present(Pte(pages, d, v))
      modifies this
      ensures Ok(d, tab', t) && Outside(old(pages), pages, t) && tab.Keys <= tab'.Keys
      ensures ok ==> OnePte(old(pages), d, v, w, pages)
      ensures !ok ==> pages == old(pages) && free == old(free) && tab' == tab && free == {}
    {
      var pte;
      ghost var m0 := pages;
      pte, tab' := WalkAlloc(d, v, tab, t);
      ok := pte != 0;
      if ok {
        ghost var m1 := pages;
        SetPte(m1, d, tab', v, pte, w, Put(m1, pte, v % ENTRIES, w));
        assert RoleOk(m1, d, pte, tab'[pte]);
        Indexes(v, v);
        hide Tables, SamePtes, Put, Chain;
        WriteWord(pte, v % ENTRIES, w);
        OnePteTrans(m0, d, v, w, m1, pages);
      }
    }

    /** mappages, of pages a to last to physical pages from p on, none of them mapped before. It fails
        when a table is missing and no page is free, having mapped the pages before k. */
    method Mappages(d: int, a: int, last: int, p: int, perm: int, ghost tab: map<int, Role>, ghost t: set<int>)
      returns (ok: bool, ghost k: int, ghost tab': map<int, Role>)
      requires Ok(d, tab, t) && 0 <= a <= last < VPAGES && 0 <= perm < 4096
      requires forall v | a <= v <= last :: !Present(Pte(pages, d, v))
      modifies this
      ensures Ok(d, tab', t) && Outside(old(pages), pages, t) && tab.Keys <= tab'.Keys
      ensures a <= k <= last + 1 && Mapped(old(pages), d, pages, a, k, p, perm) && (ok <==> k == last + 1)
      ensures !ok ==> free == {} && (k == a ==> pages == old(pages) && tab' == tab && free == old(free))
    {
      var v, pa := a, p;
      tab', ok := tab, true;
      ghost var m0 := pages;
      assert Outside(m0, pages, t);
      hide Tables, Pte, Chain, Shape;
      while true
        invariant a <= v <= last && pa == p + (v - a) && Ok(d, tab', t) && Outside(m0, pages, t) &&
                  tab.Keys <= tab'.Keys
        invariant Mapped(m0, d, pages, a, v, p, perm)
        invariant v == a ==> pages == m0 && tab' == tab && free == old(free)
        decreases last - v
      {
        ghost var m1 := pages;
        assert !Present(Pte(pages, d, v));
        ok, tab' := MapOne(d, v, Entry(pa, WithP(perm)), tab', t);
        if !ok {
          k := v;
          return;
        }
        MappedNext(m0, d, m1, pages, a, v, p, perm);
        if v == last {
          k := v + 1;
          return;
        }
        v, pa := v + 1, pa + 1;
      }
    }

    /** An address space: directory, tables and user pages, in t together with the free pages. */
    ghost predicate Full(d: int, tab: map<int, Role>, data: map<int, int>, t: set<int>)
      reads this
    {
      Sys() && Tables(pages, d, tab) && Datas(pages, d, data) && Parts(free, tab, data, t)
    }

    /** One present user page given back: kfree, then the entry cleared. */
    method UnmapOne(d: int, v: int, pt: int, ghost tab: map<int, Role>, ghost data: map<int, int>, ghost t: set<int>)
      returns (ghost data': map<int, int>)
      requires Full(d, tab, data, t) && 0 <= v < UPAGES && Present(Pte(pages, d, v))
      requires pt == Num(Word(pages, d, v / ENTRIES)) && Present(Word(pages, d, v / ENTRIES))
      modifies this
      ensures Full(d, tab, data', t) && OnePte(old(pages), d, v, 0, pages) && Outside(old(pages), pages, t)
      ensures Num(Pte(old(pages), d, v)) in data && data[Num(Pte(old(pages), d, v))] == v &&
              data' == data - {Num(Pte(old(pages), d, v))}
      ensures SameData(old(pages), pages, data')
    {
      Indexes(v, v);
      assert TableOk(pages, d, tab, v / ENTRIES);
      assert RoleOk(pages, d, pt, tab[pt]);
      assert DataOk(pages, d, data, v);
      ghost var m0, f0 := pages, free;
      var pa := Num(pages[pt][v % ENTRIES]);
      assert pa == Num(Pte(m0, d, v)) && MappedAt(m0, d, pa, data[pa]);
      PartsFreed(free, tab, data, t, pa);
      hide Parts, MappedAt, DataOk, RoleOk, TableOk, Pte, Num, Chain;
      Kfree(pa);
      TablesFrame(m0, d, tab, pages);
      ghost var m1 := pages;
      SetPte(m1, d, tab, v, pt, 0, Put(m1, pt, v % ENTRIES, 0));
      WriteWord(pt, v % ENTRIES, 0);
      OnePteTrans(m0, d, v, 0, m1, pages);
      UnmapUser(m0, d, data, v, pages);
      hide Tables, Datas, OnePte, Put;
      data' := data - {pa};
      assert SameData(m0, pages, data') && Outside(m0, pages, t) by {
        InParts(f0, tab, data, t, pt, pa);
      }
    }

    /** deallocuvm's loop invariant: user pages from lo to b are gone. */
    ghost predicate Dealloced(d: int, tab: map<int, Role>, data: map<int, int>, t: set<int>, m0: Memory, lo: int,
                              b: int, data': map<int, int>)
      reads this
    {
      && Full(d, tab, data', t) && Unmapped(m0, d, pages, lo, b) && data' == Without(data, lo, b)
      && Outside(m0, pages, t) && SameData(m0, pages, data')
    }

    /** One round, at page a: the next page to look at. */
    method DeallocNext(d: int, a: int, ghost hi: int, ghost tab: map<int, Role>, ghost data: map<int, int>,
                       ghost t: set<int>,
                       ghost m0: Memory, ghost lo: int, ghost data0: map<int, int>)
      returns (a': int, ghost data': map<int, int>)
      requires Dealloced(d, tab, data, t, m0, lo, a, data0) && 0 <= lo <= a < hi <= UPAGES
      modifies this
      ensures a < a' && Dealloced(d, tab, data, t, m0, lo, if a' < hi then a' else hi, data')
    {
      hide Tables, Datas, Unmapped, Without, Outside, SameData, Parts, Pte, Chain, Shape;
      TableAt(pages, d, tab, a);
      var pte := Walk(d, a);
      ghost var m1 := pages;
      data' := data0;
      a' := a;
      if pte == 0 {
        a' := (a / ENTRIES + 1) * ENTRIES - 1;
        ghost var b := if a' + 1 < hi then a' + 1 else hi;
        forall u | a <= u < b ensures !Present(Pte(pages, d, u)) {
          NoTable(pages, d, a, u);
        }
        UnmappedAbsent(m0, d, pages, lo, a, b);
        WithoutAbsent(pages, d, data, data0, lo, a, b);
      } else if Present(pages[pte][a % ENTRIES]) {
        data' := UnmapOne(d, a, pte, tab, data0, t);
        UnmappedPresent(m0, d, m1, pages, lo, a);
        WithoutPresent(m1, d, data, data0, lo, a, Num(Pte(m1, d, a)));
        SameDataTrans(m0, m1, pages, data0, data');
        OutsideTrans(m0, m1, pages, t);
      } else {
        UnmappedAbsent(m0, d, pages, lo, a, a + 1);
        WithoutAbsent(pages, d, data, data0, lo, a, a + 1);
      }
      a' := a' + 1;
    }

    /** deallocuvm: the user pages in [PGROUNDUP(newsz), oldsz) are unmapped and freed, each once, and
        nothing else changes. The skip over missing tables leaves no page out. */
    method Deallocuvm(d: int, oldsz: int, newsz: int, ghost tab: map<int, Role>, ghost data: map<int, int>,
                      ghost t: set<int>)
      returns (r: int, ghost data': map<int, int>)
      requires Full(d, tab, data, t) && 0 <= newsz && 0 <= oldsz <= KERNBASE
      modifies this
      ensures r == (if newsz >= oldsz then oldsz else newsz)
      ensures newsz >= oldsz ==> pages == old(pages) && free == old(free) && data' == data
      ensures newsz < oldsz ==> Dealloced(d, tab, data, t, old(pages), RoundUp(newsz), RoundUp(oldsz), data')
      ensures Full(d, tab, data', t)
    {
      data' := data;
      if newsz >= oldsz {
        return oldsz, data;
      }
      var a := RoundUp(newsz);
      ghost var m0, lo, hi := pages, a, RoundUp(oldsz);
      assert 0 <= lo <= hi <= UPAGES;
      assert data == Without(data, lo, lo);
      BelowSize(a, oldsz);
      hide Tables, Datas, Unmapped, Without, Outside, SameData, Parts, Chain, Shape;
      assert Dealloced(d, tab, data, t, m0, lo, lo, data') by {
        DeallocNothing(m0, d, lo, data, t);
      }
      while a * 4096 < oldsz
        invariant lo <= a && Dealloced(d, tab, data, t, m0, lo, if a < hi then a else hi, data')
        decreases hi - a
      {
        BelowSize(a, oldsz);
        a, data' := DeallocNext(d, a, hi, tab, data, t, m0, lo, data');
      }
      BelowSize(a, oldsz);
      r := newsz;
    }

    /** freevm's loop over the directory entries. */
    method FreeTables(d: int, ghost tab: map<int, Role>, ghost t: set<int>)
      requires Sys() && Tables(pages, d, tab) && Left(free, tab.Keys, t)
      modifies this
      ensures Sys() && Left(free, {d}, t) && Outside(old(pages), pages, t)
    {
      ghost var m1 := pages;
      RestEnds(m1, d, tab);
      assert Outside(m1, m1, t);
      hide Tables, Left, Chain, Shape, Rest;
      var i := 0;
      while i < ENTRIES
        invariant 0 <= i <= ENTRIES && Sys() && Left(free, Rest(tab, i), t)
        invariant Outside(m1, pages, t) && pages[d] == m1[d]
      {
        RestNext(m1, d, tab, i);
        ShapeAt(m1, d);
        var e := pages[d][i];
        if Present(e) {
          ghost var m2 := pages;
          LeftNext(free, Rest(tab, i), t, Num(e));
          Kfree(Num(e));
          OutsideMore(m1, m2, pages, t, Num(e));
        }
        i := i + 1;
      }
    }

    /** freevm: the free list gets back every page the address space was made of. */
    method Freevm(d: int, ghost tab: map<int, Role>, ghost data: map<int, int>, ghost t: set<int>)
      requires Full(d, tab, data, t)
      modifies this
      ensures Sys() && free == t && Outside(old(pages), pages, t)
    {
      ghost var m0 := pages;
      var r;
      ghost var data';
      AllGone(pages, d, data);
      r, data' := Deallocuvm(d, KERNBASE, 0, tab, data, t);
      assert data' == map[];
      ghost var m1 := pages;
      RestEnds(m1, d, tab);
      assert Left(free, tab.Keys, t);
      hide Tables, Datas, Parts, Unmapped, Without, SameData, Chain, Shape, Left;
      FreeTables(d, tab, t);
      OutsideTrans(m0, m1, pages, t);
      LeftNext(free, {d}, t, d);
      ghost var m2 := pages;
      Kfree(d);
      OutsideMore(m0, m2, pages, t, d);
      LeftNone(free, {d} - {d}, t);
    }

    /** Filling a page that is neither a table nor mapped. */
    static lemma FreshWrite(m: Memory, d: int, tab: map<int, Role>, data: map<int, int>, t: set<int>, p: int,
                            c: seq<int>)
      requires Shape(m) && Tables(m, d, tab) && Datas(m, d, data) && 0 < p < NPAGES && p !in tab && p !in data &&
               p in t && |c| == ENTRIES
      ensures |m| == NPAGES
      ensures var m1 := m[p := c];
        && Shape(m1) && m1[p] == c && Tables(m1, d, tab) && Datas(m1, d, data) && SamePtes(m, d, m1)
        && Outside(m, m1, t) && SameData(m, m1, data)
    {
      TablesFrame(m, d, tab, m[p := c]);
      DatasFrame(m, d, data, m[p := c]);
      hide Tables, Datas, SamePtes, Pte;
    }

    /** kalloc a page, fill it, map it at v: the common part of allocuvm and copyuvm. Where mapping
        fails the page is still held, in none of the parts. */
    method MapNew(d: int, v: int, c: seq<int>, perm: int, ghost tab: map<int, Role>, ghost data: map<int, int>,
                  ghost t: set<int>)
      returns (mem: int, ok: bool, ghost tab': map<int, Role>)
      requires Full(d, tab, data, t) && 0 <= v < UPAGES && !Present(Pte(pages, d, v)) && |c| == ENTRIES &&
               0 <= perm < 4096
      modifies this
      ensures Outside(old(pages), pages, t) && SameData(old(pages), pages, data) && free <= old(free)
      ensures mem == 0 ==>
        !ok && Full(d, tab', data, t) && pages == old(pages) && free == old(free) && tab' == tab && free == {}
      ensures mem != 0 ==> mem in old(free) && 0 < mem < NPAGES && mem !in free && mem in t
      ensures mem != 0 && !ok ==> Full(d, tab', data, t - {mem}) && SamePtes(old(pages), d, pages) && free == {}
      ensures ok ==>
        mem != 0 && mem !in data && Full(d, tab', data[mem := v], t) &&
        OnePte(old(pages), d, v, Entry(mem, WithP(perm)), pages) && pages[mem] == c
    {
      hide Parts, Chain, Pte, TableOk, RoleOk, DataOk, MappedAt, Num, Present, Tables, Datas, Split, Outside, SameData,
        Shape, SamePtes;
      ghost var m0, f0 := pages, free;
      tab', ok := tab, false;
      DeallocNothing(pages, d, 0, data, t);
      mem := Kalloc();
      if mem == 0 {
        return;
      }
      PartsTaken(f0, tab, data, t, mem);
      FreshWrite(m0, d, tab, data, t, mem, c);
      WritePage(mem, c);
      SamePtesAt(m0, d, pages);
      ghost var m1, tt := pages, free + tab.Keys;
      ghost var k;
      ok, k, tab' := Mappages(d, v, v, mem, perm, tab, tt);
      PartsAgain(f0, tab, data, t, mem, free, tab', v);
      MapNewFrame(f0, tab, data, t, mem, m0, m1, pages);
      if ok {
        MappedOne(m1, d, pages, v, mem, perm);
        OnePteTrans(m0, d, v, Entry(mem, WithP(perm)), m1, pages);
        EntryParts(mem, WithP(perm));
        MapUser(m1, d, data, v, mem, Entry(mem, WithP(perm)), pages);
      }
    }

    /** A page that was held goes back to the free list. */
    method GiveBack(d: int, mem: int, ghost tab: map<int, Role>, ghost data: map<int, int>, ghost t: set<int>)
      requires Full(d, tab, data, t - {mem}) && mem in t && 0 < mem < NPAGES
      modifies this
      ensures Full(d, tab, data, t) && SamePtes(old(pages), d, pages) && SameData(old(pages), pages, data) &&
              Outside(old(pages), pages, t)
    {
      ghost var m0 := pages;
      PartsBack(free, tab, data, t, mem);
      hide Parts, Chain;
      Kfree(mem);
      TablesFrame(m0, d, tab, pages);
      DatasFrame(m0, d, data, pages);
    }

    /** allocuvm's loop invariant: user pages from lo to a are new. Of the pages t, those of t1 are not held. */
    ghost predicate Alloced(d: int, tab: map<int, Role>, data: map<int, int>, t1: set<int>, t: set<int>, m0: Memory,
                            f0: set<int>,
                            lo: int, a: int, data': map<int, int>)
      reads this
    {
      && Full(d, tab, data', t1) && NewPages(m0, d, pages, data, data', lo, a, f0) && (t1 == t ==> free <= f0)
      && Outside(m0, pages, t) && SameData(m0, pages, data)
    }

    /** One page of allocuvm's loop. Where it fails, mem is the page held, if any. */
    method AllocNext(d: int, a: int, ghost tab: map<int, Role>, ghost data: map<int, int>, ghost t: set<int>,
                     ghost m0: Memory, ghost f0: set<int>, ghost lo: int, ghost data1: map<int, int>)
      returns (ok: bool, mem: int, ghost tab': map<int, Role>, ghost data': map<int, int>)
      requires Alloced(d, tab, data, t, t, m0, f0, lo, a, data1) && 0 <= lo <= a < UPAGES && !Present(Pte(pages, d, a))
      modifies this
      ensures ok ==> Alloced(d, tab', data, t, t, m0, f0, lo, a + 1, data')
      ensures !ok ==> (mem != 0 ==> mem in t && 0 < mem < NPAGES)
      ensures !ok ==> Alloced(d, tab', data, if mem == 0 then t else t - {mem}, t, m0, f0, lo, a, data1)
    {
      ghost var m1, f1 := pages, free;
      hide Parts, Tables, Datas, NewPages, Outside, SameData, Chain, Shape, OnePte, SamePtes;
      mem, ok, tab' := MapNew(d, a, Filled(0), PTE_W + PTE_U, tab, data1, t);
      data' := data1[mem := a];
      OutsideTrans(m0, m1, pages, t);
      SameDataOf(m0, m1, pages, d, m0, data, data1, lo, a, f0);
      if ok {
        NewPagesNext(m0, d, m1, data, data1, lo, a, f0, mem, pages);
      } else if mem != 0 {
        NewPagesSame(m0, d, m1, data, data1, lo, a, f0, pages);
      }
    }

    /** A failed allocuvm: what it had mapped is unmapped, what it held is freed. */
    method AllocFailed(d: int, oldsz: int, newsz: int, mem: int, ghost a: int, ghost tab: map<int, Role>,
                       ghost data: map<int, int>, ghost t1: set<int>, ghost t: set<int>,
                       ghost m0: Memory, ghost f0: set<int>, ghost data1: map<int, int>)
      requires Alloced(d, tab, data, t1, t, m0, f0, RoundUp(oldsz), a, data1) && 0 <= oldsz < newsz < KERNBASE &&
               RoundUp(oldsz) <= a <= RoundUp(newsz)
      requires t1 == (if mem == 0 then t else t - {mem}) && (mem != 0 ==> mem in t && 0 < mem < NPAGES)
      requires Datas(m0, d, data) && forall v | RoundUp(oldsz) <= v < RoundUp(newsz) :: !Present(Pte(m0, d, v))
      modifies this
      ensures Full(d, tab, data, t) && SameData(m0, pages, data) && Outside(m0, pages, t)
      ensures forall u | 0 <= u < VPAGES && !(RoundUp(oldsz) <= u < RoundUp(newsz)) :: Pte(pages, d, u) == Pte(m0, d, u)
      ensures forall u | RoundUp(oldsz) <= u < RoundUp(newsz) :: !Present(Pte(pages, d, u))
    {
      ghost var m1, lo, hi := pages, RoundUp(oldsz), RoundUp(newsz);
      assert 0 <= lo <= hi <= UPAGES;
      var r;
      ghost var data2;
      hide Parts, Tables, Datas, NewPages, Outside, SameData, Chain, Shape, SamePtes, Pte, Unmapped;
      r, data2 := Deallocuvm(d, newsz, oldsz, tab, data1, t1);
      ghost var m2 := pages;
      Undone(m0, d, m1, data, data1, lo, a, hi, f0, m2);
      assert data2 == data;
      OutsideWider(m1, m2, t1, t);
      OutsideTrans(m0, m1, m2, t);
      SameDataTrans(m0, m1, m2, data, data);
      if mem != 0 {
        GiveBack(d, mem, tab, data, t);
        OutsideTrans(m0, m2, pages, t);
        SameDataTrans(m0, m2, pages, data, data);
        SamePtesAt(m2, d, pages);
      }
    }

    /** allocuvm. On success the pages in [PGROUNDUP(oldsz), newsz) are mapped to fresh zeroed pages and
        every other mapping is as before. On failure every user mapping and the contents of every user page
        are as before; page tables made on the way may remain, and all other pages are free again. */
    method Allocuvm(d: int, oldsz: int, newsz: int, ghost tab: map<int, Role>, ghost data: map<int, int>,
                    ghost t: set<int>)
      returns (r: int, ghost ok: bool, ghost tab': map<int, Role>, ghost data': map<int, int>)
      requires Full(d, tab, data, t) && 0 <= oldsz && 0 <= newsz
      requires forall v | RoundUp(oldsz) <= v < RoundUp(newsz) :: !Present(Pte(pages, d, v))
      modifies this
      ensures newsz >= KERNBASE ==> r == 0 && !ok
      ensures newsz < KERNBASE && newsz < oldsz ==> r == oldsz && ok
      ensures newsz >= KERNBASE || newsz < oldsz ==>
        pages == old(pages) && tab' == tab && data' == data && free == old(free)
      ensures newsz < KERNBASE && newsz >= oldsz ==> r == if ok then newsz else 0
      ensures ok && newsz >= oldsz ==>
              Alloced(d, tab', data, t, t, old(pages), old(free), RoundUp(oldsz), RoundUp(newsz), data')
      ensures !ok ==> data' == data && SameData(old(pages), pages, data)
      ensures !ok && newsz < KERNBASE ==>
        && (forall u | 0 <= u < VPAGES && !(RoundUp(oldsz) <= u < RoundUp(newsz)) ::
             Pte(pages, d, u) == Pte(old(pages), d, u))
        && (forall u | RoundUp(oldsz) <= u < RoundUp(newsz) :: !Present(Pte(pages, d, u)))
      ensures Full(d, tab', data', t) && Outside(old(pages), pages, t)
    {
      hide Parts, Tables, Datas, NewPages, Outside, SameData, Chain, Shape, SamePtes, Pte;
      ghost var m0, f0 := pages, free;
      tab', data', ok := tab, data, true;
      DeallocNothing(m0, d, 0, data, t);
      if newsz >= KERNBASE {
        return 0, false, tab, data;
      }
      if newsz < oldsz {
        return oldsz, true, tab, data;
      }
      var a := RoundUp(oldsz);
      ghost var lo := a;
      assert 0 <= lo <= RoundUp(newsz) <= UPAGES;
      BelowSize(a, newsz);
      NewPagesNone(m0, d, data, lo, f0);
      while a * 4096 < newsz
        invariant lo <= a <= RoundUp(newsz) && Alloced(d, tab', data, t, t, m0, f0, lo, a, data')
      {
        BelowSize(a, newsz);
        NewPagesAbsent(m0, d, pages, data, data', lo, a, f0, RoundUp(newsz));
        var mem, next;
        ghost var tab1, data1;
        next, mem, tab1, data1 := AllocNext(d, a, tab', data, t, m0, f0, lo, data');
        if !next {
          AllocFailed(d, oldsz, newsz, mem, a, tab1, data, if mem == 0 then t else t - {mem}, t, m0, f0, data');
          return 0, false, tab1, data;
        }
        tab', data' := tab1, data1;
        BelowSize(a + 1, newsz);
        a := a + 1;
      }
      BelowSize(a, newsz);
      r := newsz;
    }

    /** A directory with nothing in it. */
    method NewDir(kdata: int, ghost t: set<int>) returns (d: int, ghost tab: map<int, Role>)
      requires Sys() && free == t && DataStart(kdata)
      modifies this
      ensures Sys() && Outside(old(pages), pages, t)
      ensures d == 0 ==> free == t
      ensures d != 0 ==> d in t && Ok(d, tab, t) && KernelUpTo(pages, d, kdata, 0)
    {
      hide Chain, Pte, KernelPte, Tables;
      tab := map[];
      d := Kalloc();
      if d != 0 {
        WritePage(d, Filled(0));
        tab := map[d := Dir];
        EmptyDir(pages, d);
        NothingUpTo(pages, d, kdata);
      }
    }

    /** setupkvm: a directory with the kernel part and nothing else; where it fails, the free pages are
        those there were before. */
    method Setupkvm(kdata: int, ghost t: set<int>) returns (d: int, ghost tab: map<int, Role>)
      requires Sys() && free == t && DataStart(kdata)
      modifies this
      ensures Sys() && Outside(old(pages), pages, t)
      ensures d == 0 ==> free == t
      ensures d != 0 ==>
        d in t && Full(d, tab, map[], t) && forall v | 0 <= v < VPAGES :: Pte(pages, d, v) == KernelPte(kdata, v)
      ensures d != 0 ==> forall v | 0 <= v < VPAGES :: KernelSees(pages, d, kdata, v)
    {
      hide Tables, Split, Outside, Chain, Shape, Mapped, KernelUpTo, Pte, KernelPte, KernelSees, Datas;
      ghost var m0 := pages;
      d, tab := NewDir(kdata, t);
      if d == 0 {
        return;
      }
      var k := 0;
      while k < 4
        invariant 0 <= k <= 4 && Ok(d, tab, t) && Outside(m0, pages, t) && KernelUpTo(pages, d, kdata, k)
      {
        var row := KmapRow(kdata, k);
        ghost var m1, reached := pages, 0;
        AboveEmpty(m1, d, kdata, k, row);
        var ok;
        ok, reached, tab := Mappages(d, row.virt, row.virt + row.n - 1, row.phys, row.perm, tab, t);
        OutsideTrans(m0, m1, pages, t);
        if !ok {
          NoUserYet(m1, d, kdata, k, pages, row, reached);
          SplitIsParts(free, tab, t);
          ghost var m2 := pages;
          Freevm(d, tab, map[], t);
          OutsideTrans(m0, m2, pages, t);
          return 0, tab;
        }
        KernelRow(m1, d, kdata, k, pages);
        k := k + 1;
      }
      KernelOnly(pages, d, kdata);
      KernelSeesFrom(pages, d, kdata, 0);
      SplitIsParts(free, tab, t);
    }

    /** The state of copyuvm's loop at page i: the child so far, and the parent as it was. */
    ghost predicate Copying(d0: int, tab0: map<int, Role>, data0: map<int, int>, m0: Memory, kdata: int, i: int,
                            d: int, tab: map<int, Role>, data: map<int, int>, t: set<int>)
      reads this
    {
      && Full(d, tab, data, t) && CopiedUpTo(m0, d0, pages, d, kdata, i, t)
      && Apart(m0, d0, tab0, data0, t) && Outside(m0, pages, t)
    }

    /** One round of copyuvm's loop. When it fails the child is gone and its pages are free. */
    method CopyNext(d0: int, i: int, d: int, ghost kdata: int, ghost tab0: map<int, Role>, ghost data0: map<int, int>,
                    ghost m0: Memory,
                    ghost tab: map<int, Role>, ghost data: map<int, int>, ghost t: set<int>)
      returns (ok: bool, ghost tab': map<int, Role>, ghost data': map<int, int>)
      requires Copying(d0, tab0, data0, m0, kdata, i, d, tab, data, t) && 0 <= i < UPAGES && Present(Pte(m0, d0, i))
      modifies this
      ensures ok ==> Copying(d0, tab0, data0, m0, kdata, i + 1, d, tab', data', t)
      ensures !ok ==> Sys() && free == t && Outside(m0, pages, t)
    {
      ghost var m1 := pages;
      ApartSame(m0, d0, tab0, data0, t, m1);
      EntryAt(m1, d0, tab0, data0, i);
      assert Pte(m1, d0, i) == Pte(m0, d0, i);
      Indexes(i, i);
      var pt := Walk(d0, i);
      var pte := pages[pt][i % ENTRIES];
      var pa, flags := Num(pte), Flags(pte);
      assert Present(flags) && 0 <= flags < 4096 by {
        FlagsPresent(pte);
      }
      var c := pages[pa];
      assert c == m0[pa];
      assert Pte(m1, d, i) == 0;
      hide Parts, Tables, Datas, Outside, SameData, Chain, Shape, SamePtes, Pte, Apart, CopiedUpTo, Num, Flags;
      var mem;
      mem, ok, tab' := MapNew(d, i, c, flags, tab, data, t);
      data' := data[mem := i];
      OutsideTrans(m0, m1, pages, t);
      if ok {
        CopiedNext(m0, d0, m1, d, kdata, i, t, data, mem, flags, pages);
      } else {
        ghost var m2 := pages;
        if mem != 0 {
          GiveBack(d, mem, tab', data, t);
          OutsideTrans(m0, m2, pages, t);
        }
        ghost var m3 := pages;
        Freevm(d, tab', data, t);
        OutsideTrans(m0, m3, pages, t);
      }
    }

    /** copyuvm, of a parent all of whose pages below sz are mapped. The parent is untouched. On success
        the child has the same flags and contents at every page below sz, in pages that were free, and
        nothing else but the kernel's mappings. On failure the free pages are those there were before. */
    method Copyuvm(d0: int, sz: int, kdata: int, ghost tab0: map<int, Role>, ghost data0: map<int, int>,
                   ghost t: set<int>)
      returns (d: int, ghost tab: map<int, Role>, ghost data: map<int, int>)
      requires Sys() && free == t && DataStart(kdata) && Apart(pages, d0, tab0, data0, t) && 0 <= sz <= KERNBASE
      requires forall v | 0 <= v < RoundUp(sz) :: Present(Pte(pages, d0, v))
      modifies this
      ensures Sys() && Outside(old(pages), pages, t) && Apart(pages, d0, tab0, data0, t)
      ensures d == 0 ==> free == t
      ensures d != 0 ==> Copying(d0, tab0, data0, old(pages), kdata, RoundUp(sz), d, tab, data, t)
      ensures d != 0 ==> forall v | RoundUp(sz) <= v < VPAGES :: KernelSees(pages, d, kdata, v)
    {
      ghost var m0 := pages;
      data := map[];
      d, tab := Setupkvm(kdata, t);
      ApartSame(m0, d0, tab0, data0, t, pages);
      if d == 0 {
        return;
      }
      assert Copying(d0, tab0, data0, m0, kdata, 0, d, tab, data, t);
      assert RoundUp(sz) <= UPAGES;
      BelowSize(0, sz);
      hide Parts, Tables, Datas, Outside, SameData, Chain, Shape, SamePtes, Pte, Apart, CopiedUpTo;
      var i := 0;
      while i * 4096 < sz
        invariant 0 <= i <= RoundUp(sz) && Copying(d0, tab0, data0, m0, kdata, i, d, tab, data, t)
      {
        BelowSize(i, sz);
        var ok;
        ok, tab, data := CopyNext(d0, i, d, kdata, tab0, data0, m0, tab, data, t);
        ShapeNow();
        ApartSame(m0, d0, tab0, data0, t, pages);
        if !ok {
          return 0, tab, data;
        }
        i := i + 1;
      }
      BelowSize(i, sz);
      ShapeNow();
      ApartSame(m0, d0, tab0, data0, t, pages);
      TheRestIsKernel(m0, d0, pages, d, kdata, i, t);
    }

    lemma ShapeNow()
      requires Sys()
      ensures Shape(pages)
    {
    }
  }

  lemma FlagsPresent(e: int)
    requires Present(e)
    ensures Present(Flags(e)) && 0 <= Flags(e) < 4096
  {
    var h := e / 4096 * 2048;
    assert e == 2 * h + e % 4096;
    Even(h, e % 4096);
  }
}
