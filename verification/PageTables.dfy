/** Two-level page tables in physical memory, counted in pages of 1024 words: what an address
    space maps, and which physical pages it is made of. */
module PageTables {
  const NPAGES: int := 0xE000
  /** Entries of a page directory, and of a page table. */
  const ENTRIES: int := 1024
  /** Pages below KERNBASE. */
  const UPAGES: int := 0x8_0000
  /** Pages of the 32-bit address space. */
  const VPAGES: int := 0x10_0000

  type Memory = seq<seq<int>>

  ghost predicate Shape(m: Memory) {
    |m| == NPAGES && forall p | 0 <= p < NPAGES :: |m[p]| == ENTRIES
  }

  function Word(m: Memory, p: int, i: int): int {
    if 0 <= p < |m| && 0 <= i < |m[p]| then m[p][i] else 0
  }

  function Put(m: Memory, p: int, i: int, w: int): Memory {
    if 0 <= p < |m| && 0 <= i < |m[p]| then m[p := m[p][i := w]] else m
  }

  lemma PutGet(m: Memory, p: int, i: int, w: int)
    requires Shape(m) && 0 <= p < NPAGES && 0 <= i < ENTRIES
    ensures Shape(Put(m, p, i, w)) && Word(Put(m, p, i, w), p, i) == w
    ensures forall q, j :: (q, j) != (p, i) ==> Word(Put(m, p, i, w), q, j) == Word(m, q, j)
    ensures forall q | 0 <= q < NPAGES && q != p :: Put(m, p, i, w)[q] == m[q]
  {
  }

  /** An entry: page number, and 12 flag bits of which the lowest says that it is present. */
  function Entry(p: int, flags: int): int {
    p * 4096 + flags
  }

  predicate Present(e: int) {
    e % 2 == 1
  }

  predicate Writable(e: int) {
    e / 2 % 2 == 1
  }

  /** Open to user programs. */
  predicate ForUser(e: int) {
    e / 4 % 2 == 1
  }

  function Num(e: int): int {
    e / 4096
  }

  function Flags(e: int): int {
    e % 4096
  }

  /** perm | PTE_P */
  function WithP(perm: int): (f: int)
    requires 0 <= perm < 4096
    ensures 0 <= f < 4096 && Present(f) && (Present(perm) ==> f == perm)
  {
    if Present(perm) then perm else perm + 1
  }

  lemma SplitAt4096(p: int, f: int)
    requires 0 <= f < 4096
    ensures (p * 4096 + f) / 4096 == p && (p * 4096 + f) % 4096 == f
  {
  }

  lemma Even(h: int, f: int)
    ensures (2 * h + f) % 2 == f % 2
  {
  }

  lemma EntryParts(p: int, flags: int)
    requires 0 <= flags < 4096
    ensures Num(Entry(p, flags)) == p && Flags(Entry(p, flags)) == flags && Present(Entry(p, flags)) == Present(flags)
  {
    SplitAt4096(p, flags);
    Even(p * 2048, flags);
    assert 2 * (p * 2048) + flags == p * 4096 + flags;
    hide *;
  }

  /** The flag bits of an entry are those of its flags. */
  lemma EntryBits(p: int, flags: int)
    requires 0 <= flags < 4096
    ensures Writable(Entry(p, flags)) == Writable(flags) && ForUser(Entry(p, flags)) == ForUser(flags)
  {
    var e := Entry(p, flags);
    assert e == 2 * (2048 * p) + flags && e == 4 * (1024 * p) + flags;
    assert e / 2 == 2048 * p + flags / 2 == 2 * (1024 * p) + flags / 2;
    assert e / 4 == 1024 * p + flags / 4 == 2 * (512 * p) + flags / 4;
    Even(1024 * p, flags / 2);
    Even(512 * p, flags / 4);
  }

  lemma PresentEntry(p: int, perm: int)
    requires 0 <= perm < 4096 && Present(perm)
    ensures Num(Entry(p, WithP(perm))) == p && Flags(Entry(p, WithP(perm))) == perm && Present(Entry(p, WithP(perm)))
  {
    EntryParts(p, WithP(perm));
    hide Num, Flags, Entry;
  }

  /** The page table entry of virtual page v, 0 if there is no table for it. */
  function Pte(m: Memory, d: int, v: int): int {
    var e := Word(m, d, v / ENTRIES);
    if Present(e) then Word(m, Num(e), v % ENTRIES) else 0
  }

  /** What a physical page is to the page directory it serves: the directory, or the table of entry x. */
  datatype Role = Dir | Table(x: int)

  /** A table that is present is in tab; the directory lets everybody through to its entries. */
  ghost predicate TableOk(m: Memory, d: int, tab: map<int, Role>, x: int) {
    Present(Word(m, d, x)) ==>
      && Num(Word(m, d, x)) in tab && tab[Num(Word(m, d, x))] == Table(x)
      && Writable(Word(m, d, x)) && ForUser(Word(m, d, x))
  }

  ghost predicate RoleOk(m: Memory, d: int, p: int, r: Role) {
    && 0 < p < NPAGES
    && match r
       case Dir => p == d
       case Table(x) => 0 <= x < ENTRIES && Present(Word(m, d, x)) && Num(Word(m, d, x)) == p
  }

  /** Page directory d and its page tables are exactly the pages of tab, and none serves twice. */
  ghost predicate Tables(m: Memory, d: int, tab: map<int, Role>) {
    && Shape(m) && d in tab && tab[d] == Dir
    && (forall x | 0 <= x < ENTRIES :: TableOk(m, d, tab, x))
    && (forall p | p in tab :: RoleOk(m, d, p, tab[p]))
  }

  ghost predicate DataOk(m: Memory, d: int, data: map<int, int>, v: int) {
    Present(Pte(m, d, v)) ==> Num(Pte(m, d, v)) in data && data[Num(Pte(m, d, v))] == v
  }

  ghost predicate MappedAt(m: Memory, d: int, p: int, v: int) {
    0 < p < NPAGES && 0 <= v < UPAGES && Present(Pte(m, d, v)) && Num(Pte(m, d, v)) == p
  }

  /** The user pages mapped are exactly those of data, each at one address. */
  ghost predicate Datas(m: Memory, d: int, data: map<int, int>) {
    && (forall v | 0 <= v < UPAGES :: DataOk(m, d, data, v))
    && (forall p | p in data :: MappedAt(m, d, p, data[p]))
  }

  /** Where two virtual pages share a table they have different entries in it. */
  lemma Indexes(v: int, w: int)
    ensures v / ENTRIES == w / ENTRIES && v % ENTRIES == w % ENTRIES ==> v == w
    ensures 0 <= v < VPAGES ==> 0 <= v / ENTRIES < ENTRIES
    ensures 0 <= v % ENTRIES < ENTRIES
  {
  }

  /** The table of virtual page v, if there is one, holds its entry. */
  lemma TableAt(m: Memory, d: int, tab: map<int, Role>, v: int)
    requires Tables(m, d, tab) && 0 <= v < VPAGES
    ensures Shape(m) && 0 < d < NPAGES == |m| && 0 <= v % ENTRIES < ENTRIES && d in tab
    ensures 0 <= v / ENTRIES < ENTRIES == |m[d]| && m[d][v / ENTRIES] == Word(m, d, v / ENTRIES)
    ensures var e := Word(m, d, v / ENTRIES);
            Present(e) ==>
              && 0 < Num(e) < NPAGES && Num(e) in tab && |m[Num(e)]| == ENTRIES
              && m[Num(e)][v % ENTRIES] == Pte(m, d, v)
  {
    hide Writable, ForUser;
    Indexes(v, v);
    assert RoleOk(m, d, d, tab[d]) && TableOk(m, d, tab, v / ENTRIES);
    var e := Word(m, d, v / ENTRIES);
    assert Present(e) ==> RoleOk(m, d, Num(e), tab[Num(e)]);
  }

  ghost predicate SamePtes(m: Memory, d: int, m': Memory) {
    forall v | 0 <= v < VPAGES :: Pte(m', d, v) == Pte(m, d, v)
  }

  /** A directory and its tables depend on themselves alone. */
  lemma TablesFrame(m: Memory, d: int, tab: map<int, Role>, m': Memory)
    requires Tables(m, d, tab) && Shape(m')
    requires forall p | p in tab :: 0 <= p < NPAGES ==> m'[p] == m[p]
    ensures Tables(m', d, tab) && SamePtes(m, d, m')
  {
    hide Writable, ForUser;
    assert RoleOk(m, d, d, tab[d]);
    assert forall x :: Word(m', d, x) == Word(m, d, x);
    forall v | 0 <= v < VPAGES ensures Pte(m', d, v) == Pte(m, d, v) {
      Indexes(v, v);
      assert TableOk(m, d, tab, v / ENTRIES);
      var t := Num(Word(m, d, v / ENTRIES));
      assert t in tab ==> RoleOk(m, d, t, tab[t]);
    }
    DirFrame(m, d, tab, m');
  }

  /** Which pages are tables is told by the directory. */
  lemma DirFrame(m: Memory, d: int, tab: map<int, Role>, m': Memory)
    requires Tables(m, d, tab) && Shape(m') && forall x :: Word(m', d, x) == Word(m, d, x)
    ensures Tables(m', d, tab)
  {
    hide Writable, ForUser;
    forall x | 0 <= x < ENTRIES ensures TableOk(m', d, tab, x) {
      assert TableOk(m, d, tab, x);
    }
    forall p | p in tab ensures RoleOk(m', d, p, tab[p]) {
      assert RoleOk(m, d, p, tab[p]);
    }
  }

  lemma DatasFrame(m: Memory, d: int, data: map<int, int>, m': Memory)
    requires Datas(m, d, data) && SamePtes(m, d, m')
    ensures Datas(m', d, data)
  {
    hide Pte;
    forall v | 0 <= v < UPAGES ensures DataOk(m', d, data, v) {
      assert DataOk(m, d, data, v);
    }
    forall p | p in data ensures MappedAt(m', d, p, data[p]) {
      assert MappedAt(m, d, p, data[p]);
    }
  }

  /** A zeroed page becomes the table of directory entry x: nothing more is mapped. */
  lemma AddTable(m: Memory, d: int, tab: map<int, Role>, x: int, t: int, flags: int, m': Memory)
    requires Tables(m, d, tab) && 0 <= x < ENTRIES && !Present(Word(m, d, x)) && 0 < t < NPAGES && t !in tab
    requires forall i | 0 <= i < ENTRIES :: m[t][i] == 0
    requires 0 <= flags < 4096 && Present(flags) && Writable(flags) && ForUser(flags)
    requires m' == Put(m, d, x, Entry(t, flags))
    ensures Tables(m', d, tab[t := Table(x)]) && SamePtes(m, d, m')
    ensures Present(Word(m', d, x)) && Num(Word(m', d, x)) == t
    ensures forall p | 0 <= p < NPAGES && p != d :: m'[p] == m[p]
  {
    hide Writable, ForUser;
    assert RoleOk(m, d, d, tab[d]);
    PutGet(m, d, x, Entry(t, flags));
    EntryParts(t, flags);
    EntryBits(t, flags);
    var tab' := tab[t := Table(x)];
    forall v | 0 <= v < VPAGES ensures Pte(m', d, v) == Pte(m, d, v) {
      Indexes(v, v);
      if v / ENTRIES == x {
        assert Word(m', t, v % ENTRIES) == Word(m, t, v % ENTRIES) == 0;
      } else {
        assert TableOk(m, d, tab, v / ENTRIES);
      }
    }
    hide Pte, Put, Entry;
    forall y | 0 <= y < ENTRIES ensures TableOk(m', d, tab', y) {
      assert TableOk(m, d, tab, y);
    }
    forall p | p in tab' ensures RoleOk(m', d, p, tab'[p]) {
      if p != t {
        assert RoleOk(m, d, p, tab[p]);
      }
    }
  }

  /** m' differs from m in the entry of virtual page v alone, which is w there. */
  ghost predicate OnePte(m: Memory, d: int, v: int, w: int, m': Memory) {
    && Shape(m') && Pte(m', d, v) == w
    && forall u | 0 <= u < VPAGES && u != v :: Pte(m', d, u) == Pte(m, d, u)
  }

  /** Entry v of its table set to w. */
  lemma SetPte(m: Memory, d: int, tab: map<int, Role>, v: int, t: int, w: int, m': Memory)
    requires Tables(m, d, tab) && 0 <= v < VPAGES && Present(Word(m, d, v / ENTRIES)) &&
             t == Num(Word(m, d, v / ENTRIES))
    requires m' == Put(m, t, v % ENTRIES, w)
    ensures OnePte(m, d, v, w, m') && Tables(m', d, tab) && t in tab
    ensures forall p | 0 <= p < NPAGES && p != t :: m'[p] == m[p]
  {
    hide Writable, ForUser;
    Indexes(v, v);
    assert TableOk(m, d, tab, v / ENTRIES) && RoleOk(m, d, t, tab[t]);
    PutGet(m, t, v % ENTRIES, w);
    forall u | 0 <= u < VPAGES && u != v ensures Pte(m', d, u) == Pte(m, d, u) {
      Indexes(u, v);
      Indexes(u, u);
      assert TableOk(m, d, tab, u / ENTRIES);
    }
    DirFrame(m, d, tab, m');
  }

  /** Mapping virtual page v, which was absent, to a page that is mapped nowhere else. */
  lemma MapUser(m: Memory, d: int, data: map<int, int>, v: int, p: int, w: int, m': Memory)
    requires Datas(m, d, data) && 0 <= v < UPAGES && !Present(Pte(m, d, v)) && 0 < p < NPAGES && p !in data
    requires Present(w) && Num(w) == p && OnePte(m, d, v, w, m')
    ensures Datas(m', d, data[p := v])
  {
    var data' := data[p := v];
    hide Pte;
    forall u | 0 <= u < UPAGES ensures DataOk(m', d, data', u) {
      assert DataOk(m, d, data, u);
    }
    forall q | q in data' ensures MappedAt(m', d, q, data'[q]) {
      if q != p {
        assert MappedAt(m, d, q, data[q]);
      }
    }
  }

  lemma UnmapUser(m: Memory, d: int, data: map<int, int>, v: int, m': Memory)
    requires Datas(m, d, data) && 0 <= v < UPAGES && Present(Pte(m, d, v)) && OnePte(m, d, v, 0, m')
    ensures var p := Num(Pte(m, d, v)); p in data && data[p] == v && 0 < p < NPAGES && Datas(m', d, data - {p})
  {
    var p := Num(Pte(m, d, v));
    var data' := data - {p};
    assert DataOk(m, d, data, v) && MappedAt(m, d, p, data[p]);
    hide Pte;
    forall u | 0 <= u < UPAGES ensures DataOk(m', d, data', u) {
      assert DataOk(m, d, data, u);
    }
    forall q | q in data' ensures MappedAt(m', d, q, data'[q]) {
      assert MappedAt(m, d, q, data[q]);
    }
  }
}
