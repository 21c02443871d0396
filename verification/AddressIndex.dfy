/** Finding the region a fault belongs to, and checking the range of a persist call. */
module AddressIndex {
  import opened Common
  import opened PagerState
  import opened PagerOps
  import opened PagerAccess
  import opened ManagerState

  // ---------- the ordered index ----------

  /** `k` is the greatest key not above `addr`: where stepping back from `upper_bound` lands. */
  predicate IsFloor(index: map<nat, Id>, addr: nat, k: nat) {
    k in index && k <= addr && forall j :: j in index && j <= addr ==> j <= k
  }

  lemma {:induction false} FloorExists(index: map<nat, Id>, addr: nat)
    requires exists j: nat :: j in index && j <= addr
    ensures exists k: nat :: IsFloor(index, addr, k)
    decreases |index|
  {
    var j: nat :| j in index && j <= addr;
    var rest := index - {j};
    assert forall i :: i in index ==> i == j || i in rest;
    if exists i :: i in rest && i <= addr {
      FloorExists(rest, addr);
      var k: nat :| IsFloor(rest, addr, k);
      assert IsFloor(index, addr, if j <= k then k else j);
    } else {
      assert IsFloor(index, addr, j);
    }
  }

  /** `upper_bound` followed by a step back; nothing if `upper_bound` is the first entry. */
  function StepBack(index: map<nat, Id>, addr: nat): (r: Option<nat>)
    ensures r.Some? ==> IsFloor(index, addr, r.value)
    ensures r.None? ==> forall j :: j in index ==> j > addr
  {
    if exists j: nat :: j in index && j <= addr then
      FloorExists(index, addr);
      var k: nat :| IsFloor(index, addr, k);
      Some(k)
    else None
  }

  /** The region and byte offset the fault handler works with. */
  function Lookup(m: Manager, addr: nat): (r: Option<(Id, nat)>)
    requires IndexInverse(m.regions, m.index)
  {
    var k := StepBack(m.index, addr);
    if k.None? then None else Some((m.index[k.value], addr - m.regions[m.index[k.value]].addr))
  }

  predicate Inside(m: Manager, id: Id, addr: nat) {
    id in m.regions && m.regions[id].addr <= addr < m.regions[id].addr + m.regions[id].size
  }

  /** At most one region holds an address. */
  lemma InsideUnique(m: Manager, a: Id, b: Id, addr: nat)
    requires Good(m) && Inside(m, a, addr) && Inside(m, b, addr)
    ensures a == b
  {
    SameOrApart(m.pager.regions, a, b);
  }

  lemma SameOrApart(rs: Regions, a: Id, b: Id)
    requires Separate(rs) && a in rs && b in rs
    ensures a == b || Apart(rs[a].addr, rs[a].size, rs[b].addr, rs[b].size)
  {
  }

  /** The ordered lookup finds exactly the region a scan of all regions would find. */
  lemma LookupFinds(m: Manager, addr: nat, id: Id)
    requires Good(m)
    ensures Inside(m, id, addr) <==>
            id in m.regions && Lookup(m, addr) == Some((id, addr - m.regions[id].addr)) && addr - m.regions[id].addr < m.regions[id].size
  {
    if Inside(m, id, addr) {
      var k := StepBack(m.index, addr);
      assert m.regions[id].addr in m.index;
      var f := m.index[k.value];
      assert m.regions[f].addr == k.value;
      SameOrApart(m.pager.regions, f, id);
    }
  }

  /** The lookup does not look at the region's size. It answers with an offset past the end of
      a region exactly for an address that lies in no region and above the start of one. */
  lemma LookupPastEnd(m: Manager, addr: nat)
    requires Good(m)
    ensures (Lookup(m, addr).Some? && Lookup(m, addr).value.1 >= m.regions[Lookup(m, addr).value.0].size)
            <==> (!exists id :: Inside(m, id, addr)) && (exists id :: id in m.regions && m.regions[id].addr <= addr)
    ensures Lookup(m, addr).None? <==> forall id :: id in m.regions ==> addr < m.regions[id].addr
  {
    var l := Lookup(m, addr);
    if l.Some? {
      var f := l.value.0;
      var k := StepBack(m.index, addr);
      assert m.regions[f].addr == k.value;
      if Inside(m, f, addr) {
      } else {
        forall id ensures !Inside(m, id, addr) {
          LookupFinds(m, addr, id);
        }
      }
    } else {
      forall id | id in m.regions ensures addr < m.regions[id].addr {
        assert m.regions[id].addr in m.index;
      }
    }
  }

  /** The range reported back for a fault holds the faulting address and stays in its region. */
  lemma FaultRange(m: Manager, addr: nat, id: Id, write: bool)
    requires Good(m) && Inside(m, id, addr)
    ensures Lookup(m, addr) == Some((id, addr - m.regions[id].addr))
    ensures var r := UnfixReply(m.pager, id, addr - m.regions[id].addr, write);
            m.regions[id].addr <= r.from <= addr < r.from + r.size <= m.regions[id].addr + m.regions[id].size
  {
    LookupFinds(m, addr, id);
    ReplyCovers(m.pager, id, addr - m.regions[id].addr, write);
  }

  // ---------- the composed range check ----------

  /** The client manager's test adds in 64 bits; `can_persist` then tests again by subtraction. */
  function PersistCheck(m: Manager, id: Id, off: nat, size: nat): Errno {
    if id !in m.regions then ENOENT
    else if off > m.regions[id].size || (off + size) % WORD > m.regions[id].size then EINVAL
    else CanPersist(m.pager, id, off, size)
  }

  /** For all 64-bit offsets and sizes the two tests together accept exactly the non-empty runs
      of whole pages that lie inside a mapped persistent region. */
  lemma PersistCheckExact(m: Manager, id: Id, off: nat, size: nat)
    requires Good(m) && off < WORD && size < WORD
    ensures PersistCheck(m, id, off, size) == Ok <==>
            && id in m.regions && m.pager.regions[id].persistent
            && off % PAGE_SIZE == 0 && size % PAGE_SIZE == 0 && size > 0 && off + size <= m.regions[id].size
  {
    if id in m.regions {
      assert Placed(m.pager.regions[id].addr, m.pager.regions[id].size);
      WrappedSum(off, size, m.regions[id].size);
    }
  }

  lemma WrappedSum(off: nat, size: nat, bound: nat)
    requires bound < WORD
    ensures off + size <= bound ==> (off + size) % WORD <= bound
  {
  }

  /** The first test alone is not enough: a sum that wraps passes it. */
  lemma WrappingSumPasses(regionSize: nat)
    requires 0 < regionSize < WORD
    ensures var off, size := regionSize, WORD - 1; off <= regionSize && (off + size) % WORD <= regionSize && off + size > regionSize
  {
    assert (regionSize + (WORD - 1)) % WORD == regionSize - 1;
  }

  lemma PageStride(addr: nat, off: nat, size: nat, i: nat)
    requires addr % PAGE_SIZE == 0 && off % PAGE_SIZE == 0 && size % PAGE_SIZE == 0 && i % PAGE_SIZE == 0 && i < size
    ensures i + PAGE_SIZE <= size && (addr + off + i) % PAGE_SIZE == 0
  {
    var a, b := i / PAGE_SIZE, size / PAGE_SIZE;
    assert i == a * PAGE_SIZE && size == b * PAGE_SIZE;
    assert a + 1 <= b;
  }

  lemma StrideInside(r: Region, off: nat, size: nat, i: nat)
    requires Placed(r.addr, r.size) && r.size == |r.ptes| * PAGE_SIZE && off + size <= r.size
    requires off % PAGE_SIZE == 0 && size % PAGE_SIZE == 0 && i % PAGE_SIZE == 0 && i < size
    ensures var a := r.addr + off + i; a + PAGE_SIZE <= r.addr + r.size <= WORD && a % PAGE_SIZE == 0
    ensures (off + i) / PAGE_SIZE < |r.ptes|
  {
    PageStride(r.addr, off, size, i);
    PageBounds(off + i, |r.ptes|);
  }

  lemma StrideChecked(c: CmRegion, r: Region, off: nat, size: nat, i: nat)
    requires c.addr == r.addr && c.size == r.size == |r.ptes| * PAGE_SIZE && Placed(r.addr, r.size) && off + size <= r.size
    requires off % PAGE_SIZE == 0 && size % PAGE_SIZE == 0 && i % PAGE_SIZE == 0 && i < size
    ensures PageInside(c, r, off + i)
  {
    StrideInside(r, off, size, i);
  }

  /** Every page the write-protect loop visits lies inside the region, below the address limit. */
  lemma ProtectLoopInside(m: Manager, id: Id, off: nat, size: nat, i: nat)
    requires Good(m) && off < WORD && size < WORD && PersistCheck(m, id, off, size) == Ok
    requires i < size && i % PAGE_SIZE == 0
    ensures id in m.regions && id in m.pager.regions && PageInside(m.regions[id], m.pager.regions[id], off + i)
  {
    CheckedRange(m, id, off, size);
    StrideChecked(m.regions[id], m.pager.regions[id], off, size, i);
  }

  /** A whole page begins at offset `at` of the region, and has an entry in its page table. */
  predicate PageInside(c: CmRegion, r: Region, at: nat) {
    var a := c.addr + at;
    c.addr <= a && a + PAGE_SIZE <= c.addr + c.size <= WORD && a % PAGE_SIZE == 0 && at / PAGE_SIZE < |r.ptes|
  }

  lemma CheckedRange(m: Manager, id: Id, off: nat, size: nat)
    requires Good(m) && off < WORD && size < WORD && PersistCheck(m, id, off, size) == Ok
    ensures id in m.regions && id in m.pager.regions && m.regions[id].addr == m.pager.regions[id].addr
    ensures var p := m.pager.regions[id];
            && m.regions[id].size == p.size == |p.ptes| * PAGE_SIZE && Placed(p.addr, p.size)
            && off + size <= p.size && off % PAGE_SIZE == 0 && size % PAGE_SIZE == 0
  {
    PersistCheckExact(m, id, off, size);
  }
}
