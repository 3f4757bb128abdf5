/** Address translation of the instruction set simulator (`isa_sim/riscv.cpp`, with the definitions of
    `isa_sim/riscv_isa.h`) against Sv32 (section 4.3.2 of the RISC-V privileged specification v1.11). */
module IsaMmu {
  datatype Option<T> = None | Some(value: T)

  // What `mmu_read_word` finds at a physical address.
  type Physical = bv32 -> Option<bv32>

  const PAGE_PRESENT: bv32 := 0x001
  const PAGE_READ: bv32 := 0x002
  const PAGE_WRITE: bv32 := 0x004
  const PAGE_EXEC: bv32 := 0x008
  const PAGE_USER: bv32 := 0x010
  const PAGE_FLAGS: bv32 := 0x3FF
  const SATP_MODE: bv32 := 0x8000_0000
  const SATP_PPN_MASK: bv32 := 0x003F_FFFF

  // The entry a walk returns, 0 for none; the simulator exits where it calls `error` or an
  // assertion fails.
  datatype WalkResult = Pte(pte: bv32) | Exit

  predicate IsPointer(pte: bv32) {
    pte & (PAGE_READ | PAGE_WRITE | PAGE_EXEC) == 0
  }

  predicate Present(pte: bv32) {
    pte & PAGE_PRESENT != 0
  }

  // `base + idx * MMU_PTESIZE` for the two levels.
  function EntryAddress1(base: bv32, addr: bv32): bv32 {
    base + ((addr >> 22) & 0x3FF) * 4
  }

  function EntryAddress0(base: bv32, addr: bv32): bv32 {
    base + ((addr >> 12) & 0x3FF) * 4
  }

  function RootBase(satp: bv32): bv32 {
    (satp & SATP_PPN_MASK) * 4096
  }

  // The frame of a leaf, the low part of the page number filled in for a larger page.
  function Frame(pte: bv32, addr: bv32, large: bool): bv32 {
    (pte >> 10) | ((addr >> 12) & (if large then 0x3FF else 0))
  }

  // The leaf branch: a fake entry for the 4 KB page, if that page exists in memory.
  function FakeLeaf(mem: Physical, frame: bv32, pte: bv32): WalkResult {
    if frame >> 20 != 0 then Exit
    else if mem(frame << 12).None? then Exit
    else Pte((frame << 12) | (pte & PAGE_FLAGS))
  }

  function Leaf(mem: Physical, pte: bv32, addr: bv32, large: bool): WalkResult {
    FakeLeaf(mem, Frame(pte, addr, large), pte)
  }

  // What a page table entry turns out to be.
  datatype Entry = Invalid | Pointer(base: bv32) | LeafEntry(pte: bv32)

  function Classify(entry: Option<bv32>): Entry {
    match entry
    case None => Invalid
    case Some(pte) =>
      if !Present(pte) then Invalid else if IsPointer(pte) then Pointer((pte >> 10) << 12) else LeafEntry(pte)
  }

  function WalkLevel0(mem: Physical, entry: Entry, addr: bv32): WalkResult {
    if entry.LeafEntry? then Leaf(mem, entry.pte, addr, false) else Pte(0)
  }

  function WalkLevel1(mem: Physical, entry: Entry, addr: bv32): WalkResult {
    match entry
    case Invalid => Pte(0)
    case Pointer(base) => WalkLevel0(mem, Classify(mem(EntryAddress0(base, addr))), addr)
    case LeafEntry(pte) => Leaf(mem, pte, addr, true)
  }

  function RootEntry(mem: Physical, satp: bv32, addr: bv32): Entry {
    Classify(mem(EntryAddress1(RootBase(satp), addr)))
  }

  function Walk(mem: Physical, satp: bv32, addr: bv32): WalkResult {
    if satp & SATP_MODE == 0 then
      Pte(PAGE_PRESENT | PAGE_READ | PAGE_WRITE | PAGE_EXEC | ((addr >> 12) << 12))
    else WalkLevel1(mem, RootEntry(mem, satp, addr), addr)
  }

  // The walk ends by the second level: an entry there is a leaf or invalid. (The loop of the
  // source has no other bound.)
  predicate WalkEnds(mem: Physical, satp: bv32, addr: bv32) {
    var root := RootEntry(mem, satp, addr);
    satp & SATP_MODE != 0 && root.Pointer? ==> !Classify(mem(EntryAddress0(root.base, addr))).Pointer?
  }

  // The tests on one entry.
  method ReadEntry(mem: Physical, address: bv32) returns (found: Entry)
    ensures found == Classify(mem(address))
  {
    var entry := mem(address);
    if entry.None? {
      return Invalid;
    }
    var pte := entry.value;
    if pte & PAGE_PRESENT == 0 {
      found := Invalid;
    } else if pte & (PAGE_READ | PAGE_WRITE | PAGE_EXEC) == 0 {
      found := Pointer((pte >> 10) << 12);
    } else {
      found := LeafEntry(pte);
    }
  }

  // `mmu_walk`
  method MmuWalk(mem: Physical, satp: bv32, addr: bv32) returns (r: WalkResult)
    requires WalkEnds(mem, satp, addr)
    ensures r == Walk(mem, satp, addr)
  {
    if satp & SATP_MODE == 0 {
      return Pte(PAGE_PRESENT | PAGE_READ | PAGE_WRITE | PAGE_EXEC | ((addr >> 12) << 12));
    }
    var base := RootBase(satp);
    var level := 1;
    ghost var root := RootEntry(mem, satp, addr);
    while true
      invariant 0 <= level <= 1
      invariant level == 1 ==> base == RootBase(satp)
      invariant level == 0 ==> root == Pointer(base)
      decreases level
    {
      var found := ReadEntry(mem, if level == 1 then EntryAddress1(base, addr) else EntryAddress0(base, addr));
      if found.Invalid? {
        return Pte(0);
      } else if found.LeafEntry? {
        return Leaf(mem, found.pte, addr, level == 1);
      }
      base := found.base;
      level := level - 1;
    }
  }
}
