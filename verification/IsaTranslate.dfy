/** The permission checks of the simulator's translations, and Sv32 as specified. */
module IsaTranslate {
  import opened IsaHart
  import opened IsaMmu

  datatype Access = Fetch | Load | Store
  datatype Verdict = Grant | Deny | Quit
  datatype Outcome = Ok(physical: bv32) | PageFault | Stop

  // The permission bits of an entry.
  datatype Flags = Flags(r: bool, w: bool, x: bool, u: bool) {
    predicate Allows(access: Access) {
      match access
      case Fetch => x
      case Load => r
      case Store => w
    }
  }

  function FlagsOf(pte: bv32): Flags {
    Flags(pte & PAGE_READ != 0, pte & PAGE_WRITE != 0, pte & PAGE_EXEC != 0, pte & PAGE_USER != 0)
  }

  predicate Reserved(f: Flags) {
    (f.w && !f.r && !f.x) || (f.w && !f.r && f.x)
  }

  // The checks after the walk; Quit where the source calls `error`.
  function Check(access: Access, priv: Privilege, sum: bool, f: Flags): Verdict {
    if Reserved(f) then Deny
    else if priv == 1 then
      if f.u && (access.Fetch? || !sum) then Quit
      else if !f.Allows(access) then Deny
      else Grant
    else if !(f.Allows(access) && f.u) then Deny
    else Grant
  }

  // The outcome of a translation once the walk is done.
  function Finish(access: Access, priv: Privilege, sum: bool, addr: bv32, walk: WalkResult): Outcome {
    match walk
    case Exit => Stop
    case Pte(pte) =>
      match Check(access, priv, sum, FlagsOf(pte))
      case Quit => Stop
      case Deny => PageFault
      case Grant => Ok(WithOffset(PageBase(pte), addr))
  }

  // `pgbase`, and `pgbase + pgoff`
  function PageBase(pte: bv32): bv32 {
    (pte >> 12) << 12
  }

  function WithOffset(base: bv32, addr: bv32): bv32 {
    base + (addr & 0xFFF)
  }

  function Translate(mem: Physical, satp: bv32, priv: Privilege, sum: bool, access: Access, addr: bv32): Outcome {
    if priv > 1 then Ok(addr) else Finish(access, priv, sum, addr, Walk(mem, satp, addr))
  }

  // The tests of `mmu_i_translate` and `mmu_d_translate`.
  method Checks(access: Access, priv: Privilege, sum: bool, f: Flags) returns (verdict: Verdict)
    ensures verdict == Check(access, priv, sum, f)
  {
    verdict := Grant;
    if (f.w && !f.r && !f.x) || (f.w && !f.r && f.x) {
      verdict := Deny;
    } else if priv == 1 {
      if f.u && (access.Fetch? || !sum) {
        verdict := Quit;
      } else if !f.Allows(access) {
        verdict := Deny;
      }
    } else if !(f.Allows(access) && f.u) {
      verdict := Deny;
    }
  }

  // What follows the walk.
  method FinishWalk(access: Access, priv: Privilege, sum: bool, addr: bv32, walk: WalkResult) returns (outcome: Outcome)
    ensures outcome == Finish(access, priv, sum, addr, walk)
  {
    if walk.Exit? {
      return Stop;
    }
    var pte := walk.pte;
    var verdict := Checks(access, priv, sum, FlagsOf(pte));
    match verdict
    case Quit => outcome := Stop;
    case Deny => outcome := PageFault;
    case Grant => outcome := Ok(((pte >> 12) << 12) + (addr & 0xFFF));
  }

  method Resolve(mem: Physical, satp: bv32, priv: Privilege, sum: bool, access: Access, addr: bv32)
    returns (outcome: Outcome)
    requires priv <= 1 ==> WalkEnds(mem, satp, addr)
    ensures outcome == Translate(mem, satp, priv, sum, access, addr)
  {
    if priv > 1 {
      return Ok(addr);
    }
    var walk := MmuWalk(mem, satp, addr);
    outcome := FinishWalk(access, priv, sum, addr, walk);
  }

  // Section 4.3.2, on 34-bit physical addresses, with the bits of an entry as figure 4.18 numbers them.
  datatype Rights = Rights(v: bool, r: bool, w: bool, x: bool, u: bool)

  function RightsOf(pte: bv32): Rights {
    Rights(pte & 0x01 != 0, pte & 0x02 != 0, pte & 0x04 != 0, pte & 0x08 != 0, pte & 0x10 != 0)
  }

  datatype Mapping = Unmapped | Mapped(rights: Rights, physical: bv34)
  datatype SpecEntry = SpecFault | SpecPointer(ppn: bv34) | SpecLeaf(pte: bv32)

  function ReadAt(mem: Physical, a: bv34): Option<bv32> {
    if a < 0x1_0000_0000 then mem(a as bv32) else None
  }

  // Writable but not readable: reserved.
  predicate Undefined(rights: Rights) {
    rights.w && !rights.r
  }

  // Steps 3 and 4. (An entry outside memory faults here as in the source; the specification
  // leaves that case to the access checks of the platform.)
  function SpecClassify(entry: Option<bv32>): SpecEntry {
    match entry
    case None => SpecFault
    case Some(pte) =>
      var rights := RightsOf(pte);
      if !rights.v || Undefined(rights) then SpecFault
      else if rights.r || rights.x then SpecLeaf(pte)
      else SpecPointer((pte >> 10) as bv34)
  }

  // Step 2: the entry for one part of the virtual page number.
  function SpecEntry1(satp: bv32, va: bv32): bv34 {
    (((satp & 0x3F_FFFF) as bv34) << 12) + ((va >> 22) as bv34) * 4
  }

  function SpecEntry0(ppn: bv34, va: bv32): bv34 {
    (ppn << 12) + (((va >> 12) & 0x3FF) as bv34) * 4
  }

  // Steps 6 and 8: a misaligned superpage faults; the offset comes from the virtual address.
  function SpecLarge(pte: bv32, va: bv32): Mapping {
    if (pte >> 10) & 0x3FF != 0 then Unmapped
    else Mapped(RightsOf(pte), (((pte >> 20) as bv34) << 22) | ((va & 0x3F_FFFF) as bv34))
  }

  function SpecSmall(pte: bv32, va: bv32): Mapping {
    Mapped(RightsOf(pte), (((pte >> 10) as bv34) << 12) | ((va & 0xFFF) as bv34))
  }

  function Sv32Last(entry: Option<bv32>, va: bv32): Mapping {
    match SpecClassify(entry)
    case SpecFault => Unmapped
    case SpecLeaf(pte) => SpecSmall(pte, va)
    case SpecPointer(_) => Unmapped
  }

  function Sv32First(mem: Physical, entry: Option<bv32>, va: bv32): Mapping {
    match SpecClassify(entry)
    case SpecFault => Unmapped
    case SpecLeaf(pte) => SpecLarge(pte, va)
    case SpecPointer(ppn) => Sv32Last(ReadAt(mem, SpecEntry0(ppn, va)), va)
  }

  function Sv32(mem: Physical, satp: bv32, va: bv32): Mapping {
    Sv32First(mem, ReadAt(mem, SpecEntry1(satp, va)), va)
  }

  // Step 5, without MXR and MPRV.
  predicate Permitted(access: Access, priv: Privilege, sum: bool, rights: Rights) {
    && (access.Fetch? ==> rights.x) && (access.Load? ==> rights.r) && (access.Store? ==> rights.w)
    && (if priv == 0 then rights.u else rights.u ==> !access.Fetch? && sum)
  }

  // A supervisor access to a user page, at which the simulator gives up.
  predicate SupervisorOnUser(access: Access, priv: Privilege, sum: bool, rights: Rights) {
    priv == 1 && rights.u && (access.Fetch? || !sum)
  }

  // The entry at which the simulator's walk ends, if it ends at one.
  datatype End = NoEntry | AtLeaf(pte: bv32, large: bool)

  function EndAtLevel0(entry: Option<bv32>): End {
    var found := Classify(entry);
    if found.LeafEntry? then AtLeaf(found.pte, false) else NoEntry
  }

  function EndAtLevel1(mem: Physical, entry: Option<bv32>, addr: bv32): End {
    match Classify(entry)
    case Invalid => NoEntry
    case Pointer(base) => EndAtLevel0(mem(EntryAddress0(base, addr)))
    case LeafEntry(pte) => AtLeaf(pte, true)
  }

  function EndOfWalk(mem: Physical, satp: bv32, addr: bv32): End {
    EndAtLevel1(mem, mem(EntryAddress1(RootBase(satp), addr)), addr)
  }

  // The page of the entry lies outside the memory, or beyond 32-bit addresses.
  predicate FrameFits(mem: Physical, frame: bv32) {
    frame >> 20 == 0 && mem(frame << 12).Some?
  }

  predicate Missing(mem: Physical, end: End, addr: bv32) {
    end.AtLeaf? && !FrameFits(mem, Frame(end.pte, addr, end.large))
  }

  predicate Misaligned(end: End) {
    end.AtLeaf? && end.large && (end.pte >> 10) & 0x3FF != 0
  }

  // An entry that would fault or is denied anyway.
  predicate Refused(end: End, access: Access, priv: Privilege, sum: bool) {
    end.AtLeaf? ==>
      var rights := RightsOf(end.pte);
      Undefined(rights) || (!SupervisorOnUser(access, priv, sum, rights) && !Permitted(access, priv, sum, rights))
  }

  // Page tables as the simulator expects them: the tables themselves lie within 32-bit addresses,
  // and there is no pointer at the second level.
  predicate Level1Fits(mem: Physical, entry: Option<bv32>, addr: bv32) {
    entry.Some? && Classify(entry).Pointer? ==>
      entry.value >> 30 == 0 && !Classify(mem(EntryAddress0((entry.value >> 10) << 12, addr))).Pointer?
  }

  predicate TablesFit(mem: Physical, satp: bv32, addr: bv32) {
    (satp & SATP_PPN_MASK) >> 20 == 0 && Level1Fits(mem, mem(EntryAddress1(RootBase(satp), addr)), addr)
  }

  // What the specification asks for, but for two cases that the simulator does not trap: it exits
  // on a supervisor access to a user page...
  function Required(m: Mapping, access: Access, priv: Privilege, sum: bool): Outcome {
    match m
    case Unmapped => PageFault
    case Mapped(rights, physical) =>
      if SupervisorOnUser(access, priv, sum, rights) then Stop
      else if !Permitted(access, priv, sum, rights) || physical >= 0x1_0000_0000 then PageFault
      else Ok(physical as bv32)
  }

  // ...and on any entry, usable or not, whose page is missing.
  function Expected(mem: Physical, satp: bv32, priv: Privilege, sum: bool, access: Access, addr: bv32): Outcome {
    if Missing(mem, EndOfWalk(mem, satp, addr), addr) then Stop
    else Required(Sv32(mem, satp, addr), access, priv, sum)
  }

  lemma PointerBits(pte: bv32)
    ensures IsPointer(pte) <==> pte & 0x02 == 0 && pte & 0x04 == 0 && pte & 0x08 == 0
  {
  }

  // The simulator's reading of an entry's bits is that of the specification.
  lemma FlagsAgree(pte: bv32)
    ensures
      var rights := RightsOf(pte);
      && FlagsOf(pte) == Flags(rights.r, rights.w, rights.x, rights.u)
      && Present(pte) == rights.v && IsPointer(pte) == (!rights.r && !rights.w && !rights.x)
  {
    hide IsPointer;
    PointerBits(pte);
  }

  lemma RootAgrees(satp: bv32, va: bv32, base: bv32)
    requires (satp & SATP_PPN_MASK) >> 20 == 0 && base == RootBase(satp)
    ensures SpecEntry1(satp, va) == EntryAddress1(base, va) as bv34
  {
  }

  lemma NextAgrees(pte: bv32, va: bv32)
    requires pte >> 30 == 0
    ensures SpecEntry0((pte >> 10) as bv34, va) == EntryAddress0((pte >> 10) << 12, va) as bv34
  {
  }

  lemma ReadAgrees(mem: Physical, a: bv34, b: bv32)
    requires a == b as bv34
    ensures ReadAt(mem, a) == mem(b)
  {
  }

  // The fake entry keeps the permission bits and holds the frame above them.
  lemma FakeFlags(frame: bv32, pte: bv32, fake: bv32)
    requires fake == (frame << 12) | (pte & PAGE_FLAGS)
    ensures FlagsOf(fake) == FlagsOf(pte)
  {
    assert fake & PAGE_READ == pte & PAGE_READ && fake & PAGE_WRITE == pte & PAGE_WRITE;
    assert fake & PAGE_EXEC == pte & PAGE_EXEC && fake & PAGE_USER == pte & PAGE_USER;
  }

  lemma ReservedIsFault(pte: bv32)
    requires Present(pte) && !IsPointer(pte)
    ensures SpecClassify(Some(pte)) == if Undefined(RightsOf(pte)) then SpecFault else SpecLeaf(pte)
  {
    FlagsAgree(pte);
  }

  // The checks are those of the specification, access by access and bit by bit.
  lemma CheckAgrees(access: Access, priv: Privilege, sum: bool, f: Flags, rights: Rights)
    requires priv <= 1 && f == Flags(rights.r, rights.w, rights.x, rights.u)
    ensures Check(access, priv, sum, f) ==
            if Undefined(rights) then Deny
            else if SupervisorOnUser(access, priv, sum, rights) then Quit
            else if Permitted(access, priv, sum, rights) then Grant
            else Deny
  {
  }

  lemma SmallAddress(pte: bv32, va: bv32, frame: bv32)
    requires frame == pte >> 10 && frame >> 20 == 0
    ensures (((pte >> 10) as bv34) << 12) | ((va & 0xFFF) as bv34) == ((frame << 12) + (va & 0xFFF)) as bv34
  {
  }

  lemma LargeAddress(pte: bv32, va: bv32, frame: bv32)
    requires frame == (pte >> 10) | ((va >> 12) & 0x3FF) && frame >> 20 == 0 && (pte >> 10) & 0x3FF == 0
    ensures (((pte >> 20) as bv34) << 22) | ((va & 0x3F_FFFF) as bv34) == ((frame << 12) + (va & 0xFFF)) as bv34
  {
  }

  // What the specification makes of the entry at which a walk ends...
  function SpecEnd(end: End, va: bv32): Mapping {
    match end
    case NoEntry => Unmapped
    case AtLeaf(pte, large) =>
      if Undefined(RightsOf(pte)) then Unmapped else if large then SpecLarge(pte, va) else SpecSmall(pte, va)
  }

  // ...and what the simulator does with it: the page numbers merged, whether aligned or not.
  function FrameAddress(frame: bv32, va: bv32): bv32 {
    WithOffset(frame << 12, va)
  }

  function UsedLeaf(pte: bv32, frame: bv32, va: bv32): Mapping {
    if Undefined(RightsOf(pte)) then Unmapped else Mapped(RightsOf(pte), FrameAddress(frame, va) as bv34)
  }

  function UsedEnd(end: End, va: bv32): Mapping {
    match end
    case NoEntry => Unmapped
    case AtLeaf(pte, large) => UsedLeaf(pte, Frame(pte, va, large), va)
  }

  function WalkedEnd(mem: Physical, end: End, addr: bv32): WalkResult {
    match end
    case NoEntry => Pte(0)
    case AtLeaf(pte, large) => Leaf(mem, pte, addr, large)
  }

  lemma LowAddress(a: bv32)
    ensures a as bv34 < 0x1_0000_0000 && (a as bv34) as bv32 == a
  {
  }

  lemma RequiredLow(access: Access, priv: Privilege, sum: bool, rights: Rights, a: bv32)
    ensures Required(Mapped(rights, a as bv34), access, priv, sum) ==
            if SupervisorOnUser(access, priv, sum, rights) then Stop
            else if Permitted(access, priv, sum, rights) then Ok(a)
            else PageFault
  {
    LowAddress(a);
  }

  lemma FakeBase(frame: bv32, pte: bv32, fake: bv32)
    requires fake == (frame << 12) | (pte & PAGE_FLAGS)
    ensures PageBase(fake) == frame << 12
  {
  }

  // The fake entry made from a leaf gives what the specification asks for.
  lemma FakeEntryOutcome(access: Access, priv: Privilege, sum: bool, addr: bv32, rights: Rights, fake: bv32,
                         physical: bv32)
    requires priv <= 1 && physical == WithOffset(PageBase(fake), addr)
    requires FlagsOf(fake) == Flags(rights.r, rights.w, rights.x, rights.u)
    ensures Finish(access, priv, sum, addr, Pte(fake)) ==
            Required(if Undefined(rights) then Unmapped else Mapped(rights, physical as bv34), access, priv, sum)
  {
    hide FlagsOf, Check, SupervisorOnUser, Permitted, PageBase, WithOffset;
    CheckAgrees(access, priv, sum, FlagsOf(fake), rights);
    RequiredLow(access, priv, sum, rights, physical);
  }

  lemma FakeLeafOutcome(mem: Physical, access: Access, priv: Privilege, sum: bool, addr: bv32, pte: bv32, frame: bv32)
    requires priv <= 1 && FrameFits(mem, frame)
    ensures Finish(access, priv, sum, addr, FakeLeaf(mem, frame, pte)) ==
            Required(UsedLeaf(pte, frame, addr), access, priv, sum)
  {
    hide RightsOf, FlagsOf, Finish, Required, PageBase, WithOffset;
    var fake := (frame << 12) | (pte & PAGE_FLAGS);
    FlagsAgree(pte);
    FakeFlags(frame, pte, fake);
    FakeBase(frame, pte, fake);
    FakeEntryOutcome(access, priv, sum, addr, RightsOf(pte), fake, FrameAddress(frame, addr));
  }

  lemma NothingFaults(access: Access, priv: Privilege, sum: bool, addr: bv32)
    requires priv <= 1
    ensures Finish(access, priv, sum, addr, Pte(0)) == PageFault
  {
    assert FlagsOf(0) == Flags(false, false, false, false);
  }

  lemma MissingLeaf(mem: Physical, pte: bv32, frame: bv32)
    requires !FrameFits(mem, frame)
    ensures FakeLeaf(mem, frame, pte) == Exit
  {
  }

  lemma LeafOutcome(mem: Physical, access: Access, priv: Privilege, sum: bool, addr: bv32, pte: bv32, frame: bv32)
    requires priv <= 1
    ensures Finish(access, priv, sum, addr, FakeLeaf(mem, frame, pte)) ==
            if !FrameFits(mem, frame) then Stop else Required(UsedLeaf(pte, frame, addr), access, priv, sum)
  {
    if FrameFits(mem, frame) {
      FakeLeafOutcome(mem, access, priv, sum, addr, pte, frame);
    } else {
      MissingLeaf(mem, pte, frame);
    }
  }

  lemma EndOutcome(mem: Physical, access: Access, priv: Privilege, sum: bool, addr: bv32, end: End)
    requires priv <= 1
    ensures Finish(access, priv, sum, addr, WalkedEnd(mem, end, addr)) ==
            if Missing(mem, end, addr) then Stop else Required(UsedEnd(end, addr), access, priv, sum)
  {
    match end
    case NoEntry =>
      NothingFaults(access, priv, sum, addr);
    case AtLeaf(pte, large) =>
      LeafOutcome(mem, access, priv, sum, addr, pte, Frame(pte, addr, large));
  }

  lemma LargeEnd(pte: bv32, va: bv32, frame: bv32)
    requires frame == Frame(pte, va, true) && frame >> 20 == 0 && (pte >> 10) & 0x3FF == 0
    ensures SpecLarge(pte, va) == Mapped(RightsOf(pte), FrameAddress(frame, va) as bv34)
  {
    LargeAddress(pte, va, frame);
  }

  lemma SmallFrame(pte: bv32, va: bv32)
    ensures Frame(pte, va, false) == pte >> 10
  {
  }

  lemma SmallEnd(pte: bv32, va: bv32, frame: bv32)
    requires frame == pte >> 10 && frame >> 20 == 0
    ensures SpecSmall(pte, va) == Mapped(RightsOf(pte), FrameAddress(frame, va) as bv34)
  {
    SmallAddress(pte, va, frame);
  }

  lemma AlignedLeaf(pte: bv32, large: bool, addr: bv32, frame: bv32)
    requires frame == Frame(pte, addr, large) && frame >> 20 == 0 && (large ==> (pte >> 10) & 0x3FF == 0)
    requires !Undefined(RightsOf(pte))
    ensures UsedLeaf(pte, frame, addr) == if large then SpecLarge(pte, addr) else SpecSmall(pte, addr)
  {
    if large {
      LargeEnd(pte, addr, frame);
    } else {
      SmallFrame(pte, addr);
      SmallEnd(pte, addr, frame);
    }
  }

  // On an aligned entry the two agree.
  lemma AlignedEnd(mem: Physical, end: End, addr: bv32)
    requires !Misaligned(end) && !Missing(mem, end, addr)
    ensures UsedEnd(end, addr) == SpecEnd(end, addr)
  {
    if end.AtLeaf? && !Undefined(RightsOf(end.pte)) {
      AlignedLeaf(end.pte, end.large, addr, Frame(end.pte, addr, end.large));
    }
  }

  // On a misaligned one only when the access is refused anyway.
  lemma MisalignedEnd(access: Access, priv: Privilege, sum: bool, addr: bv32, end: End)
    requires Misaligned(end)
    ensures SpecEnd(end, addr) == Unmapped
    ensures Required(UsedEnd(end, addr), access, priv, sum) == PageFault <==> Refused(end, access, priv, sum)
  {
  }

  lemma PointerAgrees(pte: bv32)
    requires Classify(Some(pte)).Pointer?
    ensures Classify(Some(pte)) == Pointer((pte >> 10) << 12) && SpecClassify(Some(pte)) == SpecPointer((pte >> 10) as bv34)
  {
    FlagsAgree(pte);
  }

  lemma Level0Agrees(entry: Option<bv32>, addr: bv32)
    requires !Classify(entry).Pointer?
    ensures Sv32Last(entry, addr) == SpecEnd(EndAtLevel0(entry), addr)
  {
    if Classify(entry).LeafEntry? {
      ReservedIsFault(entry.value);
    } else if entry.Some? {
      FlagsAgree(entry.value);
    }
  }

  lemma PointerEnd(mem: Physical, addr: bv32, pte: bv32, next: bv32)
    requires Classify(Some(pte)).Pointer? && pte >> 30 == 0 && next == EntryAddress0((pte >> 10) << 12, addr)
    requires !Classify(mem(next)).Pointer?
    ensures Sv32First(mem, Some(pte), addr) == SpecEnd(EndAtLevel0(mem(next)), addr)
  {
    PointerAgrees(pte);
    NextAgrees(pte, addr);
    ReadAgrees(mem, SpecEntry0((pte >> 10) as bv34, addr), next);
    Level0Agrees(mem(next), addr);
  }

  lemma RootInvalid(mem: Physical, entry: Option<bv32>, addr: bv32)
    requires Classify(entry).Invalid?
    ensures Sv32First(mem, entry, addr) == Unmapped
  {
    if entry.Some? {
      FlagsAgree(entry.value);
    }
  }

  lemma RootLeaf(mem: Physical, pte: bv32, addr: bv32)
    requires Present(pte) && !IsPointer(pte)
    ensures Sv32First(mem, Some(pte), addr) == SpecEnd(AtLeaf(pte, true), addr)
  {
    ReservedIsFault(pte);
  }

  lemma Level1Agrees(mem: Physical, entry: Option<bv32>, addr: bv32)
    requires Level1Fits(mem, entry, addr)
    ensures Sv32First(mem, entry, addr) == SpecEnd(EndAtLevel1(mem, entry, addr), addr)
  {
    match Classify(entry)
    case Invalid =>
      RootInvalid(mem, entry, addr);
    case LeafEntry(pte) =>
      RootLeaf(mem, pte, addr);
    case Pointer(base) =>
      PointerEnd(mem, addr, entry.value, EntryAddress0(base, addr));
  }

  lemma ModeBit(satp: bv32)
    ensures satp & SATP_MODE != 0 <==> satp >> 31 == 1
  {
  }

  // Both walks end at the same entry.
  lemma WalksAgree(mem: Physical, satp: bv32, addr: bv32)
    requires satp >> 31 == 1 && TablesFit(mem, satp, addr)
    ensures Walk(mem, satp, addr) == WalkedEnd(mem, EndOfWalk(mem, satp, addr), addr)
    ensures Sv32(mem, satp, addr) == SpecEnd(EndOfWalk(mem, satp, addr), addr)
  {
    ModeBit(satp);
    var root := EntryAddress1(RootBase(satp), addr);
    RootAgrees(satp, addr, RootBase(satp));
    ReadAgrees(mem, SpecEntry1(satp, addr), root);
    Level1Agrees(mem, mem(root), addr);
  }

  // With translation on, for every table and access: the simulator does what Sv32 asks for, the
  // leaf or superpage base with the page offset when the permission bits allow the access and a page
  // fault otherwise, or exits in the two cases above; exactly when the walk does not end at a
  // misaligned superpage that is present and not refused. Such a page is used, with the page numbers
  // merged, where Sv32 faults.
  lemma TranslationIsSv32(mem: Physical, satp: bv32, priv: Privilege, sum: bool, access: Access, addr: bv32)
    requires priv <= 1 && satp >> 31 == 1 && TablesFit(mem, satp, addr)
    ensures WalkEnds(mem, satp, addr)
    ensures
      var end := EndOfWalk(mem, satp, addr);
      && (Translate(mem, satp, priv, sum, access, addr) == Expected(mem, satp, priv, sum, access, addr) <==>
          !Misaligned(end) || Missing(mem, end, addr) || Refused(end, access, priv, sum))
      && Translate(mem, satp, priv, sum, access, addr) ==
         (if Missing(mem, end, addr) then Stop else Required(UsedEnd(end, addr), access, priv, sum))
  {
    var end := EndOfWalk(mem, satp, addr);
    FitsWalkEnds(mem, satp, addr);
    WalksAgree(mem, satp, addr);
    EndOutcome(mem, access, priv, sum, addr, end);
    if !Missing(mem, end, addr) {
      if Misaligned(end) {
        MisalignedEnd(access, priv, sum, addr, end);
      } else {
        AlignedEnd(mem, end, addr);
      }
    }
  }

  lemma FitsWalkEnds(mem: Physical, satp: bv32, addr: bv32)
    requires TablesFit(mem, satp, addr)
    ensures WalkEnds(mem, satp, addr)
  {
  }

  // Which accesses a present page grants, by the bits of its entry: those whose own bit is set, on an
  // entry that is not writable only, from user level on user pages and from supervisor level on others,
  // or on user pages for data when SUM is set.
  lemma AccessGrantedIff(mem: Physical, satp: bv32, priv: Privilege, sum: bool, access: Access, addr: bv32, pte: bv32)
    requires priv <= 1 && satp >> 31 == 1 && TablesFit(mem, satp, addr)
    requires EndOfWalk(mem, satp, addr).AtLeaf? && pte == EndOfWalk(mem, satp, addr).pte
    requires !Missing(mem, EndOfWalk(mem, satp, addr), addr)
    ensures Translate(mem, satp, priv, sum, access, addr).Ok? <==>
            && (access == Load ==> pte & 0x02 != 0)
            && (access == Store ==> pte & 0x04 != 0)
            && (access == Fetch ==> pte & 0x08 != 0)
            && (pte & 0x04 != 0 ==> pte & 0x02 != 0)
            && (priv == 0 ==> pte & 0x10 != 0)
            && (priv == 1 && pte & 0x10 != 0 ==> access != Fetch && sum)
  {
    hide Translate, TablesFit, Missing, Misaligned, Frame, EndOfWalk, FrameAddress;
    TranslationIsSv32(mem, satp, priv, sum, access, addr);
    RequiredLow(access, priv, sum, RightsOf(pte), FrameAddress(Frame(pte, addr, EndOfWalk(mem, satp, addr).large), addr));
  }

  // In bare mode the source makes up an entry without the user bit, so the address passes
  // unchanged exactly when the access is not a user's; the specification lets every access pass.
  lemma BareModeFaultsUsers(mem: Physical, satp: bv32, priv: Privilege, sum: bool, access: Access, addr: bv32)
    requires satp >> 31 == 0
    ensures Translate(mem, satp, priv, sum, access, addr) == Ok(addr) <==> priv != 0
    ensures priv == 0 ==> Translate(mem, satp, priv, sum, access, addr) == PageFault
  {
    ModeBit(satp);
    if priv <= 1 {
      BareEntry(access, priv, sum, addr, PAGE_PRESENT | PAGE_READ | PAGE_WRITE | PAGE_EXEC | ((addr >> 12) << 12));
    }
  }

  lemma BareEntry(access: Access, priv: Privilege, sum: bool, addr: bv32, pte: bv32)
    requires priv <= 1 && pte == PAGE_PRESENT | PAGE_READ | PAGE_WRITE | PAGE_EXEC | ((addr >> 12) << 12)
    ensures Finish(access, priv, sum, addr, Pte(pte)) == if priv == 1 then Ok(addr) else PageFault
  {
    BareBase(addr, pte);
    PageAndOffset(addr);
    BareFlags(addr, pte);
  }

  lemma PageAndOffset(addr: bv32)
    ensures ((addr >> 12) << 12) + (addr & 0xFFF) == addr
  {
  }

  lemma BareBase(addr: bv32, pte: bv32)
    requires pte == PAGE_PRESENT | PAGE_READ | PAGE_WRITE | PAGE_EXEC | ((addr >> 12) << 12)
    ensures (addr >> 12) << 12 == (pte >> 12) << 12
  {
  }

  lemma BareFlags(addr: bv32, pte: bv32)
    requires pte == PAGE_PRESENT | PAGE_READ | PAGE_WRITE | PAGE_EXEC | ((addr >> 12) << 12)
    ensures FlagsOf(pte) == Flags(true, true, true, false)
  {
  }
}
