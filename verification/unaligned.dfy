/**
 machine/translate.cc and machine/mipssim.cc: words at addresses that are no multiple of 4, which MIPS
 programs store with SWR and SWL and load with LWR and LWL, through a page table and with
 loads that take effect one instruction late. This is the SIM_FIX variant of the code.
 */
module UnalignedAccess {
  import opened Words

  /** Pages are 128 bytes long, and there are this many frames for them. */
  const NUM_PHYS_PAGES := 128
  const NUM_GP_REGS := 32

  lemma SameWord(v: bv32, w: bv32)
    requires forall k: nat :: k < 4 ==> Byte(v, k) == Byte(w, k)
    ensures v == w
  {
    assert Byte(v, 0) == Byte(w, 0) && Byte(v, 1) == Byte(w, 1) && Byte(v, 2) == Byte(w, 2) && Byte(v, 3) == Byte(w, 3);
  }

  // ----- How each instruction merges a register with the word in memory; `byte` is the address modulo 4 -----

  function MergeSWR(value: bv32, reg: bv32, byte: nat): bv32 {
    match 3 - byte
    case 0 => (value & 0xffffff) | (reg << 24)
    case 1 => (value & 0xffff) | (reg << 16)
    case 2 => (value & 0xff) | (reg << 8)
    case _ => reg
  }

  function MergeSWL(value: bv32, reg: bv32, byte: nat): bv32 {
    match 3 - byte
    case 0 => reg
    case 1 => (value & 0xff000000) | ((reg >> 8) & 0xffffff)
    case 2 => (value & 0xffff0000) | ((reg >> 16) & 0xffff)
    case _ => (value & 0xffffff00) | ((reg >> 24) & 0xff)
  }

  function MergeLWR(value: bv32, reg: bv32, byte: nat): bv32 {
    match 3 - byte
    case 0 => (reg & 0xffffff00) | ((value >> 24) & 0xff)
    case 1 => (reg & 0xffff0000) | ((value >> 16) & 0xffff)
    case 2 => (reg & 0xff000000) | ((value >> 8) & 0xffffff)
    case _ => value
  }

  function MergeLWL(value: bv32, reg: bv32, byte: nat): bv32 {
    match 3 - byte
    case 0 => value
    case 1 => (reg & 0xff) | (value << 8)
    case 2 => (reg & 0xffff) | (value << 16)
    case _ => (reg & 0xffffff) | (value << 24)
  }

  lemma SWR0(v: bv32, r: bv32, w: bv32)
    requires w == MergeSWR(v, r, 0)
    ensures Byte(w, 0) == Byte(r, 0) && Byte(w, 1) == Byte(r, 1) && Byte(w, 2) == Byte(r, 2) && Byte(w, 3) == Byte(r, 3)
  {
  }

  lemma SWR1(v: bv32, r: bv32, w: bv32)
    requires w == MergeSWR(v, r, 1)
    ensures Byte(w, 0) == Byte(v, 0) && Byte(w, 1) == Byte(r, 0) && Byte(w, 2) == Byte(r, 1) && Byte(w, 3) == Byte(r, 2)
  {
  }

  lemma SWR2(v: bv32, r: bv32, w: bv32)
    requires w == MergeSWR(v, r, 2)
    ensures Byte(w, 0) == Byte(v, 0) && Byte(w, 1) == Byte(v, 1) && Byte(w, 2) == Byte(r, 0) && Byte(w, 3) == Byte(r, 1)
  {
  }

  lemma SWR3(v: bv32, r: bv32, w: bv32)
    requires w == MergeSWR(v, r, 3)
    ensures Byte(w, 0) == Byte(v, 0) && Byte(w, 1) == Byte(v, 1) && Byte(w, 2) == Byte(v, 2) && Byte(w, 3) == Byte(r, 0)
  {
  }

  /** SWR stores the low bytes of the register, from the addressed byte up. */
  lemma SWRBytes(value: bv32, reg: bv32, byte: nat, k: nat)
    requires byte < 4 && k < 4
    ensures Byte(MergeSWR(value, reg, byte), k) == if k >= byte then Byte(reg, k - byte) else Byte(value, k)
  {
    hide Byte, MergeSWR;
    var w := MergeSWR(value, reg, byte);
    match byte
    case 0 => SWR0(value, reg, w);
    case 1 => SWR1(value, reg, w);
    case 2 => SWR2(value, reg, w);
    case _ => SWR3(value, reg, w);
  }

  lemma SWL0(v: bv32, r: bv32, w: bv32)
    requires w == MergeSWL(v, r, 0)
    ensures Byte(w, 0) == Byte(r, 3) && Byte(w, 1) == Byte(v, 1) && Byte(w, 2) == Byte(v, 2) && Byte(w, 3) == Byte(v, 3)
  {
    LowByte(v, (r >> 24) & 0xff);
  }

  lemma LowByte(v: bv32, b: bv32)
    requires b & 0xff == b
    ensures ((v & 0xffffff00) | b) & 0xff == b
    ensures (((v & 0xffffff00) | b) >> 8) == v >> 8
  {
  }

  lemma SWL1(v: bv32, r: bv32, w: bv32)
    requires w == MergeSWL(v, r, 1)
    ensures Byte(w, 0) == Byte(r, 2) && Byte(w, 1) == Byte(r, 3) && Byte(w, 2) == Byte(v, 2) && Byte(w, 3) == Byte(v, 3)
  {
  }

  lemma SWL2(v: bv32, r: bv32, w: bv32)
    requires w == MergeSWL(v, r, 2)
    ensures Byte(w, 0) == Byte(r, 1) && Byte(w, 1) == Byte(r, 2) && Byte(w, 2) == Byte(r, 3) && Byte(w, 3) == Byte(v, 3)
  {
  }

  lemma SWL3(v: bv32, r: bv32, w: bv32)
    requires w == MergeSWL(v, r, 3)
    ensures Byte(w, 0) == Byte(r, 0) && Byte(w, 1) == Byte(r, 1) && Byte(w, 2) == Byte(r, 2) && Byte(w, 3) == Byte(r, 3)
  {
  }

  /** SWL stores the high bytes of the register, from the addressed byte down. */
  lemma SWLBytes(value: bv32, reg: bv32, byte: nat, k: nat)
    requires byte < 4 && k < 4
    ensures Byte(MergeSWL(value, reg, byte), k) == if k <= byte then Byte(reg, k + 3 - byte) else Byte(value, k)
  {
    hide Byte, MergeSWL;
    var w := MergeSWL(value, reg, byte);
    match byte
    case 0 => SWL0(value, reg, w);
    case 1 => SWL1(value, reg, w);
    case 2 => SWL2(value, reg, w);
    case _ => SWL3(value, reg, w);
  }

  lemma LWR0(v: bv32, r: bv32, w: bv32)
    requires w == MergeLWR(v, r, 0)
    ensures Byte(w, 0) == Byte(v, 0) && Byte(w, 1) == Byte(v, 1) && Byte(w, 2) == Byte(v, 2) && Byte(w, 3) == Byte(v, 3)
  {
  }

  lemma LWR1(v: bv32, r: bv32, w: bv32)
    requires w == MergeLWR(v, r, 1)
    ensures Byte(w, 0) == Byte(v, 1) && Byte(w, 1) == Byte(v, 2) && Byte(w, 2) == Byte(v, 3) && Byte(w, 3) == Byte(r, 3)
  {
  }

  lemma LWR2(v: bv32, r: bv32, w: bv32)
    requires w == MergeLWR(v, r, 2)
    ensures Byte(w, 0) == Byte(v, 2) && Byte(w, 1) == Byte(v, 3) && Byte(w, 2) == Byte(r, 2) && Byte(w, 3) == Byte(r, 3)
  {
  }

  lemma LWR3(v: bv32, r: bv32, w: bv32)
    requires w == MergeLWR(v, r, 3)
    ensures Byte(w, 0) == Byte(v, 3) && Byte(w, 1) == Byte(r, 1) && Byte(w, 2) == Byte(r, 2) && Byte(w, 3) == Byte(r, 3)
  {
  }

  /** LWR loads the low bytes of the register, from the addressed byte up. */
  lemma LWRBytes(value: bv32, reg: bv32, byte: nat, k: nat)
    requires byte < 4 && k < 4
    ensures Byte(MergeLWR(value, reg, byte), k) == if k < 4 - byte then Byte(value, k + byte) else Byte(reg, k)
  {
    hide Byte, MergeLWR;
    var w := MergeLWR(value, reg, byte);
    match byte
    case 0 => LWR0(value, reg, w);
    case 1 => LWR1(value, reg, w);
    case 2 => LWR2(value, reg, w);
    case _ => LWR3(value, reg, w);
  }

  lemma LWL0(v: bv32, r: bv32, w: bv32)
    requires w == MergeLWL(v, r, 0)
    ensures Byte(w, 0) == Byte(r, 0) && Byte(w, 1) == Byte(r, 1) && Byte(w, 2) == Byte(r, 2) && Byte(w, 3) == Byte(v, 0)
  {
  }

  lemma LWL1(v: bv32, r: bv32, w: bv32)
    requires w == MergeLWL(v, r, 1)
    ensures Byte(w, 0) == Byte(r, 0) && Byte(w, 1) == Byte(r, 1) && Byte(w, 2) == Byte(v, 0) && Byte(w, 3) == Byte(v, 1)
  {
  }

  lemma LWL2(v: bv32, r: bv32, w: bv32)
    requires w == MergeLWL(v, r, 2)
    ensures Byte(w, 0) == Byte(r, 0) && Byte(w, 1) == Byte(v, 0) && Byte(w, 2) == Byte(v, 1) && Byte(w, 3) == Byte(v, 2)
  {
  }

  lemma LWL3(v: bv32, r: bv32, w: bv32)
    requires w == MergeLWL(v, r, 3)
    ensures Byte(w, 0) == Byte(v, 0) && Byte(w, 1) == Byte(v, 1) && Byte(w, 2) == Byte(v, 2) && Byte(w, 3) == Byte(v, 3)
  {
  }

  /** LWL loads the high bytes of the register, from the addressed byte down. */
  lemma LWLBytes(value: bv32, reg: bv32, byte: nat, k: nat)
    requires byte < 4 && k < 4
    ensures Byte(MergeLWL(value, reg, byte), k) == if k >= 3 - byte then Byte(value, k - (3 - byte)) else Byte(reg, k)
  {
    hide Byte, MergeLWL;
    var w := MergeLWL(value, reg, byte);
    match byte
    case 0 => LWL0(value, reg, w);
    case 1 => LWL1(value, reg, w);
    case 2 => LWL2(value, reg, w);
    case _ => LWL3(value, reg, w);
  }

  // ----- Storing a register that a load is about to change -----

  /** SWR at an address and SWL three bytes on store the byte k of the register: does SWL store it (last)? */
  predicate StoredLate(byte: nat, k: nat) {
    byte == 0 || k >= 4 - byte
  }

  /** The word stored if the register holds `early` at the SWR and `late` at the SWL. */
  function Pieced(early: bv32, late: bv32, byte: nat): bv32 {
    match byte
    case 0 => late
    case 1 => (early & 0xffffff) | (late & 0xff000000)
    case 2 => (early & 0xffff) | (late & 0xffff0000)
    case _ => (late & 0xffffff00) | (early & 0xff)
  }

  lemma PiecedBytes(early: bv32, late: bv32, byte: nat, k: nat)
    requires byte < 4 && k < 4
    ensures Byte(Pieced(early, late, byte), k) == Byte(if StoredLate(byte, k) then late else early, k)
  {
    hide Byte, Pieced;
    var w := Pieced(early, late, byte);
    match byte
    case 0 => Pieced0(early, late, w);
    case 1 => Pieced1(early, late, w);
    case 2 => Pieced2(early, late, w);
    case _ => Pieced3(early, late, w);
  }

  lemma Pieced0(e: bv32, l: bv32, w: bv32)
    requires w == Pieced(e, l, 0)
    ensures w == l
  {
  }

  lemma Pieced1(e: bv32, l: bv32, w: bv32)
    requires w == Pieced(e, l, 1)
    ensures Byte(w, 0) == Byte(e, 0) && Byte(w, 1) == Byte(e, 1) && Byte(w, 2) == Byte(e, 2) && Byte(w, 3) == Byte(l, 3)
  {
  }

  lemma Pieced2(e: bv32, l: bv32, w: bv32)
    requires w == Pieced(e, l, 2)
    ensures Byte(w, 0) == Byte(e, 0) && Byte(w, 1) == Byte(e, 1) && Byte(w, 2) == Byte(l, 2) && Byte(w, 3) == Byte(l, 3)
  {
  }

  lemma Pieced3(e: bv32, l: bv32, w: bv32)
    requires w == Pieced(e, l, 3)
    ensures Byte(w, 0) == Byte(e, 0) && Byte(w, 1) == Byte(l, 1) && Byte(w, 2) == Byte(l, 2) && Byte(w, 3) == Byte(l, 3)
  {
    LowByte(l, e & 0xff);
  }

  /** The register as it was at the first store is what gets stored, just when the late bytes have not changed. */
  lemma PiecedExactly(early: bv32, late: bv32, byte: nat)
    requires byte < 4
    ensures Pieced(early, late, byte) == early <==>
              forall k: nat :: k < 4 && StoredLate(byte, k) ==> Byte(late, k) == Byte(early, k)
  {
    hide Byte, Pieced;
    var w := Pieced(early, late, byte);
    forall k: nat | k < 4 ensures Byte(w, k) == Byte(if StoredLate(byte, k) then late else early, k) {
      PiecedBytes(early, late, byte, k);
    }
    if forall k: nat :: k < 4 && StoredLate(byte, k) ==> Byte(late, k) == Byte(early, k) {
      SameWord(w, early);
    }
  }

  // ----- Translation -----

  datatype Translation = Translation(physicalPage: nat, valid: bool, readOnly: bool, use: bool, dirty: bool)

  datatype Outcome = AddressError | PageFault | ReadOnlyPage | BusError | Physical(address: nat)

  /** Where an access to the page table leads; addresses are unsigned. */
  function Lookup(table: seq<Translation>, virtAddr: nat, size: nat, writing: bool): Outcome {
    var vpn := virtAddr / 128;
    if (size == 4 && virtAddr % 4 != 0) || (size == 2 && virtAddr % 2 != 0) then AddressError
    else if vpn >= |table| then AddressError
    else if !table[vpn].valid then PageFault
    else if table[vpn].readOnly && writing then ReadOnlyPage
    else if table[vpn].physicalPage >= NUM_PHYS_PAGES then BusError
    else Physical(table[vpn].physicalPage * 128 + virtAddr % 128)
  }

  predicate SameMap(old_: seq<Translation>, new_: seq<Translation>) {
    |old_| == |new_| &&
    forall p :: 0 <= p < |old_| ==>
      new_[p].physicalPage == old_[p].physicalPage && new_[p].valid == old_[p].valid
          && new_[p].readOnly == old_[p].readOnly
  }

  /** No two valid pages share a frame. */
  predicate Injective(table: seq<Translation>) {
    forall p, q :: 0 <= p < q < |table| && table[p].valid && table[q].valid ==>
        table[p].physicalPage != table[q].physicalPage
  }

  predicate Mapped(table: seq<Translation>, a: nat) {
    Lookup(table, a, 1, false).Physical?
  }

  function Frame(table: seq<Translation>, a: nat): (p: nat)
    requires Mapped(table, a)
    ensures p < 16384
  {
    Lookup(table, a, 1, false).address
  }

  /** The use and dirty bits do not matter to translation. */
  lemma SameLookup(old_: seq<Translation>, new_: seq<Translation>)
    requires SameMap(old_, new_)
    ensures forall a, size, writing :: Lookup(new_, a, size, writing) == Lookup(old_, a, size, writing)
    ensures Injective(old_) ==> Injective(new_)
  {
  }

  lemma DifferentFrames(table: seq<Translation>, a: nat, b: nat)
    requires Injective(table) && Mapped(table, a) && Mapped(table, b) && a != b
    ensures Frame(table, a) != Frame(table, b)
  {
    if a / 128 == b / 128 {
      assert a % 128 != b % 128;
    }
  }

  lemma InPage(page: nat, offset: nat)
    requires offset < 128
    ensures (128 * page + offset) / 128 == page && (128 * page + offset) % 128 == offset
  {
  }

  lemma LastInPage(page: nat, offset: nat)
    requires offset < 128 && (128 * page + offset) % 4 == 0
    ensures offset <= 124
  {
    var words := (128 * page + offset) / 4 - 32 * page;
    assert offset == 4 * words;
  }

  lemma SamePage(a: nat, k: nat)
    requires a % 4 == 0 && k < 4
    ensures (a + k) / 128 == a / 128 && (a + k) % 128 == a % 128 + k
  {
    var q, r := a / 128, a % 128;
    LastInPage(q, r);
    InPage(q, r + k);
    assert a + k == 128 * q + (r + k);
  }

  /** The bytes of an aligned word lie on one page. */
  lemma WordOnPage(table: seq<Translation>, a: nat, k: nat)
    requires a % 4 == 0 && k < 4 && Mapped(table, a)
    ensures Mapped(table, a + k) && Frame(table, a + k) == Frame(table, a) + k
    ensures Lookup(table, a, 4, false) == Lookup(table, a, 1, false)
  {
    SamePage(a, k);
  }

  /** The byte a program sees at a virtual address. */
  function Seen(memory: seq<bv8>, table: seq<Translation>, a: nat): bv8
    requires |memory| == 16384 && Mapped(table, a)
  {
    memory[Frame(table, a)]
  }

  ghost predicate WordStored(before: seq<bv8>, after: seq<bv8>, at: nat, value: bv32) {
    && |before| == |after| == 16384 && at + 4 <= 16384
    && forall p :: 0 <= p < 16384 ==> after[p] == if at <= p < at + 4 then Byte(value, p - at) else before[p]
  }

  /** A word stored through the page table shows at its own virtual addresses and nowhere else. */
  lemma StoredShows(table: seq<Translation>, before: seq<bv8>, after: seq<bv8>, addr: nat, value: bv32, a: nat)
    requires Injective(table) && addr % 4 == 0 && Mapped(table, addr) && Mapped(table, a)
    requires WordStored(before, after, Frame(table, addr), value)
    ensures Seen(after, table, a) == if addr <= a < addr + 4 then Byte(value, a - addr) else Seen(before, table, a)
  {
    hide Byte, Injective, Mapped, Frame;
    if addr <= a < addr + 4 {
      WordOnPage(table, addr, a - addr);
    } else if Frame(table, addr) <= Frame(table, a) < Frame(table, addr) + 4 {
      var k := Frame(table, a) - Frame(table, addr);
      WordOnPage(table, addr, k);
      DifferentFrames(table, addr + k, a);
    }
  }

  // ----- The machine -----

  class Machine {
    var mainMemory: seq<bv8>
    var pageTable: seq<Translation>
    var registers: seq<bv32>
    var loadReg: nat        // registers[LoadReg]: the target of a delayed load
    var loadValue: bv32     // registers[LoadValueReg]: its value

    predicate Valid()
      reads this
    {
      |mainMemory| == 16384 && |registers| == NUM_GP_REGS && loadReg < NUM_GP_REGS
    }

    constructor (memory: seq<bv8>, table: seq<Translation>)
      requires |memory| == 16384
      ensures Valid() && mainMemory == memory && pageTable == table
      ensures registers == seq(NUM_GP_REGS, _ => 0) && NothingInFlight()
    {
      mainMemory, pageTable := memory, table;
      registers := seq(NUM_GP_REGS, _ => 0);
      loadReg, loadValue := 0, 0;
    }

    method Translate(virtAddr: nat, size: nat, writing: bool) returns (o: Outcome)
      modifies this`pageTable
      ensures o == Lookup(old(pageTable), virtAddr, size, writing)
      ensures var vpn, t := virtAddr / 128, old(pageTable);
              var aligned := (size == 4 ==> virtAddr % 4 == 0) && (size == 2 ==> virtAddr % 2 == 0);
              var denied := aligned && vpn < |t| && t[vpn].valid && t[vpn].readOnly && writing;
              var allowed := aligned && vpn < |t| && t[vpn].valid && !(t[vpn].readOnly && writing);
              && (o == AddressError <==> !aligned || |t| <= vpn)
              && (o == PageFault <==> aligned && vpn < |t| && !t[vpn].valid)
              && (o == ReadOnlyPage <==> denied)
              && (o == BusError <==> allowed && t[vpn].physicalPage >= 128)
              && (o.Physical? ==> allowed && o.address == t[vpn].physicalPage * 128 + virtAddr % 128 < 128 * 128)
      ensures SameMap(old(pageTable), pageTable)
      ensures pageTable ==
        if o.Physical? then
          var e := old(pageTable)[virtAddr / 128];
          old(pageTable)[virtAddr / 128 := e.(use := true, dirty := e.dirty || writing)]
        else old(pageTable)
    {
      if (size == 4 && virtAddr % 4 != 0) || (size == 2 && virtAddr % 2 != 0) {
        return AddressError;
      }
      var vpn, offset := virtAddr / 128, virtAddr % 128;
      if vpn >= |pageTable| {
        return AddressError;
      } else if !pageTable[vpn].valid {
        return PageFault;
      }
      if pageTable[vpn].readOnly && writing {
        return ReadOnlyPage;
      }
      var pageFrame := pageTable[vpn].physicalPage;
      if pageFrame >= NUM_PHYS_PAGES {
        return BusError;
      }
      pageTable := pageTable[vpn := pageTable[vpn].(use := true)];
      if writing {
        pageTable := pageTable[vpn := pageTable[vpn].(dirty := true)];
      }
      o := Physical(pageFrame * 128 + offset);
    }

    /** ReadMem of 4 bytes. */
    method ReadWord(addr: nat) returns (ok: bool, value: bv32)
      requires Valid()
      modifies this`pageTable
      ensures Valid() && SameMap(old(pageTable), pageTable)
      ensures ok <==> Lookup(pageTable, addr, 4, false).Physical?
      ensures ok ==> addr % 4 == 0 && Mapped(pageTable, addr)
      ensures ok ==> forall a: nat :: addr <= a < addr + 4 ==>
        Mapped(pageTable, a) && Byte(value, a - addr) == Seen(mainMemory, pageTable, a)
    {
      hide Byte, Word;
      var o := Translate(addr, 4, false);
      SameLookup(old(pageTable), pageTable);
      if !o.Physical? {
        return false, 0;
      }
      var p := o.address;
      ok, value := true, Word(mainMemory[p], mainMemory[p + 1], mainMemory[p + 2], mainMemory[p + 3]);
      WordBytes(mainMemory[p], mainMemory[p + 1], mainMemory[p + 2], mainMemory[p + 3]);
      forall a: nat | addr <= a < addr + 4
        ensures Mapped(pageTable, a) && Byte(value, a - addr) == Seen(mainMemory, pageTable, a)
      {
        WordOnPage(pageTable, addr, a - addr);
      }
    }

    /** WriteMem of 4 bytes. */
    method WriteWord(addr: nat, value: bv32) returns (ok: bool)
      requires Valid()
      modifies this`pageTable, this`mainMemory
      ensures Valid() && SameMap(old(pageTable), pageTable)
      ensures ok <==> Lookup(pageTable, addr, 4, true).Physical?
      ensures !ok ==> mainMemory == old(mainMemory)
      ensures ok ==> addr % 4 == 0 && Mapped(pageTable, addr)
      ensures ok ==> WordStored(old(mainMemory), mainMemory, Frame(pageTable, addr), value)
    {
      hide Byte;
      var o := Translate(addr, 4, true);
      SameLookup(old(pageTable), pageTable);
      if !o.Physical? {
        return false;
      }
      var p := o.address;
      mainMemory := mainMemory[p := Byte(value, 0)][p + 1 := Byte(value, 1)];
      mainMemory := mainMemory[p + 2 := Byte(value, 2)][p + 3 := Byte(value, 3)];
      ok := true;
    }

    /** The word that contains addr can be read and written. */
    predicate Writable(addr: nat)
      reads this
    {
      Lookup(pageTable, addr - addr % 4, 4, false).Physical? && Lookup(pageTable, addr - addr % 4, 4, true).Physical?
    }

    /** SWR's read, merge and write. */
    method StoreRight(addr: nat, value: bv32) returns (ok: bool)
      requires Valid() && Injective(pageTable)
      modifies this`pageTable, this`mainMemory
      ensures Valid() && SameMap(old(pageTable), pageTable)
      ensures ok <==> old(Writable(addr))
      ensures !ok ==> mainMemory == old(mainMemory)
      ensures ok ==> forall a: nat :: Mapped(pageTable, a) ==>
        Seen(mainMemory, pageTable, a) ==
          if addr <= a < addr - addr % 4 + 4 then Byte(value, a - addr) else Seen(old(mainMemory), pageTable, a)
    {
      hide Byte, MergeSWR, Lookup, WordStored;
      var byte := addr % 4;
      var read, word := ReadWord(addr - byte);
      SameLookup(old(pageTable), pageTable);
      if !read {
        return false;
      }
      var merged := MergeSWR(word, value, byte);
      ghost var table := pageTable;
      ok := WriteWord(addr - byte, merged);
      SameLookup(table, pageTable);
      if ok {
        forall a: nat | Mapped(pageTable, a)
          ensures Seen(mainMemory, pageTable, a) ==
            if addr <= a < addr - byte + 4 then Byte(value, a - addr) else Seen(old(mainMemory), pageTable, a)
        {
          StoredShows(pageTable, old(mainMemory), mainMemory, addr - byte, merged, a);
          if addr - byte <= a < addr - byte + 4 {
            assert Mapped(table, a) && Byte(word, a - (addr - byte)) == Seen(old(mainMemory), table, a);
            SWRBytes(word, value, byte, a - (addr - byte));
          }
        }
      }
    }

    /** SWL's read, merge and write. */
    method StoreLeft(addr: nat, value: bv32) returns (ok: bool)
      requires Valid() && Injective(pageTable)
      modifies this`pageTable, this`mainMemory
      ensures Valid() && SameMap(old(pageTable), pageTable)
      ensures ok <==> old(Writable(addr))
      ensures !ok ==> mainMemory == old(mainMemory)
      ensures ok ==> forall a: nat :: Mapped(pageTable, a) ==>
        Seen(mainMemory, pageTable, a) ==
          if addr - addr % 4 <= a <= addr then Byte(value, a + 3 - addr) else Seen(old(mainMemory), pageTable, a)
    {
      hide Byte, MergeSWL, Lookup, WordStored;
      var byte := addr % 4;
      var read, word := ReadWord(addr - byte);
      SameLookup(old(pageTable), pageTable);
      if !read {
        return false;
      }
      var merged := MergeSWL(word, value, byte);
      ghost var table := pageTable;
      ok := WriteWord(addr - byte, merged);
      SameLookup(table, pageTable);
      if ok {
        forall a: nat | Mapped(pageTable, a)
          ensures Seen(mainMemory, pageTable, a) ==
            if addr - byte <= a <= addr then Byte(value, a + 3 - addr) else Seen(old(mainMemory), pageTable, a)
        {
          StoredShows(pageTable, old(mainMemory), mainMemory, addr - byte, merged, a);
          if addr - byte <= a < addr - byte + 4 {
            assert Mapped(table, a) && Byte(word, a - (addr - byte)) == Seen(old(mainMemory), table, a);
            SWLBytes(word, value, byte, a - (addr - byte));
          }
        }
      }
    }

    /** What register rt will hold once the load in flight, if it is for rt, has taken effect. */
    function Coming(rt: nat): bv32
      requires Valid() && rt < NUM_GP_REGS
      reads this
    {
      if loadReg == rt then loadValue else registers[rt]
    }

    /** ... and register 0 is 0. */
    function Landed(rt: nat): bv32
      requires Valid() && rt < NUM_GP_REGS
      reads this
    {
      if rt == 0 then 0 else Coming(rt)
    }

    ghost predicate NothingInFlight()
      reads this
    {
      loadReg == 0 && loadValue == 0
    }

    /** Let the load in flight take effect, and put another one in flight. */
    method DelayedLoad(nextReg: nat, nextValue: bv32)
      requires Valid() && nextReg < NUM_GP_REGS
      modifies this`registers, this`loadReg, this`loadValue
      ensures Valid() && loadReg == nextReg && loadValue == nextValue
      ensures forall r :: 0 <= r < NUM_GP_REGS ==> registers[r] == old(Landed(r))
      ensures registers == old(registers)[old(loadReg) := old(loadValue)][0 := 0]
    {
      registers := registers[loadReg := loadValue];
      loadReg, loadValue := nextReg, nextValue;
      registers := registers[0 := 0];
    }

    // The four instructions. Whether they complete or trap, the load that was in flight takes effect.

    method SWR(addr: nat, rt: nat) returns (ok: bool)
      requires Valid() && rt < NUM_GP_REGS && Injective(pageTable)
      modifies this
      ensures Valid() && SameMap(old(pageTable), pageTable) && NothingInFlight()
      ensures ok <==> old(Writable(addr))
      ensures !ok ==> mainMemory == old(mainMemory)
      ensures ok ==> forall a: nat :: Mapped(pageTable, a) ==>
        Seen(mainMemory, pageTable, a) ==
          if addr <= a < addr - addr % 4 + 4 then Byte(old(registers[rt]), a - addr)
          else Seen(old(mainMemory), pageTable, a)
      ensures forall r :: 0 <= r < NUM_GP_REGS ==> registers[r] == old(Landed(r))
    {
      hide Byte, Mapped, SameMap, Injective, Writable, Seen;
      ok := StoreRight(addr, registers[rt]);
      DelayedLoad(0, 0);
    }

    method SWL(addr: nat, rt: nat) returns (ok: bool)
      requires Valid() && rt < NUM_GP_REGS && Injective(pageTable)
      modifies this
      ensures Valid() && SameMap(old(pageTable), pageTable) && NothingInFlight()
      ensures ok <==> old(Writable(addr))
      ensures !ok ==> mainMemory == old(mainMemory)
      ensures ok ==> forall a: nat :: Mapped(pageTable, a) ==>
        Seen(mainMemory, pageTable, a) ==
          if addr - addr % 4 <= a <= addr then Byte(old(registers[rt]), a + 3 - addr)
          else Seen(old(mainMemory), pageTable, a)
      ensures forall r :: 0 <= r < NUM_GP_REGS ==> registers[r] == old(Landed(r))
    {
      hide Byte, Mapped, SameMap, Injective, Writable, Seen;
      ok := StoreLeft(addr, registers[rt]);
      DelayedLoad(0, 0);
    }

    /** LWR's read and merge. */
    method FetchRight(addr: nat, reg: bv32) returns (ok: bool, loaded: bv32)
      requires Valid()
      modifies this`pageTable
      ensures Valid() && SameMap(old(pageTable), pageTable)
      ensures ok <==> Lookup(pageTable, addr - addr % 4, 4, false).Physical?
      ensures ok ==> forall a: nat :: addr <= a < addr - addr % 4 + 4 ==>
        Mapped(pageTable, a) && Byte(loaded, a - addr) == Seen(mainMemory, pageTable, a)
      ensures ok ==> forall k: nat :: 4 - addr % 4 <= k < 4 ==> Byte(loaded, k) == Byte(reg, k)
    {
      hide Byte, MergeLWR, Lookup, SameMap;
      var byte := addr % 4;
      var value;
      ok, value := ReadWord(addr - byte);
      loaded := MergeLWR(value, reg, byte);
      if ok {
        forall k: nat | k < 4 ensures Byte(loaded, k) == if k < 4 - byte then Byte(value, k + byte) else Byte(reg, k) {
          LWRBytes(value, reg, byte, k);
        }
        ghost var base := addr - byte;
        forall a: nat | addr <= a < base + 4
          ensures Mapped(pageTable, a) && Byte(loaded, a - addr) == Seen(mainMemory, pageTable, a)
        {
          assert Byte(loaded, a - addr) == Byte(value, a - base);
        }
      }
    }

    /** LWL's read and merge. */
    method FetchLeft(addr: nat, reg: bv32) returns (ok: bool, loaded: bv32)
      requires Valid()
      modifies this`pageTable
      ensures Valid() && SameMap(old(pageTable), pageTable)
      ensures ok <==> Lookup(pageTable, addr - addr % 4, 4, false).Physical?
      ensures ok ==> forall a: nat :: addr - addr % 4 <= a <= addr ==>
        Mapped(pageTable, a) && Byte(loaded, a + 3 - addr) == Seen(mainMemory, pageTable, a)
      ensures ok ==> forall k: nat :: k < 3 - addr % 4 ==> Byte(loaded, k) == Byte(reg, k)
    {
      hide Byte, MergeLWL, Lookup, SameMap;
      var byte := addr % 4;
      var value;
      ok, value := ReadWord(addr - byte);
      loaded := MergeLWL(value, reg, byte);
      if ok {
        forall k: nat | k < 4
          ensures Byte(loaded, k) == if k >= 3 - byte then Byte(value, k - (3 - byte)) else Byte(reg, k)
        {
          LWLBytes(value, reg, byte, k);
        }
      }
    }

    method LWR(addr: nat, rt: nat) returns (ok: bool)
      requires Valid() && rt < NUM_GP_REGS
      modifies this`pageTable, this`registers, this`loadReg, this`loadValue
      ensures Valid() && SameMap(old(pageTable), pageTable)
      ensures ok <==> Lookup(pageTable, addr - addr % 4, 4, false).Physical?
      ensures if ok then loadReg == rt else NothingInFlight()
      ensures ok ==> forall a: nat :: addr <= a < addr - addr % 4 + 4 ==>
        Mapped(pageTable, a) && Byte(loadValue, a - addr) == Seen(mainMemory, pageTable, a)
      ensures ok ==> forall k: nat :: 4 - addr % 4 <= k < 4 ==> Byte(loadValue, k) == Byte(old(Coming(rt)), k)
      ensures forall r :: 0 <= r < NUM_GP_REGS ==> registers[r] == old(Landed(r))
    {
      hide Byte, Lookup, SameMap, Mapped, Seen;
      var nextLoadValue;
      ok, nextLoadValue := FetchRight(addr, Coming(rt));
      if ok {
        DelayedLoad(rt, nextLoadValue);
      } else {
        DelayedLoad(0, 0);
      }
    }

    method LWL(addr: nat, rt: nat) returns (ok: bool)
      requires Valid() && rt < NUM_GP_REGS
      modifies this`pageTable, this`registers, this`loadReg, this`loadValue
      ensures Valid() && SameMap(old(pageTable), pageTable)
      ensures ok <==> Lookup(pageTable, addr - addr % 4, 4, false).Physical?
      ensures if ok then loadReg == rt else NothingInFlight()
      ensures ok ==> forall a: nat :: addr - addr % 4 <= a <= addr ==>
        Mapped(pageTable, a) && Byte(loadValue, a + 3 - addr) == Seen(mainMemory, pageTable, a)
      ensures ok ==> forall k: nat :: k < 3 - addr % 4 ==> Byte(loadValue, k) == Byte(old(Coming(rt)), k)
      ensures forall r :: 0 <= r < NUM_GP_REGS ==> registers[r] == old(Landed(r))
    {
      hide Byte, Lookup, SameMap, Mapped, Seen;
      var nextLoadValue;
      ok, nextLoadValue := FetchLeft(addr, Coming(rt));
      if ok {
        DelayedLoad(rt, nextLoadValue);
      } else {
        DelayedLoad(0, 0);
      }
    }

    /**
     The word that the two instructions store: a load in flight lands between them, so the bytes that SWL
     stores are those of the register after the load.
     */
    function StoredWord(addr: nat, rt: nat): bv32
      requires Valid() && rt < NUM_GP_REGS
      reads this
    {
      Pieced(registers[rt], Landed(rt), addr % 4)
    }

    /** The two instructions that store a word anywhere, with or without an interrupt between them. */
    method StoreAnywhere(addr: nat, rt: nat, interrupted: bool)
      requires Valid() && rt < NUM_GP_REGS && Injective(pageTable) && Writable(addr) && Writable(addr + 3)
      modifies this
      ensures Valid() && SameMap(old(pageTable), pageTable) && NothingInFlight()
      ensures forall a: nat :: Mapped(pageTable, a) ==>
        Seen(mainMemory, pageTable, a) ==
          if addr <= a < addr + 4 then Byte(old(StoredWord(addr, rt)), a - addr)
          else Seen(old(mainMemory), pageTable, a)
      ensures forall r :: 0 <= r < NUM_GP_REGS ==> registers[r] == old(Landed(r))
    {
      hide Byte, Lookup, Pieced;
      var right := SWR(addr, rt);
      SameLookup(old(pageTable), pageTable);
      if interrupted {
        DelayedLoad(0, 0);
      }
      ghost var table, memory := pageTable, mainMemory;
      var left := SWL(addr + 3, rt);
      SameLookup(table, pageTable);
      forall a: nat | Mapped(pageTable, a)
        ensures Seen(mainMemory, pageTable, a) ==
          if addr <= a < addr + 4 then Byte(old(StoredWord(addr, rt)), a - addr)
          else Seen(old(mainMemory), pageTable, a)
      {
        Halves(addr);
        assert Seen(memory, pageTable, a) == Seen(memory, table, a);
        if addr <= a < addr + 4 {
          PiecedBytes(old(registers[rt]), old(Landed(rt)), addr % 4, a - addr);
        }
      }
    }

    /**
     The register as it is before the two instructions is what they store, if and only if no load in flight
     is about to change one of the bytes that SWL stores.
     */
    lemma StoresRegisterExactly(addr: nat, rt: nat)
      requires Valid() && rt < NUM_GP_REGS
      ensures StoredWord(addr, rt) == registers[rt] <==>
              forall k: nat :: k < 4 && StoredLate(addr % 4, k) ==> Byte(Landed(rt), k) == Byte(registers[rt], k)
      ensures rt != 0 ==>
                (StoredWord(addr, rt) == registers[rt] <==>
                 loadReg != rt ||
                 forall k: nat :: k < 4 && StoredLate(addr % 4, k) ==> Byte(loadValue, k) == Byte(registers[rt], k))
    {
      PiecedExactly(registers[rt], Landed(rt), addr % 4);
    }

    /** At an aligned address it is the value of the load in flight that is stored. */
    lemma StoresLoadInFlight(addr: nat, rt: nat)
      requires Valid() && 0 < rt < NUM_GP_REGS && addr % 4 == 0 && loadReg == rt && loadValue != registers[rt]
      ensures StoredWord(addr, rt) == loadValue != registers[rt]
    {
    }

    /**
     The two instructions that load a word from anywhere. An interrupt between them makes the first
     load take effect early; the second one takes effect with the next instruction.
     */
    method LoadAnywhere(addr: nat, rt: nat, interrupted: bool)
      requires Valid() && 0 < rt < NUM_GP_REGS
      requires Lookup(pageTable, addr - addr % 4, 4, false).Physical?
      requires Lookup(pageTable, addr + 3 - (addr + 3) % 4, 4, false).Physical?
      modifies this`pageTable, this`registers, this`loadReg, this`loadValue
      ensures Valid() && SameMap(old(pageTable), pageTable)
      ensures forall a: nat :: addr <= a < addr + 4 ==>
        Mapped(pageTable, a) && Byte(registers[rt], a - addr) == Seen(mainMemory, pageTable, a)
      ensures forall r :: 0 <= r < NUM_GP_REGS && r != rt ==> registers[r] == old(Landed(r))
    {
      hide Byte, Lookup;
      SameLookup(old(pageTable), old(pageTable));
      var right := LWR(addr, rt);
      SameLookup(old(pageTable), pageTable);
      if interrupted {
        DelayedLoad(0, 0);
      }
      ghost var table := pageTable;
      ghost var first := Coming(rt);
      var left := LWL(addr + 3, rt);
      SameLookup(table, pageTable);
      DelayedLoad(0, 0);
      forall a: nat | addr <= a < addr + 4
        ensures Mapped(pageTable, a) && Byte(registers[rt], a - addr) == Seen(mainMemory, pageTable, a)
      {
        Halves(addr);
        if addr + 3 - (addr + 3) % 4 > a {
          assert Mapped(table, a) && Byte(first, a - addr) == Seen(mainMemory, table, a);
        }
      }
    }

    /** What has been stored is loaded again, bit for bit. */
    method StoreThenLoad(addr: nat, from: nat, to: nat, interrupted: bool)
      requires Valid() && from < NUM_GP_REGS && 0 < to < NUM_GP_REGS
      requires Injective(pageTable) && Writable(addr) && Writable(addr + 3)
      modifies this
      ensures Valid() && registers[to] == old(StoredWord(addr, from))
      ensures old(loadReg) != from && from != 0 ==> registers[to] == old(registers[from])
    {
      hide Byte, Lookup, Pieced;
      PiecedExactly(registers[from], Landed(from), addr % 4);
      ghost var word := StoredWord(addr, from);
      StoreAnywhere(addr, from, interrupted);
      SameLookup(old(pageTable), pageTable);
      ghost var table := pageTable;
      LoadAnywhere(addr, to, interrupted);
      SameLookup(table, pageTable);
      forall k: nat | k < 4 ensures Byte(registers[to], k) == Byte(word, k) {
        assert Mapped(pageTable, addr + k);
        assert Seen(mainMemory, pageTable, addr + k) == Seen(mainMemory, table, addr + k);
      }
      SameWord(registers[to], word);
    }
  }

  /** A program that stores register 1 right after loading it: its old value 0 is not what gets stored. */
  method StoreInLoadDelay() returns (held: bv32, stored: bv8)
    ensures held == 0 && stored == 5
  {
    var m := new Machine(seq(16384, i => if i == 4 then 5 else 0), [Translation(0, true, false, false, false)]);
    var ok := m.LWR(4, 1);
    assert ok && Byte(m.loadValue, 0) == Seen(m.mainMemory, m.pageTable, 4);
    held := m.registers[1];
    PiecedBytes(held, m.loadValue, 0, 0);
    m.StoreAnywhere(8, 1, false);
    assert Mapped(m.pageTable, 8) && Frame(m.pageTable, 8) == 8;
    stored := m.mainMemory[8];
  }

  lemma Halves(addr: nat)
    ensures addr % 4 == 0 ==> (addr + 3) % 4 == 3
    ensures addr % 4 != 0 ==> (addr + 3) % 4 == addr % 4 - 1
  {
    var q, r := addr / 4, addr % 4;
    assert addr == 4 * q + r;
    if r == 0 {
      assert addr + 3 == 4 * q + 3;
    } else {
      assert addr + 3 == 4 * (q + 1) + (r - 1);
    }
  }
}
