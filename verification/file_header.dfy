/** filesys/synchdisk.cc and filesys/filehdr.cc: sectors, and the header that lists a file's sectors. */
module FileHeaders {
  import opened DiskBytes
  import opened DiskGeometry
  import opened Words
  import opened Bitmaps

  const NUM_DIRECT := (SECTOR_SIZE - 2 * 4) / 4
  const MAX_FILE_SIZE := NUM_DIRECT * SECTOR_SIZE

  /** The synchronous disk as its callers see it: a request has completed when the call returns. */
  class SynchDisk {
    var sectors: seq<Sector>

    predicate Valid()
      reads this
    {
      |sectors| == NUM_SECTORS
    }

    constructor (contents: seq<Sector>)
      requires |contents| == NUM_SECTORS
      ensures Valid() && sectors == contents
    {
      sectors := contents;
    }

    method ReadSector(sectorNumber: nat, data: array<byte>, at: nat)
      requires Valid() && sectorNumber < NUM_SECTORS && at + SECTOR_SIZE <= data.Length
      modifies data
      ensures forall j :: 0 <= j < data.Length ==>
        data[j] == if at <= j < at + SECTOR_SIZE then sectors[sectorNumber][j - at] else old(data[j])
    {
      forall j | 0 <= j < SECTOR_SIZE {
        data[at + j] := sectors[sectorNumber][j];
      }
    }

    method WriteSector(sectorNumber: nat, data: array<byte>, at: nat)
      requires Valid() && sectorNumber < NUM_SECTORS && at + SECTOR_SIZE <= data.Length
      modifies this
      ensures Valid() && sectors == old(sectors)[sectorNumber := data[at..at + SECTOR_SIZE]]
    {
      sectors := sectors[sectorNumber := data[at..at + SECTOR_SIZE]];
    }
  }

  // ----- Header values -----

  datatype Header = Header(numBytes: int32, numSectors: int32, dataSectors: seq<int32>)

  /** What Allocate leaves behind: the sectors of the file, in range and all different. */
  ghost predicate Good(h: Header) {
    && |h.dataSectors| == NUM_DIRECT
    && 0 <= h.numBytes as int <= MAX_FILE_SIZE
    && h.numSectors as int == DivRoundUp(h.numBytes as int, SECTOR_SIZE)
    && (forall k :: 0 <= k < h.numSectors as int ==> 0 <= h.dataSectors[k] as int < NUM_SECTORS)
    && (forall k, l :: 0 <= k < l < h.numSectors as int ==> h.dataSectors[k] != h.dataSectors[l])
  }

  lemma SectorsFit(h: Header)
    requires Good(h)
    ensures 0 <= h.numSectors as int <= NUM_DIRECT
    ensures h.numBytes as int <= h.numSectors as int * SECTOR_SIZE < h.numBytes as int + SECTOR_SIZE
  {
  }

  /** The sectors in use, in file order. */
  ghost function Data(h: Header): (d: seq<nat>)
    requires Good(h)
    ensures |d| == h.numSectors as int
    ensures forall k :: 0 <= k < |d| ==> d[k] < NUM_SECTORS && d[k] == h.dataSectors[k] as int
    ensures forall k, l :: 0 <= k < l < |d| ==> d[k] != d[l]
  {
    SectorsFit(h);
    seq(h.numSectors as int, k requires 0 <= k < h.numSectors as int => h.dataSectors[k] as int)
  }

  function EncodeHeader(h: Header): Sector
    requires |h.dataSectors| == NUM_DIRECT
  {
    PackInts([h.numBytes, h.numSectors] + h.dataSectors)
  }

  function DecodeHeader(s: Sector): (h: Header)
    ensures |h.dataSectors| == NUM_DIRECT
  {
    var ints := UnpackInts(s);
    Header(ints[0], ints[1], ints[2..])
  }

  lemma HeaderRoundTrip(h: Header)
    requires |h.dataSectors| == NUM_DIRECT
    ensures DecodeHeader(EncodeHeader(h)) == h
  {
    IntsRoundTrip([h.numBytes, h.numSectors] + h.dataSectors);
  }

  /** A header takes the 128 bytes of its sector: the length in bytes, that in sectors, and the 30 sector numbers. */
  lemma HeaderLayout(h: Header, k: nat)
    requires |h.dataSectors| == NUM_DIRECT && k < NUM_DIRECT
    requires h.numBytes >= 0 && h.numSectors >= 0 && h.dataSectors[k] >= 0
    ensures var s := EncodeHeader(h);
            && ValueAt(s, 0) == h.numBytes as int && ValueAt(s, 4) == h.numSectors as int
            && ValueAt(s, 8 + 4 * k) == h.dataSectors[k] as int
  {
    var ints := [h.numBytes, h.numSectors] + h.dataSectors;
    LeastSignificantFirst(ints, 0);
    LeastSignificantFirst(ints, 1);
    LeastSignificantFirst(ints, 2 + k);
  }

  // ----- First-fit allocation -----

  function SetAll(bits: seq<bool>, which: seq<nat>, b: bool): (r: seq<bool>)
    ensures |r| == |bits|
    ensures forall s :: 0 <= s < |bits| ==> r[s] == if s in which then b else bits[s]
  {
    seq(|bits|, s requires 0 <= s < |bits| => if s in which then b else bits[s])
  }

  lemma SetAllFirst(bits: seq<bool>, k: nat, which: seq<nat>, b: bool)
    requires k < |bits|
    ensures SetAll(bits, [k] + which, b) == SetAll(bits[k := b], which, b)
  {
  }

  /** The n lowest clear bits, in order. */
  function FirstFit(bits: seq<bool>, n: nat): (r: seq<nat>)
    requires n <= NumClear(bits)
    ensures |r| == n
    ensures forall k :: 0 <= k < n ==> r[k] < |bits| && !bits[r[k]]
    decreases n
  {
    if n == 0 then [] else
      NumClearPositive(bits);
      var k := FirstClear(bits);
      NumClearSet(bits, k, true);
      [k] + FirstFit(bits[k := true], n - 1)
  }

  lemma {:induction false} FirstFitDistinct(bits: seq<bool>, n: nat)
    requires n <= NumClear(bits)
    ensures forall k, l :: 0 <= k < l < n ==> FirstFit(bits, n)[k] != FirstFit(bits, n)[l]
    decreases n
  {
    if n > 0 {
      NumClearPositive(bits);
      var first := FirstClear(bits);
      NumClearSet(bits, first, true);
      FirstFitDistinct(bits[first := true], n - 1);
    }
  }

  /** Every clear bit below one that is taken is taken before it. */
  lemma {:induction false} FirstFitLowest(bits: seq<bool>, n: nat, k: nat, s: nat)
    requires n <= NumClear(bits) && k < n && s < FirstFit(bits, n)[k] && !bits[s]
    ensures s in FirstFit(bits, n)[..k]
    decreases n
  {
    NumClearPositive(bits);
    var first := FirstClear(bits);
    NumClearSet(bits, first, true);
    var plan, rest := FirstFit(bits, n), FirstFit(bits[first := true], n - 1);
    if s == first {
      assert k != 0 && plan[..k][0] == first;
    } else {
      FirstFitLowest(bits[first := true], n - 1, k - 1, s);
      assert plan[..k] == [first] + rest[..k - 1];
    }
  }

  lemma {:induction false} FirstFitCount(bits: seq<bool>, n: nat)
    requires n <= NumClear(bits)
    ensures NumClear(SetAll(bits, FirstFit(bits, n), true)) == NumClear(bits) - n
    decreases n
  {
    if n == 0 {
      assert SetAll(bits, [], true) == bits;
    } else {
      NumClearPositive(bits);
      var first := FirstClear(bits);
      NumClearSet(bits, first, true);
      FirstFitCount(bits[first := true], n - 1);
      SetAllFirst(bits, first, FirstFit(bits[first := true], n - 1), true);
    }
  }

  /** First fit from here takes the sectors `rest` and ends with the bits `target`. */
  ghost predicate OnPlan(bits: seq<bool>, rest: seq<nat>, target: seq<bool>) {
    |rest| <= NumClear(bits) && FirstFit(bits, |rest|) == rest && SetAll(bits, rest, true) == target
  }

  lemma PlanStarts(bits: seq<bool>, need: nat)
    requires need <= NumClear(bits)
    ensures var plan := FirstFit(bits, need); OnPlan(bits, plan[0..], SetAll(bits, plan, true))
  {
    assert FirstFit(bits, need)[0..] == FirstFit(bits, need);
  }

  /** Taking the first clear bit is the next step of the plan. */
  lemma FirstFitStep(bits: seq<bool>, plan: seq<nat>, i: nat, target: seq<bool>)
    requires i < |plan| && OnPlan(bits, plan[i..], target)
    ensures FirstClear(bits) == plan[i] < |bits|
    ensures OnPlan(bits[plan[i] := true], plan[i + 1..], target)
  {
    var rest := plan[i..];
    NumClearPositive(bits);
    var k := FirstClear(bits);
    NumClearSet(bits, k, true);
    assert rest == [k] + rest[1..];
    assert rest[1..] == plan[i + 1..];
    SetAllFirst(bits, k, rest[1..], true);
  }

  lemma PlanDone(bits: seq<bool>, plan: seq<nat>, target: seq<bool>)
    requires OnPlan(bits, plan[|plan|..], target)
    ensures bits == target
  {
    assert plan[|plan|..] == [];
  }

  lemma PlanIsGood(h: Header, plan: seq<nat>, fileSize: nat)
    requires |h.dataSectors| == NUM_DIRECT && fileSize <= MAX_FILE_SIZE
    requires h.numBytes as int == fileSize
        && h.numSectors as int == |plan| == DivRoundUp(fileSize, SECTOR_SIZE) <= NUM_DIRECT
    requires forall k :: 0 <= k < |plan| ==> h.dataSectors[k] as int == plan[k] < NUM_SECTORS
    requires forall k, l :: 0 <= k < l < |plan| ==> plan[k] != plan[l]
    ensures Good(h) && Data(h) == plan
  {
  }

  // ----- The header in memory -----

  class FileHeader {
    var numBytes: int32
    var numSectors: int32
    const dataSectors: array<int32>

    ghost function Value(): Header
      reads this, dataSectors
    {
      Header(numBytes, numSectors, dataSectors[..])
    }

    constructor ()
      ensures fresh(dataSectors) && dataSectors.Length == NUM_DIRECT
    {
      numBytes, numSectors := *, *;
      dataSectors := new int32[NUM_DIRECT];
    }

    method Allocate(freeMap: Bitmap, fileSize: int) returns (ok: bool)
      requires 0 <= fileSize <= MAX_FILE_SIZE && dataSectors.Length == NUM_DIRECT
      requires freeMap.Valid() && freeMap.numBits == NUM_SECTORS
      modifies this, dataSectors, freeMap.words
      ensures var bits, need := old(freeMap.Bits()), DivRoundUp(fileSize, SECTOR_SIZE);
              && (ok <==> need <= NumClear(bits))
              && (!ok ==> freeMap.Bits() == bits)
              && (ok ==> Good(Value()) && numBytes as int == fileSize && Data(Value()) == FirstFit(bits, need))
              && (ok ==> freeMap.Bits() == SetAll(bits, FirstFit(bits, need), true))
      ensures ok ==> forall k, s :: 0 <= k < |Data(Value())| && 0 <= s < Data(Value())[k] && !old(freeMap.Bits())[s] ==>
                s in Data(Value())[..k]
    {
      ghost var bits := freeMap.Bits();
      numBytes := fileSize as int32;
      var need := DivRoundUp(fileSize, SECTOR_SIZE);
      numSectors := need as int32;
      var clear := freeMap.CountClear();
      if clear < need {
        return false;
      }
      FirstFitDistinct(freeMap.Bits(), need);
      ghost var plan := FirstFit(freeMap.Bits(), need);
      TakeSectors(freeMap, need);
      PlanIsGood(Value(), plan, fileSize);
      forall k, s | 0 <= k < |plan| && 0 <= s < plan[k] && !bits[s] ensures s in plan[..k] {
        FirstFitLowest(bits, need, k, s);
      }
      ok := true;
    }

    /** Allocate's loop: one FindAndSet for each sector needed. */
    method TakeSectors(freeMap: Bitmap, need: nat)
      requires need <= NUM_DIRECT && dataSectors.Length == NUM_DIRECT
      requires freeMap.Valid() && freeMap.numBits == NUM_SECTORS && need <= NumClear(freeMap.Bits())
      modifies dataSectors, freeMap.words
      ensures var plan := FirstFit(old(freeMap.Bits()), need);
              && (forall k :: 0 <= k < need ==> dataSectors[k] as int == plan[k])
              && freeMap.Bits() == SetAll(old(freeMap.Bits()), plan, true)
    {
      hide OnPlan, FirstFit, SetAll, NumClear;
      ghost var plan := FirstFit(freeMap.Bits(), need);
      ghost var target := SetAll(freeMap.Bits(), plan, true);
      PlanStarts(freeMap.Bits(), need);
      for i := 0 to need
        invariant forall k :: 0 <= k < i ==> dataSectors[k] as int == plan[k]
        invariant OnPlan(freeMap.Bits(), plan[i..], target)
      {
        TakeOne(freeMap, i, plan, target);
      }
      PlanDone(freeMap.Bits(), plan, target);
    }

    /** One FindAndSet, which takes the next sector of the plan. */
    method TakeOne(freeMap: Bitmap, i: nat, ghost plan: seq<nat>, ghost target: seq<bool>)
      requires i < |plan| <= NUM_DIRECT && dataSectors.Length == NUM_DIRECT
      requires freeMap.Valid() && freeMap.numBits == NUM_SECTORS && OnPlan(freeMap.Bits(), plan[i..], target)
      modifies dataSectors, freeMap.words
      ensures plan[i] < NUM_SECTORS && dataSectors[..] == old(dataSectors[..])[i := plan[i] as int32]
      ensures OnPlan(freeMap.Bits(), plan[i + 1..], target)
    {
      hide OnPlan;
      FirstFitStep(freeMap.Bits(), plan, i, target);
      var sector := freeMap.FindAndSet();
      dataSectors[i] := sector as int32;
    }

    method Deallocate(freeMap: Bitmap)
      requires Good(Value()) && freeMap.Valid() && freeMap.numBits == NUM_SECTORS
      requires forall s :: s in Data(Value()) ==> freeMap.Bits()[s]
      modifies freeMap.words
      ensures freeMap.Bits() == SetAll(old(freeMap.Bits()), Data(Value()), false)
    {
      SectorsFit(Value());
      ghost var bits, data := freeMap.Bits(), Data(Value());
      for i := 0 to numSectors as int
        invariant freeMap.Bits() == SetAll(bits, data[..i], false)
      {
        var marked := freeMap.Test(dataSectors[i] as int);
        assert data[i] !in data[..i];
        assert marked;
        freeMap.Clear(dataSectors[i] as int);
        assert data[..i + 1] == data[..i] + [data[i]];
      }
      assert data[..numSectors as int] == data;
    }

    method FetchFrom(disk: SynchDisk, sector: nat)
      requires disk.Valid() && sector < NUM_SECTORS && dataSectors.Length == NUM_DIRECT
      modifies this, dataSectors
      ensures Value() == DecodeHeader(disk.sectors[sector])
    {
      var raw := new byte[SECTOR_SIZE];
      disk.ReadSector(sector, raw, 0);
      assert raw[..] == disk.sectors[sector];
      var h := DecodeHeader(raw[..]);
      numBytes, numSectors := h.numBytes, h.numSectors;
      forall k | 0 <= k < NUM_DIRECT {
        dataSectors[k] := h.dataSectors[k];
      }
      assert dataSectors[..] == h.dataSectors;
    }

    method WriteBack(disk: SynchDisk, sector: nat)
      requires disk.Valid() && sector < NUM_SECTORS && dataSectors.Length == NUM_DIRECT
      modifies disk
      ensures disk.Valid() && disk.sectors == old(disk.sectors)[sector := EncodeHeader(Value())]
    {
      var s := EncodeHeader(Header(numBytes, numSectors, dataSectors[..]));
      var raw := new byte[SECTOR_SIZE](i requires 0 <= i < SECTOR_SIZE => s[i]);
      assert raw[0..SECTOR_SIZE] == s;
      disk.WriteSector(sector, raw, 0);
    }

    method FileLength() returns (n: int)
      ensures n == Value().numBytes as int
    {
      n := numBytes as int;
    }

    method ByteToSector(offset: int) returns (sector: int)
      requires Good(Value()) && 0 <= offset < numSectors as int * SECTOR_SIZE
      ensures sector == Data(Value())[offset / SECTOR_SIZE]
    {
      SectorsFit(Value());
      sector := dataSectors[offset / SECTOR_SIZE] as int;
    }
  }
}
