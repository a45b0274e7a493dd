/** filesys/filesys.cc: formatting and reopening a disk, and creating, opening and removing files. */
module FileSystems {
  import opened DiskBytes
  import opened DiskGeometry
  import opened Words
  import opened Bitmaps
  import opened FileHeaders
  import opened OpenFiles
  import opened Directories
  import opened FileSystemStates

  /** Both files rewritten, headers in place: the disk holds the new bitmap and the new table. */
  lemma Flushed(d: seq<Sector>, d2: seq<Sector>, words: seq<bv32>, t: seq<Entry>)
    requires Mounted(d) && |d2| == 1024 && d2[0] == d[0] && d2[1] == d[1] && |words| == 32 && |t| == 10 && AllShaped(t)
    requires FileBytes(d2, MapHeader(d)) == PackWords(words)
    requires FileBytes(d2, DirHeader(d)) == TableBytes(t)
    ensures Mounted(d2) && BitsOn(d2) == BitsOf(words, 1024) && TableOn(d2) == t
  {
    hide PackWords, TableBytes, FileBytes, Good, UnpackWords, TableFrom;
    WordsRoundTrip(words);
    TableRoundTrip(t);
  }

  // ----- Formatting, as values -----

  ghost predicate FormatPlan(m: Header, r: Header, bits: seq<bool>) {
    && Good(m) && m.numBytes == 128 && Good(r) && r.numBytes == 200
    && NumClear(HeadersMarked()) == 1022 && Data(m) == FirstFit(HeadersMarked(), 1)
    && 2 <= NumClear(SetAll(HeadersMarked(), Data(m), true)) == 1021
    && Data(r) == FirstFit(SetAll(HeadersMarked(), Data(m), true), 2)
    && bits == SetAll(SetAll(HeadersMarked(), Data(m), true), Data(r), true)
  }

  lemma FormatPlanFacts(m: Header, r: Header, bits: seq<bool>)
    requires FormatPlan(m, r, bits)
    ensures Good(m) && m.numBytes == 128 && Good(r) && r.numBytes == 200
    ensures Apart(Data(m), Data(r)) && Distinct([0, 1] + Data(m) + Data(r))
    ensures Clear(seq(1024, _ => false), [0, 1] + Data(m) + Data(r))
    ensures bits == SetAll(seq(1024, _ => false), [0, 1] + Data(m) + Data(r), true)
    ensures NumClear(bits) == 1019
  {
    hide FirstFit, NumClear, SetAll, Good, Data, HeadersMarked;
    FirstFitCount(SetAll(HeadersMarked(), Data(m), true), 2);
    FormatSectors(Data(m), Data(r));
    ApartInSequence(Data(m), Data(r));
  }

  // ----- Creating, as values -----

  /** What the objects in memory hold when everything has worked. */
  ghost predicate CreatePlan(d: seq<Sector>, name: seq<byte>, size: nat, h: Header, sector: nat, bits: seq<bool>,
      t: seq<Entry>)
    requires Mounted(d) && CanCreate(d, name, size)
  {
    var own, was := FirstFit(BitsOn(d), Need(size)), TableOn(d);
    && sector < 1024 && Good(h) && h.numBytes as int == size && [sector] + Data(h) == own
    && bits == SetAll(BitsOn(d), own, true)
    && t == was[FreeSlot(was) := AddEntry(was[FreeSlot(was)], name, sector as int32)]
  }

  /** What Create tests, one after the other. */
  lemma CreateTests(d: seq<Sector>, name: seq<byte>, size: nat)
    requires Mounted(d)
    ensures var bits := BitsOn(d); var k := FirstClear(bits);
            CanCreate(d, name, size) <==>
              && k < 1024 && Index(TableOn(d), name) == 10 && FreeSlot(TableOn(d)) < 10
              && DivRoundUp(size, 128) <= NumClear(bits[k := true])
  {
    hide NumClear, BitsOn, TableOn, Index, FreeSlot, FirstClear, Mounted;
    NumClearPositive(BitsOn(d));
    if FirstClear(BitsOn(d)) < 1024 {
      NumClearSet(BitsOn(d), FirstClear(BitsOn(d)), true);
    }
  }

  lemma PlanMade(d: seq<Sector>, name: seq<byte>, size: nat, h: Header, sector: nat, bits: seq<bool>, t: seq<Entry>)
    requires Mounted(d) && CanCreate(d, name, size) && sector == FirstClear(BitsOn(d)) < 1024
    requires DivRoundUp(size, 128) <= NumClear(BitsOn(d)[sector := true])
    requires Good(h) && h.numBytes as int == size
    requires Data(h) == FirstFit(BitsOn(d)[sector := true], DivRoundUp(size, 128))
    requires bits == SetAll(BitsOn(d)[sector := true], Data(h), true)
    requires var was := TableOn(d); t == was[FreeSlot(was) := AddEntry(was[FreeSlot(was)], name, sector as int32)]
    ensures CreatePlan(d, name, size, h, sector, bits, t)
  {
    hide NumClear, Good, Data, BitsOn, TableOn, Index, FreeSlot, AddEntry, FirstClear, Mounted, SetAll;
    SetAllFirst(BitsOn(d), sector, Data(h), true);
  }

  /** The new header's sector is none of the system's. */
  lemma PlanHeader(d: seq<Sector>, name: seq<byte>, size: nat, h: Header, sector: nat, bits: seq<bool>, t: seq<Entry>)
    requires Inv(d) && CanCreate(d, name, size) && CreatePlan(d, name, size, h, sector, bits, t)
    requires |h.dataSectors| == NUM_DIRECT
    ensures sector < 1024
    ensures var d1 := d[sector := EncodeHeader(h)];
            Mounted(d1) && MapHeader(d1) == MapHeader(d) && DirHeader(d1) == DirHeader(d)
  {
    hide NumClear, Good, Data, BitsOn, TableOn, Index, FreeSlot, AddEntry, FirstClear, SetAll, FirstFit, EncodeHeader,
         DecodeHeader, Owned, Accounted, AllLead, DistinctNames, SystemSectors, Clear, Distinct;
    FitIsClear(BitsOn(d), Need(size));
    assert sector == FirstFit(BitsOn(d), Need(size))[0];
    ClearIsUnowned(d, sector);
    SystemOrOne(d, sector);
  }

  lemma PlanStored(d: seq<Sector>, d1: seq<Sector>, d2: seq<Sector>, name: seq<byte>, size: nat, h: Header,
      sector: nat, bits: seq<bool>, t: seq<Entry>)
    requires Inv(d) && CanCreate(d, name, size) && CreatePlan(d, name, size, h, sector, bits, t)
    requires |h.dataSectors| == NUM_DIRECT && sector < 1024 && d1 == d[sector := EncodeHeader(h)]
    requires Mounted(d2) && BitsOn(d2) == bits && TableOn(d2) == t
    requires Untouched(d1, d2, Data(MapHeader(d)) + Data(DirHeader(d)))
    ensures Created(d, d2, name, size)
  {
    hide NumClear, Good, Data, BitsOn, TableOn, Index, FreeSlot, FirstClear, SetAll, FirstFit, EncodeHeader,
         DecodeHeader, Owned, Accounted, AllLead, DistinctNames, SystemSectors, Clear, Distinct, Marked;
    FitIsClear(BitsOn(d), Need(size));
    ClearIsUnowned(d, sector);
    DataInSystem(d);
    HeaderRoundTrip(h);
  }

  // ----- Opening and removing, as values -----

  /** A name found leads to a good header, whose data sectors are marked. */
  lemma FoundIsFile(d: seq<Sector>, name: seq<byte>)
    requires Inv(d)
    ensures Index(TableOn(d), name) < 10 ==>
      var e := TableOn(d)[Index(TableOn(d), name)];
      && e.inUse && Leads(d, e)
      && 0 <= e.sector as int < 1024 && Good(DecodeHeader(d[e.sector]))
      && forall s :: s in Data(DecodeHeader(d[e.sector])) ==> BitsOn(d)[s]
  {
    hide BitsOn, TableOn, Owned, Accounted, DistinctNames, Good, Mounted, Data, Index;
    var i := Index(TableOn(d), name);
    if i < 10 {
      var e := TableOn(d)[i];
      forall s | s in Data(DecodeHeader(d[e.sector])) ensures BitsOn(d)[s] {
        assert s in FileSectors(d, e);
        FilesApart(d, i, s);
      }
    }
  }

  lemma RemoveDone(d: seq<Sector>, d2: seq<Sector>, name: seq<byte>)
    requires Inv(d) && Index(TableOn(d), name) < 10 && Leads(d, TableOn(d)[Index(TableOn(d), name)])
    requires var e := TableOn(d)[Index(TableOn(d), name)];
             && Mounted(d2)
             && TableOn(d2) == TableOn(d)[Index(TableOn(d), name) := e.(inUse := false)]
             && BitsOn(d2) == SetAll(BitsOn(d), Data(DecodeHeader(d[e.sector])), false)[e.sector as int := false]
    requires Untouched(d, d2, Data(MapHeader(d)) + Data(DirHeader(d)))
    ensures Removed(d, d2, name)
  {
    hide BitsOn, TableOn, Owned, Accounted, DistinctNames, Good, Mounted, Data, AllLead;
    var e := TableOn(d)[Index(TableOn(d), name)];
    assert BitsOn(d2) == SetAll(BitsOn(d), FileSectors(d, e), false);
  }

  /** `file` is open on the file of that name. */
  ghost predicate Opened(file: OpenFile, disk: SynchDisk, name: seq<byte>)
    reads disk, file, file.hdr, file.hdr.dataSectors
    requires Mounted(disk.sectors)
  {
    var i := Index(TableOn(disk.sectors), name);
    && file.disk == disk && i < 10
    && Leads(disk.sectors, TableOn(disk.sectors)[i])
    && file.hdr.Value() == DecodeHeader(disk.sectors[TableOn(disk.sectors)[i].sector])
  }

  class FileSystem {
    const disk: SynchDisk
    const freeMapFile: OpenFile
    const directoryFile: OpenFile

    /** The two files stay open, with the headers that are on disk. */
    ghost predicate Attached()
      reads disk, freeMapFile.hdr, freeMapFile.hdr.dataSectors, directoryFile.hdr, directoryFile.hdr.dataSectors
    {
      && freeMapFile.disk == disk && directoryFile.disk == disk
      && Mounted(disk.sectors)
      && freeMapFile.hdr.Value() == MapHeader(disk.sectors) && directoryFile.hdr.Value() == DirHeader(disk.sectors)
    }

    ghost predicate Valid()
      reads disk, freeMapFile.hdr, freeMapFile.hdr.dataSectors, directoryFile.hdr, directoryFile.hdr.dataSectors
    {
      Attached() && Inv(disk.sectors)
    }

    /** Open a disk that holds a file system. */
    constructor Reopen(disk: SynchDisk)
      requires disk.Valid() && Inv(disk.sectors)
      ensures Valid() && this.disk == disk && disk.sectors == old(disk.sectors)
    {
      hide Good, BitsOn, TableOn, Accounted, AllLead, DistinctNames, Owned, Mounted;
      this.disk := disk;
      freeMapFile := new OpenFile(disk, FREE_MAP_SECTOR);
      directoryFile := new OpenFile(disk, DIRECTORY_SECTOR);
    }

    method FetchDirectory() returns (directory: Directory)
      requires Valid()
      ensures fresh(directory) && fresh(directory.table) && directory.table.Length == 10
      ensures directory.Valid() && directory.table[..] == TableOn(disk.sectors)
    {
      hide Good, BitsOn, Accounted, AllLead, DistinctNames, Owned, FileBytes, TableFrom;
      directory := new Directory(NUM_DIR_ENTRIES);
      directory.FetchFrom(directoryFile);
    }

    method FetchFreeMap() returns (freeMap: Bitmap)
      requires Valid()
      ensures fresh(freeMap) && fresh(freeMap.words) && freeMap.numBits == 1024 && freeMap.words.Length == 32
      ensures freeMap.Valid() && freeMap.Bits() == BitsOn(disk.sectors)
    {
      hide Good, TableOn, Accounted, AllLead, DistinctNames, Owned, FileBytes, BitsOf, UnpackWords;
      freeMap := new Bitmap(NUM_SECTORS);
      FetchBitmap(freeMap, freeMapFile);
    }

    method FlushMapThenDirectory(freeMap: Bitmap, directory: Directory)
      requires Attached() && Apart(Data(MapHeader(disk.sectors)), Data(DirHeader(disk.sectors)))
      requires freeMap.Valid() && freeMap.numBits == 1024 && freeMap.words.Length == 32
      requires directory.Valid() && directory.table.Length == 10
      modifies disk
      ensures Attached()
      ensures BitsOn(disk.sectors) == freeMap.Bits() && TableOn(disk.sectors) == directory.table[..]
      ensures var d := old(disk.sectors); Untouched(d, disk.sectors, Data(MapHeader(d)) + Data(DirHeader(d)))
    {
      hide FileBytes, Good, Data, PackWords, TableBytes, BitsOf;
      ghost var d := disk.sectors;
      WriteBitmap(freeMap, freeMapFile);
      ghost var d1 := disk.sectors;
      directory.WriteBack(directoryFile);
      FileFrame(d1, disk.sectors, MapHeader(d));
      Flushed(d, disk.sectors, freeMap.words[..], directory.table[..]);
    }

    method FlushDirectoryThenMap(freeMap: Bitmap, directory: Directory)
      requires Attached() && Apart(Data(MapHeader(disk.sectors)), Data(DirHeader(disk.sectors)))
      requires freeMap.Valid() && freeMap.numBits == 1024 && freeMap.words.Length == 32
      requires directory.Valid() && directory.table.Length == 10
      modifies disk
      ensures Attached()
      ensures BitsOn(disk.sectors) == freeMap.Bits() && TableOn(disk.sectors) == directory.table[..]
      ensures var d := old(disk.sectors); Untouched(d, disk.sectors, Data(MapHeader(d)) + Data(DirHeader(d)))
    {
      hide FileBytes, Good, Data, PackWords, TableBytes, BitsOf;
      ghost var d := disk.sectors;
      directory.WriteBack(directoryFile);
      ghost var d1 := disk.sectors;
      WriteBitmap(freeMap, freeMapFile);
      FileFrame(d1, disk.sectors, DirHeader(d));
      Flushed(d, disk.sectors, freeMap.words[..], directory.table[..]);
    }

    /** The sectors of the system itself, which there is always room for. */
    static method AllocateSystem(freeMap: Bitmap, mapHdr: FileHeader, dirHdr: FileHeader)
      requires freeMap.Valid() && freeMap.numBits == 1024 && freeMap.Bits() == seq(1024, _ => false)
      requires mapHdr.dataSectors.Length == NUM_DIRECT && dirHdr.dataSectors.Length == NUM_DIRECT
      requires mapHdr != dirHdr && mapHdr.dataSectors != dirHdr.dataSectors
      modifies freeMap.words, mapHdr, mapHdr.dataSectors, dirHdr, dirHdr.dataSectors
      ensures FormatPlan(mapHdr.Value(), dirHdr.Value(), freeMap.Bits())
    {
      hide FirstFit, NumClear, SetAll, Good, Data;
      freeMap.Mark(FREE_MAP_SECTOR);
      freeMap.Mark(DIRECTORY_SECTOR);
      RoomForHeaders();
      var mapFits := mapHdr.Allocate(freeMap, FREE_MAP_FILE_SIZE);
      assert mapFits;
      FirstFitCount(HeadersMarked(), 1);
      var dirFits := dirHdr.Allocate(freeMap, DIRECTORY_FILE_SIZE);
      assert dirFits;
    }

    /** Lay an empty file system on a disk that may hold anything. */
    constructor Format(disk: SynchDisk)
      requires disk.Valid()
      modifies disk
      ensures Valid() && this.disk == disk
      ensures Files(disk.sectors) == map[] && NumClear(BitsOn(disk.sectors)) == 1019
    {
      hide FirstFit, NumClear, SetAll, Good, Data, BitsOn, TableOn, Owned, Accounted, AllLead, DistinctNames, Files,
           EncodeHeader, DecodeHeader, FormatPlan;
      var freeMap := new Bitmap(NUM_SECTORS);
      var directory := new Directory(NUM_DIR_ENTRIES);
      var mapHdr := new FileHeader();
      var dirHdr := new FileHeader();
      AllocateSystem(freeMap, mapHdr, dirHdr);
      FormatPlanFacts(mapHdr.Value(), dirHdr.Value(), freeMap.Bits());
      mapHdr.WriteBack(disk, FREE_MAP_SECTOR);
      dirHdr.WriteBack(disk, DIRECTORY_SECTOR);
      HeaderRoundTrip(mapHdr.Value());
      HeaderRoundTrip(dirHdr.Value());
      this.disk := disk;
      freeMapFile := new OpenFile(disk, FREE_MAP_SECTOR);
      directoryFile := new OpenFile(disk, DIRECTORY_SECTOR);
      new;
      FlushMapThenDirectory(freeMap, directory);
      FormattedInv(disk.sectors);
    }

    /** Add a file of the given size, unless its name is taken or there is no room. */
    method Create(name: seq<byte>, initialSize: nat) returns (success: bool)
      requires Valid() && initialSize <= MAX_FILE_SIZE
      modifies disk
      ensures Valid()
      ensures success <==> CanCreate(old(disk.sectors), name, initialSize)
      ensures success ==> Created(old(disk.sectors), disk.sectors, name, initialSize)
      ensures !success ==> disk.sectors == old(disk.sectors)
    {
      hide FirstFit, NumClear, SetAll, Good, Data, BitsOn, TableOn, Owned, Accounted, AllLead, DistinctNames, Index,
           FreeSlot, AddEntry, FirstClear, Mounted, Created, CreatePlan;
      var directory := FetchDirectory();
      var found := directory.Find(name);
      if found != -1 {
        return false;
      }
      success := CreateNew(directory, name, initialSize);
    }

    /** Create, once the name has not been found. */
    method CreateNew(directory: Directory, name: seq<byte>, initialSize: nat) returns (success: bool)
      requires Valid() && initialSize <= MAX_FILE_SIZE
      requires directory.Valid() && directory.table.Length == 10 && directory.table[..] == TableOn(disk.sectors)
      modifies disk, directory.table
      ensures Valid()
      ensures success <==> CanCreate(old(disk.sectors), name, initialSize)
      ensures success ==> Created(old(disk.sectors), disk.sectors, name, initialSize)
      ensures !success ==> disk.sectors == old(disk.sectors)
    {
      hide FirstFit, NumClear, SetAll, Good, Data, BitsOn, TableOn, Owned, Accounted, AllLead, DistinctNames, Index,
           FreeSlot, AddEntry, FirstClear, Mounted, Created, CreatePlan, CanCreate;
      CreateTests(disk.sectors, name, initialSize);
      var freeMap := FetchFreeMap();
      var sector := freeMap.FindAndSet();
      if sector == -1 {
        return false;
      }
      var added := directory.Add(name, sector as int32);
      if !added {
        return false;
      }
      success := AllocateAndStore(directory, freeMap, sector, name, initialSize);
    }

    /** Create, once there is a sector for the header and a slot for the name. */
    method AllocateAndStore(directory: Directory, freeMap: Bitmap, sector: nat, name: seq<byte>, initialSize: nat)
        returns (success: bool)
      requires Valid() && initialSize <= MAX_FILE_SIZE
      requires sector == FirstClear(BitsOn(disk.sectors)) < 1024
      requires Index(TableOn(disk.sectors), name) == 10 && FreeSlot(TableOn(disk.sectors)) < 10
      requires directory.Valid() && directory.table.Length == 10
      requires var was := TableOn(disk.sectors);
               directory.table[..] == was[FreeSlot(was) := AddEntry(was[FreeSlot(was)], name, sector as int32)]
      requires freeMap.Valid() && freeMap.numBits == 1024 && freeMap.words.Length == 32
      requires freeMap.Bits() == BitsOn(disk.sectors)[sector := true]
      modifies disk, freeMap.words
      ensures Valid()
      ensures success <==> CanCreate(old(disk.sectors), name, initialSize)
      ensures success ==> Created(old(disk.sectors), disk.sectors, name, initialSize)
      ensures !success ==> disk.sectors == old(disk.sectors)
    {
      hide FirstFit, NumClear, SetAll, Good, Data, BitsOn, TableOn, Owned, Accounted, AllLead, DistinctNames, Index,
           FreeSlot, AddEntry;
      hide FirstClear, Mounted, Created, CreatePlan, CanCreate;
      CreateTests(disk.sectors, name, initialSize);
      var hdr := new FileHeader();
      var enough := hdr.Allocate(freeMap, initialSize);
      if !enough {
        return false;
      }
      PlanMade(disk.sectors, name, initialSize, hdr.Value(), sector, freeMap.Bits(), directory.table[..]);
      StoreNew(hdr, sector, freeMap, directory, name, initialSize);
      success := true;
    }

    /** Everything worked: flush all changes back to disk. */
    method StoreNew(hdr: FileHeader, sector: nat, freeMap: Bitmap, directory: Directory, ghost name: seq<byte>,
        ghost size: nat)
      requires Valid() && hdr.dataSectors.Length == NUM_DIRECT
      requires freeMap.Valid() && freeMap.numBits == 1024 && freeMap.words.Length == 32
      requires directory.Valid() && directory.table.Length == 10
      requires CanCreate(disk.sectors, name, size)
      requires CreatePlan(disk.sectors, name, size, hdr.Value(), sector, freeMap.Bits(), directory.table[..])
      modifies disk
      ensures Valid() && Created(old(disk.sectors), disk.sectors, name, size)
    {
      hide FirstFit, NumClear, SetAll, Good, Data, BitsOn, TableOn, Owned, Accounted, AllLead, DistinctNames, Index,
           FreeSlot, AddEntry, FirstClear, Created, CreatePlan, Untouched, CanCreate, EncodeHeader, DecodeHeader;
      ghost var d := disk.sectors;
      SystemApart(d);
      PlanHeader(d, name, size, hdr.Value(), sector, freeMap.Bits(), directory.table[..]);
      hdr.WriteBack(disk, sector);
      ghost var d1 := disk.sectors;
      FlushDirectoryThenMap(freeMap, directory);
      PlanStored(d, d1, disk.sectors, name, size, hdr.Value(), sector, freeMap.Bits(), directory.table[..]);
      CreateKeepsInv(d, disk.sectors, name, size);
    }

    /** Open a file by name; null if there is none. */
    method Open(name: seq<byte>) returns (file: OpenFile?)
      requires Valid()
      ensures file != null <==> Index(TableOn(disk.sectors), name) < 10
      ensures file != null ==> fresh(file) && fresh(file.hdr) && fresh(file.hdr.dataSectors)
      ensures file != null ==> Opened(file, disk, name) && file.seekPosition == 0
    {
      hide Good, BitsOn, TableOn, Accounted, AllLead, DistinctNames, Owned, Index, FileSectors, DecodeHeader, Files;
      var directory := FetchDirectory();
      var sector := directory.Find(name);
      FoundIsFile(disk.sectors, name);
      file := null;
      if sector >= 0 {
        file := new OpenFile(disk, sector);
      }
    }

    /** Delete a file: its entry, its header and its data. */
    method Remove(name: seq<byte>) returns (success: bool)
      requires Valid()
      modifies disk
      ensures Valid()
      ensures success <==> Index(TableOn(old(disk.sectors)), name) < 10
      ensures success ==> Removed(old(disk.sectors), disk.sectors, name)
      ensures !success ==> disk.sectors == old(disk.sectors)
    {
      hide Good, Data, BitsOn, TableOn, Owned, Accounted, AllLead, DistinctNames, Index, Removed, FileSectors,
           DecodeHeader, SetAll, Leads, Untouched;
      ghost var d := disk.sectors;
      var directory := FetchDirectory();
      var sector := directory.Find(name);
      FoundIsFile(d, name);
      if sector == -1 {
        return false;
      }
      var fileHdr := new FileHeader();
      fileHdr.FetchFrom(disk, sector);
      var freeMap := FetchFreeMap();
      fileHdr.Deallocate(freeMap);
      freeMap.Clear(sector);
      var _ := directory.Remove(name);
      SystemApart(d);
      FlushMapThenDirectory(freeMap, directory);
      RemoveDone(d, disk.sectors, name);
      RemoveKeepsInv(d, disk.sectors, name);
      success := true;
    }
  }
}
