/**
 Whole runs of the file system of filesys/filesys.cc, and the two clients of threads/main.cc:
 copying a file in, and printing one.
 */
module FileSystemRuns {
  import opened DiskBytes
  import opened Words
  import opened FileHeaders
  import opened OpenFiles
  import opened Directories
  import opened FileSystemStates
  import opened FileSystemCapacity
  import opened FileSystems

  const TRANSFER_SIZE := 128

  datatype Op =
    | Create(name: seq<byte>, size: nat)
    | Remove(name: seq<byte>)
    | Write(name: seq<byte>, position: nat, data: seq<byte>)

  /** What one operation does to the disk; one that cannot be done does nothing. */
  ghost predicate Step(d: seq<Sector>, op: Op, d2: seq<Sector>) {
    && Mounted(d)
    && match op
      case Create(name, size) => if CanCreate(d, name, size) then Created(d, d2, name, size) else d2 == d
      case Remove(name) => if Index(TableOn(d), name) < 10 then Removed(d, d2, name) else d2 == d
      case Write(name, position, data) =>
        if Index(TableOn(d), name) < 10 then Written(d, d2, name, position, data) else d2 == d
  }

  /** What it does to the map of files. */
  ghost predicate MapStep(files: map<seq<byte>, seq<byte>>, op: Op, files2: map<seq<byte>, seq<byte>>) {
    match op
    case Create(name, size) =>
      var key := Key(name);
      if Fits(files, name, size) then key in files2 && |files2[key]| == size && files2 == files[key := files2[key]]
      else files2 == files
    case Remove(name) => files2 == files - {Key(name)}
    case Write(name, position, data) =>
      var key := Key(name);
      files2 == if key in files then files[key := WriteOn(files[key], position, data).0] else files
  }

  ghost predicate Run(disks: seq<seq<Sector>>, ops: seq<Op>) {
    && |disks| == |ops| + 1
    && forall k :: 0 <= k < |ops| ==> Step(disks[k], ops[k], disks[k + 1])
  }

  lemma FoundIsInFiles(d: seq<Sector>, name: seq<byte>)
    requires Inv(d)
    ensures Index(TableOn(d), name) < 10 <==> Key(name) in Files(d)
    ensures Index(TableOn(d), name) < 10 ==> EntryIsContents(d, name)
  {
    hide TableOn, BitsOn, Owned, Accounted, AllLead, Mounted, DistinctNames, Names, Key, Files, Contents;
    FindIsLookup(TableOn(d), name);
    FileNames(d);
    FoundIsFile(d, name);
    if Index(TableOn(d), name) < 10 {
      FileOfEntry(d, Index(TableOn(d), name));
    }
  }

  ghost predicate EntryIsContents(d: seq<Sector>, name: seq<byte>)
    requires Inv(d) && Index(TableOn(d), name) < 10
  {
    var e := TableOn(d)[Index(TableOn(d), name)];
    e.inUse && Leads(d, e) && Key(name) in Files(d) && Files(d)[Key(name)] == Contents(d, e)
  }

  /** One operation keeps the invariant and does to the files what it should. */
  lemma StepKeepsInv(d: seq<Sector>, op: Op, d2: seq<Sector>)
    requires Inv(d) && Step(d, op, d2)
    ensures Inv(d2) && MapStep(Files(d), op, Files(d2))
  {
    hide TableOn, BitsOn, Owned, Accounted, AllLead, Mounted, DistinctNames, Names, Key, Files, CanCreate, Created,
         Removed, Written, Index, WriteOn, EntryIsContents, Fits;
    match op
    case Create(name, size) =>
      CanCreateExactly(d, name, size);
      if CanCreate(d, name, size) {
        CreateAddsFile(d, d2, name, size);
      }
    case Remove(name) =>
      FoundIsInFiles(d, name);
      if Index(TableOn(d), name) < 10 {
        RemoveDropsFile(d, d2, name);
      }
    case Write(name, position, data) =>
      FoundIsInFiles(d, name);
      if Index(TableOn(d), name) < 10 {
        WriteChangesFile(d, d2, name, position, data);
      }
  }

  /** Over any run every sector stays accounted for, and the disk refines a map of files. */
  lemma {:induction false} RunRefinesMap(disks: seq<seq<Sector>>, ops: seq<Op>)
    requires Run(disks, ops) && Inv(disks[0])
    ensures forall k :: 0 <= k < |disks| ==> Inv(disks[k])
    ensures forall k :: 0 <= k < |ops| ==> MapStep(Files(disks[k]), ops[k], Files(disks[k + 1]))
  {
    hide Inv, Step, MapStep, Files;
    if ops != [] {
      var n := |ops| - 1;
      RunRefinesMap(disks[..n + 1], ops[..n]);
      assert Inv(disks[..n + 1][n]);
      StepKeepsInv(disks[n], ops[n], disks[n + 1]);
      forall k | 0 <= k <= n ensures Inv(disks[k]) {
        assert disks[..n + 1][k] == disks[k];
      }
      forall k | 0 <= k < n ensures MapStep(Files(disks[k]), ops[k], Files(disks[k + 1])) {
        assert disks[..n + 1][k] == disks[k] && disks[..n + 1][k + 1] == disks[k + 1] && ops[..n][k] == ops[k];
      }
    }
  }

  // ----- Clients -----

  /** Writing on through an open file. */
  method WriteOpened(fs: FileSystem, file: OpenFile, ghost name: seq<byte>, from: array<byte>, numBytes: nat)
    requires fs.Valid() && Opened(file, fs.disk, name) && 0 <= file.seekPosition && numBytes <= from.Length
    modifies fs.disk, file
    ensures fs.Valid() && Opened(file, fs.disk, name)
    ensures Key(name) in Files(old(fs.disk.sectors))
    ensures var (bytes, next) := WriteOn(Files(old(fs.disk.sectors))[Key(name)], old(file.seekPosition),
        from[..numBytes]);
            Files(fs.disk.sectors) == Files(old(fs.disk.sectors))[Key(name) := bytes] && file.seekPosition == next
  {
    hide TableOn, BitsOn, Owned, Accounted, AllLead, DistinctNames, Names, Key, Files, Index, WriteOn, FileBytes,
         Good, Data, DecodeHeader, FileSectors;
    ghost var d := fs.disk.sectors;
    FoundIsInFiles(d, name);
    var _ := file.Write(from, numBytes);
    WriteChangesFile(d, fs.disk.sectors, name, old(file.seekPosition), from[..numBytes]);
    WriteKeepsInv(d, fs.disk.sectors, name, old(file.seekPosition), from[..numBytes]);
  }

  /** Copy a UNIX file of these bytes to the Nachos file `to`. */
  method Copy(fs: FileSystem, from: seq<byte>, to: seq<byte>)
    requires fs.Valid() && |from| <= MAX_FILE_SIZE
    modifies fs.disk
    ensures fs.Valid()
    ensures if CanCreate(old(fs.disk.sectors), to, |from|)
            then Files(fs.disk.sectors) == Files(old(fs.disk.sectors))[Key(to) := from]
            else fs.disk.sectors == old(fs.disk.sectors)
  {
    hide TableOn, BitsOn, Owned, Accounted, AllLead, DistinctNames, Names, Key, Files, Index, FileBytes, Good, Data,
         DecodeHeader, FileSectors, CanCreate, Created, Mounted;
    ghost var d := fs.disk.sectors;
    var created := fs.Create(to, |from|);
    if created {
      CreateAddsFile(d, fs.disk.sectors, to, |from|);
      FoundIsInFiles(fs.disk.sectors, to);
      var file := fs.Open(to);
      assert file != null;
      CopyChunks(fs, file, from, to);
    }
  }

  /** Copy's loop: the data goes over in chunks of TRANSFER_SIZE bytes. */
  method CopyChunks(fs: FileSystem, file: OpenFile, from: seq<byte>, ghost to: seq<byte>)
    requires fs.Valid() && Opened(file, fs.disk, to) && file.seekPosition == 0
    requires Key(to) in Files(fs.disk.sectors) && |Files(fs.disk.sectors)[Key(to)]| == |from|
    modifies fs.disk, file
    ensures fs.Valid() && Files(fs.disk.sectors) == Files(old(fs.disk.sectors))[Key(to) := from]
  {
    hide TableOn, BitsOn, Owned, Accounted, AllLead, DistinctNames, Names, Key, Files, Index, WriteOn, FileBytes,
         Good, Data, DecodeHeader, FileSectors, Mounted, Leads;
    ghost var files := Files(fs.disk.sectors);
    ghost var was := files[Key(to)];
    WriteNothing(was);
    var buffer := new byte[TRANSFER_SIZE];
    var at := 0;
    while at < |from|
      invariant 0 <= at <= |from|
      invariant fs.Valid() && Opened(file, fs.disk, to) && file.seekPosition == at
      invariant Key(to) in Files(fs.disk.sectors)
      invariant Files(fs.disk.sectors) == files[Key(to) := Files(fs.disk.sectors)[Key(to)]]
      invariant WriteOn(was, 0, from[..at]) == (Files(fs.disk.sectors)[Key(to)], at)
    {
      var amountRead := if |from| - at < TRANSFER_SIZE then |from| - at else TRANSFER_SIZE;
      forall i | 0 <= i < amountRead {
        buffer[i] := from[at + i];
      }
      WriteTwice(was, 0, from[..at], buffer[..amountRead]);
      assert from[..at] + buffer[..amountRead] == from[..at + amountRead];
      WriteOpened(fs, file, to, buffer, amountRead);
      WriteFits(was, from[..at + amountRead]);
      at := at + amountRead;
    }
    assert from[..at] == from;
    WriteFits(was, from);
  }

  lemma WriteNothing(was: seq<byte>)
    ensures WriteOn(was, 0, []) == (was, 0)
  {
  }

  lemma WriteFits(was: seq<byte>, from: seq<byte>)
    requires |from| <= |was|
    ensures WriteOn(was, 0, from).1 == |from|
    ensures |from| == |was| ==> WriteOn(was, 0, from).0 == from
  {
  }

  lemma NextRead(bytes: seq<byte>, position: nat, chunk: seq<byte>, next: nat)
    requires position <= |bytes| && ReadOn(bytes, position, TRANSFER_SIZE) == (chunk, next)
    ensures position + |chunk| == next <= |bytes| && bytes[..position] + chunk == bytes[..next]
    ensures chunk == [] ==> next == |bytes|
  {
  }

  /** What Print prints of the file of that name. */
  method Print(fs: FileSystem, name: seq<byte>) returns (found: bool, output: seq<byte>)
    requires fs.Valid()
    ensures found <==> Key(name) in Files(fs.disk.sectors)
    ensures output == if found then Files(fs.disk.sectors)[Key(name)] else []
  {
    hide TableOn, BitsOn, Owned, Accounted, AllLead, DistinctNames, Names, Key, Files, Index, FileBytes, Good, Data,
         DecodeHeader, FileSectors, ReadOn;
    FoundIsInFiles(fs.disk.sectors, name);
    var file := fs.Open(name);
    output := [];
    found := file != null;
    if found {
      ghost var bytes := Files(fs.disk.sectors)[Key(name)];
      assert file.Bytes() == bytes;
      var buffer := new byte[TRANSFER_SIZE];
      var amountRead := file.Read(buffer, TRANSFER_SIZE);
      NextRead(bytes, 0, buffer[..amountRead], file.seekPosition);
      while amountRead > 0
        invariant file.Valid() && file.Bytes() == bytes && 0 <= amountRead <= TRANSFER_SIZE
        invariant |output| + amountRead == file.seekPosition <= |bytes|
        invariant output + buffer[..amountRead] == bytes[..file.seekPosition]
        invariant amountRead == 0 ==> file.seekPosition == |bytes|
        decreases |bytes| - |output|
      {
        output := output + buffer[..amountRead];
        ghost var position := file.seekPosition;
        amountRead := file.Read(buffer, TRANSFER_SIZE);
        NextRead(bytes, position, buffer[..amountRead], file.seekPosition);
      }
    }
  }
}
