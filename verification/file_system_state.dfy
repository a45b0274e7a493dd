/**
 filesys/filesys.cc, on disks as values: what creating, removing and writing files do to a disk.
 The free map and the directory are files themselves, so one sector written in the wrong place
 can destroy either. Verified against a map from names to contents, with every sector of the
 disk accounted for.
 */
module FileSystemStates {
  import opened Sums
  import opened DiskBytes
  import opened DiskGeometry
  import opened Words
  import opened Bitmaps
  import opened FileHeaders
  import opened OpenFiles
  import opened Directories

  const FREE_MAP_SECTOR := 0
  const DIRECTORY_SECTOR := 1
  const FREE_MAP_FILE_SIZE := NUM_SECTORS / BITS_IN_BYTE
  const NUM_DIR_ENTRIES := 10
  const DIRECTORY_FILE_SIZE := ENTRY_SIZE * NUM_DIR_ENTRIES

  // ----- What a disk holds -----

  ghost function MapHeader(d: seq<Sector>): Header
    requires |d| == 1024
  {
    DecodeHeader(d[0])
  }

  ghost function DirHeader(d: seq<Sector>): Header
    requires |d| == 1024
  {
    DecodeHeader(d[1])
  }

  /** The headers of the free map and of the directory are in place. */
  ghost predicate Mounted(d: seq<Sector>) {
    && |d| == 1024
    && Good(MapHeader(d)) && MapHeader(d).numBytes == 128
    && Good(DirHeader(d)) && DirHeader(d).numBytes == 200
  }

  ghost function WordsOn(d: seq<Sector>): (words: seq<bv32>)
    requires Mounted(d)
    ensures |words| == 32
  {
    UnpackWords(FileBytes(d, MapHeader(d)))
  }

  ghost function BitsOn(d: seq<Sector>): (bits: seq<bool>)
    requires Mounted(d)
    ensures |bits| == 1024
  {
    BitsOf(WordsOn(d), 1024)
  }

  ghost function TableOn(d: seq<Sector>): (t: seq<Entry>)
    requires Mounted(d)
    ensures |t| == 10 && AllShaped(t)
  {
    TableFrom(FileBytes(d, DirHeader(d)))
  }

  /** An entry in use leads to a file header. */
  ghost predicate Leads(d: seq<Sector>, e: Entry) {
    && |d| == 1024
    && (e.inUse ==> 0 <= e.sector as int < 1024 && Good(DecodeHeader(d[e.sector])))
  }

  ghost predicate AllLead(d: seq<Sector>, t: seq<Entry>) {
    forall i :: 0 <= i < |t| ==> Leads(d, t[i])
  }

  /** The sectors of the file an entry leads to: its header's, then its data. */
  ghost function FileSectors(d: seq<Sector>, e: Entry): seq<nat>
    requires Leads(d, e)
  {
    if e.inUse then [e.sector as nat] + Data(DecodeHeader(d[e.sector])) else []
  }

  ghost function SystemSectors(d: seq<Sector>): (o: seq<nat>)
    requires Mounted(d)
    ensures forall s :: s in o ==> s < 1024
  {
    [0, 1] + Data(MapHeader(d)) + Data(DirHeader(d))
  }

  /** Who owns which sectors: the system first, then each slot of the directory. */
  ghost function Owned(d: seq<Sector>): (own: seq<seq<nat>>)
    requires Mounted(d) && AllLead(d, TableOn(d))
    ensures |own| == 11 && own[0] == SystemSectors(d)
    ensures forall i :: 0 <= i < 10 ==> own[i + 1] == FileSectors(d, TableOn(d)[i])
  {
    [SystemSectors(d)] + seq(10, i requires 0 <= i < 10 => FileSectors(d, TableOn(d)[i]))
  }

  // ----- Accounting for sectors -----

  ghost function Occurs(s: nat): seq<nat> -> nat {
    (o: seq<nat>) => multiset(o)[s]
  }

  /** How often a sector is used, over all owners. */
  ghost function Uses(own: seq<seq<nat>>, s: nat): nat {
    Sum(own, Occurs(s))
  }

  predicate Marked(bits: seq<bool>, s: nat) {
    s < |bits| && bits[s]
  }

  /** Every marked sector is used exactly once and every other sector not at all. */
  ghost predicate Accounted(bits: seq<bool>, own: seq<seq<nat>>) {
    forall s: nat :: Uses(own, s) == if Marked(bits, s) then 1 else 0
  }

  ghost predicate Distinct(o: seq<nat>) {
    forall i, j :: 0 <= i < j < |o| ==> o[i] != o[j]
  }

  lemma {:induction false} DistinctOccurs(o: seq<nat>, s: nat)
    requires Distinct(o)
    ensures multiset(o)[s] == if s in o then 1 else 0
  {
    if o != [] {
      var n := |o| - 1;
      assert o == o[..n] + [o[n]];
      DistinctOccurs(o[..n], s);
    }
  }

  lemma OccursTwice(o: seq<nat>, i: nat, j: nat)
    requires i < j < |o| && o[i] == o[j]
    ensures multiset(o)[o[j]] >= 2
  {
    assert o == o[..j] + [o[j]] + o[j + 1..];
    assert o[i] in o[..j];
  }

  lemma OwnedIsMarked(bits: seq<bool>, own: seq<seq<nat>>, k: nat, s: nat)
    requires Accounted(bits, own) && k < |own| && s in own[k]
    ensures Marked(bits, s)
  {
    SumAtLeast(own, k, Occurs(s));
    assert Uses(own, s) >= 1;
  }

  lemma MarkedIsOwned(bits: seq<bool>, own: seq<seq<nat>>, s: nat) returns (k: nat)
    requires Accounted(bits, own) && Marked(bits, s)
    ensures k < |own| && s in own[k]
  {
    assert Uses(own, s) == 1;
    k := SumWitness(own, Occurs(s));
  }

  lemma OneOwner(bits: seq<bool>, own: seq<seq<nat>>, k: nat, l: nat, s: nat)
    requires Accounted(bits, own) && k < |own| && l < |own| && k != l && s in own[k]
    ensures s !in own[l]
  {
    SumUpdate(own, k, [], Occurs(s));
    SumAtLeast(own[k := []], l, Occurs(s));
    assert Uses(own, s) <= 1;
  }

  lemma OwnedOnce(bits: seq<bool>, own: seq<seq<nat>>, k: nat)
    requires Accounted(bits, own) && k < |own|
    ensures Distinct(own[k])
  {
    forall i, j | 0 <= i < j < |own[k]| ensures own[k][i] != own[k][j] {
      var s := own[k][j];
      SumAtLeast(own, k, Occurs(s));
      assert Uses(own, s) <= 1;
      if own[k][i] == s {
        OccursTwice(own[k], i, j);
      }
    }
  }

  /** What the accounting means: owners share nothing, and what they own is what is marked. */
  lemma NothingShared(bits: seq<bool>, own: seq<seq<nat>>)
    requires Accounted(bits, own)
    ensures forall k, l, s :: 0 <= k < |own| && 0 <= l < |own| && k != l && s in own[k] ==> s !in own[l]
    ensures forall k :: 0 <= k < |own| ==> Distinct(own[k])
    ensures forall k, s :: 0 <= k < |own| && s in own[k] ==> Marked(bits, s)
    ensures forall s: nat :: Marked(bits, s) ==> exists k :: 0 <= k < |own| && s in own[k]
  {
    hide Accounted, Distinct;
    forall k, l, s | 0 <= k < |own| && 0 <= l < |own| && k != l && s in own[k] ensures s !in own[l] {
      OneOwner(bits, own, k, l, s);
    }
    forall k | 0 <= k < |own| ensures Distinct(own[k]) {
      OwnedOnce(bits, own, k);
    }
    forall k, s | 0 <= k < |own| && s in own[k] ensures Marked(bits, s) {
      OwnedIsMarked(bits, own, k, s);
    }
    forall s: nat | Marked(bits, s) ensures exists k :: 0 <= k < |own| && s in own[k] {
      var k := MarkedIsOwned(bits, own, s);
    }
  }

  ghost predicate Clear(bits: seq<bool>, o: seq<nat>) {
    forall s :: s in o ==> s < |bits| && !bits[s]
  }

  /** A slot that owned nothing takes sectors that were clear. */
  lemma Grow(bits: seq<bool>, own: seq<seq<nat>>, k: nat, o: seq<nat>)
    requires Accounted(bits, own) && k < |own| && own[k] == [] && Distinct(o)
    requires Clear(bits, o)
    ensures Accounted(SetAll(bits, o, true), own[k := o])
  {
    forall s: nat ensures Uses(own[k := o], s) == if Marked(SetAll(bits, o, true), s) then 1 else 0 {
      SumUpdate(own, k, o, Occurs(s));
      DistinctOccurs(o, s);
      assert Uses(own, s) == if Marked(bits, s) then 1 else 0;
    }
  }

  /** A slot gives up what it owned. */
  lemma Shrink(bits: seq<bool>, own: seq<seq<nat>>, k: nat)
    requires Accounted(bits, own) && k < |own|
    ensures Accounted(SetAll(bits, own[k], false), own[k := []])
  {
    OwnedOnce(bits, own, k);
    forall s: nat ensures Uses(own[k := []], s) == if Marked(SetAll(bits, own[k], false), s) then 1 else 0 {
      SumUpdate(own, k, [], Occurs(s));
      DistinctOccurs(own[k], s);
      assert Occurs(s)([]) == 0;
      assert Uses(own, s) == if Marked(bits, s) then 1 else 0;
    }
  }

  // ----- The invariant of the file system -----

  ghost predicate Inv(d: seq<Sector>) {
    && Mounted(d)
    && DistinctNames(TableOn(d))
    && AllLead(d, TableOn(d))
    && Accounted(BitsOn(d), Owned(d))
  }

  lemma ApartInSequence(m: seq<nat>, r: seq<nat>)
    requires Distinct([0, 1] + m + r)
    ensures Apart(m, r)
  {
    var sys := [0, 1] + m + r;
    assert sys[0] == 0 && sys[1] == 1;
    assert forall k :: 0 <= k < |m| ==> sys[2 + k] == m[k];
    assert forall k :: 0 <= k < |r| ==> sys[2 + |m| + k] == r[k];
  }

  /** The system's headers and its two files lie apart. */
  ghost predicate Apart(map_: seq<nat>, dir: seq<nat>) {
    && 0 !in map_ + dir && 1 !in map_ + dir
    && forall s :: s in map_ ==> s !in dir
  }

  lemma SystemApart(d: seq<Sector>)
    requires Inv(d)
    ensures Apart(Data(MapHeader(d)), Data(DirHeader(d)))
  {
    hide Accounted, Distinct, TableOn, BitsOn, AllLead, DistinctNames, Good, MapHeader, DirHeader;
    OwnedOnce(BitsOn(d), Owned(d), 0);
    ApartInSequence(Data(MapHeader(d)), Data(DirHeader(d)));
  }

  /** No file lies on the system's sectors, nor on another file's. */
  lemma FilesApart(d: seq<Sector>, i: nat, s: nat)
    requires Inv(d) && i < 10 && s in FileSectors(d, TableOn(d)[i])
    ensures s !in SystemSectors(d) && Marked(BitsOn(d), s)
    ensures forall j :: 0 <= j < 10 && j != i ==> s !in FileSectors(d, TableOn(d)[j])
  {
    hide Accounted, TableOn, BitsOn, Mounted, Leads, FileSectors, SystemSectors, DistinctNames, Marked;
    var bits, own := BitsOn(d), Owned(d);
    OneOwner(bits, own, i + 1, 0, s);
    OwnedIsMarked(bits, own, i + 1, s);
    forall j | 0 <= j < 10 && j != i ensures s !in FileSectors(d, TableOn(d)[j]) {
      OneOwner(bits, own, i + 1, j + 1, s);
    }
  }

  // ----- The files as a map -----

  lemma NameLeads(d: seq<Sector>, k: seq<byte>) returns (i: nat)
    requires Inv(d) && k in Names(TableOn(d))
    ensures i < 10 && TableOn(d)[i].inUse && Key(TableOn(d)[i].name) == k
        && Names(TableOn(d))[k] == TableOn(d)[i].sector
    ensures Leads(d, TableOn(d)[i])
  {
    hide Accounted, Key, TableOn, BitsOn, Mounted;
    i := EntryOfName(TableOn(d), k);
    NamesOfEntry(TableOn(d), i);
  }

  ghost function Contents(d: seq<Sector>, e: Entry): seq<byte>
    requires Leads(d, e) && e.inUse
  {
    FileBytes(d, DecodeHeader(d[e.sector]))
  }

  /** The entry a key stands for. */
  ghost function EntryFor(d: seq<Sector>, k: seq<byte>): (e: Entry)
    requires Inv(d) && k in Names(TableOn(d))
    ensures e.inUse && Key(e.name) == k && Leads(d, e)
    ensures exists i :: 0 <= i < 10 && TableOn(d)[i] == e
  {
    assert exists i :: 0 <= i < 10 && TableOn(d)[i].inUse && Key(TableOn(d)[i].name) == k by {
      var i := NameLeads(d, k);
    }
    var i :| 0 <= i < 10 && TableOn(d)[i].inUse && Key(TableOn(d)[i].name) == k;
    TableOn(d)[i]
  }

  /** The file system as its users see it: the contents of each file, by name. */
  ghost function Files(d: seq<Sector>): map<seq<byte>, seq<byte>>
    requires Inv(d)
  {
    map k | k in Names(TableOn(d)) :: Contents(d, EntryFor(d, k))
  }

  lemma FileOfEntry(d: seq<Sector>, i: nat)
    requires Inv(d) && i < 10 && TableOn(d)[i].inUse
    ensures Key(TableOn(d)[i].name) in Files(d) && Files(d)[Key(TableOn(d)[i].name)] == Contents(d, TableOn(d)[i])
  {
    hide Accounted, Key, TableOn, BitsOn, Mounted;
    NamesOfEntry(TableOn(d), i);
    var e := EntryFor(d, Key(TableOn(d)[i].name));
    var j :| 0 <= j < 10 && TableOn(d)[j] == e;
    assert j == i;
  }

  // ----- What a write to the disk leaves alone -----

  ghost predicate Untouched(d: seq<Sector>, d2: seq<Sector>, but: seq<nat>) {
    |d| == |d2| == 1024 && forall s :: 0 <= s < 1024 && s !in but ==> d2[s] == d[s]
  }

  /** The entry leads to the same sectors, holding the same file. */
  ghost predicate SameFile(d: seq<Sector>, d2: seq<Sector>, e: Entry) {
    && Leads(d, e) && Leads(d2, e)
    && FileSectors(d2, e) == FileSectors(d, e)
    && (e.inUse ==> Contents(d2, e) == Contents(d, e))
  }

  ghost predicate OthersKept(d: seq<Sector>, d2: seq<Sector>, i: nat)
    requires Mounted(d)
  {
    forall j :: 0 <= j < 10 && j != i ==> SameFile(d, d2, TableOn(d)[j])
  }

  lemma SameSectors(d: seq<Sector>, d2: seq<Sector>, e: Entry)
    requires Leads(d, e) && |d2| == 1024
    requires forall s :: s in FileSectors(d, e) ==> d2[s] == d[s]
    ensures SameFile(d, d2, e)
  {
    if e.inUse {
      assert e.sector as nat in FileSectors(d, e);
      FileFrame(d, d2, DecodeHeader(d[e.sector]));
    }
  }

  /** A slot's file is where it was if none of its sectors has been written. */
  lemma SlotKept(d: seq<Sector>, d2: seq<Sector>, i: nat, but: seq<nat>)
    requires Inv(d) && i < 10 && Untouched(d, d2, but)
    requires forall s :: s in but ==> s in SystemSectors(d) || s !in FileSectors(d, TableOn(d)[i])
    ensures SameFile(d, d2, TableOn(d)[i])
  {
    hide Accounted, TableOn, BitsOn, Mounted, Leads, FileSectors, SystemSectors, DistinctNames, SameFile;
    var e := TableOn(d)[i];
    forall s | s in FileSectors(d, e) ensures s < 1024 && d2[s] == d[s] {
      FilesApart(d, i, s);
      assert Marked(BitsOn(d), s);
    }
    SameSectors(d, d2, e);
  }

  lemma DataInSystem(d: seq<Sector>)
    requires Mounted(d)
    ensures forall x :: x in Data(MapHeader(d)) + Data(DirHeader(d)) ==> x in SystemSectors(d)
  {
    assert SystemSectors(d) == [0, 1] + (Data(MapHeader(d)) + Data(DirHeader(d)));
  }

  lemma AllKept(d: seq<Sector>, d2: seq<Sector>, i: nat, s: nat, but: seq<nat>)
    requires Inv(d) && Untouched(d, d2, but)
    requires forall x :: x in but ==> x in SystemSectors(d) || x == s
    requires forall j :: 0 <= j < 10 && j != i ==> s !in FileSectors(d, TableOn(d)[j])
    ensures OthersKept(d, d2, i)
  {
    hide Accounted, TableOn, BitsOn, Mounted, Leads, FileSectors, SystemSectors, DistinctNames, SameFile, Untouched;
    forall j | 0 <= j < 10 && j != i ensures SameFile(d, d2, TableOn(d)[j]) {
      SlotKept(d, d2, j, but);
    }
  }

  lemma SystemOrOne(d: seq<Sector>, s: nat)
    requires Inv(d)
    ensures var but := [s] + (Data(MapHeader(d)) + Data(DirHeader(d)));
            && (forall x :: x in but ==> x in SystemSectors(d) || x == s)
            && (s != 0 ==> 0 !in but) && (s != 1 ==> 1 !in but)
    ensures 0 in SystemSectors(d) && 1 in SystemSectors(d)
  {
    hide Accounted, TableOn, BitsOn, Leads, DistinctNames, Data, Good, Owned, AllLead;
    SystemApart(d);
    assert SystemSectors(d)[0] == 0 && SystemSectors(d)[1] == 1;
  }

  lemma SameSystem(d: seq<Sector>, d2: seq<Sector>, but: seq<nat>)
    requires Mounted(d) && Untouched(d, d2, but) && 0 !in but && 1 !in but
    ensures Mounted(d2) && MapHeader(d2) == MapHeader(d) && DirHeader(d2) == DirHeader(d)
    ensures SystemSectors(d2) == SystemSectors(d)
  {
  }

  /** Ownership changes with the one entry that has changed. */
  lemma OwnedUpdate(d: seq<Sector>, d2: seq<Sector>, i: nat, e: Entry)
    requires Inv(d) && Mounted(d2) && i < 10 && SystemSectors(d2) == SystemSectors(d)
    requires TableOn(d2) == TableOn(d)[i := e] && Leads(d2, e) && OthersKept(d, d2, i)
    ensures AllLead(d2, TableOn(d2)) && Owned(d2) == Owned(d)[i + 1 := FileSectors(d2, e)]
  {
    hide Accounted, TableOn, BitsOn, Mounted, Leads, FileSectors, SystemSectors, DistinctNames;
    forall j | 0 <= j < 10 ensures Leads(d2, TableOn(d2)[j])
      ensures FileSectors(d2, TableOn(d2)[j]) == if j == i then FileSectors(d2, e) else FileSectors(d, TableOn(d)[j])
    {
      assert j == i || SameFile(d, d2, TableOn(d)[j]);
    }
  }

  /** The map of files changes with the one entry that has changed. */
  lemma FilesUpdate(d: seq<Sector>, d2: seq<Sector>, i: nat, e: Entry, k: seq<byte>)
    requires Inv(d) && Inv(d2) && i < 10 && TableOn(d2) == TableOn(d)[i := e] && OthersKept(d, d2, i)
    requires k in Names(TableOn(d)) && k in Names(TableOn(d2))
    requires (e.inUse ==> Key(e.name) != k) && (TableOn(d)[i].inUse ==> Key(TableOn(d)[i].name) != k)
    ensures Files(d2)[k] == Files(d)[k]
  {
    hide Accounted, Key, TableOn, BitsOn, Mounted, Leads, FileSectors, DistinctNames, Names, Files;
    var j := NameLeads(d, k);
    FileOfEntry(d, j);
    assert SameFile(d, d2, TableOn(d)[j]);
    assert TableOn(d2)[j] == TableOn(d)[j];
    FileOfEntry(d2, j);
  }

  lemma FileNames(d: seq<Sector>)
    requires Inv(d)
    ensures Files(d).Keys == Names(TableOn(d)).Keys
  {
    hide TableOn, Mounted, DistinctNames, AllLead, Accounted, Names;
    assert forall k :: k in Files(d) <==> k in Names(TableOn(d));
  }

  lemma FilesAdded(d: seq<Sector>, d2: seq<Sector>, i: nat, e: Entry)
    requires Inv(d) && Inv(d2) && i < 10 && TableOn(d2) == TableOn(d)[i := e] && OthersKept(d, d2, i)
    requires !TableOn(d)[i].inUse && e.inUse && Key(e.name) !in Names(TableOn(d))
    requires Names(TableOn(d2)).Keys == Names(TableOn(d)).Keys + {Key(e.name)}
    ensures Key(e.name) in Files(d2) && Files(d2) == Files(d)[Key(e.name) := Files(d2)[Key(e.name)]]
  {
    hide TableOn, OthersKept, Key, Names, Files, DistinctNames, AllLead, Accounted, Mounted;
    FileNames(d);
    FileNames(d2);
    forall k | k in Files(d) ensures k in Files(d2) && Files(d2)[k] == Files(d)[k] {
      FilesUpdate(d, d2, i, e, k);
    }
  }

  lemma FilesDropped(d: seq<Sector>, d2: seq<Sector>, i: nat)
    requires Inv(d) && Inv(d2) && i < 10 && OthersKept(d, d2, i) && TableOn(d)[i].inUse
    requires TableOn(d2) == TableOn(d)[i := TableOn(d)[i].(inUse := false)]
    requires Names(TableOn(d2)) == Names(TableOn(d)) - {Key(TableOn(d)[i].name)}
    ensures Files(d2) == Files(d) - {Key(TableOn(d)[i].name)}
  {
    hide TableOn, OthersKept, Key, Names, Files, DistinctNames, AllLead, Accounted, Mounted;
    FileNames(d);
    FileNames(d2);
    forall k | k in Files(d2) ensures k in Files(d) && Files(d2)[k] == Files(d)[k] {
      FilesUpdate(d, d2, i, TableOn(d)[i].(inUse := false), k);
    }
  }

  // ----- What the operations do to a disk -----

  function Need(size: nat): nat {
    1 + DivRoundUp(size, SECTOR_SIZE)
  }

  /** Create succeeds just when the name is new, a slot is free and the sectors are there. */
  ghost predicate CanCreate(d: seq<Sector>, name: seq<byte>, size: nat)
    requires Mounted(d)
  {
    Index(TableOn(d), name) == 10 && FreeSlot(TableOn(d)) < 10 && Need(size) <= NumClear(BitsOn(d))
  }

  /** The lowest clear sectors become the header and the data of a new entry. */
  ghost predicate Created(d: seq<Sector>, d2: seq<Sector>, name: seq<byte>, size: nat)
    requires Mounted(d) && CanCreate(d, name, size)
  {
    var t := TableOn(d);
    var own := FirstFit(BitsOn(d), Need(size));
    var e := AddEntry(t[FreeSlot(t)], name, own[0] as int32);
    && Mounted(d2)
    && TableOn(d2) == t[FreeSlot(t) := e]
    && BitsOn(d2) == SetAll(BitsOn(d), own, true)
    && Leads(d2, e) && FileSectors(d2, e) == own && DecodeHeader(d2[own[0]]).numBytes as int == size
    && Untouched(d, d2, [own[0]] + (Data(MapHeader(d)) + Data(DirHeader(d))))
  }

  ghost predicate Removed(d: seq<Sector>, d2: seq<Sector>, name: seq<byte>)
    requires Mounted(d) && Index(TableOn(d), name) < 10
  {
    var t := TableOn(d);
    var i := Index(t, name);
    && Mounted(d2)
    && TableOn(d2) == t[i := t[i].(inUse := false)]
    && Leads(d, t[i]) && BitsOn(d2) == SetAll(BitsOn(d), FileSectors(d, t[i]), false)
    && Untouched(d, d2, Data(MapHeader(d)) + Data(DirHeader(d)))
  }

  /** Writing through an open file changes that file's data sectors only. */
  ghost predicate Written(d: seq<Sector>, d2: seq<Sector>, name: seq<byte>, position: nat, data: seq<byte>)
    requires Mounted(d) && Index(TableOn(d), name) < 10
  {
    var e := TableOn(d)[Index(TableOn(d), name)];
    && Leads(d, e)
    && Untouched(d, d2, Data(DecodeHeader(d[e.sector])))
    && FileBytes(d2, DecodeHeader(d[e.sector])) == WriteOn(Contents(d, e), position, data).0
  }

  // ----- Creating a file -----

  lemma FitIsClear(bits: seq<bool>, n: nat)
    requires 0 < n <= NumClear(bits)
    ensures var own := FirstFit(bits, n);
            |own| == n && Distinct(own) && Clear(bits, own) && !Marked(bits, own[0])
  {
    hide FirstFit, NumClear;
    FirstFitDistinct(bits, n);
    assert FirstFit(bits, n)[0] in FirstFit(bits, n);
  }

  lemma ClearIsUnowned(d: seq<Sector>, s: nat)
    requires Inv(d) && !Marked(BitsOn(d), s)
    ensures s !in SystemSectors(d)
    ensures forall i :: 0 <= i < 10 ==> s !in FileSectors(d, TableOn(d)[i])
  {
    hide Accounted, TableOn, BitsOn, Mounted, FileSectors, SystemSectors, Marked, DistinctNames, Leads;
    forall k | 0 <= k < 11 ensures s !in Owned(d)[k] {
      if s in Owned(d)[k] {
        OwnedIsMarked(BitsOn(d), Owned(d), k, s);
      }
    }
    assert SystemSectors(d) == Owned(d)[0];
    forall i | 0 <= i < 10 ensures s !in FileSectors(d, TableOn(d)[i]) {
      assert FileSectors(d, TableOn(d)[i]) == Owned(d)[i + 1];
    }
  }

  lemma CreatedOthers(d: seq<Sector>, d2: seq<Sector>, name: seq<byte>, size: nat)
    requires Inv(d) && CanCreate(d, name, size) && Created(d, d2, name, size)
    ensures OthersKept(d, d2, FreeSlot(TableOn(d))) && SystemSectors(d2) == SystemSectors(d)
  {
    hide Accounted, TableOn, BitsOn, Leads, FileSectors, DistinctNames, FirstFit, Data, Good, AddEntry, Owned,
         SameFile, Untouched, Clear, Distinct, Index, SystemSectors, OthersKept, AllLead, Marked, NumClear;
    FitIsClear(BitsOn(d), Need(size));
    var s := FirstFit(BitsOn(d), Need(size))[0];
    ClearIsUnowned(d, s);
    SystemOrOne(d, s);
    var but := [s] + (Data(MapHeader(d)) + Data(DirHeader(d)));
    SameSystem(d, d2, but);
    AllKept(d, d2, FreeSlot(TableOn(d)), s, but);
  }

  lemma FreeSlotOwnsNothing(d: seq<Sector>)
    requires Inv(d) && FreeSlot(TableOn(d)) < 10
    ensures Owned(d)[FreeSlot(TableOn(d)) + 1] == []
  {
    hide Accounted, TableOn, BitsOn, Mounted, Leads;
  }

  lemma CreatedNames(d: seq<Sector>, d2: seq<Sector>, name: seq<byte>, size: nat)
    requires Inv(d) && CanCreate(d, name, size) && Created(d, d2, name, size)
    ensures DistinctNames(TableOn(d2))
    ensures Names(TableOn(d2)) == Names(TableOn(d))[Key(name) := FirstFit(BitsOn(d), Need(size))[0] as int32]
  {
    hide Accounted, BitsOn, Leads, Mounted, AddEntry, FirstFit, Key, FileSectors, TableOn, AllLead, Owned, Names,
         DistinctNames;
    var t, own := TableOn(d), FirstFit(BitsOn(d), Need(size));
    FindIsLookup(t, name);
    AddNames(t, FreeSlot(t), name, own[0] as int32);
  }

  /** Creating a file keeps the invariant. */
  lemma CreateKeepsInv(d: seq<Sector>, d2: seq<Sector>, name: seq<byte>, size: nat)
    requires Inv(d) && CanCreate(d, name, size) && Created(d, d2, name, size)
    ensures Inv(d2)
  {
    hide Accounted, BitsOn, Leads, Mounted, AddEntry, FirstFit, FileSectors, TableOn, AllLead, Owned, Names,
         DistinctNames, Clear, Distinct, SameFile, OthersKept, SetAll, Untouched, Index;
    FitIsClear(BitsOn(d), Need(size));
    CreatedNames(d, d2, name, size);
    CreatedOthers(d, d2, name, size);
    OwnedUpdate(d, d2, FreeSlot(TableOn(d)), TableOn(d2)[FreeSlot(TableOn(d))]);
    FreeSlotOwnsNothing(d);
    Grow(BitsOn(d), Owned(d), FreeSlot(TableOn(d)) + 1, FirstFit(BitsOn(d), Need(size)));
  }

  lemma CreatedFile(d: seq<Sector>, d2: seq<Sector>, name: seq<byte>, size: nat)
    requires Inv(d) && CanCreate(d, name, size) && Created(d, d2, name, size) && Inv(d2)
    ensures TableOn(d2)[FreeSlot(TableOn(d))].inUse && Key(TableOn(d2)[FreeSlot(TableOn(d))].name) == Key(name)
    ensures Key(name) in Files(d2) && |Files(d2)[Key(name)]| == size
  {
    hide Accounted, BitsOn, Mounted, FirstFit, TableOn, AllLead, Owned, Names, DistinctNames, Clear, Distinct, SetAll,
         Untouched, Index, Key, Files;
    var t := TableOn(d);
    AddedKey(t[FreeSlot(t)], name, FirstFit(BitsOn(d), Need(size))[0] as int32);
    FileOfEntry(d2, FreeSlot(t));
  }

  /** Users see one more file, of the size they asked for; every other file is as it was. */
  lemma CreateAddsFile(d: seq<Sector>, d2: seq<Sector>, name: seq<byte>, size: nat)
    requires Inv(d) && CanCreate(d, name, size) && Created(d, d2, name, size)
    ensures Inv(d2) && Key(name) !in Files(d)
    ensures Key(name) in Files(d2) && |Files(d2)[Key(name)]| == size
    ensures Files(d2) == Files(d)[Key(name) := Files(d2)[Key(name)]]
  {
    hide TableOn, OthersKept, Key, Names, Files, AddEntry, BitsOn, Mounted, FirstFit, FileSectors, Leads, Untouched,
         DistinctNames, AllLead, Accounted, NumClear, FreeSlot, Index, SetAll;
    CreateKeepsInv(d, d2, name, size);
    CreatedFile(d, d2, name, size);
    CreatedNames(d, d2, name, size);
    CreatedOthers(d, d2, name, size);
    CreatedKey(d, name, size);
    FilesAdded(d, d2, FreeSlot(TableOn(d)), TableOn(d2)[FreeSlot(TableOn(d))]);
  }

  lemma CreatedKey(d: seq<Sector>, name: seq<byte>, size: nat)
    requires Inv(d) && CanCreate(d, name, size)
    ensures Key(name) !in Names(TableOn(d)) && Key(name) !in Files(d)
  {
    hide Key, Names, Files, TableOn, Accounted, AllLead;
    FindIsLookup(TableOn(d), name);
    FileNames(d);
  }

  // ----- Removing a file -----

  lemma RemovedOthers(d: seq<Sector>, d2: seq<Sector>, name: seq<byte>)
    requires Inv(d) && Index(TableOn(d), name) < 10 && Removed(d, d2, name)
    ensures OthersKept(d, d2, Index(TableOn(d), name)) && SystemSectors(d2) == SystemSectors(d)
  {
    hide Accounted, TableOn, BitsOn, Leads, FileSectors, DistinctNames, Data, Good, Owned, SameFile, Untouched, Clear,
         Distinct, Index, SystemSectors, OthersKept, AllLead, Marked, NumClear;
    var but := Data(MapHeader(d)) + Data(DirHeader(d));
    SystemOrOne(d, 1024);
    assert forall x :: x in but ==> x in [1024] + but;
    SameSystem(d, d2, but);
    NoSuchSector(d);
    AllKept(d, d2, Index(TableOn(d), name), 1024, but);
  }

  lemma NoSuchSector(d: seq<Sector>)
    requires Inv(d)
    ensures forall j :: 0 <= j < 10 ==> 1024 !in FileSectors(d, TableOn(d)[j])
  {
    hide Accounted, TableOn, BitsOn, DistinctNames;
  }

  lemma RemovedNames(d: seq<Sector>, d2: seq<Sector>, name: seq<byte>)
    requires Inv(d) && Index(TableOn(d), name) < 10 && Removed(d, d2, name)
    ensures DistinctNames(TableOn(d2)) && Names(TableOn(d2)) == Names(TableOn(d)) - {Key(name)}
    ensures Key(name) in Names(TableOn(d))
  {
    hide Accounted, BitsOn, Leads, Mounted, Key, FileSectors, TableOn, AllLead, Owned, Names, DistinctNames;
    FindIsLookup(TableOn(d), name);
    RemoveNames(TableOn(d), Index(TableOn(d), name));
  }

  lemma UnusedLeads(d: seq<Sector>, e: Entry)
    requires Mounted(d) && !e.inUse
    ensures Leads(d, e) && FileSectors(d, e) == []
  {
  }

  /** Removing a file keeps the invariant. */
  lemma RemoveKeepsInv(d: seq<Sector>, d2: seq<Sector>, name: seq<byte>)
    requires Inv(d) && Index(TableOn(d), name) < 10 && Removed(d, d2, name)
    ensures Inv(d2)
  {
    hide Accounted, BitsOn, Mounted, TableOn, AllLead, Names, DistinctNames, Clear, Distinct, SameFile, OthersKept,
         SetAll, Untouched, Index, Leads, FileSectors;
    var i := Index(TableOn(d), name);
    RemovedNames(d, d2, name);
    RemovedOthers(d, d2, name);
    UnusedLeads(d2, TableOn(d)[i].(inUse := false));
    OwnedUpdate(d, d2, i, TableOn(d)[i].(inUse := false));
    Shrink(BitsOn(d), Owned(d), i + 1);
  }

  /** Users see that file gone and every other one as it was. */
  lemma RemoveDropsFile(d: seq<Sector>, d2: seq<Sector>, name: seq<byte>)
    requires Inv(d) && Index(TableOn(d), name) < 10 && Removed(d, d2, name)
    ensures Inv(d2) && Key(name) in Files(d)
    ensures Files(d2) == Files(d) - {Key(name)}
  {
    hide TableOn, OthersKept, Key, Names, Files, BitsOn, Mounted, FileSectors, Leads, Untouched, Accounted, AllLead,
         DistinctNames;
    RemoveKeepsInv(d, d2, name);
    RemovedNames(d, d2, name);
    RemovedOthers(d, d2, name);
    FileNames(d);
    MatchesKey(TableOn(d)[Index(TableOn(d), name)], name);
    FilesDropped(d, d2, Index(TableOn(d), name));
  }

  // ----- Writing to a file -----

  lemma SystemSame(d: seq<Sector>, d2: seq<Sector>)
    requires Mounted(d) && |d2| == 1024
    requires forall s :: s in SystemSectors(d) ==> d2[s] == d[s]
    ensures Mounted(d2) && SystemSectors(d2) == SystemSectors(d)
    ensures BitsOn(d2) == BitsOn(d) && TableOn(d2) == TableOn(d)
    ensures MapHeader(d2) == MapHeader(d) && DirHeader(d2) == DirHeader(d)
  {
    hide Good, FileBytes;
    assert SystemSectors(d)[0] == 0 && SystemSectors(d)[1] == 1;
    assert forall s :: s in Data(MapHeader(d)) ==> s in SystemSectors(d);
    assert forall s :: s in Data(DirHeader(d)) ==> s in SystemSectors(d);
    FileFrame(d, d2, MapHeader(d));
    FileFrame(d, d2, DirHeader(d));
  }

  lemma HeaderApart(d: seq<Sector>, i: nat)
    requires Inv(d) && i < 10 && TableOn(d)[i].inUse && Leads(d, TableOn(d)[i])
    ensures var e := TableOn(d)[i]; e.sector as nat !in Data(DecodeHeader(d[e.sector]))
    ensures var e := TableOn(d)[i]; forall s :: s in Data(DecodeHeader(d[e.sector])) ==> s in FileSectors(d, e)
  {
    hide Accounted, TableOn, BitsOn, Mounted, SystemSectors, DistinctNames, Good;
    var e := TableOn(d)[i];
    var data := Data(DecodeHeader(d[e.sector]));
    OwnedOnce(BitsOn(d), Owned(d), i + 1);
    assert FileSectors(d, e)[0] == e.sector as nat;
    assert forall k :: 0 <= k < |data| ==> FileSectors(d, e)[k + 1] == data[k];
  }

  lemma WrittenApart(d: seq<Sector>, d2: seq<Sector>, i: nat, data: seq<nat>)
    requires Inv(d) && i < 10 && TableOn(d)[i].inUse && Leads(d, TableOn(d)[i])
    requires data == Data(DecodeHeader(d[TableOn(d)[i].sector])) && Untouched(d, d2, data)
    ensures forall s :: s in SystemSectors(d) ==> d2[s] == d[s]
    ensures OthersKept(d, d2, i)
    ensures d2[TableOn(d)[i].sector] == d[TableOn(d)[i].sector]
  {
    hide Accounted, TableOn, BitsOn, Mounted, SystemSectors, DistinctNames, SameFile, Good, Data, FileSectors;
    var e := TableOn(d)[i];
    HeaderApart(d, i);
    forall s | s in data
      ensures s !in SystemSectors(d)
      ensures forall j :: 0 <= j < 10 && j != i ==> s !in FileSectors(d, TableOn(d)[j])
    {
      FilesApart(d, i, s);
    }
    forall j | 0 <= j < 10 && j != i ensures SameFile(d, d2, TableOn(d)[j]) {
      SlotKept(d, d2, j, data);
    }
  }

  lemma WrittenSelf(d: seq<Sector>, d2: seq<Sector>, e: Entry)
    requires Leads(d, e) && e.inUse && |d2| == 1024 && d2[e.sector] == d[e.sector]
    ensures Leads(d2, e) && FileSectors(d2, e) == FileSectors(d, e)
    ensures Contents(d2, e) == FileBytes(d2, DecodeHeader(d[e.sector]))
  {
  }

  /** Writing to a file keeps the invariant. */
  lemma WriteKeepsInv(d: seq<Sector>, d2: seq<Sector>, name: seq<byte>, position: nat, data: seq<byte>)
    requires Inv(d) && Index(TableOn(d), name) < 10 && Written(d, d2, name, position, data)
    ensures Inv(d2) && TableOn(d2) == TableOn(d) && BitsOn(d2) == BitsOn(d)
    ensures OthersKept(d, d2, Index(TableOn(d), name))
    ensures var e := TableOn(d)[Index(TableOn(d), name)];
            && Leads(d, e) && Leads(d2, e) && Contents(d2, e) == WriteOn(Contents(d, e), position, data).0
            && d2[e.sector] == d[e.sector]
    ensures MapHeader(d2) == MapHeader(d) && DirHeader(d2) == DirHeader(d)
  {
    hide Accounted, TableOn, BitsOn, Mounted, SystemSectors, DistinctNames, SameFile, Good, Data, OthersKept, Leads,
         FileSectors, AllLead, WriteOn;
    var i := Index(TableOn(d), name);
    var e := TableOn(d)[i];
    LeadsToHeader(d, e);
    WrittenApart(d, d2, i, Data(DecodeHeader(d[e.sector])));
    SystemSame(d, d2);
    WrittenSelf(d, d2, e);
    OwnedUpdate(d, d2, i, e);
    assert Owned(d)[i + 1] == FileSectors(d, e);
    assert Owned(d2) == Owned(d);
  }

  lemma LeadsToHeader(d: seq<Sector>, e: Entry)
    requires Leads(d, e) && e.inUse
    ensures 0 <= e.sector as int < 1024 == |d| && Good(DecodeHeader(d[e.sector]))
  {
  }

  lemma FilesChanged(d: seq<Sector>, d2: seq<Sector>, i: nat)
    requires Inv(d) && Inv(d2) && i < 10 && OthersKept(d, d2, i) && TableOn(d2) == TableOn(d) && TableOn(d)[i].inUse
    ensures Leads(d2, TableOn(d)[i])
    ensures Files(d2) == Files(d)[Key(TableOn(d)[i].name) := Contents(d2, TableOn(d)[i])]
  {
    hide TableOn, OthersKept, Key, Names, Files, DistinctNames, Accounted, Mounted, Leads;
    FileNames(d);
    FileNames(d2);
    FileOfEntry(d, i);
    FileOfEntry(d2, i);
    assert TableOn(d)[i := TableOn(d)[i]] == TableOn(d);
    forall k | k in Files(d2) && k != Key(TableOn(d)[i].name) ensures k in Files(d) && Files(d2)[k] == Files(d)[k] {
      FilesUpdate(d, d2, i, TableOn(d)[i], k);
    }
  }

  /** Users see the bytes replaced in that file, and every other file as it was. */
  lemma WriteChangesFile(d: seq<Sector>, d2: seq<Sector>, name: seq<byte>, position: nat, data: seq<byte>)
    requires Inv(d) && Index(TableOn(d), name) < 10 && Written(d, d2, name, position, data)
    ensures Inv(d2) && Key(name) in Files(d)
    ensures Files(d2) == Files(d)[Key(name) := WriteOn(Files(d)[Key(name)], position, data).0]
  {
    hide TableOn, OthersKept, Key, Names, Files, DistinctNames, Accounted, Mounted, Leads, Written, WriteOn, AllLead,
         BitsOn;
    var i := Index(TableOn(d), name);
    WriteKeepsInv(d, d2, name, position, data);
    MatchesKey(TableOn(d)[i], name);
    FileOfEntry(d, i);
    FilesChanged(d, d2, i);
  }

  // ----- Formatting -----

  lemma {:induction false} AllClear(n: nat)
    ensures NumClear(seq(n, _ => false)) == n
  {
    if n > 0 {
      assert seq(n, _ => false)[..n - 1] == seq(n - 1, _ => false);
      AllClear(n - 1);
    }
  }

  /** The bits once the two header sectors are marked. */
  function HeadersMarked(): seq<bool> {
    seq(1024, _ => false)[0 := true][1 := true]
  }

  lemma RoomForHeaders()
    ensures NumClear(HeadersMarked()) == 1022
  {
    AllClear(1024);
    NumClearSet(seq(1024, _ => false), 0, true);
    NumClearSet(seq(1024, _ => false)[0 := true], 1, true);
  }

  lemma FormatSectors(m: seq<nat>, r: seq<nat>)
    requires NumClear(HeadersMarked()) == 1022 && m == FirstFit(HeadersMarked(), 1)
    requires 2 <= NumClear(SetAll(HeadersMarked(), m, true)) && r == FirstFit(SetAll(HeadersMarked(), m, true), 2)
    ensures Distinct([0, 1] + m + r) && Clear(seq(1024, _ => false), [0, 1] + m + r)
    ensures SetAll(SetAll(HeadersMarked(), m, true), r, true) == SetAll(seq(1024, _ => false), [0, 1] + m + r, true)
  {
    hide FirstFit, NumClear;
    var bits := SetAll(HeadersMarked(), m, true);
    FirstFitDistinct(bits, 2);
    assert !HeadersMarked()[m[0]] && !bits[r[0]] && !bits[r[1]];
    assert m == [m[0]] && r == [r[0], r[1]] && m[0] in m;
    assert [0, 1] + m + r == [0, 1, m[0], r[0], r[1]];
  }

  /** A disk with nothing but the system on it. */
  lemma FormattedInv(d: seq<Sector>)
    requires Mounted(d) && forall i :: 0 <= i < 10 ==> !TableOn(d)[i].inUse
    requires Distinct(SystemSectors(d)) && Clear(seq(1024, _ => false), SystemSectors(d))
    requires BitsOn(d) == SetAll(seq(1024, _ => false), SystemSectors(d), true)
    ensures Inv(d) && Files(d) == map[]
  {
    hide TableOn, BitsOn, Mounted, SystemSectors, Distinct, Clear, Accounted, SetAll, Leads, FileSectors;
    forall i | 0 <= i < 10 ensures Leads(d, TableOn(d)[i]) && FileSectors(d, TableOn(d)[i]) == [] {
      UnusedLeads(d, TableOn(d)[i]);
    }
    var none: seq<seq<nat>> := seq(11, _ => []);
    NothingOwned(none);
    Grow(seq(1024, _ => false), none, 0, SystemSectors(d));
    assert Owned(d) == none[0 := SystemSectors(d)];
    NoNames(TableOn(d));
  }

  lemma NothingOwned(none: seq<seq<nat>>)
    requires forall k :: 0 <= k < |none| ==> none[k] == []
    ensures Accounted(seq(1024, _ => false), none)
  {
    forall s: nat ensures Uses(none, s) == 0 {
      SumZero(none, Occurs(s));
    }
  }

  lemma {:induction false} NoNames(t: seq<Entry>)
    requires forall i :: 0 <= i < |t| ==> !t[i].inUse
    ensures Names(t) == map[]
  {
    if t != [] {
      NoNames(t[..|t| - 1]);
    }
  }

  // ----- Undoing -----

  lemma SetThenClear(bits: seq<bool>, own: seq<nat>)
    requires Clear(bits, own)
    ensures SetAll(SetAll(bits, own, true), own, false) == bits
  {
  }

  /** The file just created is found again, in the slot and on the sectors it was given. */
  lemma CreatedIsFound(d: seq<Sector>, d2: seq<Sector>, name: seq<byte>, size: nat)
    requires Inv(d) && CanCreate(d, name, size) && Created(d, d2, name, size)
    ensures Index(TableOn(d2), name) == FreeSlot(TableOn(d))
    ensures var e := TableOn(d2)[FreeSlot(TableOn(d))];
            Leads(d2, e) && FileSectors(d2, e) == FirstFit(BitsOn(d), Need(size))
  {
    hide Accounted, BitsOn, Mounted, FirstFit, TableOn, AllLead, Owned, Names, Clear, Distinct, SetAll, Untouched,
         Key, Files, FileSectors, Leads, AddEntry;
    CreateKeepsInv(d, d2, name, size);
    CreatedFile(d, d2, name, size);
    var i, t2 := FreeSlot(TableOn(d)), TableOn(d2);
    MatchesKey(t2[i], name);
    if Index(t2, name) < 10 {
      MatchesKey(t2[Index(t2, name)], name);
    }
  }

  /** Removing a file just created restores names, contents and free sectors. */
  lemma CreateThenRemove(d: seq<Sector>, d1: seq<Sector>, d2: seq<Sector>, name: seq<byte>, size: nat)
    requires Inv(d) && CanCreate(d, name, size) && Created(d, d1, name, size)
    requires Index(TableOn(d1), name) < 10 && Removed(d1, d2, name)
    ensures Inv(d2) && Files(d2) == Files(d) && Names(TableOn(d2)) == Names(TableOn(d)) && BitsOn(d2) == BitsOn(d)
  {
    hide Accounted, BitsOn, Mounted, FirstFit, TableOn, AllLead, Names, Clear, Distinct, SetAll, Untouched, Key,
         Files, FileSectors, Leads, AddEntry, Index, FreeSlot, NumClear, DistinctNames;
    CreateAddsFile(d, d1, name, size);
    CreatedNames(d, d1, name, size);
    CreatedKey(d, name, size);
    RemoveDropsFile(d1, d2, name);
    RemovedNames(d1, d2, name);
    CreatedIsFound(d, d1, name, size);
    FitIsClear(BitsOn(d), Need(size));
    SetThenClear(BitsOn(d), FirstFit(BitsOn(d), Need(size)));
  }
}
