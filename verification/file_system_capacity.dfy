/**
 How much fits on the disk of filesys/filesys.cc: whether a file can be created is settled by the map of
 files alone, their names, their number and their sizes.
 */
module FileSystemCapacity {
  import opened Sums
  import opened DiskBytes
  import opened Words
  import opened Bitmaps
  import opened FileHeaders
  import opened OpenFiles
  import opened Directories
  import opened FileSystemStates

  // ----- Clear sectors -----

  function Size(): seq<nat> -> nat {
    (o: seq<nat>) => |o|
  }

  lemma {:induction false} ClearedCount(bits: seq<bool>, o: seq<nat>)
    requires FileSystemStates.Distinct(o) && forall s :: s in o ==> Marked(bits, s)
    ensures NumClear(SetAll(bits, o, false)) == NumClear(bits) + |o|
    decreases |o|
  {
    hide NumClear;
    if o == [] {
      assert SetAll(bits, [], false) == bits;
    } else {
      assert o == [o[0]] + o[1..] && o[0] in o && Marked(bits, o[0]);
      NumClearSet(bits, o[0], false);
      forall s | s in o[1..] ensures Marked(bits[o[0] := false], s) {
        assert s in o && Marked(bits, s);
      }
      ClearedCount(bits[o[0] := false], o[1..]);
      SetAllFirst(bits, o[0], o[1..], false);
    }
  }

  /** What is marked is what is owned, also in number. */
  lemma {:induction false} ClearAndOwned(bits: seq<bool>, own: seq<seq<nat>>, k: nat)
    requires Accounted(bits, own) && k <= |own| && forall j :: 0 <= j < k ==> own[j] == []
    ensures NumClear(bits) + Sum(own, Size()) == |bits|
    decreases |own| - k
  {
    hide Accounted, NumClear, FileSystemStates.Distinct, Marked;
    if k == |own| {
      SumZero(own, Size());
      NothingMarked(bits, own);
    } else {
      Shrink(bits, own, k);
      OwnedOnce(bits, own, k);
      forall s | s in own[k] ensures Marked(bits, s) {
        OwnedIsMarked(bits, own, k, s);
      }
      ClearedCount(bits, own[k]);
      SumUpdate(own, k, [], Size());
      ClearAndOwned(SetAll(bits, own[k], false), own[k := []], k + 1);
    }
  }

  lemma NothingMarked(bits: seq<bool>, own: seq<seq<nat>>)
    requires Accounted(bits, own) && forall j :: 0 <= j < |own| ==> own[j] == []
    ensures NumClear(bits) == |bits|
  {
    forall s: nat | s < |bits| ensures !bits[s] {
      SumZero(own, Occurs(s));
      assert Uses(own, s) == 0;
    }
    assert bits == seq(|bits|, _ => false);
    AllClear(|bits|);
  }

  // ----- Sectors needed by a map of files -----

  /** How many sectors the headers and the data of these files take. */
  ghost function SectorsFor(files: map<seq<byte>, seq<byte>>): nat {
    if files == map[] then 0
    else
      var k :| k in files;
      Need(|files[k]|) + SectorsFor(files - {k})
  }

  lemma {:induction false} SectorsWithout(files: map<seq<byte>, seq<byte>>, k: seq<byte>)
    requires k in files
    ensures SectorsFor(files) == Need(|files[k]|) + SectorsFor(files - {k})
    decreases |files|
  {
    hide Need;
    var first :| first in files && SectorsFor(files) == Need(|files[first]|) + SectorsFor(files - {first});
    if first != k {
      Smaller(files, first);
      Smaller(files, k);
      SectorsWithout(files - {first}, k);
      SectorsWithout(files - {k}, first);
      assert files - {first} - {k} == files - {k} - {first};
    }
  }

  lemma Smaller<V>(m: map<seq<byte>, V>, k: seq<byte>)
    requires k in m
    ensures |m - {k}| == |m| - 1
  {
    assert (m - {k}).Keys == m.Keys - {k};
    assert |(m - {k}).Keys| == |m - {k}| && |m.Keys| == |m|;
  }

  lemma SectorsWith(files: map<seq<byte>, seq<byte>>, k: seq<byte>, bytes: seq<byte>)
    requires k !in files
    ensures SectorsFor(files[k := bytes]) == SectorsFor(files) + Need(|bytes|)
    ensures |files[k := bytes]| == |files| + 1
  {
    var files' := files[k := bytes];
    SectorsWithout(files', k);
    Smaller(files', k);
    assert files' - {k} == files;
  }

  // ----- The directory's files, entry by entry -----

  ghost function FilesOf(d: seq<Sector>, t: seq<Entry>): map<seq<byte>, seq<byte>>
    requires AllLead(d, t)
  {
    if t == [] then map[]
    else
      var n := |t| - 1;
      var rest := FilesOf(d, t[..n]);
      if t[n].inUse then rest[Key(t[n].name) := Contents(d, t[n])] else rest
  }

  lemma {:induction false} FilesOfEntry(d: seq<Sector>, t: seq<Entry>, i: nat)
    requires AllLead(d, t) && DistinctNames(t) && i < |t| && t[i].inUse
    ensures Key(t[i].name) in FilesOf(d, t) && FilesOf(d, t)[Key(t[i].name)] == Contents(d, t[i])
  {
    hide Key, Contents, Leads;
    var n := |t| - 1;
    if i < n {
      FilesOfEntry(d, t[..n], i);
    }
  }

  lemma {:induction false} FilesOfKeys(d: seq<Sector>, t: seq<Entry>)
    requires AllLead(d, t)
    ensures FilesOf(d, t).Keys == Names(t).Keys
  {
    hide Key, Contents, Leads;
    if t != [] {
      FilesOfKeys(d, t[..|t| - 1]);
    }
  }

  lemma FilesOfIsFiles(d: seq<Sector>)
    requires Inv(d)
    ensures FilesOf(d, TableOn(d)) == Files(d)
  {
    hide TableOn, BitsOn, Owned, Accounted, Mounted, Names, Key, Files, Contents, FilesOf, Leads, AllLead;
    FilesOfKeys(d, TableOn(d));
    FileNames(d);
    forall k | k in Files(d) ensures FilesOf(d, TableOn(d))[k] == Files(d)[k] {
      var i := NameLeads(d, k);
      FileOfEntry(d, i);
      FilesOfEntry(d, TableOn(d), i);
    }
  }

  /** How many entries are in use. */
  function InUse(t: seq<Entry>): nat {
    if t == [] then 0 else InUse(t[..|t| - 1]) + if t[|t| - 1].inUse then 1 else 0
  }

  /** How many sectors the files of these entries take. */
  ghost function Taken(d: seq<Sector>, t: seq<Entry>): nat
    requires AllLead(d, t)
  {
    if t == [] then 0 else Taken(d, t[..|t| - 1]) + |FileSectors(d, t[|t| - 1])|
  }

  lemma FileTakes(d: seq<Sector>, e: Entry)
    requires Leads(d, e) && e.inUse
    ensures |FileSectors(d, e)| == Need(|Contents(d, e)|)
  {
  }

  lemma UnusedTakes(d: seq<Sector>, e: Entry)
    requires Leads(d, e) && !e.inUse
    ensures FileSectors(d, e) == []
  {
  }

  lemma {:induction false} TakenByFiles(d: seq<Sector>, t: seq<Entry>)
    requires AllLead(d, t) && DistinctNames(t)
    ensures Taken(d, t) == SectorsFor(FilesOf(d, t)) && InUse(t) == |FilesOf(d, t)|
  {
    hide Key, Contents, Need, Names, FileSectors, SectorsFor;
    if t == [] {
      NoSectors();
    } else {
      var n := |t| - 1;
      var e := t[n];
      assert Leads(d, e);
      TakenByFiles(d, t[..n]);
      if e.inUse {
        FilesOfKeys(d, t[..n]);
        NewKey(t);
        FileTakes(d, e);
        SectorsWith(FilesOf(d, t[..n]), Key(e.name), Contents(d, e));
      } else {
        UnusedTakes(d, e);
      }
    }
  }

  lemma NoSectors()
    ensures SectorsFor(map[]) == 0
  {
  }

  lemma NewKey(t: seq<Entry>)
    requires t != [] && DistinctNames(t) && t[|t| - 1].inUse
    ensures Key(t[|t| - 1].name) !in Names(t[..|t| - 1])
  {
    hide Key;
    if Key(t[|t| - 1].name) in Names(t[..|t| - 1]) {
      var i := EntryOfName(t[..|t| - 1], Key(t[|t| - 1].name));
    }
  }

  lemma {:induction false} SlotFree(t: seq<Entry>)
    ensures InUse(t) <= |t|
    ensures InUse(t) < |t| <==> exists i :: 0 <= i < |t| && !t[i].inUse
  {
    if t != [] {
      var n := |t| - 1;
      SlotFree(t[..n]);
      if i :| 0 <= i < |t[..n]| && !t[..n][i].inUse {
        assert !t[i].inUse;
      }
      if i :| 0 <= i < |t| && !t[i].inUse {
        assert i == n || !t[..n][i].inUse;
      }
    }
  }

  // ----- The whole disk -----

  lemma {:induction false} SlotsTake(d: seq<Sector>, t: seq<Entry>, own: seq<seq<nat>>)
    requires AllLead(d, t) && |own| == |t| && forall i :: 0 <= i < |t| ==> own[i] == FileSectors(d, t[i])
    ensures Sum(own, Size()) == Taken(d, t)
  {
    hide FileSectors, Leads;
    if t == [] {
    } else {
      var n := |t| - 1;
      SlotsTake(d, t[..n], own[..n]);
      assert own == own[..n] + [own[n]];
      SumAppend(own[..n], own[n], Size());
    }
  }

  lemma SystemTakes(d: seq<Sector>)
    requires Mounted(d)
    ensures |SystemSectors(d)| == 5
  {
  }

  /** Five sectors are the system's; the files take the others that are not clear. */
  lemma ClearSectors(d: seq<Sector>)
    requires Inv(d)
    ensures NumClear(BitsOn(d)) + SectorsFor(Files(d)) == 1019 && InUse(TableOn(d)) == |Files(d)|
  {
    hide TableOn, BitsOn, Accounted, Mounted, DistinctNames, AllLead, FileSectors, SystemSectors, Files, FilesOf,
         SectorsFor, Taken, Leads, InUse;
    var own := Owned(d);
    ClearAndOwned(BitsOn(d), own, 0);
    SystemTakes(d);
    assert Sum(own, Size()) == 5 + Sum(own[1..], Size());
    SlotsTake(d, TableOn(d), own[1..]);
    TakenByFiles(d, TableOn(d));
    FilesOfIsFiles(d);
  }

  /** A map of files with room for one more of that name and size. */
  ghost predicate Fits(files: map<seq<byte>, seq<byte>>, name: seq<byte>, size: nat) {
    Key(name) !in files && |files| < 10 && SectorsFor(files) + Need(size) <= 1019
  }

  /** Whether a file can be created is settled by the map of files. */
  lemma CanCreateExactly(d: seq<Sector>, name: seq<byte>, size: nat)
    requires Inv(d)
    ensures CanCreate(d, name, size) <==> Fits(Files(d), name, size)
  {
    hide TableOn, BitsOn, Accounted, Mounted, AllLead, Files, SectorsFor, InUse, NumClear, Owned, Names, Key,
         DistinctNames;
    ClearSectors(d);
    SlotFree(TableOn(d));
    FileNames(d);
    FindIsLookup(TableOn(d), name);
  }
}
