/**
 filesys/directory.cc and filesys/pbitmap.cc: the two structures that are themselves stored as files.
 The directory is verified against a partial map from names to header sectors.
 */
module Directories {
  import opened DiskBytes
  import opened Words
  import opened Bitmaps
  import opened FileHeaders
  import opened OpenFiles

  const FILE_NAME_MAX_LEN := 9
  const ENTRY_SIZE := 20

  // ----- C strings -----

  /** The first n characters of a C string, which ends at its first NUL. */
  function Prefix(s: seq<byte>, n: nat): (r: seq<byte>)
    ensures |r| <= n && 0 !in r && r <= s
    ensures |r| == n || |r| == |s| || s[|r|] == 0
    decreases |s|
  {
    if n == 0 || s == [] || s[0] == 0 then [] else [s[0]] + Prefix(s[1..], n - 1)
  }

  /** `strncmp(a, b, n) == 0`; a string that has run out reads as NUL. */
  predicate SameUpTo(a: seq<byte>, b: seq<byte>, n: nat)
    decreases |a|
  {
    if n == 0 then true
    else
      var x, y := if a == [] then 0 else a[0], if b == [] then 0 else b[0];
      x == y && (x == 0 || SameUpTo(a[1..], b[1..], n - 1))
  }

  /** The first n bytes after `strncpy(_, s, n)`: the string, then NULs. */
  function Padded(s: seq<byte>, n: nat): (r: seq<byte>)
    ensures |r| == n
    decreases |s|
  {
    if n == 0 then []
    else if s == [] || s[0] == 0 then seq(n, _ => 0)
    else [s[0]] + Padded(s[1..], n - 1)
  }

  lemma {:induction false} SameUpToPrefix(a: seq<byte>, b: seq<byte>, n: nat)
    ensures SameUpTo(a, b, n) <==> Prefix(a, n) == Prefix(b, n)
    decreases n
  {
    if n > 0 && a != [] && b != [] && a[0] == b[0] != 0 {
      SameUpToPrefix(a[1..], b[1..], n - 1);
      assert Prefix(a, n)[1..] == Prefix(a[1..], n - 1) && Prefix(b, n)[1..] == Prefix(b[1..], n - 1);
    }
  }

  /** The string up to its end, and then NULs only. */
  lemma {:induction false} PaddedAt(s: seq<byte>, n: nat, k: nat)
    requires k < n
    ensures Padded(s, n)[k] == if k < |Prefix(s, n)| then s[k] else 0
    decreases n
  {
    if k > 0 && s != [] && s[0] != 0 {
      PaddedAt(s[1..], n - 1, k - 1);
    }
  }

  lemma {:induction false} PaddedPrefix(s: seq<byte>, n: nat, after: seq<byte>)
    ensures Prefix(Padded(s, n) + after, n) == Prefix(s, n)
    decreases n
  {
    if n > 0 && s != [] && s[0] != 0 {
      PaddedPrefix(s[1..], n - 1, after);
      assert (Padded(s, n) + after)[1..] == Padded(s[1..], n - 1) + after;
    }
  }

  /** A name is known by its first 9 characters. */
  function Key(name: seq<byte>): seq<byte> {
    Prefix(name, FILE_NAME_MAX_LEN)
  }

  // ----- Directory entries -----

  /** `pad` is what the compiler leaves unused in the 20 bytes: 3 bytes after inUse, 2 at the end. */
  datatype Entry = Entry(inUse: bool, sector: int32, name: seq<byte>, pad: seq<byte>)

  predicate Shaped(e: Entry) {
    |e.name| == FILE_NAME_MAX_LEN + 1 && |e.pad| == 5
  }

  function EntryBytes(e: Entry): (s: seq<byte>)
    requires Shaped(e)
    ensures |s| == 20
  {
    [if e.inUse then 1 else 0] + e.pad[..3]
    + [ByteOf(e.sector, 0), ByteOf(e.sector, 1), ByteOf(e.sector, 2), ByteOf(e.sector, 3)]
    + e.name + e.pad[3..]
  }

  function EntryFrom(s: seq<byte>): (e: Entry)
    requires |s| == 20
    ensures Shaped(e)
  {
    Entry(s[0] != 0, FromBytes(s[4], s[5], s[6], s[7]), s[8..18], s[1..4] + s[18..])
  }

  lemma EntryRoundTrip(e: Entry)
    requires Shaped(e)
    ensures EntryFrom(EntryBytes(e)) == e
  {
    var s := EntryBytes(e);
    IntRoundTrip(e.sector);
    assert s[1..4] == e.pad[..3] && s[18..] == e.pad[3..] && s[8..18] == e.name;
  }

  /** An entry takes 20 bytes: inUse at 0, the sector at 4, the name at 8. */
  lemma EntryLayout(e: Entry)
    requires Shaped(e) && e.sector >= 0
    ensures var s := EntryBytes(e);
            (s[0] != 0 <==> e.inUse) && ValueAt(s, 4) == e.sector as int && s[8..18] == e.name
  {
    Digits(Unsigned(e.sector));
  }

  ghost predicate AllShaped(t: seq<Entry>) {
    forall i :: 0 <= i < |t| ==> Shaped(t[i])
  }

  function TableBytes(t: seq<Entry>): (s: seq<byte>)
    requires forall i :: 0 <= i < |t| ==> Shaped(t[i])
    ensures |s| == 20 * |t|
  {
    if t == [] then [] else EntryBytes(t[0]) + TableBytes(t[1..])
  }

  function TableFrom(s: seq<byte>): (t: seq<Entry>)
    ensures |t| == |s| / 20 && AllShaped(t)
  {
    if |s| < 20 then [] else [EntryFrom(s[..20])] + TableFrom(s[20..])
  }

  lemma {:induction false} TableRoundTrip(t: seq<Entry>)
    requires AllShaped(t)
    ensures TableFrom(TableBytes(t)) == t
  {
    if t != [] {
      EntryRoundTrip(t[0]);
      TableRoundTrip(t[1..]);
      assert TableBytes(t)[..20] == EntryBytes(t[0]) && TableBytes(t)[20..] == TableBytes(t[1..]);
    }
  }

  // ----- The directory as a map -----

  predicate Matches(e: Entry, name: seq<byte>) {
    e.inUse && SameUpTo(e.name, name, FILE_NAME_MAX_LEN)
  }

  /** The first entry in use with that name, at or after `from`; |t| if there is none. */
  function Index(t: seq<Entry>, name: seq<byte>, from: nat := 0): (i: nat)
    requires from <= |t|
    ensures from <= i <= |t|
    ensures forall j :: from <= j < i ==> !Matches(t[j], name)
    ensures i < |t| ==> Matches(t[i], name)
    decreases |t| - from
  {
    if from == |t| || Matches(t[from], name) then from else Index(t, name, from + 1)
  }

  /** The first entry not in use; |t| if there is none. */
  function FreeSlot(t: seq<Entry>, from: nat := 0): (i: nat)
    requires from <= |t|
    ensures from <= i <= |t|
    ensures forall j :: from <= j < i ==> t[j].inUse
    ensures i < |t| ==> !t[i].inUse
    decreases |t| - from
  {
    if from == |t| || !t[from].inUse then from else FreeSlot(t, from + 1)
  }

  ghost predicate DistinctNames(t: seq<Entry>) {
    forall i, j :: 0 <= i < j < |t| && t[i].inUse && t[j].inUse ==> Key(t[i].name) != Key(t[j].name)
  }

  /** Which header sector each name leads to. */
  function Names(t: seq<Entry>): map<seq<byte>, int32> {
    if t == [] then map[]
    else
      var rest := Names(t[..|t| - 1]);
      var e := t[|t| - 1];
      if e.inUse then rest[Key(e.name) := e.sector] else rest
  }

  /** The key of every entry in use is mapped to its sector. */
  lemma {:induction false} NamesOfEntry(t: seq<Entry>, i: nat)
    requires DistinctNames(t) && i < |t| && t[i].inUse
    ensures Key(t[i].name) in Names(t) && Names(t)[Key(t[i].name)] == t[i].sector
  {
    hide Key;
    var n := |t| - 1;
    if i < n {
      NamesOfEntry(t[..n], i);
    }
  }

  /** Every key of the map belongs to an entry in use. */
  lemma {:induction false} EntryOfName(t: seq<Entry>, k: seq<byte>) returns (i: nat)
    requires k in Names(t)
    ensures i < |t| && t[i].inUse && Key(t[i].name) == k
  {
    hide Key;
    var n := |t| - 1;
    if t[n].inUse && Key(t[n].name) == k {
      i := n;
    } else {
      i := EntryOfName(t[..n], k);
    }
  }

  lemma MatchesKey(e: Entry, name: seq<byte>)
    ensures Matches(e, name) <==> e.inUse && Key(e.name) == Key(name)
  {
    hide SameUpTo, Prefix;
    SameUpToPrefix(e.name, name, FILE_NAME_MAX_LEN);
  }

  /** Looking a name up in the table is looking its key up in the map. */
  lemma FindIsLookup(t: seq<Entry>, name: seq<byte>)
    requires DistinctNames(t)
    ensures Index(t, name) == |t| <==> Key(name) !in Names(t)
    ensures var i := Index(t, name); i < |t| ==>
        t[i].inUse && Key(t[i].name) == Key(name) && Names(t)[Key(name)] == t[i].sector
  {
    hide Key, Matches;
    var i := Index(t, name);
    if i < |t| {
      MatchesKey(t[i], name);
      NamesOfEntry(t, i);
    }
    if Key(name) in Names(t) {
      var j := EntryOfName(t, Key(name));
      MatchesKey(t[j], name);
    }
  }

  function AddEntry(e: Entry, name: seq<byte>, sector: int32): (r: Entry)
    requires Shaped(e)
    ensures Shaped(r) && r.inUse && r.sector == sector
  {
    e.(inUse := true, sector := sector, name := Padded(name, FILE_NAME_MAX_LEN) + e.name[FILE_NAME_MAX_LEN..])
  }

  lemma AddedKey(e: Entry, name: seq<byte>, sector: int32)
    requires Shaped(e)
    ensures Key(AddEntry(e, name, sector).name) == Key(name)
  {
    hide Padded, Prefix;
    PaddedPrefix(name, FILE_NAME_MAX_LEN, e.name[FILE_NAME_MAX_LEN..]);
  }

  /** Putting an entry with a new key into an unused slot adds that key. */
  lemma {:induction false} NamesWith(t: seq<Entry>, i: nat, e: Entry)
    requires i < |t| && DistinctNames(t[i := e]) && !t[i].inUse && e.inUse
    ensures Names(t[i := e]) == Names(t)[Key(e.name) := e.sector]
  {
    hide Key;
    var n := |t| - 1;
    var t' := t[i := e];
    if i == n {
      assert t'[..n] == t[..n];
    } else {
      assert t'[..n] == t[..n][i := e] && t'[i] == e && t'[n] == t[n];
      NamesWith(t[..n], i, e);
    }
  }

  /** Leaving a slot unused removes its key. */
  lemma {:induction false} NamesWithout(t: seq<Entry>, i: nat)
    requires DistinctNames(t) && i < |t| && t[i].inUse
    ensures Names(t[i := t[i].(inUse := false)]) == Names(t) - {Key(t[i].name)}
  {
    hide Key;
    var n := |t| - 1;
    var t' := t[i := t[i].(inUse := false)];
    if i == n {
      assert t'[..n] == t[..n];
      if Key(t[n].name) in Names(t[..n]) {
        var j := EntryOfName(t[..n], Key(t[n].name));
        assert false;
      }
    } else {
      assert t'[..n] == t[..n][i := t[i].(inUse := false)];
      NamesWithout(t[..n], i);
    }
  }

  lemma DistinctWith(t: seq<Entry>, i: nat, e: Entry)
    requires DistinctNames(t) && i < |t| && !t[i].inUse && Key(e.name) !in Names(t)
    ensures DistinctNames(t[i := e])
  {
    hide Key;
    forall j | 0 <= j < |t| && t[j].inUse ensures Key(t[j].name) != Key(e.name) {
      NamesOfEntry(t, j);
    }
  }

  lemma AddNames(t: seq<Entry>, i: nat, name: seq<byte>, sector: int32)
    requires AllShaped(t) && DistinctNames(t) && i < |t| && !t[i].inUse && Key(name) !in Names(t)
    ensures var t' := t[i := AddEntry(t[i], name, sector)];
            AllShaped(t') && DistinctNames(t') && Names(t') == Names(t)[Key(name) := sector]
  {
    hide Key, Names;
    AddedKey(t[i], name, sector);
    DistinctWith(t, i, AddEntry(t[i], name, sector));
    NamesWith(t, i, AddEntry(t[i], name, sector));
  }

  lemma RemoveNames(t: seq<Entry>, i: nat)
    requires AllShaped(t) && DistinctNames(t) && i < |t| && t[i].inUse
    ensures var t' := t[i := t[i].(inUse := false)];
            AllShaped(t') && DistinctNames(t') && Names(t') == Names(t) - {Key(t[i].name)}
  {
    hide Key, Names;
    NamesWithout(t, i);
  }

  // ----- The directory in memory -----

  class Directory {
    const table: array<Entry>

    ghost predicate Valid()
      reads table
    {
      AllShaped(table[..])
    }

    constructor (size: nat)
      ensures fresh(table) && table.Length == size && Valid()
      ensures forall i :: 0 <= i < size ==> !table[i].inUse
    {
      table := new Entry[size](_ => Entry(false, 0, seq(FILE_NAME_MAX_LEN + 1, _ => 0), [0, 0, 0, 0, 0]));
    }

    /** The index of the entry with that name, -1 if there is none. */
    method FindIndex(name: seq<byte>) returns (i: int)
      requires Valid()
      ensures i == if Index(table[..], name) == table.Length then -1 else Index(table[..], name)
    {
      for k := 0 to table.Length
        invariant Index(table[..], name) == Index(table[..], name, k)
      {
        if table[k].inUse && SameUpTo(table[k].name, name, FILE_NAME_MAX_LEN) {
          return k;
        }
      }
      return -1;
    }

    method Find(name: seq<byte>) returns (sector: int)
      requires Valid()
      ensures var i := Index(table[..], name);
              sector == if i == table.Length then -1 else table[i].sector as int
    {
      var i := FindIndex(name);
      sector := if i != -1 then table[i].sector as int else -1;
    }

    method Add(name: seq<byte>, newSector: int32) returns (ok: bool)
      requires Valid()
      modifies table
      ensures Valid()
      ensures var t := old(table[..]); var i := FreeSlot(t);
              && (ok <==> Index(t, name) == |t| && i < |t|)
              && table[..] == if ok then t[i := AddEntry(t[i], name, newSector)] else t
    {
      var found := FindIndex(name);
      if found != -1 {
        return false;
      }
      for i := 0 to table.Length
        invariant table[..] == old(table[..])
        invariant FreeSlot(table[..]) == FreeSlot(table[..], i)
      {
        if !table[i].inUse {
          table[i] := AddEntry(table[i], name, newSector);
          return true;
        }
      }
      return false;
    }

    method Remove(name: seq<byte>) returns (ok: bool)
      requires Valid()
      modifies table
      ensures Valid()
      ensures var t := old(table[..]); var i := Index(t, name);
              && (ok <==> i < |t|)
              && table[..] == if ok then t[i := t[i].(inUse := false)] else t
    {
      var i := FindIndex(name);
      if i == -1 {
        return false;
      }
      table[i] := table[i].(inUse := false);
      ok := true;
    }

    method FetchFrom(file: OpenFile)
      requires Valid() && file.Valid() && |file.Bytes()| == 20 * table.Length
      modifies table
      ensures Valid() && table[..] == TableFrom(old(file.Bytes()))
    {
      hide TableFrom, FileBytes, Good, Data;
      var raw := new byte[20 * table.Length];
      var _ := file.ReadAt(raw, 0, 20 * table.Length, 0);
      assert raw[..] == file.Bytes();
      var t := TableFrom(raw[..]);
      forall i | 0 <= i < table.Length {
        table[i] := t[i];
      }
      assert table[..] == t;
    }

    method WriteBack(file: OpenFile)
      requires Valid() && file.Valid() && |file.Bytes()| == 20 * table.Length
      modifies file.disk
      ensures file.Valid() && file.hdr.Value() == old(file.hdr.Value())
      ensures file.Bytes() == TableBytes(table[..])
      ensures forall s :: 0 <= s < 1024 && s !in Data(file.hdr.Value()) ==>
          file.disk.sectors[s] == old(file.disk.sectors)[s]
    {
      hide TableBytes, FileBytes, Good, Data;
      var bytes := TableBytes(table[..]);
      var raw := new byte[|bytes|](i requires 0 <= i < |bytes| => bytes[i]);
      var _, _ := file.WriteAt(raw, 20 * table.Length, 0);
      assert file.Bytes() == bytes;
    }
  }

  // ----- The bitmap in its file -----

  method FetchBitmap(freeMap: Bitmap, file: OpenFile)
    requires file.Valid() && |file.Bytes()| == 4 * freeMap.words.Length
    modifies freeMap.words
    ensures freeMap.words[..] == UnpackWords(old(file.Bytes()))
  {
    hide FileBytes, UnpackWords, Good;
    var raw := new byte[4 * freeMap.words.Length];
    var _ := file.ReadAt(raw, 0, 4 * freeMap.words.Length, 0);
    assert raw[..] == old(file.Bytes());
    var words := UnpackWords(raw[..]);
    forall k | 0 <= k < freeMap.words.Length {
      freeMap.words[k] := words[k];
    }
    assert freeMap.words[..] == words;
  }

  method WriteBitmap(freeMap: Bitmap, file: OpenFile)
    requires file.Valid() && |file.Bytes()| == 4 * freeMap.words.Length
    modifies file.disk
    ensures file.Valid() && file.hdr.Value() == old(file.hdr.Value())
    ensures file.Bytes() == PackWords(freeMap.words[..])
    ensures forall s :: 0 <= s < 1024 && s !in Data(file.hdr.Value()) ==>
        file.disk.sectors[s] == old(file.disk.sectors)[s]
  {
    hide FileBytes, FileArea, Rewritten, PackWords, Good;
    var bytes := PackWords(freeMap.words[..]);
    var raw := new byte[|bytes|](i requires 0 <= i < |bytes| => bytes[i]);
    var _, _ := file.WriteAt(raw, |bytes|, 0);
    assert file.Bytes() == bytes;
  }
}
