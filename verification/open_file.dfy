/**
 filesys/openfile.cc: reading and writing any stretch of bytes of a file, on a disk that only
 knows whole sectors. Verified against the file as one sequence of bytes.
 */
module OpenFiles {
  import opened DiskBytes
  import opened Words
  import opened FileHeaders

  // ----- A file as a sequence of bytes -----

  /** Byte b of the data sectors of a file, including the unused end of the last one. */
  ghost function ByteAt(sectors: seq<Sector>, data: seq<nat>, b: nat): byte
    requires |sectors| == 1024 && b < |data| * 128
    requires forall k :: 0 <= k < |data| ==> data[k] < 1024
  {
    sectors[data[b / 128]][b % 128]
  }

  ghost function FileBytes(sectors: seq<Sector>, h: Header): (bytes: seq<byte>)
    requires |sectors| == 1024 && Good(h)
    ensures |bytes| == h.numBytes as int
  {
    SectorsFit(h);
    seq(h.numBytes as int, b requires 0 <= b < h.numBytes as int => ByteAt(sectors, Data(h), b))
  }

  /** All bytes of the data sectors: the file, and the unused end of the last sector. */
  ghost function FileArea(sectors: seq<Sector>, h: Header): (area: seq<byte>)
    requires |sectors| == 1024 && Good(h)
    ensures |area| == |Data(h)| * 128
  {
    seq(|Data(h)| * 128, b requires 0 <= b < |Data(h)| * 128 => ByteAt(sectors, Data(h), b))
  }

  /** Byte b of a file is in data sector b / 128, at b % 128. */
  lemma ByteOfFile(sectors: seq<Sector>, h: Header, b: nat)
    requires |sectors| == 1024 && Good(h) && b < h.numBytes as int
    ensures 0 <= h.dataSectors[b / 128] as int < 1024
    ensures FileBytes(sectors, h)[b] == sectors[h.dataSectors[b / 128] as int][b % 128]
  {
    SectorsFit(h);
  }

  lemma BytesOfArea(sectors: seq<Sector>, h: Header)
    requires |sectors| == 1024 && Good(h)
    ensures h.numBytes as int <= |FileArea(sectors, h)| < h.numBytes as int + 128
    ensures FileBytes(sectors, h) == FileArea(sectors, h)[..h.numBytes as int]
  {
    SectorsFit(h);
  }

  /** A file depends on its own data sectors only. */
  lemma FileFrame(old_: seq<Sector>, new_: seq<Sector>, h: Header)
    requires |old_| == |new_| == 1024 && Good(h)
    requires forall s :: s in Data(h) ==> new_[s] == old_[s]
    ensures FileBytes(new_, h) == FileBytes(old_, h)
  {
    SectorsFit(h);
    forall b | 0 <= b < h.numBytes as int ensures FileBytes(new_, h)[b] == FileBytes(old_, h)[b] {
      assert Data(h)[b / 128] in Data(h);
    }
  }

  /** How many bytes a request for numBytes at position moves. */
  function Transfer(length: int, numBytes: int, position: int): (r: int)
    requires 0 <= position
    ensures r == if numBytes <= 0 || length <= position then 0
                 else if length - position < numBytes then length - position
                 else numBytes
  {
    if numBytes <= 0 || position >= length then 0
    else if position + numBytes > length then length - position
    else numBytes
  }

  ghost predicate HoldsFrom(sectors: seq<Sector>, h: Header, buf: seq<byte>, firstSector: nat)
    requires |sectors| == 1024 && Good(h)
  {
    forall j :: 0 <= j < |buf| ==>
      firstSector * 128 + j < |Data(h)| * 128 &&
      buf[j] == ByteAt(sectors, Data(h), firstSector * 128 + j)
  }

  lemma HoldsAll(sectors: seq<Sector>, h: Header, buf: seq<byte>, firstSector: nat)
    requires |sectors| == 1024 && Good(h) && firstSector * 128 + |buf| <= |Data(h)| * 128
    requires forall j :: 0 <= j < |buf| ==> buf[j] == ByteAt(sectors, Data(h), firstSector * 128 + j)
    ensures HoldsFrom(sectors, h, buf, firstSector)
  {
  }

  /** A buffer of whole sectors holds the bytes of the file that lie in them. */
  lemma BufferHolds(sectors: seq<Sector>, h: Header, buf: seq<byte>, firstSector: nat, position: nat, r: nat)
    requires |sectors| == 1024 && Good(h)
    requires firstSector * 128 <= position && position + r <= h.numBytes as int
    requires position + r - firstSector * 128 <= |buf|
    requires HoldsFrom(sectors, h, buf, firstSector)
    ensures forall j :: position - firstSector * 128 <= j < position - firstSector * 128 + r ==>
              buf[j] == FileBytes(sectors, h)[firstSector * 128 + j]
  {
    SectorsFit(h);
  }

  // ----- The unused end of the last sector -----

  /** How big a buffer WriteAt allocates. */
  function BufferSize(position: nat, r: nat): nat {
    if r == 0 then 0 else (1 + (position + r - 1) / 128 - position / 128) * 128
  }

  /**
   The data sectors after WriteAt: new bytes where it was asked for them, and behind the end of the file
   whatever its freshly allocated buffer happened to hold, if the last sector was among those written.
   */
  function Rewritten(area: seq<byte>, length: nat, from: seq<byte>, position: nat, r: nat,
      garbage: seq<byte>): (after: seq<byte>)
    requires r <= |from| && |garbage| == BufferSize(position, r)
    ensures |after| == |area|
  {
    seq(|area|, b requires 0 <= b < |area| =>
      if position <= b < position + r then from[b - position]
      else if 0 < r && length <= b && position / 128 <= b / 128 <= (position + r - 1) / 128
      then garbage[b - position / 128 * 128]
      else area[b])
  }

  /**
   The bytes behind the end of the file survive a write, whatever the buffer held, if and only if nothing is
   written, there are no such bytes, or the last sector of the file is not among those written.
   */
  lemma TailKeptExactly(area: seq<byte>, length: nat, from: seq<byte>, position: nat, r: nat)
    requires r <= |from| && (0 < r ==> position + r <= length) && |area| == DivRoundUp(length, 128) * 128
    ensures (forall garbage: seq<byte> | |garbage| == BufferSize(position, r) ::
               Rewritten(area, length, from, position, r, garbage)[length..] == area[length..]) <==>
            r == 0 || length % 128 == 0 || (position + r - 1) / 128 != (length - 1) / 128
  {
    AreaCovers(length);
    if 0 < r && length % 128 != 0 && (position + r - 1) / 128 == (length - 1) / 128 {
      var garbage: seq<byte> := seq(BufferSize(position, r), _ => if area[length] == 0 then 1 else 0);
      TailLost(area, length, from, position, r, garbage);
    } else {
      forall garbage: seq<byte> | |garbage| == BufferSize(position, r)
        ensures Rewritten(area, length, from, position, r, garbage)[length..] == area[length..]
      {
        TailKept(area, length, from, position, r, garbage);
      }
    }
  }

  lemma AreaCovers(length: nat)
    ensures length <= DivRoundUp(length, 128) * 128
    ensures length % 128 != 0 ==> length < DivRoundUp(length, 128) * 128 && length / 128 == (length - 1) / 128
    ensures forall b :: length <= b < DivRoundUp(length, 128) * 128 ==> b / 128 == (length - 1) / 128
    ensures length % 128 == 0 ==> length == DivRoundUp(length, 128) * 128
  {
    var q, m := length / 128, length % 128;
    assert length == 128 * q + m;
  }

  lemma TailLost(area: seq<byte>, length: nat, from: seq<byte>, position: nat, r: nat, garbage: seq<byte>)
    requires 0 < r <= |from| && position + r <= length < |area| && |garbage| == BufferSize(position, r)
    requires length / 128 == (position + r - 1) / 128
    requires forall j :: 0 <= j < |garbage| ==> garbage[j] != area[length]
    ensures Rewritten(area, length, from, position, r, garbage)[length..] != area[length..]
  {
    var after := Rewritten(area, length, from, position, r, garbage);
    assert after[length] == garbage[length - position / 128 * 128];
    assert after[length..][0] != area[length..][0];
  }

  lemma TailKept(area: seq<byte>, length: nat, from: seq<byte>, position: nat, r: nat, garbage: seq<byte>)
    requires r <= |from| && (0 < r ==> position + r <= length) && length <= |area|
        && |garbage| == BufferSize(position, r)
    requires forall b :: length <= b < |area| ==> r == 0 || b / 128 != (position + r - 1) / 128
    ensures Rewritten(area, length, from, position, r, garbage)[length..] == area[length..]
  {
    var after := Rewritten(area, length, from, position, r, garbage);
    forall b | length <= b < |area| ensures after[b] == area[b] {
      if 0 < r {
        assert (position + r - 1) / 128 <= b / 128;
      }
    }
  }

  /** One byte written into a file of one byte: the 127 bytes behind it become those of the buffer. */
  lemma TailLostOnce()
    ensures var zeros, ones := seq(128, _ => 0 as byte), seq(128, _ => 1 as byte);
            Rewritten(zeros, 1, [7], 0, 1, ones) == [7] + seq(127, _ => 1 as byte)
  {
  }

  // ----- Reading and writing on, chunk by chunk -----

  /** The bytes read and the new position. */
  function ReadOn(bytes: seq<byte>, position: nat, numBytes: int): (r: (seq<byte>, nat))
    ensures r.1 == position + |r.0|
  {
    var r := Transfer(|bytes|, numBytes, position);
    if r == 0 then ([], position) else (bytes[position..position + r], position + r)
  }

  /** The file after the write and the new position; what does not fit is not written. */
  function WriteOn(bytes: seq<byte>, position: nat, chunk: seq<byte>): (r: (seq<byte>, nat))
    ensures |r.0| == |bytes|
  {
    var r := Transfer(|bytes|, |chunk|, position);
    if r == 0 then (bytes, position) else (bytes[..position] + chunk[..r] + bytes[position + r..], position + r)
  }

  function ReadChunks(bytes: seq<byte>, position: nat, sizes: seq<nat>): (seq<byte>, nat)
    decreases |sizes|
  {
    if sizes == [] then ([], position)
    else
      var (first, next) := ReadOn(bytes, position, sizes[0]);
      var (rest, end) := ReadChunks(bytes, next, sizes[1..]);
      (first + rest, end)
  }

  function WriteChunks(bytes: seq<byte>, position: nat, chunks: seq<seq<byte>>): (seq<byte>, nat)
    decreases |chunks|
  {
    if chunks == [] then (bytes, position)
    else
      var (bytes', next) := WriteOn(bytes, position, chunks[0]);
      WriteChunks(bytes', next, chunks[1..])
  }

  function Total(sizes: seq<nat>): nat {
    if sizes == [] then 0 else sizes[0] + Total(sizes[1..])
  }

  function Flatten(chunks: seq<seq<byte>>): seq<byte> {
    if chunks == [] then [] else chunks[0] + Flatten(chunks[1..])
  }

  lemma ReadTwice(bytes: seq<byte>, position: nat, a: nat, b: nat)
    ensures var (first, next) := ReadOn(bytes, position, a);
            var (second, end) := ReadOn(bytes, next, b);
            (first + second, end) == ReadOn(bytes, position, a + b)
  {
    var (first, next) := ReadOn(bytes, position, a);
    var (second, end) := ReadOn(bytes, next, b);
    if second == [] {
      assert first + second == first;
    } else if first == [] {
      assert first + second == second;
    } else {
      assert first + second == bytes[position..end];
    }
  }

  lemma WriteTwice(bytes: seq<byte>, position: nat, a: seq<byte>, b: seq<byte>)
    ensures var (bytes', next) := WriteOn(bytes, position, a);
            WriteOn(bytes', next, b) == WriteOn(bytes, position, a + b)
  {
    var (bytes', next) := WriteOn(bytes, position, a);
    var r := Transfer(|bytes|, |a + b|, position);
    if r > 0 {
      var ra := Transfer(|bytes|, |a|, position);
      assert (a + b)[..r] == a[..ra] + b[..r - ra];
      assert WriteOn(bytes', next, b).0 == bytes[..position] + (a[..ra] + b[..r - ra]) + bytes[position + r..];
    }
  }

  /** Reading in chunks, of whatever sizes, reads what one big read does. */
  lemma {:induction false} ChunkedRead(bytes: seq<byte>, position: nat, sizes: seq<nat>)
    ensures ReadChunks(bytes, position, sizes) == ReadOn(bytes, position, Total(sizes))
    decreases |sizes|
  {
    if sizes != [] {
      var (first, next) := ReadOn(bytes, position, sizes[0]);
      ChunkedRead(bytes, next, sizes[1..]);
      ReadTwice(bytes, position, sizes[0], Total(sizes[1..]));
    }
  }

  /** Writing in chunks, however cut, leaves the file that one big write does. */
  lemma {:induction false} ChunkedWrite(bytes: seq<byte>, position: nat, chunks: seq<seq<byte>>)
    ensures WriteChunks(bytes, position, chunks) == WriteOn(bytes, position, Flatten(chunks))
    decreases |chunks|
  {
    if chunks != [] {
      var (bytes', next) := WriteOn(bytes, position, chunks[0]);
      ChunkedWrite(bytes', next, chunks[1..]);
      WriteTwice(bytes, position, chunks[0], Flatten(chunks[1..]));
    }
  }

  /** What has been written on can be read back from where the writing began. */
  lemma ReadBack(bytes: seq<byte>, position: nat, chunk: seq<byte>)
    ensures ReadOn(WriteOn(bytes, position, chunk).0, position, |chunk|).0 ==
        chunk[..Transfer(|bytes|, |chunk|, position)]
  {
    var r := Transfer(|bytes|, |chunk|, position);
    if r > 0 {
      assert WriteOn(bytes, position, chunk).0[position..position + r] == chunk[..r];
    }
  }

  lemma ReadOnIs(bytes: seq<byte>, position: nat, numBytes: int, got: seq<byte>)
    requires |got| == Transfer(|bytes|, numBytes, position)
    requires forall k :: 0 <= k < |got| ==> got[k] == bytes[position + k]
    ensures ReadOn(bytes, position, numBytes) == (got, position + |got|)
  {
    assert ReadOn(bytes, position, numBytes).0 == got;
  }

  lemma WriteOnIs(before: seq<byte>, after: seq<byte>, position: nat, chunk: seq<byte>)
    requires |after| == |before|
    requires var r := Transfer(|before|, |chunk|, position);
             forall b :: 0 <= b < |before| ==>
                 after[b] == if position <= b < position + r then chunk[b - position] else before[b]
    ensures WriteOn(before, position, chunk) == (after, position + Transfer(|before|, |chunk|, position))
  {
    assert WriteOn(before, position, chunk).0 == after;
  }

  lemma InSector(k: nat, b: nat)
    requires k * 128 <= b < k * 128 + 128
    ensures b / 128 == k && b % 128 == b - k * 128
  {
  }

  class OpenFile {
    const disk: SynchDisk
    const hdr: FileHeader
    var seekPosition: int

    ghost predicate Valid()
      reads disk, hdr, hdr.dataSectors
    {
      disk.Valid() && Good(hdr.Value())
    }

    ghost function Bytes(): (b: seq<byte>)
      requires Valid()
      reads disk, hdr, hdr.dataSectors
      ensures |b| == hdr.Value().numBytes as int
    {
      FileBytes(disk.sectors, hdr.Value())
    }

    ghost function Area(): seq<byte>
      requires Valid()
      reads disk, hdr, hdr.dataSectors
    {
      FileArea(disk.sectors, hdr.Value())
    }

    constructor (disk: SynchDisk, sector: nat)
      requires disk.Valid() && sector < 1024
      ensures this.disk == disk && fresh(hdr) && fresh(hdr.dataSectors) && seekPosition == 0
      ensures hdr.Value() == DecodeHeader(disk.sectors[sector])
    {
      this.disk := disk;
      hdr := new FileHeader();
      seekPosition := 0;
      new;
      hdr.FetchFrom(disk, sector);
    }

    method Seek(position: int)
      modifies this
      ensures seekPosition == position
    {
      seekPosition := position;
    }

    method Length() returns (n: int)
      requires Valid()
      ensures n == |Bytes()|
    {
      n := hdr.FileLength();
    }

    /** Read numBytes at position into the buffer `into`, from its index `at` on. */
    method ReadAt(into: array<byte>, at: nat, numBytes: int, position: int) returns (r: int)
      requires Valid() && 0 <= position
      requires at + Transfer(|Bytes()|, numBytes, position) <= into.Length
      modifies into
      ensures r == Transfer(|Bytes()|, numBytes, position)
      ensures forall j :: 0 <= j < into.Length ==>
        into[j] == if at <= j < at + r then Bytes()[position + (j - at)] else old(into[j])
    {
      hide ByteAt, FileBytes, Good, HoldsFrom;
      SectorsFit(hdr.Value());
      var fileLength := hdr.FileLength();
      if numBytes <= 0 || position >= fileLength {
        return 0;
      }
      r := if position + numBytes > fileLength then fileLength - position else numBytes;
      var firstSector := position / 128;
      var lastSector := (position + r - 1) / 128;
      var buf := ReadSectors(firstSector, lastSector);
      var from := position - firstSector * 128;
      assert firstSector * 128 <= position && position + r <= (lastSector + 1) * 128;
      BufferHolds(disk.sectors, hdr.Value(), buf[..], firstSector, position, r);
      forall j | 0 <= j < r {
        into[at + j] := buf[from + j];
      }
    }

    /** Read on from the current position. */
    method Read(into: array<byte>, numBytes: int) returns (r: int)
      requires Valid() && 0 <= seekPosition && Transfer(|Bytes()|, numBytes, seekPosition) <= into.Length
      modifies into, this
      ensures Valid() && Bytes() == old(Bytes()) && 0 <= r <= into.Length
      ensures ReadOn(Bytes(), old(seekPosition), numBytes) == (into[..r], seekPosition)
      ensures into[r..] == old(into[..])[r..]
    {
      r := ReadAt(into, 0, numBytes, seekPosition);
      ReadOnIs(Bytes(), seekPosition, numBytes, into[..r]);
      seekPosition := seekPosition + r;
    }

    /** Write on from the current position. */
    method Write(from: array<byte>, numBytes: int) returns (r: int)
      requires Valid() && 0 <= seekPosition && numBytes <= from.Length
      modifies disk, this
      ensures Valid() && hdr.Value() == old(hdr.Value())
      ensures r == Transfer(|Bytes()|, numBytes, old(seekPosition))
      ensures WriteOn(old(Bytes()), old(seekPosition), if numBytes < 0 then [] else from[..numBytes]) ==
          (Bytes(), seekPosition)
      ensures forall s :: 0 <= s < 1024 && s !in Data(hdr.Value()) ==> disk.sectors[s] == old(disk.sectors)[s]
    {
      ghost var garbage;
      r, garbage := WriteAt(from, numBytes, seekPosition);
      ghost var chunk := if numBytes < 0 then [] else from[..numBytes];
      assert forall k :: 0 <= k < r ==> chunk[k] == from[k];
      WriteOnIs(old(Bytes()), Bytes(), seekPosition, chunk);
      seekPosition := seekPosition + r;
    }

    /** Bring the whole sectors firstSector..lastSector of the file into a fresh buffer. */
    method ReadSectors(firstSector: nat, lastSector: nat) returns (buf: array<byte>)
      requires Valid() && firstSector <= lastSector < hdr.numSectors as int
      ensures fresh(buf) && buf.Length == (1 + lastSector - firstSector) * 128
      ensures HoldsFrom(disk.sectors, hdr.Value(), buf[..], firstSector)
    {
      hide ByteAt;
      buf := new byte[(1 + lastSector - firstSector) * 128];
      for i := firstSector to lastSector + 1
        invariant forall j :: 0 <= j < (i - firstSector) * 128 ==>
          buf[j] == ByteAt(disk.sectors, Data(hdr.Value()), firstSector * 128 + j)
      {
        ReadOneSector(buf, firstSector, i);
      }
      HoldsAll(disk.sectors, hdr.Value(), buf[..], firstSector);
    }

    method ReadOneSector(buf: array<byte>, firstSector: nat, i: nat)
      requires Valid() && firstSector <= i < hdr.numSectors as int && (i + 1 - firstSector) * 128 <= buf.Length
      modifies buf
      ensures var at := (i - firstSector) * 128;
              forall j :: 0 <= j < buf.Length ==>
                buf[j] == if at <= j < at + 128
                          then ByteAt(disk.sectors, Data(hdr.Value()), firstSector * 128 + j)
                          else old(buf[j])
    {
      var sector := hdr.ByteToSector(i * 128);
      disk.ReadSector(sector, buf, (i - firstSector) * 128);
      forall j | (i - firstSector) * 128 <= j < (i - firstSector) * 128 + 128
        ensures buf[j] == ByteAt(disk.sectors, Data(hdr.Value()), firstSector * 128 + j)
      {
        InSector(i, firstSector * 128 + j);
      }
    }

    /**
     Write numBytes of `from` at position. Whole sectors go back to disk, so a sector that is
     only partly written is read first; `garbage` is what the buffer for them holds at first.
     */
    method WriteAt(from: array<byte>, numBytes: int, position: int) returns (r: int, ghost garbage: seq<byte>)
      requires Valid() && 0 <= position && Transfer(|Bytes()|, numBytes, position) <= from.Length
      modifies disk
      ensures Valid() && hdr.Value() == old(hdr.Value())
      ensures r == Transfer(|Bytes()|, numBytes, position)
      ensures forall b :: 0 <= b < |Bytes()| ==>
        Bytes()[b] == if position <= b < position + r then from[b - position] else old(Bytes())[b]
      ensures |garbage| == BufferSize(position, r)
      ensures Area() == Rewritten(old(Area()), |Bytes()|, from[..], position, r, garbage)
      ensures forall s :: 0 <= s < 1024 && s !in Data(hdr.Value()) ==> disk.sectors[s] == old(disk.sectors)[s]
    {
      hide ByteAt, FileBytes, FileArea, Good, Rewritten;
      var fileLength := hdr.FileLength();
      BytesOfArea(disk.sectors, hdr.Value());
      if numBytes <= 0 || position >= fileLength {
        NothingRewritten(Area(), fileLength, from[..], position);
        return 0, [];
      }
      r := if position + numBytes > fileLength then fileLength - position else numBytes;
      garbage := WriteInside(from, r, position);
      BytesOfArea(disk.sectors, hdr.Value());
      RewrittenBytes(old(Area()), fileLength, from[..], position, r, garbage);
    }

    /** WriteAt, once the request has been cut to what fits in the file. */
    method WriteInside(from: array<byte>, numBytes: int, position: nat) returns (ghost garbage: seq<byte>)
      requires Valid() && 0 < numBytes <= from.Length && position + numBytes <= |Bytes()|
      modifies disk
      ensures Valid() && hdr.Value() == old(hdr.Value())
      ensures |garbage| == BufferSize(position, numBytes)
      ensures Area() == Rewritten(old(Area()), |Bytes()|, from[..], position, numBytes, garbage)
      ensures forall s :: 0 <= s < 1024 && s !in Data(hdr.Value()) ==> disk.sectors[s] == old(disk.sectors)[s]
    {
      hide ByteAt, FileBytes, FileArea, Good, SectorsWritten, Rewritten;
      ghost var h, was := hdr.Value(), disk.sectors;
      SectorsFit(h);
      BytesOfArea(was, h);
      var firstSector := position / 128;
      var lastSector := (position + numBytes - 1) / 128;
      var buf;
      buf, garbage := Compose(from, numBytes, position, firstSector, lastSector);
      WriteSectors(buf, firstSector, lastSector);
      SectorsAsBytes(was, disk.sectors, h, buf[..], firstSector, lastSector);
      OtherSectorsKept(was, disk.sectors, h, buf[..], firstSector, lastSector + 1);
      AreaRewritten(FileArea(was, h), FileArea(disk.sectors, h), |Bytes()|, from[..], position, numBytes, garbage,
          buf[..]);
    }

    /** The new contents of the sectors firstSector..lastSector; nobody fills in what is behind the end of the file. */
    method Compose(from: array<byte>, numBytes: int, position: nat, firstSector: nat, lastSector: nat)
        returns (buf: array<byte>, ghost garbage: seq<byte>)
      requires Valid() && 0 < numBytes <= from.Length && position + numBytes <= |Bytes()|
      requires firstSector == position / 128 && lastSector == (position + numBytes - 1) / 128
      ensures fresh(buf) && buf.Length == |garbage| == (1 + lastSector - firstSector) * 128
      ensures forall j :: 0 <= j < buf.Length ==>
        var b := firstSector * 128 + j;
        buf[j] == if position <= b < position + numBytes then from[b - position]
                  else if b < |Bytes()| then Bytes()[b]
                  else garbage[j]
    {
      hide ByteAt, FileBytes, Good;
      buf := new byte[(1 + lastSector - firstSector) * 128];
      garbage := buf[..];
      var firstAligned := position == firstSector * 128;
      var lastAligned := position + numBytes == (lastSector + 1) * 128;
      if !firstAligned {
        var _ := ReadAt(buf, 0, 128, firstSector * 128);
      }
      if !lastAligned && (firstSector != lastSector || firstAligned) {
        var _ := ReadAt(buf, (lastSector - firstSector) * 128, 128, lastSector * 128);
      }
      var at := position - firstSector * 128;
      forall j | 0 <= j < numBytes {
        buf[at + j] := from[j];
      }
    }

    method WriteSectors(buf: array<byte>, firstSector: nat, lastSector: nat)
      requires Valid() && firstSector <= lastSector < hdr.numSectors as int
      requires buf.Length == (1 + lastSector - firstSector) * 128
      modifies disk
      ensures Valid()
      ensures SectorsWritten(old(disk.sectors), disk.sectors, hdr.Value(), buf[..], firstSector, lastSector + 1)
    {
      hide SectorsWritten;
      SectorsUnwritten(disk.sectors, hdr.Value(), buf[..], firstSector);
      for i := firstSector to lastSector + 1
        invariant disk.Valid()
        invariant SectorsWritten(old(disk.sectors), disk.sectors, hdr.Value(), buf[..], firstSector, i)
      {
        WriteOneSector(old(disk.sectors), buf, firstSector, i);
      }
    }

    method WriteOneSector(ghost was: seq<Sector>, buf: array<byte>, firstSector: nat, i: nat)
      requires Valid() && firstSector <= i < hdr.numSectors as int && (i + 1 - firstSector) * 128 <= buf.Length
      requires SectorsWritten(was, disk.sectors, hdr.Value(), buf[..], firstSector, i)
      modifies disk
      ensures disk.Valid() && SectorsWritten(was, disk.sectors, hdr.Value(), buf[..], firstSector, i + 1)
    {
      hide SectorsWritten, Good;
      var sector := hdr.ByteToSector(i * 128);
      NextSectorWritten(was, disk.sectors, hdr.Value(), buf[..], firstSector, i);
      disk.WriteSector(sector, buf, (i - firstSector) * 128);
    }
  }

  /** Sector k of a buffer. */
  ghost function Chunk(buf: seq<byte>, k: nat): Sector
    requires (k + 1) * 128 <= |buf|
  {
    buf[k * 128..(k + 1) * 128]
  }

  /** The data sectors firstSector..end hold the buffer, and no other sector has changed. */
  ghost predicate SectorsWritten(old_: seq<Sector>, new_: seq<Sector>, h: Header, buf: seq<byte>, firstSector: nat,
      end: nat) {
    && |old_| == |new_| == 1024 && Good(h)
    && firstSector <= end <= |Data(h)| && (end - firstSector) * 128 <= |buf|
    && (forall k :: firstSector <= k < end ==> new_[Data(h)[k]] == Chunk(buf, k - firstSector))
    && (forall s :: 0 <= s < 1024 && s !in Data(h)[firstSector..end] ==> new_[s] == old_[s])
  }

  lemma SectorsUnwritten(sectors: seq<Sector>, h: Header, buf: seq<byte>, firstSector: nat)
    requires |sectors| == 1024 && Good(h) && firstSector <= |Data(h)|
    ensures SectorsWritten(sectors, sectors, h, buf, firstSector, firstSector)
  {
  }

  lemma OtherSectorsKept(old_: seq<Sector>, new_: seq<Sector>, h: Header, buf: seq<byte>, firstSector: nat, end: nat)
    requires SectorsWritten(old_, new_, h, buf, firstSector, end)
    ensures forall s :: 0 <= s < 1024 && s !in Data(h) ==> new_[s] == old_[s]
  {
  }

  lemma NextSectorWritten(old_: seq<Sector>, new_: seq<Sector>, h: Header, buf: seq<byte>, firstSector: nat, i: nat)
    requires SectorsWritten(old_, new_, h, buf, firstSector, i)
    requires i < |Data(h)| && (i + 1 - firstSector) * 128 <= |buf|
    ensures var at := (i - firstSector) * 128;
            SectorsWritten(old_, new_[Data(h)[i] := buf[at..at + 128]], h, buf, firstSector, i + 1)
  {
    var data := Data(h);
    assert data[firstSector..i + 1] == data[firstSector..i] + [data[i]];
  }

  /** What the sectors written are as bytes. */
  lemma SectorsAsBytes(old_: seq<Sector>, new_: seq<Sector>, h: Header, buf: seq<byte>, firstSector: nat,
      lastSector: nat)
    requires |old_| == |new_| == 1024 && Good(h)
    requires firstSector <= lastSector < |Data(h)| && |buf| == (1 + lastSector - firstSector) * 128
    requires SectorsWritten(old_, new_, h, buf, firstSector, lastSector + 1)
    ensures forall b :: 0 <= b < |FileArea(new_, h)| ==>
      var j := b - firstSector * 128;
      FileArea(new_, h)[b] == if 0 <= j < |buf| then buf[j] else FileArea(old_, h)[b]
  {
    forall b | 0 <= b < |Data(h)| * 128
      ensures var j := b - firstSector * 128;
              FileArea(new_, h)[b] == if 0 <= j < |buf| then buf[j] else FileArea(old_, h)[b]
    {
      var k := b / 128;
      if k < firstSector || lastSector < k {
        assert Data(h)[k] !in Data(h)[firstSector..lastSector + 1];
      } else {
        assert Chunk(buf, k - firstSector)[b % 128] == buf[b - firstSector * 128];
      }
    }
  }

  lemma RewrittenBytes(area: seq<byte>, length: nat, from: seq<byte>, position: nat, r: nat, garbage: seq<byte>)
    requires r <= |from| && (0 < r ==> position + r <= length) && length <= |area|
        && |garbage| == BufferSize(position, r)
    ensures forall b :: 0 <= b < length ==>
      Rewritten(area, length, from, position, r, garbage)[b] ==
          if position <= b < position + r then from[b - position] else area[b]
  {
  }

  lemma NothingRewritten(area: seq<byte>, length: nat, from: seq<byte>, position: nat)
    ensures Rewritten(area, length, from, position, 0, []) == area
  {
  }

  /** The buffer that Compose makes, written over the sectors it is for. */
  lemma AreaRewritten(area: seq<byte>, after: seq<byte>, length: nat, from: seq<byte>, position: nat, r: nat,
                      garbage: seq<byte>, buf: seq<byte>)
    requires 0 < r <= |from| && position + r <= length <= |area| == |after|
    requires |buf| == |garbage| == BufferSize(position, r)
    requires forall j :: 0 <= j < |buf| && position / 128 * 128 + j < |area| ==>
      var b := position / 128 * 128 + j;
      buf[j] == if position <= b < position + r then from[b - position] else if b < length then area[b] else garbage[j]
    requires forall b :: 0 <= b < |area| ==>
      var j := b - position / 128 * 128; after[b] == if 0 <= j < |buf| then buf[j] else area[b]
    ensures after == Rewritten(area, length, from, position, r, garbage)
  {
    var first, last := position / 128, (position + r - 1) / 128;
    forall b | 0 <= b < |area| ensures after[b] == Rewritten(area, length, from, position, r, garbage)[b] {
      InSectors(b, first, last);
    }
  }

  lemma InSectors(b: nat, first: nat, last: nat)
    requires first <= last
    ensures first <= b / 128 <= last <==> 0 <= b - first * 128 < (1 + last - first) * 128
  {
  }
}
