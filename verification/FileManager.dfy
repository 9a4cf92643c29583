/**
  core/fileManager/fileManager.cpp: the table of open files and the paging of directories.
 */
module FileManager {
  import opened Words
  import opened LittleEndian
  import opened DirectorySpec

  /** An open directory: its entries, how far the iterator has come, and the file number. */
  class DirData {
    const listing: seq<Entry>
    var position: nat
    var count: Uint32

    constructor (listing: seq<Entry>)
      ensures this.listing == listing && position == 0 && count == 0 && Valid()
    {
      this.listing, position, count := listing, 0, 0;
    }

    predicate Valid()
      reads this
    {
      position <= |listing| && count == ToU32(position)
    }

    function Left(): seq<Entry>
      requires Valid()
      reads this
    {
      listing[position..]
    }

    /** What the caller provides: as many bytes as it says, or enough for the whole rest if it says a negative number. */
    predicate HasRoom(length: nat, nbytes: Int32)
      requires Valid()
      reads this
    {
      var rest := RECORD * (|listing| - position);
      if nbytes >= 0 then nbytes <= length else rest <= length && rest < 0x8000_0000
    }

    /**
      getDents: 210-265. A call writes one page of records, numbered on, and nothing else; `basep`
      is written unless the directory was at its end. With a negative size the page is all that is
      left, and the buffer has to have room for that.
     */
    method GetDents(buf: array<Byte>, nbytes: Int32) returns (n: nat, basep: Option<Uint32>)
      requires Valid() && HasRoom(buf.Length, nbytes)
      modifies this, buf
      ensures Valid() && position >= old(position)
      ensures n == RECORD * (position - old(position)) && (nbytes >= 0 ==> n <= nbytes)
      ensures IsPage(old(Left()), Widen(nbytes), position - old(position))
      ensures nbytes < 0 ==> position == |listing|
      ensures DecodeAll(buf[..n]) == Records(listing, old(position), position)
      ensures forall j :: 0 <= j < position - old(position) ==>
        IsEntry(DecodeAll(buf[..n])[j], listing[old(position) + j], ToU32(old(position) + j))
      ensures forall i :: n <= i < buf.Length ==> buf[i] == old(buf[i])
      ensures basep == if old(Left()) == [] then None else Some(count)
    {
      if position == |listing| {
        return 0, None;
      }
      ghost var start := position;
      // nbytes meets sizes in 64 unsigned bits
      n := FillPage(buf, Widen(nbytes));
      PageDone(listing, start, position, nbytes, DecodeAll(buf[..n]));
      basep := Some(count);
    }

    /** What the caller's buffer holds after `n` bytes were written, from `start` on. */
    ghost predicate Delivered(buf: array<Byte>, n: nat, start: nat)
      reads this, buf
    {
      && Valid() && start <= position && n == RECORD * (position - start) <= buf.Length
      && DecodeAll(buf[..n]) == Records(listing, start, position)
    }

    /** The loop of getDents: 235-259. It goes on while the next record fits. */
    method FillPage(buf: array<Byte>, size: nat) returns (n: nat)
      requires Valid() && position < |listing| && size < U64
      requires size <= buf.Length || RECORD * (|listing| - position) <= buf.Length
      modifies this, buf
      ensures Delivered(buf, n, old(position)) && (n > 0 ==> n < size)
      ensures forall j :: old(position) <= j < position ==> Fits(listing[j], size)
      ensures position == |listing| || size <= n + RECORD || !Fits(listing[position], size)
      ensures forall i :: n <= i < buf.Length ==> buf[i] == old(buf[i])
    {
      n := 0;
      // the subtraction wraps
      var limit := if size >= RECORD then size - RECORD else size - RECORD + U64;
      ghost var start := position;
      while n < limit
        invariant Delivered(buf, n, start) && position < |listing| && (n > 0 ==> n < size)
        invariant forall j :: start <= j < position ==> Fits(listing[j], size)
        invariant forall i :: n <= i < buf.Length ==> buf[i] == old(buf[i])
        decreases |listing| - position
      {
        var done;
        n, done := Turn(buf, n, size, start);
        if done {
          break;
        }
      }
    }

    /** One turn of the loop: 241-258 */
    method Turn(buf: array<Byte>, n: nat, size: nat, ghost start: nat) returns (next: nat, done: bool)
      requires Delivered(buf, n, start) && position < |listing|
      requires n < if size >= RECORD then size - RECORD else size - RECORD + U64
      requires size <= buf.Length || RECORD * (|listing| - start) <= buf.Length
      modifies this, buf
      ensures Delivered(buf, next, start) && position == old(position) + if Fits(listing[old(position)], size) then 1 else 0
      ensures next > n ==> next < size
      ensures done <==> position == old(position) || position == |listing|
      ensures forall i :: next <= i < buf.Length ==> buf[i] == old(buf[i])
    {
      if RECORD + NameLength(listing[position]) >= size {
        return n, true;
      }
      RoomAhead(buf.Length, size, |listing| - start, position - start);
      PutEntry(buf, n, start);
      return n + RECORD, position == |listing|;
    }

    /** One record: 244-256 */
    method PutEntry(buf: array<Byte>, n: nat, ghost start: nat)
      requires Valid() && start <= position < |listing| && n == RECORD * (position - start) && n + RECORD <= buf.Length
      requires DecodeAll(buf[..n]) == Records(listing, start, position)
      modifies this, buf
      ensures Valid() && position == old(position) + 1
      ensures DecodeAll(buf[..n + RECORD]) == Records(listing, start, position)
      ensures forall i :: n + RECORD <= i < buf.Length ==> buf[i] == old(buf[i])
    {
      ghost var before := buf[..n];
      ghost var record := WriteRecord(buf, n, listing[position], count);
      RecordPut(before, record, listing, start, position);
      CountGrows(position);
      position := position + 1;
      count := ToU32(count + 1);
    }
  }

  /** The record after the first `done` of `rest` has room, if the loop gets to it. */
  lemma RoomAhead(length: nat, size: nat, rest: nat, done: nat)
    requires size <= length || RECORD * rest <= length
    requires done < rest && RECORD * done < size - RECORD
    ensures RECORD * done + RECORD <= length
  {
    assert RECORD * (done + 1) <= RECORD * rest;
  }

  lemma PageFrom(listing: seq<Entry>, from: nat, to: nat, nbytes: nat)
    requires from <= to <= |listing| && forall j :: from <= j < to ==> Fits(listing[j], nbytes)
    requires to > from ==> RECORD * (to - from) < nbytes
    requires to == |listing| || nbytes <= RECORD * (to - from + 1) || !Fits(listing[to], nbytes)
    ensures IsPage(listing[from..], nbytes, to - from)
  {
  }

  /** What a call has delivered: one page, entry by entry, and all of the rest for a negative size. */
  lemma PageDone(listing: seq<Entry>, from: nat, to: nat, nbytes: Int32, read: seq<Dirent>)
    requires from <= to <= |listing| && forall j {:trigger Fits(listing[j], Widen(nbytes))} :: from <= j < to ==> Fits(listing[j], Widen(nbytes))
    requires to > from ==> RECORD * (to - from) < Widen(nbytes)
    requires to == |listing| || Widen(nbytes) <= RECORD * (to - from + 1) || !Fits(listing[to], Widen(nbytes))
    requires read == Records(listing, from, to) && (nbytes < 0 ==> RECORD * (|listing| - from) < 0x8000_0000)
    ensures IsPage(listing[from..], Widen(nbytes), to - from) && (nbytes < 0 ==> to == |listing|)
    ensures |read| == to - from && forall j :: 0 <= j < to - from ==> IsEntry(read[j], listing[from + j], ToU32(from + j))
  {
    PageFrom(listing, from, to, Widen(nbytes));
    RecordsAre(listing, from, to);
    if nbytes < 0 {
      NegativeTakesAll(listing[from..], nbytes, to - from);
    }
  }

  lemma CountGrows(n: nat)
    ensures ToU32(ToU32(n) + 1) == ToU32(n + 1)
  {
    ShiftU32(n, 1);
  }

  lemma RecordsGrow(listing: seq<Entry>, from: nat, to: nat)
    requires from <= to < |listing|
    ensures Records(listing, from, to + 1) == Records(listing, from, to) + [DirentOf(listing[to], ToU32(to))]
  {
  }

  /** A record written behind the records there are adds the next entry to what a reader finds. */
  lemma RecordPut(before: seq<Byte>, record: seq<Byte>, listing: seq<Entry>, from: nat, to: nat)
    requires from <= to < |listing| && |before| == RECORD * (to - from) && |record| == RECORD
    requires DecodeAll(before) == Records(listing, from, to)
    requires record[..9 + NameLength(listing[to])] == Written(listing[to], ToU32(to))
    ensures DecodeAll(before + record) == Records(listing, from, to + 1)
  {
    DecodeWritten(record, listing[to], ToU32(to));
    DecodeAppended(before, to - from, record);
    RecordsGrow(listing, from, to);
  }

  /** The fields of one record in the order the code writes them: 244-250 */
  method WriteRecord(buf: array<Byte>, at: nat, e: Entry, fileno: Uint32) returns (ghost record: seq<Byte>)
    requires at + RECORD <= buf.Length
    modifies buf
    ensures buf[..at + RECORD] == old(buf[..at]) + record
    ensures |record| == RECORD && record[..9 + NameLength(e)] == Written(e, fileno)
    ensures forall i :: at + RECORD <= i < buf.Length ==> buf[i] == old(buf[i])
  {
    StoreFields(buf, at, e, fileno);
    record := buf[at..at + RECORD];
  }

  method StoreFields(buf: array<Byte>, at: nat, e: Entry, fileno: Uint32)
    requires at + RECORD <= buf.Length
    modifies buf
    ensures forall i :: 0 <= i < 9 + NameLength(e) ==> buf[at + i] == Written(e, fileno)[i]
    ensures forall i :: 0 <= i < buf.Length && !(at <= i < at + RECORD) ==> buf[i] == old(buf[i])
  {
    var namlen := NameLength(e);
    Store(buf, at, Bytes(fileno, 4));
    Store(buf, at + 6, [if e.regular then 8 else 4]);
    Store(buf, at + 7, [namlen]);
    Store(buf, at + 8, e.name[..namlen]);
    Store(buf, at + 8 + namlen, [0]);
    Store(buf, at + 4, Bytes(RECORD, 2));
    forall i | 0 <= i < 9 + namlen ensures buf[at + i] == Written(e, fileno)[i] {
    }
  }

  method Store(buf: array<Byte>, at: nat, bytes: seq<Byte>)
    requires at + |bytes| <= buf.Length
    modifies buf
    ensures forall i :: at <= i < at + |bytes| ==> buf[i] == bytes[i - at]
    ensures forall i :: 0 <= i < buf.Length && !(at <= i < at + |bytes|) ==> buf[i] == old(buf[i])
  {
    forall i | 0 <= i < |bytes| {
      buf[at + i] := bytes[i];
    }
  }

  // ---- open files ----

  datatype OpenFile = File(id: int) | Dir(dir: DirData)

  class OpenFiles {
    var openFiles: seq<Option<OpenFile>>

    constructor ()
      ensures openFiles == []
    {
      openFiles := [];
    }

    /** What a handle stands for. */
    function At(handle: int): Option<OpenFile>
      reads this
    {
      if 0 <= handle < |openFiles| then openFiles[handle] else None
    }

    /** insertItem: 52-69. The lowest free handle is given out and no other one changes. */
    method Insert(item: OpenFile) returns (index: nat)
      modifies this
      ensures old(At(index)) == None && At(index) == Some(item)
      ensures forall h :: 0 <= h < index ==> old(At(h)) != None
      ensures forall h :: h != index ==> At(h) == old(At(h))
    {
      for n := 0 to |openFiles|
        invariant openFiles == old(openFiles)
        invariant forall h :: 0 <= h < n ==> openFiles[h] != None
      {
        if openFiles[n] == None {
          openFiles := openFiles[n := Some(item)];
          return n;
        }
      }
      index := |openFiles|;
      openFiles := openFiles + [Some(item)];
    }

    /** remove: 189-192 */
    method Remove(handle: nat)
      requires handle < |openFiles|
      modifies this
      ensures At(handle) == None && forall h :: h != handle ==> At(h) == old(At(h))
    {
      openFiles := openFiles[handle := None];
    }

    /** accessFile: 194-200 */
    method AccessFile(handle: int) returns (file: Option<int>)
      ensures file == match At(handle) { case Some(File(id)) => Some(id) case _ => None }
    {
      // the comparison is unsigned: a negative handle is larger than any table
      if 0 <= handle < |openFiles| && openFiles[handle] != None && openFiles[handle].value.File? {
        return Some(openFiles[handle].value.id);
      }
      return None;
    }
  }
}
