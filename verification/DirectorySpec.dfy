/**
  Reading a directory in pages, as in getDents of core/fileManager/fileManager.cpp: what one
  call puts into the caller's buffer, and what a sequence of calls returns altogether.
 */
module DirectorySpec {
  import opened Words
  import opened LittleEndian

  datatype Entry = Entry(name: seq<Byte>, regular: bool)

  /** The size of one record, and the longest name it takes. */
  const RECORD: nat := 264
  const NAME_MAX: nat := 255

  function NameLength(e: Entry): nat {
    if |e.name| < NAME_MAX then |e.name| else NAME_MAX
  }

  /** What a reader finds in a record. */
  datatype Dirent = Dirent(fileno: nat, reclen: nat, kind: nat, name: seq<Byte>)

  function DirentOf(e: Entry, fileno: Uint32): Dirent {
    Dirent(fileno, RECORD, if e.regular then 8 else 4, e.name[..NameLength(e)])
  }

  /** A record tells of the entry: its number, the record's size, its kind, and its name up to 255 bytes. */
  predicate IsEntry(d: Dirent, e: Entry, fileno: Uint32) {
    && d.fileno == fileno && d.reclen == 264 && d.kind == (if e.regular then 8 else 4)
    && d.name <= e.name && |d.name| == (if |e.name| <= 255 then |e.name| else 255)
  }

  // ---- records ----

  /** The bytes written into a record; those after the terminator stay as they were. */
  function Written(e: Entry, fileno: Uint32): (b: seq<Byte>)
    ensures |b| == 9 + NameLength(e) <= RECORD
  {
    Bytes(fileno, 4) + Bytes(RECORD, 2) + [if e.regular then 8 else 4, NameLength(e)] + e.name[..NameLength(e)] + [0]
  }

  function Decode(b: seq<Byte>): Dirent
    requires |b| == RECORD
  {
    Dirent(Word(b[..4]), Half(b[4..6]), b[6], b[8..8 + b[7]])
  }

  /** The bytes of a record: the size 264 in two of them, the kind, the length of the name, the name and the terminator. */
  lemma WrittenIs(e: Entry, fileno: Uint32)
    ensures var b, n := Written(e, fileno), if |e.name| <= 255 then |e.name| else 255;
      && |b| == 9 + n && b[..4] == Bytes(fileno, 4)
      && b[4] == 8 && b[5] == 1 && b[6] == (if e.regular then 8 else 4) && b[7] == n
      && b[8..8 + n] == e.name[..n] && b[8 + n] == 0
  {
    var b, n := Written(e, fileno), NameLength(e);
    assert Bytes(RECORD, 2) == [8, 1];
    assert b == Bytes(fileno, 4) + [8, 1] + [if e.regular then 8 else 4, n] + e.name[..n] + [0];
    assert b[8..8 + n] == e.name[..n];
  }

  /** A reader gets back what was written, with names cut to 255 bytes. */
  lemma DecodeWritten(b: seq<Byte>, e: Entry, fileno: Uint32)
    requires |b| == RECORD && b[..9 + NameLength(e)] == Written(e, fileno)
    ensures Decode(b) == DirentOf(e, fileno) && IsEntry(Decode(b), e, fileno)
    ensures b[8 + |Decode(b).name|] == 0
  {
    var w, n := Written(e, fileno), NameLength(e);
    assert forall i :: 0 <= i < 9 + n ==> b[i] == w[i];
    assert b[..4] == Bytes(fileno, 4);
    assert b[4..6] == Bytes(RECORD, 2);
    assert b[7] == n;
    assert b[8..8 + n] == e.name[..n];
    WordOfBytes(fileno);
    HalfOfBytes(RECORD);
  }

  /** The whole records of a buffer. */
  function DecodeAll(b: seq<Byte>): seq<Dirent> {
    if |b| < RECORD then [] else [Decode(b[..RECORD])] + DecodeAll(b[RECORD..])
  }

  lemma {:induction false} DecodeAppended(b: seq<Byte>, k: nat, record: seq<Byte>)
    requires |b| == RECORD * k && |record| == RECORD
    ensures DecodeAll(b + record) == DecodeAll(b) + [Decode(record)]
    decreases k
  {
    if k == 0 {
      assert b + record == record && record[..RECORD] == record;
      assert DecodeAll(record[RECORD..]) == [];
    } else {
      assert (b + record)[..RECORD] == b[..RECORD];
      assert (b + record)[RECORD..] == b[RECORD..] + record;
      DecodeAppended(b[RECORD..], k - 1, record);
    }
  }

  // ---- one call ----

  /** Whether the test in front of a record lets the entry through; it ignores the position. */
  predicate Fits(e: Entry, nbytes: nat) {
    RECORD + NameLength(e) < nbytes
  }

  /** A call writes `k` records, each strictly inside the buffer, and then cannot go on. */
  predicate IsPage(left: seq<Entry>, nbytes: nat, k: nat) {
    && k <= |left|
    && (forall j :: 0 <= j < k ==> Fits(left[j], nbytes))
    && (k > 0 ==> RECORD * k < nbytes)
    && (k == |left| || nbytes <= RECORD * (k + 1) || !Fits(left[k], nbytes))
  }

  /** A negative size is a large one: the call returns all that is left, as long as its length fits an `int`. */
  lemma NegativeTakesAll(left: seq<Entry>, nbytes: Int32, k: nat)
    requires IsPage(left, Widen(nbytes), k) && nbytes < 0 && RECORD * |left| < 0x8000_0000
    ensures k == |left|
  {
    assert k < |left| ==> RECORD * (k + 1) <= RECORD * |left| && Fits(left[k], Widen(nbytes));
  }

  lemma AllIsAPage(left: seq<Entry>, nbytes: Int32)
    requires nbytes < 0 && RECORD * |left| < 0x8000_0000
    ensures IsPage(left, Widen(nbytes), |left|)
  {
  }

  /**
    Calls with a size that is not above the length of the buffer stay inside the buffer, whatever
    is left of the listing, if and only if the size is not negative.
   */
  lemma StaysInsideIff(nbytes: Int32, length: nat)
    requires nbytes <= length && length + RECORD < 0x8000_0000
    ensures nbytes >= 0 <==>
            forall left: seq<Entry>, k :: IsPage(left, Widen(nbytes), k) && RECORD * |left| < 0x8000_0000 ==> RECORD * k <= length
  {
    if nbytes < 0 {
      var n := length / RECORD + 1;
      var left := seq(n, _ => Entry([], true));
      AllIsAPage(left, nbytes);
    }
  }

  /** A call returns nothing before the end exactly when the next name does not fit. */
  lemma EmptyPageIff(left: seq<Entry>, nbytes: nat, k: nat)
    requires IsPage(left, nbytes, k) && left != []
    ensures k == 0 <==> nbytes <= 264 + if |left[0].name| <= 255 then |left[0].name| else 255
  {
  }

  /** With room for the longest name, a call fills the buffer up to one record or ends the listing. */
  lemma BigPage(left: seq<Entry>, nbytes: nat, k: nat)
    requires IsPage(left, nbytes, k) && nbytes >= 520
    ensures k == if |left| < (nbytes - 1) / RECORD then |left| else (nbytes - 1) / RECORD
    ensures left != [] ==> k >= 1
  {
    assert forall j :: 0 <= j < |left| ==> Fits(left[j], nbytes);
  }

  // ---- many calls ----

  /** Successive calls with the given buffer sizes return the given numbers of records. */
  ghost predicate Pages(left: seq<Entry>, sizes: seq<nat>, pages: seq<nat>) {
    && |sizes| == |pages|
    && (sizes != [] ==>
          IsPage(left, sizes[0], pages[0]) && Pages(left[pages[0]..], sizes[1..], pages[1..]))
  }

  function Sum(pages: seq<nat>): nat {
    if pages == [] then 0 else pages[0] + Sum(pages[1..])
  }

  /** The records of `listing` from `from` up to `to`. */
  function Records(listing: seq<Entry>, from: nat, to: nat): seq<Dirent>
    requires from <= to <= |listing|
  {
    seq(to - from, j requires 0 <= j < to - from => DirentOf(listing[from + j], ToU32(from + j)))
  }

  /** They tell of the entries in order, numbered on. */
  lemma RecordsAre(listing: seq<Entry>, from: nat, to: nat)
    requires from <= to <= |listing|
    ensures |Records(listing, from, to)| == to - from
    ensures forall j :: 0 <= j < to - from ==> IsEntry(Records(listing, from, to)[j], listing[from + j], ToU32(from + j))
  {
    forall j | 0 <= j < to - from ensures IsEntry(Records(listing, from, to)[j], listing[from + j], ToU32(from + j)) {
      EntryIs(listing[from + j], ToU32(from + j));
    }
  }

  lemma EntryIs(e: Entry, fileno: Uint32)
    ensures IsEntry(DirentOf(e, fileno), e, fileno)
  {
  }

  /** What the calls return, one after the other. */
  function Output(listing: seq<Entry>, from: nat, pages: seq<nat>): seq<Dirent>
    requires from + Sum(pages) <= |listing|
    decreases |pages|
  {
    if pages == [] then []
    else Records(listing, from, from + pages[0]) + Output(listing, from + pages[0], pages[1..])
  }

  lemma {:induction false} PagesStayInside(left: seq<Entry>, sizes: seq<nat>, pages: seq<nat>)
    requires Pages(left, sizes, pages)
    ensures Sum(pages) <= |left|
    decreases |sizes|
  {
    if sizes != [] {
      PagesStayInside(left[pages[0]..], sizes[1..], pages[1..]);
    }
  }

  lemma {:induction false} OutputIsRecords(listing: seq<Entry>, from: nat, pages: seq<nat>)
    requires from + Sum(pages) <= |listing|
    ensures Output(listing, from, pages) == Records(listing, from, from + Sum(pages))
    decreases |pages|
  {
    if pages != [] {
      var next, to := from + pages[0], from + Sum(pages);
      OutputIsRecords(listing, next, pages[1..]);
      RecordsJoin(listing, from, next, to);
    }
  }

  lemma RecordsJoin(listing: seq<Entry>, from: nat, mid: nat, to: nat)
    requires from <= mid <= to <= |listing|
    ensures Records(listing, from, to) == Records(listing, from, mid) + Records(listing, mid, to)
  {
  }

  lemma {:induction false} BigPagesFinish(left: seq<Entry>, sizes: seq<nat>, pages: seq<nat>)
    requires Pages(left, sizes, pages) && forall i :: 0 <= i < |sizes| ==> sizes[i] >= 520
    ensures |sizes| >= |left| ==> Sum(pages) == |left|
    decreases |sizes|
  {
    PagesStayInside(left, sizes, pages);
    if sizes != [] {
      BigPage(left, sizes[0], pages[0]);
      BigPagesFinish(left[pages[0]..], sizes[1..], pages[1..]);
    }
  }

  /**
    Calls with at least 520 bytes return the listing from the start, in order, each entry once,
    numbered from 0; after as many calls as there are entries all of it has been returned, and a
    call returns nothing only when all of it has been.
   */
  lemma WholeListing(listing: seq<Entry>, sizes: seq<nat>, pages: seq<nat>)
    requires Pages(listing, sizes, pages) && forall i :: 0 <= i < |sizes| ==> sizes[i] >= 520
    ensures Sum(pages) <= |listing|
    ensures |Output(listing, 0, pages)| == Sum(pages)
    ensures forall j :: 0 <= j < Sum(pages) ==> IsEntry(Output(listing, 0, pages)[j], listing[j], ToU32(j))
    ensures |sizes| >= |listing| ==> Sum(pages) == |listing|
    ensures pages != [] && 0 in pages ==> Sum(pages) == |listing|
  {
    WholeOutput(listing, sizes, pages);
    BigPagesFinish(listing, sizes, pages);
    EmptyMeansAll(listing, sizes, pages);
  }

  lemma WholeOutput(listing: seq<Entry>, sizes: seq<nat>, pages: seq<nat>)
    requires Pages(listing, sizes, pages)
    ensures Sum(pages) <= |listing|
    ensures |Output(listing, 0, pages)| == Sum(pages)
    ensures forall j :: 0 <= j < Sum(pages) ==> IsEntry(Output(listing, 0, pages)[j], listing[j], ToU32(j))
  {
    PagesStayInside(listing, sizes, pages);
    OutputIsRecords(listing, 0, pages);
    RecordsAre(listing, 0, Sum(pages));
    assert forall j :: 0 <= j < Sum(pages) ==> IsEntry(Records(listing, 0, Sum(pages))[j], listing[0 + j], ToU32(0 + j));
  }

  lemma {:induction false} EmptyMeansAll(left: seq<Entry>, sizes: seq<nat>, pages: seq<nat>)
    requires Pages(left, sizes, pages) && forall i :: 0 <= i < |sizes| ==> sizes[i] >= 520
    ensures 0 in pages ==> Sum(pages) == |left|
    decreases |sizes|
  {
    if sizes != [] {
      BigPage(left, sizes[0], pages[0]);
      PagesStayInside(left, sizes, pages);
      EmptyMeansAll(left[pages[0]..], sizes[1..], pages[1..]);
    }
  }
}
