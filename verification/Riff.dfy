/**
  parseRiffWave of modules/libSceNgs2/readFuncs.cpp on a reader over a block of memory.
 */
module Riff {
  import opened Words
  import opened LittleEndian
  import opened RiffSpec

  /** userData_inerBuffer */
  class LinearBuffer {
    const ptr: seq<Byte>
    var curOffset: nat

    constructor (ptr: seq<Byte>)
      ensures this.ptr == ptr && curOffset == 0
    {
      this.ptr, curOffset := ptr, 0;
    }

    /**
      readFunc_linearBuffer: 48-56; an empty result is its end of file. Where the number of bytes
      left is negative as an `int` the copy runs out of the block: None.
     */
    method Read(size: nat) returns (buf: Option<seq<Byte>>)
      requires curOffset <= |ptr| && size <= INT_MAX
      modifies this
      ensures buf.Some? <==> Reads(ptr, old(curOffset))
      ensures buf.None? ==> unchanged(this)
      ensures buf.Some? ==> buf.value == Got(ptr, old(curOffset), size) && curOffset == old(curOffset) + |buf.value| <= |ptr|
    {
      RestIs(|ptr| - curOffset);
      var left := ToI32(|ptr| - curOffset);
      var len := if left < size then left else size;
      if len < 0 {
        return None;
      }
      if len == 0 {
        return Some([]);
      }
      buf := Some(ptr[curOffset..curOffset + len]);
      curOffset := curOffset + len;
    }
  }

  /** What was read is a part of the file. */
  lemma GotAt(file: seq<Byte>, pos: nat, size: nat, name: Four)
    requires pos <= |file| && Reads(file, pos)
    ensures forall i :: 0 <= i < |Got(file, pos, size)| ==> Got(file, pos, size)[i] == file[pos + i]
    ensures |Got(file, pos, size)| >= 4 ==> (NameAt(Got(file, pos, size), 0, name) <==> NameAt(file, pos, name))
    ensures |Got(file, pos, size)| >= 8 ==> WordAt(Got(file, pos, size), 4) == WordAt(file, pos + 4)
    ensures |Got(file, pos, size)| >= 12 ==> (NameAt(Got(file, pos, size), 8, WAVE) <==> NameAt(file, pos + 8, WAVE))
  {
  }

  /** parseRiffWave: 98-183 */
  method ParseRiffWave(rb: LinearBuffer) returns (outcome: Outcome)
    requires rb.curOffset == 0
    modifies rb
    ensures outcome == Parse(rb.ptr)
  {
    var read := rb.Read(12);
    if read.None? {
      return Undefined;
    }
    var riff := read.value;
    GotAt(rb.ptr, 0, 12, RIFF);
    if |riff| < 4 {
      return Undefined;
    }
    if !NameAt(riff, 0, RIFF) {
      return Fail;
    }
    if |riff| < 12 {
      return Undefined;
    }
    if !NameAt(riff, 8, WAVE) {
      return Fail;
    }
    var start := ReadFormat(rb, WordAt(riff, 4));
    match start
    case Over(o) =>
      outcome := o;
    case Loop(format, _, offset, limit) =>
      outcome := ScanChunks(rb, format, offset, limit);
  }

  /** The format chunk: 113-128 */
  method ReadFormat(rb: LinearBuffer, limit: Uint32) returns (start: Start)
    requires rb.curOffset == 12 <= |rb.ptr| && Reads(rb.ptr, 0) && Available(rb.ptr, 0, 12) == 12
    requires NameAt(rb.ptr, 0, RIFF) && NameAt(rb.ptr, 8, WAVE) && limit == WordAt(rb.ptr, 4)
    modifies rb
    ensures start == Headers(rb.ptr)
    ensures start.Loop? ==> start.pos == rb.curOffset && start.limit == limit
  {
    var read := rb.Read(24);
    if read.None? {
      return Over(Undefined);
    }
    var header := read.value;
    GotAt(rb.ptr, 12, 24, FMT);
    if |header| < 4 {
      return Over(Undefined);
    }
    if !NameAt(header, 0, FMT) {
      return Over(Fail);
    }
    if |header| < 8 {
      return Over(Undefined);
    }
    var chunkSize := WordAt(header, 4);
    var skipped := SkipRest(rb, Add32(8, chunkSize), 24);
    if !skipped {
      return Over(Undefined);
    }
    return Loop(header[8..], rb.curOffset, Add32(20, chunkSize), limit);
  }

  /** Reads what is left of a chunk and drops it: 121-124, 147-150 */
  method SkipRest(rb: LinearBuffer, whole: Uint32, readBytes: nat) returns (skipped: bool)
    requires rb.curOffset <= |rb.ptr|
    modifies rb
    ensures skipped <==> Skipped(rb.ptr, old(rb.curOffset), whole, readBytes).Some?
    ensures skipped ==> Skipped(rb.ptr, old(rb.curOffset), whole, readBytes) == Some(rb.curOffset)
  {
    if whole > readBytes {
      var extra := whole - readBytes;
      if extra > INT_MAX {
        return false;
      }
      var dropped := rb.Read(extra);
      return dropped.Some?;
    }
    return true;
  }

  /** The loop over the chunks: 127-155 */
  method ScanChunks(rb: LinearBuffer, format: seq<Byte>, start: Uint32, limit: Uint32) returns (outcome: Outcome)
    requires rb.curOffset <= |rb.ptr|
    modifies rb
    ensures outcome == Scan(rb.ptr, format, old(rb.curOffset), start, limit, ONE)
  {
    var offset: Uint32, numOfSamples: Four := start, ONE;
    while offset < limit
      invariant rb.curOffset <= |rb.ptr|
      invariant Scan(rb.ptr, format, old(rb.curOffset), start, limit, ONE)
             == Scan(rb.ptr, format, rb.curOffset, offset, limit, numOfSamples)
      decreases |rb.ptr| - rb.curOffset
    {
      Unroll(rb.ptr, format, rb.curOffset, offset, limit, numOfSamples);
      var turn := OneTurn(rb, numOfSamples);
      match turn
      case Starved =>
        return Undefined;
      case Data(dataSize) =>
        return if dataSize == 0 then Fail else Found(format, offset, dataSize, Word(numOfSamples));
      case Passed(_, whole, samples) =>
        offset, numOfSamples := Add32(offset, whole), samples;
    }
    return Fail;
  }

  /** The scan goes by its first turn. */
  lemma Unroll(file: seq<Byte>, format: seq<Byte>, pos: nat, offset: Uint32, limit: Uint32, samples: Four)
    requires pos <= |file| && offset < limit
    ensures Scan(file, format, pos, offset, limit, samples)
         == match TurnAt(file, pos, samples)
            case Starved => Undefined
            case Data(size) => if size == 0 then Fail else Found(format, offset, size, Word(samples))
            case Passed(at, whole, counted) => Scan(file, format, at, Add32(offset, whole), limit, counted)
  {
    var turns := Turns(file, pos, samples);
    if turns[0].Passed? {
      assert turns[1..] == Turns(file, turns[0].pos, turns[0].samples);
    }
  }

  /** The body of the loop: 135-150 */
  method OneTurn(rb: LinearBuffer, numOfSamples: Four) returns (turn: Turn)
    requires rb.curOffset <= |rb.ptr|
    modifies rb
    ensures turn == TurnAt(rb.ptr, old(rb.curOffset), numOfSamples)
    ensures turn.Passed? ==> turn.pos == rb.curOffset
  {
    var samples := numOfSamples;
    ghost var pos := rb.curOffset;
    var read := rb.Read(8);
    if read.None? || |read.value| < 8 {
      return Starved;
    }
    var header := read.value;
    GotAt(rb.ptr, pos, 8, FACT);
    GotAt(rb.ptr, pos, 8, DATA);
    var chunkSize := WordAt(header, 4);
    var readBytes := 8;
    if NameAt(header, 0, FACT) {
      var over := rb.Read(4);
      if over.None? {
        return Starved;
      }
      samples := ReadOver(samples, over.value);
      readBytes := readBytes + 4;
    } else if NameAt(header, 0, DATA) {
      return Data(chunkSize);
    }
    var whole := Add32(8, chunkSize);
    PassedTurn(rb.ptr, pos, numOfSamples, rb.curOffset, whole, readBytes, samples);
    var skipped := SkipRest(rb, whole, readBytes);
    if !skipped {
      return Starved;
    }
    return Passed(rb.curOffset, whole, samples);
  }

  /** A turn that gets as far as the rest of its chunk. */
  lemma PassedTurn(file: seq<Byte>, pos: nat, before: Four, at: nat, whole: Uint32, readBytes: nat, samples: Four)
    requires pos + 8 <= at <= |file| && Reads(file, pos) && Available(file, pos, 8) == 8 && !NameAt(file, pos, DATA) && whole == Add32(8, WordAt(file, pos + 4))
    requires if NameAt(file, pos, FACT)
             then Reads(file, pos + 8) && at == pos + 8 + Available(file, pos + 8, 4) && readBytes == 12 && samples == ReadOver(before, Got(file, pos + 8, 4))
             else at == pos + 8 && readBytes == 8 && samples == before
    ensures TurnAt(file, pos, before)
         == match Skipped(file, at, whole, readBytes)
            case None => Starved
            case Some(next) => Passed(next, whole, samples)
  {
  }
}
