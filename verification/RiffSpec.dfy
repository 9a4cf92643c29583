/**
  Scanning a RIFF/WAVE file as in parseRiffWave of modules/libSceNgs2/readFuncs.cpp: what the
  scan makes of any bytes, and what a well-formed file is.
 */
module RiffSpec {
  import opened Words
  import opened LittleEndian

  /**
    What a scan comes to. `Undefined` stands for the inputs on which the code goes on with bytes
    it never read, or passes a length that does not fit an `int`.
   */
  datatype Outcome = Fail | Found(format: seq<Byte>, offset: Uint32, size: Uint32, samples: Uint32) | Undefined

  /** Four bytes: a chunk's name, or a `uint32_t` variable. */
  type Four = b: seq<Byte> | |b| == 4 witness [0, 0, 0, 0]

  const RIFF: Four := [82, 73, 70, 70]
  const WAVE: Four := [87, 65, 86, 69]
  const FMT: Four := [102, 109, 116, 32]
  const FACT: Four := [102, 97, 99, 116]
  const DATA: Four := [100, 97, 116, 97]

  /** What `numOfSamples` starts as: 1 */
  const ONE: Four := [1, 0, 0, 0]

  const INT_MAX: nat := 0x7FFF_FFFF

  /** The comparison with a name, byte by byte. */
  predicate NameAt(b: seq<Byte>, i: nat, name: Four)
    requires i + 4 <= |b|
  {
    b[i] == name[0] && b[i + 1] == name[1] && b[i + 2] == name[2] && b[i + 3] == name[3]
  }

  /** What the reader takes for the number of bytes left: an `int`, negative where 2 GiB and more are left. */
  function Rest(file: seq<Byte>, pos: nat): (n: int)
    requires pos <= |file|
    ensures n <= |file| - pos
    ensures |file| - pos <= INT_MAX ==> n == |file| - pos
  {
    RestIs(|file| - pos);
    ToI32(|file| - pos)
  }

  lemma RestIs(n: nat)
    ensures ToI32(n) <= n && (n <= INT_MAX ==> ToI32(n) == n)
  {
  }

  /** With a negative number left, a read runs out of the block. */
  predicate Reads(file: seq<Byte>, pos: nat)
    requires pos <= |file|
  {
    Rest(file, pos) >= 0
  }

  /** How many bytes a read of `size` gets at `pos`: fewer at the end. */
  function Available(file: seq<Byte>, pos: nat, size: nat): (n: nat)
    requires pos <= |file| && Reads(file, pos)
    ensures n <= size && pos + n <= |file|
  {
    if size <= Rest(file, pos) then size else Rest(file, pos)
  }

  function Got(file: seq<Byte>, pos: nat, size: nat): seq<Byte>
    requires pos <= |file| && Reads(file, pos)
  {
    file[pos..pos + Available(file, pos, size)]
  }

  /** A variable after its first bytes were read over. */
  function ReadOver(old4: Four, bytes: seq<Byte>): Four
    requires |bytes| <= 4
  {
    bytes + old4[|bytes|..]
  }

  /** Where the reader is after the rest of a chunk of `whole` bytes of which `taken` are read. */
  function Skipped(file: seq<Byte>, at: nat, whole: Uint32, taken: nat): (next: Option<nat>)
    requires at <= |file|
    ensures next.Some? ==> at <= next.value <= |file|
  {
    var extra := if whole > taken then whole - taken else 0;
    if extra == 0 then Some(at)
    else if extra > INT_MAX || !Reads(file, at) then None
    else Some(at + Available(file, at, extra))
  }

  /** What one turn of the loop does: pass over a chunk, find the data, or run dry. */
  datatype Turn = Passed(pos: nat, whole: Uint32, samples: Four) | Data(size: Uint32) | Starved

  /** One turn from its head, with the reader at `pos`. */
  function TurnAt(file: seq<Byte>, pos: nat, samples: Four): (t: Turn)
    requires pos <= |file|
    ensures t.Passed? ==> pos < t.pos <= |file|
  {
    if !Reads(file, pos) || Available(file, pos, 8) < 8 then Starved
    else if NameAt(file, pos, DATA) then Data(WordAt(file, pos + 4))
    else
      var fact := NameAt(file, pos, FACT);
      var whole := Add32(8, WordAt(file, pos + 4));
      if fact && !Reads(file, pos + 8) then Starved
      else
      var over := if fact then Available(file, pos + 8, 4) else 0;
      match Skipped(file, pos + 8 + over, whole, if fact then 12 else 8)
      case None => Starved
      case Some(next) => Passed(next, whole, if fact then ReadOver(samples, file[pos + 8..pos + 8 + over]) else samples)
  }

  /** The turns the loop takes if nothing else ends it. */
  function Turns(file: seq<Byte>, pos: nat, samples: Four): seq<Turn>
    requires pos <= |file|
    decreases |file| - pos
  {
    var t := TurnAt(file, pos, samples);
    [t] + if t.Passed? then Turns(file, t.pos, t.samples) else []
  }

  /** What comes of the turns: `offset` is where the code thinks each of them begins. */
  function Follow(turns: seq<Turn>, format: seq<Byte>, offset: Uint32, limit: Uint32, samples: Four): Outcome {
    if offset >= limit then Fail
    else if turns == [] then Undefined
    else match turns[0]
      case Starved => Undefined
      case Data(size) => if size == 0 then Fail else Found(format, offset, size, Word(samples))
      case Passed(_, whole, counted) => Follow(turns[1..], format, Add32(offset, whole), limit, counted)
  }

  /** The loop, with the reader at `pos`. */
  function Scan(file: seq<Byte>, format: seq<Byte>, pos: nat, offset: Uint32, limit: Uint32, samples: Four): Outcome
    requires pos <= |file|
  {
    Follow(Turns(file, pos, samples), format, offset, limit, samples)
  }

  /** How the call begins: it is over already, or the loop starts. */
  datatype Start = Over(outcome: Outcome) | Loop(format: seq<Byte>, pos: nat, offset: Uint32, limit: Uint32)

  function Headers(file: seq<Byte>): (h: Start)
    ensures h.Loop? ==> h.pos <= |file|
  {
    if !Reads(file, 0) || Available(file, 0, 12) < 4 then Over(Undefined)
    else if !NameAt(file, 0, RIFF) then Over(Fail)
    else if Available(file, 0, 12) < 12 then Over(Undefined)
    else if !NameAt(file, 8, WAVE) then Over(Fail)
    else if !Reads(file, 12) || Available(file, 12, 24) < 4 then Over(Undefined)
    else if !NameAt(file, 12, FMT) then Over(Fail)
    else if Available(file, 12, 24) < 8 then Over(Undefined)
    else
      var size, format := WordAt(file, 16), Got(file, 12, 24)[8..];
      match Skipped(file, 20 + |format|, Add32(8, size), 24)
      case None => Over(Undefined)
      case Some(next) => Loop(format, next, Add32(20, size), WordAt(file, 4))
  }

  /** What a call that has begun so comes to. */
  function Goes(file: seq<Byte>, start: Start): Outcome
    requires start.Loop? ==> start.pos <= |file|
  {
    match start
    case Over(outcome) => outcome
    case Loop(format, pos, offset, limit) => Scan(file, format, pos, offset, limit, ONE)
  }

  /** The whole call on a reader at the start of `file`. */
  function Parse(file: seq<Byte>): Outcome {
    Goes(file, Headers(file))
  }

  // ---- well-formed files ----

  /** A chunk: its name, its size field, the bytes that counts, and the padding behind them. */
  datatype Chunk = Chunk(id: Four, size: Four, body: seq<Byte>, pad: seq<Byte>)

  /** A file: the size field in front, the format chunk, and the chunks after it. */
  datatype Wave = Wave(size: Four, format: Chunk, chunks: seq<Chunk>)

  predicate Is(c: Chunk, name: Four) {
    NameAt(c.id, 0, name)
  }

  predicate Sized(c: Chunk) {
    Word(c.size) == |c.body|
  }

  /** RIFF pads a body of odd length with one byte. */
  predicate Padded(c: Chunk) {
    |c.pad| == |c.body| % 2
  }

  function Size(c: Chunk): nat {
    8 + |c.body| + |c.pad|
  }

  function Encoded(c: Chunk): (b: seq<Byte>)
    ensures |b| == Size(c)
  {
    c.id + c.size + c.body + c.pad
  }

  function AllEncoded(cs: seq<Chunk>): seq<Byte> {
    if cs == [] then [] else Encoded(cs[0]) + AllEncoded(cs[1..])
  }

  function File(w: Wave): seq<Byte> {
    RIFF + w.size + WAVE + (Encoded(w.format) + AllEncoded(w.chunks))
  }

  /** A chunk the scan can pass over: not padded, and long enough for what is read of it. */
  predicate Plain(c: Chunk) {
    c.pad == [] && (Is(c, FACT) ==> |c.body| >= 4)
  }

  predicate PlainUpToData(cs: seq<Chunk>) {
    cs != [] ==> Sized(cs[0]) && (!Is(cs[0], DATA) ==> Plain(cs[0]) && PlainUpToData(cs[1..]))
  }

  /**
    The size fields are right, the format chunk comes first and has its 16 bytes, and the chunks
    up to the first data chunk are plain.
   */
  predicate WellFormed(w: Wave) {
    Framed(w) && PlainUpToData(w.chunks)
  }

  predicate Framed(w: Wave) {
    && Word(w.size) == |File(w)| - 8
    && Is(w.format, FMT) && Sized(w.format) && w.format.pad == [] && |w.format.body| >= 16
  }

  /** The sample count after a chunk. */
  function Counted(c: Chunk, samples: Four): Four {
    if Is(c, FACT) && |c.body| >= 4 then c.body[..4] else samples
  }

  /** Where the first data chunk is, how long, and what the last fact chunk before it says. */
  function Locate(format: seq<Byte>, cs: seq<Chunk>, at: nat, samples: Four): Outcome {
    if cs == [] then Fail
    else if Is(cs[0], DATA) then
      if cs[0].body == [] || |cs[0].body| >= U32 || at >= U32 then Fail else Found(format, at, |cs[0].body|, Word(samples))
    else Locate(format, cs[1..], at + Size(cs[0]), Counted(cs[0], samples))
  }

  // ---- one turn over a chunk ----

  lemma ChunkAt(file: seq<Byte>, pos: nat, c: Chunk, rest: seq<Byte>)
    requires pos <= |file| && file[pos..] == Encoded(c) + rest && Sized(c)
    ensures pos + Size(c) <= |file|
    ensures file[pos..pos + 4] == c.id && WordAt(file, pos + 4) == |c.body|
    ensures file[pos + 8..pos + 8 + |c.body|] == c.body
    ensures file[pos + Size(c)..] == rest
  {
    var tail := file[pos..];
    assert |tail| == |file| - pos;
    assert tail == c.id + c.size + c.body + (c.pad + rest);
    assert file[pos..pos + 4] == tail[..4] == c.id;
    assert tail[4..8] == c.size;
    assert WordAt(file, pos + 4) == Word(tail[4..8]);
    assert file[pos + 8..pos + 8 + |c.body|] == tail[8..8 + |c.body|] == c.body;
    assert file[pos + Size(c)..] == tail[Size(c)..] == rest;
  }

  lemma NamedAt(file: seq<Byte>, pos: nat, c: Chunk, name: Four)
    requires pos + 4 <= |file| && file[pos..pos + 4] == c.id
    ensures NameAt(file, pos, name) <==> Is(c, name)
  {
    assert forall i :: 0 <= i < 4 ==> file[pos + i] == c.id[i];
    assert file[pos + 0] == c.id[0];
  }

  lemma FactRead(file: seq<Byte>, pos: nat, c: Chunk, samples: Four)
    requires pos + 8 + |c.body| <= |file| <= INT_MAX && file[pos + 8..pos + 8 + |c.body|] == c.body && |c.body| >= 4
    ensures Got(file, pos + 8, 4) == c.body[..4] && ReadOver(samples, Got(file, pos + 8, 4)) == c.body[..4]
  {
    assert file[pos + 8..pos + 12] == file[pos + 8..pos + 8 + |c.body|][..4];
  }

  /** A turn over a chunk header of which the name and the size are known. */
  lemma TurnOver(file: seq<Byte>, pos: nat, size: nat, fact: bool, samples: Four)
    requires pos + 8 + size <= |file| <= INT_MAX && (fact ==> size >= 4)
    requires !NameAt(file, pos, DATA) && (fact <==> NameAt(file, pos, FACT)) && WordAt(file, pos + 4) == size
    ensures TurnAt(file, pos, samples)
         == Passed(pos + 8 + size, 8 + size, if fact then ReadOver(samples, Got(file, pos + 8, 4)) else samples)
  {
  }

  /** One turn passes over a chunk's header and body, but never over a padding byte. */
  lemma TurnPasses(file: seq<Byte>, pos: nat, c: Chunk, rest: seq<Byte>, samples: Four)
    requires pos <= |file| <= INT_MAX && !Is(c, DATA) && (Is(c, FACT) ==> |c.body| >= 4)
    requires Sized(c) && file[pos..] == Encoded(c) + rest
    ensures pos + Size(c) <= |file| && file[pos + Size(c)..] == rest
    ensures TurnAt(file, pos, samples) == Passed(pos + 8 + |c.body|, 8 + |c.body|, Counted(c, samples))
    ensures TurnAt(file, pos, samples) == Passed(pos + Size(c), Size(c), Counted(c, samples)) <==> c.pad == []
  {
    assert |file[pos..]| == Size(c) + |rest|;
    ChunkAt(file, pos, c, rest);
    NamedAt(file, pos, c, DATA);
    NamedAt(file, pos, c, FACT);
    if Is(c, FACT) {
      FactRead(file, pos, c, samples);
    }
    TurnOver(file, pos, |c.body|, Is(c, FACT), samples);
  }

  /** One turn stops at a data chunk. */
  lemma TurnFinds(file: seq<Byte>, pos: nat, c: Chunk, rest: seq<Byte>, samples: Four)
    requires pos <= |file| <= INT_MAX && Is(c, DATA) && Sized(c) && file[pos..] == Encoded(c) + rest
    ensures |c.body| <= INT_MAX && TurnAt(file, pos, samples) == Data(|c.body|)
  {
    assert |file[pos..]| == Size(c) + |rest|;
    ChunkAt(file, pos, c, rest);
    NamedAt(file, pos, c, DATA);
  }

  // ---- the scan finds the data ----

  /** The turns go over the chunks one by one, up to the first data chunk. */
  ghost predicate Walks(turns: seq<Turn>, cs: seq<Chunk>, samples: Four) {
    cs != [] ==>
      && turns != []
      && (Is(cs[0], DATA) ==> turns[0].Data? && turns[0].size == |cs[0].body|)
      && (!Is(cs[0], DATA) ==>
            && turns[0].Passed? && turns[0].whole == Size(cs[0]) && turns[0].samples == Counted(cs[0], samples)
            && Walks(turns[1..], cs[1..], turns[0].samples))
  }

  lemma FirstTurn(file: seq<Byte>, pos: nat, cs: seq<Chunk>, samples: Four) returns (t: Turn)
    requires cs != [] && pos <= |file| <= INT_MAX && file[pos..] == AllEncoded(cs) && PlainUpToData(cs)
    ensures t == TurnAt(file, pos, samples)
    ensures Is(cs[0], DATA) ==> t.Data? && t.size == |cs[0].body|
    ensures !Is(cs[0], DATA) ==>
      && t.Passed? && t.whole == Size(cs[0]) && t.samples == Counted(cs[0], samples)
      && file[t.pos..] == AllEncoded(cs[1..]) && PlainUpToData(cs[1..])
  {
    t := TurnAt(file, pos, samples);
    if Is(cs[0], DATA) {
      TurnFinds(file, pos, cs[0], AllEncoded(cs[1..]), samples);
    } else {
      TurnPasses(file, pos, cs[0], AllEncoded(cs[1..]), samples);
    }
  }

  lemma TurnsAfter(file: seq<Byte>, pos: nat, samples: Four, t: Turn)
    requires pos <= |file| && t == TurnAt(file, pos, samples)
    ensures Turns(file, pos, samples) == [t] + if t.Passed? then Turns(file, t.pos, t.samples) else []
  {
  }

  lemma {:induction false} TurnsWalk(file: seq<Byte>, pos: nat, cs: seq<Chunk>, samples: Four, turns: seq<Turn>)
    requires pos <= |file| <= INT_MAX && file[pos..] == AllEncoded(cs) && PlainUpToData(cs)
    requires turns == Turns(file, pos, samples)
    ensures Walks(turns, cs, samples)
    decreases |cs|
  {
    if cs != [] {
      var t := FirstTurn(file, pos, cs, samples);
      TurnsAfter(file, pos, samples, t);
      if !Is(cs[0], DATA) {
        TurnsWalk(file, t.pos, cs[1..], t.samples, turns[1..]);
      }
    }
  }

  /** Eight bytes hold no more than one empty chunk. */
  lemma NothingLeft(format: seq<Byte>, cs: seq<Chunk>, pos: nat, samples: Four)
    requires cs != [] && |AllEncoded(cs)| <= 8
    ensures Locate(format, cs, pos, samples) == Fail
  {
    assert |AllEncoded(cs)| == Size(cs[0]) + |AllEncoded(cs[1..])|;
    EightOrNothing(cs[1..]);
  }

  lemma EightOrNothing(cs: seq<Chunk>)
    ensures cs != [] ==> |AllEncoded(cs)| >= 8
  {
  }

  /** Following such turns, the offset is at each chunk's header when its turn comes. */
  lemma {:induction false} FollowLocates(turns: seq<Turn>, format: seq<Byte>, cs: seq<Chunk>, pos: nat, limit: Uint32, samples: Four)
    requires Walks(turns, cs, samples) && PlainUpToData(cs) && pos + |AllEncoded(cs)| == limit + 8 <= INT_MAX
    ensures Follow(turns, format, pos, limit, samples) == Locate(format, cs, pos, samples)
    decreases |cs|
  {
    if pos >= limit {
      if cs != [] {
        NothingLeft(format, cs, pos, samples);
      }
    } else if !Is(cs[0], DATA) {
      FollowLocates(turns[1..], format, cs[1..], pos + Size(cs[0]), limit, Counted(cs[0], samples));
    }
  }

  // ---- the headers ----

  /** The headers are in place, with a format chunk of `n` bytes. */
  predicate HeadersInPlace(file: seq<Byte>, n: nat) {
    && 20 + n <= |file| <= INT_MAX
    && NameAt(file, 0, RIFF) && WordAt(file, 4) == |file| - 8 && NameAt(file, 8, WAVE)
    && NameAt(file, 12, FMT) && WordAt(file, 16) == n
  }

  lemma FileShape(w: Wave, file: seq<Byte>)
    requires Framed(w) && file == File(w) && |file| <= INT_MAX
    ensures HeadersInPlace(file, |w.format.body|)
    ensures |file| == 20 + |w.format.body| + |AllEncoded(w.chunks)|
    ensures file[20..36] == w.format.body[..16]
    ensures file[20 + |w.format.body|..] == AllEncoded(w.chunks)
  {
    RiffHeader(file, w.size, Encoded(w.format) + AllEncoded(w.chunks));
    FormatHeader(file, w.format, AllEncoded(w.chunks));
  }

  lemma RiffHeader(file: seq<Byte>, size: Four, rest: seq<Byte>)
    requires file == RIFF + size + WAVE + rest
    ensures NameAt(file, 0, RIFF) && WordAt(file, 4) == Word(size) && NameAt(file, 8, WAVE)
    ensures |file| == 12 + |rest| && file[12..] == rest
  {
    assert file[4..8] == size;
    assert WordAt(file, 4) == Word(file[4..8]);
  }

  /** Of a file of 2 GiB or more, the scan does not even get the first header. */
  lemma TooLarge(w: Wave, file: seq<Byte>)
    requires Framed(w) && file == File(w) && |file| > INT_MAX
    ensures Headers(file) == Over(Undefined)
  {
    RiffHeader(file, w.size, Encoded(w.format) + AllEncoded(w.chunks));
    NoWindow(|file|);
  }

  lemma NoWindow(n: nat)
    requires INT_MAX < n < U32 + 8
    ensures ToI32(n) < 8
  {
    assert n >= U32 ==> ToU32(n) == n - U32;
  }

  lemma FormatHeader(file: seq<Byte>, c: Chunk, rest: seq<Byte>)
    requires |file| >= 12 && file[12..] == Encoded(c) + rest
    requires Is(c, FMT) && Sized(c) && c.pad == [] && |c.body| >= 16
    ensures |file| == 20 + |c.body| + |rest|
    ensures NameAt(file, 12, FMT) && WordAt(file, 16) == |c.body|
    ensures file[20..36] == c.body[..16] && file[20 + |c.body|..] == rest
  {
    assert |file[12..]| == Size(c) + |rest|;
    ChunkAt(file, 12, c, rest);
    NamedAt(file, 12, c, FMT);
    assert file[20..36] == file[20..20 + |c.body|][..16];
  }

  /** With the headers in place the loop starts right behind the format chunk. */
  lemma HeadersStart(file: seq<Byte>, n: nat)
    requires 16 <= n && HeadersInPlace(file, n)
    ensures Headers(file) == Loop(file[20..36], 20 + n, 20 + n, |file| - 8)
  {
  }

  lemma StartFollows(file: seq<Byte>, start: Start, turns: seq<Turn>)
    requires start.Loop? && start.pos <= |file| && turns == Turns(file, start.pos, ONE)
    ensures Goes(file, start) == Follow(turns, start.format, start.offset, start.limit, ONE)
  {
  }

  lemma StartWalks(file: seq<Byte>, start: Start, cs: seq<Chunk>) returns (turns: seq<Turn>)
    requires start.Loop? && start.pos <= |file| <= INT_MAX
    requires PlainUpToData(cs) && file[start.pos..] == AllEncoded(cs)
    ensures Walks(turns, cs, ONE)
    ensures Goes(file, start) == Follow(turns, start.format, start.offset, start.limit, ONE)
  {
    turns := Turns(file, start.pos, ONE);
    TurnsWalk(file, start.pos, cs, ONE, turns);
    StartFollows(file, start, turns);
  }

  // ---- what that is ----

  /** The first data chunk, or the length of the list. */
  function FirstData(cs: seq<Chunk>): (k: nat)
    ensures k <= |cs|
  {
    if cs == [] || Is(cs[0], DATA) then 0 else 1 + FirstData(cs[1..])
  }

  /** What the last fact chunk says, or `samples` without one. */
  function LastCount(cs: seq<Chunk>, samples: Four): Four {
    if cs == [] then samples else Counted(cs[|cs| - 1], LastCount(cs[..|cs| - 1], samples))
  }

  lemma {:induction false} LastCountCons(c: Chunk, cs: seq<Chunk>, samples: Four)
    ensures LastCount([c] + cs, samples) == LastCount(cs, Counted(c, samples))
  {
    if cs == [] {
      assert [c] + cs == [c];
    } else {
      var n := |cs| - 1;
      LastCountCons(c, cs[..n], samples);
      assert ([c] + cs)[..n + 1] == [c] + cs[..n];
    }
  }

  lemma EncodedCons(c: Chunk, cs: seq<Chunk>)
    ensures |AllEncoded([c] + cs)| == Size(c) + |AllEncoded(cs)|
  {
    assert ([c] + cs)[1..] == cs;
  }

  lemma {:induction false} LocateIs(format: seq<Byte>, cs: seq<Chunk>, at: nat, samples: Four)
    requires PlainUpToData(cs) && at + |AllEncoded(cs)| <= INT_MAX
    ensures var k := FirstData(cs);
      && at + |AllEncoded(cs[..k])| + (if k < |cs| then |cs[k].body| else 0) <= INT_MAX
      && Locate(format, cs, at, samples)
      == if k == |cs| || cs[k].body == [] then Fail
         else Found(format, at + |AllEncoded(cs[..k])|, |cs[k].body|, Word(LastCount(cs[..k], samples)))
    decreases |cs|
  {
    var k := FirstData(cs);
    if cs != [] && !Is(cs[0], DATA) {
      var passed := cs[1..][..k - 1];
      LocateIs(format, cs[1..], at + Size(cs[0]), Counted(cs[0], samples));
      assert cs[..k] == [cs[0]] + passed;
      EncodedCons(cs[0], passed);
      LastCountCons(cs[0], passed, samples);
    }
  }

  /** How many bytes of a file come before chunk `k`. */
  function Before(w: Wave, k: nat): nat
    requires k <= |w.chunks|
  {
    20 + |w.format.body| + |AllEncoded(w.chunks[..k])|
  }

  lemma Located(w: Wave, size: nat, head: seq<Byte>, turns: seq<Turn>, outcome: Outcome)
    requires PlainUpToData(w.chunks) && Walks(turns, w.chunks, ONE)
    requires size == 20 + |w.format.body| + |AllEncoded(w.chunks)| <= INT_MAX
    requires outcome == Follow(turns, head, 20 + |w.format.body|, size - 8, ONE)
    ensures var k := FirstData(w.chunks);
      && Before(w, k) + (if k < |w.chunks| then |w.chunks[k].body| else 0) <= INT_MAX
      && outcome
      == if k == |w.chunks| || w.chunks[k].body == [] then Fail
         else Found(head, Before(w, k), |w.chunks[k].body|, Word(LastCount(w.chunks[..k], ONE)))
  {
    FollowLocates(turns, head, w.chunks, 20 + |w.format.body|, size - 8, ONE);
    LocateIs(head, w.chunks, 20 + |w.format.body|, ONE);
  }

  /**
    For every well-formed file of less than 2 GiB the scan returns the offset of the first data
    chunk, its size, and the count of the last fact chunk before it, 1 without one; it fails
    exactly when there is no data chunk or the first one is empty.
   */
  lemma ParseFindsFirstData(w: Wave)
    requires WellFormed(w) && |File(w)| <= INT_MAX
    ensures var k := FirstData(w.chunks);
      && Before(w, k) + (if k < |w.chunks| then |w.chunks[k].body| else 0) <= INT_MAX
      && Parse(File(w))
      == if k == |w.chunks| || w.chunks[k].body == [] then Fail
         else Found(w.format.body[..16], Before(w, k), |w.chunks[k].body|, Word(LastCount(w.chunks[..k], ONE)))
  {
    FileShape(w, File(w));
    HeadersStart(File(w), |w.format.body|);
    StartFinds(w, File(w), w.format.body[..16], Headers(File(w)));
  }

  /** What a call on a well-formed file comes to is defined if and only if the file is smaller than 2 GiB. */
  lemma ParseIsDefinedIff(w: Wave)
    requires WellFormed(w)
    ensures Parse(File(w)) != Undefined <==> |File(w)| <= INT_MAX
  {
    if |File(w)| <= INT_MAX {
      ParseFindsFirstData(w);
    } else {
      TooLarge(w, File(w));
    }
  }

  lemma StartFinds(w: Wave, file: seq<Byte>, head: seq<Byte>, start: Start)
    requires PlainUpToData(w.chunks)
    requires |file| == 20 + |w.format.body| + |AllEncoded(w.chunks)| <= INT_MAX
    requires start == Loop(head, 20 + |w.format.body|, 20 + |w.format.body|, |file| - 8)
    requires file[20 + |w.format.body|..] == AllEncoded(w.chunks)
    ensures var k := FirstData(w.chunks);
      && Before(w, k) + (if k < |w.chunks| then |w.chunks[k].body| else 0) <= INT_MAX
      && Goes(file, start)
      == if k == |w.chunks| || w.chunks[k].body == [] then Fail
         else Found(head, Before(w, k), |w.chunks[k].body|, Word(LastCount(w.chunks[..k], ONE)))
  {
    var turns := StartWalks(file, start, w.chunks);
    Located(w, |file|, head, turns, Goes(file, start));
  }

  // ---- what a result says of any bytes ----

  /** Four bytes of a file. */
  predicate Reading(file: seq<Byte>, p: nat, a: nat, b: nat, c: nat, d: nat) {
    p + 4 <= |file| && file[p] == a && file[p + 1] == b && file[p + 2] == c && file[p + 3] == d
  }

  lemma {:induction false} FollowFinds(file: seq<Byte>, pos: nat, samples: Four, format: seq<Byte>, offset: Uint32, limit: Uint32) returns (p: nat)
    requires pos <= |file| && Scan(file, format, pos, offset, limit, samples).Found?
    ensures p + 8 <= |file| && Reading(file, p, 100, 97, 116, 97)
    ensures WordAt(file, p + 4) == Scan(file, format, pos, offset, limit, samples).size > 0
    ensures Scan(file, format, pos, offset, limit, samples).offset < limit
    decreases |file| - pos
  {
    var t, turns := TurnAt(file, pos, samples), Turns(file, pos, samples);
    TurnsAfter(file, pos, samples, t);
    if t.Passed? {
      assert turns[1..] == Turns(file, t.pos, t.samples);
      p := FollowFinds(file, t.pos, t.samples, format, Add32(offset, t.whole), limit);
    } else {
      DataTurn(file, pos, samples);
      p := pos;
    }
  }

  lemma DataTurn(file: seq<Byte>, pos: nat, samples: Four)
    requires pos <= |file| && TurnAt(file, pos, samples).Data?
    ensures pos + 8 <= |file| && Reading(file, pos, 100, 97, 116, 97)
    ensures TurnAt(file, pos, samples) == Data(WordAt(file, pos + 4))
  {
  }

  /**
    Whatever the bytes are, a result is only returned for a file that begins with "RIFF", "WAVE" and
    "fmt " in their places, its size is that behind a "data" in the file, and its offset is below the
    size that the first header gives.
   */
  lemma FoundIsThere(file: seq<Byte>) returns (p: nat)
    requires Parse(file).Found?
    ensures Reading(file, 0, 82, 73, 70, 70) && Reading(file, 8, 87, 65, 86, 69) && Reading(file, 12, 102, 109, 116, 32)
    ensures p + 8 <= |file| && Reading(file, p, 100, 97, 116, 97) && WordAt(file, p + 4) == Parse(file).size > 0
    ensures Parse(file).offset < WordAt(file, 4)
  {
    HeadersAreRead(file);
    var start := Headers(file);
    p := FollowFinds(file, start.pos, ONE, start.format, start.offset, start.limit);
  }

  lemma HeadersAreRead(file: seq<Byte>)
    requires Headers(file).Loop?
    ensures |file| >= 8 && Headers(file).limit == WordAt(file, 4)
    ensures Reading(file, 0, 82, 73, 70, 70) && Reading(file, 8, 87, 65, 86, 69) && Reading(file, 12, 102, 109, 116, 32)
    ensures Parse(file) == Scan(file, Headers(file).format, Headers(file).pos, Headers(file).offset, Headers(file).limit, ONE)
  {
  }

  /** A fact chunk with a count, and data behind it. */
  function FactFile(): Wave {
    Wave([50, 0, 0, 0],
         Chunk([102, 109, 116, 32], [16, 0, 0, 0], [1, 0, 1, 0, 0, 0, 0, 0, 0, 0, 0, 0, 1, 0, 8, 0], []),
         [Chunk([102, 97, 99, 116], [4, 0, 0, 0], [5, 0, 0, 0], []), Chunk([100, 97, 116, 97], [2, 0, 0, 0], [1, 2], [])])
  }

  lemma FactFileIsWellFormed()
    ensures WellFormed(FactFile()) && |File(FactFile())| == 58
  {
    var w := FactFile();
    TwoEncoded(w.chunks[0], w.chunks[1]);
    assert PlainUpToData(w.chunks[1..]);
  }

  lemma FactFileData()
    ensures FirstData(FactFile().chunks) == 1 && Before(FactFile(), 1) == 48
    ensures LastCount(FactFile().chunks[..1], ONE) == [5, 0, 0, 0]
  {
    var cs := FactFile().chunks;
    assert FirstData(cs[1..]) == 0;
    assert cs[..1] == [cs[0]];
    OneEncoded(cs[0]);
    OneCount(cs[0]);
  }

  lemma OneCount(c: Chunk)
    ensures LastCount([c], ONE) == Counted(c, ONE)
  {
    assert [c][..0] == [];
  }

  /** The count of a "fact" chunk is the one returned. */
  lemma FactIsCounted()
    ensures Parse(File(FactFile())) == Found(FactFile().format.body[..16], 48, 2, 5)
  {
    FactFileIsWellFormed();
    FactFileData();
    ParseFindsFirstData(FactFile());
    assert Word([5, 0, 0, 0]) == 5;
  }

  lemma {:induction false} NoCount(cs: seq<Chunk>, samples: Four)
    requires forall i :: 0 <= i < |cs| ==> !Is(cs[i], FACT)
    ensures LastCount(cs, samples) == samples
  {
    if cs != [] {
      NoCount(cs[..|cs| - 1], samples);
    }
  }

  /** Without a "fact" chunk in front of the data the count is 1. */
  lemma CountIsOneWithoutFact(w: Wave)
    requires WellFormed(w) && |File(w)| <= INT_MAX
    requires var k := FirstData(w.chunks);
      && k < |w.chunks| && w.chunks[k].body != []
      && forall i :: 0 <= i < k ==> w.chunks[i].id != [102, 97, 99, 116]
    ensures Parse(File(w)).Found? && Parse(File(w)).samples == 1
  {
    NoFactBefore(w.chunks, FirstData(w.chunks));
    ParseFindsFirstData(w);
    assert Word([1, 0, 0, 0]) == 1;
  }

  lemma NoFactBefore(cs: seq<Chunk>, k: nat)
    requires k <= |cs| && forall i :: 0 <= i < k ==> cs[i].id != [102, 97, 99, 116]
    ensures LastCount(cs[..k], ONE) == [1, 0, 0, 0]
  {
    forall i | 0 <= i < k ensures !Is(cs[..k][i], FACT) {
      OtherName(cs[i]);
    }
    NoCount(cs[..k], ONE);
  }

  lemma OtherName(c: Chunk)
    requires c.id != [102, 97, 99, 116]
    ensures !Is(c, FACT)
  {
    assert Is(c, FACT) ==> c.id == [102, 97, 99, 116];
  }

  lemma OneEncoded(c: Chunk)
    ensures AllEncoded([c]) == Encoded(c)
  {
    assert AllEncoded([c]) == Encoded(c) + AllEncoded([c][1..]);
  }

  // ---- when the scan stays in step ----

  /**
    From this loop head on, up to the first data chunk or the end of the list: the reader and the
    code's offset are at a chunk's header whenever a turn begins.
   */
  ghost predicate InStep(file: seq<Byte>, cs: seq<Chunk>, head: nat, pos: nat, offset: Uint32, samples: Four)
    decreases |cs|, 1
  {
    && pos == head == offset
    && (cs != [] && !Is(cs[0], DATA) && pos <= |file| ==> StepsOn(file, cs, head, offset, TurnAt(file, pos, samples)))
  }

  /** After a turn over the first chunk. */
  ghost predicate StepsOn(file: seq<Byte>, cs: seq<Chunk>, head: nat, offset: Uint32, t: Turn)
    requires cs != []
    decreases |cs|, 0
  {
    t.Passed? && InStep(file, cs[1..], head + Size(cs[0]), t.pos, Add32(offset, t.whole), t.samples)
  }

  /** The chunks up to the first data chunk have right sizes and are padded as RIFF asks. */
  predicate RiffUpToData(cs: seq<Chunk>) {
    cs != [] ==> Sized(cs[0]) && Padded(cs[0]) && (!Is(cs[0], DATA) ==> RiffUpToData(cs[1..]))
  }

  /** Even, and a fact chunk holds its four bytes unless the file ends with it. */
  predicate Steady(c: Chunk, last: bool) {
    |c.body| % 2 == 0 && (Is(c, FACT) && !last ==> |c.body| >= 4)
  }

  predicate SteadyUpToData(cs: seq<Chunk>) {
    cs != [] && !Is(cs[0], DATA) ==> Steady(cs[0], cs[1..] == []) && SteadyUpToData(cs[1..])
  }

  lemma {:induction false} SteadyUpToDataIs(cs: seq<Chunk>)
    ensures SteadyUpToData(cs) <==> forall i :: 0 <= i < FirstData(cs) ==> Steady(cs[i], i == |cs| - 1)
    decreases |cs|
  {
    if cs != [] && !Is(cs[0], DATA) {
      SteadyUpToDataIs(cs[1..]);
      assert forall i :: 1 <= i < FirstData(cs) ==> cs[i] == cs[1..][i - 1];
      if forall i :: 0 <= i < FirstData(cs) ==> Steady(cs[i], i == |cs| - 1) {
        forall i | 0 <= i < FirstData(cs[1..]) ensures Steady(cs[1..][i], i == |cs[1..]| - 1) {
          assert Steady(cs[i + 1], i + 1 == |cs| - 1);
        }
      }
    }
  }

  /** A turn over a fact chunk that is too short reads into what follows, unless nothing does. */
  lemma TurnOverShortFact(file: seq<Byte>, pos: nat, size: nat, samples: Four)
    requires pos + 8 + size <= |file| <= INT_MAX && size < 4
    requires !NameAt(file, pos, DATA) && NameAt(file, pos, FACT) && WordAt(file, pos + 4) == size
    ensures var t := TurnAt(file, pos, samples);
      t.Passed? && t.whole == 8 + size && (t.pos == pos + 8 + size <==> |file| == pos + 8 + size)
  {
  }

  /** One turn ends at the next chunk's header, in the file and in the code's count, exactly over a steady chunk. */
  lemma TurnInStepIff(file: seq<Byte>, pos: nat, c: Chunk, rest: seq<Byte>, samples: Four)
    requires pos <= |file| <= INT_MAX && !Is(c, DATA) && Sized(c) && Padded(c) && file[pos..] == Encoded(c) + rest
    ensures pos + Size(c) <= |file| && file[pos + Size(c)..] == rest
    ensures var t := TurnAt(file, pos, samples);
      t.Passed? && t.whole <= Size(c) && (t.pos == pos + Size(c) && t.whole == Size(c) <==> Steady(c, rest == []))
  {
    assert |file[pos..]| == Size(c) + |rest|;
    ChunkAt(file, pos, c, rest);
    if Is(c, FACT) && |c.body| < 4 {
      NamedAt(file, pos, c, DATA);
      NamedAt(file, pos, c, FACT);
      TurnOverShortFact(file, pos, |c.body|, samples);
    } else {
      TurnPasses(file, pos, c, rest, samples);
    }
  }

  /** The step of the walk: in step over the first chunk and in step behind it. */
  lemma InStepCons(file: seq<Byte>, cs: seq<Chunk>, pos: nat, samples: Four, t: Turn)
    requires cs != [] && !Is(cs[0], DATA) && pos + Size(cs[0]) <= |file| <= INT_MAX
    requires t == TurnAt(file, pos, samples) && t.Passed? && t.whole <= Size(cs[0])
    ensures InStep(file, cs, pos, pos, pos, samples) <==>
      && t.pos == pos + Size(cs[0]) && t.whole == Size(cs[0])
      && InStep(file, cs[1..], t.pos, t.pos, t.pos, t.samples)
  {
    StepsOnIff(file, cs, pos, t);
  }

  lemma StepsOnIff(file: seq<Byte>, cs: seq<Chunk>, pos: nat, t: Turn)
    requires cs != [] && pos + Size(cs[0]) <= |file| <= INT_MAX && t.Passed? && t.whole <= Size(cs[0])
    ensures StepsOn(file, cs, pos, pos, t) <==>
      && t.pos == pos + Size(cs[0]) && t.whole == Size(cs[0])
      && InStep(file, cs[1..], t.pos, t.pos, t.pos, t.samples)
  {
  }

  lemma {:induction false} InStepIff(file: seq<Byte>, cs: seq<Chunk>, pos: nat, samples: Four)
    requires pos <= |file| <= INT_MAX && file[pos..] == AllEncoded(cs) && RiffUpToData(cs)
    ensures InStep(file, cs, pos, pos, pos, samples) <==> SteadyUpToData(cs)
    decreases |cs|
  {
    if cs != [] && !Is(cs[0], DATA) {
      var rest, t := AllEncoded(cs[1..]), TurnAt(file, pos, samples);
      EightOrNothing(cs[1..]);
      TurnInStepIff(file, pos, cs[0], rest, samples);
      InStepCons(file, cs, pos, samples, t);
      if Steady(cs[0], cs[1..] == []) {
        InStepIff(file, cs[1..], t.pos, t.samples);
      }
    }
  }

  /**
    The scan of a file of less than 2 GiB whose sizes are right and whose chunks are padded as RIFF
    asks is at a chunk's header at the head of every turn up to the first data chunk, with the
    reader and with its own offset, if and only if every chunk before that one has an even size and
    every fact chunk its four bytes, except for one at the end of the file.
   */
  lemma ScanStaysInStepIff(w: Wave)
    requires Framed(w) && |File(w)| <= INT_MAX && RiffUpToData(w.chunks)
    ensures var start := Headers(File(w));
      && start.Loop?
      && (InStep(File(w), w.chunks, Before(w, 0), start.pos, start.offset, ONE) <==>
            forall i :: 0 <= i < FirstData(w.chunks) ==> Steady(w.chunks[i], i == |w.chunks| - 1))
  {
    FileShape(w, File(w));
    FileInStepIff(w, File(w));
  }

  lemma FileInStepIff(w: Wave, file: seq<Byte>)
    requires 16 <= |w.format.body| && HeadersInPlace(file, |w.format.body|)
    requires RiffUpToData(w.chunks) && file[20 + |w.format.body|..] == AllEncoded(w.chunks)
    ensures var start := Headers(file);
      && start.Loop?
      && (InStep(file, w.chunks, Before(w, 0), start.pos, start.offset, ONE) <==>
            forall i :: 0 <= i < FirstData(w.chunks) ==> Steady(w.chunks[i], i == |w.chunks| - 1))
  {
    HeadersStart(file, |w.format.body|);
    assert AllEncoded(w.chunks[..0]) == [];
    StepsIff(file, w.chunks, Before(w, 0));
  }

  lemma StepsIff(file: seq<Byte>, cs: seq<Chunk>, pos: nat)
    requires pos <= |file| <= INT_MAX && file[pos..] == AllEncoded(cs) && RiffUpToData(cs)
    ensures InStep(file, cs, pos, pos, pos, ONE) <==>
            forall i :: 0 <= i < FirstData(cs) ==> Steady(cs[i], i == |cs| - 1)
  {
    InStepIff(file, cs, pos, ONE);
    SteadyUpToDataIs(cs);
  }

  // ---- why no chunk may be padded ----

  /** A file whose first chunk has one byte, and one of padding as RIFF asks. */
  function OddFile(): Wave {
    Wave([48, 0, 0, 0],
         Chunk([102, 109, 116, 32], [16, 0, 0, 0], [1, 0, 1, 0, 0, 0, 0, 0, 0, 0, 0, 0, 1, 0, 8, 0], []),
         [Chunk([76, 73, 83, 84], [1, 0, 0, 0], [7], [0]), Chunk([100, 97, 116, 97], [2, 0, 0, 0], [1, 2], [])])
  }

  lemma TwoEncoded(a: Chunk, b: Chunk)
    ensures AllEncoded([a, b]) == Encoded(a) + Encoded(b)
  {
    assert [a, b][1..] == [b];
    assert AllEncoded([b]) == Encoded(b) + AllEncoded([b][1..]);
  }

  /** The bytes the scan stumbles over: the list chunk's header, then one byte too early. */
  predicate Stumbles(file: seq<Byte>) {
    && |file| == 56
    && file[36] == 76 && file[40] == 1 && file[41] == 0 && file[42] == 0 && file[43] == 0
    && file[45] == 0 && file[49] == 97 && file[50] == 2 && file[51] == 0 && file[52] == 0
  }

  lemma TwoChunksAt(file: seq<Byte>, list: seq<Byte>, data: seq<Byte>)
    requires |file| == 56 && file[36..] == list + data
    requires list == [76, 73, 83, 84, 1, 0, 0, 0, 7, 0]
    requires data == [100, 97, 116, 97, 2, 0, 0, 0, 1, 2]
    ensures Stumbles(file)
  {
    forall i | 0 <= i < 10 ensures file[36 + i] == list[i] && file[46 + i] == data[i] {
      assert file[36 + i] == file[36..][i];
      assert file[46 + i] == file[36..][10 + i];
    }
    assert file[36 + 0] == 76 && file[36 + 4] == 1 && file[36 + 5] == 0 && file[36 + 6] == 0 && file[36 + 7] == 0;
    assert file[36 + 9] == 0 && file[46 + 3] == 97 && file[46 + 4] == 2 && file[46 + 5] == 0 && file[46 + 6] == 0;
  }

  lemma OddFileFramed()
    ensures Framed(OddFile()) && |File(OddFile())| == 56
  {
    var w := OddFile();
    TwoEncoded(w.chunks[0], w.chunks[1]);
  }

  lemma OddFileBytes(file: seq<Byte>)
    requires file == File(OddFile())
    ensures HeadersInPlace(file, 16) && Stumbles(file)
  {
    OddFileFramed();
    FileShape(OddFile(), file);
    OddChunksAt(file, OddFile().chunks);
  }

  lemma OddChunksAt(file: seq<Byte>, cs: seq<Chunk>)
    requires |file| == 56 && cs == OddFile().chunks && file[36..] == AllEncoded(cs)
    ensures Stumbles(file)
  {
    TwoEncoded(cs[0], cs[1]);
    TwoChunksAt(file, Encoded(cs[0]), Encoded(cs[1]));
  }

  lemma OddTurns(file: seq<Byte>)
    requires Stumbles(file)
    ensures TurnAt(file, 36, ONE) == Passed(45, 9, ONE)
    ensures TurnAt(file, 45, ONE) == Passed(56, 617, ONE)
  {
    assert WordAt(file, 40) == 1 && WordAt(file, 49) == 609;
  }

  lemma TwoTurns(file: seq<Byte>, format: seq<Byte>, turns: seq<Turn>)
    requires Stumbles(file) && turns == Turns(file, 36, ONE)
    ensures Follow(turns, format, 36, 48, ONE) == Fail
  {
    OddTurns(file);
    TurnsAfter(file, 36, ONE, Passed(45, 9, ONE));
    TurnsAfter(file, 45, ONE, Passed(56, 617, ONE));
    assert turns[1..] == Turns(file, 45, ONE);
    assert Follow(turns, format, 36, 48, ONE) == Follow(turns[1..], format, 45, 48, ONE);
    assert Follow(turns[1..], format, 45, 48, ONE) == Follow(turns[1..][1..], format, 662, 48, ONE);
  }

  lemma StumblingFails(file: seq<Byte>)
    requires HeadersInPlace(file, 16) && Stumbles(file)
    ensures Parse(file) == Fail
  {
    HeadersStart(file, 16);
    var turns := Turns(file, 36, ONE);
    TwoTurns(file, file[20..36], turns);
    StartFollows(file, Headers(file), turns);
  }

  /** The file is as RIFF asks, and its second chunk is the first with data. */
  lemma OddFileIsPadded()
    ensures Framed(OddFile()) && FirstData(OddFile().chunks) == 1
    ensures forall i :: 0 <= i < |OddFile().chunks| ==> Sized(OddFile().chunks[i]) && Padded(OddFile().chunks[i])
  {
    OddFileFramed();
    assert Is(OddFile().chunks[1..][0], DATA);
  }

  /** Padding has to be left out: the file has a data chunk of two bytes, and the scan does not find it. */
  lemma OddChunkHidesData(file: seq<Byte>)
    requires file == File(OddFile())
    ensures Parse(file) == Fail
  {
    OddFileBytes(file);
    StumblingFails(file);
  }
}
