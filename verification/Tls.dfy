/**
  Static and dynamic thread-local storage in core/runtime/runtimeLinker.cpp: laying out the
  static block, copying it into every thread, and finding a module's storage again.
 */
module Tls {
  import opened Words
  import opened LittleEndian
  import opened TlsSpec

  /** DTV_MAX_KEYS and DTV_SIZE */
  const MAX_KEYS: nat := 256

  /** The address of tlsDynDestruct; any number but 0. */
  const TLS_DYN_DESTRUCT: nat := 1

  const XSAVE_CHK_GUARD: nat := 0xDEAD_BEEF_5533_CCAA

  /** The index of a program for which no key was free: -1 as an unsigned word. */
  const NO_KEY: nat := U32 - 1

  class Program {
    const sizeImage: nat
    const alignment: nat
    var image: seq<Byte>
    var offset: int
    var index: nat

    constructor (image: seq<Byte>, alignment: nat)
      ensures this.image == image && sizeImage == |image| && this.alignment == alignment
    {
      this.image, this.alignment, sizeImage := image, alignment, |image|;
      offset, index := 0, 0;
    }

    function Layout(): Module {
      Module(sizeImage, alignment)
    }
  }

  /** What one entry of a thread's vector holds: 0, another number, an address in the thread's own object, or a block. */
  datatype Slot = Empty | Raw(value: nat) | Own(at: nat) | Block(bytes: array<Byte>)

  class ThreadObject {
    const mem: array<Byte>
    var dtv: seq<Slot>

    constructor (size: nat)
      ensures fresh(mem) && mem.Length == size && dtv == seq(MAX_KEYS, _ => Empty)
    {
      mem := new Byte[size](_ => 0);
      dtv := seq(MAX_KEYS, _ => Empty);
    }

    /**
      The thread library's part of initTLS (core/kernel/pthread.cpp:96-100): all slots are cleared
      but the last one, which holds the guard, and the one before it, which is left alone.
     */
    method ResetSlots()
      requires |dtv| == MAX_KEYS
      modifies this`dtv
      ensures |dtv| == MAX_KEYS && dtv[MAX_KEYS - 1] == Raw(XSAVE_CHK_GUARD) && dtv[MAX_KEYS - 2] == old(dtv)[MAX_KEYS - 2]
      ensures forall i :: 0 <= i < MAX_KEYS - 2 ==> dtv[i] == Empty
    {
      dtv := dtv[0 := Empty];
      for n := 1 to MAX_KEYS - 2
        invariant |dtv| == MAX_KEYS && dtv[MAX_KEYS - 2] == old(dtv)[MAX_KEYS - 2]
        invariant forall i :: 0 <= i < n ==> dtv[i] == Empty
      {
        dtv := dtv[n := Empty];
      }
      dtv := dtv[MAX_KEYS - 1 := Raw(XSAVE_CHK_GUARD)];
    }
  }

  /** An address as `getTLSAddr` returns it: a slot's address plus an offset. */
  datatype Address = Address(slot: Slot, offset: nat)

  predicate Readable(obj: ThreadObject, a: Address) {
    match a.slot
    case Own(at) => at + a.offset < obj.mem.Length
    case Block(bytes) => a.offset < bytes.Length
    case _ => false
  }

  function Read(obj: ThreadObject, a: Address): Byte
    requires Readable(obj, a)
    reads obj.mem, if a.slot.Block? then {a.slot.bytes} else {}
  {
    match a.slot
    case Own(at) => obj.mem[at + a.offset]
    case Block(bytes) => bytes[a.offset]
  }

  /** The slot leads to memory of the thread that holds a copy of the program's image. */
  ghost predicate SlotReady(obj: ThreadObject, slot: Slot, p: Program)
    reads obj, obj.mem, p
  {
    && slot.Own? && slot.at + p.sizeImage <= obj.mem.Length && |p.image| == p.sizeImage
    && (forall k :: 0 <= k < p.sizeImage ==> Read(obj, Address(slot, k)) == p.image[k])
  }

  function Modules(ps: seq<Program>): seq<Module> {
    seq(|ps|, i requires 0 <= i < |ps| => ps[i].Layout())
  }

  lemma OffsetsChain(start: int, ps: seq<Program>)
    requires ModulesFit(Modules(ps))
    ensures forall n :: 0 <= n < |ps| ==> ps[n].alignment < U32
    ensures forall n {:trigger ps[n]} :: 0 <= n < |ps| ==>
      Offsets(start, Modules(ps))[n] == Place(Before(start, Offsets(start, Modules(ps)), n), ps[n].Layout())
  {
    forall n | 0 <= n < |ps| ensures ps[n].alignment < U32 {
      assert Modules(ps)[n].alignment < U32;
    }
    forall n {:trigger ps[n]} | 0 <= n < |ps|
      ensures Offsets(start, Modules(ps))[n] == Place(Before(start, Offsets(start, Modules(ps)), n), ps[n].Layout())
    {
      OffsetAt(start, Modules(ps), n);
    }
  }

  lemma SmallIsGood(ps: seq<Program>)
    requires Layable(Modules(ps)) && forall i :: 0 <= i < |ps| && ps[i].alignment != 0 ==> 32 % ps[i].alignment == 0
    ensures GoodLayout(Modules(ps), Offsets(BlockSize(Modules(ps)), Modules(ps)), BlockSize(Modules(ps)))
  {
    var ms := Modules(ps);
    forall i | 0 <= i < |ms| && ms[i].alignment != 0 ensures 32 % ms[i].alignment == 0 {
      assert ms[i].alignment == ps[i].alignment;
    }
    SmallAlignmentsAreGood(ms);
  }

  class RuntimeLinker {
    /** The programs with static storage, main program first. */
    var programs: seq<Program>
    /** Dynamically loaded programs by the index they were given. */
    var tlsIndexMap: map<nat, Program>
    var tlsStaticInitBlock: array<Byte>
    /** `used` and `destructor` of each key; a null destructor is 0. */
    const dtvKeys: array<bool>
    var destructors: seq<nat>
    /** The registered threads. */
    var threadList: map<nat, ThreadObject>
    var countcreatePrograms: nat
    var curDTVVersion: nat

    constructor (programs: seq<Program>)
      ensures this.programs == programs && countcreatePrograms == |programs| && tlsIndexMap == map[]
      ensures dtvKeys.Length == MAX_KEYS && fresh(dtvKeys) && fresh(tlsStaticInitBlock)
      ensures |destructors| == MAX_KEYS && threadList == map[]
      ensures forall k :: 0 <= k < MAX_KEYS ==> !dtvKeys[k]
    {
      this.programs, countcreatePrograms, tlsIndexMap := programs, |programs|, map[];
      curDTVVersion, threadList := 1, map[];
      destructors := seq(MAX_KEYS, _ => 0);
      tlsStaticInitBlock := new Byte[0];
      dtvKeys := new bool[MAX_KEYS](_ => false);
    }

    predicate Registered()
      reads this
    {
      && dtvKeys.Length == MAX_KEYS == |destructors|
      && countcreatePrograms == |programs| < MAX_KEYS
      && (forall i, j :: 0 <= i < j < |programs| ==> programs[i] != programs[j])
    }

    /** The fields that initTlsStaticBlock fills in agree with the layout. */
    predicate LaidOut()
      reads this`programs, this`tlsStaticInitBlock, programs
    {
      var ms := Modules(programs);
      && ModulesFit(ms)
      && tlsStaticInitBlock.Length == BlockSize(ms)
      && (forall i {:trigger programs[i]} :: 0 <= i < |programs| ==> programs[i].offset == Offsets(BlockSize(ms), ms)[i])
      && (forall i :: 0 <= i < |programs| ==> programs[i].index == i + 1)
    }

    /** The first pass of initTlsStaticBlock: 824-831 */
    method StaticSize() returns (tlsStaticSize: nat)
      requires ModulesFit(Modules(programs))
      ensures tlsStaticSize == BlockSize(Modules(programs))
    {
      ghost var ms := Modules(programs);
      var offsetPre := 0;
      for n := 0 to |programs|
        invariant offsetPre == Last(0, Offsets(0, ms[..n]))
      {
        OffsetsStep(0, ms, n);
        offsetPre := StepDown(offsetPre, programs[n]);
      }
      assert ms[..|ms|] == ms;
      tlsStaticSize := AlignUp(Abs(offsetPre), 32);
    }

    /** The arithmetic of either pass: 828, 837 */
    method StepDown(offset: int, prog: Program) returns (next: int)
      requires prog.alignment < U32
      ensures next == Place(offset, prog.Layout())
    {
      next := ToI64(AlignDown(ToU64(offset - prog.sizeImage), prog.alignment));
    }

    /** The second pass of initTlsStaticBlock: 834-850 */
    method AssignOffsets(tlsStaticSize: nat, ghost os: seq<int>)
      requires Registered() && |os| == |programs|
      requires forall n :: 0 <= n < |programs| ==> programs[n].alignment < U32
      requires forall n {:trigger programs[n]} :: 0 <= n < |programs| ==> os[n] == Place(Before(tlsStaticSize, os, n), programs[n].Layout())
      modifies programs`offset, programs`index, dtvKeys, this`destructors
      ensures |destructors| == MAX_KEYS
      ensures forall k :: 0 <= k < MAX_KEYS ==> destructors[k] == if 1 <= k <= |programs| then 0 else old(destructors)[k]
      ensures forall i {:trigger programs[i]} :: 0 <= i < |programs| ==> programs[i].offset == os[i] && programs[i].index == i + 1
      ensures forall k :: 0 <= k < MAX_KEYS ==> dtvKeys[k] == (old(dtvKeys[k]) || 1 <= k <= |programs|)
    {
      var offset: int := tlsStaticSize;
      var indexCount := 0;
      for n := 0 to |programs|
        invariant indexCount == n && offset == Before(tlsStaticSize, os, n)
        invariant forall i {:trigger programs[i]} :: 0 <= i < n ==> programs[i].offset == os[i] && programs[i].index == i + 1
        invariant forall k :: 0 <= k < MAX_KEYS ==> dtvKeys[k] == (old(dtvKeys[k]) || 1 <= k <= n)
        invariant |destructors| == MAX_KEYS
        invariant forall k :: 0 <= k < MAX_KEYS ==> destructors[k] == if 1 <= k <= n then 0 else old(destructors)[k]
      {
        var prog := programs[n];
        offset := StepDown(offset, prog);
        assert offset == os[n];
        indexCount := indexCount + 1;
        AssignTo(prog, offset, indexCount);
      }
    }

    method AssignTo(prog: Program, offset: int, indexCount: nat)
      requires Registered() && indexCount < MAX_KEYS
      modifies prog`offset, prog`index, dtvKeys, this`destructors
      ensures prog.offset == offset && prog.index == indexCount
      ensures destructors == old(destructors)[indexCount := 0]
      ensures forall k :: 0 <= k < MAX_KEYS ==> dtvKeys[k] == (old(dtvKeys[k]) || k == indexCount)
    {
      prog.offset := offset;
      prog.index := indexCount;
      dtvKeys[prog.index] := true;
      destructors := destructors[prog.index := 0];
    }

    /** initTlsStaticBlock: 820-851 */
    method InitTlsStaticBlock()
      requires Registered() && ModulesFit(Modules(programs))
      modifies this`tlsStaticInitBlock, this`destructors, programs`offset, programs`index, dtvKeys
      ensures |destructors| == MAX_KEYS && LaidOut() && fresh(tlsStaticInitBlock)
      ensures forall k :: 0 <= k < MAX_KEYS ==> dtvKeys[k] == (old(dtvKeys[k]) || 1 <= k <= |programs|)
    {
      ghost var ms := Modules(programs);
      var tlsStaticSize := StaticSize();
      tlsStaticInitBlock := new Byte[tlsStaticSize](_ => 0);
      ghost var os := Offsets(tlsStaticSize, ms);
      OffsetsChain(tlsStaticSize, programs);
      AssignOffsets(tlsStaticSize, os);
    }

    /** The images fit into the block and keep apart. */
    ghost predicate Separate()
      reads this`programs, this`tlsStaticInitBlock, programs
    {
      && (forall i {:trigger programs[i]} :: 0 <= i < |programs| ==>
            && 0 <= programs[i].offset && programs[i].offset + programs[i].sizeImage <= tlsStaticInitBlock.Length
            && |programs[i].image| == programs[i].sizeImage && programs[i].index == i + 1)
      && (forall i, j :: 0 <= i < j < |programs| ==> programs[j].offset + programs[j].sizeImage <= programs[i].offset)
    }

    lemma GoodIsSeparate()
      requires LaidOut()
      requires GoodLayout(Modules(programs), Offsets(BlockSize(Modules(programs)), Modules(programs)), BlockSize(Modules(programs)))
      requires forall i :: 0 <= i < |programs| ==> |programs[i].image| == programs[i].sizeImage
      ensures Separate()
    {
      var ms := Modules(programs);
      assert forall i :: 0 <= i < |programs| ==> ms[i].size == programs[i].sizeImage;
    }

    /** setupTlsStaticBlock: 856-860 */
    method SetupTlsStaticBlock()
      requires Separate()
      modifies tlsStaticInitBlock
      ensures BlockReady()
    {
      for n := 0 to |programs|
        invariant forall i {:trigger programs[i]} :: 0 <= i < n ==> InPlace(programs[i])
      {
        CopyImage(n);
      }
    }

    method CopyImage(n: nat)
      requires Separate() && n < |programs|
      requires forall i {:trigger programs[i]} :: 0 <= i < n ==> InPlace(programs[i])
      modifies tlsStaticInitBlock
      ensures forall i {:trigger programs[i]} :: 0 <= i <= n ==> InPlace(programs[i])
    {
      var p := programs[n];
      assert forall i {:trigger programs[i]} :: 0 <= i < n ==> p.offset + p.sizeImage <= programs[i].offset;
      CopyInto(tlsStaticInitBlock, p.offset, p.image);
      assert InPlace(p);
    }

    /** The block holds the program's image at its offset. */
    ghost predicate InPlace(p: Program)
      reads this`tlsStaticInitBlock, p, tlsStaticInitBlock
    {
      && 0 <= p.offset && p.offset + p.sizeImage <= tlsStaticInitBlock.Length && |p.image| == p.sizeImage
      && (forall k :: 0 <= k < p.sizeImage ==> tlsStaticInitBlock[p.offset + k] == p.image[k])
    }

    /** The block holds every program's image at its offset. */
    ghost predicate BlockReady()
      reads this`programs, this`tlsStaticInitBlock, programs, tlsStaticInitBlock
    {
      Separate() && forall i {:trigger programs[i]} :: 0 <= i < |programs| ==> InPlace(programs[i])
    }

    /** The part of execute that concerns static storage: 890, 911 */
    method Execute()
      requires Registered() && Layable(Modules(programs))
      requires forall i :: 0 <= i < |programs| ==> |programs[i].image| == programs[i].sizeImage
      requires forall i :: 0 <= i < |programs| && programs[i].alignment != 0 ==> 32 % programs[i].alignment == 0
      modifies this`tlsStaticInitBlock, this`destructors, programs`offset, programs`index, dtvKeys
      ensures |destructors| == MAX_KEYS && LaidOut() && BlockReady() && fresh(tlsStaticInitBlock)
      ensures forall k :: 0 <= k < MAX_KEYS ==> dtvKeys[k] == (old(dtvKeys[k]) || 1 <= k <= |programs|)
    {
      SmallIsGood(programs);
      InitSeparately();
      SetupTlsStaticBlock();
    }

    /** initTlsStaticBlock on programs whose layout is good. */
    method InitSeparately()
      requires Registered() && ModulesFit(Modules(programs))
      requires GoodLayout(Modules(programs), Offsets(BlockSize(Modules(programs)), Modules(programs)), BlockSize(Modules(programs)))
      requires forall i :: 0 <= i < |programs| ==> |programs[i].image| == programs[i].sizeImage
      modifies this`tlsStaticInitBlock, this`destructors, programs`offset, programs`index, dtvKeys
      ensures |destructors| == MAX_KEYS && LaidOut() && Separate() && fresh(tlsStaticInitBlock)
      ensures forall k :: 0 <= k < MAX_KEYS ==> dtvKeys[k] == (old(dtvKeys[k]) || 1 <= k <= |programs|)
    {
      ghost var ps := programs;
      InitTlsStaticBlock();
      assert programs == ps && forall i {:trigger ps[i]} :: 0 <= i < |ps| ==> |ps[i].image| == ps[i].sizeImage;
      GoodIsSeparate();
    }

    /** Every static slot of the thread leads to a copy of its program's image. */
    ghost predicate ThreadReady(obj: ThreadObject)
      reads this`programs, programs, obj, obj.mem
    {
      && |obj.dtv| == MAX_KEYS && |programs| < MAX_KEYS
      && (forall i {:trigger programs[i]} :: 0 <= i < |programs| ==> SlotReady(obj, obj.dtv[i + 1], programs[i]))
    }

    /** The thread's object holds the block and its slots point into it. */
    ghost predicate Wired(obj: ThreadObject)
      reads this`programs, this`tlsStaticInitBlock, programs, tlsStaticInitBlock, obj, obj.mem
    {
      && |obj.dtv| == MAX_KEYS && |programs| < MAX_KEYS && 8 + tlsStaticInitBlock.Length <= obj.mem.Length
      && (forall k :: 0 <= k < tlsStaticInitBlock.Length ==> obj.mem[8 + k] == tlsStaticInitBlock[k])
      && (forall i {:trigger programs[i]} :: 0 <= i < |programs| ==>
            0 <= programs[i].offset && obj.dtv[i + 1] == Own(8 + programs[i].offset))
    }

    lemma WiredSlot(obj: ThreadObject, i: nat)
      requires BlockReady() && Wired(obj) && i < |programs|
      ensures SlotReady(obj, obj.dtv[i + 1], programs[i])
    {
      var p := programs[i];
      assert obj.dtv[i + 1] == Own(8 + p.offset);
      forall k: int | 0 <= k < p.sizeImage
        ensures Read(obj, Address(obj.dtv[i + 1], k)) == p.image[k]
      {
        assert tlsStaticInitBlock[p.offset + k] == p.image[k];
        assert obj.mem[8 + (p.offset + k)] == tlsStaticInitBlock[p.offset + k];
      }
    }

    lemma WiredIsReady(obj: ThreadObject)
      requires BlockReady() && Wired(obj)
      ensures ThreadReady(obj)
    {
      forall i {:trigger programs[i]} | 0 <= i < |programs| ensures SlotReady(obj, obj.dtv[i + 1], programs[i]) {
        WiredSlot(obj, i);
      }
    }

    /** initTLS: 429-447 */
    method InitTLS(obj: ThreadObject, id: nat)
      requires Registered() && BlockReady()
      requires |obj.dtv| == MAX_KEYS && obj.mem.Length >= 8 + tlsStaticInitBlock.Length
      requires obj.mem != tlsStaticInitBlock
      modifies obj.mem, obj`dtv, this`threadList
      ensures threadList == old(threadList)[id := obj] && |obj.dtv| == MAX_KEYS
      ensures BlockReady() && ThreadReady(obj)
      ensures obj.dtv[0] == Raw(curDTVVersion)
      ensures forall i :: |programs| < i < MAX_KEYS ==> obj.dtv[i] == old(obj.dtv)[i]
      ensures forall i :: 0 <= i < obj.mem.Length && !(8 <= i < 8 + tlsStaticInitBlock.Length) ==> obj.mem[i] == old(obj.mem[i])
    {
      CopyBlock(obj);
      threadList := threadList[id := obj];
      FillSlots(obj);
      assert BlockReady();
      assert Wired(obj);
      WiredIsReady(obj);
    }

    /** The block goes behind the first eight bytes: 432-434 */
    method CopyBlock(obj: ThreadObject)
      requires obj.mem.Length >= 8 + tlsStaticInitBlock.Length && obj.mem != tlsStaticInitBlock
      modifies obj.mem
      ensures forall k :: 0 <= k < tlsStaticInitBlock.Length ==> obj.mem[8 + k] == tlsStaticInitBlock[k]
      ensures forall i :: 0 <= i < obj.mem.Length && !(8 <= i < 8 + tlsStaticInitBlock.Length) ==> obj.mem[i] == old(obj.mem[i])
    {
      if tlsStaticInitBlock.Length != 0 {
        CopyInto(obj.mem, 8, tlsStaticInitBlock[..]);
        assert forall k :: 0 <= k < tlsStaticInitBlock.Length ==> obj.mem[8 + k] == tlsStaticInitBlock[..][k];
      }
    }

    /** The slots of the static programs: 437-446 */
    method FillSlots(obj: ThreadObject)
      requires Registered() && |obj.dtv| == MAX_KEYS
      requires forall i {:trigger programs[i]} :: 0 <= i < |programs| ==> 0 <= programs[i].offset && programs[i].index == i + 1
      modifies obj`dtv
      ensures |obj.dtv| == MAX_KEYS && obj.dtv[0] == Raw(curDTVVersion)
      ensures forall i {:trigger programs[i]} :: 0 <= i < |programs| ==>
        0 <= programs[i].offset && obj.dtv[i + 1] == Own(8 + programs[i].offset)
      ensures forall i :: |programs| < i < MAX_KEYS ==> obj.dtv[i] == old(obj.dtv)[i]
    {
      obj.dtv := obj.dtv[0 := Raw(curDTVVersion)];
      for n := 0 to |programs|
        invariant |obj.dtv| == MAX_KEYS && obj.dtv[0] == Raw(curDTVVersion)
        invariant forall i {:trigger programs[i]} :: 0 <= i < n ==>
          0 <= programs[i].offset && obj.dtv[i + 1] == Own(8 + programs[i].offset)
        invariant forall i :: n < i < MAX_KEYS ==> obj.dtv[i] == old(obj.dtv)[i]
      {
        obj.dtv := obj.dtv[programs[n].index := Own(8 + programs[n].offset)];
      }
    }

    /**
      getTLSAddr: 631-655. A static index answers from the thread's slot; a dynamic one gets the
      calling thread its own copy of the image on first use.
     */
    method GetTlsAddr(self: ThreadObject, index: nat, offset: nat) returns (address: Address)
      requires |self.dtv| == MAX_KEYS && countcreatePrograms < MAX_KEYS
      requires Dynamic() && (index > countcreatePrograms ==> index in tlsIndexMap && index < MAX_KEYS)
      modifies self`dtv
      ensures |self.dtv| == MAX_KEYS && address == Address(self.dtv[index], offset)
      ensures forall i :: 0 <= i < MAX_KEYS && i != index ==> self.dtv[i] == old(self.dtv)[i]
      ensures index <= countcreatePrograms || old(self.dtv)[index] != Empty ==> self.dtv[index] == old(self.dtv)[index]
      ensures old(ThreadReady(self)) && 1 <= index <= countcreatePrograms == |programs| && offset < programs[index - 1].sizeImage ==>
        && ThreadReady(self) && Readable(self, address)
        && |programs[index - 1].image| == programs[index - 1].sizeImage
        && Read(self, address) == programs[index - 1].image[offset]
      ensures index > countcreatePrograms && old(self.dtv)[index] == Empty ==>
        && self.dtv[index].Block? && fresh(self.dtv[index].bytes)
        && self.dtv[index].bytes[..] == tlsIndexMap[index].image
    {
      if index <= countcreatePrograms {
        assert 1 <= index <= |programs| && ThreadReady(self) ==> SlotReady(self, self.dtv[index - 1 + 1], programs[index - 1]);
        return Address(self.dtv[index], offset);
      }
      var prog := tlsIndexMap[index];
      if self.dtv[prog.index] == Empty {
        var obj := new Byte[prog.sizeImage](_ => 0);
        CopyInto(obj, 0, prog.image);
        assert obj[..] == obj[0..0 + |prog.image|];
        self.dtv := self.dtv[prog.index := Block(obj)];
      }
      return Address(self.dtv[prog.index], offset);
    }

    /** A thread as pthread's initTLS sets it up: core/kernel/pthread.cpp:96-102 */
    method InitThread(obj: ThreadObject, id: nat)
      requires Registered() && BlockReady()
      requires |obj.dtv| == MAX_KEYS && obj.mem.Length >= 8 + tlsStaticInitBlock.Length
      requires obj.mem != tlsStaticInitBlock
      modifies obj.mem, obj`dtv, this`threadList
      ensures threadList == old(threadList)[id := obj] && |obj.dtv| == MAX_KEYS
      ensures BlockReady() && ThreadReady(obj)
      ensures forall i :: |programs| < i < MAX_KEYS - 2 ==> obj.dtv[i] == Empty
      ensures |programs| < MAX_KEYS - 2 ==> obj.dtv[MAX_KEYS - 2] == old(obj.dtv)[MAX_KEYS - 2]
      ensures |programs| < MAX_KEYS - 1 ==> obj.dtv[MAX_KEYS - 1] == Raw(XSAVE_CHK_GUARD)
    {
      obj.ResetSlots();
      InitTLS(obj, id);
    }

    /** What a thread that was set up after execute reads of a static program: the program's image. */
    method InitThenRead(obj: ThreadObject, id: nat, i: nat, k: nat) returns (address: Address)
      requires Registered() && BlockReady() && Dynamic() && i < |programs| && k < programs[i].sizeImage
      requires |obj.dtv| == MAX_KEYS && obj.mem.Length >= 8 + tlsStaticInitBlock.Length && obj.mem != tlsStaticInitBlock
      modifies obj.mem, obj`dtv, this`threadList
      ensures BlockReady() && ThreadReady(obj) && |programs[i].image| == programs[i].sizeImage
      ensures Readable(obj, address) && Read(obj, address) == programs[i].image[k]
    {
      InitThread(obj, id);
      address := GetTlsAddr(obj, i + 1, k);
    }

    /**
      A thread that was just set up gives a dynamic module its own copy on first use if and only
      if the module's key is not the guard's; the slot before the guard's must have been empty.
     */
    method InitThenCopy(obj: ThreadObject, id: nat, index: nat) returns (address: Address)
      requires Registered() && BlockReady() && Dynamic() && index in tlsIndexMap && index < MAX_KEYS
      requires |obj.dtv| == MAX_KEYS && obj.mem.Length >= 8 + tlsStaticInitBlock.Length && obj.mem != tlsStaticInitBlock
      modifies obj.mem, obj`dtv, this`threadList
      ensures address.offset == 0
      ensures address.slot.Block? && fresh(address.slot.bytes) && address.slot.bytes[..] == tlsIndexMap[index].image <==>
        index != MAX_KEYS - 1 && (index == MAX_KEYS - 2 ==> old(obj.dtv)[index] == Empty)
      ensures index == MAX_KEYS - 1 ==> address.slot == Raw(XSAVE_CHK_GUARD)
    {
      InitThread(obj, id);
      address := GetTlsAddr(obj, index, 0);
    }

    method NewThreadCopy(id: nat, index: nat) returns (obj: ThreadObject, address: Address)
      requires Registered() && BlockReady() && Dynamic() && index in tlsIndexMap && index < MAX_KEYS
      modifies this`threadList
      ensures address.slot.Block? && address.slot.bytes[..] == tlsIndexMap[index].image <==> index != MAX_KEYS - 1
    {
      obj := new ThreadObject(8 + tlsStaticInitBlock.Length);
      address := InitThenCopy(obj, id, index);
    }

    /** Every dynamically loaded program is found under its own index, above the static ones. */
    ghost predicate Dynamic()
      reads this`countcreatePrograms, this`tlsIndexMap, tlsIndexMap.Values
    {
      forall k {:trigger tlsIndexMap[k]} :: k in tlsIndexMap ==>
        countcreatePrograms < k && tlsIndexMap[k].index == k && |tlsIndexMap[k].image| == tlsIndexMap[k].sizeImage
    }

    /**
      The part of loadStartModule that concerns thread-local storage: 578-584. The new program is
      found under its key from then on; without a free key its index is that of no slot.
     */
    method RegisterDynamic(prog: Program)
      requires Registered() && Dynamic() && dtvKeys[countcreatePrograms]
      requires prog !in tlsIndexMap.Values && |prog.image| == prog.sizeImage
      modifies this`tlsIndexMap, this`destructors, prog`offset, prog`index, dtvKeys
      ensures Registered() && Dynamic() && Keys() == KeyCreated(old(Keys()), countcreatePrograms)
      ensures tlsIndexMap == old(tlsIndexMap)[prog.index := prog] && prog.offset == 0
      ensures FirstFree(old(Keys()), countcreatePrograms) == if prog.index < MAX_KEYS then Some(prog.index) else None
      ensures prog.index >= 256 ==> prog.index == 0xffff_ffff
      ensures prog.index < MAX_KEYS <==> exists k :: countcreatePrograms < k < MAX_KEYS && !old(dtvKeys[k])
      ensures prog.index < MAX_KEYS ==> countcreatePrograms < prog.index && !old(Keys())[prog.index] && Keys()[prog.index]
    {
      prog.offset := 0;
      FirstFreeIs(Keys(), countcreatePrograms);
      var key := CreateTlsKey(TLS_DYN_DESTRUCT);
      prog.index := match key case Some(k) => k case None => NO_KEY;
      tlsIndexMap := tlsIndexMap[prog.index := prog];
    }

    /** Loads programs one after the other: they get the keys above the static ones in turn, as long as there are any. */
    method LoadAll(progs: seq<Program>)
      requires Registered() && Dynamic() && 1 <= countcreatePrograms
      requires forall k :: 0 <= k < MAX_KEYS ==> dtvKeys[k] == (1 <= k <= countcreatePrograms)
      requires forall i, j :: 0 <= i < j < |progs| ==> progs[i] != progs[j]
      requires forall i :: 0 <= i < |progs| ==> progs[i] !in tlsIndexMap.Values && |progs[i].image| == progs[i].sizeImage
      modifies this`tlsIndexMap, this`destructors, progs`offset, progs`index, dtvKeys
      ensures Registered() && Dynamic()
      ensures forall i :: 0 <= i < |progs| ==> progs[i].index == KeyFor(countcreatePrograms + 1 + i)
      ensures forall i :: 0 <= i < |progs| && progs[i].index < MAX_KEYS ==>
        progs[i].index in tlsIndexMap && tlsIndexMap[progs[i].index] == progs[i]
    {
      for n := 0 to |progs|
        invariant Registered() && Dynamic()
        invariant forall k :: 0 <= k < MAX_KEYS ==> dtvKeys[k] == (1 <= k <= countcreatePrograms + n)
        invariant forall i :: n <= i < |progs| ==> progs[i] !in tlsIndexMap.Values
        invariant forall i :: 0 <= i < n ==> progs[i].index == KeyFor(countcreatePrograms + 1 + i)
        invariant forall i :: 0 <= i < n && progs[i].index < MAX_KEYS ==>
          progs[i].index in tlsIndexMap && tlsIndexMap[progs[i].index] == progs[i]
      {
        LoadNext(progs[n], n);
      }
    }

    /** With `n` programs loaded, the next one gets the next key. */
    method LoadNext(prog: Program, n: nat)
      requires Registered() && Dynamic() && 1 <= countcreatePrograms
      requires forall k :: 0 <= k < MAX_KEYS ==> dtvKeys[k] == (1 <= k <= countcreatePrograms + n)
      requires prog !in tlsIndexMap.Values && |prog.image| == prog.sizeImage
      modifies this`tlsIndexMap, this`destructors, prog`offset, prog`index, dtvKeys
      ensures Registered() && Dynamic() && prog.index == KeyFor(countcreatePrograms + 1 + n)
      ensures tlsIndexMap == old(tlsIndexMap)[prog.index := prog]
      ensures forall k :: 0 <= k < MAX_KEYS ==> dtvKeys[k] == (1 <= k <= countcreatePrograms + n + 1)
    {
      NextFree(Keys(), countcreatePrograms, n);
      RegisterDynamic(prog);
      assert forall k :: 0 <= k < MAX_KEYS ==> dtvKeys[k] == Keys()[k];
    }

    /** Loading programs leaves the static ones ready. */
    method LoadBeside(progs: seq<Program>)
      requires Registered() && Dynamic() && 1 <= countcreatePrograms && BlockReady()
      requires forall k :: 0 <= k < MAX_KEYS ==> dtvKeys[k] == (1 <= k <= countcreatePrograms)
      requires forall i, j :: 0 <= i < j < |progs| ==> progs[i] != progs[j]
      requires forall i :: 0 <= i < |progs| ==> progs[i] !in tlsIndexMap.Values && |progs[i].image| == progs[i].sizeImage
      requires forall i :: 0 <= i < |progs| ==> progs[i] !in programs
      modifies this`tlsIndexMap, this`destructors, progs`offset, progs`index, dtvKeys
      ensures Registered() && Dynamic() && BlockReady()
      ensures forall i :: 0 <= i < |progs| && countcreatePrograms + 1 + i < MAX_KEYS ==>
        progs[i].index == countcreatePrograms + 1 + i && progs[i].index in tlsIndexMap && tlsIndexMap[progs[i].index] == progs[i]
    {
      ghost var statics := programs;
      assert forall i {:trigger statics[i]} :: 0 <= i < |statics| ==> statics[i] !in progs;
      ghost var block: object := tlsStaticInitBlock;
      assert block != dtvKeys;
      LoadAll(progs);
    }

    /** createTLSKey: 681-696 */
    method CreateTlsKey(destructor: nat) returns (key: Option<nat>)
      requires Registered()
      modifies dtvKeys, this`destructors
      ensures |destructors| == MAX_KEYS && (key.Some? ==> key.value < MAX_KEYS)
      ensures destructors == if key.Some? then old(destructors)[key.value := destructor] else old(destructors)
      ensures Keys() == KeyCreated(old(Keys()), countcreatePrograms)
      ensures key == FirstFree(old(Keys()), countcreatePrograms)
    {
      var n := countcreatePrograms;
      while n < dtvKeys.Length
        invariant countcreatePrograms <= n <= MAX_KEYS
        invariant FirstFree(dtvKeys[..], countcreatePrograms) == FirstFree(dtvKeys[..], n)
        invariant dtvKeys[..] == old(dtvKeys[..]) && destructors == old(destructors)
      {
        if !dtvKeys[n] {
          dtvKeys[n] := true;
          destructors := destructors[n := destructor];
          return Some(n);
        }
        n := n + 1;
      }
      return None;
    }

    /** deleteTLSKey: 698-713. The key's slot is cleared in every registered thread, and no other slot is. */
    method DeleteTlsKey(key: nat)
      requires Registered() && key < MAX_KEYS
      requires forall obj :: obj in threadList.Values ==> |obj.dtv| == MAX_KEYS
      modifies dtvKeys, this`destructors, threadList.Values`dtv
      ensures Keys() == old(Keys())[key := false] && destructors == old(destructors)[key := 0]
      ensures forall obj :: obj in threadList.Values ==> obj.dtv == old(obj.dtv)[key := Empty]
    {
      ClearSlots(key);
      dtvKeys[key] := false;
      destructors := destructors[key := 0];
    }

    /** The loop over the registered threads: 704-707 */
    method ClearSlots(key: nat)
      requires key < MAX_KEYS && forall obj :: obj in threadList.Values ==> |obj.dtv| == MAX_KEYS
      modifies threadList.Values`dtv
      ensures forall obj :: obj in threadList.Values ==> obj.dtv == old(obj.dtv)[key := Empty]
    {
      var todo := threadList.Values;
      while todo != {}
        invariant todo <= threadList.Values
        invariant forall obj :: obj in threadList.Values ==>
          obj.dtv == if obj in todo then old(obj.dtv) else old(obj.dtv)[key := Empty]
        decreases |todo|
      {
        var obj :| obj in todo;
        obj.dtv := obj.dtv[key := Empty];
        todo := todo - {obj};
      }
    }

    function Keys(): seq<bool>
      reads dtvKeys
    {
      dtvKeys[..]
    }
  }

  // ---- keys ----

  /** The lowest unused key from `n` on. */
  function FirstFree(used: seq<bool>, n: nat): Option<nat>
    decreases |used| - n
  {
    if n >= |used| then None else if !used[n] then Some(n) else FirstFree(used, n + 1)
  }

  function KeyCreated(used: seq<bool>, n: nat): seq<bool> {
    match FirstFree(used, n)
    case None => used
    case Some(k) => if k < |used| then used[k := true] else used
  }

  /** The index of the program that comes `n`th, if it goes by its number. */
  function KeyFor(n: nat): nat {
    if n < MAX_KEYS then n else NO_KEY
  }

  /** With the keys from 1 to `count + n` taken, the next one is taken next. */
  lemma NextFree(used: seq<bool>, count: nat, n: nat)
    requires |used| == MAX_KEYS && 1 <= count && forall k :: 0 <= k < MAX_KEYS ==> used[k] == (1 <= k <= count + n)
    ensures FirstFree(used, count) == if count + n + 1 < MAX_KEYS then Some(count + n + 1) else None
    ensures |KeyCreated(used, count)| == MAX_KEYS
    ensures forall k :: 0 <= k < MAX_KEYS ==> KeyCreated(used, count)[k] == (1 <= k <= count + n + 1)
  {
    FirstFreeIs(used, count);
    assert count + n + 1 < MAX_KEYS ==> !used[count + n + 1];
  }

  lemma {:induction false} FirstFreeIs(used: seq<bool>, n: nat)
    ensures var r := FirstFree(used, n);
      && (r.Some? ==> n <= r.value < |used| && !used[r.value] && forall i :: n <= i < r.value ==> used[i])
      && (r.None? ==> forall i :: n <= i < |used| ==> used[i])
    decreases |used| - n
  {
    if n < |used| && used[n] {
      FirstFreeIs(used, n + 1);
    }
  }

  datatype KeyAction = Create | Delete(key: nat)

  /** Which keys are marked used, and which were handed out and not deleted since. */
  datatype KeyState = KeyState(used: seq<bool>, live: set<nat>)

  predicate KeyEnabled(s: KeyState, a: KeyAction) {
    a.Delete? ==> a.key in s.live && a.key < |s.used|
  }

  function KeyApply(s: KeyState, a: KeyAction, count: nat): KeyState
    requires KeyEnabled(s, a)
  {
    match a
    case Create =>
      var r := FirstFree(s.used, count);
      KeyState(KeyCreated(s.used, count), if r.Some? then s.live + {r.value} else s.live)
    case Delete(key) => KeyState(s.used[key := false], s.live - {key})
  }

  ghost predicate KeyRuns(s: KeyState, acts: seq<KeyAction>, t: KeyState, count: nat)
    decreases |acts|
  {
    if acts == [] then s == t
    else KeyEnabled(s, acts[0]) && KeyRuns(KeyApply(s, acts[0], count), acts[1..], t, count)
  }

  ghost predicate KeyInv(s: KeyState, count: nat) {
    && count < |s.used| && s.used[count]
    && (forall k :: k in s.live <==> count < k < |s.used| && s.used[k])
  }

  lemma {:induction false} KeyRunInv(s: KeyState, acts: seq<KeyAction>, t: KeyState, count: nat)
    requires KeyInv(s, count) && KeyRuns(s, acts, t, count)
    ensures KeyInv(t, count) && |t.used| == |s.used|
    decreases |acts|
  {
    if acts != [] {
      FirstFreeIs(s.used, count);
      KeyRunInv(KeyApply(s, acts[0], count), acts[1..], t, count);
    }
  }

  /**
    After execute has marked the static slots 1 to `count`, over any run of key creations and
    deletions of created keys: the live keys are exactly the marked ones above `count`, the next
    key handed out is new and above `count`, and creation fails only when all of those are taken.
   */
  lemma DynamicKeysStayAboveStatic(used: seq<bool>, acts: seq<KeyAction>, t: KeyState, count: nat)
    requires |used| == MAX_KEYS && 1 <= count < MAX_KEYS
    requires forall k :: 0 <= k < MAX_KEYS ==> used[k] == (1 <= k <= count)
    requires KeyRuns(KeyState(used, {}), acts, t, count)
    ensures |t.used| == MAX_KEYS
    ensures forall k :: k in t.live <==> count < k < MAX_KEYS && t.used[k]
    ensures var r := FirstFree(t.used, count);
      && (r.Some? ==> count < r.value < MAX_KEYS && r.value !in t.live)
      && (r.None? <==> forall k :: count < k < MAX_KEYS ==> k in t.live)
  {
    KeyRunInv(KeyState(used, {}), acts, t, count);
    FirstFreeIs(t.used, count);
  }

  // ---- from the start ----

  /** A linker that has laid out and set up its static programs, none of whose alignments is too large. */
  method Launch(programs: seq<Program>) returns (linker: RuntimeLinker)
    requires |programs| < MAX_KEYS && Layable(Modules(programs))
    requires forall i, j :: 0 <= i < j < |programs| ==> programs[i] != programs[j]
    requires forall i :: 0 <= i < |programs| ==> |programs[i].image| == programs[i].sizeImage
    requires forall i :: 0 <= i < |programs| && programs[i].alignment != 0 ==> 32 % programs[i].alignment == 0
    modifies programs`offset, programs`index
    ensures fresh(linker) && fresh(linker.dtvKeys) && fresh(linker.tlsStaticInitBlock)
    ensures linker.programs == programs && linker.Registered() && linker.BlockReady() && linker.tlsIndexMap == map[]
    ensures forall k :: 0 <= k < MAX_KEYS ==> linker.dtvKeys[k] == (1 <= k <= |programs|)
  {
    linker := new RuntimeLinker(programs);
    linker.Execute();
  }

  /** From its creation to a read in a new thread: what is read is the program's image. */
  method LaunchThenRead(programs: seq<Program>, id: nat, i: nat, k: nat) returns (obj: ThreadObject, address: Address)
    requires |programs| < MAX_KEYS && Layable(Modules(programs)) && i < |programs| && k < programs[i].sizeImage
    requires forall i, j :: 0 <= i < j < |programs| ==> programs[i] != programs[j]
    requires forall i :: 0 <= i < |programs| ==> |programs[i].image| == programs[i].sizeImage
    requires forall i :: 0 <= i < |programs| && programs[i].alignment != 0 ==> 32 % programs[i].alignment == 0
    modifies programs`offset, programs`index
    ensures |programs[i].image| == programs[i].sizeImage
    ensures Readable(obj, address) && Read(obj, address) == programs[i].image[k]
  {
    var linker := Launch(programs);
    obj := new ThreadObject(8 + linker.tlsStaticInitBlock.Length);
    address := linker.InitThenRead(obj, id, i, k);
  }

  /**
    Programs loaded after the start have their storage in a new thread as long as there are keys,
    all but the one that gets the last key.
   */
  method LaunchThenLoad(programs: seq<Program>, progs: seq<Program>, id: nat, i: nat) returns (obj: ThreadObject, address: Address)
    requires 1 <= |programs| && Layable(Modules(programs)) && i < |progs| && |programs| + 1 + i < 256
    requires forall i, j :: 0 <= i < j < |programs| ==> programs[i] != programs[j]
    requires forall i :: 0 <= i < |programs| ==> |programs[i].image| == programs[i].sizeImage
    requires forall i :: 0 <= i < |programs| && programs[i].alignment != 0 ==> 32 % programs[i].alignment == 0
    requires forall i, j :: 0 <= i < j < |progs| ==> progs[i] != progs[j]
    requires forall i :: 0 <= i < |progs| ==> progs[i] !in programs && |progs[i].image| == progs[i].sizeImage
    modifies programs`offset, programs`index, progs`offset, progs`index
    ensures address.slot.Block? && address.slot.bytes[..] == progs[i].image <==> |programs| + 1 + i != 255
  {
    var linker := Launch(programs);
    linker.LoadBeside(progs);
    obj, address := linker.NewThreadCopy(id, progs[i].index);
  }

  /** memcpy into an array */
  method CopyInto(dst: array<Byte>, at: nat, src: seq<Byte>)
    requires at + |src| <= dst.Length
    modifies dst
    ensures forall k :: 0 <= k < |src| ==> dst[at + k] == src[k]
    ensures forall i :: 0 <= i < dst.Length && !(at <= i < at + |src|) ==> dst[i] == old(dst[i])
    ensures dst[at..at + |src|] == src
  {
    for n := 0 to |src|
      invariant forall k :: 0 <= k < n ==> dst[at + k] == src[k]
      invariant forall i :: 0 <= i < dst.Length && !(at <= i < at + n) ==> dst[i] == old(dst[i])
    {
      dst[at + n] := src[n];
    }
  }
}
