/** The elementary stream object: a ring allocator in guest memory filled by the demuxer thread
    and drained by the application. Each method is one critical section of the source, or touches only
    what belongs to the demuxer thread. */
module ElementaryStreams {
  import opened MachineInts
  import opened RingLayout
  import opened AccessUnitQueue

  /** Outcome of a peek. `Blocked` waits for the entry of a unit that is already counted. */
  datatype PeekResult = Blocked | Nothing | Found(data: nat, spec: nat)

  class ElementaryStream {
    const memory: array<Cell>
    const memAddr: u32
    const memSize: u32
    const capacity: nat        // of the entry queue
    const exInfoSize: nat      // size of the extended header, below the short header at +64

    var entries: seq<nat>
    var putCount: nat
    var gotCount: nat
    var released: nat
    var put: u32
    var rawData: seq<u8>
    var lastDts: u64
    var lastPts: u64

    ghost var model: Queue

    /** The fields and the memory are those of the model, and the model is sound. */
    ghost predicate Valid()
      reads this, memory
    {
      && 0 < memAddr && memAddr + 2 * memSize + 256 <= 0x1_0000_0000
      && Coupled()
      && Inv(model)
    }

    ghost predicate Coupled()
      reads this, memory
    {
      && model.ring.base == memAddr && model.ring.limit == memAddr + memSize && model.ring.put == put
      && model.exInfoSize == exInfoSize && model.capacity == capacity
      && model.entries == entries && model.rawData == rawData
      && model.lastDts == lastDts && model.lastPts == lastPts
      && model.putCount == putCount && model.gotCount == gotCount && model.released == released
      && model.cells == memory[..]
    }

    constructor (memory: array<Cell>, addr: u32, size: u32, capacity: nat, exInfoSize: nat)
      requires 0 < addr && 0 < capacity && 0 < exInfoSize < 64
      requires RegionBase(addr) + 2 * RegionSize(addr, size) + 256 <= 0x1_0000_0000
      requires RegionBase(addr) + RegionSize(addr, size) <= memory.Length
      ensures Valid() && fresh(this)
      ensures model == Queue(Ring(RegionBase(addr), RegionBase(addr) + RegionSize(addr, size), RegionBase(addr), [], 0),
                             memory[..], exInfoSize, capacity, [], [], [], 0, 0, 0, [], [], [], TS_INVALID, TS_INVALID)
    {
      this.memory, this.capacity, this.exInfoSize := memory, capacity, exInfoSize;
      put := AlignUp128(addr);
      memAddr := AlignUp128(addr);
      memSize := Wrap32(size - Wrap32(addr - AlignUp128(addr)));
      entries, putCount, gotCount, released, rawData := [], 0, 0, 0, [];
      lastDts, lastPts := TS_INVALID, TS_INVALID;
      model := Queue(Ring(RegionBase(addr), RegionBase(addr) + RegionSize(addr, size), RegionBase(addr), [], 0),
                     memory[..], exInfoSize, capacity, [], [], [], 0, 0, 0, [], [], [], TS_INVALID, TS_INVALID);
    }

    method IsFull(space: u32) returns (full: bool)
      requires Valid() && model.pending == [] && space + 128 <= memSize
      ensures full == Full(model, space)
      ensures full <==>
        && model.units != []
        && (|model.units| == capacity
            || exists i :: && 0 <= i < |model.ring.blocks|
                           && !Disjoint(Block(PlaceFor(model.ring, space), space), model.ring.blocks[i]))
    {
      hide Inv, Disjoint, PlaceFor;
      FullExactly(model, space);
      if released < putCount {
        OldestEntry(model);
        if |entries| == capacity {
          return true;
        }
        var first := entries[0];
        if first >= put {
          return first - put < space + 128;
        } else if Wrap32(put + space + 128) > Wrap32(memAddr + memSize) {
          return first - memAddr < space + 128;
        } else {
          return false;
        }
      } else {
        return false;
      }
    }

    method WriteUnit(at: u32, u: AccessUnit)
      requires 0 < exInfoSize < 64 && at + 128 + |u.bytes| <= memory.Length
      requires at + 128 + |u.bytes| < 0x1_0000_0000
      modifies memory
      ensures memory[..] == Written(old(memory[..]), at, u, exInfoSize)
    {
      forall k | 0 <= k < |u.bytes| {
        memory[at + 128 + k] := Byte(u.bytes[k]);
      }
      var info := AuInfo(at + 128, |u.bytes|, SplitTimeStamp(u.dts), SplitTimeStamp(u.pts), u.userData);
      memory[at] := InfoEx(info, u.rap);
      memory[at + exInfoSize] := Spec(u.specific);
      memory[at + 64] := Info(info);
    }

    /** Back to the start of the ring when the unit would pass its end. */
    method WrapForUnit(size: u32)
      requires put + size + 128 < 0x1_0000_0000 && memAddr + memSize < 0x1_0000_0000
      modifies this`put
      ensures put == if old(put) + size + 128 > memAddr + memSize then memAddr else old(put)
    {
      if Wrap32(put + size + 128) > Wrap32(memAddr + memSize) {
        put := memAddr;
      }
    }

    /** Chooses the place of the next unit, moves it there from the raw data and advances. */
    method StoreUnit(size: u32, t: Tags) returns (addr: u32)
      requires size <= |rawData| && 0 < exInfoSize < 64
      requires put + size + 256 < 0x1_0000_0000 && memAddr + memSize + 128 < 0x1_0000_0000
      requires memAddr + size + 128 <= memAddr + memSize <= memory.Length
      modifies this`put, this`rawData, this`putCount, memory
      ensures addr == if old(put) + size + 128 > memAddr + memSize then memAddr else old(put)
      ensures put == AlignUp128(addr + 128 + size)
      ensures putCount == old(putCount) + 1 && rawData == old(rawData)[size..]
      ensures addr + 128 + size <= memory.Length
      ensures memory[..] == Written(old(memory[..]), addr,
                AccessUnit(old(rawData)[..size], t.dts, t.pts, t.userData, t.rap, t.specific), exInfoSize)
    {
      WrapForUnit(size);
      addr := put;
      WriteUnit(addr, AccessUnit(rawData[..size], t.dts, t.pts, t.userData, t.rap, t.specific));
      rawData := rawData[size..];
      put := AlignUp128(put + 128 + size);
      putCount := putCount + 1;
    }

    /** The part of `push_au` done under the lock. The entry of the new unit is still to be
        queued, so other threads may run before `EnqueueEntry`. */
    method PushAuLocked(size: u32, t: Tags) returns (addr: u32)
      requires Valid() && size + 128 <= memSize && Enabled(model, PushLocked(size, t))
      modifies this, memory
      ensures Valid() && model == Pushed(old(model), size, t) && model.pending == [addr]
    {
      hide Inv, Pushed, Written;
      ghost var q := model;
      RegionBounds(q);
      addr := StoreUnit(size, t);
      PushKeepsInv(q, size, t);
      PushedFields(q, size, t, addr);
      model := Pushed(q, size, t);
    }

    method EnqueueEntry(addr: u32)
      requires Valid() && model.pending == [addr]
      modifies this
      ensures Valid() && model == Apply(old(model), Enqueue)
    {
      hide Inv;
      StepKeepsInv(model, Enqueue);
      model := Apply(model, Enqueue);
      entries := entries + [addr];
    }

    /** One unit leaves the raw data and joins the FIFO. */
    method PushAu(size: u32, t: Tags)
      requires Valid() && size + 128 <= memSize && Enabled(model, PushLocked(size, t))
      modifies this, memory
      ensures Valid() && model.pending == []
      ensures model.units == old(model.units) + [UnitFrom(old(model), size, t)]
      ensures rawData == old(rawData)[size..] && model.fed == old(model.fed)
      ensures putCount == old(putCount) + 1 && gotCount == old(gotCount) && released == old(released)
      ensures lastDts == old(lastDts) && lastPts == old(lastPts)
    {
      PushedWhole(model, size, t);
      hide Inv, Pushed, Apply, Full, UnitFrom;
      var addr := PushAuLocked(size, t);
      EnqueueEntry(addr);
    }

    /** Gives back the oldest unit if it has been seen, and otherwise changes nothing. */
    method Release() returns (ok: bool)
      requires Valid()
      modifies this
      ensures Valid() && (ok <==> old(released) < old(gotCount))
      ensures model == if ok then Apply(old(model), Op.Release) else old(model)
    {
      hide Inv;
      RegionBounds(model);
      if released >= putCount {
        return false;
      }
      if released >= gotCount {
        return false;
      }
      StepKeepsInv(model, Op.Release);
      model := Apply(model, Op.Release);
      entries := entries[1..];
      released := released + 1;
      return true;
    }

    /** Looks at the oldest unit not yet obtained: the addresses returned are those of its headers,
        and decoding them gives the unit at that place of the FIFO. */
    method Peek(noEx: bool, updateIndex: bool) returns (r: PeekResult)
      requires Valid()
      modifies this
      ensures Valid()
      ensures r.Nothing? <==> old(gotCount) == putCount
      ensures r.Blocked? <==> model.pending != [] && old(gotCount) + 1 == putCount
      ensures r.Found? <==> Enabled(old(model), Obtain)
      ensures model == if r.Found? && updateIndex then Apply(old(model), Obtain) else old(model)
      ensures r.Found? ==>
                var b := OldestUnseen(old(model)).0;
                && r.data == b.at + (if noEx then 64 else 0)
                && r.spec == b.at + exInfoSize
                && memory[..] == old(memory[..])
                && HeadersLead(memory[..], r.data - (if noEx then 64 else 0), r.spec, OldestUnseen(old(model)).1)
    {
      hide Inv;
      RegionBounds(model);
      if gotCount < released {
        assert false;
      }
      if gotCount >= putCount {
        return Nothing;
      }
      if gotCount - released >= |entries| {
        return Blocked;
      }
      var addr := entries[gotCount - released];
      StoredReadsBack(memory[..], OldestUnseen(model).0, OldestUnseen(model).1, exInfoSize);
      hide HeadersLead, Stored;
      r := Found(if noEx then addr + 64 else addr, addr + exInfoSize);
      if updateIndex {
        StepKeepsInv(model, Obtain);
        model := Apply(model, Obtain);
        gotCount := gotCount + 1;
      }
    }

    method Reset()
      requires Valid() && model.pending == []
      modifies this
      ensures Valid() && model == Apply(old(model), Clear)
    {
      hide Inv;
      StepKeepsInv(model, Clear);
      model := Apply(model, Clear);
      put := memAddr;
      entries := [];
      putCount, gotCount, released := 0, 0, 0;
      rawData := [];
    }

    /** Keeps the stamps of a packet for the units to come. */
    method KeepStamps(dts: u64, pts: u64)
      requires Valid() && model.pending == []
      modifies this
      ensures Valid() && model == Apply(old(model), Stamp(dts, pts))
    {
      hide Inv;
      StepKeepsInv(model, Stamp(dts, pts));
      model := Apply(model, Stamp(dts, pts));
      lastDts, lastPts := dts, pts;
    }

    /** Appends demultiplexed bytes. */
    method PushRaw(data: seq<u8>)
      requires Valid() && model.pending == []
      modifies this
      ensures Valid() && model == Apply(old(model), Append(data))
    {
      hide Inv;
      StepKeepsInv(model, Append(data));
      model := Apply(model, Append(data));
      rawData := rawData + data;
    }
  }
}
