/** The access-unit queue of an elementary stream as a value: its operations, the invariant
    they keep, and the FIFO of access units that every run of them implements. */
module AccessUnitQueue {
  import opened MachineInts
  import opened RingLayout

  datatype AuInfo = AuInfo(auAddr: nat, auSize: nat, dts: TimeStamp, pts: TimeStamp, userData: u64)

  /** A cell of guest memory. A structure occupies the cell at its own address. */
  datatype Cell =
    | Byte(b: u8)
    | InfoEx(info: AuInfo, isRap: bool)
    | Spec(specific: u32)
    | Info(info: AuInfo)

  /** What the application is meant to receive. */
  datatype AccessUnit = AccessUnit(bytes: seq<u8>, dts: u64, pts: u64, userData: u64, rap: bool, specific: u32)

  function InfoOf(at: nat, u: AccessUnit): AuInfo {
    AuInfo(at + 128, |u.bytes|, SplitTimeStamp(u.dts), SplitTimeStamp(u.pts), u.userData)
  }

  /** Memory after `u` has been written at `at`: extended header, its spec word behind it, short
      header at +64, bytes at +128. */
  function Written(cells: seq<Cell>, at: nat, u: AccessUnit, exInfoSize: nat): (r: seq<Cell>)
    requires 0 < exInfoSize < 64 && at + 128 + |u.bytes| <= |cells|
    ensures |r| == |cells|
  {
    var payload := seq(|u.bytes|, k requires 0 <= k < |u.bytes| => Byte(u.bytes[k]));
    var copied := cells[..at + 128] + payload + cells[at + 128 + |u.bytes|..];
    copied[at := InfoEx(InfoOf(at, u), u.rap)][at + exInfoSize := Spec(u.specific)][at + 64 := Info(InfoOf(at, u))]
  }

  function ByteOf(c: Cell): u8 {
    if c.Byte? then c.b else 0
  }

  function BytesAt(cells: seq<Cell>, at: nat, n: nat): (r: seq<u8>)
    requires at + n <= |cells|
    ensures |r| == n && forall k :: 0 <= k < n ==> r[k] == ByteOf(cells[at + k])
  {
    if n == 0 then [] else BytesAt(cells, at, n - 1) + [ByteOf(cells[at + n - 1])]
  }

  /** Reads back the unit whose extended header stands at `at` and whose spec word at `spec`, from where
      that header says. */
  function ReadUnit(cells: seq<Cell>, at: nat, spec: nat): (u: AccessUnit)
    requires at < |cells| && cells[at].InfoEx? && spec < |cells| && cells[spec].Spec?
    requires cells[at].info.auAddr + cells[at].info.auSize <= |cells|
  {
    var info := cells[at].info;
    AccessUnit(BytesAt(cells, info.auAddr, info.auSize),
               JoinTimeStamp(info.dts), JoinTimeStamp(info.pts), info.userData,
               cells[at].isRap, cells[spec].specific)
  }

  /** The same from the short header, which does not say where random access is possible. */
  function ReadShort(cells: seq<Cell>, at: nat, spec: nat, rap: bool): (u: AccessUnit)
    requires at < |cells| && cells[at].Info? && spec < |cells| && cells[spec].Spec?
    requires cells[at].info.auAddr + cells[at].info.auSize <= |cells|
  {
    var info := cells[at].info;
    AccessUnit(BytesAt(cells, info.auAddr, info.auSize),
               JoinTimeStamp(info.dts), JoinTimeStamp(info.pts), info.userData, rap, cells[spec].specific)
  }

  /** `u` is stored, headers and bytes, in block `b` of `cells`. */
  ghost predicate Stored(cells: seq<Cell>, b: Block, u: AccessUnit, exInfoSize: nat) {
    && b.End() <= |cells| && 0 < exInfoSize < 64
    && b.size == |u.bytes|
    && cells[b.at] == InfoEx(InfoOf(b.at, u), u.rap)
    && cells[b.at + exInfoSize] == Spec(u.specific)
    && cells[b.at + 64] == Info(InfoOf(b.at, u))
    && forall k :: 0 <= k < b.size ==> cells[b.at + 128 + k] == Byte(u.bytes[k])
  }

  lemma WrittenIsStored(cells: seq<Cell>, at: nat, u: AccessUnit, exInfoSize: nat)
    requires 0 < exInfoSize < 64 && at + 128 + |u.bytes| <= |cells|
    ensures Stored(Written(cells, at, u, exInfoSize), Block(at, |u.bytes|), u, exInfoSize)
  {
  }

  /** The headers lead to the unit. */
  ghost predicate HeadersLead(cells: seq<Cell>, at: nat, spec: nat, u: AccessUnit) {
    && at + 64 < |cells| && spec < |cells| && cells[at].InfoEx? && cells[at + 64].Info? && cells[spec].Spec?
    && cells[at].info.auAddr + cells[at].info.auSize <= |cells|
    && cells[at + 64].info.auAddr + cells[at + 64].info.auSize <= |cells|
    && ReadUnit(cells, at, spec) == u && ReadShort(cells, at + 64, spec, u.rap) == u
  }

  /** Whoever follows either header of a stored unit, to the stamps and to the bytes at the address in
      it, gets exactly what was pushed. */
  lemma StoredReadsBack(cells: seq<Cell>, b: Block, u: AccessUnit, exInfoSize: nat)
    requires Stored(cells, b, u, exInfoSize)
    ensures HeadersLead(cells, b.at, b.at + exInfoSize, u)
  {
    assert BytesAt(cells, b.at + 128, b.size) == u.bytes;
    SplitJoins(u.dts);
    SplitJoins(u.pts);
  }

  lemma SplitJoins(t: u64)
    ensures JoinTimeStamp(SplitTimeStamp(t)) == t
    ensures SplitTimeStamp(t).upper == t / 0x1_0000_0000 && SplitTimeStamp(t).lower == t % 0x1_0000_0000
  {
  }

  lemma WrittenLeavesOthers(cells: seq<Cell>, at: nat, u: AccessUnit, exInfoSize: nat, b: Block, v: AccessUnit)
    requires 0 < exInfoSize < 64 && at + 128 + |u.bytes| <= |cells|
    requires Stored(cells, b, v, exInfoSize) && Disjoint(b, Block(at, |u.bytes|))
    ensures Stored(Written(cells, at, u, exInfoSize), b, v, exInfoSize)
  {
    var after := Written(cells, at, u, exInfoSize);
    assert forall k :: b.at <= k < b.End() ==> after[k] == cells[k];
  }

  /** `units` is the FIFO: pushed and not yet released, oldest first. `pending` holds a unit
      already counted whose entry is not queued yet. `fed` and `cut` record all bytes appended,
      and all bytes that left in access units, since the last reset. `lastDts` and `lastPts` are the
      stamps of the latest packet that had some. */
  datatype Queue = Queue(
    ring: Ring, cells: seq<Cell>, exInfoSize: nat, capacity: nat,
    entries: seq<nat>, pending: seq<nat>, units: seq<AccessUnit>,
    putCount: nat, gotCount: nat, released: nat,
    rawData: seq<u8>, fed: seq<u8>, cut: seq<u8>, lastDts: u64, lastPts: u64)

  function Starts(blocks: seq<Block>): (r: seq<nat>)
    ensures |r| == |blocks| && forall i :: 0 <= i < |r| ==> r[i] == blocks[i].at
  {
    if blocks == [] then [] else [blocks[0].at] + Starts(blocks[1..])
  }

  ghost predicate AllStored(q: Queue) {
    && |q.units| == |q.ring.blocks|
    && forall i :: 0 <= i < |q.units| ==> Stored(q.cells, q.ring.blocks[i], q.units[i], q.exInfoSize)
  }

  ghost predicate InRegion(q: Queue) {
    && 0 < q.exInfoSize < 64 && 0 < q.capacity
    && q.ring.limit <= |q.cells|
    && RingLayout.Valid(q.ring)
  }

  /** The counters agree with the entries, and the entries with the blocks. */
  ghost predicate Counted(q: Queue) {
    && Starts(q.ring.blocks) == q.entries + q.pending && |q.pending| <= 1 && |q.units| <= q.capacity
    && |q.units| == |q.ring.blocks|
    && q.released + |q.units| == q.putCount
    && q.released <= q.gotCount <= q.released + |q.entries|
  }

  ghost predicate Inv(q: Queue) {
    InRegion(q) && AllStored(q) && Counted(q) && q.cut + q.rawData == q.fed
  }

  /** No room for a unit of `space` bytes. */
  ghost predicate Full(q: Queue, space: nat) {
    q.released < q.putCount && (|q.entries| == q.capacity || !Fits(q.ring, space))
  }

  /** With no entry on its way the queue is full exactly when there are units, and no entry is left or the
      place of the new unit touches one of them. */
  lemma FullExactly(q: Queue, space: nat)
    requires Inv(q) && q.pending == [] && q.ring.base + space + 128 <= q.ring.limit
    ensures Full(q, space) <==>
      && q.units != []
      && (|q.units| == q.capacity
          || exists i :: 0 <= i < |q.ring.blocks| && !Disjoint(Block(PlaceFor(q.ring, space), space), q.ring.blocks[i]))
  {
    FitsExactly(q.ring, space);
    assert |Starts(q.ring.blocks)| == |q.entries + q.pending|;
    hide Fits, PlaceFor, Disjoint, AllStored, RingLayout.Valid;
  }

  datatype Tags = Tags(dts: u64, pts: u64, userData: u64, rap: bool, specific: u32)

  function UnitFrom(q: Queue, size: nat, t: Tags): AccessUnit
    requires size <= |q.rawData|
  {
    AccessUnit(q.rawData[..size], t.dts, t.pts, t.userData, t.rap, t.specific)
  }

  datatype Op =
    | Append(data: seq<u8>)
    | Stamp(dts: u64, pts: u64)
    | PushLocked(size: nat, tags: Tags)   // the part of push_au under the lock
    | Enqueue                             // the entry push that follows the unlock
    | Release
    | Obtain                              // a peek that moves the index
    | Clear

  /** When each operation may happen: the demuxer thread appends, pushes and resets only with no
      entry on its way and pushes only what the fullness check admitted; the other threads may
      release and obtain at any time, and then the code's own tests decide. */
  ghost predicate Enabled(q: Queue, op: Op) {
    match op
    case Append(_) => q.pending == []
    case Stamp(_, _) => q.pending == []
    case PushLocked(size, _) =>
      q.pending == [] && size <= |q.rawData| && q.ring.base + size + 128 <= q.ring.limit && !Full(q, size)
    case Enqueue => q.pending != []
    case Release => q.released < q.gotCount
    case Obtain => q.gotCount < q.released + |q.entries|
    case Clear => q.pending == []
  }

  ghost function Apply(q: Queue, op: Op): Queue
    requires Inv(q) && Enabled(q, op)
  {
    match op
    case Append(data) => q.(rawData := q.rawData + data, fed := q.fed + data)
    case Stamp(dts, pts) => q.(lastDts := dts, lastPts := pts)
    case PushLocked(size, t) => Pushed(q, size, t)
    case Enqueue => q.(entries := q.entries + q.pending, pending := [])
    case Release => Released(q)
    case Obtain => q.(gotCount := q.gotCount + 1)
    case Clear => q.(ring := Ring(q.ring.base, q.ring.limit, q.ring.base, [], 0), entries := [], units := [],
                     putCount := 0, gotCount := 0, released := 0, rawData := [], fed := [], cut := [])
  }

  ghost function Pushed(q: Queue, size: nat, t: Tags): Queue
    requires Inv(q) && Enabled(q, PushLocked(size, t))
  {
    NotFullFits(q, size);
    PlaceInside(q.ring, size);
    var unit := UnitFrom(q, size, t);
    q.(ring := Push(q.ring, size), cells := Written(q.cells, PlaceFor(q.ring, size), unit, q.exInfoSize),
       pending := [PlaceFor(q.ring, size)], units := q.units + [unit], putCount := q.putCount + 1,
       rawData := q.rawData[size..], cut := q.cut + unit.bytes)
  }

  ghost function Released(q: Queue): Queue
    requires Inv(q) && q.entries != []
  {
    q.(ring := RingLayout.Release(q.ring), entries := q.entries[1..], units := q.units[1..], released := q.released + 1)
  }

  lemma NotFullFits(q: Queue, size: nat)
    requires Inv(q) && !Full(q, size)
    ensures Fits(q.ring, size) && (q.pending == [] ==> |q.units| < q.capacity)
  {
    assert |Starts(q.ring.blocks)| == |q.units|;
  }

  lemma PlaceInside(r: Ring, size: nat)
    requires RingLayout.Valid(r) && r.base + size + 128 <= r.limit
    ensures r.base <= PlaceFor(r, size) && Block(PlaceFor(r, size), size).End() <= r.limit
    ensures Block(r.put, size).End() <= r.limit ==> PlaceFor(r, size) == r.put
  {
  }

  lemma PushKeepsStored(q: Queue, size: nat, t: Tags)
    requires Inv(q) && Enabled(q, PushLocked(size, t))
    ensures AllStored(Pushed(q, size, t))
  {
    var p := Pushed(q, size, t);
    var unit, at := UnitFrom(q, size, t), PlaceFor(q.ring, size);
    NotFullFits(q, size);
    PushKeepsLayout(q.ring, size);
    BlocksDisjoint(p.ring);
    WrittenIsStored(q.cells, at, unit, q.exInfoSize);
    forall i | 0 <= i < |q.units| ensures Stored(p.cells, p.ring.blocks[i], p.units[i], p.exInfoSize) {
      assert Disjoint(p.ring.blocks[i], p.ring.blocks[|q.units|]);
      WrittenLeavesOthers(q.cells, at, unit, q.exInfoSize, q.ring.blocks[i], q.units[i]);
    }
  }

  lemma StartsOfPush(blocks: seq<Block>, b: Block)
    ensures Starts(blocks + [b]) == Starts(blocks) + [b.at]
  {
  }

  lemma StartsOfRest(blocks: seq<Block>)
    requires blocks != []
    ensures Starts(blocks[1..]) == Starts(blocks)[1..]
  {
  }

  lemma PushKeepsCounted(q: Queue, size: nat, t: Tags)
    requires Inv(q) && Enabled(q, PushLocked(size, t))
    ensures Counted(Pushed(q, size, t))
  {
    NotFullFits(q, size);
    StartsOfPush(q.ring.blocks, Block(PlaceFor(q.ring, size), size));
  }

  lemma PushKeepsRegion(q: Queue, size: nat, t: Tags)
    requires Inv(q) && Enabled(q, PushLocked(size, t))
    ensures InRegion(Pushed(q, size, t))
  {
    hide AllStored, Counted, Full, Written, RingLayout.Valid;
    var p := Pushed(q, size, t);
    assert p.ring == Push(q.ring, size) && |p.cells| == |q.cells|;
    NotFullFits(q, size);
    PushKeepsLayout(q.ring, size);
  }

  lemma PushKeepsInv(q: Queue, size: nat, t: Tags)
    requires Inv(q) && Enabled(q, PushLocked(size, t))
    ensures Inv(Pushed(q, size, t))
  {
    PushKeepsRegion(q, size, t);
    PushKeepsStored(q, size, t);
    PushKeepsCounted(q, size, t);
    assert q.cut + q.rawData[..size] + q.rawData[size..] == q.cut + q.rawData;
  }

  lemma RegionBounds(q: Queue)
    requires Inv(q)
    ensures 0 < q.exInfoSize < 64 && q.ring.limit <= |q.cells| && q.ring.put < q.ring.limit + 128
    ensures q.released <= q.gotCount <= q.released + |q.entries|
    ensures |q.pending| <= 1 && q.released + |q.entries| + |q.pending| == q.putCount == q.released + |q.units|
  {
  }

  lemma PushedFields(q: Queue, size: nat, t: Tags, at: nat)
    requires Inv(q) && Enabled(q, PushLocked(size, t)) && at == PlaceFor(q.ring, size)
    ensures var p := Pushed(q, size, t);
            && p.ring.put == AlignUp128(at + 128 + size)
            && p.ring.base == q.ring.base && p.ring.limit == q.ring.limit
            && at + 128 + size <= |q.cells|
            && p.cells == Written(q.cells, at, UnitFrom(q, size, t), q.exInfoSize)
            && p.rawData == q.rawData[size..] && p.pending == [at] && p.entries == q.entries
            && p.putCount == q.putCount + 1 && p.gotCount == q.gotCount && p.released == q.released
            && p.exInfoSize == q.exInfoSize && p.capacity == q.capacity
            && p.lastDts == q.lastDts && p.lastPts == q.lastPts
  {
    PlaceInside(q.ring, size);
  }

  lemma ReleaseKeepsCounted(q: Queue)
    requires Inv(q) && q.released < q.gotCount
    ensures Counted(Released(q))
  {
    hide AllStored, InRegion, Starts;
    StartsOfRest(q.ring.blocks);
    assert Released(q).ring.blocks == q.ring.blocks[1..];
    assert (q.entries + q.pending)[1..] == q.entries[1..] + q.pending;
  }

  lemma ReleaseKeepsStored(q: Queue)
    requires Inv(q) && q.released < q.gotCount
    ensures AllStored(Released(q))
  {
  }

  lemma ReleaseKeepsInv(q: Queue)
    requires Inv(q) && q.released < q.gotCount
    ensures Inv(Released(q))
  {
    ReleaseKeepsLayout(q.ring);
    ReleaseKeepsCounted(q);
    ReleaseKeepsStored(q);
  }

  lemma StepKeepsInv(q: Queue, op: Op)
    requires Inv(q) && Enabled(q, op)
    ensures Inv(Apply(q, op))
  {
    hide Stored, Full, Pushed, Released;
    match op
    case Append(data) => assert q.cut + (q.rawData + data) == q.fed + data;
    case PushLocked(size, t) => PushKeepsInv(q, size, t);
    case Release => ReleaseKeepsInv(q);
    case _ =>
  }

  /** Both parts of `push_au` together. */
  lemma PushedWhole(q: Queue, size: nat, t: Tags)
    requires Inv(q) && Enabled(q, PushLocked(size, t))
    ensures Inv(Pushed(q, size, t)) && Enabled(Pushed(q, size, t), Enqueue)
    ensures var r := Apply(Pushed(q, size, t), Enqueue);
            && r.pending == [] && r.units == q.units + [UnitFrom(q, size, t)]
            && r.rawData == q.rawData[size..] && r.fed == q.fed
            && r.putCount == q.putCount + 1 && r.gotCount == q.gotCount && r.released == q.released
            && r.lastDts == q.lastDts && r.lastPts == q.lastPts
  {
    PushKeepsInv(q, size, t);
    hide Inv, Full;
  }

  /** A fullness check that answered "no" stays good while other threads release and obtain. */
  lemma OthersKeepRoom(q: Queue, op: Op, space: nat)
    requires Inv(q) && Enabled(q, op) && (op.Release? || op.Obtain?) && !Full(q, space)
    ensures !Full(Apply(q, op), space)
  {
    NotFullFits(q, space);
    if op.Release? {
      ReleaseKeepsFit(q.ring, space);
    }
  }

  lemma OldestEntry(q: Queue)
    requires Inv(q) && q.pending == [] && q.released < q.putCount
    ensures q.entries != [] && q.ring.blocks != [] && q.entries[0] == q.ring.blocks[0].at
    ensures q.ring.base <= q.entries[0] <= q.ring.limit && q.ring.put < q.ring.limit + 128
  {
    assert Starts(q.ring.blocks)[0] == q.ring.blocks[0].at;
  }

  /** The oldest unit not yet obtained, with the block that stores it. */
  ghost function OldestUnseen(q: Queue): (r: (Block, AccessUnit))
    requires Inv(q) && Enabled(q, Obtain)
    ensures q.released <= q.gotCount < q.released + |q.units| && r.1 == q.units[q.gotCount - q.released]
    ensures Stored(q.cells, r.0, r.1, q.exInfoSize)
    ensures q.entries[q.gotCount - q.released] == r.0.at
  {
    var i := q.gotCount - q.released;
    assert q.entries[i] == (q.entries + q.pending)[i] == Starts(q.ring.blocks)[i];
    (q.ring.blocks[i], q.units[i])
  }

  /** Runs of operations. */
  ghost predicate CanRun(q: Queue, ops: seq<Op>)
    requires Inv(q)
    decreases |ops|
  {
    ops == [] || (Enabled(q, ops[0]) && (StepKeepsInv(q, ops[0]); CanRun(Apply(q, ops[0]), ops[1..])))
  }

  ghost function Run(q: Queue, ops: seq<Op>): (r: Queue)
    requires Inv(q) && CanRun(q, ops)
    ensures Inv(r)
    decreases |ops|
  {
    if ops == [] then q else StepKeepsInv(q, ops[0]); Run(Apply(q, ops[0]), ops[1..])
  }

  /** Over any interleaved run of releases and obtains the `ensure` in `push_au` cannot fire. */
  lemma {:induction false} RoomIsStable(q: Queue, ops: seq<Op>, space: nat)
    requires Inv(q) && CanRun(q, ops) && !Full(q, space)
    requires forall i :: 0 <= i < |ops| ==> ops[i].Release? || ops[i].Obtain?
    ensures !Full(Run(q, ops), space)
    decreases |ops|
  {
    if ops != [] {
      StepKeepsInv(q, ops[0]);
      OthersKeepRoom(q, ops[0], space);
      RoomIsStable(Apply(q, ops[0]), ops[1..], space);
    }
  }

  /** The units pushed since the last reset, in order: those of `h` and those of the run. */
  ghost function History(q: Queue, ops: seq<Op>, h: seq<AccessUnit>): seq<AccessUnit>
    requires Inv(q) && CanRun(q, ops)
    decreases |ops|
  {
    if ops == [] then h
    else
      StepKeepsInv(q, ops[0]);
      History(Apply(q, ops[0]), ops[1..], StepHistory(q, ops[0], h))
  }

  ghost function StepHistory(q: Queue, op: Op, h: seq<AccessUnit>): seq<AccessUnit>
    requires Inv(q) && Enabled(q, op)
  {
    match op
    case PushLocked(size, t) => h + [UnitFrom(q, size, t)]
    case Clear => []
    case _ => h
  }

  /** Of the units `h` pushed since the last reset the oldest are released, the others are held, and
      the counters number them. */
  ghost predicate Tracks(q: Queue, h: seq<AccessUnit>) {
    |h| == q.putCount && q.released <= |h| && q.units == h[q.released..]
  }

  /** FIFO refinement over every run of pushes, obtains, releases and resets: what is held afterwards
      is everything pushed since the last reset, in order, less the oldest units released. */
  lemma {:induction false} RunIsFifo(q: Queue, ops: seq<Op>, h: seq<AccessUnit>)
    requires Inv(q) && CanRun(q, ops) && Tracks(q, h)
    ensures Tracks(Run(q, ops), History(q, ops, h))
    decreases |ops|
  {
    hide Inv, Tracks;
    if ops != [] {
      StepKeepsInv(q, ops[0]);
      StepIsFifo(q, ops[0], h);
      RunIsFifo(Apply(q, ops[0]), ops[1..], StepHistory(q, ops[0], h));
    }
  }

  lemma StepIsFifo(q: Queue, op: Op, h: seq<AccessUnit>)
    requires Inv(q) && Enabled(q, op) && Tracks(q, h)
    ensures Tracks(Apply(q, op), StepHistory(q, op, h))
  {
    hide Inv;
    RegionBounds(q);
  }

  /** At every point of every run the counters are ordered, and the queued entries are the units
      held less the one whose entry is on its way. */
  lemma RunKeepsCounters(q: Queue, ops: seq<Op>)
    requires Inv(q) && CanRun(q, ops)
    ensures var r := Run(q, ops);
            r.released <= r.gotCount <= r.putCount && |r.entries| == r.putCount - r.released - |r.pending|
  {
  }

  /** How many units were pushed, obtained and released since the last reset. */
  datatype Counts = Counts(put: nat, got: nat, released: nat)

  function StepCounts(op: Op, c: Counts): Counts {
    match op
    case PushLocked(_, _) => c.(put := c.put + 1)
    case Obtain => c.(got := c.got + 1)
    case Release => c.(released := c.released + 1)
    case Clear => Counts(0, 0, 0)
    case _ => c
  }

  function CountsAfter(ops: seq<Op>, c: Counts): Counts
    decreases |ops|
  {
    if ops == [] then c else CountsAfter(ops[1..], StepCounts(ops[0], c))
  }

  /** The counters count what their names say: in particular every obtain moves on to the next unit. */
  lemma {:induction false} CountersCount(q: Queue, ops: seq<Op>)
    requires Inv(q) && CanRun(q, ops)
    ensures var r := Run(q, ops);
            Counts(r.putCount, r.gotCount, r.released) == CountsAfter(ops, Counts(q.putCount, q.gotCount, q.released))
    decreases |ops|
  {
    hide Inv;
    if ops != [] {
      StepKeepsInv(q, ops[0]);
      CountersCount(Apply(q, ops[0]), ops[1..]);
    }
  }

  /** A reset gives back the stream as it was opened, but for the memory and the last stamps. */
  lemma ResetIsFresh(q: Queue)
    requires Inv(q) && Enabled(q, Clear)
    ensures Apply(q, Clear) == Queue(Ring(q.ring.base, q.ring.limit, q.ring.base, [], 0), q.cells, q.exInfoSize,
                                     q.capacity, [], [], [], 0, 0, 0, [], [], [], q.lastDts, q.lastPts)
  {
  }

  /** In particular the next unit an application obtains is the one pushed at that position since the
      last reset, and the bytes at its address are the bytes that were pushed. */
  lemma ObtainedUnitIsPushedUnit(q: Queue, ops: seq<Op>, h: seq<AccessUnit>)
    requires Inv(q) && CanRun(q, ops) && Tracks(q, h)
    requires Enabled(Run(q, ops), Obtain)
    ensures Delivers(Run(q, ops), History(q, ops, h))
  {
    hide CanRun, Run, History, Inv, Stored;
    RunIsFifo(q, ops, h);
    var r := Run(q, ops);
    var history := History(q, ops, h);
    assert OldestUnseen(r).1 == history[r.released..][r.gotCount - r.released] == history[r.gotCount];
  }

  /** The next obtain hands out the unit of `history` whose number is the obtain count. */
  ghost predicate Delivers(r: Queue, history: seq<AccessUnit>)
    requires Inv(r) && Enabled(r, Obtain)
  {
    && r.gotCount < |history|
    && Stored(r.cells, OldestUnseen(r).0, history[r.gotCount], r.exInfoSize)
  }

  /** A stream that has just been opened or reset has no history. */
  lemma NothingPushedYet(q: Queue)
    requires Inv(q) && q.putCount == 0
    ensures Tracks(q, [])
  {
  }

  /** Safety of memory over every run: live blocks are 128-aligned, inside the ring and pairwise
      disjoint. */
  lemma RunKeepsBlocksApart(q: Queue, ops: seq<Op>)
    requires Inv(q) && CanRun(q, ops)
    ensures var bs := Run(q, ops).ring.blocks;
            && (forall i :: 0 <= i < |bs| ==>
                  bs[i].at % 128 == 0 && q.ring.base <= bs[i].at && bs[i].End() <= q.ring.limit)
            && (forall i, j :: 0 <= i < j < |bs| ==> Disjoint(bs[i], bs[j]))
  {
    RunKeepsRegion(q, ops);
    BlocksDisjoint(Run(q, ops).ring);
  }

  lemma {:induction false} RunKeepsRegion(q: Queue, ops: seq<Op>)
    requires Inv(q) && CanRun(q, ops)
    ensures Run(q, ops).ring.base == q.ring.base && Run(q, ops).ring.limit == q.ring.limit
    decreases |ops|
  {
    if ops != [] {
      StepKeepsInv(q, ops[0]);
      RunKeepsRegion(Apply(q, ops[0]), ops[1..]);
    }
  }
}
