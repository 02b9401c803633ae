/** Cutting the ATRAC3plus byte stream of an elementary stream into access units. */
module AtxSplitter {
  import opened MachineInts
  import opened AccessUnitQueue
  import opened ElementaryStreams

  /** Frame length in bytes, as the demuxer computes it from the ATS header. */
  function FrameSize(data: seq<u8>): nat
    requires 8 <= |data|
  {
    ((data[2] as int % 4) * 256 + data[3]) * 8 + 8
  }

  /** Frame length in bytes, as the decoder computes it from the 16-bit parameter word. */
  function NBytes(params: u16): nat {
    (params % 0x400 + 1) * 8
  }

  function ParamsOf(data: seq<u8>): u16
    requires 8 <= |data|
  {
    data[2] as int * 0x100 + data[3]
  }

  predicate HasSync(data: seq<u8>) {
    8 <= |data| && data[0] == 0x0f && data[1] == 0xd0
  }

  /** Demuxer and decoder agree on the frame length of every header. */
  lemma FrameSizeIsNBytes(data: seq<u8>)
    requires 8 <= |data|
    ensures FrameSize(data) == NBytes(ParamsOf(data)) <= 0x2000
  {
    var hi: int := data[2] / 4;
    assert ParamsOf(data) == hi * 0x400 + ((data[2] as int % 4) * 0x100 + data[3]);
  }

  /** One complete access unit: the header and as many bytes as it announces. */
  ghost predicate IsAtxUnit(bytes: seq<u8>) {
    HasSync(bytes) && |bytes| == 8 + NBytes(ParamsOf(bytes))
  }

  predicate Tagged(u: AccessUnit, t: Tags) {
    u.dts == t.dts && u.pts == t.pts && u.userData == t.userData && u.rap == t.rap && u.specific == t.specific
  }

  function Joined(units: seq<AccessUnit>): seq<u8> {
    if units == [] then [] else Joined(units[..|units| - 1]) + units[|units| - 1].bytes
  }

  /** In bytes: the sync word, and the length that the third and the fourth byte announce. */
  lemma AtxUnitIs(b: seq<u8>)
    ensures IsAtxUnit(b) <==>
      && 8 <= |b| && b[0] == 0x0f && b[1] == 0xd0
      && |b| == 16 + 8 * ((b[2] as int % 4) * 256 + b[3] as int)
  {
    if 8 <= |b| {
      FrameSizeIsNBytes(b);
    }
  }

  lemma {:induction false} JoinedCat(p: seq<AccessUnit>, q: seq<AccessUnit>)
    ensures Joined(p + q) == Joined(p) + Joined(q)
    decreases |q|
  {
    if q == [] {
      assert p + q == p;
    } else {
      assert (p + q)[..|p + q| - 1] == p + q[..|q| - 1];
      JoinedCat(p, q[..|q| - 1]);
    }
  }

  datatype SplitResult = Done | HeaderNotFound

  /** Why the splitting loop stopped. */
  ghost predicate MustStop(q: Queue, r: SplitResult) {
    match r
    case HeaderNotFound => 8 <= |q.rawData| && !HasSync(q.rawData)
    case Done =>
      || |q.rawData| < 8
      || (HasSync(q.rawData) && |q.rawData| < 8 + NBytes(ParamsOf(q.rawData)))
      || (HasSync(q.rawData) && Full(q, 8 + NBytes(ParamsOf(q.rawData))))
  }

  datatype CutResult = Cut | Stop(r: SplitResult)

  /** One round of the splitting loop. */
  method CutOne(es: ElementaryStream, t: Tags) returns (c: CutResult)
    requires es.Valid() && es.model.pending == [] && 8 + 0x2000 + 128 <= es.memSize
    modifies es, es.memory
    ensures es.Valid() && es.model.pending == [] && es.model.fed == old(es.model.fed)
    ensures es.lastDts == old(es.lastDts) && es.lastPts == old(es.lastPts)
    ensures c.Stop? ==> es.model == old(es.model) && MustStop(es.model, c.r)
    ensures c.Cut? ==>
              && HasSync(old(es.rawData))
              && var n := 8 + NBytes(ParamsOf(old(es.rawData)));
                 && n <= |old(es.rawData)| && !Full(old(es.model), n)
                 && es.model.units == old(es.model.units) + [UnitFrom(old(es.model), n, t)]
                 && es.rawData == old(es.rawData)[n..]
  {
    hide Inv, Full;
    var size := |es.rawData|;
    var data := es.rawData;
    if size < 8 {
      return Stop(Done);
    }
    if data[0] != 0x0f || data[1] != 0xd0 {
      return Stop(HeaderNotFound);
    }
    var frameSize := FrameSize(data);
    FrameSizeIsNBytes(data);
    if size < frameSize + 8 {
      return Stop(Done);
    }
    var full := es.IsFull(frameSize + 8);
    if full {
      return Stop(Done);
    }
    es.PushAu(frameSize + 8, t);
    return Cut;
  }

  /** Cuts every complete unit that fits. No byte is lost or reordered: the new units, joined,
      followed by what stays are the bytes that were there. */
  method SplitAtx(es: ElementaryStream, t: Tags) returns (r: SplitResult, ghost units: seq<AccessUnit>)
    requires es.Valid() && es.model.pending == [] && 8 + 0x2000 + 128 <= es.memSize
    modifies es, es.memory
    ensures es.Valid() && es.model.pending == []
    ensures es.model.units == old(es.model.units) + units
    ensures Joined(units) + es.rawData == old(es.rawData) && es.model.fed == old(es.model.fed)
    ensures es.lastDts == old(es.lastDts) && es.lastPts == old(es.lastPts)
    ensures forall i :: 0 <= i < |units| ==> IsAtxUnit(units[i].bytes) && Tagged(units[i], t)
    ensures MustStop(es.model, r)
  {
    hide Inv, Joined, IsAtxUnit, NBytes, ParamsOf, HasSync, MustStop;
    units := [];
    assert Joined(units) + es.rawData == es.rawData by { NothingJoined(es.rawData); }
    while true
      invariant es.Valid() && es.model.pending == []
      invariant es.model.units == old(es.model.units) + units
      invariant Joined(units) + es.rawData == old(es.rawData) && es.model.fed == old(es.model.fed)
      invariant es.lastDts == old(es.lastDts) && es.lastPts == old(es.lastPts)
      invariant forall i :: 0 <= i < |units| ==> IsAtxUnit(units[i].bytes) && Tagged(units[i], t)
      decreases |es.rawData|
    {
      ghost var before := es.rawData;
      ghost var q := es.model;
      var c := CutOne(es, t);
      if c.Stop? {
        return c.r, units;
      }
      ghost var unit := UnitFrom(q, 8 + NBytes(ParamsOf(before)), t);
      CutIsAtxUnit(before);
      JoinedOneMore(units, unit, es.rawData);
      units := units + [unit];
    }
  }

  lemma NothingJoined(rest: seq<u8>)
    ensures Joined([]) + rest == rest
  {
  }

  lemma CutIsAtxUnit(data: seq<u8>)
    requires HasSync(data) && 8 + NBytes(ParamsOf(data)) <= |data|
    ensures IsAtxUnit(data[..8 + NBytes(ParamsOf(data))])
    ensures data[..8 + NBytes(ParamsOf(data))] + data[8 + NBytes(ParamsOf(data))..] == data
  {
  }

  lemma JoinedOneMore(units: seq<AccessUnit>, unit: AccessUnit, rest: seq<u8>)
    ensures Joined(units + [unit]) + rest == Joined(units) + (unit.bytes + rest)
  {
    assert (units + [unit])[..|units|] == units;
  }

  /** The payload of one packet: appended, then split. */
  method PushAtxPayload(es: ElementaryStream, payload: seq<u8>, t: Tags)
      returns (r: SplitResult, ghost units: seq<AccessUnit>)
    requires es.Valid() && es.model.pending == [] && 8 + 0x2000 + 128 <= es.memSize
    modifies es, es.memory
    ensures es.Valid() && es.model.pending == []
    ensures es.model.units == old(es.model.units) + units
    ensures Joined(units) + es.rawData == old(es.rawData) + payload && es.model.fed == old(es.model.fed) + payload
    ensures es.lastDts == old(es.lastDts) && es.lastPts == old(es.lastPts)
    ensures forall i :: 0 <= i < |units| ==> IsAtxUnit(units[i].bytes) && Tagged(units[i], t)
    ensures MustStop(es.model, r)
  {
    es.PushRaw(payload);
    r, units := SplitAtx(es, t);
  }

  /** All bytes appended since the last reset: those of `f` and those of the run. */
  function Fed(ops: seq<Op>, f: seq<u8>): seq<u8>
    decreases |ops|
  {
    if ops == [] then f else Fed(ops[1..], StepFed(ops[0], f))
  }

  function StepFed(op: Op, f: seq<u8>): seq<u8> {
    match op
    case Append(data) => f + data
    case Clear => []
    case _ => f
  }

  /** Conservation over every run: whatever has been cut into units since the last reset, in order,
      followed by what waits in the raw data, is everything appended since then. */
  lemma BytesConserved(q: Queue, ops: seq<Op>, h: seq<AccessUnit>)
    requires Inv(q) && CanRun(q, ops) && q.cut == Joined(h)
    ensures Joined(History(q, ops, h)) + Run(q, ops).rawData == Fed(ops, q.fed)
  {
    RunCuts(q, ops, h);
  }

  lemma {:induction false} RunCuts(q: Queue, ops: seq<Op>, h: seq<AccessUnit>)
    requires Inv(q) && CanRun(q, ops) && q.cut == Joined(h)
    ensures Run(q, ops).fed == Fed(ops, q.fed) && Run(q, ops).cut == Joined(History(q, ops, h))
    decreases |ops|
  {
    hide Inv, Joined;
    if ops != [] {
      StepKeepsInv(q, ops[0]);
      StepCuts(q, ops[0], h);
      RunCuts(Apply(q, ops[0]), ops[1..], StepHistory(q, ops[0], h));
    }
  }

  lemma StepCuts(q: Queue, op: Op, h: seq<AccessUnit>)
    requires Inv(q) && Enabled(q, op) && q.cut == Joined(h)
    ensures Apply(q, op).fed == StepFed(op, q.fed) && Apply(q, op).cut == Joined(StepHistory(q, op, h))
  {
    hide Inv;
    if op.PushLocked? {
      var u := UnitFrom(q, op.size, op.tags);
      assert (h + [u])[..|h|] == h;
    }
  }
}
