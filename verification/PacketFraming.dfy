/** The demuxing loop over an MPEG program stream: how far each packet moves the cursor and what
    it hands to the elementary stream it belongs to. */
module PacketFraming {
  import opened MachineInts
  import opened PesHeaders
  import opened AccessUnitQueue
  import opened ElementaryStreams
  import opened AtxSplitter
  import opened VideoUnits

  const PACK_START_CODE := 0x1ba
  const SYSTEM_HEADER_START_CODE := 0x1bb
  const PRIVATE_STREAM_1 := 0x1bd
  const PADDING_STREAM := 0x1be
  const PRIVATE_STREAM_2 := 0x1bf

  function Code(w: seq<u8>): nat
    requires 4 <= |w|
  {
    ((w[0] as int * 0x100 + w[1]) * 0x100 + w[2]) * 0x100 + w[3]
  }

  function Length(w: seq<u8>): u16
    requires 6 <= |w|
  {
    w[4] as int * 0x100 + w[5]
  }

  predicate IsVideo(code: nat) { 0x1e0 <= code <= 0x1ef }

  predicate HasLength(code: nat) {
    code in {PRIVATE_STREAM_1, PADDING_STREAM, PRIVATE_STREAM_2} || IsVideo(code)
  }

  /** The number of bytes the packet at the start of `w` occupies; one where none starts. */
  function PacketLength(w: seq<u8>): nat
    requires 4 <= |w|
  {
    if Code(w) == PACK_START_CODE then 14
    else if Code(w) == SYSTEM_HEADER_START_CODE then 18
    else if HasLength(Code(w)) then if 6 <= |w| then 6 + Length(w) else 6
    else 1
  }

  /** The bytes of header that follow the length field of a packet with a PES header, up to the
      payload: the PES header and, for private stream 1, the stream number. */
  function HeaderLength(w: seq<u8>): nat
    requires 6 <= |w| && PesFits(w[6..])
  {
    3 + w[8] as int + if Code(w) == PRIVATE_STREAM_1 then 1 else 0
  }

  /** The packet at the start of `w` is complete and its header is understood. */
  predicate Accepted(w: seq<u8>)
    requires 4 <= |w|
  {
    && PacketLength(w) <= |w|
    && (Code(w) == PRIVATE_STREAM_1 || IsVideo(Code(w)) ==>
          && PesFits(w[6..]) && HeaderLength(w) <= Length(w)
          && Scan(w[9..9 + w[8] as int]).isOk)
    && (Code(w) / 0x100 == 1 ==> Code(w) in {PACK_START_CODE, SYSTEM_HEADER_START_CODE} || HasLength(Code(w)))
  }

  datatype Step = Advanced | BackPressure | Thrown

  /** Reads the start code and the length field, if the whole packet is there. */
  method ReadLength(stream: DemuxerStream) returns (ok: bool, len: nat)
    requires stream.Valid() && 4 <= stream.size
    modifies stream
    ensures stream.Valid()
    ensures var w := old(stream.Rest());
            && (ok <==> 6 <= |w| && 6 + Length(w) <= |w|)
            && (ok ==> len == Length(w) && stream.Rest() == w[6..]
                       && stream.addr == old(stream.addr) + 6 && stream.size == old(stream.size) - 6)
  {
    if !stream.Check(6) {
      return false, 0;
    }
    ghost var a, n := stream.addr, stream.size;
    stream.Skip(4);
    var _, lenBytes := stream.Get(2);
    len := lenBytes[0] as int * 0x100 + lenBytes[1];
    SliceOfSlice(stream.memory, a, a + n, 6, n);
    ok := stream.Check(len);
  }

  /** Skips a packet without looking into it: padding and private stream 2. */
  method SkipPacket(stream: DemuxerStream) returns (ok: bool)
    requires stream.Valid() && 4 <= stream.size
    requires HasLength(Code(stream.Rest()))
    modifies stream
    ensures stream.Valid()
    ensures var w := old(stream.Rest());
            && (ok <==> PacketLength(w) <= |w|)
            && (ok ==> stream.addr == old(stream.addr) + PacketLength(w))
            && (ok ==> stream.size == old(stream.size) - PacketLength(w))
  {
    LengthIs(stream.Rest());
    hide Code, HasLength, PacketLength, Length;
    var len;
    ok, len := ReadLength(stream);
    if ok {
      stream.Skip(len);
    }
  }

  lemma LengthIs(w: seq<u8>)
    requires 4 <= |w| && HasLength(Code(w))
    ensures PacketLength(w) <= |w| <==> 6 <= |w| && 6 + Length(w) <= |w|
    ensures 6 <= |w| ==> PacketLength(w) == 6 + Length(w)
  {
  }

  /** Where the payload of a packet with a PES header begins and how much of it there is. */
  datatype Payload = Broken | At(stamps: Stamps, pesSize: u8, fid: u8, len: nat)

  /** What makes a packet with a PES header acceptable. */
  lemma AcceptedExactly(w: seq<u8>, private1: bool)
    requires 4 <= |w| && if private1 then Code(w) == PRIVATE_STREAM_1 else IsVideo(Code(w))
    ensures 6 <= |w| ==> PacketLength(w) == 6 + Length(w)
    ensures Accepted(w) <==> 6 <= |w| && 6 + Length(w) <= |w| && PesFits(w[6..])
                             && HeaderLength(w) <= Length(w) && Scan(w[9..9 + w[8] as int]).isOk
    ensures 6 <= |w| && PesFits(w[6..]) ==> HeaderLength(w) == 3 + w[8] as int + if private1 then 1 else 0
  {
    hide Scan;
  }

  /** Reads everything up to the payload of a video or private stream 1 packet. */
  method OpenPacket(stream: DemuxerStream, private1: bool) returns (p: Payload)
    requires stream.Valid() && 4 <= stream.size
    requires if private1 then Code(stream.Rest()) == PRIVATE_STREAM_1 else IsVideo(Code(stream.Rest()))
    modifies stream
    ensures stream.Valid()
    ensures var w := old(stream.Rest());
            && (p.At? <==> Accepted(w))
            && (p.At? ==>
                  && p.pesSize == w[8] && p.stamps == Scan(w[9..9 + w[8] as int])
                  && (private1 ==> p.fid == w[9 + w[8] as int])
                  && p.len == Length(w) - HeaderLength(w)
                  && PacketLength(w) == 6 + HeaderLength(w) + p.len <= |w|
                  && HeaderLength(w) == 3 + p.pesSize as int + (if private1 then 1 else 0)
                  && stream.addr == old(stream.addr) + 6 + HeaderLength(w)
                  && stream.size == old(stream.size) - 6 - HeaderLength(w))
  {
    ghost var w, a := stream.Rest(), stream.addr;
    AcceptedExactly(w, private1);
    hide Scan, Accepted, HeaderLength, PacketLength, Code, IsVideo, Length;
    var ok, len := ReadLength(stream);
    if !ok {
      return Broken;
    }
    var pes := ReadPesHeader(stream);
    if pes.Pes? {
      assert w[6..][3..3 + pes.size as int] == w[9..9 + pes.size as int];
    }
    if pes.EndOfStream? || !pes.stamps.isOk {
      return Broken;
    }
    var fidSize := if private1 then 1 else 0;
    if len < pes.size as int + 3 + fidSize {
      return Broken;
    }
    len := len - (pes.size as int + 3 + fidSize);
    var fid: u8 := 0;
    if private1 {
      var _, fidBytes := stream.Get(1);
      fid := fidBytes[0];
      assert w[9 + pes.size as int] == stream.memory[a + 9 + pes.size as int];
    }
    return At(pes.stamps, pes.size, fid, len);
  }

  /** An AVC stream never holds more than this. */
  const AVC_ROOM := AVC_LIMIT + 0x10005
  /** An ATX stream holding more than this makes the demuxer wait. */
  const ATX_LIMIT := 1024 * 1024

  ghost predicate ReadyForVideo(es: ElementaryStream)
    reads es, es.memory
  {
    es.Valid() && es.model.pending == [] && AVC_ROOM + 128 <= es.memSize && |es.rawData| <= AVC_ROOM
  }

  ghost predicate ReadyForAtx(es: ElementaryStream)
    reads es, es.memory
  {
    es.Valid() && es.model.pending == [] && 8 + 0x2000 + 128 <= es.memSize
  }

  /** The part of a stream that the cutting of video uses. */
  function VideoOf(q: Queue): Video {
    Video(q.rawData, q.lastDts, q.lastPts, q.units)
  }

  /** Hands a whole video packet to its stream, after pushing what the stream holds if the packet
      starts a new unit or the unit has become too big. */
  method FeedVideo(es: ElementaryStream, packet: seq<u8>, s: Stamps, userData: u64) returns (busy: bool)
    requires ReadyForVideo(es) && |packet| <= 0x10005
    modifies es, es.memory
    ensures ReadyForVideo(es)
    ensures busy <==> Full(old(es.model), |old(es.rawData)|)
    ensures busy ==> es.model == old(es.model)
    ensures !busy ==>
              && VideoOf(es.model) == Take(VideoOf(old(es.model)), Packet(packet, s), userData)
              && es.model.fed == old(es.model.fed) + packet
  {
    hide Inv, Full;
    var oldSize := |es.rawData|;
    busy := es.IsFull(oldSize);
    if busy {
      return;
    }
    if (s.hasTs && oldSize > 0) || oldSize >= AVC_LIMIT {
      assert es.rawData[..oldSize] == es.rawData;
      es.PushAu(oldSize, Tags(es.lastDts, es.lastPts, userData, false, 0));
      assert es.rawData == [];
    }
    if s.hasTs {
      es.KeepStamps(s.dts, s.pts);
    }
    es.PushRaw(packet);
  }

  datatype AtxStep = Fed | Busy | Bad

  /** The raw data begin with a header that is none. */
  ghost predicate LacksSync(q: Queue) {
    8 <= |q.rawData| && !HasSync(q.rawData)
  }

  /** From `q` to `r` the bytes `data` of a packet with stamps `s` were appended and units cut off the
      front: complete ones, from which and from what is left nothing is missing, and which carry the
      last stamps seen. */
  ghost predicate HasCut(q: Queue, r: Queue, data: seq<u8>, s: Stamps, userData: u64) {
    && r.fed == q.fed + data && q.units <= r.units
    && r.lastDts == (if s.hasTs then s.dts else q.lastDts) && r.lastPts == (if s.hasTs then s.pts else q.lastPts)
    && (forall i :: |q.units| <= i < |r.units| ==>
          IsAtxUnit(r.units[i].bytes) && Tagged(r.units[i], Tags(r.lastDts, r.lastPts, userData, false, 0)))
    && Joined(r.units[|q.units|..]) + r.rawData == q.rawData + data
    && IsSplit(r)
  }

  /** The splitter has nothing left to cut: no whole unit that fits, or no unit at all, begins the raw
      data. */
  ghost predicate IsSplit(q: Queue) {
    MustStop(q, if LacksSync(q) then HeaderNotFound else SplitResult.Done)
  }

  /** What ATRAC packets do to a stream, one or many. */
  ghost predicate AtxReceived(q: Queue, r: Queue, bytes: seq<u8>) {
    && q.units <= r.units && Joined(r.units[|q.units|..]) + r.rawData == q.rawData + bytes
    && (forall i :: |q.units| <= i < |r.units| ==> IsAtxUnit(r.units[i].bytes))
    && (r == q || IsSplit(r))
  }

  lemma AtxReceivedNothing(q: Queue)
    ensures AtxReceived(q, q, [])
  {
    assert q.units[|q.units|..] == [];
    NothingJoined(q.rawData);
    assert q.rawData + [] == q.rawData;
  }

  lemma AtxReceivedCut(q: Queue, r: Queue, data: seq<u8>, s: Stamps, userData: u64)
    requires HasCut(q, r, data, s, userData)
    ensures AtxReceived(q, r, data)
  {
    hide IsSplit, Joined, IsAtxUnit, Tagged;
  }

  lemma AtxReceivedCat(q: Queue, r: Queue, s: Queue, b: seq<u8>, c: seq<u8>)
    requires AtxReceived(q, r, b) && AtxReceived(r, s, c)
    ensures AtxReceived(q, s, b + c)
  {
    hide IsSplit, Joined, IsAtxUnit;
    var first, second := r.units[|q.units|..], s.units[|r.units|..];
    assert s.units[|q.units|..] == first + second;
    JoinedCat(first, second);
    assert Joined(first) + Joined(second) + s.rawData == Joined(first) + (Joined(second) + s.rawData);
    assert Joined(first) + (r.rawData + c) == Joined(first) + r.rawData + c;
    assert q.rawData + b + c == q.rawData + (b + c);
    forall i | |q.units| <= i < |s.units| ensures IsAtxUnit(s.units[i].bytes) {
      if i < |r.units| {
        assert s.units[i] == r.units[i];
      }
    }
  }

  /** Hands the payload of an ATX packet, after its three-byte header, to its stream. */
  method FeedAtx(es: ElementaryStream, payload: seq<u8>, s: Stamps, userData: u64) returns (r: AtxStep)
    requires ReadyForAtx(es)
    modifies es, es.memory
    ensures ReadyForAtx(es)
    ensures r.Busy? <==> |old(es.rawData)| > ATX_LIMIT
    ensures r.Busy? || |payload| < 3 ==> es.model == old(es.model)
    ensures !r.Busy? && |payload| < 3 ==> r.Bad?
    ensures !r.Busy? && |payload| >= 3 ==>
              HasCut(old(es.model), es.model, payload[3..], s, userData) && (r.Bad? <==> LacksSync(es.model))
  {
    hide Inv, Full, IsAtxUnit, Joined, NBytes, ParamsOf, Tagged;
    hide HasSync;
    if |es.rawData| > ATX_LIMIT {
      return Busy;
    }
    if |payload| < 3 {
      return Bad;
    }
    if s.hasTs {
      es.KeepStamps(s.dts, s.pts);
    }
    var t := Tags(es.lastDts, es.lastPts, userData, false, 0);
    var split, units := PushAtxPayload(es, payload[3..], t);
    assert es.model.units[|old(es.model.units)|..] == units;
    return if split.Done? then Fed else Bad;
  }

  /** The slot of the stream a private stream 1 packet is meant for: an ATX channel, or none. */
  function AtxSlot(w: seq<u8>): nat
    requires 4 <= |w|
  {
    if 9 < |w| && 9 + w[8] as int < |w| && Nibble(w[9 + w[8] as int]) == 0
    then 48 + w[9 + w[8] as int] as int % 16
    else 96
  }

  /** The slot of the stream a packet is meant for, or 96. */
  function Slot(w: seq<u8>): nat
    requires 4 <= |w|
  {
    if IsVideo(Code(w)) then Code(w) % 16 else if Code(w) == PRIVATE_STREAM_1 then AtxSlot(w) else 96
  }

  /** The stream that a packet is meant for makes the demuxer wait: an AVC stream that could not take
      what it holds as a unit, or an ATX stream with too much waiting. */
  ghost predicate NoRoom(q: Queue, w: seq<u8>)
    requires 4 <= |w|
  {
    if IsVideo(Code(w)) then Full(q, |q.rawData|) else |q.rawData| > ATX_LIMIT
  }

  /** An ATX packet without its three-byte header. */
  predicate TooShort(w: seq<u8>)
    requires 4 <= |w| && Accepted(w)
  {
    Code(w) == PRIVATE_STREAM_1 && PacketLength(w) < 9 + HeaderLength(w)
  }

  /** What an accepted packet gives to slot `i`: a video packet all of itself, an ATX packet its
      payload without the three-byte header. */
  function Gives(w: seq<u8>, i: nat): (r: seq<u8>)
    requires 4 <= |w| && Accepted(w)
    ensures i != Slot(w) ==> r == []
  {
    if i != Slot(w) || i >= 96 || TooShort(w) then []
    else if IsVideo(Code(w)) then w[..PacketLength(w)]
    else w[9 + HeaderLength(w)..PacketLength(w)]
  }

  lemma AtxPacketFacts(w: seq<u8>, fid: u8)
    requires 4 <= |w| && Accepted(w) && Code(w) == PRIVATE_STREAM_1
    requires 9 + w[8] as int < |w| && fid == w[9 + w[8] as int]
    ensures Slot(w) == AtxSlot(w) == if fid / 16 == 0 then 48 + fid % 16 else 96
    ensures AtxSlot(w) < 96 && !TooShort(w) ==>
      9 + HeaderLength(w) <= PacketLength(w) <= |w| && Gives(w, AtxSlot(w)) == w[9 + HeaderLength(w)..PacketLength(w)]
    ensures TooShort(w) ==> Gives(w, AtxSlot(w)) == []
    ensures TooShort(w) <==> PacketLength(w) < 9 + HeaderLength(w)
  {
    hide Scan;
  }

  /** A video packet with the stamps in its header. */
  function PacketOf(w: seq<u8>): (p: Packet)
    requires 4 <= |w| && Accepted(w) && IsVideo(Code(w))
    ensures p.bytes != []
  {
    Packet(w[..PacketLength(w)], Scan(w[9..9 + w[8] as int]))
  }

  /** The packet, where it goes to slot `i`. */
  function VideoGiven(w: seq<u8>, i: nat): (ps: seq<Packet>)
    requires 4 <= |w| && Accepted(w)
    ensures forall p :: p in ps ==> p.bytes != []
  {
    if IsVideo(Code(w)) && i == Slot(w) then [PacketOf(w)] else []
  }

  /** What one ATRAC packet does to its stream: nothing, if it is too short, else its payload is appended
      and cut, with the stamps in its header. */
  ghost predicate AtxTaken(q: Queue, r: Queue, w: seq<u8>, userData: u64)
    requires 4 <= |w| && Accepted(w) && Code(w) == PRIVATE_STREAM_1
  {
    if TooShort(w) then r == q
    else HasCut(q, r, Gives(w, AtxSlot(w)), Scan(w[9..9 + w[8] as int]), userData)
  }

  lemma AtxTakenIs(w: seq<u8>, q: Queue, r: Queue, userData: u64)
    requires 4 <= |w| && Accepted(w) && Code(w) == PRIVATE_STREAM_1 && AtxTaken(q, r, w, userData)
    ensures r.fed == q.fed + Gives(w, AtxSlot(w)) && AtxReceived(q, r, Gives(w, AtxSlot(w)))
  {
    if TooShort(w) {
      assert Gives(w, AtxSlot(w)) == [];
      hide AtxReceived, Scan, HasCut;
      AtxReceivedNothing(q);
    } else {
      AtxReceivedCut(q, r, Gives(w, AtxSlot(w)), Scan(w[9..9 + w[8] as int]), userData);
      hide AtxReceived, Scan, IsSplit, Joined;
    }
  }

  /** From `q` to `r` the stream in slot `j` was handed `bytes`; a video stream was cut as the packets `ps`
      demand, an ATX stream as far as it goes. */
  ghost predicate Received(q: Queue, r: Queue, j: nat, bytes: seq<u8>, ps: seq<Packet>, userData: u64) {
    && r.fed == q.fed + bytes
    && (j < 16 ==> VideoOf(r) == TakeAll(VideoOf(q), ps, userData))
    && (48 <= j < 64 ==> AtxReceived(q, r, bytes))
  }

  lemma ReceivedNothing(q: Queue, j: nat, userData: u64)
    ensures Received(q, q, j, [], [], userData)
  {
    AtxReceivedNothing(q);
    hide AtxReceived;
  }

  lemma ReceivedCat(q: Queue, r: Queue, s: Queue, j: nat, b: seq<u8>, ps: seq<Packet>, c: seq<u8>,
      qs: seq<Packet>, userData: u64)
    requires Received(q, r, j, b, ps, userData) && Received(r, s, j, c, qs, userData)
    ensures Received(q, s, j, b + c, ps + qs, userData)
  {
    TakeAllCat(VideoOf(q), ps, qs, userData);
    hide VideoOf, TakeAll, AtxReceived;
    if 48 <= j < 64 {
      AtxReceivedCat(q, r, s, b, c);
    }
    assert q.fed + b + c == q.fed + (b + c);
  }

  /** A video stream that held nothing has afterwards the units and the beginning of the next one that
      its packets, grouped by stamps and size, make up. */
  lemma ReceivedUnits(q: Queue, r: Queue, j: nat, bytes: seq<u8>, ps: seq<Packet>, userData: u64)
      returns (gs: seq<seq<Packet>>)
    requires Received(q, r, j, bytes, ps, userData) && j < 16
    requires q.rawData == [] && ps != [] && forall p :: p in ps ==> p.bytes != []
    ensures Grouped(VideoOf(q), ps, gs, VideoOf(r), userData)
  {
    gs := UnitsAreGroups(VideoOf(q), ps, userData);
  }

  /** One packet, for the slot that it is meant for and for the others. */
  lemma ReceivedPacket(w: seq<u8>, q: Queue, r: Queue, j: nat, userData: u64)
    requires 4 <= |w| && Accepted(w) && j < 96
    requires j != Slot(w) ==> r == q
    requires j == Slot(w) && IsVideo(Code(w)) ==>
               r.fed == q.fed + Gives(w, j) && VideoOf(r) == Take(VideoOf(q), PacketOf(w), userData)
    requires j == Slot(w) && Code(w) == PRIVATE_STREAM_1 ==> AtxTaken(q, r, w, userData)
    ensures Received(q, r, j, Gives(w, j), VideoGiven(w, j), userData)
  {
    GivenIs(w);
    hide Take, VideoOf, Code, Accepted, PacketOf, Slot, AtxSlot, Gives, VideoGiven;
    if j != Slot(w) {
      GivesElsewhere(w, j);
      ReceivedNothing(q, j, userData);
    } else if IsVideo(Code(w)) {
      TakeOne(VideoOf(q), PacketOf(w), userData);
    } else if Code(w) == PRIVATE_STREAM_1 {
      hide AtxTaken, AtxReceived;
      AtxTakenIs(w, q, r, userData);
    }
  }

  lemma GivesElsewhere(w: seq<u8>, j: nat)
    requires 4 <= |w| && Accepted(w) && j != Slot(w)
    ensures Gives(w, j) == [] && VideoGiven(w, j) == []
  {
  }

  lemma GivenIs(w: seq<u8>)
    requires 4 <= |w|
    ensures Accepted(w) ==> forall j: nat {:trigger VideoGiven(w, j)} ::
              VideoGiven(w, j) == if IsVideo(Code(w)) && j == Code(w) % 16 then [PacketOf(w)] else []
    ensures Slot(w) == if IsVideo(Code(w)) then Code(w) % 16 else if Code(w) == PRIVATE_STREAM_1 then AtxSlot(w) else 96
    ensures AtxSlot(w) >= 48
  {
    hide Accepted;
  }

  lemma PacketIs(w: seq<u8>)
    requires 4 <= |w| && Accepted(w) && IsVideo(Code(w))
    ensures Code(w) % 16 == w[3] as int % 16
    ensures PacketLength(w) <= |w| && 9 + w[8] as int <= |w|
    ensures PacketOf(w) == Packet(w[..PacketLength(w)], Scan(w[9..9 + w[8] as int]))
  {
    hide Scan;
  }

  /** The demuxer thread's view: the input, and the open elementary streams by kind and channel,
      AVC at 0 to 15 and ATX at 48 to 63. */
  class Demuxer {
    const stream: DemuxerStream
    const esAll: seq<ElementaryStream?>

    ghost predicate Valid()
      reads this, stream, Footprint()
    {
      stream.Valid() && |esAll| == 96 && Apart() && Ready()
    }

    ghost predicate Ready()
      requires |esAll| == 96
      reads Footprint()
    {
      && (forall i :: 0 <= i < 16 && esAll[i] != null ==>
            esAll[i] in Footprint() && esAll[i].memory in Footprint() && ReadyForVideo(esAll[i]))
      && (forall i :: 48 <= i < 64 && esAll[i] != null ==>
            esAll[i] in Footprint() && esAll[i].memory in Footprint() && ReadyForAtx(esAll[i]))
    }

    lemma StreamApart()
      ensures stream !in Footprint()
      ensures forall i :: 0 <= i < |esAll| && esAll[i] != null ==>
                esAll[i] in Footprint() && esAll[i].memory in Footprint()
    {
    }

    ghost function Footprint(): set<object> {
      (set i | 0 <= i < |esAll| && esAll[i] != null :: esAll[i] as object)
      + (set i | 0 <= i < |esAll| && esAll[i] != null :: esAll[i].memory as object)
    }

    /** No two open streams are the same object or share memory. */
    ghost predicate Apart() {
      forall i, j :: 0 <= i < j < |esAll| && esAll[i] != null && esAll[j] != null ==>
        esAll[i] != esAll[j] && esAll[i].memory != esAll[j].memory
    }

    /** The stream a packet is meant for is open; it has no room for more. */
    ghost predicate Open(w: seq<u8>)
      requires 4 <= |w| && |esAll| == 96
    {
      Slot(w) < 96 && esAll[Slot(w)] != null
    }

    ghost predicate Blocked(w: seq<u8>)
      requires 4 <= |w| && |esAll| == 96
      reads if Open(w) then {esAll[Slot(w)]} else {}
    {
      Open(w) && NoRoom(esAll[Slot(w)].model, w)
    }

    /** Its payload lacks the three-byte header, or where it was appended the data have lost the sync. */
    ghost predicate Spoiled(w: seq<u8>)
      requires 4 <= |w| && |esAll| == 96 && Accepted(w)
      reads if Open(w) then {esAll[Slot(w)]} else {}
    {
      Open(w) && Code(w) == PRIVATE_STREAM_1 && (TooShort(w) || LacksSync(esAll[Slot(w)].model))
    }

    constructor (stream: DemuxerStream, esAll: seq<ElementaryStream?>)
      ensures this.stream == stream && this.esAll == esAll
    {
      this.stream, this.esAll := stream, esAll;
    }

    method FeedVideoSlot(i: nat, packet: seq<u8>, s: Stamps, userData: u64) returns (busy: bool)
      requires Valid() && i < 16 && esAll[i] != null && |packet| <= 0x10005
      modifies esAll[i], esAll[i].memory
      ensures Valid()
      ensures busy <==> Full(old(esAll[i].model), |old(esAll[i].model.rawData)|)
      ensures busy ==> esAll[i].model == old(esAll[i].model)
      ensures forall j :: 0 <= j < 96 && j != i && esAll[j] != null ==> esAll[j].model == old(esAll[j].model)
      ensures !busy ==>
                && VideoOf(esAll[i].model) == Take(VideoOf(old(esAll[i].model)), Packet(packet, s), userData)
                && esAll[i].model.fed == old(esAll[i].model.fed) + packet
    {
      hide Inv, Full, Take;
      busy := FeedVideo(esAll[i], packet, s, userData);
    }

    method FeedAtxSlot(i: nat, payload: seq<u8>, s: Stamps, userData: u64) returns (r: AtxStep)
      requires Valid() && 48 <= i < 64 && esAll[i] != null
      modifies esAll[i], esAll[i].memory
      ensures Valid()
      ensures r.Busy? <==> |old(esAll[i].model.rawData)| > ATX_LIMIT
      ensures r.Busy? || |payload| < 3 ==> esAll[i].model == old(esAll[i].model)
      ensures forall j :: 0 <= j < 96 && j != i && esAll[j] != null ==> esAll[j].model == old(esAll[j].model)
      ensures !r.Busy? && |payload| < 3 ==> r.Bad?
      ensures !r.Busy? && |payload| >= 3 ==>
                && HasCut(old(esAll[i].model), esAll[i].model, payload[3..], s, userData)
                && (r.Bad? <==> LacksSync(esAll[i].model))
    {
      hide Inv, Full, HasCut, LacksSync;
      r := FeedAtx(esAll[i], payload, s, userData);
    }

    method VideoPacket(userData: u64) returns (r: Step)
      requires Valid() && 4 <= stream.size && IsVideo(Code(stream.Rest()))
      modifies stream, Footprint()
      ensures Valid()
      ensures var w, i := old(stream.Rest()), Code(old(stream.Rest())) % 16;
              && (r.Thrown? <==> !Accepted(w))
              && (r.BackPressure? <==>
                    Accepted(w) && old(esAll[i] != null && Full(esAll[i].model, |esAll[i].model.rawData|)))
              && (r.Advanced? ==> Moved(w, old(stream.addr)))
              && (r.BackPressure? ==> stream.addr == old(stream.addr) && stream.size == old(stream.size))
              && (r.Advanced? && esAll[i] != null ==>
                    && esAll[i].model.fed == old(esAll[i].model.fed) + PacketOf(w).bytes
                    && VideoOf(esAll[i].model) == Take(VideoOf(old(esAll[i].model)), PacketOf(w), userData))
              && (forall j :: 0 <= j < 96 && esAll[j] != null && (j != i || !r.Advanced?) ==>
                    esAll[j].model == old(esAll[j].model))
    {
      StreamApart();
      hide Ready, Inv, Full, Accepted, Scan, ReadyForVideo, ReadyForAtx, Apart, PacketLength, HeaderLength, Length,
          Take, VideoOf, PacketOf, Code, IsVideo;
      ghost var w := stream.Rest();
      var backupAddr, backupSize := stream.addr, stream.size;
      var codeByte := stream.memory[stream.addr + 3];
      var p := OpenPacket(stream, false);
      if p.Broken? {
        return Thrown;
      }
      PacketIs(w);
      var ch := codeByte as int % 16;
      if esAll[ch] == null {
        stream.Skip(p.len);
        return Advanced;
      }
      var size := p.len + p.pesSize as int + 9;
      PrefixOfSlice(stream.memory, backupAddr, backupAddr + backupSize, size);
      stream.addr, stream.size := backupAddr, backupSize;
      r := ServeVideo(ch, size, p.stamps, userData, PacketOf(w));
    }

    /** Back at the start of the packet, hands all of it to the stream in slot `i`, if it can. */
    method ServeVideo(i: nat, size: nat, s: Stamps, userData: u64, ghost p: Packet) returns (r: Step)
      requires Valid() && i < 16 && esAll[i] != null && size <= stream.size && size <= 0x10005
      requires p == Packet(stream.memory[stream.addr..stream.addr + size], s)
      modifies stream, esAll[i], esAll[i].memory
      ensures Valid() && !r.Thrown?
      ensures r.BackPressure? <==> Full(old(esAll[i].model), |old(esAll[i].model.rawData)|)
      ensures r.BackPressure? ==> stream.addr == old(stream.addr) && stream.size == old(stream.size)
      ensures r.BackPressure? ==> esAll[i].model == old(esAll[i].model)
      ensures r.Advanced? ==> stream.addr == old(stream.addr) + size && stream.size == old(stream.size) - size
      ensures r.Advanced? ==>
                && esAll[i].model.fed == old(esAll[i].model.fed) + p.bytes
                && VideoOf(esAll[i].model) == Take(VideoOf(old(esAll[i].model)), p, userData)
      ensures forall j :: 0 <= j < 96 && j != i && esAll[j] != null ==> esAll[j].model == old(esAll[j].model)
    {
      hide Inv, Full, ReadyForVideo, ReadyForAtx, Take, VideoOf;
      var busy := FeedVideoSlot(i, stream.memory[stream.addr..stream.addr + size], s, userData);
      if busy {
        return BackPressure;
      }
      stream.Skip(size);
      return Advanced;
    }

    /** The cursor stands just behind the packet that `w` starts with. */
    ghost predicate Moved(w: seq<u8>, from: nat)
      requires 4 <= |w|
      reads stream
    {
      stream.addr == from + PacketLength(w) && stream.size == |w| - PacketLength(w)
    }

    method PrivatePacket(userData: u64) returns (r: Step)
      requires Valid() && 4 <= stream.size && Code(stream.Rest()) == PRIVATE_STREAM_1
      modifies stream, Footprint()
      ensures Valid()
      ensures var w, i := old(stream.Rest()), AtxSlot(old(stream.Rest()));
              && (r.Advanced? ==> Moved(w, old(stream.addr)))
              && (r.BackPressure? ==> stream.addr == old(stream.addr) && stream.size == old(stream.size))
              && (r.BackPressure? <==>
                    Accepted(w) && old(i < 96 && esAll[i] != null && |esAll[i].model.rawData| > ATX_LIMIT))
              && (r.Thrown? <==>
                    !Accepted(w)
                    || (!r.BackPressure? && i < 96 && esAll[i] != null && (TooShort(w) || LacksSync(esAll[i].model))))
              && (Accepted(w) && i < 96 && esAll[i] != null && !r.BackPressure? ==>
                    AtxTaken(old(esAll[i].model), esAll[i].model, w, userData))
              && (forall j :: 0 <= j < 96 && esAll[j] != null && (j != i || r.BackPressure? || !Accepted(w)) ==>
                    esAll[j].model == old(esAll[j].model))
    {
      StreamApart();
      hide Ready, Inv, Full, Accepted, Scan, ReadyForVideo, ReadyForAtx, Apart, PacketLength, HeaderLength, Slot,
          Gives, TooShort, LacksSync, AtxSlot, HasCut;
      hide Code, Length;
      ghost var w := stream.Rest();
      var backupAddr, backupSize := stream.addr, stream.size;
      var p := OpenPacket(stream, true);
      if p.Broken? {
        return Thrown;
      }
      AtxPacketFacts(w, p.fid);
      var ch := p.fid as int % 16;
      if p.fid as int / 16 != 0 || esAll[48 + ch] == null {
        stream.Skip(p.len);
        return Advanced;
      }
      if p.len >= 3 {
        SliceOfSlice(stream.memory, backupAddr, backupAddr + backupSize, 9 + HeaderLength(w), PacketLength(w));
      }
      r := ServeAtx(48 + ch, p.len, p.stamps, userData, Gives(w, 48 + ch));
      if r.BackPressure? {
        stream.addr, stream.size := backupAddr, backupSize;
      }
    }

    /** At the payload, hands all of it but its three-byte header to the stream in slot `i`, if it
        can. */
    method ServeAtx(i: nat, len: nat, s: Stamps, userData: u64, ghost given: seq<u8>) returns (r: Step)
      requires Valid() && 48 <= i < 64 && esAll[i] != null && len <= stream.size
      requires given == if len >= 3 then stream.memory[stream.addr + 3..stream.addr + len] else []
      modifies stream, esAll[i], esAll[i].memory
      ensures Valid()
      ensures r.BackPressure? <==> |old(esAll[i].model.rawData)| > ATX_LIMIT
      ensures r.BackPressure? || len < 3 ==> esAll[i].model == old(esAll[i].model)
      ensures r.Advanced? ==> stream.addr == old(stream.addr) + len && stream.size == old(stream.size) - len
      ensures !r.BackPressure? ==> (r.Thrown? <==> len < 3 || LacksSync(esAll[i].model))
      ensures !r.BackPressure? && len >= 3 ==> HasCut(old(esAll[i].model), esAll[i].model, given, s, userData)
      ensures forall j :: 0 <= j < 96 && j != i && esAll[j] != null ==> esAll[j].model == old(esAll[j].model)
    {
      hide Inv, Full, ReadyForVideo, ReadyForAtx, LacksSync, HasCut;
      var at := stream.addr;
      var f := FeedAtxSlot(i, stream.memory[at..at + len], s, userData);
      if f.Busy? {
        return BackPressure;
      }
      if len >= 3 {
        SliceOfSlice(stream.memory, at, at + len, 3, len);
      }
      if f.Bad? {
        return Thrown;
      }
      stream.Skip(3);
      stream.Skip(len - 3);
      return Advanced;
    }

    /** A packet that goes to no stream: what has a length of its own, or no packet at all. */
    method PlainPacket(code: nat) returns (r: Step)
      requires stream.Valid() && 4 <= stream.size && code == Code(stream.Rest())
      requires code != PRIVATE_STREAM_1 && !IsVideo(code)
      modifies stream
      ensures stream.Valid() && !r.BackPressure?
      ensures var w := old(stream.Rest());
              && (r.Thrown? <==> !Accepted(w))
              && (r.Advanced? ==> Moved(w, old(stream.addr)))
              && Slot(w) == 96
    {
      if code == PACK_START_CODE {
        if !stream.Check(14) {
          return Thrown;
        }
        stream.Skip(14);
        return Advanced;
      } else if code == SYSTEM_HEADER_START_CODE {
        if !stream.Check(18) {
          return Thrown;
        }
        stream.Skip(18);
        return Advanced;
      } else if code == PADDING_STREAM || code == PRIVATE_STREAM_2 {
        var ok := SkipPacket(stream);
        return if ok then Advanced else Thrown;
      } else if code / 0x100 == 1 {
        return Thrown;
      } else {
        stream.Skip(1);
        return Advanced;
      }
    }

    /** One packet of the demuxing loop. */
    method DemuxPacket(userData: u64) returns (r: Step)
      requires Valid() && 4 <= stream.size
      modifies stream, Footprint()
      ensures Valid()
      ensures var w := old(stream.Rest());
              && (r.Advanced? ==> Moved(w, old(stream.addr)))
              && (r.BackPressure? ==> stream.addr == old(stream.addr) && stream.size == old(stream.size))
              && (r.BackPressure? <==> Accepted(w) && old(Blocked(w)))
              && (r.BackPressure? ==> Blocked(w))
              && (r.Thrown? <==> !Accepted(w) || (!r.BackPressure? && Spoiled(w)))
              && (forall j {:trigger esAll[j]} :: 0 <= j < 96 && esAll[j] != null ==>
                    if Accepted(w) && !r.BackPressure?
                    then Received(old(esAll[j].model), esAll[j].model, j, Gives(w, j), VideoGiven(w, j), userData)
                    else esAll[j].model == old(esAll[j].model))
              && (forall j :: 0 <= j < 96 && esAll[j] != null && j != Slot(w) ==> esAll[j].model == old(esAll[j].model))
    {
      StreamApart();
      hide Ready, Inv, Full, Scan, ReadyForVideo, ReadyForAtx, Apart;
      var a := stream.addr;
      var code := ((stream.memory[a] as int * 0x100 + stream.memory[a + 1]) * 0x100 + stream.memory[a + 2]) * 0x100
                  + stream.memory[a + 3];
      ghost var w := stream.Rest();
      assert code == Code(w);
      hide Code, Accepted, Moved, TakeAll, Take, VideoOf, VideoGiven, PacketOf, Gives;
      if code == PRIVATE_STREAM_1 {
        r := PrivatePacket(userData);
      } else if IsVideo(code) {
        r := VideoPacket(userData);
      } else {
        r := PlainPacket(code);
      }
      if Accepted(w) && !r.BackPressure? {
        forall j | 0 <= j < 96 && esAll[j] != null
          ensures Received(old(esAll[j].model), esAll[j].model, j, Gives(w, j), VideoGiven(w, j), userData)
        {
          ReceivedPacket(w, old(esAll[j].model), esAll[j].model, j, userData);
        }
      }
    }

    /** The loop, up to the point where a stream has no room, the input is malformed, or fewer than
        four bytes are left. It always gets there. `n` is how far it went by whole accepted packets,
        and every open stream was fed exactly what those packets give it, in order. It waits only at a
        packet whose stream has no room, and throws only at one that is not accepted or whose ATX data
        are bad; the latter have been fed. */
    method DemuxAll(userData: u64) returns (r: Step, ghost n: nat)
      requires Valid()
      modifies stream, Footprint()
      ensures Valid() && n <= |old(stream.Rest())| && Boundary(old(stream.Rest()), n)
      ensures !r.Thrown? ==> stream.addr == old(stream.addr) + n && stream.size == old(stream.size) - n
      ensures r.Advanced? <==> |old(stream.Rest())[n..]| < 4
      ensures r.BackPressure? ==> Accepted(old(stream.Rest())[n..]) && Blocked(old(stream.Rest())[n..])
      ensures r.Thrown? ==> !Accepted(old(stream.Rest())[n..]) || Spoiled(old(stream.Rest())[n..])
      ensures var w := old(stream.Rest());
              forall j {:trigger esAll[j]} :: 0 <= j < 96 && esAll[j] != null ==>
                var more := r.Thrown? && Accepted(w[n..]);
                Received(old(esAll[j].model), esAll[j].model, j,
                         FedBy(w, n, j) + if more then Gives(w[n..], j) else [],
                         PacketsBy(w, n, j) + if more then VideoGiven(w[n..], j) else [], userData)
    {
      StreamApart();
      hide Ready, Inv, Full, Scan, Accepted, ReadyForVideo, ReadyForAtx, Apart, Boundary, Gives, Slot, Blocked, Spoiled;
      hide FedBy, PacketLength, PacketsBy, VideoGiven, Received;
      ghost var w := stream.Rest();
      n := 0;
      BoundaryAtStart(w);
      forall j | 0 <= j < 96 && esAll[j] != null
        ensures Received(esAll[j].model, esAll[j].model, j, FedBy(w, 0, j), PacketsBy(w, 0, j), userData)
      {
        FedByNone(w, j);
        ReceivedNothing(esAll[j].model, j, userData);
      }
      while true
        invariant Valid() && n <= |w| && Boundary(w, n)
        invariant stream.addr == old(stream.addr) + n && stream.size == |w| - n
        invariant forall j {:trigger esAll[j]} :: 0 <= j < 96 && esAll[j] != null ==>
                    Received(old(esAll[j].model), esAll[j].model, j, FedBy(w, n, j), PacketsBy(w, n, j), userData)
        decreases stream.size
      {
        if !stream.Check(4) {
          NothingMore<u8>();
          NothingMore<Packet>();
          return Advanced, n;
        }
        SliceOfSlice(stream.memory, old(stream.addr), old(stream.addr + stream.size), n, |w|);
        assert stream.Rest() == w[n..];
        label Before:
        r := DemuxPacket(userData);
        if Accepted(w[n..]) && !r.BackPressure? {
          forall j | 0 <= j < 96 && esAll[j] != null
            ensures Received(old(esAll[j].model), esAll[j].model, j, FedBy(w, n, j) + Gives(w[n..], j),
                             PacketsBy(w, n, j) + VideoGiven(w[n..], j), userData)
          {
            ReceivedCat(old(esAll[j].model), old@Before(esAll[j].model), esAll[j].model, j, FedBy(w, n, j),
                        PacketsBy(w, n, j), Gives(w[n..], j), VideoGiven(w[n..], j), userData);
          }
        }
        if !r.Advanced? {
          NothingMore<u8>();
          NothingMore<Packet>();
          return r, n;
        }
        BoundaryStep(w, n);
        forall j: nat
          ensures FedBy(w, n + PacketLength(w[n..]), j) == FedBy(w, n, j) + Gives(w[n..], j)
          ensures PacketsBy(w, n + PacketLength(w[n..]), j) == PacketsBy(w, n, j) + VideoGiven(w[n..], j)
        {
          FedByStep(w, n, j);
        }
        n := n + PacketLength(w[n..]);
      }
    }
  }

  /** What the whole packets in the first `n` bytes of `w` give to slot `i`, in order. */
  ghost function FedBy(w: seq<u8>, n: nat, i: nat): seq<u8>
    requires Boundary(w, n) && n <= |w|
    decreases n
  {
    if n == 0 then [] else Gives(w, i) + FedBy(w[PacketLength(w)..], n - PacketLength(w), i)
  }

  /** The video packets among them that go to slot `i`, in order. */
  ghost function PacketsBy(w: seq<u8>, n: nat, i: nat): (ps: seq<Packet>)
    requires Boundary(w, n) && n <= |w|
    ensures forall p :: p in ps ==> p.bytes != []
    decreases n
  {
    if n == 0 then [] else VideoGiven(w, i) + PacketsBy(w[PacketLength(w)..], n - PacketLength(w), i)
  }

  lemma BoundaryAtStart(w: seq<u8>)
    ensures Boundary(w, 0)
  {
  }

  /** `n` bytes of `w` are whole accepted packets. */
  ghost predicate Boundary(w: seq<u8>, n: nat) {
    || n == 0
    || (4 <= |w| && Accepted(w) && PacketLength(w) <= n && Boundary(w[PacketLength(w)..], n - PacketLength(w)))
  }

  lemma BoundaryFirst(w: seq<u8>, n: nat)
    requires 0 < n && Boundary(w, n)
    ensures 4 <= |w| && Accepted(w) && 0 < PacketLength(w) <= n && Boundary(w[PacketLength(w)..], n - PacketLength(w))
  {
    hide Accepted;
  }

  lemma BoundaryMore(w: seq<u8>, n: nat)
    requires 4 <= |w| && Accepted(w) && PacketLength(w) <= n && Boundary(w[PacketLength(w)..], n - PacketLength(w))
    ensures Boundary(w, n)
  {
    hide Accepted, PacketLength;
  }

  lemma PacketIsWhole(w: seq<u8>)
    requires 4 <= |w| && Accepted(w)
    ensures 0 < PacketLength(w) <= |w|
  {
    hide Scan;
  }

  lemma {:induction false} BoundaryStep(w: seq<u8>, n: nat)
    requires n <= |w| && Boundary(w, n) && 4 <= |w[n..]| && Accepted(w[n..])
    ensures Boundary(w, n + PacketLength(w[n..])) && n + PacketLength(w[n..]) <= |w| && PacketLength(w[n..]) > 0
    decreases n
  {
    hide Boundary, Accepted, PacketLength;
    PacketIsWhole(w[n..]);
    var m := PacketLength(w[n..]);
    if n == 0 {
      assert w[n..] == w;
      BoundaryAtStart(w[m..]);
      BoundaryMore(w, m);
    } else {
      BoundaryFirst(w, n);
      var k := PacketLength(w);
      assert w[k..][n - k..] == w[n..];
      BoundaryStep(w[k..], n - k);
      BoundaryMore(w, n + m);
    }
  }

  lemma FedByFirst(w: seq<u8>, n: nat, i: nat)
    requires 0 < n <= |w| && Boundary(w, n)
    ensures
      && 4 <= |w| && Accepted(w) && 0 < PacketLength(w) <= n && Boundary(w[PacketLength(w)..], n - PacketLength(w))
      && FedBy(w, n, i) == Gives(w, i) + FedBy(w[PacketLength(w)..], n - PacketLength(w), i)
      && PacketsBy(w, n, i) == VideoGiven(w, i) + PacketsBy(w[PacketLength(w)..], n - PacketLength(w), i)
  {
    BoundaryFirst(w, n);
    hide Accepted, PacketLength, Gives, VideoGiven, Boundary;
  }

  lemma FedByNone(w: seq<u8>, i: nat)
    ensures Boundary(w, 0) && FedBy(w, 0, i) == [] && PacketsBy(w, 0, i) == []
  {
  }

  lemma Associate<T>(p: seq<T>, q: seq<T>, r: seq<T>)
    ensures p + (q + r) == (p + q) + r
  {
  }

  /** A packet more extends what was given. */
  lemma {:induction false} FedByStep(w: seq<u8>, n: nat, i: nat)
    requires n <= |w| && Boundary(w, n) && 4 <= |w[n..]| && Accepted(w[n..])
    requires Boundary(w, n + PacketLength(w[n..])) && n + PacketLength(w[n..]) <= |w| && PacketLength(w[n..]) > 0
    ensures FedBy(w, n + PacketLength(w[n..]), i) == FedBy(w, n, i) + Gives(w[n..], i)
    ensures PacketsBy(w, n + PacketLength(w[n..]), i) == PacketsBy(w, n, i) + VideoGiven(w[n..], i)
    decreases n
  {
    hide FedBy, Gives, Boundary, Accepted, PacketLength, PacketsBy, VideoGiven;
    var m := PacketLength(w[n..]);
    FedByFirst(w, n + m, i);
    if n == 0 {
      assert w[n..] == w;
      FedByNone(w, i);
      FedByNone(w[m..], i);
      assert Gives(w, i) + [] == [] + Gives(w, i) && VideoGiven(w, i) + [] == [] + VideoGiven(w, i);
    } else {
      FedByFirst(w, n, i);
      var k := PacketLength(w);
      assert w[k..][n - k..] == w[n..];
      FedByStep(w[k..], n - k, i);
      Associate(Gives(w, i), FedBy(w[k..], n - k, i), Gives(w[n..], i));
      Associate(VideoGiven(w, i), PacketsBy(w[k..], n - k, i), VideoGiven(w[n..], i));
    }
  }

  lemma NothingMore<T>()
    ensures forall s: seq<T> {:trigger s + []} :: s + [] == s
  {
  }
}
