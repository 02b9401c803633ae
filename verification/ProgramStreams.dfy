/** Program streams as they are written: what the demuxer makes of them. */
module ProgramStreams {
  import opened MachineInts
  import opened PesHeaders
  import opened VideoUnits
  import opened PacketFraming

  /** A pack header; a system header; padding or private stream 2; a packet of a video stream; a packet of
      private stream 1 with the number of the stream and three bytes before its payload. */
  datatype Unit =
    | Pack(rest: seq<u8>)
    | System(rest: seq<u8>)
    | Ignored(private2: bool, body: seq<u8>)
    | Video(ch: u8, flags: seq<u8>, header: seq<u8>, payload: seq<u8>)
    | Private1(fid: u8, flags: seq<u8>, header: seq<u8>, unknown: seq<u8>, payload: seq<u8>)

  /** The sizes are those of the fields, and the header is understood. */
  predicate IsUnit(u: Unit) {
    match u
    case Pack(rest) => |rest| == 10
    case System(rest) => |rest| == 14
    case Ignored(_, body) => |body| < 0x1_0000
    case Video(ch, flags, header, payload) =>
      && ch < 16 && |flags| == 2 && |header| < 0x100 && 3 + |header| + |payload| < 0x1_0000 && Scan(header).isOk
    case Private1(fid, flags, header, unknown, payload) =>
      && |flags| == 2 && |header| < 0x100 && |unknown| == 3 && 7 + |header| + |payload| < 0x1_0000 && Scan(header).isOk
  }

  function StartCode(id: u8): seq<u8> {
    [0, 0, 1, id]
  }

  /** A length, its high byte first. */
  function LengthField(n: nat): seq<u8>
    requires n < 0x1_0000
  {
    [n / 0x100, n % 0x100]
  }

  function Header(flags: seq<u8>, header: seq<u8>): seq<u8>
    requires |header| < 0x100
  {
    flags + [|header| as u8] + header
  }

  function Bytes(u: Unit): (b: seq<u8>)
    requires IsUnit(u)
    ensures |b| >= 4
  {
    match u
    case Pack(rest) => StartCode(0xba) + rest
    case System(rest) => StartCode(0xbb) + rest
    case Ignored(private2, body) => StartCode(if private2 then 0xbf else 0xbe) + LengthField(|body|) + body
    case Video(ch, flags, header, payload) =>
      StartCode(0xe0 + ch) + LengthField(3 + |header| + |payload|) + Header(flags, header) + payload
    case Private1(fid, flags, header, unknown, payload) =>
      StartCode(0xbd) + LengthField(7 + |header| + |payload|) + Header(flags, header) + [fid] + unknown + payload
  }

  /** What is meant for slot `j`: a video stream is handed whole packets, an ATRAC stream payloads. */
  function MeantFor(u: Unit, j: nat): seq<u8>
    requires IsUnit(u)
  {
    match u
    case Video(ch, _, _, _) => if j == ch then Bytes(u) else []
    case Private1(fid, _, _, _, payload) => if fid < 16 && j == 48 + fid as int then payload else []
    case _ => []
  }

  function PacketsFor(u: Unit, j: nat): seq<Packet>
    requires IsUnit(u)
  {
    if u.Video? && j == u.ch then [Packet(Bytes(u), Scan(u.header))] else []
  }

  /** The demuxer takes the unit for what it is, whatever follows. */
  ghost predicate IsTaken(w: seq<u8>, u: Unit)
    requires IsUnit(u)
  {
    && 4 <= |w| && Accepted(w) && PacketLength(w) == |Bytes(u)|
    && forall j: nat {:trigger Gives(w, j)} :: j < 96 ==>
         Gives(w, j) == MeantFor(u, j) && VideoGiven(w, j) == PacketsFor(u, j)
  }

  lemma CodeOf(w: seq<u8>, id: u8)
    requires 4 <= |w| && w[..4] == StartCode(id)
    ensures Code(w) == 0x100 + id as int
  {
    assert w[0] == w[..4][0] && w[1] == w[..4][1] && w[2] == w[..4][2] && w[3] == w[..4][3];
  }

  /** What goes to no slot. */
  lemma TakenByNobody(w: seq<u8>, u: Unit)
    requires IsUnit(u) && !u.Video? && (u.Private1? ==> u.fid >= 16)
    requires 4 <= |w| && Accepted(w) && PacketLength(w) == |Bytes(u)| && Slot(w) == 96
    ensures IsTaken(w, u)
  {
    hide Accepted, PacketLength, Slot, Bytes, Gives, VideoGiven;
    forall j: nat | j < 96 ensures Gives(w, j) == MeantFor(u, j) && VideoGiven(w, j) == PacketsFor(u, j) {
      GivesElsewhere(w, j);
    }
  }

  lemma PlainTaken(u: Unit, tail: seq<u8>)
    requires IsUnit(u) && (u.Pack? || u.System?)
    ensures IsTaken(Bytes(u) + tail, u)
  {
    var w := Bytes(u) + tail;
    assert w[..4] == StartCode(if u.Pack? then 0xba else 0xbb);
    CodeOf(w, if u.Pack? then 0xba else 0xbb);
    hide Scan, Code;
    assert Accepted(w) && PacketLength(w) == |Bytes(u)|;
    TakenByNobody(w, u);
  }

  lemma LengthOf(w: seq<u8>, n: nat)
    requires n < 0x1_0000 && 6 <= |w| && w[4..6] == LengthField(n)
    ensures Length(w) == n
  {
    assert w[4] == w[4..6][0] && w[5] == w[4..6][1];
  }

  lemma IgnoredTaken(u: Unit, tail: seq<u8>)
    requires IsUnit(u) && u.Ignored?
    ensures IsTaken(Bytes(u) + tail, u)
  {
    var w := Bytes(u) + tail;
    var id := if u.private2 then 0xbf else 0xbe;
    assert w[..4] == StartCode(id) && w[4..6] == LengthField(|u.body|);
    CodeOf(w, id);
    LengthOf(w, |u.body|);
    hide Scan, Code, Length;
    assert Accepted(w) && PacketLength(w) == |Bytes(u)|;
    TakenByNobody(w, u);
  }

  /** The fields of a packet with a PES header, by their places. */
  lemma PesPlaces(id: u8, n: nat, flags: seq<u8>, header: seq<u8>, rest: seq<u8>) returns (w: seq<u8>)
    requires n < 0x1_0000 && |flags| == 2 && |header| < 0x100
    ensures w == StartCode(id) + LengthField(n) + Header(flags, header) + rest
    ensures |w| == 9 + |header| + |rest| && Code(w) == 0x100 + id as int && Length(w) == n
    ensures PesFits(w[6..]) && w[8] as int == |header| && w[9..9 + |header|] == header && w[9 + |header|..] == rest
  {
    w := StartCode(id) + LengthField(n) + Header(flags, header) + rest;
    assert w[..4] == StartCode(id) && w[4..6] == LengthField(n);
    CodeOf(w, id);
    LengthOf(w, n);
    hide Code, Length, StartCode, LengthField;
    assert w[6..] == flags + [|header| as u8] + header + rest;
    assert w[8] == w[6..][2] && w[6..][2] == |header|;
    assert w[9..] == w[6..][3..] == header + rest;
    assert w[9..9 + |header|] == w[9..][..|header|] && w[9 + |header|..] == w[9..][|header|..];
  }

  lemma VideoBytes(u: Unit, tail: seq<u8>)
    requires IsUnit(u) && u.Video?
    ensures |Bytes(u)| == 9 + |u.header| + |u.payload|
    ensures Bytes(u) + tail == StartCode(0xe0 + u.ch) + LengthField(3 + |u.header| + |u.payload|)
                               + Header(u.flags, u.header) + (u.payload + tail)
  {
    FieldSizes(u.flags, u.header, 3 + |u.header| + |u.payload|);
    hide StartCode, LengthField, Header, Scan;
    assert |StartCode(0xe0 + u.ch)| == 4 by { StartCodeSize(0xe0 + u.ch); }
  }

  lemma StartCodeSize(id: u8)
    ensures |StartCode(id)| == 4
  {
  }

  lemma Prefix<T>(s: seq<T>, tail: seq<T>)
    ensures (s + tail)[..|s|] == s
  {
  }

  /** Where the bytes of a video packet are, and that it is accepted. */
  lemma VideoAccepted(u: Unit, tail: seq<u8>) returns (w: seq<u8>)
    requires IsUnit(u) && u.Video?
    ensures w == Bytes(u) + tail && 4 <= |w| && Code(w) == 0x1e0 + u.ch as int
    ensures Accepted(w) && PacketLength(w) == |Bytes(u)| && w[..|Bytes(u)|] == Bytes(u)
    ensures 9 + |u.header| <= |w| && w[8] as int == |u.header| && w[9..9 + |u.header|] == u.header
  {
    var n := 3 + |u.header| + |u.payload|;
    w := PesPlaces(0xe0 + u.ch, n, u.flags, u.header, u.payload + tail);
    VideoBytes(u, tail);
    hide Bytes, Scan, Code, Length, Accepted, PacketLength, StartCode, LengthField, Header;
    Prefix(Bytes(u), tail);
    AcceptedExactly(w, false);
  }

  lemma VideoTaken(u: Unit, tail: seq<u8>)
    requires IsUnit(u) && u.Video?
    ensures IsTaken(Bytes(u) + tail, u)
  {
    var w := VideoAccepted(u, tail);
    GivenIs(w);
    PacketIs(w);
    hide Bytes, Accepted, PacketLength, Scan, Code, Length, Slot, PacketOf;
    VideoGives(w, u.ch);
    forall j: nat | j < 96 ensures Gives(w, j) == MeantFor(u, j) && VideoGiven(w, j) == PacketsFor(u, j) {
      if j != u.ch as int {
        GivesElsewhere(w, j);
      }
    }
  }

  lemma VideoGives(w: seq<u8>, ch: u8)
    requires 4 <= |w| && Accepted(w) && ch < 16 && Code(w) == 0x1e0 + ch as int && PacketLength(w) <= |w|
    ensures Slot(w) == ch as int && Gives(w, ch) == w[..PacketLength(w)]
  {
    hide Accepted, PacketLength;
  }

  lemma PayloadPlace(w: seq<u8>, at: nat, fid: u8, unknown: seq<u8>, payload: seq<u8>, tail: seq<u8>)
    requires at <= |w| && |unknown| == 3 && w[at..] == [fid] + unknown + payload + tail
    ensures at + 4 + |payload| <= |w| && w[at] == fid && w[at + 4..at + 4 + |payload|] == payload
  {
    var rest := w[at..];
    assert rest[0] == fid && rest[4..4 + |payload|] == payload;
    assert w[at + 4..at + 4 + |payload|] == rest[4..4 + |payload|];
  }

  lemma Private1Bytes(u: Unit, tail: seq<u8>)
    requires IsUnit(u) && u.Private1?
    ensures |Bytes(u)| == 13 + |u.header| + |u.payload|
    ensures Bytes(u) + tail == StartCode(0xbd) + LengthField(7 + |u.header| + |u.payload|) + Header(u.flags, u.header)
                               + ([u.fid] + u.unknown + u.payload + tail)
  {
    hide StartCode, LengthField, Header, Scan;
    assert |StartCode(0xbd)| == 4 && |LengthField(7 + |u.header| + |u.payload|)| == 2
        && |Header(u.flags, u.header)| == 3 + |u.header| by {
      FieldSizes(u.flags, u.header, 7 + |u.header| + |u.payload|);
    }
  }

  lemma FieldSizes(flags: seq<u8>, header: seq<u8>, n: nat)
    requires |flags| == 2 && |header| < 0x100 && n < 0x1_0000
    ensures |StartCode(0xbd)| == 4 && |LengthField(n)| == 2 && |Header(flags, header)| == 3 + |header|
  {
  }

  lemma Private1Accepted(u: Unit, tail: seq<u8>) returns (w: seq<u8>)
    requires IsUnit(u) && u.Private1?
    ensures w == Bytes(u) + tail && 4 <= |w| && Code(w) == PRIVATE_STREAM_1
    ensures Accepted(w) && PacketLength(w) == |Bytes(u)| <= |w| && |Bytes(u)| == 13 + |u.header| + |u.payload|
    ensures w[8] as int == |u.header| && HeaderLength(w) == 4 + |u.header|
    ensures w[9 + |u.header|] == u.fid && w[13 + |u.header|..|Bytes(u)|] == u.payload
  {
    var n, k := 7 + |u.header| + |u.payload|, |u.header|;
    var rest := [u.fid] + u.unknown + u.payload + tail;
    w := PesPlaces(0xbd, n, u.flags, u.header, rest);
    Private1Bytes(u, tail);
    hide Bytes, Scan, Code, Length, Accepted, PacketLength, HeaderLength, StartCode, LengthField, Header;
    PayloadPlace(w, 9 + k, u.fid, u.unknown, u.payload, tail);
    AcceptedExactly(w, true);
  }

  lemma Private1Taken(u: Unit, tail: seq<u8>)
    requires IsUnit(u) && u.Private1?
    ensures IsTaken(Bytes(u) + tail, u)
  {
    var w := Private1Accepted(u, tail);
    hide Bytes, Accepted, PacketLength, HeaderLength, Scan, Code, Length, Slot, AtxSlot, Gives, VideoGiven;
    AtxPacketFacts(w, u.fid);
    if u.fid >= 16 {
      TakenByNobody(w, u);
    } else {
      GivenIs(w);
      forall j: nat | j < 96 ensures Gives(w, j) == MeantFor(u, j) && VideoGiven(w, j) == PacketsFor(u, j) {
        if j != 48 + u.fid as int {
          GivesElsewhere(w, j);
        }
      }
    }
  }

  /** Whatever follows. */
  lemma UnitIsTaken(u: Unit, tail: seq<u8>)
    requires IsUnit(u)
    ensures IsTaken(Bytes(u) + tail, u)
  {
    match u
    case Ignored(_, _) => IgnoredTaken(u, tail);
    case Video(_, _, _, _) => VideoTaken(u, tail);
    case Private1(_, _, _, _, _) => Private1Taken(u, tail);
    case _ => PlainTaken(u, tail);
  }

  predicate AreUnits(us: seq<Unit>) {
    forall i :: 0 <= i < |us| ==> IsUnit(us[i])
  }

  /** A whole stream, what it means for slot `j`, and the video packets for it. */
  function Stream(us: seq<Unit>): seq<u8>
    requires AreUnits(us)
  {
    if us == [] then [] else Bytes(us[0]) + Stream(us[1..])
  }

  function AllFor(us: seq<Unit>, j: nat): seq<u8>
    requires AreUnits(us)
  {
    if us == [] then [] else MeantFor(us[0], j) + AllFor(us[1..], j)
  }

  function AllPacketsFor(us: seq<Unit>, j: nat): seq<Packet>
    requires AreUnits(us)
  {
    if us == [] then [] else PacketsFor(us[0], j) + AllPacketsFor(us[1..], j)
  }

  /** Demultiplexing inverts multiplexing: the bytes of a stream are whole packets to the demuxer, and each
      slot is handed exactly what is meant for it. */
  lemma {:induction false} StreamDecodes(us: seq<Unit>, tail: seq<u8>, j: nat)
    requires AreUnits(us) && j < 96
    ensures var w, n := Stream(us) + tail, |Stream(us)|;
            Boundary(w, n) && FedBy(w, n, j) == AllFor(us, j) && PacketsBy(w, n, j) == AllPacketsFor(us, j)
    decreases |us|
  {
    hide IsUnit, Bytes, MeantFor, PacketsFor, Accepted, PacketLength, Gives, VideoGiven, Boundary, FedBy, PacketsBy;
    var w, n := Stream(us) + tail, |Stream(us)|;
    if us == [] {
      FedByNone(w, j);
    } else {
      var rest := Stream(us[1..]) + tail;
      assert w == Bytes(us[0]) + rest;
      UnitIsTaken(us[0], rest);
      var k := |Bytes(us[0])|;
      assert w[k..] == rest && n - k == |Stream(us[1..])|;
      StreamDecodes(us[1..], tail, j);
      BoundaryMore(w, n);
      FedByFirst(w, n, j);
      assert Gives(w, j) == MeantFor(us[0], j) && VideoGiven(w, j) == PacketsFor(us[0], j);
    }
  }

  /** Bytes that begin no start code are skipped one by one. */
  lemma NoStartCode(w: seq<u8>, j: nat)
    requires 4 <= |w| && w[..3] != [0, 0, 1] && j < 96
    ensures Accepted(w) && PacketLength(w) == 1 && Gives(w, j) == []
  {
    assert w[..3] == [w[0], w[1], w[2]];
    hide Scan;
    GivesElsewhere(w, j);
  }

  /** Any other start code is refused. */
  lemma OtherStartCode(w: seq<u8>)
    requires 4 <= |w| && w[..3] == [0, 0, 1]
    requires w[3] !in {0xba, 0xbb, 0xbd, 0xbe, 0xbf} && !(0xe0 <= w[3] <= 0xef)
    ensures !Accepted(w)
  {
    assert w[..4] == StartCode(w[3]) by {
      assert w[..3] == w[..4][..3];
    }
    CodeOf(w, w[3]);
    hide Scan, Code;
  }
}
