/** The byte stream a demuxer reads, and the packetized-elementary-stream header in it
    (section 2.4.3.6 of ISO/IEC 13818-1). */
module PesHeaders {
  import opened MachineInts

  /** A cursor over guest memory. */
  class DemuxerStream {
    const memory: seq<u8>
    var addr: nat
    var size: nat

    ghost predicate Valid()
      reads this
    {
      addr + size <= |memory|
    }

    /** The bytes not yet consumed. */
    ghost function Rest(): seq<u8>
      reads this
      requires Valid()
    {
      memory[addr..addr + size]
    }

    constructor (memory: seq<u8>, addr: nat, size: nat)
      requires addr + size <= |memory|
      ensures Valid() && this.memory == memory && this.addr == addr && this.size == size
    {
      this.memory, this.addr, this.size := memory, addr, size;
    }

    method Get(n: nat) returns (ok: bool, bytes: seq<u8>)
      requires Valid()
      modifies this
      ensures Valid() && (ok <==> n <= old(size))
      ensures ok ==> bytes == memory[old(addr)..old(addr) + n] && addr == old(addr) + n && size == old(size) - n
      ensures !ok ==> bytes == [] && addr == old(addr) && size == old(size)
    {
      if n > size {
        return false, [];
      }
      bytes := memory[addr..addr + n];
      addr := addr + n;
      size := size - n;
      ok := true;
    }

    method Skip(count: nat)
      requires Valid() && count <= size
      modifies this
      ensures Valid() && addr == old(addr) + count && size == old(size) - count
    {
      addr := addr + count;
      size := if size > count then size - count else 0;
    }

    predicate Check(count: nat)
      reads this
    {
      count <= size
    }
  }

  lemma SliceOfSlice<T>(s: seq<T>, lo: nat, hi: nat, i: nat, j: nat)
    requires lo <= hi <= |s| && i <= j <= hi - lo
    ensures s[lo..hi][i..j] == s[lo + i..lo + j]
  {
    var t := s[lo..hi][i..j];
    assert |t| == j - i && forall k :: 0 <= k < |t| ==> t[k] == s[lo + i + k];
  }

  lemma PrefixOfSlice<T>(s: seq<T>, lo: nat, hi: nat, n: nat)
    requires lo <= hi <= |s| && n <= hi - lo
    ensures s[lo..hi][..n] == s[lo..lo + n]
  {
  }

  // ---- time stamps

  /** `get_ts`: the five bytes of a stamp, shifted and joined by or. The shifts of the second and the
      third byte make them share bit 21. */
  function GetTs(b: seq<u8>): u64
    requires |b| == 5
  {
    var middle: nat := b[2] as int / 2 % 64;
    var shared := if b[1] % 2 == 1 && middle >= 32 then 0x20_0000 else 0;
    (b[0] as int / 2 % 8) * 0x4000_0000 + (b[1] as int * 0x20_0000 + middle * 0x1_0000 - shared)
        + b[3] as int * 0x80 + b[4] as int / 2
  }

  /** The 33 bits that these bytes stand for by section 2.4.3.7 of ISO/IEC 13818-1. */
  function StandardTs(b: seq<u8>): u64
    requires |b| == 5
  {
    (b[0] as int / 2 % 8) * 0x4000_0000 + b[1] as int * 0x40_0000 + (b[2] as int / 2) * 0x8000 + b[3] as int * 0x80
        + b[4] as int / 2
  }

  /** The five bytes of a 33-bit stamp: a marker and bits 32 to 30, 29 to 22, 21 to 15, 14 to 7, 6 to 0,
      with a marker bit behind the first, the third and the last part. */
  function TsBytes(marker: nat, t: nat): (b: seq<u8>)
    requires marker < 16 && t < 0x2_0000_0000
    ensures |b| == 5
  {
    var high, middle, low := t / 0x4000_0000, t / 0x8000 % 0x8000, t % 0x8000;
    [marker * 16 + high * 2 + 1, middle / 0x80, middle % 0x80 * 2 + 1, low / 0x80, low % 0x80 * 2 + 1]
  }

  /** What the source makes of the 15 middle bits: bit 6 is lost, those above it come out one place too
      low and those below it one place too high, so that bits 5 and 7 meet. */
  function Misread(middle: nat): nat
    requires middle < 0x8000
  {
    var above, below := middle / 0x80, middle % 0x40;
    above * 0x40 + below * 2 - if above % 2 == 1 && below >= 0x20 then 0x40 else 0
  }

  lemma StampsRoundTrip(marker: nat, t: nat)
    requires marker < 16 && t < 0x2_0000_0000
    ensures Nibble(TsBytes(marker, t)[0]) == marker
    ensures StandardTs(TsBytes(marker, t)) == t
    ensures GetTs(TsBytes(marker, t))
         == t / 0x4000_0000 * 0x4000_0000 + Misread(t / 0x8000 % 0x8000) * 0x8000 + t % 0x8000
  {
    ThreeParts(t);
    hide GetTs, StandardTs, Misread, Nibble;
    Parts(TsBytes(marker, t), marker, t / 0x4000_0000, t / 0x8000 % 0x8000, t % 0x8000);
  }

  lemma ThreeParts(t: nat)
    requires t < 0x2_0000_0000
    ensures t == t / 0x4000_0000 * 0x4000_0000 + t / 0x8000 % 0x8000 * 0x8000 + t % 0x8000
  {
    assert t / 0x8000 / 0x8000 == t / 0x4000_0000;
  }

  lemma Parts(b: seq<u8>, marker: nat, high: nat, middle: nat, low: nat)
    requires marker < 16 && high < 8 && middle < 0x8000 && low < 0x8000
    requires b == [marker * 16 + high * 2 + 1, middle / 0x80, middle % 0x80 * 2 + 1, low / 0x80, low % 0x80 * 2 + 1]
    ensures Nibble(b[0]) == marker
    ensures StandardTs(b) == high * 0x4000_0000 + middle * 0x8000 + low
    ensures GetTs(b) == high * 0x4000_0000 + Misread(middle) * 0x8000 + low
  {
    FirstPart(marker, high);
    OddHalf(middle % 0x80);
    OddHalf(low % 0x80);
    LowSix(middle);
    hide Misread;
    MisreadIs(middle);
  }

  lemma FirstPart(marker: nat, high: nat)
    requires high < 8
    ensures (marker * 16 + high * 2 + 1) / 2 % 8 == high && (marker * 16 + high * 2 + 1) / 16 == marker
  {
    assert (marker * 16 + high * 2 + 1) / 2 == marker * 8 + high;
  }

  lemma OddHalf(x: nat)
    ensures (x * 2 + 1) / 2 == x
  {
  }

  lemma LowSix(x: nat)
    ensures x % 0x80 % 0x40 == x % 0x40
  {
  }

  lemma MisreadIs(middle: nat)
    requires middle < 0x8000
    ensures Misread(middle) * 0x8000
         == middle / 0x80 * 0x20_0000 + middle % 0x40 * 0x1_0000
            - if middle / 0x80 % 2 == 1 && middle % 0x40 >= 32 then 0x20_0000 else 0
  {
  }

  /** The stamp is read as the standard means it exactly when its bits 15 to 29 are zero. */
  lemma StampsReadExactly(b: seq<u8>)
    requires |b| == 5
    ensures GetTs(b) == StandardTs(b) <==> b[1] == 0 && b[2] < 2
    ensures GetTs(b) == StandardTs(b) <==> StandardTs(b) / 0x8000 % 0x8000 == 0
  {
    var n: nat := b[2] / 2;
    assert n == n % 64 + 64 * (n / 64);
    MiddleBits(b);
  }

  lemma MiddlePart(high: nat, mid: nat, low: nat)
    requires mid < 0x8000 && low < 0x8000
    ensures ((high * 0x8000 + mid) * 0x8000 + low) / 0x8000 % 0x8000 == mid
  {
    assert ((high * 0x8000 + mid) * 0x8000 + low) / 0x8000 == high * 0x8000 + mid;
  }

  lemma MiddleBits(b: seq<u8>)
    requires |b| == 5
    ensures StandardTs(b) / 0x8000 % 0x8000 == b[1] as int * 0x80 + b[2] / 2
  {
    var low: nat, mid: nat, high: nat := b[3] as int * 0x80 + b[4] / 2, b[1] as int * 0x80 + b[2] / 2, b[0] / 2 % 8;
    assert StandardTs(b) == (high * 0x8000 + mid) * 0x8000 + low;
    hide StandardTs;
    MiddlePart(high, mid, low);
  }

  /** What the optional fields of a header amount to. */
  datatype Stamps = Stamps(isOk: bool, hasTs: bool, pts: u64, dts: u64)

  const NoStamps := Stamps(true, false, TS_INVALID, TS_INVALID)

  function Nibble(v: u8): nat { v / 16 }

  /** Reading of the header bytes that follow the length byte: stuffing is skipped, a PTS takes
      five bytes, a PTS with a DTS ten, and anything else ends the reading. */
  function Scan(b: seq<u8>): Stamps {
    ScanFrom(b, NoStamps)
  }

  function ScanFrom(b: seq<u8>, s: Stamps): Stamps {
    if b == [] then s
    else if b[0] == 0xff then ScanFrom(b[1..], s)
    else if Nibble(b[0]) == 2 && |b| >= 5 then ScanFrom(b[5..], s.(hasTs := true, pts := GetTs(b[..5])))
    else if Nibble(b[0]) == 3 && |b| >= 10 then
      var t := s.(hasTs := true, pts := GetTs(b[..5]));
      if Nibble(b[5]) != 1 then t.(isOk := false) else ScanFrom(b[10..], t.(dts := GetTs(b[5..10])))
    else s
  }

  function Stuffing(n: nat): seq<u8> {
    if n == 0 then [] else [0xff] + Stuffing(n - 1)
  }

  lemma {:induction false} ScanStuffing(n: nat, s: Stamps)
    ensures ScanFrom(Stuffing(n), s) == s
  {
    if n > 0 {
      assert Stuffing(n)[1..] == Stuffing(n - 1);
      ScanStuffing(n - 1, s);
    }
  }

  /** The three header forms of the standard are understood: no stamp, a PTS (marker 0010), and a
      PTS with a DTS (markers 0011 and 0001), each followed by stuffing. */
  lemma StandardHeaders(pts: seq<u8>, dts: seq<u8>, n: nat)
    requires |pts| == |dts| == 5
    ensures Scan(Stuffing(n)) == NoStamps
    ensures Nibble(pts[0]) == 2 ==> Scan(pts + Stuffing(n)) == Stamps(true, true, GetTs(pts), TS_INVALID)
    ensures Nibble(pts[0]) == 3 && Nibble(dts[0]) == 1 ==>
              Scan(pts + dts + Stuffing(n)) == Stamps(true, true, GetTs(pts), GetTs(dts))
  {
    hide GetTs;
    ScanStuffing(n, NoStamps);
    ScanStuffing(n, Stamps(true, true, GetTs(pts), TS_INVALID));
    ScanStuffing(n, Stamps(true, true, GetTs(pts), GetTs(dts)));
    assert (pts + Stuffing(n))[..5] == pts && (pts + Stuffing(n))[5..] == Stuffing(n);
    var b := pts + dts + Stuffing(n);
    assert b[..5] == pts && b[5..10] == dts && b[10..] == Stuffing(n);
  }

  /** A whole optional field, by the bytes it occupies. */
  datatype Item = Stuff | Pts(pts: seq<u8>) | PtsDts(pts: seq<u8>, dts: seq<u8>)

  predicate IsItem(f: Item) {
    match f
    case Stuff => true
    case Pts(pts) => |pts| == 5 && Nibble(pts[0]) == 2
    case PtsDts(pts, dts) => |pts| == |dts| == 5 && Nibble(pts[0]) == 3 && Nibble(dts[0]) == 1
  }

  function ItemBytes(f: Item): seq<u8> {
    match f
    case Stuff => [0xff]
    case Pts(pts) => pts
    case PtsDts(pts, dts) => pts + dts
  }

  predicate AreItems(fs: seq<Item>) {
    forall i :: 0 <= i < |fs| ==> IsItem(fs[i])
  }

  function Bytes(fs: seq<Item>): seq<u8> {
    if fs == [] then [] else ItemBytes(fs[0]) + Bytes(fs[1..])
  }

  predicate HasStamp(fs: seq<Item>) {
    exists i :: 0 <= i < |fs| && !fs[i].Stuff?
  }

  /** `b` begins with a PTS that announces a DTS, and there are bytes for one, but it is not there. */
  predicate LacksDts(b: seq<u8>) {
    |b| >= 10 && Nibble(b[0]) == 3 && Nibble(b[5]) != 1
  }

  /** No whole field begins `b`. */
  predicate Ends(b: seq<u8>) {
    b == [] || (b[0] != 0xff && !(Nibble(b[0]) == 2 && |b| >= 5)
        && !(Nibble(b[0]) == 3 && |b| >= 10 && Nibble(b[5]) == 1))
  }

  /** A field read after `s`: the last stamp of each kind counts. */
  function With(s: Stamps, f: Item): Stamps
    requires IsItem(f)
  {
    match f
    case Stuff => s
    case Pts(pts) => s.(hasTs := true, pts := GetTs(pts))
    case PtsDts(pts, dts) => s.(hasTs := true, pts := GetTs(pts), dts := GetTs(dts))
  }

  function WithAll(s: Stamps, fs: seq<Item>): Stamps
    requires AreItems(fs)
    decreases |fs|
  {
    if fs == [] then s else WithAll(With(s, fs[0]), fs[1..])
  }

  lemma ScanOfItem(f: Item, tail: seq<u8>, s: Stamps)
    requires IsItem(f)
    ensures ScanFrom(ItemBytes(f) + tail, s) == ScanFrom(tail, With(s, f))
  {
    hide GetTs;
    var b, head := ItemBytes(f) + tail, ItemBytes(f);
    assert b[|head|..] == tail;
    match f
    case Stuff => assert b[0] == 0xff;
    case Pts(pts) => assert b[..5] == pts && b[0] == pts[0];
    case PtsDts(pts, dts) =>
      assert b[..5] == pts && b[5..10] == dts && b[0] == pts[0] && b[5] == dts[0];
  }

  lemma ScanOfRest(rest: seq<u8>, s: Stamps)
    requires Ends(rest)
    ensures ScanFrom(rest, s) == if LacksDts(rest) then s.(isOk := false, hasTs := true, pts := GetTs(rest[..5])) else s
  {
    hide GetTs;
  }

  /** Reading whole fields up to where none begins: it is an error if a DTS is missing there. */
  lemma {:induction false} ScanOfItems(fs: seq<Item>, rest: seq<u8>, s: Stamps)
    requires AreItems(fs) && Ends(rest)
    ensures var t := WithAll(s, fs);
            ScanFrom(Bytes(fs) + rest, s)
            == if LacksDts(rest) then t.(isOk := false, hasTs := true, pts := GetTs(rest[..5])) else t
    decreases |fs|
  {
    hide ScanFrom, ItemBytes, IsItem, LacksDts, Ends, GetTs, With;
    if fs == [] {
      assert Bytes(fs) + rest == rest;
      ScanOfRest(rest, s);
    } else {
      ScanOfItem(fs[0], Bytes(fs[1..]) + rest, s);
      assert Bytes(fs) + rest == ItemBytes(fs[0]) + (Bytes(fs[1..]) + rest);
      ScanOfItems(fs[1..], rest, With(s, fs[0]));
    }
  }

  /** Whole fields are never an error, and set the flag exactly when one of them is a stamp. */
  lemma {:induction false} WithAllFlags(s: Stamps, fs: seq<Item>)
    requires AreItems(fs)
    ensures WithAll(s, fs).isOk == s.isOk
    ensures WithAll(s, fs).hasTs <==> s.hasTs || HasStamp(fs)
    decreases |fs|
  {
    hide GetTs, HasStamp;
    if fs != [] {
      WithAllFlags(With(s, fs[0]), fs[1..]);
      StampInTail(fs);
    } else {
      NoStampInNone();
    }
  }

  lemma NoStampInNone()
    ensures !HasStamp([])
  {
  }

  lemma StampInTail(fs: seq<Item>)
    requires fs != []
    ensures HasStamp(fs) <==> !fs[0].Stuff? || HasStamp(fs[1..])
  {
    if HasStamp(fs) && fs[0].Stuff? {
      var i :| 0 <= i < |fs| && !fs[i].Stuff?;
      assert !fs[1..][i - 1].Stuff?;
    }
    if HasStamp(fs[1..]) {
      var i :| 0 <= i < |fs| - 1 && !fs[1..][i].Stuff?;
      assert !fs[i + 1].Stuff?;
    }
  }

  /** Every header is whole fields and a rest that begins with none. */
  lemma {:induction false} EveryHeaderParses(b: seq<u8>) returns (fs: seq<Item>, rest: seq<u8>)
    ensures AreItems(fs) && Ends(rest) && b == Bytes(fs) + rest
    decreases |b|
  {
    if Ends(b) {
      fs, rest := [], b;
    } else {
      hide Ends, ItemBytes, IsItem;
      var f := FirstItem(b);
      var n := |ItemBytes(f)|;
      fs, rest := EveryHeaderParses(b[n..]);
      BytesOfMore(f, fs);
      assert b == b[..n] + b[n..] == ItemBytes(f) + (Bytes(fs) + rest);
      fs := [f] + fs;
    }
  }

  lemma BytesOfMore(f: Item, fs: seq<Item>)
    ensures Bytes([f] + fs) == ItemBytes(f) + Bytes(fs)
    ensures IsItem(f) && AreItems(fs) ==> AreItems([f] + fs)
  {
    hide ItemBytes, IsItem;
    assert ([f] + fs)[1..] == fs;
  }

  lemma FirstItem(b: seq<u8>) returns (f: Item)
    requires !Ends(b)
    ensures IsItem(f) && 0 < |ItemBytes(f)| <= |b| && ItemBytes(f) == b[..|ItemBytes(f)|]
  {
    f := if b[0] == 0xff then Stuff else if Nibble(b[0]) == 2 then Pts(b[..5]) else PtsDts(b[..5], b[5..10]);
  }

  /** `b` is whole fields up to a PTS whose announced DTS is missing. */
  ghost predicate AnnouncesMissingDts(b: seq<u8>) {
    exists fs: seq<Item>, rest: seq<u8> :: AreItems(fs) && LacksDts(rest) && b == Bytes(fs) + rest
  }

  /** A header is an error exactly when, behind whole fields, a PTS announces a DTS that is not there.
      Unknown bytes and fields that are cut short are none. */
  lemma MissingDtsIsAnError(b: seq<u8>)
    ensures !Scan(b).isOk <==> AnnouncesMissingDts(b)
  {
    hide ScanFrom, GetTs, LacksDts, Ends, WithAll;
    if AnnouncesMissingDts(b) {
      var fs: seq<Item>, rest: seq<u8> :| AreItems(fs) && LacksDts(rest) && b == Bytes(fs) + rest;
      LackingEnds(rest);
      ScanOfItems(fs, rest, NoStamps);
    }
    var fs, rest := EveryHeaderParses(b);
    ScanOfItems(fs, rest, NoStamps);
    WithAllFlags(NoStamps, fs);
  }

  lemma LackingEnds(rest: seq<u8>)
    requires LacksDts(rest)
    ensures Ends(rest)
  {
  }

  datatype PesResult = EndOfStream | Pes(size: u8, stamps: Stamps)

  /** A header whose length byte and body are both inside `b`. */
  predicate PesFits(b: seq<u8>) {
    3 <= |b| && 3 + b[2] as int <= |b|
  }

  /** Reads a header. Whatever it contains, exactly its three fixed bytes and the announced
      length are consumed; it fails only where the stream ends too early. */
  method ReadPesHeader(stream: DemuxerStream) returns (r: PesResult)
    requires stream.Valid()
    modifies stream
    ensures stream.Valid() && (r.Pes? <==> PesFits(old(stream.Rest())))
    ensures r.Pes? ==>
              var b := old(stream.Rest());
              && r.size == b[2] && stream.addr == old(stream.addr) + 3 + r.size
              && stream.size == old(stream.size) - 3 - r.size
              && r.stamps == Scan(b[3..3 + r.size])
  {
    var ok, header := stream.Get(2);
    if !ok {
      return EndOfStream;
    }
    var sizeByte;
    ok, sizeByte := stream.Get(1);
    if !ok {
      return EndOfStream;
    }
    var size := sizeByte[0];
    if !stream.Check(size) {
      return EndOfStream;
    }
    ghost var body := old(stream.Rest())[3..3 + size];
    SliceOfSlice(stream.memory, old(stream.addr), old(stream.addr + stream.size), 3, 3 + size as int);
    assert body == stream.memory[stream.addr..stream.addr + size];
    assert sizeByte[0] == old(stream.Rest())[2];
    hide ScanFrom;
    var stamps := ReadStamps(stream, size, body);
    r := Pes(size, stamps);
  }

  /** Two reads in a row, seen in the bytes that begin at `a`. */
  lemma ReadInRow(memory: seq<u8>, a: nat, left: nat, i: nat)
    requires i + 5 <= left && a + left <= |memory|
    ensures memory[a + i..a + i + 1] + memory[a + i + 1..a + i + 5] == memory[a..a + left][i..i + 5]
  {
    SliceOfSlice(memory, a, a + left, i, i + 5);
    Adjoin(memory, a + i, a + i + 1, a + i + 5);
  }

  lemma Adjoin<T>(s: seq<T>, lo: nat, mid: nat, hi: nat)
    requires lo <= mid <= hi <= |s|
    ensures s[lo..mid] + s[mid..hi] == s[lo..hi]
  {
  }

  lemma ScanOne(b: seq<u8>, s: Stamps)
    requires b != []
    ensures b[0] == 0xff ==> ScanFrom(b, s) == ScanFrom(b[1..], s)
    ensures Nibble(b[0]) == 2 && |b| >= 5 ==>
              ScanFrom(b, s) == ScanFrom(b[5..], s.(hasTs := true, pts := GetTs(b[..5])))
    ensures Nibble(b[0]) == 3 && |b| >= 10 ==>
              var t := s.(hasTs := true, pts := GetTs(b[..5]));
              ScanFrom(b, s) == if Nibble(b[5]) != 1 then t.(isOk := false)
                                else ScanFrom(b[10..], t.(dts := GetTs(b[5..10])))
    ensures Ends(b) && !LacksDts(b) ==> ScanFrom(b, s) == s
  {
    hide GetTs;
  }

  datatype Field = More(used: nat, stamps: Stamps) | Last(stamps: Stamps)

  /** The rest of a stamp whose first byte `first` stands at place `i` of the header and has been read. */
  method ReadTs(stream: DemuxerStream, first: seq<u8>, ghost body: seq<u8>, ghost a: nat, ghost i: nat)
      returns (ts: u64)
    requires stream.Valid() && stream.addr == a + i + 1 && i + 5 <= |body| && a + |body| <= stream.addr + stream.size
    requires body == stream.memory[a..a + |body|] && first == stream.memory[a + i..a + i + 1]
    modifies stream
    ensures stream.Valid() && stream.addr == old(stream.addr) + 4 && stream.size == old(stream.size) - 4
    ensures ts == GetTs(body[i..i + 5])
  {
    hide GetTs;
    var _, rest := stream.Get(4);
    ReadInRow(stream.memory, a, |body|, i);
    ts := GetTs(first + rest);
  }

  /** A PTS with a DTS, behind its first byte. */
  method ReadBoth(stream: DemuxerStream, left: nat, first: seq<u8>, s: Stamps, ghost body: seq<u8>) returns (f: Field)
    requires stream.Valid() && 10 <= left == |body| && left - 1 <= stream.size && 1 <= stream.addr
    requires body == stream.memory[stream.addr - 1..stream.addr - 1 + left]
    requires first == stream.memory[stream.addr - 1..stream.addr]
    modifies stream
    ensures stream.Valid()
    ensures var t := s.(hasTs := true, pts := GetTs(body[..5]));
            && f == (if Nibble(body[5]) != 1 then Last(t.(isOk := false)) else More(10, t.(dts := GetTs(body[5..10]))))
            && stream.addr == old(stream.addr) - 1 + (if f.More? then 10 else left)
            && stream.size == old(stream.size) + 1 - (if f.More? then 10 else left)
  {
    hide GetTs;
    ghost var a := stream.addr - 1;
    var pts := ReadTs(stream, first, body, a, 0);
    var t := s.(hasTs := true, pts := pts);
    var _, ws := stream.Get(1);
    assert ws[0] == body[5];
    if Nibble(ws[0]) != 1 {
      stream.Skip(left - 6);
      return Last(t.(isOk := false));
    }
    var dts := ReadTs(stream, ws, body, a, 5);
    return More(10, t.(dts := dts));
  }

  /** One round of the loop over the optional fields, with `left` bytes of the header to go. */
  method ReadField(stream: DemuxerStream, left: nat, s: Stamps, ghost body: seq<u8>) returns (f: Field)
    requires stream.Valid() && 0 < left <= stream.size && body == stream.memory[stream.addr..stream.addr + left]
    modifies stream
    ensures stream.Valid()
    ensures f.More? ==>
              && 0 < f.used <= left && stream.addr == old(stream.addr) + f.used
              && stream.size == old(stream.size) - f.used
              && ScanFrom(body, s) == ScanFrom(body[f.used..], f.stamps)
    ensures f.Last? ==>
              && stream.addr == old(stream.addr) + left && stream.size == old(stream.size) - left
              && ScanFrom(body, s) == f.stamps
  {
    ghost var a := stream.addr;
    ScanOne(body, s);
    hide GetTs, ScanFrom;
    assert body[0] == stream.memory[a];
    var ok, first := stream.Get(1);
    assert first[0] == stream.memory[a..a + 1][0];
    var v := first[0];
    assert v == body[0];
    if v == 0xff {
      return More(1, s);
    }
    if Nibble(v) == 2 && left - 1 >= 4 {
      var pts := ReadTs(stream, first, body, a, 0);
      return More(5, s.(hasTs := true, pts := pts));
    }
    if Nibble(v) == 3 && left - 1 >= 9 {
      f := ReadBoth(stream, left, first, s, body);
      return;
    }
    stream.Skip(left - 1);
    return Last(s);
  }

  /** The loop over the optional fields. */
  method ReadStamps(stream: DemuxerStream, size: u8, ghost body: seq<u8>) returns (r: Stamps)
    requires stream.Valid() && size <= stream.size && body == stream.memory[stream.addr..stream.addr + size]
    modifies stream
    ensures stream.Valid() && stream.addr == old(stream.addr) + size && stream.size == old(stream.size) - size
    ensures r == Scan(body)
  {
    hide ScanFrom;
    var left: nat := size;
    r := NoStamps;
    ghost var rest := body;
    while left > 0
      invariant stream.Valid() && left <= stream.size
      invariant stream.addr + left == old(stream.addr) + size && stream.size - left == old(stream.size) - size
      invariant rest == stream.memory[stream.addr..stream.addr + left]
      invariant Scan(body) == ScanFrom(rest, r)
    {
      var f := ReadField(stream, left, r, rest);
      match f
      case More(used, stamps) =>
        rest := rest[used..];
        left, r := left - used, stamps;
      case Last(stamps) =>
        return stamps;
    }
    ScanStuffing(0, r);
  }
}
