/** The LPCM decoder's conversion of DVD-packed samples: only the two front channels of each frame are
    converted, and 24-bit samples are unpacked from groups of two frames. */
module DvdConversion {
  import opened MachineInts
  import opened LpcmConversion

  // ---- arithmetic of the loop bounds

  lemma QuotientAtLeast(room: nat, step: nat, q: nat)
    requires step > 0 && q * step <= room
    ensures q <= room / step
  {
    var d := room / step;
    assert room < (d + 1) * step;
    MulMonotone(d + 1, q, step);
  }

  lemma QuotientFits(room: nat, step: nat, q: nat)
    requires step > 0 && q <= room / step
    ensures q * step <= room
  {
    MulMonotone(q, room / step, step);
    assert room / step * step <= room;
  }

  lemma MulMonotone(a: nat, b: nat, c: nat)
    ensures a <= b ==> a * c <= b * c
  {
  }

  // ---- 16 bits

  /** Number of frames whose first two of `channels` samples lie within `n` samples. */
  function FrameCount(n: nat, channels: nat): nat
    requires channels > 0
  {
    if n < 2 then 0 else (n - 2) / channels + 1
  }

  /** Index of the first sample of frame `f`. */
  function FrameStart(channels: nat, f: nat): nat {
    f * channels
  }

  lemma FrameStarts(channels: nat, f: nat)
    ensures FrameStart(channels, f + 1) == FrameStart(channels, f) + channels
    ensures FrameStart(channels, f + 2) == FrameStart(channels, f) + channels * 2
  {
  }

  /** Complete frames, of at least two channels, are all counted. */
  lemma WholeFrames(frames: nat, channels: nat)
    requires channels >= 2
    ensures FrameCount(FrameStart(channels, frames), channels) == frames
  {
    var n := FrameStart(channels, frames);
    if frames > 0 {
      FrameStarts(channels, frames - 1);
      CountAtLeast(n, channels, frames);
    }
    if frames < FrameCount(n, channels) {
      FrameFits(n, channels, frames);
    }
  }

  lemma FrameFits(n: nat, channels: nat, f: nat)
    requires channels > 0 && f < FrameCount(n, channels)
    ensures FrameStart(channels, f) + 2 <= n
  {
    assert f * channels <= (n - 2) / channels * channels;
  }

  /** Channels 0 and 1 of every frame. */
  function Fronts16(data: seq<u8>, channels: nat): (r: seq<real>)
    requires channels > 0
    ensures |r| == 2 * FrameCount(|data| / 2, channels)
  {
    var total := FrameCount(|data| / 2, channels);
    seq(2 * total, k requires 0 <= k < 2 * total =>
      FrameFits(|data| / 2, channels, k / 2);
      Sample16(data, FrameStart(channels, k / 2) + k % 2))
  }

  /** The 16-bit DVD conversion, first loop: frames by twos. */
  method ConvertFramePairs(data: seq<u8>, channels: nat, output: array<real>) returns (i: nat, o: nat, ghost f: nat)
    requires 2 <= channels <= 8 && 2 * FrameCount(|data| / 2, channels) <= output.Length
    modifies output
    ensures i == FrameStart(channels, f) && o == 2 * f <= |Fronts16(data, channels)|
    ensures output[..] == Overlay(Fronts16(data, channels)[..o], old(output[..]))
    ensures i + channels + 2 > |data| / 2
  {
    assert FrameStart(channels, 0) == 0;
    hide Stored, Overlay, Fronts16, TwoFrames, FrameCount, FrameStart;
    ghost var before, all := output[..], Fronts16(data, channels);
    EmptyOverlay(all, before);
    i, o, f := 0, 0, 0;
    while i <= |data| / 2 - channels - 2
      invariant i == FrameStart(channels, f) && o == 2 * f <= |all| && output[..] == Overlay(all[..o], before)
    {
      PairAppended(data, channels, f, before);
      Store(output, o, TwoFrames(data, channels, i));
      i, o, f := i + channels * 2, o + 4, f + 2;
    }
  }

  lemma PairAppended(data: seq<u8>, channels: nat, f: nat, before: seq<real>)
    requires channels > 0 && FrameStart(channels, f) + channels + 2 <= |data| / 2
    requires |Fronts16(data, channels)| <= |before|
    ensures
      var all := Fronts16(data, channels);
      && 2 * f + 4 <= |all|
      && Stored(Overlay(all[..2 * f], before), 2 * f, TwoFrames(data, channels, FrameStart(channels, f)))
         == Overlay(all[..2 * f + 4], before)
    ensures FrameStart(channels, f + 2) == FrameStart(channels, f) + 2 * channels
  {
    hide TwoFrames, Stored, Overlay, Fronts16, FrameStart, FrameCount;
    TwoFramesLanes(data, channels, f);
    var all := Fronts16(data, channels);
    OverlayExtends(all, before, 2 * f, all[2 * f..2 * f + 4]);
  }

  /** The 16-bit DVD conversion: frames by twos, then one by one. */
  method ConvertDvd16(data: seq<u8>, channels: nat, output: array<real>)
    requires 2 <= channels <= 8 && 2 * FrameCount(|data| / 2, channels) <= output.Length
    modifies output
    ensures output[..] == Overlay(Fronts16(data, channels), old(output[..]))
  {
    hide Stored, Overlay, Fronts16, OneFrame, FrameCount, FrameStart;
    ghost var before, all := output[..], Fronts16(data, channels);
    ghost var f: nat;
    var i, o;
    i, o, f := ConvertFramePairs(data, channels, output);
    while i <= |data| / 2 - 2
      invariant i == FrameStart(channels, f) && o == 2 * f <= |all| && output[..] == Overlay(all[..o], before)
    {
      OneFrameLanes(data, channels, f);
      OverlayExtends(all, before, o, all[o..o + 2]);
      var v := OneFrame(data, i);
      ghost var was := output[..];
      StoredTwo(was, o, v[0], v[1]);
      assert all[o..o + 2] == [v[0], v[1]];
      output[o], output[o + 1] := v[0], v[1];
      assert output[..] == was[o := v[0]][o + 1 := v[1]];
      i, o, f := i + channels, o + 2, f + 1;
    }
    FramesEnd(data, channels, f);
    assert all[..o] == all;
  }

  lemma FramesEnd(data: seq<u8>, channels: nat, f: nat)
    requires channels > 0 && FrameStart(channels, f) + 2 > |data| / 2
    requires 2 * f <= |Fronts16(data, channels)|
    ensures 2 * f == |Fronts16(data, channels)|
  {
    if f < FrameCount(|data| / 2, channels) {
      FrameFits(|data| / 2, channels, f);
    }
  }

  lemma CountAtLeast(n: nat, channels: nat, f: nat)
    requires channels > 0 && f > 0 && FrameStart(channels, f - 1) + 2 <= n
    ensures f <= FrameCount(n, channels)
  {
    QuotientAtLeast(n - 2, channels, f - 1);
  }

  lemma FrontsAt(data: seq<u8>, channels: nat, f: nat)
    requires channels > 0 && f < FrameCount(|data| / 2, channels)
    ensures FrameStart(channels, f) + 2 <= |data| / 2
    ensures Fronts16(data, channels)[2 * f] == Sample16(data, FrameStart(channels, f))
    ensures Fronts16(data, channels)[2 * f + 1] == Sample16(data, FrameStart(channels, f) + 1)
  {
    FrameFits(|data| / 2, channels, f);
  }

  /** What the loops make of the front samples at `i`, and at `i` and `i + channels`. */
  function OneFrame(data: seq<u8>, i: nat): (r: seq<real>)
    requires 2 * i + 4 <= |data|
    ensures |r| == 2
  {
    var v := data[2 * i..2 * i + 4];
    [Scaled(v, -1, -1, 1, 0), Scaled(v, -1, -1, 3, 2)]
  }

  function TwoFrames(data: seq<u8>, channels: nat, i: nat): (r: seq<real>)
    requires 2 * (i + channels) + 4 <= |data|
    ensures |r| == 4
  {
    Low16(data[2 * i..2 * i + 4] + data[2 * (i + channels)..2 * (i + channels) + 4])
  }

  lemma OneFrameLanes(data: seq<u8>, channels: nat, f: nat)
    requires channels > 0 && FrameStart(channels, f) + 2 <= |data| / 2
    ensures f + 1 <= FrameCount(|data| / 2, channels)
    ensures FrameStart(channels, f + 1) == FrameStart(channels, f) + channels
    ensures OneFrame(data, FrameStart(channels, f)) == Fronts16(data, channels)[2 * f..2 * f + 2]
  {
    hide Fronts16, FrameCount, FrameStart, Sample16, Scaled;
    FrameStarts(channels, f);
    CountAtLeast(|data| / 2, channels, f + 1);
    FrontsAt(data, channels, f);
    var i := FrameStart(channels, f);
    var v := data[2 * i..2 * i + 4];
    Word16(data, v, 0, i);
    Word16(data, v, 2, i + 1);
    var all := Fronts16(data, channels);
    assert all[2 * f..2 * f + 2] == [all[2 * f], all[2 * f + 1]];
  }

  lemma TwoFramesLanes(data: seq<u8>, channels: nat, f: nat)
    requires channels > 0 && FrameStart(channels, f) + channels + 2 <= |data| / 2
    ensures f + 2 <= FrameCount(|data| / 2, channels)
    ensures FrameStart(channels, f + 2) == FrameStart(channels, f) + 2 * channels
    ensures TwoFrames(data, channels, FrameStart(channels, f)) == Fronts16(data, channels)[2 * f..2 * f + 4]
  {
    hide Fronts16, FrameCount, FrameStart, Sample16, Scaled;
    FrameStarts(channels, f);
    CountAtLeast(|data| / 2, channels, f + 2);
    FrontsAt(data, channels, f);
    FrontsAt(data, channels, f + 1);
    var i := FrameStart(channels, f);
    var v := data[2 * i..2 * i + 4] + data[2 * (i + channels)..2 * (i + channels) + 4];
    Word16(data, v, 0, i);
    Word16(data, v, 2, i + 1);
    Word16(data, v, 4, i + channels);
    Word16(data, v, 6, i + channels + 1);
    var all := Fronts16(data, channels);
    assert all[2 * f..2 * f + 4] == [all[2 * f], all[2 * f + 1], all[2 * (f + 1)], all[2 * (f + 1) + 1]];
  }

  /** Of big-endian frames the two front channels come out, in order, over full scale. */
  lemma FrontsOfFrames(xs: seq<int>, channels: nat, frames: nat, f: nat)
    requires 2 <= channels && |xs| == FrameStart(channels, frames) && f < frames
    requires forall i :: 0 <= i < |xs| ==> Fits16(xs[i])
    ensures var r := Fronts16(Encoded16(xs), channels);
            && |r| == 2 * frames && FrameStart(channels, f) + 1 < |xs|
            && r[2 * f] == xs[FrameStart(channels, f)] as real / 32768.0
            && r[2 * f + 1] == xs[FrameStart(channels, f) + 1] as real / 32768.0
  {
    hide Fits16, FrameStart, FrameCount, Sample16, Fronts16, Encoded16;
    WholeFrames(frames, channels);
    assert |Encoded16(xs)| / 2 == |xs|;
    FrontsAt(Encoded16(xs), channels, f);
    SampleOfEncoded16(xs, FrameStart(channels, f));
    SampleOfEncoded16(xs, FrameStart(channels, f) + 1);
  }

  // ---- 24 bits

  datatype Sample = Sample(hi: u8, mid: u8, low: u8)

  type Frame = seq<Sample>

  /** The two high bytes of every sample of a frame. */
  function Highs(f: Frame): seq<u8> {
    seq(2 * |f|, i requires 0 <= i < 2 * |f| => if i % 2 == 0 then f[i / 2].hi else f[i / 2].mid)
  }

  function Lows(f: Frame): seq<u8> {
    seq(|f|, i requires 0 <= i < |f| => f[i].low)
  }

  predicate FramesOf(frames: seq<Frame>, channels: nat) {
    |frames| % 2 == 0 && forall i :: 0 <= i < |frames| ==> |frames[i]| == channels
  }

  /** The DVD layout: two frames share a group that holds the high bytes of both, then the low bytes
      of both. */
  function Group(f0: Frame, f1: Frame): (g: seq<u8>)
    ensures |g| == 3 * |f0| + 3 * |f1|
  {
    Highs(f0) + Highs(f1) + Lows(f0) + Lows(f1)
  }

  function Packed(frames: seq<Frame>): seq<u8> {
    if |frames| < 2 then []
    else Group(frames[0], frames[1]) + Packed(frames[2..])
  }

  /** `channel_num`: mono runs as if it had two channels. */
  function ChannelNum(channels: nat): nat {
    if channels == 1 then 2 else channels
  }

  /** Offsets of the high bytes of the third and fourth sample, the low bytes of the first two and
      those of the last two, and the step to the next four samples. */
  function HighOffset(channels: nat): nat {
    if channels == 1 then 6 else channels * 2
  }

  function LowOffset(channels: nat): nat {
    if channels == 1 then 4 else channels * 4
  }

  function LastLowOffset(channels: nat): nat {
    ChannelNum(channels) * 5
  }

  function Stride(channels: nat): (s: nat)
    requires channels > 0
    ensures s > 0
  {
    ChannelNum(channels) * 6
  }

  function Quotient(x: nat, y: nat): nat
    requires y > 0
  {
    x / y
  }

  /** Number of turns of the 24-bit loop. */
  function Blocks(size: nat, channels: nat): nat
    requires channels > 0
  {
    if size < LastLowOffset(channels) + 2 then 0
    else Quotient(size - LastLowOffset(channels) - 2, Stride(channels)) + 1
  }

  /** Offset of the bytes that turn `b` reads. */
  function BlockStart(channels: nat, b: nat): nat
    requires channels > 0
  {
    if b == 0 then 0 else Stride(channels) + BlockStart(channels, b - 1)
  }

  lemma {:induction false} BlockStartIs(channels: nat, b: nat)
    requires channels > 0
    ensures BlockStart(channels, b) == b * Stride(channels)
  {
    if b > 0 {
      BlockStartIs(channels, b - 1);
      assert b * Stride(channels) == (b - 1) * Stride(channels) + Stride(channels);
    }
  }

  /** The four samples that a turn at offset `at` puts out. */
  function BlockSample(data: seq<u8>, channels: nat, at: nat, j: nat): real
    requires 1 <= channels <= 8 && at + LastLowOffset(channels) + 2 <= |data| && j < 4
  {
    var h := at + if j < 2 then 2 * j else HighOffset(channels) + 2 * (j - 2);
    var l := at + if j < 2 then LowOffset(channels) + j else LastLowOffset(channels) + (j - 2);
    Value24(data[h], data[h + 1], data[l])
  }

  lemma BlockFits(size: nat, channels: nat, b: nat)
    requires 1 <= channels <= 8 && b < Blocks(size, channels)
    ensures BlockStart(channels, b) + LastLowOffset(channels) + 2 <= size
  {
    hide Stride, LastLowOffset, BlockStart;
    BlockStartIs(channels, b);
    QuotientFits(size - LastLowOffset(channels) - 2, Stride(channels), b);
  }

  /** Everything the 24-bit loop puts out. */
  function Decoded24(data: seq<u8>, channels: nat): (r: seq<real>)
    requires 1 <= channels <= 8
    ensures |r| == 4 * Blocks(|data|, channels)
  {
    var total := Blocks(|data|, channels);
    seq(4 * total, k requires 0 <= k < 4 * total =>
      BlockFits(|data|, channels, k / 4);
      BlockSample(data, channels, BlockStart(channels, k / 4), k % 4))
  }

  lemma BlocksAtLeast(size: nat, channels: nat, b: nat)
    requires 1 <= channels <= 8 && BlockStart(channels, b) + LastLowOffset(channels) + 2 <= size
    ensures b < Blocks(size, channels)
  {
    BlockStartIs(channels, b);
    QuotientAtLeast(size - LastLowOffset(channels) - 2, Stride(channels), b);
  }

  /** What a turn of the loop makes of the bytes it collects at offset `at`. */
  function Assemble(data: seq<u8>, channels: nat, at: nat): (r: seq<real>)
    requires 1 <= channels <= 8 && at + LastLowOffset(channels) + 2 <= |data|
    ensures |r| == 4
  {
    var h, l, m := at + HighOffset(channels), at + LowOffset(channels), at + LastLowOffset(channels);
    Dvd24(data[at..at + 4] + data[h..h + 4] + data[l..l + 2] + data[m..m + 2])
  }

  lemma FourParts(a: seq<u8>, b: seq<u8>, c: seq<u8>, d: seq<u8>)
    requires |a| == |b| == 4 && |c| == |d| == 2
    ensures var v := a + b + c + d;
            && v[0] == a[0] && v[1] == a[1] && v[2] == a[2] && v[3] == a[3]
            && v[4] == b[0] && v[5] == b[1] && v[6] == b[2] && v[7] == b[3]
            && v[8] == c[0] && v[9] == c[1] && v[10] == d[0] && v[11] == d[1]
  {
  }

  lemma AssembledLanes(data: seq<u8>, channels: nat, at: nat)
    requires 1 <= channels <= 8 && at + LastLowOffset(channels) + 2 <= |data|
    ensures forall j :: 0 <= j < 4 ==> Assemble(data, channels, at)[j] == BlockSample(data, channels, at, j)
  {
    var h, l, m := at + HighOffset(channels), at + LowOffset(channels), at + LastLowOffset(channels);
    var v := data[at..at + 4] + data[h..h + 4] + data[l..l + 2] + data[m..m + 2];
    FourParts(data[at..at + 4], data[h..h + 4], data[l..l + 2], data[m..m + 2]);
    hide Value24, Scaled;
    DvdWord(v, 0, 8);
    DvdWord(v, 2, 9);
    DvdWord(v, 4, 10);
    DvdWord(v, 6, 11);
    assert Assemble(data, channels, at) == Dvd24(v);
    hide Assemble;
    forall j | 0 <= j < 4
      ensures Assemble(data, channels, at)[j] == BlockSample(data, channels, at, j)
    {
      if j == 0 {
      } else if j == 1 {
      } else if j == 2 {
      } else {
        assert j == 3;
      }
    }
  }

  lemma DvdWord(v: seq<u8>, hi: nat, low: nat)
    requires hi + 2 <= |v| && low < |v|
    ensures Scaled(v, -1, low, hi + 1, hi) == Value24(v[hi], v[hi + 1], v[low])
  {
    hide S32, Value24, Value16, Full;
    TopOfWord(v[hi], v[hi + 1], v[low]);
  }

  /** The 24-bit DVD loop. */
  method ConvertDvd24(data: seq<u8>, channels: nat, output: array<real>)
    requires 1 <= channels <= 8 && 4 * Blocks(|data|, channels) <= output.Length
    modifies output
    ensures output[..] == Overlay(Decoded24(data, channels), old(output[..]))
  {
    assert BlockStart(channels, 0) == 0;
    hide Stored, Overlay, Assemble, BlockStart, Decoded24, Blocks, ChannelNum, LastLowOffset, Stride;
    ghost var before, all := output[..], Decoded24(data, channels);
    EmptyOverlay(all, before);
    ghost var b := 0;
    var i, o := 0, 0;
    while i <= |data| - LastLowOffset(channels) - 2
      invariant i == BlockStart(channels, b) && o == 4 * b <= |all| && output[..] == Overlay(all[..o], before)
    {
      BlockAppended(data, channels, b, before);
      Store(output, o, Assemble(data, channels, i));
      i, o, b := i + Stride(channels), o + 4, b + 1;
    }
    BlocksEnd(data, channels, b);
    assert all[..o] == all;
  }

  lemma BlocksEnd(data: seq<u8>, channels: nat, b: nat)
    requires 1 <= channels <= 8 && BlockStart(channels, b) + LastLowOffset(channels) + 2 > |data|
    requires 4 * b <= |Decoded24(data, channels)|
    ensures 4 * b == |Decoded24(data, channels)|
  {
    if b < Blocks(|data|, channels) {
      BlockFits(|data|, channels, b);
    }
  }

  lemma BlockAppended(data: seq<u8>, channels: nat, b: nat, before: seq<real>)
    requires 1 <= channels <= 8 && BlockStart(channels, b) + LastLowOffset(channels) + 2 <= |data|
    requires |Decoded24(data, channels)| <= |before|
    ensures
      var all := Decoded24(data, channels);
      && 4 * b + 4 <= |all|
      && Stored(Overlay(all[..4 * b], before), 4 * b, Assemble(data, channels, BlockStart(channels, b)))
         == Overlay(all[..4 * b + 4], before)
    ensures BlockStart(channels, b + 1) == BlockStart(channels, b) + Stride(channels)
  {
    hide Assemble, Stored, Overlay, Decoded24, BlockStart, Blocks;
    BlocksAtLeast(|data|, channels, b);
    DecodedAt(data, channels, b);
    var all := Decoded24(data, channels);
    OverlayExtends(all, before, 4 * b, all[4 * b..4 * b + 4]);
  }

  lemma DecodedAt(data: seq<u8>, channels: nat, b: nat)
    requires 1 <= channels <= 8 && b < Blocks(|data|, channels)
    ensures BlockStart(channels, b) + LastLowOffset(channels) + 2 <= |data|
    ensures BlockStart(channels, b + 1) == BlockStart(channels, b) + Stride(channels)
    ensures Assemble(data, channels, BlockStart(channels, b)) == Decoded24(data, channels)[4 * b..4 * b + 4]
  {
    hide BlockSample, Assemble;
    BlockFits(|data|, channels, b);
    var at := BlockStart(channels, b);
    AssembledLanes(data, channels, at);
    forall j | 0 <= j < 4
      ensures Decoded24(data, channels)[4 * b + j] == BlockSample(data, channels, at, j)
    {
      assert (4 * b + j) / 4 == b && (4 * b + j) % 4 == j;
    }
  }

  // ---- the 24-bit packing undone

  function ValueOf(s: Sample): real {
    Value24(s.hi, s.mid, s.low)
  }

  lemma GroupAt(f0: Frame, f1: Frame, c: nat)
    requires |f0| == |f1| && c < |f0|
    ensures
      var n, g := |f0|, Group(f0, f1);
      && |g| == 6 * n
      && g[2 * c] == f0[c].hi && g[2 * c + 1] == f0[c].mid && g[4 * n + c] == f0[c].low
      && g[2 * n + 2 * c] == f1[c].hi && g[2 * n + 2 * c + 1] == f1[c].mid && g[5 * n + c] == f1[c].low
  {
    var n := |f0|;
    assert Highs(f0)[2 * c] == f0[c].hi && Highs(f0)[2 * c + 1] == f0[c].mid;
    assert Highs(f1)[2 * c] == f1[c].hi && Highs(f1)[2 * c + 1] == f1[c].mid;
    assert Lows(f0)[c] == f0[c].low && Lows(f1)[c] == f1[c].low;
    hide Highs, Lows;
  }

  /** Offset of the group that holds frame `f`. */
  function GroupStart(channels: nat, f: nat): nat {
    if f < 2 then 0 else 6 * channels + GroupStart(channels, f - 2)
  }

  lemma {:induction false} GroupIsBlock(channels: nat, f: nat)
    requires channels >= 2
    ensures GroupStart(channels, f) == BlockStart(channels, f / 2)
  {
    if f >= 2 {
      GroupIsBlock(channels, f - 2);
      assert f / 2 == (f - 2) / 2 + 1;
    }
  }

  lemma {:induction false} MonoGroupIsBlock(f: nat)
    ensures GroupStart(1, f) == BlockStart(1, f / 4) + if f % 4 < 2 then 0 else 6
  {
    if f >= 4 {
      MonoGroupIsBlock(f - 4);
      assert f / 4 == (f - 4) / 4 + 1 && f % 4 == (f - 4) % 4;
      assert GroupStart(1, f) == 6 + GroupStart(1, f - 2);
    }
  }

  lemma {:induction false} PackedLength(frames: seq<Frame>, channels: nat)
    requires FramesOf(frames, channels)
    ensures |Packed(frames)| == GroupStart(channels, |frames|)
  {
    if |frames| >= 2 {
      PackedLength(frames[2..], channels);
    }
  }

  /** Offsets, within its group, of the high bytes of a channel and of its low byte. */
  function HighAt(channels: nat, f: nat, c: nat): nat {
    if f % 2 == 0 then 2 * c else 2 * channels + 2 * c
  }

  function LowAt(channels: nat, f: nat, c: nat): nat {
    if f % 2 == 0 then 4 * channels + c else 5 * channels + c
  }

  /** In `p`, the group at `at` holds the three bytes of channel `c` of frame `f` in their places. */
  predicate HoldsSample(p: seq<u8>, at: nat, channels: nat, f: nat, c: nat, s: Sample) {
    && c < channels && at + 6 * channels <= |p|
    && p[at + HighAt(channels, f, c)] == s.hi
    && p[at + HighAt(channels, f, c) + 1] == s.mid
    && p[at + LowAt(channels, f, c)] == s.low
  }

  lemma GroupHolds(f0: Frame, f1: Frame, c: nat, rest: seq<u8>)
    requires |f0| == |f1| && c < |f0|
    ensures HoldsSample(Group(f0, f1) + rest, 0, |f0|, 0, c, f0[c])
    ensures HoldsSample(Group(f0, f1) + rest, 0, |f0|, 1, c, f1[c])
  {
    GroupAt(f0, f1, c);
    hide Group;
  }

  lemma HoldsLater(g: seq<u8>, p: seq<u8>, at: nat, channels: nat, f: nat, c: nat, s: Sample)
    requires HoldsSample(p, at, channels, f, c, s) && |g| == 6 * channels
    ensures HoldsSample(g + p, 6 * channels + at, channels, f + 2, c, s)
  {
    assert (f + 2) % 2 == f % 2;
  }

  lemma {:induction false} PackedAt(frames: seq<Frame>, channels: nat, f: nat, c: nat)
    requires FramesOf(frames, channels) && f < |frames| && c < channels
    ensures HoldsSample(Packed(frames), GroupStart(channels, f), channels, f, c, frames[f][c])
  {
    hide Group, HoldsSample;
    var g, rest := Group(frames[0], frames[1]), Packed(frames[2..]);
    assert Packed(frames) == g + rest;
    FrameWidth(frames, channels, 0);
    FrameWidth(frames, channels, 1);
    FrameWidth(frames, channels, f);
    hide Packed;
    if f < 2 {
      GroupHolds(frames[0], frames[1], c, rest);
    } else {
      LaterFrames(frames, channels);
      hide FramesOf;
      PackedAt(frames[2..], channels, f - 2, c);
      HoldsLater(g, rest, GroupStart(channels, f - 2), channels, f - 2, c, frames[f][c]);
    }
  }

  lemma PackedBlocks(frames: seq<Frame>, channels: nat)
    requires 2 <= channels <= 8 && FramesOf(frames, channels)
    ensures Blocks(|Packed(frames)|, channels) == |frames| / 2
  {
    PackedLength(frames, channels);
    GroupIsBlock(channels, |frames|);
    var n := |frames| / 2;
    if n > 0 {
      assert BlockStart(channels, n) == Stride(channels) + BlockStart(channels, n - 1);
      BlocksAtLeast(|Packed(frames)|, channels, n - 1);
    }
    if n < Blocks(|Packed(frames)|, channels) {
      BlockFits(|Packed(frames)|, channels, n);
    }
  }

  /** The 24-bit DVD loop inverts the packing: what it puts out for packed frames is channels 0 and 1
      of every frame, in order. */
  lemma DvdUnpacks(frames: seq<Frame>, channels: nat)
    requires 2 <= channels <= 8 && FramesOf(frames, channels)
    ensures Decoded24(Packed(frames), channels)
         == seq(2 * |frames|, k requires 0 <= k < 2 * |frames| => ValueOf(frames[k / 2][k % 2]))
  {
    PackedBlocks(frames, channels);
    forall k | 0 <= k < 2 * |frames|
      ensures Decoded24(Packed(frames), channels)[k] == ValueOf(frames[k / 2][k % 2])
    {
      UnpackedAt(frames, channels, k);
    }
  }

  lemma UnpackedAt(frames: seq<Frame>, channels: nat, k: nat)
    requires 2 <= channels <= 8 && FramesOf(frames, channels) && k < 2 * |frames|
    requires Blocks(|Packed(frames)|, channels) == |frames| / 2
    ensures Decoded24(Packed(frames), channels)[k] == ValueOf(frames[k / 2][k % 2])
  {
    hide Packed, Blocks, BlockStart, GroupStart, Value24, FramesOf, HoldsSample;
    var f, c := k / 2, k % 2;
    FrameWidth(frames, channels, f);
    assert c < channels;
    PackedAt(frames, channels, f, c);
    BlockFits(|Packed(frames)|, channels, k / 4);
    GroupIsBlock(channels, f);
    assert f / 2 == k / 4;
    SampleHeld(Packed(frames), BlockStart(channels, k / 4), channels, k, frames[f][c]);
  }

  lemma LaterFrames(frames: seq<Frame>, channels: nat)
    requires FramesOf(frames, channels) && |frames| >= 2
    ensures FramesOf(frames[2..], channels)
  {
  }

  lemma FrameWidth(frames: seq<Frame>, channels: nat, f: nat)
    requires FramesOf(frames, channels) && f < |frames|
    ensures |frames[f]| == channels && |frames| % 2 == 0
  {
  }

  lemma SampleHeld(p: seq<u8>, at: nat, channels: nat, k: nat, s: Sample)
    requires 2 <= channels <= 8 && HoldsSample(p, at, channels, k / 2, k % 2, s)
    ensures BlockSample(p, channels, at, k % 4) == ValueOf(s)
  {
    hide Value24;
    assert k % 4 == k / 2 % 2 * 2 + k % 2;
  }

  lemma MonoBlocks(frames: seq<Frame>)
    requires FramesOf(frames, 1)
    ensures Blocks(|Packed(frames)|, 1) == |frames| / 4
  {
    PackedLength(frames, 1);
    hide Packed, FramesOf;
    var n := |frames|;
    MonoGroupIsBlock(n);
    if n >= 4 {
      assert BlockStart(1, n / 4) == 12 + BlockStart(1, n / 4 - 1);
      BlocksAtLeast(|Packed(frames)|, 1, n / 4 - 1);
    }
    if n / 4 < Blocks(|Packed(frames)|, 1) {
      BlockFits(|Packed(frames)|, 1, n / 4);
    }
  }

  lemma MonoLength(p: seq<u8>, n: nat)
    requires Blocks(|p|, 1) == n / 4
    ensures |Decoded24(p, 1)| == n / 4 * 4
  {
    hide Blocks, BlockSample;
  }

  /** Mono takes two groups at a time: it puts out the samples in order, but drops the last two when
      the number of groups is odd, so it is complete exactly when the sample count is a multiple of
      four. */
  lemma MonoUnpacks(frames: seq<Frame>)
    requires FramesOf(frames, 1)
    ensures Decoded24(Packed(frames), 1)
         == seq(|frames| / 4 * 4, k requires 0 <= k < |frames| / 4 * 4 => ValueOf(frames[k][0]))
    ensures |Decoded24(Packed(frames), 1)| == |frames| <==> |frames| % 4 == 0
  {
    MonoBlocks(frames);
    MonoLength(Packed(frames), |frames|);
    forall k | 0 <= k < |frames| / 4 * 4
      ensures Decoded24(Packed(frames), 1)[k] == ValueOf(frames[k][0])
    {
      MonoUnpackedAt(frames, k);
    }
    hide Packed, Decoded24, ValueOf, Blocks;
  }

  lemma MonoUnpackedAt(frames: seq<Frame>, k: nat)
    requires FramesOf(frames, 1) && k < |frames| / 4 * 4
    requires Blocks(|Packed(frames)|, 1) == |frames| / 4
    ensures Decoded24(Packed(frames), 1)[k] == ValueOf(frames[k][0])
  {
    hide Packed, Blocks, BlockStart, GroupStart, Value24, FramesOf, HoldsSample;
    FrameWidth(frames, 1, k);
    PackedAt(frames, 1, k, 0);
    BlockFits(|Packed(frames)|, 1, k / 4);
    MonoGroupIsBlock(k);
    assert k % 4 % 2 == k % 2;
    SameParity(Packed(frames), GroupStart(1, k), k, k % 4, frames[k][0]);
    MonoSampleHeld(Packed(frames), BlockStart(1, k / 4), k % 4, frames[k][0]);
  }

  lemma SameParity(p: seq<u8>, at: nat, f: nat, f': nat, s: Sample)
    requires f % 2 == f' % 2 && HoldsSample(p, at, 1, f, 0, s)
    ensures HoldsSample(p, at, 1, f', 0, s)
  {
  }

  lemma MonoSampleHeld(p: seq<u8>, at: nat, j: nat, s: Sample)
    requires j < 4 && HoldsSample(p, at + if j < 2 then 0 else 6, 1, j, 0, s) && at + 12 <= |p|
    ensures BlockSample(p, 1, at, j) == ValueOf(s)
  {
    hide Value24;
    if j == 0 {
    } else if j == 1 {
    } else if j == 2 {
    } else {
      assert j == 3;
    }
  }
}
