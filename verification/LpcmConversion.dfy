/** The LPCM decoder's conversion of big-endian samples to floating point. Samples have at most 24
    significant bits and the scale is a power of two, so reals lose nothing (`ExactInSinglePrecision`). */
module LpcmConversion {
  import opened MachineInts

  // ---- vector operations the decoder uses

  /** A little-endian 32-bit word read as a signed number. */
  function S32(b0: u8, b1: u8, b2: u8, b3: u8): int {
    var v := b0 as int + b1 as int * 0x100 + b2 as int * 0x1_0000 + b3 as int * 0x100_0000;
    if v < 0x8000_0000 then v else v - 0x1_0000_0000
  }

  /** `gv_cvts32_tofs` and the multiplication by 2^-31. */
  function Full(word: int): real {
    word as real / 2147483648.0
  }

  /** The byte that a shuffle control selects: zero when the control is negative. */
  function Pick(v: seq<u8>, c: int): u8
    requires c < |v|
  {
    if c < 0 then 0 else v[c]
  }

  /** One lane of `gv_shuffle8`, scaled. */
  function Scaled(v: seq<u8>, c0: int, c1: int, c2: int, c3: int): real
    requires c0 < |v| && c1 < |v| && c2 < |v| && c3 < |v|
  {
    Full(S32(Pick(v, c0), Pick(v, c1), Pick(v, c2), Pick(v, c3)))
  }

  /** The lanes of the four shuffles the decoder uses. */
  function Low16(v: seq<u8>): (r: seq<real>)
    requires |v| >= 8
    ensures |r| == 4
  {
    [Scaled(v, -1, -1, 1, 0), Scaled(v, -1, -1, 3, 2), Scaled(v, -1, -1, 5, 4), Scaled(v, -1, -1, 7, 6)]
  }

  function High16(v: seq<u8>): (r: seq<real>)
    requires |v| >= 16
    ensures |r| == 4
  {
    [Scaled(v, -1, -1, 9, 8), Scaled(v, -1, -1, 11, 10), Scaled(v, -1, -1, 13, 12), Scaled(v, -1, -1, 15, 14)]
  }

  function Packed24(v: seq<u8>): (r: seq<real>)
    requires |v| >= 12
    ensures |r| == 4
  {
    [Scaled(v, -1, 2, 1, 0), Scaled(v, -1, 5, 4, 3), Scaled(v, -1, 8, 7, 6), Scaled(v, -1, 11, 10, 9)]
  }

  function Dvd24(v: seq<u8>): (r: seq<real>)
    requires |v| >= 12
    ensures |r| == 4
  {
    [Scaled(v, -1, 8, 1, 0), Scaled(v, -1, 9, 3, 2), Scaled(v, -1, 10, 5, 4), Scaled(v, -1, 11, 7, 6)]
  }

  function Stored(s: seq<real>, at: nat, block: seq<real>): seq<real>
    requires at + |block| <= |s|
  {
    s[..at] + block + s[at + |block|..]
  }

  /** `v128::storeu` of four floats. */
  method Store(output: array<real>, at: nat, block: seq<real>)
    requires at + 4 <= output.Length && |block| == 4
    modifies output
    ensures output[..] == Stored(old(output[..]), at, block)
  {
    output[at], output[at + 1], output[at + 2], output[at + 3] := block[0], block[1], block[2], block[3];
  }

  /** A buffer that held `before` and whose first elements have become `values`. */
  function Overlay(values: seq<real>, before: seq<real>): (r: seq<real>)
    requires |values| <= |before|
    ensures |r| == |before|
  {
    values + before[|values|..]
  }

  lemma OverlayExtends(all: seq<real>, before: seq<real>, at: nat, block: seq<real>)
    requires at + |block| <= |all| <= |before| && block == all[at..at + |block|]
    ensures Stored(Overlay(all[..at], before), at, block) == Overlay(all[..at + |block|], before)
  {
  }

  // ---- what the samples mean

  /** A big-endian two's complement number. */
  function BigEndian16(hi: u8, lo: u8): int {
    var v := hi as int * 0x100 + lo as int;
    if v < 0x8000 then v else v - 0x1_0000
  }

  function BigEndian24(hi: u8, mid: u8, lo: u8): int {
    var v := hi as int * 0x1_0000 + mid as int * 0x100 + lo as int;
    if v < 0x80_0000 then v else v - 0x100_0000
  }

  /** Sample over full scale. */
  function Value16(hi: u8, lo: u8): real {
    BigEndian16(hi, lo) as real / 32768.0
  }

  function Value24(hi: u8, mid: u8, lo: u8): real {
    BigEndian24(hi, mid, lo) as real / 8388608.0
  }

  /** Sample `i` of a 16-bit access unit. */
  function Sample16(data: seq<u8>, i: nat): real
    requires 2 * i + 1 < |data|
  {
    Value16(data[2 * i], data[2 * i + 1])
  }

  function Sample24(data: seq<u8>, i: nat): real
    requires 3 * i + 2 < |data|
  {
    Value24(data[3 * i], data[3 * i + 1], data[3 * i + 2])
  }

  /** A sample shifted to the top of a 32-bit word and scaled by 2^-31 is the sample over full scale. */
  lemma TopOfWord(hi: u8, mid: u8, lo: u8)
    ensures Full(S32(0, 0, mid, hi)) == Value16(hi, mid)
    ensures Full(S32(0, lo, mid, hi)) == Value24(hi, mid, lo)
  {
    assert S32(0, 0, mid, hi) == 65536 * BigEndian16(hi, mid);
    assert S32(0, lo, mid, hi) == 256 * BigEndian24(hi, mid, lo);
  }

  /** Every result is an integer of at most 24 bits over a power of two, so the `float` arithmetic of
      the source is exact. */
  lemma ExactInSinglePrecision(hi: u8, mid: u8, lo: u8)
    ensures Value24(hi, mid, lo) * 8388608.0 == BigEndian24(hi, mid, lo) as real
    ensures -0x80_0000 <= BigEndian24(hi, mid, lo) < 0x80_0000
    ensures -1.0 <= Value24(hi, mid, lo) < 1.0
    ensures Value16(hi, mid) == Value24(hi, mid, 0)
  {
    assert BigEndian24(hi, mid, 0) == 256 * BigEndian16(hi, mid);
  }

  // ---- plain packing

  /** All samples of an access unit. */
  function Samples16(data: seq<u8>): (r: seq<real>)
    ensures |r| == |data| / 2
  {
    seq(|data| / 2, i requires 0 <= i < |data| / 2 => Sample16(data, i))
  }

  function Samples24(data: seq<u8>): (r: seq<real>)
    ensures |r| == |data| / 3
  {
    seq(|data| / 3, i requires 0 <= i < |data| / 3 => Sample24(data, i))
  }

  /** The 16-bit loop: blocks of eight samples, then one at a time. */
  method Convert16(data: seq<u8>, output: array<real>)
    requires |data| / 2 <= output.Length
    modifies output
    ensures output[..] == Overlay(Samples16(data), old(output[..]))
  {
    hide Low16, High16, Stored, Overlay, Samples16, Value16;
    ghost var before, all := output[..], Samples16(data);
    EmptyOverlay(all, before);
    var n := |data| / 2;
    var i := 0;
    while i <= n - 8
      invariant 0 <= i <= n && output[..] == Overlay(all[..i], before)
    {
      Block16(data, i);
      OverlayExtends(all, before, i, all[i..i + 4]);
      Store(output, i, Low16(data[2 * i..2 * i + 16]));
      OverlayExtends(all, before, i + 4, all[i + 4..i + 8]);
      Store(output, i + 4, High16(data[2 * i..2 * i + 16]));
      i := i + 8;
    }
    while i < n
      invariant 0 <= i <= n && output[..] == Overlay(all[..i], before)
    {
      Single16(data, i);
      OverlayExtends(all, before, i, all[i..i + 1]);
      ghost var was := output[..];
      StoredOne(was, i, all[i]);
      assert all[i..i + 1] == [all[i]];
      output[i] := Value16(data[2 * i], data[2 * i + 1]);
      assert output[..] == was[i := all[i]];
      i := i + 1;
    }
    assert all[..n] == all;
  }

  lemma StoredOne(s: seq<real>, at: nat, x: real)
    requires at < |s|
    ensures Stored(s, at, [x]) == s[at := x]
  {
  }

  lemma StoredTwo(s: seq<real>, at: nat, x: real, y: real)
    requires at + 1 < |s|
    ensures Stored(s, at, [x, y]) == s[at := x][at + 1 := y]
  {
  }

  lemma EmptyOverlay(all: seq<real>, before: seq<real>)
    requires |all| <= |before|
    ensures Overlay(all[..0], before) == before
  {
  }

  lemma Single16(data: seq<u8>, i: nat)
    requires 2 * i + 2 <= |data|
    ensures Value16(data[2 * i], data[2 * i + 1]) == Samples16(data)[i]
  {
    hide Value16;
  }

  lemma Block16(data: seq<u8>, i: nat)
    requires 2 * i + 16 <= |data|
    ensures Low16(data[2 * i..2 * i + 16]) == Samples16(data)[i..i + 4]
    ensures High16(data[2 * i..2 * i + 16]) == Samples16(data)[i + 4..i + 8]
  {
    var block := data[2 * i..2 * i + 16];
    FourWords16(data, block, 0, i);
    FourWords16(data, block, 8, i + 4);
    hide Scaled, Samples16;
  }

  /** Four lanes in a row. */
  lemma FourWords16(data: seq<u8>, v: seq<u8>, at: nat, i: nat)
    requires 2 * i + 8 <= |data| && at + 8 <= |v| && v[at..at + 8] == data[2 * i..2 * i + 8]
    ensures
      [Scaled(v, -1, -1, at + 1, at), Scaled(v, -1, -1, at + 3, at + 2),
       Scaled(v, -1, -1, at + 5, at + 4), Scaled(v, -1, -1, at + 7, at + 6)] == Samples16(data)[i..i + 4]
  {
    hide Scaled, Samples16, Sample16;
    var a, b := v[at..at + 8], data[2 * i..2 * i + 8];
    assert forall k :: 0 <= k < 8 ==> a[k] == v[at + k];
    assert forall k :: 0 <= k < 8 ==> b[k] == data[2 * i + k];
    assert a[0] == b[0] && a[1] == b[1] && a[2] == b[2] && a[3] == b[3];
    assert a[4] == b[4] && a[5] == b[5] && a[6] == b[6] && a[7] == b[7];
    Word16(data, v, at, i);
    Word16(data, v, at + 2, i + 1);
    Word16(data, v, at + 4, i + 2);
    Word16(data, v, at + 6, i + 3);
  }

  /** A lane with the two bytes of sample `i` on top is that sample. */
  lemma Word16(data: seq<u8>, v: seq<u8>, at: nat, i: nat)
    requires 2 * i + 2 <= |data| && at + 2 <= |v|
    requires v[at] == data[2 * i] && v[at + 1] == data[2 * i + 1]
    ensures Scaled(v, -1, -1, at + 1, at) == Sample16(data, i) == Samples16(data)[i]
  {
    hide S32, Value24, Value16, Full;
    TopOfWord(data[2 * i], data[2 * i + 1], 0);
  }

  lemma Word24(data: seq<u8>, v: seq<u8>, at: nat, i: nat)
    requires 3 * i + 3 <= |data| && at + 3 <= |v|
    requires v[at] == data[3 * i] && v[at + 1] == data[3 * i + 1] && v[at + 2] == data[3 * i + 2]
    ensures Scaled(v, -1, at + 2, at + 1, at) == Samples24(data)[i]
  {
    hide S32, Value24, Value16, Full;
    TopOfWord(data[3 * i], data[3 * i + 1], data[3 * i + 2]);
  }

  /** The 24-bit loop: blocks of four samples out of sixteen loaded bytes, then one at a time. */
  method Convert24(data: seq<u8>, output: array<real>)
    requires |data| / 3 <= output.Length
    modifies output
    ensures output[..] == Overlay(Samples24(data), old(output[..]))
  {
    hide Packed24, Stored, Overlay, Samples24, S32, Full;
    ghost var before, all := output[..], Samples24(data);
    EmptyOverlay(all, before);
    var i := 0;
    while i * 3 <= |data| - 16
      invariant 0 <= i <= |all| && output[..] == Overlay(all[..i], before)
    {
      Block24(data, i);
      OverlayExtends(all, before, i, all[i..i + 4]);
      Store(output, i, Packed24(data[i * 3..i * 3 + 16]));
      i := i + 4;
    }
    while i * 3 <= |data| - 3
      invariant 0 <= i <= |all| && output[..] == Overlay(all[..i], before)
    {
      Single24(data, i);
      OverlayExtends(all, before, i, all[i..i + 1]);
      ghost var was := output[..];
      StoredOne(was, i, all[i]);
      assert all[i..i + 1] == [all[i]];
      output[i] := Full(S32(0, data[i * 3 + 2], data[i * 3 + 1], data[i * 3]));
      assert output[..] == was[i := all[i]];
      i := i + 1;
    }
    assert all[..i] == all;
  }

  lemma Single24(data: seq<u8>, i: nat)
    requires 3 * i + 3 <= |data|
    ensures Full(S32(0, data[i * 3 + 2], data[i * 3 + 1], data[i * 3])) == Samples24(data)[i]
  {
    hide S32, Value24, Value16, Full;
    TopOfWord(data[i * 3], data[i * 3 + 1], data[i * 3 + 2]);
  }

  lemma Block24(data: seq<u8>, i: nat)
    requires 3 * i + 16 <= |data|
    ensures Packed24(data[i * 3..i * 3 + 16]) == Samples24(data)[i..i + 4]
  {
    var block := data[i * 3..i * 3 + 16];
    hide Scaled, Samples24, Sample24;
    Word24(data, block, 0, i);
    Word24(data, block, 3, i + 1);
    Word24(data, block, 6, i + 2);
    Word24(data, block, 9, i + 3);
    var all := Samples24(data);
    assert all[i..i + 4] == [all[i], all[i + 1], all[i + 2], all[i + 3]];
  }

  // ---- samples written and converted

  predicate Fits16(x: int) {
    -0x8000 <= x < 0x8000
  }

  predicate Fits24(x: int) {
    -0x80_0000 <= x < 0x80_0000
  }

  /** Byte `j` of a number in two's complement, counted from the low end. */
  function ByteAt(x: int, j: nat): u8
    requires j < 3
  {
    if j == 0 then x % 0x100 else if j == 1 then x / 0x100 % 0x100 else x / 0x1_0000 % 0x100
  }

  /** Samples one after the other, each with its high byte first. */
  function Encoded16(xs: seq<int>): (r: seq<u8>)
    ensures |r| == 2 * |xs|
  {
    seq(2 * |xs|, k requires 0 <= k < 2 * |xs| => ByteAt(xs[k / 2], 1 - k % 2))
  }

  function Encoded24(xs: seq<int>): (r: seq<u8>)
    ensures |r| == 3 * |xs|
  {
    seq(3 * |xs|, k requires 0 <= k < 3 * |xs| => ByteAt(xs[k / 3], 2 - k % 3))
  }

  lemma BytesOf16(x: int)
    requires Fits16(x)
    ensures Value16(ByteAt(x, 1), ByteAt(x, 0)) == x as real / 32768.0
  {
    assert BigEndian16(ByteAt(x, 1), ByteAt(x, 0)) == x;
  }

  lemma BytesOf24(x: int)
    requires Fits24(x)
    ensures Value24(ByteAt(x, 2), ByteAt(x, 1), ByteAt(x, 0)) == x as real / 8388608.0
  {
    assert x / 0x100 / 0x100 == x / 0x1_0000;
    assert BigEndian24(ByteAt(x, 2), ByteAt(x, 1), ByteAt(x, 0)) == x;
  }

  lemma SampleOfEncoded16(xs: seq<int>, i: nat)
    requires i < |xs| && Fits16(xs[i])
    ensures Sample16(Encoded16(xs), i) == xs[i] as real / 32768.0
  {
    hide Value16, ByteAt, Fits16;
    BytesOf16(xs[i]);
    assert Encoded16(xs)[2 * i] == ByteAt(xs[i], 1) && Encoded16(xs)[2 * i + 1] == ByteAt(xs[i], 0);
  }

  lemma SampleOfEncoded24(xs: seq<int>, i: nat)
    requires i < |xs| && Fits24(xs[i])
    ensures Sample24(Encoded24(xs), i) == xs[i] as real / 8388608.0
  {
    hide Value24, ByteAt, Fits24;
    BytesOf24(xs[i]);
    ThirdsOf(i);
    assert Encoded24(xs)[3 * i] == ByteAt(xs[i], 2) && Encoded24(xs)[3 * i + 1] == ByteAt(xs[i], 1);
    assert Encoded24(xs)[3 * i + 2] == ByteAt(xs[i], 0);
  }

  /** Converting big-endian samples gives each of them over full scale. */
  lemma Encoded16Converts(xs: seq<int>, i: nat)
    requires i < |xs| && Fits16(xs[i])
    ensures |Samples16(Encoded16(xs))| == |xs| && Samples16(Encoded16(xs))[i] == xs[i] as real / 32768.0
  {
    SampleOfEncoded16(xs, i);
    hide Sample16, Encoded16, Fits16;
  }

  lemma Encoded24Converts(xs: seq<int>, i: nat)
    requires i < |xs| && Fits24(xs[i])
    ensures |Samples24(Encoded24(xs))| == |xs| && Samples24(Encoded24(xs))[i] == xs[i] as real / 8388608.0
  {
    SampleOfEncoded24(xs, i);
    hide Sample24, Encoded24, Fits24;
  }

  lemma ThirdsOf(i: nat)
    ensures 3 * i / 3 == i && (3 * i + 1) / 3 == i && (3 * i + 2) / 3 == i
    ensures 3 * i % 3 == 0 && (3 * i + 1) % 3 == 1 && (3 * i + 2) % 3 == 2
  {
  }
}
