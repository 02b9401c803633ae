/** The LPCM decoder's in-place channel reordering: four samples are loaded and stored at a time, the
    stores of one frame overlap the next frame's, and the dummy channel of odd layouts is dropped. */
module LpcmChannels {
  datatype Layout = Mono | Stereo | Ch30 | Ch21 | Ch31 | Ch22 | Ch32 | Ch32Lfe | Ch34 | Ch34Lfe

  /** `SideLeft` stands for the only surround channel where there is just one. */
  datatype Speaker = FrontLeft | FrontRight | Center | SideLeft | RearLeft | RearRight | SideRight | Lfe | Dummy

  // ---- the documented orders

  /** Position in the input order. */
  function InputRank(s: Speaker): nat {
    match s
    case FrontLeft => 0
    case FrontRight => 1
    case Center => 2
    case SideLeft => 3
    case RearLeft => 4
    case RearRight => 5
    case SideRight => 6
    case Lfe => 7
    case Dummy => 8
  }

  /** Position in the output order of a layout; the largest layout has an order of its own. */
  function OutputRank(l: Layout, s: Speaker): nat {
    if l == Ch34Lfe then
      match s {
        case FrontLeft => 0
        case FrontRight => 1
        case Center => 2
        case Lfe => 3
        case SideLeft => 4
        case SideRight => 5
        case RearLeft => 6
        case RearRight => 7
        case Dummy => 8
      }
    else
      match s {
        case FrontLeft => 0
        case Center => 1
        case FrontRight => 2
        case SideLeft => 3
        case SideRight => 4
        case RearLeft => 5
        case RearRight => 6
        case Lfe => 7
        case Dummy => 8
      }
  }

  /** The channels of an input frame. Layouts with an odd number of channels carry a dummy. */
  function InputOrder(l: Layout): seq<Speaker> {
    match l
    case Mono => [Center, Dummy]
    case Stereo => [FrontLeft, FrontRight]
    case Ch30 => [FrontLeft, FrontRight, Center, Dummy]
    case Ch21 => [FrontLeft, FrontRight, SideLeft, Dummy]
    case Ch31 => [FrontLeft, FrontRight, Center, SideLeft]
    case Ch22 => [FrontLeft, FrontRight, SideLeft, SideRight]
    case Ch32 => [FrontLeft, FrontRight, Center, SideLeft, SideRight, Dummy]
    case Ch32Lfe => [FrontLeft, FrontRight, Center, SideLeft, SideRight, Lfe]
    case Ch34 => [FrontLeft, FrontRight, Center, SideLeft, RearLeft, RearRight, SideRight, Dummy]
    case Ch34Lfe => [FrontLeft, FrontRight, Center, SideLeft, RearLeft, RearRight, SideRight, Lfe]
  }

  function InWidth(l: Layout): nat {
    match l
    case Mono => 2
    case Stereo => 2
    case Ch30 => 4
    case Ch21 => 4
    case Ch31 => 4
    case Ch22 => 4
    case Ch32 => 6
    case Ch32Lfe => 6
    case Ch34 => 8
    case Ch34Lfe => 8
  }

  function OutWidth(l: Layout): nat {
    if l.Mono? then 1 else if l.Ch30? || l.Ch21? then 3 else if l.Ch32? then 5 else if l.Ch34? then 7 else InWidth(l)
  }

  /** The input channel that becomes output channel `j`. */
  function Position(l: Layout, j: nat): (i: nat)
    requires j < OutWidth(l)
    ensures i < InWidth(l)
  {
    match l
    case Ch30 => if j == 1 then 2 else if j == 2 then 1 else j
    case Ch31 => if j == 1 then 2 else if j == 2 then 1 else j
    case Ch32 => if j == 1 then 2 else if j == 2 then 1 else j
    case Ch32Lfe => if j == 1 then 2 else if j == 2 then 1 else j
    case Ch34 =>
      if j == 1 then 2 else if j == 2 then 1 else if j == 4 then 6 else if j == 5 then 4 else if j == 6 then 5 else j
    case Ch34Lfe =>
      if j == 3 then 7 else if j == 4 then 3 else if j == 5 then 6 else if j == 6 then 4 else if j == 7 then 5 else j
    case _ => j
  }

  /** The permutation is the documented one: input frames list their speakers in the documented input
      order, output frames list all of them but the dummy in the documented output order. */
  lemma PositionIsDocumented(l: Layout, i: nat, j: nat)
    requires i < j
    ensures |InputOrder(l)| == InWidth(l)
    ensures j < InWidth(l) ==> InputRank(InputOrder(l)[i]) < InputRank(InputOrder(l)[j])
    ensures j < OutWidth(l) ==>
      OutputRank(l, InputOrder(l)[Position(l, i)]) < OutputRank(l, InputOrder(l)[Position(l, j)])
    ensures OutWidth(l) == InWidth(l) - if Dummy in InputOrder(l) then 1 else 0
    ensures j < OutWidth(l) ==> InputOrder(l)[Position(l, j)] != Dummy
  {
    match l
    case Mono =>
    case Stereo =>
    case Ch30 =>
    case Ch21 =>
    case Ch31 =>
    case Ch22 =>
    case Ch32 =>
    case Ch32Lfe =>
    case Ch34 =>
    case Ch34Lfe =>
  }

  // ---- what a run of the loop has done

  /** Index of the first input channel of frame `g`. */
  function Start(l: Layout, g: nat): nat {
    InWidth(l) * g
  }

  /** Index of output channel `j` of frame `g`, and of the input channel that belongs there. */
  function OutAt(l: Layout, g: nat, j: nat): nat {
    OutWidth(l) * g + j
  }

  function InAt(l: Layout, g: nat, j: nat): nat
    requires j < OutWidth(l)
  {
    Start(l, g) + Position(l, j)
  }

  /** The first `f` frames of `before` are reordered in `now`, and nothing behind them has changed. */
  ghost predicate Done(now: seq<real>, before: seq<real>, l: Layout, f: nat) {
    && |now| == |before| && Start(l, f) <= |now|
    && (forall g, j :: 0 <= g < f && 0 <= j < OutWidth(l) ==> Placed(now, before, l, g, j))
    && (forall k :: Start(l, f) <= k < |now| ==> now[k] == before[k])
  }

  predicate Placed(now: seq<real>, before: seq<real>, l: Layout, g: nat, j: nat)
    requires j < OutWidth(l)
  {
    OutAt(l, g, j) < |now| && InAt(l, g, j) < |before| && now[OutAt(l, g, j)] == before[InAt(l, g, j)]
  }

  /** One more frame: its channels are put in place from `now`, and neither earlier output nor later
      input is touched. */
  predicate Pass(now: seq<real>, next: seq<real>, l: Layout, f: nat) {
    && |next| == |now| && Start(l, f + 1) <= |now|
    && (forall j :: 0 <= j < OutWidth(l) ==> Placed(next, now, l, f, j))
    && (forall k :: 0 <= k < OutAt(l, f, 0) ==> next[k] == now[k])
    && (forall k :: Start(l, f + 1) <= k < |now| ==> next[k] == now[k])
  }

  lemma OutAtMonotone(l: Layout, g: nat, j: nat, f: nat)
    requires g < f && j < OutWidth(l)
    ensures OutAt(l, g, j) < OutAt(l, f, 0) <= Start(l, f)
    ensures Start(l, f) < Start(l, f + 1)
  {
    assert OutWidth(l) * g + OutWidth(l) <= OutWidth(l) * f;
    assert OutWidth(l) * f <= InWidth(l) * f;
  }

  lemma InAtWithin(l: Layout, g: nat, j: nat)
    requires j < OutWidth(l)
    ensures Start(l, g) <= InAt(l, g, j) < Start(l, g + 1)
  {
  }

  lemma PassExtends(now: seq<real>, next: seq<real>, before: seq<real>, l: Layout, f: nat)
    requires Done(now, before, l, f) && Pass(now, next, l, f)
    ensures Done(next, before, l, f + 1)
  {
    InAtWithin(l, f, 0);
    hide InAt, OutAt, Start, Placed, OutWidth;
    forall g, j | 0 <= g < f + 1 && 0 <= j < OutWidth(l)
      ensures Placed(next, before, l, g, j)
    {
      if g < f {
        assert Placed(now, before, l, g, j);
        PlacedStays(now, next, before, l, g, j, f);
      } else {
        assert Placed(next, now, l, f, j);
        PlacedNow(now, next, before, l, f, j);
      }
    }
  }

  lemma PlacedStays(now: seq<real>, next: seq<real>, before: seq<real>, l: Layout, g: nat, j: nat, f: nat)
    requires g < f && j < OutWidth(l) && Placed(now, before, l, g, j) && Pass(now, next, l, f)
    ensures Placed(next, before, l, g, j)
  {
    hide InAt, OutAt, Start;
    OutAtMonotone(l, g, j, f);
  }

  lemma PlacedNow(now: seq<real>, next: seq<real>, before: seq<real>, l: Layout, f: nat, j: nat)
    requires j < OutWidth(l) && Placed(next, now, l, f, j) && Done(now, before, l, f)
    ensures Placed(next, before, l, f, j)
  {
    hide InAt, OutAt, Start;
    InAtWithin(l, f, j);
  }

  /** Number of frames the loop visits for `n` samples; the last one may be incomplete. */
  function Frames(l: Layout, n: nat): nat {
    (n + InWidth(l) - 1) / InWidth(l)
  }

  lemma FramesCover(l: Layout, n: nat, f: nat)
    requires n <= Start(l, f) < n + InWidth(l)
    ensures f == Frames(l, n)
  {
  }

  // ---- the loops

  /** The four-wide store. */
  function Put4(s: seq<real>, at: nat, x0: real, x1: real, x2: real, x3: real): (r: seq<real>)
    requires at + 4 <= |s|
    ensures |r| == |s|
  {
    s[at := x0][at + 1 := x1][at + 2 := x2][at + 3 := x3]
  }

  method Store4(output: array<real>, at: nat, x0: real, x1: real, x2: real, x3: real)
    requires at + 4 <= output.Length
    modifies output
    ensures output[..] == Put4(old(output[..]), at, x0, x1, x2, x3)
  {
    output[at], output[at + 1], output[at + 2], output[at + 3] := x0, x1, x2, x3;
  }

  /** The rotated 64-bit word: two neighbours change places. */
  method Swap(output: array<real>, at: nat)
    requires at + 2 <= output.Length
    modifies output
    ensures output[..] == Swapped(old(output[..]), at)
  {
    output[at], output[at + 1] := output[at + 1], output[at];
  }

  function Swapped(s: seq<real>, at: nat): (r: seq<real>)
    requires at + 2 <= |s|
    ensures |r| == |s|
  {
    s[at := s[at + 1]][at + 1 := s[at]]
  }

  lemma NothingDone(s: seq<real>, l: Layout)
    ensures Done(s, s, l, 0)
  {
  }

  lemma Turn30(now: seq<real>, f: nat)
    requires 4 * f + 4 <= |now|
    ensures
      var i, o := 4 * f, 3 * f;
      Pass(now, Put4(now, o, now[i], now[i + 2], now[i + 1], now[i + 3]), Ch30, f)
  {
    var i, o := 4 * f, 3 * f;
    var next := Put4(now, o, now[i], now[i + 2], now[i + 1], now[i + 3]);
    assert next[o] == now[i] && next[o + 1] == now[i + 2] && next[o + 2] == now[i + 1];
    assert forall k :: 0 <= k < o || i + 4 <= k < |now| ==> next[k] == now[k];
    hide Put4, Swapped;
    forall j | 0 <= j < OutWidth(Ch30)
      ensures Placed(next, now, Ch30, f, j)
    {
      assert j == 0 || j == 1 || j == 2;
    }
  }

  method Reorder30(output: array<real>, n: nat)
    requires n + 7 <= output.Length
    modifies output
    ensures Done(output[..], old(output[..]), Ch30, Frames(Ch30, n))
  {
    hide Done, Pass, Frames, Put4;
    ghost var before, f := output[..], 0;
    NothingDone(before, Ch30);
    var i, o := 0, 0;
    while i < n
      invariant i == 4 * f && o == 3 * f && i < n + 4
      invariant Done(output[..], before, Ch30, f)
    {
      ghost var now := output[..];
      Turn30(now, f);
      Store4(output, o, output[i], output[i + 2], output[i + 1], output[i + 3]);
      PassExtends(now, output[..], before, Ch30, f);
      i, o, f := i + 4, o + 3, f + 1;
    }
    FramesCover(Ch30, n, f);
  }

  lemma Turn21(now: seq<real>, f: nat)
    requires 4 * f + 4 <= |now|
    ensures
      var i, o := 4 * f, 3 * f;
      Pass(now, Put4(now, o, now[i], now[i + 1], now[i + 2], now[i + 3]), Ch21, f)
  {
    var i, o := 4 * f, 3 * f;
    var next := Put4(now, o, now[i], now[i + 1], now[i + 2], now[i + 3]);
    assert next[o] == now[i] && next[o + 1] == now[i + 1] && next[o + 2] == now[i + 2];
    assert forall k :: 0 <= k < o || i + 4 <= k < |now| ==> next[k] == now[k];
    hide Put4, Swapped;
    forall j | 0 <= j < OutWidth(Ch21)
      ensures Placed(next, now, Ch21, f, j)
    {
      assert j == 0 || j == 1 || j == 2;
    }
  }

  method Reorder21(output: array<real>, n: nat)
    requires n + 7 <= output.Length
    modifies output
    ensures Done(output[..], old(output[..]), Ch21, Frames(Ch21, n))
  {
    hide Done, Pass, Frames, Put4;
    ghost var before, f := output[..], 0;
    NothingDone(before, Ch21);
    var i, o := 0, 0;
    while i < n
      invariant i == 4 * f && o == 3 * f && i < n + 4
      invariant Done(output[..], before, Ch21, f)
    {
      ghost var now := output[..];
      Turn21(now, f);
      Store4(output, o, output[i], output[i + 1], output[i + 2], output[i + 3]);
      PassExtends(now, output[..], before, Ch21, f);
      i, o, f := i + 4, o + 3, f + 1;
    }
    FramesCover(Ch21, n, f);
  }

  lemma Turn31(now: seq<real>, f: nat)
    requires 4 * f + 4 <= |now|
    ensures
      var i, o := 4 * f, 4 * f;
      Pass(now, Swapped(now, i + 1), Ch31, f)
  {
    var i, o := 4 * f, 4 * f;
    var next := Swapped(now, i + 1);
    assert next[o] == now[i] && next[o + 1] == now[i + 2] && next[o + 2] == now[i + 1] && next[o + 3] == now[i + 3];
    assert forall k :: 0 <= k < o || i + 4 <= k < |now| ==> next[k] == now[k];
    hide Put4, Swapped;
    forall j | 0 <= j < OutWidth(Ch31)
      ensures Placed(next, now, Ch31, f, j)
    {
      assert j == 0 || j == 1 || j == 2 || j == 3;
    }
  }

  method Reorder31(output: array<real>, n: nat)
    requires n + 7 <= output.Length
    modifies output
    ensures Done(output[..], old(output[..]), Ch31, Frames(Ch31, n))
  {
    hide Done, Pass, Frames, Put4;
    ghost var before, f := output[..], 0;
    NothingDone(before, Ch31);
    var i := 0;
    while i < n
      invariant i == 4 * f && i < n + 4
      invariant Done(output[..], before, Ch31, f)
    {
      ghost var now := output[..];
      Turn31(now, f);
      Swap(output, i + 1);
      PassExtends(now, output[..], before, Ch31, f);
      i, f := i + 4, f + 1;
    }
    FramesCover(Ch31, n, f);
  }

  lemma Turn32Lfe(now: seq<real>, f: nat)
    requires 6 * f + 6 <= |now|
    ensures
      var i, o := 6 * f, 6 * f;
      Pass(now, Swapped(now, i + 1), Ch32Lfe, f)
  {
    var i, o := 6 * f, 6 * f;
    var next := Swapped(now, i + 1);
    assert next[o] == now[i] && next[o + 1] == now[i + 2] && next[o + 2] == now[i + 1] && next[o + 3] == now[i + 3];
    assert next[o + 4] == now[i + 4] && next[o + 5] == now[i + 5];
    assert forall k :: 0 <= k < o || i + 6 <= k < |now| ==> next[k] == now[k];
    hide Put4, Swapped;
    forall j | 0 <= j < OutWidth(Ch32Lfe)
      ensures Placed(next, now, Ch32Lfe, f, j)
    {
      assert j == 0 || j == 1 || j == 2 || j == 3 || j == 4 || j == 5;
    }
  }

  method Reorder32Lfe(output: array<real>, n: nat)
    requires n + 7 <= output.Length
    modifies output
    ensures Done(output[..], old(output[..]), Ch32Lfe, Frames(Ch32Lfe, n))
  {
    hide Done, Pass, Frames, Put4;
    ghost var before, f := output[..], 0;
    NothingDone(before, Ch32Lfe);
    var i := 0;
    while i < n
      invariant i == 6 * f && i < n + 6
      invariant Done(output[..], before, Ch32Lfe, f)
    {
      ghost var now := output[..];
      Turn32Lfe(now, f);
      Swap(output, i + 1);
      PassExtends(now, output[..], before, Ch32Lfe, f);
      i, f := i + 6, f + 1;
    }
    FramesCover(Ch32Lfe, n, f);
  }

  lemma Turn32(now: seq<real>, f: nat)
    requires 6 * f + 6 <= |now|
    ensures
      var put := Put4(now, 5 * f, now[6 * f], now[6 * f + 2], now[6 * f + 1], now[6 * f + 3]);
      Pass(now, put[5 * f + 4 := put[6 * f + 4]], Ch32, f)
  {
    var i, o := 6 * f, 5 * f;
    var put := Put4(now, o, now[i], now[i + 2], now[i + 1], now[i + 3]);
    var next := put[o + 4 := put[i + 4]];
    assert next[o] == now[i] && next[o + 1] == now[i + 2] && next[o + 2] == now[i + 1] && next[o + 3] == now[i + 3];
    assert next[o + 4] == now[i + 4];
    assert forall k :: 0 <= k < o || i + 6 <= k < |now| ==> next[k] == now[k];
    hide Put4;
    forall j | 0 <= j < OutWidth(Ch32)
      ensures Placed(next, now, Ch32, f, j)
    {
      assert j == 0 || j == 1 || j == 2 || j == 3 || j == 4;
    }
  }

  method Reorder32(output: array<real>, n: nat)
    requires n + 7 <= output.Length
    modifies output
    ensures Done(output[..], old(output[..]), Ch32, Frames(Ch32, n))
  {
    hide Done, Pass, Frames, Put4;
    ghost var before, f := output[..], 0;
    NothingDone(before, Ch32);
    var i, o := 0, 0;
    while i < n
      invariant i == 6 * f && o == 5 * f && i < n + 6
      invariant Done(output[..], before, Ch32, f)
    {
      ghost var now := output[..];
      Turn32(now, f);
      Store4(output, o, output[i], output[i + 2], output[i + 1], output[i + 3]);
      ghost var put := output[..];
      output[o + 4] := output[i + 4];
      assert output[..] == put[o + 4 := put[i + 4]];
      PassExtends(now, output[..], before, Ch32, f);
      i, o, f := i + 6, o + 5, f + 1;
    }
    FramesCover(Ch32, n, f);
  }

  lemma Turn34(now: seq<real>, f: nat)
    requires 8 * f + 8 <= |now|
    ensures
      var i, o := 8 * f, 7 * f;
      Pass(now, Put4(Put4(now, o, now[i], now[i + 2], now[i + 1], now[i + 3]),
                     o + 4, now[i + 6], now[i + 4], now[i + 5], now[i + 7]), Ch34, f)
  {
    var i, o := 8 * f, 7 * f;
    var next := Put4(Put4(now, o, now[i], now[i + 2], now[i + 1], now[i + 3]),
                     o + 4, now[i + 6], now[i + 4], now[i + 5], now[i + 7]);
    assert next[o] == now[i] && next[o + 1] == now[i + 2] && next[o + 2] == now[i + 1] && next[o + 3] == now[i + 3];
    assert next[o + 4] == now[i + 6] && next[o + 5] == now[i + 4] && next[o + 6] == now[i + 5];
    assert forall k :: 0 <= k < o || i + 8 <= k < |now| ==> next[k] == now[k];
    hide Put4, Swapped;
    forall j | 0 <= j < OutWidth(Ch34)
      ensures Placed(next, now, Ch34, f, j)
    {
      assert j == 0 || j == 1 || j == 2 || j == 3 || j == 4 || j == 5 || j == 6;
    }
  }

  method Reorder34(output: array<real>, n: nat)
    requires n + 7 <= output.Length
    modifies output
    ensures Done(output[..], old(output[..]), Ch34, Frames(Ch34, n))
  {
    hide Done, Pass, Frames, Put4;
    ghost var before, f := output[..], 0;
    NothingDone(before, Ch34);
    var i, o := 0, 0;
    while i < n
      invariant i == 8 * f && o == 7 * f && i < n + 8
      invariant Done(output[..], before, Ch34, f)
    {
      ghost var now := output[..];
      Turn34(now, f);
      var x0, x1, x2, x3 := output[i], output[i + 2], output[i + 1], output[i + 3];
      var y0, y1, y2, y3 := output[i + 6], output[i + 4], output[i + 5], output[i + 7];
      Store4(output, o, x0, x1, x2, x3);
      Store4(output, o + 4, y0, y1, y2, y3);
      PassExtends(now, output[..], before, Ch34, f);
      i, o, f := i + 8, o + 7, f + 1;
    }
    FramesCover(Ch34, n, f);
  }

  lemma Turn34Lfe(now: seq<real>, f: nat)
    requires 8 * f + 8 <= |now|
    ensures
      var i, o := 8 * f, 8 * f;
      Pass(now, Swapped(Put4(now, i + 4, now[i + 7], now[i + 6], now[i + 4], now[i + 5]), i + 3), Ch34Lfe, f)
  {
    var i, o := 8 * f, 8 * f;
    var next := Swapped(Put4(now, i + 4, now[i + 7], now[i + 6], now[i + 4], now[i + 5]), i + 3);
    assert next[o] == now[i] && next[o + 1] == now[i + 1] && next[o + 2] == now[i + 2] && next[o + 3] == now[i + 7];
    assert next[o + 4] == now[i + 3] && next[o + 5] == now[i + 6] && next[o + 6] == now[i + 4]
        && next[o + 7] == now[i + 5];
    assert forall k :: 0 <= k < o || i + 8 <= k < |now| ==> next[k] == now[k];
    hide Put4, Swapped;
    forall j | 0 <= j < OutWidth(Ch34Lfe)
      ensures Placed(next, now, Ch34Lfe, f, j)
    {
      assert j == 0 || j == 1 || j == 2 || j == 3 || j == 4 || j == 5 || j == 6 || j == 7;
    }
  }

  method Reorder34Lfe(output: array<real>, n: nat)
    requires n + 7 <= output.Length
    modifies output
    ensures Done(output[..], old(output[..]), Ch34Lfe, Frames(Ch34Lfe, n))
  {
    hide Done, Pass, Frames, Put4;
    ghost var before, f := output[..], 0;
    NothingDone(before, Ch34Lfe);
    var i := 0;
    while i < n
      invariant i == 8 * f && i < n + 8
      invariant Done(output[..], before, Ch34Lfe, f)
    {
      ghost var now := output[..];
      Turn34Lfe(now, f);
      Store4(output, i + 4, output[i + 7], output[i + 6], output[i + 4], output[i + 5]);
      Swap(output, i + 3);
      PassExtends(now, output[..], before, Ch34Lfe, f);
      i, f := i + 8, f + 1;
    }
    FramesCover(Ch34Lfe, n, f);
  }

  /** Four mono frames a turn. */
  lemma TurnMono(now: seq<real>, before: seq<real>, t: nat)
    requires Done(now, before, Mono, 4 * t) && 8 * t + 8 <= |now|
    ensures Done(Put4(now, 4 * t, now[8 * t], now[8 * t + 2], now[8 * t + 4], now[8 * t + 6]), before, Mono, 4 * t + 4)
  {
    var next := Put4(now, 4 * t, now[8 * t], now[8 * t + 2], now[8 * t + 4], now[8 * t + 6]);
    forall g, j | 0 <= g < 4 * t + 4 && 0 <= j < OutWidth(Mono)
      ensures Placed(next, before, Mono, g, j)
    {
      if g < 4 * t {
        assert Placed(now, before, Mono, g, j);
      }
    }
  }

  method ReorderMono(output: array<real>, n: nat)
    requires n + 7 <= output.Length
    modifies output
    ensures Done(output[..], old(output[..]), Mono, MonoFrames(n))
  {
    hide Done, Put4;
    ghost var before, t := output[..], 0;
    NothingDone(before, Mono);
    var i := 0;
    while i < n / 2
      invariant i == 4 * t && i < n / 2 + 4
      invariant Done(output[..], before, Mono, 4 * t)
    {
      TurnMono(output[..], before, t);
      Store4(output, i, output[i * 2], output[i * 2 + 2], output[i * 2 + 4], output[i * 2 + 6]);
      i, t := i + 4, t + 1;
    }
  }

  /** Every whole mono frame of `n` samples is visited, and up to three more. */
  function MonoFrames(n: nat): (f: nat)
    ensures n / 2 <= f < n / 2 + 4
  {
    (n / 2 + 3) / 4 * 4
  }

  /** Stereo and two front with two surround channels are in output order already. */
  lemma AlreadyOrdered(s: seq<real>, l: Layout, n: nat)
    requires l.Stereo? || l.Ch22?
    requires n + 7 <= |s|
    ensures Done(s, s, l, Frames(l, n))
  {
  }

  function Visited(l: Layout, n: nat): (f: nat)
    ensures n <= Start(l, f) + if l == Mono then 1 else 0
  {
    if l == Mono then MonoFrames(n) else Frames(l, n)
  }

  /** The reordering of `n` samples in a buffer with room for seven more: every output channel of
      every frame is the input channel that the documented orders give it. */
  method Reorder(l: Layout, output: array<real>, n: nat)
    requires n + 7 <= output.Length
    modifies output
    ensures Done(output[..], old(output[..]), l, Visited(l, n))
  {
    hide Done, Frames, MonoFrames;
    match l
    case Mono => ReorderMono(output, n);
    case Stereo => AlreadyOrdered(output[..], l, n);
    case Ch30 => Reorder30(output, n);
    case Ch21 => Reorder21(output, n);
    case Ch31 => Reorder31(output, n);
    case Ch22 => AlreadyOrdered(output[..], l, n);
    case Ch32 => Reorder32(output, n);
    case Ch32Lfe => Reorder32Lfe(output, n);
    case Ch34 => Reorder34(output, n);
    case Ch34Lfe => Reorder34Lfe(output, n);
  }
}
