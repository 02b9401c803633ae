/** How the packets of a video stream become access units: where the demuxer cuts, and which time
    stamps a unit gets. */
module VideoUnits {
  import opened MachineInts
  import opened PesHeaders
  import opened AccessUnitQueue

  /** A stream that holds this much is cut before the next packet. */
  const AVC_LIMIT := 0x69800

  /** A whole packet and the stamps in its header. */
  datatype Packet = Packet(bytes: seq<u8>, stamps: Stamps)

  /** The part of a stream that the cutting uses: the bytes of the unit that has begun, the last stamps
      seen, and the units. */
  datatype Video = Video(held: seq<u8>, dts: u64, pts: u64, units: seq<AccessUnit>)

  predicate IsCut(v: Video, p: Packet) {
    (p.stamps.hasTs && v.held != []) || |v.held| >= AVC_LIMIT
  }

  function UnitOf(bytes: seq<u8>, dts: u64, pts: u64, userData: u64): AccessUnit {
    AccessUnit(bytes, dts, pts, userData, false, 0)
  }

  /** One packet more. The unit that is cut gets the stamps kept before this packet. */
  function Take(v: Video, p: Packet, userData: u64): Video {
    Video(
      (if IsCut(v, p) then [] else v.held) + p.bytes,
      if p.stamps.hasTs then p.stamps.dts else v.dts,
      if p.stamps.hasTs then p.stamps.pts else v.pts,
      v.units + if IsCut(v, p) then [UnitOf(v.held, v.dts, v.pts, userData)] else [])
  }

  function TakeAll(v: Video, ps: seq<Packet>, userData: u64): Video {
    if ps == [] then v else Take(TakeAll(v, ps[..|ps| - 1], userData), ps[|ps| - 1], userData)
  }

  lemma {:induction false} TakeAllCat(v: Video, ps: seq<Packet>, qs: seq<Packet>, userData: u64)
    ensures TakeAll(v, ps + qs, userData) == TakeAll(TakeAll(v, ps, userData), qs, userData)
    decreases |qs|
  {
    hide Take;
    if qs == [] {
      assert ps + qs == ps;
    } else {
      assert (ps + qs)[..|ps + qs| - 1] == ps + qs[..|qs| - 1];
      TakeAllCat(v, ps, qs[..|qs| - 1], userData);
    }
  }

  lemma TakeOne(v: Video, p: Packet, userData: u64)
    ensures TakeAll(v, [], userData) == v && TakeAll(v, [p], userData) == Take(v, p, userData)
  {
  }

  // ---- groups of packets

  function Flat<T>(gs: seq<seq<T>>): seq<T> {
    if gs == [] then [] else Flat(gs[..|gs| - 1]) + gs[|gs| - 1]
  }

  function BytesOf(ps: seq<Packet>): seq<u8> {
    if ps == [] then [] else BytesOf(ps[..|ps| - 1]) + ps[|ps| - 1].bytes
  }

  /** The packets of one unit: only the first may carry a stamp, and before its last one the unit was
      below the limit. */
  ghost predicate IsGroup(g: seq<Packet>) {
    && g != []
    && (forall i :: 0 < i < |g| ==> !g[i].stamps.hasTs)
    && (forall i :: 0 < i < |g| ==> |BytesOf(g[..i])| < AVC_LIMIT)
  }

  /** A unit ends where the next packet carries a stamp or the limit is reached. */
  predicate IsClosed(g: seq<Packet>, next: Packet) {
    next.stamps.hasTs || |BytesOf(g)| >= AVC_LIMIT
  }

  ghost predicate AreGroups(gs: seq<seq<Packet>>) {
    && (forall i :: 0 <= i < |gs| ==> IsGroup(gs[i]))
    && (forall i :: 0 <= i < |gs| - 1 ==> IsClosed(gs[i], gs[i + 1][0]))
  }

  /** The stamps of the last packet of `ps` that carries some, or those given. */
  function LastStamps(ps: seq<Packet>, dts: u64, pts: u64): (u64, u64) {
    if ps == [] then (dts, pts)
    else if ps[|ps| - 1].stamps.hasTs then (ps[|ps| - 1].stamps.dts, ps[|ps| - 1].stamps.pts)
    else LastStamps(ps[..|ps| - 1], dts, pts)
  }

  /** Unit `at` is that of group `k`: all its bytes, with the stamps of its first packet or, if that
      carries none, those of the last packet before it that does. */
  ghost predicate IsUnitOf(units: seq<AccessUnit>, at: nat, gs: seq<seq<Packet>>, k: nat, v: Video, userData: u64) {
    && k < |gs| && gs[k] != [] && at < |units|
    && var stamps := LastStamps(Flat(gs[..k]) + [gs[k][0]], v.dts, v.pts);
       units[at] == AccessUnit(BytesOf(gs[k]), stamps.0, stamps.1, userData, false, 0)
  }

  /** The units behind those of `v` are the groups `gs` but the last. */
  ghost predicate AreUnits(v: Video, gs: seq<seq<Packet>>, units: seq<AccessUnit>, userData: u64)
    requires gs != []
  {
    && |units| == |v.units| + |gs| - 1 && units[..|v.units|] == v.units
    && forall at, k {:trigger IsUnitOf(units, at, gs, k, v, userData)} ::
         0 <= k < |gs| - 1 && at == |v.units| + k ==> IsUnitOf(units, at, gs, k, v, userData)
  }

  /** `gs` are the packets, grouped; the last group is the unit that has begun, every other one a unit
      that was cut. */
  ghost predicate Grouped(v: Video, ps: seq<Packet>, gs: seq<seq<Packet>>, r: Video, userData: u64) {
    && gs != [] && AreGroups(gs) && Flat(gs) == ps
    && r.held == BytesOf(gs[|gs| - 1]) && (r.dts, r.pts) == LastStamps(ps, v.dts, v.pts)
    && AreUnits(v, gs, r.units, userData)
  }

  /** The stamps of the last packet that has some, at place `j`. */
  lemma {:induction false} LastStampsAre(ps: seq<Packet>, dts: u64, pts: u64, j: int)
    requires -1 <= j < |ps| && (0 <= j ==> ps[j].stamps.hasTs) && forall i :: j < i < |ps| ==> !ps[i].stamps.hasTs
    ensures var s := LastStamps(ps, dts, pts);
            if j < 0 then s.0 == dts && s.1 == pts else s.0 == ps[j].stamps.dts && s.1 == ps[j].stamps.pts
    decreases |ps|
  {
    if j < |ps| - 1 {
      LastStampsAre(ps[..|ps| - 1], dts, pts, j);
    }
  }

  lemma {:induction false} LastStampsCat(ps: seq<Packet>, qs: seq<Packet>, dts: u64, pts: u64)
    ensures LastStamps(ps + qs, dts, pts)
         == var s := LastStamps(ps, dts, pts); LastStamps(qs, s.0, s.1)
    decreases |qs|
  {
    if qs == [] {
      assert ps + qs == ps;
    } else {
      assert (ps + qs)[..|ps + qs| - 1] == ps + qs[..|qs| - 1];
      LastStampsCat(ps, qs[..|qs| - 1], dts, pts);
    }
  }

  /** Only the first packet of a group matters for its stamps. */
  lemma {:induction false} GroupStamps(g: seq<Packet>, dts: u64, pts: u64)
    requires g != [] && forall i :: 0 < i < |g| ==> !g[i].stamps.hasTs
    ensures LastStamps(g, dts, pts) == LastStamps([g[0]], dts, pts)
    decreases |g|
  {
    if |g| == 1 {
      assert g == [g[0]];
    } else {
      GroupStamps(g[..|g| - 1], dts, pts);
    }
  }

  lemma FlatMore<T>(gs: seq<seq<T>>, g: seq<T>)
    ensures Flat(gs + [g]) == Flat(gs) + g
  {
    assert (gs + [g])[..|gs|] == gs;
  }

  lemma BytesMore(g: seq<Packet>, p: Packet)
    ensures BytesOf(g + [p]) == BytesOf(g) + p.bytes
  {
    assert (g + [p])[..|g|] == g;
  }

  lemma {:induction false} GroupHasBytes(g: seq<Packet>)
    requires forall i :: 0 <= i < |g| ==> g[i].bytes != []
    ensures BytesOf(g) == [] <==> g == []
    decreases |g|
  {
    if g != [] {
      GroupHasBytes(g[..|g| - 1]);
    }
  }

  lemma FirstGroup(v: Video, p: Packet, userData: u64)
    requires v.held == []
    ensures Grouped(v, [p], [[p]], Take(v, p, userData), userData)
  {
    assert Flat([[p]]) == [p] by { FlatMore([], [p]); }
    assert BytesOf([p]) == p.bytes by { BytesMore([], p); }
    assert [p][..0] == [];
  }

  /** The stamps kept when the last group is cut are its own. */
  lemma LastGroupStamps(ps: seq<Packet>, gs: seq<seq<Packet>>, dts: u64, pts: u64)
    requires gs != [] && AreGroups(gs) && Flat(gs) == ps
    ensures var k := |gs| - 1; LastStamps(ps, dts, pts) == LastStamps(Flat(gs[..k]) + [gs[k][0]], dts, pts)
  {
    var k := |gs| - 1;
    var before := Flat(gs[..k]);
    assert ps == before + gs[k];
    LastStampsCat(before, gs[k], dts, pts);
    LastStampsCat(before, [gs[k][0]], dts, pts);
    var s := LastStamps(before, dts, pts);
    GroupStamps(gs[k], s.0, s.1);
  }

  lemma GroupsClose(gs: seq<seq<Packet>>, p: Packet)
    requires gs != [] && AreGroups(gs) && IsClosed(gs[|gs| - 1], p)
    ensures AreGroups(gs + [[p]])
  {
    hide IsClosed, IsGroup;
    assert IsGroup([p]) by { OnePacketIsGroup(p); }
  }

  lemma OnePacketIsGroup(p: Packet)
    ensures IsGroup([p])
  {
  }

  lemma GroupGrows(g: seq<Packet>, p: Packet)
    requires IsGroup(g) && !IsClosed(g, p)
    ensures IsGroup(g + [p])
  {
    var h := g + [p];
    forall i | 0 < i < |h| ensures |BytesOf(h[..i])| < AVC_LIMIT && !h[i].stamps.hasTs {
      assert h[..i] == if i == |g| then g else g[..i];
    }
  }

  lemma GroupsGrow(gs: seq<seq<Packet>>, p: Packet)
    requires gs != [] && AreGroups(gs) && !IsClosed(gs[|gs| - 1], p)
    ensures var k := |gs| - 1; AreGroups(gs[..k] + [gs[k] + [p]])
  {
    var k := |gs| - 1;
    GroupGrows(gs[k], p);
    var hs := gs[..k] + [gs[k] + [p]];
    assert gs[k] != [] && hs[k][0] == gs[k][0];
    hide IsClosed, IsGroup;
  }

  /** What was said of the earlier units does not depend on the last group. */
  lemma SameUnit(units: seq<AccessUnit>, more: seq<AccessUnit>, at: nat, gs: seq<seq<Packet>>, hs: seq<seq<Packet>>,
                 k: nat, v: Video, userData: u64)
    requires IsUnitOf(units, at, gs, k, v, userData) && units <= more
    requires k < |hs| && hs[..k] == gs[..k] && hs[k] == gs[k]
    ensures IsUnitOf(more, at, hs, k, v, userData)
  {
  }

  /** A unit that is cut joins the earlier ones. */
  lemma CutUnits(v: Video, gs: seq<seq<Packet>>, units: seq<AccessUnit>, unit: AccessUnit, p: Packet, userData: u64)
    requires gs != [] && AreUnits(v, gs, units, userData)
    requires IsUnitOf(units + [unit], |units|, gs, |gs| - 1, v, userData)
    ensures AreUnits(v, gs + [[p]], units + [unit], userData)
  {
    var k := |gs| - 1;
    var hs, more := gs + [[p]], units + [unit];
    hide IsUnitOf;
    forall at, i | 0 <= i < |hs| - 1 && at == |v.units| + i ensures IsUnitOf(more, at, hs, i, v, userData) {
      assert hs[..i] == gs[..i] && hs[i] == gs[i];
      if i < k {
        assert IsUnitOf(units, at, gs, i, v, userData);
        SameUnit(units, more, at, gs, hs, i, v, userData);
      } else {
        SameUnit(more, more, at, gs, hs, i, v, userData);
      }
    }
  }

  lemma CutGrouped(v: Video, ps: seq<Packet>, gs: seq<seq<Packet>>, r: Video, p: Packet, userData: u64)
    requires Grouped(v, ps, gs, r, userData) && IsCut(r, p) && IsClosed(gs[|gs| - 1], p)
    ensures Grouped(v, ps + [p], gs + [[p]], Take(r, p, userData), userData)
  {
    GroupsClose(gs, p);
    FlatMore(gs, [p]);
    BytesMore([], p);
    assert [] + [p] == [p] && [] + p.bytes == p.bytes && gs[|gs| - 1] != [];
    LastGroupStamps(ps, gs, v.dts, v.pts);
    LastStampsCat(ps, [p], v.dts, v.pts);
    OneStamp(p, r.dts, r.pts);
    hide AreGroups, IsClosed, IsGroup, LastStamps, Flat, BytesOf, AreUnits;
    CutUnits(v, gs, r.units, UnitOf(r.held, r.dts, r.pts, userData), p, userData);
  }

  lemma OneStamp(p: Packet, dts: u64, pts: u64)
    ensures LastStamps([p], dts, pts) == if p.stamps.hasTs then (p.stamps.dts, p.stamps.pts) else (dts, pts)
  {
  }

  lemma GrownUnits(v: Video, gs: seq<seq<Packet>>, units: seq<AccessUnit>, g: seq<Packet>, userData: u64)
    requires gs != [] && AreUnits(v, gs, units, userData)
    ensures AreUnits(v, gs[..|gs| - 1] + [g], units, userData)
  {
    var k := |gs| - 1;
    var hs := gs[..k] + [g];
    hide IsUnitOf;
    forall at, i | 0 <= i < |hs| - 1 && at == |v.units| + i ensures IsUnitOf(units, at, hs, i, v, userData) {
      assert IsUnitOf(units, at, gs, i, v, userData);
      assert hs[..i] == gs[..i] && hs[i] == gs[i];
      SameUnit(units, units, at, gs, hs, i, v, userData);
    }
  }

  lemma GrownGrouped(v: Video, ps: seq<Packet>, gs: seq<seq<Packet>>, r: Video, p: Packet, userData: u64)
    requires Grouped(v, ps, gs, r, userData) && !IsCut(r, p) && !IsClosed(gs[|gs| - 1], p)
    ensures var k := |gs| - 1;
            Grouped(v, ps + [p], gs[..k] + [gs[k] + [p]], Take(r, p, userData), userData)
  {
    var k := |gs| - 1;
    GroupsGrow(gs, p);
    FlatMore(gs[..k], gs[k] + [p]);
    BytesMore(gs[k], p);
    assert Flat(gs[..k]) + (gs[k] + [p]) == ps + [p];
    LastStampsCat(ps, [p], v.dts, v.pts);
    OneStamp(p, r.dts, r.pts);
    GrownUnits(v, gs, r.units, gs[k] + [p], userData);
    assert r.units + [] == r.units;
    hide AreGroups, IsClosed, IsGroup, LastStamps, Flat, BytesOf, AreUnits;
  }

  lemma PacketOfGroup(gs: seq<seq<Packet>>, ps: seq<Packet>, p: Packet)
    requires gs != [] && Flat(gs) == ps && p in gs[|gs| - 1]
    ensures p in ps
  {
  }

  /** The demuxer cuts exactly where the unit held is closed: its packets are not empty. */
  lemma CutIffClosed(v: Video, ps: seq<Packet>, gs: seq<seq<Packet>>, r: Video, p: Packet, userData: u64)
    requires Grouped(v, ps, gs, r, userData) && forall q :: q in ps ==> q.bytes != []
    ensures IsCut(r, p) <==> IsClosed(gs[|gs| - 1], p)
  {
    var g := gs[|gs| - 1];
    forall i | 0 <= i < |g| ensures g[i].bytes != [] {
      PacketOfGroup(gs, ps, g[i]);
    }
    assert IsGroup(g);
    GroupHasBytes(g);
  }

  /** The units of a video stream are its packets in order, grouped: a unit goes on up to the next time
      stamp or the size limit, and carries the stamps of the packet that began it or, where the limit
      had cut, the last ones before that. */
  lemma {:induction false} UnitsAreGroups(v: Video, ps: seq<Packet>, userData: u64) returns (gs: seq<seq<Packet>>)
    requires v.held == [] && ps != [] && forall p :: p in ps ==> p.bytes != []
    ensures Grouped(v, ps, gs, TakeAll(v, ps, userData), userData)
    decreases |ps|
  {
    var n := |ps| - 1;
    var front, p := ps[..n], ps[n];
    assert ps == front + [p];
    if n == 0 {
      assert TakeAll(v, front, userData) == v && ps == [p];
      gs := [[p]];
      FirstGroup(v, p, userData);
    } else {
      hide Grouped, IsCut, IsClosed, Take;
      gs := UnitsAreGroups(v, front, userData);
      var r := TakeAll(v, front, userData);
      assert gs != [] by { GroupedSome(v, front, gs, r, userData); }
      CutIffClosed(v, front, gs, r, p, userData);
      if IsCut(r, p) {
        CutGrouped(v, front, gs, r, p, userData);
        gs := gs + [[p]];
      } else {
        GrownGrouped(v, front, gs, r, p, userData);
        var k := |gs| - 1;
        gs := gs[..k] + [gs[k] + [p]];
      }
    }
  }

  lemma GroupedSome(v: Video, ps: seq<Packet>, gs: seq<seq<Packet>>, r: Video, userData: u64)
    requires Grouped(v, ps, gs, r, userData)
    ensures gs != []
  {
  }
}
