/** Geometry of the access-unit ring of an elementary stream: where blocks lie, when a new
    one fits, and what releasing does to the free space. */
module RingLayout {
  import opened MachineInts

  /** One access unit in guest memory: a 128-byte header at `at`, then `size` bytes. */
  datatype Block = Block(at: nat, size: nat) {
    function End(): nat { at + 128 + size }
    function Next(): nat { AlignUp128(End()) }
  }

  /** `blocks` holds the live blocks, oldest first; the first `lap` of them were written
      before the write position last wrapped. */
  datatype Ring = Ring(base: nat, limit: nat, put: nat, blocks: seq<Block>, lap: nat)

  ghost predicate Ordered(blocks: seq<Block>, lo: nat, hi: nat)
    requires lo <= hi <= |blocks|
  {
    forall i, j :: lo <= i < j < hi ==> blocks[i].Next() <= blocks[j].at
  }

  /** `put` went back to the start for a block that is still live, the oldest of the newer ones. */
  predicate StartTaken(r: Ring) {
    r.lap > 0 ==> r.lap < |r.blocks| && r.blocks[r.lap].at == r.base
  }

  ghost predicate Valid(r: Ring) {
    && StartTaken(r)
    && r.base % 128 == 0 && r.put % 128 == 0 && r.base <= r.put < r.limit + 128
    && r.lap <= |r.blocks|
    && (forall i :: 0 <= i < |r.blocks| ==>
          r.blocks[i].at % 128 == 0 && r.base <= r.blocks[i].at && r.blocks[i].End() <= r.limit)
    && Ordered(r.blocks, 0, r.lap) && Ordered(r.blocks, r.lap, |r.blocks|)
    && (forall i :: 0 <= i < r.lap ==> r.put <= r.blocks[i].at)
    && (forall i :: r.lap <= i < |r.blocks| ==> r.blocks[i].Next() <= r.put)
  }

  /** Whether a block for `size` bytes fits without touching a live one. */
  predicate Fits(r: Ring, size: nat) {
    || r.blocks == []
    || var first := r.blocks[0].at;
       if first >= r.put then first - r.put >= size + 128
       else if r.put + size + 128 > r.limit then first - r.base >= size + 128
       else true
  }

  function PlaceFor(r: Ring, size: nat): nat {
    if r.put + size + 128 > r.limit then r.base else r.put
  }

  function Push(r: Ring, size: nat): Ring {
    var b := Block(PlaceFor(r, size), size);
    r.(put := b.Next(),
       blocks := r.blocks + [b],
       lap := if r.put + size + 128 > r.limit then |r.blocks| else r.lap)
  }

  function Release(r: Ring): Ring
    requires r.blocks != []
  {
    r.(blocks := r.blocks[1..], lap := if r.lap == 0 then 0 else r.lap - 1)
  }

  ghost predicate Disjoint(a: Block, b: Block) {
    a.End() <= b.at || b.End() <= a.at
  }

  /** Live blocks never overlap, whichever side of the wrap they are on. */
  lemma BlocksDisjoint(r: Ring)
    requires Valid(r)
    ensures forall i, j :: 0 <= i < j < |r.blocks| ==> Disjoint(r.blocks[i], r.blocks[j])
  {
    forall i, j | 0 <= i < j < |r.blocks|
      ensures Disjoint(r.blocks[i], r.blocks[j])
    {
      if i < r.lap <= j {
        assert r.blocks[j].Next() <= r.put <= r.blocks[i].at;
      } else {
        assert r.blocks[i].Next() <= r.blocks[j].at;
      }
    }
  }

  /** The block that `Push` adds ends, alignment included, at or below every live block that
      lies ahead of it. */
  lemma PushStaysBelow(r: Ring, size: nat, i: nat)
    requires Valid(r) && Fits(r, size) && r.base + size + 128 <= r.limit
    requires i < |r.blocks| && PlaceFor(r, size) <= r.blocks[i].at
    ensures Block(PlaceFor(r, size), size).Next() <= r.blocks[i].at
  {
    var b := Block(PlaceFor(r, size), size);
    var first := r.blocks[0];
    if i > 0 && (r.lap == 0 || i < r.lap) {
      assert first.Next() <= r.blocks[i].at;
    }
    AlignUp128Least(b.End(), r.blocks[i].at);
  }

  /** The new block lies behind the newer blocks, and starts a run of its own where `put` goes back. */
  lemma PushKeepsOrder(r: Ring, size: nat)
    requires Valid(r) && Fits(r, size)
    ensures var s := Push(r, size);
            Ordered(s.blocks, 0, s.lap) && Ordered(s.blocks, s.lap, |s.blocks|) && StartTaken(s)
  {
    var s := Push(r, size);
    if r.put + size + 128 > r.limit {
      NoLapAtTheEnd(r, size);
      assert Ordered(s.blocks, 0, s.lap);
    } else {
      assert forall i :: r.lap <= i < |r.blocks| ==> s.blocks[i].Next() <= r.put == s.blocks[|r.blocks|].at;
    }
  }

  lemma NoLapAtTheEnd(r: Ring, size: nat)
    requires Valid(r) && Fits(r, size) && r.put + size + 128 > r.limit
    ensures r.lap == 0
  {
    assert r.blocks != [] ==> r.blocks[0].End() <= r.limit;
  }

  lemma PushKeepsPlaces(r: Ring, size: nat)
    requires Valid(r) && Fits(r, size) && r.base + size + 128 <= r.limit
    ensures var s := Push(r, size);
            && s.base % 128 == 0 && s.put % 128 == 0 && s.base <= s.put < s.limit + 128 && s.lap <= |s.blocks|
            && (forall i :: 0 <= i < |s.blocks| ==>
                  s.blocks[i].at % 128 == 0 && s.base <= s.blocks[i].at && s.blocks[i].End() <= s.limit)
            && (forall i :: 0 <= i < s.lap ==> s.put <= s.blocks[i].at)
            && (forall i :: s.lap <= i < |s.blocks| ==> s.blocks[i].Next() <= s.put)
  {
    var s := Push(r, size);
    forall i | 0 <= i < s.lap ensures s.put <= s.blocks[i].at {
      PushStaysBelow(r, size, i);
    }
    hide Ordered, Fits;
  }

  lemma PushKeepsLayout(r: Ring, size: nat)
    requires Valid(r) && Fits(r, size) && r.base + size + 128 <= r.limit
    ensures Valid(Push(r, size))
  {
    PushKeepsOrder(r, size);
    PushKeepsPlaces(r, size);
    hide Ordered, Fits, StartTaken, Push;
  }

  lemma ReleaseKeepsLayout(r: Ring)
    requires Valid(r) && r.blocks != []
    ensures Valid(Release(r))
  {
    var s := Release(r);
    assert forall i :: 0 <= i < |s.blocks| ==> s.blocks[i] == r.blocks[i + 1];
  }

  /** A unit fits exactly when its place touches no live block, behind the newest one or at the start. */
  lemma FitsExactly(r: Ring, size: nat)
    requires Valid(r) && r.base + size + 128 <= r.limit
    ensures Fits(r, size) <==>
            forall i :: 0 <= i < |r.blocks| ==> Disjoint(Block(PlaceFor(r, size), size), r.blocks[i])
  {
    var b := Block(PlaceFor(r, size), size);
    if Fits(r, size) {
      var s := Push(r, size);
      PushKeepsLayout(r, size);
      BlocksDisjoint(s);
      forall i | 0 <= i < |r.blocks| ensures Disjoint(b, r.blocks[i]) {
        assert s.blocks[i] == r.blocks[i] && s.blocks[|r.blocks|] == b;
      }
    } else {
      RefusalHasReason(r, size);
    }
  }

  lemma RefusalHasReason(r: Ring, size: nat)
    requires Valid(r) && !Fits(r, size)
    ensures exists i :: 0 <= i < |r.blocks| && !Disjoint(Block(PlaceFor(r, size), size), r.blocks[i])
  {
    var b := Block(PlaceFor(r, size), size);
    if r.blocks[0].at >= r.put && r.put + size + 128 > r.limit {
      assert r.lap > 0;
      assert !Disjoint(b, r.blocks[r.lap]);
    } else {
      assert !Disjoint(b, r.blocks[0]);
    }
  }

  /** Releasing only ever makes room: what fitted before still fits. */
  lemma ReleaseKeepsFit(r: Ring, size: nat)
    requires Valid(r) && r.blocks != [] && Fits(r, size)
    ensures Fits(Release(r), size)
  {
    if |r.blocks| > 1 {
      var a, b := r.blocks[0], r.blocks[1];
      if r.lap > 1 || r.lap == 0 {
        assert a.Next() <= b.at;
      }
    }
  }

  function ReleaseMany(r: Ring, n: nat): Ring
    requires n <= |r.blocks|
    decreases n
  {
    if n == 0 then r else ReleaseMany(Release(r), n - 1)
  }

  /** The answer of a fullness check stays good through any number of later releases. */
  lemma {:induction false} FitIsStable(r: Ring, size: nat, n: nat)
    requires Valid(r) && Fits(r, size) && n <= |r.blocks|
    ensures Valid(ReleaseMany(r, n)) && Fits(ReleaseMany(r, n), size)
    decreases n
  {
    if n > 0 {
      ReleaseKeepsLayout(r);
      ReleaseKeepsFit(r, size);
      FitIsStable(Release(r), size, n - 1);
    }
  }

  /** Start address and byte count of the ring that a stream opened on `[addr, addr + size)` uses. */
  function RegionBase(addr: nat): nat { AlignUp128(addr) }
  function RegionSize(addr: nat, size: nat): nat { size + (AlignUp128(addr) - addr) }

  /** The size is increased by the alignment gap where it should have been decreased, so the
      ring stays inside the caller's buffer exactly when the buffer was aligned already. */
  lemma RegionInsideCallerBuffer(addr: nat, size: nat)
    ensures addr % 128 == 0 <==>
            addr <= RegionBase(addr) && RegionBase(addr) + RegionSize(addr, size) <= addr + size
  {
    assert addr % 128 == 0 ==> AlignUp128(addr) == addr;
  }

  /** An empty ring accepts a unit of any size; the unit stays inside exactly when it fits into the
      ring with its headers. */
  lemma EmptyRingOverrun(r: Ring, size: nat)
    requires Valid(r) && r.blocks == []
    ensures Fits(r, size)
    ensures r.base <= Push(r, size).blocks[0].at
    ensures Push(r, size).blocks[0].End() <= r.limit <==> r.base + size + 128 <= r.limit
  {
  }

  /** The overrun is reachable: the largest unit an empty ring accepts ends beyond the
      caller's buffer by twice the alignment gap. */
  lemma UnalignedBufferOverrun(addr: nat, size: nat)
    requires size >= 128
    ensures var gap := RegionBase(addr) - addr;
            var r := Ring(RegionBase(addr), RegionBase(addr) + RegionSize(addr, size), RegionBase(addr), [], 0);
            var largest := RegionSize(addr, size) - 128;
            && Valid(r) && Fits(r, largest) && Valid(Push(r, largest))
            && Push(r, largest).blocks[0].End() == addr + size + 2 * gap
  {
    var r := Ring(RegionBase(addr), RegionBase(addr) + RegionSize(addr, size), RegionBase(addr), [], 0);
    PushKeepsLayout(r, RegionSize(addr, size) - 128);
  }
}
