/** The kernel's own tables of the IO map: what they keep, and how they stay in step with the offset
    tables of GCM. */
module RsxIoMaps {
  import opened MachineInts
  import opened GcmPageTables

  const NO_ENTRY: u32 := 0xFFFF_FFFF

  /** The kernel's entry for a page that an offset table gives as `x`. */
  function Entry(x: u16): u32 {
    if x >= 0x1000 then NO_ENTRY else x * PAGE
  }

  /** The kernel tables say what the offset tables say. */
  predicate Agree(cells: seq<u16>, ea: seq<u32>, io: seq<u32>) {
    && |cells| >= 0x2000 && |ea| == |io| == 0x1000
    && (forall q :: 0 <= q < IO_PAGES ==> ea[q] == Entry(cells[EA_PAGES + q]))
    && (forall p :: 0 <= p < EA_PAGES ==> io[p] == Entry(cells[p]))
  }

  lemma MapCellsStep(cells: seq<u16>, e: nat, o: nat, i: nat)
    requires |cells| >= 0x2000 && e + i < EA_PAGES && o + i < IO_PAGES
    ensures MapCells(cells, e, o, i + 1) == MapCells(cells, e, o, i)[e + i := o + i][EA_PAGES + o + i := e + i]
  {
  }

  lemma UnmapCellsStep(cells: seq<u16>, e: nat, o: nat, i: nat)
    requires |cells| >= 0x2000 && e + i < EA_PAGES && o + i < IO_PAGES
    ensures UnmapCells(cells, e, o, i + 1)
              == UnmapCells(cells, e, o, i)[e + i := UNMAPPED][EA_PAGES + o + i := UNMAPPED]
  {
  }

  lemma NoCells(cells: seq<u16>, e: nat, o: nat)
    requires |cells| >= 0x2000 && e <= EA_PAGES && o <= IO_PAGES
    ensures MapCells(cells, e, o, 0) == cells == UnmapCells(cells, e, o, 0)
  {
  }

  /** IO pages `o` to `o + n` are unmapped; or mapped in a row from page `e`. */
  predicate IoFree(cells: seq<u16>, o: nat, n: nat) {
    |cells| >= 0x2000 && o + n <= IO_PAGES && forall k :: EA_PAGES + o <= k < EA_PAGES + o + n ==> cells[k] == UNMAPPED
  }

  predicate IoRun(cells: seq<u16>, e: nat, o: nat, n: nat) {
    && |cells| >= 0x2000 && o + n <= IO_PAGES && e + n <= EA_PAGES
    && forall k :: EA_PAGES + o <= k < EA_PAGES + o + n ==> cells[k] == e + (k - EA_PAGES - o)
  }

  /** Every entry is a page or none, and a page that has an IO page is what that IO page has. Two IO
      pages may show the same page. */
  predicate Sound(ea: seq<u32>, io: seq<u32>) {
    && |ea| == |io| == 0x1000
    && (forall q :: 0 <= q < 0x1000 ==> ea[q] == NO_ENTRY || (ea[q] % PAGE == 0 && ea[q] < 0xC000_0000))
    && (forall p :: 0 <= p < 0x1000 ==>
          io[p] == NO_ENTRY || (io[p] % PAGE == 0 && io[p] < 0xC000_0000 && ea[io[p] / PAGE] == p * PAGE))
  }

  /** The kernel's tables after IO page `o` is given page `e`, and after it is taken away. */
  function EaSet(ea: seq<u32>, e: nat, o: nat): seq<u32>
    requires |ea| == 0x1000 && e < EA_PAGES && o < IO_PAGES
  {
    ea[o := e * PAGE]
  }

  /** The pages that the IO pages show after a run of `n` is given out. */
  function EaRun(ea: seq<u32>, e: nat, o: nat, n: nat): (r: seq<u32>)
    requires |ea| == 0x1000 && e + n <= EA_PAGES && o + n <= IO_PAGES
    ensures |r| == 0x1000
  {
    seq(0x1000, q requires 0 <= q < 0x1000 => if o <= q < o + n then (e + (q - o)) * PAGE else ea[q])
  }

  lemma EaRunStep(ea: seq<u32>, e: nat, o: nat, n: nat)
    requires |ea| == 0x1000 && e + n < EA_PAGES && o + n < IO_PAGES
    ensures EaRun(ea, e, o, 0) == ea
    ensures EaRun(ea, e, o, n + 1) == EaSet(EaRun(ea, e, o, n), e + n, o + n)
  {
  }

  function Cleared(io: seq<u32>, entry: u32): (r: seq<u32>)
    requires |io| == 0x1000
    ensures |r| == 0x1000
  {
    if entry == NO_ENTRY then io else io[entry / PAGE := NO_ENTRY]
  }

  function IoSet(ea: seq<u32>, io: seq<u32>, e: nat, o: nat): seq<u32>
    requires |ea| == |io| == 0x1000 && e < EA_PAGES && o < IO_PAGES
  {
    Cleared(io, ea[o])[e := o * PAGE]
  }

  lemma SoundAfterMap(ea: seq<u32>, io: seq<u32>, e: nat, o: nat)
    requires Sound(ea, io) && e < EA_PAGES && o < IO_PAGES
    ensures Sound(EaSet(ea, e, o), IoSet(ea, io, e, o))
  {
  }

  lemma SoundAfterUnmap(ea: seq<u32>, io: seq<u32>, o: nat)
    requires Sound(ea, io) && o < IO_PAGES
    ensures Sound(ea[o := NO_ENTRY], Cleared(io, ea[o]))
  {
  }

  lemma AgreeAfterMap(cells: seq<u16>, ea: seq<u32>, io: seq<u32>, e: nat, o: nat, i: nat, n: nat)
    requires |cells| >= 0x2000 && i < n && e + n <= EA_PAGES && o + n <= IO_PAGES && IoFree(cells, o, n)
    requires Agree(MapCells(cells, e, o, i), ea, io)
    ensures |ea| == |io| == 0x1000
    ensures Agree(MapCells(cells, e, o, i + 1), EaSet(ea, e + i, o + i), IoSet(ea, io, e + i, o + i))
  {
    MapCellsStep(cells, e, o, i);
    assert MapCells(cells, e, o, i)[EA_PAGES + (o + i)] == UNMAPPED;
    assert ea[o + i] == NO_ENTRY;
    hide MapCells;
  }

  lemma AgreeAfterUnmap(cells: seq<u16>, ea: seq<u32>, io: seq<u32>, e: nat, o: nat, i: nat, n: nat)
    requires i < n && IoRun(cells, e, o, n)
    requires Agree(UnmapCells(cells, e, o, i), ea, io)
    ensures |ea| == |io| == 0x1000
    ensures Agree(UnmapCells(cells, e, o, i + 1), ea[o + i := NO_ENTRY], Cleared(io, ea[o + i]))
  {
    UnmapCellsStep(cells, e, o, i);
    assert UnmapCells(cells, e, o, i)[EA_PAGES + (o + i)] == e + i;
    assert ea[o + i] == (e + i) * PAGE;
    hide UnmapCells;
  }

  /** After `i` of `n` pages the tables are sound, show the pages given out, and still agree with the
      offset tables if they did. */
  predicate Mapped(cells: seq<u16>, before: seq<u32>, ea: seq<u32>, io: seq<u32>, e: nat, o: nat, i: nat, n: nat,
      agreed: bool) {
    && i <= n && e + n <= EA_PAGES && o + n <= IO_PAGES && |before| == 0x1000
    && Sound(ea, io) && ea == EaRun(before, e, o, i)
    && (agreed ==> IoFree(cells, o, n) && Agree(MapCells(cells, e, o, i), ea, io))
  }

  lemma MapBegins(cells: seq<u16>, ea: seq<u32>, io: seq<u32>, e: nat, o: nat, n: nat, agreed: bool)
    requires Sound(ea, io) && e + n <= EA_PAGES && o + n <= IO_PAGES
    requires agreed ==> Agree(cells, ea, io) && IoFree(cells, o, n)
    ensures Mapped(cells, ea, ea, io, e, o, 0, n, agreed)
  {
    assert EaRun(ea, e, o, 0) == ea;
    if agreed {
      NoCells(cells, e, o);
    }
    hide Sound, Agree, EaRun, MapCells;
  }

  lemma MapTurn(cells: seq<u16>, before: seq<u32>, ea: seq<u32>, io: seq<u32>, e: nat, o: nat, i: nat, n: nat,
      agreed: bool)
    requires i < n && Mapped(cells, before, ea, io, e, o, i, n, agreed)
    ensures |ea| == |io| == 0x1000 && e + n <= EA_PAGES && o + n <= IO_PAGES
    ensures Mapped(cells, before, EaSet(ea, e + i, o + i), IoSet(ea, io, e + i, o + i), e, o, i + 1, n, agreed)
  {
    SoundAfterMap(ea, io, e + i, o + i);
    EaRunStep(before, e, o, i);
    if agreed {
      AgreeAfterMap(cells, ea, io, e, o, i, n);
    }
    hide Agree, Sound, EaRun, EaSet, IoSet, MapCells;
  }

  /** After `i` of `n` pages are taken away again. */
  predicate Unmapped(cells: seq<u16>, ea: seq<u32>, io: seq<u32>, e: nat, o: nat, i: nat, n: nat, agreed: bool) {
    && i <= n && o + n <= IO_PAGES && Sound(ea, io)
    && (agreed ==> IoRun(cells, e, o, n) && Agree(UnmapCells(cells, e, o, i), ea, io))
  }

  lemma UnmapBegins(cells: seq<u16>, ea: seq<u32>, io: seq<u32>, e: nat, o: nat, n: nat, agreed: bool)
    requires Sound(ea, io) && o + n <= IO_PAGES
    requires agreed ==> Agree(cells, ea, io) && IoRun(cells, e, o, n)
    ensures Unmapped(cells, ea, io, e, o, 0, n, agreed)
  {
    hide Sound, Agree, UnmapCells;
    if agreed {
      NoCells(cells, e, o);
    }
  }

  lemma UnmapTurn(cells: seq<u16>, ea: seq<u32>, io: seq<u32>, e: nat, o: nat, i: nat, n: nat, agreed: bool)
    requires i < n && Unmapped(cells, ea, io, e, o, i, n, agreed)
    ensures |ea| == |io| == 0x1000 && o + n <= IO_PAGES
    ensures Unmapped(cells, ea[o + i := NO_ENTRY], Cleared(io, ea[o + i]), e, o, i + 1, n, agreed)
  {
    SoundAfterUnmap(ea, io, o + i);
    if agreed {
      AgreeAfterUnmap(cells, ea, io, e, o, i, n);
    }
    hide Agree, Sound, Cleared, UnmapCells;
  }

  lemma UnmappedEnds(cells: seq<u16>, ea: seq<u32>, io: seq<u32>, e: nat, o: nat, n: nat, agreed: bool)
    requires Unmapped(cells, ea, io, e, o, n, n, agreed)
    ensures Sound(ea, io)
    ensures agreed ==> IoRun(cells, e, o, n) && Agree(UnmapCells(cells, e, o, n), ea, io)
  {
  }

  lemma MappedEnds(cells: seq<u16>, before: seq<u32>, ea: seq<u32>, io: seq<u32>, e: nat, o: nat, n: nat, agreed: bool)
    requires Mapped(cells, before, ea, io, e, o, n, n, agreed)
    ensures Sound(ea, io) && |before| == 0x1000 && e + n <= EA_PAGES && o + n <= IO_PAGES
              && ea == EaRun(before, e, o, n)
    ensures agreed ==> |cells| >= 0x2000 && Agree(MapCells(cells, e, o, n), ea, io)
  {
  }

  /** The kernel's IO map. */
  class RsxIoMap {
    const mainMem: u32
    const ea: array<u32>
    const io: array<u32>

    predicate Shaped()
      reads this
    {
      && ea != io && ea.Length == io.Length == 0x1000
      && mainMem % PAGE == 0 && mainMem <= IO_PAGES * PAGE
    }

    predicate Valid()
      reads this, ea, io
    {
      Shaped() && Sound(ea[..], io[..])
    }

    constructor (mainMem: u32)
      requires mainMem % PAGE == 0 && mainMem <= IO_PAGES * PAGE
      ensures Valid() && this.mainMem == mainMem && fresh(ea) && fresh(io)
      ensures forall k :: 0 <= k < 0x1000 ==> ea[k] == io[k] == NO_ENTRY
    {
      this.mainMem := mainMem;
      ea := new u32[0x1000](_ => NO_ENTRY);
      io := new u32[0x1000](_ => NO_ENTRY);
    }

    /** What the kernel requires of a range; `accessible` stands for the state of its memory pages. */
    predicate Maps(ea: u32, io: u32, size: u32, accessible: bool) {
      && size != 0 && ea % PAGE == 0 && io % PAGE == 0 && size % PAGE == 0
      && ea + size <= 0xC000_0000 && io + size <= mainMem && accessible
    }

    /** In pages: the range is not empty, begins on pages on both sides and ends within both ranges. */
    lemma MapsExactly(ea: u32, io: u32, size: u32, accessible: bool)
      requires mainMem % PAGE == 0
      ensures Maps(ea, io, size, accessible) <==>
        && accessible
        && exists e: nat, o: nat, n: nat ::
             && n > 0 && ea == e * 0x10_0000 && io == o * 0x10_0000 && size == n * 0x10_0000
             && e + n <= 0xC00 && o + n <= mainMem / 0x10_0000
    {
      if Maps(ea, io, size, accessible) {
        var e: nat, o: nat, n: nat := ea / PAGE, io / PAGE, size / PAGE;
        assert n > 0 && ea == e * 0x10_0000 && io == o * 0x10_0000 && size == n * 0x10_0000;
      }
    }

    /** The kernel call keeps its tables sound whatever was mapped before; where they agreed with the
        offset tables `cells` and the IO pages were free, they agree with the updated offset tables. */
    method Iomap(ioStart: u32, eaStart: u32, size: u32, accessible: bool, ghost cells: seq<u16>) returns (ok: bool)
      requires Valid()
      modifies ea, io
      ensures Valid() && ok == Maps(eaStart, ioStart, size, accessible)
      ensures ok ==> ea[..] == EaRun(old(ea[..]), eaStart / PAGE, ioStart / PAGE, size / PAGE)
      ensures ok && old(Agree(cells, ea[..], io[..])) && IoFree(cells, ioStart / PAGE, size / PAGE)
          ==> Agree(MapCells(cells, eaStart / PAGE, ioStart / PAGE, size / PAGE), ea[..], io[..])
      ensures !ok ==> ea[..] == old(ea[..]) && io[..] == old(io[..])
    {
      if size == 0 || ioStart % PAGE != 0 || eaStart + size > 0xC000_0000 || eaStart % PAGE != 0 || size % PAGE != 0
         || mainMem < ioStart + size || !accessible
      {
        return false;
      }
      MapLoop(ioStart / PAGE, eaStart / PAGE, size / PAGE, cells);
      return true;
    }

    method MapLoop(o: nat, e: nat, n: nat, ghost cells: seq<u16>)
      requires Valid() && e + n <= EA_PAGES && o + n <= IO_PAGES
      modifies ea, io
      ensures Valid()
      ensures ea[..] == EaRun(old(ea[..]), e, o, n)
      ensures old(Agree(cells, ea[..], io[..])) && IoFree(cells, o, n) ==>
                Agree(MapCells(cells, e, o, n), ea[..], io[..])
    {
      hide Mapped, Agree, MapCells, IoFree, EaRun, EaSet, IoSet, Sound;
      ghost var agreed := Agree(cells, ea[..], io[..]) && IoFree(cells, o, n);
      ghost var before: seq<u32> := ea[..];
      MapBegins(cells, ea[..], io[..], e, o, n, agreed);
      var i := 0;
      while i < n
        invariant 0 <= i <= n && Mapped(cells, before, ea[..], io[..], e, o, i, n, agreed)
      {
        MapTurn(cells, before, ea[..], io[..], e, o, i, n, agreed);
        SetEntry(o + i, e + i);
        i := i + 1;
      }
      MappedEnds(cells, before, ea[..], io[..], e, o, n, agreed);
    }

    method SetEntry(o: nat, e: nat)
      requires Shaped() && e < EA_PAGES && o < IO_PAGES
      modifies ea, io
      ensures ea[..] == EaSet(old(ea[..]), e, o) && io[..] == IoSet(old(ea[..]), old(io[..]), e, o)
    {
      var previous := ea[o];
      ea[o] := e * PAGE;
      if previous != NO_ENTRY {
        io[previous / PAGE] := NO_ENTRY;
      }
      io[e] := o * PAGE;
    }

    /** The kernel call that takes a range of IO pages away. */
    method Iounmap(ioStart: u32, size: u32, ghost cells: seq<u16>, ghost e: nat) returns (ok: bool)
      requires Valid() && ioStart % PAGE == 0 && size % PAGE == 0 && size > 0
      modifies ea, io
      ensures Valid() && ok == (ioStart + size <= mainMem)
      ensures ok && old(Agree(cells, ea[..], io[..])) && IoRun(cells, e, ioStart / PAGE, size / PAGE)
          ==> Agree(UnmapCells(cells, e, ioStart / PAGE, size / PAGE), ea[..], io[..])
      ensures !ok ==> ea[..] == old(ea[..]) && io[..] == old(io[..])
    {
      if mainMem < ioStart + size {
        return false;
      }
      UnmapLoop(ioStart / PAGE, size / PAGE, cells, e);
      return true;
    }

    method UnmapLoop(o: nat, n: nat, ghost cells: seq<u16>, ghost e: nat)
      requires Valid() && o + n <= IO_PAGES
      modifies ea, io
      ensures Valid()
      ensures old(Agree(cells, ea[..], io[..])) && IoRun(cells, e, o, n) ==>
                Agree(UnmapCells(cells, e, o, n), ea[..], io[..])
    {
      hide Unmapped, Agree, UnmapCells, Sound, IoRun, Cleared;
      ghost var agreed := Agree(cells, ea[..], io[..]) && IoRun(cells, e, o, n);
      UnmapBegins(cells, ea[..], io[..], e, o, n, agreed);
      var at, end := o, o + n;
      while at < end
        invariant o <= at <= end && Unmapped(cells, ea[..], io[..], e, o, at - o, n, agreed)
      {
        UnmapTurn(cells, ea[..], io[..], e, o, at - o, n, agreed);
        ClearEntry(at);
        at := at + 1;
      }
      UnmappedEnds(cells, ea[..], io[..], e, o, n, agreed);
    }

    method ClearEntry(o: nat)
      requires Shaped() && o < IO_PAGES
      modifies ea, io
      ensures ea[..] == old(ea[..])[o := NO_ENTRY] && io[..] == Cleared(old(io[..]), old(ea[o]))
    {
      var entry := ea[o];
      ea[o] := NO_ENTRY;
      if entry != NO_ENTRY {
        io[entry / PAGE] := NO_ENTRY;
      }
    }
  }
}
