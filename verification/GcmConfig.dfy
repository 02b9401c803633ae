/** The memory-mapping calls of GCM: mapping, unmapping, the first-fit search for free IO pages and the
    reserved part of the IO range. */
module GcmConfigs {
  import opened MachineInts
  import opened GcmPageTables
  import opened RsxIoMaps

  /** `Outside`: the block table would be read behind its cells, after which nothing is known. */
  datatype Status = Success | Failure | KernelError | NoIoPageTable | InvalidAlignment | InvalidValue | Outside

  /** The cell the search reads for IO page `q`; it may lie behind the table. */
  predicate Vacant(t: Tables, q: nat)
    requires Sized(t) && q < 0x1400
  {
    t.cells[EA_PAGES + q] > 0xBFF
  }

  /** All of the `n` pages from `start` are vacant. */
  predicate Room(t: Tables, start: nat, n: nat)
    requires Sized(t) && start + n <= 0x1400
  {
    forall q :: start <= q < start + n ==> Vacant(t, q)
  }

  /** `start` is the lowest page below `end` from which `n` pages are vacant. */
  predicate FirstFit(t: Tables, end: nat, n: nat, start: nat)
    requires Sized(t) && end <= IO_PAGES && n < 0x1000
  {
    start < end && Room(t, start, n) && forall s :: 0 <= s < start ==> !Room(t, s, n)
  }

  /** The search bounds where a run starts, not where it ends: what it finds lies in the unreserved
      range exactly when some run does. */
  lemma FirstFitUnreserved(t: Tables, end: nat, n: nat, start: nat)
    requires Sized(t) && end <= IO_PAGES && 0 < n < 0x1000 && FirstFit(t, end, n, start)
    ensures start + n <= end <==> exists s: nat :: s + n <= end && Room(t, s, n)
  {
    if s: nat :| s + n <= end && Room(t, s, n) {
      assert start <= s;
    }
  }

  /** With all but one page reserved and nothing mapped, a run of any length is found all the same. */
  lemma FirstFitInReserve(t: Tables, n: nat)
    requires Empty(t) && n <= IO_PAGES
    ensures FirstFit(t, 1, n, 0)
  {
  }

  /** A vacant page of the table is unmapped. */
  lemma RoomIsFree(t: Tables, pages: nat, start: nat, n: nat, e: nat)
    requires Inverse(t, pages) && start + n <= pages && e + n <= EA_PAGES && Room(t, start, n)
    requires forall p {:trigger Io(t, p)} :: e <= p < e + n ==> Io(t, p) == UNMAPPED
    ensures Free(t, e, start, n)
  {
    forall q | start <= q < start + n
      ensures Ea(t, q) == UNMAPPED
    {
      assert Vacant(t, q);
    }
  }

  lemma BlockBound(t: Tables, e: nat)
    requires Tiled(t) && e < 0x1_0000 && t.blocks[e] != 0
    ensures e + t.blocks[e] <= EA_PAGES
  {
    var n: nat := t.blocks[e];
    assert InBlock(t, e, e + n - 1);
  }

  lemma HeadRun(t: Tables, pages: nat, o: nat)
    requires Good(t, pages) && o < IO_PAGES && IsHead(t, o)
    ensures
      var e, n := Ea(t, o), BlockSize(t, o);
      e + n <= EA_PAGES && o + n <= pages <= IO_PAGES && IoRun(t.cells, e, o, n)
  {
    var e: nat, n: nat := Ea(t, o), BlockSize(t, o);
    HeadFits(t, pages, o);
    forall k | EA_PAGES + o <= k < EA_PAGES + o + n
      ensures t.cells[k] == e + (k - EA_PAGES - o)
    {
      var p: nat := e + (k - EA_PAGES - o);
      assert InBlock(t, e, e);
      assert InBlock(t, e, p);
      assert Ea(t, Io(t, p)) == p;
    }
  }

  class GcmConfig {
    const rsx: RsxIoMap
    const cells: array<u16>
    const blocks: array<u16>
    var reserved: u32
    var localAddr: u32
    var localSize: u32

    ghost function View(): Tables
      reads this, cells, blocks
    {
      Tables(cells[..], blocks[..])
    }

    ghost function Pages(): nat
      reads this, rsx
    {
      rsx.mainMem / PAGE
    }

    ghost predicate Valid()
      reads this, cells, blocks, rsx, rsx.ea, rsx.io
    {
      && cells != blocks && cells as object != rsx.ea && cells as object != rsx.io
      && blocks as object != rsx.ea && blocks as object != rsx.io
      && Good(View(), Pages()) && rsx.Valid() && Agree(cells[..], rsx.ea[..], rsx.io[..])
      && reserved % PAGE == 0 && reserved <= rsx.mainMem
    }

    /** `InitOffsetTable`, with the cleared block table and the cleared kernel tables. */
    constructor (mainMem: u32, memory: seq<u16>)
      requires mainMem % PAGE == 0 && mainMem <= IO_PAGES * PAGE && |memory| == 0x2000
      ensures Valid() && Empty(View()) && rsx.mainMem == mainMem && reserved == 0
      ensures fresh(cells) && fresh(blocks) && fresh(rsx)
    {
      var r := new RsxIoMap(mainMem);
      rsx := r;
      cells := new u16[0x2000](i requires 0 <= i < 0x2000 => if i < EA_PAGES + IO_PAGES then UNMAPPED else memory[i]);
      blocks := new u16[0x1_0000](_ => 0);
      reserved, localAddr, localSize := 0, 0, 0;
      new;
      EmptyIsGood(View(), mainMem / PAGE);
    }

    /** The range is well-formed; the kernel accepts it as well. */
    predicate Aligned(ea: u32, io: u32, size: u32) {
      size != 0 && ea % PAGE == 0 && io % PAGE == 0 && size % PAGE == 0
    }

    method MapEaIoAddress(ea: u32, io: u32, size: u32, accessible: bool) returns (status: Status)
      requires Valid()
      requires rsx.Maps(ea, io, size, accessible) ==> Free(View(), ea / PAGE, io / PAGE, size / PAGE)
      modifies cells, blocks, rsx.ea, rsx.io
      ensures Valid()
      ensures status.Failure? <==> !Aligned(ea, io, size)
      ensures status.Success? <==> rsx.Maps(ea, io, size, accessible)
      ensures status.Failure? || status.Success? || status.KernelError? || status.Outside?
      ensures View() == if status.Success? then MapPages(old(View()), ea / PAGE, io / PAGE, size / PAGE)
                else old(View())
    {
      if size == 0 || ea % PAGE != 0 || io % PAGE != 0 || size % PAGE != 0 {
        return Failure;
      }
      ghost var t := View();
      var e, o, n := ea / PAGE, io / PAGE, size / PAGE;
      var ok := rsx.Iomap(io, ea, size, accessible, cells[..]);
      if !ok {
        return KernelError;
      }
      FreeRun(t, e, o, n);
      Record(e, o, n);
      ApplyKeepsGood(t, Pages(), Map(e, o, n));
      return Success;
    }

    /** The filling loop and the block table. */
    method Record(e: nat, o: nat, n: nat)
      requires Sized(View()) && cells != blocks && e + n <= EA_PAGES && o + n <= IO_PAGES
      modifies cells, blocks
      ensures View() == MapPages(old(View()), e, o, n)
    {
      ghost var before := cells[..];
      NoCells(before, e, o);
      var i := 0;
      while i < n
        invariant 0 <= i <= n
        invariant cells[..] == MapCells(before, e, o, i) && blocks[..] == old(blocks[..])
      {
        MapCellsStep(before, e, o, i);
        cells[e + i] := o + i;
        cells[EA_PAGES + o + i] := e + i;
        i := i + 1;
      }
      blocks[e] := n;
    }

    /** The one-pass search: a page in use ends the run and the next one starts behind it. */
    method FindFree(end: nat, n: nat) returns (found: bool, io: nat)
      requires Sized(View()) && end <= IO_PAGES && 0 < n < 0x1000
      ensures found ==> FirstFit(View(), end, n, io)
      ensures !found ==> forall s :: 0 <= s < end ==> !Room(View(), s, n)
    {
      ghost var t := View();
      io := 0;
      var count := 1;
      while io < end
        invariant 1 <= count <= n
        invariant io < end ==> Room(t, io, count - 1)
        invariant forall s :: 0 <= s < io && s < end ==> !Room(t, s, n)
        decreases end - io, n - count
      {
        var page := io + count - 1;
        if cells[EA_PAGES + page] > 0xBFF {
          assert Vacant(t, page);
          if count >= n {
            return true, io;
          }
        } else {
          assert !Vacant(t, page);
          io := io + count;
          count := 0;
        }
        count := count + 1;
      }
      return false, io;
    }

    /** The kernel's answer to mapping `size` bytes at page `start`. */
    predicate Fits(ea: u32, start: nat, size: u32, accessible: bool) {
      start * PAGE + size <= rsx.mainMem && ea + size <= 0xC000_0000 && accessible
    }

    function SearchEnd(): nat
      requires reserved <= rsx.mainMem
      reads this
    {
      (rsx.mainMem - reserved) / PAGE
    }

    method MapMainMemory(ea: u32, size: u32, accessible: bool) returns (status: Status, offset: u32)
      requires Valid()
      requires ea % PAGE == 0 && size % PAGE == 0 && ea + size <= 0xC000_0000 ==>
        forall p {:trigger Io(View(), p)} :: ea / PAGE <= p < ea / PAGE + size / PAGE ==> Io(View(), p) == UNMAPPED
      modifies cells, blocks, rsx.ea, rsx.io
      ensures Valid()
      ensures status.Failure? <==> !Aligned(ea, 0, size)
      ensures status.NoIoPageTable? <==>
        Aligned(ea, 0, size) && forall s :: 0 <= s < SearchEnd() ==> !Room(old(View()), s, size / PAGE)
      ensures status.Success? ==> offset % PAGE == 0 && offset + reserved < rsx.mainMem
      ensures status.NoIoPageTable? <==>
        && size != 0 && ea % 0x10_0000 == 0 && size % 0x10_0000 == 0
        && forall s: nat {:trigger Room(old(View()), s, size / PAGE)} ::
             s * 0x10_0000 + reserved < rsx.mainMem ==> !Room(old(View()), s, size / PAGE)
      ensures status.Success? ==> FirstFit(old(View()), SearchEnd(), size / PAGE, offset / PAGE)
      ensures status.Success? ==> Fits(ea, offset / PAGE, size, accessible)
      ensures status.Success? ==> View() == MapPages(old(View()), ea / PAGE, offset / PAGE, size / PAGE)
      ensures status.KernelError? ==>
        exists s: nat :: FirstFit(old(View()), SearchEnd(), size / PAGE, s) && !Fits(ea, s, size, accessible)
      ensures !status.Success? ==> View() == old(View())
      ensures !status.InvalidAlignment? && !status.InvalidValue?
    {
      hide Inverse, Tiled, Agree, MapPages, Room, Sound;
      if size == 0 || ea % PAGE != 0 || size % PAGE != 0 {
        return Failure, 0;
      }
      ghost var t := View();
      GoodIsSized(t, Pages());
      var found, start := FindFree((rsx.mainMem - reserved) / PAGE, size / PAGE);
      if !found {
        return NoIoPageTable, 0;
      }
      if start * PAGE + size <= rsx.mainMem && ea + size <= 0xC000_0000 {
        RoomIsFree(t, Pages(), start, size / PAGE, ea / PAGE);
      }
      var s := MapEaIoAddress(ea, start * PAGE, size, accessible);
      if s != Success {
        return s, 0;
      }
      return Success, start * PAGE;
    }

    /** The clearing loop and the block table. */
    method Forget(e: nat, o: nat, n: nat)
      requires Sized(View()) && cells != blocks && e + n <= EA_PAGES && o + n <= IO_PAGES
      modifies cells, blocks
      ensures View() == UnmapPages(old(View()), e, o, n)
    {
      ghost var before := cells[..];
      NoCells(before, e, o);
      var i := 0;
      while i < n
        invariant 0 <= i <= n
        invariant cells[..] == UnmapCells(before, e, o, i) && blocks[..] == old(blocks[..])
      {
        UnmapCellsStep(before, e, o, i);
        cells[e + i] := UNMAPPED;
        cells[EA_PAGES + o + i] := UNMAPPED;
        i := i + 1;
      }
      blocks[e] := 0;
    }

    /** Unmaps the block that begins at an IO address. */
    method UnmapIoAddress(io: u32) returns (status: Status)
      requires Valid()
      modifies cells, blocks, rsx.ea, rsx.io
      ensures Valid()
      ensures status.Outside? <==> Ea(old(View()), io / PAGE) >= EA_PAGES
      ensures status.Failure? <==> !status.Outside? && !IsHead(old(View()), io / PAGE)
      ensures status.Success? <==>
                && IsHead(old(View()), io / PAGE)
                && io / PAGE + BlockSize(old(View()), io / PAGE) <= Pages()
      ensures status.Failure? || status.Success? || status.KernelError? || status.Outside?
      ensures View() == Apply(old(View()), Pages(), Unmap(io / PAGE))
    {
      hide Inverse, Tiled, Agree, IoRun, UnmapPages;
      ghost var t := View();
      GoodIsSized(t, Pages());
      var o := io / PAGE;
      var e := cells[EA_PAGES + o];
      if blocks[e] != 0 {
        BlockBound(t, e);
      }
      if e >= EA_PAGES {
        return Outside;
      }
      var n := blocks[e];
      if n == 0 {
        return Failure;
      }
      if o < IO_PAGES {
        HeadRun(t, Pages(), o);
      }
      var ok := rsx.Iounmap(o * PAGE, n * PAGE, cells[..], e);
      if !ok {
        return KernelError;
      }
      Forget(e, o, n);
      ApplyKeepsGood(t, Pages(), Unmap(o));
      UnmapPagesCells(t, e, o, n);
      return Success;
    }

    /** Unmaps the block that begins at a main-memory address. */
    method UnmapEaIoAddress(ea: u32) returns (status: Status)
      requires Valid()
      modifies cells, blocks, rsx.ea, rsx.io
      ensures Valid()
      ensures status == if ea < 0xC000_0000 && old(blocks[ea / PAGE]) != 0 then Success else Failure
      ensures View() == if status.Success? then UnmappedAt(old(View()), Pages(), ea / PAGE) else old(View())
    {
      hide Inverse, Tiled, Agree, UnmapPages, IsHead, BlockSize;
      ghost var t := View();
      GoodIsSized(t, Pages());
      var page := ea / PAGE;
      if page > 0xBFF {
        return Failure;
      }
      HeadOfPage(t, Pages(), page);
      var io := Wrap32(cells[page] * PAGE);
      if io < rsx.mainMem {
        status := UnmapIoAddress(io);
      } else {
        return Failure;
      }
    }

    method ReserveIoMapSize(size: u32) returns (status: Status)
      requires Valid()
      modifies `reserved
      ensures Valid()
      ensures status == if size % PAGE != 0 then InvalidAlignment
                        else if old(reserved) + size > rsx.mainMem then InvalidValue else Success
      ensures reserved == if status.Success? then old(reserved) + size else old(reserved)
    {
      if size % PAGE != 0 {
        return InvalidAlignment;
      }
      if size > rsx.mainMem - reserved {
        return InvalidValue;
      }
      reserved := reserved + size;
      return Success;
    }

    method UnreserveIoMapSize(size: u32) returns (status: Status)
      requires Valid()
      modifies `reserved
      ensures Valid()
      ensures status == if size % PAGE != 0 then InvalidAlignment
                        else if size > old(reserved) then InvalidValue else Success
      ensures reserved == if status.Success? then old(reserved) - size else old(reserved)
    {
      if size % PAGE != 0 {
        return InvalidAlignment;
      }
      if size > reserved {
        return InvalidValue;
      }
      reserved := reserved - size;
      return Success;
    }
  }

  lemma GoodIsSized(t: Tables, pages: nat)
    requires Good(t, pages)
    ensures Sized(t)
  {
  }

  lemma UnmapPagesCells(t: Tables, e: nat, o: nat, n: nat)
    requires Sized(t) && e + n <= EA_PAGES && o + n <= IO_PAGES
    ensures UnmapPages(t, e, o, n).cells == UnmapCells(t.cells, e, o, n)
  {
  }

  /** The tables after the block that begins at `page` is unmapped. */
  function UnmappedAt(t: Tables, pages: nat, page: nat): Tables
    requires Good(t, pages) && page < EA_PAGES && t.blocks[page] != 0
  {
    HeadOfPage(t, pages, page);
    Apply(t, pages, Unmap(Io(t, page)))
  }

  /** A mapped page heads a block exactly when the block table says so, and then its IO page does. */
  lemma HeadOfPage(t: Tables, pages: nat, page: nat)
    requires Good(t, pages) && page < EA_PAGES
    ensures t.blocks[page] != 0 ==> Io(t, page) < pages
    ensures Io(t, page) < pages ==>
      && Ea(t, Io(t, page)) == page
      && (IsHead(t, Io(t, page)) <==> t.blocks[page] != 0)
      && (IsHead(t, Io(t, page)) ==> Io(t, page) + BlockSize(t, Io(t, page)) <= pages)
    ensures Io(t, page) >= pages ==> Io(t, page) == UNMAPPED
  {
    assert InBlock(t, page, page) <==> t.blocks[page] != 0;
    if Io(t, page) < pages && t.blocks[page] != 0 {
      HeadFits(t, pages, Io(t, page));
    }
  }

  lemma FreeRun(t: Tables, e: nat, o: nat, n: nat)
    requires Sized(t) && e + n <= EA_PAGES && o + n <= IO_PAGES && Free(t, e, o, n)
    ensures IoFree(t.cells, o, n)
  {
    forall k | EA_PAGES + o <= k < EA_PAGES + o + n
      ensures t.cells[k] == UNMAPPED
    {
      assert Ea(t, k - EA_PAGES) == UNMAPPED;
    }
  }
}
