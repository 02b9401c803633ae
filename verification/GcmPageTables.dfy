/** The offset tables through which GCM translates main-memory pages to IO pages and back, the block
    table that says which runs were mapped together, and the translations made with them. A page is
    1 MB. */
module GcmPageTables {
  import opened MachineInts
  import opened Runs

  const EA_PAGES: nat := 3072      // cells of `ioAddress`, one for each page below 0xC0000000
  const IO_PAGES: nat := 512       // cells of `eaAddress`
  const UNMAPPED: u16 := 0xFFFF
  const PAGE: nat := 0x10_0000

  /** `cells` is the guest memory that starts with `ioAddress`; `eaAddress` follows it, and whatever
      memory comes after can be read through either. `blocks` is `IoMapTable`, zero outside. */
  datatype Tables = Tables(cells: seq<u16>, blocks: seq<u16>)

  predicate Sized(t: Tables) {
    |t.cells| >= 0x2000 && |t.blocks| == 0x1_0000
  }

  function Io(t: Tables, page: nat): u16
    requires Sized(t) && page < 0x1000
  {
    t.cells[page]
  }

  function Ea(t: Tables, page: nat): u16
    requires Sized(t) && page < 0x1000
  {
    t.cells[EA_PAGES + page]
  }

  /** A page table has been initialised and holds nothing. */
  predicate Empty(t: Tables) {
    && Sized(t)
    && (forall k :: 0 <= k < EA_PAGES + IO_PAGES ==> t.cells[k] == UNMAPPED)
    && (forall e :: 0 <= e < 0x1_0000 ==> t.blocks[e] == 0)
  }

  /** The two tables are mutually inverse partial maps between the pages below 0xC0000000 and the
      first `pages` IO pages. */
  predicate Inverse(t: Tables, pages: nat) {
    && Sized(t) && pages <= IO_PAGES
    && (forall p {:trigger Io(t, p)} :: 0 <= p < EA_PAGES && Io(t, p) != UNMAPPED ==>
          Io(t, p) < pages && Ea(t, Io(t, p)) == p)
    && (forall q {:trigger Ea(t, q)} :: 0 <= q < IO_PAGES && Ea(t, q) != UNMAPPED ==>
          q < pages && Ea(t, q) < EA_PAGES && Io(t, Ea(t, q)) == q)
  }

  /** `page` lies in the block recorded at `head`. */
  predicate InBlock(t: Tables, head: nat, page: nat)
    requires Sized(t)
  {
    head < 0x1_0000 && head <= page < head + t.blocks[head]
  }

  /** The recorded blocks are disjoint runs that together are all mapped pages, and each is mapped to
      a run of IO pages. */
  ghost predicate Tiled(t: Tables) {
    && Sized(t)
    && (forall h: nat, p: nat {:trigger InBlock(t, h, p)} :: InBlock(t, h, p) ==>
          p < EA_PAGES && Io(t, p) < IO_PAGES && Io(t, p) == Io(t, h) + (p - h))
    && (forall p {:trigger Io(t, p)} :: 0 <= p < EA_PAGES && Io(t, p) != UNMAPPED ==> exists h: nat :: InBlock(t, h, p))
    && (forall h: nat, h': nat, p: nat {:trigger InBlock(t, h, p), InBlock(t, h', p)} ::
          InBlock(t, h, p) && InBlock(t, h', p) ==> h == h')
  }

  ghost predicate Good(t: Tables, pages: nat) {
    Inverse(t, pages) && Tiled(t)
  }

  lemma EmptyIsGood(t: Tables, pages: nat)
    requires Empty(t) && pages <= IO_PAGES
    ensures Good(t, pages)
  {
  }

  // ---- mapping

  /** The effect of mapping `n` pages from page `e` at IO page `o`. */
  function MapPages(t: Tables, e: nat, o: nat, n: nat): (r: Tables)
    requires Sized(t) && e + n <= EA_PAGES && o + n <= IO_PAGES
    ensures Sized(r) && |r.cells| == |t.cells|
  {
    Tables(MapCells(t.cells, e, o, n), t.blocks[e := n])
  }

  function MapCells(cells: seq<u16>, e: nat, o: nat, n: nat): (r: seq<u16>)
    requires |cells| >= 0x2000 && e + n <= EA_PAGES && o + n <= IO_PAGES
    ensures |r| == |cells|
  {
    seq(|cells|, k requires 0 <= k < |cells| =>
      if e <= k < e + n then o + (k - e)
      else if EA_PAGES + o <= k < EA_PAGES + o + n then e + (k - EA_PAGES - o)
      else cells[k])
  }

  lemma MapPagesAt(t: Tables, e: nat, o: nat, n: nat)
    requires Sized(t) && e + n <= EA_PAGES && o + n <= IO_PAGES
    ensures
      var t' := MapPages(t, e, o, n);
      && (forall p {:trigger Io(t', p)} :: 0 <= p < EA_PAGES ==>
            Io(t', p) == if e <= p < e + n then o + (p - e) else Io(t, p))
      && (forall q {:trigger Ea(t', q)} :: 0 <= q < IO_PAGES ==>
            Ea(t', q) == if o <= q < o + n then e + (q - o) else Ea(t, q))
  {
  }

  /** No page on either side is mapped yet. */
  predicate Free(t: Tables, e: nat, o: nat, n: nat)
    requires Sized(t) && e + n <= EA_PAGES && o + n <= IO_PAGES
  {
    && (forall p {:trigger Io(t, p)} :: e <= p < e + n ==> Io(t, p) == UNMAPPED)
    && (forall q {:trigger Ea(t, q)} :: o <= q < o + n ==> Ea(t, q) == UNMAPPED)
  }

  /** Every old mapping that touches one of the two ranges stays within both. */
  predicate Enclosed(t: Tables, e: nat, o: nat, n: nat)
    requires Sized(t) && e + n <= EA_PAGES && o + n <= IO_PAGES
  {
    && (forall p {:trigger Io(t, p)} :: e <= p < e + n && Io(t, p) != UNMAPPED ==> o <= Io(t, p) < o + n)
    && (forall q {:trigger Ea(t, q)} :: o <= q < o + n && Ea(t, q) != UNMAPPED ==> e <= Ea(t, q) < e + n)
  }

  /** Mapping overwrites whatever was there. It keeps the tables inverse exactly when what it
      overwrites on one side is what it overwrites on the other. */
  lemma MapKeepsInverse(t: Tables, pages: nat, e: nat, o: nat, n: nat)
    requires Inverse(t, pages) && e + n <= EA_PAGES && o + n <= pages
    ensures Inverse(MapPages(t, e, o, n), pages) <==> Enclosed(t, e, o, n)
  {
    hide MapPages, Enclosed;
    if Enclosed(t, e, o, n) {
      EnclosedKeepsInverse(t, pages, e, o, n);
    }
    if Inverse(MapPages(t, e, o, n), pages) {
      InverseNeedsEnclosed(t, pages, e, o, n);
    }
  }

  lemma EnclosedKeepsInverse(t: Tables, pages: nat, e: nat, o: nat, n: nat)
    requires Inverse(t, pages) && e + n <= EA_PAGES && o + n <= pages && Enclosed(t, e, o, n)
    ensures Inverse(MapPages(t, e, o, n), pages)
  {
    var t' := MapPages(t, e, o, n);
    MapPagesAt(t, e, o, n);
    hide MapPages;
    forall p | 0 <= p < EA_PAGES && Io(t', p) != UNMAPPED
      ensures Io(t', p) < pages && Ea(t', Io(t', p)) == p
    {
      assert Io(t, p) != UNMAPPED ==> Ea(t, Io(t, p)) == p;
    }
    forall q | 0 <= q < IO_PAGES && Ea(t', q) != UNMAPPED
      ensures q < pages && Ea(t', q) < EA_PAGES && Io(t', Ea(t', q)) == q
    {
      assert Ea(t, q) != UNMAPPED ==> Io(t, Ea(t, q)) == q;
    }
  }

  lemma InverseNeedsEnclosed(t: Tables, pages: nat, e: nat, o: nat, n: nat)
    requires Inverse(t, pages) && e + n <= EA_PAGES && o + n <= pages && Inverse(MapPages(t, e, o, n), pages)
    ensures Enclosed(t, e, o, n)
  {
    var t' := MapPages(t, e, o, n);
    MapPagesAt(t, e, o, n);
    hide MapPages;
    forall p | e <= p < e + n && Io(t, p) != UNMAPPED
      ensures o <= Io(t, p) < o + n
    {
      var q := Io(t, p);
      assert Ea(t, q) == p && Io(t', p) == o + (p - e);
      assert Ea(t', q) == p ==> Io(t', p) == q;
    }
    forall q | o <= q < o + n && Ea(t, q) != UNMAPPED
      ensures e <= Ea(t, q) < e + n
    {
      var p := Ea(t, q);
      assert Io(t, p) == q && Ea(t', q) == e + (q - o);
      assert Io(t', p) == q ==> Ea(t', q) == p;
    }
  }

  /** Mapping onto free pages records one more block. */
  lemma MapKeepsTiling(t: Tables, e: nat, o: nat, n: nat)
    requires Tiled(t) && n > 0 && e + n <= EA_PAGES && o + n <= IO_PAGES && Free(t, e, o, n)
    ensures Tiled(MapPages(t, e, o, n))
  {
    var t' := MapPages(t, e, o, n);
    MapPagesAt(t, e, o, n);
    forall h: nat, p: nat
      ensures InBlock(t', h, p) <==> if h == e then e <= p < e + n else InBlock(t, h, p)
      ensures InBlock(t, h, p) ==> !(e <= p < e + n)
    {
      assert InBlock(t, h, p) && p < EA_PAGES ==> Io(t, p) != UNMAPPED;
    }
    hide MapPages, InBlock;
    forall p | 0 <= p < EA_PAGES && Io(t', p) != UNMAPPED
      ensures exists h: nat :: InBlock(t', h, p)
    {
      if e <= p < e + n {
        assert InBlock(t', e, p);
      } else {
        var h: nat :| InBlock(t, h, p);
        assert InBlock(t', h, p) by {
          assert h != e by { BlockHeadMapped(t, h, p); }
        }
      }
    }
  }

  lemma BlockHeadMapped(t: Tables, h: nat, p: nat)
    requires Tiled(t) && InBlock(t, h, p)
    ensures h < EA_PAGES && Io(t, h) != UNMAPPED
  {
    assert InBlock(t, h, h);
  }

  // ---- unmapping

  /** IO page `o` is the first page of a recorded block: what unmapping asks for. */
  predicate IsHead(t: Tables, o: nat)
    requires Sized(t) && o < 0x1000
  {
    t.blocks[Ea(t, o)] != 0
  }

  function BlockSize(t: Tables, o: nat): u16
    requires Sized(t) && o < 0x1000
  {
    t.blocks[Ea(t, o)]
  }

  /** For a page of the table the block lies within the mapped range, so that the kernel call which
      checks that range does not fail. */
  lemma HeadFits(t: Tables, pages: nat, o: nat)
    requires Good(t, pages) && o < IO_PAGES && IsHead(t, o)
    ensures Ea(t, o) + BlockSize(t, o) <= EA_PAGES && o + BlockSize(t, o) <= pages
    ensures Io(t, Ea(t, o)) == o
  {
    var e: nat, n: nat := Ea(t, o), BlockSize(t, o);
    assert InBlock(t, e, e);
    assert InBlock(t, e, e + n - 1);
    assert Io(t, e + n - 1) < pages;
  }

  /** The effect of unmapping the block of `n` pages from page `e` at IO page `o`. */
  function UnmapPages(t: Tables, e: nat, o: nat, n: nat): (r: Tables)
    requires Sized(t) && e + n <= EA_PAGES && o + n <= IO_PAGES
    ensures Sized(r) && |r.cells| == |t.cells|
  {
    Tables(UnmapCells(t.cells, e, o, n), t.blocks[e := 0])
  }

  function UnmapCells(cells: seq<u16>, e: nat, o: nat, n: nat): (r: seq<u16>)
    requires |cells| >= 0x2000 && e + n <= EA_PAGES && o + n <= IO_PAGES
    ensures |r| == |cells|
  {
    seq(|cells|, k requires 0 <= k < |cells| =>
      if e <= k < e + n || EA_PAGES + o <= k < EA_PAGES + o + n then UNMAPPED else cells[k])
  }

  lemma UnmapPagesAt(t: Tables, e: nat, o: nat, n: nat)
    requires Sized(t) && e + n <= EA_PAGES && o + n <= IO_PAGES
    ensures
      var t' := UnmapPages(t, e, o, n);
      && (forall p {:trigger Io(t', p)} :: 0 <= p < EA_PAGES ==>
            Io(t', p) == if e <= p < e + n then UNMAPPED else Io(t, p))
      && (forall q {:trigger Ea(t', q)} :: 0 <= q < IO_PAGES ==>
            Ea(t', q) == if o <= q < o + n then UNMAPPED else Ea(t, q))
  {
  }

  /** Unmapping a recorded block leaves the tables inverse and tiled. */
  lemma UnmapKeepsGood(t: Tables, pages: nat, o: nat)
    requires Good(t, pages) && o < IO_PAGES && IsHead(t, o)
    ensures
      var e, n := Ea(t, o), BlockSize(t, o);
      e + n <= EA_PAGES && o + n <= pages && Good(UnmapPages(t, e, o, n), pages)
  {
    var e, n := Ea(t, o), BlockSize(t, o);
    HeadFits(t, pages, o);
    forall p: nat | e <= p < e + n
      ensures Io(t, p) == o + (p - e) && Ea(t, o + (p - e)) == p
    {
      assert InBlock(t, e, p);
    }
    UnmapKeepsInverse(t, pages, e, o, n);
    UnmapKeepsTiling(t, e, o, n);
  }

  lemma UnmapKeepsInverse(t: Tables, pages: nat, e: nat, o: nat, n: nat)
    requires Inverse(t, pages) && e + n <= EA_PAGES && o + n <= pages
    requires forall p: nat {:trigger Io(t, p)} :: e <= p < e + n ==> Io(t, p) == o + (p - e)
    ensures Inverse(UnmapPages(t, e, o, n), pages)
  {
    var t' := UnmapPages(t, e, o, n);
    UnmapPagesAt(t, e, o, n);
    hide UnmapPages;
    forall q | o <= q < o + n
      ensures Ea(t, q) == e + (q - o)
    {
      assert Io(t, e + (q - o)) == q;
    }
    forall p | 0 <= p < EA_PAGES && Io(t', p) != UNMAPPED
      ensures Io(t', p) < pages && Ea(t', Io(t', p)) == p
    {
      var q := Io(t, p);
      assert Ea(t, q) == p;
    }
    forall q | 0 <= q < IO_PAGES && Ea(t', q) != UNMAPPED
      ensures q < pages && Ea(t', q) < EA_PAGES && Io(t', Ea(t', q)) == q
    {
      assert Io(t, Ea(t, q)) == q;
    }
  }

  lemma UnmapKeepsTiling(t: Tables, e: nat, o: nat, n: nat)
    requires Tiled(t) && e + n <= EA_PAGES && o + n <= IO_PAGES && n > 0 && t.blocks[e] == n
    ensures Tiled(UnmapPages(t, e, o, n))
  {
    var t' := UnmapPages(t, e, o, n);
    UnmapPagesAt(t, e, o, n);
    forall h: nat, p: nat
      ensures InBlock(t', h, p) <==> h != e && InBlock(t, h, p)
      ensures InBlock(t, h, p) && h != e ==> !(e <= p < e + n)
    {
      assert e <= p < e + n ==> InBlock(t, e, p);
    }
    hide UnmapPages, InBlock;
    forall p | 0 <= p < EA_PAGES && Io(t', p) != UNMAPPED
      ensures exists h: nat :: InBlock(t', h, p)
    {
      var h: nat :| InBlock(t, h, p);
      assert h != e by { BlockExtent(t, h, p); }
      assert InBlock(t', h, p);
    }
    forall h: nat, p: nat | InBlock(t', h, p)
      ensures p < EA_PAGES && Io(t', p) < IO_PAGES && Io(t', p) == Io(t', h) + (p - h)
    {
      HeadInBlock(t, h, p);
      assert InBlock(t', h, h);
    }
  }

  lemma BlockExtent(t: Tables, h: nat, p: nat)
    requires Sized(t) && InBlock(t, h, p)
    ensures h <= p < h + t.blocks[h]
  {
  }

  lemma HeadInBlock(t: Tables, h: nat, p: nat)
    requires Sized(t) && InBlock(t, h, p)
    ensures InBlock(t, h, h) && h <= p
  {
  }

  /** Mapping onto free pages and unmapping again restores every cell. */
  lemma UnmapUndoesMap(t: Tables, e: nat, o: nat, n: nat)
    requires Tiled(t) && n > 0 && e + n <= EA_PAGES && o + n <= IO_PAGES && Free(t, e, o, n)
    ensures
      var t' := MapPages(t, e, o, n);
      IsHead(t', o) && Ea(t', o) == e && BlockSize(t', o) == n && UnmapPages(t', e, o, n) == t
  {
    var t' := MapPages(t, e, o, n);
    var t'' := UnmapPages(t', e, o, n);
    assert t.blocks[e] == 0 by {
      assert Io(t, e) == UNMAPPED;
      assert !InBlock(t, e, e);
    }
    assert t''.blocks == t.blocks;
    forall k | 0 <= k < |t.cells|
      ensures t''.cells[k] == t.cells[k]
    {
      if e <= k < e + n {
        assert Io(t, k) == UNMAPPED;
      } else if EA_PAGES + o <= k < EA_PAGES + o + n {
        assert Ea(t, k - EA_PAGES) == UNMAPPED;
      }
    }
    assert t''.cells == t.cells;
  }

  /** What unmapping finds for IO page `o` depends only on the cells of the block table that exist,
      one for each page below 0xC0000000. */
  ghost predicate StaysInTable(t: Tables, o: nat)
    requires Sized(t) && o < 0x1000
  {
    forall b: seq<u16> {:trigger Tables(t.cells, b)} :: |b| == |t.blocks| && b[..EA_PAGES] == t.blocks[..EA_PAGES]
      ==> BlockSize(Tables(t.cells, b), o) == BlockSize(t, o)
  }

  /** A caller sees that from the entry of the page: it must name a page below 0xC0000000. In good
      tables every mapped page does, and no unmapped one. */
  lemma StaysInTableExactly(t: Tables, o: nat)
    requires Sized(t) && o < 0x1000
    ensures StaysInTable(t, o) <==> Ea(t, o) < EA_PAGES
    ensures forall pages :: o < IO_PAGES && Good(t, pages) ==> (StaysInTable(t, o) <==> Ea(t, o) != UNMAPPED)
  {
    var e: nat := Ea(t, o);
    if e < EA_PAGES {
      forall b: seq<u16> | |b| == |t.blocks| && b[..EA_PAGES] == t.blocks[..EA_PAGES]
        ensures BlockSize(Tables(t.cells, b), o) == BlockSize(t, o)
      {
        assert b[e] == b[..EA_PAGES][e] == t.blocks[..EA_PAGES][e];
      }
    } else {
      var other := t.blocks[e := if t.blocks[e] == 0 then 1 else 0];
      assert other[..EA_PAGES] == t.blocks[..EA_PAGES];
      assert BlockSize(Tables(t.cells, other), o) != BlockSize(t, o);
    }
    hide StaysInTable, Tiled;
  }

  // ---- runs

  datatype Op = Map(e: nat, o: nat, n: nat) | Unmap(o: nat)

  /** Callers map only pages that are free on both sides; they may unmap anything. */
  predicate Allowed(t: Tables, pages: nat, op: Op) {
    && Sized(t)
    && match op
       case Map(e, o, n) => n > 0 && e + n <= EA_PAGES && o + n <= pages <= IO_PAGES ==> Free(t, e, o, n)
       case Unmap(o) => o < 0x1000
  }

  /** The kernel refuses to map no pages, or pages outside the two ranges, and to unmap a block that
      ends behind the IO range; unmapping also fails where no block begins. */
  function Apply(t: Tables, pages: nat, op: Op): (r: Tables)
    requires Good(t, pages) && Allowed(t, pages, op)
  {
    match op
    case Map(e, o, n) => if n > 0 && e + n <= EA_PAGES && o + n <= pages then MapPages(t, e, o, n) else t
    case Unmap(o) =>
      if IsHead(t, o) && o + BlockSize(t, o) <= pages then
        HeadFits(t, pages, o);
        UnmapPages(t, Ea(t, o), o, BlockSize(t, o))
      else t
  }

  lemma ApplyKeepsGood(t: Tables, pages: nat, op: Op)
    requires Good(t, pages) && Allowed(t, pages, op)
    ensures Good(Apply(t, pages, op), pages)
  {
    hide MapPages, UnmapPages, Inverse, Tiled;
    match op
    case Map(e, o, n) =>
      if n > 0 && e + n <= EA_PAGES && o + n <= pages {
        PagesBound(t, pages);
        MapKeepsInverse(t, pages, e, o, n);
        MapKeepsTiling(t, e, o, n);
      }
    case Unmap(o) =>
      PagesBound(t, pages);
      if IsHead(t, o) && o + BlockSize(t, o) <= pages {
        UnmapKeepsGood(t, pages, o);
      }
  }

  lemma PagesBound(t: Tables, pages: nat)
    requires Good(t, pages)
    ensures Sized(t) && pages <= IO_PAGES
  {
  }

  ghost predicate Next(t: Tables, pages: nat, op: Op, next: Tables) {
    Allowed(t, pages, op) && (Good(t, pages) ==> next == Apply(t, pages, op))
  }

  /** Over any run of maps onto free pages and unmaps from the initial tables, the two tables stay
      mutually inverse and tiled by the recorded blocks. */
  lemma RunKeepsGood(r: seq<Tables>, ops: seq<Op>, pages: nat, k: nat)
    requires IsRun((t: Tables, op: Op, next: Tables) => Next(t, pages, op, next), r, ops)
    requires Empty(r[0]) && pages <= IO_PAGES && k < |r|
    ensures Good(r[k], pages)
  {
    EmptyIsGood(r[0], pages);
    hide Inverse, Tiled, Allowed, Apply;
    var next := (t: Tables, op: Op, next: Tables) => Next(t, pages, op, next);
    forall t, op, u | Good(t, pages) && next(t, op, u) ensures Good(u, pages) {
      ApplyKeepsGood(t, pages, op);
    }
    Invariant(next, t => Good(t, pages), r, ops, k);
  }

  // ---- translations

  datatype Result<T> = Ok(value: T) | Failed

  /** `cellGcmAddressToOffset`; `mainMem`, `localAddr` and `localSize` are the sizes in force. */
  function AddressToOffset(t: Tables, mainMem: u32, localAddr: u32, localSize: u32, address: u32): (r: Result<u32>)
    requires Sized(t) && mainMem <= IO_PAGES * PAGE
  {
    if Wrap32(address - localAddr) < localSize then Ok(Wrap32(address - localAddr))
    else
      var upper := Wrap32(Io(t, address / PAGE) * PAGE);
      if upper < mainMem then Ok(upper + address % PAGE) else Failed
  }

  /** `cellGcmIoOffsetToAddress`, which reports an address of zero as failure. */
  function IoOffsetToAddress(t: Tables, offset: u32): (r: Result<u32>)
    requires Sized(t)
  {
    var upper := Ea(t, offset / PAGE);
    var address := if upper > 0xBFF then 0 else upper * PAGE + offset % PAGE;
    if address == 0 then Failed else Ok(address)
  }

  /** The local memory lies above the main memory. */
  predicate LocalAbove(localAddr: u32, localSize: u32) {
    localSize == 0 || (0xC000_0000 <= localAddr && localAddr + localSize <= 0x1_0000_0000)
  }

  /** An address in the local memory has its distance from the start of it as offset, whatever is mapped. */
  lemma LocalAddresses(t: Tables, mainMem: u32, localAddr: u32, localSize: u32, address: u32)
    requires Sized(t) && mainMem <= IO_PAGES * PAGE
    requires localAddr <= address < localAddr + localSize
    ensures AddressToOffset(t, mainMem, localAddr, localSize, address) == Ok(address - localAddr)
  {
  }

  /** An address below 0xC0000000 has an offset exactly when its page is mapped. */
  lemma MappedAddresses(t: Tables, pages: nat, localAddr: u32, localSize: u32, address: u32)
    requires Inverse(t, pages) && LocalAbove(localAddr, localSize) && address < 0xC000_0000
    ensures AddressToOffset(t, pages * PAGE, localAddr, localSize, address).Ok? <==> Io(t, address / PAGE) != UNMAPPED
  {
    var p := address / PAGE;
    assert p < EA_PAGES;
  }

  lemma PageAndRest(page: nat, rest: nat)
    requires rest < PAGE
    ensures (page * PAGE + rest) / PAGE == page && (page * PAGE + rest) % PAGE == rest
  {
  }

  /** What the lookup gives a main-memory address that is not local. */
  lemma OffsetOf(t: Tables, pages: nat, localAddr: u32, localSize: u32, address: u32)
    requires Inverse(t, pages) && address < 0xC000_0000 && Wrap32(address - localAddr) >= localSize
    ensures var r := AddressToOffset(t, pages * PAGE, localAddr, localSize, address);
            r.Ok? ==> var q := Io(t, address / PAGE);
                      q != UNMAPPED && q < pages && Ea(t, q) == address / PAGE && r.value == q * PAGE + address % PAGE
  {
    assert address / PAGE < EA_PAGES;
  }

  /** The offset of an address that is not local leads back to it exactly when it is a main-memory
      address other than zero: zero reads as failure, and an address above 0xC0000000 reads its page
      number beyond `ioAddress`. */
  lemma AddressRoundTrip(t: Tables, pages: nat, localAddr: u32, localSize: u32, address: u32)
    requires Inverse(t, pages) && LocalAbove(localAddr, localSize)
    requires Wrap32(address - localAddr) >= localSize
    ensures
      var r := AddressToOffset(t, pages * PAGE, localAddr, localSize, address);
      r.Ok? ==> r.value < pages * PAGE && (IoOffsetToAddress(t, r.value) == Ok(address) <==> 0 < address < 0xC000_0000)
  {
    var r := AddressToOffset(t, pages * PAGE, localAddr, localSize, address);
    if r.Ok? {
      InIoRange(t, pages, localAddr, localSize, address);
      if address < 0xC000_0000 {
        OffsetOf(t, pages, localAddr, localSize, address);
        PageAndRest(Io(t, address / PAGE), address % PAGE);
        hide AddressToOffset, Inverse;
      } else {
        hide AddressToOffset;
        AddressIsMain(t, pages, r.value);
      }
    }
  }

  lemma InIoRange(t: Tables, pages: nat, localAddr: u32, localSize: u32, address: u32)
    requires Inverse(t, pages) && Wrap32(address - localAddr) >= localSize
    ensures var r := AddressToOffset(t, pages * PAGE, localAddr, localSize, address);
            r.Ok? ==> r.value < pages * PAGE
  {
  }

  lemma AddressIsMain(t: Tables, pages: nat, offset: u32)
    requires Inverse(t, pages) && offset < pages * PAGE
    ensures var r := IoOffsetToAddress(t, offset); r.Ok? ==> 0 < r.value < 0xC000_0000
  {
    assert offset / PAGE < pages;
  }

  /** An offset in the IO range that has an address is the offset of that address. */
  lemma OffsetRoundTrip(t: Tables, pages: nat, localAddr: u32, localSize: u32, offset: u32)
    requires Inverse(t, pages) && LocalAbove(localAddr, localSize) && offset < IO_PAGES * PAGE
    ensures
      var r := IoOffsetToAddress(t, offset);
      && (r.Ok? ==> AddressToOffset(t, pages * PAGE, localAddr, localSize, r.value) == Ok(offset))
      && (r.Ok? <==> Ea(t, offset / PAGE) != UNMAPPED && (Ea(t, offset / PAGE) != 0 || offset % PAGE != 0))
  {
    var q, low := offset / PAGE, offset % PAGE;
    if Ea(t, q) != UNMAPPED {
      var p := Ea(t, q);
      assert Io(t, p) == q;
      assert (p * PAGE + low) / PAGE == p && (p * PAGE + low) % PAGE == low;
    }
  }

  /** An address above 0xC0000000 that is not local is looked up in `eaAddress` instead, which lies
      behind: it is given an offset exactly when the number found there, that of a main-memory page, is
      also that of an IO page. */
  lemma AddressesAboveExactly(t: Tables, pages: nat, localAddr: u32, localSize: u32, address: u32)
    requires Inverse(t, pages) && 0xC000_0000 <= address < 0xE000_0000
    requires Wrap32(address - localAddr) >= localSize
    ensures
      var r, e := AddressToOffset(t, pages * PAGE, localAddr, localSize, address), Ea(t, address / PAGE - EA_PAGES);
      && (r.Ok? <==> e < pages)
      && (r.Ok? ==> r.value == e * PAGE + address % PAGE)
  {
    var q := address / PAGE - EA_PAGES;
    assert 0 <= q < IO_PAGES && Io(t, address / PAGE) == Ea(t, q);
    PageIsWord(Ea(t, q), pages);
    hide Inverse;
  }

  lemma PageIsWord(page: u16, pages: nat)
    requires page < EA_PAGES || page == UNMAPPED
    requires pages <= IO_PAGES
    ensures Wrap32(page * PAGE) < pages * PAGE <==> page < pages
    ensures page < pages ==> Wrap32(page * PAGE) == page * PAGE
  {
  }

  /** Such a lookup can succeed: once page 1 is mapped at IO page 300, the
      unmapped address 0xD2C00000 is given the offset 0x100000. */
  lemma AddressesAboveAlias(t: Tables)
    requires Empty(t)
    ensures
      var t' := MapPages(t, 1, 300, 1);
      && Good(t', IO_PAGES)
      && AddressToOffset(t', IO_PAGES * PAGE, 0xC000_0000, 0x0F90_0000, 0xD2C0_0000) == Ok(0x10_0000)
  {
    EmptyIsGood(t, IO_PAGES);
    ApplyKeepsGood(t, IO_PAGES, Map(1, 300, 1));
    assert Apply(t, IO_PAGES, Map(1, 300, 1)) == MapPages(t, 1, 300, 1);
  }
}
