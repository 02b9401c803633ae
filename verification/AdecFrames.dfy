/** The pool of PCM frames of the audio decoder and the index-linked list that threads through
    it. Unlinking the head leaves the `prev` of the new head stale; `Chain` says what is relied on. */
module AdecFrames {
  import opened MachineInts

  datatype Frame = Frame(inUse: bool, auDone: bool, pcmOut: bool, next: int, prev: int, pts: TimeStamp)

  datatype FrameList = FrameList(frames: seq<Frame>, head: int, tail: int)

  predicate IsHandle(l: FrameList, h: int) {
    0 <= h < |l.frames|
  }

  /** The list fields that linking and unlinking follow do not leave the pool. */
  predicate Linkable(l: FrameList, h: int) {
    && IsHandle(l, h)
    && (l.head != -1 && l.tail != -1 ==> IsHandle(l, l.head) && IsHandle(l, l.tail))
  }

  /** Unlinking the head writes behind it, unlinking the tail before it. */
  predicate Followable(l: FrameList, h: int) {
    && Linkable(l, h)
    && (l.head != -1 && l.tail != -1 && l.head != l.tail && l.frames[h].inUse ==>
          && (h == l.head || IsHandle(l, l.frames[h].next))
          && ((h == l.tail && h != l.head) || IsHandle(l, l.frames[h].prev)))
  }

  function SetNext(l: FrameList, h: int, next: int): FrameList
    requires IsHandle(l, h)
  {
    l.(frames := l.frames[h := l.frames[h].(next := next)])
  }

  function SetPrev(l: FrameList, h: int, prev: int): FrameList
    requires IsHandle(l, h)
  {
    l.(frames := l.frames[h := l.frames[h].(prev := prev)])
  }

  datatype Outcome = Ok(list: FrameList) | Fatal

  function Link(l: FrameList, h: int): Outcome
    requires Linkable(l, h)
  {
    if !l.frames[h].inUse then Fatal
    else if l.tail == -1 && l.head == -1 then
      Ok(SetPrev(SetNext(l, h, h), h, h).(head := h, tail := h))
    else if l.tail != -1 && l.head != -1 then
      Ok(SetNext(SetPrev(SetNext(l, h, h), h, l.tail), l.tail, h).(tail := h))
    else Fatal
  }

  function Unlink(l: FrameList, h: int): Outcome
    requires Followable(l, h)
  {
    if !l.frames[h].inUse then Fatal
    else if l.head == -1 || l.tail == -1 then Fatal
    else
      var next, prev := l.frames[h].next, l.frames[h].prev;
      if l.head == l.tail then
        if h != l.tail then Fatal
        else Ok(SetPrev(SetNext(l.(head := -1, tail := -1), h, -1), h, -1))
      else if h == l.head then Ok(SetNext(l.(head := next), prev, next))
      else if h == l.tail then Ok(SetPrev(l.(tail := prev), next, prev))
      else Ok(SetNext(SetPrev(l, next, prev), prev, next))
  }

  function Reset(l: FrameList, h: int): FrameList
    requires IsHandle(l, h)
  {
    l.(frames := l.frames[h := Frame(false, false, false, -1, -1, l.frames[h].pts)])
  }

  /** What the `next` of place `i` has to be: the following handle, or itself at the end. */
  function Succ(hs: seq<int>, i: nat): int
    requires i < |hs|
  {
    if i == |hs| - 1 then hs[i] else hs[i + 1]
  }

  ghost predicate Distinct(hs: seq<int>) {
    forall i, j :: 0 <= i < j < |hs| ==> hs[i] != hs[j]
  }

  ghost predicate Members(l: FrameList, hs: seq<int>) {
    forall i :: 0 <= i < |hs| ==> IsHandle(l, hs[i]) && l.frames[hs[i]].inUse
  }

  ghost predicate Nexts(l: FrameList, hs: seq<int>)
    requires Members(l, hs)
  {
    forall i :: 0 <= i < |hs| ==> l.frames[hs[i]].next == Succ(hs, i)
  }

  ghost predicate Prevs(l: FrameList, hs: seq<int>)
    requires Members(l, hs)
  {
    forall i :: 0 < i < |hs| ==> l.frames[hs[i]].prev == hs[i - 1]
  }

  /** The list threads exactly `hs`, in order. The `prev` of the first is only known to be a
      handle: it may name a frame that left the list long ago. */
  ghost predicate Chain(l: FrameList, hs: seq<int>) {
    && Members(l, hs) && Distinct(hs) && Nexts(l, hs) && Prevs(l, hs)
    && if hs == [] then l.head == -1 && l.tail == -1
       else l.head == hs[0] && l.tail == hs[|hs| - 1] && IsHandle(l, l.frames[hs[0]].prev)
  }

  lemma ChainFollowable(l: FrameList, hs: seq<int>, h: int)
    requires Chain(l, hs) && IsHandle(l, h) && (h in hs || hs == [])
    ensures Followable(l, h)
  {
    if h in hs {
      var i :| 0 <= i < |hs| && hs[i] == h;
      assert i == |hs| - 1 || IsHandle(l, hs[i + 1]);
      assert i == 0 || IsHandle(l, hs[i - 1]);
    }
  }

  /** Same pool, same claims; only the frames in `touched` may differ in their links. */
  ghost predicate SamePool(l: FrameList, m: FrameList, touched: set<int>) {
    && |m.frames| == |l.frames|
    && (forall x :: IsHandle(l, x) ==> m.frames[x].inUse == l.frames[x].inUse)
    && (forall x :: IsHandle(l, x) && x !in touched ==> m.frames[x] == l.frames[x])
  }

  lemma LinkFields(l: FrameList, h: int)
    requires Linkable(l, h) && l.frames[h].inUse && l.tail != h && (l.head == -1 <==> l.tail == -1)
    ensures Link(l, h).Ok?
    ensures var m := Link(l, h).list;
            && SamePool(l, m, {h, l.tail})
            && m.tail == h && m.head == (if l.head == -1 then h else l.head)
            && m.frames[h].next == h && m.frames[h].prev == (if l.tail == -1 then h else l.tail)
            && (l.tail != -1 ==> m.frames[l.tail].next == h && m.frames[l.tail].prev == l.frames[l.tail].prev)
  {
  }

  lemma LinkMembers(l: FrameList, hs: seq<int>, h: int)
    requires Chain(l, hs) && Linkable(l, h) && l.frames[h].inUse && h !in hs
    ensures Link(l, h).Ok? && Members(Link(l, h).list, hs + [h]) && Nexts(Link(l, h).list, hs + [h])
  {
    LinkFields(l, h);
    hide Link, Linkable, Prevs;
    var m, n := Link(l, h).list, hs + [h];
    forall i | 0 <= i < |n|
      ensures IsHandle(m, n[i]) && m.frames[n[i]].inUse && m.frames[n[i]].next == Succ(n, i)
    {
      assert i < |hs| ==> n[i] == hs[i] != h;
      assert i < |hs| - 1 ==> hs[i] != hs[|hs| - 1] && Succ(n, i) == Succ(hs, i);
    }
  }

  lemma LinkPrevs(l: FrameList, hs: seq<int>, h: int)
    requires Chain(l, hs) && Linkable(l, h) && l.frames[h].inUse && h !in hs
    requires Link(l, h).Ok? && Members(Link(l, h).list, hs + [h])
    ensures Prevs(Link(l, h).list, hs + [h])
  {
    LinkFields(l, h);
    hide Link, Linkable, Nexts;
    var m, n := Link(l, h).list, hs + [h];
    forall i | 0 < i < |n| ensures m.frames[n[i]].prev == n[i - 1] {
      assert n[i - 1] == hs[i - 1];
      assert i < |hs| ==> n[i] == hs[i] != h;
    }
  }

  /** Linking appends, whatever the length of the list. */
  lemma LinkAppends(l: FrameList, hs: seq<int>, h: int)
    requires Chain(l, hs) && IsHandle(l, h) && l.frames[h].inUse && h !in hs
    ensures Linkable(l, h)
    ensures Link(l, h).Ok? && Chain(Link(l, h).list, hs + [h])
  {
    LinkFields(l, h);
    LinkMembers(l, hs, h);
    LinkPrevs(l, hs, h);
    hide Link, Nexts, Prevs;
    assert hs != [] ==> (hs + [h])[0] == hs[0];
  }

  lemma UnlinkHeadFields(l: FrameList, hs: seq<int>)
    requires Chain(l, hs) && |hs| > 1
    ensures Followable(l, hs[0]) && Unlink(l, hs[0]).Ok?
    ensures var m, stale := Unlink(l, hs[0]).list, l.frames[hs[0]].prev;
            && SamePool(l, m, {stale})
            && m.head == hs[1] && m.tail == l.tail
            && m.frames[stale] == l.frames[stale].(next := hs[1])
  {
    ChainFollowable(l, hs, hs[0]);
    assert hs[0] != hs[|hs| - 1];
    assert Succ(hs, 0) == hs[1];
  }

  /** Unlinking the head drops it exactly when the list had at most two frames or the stale
      `prev` of the head names none of those that stay. */
  lemma UnlinkHeadExact(l: FrameList, hs: seq<int>)
    requires Chain(l, hs) && hs != []
    ensures Followable(l, hs[0]) && Unlink(l, hs[0]).Ok?
    ensures Chain(Unlink(l, hs[0]).list, hs[1..]) <==> |hs| <= 2 || l.frames[hs[0]].prev !in hs[1..]
  {
    ChainFollowable(l, hs, hs[0]);
    if |hs| > 1 {
      UnlinkHeadFields(l, hs);
      hide Unlink;
      if |hs| > 2 && l.frames[hs[0]].prev in hs[1..] {
        StalePrevBreaks(l, hs);
      } else {
        HarmlessPrevKeeps(l, hs);
      }
    }
  }

  lemma StalePrevBreaks(l: FrameList, hs: seq<int>)
    requires Chain(l, hs) && |hs| > 2 && l.frames[hs[0]].prev in hs[1..]
    requires Followable(l, hs[0]) && Unlink(l, hs[0]).Ok?
    ensures !Chain(Unlink(l, hs[0]).list, hs[1..])
  {
    UnlinkHeadFields(l, hs);
    hide Unlink, Followable;
    var m, stale, rest := Unlink(l, hs[0]).list, l.frames[hs[0]].prev, hs[1..];
    var i :| 0 <= i < |rest| && rest[i] == stale;
    assert m.frames[rest[i]].next == rest[0];
    assert rest[i] == hs[i + 1] && rest[0] == hs[1];
    assert rest[0] != Succ(rest, i);
  }

  lemma HarmlessPrevKeeps(l: FrameList, hs: seq<int>)
    requires Chain(l, hs) && |hs| > 1 && (|hs| == 2 || l.frames[hs[0]].prev !in hs[1..])
    requires Followable(l, hs[0]) && Unlink(l, hs[0]).Ok?
    ensures Chain(Unlink(l, hs[0]).list, hs[1..])
  {
    UnlinkHeadFields(l, hs);
    hide Unlink, Followable;
    var m, rest := Unlink(l, hs[0]).list, hs[1..];
    forall i | 0 <= i < |rest|
      ensures IsHandle(m, rest[i]) && m.frames[rest[i]].inUse
      ensures m.frames[rest[i]].next == Succ(rest, i)
      ensures m.frames[rest[i]].prev == hs[i]
    {
      assert rest[i] == hs[i + 1] && Succ(rest, i) == Succ(hs, i + 1);
      assert rest[i] in rest;
    }
  }

  /** What the list says of its `k`-th frame. */
  lemma ChainAt(l: FrameList, hs: seq<int>, k: nat)
    requires Chain(l, hs) && k < |hs|
    ensures IsHandle(l, hs[k]) && l.frames[hs[k]].inUse && l.frames[hs[k]].next == Succ(hs, k)
    ensures k > 0 ==> l.frames[hs[k]].prev == hs[k - 1]
    ensures l.head == hs[0] && l.tail == hs[|hs| - 1] && IsHandle(l, l.head) && IsHandle(l, l.tail)
  {
  }

  lemma Different(l: FrameList, hs: seq<int>, i: nat, j: nat)
    requires Chain(l, hs) && i < |hs| && j < |hs| && i != j
    ensures hs[i] != hs[j]
  {
    assert i < j || j < i;
  }

  lemma MiddleStores(l: FrameList, h: int, a: int, b: int)
    requires IsHandle(l, h) && IsHandle(l, a) && IsHandle(l, b) && IsHandle(l, l.head) && IsHandle(l, l.tail)
    requires l.frames[h].inUse && l.frames[h].next == b && l.frames[h].prev == a && a != b
    requires l.head != l.tail && h != l.head && h != l.tail
    ensures Followable(l, h) && Unlink(l, h).Ok?
    ensures var m := Unlink(l, h).list;
            && SamePool(l, m, {a, b}) && m.head == l.head && m.tail == l.tail
            && m.frames[a] == l.frames[a].(next := b) && m.frames[b] == l.frames[b].(prev := a)
  {
  }

  lemma MiddleFields(l: FrameList, hs: seq<int>, k: nat)
    requires Chain(l, hs) && 0 < k < |hs| - 1
    ensures IsHandle(l, hs[k - 1]) && IsHandle(l, hs[k]) && IsHandle(l, hs[k + 1])
    ensures Followable(l, hs[k]) && Unlink(l, hs[k]).Ok?
    ensures var m := Unlink(l, hs[k]).list;
            && SamePool(l, m, {hs[k - 1], hs[k + 1]}) && m.head == l.head && m.tail == l.tail
            && m.frames[hs[k - 1]] == l.frames[hs[k - 1]].(next := hs[k + 1])
            && m.frames[hs[k + 1]] == l.frames[hs[k + 1]].(prev := hs[k - 1])
  {
    hide Chain, Unlink, Followable;
    ChainAt(l, hs, k - 1);
    ChainAt(l, hs, k);
    ChainAt(l, hs, k + 1);
    Different(l, hs, k, 0);
    Different(l, hs, k, |hs| - 1);
    Different(l, hs, 0, |hs| - 1);
    Different(l, hs, k - 1, k + 1);
    MiddleStores(l, hs[k], hs[k - 1], hs[k + 1]);
  }

  /** Without the `k`-th. */
  function Without(hs: seq<int>, k: nat): seq<int>
    requires k < |hs|
  {
    hs[..k] + hs[k + 1..]
  }

  lemma PoolAt(l: FrameList, m: FrameList, a: int, b: int, x: int)
    requires SamePool(l, m, {a, b}) && IsHandle(l, x)
    ensures IsHandle(m, x) && m.frames[x].inUse == l.frames[x].inUse
    ensures x != a && x != b ==> m.frames[x] == l.frames[x]
  {
  }

  /** Between the frames `a` and `b` something was taken out. */
  predicate Bridged(l: FrameList, m: FrameList, a: int, b: int) {
    && IsHandle(l, a) && IsHandle(l, b) && IsHandle(m, a) && IsHandle(m, b)
    && m.frames[a] == l.frames[a].(next := b) && m.frames[b] == l.frames[b].(prev := a)
  }

  /** One frame of what is left. */
  lemma MiddleAt(l: FrameList, m: FrameList, hs: seq<int>, k: nat, j: nat)
    requires Chain(l, hs) && 0 < k < |hs| - 1 && j < |hs| && j != k
    requires SamePool(l, m, {hs[k - 1], hs[k + 1]}) && Bridged(l, m, hs[k - 1], hs[k + 1])
    ensures IsHandle(m, hs[j]) && IsHandle(l, hs[j]) && m.frames[hs[j]].inUse
    ensures m.frames[hs[j]].next == if j == k - 1 then hs[k + 1] else Succ(hs, j)
    ensures 0 < j ==> m.frames[hs[j]].prev == if j == k + 1 then hs[k - 1] else hs[j - 1]
    ensures j == 0 ==> m.frames[hs[j]].prev == l.frames[hs[j]].prev
  {
    ChainAt(l, hs, j);
    hide Chain;
    PoolAt(l, m, hs[k - 1], hs[k + 1], hs[j]);
    hide SamePool;
    if j != k - 1 {
      Different(l, hs, j, k - 1);
    }
    if j != k + 1 {
      Different(l, hs, j, k + 1);
    }
  }

  /** Where the frames of the shorter sequence come from. */
  lemma WithoutAt(hs: seq<int>, k: nat, i: nat)
    requires 0 < k < |hs| - 1 && i < |hs| - 1
    ensures var rest, j := Without(hs, k), if i < k then i else i + 1;
            && |rest| == |hs| - 1 && rest[i] == hs[j]
            && Succ(rest, i) == (if j == k - 1 then hs[k + 1] else Succ(hs, j))
            && (0 < i ==> rest[i - 1] == if j == k + 1 then hs[k - 1] else hs[j - 1])
  {
  }

  predicate IsLinkedAt(m: FrameList, hs: seq<int>, i: nat)
    requires i < |hs|
  {
    && IsHandle(m, hs[i]) && m.frames[hs[i]].inUse && m.frames[hs[i]].next == Succ(hs, i)
    && (0 < i ==> m.frames[hs[i]].prev == hs[i - 1])
  }

  lemma MiddleLinkAt(l: FrameList, m: FrameList, hs: seq<int>, k: nat, i: nat)
    requires Chain(l, hs) && 0 < k < |hs| - 1 && i < |hs| - 1
    requires SamePool(l, m, {hs[k - 1], hs[k + 1]}) && Bridged(l, m, hs[k - 1], hs[k + 1])
    ensures |Without(hs, k)| == |hs| - 1 && IsLinkedAt(m, Without(hs, k), i)
  {
    hide Chain, SamePool, Bridged, Without, Succ;
    MiddleAt(l, m, hs, k, if i < k then i else i + 1);
    WithoutAt(hs, k, i);
  }

  lemma MiddleLinksAll(l: FrameList, m: FrameList, hs: seq<int>, k: nat)
    requires Chain(l, hs) && 0 < k < |hs| - 1
    requires SamePool(l, m, {hs[k - 1], hs[k + 1]}) && Bridged(l, m, hs[k - 1], hs[k + 1])
    ensures LinkedAll(m, Without(hs, k))
  {
    WithoutAt(hs, k, 0);
    hide Chain, SamePool, Bridged, IsLinkedAt, Without, Succ;
    var rest := Without(hs, k);
    forall i | 0 <= i < |rest| ensures IsLinkedAt(m, rest, i) {
      MiddleLinkAt(l, m, hs, k, i);
    }
  }

  lemma MiddleEnds(l: FrameList, m: FrameList, hs: seq<int>, k: nat)
    requires Chain(l, hs) && 0 < k < |hs| - 1
    requires SamePool(l, m, {hs[k - 1], hs[k + 1]}) && Bridged(l, m, hs[k - 1], hs[k + 1])
    ensures var rest := Without(hs, k);
            && rest != [] && rest[0] == hs[0] == l.head && rest[|rest| - 1] == hs[|hs| - 1] == l.tail
            && IsHandle(m, hs[0]) && IsHandle(m, m.frames[hs[0]].prev)
  {
    assert IsHandle(l, l.frames[hs[0]].prev);
    ChainAt(l, hs, 0);
    WithoutAt(hs, k, 0);
    WithoutAt(hs, k, |hs| - 2);
    MiddleAt(l, m, hs, k, 0);
    assert |m.frames| == |l.frames|;
    hide Chain, SamePool, Bridged, Without, Succ;
  }

  lemma MiddleLinks(l: FrameList, m: FrameList, hs: seq<int>, k: nat)
    requires Chain(l, hs) && 0 < k < |hs| - 1 && m.head == l.head && m.tail == l.tail
    requires SamePool(l, m, {hs[k - 1], hs[k + 1]}) && Bridged(l, m, hs[k - 1], hs[k + 1])
    ensures Chain(m, Without(hs, k))
  {
    WithoutIsDistinct(hs, k) by {
      assert Distinct(hs);
    }
    hide *;
    MiddleEnds(l, m, hs, k);
    MiddleLinksAll(l, m, hs, k);
    IsChain(m, Without(hs, k));
  }

  /** Unlinking a frame with others on both sides drops it, whatever is stale. */
  lemma UnlinkMiddleKeeps(l: FrameList, hs: seq<int>, k: nat)
    requires Chain(l, hs) && 0 < k < |hs| - 1
    ensures Followable(l, hs[k]) && Unlink(l, hs[k]).Ok? && Chain(Unlink(l, hs[k]).list, Without(hs, k))
  {
    MiddleFields(l, hs, k);
    var m := Unlink(l, hs[k]).list;
    assert |m.frames| == |l.frames|;
    hide Unlink, Followable, Chain, SamePool;
    MiddleLinks(l, m, hs, k);
  }

  lemma WithoutIsDistinct(hs: seq<int>, k: nat)
    requires Distinct(hs) && k < |hs|
    ensures Distinct(Without(hs, k))
  {
    var rest := Without(hs, k);
    forall i, j | 0 <= i < j < |rest| ensures rest[i] != rest[j] {
      assert rest[i] == hs[if i < k then i else i + 1] && rest[j] == hs[if j < k then j else j + 1];
    }
  }

  ghost predicate LinkedAll(m: FrameList, hs: seq<int>) {
    forall i :: 0 <= i < |hs| ==> IsLinkedAt(m, hs, i)
  }

  lemma LinkedMembers(m: FrameList, hs: seq<int>)
    requires LinkedAll(m, hs)
    ensures Members(m, hs) && Nexts(m, hs) && Prevs(m, hs)
  {
    hide Succ;
    assert Members(m, hs) by {
      forall i | 0 <= i < |hs| ensures IsHandle(m, hs[i]) && m.frames[hs[i]].inUse {
        assert IsLinkedAt(m, hs, i);
      }
    }
    forall i | 0 <= i < |hs| ensures m.frames[hs[i]].next == Succ(hs, i) {
      assert IsLinkedAt(m, hs, i);
    }
    forall i | 0 < i < |hs| ensures m.frames[hs[i]].prev == hs[i - 1] {
      assert IsLinkedAt(m, hs, i);
    }
  }

  lemma IsChain(m: FrameList, hs: seq<int>)
    requires hs != [] && Distinct(hs) && m.head == hs[0] && m.tail == hs[|hs| - 1] && LinkedAll(m, hs)
    requires IsHandle(m, hs[0]) && IsHandle(m, m.frames[hs[0]].prev)
    ensures Chain(m, hs)
  {
    LinkedMembers(m, hs);
    hide Members, Distinct, Nexts, Prevs, LinkedAll, IsHandle;
  }

  /** Unlinking the last of several moves the tail back, but the frame that is last then still points to
      the one unlinked: the list is broken. */
  lemma UnlinkTailBreaks(l: FrameList, hs: seq<int>)
    requires Chain(l, hs) && |hs| > 1
    ensures var n := |hs| - 1;
            && Followable(l, hs[n]) && Unlink(l, hs[n]).Ok?
            && var m := Unlink(l, hs[n]).list;
               m == l.(tail := hs[n - 1]) && m.frames[hs[n - 1]].next == hs[n] && !Chain(m, hs[..n])
  {
    var n := |hs| - 1;
    assert hs[n] in hs;
    ChainFollowable(l, hs, hs[n]);
    assert hs[n] != hs[0] && hs[n] != hs[n - 1];
    assert Succ(hs, n) == hs[n] && Succ(hs, n - 1) == hs[n];
    var m := Unlink(l, hs[n]).list;
    assert m.frames == l.frames;
    assert hs[..n][n - 1] == hs[n - 1] && Succ(hs[..n], n - 1) == hs[n - 1];
  }

  /** What is refused: linking and unlinking a free frame, unlinking from an empty list, or one frame from
      a list that is another. */
  lemma Refusals(l: FrameList, hs: seq<int>, h: int)
    requires Chain(l, hs) && IsHandle(l, h)
    ensures !l.frames[h].inUse ==> Linkable(l, h) && Link(l, h).Fatal?
    ensures !l.frames[h].inUse || hs == [] || (|hs| == 1 && h != hs[0]) ==> Followable(l, h) && Unlink(l, h).Fatal?
  {
    assert hs != [] ==> IsHandle(l, hs[0]) && IsHandle(l, hs[|hs| - 1]);
  }

  /** Two pools with the same list, which may differ in the frames outside it. */
  ghost predicate SameList(l: FrameList, m: FrameList, hs: seq<int>) {
    && |m.frames| == |l.frames| && m.head == l.head && m.tail == l.tail
    && forall i :: 0 <= i < |hs| && IsHandle(l, hs[i]) ==> m.frames[hs[i]] == l.frames[hs[i]]
  }

  lemma SameListKeepsChain(l: FrameList, m: FrameList, hs: seq<int>)
    requires Chain(l, hs) && SameList(l, m, hs)
    ensures Chain(m, hs)
  {
  }

  lemma ResetKeepsChain(l: FrameList, hs: seq<int>, h: int)
    requires Chain(l, hs) && IsHandle(l, h) && h !in hs
    ensures Chain(Reset(l, h), hs)
  {
    assert SameList(l, Reset(l, h), hs);
    hide Reset, Chain, SameList;
    SameListKeepsChain(l, Reset(l, h), hs);
  }

  /** The first store of a reset, which makes the frame free, with the two flags that nobody reads. */
  function GiveBack(l: FrameList, h: int): FrameList
    requires IsHandle(l, h)
  {
    l.(frames := l.frames[h := l.frames[h].(inUse := false, auDone := false, pcmOut := false)])
  }

  lemma ResetInStores(l: FrameList, h: int)
    requires IsHandle(l, h)
    ensures Reset(l, h) == SetPrev(SetNext(GiveBack(l, h), h, -1), h, -1)
    ensures Reset(l, h).frames == l.frames[h := Frame(false, false, false, -1, -1, l.frames[h].pts)]
    ensures Reset(l, h).head == l.head && Reset(l, h).tail == l.tail
  {
  }

  /** Each store of a reset keeps the list exactly when the frame is not in it at that moment. */
  lemma GiveBackExact(l: FrameList, hs: seq<int>, h: int)
    requires Chain(l, hs) && IsHandle(l, h)
    ensures Chain(GiveBack(l, h), hs) <==> h !in hs
  {
    var m := GiveBack(l, h);
    if h !in hs {
      assert SameList(l, m, hs);
      hide Chain, SameList;
      SameListKeepsChain(l, m, hs);
    } else {
      var i :| 0 <= i < |hs| && hs[i] == h;
      assert !m.frames[hs[i]].inUse;
    }
  }

  lemma ClearNextExact(l: FrameList, hs: seq<int>, h: int)
    requires Chain(l, hs) && IsHandle(l, h)
    ensures Chain(SetNext(l, h, -1), hs) <==> h !in hs
  {
    var m := SetNext(l, h, -1);
    if h !in hs {
      assert SameList(l, m, hs);
      hide Chain, SameList;
      SameListKeepsChain(l, m, hs);
    } else {
      var i :| 0 <= i < |hs| && hs[i] == h;
      assert m.frames[hs[i]].next == -1;
      assert IsHandle(l, Succ(hs, i));
    }
  }

  lemma ClearPrevExact(l: FrameList, hs: seq<int>, h: int)
    requires Chain(l, hs) && IsHandle(l, h)
    ensures Chain(SetPrev(l, h, -1), hs) <==> h !in hs
  {
    var m := SetPrev(l, h, -1);
    if h !in hs {
      assert SameList(l, m, hs);
      hide Chain, SameList;
      SameListKeepsChain(l, m, hs);
    } else {
      var i :| 0 <= i < |hs| && hs[i] == h;
      assert m.frames[hs[i]].prev == -1;
      assert i > 0 ==> IsHandle(l, hs[i - 1]);
    }
  }

  function Linked(next: int, prev: int): Frame {
    Frame(true, false, false, next, prev, TimeStamp(0, 0))
  }

  function Claim(l: FrameList, h: int): FrameList
    requires IsHandle(l, h)
  {
    l.(frames := l.frames[h := l.frames[h].(inUse := true)])
  }

  /** The history 0 linked, 1 linked, 0 unlinked, reset and claimed again, 2 linked, 0 linked. */
  lemma ReuseHistory()
    ensures var l := FrameList([Linked(0, 0), Linked(0, 0), Linked(0, 0), Linked(0, 0)], -1, -1);
            && Linkable(l, 0) && Link(l, 0).Ok? && Linkable(Link(l, 0).list, 1) && Link(Link(l, 0).list, 1).Ok?
            && var a := Link(Link(l, 0).list, 1).list;
               && a == FrameList([Linked(1, 0), Linked(1, 0), Linked(0, 0), Linked(0, 0)], 0, 1)
               && Followable(a, 0) && Unlink(a, 0).Ok? && IsHandle(Unlink(a, 0).list, 0)
               && var b := Claim(Reset(Unlink(a, 0).list, 0), 0);
                  && b == FrameList([Linked(-1, -1), Linked(1, 0), Linked(0, 0), Linked(0, 0)], 1, 1)
                  && Linkable(b, 2) && Link(b, 2).Ok? && Linkable(Link(b, 2).list, 0)
                  && Link(Link(b, 2).list, 0) == Ok(AfterReuse())
  {
  }

  function AfterReuse(): FrameList {
    FrameList([Linked(0, 2), Linked(2, 0), Linked(0, 1), Linked(0, 0)], 1, 0)
  }

  /** With the three frames 1, 2, 0 linked the stale `prev` of 1 does harm: unlinking 1 turns the
      tail back on 2, so that the list is no longer 2, 0. */
  lemma ThreeFramesBreak()
    ensures Chain(AfterReuse(), [1, 2, 0])
    ensures var d := Unlink(AfterReuse(), 1).list;
            !Chain(d, [2, 0]) && d.head == 2 && d.tail == 0 && d.frames[0].next == 2
  {
    var d := Unlink(AfterReuse(), 1).list;
    assert [2, 0][1] == 0 && Succ([2, 0], 1) == 0;
    assert d.frames[0].next == 2;
  }

  /** With a fourth frame behind them, the list ends up offering 2, already consumed, as its head
      instead of 3. */
  lemma FourFramesLoseTheOrder()
    ensures var f := Link(AfterReuse(), 3).list;
            && Chain(f, [1, 2, 0, 3])
            && var g := Unlink(Unlink(f, 1).list, 2).list;
               Unlink(g, 0).Ok? && Unlink(g, 0).list.head == 2 && Unlink(g, 0).list.tail == 3
  {
    ThreeFramesBreak();
    LinkAppends(AfterReuse(), [1, 2, 0], 3);
    assert [1, 2, 0] + [3] == [1, 2, 0, 3];
    var f := Link(AfterReuse(), 3).list;
    assert f == FrameList([Linked(3, 2), Linked(2, 0), Linked(0, 1), Linked(3, 0)], 1, 3);
    var g := Unlink(f, 1).list;
    assert g == FrameList([Linked(2, 2), Linked(2, 0), Linked(0, 1), Linked(3, 0)], 2, 3);
    var h := Unlink(g, 2).list;
    assert h == FrameList([Linked(2, 2), Linked(0, 0), Linked(0, 1), Linked(3, 0)], 0, 3);
  }
}
