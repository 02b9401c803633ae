/** The default command buffer: a ring of 32 KB fragments that the PPU fills and the RSX reads. A
    position is a word index from the start of the buffer, which is mapped in one piece. Every step of
    the machine is one access to shared memory. */
module GcmCommandRing {
  import opened Runs

  const FRAGMENT: nat := 8192      // words
  const RESERVED: nat := 1024      // words kept free at the start of the first fragment

  // ---- fragments

  function Begin(f: nat): nat {
    if f == 0 then RESERVED else f * FRAGMENT
  }

  /** The last word of a fragment, kept for the jump. */
  function End(f: nat): nat {
    f * FRAGMENT + (FRAGMENT - 1)
  }

  /** `getNextCommandBufferBeginEnd`, for a buffer of `n` fragments. */
  function NextBuffer(current: nat, n: nat): (nat, nat)
    requires n > 0
  {
    var range := current / FRAGMENT;
    if range >= n - 1 then (RESERVED, FRAGMENT - 1)
    else ((range + 1) * FRAGMENT, (range + 2) * FRAGMENT - 1)
  }

  function NextFragment(f: nat, n: nat): nat
    requires n > 0
  {
    if f + 1 < n then f + 1 else 0
  }

  /** From anywhere in a fragment it gives the bounds of the next one, cyclically. */
  lemma NextBufferIsNextFragment(current: nat, n: nat, f: nat)
    requires f < n && f * FRAGMENT <= current < (f + 1) * FRAGMENT
    ensures NextBuffer(current, n) == (Begin(NextFragment(f, n)), End(NextFragment(f, n)))
  {
  }

  /** `isInCommandBufferExcept`. */
  predicate IsInCommandBufferExcept(get: nat, first: nat, last: nat, n: nat) {
    if get < RESERVED && get > n * FRAGMENT then false
    else !(first <= get <= last)
  }

  /** Its first test joins two conditions that exclude each other, so that a position outside the
      whole buffer is not rejected, as the comment there says, but accepted; the answer only says
      that the position is not between the two bounds. */
  lemma OutsideIsAccepted(get: nat, first: nat, last: nat, n: nat)
    requires n > 0
    ensures IsInCommandBufferExcept(get, first, last, n) <==> !(first <= get <= last)
    ensures last < n * FRAGMENT <= get ==> IsInCommandBufferExcept(get, first, last, n)
  {
  }

  // ---- the machine

  datatype Word = Data(value: nat) | Jump(target: nat)

  /** Between commands; `put` published but the jump not written; waiting in the callback. */
  datatype Phase = Writing | Flushed | Waiting

  /** The part of a fragment that holds `written[from..upto]`. */
  datatype Segment = Segment(frag: nat, from: nat, upto: nat)

  /** `written` and `consumed` are all words written as commands and all words the RSX has read as
      such; `lap` lists the segments from the one the RSX reads to the one the PPU fills. These three
      only record what has happened. */
  datatype State = State(
    n: nat, mem: seq<Word>, get: nat, put: nat,
    current: nat, begin: nat, end: nat, phase: Phase,
    written: seq<nat>, consumed: seq<nat>, lap: seq<Segment>)

  datatype Action = Write(words: seq<nat>) | Flush | WriteJump | Proceed | Read

  predicate Enabled(s: State, a: Action) {
    match a
    case Write(words) => s.phase.Writing? && 1 <= |words| <= 3 && s.current + 2 < s.end && s.end < |s.mem|
    case Flush => s.phase.Writing?
    case WriteJump => s.phase.Flushed? && s.n > 0 && s.current < |s.mem|
    case Proceed => s.phase.Waiting? && IsInCommandBufferExcept(s.get, s.begin, s.end, s.n)
    case Read => s.get != s.put && s.get < |s.mem|
  }

  function Put(mem: seq<Word>, at: nat, words: seq<nat>): (r: seq<Word>)
    requires at + |words| <= |mem|
    ensures |r| == |mem|
  {
    seq(|mem|, i requires 0 <= i < |mem| => if at <= i < at + |words| then Data(words[i - at]) else mem[i])
  }

  /** The segment being filled grows with what is written. */
  function Grown(lap: seq<Segment>, size: nat): seq<Segment> {
    if lap == [] then [] else lap[|lap| - 1 := lap[|lap| - 1].(upto := size)]
  }

  function Step(s: State, a: Action): State
    requires Enabled(s, a)
  {
    match a
    case Write(words) =>
      s.(mem := Put(s.mem, s.current, words), current := s.current + |words|,
         written := s.written + words, lap := Grown(s.lap, |s.written| + |words|))
    case Flush => s.(put := s.current, phase := Flushed)
    case WriteJump =>
      var next := NextBuffer(s.current, s.n);
      s.(mem := s.mem[s.current := Jump(next.0)], begin := next.0, current := next.0, end := next.1, phase := Waiting,
         lap := s.lap + [Segment(next.0 / FRAGMENT, |s.written|, |s.written|)])
    case Proceed => s.(phase := Writing)
    case Read =>
      match s.mem[s.get] {
        case Data(v) => s.(get := s.get + 1, consumed := s.consumed + [v])
        case Jump(t) => s.(get := t, lap := if s.lap == [] then [] else s.lap[1..])
      }
  }

  /** `get` and `put` start at `start`; the reserved words are zero. */
  predicate Init(s: State, n: nat, start: nat) {
    && s.n == n >= 2 && |s.mem| == n * FRAGMENT && s.get == s.put == start
    && (forall i :: 0 <= i < RESERVED ==> s.mem[i] == Data(0))
    && s.current == s.begin == Begin(0) && s.end == End(0) && s.phase == Writing
    && s.written == [] && s.consumed == [] && s.lap == [Segment(0, 0, 0)]
  }

  // ---- invariant

  function Stop(g: Segment): int {
    Begin(g.frag) + (g.upto - g.from)
  }

  /** The fragment `i` places after `first` in a ring of `n`. */
  function Around(first: nat, i: nat, n: nat): int {
    if first + i < n then first + i else first + i - n
  }

  function Last(s: State): Segment
    requires s.lap != []
  {
    s.lap[|s.lap| - 1]
  }

  /** The segments follow each other through the ring and through what is written. Only while the PPU
      waits may the last one share its fragment with the first. */
  predicate Chained(s: State) {
    && s.n >= 2 && |s.mem| == s.n * FRAGMENT
    && 1 <= |s.lap| <= s.n + (if s.phase.Waiting? then 1 else 0)
    && s.lap[0].frag < s.n
    && (forall i :: 0 <= i < |s.lap| ==>
          && s.lap[i].frag == Around(s.lap[0].frag, i, s.n)
          && s.lap[i].from <= s.lap[i].upto <= |s.written| && Stop(s.lap[i]) <= End(s.lap[i].frag))
    && (forall i :: 0 <= i < |s.lap| - 1 ==> s.lap[i].upto == s.lap[i + 1].from)
    && Last(s).upto == |s.written|
  }

  /** The words of a segment are in memory. */
  predicate Holds(mem: seq<Word>, g: Segment, written: seq<nat>) {
    && Stop(g) < |mem| && 0 <= g.from <= g.upto <= |written|
    && forall p :: Begin(g.frag) <= p < Stop(g) ==> mem[p] == Data(written[g.from + (p - Begin(g.frag))])
  }

  predicate AllHeld(mem: seq<Word>, lap: seq<Segment>, written: seq<nat>) {
    forall i :: 0 <= i < |lap| ==> Holds(mem, lap[i], written)
  }

  /** Behind every segment but the last is the jump to the next one. */
  predicate Linked(mem: seq<Word>, lap: seq<Segment>) {
    forall i :: 0 <= i < |lap| - 1 ==> 0 <= Stop(lap[i]) < |mem| && mem[Stop(lap[i])] == Jump(Begin(lap[i + 1].frag))
  }

  /** The PPU fills the last segment; what it has published ends where the last finished one does. */
  predicate WriterInPlace(s: State) {
    && s.lap != [] && s.begin == Begin(Last(s).frag) && s.end == End(Last(s).frag) && s.current == Stop(Last(s))
    && (s.phase.Waiting? ==> |s.lap| >= 2 && Last(s).from == Last(s).upto)
    && s.put == if s.phase.Flushed? then s.current else if |s.lap| >= 2 then Stop(s.lap[|s.lap| - 2]) else s.get
  }

  /** The RSX reads in the first segment and has consumed all words up to there. */
  predicate ReaderInPlace(s: State) {
    && s.lap != [] && Begin(s.lap[0].frag) <= s.get <= Stop(s.lap[0])
    && 0 <= s.lap[0].from + (s.get - Begin(s.lap[0].frag)) <= |s.written|
    && s.consumed == s.written[..s.lap[0].from + (s.get - Begin(s.lap[0].frag))]
  }

  predicate Inv(s: State) {
    Chained(s) && WriterInPlace(s) && ReaderInPlace(s) && Linked(s.mem, s.lap) && AllHeld(s.mem, s.lap, s.written)
  }

  lemma InitInv(s: State, n: nat)
    requires Init(s, n, RESERVED)
    ensures Inv(s)
  {
  }

  /** Segments in different places of the lap lie in different fragments, except that a waiting PPU may
      have come round to the first. */
  lemma Apart(s: State, i: nat, j: nat)
    requires Chained(s) && i < j < |s.lap| && j - i < s.n
    ensures s.lap[i].frag != s.lap[j].frag
    ensures Stop(s.lap[i]) < s.lap[j].frag * FRAGMENT || End(s.lap[j].frag) < Begin(s.lap[i].frag)
  {
    assert s.lap[i].frag < s.lap[j].frag || s.lap[j].frag < s.lap[i].frag;
  }

  /** `next` differs from `mem` only inside fragment `f`. */
  predicate ChangedIn(mem: seq<Word>, next: seq<Word>, f: nat) {
    |next| == |mem| && forall p :: 0 <= p < |mem| && !(f * FRAGMENT <= p <= End(f)) ==> next[p] == mem[p]
  }

  lemma HoldsElsewhere(mem: seq<Word>, next: seq<Word>, f: nat, g: Segment, written: seq<nat>, more: seq<nat>)
    requires Holds(mem, g, written) && ChangedIn(mem, next, f) && written <= more
    requires Stop(g) < f * FRAGMENT || End(f) < Begin(g.frag)
    ensures Holds(next, g, more)
  {
  }

  lemma HoldsGrown(mem: seq<Word>, g: Segment, written: seq<nat>, words: seq<nat>)
    requires Holds(mem, g, written) && g.upto == |written| && Stop(g) + |words| < |mem|
    ensures Holds(Put(mem, Stop(g), words), g.(upto := |written| + |words|), written + words)
  {
  }

  lemma LinkedElsewhere(s: State, next: seq<Word>, lap: seq<Segment>, m: nat)
    requires Chained(s) && Linked(s.mem, s.lap) && m == |s.lap| - 1 < s.n && ChangedIn(s.mem, next, s.lap[m].frag)
    requires |lap| == |s.lap| && lap[..m] == s.lap[..m] && lap[m].frag == s.lap[m].frag
    ensures Linked(next, lap)
  {
    forall i | 0 <= i < m
      ensures 0 <= Stop(lap[i]) < |next| && next[Stop(lap[i])] == Jump(Begin(lap[i + 1].frag))
    {
      Apart(s, i, m);
      assert lap[i] == s.lap[i] == lap[..m][i];
      assert lap[i + 1].frag == s.lap[i + 1].frag by {
        if i + 1 < m { assert lap[..m][i + 1] == s.lap[..m][i + 1]; }
      }
      assert s.lap[i].frag < s.n;
    }
  }

  /** The last segment may grow within its fragment. */
  lemma ChainedFuller(s: State, t: State)
    requires Chained(s) && t.n == s.n && |t.mem| == |s.mem| && t.phase == s.phase && |s.written| <= |t.written|
    requires t.lap == s.lap[|s.lap| - 1 := Last(s).(upto := |t.written|)] && Stop(Last(t)) <= End(Last(t).frag)
    ensures Chained(t)
  {
  }

  lemma WriteKeepsChained(s: State, words: seq<nat>)
    requires Chained(s) && WriterInPlace(s) && Enabled(s, Write(words))
    ensures Chained(Step(s, Write(words))) && WriterInPlace(Step(s, Write(words)))
    ensures ChangedIn(s.mem, Step(s, Write(words)).mem, Last(s).frag)
    ensures Stop(Last(s)) + |words| < |s.mem|
  {
    ChainedBounds(s);
    hide Chained;
    ChainedFuller(s, Step(s, Write(words)));
  }

  /** What a step of the PPU leaves alone keeps the RSX in its place. */
  lemma ReaderStays(s: State, t: State)
    requires ReaderInPlace(s) && t.get == s.get && t.consumed == s.consumed && s.written <= t.written
    requires t.lap != [] && t.lap[0].frag == s.lap[0].frag && t.lap[0].from == s.lap[0].from
              && t.lap[0].upto >= s.lap[0].upto
    ensures ReaderInPlace(t)
  {
    assert forall k :: 0 <= k <= |s.written| ==> t.written[..k] == s.written[..k];
  }

  lemma HeldElsewhere(s: State, next: seq<Word>, more: seq<nat>, m: nat)
    requires Chained(s) && AllHeld(s.mem, s.lap, s.written) && m == |s.lap| - 1 < s.n
    requires ChangedIn(s.mem, next, s.lap[m].frag) && s.written <= more
    ensures AllHeld(next, s.lap[..m], more)
  {
    hide Holds, ChangedIn;
    forall i | 0 <= i < m
      ensures Holds(next, s.lap[..m][i], more)
    {
      Apart(s, i, m);
      HoldsElsewhere(s.mem, next, s.lap[m].frag, s.lap[i], s.written, more);
    }
  }

  lemma WriteKeepsInv(s: State, words: seq<nat>)
    requires Inv(s) && Enabled(s, Write(words))
    ensures Inv(Step(s, Write(words)))
  {
    hide Chained, ReaderInPlace, Holds, Linked, Put, AllHeld, ChangedIn;
    var t := Step(s, Write(words));
    WriteKeepsChained(s, words);
    ChainedBounds(s);
    var m := |s.lap| - 1;
    var last := Last(s).(upto := |s.written| + |words|);
    assert t.mem == Put(s.mem, Stop(Last(s)), words) && t.lap == s.lap[m := last];
    assert s.lap != [] && t.get == s.get && t.consumed == s.consumed && t.written == s.written + words;
    hide WriterInPlace, Step, Enabled;
    ReaderStays(s, t);
    LinkedElsewhere(s, t.mem, t.lap, m);
    HeldElsewhere(s, t.mem, t.written, m);
    HeldAt(s.mem, s.lap, s.written, m);
    HoldsGrown(s.mem, Last(s), s.written, words);
    HeldBoth(t.mem, s.lap[..m], last, t.written);
    assert t.lap == s.lap[..m] + [last];
  }

  lemma HeldAt(mem: seq<Word>, lap: seq<Segment>, written: seq<nat>, i: nat)
    requires AllHeld(mem, lap, written) && i < |lap|
    ensures Holds(mem, lap[i], written)
  {
  }

  lemma HeldBoth(mem: seq<Word>, lap: seq<Segment>, g: Segment, written: seq<nat>)
    requires AllHeld(mem, lap, written) && Holds(mem, g, written)
    ensures AllHeld(mem, lap + [g], written)
  {
    hide Holds;
  }

  lemma ChainedBounds(s: State)
    requires Chained(s)
    ensures |s.lap| >= 1 && Last(s).upto == |s.written| && s.n >= 2 && |s.mem| == s.n * FRAGMENT
    ensures !s.phase.Waiting? ==> |s.lap| <= s.n
    ensures forall i :: 0 <= i < |s.lap| ==> s.lap[i].frag < s.n
  {
  }

  lemma FlushKeepsInv(s: State)
    requires Inv(s) && Enabled(s, Flush)
    ensures Inv(Step(s, Flush))
  {
    assert Chained(Step(s, Flush));
    hide Chained, Linked, AllHeld, Around;
  }

  lemma JumpShape(s: State)
    requires Chained(s) && WriterInPlace(s) && Enabled(s, WriteJump)
    ensures NextBuffer(s.current, s.n) == (Begin(NextFragment(Last(s).frag, s.n)), End(NextFragment(Last(s).frag, s.n)))
    ensures Step(s, WriteJump).lap == s.lap + [Segment(NextFragment(Last(s).frag, s.n), |s.written|, |s.written|)]
    ensures ChangedIn(s.mem, Step(s, WriteJump).mem, Last(s).frag)
  {
    NextBufferIsNextFragment(s.current, s.n, Last(s).frag);
  }

  /** A new segment may begin in the next fragment. */
  lemma ChainedLonger(s: State, t: State)
    requires Chained(s) && t.n == s.n && |t.mem| == |s.mem| && t.written == s.written && !s.phase.Waiting?
              && t.phase.Waiting?
    requires t.lap == s.lap + [Segment(NextFragment(Last(s).frag, s.n), |s.written|, |s.written|)]
    ensures Chained(t)
  {
  }

  lemma JumpKeepsChained(s: State)
    requires Chained(s) && WriterInPlace(s) && Enabled(s, WriteJump)
    ensures Chained(Step(s, WriteJump)) && WriterInPlace(Step(s, WriteJump))
  {
    ChainedBounds(s);
    JumpShape(s);
    hide NextBuffer, ChangedIn, Chained;
    ChainedLonger(s, Step(s, WriteJump));
  }

  lemma JumpKeepsInv(s: State)
    requires Inv(s) && Enabled(s, WriteJump)
    ensures Inv(Step(s, WriteJump))
  {
    hide Chained, ReaderInPlace, Holds, Linked, AllHeld, ChangedIn, NextFragment;
    var t := Step(s, WriteJump);
    JumpShape(s);
    JumpKeepsChained(s);
    ChainedBounds(s);
    ChainedBounds(t);
    var m := |s.lap| - 1;
    var next := Segment(NextFragment(Last(s).frag, s.n), |s.written|, |s.written|);
    assert t.mem == s.mem[Stop(Last(s)) := Jump(Begin(next.frag))] && t.written == s.written;
    assert s.lap != [] && t.get == s.get && t.consumed == s.consumed;
    assert Stop(next) < |t.mem|;
    hide WriterInPlace, Step, Enabled;
    ReaderStays(s, t);
    LinkedElsewhere(s, t.mem, s.lap, m);
    LinkedOn(t.mem, s.lap, next);
    HeldElsewhere(s, t.mem, t.written, m);
    HeldAt(s.mem, s.lap, s.written, m);
    HoldsUpTo(s.mem, Last(s), s.written, Jump(Begin(next.frag)));
    HoldsNothing(t.mem, next, t.written);
    HeldBoth(t.mem, s.lap[..m], Last(s), t.written);
    assert s.lap == s.lap[..m] + [Last(s)];
    HeldBoth(t.mem, s.lap, next, t.written);
  }

  lemma HoldsUpTo(mem: seq<Word>, g: Segment, written: seq<nat>, word: Word)
    requires Holds(mem, g, written)
    ensures Holds(mem[Stop(g) := word], g, written)
  {
  }

  lemma HoldsNothing(mem: seq<Word>, g: Segment, written: seq<nat>)
    requires g.from == g.upto == |written| && Stop(g) < |mem|
    ensures Holds(mem, g, written)
  {
  }

  lemma LinkedOn(mem: seq<Word>, lap: seq<Segment>, next: Segment)
    requires lap != [] && Linked(mem, lap)
    requires 0 <= Stop(lap[|lap| - 1]) < |mem| && mem[Stop(lap[|lap| - 1])] == Jump(Begin(next.frag))
    ensures Linked(mem, lap + [next])
  {
    forall i | 0 <= i < |lap|
      ensures 0 <= Stop((lap + [next])[i]) < |mem|
                && mem[Stop((lap + [next])[i])] == Jump(Begin((lap + [next])[i + 1].frag))
    {
      if i < |lap| - 1 {
        assert (lap + [next])[i + 1] == lap[i + 1];
      }
    }
  }

  lemma ProceedKeepsInv(s: State)
    requires Inv(s) && Enabled(s, Proceed)
    ensures Inv(Step(s, Proceed))
  {
    WaitOver(s);
    hide Chained, Linked, AllHeld, IsInCommandBufferExcept;
  }

  /** The RSX is outside the fragment that the PPU is about to fill, so the lap fits the ring again. */
  lemma WaitOver(s: State)
    requires Chained(s) && WriterInPlace(s) && ReaderInPlace(s) && Enabled(s, Proceed)
    ensures Chained(Step(s, Proceed))
  {
    OutsideIsAccepted(s.get, s.begin, s.end, s.n);
  }

  lemma ReadData(s: State)
    requires Inv(s) && Enabled(s, Read) && s.get < Stop(s.lap[0])
    ensures s.mem[s.get].Data? && Inv(Step(s, Read))
  {
    hide Chained, Linked;
    HeldAt(s.mem, s.lap, s.written, 0);
    hide AllHeld;
    var at := s.lap[0].from + (s.get - Begin(s.lap[0].frag));
    assert s.mem[s.get] == Data(s.written[at]);
    assert s.written[..at] + [s.written[at]] == s.written[..at + 1];
    var t := Step(s, Read);
    ChainedAgain(s, t);
  }

  lemma ChainedAgain(s: State, t: State)
    requires Chained(s) && t == s.(get := t.get, consumed := t.consumed)
    ensures Chained(t)
  {
  }

  /** The lap after its first segment is left behind. */
  lemma ChainedRest(s: State, t: State)
    requires Chained(s) && |s.lap| >= 2 && t == s.(get := t.get, lap := s.lap[1..])
    ensures Chained(t)
  {
  }

  lemma LinkedRest(mem: seq<Word>, lap: seq<Segment>)
    requires Linked(mem, lap) && |lap| >= 2
    ensures Linked(mem, lap[1..])
    ensures mem[Stop(lap[0])] == Jump(Begin(lap[1].frag))
  {
  }

  lemma ReadJump(s: State)
    requires Inv(s) && Enabled(s, Read) && s.get == Stop(s.lap[0])
    ensures |s.lap| >= 2 && s.mem[s.get] == Jump(Begin(s.lap[1].frag)) && Inv(Step(s, Read))
  {
    hide Holds, Linked, AllHeld;
    assert |s.lap| >= 2;
    assert s.lap[0].upto == s.lap[1].from && s.lap[1].from <= s.lap[1].upto;
    assert |s.lap| == 2 ==> s.phase == Flushed;
    hide Chained;
    LinkedRest(s.mem, s.lap);
    var t := Step(s, Read);
    assert t == s.(get := Begin(s.lap[1].frag), lap := s.lap[1..]);
    ChainedRest(s, t);
    assert AllHeld(t.mem, t.lap, t.written) by { HeldRest(s.mem, s.lap, s.written); }
  }

  lemma HeldRest(mem: seq<Word>, lap: seq<Segment>, written: seq<nat>)
    requires AllHeld(mem, lap, written) && lap != []
    ensures AllHeld(mem, lap[1..], written)
  {
    hide Holds;
  }

  lemma StepKeepsInv(s: State, a: Action)
    requires Inv(s) && Enabled(s, a)
    ensures Inv(Step(s, a))
  {
    assert s.lap != [] && s.get <= Stop(s.lap[0]);
    hide Inv, Step, Enabled;
    match a
    case Write(words) => WriteKeepsInv(s, words);
    case Flush => FlushKeepsInv(s);
    case WriteJump => JumpKeepsInv(s);
    case Proceed => ProceedKeepsInv(s);
    case Read =>
      if s.get < Stop(s.lap[0]) {
        ReadData(s);
      } else {
        ReadJump(s);
      }
  }

  // ---- runs

  predicate Next(s: State, a: Action, t: State) {
    Enabled(s, a) && t == Step(s, a)
  }

  lemma RunKeepsInv(r: seq<State>, acts: seq<Action>, k: nat)
    requires IsRun(Next, r, acts) && Inv(r[0]) && k < |r|
    ensures Inv(r[k])
  {
    hide Inv, Step, Enabled;
    forall s, a, t | Inv(s) && Next(s, a, t) ensures Inv(t) {
      StepKeepsInv(s, a);
    }
    Invariant(Next, Inv, r, acts, k);
  }

  // ---- starting anywhere up to the end of the reserved words

  function Zeros(n: nat): (r: seq<nat>)
    ensures |r| == n
  {
    seq(n, _ => 0)
  }

  /** The state with an RSX that had begun behind the reserved words and not moved yet. */
  function Lifted(s: State): State {
    s.(get := RESERVED, consumed := [], put := if |s.lap| == 1 && !s.phase.Flushed? then RESERVED else s.put)
  }

  /** The RSX is still in the reserved words, which are zero; from there it looks to the rest as if it
      had begun behind them. */
  predicate Early(s: State, start: nat) {
    && start <= s.get < RESERVED <= |s.mem| && s.consumed == Zeros(s.get - start)
    && (forall i :: s.get <= i < RESERVED ==> s.mem[i] == Data(0))
    && (|s.lap| == 1 && !s.phase.Flushed? ==> s.put == s.get)
    && Inv(Lifted(s))
  }

  /** The state without the reserved words among what was read. */
  function Dropped(s: State, k: nat): State
    requires k <= |s.consumed|
  {
    s.(consumed := s.consumed[k..])
  }

  /** The RSX has read the reserved words from `start` on and left them. */
  predicate Late(s: State, start: nat)
    requires start <= RESERVED
  {
    && RESERVED - start <= |s.consumed| && s.consumed[..RESERVED - start] == Zeros(RESERVED - start)
    && Inv(Dropped(s, RESERVED - start))
  }

  predicate Sound(s: State, start: nat)
    requires start <= RESERVED
  {
    Early(s, start) || Late(s, start)
  }

  /** The PPU does not enter the first fragment while the RSX is still in the reserved words. */
  predicate Prompt(s: State, a: Action) {
    a.Proceed? && s.begin == RESERVED ==> s.get >= RESERVED
  }

  predicate PromptNext(s: State, a: Action, t: State) {
    Next(s, a, t) && Prompt(s, a)
  }

  lemma InitSound(s: State, n: nat, start: nat)
    requires Init(s, n, start) && start <= RESERVED
    ensures Sound(s, start)
  {
    if start < RESERVED {
      InitInv(Lifted(s), n);
      hide Inv;
      assert s.consumed == Zeros(0);
    } else {
      InitInv(s, n);
      hide Inv;
      assert Dropped(s, 0) == s && s.consumed[..0] == Zeros(0);
    }
  }

  /** What the invariant of the lifted state says about the PPU. */
  lemma EarlyFacts(s: State, start: nat)
    requires Early(s, start)
    ensures s.lap != [] && s.lap[0].frag == 0 && s.lap[0].from == 0 && s.n >= 2 && |s.mem| == s.n * FRAGMENT
    ensures RESERVED <= s.current && (s.begin == RESERVED || s.begin >= FRAGMENT)
    ensures s.phase.Waiting? ==> |s.lap| >= 2 && s.current == s.begin
    ensures |s.lap| >= 2 && !s.phase.Flushed? ==> RESERVED <= s.put
  {
    hide AllHeld, Linked;
  }

  lemma EarlyStepLifts(s: State, start: nat, a: Action)
    requires Early(s, start) && Enabled(s, a) && Prompt(s, a) && !a.Read?
    ensures Enabled(Lifted(s), a) && Lifted(Step(s, a)) == Step(Lifted(s), a)
  {
    EarlyFacts(s, start);
    hide Inv;
    OutsideIsAccepted(RESERVED, s.begin, s.end, s.n);
  }

  lemma WriterStaysBehind(s: State, start: nat, a: Action)
    requires Early(s, start) && Enabled(s, a) && !a.Read?
    ensures var t := Step(s, a);
            && t.get == s.get && t.consumed == s.consumed && |t.mem| == |s.mem|
            && (forall i :: s.get <= i < RESERVED ==> t.mem[i] == s.mem[i])
            && (|t.lap| == 1 && !t.phase.Flushed? ==> |s.lap| == 1 && !s.phase.Flushed? && t.put == s.put)
  {
    EarlyFacts(s, start);
    hide Inv;
  }

  lemma EarlyStep(s: State, start: nat, a: Action)
    requires Early(s, start) && Enabled(s, a) && Prompt(s, a) && !a.Read?
    ensures Early(Step(s, a), start)
  {
    EarlyStepLifts(s, start, a);
    WriterStaysBehind(s, start, a);
    hide Inv, Step, Enabled;
    StepKeepsInv(Lifted(s), a);
  }

  lemma EarlyRead(s: State, start: nat)
    requires Early(s, start) && start <= RESERVED && Enabled(s, Read)
    ensures Step(s, Read) == s.(get := s.get + 1, consumed := Zeros(s.get + 1 - start))
    ensures Sound(Step(s, Read), start)
  {
    hide Inv;
    var t := s.(get := s.get + 1, consumed := Zeros(s.get + 1 - start));
    assert Zeros(s.get - start) + [0] == Zeros(s.get + 1 - start);
    assert Step(s, Read) == t;
    hide Step, Enabled;
    var k := RESERVED - start;
    if t.get < RESERVED {
      assert Lifted(t) == Lifted(s);
    } else {
      assert t.consumed[..k] == t.consumed && t.consumed[k..] == [];
      assert Dropped(t, k) == Lifted(s);
    }
  }

  /** Behind the reserved words nothing depends on how they were read. */
  lemma LateStep(s: State, start: nat, a: Action)
    requires start <= RESERVED && Late(s, start) && Enabled(s, a)
    ensures Late(Step(s, a), start)
  {
    hide Inv;
    var k := RESERVED - start;
    var d := Dropped(s, k);
    assert Enabled(d, a) && Dropped(Step(s, a), k) == Step(d, a);
    assert Step(s, a).consumed[..k] == s.consumed[..k];
    StepKeepsInv(d, a);
  }

  /** Every step of PPU or RSX keeps the lap, seen from behind the reserved words, but for one: the PPU
      entering the first fragment while the RSX is in them. */
  lemma StepKeepsSound(s: State, start: nat, a: Action)
    requires start <= RESERVED && Sound(s, start) && Enabled(s, a) && Prompt(s, a)
    ensures Sound(Step(s, a), start)
  {
    hide Early, Late, Step, Enabled;
    if Late(s, start) {
      LateStep(s, start, a);
    } else if a.Read? {
      EarlyRead(s, start);
    } else {
      EarlyStep(s, start, a);
    }
  }

  lemma RunKeepsSound(r: seq<State>, acts: seq<Action>, k: nat, start: nat)
    requires IsRun(PromptNext, r, acts) && start <= RESERVED && Sound(r[0], start) && k < |r|
    ensures Sound(r[k], start)
  {
    hide Sound, Step, Enabled, Prompt;
    forall s, a, t | Sound(s, start) && PromptNext(s, a, t) ensures Sound(t, start) {
      StepKeepsSound(s, start, a);
    }
    Invariant(PromptNext, s => Sound(s, start), r, acts, k);
  }

  lemma InvPlaces(s: State)
    requires Inv(s)
    ensures s.consumed <= s.written && s.current <= s.end < |s.mem| && |s.lap| >= 1 && s.lap[0].from <= |s.consumed|
    ensures !s.phase.Waiting? ==> forall i :: 0 <= i < |s.lap| - 1 ==> s.lap[i].frag != s.begin / FRAGMENT
  {
    ChainedBounds(s);
    var m := |s.lap| - 1;
    if !s.phase.Waiting? {
      forall i | 0 <= i < m
        ensures s.lap[i].frag != s.begin / FRAGMENT
      {
        Apart(s, i, m);
      }
    }
  }

  /** What soundness means: the RSX has read the rest of the reserved words and then a prefix of what the
      PPU has written, the word at `current` is free for the jump, and the finished segments that still
      hold unread words lie outside the fragment the PPU writes to. */
  ghost predicate IsSafe(t: State, start: nat)
    requires start <= RESERVED
  {
    var k := RESERVED - start;
    && t.consumed <= Zeros(k) + t.written
    && t.current <= t.end < |t.mem|
    && |t.lap| >= 1 && t.lap[0].from <= (if |t.consumed| < k then 0 else |t.consumed| - k)
    && (!t.phase.Waiting? ==> forall i :: 0 <= i < |t.lap| - 1 ==> t.lap[i].frag != t.begin / FRAGMENT)
  }

  lemma EarlyIsSafe(s: State, start: nat)
    requires start <= RESERVED && Early(s, start)
    ensures IsSafe(s, start)
  {
    hide Inv;
    InvPlaces(Lifted(s));
    EarlyFacts(s, start);
    var k := RESERVED - start;
    ZerosBegin(k, s.get - start, s.written);
  }

  lemma ZerosBegin(k: nat, m: nat, rest: seq<nat>)
    requires m <= k
    ensures Zeros(m) <= Zeros(k) + rest
  {
  }

  lemma LateIsSafe(s: State, start: nat)
    requires start <= RESERVED && Late(s, start)
    ensures IsSafe(s, start)
  {
    hide Inv;
    var k := RESERVED - start;
    var d := Dropped(s, k);
    InvPlaces(d);
    assert s.consumed == Zeros(k) + d.consumed;
    hide Zeros;
    assert Zeros(k) + d.consumed <= Zeros(k) + s.written;
  }

  lemma SoundIsSafe(s: State, start: nat)
    requires start <= RESERVED && Sound(s, start)
    ensures IsSafe(s, start)
  {
    hide Early, Late, IsSafe;
    if Early(s, start) {
      EarlyIsSafe(s, start);
    } else {
      LateIsSafe(s, start);
    }
  }

  /** Wherever up to the end of the reserved words the RSX starts: in every interleaving in which the PPU
      does not enter the first fragment before the RSX has left those words, no word is lost. */
  lemma RingIsSafe(r: seq<State>, acts: seq<Action>, k: nat, start: nat)
    requires IsRun(PromptNext, r, acts) && start <= RESERVED && Init(r[0], r[0].n, start) && k < |r|
    ensures IsSafe(r[k], start)
  {
    InitSound(r[0], r[0].n, start);
    RunKeepsSound(r, acts, k, start);
    hide Sound, IsSafe;
    SoundIsSafe(r[k], start);
  }

  /** An RSX that has left the reserved words never comes back. */
  lemma LateIsBehind(s: State, start: nat)
    requires start <= RESERVED && Late(s, start)
    ensures s.get >= RESERVED
  {
    hide Chained, Linked, AllHeld;
  }

  /** One that starts behind them never meets that case. */
  lemma BehindReserveIsPrompt(r: seq<State>, acts: seq<Action>)
    requires IsRun(Next, r, acts) && Init(r[0], r[0].n, RESERVED)
    ensures IsRun(PromptNext, r, acts)
  {
    InitInv(r[0], r[0].n);
    hide Inv, Step, Enabled;
    forall i {:trigger acts[i]} | 0 <= i < |acts| ensures PromptNext(r[i], acts[i], r[i + 1]) {
      RunKeepsInv(r, acts, i);
      GetBehindReserve(r[i]);
    }
  }

  lemma GetBehindReserve(s: State)
    requires Inv(s)
    ensures s.get >= RESERVED
  {
    hide Chained, Linked, AllHeld;
  }

  /** Behind them: when nothing is left to read up to `put`, all finished fragments are read. */
  lemma CaughtUp(s: State)
    requires Inv(s) && s.get == s.put && !s.phase.Flushed? && |s.lap| >= 2
    ensures s.consumed == s.written[..Last(s).from]
  {
    var m := |s.lap| - 2;
    if m > 0 {
      Apart(s, 0, m);
    }
  }

  /** The RSX stops only when it has read everything that was published: outside the callback, all
      words of the finished fragments. */
  lemma IdleMeansCaughtUp(s: State, start: nat)
    requires start <= RESERVED && Sound(s, start) && s.get == s.put && !s.phase.Flushed? && |s.lap| >= 2
    ensures s.consumed == Zeros(RESERVED - start) + s.written[..Last(s).from]
  {
    if Early(s, start) {
      EarlyFacts(s, start);
    }
    var d := Dropped(s, RESERVED - start);
    CaughtUp(d);
    hide Inv;
    assert s.consumed == s.consumed[..RESERVED - start] + d.consumed;
  }

  lemma ProceedOrRead(s: State)
    requires Inv(s) && s.phase.Waiting?
    ensures Enabled(s, Proceed) || Enabled(s, Read)
  {
    OutsideIsAccepted(s.get, s.begin, s.end, s.n);
    var m := |s.lap| - 2;
    if !Enabled(s, Proceed) && m > 0 {
      Apart(s, 0, m);
    }
  }

  /** A waiting PPU goes on at once, and rightly so, or the RSX can read. */
  lemma NeverStuck(s: State, start: nat)
    requires start <= RESERVED && Sound(s, start) && s.phase.Waiting?
    ensures (Enabled(s, Proceed) && Prompt(s, Proceed)) || Enabled(s, Read)
  {
    hide Inv;
    if Early(s, start) {
      EarlyFacts(s, start);
    } else {
      LateIsBehind(s, start);
      ProceedOrRead(Dropped(s, RESERVED - start));
      hide IsInCommandBufferExcept;
    }
  }

  /** The words and jumps that the RSX can still read while the PPU waits. */
  function LeftToRead(s: State, start: nat): int {
    if s.lap == [] then 0 else RESERVED - start + Last(s).from - |s.consumed| + |s.lap| - 2
  }

  lemma FromsInOrder(s: State, i: nat)
    requires Chained(s) && i < |s.lap| - 1
    ensures s.lap[0].upto <= s.lap[i + 1].from
    decreases i
  {
    if i > 0 {
      FromsInOrder(s, i - 1);
    }
  }

  lemma WaitRankBehind(s: State)
    requires Inv(s) && s.phase.Waiting?
    ensures LeftToRead(s, RESERVED) >= 0 && (LeftToRead(s, RESERVED) == 0 ==> Enabled(s, Proceed))
  {
    FromsInOrder(s, |s.lap| - 2);
    ProceedOrRead(s);
    hide AllHeld, Linked;
  }

  /** With nothing left to read the PPU may go on. */
  lemma WaitRank(s: State, start: nat)
    requires start <= RESERVED && Sound(s, start) && s.phase.Waiting?
    ensures LeftToRead(s, start) >= 0
    ensures LeftToRead(s, start) == 0 ==> Enabled(s, Proceed) && Prompt(s, Proceed)
  {
    hide Inv;
    if Early(s, start) {
      EarlyFacts(s, start);
      WaitRankBehind(Lifted(s));
    } else {
      LateIsBehind(s, start);
      WaitRankBehind(Dropped(s, RESERVED - start));
      hide IsInCommandBufferExcept;
    }
  }

  lemma WaitStepBehind(s: State, a: Action)
    requires Inv(s) && s.phase.Waiting? && Enabled(s, a) && a != Proceed
    ensures Step(s, a).phase.Waiting? && LeftToRead(Step(s, a), RESERVED) == LeftToRead(s, RESERVED) - 1
  {
    assert |s.lap| >= 2 && s.get <= Stop(s.lap[0]);
    if s.get < Stop(s.lap[0]) {
      ReadData(s);
    } else {
      ReadJump(s);
    }
    hide Inv;
  }

  lemma WaitStep(s: State, start: nat, a: Action)
    requires start <= RESERVED && Sound(s, start) && s.phase.Waiting? && Enabled(s, a) && a != Proceed
    ensures Step(s, a).phase.Waiting? && LeftToRead(Step(s, a), start) == LeftToRead(s, start) - 1
  {
    hide Inv;
    if Early(s, start) {
      EarlyFacts(s, start);
      EarlyRead(s, start);
      assert a == Read && |Step(s, a).consumed| == |s.consumed| + 1;
    } else {
      var d := Dropped(s, RESERVED - start);
      WaitStepBehind(d, a);
      assert Step(d, a) == Dropped(Step(s, a), RESERVED - start);
    }
  }

  /** The wait ends: until the PPU goes on only the RSX moves, each of its steps reads one of the words
      and jumps left, and when none is left the PPU may go on. */
  lemma {:induction false} WaitEnds(r: seq<State>, acts: seq<Action>, start: nat)
    requires IsRun(Next, r, acts) && start <= RESERVED && Sound(r[0], start) && r[0].phase.Waiting? && Proceed !in acts
    ensures var t := r[|acts|];
            && Sound(t, start) && t.phase.Waiting? && |acts| + LeftToRead(t, start) == LeftToRead(r[0], start)
            && LeftToRead(t, start) >= 0
            && (LeftToRead(t, start) == 0 ==> Enabled(t, Proceed) && Prompt(t, Proceed))
    decreases |acts|
  {
    hide Sound, Step, Enabled, LeftToRead, Prompt;
    if acts != [] {
      var n := |acts| - 1;
      RunFront(Next, r, acts);
      WaitEnds(r[..n + 1], acts[..n], start);
      assert acts[n] in acts;
      WaitStep(r[n], start, acts[n]);
      assert Prompt(r[n], acts[n]) by { OthersArePrompt(r[n], acts[n]); }
      StepKeepsSound(r[n], start, acts[n]);
    }
    WaitRank(r[|acts|], start);
  }

  lemma OthersArePrompt(s: State, a: Action)
    requires a != Proceed
    ensures Prompt(s, a)
  {
  }

  // ---- entering the first fragment too early

  /** In every run from `start` the RSX reads the rest of the reserved words and then a prefix of what
      the PPU has written. */
  ghost predicate AlwaysPrefix(n: nat, start: nat)
    requires start <= RESERVED
  {
    forall s: State, acts: seq<Action>, t: State {:trigger Leads(Next, s, acts, t), Init(s, n, start)} ::
      Init(s, n, start) && Leads(Next, s, acts, t) ==> t.consumed <= Zeros(RESERVED - start) + t.written
  }

  /** The RSX has not moved from `start`, the PPU is about to fill fragment `f`. */
  predicate Slow(s: State, n: nat, start: nat, f: nat) {
    && s.n == n >= 2 && |s.mem| == n * FRAGMENT && f < n && s.get == start < RESERVED
    && s.phase.Writing? && s.begin == Begin(f) <= s.current < s.end == End(f)
    && s.written == [1] && s.consumed == []
    && forall i :: start <= i < RESERVED ==> s.mem[i] == Data(0)
  }

  /** The position in the reserved words does not keep the PPU from entering any fragment. */
  lemma CallbackPasses(s: State, n: nat, start: nat, f: nat) returns (acts: seq<Action>, t: State)
    requires Slow(s, n, start, f)
    ensures Leads(Next, s, acts, t) && Slow(t, n, start, NextFragment(f, n))
    ensures t.current == t.begin && t.put == s.current
  {
    NextBufferIsNextFragment(s.current, n, f);
    var s1 := Step(s, Flush);
    var s2 := Step(s1, WriteJump);
    OutsideIsAccepted(s2.get, s2.begin, s2.end, n);
    t := Step(s2, Proceed);
    OneStep(Next, s, Flush, s1);
    OneStep(Next, s1, WriteJump, s2);
    OneStep(Next, s2, Proceed, t);
    Join(Next, s, [Flush], s1, [WriteJump], s2);
    acts := [Flush] + [WriteJump] + [Proceed];
    Join(Next, s, [Flush] + [WriteJump], s2, [Proceed], t);
  }

  lemma {:induction false} ComesRound(s: State, n: nat, start: nat, f: nat) returns (acts: seq<Action>, t: State)
    requires Slow(s, n, start, f)
    ensures Leads(Next, s, acts, t) && Slow(t, n, start, 0) && t.current == RESERVED && t.put >= (n - 1) * FRAGMENT
    decreases n - f
  {
    hide Leads, Step, Enabled;
    acts, t := CallbackPasses(s, n, start, f);
    if f + 1 < n {
      var rest, u := ComesRound(t, n, start, f + 1);
      Join(Next, s, acts, t, rest, u);
      acts, t := acts + rest, u;
    }
  }

  lemma {:induction false} ReadsReserve(s: State, start: nat) returns (acts: seq<Action>, t: State)
    requires s.get <= RESERVED < |s.mem| && s.put > RESERVED && start <= s.get && s.consumed == Zeros(s.get - start)
    requires forall i :: s.get <= i < RESERVED ==> s.mem[i] == Data(0)
    ensures Leads(Next, s, acts, t) && t == s.(get := RESERVED, consumed := Zeros(RESERVED - start))
    decreases RESERVED - s.get
  {
    if s.get == RESERVED {
      acts, t := [], s;
      NoStep<State, Action>(Next, s);
    } else {
      var u := Step(s, Read);
      assert u.consumed == Zeros(u.get - start);
      var rest;
      rest, t := ReadsReserve(u, start);
      acts := [Read] + rest;
      OneStep(Next, s, Read, u);
      Join(Next, s, [Read], u, rest, t);
    }
  }

  /** Some run from `s` loses a word. */
  ghost predicate CanLose(s: State, start: nat)
    requires start <= RESERVED
  {
    exists acts, t :: Leads(Next, s, acts, t) && !(t.consumed <= Zeros(RESERVED - start) + t.written)
  }

  /** What the PPU meets when it comes round to the first fragment. */
  lemma CameRound(s: State, start: nat)
    requires Early(s, start) && s.phase.Waiting? && s.begin == RESERVED
    ensures s.current == RESERVED && s.end == FRAGMENT - 1 && FRAGMENT <= |s.mem| && FRAGMENT <= s.put
  {
    var m := |s.lap| - 1;
    assert s.lap[m].frag == 0 && s.lap[0].frag == 0;
    assert m == s.n && s.lap[m - 1].frag == s.n - 1;
    hide AllHeld, Linked;
  }

  lemma OverwritesFirstWord(s: State, start: nat, word: nat) returns (acts: seq<Action>, t: State)
    requires start <= s.get < RESERVED && s.phase.Writing? && s.current == RESERVED && s.end == FRAGMENT - 1
    requires FRAGMENT <= |s.mem| && FRAGMENT <= s.put && s.consumed == Zeros(s.get - start)
    requires forall i :: s.get <= i < RESERVED ==> s.mem[i] == Data(0)
    ensures Leads(Next, s, acts, t) && t.consumed == Zeros(RESERVED - start) + [word] && t.written == s.written + [word]
  {
    var u := Step(s, Write([word]));
    assert u.mem[RESERVED] == Data(word);
    var rest, v := ReadsReserve(u, start);
    t := Step(v, Read);
    OneStep(Next, s, Write([word]), u);
    OneStep(Next, v, Read, t);
    hide Leads, Step, Enabled;
    Join(Next, s, [Write([word])], u, rest, v);
    Join(Next, s, [Write([word])] + rest, v, [Read], t);
    acts := [Write([word])] + rest + [Read];
  }

  lemma HastyProceedLoses(s: State, start: nat)
    requires start <= RESERVED && Early(s, start) && s.phase.Waiting? && s.begin == RESERVED && s.written != []
    requires Enabled(s, Proceed)
    ensures CanLose(Step(s, Proceed), start)
  {
    CameRound(s, start);
    hide Inv, Leads;
    var u := Step(s, Proceed);
    var acts, t := OverwritesFirstWord(u, start, s.written[0] + 1);
    FirstDiffers(t.consumed, t.written, RESERVED - start);
  }

  lemma FirstDiffers(consumed: seq<nat>, written: seq<nat>, k: nat)
    requires |consumed| > k && |written| > 0 && consumed[k] != written[0]
    ensures !(consumed <= Zeros(k) + written)
  {
    assert (Zeros(k) + written)[k] == written[0];
  }

  lemma LateNeverLoses(s: State, start: nat)
    requires start <= RESERVED && Late(s, start)
    ensures !CanLose(s, start)
  {
    hide Late, Step, Enabled;
    forall acts, t | Leads(Next, s, acts, t) ensures t.consumed <= Zeros(RESERVED - start) + t.written {
      var r :| IsRun(Next, r, acts) && r[0] == s && r[|acts|] == t;
      forall x, a, y | Late(x, start) && Next(x, a, y) ensures Late(y, start) {
        LateStep(x, start, a);
      }
      Invariant(Next, x => Late(x, start), r, acts, |acts|);
      SoundIsSafe(t, start);
    }
  }

  /** The condition is exact: a PPU that enters the first fragment can lose a word afterwards exactly when
      the RSX is still in the reserved words, provided that there is a word to lose. */
  lemma EnteringIsUnsafeExactly(s: State, start: nat)
    requires start <= RESERVED && Sound(s, start) && s.phase.Waiting? && s.begin == RESERVED && s.written != []
    requires Enabled(s, Proceed)
    ensures CanLose(Step(s, Proceed), start) <==> s.get < RESERVED
  {
    if s.get < RESERVED {
      if Late(s, start) {
        LateIsBehind(s, start);
      }
      HastyProceedLoses(s, start);
    } else {
      LateStep(s, start, Proceed);
      LateNeverLoses(Step(s, Proceed), start);
    }
    hide Inv, CanLose;
  }

  lemma Overtaken(s: State, n: nat, start: nat)
    requires Slow(s, n, start, 0) && s.current == RESERVED && s.put >= (n - 1) * FRAGMENT
    ensures exists acts, t :: Leads(Next, s, acts, t) && t.written == [1, 2]
              && t.consumed == Zeros(RESERVED - start) + [2]
  {
    var u := Step(s, Write([2]));
    assert u.mem[RESERVED] == Data(2);
    var rest, v := ReadsReserve(u, start);
    var t := Step(v, Read);
    OneStep(Next, s, Write([2]), u);
    OneStep(Next, v, Read, t);
    Join(Next, s, [Write([2])], u, rest, v);
    Join(Next, s, [Write([2])] + rest, v, [Read], t);
    assert t.written == [1, 2];
  }

  /** A PPU that comes round to the first fragment before the RSX has left the reserved words overwrites
      what was never read. So the prefix property holds for every run exactly when the RSX starts
      behind the reserved words. */
  lemma SafeExactlyBehindReserve(n: nat, start: nat)
    requires n >= 2 && start <= RESERVED
    ensures AlwaysPrefix(n, start) <==> start == RESERVED
  {
    if start == RESERVED {
      forall s: State, acts: seq<Action>, t: State | Init(s, n, start) && Leads(Next, s, acts, t)
        ensures t.consumed <= Zeros(RESERVED - start) + t.written
      {
        var r :| IsRun(Next, r, acts) && r[0] == s && r[|acts|] == t;
        BehindReserveIsPrompt(r, acts);
        RingIsSafe(r, acts, |acts|, RESERVED);
      }
    } else {
      UnsafeInReserve(n, start);
    }
  }

  lemma FirstWord(n: nat, start: nat) returns (s: State, t: State)
    requires n >= 2 && start < RESERVED
    ensures Init(s, n, start) && Leads(Next, s, [Write([1])], t) && Slow(t, n, start, 0)
  {
    s := State(n, seq(n * FRAGMENT, _ => Data(0)), start, start, RESERVED, RESERVED, FRAGMENT - 1, Writing, [], [],
        [Segment(0, 0, 0)]);
    t := Step(s, Write([1]));
    assert t.written == [1];
    OneStep(Next, s, Write([1]), t);
  }

  lemma UnsafeInReserve(n: nat, start: nat)
    requires n >= 2 && start < RESERVED
    ensures !AlwaysPrefix(n, start)
  {
    hide Leads, Slow, Init;
    var s, u := FirstWord(n, start);
    var a, v := ComesRound(u, n, start, 0);
    Join(Next, s, [Write([1])], u, a, v);
    Overtaken(v, n, start);
    var b, t :| Leads(Next, v, b, t) && t.written == [1, 2] && t.consumed == Zeros(RESERVED - start) + [2];
    var acts := [Write([1])] + a + b;
    Join(Next, s, [Write([1])] + a, v, b, t);
    assert Leads(Next, s, acts, t);
    var expected := Zeros(RESERVED - start) + t.written;
    assert expected[RESERVED - start] == 1 && t.consumed[RESERVED - start] == 2;
  }
}
