/** The hand-over of decoded PCM frames: a sender claims frames and queues commands, the decoder
    thread decodes one at a time under the `output_locked` handshake and links and queues the
    result, one consumer takes it. A step is one critical section of the source or, where the source
    takes no lock, one access to what other threads use. */
module AdecHandshake {
  import opened AdecFrames
  import opened Runs

  datatype Cmd = Decode(h: int) | Other   // start and end of a sequence decode nothing

  /** The decoder thread: looking for work; with a command taken before the output is consumed; with
      the output mutex held and the output seen consumed; past `output_locked = true`; with the frame
      linked; with the frame in the PCM queue but its item not yet queued. */
  datatype Decoder = Idle | Popped(h: int) | Decoding(h: int) | Notifying(h: int) | Linked(h: int) | Pushed(h: int)

  /** The consumer: in no call; in `cellAdecGetPcm` after reading the head of the item queue, after
      comparing it with that of the PCM queue, after dropping the item if they agreed, holding a
      frame, after releasing the output, after unlinking the frame, after the store that gives it
      back, after clearing its `next`. */
  datatype Consumer =
    | Free | SawItem(item: int) | Compared(equal: bool) | ItemDropped
    | Holding(h: int) | Released(h: int) | Unlinked(h: int) | GivenBack(h: int) | NextCleared(h: int)

  /** The command queue of either decoder holds this many. */
  const QUEUE_SIZE: nat := 4

  /** `popsFirst`: the decoder takes a command before it waits for the output, as the ATRAC3plus
      decoder does; the LPCM decoder waits first. `mayRefuse`: the parameters that come with an access
      unit can be refused, as those of Blu-ray and DVD audio. */
  datatype State = State(
    popsFirst: bool, mayRefuse: bool, list: FrameList, commands: seq<Cmd>, claimed: seq<int>, lost: seq<int>,
    outputLocked: bool, pcmQueue: seq<int>, itemQueue: seq<int>,
    decoder: Decoder, consumer: Consumer)

  datatype Action =
    | ClaimFrame(h: int)      // get_new_pcm_handle
    | SendDecode              // the claimed frame's command is queued
    | FailSend                // the queue is full or the parameters are refused: the claim stays
    | SendOther
    | PopCommand
    | BeginDecode             // the output is consumed
    | FinishDecode            // output_locked = true and unlock
    | RejectPts               // adecNotifyPcmOut returns early
    | LinkDecoded
    | PushPcm
    | PushItem
    | BeginGetPcm             // reads the head of the item queue
    | ReadPcmHead
    | DropItem
    | PopPcm
    | ReleaseOutput
    | UnlinkConsumed
    | GiveBackFrame           // reset_frame, which takes no lock: in_use = false,
    | ClearNext               // next = -1,
    | ClearPrev               // prev = -1
    | GetItem                 // cellAdecGetPcmItem

  function HeadOf(q: seq<int>): int { if q == [] then -1 else q[0] }
  function Pop(q: seq<int>): seq<int> { if q == [] then [] else q[1..] }

  predicate Enabled(s: State, a: Action) {
    match a
    case ClaimFrame(h) => s.claimed == [] && IsHandle(s.list, h) && !s.list.frames[h].inUse
    case SendDecode => s.claimed != [] && |s.commands| < QUEUE_SIZE
    case FailSend => s.claimed != [] && (s.mayRefuse || |s.commands| >= QUEUE_SIZE)
    case SendOther => s.claimed == [] && |s.commands| < QUEUE_SIZE
    case PopCommand => s.decoder.Idle? && s.commands != [] && (s.popsFirst || !s.outputLocked)
    case BeginDecode => s.decoder.Popped? && !s.outputLocked
    case FinishDecode => s.decoder.Decoding?
    case RejectPts => s.decoder.Notifying?
    case LinkDecoded => s.decoder.Notifying? && Linkable(s.list, s.decoder.h)
    case PushPcm => s.decoder.Linked?
    case PushItem => s.decoder.Pushed?
    case BeginGetPcm => s.consumer.Free?
    case ReadPcmHead => s.consumer.SawItem?
    case DropItem => s.consumer.Compared?
    case PopPcm => s.consumer.ItemDropped?
    case ReleaseOutput => s.consumer.Holding? && !s.decoder.Decoding?   // the mutex is free
    case UnlinkConsumed => s.consumer.Released? && Followable(s.list, s.consumer.h)
    case GiveBackFrame => s.consumer.Unlinked? && IsHandle(s.list, s.consumer.h)
    case ClearNext => s.consumer.GivenBack? && IsHandle(s.list, s.consumer.h)
    case ClearPrev => s.consumer.NextCleared? && IsHandle(s.list, s.consumer.h)
    case GetItem => s.consumer.Free?
  }

  /** Where linking or unlinking fails the source returns early and the frame is never freed. */
  function Step(s: State, a: Action): State
    requires Enabled(s, a)
  {
    match a
    case ClaimFrame(h) => s.(list := Claim(s.list, h), claimed := [h])
    case SendDecode => s.(commands := s.commands + [Decode(s.claimed[0])], claimed := s.claimed[1..])
    case FailSend => s.(claimed := s.claimed[1..], lost := s.lost + [s.claimed[0]])
    case SendOther => s.(commands := s.commands + [Other])
    case PopCommand => s.(commands := s.commands[1..], decoder := Started(s.commands[0], s.popsFirst))
    case BeginDecode => s.(decoder := Decoding(s.decoder.h))
    case FinishDecode => s.(outputLocked := true, decoder := Notifying(s.decoder.h))
    case RejectPts => s.(decoder := Idle, lost := s.lost + [s.decoder.h])
    case LinkDecoded =>
      var r := Link(s.list, s.decoder.h);
      if r.Ok? then s.(list := r.list, decoder := Linked(s.decoder.h))
      else s.(decoder := Idle, lost := s.lost + [s.decoder.h])
    case PushPcm => s.(pcmQueue := s.pcmQueue + [s.decoder.h], decoder := Pushed(s.decoder.h))
    case PushItem => s.(itemQueue := s.itemQueue + [s.decoder.h], decoder := Idle)
    case BeginGetPcm => s.(consumer := SawItem(HeadOf(s.itemQueue)))
    case ReadPcmHead => s.(consumer := Compared(s.consumer.item == HeadOf(s.pcmQueue)))
    case DropItem =>
      s.(itemQueue := if s.consumer.equal then Pop(s.itemQueue) else s.itemQueue, consumer := ItemDropped)
    case PopPcm =>
      s.(pcmQueue := Pop(s.pcmQueue), consumer := if s.pcmQueue == [] then Free else Holding(s.pcmQueue[0]))
    case ReleaseOutput => s.(outputLocked := false, consumer := Released(s.consumer.h))
    case UnlinkConsumed =>
      var r := Unlink(s.list, s.consumer.h);
      if r.Ok? then s.(list := r.list, consumer := Unlinked(s.consumer.h))
      else s.(consumer := Free, lost := s.lost + [s.consumer.h])
    case GiveBackFrame => s.(list := GiveBack(s.list, s.consumer.h), consumer := GivenBack(s.consumer.h))
    case ClearNext => s.(list := SetNext(s.list, s.consumer.h, -1), consumer := NextCleared(s.consumer.h))
    case ClearPrev => s.(list := SetPrev(s.list, s.consumer.h, -1), consumer := Free)
    case GetItem => s.(itemQueue := Pop(s.itemQueue))
  }

  function Started(c: Cmd, popsFirst: bool): Decoder {
    if c.Other? then Idle else if popsFirst then Popped(c.h) else Decoding(c.h)
  }

  predicate Init(s: State) {
    && s.list.head == -1 && s.list.tail == -1
    && (forall i :: 0 <= i < |s.list.frames| ==> !s.list.frames[i].inUse)
    && s.commands == [] && s.claimed == [] && s.lost == []
    && !s.outputLocked && s.pcmQueue == [] && s.itemQueue == []
    && s.decoder == Idle && s.consumer == Free
  }

  /** The frame the consumer has taken from the queue and not yet unlinked. */
  function Taken(s: State): seq<int> {
    if s.consumer.Holding? || s.consumer.Released? then [s.consumer.h] else []
  }

  function JustLinked(s: State): seq<int> {
    if s.decoder.Linked? then [s.decoder.h] else []
  }

  /** The frames that are linked, oldest first. */
  function LinkedFrames(s: State): seq<int> {
    Taken(s) + s.pcmQueue + JustLinked(s)
  }

  function DecodeHandles(cs: seq<Cmd>): seq<int> {
    if cs == [] then [] else (if cs[0].Decode? then [cs[0].h] else []) + DecodeHandles(cs[1..])
  }

  function Occurs(q: seq<int>, h: int): nat {
    if q == [] then 0 else (if q[0] == h then 1 else 0) + Occurs(q[1..], h)
  }

  function Is(x: int, h: int): nat {
    if x == h then 1 else 0
  }

  /** The decoder and the consumer also have frames that are not in the list. */
  function InDecoder(d: Decoder, h: int): nat {
    if d.Popped? || d.Decoding? || d.Notifying? then Is(d.h, h) else 0
  }

  function InConsumer(c: Consumer, h: int): nat {
    if c.Unlinked? then Is(c.h, h) else 0
  }

  /** In how many hands frame `h` is. */
  function Owners(s: State, h: int): nat {
    Occurs(LinkedFrames(s), h) + Occurs(DecodeHandles(s.commands), h) + Occurs(s.claimed, h) + Occurs(s.lost, h)
    + InDecoder(s.decoder, h) + InConsumer(s.consumer, h)
  }

  predicate InUse(l: FrameList, h: int) {
    IsHandle(l, h) && l.frames[h].inUse
  }

  /** Every frame in use is in exactly one hand, every other in none. */
  ghost predicate Exclusive(s: State) {
    forall h {:trigger Owners(s, h)} :: Owners(s, h) == if InUse(s.list, h) then 1 else 0
  }

  /** The output is locked for each frame between the end of its decoding and its release, so at
      most one frame is there at a time. */
  ghost predicate OneOutput(s: State) {
    && |s.pcmQueue| + (if s.decoder.Notifying? || s.decoder.Linked? then 1 else 0)
         + (if s.consumer.Holding? then 1 else 0) <= (if s.outputLocked then 1 else 0)
    && (s.decoder.Decoding? ==> !s.outputLocked)
  }

  /** The consumer is between the first and the last store of a reset. */
  predicate Resetting(s: State) {
    s.consumer.GivenBack? || s.consumer.NextCleared?
  }

  /** What every step keeps, whatever happens to the list. */
  ghost predicate Base(s: State) {
    && Exclusive(s) && OneOutput(s) && |s.claimed| <= 1
    && (Resetting(s) ==> IsHandle(s.list, s.consumer.h))
  }

  ghost predicate Inv(s: State) {
    Base(s) && Chain(s.list, LinkedFrames(s))
  }

  /** The handshake bounds the list. */
  lemma AtMostTwoLinked(s: State)
    requires OneOutput(s)
    ensures |LinkedFrames(s)| <= 2
  {
  }

  lemma InitInv(s: State)
    requires Init(s)
    ensures Inv(s)
  {
  }

  lemma StepKeepsOneOutput(s: State, a: Action)
    requires OneOutput(s) && Enabled(s, a)
    ensures OneOutput(Step(s, a))
  {
    hide Link, Unlink, GiveBack, SetNext, SetPrev, Claim;
  }

  lemma {:induction false} OccursCat(p: seq<int>, q: seq<int>, h: int)
    ensures Occurs(p + q, h) == Occurs(p, h) + Occurs(q, h)
    decreases |p|
  {
    if p == [] {
      assert p + q == q;
    } else {
      assert (p + q)[1..] == p[1..] + q;
      OccursCat(p[1..], q, h);
    }
  }

  lemma Associate(p: seq<int>, q: seq<int>, r: seq<int>)
    ensures p + (q + r) == p + q + r
  {
  }

  lemma {:induction false} DecodeHandlesCat(cs: seq<Cmd>, c: Cmd)
    ensures DecodeHandles(cs + [c]) == DecodeHandles(cs) + DecodeHandles([c])
    decreases |cs|
  {
    if cs == [] {
      assert cs + [c] == [c];
    } else {
      assert (cs + [c])[1..] == cs[1..] + [c];
      DecodeHandlesCat(cs[1..], c);
      Associate(if cs[0].Decode? then [cs[0].h] else [], DecodeHandles(cs[1..]), DecodeHandles([c]));
    }
  }

  predicate BySender(a: Action) {
    a.ClaimFrame? || a.SendDecode? || a.FailSend? || a.SendOther?
  }

  predicate ByDecoder(a: Action) {
    a.PopCommand? || a.BeginDecode? || a.FinishDecode? || a.RejectPts? || a.LinkDecoded? || a.PushPcm? || a.PushItem?
  }

  /** A frame changes hands only by being claimed or given back. */
  ghost predicate Passes(s: State, a: Action, t: State, h: int) {
    Owners(t, h) + (if a.GiveBackFrame? then InConsumer(s.consumer, h) else 0)
      == Owners(s, h) + (if a.ClaimFrame? then Is(a.h, h) else 0)
  }

  lemma PushKeepsLinked(s: State)
    requires Enabled(s, PushPcm)
    ensures LinkedFrames(Step(s, PushPcm)) == LinkedFrames(s)
  {
    Associate(Taken(s), s.pcmQueue, [s.decoder.h]);
    Associate(Taken(s), s.pcmQueue + [s.decoder.h], []);
    assert s.pcmQueue + [s.decoder.h] + [] == s.pcmQueue + [s.decoder.h];
  }

  lemma PopKeepsLinked(s: State)
    requires Enabled(s, PopPcm)
    ensures LinkedFrames(Step(s, PopPcm)) == LinkedFrames(s)
  {
    if s.pcmQueue != [] {
      assert s.pcmQueue == [s.pcmQueue[0]] + s.pcmQueue[1..];
      assert [] + s.pcmQueue == s.pcmQueue;
    }
  }

  lemma OthersKeepLinked(s: State, a: Action)
    requires Enabled(s, a) && !a.LinkDecoded? && !a.UnlinkConsumed?
    ensures LinkedFrames(Step(s, a)) == LinkedFrames(s)
  {
    if a.PushPcm? {
      PushKeepsLinked(s);
    } else if a.PopPcm? {
      PopKeepsLinked(s);
    } else {
      hide Claim, GiveBack, SetNext, SetPrev, IsHandle, HeadOf, Pop;
    }
  }

  lemma LinkAddsLast(s: State)
    requires Enabled(s, LinkDecoded)
    ensures var t := Step(s, LinkDecoded);
            LinkedFrames(t) == LinkedFrames(s) + if t.decoder.Linked? then [s.decoder.h] else []
  {
    LinkSteps(s);
    assert s.decoder.Notifying?;
    hide Step, Enabled;
    assert Taken(s) + s.pcmQueue + [] == Taken(s) + s.pcmQueue;
  }

  lemma UnlinkDropsHead(s: State)
    requires Enabled(s, UnlinkConsumed)
    ensures LinkedFrames(s) == [s.consumer.h] + LinkedFrames(Step(s, UnlinkConsumed))
  {
    hide Unlink, Followable, Linkable;
  }

  lemma SenderPasses(s: State, a: Action, h: int)
    requires Enabled(s, a) && BySender(a)
    ensures Passes(s, a, Step(s, a), h)
  {
    OthersKeepLinked(s, a);
    hide Claim, LinkedFrames;
    match a
    case ClaimFrame(x) => assert Occurs([x], h) == Is(x, h);
    case SendDecode =>
      DecodeHandlesCat(s.commands, Decode(s.claimed[0]));
      assert DecodeHandles([Decode(s.claimed[0])]) == [s.claimed[0]];
      OccursCat(DecodeHandles(s.commands), [s.claimed[0]], h);
    case FailSend => OccursCat(s.lost, [s.claimed[0]], h);
    case SendOther =>
      DecodeHandlesCat(s.commands, Other);
      OccursCat(DecodeHandles(s.commands), [], h);
  }

  lemma PopPasses(s: State, h: int)
    requires Enabled(s, PopCommand)
    ensures Passes(s, PopCommand, Step(s, PopCommand), h)
  {
    OthersKeepLinked(s, PopCommand);
    hide LinkedFrames;
    var c := s.commands[0];
    OccursCat(if c.Decode? then [c.h] else [], DecodeHandles(s.commands[1..]), h);
    assert c.Decode? ==> Occurs([c.h], h) == Is(c.h, h);
  }

  lemma LinkSteps(s: State)
    requires Enabled(s, LinkDecoded)
    ensures var t := Step(s, LinkDecoded);
            && t.commands == s.commands && t.claimed == s.claimed && t.consumer == s.consumer
            && t.pcmQueue == s.pcmQueue && (t.decoder == Linked(s.decoder.h) || t.decoder.Idle?)
            && t.lost == s.lost + if t.decoder.Linked? then [] else [s.decoder.h]
  {
    hide Link, Linkable;
  }

  lemma LinkPasses(s: State, h: int)
    requires Enabled(s, LinkDecoded)
    ensures Passes(s, LinkDecoded, Step(s, LinkDecoded), h)
  {
    LinkAddsLast(s);
    LinkSteps(s);
    assert s.decoder.Notifying?;
    hide Step, Enabled, DecodeHandles, LinkedFrames;
    OccursCat(s.lost, [s.decoder.h], h);
    OccursCat(LinkedFrames(s), [s.decoder.h], h);
    assert Occurs([s.decoder.h], h) == Is(s.decoder.h, h);
    assert LinkedFrames(s) + [] == LinkedFrames(s) && s.lost + [] == s.lost;
    hide Occurs;
  }

  lemma DecoderPasses(s: State, a: Action, h: int)
    requires Enabled(s, a) && ByDecoder(a) && !a.PopCommand? && !a.LinkDecoded?
    ensures Passes(s, a, Step(s, a), h)
  {
    OthersKeepLinked(s, a);
    hide DecodeHandles, LinkedFrames;
    match a
    case RejectPts =>
      OccursCat(s.lost, [s.decoder.h], h);
      assert Occurs([s.decoder.h], h) == Is(s.decoder.h, h);
    case BeginDecode =>
    case FinishDecode =>
    case PushPcm =>
    case PushItem =>
  }

  lemma ConsumerPasses(s: State, a: Action, h: int)
    requires Enabled(s, a) && !BySender(a) && !ByDecoder(a) && !a.UnlinkConsumed?
    ensures Passes(s, a, Step(s, a), h)
  {
    OthersKeepLinked(s, a);
    hide GiveBack, SetNext, SetPrev, DecodeHandles, LinkedFrames, Occurs, HeadOf, Pop, Is, IsHandle;
  }

  lemma UnlinkSteps(s: State)
    requires Enabled(s, UnlinkConsumed)
    ensures var t := Step(s, UnlinkConsumed);
            && t.commands == s.commands && t.claimed == s.claimed && t.decoder == s.decoder
            && (t.consumer == Unlinked(s.consumer.h) || t.consumer == Free)
            && t.lost == s.lost + if t.consumer.Free? then [s.consumer.h] else []
  {
    hide Unlink, Followable, Linkable;
  }

  lemma UnlinkPasses(s: State, h: int)
    requires Enabled(s, UnlinkConsumed)
    ensures Passes(s, UnlinkConsumed, Step(s, UnlinkConsumed), h)
  {
    UnlinkDropsHead(s);
    UnlinkSteps(s);
    assert s.consumer.Released?;
    hide Step, Enabled, DecodeHandles, LinkedFrames;
    OccursCat(s.lost, [s.consumer.h], h);
    OccursCat([s.consumer.h], LinkedFrames(Step(s, UnlinkConsumed)), h);
    assert Occurs([s.consumer.h], h) == Is(s.consumer.h, h);
    assert s.lost + [] == s.lost;
    hide Occurs;
  }

  lemma OwnershipPasses(s: State, a: Action, h: int)
    requires Enabled(s, a)
    ensures Passes(s, a, Step(s, a), h)
  {
    hide Passes, Step, Enabled;
    if BySender(a) {
      SenderPasses(s, a, h);
    } else if a.PopCommand? {
      PopPasses(s, h);
    } else if a.LinkDecoded? {
      LinkPasses(s, h);
    } else if ByDecoder(a) {
      DecoderPasses(s, a, h);
    } else if a.UnlinkConsumed? {
      UnlinkPasses(s, h);
    } else {
      ConsumerPasses(s, a, h);
    }
  }

  /** The pool changes its claims only where a frame is claimed or given back. */
  lemma UseChanges(s: State, a: Action, h: int)
    requires Enabled(s, a)
    ensures var t := Step(s, a);
            InUse(t.list, h) <==>
              || (a.ClaimFrame? && a.h == h)
              || (InUse(s.list, h) && !(a.GiveBackFrame? && s.consumer.h == h))
  {
    if a.LinkDecoded? {
      LinkKeepsUse(s.list, s.decoder.h, h);
      hide Link, Linkable, InUse;
    } else if a.UnlinkConsumed? {
      UnlinkKeepsUse(s.list, s.consumer.h, h);
      hide Unlink, Followable, InUse;
    } else {
      OthersChangeList(s, a);
      hide Step;
    }
  }

  /** What the other steps do to the list. */
  lemma OthersChangeList(s: State, a: Action)
    requires Enabled(s, a) && !a.LinkDecoded? && !a.UnlinkConsumed?
    ensures Step(s, a).list
         == match a
            case ClaimFrame(h) => Claim(s.list, h)
            case GiveBackFrame => GiveBack(s.list, s.consumer.h)
            case ClearNext => SetNext(s.list, s.consumer.h, -1)
            case ClearPrev => SetPrev(s.list, s.consumer.h, -1)
            case _ => s.list
  {
    hide Claim, GiveBack, SetNext, SetPrev, HeadOf, Pop, Started, IsHandle;
  }

  lemma LinkKeepsUse(l: FrameList, x: int, h: int)
    requires Linkable(l, x)
    ensures Link(l, x).Ok? ==> (InUse(Link(l, x).list, h) <==> InUse(l, h))
  {
  }

  lemma UnlinkKeepsUse(l: FrameList, x: int, h: int)
    requires Followable(l, x)
    ensures Unlink(l, x).Ok? ==> (InUse(Unlink(l, x).list, h) <==> InUse(l, h))
  {
  }

  /** In every interleaving, and even where the list is broken, each frame in use keeps exactly one
      owner. */
  lemma StepKeepsExclusive(s: State, a: Action)
    requires Exclusive(s) && Enabled(s, a)
    ensures Exclusive(Step(s, a))
  {
    var t := Step(s, a);
    forall h ensures Owners(t, h) == if InUse(t.list, h) then 1 else 0 {
      OwnershipPasses(s, a, h);
      UseChanges(s, a, h);
      UnusedToClaim(s, a);
      hide Step, Owners;
    }
  }

  lemma UnusedToClaim(s: State, a: Action)
    requires Enabled(s, a)
    ensures a.ClaimFrame? ==> !InUse(s.list, a.h)
    ensures a.GiveBackFrame? ==> s.consumer.Unlinked?
  {
  }

  lemma OccursIn(q: seq<int>, h: int)
    ensures h in q <==> Occurs(q, h) > 0
  {
  }

  /** What exclusive ownership says about one frame outside the list. */
  lemma NotLinked(s: State, h: int)
    requires Exclusive(s) && Owners(s, h) > Occurs(LinkedFrames(s), h)
    ensures InUse(s.list, h) && h !in LinkedFrames(s)
  {
    OccursIn(LinkedFrames(s), h);
  }

  lemma StepKeepsBase(s: State, a: Action)
    requires Base(s) && Enabled(s, a)
    ensures Base(Step(s, a))
  {
    StepKeepsOneOutput(s, a);
    StepKeepsExclusive(s, a);
    StepKeepsPlace(s, a);
    hide Step, Enabled, Exclusive, OneOutput;
  }

  lemma StepKeepsPlace(s: State, a: Action)
    requires Enabled(s, a) && |s.claimed| <= 1 && (Resetting(s) ==> IsHandle(s.list, s.consumer.h))
    ensures var t := Step(s, a); |t.claimed| <= 1 && (Resetting(t) ==> IsHandle(t.list, t.consumer.h))
  {
    if a.LinkDecoded? {
      LinkKeepsUse(s.list, s.decoder.h, s.decoder.h);
      hide Link, Linkable;
    } else if a.UnlinkConsumed? {
      hide Unlink, Followable;
    } else {
      OthersChangeList(s, a);
      hide HeadOf, Pop, Started;
    }
  }

  lemma LinkKeepsChain(s: State)
    requires Inv(s) && Enabled(s, LinkDecoded)
    ensures Link(s.list, s.decoder.h).Ok?
    ensures Chain(Step(s, LinkDecoded).list, LinkedFrames(Step(s, LinkDecoded)))
  {
    hide Link, Linkable, Chain;
    NotLinked(s, s.decoder.h);
    LinkAppends(s.list, LinkedFrames(s), s.decoder.h);
    assert LinkedFrames(Step(s, LinkDecoded)) == LinkedFrames(s) + [s.decoder.h];
  }

  lemma UnlinkKeepsChain(s: State)
    requires Inv(s) && Enabled(s, UnlinkConsumed)
    ensures Unlink(s.list, s.consumer.h).Ok?
    ensures Chain(Step(s, UnlinkConsumed).list, LinkedFrames(Step(s, UnlinkConsumed)))
  {
    hide Unlink, Followable, Chain;
    AtMostTwoLinked(s);
    assert LinkedFrames(s)[0] == s.consumer.h;
    UnlinkHeadExact(s.list, LinkedFrames(s));
    assert LinkedFrames(Step(s, UnlinkConsumed)) == LinkedFrames(s)[1..];
  }

  lemma ClaimFrameKeepsChain(s: State, h: int)
    requires Inv(s) && Enabled(s, ClaimFrame(h))
    ensures Chain(Step(s, ClaimFrame(h)).list, LinkedFrames(Step(s, ClaimFrame(h))))
  {
    hide Claim, Chain, Exclusive;
    ClaimKeepsChain(s.list, LinkedFrames(s), h);
    assert LinkedFrames(Step(s, ClaimFrame(h))) == LinkedFrames(s);
  }

  lemma GiveBackKeepsChain(s: State)
    requires Inv(s) && Enabled(s, GiveBackFrame)
    ensures Chain(Step(s, GiveBackFrame).list, LinkedFrames(Step(s, GiveBackFrame)))
  {
    hide GiveBack, Chain;
    NotLinked(s, s.consumer.h);
    GiveBackExact(s.list, LinkedFrames(s), s.consumer.h);
    assert LinkedFrames(Step(s, GiveBackFrame)) == LinkedFrames(s);
  }

  lemma OthersKeepList(s: State, a: Action)
    requires Enabled(s, a) && !a.ClaimFrame? && !a.LinkDecoded? && !a.UnlinkConsumed?
    requires !a.GiveBackFrame? && !a.ClearNext? && !a.ClearPrev?
    ensures Step(s, a).list == s.list
  {
    OthersChangeList(s, a);
    hide Step, Enabled;
  }

  lemma InvChain(s: State)
    requires Inv(s)
    ensures Chain(s.list, LinkedFrames(s))
  {
  }

  /** A reset does not clear the links of a frame that is in the list. */
  predicate Clean(s: State, a: Action) {
    a.ClearNext? || a.ClearPrev? ==> Enabled(s, a) && s.consumer.h !in LinkedFrames(s)
  }

  lemma ClearExact(s: State, a: Action)
    requires Inv(s) && Enabled(s, a) && (a.ClearNext? || a.ClearPrev?)
    ensures Chain(Step(s, a).list, LinkedFrames(Step(s, a))) <==> Clean(s, a)
  {
    hide Chain, SetNext, SetPrev;
    ClearNextExact(s.list, LinkedFrames(s), s.consumer.h);
    ClearPrevExact(s.list, LinkedFrames(s), s.consumer.h);
    assert LinkedFrames(Step(s, a)) == LinkedFrames(s);
  }

  lemma StepKeepsChain(s: State, a: Action)
    requires Inv(s) && Enabled(s, a)
    ensures Chain(Step(s, a).list, LinkedFrames(Step(s, a))) <==> Clean(s, a)
  {
    hide Inv, Enabled, Step, LinkedFrames, Chain;
    match a
    case ClaimFrame(h) => ClaimFrameKeepsChain(s, h);
    case LinkDecoded => LinkKeepsChain(s);
    case UnlinkConsumed => UnlinkKeepsChain(s);
    case GiveBackFrame => GiveBackKeepsChain(s);
    case ClearNext => ClearExact(s, a);
    case ClearPrev => ClearExact(s, a);
    case _ =>
      OthersKeepLinked(s, a);
      OthersKeepList(s, a);
      InvChain(s);
  }

  lemma ClaimKeepsChain(l: FrameList, hs: seq<int>, h: int)
    requires Chain(l, hs) && IsHandle(l, h)
    ensures Chain(Claim(l, h), hs)
  {
    var m := Claim(l, h);
    assert forall x :: IsHandle(l, x) ==> m.frames[x].next == l.frames[x].next && m.frames[x].prev == l.frames[x].prev;
  }

  /** The invariant of the hand-over: one output at a time, each frame in one hand, and the list
      threading exactly the frames taken, queued and just linked, in that order. Every step keeps it
      but for one: clearing a link of a frame that has been claimed, decoded and linked again since
      it was given back. */
  lemma StepKeepsInv(s: State, a: Action)
    requires Inv(s) && Enabled(s, a)
    ensures Inv(Step(s, a)) <==> Clean(s, a)
  {
    StepKeepsBase(s, a);
    StepKeepsChain(s, a);
    hide Base, Chain, Step, Enabled, Clean;
  }

  predicate Next(s: State, a: Action, t: State) {
    Enabled(s, a) && t == Step(s, a)
  }

  predicate CleanNext(s: State, a: Action, t: State) {
    Next(s, a, t) && Clean(s, a)
  }

  lemma RunKeepsBase(r: seq<State>, acts: seq<Action>, k: nat)
    requires IsRun(Next, r, acts) && Base(r[0]) && k < |r|
    ensures Base(r[k])
  {
    hide Base, Step, Enabled;
    forall s, a, t | Base(s) && Next(s, a, t) ensures Base(t) {
      StepKeepsBase(s, a);
    }
    Invariant(Next, Base, r, acts, k);
  }

  lemma RunKeepsInv(r: seq<State>, acts: seq<Action>, k: nat)
    requires IsRun(CleanNext, r, acts) && Inv(r[0]) && k < |r|
    ensures Inv(r[k])
  {
    hide Inv, Step, Enabled, Clean;
    forall s, a, t | Inv(s) && CleanNext(s, a, t) ensures Inv(t) {
      StepKeepsInv(s, a);
    }
    Invariant(CleanNext, Inv, r, acts, k);
  }

  /** In every interleaving, without exception, at most two frames are linked and no frame in use is
      ever without an owner or with two. */
  lemma OwnershipIsSound(r: seq<State>, acts: seq<Action>, k: nat)
    requires IsRun(Next, r, acts) && Init(r[0]) && k < |r|
    ensures |LinkedFrames(r[k])| <= 2
    ensures forall h {:trigger Owners(r[k], h)} :: Owners(r[k], h) == if InUse(r[k].list, h) then 1 else 0
  {
    InitInv(r[0]);
    RunKeepsBase(r, acts, k);
    AtMostTwoLinked(r[k]);
  }

  /** The list threads the linked frames, and linking and unlinking do not fail. */
  ghost predicate ListWorks(s: State) {
    && Chain(s.list, LinkedFrames(s))
    && (s.decoder.Notifying? ==> Enabled(s, LinkDecoded) && Link(s.list, s.decoder.h).Ok?)
    && (s.consumer.Released? ==> Enabled(s, UnlinkConsumed) && Unlink(s.list, s.consumer.h).Ok?)
  }

  lemma LinkWorks(s: State)
    requires Inv(s) && s.decoder.Notifying?
    ensures Enabled(s, LinkDecoded) && Link(s.list, s.decoder.h).Ok?
  {
    hide Link;
    NotLinked(s, s.decoder.h);
    LinkAppends(s.list, LinkedFrames(s), s.decoder.h);
  }

  lemma UnlinkWorks(s: State)
    requires Inv(s) && s.consumer.Released?
    ensures Enabled(s, UnlinkConsumed) && Unlink(s.list, s.consumer.h).Ok?
  {
    hide Unlink;
    assert LinkedFrames(s)[0] == s.consumer.h;
    UnlinkHeadExact(s.list, LinkedFrames(s));
  }

  lemma InvListWorks(s: State)
    requires Inv(s)
    ensures ListWorks(s)
  {
    InvChain(s);
    hide Inv, Enabled, Link, Unlink, Chain;
    if s.decoder.Notifying? {
      LinkWorks(s);
    }
    if s.consumer.Released? {
      UnlinkWorks(s);
    }
  }

  /** The list works over every run in which no reset clears the links of a frame that is linked; and
      exactly then it threads the linked frames at every point. */
  lemma ListIsSound(r: seq<State>, acts: seq<Action>)
    requires IsRun(Next, r, acts) && Init(r[0])
    ensures IsRun(CleanNext, r, acts) <==> forall k {:trigger r[k]} :: 0 <= k < |r| ==>
              Chain(r[k].list, LinkedFrames(r[k]))
    ensures IsRun(CleanNext, r, acts) ==> forall k {:trigger r[k]} :: 0 <= k < |r| ==> ListWorks(r[k])
  {
    InitInv(r[0]);
    hide Inv, Chain, Step, Enabled, Clean, Init, ListWorks, LinkedFrames;
    if IsRun(CleanNext, r, acts) {
      forall k | 0 <= k < |r| ensures ListWorks(r[k]) && Chain(r[k].list, LinkedFrames(r[k])) {
        RunKeepsInv(r, acts, k);
        InvChain(r[k]);
        InvListWorks(r[k]);
      }
    }
    if forall k {:trigger r[k]} :: 0 <= k < |r| ==> Chain(r[k].list, LinkedFrames(r[k])) {
      ChainedIsClean(r, acts);
    }
  }

  lemma ChainedIsClean(r: seq<State>, acts: seq<Action>)
    requires IsRun(Next, r, acts) && Base(r[0])
    requires forall k {:trigger r[k]} :: 0 <= k < |r| ==> Chain(r[k].list, LinkedFrames(r[k]))
    ensures IsRun(CleanNext, r, acts)
  {
    hide Base, Chain, Step, Enabled, Clean, LinkedFrames;
    forall i {:trigger acts[i]} | 0 <= i < |acts| ensures CleanNext(r[i], acts[i], r[i + 1]) {
      RunKeepsBase(r, acts, i);
      assert Chain(r[i].list, LinkedFrames(r[i])) && Chain(r[i + 1].list, LinkedFrames(r[i + 1]));
      StepKeepsChain(r[i], acts[i]);
    }
  }

  /** A sender that never claims a frame while it is being reset, as when decoding is not requested
      during `cellAdecGetPcm`. */
  predicate Patient(s: State, a: Action) {
    a.ClaimFrame? && Resetting(s) ==> a.h != s.consumer.h
  }

  predicate PatientNext(s: State, a: Action, t: State) {
    Next(s, a, t) && Patient(s, a)
  }

  /** The frame being reset stays free. */
  ghost predicate Undisturbed(s: State) {
    Inv(s) && (Resetting(s) ==> !InUse(s.list, s.consumer.h))
  }

  lemma FreeIsNotLinked(s: State, h: int)
    requires Exclusive(s) && !InUse(s.list, h)
    ensures h !in LinkedFrames(s)
  {
    assert Owners(s, h) == 0;
    OccursIn(LinkedFrames(s), h);
  }

  /** Nobody else takes the frame. */
  lemma StaysFree(s: State, a: Action)
    requires Resetting(s) && !InUse(s.list, s.consumer.h) && Enabled(s, a) && Patient(s, a)
    ensures !InUse(Step(s, a).list, s.consumer.h)
  {
    UseChanges(s, a, s.consumer.h);
    hide Step, Enabled, InUse;
  }

  lemma UndisturbedIsClean(s: State, a: Action)
    requires Undisturbed(s) && Enabled(s, a)
    ensures Clean(s, a)
  {
    InvIsBase(s);
    assert a.ClearNext? || a.ClearPrev? ==> Resetting(s);
    hide Inv, InUse, LinkedFrames, Enabled;
    if Resetting(s) {
      FreeIsNotLinked(s, s.consumer.h);
    }
  }

  lemma FreeWhileResetting(s: State, a: Action)
    requires Undisturbed(s) && Enabled(s, a) && Patient(s, a)
    ensures var t := Step(s, a); Resetting(t) ==> !InUse(t.list, t.consumer.h)
  {
    hide Inv, InUse, Step, Enabled, Patient;
    ResettingBegins(s, a);
    if Resetting(s) {
      StaysFree(s, a);
    }
  }

  lemma StepKeepsUndisturbed(s: State, a: Action)
    requires Undisturbed(s) && Enabled(s, a) && Patient(s, a)
    ensures Clean(s, a) && Undisturbed(Step(s, a))
  {
    UndisturbedIsClean(s, a);
    FreeWhileResetting(s, a);
    hide Inv, InUse, Step, Enabled, Clean, Patient, Resetting;
    StepKeepsInv(s, a);
  }

  lemma ResettingBegins(s: State, a: Action)
    requires Enabled(s, a)
    ensures var t := Step(s, a);
            Resetting(t) ==>
              if Resetting(s) then t.consumer.h == s.consumer.h
              else a.GiveBackFrame? && t.consumer.h == s.consumer.h && !InUse(t.list, t.consumer.h)
  {
    hide Link, Unlink, Linkable, Followable, Claim;
  }

  /** With such a sender every interleaving is clean, so that the list always works. */
  lemma PatientIsClean(r: seq<State>, acts: seq<Action>)
    requires IsRun(PatientNext, r, acts) && Init(r[0])
    ensures IsRun(CleanNext, r, acts)
    ensures forall k {:trigger r[k]} :: 0 <= k < |r| ==> ListWorks(r[k])
  {
    InitInv(r[0]);
    assert Undisturbed(r[0]);
    hide Undisturbed, Step, Enabled, Clean, Patient, Init, ListWorks, Inv;
    forall s, a, t | Undisturbed(s) && PatientNext(s, a, t) ensures Undisturbed(t) {
      StepKeepsUndisturbed(s, a);
    }
    forall i {:trigger acts[i]} | 0 <= i < |acts| ensures CleanNext(r[i], acts[i], r[i + 1]) {
      Invariant(PatientNext, Undisturbed, r, acts, i);
      StepKeepsUndisturbed(r[i], acts[i]);
    }
    forall k | 0 <= k < |r| ensures ListWorks(r[k]) {
      RunKeepsInv(r, acts, k);
      InvListWorks(r[k]);
    }
  }

  // ---- a refused stamp

  /** The output is locked, but nobody has a frame with which to release it. */
  predicate Wedged(s: State) {
    s.outputLocked && s.pcmQueue == [] && !s.decoder.Notifying? && !s.decoder.Linked? && !s.consumer.Holding?
  }

  /** What is decoded does not come to be queued: its time stamp is refused, or the list is broken so
      that it cannot be linked. */
  predicate Fails(s: State, a: Action) {
    a.RejectPts? || (a.LinkDecoded? && Enabled(s, a) && Link(s.list, s.decoder.h).Fatal?)
  }

  /** Only that leads there, and nothing leads out: no frame is decoded or queued any more. */
  lemma WedgedExactly(s: State, a: Action)
    requires Base(s) && Enabled(s, a)
    ensures Wedged(Step(s, a)) <==> Wedged(s) || Fails(s, a)
    ensures Wedged(s) ==> !a.BeginDecode? && !a.FinishDecode? && !a.PushPcm?
  {
    if a.LinkDecoded? {
      hide Link, Linkable, Exclusive;
    } else {
      hide Exclusive;
      OthersWedge(s, a);
    }
  }

  lemma OthersWedge(s: State, a: Action)
    requires OneOutput(s) && Enabled(s, a) && !a.LinkDecoded?
    ensures Wedged(Step(s, a)) <==> Wedged(s) || a.RejectPts?
  {
    hide Unlink, Followable, Claim, GiveBack, SetNext, SetPrev, HeadOf, IsHandle;
  }

  /** Over every run from the start. */
  lemma {:induction false} WedgedIffFailed(r: seq<State>, acts: seq<Action>, k: nat)
    requires IsRun(Next, r, acts) && Base(r[0]) && !Wedged(r[0]) && k < |r|
    ensures Wedged(r[k]) <==> exists i :: 0 <= i < k && Fails(r[i], acts[i])
    decreases k
  {
    hide Base, Step, Enabled, Wedged, Fails;
    if k > 0 {
      WedgedIffFailed(r, acts, k - 1);
      RunKeepsBase(r, acts, k - 1);
      var a := acts[k - 1];
      WedgedExactly(r[k - 1], a);
    }
  }

  /** While the list is sound that is: when a stamp was refused. */
  lemma WedgedIffRefused(r: seq<State>, acts: seq<Action>, k: nat)
    requires IsRun(CleanNext, r, acts) && Inv(r[0]) && !Wedged(r[0]) && k < |r|
    ensures Wedged(r[k]) <==> RejectPts in acts[..k]
  {
    hide Inv, Step, Enabled, Clean, Wedged;
    forall i {:trigger acts[i]} | 0 <= i < |acts|
      ensures Next(r[i], acts[i], r[i + 1]) && (Fails(r[i], acts[i]) <==> acts[i].RejectPts?)
    {
      assert CleanNext(r[i], acts[i], r[i + 1]);
      RunKeepsInv(r, acts, i);
      OnlyRefusals(r[i], acts[i]);
    }
    assert Base(r[0]) by { InvIsBase(r[0]); }
    WedgedIffFailed(r, acts, k);
    hide Fails;
    if RejectPts in acts[..k] {
      var i :| 0 <= i < k && acts[..k][i] == RejectPts;
      assert Fails(r[i], acts[i]);
    }
    if exists i :: 0 <= i < k && Fails(r[i], acts[i]) {
      var i :| 0 <= i < k && Fails(r[i], acts[i]);
      assert acts[..k][i] == RejectPts;
    }
  }

  lemma InvIsBase(s: State)
    requires Inv(s)
    ensures Base(s)
  {
  }

  lemma OnlyRefusals(s: State, a: Action)
    requires Inv(s)
    ensures Fails(s, a) <==> a.RejectPts?
  {
    if s.decoder.Notifying? {
      LinkWorks(s);
    }
    hide Inv, Link;
  }
}
