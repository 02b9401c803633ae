/** The PCM queue and the item queue of the audio decoder: what a consumer may rely on when it asks
    for PCM data, and exactly when it may ask. */
module AdecQueues {
  import opened AdecFrames
  import opened AdecHandshake
  import opened Runs

  ghost predicate IsSuffix(p: seq<int>, q: seq<int>) {
    |p| <= |q| && p == q[|q| - |p|..]
  }

  /** The item that the decoder is about to queue. */
  function Coming(s: State): seq<int> {
    if s.decoder.Pushed? then [s.decoder.h] else []
  }

  predicate HasDecode(cs: seq<Cmd>) {
    cs != [] && (cs[0].Decode? || HasDecode(cs[1..]))
  }

  /** The decoder can still come to queue something before the consumer releases another frame. */
  ghost predicate CanQueue(s: State) {
    match s.decoder
    case Idle => !s.outputLocked && (HasDecode(s.commands) || s.claimed != [] || HasFree(s.list))
    case Popped(_) => !s.outputLocked
    case _ => true
  }

  ghost predicate HasFree(l: FrameList) {
    exists h :: IsHandle(l, h) && !l.frames[h].inUse
  }

  /** The item queue, with what is coming, is the newest part of the PCM queue, seen from each point
      of `cellAdecGetPcm`; the comparison there is true exactly when no item was fetched ahead. Inside
      a call a frame is queued together with its item. */
  ghost predicate QueuesAgree(s: State) {
    Agree(s.consumer, s.pcmQueue, s.itemQueue, Coming(s))
  }

  ghost predicate Agree(c: Consumer, pcm: seq<int>, items: seq<int>, coming: seq<int>) {
    match c
    case SawItem(item) => pcm != [] && coming == [] && IsSuffix(items, pcm) && item == HeadOf(items)
    case Compared(equal) => pcm != [] && coming == [] && IsSuffix(items, pcm) && (equal <==> |items| == |pcm|)
    case ItemDropped => pcm != [] && coming == [] && IsSuffix(items, pcm[1..])
    case _ => IsSuffix(items + coming, pcm)
  }

  /** The same for a queue of at most one frame. */
  predicate ShortAgree(c: Consumer, pcm: seq<int>, items: seq<int>, coming: seq<int>) {
    match c
    case SawItem(item) => pcm != [] && coming == [] && (items == [] || items == pcm) && item == HeadOf(items)
    case Compared(equal) => pcm != [] && coming == [] && (items == [] || items == pcm) && (equal <==> items == pcm)
    case ItemDropped => pcm != [] && coming == [] && items == []
    case _ => if coming == [] then items == [] || items == pcm else items == [] && coming == pcm
  }

  lemma AgreeIsShort(c: Consumer, pcm: seq<int>, items: seq<int>, coming: seq<int>)
    requires |pcm| <= 1 && |coming| <= 1
    ensures Agree(c, pcm, items, coming) <==> ShortAgree(c, pcm, items, coming)
  {
    hide IsSuffix;
    ShortSuffix(items, pcm);
    ShortSuffix(items + coming, pcm);
    if pcm != [] {
      ShortSuffix(items, pcm[1..]);
    }
    assert items + [] == items;
  }

  /** The consumer holds nothing, the queues are empty, and they will stay so. */
  ghost predicate Settled(s: State) {
    && s.pcmQueue == [] && s.itemQueue == [] && !CanQueue(s)
    && (s.consumer.Free? || s.consumer.SawItem? || s.consumer.Compared? || s.consumer.ItemDropped?)
  }

  ghost predicate Sound(s: State) {
    QueuesAgree(s) || Settled(s)
  }

  /** It is safe to ask for PCM data when a frame is queued together with its item, as it is when the
      callback announces it, or when none can be on its way. */
  ghost predicate MayAsk(s: State) {
    if s.pcmQueue == [] then !CanQueue(s) else !s.decoder.Pushed?
  }

  lemma ShortSuffix(p: seq<int>, q: seq<int>)
    requires |q| <= 1
    ensures IsSuffix(p, q) <==> p == [] || p == q
  {
  }

  lemma QueuedAreHandles(s: State)
    requires Base(s)
    ensures Distinct(s.pcmQueue) && |s.pcmQueue| <= 1
    ensures forall i :: 0 <= i < |s.pcmQueue| ==> InUse(s.list, s.pcmQueue[i])
  {
    if s.pcmQueue != [] {
      var h := s.pcmQueue[0];
      assert LinkedFrames(s)[|Taken(s)|] == h;
      OccursIn(LinkedFrames(s), h);
      assert Owners(s, h) > 0;
    }
  }

  /** What a decoder or sender step does to the queues: nothing, but for the two pushes; and no frame
      is pushed while the queue holds one. */
  lemma OthersLeaveQueues(s: State, a: Action)
    requires OneOutput(s) && Enabled(s, a) && !ByConsumer(a)
    ensures var t := Step(s, a);
            && t.consumer == s.consumer
            && t.pcmQueue == (if a.PushPcm? then [s.decoder.h] else s.pcmQueue) && (a.PushPcm? ==> s.pcmQueue == [])
            && t.itemQueue == (if a.PushItem? then s.itemQueue + Coming(s) else s.itemQueue)
            && Coming(t) == (if a.PushPcm? then [s.decoder.h] else if a.PushItem? then [] else Coming(s))
  {
    if BySender(a) {
      SendersLeaveQueues(s, a);
      hide Step, Enabled;
    } else {
      hide Link, Linkable, IsHandle;
    }
  }

  lemma SendersLeaveQueues(s: State, a: Action)
    requires Enabled(s, a) && BySender(a)
    ensures var t := Step(s, a);
            && t.consumer == s.consumer && t.decoder == s.decoder
            && t.pcmQueue == s.pcmQueue && t.itemQueue == s.itemQueue && t.outputLocked == s.outputLocked
  {
    hide Claim, IsHandle;
  }

  lemma PushPcmAgrees(c: Consumer, items: seq<int>, h: int)
    requires ShortAgree(c, [], items, [])
    ensures ShortAgree(c, [h], items, [h])
  {
  }

  lemma PushItemAgrees(c: Consumer, pcm: seq<int>, items: seq<int>, h: int)
    requires ShortAgree(c, pcm, items, [h])
    ensures ShortAgree(c, pcm, items + [h], [])
  {
  }

  lemma OthersKeepAgreement(s: State, a: Action)
    requires Base(s) && QueuesAgree(s) && Enabled(s, a) && !ByConsumer(a)
    ensures QueuesAgree(Step(s, a))
  {
    OthersLeaveQueues(s, a);
    QueuedAreHandles(s);
    var t := Step(s, a);
    assert a.PushPcm? ==> Coming(s) == [];
    assert a.PushItem? ==> Coming(s) == [s.decoder.h];
    assert |Coming(s)| <= 1;
    hide Step, Enabled, Base, ByConsumer, Agree, ShortAgree, Coming;
    AgreeIsShort(s.consumer, s.pcmQueue, s.itemQueue, Coming(s));
    if a.PushPcm? {
      PushPcmAgrees(s.consumer, s.itemQueue, s.decoder.h);
    } else if a.PushItem? {
      PushItemAgrees(s.consumer, s.pcmQueue, s.itemQueue, s.decoder.h);
    }
    AgreeIsShort(t.consumer, t.pcmQueue, t.itemQueue, Coming(t));
  }

  /** What a consumer step does to the queues, item by item. */
  lemma CallSteps(s: State, a: Action)
    requires ShortAgree(s.consumer, s.pcmQueue, s.itemQueue, Coming(s)) && Enabled(s, a)
    requires |s.pcmQueue| <= 1 && (s.pcmQueue != [] ==> 0 <= s.pcmQueue[0])
    requires a.BeginGetPcm? ==> s.pcmQueue != [] && Coming(s) == []
    requires a.BeginGetPcm? || a.ReadPcmHead? || a.DropItem? || a.PopPcm?
    ensures var t := Step(s, a); |t.pcmQueue| <= 1 && ShortAgree(t.consumer, t.pcmQueue, t.itemQueue, Coming(t))
  {
  }

  lemma CallKeepsAgreement(s: State, a: Action)
    requires Base(s) && QueuesAgree(s) && Enabled(s, a) && (a.BeginGetPcm? ==> s.pcmQueue != [] && Coming(s) == [])
    requires a.BeginGetPcm? || a.ReadPcmHead? || a.DropItem? || a.PopPcm?
    ensures QueuesAgree(Step(s, a))
  {
    QueuedAreHandles(s);
    var t := Step(s, a);
    hide Base, Agree, ShortAgree, Step, Enabled;
    AgreeIsShort(s.consumer, s.pcmQueue, s.itemQueue, Coming(s));
    CallSteps(s, a);
    AgreeIsShort(t.consumer, t.pcmQueue, t.itemQueue, Coming(t));
  }

  lemma RestLeavesQueues(s: State, a: Action)
    requires Enabled(s, a) && ByConsumer(a)
    requires !a.BeginGetPcm? && !a.ReadPcmHead? && !a.DropItem? && !a.PopPcm?
    ensures var t := Step(s, a);
            && t.pcmQueue == s.pcmQueue && t.decoder == s.decoder
            && t.itemQueue == (if a.GetItem? then Pop(s.itemQueue) else s.itemQueue)
            && InNoCall(s.consumer) && InNoCall(t.consumer)
  {
    hide Unlink, GiveBack, SetNext, SetPrev, Followable, Linkable, IsHandle, Pop;
  }

  predicate InNoCall(c: Consumer) {
    !c.SawItem? && !c.Compared? && !c.ItemDropped?
  }

  lemma RestSteps(s: State, a: Action)
    requires ShortAgree(s.consumer, s.pcmQueue, s.itemQueue, Coming(s)) && Enabled(s, a) && ByConsumer(a)
    requires |s.pcmQueue| <= 1 && !a.BeginGetPcm? && !a.ReadPcmHead? && !a.DropItem? && !a.PopPcm?
    ensures var t := Step(s, a); |t.pcmQueue| <= 1 && ShortAgree(t.consumer, t.pcmQueue, t.itemQueue, Coming(t))
  {
    RestLeavesQueues(s, a);
    hide Step, Enabled;
  }

  lemma RestKeepsAgreement(s: State, a: Action)
    requires Base(s) && QueuesAgree(s) && Enabled(s, a) && ByConsumer(a)
    requires !a.BeginGetPcm? && !a.ReadPcmHead? && !a.DropItem? && !a.PopPcm?
    ensures QueuesAgree(Step(s, a))
  {
    QueuedAreHandles(s);
    var t := Step(s, a);
    hide Base, Agree, ShortAgree, Step, Enabled;
    AgreeIsShort(s.consumer, s.pcmQueue, s.itemQueue, Coming(s));
    RestSteps(s, a);
    AgreeIsShort(t.consumer, t.pcmQueue, t.itemQueue, Coming(t));
  }

  lemma StepKeepsSettled(s: State, a: Action)
    requires Settled(s) && Enabled(s, a)
    ensures Settled(Step(s, a))
  {
    hide Link, Unlink, GiveBack, SetNext, SetPrev;
    match a
    case SendOther => HasDecodeCat(s.commands);
    case _ =>
  }

  lemma {:induction false} HasDecodeCat(cs: seq<Cmd>)
    ensures HasDecode(cs + [Other]) <==> HasDecode(cs)
    decreases |cs|
  {
    if cs != [] {
      assert (cs + [Other])[1..] == cs[1..] + [Other];
      HasDecodeCat(cs[1..]);
    } else {
      assert (cs + [Other])[1..] == [];
    }
  }

  ghost predicate Guarded(s: State, a: Action) {
    a.BeginGetPcm? ==> MayAsk(s)
  }

  lemma StepKeepsSound(s: State, a: Action)
    requires Base(s) && Sound(s) && Enabled(s, a) && Guarded(s, a)
    ensures Sound(Step(s, a))
  {
    if Settled(s) {
      hide Base, Step;
      StepKeepsSettled(s, a);
    } else {
      AskingHasFrame(s, a);
      hide Base, Step, Enabled, Settled, Agree;
      if !ByConsumer(a) {
        OthersKeepAgreement(s, a);
      } else if a.BeginGetPcm? || a.ReadPcmHead? || a.DropItem? || a.PopPcm? {
        CallKeepsAgreement(s, a);
      } else {
        RestKeepsAgreement(s, a);
      }
    }
  }

  lemma AskingHasFrame(s: State, a: Action)
    requires QueuesAgree(s) && !Settled(s) && Enabled(s, a) && Guarded(s, a)
    ensures a.BeginGetPcm? ==> s.pcmQueue != [] && Coming(s) == []
  {
  }

  ghost predicate GuardedNext(s: State, a: Action, t: State) {
    Next(s, a, t) && Guarded(s, a)
  }

  ghost predicate BaseAndSound(s: State) {
    Base(s) && Sound(s)
  }

  lemma RunKeepsSound(r: seq<State>, acts: seq<Action>, k: nat)
    requires IsRun(GuardedNext, r, acts) && BaseAndSound(r[0]) && k < |r|
    ensures BaseAndSound(r[k])
  {
    hide Base, Step, Enabled, Guarded, Sound;
    forall s, a, t | BaseAndSound(s) && GuardedNext(s, a, t) ensures BaseAndSound(t) {
      StepKeepsBase(s, a);
      StepKeepsSound(s, a);
    }
    Invariant(GuardedNext, BaseAndSound, r, acts, k);
  }

  /** Over every run with such a consumer, even one in which the frame list breaks, the queued handles
      are distinct frames in use, and the item queue is a suffix of the PCM queue: throughout
      `cellAdecGetPcm` as `QueuesAgree` says, or both stay empty. */
  lemma QueuesAreSound(r: seq<State>, acts: seq<Action>, k: nat)
    requires IsRun(GuardedNext, r, acts) && Init(r[0]) && k < |r|
    ensures QueuesAgree(r[k]) || Settled(r[k])
    ensures Distinct(r[k].pcmQueue) && forall i :: 0 <= i < |r[k].pcmQueue| ==> InUse(r[k].list, r[k].pcmQueue[i])
  {
    InitInv(r[0]);
    assert QueuesAgree(r[0]);
    hide Base, Init, Step, Enabled, Guarded, QueuesAgree, Settled;
    RunKeepsSound(r, acts, k);
    QueuedAreHandles(r[k]);
  }

  // ---- the guard is exact

  predicate ByConsumer(a: Action) {
    !BySender(a) && !ByDecoder(a)
  }

  function ConsumerSteps(acts: seq<Action>): seq<Action> {
    if acts == [] then []
    else (if ByConsumer(acts[0]) then [acts[0]] else []) + ConsumerSteps(acts[1..])
  }

  /** One `cellAdecGetPcm` that begins in `s`, among some steps of the sender and the decoder, ends
      with an item that has no frame in the PCM queue. */
  ghost predicate LeavesStaleItem(s: State) {
    Enabled(s, BeginGetPcm) && exists during, v :: StaleCall(Step(s, BeginGetPcm), during, v)
  }

  ghost predicate StaleCall(s: State, during: seq<Action>, v: State) {
    && Leads(Next, s, during, v) && ConsumerSteps(during) == [ReadPcmHead, DropItem, PopPcm]
    && !IsSuffix(v.itemQueue, v.pcmQueue)
  }

  /** In the call with its first look at the item queue taken, nothing queued. */
  predicate Polling(s: State) {
    s.consumer == SawItem(-1) && s.pcmQueue == [] && s.itemQueue == []
  }

  /** A step of the sender or the decoder. */
  predicate OthersNext(s: State, a: Action, t: State) {
    Next(s, a, t) && !ByConsumer(a)
  }

  /** Steps left until the decoder is about to queue a frame. */
  function Distance(s: State): nat {
    match s.decoder
    case Linked(_) => 0
    case Notifying(_) => 1
    case Decoding(_) => 2
    case Popped(_) => 3
    case Idle => |s.commands| + (if HasDecode(s.commands) then 3 else if s.claimed != [] then 5 else 6)
    case Pushed(_) => 0
  }

  ghost predicate Approaches(s: State) {
    Polling(s) && CanQueue(s) && !s.decoder.Pushed?
  }

  /** A step of the sender or the decoder that brings it nearer. */
  lemma Nearer(s: State) returns (a: Action)
    requires Inv(s) && Approaches(s) && !s.decoder.Linked?
    ensures Enabled(s, a) && !ByConsumer(a) && Approaches(Step(s, a)) && Distance(Step(s, a)) < Distance(s)
  {
    hide Inv, Link;
    if s.decoder.Notifying? {
      a := LinkDecoded;
      LinkWorks(s);
    } else if s.decoder.Decoding? {
      a := FinishDecode;
    } else if s.decoder.Popped? {
      a := BeginDecode;
    } else if s.commands != [] {
      a := PopCommand;
    } else if s.claimed != [] {
      a := SendDecode;
      HasDecodeAtEnd(s.commands, s.claimed[0]);
    } else {
      var h :| IsHandle(s.list, h) && !s.list.frames[h].inUse;
      a := ClaimFrame(h);
    }
  }

  lemma {:induction false} HasDecodeAtEnd(cs: seq<Cmd>, h: int)
    ensures HasDecode(cs + [Decode(h)])
    decreases |cs|
  {
    if cs != [] {
      assert (cs + [Decode(h)])[1..] == cs[1..] + [Decode(h)];
      HasDecodeAtEnd(cs[1..], h);
    }
  }

  lemma OthersKeepInv(s: State, a: Action)
    requires Inv(s) && Enabled(s, a) && !ByConsumer(a)
    ensures Inv(Step(s, a))
  {
    assert Clean(s, a);
    hide Inv, Step, Enabled;
    StepKeepsInv(s, a);
  }

  /** Without the consumer one comes to the point where the decoder is about to queue a frame. */
  lemma {:induction false} ComesToLinked(s: State) returns (acts: seq<Action>, t: State)
    requires Inv(s) && Approaches(s)
    ensures Leads(OthersNext, s, acts, t) && Inv(t) && Polling(t) && t.decoder.Linked?
    decreases Distance(s)
  {
    if s.decoder.Linked? {
      hide Inv, Leads;
      acts, t := [], s;
      NoStep<State, Action>(OthersNext, s);
    } else {
      var a := Nearer(s);
      hide Inv, Approaches, Polling, Step, Enabled, Distance, Leads, ByConsumer;
      var u := Step(s, a);
      OthersKeepInv(s, a);
      OneStep(OthersNext, s, a, u);
      acts, t := ComesToLinked(u);
      Join(OthersNext, s, [a], u, acts, t);
      acts := [a] + acts;
    }
  }

  lemma {:induction false} OthersTakeNoConsumerSteps(acts: seq<Action>)
    requires forall i :: 0 <= i < |acts| ==> !ByConsumer(acts[i])
    ensures ConsumerSteps(acts) == []
    decreases |acts|
  {
    hide ByConsumer;
    if acts != [] {
      assert !ByConsumer(acts[0]);
      forall i | 0 <= i < |acts[1..]| ensures !ByConsumer(acts[1..][i]) {
        assert acts[1..][i] == acts[i + 1];
      }
      OthersTakeNoConsumerSteps(acts[1..]);
    }
  }

  lemma LedByOthers(s: State, acts: seq<Action>, t: State)
    requires Leads(OthersNext, s, acts, t)
    ensures Leads(Next, s, acts, t) && ConsumerSteps(acts) == []
  {
    hide Step, Enabled, ByConsumer;
    LeadsAlso(OthersNext, Next, s, acts, t);
    var r :| IsRun(OthersNext, r, acts) && r[0] == s && r[|acts|] == t;
    forall i | 0 <= i < |acts| ensures !ByConsumer(acts[i]) {
      assert OthersNext(r[i], acts[i], r[i + 1]);
    }
    OthersTakeNoConsumerSteps(acts);
  }

  lemma FourSteps(s: State, a: Action, b: Action, c: Action, d: Action)
    requires Enabled(s, a) && var s1 := Step(s, a); Enabled(s1, b) && var s2 := Step(s1, b);
             Enabled(s2, c) && var s3 := Step(s2, c); Enabled(s3, d)
    ensures Leads(Next, s, [a, b, c, d], Step(Step(Step(Step(s, a), b), c), d))
  {
    hide Step, Enabled;
    var s1 := Step(s, a);
    var s2 := Step(s1, b);
    var s3 := Step(s2, c);
    assert IsRun(Next, [s, s1, s2, s3, Step(s3, d)], [a, b, c, d]);
  }

  lemma FiveSteps(s: State, a: Action, b: Action, c: Action, d: Action, e: Action)
    requires Enabled(s, a) && var s1 := Step(s, a); Enabled(s1, b) && var s2 := Step(s1, b);
             Enabled(s2, c) && var s3 := Step(s2, c); Enabled(s3, d) && var s4 := Step(s3, d); Enabled(s4, e)
    ensures Leads(Next, s, [a, b, c, d, e], Step(Step(Step(Step(Step(s, a), b), c), d), e))
  {
    hide Step, Enabled, Leads;
    var s4 := Step(Step(Step(Step(s, a), b), c), d);
    FourSteps(s, a, b, c, d);
    OneStep(Next, s4, e, Step(s4, e));
    Join(Next, s, [a, b, c, d], s4, [e], Step(s4, e));
    assert [a, b, c, d] + [e] == [a, b, c, d, e];
  }

  /** The two reads on either side of the pushes: the consumer takes the frame but leaves its item. */
  lemma PollingLeavesStaleItem(s: State)
    requires Base(s) && Polling(s) && s.decoder.Linked?
    ensures Enabled(s, PushPcm)
    ensures var s1 := Step(s, PushPcm);
            Enabled(s1, PushItem) && var s2 := Step(s1, PushItem);
            Enabled(s2, ReadPcmHead) && var s3 := Step(s2, ReadPcmHead);
            Enabled(s3, DropItem) && var s4 := Step(s3, DropItem);
            Enabled(s4, PopPcm) && var s5 := Step(s4, PopPcm);
            s5.consumer == Holding(s.decoder.h) && s5.pcmQueue == [] && s5.itemQueue == [s.decoder.h]
  {
    LinkedIsFrame(s, s.decoder.h);
    BothPushes(s);
    hide Base;
    StaleReads(Step(Step(s, PushPcm), PushItem), s.decoder.h);
    hide Step, Enabled;
  }

  lemma BothPushes(s: State)
    requires Polling(s) && s.decoder.Linked?
    ensures Enabled(s, PushPcm) && var s1 := Step(s, PushPcm);
            Enabled(s1, PushItem) && var s2 := Step(s1, PushItem);
            s2.consumer == SawItem(-1) && s2.pcmQueue == [s.decoder.h] && s2.itemQueue == [s.decoder.h]
  {
  }

  lemma StaleReads(s: State, h: int)
    requires s.consumer == SawItem(-1) && s.pcmQueue == [h] && s.itemQueue == [h] && 0 <= h
    ensures Enabled(s, ReadPcmHead) && var s3 := Step(s, ReadPcmHead);
            Enabled(s3, DropItem) && var s4 := Step(s3, DropItem);
            Enabled(s4, PopPcm) && var s5 := Step(s4, PopPcm);
            s5.consumer == Holding(h) && s5.pcmQueue == [] && s5.itemQueue == [h]
  {
  }

  lemma LinkedIsFrame(s: State, h: int)
    requires Exclusive(s) && h in LinkedFrames(s)
    ensures InUse(s.list, h) && 0 <= h
  {
    OccursIn(LinkedFrames(s), h);
    assert Owners(s, h) > 0;
  }

  lemma {:induction false} StepsCat(p: seq<Action>, q: seq<Action>)
    ensures ConsumerSteps(p + q) == ConsumerSteps(p) + ConsumerSteps(q)
    decreases |p|
  {
    hide ByConsumer;
    if p == [] {
      assert p + q == q;
    } else {
      assert (p + q)[0] == p[0] && (p + q)[1..] == p[1..] + q;
      StepsCat(p[1..], q);
      var first := if ByConsumer(p[0]) then [p[0]] else [];
      assert first + (ConsumerSteps(p[1..]) + ConsumerSteps(q)) == first + ConsumerSteps(p[1..]) + ConsumerSteps(q);
    }
  }

  lemma Alone(a: Action)
    ensures ConsumerSteps([a]) == if ByConsumer(a) then [a] else []
  {
    assert [a][1..] == [];
  }

  lemma TheCall()
    ensures ConsumerSteps([PushPcm, PushItem, ReadPcmHead, DropItem, PopPcm]) == [ReadPcmHead, DropItem, PopPcm]
    ensures ConsumerSteps([ReadPcmHead, DropItem, PopPcm, PushItem]) == [ReadPcmHead, DropItem, PopPcm]
  {
    Alone(ReadPcmHead);
    Alone(DropItem);
    Alone(PopPcm);
    Alone(PushPcm);
    Alone(PushItem);
    hide ConsumerSteps;
    StepsCat([ReadPcmHead], [DropItem]);
    StepsCat([ReadPcmHead] + [DropItem], [PopPcm]);
    var call := [ReadPcmHead] + [DropItem] + [PopPcm];
    StepsCat([PushPcm], [PushItem]);
    StepsCat([PushPcm] + [PushItem], call);
    StepsCat(call, [PushItem]);
    assert [PushPcm] + [PushItem] + call == [PushPcm, PushItem, ReadPcmHead, DropItem, PopPcm];
    assert call + [PushItem] == [ReadPcmHead, DropItem, PopPcm, PushItem];
  }

  /** Nothing queued: the frame on its way arrives between the two reads. */
  lemma EmptyPollIsUnsafe(s: State)
    requires Inv(s) && s.consumer.Free? && QueuesAgree(s) && s.pcmQueue == [] && CanQueue(s)
    ensures LeavesStaleItem(s)
  {
    var s1 := Step(s, BeginGetPcm);
    EmptyPollApproaches(s);
    hide Inv, Step, Enabled, Leads, CanQueue, QueuesAgree, Approaches;
    var before, u := ComesToLinked(s1);
    var during, v := StraddledCall(s1, before, u);
  }

  lemma EmptyPollApproaches(s: State)
    requires Inv(s) && s.consumer.Free? && QueuesAgree(s) && s.pcmQueue == [] && CanQueue(s)
    ensures Enabled(s, BeginGetPcm) && Inv(Step(s, BeginGetPcm)) && Approaches(Step(s, BeginGetPcm))
  {
    assert Clean(s, BeginGetPcm);
    StepKeepsInv(s, BeginGetPcm);
    hide Inv;
  }

  lemma StraddledCall(s: State, before: seq<Action>, u: State) returns (during: seq<Action>, v: State)
    requires Leads(OthersNext, s, before, u) && Inv(u) && Polling(u) && u.decoder.Linked?
    ensures StaleCall(s, during, v)
  {
    InvIsBase(u);
    LedByOthers(s, before, u);
    hide Inv, Base, Leads, Polling, ConsumerSteps, OthersNext;
    PollingLeavesStaleItem(u);
    v := Step(Step(Step(Step(Step(u, PushPcm), PushItem), ReadPcmHead), DropItem), PopPcm);
    hide Step, Enabled;
    FiveSteps(u, PushPcm, PushItem, ReadPcmHead, DropItem, PopPcm);
    var call := [PushPcm, PushItem, ReadPcmHead, DropItem, PopPcm];
    during := before + call;
    Join(Next, s, before, u, call, v);
    StepsCat(before, call);
    TheCall();
  }

  /** A frame queued without its item: it is taken, and the item comes afterwards. */
  lemma EarlyPollIsUnsafe(s: State)
    requires Base(s) && s.consumer.Free? && QueuesAgree(s) && s.pcmQueue != [] && s.decoder.Pushed?
    ensures LeavesStaleItem(s)
  {
    var s1 := Step(s, BeginGetPcm);
    EarlyPoll(s);
    hide Base, QueuesAgree, Step, Enabled, StaleCall;
    var v := EarlyCall(s1);
  }

  /** In the call with its first look at the item queue taken, the item still to come. */
  predicate Early(s: State) {
    && s.consumer == SawItem(-1) && s.decoder.Pushed? && 0 <= s.decoder.h
    && s.pcmQueue == [s.decoder.h] && s.itemQueue == []
  }

  lemma EarlyPoll(s: State)
    requires Base(s) && s.consumer.Free? && QueuesAgree(s) && s.pcmQueue != [] && s.decoder.Pushed?
    ensures Early(Step(s, BeginGetPcm))
  {
    QueuedAreHandles(s);
    AgreeIsShort(s.consumer, s.pcmQueue, s.itemQueue, Coming(s));
    assert InUse(s.list, s.pcmQueue[0]);
    hide Base, Agree;
  }

  lemma EarlySteps(s: State)
    requires Early(s)
    ensures Enabled(s, ReadPcmHead)
    ensures var s1 := Step(s, ReadPcmHead);
            Enabled(s1, DropItem) && var s2 := Step(s1, DropItem);
            Enabled(s2, PopPcm) && var s3 := Step(s2, PopPcm);
            Enabled(s3, PushItem) && var s4 := Step(s3, PushItem);
            s4.pcmQueue == [] && s4.itemQueue == [s.decoder.h]
  {
  }

  lemma EarlyCall(s: State) returns (v: State)
    requires Early(s)
    ensures StaleCall(s, [ReadPcmHead, DropItem, PopPcm, PushItem], v)
  {
    EarlySteps(s);
    hide Early, Step, Enabled, ConsumerSteps, Leads;
    v := Step(Step(Step(Step(s, ReadPcmHead), DropItem), PopPcm), PushItem);
    FourSteps(s, ReadPcmHead, DropItem, PopPcm, PushItem);
    TheCall();
  }

  lemma {:induction false} InConsumerSteps(acts: seq<Action>, a: Action)
    requires a in acts && ByConsumer(a)
    ensures a in ConsumerSteps(acts)
    decreases |acts|
  {
    if acts[0] != a {
      InConsumerSteps(acts[1..], a);
    }
  }

  lemma SoundIsSuffix(s: State)
    requires BaseAndSound(s)
    ensures IsSuffix(s.itemQueue, s.pcmQueue)
  {
    QueuedAreHandles(s);
    hide Base, CanQueue, Agree;
    AgreeIsShort(s.consumer, s.pcmQueue, s.itemQueue, Coming(s));
    ShortSuffix(s.itemQueue, s.pcmQueue);
  }

  lemma SoundCallIsSafe(s: State, during: seq<Action>, v: State)
    requires BaseAndSound(s)
    ensures !StaleCall(s, during, v)
  {
    hide Base, Sound, Step, Enabled, IsSuffix, ConsumerSteps;
    if StaleCall(s, during, v) {
      var r :| IsRun(Next, r, during) && r[0] == s && r[|during|] == v;
      forall i {:trigger during[i]} | 0 <= i < |during| ensures GuardedNext(r[i], during[i], r[i + 1]) {
        if during[i] == BeginGetPcm {
          InConsumerSteps(during, BeginGetPcm);
        }
      }
      RunKeepsSound(r, during, |during|);
      SoundIsSuffix(v);
    }
  }

  lemma GuardedCallIsSafe(s: State)
    requires Base(s) && s.consumer.Free? && QueuesAgree(s) && MayAsk(s)
    ensures !LeavesStaleItem(s)
  {
    var s1 := Step(s, BeginGetPcm);
    StepKeepsBase(s, BeginGetPcm);
    StepKeepsSound(s, BeginGetPcm);
    hide Base, Sound, Step, Enabled, StaleCall;
    forall during, v ensures !StaleCall(s1, during, v) {
      SoundCallIsSafe(s1, during, v);
    }
  }

  /** The guard is exact. In every state that a guarded run reaches with the consumer in no call, a
      call that begins there can leave a stale item exactly when it is not guarded. */
  lemma AskingIsUnsafeExactly(s: State)
    requires Inv(s) && s.consumer.Free? && QueuesAgree(s)
    ensures LeavesStaleItem(s) <==> !MayAsk(s)
  {
    InvIsBase(s);
    hide Inv, LeavesStaleItem, QueuesAgree, Base, CanQueue;
    if MayAsk(s) {
      GuardedCallIsSafe(s);
    } else if s.pcmQueue == [] {
      EmptyPollIsUnsafe(s);
    } else {
      EarlyPollIsUnsafe(s);
    }
  }

  /** From the start: it can happen as soon as there is a frame at all. */
  lemma AskingAtTheStart(s: State)
    requires Init(s)
    ensures LeavesStaleItem(s) <==> s.list.frames != []
  {
    InitInv(s);
    AskingIsUnsafeExactly(s);
    hide Inv, LeavesStaleItem;
    if s.list.frames != [] {
      assert IsHandle(s.list, 0) && !s.list.frames[0].inUse;
    }
  }
}
