/** What a claim between the stores of `reset_frame` does to the frame list, and exactly when it can. */
module AdecResets {
  import opened AdecFrames
  import opened AdecHandshake
  import opened AdecQueues
  import opened Runs

  // ---- from one state

  /** The frame of the first decode command. */
  function FirstDecode(cs: seq<Cmd>): int {
    if cs == [] then -1 else if cs[0].Decode? then cs[0].h else FirstDecode(cs[1..])
  }

  /** The frame `h` is in the list, or is the next that will be, or nothing stands before it and it can
      still be claimed: no decode is queued, and none has to be. */
  predicate CanLink(s: State, h: int) {
    || h in LinkedFrames(s)
    || ((s.decoder.Decoding? || s.decoder.Notifying?) && s.decoder.h == h)
    || (s.decoder.Popped? && !s.outputLocked && s.decoder.h == h)
    || ((s.decoder.Idle? || s.decoder.Pushed?) && !s.outputLocked && ComesNext(s, h))
  }

  /** A claim that the sender holds need not lead to a command. */
  predicate SendCanFail(s: State) {
    s.mayRefuse || |s.commands| >= QUEUE_SIZE
  }

  predicate ComesNext(s: State, h: int) {
    if HasDecode(s.commands) then FirstDecode(s.commands) == h
    else s.claimed == [h] || (!InUse(s.list, h) && (s.claimed == [] || SendCanFail(s)))
  }

  /** The next store of the reset. */
  function NextStore(s: State): Action {
    if s.consumer.GivenBack? then ClearNext else ClearPrev
  }

  /** Without another step of the consumer the others lead to where the next store of the reset leaves
      a list that does not thread the linked frames. */
  ghost predicate CanBreak(s: State) {
    exists acts, t :: Breaks(s, acts, t)
  }

  ghost predicate Breaks(s: State, acts: seq<Action>, t: State) {
    && Leads(OthersNext, s, acts, t) && Enabled(t, NextStore(t))
    && var u := Step(t, NextStore(t)); !Chain(u.list, LinkedFrames(u))
  }

  lemma {:induction false} FirstDecodeCat(cs: seq<Cmd>, c: Cmd)
    ensures HasDecode(cs + [c]) <==> HasDecode(cs) || c.Decode?
    ensures HasDecode(cs + [c]) ==> FirstDecode(cs + [c]) == if HasDecode(cs) then FirstDecode(cs) else c.h
    decreases |cs|
  {
    if cs == [] {
      assert cs + [c] == [c];
    } else {
      assert (cs + [c])[1..] == cs[1..] + [c];
      FirstDecodeCat(cs[1..], c);
    }
  }

  /** The state of the consumer while the others move. */
  lemma ConsumerWaits(s: State, a: Action)
    requires Enabled(s, a) && !ByConsumer(a)
    ensures Step(s, a).consumer == s.consumer
  {
    if BySender(a) {
      SendersLeaveQueues(s, a);
      hide Step, Enabled;
    } else {
      hide Link, Linkable, IsHandle, Started;
    }
  }

  lemma SendersCannotHelp(s: State, a: Action)
    requires Base(s) && Resetting(s) && !CanLink(s, s.consumer.h) && Enabled(s, a) && BySender(a)
    ensures !CanLink(Step(s, a), s.consumer.h)
  {
    OthersKeepLinked(s, a);
    UseChanges(s, a, s.consumer.h);
    hide Base, LinkedFrames, InUse, Claim;
    match a
    case SendDecode => FirstDecodeCat(s.commands, Decode(s.claimed[0]));
    case SendOther => FirstDecodeCat(s.commands, Other);
    case _ =>
  }

  lemma PopCannotHelp(s: State, h: int)
    requires Enabled(s, PopCommand) && !CanLink(s, h)
    ensures !CanLink(Step(s, PopCommand), h)
  {
    OthersKeepLinked(s, PopCommand);
    UseChanges(s, PopCommand, h);
    hide LinkedFrames, InUse;
  }

  lemma LinkCannotHelp(s: State, h: int)
    requires OneOutput(s) && Enabled(s, LinkDecoded) && !CanLink(s, h)
    ensures !CanLink(Step(s, LinkDecoded), h)
  {
    LinkAddsLast(s);
    assert s.outputLocked && Step(s, LinkDecoded).outputLocked;
    LinkSteps(s);
    assert s.decoder.Notifying?;
    hide LinkedFrames, Step, Enabled;
  }

  lemma DecoderCannotHelp(s: State, a: Action)
    requires Base(s) && Resetting(s) && !CanLink(s, s.consumer.h) && Enabled(s, a) && ByDecoder(a)
    ensures !CanLink(Step(s, a), s.consumer.h)
  {
    var h := s.consumer.h;
    assert OneOutput(s);
    hide Base;
    if a.PopCommand? {
      PopCannotHelp(s, h);
    } else if a.LinkDecoded? {
      LinkCannotHelp(s, h);
    } else {
      OthersKeepLinked(s, a);
      UseChanges(s, a, h);
      hide LinkedFrames, InUse, Link, Linkable, IsHandle, HasDecode, FirstDecode;
    }
  }

  ghost predicate Waiting(s: State, c: Consumer) {
    Inv(s) && Resetting(s) && s.consumer == c
  }

  ghost predicate Hopeless(s: State, c: Consumer) {
    Waiting(s, c) && !CanLink(s, c.h)
  }

  lemma StepStaysHopeless(s: State, a: Action, c: Consumer)
    requires Resetting(s) && Hopeless(s, c) && Enabled(s, a) && !ByConsumer(a)
    ensures Hopeless(Step(s, a), c)
  {
    OthersKeepInv(s, a);
    ConsumerWaits(s, a);
    InvIsBase(s);
    hide Inv, Base, CanLink, Step, Enabled;
    if BySender(a) {
      SendersCannotHelp(s, a);
    } else {
      DecoderCannotHelp(s, a);
    }
  }

  lemma HopelessNeverBreaks(s: State, acts: seq<Action>, t: State)
    requires Resetting(s) && Hopeless(s, s.consumer)
    ensures !Breaks(s, acts, t)
  {
    hide Inv, CanLink, Step, Enabled, ByConsumer, Chain;
    if Leads(OthersNext, s, acts, t) {
      var c := s.consumer;
      var r :| IsRun(OthersNext, r, acts) && r[0] == s && r[|acts|] == t;
      forall x, a, y | Hopeless(x, c) && OthersNext(x, a, y) ensures Hopeless(y, c) {
        StepStaysHopeless(x, a, c);
      }
      Invariant(OthersNext, x => Hopeless(x, c), r, acts, |acts|);
      ClearsUnlinked(t);
    }
  }

  lemma ClearsUnlinked(s: State)
    requires Resetting(s) && Hopeless(s, s.consumer)
    ensures Enabled(s, NextStore(s)) && var u := Step(s, NextStore(s)); Chain(u.list, LinkedFrames(u))
  {
    assert Enabled(s, NextStore(s)) && Clean(s, NextStore(s));
    hide Step, Enabled, Chain;
    StepKeepsChain(s, NextStore(s));
  }

  /** Steps left until `h` is in the list. */
  function LinkDistance(s: State, h: int): nat {
    match s.decoder
    case Linked(_) => 0
    case Notifying(_) => 1
    case Decoding(_) => 2
    case Popped(_) => 3
    case Idle => SendDistance(s, h)
    case Pushed(_) => SendDistance(s, h) + 1
  }

  function SendDistance(s: State, h: int): nat {
    |s.commands|
    + if HasDecode(s.commands) then 3 else if s.claimed == [h] then 5 else if s.claimed == [] then 6 else 7
  }

  ghost predicate Hopeful(s: State, c: Consumer) {
    Waiting(s, c) && CanLink(s, c.h)
  }

  lemma LinkNearer(s: State) returns (a: Action)
    requires Resetting(s) && Hopeful(s, s.consumer) && s.consumer.h !in LinkedFrames(s)
    ensures Enabled(s, a) && !ByConsumer(a) && CanLink(Step(s, a), s.consumer.h)
    ensures LinkDistance(Step(s, a), s.consumer.h) < LinkDistance(s, s.consumer.h)
  {
    var h := s.consumer.h;
    InvIsBase(s);
    if s.decoder.Notifying? {
      a := LinkDecoded;
      LinkWorks(s);
      LinkAddsLast(s);
      hide Inv, Base, Link, Linkable, LinkedFrames;
    } else {
      hide Inv, Exclusive, LinkedFrames;
      a := NearerToLink(s);
    }
  }

  lemma NearerToLink(s: State) returns (a: Action)
    requires Resetting(s) && CanLink(s, s.consumer.h) && s.consumer.h !in LinkedFrames(s)
    requires !s.decoder.Notifying? && |s.claimed| <= 1 && IsHandle(s.list, s.consumer.h)
    ensures Enabled(s, a) && !ByConsumer(a) && CanLink(Step(s, a), s.consumer.h)
    ensures LinkDistance(Step(s, a), s.consumer.h) < LinkDistance(s, s.consumer.h)
  {
    hide LinkedFrames;
    var h := s.consumer.h;
    if s.decoder.Decoding? {
      a := FinishDecode;
    } else if s.decoder.Popped? {
      a := BeginDecode;
    } else if s.decoder.Pushed? {
      a := PushItem;
    } else if HasDecode(s.commands) {
      a := PopCommand;
    } else if s.claimed == [h] && |s.commands| >= QUEUE_SIZE {
      a := PopCommand;
    } else if s.claimed == [h] {
      a := SendDecode;
      FirstDecodeCat(s.commands, Decode(h));
    } else if s.claimed == [] {
      a := ClaimFrame(h);
    } else {
      a := FailSend;
    }
  }

  lemma {:induction false} ComesToBreak(s: State) returns (acts: seq<Action>, t: State)
    requires Resetting(s) && Hopeful(s, s.consumer)
    ensures Leads(OthersNext, s, acts, t) && Resetting(t) && Hopeful(t, s.consumer) && s.consumer.h in LinkedFrames(t)
    decreases LinkDistance(s, s.consumer.h)
  {
    if s.consumer.h in LinkedFrames(s) {
      hide Inv, Leads;
      acts, t := [], s;
      NoStep<State, Action>(OthersNext, s);
    } else {
      var a := LinkNearer(s);
      hide Inv, CanLink, Step, Enabled, LinkDistance, Leads, ByConsumer;
      var u := Step(s, a);
      OthersKeepInv(s, a);
      ConsumerWaits(s, a);
      OneStep(OthersNext, s, a, u);
      acts, t := ComesToBreak(u);
      Join(OthersNext, s, [a], u, acts, t);
      acts := [a] + acts;
    }
  }

  lemma LinkedBreaks(s: State)
    requires Inv(s) && Resetting(s) && s.consumer.h in LinkedFrames(s)
    ensures Enabled(s, NextStore(s)) && var u := Step(s, NextStore(s)); !Chain(u.list, LinkedFrames(u))
  {
    assert Enabled(s, NextStore(s)) && !Clean(s, NextStore(s));
    hide Step, Enabled, Chain;
    StepKeepsChain(s, NextStore(s));
  }

  /** In a reset the list can break exactly when the frame being reset can come to be linked first. */
  lemma ResettingIsUnsafeExactly(s: State)
    requires Inv(s) && Resetting(s)
    ensures CanBreak(s) <==> CanLink(s, s.consumer.h)
  {
    hide Inv, CanLink, Leads, Chain, LinkedFrames, Step, Enabled, Breaks;
    if CanLink(s, s.consumer.h) {
      var acts, t := ComesToBreak(s);
      LinkedBreaks(t);
      assert Breaks(s, acts, t) by { BreaksIs(s, acts, t); }
    } else {
      forall acts, t ensures !Breaks(s, acts, t) {
        HopelessNeverBreaks(s, acts, t);
      }
    }
  }

  lemma BreaksIs(s: State, acts: seq<Action>, t: State)
    requires Leads(OthersNext, s, acts, t) && Enabled(t, NextStore(t))
    requires var u := Step(t, NextStore(t)); !Chain(u.list, LinkedFrames(u))
    ensures Breaks(s, acts, t)
  {
    hide Leads, Chain, LinkedFrames, Step, Enabled;
  }

  /** A frame that was just given back is nowhere else. */
  lemma GivenBackIsFree(s: State)
    requires Exclusive(s) && Enabled(s, GiveBackFrame)
    ensures var h := s.consumer.h;
            && h !in LinkedFrames(s) && InDecoder(s.decoder, h) == 0 && Occurs(DecodeHandles(s.commands), h) == 0
            && s.claimed != [h]
            && !InUse(Step(s, GiveBackFrame).list, h)
  {
    assert Owners(s, s.consumer.h) >= 1;
    var h := s.consumer.h;
    assert Occurs([h], h) == 1;
    OccursIn(LinkedFrames(s), s.consumer.h);
  }

  lemma {:induction false} FirstDecodeOwned(cs: seq<Cmd>)
    requires HasDecode(cs)
    ensures Occurs(DecodeHandles(cs), FirstDecode(cs)) > 0
    decreases |cs|
  {
    if !cs[0].Decode? {
      FirstDecodeOwned(cs[1..]);
      assert [] + DecodeHandles(cs[1..]) == DecodeHandles(cs[1..]);
    }
  }

  lemma GivenBackLinks(s: State)
    requires Exclusive(s) && Enabled(s, GiveBackFrame)
    ensures CanLink(Step(s, GiveBackFrame), s.consumer.h)
            <==> && (s.decoder.Idle? || s.decoder.Pushed?) && !s.outputLocked && !HasDecode(s.commands)
                 && (s.claimed == [] || SendCanFail(s))
  {
    GivenBackIsFree(s);
    OthersKeepLinked(s, GiveBackFrame);
    if HasDecode(s.commands) {
      FirstDecodeOwned(s.commands);
    }
    hide LinkedFrames, InUse, GiveBack, DecodeHandles;
  }

  /** Right after the frame is given back that is: the decoder has nothing else to do, and no other frame
      is claimed whose command has to come first. */
  lemma UnsafeAfterGivingBack(s: State)
    requires Inv(s) && Enabled(s, GiveBackFrame)
    ensures CanBreak(Step(s, GiveBackFrame))
            <==> && (s.decoder.Idle? || s.decoder.Pushed?) && !s.outputLocked && !HasDecode(s.commands)
                 && (s.claimed == [] || SendCanFail(s))
  {
    InvIsBase(s);
    assert Exclusive(s) && Clean(s, GiveBackFrame);
    ResettingBegins(s, GiveBackFrame);
    assert Resetting(Step(s, GiveBackFrame));
    hide Inv, Base, Step, Enabled, CanLink, CanBreak, Exclusive;
    GivenBackLinks(s);
    StepKeepsInv(s, GiveBackFrame);
    ResettingIsUnsafeExactly(Step(s, GiveBackFrame));
  }

  // ---- from the start

  /** A run by such steps ends where the list does not thread the linked frames. */
  ghost predicate ReachesBroken(next: (State, Action, State) -> bool, s: State) {
    exists acts, t :: Leads(next, s, acts, t) && !Chain(t.list, LinkedFrames(t))
  }

  /** A run by such steps ends where unlinking would write outside the pool. */
  ghost predicate ReachesStray(next: (State, Action, State) -> bool, s: State) {
    exists acts, t :: Leads(next, s, acts, t) && t.consumer.Released? && !Followable(t.list, t.consumer.h)
  }

  // ---- runs from the start

  /** Nothing to do and a free frame: the sender and the decoder link it. */
  lemma DecodeFrame(s: State, h: int) returns (acts: seq<Action>, t: State)
    requires s.decoder.Idle? && !s.outputLocked && s.commands == [] && s.claimed == []
    requires IsHandle(s.list, h) && !s.list.frames[h].inUse
    requires Linkable(Claim(s.list, h), h) && Link(Claim(s.list, h), h).Ok?
    ensures Leads(OthersNext, s, acts, t)
    ensures t == s.(list := Link(Claim(s.list, h), h).list, outputLocked := true, decoder := Linked(h))
  {
    var s1 := s.(list := Claim(s.list, h), claimed := [h]);
    var s2 := s1.(commands := [Decode(h)], claimed := []);
    var s3 := s1.(claimed := [], decoder := Decoding(h));
    var s4 := s3.(outputLocked := true, decoder := Notifying(h));
    t := s4.(list := Link(Claim(s.list, h), h).list, decoder := Linked(h));
    OneStep(OthersNext, s, ClaimFrame(h), s1);
    OneStep(OthersNext, s1, SendDecode, s2);
    var popping := PopFrame(s2, h);
    OneStep(OthersNext, s3, FinishDecode, s4);
    OneStep(OthersNext, s4, LinkDecoded, t);
    hide OthersNext, Leads;
    Join(OthersNext, s, [ClaimFrame(h)], s1, [SendDecode], s2);
    acts := [ClaimFrame(h)] + [SendDecode];
    Join(OthersNext, s, acts, s2, popping, s3);
    acts := acts + popping;
    Join(OthersNext, s, acts, s3, [FinishDecode], s4);
    acts := acts + [FinishDecode];
    Join(OthersNext, s, acts, s4, [LinkDecoded], t);
    acts := acts + [LinkDecoded];
  }

  lemma PopFrame(s: State, h: int) returns (acts: seq<Action>)
    requires s.decoder.Idle? && !s.outputLocked && s.commands == [Decode(h)]
    ensures Leads(OthersNext, s, acts, s.(commands := [], decoder := Decoding(h)))
  {
    var t := s.(commands := [], decoder := Decoding(h));
    if s.popsFirst {
      var u := s.(commands := [], decoder := Popped(h));
      OneStep(OthersNext, s, PopCommand, u);
      OneStep(OthersNext, u, BeginDecode, t);
      Join(OthersNext, s, [PopCommand], u, [BeginDecode], t);
      acts := [PopCommand] + [BeginDecode];
    } else {
      OneStep(OthersNext, s, PopCommand, t);
      acts := [PopCommand];
    }
  }

  /** The decoder queues it with its item, and the consumer asks for it and releases the output. */
  lemma TakeFrame(s: State, h: int) returns (acts: seq<Action>, t: State)
    requires s.decoder == Linked(h) && s.consumer.Free? && s.pcmQueue == [] && s.itemQueue == []
    ensures Leads(GuardedNext, s, acts, t)
    ensures t == s.(outputLocked := false, decoder := Idle, consumer := Released(h))
  {
    var s1 := s.(pcmQueue := [h], decoder := Pushed(h));
    var s2 := s.(pcmQueue := [h], itemQueue := [h], decoder := Idle);
    t := s.(outputLocked := false, decoder := Idle, consumer := Released(h));
    OneStep(GuardedNext, s, PushPcm, s1);
    OneStep(GuardedNext, s1, PushItem, s2);
    var call := GetFrame(s2, h);
    hide GuardedNext, Leads;
    Join(GuardedNext, s, [PushPcm], s1, [PushItem], s2);
    Join(GuardedNext, s, [PushPcm] + [PushItem], s2, call, t);
    acts := [PushPcm] + [PushItem] + call;
  }

  lemma GetFrame(s: State, h: int) returns (acts: seq<Action>)
    requires s.decoder.Idle? && s.consumer.Free? && s.pcmQueue == [h] && s.itemQueue == [h]
    ensures Leads(GuardedNext, s, acts,
              s.(outputLocked := false, consumer := Released(h), pcmQueue := [], itemQueue := []))
  {
    var first := LookAtHeads(s, h);
    var last := TakeAndRelease(s, h);
    hide GuardedNext, Leads;
    Join(GuardedNext, s, first, s.(itemQueue := [], consumer := ItemDropped), last,
         s.(outputLocked := false, consumer := Released(h), pcmQueue := [], itemQueue := []));
    acts := first + last;
  }

  lemma LookAtHeads(s: State, h: int) returns (acts: seq<Action>)
    requires s.decoder.Idle? && s.consumer.Free? && s.pcmQueue == [h] && s.itemQueue == [h]
    ensures Leads(GuardedNext, s, acts, s.(itemQueue := [], consumer := ItemDropped))
  {
    hide CanQueue;
    var s1, s2 := s.(consumer := SawItem(h)), s.(consumer := Compared(true));
    var s3 := s.(itemQueue := [], consumer := ItemDropped);
    OneStep(GuardedNext, s, BeginGetPcm, s1);
    OneStep(GuardedNext, s1, ReadPcmHead, s2);
    OneStep(GuardedNext, s2, DropItem, s3);
    hide GuardedNext, Leads;
    Join(GuardedNext, s, [BeginGetPcm], s1, [ReadPcmHead], s2);
    acts := [BeginGetPcm] + [ReadPcmHead];
    Join(GuardedNext, s, acts, s2, [DropItem], s3);
    acts := acts + [DropItem];
  }

  lemma TakeAndRelease(s: State, h: int) returns (acts: seq<Action>)
    requires s.decoder.Idle? && s.pcmQueue == [h]
    ensures Leads(GuardedNext, s.(itemQueue := [], consumer := ItemDropped), acts,
                  s.(outputLocked := false, consumer := Released(h), pcmQueue := [], itemQueue := []))
  {
    hide MayAsk;
    var s3 := s.(itemQueue := [], consumer := ItemDropped);
    var s4 := s3.(pcmQueue := [], consumer := Holding(h));
    var t := s4.(outputLocked := false, consumer := Released(h));
    OneStep(GuardedNext, s3, PopPcm, s4);
    OneStep(GuardedNext, s4, ReleaseOutput, t);
    hide GuardedNext, Leads;
    Join(GuardedNext, s3, [PopPcm], s4, [ReleaseOutput], t);
    acts := [PopPcm] + [ReleaseOutput];
  }

  /** Nothing is linked, queued or claimed, and the decoder and the consumer are at rest. */
  ghost predicate Resting(s: State) {
    && s.decoder.Idle? && s.consumer.Free? && !s.outputLocked
    && s.commands == [] && s.claimed == [] && s.pcmQueue == [] && s.itemQueue == []
  }

  lemma DecodeFrameGuarded(s: State, h: int) returns (acts: seq<Action>, t: State)
    requires s.decoder.Idle? && !s.outputLocked && s.commands == [] && s.claimed == []
    requires IsHandle(s.list, h) && !s.list.frames[h].inUse
    requires Linkable(Claim(s.list, h), h) && Link(Claim(s.list, h), h).Ok?
    ensures Leads(GuardedNext, s, acts, t)
    ensures t == s.(list := Link(Claim(s.list, h), h).list, outputLocked := true, decoder := Linked(h))
  {
    acts, t := DecodeFrame(s, h);
    forall x, a, y | OthersNext(x, a, y) ensures GuardedNext(x, a, y) {
    }
    hide OthersNext, GuardedNext, Leads, Link, Claim, Linkable;
    LeadsAlso(OthersNext, GuardedNext, s, acts, t);
  }

  /** The pool after frame 0 was linked, taken, unlinked and given back. */
  function OnceUsed(l: FrameList): FrameList
    requires l.frames != []
  {
    l.(frames := l.frames[0 := l.frames[0].(inUse := false, auDone := false, pcmOut := false, next := -1, prev := -1)])
  }

  function Only(l: FrameList): FrameList
    requires l.frames != []
  {
    l.(frames := l.frames[0 := l.frames[0].(inUse := true, next := 0, prev := 0)], head := 0, tail := 0)
  }

  lemma LinkOnly(l: FrameList)
    requires l.frames != [] && l.head == l.tail == -1
    ensures Linkable(Claim(l, 0), 0) && Link(Claim(l, 0), 0) == Ok(Only(l))
    ensures Followable(Only(l), 0) && Unlink(Only(l), 0).Ok?
    ensures GiveBack(Unlink(Only(l), 0).list, 0) == OnceUsed(l)
  {
  }

  lemma UnlinkAndGiveBack(s: State, l: FrameList) returns (acts: seq<Action>)
    requires s.consumer == Released(0) && l.frames != [] && l.head == l.tail == -1 && s.list == Only(l)
    ensures Leads(GuardedNext, s, acts, s.(list := OnceUsed(l), consumer := GivenBack(0)))
  {
    LinkOnly(l);
    var u := s.(list := Unlink(s.list, 0).list, consumer := Unlinked(0));
    var t := s.(list := OnceUsed(l), consumer := GivenBack(0));
    hide Only, OnceUsed, MayAsk, Link, Unlink, GiveBack, Claim, Followable, Linkable;
    assert GuardedNext(s, UnlinkConsumed, u) && GuardedNext(u, GiveBackFrame, t);
    hide GuardedNext, Leads;
    OneStep(GuardedNext, s, UnlinkConsumed, u);
    OneStep(GuardedNext, u, GiveBackFrame, t);
    Join(GuardedNext, s, [UnlinkConsumed], u, [GiveBackFrame], t);
    acts := [UnlinkConsumed] + [GiveBackFrame];
  }

  /** One whole round of frame 0, up to the store that gives it back. */
  lemma OneRound(s: State) returns (acts: seq<Action>, t: State)
    requires Resting(s) && s.list.frames != [] && !s.list.frames[0].inUse && s.list.head == s.list.tail == -1
    ensures Leads(GuardedNext, s, acts, t) && t == s.(list := OnceUsed(s.list), consumer := GivenBack(0))
  {
    LinkOnly(s.list);
    hide GuardedNext, Leads, Only, OnceUsed, Link, Unlink, GiveBack, Claim, Followable, Linkable;
    var linking, s1 := DecodeFrameGuarded(s, 0);
    var taking, s2 := TakeFrame(s1, 0);
    var giving := UnlinkAndGiveBack(s2, s.list);
    t := s.(list := OnceUsed(s.list), consumer := GivenBack(0));
    Join(GuardedNext, s, linking, s1, taking, s2);
    Join(GuardedNext, s, linking + taking, s2, giving, t);
    acts := linking + taking + giving;
  }

  /** The pool with frame 0 linked, but its links cleared. */
  function Torn(l: FrameList): FrameList
    requires l.frames != []
  {
    l.(frames := l.frames[0 := l.frames[0].(inUse := true, auDone := false, pcmOut := false, next := -1, prev := -1)],
       head := 0, tail := 0)
  }

  lemma ClearOnly(l: FrameList)
    requires l.frames != []
    ensures SetPrev(SetNext(Only(OnceUsed(l)), 0, -1), 0, -1) == Torn(l) && !Chain(Torn(l), [0])
  {
    assert !Chain(Torn(l), [0]) by {
      assert Succ([0], 0) == 0 && [0][0] == 0;
    }
  }

  lemma ClearLinks(s: State, l: FrameList) returns (acts: seq<Action>)
    requires s.consumer == GivenBack(0) && l.frames != [] && s.list == Only(OnceUsed(l))
    ensures Leads(GuardedNext, s, acts, s.(list := Torn(l), consumer := Free))
  {
    ClearOnly(l);
    var u := s.(list := SetNext(s.list, 0, -1), consumer := NextCleared(0));
    var t := s.(list := Torn(l), consumer := Free);
    hide MayAsk, Torn, Chain;
    assert GuardedNext(s, ClearNext, u) && GuardedNext(u, ClearPrev, t);
    hide GuardedNext, Leads;
    OneStep(GuardedNext, s, ClearNext, u);
    OneStep(GuardedNext, u, ClearPrev, t);
    Join(GuardedNext, s, [ClearNext], u, [ClearPrev], t);
    acts := [ClearNext] + [ClearPrev];
  }

  /** In the middle of its reset frame 0 is claimed, decoded and linked again, and then its links are
      cleared. */
  lemma TearList(s: State) returns (acts: seq<Action>, t: State)
    requires Resting(s) && s.list.frames != [] && !s.list.frames[0].inUse && s.list.head == s.list.tail == -1
    ensures Leads(GuardedNext, s, acts, t)
    ensures t == s.(list := Torn(s.list), outputLocked := true, decoder := Linked(0))
  {
    LinkOnly(OnceUsed(s.list));
    hide GuardedNext, Leads, Torn, Only, Link, Unlink, GiveBack, Claim, Followable, Linkable;
    var round, s1 := OneRound(s);
    var linking, s2 := DecodeFrameGuarded(s1, 0);
    var clearing := ClearLinks(s2, s.list);
    t := s.(list := Torn(s.list), outputLocked := true, decoder := Linked(0));
    Join(GuardedNext, s, round, s1, linking, s2);
    Join(GuardedNext, s, round + linking, s2, clearing, t);
    acts := round + linking + clearing;
  }

  lemma LinkBehindTorn(l: FrameList)
    requires |l.frames| >= 2 && !l.frames[1].inUse
    ensures Linkable(Claim(Torn(l), 1), 1) && Link(Claim(Torn(l), 1), 1).Ok?
    ensures !Followable(Link(Claim(Torn(l), 1), 1).list, 0)
  {
  }

  /** The consumer then takes that frame, while a second one is linked behind it. */
  lemma ComesToStray(s: State) returns (acts: seq<Action>, t: State)
    requires Resting(s) && |s.list.frames| >= 2 && !s.list.frames[0].inUse && !s.list.frames[1].inUse
    requires s.list.head == s.list.tail == -1
    ensures Leads(GuardedNext, s, acts, t) && t.consumer == Released(0) && !Followable(t.list, 0)
  {
    LinkBehindTorn(s.list);
    var tearing, s1 := TearList(s);
    var taking, s2 := TakeFrame(s1, 0);
    var linking;
    linking, t := DecodeFrameGuarded(s2, 1);
    hide GuardedNext, Leads, Link, Claim, Followable, Linkable;
    Join(GuardedNext, s, tearing, s1, taking, s2);
    Join(GuardedNext, s, tearing + taking, s2, linking, t);
    acts := tearing + taking + linking;
  }

  // ---- pools too small for that

  /** With one frame the list is empty or that frame. */
  ghost predicate Tiny(s: State) {
    && Base(s) && |s.list.frames| <= 1 && s.list.head == s.list.tail
    && s.list.head == if LinkedFrames(s) == [] then -1 else 0
  }

  lemma {:induction false} AllZeros(q: seq<int>)
    requires forall i :: 0 <= i < |q| ==> q[i] == 0
    ensures Occurs(q, 0) == |q|
    decreases |q|
  {
    if q != [] {
      AllZeros(q[1..]);
    }
  }

  lemma TinyLinked(s: State)
    requires Base(s) && |s.list.frames| <= 1
    ensures |LinkedFrames(s)| <= |s.list.frames|
    ensures forall i :: 0 <= i < |LinkedFrames(s)| ==> LinkedFrames(s)[i] == 0 && InUse(s.list, 0)
    ensures s.decoder.Notifying? ==> s.decoder.h == 0 && InUse(s.list, 0) && LinkedFrames(s) == []
  {
    var q := LinkedFrames(s);
    forall i | 0 <= i < |q| ensures q[i] == 0 && InUse(s.list, 0) {
      LinkedIsFrame(s, q[i]);
    }
    AllZeros(q);
    assert |q| <= Owners(s, 0) == if InUse(s.list, 0) then 1 else 0;
    if s.decoder.Notifying? {
      assert Owners(s, s.decoder.h) >= Is(s.decoder.h, s.decoder.h) == 1;
      assert InUse(s.list, s.decoder.h);
    }
  }

  lemma StepKeepsTiny(s: State, a: Action)
    requires Tiny(s) && Enabled(s, a)
    ensures Tiny(Step(s, a))
  {
    StepKeepsBase(s, a);
    StepKeepsPool(s, a);
    TinyLinked(s);
    if a.LinkDecoded? {
      LinkAddsLast(s);
      hide Base, LinkedFrames;
    } else if a.UnlinkConsumed? {
      UnlinkDropsHead(s);
      assert LinkedFrames(s)[0] == s.consumer.h;
      hide Base, LinkedFrames;
    } else {
      OthersKeepLinked(s, a);
      OthersKeepEnds(s, a);
      hide Base, LinkedFrames, Step, Enabled;
    }
  }

  lemma OthersKeepEnds(s: State, a: Action)
    requires Enabled(s, a) && !a.LinkDecoded? && !a.UnlinkConsumed?
    ensures Step(s, a).list.head == s.list.head && Step(s, a).list.tail == s.list.tail
  {
  }

  lemma TinyIsFine(s: State)
    requires Tiny(s)
    ensures s.list.frames == [] ==> Chain(s.list, LinkedFrames(s))
    ensures s.consumer.Released? ==> Followable(s.list, s.consumer.h)
  {
    TinyLinked(s);
    if s.consumer.Released? {
      assert LinkedFrames(s)[0] == s.consumer.h;
      LinkedIsFrame(s, s.consumer.h);
    }
  }

  lemma TinyStays(s: State, acts: seq<Action>, t: State)
    requires Tiny(s) && Leads(Next, s, acts, t)
    ensures Tiny(t)
  {
    hide Tiny, Step, Enabled;
    var r :| IsRun(Next, r, acts) && r[0] == s && r[|acts|] == t;
    forall x, a, y | Tiny(x) && Next(x, a, y) ensures Tiny(y) {
      StepKeepsTiny(x, a);
    }
    Invariant(Next, Tiny, r, acts, |acts|);
  }

  lemma GuardedIsNext(s: State, acts: seq<Action>, t: State)
    requires Leads(GuardedNext, s, acts, t)
    ensures Leads(Next, s, acts, t)
  {
    hide Next, Leads, Guarded;
    LeadsAlso(GuardedNext, Next, s, acts, t);
  }

  /** From the start, even with a consumer that keeps to the guard: the list can break as soon as there
      is a frame, and unlinking can write outside the pool as soon as there are two. */
  lemma BrokenFromTheStart(s: State)
    requires Init(s)
    ensures ReachesBroken(GuardedNext, s) <==> s.list.frames != []
    ensures ReachesBroken(Next, s) <==> s.list.frames != []
  {
    hide GuardedNext, Next, Leads, Torn, Chain;
    if s.list.frames != [] {
      var acts, t := TearList(s);
      ClearOnly(s.list);
      assert LinkedFrames(t) == [0];
      GuardedIsNext(s, acts, t);
      assert ReachesBroken(GuardedNext, s) && ReachesBroken(Next, s);
    } else {
      InitInv(s);
      assert Tiny(s);
      NotBroken(s);
    }
  }

  lemma NotBroken(s: State)
    requires Tiny(s) && s.list.frames == []
    ensures !ReachesBroken(GuardedNext, s) && !ReachesBroken(Next, s)
  {
    hide GuardedNext, Next, Leads, Chain, Tiny;
    forall acts, t | Leads(Next, s, acts, t) ensures Chain(t.list, LinkedFrames(t)) {
      TinyStays(s, acts, t);
      PoolStays(s, acts, t);
      TinyIsFine(t);
    }
    forall acts, t | Leads(GuardedNext, s, acts, t) ensures Leads(Next, s, acts, t) {
      GuardedIsNext(s, acts, t);
    }
  }

  lemma PoolStays(s: State, acts: seq<Action>, t: State)
    requires Leads(Next, s, acts, t)
    ensures |t.list.frames| == |s.list.frames|
  {
    hide Step, Enabled;
    var n := |s.list.frames|;
    var r :| IsRun(Next, r, acts) && r[0] == s && r[|acts|] == t;
    forall x: State, a, y: State | |x.list.frames| == n && Next(x, a, y) ensures |y.list.frames| == n {
      StepKeepsPool(x, a);
    }
    Invariant(Next, (x: State) => |x.list.frames| == n, r, acts, |acts|);
  }

  lemma StepKeepsPool(s: State, a: Action)
    requires Enabled(s, a)
    ensures |Step(s, a).list.frames| == |s.list.frames|
  {
    if a.LinkDecoded? {
      LinkKeepsPool(s.list, s.decoder.h);
      hide Link, Linkable;
    } else if a.UnlinkConsumed? {
      UnlinkKeepsPool(s.list, s.consumer.h);
      hide Unlink, Followable;
    } else {
      hide HeadOf, Pop, Started;
    }
  }

  lemma LinkKeepsPool(l: FrameList, h: int)
    requires Linkable(l, h)
    ensures Link(l, h).Ok? ==> |Link(l, h).list.frames| == |l.frames|
  {
  }

  lemma UnlinkKeepsPool(l: FrameList, h: int)
    requires Followable(l, h)
    ensures Unlink(l, h).Ok? ==> |Unlink(l, h).list.frames| == |l.frames|
  {
  }

  lemma StrayFromTheStart(s: State)
    requires Init(s)
    ensures ReachesStray(GuardedNext, s) <==> |s.list.frames| >= 2
    ensures ReachesStray(Next, s) <==> |s.list.frames| >= 2
  {
    hide GuardedNext, Next, Leads, Followable;
    if |s.list.frames| >= 2 {
      var acts, t := ComesToStray(s);
      GuardedIsNext(s, acts, t);
      assert ReachesStray(GuardedNext, s) && ReachesStray(Next, s);
    } else {
      InitInv(s);
      assert Tiny(s);
      NotStray(s);
    }
  }

  lemma NotStray(s: State)
    requires Tiny(s)
    ensures !ReachesStray(GuardedNext, s) && !ReachesStray(Next, s)
  {
    hide GuardedNext, Next, Leads, Followable, Tiny;
    forall acts, t | Leads(Next, s, acts, t) ensures t.consumer.Released? ==> Followable(t.list, t.consumer.h) {
      TinyStays(s, acts, t);
      TinyIsFine(t);
    }
    forall acts, t | Leads(GuardedNext, s, acts, t) ensures Leads(Next, s, acts, t) {
      GuardedIsNext(s, acts, t);
    }
  }
}
