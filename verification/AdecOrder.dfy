/** What passes through the hand-over of the audio decoder comes out in the order in which it went in:
    commands, frames and items, in every interleaving. */
module AdecOrder {
  import opened AdecFrames
  import opened AdecHandshake
  import opened AdecQueues
  import opened Runs

  /** The command that a step queues, and the one that it takes. */
  function Sent(s: State, a: Action): seq<Cmd> {
    if a.SendOther? then [Other] else if a.SendDecode? && s.claimed != [] then [Decode(s.claimed[0])] else []
  }

  function TakenCommand(s: State, a: Action): seq<Cmd> {
    if a.PopCommand? && s.commands != [] then [s.commands[0]] else []
  }

  lemma StepPassesCommands(s: State, a: Action)
    requires Enabled(s, a)
    ensures TakenCommand(s, a) + Step(s, a).commands == s.commands + Sent(s, a)
  {
    if a.PopCommand? {
      assert [s.commands[0]] + s.commands[1..] == s.commands + [];
    } else if a.SendDecode? || a.SendOther? {
      assert [] + (s.commands + Sent(s, a)) == s.commands + Sent(s, a);
    } else {
      OthersLeaveCommands(s, a);
      hide Step, Enabled;
      assert [] + s.commands == s.commands + [];
    }
  }

  lemma OthersLeaveCommands(s: State, a: Action)
    requires Enabled(s, a) && !a.PopCommand? && !a.SendDecode? && !a.SendOther?
    ensures Step(s, a).commands == s.commands
  {
    hide Link, Unlink, Claim, GiveBack, SetNext, SetPrev, Linkable, Followable, IsHandle, HeadOf, Pop;
  }

  lemma CommandsInOrder(r: seq<State>, acts: seq<Action>)
    requires IsRun(Next, r, acts)
    ensures Collect(r, acts, TakenCommand) + r[|acts|].commands == r[0].commands + Collect(r, acts, Sent)
  {
    hide Step, Enabled, Sent, TakenCommand;
    forall s, a, t | Next(s, a, t) ensures TakenCommand(s, a) + t.commands == s.commands + Sent(s, a) {
      StepPassesCommands(s, a);
    }
    QueueInOrder(Next, (s: State) => s.commands, Sent, TakenCommand, r, acts);
  }

  /** The frame that a step puts into the PCM queue, and the one that the consumer takes out. */
  function PushedFrame(s: State, a: Action): seq<int> {
    if a.PushPcm? && s.decoder.Linked? then [s.decoder.h] else []
  }

  function TakenFrame(s: State, a: Action): seq<int> {
    if a.PopPcm? && s.pcmQueue != [] then [s.pcmQueue[0]] else []
  }

  lemma StepPassesFrames(s: State, a: Action)
    requires Enabled(s, a)
    ensures TakenFrame(s, a) + Step(s, a).pcmQueue == s.pcmQueue + PushedFrame(s, a)
  {
    if a.PushPcm? {
      assert [] + (s.pcmQueue + [s.decoder.h]) == s.pcmQueue + [s.decoder.h];
    } else if a.PopPcm? {
      assert s.pcmQueue != [] ==> [s.pcmQueue[0]] + s.pcmQueue[1..] == s.pcmQueue + [];
    } else {
      OthersLeaveFrames(s, a);
      hide Step, Enabled;
      assert [] + s.pcmQueue == s.pcmQueue + [];
    }
  }

  lemma OthersLeaveFrames(s: State, a: Action)
    requires Enabled(s, a) && !a.PushPcm? && !a.PopPcm?
    ensures Step(s, a).pcmQueue == s.pcmQueue
  {
    hide Link, Unlink, Claim, GiveBack, SetNext, SetPrev, Linkable, Followable, IsHandle, HeadOf, Pop, Started;
  }

  lemma FramesInOrder(r: seq<State>, acts: seq<Action>)
    requires IsRun(Next, r, acts)
    ensures Collect(r, acts, TakenFrame) + r[|acts|].pcmQueue == r[0].pcmQueue + Collect(r, acts, PushedFrame)
  {
    hide Step, Enabled, PushedFrame, TakenFrame;
    forall s, a, t | Next(s, a, t) ensures TakenFrame(s, a) + t.pcmQueue == s.pcmQueue + PushedFrame(s, a) {
      StepPassesFrames(s, a);
    }
    QueueInOrder(Next, (s: State) => s.pcmQueue, PushedFrame, TakenFrame, r, acts);
  }

  /** The item that a step queues, and the one that is fetched, or dropped with its frame. */
  function PushedItem(s: State, a: Action): seq<int> {
    if a.PushItem? && s.decoder.Pushed? then [s.decoder.h] else []
  }

  function TakenItem(s: State, a: Action): seq<int> {
    if (a.GetItem? || (a.DropItem? && s.consumer == Compared(true))) && s.itemQueue != [] then [s.itemQueue[0]] else []
  }

  lemma StepPassesItems(s: State, a: Action)
    requires Enabled(s, a)
    ensures TakenItem(s, a) + Step(s, a).itemQueue == s.itemQueue + PushedItem(s, a)
  {
    if a.PushItem? {
      assert [] + (s.itemQueue + [s.decoder.h]) == s.itemQueue + [s.decoder.h];
    } else if a.GetItem? || a.DropItem? {
      assert s.itemQueue != [] ==> [s.itemQueue[0]] + s.itemQueue[1..] == s.itemQueue + [];
      assert [] + s.itemQueue == s.itemQueue + [];
    } else {
      OthersLeaveItems(s, a);
      hide Step, Enabled;
      assert [] + s.itemQueue == s.itemQueue + [];
    }
  }

  lemma OthersLeaveItems(s: State, a: Action)
    requires Enabled(s, a) && !a.PushItem? && !a.GetItem? && !a.DropItem?
    ensures Step(s, a).itemQueue == s.itemQueue
  {
    hide Link, Unlink, Claim, GiveBack, SetNext, SetPrev, Linkable, Followable, IsHandle, HeadOf, Pop, Started;
  }

  lemma ItemsInOrder(r: seq<State>, acts: seq<Action>)
    requires IsRun(Next, r, acts)
    ensures Collect(r, acts, TakenItem) + r[|acts|].itemQueue == r[0].itemQueue + Collect(r, acts, PushedItem)
  {
    hide Step, Enabled, PushedItem, TakenItem;
    forall s, a, t | Next(s, a, t) ensures TakenItem(s, a) + t.itemQueue == s.itemQueue + PushedItem(s, a) {
      StepPassesItems(s, a);
    }
    QueueInOrder(Next, (s: State) => s.itemQueue, PushedItem, TakenItem, r, acts);
  }

  /** The frame of a decode command, while the decoder has it. */
  function InHand(s: State): seq<int> {
    if s.decoder.Popped? || s.decoder.Decoding? || s.decoder.Notifying? || s.decoder.Linked? then [s.decoder.h] else []
  }

  function Begun(s: State, a: Action): seq<int> {
    if a.PopCommand? && s.commands != [] && s.commands[0].Decode? then [s.commands[0].h] else []
  }

  predicate NoFailure(s: State, a: Action, t: State) {
    Next(s, a, t) && !Fails(s, a)
  }

  lemma StepPassesDecodes(s: State, a: Action)
    requires Enabled(s, a) && !Fails(s, a)
    ensures PushedFrame(s, a) + InHand(Step(s, a)) == InHand(s) + Begun(s, a)
  {
    hide Link, Unlink, Claim, GiveBack, SetNext, SetPrev, Linkable, Followable, IsHandle, HeadOf, Pop;
  }

  /** As long as nothing fails every frame whose command was taken is put into the PCM queue, in that
      order. */
  lemma DecodesInOrder(r: seq<State>, acts: seq<Action>)
    requires IsRun(NoFailure, r, acts)
    ensures Collect(r, acts, PushedFrame) + InHand(r[|acts|]) == InHand(r[0]) + Collect(r, acts, Begun)
  {
    hide Step, Enabled, PushedFrame, Begun, InHand, Fails;
    forall s, a, t | NoFailure(s, a, t) ensures PushedFrame(s, a) + InHand(t) == InHand(s) + Begun(s, a) {
      StepPassesDecodes(s, a);
    }
    QueueInOrder(NoFailure, InHand, Begun, PushedFrame, r, acts);
  }
}
