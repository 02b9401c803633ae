/** The ATRAC3plus decoder thread, its command queue with the `queue_not_empty` condition, the
    `output_locked` flag with the `output_consumed` condition, and closing by clearing
    `run_thread`. Every step is one critical section of the source, or one signal sent outside. */
module AtracXdecClose {
  import opened Runs

  datatype Cmd = StartSeq | EndSeq | DecodeAu | Close

  /** Where the decoder thread is. From `CheckOutput` to `Decoding`, except asleep and woken, it
      holds the output mutex. */
  datatype Decoder =
    | LockQueue | QueueAsleep | QueueWoken | FirstCheck(cmd: Cmd) | Execute(cmd: Cmd)
    | LockOutput | CheckOutput | OutputAsleep | OutputWoken | SecondCheck | Decoding
    | Notify | Exited

  /** The closing thread: not closing; `run_thread` cleared; `close` queued but not signalled;
      nothing left to send; flag cleared but not signalled; only joining left. */
  datatype Closer = NotYet | Cleared | CloseQueued | Sent | Unlocked | Joining

  /** `signals` counts the senders between queueing a command and signalling the condition. */
  datatype State = State(
    queue: seq<Cmd>, capacity: nat, signals: nat, runThread: bool, outputLocked: bool,
    decoder: Decoder, closer: Closer)

  datatype Action =
    | Send(cmd: Cmd) | SignalQueue | ClientReleaseOutput
    | ClearRunThread | SendClose | SignalClose | UnlockOutput | SignalOutput
    | TakeCommand | Rewake | CheckRunThread | Dispatch | TakeOutput | TestOutput | RewakeOutput
    | CheckRunThreadAgain | Decode | FinishNotify

  predicate HoldsOutput(d: Decoder) {
    d.CheckOutput? || d.SecondCheck? || d.Decoding?
  }

  predicate Enabled(s: State, a: Action) {
    match a
    case Send(c) => c != Close && |s.queue| < s.capacity
    case SignalQueue => s.signals > 0
    case ClientReleaseOutput => !HoldsOutput(s.decoder)
    case ClearRunThread => s.closer.NotYet?
    case SendClose => s.closer.Cleared?
    case SignalClose => s.closer.CloseQueued?
    case UnlockOutput => s.closer.Sent? && !HoldsOutput(s.decoder)
    case SignalOutput => s.closer.Unlocked?
    case TakeCommand => s.decoder.LockQueue?
    case Rewake => s.decoder.QueueWoken?
    case CheckRunThread => s.decoder.FirstCheck?
    case Dispatch => s.decoder.Execute?
    case TakeOutput => s.decoder.LockOutput?
    case TestOutput => s.decoder.CheckOutput?
    case RewakeOutput => s.decoder.OutputWoken?
    case CheckRunThreadAgain => s.decoder.SecondCheck?
    case Decode => s.decoder.Decoding?
    case FinishNotify => s.decoder.Notify?
  }

  function WakeQueue(d: Decoder): Decoder {
    if d.QueueAsleep? then QueueWoken else d
  }

  function WakeOutput(d: Decoder): Decoder {
    if d.OutputAsleep? then OutputWoken else d
  }

  function Step(s: State, a: Action): State
    requires Enabled(s, a)
  {
    match a
    case Send(c) => s.(queue := s.queue + [c], signals := s.signals + 1)
    case SignalQueue => s.(signals := s.signals - 1, decoder := WakeQueue(s.decoder))
    case ClientReleaseOutput => s.(outputLocked := false, decoder := WakeOutput(s.decoder))
    case ClearRunThread => s.(runThread := false, closer := Cleared)
    case SendClose => if s.queue == [] then s.(queue := [Close], closer := CloseQueued) else s.(closer := Sent)
    case SignalClose => s.(decoder := WakeQueue(s.decoder), closer := Sent)
    case UnlockOutput => s.(outputLocked := false, closer := Unlocked)
    case SignalOutput => s.(decoder := WakeOutput(s.decoder), closer := Joining)
    case TakeCommand =>
      if s.queue == [] then s.(decoder := QueueAsleep)
      else s.(queue := s.queue[1..], decoder := FirstCheck(s.queue[0]))
    case Rewake => s.(decoder := LockQueue)
    case CheckRunThread => s.(decoder := if s.runThread then Execute(s.decoder.cmd) else Exited)
    case Dispatch => s.(decoder := if s.decoder.cmd.DecodeAu? then LockOutput else LockQueue)
    case TakeOutput => s.(decoder := CheckOutput)
    case TestOutput => s.(decoder := if s.outputLocked then OutputAsleep else SecondCheck)
    case RewakeOutput => s.(decoder := CheckOutput)
    case CheckRunThreadAgain => s.(decoder := if s.runThread then Decoding else Exited)
    case Decode => s.(outputLocked := true, decoder := Notify)
    case FinishNotify => s.(decoder := LockQueue)
  }

  predicate Init(s: State) {
    && s.queue == [] && s.capacity > 0 && s.signals == 0 && s.runThread && !s.outputLocked
    && s.decoder == LockQueue && s.closer == NotYet
  }

  /** The decoder has taken its last command: it exits at its next look at `run_thread`. */
  predicate Leaving(s: State) {
    s.decoder.Exited? || (s.decoder.FirstCheck? && !s.runThread)
  }

  /** A decoder asleep on the queue has nothing to take, or somebody is about to wake it. */
  predicate QueueWakePending(s: State) {
    s.decoder.QueueAsleep? ==> s.queue == [] || s.signals > 0 || s.closer.CloseQueued?
  }

  /** A decoder asleep on the output sees it locked, or the closer is about to wake it. */
  predicate OutputWakePending(s: State) {
    s.decoder.OutputAsleep? ==> s.outputLocked || s.closer.Unlocked?
  }

  predicate CloseDecided(c: Closer) {
    c.CloseQueued? || c.Sent? || c.Unlocked? || c.Joining?
  }

  predicate Inv(s: State) {
    && QueueWakePending(s) && OutputWakePending(s)
    && s.runThread == s.closer.NotYet?
    && (CloseDecided(s.closer) ==> s.queue != [] || Leaving(s))
    && (s.runThread ==> Close !in s.queue && s.decoder != FirstCheck(Close) && !s.decoder.Exited?)
    && s.decoder != Execute(Close)
    && (s.decoder.SecondCheck? || s.decoder.Decoding? || s.decoder.OutputWoken? ==> !s.outputLocked)
    && (s.closer.Unlocked? || s.closer.Joining? ==> !s.outputLocked && !s.decoder.Decoding?)
  }

  lemma InitInv(s: State)
    requires Init(s)
    ensures Inv(s)
  {
  }

  lemma StepKeepsInv(s: State, a: Action)
    requires Inv(s) && Enabled(s, a)
    ensures Inv(Step(s, a))
  {
  }

  predicate Next(s: State, a: Action, t: State) {
    Enabled(s, a) && t == Step(s, a)
  }

  lemma RunKeepsInv(r: seq<State>, acts: seq<Action>, k: nat)
    requires IsRun(Next, r, acts) && Inv(r[0]) && k < |r|
    ensures Inv(r[k])
  {
    hide Inv, Step, Enabled;
    forall s, a, t | Inv(s) && Next(s, a, t) ensures Inv(t) {
      StepKeepsInv(s, a);
    }
    Invariant(Next, Inv, r, acts, k);
  }

  /** In every interleaving no wake-up is lost on either condition, and the command switch never
      meets `close`, for which it has no branch. */
  lemma DecoderIsSafe(r: seq<State>, acts: seq<Action>, k: nat)
    requires IsRun(Next, r, acts) && Init(r[0]) && k < |r|
    ensures QueueWakePending(r[k]) && OutputWakePending(r[k])
    ensures r[k].decoder != Execute(Close)
  {
    InitInv(r[0]);
    RunKeepsInv(r, acts, k);
  }

  predicate ByDecoder(a: Action) {
    a.TakeCommand? || a.Rewake? || a.CheckRunThread? || a.Dispatch? || a.TakeOutput? || a.TestOutput?
    || a.RewakeOutput? || a.CheckRunThreadAgain? || a.Decode? || a.FinishNotify?
  }

  predicate ByCloser(a: Action) {
    a.SendClose? || a.SignalClose? || a.UnlockOutput? || a.SignalOutput?
  }

  /** Steps left until the decoder next looks into the queue. With commands queued it will find one
      there; with none, every signal still on its way may wake it for nothing. */
  function QueueRank(s: State): nat {
    match s.decoder
    case LockQueue => 3
    case QueueAsleep => if s.queue == [] then 2 else 5
    case QueueWoken => if s.queue == [] then 5 else 4
    case Notify => 6
    case Execute(c) => if c == DecodeAu then 14 else 6
    case LockOutput => 13
    case CheckOutput => if s.outputLocked then 12 else 9
    case OutputAsleep => 11
    case OutputWoken => 10
    case SecondCheck => 8
    case Decoding => 7
    case _ => 0
  }

  function DecoderRank(s: State): nat {
    if s.decoder.Exited? then 0
    else if s.decoder.FirstCheck? then 1
    else QueueRank(s) + if s.queue == [] then 4 * s.signals + 20 else 1
  }

  function CloserRank(c: Closer): nat {
    match c
    case NotYet => 5
    case Cleared => 4
    case CloseQueued => 3
    case Sent => 2
    case Unlocked => 1
    case Joining => 0
  }

  function Rank(s: State): nat {
    DecoderRank(s) + CloserRank(s.closer)
  }

  /** Once `run_thread` is cleared every step of the decoder or the closer brings the end nearer,
      and no step of a sender or a client moves it away. */
  lemma RankDecreases(s: State, a: Action)
    requires Inv(s) && Enabled(s, a) && !s.runThread
    ensures !Step(s, a).runThread
    ensures if ByDecoder(a) || ByCloser(a) then Rank(Step(s, a)) < Rank(s) else Rank(Step(s, a)) <= Rank(s)
  {
  }

  /** The step that brings the end nearer: the closer's, the decoder's, or the signal that a sender
      still owes. */
  function NextStep(s: State): Action {
    match s.closer
    case Cleared => SendClose
    case CloseQueued => SignalClose
    case Unlocked => SignalOutput
    case _ =>
      if s.closer.Sent? && !HoldsOutput(s.decoder) then UnlockOutput
      else match s.decoder
        case LockQueue => TakeCommand
        case QueueAsleep => SignalQueue
        case QueueWoken => Rewake
        case FirstCheck(_) => CheckRunThread
        case Execute(_) => Dispatch
        case LockOutput => TakeOutput
        case CheckOutput => TestOutput
        case OutputWoken => RewakeOutput
        case SecondCheck => CheckRunThreadAgain
        case Decoding => Decode
        case _ => FinishNotify
  }

  /** No reachable state leaves the decoder waiting: until it has exited and the closer has only to
      join it, a step is possible that brings the end nearer. */
  lemma NeverStuck(s: State)
    requires Inv(s) && !s.runThread && Rank(s) > 0
    ensures Enabled(s, NextStep(s)) && Rank(Step(s, NextStep(s))) < Rank(s)
  {
  }

  /** A step of the decoder or the closer. */
  predicate Moves(s: State, a: Action) {
    ByDecoder(a) || ByCloser(a)
  }

  predicate Closing(s: State) {
    Inv(s) && !s.runThread
  }

  /** Every run that continues after closing has begun, whatever senders and clients do meanwhile,
      holds at most `Rank` steps of the decoder and the closer; once it holds that many, the decoder
      has exited. With `NeverStuck` this is termination under fair scheduling. */
  lemma CloseTerminates(r: seq<State>, acts: seq<Action>)
    requires IsRun(Next, r, acts) && Closing(r[0])
    ensures Closing(r[|acts|]) && Count(r, acts, Moves) + Rank(r[|acts|]) <= Rank(r[0])
    ensures Count(r, acts, Moves) == Rank(r[0]) ==> r[|acts|].decoder.Exited? && r[|acts|].closer.Joining?
  {
    hide Inv, Step, Enabled, ByDecoder, ByCloser, DecoderRank;
    forall s, a, t | Closing(s) && Next(s, a, t)
      ensures Closing(t) && Rank(t) + One(Moves(s, a)) <= Rank(s) + One(Never(s, a))
    {
      StepKeepsInv(s, a);
      RankDecreases(s, a);
    }
    Balance(Next, Closing, Moves, Never, s => Rank(s), r, acts);
    NeverCounted<State, Action>(r, acts);
    ZeroRankIsTheEnd(r[|acts|]);
  }

  lemma ZeroRankIsTheEnd(s: State)
    ensures Rank(s) == 0 ==> s.decoder.Exited? && s.closer.Joining?
  {
  }

  function InProgress(s: State): nat {
    if s.decoder.Decoding? then 1 else 0
  }

  predicate CompletesDecode(s: State, a: Action) {
    a.Decode?
  }

  /** After `run_thread` is cleared no decode begins: the decodes that complete, plus the one still
      in progress at the end, are exactly the one in progress at the start, if there was one. */
  lemma OnlyTheDecodeInProgress(r: seq<State>, acts: seq<Action>)
    requires IsRun(Next, r, acts) && Closing(r[0])
    ensures Closing(r[|acts|]) && Count(r, acts, CompletesDecode) + InProgress(r[|acts|]) == InProgress(r[0])
  {
    hide Inv, Step, Enabled, InProgress;
    forall s, a, t | Closing(s) && Next(s, a, t)
      ensures Closing(t) && InProgress(t) + One(CompletesDecode(s, a)) == InProgress(s)
    {
      StepKeepsInv(s, a);
      StepDecodes(s, a);
    }
    Balance(Next, Closing, CompletesDecode, Never, s => InProgress(s), r, acts);
    Balance(Next, Closing, Never, CompletesDecode, s => 0 - InProgress(s), r, acts);
    NeverCounted<State, Action>(r, acts);
  }

  lemma StepDecodes(s: State, a: Action)
    requires Closing(s) && Enabled(s, a)
    ensures !Step(s, a).runThread
    ensures InProgress(Step(s, a)) + One(CompletesDecode(s, a)) == InProgress(s)
  {
  }

  // ---- commands and outputs

  /** What a step adds to the queue and what it takes from it. */
  function Queued(s: State, a: Action): seq<Cmd> {
    match a
    case Send(c) => [c]
    case SendClose => if s.queue == [] then [Close] else []
    case _ => []
  }

  function Taken(s: State, a: Action): seq<Cmd> {
    if a.TakeCommand? && s.queue != [] then [s.queue[0]] else []
  }

  lemma StepInOrder(s: State, a: Action)
    requires Enabled(s, a)
    ensures Taken(s, a) + Step(s, a).queue == s.queue + Queued(s, a)
  {
  }

  /** Commands are taken in the order in which they were queued, and none is lost. */
  lemma CommandsInOrder(r: seq<State>, acts: seq<Action>)
    requires IsRun(Next, r, acts)
    ensures Collect(r, acts, Taken) + r[|acts|].queue == r[0].queue + Collect(r, acts, Queued)
  {
    hide Step, Enabled, Queued, Taken;
    forall s, a, t | Next(s, a, t) ensures Taken(s, a) + t.queue == s.queue + Queued(s, a) {
      StepInOrder(s, a);
    }
    QueueInOrder(Next, (s: State) => s.queue, Queued, Taken, r, acts);
  }

  /** A step that releases the output. */
  predicate Releases(s: State, a: Action) {
    a.ClientReleaseOutput? || a.UnlockOutput?
  }

  function Locked(s: State): nat {
    if s.outputLocked then 1 else 0
  }

  lemma StepConsumes(s: State, a: Action)
    requires Inv(s) && Enabled(s, a)
    ensures One(CompletesDecode(s, a)) + Locked(s) <= Locked(Step(s, a)) + One(Releases(s, a))
  {
  }

  /** No output is overwritten: between two decodes the output is released. */
  lemma OutputsAreConsumed(r: seq<State>, acts: seq<Action>)
    requires IsRun(Next, r, acts) && Inv(r[0])
    ensures Count(r, acts, CompletesDecode) + Locked(r[0]) <= Count(r, acts, Releases) + Locked(r[|acts|])
  {
    hide Inv, Step, Enabled, CompletesDecode, Releases, Locked;
    forall s, a, t | Inv(s) && Next(s, a, t)
      ensures Inv(t) && 0 - Locked(t) + One(CompletesDecode(s, a)) <= 0 - Locked(s) + One(Releases(s, a))
    {
      StepKeepsInv(s, a);
      StepConsumes(s, a);
    }
    Balance(Next, Inv, CompletesDecode, Releases, s => 0 - Locked(s), r, acts);
  }
}
