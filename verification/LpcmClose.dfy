/** The LPCM decoder thread, its command queue and semaphore, the `output_locked` condition, and
    how closing brings the thread to its end. Every step is one critical section of the source,
    or one call on the semaphore or the condition. */
module LpcmClose {
  import opened Runs

  datatype Cmd = StartSeq | EndSeq | DecodeAu | Close

  /** Where the decoder thread is. `LockOutput` to `Pop` it has taken a ticket; at `Check`, `Pop`
      and `Exec` it holds the output mutex; `Asleep` it waits on the condition. */
  datatype Decoder =
    | Acquire | LockOutput | Check | Asleep | Woken | Pop | Exec(cmd: Cmd) | Notify | Exited

  /** A sender between queueing its command and releasing the semaphore. */
  datatype Sender = NoSend | Gap

  /** The closing thread: not closing; with `close` queued but its ticket not released; with
      `close` at the front; with the output released and only joining left. */
  datatype Closer = NotYet | CloseGap | Placed | Joining

  datatype State = State(
    queue: seq<Cmd>, capacity: nat, tickets: nat, outputLocked: bool,
    decoder: Decoder, sender: Sender, closer: Closer)

  datatype Action =
    | Send(cmd: Cmd) | ReleaseTicket
    | CloseWhenEmpty | CloseTicket | CloseByRewriting | CloseReleaseOutput
    | ClientReleaseOutput
    | TakeTicket | TakeMutex | CheckOutput | Rewake | PopCommand | Execute | FinishNotify

  /** The decoder has the output mutex. */
  predicate HoldsMutex(d: Decoder) {
    d.Check? || d.Pop? || d.Exec?
  }

  /** Nobody has the queue-size mutex. */
  predicate QueueFree(s: State) {
    s.sender.NoSend? && !s.closer.CloseGap?
  }

  predicate Enabled(s: State, a: Action) {
    match a
    case Send(c) => c != Close && QueueFree(s) && |s.queue| < s.capacity
    case ReleaseTicket => s.sender.Gap?
    case CloseWhenEmpty => s.closer.NotYet? && QueueFree(s) && s.queue == []
    case CloseTicket => s.closer.CloseGap?
    case CloseByRewriting => s.closer.NotYet? && QueueFree(s) && s.queue != []
    case CloseReleaseOutput => s.closer.Placed? && !HoldsMutex(s.decoder)
    case ClientReleaseOutput => !HoldsMutex(s.decoder)
    case TakeTicket => s.decoder.Acquire? && 0 < s.tickets
    case TakeMutex => s.decoder.LockOutput?
    case CheckOutput => s.decoder.Check?
    case Rewake => s.decoder.Woken?
    case PopCommand => s.decoder.Pop? && s.queue != []
    case Execute => s.decoder.Exec?
    case FinishNotify => s.decoder.Notify?
  }

  function AllClose(n: nat): seq<Cmd> {
    seq(n, _ => Close)
  }

  /** `release_output`: clears the flag and signals the condition. */
  function ReleaseOutput(s: State): State {
    s.(outputLocked := false, decoder := if s.decoder.Asleep? then Woken else s.decoder)
  }

  function Step(s: State, a: Action): State
    requires Enabled(s, a)
  {
    match a
    case Send(c) => s.(queue := s.queue + [c], sender := Gap)
    case ReleaseTicket => s.(tickets := s.tickets + 1, sender := NoSend)
    case CloseWhenEmpty => s.(queue := [Close], closer := CloseGap)
    case CloseTicket => s.(tickets := s.tickets + 1, closer := Placed)
    case CloseByRewriting => s.(queue := AllClose(|s.queue|), closer := Placed)
    case CloseReleaseOutput => ReleaseOutput(s).(closer := Joining)
    case ClientReleaseOutput => ReleaseOutput(s)
    case TakeTicket => s.(tickets := s.tickets - 1, decoder := LockOutput)
    case TakeMutex => s.(decoder := Check)
    case CheckOutput => s.(decoder := if s.outputLocked then Asleep else Pop)
    case Rewake => s.(decoder := Check)
    case PopCommand => s.(queue := s.queue[1..], decoder := Exec(s.queue[0]))
    case Execute =>
      match s.decoder.cmd {
        case DecodeAu => s.(outputLocked := true, decoder := Notify)
        case Close => s.(decoder := Exited)
        case _ => s.(decoder := Acquire)
      }
    case FinishNotify => s.(decoder := Acquire)
  }

  predicate Init(s: State) {
    && s.queue == [] && s.tickets == 0 && !s.outputLocked && 0 < s.capacity
    && s.decoder == Acquire && s.sender == NoSend && s.closer == NotYet
  }

  predicate HoldsTicket(d: Decoder) {
    d.LockOutput? || d.Check? || d.Asleep? || d.Woken? || d.Pop?
  }

  /** Semaphore count plus held ticket is the queue length, less the command of a sender, or the
      `close`, whose ticket is still to be released. */
  predicate TicketsMatch(s: State) {
    s.tickets + (if HoldsTicket(s.decoder) then 1 else 0) + (if QueueFree(s) then 0 else 1) == |s.queue|
  }

  predicate Ending(d: Decoder) {
    d == Exec(Close) || d.Exited?
  }

  /** Once placed, `close` is the next command until the decoder has taken it. */
  predicate CloseIsNext(s: State) {
    !s.closer.NotYet? && !Ending(s.decoder) ==>
      s.queue != [] && s.queue[0] == Close && (s.sender.Gap? ==> |s.queue| >= 2)
  }

  predicate Inv(s: State) {
    && TicketsMatch(s) && CloseIsNext(s)
    && !(s.sender.Gap? && s.closer.CloseGap?)
    && (s.decoder.Asleep? ==> s.outputLocked)                    // no wake-up is lost
    && (s.decoder.Woken? || s.decoder.Pop? || s.decoder.Exec? ==> !s.outputLocked)
    && (s.closer.Joining? ==> !s.outputLocked && (s.decoder.Exec? ==> s.decoder.cmd == Close))
    && (s.closer.NotYet? ==> !Ending(s.decoder) && Close !in s.queue)
  }

  lemma InitInv(s: State)
    requires Init(s)
    ensures Inv(s)
  {
  }

  predicate ByDecoder(a: Action) {
    a.TakeTicket? || a.TakeMutex? || a.CheckOutput? || a.Rewake? || a.PopCommand? || a.Execute? || a.FinishNotify?
  }

  predicate ByCloser(a: Action) {
    a.CloseWhenEmpty? || a.CloseTicket? || a.CloseByRewriting? || a.CloseReleaseOutput?
  }

  lemma SendersKeepInv(s: State, a: Action)
    requires Inv(s) && Enabled(s, a) && !ByDecoder(a) && !ByCloser(a)
    ensures Inv(Step(s, a))
  {
  }

  lemma CloserKeepsInv(s: State, a: Action)
    requires Inv(s) && Enabled(s, a) && ByCloser(a)
    ensures Inv(Step(s, a))
  {
  }

  lemma DecoderKeepsInv(s: State, a: Action)
    requires Inv(s) && Enabled(s, a) && ByDecoder(a)
    ensures Inv(Step(s, a))
  {
  }

  lemma StepKeepsInv(s: State, a: Action)
    requires Inv(s) && Enabled(s, a)
    ensures Inv(Step(s, a))
  {
    hide Inv, Step, Enabled;
    if ByDecoder(a) {
      DecoderKeepsInv(s, a);
    } else if ByCloser(a) {
      CloserKeepsInv(s, a);
    } else {
      SendersKeepInv(s, a);
    }
  }

  predicate Next(s: State, a: Action, t: State) {
    Enabled(s, a) && t == Step(s, a)
  }

  lemma RunKeepsInv(r: seq<State>, acts: seq<Action>, k: nat)
    requires IsRun(Next, r, acts) && Inv(r[0]) && k < |r|
    ensures Inv(r[k])
  {
    hide Inv, Step, Enabled;
    forall s, a, t | Inv(s) && Next(s, a, t) ensures Inv(t) {
      StepKeepsInv(s, a);
    }
    Invariant(Next, Inv, r, acts, k);
  }

  /** In every interleaving the decoder finds a command whenever it goes to take one, and it sleeps
      only while the output is locked. */
  lemma DecoderIsSafe(r: seq<State>, acts: seq<Action>, k: nat)
    requires IsRun(Next, r, acts) && Init(r[0]) && k < |r|
    ensures r[k].decoder.Pop? ==> r[k].queue != []
    ensures r[k].decoder.Asleep? ==> r[k].outputLocked
    ensures QueueFree(r[k]) ==> r[k].tickets + (if HoldsTicket(r[k].decoder) then 1 else 0) == |r[k].queue|
  {
    InitInv(r[0]);
    RunKeepsInv(r, acts, k);
  }

  /** How many steps the decoder still has to take once `close` is next. */
  function DecoderRank(s: State): nat {
    match s.decoder
    case Exec(c) => if c == Close then 1 else 10
    case Notify => 9
    case Acquire => 8
    case LockOutput => 7
    case Check => if s.outputLocked then 6 else 3
    case Asleep => 5
    case Woken => 4
    case Pop => 2
    case Exited => 0
  }

  function CloserRank(s: State): nat {
    match s.closer case NotYet => 3 case CloseGap => 2 case Placed => 1 case Joining => 0
  }

  function Rank(s: State): nat {
    DecoderRank(s) + CloserRank(s)
  }

  /** After closing has begun every step of the decoder or the closer brings the end nearer, and no
      step of anybody else moves it away. */
  lemma RankDecreases(s: State, a: Action)
    requires Inv(s) && Enabled(s, a) && !s.closer.NotYet?
    ensures !Step(s, a).closer.NotYet?
    ensures if ByDecoder(a) || ByCloser(a) then Rank(Step(s, a)) < Rank(s) else Rank(Step(s, a)) <= Rank(s)
  {
  }

  /** The step that the closer or the decoder can take next. */
  function NextStep(s: State): Action {
    if s.closer.CloseGap? then CloseTicket
    else if s.closer.Placed? && !HoldsMutex(s.decoder) then CloseReleaseOutput
    else match s.decoder
      case Acquire => TakeTicket
      case LockOutput => TakeMutex
      case Check => CheckOutput
      case Woken => Rewake
      case Pop => PopCommand
      case Exec(_) => Execute
      case _ => FinishNotify
  }

  /** After closing has begun one of the two can always move, until the decoder has exited and
      the closer has nothing left but to join it. */
  lemma NeverStuck(s: State)
    requires Inv(s) && !s.closer.NotYet? && Rank(s) > 0
    ensures Enabled(s, NextStep(s)) && (ByDecoder(NextStep(s)) || ByCloser(NextStep(s)))
  {
  }

  /** A step of the decoder or the closer. */
  predicate Moves(s: State, a: Action) {
    ByDecoder(a) || ByCloser(a)
  }

  predicate Closing(s: State) {
    Inv(s) && !s.closer.NotYet?
  }

  /** Every run that continues after closing has begun, whatever senders and clients do meanwhile,
      holds at most `Rank` steps of the decoder and the closer; once it holds that many, the decoder
      has exited. With `NeverStuck` this is termination under fair scheduling. */
  lemma CloseTerminates(r: seq<State>, acts: seq<Action>)
    requires IsRun(Next, r, acts) && Closing(r[0])
    ensures Closing(r[|acts|]) && Count(r, acts, Moves) + Rank(r[|acts|]) <= Rank(r[0])
    ensures Count(r, acts, Moves) == Rank(r[0]) ==> r[|acts|].decoder.Exited? && r[|acts|].closer.Joining?
  {
    hide Inv, Step, Enabled, ByDecoder, ByCloser, DecoderRank;
    forall s, a, t | Closing(s) && Next(s, a, t)
      ensures Closing(t) && Rank(t) + One(Moves(s, a)) <= Rank(s) + One(Never(s, a))
    {
      StepKeepsInv(s, a);
      RankDecreases(s, a);
    }
    Balance(Next, Closing, Moves, Never, s => Rank(s), r, acts);
    NeverCounted<State, Action>(r, acts);
    ZeroRankIsTheEnd(r[|acts|]);
  }

  lemma ZeroRankIsTheEnd(s: State)
    ensures Rank(s) == 0 ==> s.decoder.Exited? && s.closer.Joining?
  {
  }

  /** From any reachable state closing can begin, as soon as no sender is between queueing its
      command and releasing its ticket. */
  lemma CloseCanBegin(s: State)
    requires Inv(s) && s.closer.NotYet?
    ensures QueueFree(s) ==> Enabled(s, CloseWhenEmpty) || Enabled(s, CloseByRewriting)
    ensures !QueueFree(s) ==> Enabled(s, ReleaseTicket) && QueueFree(Step(s, ReleaseTicket))
  {
  }

  // ---- commands and outputs

  /** What a step adds to the queue and what it takes from it. */
  function Queued(s: State, a: Action): seq<Cmd> {
    match a
    case Send(c) => [c]
    case CloseWhenEmpty => [Close]
    case _ => []
  }

  function Taken(s: State, a: Action): seq<Cmd> {
    if a.PopCommand? && s.queue != [] then [s.queue[0]] else []
  }

  lemma StepInOrder(s: State, a: Action)
    requires Enabled(s, a) && !a.CloseByRewriting?
    ensures Taken(s, a) + Step(s, a).queue == s.queue + Queued(s, a)
  {
  }

  predicate NextInOrder(s: State, a: Action, t: State) {
    Next(s, a, t) && !a.CloseByRewriting?
  }

  /** Commands are taken in the order in which they were queued, and none is lost, unless closing
      rewrites them. */
  lemma CommandsInOrder(r: seq<State>, acts: seq<Action>)
    requires IsRun(NextInOrder, r, acts)
    ensures Collect(r, acts, Taken) + r[|acts|].queue == r[0].queue + Collect(r, acts, Queued)
  {
    hide Step, Enabled, Queued, Taken;
    forall s, a, t | NextInOrder(s, a, t) ensures Taken(s, a) + t.queue == s.queue + Queued(s, a) {
      StepInOrder(s, a);
    }
    QueueInOrder(NextInOrder, (s: State) => s.queue, Queued, Taken, r, acts);
  }

  /** A step that releases the output. */
  predicate Releases(s: State, a: Action) {
    a.ClientReleaseOutput? || a.CloseReleaseOutput?
  }

  function Locked(s: State): nat {
    if s.outputLocked then 1 else 0
  }

  predicate CompletesDecode(s: State, a: Action) {
    a.Execute? && s.decoder == Exec(DecodeAu)
  }

  lemma StepConsumes(s: State, a: Action)
    requires Inv(s) && Enabled(s, a)
    ensures One(CompletesDecode(s, a)) + Locked(s) <= Locked(Step(s, a)) + One(Releases(s, a))
  {
  }

  /** No output is overwritten: between two decodes the output is released. */
  lemma OutputsAreConsumed(r: seq<State>, acts: seq<Action>)
    requires IsRun(Next, r, acts) && Inv(r[0])
    ensures Count(r, acts, CompletesDecode) + Locked(r[0]) <= Count(r, acts, Releases) + Locked(r[|acts|])
  {
    hide Inv, Step, Enabled, CompletesDecode, Releases, Locked;
    forall s, a, t | Inv(s) && Next(s, a, t)
      ensures Inv(t) && 0 - Locked(t) + One(CompletesDecode(s, a)) <= 0 - Locked(s) + One(Releases(s, a))
    {
      StepKeepsInv(s, a);
      StepConsumes(s, a);
    }
    Balance(Next, Inv, CompletesDecode, Releases, s => 0 - Locked(s), r, acts);
  }
}
