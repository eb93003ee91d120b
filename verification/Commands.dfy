/**
 One hardware command, from the client that makes it to the worker that applies
 it, with a timeout, a shutdown and a crash able to strike between any two steps.
 Every step is one atomic operation of one thread.
 */
module Commands {
  import opened Wrappers

  datatype Phase = Queued | Applying | Applied | Rejected | Cancelled
  {
    predicate Terminal() { Applied? || Rejected? || Cancelled? }
  }

  /** A recorded result: success, a refusal by the device, or nobody knows. */
  datatype Verdict = Fine | Refused | Unknown

  /** Where the envelope is and what its owner does next. */
  datatype Worker =
    | Unsent
    | InQueue
    | Taken
    | Checked
    | Entering
    | Inside
    | Returned(verdict: Verdict)
    | Written(verdict: Verdict)
    | Stored(verdict: Verdict)
    | Dropping
    | DropLoading
    | DropWriting
    | DropStoring
    | Gone

  datatype Answer = Success | Failure(verdict: Verdict) | NotApplied | StillPending | Unavailable

  datatype Client =
    | Making
    | Waiting
    | TimedOut
    | Reading(seen: Phase)
    | Told(answer: Answer)

  datatype State = State(
    phase: Phase,
    outcome: Option<Verdict>,
    worker: Worker,
    client: Client,
    reply: Option<Verdict>,
    /** Whether the device setter was ever entered, and what it did if it returned. */
    entered: bool,
    fate: Option<bool>)
  {
    /** The compare-and-swap from queued to cancelled. */
    function Cancel(): State
    {
      if phase.Queued? then this.(phase := Cancelled) else this
    }
  }

  function Made(): State
  {
    State(Queued, None, Unsent, Making, None, false, None)
  }

  datatype Action =
    | Send
    | SendFails
    | Take
    | Check(late: bool)
    | Begin
    | Enter
    | Return(ok: bool)
    | Write
    | Store
    | Reply
    | Crash
    | Drain
    | DropCancel
    | DropLoad
    | DropWrite
    | DropStore
    | Hear
    | TimeOut
    | LoadPhase
    | LoadOutcome

  predicate Enabled(s: State, a: Action)
  {
    match a
    case Send | SendFails => s.client.Making?
    case Take | Drain => s.worker.InQueue?
    case Check(_) => s.worker.Taken?
    case Begin => s.worker.Checked?
    case Enter => s.worker.Entering?
    case Return(_) => s.worker.Inside?
    case Write => s.worker.Returned?
    case Store => s.worker.Written?
    case Reply => s.worker.Stored?
    case Crash => s.worker.Taken? || s.worker.Checked? || s.worker.Entering? || s.worker.Inside? || s.worker.Returned?
    case DropCancel => s.worker.Dropping?
    case DropLoad => s.worker.DropLoading?
    case DropWrite => s.worker.DropWriting?
    case DropStore => s.worker.DropStoring?
    case Hear => s.client.Waiting? && s.reply.Some?
    case TimeOut => s.client.Waiting?
    case LoadPhase => s.client.TimedOut?
    case LoadOutcome => s.client.Reading?
  }

  function Step(s: State, a: Action): State
    requires Enabled(s, a)
  {
    match a
    case Send => s.(client := Waiting, worker := InQueue)
    case SendFails => s.(client := Told(Unavailable), worker := Dropping)
    case Take => s.(worker := Taken)
    case Drain => s.(worker := Dropping)
    case Check(late) => (if late then s.Cancel() else s).(worker := Checked)
    case Begin => if s.phase.Queued? then s.(phase := Applying, worker := Entering) else s.(worker := Dropping)
    case Enter => s.(worker := Inside, entered := true)
    case Return(ok) => s.(worker := Returned(if ok then Fine else Refused), fate := Some(ok))
    case Write => s.(worker := Written(s.worker.verdict), outcome := Some(s.worker.verdict))
    case Store => s.(worker := Stored(s.worker.verdict), phase := if s.worker.verdict.Fine? then Applied else Rejected)
    case Reply => s.(worker := Dropping, reply := Some(s.worker.verdict))
    case Crash => s.(worker := Dropping)
    case DropCancel => s.Cancel().(worker := if s.phase.Queued? then Gone else DropLoading)
    case DropLoad => s.(worker := if s.phase.Applying? then DropWriting else Gone)
    case DropWrite => s.(worker := DropStoring, outcome := Some(Unknown))
    case DropStore => s.(worker := Gone, phase := Rejected)
    case Hear => s.(client := Told(if s.reply.value.Fine? then Success else Failure(s.reply.value)))
    case TimeOut => s.Cancel().(client := TimedOut)
    case LoadPhase => s.(client := Reading(s.phase))
    case LoadOutcome => s.(client := Told(Conclusion(s.client.seen, s.outcome)))
  }

  /** What a late client is told for the phase it saw and the outcome it then read. */
  function Conclusion(seen: Phase, outcome: Option<Verdict>): Answer
  {
    match seen
    case Applied | Rejected =>
      (match outcome
       case Some(Fine) => Success
       case Some(verdict) => Failure(verdict)
       case None => StillPending)
    case Cancelled => NotApplied
    case _ => StillPending
  }

  /** An interleaving: each action is taken if its thread is ready for it. */
  function Run(s: State, actions: seq<Action>): State
    decreases |actions|
  {
    if actions == [] then s
    else
      var before := Run(s, actions[..|actions| - 1]);
      var a := actions[|actions| - 1];
      if Enabled(before, a) then Step(before, a) else before
  }

  // ---------------------------------------------------------------------
  // What every interleaving keeps
  // ---------------------------------------------------------------------

  /** A verdict on record is what the device did, or that nobody knows. */
  predicate Honest(verdict: Verdict, fate: Option<bool>)
  {
    match verdict
    case Fine => fate == Some(true)
    case Refused => fate == Some(false)
    case Unknown => true
  }

  /** The phase agrees with the recorded outcome and with what the device did. */
  predicate PhaseAgrees(s: State)
  {
    match s.phase
    case Queued => !s.entered && s.outcome == None
    case Cancelled => !s.entered && s.outcome == None
    case Applying => s.outcome.Some? ==> Honest(s.outcome.value, s.fate)
    case Applied => s.outcome == Some(Fine) && s.fate == Some(true)
    case Rejected => s.outcome.Some? && !s.outcome.value.Fine? && Honest(s.outcome.value, s.fate)
  }

  /** Where the worker can be in each phase. */
  predicate WorkerAgrees(s: State)
  {
    match s.worker
    case Unsent | InQueue | Taken | Checked => (s.phase.Queued? || s.phase.Cancelled?) && s.reply == None
    case Entering => s.phase.Applying? && s.outcome == None && s.reply == None
    case Inside => s.phase.Applying? && s.outcome == None && s.reply == None && s.entered
    case Returned(v) =>
      s.entered && s.phase.Applying? && s.outcome == None && s.reply == None && Honest(v, s.fate) && !v.Unknown?
    case Written(v) => s.phase.Applying? && s.outcome == Some(v) && s.reply == None
    case Stored(v) => s.phase == (if v.Fine? then Applied else Rejected) && s.outcome == Some(v) && s.reply == None
    case Dropping => s.phase.Applying? ==> s.outcome == None
    case DropLoading => !s.phase.Queued? && (s.phase.Applying? ==> s.outcome == None)
    case DropWriting => s.phase.Applying?
    case DropStoring => s.phase.Applying? && s.outcome == Some(Unknown)
    case Gone => s.phase.Terminal()
  }

  /** What the client was told, or is about to be told, is the truth. */
  predicate ClientAgrees(s: State)
  {
    && (s.reply.Some? ==> s.outcome == s.reply && s.phase == if s.reply.value.Fine? then Applied else Rejected)
    && (s.client.Making? <==> s.worker.Unsent?)
    && match s.client
       case Making => s.phase.Queued?
       case Waiting => true
       case TimedOut => !s.phase.Queued?
       case Reading(seen) =>
         !seen.Queued? && (seen == s.phase || (seen.Applying? && !s.phase.Queued? && !s.phase.Cancelled?))
       case Told(answer) => Truthful(answer, s)
  }

  predicate Truthful(answer: Answer, s: State)
  {
    match answer
    case Success => s.phase.Applied? && s.fate == Some(true)
    case Failure(Refused) => s.phase.Rejected? && s.fate == Some(false)
    case Failure(verdict) => s.phase.Rejected? && s.outcome == Some(verdict) && verdict.Unknown?
    case NotApplied => s.phase.Cancelled? && !s.entered
    case StillPending => !s.phase.Queued? && !s.phase.Cancelled?
    case Unavailable =>
      (s.worker.Dropping? || s.phase.Cancelled?) && !s.entered && (s.phase.Queued? || s.phase.Cancelled?)
  }

  predicate Invariant(s: State)
  {
    PhaseAgrees(s) && WorkerAgrees(s) && ClientAgrees(s) && (s.fate.Some? ==> s.entered)
  }

  lemma StepKeeps(s: State, a: Action)
    requires Invariant(s) && Enabled(s, a)
    ensures Invariant(Step(s, a))
  {
  }

  /** A settled phase is never unsettled, and its outcome never rewritten. */
  lemma TerminalIsStable(s: State, a: Action)
    requires Invariant(s) && Enabled(s, a) && s.phase.Terminal()
    ensures Step(s, a).phase == s.phase && Step(s, a).outcome == s.outcome
    ensures s.phase.Cancelled? ==> !Step(s, a).entered
  {
  }

  lemma {:induction false} Always(actions: seq<Action>)
    ensures Invariant(Run(Made(), actions))
    decreases |actions|
  {
    if actions != [] {
      var before := Run(Made(), actions[..|actions| - 1]);
      Always(actions[..|actions| - 1]);
      if Enabled(before, actions[|actions| - 1]) {
        StepKeeps(before, actions[|actions| - 1]);
      }
    }
  }

  lemma RunSplits(s: State, first: seq<Action>, a: Action)
    ensures Run(s, first + [a]) == var before := Run(s, first); if Enabled(before, a) then Step(before, a) else before
  {
    assert (first + [a])[..|first|] == first;
  }

  /** Once settled, settled the same way in every continuation; a cancelled command never enters its setter. */
  lemma {:induction false} SettledForGood(first: seq<Action>, more: seq<Action>)
    requires Run(Made(), first).phase.Terminal()
    ensures Run(Made(), first + more).phase == Run(Made(), first).phase
    ensures Run(Made(), first + more).outcome == Run(Made(), first).outcome
    ensures Run(Made(), first).phase.Cancelled? ==> !Run(Made(), first + more).entered
    decreases |more|
  {
    if more == [] {
      assert first + more == first;
      Always(first);
    } else {
      var most := more[..|more| - 1];
      SettledForGood(first, most);
      Always(first + most);
      assert first + more == (first + most) + [more[|more| - 1]];
      RunSplits(Made(), first + most, more[|more| - 1]);
      var before := Run(Made(), first + most);
      if Enabled(before, more[|more| - 1]) {
        TerminalIsStable(before, more[|more| - 1]);
      }
    }
  }

  /** Whatever the client is told agrees with what the device did, and stays so. */
  lemma ToldTheTruth(actions: seq<Action>)
    requires Run(Made(), actions).client.Told?
    ensures Truthful(Run(Made(), actions).client.answer, Run(Made(), actions))
  {
    Always(actions);
  }

  /**
   A reader that loads the phase at one moment and the outcome at any later one
   finds the outcome of that phase.
   */
  lemma SeenPhaseHasOutcome(first: seq<Action>, more: seq<Action>)
    requires Run(Made(), first).phase.Applied? || Run(Made(), first).phase.Rejected?
    ensures var late := Run(Made(), first + more);
      late.outcome.Some? && (late.outcome.value.Fine? <==> Run(Made(), first).phase.Applied?)
  {
    Always(first);
    SettledForGood(first, more);
  }

  // ---------------------------------------------------------------------
  // What must be told
  // ---------------------------------------------------------------------

  /** The answer owed to a client that saw this phase, with this outcome on record. */
  predicate Owed(answer: Answer, phase: Phase, outcome: Option<Verdict>)
  {
    && (phase.Applied? ==> answer == Success)
    && (phase.Rejected? ==> outcome.Some? && answer == Failure(outcome.value))
    && (phase.Cancelled? ==> answer == NotApplied)
    && (phase.Applying? ==> answer == StillPending)
  }

  /** A client that gave up waiting, of a command settled by then, and has not yet looked or has seen just that. */
  predicate Looking(s: State, phase: Phase, outcome: Option<Verdict>)
  {
    && s.phase == phase && s.outcome == outcome
    && match s.client
       case TimedOut => true
       case Reading(seen) => seen == phase
       case Told(answer) => Owed(answer, phase, outcome)
       case _ => false
  }

  lemma LookingStep(s: State, phase: Phase, outcome: Option<Verdict>, a: Action)
    requires Invariant(s) && phase.Terminal() && Looking(s, phase, outcome) && Enabled(s, a)
    ensures Looking(Step(s, a), phase, outcome)
  {
    TerminalIsStable(s, a);
  }

  /** A late client of a settled command is told how it was settled, never that it is pending. */
  lemma {:induction false} LateClientIsTold(first: seq<Action>, more: seq<Action>)
    requires Run(Made(), first).client.TimedOut? && Run(Made(), first).phase.Terminal()
    ensures var then' := Run(Made(), first);
      Looking(Run(Made(), first + more), then'.phase, then'.outcome)
    decreases |more|
  {
    var then' := Run(Made(), first);
    if more == [] {
      assert first + more == first;
    } else {
      var most, a := more[..|more| - 1], more[|more| - 1];
      LateClientIsTold(first, most);
      Always(first + most);
      assert first + more == (first + most) + [a];
      RunSplits(Made(), first + most, a);
      var before := Run(Made(), first + most);
      if Enabled(before, a) {
        LookingStep(before, then'.phase, then'.outcome, a);
      }
    }
  }

  /** A client that looks while the setter is at work is told that the command is pending. */
  lemma EarlyClientIsTold(s: State)
    requires Invariant(s) && s.client == Reading(Applying)
    ensures Step(s, LoadOutcome).client == Told(StillPending)
  {
  }

  /** A timeout, a crash, a shutdown, a late check or a failed send. */
  predicate Disturbs(a: Action)
  {
    a.SendFails? || a.Drain? || a.Crash? || a.TimeOut? || a == Check(true)
  }

  /** Where an undisturbed command is: on its way to the setter, in it, or settled by what it did. */
  predicate OnItsWay(s: State)
  {
    && (s.client.Making? || s.client.Waiting? || s.client.Told?)
    && (s.client.Told? ==>
          s.reply.Some? && s.client.answer == (if s.fate == Some(true) then Success else Failure(Refused)))
    && match s.worker
       case Unsent | InQueue | Taken | Checked => s.phase.Queued? && !s.entered
       case Entering => s.phase.Applying? && !s.entered
       case Inside => s.phase.Applying? && s.entered
       case Returned(v) => Did(s, v)
       case Written(v) => Did(s, v)
       case Stored(v) => Did(s, v) && SettledBy(s, v)
       case DropWriting | DropStoring => false
       case _ => s.reply.Some? && Did(s, s.reply.value) && SettledBy(s, s.reply.value)
  }

  /** The setter returned, and this is what it did. */
  predicate Did(s: State, v: Verdict) { s.entered && s.fate == Some(v.Fine?) && !v.Unknown? }

  predicate SettledBy(s: State, v: Verdict) { s.phase == if v.Fine? then Applied else Rejected }

  lemma UndisturbedStep(s: State, a: Action)
    requires Invariant(s) && OnItsWay(s) && Enabled(s, a) && !Disturbs(a)
    ensures OnItsWay(Step(s, a))
  {
  }

  /**
   An undisturbed command always reaches its setter, is settled by what the setter
   did, and its client is told just that.
   */
  lemma {:induction false} UndisturbedIsApplied(actions: seq<Action>)
    requires forall i :: 0 <= i < |actions| ==> !Disturbs(actions[i])
    ensures OnItsWay(Run(Made(), actions))
    ensures var s := Run(Made(), actions);
      s.client.Told? || s.worker.Gone? ==>
        s.entered && s.fate.Some? && s.phase == (if s.fate.value then Applied else Rejected)
    decreases |actions|
  {
    Always(actions);
    if actions != [] {
      var most, a := actions[..|actions| - 1], actions[|actions| - 1];
      UndisturbedIsApplied(most);
      Always(most);
      if Enabled(Run(Made(), most), a) {
        UndisturbedStep(Run(Made(), most), a);
      }
    }
  }

  /** And it can go on, undisturbed, until the client is told. */
  lemma UndisturbedGoesOn(s: State) returns (a: Action)
    requires OnItsWay(s) && (s.worker.Unsent? <==> s.client.Making?) && !s.client.Told?
    ensures Enabled(s, a) && !Disturbs(a)
  {
    a := match s.worker
      case Unsent => Send
      case InQueue => Take
      case Taken => Check(false)
      case Checked => Begin
      case Entering => Enter
      case Inside => Return(true)
      case Returned(_) => Write
      case Written(_) => Store
      case Stored(_) => Reply
      case _ => Hear;
  }

  // ---------------------------------------------------------------------
  // Every command is settled
  // ---------------------------------------------------------------------

  function WorkerSteps(worker: Worker): nat
  {
    match worker
    case Unsent => 14
    case InQueue => 13
    case Taken => 12
    case Checked => 11
    case Entering => 10
    case Inside => 9
    case Returned(_) => 8
    case Written(_) => 7
    case Stored(_) => 6
    case Dropping => 5
    case DropLoading => 4
    case DropWriting => 3
    case DropStoring => 2
    case Gone => 0
  }

  function ClientSteps(client: Client): nat
  {
    match client
    case Making => 4
    case Waiting => 3
    case TimedOut => 2
    case Reading(_) => 1
    case Told(_) => 0
  }

  function StepsLeft(s: State): nat
  {
    WorkerSteps(s.worker) + ClientSteps(s.client)
  }

  lemma StepProgresses(s: State, a: Action)
    requires Enabled(s, a) && (s.client.Making? ==> s.worker.Unsent?)
    ensures StepsLeft(Step(s, a)) < StepsLeft(s)
  {
  }

  /** Some thread can always go on until the client has its answer and the envelope is gone. */
  lemma NeverStuck(s: State) returns (a: Action)
    requires !(s.client.Told? && s.worker.Gone?) && (s.worker.Unsent? ==> s.client.Making?)
    ensures Enabled(s, a)
  {
    match s.client {
      case Making => a := Send;
      case Waiting => a := TimeOut;
      case TimedOut => a := LoadPhase;
      case Reading(_) => a := LoadOutcome;
      case Told(_) =>
        a := match s.worker
          case Unsent => Send
          case InQueue => Take
          case Taken => Check(true)
          case Checked => Begin
          case Entering => Enter
          case Inside => Return(true)
          case Returned(_) => Write
          case Written(_) => Store
          case Stored(_) => Reply
          case Dropping => DropCancel
          case DropLoading => DropLoad
          case DropWriting => DropWrite
          case DropStoring => DropStore
          case Gone => Send;
    }
  }

  /** Every action in the run is taken. */
  ghost predicate AllTaken(actions: seq<Action>)
  {
    forall i :: 0 <= i < |actions| ==> Enabled(Run(Made(), actions[..i]), actions[i])
  }

  /** A run takes at most eighteen steps; one that can go no further has settled the command and told the client. */
  lemma {:induction false} RunsEndSettled(actions: seq<Action>)
    requires AllTaken(actions)
    ensures |actions| + StepsLeft(Run(Made(), actions)) <= 18
    ensures (forall a :: !Enabled(Run(Made(), actions), a)) ==>
      Run(Made(), actions).client.Told? && Run(Made(), actions).phase.Terminal()
    decreases |actions|
  {
    var now := Run(Made(), actions);
    Always(actions);
    if !(now.client.Told? && now.worker.Gone?) {
      var a := NeverStuck(now);
    }
    if actions != [] {
      var most := actions[..|actions| - 1];
      assert forall i :: 0 <= i < |most| ==> most[..i] == actions[..i];
      RunsEndSettled(most);
      Always(most);
      StepProgresses(Run(Made(), most), actions[|actions| - 1]);
    }
  }
}
