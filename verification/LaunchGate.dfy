/**
 * The browser launch gate: a process-wide flag that admits one launch at a time. The guard of a launch moves into the
 * launch thread, so it outlives a caller that stops waiting.
 */
module LaunchGate {
  import opened Outcomes

  datatype LaunchOutcome = Launched | LaunchFailed | TimedOut

  /** Where the thread that asked for a launch is: testing the flag, asleep, woken, owning the guard, waiting, gone. */
  datatype Caller = Testing | Sleeping | Woken | Owner | Receiving | Returned(outcome: LaunchOutcome)

  /** The launch thread: its closure runs, has ended (the guard is still held), and is over. */
  datatype Thread = NotStarted | Launching | Ended(succeeded: bool) | Over(succeeded: bool)

  datatype Attempt = Attempt(caller: Caller, thread: Thread)

  datatype State = State(inProgress: bool, attempts: map<nat, Attempt>)

  const QUIET: State := State(false, map[])

  /** What any thread may do next; `wake` is the sleeper that a dropped guard notifies. */
  datatype Step =
    | Begin(id: nat)
    | Test(id: nat, expired: bool)
    | Stir(id: nat)
    | Resume(id: nat, timedOut: bool)
    | Start(id: nat, expired: bool, spawnFails: bool, wake: nat)
    | EndLaunch(id: nat, succeeded: bool)
    | Release(id: nat, wake: nat)
    | Receive(id: nat)
    | GiveUp(id: nat)

  predicate IsCaller(s: State, id: nat, c: Caller) {
    id in s.attempts && s.attempts[id].caller == c
  }

  function SetCaller(s: State, id: nat, c: Caller): State
    requires id in s.attempts
  {
    s.(attempts := s.attempts[id := s.attempts[id].(caller := c)])
  }

  function SetThread(s: State, id: nat, t: Thread): State
    requires id in s.attempts
  {
    s.(attempts := s.attempts[id := s.attempts[id].(thread := t)])
  }

  ghost predicate SomebodySleeps(s: State) {
    exists id :: IsCaller(s, id, Sleeping)
  }

  /** Dropping the guard: clear the flag and notify one sleeper, if there is any. */
  function Dropped(s: State, wake: nat): State {
    if IsCaller(s, wake, Sleeping) then SetCaller(s, wake, Woken).(inProgress := false) else s.(inProgress := false)
  }

  ghost predicate CanNotify(s: State, wake: nat) {
    SomebodySleeps(s) ==> IsCaller(s, wake, Sleeping)
  }

  /** With the lock held: take the flag if it is free. */
  function Acquired(s: State, id: nat): State
    requires id in s.attempts
  {
    SetCaller(s, id, Owner).(inProgress := true)
  }

  function AfterTest(s: State, id: nat, expired: bool): State {
    if !IsCaller(s, id, Testing) then s
    else if !s.inProgress then Acquired(s, id)
    else if expired then SetCaller(s, id, Returned(TimedOut))
    else SetCaller(s, id, Sleeping)
  }

  /** After a wake-up the flag decides: even a wait that timed out takes a free one. */
  function AfterResume(s: State, id: nat, timedOut: bool): State {
    if !IsCaller(s, id, Woken) then s
    else if !s.inProgress then Acquired(s, id)
    else if timedOut then SetCaller(s, id, Returned(TimedOut))
    else SetCaller(s, id, Testing)
  }

  ghost function AfterStart(s: State, id: nat, expired: bool, spawnFails: bool, wake: nat): State {
    if !IsCaller(s, id, Owner) then s
    else if expired || spawnFails then
      if CanNotify(s, wake) then Dropped(SetCaller(s, id, Returned(if expired then TimedOut else LaunchFailed)), wake) else s
    else SetThread(SetCaller(s, id, Receiving), id, Launching)
  }

  ghost function AfterRelease(s: State, id: nat, wake: nat): State {
    if id !in s.attempts || !s.attempts[id].thread.Ended? || !CanNotify(s, wake) then s
    else Dropped(SetThread(s, id, Over(s.attempts[id].thread.succeeded)), wake)
  }

  function AfterReceive(s: State, id: nat): State {
    if !IsCaller(s, id, Receiving) then s
    else
      match s.attempts[id].thread
      case Ended(succeeded) => SetCaller(s, id, Returned(if succeeded then Launched else LaunchFailed))
      case Over(succeeded) => SetCaller(s, id, Returned(if succeeded then Launched else LaunchFailed))
      case _ => s
  }

  /** One step; a step that is not possible changes nothing. */
  ghost function Next(s: State, step: Step): State {
    match step
    case Begin(id) => if id in s.attempts then s else s.(attempts := s.attempts[id := Attempt(Testing, NotStarted)])
    case Test(id, expired) => AfterTest(s, id, expired)
    case Stir(id) => if IsCaller(s, id, Sleeping) then SetCaller(s, id, Woken) else s
    case Resume(id, timedOut) => AfterResume(s, id, timedOut)
    case Start(id, expired, spawnFails, wake) => AfterStart(s, id, expired, spawnFails, wake)
    case EndLaunch(id, succeeded) =>
      if id in s.attempts && s.attempts[id].thread.Launching? then SetThread(s, id, Ended(succeeded)) else s
    case Release(id, wake) => AfterRelease(s, id, wake)
    case Receive(id) => AfterReceive(s, id)
    case GiveUp(id) => if IsCaller(s, id, Receiving) then SetCaller(s, id, Returned(TimedOut)) else s
  }

  ghost function Run(steps: seq<Step>): State {
    if steps == [] then QUIET else Next(Run(steps[..|steps| - 1]), steps[|steps| - 1])
  }

  // -------------------------------------------------------------------------
  // Invariants
  // -------------------------------------------------------------------------

  /** The attempt's guard exists: in the caller's hands, or in its launch thread. */
  ghost predicate GuardLive(s: State, id: nat) {
    id in s.attempts && (s.attempts[id].caller.Owner? || s.attempts[id].thread.Launching? || s.attempts[id].thread.Ended?)
  }

  ghost predicate ClosureRuns(s: State, id: nat) {
    id in s.attempts && s.attempts[id].thread.Launching?
  }

  /** The flag is set exactly while a guard lives, and there is never a second one. */
  ghost predicate FlagIsGuard(s: State) {
    && (forall a, b :: GuardLive(s, a) && GuardLive(s, b) ==> a == b)
    && (s.inProgress <==> exists id :: GuardLive(s, id))
  }

  /** A caller's stage fits its thread's: nobody owns and launches at once, and answers come from the launch. */
  ghost predicate StagesFit(a: Attempt) {
    match a.caller
    case Receiving => !a.thread.NotStarted?
    case Returned(Launched) => (a.thread.Ended? || a.thread.Over?) && a.thread.succeeded
    case Returned(_) => true
    case _ => a.thread.NotStarted?
  }

  ghost predicate AllFit(s: State) {
    forall id :: id in s.attempts ==> StagesFit(s.attempts[id])
  }

  /** Nobody sleeps beside a free flag, unless a woken thread is about to take it. */
  ghost predicate NobodyStranded(s: State) {
    SomebodySleeps(s) ==> s.inProgress || exists id :: IsCaller(s, id, Woken)
  }

  /** One attempt changes without gaining or losing its guard, and the flag stays. */
  lemma SameGuards(s: State, s': State)
    requires FlagIsGuard(s) && s'.inProgress == s.inProgress
    requires forall id :: GuardLive(s', id) <==> GuardLive(s, id)
    ensures FlagIsGuard(s')
  {
    if s.inProgress {
      var id :| GuardLive(s, id);
      assert GuardLive(s', id);
    }
  }

  lemma GuardTaken(s: State, s': State, id: nat)
    requires FlagIsGuard(s) && !s.inProgress && s'.inProgress
    requires GuardLive(s', id) && forall other :: other != id ==> (GuardLive(s', other) <==> GuardLive(s, other))
    ensures FlagIsGuard(s')
  {
  }

  lemma GuardDropped(s: State, s': State, id: nat)
    requires FlagIsGuard(s) && GuardLive(s, id) && !s'.inProgress
    requires !GuardLive(s', id) && forall other :: other != id ==> (GuardLive(s', other) <==> GuardLive(s, other))
    ensures FlagIsGuard(s')
  {
    assert forall other :: GuardLive(s, other) ==> other == id;
  }

  lemma StepKeepsFlag(s: State, step: Step)
    requires FlagIsGuard(s) && AllFit(s)
    ensures FlagIsGuard(Next(s, step))
  {
    var s' := Next(s, step);
    if s' == s {
    } else if s'.inProgress == s.inProgress {
      SameGuards(s, s');
    } else if s'.inProgress {
      GuardTaken(s, s', step.id);
    } else {
      GuardDropped(s, s', step.id);
    }
  }

  lemma StepKeepsFit(s: State, step: Step)
    requires AllFit(s)
    ensures AllFit(Next(s, step))
  {
  }

  lemma StepKeepsNobodyStranded(s: State, step: Step)
    requires NobodyStranded(s)
    ensures NobodyStranded(Next(s, step))
  {
    var s' := Next(s, step);
    if SomebodySleeps(s') && !s'.inProgress {
      WokenOrFlag(s, step);
    }
  }

  lemma WokenOrFlag(s: State, step: Step)
    requires NobodyStranded(s) && SomebodySleeps(Next(s, step)) && !Next(s, step).inProgress
    ensures exists id :: IsCaller(Next(s, step), id, Woken)
  {
    var s' := Next(s, step);
    var sleeper :| IsCaller(s', sleeper, Sleeping);
    assert IsCaller(s, sleeper, Sleeping);
    if s.inProgress {
      assert IsCaller(s', step.wake, Woken);
    } else {
      var woken :| IsCaller(s, woken, Woken);
      assert IsCaller(s', woken, Woken);
    }
  }

  /**
   * In every interleaving of callers, timeouts, spurious wake-ups and launch threads: the flag is set exactly while a
   * guard lives, at most one launch closure runs, and no sleeper is forgotten beside a free flag.
   */
  lemma {:induction false} AlwaysGuarded(steps: seq<Step>)
    ensures FlagIsGuard(Run(steps)) && AllFit(Run(steps)) && NobodyStranded(Run(steps))
    ensures forall a, b :: ClosureRuns(Run(steps), a) && ClosureRuns(Run(steps), b) ==> a == b
  {
    if steps != [] {
      var s, step := Run(steps[..|steps| - 1]), steps[|steps| - 1];
      AlwaysGuarded(steps[..|steps| - 1]);
      StepKeepsFlag(s, step);
      StepKeepsFit(s, step);
      StepKeepsNobodyStranded(s, step);
    }
    assert forall id :: ClosureRuns(Run(steps), id) ==> GuardLive(Run(steps), id);
  }

  /** While a launch lasts, whether or not its caller still waits, no other attempt becomes owner or starts a closure. */
  lemma NobodyPassesALaunch(steps: seq<Step>, step: Step, running: nat, other: nat)
    requires GuardLive(Run(steps), running) && GuardLive(Next(Run(steps), step), running) && other != running
    ensures !GuardLive(Next(Run(steps), step), other)
  {
    AlwaysGuarded(steps);
    StepKeepsFlag(Run(steps), step);
  }

  /** The guard does outlive its caller: after a timeout the closure may still run and the flag is still set. */
  lemma GuardOutlivesCaller(id: nat)
    ensures var s := Next(Next(Next(Next(QUIET, Begin(id)), Test(id, false)), Start(id, false, false, id)), GiveUp(id));
            s.inProgress && s.attempts[id] == Attempt(Returned(TimedOut), Launching)
  {
  }

  // -------------------------------------------------------------------------
  // Trying one browser after the other
  // -------------------------------------------------------------------------

  datatype Try<B> = Opened(browser: B) | Failure(message: string) | OutOfTime(timeoutMs: nat) | Aborted(reason: string)

  datatype RenderError = Timeout(timeoutMs: nat) | Abort(reason: string) | Unavailable(failures: seq<string>)

  /** Tries the candidates in order: only a plain failure moves on to the next one. */
  method LaunchFirstAvailable<C, B>(candidates: seq<C>, launch: nat -> Try<B>, name: C -> string)
    returns (r: Result<(B, C), RenderError>, tried: nat)
    ensures tried <= |candidates|
    ensures forall i :: 0 <= i < tried - 1 ==> launch(i).Failure?
    ensures r.Ok? ==> tried > 0 && launch(tried - 1) == Opened(r.value.0) && r.value.1 == candidates[tried - 1]
    ensures r.Err? && r.error.Timeout? ==> tried > 0 && launch(tried - 1) == OutOfTime(r.error.timeoutMs)
    ensures r.Err? && r.error.Abort? ==> tried > 0 && launch(tried - 1) == Aborted(r.error.reason)
    ensures r.Err? && r.error.Unavailable? ==>
      && tried == |candidates| == |r.error.failures|
      && forall i :: 0 <= i < tried ==> launch(i).Failure? && r.error.failures[i] == name(candidates[i]) + ": " + launch(i).message
  {
    var failures: seq<string> := [];
    tried := 0;
    while tried < |candidates|
      invariant 0 <= tried <= |candidates| && |failures| == tried
      invariant forall i :: 0 <= i < tried ==> launch(i).Failure? && failures[i] == name(candidates[i]) + ": " + launch(i).message
    {
      var outcome := launch(tried);
      tried := tried + 1;
      match outcome
      case Opened(browser) => return Ok((browser, candidates[tried - 1])), tried;
      case Failure(message) => failures := failures + [name(candidates[tried - 1]) + ": " + message];
      case OutOfTime(timeoutMs) => return Err(Timeout(timeoutMs)), tried;
      case Aborted(reason) => return Err(Abort(reason)), tried;
    }
    return Err(Unavailable(failures)), tried;
  }
}
