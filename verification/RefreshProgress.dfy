/**
 How long a refresh takes: in a finite number of steps it ends, or comes to wait for the listener,
 who gives up the old buffer only with the next message.
 */
module RefreshProgress {
  import opened Incoming
  import opened RefreshProtocol

  // ------------------------------------------------------------------------------------------
  // A measure that every step pays for
  // ------------------------------------------------------------------------------------------

  /** How many announcer steps are left. */
  function Phase(a: Announcer): (r: nat)
    ensures r <= 7
  {
    match a
    case Swapped(_) => 7
    case Flagged(_) => 6
    case Drained(_) => 5
    case Rewriting(_) => 4
    case Rewritten => 3
    case Clearing => 2
    case Cleared => 1
    case Announcing => 0
  }

  /** How many steps the listener takes before it needs another message. */
  function Reading(l: Listener): nat {
    match l
    case Building => 0
    case Claimed(_) => 1
    case Between(_, _) => 2
    case Loaded(_, _) => 3
    case Built(_) => 4
  }

  /** How many steps a worker takes, not counting messages to users, before the flag changes. */
  function Parking(flag: bool, p: Worker): (r: nat)
    ensures r <= 7
  {
    match p
    case Rejoining => if flag then 7 else 1
    case Working => if flag then 6 else 0
    case Depleting => 5
    case WantsLock => 4
    case HasLock => 3
    case Decremented => 2
    case Falling => 1
    case Waiting(notified) => if !notified then 0 else if flag then 1 else 2
  }

  function AllParking(flag: bool, ws: seq<Worker>): nat {
    if ws == [] then 0 else AllParking(flag, ws[..|ws| - 1]) + Parking(flag, ws[|ws| - 1])
  }

  function AllQueued(qs: seq<seq<UserPointer>>): nat {
    if qs == [] then 0 else AllQueued(qs[..|qs| - 1]) + |qs[|qs| - 1]|
  }

  function Work(s: State): nat {
    AllParking(s.flag, s.workers) + AllQueued(s.queues)
  }

  /** Outweighs all that the workers may have to do anew in the next phase. */
  function Weight(n: nat): nat {
    7 * n + 1
  }

  function Measure(s: State): nat {
    Phase(s.announcer) * Weight(|s.workers|) + Reading(s.listener) + Work(s)
  }

  /** The steps that a message, a job, a wakeup or a new refresh gives rise to, itself included. */
  function Price(n: nat, step: Step): nat {
    match step
    case Build(_) => 5
    case Announce(_, _) => 2
    case WakeUp(_) => 3
    case Swap(_) => 7 * Weight(n) + 1
    case _ => 0
  }

  /** The other steps: nothing has to happen outside for them to be taken. */
  predicate Pushes(step: Step) {
    !step.Build? && !step.Announce? && !step.WakeUp? && !step.Swap?
  }

  lemma {:induction false} ParkingUpdate(flag: bool, ws: seq<Worker>, w: nat, p: Worker)
    requires w < |ws|
    ensures AllParking(flag, ws[w := p]) + Parking(flag, ws[w]) == AllParking(flag, ws) + Parking(flag, p)
  {
    var last := |ws| - 1;
    if w == last {
      assert ws[w := p][..last] == ws[..last];
    } else {
      assert ws[w := p][..last] == ws[..last][w := p];
      ParkingUpdate(flag, ws[..last], w, p);
    }
  }

  lemma {:induction false} QueuedUpdate(qs: seq<seq<UserPointer>>, w: nat, q: seq<UserPointer>)
    requires w < |qs|
    ensures AllQueued(qs[w := q]) + |qs[w]| == AllQueued(qs) + |q|
  {
    var last := |qs| - 1;
    if w == last {
      assert qs[w := q][..last] == qs[..last];
    } else {
      assert qs[w := q][..last] == qs[..last][w := q];
      QueuedUpdate(qs[..last], w, q);
    }
  }

  lemma {:induction false} ParkingBound(flag: bool, ws: seq<Worker>)
    ensures AllParking(flag, ws) <= 7 * |ws|
  {
    if ws != [] {
      ParkingBound(flag, ws[..|ws| - 1]);
    }
  }

  /** The part of the measure that is the workers'; of their steps only a wakeup costs something. */
  lemma WorkOfWorker(s: State, step: Step)
    requires Shaped(s) && Enabled(s, step) && OfWorker(step)
    ensures Work(Do(s, step)) + 1 <= Work(s) + Price(|s.workers|, step)
  {
    var t, w := Do(s, step), step.w;
    if step.Pop? {
      QueuedUpdate(s.queues, w, t.queues[w]);
    } else {
      ParkingUpdate(s.flag, s.workers, w, t.workers[w]);
    }
  }

  lemma WorkOfOther(s: State, step: Step)
    requires Shaped(s) && Enabled(s, step) && !OfWorker(step)
    ensures var t := Do(s, step);
            && |t.workers| == |s.workers|
            && (!step.SetFlag? && !step.ResetFlag? && !step.NotifyAll? ==>
                  Work(t) == Work(s) + if step.Announce? then 1 else 0)
            && Work(t) <= Work(s) + 7 * |s.workers| + if step.Announce? then 1 else 0
  {
    var t := Do(s, step);
    ParkingBound(t.flag, t.workers);
    if step.Announce? {
      QueuedUpdate(s.queues, step.w, t.queues[step.w]);
    }
  }

  lemma MeasureStep(s: State, step: Step)
    requires Shaped(s) && Enabled(s, step)
    ensures |Do(s, step).workers| == |s.workers|
    ensures Measure(Do(s, step)) + 1 <= Measure(s) + Price(|s.workers|, step)
  {
    if OfWorker(step) {
      WorkOfWorker(s, step);
    } else {
      WorkOfOther(s, step);
    }
  }

  // ------------------------------------------------------------------------------------------
  // Where a refresh can stop
  // ------------------------------------------------------------------------------------------

  /** The announcer waits for the old buffer, and the listener for a message. */
  predicate AwaitsMessage(s: State) {
    s.announcer.Flagged? && Writes(s, 1 - s.current) && s.listener.Building?
  }

  /** Without another message it will come to that: the listener will not look at the current buffer again. */
  predicate Waits(s: State) {
    && (s.announcer.Swapped? || s.announcer.Flagged?) && Writes(s, 1 - s.current)
    && (s.listener.Building? || s.listener.Claimed? || (s.listener.Loaded? && s.listener.buffer == s.inData))
  }

  /** Only a message changes that. */
  lemma WaitsStep(s: State, step: Step)
    requires Shaped(s) && Enabled(s, step) && ListenerOk(s) && !step.Swap?
    ensures Waits(Do(s, step)) <==> Waits(s) && !step.Build?
  {
  }

  /** The holder of the lock can go on. */
  function Release(s: State, w: nat): Step
    requires w < |s.workers|
  {
    if s.workers[w].HasLock? then Decrement(w) else if s.workers[w].Falling? then FallAsleep(w)
    else if s.flag then FindFlagSet(w) else FindFlagReset(w)
  }

  /** The lock is where the workers' states say, the flag is set, and the workers are counted. */
  predicate CanPark(s: State) {
    && s.flag && s.lock != ByAnnouncer && s.readers == CountedWorkers(s.workers)
    && (forall w :: 0 <= w < |s.workers| && HoldsLock(s.workers[w]) ==> s.lock == ByWorker(w))
    && (s.lock.ByWorker? ==> s.lock.w < |s.workers| && HoldsLock(s.workers[s.lock.w]))
  }

  /** Somebody can get nearer to the reader barrier: the holder of the lock, or a counted worker. */
  lemma SomeoneParks(s: State) returns (step: Step)
    requires Shaped(s) && CanPark(s) && (s.readers > 0 || s.lock != Free)
    ensures Enabled(s, step) && OfWorker(step) && Pushes(step) && (Counted(s.workers[step.w]) || HoldsLock(s.workers[step.w]))
  {
    if s.lock.ByWorker? { return Release(s, s.lock.w); }
    CountExtremes(s.workers);
    var w :| 0 <= w < |s.workers| && Counted(s.workers[w]);
    step := if s.workers[w].Working? then SeeFlag(w)
            else if s.workers[w].WantsLock? then Acquire(w)
            else if s.queues[w] == [] then SeeEmpty(w) else Pop(w);
  }

  /** The listener's step towards the current buffer. */
  function MoveOn(s: State): (step: Step)
    requires Shaped(s) && !s.listener.Building?
    ensures Enabled(s, step) && Pushes(step) && !OfWorker(step)
  {
    match s.listener
    case Built(_) => Load
    case Loaded(_, buffer) => if buffer == s.inData then Stay else Leave
    case Between(_, _) => Claim
    case Claimed(_) => Dispatch
  }

  lemma WorkersCanPark(s: State)
    requires WorkersOk(s) && s.flag && !s.announcer.Clearing?
    ensures CanPark(s)
  {
    forall w | 0 <= w < |s.workers|
      ensures HoldsLock(s.workers[w]) <==> s.lock == ByWorker(w)
    {
      assert WorkerOk(s, w);
    }
  }

  /** The announcer's own step, or that of somebody it waits for. */
  lemma GoOn(s: State) returns (step: Step)
    requires Ok(s) && !s.announcer.Announcing? && !AwaitsMessage(s)
    ensures Next(s, step) && Pushes(step)
  {
    match s.announcer
    case Swapped(_) =>
      if w :| 0 <= w < |s.workers| && s.workers[w] == Rejoining { return Rejoin(w); }
      step := SetFlag;
    case Flagged(_) =>
      if s.writers[1 - s.current] == 0 { return SeeNoWriter; }
      step := MoveOn(s);
    case Drained(_) =>
      if s.readers == 0 { return SeeNoReader; }
      WorkersCanPark(s);
      step := SomeoneParks(s);
    case Rewriting(_) => step := Finish;
    case Rewritten =>
      if s.lock == Free { return TakeLock; }
      WorkersCanPark(s);
      step := SomeoneParks(s);
    case Clearing => step := ResetFlag;
    case Cleared => step := NotifyAll;
  }

  /** Nothing can be done without a message, a wakeup or the announcer's clock. */
  ghost predicate Idle(s: State) {
    forall step :: Next(s, step) ==> !Pushes(step)
  }

  /**
   A refresh that has begun never gets stuck: some thread can go on with it, unless the announcer
   waits for the listener to give up the old buffer and there is no message to make it look.
   */
  lemma NeverStuck(states: seq<State>, steps: seq<Step>, i: nat)
    requires IsRun(states, steps) && i <= |steps|
    ensures Idle(states[i]) ==> states[i].announcer.Announcing? || AwaitsMessage(states[i])
  {
    RunOk(states, steps, i);
    if !states[i].announcer.Announcing? && !AwaitsMessage(states[i]) {
      var step := GoOn(states[i]);
    }
  }

  /** Some step needs nothing from outside. */
  lemma NotIdle(s: State, step: Step)
    requires Next(s, step) && Pushes(step)
    ensures !Idle(s)
  {
  }

  /** Between refreshes the worker is back and has no job; while the announcer waits for a message, it sleeps. */
  predicate HasRest(s: State, w: nat)
    requires Shaped(s) && w < |s.workers|
  {
    if s.announcer.Announcing? then s.workers[w].Working? && s.queues[w] == [] else s.workers[w] == Waiting(false)
  }

  /** All messages are dispatched, and everybody is done, or everybody waits for the next message. */
  predicate AtRest(s: State)
    requires Shaped(s)
  {
    && s.listener.Building? && (s.announcer.Announcing? || AwaitsMessage(s))
    && (forall w :: 0 <= w < |s.workers| ==> HasRest(s, w))
  }

  lemma WorkerGoesOn(s: State, w: nat) returns (step: Step)
    requires Ok(s) && w < |s.workers| && (s.announcer.Announcing? || s.announcer.Flagged?) && !HasRest(s, w)
    ensures Next(s, step) && Pushes(step)
  {
    assert WorkerOk(s, w);
    if s.lock.ByWorker? {
      assert WorkerOk(s, s.lock.w);
      return Release(s, s.lock.w);
    }
    step := match s.workers[w]
      case Working => if s.flag then SeeFlag(w) else Pop(w)
      case Depleting => if s.queues[w] == [] then SeeEmpty(w) else Pop(w)
      case WantsLock => Acquire(w)
      case Waiting(_) => LookAgain(w)
      case _ => Rejoin(w);
  }

  lemma RestIsIdle(s: State)
    requires Ok(s) && AtRest(s)
    ensures Idle(s)
  {
    forall step | Next(s, step)
      ensures !Pushes(step)
    {
      assert OfWorker(step) ==> HasRest(s, step.w) && WorkerOk(s, step.w);
    }
  }

  /** Where exactly runs come to rest; between refreshes, only when every queued job has been taken. */
  lemma RestExactly(states: seq<State>, steps: seq<Step>, i: nat)
    requires IsRun(states, steps) && i <= |steps|
    ensures Shaped(states[i])
    ensures Idle(states[i]) <==> AtRest(states[i])
  {
    var s := states[i];
    RunOk(states, steps, i);
    if AtRest(s) {
      RestIsIdle(s);
    } else if !s.announcer.Announcing? && !AwaitsMessage(s) {
      var step := GoOn(s);
      NotIdle(s, step);
    } else if !s.listener.Building? {
      var step := MoveOn(s);
      NotIdle(s, step);
    } else {
      var w :| 0 <= w < |s.workers| && !HasRest(s, w);
      var step := WorkerGoesOn(s, w);
      NotIdle(s, step);
    }
  }

  /** There, announcer and listener really wait: only a message moves them, workers may go on. */
  lemma OnlyAMessageHelps(states: seq<State>, steps: seq<Step>, i: nat, step: Step)
    requires IsRun(states, steps) && i <= |steps| && AwaitsMessage(states[i]) && Next(states[i], step)
    ensures step.Build? || OfWorker(step)
    ensures AwaitsMessage(Do(states[i], step)) <==> !step.Build?
  {
    RunOk(states, steps, i);
  }

  // ------------------------------------------------------------------------------------------
  // Runs
  // ------------------------------------------------------------------------------------------

  function Paid(n: nat, steps: seq<Step>): nat {
    if steps == [] then 0 else Paid(n, steps[..|steps| - 1]) + Price(n, steps[|steps| - 1])
  }

  /** In every run each stretch of steps is paid for by what is left to do at its start and by what comes from outside. */
  lemma {:induction false} StepsArePaid(states: seq<State>, steps: seq<Step>, i: nat, j: nat)
    requires IsRun(states, steps) && i <= j <= |steps|
    ensures |states[j].workers| == |states[i].workers|
    ensures Measure(states[j]) + (j - i) <= Measure(states[i]) + Paid(|states[i].workers|, steps[i..j])
  {
    if i < j {
      StepsArePaid(states, steps, i, j - 1);
      assert Follows(states, steps, j - 1);
      MeasureStep(states[j - 1], steps[j - 1]);
      assert steps[i..j][..j - i - 1] == steps[i..j - 1];
    }
  }

  /** No message, wakeup, job or new refresh from the i-th step on. */
  ghost predicate Undisturbed(steps: seq<Step>, i: nat) {
    forall k :: i <= k < |steps| ==> Pushes(steps[k])
  }

  lemma {:induction false} NothingToPay(n: nat, steps: seq<Step>)
    requires Undisturbed(steps, 0)
    ensures Paid(n, steps) == 0
  {
    if steps != [] {
      assert Pushes(steps[|steps| - 1]);
      NothingToPay(n, steps[..|steps| - 1]);
    }
  }

  lemma {:induction false} WaitsUntilMessage(states: seq<State>, steps: seq<Step>, i: nat, j: nat)
    requires IsRun(states, steps) && i <= j <= |steps|
    requires forall k :: i <= k < j ==> !steps[k].Swap?
    ensures Waits(states[j]) <==> Waits(states[i]) && forall k :: i <= k < j ==> !steps[k].Build?
  {
    if i < j {
      WaitsUntilMessage(states, steps, i, j - 1);
      assert Follows(states, steps, j - 1);
      RunOk(states, steps, j - 1);
      WaitsStep(states[j - 1], steps[j - 1]);
    }
  }

  /**
   A refresh ends. From any state of any run there are at most `Measure` steps that need nothing
   from outside; when they are done the refresh is over, exactly unless the listener was about to
   wait for a message in the old buffer.
   */
  lemma RefreshEnds(states: seq<State>, steps: seq<Step>, i: nat)
    requires IsRun(states, steps) && i <= |steps| && Undisturbed(steps, i)
    ensures |steps| - i <= Measure(states[i])
    ensures Idle(states[|steps|]) ==> (states[|steps|].announcer.Announcing? <==> !Waits(states[i]))
  {
    StepsArePaid(states, steps, i, |steps|);
    assert Undisturbed(steps[i..], 0);
    assert steps[i..] == steps[i..|steps|];
    NothingToPay(|states[i].workers|, steps[i..]);
    WaitsUntilMessage(states, steps, i, |steps|);
    RunOk(states, steps, |steps|);
    NeverStuck(states, steps, |steps|);
  }

  /** The run with one more step. */
  lemma Prolong(states: seq<State>, steps: seq<Step>, step: Step)
    requires IsRun(states, steps) && Next(states[|steps|], step)
    ensures IsRun(states + [Do(states[|steps|], step)], steps + [step])
  {
    var states', steps' := states + [Do(states[|steps|], step)], steps + [step];
    forall i | 0 <= i < |steps'|
      ensures Follows(states', steps', i)
    {
      assert i < |steps| ==> Follows(states, steps, i);
    }
  }

  /** Every run can be brought to that point. */
  lemma {:induction false} ComesToRest(states: seq<State>, steps: seq<Step>) returns (more: seq<State>, done: seq<Step>)
    requires IsRun(states, steps)
    ensures IsRun(more, done) && |steps| <= |done| && more[..|steps| + 1] == states && done[..|steps|] == steps
    ensures Undisturbed(done, |steps|) && Idle(more[|done|])
    decreases Measure(states[|steps|])
  {
    var s := states[|steps|];
    if step :| Next(s, step) && Pushes(step) {
      MeasureStep(s, step);
      Prolong(states, steps, step);
      more, done := ComesToRest(states + [Do(s, step)], steps + [step]);
      assert done[..|steps|] == done[..|steps| + 1][..|steps|];
      assert more[..|steps| + 1] == more[..|steps| + 2][..|steps| + 1];
      assert done[|steps|] == done[..|steps| + 1][|steps|];
    } else {
      more, done := states, steps;
    }
  }

  /** One message is enough to end a refresh. */
  lemma AMessageIsEnough(states: seq<State>, steps: seq<Step>, i: nat)
    requires IsRun(states, steps) && i < |steps| && steps[i].Build? && Undisturbed(steps, i + 1)
    requires Idle(states[|steps|])
    ensures states[|steps|].announcer.Announcing?
  {
    assert Follows(states, steps, i);
    RunOk(states, steps, i);
    WaitsStep(states[i], steps[i]);
    RefreshEnds(states, steps, i + 1);
  }

  /** With any number of workers a refresh may come to wait for a message, everybody else having done all they can. */
  lemma ARefreshMayWait(n: nat, drop: bool)
    ensures exists states: seq<State>, steps :: IsRun(states, steps) && |states[0].workers| == n
                                    && Idle(states[|steps|]) && AwaitsMessage(states[|steps|])
  {
    var s := Started(n);
    var t := Do(s, Swap(drop));
    Prolong([s], [], Swap(drop));
    Prolong([s, t], [Swap(drop)], SetFlag);
    var states, steps := ComesToRest([s, t, Do(t, SetFlag)], [Swap(drop), SetFlag]);
    assert states[0] == states[..3][0] && states[2] == states[..3][2];
    RefreshEnds(states, steps, 2);
    NeverStuck(states, steps, |steps|);
  }
}
