/**
 The refresh protocol between the listener, the announcer (which recalculates) and the workers:
 service/overseer.cpp, service/rating_calculator.cpp and service/worker_pool.cpp as a state machine of
 sequentially consistent steps. Dispatching one message and rewriting the core data are steps with
 a beginning and an end, so that "at the same time" can be said.
 */
module RefreshProtocol {
  import opened Users
  import opened Incoming
  import opened Batching

  /** `job` points to the object of user `id` created after `epoch` weekly drops. */
  datatype UserPointer = UserPointer(id: Id, epoch: nat)

  /** The listener: what it does with the message it has just read. */
  datatype Listener =
    | Building
    | Built(msg: Message)
    | Loaded(msg: Message, buffer: nat)   // the current buffer has been looked up
    | Between(msg: Message, buffer: nat)  // the old buffer is given up, the new one not yet claimed
    | Claimed(msg: Message)               // about to write, or writing

  /** The announcer: the steps of one call of recalculate; Announcing is the time between two calls. */
  datatype Announcer =
    | Announcing
    | Swapped(drop: bool)     // the buffers are switched
    | Flagged(drop: bool)     // refreshInProgress is set; waits for the writer of the old buffer
    | Drained(drop: bool)     // no writer left; waits for the readers
    | Rewriting(drop: bool)   // core data and old buffer are being worked on
    | Rewritten               // waits for the lock
    | Clearing                // has the lock
    | Cleared                 // refreshInProgress is reset, the lock released; has not notified yet

  datatype Worker =
    | Working                 // reads core data
    | Depleting               // has seen the flag, empties its user pointer queue
    | WantsLock               // the queue was empty
    | HasLock
    | Decremented             // has left the reader count, holds the lock
    | Falling                 // has found the flag set, holds the lock
    | Waiting(notified: bool) // sleeps, or is about to look at the flag again
    | Rejoining               // has found the flag reset, has not entered the reader count yet

  datatype Lock = Free | ByAnnouncer | ByWorker(w: nat)

  datatype State = State(
    // double buffer
    bufs: seq<seq<Message>>, current: nat, writers: seq<int>, inData: nat, listener: Listener,
    // synchronisation block
    flag: bool, readers: int, lock: Lock,
    announcer: Announcer, workers: seq<Worker>, queues: seq<seq<UserPointer>>,
    // core data, and how often it has been dropped
    core: CoreState, epoch: nat,
    // history: all messages dispatched, all recalculations finished
    log: seq<Message>, minutes: seq<Minute>)

  datatype Step =
    | Build(msg: Message) | Load | Stay | Leave | Claim | Dispatch
    | Swap(drop: bool) | SetFlag | SeeNoWriter | SeeNoReader | Finish | TakeLock | ResetFlag | NotifyAll
    | Announce(id: Id, w: nat)
    | SeeFlag(w: nat) | Pop(w: nat) | SeeEmpty(w: nat) | Acquire(w: nat) | Decrement(w: nat)
    | FindFlagSet(w: nat) | FindFlagReset(w: nat) | FallAsleep(w: nat) | WakeUp(w: nat) | LookAgain(w: nat) | Rejoin(w: nat)

  /** The worker is part of the reader count. */
  predicate Counted(p: Worker) {
    p.Working? || p.Depleting? || p.WantsLock? || p.HasLock?
  }

  predicate ReadsCore(p: Worker) {
    p.Working? || p.Depleting?
  }

  predicate HoldsLock(p: Worker) {
    p.HasLock? || p.Decremented? || p.Falling?
  }

  /**
   Initially the listener has claimed the current buffer and the reader count is set. The announcer may
   be running by then; HandOver.AnnouncerMayStartFirst says why that makes no difference.
   */
  predicate Init(s: State) {
    && s.bufs == [[], []] && s.current < 2 && s.inData == s.current && s.listener == Building
    && s.writers == [if s.current == 0 then 1 else 0, if s.current == 1 then 1 else 0]
    && !s.flag && s.readers == |s.workers| && s.lock == Free && s.announcer == Announcing
    && (forall w :: 0 <= w < |s.workers| ==> s.workers[w] == Working)
    && |s.queues| == |s.workers| && (forall w :: 0 <= w < |s.queues| ==> s.queues[w] == [])
    && s.core == map[] && s.epoch == 0 && s.log == [] && s.minutes == []
  }

  predicate Shaped(s: State) {
    |s.bufs| == 2 && |s.writers| == 2 && s.current < 2 && s.inData < 2 && |s.queues| == |s.workers|
    && (s.listener.Loaded? || s.listener.Between? ==> s.listener.buffer < 2)
  }

  /** A service with `n` workers that has just started. */
  function Started(n: nat): (s: State)
    ensures Init(s) && Shaped(s)
  {
    State([[], []], 0, [1, 0], 0, Building, false, n, Free, Announcing,
          seq(n, _ => Working), seq(n, _ => []), map[], 0, [], [])
  }

  predicate IsActive(core: CoreState, id: Id) {
    id in core && core[id].total.Some?
  }

  /** What lets a thread take a step; without the two hand-over assumptions. */
  predicate Enabled(s: State, step: Step)
    requires Shaped(s)
  {
    match step
    case Build(_) => s.listener.Building?
    case Load => s.listener.Built?
    case Stay => s.listener.Loaded? && s.listener.buffer == s.inData
    case Leave => s.listener.Loaded? && s.listener.buffer != s.inData
    case Claim => s.listener.Between?
    case Dispatch => s.listener.Claimed?
    case Swap(_) => s.announcer.Announcing?
    case SetFlag => s.announcer.Swapped?
    case SeeNoWriter => s.announcer.Flagged? && s.writers[1 - s.current] == 0
    case SeeNoReader => s.announcer.Drained? && s.readers == 0
    case Finish => s.announcer.Rewriting?
    case TakeLock => s.announcer.Rewritten? && s.lock == Free
    case ResetFlag => s.announcer.Clearing?
    case NotifyAll => s.announcer.Cleared?
    case Announce(id, w) => s.announcer.Announcing? && IsActive(s.core, id) && w < |s.workers|
    case SeeFlag(w) => w < |s.workers| && s.workers[w].Working? && s.flag
    case Pop(w) => w < |s.workers| && ReadsCore(s.workers[w]) && s.queues[w] != []
    case SeeEmpty(w) => w < |s.workers| && s.workers[w].Depleting? && s.queues[w] == []
    case Acquire(w) => w < |s.workers| && s.workers[w].WantsLock? && s.lock == Free
    case Decrement(w) => w < |s.workers| && s.workers[w].HasLock?
    case FindFlagSet(w) => w < |s.workers| && s.workers[w].Decremented? && s.flag
    case FindFlagReset(w) => w < |s.workers| && s.workers[w].Decremented? && !s.flag
    case FallAsleep(w) => w < |s.workers| && s.workers[w].Falling?
    case WakeUp(w) => w < |s.workers| && s.workers[w].Waiting?
    case LookAgain(w) => w < |s.workers| && s.workers[w] == Waiting(true) && s.lock == Free
    case Rejoin(w) => w < |s.workers| && s.workers[w].Rejoining?
  }

  function SetWorker(s: State, w: nat, p: Worker): State
    requires w < |s.workers|
  {
    s.(workers := s.workers[w := p])
  }

  /** Everybody asleep is notified. */
  function Notified(ws: seq<Worker>): (r: seq<Worker>)
    ensures |r| == |ws|
    ensures forall w :: 0 <= w < |ws| ==> r[w] == if ws[w].Waiting? then Waiting(true) else ws[w]
  {
    seq(|ws|, w requires 0 <= w < |ws| => if ws[w].Waiting? then Waiting(true) else ws[w])
  }

  function Do(s: State, step: Step): State
    requires Shaped(s) && Enabled(s, step)
  {
    match step
    // the listener
    case Build(msg) => s.(listener := Built(msg))
    case Load => s.(listener := Loaded(s.listener.msg, s.current))
    case Stay => s.(listener := Claimed(s.listener.msg))
    case Leave => s.(writers := s.writers[s.inData := s.writers[s.inData] - 1],
                     listener := Between(s.listener.msg, s.listener.buffer))
    case Claim => s.(inData := s.listener.buffer,
                     writers := s.writers[s.listener.buffer := s.writers[s.listener.buffer] + 1],
                     listener := Claimed(s.listener.msg))
    case Dispatch => s.(bufs := s.bufs[s.inData := s.bufs[s.inData] + [s.listener.msg]],
                        log := s.log + [s.listener.msg], listener := Building)
    // the announcer
    case Swap(drop) => s.(current := 1 - s.current, announcer := Swapped(drop))
    case SetFlag => s.(flag := true, announcer := Flagged(s.announcer.drop))
    case SeeNoWriter => s.(announcer := Drained(s.announcer.drop))
    case SeeNoReader => s.(announcer := Rewriting(s.announcer.drop))
    case Finish =>
      var minute := Minute(s.announcer.drop, s.bufs[1 - s.current]);
      s.(core := AfterMinute(s.core, minute), minutes := s.minutes + [minute],
         bufs := s.bufs[1 - s.current := []], epoch := s.epoch + if s.announcer.drop then 1 else 0,
         announcer := Rewritten)
    case TakeLock => s.(lock := ByAnnouncer, announcer := Clearing)
    case ResetFlag => s.(flag := false, lock := Free, announcer := Cleared)
    case NotifyAll => s.(workers := Notified(s.workers), announcer := Announcing)
    case Announce(id, w) => s.(queues := s.queues[w := s.queues[w] + [UserPointer(id, s.epoch)]])
    // the workers
    case SeeFlag(w) => SetWorker(s, w, Depleting)
    case Pop(w) => s.(queues := s.queues[w := s.queues[w][1..]])
    case SeeEmpty(w) => SetWorker(s, w, WantsLock)
    case Acquire(w) => SetWorker(s.(lock := ByWorker(w)), w, HasLock)
    case Decrement(w) => SetWorker(s.(readers := s.readers - 1), w, Decremented)
    case FindFlagSet(w) => SetWorker(s, w, Falling)
    case FindFlagReset(w) => SetWorker(s.(lock := Free), w, Rejoining)
    case FallAsleep(w) => SetWorker(s.(lock := Free), w, Waiting(false))
    case WakeUp(w) => SetWorker(s, w, Waiting(true))
    case LookAgain(w) => SetWorker(s, w, if s.flag then Waiting(false) else Rejoining)
    case Rejoin(w) => SetWorker(s.(readers := s.readers + 1), w, Working)
  }

  // ------------------------------------------------------------------------------------------
  // The two hand-over assumptions
  // ------------------------------------------------------------------------------------------

  /** The buffers are not switched while the listener is on its way from one buffer to the other. */
  predicate ListenerArrived(s: State, step: Step) {
    step.Swap? ==> !s.listener.Between?
  }

  /** The flag is not set again before every worker who has found it reset is back in the reader count. */
  predicate WorkersBack(s: State, step: Step) {
    step.SetFlag? ==> forall w :: 0 <= w < |s.workers| ==> s.workers[w] != Rejoining
  }

  /** Which refreshes find no pointer in the queue of a worker that has not returned from the last one. */
  datatype Care = Careless | BeforeDrops | Always

  predicate QueuesSeen(care: Care, s: State, step: Step) {
    step.SetFlag? && (care.Always? || (care.BeforeDrops? && s.announcer == Swapped(true))) ==>
      forall w :: 0 <= w < |s.workers| == |s.queues| && !Counted(s.workers[w]) ==> s.queues[w] == []
  }

  ghost predicate Next(s: State, step: Step) {
    Shaped(s) && Enabled(s, step) && ListenerArrived(s, step) && WorkersBack(s, step)
  }

  // ------------------------------------------------------------------------------------------
  // Who is in the reader count
  // ------------------------------------------------------------------------------------------

  function CountedWorkers(ws: seq<Worker>): nat {
    if ws == [] then 0 else CountedWorkers(ws[..|ws| - 1]) + if Counted(ws[|ws| - 1]) then 1 else 0
  }

  lemma {:induction false} CountUpdate(ws: seq<Worker>, w: nat, p: Worker)
    requires w < |ws|
    ensures CountedWorkers(ws[w := p]) + (if Counted(ws[w]) then 1 else 0) ==
            CountedWorkers(ws) + (if Counted(p) then 1 else 0)
  {
    var last := |ws| - 1;
    if w == last {
      assert ws[w := p][..last] == ws[..last];
    } else {
      assert ws[w := p][..last] == ws[..last][w := p];
      CountUpdate(ws[..last], w, p);
    }
  }

  lemma {:induction false} CountExtremes(ws: seq<Worker>)
    ensures CountedWorkers(ws) == 0 <==> forall w :: 0 <= w < |ws| ==> !Counted(ws[w])
    ensures CountedWorkers(ws) <= |ws|
    ensures CountedWorkers(ws) == |ws| <==> forall w :: 0 <= w < |ws| ==> Counted(ws[w])
  {
    if ws != [] {
      var last := |ws| - 1;
      CountExtremes(ws[..last]);
      assert ws == ws[..last] + [ws[last]];
    }
  }

  lemma {:induction false} CountNotified(ws: seq<Worker>, rs: seq<Worker>)
    requires |rs| == |ws| && forall w :: 0 <= w < |ws| ==> (Counted(rs[w]) <==> Counted(ws[w]))
    ensures CountedWorkers(rs) == CountedWorkers(ws)
  {
    if ws != [] {
      CountNotified(ws[..|ws| - 1], rs[..|ws| - 1]);
    }
  }

  // ------------------------------------------------------------------------------------------
  // What every step keeps
  // ------------------------------------------------------------------------------------------

  /** Between the end of the reader barrier and the reset of the flag. */
  predicate BarrierClosed(a: Announcer) {
    a.Rewriting? || a.Rewritten? || a.Clearing?
  }

  predicate WorkerOk(s: State, w: nat)
    requires w < |s.workers|
  {
    var p := s.workers[w];
    && (HoldsLock(p) <==> s.lock == ByWorker(w))
    && (p.Depleting? || p.WantsLock? || HoldsLock(p) ==> s.flag)
    && (p == Waiting(false) ==> s.flag || s.announcer.Cleared?)
    && (p.Rejoining? ==> !s.flag)
    && (BarrierClosed(s.announcer) ==> !Counted(p))
  }

  predicate WorkersOk(s: State) {
    && (forall w :: 0 <= w < |s.workers| ==> WorkerOk(s, w))
    && (s.lock.ByWorker? ==> s.lock.w < |s.workers|)
    && (s.lock == ByAnnouncer <==> s.announcer.Clearing?)
    && (s.flag <==> !(s.announcer.Announcing? || s.announcer.Swapped? || s.announcer.Cleared?))
    && s.readers == CountedWorkers(s.workers)
  }

  /** The listener counts as a writer of the buffer it has claimed. */
  predicate Writes(s: State, b: int) {
    !s.listener.Between? && s.inData == b
  }

  /** The listener is behind only as long as the announcer waits for it. */
  predicate ListenerOk(s: State)
    requires Shaped(s)
  {
    && (forall b :: 0 <= b < 2 ==> s.writers[b] == if Writes(s, b) then 1 else 0)
    && (s.listener.Between? ==> s.listener.buffer == s.current)
    && (s.listener.Loaded? ==> s.listener.buffer == s.inData || s.listener.buffer == s.current)
    && (Writes(s, 1 - s.current) ==> s.announcer.Swapped? || s.announcer.Flagged?)
  }

  /** Core data is what the recalculations have made of it. */
  predicate IsHistory(s: State) {
    s.core == AfterMinutes(map[], s.minutes)
  }

  /** Every message is in exactly one minute or buffer, in the order of dispatch. */
  predicate DataOk(s: State)
    requires Shaped(s)
  {
    && s.log == Flatten(s.minutes) + s.bufs[1 - s.current] + s.bufs[s.current]
    && (Writes(s, 1 - s.current) ==> s.bufs[s.current] == [])
    && (s.announcer.Announcing? || s.announcer.Rewritten? || s.announcer.Clearing? || s.announcer.Cleared? ==>
          s.bufs[1 - s.current] == [])
    && IsHistory(s)
  }

  predicate Ok(s: State) {
    Shaped(s) && WorkersOk(s) && ListenerOk(s) && DataOk(s)
  }

  lemma InitOk(s: State)
    requires Init(s)
    ensures Ok(s)
  {
    CountExtremes(s.workers);
    assert forall w :: 0 <= w < |s.workers| ==> WorkerOk(s, w);
  }

  predicate OfWorker(step: Step) {
    match step
    case SeeFlag(_) => true
    case Pop(_) => true
    case SeeEmpty(_) => true
    case Acquire(_) => true
    case Decrement(_) => true
    case FindFlagSet(_) => true
    case FindFlagReset(_) => true
    case FallAsleep(_) => true
    case WakeUp(_) => true
    case LookAgain(_) => true
    case Rejoin(_) => true
    case _ => false
  }

  lemma CountStepOfWorker(s: State, step: Step)
    requires Shaped(s) && Enabled(s, step) && OfWorker(step) && s.readers == CountedWorkers(s.workers)
    ensures Do(s, step).readers == CountedWorkers(Do(s, step).workers)
  {
    CountUpdate(s.workers, step.w, Do(s, step).workers[step.w]);
  }

  lemma CountStep(s: State, step: Step)
    requires Shaped(s) && Enabled(s, step) && s.readers == CountedWorkers(s.workers)
    ensures Do(s, step).readers == CountedWorkers(Do(s, step).workers)
  {
    if OfWorker(step) {
      CountStepOfWorker(s, step);
    } else if step.NotifyAll? {
      CountNotified(s.workers, Do(s, step).workers);
    }
  }

  /** A step of a worker, seen from another one or from itself. */
  lemma WorkerStepOfWorker(s: State, step: Step, w: nat)
    requires Shaped(s) && Enabled(s, step) && OfWorker(step) && WorkersOk(s) && w < |s.workers|
    ensures WorkerOk(Do(s, step), w)
    ensures Do(s, step).lock == ByAnnouncer <==> s.lock == ByAnnouncer
  {
    assert WorkerOk(s, w) && WorkerOk(s, step.w);
  }

  /** A step of the listener or the announcer, seen from a worker. */
  lemma WorkerStepOfOther(s: State, step: Step, w: nat)
    requires Shaped(s) && Enabled(s, step) && !OfWorker(step) && WorkersBack(s, step) && WorkersOk(s) && w < |s.workers|
    ensures WorkerOk(Do(s, step), w)
  {
    assert WorkerOk(s, w);
    if step.SeeNoReader? {
      CountExtremes(s.workers);
    }
  }

  lemma WorkersStep(s: State, step: Step)
    requires Shaped(s) && Enabled(s, step) && WorkersBack(s, step) && WorkersOk(s)
    ensures WorkersOk(Do(s, step))
  {
    CountStep(s, step);
    forall w | 0 <= w < |s.workers|
      ensures WorkerOk(Do(s, step), w)
    {
      if OfWorker(step) {
        WorkerStepOfWorker(s, step, w);
      } else {
        WorkerStepOfOther(s, step, w);
      }
    }
    if OfWorker(step) { WorkerStepOfWorker(s, step, step.w); }
  }

  lemma ListenerStepOfWorker(s: State, step: Step)
    requires Shaped(s) && Enabled(s, step) && OfWorker(step) && ListenerOk(s)
    ensures Shaped(Do(s, step)) && ListenerOk(Do(s, step))
  {
  }

  lemma ListenerStepOfOther(s: State, step: Step)
    requires Shaped(s) && Enabled(s, step) && !OfWorker(step) && ListenerArrived(s, step) && ListenerOk(s)
    ensures Shaped(Do(s, step)) && ListenerOk(Do(s, step))
  {
  }

  lemma ListenerStep(s: State, step: Step)
    requires Shaped(s) && Enabled(s, step) && ListenerArrived(s, step) && ListenerOk(s)
    ensures Shaped(Do(s, step)) && ListenerOk(Do(s, step))
  {
    if OfWorker(step) {
      ListenerStepOfWorker(s, step);
    } else {
      ListenerStepOfOther(s, step);
    }
  }

  lemma DispatchKeepsData(s: State)
    requires Shaped(s) && Enabled(s, Dispatch) && ListenerOk(s) && DataOk(s)
    ensures DataOk(Do(s, Dispatch))
  {
    var t := Do(s, Dispatch);
    assert s.inData == s.current || s.bufs[s.current] == [];
    assert t.log == Flatten(t.minutes) + t.bufs[1 - t.current] + t.bufs[t.current];
  }

  lemma FinishMakesHistory(s: State)
    requires Shaped(s) && Enabled(s, Finish) && IsHistory(s)
    ensures IsHistory(Do(s, Finish))
  {
    OneMoreMinute(map[], s.minutes, Minute(s.announcer.drop, s.bufs[1 - s.current]));
  }

  lemma HistoryStep(s: State, step: Step)
    requires Shaped(s) && Enabled(s, step) && IsHistory(s)
    ensures IsHistory(Do(s, step))
  {
    if step.Finish? { FinishMakesHistory(s); }
  }

  lemma FinishKeepsLog(s: State)
    requires Shaped(s) && Enabled(s, Finish)
    ensures var t := Do(s, Finish);
            Flatten(t.minutes) + t.bufs[1 - t.current] + t.bufs[t.current]
            == Flatten(s.minutes) + s.bufs[1 - s.current] + s.bufs[s.current]
  {
    FlattenMore(s.minutes, Minute(s.announcer.drop, s.bufs[1 - s.current]), s.bufs[s.current]);
  }

  lemma FinishKeepsData(s: State)
    requires Shaped(s) && Enabled(s, Finish) && ListenerOk(s) && DataOk(s)
    ensures DataOk(Do(s, Finish))
  {
    FinishMakesHistory(s);
    FinishKeepsLog(s);
  }

  lemma SwapKeepsData(s: State, drop: bool)
    requires Shaped(s) && Enabled(s, Swap(drop)) && ListenerArrived(s, Swap(drop)) && ListenerOk(s) && DataOk(s)
    ensures DataOk(Do(s, Swap(drop)))
  {
    var t := Do(s, Swap(drop));
    assert t.log == Flatten(t.minutes) + t.bufs[1 - t.current] + t.bufs[t.current];
  }

  lemma DataStepOfWorker(s: State, step: Step)
    requires Shaped(s) && Enabled(s, step) && OfWorker(step) && DataOk(s)
    ensures Shaped(Do(s, step)) && DataOk(Do(s, step))
  {
  }

  lemma SameData(s: State, step: Step)
    requires Shaped(s) && Enabled(s, step) && !OfWorker(step) && !step.Dispatch? && !step.Finish? && !step.Swap?
    ensures var t := Do(s, step);
            t.log == s.log && t.minutes == s.minutes && t.bufs == s.bufs && t.current == s.current && t.core == s.core
  {
  }

  lemma DataStepOfOther(s: State, step: Step)
    requires Shaped(s) && Enabled(s, step) && !OfWorker(step) && ListenerArrived(s, step) && ListenerOk(s) && DataOk(s)
    requires !step.Dispatch? && !step.Finish? && !step.Swap?
    ensures Shaped(Do(s, step)) && DataOk(Do(s, step))
  {
    SameData(s, step);
    ListenerStepOfOther(s, step);
  }

  lemma DataStep(s: State, step: Step)
    requires Shaped(s) && Enabled(s, step) && ListenerArrived(s, step) && ListenerOk(s) && DataOk(s)
    ensures Shaped(Do(s, step)) && DataOk(Do(s, step))
  {
    if OfWorker(step) {
      DataStepOfWorker(s, step);
    } else {
      match step
      case Dispatch => DispatchKeepsData(s);
      case Finish => FinishKeepsData(s);
      case Swap(drop) => SwapKeepsData(s, drop);
      case _ => DataStepOfOther(s, step);
    }
  }

  // ------------------------------------------------------------------------------------------
  // Runs
  // ------------------------------------------------------------------------------------------

  ghost predicate Follows(states: seq<State>, steps: seq<Step>, i: nat)
    requires i < |steps| && |states| == |steps| + 1
  {
    Next(states[i], steps[i]) && states[i + 1] == Do(states[i], steps[i])
  }

  ghost predicate IsRun(states: seq<State>, steps: seq<Step>) {
    |states| == |steps| + 1 && Init(states[0]) && forall i :: 0 <= i < |steps| ==> Follows(states, steps, i)
  }

  lemma {:induction false} RunOk(states: seq<State>, steps: seq<Step>, i: nat)
    requires IsRun(states, steps) && i <= |steps|
    ensures Ok(states[i])
  {
    if i == 0 {
      InitOk(states[0]);
    } else {
      RunOk(states, steps, i - 1);
      assert Follows(states, steps, i - 1);
      var s, step := states[i - 1], steps[i - 1];
      WorkersStep(s, step);
      ListenerStep(s, step);
      DataStep(s, step);
    }
  }

  /** Core data is rewritten only while no worker reads it and nobody writes the buffer being drained. */
  lemma RewritesAlone(states: seq<State>, steps: seq<Step>, i: nat)
    requires IsRun(states, steps) && i <= |steps| && states[i].announcer.Rewriting?
    ensures forall w :: 0 <= w < |states[i].workers| ==>
                          var p := states[i].workers[w]; p.Decremented? || p.Falling? || p.Waiting?
    ensures !Writes(states[i], 1 - states[i].current)
  {
    RunOk(states, steps, i);
    forall w | 0 <= w < |states[i].workers|
      ensures var p := states[i].workers[w]; p.Decremented? || p.Falling? || p.Waiting?
    {
      assert WorkerOk(states[i], w);
    }
  }

  /** The reader count is the number of workers who are not between parking and rejoining. */
  lemma ReadersAreCounted(states: seq<State>, steps: seq<Step>, i: nat)
    requires IsRun(states, steps) && i <= |steps|
    ensures states[i].readers == CountedWorkers(states[i].workers)
  {
    RunOk(states, steps, i);
  }

  // ------------------------------------------------------------------------------------------
  // Messages, drops and jobs: what goes in is what comes out
  // ------------------------------------------------------------------------------------------

  /** The messages read from the connection. */
  function MessagesRead(steps: seq<Step>): seq<Message> {
    if steps == [] then []
    else
      var last := steps[|steps| - 1];
      MessagesRead(steps[..|steps| - 1]) + if last.Build? then [last.msg] else []
  }

  /** The message the listener has in hand. */
  function InHand(l: Listener): seq<Message> {
    if l.Building? then [] else [l.msg]
  }

  lemma {:induction false} DispatchedAsRead(states: seq<State>, steps: seq<Step>, i: nat)
    requires IsRun(states, steps) && i <= |steps|
    ensures states[i].log + InHand(states[i].listener) == MessagesRead(steps[..i])
  {
    if i > 0 {
      DispatchedAsRead(states, steps, i - 1);
      assert Follows(states, steps, i - 1);
      assert steps[..i][..i - 1] == steps[..i - 1];
      ReadStep(states[i - 1], steps[i - 1]);
    }
  }

  lemma ReadStep(s: State, step: Step)
    requires Next(s, step)
    ensures var t, before := Do(s, step), s.log + InHand(s.listener);
            t.log + InHand(t.listener) == if step.Build? then before + [step.msg] else before
  {
  }

  /** What the recalculations have been called with: true for a drop. */
  function DropsRequested(steps: seq<Step>): seq<bool> {
    if steps == [] then []
    else
      var last := steps[|steps| - 1];
      DropsRequested(steps[..|steps| - 1]) + if last.Swap? then [last.drop] else []
  }

  function DropsDone(minutes: seq<Minute>): (r: seq<bool>)
    ensures |r| == |minutes| && forall k :: 0 <= k < |minutes| ==> r[k] == minutes[k].dropOldRating
  {
    seq(|minutes|, k requires 0 <= k < |minutes| => minutes[k].dropOldRating)
  }

  /** The recalculation under way, until it is done. */
  function DropUnderWay(a: Announcer): seq<bool> {
    if a.Swapped? || a.Flagged? || a.Drained? || a.Rewriting? then [a.drop] else []
  }

  lemma DropStep(s: State, step: Step)
    requires Next(s, step)
    ensures var t, before := Do(s, step), DropsDone(s.minutes) + DropUnderWay(s.announcer);
            DropsDone(t.minutes) + DropUnderWay(t.announcer) == if step.Swap? then before + [step.drop] else before
  {
  }

  /** The k-th recalculation drops the rating exactly if the announcer has called for it. */
  lemma {:induction false} DropsAsRequested(states: seq<State>, steps: seq<Step>, i: nat)
    requires IsRun(states, steps) && i <= |steps|
    ensures DropsDone(states[i].minutes) + DropUnderWay(states[i].announcer) == DropsRequested(steps[..i])
  {
    if i > 0 {
      DropsAsRequested(states, steps, i - 1);
      assert Follows(states, steps, i - 1);
      assert steps[..i][..i - 1] == steps[..i - 1];
      DropStep(states[i - 1], steps[i - 1]);
    }
  }

  /** The pointers the announcer has put in the queue of worker w: to that user, as created by then. */
  function Announced(states: seq<State>, steps: seq<Step>, i: nat, w: nat): seq<UserPointer>
    requires i <= |steps| && |states| == |steps| + 1
  {
    if i == 0 then []
    else
      Announced(states, steps, i - 1, w)
      + if steps[i - 1].Announce? && steps[i - 1].w == w then [UserPointer(steps[i - 1].id, states[i - 1].epoch)] else []
  }

  /** The pointers worker w has taken out of its queue. */
  function Served(states: seq<State>, steps: seq<Step>, i: nat, w: nat): seq<UserPointer>
    requires i <= |steps| && |states| == |steps| + 1
  {
    if i == 0 then []
    else
      Served(states, steps, i - 1, w)
      + if steps[i - 1] == Pop(w) && w < |states[i - 1].queues| && states[i - 1].queues[w] != []
        then [states[i - 1].queues[w][0]] else []
  }

  lemma QueueIsStep(s: State, step: Step, w: nat)
    requires Next(s, step) && w < |s.queues|
    ensures |Do(s, step).queues| == |s.queues|
    ensures Do(s, step).queues[w] ==
            if step.Announce? && step.w == w then s.queues[w] + [UserPointer(step.id, s.epoch)]
            else if step == Pop(w) then s.queues[w][1..] else s.queues[w]
  {
  }

  /** Every job for a worker is served once, in order, or still in its queue. */
  lemma {:induction false} ServedAsAnnounced(states: seq<State>, steps: seq<Step>, i: nat, w: nat)
    requires IsRun(states, steps) && i <= |steps| && w < |states[0].queues|
    ensures |states[i].queues| == |states[0].queues|
    ensures Served(states, steps, i, w) + states[i].queues[w] == Announced(states, steps, i, w)
  {
    if i > 0 {
      ServedAsAnnounced(states, steps, i - 1, w);
      assert Follows(states, steps, i - 1);
      var s, step := states[i - 1], steps[i - 1];
      QueueIsStep(s, step, w);
      if step == Pop(w) {
        assert s.queues[w] == [s.queues[w][0]] + s.queues[w][1..];
      }
    }
  }

  /** Messages read are recalculated once, in order; what is left is in the two buffers or in hand, in order. */
  lemma NothingIsLost(states: seq<State>, steps: seq<Step>, i: nat)
    requires IsRun(states, steps) && i <= |steps|
    ensures Shaped(states[i])
    ensures var s := states[i];
            && MessagesRead(steps[..i]) ==
               Flatten(s.minutes) + s.bufs[1 - s.current] + s.bufs[s.current] + InHand(s.listener)
            && s.log == Flatten(s.minutes) + s.bufs[1 - s.current] + s.bufs[s.current]
            && s.core == AfterMinutes(map[], s.minutes)
  {
    RunOk(states, steps, i);
    DispatchedAsRead(states, steps, i);
  }

  lemma DealsInParts(done: seq<Message>, before: seq<Message>, now: seq<Message>, id: Id)
    ensures DealsOf(done + before + now, id) == DealsOf(done, id) + DealsOf(before, id) + DealsOf(now, id)
  {
    DealsOfConcat(done, before, id);
    DealsOfConcat(done + before, now, id);
  }

  lemma MoneyInAState(s: State, id: Id)
    requires Shaped(s) && DataOk(s)
    ensures DealsOf(s.log, id) == DealsOf(s.bufs[0], id) + DealsOf(s.bufs[1], id)
                                  + Amount(s.core, id) + Dropped(s.minutes, id) + Rejected(s.minutes, id)
  {
    DealsInParts(Flatten(s.minutes), s.bufs[1 - s.current], s.bufs[s.current], id);
    MoneyIsConserved(s.minutes, id);
  }

  /** No deal is lost or counted twice, at any time. */
  lemma MoneyInARun(states: seq<State>, steps: seq<Step>, i: nat, id: Id)
    requires IsRun(states, steps) && i <= |steps|
    ensures Shaped(states[i])
    ensures var s := states[i];
            && DealsOf(MessagesRead(steps[..i]), id) == DealsOf(s.log, id) + DealsOf(InHand(s.listener), id)
            && DealsOf(s.log, id) == DealsOf(s.bufs[0], id) + DealsOf(s.bufs[1], id)
                                     + Amount(s.core, id) + Dropped(s.minutes, id) + Rejected(s.minutes, id)
  {
    RunOk(states, steps, i);
    DispatchedAsRead(states, steps, i);
    var s := states[i];
    MoneyInAState(s, id);
    DealsOfConcat(s.log, InHand(s.listener), id);
  }

  /** No wakeup is lost: between two refreshes everybody asleep has been notified. */
  lemma NobodySleepsOn(states: seq<State>, steps: seq<Step>, i: nat, w: nat)
    requires IsRun(states, steps) && i <= |steps| && states[i].announcer.Announcing? && w < |states[i].workers|
    ensures states[i].workers[w] != Waiting(false)
  {
    RunOk(states, steps, i);
    assert WorkerOk(states[i], w);
  }

  // ------------------------------------------------------------------------------------------
  // Pointers to users
  // ------------------------------------------------------------------------------------------

  /** The object the pointer was made for still exists. */
  predicate Points(s: State, p: UserPointer) {
    p.epoch == s.epoch && IsActive(s.core, p.id)
  }

  predicate QueuePoints(s: State, w: nat)
    requires w < |s.queues|
  {
    forall k :: 0 <= k < |s.queues[w]| ==> Points(s, s.queues[w][k])
  }

  /** Has found its queue empty, and not returned yet. */
  predicate Parked(p: Worker) {
    p.WantsLock? || HoldsLock(p) || p.Waiting?
  }

  /** A drop is under way, and core data not rewritten yet. */
  predicate WillDrop(a: Announcer) {
    a == Flagged(true) || a == Drained(true) || a == Rewriting(true)
  }

  /** Where it matters, a worker that has parked has nothing in its queue. */
  predicate ParkedEmpty(care: Care, s: State, w: nat)
    requires Shaped(s) && w < |s.workers|
  {
    (if care.Always? then s.flag else care.BeforeDrops? && WillDrop(s.announcer)) && Parked(s.workers[w]) ==>
      s.queues[w] == []
  }

  predicate PointersOk(care: Care, s: State)
    requires Shaped(s)
  {
    && (forall w :: 0 <= w < |s.workers| ==> ParkedEmpty(care, s, w))
    && (forall w :: 0 <= w < |s.workers| ==> QueuePoints(s, w))
  }

  lemma ParkedStepOfWorker(care: Care, s: State, step: Step, w: nat)
    requires Next(s, step) && OfWorker(step) && WorkersOk(s) && w < |s.workers| && ParkedEmpty(care, s, w)
    ensures Shaped(Do(s, step)) && ParkedEmpty(care, Do(s, step), w)
  {
    assert WorkerOk(s, w);
  }

  lemma ParkedStep(care: Care, s: State, step: Step, w: nat)
    requires Next(s, step) && QueuesSeen(care, s, step) && WorkersOk(s) && w < |s.workers| && ParkedEmpty(care, s, w)
    ensures Shaped(Do(s, step)) && ParkedEmpty(care, Do(s, step), w)
  {
    if OfWorker(step) {
      ParkedStepOfWorker(care, s, step, w);
    } else {
      assert WorkerOk(s, w);
    }
  }

  /** Users in the rating stay there until the next drop. */
  lemma FinishKeepsActive(core: CoreState, messages: seq<Message>, id: Id)
    requires IsActive(core, id)
    ensures IsActive(AfterMinute(core, Minute(false, messages)), id)
  {
    RecalculatedAt(core, FoldAll(messages), id);
  }

  lemma FinishKeepsPointers(care: Care, s: State, w: nat)
    requires Next(s, Finish) && !care.Careless? && WorkersOk(s) && w < |s.workers|
    requires ParkedEmpty(care, s, w) && QueuePoints(s, w)
    ensures QueuePoints(Do(s, Finish), w)
  {
    assert WorkerOk(s, w);
    if s.announcer.drop {
      assert Parked(s.workers[w]);
    } else {
      forall k | 0 <= k < |s.queues[w]|
        ensures Points(Do(s, Finish), s.queues[w][k])
      {
        assert Points(s, s.queues[w][k]);
        FinishKeepsActive(s.core, s.bufs[1 - s.current], s.queues[w][k].id);
      }
    }
  }

  lemma QueueStep(care: Care, s: State, step: Step, w: nat)
    requires Next(s, step) && !care.Careless? && WorkersOk(s) && w < |s.workers|
    requires ParkedEmpty(care, s, w) && QueuePoints(s, w)
    ensures Shaped(Do(s, step)) && QueuePoints(Do(s, step), w)
  {
    if step.Finish? { FinishKeepsPointers(care, s, w); }
  }

  lemma PointersStep(care: Care, s: State, step: Step)
    requires Next(s, step) && QueuesSeen(care, s, step) && !care.Careless? && WorkersOk(s) && PointersOk(care, s)
    ensures Shaped(Do(s, step)) && PointersOk(care, Do(s, step))
  {
    forall w | 0 <= w < |s.workers|
      ensures Shaped(Do(s, step)) && ParkedEmpty(care, Do(s, step), w) && QueuePoints(Do(s, step), w)
    {
      assert ParkedEmpty(care, s, w) && QueuePoints(s, w);
      ParkedStep(care, s, step, w);
      QueueStep(care, s, step, w);
    }
  }

  ghost predicate IsCarefulRun(care: Care, states: seq<State>, steps: seq<Step>) {
    IsRun(states, steps) && forall i :: 0 <= i < |steps| ==> QueuesSeen(care, states[i], steps[i])
  }

  lemma {:induction false} CarefulRunPoints(care: Care, states: seq<State>, steps: seq<Step>, i: nat)
    requires IsCarefulRun(care, states, steps) && !care.Careless? && i <= |steps|
    ensures Ok(states[i]) && PointersOk(care, states[i])
  {
    RunOk(states, steps, i);
    if i > 0 {
      CarefulRunPoints(care, states, steps, i - 1);
      assert Follows(states, steps, i - 1);
      PointersStep(care, states[i - 1], steps[i - 1]);
    }
  }

  /**
   No pointer outlives its object, if the workers who are late for a drop have nothing in their
   queues; and if that holds for all refreshes, queues are empty whenever core data is rewritten.
   */
  lemma PointersNeverDangle(care: Care, states: seq<State>, steps: seq<Step>, i: nat, w: nat)
    requires IsCarefulRun(care, states, steps) && !care.Careless? && i <= |steps| && w < |states[i].workers|
    ensures Shaped(states[i])
    ensures forall k :: 0 <= k < |states[i].queues[w]| ==> Points(states[i], states[i].queues[w][k])
    ensures states[i].announcer.Rewriting? && (care.Always? || states[i].announcer.drop) ==> states[i].queues[w] == []
  {
    CarefulRunPoints(care, states, steps, i);
    assert QueuePoints(states[i], w) && ParkedEmpty(care, states[i], w) && WorkerOk(states[i], w);
  }
}
