/**
 The hand-over assumptions of the refresh protocol are exactly what is needed: a step that breaks
 one of them can be followed by steps of the service that break what RefreshProtocol promises.
 */
module HandOver {
  import opened Users
  import opened Incoming
  import opened Batching
  import opened RefreshProtocol
  import opened RefreshProgress

  /** Which of the assumptions are made. */
  datatype Assumptions = Assumptions(listenerArrives: bool, workersComeBack: bool, care: Care)

  const SOME_MESSAGE := UserDealWon(1, 5)

  /** Those that the promises of RefreshProtocol rest on. */
  function Safe(care: Care): Assumptions {
    Assumptions(true, true, care)
  }

  predicate Allowed(a: Assumptions, s: State, step: Step) {
    && Shaped(s) && Enabled(s, step)
    && (a.listenerArrives ==> ListenerArrived(s, step))
    && (a.workersComeBack ==> WorkersBack(s, step))
    && QueuesSeen(a.care, s, step)
  }

  ghost predicate FollowsUnder(a: Assumptions, states: seq<State>, steps: seq<Step>, i: nat)
    requires i < |steps| && |states| == |steps| + 1
  {
    Allowed(a, states[i], steps[i]) && states[i + 1] == Do(states[i], steps[i])
  }

  ghost predicate IsRunUnder(a: Assumptions, states: seq<State>, steps: seq<Step>) {
    |states| == |steps| + 1
    && forall i {:trigger FollowsUnder(a, states, steps, i)} :: 0 <= i < |steps| ==> FollowsUnder(a, states, steps, i)
  }

  ghost predicate RunsTo(a: Assumptions, o: State, states: seq<State>, steps: seq<Step>, t: State) {
    IsRunUnder(a, states, steps) && states[0] == o && states[|steps|] == t
  }

  /** Some steps lead from `o` to `t`. */
  ghost predicate Reaches(a: Assumptions, o: State, t: State) {
    exists states, steps :: RunsTo(a, o, states, steps, t)
  }

  /** Some run of the service comes to this state. */
  ghost predicate Reachable(a: Assumptions, s: State) {
    exists o :: Init(o) && Reaches(a, o, s)
  }

  lemma Begun(a: Assumptions, o: State)
    ensures Reaches(a, o, o)
  {
    assert RunsTo(a, o, [o], [], o);
  }

  lemma Go(a: Assumptions, o: State, s: State, step: Step) returns (t: State)
    requires Reaches(a, o, s) && Allowed(a, s, step)
    ensures t == Do(s, step) && Reaches(a, o, t)
  {
    t := Do(s, step);
    var states, steps :| RunsTo(a, o, states, steps, s);
    forall i | 0 <= i < |steps| + 1
      ensures FollowsUnder(a, states + [t], steps + [step], i)
    {
      assert i < |steps| ==> FollowsUnder(a, states, steps, i);
    }
    assert RunsTo(a, o, states + [t], steps + [step], t);
  }

  // ------------------------------------------------------------------------------------------
  // With all assumptions
  // ------------------------------------------------------------------------------------------

  ghost predicate Sound(care: Care, s: State) {
    Ok(s) && (care.Careless? || PointersOk(care, s))
  }

  lemma SoundStep(care: Care, s: State, step: Step)
    requires Sound(care, s) && Allowed(Safe(care), s, step)
    ensures Sound(care, Do(s, step))
  {
    WorkersStep(s, step);
    ListenerStep(s, step);
    DataStep(s, step);
    if !care.Careless? { PointersStep(care, s, step); }
  }

  lemma {:induction false} SoundRun(care: Care, states: seq<State>, steps: seq<Step>, i: nat)
    requires IsRunUnder(Safe(care), states, steps) && Sound(care, states[0]) && i <= |steps|
    ensures Sound(care, states[i])
  {
    if i > 0 {
      SoundRun(care, states, steps, i - 1);
      assert FollowsUnder(Safe(care), states, steps, i - 1);
      SoundStep(care, states[i - 1], steps[i - 1]);
    }
  }

  lemma StaysSound(care: Care, o: State, s: State)
    requires Sound(care, o) && Reaches(Safe(care), o, s)
    ensures Sound(care, s)
  {
    var states, steps :| RunsTo(Safe(care), o, states, steps, s);
    SoundRun(care, states, steps, |steps|);
  }

  lemma ReachableIsSound(care: Care, s: State)
    requires Reachable(Safe(care), s)
    ensures Sound(care, s)
  {
    var o :| Init(o) && Reaches(Safe(care), o, s);
    InitOk(o);
    StaysSound(care, o, s);
  }

  /** What is possible under more assumptions is possible under fewer. */
  lemma Relax(a: Assumptions, b: Assumptions, o: State, s: State)
    requires Reaches(a, o, s)
    requires (b.listenerArrives ==> a.listenerArrives) && (b.workersComeBack ==> a.workersComeBack)
    requires b.care == a.care || b.care.Careless?
    ensures Reaches(b, o, s)
  {
    var states, steps :| RunsTo(a, o, states, steps, s);
    forall i | 0 <= i < |steps|
      ensures FollowsUnder(b, states, steps, i)
    {
      assert FollowsUnder(a, states, steps, i);
    }
    assert RunsTo(b, o, states, steps, s);
  }

  // ------------------------------------------------------------------------------------------
  // Driving the service through a refresh
  // ------------------------------------------------------------------------------------------

  /** What one worker keeps while others park: who has yet to rejoin stays so, who is away keeps the queue. */
  predicate Kept(s: State, t: State, w: nat) {
    && w < |s.workers| == |t.workers| && w < |s.queues| == |t.queues|
    && (s.workers[w] == Rejoining ==> t.workers[w] == Rejoining)
    && (!Counted(s.workers[w]) ==> !Counted(t.workers[w]) && t.queues[w] == s.queues[w])
  }

  /** Only workers and the lock have changed. */
  predicate OnlyWorkers(s: State, t: State) {
    t == s.(workers := t.workers, queues := t.queues, readers := t.readers, lock := t.lock)
    && |t.workers| == |s.workers|
  }

  lemma ParkStep(s: State, step: Step)
    requires Shaped(s) && CanPark(s) && Enabled(s, step) && OfWorker(step) && Pushes(step)
    requires Counted(s.workers[step.w]) || HoldsLock(s.workers[step.w])
    ensures var t := Do(s, step); Shaped(t) && CanPark(t) && OnlyWorkers(s, t)
    ensures forall w :: 0 <= w < |s.workers| ==> Kept(s, Do(s, step), w)
  {
    CountStep(s, step);
  }

  /** All workers leave the reader count. */
  lemma ParkAll(a: Assumptions, o: State, s: State) returns (t: State)
    requires Reaches(a, o, s) && Shaped(s) && CanPark(s)
    ensures Reaches(a, o, t) && Shaped(t) && OnlyWorkers(s, t) && t.readers == 0 && t.lock == Free
    ensures CanPark(t) && forall w :: 0 <= w < |s.workers| ==> Kept(s, t, w)
    decreases Work(s)
  {
    if s.readers == 0 && s.lock == Free { return s; }
    var step := SomeoneParks(s);
    WorkOfWorker(s, step);
    ParkStep(s, step);
    t := Go(a, o, s, step);
    var u := t;
    t := ParkAll(a, o, t);
    forall w | 0 <= w < |s.workers|
      ensures Kept(s, t, w)
    {
      assert Kept(s, u, w) && Kept(u, t, w);
    }
  }

  /** Between two refreshes every worker can return. */
  lemma AllComeBack(a: Assumptions, o: State, s: State) returns (t: State)
    requires Reaches(a, o, s) && Shaped(s) && s.announcer.Swapped? && WorkersOk(s)
    ensures Reaches(a, o, t) && Shaped(t) && WorkersOk(t) && t == s.(workers := t.workers, readers := t.readers)
    ensures |t.workers| == |s.workers|
    ensures forall w :: 0 <= w < |t.workers| ==> Counted(t.workers[w])
    decreases Work(s)
  {
    if w :| 0 <= w < |s.workers| && !Counted(s.workers[w]) {
      assert WorkerOk(s, w);
      assert s.lock.ByWorker? ==> WorkerOk(s, s.lock.w);
      var step := if s.workers[w].Rejoining? then Rejoin(w) else LookAgain(w);
      WorkOfWorker(s, step);
      WorkersStep(s, step);
      t := Go(a, o, s, step);
      t := AllComeBack(a, o, t);
    } else {
      t := s;
    }
  }

  /** How far the listener is from giving up the old buffer. */
  function Staying(s: State): nat {
    match s.listener
    case Loaded(_, buffer) => if buffer == s.inData then 5 else 1
    case Claimed(_) => 4
    case Building => 3
    case Built(_) => 2
    case Between(_, _) => 0
  }

  /** Only the listener has moved. */
  predicate OnlyListener(s: State, t: State) {
    t == s.(listener := t.listener, inData := t.inData, writers := t.writers, bufs := t.bufs, log := t.log)
  }

  lemma ListenerMoves(s: State, msg: Message) returns (step: Step)
    requires Shaped(s) && s.announcer.Flagged? && ListenerOk(s) && Writes(s, 1 - s.current)
    ensures Enabled(s, step) && !step.Swap? && !step.SetFlag?
    ensures var t := Do(s, step);
            && Shaped(t) && ListenerOk(t) && OnlyListener(s, t) && Staying(t) < Staying(s)
            && (Staying(s) <= 3 ==> t.bufs == s.bufs && if step.Leave? then t.listener.Between? else Writes(t, 1 - t.current))
            && (step.Leave? ==> t.writers[1 - t.current] == 0)
  {
    step := match s.listener
      case Building => Build(msg)
      case Built(_) => Load
      case Loaded(_, buffer) => if buffer == s.inData then Stay else Leave
      case _ => Dispatch;
  }

  /** The listener gives up the old buffer, if it has it, when there are messages. */
  lemma ListenerLeaves(a: Assumptions, o: State, s: State, msg: Message) returns (t: State)
    requires Reaches(a, o, s) && Shaped(s) && s.announcer.Flagged? && ListenerOk(s)
    ensures Reaches(a, o, t) && Shaped(t) && ListenerOk(t) && OnlyListener(s, t) && t.writers[1 - t.current] == 0
    ensures Writes(s, 1 - s.current) && Staying(s) <= 3 ==> t.listener.Between? && t.bufs == s.bufs
    decreases Staying(s)
  {
    if !Writes(s, 1 - s.current) { return s; }
    var step := ListenerMoves(s, msg);
    t := Go(a, o, s, step);
    if !step.Leave? { t := ListenerLeaves(a, o, t, msg); }
  }

  /** With nobody in the old buffer the announcer gets to the core data. */
  lemma GetsThere(a: Assumptions, o: State, s: State) returns (t: State)
    requires Reaches(a, o, s) && Shaped(s) && CanPark(s) && s.announcer.Flagged? && s.writers[1 - s.current] == 0
    ensures Reaches(a, o, t) && Shaped(t) && t.announcer == Rewriting(s.announcer.drop) && t.readers == 0 && t.lock == Free
    ensures CanPark(t) && OnlyWorkers(s, t.(announcer := s.announcer))
    ensures forall w :: 0 <= w < |s.workers| ==> Kept(s, t, w)
  {
    t := Go(a, o, s, SeeNoWriter);
    var u := t;
    t := ParkAll(a, o, t);
    var v := t;
    t := Go(a, o, t, SeeNoReader);
    forall w | 0 <= w < |s.workers|
      ensures Kept(s, t, w)
    {
      assert Kept(u, v, w);
    }
  }

  /** With some messages it gets there from any state behind the switch of the buffers. */
  lemma GetsThereWithMessages(a: Assumptions, o: State, s: State, msg: Message) returns (t: State)
    requires Reaches(a, o, s) && Shaped(s) && CanPark(s) && s.announcer.Flagged? && ListenerOk(s)
    ensures Reaches(a, o, t) && Shaped(t) && t.announcer == Rewriting(s.announcer.drop) && t.lock == Free && CanPark(t)
    ensures t.readers == 0 && t.current == s.current && t.core == s.core && t.epoch == s.epoch && t.minutes == s.minutes
    ensures |t.workers| == |s.workers| && forall w :: 0 <= w < |s.workers| ==> Kept(s, t, w)
    ensures Writes(s, 1 - s.current) && Staying(s) <= 3 ==> t.listener.Between? && t.bufs == s.bufs
  {
    var u := ListenerLeaves(a, o, s, msg);
    t := GetsThere(a, o, u);
    forall w | 0 <= w < |s.workers|
      ensures Kept(s, t, w)
    {
      assert Kept(u, t, w);
    }
  }

  lemma Flag(a: Assumptions, o: State, s: State) returns (t: State)
    requires Reaches(a, o, s) && Shaped(s) && s.announcer.Swapped? && WorkersOk(s)
    requires forall w :: 0 <= w < |s.workers| ==> Counted(s.workers[w])
    ensures Reaches(a, o, t) && Shaped(t) && CanPark(t)
    ensures t == s.(flag := true, announcer := Flagged(s.announcer.drop))
  {
    FlagKeepsLock(s);
    t := Go(a, o, s, SetFlag);
  }

  /** Setting the flag is no danger to lock and reader count, whoever is back. */
  lemma FlagKeepsLock(s: State)
    requires Shaped(s) && s.announcer.Swapped? && WorkersOk(s)
    ensures CanPark(Do(s, SetFlag)) && Shaped(Do(s, SetFlag))
  {
    forall w | 0 <= w < |s.workers|
      ensures HoldsLock(s.workers[w]) <==> s.lock == ByWorker(w)
    {
      assert WorkerOk(s, w);
    }
  }

  // ------------------------------------------------------------------------------------------
  // The listener
  // ------------------------------------------------------------------------------------------

  /** Somebody writes the buffer, or reads the core data, that the announcer is working on. */
  predicate Clash(s: State) {
    s.announcer.Rewriting? && ((s.listener.Claimed? && Writes(s, 1 - s.current))
                               || exists w :: 0 <= w < |s.workers| && ReadsCore(s.workers[w]))
  }

  lemma SoundHasNoClash(s: State)
    requires Ok(s)
    ensures !Clash(s)
  {
    forall w | 0 <= w < |s.workers|
      ensures !(s.announcer.Rewriting? && ReadsCore(s.workers[w]))
    {
      assert WorkerOk(s, w);
    }
  }

  /** The listener has found the wrong buffer. */
  lemma LeftBehind(a: Assumptions, o: State, s: State) returns (t: State)
    requires Reaches(a, o, s) && Shaped(s) && s.announcer.Swapped? && WorkersOk(s)
    requires s.listener.Between? && s.listener.buffer == 1 - s.current && s.writers == [0, 0]
    ensures Reaches(a, o, t) && t.announcer.Rewriting? && t.listener.Claimed? && Writes(t, 1 - t.current)
    ensures |t.workers| == |s.workers|
  {
    t := AllComeBack(a, o, s);
    t := Flag(a, o, t);
    t := GetsThere(a, o, t);
    t := Go(a, o, t, Claim);
  }

  /**
   The buffers may be switched exactly when the listener is not between them: otherwise it may end
   up writing into the buffer that is being drained.
   */
  lemma SwapGuardIsExact(care: Care, s: State, drop: bool)
    requires Reachable(Safe(care), s) && s.announcer.Announcing?
    ensures Shaped(s)
    ensures ListenerArrived(s, Swap(drop)) <==>
            !exists t :: Reaches(Safe(care), Do(s, Swap(drop)), t) && Clash(t)
  {
    ReachableIsSound(care, s);
    var u := Do(s, Swap(drop));
    if ListenerArrived(s, Swap(drop)) {
      SoundStep(care, s, Swap(drop));
      forall t | Reaches(Safe(care), u, t)
        ensures !Clash(t)
      {
        StaysSound(care, u, t);
        SoundHasNoClash(t);
      }
    } else {
      WorkersStep(s, Swap(drop));
      Begun(Safe(care), u);
      var t := LeftBehind(Safe(care), u, u);
    }
  }

  // ------------------------------------------------------------------------------------------
  // The workers
  // ------------------------------------------------------------------------------------------

  /** A worker who has found the flag reset enters the reader count too late. */
  lemma TooLate(a: Assumptions, o: State, s: State, w: nat, msg: Message) returns (t: State)
    requires Reaches(a, o, s) && Shaped(s) && s.announcer.Flagged? && CanPark(s) && ListenerOk(s)
    requires w < |s.workers| && s.workers[w] == Rejoining
    ensures Reaches(a, o, t) && t.announcer.Rewriting? && |t.workers| == |s.workers| && t.workers[w] == Working
  {
    t := GetsThereWithMessages(a, o, s, msg);
    assert Kept(s, t, w);
    t := Go(a, o, t, Rejoin(w));
  }

  /**
   The flag may be set exactly when every worker who has found it reset is back in the reader
   count: otherwise that worker may read core data while it is rewritten.
   */
  lemma FlagGuardIsExact(care: Care, s: State)
    requires Reachable(Safe(care), s) && s.announcer.Swapped?
    ensures Shaped(s)
    ensures WorkersBack(s, SetFlag) <==>
            !exists t :: Reaches(Safe(care), Do(s, SetFlag), t) && Clash(t)
  {
    ReachableIsSound(care, s);
    var u := Do(s, SetFlag);
    if WorkersBack(s, SetFlag) {
      SoundStep(Careless, s, SetFlag);
      forall t | Reaches(Safe(care), u, t)
        ensures !Clash(t)
      {
        Relax(Safe(care), Safe(Careless), u, t);
        StaysSound(Careless, u, t);
        SoundHasNoClash(t);
      }
    } else {
      var w :| 0 <= w < |s.workers| && s.workers[w] == Rejoining;
      FlagKeepsLock(s);
      ListenerStep(s, SetFlag);
      Begun(Safe(care), u);
      var t := TooLate(Safe(care), u, u, w, SOME_MESSAGE);
      assert ReadsCore(t.workers[w]);
    }
  }

  // ------------------------------------------------------------------------------------------
  // The pointers
  // ------------------------------------------------------------------------------------------

  /** There is a pointer to a user who is no more. */
  ghost predicate Dangles(s: State) {
    exists w, k :: 0 <= w < |s.queues| && 0 <= k < |s.queues[w]| && !Points(s, s.queues[w][k])
  }

  /** Core data is being rewritten, and there are still pointers into it. */
  ghost predicate StillQueued(s: State) {
    s.announcer.Rewriting? && exists w :: 0 <= w < |s.queues| && s.queues[w] != []
  }

  /** What care is taken to avoid. */
  ghost predicate Stale(care: Care, s: State) {
    if care.Always? then StillQueued(s) else Dangles(s)
  }

  lemma SoundIsNotStale(care: Care, s: State)
    requires Sound(care, s) && !care.Careless?
    ensures !Stale(care, s)
  {
    forall w | 0 <= w < |s.workers|
      ensures care.Always? && s.announcer.Rewriting? ==> s.queues[w] == []
      ensures forall k :: 0 <= k < |s.queues[w]| ==> Points(s, s.queues[w][k])
    {
      assert ParkedEmpty(care, s, w) && QueuePoints(s, w) && WorkerOk(s, w);
    }
  }

  /** A worker who sleeps through a refresh keeps its queue. */
  lemma SleepsThrough(a: Assumptions, o: State, s: State, w: nat, msg: Message) returns (t: State)
    requires Reaches(a, o, s) && Shaped(s) && s.announcer.Flagged? && CanPark(s) && ListenerOk(s)
    requires w < |s.workers| && !Counted(s.workers[w]) && s.queues[w] != []
    ensures Reaches(a, o, t) && Shaped(t) && t.announcer == Rewriting(s.announcer.drop)
    ensures |t.queues| == |s.queues| && t.queues[w] == s.queues[w] && t.epoch == s.epoch
  {
    t := GetsThereWithMessages(a, o, s, msg);
    assert Kept(s, t, w);
  }

  /** With a drop, the pointers in that queue outlive their users. */
  lemma OutlivesUser(a: Assumptions, o: State, s: State, w: nat, msg: Message) returns (t: State)
    requires Reaches(a, o, s) && Shaped(s) && s.announcer == Flagged(true) && CanPark(s) && ListenerOk(s)
    requires w < |s.workers| && !Counted(s.workers[w]) && s.queues[w] != [] && QueuePoints(s, w)
    ensures Reaches(a, o, t) && Shaped(t) && |t.queues| == |s.queues| && t.queues[w] == s.queues[w] && !Points(t, t.queues[w][0])
  {
    t := SleepsThrough(a, o, s, w, msg);
    assert Points(s, s.queues[w][0]);
    t := Go(a, o, t, Finish);
  }

  /**
   If the flag is set when a worker that has not come back has a pointer in its queue, the pointer
   may outlive its user, if it is for a drop, or still be there when core data is rewritten.
   */
  lemma QueueGuardIsExact(care: Care, s: State)
    requires Reachable(Safe(care), s) && !care.Careless? && s.announcer.Swapped? && WorkersBack(s, SetFlag)
    ensures Shaped(s)
    ensures QueuesSeen(care, s, SetFlag) <==>
            !exists t :: Reaches(Safe(care), Do(s, SetFlag), t) && Stale(care, t)
  {
    ReachableIsSound(care, s);
    var u := Do(s, SetFlag);
    if QueuesSeen(care, s, SetFlag) {
      SoundStep(care, s, SetFlag);
      forall t | Reaches(Safe(care), u, t)
        ensures !Stale(care, t)
      {
        StaysSound(care, u, t);
        SoundIsNotStale(care, t);
      }
    } else {
      var w :| 0 <= w < |s.workers| && !Counted(s.workers[w]) && s.queues[w] != [];
      FlagKeepsLock(s);
      ListenerStep(s, SetFlag);
      Begun(Safe(care), u);
      assert QueuePoints(s, w);
      if care.Always? {
        var t := SleepsThrough(Safe(care), u, u, w, SOME_MESSAGE);
        assert Stale(care, t);
      } else {
        assert QueuePoints(u, w);
        var t := OutlivesUser(Safe(care), u, u, w, SOME_MESSAGE);
        assert Stale(care, t);
      }
    }
  }

  // ------------------------------------------------------------------------------------------
  // The order in which the threads are started
  // ------------------------------------------------------------------------------------------

  /** The worker pool sets the reader count and starts its threads. */
  function PoolStarted(s: State, n: nat): State {
    s.(workers := seq(n, _ => Working), queues := seq(n, _ => []), readers := n)
  }

  /** The listener has read nothing yet, and the announcer has not got past its first wait. */
  predicate BeforeFirstMessage(s: State) {
    && s.listener.Building? && |s.workers| == 0
    && if s.announcer.Announcing? then Writes(s, s.current)
       else (s.announcer.Swapped? || s.announcer.Flagged?) && Writes(s, 1 - s.current)
  }

  lemma {:induction false} WaitsForTheListener(states: seq<State>, steps: seq<Step>, i: nat)
    requires IsRun(states, steps) && i <= |steps| && |states[0].workers| == 0
    requires forall k :: 0 <= k < i ==> !steps[k].Build?
    ensures BeforeFirstMessage(states[i])
  {
    if i > 0 {
      WaitsForTheListener(states, steps, i - 1);
      RunOk(states, steps, i - 1);
      assert Follows(states, steps, i - 1);
    }
  }

  /**
   The announcer is started before the pool sets the reader count, but after the listener has
   claimed its buffer. The first recalculation waits for the first message, which is read when the
   pool is started, so whatever the announcer has done by then, all invariants hold from there on.
   */
  lemma AnnouncerMayStartFirst(care: Care, states: seq<State>, steps: seq<Step>, i: nat, n: nat)
    requires IsRun(states, steps) && i <= |steps| && |states[0].workers| == 0
    requires forall k :: 0 <= k < i ==> !steps[k].Build?
    ensures !BarrierClosed(states[i].announcer) && Sound(care, PoolStarted(states[i], n))
    ensures forall t :: Reaches(Safe(care), PoolStarted(states[i], n), t) ==> Sound(care, t) && !Clash(t)
  {
    WaitsForTheListener(states, steps, i);
    RunOk(states, steps, i);
    var s := PoolStarted(states[i], n);
    CountExtremes(s.workers);
    assert forall w :: 0 <= w < n ==> WorkerOk(s, w);
    assert forall w :: 0 <= w < n ==> QueuePoints(s, w) && ParkedEmpty(care, s, w);
    forall t | Reaches(Safe(care), s, t)
      ensures Sound(care, t) && !Clash(t)
    {
      StaysSound(care, s, t);
      SoundHasNoClash(t);
    }
  }

  // ------------------------------------------------------------------------------------------
  // With any number of workers it can come to that
  // ------------------------------------------------------------------------------------------

  lemma StartedIsSound(care: Care, n: nat)
    ensures Sound(care, Started(n)) && Reaches(Safe(care), Started(n), Started(n))
  {
    InitOk(Started(n));
    Begun(Safe(care), Started(n));
    assert Reachable(Safe(care), Started(n));
    ReachableIsSound(care, Started(n));
  }

  lemma AllAsleep(s: State)
    requires Ok(s) && s.announcer.Rewriting? && s.lock == Free
    ensures forall w :: 0 <= w < |s.workers| ==> s.workers[w].Waiting?
  {
    forall w | 0 <= w < |s.workers|
      ensures s.workers[w].Waiting?
    {
      assert WorkerOk(s, w);
    }
  }

  /** The start of a refresh. */
  lemma Switch(care: Care, o: State, s: State, drop: bool) returns (t: State)
    requires Reaches(Safe(care), o, s) && Ok(s) && s.announcer.Announcing? && !s.listener.Between?
    ensures Reaches(Safe(care), o, t) && Shaped(t) && CanPark(t) && |t.workers| == |s.workers|
    ensures t == s.(current := 1 - s.current, announcer := Flagged(drop), flag := true, workers := t.workers, readers := t.readers)
  {
    t := Go(Safe(care), o, s, Swap(drop));
    WorkersStep(s, Swap(drop));
    t := AllComeBack(Safe(care), o, t);
    t := Flag(Safe(care), o, t);
  }

  /** The announcer resets the flag under the lock, and notifies. */
  lemma Reset(care: Care, o: State, s: State) returns (t: State)
    requires Reaches(Safe(care), o, s) && Shaped(s) && s.announcer.Rewritten? && s.lock == Free
    ensures Reaches(Safe(care), o, t) && t.announcer.Announcing? && t.workers == Notified(s.workers)
    ensures t.listener == s.listener && t.minutes == s.minutes && t.lock == Free && !t.flag
  {
    t := Go(Safe(care), o, s, TakeLock);
    t := Go(Safe(care), o, t, ResetFlag);
    t := Go(Safe(care), o, t, NotifyAll);
  }

  /** The end of a refresh. */
  lemma End(care: Care, o: State, s: State) returns (t: State)
    requires Reaches(Safe(care), o, s) && Ok(s) && s.announcer.Rewriting? && s.lock == Free
    ensures Reaches(Safe(care), o, t) && t.announcer.Announcing? && |t.workers| == |s.workers| && t.lock == Free && !t.flag
    ensures t.listener == s.listener && t.minutes == s.minutes + [Minute(s.announcer.drop, s.bufs[1 - s.current])]
    ensures forall w :: 0 <= w < |t.workers| ==> t.workers[w] == Waiting(true)
  {
    AllAsleep(s);
    t := Go(Safe(care), o, s, Finish);
    t := Reset(care, o, t);
  }

  /** A whole refresh; at its end the workers have been notified, and the listener is between the buffers. */
  lemma Refresh(care: Care, o: State, s: State, drop: bool, msg: Message) returns (t: State)
    requires Sound(care, o) && Reaches(Safe(care), o, s) && Ok(s) && s.announcer.Announcing? && s.listener.Building?
    ensures Reaches(Safe(care), o, t) && Sound(care, t) && t.announcer.Announcing? && t.listener.Between?
    ensures t.lock == Free && !t.flag
    ensures |t.workers| == |s.workers| && t.minutes == s.minutes + [Minute(drop, s.bufs[s.current])]
    ensures forall w :: 0 <= w < |t.workers| ==> t.workers[w] == Waiting(true)
  {
    t := Switch(care, o, s, drop);
    StaysSound(care, o, t);
    t := GetsThereWithMessages(Safe(care), o, t, msg);
    StaysSound(care, o, t);
    t := End(care, o, t);
    StaysSound(care, o, t);
  }

  /**
   If the buffers may be switched while the listener is between them, it may end up writing into
   the buffer that is being drained.
   */
  lemma LateListener(n: nat, msg: Message)
    ensures exists t :: Reaches(Assumptions(false, true, Always), Started(n), t) && |t.workers| == n
                        && t.announcer.Rewriting? && t.listener.Claimed? && Writes(t, 1 - t.current)
  {
    var a, o := Assumptions(false, true, Always), Started(n);
    StartedIsSound(Always, n);
    var t := Refresh(Always, o, o, false, msg);
    Relax(Safe(Always), a, o, t);
    var u := Go(a, o, t, Swap(false));
    WorkersStep(t, Swap(false));
    u := LeftBehind(a, o, u);
  }

  /** The buffers are switched while one worker has found the flag reset. */
  lemma FoundReset(care: Care, n: nat, w: nat, msg: Message) returns (t: State)
    requires w < n
    ensures Reaches(Safe(care), Started(n), t) && Sound(care, t) && t.announcer == Swapped(false)
    ensures |t.workers| == n && t.workers[w] == Rejoining
    ensures forall v :: 0 <= v < n && v != w ==> t.workers[v] == Waiting(true)
  {
    var o := Started(n);
    StartedIsSound(care, n);
    t := Refresh(care, o, o, false, msg);
    t := Go(Safe(care), o, t, Claim);
    t := Go(Safe(care), o, t, LookAgain(w));
    t := Go(Safe(care), o, t, Swap(false));
    StaysSound(care, o, t);
  }

  /**
   If the flag may be set again before a worker who has found it reset is back in the reader
   count, that worker may read core data while it is rewritten.
   */
  lemma LateWorker(n: nat, w: nat, msg: Message)
    requires w < n
    ensures exists t :: Reaches(Assumptions(true, false, BeforeDrops), Started(n), t) && |t.workers| == n
                        && t.announcer.Rewriting? && t.workers[w] == Working
  {
    var a, o := Assumptions(true, false, BeforeDrops), Started(n);
    var t := FoundReset(BeforeDrops, n, w, msg);
    Relax(Safe(BeforeDrops), a, o, t);
    FlagKeepsLock(t);
    ListenerStep(t, SetFlag);
    t := Go(a, o, t, SetFlag);
    t := TooLate(a, o, t, w, msg);
  }

  /** The deals of a minute put the user in the rating. */
  lemma OneDeal(m: Message, d: Message)
    requires m == UserRegistered(1, []) && d == UserDealWon(1, 5)
    ensures RefreshProtocol.IsActive(AfterMinutes(map[], [Minute(false, [m, d])]), 1)
  {
    var minute := Minute(false, [m, d]);
    assert [minute][..0] == [] && [m, d][..1] == [m] && [m][..0] == [];
    assert FoldAll([m]) == EMPTY.(registered := map[1 := []]);
    assert FoldAll([m, d]) == EMPTY.(registered := map[1 := []], deals := map[1 := 5]);
    RecalculatedAt(map[], FoldAll([m, d]), 1);
  }

  /** The listener dispatches a message to the buffer it has claimed. */
  lemma DispatchOne(a: Assumptions, o: State, s: State, msg: Message) returns (t: State)
    requires Reaches(a, o, s) && Shaped(s) && s.listener.Building? && s.inData == s.current && s.announcer.Announcing?
    ensures Reaches(a, o, t) && t.listener.Building? && t.inData == t.current && t.announcer.Announcing?
    ensures Shaped(t) && t.minutes == s.minutes && t.bufs[t.current] == s.bufs[s.current] + [msg] && t.workers == s.workers
  {
    t := Go(a, o, s, Build(msg));
    t := Go(a, o, t, Load);
    t := Go(a, o, t, Stay);
    t := Go(a, o, t, Dispatch);
  }

  /** User 1 is in the rating, and all workers have been notified. */
  lemma UserInRating(care: Care, n: nat, msg: Message) returns (t: State)
    ensures Reaches(Safe(care), Started(n), t) && Sound(care, t) && t.announcer.Announcing? && t.listener.Between?
    ensures |t.workers| == n && RefreshProtocol.IsActive(t.core, 1)
    ensures forall w :: 0 <= w < |t.workers| ==> t.workers[w] == Waiting(true)
  {
    var o := Started(n);
    StartedIsSound(care, n);
    var m, d := UserRegistered(1, []), UserDealWon(1, 5);
    t := DispatchOne(Safe(care), o, o, m);
    t := DispatchOne(Safe(care), o, t, d);
    assert t.bufs[t.current] == [m, d];
    StaysSound(care, o, t);
    t := Refresh(care, o, t, false, msg);
    assert t.minutes == [Minute(false, [m, d])];
    OneDeal(m, d);
  }

  /** The buffers are switched for a drop while there is a pointer in the queue of a worker who still sleeps. */
  lemma PointerQueued(n: nat, w: nat, msg: Message) returns (t: State)
    requires w < n
    ensures Reaches(Safe(BeforeDrops), Started(n), t) && Sound(BeforeDrops, t) && t.announcer == Swapped(true)
    ensures |t.workers| == n && t.queues[w] != []
    ensures forall v :: 0 <= v < n ==> t.workers[v] == Waiting(true)
  {
    var o := Started(n);
    StartedIsSound(BeforeDrops, n);
    t := UserInRating(BeforeDrops, n, msg);
    t := Go(Safe(BeforeDrops), o, t, Claim);
    t := Go(Safe(BeforeDrops), o, t, Announce(1, w));
    t := Go(Safe(BeforeDrops), o, t, Swap(true));
    StaysSound(BeforeDrops, o, t);
  }

  /**
   If there may be pointers in the queue of a worker who sleeps until the drop, they may stay there
   after it has destroyed the users.
   */
  lemma SleepingWorker(n: nat, w: nat, msg: Message)
    requires w < n
    ensures exists t :: Reaches(Safe(Careless), Started(n), t) && Shaped(t) && |t.workers| == n
                        && t.queues[w] != [] && !Points(t, t.queues[w][0])
  {
    var a, o := Safe(Careless), Started(n);
    var t := PointerQueued(n, w, msg);
    Relax(Safe(BeforeDrops), a, o, t);
    FlagKeepsLock(t);
    ListenerStep(t, SetFlag);
    assert QueuePoints(t, w);
    t := Go(a, o, t, SetFlag);
    assert QueuePoints(t, w);
    t := OutlivesUser(a, o, t, w, msg);
  }
}
