/**
 The multi-producer single-consumer queue of service/job_queue.cpp: producers and the consumer take
 atomic steps on shared pointers, in any interleaving. Nodes live in a heap; a deleted node may
 be allocated again, and touching a node that is not allocated is a fault.
 */
module MpscQueue {
  import opened Users

  type Pointer = nat

  datatype Node<T> = Node(next: Option<Pointer>, value: Option<T>)

  /** A producer in `push`; `k` numbers the exchanges. */
  datatype Producer =
    | Idle
    | Allocated(node: Pointer)
    | Exchanged(node: Pointer, prev: Pointer, k: nat)

  /** The consumer in `tryPop`. */
  datatype Consumer =
    | Resting
    | Seen(head: Pointer, next: Pointer)
    | HeadMoved(head: Pointer, next: Pointer)
    | Taken(head: Pointer)

  datatype State<T> = State(
    heap: map<Pointer, Node<T>>, head: Pointer, tail: Pointer,
    producers: seq<Producer>, consumer: Consumer, fault: bool,
    // history: the values in the order of the exchanges and what has been popped; the nodes in that
    // order, behind the stub; how often the head has moved; the pushes that have been linked
    pushed: seq<T>, popped: seq<T>, order: seq<Pointer>, moved: nat, linked: set<nat>)

  datatype Step<T> =
    | New(p: nat, node: Pointer, value: T)
    | Exchange(p: nat)
    | Link(p: nat)
    | LoadNext
    | MoveHead
    | Take
    | Delete

  ghost predicate Init<T>(s: State<T>) {
    && s.heap == map[s.head := Node(None, None)] && s.tail == s.head
    && (forall p :: 0 <= p < |s.producers| ==> s.producers[p] == Idle) && s.consumer == Resting && !s.fault
    && s.pushed == [] && s.popped == [] && s.order == [s.head] && s.moved == 0 && s.linked == {}
  }

  predicate Enabled<T>(s: State<T>, step: Step<T>) {
    match step
    case New(p, node, _) => p < |s.producers| && s.producers[p].Idle? && node !in s.heap
    case Exchange(p) => p < |s.producers| && s.producers[p].Allocated?
    case Link(p) => p < |s.producers| && s.producers[p].Exchanged?
    case LoadNext => s.consumer.Resting?
    case MoveHead => s.consumer.Seen?
    case Take => s.consumer.HeadMoved?
    case Delete => s.consumer.Taken?
  }

  /** The next pointer of the node the head points to. */
  function NextOfHead<T>(s: State<T>): Option<Pointer> {
    if s.head in s.heap then s.heap[s.head].next else None
  }

  function Do<T>(s: State<T>, step: Step<T>): State<T>
    requires Enabled(s, step)
  {
    match step
    case New(p, node, value) =>
      s.(heap := s.heap[node := Node(None, Some(value))], producers := s.producers[p := Allocated(node)])
    case Exchange(p) =>
      var node := s.producers[p].node;
      if node !in s.heap || s.heap[node].value.None? then s.(fault := true)
      else
        s.(tail := node, producers := s.producers[p := Exchanged(node, s.tail, |s.pushed|)],
           pushed := s.pushed + [s.heap[node].value.value], order := s.order + [node])
    case Link(p) =>
      var prev := s.producers[p].prev;
      if prev !in s.heap then s.(fault := true)
      else
        s.(heap := s.heap[prev := s.heap[prev].(next := Some(s.producers[p].node))],
           producers := s.producers[p := Idle], linked := s.linked + {s.producers[p].k})
    case LoadNext =>
      if s.head !in s.heap then s.(fault := true)
      else if s.heap[s.head].next.None? then s
      else s.(consumer := Seen(s.head, s.heap[s.head].next.value))
    case MoveHead =>
      s.(head := s.consumer.next, moved := s.moved + 1, consumer := HeadMoved(s.consumer.head, s.consumer.next))
    case Take =>
      var next := s.consumer.next;
      if next !in s.heap || s.heap[next].value.None? then s.(fault := true)
      else s.(popped := s.popped + [s.heap[next].value.value], consumer := Taken(s.consumer.head))
    case Delete =>
      if s.consumer.head !in s.heap then s.(fault := true)
      else s.(heap := s.heap - {s.consumer.head}, consumer := Resting)
  }

  // ------------------------------------------------------------------------------------------
  // What every step keeps
  // ------------------------------------------------------------------------------------------

  /** The i-th node, linked to the next one as far as that link has been made. */
  ghost predicate NodeOk<T>(s: State<T>, i: nat)
    requires i < |s.order| == |s.pushed| + 1
  {
    && s.order[i] in s.heap
    && s.heap[s.order[i]].next == (if i in s.linked && i < |s.pushed| then Some(s.order[i + 1]) else None)
    && (i > s.moved || (i == s.moved && s.consumer.HeadMoved?) ==> i > 0 && s.heap[s.order[i]].value == Some(s.pushed[i - 1]))
  }

  /** The two nodes are different ones. */
  ghost predicate Apart<T>(s: State<T>, i: nat, j: nat)
    requires i < |s.order| && j < |s.order|
  {
    s.order[i] != s.order[j]
  }

  /** The nodes from the head on. */
  ghost predicate ChainOk<T>(s: State<T>) {
    && |s.order| == |s.pushed| + 1 && s.moved <= |s.pushed|
    && s.head == s.order[s.moved] && s.tail == s.order[|s.pushed|]
    && (forall i :: s.moved <= i < |s.order| ==> NodeOk(s, i))
    && (forall i, j {:trigger Apart(s, i, j)} :: s.moved <= i < j < |s.order| ==> Apart(s, i, j))
    && (forall k :: k in s.linked ==> k < |s.pushed|)
    && (forall k :: 0 <= k < s.moved ==> k in s.linked)
  }

  /** The node is allocated and not part of the chain. */
  ghost predicate Private<T>(s: State<T>, node: Pointer) {
    node in s.heap && forall i :: s.moved <= i < |s.order| ==> s.order[i] != node
  }

  ghost predicate ProducerOk<T>(s: State<T>, p: nat)
    requires p < |s.producers| && |s.order| == |s.pushed| + 1
  {
    match s.producers[p]
    case Idle => true
    case Allocated(node) =>
      && Private(s, node) && s.heap[node].next == None && s.heap[node].value.Some?
      && (s.consumer.HeadMoved? || s.consumer.Taken? ==> s.consumer.head != node)
    case Exchanged(node, prev, k) =>
      s.moved <= k < |s.pushed| && k !in s.linked && prev == s.order[k] && node == s.order[k + 1]
  }

  /** No two producers hold the same node or the same exchange. */
  ghost predicate NoConflict<T>(s: State<T>, p: nat, q: nat)
    requires p < |s.producers| && q < |s.producers|
  {
    && (s.producers[p].Allocated? && s.producers[q].Allocated? ==> s.producers[p].node != s.producers[q].node)
    && (s.producers[p].Exchanged? && s.producers[q].Exchanged? ==> s.producers[p].k != s.producers[q].k)
  }

  ghost predicate ProducersOk<T>(s: State<T>)
    requires |s.order| == |s.pushed| + 1
  {
    && (forall p :: 0 <= p < |s.producers| ==> ProducerOk(s, p))
    && (forall p, q {:trigger NoConflict(s, p, q)} :: 0 <= p < q < |s.producers| ==> NoConflict(s, p, q))
    && (forall k {:trigger InFlight(s, k)} :: 0 <= k < |s.pushed| && k !in s.linked ==> InFlight(s, k))
  }

  /** Some producer has exchanged the k-th time and not linked yet. */
  ghost predicate InFlight<T>(s: State<T>, k: nat) {
    exists p :: 0 <= p < |s.producers| && s.producers[p].Exchanged? && s.producers[p].k == k
  }

  ghost predicate ConsumerOk<T>(s: State<T>)
    requires |s.order| == |s.pushed| + 1 && s.moved <= |s.pushed|
  {
    && s.popped == (if s.consumer.HeadMoved? then s.pushed[..if s.moved > 0 then s.moved - 1 else 0] else s.pushed[..s.moved])
    && match s.consumer
       case Resting => true
       case Seen(head, next) =>
         s.moved < |s.pushed| && s.moved in s.linked && head == s.order[s.moved] && next == s.order[s.moved + 1]
       case HeadMoved(head, next) => s.moved > 0 && Private(s, head) && next == s.head
       case Taken(head) => Private(s, head)
  }

  ghost predicate Ok<T>(s: State<T>) {
    !s.fault && ChainOk(s) && ProducersOk(s) && ConsumerOk(s)
  }

  lemma InitOk<T>(s: State<T>)
    requires Init(s)
    ensures Ok(s)
  {
    assert NodeOk(s, 0);
    assert forall p :: 0 <= p < |s.producers| ==> ProducerOk(s, p);
    assert forall p, q :: 0 <= p < q < |s.producers| ==> NoConflict(s, p, q);
  }

  predicate OfConsumer<T>(step: Step<T>) {
    step.LoadNext? || step.MoveHead? || step.Take? || step.Delete?
  }

  /** The steps of tryPop. */
  lemma ConsumerKeeps<T>(s: State<T>, step: Step<T>)
    requires Ok(s) && Enabled(s, step) && OfConsumer(step)
    ensures Ok(Do(s, step))
  {
    var t := Do(s, step);
    assert NodeOk(s, s.moved);
    forall i | s.moved < i < |s.order|
      ensures s.order[i] != s.order[s.moved]
    {
      assert Apart(s, s.moved, i);
    }
    forall i | t.moved <= i < |t.order|
      ensures NodeOk(t, i)
    {
      assert NodeOk(s, i);
    }
    forall i, j | t.moved <= i < j < |t.order|
      ensures Apart(t, i, j)
    {
      assert Apart(s, i, j);
    }
    forall q | 0 <= q < |t.producers|
      ensures ProducerOk(t, q)
    {
      assert ProducerOk(s, q);
    }
    forall q, r | 0 <= q < r < |t.producers|
      ensures NoConflict(t, q, r)
    {
      assert NoConflict(s, q, r);
    }
    forall k | 0 <= k < |t.pushed| && k !in t.linked
      ensures InFlight(t, k)
    {
      assert InFlight(s, k);
    }
  }

  /** A step of one producer leaves the pushes of the others under way. */
  lemma StillInFlight<T>(s: State<T>, t: State<T>, p: nat, k: nat)
    requires InFlight(s, k) && |t.producers| == |s.producers| && p < |s.producers|
    requires forall q :: 0 <= q < |s.producers| && q != p ==> t.producers[q] == s.producers[q]
    requires s.producers[p].Exchanged? ==> s.producers[p].k != k
    ensures InFlight(t, k)
  {
    var q :| 0 <= q < |s.producers| && s.producers[q].Exchanged? && s.producers[q].k == k;
    assert t.producers[q] == s.producers[q];
  }

  lemma NewKeeps<T>(s: State<T>, p: nat, node: Pointer, value: T)
    requires Ok(s) && Enabled(s, New(p, node, value))
    ensures Ok(Do(s, New(p, node, value)))
  {
    var t := Do(s, New(p, node, value));
    forall i | s.moved <= i < |s.order|
      ensures s.order[i] != node
    {
      assert NodeOk(s, i);
    }
    forall i | t.moved <= i < |t.order|
      ensures NodeOk(t, i)
    {
      assert NodeOk(s, i);
    }
    forall i, j | t.moved <= i < j < |t.order|
      ensures Apart(t, i, j)
    {
      assert Apart(s, i, j);
    }
    forall q | 0 <= q < |t.producers|
      ensures ProducerOk(t, q)
    {
      assert ProducerOk(s, q);
    }
    forall q, r | 0 <= q < r < |t.producers|
      ensures NoConflict(t, q, r)
    {
      assert NoConflict(s, q, r) && ProducerOk(s, q) && ProducerOk(s, r);
    }
    forall k | 0 <= k < |t.pushed| && k !in t.linked
      ensures InFlight(t, k)
    {
      StillInFlight(s, t, p, k);
    }
  }

  lemma LinkKeeps<T>(s: State<T>, p: nat)
    requires Ok(s) && Enabled(s, Link(p))
    ensures Ok(Do(s, Link(p)))
  {
    var t := Do(s, Link(p));
    assert ProducerOk(s, p) && NodeOk(s, s.producers[p].k);
    forall i | t.moved <= i < |t.order|
      ensures NodeOk(t, i)
    {
      var k := s.producers[p].k;
      assert NodeOk(s, i) && (i < k ==> Apart(s, i, k)) && (k < i ==> Apart(s, k, i));
    }
    forall i, j | t.moved <= i < j < |t.order|
      ensures Apart(t, i, j)
    {
      assert Apart(s, i, j);
    }
    forall q | 0 <= q < |t.producers|
      ensures ProducerOk(t, q)
    {
      assert ProducerOk(s, q) && (q < p ==> NoConflict(s, q, p)) && (p < q ==> NoConflict(s, p, q));
    }
    forall q, r | 0 <= q < r < |t.producers|
      ensures NoConflict(t, q, r)
    {
      assert NoConflict(s, q, r);
    }
    forall k | 0 <= k < |t.pushed| && k !in t.linked
      ensures InFlight(t, k)
    {
      StillInFlight(s, t, p, k);
    }
  }

  lemma ExchangeKeeps<T>(s: State<T>, p: nat)
    requires Ok(s) && Enabled(s, Exchange(p))
    ensures Ok(Do(s, Exchange(p)))
  {
    var t := Do(s, Exchange(p));
    assert ProducerOk(s, p);
    forall i | t.moved <= i < |t.order|
      ensures NodeOk(t, i)
    {
      assert i < |s.order| ==> NodeOk(s, i);
    }
    forall i, j | t.moved <= i < j < |t.order|
      ensures Apart(t, i, j)
    {
      assert j < |s.order| ==> Apart(s, i, j);
    }
    forall q | 0 <= q < |t.producers|
      ensures ProducerOk(t, q)
    {
      assert ProducerOk(s, q) && (q < p ==> NoConflict(s, q, p)) && (p < q ==> NoConflict(s, p, q));
    }
    forall q, r | 0 <= q < r < |t.producers|
      ensures NoConflict(t, q, r)
    {
      assert NoConflict(s, q, r) && ProducerOk(s, q) && ProducerOk(s, r);
    }
    forall k | 0 <= k < |t.pushed| && k !in t.linked
      ensures InFlight(t, k)
    {
      if k == |s.pushed| {
        assert t.producers[p].k == k;
      } else {
        StillInFlight(s, t, p, k);
      }
    }
  }

  lemma StepKeeps<T>(s: State<T>, step: Step<T>)
    requires Ok(s) && Enabled(s, step)
    ensures Ok(Do(s, step))
  {
    match step
    case New(p, node, value) => NewKeeps(s, p, node, value);
    case Exchange(p) => ExchangeKeeps(s, p);
    case Link(p) => LinkKeeps(s, p);
    case _ => ConsumerKeeps(s, step);
  }

  // ------------------------------------------------------------------------------------------
  // Runs
  // ------------------------------------------------------------------------------------------

  ghost predicate Follows<T>(states: seq<State<T>>, steps: seq<Step<T>>, i: nat)
    requires i < |steps| && |states| == |steps| + 1
  {
    Enabled(states[i], steps[i]) && states[i + 1] == Do(states[i], steps[i])
  }

  ghost predicate IsRun<T>(states: seq<State<T>>, steps: seq<Step<T>>) {
    |states| == |steps| + 1 && Init(states[0]) && forall i :: 0 <= i < |steps| ==> Follows(states, steps, i)
  }

  lemma {:induction false} RunOk<T>(states: seq<State<T>>, steps: seq<Step<T>>, i: nat)
    requires IsRun(states, steps) && i <= |steps|
    ensures Ok(states[i])
  {
    if i == 0 {
      InitOk(states[0]);
    } else {
      RunOk(states, steps, i - 1);
      assert Follows(states, steps, i - 1);
      StepKeeps(states[i - 1], steps[i - 1]);
    }
  }

  /** What has been popped is a prefix of what has been pushed, in the order of the exchanges. */
  lemma PoppedInOrder<T>(states: seq<State<T>>, steps: seq<Step<T>>, i: nat)
    requires IsRun(states, steps) && i <= |steps|
    ensures states[i].popped <= states[i].pushed
  {
    RunOk(states, steps, i);
  }

  /** Nobody ever touches a deleted node; in particular no producer is going to write to one. */
  lemma NoUseAfterFree<T>(states: seq<State<T>>, steps: seq<Step<T>>, i: nat, p: nat)
    requires IsRun(states, steps) && i <= |steps| && p < |states[i].producers|
    ensures !states[i].fault
    ensures var s := states[i];
            s.producers[p].Exchanged? ==>
              && s.moved <= s.producers[p].k < |s.order| && s.producers[p].prev == s.order[s.producers[p].k]
              && s.producers[p].prev in s.heap && s.heap[s.producers[p].prev].next == None
              && (s.consumer.HeadMoved? || s.consumer.Taken? ==> s.consumer.head != s.producers[p].prev)
  {
    RunOk(states, steps, i);
    var s := states[i];
    assert ProducerOk(s, p);
    if s.producers[p].Exchanged? { assert NodeOk(s, s.producers[p].k); }
  }

  // ------------------------------------------------------------------------------------------
  // One producer's values
  // ------------------------------------------------------------------------------------------

  /** What producer p has called push with so far. */
  function Asked<T>(steps: seq<Step<T>>, p: nat): seq<T> {
    if steps == [] then []
    else
      var last := steps[|steps| - 1];
      Asked(steps[..|steps| - 1], p) + if last.New? && last.p == p then [last.value] else []
  }

  /** Who made the exchanges, in their order. */
  function Pushers<T>(steps: seq<Step<T>>): seq<nat> {
    if steps == [] then []
    else
      var last := steps[|steps| - 1];
      Pushers(steps[..|steps| - 1]) + if last.Exchange? then [last.p] else []
  }

  /** Those of the values that come from producer p. */
  function From<T>(values: seq<T>, pushers: seq<nat>, p: nat): seq<T>
    requires |values| <= |pushers|
  {
    if values == [] then []
    else
      var last := |values| - 1;
      From(values[..last], pushers, p) + if pushers[last] == p then [values[last]] else []
  }

  /** The value producer p has allocated a node for, but not exchanged the tail for yet. */
  function Pending<T>(s: State<T>, p: nat): seq<T> {
    if p < |s.producers| && s.producers[p].Allocated? && s.producers[p].node in s.heap
       && s.heap[s.producers[p].node].value.Some?
    then [s.heap[s.producers[p].node].value.value] else []
  }

  lemma PendingStep<T>(s: State<T>, step: Step<T>, p: nat)
    requires Ok(s) && Enabled(s, step) && p < |s.producers|
    ensures |Do(s, step).producers| == |s.producers|
    ensures Pending(Do(s, step), p) ==
            if step.New? && step.p == p then [step.value] else if step.Exchange? && step.p == p then [] else Pending(s, p)
    ensures step.Exchange? ==> |Pending(s, step.p)| == 1
    ensures Do(s, step).pushed == if step.Exchange? then s.pushed + [Pending(s, step.p)[0]] else s.pushed
    ensures step.New? && step.p == p ==> Pending(s, p) == []
  {
    assert ProducerOk(s, p);
    if step.Exchange? || step.Link? || step.New? { assert ProducerOk(s, step.p); }
  }

  lemma {:induction false} FromPrefix<T>(values: seq<T>, pushers: seq<nat>, more: seq<nat>, p: nat)
    requires |values| <= |pushers|
    ensures From(values, pushers + more, p) == From(values, pushers, p)
  {
    if values != [] {
      FromPrefix(values[..|values| - 1], pushers, more, p);
    }
  }

  lemma FromOneMore<T>(values: seq<T>, v: T, pushers: seq<nat>, q: nat, p: nat)
    requires |values| == |pushers|
    ensures From(values + [v], pushers + [q], p) == if q == p then From(values, pushers, p) + [v] else From(values, pushers, p)
  {
    FromPrefix(values, pushers, [q], p);
    assert (values + [v])[..|values|] == values;
  }

  lemma AskedOneMore<T>(steps: seq<Step<T>>, i: nat, p: nat)
    requires i < |steps|
    ensures var before := Asked(steps[..i], p);
            Asked(steps[..i + 1], p) == if steps[i].New? && steps[i].p == p then before + [steps[i].value] else before
    ensures var before := Pushers(steps[..i]);
            Pushers(steps[..i + 1]) == if steps[i].Exchange? then before + [steps[i].p] else before
  {
    assert steps[..i + 1][..i] == steps[..i];
  }

  /** Producer p has pushed, or is about to push, what it was asked for. */
  ghost predicate AsAsked<T>(s: State<T>, pushers: seq<nat>, asked: seq<T>, p: nat) {
    p < |s.producers| && |pushers| == |s.pushed| && From(s.pushed, pushers, p) + Pending(s, p) == asked
  }

  lemma AsAskedStep<T>(s: State<T>, step: Step<T>, pushers: seq<nat>, asked: seq<T>, p: nat)
    requires Ok(s) && Enabled(s, step) && AsAsked(s, pushers, asked, p)
    ensures AsAsked(Do(s, step), if step.Exchange? then pushers + [step.p] else pushers,
                    if step.New? && step.p == p then asked + [step.value] else asked, p)
  {
    PendingStep(s, step, p);
    var sofar := From(s.pushed, pushers, p);
    if step.Exchange? {
      var v := Pending(s, step.p)[0];
      FromOneMore(s.pushed, v, pushers, step.p, p);
      assert Pending(s, step.p) == [v] && sofar + [v] + [] == sofar + [v];
    } else if step.New? && step.p == p {
      assert sofar + [] == sofar;
    }
  }

  /** What a producer has pushed, and what it is about to push, is what it was asked for, in order. */
  lemma {:induction false} PushedAsAsked<T>(states: seq<State<T>>, steps: seq<Step<T>>, i: nat, p: nat)
    requires IsRun(states, steps) && i <= |steps| && p < |states[0].producers|
    ensures AsAsked(states[i], Pushers(steps[..i]), Asked(steps[..i], p), p)
  {
    if i > 0 {
      PushedAsAsked(states, steps, i - 1, p);
      assert Follows(states, steps, i - 1);
      RunOk(states, steps, i - 1);
      AskedOneMore(steps, i - 1, p);
      AsAskedStep(states[i - 1], steps[i - 1], Pushers(steps[..i - 1]), Asked(steps[..i - 1], p), p);
    }
  }

  lemma {:induction false} FromGrows<T>(values: seq<T>, k: nat, pushers: seq<nat>, p: nat)
    requires k <= |values| <= |pushers|
    ensures From(values[..k], pushers, p) <= From(values, pushers, p)
    decreases |values|
  {
    if k < |values| {
      FromGrows(values[..|values| - 1], k, pushers, p);
      assert values[..|values| - 1][..k] == values[..k];
    } else {
      assert values[..k] == values;
    }
  }

  /** What the consumer has got from producer p so far. */
  function Got<T>(states: seq<State<T>>, steps: seq<Step<T>>, i: nat, p: nat): seq<T>
    requires i <= |steps| && i < |states| && |states[i].popped| <= |Pushers(steps[..i])|
  {
    From(states[i].popped, Pushers(steps[..i]), p)
  }

  /**
   The consumer gets a producer's values in the order of the producer's calls, none missing in
   between; and when the queue is drained and the producer is not in push, it has got all.
   */
  lemma FirstInFirstOut<T>(states: seq<State<T>>, steps: seq<Step<T>>, i: nat, p: nat)
    requires IsRun(states, steps) && i <= |steps| && p < |states[0].producers|
    ensures |states[i].popped| <= |Pushers(steps[..i])|
    ensures Got(states, steps, i, p) <= Asked(steps[..i], p)
    ensures states[i].popped == states[i].pushed && Pending(states[i], p) == [] ==>
              Got(states, steps, i, p) == Asked(steps[..i], p)
  {
    PoppedInOrder(states, steps, i);
    PushedAsAsked(states, steps, i, p);
    var s := states[i];
    FromGrows(s.pushed, |s.popped|, Pushers(steps[..i]), p);
    assert s.pushed[..|s.popped|] == s.popped;
  }

  // ------------------------------------------------------------------------------------------
  // No leaks
  // ------------------------------------------------------------------------------------------

  ghost predicate InChain<T>(s: State<T>, a: Pointer) {
    exists i :: s.moved <= i < |s.order| && s.order[i] == a
  }

  ghost predicate IsNew<T>(s: State<T>, a: Pointer) {
    exists p :: 0 <= p < |s.producers| && s.producers[p] == Allocated(a)
  }

  /** The old head, which the consumer will delete next. */
  predicate IsDone<T>(s: State<T>, a: Pointer) {
    (s.consumer.HeadMoved? || s.consumer.Taken?) && s.consumer.head == a
  }

  /** The node is still needed. */
  ghost predicate Needed<T>(s: State<T>, a: Pointer) {
    InChain(s, a) || IsNew(s, a) || IsDone(s, a)
  }

  lemma ChainStep<T>(s: State<T>, step: Step<T>, a: Pointer)
    requires Ok(s) && Enabled(s, step) && InChain(s, a)
    ensures Needed(Do(s, step), a)
  {
    var t := Do(s, step);
    var i :| s.moved <= i < |s.order| && s.order[i] == a;
    if t.moved <= i {
      assert t.order[i] == a;
    }
  }

  lemma NewStep<T>(s: State<T>, step: Step<T>, a: Pointer)
    requires Ok(s) && Enabled(s, step) && IsNew(s, a)
    ensures Needed(Do(s, step), a)
  {
    var t := Do(s, step);
    var p :| 0 <= p < |s.producers| && s.producers[p] == Allocated(a);
    assert ProducerOk(s, p);
    if step == Exchange(p) {
      assert t.order[|s.order|] == a;
    } else {
      assert t.producers[p] == s.producers[p];
    }
  }

  lemma NeededStep<T>(s: State<T>, step: Step<T>, a: Pointer)
    requires Ok(s) && Enabled(s, step) && (a in s.heap ==> Needed(s, a)) && a in Do(s, step).heap
    ensures Needed(Do(s, step), a)
  {
    if step.New? && step.node == a {
      assert Do(s, step).producers[step.p] == Allocated(a);
    } else if InChain(s, a) {
      ChainStep(s, step, a);
    } else if IsNew(s, a) {
      NewStep(s, step, a);
    }
  }

  lemma NeededIsThere<T>(s: State<T>, a: Pointer)
    requires Ok(s) && Needed(s, a)
    ensures a in s.heap
  {
    if i :| s.moved <= i < |s.order| && s.order[i] == a {
      assert NodeOk(s, i);
    } else if p :| 0 <= p < |s.producers| && s.producers[p] == Allocated(a) {
      assert ProducerOk(s, p);
    }
  }

  lemma {:induction false} OnlyNeeded<T>(states: seq<State<T>>, steps: seq<Step<T>>, i: nat, a: Pointer)
    requires IsRun(states, steps) && i <= |steps| && a in states[i].heap
    ensures Needed(states[i], a)
  {
    if i == 0 {
      assert states[0].order[0] == a;
    } else {
      RunOk(states, steps, i - 1);
      assert Follows(states, steps, i - 1);
      if a in states[i - 1].heap { OnlyNeeded(states, steps, i - 1, a); }
      NeededStep(states[i - 1], steps[i - 1], a);
    }
  }

  /** The nodes that are needed are there, and no others: all that are not needed any more are deleted. */
  lemma NothingLeaks<T>(states: seq<State<T>>, steps: seq<Step<T>>, i: nat, a: Pointer)
    requires IsRun(states, steps) && i <= |steps|
    ensures a in states[i].heap <==> Needed(states[i], a)
  {
    RunOk(states, steps, i);
    if a in states[i].heap {
      OnlyNeeded(states, steps, i, a);
    } else if Needed(states[i], a) {
      NeededIsThere(states[i], a);
    }
  }

  /** The queue looks empty only if it is, or if the next push has not been linked yet. */
  lemma EmptyOrDelayed<T>(states: seq<State<T>>, steps: seq<Step<T>>, i: nat)
    requires IsRun(states, steps) && i <= |steps| && states[i].consumer.Resting?
    ensures var s := states[i];
            NextOfHead(s) == None <==> s.popped == s.pushed || InFlight(s, |s.popped|)
  {
    RunOk(states, steps, i);
    var s := states[i];
    assert NodeOk(s, s.moved);
    if s.moved < |s.pushed| && InFlight(s, s.moved) {
      var p :| 0 <= p < |s.producers| && s.producers[p].Exchanged? && s.producers[p].k == s.moved;
      assert ProducerOk(s, p);
    }
  }

  /** One call of tryPop that nobody interrupts. */
  function TryPop<T>(s: State<T>): State<T>
    requires s.consumer.Resting?
  {
    var seen := Do(s, LoadNext);
    if seen.consumer.Seen? then
      var taken := Do(Do(seen, MoveHead), Take);
      if taken.consumer.Taken? then Do(taken, Delete) else taken
    else seen
  }

  lemma TryPopPops<T>(s: State<T>)
    requires Ok(s) && s.consumer.Resting? && |s.popped| < |s.pushed| && !InFlight(s, |s.popped|)
    ensures var t := TryPop(s);
            && Ok(t) && t.consumer.Resting? && t.producers == s.producers && t.pushed == s.pushed
            && t.popped == s.pushed[..|s.popped| + 1]
  {
    assert NodeOk(s, s.moved);
    ConsumerKeeps(s, LoadNext);
    var seen := Do(s, LoadNext);
    ConsumerKeeps(seen, MoveHead);
    var moved := Do(seen, MoveHead);
    ConsumerKeeps(moved, Take);
    ConsumerKeeps(Do(moved, Take), Delete);
  }

  function PopAll<T>(s: State<T>, n: nat): State<T>
    requires s.consumer.Resting?
    decreases n
  {
    if n == 0 then s
    else
      var t := TryPop(s);
      if t.consumer.Resting? then PopAll(t, n - 1) else t
  }

  /** When no push is under way, repeated tryPop returns all that was pushed. */
  lemma {:induction false} QuietQueueDrains<T>(s: State<T>)
    requires Ok(s) && s.consumer.Resting? && forall p :: 0 <= p < |s.producers| ==> !s.producers[p].Exchanged?
    ensures PopAll(s, |s.pushed| - |s.popped|).popped == s.pushed
    decreases |s.pushed| - |s.popped|
  {
    if |s.popped| < |s.pushed| {
      TryPopPops(s);
      QuietQueueDrains(TryPop(s));
    }
  }
}
