/** How a thread spreads its jobs over the workers' queues (service/job_queue.cpp). */
module JobQueue {
  import opened MpscQueue

  lemma Earlier(n: nat, i: nat, row: nat, q: nat)
    requires q < n && i < row
    ensures i * n + q < row * n
  {
    assert 0 <= (row - i - 1) * n == row * n - i * n - n;
  }

  lemma Unique(n: nat, d: nat, r: nat, row: nat, q: nat)
    requires r < n && q < n && d * n + r == row * n + q
    ensures d == row && r == q
  {
    if d < row {
      Earlier(n, d, row, r);
    } else if row < d {
      Earlier(n, row, d, q);
    }
  }

  /** Only one place of one queue belongs to the job numbered j. */
  lemma Quotient(n: nat, row: nat, q: nat, j: nat)
    requires q < n && j == row * n + q
    ensures j / n == row && j % n == q
  {
    var d, r := j / n, j % n;
    assert j == d * n + r;
    Unique(n, d, r, row, q);
  }

  /** These are the jobs numbered q, n + q, 2n + q... */
  ghost predicate Share<T>(mine: seq<T>, n: nat, q: nat, jobs: seq<T>) {
    forall i :: 0 <= i < |mine| ==> i * n + q < |jobs| && mine[i] == jobs[i * n + q]
  }

  lemma ShareStays<T>(mine: seq<T>, n: nat, q: nat, jobs: seq<T>, job: T)
    requires Share(mine, n, q, jobs)
    ensures Share(mine, n, q, jobs + [job])
  {
  }

  lemma ShareGrows<T>(mine: seq<T>, n: nat, q: nat, jobs: seq<T>, job: T)
    requires Share(mine, n, q, jobs) && |jobs| == |mine| * n + q
    ensures Share(mine + [job], n, q, jobs + [job])
  {
    forall i | 0 <= i < |mine| + 1
      ensures i * n + q < |jobs| + 1 && (mine + [job])[i] == (jobs + [job])[i * n + q]
    {
      if i == |mine| {
        assert i * n + q == |jobs|;
      }
    }
  }

  /** One thread's jobs of one kind. `jobs` is everything it has enqueued, `row` the finished rounds. */
  class RoundRobin<T> {
    var queues: array<seq<T>>
    var currentQueueIndex: nat
    ghost var jobs: seq<T>
    ghost var row: nat

    /** Queue q has one job of every round so far, in order: those numbered q, n + q, 2n + q... */
    ghost predicate Valid()
      reads this, queues
    {
      var n := queues.Length;
      && currentQueueIndex < n && |jobs| == row * n + currentQueueIndex
      && (forall q :: 0 <= q < n ==> |queues[q]| == row + if q < currentQueueIndex then 1 else 0)
      && (forall q :: 0 <= q < n ==> Share(queues[q], n, q, jobs))
    }

    constructor (concurrencyFactor: nat)
      requires concurrencyFactor > 0
      ensures Valid() && jobs == [] && fresh(queues) && queues.Length == concurrencyFactor
    {
      queues := new seq<T>[concurrencyFactor](_ => []);
      currentQueueIndex, row, jobs := 0, 0, [];
    }

    method Enqueue(job: T)
      requires Valid()
      modifies this, queues
      ensures Valid() && queues == old(queues) && jobs == old(jobs) + [job]
    {
      ghost var n, was := queues.Length, currentQueueIndex;
      forall q | 0 <= q < n
        ensures Share(queues[q], n, q, jobs + [job])
      {
        ShareStays(queues[q], n, q, jobs, job);
      }
      ShareGrows(queues[was], n, was, jobs, job);
      queues[currentQueueIndex] := queues[currentQueueIndex] + [job];
      currentQueueIndex := currentQueueIndex + 1;
      if currentQueueIndex == queues.Length {
        currentQueueIndex := 0;
        row := row + 1;
      }
      jobs := jobs + [job];
    }

    /** Job j is in queue j mod n, as the (j / n)-th of this thread's jobs there. */
    lemma JobIsInItsQueue(j: nat)
      requires Valid() && j < |jobs|
      ensures var n := queues.Length; j / n < |queues[j % n]| && queues[j % n][j / n] == jobs[j]
    {
      var n := queues.Length;
      var q, i := j % n, j / n;
      assert j == i * n + q;
      if i > row {
        Earlier(n, row, i, currentQueueIndex);
      }
    }

    /** No queue ever gets two jobs more than another one. */
    lemma QueuesAreEven(q: nat, r: nat)
      requires Valid() && q < queues.Length && r < queues.Length
      ensures |queues[q]| <= |queues[r]| + 1
    {
    }

    /**
     The worker of queue q gets this thread's jobs number q, n + q, 2n + q and so on, in that order.
     The run is that of the queue, and the thread is its producer p: it has called push with jobs
     put in this queue. When all is pushed and popped, the worker has got all of them.
     */
    lemma JobsArriveInOrder(q: nat, states: seq<State<T>>, steps: seq<Step<T>>, i: nat, p: nat)
      requires Valid() && q < queues.Length && IsRun(states, steps) && i <= |steps| && p < |states[0].producers|
      requires Asked(steps[..i], p) <= queues[q]
      ensures |states[i].popped| <= |Pushers(steps[..i])|
      ensures Share(Got(states, steps, i, p), queues.Length, q, jobs)
      ensures Asked(steps[..i], p) == queues[q] && states[i].popped == states[i].pushed && Pending(states[i], p) == [] ==>
                Got(states, steps, i, p) == queues[q]
    {
      FirstInFirstOut(states, steps, i, p);
      PrefixIsShare(Got(states, steps, i, p), queues[q], queues.Length, q, jobs);
    }
  }

  lemma PrefixIsShare<T>(some: seq<T>, mine: seq<T>, n: nat, q: nat, jobs: seq<T>)
    requires some <= mine && Share(mine, n, q, jobs)
    ensures Share(some, n, q, jobs)
  {
    forall i | 0 <= i < |some|
      ensures i * n + q < |jobs| && some[i] == jobs[i * n + q]
    {
      assert some[i] == mine[i];
    }
  }
}
