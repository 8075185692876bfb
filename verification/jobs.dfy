/** shared/job.h: the FIFO monitor between the threads that produce requests and the one that
    sends them. Every operation holds the mutex, so an interleaving of threads is a sequence of
    operations. */
module JobQueue {
  import opened Option

  /** What the monitor holds, with the history of what went in and out. */
  datatype Queue<T> = Queue(coda: seq<T>, completed: bool, puts: seq<T>, delivered: seq<T>)

  datatype Operation<T> = Put(job: T) | Get | Complete

  /** `get` waits while this is false. */
  predicate Ready<T>(q: Queue<T>) {
    q.coda != [] || q.completed
  }

  predicate Enabled<T>(q: Queue<T>, op: Operation<T>) {
    op.Get? ==> Ready(q)
  }

  function Answer<T>(q: Queue<T>): Option<T>
    requires Ready(q)
  {
    if q.coda == [] then None else Some(q.coda[0])
  }

  function Apply<T>(q: Queue<T>, op: Operation<T>): Queue<T>
    requires Enabled(q, op)
  {
    match op
    case Put(job) => q.(coda := q.coda + [job], puts := q.puts + [job])
    case Get => if q.coda == [] then q else q.(coda := q.coda[1..], delivered := q.delivered + [q.coda[0]])
    case Complete => q.(completed := true)
  }

  ghost predicate Conserved<T>(q: Queue<T>) {
    q.puts == q.delivered + q.coda
  }

  /** `qs` is the history of a queue under the operations `ops`, from whatever threads. */
  ghost predicate IsRun<T>(qs: seq<Queue<T>>, ops: seq<Operation<T>>) {
    && |qs| == |ops| + 1
    && qs[0] == Queue([], false, [], [])
    && forall i :: 0 <= i < |ops| ==> Enabled(qs[i], ops[i]) && qs[i + 1] == Apply(qs[i], ops[i])
  }

  /** Conservation: at every point of every run what was put is what was delivered, in order,
      followed by what is queued; and a `get` answers none only after `complete`, with everything
      delivered. */
  lemma {:induction false} QueueConservation<T>(qs: seq<Queue<T>>, ops: seq<Operation<T>>, n: nat)
    requires IsRun(qs, ops) && n <= |ops|
    ensures Conserved(qs[n])
    ensures n < |ops| && ops[n].Get? && Answer(qs[n]).None? ==>
              (exists k :: 0 <= k < n && ops[k].Complete?) && qs[n].delivered == qs[n].puts
  {
    CompletedByOperation(qs, ops, n);
    if n > 0 {
      QueueConservation(qs, ops, n - 1);
      assert qs[n - 1 + 1] == Apply(qs[n - 1], ops[n - 1]);
    }
  }

  lemma {:induction false} CompletedByOperation<T>(qs: seq<Queue<T>>, ops: seq<Operation<T>>, n: nat)
    requires IsRun(qs, ops) && n <= |ops|
    ensures qs[n].completed <==> exists k :: 0 <= k < n && ops[k].Complete?
  {
    if n > 0 {
      CompletedByOperation(qs, ops, n - 1);
      assert qs[n - 1 + 1] == Apply(qs[n - 1], ops[n - 1]);
    }
  }

  /** Every delivered job was put before, and jobs put are delivered in the order of their puts:
      the k-th delivery is the k-th put. */
  lemma DeliveredInOrder<T>(qs: seq<Queue<T>>, ops: seq<Operation<T>>, n: nat, k: nat)
    requires IsRun(qs, ops) && n <= |ops| && k < |qs[n].delivered|
    ensures k < |qs[n].puts| && qs[n].delivered[k] == qs[n].puts[k]
  {
    QueueConservation(qs, ops, n);
  }

  /** What a `get` hands out is the next job put that has not been handed out yet, and the history of
      deliveries is just that of what was handed out. */
  lemma HandedOutInOrder<T>(qs: seq<Queue<T>>, ops: seq<Operation<T>>, n: nat)
    requires IsRun(qs, ops) && n < |ops| && ops[n].Get? && qs[n].coda != []
    ensures |qs[n].delivered| < |qs[n].puts| && Answer(qs[n]) == Some(qs[n].puts[|qs[n].delivered|])
    ensures qs[n + 1].delivered == qs[n].delivered + [Answer(qs[n]).value] && qs[n + 1].puts == qs[n].puts
  {
    QueueConservation(qs, ops, n);
    assert Enabled(qs[n], ops[n]) && qs[n + 1] == Apply(qs[n], ops[n]);
  }

  class Jobs<T> {
    var coda: seq<T>
    var completed: bool
    ghost var puts: seq<T>
    ghost var delivered: seq<T>

    ghost function View(): Queue<T>
      reads this
    {
      Queue(coda, completed, puts, delivered)
    }

    constructor ()
      ensures View() == Queue([], false, [], [])
    {
      coda, completed, puts, delivered := [], false, [], [];
    }

    method Put(job: T)
      modifies this
      ensures View() == Apply(old(View()), Operation.Put(job))
      ensures coda == old(coda) + [job] && puts == old(puts) + [job]
      ensures delivered == old(delivered) && completed == old(completed)
    {
      coda := coda + [job];
      puts := puts + [job];
    }

    /** Runs when the wait is over. */
    method Get() returns (r: Option<T>)
      requires coda != [] || completed
      modifies this
      ensures r == Answer(old(View())) && View() == Apply(old(View()), Operation.Get)
      ensures r.Some? ==> old(coda) == [r.value] + coda && delivered == old(delivered) + [r.value]
      ensures r.None? <==> old(coda) == []
      ensures r.None? ==> completed && coda == [] && delivered == old(delivered)
      ensures puts == old(puts) && completed == old(completed)
    {
      if completed && coda == [] {
        return None;
      }
      var data := coda[0];
      coda := coda[1..];
      delivered := delivered + [data];
      r := Some(data);
    }

    method Complete()
      modifies this
      ensures View() == Apply(old(View()), Operation.Complete)
      ensures completed && coda == old(coda) && puts == old(puts) && delivered == old(delivered)
    {
      completed := true;
    }
  }
}
