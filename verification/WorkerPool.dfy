/** The hash-sharded worker pool (pool/pool.go): every client id has one queue and every queue one
    worker, so the tasks of a client run one at a time and in submission order. */
module WorkerPool {
  import opened TopicLevels

  /** An unbuffered task channel with the one worker that startWorker runs on it. */
  class Channel {
    constructor ()
    {
    }
  }

  class Pool {
    const maxWorkers: nat
    const taskQueue: array<Channel?>

    ghost predicate Valid()
      reads this, taskQueue
    {
      && maxWorkers >= 1 && taskQueue.Length == maxWorkers
      && (forall i :: 0 <= i < maxWorkers ==> taskQueue[i] != null)
      && forall i, j :: 0 <= i < j < maxWorkers ==> taskQueue[i] != taskQueue[j]
    }

    /** There is at least one worker, whatever was asked for. */
    constructor (requested: int)
      ensures Valid() && fresh(taskQueue)
      ensures maxWorkers == if requested < 1 then 1 else requested
    {
      var n := if requested < 1 then 1 else requested;
      maxWorkers := n;
      taskQueue := new Channel?[n](_ => null);
      new;
      Dispatch();
    }

    /** One fresh channel and worker per queue. */
    method Dispatch()
      requires taskQueue.Length == maxWorkers >= 1
      modifies taskQueue
      ensures Valid()
    {
      var i := 0;
      while i < maxWorkers
        invariant 0 <= i <= maxWorkers
        invariant forall j :: 0 <= j < i ==> taskQueue[j] != null
        invariant forall j, k :: 0 <= j < k < i ==> taskQueue[j] != taskQueue[k]
      {
        taskQueue[i] := new Channel();
        i := i + 1;
      }
    }

    /** The queue of a client id: always a queue of the pool, and the same one every time. */
    method QueueOf(hash: Bytes -> nat, uid: Bytes) returns (channel: Channel?)
      requires Valid()
      ensures channel != null && channel == taskQueue[hash(uid) % maxWorkers]
    {
      channel := taskQueue[hash(uid) % maxWorkers];
    }
  }

  function Shard(hash: Bytes -> nat, maxWorkers: nat, uid: Bytes): (q: nat)
    requires maxWorkers >= 1
    ensures q < maxWorkers
  {
    hash(uid) % maxWorkers
  }

  // ---------------------------------------------------------------------
  // Interleavings of submitters and workers
  // ---------------------------------------------------------------------

  datatype Job = Job(uid: Bytes, task: nat)

  /** `waiting`: the job each blocked submitter offers; `running`: the job each busy worker runs. */
  datatype State = State(waiting: map<nat, Job>, running: map<nat, Job>, stopped: set<nat>)

  datatype Event =
    | Submit(thread: nat, job: Job)
    | Start(thread: nat)
    | Finish(queue: nat)
    | StopWorker(queue: nat)

  datatype Run = Run(hash: Bytes -> nat, requested: int, ss: seq<State>, es: seq<Event>) {

    function Queue(uid: Bytes): (q: nat)
      ensures q < if requested < 1 then 1 else requested
    {
      Shard(hash, if requested < 1 then 1 else requested, uid)
    }

    /** A submitter is blocked until an idle worker of the right queue takes its job. */
    predicate Enabled(s: State, e: Event) {
      match e
      case Submit(th, _) => th !in s.waiting
      case Start(th) =>
        th in s.waiting && Queue(s.waiting[th].uid) !in s.running && Queue(s.waiting[th].uid) !in s.stopped
      case Finish(q) => q in s.running
      case StopWorker(q) => q !in s.running
    }

    function Step(s: State, e: Event): State
      requires Enabled(s, e)
    {
      match e
      case Submit(th, job) => s.(waiting := s.waiting[th := job])
      case Start(th) =>
        s.(waiting := s.waiting - {th}, running := s.running[Queue(s.waiting[th].uid) := s.waiting[th]])
      case Finish(q) => s.(running := s.running - {q})
      case StopWorker(q) => s.(stopped := s.stopped + {q})
    }

    ghost predicate Valid() {
      && |ss| == |es| + 1
      && ss[0] == State(map[], map[], {})
      && forall i :: 0 <= i < |es| ==> Enabled(ss[i], es[i]) && ss[i + 1] == Step(ss[i], es[i])
    }

    /** Event i starts this job, offered by this thread. */
    ghost predicate Starts(i: nat, thread: nat, job: Job)
      requires Valid()
    {
      i < |es| && es[i] == Start(thread) && ss[i].waiting[thread] == job
    }

    /** Exclusion: of two jobs of one client id, whoever submitted them, the first finishes before
        the second starts. */
    lemma OneAtATime(i: nat, j: nat, th1: nat, th2: nat, a: Job, b: Job)
      requires Valid() && i < j && Starts(i, th1, a) && Starts(j, th2, b) && a.uid == b.uid
      ensures exists k :: i < k < j && es[k] == Finish(Queue(a.uid)) && ss[k].running[Queue(a.uid)] == a
    {
      assert Enabled(ss[j], es[j]);
      FirstFinish(Queue(a.uid), i + 1, j, a);
    }

    /** Every worker runs a job of a client id that belongs to its queue. */
    lemma {:induction false} InPlace(n: nat, q: nat)
      requires Valid() && n < |ss| && q in ss[n].running
      ensures q == Queue(ss[n].running[q].uid)
    {
      if n > 0 {
        assert Enabled(ss[n - 1], es[n - 1]) && ss[n] == Step(ss[n - 1], es[n - 1]);
        if q in ss[n - 1].running {
          InPlace(n - 1, q);
        }
      }
    }

    /** A task waits for nobody else: as long as its worker was not stopped, it can start exactly when no
        task runs whose client id has the same remainder of the hash by the number of workers. */
    lemma StartsIff(n: nat, th: nat, workers: nat)
      requires Valid() && n < |ss| && th in ss[n].waiting
      requires workers == if requested < 1 then 1 else requested
      requires hash(ss[n].waiting[th].uid) % workers !in ss[n].stopped
      ensures Enabled(ss[n], Start(th)) <==> forall q :: q in ss[n].running ==>
        hash(ss[n].running[q].uid) % workers != hash(ss[n].waiting[th].uid) % workers
    {
      forall q | q in ss[n].running
        ensures q == Queue(ss[n].running[q].uid)
      {
        InPlace(n, q);
      }
    }

    lemma {:induction false} FirstFinish(q: nat, i: nat, j: nat, a: Job)
      requires Valid() && i <= j < |ss| && q in ss[i].running && ss[i].running[q] == a && q !in ss[j].running
      ensures exists k :: i <= k < j && es[k] == Finish(q) && ss[k].running[q] == a
      decreases j - i
    {
      assert ss[i + 1] == Step(ss[i], es[i]) && Enabled(ss[i], es[i]);
      if es[i] != Finish(q) {
        FirstFinish(q, i + 1, j, a);
      }
    }

    lemma {:induction false} FirstStart(th: nat, i: nat, j: nat, a: Job)
      requires Valid() && i <= j < |ss| && th in ss[i].waiting && ss[i].waiting[th] == a && th !in ss[j].waiting
      ensures exists k :: i <= k < j && Starts(k, th, a)
      decreases j - i
    {
      assert ss[i + 1] == Step(ss[i], es[i]) && Enabled(ss[i], es[i]);
      if es[i] == Start(th) {
        assert Starts(i, th, a);
      } else {
        FirstStart(th, i + 1, j, a);
      }
    }

    /** Order (section 4.6 of MQTT Version 3.1.1): when one thread submits two jobs for a client id,
        the earlier one has started and finished before the later one starts. */
    lemma SubmissionOrder(m: nat, n: nat, j: nat, thread: nat, a: Job, b: Job)
      requires Valid() && m < n < j && a.uid == b.uid
      requires n < |es| && es[m] == Submit(thread, a) && es[n] == Submit(thread, b)
      requires Starts(j, thread, b)
      ensures exists i, k :: m < i < n && i < k < j && Starts(i, thread, a)
                && es[k] == Finish(Queue(a.uid)) && ss[k].running[Queue(a.uid)] == a
    {
      assert ss[m + 1] == Step(ss[m], es[m]) && Enabled(ss[n], es[n]);
      FirstStart(thread, m + 1, n, a);
      var i :| m + 1 <= i < n && Starts(i, thread, a);
      OneAtATime(i, j, thread, thread, a, b);
      var k :| i < k < j && es[k] == Finish(Queue(a.uid)) && ss[k].running[Queue(a.uid)] == a;
    }
  }
}
