/** The serial disk queue of the session: tasks are appended by anyone, started one at a time on a
    goroutine, and their results delivered by the session loop (session.go SubmitDiskTask,
    processDiskTasks). A task pointer is represented by its submission number. */
module DiskQueue {

  datatype Entry<T> = Entry(id: nat, callable: T, running: bool, done: bool)

  /** `workers` are the goroutines that have not called their task yet, `results` the channel.
      submitted, called and completed record the history. */
  datatype Queue<T> = Queue(tasks: seq<Entry<T>>, workers: set<nat>, results: seq<nat>,
                            submitted: seq<T>, called: seq<T>, completed: seq<T>)

  function EmptyQueue<T>(): Queue<T> { Queue([], {}, [], [], [], []) }

  function Submit<T>(q: Queue<T>, c: T): Queue<T> {
    q.(tasks := q.tasks + [Entry(|q.submitted|, c, false, false)], submitted := q.submitted + [c])
  }

  /** First entry that is not done; |tasks| when there is none. */
  function FirstOpen<T>(tasks: seq<Entry<T>>): (k: nat)
    ensures k <= |tasks|
    ensures k < |tasks| ==> !tasks[k].done
    ensures forall j :: 0 <= j < k ==> tasks[j].done
  {
    if |tasks| == 0 || !tasks[0].done then 0 else 1 + FirstOpen(tasks[1..])
  }

  function Start<T>(q: Queue<T>): Queue<T> {
    var k := FirstOpen(q.tasks);
    if k < |q.tasks| && !q.tasks[k].running then
      q.(tasks := q.tasks[k := q.tasks[k].(running := true)], workers := q.workers + {q.tasks[k].id})
    else q
  }

  /** The goroutine of task `id` runs the task and posts the result. */
  function Call<T>(q: Queue<T>, id: nat): Queue<T>
    requires id in q.workers && id < |q.submitted|
  {
    q.(workers := q.workers - {id}, results := q.results + [id], called := q.called + [q.submitted[id]])
  }

  function Without<T>(tasks: seq<Entry<T>>, id: nat): seq<Entry<T>> {
    if |tasks| == 0 then []
    else
      var n := |tasks| - 1;
      if tasks[n].id == id then Without(tasks[..n], id) else Without(tasks[..n], id) + [tasks[n]]
  }

  function Deliver<T>(q: Queue<T>): Queue<T>
    requires |q.results| > 0 && q.results[0] < |q.submitted|
  {
    q.(results := q.results[1..], tasks := Without(q.tasks, q.results[0]),
       completed := q.completed + [q.submitted[q.results[0]]])
  }

  /** The list holds the uncompleted suffix of the submissions in order; only its head may be running,
      and then exactly one goroutine or one result belongs to it. */
  ghost predicate QueueInv<T>(q: Queue<T>) {
    && |q.submitted| == |q.completed| + |q.tasks|
    && q.completed == q.submitted[..|q.completed|]
    && (forall k :: 0 <= k < |q.tasks| ==>
          && q.tasks[k].id == |q.completed| + k
          && q.tasks[k].callable == q.submitted[|q.completed| + k]
          && !q.tasks[k].done
          && (k > 0 ==> !q.tasks[k].running))
    && HeadPhase(q)
  }

  ghost predicate HeadPhase<T>(q: Queue<T>) {
    if |q.tasks| == 0 || !q.tasks[0].running then q.workers == {} && q.results == [] && q.called == q.completed
    else
      || (q.workers == {q.tasks[0].id} && q.results == [] && q.called == q.completed)
      || (q.workers == {} && q.results == [q.tasks[0].id] && q.called == q.completed + [q.tasks[0].callable])
  }

  ghost predicate Step<T(!new)>(q: Queue<T>, r: Queue<T>) {
    || (exists c :: r == Submit(q, c))
    || r == Start(q)
    || (exists id {:trigger id in q.workers} :: id in q.workers && id < |q.submitted| && r == Call(q, id))
    || (|q.results| > 0 && q.results[0] < |q.submitted| && r == Deliver(q))
  }

  lemma SubmitKeeps<T>(q: Queue<T>, c: T)
    requires QueueInv(q)
    ensures QueueInv(Submit(q, c))
  {
  }

  lemma StartKeeps<T>(q: Queue<T>)
    requires QueueInv(q)
    ensures QueueInv(Start(q))
    ensures Start(q) != q <==> |q.tasks| > 0 && !q.tasks[0].running
  {
    assert |q.tasks| > 0 ==> FirstOpen(q.tasks) == 0;
  }

  lemma CallKeeps<T>(q: Queue<T>, id: nat)
    requires QueueInv(q) && id in q.workers
    ensures |q.tasks| > 0 && id == q.tasks[0].id && QueueInv(Call(q, id))
  {
    assert q.workers - {id} == {};
  }

  lemma {:induction false} WithoutHead<T>(tasks: seq<Entry<T>>, id: nat)
    requires |tasks| > 0 && forall k :: 0 <= k < |tasks| ==> tasks[k].id == id + k
    ensures Without(tasks, id) == tasks[1..]
  {
    var n := |tasks| - 1;
    if n > 0 {
      WithoutHead(tasks[..n], id);
      assert tasks[1..] == tasks[..n][1..] + [tasks[n]];
    }
  }

  lemma DeliverKeeps<T>(q: Queue<T>)
    requires QueueInv(q) && |q.results| > 0
    ensures q.results == [q.tasks[0].id] && Deliver(q).tasks == q.tasks[1..]
    ensures QueueInv(Deliver(q))
  {
    WithoutHead(q.tasks, q.tasks[0].id);
    assert q.submitted[..|q.completed| + 1] == q.submitted[..|q.completed|] + [q.submitted[|q.completed|]];
  }

  lemma StepKeeps<T(!new)>(q: Queue<T>, r: Queue<T>)
    requires QueueInv(q) && Step(q, r)
    ensures QueueInv(r)
  {
    if c :| r == Submit(q, c) {
      SubmitKeeps(q, c);
    } else if r == Start(q) {
      StartKeeps(q);
    } else if id :| id in q.workers && id < |q.submitted| && r == Call(q, id) {
      CallKeeps(q, id);
    } else {
      DeliverKeeps(q);
    }
  }

  ghost predicate Run<T(!new)>(qs: seq<Queue<T>>) {
    && |qs| > 0
    && qs[0] == EmptyQueue()
    && forall i :: 0 <= i < |qs| - 1 ==> Step(qs[i], qs[i + 1])
  }

  /** Over every interleaving of submitters, goroutines and deliveries: tasks are called in submission
      order, completions follow calls in the same order, and at most one task is between the two. */
  lemma {:induction false} SerialFifo<T(!new)>(qs: seq<Queue<T>>)
    requires Run(qs)
    ensures var q := qs[|qs| - 1];
            && QueueInv(q)
            && q.completed <= q.called <= q.submitted
            && |q.called| <= |q.completed| + 1
            && |q.workers| + |q.results| <= 1
            && |q.workers| + |q.results| <= |q.submitted| - |q.completed|
  {
    RunKeeps(qs);
    StateIsSerial(qs[|qs| - 1]);
  }

  lemma {:induction false} RunKeeps<T(!new)>(qs: seq<Queue<T>>)
    requires Run(qs)
    ensures QueueInv(qs[|qs| - 1])
  {
    var n := |qs| - 1;
    if n > 0 {
      RunKeeps(qs[..n]);
      assert Step(qs[n - 1], qs[n]);
      StepKeeps(qs[n - 1], qs[n]);
    }
  }

  lemma StateIsSerial<T>(q: Queue<T>)
    requires QueueInv(q)
    ensures q.completed <= q.called <= q.submitted && |q.called| <= |q.completed| + 1
    ensures |q.workers| + |q.results| <= 1 && |q.workers| + |q.results| <= |q.submitted| - |q.completed|
  {
    if |q.tasks| > 0 && q.tasks[0].running {
      var k := |q.completed|;
      assert q.submitted[..k + 1] == q.completed + [q.tasks[0].callable];
    }
  }

  /** The queue is never stuck: while tasks are left the first one is waiting to be started, and then a goroutine has
      it; or a goroutine has it, and then its result is posted; or its result is posted, and then it leaves,
      completed. */
  lemma HeadMoves<T>(q: Queue<T>)
    requires QueueInv(q) && |q.tasks| > 0
    ensures var (id, head) := (q.tasks[0].id, q.tasks[0].callable);
            && (!q.tasks[0].running ==>
                  Start(q).workers == {id} && Start(q).tasks == [q.tasks[0].(running := true)] + q.tasks[1..])
            && (q.tasks[0].running && q.results == [] ==>
                  && id in q.workers && id < |q.submitted|
                  && Call(q, id).results == [id] && Call(q, id).called == q.called + [head]
                     && Call(q, id).tasks == q.tasks)
            && (q.results != [] ==>
                  && q.results == [id] && id < |q.submitted|
                  && Deliver(q).completed == q.completed + [head] && Deliver(q).tasks == q.tasks[1..])
  {
    assert FirstOpen(q.tasks) == 0;
    if q.results != [] {
      DeliverKeeps(q);
    }
  }

  // ---------------------------------------------------------------- what the queue looks like from outside

  /** A serial FIFO: uncompleted tasks in order, and whether the first has been executed. */
  datatype Fifo<T> = Fifo(pending: seq<T>, headCalled: bool)

  function Abs<T>(q: Queue<T>): Fifo<T> {
    Fifo(seq(|q.tasks|, k requires 0 <= k < |q.tasks| => q.tasks[k].callable), |q.results| > 0)
  }

  function FifoSubmit<T>(f: Fifo<T>, c: T): Fifo<T> { f.(pending := f.pending + [c]) }

  function FifoCall<T>(f: Fifo<T>): Fifo<T>
    requires |f.pending| > 0 && !f.headCalled
  {
    f.(headCalled := true)
  }

  function FifoDeliver<T>(f: Fifo<T>): Fifo<T>
    requires |f.pending| > 0 && f.headCalled
  {
    Fifo(f.pending[1..], false)
  }

  ghost predicate FifoStep<T(!new)>(f: Fifo<T>, g: Fifo<T>) {
    || g == f
    || (exists c :: g == FifoSubmit(f, c))
    || (|f.pending| > 0 && !f.headCalled && g == FifoCall(f))
    || (|f.pending| > 0 && f.headCalled && g == FifoDeliver(f))
  }

  /** The goroutine queue refines the serial FIFO: a goroutine start is invisible, every other step is
      the corresponding step at the head. */
  lemma StepRefines<T(!new)>(q: Queue<T>, r: Queue<T>)
    requires QueueInv(q) && Step(q, r)
    ensures FifoStep(Abs(q), Abs(r))
  {
    if c :| r == Submit(q, c) {
      assert Abs(r) == FifoSubmit(Abs(q), c);
    } else if r == Start(q) {
      StartKeeps(q);
      assert Abs(r) == Abs(q);
    } else if id :| id in q.workers && id < |q.submitted| && r == Call(q, id) {
      assert Abs(r) == FifoCall(Abs(q));
    } else {
      DeliverKeeps(q);
      assert Abs(r) == FifoDeliver(Abs(q));
    }
  }

  function SubmitAll<T>(q: Queue<T>, cs: seq<T>): Queue<T> {
    if |cs| == 0 then q else Submit(SubmitAll(q, cs[..|cs| - 1]), cs[|cs| - 1])
  }

  // ---------------------------------------------------------------- the source's form

  class SessionDisk<T> {
    var diskTasks: seq<Entry<T>>
    var diskResults: seq<nat>
    ghost var workers: set<nat>
    ghost var submitted: seq<T>
    ghost var called: seq<T>
    ghost var completed: seq<T>
    var nextId: nat

    ghost function State(): Queue<T>
      reads this
    {
      Queue(diskTasks, workers, diskResults, submitted, called, completed)
    }

    ghost predicate Valid()
      reads this
    {
      QueueInv(State()) && nextId == |submitted|
    }

    constructor ()
      ensures Valid() && State() == EmptyQueue()
    {
      diskTasks, diskResults, workers, nextId := [], [], {}, 0;
      submitted, called, completed := [], [], [];
    }

    method SubmitDiskTask(c: T)
      requires Valid()
      modifies this
      ensures Valid() && State() == Submit(old(State()), c)
    {
      diskTasks := diskTasks + [Entry(nextId, c, false, false)];
      submitted := submitted + [c];
      nextId := nextId + 1;
    }

    /** First half of processDiskTasks: mark the first open task as running, unless it already is. */
    method StartNext()
      modifies this
      ensures State() == Start(old(State())) && nextId == old(nextId)
      ensures old(Valid()) ==> Valid()
    {
      if QueueInv(State()) {
        StartKeeps(State());
      }
      var k := 0;
      while k < |diskTasks|
        invariant k <= |diskTasks| && State() == old(State()) && nextId == old(nextId)
        invariant forall j :: 0 <= j < k ==> diskTasks[j].done
      {
        if !diskTasks[k].done {
          if !diskTasks[k].running {
            diskTasks := diskTasks[k := diskTasks[k].(running := true)];
            workers := workers + {diskTasks[k].id};
          }
          return;
        }
        k := k + 1;
      }
    }

    /** The goroutine body. */
    method RunWorker(id: nat)
      requires Valid() && id in workers
      modifies this
      ensures Valid() && id in old(State()).workers && State() == Call(old(State()), id)
    {
      CallKeeps(State(), id);
      called := called + [submitted[id]];
      workers := workers - {id};
      diskResults := diskResults + [id];
    }

    /** Receive one result: drop its task from the list. */
    method DeliverResult() returns (callable: T)
      requires Valid() && |diskResults| > 0
      modifies this
      ensures Valid() && |old(diskTasks)| > 0 && callable == old(diskTasks[0].callable) && diskResults == []
      ensures |old(diskResults)| > 0 && old(diskResults[0]) < |old(submitted)| && State() == Deliver(old(State()))
    {
      DeliverKeeps(State());
      var id := diskResults[0];
      callable := diskTasks[0].callable;
      diskResults := diskResults[1..];
      var dst: seq<Entry<T>> := [];
      for k := 0 to |diskTasks|
        invariant dst == Without(diskTasks[..k], id)
      {
        assert diskTasks[..k + 1][..k] == diskTasks[..k];
        if diskTasks[k].id != id {
          dst := dst + [diskTasks[k]];
        }
      }
      assert diskTasks[..|diskTasks|] == diskTasks;
      diskTasks := dst;
      completed := completed + [submitted[id]];
    }

    method SubmitEach(cs: seq<T>)
      requires Valid()
      modifies this
      ensures Valid() && State() == SubmitAll(old(State()), cs) && diskResults == old(diskResults)
    {
      for k := 0 to |cs|
        invariant Valid() && State() == SubmitAll(old(State()), cs[..k]) && diskResults == old(diskResults)
      {
        assert cs[..k + 1][..k] == cs[..k];
        SubmitDiskTask(cs[k]);
      }
      assert cs[..|cs|] == cs;
    }

    /** processDiskTasks. Whether the goroutine posts its result before the channel is drained is up to
        the scheduler; followUps are the tasks a completion submits. */
    method ProcessDiskTasks(workerIsQuick: bool, followUps: T -> seq<T>)
      requires Valid()
      modifies this
      ensures Valid()
      ensures var s := Start(old(State()));
              var c := if workerIsQuick && |s.workers| > 0 then Call(s, s.tasks[0].id) else s;
              State() == if |c.results| == 0 then c else SubmitAll(Deliver(c), followUps(c.tasks[0].callable))
    {
      StartNext();
      if workerIsQuick && |diskTasks| > 0 && diskTasks[0].running && |diskResults| == 0 {
        RunWorker(diskTasks[0].id);
      }
      ghost var c := State();
      while |diskResults| > 0
        invariant Valid()
        invariant State() == c || (|c.results| > 0 && diskResults == []
                                   && State() == SubmitAll(Deliver(c), followUps(c.tasks[0].callable)))
        decreases |diskResults|
      {
        var callable := DeliverResult();
        SubmitEach(followUps(callable));
      }
    }
  }
}
