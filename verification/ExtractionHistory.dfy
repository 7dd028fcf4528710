/** What becomes of each job of the extraction queue, told from the events alone: when a
    worker runs, when the queue is shut down, who arrived, who was dropped and who executed. */
module ExtractionHistory {
  import opened ExtractionQueue

  // ----- From the events alone -----

  /** A worker runs from a Start to its Exit. */
  predicate WorkerRuns<T(==)>(events: seq<Event<T>>, k: nat)
    requires k <= |events|
  {
    k > 0 && match events[k - 1]
             case Start => true
             case Exit(_) => false
             case _ => WorkerRuns(events, k - 1)
  }

  /** The queue is shut down from a Stop that meets a worker to the next Start that meets none. */
  predicate ShutDown<T(==)>(events: seq<Event<T>>, k: nat)
    requires k <= |events|
  {
    k > 0 && match events[k - 1]
             case Start => WorkerRuns(events, k - 1) && ShutDown(events, k - 1)
             case Stop => WorkerRuns(events, k - 1) || ShutDown(events, k - 1)
             case _ => ShutDown(events, k - 1)
  }

  /** The jobs in the order they were enqueued. */
  function Arrivals<T(==)>(events: seq<Event<T>>, k: nat): seq<T>
    requires k <= |events|
  {
    if k == 0 then []
    else Arrivals(events, k - 1) + if events[k - 1].Enqueue? then [events[k - 1].job] else []
  }

  /** Event m drops the job: it comes while the queue is shut down, is removed while pending,
      or is pending when the worker leaves. */
  predicate Drops<T(==)>(trace: seq<State<T>>, events: seq<Event<T>>, m: nat, job: T)
    requires m < |events| && |trace| == |events| + 1
  {
    match events[m]
    case Enqueue(j) => j == job && ShutDown(events, m)
    case Remove(i) => i < |trace[m].jobs| && trace[m].jobs[i] == job
    case Exit(_) => job in trace[m].jobs
    case _ => false
  }

  /** Event m ends the execution of the job. */
  predicate Completes<T(==)>(trace: seq<State<T>>, events: seq<Event<T>>, m: nat, job: T)
    requires m < |events| && |trace| == |events| + 1
  {
    events[m].Complete? && events[m].w < |trace[m].workers| && trace[m].workers[events[m].w] == Executing(job)
  }

  // ----- Every run agrees -----

  lemma {:induction false} FlagsFollow<T>(trace: seq<State<T>>, events: seq<Event<T>>, k: nat)
    requires IsRun(trace, events) && k <= |events|
    ensures trace[k].running == WorkerRuns(events, k)
    ensures trace[k].shutdown == ShutDown(events, k)
    ensures trace[k].enqueued == Arrivals(events, k)
  {
    if k > 0 {
      FlagsFollow(trace, events, k - 1);
      assert trace[k] == Next(trace[k - 1], events[k - 1]);
    }
  }

  lemma StepDrops<T>(trace: seq<State<T>>, events: seq<Event<T>>, k: nat, job: T)
    requires IsRun(trace, events) && k < |events|
    ensures job in trace[k + 1].discarded <==> job in trace[k].discarded || Drops(trace, events, k, job)
  {
    FlagsFollow(trace, events, k);
    assert trace[k + 1] == Next(trace[k], events[k]);
  }

  /** A job has been dropped exactly if it came between a Stop that met a worker and the next
      Start that met none, was removed while pending, or was pending when a worker left. */
  lemma {:induction false} DroppedIff<T>(trace: seq<State<T>>, events: seq<Event<T>>, k: nat, job: T)
    requires IsRun(trace, events) && k <= |events|
    ensures job in trace[k].discarded <==> exists m :: 0 <= m < k && Drops(trace, events, m, job)
  {
    if k > 0 {
      DroppedIff(trace, events, k - 1, job);
      StepDrops(trace, events, k - 1, job);
    }
  }

  lemma StepCompletes<T>(trace: seq<State<T>>, events: seq<Event<T>>, k: nat, job: T)
    requires IsRun(trace, events) && k < |events|
    ensures job in trace[k + 1].executed <==> job in trace[k].executed || Completes(trace, events, k, job)
  {
    assert trace[k + 1] == Next(trace[k], events[k]);
  }

  /** A job counts as executed exactly if a worker held it and completed it. */
  lemma {:induction false} ExecutedIff<T>(trace: seq<State<T>>, events: seq<Event<T>>, k: nat, job: T)
    requires IsRun(trace, events) && k <= |events|
    ensures job in trace[k].executed <==> exists m :: 0 <= m < k && Completes(trace, events, m, job)
  {
    if k > 0 {
      ExecutedIff(trace, events, k - 1, job);
      StepCompletes(trace, events, k - 1, job);
    }
  }

  ghost predicate NeverStopped<T>(events: seq<Event<T>>, k: nat)
    requires k <= |events|
  {
    forall m :: 0 <= m < k ==> !events[m].Stop? && !events[m].Remove?
  }

  lemma {:induction false} NeverShutDown<T>(events: seq<Event<T>>, k: nat)
    requires k <= |events| && NeverStopped(events, k)
    ensures !ShutDown(events, k)
  {
    if k > 0 {
      assert !events[k - 1].Stop?;
      NeverShutDown(events, k - 1);
    }
  }

  lemma NothingDrops<T>(trace: seq<State<T>>, events: seq<Event<T>>, m: nat, k: nat, job: T)
    requires IsRun(trace, events) && m < k <= |events| && NeverStopped(events, k)
    ensures !Drops(trace, events, m, job)
  {
    NeverShutDown(events, m);
    FlagsFollow(trace, events, m);
    assert Enabled(trace[m], events[m]);
  }

  /** Without Stop and Remove no job is ever dropped: executed, current and pending jobs are all
      that were enqueued, in the order they came. */
  lemma NothingDroppedUnlessStopped<T>(trace: seq<State<T>>, events: seq<Event<T>>, k: nat)
    requires IsRun(trace, events) && k <= |events| && NeverStopped(events, k)
    ensures trace[k].discarded == []
    ensures trace[k].executed + Current(trace[k]) + trace[k].jobs == Arrivals(events, k)
  {
    if trace[k].discarded != [] {
      var job := trace[k].discarded[0];
      assert job in trace[k].discarded;
      DroppedIff(trace, events, k, job);
      var m :| 0 <= m < k && Drops(trace, events, m, job);
      NothingDrops(trace, events, m, k, job);
    }
    NothingLostWithoutDiscards(trace, events, k);
    FlagsFollow(trace, events, k);
  }

  /** A job that comes while the queue is not shut down is appended to the pending ones, its
      done channel open. */
  lemma ArrivalIsPending<T>(trace: seq<State<T>>, events: seq<Event<T>>, k: nat)
    requires IsRun(trace, events) && k < |events| && events[k].Enqueue? && !ShutDown(events, k)
    ensures trace[k + 1].jobs == trace[k].jobs + [events[k].job] && events[k].job !in trace[k + 1].fired
  {
    FlagsFollow(trace, events, k);
    assert trace[k + 1] == Next(trace[k], events[k]);
    RunKeepsInv(trace, events, k + 1);
    PendingUnfired(trace[k + 1], events[k].job);
  }

  // ----- A worker that is left alone drains the queue -----

  ghost predicate Reaches<T>(s: State<T>, events: seq<Event<T>>, t: State<T>)
    decreases |events|
  {
    if events == [] then s == t
    else Enabled(s, events[0]) && Reaches(Next(s, events[0]), events[1..], t)
  }

  lemma ReachesFirst<T>(s: State<T>, e: Event<T>, events: seq<Event<T>>, t: State<T>)
    requires Enabled(s, e) && Reaches(Next(s, e), events, t)
    ensures Reaches(s, [e] + events, t)
  {
    assert ([e] + events)[1..] == events;
  }

  /** A worker with something to do, its next step, and what that leaves to do. */
  lemma WorkerSteps<T>(s: State<T>) returns (e: Event<T>)
    requires Inv(s) && s.running && !s.shutdown && Current(s) + s.jobs != []
    ensures (e.Take? || e.Complete?) && Enabled(s, e)
    ensures var n := Next(s, e);
            && Inv(n) && n.running && !n.shutdown && Line(n) == Line(s) && n.discarded == s.discarded
            && 2 * |n.jobs| + |Current(n)| < 2 * |s.jobs| + |Current(s)|
  {
    if s.workers[0].Executing? {
      e := Complete(0);
      CompleteLines(s);
    } else {
      e := Take(0);
      TakeLines(s);
    }
    NextKeepsInv(s, e);
  }

  lemma CompleteLines<T>(s: State<T>)
    requires Shape(s) && Enabled(s, Complete(0))
    ensures var n := Next(s, Complete(0));
            Line(n) == Line(s) && n.jobs == s.jobs && |Current(n)| < |Current(s)| && n.discarded == s.discarded
  {
  }

  lemma TakeLines<T>(s: State<T>)
    requires Shape(s) && Enabled(s, Take(0))
    ensures var n := Next(s, Take(0));
            && Line(n) == Line(s) && n.discarded == s.discarded
            && |n.jobs| == |s.jobs| - 1 && |Current(n)| == 1 && Current(s) == []
  {
    assert s.jobs == [s.jobs[0]] + s.jobs[1..];
  }

  /** From any state with a worker that is not shutting down, taking and completing executes the
      current and the pending jobs in their order, and drops none. */
  lemma {:induction false} WorkerDrains<T>(s: State<T>) returns (events: seq<Event<T>>, t: State<T>)
    requires Inv(s) && s.running && !s.shutdown
    ensures Reaches(s, events, t) && forall e | e in events :: e.Take? || e.Complete?
    ensures t.jobs == [] && t.workers == [Idle]
    ensures t.executed == s.executed + Current(s) + s.jobs && t.discarded == s.discarded
    decreases 2 * |s.jobs| + |Current(s)|
  {
    if Current(s) + s.jobs == [] {
      events, t := [], s;
      assert Line(s) == s.executed;
    } else {
      var e := WorkerSteps(s);
      events, t := WorkerDrains(Next(s, e));
      ReachesFirst(s, e, events, t);
      events := [e] + events;
    }
  }
}
