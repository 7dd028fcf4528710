/** The extraction queue: a first-in first-out list of jobs and a worker goroutine that can
    be stopped and started again.  Each section under the queue's lock is one event. */
module ExtractionQueue {

  /** A worker goroutine: at the top of its loop, or executing a job. */
  datatype Worker<T> = Idle | Executing(job: T)

  /** The queue; `enqueued`, `executed`, `discarded` and `fired` are history: the jobs in
      the order they came, were executed, were dropped, and had their done channel closed. */
  datatype State<!T(==)> = State(
    jobs: seq<T>,
    running: bool,
    shutdown: bool,
    workers: seq<Worker<T>>,
    enqueued: seq<T>,
    executed: seq<T>,
    discarded: seq<T>,
    fired: seq<T>)

  datatype Event<!T(==)> =
    | Start
    | Stop
    | Enqueue(job: T)
    | Remove(i: nat)
    | Take(w: nat)
    | Complete(w: nat)
    | Exit(w: nat)

  function New<T(==)>(): State<T> {
    State([], false, false, [], [], [], [], [])
  }

  predicate Enabled<T(==)>(s: State<T>, e: Event<T>) {
    match e
    case Enqueue(job) => job !in s.enqueued
    case Remove(i) => i < |s.jobs|
    case Take(w) => w < |s.workers| && s.workers[w].Idle? && !s.shutdown && s.jobs != []
    case Complete(w) => w < |s.workers| && s.workers[w].Executing?
    case Exit(w) => w < |s.workers| && s.workers[w].Idle? && s.shutdown
    case _ => true
  }

  function Next<T(==)>(s: State<T>, e: Event<T>): State<T>
    requires Enabled(s, e)
  {
    match e
    case Start =>
      if s.running then s else s.(running := true, shutdown := false, workers := s.workers + [Idle])
    case Stop =>
      if s.running then s.(shutdown := true) else s
    case Enqueue(job) =>
      var t := s.(enqueued := s.enqueued + [job]);
      if s.shutdown then t.(fired := s.fired + [job], discarded := s.discarded + [job])
      else t.(jobs := s.jobs + [job])
    case Remove(i) =>
      s.(jobs := s.jobs[..i] + s.jobs[i + 1..],
         fired := s.fired + [s.jobs[i]],
         discarded := s.discarded + [s.jobs[i]])
    case Take(w) =>
      s.(jobs := s.jobs[1..], workers := s.workers[w := Executing(s.jobs[0])])
    case Complete(w) =>
      var job := s.workers[w].job;
      s.(workers := s.workers[w := Idle], executed := s.executed + [job], fired := s.fired + [job])
    case Exit(w) =>
      s.(jobs := [], running := false,
         workers := s.workers[..w] + s.workers[w + 1..],
         discarded := s.discarded + s.jobs,
         fired := s.fired + s.jobs)
  }

  // ----- Order -----

  /** a is b with some members left out; `at` says where each member of a stands in b. */
  ghost predicate Embeds<T>(a: seq<T>, b: seq<T>, at: seq<nat>) {
    && |at| == |a|
    && (forall i :: 0 <= i < |at| ==> at[i] < |b| && b[at[i]] == a[i])
    && (forall i, j :: 0 <= i < j < |at| ==> at[i] < at[j])
  }

  ghost predicate InOrder<T>(a: seq<T>, b: seq<T>) {
    exists at :: Embeds(a, b, at)
  }

  lemma InOrderExtend<T>(a: seq<T>, b: seq<T>, x: T)
    requires InOrder(a, b)
    ensures InOrder(a, b + [x]) && InOrder(a + [x], b + [x])
  {
    var at: seq<nat> :| Embeds(a, b, at);
    assert Embeds(a, b + [x], at);
    assert Embeds(a + [x], b + [x], at + [|b|]);
  }

  lemma InOrderDrop<T>(a: seq<T>, b: seq<T>, i: nat, n: nat)
    requires InOrder(a, b) && i + n <= |a|
    ensures InOrder(a[..i] + a[i + n..], b)
  {
    var at: seq<nat> :| Embeds(a, b, at);
    assert Embeds(a[..i] + a[i + n..], b, at[..i] + at[i + n..]);
  }

  lemma {:induction false} EmbedsAtLeast<T>(a: seq<T>, b: seq<T>, at: seq<nat>, i: nat)
    requires Embeds(a, b, at) && i < |a|
    ensures i <= at[i]
  {
    if i > 0 {
      EmbedsAtLeast(a, b, at, i - 1);
    }
  }

  lemma {:induction false} EmbedsAtMost<T>(a: seq<T>, b: seq<T>, at: seq<nat>, i: nat)
    requires Embeds(a, b, at) && i < |a|
    ensures at[i] + |a| <= |b| + i
    decreases |a| - i
  {
    if i + 1 < |a| {
      EmbedsAtMost(a, b, at, i + 1);
    }
  }

  lemma InOrderSameLength<T>(a: seq<T>, b: seq<T>)
    requires InOrder(a, b) && |a| == |b|
    ensures a == b
  {
    var at: seq<nat> :| Embeds(a, b, at);
    forall i | 0 <= i < |a| ensures a[i] == b[i] {
      EmbedsAtLeast(a, b, at, i);
      EmbedsAtMost(a, b, at, i);
    }
  }

  // ----- The invariant -----

  /** The job being executed, if any. */
  function Current<T(==)>(s: State<T>): seq<T> {
    if |s.workers| > 0 && s.workers[0].Executing? then [s.workers[0].job] else []
  }

  /** The jobs not discarded, in the order they are or will be executed. */
  function Line<T(==)>(s: State<T>): seq<T> {
    s.executed + Current(s) + s.jobs
  }

  ghost predicate Shape<T>(s: State<T>) {
    |s.workers| <= 1 && (s.running <==> |s.workers| == 1)
  }

  /** Where the jobs are: each enqueued job is in exactly one place. */
  ghost predicate Counts<T>(s: State<T>) {
    && multiset(s.enqueued) == multiset(s.executed) + multiset(Current(s)) + multiset(s.jobs) + multiset(s.discarded)
    && multiset(s.fired) == multiset(s.executed) + multiset(s.discarded)
    && (forall job | job in s.enqueued :: multiset(s.enqueued)[job] == 1)
  }

  ghost predicate Inv<T>(s: State<T>) {
    Shape(s) && Counts(s) && InOrder(Line(s), s.enqueued)
  }

  lemma Cut<T>(s: seq<T>, i: nat)
    requires i < |s|
    ensures multiset(s) == multiset(s[..i] + s[i + 1..]) + multiset{s[i]}
  {
    assert s == s[..i] + [s[i]] + s[i + 1..];
    assert multiset(s) == multiset(s[..i]) + multiset{s[i]} + multiset(s[i + 1..]);
  }

  lemma Append<T>(s: seq<T>, x: T)
    ensures multiset(s + [x]) == multiset(s) + multiset{x}
  {
  }

  lemma EnqueueKeepsCounts<T>(s: State<T>, job: T)
    requires Counts(s) && Enabled(s, Enqueue(job))
    ensures Counts(Next(s, Enqueue(job)))
  {
    Append(s.enqueued, job);
    assert multiset(s.enqueued)[job] == 0;
    if s.shutdown {
      Append(s.discarded, job);
      Append(s.fired, job);
    } else {
      Append(s.jobs, job);
    }
  }

  lemma RemoveKeepsCounts<T>(s: State<T>, i: nat)
    requires Counts(s) && Enabled(s, Remove(i))
    ensures Counts(Next(s, Remove(i)))
  {
    Cut(s.jobs, i);
    Append(s.discarded, s.jobs[i]);
    Append(s.fired, s.jobs[i]);
    DropOne(multiset(s.executed), multiset(Current(s)), multiset(s.jobs[..i] + s.jobs[i + 1..]), multiset(s.discarded),
            s.jobs[i]);
  }

  /** Moving one job from the pending ones to the dropped ones. */
  lemma DropOne<T>(executed: multiset<T>, current: multiset<T>, rest: multiset<T>, discarded: multiset<T>, x: T)
    ensures executed + current + (rest + multiset{x}) + discarded ==
            executed + current + rest + (discarded + multiset{x})
    ensures executed + discarded + multiset{x} == executed + (discarded + multiset{x})
  {
  }

  lemma TakeKeepsCounts<T>(s: State<T>, w: nat)
    requires Shape(s) && Counts(s) && Enabled(s, Take(w))
    ensures Counts(Next(s, Take(w)))
  {
    assert s.jobs == [s.jobs[0]] + s.jobs[1..];
  }

  lemma CompleteKeepsCounts<T>(s: State<T>, w: nat)
    requires Shape(s) && Counts(s) && Enabled(s, Complete(w))
    ensures Counts(Next(s, Complete(w)))
  {
    var t := Next(s, Complete(w));
    assert Current(t) == [];
    assert multiset(t.executed) == multiset(s.executed) + multiset(Current(s));
  }

  lemma ExitKeepsCounts<T>(s: State<T>, w: nat)
    requires Shape(s) && Counts(s) && Enabled(s, Exit(w))
    ensures Counts(Next(s, Exit(w)))
  {
    var t := Next(s, Exit(w));
    assert Current(t) == Current(s) == [];
    assert multiset(t.discarded) == multiset(s.discarded) + multiset(s.jobs);
  }

  lemma NextKeepsCounts<T>(s: State<T>, e: Event<T>)
    requires Shape(s) && Counts(s) && Enabled(s, e)
    ensures Counts(Next(s, e))
  {
    match e
    case Start => assert Current(Next(s, e)) == Current(s);
    case Stop => assert Current(Next(s, e)) == Current(s);
    case Enqueue(job) => EnqueueKeepsCounts(s, job);
    case Remove(i) => RemoveKeepsCounts(s, i);
    case Take(w) => TakeKeepsCounts(s, w);
    case Complete(w) => CompleteKeepsCounts(s, w);
    case Exit(w) => ExitKeepsCounts(s, w);
  }

  lemma RemoveKeepsOrder<T>(s: State<T>, i: nat)
    requires Shape(s) && InOrder(Line(s), s.enqueued) && Enabled(s, Remove(i))
    ensures InOrder(Line(Next(s, Remove(i))), s.enqueued)
  {
    InOrderDrop(Line(s), s.enqueued, |s.executed + Current(s)| + i, 1);
    DropBehind(s.executed + Current(s), s.jobs, i, 1);
  }

  lemma DropBehind<T>(front: seq<T>, jobs: seq<T>, i: nat, n: nat)
    requires i + n <= |jobs|
    ensures front + (jobs[..i] + jobs[i + n..]) ==
            (front + jobs)[..|front| + i] + (front + jobs)[|front| + i + n..]
  {
  }

  lemma ExitKeepsOrder<T>(s: State<T>, w: nat)
    requires Shape(s) && InOrder(Line(s), s.enqueued) && Enabled(s, Exit(w))
    ensures InOrder(Line(Next(s, Exit(w))), s.enqueued)
  {
    var k := |s.executed| + |Current(s)|;
    InOrderDrop(Line(s), s.enqueued, k, |s.jobs|);
    assert Line(Next(s, Exit(w))) == Line(s)[..k] + Line(s)[k + |s.jobs|..];
  }

  lemma NextKeepsOrder<T>(s: State<T>, e: Event<T>)
    requires Shape(s) && InOrder(Line(s), s.enqueued) && Enabled(s, e)
    ensures InOrder(Line(Next(s, e)), Next(s, e).enqueued)
  {
    var t := Next(s, e);
    match e
    case Enqueue(job) =>
      InOrderExtend(Line(s), s.enqueued, job);
      assert Line(t) == if s.shutdown then Line(s) else Line(s) + [job];
    case Remove(i) => RemoveKeepsOrder(s, i);
    case Exit(w) => ExitKeepsOrder(s, w);
    case _ => assert Line(t) == Line(s);
  }

  lemma NextKeepsShape<T>(s: State<T>, e: Event<T>)
    requires Shape(s) && Enabled(s, e)
    ensures Shape(Next(s, e))
  {
  }

  lemma NextKeepsInv<T>(s: State<T>, e: Event<T>)
    requires Inv(s) && Enabled(s, e)
    ensures Inv(Next(s, e))
  {
    NextKeepsShape(s, e);
    NextKeepsCounts(s, e);
    NextKeepsOrder(s, e);
  }

  lemma NewInv<T>()
    ensures Inv(New<T>())
  {
    var none: seq<T> := [];
    assert Embeds(none, none, []);
    assert Line(New<T>()) == none;
  }

  /** Pending and current jobs have not fired, and a pending job is pending once. */
  ghost predicate Unfired<T>(s: State<T>) {
    && (forall j | j in Current(s) :: j in s.enqueued && j !in s.fired)
    && (forall i :: 0 <= i < |s.jobs| ==> s.jobs[i] in s.enqueued && s.jobs[i] !in s.fired)
    && (forall i, k :: 0 <= i < k < |s.jobs| ==> s.jobs[i] != s.jobs[k])
    && (forall j | j in s.fired :: j in s.enqueued)
  }

  lemma PendingUnfired<T>(s: State<T>, j: T)
    requires Counts(s) && (j in s.jobs || j in Current(s))
    ensures j in s.enqueued && j !in s.fired && multiset(s.jobs)[j] <= 1
  {
    assert j in multiset(s.jobs) || j in multiset(Current(s));
    assert j in multiset(s.enqueued);
    assert multiset(s.enqueued)[j] == 1;
    assert multiset(s.fired)[j] == 0;
    assert j in s.fired ==> j in multiset(s.fired);
  }

  lemma FiredEnqueued<T>(s: State<T>, j: T)
    requires Counts(s) && j in s.fired
    ensures j in s.enqueued
  {
    assert j in multiset(s.fired);
    assert j in multiset(s.enqueued);
  }

  lemma TwiceCountsTwo<T>(q: seq<T>, i: nat, k: nat)
    requires i < k < |q| && q[i] == q[k]
    ensures multiset(q)[q[i]] >= 2
  {
    assert q == q[..i] + [q[i]] + (q[i + 1..k] + [q[k]] + q[k + 1..]);
    assert multiset(q) ==
           multiset(q[..i]) + multiset{q[i]} + (multiset(q[i + 1..k]) + multiset{q[k]} + multiset(q[k + 1..]));
  }

  lemma InvUnfired<T>(s: State<T>)
    requires Inv(s)
    ensures Unfired(s)
  {
    forall j | j in Current(s) ensures j in s.enqueued && j !in s.fired { PendingUnfired(s, j); }
    forall i | 0 <= i < |s.jobs| ensures s.jobs[i] in s.enqueued && s.jobs[i] !in s.fired {
      PendingUnfired(s, s.jobs[i]);
    }
    forall i, k | 0 <= i < k < |s.jobs| ensures s.jobs[i] != s.jobs[k] {
      PendingUnfired(s, s.jobs[i]);
      if s.jobs[i] == s.jobs[k] { TwiceCountsTwo(s.jobs, i, k); }
    }
    forall j | j in s.fired ensures j in s.enqueued { FiredEnqueued(s, j); }
  }

  // ----- Whole runs -----

  ghost predicate IsRun<T>(trace: seq<State<T>>, events: seq<Event<T>>) {
    && |trace| == |events| + 1
    && trace[0] == New()
    && forall k {:trigger events[k]} :: 0 <= k < |events| ==>
         Enabled(trace[k], events[k]) && trace[k + 1] == Next(trace[k], events[k])
  }

  lemma {:induction false} RunKeepsInv<T>(trace: seq<State<T>>, events: seq<Event<T>>, k: nat)
    requires IsRun(trace, events) && k < |trace|
    ensures Inv(trace[k])
  {
    if k == 0 {
      NewInv<T>();
    } else {
      RunKeepsInv(trace, events, k - 1);
      NextKeepsInv(trace[k - 1], events[k - 1]);
    }
  }

  /** Over any run with stops and restarts: at most one worker and one executing job; every
      job is in exactly one of pending, current, executed and discarded, and nowhere twice;
      its done channel is closed at most once, and exactly when it was executed or dropped. */
  lemma EachJobOnce<T>(trace: seq<State<T>>, events: seq<Event<T>>, k: nat, job: T)
    requires IsRun(trace, events) && k < |trace|
    ensures var s := trace[k];
            && |s.workers| <= 1 && |Current(s)| <= 1
            && multiset(s.jobs)[job] + multiset(Current(s))[job]
               + multiset(s.executed)[job] + multiset(s.discarded)[job] == (if job in s.enqueued then 1 else 0)
            && multiset(s.fired)[job] <= 1
            && (job in s.fired <==> job in s.executed || job in s.discarded)
  {
    RunKeepsInv(trace, events, k);
    var s := trace[k];
    assert multiset(s.enqueued)[job] == if job in s.enqueued then 1 else 0;
    assert job in s.fired <==> job in multiset(s.fired);
  }

  /** When a worker exits, the done channel of every job enqueued so far has been closed. */
  lemma ExitReleasesWaiters<T>(trace: seq<State<T>>, events: seq<Event<T>>, k: nat)
    requires IsRun(trace, events) && k < |events| && events[k].Exit?
    ensures multiset(trace[k + 1].fired) == multiset(trace[k + 1].enqueued)
    ensures trace[k + 1].workers == [] && trace[k + 1].jobs == []
  {
    RunKeepsInv(trace, events, k);
    RunKeepsInv(trace, events, k + 1);
    var s := trace[k + 1];
    assert Line(s) == s.executed;
  }

  lemma NextOnlyFiresMore<T>(s: State<T>, e: Event<T>, job: T)
    requires Enabled(s, e)
    ensures job in s.enqueued ==> job in Next(s, e).enqueued
    ensures job in s.fired ==> job in Next(s, e).fired
    ensures s.workers != [] && Next(s, e).workers == [] ==> e.Exit?
  {
  }

  lemma {:induction false} FiredStays<T>(trace: seq<State<T>>, events: seq<Event<T>>, j: nat, k: nat, job: T)
    requires IsRun(trace, events) && j <= k < |trace|
    ensures job in trace[j].enqueued ==> job in trace[k].enqueued
    ensures job in trace[j].fired ==> job in trace[k].fired
    decreases k - j
  {
    if j < k {
      FiredStays(trace, events, j, k - 1, job);
      NextOnlyFiresMore(trace[k - 1], events[k - 1], job);
    }
  }

  lemma WorkerLeaves<T>(trace: seq<State<T>>, events: seq<Event<T>>, k: nat, job: T)
    requires IsRun(trace, events) && k < |events|
    requires trace[k].workers != [] && trace[k + 1].workers == [] && job in trace[k].enqueued
    ensures job in trace[k + 1].fired
  {
    NextOnlyFiresMore(trace[k], events[k], job);
    ExitReleasesWaiters(trace, events, k);
    assert job in multiset(trace[k + 1].enqueued);
    assert job in multiset(trace[k + 1].fired);
  }

  /** When the wait of a Stop is over, that is, at any moment without a worker after one with a
      worker, every job enqueued before has been executed or dropped, and its waiters released. */
  lemma {:induction false} StopReleasesEverybody<T>(trace: seq<State<T>>, events: seq<Event<T>>, j: nat, k: nat, job: T)
    requires IsRun(trace, events) && j <= k < |trace|
    requires trace[j].workers != [] && trace[k].workers == [] && job in trace[j].enqueued
    ensures job in trace[k].fired
    decreases k - j
  {
    FiredStays(trace, events, j, k - 1, job);
    if trace[k - 1].workers != [] {
      WorkerLeaves(trace, events, k - 1, job);
    } else {
      StopReleasesEverybody(trace, events, j, k - 1, job);
      FiredStays(trace, events, k - 1, k, job);
    }
  }

  /** Jobs are executed in the order they were enqueued. */
  lemma FirstInFirstOut<T>(trace: seq<State<T>>, events: seq<Event<T>>, k: nat)
    requires IsRun(trace, events) && k < |trace|
    ensures InOrder(trace[k].executed, trace[k].enqueued)
    ensures InOrder(trace[k].executed + Current(trace[k]), trace[k].enqueued)
  {
    RunKeepsInv(trace, events, k);
    var s := trace[k];
    var m := |s.executed| + |Current(s)|;
    InOrderDrop(Line(s), s.enqueued, m, |s.jobs|);
    assert Line(s)[..m] + Line(s)[m + |s.jobs|..] == s.executed + Current(s);
    InOrderDrop(s.executed + Current(s), s.enqueued, |s.executed|, |Current(s)|);
    assert (s.executed + Current(s))[..|s.executed|] + (s.executed + Current(s))[m..] == s.executed;
  }

  /** Without discards nothing is overtaken: executed, current and pending jobs, in this
      order, are all the jobs in the order of their arrival. */
  lemma NothingLostWithoutDiscards<T>(trace: seq<State<T>>, events: seq<Event<T>>, k: nat)
    requires IsRun(trace, events) && k < |trace|
    ensures trace[k].discarded == [] ==> Line(trace[k]) == trace[k].enqueued
  {
    RunKeepsInv(trace, events, k);
    var s := trace[k];
    if s.discarded == [] {
      assert multiset(Line(s)) == multiset(s.enqueued);
      assert |multiset(Line(s))| == |multiset(s.enqueued)|;
      InOrderSameLength(Line(s), s.enqueued);
    }
  }

  // ----- The queue object -----

  class Job {
    const id: string
    var done: bool // the done channel is closed

    constructor (id: string)
      ensures this.id == id && !done
    {
      this.id := id;
      done := false;
    }

    /** Closing a channel twice would panic. */
    method Close()
      requires !done
      modifies this
      ensures done
    {
      done := true;
    }
  }

  class Queue {
    var jobs: seq<Job>
    var running: bool
    var shutdown: bool
    var workers: seq<Worker<Job>>
    ghost var enqueued: seq<Job>
    ghost var executed: seq<Job>
    ghost var discarded: seq<Job>
    ghost var fired: seq<Job>

    ghost function View(): State<Job>
      reads this
    {
      State(jobs, running, shutdown, workers, enqueued, executed, discarded, fired)
    }

    ghost predicate DoneMatches()
      reads this, enqueued
    {
      forall j | j in enqueued :: j.done <==> j in fired
    }

    ghost predicate Valid()
      reads this, enqueued
    {
      Inv(View()) && DoneMatches()
    }

    constructor ()
      ensures Valid() && View() == New()
    {
      jobs, running, shutdown, workers := [], false, false, [];
      enqueued, executed, discarded, fired := [], [], [], [];
      new;
      NewInv<Job>();
    }

    method Start()
      requires DoneMatches()
      modifies this
      ensures DoneMatches() && View() == Next(old(View()), Event.Start)
      ensures running && |workers| == |old(workers)| + if old(running) then 0 else 1
      ensures shutdown == (old(running) && old(shutdown))
    {
      if running {
        return;
      }
      running := true;
      shutdown := false;
      workers := workers + [Idle];
    }

    method Stop()
      requires DoneMatches()
      modifies this
      ensures DoneMatches() && View() == Next(old(View()), Event.Stop)
      ensures shutdown == (old(running) || old(shutdown))
    {
      if !running {
        return;
      }
      shutdown := true;
    }

    method Enqueue(job: Job)
      requires DoneMatches() && job !in enqueued && job !in fired && !job.done
      modifies this, job
      ensures DoneMatches() && View() == Next(old(View()), Event.Enqueue(job))
      ensures job.done == old(shutdown) && jobs == if old(shutdown) then old(jobs) else old(jobs) + [job]
    {
      enqueued := enqueued + [job];
      if shutdown {
        job.Close();
        discarded, fired := discarded + [job], fired + [job];
        return;
      }
      jobs := jobs + [job];
    }

    /** Removes the first pending job with the given id. */
    method RemovePendingJob(id: string) returns (removed: bool, ghost i: nat)
      requires DoneMatches() && Unfired(View())
      modifies this, jobs
      ensures DoneMatches()
      ensures removed <==> exists j | j in old(jobs) :: j.id == id
      ensures !removed ==> View() == old(View())
      ensures removed ==> i < |old(jobs)| && old(jobs)[i].id == id && (forall k :: 0 <= k < i ==> old(jobs)[k].id != id)
                          && View() == Next(old(View()), Remove(i))
    {
      i := 0;
      for n := 0 to |jobs|
        invariant View() == old(View()) && DoneMatches() && i == 0
        invariant forall k :: 0 <= k < n ==> jobs[k].id != id
      {
        if jobs[n].id == id {
          RemoveAt(n);
          return true, n;
        }
      }
      removed := false;
    }

    method RemoveAt(i: nat)
      requires DoneMatches() && i < |jobs| && jobs[i] in enqueued && jobs[i] !in fired
      modifies this, jobs[i]
      ensures DoneMatches() && View() == Next(old(View()), Remove(i))
    {
      jobs[i].Close();
      fired, discarded := fired + [jobs[i]], discarded + [jobs[i]];
      jobs := jobs[..i] + jobs[i + 1..];
    }

    /** The worker dequeues the first job. */
    method WorkerTake(w: nat)
      requires DoneMatches() && Enabled(View(), Take(w))
      modifies this
      ensures DoneMatches() && View() == Next(old(View()), Take(w))
      ensures [workers[w].job] + jobs == old(jobs)
    {
      workers := workers[w := Executing(jobs[0])];
      jobs := jobs[1..];
    }

    /** The job has been executed. */
    method WorkerComplete(w: nat)
      requires DoneMatches() && Enabled(View(), Event.Complete(w))
      requires workers[w].job in enqueued && workers[w].job !in fired
      modifies this, workers[w].job
      ensures DoneMatches() && View() == Next(old(View()), Event.Complete(w))
      ensures workers[w].Idle? && old(workers[w].job).done
    {
      var job := workers[w].job;
      job.Close();
      executed, fired := executed + [job], fired + [job];
      workers := workers[w := Idle];
    }

    /** Shutting down, the worker releases everybody who waits for a pending job. */
    method WorkerExit(w: nat)
      requires DoneMatches() && Unfired(View()) && Enabled(View(), Event.Exit(w))
      modifies this, jobs
      ensures DoneMatches() && View() == Next(old(View()), Event.Exit(w))
      ensures !running && jobs == [] && forall j | j in old(jobs) :: j.done
    {
      CloseAll();
      discarded, fired := discarded + jobs, fired + jobs;
      jobs := [];
      running := false;
      workers := workers[..w] + workers[w + 1..];
    }

    method CloseAll()
      requires DoneMatches() && Unfired(View())
      modifies jobs
      ensures forall j | j in enqueued :: j.done <==> j in fired || j in jobs
    {
      for i := 0 to |jobs|
        invariant forall j | j in enqueued :: j.done <==> j in fired || j in jobs[..i]
      {
        jobs[i].Close();
        assert jobs[..i + 1] == jobs[..i] + [jobs[i]];
      }
      assert jobs[..|jobs|] == jobs;
    }

    /** One section of one goroutine: the objects do what the event says, and keep the invariant. */
    method Step(e: Event<Job>)
      requires Valid() && Enabled(View(), e) && (e.Enqueue? ==> !e.job.done)
      modifies this, jobs, Current(View()), if e.Enqueue? then {e.job} else {}
      ensures Valid() && View() == Next(old(View()), e)
    {
      InvUnfired(View());
      NextKeepsInv(View(), e);
      Perform(e);
    }

    method Perform(e: Event<Job>)
      requires DoneMatches() && Unfired(View()) && |workers| <= 1 && Enabled(View(), e)
      requires e.Enqueue? ==> !e.job.done
      modifies this, jobs, Current(View()), if e.Enqueue? then {e.job} else {}
      ensures DoneMatches() && View() == Next(old(View()), e)
    {
      match e
      case Start => Start();
      case Stop => Stop();
      case Enqueue(job) => Enqueue(job);
      case Remove(i) => RemoveAt(i);
      case Take(w) => WorkerTake(w);
      case Complete(w) => WorkerComplete(w);
      case Exit(w) => WorkerExit(w);
    }
  }
}
