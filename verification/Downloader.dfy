/** The downloader object: tasks whose status is updated in place, a task list and a wait
    queue.  Each method is proved to perform the matching call of Scheduler. */
module Downloader {
  import opened Basics
  import opened Scheduler
  import opened SchedulerOutcomes

  class Task {
    var status: Status

    constructor ()
      ensures status == Ready
    {
      status := Ready;
    }

    method DoStart()
      modifies this
      ensures status == StartOne(old(status)) == if old(status) == Done then Done else Status.Running
    {
      if status == Status.Running || status == Done {
        return;
      }
      status := Status.Running;
    }

    method DoPause()
      modifies this
      ensures status == PauseOne(old(status)) == if old(status) == Done then Done else Pause
    {
      if status == Pause || status == Done {
        return;
      }
      status := Pause;
    }
  }

  class Downloader {
    const maxRunning: nat
    var tasks: seq<Task>
    var waitTasks: seq<Task>
    ghost var known: set<Task> // every task ever created

    ghost function Statuses(): map<Task, Status>
      reads this, known
    {
      map t | t in known :: t.status
    }

    ghost function View(): State<Task>
      reads this, known
    {
      State(tasks, waitTasks, Statuses(), maxRunning)
    }

    ghost predicate Valid()
      reads this, known
    {
      Inv(View())
    }

    constructor (maxRunning: nat)
      ensures Valid() && View() == State([], [], map[], maxRunning)
    {
      this.maxRunning := maxRunning;
      tasks, waitTasks, known := [], [], {};
      new;
      InitialInv(View());
    }

    method GetTasksByFilter(f: Filter<Task>) returns (r: seq<Task>)
      requires WellFormed(View())
      ensures r == Select(tasks, Statuses(), f)
      ensures forall t :: t in r <==>
                t in tasks && Passes(f.ids, f.statuses, t, t.status) && t.status !in f.notStatuses
    {
      r := [];
      for i := 0 to |tasks|
        invariant r == Select(tasks[..i], Statuses(), f)
      {
        assert tasks[..i + 1][..i] == tasks[..i];
        var t := tasks[i];
        assert t in Statuses();
        if f.Matches(t, t.status) {
          r := r + [t];
        }
      }
      assert tasks[..|tasks|] == tasks;
      SelectMembers(tasks, Statuses(), f);
    }

    /** Something is selected exactly if some listed task passes. */
    lemma AnyFound(f: Filter<Task>)
      requires WellFormed(View())
      ensures Select(tasks, Statuses(), f) != [] <==>
              exists t | t in tasks :: Passes(f.ids, f.statuses, t, t.status) && t.status !in f.notStatuses
    {
      var r := Select(tasks, Statuses(), f);
      SelectMembers(tasks, Statuses(), f);
      if r != [] {
        var t := r[0];
        assert t in r && Passes(f.ids, f.statuses, t, t.status);
      }
      forall t | t in tasks && Passes(f.ids, f.statuses, t, t.status) && t.status !in f.notStatuses
        ensures r != []
      {
        assert t in Statuses() && f.Matches(t, Statuses()[t]);
        assert t in r;
      }
    }

    method RemainRunningCount() returns (r: int)
      requires WellFormed(View())
      ensures r == Remaining(View())
    {
      var runningCount := 0;
      for i := 0 to |tasks|
        invariant runningCount == |Select(tasks[..i], Statuses(), RunningOnly<Task>())|
      {
        assert tasks[..i + 1][..i] == tasks[..i];
        assert tasks[i] in Statuses();
        if tasks[i].status == Status.Running {
          runningCount := runningCount + 1;
        }
      }
      assert tasks[..|tasks|] == tasks;
      RunningSelected(View());
      r := maxRunning - runningCount;
    }

    /** One task changed its status. */
    twostate lemma OneStatus(t: Task)
      requires known == old(known) && t in known
      requires forall x | x in known && x != t :: x.status == old(x.status)
      ensures Statuses() == old(Statuses())[t := t.status]
    {
    }

    method AddReady(task: Task)
      requires Valid() && task !in known && task.status == Ready
      modifies this
      ensures Valid() && known == old(known) + {task}
      ensures View() == old(View()).(tasks := old(tasks) + [task], status := old(Statuses())[task := Ready])
    {
      AddReadyKeepsInv(View(), task);
      tasks := tasks + [task];
      known := known + {task};
      assert Statuses() == old(Statuses())[task := Ready];
    }

    /** A new task starts, or waits when the cap is reached. */
    method DoCreate(task: Task)
      requires Valid() && task !in known && task.status == Ready
      modifies this, task
      ensures Valid() && View() == Next(old(View()), Create(task))
    {
      NextKeepsInv(View(), Create(task));
      AddReady(task);
      var remain := RemainRunningCount();
      label Added:
      StartOrQueue(task, remain);
      OneStatus@Added(task);
    }

    method StartOrQueue(task: Task, remain: int)
      modifies this`waitTasks, task
      ensures waitTasks == if remain == 0 then old(waitTasks) + [task] else old(waitTasks)
      ensures task.status == if remain == 0 then Wait else StartOne(old(task.status))
    {
      if remain == 0 {
        task.status := Wait;
        waitTasks := waitTasks + [task];
      } else {
        task.DoStart();
      }
    }

    /** The goroutine of notifyRunning: wake the head of the queue if there is room. */
    method NotifyRunning()
      requires Valid()
      modifies this, known
      ensures Valid() && View() == Next(old(View()), Notify)
    {
      NextKeepsInv(View(), Notify);
      var remain := RemainRunningCount();
      if remain == 0 {
        return;
      }
      if |waitTasks| > 0 {
        var wt := waitTasks[0];
        assert wt in Statuses();
        waitTasks := waitTasks[1..];
        wt.DoStart();
        OneStatus(wt);
      }
    }

    method PauseTasks(ts: seq<Task>)
      requires forall t | t in ts :: t in known
      modifies known
      ensures Statuses() == PauseEach(old(Statuses()), ts)
    {
      for i := 0 to |ts|
        invariant forall t | t in known :: t.status == if t in ts[..i] then PauseOne(old(t.status)) else old(t.status)
      {
        ts[i].DoPause();
        assert ts[..i + 1] == ts[..i] + [ts[i]];
      }
      assert ts[..|ts|] == ts;
    }

    method PauseSome(f: Filter<Task>) returns (found: bool)
      requires Valid() && !f.IsEmpty()
      modifies this, known
      ensures Valid() && View() == Next(old(View()), Call.PauseSome(f))
      ensures found <==> exists t | t in old(tasks) ::
                Passes(f.ids, f.statuses, t, old(t.status)) && old(t.status) !in {Pause, Error, Done}
    {
      NextKeepsInv(View(), Call.PauseSome(f));
      var ts := GetTasksByFilter(f.(notStatuses := {Pause, Error, Done}));
      SelectMembers(tasks, Statuses(), f.(notStatuses := {Pause, Error, Done}));
      AnyFound(f.(notStatuses := {Pause, Error, Done}));
      found := |ts| > 0;
      PauseTasks(ts);
    }

    method PauseAll()
      requires Valid()
      modifies this, known
      ensures Valid() && View() == Next(old(View()), Call.PauseAll)
    {
      NextKeepsInv(View(), Call.PauseAll);
      waitTasks := [];
      PauseTasks(tasks);
    }

    /** A running task gives way and is queued. */
    method PreemptIfRunning(task: Task) returns (paused: bool)
      requires task in known
      modifies this`waitTasks, task
      ensures paused <==> old(task.status) == Status.Running
      ensures waitTasks == old(waitTasks) + if paused then [task] else []
      ensures task.status == if paused then Wait else old(task.status)
    {
      paused := task.status == Status.Running;
      if paused {
        task.DoPause();
        task.status := Wait;
        waitTasks := waitTasks + [task];
      }
    }

    /** Running tasks give way, in list order, until enough have. */
    method PreemptRunning(needPauseCount: int) returns (ghost victims: seq<Task>)
      requires WellFormed(View()) && 1 <= needPauseCount
      modifies this`waitTasks, known
      ensures var running := Select(tasks, old(Statuses()), RunningOnly<Task>());
              victims == running[..Min(needPauseCount, |running|)]
      ensures waitTasks == old(waitTasks) + victims
      ensures forall t | t in known :: t.status == if t in victims then Wait else old(t.status)
    {
      ghost var before := Statuses();
      ghost var i;
      i, victims := PreemptUntil(needPauseCount, before);
      EnoughSelected(tasks, before, i, victims, needPauseCount);
    }

    /** The first n tasks have been looked at since the statuses were `before`: those that ran
        wait now. */
    ghost predicate Looked(n: nat, before: map<Task, Status>, queue: seq<Task>)
      requires n <= |tasks|
      reads this, known
    {
      var victims := Select(tasks[..n], before, RunningOnly<Task>());
      && waitTasks == queue + victims
      && forall t | t in known :: t in before && t.status == if t in victims then Wait else before[t]
    }

    method PreemptStep(n: nat, ghost before: map<Task, Status>, ghost queue: seq<Task>) returns (paused: bool)
      requires NoDup(tasks) && n < |tasks| && tasks[n] in known && Looked(n, before, queue)
      modifies this`waitTasks, known
      ensures Looked(n + 1, before, queue) && (paused <==> before[tasks[n]] == Status.Running)
    {
      SelectNext(tasks, before, n, Select(tasks[..n], before, RunningOnly<Task>()));
      paused := PreemptIfRunning(tasks[n]);
    }

    /** Its loop, which looks at the first i tasks. */
    method PreemptUntil(needPauseCount: int, ghost before: map<Task, Status>)
      returns (ghost i: nat, ghost victims: seq<Task>)
      requires NoDup(tasks) && (forall t | t in tasks :: t in known) && 1 <= needPauseCount
      requires before.Keys == known && forall t | t in known :: before[t] == t.status
      modifies this`waitTasks, known
      ensures i <= |tasks| && victims == Select(tasks[..i], before, RunningOnly<Task>())
      ensures |victims| <= needPauseCount && (i == |tasks| || |victims| == needPauseCount)
      ensures Looked(i, before, old(waitTasks))
    {
      var pausedCount, n := 0, 0;
      while n < |tasks| && pausedCount < needPauseCount
        invariant n <= |tasks|
        invariant pausedCount == |Select(tasks[..n], before, RunningOnly<Task>())| <= needPauseCount
        invariant Looked(n, before, old(waitTasks))
      {
        SelectNext(tasks, before, n, Select(tasks[..n], before, RunningOnly<Task>()));
        var paused := PreemptStep(n, before, old(waitTasks));
        if paused {
          pausedCount := pausedCount + 1;
        }
        n := n + 1;
      }
      i, victims := n, Select(tasks[..n], before, RunningOnly<Task>());
    }

    /** Looking until enough are found, or to the end, finds the first ones. */
    static lemma EnoughSelected(ts: seq<Task>, status: map<Task, Status>, i: nat, r: seq<Task>, need: nat)
      requires i <= |ts| && r == Select(ts[..i], status, RunningOnly<Task>())
      requires |r| <= need && (i == |ts| || |r| == need)
      ensures var all := Select(ts, status, RunningOnly<Task>()); r == all[..Min(need, |all|)]
    {
      SelectPrefix(ts, status, RunningOnly<Task>(), i);
      assert ts[..|ts|] == ts;
    }

    /** What looking at one more task adds to the running ones. */
    static lemma SelectNext(ts: seq<Task>, status: map<Task, Status>, i: nat, r: seq<Task>)
      requires NoDup(ts) && i < |ts| && ts[i] in status
      requires r == Select(ts[..i], status, RunningOnly<Task>())
      ensures ts[i] !in r
      ensures Select(ts[..i + 1], status, RunningOnly<Task>()) ==
              if status[ts[i]] == Status.Running then r + [ts[i]] else r
    {
      assert ts[..i + 1][..i] == ts[..i];
      SelectMembers(ts[..i], status, RunningOnly<Task>());
      NotBefore(ts, i);
      assert r + [] == r;
    }

    static lemma {:induction false} NotBefore(ts: seq<Task>, i: nat)
      requires NoDup(ts) && i < |ts|
      ensures ts[i] !in ts[..i]
    {
      var n := |ts| - 1;
      if i < n {
        NotBefore(ts[..n], i);
        assert ts[..n][..i] == ts[..i];
      }
    }

    static lemma {:induction false} SelectPrefix(ts: seq<Task>, status: map<Task, Status>, f: Filter<Task>, k: nat)
      requires k <= |ts|
      ensures Select(ts[..k], status, f) <= Select(ts, status, f)
    {
      if k == |ts| {
        assert ts[..k] == ts;
      } else {
        var n := |ts| - 1;
        SelectPrefix(ts[..n], status, f, k);
        assert ts[..n][..k] == ts[..k];
      }
    }

    /** Tasks that cannot run yet are queued. */
    method QueueTasks(ts: seq<Task>)
      requires forall t | t in ts :: t in known
      modifies this`waitTasks, known
      ensures waitTasks == old(waitTasks) + ts
      ensures forall t | t in known :: t.status == if t in ts then Wait else old(t.status)
    {
      for i := 0 to |ts|
        invariant waitTasks == old(waitTasks) + ts[..i]
        invariant forall t | t in known :: t.status == if t in ts[..i] then Wait else old(t.status)
      {
        ts[i].status := Wait;
        waitTasks := waitTasks + [ts[i]];
        assert ts[..i + 1] == ts[..i] + [ts[i]];
      }
      assert ts[..|ts|] == ts;
    }

    method StartTasks(ts: seq<Task>)
      requires forall t | t in ts :: t in known
      modifies known
      ensures forall t | t in known :: t.status == if t in ts then StartOne(old(t.status)) else old(t.status)
    {
      for i := 0 to |ts|
        invariant forall t | t in known :: t.status == if t in ts[..i] then StartOne(old(t.status)) else old(t.status)
      {
        ts[i].DoStart();
        assert ts[..i + 1] == ts[..i] + [ts[i]];
      }
      assert ts[..|ts|] == ts;
    }

    /** Pre-empting, refusing and starting one task after the other gives each task this
        status ... */
    ghost static function Continued(s: State<Task>, f: Filter<Task>, t: Task): Status
      requires t in s.status
    {
      var asked, k := Requested(s, f), Granted(s, f);
      var given := if t in Preempted(s, f) then Wait else s.status[t];
      var queued := if t in asked[k..] then Wait else given;
      if t in asked[..k] then StartOne(queued) else queued
    }

    /** ... which is the one that ContinueState says. */
    static lemma ContinueStatus(s: State<Task>, f: Filter<Task>, t: Task)
      requires Inv(s) && Requested(s, f) != [] && t in s.status
      ensures ContinueState(s, f).status[t] == Continued(s, f, t)
    {
      ContinueGroups(s, f);
      PreemptedAreRunning(s, f);
      var asked, k := Requested(s, f), Granted(s, f);
      SelectMembers(s.tasks, s.status, f.(notStatuses := {Status.Running, Done}));
      assert t in asked[..k] <==> t in ToSet(asked[..k]);
      assert t in asked[k..] <==> t in ToSet(asked[k..]);
      assert t in Preempted(s, f) <==> t in ToSet(Preempted(s, f));
      assert t in asked <==> t in ToSet(asked);
    }

    /** Queues those who give way and those refused, and starts the others. */
    method Grant(asked: seq<Task>, granted: nat, needPauseCount: int) returns (ghost victims: seq<Task>)
      requires WellFormed(View()) && granted <= |asked| && forall t | t in asked :: t in known
      modifies this`waitTasks, known
      ensures var running := Select(tasks, old(Statuses()), RunningOnly<Task>());
              victims == if needPauseCount <= 0 then [] else running[..Min(needPauseCount, |running|)]
      ensures waitTasks == old(waitTasks) + (victims + asked[granted..])
      ensures forall t | t in known ::
                var given := if t in victims then Wait else old(t.status);
                var queued := if t in asked[granted..] then Wait else given;
                t.status == if t in asked[..granted] then StartOne(queued) else queued
    {
      victims := [];
      if needPauseCount > 0 {
        victims := PreemptRunning(needPauseCount);
      }
      QueueTasks(asked[granted..]);
      StartTasks(asked[..granted]);
    }

    method ContinueTasks(ghost f: Filter<Task>, continueTasks: seq<Task>)
      requires WellFormed(View()) && continueTasks == Requested(View(), f)
      modifies this`waitTasks, known
      ensures waitTasks == old(waitTasks) + (Preempted(old(View()), f) + continueTasks[Granted(old(View()), f)..])
      ensures forall t | t in known :: t.status == Continued(old(View()), f, t)
    {
      ghost var s := View();
      SelectMembers(tasks, Statuses(), f.(notStatuses := {Status.Running, Done}));
      var remainRunningCount := RemainRunningCount();
      var needRunningCount := Min(maxRunning, |continueTasks|);
      ghost var victims := Grant(continueTasks, needRunningCount, needRunningCount - remainRunningCount);
      assert victims == Preempted(s, f);
    }

    static lemma ContinueDone(s: State<Task>, f: Filter<Task>, t: State<Task>)
      requires Inv(s) && Requested(s, f) != []
      requires t.tasks == s.tasks && t.maxRunning == s.maxRunning && t.status.Keys == s.status.Keys
      requires t.wait == s.wait + (Preempted(s, f) + Requested(s, f)[Granted(s, f)..])
      requires forall x | x in s.status :: t.status[x] == Continued(s, f, x)
      ensures t == ContinueState(s, f)
    {
      forall x | x in s.status ensures t.status[x] == ContinueState(s, f).status[x] {
        ContinueStatus(s, f, x);
      }
      assert t.status == ContinueState(s, f).status;
    }

    method FindResumable(f: Filter<Task>) returns (r: seq<Task>, found: bool)
      requires WellFormed(View())
      ensures r == Requested(View(), f) && (found <==> r != [])
      ensures found <==> exists t | t in tasks ::
                Passes(f.ids, f.statuses, t, t.status) && t.status !in {Status.Running, Done}
    {
      AnyFound(f.(notStatuses := {Status.Running, Done}));
      r := GetTasksByFilter(f.(notStatuses := {Status.Running, Done}));
      found := |r| > 0;
    }

    /** Runs the requested tasks, pre-empting running ones if the cap demands it. */
    method ContinueSome(f: Filter<Task>) returns (found: bool)
      requires Valid() && !f.IsEmpty()
      modifies this`waitTasks, known
      ensures Valid() && View() == Next(old(View()), Call.ContinueSome(f))
      ensures found <==> exists t | t in old(tasks) ::
                Passes(f.ids, f.statuses, t, old(t.status)) && old(t.status) !in {Status.Running, Done}
    {
      ghost var s := View();
      NextKeepsInv(s, Call.ContinueSome(f));
      var continueTasks;
      continueTasks, found := FindResumable(f);
      if found {
        ContinueTasks(f, continueTasks);
        ContinueDone(s, f, View());
      }
    }

    ghost static function ContinuedAll(s: State<Task>, t: Task): Status
      requires t in s.status
    {
      var asked, k := Stopped(s), Room(s);
      var queued := if t in asked[k..] then Wait else s.status[t];
      if t in asked[..k] then StartOne(queued) else queued
    }

    static lemma ContinueAllStatus(s: State<Task>, t: Task)
      requires Inv(s) && t in s.status
      ensures ContinueAllState(s).status[t] == ContinuedAll(s, t)
    {
      ContinueAllGroups(s);
      var asked, k := Stopped(s), Room(s);
      SelectMembers(s.tasks, s.status, ResumableOnly<Task>());
      assert t in asked[..k] <==> t in ToSet(asked[..k]);
      assert t in asked[k..] <==> t in ToSet(asked[k..]);
      assert t in asked[..k] ==> t in asked;
    }

    static lemma ContinueAllDone(s: State<Task>, t: State<Task>)
      requires Inv(s) && t.tasks == s.tasks && t.maxRunning == s.maxRunning && t.status.Keys == s.status.Keys
      requires t.wait == s.wait + Stopped(s)[Room(s)..]
      requires forall x | x in s.status :: t.status[x] == ContinuedAll(s, x)
      ensures t == ContinueAllState(s)
    {
      forall x | x in s.status ensures t.status[x] == ContinueAllState(s).status[x] {
        ContinueAllStatus(s, x);
      }
      assert t.status == ContinueAllState(s).status;
    }

    /** Starts what there is room for and queues the rest. */
    method ContinueAll()
      requires Valid()
      modifies this`waitTasks, known
      ensures Valid() && View() == Next(old(View()), Call.ContinueAll)
    {
      ghost var s := View();
      NextKeepsInv(s, Call.ContinueAll);
      ContinueStopped();
      ContinueAllDone(s, View());
    }

    method ContinueStopped()
      requires WellFormed(View())
      modifies this`waitTasks, known
      ensures waitTasks == old(waitTasks) + Stopped(old(View()))[Room(old(View()))..]
      ensures forall t | t in known :: t.status == ContinuedAll(old(View()), t)
    {
      var remainCount := RemainRunningCount();
      var asked := GetTasksByFilter(ResumableOnly<Task>());
      SelectMembers(tasks, Statuses(), ResumableOnly<Task>());
      var room := if remainCount < 0 then 0 else Min(remainCount, |asked|);
      ghost var victims := Grant(asked, room, 0);
      assert victims + asked[room..] == asked[room..];
    }

    // ----- Deleting and settling -----

    static method Without(ts: seq<Task>, t: Task) returns (r: seq<Task>)
      ensures r == RemoveFirst(ts, t)
    {
      var i := 0;
      while i < |ts|
        invariant i <= |ts| && t !in ts[..i]
      {
        if ts[i] == t {
          RemoveFirstAt(ts, t, i);
          return ts[..i] + ts[i + 1..];
        }
        assert ts[..i + 1] == ts[..i] + [ts[i]];
        i := i + 1;
      }
      assert ts[..|ts|] == ts;
      RemoveFirstAbsent(ts, t);
      r := ts;
    }

    method DeleteSome(f: Filter<Task>)
      requires Valid() && !f.IsEmpty()
      modifies this`tasks, this`waitTasks
      ensures Valid() && View() == Next(old(View()), Call.DeleteSome(f))
    {
      NextKeepsInv(View(), Call.DeleteSome(f));
      var gone := GetTasksByFilter(f);
      Drop(gone);
      assert Statuses() == old(Statuses());
    }

    method Drop(gone: seq<Task>)
      modifies this`tasks, this`waitTasks
      ensures tasks == RemoveEach(old(tasks), gone) && waitTasks == RemoveEach(old(waitTasks), gone)
    {
      for i := 0 to |gone|
        invariant tasks == RemoveEach(old(tasks), gone[..i]) && waitTasks == RemoveEach(old(waitTasks), gone[..i])
      {
        assert gone[..i + 1][..i] == gone[..i];
        tasks := Without(tasks, gone[i]);
        waitTasks := Without(waitTasks, gone[i]);
      }
      assert gone[..|gone|] == gone;
    }

    method DeleteAll()
      requires Valid()
      modifies this
      ensures Valid() && View() == Next(old(View()), Call.DeleteAll)
    {
      NextKeepsInv(View(), Call.DeleteAll);
      tasks := [];
      waitTasks := [];
    }

    /** The fetcher of a listed task finished. */
    method OnDone(task: Task)
      requires Valid() && task in tasks
      modifies task
      ensures Valid() && View() == Next(old(View()), Complete(task))
    {
      NextKeepsInv(View(), Complete(task));
      task.status := Done;
      OneStatus(task);
    }

    /** A task failed. */
    method DoOnError(task: Task)
      requires Valid() && task in known
      modifies task
      ensures Valid() && View() == Next(old(View()), Call.Fail(task))
    {
      NextKeepsInv(View(), Call.Fail(task));
      task.status := Error;
      OneStatus(task);
    }
  }
}
