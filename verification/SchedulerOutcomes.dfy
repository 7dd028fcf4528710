/** What the scheduler's calls do to each download, told from its status and its place in the
    list: who is asked, who runs, who gives way, and where in the queue the others wait. */
module SchedulerOutcomes {
  import opened Basics
  import opened Scheduler

  // ----- Who is selected -----

  /** Empty components of a filter match everything. */
  predicate Passes<T(==)>(ids: set<T>, statuses: set<Status>, t: T, s: Status) {
    (ids == {} || t in ids) && (statuses == {} || s in statuses)
  }

  /** A filtered Continue asks for what passes the filter's identifiers and statuses and is
      neither running nor done; its own excluded statuses are overwritten. */
  lemma RequestedIff<T>(s: State<T>, f: Filter<T>, t: T)
    requires Inv(s) && t in s.tasks
    ensures t in Requested(s, f) <==>
            Passes(f.ids, f.statuses, t, s.status[t]) && s.status[t] != Status.Running && s.status[t] != Done
  {
    SelectMembers(s.tasks, s.status, f.(notStatuses := {Status.Running, Done}));
  }

  /** A selection without changes to the filter. */
  lemma SelectedIff<T>(s: State<T>, f: Filter<T>, t: T)
    requires Inv(s) && t in s.tasks
    ensures t in Select(s.tasks, s.status, f) <==>
            Passes(f.ids, f.statuses, t, s.status[t]) && s.status[t] !in f.notStatuses
  {
    SelectMembers(s.tasks, s.status, f);
  }

  /** How many of the first i tasks are in a set. */
  function Ahead<T(==)>(tasks: seq<T>, group: set<T>, i: nat): (n: nat)
    requires i <= |tasks|
    ensures n <= i
  {
    if i == 0 then 0 else Ahead(tasks, group, i - 1) + if tasks[i - 1] in group then 1 else 0
  }

  lemma {:induction false} AheadOfPrefix<T>(tasks: seq<T>, group: set<T>, n: nat, i: nat)
    requires i <= n <= |tasks|
    ensures Ahead(tasks[..n], group, i) == Ahead(tasks, group, i)
  {
    if i > 0 {
      AheadOfPrefix(tasks, group, n, i - 1);
    }
  }

  lemma {:induction false} SelectCounts<T>(tasks: seq<T>, status: map<T, Status>, f: Filter<T>, group: set<T>)
    requires forall t | t in tasks :: t in group <==> t in status && f.Matches(t, status[t])
    ensures |Select(tasks, status, f)| == Ahead(tasks, group, |tasks|)
  {
    if tasks != [] {
      var n := |tasks| - 1;
      assert tasks[n] in tasks && forall t | t in tasks[..n] :: t in tasks;
      SelectCounts(tasks[..n], status, f, group);
      AheadOfPrefix(tasks, group, n, n);
    }
  }

  /** Selected tasks stand in list order: each is preceded by as many as are selected before it. */
  lemma {:induction false} SelectInOrder<T>(tasks: seq<T>, status: map<T, Status>, f: Filter<T>,
                                            group: set<T>, i: nat)
    requires forall t | t in tasks :: t in group <==> t in status && f.Matches(t, status[t])
    requires i < |tasks| && tasks[i] in group
    ensures var r := Select(tasks, status, f);
            Ahead(tasks, group, i) < |r| && r[Ahead(tasks, group, i)] == tasks[i]
  {
    var n := |tasks| - 1;
    assert tasks[n] in tasks && forall t | t in tasks[..n] :: t in tasks;
    if i < n {
      SelectInOrder(tasks[..n], status, f, group, i);
      AheadOfPrefix(tasks, group, n, i);
    } else {
      SelectCounts(tasks[..n], status, f, group);
      AheadOfPrefix(tasks, group, n, n);
    }
  }

  // ----- Continue -----

  /** The tasks a filtered Continue asks for. */
  function AskedSet<T(==)>(s: State<T>, f: Filter<T>): set<T> {
    set t | t in s.tasks && t in s.status && Passes(f.ids, f.statuses, t, s.status[t])
            && s.status[t] != Status.Running && s.status[t] != Done
  }

  /** How many running tasks must give way so that as many of those asked for as the cap allows
      can run. */
  function MustGiveWay<T(==)>(s: State<T>, asked: nat): nat {
    var more := Min(s.maxRunning, asked) - (s.maxRunning - |RunningSet(s)|);
    if more > 0 then more else 0
  }

  lemma RequestedAre<T>(s: State<T>, f: Filter<T>)
    requires Inv(s)
    ensures ToSet(Requested(s, f)) == AskedSet(s, f) && |Requested(s, f)| == |AskedSet(s, f)|
    ensures NoDup(Requested(s, f))
  {
    var g := f.(notStatuses := {Status.Running, Done});
    SelectMembers(s.tasks, s.status, g);
    SelectNoDup(s.tasks, s.status, g);
    NoDupCard(Requested(s, f));
    assert ToSet(Requested(s, f)) == AskedSet(s, f);
  }

  /** Where a requested task stands among the requested ones. */
  lemma RequestedAt<T>(s: State<T>, f: Filter<T>, i: nat)
    requires Inv(s) && i < |s.tasks| && s.tasks[i] in AskedSet(s, f)
    ensures var r := Ahead(s.tasks, AskedSet(s, f), i);
            r < |Requested(s, f)| && Requested(s, f)[r] == s.tasks[i]
  {
    SelectInOrder(s.tasks, s.status, f.(notStatuses := {Status.Running, Done}), AskedSet(s, f), i);
  }

  lemma RunningAt<T>(s: State<T>, i: nat)
    requires Inv(s) && i < |s.tasks| && s.tasks[i] in RunningSet(s)
    ensures var r, running := Ahead(s.tasks, RunningSet(s), i), Select(s.tasks, s.status, RunningOnly());
            r < |running| && running[r] == s.tasks[i]
  {
    SelectInOrder(s.tasks, s.status, RunningOnly(), RunningSet(s), i);
  }

  /** A member of a list without duplicates is in its first k exactly if it stands there. */
  lemma {:induction false} StandsBefore<T>(q: seq<T>, r: nat, k: nat)
    requires NoDup(q) && r < |q| && k <= |q|
    ensures q[r] in q[..k] <==> r < k
    ensures q[r] in q[k..] <==> k <= r
  {
    CutNoDup(q, k);
    if r < k {
      assert q[..k][r] == q[r] && q[r] in ToSet(q[..k]);
    } else {
      assert q[k..][r - k] == q[r] && q[r] in ToSet(q[k..]);
    }
  }

  lemma PreemptedAre<T>(s: State<T>, f: Filter<T>)
    requires Inv(s)
    ensures var running, n := Select(s.tasks, s.status, RunningOnly()), MustGiveWay(s, |AskedSet(s, f)|);
            n <= |running| && Preempted(s, f) == running[..n]
  {
    RequestedAre(s, f);
    RunningSelected(s);
  }

  lemma PreemptedIff<T>(s: State<T>, f: Filter<T>, i: nat)
    requires Inv(s) && i < |s.tasks|
    ensures s.tasks[i] in Preempted(s, f) <==>
            s.tasks[i] in RunningSet(s) && Ahead(s.tasks, RunningSet(s), i) < MustGiveWay(s, |AskedSet(s, f)|)
  {
    PreemptedAre(s, f);
    RunningSelected(s);
    PreemptedAreRunning(s, f);
    var t := s.tasks[i];
    assert t in Preempted(s, f) <==> t in ToSet(Preempted(s, f));
    if t in RunningSet(s) {
      RunningAt(s, i);
      StandsBefore(Select(s.tasks, s.status, RunningOnly()), Ahead(s.tasks, RunningSet(s), i),
                   MustGiveWay(s, |AskedSet(s, f)|));
    }
  }

  lemma GrantedIff<T>(s: State<T>, f: Filter<T>, i: nat)
    requires Inv(s) && i < |s.tasks|
    ensures s.tasks[i] in Requested(s, f)[..Granted(s, f)] <==>
            s.tasks[i] in AskedSet(s, f) && Ahead(s.tasks, AskedSet(s, f), i) < s.maxRunning
    ensures s.tasks[i] in Requested(s, f)[Granted(s, f)..] <==>
            s.tasks[i] in AskedSet(s, f) && Ahead(s.tasks, AskedSet(s, f), i) >= s.maxRunning
  {
    RequestedAre(s, f);
    var t, asked := s.tasks[i], Requested(s, f);
    assert t in asked <==> t in ToSet(asked);
    if t in AskedSet(s, f) {
      RequestedAt(s, f, i);
      StandsBefore(asked, Ahead(s.tasks, AskedSet(s, f), i), Granted(s, f));
    }
  }

  /** What a filtered Continue makes of each listed download: of those asked for, the first in
      the list run, as many as the cap allows, and the others wait; the first of those running
      wait, as many as have to; everybody else stays as before. */
  lemma ContinueDecides<T>(s: State<T>, f: Filter<T>, i: nat)
    requires Inv(s) && AskedSet(s, f) != {} && i < |s.tasks|
    ensures var t, n := s.tasks[i], Next(s, ContinueSome(f));
            t in n.status && n.status[t] ==
            if t in AskedSet(s, f) then
              if Ahead(s.tasks, AskedSet(s, f), i) < s.maxRunning then Status.Running else Wait
            else if t in RunningSet(s) && Ahead(s.tasks, RunningSet(s), i) < MustGiveWay(s, |AskedSet(s, f)|) then Wait
            else s.status[t]
  {
    RequestedAre(s, f);
    GrantedIff(s, f, i);
    PreemptedIff(s, f, i);
    var t, asked, k := s.tasks[i], Requested(s, f), Granted(s, f);
    assert t in asked[..k] <==> t in ToSet(asked[..k]);
    assert t in asked[k..] <==> t in ToSet(asked[k..]);
    assert t in Preempted(s, f) <==> t in ToSet(Preempted(s, f));
  }

  /** Those who wait are appended to the queue in list order, first those who gave way. */
  lemma ContinueQueues<T>(s: State<T>, f: Filter<T>, i: nat)
    requires Inv(s) && AskedSet(s, f) != {} && i < |s.tasks|
    ensures var t, n := s.tasks[i], Next(s, ContinueSome(f));
            var queued, away := |s.wait|, MustGiveWay(s, |AskedSet(s, f)|);
            && n.tasks == s.tasks && |n.wait| >= queued && n.wait[..queued] == s.wait
            && |n.wait| == queued + away + |AskedSet(s, f)| - Min(s.maxRunning, |AskedSet(s, f)|)
            && (t in RunningSet(s) && Ahead(s.tasks, RunningSet(s), i) < away ==>
                  n.wait[queued + Ahead(s.tasks, RunningSet(s), i)] == t)
            && (t in AskedSet(s, f) && Ahead(s.tasks, AskedSet(s, f), i) >= s.maxRunning ==>
                  queued + away + Ahead(s.tasks, AskedSet(s, f), i) - s.maxRunning < |n.wait|
                  && n.wait[queued + away + Ahead(s.tasks, AskedSet(s, f), i) - s.maxRunning] == t)
  {
    RequestedAre(s, f);
    PreemptedAre(s, f);
    if s.tasks[i] in RunningSet(s) {
      RunningAt(s, i);
    }
    if s.tasks[i] in AskedSet(s, f) {
      RequestedAt(s, f, i);
    }
  }

  /** If nobody is asked for, nothing happens. */
  lemma ContinueNobody<T>(s: State<T>, f: Filter<T>)
    requires Inv(s) && AskedSet(s, f) == {}
    ensures Next(s, ContinueSome(f)) == s
  {
    RequestedAre(s, f);
  }

  /** Continuing one stopped download runs it whenever anything may run at all, and lets at most
      the first of those running wait for it, if the cap was reached. */
  lemma ContinueOne<T>(s: State<T>, i: nat, k: nat)
    requires Inv(s) && s.maxRunning >= 1 && i < |s.tasks| && k < |s.tasks| && k != i
    requires s.status[s.tasks[i]] != Status.Running && s.status[s.tasks[i]] != Done
    ensures var n := Next(s, ContinueSome(Filter({s.tasks[i]}, {}, {})));
            && s.tasks[i] in n.status && n.status[s.tasks[i]] == Status.Running
            && s.tasks[k] in n.status && n.status[s.tasks[k]] ==
               if s.status[s.tasks[k]] == Status.Running && |RunningSet(s)| == s.maxRunning
                  && Ahead(s.tasks, RunningSet(s), k) == 0
               then Wait else s.status[s.tasks[k]]
  {
    var t, f := s.tasks[i], Filter({s.tasks[i]}, {}, {});
    assert AskedSet(s, f) == {t};
    DifferentTasks(s.tasks, i, k);
    AheadAlone(s.tasks, i, i);
    ContinueDecides(s, f, i);
    ContinueDecides(s, f, k);
  }

  lemma {:induction false} DifferentTasks<T>(tasks: seq<T>, i: nat, k: nat)
    requires NoDup(tasks) && i < |tasks| && k < |tasks| && i != k
    ensures tasks[i] != tasks[k]
  {
    var n := |tasks| - 1;
    if i == n {
      assert tasks[k] in tasks[..n];
    } else if k == n {
      assert tasks[i] in tasks[..n];
    } else {
      DifferentTasks(tasks[..n], i, k);
    }
  }

  lemma {:induction false} AheadAlone<T>(tasks: seq<T>, i: nat, j: nat)
    requires NoDup(tasks) && j <= i < |tasks|
    ensures Ahead(tasks, {tasks[i]}, j) == 0
  {
    if j > 0 {
      DifferentTasks(tasks, i, j - 1);
      AheadAlone(tasks, i, j - 1);
    }
  }

  // ----- Continue without a filter -----

  /** Everything that neither runs nor is done. */
  function StoppedSet<T(==)>(s: State<T>): set<T> {
    set t | t in s.tasks && t in s.status && s.status[t] != Status.Running && s.status[t] != Done
  }

  lemma StoppedAre<T>(s: State<T>)
    requires Inv(s)
    ensures ToSet(Stopped(s)) == StoppedSet(s) && |Stopped(s)| == |StoppedSet(s)| && NoDup(Stopped(s))
  {
    SelectMembers(s.tasks, s.status, ResumableOnly());
    SelectNoDup(s.tasks, s.status, ResumableOnly());
    NoDupCard(Stopped(s));
    assert ToSet(Stopped(s)) == StoppedSet(s);
  }

  lemma StoppedAt<T>(s: State<T>, i: nat)
    requires Inv(s) && i < |s.tasks| && s.tasks[i] in StoppedSet(s)
    ensures var r := Ahead(s.tasks, StoppedSet(s), i); r < |Stopped(s)| && Stopped(s)[r] == s.tasks[i]
  {
    SelectInOrder(s.tasks, s.status, ResumableOnly(), StoppedSet(s), i);
  }

  /** Who is started: those stopped that fit into the free slots. */
  lemma StartedIff<T>(s: State<T>, i: nat)
    requires Inv(s) && i < |s.tasks|
    ensures var free := s.maxRunning - |RunningSet(s)|;
            && (s.tasks[i] in Stopped(s)[..Room(s)] <==>
                  s.tasks[i] in StoppedSet(s) && Ahead(s.tasks, StoppedSet(s), i) < free)
            && (s.tasks[i] in Stopped(s)[Room(s)..] <==>
                  s.tasks[i] in StoppedSet(s) && Ahead(s.tasks, StoppedSet(s), i) >= free)
  {
    StoppedAre(s);
    var t, asked := s.tasks[i], Stopped(s);
    assert t in asked <==> t in ToSet(asked);
    if t in StoppedSet(s) {
      StoppedAt(s, i);
      StandsBefore(asked, Ahead(s.tasks, StoppedSet(s), i), Room(s));
    }
  }

  /** The first stopped downloads fill the free slots and the others wait; whoever runs goes on. */
  lemma ContinueAllDecides<T>(s: State<T>, i: nat)
    requires Inv(s) && i < |s.tasks|
    ensures var t, n := s.tasks[i], Next(s, ContinueAll);
            t in n.status && n.status[t] ==
            if t !in StoppedSet(s) then s.status[t]
            else if Ahead(s.tasks, StoppedSet(s), i) < s.maxRunning - |RunningSet(s)| then Status.Running
            else Wait
  {
    StartedIff(s, i);
    var t, asked, k := s.tasks[i], Stopped(s), Room(s);
    assert t in asked[..k] <==> t in ToSet(asked[..k]);
    assert t in asked[k..] <==> t in ToSet(asked[k..]);
  }

  /** Those who wait are appended to the queue in list order. */
  lemma ContinueAllQueues<T>(s: State<T>, i: nat)
    requires Inv(s) && i < |s.tasks|
    ensures var t, n := s.tasks[i], Next(s, ContinueAll);
            var free, rank := s.maxRunning - |RunningSet(s)|, Ahead(s.tasks, StoppedSet(s), i);
            && n.tasks == s.tasks && |n.wait| >= |s.wait| && n.wait[..|s.wait|] == s.wait
            && |n.wait| == |s.wait| + |StoppedSet(s)| - Min(free, |StoppedSet(s)|)
            && (t in StoppedSet(s) && rank >= free ==>
                  |s.wait| + rank - free < |n.wait| && n.wait[|s.wait| + rank - free] == t)
  {
    StoppedAre(s);
    if s.tasks[i] in StoppedSet(s) {
      StoppedAt(s, i);
    }
  }

  // ----- Wake-ups -----

  /** What a wake-up does in every state: with a free slot and a queue it takes the head, and
      starts it unless it is done; a stale entry is just dropped. */
  lemma WakeUpDecides<T>(s: State<T>, t: T)
    requires Inv(s) && t in s.status
    ensures var n := Next(s, Notify);
            && n.tasks == s.tasks && t in n.status
            && if |RunningSet(s)| == s.maxRunning || s.wait == [] then n == s
               else && n.wait == s.wait[1..]
                    && n.status[t] == if t == s.wait[0] && s.status[t] != Done then Status.Running else s.status[t]
  {
  }

  /** A slot that becomes free, by success or failure, goes to the head of the queue, if that is
      listed and stopped; the one that gave it up keeps its outcome. */
  lemma FreedSlotGoesToHead<T>(s: State<T>, t: T, failed: bool)
    requires Inv(s) && t in RunningSet(s) && s.wait != [] && s.wait[0] in s.tasks
    requires s.wait[0] != t && s.status[s.wait[0]] != Status.Running && s.status[s.wait[0]] != Done
    ensures var n := Next(Next(s, if failed then Call.Fail(t) else Complete(t)), Notify);
            && RunningSet(n) == RunningSet(s) - {t} + {s.wait[0]} && n.wait == s.wait[1..]
            && t in n.status && n.status[t] == if failed then Status.Error else Done
  {
    var c := if failed then Call.Fail(t) else Complete(t);
    var m := Next(s, c);
    NextKeepsInv(s, c);
    assert RunningSet(m) == RunningSet(s) - {t};
    WakeUpTakesFreeSlot(m);
  }

  /** A failed download can be continued; a finished one stays done. */
  lemma OnlyFailedIsContinued<T>(s: State<T>, i: nat, failed: bool)
    requires Inv(s) && s.maxRunning >= 1 && i < |s.tasks|
    ensures var t := s.tasks[i];
            var n := Next(Next(s, if failed then Call.Fail(t) else Complete(t)), ContinueSome(Filter({t}, {}, {})));
            t in n.status && n.status[t] == if failed then Status.Running else Done
  {
    var t := s.tasks[i];
    var c := if failed then Call.Fail(t) else Complete(t);
    NextKeepsInv(s, c);
    var m := Next(s, c);
    var f := Filter({t}, {}, {});
    if failed {
      assert AskedSet(m, f) == {t};
      AheadAlone(m.tasks, i, i);
      ContinueDecides(m, f, i);
    } else {
      assert AskedSet(m, f) == {};
      ContinueNobody(m, f);
    }
  }

  // ----- Pause and delete -----

  /** A filtered pause changes only statuses: what passes the identifiers and statuses and is not
      stopped yet is paused. */
  lemma PauseDecides<T>(s: State<T>, f: Filter<T>, t: T)
    requires Inv(s) && t in s.tasks
    ensures var n := Next(s, PauseSome(f));
            && n.tasks == s.tasks && n.wait == s.wait && t in n.status
            && n.status[t] == if Passes(f.ids, f.statuses, t, s.status[t]) && s.status[t] !in {Pause, Error, Done}
                              then Pause else s.status[t]
  {
    PauseStopsMatching(s, f, t);
  }

  /** A filtered delete takes out of the list what passes, and one queue entry for each of them;
      nobody's status changes. */
  lemma DeleteDecides<T>(s: State<T>, f: Filter<T>, t: T)
    requires Inv(s) && t in s.tasks
    ensures var n := Next(s, DeleteSome(f));
            var gone := Passes(f.ids, f.statuses, t, s.status[t]) && s.status[t] !in f.notStatuses;
            && n.status == s.status && (t in n.tasks <==> !gone)
            && multiset(n.wait)[t] == if gone && t in s.wait then multiset(s.wait)[t] - 1 else multiset(s.wait)[t]
  {
    DeleteKeepsInv(s, f);
    SelectMembers(s.tasks, s.status, f);
    SelectNoDup(s.tasks, s.status, f);
    RemoveEachCounts(s.wait, Select(s.tasks, s.status, f), t);
  }

  /** After deleting everything nothing is listed, runs or waits, and a new download starts at
      once. */
  lemma DeleteAllThenCreate<T>(s: State<T>, t: T)
    requires Inv(s) && t !in s.status && s.maxRunning >= 1
    ensures var n := Next(Next(s, DeleteAll), Create(t));
            n.tasks == [t] && n.wait == [] && RunningSet(n) == {t}
  {
    var m := Next(s, DeleteAll);
    NextKeepsInv(s, DeleteAll);
    CreateTakesFreeSlot(m, t);
    assert m.tasks + [t] == [t] && RunningSet(m) == {};
  }
}
