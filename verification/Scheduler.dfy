/** The task scheduler: at most `maxRunning` tasks run, the others wait in a queue.  Each
    public call, and each goroutine of notifyRunning, is one event.  Tasks are compared by
    identity, as the program compares their unique identifiers. */
module Scheduler {
  import opened Basics

  datatype Status = Ready | Running | Pause | Wait | Error | Done

  datatype State<!T(==)> = State(tasks: seq<T>, wait: seq<T>, status: map<T, Status>, maxRunning: nat)

  /** Empty components match everything. */
  datatype Filter<!T(==)> = Filter(ids: set<T>, statuses: set<Status>, notStatuses: set<Status>) {
    predicate IsEmpty() { ids == {} && statuses == {} && notStatuses == {} }

    predicate Matches(t: T, s: Status) {
      && (ids == {} || t in ids)
      && (statuses == {} || s in statuses)
      && s !in notStatuses
    }
  }

  datatype Call<!T(==)> =
    | Create(t: T)
    | Notify
    | PauseSome(f: Filter<T>)
    | PauseAll
    | ContinueSome(f: Filter<T>)
    | ContinueAll
    | DeleteSome(f: Filter<T>)
    | DeleteAll
    | Complete(t: T)
    | Fail(t: T)

  // ----- Sequences -----

  predicate NoDup<T(==)>(s: seq<T>) {
    s == [] || (NoDup(s[..|s| - 1]) && s[|s| - 1] !in s[..|s| - 1])
  }

  function ToSet<T>(s: seq<T>): set<T> {
    set t | t in s
  }

  lemma {:induction false} NoDupCard<T>(s: seq<T>)
    requires NoDup(s)
    ensures |ToSet(s)| == |s|
  {
    if s != [] {
      var n := |s| - 1;
      NoDupCard(s[..n]);
      assert ToSet(s) == ToSet(s[..n]) + {s[n]};
    }
  }

  lemma AppendNoDup<T>(s: seq<T>, t: T)
    ensures NoDup(s + [t]) <==> NoDup(s) && t !in s
    ensures ToSet(s + [t]) == ToSet(s) + {t}
  {
    assert (s + [t])[..|s|] == s;
  }

  lemma ConcatMembers<T>(a: seq<T>, b: seq<T>)
    ensures ToSet(a + b) == ToSet(a) + ToSet(b)
  {
  }

  lemma {:induction false} NoDupParts<T>(a: seq<T>, b: seq<T>)
    requires NoDup(a + b)
    ensures NoDup(a) && ToSet(a) !! ToSet(b)
  {
    if b == [] {
      assert a + b == a;
    } else {
      var n := |b| - 1;
      assert a + b == (a + b[..n]) + [b[n]];
      AppendNoDup(a + b[..n], b[n]);
      NoDupParts(a, b[..n]);
      assert b == b[..n] + [b[n]];
      ConcatMembers(b[..n], [b[n]]);
    }
  }

  /** Cutting a list without duplicates cuts its set of members in two. */
  lemma CutNoDup<T>(s: seq<T>, k: nat)
    requires NoDup(s) && k <= |s|
    ensures ToSet(s[..k]) !! ToSet(s[k..])
    ensures ToSet(s[..k]) + ToSet(s[k..]) == ToSet(s)
    ensures |ToSet(s[..k])| == k
  {
    assert s == s[..k] + s[k..];
    PartsNoDup(s[..k], s[k..]);
  }

  lemma PartsNoDup<T>(a: seq<T>, b: seq<T>)
    requires NoDup(a + b)
    ensures ToSet(a) !! ToSet(b) && ToSet(a) + ToSet(b) == ToSet(a + b) && |ToSet(a)| == |a|
  {
    NoDupParts(a, b);
    ConcatMembers(a, b);
    NoDupCard(a);
  }

  /** Drops the first occurrence. */
  function RemoveFirst<T(==)>(s: seq<T>, t: T): seq<T> {
    if s == [] then [] else
      var front, last := s[..|s| - 1], s[|s| - 1];
      if t in front then RemoveFirst(front, t) + [last] else if last == t then front else s
  }

  lemma {:induction false} RemoveFirstKeepsOthers<T>(s: seq<T>, t: T)
    ensures forall x :: x in RemoveFirst(s, t) ==> x in s
    ensures forall x :: x in s && x != t ==> x in RemoveFirst(s, t)
  {
    if s != [] {
      RemoveFirstKeepsOthers(s[..|s| - 1], t);
    }
  }

  lemma {:induction false} RemoveFirstMembers<T>(s: seq<T>, t: T)
    ensures forall x :: x in RemoveFirst(s, t) ==> x in s
    ensures forall x :: x in s && x != t ==> x in RemoveFirst(s, t)
    ensures NoDup(s) ==> NoDup(RemoveFirst(s, t)) && t !in RemoveFirst(s, t)
  {
    RemoveFirstKeepsOthers(s, t);
    if s != [] {
      var front, last := s[..|s| - 1], s[|s| - 1];
      RemoveFirstMembers(front, t);
      AppendNoDup(RemoveFirst(front, t), last);
    }
  }

  /** The first occurrence is cut out, and everything else stays in its order. */
  lemma {:induction false} RemoveFirstAt<T>(s: seq<T>, t: T, i: nat)
    requires i < |s| && s[i] == t && t !in s[..i]
    ensures RemoveFirst(s, t) == s[..i] + s[i + 1..]
  {
    var n := |s| - 1;
    var front := s[..n];
    if i < n {
      assert front[..i] == s[..i] && front[i] == t;
      RemoveFirstAt(front, t, i);
      assert front[..i] + front[i + 1..] + [s[n]] == s[..i] + s[i + 1..];
    }
  }

  lemma RemoveFirstAbsent<T>(s: seq<T>, t: T)
    requires t !in s
    ensures RemoveFirst(s, t) == s
  {
  }

  /** Drops the first occurrence of each of the given tasks, in turn. */
  function RemoveEach<T(==)>(s: seq<T>, gone: seq<T>): seq<T> {
    if gone == [] then s else RemoveFirst(RemoveEach(s, gone[..|gone| - 1]), gone[|gone| - 1])
  }

  lemma {:induction false} RemoveEachMembers<T>(s: seq<T>, gone: seq<T>)
    ensures forall x :: x in RemoveEach(s, gone) ==> x in s
    ensures forall x :: x in s && x !in gone ==> x in RemoveEach(s, gone)
    ensures NoDup(s) ==> NoDup(RemoveEach(s, gone)) && forall x :: x in gone ==> x !in RemoveEach(s, gone)
  {
    if gone != [] {
      var n := |gone| - 1;
      RemoveEachMembers(s, gone[..n]);
      RemoveFirstMembers(RemoveEach(s, gone[..n]), gone[n]);
    }
  }

  // ----- Selecting tasks -----

  function Select<T(==)>(tasks: seq<T>, status: map<T, Status>, f: Filter<T>): (r: seq<T>)
  {
    if tasks == [] then [] else
      var n := |tasks| - 1;
      Select(tasks[..n], status, f) +
      if tasks[n] in status && f.Matches(tasks[n], status[tasks[n]]) then [tasks[n]] else []
  }

  lemma {:induction false} SelectMembers<T>(tasks: seq<T>, status: map<T, Status>, f: Filter<T>)
    ensures forall t :: t in Select(tasks, status, f) <==> t in tasks && t in status && f.Matches(t, status[t])
  {
    if tasks != [] {
      SelectMembers(tasks[..|tasks| - 1], status, f);
    }
  }

  lemma {:induction false} SelectNoDup<T>(tasks: seq<T>, status: map<T, Status>, f: Filter<T>)
    requires NoDup(tasks)
    ensures NoDup(Select(tasks, status, f))
  {
    if tasks != [] {
      var n := |tasks| - 1;
      var r := Select(tasks[..n], status, f);
      SelectNoDup(tasks[..n], status, f);
      SelectMembers(tasks[..n], status, f);
      AppendNoDup(r, tasks[n]);
      assert r + [] == r;
    }
  }

  function RunningOnly<T(==)>(): Filter<T> { Filter({}, {Status.Running}, {}) }

  function ResumableOnly<T(==)>(): Filter<T> { Filter({}, {}, {Status.Running, Status.Done}) }

  function RunningSet<T(==)>(s: State<T>): set<T> {
    set t | t in s.tasks && t in s.status && s.status[t] == Status.Running
  }

  function Remaining<T(==)>(s: State<T>): int {
    s.maxRunning - |RunningSet(s)|
  }

  // ----- Changing status -----

  /** Some tasks are started, others are told to wait. */
  function Reassign<T(==)>(status: map<T, Status>, started: set<T>, waiting: set<T>): map<T, Status> {
    map t | t in status :: if t in started then Running else if t in waiting then Wait else status[t]
  }

  function StartOne(s: Status): Status {
    if s == Running || s == Done then s else Running
  }

  function PauseOne(s: Status): Status {
    if s == Pause || s == Done then s else Pause
  }

  function PauseEach<T(==)>(status: map<T, Status>, ts: seq<T>): map<T, Status> {
    map t | t in status :: if t in ts then PauseOne(status[t]) else status[t]
  }

  // ----- Calls -----

  function CreateState<T(==)>(s: State<T>, t: T): State<T> {
    var s1 := s.(tasks := s.tasks + [t], status := s.status[t := Ready]);
    if Remaining(s1) == 0
    then s1.(status := s1.status[t := Wait], wait := s1.wait + [t])
    else s1.(status := s1.status[t := Running])
  }

  function NotifyState<T(==)>(s: State<T>): State<T> {
    if Remaining(s) == 0 || s.wait == [] || s.wait[0] !in s.status then s
    else s.(wait := s.wait[1..], status := s.status[s.wait[0] := StartOne(s.status[s.wait[0]])])
  }

  /** The tasks a filtered Continue asks for. */
  function Requested<T(==)>(s: State<T>, f: Filter<T>): seq<T> {
    Select(s.tasks, s.status, f.(notStatuses := {Status.Running, Status.Done}))
  }

  /** How many of the requested tasks will run at once. */
  function Granted<T(==)>(s: State<T>, f: Filter<T>): nat {
    Min(s.maxRunning, |Requested(s, f)|)
  }

  /** The running tasks that give way, in list order. */
  function Preempted<T(==)>(s: State<T>, f: Filter<T>): seq<T> {
    var running := Select(s.tasks, s.status, RunningOnly());
    var need := Granted(s, f) - Remaining(s);
    if need <= 0 then [] else running[..Min(need, |running|)]
  }

  function ContinueState<T(==)>(s: State<T>, f: Filter<T>): State<T> {
    var asked := Requested(s, f);
    var victims := Preempted(s, f);
    var granted, refused := asked[..Granted(s, f)], asked[Granted(s, f)..];
    if asked == [] then s else
      s.(wait := s.wait + (victims + refused),
         status := Reassign(s.status, ToSet(granted), ToSet(victims) + ToSet(refused)))
  }

  /** The tasks a Continue without a filter asks for. */
  function Stopped<T(==)>(s: State<T>): seq<T> {
    Select(s.tasks, s.status, ResumableOnly())
  }

  /** How many of them it starts. */
  function Room<T(==)>(s: State<T>): nat {
    if Remaining(s) < 0 then 0 else Min(Remaining(s), |Stopped(s)|)
  }

  function ContinueAllState<T(==)>(s: State<T>): State<T> {
    var asked := Stopped(s);
    s.(wait := s.wait + asked[Room(s)..],
       status := Reassign(s.status, ToSet(asked[..Room(s)]), ToSet(asked[Room(s)..])))
  }

  function PauseState<T(==)>(s: State<T>, f: Filter<T>): State<T> {
    s.(status := PauseEach(s.status, Select(s.tasks, s.status, f.(notStatuses := {Pause, Error, Done}))))
  }

  function DeleteState<T(==)>(s: State<T>, f: Filter<T>): State<T> {
    var gone := Select(s.tasks, s.status, f);
    s.(tasks := RemoveEach(s.tasks, gone), wait := RemoveEach(s.wait, gone))
  }

  predicate Allowed<T(==)>(s: State<T>, c: Call<T>) {
    match c
    case Create(t) => t !in s.status
    case Complete(t) => t in s.tasks && t in s.status
    case Fail(t) => t in s.status
    case PauseSome(f) => !f.IsEmpty()
    case ContinueSome(f) => !f.IsEmpty()
    case DeleteSome(f) => !f.IsEmpty()
    case _ => true
  }

  function Next<T(==)>(s: State<T>, c: Call<T>): State<T> {
    match c
    case Create(t) => CreateState(s, t)
    case Notify => NotifyState(s)
    case PauseSome(f) => PauseState(s, f)
    case PauseAll => s.(wait := [], status := PauseEach(s.status, s.tasks))
    case ContinueSome(f) => ContinueState(s, f)
    case ContinueAll => ContinueAllState(s)
    case DeleteSome(f) => DeleteState(s, f)
    case DeleteAll => s.(tasks := [], wait := [])
    case Complete(t) => s.(status := s.status[t := Done])
    case Fail(t) => s.(status := s.status[t := Error])
  }

  // ----- The invariant -----

  /** Every task that waits is queued.  The queue may hold duplicates, and tasks that no
      longer wait. */
  ghost predicate NoLostWaiter<T>(s: State<T>) {
    forall t | t in s.tasks :: t in s.status && s.status[t] == Wait ==> t in s.wait
  }

  ghost predicate WellFormed<T>(s: State<T>) {
    && NoDup(s.tasks)
    && (forall t | t in s.tasks :: t in s.status)
    && (forall t | t in s.wait :: t in s.status)
  }

  /** The cap is respected and no waiter is lost. */
  ghost predicate Inv<T>(s: State<T>) {
    && WellFormed(s)
    && |RunningSet(s)| <= s.maxRunning
    && NoLostWaiter(s)
  }

  /** What Setup leaves: nothing runs and nobody waits. */
  ghost predicate Initial<T>(s: State<T>) {
    && WellFormed(s) && s.wait == []
    && (forall t | t in s.tasks :: s.status[t] in {Pause, Error, Done})
  }

  lemma InitialInv<T>(s: State<T>)
    requires Initial(s)
    ensures Inv(s)
  {
    assert RunningSet(s) == {};
  }

  lemma SubsetCard<T>(a: set<T>, b: set<T>)
    requires a <= b
    ensures |a| <= |b|
  {
    assert b == a + (b - a);
  }

  /** A call that starts nobody and unqueues nobody who waits keeps the invariant. */
  lemma FewerRunningKeepsInv<T>(s: State<T>, n: State<T>)
    requires Inv(s) && WellFormed(n) && n.maxRunning == s.maxRunning
    requires RunningSet(n) <= RunningSet(s)
    requires NoLostWaiter(n)
    ensures Inv(n)
  {
    SubsetCard(RunningSet(n), RunningSet(s));
  }

  /** The running tasks in list order are as many as the running set. */
  lemma RunningSelected<T>(s: State<T>)
    requires WellFormed(s)
    ensures var r := Select(s.tasks, s.status, RunningOnly());
            NoDup(r) && ToSet(r) == RunningSet(s) && |r| == |RunningSet(s)|
  {
    SelectMembers(s.tasks, s.status, RunningOnly());
    SelectNoDup(s.tasks, s.status, RunningOnly());
    var r := Select(s.tasks, s.status, RunningOnly());
    NoDupCard(r);
    assert ToSet(r) == RunningSet(s);
  }

  lemma AddReadyKeepsInv<T>(s: State<T>, t: T)
    requires Inv(s) && t !in s.status
    ensures var s1 := s.(tasks := s.tasks + [t], status := s.status[t := Ready]);
            Inv(s1) && RunningSet(s1) == RunningSet(s)
  {
    AppendNoDup(s.tasks, t);
    assert RunningSet(s.(tasks := s.tasks + [t], status := s.status[t := Ready])) == RunningSet(s);
  }

  lemma CreateKeepsInv<T>(s: State<T>, t: T)
    requires Inv(s) && t !in s.status
    ensures Inv(CreateState(s, t))
  {
    var s1 := s.(tasks := s.tasks + [t], status := s.status[t := Ready]);
    AddReadyKeepsInv(s, t);
    assert t in s1.tasks;
    if Remaining(s1) == 0 {
      assert RunningSet(CreateState(s, t)) == RunningSet(s1);
    } else {
      assert RunningSet(CreateState(s, t)) == RunningSet(s1) + {t};
    }
  }

  lemma NotifyKeepsInv<T>(s: State<T>)
    requires Inv(s)
    ensures Inv(NotifyState(s))
  {
    if Remaining(s) != 0 && s.wait != [] {
      var t := s.wait[0];
      var n := NotifyState(s);
      SubsetCard(RunningSet(n), RunningSet(s) + {t});
      assert s.wait == [t] + s.wait[1..];
    }
  }

  lemma PauseKeepsInv<T>(s: State<T>, ts: seq<T>)
    requires Inv(s)
    ensures Inv(s.(status := PauseEach(s.status, ts)))
    ensures ts == s.tasks ==> Inv(s.(wait := [], status := PauseEach(s.status, ts)))
  {
    var n := s.(status := PauseEach(s.status, ts));
    SubsetCard(RunningSet(n), RunningSet(s));
    assert RunningSet(n.(wait := [])) == RunningSet(n);
  }

  /** Starting some tasks and making others wait: who runs afterwards. */
  lemma ReassignRunning<T>(s: State<T>, started: set<T>, waiting: set<T>, wait: seq<T>)
    requires WellFormed(s) && started !! waiting && started <= ToSet(s.tasks)
    ensures var n := s.(wait := wait, status := Reassign(s.status, started, waiting));
            RunningSet(n) == RunningSet(s) - waiting + started
  {
    assert forall t | t in started :: t in ToSet(s.tasks);
  }

  /** ... and that nobody is forgotten. */
  lemma ReassignKeepsWaiters<T>(s: State<T>, started: set<T>, waiting: set<T>, queue: seq<T>)
    requires Inv(s) && ToSet(queue) == waiting && waiting <= ToSet(s.tasks)
    ensures var n := s.(wait := s.wait + queue, status := Reassign(s.status, started, waiting));
            WellFormed(n) && NoLostWaiter(n)
  {
    assert forall t | t in queue :: t in ToSet(queue);
    assert forall t | t in waiting :: t in ToSet(s.tasks) && t in queue;
  }

  /** Cap and queue after starting `granted` and queueing `queue`. */
  lemma ReassignKeepsInv<T>(s: State<T>, granted: set<T>, victims: set<T>, refused: set<T>, queue: seq<T>)
    requires Inv(s) && victims <= RunningSet(s)
    requires granted + refused <= ToSet(s.tasks) - RunningSet(s) && granted !! refused
    requires ToSet(queue) == victims + refused
    requires |RunningSet(s)| - |victims| + |granted| <= s.maxRunning
    ensures var n := s.(wait := s.wait + queue, status := Reassign(s.status, granted, victims + refused));
            && Inv(n)
            && RunningSet(n) == RunningSet(s) - victims + granted
            && |RunningSet(n)| == |RunningSet(s)| - |victims| + |granted|
  {
    assert forall t | t in RunningSet(s) :: t in s.tasks;
    assert RunningSet(s) <= ToSet(s.tasks);
    ReassignRunning(s, granted, victims + refused, s.wait + queue);
    ReassignKeepsWaiters(s, granted, victims + refused, queue);
    assert RunningSet(s) - (victims + refused) == RunningSet(s) - victims;
    assert |RunningSet(s) - victims| == |RunningSet(s)| - |victims|;
    assert (RunningSet(s) - victims) !! granted;
  }

  lemma SelectedIn<T>(s: State<T>, f: Filter<T>)
    requires WellFormed(s) && Status.Running in f.notStatuses
    ensures ToSet(Select(s.tasks, s.status, f)) <= ToSet(s.tasks) - RunningSet(s)
    ensures NoDup(Select(s.tasks, s.status, f))
  {
    SelectMembers(s.tasks, s.status, f);
    SelectNoDup(s.tasks, s.status, f);
    forall t | t in ToSet(Select(s.tasks, s.status, f))
      ensures t in ToSet(s.tasks) - RunningSet(s)
    {
      assert t in Select(s.tasks, s.status, f);
    }
  }

  /** The groups of a filtered Continue do not meet, and have the expected sizes. */
  lemma ContinueGroups<T>(s: State<T>, f: Filter<T>)
    requires WellFormed(s)
    ensures var asked, k := Requested(s, f), Granted(s, f);
            && ToSet(asked) <= ToSet(s.tasks) - RunningSet(s)
            && ToSet(asked[..k]) !! ToSet(asked[k..])
            && ToSet(asked[..k]) + ToSet(asked[k..]) == ToSet(asked)
            && |ToSet(asked[..k])| == k
  {
    SelectedIn(s, f.(notStatuses := {Status.Running, Status.Done}));
    CutNoDup(Requested(s, f), Granted(s, f));
  }

  lemma PreemptedAreRunning<T>(s: State<T>, f: Filter<T>)
    requires Inv(s)
    ensures ToSet(Preempted(s, f)) <= RunningSet(s)
    ensures |ToSet(Preempted(s, f))| == if Granted(s, f) <= Remaining(s) then 0 else Granted(s, f) - Remaining(s)
  {
    RunningSelected(s);
    var running := Select(s.tasks, s.status, RunningOnly());
    var need := Granted(s, f) - Remaining(s);
    if need > 0 {
      assert Preempted(s, f) == running[..need];
      CutNoDup(running, need);
    } else {
      assert Preempted(s, f) == [];
    }
  }

  /** A filtered Continue leaves exactly as many tasks running as the cap allows, has
      pre-empted no more than it needed, and started the first of those it was asked for. */
  lemma ContinueFillsTheCap<T>(s: State<T>, f: Filter<T>)
    requires Inv(s) && Requested(s, f) != []
    ensures var n := ContinueState(s, f);
            var granted := ToSet(Requested(s, f)[..Granted(s, f)]);
            && Inv(n)
            && RunningSet(n) == RunningSet(s) - ToSet(Preempted(s, f)) + granted
            && |RunningSet(n)| == Min(s.maxRunning, |RunningSet(s)| + |Requested(s, f)|)
            && |ToSet(Preempted(s, f))| == (if Granted(s, f) <= Remaining(s) then 0 else Granted(s, f) - Remaining(s))
            && ToSet(Preempted(s, f)) <= RunningSet(s)
            && granted !! RunningSet(s) && |granted| == Granted(s, f)
  {
    ContinueGroups(s, f);
    PreemptedAreRunning(s, f);
    var asked := Requested(s, f);
    var victims, granted, refused := Preempted(s, f), asked[..Granted(s, f)], asked[Granted(s, f)..];
    ConcatMembers(victims, refused);
    ReassignKeepsInv(s, ToSet(granted), ToSet(victims), ToSet(refused), victims + refused);
  }

  lemma ContinueAllGroups<T>(s: State<T>)
    requires Inv(s)
    ensures var asked := Stopped(s);
            var granted, refused := ToSet(asked[..Room(s)]), ToSet(asked[Room(s)..]);
            && granted + refused <= ToSet(s.tasks) - RunningSet(s) && granted !! refused
            && |granted| == Room(s)
  {
    SelectedIn(s, ResumableOnly());
    CutNoDup(Stopped(s), Room(s));
  }

  /** Continue without a filter pre-empts nobody and starts as many as there is room for. */
  lemma ContinueAllStartsRoom<T>(s: State<T>)
    requires Inv(s)
    ensures Inv(ContinueAllState(s))
    ensures RunningSet(s) <= RunningSet(ContinueAllState(s))
    ensures |RunningSet(ContinueAllState(s))| == |RunningSet(s)| + Room(s)
  {
    var granted, refused := ToSet(Stopped(s)[..Room(s)]), ToSet(Stopped(s)[Room(s)..]);
    var none: set<T> := {};
    ContinueAllGroups(s);
    assert none + refused == refused;
    ReassignKeepsInv(s, granted, none, refused, Stopped(s)[Room(s)..]);
  }

  /** So it fills the cap, if enough tasks can be started. */
  lemma ContinueAllFillsTheCap<T>(s: State<T>)
    requires Inv(s)
    ensures |RunningSet(ContinueAllState(s))| == Min(s.maxRunning, |RunningSet(s)| + |Stopped(s)|)
  {
    ContinueAllStartsRoom(s);
    RoomFills(s, |RunningSet(s)|, |Stopped(s)|);
  }

  lemma RoomFills<T>(s: State<T>, running: nat, stopped: nat)
    requires running == |RunningSet(s)| <= s.maxRunning && stopped == |Stopped(s)|
    ensures running + Room(s) == Min(s.maxRunning, running + stopped)
  {
  }

  lemma DeleteKeepsInv<T>(s: State<T>, f: Filter<T>)
    requires Inv(s)
    ensures Inv(DeleteState(s, f))
    ensures forall t | t in s.tasks :: t in DeleteState(s, f).tasks <==> !f.Matches(t, s.status[t])
  {
    var gone := Select(s.tasks, s.status, f);
    SelectMembers(s.tasks, s.status, f);
    RemoveEachMembers(s.tasks, gone);
    RemoveEachMembers(s.wait, gone);
    FewerRunningKeepsInv(s, DeleteState(s, f));
  }

  /** Completing or failing frees a slot at most. */
  lemma SettleKeepsInv<T>(s: State<T>, t: T, v: Status)
    requires Inv(s) && (v == Done || v == Error)
    ensures Inv(s.(status := s.status[t := v]))
  {
    FewerRunningKeepsInv(s, s.(status := s.status[t := v]));
  }

  lemma NextKeepsInv<T>(s: State<T>, c: Call<T>)
    requires Inv(s) && Allowed(s, c)
    ensures Inv(Next(s, c)) && Next(s, c).maxRunning == s.maxRunning
  {
    match c
    case Create(t) => CreateKeepsInv(s, t);
    case Notify => NotifyKeepsInv(s);
    case PauseSome(f) => PauseKeepsInv(s, Select(s.tasks, s.status, f.(notStatuses := {Pause, Error, Done})));
    case PauseAll => PauseKeepsInv(s, s.tasks);
    case ContinueSome(f) =>
      if Requested(s, f) != [] {
        ContinueFillsTheCap(s, f);
      }
    case ContinueAll => ContinueAllStartsRoom(s);
    case DeleteSome(f) => DeleteKeepsInv(s, f);
    case DeleteAll => assert RunningSet(Next(s, c)) == {};
    case Complete(t) => SettleKeepsInv(s, t, Done);
    case Fail(t) => SettleKeepsInv(s, t, Error);
  }

  // ----- What the calls achieve -----

  /** A new download takes a free slot, or else waits at the end of the queue. */
  lemma CreateTakesFreeSlot<T>(s: State<T>, t: T)
    requires Inv(s) && t !in s.status
    ensures var n := CreateState(s, t);
            && n.tasks == s.tasks + [t] && |RunningSet(n)| == Min(s.maxRunning, |RunningSet(s)| + 1)
            && (forall u | u in s.tasks :: n.status[u] == s.status[u])
            && if |RunningSet(s)| < s.maxRunning then n.status[t] == Status.Running && n.wait == s.wait
               else n.status[t] == Wait && n.wait == s.wait + [t]
  {
    var s1 := s.(tasks := s.tasks + [t], status := s.status[t := Ready]);
    AddReadyKeepsInv(s, t);
    assert t in s1.tasks && t !in RunningSet(s);
    if Remaining(s1) == 0 {
      assert RunningSet(CreateState(s, t)) == RunningSet(s);
    } else {
      assert RunningSet(CreateState(s, t)) == RunningSet(s) + {t};
    }
  }

  /** A wake-up gives a free slot to the head of the queue, if that is listed and stopped. */
  lemma WakeUpTakesFreeSlot<T>(s: State<T>)
    requires Inv(s) && |RunningSet(s)| < s.maxRunning && s.wait != []
    requires s.wait[0] in s.tasks && s.status[s.wait[0]] !in {Status.Running, Done}
    ensures var n := NotifyState(s);
            && RunningSet(n) == RunningSet(s) + {s.wait[0]} && |RunningSet(n)| == |RunningSet(s)| + 1
            && n.wait == s.wait[1..]
  {
    assert s.wait[0] !in RunningSet(s);
  }

  /** A filtered pause stops exactly the listed downloads it selects that are not stopped yet. */
  lemma PauseStopsMatching<T>(s: State<T>, f: Filter<T>, t: T)
    requires Inv(s) && t in s.tasks
    ensures var g := f.(notStatuses := {Pause, Error, Done});
            PauseState(s, f).status[t] == if g.Matches(t, s.status[t]) then Pause else s.status[t]
  {
    SelectMembers(s.tasks, s.status, f.(notStatuses := {Pause, Error, Done}));
  }

  /** An unfiltered pause stops everything that is not done, and nobody waits. */
  lemma PauseAllStopsEverything<T>(s: State<T>)
    requires Inv(s)
    ensures var n := Next(s, PauseAll);
            && Inv(n) && RunningSet(n) == {} && n.wait == []
            && forall t | t in s.tasks :: n.status[t] == if s.status[t] == Done then Done else Pause
  {
    PauseKeepsInv(s, s.tasks);
  }

  /** Continuing everything after pausing everything runs as many as the cap allows of those
      that are not done, whatever ran, waited or had failed before. */
  lemma PauseAllThenContinueAll<T>(s: State<T>)
    requires Inv(s)
    ensures |RunningSet(Next(Next(s, PauseAll), ContinueAll))| ==
            Min(s.maxRunning, |set t | t in s.tasks && s.status[t] != Done|)
  {
    var n := Next(s, PauseAll);
    PauseAllStopsEverything(s);
    ContinueAllFillsTheCap(n);
    SelectMembers(n.tasks, n.status, ResumableOnly());
    SelectNoDup(n.tasks, n.status, ResumableOnly());
    NoDupCard(Stopped(n));
    assert ToSet(Stopped(n)) == set t | t in s.tasks && s.status[t] != Done;
  }

  /** A filtered Continue: those pre-empted or refused wait and are queued, and nobody else's
      status changes but that of those started. */
  lemma ContinueLeavesOthers<T>(s: State<T>, f: Filter<T>, t: T)
    requires Inv(s) && Requested(s, f) != [] && t in s.tasks
    ensures var n := ContinueState(s, f);
            && (t in RunningSet(n) || n.status[t] == Wait || n.status[t] == s.status[t])
            && (t in Preempted(s, f) || t in Requested(s, f)[Granted(s, f)..] ==> n.status[t] == Wait && t in n.wait)
            && (t !in Preempted(s, f) && t !in Requested(s, f) ==> n.status[t] == s.status[t])
  {
    ContinueGroups(s, f);
    PreemptedAreRunning(s, f);
    var asked := Requested(s, f);
    assert t in asked[..Granted(s, f)] <==> t in ToSet(asked[..Granted(s, f)]);
    assert t in asked[Granted(s, f)..] <==> t in ToSet(asked[Granted(s, f)..]);
    assert t in Preempted(s, f) <==> t in ToSet(Preempted(s, f));
    assert t in asked <==> t in ToSet(asked);
  }

  // ----- Whole runs -----

  function Execute<T(==)>(s: State<T>, calls: seq<Call<T>>): State<T> {
    if calls == [] then s else Next(Execute(s, calls[..|calls| - 1]), calls[|calls| - 1])
  }

  ghost predicate AllAllowed<T>(s: State<T>, calls: seq<Call<T>>) {
    calls != [] ==>
      var front := calls[..|calls| - 1];
      AllAllowed(s, front) && Allowed(Execute(s, front), calls[|calls| - 1])
  }

  /** However the calls and the wake-ups are ordered, the tasks listed as running never
      exceed the cap, and every task that waits is in the queue. */
  lemma {:induction false} CapAndQueueHold<T>(s: State<T>, calls: seq<Call<T>>)
    requires Initial(s) && AllAllowed(s, calls)
    ensures var n := Execute(s, calls);
            Inv(n) && n.maxRunning == s.maxRunning && |RunningSet(n)| <= s.maxRunning && NoLostWaiter(n)
  {
    if calls == [] {
      InitialInv(s);
    } else {
      var front := calls[..|calls| - 1];
      CapAndQueueHold(s, front);
      NextKeepsInv(Execute(s, front), calls[|calls| - 1]);
    }
  }

  // ----- What does not hold -----

  /** Waking the head of the queue when its saved state cannot be restored: it has left the
      queue, and its status stays. */
  function NotifyFailed<T(==)>(s: State<T>): State<T> {
    if Remaining(s) == 0 || s.wait == [] || s.wait[0] !in s.status
      || s.status[s.wait[0]] in {Status.Running, Status.Done}
    then NotifyState(s)
    else s.(wait := s.wait[1..])
  }

  /** Then a waiter is lost exactly when the head waits, is listed, and was queued once. */
  lemma FailedRestoreLosesWaiter<T>(s: State<T>)
    requires Inv(s)
    ensures NoLostWaiter(NotifyFailed(s)) <==>
            !(Remaining(s) != 0 && s.wait != [] && s.wait[0] in s.tasks
              && s.status[s.wait[0]] == Wait && s.wait[0] !in s.wait[1..])
  {
    NotifyKeepsInv(s);
    if s.wait != [] {
      assert s.wait == [s.wait[0]] + s.wait[1..];
    }
  }

  /** A wake-up starts a paused task exactly when a stale entry for it heads the queue. */
  lemma WakeUpStartsPausedTask<T>(s: State<T>, t: T)
    requires Inv(s) && t in s.tasks && s.status[t] == Pause
    ensures NotifyState(s).status[t] == Status.Running <==> Remaining(s) != 0 && s.wait != [] && s.wait[0] == t
  {
  }

  lemma {:induction false} RemoveFirstCounts<T>(s: seq<T>, t: T)
    ensures multiset(RemoveFirst(s, t)) == multiset(s) - multiset{t}
  {
    if s != [] {
      var front, last := s[..|s| - 1], s[|s| - 1];
      RemoveFirstCounts(front, t);
      assert s == front + [last];
    }
  }

  lemma RemoveFirstCount<T>(s: seq<T>, t: T, x: T)
    ensures multiset(RemoveFirst(s, t))[x] ==
            if x == t && multiset(s)[x] > 0 then multiset(s)[x] - 1 else multiset(s)[x]
  {
    RemoveFirstCounts(s, t);
  }

  lemma LastOf<T>(s: seq<T>, t: T)
    requires s != []
    ensures t in s <==> t in s[..|s| - 1] || t == s[|s| - 1]
  {
    assert s == s[..|s| - 1] + [s[|s| - 1]];
  }

  lemma {:induction false} RemoveEachCounts<T>(s: seq<T>, gone: seq<T>, t: T)
    requires NoDup(gone)
    ensures multiset(RemoveEach(s, gone))[t] ==
            if t in gone && t in s then multiset(s)[t] - 1 else multiset(s)[t]
  {
    if gone != [] {
      var n := |gone| - 1;
      RemoveEachCounts(s, gone[..n], t);
      RemoveFirstCount(RemoveEach(s, gone[..n]), gone[n], t);
      LastOf(gone, t);
    }
  }

  /** Deleting takes one entry out of the queue: a deleted download stays queued exactly when
      it was queued more than once. */
  lemma DeleteLeavesDuplicate<T>(s: State<T>, f: Filter<T>, t: T)
    requires Inv(s) && t in s.tasks && f.Matches(t, s.status[t])
    ensures t !in DeleteState(s, f).tasks
    ensures t in DeleteState(s, f).wait <==> multiset(s.wait)[t] >= 2
  {
    var gone := Select(s.tasks, s.status, f);
    DeleteKeepsInv(s, f);
    SelectMembers(s.tasks, s.status, f);
    SelectNoDup(s.tasks, s.status, f);
    RemoveEachCounts(s.wait, gone, t);
    assert t in RemoveEach(s.wait, gone) <==> t in multiset(RemoveEach(s.wait, gone));
  }

  /** A filtered pause of a waiting download leaves its entry, now stale, in the queue. */
  lemma FilteredPauseLeavesEntry<T>(s: State<T>, t: T)
    requires Inv(s) && t in s.tasks && s.status[t] == Wait
    ensures var n := Next(s, PauseSome(Filter({t}, {}, {})));
            Inv(n) && n.status[t] == Pause && t in n.wait && n.wait == s.wait
  {
    NextKeepsInv(s, PauseSome(Filter({t}, {}, {})));
    SelectMembers(s.tasks, s.status, Filter({t}, {}, {Pause, Error, Done}));
  }

  // ----- ... and is reached from an empty list with a cap of one -----

  function Empty<T(==)>(): State<T> {
    State([], [], map[], 1)
  }

  function One<T(==)>(a: T): State<T> {
    State([a], [], map[a := Status.Running], 1)
  }

  /** Two downloads: the second waits until the first is done, or is not any more. */
  function Two<T(==)>(a: T, b: T, sa: Status, sb: Status): State<T> {
    State([a, b], [b], map[a := sa, b := sb], 1)
  }

  function Three<T(==)>(a: T, b: T, c: T): State<T> {
    State([a, b, c], [b, c], map[a := Status.Running, b := Wait, c := Wait], 1)
  }

  /** These calls lead there. */
  ghost predicate Leads<T>(calls: seq<Call<T>>, s: State<T>) {
    AllAllowed(Empty(), calls) && Execute(Empty(), calls) == s
  }

  lemma LeadsFurther<T>(calls: seq<Call<T>>, s: State<T>, c: Call<T>)
    requires Leads(calls, s) && Allowed(s, c)
    ensures Leads(calls + [c], Next(s, c))
  {
    var more := calls + [c];
    assert more[..|more| - 1] == calls && more[|more| - 1] == c;
  }

  lemma LeadsToInv<T>(calls: seq<Call<T>>, s: State<T>)
    requires Leads(calls, s)
    ensures Inv(s)
  {
    CapAndQueueHold(Empty(), calls);
  }

  lemma FirstRuns<T>(a: T)
    ensures CreateState(Empty(), a) == One(a)
  {
    var s := Empty<T>();
    assert RunningSet(s.(tasks := s.tasks + [a], status := s.status[a := Ready])) == {};
  }

  lemma SecondWaits<T>(a: T, b: T)
    requires a != b
    ensures CreateState(One(a), b) == Two(a, b, Status.Running, Wait)
  {
    var s := One(a);
    assert RunningSet(s.(tasks := s.tasks + [b], status := s.status[b := Ready])) == {a};
  }

  lemma ThirdWaits<T>(a: T, b: T, c: T)
    requires a != b && b != c && a != c
    ensures CreateState(Two(a, b, Status.Running, Wait), c) == Three(a, b, c)
  {
    var s := Two(a, b, Status.Running, Wait);
    assert RunningSet(s.(tasks := s.tasks + [c], status := s.status[c := Ready])) == {a};
  }

  lemma TwoIsReached<T>(a: T, b: T) returns (calls: seq<Call<T>>)
    requires a != b
    ensures calls == [Create(a), Create(b)] && Leads(calls, Two(a, b, Status.Running, Wait))
  {
    var none: seq<Call<T>> := [];
    LeadsFurther(none, Empty(), Create(a));
    FirstRuns(a);
    assert none + [Create(a)] == [Create(a)];
    LeadsFurther([Create(a)], One(a), Create(b));
    SecondWaits(a, b);
    calls := [Create(a)] + [Create(b)];
  }

  lemma PauseSecond<T>(a: T, b: T)
    requires a != b
    ensures PauseState(Two(a, b, Status.Running, Wait), Filter({b}, {}, {})) == Two(a, b, Status.Running, Pause)
  {
    var s := Two(a, b, Status.Running, Wait);
    SelectMembers(s.tasks, s.status, Filter({b}, {}, {Pause, Error, Done}));
  }

  lemma SlotIsFree<T>(a: T, b: T, sb: Status)
    requires a != b && sb != Status.Running
    ensures Remaining(Two(a, b, Done, sb)) == 1
  {
    assert RunningSet(Two(a, b, Done, sb)) == {};
  }

  lemma SecondIsPaused<T>(calls: seq<Call<T>>, a: T, b: T)
    requires a != b && Leads(calls, Two(a, b, Status.Running, Wait))
    ensures Leads(calls + [PauseSome(Filter({b}, {}, {}))], Two(a, b, Status.Running, Pause))
  {
    LeadsFurther(calls, Two(a, b, Status.Running, Wait), PauseSome(Filter({b}, {}, {})));
    PauseSecond(a, b);
  }

  lemma FirstCompletes<T>(calls: seq<Call<T>>, a: T, b: T, sb: Status)
    requires a != b && Leads(calls, Two(a, b, Status.Running, sb))
    ensures Leads(calls + [Complete(a)], Two(a, b, Done, sb)) && Inv(Two(a, b, Done, sb))
  {
    LeadsFurther(calls, Two(a, b, Status.Running, sb), Complete(a));
    LeadsToInv(calls + [Complete(a)], Two(a, b, Done, sb));
  }

  /** A download that is paused while it waits is started as soon as a slot is free. */
  lemma PausedIsWokenUp<T>(a: T, b: T) returns (calls: seq<Call<T>>)
    requires a != b
    ensures Leads(calls, Two(a, b, Done, Pause))
    ensures NotifyState(Two(a, b, Done, Pause)).status[b] == Status.Running
  {
    calls := TwoIsReached(a, b);
    SecondIsPaused(calls, a, b);
    calls := calls + [PauseSome(Filter({b}, {}, {}))];
    FirstCompletes(calls, a, b, Pause);
    calls := calls + [Complete(a)];
    SlotIsFree(a, b, Pause);
    WakeUpStartsPausedTask(Two(a, b, Done, Pause), b);
  }

  /** A waiter whose turn comes and whose saved state cannot be restored is lost. */
  lemma WaiterIsLost<T>(a: T, b: T) returns (calls: seq<Call<T>>)
    requires a != b
    ensures Leads(calls, Two(a, b, Done, Wait)) && !NoLostWaiter(NotifyFailed(Two(a, b, Done, Wait)))
  {
    calls := TwoIsReached(a, b);
    FirstCompletes(calls, a, b, Wait);
    calls := calls + [Complete(a)];
    SlotIsFree(a, b, Wait);
    FailedRestoreLosesWaiter(Two(a, b, Done, Wait));
  }

  /** Continuing two waiters queues the second of them again; deleted, it stays queued. */
  lemma WaiterIsQueuedTwice<T>(a: T, b: T, c: T) returns (calls: seq<Call<T>>)
    requires a != b && b != c && a != c
    ensures var s := State([a, b, c], [b, c, a, c], map[a := Wait, b := Status.Running, c := Wait], 1);
            Leads(calls, s) && c in DeleteState(s, Filter({c}, {}, {})).wait
  {
    calls := TwoIsReached(a, b);
    LeadsFurther(calls, Two(a, b, Status.Running, Wait), Create(c));
    ThirdWaits(a, b, c);
    calls := calls + [Create(c)];
    LeadsFurther(calls, Three(a, b, c), ContinueSome(Filter({b, c}, {}, {})));
    ContinueBoth(a, b, c);
    calls := calls + [ContinueSome(Filter({b, c}, {}, {}))];
    var s := State([a, b, c], [b, c, a, c], map[a := Wait, b := Status.Running, c := Wait], 1);
    LeadsToInv(calls, s);
    assert multiset(s.wait)[c] == 2;
    DeleteLeavesDuplicate(s, Filter({c}, {}, {}), c);
  }

  lemma ContinueBoth<T>(a: T, b: T, c: T)
    requires a != b && b != c && a != c
    ensures ContinueState(Three(a, b, c), Filter({b, c}, {}, {})) ==
            State([a, b, c], [b, c, a, c], map[a := Wait, b := Status.Running, c := Wait], 1)
  {
    var s := Three(a, b, c);
    var f := Filter({b, c}, {}, {});
    SelectThree(a, b, c, s.status, f.(notStatuses := {Status.Running, Status.Done}));
    SelectThree(a, b, c, s.status, RunningOnly());
    assert Requested(s, f) == [b, c];
    assert RunningSet(s) == {a};
    assert Preempted(s, f) == [a];
    assert ToSet([b]) == {b} && ToSet([c]) == {c} && ToSet([a]) == {a};
    assert [b, c][..1] == [b] && [b, c][1..] == [c];
  }

  lemma SelectThree<T>(a: T, b: T, c: T, status: map<T, Status>, f: Filter<T>)
    requires a in status && b in status && c in status
    ensures Select([a, b, c], status, f) ==
            (if f.Matches(a, status[a]) then [a] else [])
            + (if f.Matches(b, status[b]) then [b] else [])
            + (if f.Matches(c, status[c]) then [c] else [])
  {
    assert [a, b, c][..2] == [a, b] && [a, b][..1] == [a] && [a][..0] == [];
    assert Select([a], status, f) == if f.Matches(a, status[a]) then [a] else [];
    assert Select([a, b], status, f) == Select([a], status, f) + if f.Matches(b, status[b]) then [b] else [];
  }
}
