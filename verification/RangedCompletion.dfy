/** What a ranged download can always still do: from any state an honest server, with nothing
    failing any more, can bring it to its end; a pause can always take hold; and the one way to
    get stuck. */
module RangedCompletion {
  import opened Basics
  import opened Sums
  import opened RangedDownload
  import opened RangedInvariant
  import opened RangedTheorems
  import opened RangedBounds
  import F = RangedFailures
  import SlowStart

  // ----- Runs that begin with a given event -----

  lemma RunBegins(server: seq<byte>, s: State, e: Event, trace: seq<State>, events: seq<Event>)
    requires Enabled(server, s, e) && IsRun(server, trace, events) && trace[0] == Next(s, e)
    ensures IsRun(server, [s] + trace, [e] + events)
    ensures ([s] + trace)[|events| + 1] == trace[|events|]
  {
    var longer, more := [s] + trace, [e] + events;
    forall k | 0 <= k < |more|
      ensures Enabled(server, longer[k], more[k]) && longer[k + 1] == Next(longer[k], more[k])
    {
      if k > 0 {
        assert more[k] == events[k - 1] && longer[k] == trace[k - 1] && longer[k + 1] == trace[k];
      }
    }
  }

  // ----- Fetching everything -----

  /** Completed, or on its way without a failure. */
  predicate Well(c: Conn) {
    c.completed || !(c.phase.Stopped? || c.phase.Created? || c.phase.Erring? || c.phase.Reporting? || c.phase.Reported?)
  }

  /** An answer is still to come. */
  predicate Answering(c: Conn) {
    (c.phase.Launched? || c.phase.Ready? || c.phase.Requesting? || c.phase.Accepted?) && c.chunk.Remain() > 0
  }

  /** The download loop waits for the goroutines, or has been or will be woken. */
  predicate Wakes(s: State) {
    || s.loop.Waiting?
    || (s.loop.Expanding? && s.stage.SlowStarting?
        && (s.slow.signalled || (|s.conns| == 1 && s.slow.pending <= 1 && s.slow.ready >= 0 && Answering(s.conns[0]))))
  }

  /** Nobody has failed and nothing has been cancelled. */
  ghost predicate Ongoing(server: seq<byte>, s: State) {
    && Inv(server, s) && (s.stage.SlowStarting? || s.stage.Steady?) && !s.cancelled && Wakes(s)
    && forall i :: 0 <= i < |s.conns| ==> Well(s.conns[i])
  }

  /** How far a goroutine is from its end. */
  function Distance(): Conn -> int {
    (c: Conn) =>
      match c.phase
      case Launched => 9
      case Ready => 8
      case Requesting(_) => 7
      case Accepted(_) => 6
      case Streaming(_) => 5
      case Reserved(_, _, _, _) => 4
      case Written(_, _, _) => 3
      case Drained => 2
      case Completing => 1
      case _ => 0
  }

  function Ahead(s: State): int { Sum(s.conns, Distance()) }

  /** What the server sends next: as much as fits into the buffer and the range, or, to a range
      that was cut short meanwhile, one byte more. */
  function Body(server: seq<byte>, c: Conn): seq<byte>
    requires 0 <= c.chunk.Next() < |server| && c.chunk.Remain() >= 0 && c.chunk.end < |server|
  {
    var n := if c.chunk.Remain() == 0 then 1 else Min(BUFFER_SIZE, c.chunk.Remain());
    server[c.chunk.Next()..c.chunk.Next() + n]
  }

  /** The next event of a connection that meets no failure. */
  ghost function Onward(server: seq<byte>, s: State, i: nat): Event
    requires Inv(server, s) && i < |s.conns|
  {
    var c := s.conns[i];
    assert ConnOk(server, s.file, s.prefix, c);
    match c.phase
    case Launched => Begin(i)
    case Ready => Request(i)
    case Requesting(_) => Accept(i)
    case Accepted(_) => Announce(i)
    case Streaming(last) => if c.chunk.Next() > last then EndOfBody(i) else Reserve(i, Body(server, c))
    case Reserved(_, _, _, _) => Write(i)
    case Written(_, _, _) => Account(i, 0)
    case Drained => Help(i)
    case _ => Complete(i)
  }

  lemma OnwardIsEnabled(server: seq<byte>, s: State, i: nat)
    requires Inv(server, s) && i < |s.conns| && Well(s.conns[i]) && !s.conns[i].completed
    ensures var e := Onward(server, s, i);
            && Enabled(server, s, e) && (Local(e) || e.Help?) && e.i == i && !e.Quit? && !e.Fail?
  {
    assert ConnOk(server, s.file, s.prefix, s.conns[i]);
  }

  /** One step of the connection itself brings it closer to its end, and stays well. */
  lemma OnwardIsCloser(server: seq<byte>, s: State, i: nat)
    requires Inv(server, s) && i < |s.conns| && Well(s.conns[i]) && !s.conns[i].completed
    requires Local(Onward(server, s, i))
    ensures var e := Onward(server, s, i);
            && Possible(s, e) && e.i == i
            && Well(ConnStep(s.conns[i], e))
            && (Distance()(ConnStep(s.conns[i], e)) < Distance()(s.conns[i]) || e.Account?)
            && (Answering(s.conns[i]) && !e.Announce? ==> Answering(ConnStep(s.conns[i], e)))
            && (e.Announce? || SlowStep(s.slow, e) == s.slow)
  {
    OnwardIsEnabled(server, s, i);
    assert ConnOk(server, s.file, s.prefix, s.conns[i]);
  }

  lemma LocalGoesOn(server: seq<byte>, s: State, i: nat)
    requires Ongoing(server, s) && i < |s.conns| && !s.conns[i].completed && Local(Onward(server, s, i))
    ensures var e := Onward(server, s, i);
            && Enabled(server, s, e) && Ongoing(server, Next(s, e)) && Next(s, e).loop == s.loop
            && (e.Account? || Ahead(Next(s, e)) < Ahead(s))
  {
    var e := Onward(server, s, i);
    OnwardIsEnabled(server, s, i);
    OnwardIsCloser(server, s, i);
    NextKeepsInv(server, s, e);
    SumUpdate(s.conns, i, ConnStep(s.conns[i], e), Distance());
  }

  lemma HelpKeepsOngoing(server: seq<byte>, s: State, h: nat)
    requires Ongoing(server, s) && Possible(s, Help(h))
    ensures Ongoing(server, Next(s, Help(h))) && Next(s, Help(h)).loop == s.loop
  {
    NextKeepsInv(server, s, Help(h));
    HelpKeepsPhases(s, h);
  }

  lemma HelpIsCloser(server: seq<byte>, s: State, h: nat)
    requires Inv(server, s) && Possible(s, Help(h))
    ensures var t := HelpState(s, h);
            IdleCount(t) < IdleCount(s) || (IdleCount(t) == IdleCount(s) && Ahead(t) < Ahead(s))
  {
    HelpReducesIdle(server, s, h);
    if Slowest(s.conns, h) < 0 {
      SumUpdate(s.conns, h, s.conns[h].(phase := Completing), Distance());
    }
  }

  lemma MeasuresAreNonNegative(server: seq<byte>, s: State)
    requires Inv(server, s)
    ensures Owed(s) >= 0 && IdleCount(s) >= 0 && Ahead(s) >= 0
  {
    MeasureBounds(server, s);
    SumNonNegative(s.conns, Distance());
  }

  /** One more event, and less to do. */
  lemma GoesOn(server: seq<byte>, s: State, i: nat) returns (e: Event)
    requires Ongoing(server, s) && i < |s.conns| && !s.conns[i].completed
    ensures Enabled(server, s, e) && Ongoing(server, Next(s, e)) && Next(s, e).loop == s.loop
    ensures var t := Next(s, e);
            || Owed(t) < Owed(s)
            || (Owed(t) == Owed(s) && IdleCount(t) < IdleCount(s))
            || (Owed(t) == Owed(s) && IdleCount(t) == IdleCount(s) && Ahead(t) < Ahead(s))
  {
    e := Onward(server, s, i);
    OnwardIsEnabled(server, s, i);
    NextOwed(server, s, e);
    NextIdle(server, s, e);
    if Local(e) {
      LocalGoesOn(server, s, i);
    } else {
      HelpKeepsOngoing(server, s, i);
      HelpIsCloser(server, s, i);
    }
  }

  ghost predicate AllCompleted(s: State) {
    forall i :: 0 <= i < |s.conns| ==> s.conns[i].completed
  }

  /** The run begins here and lets every connection complete. */
  ghost predicate FetchesAll(server: seq<byte>, s: State, trace: seq<State>, events: seq<Event>) {
    && IsRun(server, trace, events) && trace[0] == s
    && Ongoing(server, trace[|events|]) && AllCompleted(trace[|events|])
  }

  lemma FetchesOnward(server: seq<byte>, s: State, e: Event, trace: seq<State>, events: seq<Event>)
    requires Enabled(server, s, e) && FetchesAll(server, Next(s, e), trace, events)
    ensures FetchesAll(server, s, [s] + trace, [e] + events)
  {
    RunBegins(server, s, e, trace, events);
  }

  /** All connections can complete. */
  lemma {:induction false} AllCanComplete(server: seq<byte>, s: State) returns (trace: seq<State>, events: seq<Event>)
    requires Ongoing(server, s)
    ensures FetchesAll(server, s, trace, events)
    decreases Owed(s), IdleCount(s), Ahead(s)
  {
    MeasuresAreNonNegative(server, s);
    if AllCompleted(s) {
      trace, events := [s], [];
    } else {
      var i :| 0 <= i < |s.conns| && !s.conns[i].completed;
      var e := GoesOn(server, s, i);
      MeasuresAreNonNegative(server, Next(s, e));
      trace, events := AllCanComplete(server, Next(s, e));
      FetchesOnward(server, s, e, trace, events);
      trace, events := [s] + trace, [e] + events;
    }
  }

  // ----- Coming to an end -----

  /** Everybody has completed and the download loop waits. */
  ghost predicate Over(server: seq<byte>, s: State) {
    && Inv(server, s) && (s.stage.SlowStarting? || s.stage.Steady?) && !s.cancelled && s.loop.Waiting?
    && AllCompleted(s)
  }

  lemma LoopEnds(server: seq<byte>, trace: seq<State>, events: seq<Event>)
    returns (longer: seq<State>, more: seq<Event>)
    requires IsRun(server, trace, events) && Ongoing(server, trace[|events|]) && AllCompleted(trace[|events|])
    ensures IsRun(server, longer, more) && longer[0] == trace[0] && Over(server, longer[|more|])
  {
    var s := trace[|events|];
    forall i | 0 <= i < |s.conns| ensures s.conns[i].phase.Stopped? && s.conns[i].chunk.Remain() == 0 {
      assert ConnOk(server, s.file, s.prefix, s.conns[i]);
    }
    longer, more := trace, events;
    if s.loop.Expanding? {
      NextKeepsInv(server, s, Receive);
      longer, more := RunExtends(server, trace, events, Receive);
      var t := longer[|more|];
      NextKeepsInv(server, t, Check);
      longer, more := RunExtends(server, longer, more, Check);
    }
  }

  lemma CanFinish(server: seq<byte>, s: State)
    requires Over(server, s)
    ensures Enabled(server, s, Finish) && Next(s, Finish).stage.Done?
    ensures CorrectRange(server, Next(s, Finish).file, s.prefix, |server|)
  {
    forall i | 0 <= i < |s.conns|
      ensures s.conns[i].phase.Stopped? && s.conns[i].state.Completed?
    {
      assert ConnOk(server, s.file, s.prefix, s.conns[i]);
    }
    FinishOutcome(server, s);
    DoneIsCorrect(server, s, Finish);
  }

  /** From here the download can become done with everything fetched. */
  ghost predicate Completes(server: seq<byte>, s: State, trace: seq<State>, events: seq<Event>) {
    && IsRun(server, trace, events) && trace[0] == s
    && trace[|events|].stage.Done? && CorrectRange(server, trace[|events|].file, s.prefix, |server|)
  }

  lemma OngoingCanComplete(server: seq<byte>, s: State) returns (trace: seq<State>, events: seq<Event>)
    requires Ongoing(server, s)
    ensures Completes(server, s, trace, events)
  {
    trace, events := AllCanComplete(server, s);
    trace, events := LoopEnds(server, trace, events);
    CanFinish(server, trace[|events|]);
    RunIsLater(server, trace, events, 0, |events|);
    trace, events := RunExtends(server, trace, events, Finish);
  }

  lemma StartGoesOn(server: seq<byte>, s: State)
    requires Inv(server, s) && Possible(s, Start)
    requires s.stage.Error? || forall i :: 0 <= i < |s.conns| ==> !F.GivenUp(s.conns[i])
    requires s.conns != [] || s.prefix < s.size
    ensures Ongoing(server, Next(s, Start))
  {
    NextKeepsInv(server, s, Start);
    var t := Next(s, Start);
    forall i | 0 <= i < |s.conns| ensures Well(t.conns[i]) {
      if s.stage.Error? {
        F.RetryAfterError(server, s, i);
      } else {
        F.ResumeLaunchesIff(server, s, i);
      }
    }
  }

  /** Whenever a download can be started, and after an error always, it can still become done
      with the whole file beyond the prefix fetched, unless it was paused with a range given up:
      no failure, theft, split, pause or crash before can have made that impossible. */
  lemma StartCanComplete(server: seq<byte>, s: State) returns (trace: seq<State>, events: seq<Event>)
    requires Inv(server, s) && Possible(s, Start)
    requires s.stage.Error? || forall i :: 0 <= i < |s.conns| ==> !F.GivenUp(s.conns[i])
    ensures Completes(server, s, trace, events) && events != [] && events[0] == Start
  {
    assert Enabled(server, s, Start);
    if s.conns != [] || s.prefix < s.size {
      StartGoesOn(server, s);
      trace, events := OngoingCanComplete(server, Next(s, Start));
    } else {
      trace, events := [Next(s, Start)], [];
    }
    RunBegins(server, s, Start, trace, events);
    trace, events := [s] + trace, [Start] + events;
  }

  /** So a download that ended with an error can be started again and brought to the complete
      file, however many of its connections had given up. */
  lemma FailedCanComplete(server: seq<byte>, s: State) returns (trace: seq<State>, events: seq<Event>)
    requires Inv(server, s) && Possible(s, Finish) && Next(s, Finish).stage.Error?
    ensures Completes(server, Next(s, Finish), trace, events) && events != [] && events[0] == Start
  {
    NextKeepsInv(server, s, Finish);
    trace, events := StartCanComplete(server, Next(s, Finish));
  }

  // ----- Pausing -----

  /** How far a goroutine that is told to stop is from its end. */
  function Haste(): Conn -> int {
    (c: Conn) =>
      match c.phase
      case Stopped => 0
      case Requesting(_) => 1
      case Ready => 2
      case Completing => 3
      case Streaming(_) => 4
      case Accepted(_) => 5
      case Drained => 6
      case Written(_, _, _) => 7
      case Reserved(_, _, _, _) => 8
      case Reported => 9
      case Reporting => 10
      case Erring(_) => 11
      case Launched => 12
      case Created => 13
  }

  function Hastes(s: State): int { Sum(s.conns, Haste()) }

  /** How far the download loop is from where it can stop. */
  function LoopHaste(loop: Loop): nat {
    match loop
    case Signalled => 3
    case Checked => 2
    case Committing(_) => 1
    case _ => 0
  }

  /** The next event of a connection that stops as soon as it looks. */
  function Stopping(s: State, i: nat): Event
    requires i < |s.conns|
  {
    match s.conns[i].phase
    case Launched => Begin(i)
    case Accepted(_) => Announce(i)
    case Reserved(_, _, _, _) => Write(i)
    case Written(_, _, _) => Account(i, 0)
    case Drained => Help(i)
    case Completing => Complete(i)
    case Erring(_) => Register(i)
    case Reporting => Report(i)
    case Reported => Mark(i)
    case _ => Quit(i)
  }

  lemma StoppingIsCloser(server: seq<byte>, s: State, i: nat)
    requires Inv(server, s) && s.cancelled && LoopHaste(s.loop) == 0 && i < |s.conns| && !s.conns[i].phase.Stopped?
    ensures var e := Stopping(s, i);
            Enabled(server, s, e) && e.i == i && (Local(e) || e.Help?)
            && (Local(e) ==> Haste()(ConnStep(s.conns[i], e)) < Haste()(s.conns[i]))
  {
    assert !s.conns[i].phase.Created?;
  }

  lemma HelpHastens(server: seq<byte>, s: State, h: nat)
    requires Inv(server, s) && Possible(s, Help(h))
    ensures Hastes(HelpState(s, h)) < Hastes(s)
  {
    if Slowest(s.conns, h) < 0 {
      SumUpdate(s.conns, h, s.conns[h].(phase := Completing), Haste());
    } else {
      TheftHastens(s, h);
    }
  }

  lemma TheftHastens(s: State, h: nat)
    requires Possible(s, Help(h)) && Slowest(s.conns, h) >= 0
    ensures Hastes(HelpState(s, h)) < Hastes(s)
  {
    StealSum(s.conns, h, Slowest(s.conns, h), Haste());
  }

  /** A goroutine, once cancelled, comes closer to its end with each of its steps. */
  lemma GoroutineStops(server: seq<byte>, s: State, i: nat) returns (e: Event)
    requires Inv(server, s) && s.cancelled && !s.stage.Resolved? && LoopHaste(s.loop) == 0
    requires i < |s.conns| && !s.conns[i].phase.Stopped?
    ensures Enabled(server, s, e) && Hastes(Next(s, e)) < Hastes(s)
    ensures Next(s, e).cancelled && Next(s, e).loop == s.loop && Next(s, e).stage == s.stage
  {
    e := Stopping(s, i);
    StoppingIsCloser(server, s, i);
    if Local(e) {
      SumUpdate(s.conns, i, ConnStep(s.conns[i], e), Haste());
    } else {
      HelpHastens(server, s, i);
    }
  }

  /** The download loop ends its round. */
  lemma LoopStops(server: seq<byte>, s: State) returns (e: Event)
    requires Inv(server, s) && s.cancelled && !s.stage.Resolved? && LoopHaste(s.loop) > 0
    ensures Enabled(server, s, e) && LoopHaste(Next(s, e).loop) < LoopHaste(s.loop)
    ensures Next(s, e).cancelled && !Next(s, e).stage.Resolved?
  {
    e := if s.loop.Signalled? then Check else if s.loop.Checked? then Expand else Commit;
  }

  /** Told to stop. */
  ghost predicate Cancelling(server: seq<byte>, s: State) {
    Inv(server, s) && s.cancelled && !s.stage.Resolved?
  }

  predicate AtRest(s: State) {
    LoopHaste(s.loop) == 0 && Quiescent(s.conns)
  }

  /** Closer to rest. */
  predicate Hastened(s: State, t: State) {
    || LoopHaste(t.loop) < LoopHaste(s.loop)
    || (LoopHaste(t.loop) == LoopHaste(s.loop) && Hastes(t) < Hastes(s))
  }

  lemma OneMoves(server: seq<byte>, s: State) returns (e: Event)
    requires Cancelling(server, s) && !AtRest(s)
    ensures Enabled(server, s, e) && Hastened(s, Next(s, e))
    ensures Next(s, e).cancelled && !Next(s, e).stage.Resolved?
  {
    if LoopHaste(s.loop) > 0 {
      e := LoopStops(server, s);
    } else {
      var i :| 0 <= i < |s.conns| && !s.conns[i].phase.Stopped?;
      e := GoroutineStops(server, s, i);
    }
  }

  lemma OneStops(server: seq<byte>, s: State) returns (e: Event)
    requires Cancelling(server, s) && !AtRest(s)
    ensures Enabled(server, s, e) && Hastened(s, Next(s, e)) && Cancelling(server, Next(s, e))
  {
    e := OneMoves(server, s);
    NextKeepsInv(server, s, e);
  }

  lemma HastesAreNonNegative(s: State)
    ensures Hastes(s) >= 0
  {
    SumNonNegative(s.conns, Haste());
  }

  /** The run begins here and ends in a pause. */
  ghost predicate Pauses(server: seq<byte>, s: State, trace: seq<State>, events: seq<Event>) {
    && IsRun(server, trace, events) && trace[0] == s
    && trace[|events|].stage.Paused? && Quiescent(trace[|events|].conns)
  }

  lemma PausesAtOnce(server: seq<byte>, s: State)
    requires s.cancelled && AtRest(s)
    ensures Enabled(server, s, PauseDone) && Pauses(server, s, [s, Next(s, PauseDone)], [PauseDone])
  {
  }

  lemma PausesOnward(server: seq<byte>, s: State, e: Event, trace: seq<State>, events: seq<Event>)
    requires Enabled(server, s, e) && Pauses(server, Next(s, e), trace, events)
    ensures Pauses(server, s, [s] + trace, [e] + events)
  {
    RunBegins(server, s, e, trace, events);
  }

  /** A cancelled download reaches the pause: all goroutines can stop, whatever they were at. */
  lemma {:induction false} CancelledCanPause(server: seq<byte>, s: State)
    returns (trace: seq<State>, events: seq<Event>)
    requires Cancelling(server, s)
    ensures Pauses(server, s, trace, events)
    decreases LoopHaste(s.loop), Hastes(s)
  {
    if AtRest(s) {
      PausesAtOnce(server, s);
      trace, events := [s, Next(s, PauseDone)], [PauseDone];
    } else {
      var e := OneStops(server, s);
      HastesAreNonNegative(s);
      HastesAreNonNegative(Next(s, e));
      trace, events := CancelledCanPause(server, Next(s, e));
      PausesOnward(server, s, e, trace, events);
      trace, events := [s] + trace, [e] + events;
    }
  }

  /** A pause, asked for in any state but the resolved one, can take hold, with nothing fetched
      forgotten; and from there the download can be started again. */
  lemma CanPause(server: seq<byte>, s: State) returns (trace: seq<State>, events: seq<Event>)
    requires Inv(server, s) && !s.stage.Resolved?
    ensures IsRun(server, trace, events) && trace[0] == s && events != [] && events[0] == Cancel
    ensures var t := trace[|events|];
            && t.stage.Paused? && Enabled(server, t, Start)
            && Sum(s.conns, FetchedBytes()) <= Sum(t.conns, FetchedBytes())
  {
    NextKeepsInv(server, s, Cancel);
    trace, events := CancelledCanPause(server, Next(s, Cancel));
    PausesOnward(server, s, Cancel, trace, events);
    trace, events := [s] + trace, [Cancel] + events;
    ProgressIsMonotone(server, trace, events, 0, |events|);
  }

  // ----- Getting stuck -----

  /** A running download has a download loop, which expands only during slow start. */
  predicate LoopRuns(s: State) {
    (s.stage.SlowStarting? || s.stage.Steady?) ==> !s.loop.NoLoop? && (s.stage.Steady? ==> s.loop.Waiting?)
  }

  lemma NextKeepsLoop(server: seq<byte>, s: State, e: Event)
    requires Inv(server, s) && LoopRuns(s) && Enabled(server, s, e)
    ensures LoopRuns(Next(s, e))
  {
  }

  lemma {:induction false} RunKeepsLoop(server: seq<byte>, trace: seq<State>, events: seq<Event>, k: nat)
    requires IsRun(server, trace, events) && Inv(server, trace[0]) && LoopRuns(trace[0]) && k < |trace|
    ensures LoopRuns(trace[k])
  {
    if k > 0 {
      RunKeepsLoop(server, trace, events, k - 1);
      RunKeepsInv(server, trace, events, k - 1);
      NextKeepsLoop(server, trace[k - 1], events[k - 1]);
    }
  }

  /** A download that was paused, failed or is done has no download loop, unless its first round
      found everything prefetched. */
  predicate LoopIsOver(s: State) {
    && (s.stage.Paused? || s.stage.Error? ==> s.loop.NoLoop?)
    && (s.stage.Done? ==> s.loop.NoLoop? || (s.loop.Expanding? && s.conns == []))
  }

  lemma NextEndsLoop(server: seq<byte>, s: State, e: Event)
    requires Inv(server, s) && LoopIsOver(s) && Enabled(server, s, e)
    ensures LoopIsOver(Next(s, e))
  {
    if Local(e) {
      assert !s.conns[e.i].phase.Stopped?;
    }
  }

  lemma {:induction false} RunEndsLoop(server: seq<byte>, trace: seq<State>, events: seq<Event>, k: nat)
    requires IsRun(server, trace, events) && Inv(server, trace[0]) && LoopIsOver(trace[0]) && k < |trace|
    ensures LoopIsOver(trace[k])
  {
    if k > 0 {
      RunEndsLoop(server, trace, events, k - 1);
      RunKeepsInv(server, trace, events, k - 1);
      NextEndsLoop(server, trace[k - 1], events[k - 1]);
    }
  }

  /** Some goroutine or the download loop can take a step. */
  ghost predicate CanStep(server: seq<byte>, s: State) {
    exists e :: Enabled(server, s, e) && !e.Cancel?
  }

  /** Every goroutine that has not stopped has a next step. */
  lemma GoroutineCanStep(server: seq<byte>, s: State, i: nat)
    requires Inv(server, s) && i < |s.conns| && !s.conns[i].phase.Stopped?
    ensures CanStep(server, s)
  {
    var c := s.conns[i];
    if c.phase.Created? {
      assert Enabled(server, s, Commit);
    } else if c.phase.Streaming? {
      assert Enabled(server, s, Fail(i, Other));
    } else if c.phase.Requesting? {
      assert Enabled(server, s, Accept(i));
    } else if c.phase.Ready? {
      assert Enabled(server, s, Request(i));
    } else {
      assert Enabled(server, s, Stopping(s, i));
    }
  }

  /** In every run: a download that runs, and has not been cancelled, is stuck in exactly one
      case: all its goroutines have stopped while the download loop waits for a signal of the
      slow-start controller. */
  lemma StuckIff(server: seq<byte>, trace: seq<State>, events: seq<Event>, k: nat)
    requires IsRun(server, trace, events) && Inv(server, trace[0]) && LoopRuns(trace[0]) && k < |trace|
    requires (trace[k].stage.SlowStarting? || trace[k].stage.Steady?) && !trace[k].cancelled
    ensures CanStep(server, trace[k]) <==>
            !(Quiescent(trace[k].conns) && trace[k].loop.Expanding? && !trace[k].slow.signalled)
  {
    RunKeepsInv(server, trace, events, k);
    RunKeepsLoop(server, trace, events, k);
    var s := trace[k];
    if !Quiescent(s.conns) {
      var i :| 0 <= i < |s.conns| && !s.conns[i].phase.Stopped?;
      GoroutineCanStep(server, s, i);
    } else if s.loop.Waiting? {
      assert Enabled(server, s, Finish);
    } else if s.loop.Expanding? && s.slow.signalled {
      assert Enabled(server, s, Receive);
    } else if LoopHaste(s.loop) > 0 {
      assert Enabled(server, s, if s.loop.Signalled? then Check else if s.loop.Checked? then Expand else Commit);
    }
  }

  /** A download that was started again, after a pause, an error or a crash, never gets stuck
      like that. */
  lemma ResumedIsNeverStuck(server: seq<byte>, trace: seq<State>, events: seq<Event>, k: nat)
    requires IsRun(server, trace, events) && Inv(server, trace[0]) && trace[0].conns != []
    requires 0 < k < |trace| && events[0] == Start && OneSession(events[1..], k - 1)
    requires (trace[k].stage.SlowStarting? || trace[k].stage.Steady?) && !trace[k].cancelled
    ensures CanStep(server, trace[k])
  {
    assert Enabled(server, trace[0], events[0]);
    LoopKeepsWaiting(server, trace, events, k);
    StuckIff(server, trace, events, k);
  }

  lemma {:induction false} LoopKeepsWaiting(server: seq<byte>, trace: seq<State>, events: seq<Event>, k: nat)
    requires IsRun(server, trace, events) && Inv(server, trace[0]) && trace[0].conns != []
    requires 0 < k < |trace| && events[0] == Start && OneSession(events[1..], k - 1)
    ensures trace[k].loop.Waiting? || trace[k].loop.NoLoop?
    ensures trace[k].loop.NoLoop? ==> !trace[k].stage.SlowStarting? && !trace[k].stage.Steady?
  {
    assert Enabled(server, trace[k - 1], events[k - 1]);
    if k > 1 {
      assert events[1..][k - 2] == events[k - 1];
      LoopKeepsWaiting(server, trace, events, k - 1);
    }
  }

  // ----- After a crash -----

  /** A restore brings back every range, its counters and its completion as they were saved, and
      hence the reported progress; only failure flags and speeds are forgotten. */
  lemma RestoreKeepsRanges(server: seq<byte>, s: State, file: seq<byte>, i: nat)
    requires Inv(server, s) && i < |s.conns|
    ensures var t := Restore(Store(s), file, s.retired, s.prefix, s.max);
            && t.stage.Resolved? && t.file == file && |t.conns| == |s.conns|
            && t.conns[i] ==
               s.conns[i].(failed := false, retries := 0, lastErr := NoError, speed := 0, phase := Stopped)
            && Sum(t.conns, FetchedBytes()) == Sum(s.conns, FetchedBytes())
  {
    var t := Restore(Store(s), file, s.retired, s.prefix, s.max);
    SumPointwise(t.conns, FetchedBytes(), s.conns, FetchedBytes());
  }

  /** Any snapshot, restored onto the file of any later moment, can be brought to the complete
      file, ranges given up before included. */
  lemma RestoredCanComplete(server: seq<byte>, s: State, file: seq<byte>)
    returns (trace: seq<State>, events: seq<Event>)
    requires Inv(server, s) && s.conns != [] && Improves(server, s.file, file)
    ensures Completes(server, Restore(Store(s), file, s.retired, s.prefix, s.max), trace, events)
  {
    var t := Restore(Store(s), file, s.retired, s.prefix, s.max);
    RestoreKeepsInv(server, s, file);
    forall i | 0 <= i < |t.conns| ensures !F.GivenUp(t.conns[i]) {
      RestoreKeepsRanges(server, s, file, i);
    }
    trace, events := StartCanComplete(server, t);
  }
}
