/** What becomes of failures: which ones are counted, when a connection gives up, and what a
    start after an error or a pause takes up again. */
module RangedFailures {
  import opened Basics
  import opened RangedDownload
  import opened RangedInvariant
  import opened RangedTheorems
  import opened Sums
  import SlowStart

  // ----- Starting again -----

  /** A start after an error gives every connection that has not completed a clean slate and
      launches it, also those that had given up, after a 403 or after three failures. */
  lemma RetryAfterError(server: seq<byte>, s: State, i: nat)
    requires Inv(server, s) && Possible(s, Start) && s.stage.Error? && i < |s.conns|
    ensures var t, c := Next(s, Start), s.conns[i];
            && !t.cancelled && t.stage.SlowStarting? && t.loop.Waiting? && |t.conns| == |s.conns|
            && var d := t.conns[i];
               if c.completed then d == c
               else && d.phase.Launched? && d.state.NotStarted? && !d.failed && d.retries == 0 && d.lastErr.NoError?
                    && d.chunk == c.chunk && d.downloaded == c.downloaded && !d.completed
  {
    assert ConnOk(server, s.file, s.prefix, s.conns[i]);
  }

  /** Given up in an earlier attempt: refused with a 403, or failed three times. */
  predicate GivenUp(c: Conn) {
    c.state.Failed? && c.failed && (c.lastErr == Http(403) || c.retries >= 3)
  }

  /** A start from a pause, or after a restore, launches exactly the connections that have not
      completed and have not given up, and leaves the others as they are. */
  lemma ResumeLaunchesIff(server: seq<byte>, s: State, i: nat)
    requires Inv(server, s) && Possible(s, Start) && !s.stage.Error? && i < |s.conns|
    ensures var t, c := Next(s, Start), s.conns[i];
            && !t.cancelled && t.stage.SlowStarting? && t.loop.Waiting? && |t.conns| == |s.conns|
            && var d := t.conns[i];
               && (d.phase.Launched? <==> !c.completed && !GivenUp(c))
               && (!d.phase.Launched? ==> d == c)
               && (d.phase.Launched? ==> d.state.NotStarted? && !d.failed)
               && d.chunk == c.chunk && d.downloaded == c.downloaded && d.completed == c.completed
  {
    assert ConnOk(server, s.file, s.prefix, s.conns[i]);
  }

  /** Nobody takes bytes from a connection that has failed. */
  lemma {:induction false} SplitsSpareFailed(conns: seq<Conn>, n: nat, i: nat)
    requires i < |conns| && conns[i].state.Failed?
    ensures i < |SplitUpTo(conns, n)| && SplitUpTo(conns, n)[i] == conns[i]
    decreases n
  {
    var v := Largest(conns);
    if n != 0 && v >= 0 {
      SplitsSpareFailed(Split(conns, v), n - 1, i);
    }
  }

  lemma ExpandSparesFailed(server: seq<byte>, s: State, i: nat)
    requires Inv(server, s) && Possible(s, Expand) && i < |s.conns| && s.conns[i].state.Failed?
    ensures i < |ExpandState(s).conns| && ExpandState(s).conns[i] == s.conns[i]
  {
    var batch := SlowStart.BatchSize(s.slow);
    if batch > 0 {
      SplitsSpareFailed(s.conns, batch, i);
    }
  }

  lemma HelpSparesFailed(s: State, h: nat, i: nat)
    requires Possible(s, Help(h)) && i < |s.conns| && i != h && s.conns[i].state.Failed?
    ensures |HelpState(s, h).conns| == |s.conns| && HelpState(s, h).conns[i] == s.conns[i]
  {
  }

  lemma StepSparesGivenUp(server: seq<byte>, s: State, e: Event, i: nat)
    requires Inv(server, s) && Enabled(server, s, e) && !e.Start?
    requires i < |s.conns| && s.conns[i].phase.Stopped? && s.conns[i].state.Failed?
    ensures i < |Next(s, e).conns| && Next(s, e).conns[i] == s.conns[i]
  {
    if Local(e) {
      LocalSparesOthers(s, e);
    } else if e.Expand? {
      ExpandSparesFailed(server, s, i);
    } else if e.Help? {
      HelpSparesFailed(s, e.i, i);
    } else {
      StageSparesOthers(s, e, i);
    }
  }

  /** The run starts from a pause, or after a restore, and nobody starts again before step k. */
  ghost predicate Resumes(trace: seq<State>, events: seq<Event>, k: nat) {
    && |trace| == |events| + 1 && 0 < k < |trace|
    && events[0] == Start && !trace[0].stage.Error? && forall m :: 0 < m < k ==> !events[m].Start?
  }

  lemma FirstStepSparesGivenUp(server: seq<byte>, trace: seq<State>, events: seq<Event>, i: nat)
    requires IsRun(server, trace, events) && Inv(server, trace[0]) && Resumes(trace, events, 1)
    requires i < |trace[0].conns| && GivenUp(trace[0].conns[i])
    ensures i < |trace[1].conns| && trace[1].conns[i] == trace[0].conns[i]
    ensures trace[0].conns[i].phase.Stopped? && trace[0].conns[i].chunk.Remain() > 0
  {
    assert Enabled(server, trace[0], events[0]) && trace[1] == Next(trace[0], events[0]);
    assert ConnOk(server, trace[0].file, trace[0].prefix, trace[0].conns[i]);
    ResumeLaunchesIff(server, trace[0], i);
  }

  lemma {:induction false} GivenUpStays(server: seq<byte>, trace: seq<State>, events: seq<Event>, i: nat, k: nat)
    requires IsRun(server, trace, events) && Inv(server, trace[0]) && Resumes(trace, events, k)
    requires i < |trace[0].conns| && GivenUp(trace[0].conns[i])
    ensures i < |trace[k].conns| && trace[k].conns[i] == trace[0].conns[i]
    ensures trace[0].conns[i].phase.Stopped? && trace[0].conns[i].chunk.Remain() > 0
  {
    if k == 1 {
      FirstStepSparesGivenUp(server, trace, events, i);
    } else {
      GivenUpStays(server, trace, events, i, k - 1);
      RunKeepsInv(server, trace, events, k - 1);
      StepSparesGivenUp(server, trace[k - 1], events[k - 1], i);
    }
  }

  /** A start from a pause or after a restore does not take up a range that was given up, and no
      other connection takes it over: as long as nobody starts again it stays as it is, and bytes
      are missing. */
  lemma GivenUpStaysOwed(server: seq<byte>, trace: seq<State>, events: seq<Event>, i: nat, k: nat)
    requires IsRun(server, trace, events) && Inv(server, trace[0]) && Resumes(trace, events, k)
    requires i < |trace[0].conns| && GivenUp(trace[0].conns[i])
    ensures i < |trace[k].conns| && trace[k].conns[i] == trace[0].conns[i]
    ensures Sum(trace[k].conns, FetchedBytes()) < trace[k].size
  {
    GivenUpStays(server, trace, events, i, k);
    RunKeepsInv(server, trace, events, k);
    CounterMatchesCoverage(server, trace[k]);
  }

  // ----- One failed attempt -----

  /** An answer with one of these statuses, or no answer, never ends a connection. */
  predicate Transient(err: Failure) {
    err.Http? ==> 500 <= err.code < 600 || err.code in {408, 429, 440, 499}
  }

  /** Any other status but 403 counts against it. */
  predicate Strike(err: Failure) {
    err.Http? && !Transient(err) && err.code != 403
  }

  /** After a failed attempt its goroutine has one way to go.  A transient failure is retried and
      not counted; a 403 ends the connection; any other status is counted, and ends it the third
      time. */
  lemma FailedAttemptEnds(c: Conn, i: nat)
    requires c.phase.Erring?
    ensures forall e :: ConnPossible(c, e) ==> e.Register?
    ensures var err, c1 := c.phase.err, ConnStep(c, Register(i));
            if Transient(err) then c1 == c.(state := Failed, lastErr := err, phase := Ready)
            else
              && c1.phase.Reporting? && (forall e :: ConnPossible(c1, e) ==> e.Report?)
              && var c2 := ConnStep(c1, Report(i));
                 if err == Http(403) then c2 == c.(state := Failed, failed := true, lastErr := err, phase := Stopped)
                 else
                   && c2.phase.Reported? && (forall e :: ConnPossible(c2, e) ==> e.Mark?)
                   && ConnStep(c2, Mark(i)) ==
                      c.(state := Failed, failed := true, lastErr := err, retries := c.retries + 1,
                         phase := if c.retries + 1 >= 3 then Stopped else Ready)
  {
  }

  lemma OwnStepFlags(c: Conn, e: Event)
    requires ConnPossible(c, e)
    ensures ConnStep(c, e).failed <==>
            (if e.Register? && !Transient(c.phase.err) then true else c.failed && !e.Accept?)
  {
  }

  // ----- What other goroutines leave alone -----

  lemma LocalSparesOthers(s: State, e: Event)
    requires Possible(s, e) && Local(e)
    ensures |Next(s, e).conns| == |s.conns|
    ensures forall i :: 0 <= i < |s.conns| && i != e.i ==> Next(s, e).conns[i] == s.conns[i]
  {
  }

  lemma HelpSparesOthers(s: State, h: nat)
    requires Possible(s, Help(h))
    ensures var conns := HelpState(s, h).conns;
            && |conns| == |s.conns|
            && (forall i :: 0 <= i < |s.conns| && i != h ==> conns[i] == s.conns[i].(chunk := conns[i].chunk))
            && conns[h].failed == s.conns[h].failed && conns[h].state == s.conns[h].state
            && conns[h].lastErr == s.conns[h].lastErr && conns[h].completed == s.conns[h].completed
            && (if conns[h].phase.Ready? then conns[h].retries == 0
                else conns[h].phase.Completing? && conns[h].retries == s.conns[h].retries)
  {
  }

  /** Launching a batch changes nothing but the phases of its connections. */
  lemma StageSparesOthers(s: State, e: Event, i: nat)
    requires Possible(s, e) && !Local(e) && !e.Start? && !e.Expand? && !e.Help? && i < |s.conns|
    ensures i < |Next(s, e).conns|
    ensures Next(s, e).conns[i] == if e.Commit? then LaunchConn(s.conns[i]) else s.conns[i]
  {
  }

  /** Only the connection itself and a start touch its record: others may shorten its range, and
      the download loop may launch it. */
  lemma OthersKeepGoroutine(server: seq<byte>, s: State, e: Event, i: nat)
    requires Inv(server, s) && Enabled(server, s, e) && !e.Start? && i < |s.conns|
    requires !(Local(e) && e.i == i) && e != Help(i)
    ensures i < |Next(s, e).conns|
    ensures var c, d := s.conns[i], Next(s, e).conns[i];
            && d == c.(chunk := d.chunk, phase := d.phase)
            && (d.phase == c.phase || (c.phase.Created? && d.phase.Launched?))
  {
    if Local(e) {
      LocalSparesOthers(s, e);
    } else if e.Help? {
      HelpSparesOthers(s, e.i);
    } else if e.Expand? {
      ExpandExtends(s);
    } else {
      StageSparesOthers(s, e, i);
    }
  }

  /** Another event changes the flag only by launching the connection. */
  lemma OthersKeepFlag(server: seq<byte>, s: State, e: Event, i: nat)
    requires Inv(server, s) && Enabled(server, s, e) && i < |s.conns| && !(Local(e) && e.i == i)
    ensures i < |Next(s, e).conns|
    ensures Next(s, e).conns[i].failed <==>
            s.conns[i].failed && !(e.Start? && Next(s, e).conns[i].phase.Launched?)
  {
    if e.Start? {
      StartKeepsFlag(server, s, i);
    } else if e == Help(i) {
      HelpSparesOthers(s, i);
    } else {
      OthersKeepGoroutine(server, s, e, i);
    }
  }

  lemma StartKeepsFlag(server: seq<byte>, s: State, i: nat)
    requires Inv(server, s) && Possible(s, Start) && i < |s.conns|
    ensures i < |StartState(s).conns|
    ensures StartState(s).conns[i].failed <==> s.conns[i].failed && !StartState(s).conns[i].phase.Launched?
  {
    assert ConnOk(server, s.file, s.prefix, s.conns[i]);
  }

  /** Who can set or clear the failure flag: a failure that is not transient sets it, an answer
      or a new launch clears it, and nothing else touches it. */
  lemma FailedFlagIff(server: seq<byte>, s: State, e: Event, i: nat)
    requires Inv(server, s) && Enabled(server, s, e) && i < |s.conns|
    ensures i < |Next(s, e).conns|
    ensures var c, d := s.conns[i], Next(s, e).conns[i];
            d.failed <==>
            if e == Register(i) && !Transient(c.phase.err) then true
            else c.failed && e != Accept(i) && !(e.Start? && d.phase.Launched?)
  {
    if Local(e) && e.i == i {
      OwnStepFlags(s.conns[i], e);
    } else {
      OthersKeepFlag(server, s, e, i);
    }
  }

  lemma OwnStepStates(c: Conn, e: Event)
    requires ConnPossible(c, e)
    ensures var d := ConnStep(c, e);
            && (d.completed <==> c.completed || e.Complete?)
            && (d.state.Failed? <==>
                  e.Mark? || (e.Register? && !Strike(c.phase.err))
                  || (c.state.Failed? && !e.Begin? && !e.Accept? && !e.Complete?))
            && d.lastErr == (if e.Register? then c.phase.err else c.lastErr)
  {
  }

  /** Other events change completion, failed state and last error only by launching. */
  lemma OthersKeepStates(server: seq<byte>, s: State, e: Event, i: nat)
    requires Inv(server, s) && Enabled(server, s, e) && i < |s.conns| && !(Local(e) && e.i == i) && !e.Start?
    ensures i < |Next(s, e).conns|
    ensures var c, d := s.conns[i], Next(s, e).conns[i];
            d.completed == c.completed && d.state == c.state && d.lastErr == c.lastErr
  {
    if e == Help(i) {
      HelpSparesOthers(s, i);
    } else {
      OthersKeepGoroutine(server, s, e, i);
    }
  }

  lemma StartKeepsStates(server: seq<byte>, s: State, i: nat)
    requires Inv(server, s) && Possible(s, Start) && i < |s.conns|
    ensures i < |StartState(s).conns|
    ensures var c, d := s.conns[i], StartState(s).conns[i];
            && d.completed == c.completed
            && (d.state.Failed? <==> c.state.Failed? && !d.phase.Launched?)
            && d.lastErr == (if s.stage.Error? && d.phase.Launched? then NoError else c.lastErr)
  {
    assert ConnOk(server, s.file, s.prefix, s.conns[i]);
  }

  /** Over all events, who changes what: only completing completes a connection; its state becomes
      failed when a failure other than a strike is registered, or a strike is marked, and ceases to
      be when it begins, is answered, completes or is launched; its last error is the last one
      registered, and is forgotten by a start after an error. */
  lemma StatesChangeIff(server: seq<byte>, s: State, e: Event, i: nat)
    requires Inv(server, s) && Enabled(server, s, e) && i < |s.conns|
    ensures i < |Next(s, e).conns|
    ensures var c, d := s.conns[i], Next(s, e).conns[i];
            && (d.completed <==> c.completed || e == Complete(i))
            && (d.state.Failed? <==>
                  e == Mark(i) || (e == Register(i) && !Strike(c.phase.err))
                  || (c.state.Failed? && e != Begin(i) && e != Accept(i) && e != Complete(i)
                      && !(e.Start? && d.phase.Launched?)))
            && d.lastErr == (if e == Register(i) then c.phase.err
                             else if e.Start? && s.stage.Error? && d.phase.Launched? then NoError
                             else c.lastErr)
  {
    if Local(e) && e.i == i {
      OwnStepStates(s.conns[i], e);
    } else if e.Start? {
      StartKeepsStates(server, s, i);
    } else {
      OthersKeepStates(server, s, e, i);
    }
  }

  // ----- Three strikes -----

  /** The goroutine of the connection has begun. */
  predicate Going(c: Conn) {
    !c.phase.Stopped? && !c.phase.Created? && !c.phase.Launched?
  }

  /** The event registers a failure of connection i that counts. */
  predicate Struck(s: State, e: Event, i: nat) {
    e == Register(i) && i < |s.conns| && s.conns[i].phase.Erring? && Strike(s.conns[i].phase.err)
  }

  /** The event lets connection i begin, or take over another range. */
  predicate Afresh(e: Event, t: State, i: nat) {
    e == Begin(i) || (e == Help(i) && i < |t.conns| && t.conns[i].phase.Ready?)
  }

  /** Failures that counted since connection i last began or took over another range. */
  function Strikes(trace: seq<State>, events: seq<Event>, i: nat, k: nat): nat
    requires |trace| == |events| + 1 && k <= |events|
  {
    if k == 0 || Afresh(events[k - 1], trace[k], i) then 0
    else Strikes(trace, events, i, k - 1) + if Struck(trace[k - 1], events[k - 1], i) then 1 else 0
  }

  /** What one event of the connection itself does to its record. */
  lemma OwnStepCounts(server: seq<byte>, s: State, e: Event)
    requires Inv(server, s) && Enabled(server, s, e) && Local(e) && !e.Begin? && Going(Next(s, e).conns[e.i])
    ensures Going(s.conns[e.i])
    ensures Next(s, e).conns[e.i].retries ==
            s.conns[e.i].retries + if e.Register? && Strike(s.conns[e.i].phase.err) then 1 else 0
    ensures e.Register? ==> s.conns[e.i].retries <= 2
  {
    assert ConnOk(server, s.file, s.prefix, s.conns[e.i]);
    assert !s.conns[e.i].phase.Launched?;
  }

  /** A connection that comes into being, or is launched, has not begun. */
  lemma NewIsNotGoing(server: seq<byte>, s: State, e: Event, i: nat)
    requires Inv(server, s) && Enabled(server, s, e) && i < |Next(s, e).conns| && Going(Next(s, e).conns[i])
    requires !(Local(e) && e.i == i) && e != Help(i)
    ensures i < |s.conns| && Going(s.conns[i]) && Next(s, e).conns[i].retries == s.conns[i].retries
  {
    if e.Start? {
      StartLaunches(s, i);
    } else if i < |s.conns| {
      OthersKeepGoroutine(server, s, e, i);
    } else if e.Expand? {
      ExpandExtends(s);
    } else {
      OnlyExpandAdds(s, e);
    }
  }

  lemma StartLaunches(s: State, i: nat)
    requires Possible(s, Start) && i < |StartState(s).conns|
    ensures !Going(StartState(s).conns[i])
  {
  }

  lemma OnlyExpandAdds(s: State, e: Event)
    requires Possible(s, e) && !e.Start? && !e.Expand?
    ensures |Next(s, e).conns| == |s.conns|
  {
    if e.Help? {
      HelpSparesOthers(s, e.i);
    } else if Local(e) {
      LocalSparesOthers(s, e);
    } else {
      StageKeepsRanges(s, e);
    }
  }

  /** A connection that is going has as many retries on its record as `n`, which is at most 3. */
  predicate OnRecord(s: State, i: nat, n: nat) {
    i < |s.conns| && Going(s.conns[i]) ==> s.conns[i].retries == n <= 3
  }

  lemma OwnStepRecords(server: seq<byte>, s: State, e: Event, n: nat)
    requires Inv(server, s) && Enabled(server, s, e) && Local(e) && OnRecord(s, e.i, n)
    ensures OnRecord(Next(s, e), e.i, if e.Begin? then 0 else n + if Struck(s, e, e.i) then 1 else 0)
  {
    if !e.Begin? && Going(Next(s, e).conns[e.i]) {
      OwnStepCounts(server, s, e);
    }
  }

  lemma OthersRecord(server: seq<byte>, s: State, e: Event, i: nat, n: nat)
    requires Inv(server, s) && Enabled(server, s, e) && !(Local(e) && e.i == i) && OnRecord(s, i, n)
    ensures OnRecord(Next(s, e), i, if Afresh(e, Next(s, e), i) then 0 else n)
  {
    if i < |Next(s, e).conns| && Going(Next(s, e).conns[i]) {
      if e == Help(i) {
        HelpSparesOthers(s, i);
      } else {
        NewIsNotGoing(server, s, e, i);
      }
    }
  }

  lemma StepRecords(server: seq<byte>, s: State, e: Event, i: nat, n: nat)
    requires Inv(server, s) && Enabled(server, s, e) && OnRecord(s, i, n)
    ensures OnRecord(Next(s, e), i,
                     if Afresh(e, Next(s, e), i) then 0 else n + if Struck(s, e, i) then 1 else 0)
  {
    if Local(e) && e.i == i {
      OwnStepRecords(server, s, e, n);
    } else {
      OthersRecord(server, s, e, i, n);
    }
  }

  /** Step k keeps what is on record of connection i. */
  ghost predicate RecordStep(trace: seq<State>, events: seq<Event>, i: nat, k: nat)
    requires |trace| == |events| + 1 && k < |events|
  {
    forall n: nat | OnRecord(trace[k], i, n) ::
      OnRecord(trace[k + 1], i,
               if Afresh(events[k], trace[k + 1], i) then 0
               else n + if Struck(trace[k], events[k], i) then 1 else 0)
  }

  lemma TraceRecords(server: seq<byte>, trace: seq<State>, events: seq<Event>, i: nat, k: nat)
    requires IsRun(server, trace, events) && Inv(server, trace[0]) && k < |events|
    ensures RecordStep(trace, events, i, k)
  {
    RunKeepsInv(server, trace, events, k);
    forall n: nat | OnRecord(trace[k], i, n)
      ensures OnRecord(trace[k + 1], i,
                       if Afresh(events[k], trace[k + 1], i) then 0
                       else n + if Struck(trace[k], events[k], i) then 1 else 0)
    {
      StepRecords(server, trace[k], events[k], i, n);
    }
  }

  lemma NotGoing(s: State, i: nat, n: nat)
    requires Quiescent(s.conns)
    ensures OnRecord(s, i, n)
  {
  }

  lemma {:induction false} CountStrikes(trace: seq<State>, events: seq<Event>, i: nat, k: nat)
    requires |trace| == |events| + 1 && k <= |events| && Quiescent(trace[0].conns)
    requires forall j :: 0 <= j < k ==> RecordStep(trace, events, i, j)
    ensures OnRecord(trace[k], i, Strikes(trace, events, i, k))
  {
    if k == 0 {
      NotGoing(trace[0], i, 0);
    } else {
      CountStrikes(trace, events, i, k - 1);
      assert RecordStep(trace, events, i, k - 1);
    }
  }

  lemma RetriesAreStrikes(server: seq<byte>, trace: seq<State>, events: seq<Event>, i: nat, k: nat)
    requires IsRun(server, trace, events) && Inv(server, trace[0]) && Quiescent(trace[0].conns) && k <= |events|
    ensures OnRecord(trace[k], i, Strikes(trace, events, i, k))
  {
    forall j | 0 <= j < k ensures RecordStep(trace, events, i, j) {
      TraceRecords(server, trace, events, i, j);
    }
    CountStrikes(trace, events, i, k);
  }

  /** In every run a connection whose failure was counted gives up if it was the third since it
      began, or since it took over another range, and goes on if it was not; there is never a
      fourth. */
  lemma ThirdStrikeGivesUp(server: seq<byte>, trace: seq<State>, events: seq<Event>, i: nat, k: nat)
    requires IsRun(server, trace, events) && Inv(server, trace[0]) && Quiescent(trace[0].conns)
    requires k < |events| && events[k] == Mark(i)
    ensures Strikes(trace, events, i, k) <= 3 && i < |trace[k + 1].conns|
    ensures trace[k + 1].conns[i].phase == if Strikes(trace, events, i, k) == 3 then Stopped else Ready
  {
    assert Enabled(server, trace[k], events[k]) && trace[k + 1] == Next(trace[k], events[k]);
    RetriesAreStrikes(server, trace, events, i, k);
  }

  // ----- What the state of a connection tells -----

  /** A connection that has not begun is in the state NotStarted, one that has is not, and one
      that receives is in the state Downloading. */
  predicate Tells(c: Conn) {
    match c.phase
    case Stopped => true
    case Created => c.state.NotStarted?
    case Launched => c.state.NotStarted?
    case Accepted(_) => c.state.Downloading?
    case Streaming(_) => c.state.Downloading?
    case Reserved(_, _, _, _) => c.state.Downloading?
    case Written(_, _, _) => c.state.Downloading?
    case _ => !c.state.NotStarted? && !c.state.Completed?
  }

  ghost predicate AllTell(s: State) {
    forall i :: 0 <= i < |s.conns| ==> Tells(s.conns[i])
  }

  lemma OwnStepTells(c: Conn, e: Event)
    requires ConnPossible(c, e) && Tells(c)
    ensures Tells(ConnStep(c, e))
  {
  }

  lemma LocalTells(s: State, e: Event)
    requires Possible(s, e) && Local(e) && AllTell(s)
    ensures AllTell(Next(s, e))
  {
    LocalSparesOthers(s, e);
    OwnStepTells(s.conns[e.i], e);
  }

  lemma StartTells(s: State)
    requires Possible(s, Start)
    ensures AllTell(StartState(s))
  {
  }

  lemma {:induction false} SplitsTell(conns: seq<Conn>, n: nat)
    requires forall i :: 0 <= i < |conns| ==> Tells(conns[i])
    ensures forall i :: 0 <= i < |SplitUpTo(conns, n)| ==> Tells(SplitUpTo(conns, n)[i])
    decreases n
  {
    var v := Largest(conns);
    if n != 0 && v >= 0 {
      SplitsTell(Split(conns, v), n - 1);
    }
  }

  lemma HelpTells(s: State, h: nat)
    requires Possible(s, Help(h)) && AllTell(s)
    ensures AllTell(HelpState(s, h))
  {
  }

  lemma RoundTells(server: seq<byte>, s: State, e: Event)
    requires Inv(server, s) && Possible(s, e) && AllTell(s) && !Local(e) && !e.Start? && !e.Help?
    ensures AllTell(Next(s, e))
  {
    if e.Expand? {
      var batch := SlowStart.BatchSize(s.slow);
      if batch > 0 {
        SplitsTell(s.conns, batch);
      }
    } else {
      forall i | 0 <= i < |Next(s, e).conns| ensures Tells(Next(s, e).conns[i]) {
        StageKeepsRanges(s, e);
        StageSparesOthers(s, e, i);
      }
    }
  }

  lemma NextTells(server: seq<byte>, s: State, e: Event)
    requires Inv(server, s) && Enabled(server, s, e) && AllTell(s)
    ensures AllTell(Next(s, e))
  {
    if Local(e) {
      LocalTells(s, e);
    } else if e.Start? {
      StartTells(s);
    } else if e.Help? {
      HelpTells(s, e.i);
    } else {
      RoundTells(server, s, e);
    }
  }

  lemma TraceTells(server: seq<byte>, trace: seq<State>, events: seq<Event>, k: nat)
    requires IsRun(server, trace, events) && Inv(server, trace[0]) && k < |events| && AllTell(trace[k])
    ensures AllTell(trace[k + 1])
  {
    RunKeepsInv(server, trace, events, k);
    NextTells(server, trace[k], events[k]);
  }

  /** In every run that begins with no goroutine, the state of each connection tells whether it
      has begun and whether it receives; so whoever receives can be helped. */
  lemma {:induction false} StatesTell(server: seq<byte>, trace: seq<State>, events: seq<Event>, k: nat)
    requires IsRun(server, trace, events) && Inv(server, trace[0]) && Quiescent(trace[0].conns) && k < |trace|
    ensures AllTell(trace[k])
  {
    if k > 0 {
      StatesTell(server, trace, events, k - 1);
      TraceTells(server, trace, events, k - 1);
    }
  }

  // ----- Which error is reported -----

  /** Given up for another reason than a 403. */
  predicate Failing(c: Conn) {
    c.state.Failed? && c.failed && c.lastErr != Http(403)
  }

  /** When all goroutines have ended, the error reported is that of the first connection that gave
      up on something other than a 403, and none is reported if there is none. */
  lemma FirstFailureIsReported(server: seq<byte>, s: State)
    requires Inv(server, s) && Possible(s, Finish)
    ensures var r := FinalError(s.conns, s.size);
            && (r < 0 <==> forall i :: 0 <= i < |s.conns| ==> !Failing(s.conns[i]))
            && (r >= 0 ==> Failing(s.conns[r]) && forall i :: 0 <= i < r ==> !Failing(s.conns[i]))
  {
    CounterMatchesCoverage(server, s);
    assert StoppedSettled(s.conns);
    forall i | 0 <= i < |s.conns| && Failing(s.conns[i])
      ensures Exhausted(s.conns[i]) && Unfinished(s.conns[i]) && Reportable(s.conns[i])
    {
      assert Settled(s.conns[i]) && ConnOk(server, s.file, s.prefix, s.conns[i]);
    }
  }

  // ----- A 403 -----

  /** The connection has met a 403, and its goroutine is about to end or has ended. */
  predicate Refused(c: Conn) {
    || c.phase == Erring(Http(403))
    || ((c.phase.Reporting? || c.phase.Stopped?) && c.state.Failed? && c.failed && c.lastErr == Http(403))
  }

  lemma StepStaysRefused(server: seq<byte>, s: State, e: Event, i: nat)
    requires Inv(server, s) && Enabled(server, s, e) && !e.Start? && i < |s.conns| && Refused(s.conns[i])
    ensures i < |Next(s, e).conns| && Refused(Next(s, e).conns[i])
  {
    if Local(e) && e.i == i {
      OwnStepStaysRefused(s.conns[i], e);
    } else {
      OthersKeepGoroutine(server, s, e, i);
    }
  }

  lemma OwnStepStaysRefused(c: Conn, e: Event)
    requires Refused(c) && ConnPossible(c, e)
    ensures Refused(ConnStep(c, e))
  {
  }

  ghost predicate StaysRefused(trace: seq<State>, i: nat, k: nat)
    requires k + 1 < |trace|
  {
    i < |trace[k].conns| && Refused(trace[k].conns[i]) ==>
      i < |trace[k + 1].conns| && Refused(trace[k + 1].conns[i])
  }

  lemma TraceStaysRefused(server: seq<byte>, trace: seq<State>, events: seq<Event>, i: nat, k: nat)
    requires IsRun(server, trace, events) && Inv(server, trace[0]) && k < |events| && !events[k].Start?
    ensures StaysRefused(trace, i, k)
  {
    RunKeepsInv(server, trace, events, k);
    if i < |trace[k].conns| && Refused(trace[k].conns[i]) {
      StepStaysRefused(server, trace[k], events[k], i);
    }
  }

  lemma {:induction false} RefusedUntil(trace: seq<State>, i: nat, j: nat, k: nat)
    requires j <= k < |trace| && i < |trace[j].conns| && Refused(trace[j].conns[i])
    requires forall m :: j <= m < k ==> StaysRefused(trace, i, m)
    ensures i < |trace[k].conns| && Refused(trace[k].conns[i])
    decreases k - j
  {
    if j < k {
      RefusedUntil(trace, i, j, k - 1);
      assert StaysRefused(trace, i, k - 1);
    }
  }

  lemma RefusedOwes(server: seq<byte>, s: State, i: nat)
    requires Inv(server, s) && i < |s.conns| && Refused(s.conns[i])
    ensures s.conns[i].chunk.Remain() > 0
  {
    assert ConnOk(server, s.file, s.prefix, s.conns[i]);
  }

  /** In every run, a connection that has met a 403 sends no request again until the next start,
      and the bytes it owes stay owed: nobody takes them over. */
  lemma RefusedNeverRetries(server: seq<byte>, trace: seq<State>, events: seq<Event>, i: nat, j: nat, k: nat)
    requires IsRun(server, trace, events) && Inv(server, trace[0]) && j <= k < |trace|
    requires i < |trace[j].conns| && trace[j].conns[i].phase == Erring(Http(403))
    requires forall m :: j <= m < k ==> !events[m].Start?
    ensures i < |trace[k].conns| && Refused(trace[k].conns[i]) && trace[k].conns[i].chunk.Remain() > 0
  {
    forall m | j <= m < k ensures StaysRefused(trace, i, m) {
      TraceStaysRefused(server, trace, events, i, m);
    }
    RefusedUntil(trace, i, j, k);
    RunKeepsInv(server, trace, events, k);
    RefusedOwes(server, trace[k], i);
  }
}
