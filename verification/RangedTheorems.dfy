/** Properties of whole ranged downloads: over every interleaving, every pause, resume and
    retry, and every crash followed by a restore from a saved snapshot. */
module RangedTheorems {
  import opened Basics
  import opened Sums
  import opened RangedDownload
  import opened RangedInvariant
  import SlowStart

  // ----- Runs -----

  /** States and the events between them. */
  ghost predicate IsRun(server: seq<byte>, trace: seq<State>, events: seq<Event>) {
    && |trace| == |events| + 1
    && forall k {:trigger events[k]} :: 0 <= k < |events| ==>
         Enabled(server, trace[k], events[k]) && trace[k + 1] == Next(trace[k], events[k])
  }

  /** What one session of the program adds to the invariant: nothing below the prefetched
      prefix is written, and offsets that were right stay right. */
  ghost predicate Later(server: seq<byte>, s: State, t: State) {
    && t.prefix == s.prefix && t.max == s.max && t.size == s.size
    && Improves(server, s.file, t.file)
    && SameBelow(s.file, t.file, s.prefix)
  }

  ghost predicate SameBelow(file: seq<byte>, file': seq<byte>, prefix: int) {
    |file'| == |file| && forall o :: 0 <= o < prefix && o < |file| ==> file'[o] == file[o]
  }

  lemma NextIsLater(server: seq<byte>, s: State, e: Event)
    requires Inv(server, s) && Enabled(server, s, e)
    ensures Later(server, s, Next(s, e))
  {
    NextImprovesFile(server, s, e);
    if Local(e) {
      LocalKeepsPrefix(server, s, e);
    }
  }

  lemma LocalKeepsPrefix(server: seq<byte>, s: State, e: Event)
    requires Inv(server, s) && Possible(s, e) && Local(e)
    ensures SameBelow(s.file, Next(s, e).file, s.prefix)
  {
    assert ConnOk(server, s.file, s.prefix, s.conns[e.i]);
  }

  lemma {:induction false} RunKeepsInv(server: seq<byte>, trace: seq<State>, events: seq<Event>, k: nat)
    requires IsRun(server, trace, events) && Inv(server, trace[0]) && k < |trace|
    ensures Inv(server, trace[k])
  {
    if k > 0 {
      RunKeepsInv(server, trace, events, k - 1);
      NextKeepsInv(server, trace[k - 1], events[k - 1]);
    }
  }

  lemma StepIsLater(server: seq<byte>, trace: seq<State>, events: seq<Event>, k: nat)
    requires IsRun(server, trace, events) && Inv(server, trace[0]) && k < |events|
    ensures Later(server, trace[k], trace[k + 1])
  {
    RunKeepsInv(server, trace, events, k);
    NextIsLater(server, trace[k], events[k]);
  }

  lemma {:induction false} RunIsLater(server: seq<byte>, trace: seq<State>, events: seq<Event>, j: nat, k: nat)
    requires IsRun(server, trace, events) && Inv(server, trace[0]) && j <= k < |trace|
    ensures Later(server, trace[j], trace[k])
    decreases k - j
  {
    if j < k {
      RunIsLater(server, trace, events, j, k - 1);
      StepIsLater(server, trace, events, k - 1);
    }
  }

  // ----- Lives: sessions separated by crashes -----

  datatype Session = Session(trace: seq<State>, events: seq<Event>)

  /** The next session restores some snapshot of this one, taken at step `k`, onto the file
      as the last step of this one left it. */
  ghost predicate Continues(from: Session, k: nat, to: Session)
    requires k < |from.trace| && to.trace != []
  {
    var s := from.trace[k];
    to.trace[0] == Restore(Store(s), from.trace[|from.trace| - 1].file, s.retired, s.prefix, s.max)
  }

  /** Nothing has been started yet; a pause may have come before the first start. */
  ghost predicate Begins(s: State, file: seq<byte>, prefix: nat, max: int) {
    s == Fresh(file, prefix, max) || s == Fresh(file, prefix, max).(stage := Paused)
  }

  /** A download from its first start through any number of crashes; `taken[j]` is the step
      at which session j was last saved. */
  ghost predicate IsLife(server: seq<byte>, file: seq<byte>, prefix: nat, max: int,
                         life: seq<Session>, taken: seq<nat>)
  {
    && |file| == |server| > 0 && max >= 1
    && |life| == |taken| > 0
    && (forall j :: 0 <= j < |life| ==> IsRun(server, life[j].trace, life[j].events) && taken[j] < |life[j].trace|)
    && Begins(life[0].trace[0], file, prefix, max)
    && (forall j :: 0 <= j < |life| - 1 ==> Continues(life[j], taken[j], life[j + 1]))
  }

  /** A snapshot is never ahead of the file: the state restored from it, onto the file of
      any later step, again satisfies the invariant. */
  lemma RestoreKeepsInv(server: seq<byte>, s: State, file: seq<byte>)
    requires Inv(server, s) && Improves(server, s.file, file)
    ensures Inv(server, Restore(Store(s), file, s.retired, s.prefix, s.max))
  {
    var t := Restore(Store(s), file, s.retired, s.prefix, s.max);
    if s.conns == [] {
      FreshInv(server, file, 0, s.max);
    } else {
      FreshInv(server, file, s.prefix, s.max);
      forall i | 0 <= i < |s.conns|
        ensures ConnOk(server, file, s.prefix, s.conns[i]) && ConnOk(server, file, s.prefix, t.conns[i])
      {
        ConnImproves(server, s.file, file, s.prefix, s.conns[i]);
      }
      assert Layout(server, file, s.prefix, s.conns, s.retired);
      RelabelKeepsLayout(server, file, s.prefix, s.conns, t.conns, s.retired);
    }
  }

  /** In every state of every life the invariant holds, and the prefetched prefix is as it
      was before the first start. */
  lemma {:induction false} LifeKeepsInv(server: seq<byte>, file: seq<byte>, prefix: nat, max: int,
                                        life: seq<Session>, taken: seq<nat>, j: nat, k: nat)
    requires IsLife(server, file, prefix, max, life, taken) && j < |life| && k < |life[j].trace|
    ensures Inv(server, life[j].trace[k])
    ensures SameBelow(file, life[j].trace[k].file, life[j].trace[k].prefix)
    decreases j, k
  {
    var trace := life[j].trace;
    if k > 0 {
      LifeKeepsInv(server, file, prefix, max, life, taken, j, 0);
      RunKeepsInv(server, trace, life[j].events, k);
      RunIsLater(server, trace, life[j].events, 0, k);
    } else if j > 0 {
      var before := life[j - 1];
      var n := |before.trace| - 1;
      LifeKeepsInv(server, file, prefix, max, life, taken, j - 1, 0);
      LifeKeepsInv(server, file, prefix, max, life, taken, j - 1, taken[j - 1]);
      LifeKeepsInv(server, file, prefix, max, life, taken, j - 1, n);
      RunIsLater(server, before.trace, before.events, taken[j - 1], n);
      RestoreKeepsInv(server, before.trace[taken[j - 1]], before.trace[n].file);
    } else {
      BeginsInv(server, trace[0], file, prefix, max);
    }
  }

  lemma BeginsInv(server: seq<byte>, s: State, file: seq<byte>, prefix: nat, max: int)
    requires |file| == |server| > 0 && max >= 1 && Begins(s, file, prefix, max)
    ensures Inv(server, s)
  {
    FreshInv(server, file, prefix, max);
  }

  // ----- Tiling -----

  /** Two different connections own disjoint ranges, a retired range meets neither a current
      one nor another retired one. */
  lemma RangesAreDisjoint(server: seq<byte>, s: State, i: nat, j: nat, o: int)
    requires Inv(server, s)
    ensures i < j < |s.conns| ==> !(s.conns[i].chunk.Holds(o) && s.conns[j].chunk.Holds(o))
    ensures i < |s.conns| && j < |s.retired| ==> !(s.conns[i].chunk.Holds(o) && s.retired[j].Holds(o))
    ensures i < j < |s.retired| ==> !(s.retired[i].Holds(o) && s.retired[j].Holds(o))
  {
    assert s.conns != [] ==> Cover(s.conns, s.retired, o) <= 1;
    SumNonNegative(s.conns, OwnsOffset(o));
    SumNonNegative(s.retired, HoldsOffset(o));
    if i < j < |s.conns| {
      SumDominatesPair(s.conns, OwnsOffset(o), i, j);
    }
    if i < |s.conns| && j < |s.retired| {
      SumDominates(s.conns, OwnsOffset(o), i);
      SumDominates(s.retired, HoldsOffset(o), j);
    }
    if i < j < |s.retired| {
      SumDominatesPair(s.retired, HoldsOffset(o), i, j);
    }
  }

  /** No gap: every offset beyond the prefix lies in some current or retired range. */
  lemma RangesCoverFile(server: seq<byte>, s: State, o: int)
    requires Inv(server, s) && s.conns != [] && s.prefix <= o < s.size
    ensures (exists i :: 0 <= i < |s.conns| && s.conns[i].chunk.Holds(o))
            || (exists r :: 0 <= r < |s.retired| && s.retired[r].Holds(o))
  {
    assert Cover(s.conns, s.retired, o) == 1;
    if Sum(s.conns, OwnsOffset(o)) > 0 {
      var i := SumPositive(s.conns, OwnsOffset(o));
    } else {
      var r := SumPositive(s.retired, HoldsOffset(o));
    }
  }

  /** Whatever the response holds, a reserved or written read lies inside the range its
      connection owns now, and its bytes are the server's. */
  ghost predicate InFlight(c: Conn, o: int) {
    match c.phase
    case Reserved(_, offset, data, _) => offset <= o < offset + |data|
    case Written(_, count, _) => c.chunk.Next() <= o < c.chunk.Next() + count
    case _ => false
  }

  /** Writes of two connections never share an offset, and none overlaps bytes that any
      connection or retired range has accounted for. */
  lemma WritesAreDisjoint(server: seq<byte>, s: State, i: nat, j: nat, o: int)
    requires Inv(server, s) && i < |s.conns| && j < |s.conns| && i != j
    requires InFlight(s.conns[i], o)
    ensures s.conns[i].chunk.Next() <= o <= s.conns[i].chunk.end
    ensures !InFlight(s.conns[j], o) && !s.conns[j].chunk.Holds(o)
    ensures forall r :: 0 <= r < |s.retired| ==> !s.retired[r].Holds(o)
  {
    assert ConnOk(server, s.file, s.prefix, s.conns[i]) && ConnOk(server, s.file, s.prefix, s.conns[j]);
    RangesAreDisjoint(server, s, if i < j then i else j, if i < j then j else i, o);
    forall r | 0 <= r < |s.retired|
      ensures !s.retired[r].Holds(o)
    {
      RangesAreDisjoint(server, s, i, r, o);
    }
  }

  /** From reserving to accounting, a connection's own events are at most its write. */
  ghost predicate OnlyWrites(events: seq<Event>, j: nat, k: nat, i: nat)
    requires k <= |events|
  {
    forall m :: j <= m < k && Local(events[m]) && events[m].i == i ==> events[m].Write?
  }

  /** The read, reserved or written, as it was reserved. */
  predicate Carries(c: Conn, offset: int, data: seq<byte>, finished: bool) {
    match c.phase
    case Reserved(_, o, d, f) => o == offset && d == data && f == finished
    case Written(_, n, f) => c.chunk.Next() == offset && n == |data| && f == finished
    case _ => false
  }

  /** Nobody else moves the goroutine of a connection on, or the offset it is at. */
  lemma OthersKeepConn(server: seq<byte>, s: State, e: Event, i: nat)
    requires Inv(server, s) && Enabled(server, s, e) && i < |s.conns| && !(Local(e) && e.i == i)
    requires s.conns[i].phase.Reserved? || s.conns[i].phase.Written?
    ensures i < |Next(s, e).conns| && Next(s, e).conns[i].phase == s.conns[i].phase
    ensures Next(s, e).conns[i].chunk.Next() == s.conns[i].chunk.Next()
  {
    if Local(e) {
      LocalKeepsOffset(s, e, i);
    } else if e.Expand? {
      ExpandKeepsOffset(s, i);
    } else if e.Help? {
      HelpKeepsOffset(s, e.i, i);
    } else {
      StageKeepsOffset(s, e, i);
    }
  }

  /** Events of the loop and the stage leave every range as it is. */
  lemma StageKeepsRanges(s: State, e: Event)
    requires Possible(s, e) && !Local(e) && !e.Start? && !e.Expand? && !e.Help?
    ensures var t := Next(s, e);
            && |t.conns| == |s.conns| && t.retired == s.retired && t.max == s.max
            && forall i :: 0 <= i < |s.conns| ==> t.conns[i].chunk == s.conns[i].chunk
  {
  }

  lemma StageKeepsOffset(s: State, e: Event, i: nat)
    requires Possible(s, e) && !Local(e) && !e.Expand? && !e.Help?
    requires i < |s.conns| && (s.conns[i].phase.Reserved? || s.conns[i].phase.Written?)
    ensures i < |Next(s, e).conns| && Next(s, e).conns[i].phase == s.conns[i].phase
    ensures Next(s, e).conns[i].chunk.Next() == s.conns[i].chunk.Next()
  {
    assert !s.conns[i].phase.Stopped?;
  }

  lemma LocalKeepsOffset(s: State, e: Event, i: nat)
    requires Possible(s, e) && Local(e) && i < |s.conns| && i != e.i
    ensures |Next(s, e).conns| == |s.conns| && Next(s, e).conns[i] == s.conns[i]
  {
  }

  lemma HelpKeepsOffset(s: State, h: nat, i: nat)
    requires Possible(s, Help(h)) && i < |s.conns| && i != h
    ensures HelpState(s, h).conns[i].phase == s.conns[i].phase
    ensures HelpState(s, h).conns[i].chunk.Next() == s.conns[i].chunk.Next()
  {
  }

  lemma ExpandKeepsOffset(s: State, i: nat)
    requires i < |s.conns|
    ensures i < |ExpandState(s).conns| && ExpandState(s).conns[i].phase == s.conns[i].phase
    ensures ExpandState(s).conns[i].chunk.Next() == s.conns[i].chunk.Next()
  {
    var batch := SlowStart.BatchSize(s.slow);
    if batch > 0 {
      SplitsKeepOffset(s.conns, batch, i);
    }
  }

  lemma {:induction false} SplitsKeepOffset(conns: seq<Conn>, n: nat, i: nat)
    requires i < |conns|
    ensures i < |SplitUpTo(conns, n)| && SplitUpTo(conns, n)[i].phase == conns[i].phase
    ensures SplitUpTo(conns, n)[i].chunk.Next() == conns[i].chunk.Next()
    decreases n
  {
    var v := Largest(conns);
    if n != 0 && v >= 0 {
      SplitsKeepOffset(Split(conns, v), n - 1, i);
    }
  }

  lemma StepCarries(server: seq<byte>, s: State, e: Event, i: nat, offset: int, data: seq<byte>, finished: bool)
    requires Inv(server, s) && Enabled(server, s, e)
    requires i < |s.conns| && Carries(s.conns[i], offset, data, finished)
    requires Local(e) && e.i == i ==> e.Write?
    ensures i < |Next(s, e).conns| && Carries(Next(s, e).conns[i], offset, data, finished)
  {
    if Local(e) && e.i == i {
      assert ConnOk(server, s.file, s.prefix, s.conns[i]);
    } else {
      OthersKeepConn(server, s, e, i);
    }
  }

  lemma {:induction false} RunCarries(server: seq<byte>, trace: seq<State>, events: seq<Event>,
                                      j: nat, k: nat, i: nat)
    requires IsRun(server, trace, events) && Inv(server, trace[0]) && j <= k < |trace|
    requires i < |trace[j].conns| && trace[j].conns[i].phase.Reserved? && OnlyWrites(events, j, k, i)
    ensures var p := trace[j].conns[i].phase;
            i < |trace[k].conns| && Carries(trace[k].conns[i], p.offset, p.data, p.finished)
    decreases k - j
  {
    if j < k {
      var p := trace[j].conns[i].phase;
      RunCarries(server, trace, events, j, k - 1, i);
      RunKeepsInv(server, trace, events, k - 1);
      StepCarries(server, trace[k - 1], events[k - 1], i, p.offset, p.data, p.finished);
    }
  }

  /** A reserved read is never overrun: whatever splits and thefts other connections carry out
      until it is accounted for, it stays the next stretch of its own range and fits what the
      range has left, and if it was cut to the remainder it is still all of it; once written,
      its bytes are on disk. */
  lemma ReservationHolds(server: seq<byte>, trace: seq<State>, events: seq<Event>, j: nat, k: nat, i: nat)
    requires IsRun(server, trace, events) && Inv(server, trace[0]) && j <= k < |trace|
    requires i < |trace[j].conns| && trace[j].conns[i].phase.Reserved? && OnlyWrites(events, j, k, i)
    ensures var p := trace[j].conns[i].phase;
            && i < |trace[k].conns|
            && var c := trace[k].conns[i];
               && Carries(c, p.offset, p.data, p.finished)
               && c.chunk.Next() == p.offset
               && |p.data| <= c.chunk.Remain()
               && (p.finished ==> |p.data| == c.chunk.Remain())
               && (c.phase.Written? ==> CorrectRange(server, trace[k].file, p.offset, p.offset + |p.data|))
  {
    RunCarries(server, trace, events, j, k, i);
    RunKeepsInv(server, trace, events, k);
    assert ConnOk(server, trace[k].file, trace[k].prefix, trace[k].conns[i]);
  }

  // ----- The byte counter -----

  /** The counter that decides completion agrees with coverage: it reaches the size exactly
      when no range has bytes left, and never exceeds it. */
  lemma CounterMatchesCoverage(server: seq<byte>, s: State)
    requires Inv(server, s) && s.conns != []
    ensures Sum(s.conns, FetchedBytes()) <= s.size
    ensures Sum(s.conns, FetchedBytes()) >= s.size <==>
            forall i :: 0 <= i < |s.conns| ==> s.conns[i].chunk.Remain() == 0
  {
    forall i | 0 <= i < |s.conns|
      ensures RemainingBytes()(s.conns[i]) >= 0
    {
      assert ConnOk(server, s.file, s.prefix, s.conns[i]);
    }
    SumNonNegative(s.conns, RemainingBytes());
    SumZero(s.conns, RemainingBytes());
    assert forall i :: 0 <= i < |s.conns| ==> RemainingBytes()(s.conns[i]) == s.conns[i].chunk.Remain();
  }

  /** Complete ranges mean a complete file beyond the prefix. */
  lemma CompleteRangesAreCorrect(server: seq<byte>, s: State)
    requires Inv(server, s) && s.conns != []
    requires forall i :: 0 <= i < |s.conns| ==> s.conns[i].chunk.Remain() == 0
    ensures CorrectRange(server, s.file, s.prefix, s.size)
  {
    forall o | s.prefix <= o < s.size
      ensures Correct(server, s.file, o)
    {
      FetchedOrOwed(server, s, o);
    }
  }

  /** An offset beyond the prefix is correct on disk, or still owed by a connection. */
  lemma FetchedOrOwed(server: seq<byte>, s: State, o: int)
    requires Inv(server, s) && s.conns != [] && s.prefix <= o < s.size
    ensures Correct(server, s.file, o)
            || exists i :: 0 <= i < |s.conns| && s.conns[i].chunk.Next() <= o <= s.conns[i].chunk.end
  {
    RangesCoverFile(server, s, o);
    if i :| 0 <= i < |s.conns| && s.conns[i].chunk.Holds(o) {
      assert ConnOk(server, s.file, s.prefix, s.conns[i]);
    } else {
      var r :| 0 <= r < |s.retired| && s.retired[r].Holds(o);
      assert RetiredOk(server, s.file, s.prefix, s.retired[r]);
    }
  }

  lemma LocalReducesRemaining(s: State, e: Event)
    requires Possible(s, e) && Local(e)
    ensures Sum(Next(s, e).conns, RemainingBytes()) ==
            Sum(s.conns, RemainingBytes()) - if e.Account? then s.conns[e.i].phase.count else 0
  {
    SumUpdate(s.conns, e.i, ConnStep(s.conns[e.i], e), RemainingBytes());
  }

  lemma HelpKeepsRemaining(server: seq<byte>, s: State, h: nat)
    requires Inv(server, s) && Possible(s, Help(h))
    ensures Sum(HelpState(s, h).conns, RemainingBytes()) == Sum(s.conns, RemainingBytes())
  {
    var v := Slowest(s.conns, h);
    if v < 0 {
      SumUpdate(s.conns, h, s.conns[h].(phase := Completing), RemainingBytes());
    } else {
      StealKeepsLayout(server, s.file, s.prefix, s.conns, s.retired, h, v);
    }
  }

  lemma RelabelKeepsRemaining(conns: seq<Conn>, conns': seq<Conn>)
    requires |conns'| == |conns| && forall i :: 0 <= i < |conns| ==> conns'[i].chunk == conns[i].chunk
    ensures Sum(conns', RemainingBytes()) == Sum(conns, RemainingBytes())
  {
    SumPointwise(conns', RemainingBytes(), conns, RemainingBytes());
  }

  /** No event adds to what the connections still owe, and only accounting reduces it. */
  lemma NextReducesRemaining(server: seq<byte>, s: State, e: Event)
    requires Inv(server, s) && Enabled(server, s, e) && s.conns != []
    ensures Sum(Next(s, e).conns, RemainingBytes()) ==
            Sum(s.conns, RemainingBytes()) - if e.Account? then s.conns[e.i].phase.count else 0
  {
    if Local(e) {
      LocalReducesRemaining(s, e);
    } else if e.Expand? {
      ExpandKeepsSums(server, s);
    } else if e.Help? {
      HelpKeepsRemaining(server, s, e.i);
    } else if e.Start? {
      RelabelKeepsRemaining(s.conns, StartState(s).conns);
    } else {
      StageKeepsRanges(s, e);
      RelabelKeepsRemaining(s.conns, Next(s, e).conns);
    }
  }

  lemma NextKeepsProgress(server: seq<byte>, s: State, e: Event)
    requires Inv(server, s) && Enabled(server, s, e)
    ensures Sum(s.conns, FetchedBytes()) <= Sum(Next(s, e).conns, FetchedBytes())
  {
    if s.conns != [] {
      NextReducesRemaining(server, s, e);
      CountBalances(server, s, e);
    } else if Next(s, e).conns != [] {
      assert Next(s, e).conns[..0] == [];
    }
  }

  /** The counter plus what is owed stays the size, and no read accounts a negative count. */
  lemma CountBalances(server: seq<byte>, s: State, e: Event)
    requires Inv(server, s) && Enabled(server, s, e) && s.conns != []
    ensures var t := Next(s, e);
            Sum(t.conns, FetchedBytes()) + Sum(t.conns, RemainingBytes()) ==
            Sum(s.conns, FetchedBytes()) + Sum(s.conns, RemainingBytes())
    ensures e.Account? ==> s.conns[e.i].phase.count >= 0
  {
    NextKeepsInv(server, s, e);
    NextKeepsConns(server, s, e);
    if e.Account? {
      assert ConnOk(server, s.file, s.prefix, s.conns[e.i]);
    }
  }

  lemma NextKeepsConns(server: seq<byte>, s: State, e: Event)
    requires Inv(server, s) && Possible(s, e) && s.conns != []
    ensures Next(s, e).conns != [] && |Next(s, e).file| == |s.file|
  {
    if e.Expand? {
      ExpandExtends(s);
    }
  }

  lemma StepKeepsProgress(server: seq<byte>, trace: seq<State>, events: seq<Event>, k: nat)
    requires IsRun(server, trace, events) && Inv(server, trace[0]) && k < |events|
    ensures Sum(trace[k].conns, FetchedBytes()) <= Sum(trace[k + 1].conns, FetchedBytes())
  {
    RunKeepsInv(server, trace, events, k);
    NextKeepsProgress(server, trace[k], events[k]);
  }

  /** Reported progress never falls, across pauses, resumes and retries. */
  lemma {:induction false} ProgressIsMonotone(server: seq<byte>, trace: seq<State>, events: seq<Event>, j: nat, k: nat)
    requires IsRun(server, trace, events) && Inv(server, trace[0]) && j <= k < |trace|
    ensures Sum(trace[j].conns, FetchedBytes()) <= Sum(trace[k].conns, FetchedBytes())
    decreases k - j
  {
    if j < k {
      ProgressIsMonotone(server, trace, events, j, k - 1);
      StepKeepsProgress(server, trace, events, k - 1);
    }
  }

  // ----- Outcome -----

  /** When every goroutine has exited uncancelled, the download fails exactly when some
      connection gave up on something other than a 403; otherwise the bytes not fetched are
      exactly the remainders of the connections that gave up on a 403. */
  lemma FinishOutcome(server: seq<byte>, s: State)
    requires Inv(server, s) && Possible(s, Finish)
    ensures Next(s, Finish).stage.Error? <==> exists i :: 0 <= i < |s.conns| && Exhausted(s.conns[i])
    ensures forall i :: 0 <= i < |s.conns| && Exhausted(s.conns[i]) ==> s.conns[i].chunk.Remain() > 0
    ensures Next(s, Finish).stage.Done? ==>
              forall i :: 0 <= i < |s.conns| ==> (s.conns[i].chunk.Remain() > 0 <==> Abandoned(s.conns[i]))
    ensures Next(s, Finish).stage.Done? ==>
              (Sum(s.conns, FetchedBytes()) == s.size <==> forall i :: 0 <= i < |s.conns| ==> !Abandoned(s.conns[i]))
  {
    assert StoppedSettled(s.conns);
    forall i | 0 <= i < |s.conns|
      ensures Settled(s.conns[i]) && ConnOk(server, s.file, s.prefix, s.conns[i])
    {
    }
    CounterMatchesCoverage(server, s);
  }

  /** A download becomes done in one of two events: the last goroutine has exited, or a first
      start finds that the prefix covers the file. */
  ghost predicate BecomesDone(s: State, e: Event)
    requires Possible(s, e)
  {
    (e.Finish? || e.Start?) && Next(s, e).stage.Done?
  }

  /** Either way, unless a range was abandoned, everything beyond the prefix is there. */
  lemma DoneIsCorrect(server: seq<byte>, s: State, e: Event)
    requires Inv(server, s) && Possible(s, e) && BecomesDone(s, e)
    requires forall i :: 0 <= i < |s.conns| ==> !Abandoned(s.conns[i])
    ensures Next(s, e).file == s.file && CorrectRange(server, s.file, s.prefix, |server|)
  {
    if e.Finish? && s.conns != [] {
      FinishOutcome(server, s);
      CounterMatchesCoverage(server, s);
      CompleteRangesAreCorrect(server, s);
    }
  }

  /** In every life: a download that becomes done with no abandoned connection has the
      server's content beyond the prefix, and the whole file is right exactly when the
      prefetched prefix was in place at the first start. */
  lemma DoneMeansComplete(server: seq<byte>, file: seq<byte>, prefix: nat, max: int,
                          life: seq<Session>, taken: seq<nat>, j: nat, k: nat)
    requires IsLife(server, file, prefix, max, life, taken) && j < |life| && k < |life[j].trace|
    requires k < |life[j].events| && Enabled(server, life[j].trace[k], life[j].events[k])
    requires BecomesDone(life[j].trace[k], life[j].events[k])
    requires forall i :: 0 <= i < |life[j].trace[k].conns| ==> !Abandoned(life[j].trace[k].conns[i])
    ensures var s, t := life[j].trace[k], Next(life[j].trace[k], life[j].events[k]);
            && t.file == s.file
            && CorrectRange(server, t.file, s.prefix, |server|)
            && (t.file == server <==> CorrectRange(server, file, 0, Min(s.prefix, |server|)))
  {
    var s := life[j].trace[k];
    LifeKeepsInv(server, file, prefix, max, life, taken, j, k);
    DoneIsCorrect(server, s, life[j].events[k]);
    PrefixDecides(server, file, s.file, s.prefix);
  }

  /** A file that is right beyond the prefix, and was never written below it, is right
      exactly when it was right below the prefix at first. */
  lemma PrefixDecides(server: seq<byte>, file: seq<byte>, file': seq<byte>, prefix: int)
    requires |file| == |server| && SameBelow(file, file', prefix) && 0 <= prefix
    requires CorrectRange(server, file', prefix, |server|)
    ensures file' == server <==> CorrectRange(server, file, 0, Min(prefix, |server|))
  {
    if CorrectRange(server, file, 0, Min(prefix, |server|)) {
      forall o | 0 <= o < |server|
        ensures file'[o] == server[o]
      {
        assert o < prefix ==> Correct(server, file, o);
        assert o >= prefix ==> Correct(server, file', o);
      }
    }
  }
}
