/** Bounds on a ranged download: how often ranges are divided, why work without errors
    comes to an end, how slow start grows, and whom a helper picks. */
module RangedBounds {
  import opened Basics
  import opened Sums
  import opened RangedDownload
  import opened RangedInvariant
  import opened RangedTheorems
  import SlowStart

  // ----- Fragmentation -----

  function Extents(): Conn -> int { (c: Conn) => c.chunk.Extent() }

  function RetiredExtents(): Chunk -> int { (c: Chunk) => c.Extent() }

  /** Offsets of a range that are below n. */
  function BelowIn(c: Chunk, n: int): int {
    if n <= c.begin then 0 else if n > c.end then c.Extent() else n - c.begin
  }

  function OwnedBelow(n: int): Conn -> int { (c: Conn) => BelowIn(c.chunk, n) }

  function RetiredBelow(n: int): Chunk -> int { (c: Chunk) => BelowIn(c, n) }

  /** Summing the cover over the offsets below n counts, range by range, the offsets below n. */
  function CoverBelow(conns: seq<Conn>, retired: seq<Chunk>, n: nat): int {
    if n == 0 then 0 else CoverBelow(conns, retired, n - 1) + Cover(conns, retired, n - 1)
  }

  lemma {:induction false} SumOfTwo<T>(s: seq<T>, f: T -> int, g: T -> int, h: T -> int)
    requires forall k :: 0 <= k < |s| ==> h(s[k]) == f(s[k]) + g(s[k])
    ensures Sum(s, h) == Sum(s, f) + Sum(s, g)
  {
    if s != [] {
      SumOfTwo(s[..|s| - 1], f, g, h);
    }
  }

  lemma {:induction false} CoverBelowCountsOffsets(conns: seq<Conn>, retired: seq<Chunk>, n: nat)
    requires forall i :: 0 <= i < |conns| ==> 0 <= conns[i].chunk.begin <= conns[i].chunk.end
    requires forall r :: 0 <= r < |retired| ==> 0 <= retired[r].begin <= retired[r].end
    ensures CoverBelow(conns, retired, n) == Sum(conns, OwnedBelow(n)) + Sum(retired, RetiredBelow(n))
  {
    if n == 0 {
      SumZero(conns, OwnedBelow(0));
      SumZero(retired, RetiredBelow(0));
    } else {
      CoverBelowCountsOffsets(conns, retired, n - 1);
      SumOfTwo(conns, OwnedBelow(n - 1), OwnsOffset(n - 1), OwnedBelow(n));
      SumOfTwo(retired, RetiredBelow(n - 1), HoldsOffset(n - 1), RetiredBelow(n));
    }
  }

  lemma {:induction false} TiledCoverBelow(conns: seq<Conn>, retired: seq<Chunk>, from: int, to: int, n: nat)
    requires Tiled(conns, retired, from, to) && 0 <= from <= to && n <= to
    ensures CoverBelow(conns, retired, n) == if n <= from then 0 else n - from
  {
    if n > 0 {
      TiledCoverBelow(conns, retired, from, to, n - 1);
      assert Cover(conns, retired, n - 1) == if from <= n - 1 < to then 1 else 0;
    }
  }

  /** Conservation: the lengths of all ranges add up to the bytes beyond the prefix. */
  lemma ExtentsAddUp(server: seq<byte>, s: State)
    requires Inv(server, s) && s.conns != []
    ensures Sum(s.conns, Extents()) + Sum(s.retired, RetiredExtents()) == s.size - s.prefix
  {
    forall i | 0 <= i < |s.conns|
      ensures s.prefix <= s.conns[i].chunk.begin <= s.conns[i].chunk.end < s.size
    {
      assert ConnOk(server, s.file, s.prefix, s.conns[i]);
    }
    forall r | 0 <= r < |s.retired|
      ensures s.prefix <= s.retired[r].begin <= s.retired[r].end < s.size
    {
      assert RetiredOk(server, s.file, s.prefix, s.retired[r]);
    }
    assert s.prefix <= s.conns[0].chunk.begin;
    CoverBelowCountsOffsets(s.conns, s.retired, s.size);
    TiledCoverBelow(s.conns, s.retired, s.prefix, s.size, s.size);
    SumPointwise(s.conns, Extents(), s.conns, OwnedBelow(s.size));
    SumPointwise(s.retired, RetiredExtents(), s.retired, RetiredBelow(s.size));
  }

  /** Ranges divided by one event: the splits of a batch, or one theft. */
  function Divided(s: State, e: Event): int
    requires Possible(s, e)
  {
    match e
    case Expand => |Next(s, e).conns| - |s.conns|
    case Help(h) => if Slowest(s.conns, h) >= 0 then 1 else 0
    case _ => 0
  }

  ghost function Divisions(server: seq<byte>, trace: seq<State>, events: seq<Event>, k: nat): int
    requires IsRun(server, trace, events) && k < |trace|
  {
    if k == 0 then 0
    else Divisions(server, trace, events, k - 1) + Divided(trace[k - 1], events[k - 1])
  }

  /** Ranges beyond the first. */
  function Excess(s: State): int {
    |s.conns| + |s.retired| - if s.conns == [] then 0 else 1
  }

  lemma LocalCountsRanges(s: State, e: Event)
    requires Possible(s, e) && Local(e)
    ensures Excess(Next(s, e)) == Excess(s)
  {
  }

  lemma HelpCountsRanges(s: State, h: nat)
    requires Possible(s, Help(h))
    ensures Excess(HelpState(s, h)) == Excess(s) + if Slowest(s.conns, h) >= 0 then 1 else 0
  {
  }

  lemma ExpandCountsRanges(server: seq<byte>, s: State)
    requires Inv(server, s) && Possible(s, Expand)
    ensures Excess(ExpandState(s)) == Excess(s) + |ExpandState(s).conns| - |s.conns|
  {
    ExpandExtends(s);
  }

  lemma StartCountsRanges(s: State)
    requires Possible(s, Start) && (s.conns == [] ==> s.retired == [])
    ensures Excess(StartState(s)) == Excess(s)
  {
  }

  /** Each division adds one range, and nothing else adds or removes any. */
  lemma NextCountsRanges(server: seq<byte>, s: State, e: Event)
    requires Inv(server, s) && Enabled(server, s, e)
    ensures Excess(Next(s, e)) == Excess(s) + Divided(s, e)
  {
    if Local(e) {
      LocalCountsRanges(s, e);
    } else if e.Help? {
      HelpCountsRanges(s, e.i);
    } else if e.Expand? {
      ExpandCountsRanges(server, s);
    } else if e.Start? {
      StartCountsRanges(s);
    } else {
      StageKeepsRanges(s, e);
    }
  }

  lemma StepCountsRanges(server: seq<byte>, trace: seq<State>, events: seq<Event>, k: nat)
    requires IsRun(server, trace, events) && Inv(server, trace[0]) && k < |events|
    ensures Excess(trace[k + 1]) - Excess(trace[k]) ==
            Divisions(server, trace, events, k + 1) - Divisions(server, trace, events, k)
  {
    RunKeepsInv(server, trace, events, k);
    NextCountsRanges(server, trace[k], events[k]);
  }

  lemma {:induction false} DivisionsCountRanges(server: seq<byte>, trace: seq<State>, events: seq<Event>, k: nat)
    requires IsRun(server, trace, events) && Inv(server, trace[0]) && k < |trace|
    ensures Excess(trace[k]) == Excess(trace[0]) + Divisions(server, trace, events, k)
  {
    if k > 0 {
      DivisionsCountRanges(server, trace, events, k - 1);
      StepCountsRanges(server, trace, events, k - 1);
    }
  }

  /** In any state ranges are so long that few of them fit. */
  lemma ExcessIsBounded(server: seq<byte>, s: State)
    requires Inv(server, s) && Excess(s) > 0
    ensures (1 + Excess(s)) * MIN_EXTENT <= s.size - s.prefix
  {
    ExtentsAddUp(server, s);
    assert NoneShort(s.conns, s.retired);
    SumAtLeast(s.conns, Extents(), MIN_EXTENT);
    SumAtLeast(s.retired, RetiredExtents(), MIN_EXTENT);
  }

  /** Over a whole run, however it is paused, resumed and retried, ranges are divided so
      seldom that each of them keeps MIN_EXTENT bytes. */
  lemma DivisionsAreBounded(server: seq<byte>, trace: seq<State>, events: seq<Event>, k: nat)
    requires IsRun(server, trace, events) && Inv(server, trace[0]) && trace[0].conns == [] && k < |trace|
    requires Divisions(server, trace, events, k) > 0
    ensures (1 + Divisions(server, trace, events, k)) * MIN_EXTENT <= trace[k].size - trace[k].prefix
  {
    RunKeepsInv(server, trace, events, k);
    DivisionsCountRanges(server, trace, events, k);
    ExcessIsBounded(server, trace[k]);
  }

  /** The divisions behind a state of a life: those of its session, and those that the
      snapshot it was restored from had seen. */
  ghost function LifeDivisions(server: seq<byte>, life: seq<Session>, taken: seq<nat>, j: nat, k: nat): int
    requires |taken| == |life| && j < |life| && k < |life[j].trace|
    requires forall i :: 0 <= i < |life| ==>
               IsRun(server, life[i].trace, life[i].events) && taken[i] < |life[i].trace|
    decreases j
  {
    Divisions(server, life[j].trace, life[j].events, k) +
    if j == 0 then 0 else LifeDivisions(server, life, taken, j - 1, taken[j - 1])
  }

  /** A restore brings back exactly the ranges of the snapshot. */
  lemma RestoreKeepsExcess(server: seq<byte>, s: State, file: seq<byte>)
    requires Inv(server, s)
    ensures Excess(Restore(Store(s), file, s.retired, s.prefix, s.max)) == Excess(s)
  {
  }

  /** The ranges a session begins with: none beyond the first, or those of the snapshot. */
  lemma SessionBeginsWith(server: seq<byte>, file: seq<byte>, prefix: nat, max: int,
                          life: seq<Session>, taken: seq<nat>, j: nat)
    requires IsLife(server, file, prefix, max, life, taken) && j < |life|
    ensures Excess(life[j].trace[0]) == if j == 0 then 0 else Excess(life[j - 1].trace[taken[j - 1]])
  {
    if j > 0 {
      assert Continues(life[j - 1], taken[j - 1], life[j]);
      LifeKeepsInv(server, file, prefix, max, life, taken, j - 1, taken[j - 1]);
      var before := life[j - 1];
      RestoreKeepsExcess(server, before.trace[taken[j - 1]], before.trace[|before.trace| - 1].file);
    }
  }

  lemma SessionCountsRanges(server: seq<byte>, file: seq<byte>, prefix: nat, max: int,
                            life: seq<Session>, taken: seq<nat>, j: nat, k: nat)
    requires IsLife(server, file, prefix, max, life, taken) && j < |life| && k < |life[j].trace|
    ensures Excess(life[j].trace[k]) ==
            Excess(life[j].trace[0]) + Divisions(server, life[j].trace, life[j].events, k)
  {
    LifeKeepsInv(server, file, prefix, max, life, taken, j, 0);
    DivisionsCountRanges(server, life[j].trace, life[j].events, k);
  }

  lemma {:induction false} LifeDivisionsCountRanges(server: seq<byte>, file: seq<byte>, prefix: nat, max: int,
                                                    life: seq<Session>, taken: seq<nat>, j: nat, k: nat)
    requires IsLife(server, file, prefix, max, life, taken) && j < |life| && k < |life[j].trace|
    ensures Excess(life[j].trace[k]) == LifeDivisions(server, life, taken, j, k)
    decreases j
  {
    SessionCountsRanges(server, file, prefix, max, life, taken, j, k);
    SessionBeginsWith(server, file, prefix, max, life, taken, j);
    if j > 0 {
      LifeDivisionsCountRanges(server, file, prefix, max, life, taken, j - 1, taken[j - 1]);
    }
  }

  /** The same bound over a whole life, across every crash and restore. */
  lemma LifeDivisionsAreBounded(server: seq<byte>, file: seq<byte>, prefix: nat, max: int,
                                life: seq<Session>, taken: seq<nat>, j: nat, k: nat)
    requires IsLife(server, file, prefix, max, life, taken) && j < |life| && k < |life[j].trace|
    requires LifeDivisions(server, life, taken, j, k) > 0
    ensures (1 + LifeDivisions(server, life, taken, j, k)) * MIN_EXTENT <= |server| - life[j].trace[k].prefix
  {
    LifeKeepsInv(server, file, prefix, max, life, taken, j, k);
    LifeDivisionsCountRanges(server, file, prefix, max, life, taken, j, k);
    ExcessIsBounded(server, life[j].trace[k]);
  }

  // ----- Termination -----

  /** A running connection whose range has nothing left. */
  function Idle(): Conn -> int {
    (c: Conn) => if !c.phase.Stopped? && c.chunk.Remain() <= 0 then 1 else 0
  }

  function Owed(s: State): int { Sum(s.conns, RemainingBytes()) }

  function Slots(s: State): int { s.max - |s.conns| }

  function IdleCount(s: State): int { Sum(s.conns, Idle()) }

  ghost predicate Decreases(s: State, t: State) {
    || Owed(t) < Owed(s)
    || (Owed(t) == Owed(s) && Slots(t) < Slots(s))
    || (Owed(t) == Owed(s) && Slots(t) == Slots(s) && IdleCount(t) < IdleCount(s))
  }

  /** Accounting a read, splitting, stealing and completing. */
  predicate Productive(s: State, e: Event)
    requires Possible(s, e)
  {
    || e.Account? || e.Complete?
    || (e.Help? && Slowest(s.conns, e.i) >= 0)
    || (e.Expand? && |Next(s, e).conns| > |s.conns|)
  }

  lemma MeasureBounds(server: seq<byte>, s: State)
    requires Inv(server, s)
    ensures Owed(s) >= 0 && Slots(s) >= 0 && IdleCount(s) >= 0
  {
    forall i | 0 <= i < |s.conns|
      ensures RemainingBytes()(s.conns[i]) >= 0
    {
      assert ConnOk(server, s.file, s.prefix, s.conns[i]);
    }
    SumNonNegative(s.conns, RemainingBytes());
    SumNonNegative(s.conns, Idle());
  }

  /** Helping leaves one running connection fewer with nothing left. */
  lemma HelpReducesIdle(server: seq<byte>, s: State, h: nat)
    requires Inv(server, s) && Possible(s, Help(h))
    ensures IdleCount(HelpState(s, h)) == IdleCount(s) - if Slowest(s.conns, h) >= 0 then 1 else 0
  {
    var v := Slowest(s.conns, h);
    assert ConnOk(server, s.file, s.prefix, s.conns[h]);
    if v < 0 {
      SumUpdate(s.conns, h, s.conns[h].(phase := Completing), Idle());
    } else {
      assert ConnOk(server, s.file, s.prefix, s.conns[v]);
      StealSum(s.conns, h, v, Idle());
    }
  }

  lemma LocalIdle(server: seq<byte>, s: State, e: Event)
    requires Inv(server, s) && Possible(s, e) && Local(e)
    ensures IdleCount(Next(s, e)) <= IdleCount(s) + if e.Account? then 1 else if e.Complete? then -1 else 0
  {
    assert ConnOk(server, s.file, s.prefix, s.conns[e.i]);
    SumUpdate(s.conns, e.i, ConnStep(s.conns[e.i], e), Idle());
  }

  lemma SplitUpToKeepsIdle(server: seq<byte>, file: seq<byte>, prefix: int,
                           conns: seq<Conn>, retired: seq<Chunk>, n: nat)
    requires Layout(server, file, prefix, conns, retired)
    ensures Sum(SplitUpTo(conns, n), Idle()) == Sum(conns, Idle())
    decreases n
  {
    var v := Largest(conns);
    if n != 0 && v >= 0 {
      assert ConnOk(server, file, prefix, conns[v]);
      SplitSum(conns, v, Idle());
      SplitKeepsLayout(server, file, prefix, conns, retired, v);
      SplitUpToKeepsIdle(server, file, prefix, Split(conns, v), retired, n - 1);
    }
  }

  lemma ExpandKeepsIdle(server: seq<byte>, s: State)
    requires Inv(server, s) && Possible(s, Expand)
    ensures IdleCount(Next(s, Expand)) == IdleCount(s)
  {
    var batch := SlowStart.BatchSize(s.slow);
    if batch > 0 {
      SplitUpToKeepsIdle(server, s.file, s.prefix, s.conns, s.retired, batch);
    }
  }

  lemma NextOwed(server: seq<byte>, s: State, e: Event)
    requires Inv(server, s) && Enabled(server, s, e) && !e.Start?
    ensures Owed(Next(s, e)) == Owed(s) - (if e.Account? then s.conns[e.i].phase.count else 0)
    ensures e.Account? ==> s.conns[e.i].phase.count >= 1
  {
    if s.conns != [] {
      NextReducesRemaining(server, s, e);
    }
    if e.Account? {
      assert ConnOk(server, s.file, s.prefix, s.conns[e.i]);
    }
  }

  lemma NextSlots(server: seq<byte>, s: State, e: Event)
    requires Inv(server, s) && Enabled(server, s, e) && !e.Start?
    ensures var t := Next(s, e);
            Slots(t) <= Slots(s) && (Slots(t) < Slots(s) <==> e.Expand? && |t.conns| > |s.conns|)
  {
    if Local(e) {
      LocalKeepsSlots(s, e);
    } else if e.Expand? {
      ExpandExtends(s);
    } else if !e.Help? {
      StageKeepsRanges(s, e);
    }
  }

  lemma LocalKeepsSlots(s: State, e: Event)
    requires Possible(s, e) && Local(e)
    ensures Slots(Next(s, e)) == Slots(s) && |Next(s, e).conns| == |s.conns|
  {
  }

  lemma NextIdle(server: seq<byte>, s: State, e: Event)
    requires Inv(server, s) && Enabled(server, s, e) && !e.Start?
    ensures IdleCount(Next(s, e)) <= IdleCount(s) +
              if e.Account? then 1 else if e.Complete? || (e.Help? && Slowest(s.conns, e.i) >= 0) then -1 else 0
  {
    if Local(e) {
      LocalIdle(server, s, e);
    } else {
      GlobalIdle(server, s, e);
    }
  }

  lemma GlobalIdle(server: seq<byte>, s: State, e: Event)
    requires Inv(server, s) && Possible(s, e) && !Local(e) && !e.Start?
    ensures IdleCount(Next(s, e)) ==
            IdleCount(s) - if e.Help? && Slowest(s.conns, e.i) >= 0 then 1 else 0
  {
    if e.Help? {
      HelpReducesIdle(server, s, e.i);
    } else if e.Expand? {
      ExpandKeepsIdle(server, s);
    } else if e.Commit? {
      CommitKeepsIdle(s);
    }
  }

  lemma CommitKeepsIdle(s: State)
    requires Possible(s, Commit)
    ensures IdleCount(Next(s, Commit)) == IdleCount(s)
  {
    SumPointwise(CommitState(s).conns, Idle(), s.conns, Idle());
  }

  /** Every productive event strictly decreases, lexicographically, the bytes still owed,
      the connections not yet launched, and the running connections with nothing left. */
  lemma ProductiveEventsDecrease(server: seq<byte>, s: State, e: Event)
    requires Inv(server, s) && Enabled(server, s, e) && Productive(s, e)
    ensures Decreases(s, Next(s, e))
    ensures Owed(Next(s, e)) >= 0 && Slots(Next(s, e)) >= 0 && IdleCount(Next(s, e)) >= 0
  {
    NextOwed(server, s, e);
    NextSlots(server, s, e);
    NextIdle(server, s, e);
    NextKeepsInv(server, s, e);
    MeasureBounds(server, Next(s, e));
  }

  ghost function ProductiveCount(server: seq<byte>, trace: seq<State>, events: seq<Event>, k: nat): int
    requires IsRun(server, trace, events) && k < |trace|
  {
    if k == 0 then 0
    else ProductiveCount(server, trace, events, k - 1) + if Productive(trace[k - 1], events[k - 1]) then 1 else 0
  }

  /** Twice the bytes owed, plus the connections not yet launched, plus the idle ones. */
  function Work(s: State): int { 2 * Owed(s) + Slots(s) + IdleCount(s) }

  lemma StepWorks(server: seq<byte>, trace: seq<State>, events: seq<Event>, k: nat)
    requires IsRun(server, trace, events) && Inv(server, trace[0]) && k < |events| && !events[k].Start?
    ensures ProductiveCount(server, trace, events, k + 1) + Work(trace[k + 1])
            <= ProductiveCount(server, trace, events, k) + Work(trace[k])
  {
    RunKeepsInv(server, trace, events, k);
    NextOwed(server, trace[k], events[k]);
    NextSlots(server, trace[k], events[k]);
    NextIdle(server, trace[k], events[k]);
  }

  ghost predicate OneSession(events: seq<Event>, k: nat)
    requires k <= |events|
  {
    forall m :: 0 <= m < k ==> !events[m].Start?
  }

  lemma {:induction false} WorkIsSpent(server: seq<byte>, trace: seq<State>, events: seq<Event>, k: nat)
    requires IsRun(server, trace, events) && Inv(server, trace[0]) && k < |trace| && OneSession(events, k)
    ensures ProductiveCount(server, trace, events, k) + Work(trace[k]) <= Work(trace[0])
  {
    if k > 0 {
      assert !events[k - 1].Start?;
      WorkIsSpent(server, trace, events, k - 1);
      StepWorks(server, trace, events, k - 1);
    }
  }

  lemma WorkIsNonNegative(server: seq<byte>, trace: seq<State>, events: seq<Event>, k: nat)
    requires IsRun(server, trace, events) && Inv(server, trace[0]) && k < |trace|
    ensures Work(trace[k]) >= 0
  {
    RunKeepsInv(server, trace, events, k);
    MeasureBounds(server, trace[k]);
  }

  /** Work within one session comes to an end: however the goroutines interleave and
      whatever fails, the productive events are at most twice the bytes owed at first, plus
      the connections not yet launched, plus those with nothing left. */
  lemma ProductiveEventsAreBounded(server: seq<byte>, trace: seq<State>, events: seq<Event>, k: nat)
    requires IsRun(server, trace, events) && Inv(server, trace[0]) && k < |trace| && OneSession(events, k)
    ensures ProductiveCount(server, trace, events, k) <= Work(trace[0])
  {
    WorkIsSpent(server, trace, events, k);
    WorkIsNonNegative(server, trace, events, k);
  }

  // ----- Slow start -----

  /** In every state of a first session the controller counts the connections, but for a
      batch about to be committed, and they grow at most exponentially up to the configured
      maximum. */
  lemma ConnectionsGrowExponentially(server: seq<byte>, s: State)
    requires Inv(server, s) && s.conns != [] && (s.loop.Expanding? || InRound(s.loop))
    ensures |s.conns| == s.slow.launched + if s.loop.Committing? then s.loop.count else 0
    ensures var rounds := s.slow.batches + if s.loop.Committing? then 1 else 0;
            |s.conns| <= Min(s.max, SlowStart.Pow2(rounds) - 1)
    ensures s.slow.full && !s.loop.Committing? ==> |s.conns| == Min(s.max, SlowStart.Pow2(s.slow.batches) - 1)
  {
    assert SlowStart.Pow2(s.slow.batches + 1) == 2 * SlowStart.Pow2(s.slow.batches);
  }

  /** Each round of the expander splits off at least one connection and at most the batch, or
      ends the expansion. */
  lemma ExpansionProgresses(server: seq<byte>, s: State)
    requires Inv(server, s) && Possible(s, Expand)
    ensures var t := Next(s, Expand);
            || (t.loop.Waiting? && t.stage.Steady? && t.conns == s.conns)
            || (t.loop.Committing? && t.loop.count == |t.conns| - |s.conns|
                && 1 <= t.loop.count <= SlowStart.BatchSize(s.slow) && CreatedAre(t.conns, |s.conns|))
  {
    ExpandKeepsInv(server, s);
    ExpandExtends(s);
    var batch := SlowStart.BatchSize(s.slow);
    if batch > 0 {
      NoSplit(s.conns, batch);
    }
  }

  /** Committing launches exactly what was split off. */
  lemma CommitLaunchesBatch(server: seq<byte>, s: State, i: nat)
    requires Inv(server, s) && Possible(s, Commit) && i < |s.conns|
    ensures var t := Next(s, Commit);
            && t.slow.launched == |t.conns| == |s.conns|
            && t.conns[i] == if i < s.slow.launched then s.conns[i] else s.conns[i].(phase := Launched)
  {
  }

  /** A batch that launches nothing leaves every range as it was. */
  lemma NoSplit(conns: seq<Conn>, n: nat)
    ensures |SplitUpTo(conns, n)| == |conns| ==> SplitUpTo(conns, n) == conns
  {
    var v := Largest(conns);
    if n != 0 && v >= 0 {
      SplitUpToExtends(Split(conns, v), n - 1);
    }
  }

  /** The first round launches one connection for everything beyond the prefix, or finds
      the prefetch has covered the file. */
  lemma FirstRound(server: seq<byte>, s: State)
    requires Inv(server, s) && Possible(s, Start) && s.conns == []
    ensures var t := Next(s, Start);
            if s.prefix >= s.size then t.stage.Done? && t.conns == []
            else && |t.conns| == 1 && t.slow.launched == 1 && t.conns[0].phase.Launched?
                 && t.conns[0].chunk == Chunk(s.prefix, s.size - 1, 0)
                 && Sum(t.conns, FetchedBytes()) == s.prefix
  {
    var t := Next(s, Start);
    if s.prefix < s.size {
      assert t.conns[..0] == [];
    }
  }

  // ----- Choosing whom to help -----

  /** A helper finds a victim exactly when some other connection is worth robbing, and it is
      the first of those that need the most seconds. */
  lemma {:induction false} SlowestIsFirstMaximum(conns: seq<Conn>, helper: int, i: nat)
    requires i < |conns| && i != helper && Robbable(conns[i])
    ensures var v := Slowest(conns, helper);
            && v >= 0
            && RemainSeconds(conns[i]) <= RemainSeconds(conns[v])
            && (i < v ==> RemainSeconds(conns[i]) < RemainSeconds(conns[v]))
  {
    var n := |conns| - 1;
    if i < n {
      SlowestIsFirstMaximum(conns[..n], helper, i);
    }
  }

  /** Likewise for the range a new connection splits. */
  lemma {:induction false} LargestIsFirstMaximum(conns: seq<Conn>, i: nat)
    requires i < |conns| && Splittable(conns[i])
    ensures var v := Largest(conns);
            && v >= 0
            && conns[i].chunk.Remain() <= conns[v].chunk.Remain()
            && (i < v ==> conns[i].chunk.Remain() < conns[v].chunk.Remain())
  {
    var n := |conns| - 1;
    if i < n {
      LargestIsFirstMaximum(conns[..n], i);
    }
  }

  // ----- Giving up on a 403 -----

  /** Resuming leaves a range abandoned to a 403 alone ... */
  lemma ResumeSkipsAbandoned(s: State, i: nat)
    requires Possible(s, Start) && s.stage.Paused? && i < |s.conns| && Abandoned(s.conns[i])
    ensures Next(s, Start).conns[i] == s.conns[i]
  {
  }

  /** ... but failure flags are not saved, so after a restore every unfinished range is
      taken up again. */
  lemma RestoreRetriesEverything(server: seq<byte>, s: State, file: seq<byte>, i: nat)
    requires Inv(server, s) && Improves(server, s.file, file) && i < |s.conns|
    ensures var t := Restore(Store(s), file, s.retired, s.prefix, s.max);
            && Enabled(server, t, Start)
            && (Next(t, Start).conns[i].phase.Launched? <==> !s.conns[i].completed)
            && (s.conns[i].chunk.Remain() > 0 ==> Next(t, Start).conns[i].phase.Launched?)
  {
    assert ConnOk(server, s.file, s.prefix, s.conns[i]);
  }

  // ----- Runs, step by step -----

  lemma RunExtends(server: seq<byte>, trace: seq<State>, events: seq<Event>, e: Event)
    returns (longer: seq<State>, more: seq<Event>)
    requires IsRun(server, trace, events) && Enabled(server, trace[|events|], e)
    ensures longer == trace + [Next(trace[|events|], e)] && more == events + [e] && IsRun(server, longer, more)
  {
    longer, more := trace + [Next(trace[|events|], e)], events + [e];
    forall k | 0 <= k < |more|
      ensures Enabled(server, longer[k], more[k]) && longer[k + 1] == Next(longer[k], more[k])
    {
      if k < |events| {
        assert more[k] == events[k] && longer[k] == trace[k] && longer[k + 1] == trace[k + 1];
      }
    }
  }

  /** A download with nothing prefetched whose only connection is c. */
  function Alone(file: seq<byte>, max: int, c: Conn, slow: SlowStart.Controller): State {
    Fresh(file, 0, max).(conns := [c], slow := slow, stage := SlowStarting, loop := Expanding)
  }

  lemma AloneStarts(server: seq<byte>, file: seq<byte>, max: int)
    requires |file| == |server| > 0 && max >= 1
    ensures Enabled(server, Fresh(file, 0, max), Start)
    ensures Next(Fresh(file, 0, max), Start) ==
            Alone(file, max, FirstConn(0, |file|), SlowStart.Commit(SlowStart.New(max), 1))
  {
  }

  lemma AloneSteps(server: seq<byte>, file: seq<byte>, max: int, c: Conn, slow: SlowStart.Controller, e: Event)
    requires Local(e) && e.i == 0 && !e.Write? && !e.WriteError? && !e.Quit?
    requires ConnPossible(c, e) && Honest(server, c, e)
    ensures Enabled(server, Alone(file, max, c, slow), e)
    ensures Next(Alone(file, max, c, slow), e) == Alone(file, max, ConnStep(c, e), SlowStep(slow, e))
  {
    assert [c][0 := ConnStep(c, e)] == [ConnStep(c, e)];
  }

  lemma AloneRuns(server: seq<byte>, trace: seq<State>, events: seq<Event>,
                  file: seq<byte>, max: int, c: Conn, slow: SlowStart.Controller, e: Event)
    returns (longer: seq<State>, more: seq<Event>)
    requires IsRun(server, trace, events) && trace[|events|] == Alone(file, max, c, slow)
    requires Local(e) && e.i == 0 && !e.Write? && !e.WriteError? && !e.Quit?
    requires ConnPossible(c, e) && Honest(server, c, e)
    ensures IsRun(server, longer, more) && longer[0] == trace[0]
    ensures longer[|more|] == Alone(file, max, ConnStep(c, e), SlowStep(slow, e))
  {
    AloneSteps(server, file, max, c, slow, e);
    longer, more := RunExtends(server, trace, events, e);
  }

  /** The first connection of a fresh download sends its request. */
  lemma FirstRequest(server: seq<byte>, file: seq<byte>, max: int) returns (trace: seq<State>, events: seq<Event>)
    requires |file| == |server| > 0 && max >= 1
    ensures IsRun(server, trace, events) && trace[0] == Fresh(file, 0, max)
    ensures var c := FirstConn(0, |file|).(state := Connecting, phase := Requesting(|file| - 1));
            trace[|events|] == Alone(file, max, c, SlowStart.Commit(SlowStart.New(max), 1))
  {
    var slow, c := SlowStart.Commit(SlowStart.New(max), 1), FirstConn(0, |file|);
    trace, events := [Fresh(file, 0, max)], [];
    AloneStarts(server, file, max);
    trace, events := RunExtends(server, trace, events, Start);
    trace, events := AloneRuns(server, trace, events, file, max, c, slow, Begin(0));
    c := c.(state := Connecting, phase := Ready);
    trace, events := AloneRuns(server, trace, events, file, max, c, slow, Request(0));
  }

  /** The only connection after it met a 403, at a phase of giving up. */
  function Refused(size: int, phase: Phase): Conn {
    FirstConn(0, size).(state := Failed, failed := true, lastErr := Http(FORBIDDEN), phase := phase)
  }

  /** It meets a 403 and stops. */
  lemma ForbiddenIsReached(server: seq<byte>, file: seq<byte>, max: int)
    returns (trace: seq<State>, events: seq<Event>)
    requires |file| == |server| > 0 && max >= 1
    ensures IsRun(server, trace, events) && trace[0] == Fresh(file, 0, max)
    ensures var slow := SlowStart.ConnectFailed(SlowStart.Commit(SlowStart.New(max), 1));
            slow.signalled && trace[|events|] == Alone(file, max, Refused(|file|, Stopped), slow)
  {
    var slow := SlowStart.Commit(SlowStart.New(max), 1);
    var c := FirstConn(0, |file|).(state := Connecting, phase := Requesting(|file| - 1));
    trace, events := FirstRequest(server, file, max);
    trace, events := AloneRuns(server, trace, events, file, max, c, slow, Fail(0, Http(FORBIDDEN)));
    c := c.(phase := Erring(Http(FORBIDDEN)));
    trace, events := AloneRuns(server, trace, events, file, max, c, slow, Register(0));
    trace, events := AloneRuns(server, trace, events, file, max, Refused(|file|, Reporting), slow, Report(0));
  }

  lemma NothingFetched(file: seq<byte>, max: int, slow: SlowStart.Controller)
    ensures Sum(Alone(file, max, Refused(|file|, Stopped), slow).conns, FetchedBytes()) == 0
  {
    var c := Refused(|file|, Stopped);
    SumAppend([], c, FetchedBytes());
    assert [] + [c] == [c];
  }

  /** The download loop takes the failed connection for the end ... */
  lemma ForbiddenEndsLoop(file: seq<byte>, max: int, slow: SlowStart.Controller)
    requires slow.signalled
    ensures var s := Alone(file, max, Refused(|file|, Stopped), slow);
            var t := s.(slow := slow.(signalled := false), loop := Signalled);
            && Possible(s, Receive) && Next(s, Receive) == t
            && Possible(t, Check) && Next(t, Check) == t.(loop := Waiting)
  {
    assert AllDone([Refused(|file|, Stopped)], |file|);
  }

  /** ... and finds no error to report. */
  lemma ForbiddenFinishes(s: State)
    requires s.stage.SlowStarting? && s.loop.Waiting? && !s.cancelled && s.conns == [Refused(s.size, Stopped)]
    ensures Possible(s, Finish) && Next(s, Finish) == s.(stage := Done, loop := NoLoop)
  {
    assert FinalError(s.conns, s.size) == -1;
  }

  /** A download can end in Done without its last bytes: the only connection meets a 403,
      the expander sees nothing left to wait for, and no error is reported. */
  lemma ForbiddenDownloadEndsDone(server: seq<byte>, file: seq<byte>, max: int)
    returns (trace: seq<State>, events: seq<Event>)
    requires |file| == |server| > 0 && max >= 1 && file != server
    ensures IsRun(server, trace, events)
    ensures trace[0] == Fresh(file, 0, max)
    ensures var last := trace[|trace| - 1];
            last.stage.Done? && last.file == file != server && Sum(last.conns, FetchedBytes()) == 0
  {
    trace, events := ForbiddenIsReached(server, file, max);
    var slow := trace[|events|].slow;
    NothingFetched(file, max, slow);
    ForbiddenEndsLoop(file, max, slow);
    trace, events := RunExtends(server, trace, events, Receive);
    trace, events := RunExtends(server, trace, events, Check);
    ForbiddenFinishes(trace[|events|]);
    trace, events := RunExtends(server, trace, events, Finish);
  }
}
