/** Which range is divided and how, in numbers: whom a helper robs, whom the expander splits,
    how much each side gets, when the expander stops, and when the download loop does. */
module RangedChoices {
  import opened Basics
  import opened Sums
  import opened RangedDownload
  import opened RangedInvariant
  import opened RangedTheorems
  import B = RangedBounds
  import SlowStart

  const KB := 1024

  // ----- Whom a helper robs -----

  /** At its measured speed the connection has enough left for n whole seconds; as long as its
      speed is unknown it is taken to have enough for four. */
  predicate Needs(c: Conn, n: nat) {
    if c.speed > 0 then n * c.speed <= c.chunk.Remain() else n <= 4
  }

  predicate Working(c: Conn) {
    !c.completed && !c.state.Failed?
  }

  /** At least 512 KiB and four seconds left. */
  predicate WorthRobbing(c: Conn) {
    Working(c) && c.chunk.Remain() >= 512 * KB && Needs(c, 4)
  }

  /** How often a speed goes into a remainder. */
  lemma WholeSeconds(remain: nat, speed: nat, n: nat)
    requires speed > 0
    ensures n * speed <= remain <==> n <= remain / speed
  {
    var q := remain / speed;
    assert q * speed <= remain < (q + 1) * speed;
    if n <= q {
      assert n * speed <= q * speed;
    } else {
      assert n * speed >= (q + 1) * speed;
    }
  }

  lemma NeedsIff(c: Conn, n: nat)
    requires c.chunk.Remain() >= 0
    ensures Needs(c, n) <==> n <= RemainSeconds(c)
  {
    if c.speed > 0 {
      WholeSeconds(c.chunk.Remain(), c.speed, n);
    }
  }

  lemma WorthRobbingIff(c: Conn)
    ensures WorthRobbing(c) <==> Robbable(c)
  {
    if c.chunk.Remain() >= 0 {
      NeedsIff(c, 4);
    }
  }

  /** Nobody worth robbing needs longer than v, and nobody before v as long. */
  ghost predicate FirstSlowest(conns: seq<Conn>, h: nat, v: nat)
    requires v < |conns|
  {
    && v != h && WorthRobbing(conns[v])
    && (forall i, n: nat :: 0 <= i < |conns| && i != h && WorthRobbing(conns[i]) && Needs(conns[i], n) ==>
          Needs(conns[v], n))
    && (forall i :: 0 <= i < v && i != h && WorthRobbing(conns[i]) ==>
          exists n: nat :: Needs(conns[v], n) && !Needs(conns[i], n))
  }

  lemma SlowestIsFirstSlowest(conns: seq<Conn>, h: nat)
    requires Slowest(conns, h) >= 0
    ensures FirstSlowest(conns, h, Slowest(conns, h))
  {
    var v := Slowest(conns, h);
    WorthRobbingIff(conns[v]);
    forall i, n: nat | 0 <= i < |conns| && i != h && WorthRobbing(conns[i]) && Needs(conns[i], n)
      ensures Needs(conns[v], n)
    {
      WorthRobbingIff(conns[i]);
      B.SlowestIsFirstMaximum(conns, h, i);
      NeedsIff(conns[i], n);
      NeedsIff(conns[v], n);
    }
    forall i | 0 <= i < v && i != h && WorthRobbing(conns[i])
      ensures exists n: nat :: Needs(conns[v], n) && !Needs(conns[i], n)
    {
      WorthRobbingIff(conns[i]);
      B.SlowestIsFirstMaximum(conns, h, i);
      NeedsIff(conns[v], RemainSeconds(conns[v]));
      NeedsIff(conns[i], RemainSeconds(conns[v]));
    }
  }

  /** v keeps the first part of what it had left, `taken` the latter: as good as half each. */
  predicate Halved(before: Chunk, kept: Chunk, taken: Chunk) {
    && kept.begin == before.begin && kept.downloaded == before.downloaded
    && taken.begin == kept.end + 1 && taken.end == before.end && taken.downloaded == 0
  }

  /** What helping comes to: if anybody is worth robbing, the latter half of what the first of
      the slowest has left goes to the helper, which starts on it at once with a clean record,
      and its own finished range is retired; if not, the helper is done.  Nobody else notices. */
  lemma HelpDecides(server: seq<byte>, s: State, h: nat) returns (v: int)
    requires Inv(server, s) && Possible(s, Help(h))
    ensures v >= 0 <==> exists i :: 0 <= i < |s.conns| && i != h && WorthRobbing(s.conns[i])
    ensures v < 0 ==> Next(s, Help(h)) == s.(conns := s.conns[h := s.conns[h].(phase := Completing)])
    ensures v >= 0 ==>
      && v < |s.conns| && FirstSlowest(s.conns, h, v)
      && var t := Next(s, Help(h));
         && |t.conns| == |s.conns| && t.retired == s.retired + [s.conns[h].chunk]
         && Halved(s.conns[v].chunk, t.conns[v].chunk, t.conns[h].chunk)
         && 1 <= t.conns[h].chunk.Remain() - t.conns[v].chunk.Remain() <= 2
         && t.conns[v] == s.conns[v].(chunk := t.conns[v].chunk)
         && t.conns[h] == s.conns[h].(chunk := t.conns[h].chunk, retries := 0, phase := Ready)
         && forall i :: 0 <= i < |s.conns| && i != h && i != v ==> t.conns[i] == s.conns[i]
  {
    v := Slowest(s.conns, h);
    if v >= 0 {
      SlowestIsFirstSlowest(s.conns, h);
    } else {
      forall i | 0 <= i < |s.conns| && i != h && WorthRobbing(s.conns[i])
        ensures false
      {
        WorthRobbingIff(s.conns[i]);
        B.SlowestIsFirstMaximum(s.conns, h, i);
      }
    }
  }

  // ----- Whom the expander splits -----

  /** More than 1 MiB left. */
  predicate WorthSplitting(c: Conn) {
    Working(c) && c.chunk.Remain() > 1024 * KB
  }

  /** The first of those with most bytes left. */
  predicate FirstLargest(conns: seq<Conn>, v: nat)
    requires v < |conns|
  {
    && WorthSplitting(conns[v])
    && (forall i :: 0 <= i < |conns| && WorthSplitting(conns[i]) ==>
          conns[i].chunk.Remain() <= conns[v].chunk.Remain())
    && (forall i :: 0 <= i < v && WorthSplitting(conns[i]) ==>
          conns[i].chunk.Remain() < conns[v].chunk.Remain())
  }

  /** One split: the first of the largest ranges loses the latter half of what is left of it to
      a new connection without a goroutine. */
  ghost predicate SplitsOne(conns: seq<Conn>, conns': seq<Conn>) {
    && |conns'| == |conns| + 1
    && exists v :: 0 <= v < |conns| && FirstLargest(conns, v)
         && var new' := conns'[|conns|];
            && Halved(conns[v].chunk, conns'[v].chunk, new'.chunk)
            && 0 <= conns'[v].chunk.Remain() - new'.chunk.Remain() <= 1
            && conns'[v] == conns[v].(chunk := conns'[v].chunk)
            && new'.state.NotStarted? && new'.phase.Created? && new'.downloaded == 0
            && !new'.completed && !new'.failed && new'.retries == 0 && new'.speed == 0
            && forall i :: 0 <= i < |conns| && i != v ==> conns'[i] == conns[i]
  }

  lemma SplitDecides(conns: seq<Conn>)
    ensures Largest(conns) >= 0 <==> exists i :: 0 <= i < |conns| && WorthSplitting(conns[i])
    ensures Largest(conns) >= 0 ==> SplitsOne(conns, Split(conns, Largest(conns)))
  {
    var v := Largest(conns);
    forall i | 0 <= i < |conns| && WorthSplitting(conns[i])
      ensures v >= 0 && conns[i].chunk.Remain() <= conns[v].chunk.Remain()
      ensures i < v ==> conns[i].chunk.Remain() < conns[v].chunk.Remain()
    {
      B.LargestIsFirstMaximum(conns, i);
    }
    if v >= 0 {
      var conns' := Split(conns, v);
      assert conns'[|conns|] == SplitOff(conns[v]) && conns'[v] == SplitVictim(conns[v]);
    }
  }

  /** n splits, one after the other. */
  ghost predicate Splits(conns: seq<Conn>, conns': seq<Conn>, n: nat)
    decreases n
  {
    if n == 0 then conns' == conns
    else exists next :: SplitsOne(conns, next) && Splits(next, conns', n - 1)
  }

  predicate NoneWorthSplitting(conns: seq<Conn>) {
    forall i :: 0 <= i < |conns| ==> !WorthSplitting(conns[i])
  }

  /** As many splits as the batch allows, or until nothing is worth splitting. */
  ghost predicate Greedy(conns: seq<Conn>, conns': seq<Conn>, batch: nat) {
    && |conns| <= |conns'| <= |conns| + batch
    && Splits(conns, conns', |conns'| - |conns|)
    && (|conns'| < |conns| + batch ==> NoneWorthSplitting(conns'))
  }

  lemma GreedyStep(conns: seq<Conn>, next: seq<Conn>, conns': seq<Conn>, batch: nat)
    requires batch > 0 && SplitsOne(conns, next) && Greedy(next, conns', batch - 1)
    ensures Greedy(conns, conns', batch)
  {
  }

  lemma GreedyEnd(conns: seq<Conn>, conns': seq<Conn>, batch: nat)
    requires conns' == SplitUpTo(conns, batch) && (batch == 0 || Largest(conns) < 0)
    ensures Greedy(conns, conns', batch)
  {
    SplitDecides(conns);
  }

  lemma GreedyOnward(conns: seq<Conn>, conns': seq<Conn>, batch: nat)
    requires batch > 0 && Largest(conns) >= 0 && Greedy(Split(conns, Largest(conns)), conns', batch - 1)
    ensures Greedy(conns, conns', batch)
  {
    SplitDecides(conns);
    GreedyStep(conns, Split(conns, Largest(conns)), conns', batch);
  }

  lemma {:induction false} SplitsAreGreedy(conns: seq<Conn>, conns': seq<Conn>, batch: nat)
    requires conns' == SplitUpTo(conns, batch)
    ensures Greedy(conns, conns', batch)
    decreases batch
  {
    if batch == 0 || Largest(conns) < 0 {
      GreedyEnd(conns, conns', batch);
    } else {
      SplitsAreGreedy(Split(conns, Largest(conns)), conns', batch - 1);
      GreedyOnward(conns, conns', batch);
    }
  }

  /** Something is split exactly if something is worth it. */
  lemma SplitsIff(conns: seq<Conn>, batch: nat)
    requires batch > 0
    ensures SplitUpTo(conns, batch) == conns <==> NoneWorthSplitting(conns)
    ensures |SplitUpTo(conns, batch)| == |conns| <==> NoneWorthSplitting(conns)
  {
    WorthIff(conns);
    if Largest(conns) >= 0 {
      SplitUpToExtends(Split(conns, Largest(conns)), batch - 1);
    }
  }

  lemma WorthIff(conns: seq<Conn>)
    ensures Largest(conns) < 0 <==> NoneWorthSplitting(conns)
  {
    SplitDecides(conns);
  }

  /** The batch the controller offers. */
  lemma BatchIs(server: seq<byte>, s: State)
    requires Inv(server, s)
    ensures SlowStart.BatchSize(s.slow) == Min(s.max - s.slow.launched, SlowStart.Pow2(s.slow.batches))
    ensures 0 <= SlowStart.BatchSize(s.slow) && (SlowStart.BatchSize(s.slow) == 0 <==> s.max == s.slow.launched)
  {
  }

  lemma BatchDecides(s: State, batch: nat)
    requires batch > 0
    ensures var t := SplitBatch(s, batch);
            && Greedy(s.conns, t.conns, batch)
            && if NoneWorthSplitting(s.conns) then t.loop.Waiting? && t.stage.Steady? && t.conns == s.conns
               else t.loop == Committing(|t.conns| - |s.conns|) && t.stage == s.stage && |t.conns| > |s.conns|
  {
    var conns := SplitUpTo(s.conns, batch);
    SplitUpToExtends(s.conns, batch);
    SplitsIff(s.conns, batch);
    SplitsAreGreedy(s.conns, conns, batch);
  }

  /** A round of the expander: it splits one range after the other until the batch is full or
      nothing is worth splitting.  Expansion is over exactly if the maximum was reached or
      nothing was worth splitting to begin with. */
  lemma ExpandDecides(server: seq<byte>, s: State)
    requires Inv(server, s) && Possible(s, Expand)
    ensures var t, free := Next(s, Expand), s.max - s.slow.launched;
            var batch := Min(free, SlowStart.Pow2(s.slow.batches));
            && 0 <= batch && (batch == 0 <==> free == 0)
            && Greedy(s.conns, t.conns, batch)
            && if free == 0 || NoneWorthSplitting(s.conns)
               then t.loop.Waiting? && t.stage.Steady? && t.conns == s.conns
               else t.loop == Committing(|t.conns| - |s.conns|) && t.stage == s.stage && |t.conns| > |s.conns|
  {
    BatchIs(server, s);
    var batch := SlowStart.BatchSize(s.slow);
    if batch > 0 {
      BatchDecides(s, batch);
    }
  }

  // ----- When the download loop acts -----

  /** Signals taken, and answers reported, in the first k events. */
  function Signals(events: seq<Event>, k: nat): nat
    requires k <= |events|
  {
    if k == 0 then 0 else Signals(events, k - 1) + if events[k - 1].Receive? then 1 else 0
  }

  function Answers(events: seq<Event>, k: nat): nat
    requires k <= |events|
  {
    if k == 0 then 0
    else Answers(events, k - 1) + if events[k - 1].Announce? || events[k - 1].Report? then 1 else 0
  }

  lemma NextSignals(server: seq<byte>, s: State, e: Event)
    requires Enabled(server, s, e)
    ensures e.Receive? ==> s.slow.signalled && !Next(s, e).slow.signalled
    ensures Next(s, e).slow.signalled ==> s.slow.signalled || e.Announce? || e.Report?
  {
  }

  /** Step k takes a signal only if there is one, and only an answer gives one. */
  ghost predicate SignalStep(trace: seq<State>, events: seq<Event>, k: nat)
    requires |trace| == |events| + 1 && k < |events|
  {
    && (events[k].Receive? ==> trace[k].slow.signalled && !trace[k + 1].slow.signalled)
    && (trace[k + 1].slow.signalled ==> trace[k].slow.signalled || events[k].Announce? || events[k].Report?)
  }

  lemma {:induction false} CountSignals(trace: seq<State>, events: seq<Event>, k: nat)
    requires |trace| == |events| + 1 && k <= |events| && !trace[0].slow.signalled
    requires forall j :: 0 <= j < k ==> SignalStep(trace, events, j)
    ensures Signals(events, k) + (if trace[k].slow.signalled then 1 else 0) <= Answers(events, k)
  {
    if k > 0 {
      CountSignals(trace, events, k - 1);
      assert SignalStep(trace, events, k - 1);
    }
  }

  /** The download loop wakes at most once per answer of a connection. */
  lemma SignalsNeedAnswers(server: seq<byte>, trace: seq<State>, events: seq<Event>, k: nat)
    requires IsRun(server, trace, events) && !trace[0].slow.signalled && k <= |events|
    ensures Signals(events, k) + (if trace[k].slow.signalled then 1 else 0) <= Answers(events, k)
  {
    forall j | 0 <= j < k ensures SignalStep(trace, events, j) {
      NextSignals(server, trace[j], events[j]);
    }
    CountSignals(trace, events, k);
  }

  /** The loop goes on after its test exactly as long as bytes are missing and some connection
      can still fetch any: byte counter and connection states say the same. */
  lemma CheckGoesOnIff(server: seq<byte>, s: State)
    requires Inv(server, s) && Possible(s, Check)
    ensures var t := Next(s, Check);
            && t.conns == s.conns && t.stage == s.stage && (t.loop.Checked? || t.loop.Waiting?)
            && (t.loop.Checked? <==>
                  && (exists i :: 0 <= i < |s.conns| && s.conns[i].chunk.Remain() > 0)
                  && (exists i :: 0 <= i < |s.conns| && Working(s.conns[i])))
  {
    CounterMatchesCoverage(server, s);
    forall i | 0 <= i < |s.conns|
      ensures s.conns[i].chunk.Remain() >= 0 && (Finished(s.conns[i]) <==> s.conns[i].completed)
    {
      assert ConnOk(server, s.file, s.prefix, s.conns[i]);
    }
  }
}
