/** What every event of a ranged download keeps: the ranges tile the file, the byte counter
    matches them, accounted bytes are the server's, and a reserved read is never overrun. */
module RangedInvariant {
  import opened Basics
  import opened Sums
  import opened RangedDownload
  import SlowStart

  /** The least number of bytes any range keeps once some range has been divided:
      stealing from STEAL_MIN bytes leaves the victim half of them, less one. */
  const MIN_EXTENT := 262143

  /** The file already holds the server's byte at an offset. */
  ghost predicate Correct(server: seq<byte>, file: seq<byte>, o: int) {
    0 <= o < |file| && o < |server| && file[o] == server[o]
  }

  ghost predicate CorrectRange(server: seq<byte>, file: seq<byte>, from: int, to: int) {
    forall o :: from <= o < to ==> Correct(server, file, o)
  }

  /** Writing may only turn wrong offsets into correct ones. */
  ghost predicate Improves(server: seq<byte>, file: seq<byte>, file': seq<byte>) {
    |file'| == |file| && forall o :: Correct(server, file, o) ==> Correct(server, file', o)
  }

  /** The bytes of a read are the server's bytes from an offset on. */
  ghost predicate Matches(server: seq<byte>, offset: int, data: seq<byte>) {
    0 <= offset && offset + |data| <= |server| && forall k :: 0 <= k < |data| ==> data[k] == server[offset + k]
  }

  ghost predicate PhaseOk(server: seq<byte>, file: seq<byte>, c: Conn) {
    match c.phase
    case Requesting(last) => c.chunk.Remain() > 0 && c.chunk.end <= last < |server|
    case Accepted(last) => c.chunk.end <= last < |server|
    case Streaming(last) => c.chunk.end <= last < |server|
    case Reserved(last, offset, data, finished) =>
      && c.chunk.end <= last < |server|
      && offset == c.chunk.Next()
      && 1 <= |data| <= BUFFER_SIZE && |data| <= c.chunk.Remain()
      && (finished ==> |data| == c.chunk.Remain())
      && Matches(server, offset, data)
    case Written(last, count, finished) =>
      && c.chunk.end <= last < |server|
      && 1 <= count <= BUFFER_SIZE && count <= c.chunk.Remain()
      && (finished ==> count == c.chunk.Remain())
      && CorrectRange(server, file, c.chunk.Next(), c.chunk.Next() + count)
    case Drained => c.chunk.Remain() == 0
    case Completing => c.chunk.Remain() == 0
    case Erring(err) => !err.NoError? && (Counted(err) ==> c.chunk.Remain() > 0)
    case Reporting => c.failed
    case Reported => c.failed && c.lastErr != Http(FORBIDDEN)
    case _ => true
  }

  /** This connection gives up, or has given up. */
  predicate Doomed(c: Conn) {
    c.lastErr == Http(FORBIDDEN) || c.retries >= 3
  }

  ghost predicate ConnOk(server: seq<byte>, file: seq<byte>, prefix: int, c: Conn) {
    && 0 <= prefix <= c.chunk.begin <= c.chunk.end < |server|
    && 0 <= c.chunk.downloaded && c.chunk.Remain() >= 0
    && CorrectRange(server, file, c.chunk.begin, c.chunk.Next())
    && (c.completed <==> c.state.Completed?)
    && (c.completed ==> c.phase.Stopped? && c.chunk.Remain() == 0)
    && (Doomed(c) ==>
          && c.failed && c.chunk.Remain() > 0
          && (c.phase.Stopped? || c.phase.Reporting? || c.phase.Reported?)
          && (c.phase.Stopped? || c.lastErr == Http(FORBIDDEN) ==> c.state.Failed?))
    && PhaseOk(server, file, c)
  }

  /** A retired range was completely fetched. */
  ghost predicate RetiredOk(server: seq<byte>, file: seq<byte>, prefix: int, r: Chunk) {
    && prefix <= r.begin <= r.end < |server|
    && r.Remain() == 0
    && CorrectRange(server, file, r.begin, r.end + 1)
  }

  /** Every offset from `from` on lies in exactly one range. */
  ghost predicate Tiled(conns: seq<Conn>, retired: seq<Chunk>, from: int, to: int) {
    forall o :: Cover(conns, retired, o) == if from <= o < to then 1 else 0
  }

  /** Once there is more than one range, none is short. */
  ghost predicate NoneShort(conns: seq<Conn>, retired: seq<Chunk>) {
    |conns| + |retired| > 1 ==>
      && (forall i :: 0 <= i < |conns| ==> conns[i].chunk.Extent() >= MIN_EXTENT)
      && (forall r :: 0 <= r < |retired| ==> retired[r].Extent() >= MIN_EXTENT)
  }

  ghost predicate Layout(server: seq<byte>, file: seq<byte>, prefix: int, conns: seq<Conn>, retired: seq<Chunk>) {
    && 0 <= prefix && |file| == |server| > 0
    && (forall i :: 0 <= i < |conns| ==> ConnOk(server, file, prefix, conns[i]))
    && (forall r :: 0 <= r < |retired| ==> RetiredOk(server, file, prefix, retired[r]))
    && (conns == [] ==> retired == [])
    && (conns != [] ==> Tiled(conns, retired, prefix, |server|))
    && (conns != [] ==> Sum(conns, FetchedBytes()) + Sum(conns, RemainingBytes()) == |server|)
    && NoneShort(conns, retired)
  }

  /** A connection that will not run again in this session. */
  predicate Settled(c: Conn) {
    c.completed || Abandoned(c) || Exhausted(c)
  }

  /** The download loop is past the first round and has not given up expanding. */
  predicate InRound(loop: Loop) {
    loop.Signalled? || loop.Checked? || loop.Committing?
  }

  /** The controller counts the connections, except for a batch about to be committed, and
      exactly those of that batch have no goroutine yet. */
  ghost predicate LaunchesCounted(s: State) {
    && (s.loop.Committing? ==>
          && 1 <= s.loop.count <= SlowStart.BatchSize(s.slow)
          && s.slow.launched + s.loop.count == |s.conns|)
    && (s.slow.launched == 0 || s.slow.launched == |s.conns| || s.loop.Committing?)
    && ((s.loop.Expanding? || s.loop.Signalled? || s.loop.Checked?) && s.conns != [] ==> s.slow.launched == |s.conns|)
    && (InRound(s.loop) ==> s.stage.SlowStarting?)
    && CreatedAre(s.conns, if s.loop.Committing? then s.slow.launched else |s.conns|)
  }

  ghost predicate CreatedAre(conns: seq<Conn>, from: int) {
    forall i :: 0 <= i < |conns| ==> (conns[i].phase.Created? <==> i >= from)
  }

  /** The stage of the fetcher agrees with its goroutines and its slow-start controller. */
  ghost predicate StageOk(s: State) {
    && s.max >= 1 && s.slow.max == s.max && |s.conns| <= s.max
    && SlowStart.Growth(s.slow)
    && LaunchesCounted(s)
    && (!s.stage.SlowStarting? && !s.stage.Steady? ==> Quiescent(s.conns))
    && ((s.stage.SlowStarting? || s.stage.Steady?) ==> s.conns != [])
    && ((s.stage.SlowStarting? || s.stage.Steady?) && !s.cancelled ==> StoppedSettled(s.conns))
  }

  ghost predicate Inv(server: seq<byte>, s: State) {
    && s.size == |s.file|
    && Layout(server, s.file, s.prefix, s.conns, s.retired)
    && StageOk(s)
  }

  // ----- Files -----

  lemma WriteImproves(server: seq<byte>, file: seq<byte>, offset: int, data: seq<byte>)
    requires Matches(server, offset, data) && |file| == |server|
    ensures Improves(server, file, WriteAt(file, offset, data))
    ensures CorrectRange(server, WriteAt(file, offset, data), offset, offset + |data|)
  {
    var file' := WriteAt(file, offset, data);
    forall o | offset <= o < offset + |data|
      ensures Correct(server, file', o)
    {
      assert data[o - offset] == server[offset + (o - offset)];
    }
  }

  lemma ConnImproves(server: seq<byte>, file: seq<byte>, file': seq<byte>, prefix: int, c: Conn)
    requires ConnOk(server, file, prefix, c) && Improves(server, file, file')
    ensures ConnOk(server, file', prefix, c)
  {
  }

  // ----- Local changes -----

  /** An event that leaves the bounds of every range alone and moves bytes of one
      connection from "remaining" to "fetched" keeps the layout. */
  lemma ReplaceKeepsLayout(server: seq<byte>, file: seq<byte>, file': seq<byte>, prefix: int,
                           conns: seq<Conn>, retired: seq<Chunk>, i: nat, c: Conn)
    requires Layout(server, file, prefix, conns, retired) && i < |conns|
    requires Improves(server, file, file')
    requires c.chunk.begin == conns[i].chunk.begin && c.chunk.end == conns[i].chunk.end
    requires c.downloaded + c.chunk.Remain() == conns[i].downloaded + conns[i].chunk.Remain()
    requires ConnOk(server, file', prefix, c)
    ensures Layout(server, file', prefix, conns[i := c], retired)
  {
    var conns' := conns[i := c];
    forall j | 0 <= j < |conns'|
      ensures ConnOk(server, file', prefix, conns'[j])
    {
      if j != i {
        ConnImproves(server, file, file', prefix, conns[j]);
      }
    }
    forall o
      ensures Cover(conns', retired, o) == if prefix <= o < |server| then 1 else 0
    {
      SumUpdate(conns, i, c, OwnsOffset(o));
      assert Cover(conns, retired, o) == if prefix <= o < |server| then 1 else 0;
    }
    SumUpdate(conns, i, c, FetchedBytes());
    SumUpdate(conns, i, c, RemainingBytes());
  }

  /** The victim of a split or a theft still satisfies its invariant: it keeps more
      bytes than the largest read it can have reserved. */
  lemma ShrinkKeepsConn(server: seq<byte>, file: seq<byte>, prefix: int, c: Conn, end: int)
    requires ConnOk(server, file, prefix, c) && Active(c)
    requires c.chunk.Next() + BUFFER_SIZE <= end < c.chunk.end
    ensures ConnOk(server, file, prefix, c.(chunk := c.chunk.(end := end)))
  {
  }

  function SplitVictim(c: Conn): Conn {
    c.(chunk := c.chunk.(end := c.chunk.end - c.chunk.Remain() / 2))
  }

  function SplitOff(c: Conn): Conn {
    NewConn(Chunk(c.chunk.end - c.chunk.Remain() / 2 + 1, c.chunk.end, 0), 0)
  }

  lemma SplitSum(conns: seq<Conn>, v: nat, f: Conn -> int)
    requires v < |conns|
    ensures Sum(Split(conns, v), f) == Sum(conns, f) - f(conns[v]) + f(SplitVictim(conns[v])) + f(SplitOff(conns[v]))
  {
    var shrunk := conns[v := SplitVictim(conns[v])];
    assert Split(conns, v) == shrunk + [SplitOff(conns[v])];
    SumUpdate(conns, v, SplitVictim(conns[v]), f);
    SumAppend(shrunk, SplitOff(conns[v]), f);
  }

  lemma SplitKeepsTiling(conns: seq<Conn>, retired: seq<Chunk>, from: int, to: int, v: nat)
    requires v < |conns| && Tiled(conns, retired, from, to)
    requires conns[v].chunk.downloaded >= 0 && conns[v].chunk.Remain() > 1
    ensures Tiled(Split(conns, v), retired, from, to)
  {
    forall o
      ensures Cover(Split(conns, v), retired, o) == if from <= o < to then 1 else 0
    {
      SplitSum(conns, v, OwnsOffset(o));
      assert Cover(conns, retired, o) == if from <= o < to then 1 else 0;
    }
  }

  lemma SplitKeepsConns(server: seq<byte>, file: seq<byte>, prefix: int, conns: seq<Conn>, v: nat)
    requires v < |conns| && Splittable(conns[v])
    requires forall i :: 0 <= i < |conns| ==> ConnOk(server, file, prefix, conns[i])
    ensures forall i :: 0 <= i <= |conns| ==> ConnOk(server, file, prefix, Split(conns, v)[i])
  {
    var c := conns[v];
    forall i | 0 <= i <= |conns|
      ensures ConnOk(server, file, prefix, Split(conns, v)[i])
    {
      if i == v {
        ShrinkKeepsConn(server, file, prefix, c, SplitVictim(c).chunk.end);
      } else if i == |conns| {
        assert ConnOk(server, file, prefix, c);
        assert Split(conns, v)[i] == SplitOff(c);
      }
    }
  }

  lemma SplitKeepsLayout(server: seq<byte>, file: seq<byte>, prefix: int, conns: seq<Conn>, retired: seq<Chunk>, v: nat)
    requires Layout(server, file, prefix, conns, retired) && v < |conns| && Splittable(conns[v])
    ensures Layout(server, file, prefix, Split(conns, v), retired)
    ensures Sum(Split(conns, v), RemainingBytes()) == Sum(conns, RemainingBytes())
    ensures Sum(Split(conns, v), FetchedBytes()) == Sum(conns, FetchedBytes())
  {
    assert ConnOk(server, file, prefix, conns[v]);
    SplitKeepsConns(server, file, prefix, conns, v);
    SplitKeepsTiling(conns, retired, prefix, |server|, v);
    SplitSum(conns, v, FetchedBytes());
    SplitSum(conns, v, RemainingBytes());
    LongRange(server, file, prefix, conns, retired, v);
    var conns' := Split(conns, v);
    assert NoneShort(conns', retired) by {
      assert conns'[v] == SplitVictim(conns[v]) && conns'[|conns|] == SplitOff(conns[v]);
      assert forall i :: 0 <= i < |conns| && i != v ==> conns'[i] == conns[i];
    }
  }

  /** A range with many bytes left is long, and so is every other range. */
  lemma LongRange(server: seq<byte>, file: seq<byte>, prefix: int, conns: seq<Conn>, retired: seq<Chunk>, v: nat)
    requires Layout(server, file, prefix, conns, retired) && v < |conns|
    requires conns[v].chunk.Remain() >= STEAL_MIN
    ensures forall i :: 0 <= i < |conns| ==> conns[i].chunk.Extent() >= MIN_EXTENT
    ensures forall r :: 0 <= r < |retired| ==> retired[r].Extent() >= MIN_EXTENT
  {
    assert ConnOk(server, file, prefix, conns[v]);
  }

  function StealVictim(c: Conn): Conn {
    c.(chunk := c.chunk.(end := c.chunk.end - c.chunk.Remain() / 2 - 1))
  }

  function StealHelper(helper: Conn, c: Conn): Conn {
    helper.(chunk := Chunk(c.chunk.end - c.chunk.Remain() / 2, c.chunk.end, 0), retries := 0, phase := Ready)
  }

  lemma StealSum(conns: seq<Conn>, h: nat, v: nat, f: Conn -> int)
    requires h < |conns| && v < |conns| && h != v
    ensures Sum(Steal(conns, h, v), f) ==
            Sum(conns, f) - f(conns[v]) + f(StealVictim(conns[v])) - f(conns[h]) + f(StealHelper(conns[h], conns[v]))
  {
    var shrunk := conns[v := StealVictim(conns[v])];
    assert Steal(conns, h, v) == shrunk[h := StealHelper(conns[h], conns[v])];
    SumUpdate(conns, v, StealVictim(conns[v]), f);
    SumUpdate(shrunk, h, StealHelper(conns[h], conns[v]), f);
  }

  lemma StealKeepsTiling(conns: seq<Conn>, retired: seq<Chunk>, from: int, to: int, h: nat, v: nat)
    requires h < |conns| && v < |conns| && h != v && Tiled(conns, retired, from, to)
    requires conns[v].chunk.downloaded >= 0 && conns[v].chunk.Remain() > 1
    ensures Tiled(Steal(conns, h, v), retired + [conns[h].chunk], from, to)
  {
    forall o
      ensures Cover(Steal(conns, h, v), retired + [conns[h].chunk], o) == if from <= o < to then 1 else 0
    {
      StealSum(conns, h, v, OwnsOffset(o));
      SumAppend(retired, conns[h].chunk, HoldsOffset(o));
      assert Cover(conns, retired, o) == if from <= o < to then 1 else 0;
    }
  }

  lemma StealKeepsConns(server: seq<byte>, file: seq<byte>, prefix: int, conns: seq<Conn>, h: nat, v: nat)
    requires h < |conns| && v < |conns| && h != v
    requires forall i :: 0 <= i < |conns| ==> ConnOk(server, file, prefix, conns[i])
    requires conns[h].phase.Drained? && Robbable(conns[v])
    ensures forall i :: 0 <= i < |conns| ==> ConnOk(server, file, prefix, Steal(conns, h, v)[i])
  {
    var conns' := Steal(conns, h, v);
    var c := conns[v];
    assert ConnOk(server, file, prefix, c) && ConnOk(server, file, prefix, conns[h]);
    forall i | 0 <= i < |conns|
      ensures ConnOk(server, file, prefix, conns'[i])
    {
      if i == h {
        assert conns'[i] == StealHelper(conns[h], c);
      } else if i == v {
        assert conns'[i] == StealVictim(c);
        ShrinkKeepsConn(server, file, prefix, c, StealVictim(c).chunk.end);
      }
    }
  }

  lemma StealKeepsLength(server: seq<byte>, file: seq<byte>, prefix: int, conns: seq<Conn>, retired: seq<Chunk>,
                         h: nat, v: nat)
    requires Layout(server, file, prefix, conns, retired) && h < |conns| && v < |conns| && h != v
    requires conns[h].phase.Drained? && Robbable(conns[v])
    ensures NoneShort(Steal(conns, h, v), retired + [conns[h].chunk])
  {
    assert ConnOk(server, file, prefix, conns[v]);
    LongRange(server, file, prefix, conns, retired, v);
    var conns' := Steal(conns, h, v);
    assert forall i :: 0 <= i < |conns| && i != h && i != v ==> conns'[i] == conns[i];
    assert conns'[v] == StealVictim(conns[v]) && conns'[h] == StealHelper(conns[h], conns[v]);
  }

  lemma StealKeepsLayout(server: seq<byte>, file: seq<byte>, prefix: int, conns: seq<Conn>, retired: seq<Chunk>,
                         h: nat, v: nat)
    requires Layout(server, file, prefix, conns, retired) && h < |conns| && v < |conns| && h != v
    requires conns[h].phase.Drained? && Robbable(conns[v])
    ensures Layout(server, file, prefix, Steal(conns, h, v), retired + [conns[h].chunk])
    ensures Sum(Steal(conns, h, v), RemainingBytes()) == Sum(conns, RemainingBytes())
    ensures Sum(Steal(conns, h, v), FetchedBytes()) == Sum(conns, FetchedBytes())
  {
    assert ConnOk(server, file, prefix, conns[v]) && ConnOk(server, file, prefix, conns[h]);
    StealKeepsConns(server, file, prefix, conns, h, v);
    StealKeepsTiling(conns, retired, prefix, |server|, h, v);
    StealKeepsLength(server, file, prefix, conns, retired, h, v);
    StealSum(conns, h, v, FetchedBytes());
    StealSum(conns, h, v, RemainingBytes());
    var retired' := retired + [conns[h].chunk];
    assert forall r :: 0 <= r < |retired'| ==> RetiredOk(server, file, prefix, retired'[r]);
  }

  lemma {:induction false} SplitUpToKeepsLayout(server: seq<byte>, file: seq<byte>, prefix: int,
                                                conns: seq<Conn>, retired: seq<Chunk>, n: nat)
    requires Layout(server, file, prefix, conns, retired)
    ensures Layout(server, file, prefix, SplitUpTo(conns, n), retired)
    ensures Sum(SplitUpTo(conns, n), RemainingBytes()) == Sum(conns, RemainingBytes())
    ensures Sum(SplitUpTo(conns, n), FetchedBytes()) == Sum(conns, FetchedBytes())
    decreases n
  {
    var v := Largest(conns);
    if n != 0 && v >= 0 {
      SplitKeepsLayout(server, file, prefix, conns, retired, v);
      SplitUpToKeepsLayout(server, file, prefix, Split(conns, v), retired, n - 1);
    }
  }

  /** The connections are the old ones, up to the ends of their ranges, and new ones. */
  ghost predicate Extends(conns: seq<Conn>, conns': seq<Conn>) {
    && |conns| <= |conns'|
    && (forall i :: 0 <= i < |conns| ==> conns'[i] == conns[i].(chunk := conns'[i].chunk))
    && (forall i :: |conns| <= i < |conns'| ==> conns'[i].phase.Created?)
  }

  lemma {:induction false} SplitUpToExtends(conns: seq<Conn>, n: nat)
    ensures Extends(conns, SplitUpTo(conns, n))
    ensures |SplitUpTo(conns, n)| <= |conns| + n
    decreases n
  {
    var v := Largest(conns);
    if n != 0 && v >= 0 {
      var next := Split(conns, v);
      assert Extends(conns, next);
      SplitUpToExtends(next, n - 1);
      var last := SplitUpTo(next, n - 1);
      assert forall i :: 0 <= i < |conns| ==> last[i] == next[i].(chunk := last[i].chunk);
    }
  }

  // ----- Every event -----

  lemma FileStepImproves(server: seq<byte>, file: seq<byte>, prefix: int, c: Conn, e: Event)
    requires |file| == |server| && ConnOk(server, file, prefix, c) && ConnPossible(c, e)
    ensures Improves(server, file, FileStep(file, c, e))
    ensures e.Write? ==> CorrectRange(server, FileStep(file, c, e), c.phase.offset, c.phase.offset + |c.phase.data|)
  {
    if e.Write? {
      WriteImproves(server, file, c.phase.offset, c.phase.data);
    } else if e.WriteError? {
      WriteImproves(server, file, c.phase.offset, c.phase.data[..e.n]);
    }
  }

  lemma ConnStepKeepsConn(server: seq<byte>, file: seq<byte>, prefix: int, c: Conn, e: Event)
    requires |file| == |server| && ConnOk(server, file, prefix, c)
    requires ConnPossible(c, e) && Honest(server, c, e)
    ensures ConnOk(server, FileStep(file, c, e), prefix, ConnStep(c, e))
  {
    FileStepImproves(server, file, prefix, c, e);
    ConnImproves(server, file, FileStep(file, c, e), prefix, c);
  }

  lemma ConnStepKeepsBytes(c: Conn, e: Event)
    requires ConnPossible(c, e)
    ensures var d := ConnStep(c, e);
            && d.chunk.begin == c.chunk.begin && d.chunk.end == c.chunk.end
            && d.downloaded + d.chunk.Remain() == c.downloaded + c.chunk.Remain()
  {
  }

  lemma LocalEventKeepsLayout(server: seq<byte>, s: State, e: Event)
    requires Inv(server, s) && Enabled(server, s, e) && Local(e)
    ensures var t := Next(s, e); Layout(server, t.file, t.prefix, t.conns, t.retired)
  {
    var c := s.conns[e.i];
    FileStepImproves(server, s.file, s.prefix, c, e);
    ConnStepKeepsConn(server, s.file, s.prefix, c, e);
    ConnStepKeepsBytes(c, e);
    ReplaceKeepsLayout(server, s.file, FileStep(s.file, c, e), s.prefix, s.conns, s.retired, e.i, ConnStep(c, e));
  }

  lemma HelpKeepsLayout(server: seq<byte>, s: State, h: nat)
    requires Inv(server, s) && Possible(s, Help(h))
    ensures var t := Next(s, Help(h)); Layout(server, t.file, t.prefix, t.conns, t.retired)
  {
    var v := Slowest(s.conns, h);
    var c := s.conns[h];
    assert ConnOk(server, s.file, s.prefix, c);
    if v < 0 {
      ReplaceKeepsLayout(server, s.file, s.file, s.prefix, s.conns, s.retired, h, c.(phase := Completing));
    } else {
      StealKeepsLayout(server, s.file, s.prefix, s.conns, s.retired, h, v);
    }
  }

  /** Relabelling connections without touching ranges or counters keeps the layout. */
  lemma RelabelKeepsLayout(server: seq<byte>, file: seq<byte>, prefix: int,
                           conns: seq<Conn>, conns': seq<Conn>, retired: seq<Chunk>)
    requires Layout(server, file, prefix, conns, retired) && |conns'| == |conns|
    requires forall i :: 0 <= i < |conns| ==>
               conns'[i].chunk == conns[i].chunk && conns'[i].downloaded == conns[i].downloaded
    requires forall i :: 0 <= i < |conns'| ==> ConnOk(server, file, prefix, conns'[i])
    ensures Layout(server, file, prefix, conns', retired)
  {
    if conns != [] {
      forall o
        ensures Cover(conns', retired, o) == if prefix <= o < |server| then 1 else 0
      {
        SumPointwise(conns', OwnsOffset(o), conns, OwnsOffset(o));
        assert Cover(conns, retired, o) == if prefix <= o < |server| then 1 else 0;
      }
      SumPointwise(conns', FetchedBytes(), conns, FetchedBytes());
      SumPointwise(conns', RemainingBytes(), conns, RemainingBytes());
    }
  }

  lemma FirstConnLayout(server: seq<byte>, file: seq<byte>, prefix: int)
    requires |file| == |server| && 0 <= prefix < |server|
    ensures Layout(server, file, prefix, [FirstConn(prefix, |server|)], [])
  {
    var c := FirstConn(prefix, |server|);
    var none: seq<Conn> := [];
    assert [c] == none + [c];
    forall o
      ensures Cover([c], [], o) == if prefix <= o < |server| then 1 else 0
    {
      SumAppend(none, c, OwnsOffset(o));
    }
    SumAppend(none, c, FetchedBytes());
    SumAppend(none, c, RemainingBytes());
  }

  lemma StartConnOk(server: seq<byte>, file: seq<byte>, prefix: int, stage: Stage, c: Conn)
    requires ConnOk(server, file, prefix, c) && c.phase.Stopped?
    ensures ConnOk(server, file, prefix, StartConn(stage, c))
    ensures StartConn(stage, c).phase.Stopped? ==> Settled(StartConn(stage, c))
  {
  }

  lemma StartKeepsInv(server: seq<byte>, s: State)
    requires Inv(server, s) && Possible(s, Start)
    ensures Inv(server, Next(s, Start))
  {
    var t := Next(s, Start);
    SlowStart.CommitKeepsGrowth(SlowStart.New(s.max), 1);
    if s.conns != [] {
      forall i | 0 <= i < |t.conns|
        ensures ConnOk(server, s.file, s.prefix, t.conns[i])
        ensures t.conns[i].phase.Stopped? ==> Settled(t.conns[i])
      {
        StartConnOk(server, s.file, s.prefix, s.stage, s.conns[i]);
      }
      RelabelKeepsLayout(server, s.file, s.prefix, s.conns, t.conns, s.retired);
    } else if s.prefix < s.size {
      FirstConnLayout(server, s.file, s.prefix);
    }
  }

  lemma SplitBatchKeepsSession(s: State, batch: nat)
    requires StageOk(s) && s.loop.Checked?
    requires 1 <= batch <= SlowStart.BatchSize(s.slow)
    ensures StageOk(SplitBatch(s, batch))
  {
    var conns := SplitUpTo(s.conns, batch);
    SplitUpToExtends(s.conns, batch);
    ExtendsKeepsSettled(s.conns, conns);
    assert CreatedAre(conns, |s.conns|);
  }

  lemma ExpandKeepsInv(server: seq<byte>, s: State)
    requires Inv(server, s) && Possible(s, Expand)
    ensures Inv(server, Next(s, Expand))
  {
    var batch := SlowStart.BatchSize(s.slow);
    if batch > 0 {
      SplitUpToKeepsLayout(server, s.file, s.prefix, s.conns, s.retired, batch);
      SplitBatchKeepsSession(s, batch);
    }
  }

  lemma CommitKeepsInv(server: seq<byte>, s: State)
    requires Inv(server, s) && Possible(s, Commit)
    ensures Inv(server, Next(s, Commit))
  {
    var t := Next(s, Commit);
    forall i | 0 <= i < |t.conns|
      ensures ConnOk(server, s.file, s.prefix, t.conns[i]) && !t.conns[i].phase.Created?
      ensures t.conns[i].phase.Stopped? ==> t.conns[i] == s.conns[i]
    {
      assert ConnOk(server, s.file, s.prefix, s.conns[i]);
    }
    RelabelKeepsLayout(server, s.file, s.prefix, s.conns, t.conns, s.retired);
    SlowStart.CommitKeepsGrowth(s.slow, s.loop.count);
  }

  /** A round of the expander only shortens ranges and adds connections. */
  lemma ExpandExtends(s: State)
    requires StageOk(s) && Possible(s, Expand)
    ensures var t := Next(s, Expand);
            && Extends(s.conns, t.conns) && t.retired == s.retired && t.file == s.file
            && |t.conns| <= |s.conns| + SlowStart.BatchSize(s.slow)
  {
    var batch := SlowStart.BatchSize(s.slow);
    if batch > 0 {
      SplitUpToExtends(s.conns, batch);
    }
  }

  lemma ExpandKeepsSums(server: seq<byte>, s: State)
    requires Inv(server, s) && Possible(s, Expand)
    ensures Sum(Next(s, Expand).conns, RemainingBytes()) == Sum(s.conns, RemainingBytes())
    ensures Sum(Next(s, Expand).conns, FetchedBytes()) == Sum(s.conns, FetchedBytes())
  {
    var batch := SlowStart.BatchSize(s.slow);
    if batch > 0 {
      SplitUpToKeepsLayout(server, s.file, s.prefix, s.conns, s.retired, batch);
    }
  }

  /** All goroutines that are not running are done for good. */
  ghost predicate StoppedSettled(conns: seq<Conn>) {
    forall i :: 0 <= i < |conns| && conns[i].phase.Stopped? ==> Settled(conns[i])
  }

  lemma ExtendsKeepsSettled(conns: seq<Conn>, conns': seq<Conn>)
    requires Extends(conns, conns')
    ensures StoppedSettled(conns) ==> StoppedSettled(conns')
  {
    forall i | 0 <= i < |conns'| && StoppedSettled(conns) && conns'[i].phase.Stopped?
      ensures Settled(conns'[i])
    {
      assert i < |conns|;
    }
  }

  lemma ConnStepSettles(server: seq<byte>, file: seq<byte>, prefix: int, c: Conn, e: Event)
    requires ConnOk(server, file, prefix, c) && ConnPossible(c, e) && !e.Quit?
    ensures ConnStep(c, e).phase.Stopped? ==> Settled(ConnStep(c, e))
  {
  }

  /** The part of the session that speaks of goroutines, for one changed connection. */
  lemma PutKeepsSettled(conns: seq<Conn>, i: nat, c: Conn)
    requires i < |conns| && !conns[i].phase.Stopped?
    requires c.phase.Stopped? ==> Settled(c)
    ensures StoppedSettled(conns) ==> StoppedSettled(conns[i := c])
  {
  }

  lemma PutKeepsCreated(conns: seq<Conn>, i: nat, c: Conn, from: int)
    requires i < |conns| && CreatedAre(conns, from) && !conns[i].phase.Created? && !c.phase.Created?
    ensures CreatedAre(conns[i := c], from)
  {
  }

  lemma LocalEventKeepsSettled(server: seq<byte>, s: State, e: Event)
    requires Inv(server, s) && Possible(s, e) && Local(e) && !e.Quit?
    ensures StoppedSettled(s.conns) ==> StoppedSettled(Next(s, e).conns)
  {
    var c := s.conns[e.i];
    assert ConnOk(server, s.file, s.prefix, c) && !c.phase.Stopped?;
    ConnStepSettles(server, s.file, s.prefix, c, e);
    PutKeepsSettled(s.conns, e.i, ConnStep(c, e));
  }

  lemma LocalEventKeepsLaunches(s: State, e: Event)
    requires StageOk(s) && Possible(s, e) && Local(e)
    ensures LaunchesCounted(Next(s, e)) && SlowStart.Growth(Next(s, e).slow)
    ensures !s.conns[e.i].phase.Stopped? && |Next(s, e).conns| == |s.conns|
  {
    var c := s.conns[e.i];
    PutKeepsCreated(s.conns, e.i, ConnStep(c, e), if s.loop.Committing? then s.slow.launched else |s.conns|);
  }

  lemma LocalEventKeepsSession(server: seq<byte>, s: State, e: Event)
    requires Inv(server, s) && Possible(s, e) && Local(e)
    ensures StageOk(Next(s, e))
  {
    LocalEventKeepsLaunches(s, e);
    if !e.Quit? {
      LocalEventKeepsSettled(server, s, e);
    }
  }

  lemma LocalEventKeepsInv(server: seq<byte>, s: State, e: Event)
    requires Inv(server, s) && Enabled(server, s, e) && Local(e)
    ensures Inv(server, Next(s, e))
  {
    LocalEventKeepsLayout(server, s, e);
    LocalEventKeepsSession(server, s, e);
  }

  /** Helping changes phases of the helper only. */
  lemma HelpKeepsPhases(s: State, h: nat)
    requires h < |s.conns| && s.conns[h].phase.Drained?
    ensures var conns' := HelpState(s, h).conns;
            && |conns'| == |s.conns|
            && !conns'[h].phase.Stopped? && !conns'[h].phase.Created?
            && forall i :: 0 <= i < |s.conns| && i != h ==> conns'[i] == s.conns[i].(chunk := conns'[i].chunk)
  {
  }

  lemma HelpKeepsInv(server: seq<byte>, s: State, h: nat)
    requires Inv(server, s) && Possible(s, Help(h))
    ensures Inv(server, Next(s, Help(h)))
  {
    HelpKeepsLayout(server, s, h);
    HelpKeepsPhases(s, h);
    HelpKeepsSession(s, h);
  }

  lemma HelpKeepsSession(s: State, h: nat)
    requires StageOk(s) && h < |s.conns| && s.conns[h].phase.Drained?
    ensures StageOk(HelpState(s, h))
  {
    HelpKeepsPhases(s, h);
    var t := HelpState(s, h);
    assert StoppedSettled(s.conns) ==> StoppedSettled(t.conns);
    assert CreatedAre(t.conns, if s.loop.Committing? then s.slow.launched else |s.conns|);
    assert !s.conns[h].phase.Stopped?;
  }

  lemma StageEventKeepsInv(server: seq<byte>, s: State, e: Event)
    requires Inv(server, s) && Possible(s, e)
    requires e.Receive? || e.Check? || e.Cancel? || e.PauseDone? || e.Finish?
    ensures Inv(server, Next(s, e))
  {
  }

  lemma RoundKeepsInv(server: seq<byte>, s: State, e: Event)
    requires Inv(server, s) && Possible(s, e) && (e.Expand? || e.Commit?)
    ensures Inv(server, Next(s, e))
  {
    if e.Expand? {
      ExpandKeepsInv(server, s);
    } else {
      CommitKeepsInv(server, s);
    }
  }

  lemma GlobalEventKeepsInv(server: seq<byte>, s: State, e: Event)
    requires Inv(server, s) && Possible(s, e) && !Local(e)
    ensures Inv(server, Next(s, e))
  {
    if e.Start? {
      StartKeepsInv(server, s);
    } else if e.Expand? || e.Commit? {
      RoundKeepsInv(server, s, e);
    } else if e.Help? {
      HelpKeepsInv(server, s, e.i);
    } else {
      StageEventKeepsInv(server, s, e);
    }
  }

  /** Every event keeps the invariant. */
  lemma NextKeepsInv(server: seq<byte>, s: State, e: Event)
    requires Inv(server, s) && Enabled(server, s, e)
    ensures Inv(server, Next(s, e))
  {
    if Local(e) {
      LocalEventKeepsInv(server, s, e);
    } else {
      GlobalEventKeepsInv(server, s, e);
    }
  }

  /** No event spoils an offset that already holds the server's byte. */
  lemma NextImprovesFile(server: seq<byte>, s: State, e: Event)
    requires Inv(server, s) && Enabled(server, s, e)
    ensures Improves(server, s.file, Next(s, e).file)
  {
    if Local(e) {
      FileStepImproves(server, s.file, s.prefix, s.conns[e.i], e);
    }
  }

  lemma FreshInv(server: seq<byte>, file: seq<byte>, prefix: nat, max: int)
    requires |file| == |server| > 0 && max >= 1
    ensures Inv(server, Fresh(file, prefix, max))
  {
    assert SlowStart.Pow2(0) == 1;
  }
}
