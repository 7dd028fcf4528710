/** The ranged HTTP download as a transition system on values.

    One file of `size` bytes is cut into inclusive byte ranges (section 14.1.2 of RFC 9110)
    owned by connections.  Each section that the fetcher runs under a lock (the connection
    lock, the controller's or the file's) is an event of its own; only private steps of one
    goroutine are merged into the event they follow. */
module RangedDownload {
  import opened Basics
  import opened Sums
  import SlowStart

  const BUFFER_SIZE := 8192
  const STEAL_MIN := 512 * 1024
  const STEAL_SECONDS := 3
  const FORBIDDEN := 403

  // ----- Entities -----

  /** The inclusive range [begin, end], of which the first `downloaded` bytes are done. */
  datatype Chunk = Chunk(begin: int, end: int, downloaded: int) {
    function Remain(): int { end - begin + 1 - downloaded }

    function Extent(): int { end - begin + 1 }

    /** The next offset to fetch. */
    function Next(): int { begin + downloaded }

    predicate Holds(o: int) { begin <= o <= end }
  }

  datatype ConnState = NotStarted | Connecting | Downloading | Completed | Failed

  /** The last error of a connection: an HTTP status, or anything else. */
  datatype Failure = NoError | Http(code: int) | Other

  /** Where the goroutine of a connection stands between two lock sections. */
  datatype Phase =
    | Stopped                                   // no goroutine
    | Created                                   // split off, not launched yet
    | Launched                                  // about to run
    | Ready                                     // before the next attempt
    | Requesting(last: int)                     // range request up to `last` is out
    | Accepted(last: int)                       // answered, not yet reported to the controller
    | Streaming(last: int)                      // reading the response body
    | Reserved(last: int, offset: int, data: seq<byte>, finished: bool)
    | Written(last: int, count: nat, finished: bool)
    | Drained                                   // the attempt returned without error
    | Completing                                // found nobody to help
    | Erring(err: Failure)                      // the attempt returned an error
    | Reporting                                 // counted failure, about to tell the controller
    | Reported                                  // told it, not yet marked as failed

  datatype Conn = Conn(
    state: ConnState,
    chunk: Chunk,
    downloaded: int,
    completed: bool,
    failed: bool,
    retries: int,
    lastErr: Failure,
    speed: int,
    phase: Phase)

  datatype Stage = Resolved | SlowStarting | Steady | Paused | Done | Error

  /** The download loop: waiting for a signal, after it, after the completion test, after
      splitting off some connections, or waiting for the goroutines. */
  datatype Loop = NoLoop | Expanding | Signalled | Checked | Committing(count: nat) | Waiting

  /** The fetcher.  `prefix` is the number of prefetched bytes; `retired` is history: the
      finished ranges that helpers dropped when they took over part of another range. */
  datatype State = State(
    size: int,
    prefix: int,
    max: int,
    file: seq<byte>,
    conns: seq<Conn>,
    retired: seq<Chunk>,
    slow: SlowStart.Controller,
    stage: Stage,
    loop: Loop,
    cancelled: bool)

  datatype Event =
    | Start
    | Receive
    | Check
    | Expand
    | Commit
    | Begin(i: nat)
    | Request(i: nat)
    | Accept(i: nat)
    | Announce(i: nat)
    | Reserve(i: nat, bytes: seq<byte>)
    | Write(i: nat)
    | WriteError(i: nat, n: nat)
    | Account(i: nat, rate: int)
    | EndOfBody(i: nat)
    | Fail(i: nat, err: Failure)
    | Register(i: nat)
    | Report(i: nat)
    | Mark(i: nat)
    | Quit(i: nat)
    | Help(i: nat)
    | Complete(i: nat)
    | Cancel
    | PauseDone
    | Finish

  // ----- Measures -----

  function FetchedBytes(): Conn -> int { (c: Conn) => c.downloaded }

  function RemainingBytes(): Conn -> int { (c: Conn) => c.chunk.Remain() }

  function OwnsOffset(o: int): Conn -> int { (c: Conn) => if c.chunk.Holds(o) then 1 else 0 }

  function HoldsOffset(o: int): Chunk -> int { (c: Chunk) => if c.Holds(o) then 1 else 0 }

  /** How many current or retired ranges contain an offset. */
  function Cover(conns: seq<Conn>, retired: seq<Chunk>, o: int): int {
    Sum(conns, OwnsOffset(o)) + Sum(retired, HoldsOffset(o))
  }

  // ----- Choosing whom to help -----

  predicate Active(c: Conn) {
    !c.completed && !c.state.Failed?
  }

  function RemainSeconds(c: Conn): int {
    if c.speed > 0 then c.chunk.Remain() / c.speed else STEAL_SECONDS + 1
  }

  predicate Robbable(c: Conn) {
    Active(c) && c.chunk.Remain() >= STEAL_MIN && RemainSeconds(c) > STEAL_SECONDS
  }

  predicate Splittable(c: Conn) {
    Active(c) && c.chunk.Remain() > 2 * STEAL_MIN
  }

  /** The first connection other than the helper with the most seconds left, or -1. */
  function Slowest(conns: seq<Conn>, helper: int): (v: int)
    ensures v == -1 || (0 <= v < |conns| && v != helper && Robbable(conns[v]))
  {
    if conns == [] then -1 else
      var n := |conns| - 1;
      var best := Slowest(conns[..n], helper);
      var seconds := if best < 0 then 0 else RemainSeconds(conns[best]);
      if n != helper && Robbable(conns[n]) && RemainSeconds(conns[n]) > seconds then n else best
  }

  /** The first connection with the most bytes left among those worth splitting, or -1. */
  function Largest(conns: seq<Conn>): (v: int)
    ensures v == -1 || (0 <= v < |conns| && Splittable(conns[v]))
  {
    if conns == [] then -1 else
      var n := |conns| - 1;
      var best := Largest(conns[..n]);
      var most := if best < 0 then 0 else conns[best].chunk.Remain();
      if Splittable(conns[n]) && conns[n].chunk.Remain() > most then n else best
  }

  // ----- Dividing ranges -----

  function NewConn(chunk: Chunk, downloaded: int): Conn {
    Conn(NotStarted, chunk, downloaded, false, false, 0, NoError, 0, Created)
  }

  /** Slow start: a new connection takes the latter half of the victim's remainder. */
  function Split(conns: seq<Conn>, v: nat): seq<Conn>
    requires v < |conns|
  {
    var c := conns[v].chunk;
    var m := c.end - c.Remain() / 2;
    conns[v := conns[v].(chunk := c.(end := m))] + [NewConn(Chunk(m + 1, c.end, 0), 0)]
  }

  function SplitUpTo(conns: seq<Conn>, n: nat): seq<Conn>
    decreases n
  {
    var v := Largest(conns);
    if n == 0 || v < 0 then conns else SplitUpTo(Split(conns, v), n - 1)
  }

  /** Work stealing: the helper takes the latter half of the victim's remainder. */
  function Steal(conns: seq<Conn>, h: nat, v: nat): seq<Conn>
    requires h < |conns| && v < |conns|
  {
    var c := conns[v].chunk;
    var m := c.end - c.Remain() / 2;
    conns[v := conns[v].(chunk := c.(end := m - 1))]
         [h := conns[h].(chunk := Chunk(m, c.end, 0), retries := 0, phase := Ready)]
  }

  // ----- Failures -----

  predicate Exempt(code: int) {
    500 <= code <= 599 || code == 429 || code == 408 || code == 440 || code == 499
  }

  predicate Counted(err: Failure) {
    err.Http? && !Exempt(err.code)
  }

  /** A failed attempt: a 403 marks the connection as failed at once, another counted
      failure only after the controller knows, and any other error is retried. */
  function RegisterConn(c: Conn): Conn
    requires c.phase.Erring?
  {
    var err := c.phase.err;
    if Counted(err) && err.code == FORBIDDEN then
      c.(lastErr := err, state := Failed, failed := true, phase := Reporting)
    else if Counted(err) then
      c.(lastErr := err, failed := true, retries := c.retries + 1, phase := Reporting)
    else
      c.(lastErr := err, state := Failed, phase := Ready)
  }

  /** Given up because the server answered 403. */
  predicate Abandoned(c: Conn) {
    c.state.Failed? && c.failed && c.lastErr == Http(FORBIDDEN)
  }

  /** Given up after three counted failures. */
  predicate Exhausted(c: Conn) {
    c.state.Failed? && c.failed && c.lastErr != Http(FORBIDDEN) && c.retries >= 3
  }

  // ----- Completion -----

  predicate Finished(c: Conn) {
    c.completed || c.state.Completed?
  }

  predicate Unfinished(c: Conn) {
    c.chunk.Remain() > 0 && !Finished(c) && !Abandoned(c)
  }

  predicate Reportable(c: Conn) {
    c.state.Failed? && c.failed && c.lastErr != Http(FORBIDDEN)
  }

  /** The connection whose error ends the download, or -1 for success. */
  function FinalError(conns: seq<Conn>, size: int): (r: int)
    ensures -1 <= r < |conns|
  {
    if (size > 0 && Sum(conns, FetchedBytes()) >= size) || forall i :: 0 <= i < |conns| ==> !Unfinished(conns[i])
    then -1
    else FirstReportable(conns)
  }

  function FirstReportable(conns: seq<Conn>): (r: int)
    ensures -1 <= r < |conns|
    ensures r >= 0 ==> Reportable(conns[r]) && forall i :: 0 <= i < r ==> !Reportable(conns[i])
    ensures r < 0 ==> forall i :: 0 <= i < |conns| ==> !Reportable(conns[i])
  {
    if conns == [] then -1 else
      var n := |conns| - 1;
      var r := FirstReportable(conns[..n]);
      assert forall i :: 0 <= i < n ==> conns[..n][i] == conns[i];
      if r >= 0 then r else if Reportable(conns[n]) then n else -1
  }

  /** The download loop's test before expanding. */
  predicate AllDone(conns: seq<Conn>, size: int) {
    || (size > 0 && Sum(conns, FetchedBytes()) >= size)
    || forall i :: 0 <= i < |conns| ==> Finished(conns[i]) || conns[i].state.Failed?
  }

  // ----- Starting and resuming -----

  /** Retrying after an error forgets the failures of unfinished connections. */
  function ResetConn(c: Conn): Conn {
    if Finished(c) then c
    else c.(state := NotStarted, failed := false, retries := 0, lastErr := NoError)
  }

  predicate Skipped(c: Conn) {
    Finished(c) || Abandoned(c) || (c.state.Failed? && c.failed && c.retries >= 3)
  }

  function ResumeConn(c: Conn): Conn {
    if Skipped(c) then c else c.(state := NotStarted, failed := false, phase := Launched)
  }

  function StartConn(stage: Stage, c: Conn): Conn {
    ResumeConn(if stage.Error? then ResetConn(c) else c)
  }

  function StartConns(s: State): seq<Conn> {
    seq(|s.conns|, i requires 0 <= i < |s.conns| => StartConn(s.stage, s.conns[i]))
  }

  /** The connection of the first round takes everything beyond the prefix. */
  function FirstConn(prefix: int, size: int): Conn {
    NewConn(Chunk(prefix, size - 1, 0), prefix).(phase := Launched)
  }

  /** Opens the file and launches either the first connection or the ones to resume. */
  function StartState(s: State): State {
    var slow := SlowStart.New(s.max);
    if s.conns != [] then
      s.(conns := StartConns(s), slow := slow, stage := SlowStarting, loop := Waiting, cancelled := false)
    else if SlowStart.BatchSize(slow) <= 0 then
      s.(slow := slow, stage := Steady, loop := Waiting, cancelled := false)
    else if s.prefix >= s.size then
      s.(slow := slow, stage := Done, loop := Expanding, cancelled := false)
    else
      s.(conns := [FirstConn(s.prefix, s.size)],
         slow := SlowStart.Commit(slow, 1), stage := SlowStarting, loop := Expanding, cancelled := false)
  }

  /** The loop after splitting: when nothing was worth splitting, expansion is over. */
  function Grown(s: State, conns: seq<Conn>): State {
    var launched := |conns| - |s.conns|;
    if launched <= 0 then
      s.(conns := conns, stage := Steady, loop := Waiting)
    else
      s.(conns := conns, loop := Committing(launched))
  }

  /** Splits up to `batch` ranges. */
  function SplitBatch(s: State, batch: nat): State {
    Grown(s, SplitUpTo(s.conns, batch))
  }

  /** After the completion test: stop expanding, or split off one more batch. */
  function ExpandState(s: State): State {
    var batch := SlowStart.BatchSize(s.slow);
    if batch <= 0 then s.(stage := Steady, loop := Waiting) else SplitBatch(s, batch)
  }

  function LaunchConn(c: Conn): Conn {
    if c.phase.Created? then c.(phase := Launched) else c
  }

  function LaunchConns(conns: seq<Conn>): seq<Conn> {
    seq(|conns|, i requires 0 <= i < |conns| => LaunchConn(conns[i]))
  }

  /** The batch is committed to the controller and its goroutines start. */
  function CommitState(s: State): State
    requires s.loop.Committing?
  {
    s.(conns := LaunchConns(s.conns),
       slow := SlowStart.Commit(s.slow, s.loop.count),
       loop := Expanding)
  }

  // ----- Transitions -----

  predicate Quiescent(conns: seq<Conn>) {
    forall i :: 0 <= i < |conns| ==> conns[i].phase.Stopped?
  }

  /** Events of a single connection: everything but helping another one. */
  predicate ConnPossible(c: Conn, e: Event) {
    match e
    case Begin(_) => c.phase.Launched?
    case Request(_) => c.phase.Ready?
    case Accept(_) => c.phase.Requesting?
    case Announce(_) => c.phase.Accepted?
    case Reserve(_, bytes) => c.phase.Streaming? && 1 <= |bytes| <= BUFFER_SIZE
    case Write(_) => c.phase.Reserved?
    case WriteError(_, n) => c.phase.Reserved? && n <= |c.phase.data|
    case Account(_, _) => c.phase.Written?
    case EndOfBody(_) => c.phase.Streaming?
    case Fail(_, err) => !err.NoError? && (c.phase.Requesting? || (c.phase.Streaming? && err.Other?))
    case Register(_) => c.phase.Erring?
    case Report(_) => c.phase.Reporting?
    case Mark(_) => c.phase.Reported?
    case Quit(_) => c.phase.Ready? || c.phase.Requesting? || c.phase.Streaming?
    case Complete(_) => c.phase.Completing?
    case _ => false
  }

  predicate Local(e: Event) {
    && !e.Start? && !e.Receive? && !e.Check? && !e.Expand? && !e.Commit?
    && !e.Help? && !e.Cancel? && !e.PauseDone? && !e.Finish?
  }

  /** What the code itself requires for an event to happen. */
  predicate Possible(s: State, e: Event) {
    match e
    case Start => (s.stage.Resolved? || s.stage.Paused? || s.stage.Error?) && Quiescent(s.conns)
    case Receive => s.stage.SlowStarting? && s.loop.Expanding? && s.slow.signalled
    case Check => s.loop.Signalled?
    case Expand => s.loop.Checked?
    case Commit => s.loop.Committing?
    case Help(i) => i < |s.conns| && s.conns[i].phase.Drained?
    case Cancel => !s.stage.Resolved?
    case PauseDone => s.cancelled && Quiescent(s.conns) && (s.loop.NoLoop? || s.loop.Expanding? || s.loop.Waiting?)
    case Finish =>
      && (s.stage.SlowStarting? || s.stage.Steady?)
      && s.loop.Waiting? && !s.cancelled && Quiescent(s.conns)
    case _ => e.i < |s.conns| && ConnPossible(s.conns[e.i], e) && (e.Quit? ==> s.cancelled)
  }

  /** What is assumed of the server: inside the requested range the body is the file's
      content (beyond it, anything), and a clean end comes only after the whole range. */
  ghost predicate Honest(server: seq<byte>, c: Conn, e: Event)
    requires ConnPossible(c, e)
  {
    && (e.Reserve? ==> forall k :: 0 <= k < |e.bytes| && c.chunk.Next() + k <= c.phase.last ==>
          0 <= c.chunk.Next() + k < |server| && e.bytes[k] == server[c.chunk.Next() + k])
    && (e.EndOfBody? ==> c.chunk.Next() > c.phase.last)
  }

  ghost predicate Enabled(server: seq<byte>, s: State, e: Event) {
    Possible(s, e) && (Local(e) ==> Honest(server, s.conns[e.i], e))
  }

  function WriteAt(file: seq<byte>, offset: int, data: seq<byte>): seq<byte> {
    seq(|file|, k requires 0 <= k < |file| =>
      if offset <= k < offset + |data| then data[k - offset] else file[k])
  }

  function ReserveConn(c: Conn, bytes: seq<byte>): Conn
    requires c.phase.Streaming?
  {
    var remain := c.chunk.Remain();
    if remain <= 0 then c.(phase := Drained)
    else if remain < |bytes| then c.(phase := Reserved(c.phase.last, c.chunk.Next(), bytes[..remain], true))
    else c.(phase := Reserved(c.phase.last, c.chunk.Next(), bytes, false))
  }

  function AccountConn(c: Conn, rate: int): Conn
    requires c.phase.Written?
  {
    var n := c.phase.count;
    c.(chunk := c.chunk.(downloaded := c.chunk.downloaded + n),
       downloaded := c.downloaded + n,
       speed := rate,
       phase := if c.phase.finished then Drained else Streaming(c.phase.last))
  }

  /** What an event of a single connection does to it. */
  function ConnStep(c: Conn, e: Event): Conn
    requires ConnPossible(c, e)
  {
    match e
    case Begin(_) => c.(state := Connecting, retries := 0, phase := Ready)
    case Request(_) => c.(phase := if c.chunk.Remain() <= 0 then Drained else Requesting(c.chunk.end))
    case Accept(_) => c.(state := Downloading, failed := false, phase := Accepted(c.phase.last))
    case Announce(_) => c.(phase := Streaming(c.phase.last))
    case Reserve(_, bytes) => ReserveConn(c, bytes)
    case Write(_) => c.(phase := Written(c.phase.last, |c.phase.data|, c.phase.finished))
    case WriteError(_, _) => c.(phase := Erring(Other))
    case Account(_, rate) => AccountConn(c, rate)
    case EndOfBody(_) => c.(phase := Drained)
    case Fail(_, err) => c.(phase := Erring(err))
    case Register(_) => RegisterConn(c)
    case Report(_) => c.(phase := if c.lastErr == Http(FORBIDDEN) then Stopped else Reported)
    case Mark(_) => c.(state := Failed, phase := if c.retries >= 3 then Stopped else Ready)
    case Quit(_) => c.(phase := Stopped)
    case Complete(_) => c.(completed := true, state := Completed, phase := Stopped)
  }

  function FileStep(file: seq<byte>, c: Conn, e: Event): seq<byte>
    requires ConnPossible(c, e)
  {
    match e
    case Write(_) => WriteAt(file, c.phase.offset, c.phase.data)
    case WriteError(_, n) => WriteAt(file, c.phase.offset, c.phase.data[..n])
    case _ => file
  }

  function SlowStep(slow: SlowStart.Controller, e: Event): SlowStart.Controller {
    match e
    case Announce(_) => SlowStart.ConnectSucceeded(slow)
    case Report(_) => SlowStart.ConnectFailed(slow)
    case _ => slow
  }

  function HelpState(s: State, h: nat): State
    requires h < |s.conns|
  {
    var v := Slowest(s.conns, h);
    if v < 0 then
      s.(conns := s.conns[h := s.conns[h].(phase := Completing)])
    else
      s.(conns := Steal(s.conns, h, v), retired := s.retired + [s.conns[h].chunk])
  }

  function Next(s: State, e: Event): State
    requires Possible(s, e)
  {
    match e
    case Start => StartState(s)
    case Receive => s.(slow := s.slow.(signalled := false), loop := Signalled)
    case Check => s.(loop := if AllDone(s.conns, s.size) then Waiting else Checked)
    case Expand => ExpandState(s)
    case Commit => CommitState(s)
    case Help(i) => HelpState(s, i)
    case Cancel => s.(cancelled := true)
    case PauseDone => s.(stage := Paused, loop := NoLoop)
    case Finish => s.(stage := if FinalError(s.conns, s.size) >= 0 then Error else Done, loop := NoLoop)
    case _ =>
      var c := s.conns[e.i];
      s.(conns := s.conns[e.i := ConnStep(c, e)], file := FileStep(s.file, c, e), slow := SlowStep(s.slow, e))
  }

  // ----- Persistence -----

  /** The fields of a connection that are saved; failure flags are not among them. */
  datatype Stored = Stored(state: ConnState, chunk: Chunk, downloaded: int, completed: bool)

  function Store(s: State): seq<Stored> {
    seq(|s.conns|, i requires 0 <= i < |s.conns| =>
      Stored(s.conns[i].state, s.conns[i].chunk, s.conns[i].downloaded, s.conns[i].completed))
  }

  function Load(saved: Stored): Conn {
    Conn(saved.state, saved.chunk, saved.downloaded, saved.completed, false, 0, NoError, 0, Stopped)
  }

  /** A fresh fetcher with nothing fetched beyond the prefetched prefix. */
  function Fresh(file: seq<byte>, prefix: int, max: int): State {
    State(|file|, prefix, max, file, [], [], SlowStart.New(max), Resolved, NoLoop, false)
  }

  /** A new fetcher built from saved connections and the file found on disk.  `retired` and
      `prefix` are carried along as history; with nothing saved it starts from scratch. */
  function Restore(saved: seq<Stored>, file: seq<byte>, retired: seq<Chunk>, prefix: int, max: int): State {
    if saved == [] then Fresh(file, 0, max) else
      Fresh(file, prefix, max).(
        conns := seq(|saved|, i requires 0 <= i < |saved| => Load(saved[i])),
        retired := retired)
  }
}
