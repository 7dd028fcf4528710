/** The slow-start controller of the HTTP fetcher: it decides how many connections the
    next batch may launch and when a batch has been answered. */
module SlowStart {
  import opened Basics

  function Pow2(k: nat): nat {
    if k == 0 then 1 else 2 * Pow2(k - 1)
  }

  /** The controller's fields as a value.  `batches` and `full` are history: how many
      batches were committed, and whether each had the size the controller offered. */
  datatype Controller = Controller(
    max: int,
    launched: int,
    pending: int,
    ready: int,
    nextBatch: int,
    signalled: bool,
    batches: nat,
    full: bool)

  function New(max: int): Controller {
    Controller(max, 0, 0, 0, 1, false, 0, true)
  }

  /** Connections the next batch may launch; 0 once the maximum is reached. */
  function BatchSize(c: Controller): int {
    if c.max - c.launched <= 0 then 0 else Min(c.nextBatch, c.max - c.launched)
  }

  function Commit(c: Controller, count: int): Controller {
    c.(launched := c.launched + count,
       nextBatch := 2 * c.nextBatch,
       pending := count,
       ready := 0,
       batches := c.batches + 1,
       full := c.full && count == BatchSize(c))
  }

  function ConnectSucceeded(c: Controller): Controller {
    var ready := c.ready + 1;
    c.(ready := ready, signalled := c.signalled || ready >= c.pending)
  }

  function ConnectFailed(c: Controller): Controller {
    var pending := if c.pending > 0 then c.pending - 1 else c.pending;
    c.(pending := pending, signalled := c.signalled || pending == 0)
  }

  /** Growth is exponential and capped: after k batches at most 2^k - 1 connections exist,
      never more than the configured maximum, and exactly the smaller of the two when
      every batch was launched in full. */
  ghost predicate Growth(c: Controller) {
    && c.max >= 0
    && c.nextBatch == Pow2(c.batches) >= 1
    && 0 <= c.launched <= Min(c.max, Pow2(c.batches) - 1)
    && (c.full ==> c.launched == Min(c.max, Pow2(c.batches) - 1))
  }

  lemma CommitKeepsGrowth(c: Controller, count: int)
    requires Growth(c) && 1 <= count <= BatchSize(c)
    ensures Growth(Commit(c, count))
  {
    assert Pow2(c.batches + 1) == 2 * Pow2(c.batches);
  }

  /** Commits a list of batch sizes in order. */
  function CommitAll(c: Controller, counts: seq<int>): Controller {
    if counts == [] then c else Commit(CommitAll(c, counts[..|counts| - 1]), counts[|counts| - 1])
  }

  /** Each batch of the list was one the controller could have offered. */
  ghost predicate Offered(c: Controller, counts: seq<int>) {
    counts != [] ==>
      var front := counts[..|counts| - 1];
      Offered(c, front) && 1 <= counts[|counts| - 1] <= BatchSize(CommitAll(c, front))
  }

  /** Each batch of the list had the full size offered. */
  ghost predicate OfferedInFull(c: Controller, counts: seq<int>) {
    counts != [] ==>
      var front := counts[..|counts| - 1];
      OfferedInFull(c, front) && counts[|counts| - 1] == BatchSize(CommitAll(c, front))
  }

  lemma {:induction false} CommitAllHistory(max: nat, counts: seq<int>)
    requires Offered(New(max), counts)
    ensures var c := CommitAll(New(max), counts);
            Growth(c) && c.max == max && c.batches == |counts| && c.full == OfferedInFull(New(max), counts)
  {
    if counts != [] {
      var front := counts[..|counts| - 1];
      CommitAllHistory(max, front);
      CommitKeepsGrowth(CommitAll(New(max), front), counts[|counts| - 1]);
    }
  }

  /** The bound on the number of launched connections, for every list of batches. */
  lemma BatchesGrowExponentially(max: nat, counts: seq<int>)
    requires Offered(New(max), counts)
    ensures CommitAll(New(max), counts).launched <= Min(max, Pow2(|counts|) - 1)
    ensures OfferedInFull(New(max), counts) ==>
              CommitAll(New(max), counts).launched == Min(max, Pow2(|counts|) - 1)
  {
    CommitAllHistory(max, counts);
  }

  // ----- When a batch wakes the download loop -----

  /** One connection of the batch reports success or a counted failure. */
  function Answer(c: Controller, success: bool): Controller {
    if success then ConnectSucceeded(c) else ConnectFailed(c)
  }

  function AnswerAll(c: Controller, answers: seq<bool>): Controller {
    if answers == [] then c else Answer(AnswerAll(c, answers[..|answers| - 1]), answers[|answers| - 1])
  }

  function Failures(answers: seq<bool>): nat {
    if answers == [] then 0
    else Failures(answers[..|answers| - 1]) + if answers[|answers| - 1] then 0 else 1
  }

  /** Some success came when at least `pending` answers had been given, itself included. */
  ghost predicate LateSuccess(answers: seq<bool>, pending: int) {
    exists k :: pending - 1 <= k && 0 <= k < |answers| && answers[k]
  }

  lemma LateSuccessStep(answers: seq<bool>, pending: int)
    requires answers != []
    ensures var n := |answers| - 1;
            LateSuccess(answers, pending) <==> LateSuccess(answers[..n], pending) || (n + 1 >= pending && answers[n])
  {
    var n := |answers| - 1;
    if k :| pending - 1 <= k && 0 <= k < n && answers[..n][k] {
      assert answers[k];
    }
    if k :| pending - 1 <= k && 0 <= k < |answers| && answers[k] {
      assert k == n || answers[..n][k];
    }
  }

  /** The controller after any answers to a batch of c.pending connections. */
  lemma {:induction false} AnsweredSoFar(c: Controller, answers: seq<bool>)
    requires c.pending >= 1 && c.ready == 0
    ensures var d, f := AnswerAll(c, answers), Failures(answers);
            && f <= |answers|
            && d.ready == |answers| - f
            && d.pending == (if f < c.pending then c.pending - f else 0)
            && (d.signalled <==> c.signalled || LateSuccess(answers, c.pending) || f >= c.pending)
  {
    if answers != [] {
      AnsweredSoFar(c, answers[..|answers| - 1]);
      LateSuccessStep(answers, c.pending);
    }
  }

  /** After any list of answers to a batch, in which a connection that retries or starts on
      another range answers again, the download loop has been woken exactly when some success
      came at a time when as many answers had been given as the batch has connections, or
      that many failures were counted. */
  lemma BatchSignalsIff(c: Controller, count: int, answers: seq<bool>)
    requires count >= 1
    ensures AnswerAll(Commit(c, count), answers).signalled <==>
            c.signalled || LateSuccess(answers, count) || Failures(answers) >= count
  {
    AnsweredSoFar(Commit(c, count), answers);
  }

  /** The controller object shared by the download loop and the connections. */
  class SlowStartController {
    var maxConnections: int
    var totalLaunched: int
    var batchPending: int
    var batchReady: int
    var nextBatchSize: int
    var signalled: bool // the one-slot expansion channel holds a token
    ghost var batches: nat
    ghost var full: bool

    ghost function View(): Controller
      reads this
    {
      Controller(maxConnections, totalLaunched, batchPending, batchReady, nextBatchSize, signalled, batches, full)
    }

    constructor (max: int)
      ensures View() == New(max)
    {
      maxConnections := max;
      totalLaunched, batchPending, batchReady, nextBatchSize := 0, 0, 0, 1;
      signalled := false;
      batches, full := 0, true;
    }

    method OnConnectSuccess() returns (complete: bool)
      modifies this
      ensures View() == ConnectSucceeded(old(View()))
      ensures complete <==> batchReady >= batchPending
    {
      batchReady := batchReady + 1;
      if batchReady >= batchPending {
        signalled := true;
        return true;
      }
      return false;
    }

    method OnConnectFailed()
      modifies this
      ensures View() == ConnectFailed(old(View()))
    {
      if batchPending > 0 {
        batchPending := batchPending - 1;
      }
      if batchPending == 0 {
        signalled := true;
      }
    }

    method GetNextBatchSize() returns (count: int)
      ensures count == BatchSize(View())
    {
      var remaining := maxConnections - totalLaunched;
      if remaining <= 0 {
        return 0;
      }
      count := nextBatchSize;
      if count > remaining {
        count := remaining;
      }
    }

    method CommitBatch(count: int)
      modifies this
      ensures View() == Commit(old(View()), count)
    {
      full := full && count == BatchSize(View());
      batches := batches + 1;
      totalLaunched := totalLaunched + count;
      nextBatchSize := 2 * nextBatchSize;
      batchPending := count;
      batchReady := 0;
    }

    /** The download loop receives from the expansion channel. */
    method TakeSignal()
      modifies this
      ensures View() == old(View()).(signalled := false)
    {
      signalled := false;
    }
  }
}
