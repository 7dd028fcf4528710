/** The fetcher object: connections and chunks shared between goroutines, a target file
    written in place.  Each method is one section under the connection lock (or one disk
    write); each is proved to perform the matching event of RangedDownload. */
module HttpFetcher {
  import opened Basics
  import opened Sums
  import D = RangedDownload
  import I = RangedInvariant
  import T = RangedTheorems
  import SlowStart

  class Chunk {
    var begin: int
    var end: int
    var downloaded: int

    constructor (begin: int, end: int)
      ensures View() == D.Chunk(begin, end, 0)
    {
      this.begin := begin;
      this.end := end;
      downloaded := 0;
    }

    ghost function View(): D.Chunk
      reads this
    {
      D.Chunk(begin, end, downloaded)
    }

    function Remain(): (r: int)
      reads this
      ensures r == View().Remain()
    {
      end - begin + 1 - downloaded
    }
  }

  /** `phase` stands for the local variables of the connection's goroutine. */
  class Connection {
    const chunk: Chunk
    var state: D.ConnState
    var downloaded: int
    var completed: bool
    var failed: bool
    var retryTimes: int
    var lastErr: D.Failure
    var speed: int
    var phase: D.Phase

    constructor (chunk: Chunk, downloaded: int)
      ensures this.chunk == chunk
      ensures View() == D.NewConn(chunk.View(), downloaded)
    {
      this.chunk := chunk;
      state := D.NotStarted;
      this.downloaded := downloaded;
      completed, failed, retryTimes, lastErr, speed := false, false, 0, D.NoError, 0;
      phase := D.Created;
    }

    ghost function View(): D.Conn
      reads this, chunk
    {
      D.Conn(state, chunk.View(), downloaded, completed, failed, retryTimes, lastErr, speed, phase)
    }

    constructor Loaded(saved: D.Stored, chunk: Chunk)
      requires chunk.View() == saved.chunk
      ensures this.chunk == chunk && View() == D.Load(saved)
    {
      this.chunk := chunk;
      state, downloaded, completed := saved.state, saved.downloaded, saved.completed;
      failed, retryTimes, lastErr, speed := false, 0, D.NoError, 0;
      phase := D.Stopped;
    }

    function Saved(): D.Stored
      reads this, chunk
    {
      D.Stored(state, D.Chunk(chunk.begin, chunk.end, chunk.downloaded), downloaded, completed)
    }

    method Begin(ghost i: nat)
      requires D.ConnPossible(View(), D.Begin(i))
      modifies this
      ensures View() == D.ConnStep(old(View()), D.Begin(i))
    {
      state := D.Connecting;
      retryTimes := 0;
      phase := D.Ready;
    }

    method Request(ghost i: nat)
      requires D.ConnPossible(View(), D.Request(i))
      modifies this
      ensures View() == D.ConnStep(old(View()), D.Request(i))
    {
      if chunk.Remain() <= 0 {
        phase := D.Drained;
      } else {
        phase := D.Requesting(chunk.end);
      }
    }

    method Accept(ghost i: nat)
      requires D.ConnPossible(View(), D.Accept(i))
      modifies this
      ensures View() == D.ConnStep(old(View()), D.Accept(i))
    {
      state := D.Downloading;
      failed := false;
      phase := D.Accepted(phase.last);
    }

    method Announced(ghost i: nat)
      requires D.ConnPossible(View(), D.Announce(i))
      modifies this
      ensures View() == D.ConnStep(old(View()), D.Announce(i))
    {
      phase := D.Streaming(phase.last);
    }

    /** A read returned `buf`: decide how much of it to write, and where. */
    method Reserve(ghost i: nat, buf: seq<byte>)
      requires D.ConnPossible(View(), D.Reserve(i, buf))
      modifies this
      ensures View() == D.ConnStep(old(View()), D.Reserve(i, buf))
    {
      var remain := chunk.Remain();
      if remain <= 0 {
        phase := D.Drained;
        return;
      }
      var n, finished := |buf|, false;
      if remain < n {
        n := remain;
        finished := true;
      }
      var writeOffset := chunk.begin + chunk.downloaded;
      assert n == |buf| ==> buf[..n] == buf;
      phase := D.Reserved(phase.last, writeOffset, buf[..n], finished);
    }

    method Wrote(ghost i: nat)
      requires D.ConnPossible(View(), D.Write(i))
      modifies this
      ensures View() == D.ConnStep(old(View()), D.Write(i))
    {
      phase := D.Written(phase.last, |phase.data|, phase.finished);
    }

    method Account(ghost i: nat, rate: int)
      requires D.ConnPossible(View(), D.Account(i, rate))
      modifies this, chunk
      ensures View() == D.ConnStep(old(View()), D.Account(i, rate))
    {
      chunk.downloaded := chunk.downloaded + phase.count;
      downloaded := downloaded + phase.count;
      speed := rate;
      phase := if phase.finished then D.Drained else D.Streaming(phase.last);
    }

    method EndOfBody(ghost i: nat)
      requires D.ConnPossible(View(), D.EndOfBody(i))
      modifies this
      ensures View() == D.ConnStep(old(View()), D.EndOfBody(i))
    {
      phase := D.Drained;
    }

    /** The attempt returned an error. */
    method Fail(err: D.Failure)
      modifies this
      ensures View() == old(View()).(phase := D.Erring(err))
    {
      phase := D.Erring(err);
    }

    /** A 403 marks the connection as failed at once, another counted failure is counted, and
        anything else is retried. */
    method Register(ghost i: nat)
      requires D.ConnPossible(View(), D.Register(i))
      modifies this
      ensures View() == D.ConnStep(old(View()), D.Register(i))
    {
      lastErr := phase.err;
      if D.Counted(lastErr) {
        phase := D.Reporting;
        if lastErr.code == D.FORBIDDEN {
          state := D.Failed;
          failed := true;
          return;
        }
        retryTimes := retryTimes + 1;
        failed := true;
        return;
      }
      state := D.Failed;
      phase := D.Ready;
    }

    /** The controller knows: after a 403 the goroutine returns. */
    method Told(ghost i: nat)
      requires D.ConnPossible(View(), D.Report(i))
      modifies this
      ensures View() == D.ConnStep(old(View()), D.Report(i))
    {
      phase := if lastErr == D.Http(D.FORBIDDEN) then D.Stopped else D.Reported;
    }

    /** The connection is marked as failed, and gives up after three counted failures. */
    method Mark(ghost i: nat)
      requires D.ConnPossible(View(), D.Mark(i))
      modifies this
      ensures View() == D.ConnStep(old(View()), D.Mark(i))
    {
      state := D.Failed;
      phase := if retryTimes >= 3 then D.Stopped else D.Ready;
    }

    method Quit(ghost i: nat)
      requires D.ConnPossible(View(), D.Quit(i))
      modifies this
      ensures View() == D.ConnStep(old(View()), D.Quit(i))
    {
      phase := D.Stopped;
    }

    method Complete(ghost i: nat)
      requires D.ConnPossible(View(), D.Complete(i))
      modifies this
      ensures View() == D.ConnStep(old(View()), D.Complete(i))
    {
      completed := true;
      state := D.Completed;
      phase := D.Stopped;
    }

    /** Nobody is worth robbing. */
    method GiveUpHelping()
      modifies this
      ensures View() == old(View()).(phase := D.Completing)
    {
      phase := D.Completing;
    }

    method Launch()
      modifies this
      ensures View() == old(View()).(phase := D.Launched)
    {
      phase := D.Launched;
    }

    /** Takes over the latter half of what another connection has left. */
    method TakeHalf(slowest: Connection)
      requires slowest != this && slowest.chunk != chunk
      modifies this, chunk, slowest.chunk
      ensures var c := old(slowest.chunk.View());
              var m := c.end - c.Remain() / 2;
              && View() == old(View()).(chunk := D.Chunk(m, c.end, 0), retries := 0, phase := D.Ready)
              && slowest.View() == old(slowest.View()).(chunk := c.(end := m - 1))
    {
      chunk.begin := slowest.chunk.end - slowest.chunk.Remain() / 2;
      chunk.end := slowest.chunk.end;
      chunk.downloaded := 0;
      slowest.chunk.end := chunk.begin - 1;
      retryTimes := 0;
      phase := D.Ready;
    }

    /** Retry after an error: forget the failures of an unfinished connection. */
    method Reset()
      modifies this
      ensures View() == D.ResetConn(old(View()))
      ensures !completed && !old(state.Completed?) ==>
                state.NotStarted? && !failed && retryTimes == 0 && lastErr.NoError?
    {
      if !completed && !state.Completed? {
        state := D.NotStarted;
        failed := false;
        retryTimes := 0;
        lastErr := D.NoError;
      }
    }

    method Resume()
      modifies this
      ensures View() == D.ResumeConn(old(View()))
      ensures !completed && !old(state.Completed?) ==>
                (phase.Launched? && state.NotStarted? && !failed)
                || old(state.Failed? && failed && (lastErr == D.Http(403) || retryTimes >= 3))
    {
      if completed || state.Completed? {
        return;
      }
      if state.Failed? && failed {
        if lastErr == D.Http(D.FORBIDDEN) {
          return;
        }
        if retryTimes >= 3 {
          return;
        }
      }
      state := D.NotStarted;
      failed := false;
      phase := D.Launched;
    }
  }

  class Fetcher {
    ghost const server: seq<byte>
    const file: array<byte>
    const prefetched: int // the prefix this object fetched itself
    ghost const prefix: int
    const max: int
    var connections: seq<Connection>
    var slowStart: SlowStart.SlowStartController
    var stage: D.Stage
    var loop: D.Loop
    var cancelled: bool
    ghost var retired: seq<D.Chunk>
    ghost var Repr: set<object>

    /** Objects are owned and not shared between connections. */
    ghost predicate Shape()
      reads this, Repr
    {
      && this in Repr && file in Repr && slowStart in Repr
      && (connections == [] ==> prefetched == prefix)
      && (forall i :: 0 <= i < |connections| ==> connections[i] in Repr && connections[i].chunk in Repr)
      && (forall i, j :: 0 <= i < j < |connections| ==>
            connections[i] != connections[j] && connections[i].chunk != connections[j].chunk)
    }

    ghost function Conns(): (r: seq<D.Conn>)
      requires Shape()
      reads this, Repr
      ensures |r| == |connections| && forall i :: 0 <= i < |r| ==> r[i] == connections[i].View()
    {
      seq(|connections|, i requires 0 <= i < |connections| && Shape() reads this, Repr => connections[i].View())
    }

    ghost function View(): D.State
      requires Shape()
      reads this, Repr
    {
      D.State(file.Length, prefix, max, file[..], Conns(), retired, slowStart.View(), stage, loop, cancelled)
    }

    ghost predicate Valid()
      reads this, Repr
    {
      Shape() && I.Inv(server, View())
    }

    /** A fetcher whose resource is resolved; `prefix` bytes were prefetched. */
    constructor (ghost server: seq<byte>, file: array<byte>, prefix: nat, max: int)
      requires file.Length == |server| > 0 && max >= 1
      ensures Valid() && fresh(Repr - {file})
      ensures View() == D.Fresh(file[..], prefix, max) && this.server == server
    {
      this.server := server;
      this.file := file;
      this.prefetched := prefix;
      this.prefix := prefix;
      this.max := max;
      connections := [];
      var controller := new SlowStart.SlowStartController(max);
      slowStart := controller;
      stage, loop, cancelled := D.Resolved, D.NoLoop, false;
      retired := [];
      Repr := {this, file, controller};
      new;
      assert Conns() == [];
      I.FreshInv(server, file[..], prefix, max);
    }

    /** A new fetcher for saved connections; the prefetch of the fetcher that saved them and
        its retired ranges are history. */
    constructor Restored(ghost server: seq<byte>, file: array<byte>, saved: seq<D.Stored>,
                         ghost retired: seq<D.Chunk>, ghost prefix: nat, max: int)
      ensures Shape() && fresh(Repr - {file}) && this.server == server
      ensures View() == D.Restore(saved, file[..], retired, prefix, max)
    {
      this.server := server;
      this.file := file;
      this.prefetched := 0;
      this.prefix := if saved == [] then 0 else prefix;
      this.max := max;
      connections := [];
      var controller := new SlowStart.SlowStartController(max);
      slowStart := controller;
      stage, loop, cancelled := D.Resolved, D.NoLoop, false;
      this.retired := if saved == [] then [] else retired;
      var conns, objects := LoadAll(saved);
      connections := conns;
      Repr := {this, file, controller} + objects;
      new;
      assert Conns() == D.Restore(saved, file[..], retired, prefix, max).conns;
    }

    static method LoadAll(saved: seq<D.Stored>) returns (conns: seq<Connection>, ghost objects: set<object>)
      ensures |conns| == |saved| && fresh(objects)
      ensures forall i :: 0 <= i < |conns| ==>
        conns[i] in objects && conns[i].chunk in objects && conns[i].View() == D.Load(saved[i])
      ensures forall i, j :: 0 <= i < j < |conns| ==> conns[i] != conns[j] && conns[i].chunk != conns[j].chunk
    {
      conns, objects := [], {};
      for n := 0 to |saved|
        invariant |conns| == n && fresh(objects)
        invariant forall i :: 0 <= i < n ==>
          conns[i] in objects && conns[i].chunk in objects && conns[i].View() == D.Load(saved[i])
        invariant forall i, j :: 0 <= i < j < n ==> conns[i] != conns[j] && conns[i].chunk != conns[j].chunk
      {
        var chunk := new Chunk(saved[n].chunk.begin, saved[n].chunk.end);
        chunk.downloaded := saved[n].chunk.downloaded;
        var conn := new Connection.Loaded(saved[n], chunk);
        conns, objects := conns + [conn], objects + {chunk, conn};
      }
    }

    /** The connections as they are saved. */
    method Store() returns (saved: seq<D.Stored>)
      requires Shape()
      ensures saved == D.Store(View())
    {
      saved := [];
      for n := 0 to |connections|
        invariant saved == D.Store(View())[..n]
      {
        saved := saved + [connections[n].Saved()];
      }
    }

    // ----- Sections of runConnection and downloadChunkOnce -----

    /** One connection changed in place, everything else stayed. */
    twostate lemma OneChanged(i: nat)
      requires old(Shape()) && Shape() && connections == old(connections) && i < |connections|
      requires forall j :: 0 <= j < |connections| && j != i ==>
                 unchanged(connections[j]) && unchanged(connections[j].chunk)
      ensures Conns() == old(Conns())[i := connections[i].View()]
    {
    }

    /** A connection took its step, and so did the file and the controller. */
    twostate lemma LocalDone(i: nat, new e: D.Event)
      requires old(Shape()) && D.Local(e) && e.i == i && D.Possible(old(View()), e)
      requires connections == old(connections) && slowStart == old(slowStart) && Repr == old(Repr)
      requires stage == old(stage) && loop == old(loop) && cancelled == old(cancelled) && retired == old(retired)
      requires i < |connections|
      requires forall j :: 0 <= j < |connections| && j != i ==>
                 unchanged(connections[j]) && unchanged(connections[j].chunk)
      requires connections[i].View() == D.ConnStep(old(connections[i].View()), e)
      requires file[..] == D.FileStep(old(file[..]), old(connections[i].View()), e)
      requires slowStart.View() == D.SlowStep(old(slowStart.View()), e)
      ensures Shape() && View() == D.Next(old(View()), e)
    {
      OneChanged(i);
      assert View() == D.Next(old(View()), e);
    }

    method Begin(i: nat)
      requires Shape() && D.Possible(View(), D.Begin(i))
      modifies Repr
      ensures Shape() && Repr == old(Repr) && View() == D.Next(old(View()), D.Begin(i))
    {
      connections[i].Begin(i);
      LocalDone(i, D.Begin(i));
    }

    method Request(i: nat)
      requires Shape() && D.Possible(View(), D.Request(i))
      modifies Repr
      ensures Shape() && Repr == old(Repr) && View() == D.Next(old(View()), D.Request(i))
    {
      connections[i].Request(i);
      LocalDone(i, D.Request(i));
    }

    method Accept(i: nat)
      requires Shape() && D.Possible(View(), D.Accept(i))
      modifies Repr
      ensures Shape() && Repr == old(Repr) && View() == D.Next(old(View()), D.Accept(i))
    {
      connections[i].Accept(i);
      LocalDone(i, D.Accept(i));
    }

    /** The controller learns of the answer. */
    method Announce(i: nat)
      requires Shape() && D.Possible(View(), D.Announce(i))
      modifies Repr
      ensures Shape() && Repr == old(Repr) && View() == D.Next(old(View()), D.Announce(i))
    {
      connections[i].Announced(i);
      var complete := slowStart.OnConnectSuccess();
      LocalDone(i, D.Announce(i));
    }

    method Reserve(i: nat, buf: seq<byte>)
      requires Shape() && D.Possible(View(), D.Reserve(i, buf))
      modifies Repr
      ensures Shape() && Repr == old(Repr) && View() == D.Next(old(View()), D.Reserve(i, buf))
    {
      connections[i].Reserve(i, buf);
      LocalDone(i, D.Reserve(i, buf));
    }

    method WriteFile(offset: int, data: seq<byte>)
      requires 0 <= offset && offset + |data| <= file.Length
      modifies file
      ensures file[..] == D.WriteAt(old(file[..]), offset, data)
    {
      for n := 0 to |data|
        invariant file[..] == D.WriteAt(old(file[..]), offset, data[..n])
      {
        file[offset + n] := data[n];
      }
      assert data[..|data|] == data;
    }

    /** The reserved bytes fit the file. */
    ghost predicate ReservedInFile(i: nat)
      requires Shape() && i < |connections| && connections[i].phase.Reserved?
      reads this, Repr
    {
      var p := connections[i].phase;
      0 <= p.offset && p.offset + |p.data| <= file.Length
    }

    /** The reserved bytes go to disk, outside the connection lock. */
    method Write(i: nat)
      requires Shape() && D.Possible(View(), D.Write(i)) && ReservedInFile(i)
      modifies Repr
      ensures Shape() && Repr == old(Repr) && View() == D.Next(old(View()), D.Write(i))
    {
      WriteFile(connections[i].phase.offset, connections[i].phase.data);
      connections[i].Wrote(i);
      LocalDone(i, D.Write(i));
    }

    /** The disk write fails after `n` bytes. */
    method WriteError(i: nat, n: nat)
      requires Shape() && D.Possible(View(), D.WriteError(i, n)) && ReservedInFile(i)
      modifies Repr
      ensures Shape() && Repr == old(Repr) && View() == D.Next(old(View()), D.WriteError(i, n))
    {
      WriteFile(connections[i].phase.offset, connections[i].phase.data[..n]);
      connections[i].Fail(D.Other);
      LocalDone(i, D.WriteError(i, n));
    }

    method Account(i: nat, rate: int)
      requires Shape() && D.Possible(View(), D.Account(i, rate))
      modifies Repr
      ensures Shape() && Repr == old(Repr) && View() == D.Next(old(View()), D.Account(i, rate))
    {
      connections[i].Account(i, rate);
      LocalDone(i, D.Account(i, rate));
    }

    method EndOfBody(i: nat)
      requires Shape() && D.Possible(View(), D.EndOfBody(i))
      modifies Repr
      ensures Shape() && Repr == old(Repr) && View() == D.Next(old(View()), D.EndOfBody(i))
    {
      connections[i].EndOfBody(i);
      LocalDone(i, D.EndOfBody(i));
    }

    /** A request or a read failed. */
    method Fail(i: nat, err: D.Failure)
      requires Shape() && D.Possible(View(), D.Fail(i, err))
      modifies Repr
      ensures Shape() && Repr == old(Repr) && View() == D.Next(old(View()), D.Fail(i, err))
    {
      connections[i].Fail(err);
      LocalDone(i, D.Fail(i, err));
    }

    method Register(i: nat)
      requires Shape() && D.Possible(View(), D.Register(i))
      modifies Repr
      ensures Shape() && Repr == old(Repr) && View() == D.Next(old(View()), D.Register(i))
    {
      connections[i].Register(i);
      LocalDone(i, D.Register(i));
    }

    /** The controller learns of a counted failure. */
    method Report(i: nat)
      requires Shape() && D.Possible(View(), D.Report(i))
      modifies Repr
      ensures Shape() && Repr == old(Repr) && View() == D.Next(old(View()), D.Report(i))
    {
      slowStart.OnConnectFailed();
      connections[i].Told(i);
      LocalDone(i, D.Report(i));
    }

    method Mark(i: nat)
      requires Shape() && D.Possible(View(), D.Mark(i))
      modifies Repr
      ensures Shape() && Repr == old(Repr) && View() == D.Next(old(View()), D.Mark(i))
    {
      connections[i].Mark(i);
      LocalDone(i, D.Mark(i));
    }

    method Complete(i: nat)
      requires Shape() && D.Possible(View(), D.Complete(i))
      modifies Repr
      ensures Shape() && Repr == old(Repr) && View() == D.Next(old(View()), D.Complete(i))
    {
      connections[i].Complete(i);
      LocalDone(i, D.Complete(i));
    }

    /** The goroutine notices that the download was cancelled. */
    method Quit(i: nat)
      requires Shape() && D.Possible(View(), D.Quit(i))
      modifies Repr
      ensures Shape() && Repr == old(Repr) && View() == D.Next(old(View()), D.Quit(i))
    {
      connections[i].Quit(i);
      LocalDone(i, D.Quit(i));
    }

    // ----- Work stealing -----

    method FindSlowest(helper: nat) returns (v: int)
      requires Shape() && helper < |connections|
      ensures v == D.Slowest(Conns(), helper)
    {
      v := -1;
      var maxRemainSeconds := 0;
      for i := 0 to |connections|
        invariant v == D.Slowest(Conns()[..i], helper)
        invariant maxRemainSeconds == if v < 0 then 0 else D.RemainSeconds(Conns()[v])
      {
        assert Conns()[..i + 1][..i] == Conns()[..i];
        var r := connections[i];
        assert Conns()[i] == r.View();
        if r == connections[helper] || r.completed || r.state.Failed? {
          continue;
        }
        var remain := r.chunk.Remain();
        if remain < D.STEAL_MIN {
          continue;
        }
        var remainSeconds := if r.speed > 0 then remain / r.speed else D.STEAL_SECONDS + 1;
        if remainSeconds > D.STEAL_SECONDS && remainSeconds > maxRemainSeconds {
          v := i;
          maxRemainSeconds := remainSeconds;
        }
      }
      assert Conns()[..|connections|] == Conns();
    }

    /** Everything but the connections stayed. */
    twostate predicate OnlyConns()
      reads this, file, slowStart
    {
      && stage == old(stage) && loop == old(loop) && cancelled == old(cancelled)
      && slowStart == old(slowStart) && slowStart.View() == old(slowStart.View())
      && file[..] == old(file[..])
    }

    /** The helper takes the latter half of the victim's remainder. */
    method StealFrom(h: nat, v: nat)
      requires Shape() && h < |connections| && v < |connections| && h != v
      modifies Repr
      ensures Shape() && Repr == old(Repr) && OnlyConns()
      ensures Conns() == D.Steal(old(Conns()), h, v)
      ensures retired == old(retired) + [old(connections[h].chunk.View())]
    {
      var helper, slowest := connections[h], connections[v];
      retired := retired + [helper.chunk.View()];
      helper.TakeHalf(slowest);
      assert connections[h].View().chunk == D.Steal(old(Conns()), h, v)[h].chunk;
      assert connections[v].View().chunk == D.Steal(old(Conns()), h, v)[v].chunk;
      assert forall i :: 0 <= i < |connections| && i != h && i != v ==>
          connections[i].View() == old(connections[i].View());
      assert Conns() == D.Steal(old(Conns()), h, v);
    }

    /** A connection whose range is finished helps another one, or is about to complete. */
    method Help(h: nat)
      requires Shape() && D.Possible(View(), D.Help(h))
      modifies Repr
      ensures Shape() && Repr == old(Repr) && View() == D.Next(old(View()), D.Help(h))
    {
      var v := FindSlowest(h);
      if v < 0 {
        HelpNobody(h);
      } else {
        StealFrom(h, v);
      }
    }

    method HelpNobody(h: nat)
      requires Shape() && h < |connections|
      modifies Repr
      ensures Shape() && Repr == old(Repr) && OnlyConns() && retired == old(retired)
      ensures Conns() == old(Conns())[h := old(connections[h].View()).(phase := D.Completing)]
    {
      connections[h].GiveUpHelping();
      OneChanged(h);
    }

    // ----- Slow start -----

    method FindLargest() returns (v: int)
      requires Shape()
      ensures v == D.Largest(Conns())
    {
      v := -1;
      var maxRemain := 0;
      for i := 0 to |connections|
        invariant v == D.Largest(Conns()[..i])
        invariant maxRemain == if v < 0 then 0 else Conns()[v].chunk.Remain()
      {
        assert Conns()[..i + 1][..i] == Conns()[..i];
        var conn := connections[i];
        assert Conns()[i] == conn.View();
        if conn.completed || conn.state.Failed? {
          continue;
        }
        var remain := conn.chunk.Remain();
        if remain > maxRemain && remain > 2 * D.STEAL_MIN {
          v := i;
          maxRemain := remain;
        }
      }
      assert Conns()[..|connections|] == Conns();
    }

    /** The latter half of a connection's remainder becomes a new connection. */
    method SplitOne(v: nat)
      requires Shape() && v < |connections|
      modifies Repr
      ensures Shape() && fresh(Repr - old(Repr)) && OnlyConns() && retired == old(retired)
      ensures Conns() == D.Split(old(Conns()), v)
    {
      var victim := connections[v];
      var splitPoint := victim.chunk.end - victim.chunk.Remain() / 2;
      var chunk := new Chunk(splitPoint + 1, victim.chunk.end);
      victim.chunk.end := splitPoint;
      var conn := new Connection(chunk, 0);
      connections := connections + [conn];
      Repr := Repr + {chunk, conn};
      assert Conns() == D.Split(old(Conns()), v);
    }

    /** Splits the range with the most bytes left, if any is worth it. */
    method SplitLargest() returns (split: bool)
      requires Shape()
      modifies Repr
      ensures Shape() && fresh(Repr - old(Repr)) && OnlyConns() && retired == old(retired)
      ensures var v := D.Largest(old(Conns()));
              split == (v >= 0) && Conns() == if v >= 0 then D.Split(old(Conns()), v) else old(Conns())
    {
      var v := FindLargest();
      split := v >= 0;
      if split {
        SplitOne(v);
      }
    }

    /** One round of a batch: split, or stop when nothing is worth splitting. */
    static lemma BatchRound(conns: seq<D.Conn>, n: nat, goal: seq<D.Conn>)
      requires n > 0 && D.SplitUpTo(conns, n) == goal
      ensures if D.Largest(conns) < 0 then conns == goal
              else D.SplitUpTo(D.Split(conns, D.Largest(conns)), n - 1) == goal
    {
    }

    static lemma BatchOver(conns: seq<D.Conn>, goal: seq<D.Conn>)
      requires D.SplitUpTo(conns, 0) == goal
      ensures conns == goal
    {
    }

    /** One round of the batch that is to end in `goal`. */
    method SplitRound(ghost n: nat, ghost goal: seq<D.Conn>) returns (split: bool)
      requires Shape() && n > 0 && D.SplitUpTo(Conns(), n) == goal
      modifies Repr
      ensures Shape() && fresh(Repr - old(Repr)) && View() == old(View()).(conns := Conns())
      ensures if split then D.SplitUpTo(Conns(), n - 1) == goal else Conns() == goal
    {
      BatchRound(Conns(), n, goal);
      split := SplitLargest();
    }

    method SplitBatch(batchSize: nat)
      requires Shape()
      modifies Repr
      ensures Shape() && fresh(Repr - old(Repr)) && View() == old(View()).(conns := Conns())
      ensures Conns() == D.SplitUpTo(old(Conns()), batchSize)
    {
      ghost var goal := D.SplitUpTo(Conns(), batchSize);
      for i := 0 to batchSize
        invariant Shape() && fresh(Repr - old(Repr)) && View() == old(View()).(conns := Conns())
        invariant D.SplitUpTo(Conns(), batchSize - i) == goal
      {
        var split := SplitRound(batchSize - i, goal);
        if !split {
          return;
        }
      }
      BatchOver(Conns(), goal);
    }

    method SumDownloaded() returns (total: int)
      requires Shape()
      ensures total == Sum(Conns(), D.FetchedBytes())
    {
      total := 0;
      for i := 0 to |connections|
        invariant total == Sum(Conns()[..i], D.FetchedBytes())
      {
        assert Conns()[..i + 1][..i] == Conns()[..i];
        total := total + connections[i].downloaded;
      }
      assert Conns()[..|connections|] == Conns();
    }

    /** Bytes fetched so far, never more than the size. */
    method Progress() returns (total: int)
      requires Valid()
      ensures total == Sum(Conns(), D.FetchedBytes()) && total <= file.Length
      ensures connections != [] ==>
                (total == file.Length <==> forall i :: 0 <= i < |connections| ==> connections[i].chunk.Remain() == 0)
    {
      total := SumDownloaded();
      if connections != [] {
        T.CounterMatchesCoverage(server, View());
        SameRemainders();
      }
    }

    lemma SameRemainders()
      requires Shape()
      ensures (forall i :: 0 <= i < |Conns()| ==> Conns()[i].chunk.Remain() == 0) <==>
              (forall i :: 0 <= i < |connections| ==> connections[i].chunk.Remain() == 0)
    {
      assert forall i :: 0 <= i < |connections| ==> Conns()[i].chunk.Remain() == connections[i].chunk.Remain();
    }

    method CheckCompletion() returns (done: bool)
      requires Shape() && file.Length > 0
      ensures done == D.AllDone(Conns(), file.Length)
    {
      var total := SumDownloaded();
      if total >= file.Length {
        return true;
      }
      done := true;
      for i := 0 to |connections|
        invariant done <==> forall k :: 0 <= k < i ==> D.Finished(Conns()[k]) || Conns()[k].state.Failed?
      {
        var conn := connections[i];
        assert Conns()[i] == conn.View();
        if !conn.completed && !conn.state.Completed? && !conn.state.Failed? {
          return false;
        }
      }
    }

    /** Everything but the controller, the stage and the loop stayed. */
    twostate lemma SameConns()
      requires old(Shape()) && Shape() && connections == old(connections)
      requires forall i :: 0 <= i < |connections| ==> unchanged(connections[i]) && unchanged(connections[i].chunk)
      ensures Conns() == old(Conns())
    {
    }

    /** The download loop receives a signal ... */
    method Receive()
      requires Shape() && D.Possible(View(), D.Receive)
      modifies Repr
      ensures Shape() && Repr == old(Repr) && View() == D.Next(old(View()), D.Receive)
    {
      slowStart.TakeSignal();
      loop := D.Signalled;
      SameConns();
    }

    /** ... tests whether all work is done ... */
    method Check()
      requires Shape() && D.Possible(View(), D.Check) && file.Length > 0
      modifies Repr
      ensures Shape() && Repr == old(Repr) && View() == D.Next(old(View()), D.Check)
    {
      var done := CheckCompletion();
      loop := if done then D.Waiting else D.Checked;
      SameConns();
    }

    /** ... splits off a batch, or stops expanding ... */
    method Expand()
      requires Shape() && D.Possible(View(), D.Expand)
      modifies Repr
      ensures Shape() && fresh(Repr - old(Repr)) && View() == D.Next(old(View()), D.Expand)
    {
      var batchSize := slowStart.GetNextBatchSize();
      if batchSize <= 0 {
        EndExpansion();
      } else {
        CreateBatch(batchSize);
      }
    }

    method CreateBatch(batchSize: nat)
      requires Shape()
      modifies Repr
      ensures Shape() && fresh(Repr - old(Repr)) && View() == D.SplitBatch(old(View()), batchSize)
    {
      ghost var before := View();
      var count := |connections|;
      SplitBatch(batchSize);
      AfterSplits(before, |connections| - count);
    }

    method AfterSplits(ghost before: D.State, created: int)
      requires Shape() && View() == before.(conns := Conns()) && created == |connections| - |before.conns|
      modifies this
      ensures Shape() && Repr == old(Repr) && View() == D.Grown(before, old(Conns()))
    {
      if created <= 0 {
        EndExpansion();
      } else {
        AwaitCommit(created);
      }
    }

    method AwaitCommit(created: nat)
      requires Shape()
      modifies this
      ensures Shape() && Repr == old(Repr) && View() == old(View()).(loop := D.Committing(created))
    {
      loop := D.Committing(created);
      SameConns();
    }

    method EndExpansion()
      requires Shape()
      modifies this
      ensures Shape() && Repr == old(Repr)
      ensures View() == old(View()).(loop := D.Waiting, stage := D.Steady)
    {
      stage := D.Steady;
      loop := D.Waiting;
      SameConns();
    }

    /** The connections of the batch, and no others, have no goroutine yet. */
    ghost predicate BatchAtEnd()
      requires Shape() && loop.Committing?
      reads this, Repr
    {
      loop.count <= |connections| && I.CreatedAre(Conns(), |connections| - loop.count)
    }

    /** ... and commits the batch and launches it. */
    method Commit()
      requires Shape() && D.Possible(View(), D.Commit) && BatchAtEnd()
      modifies Repr
      ensures Shape() && Repr == old(Repr) && View() == D.Next(old(View()), D.Commit)
    {
      var count := loop.count;
      slowStart.CommitBatch(count);
      SameConns();
      LaunchFrom(|connections| - count);
      label Launched:
      loop := D.Expanding;
      SameConns@Launched();
    }

    method LaunchFrom(from: nat)
      requires Shape() && from <= |connections| && I.CreatedAre(Conns(), from)
      modifies Repr
      ensures Shape() && Repr == old(Repr) && connections == old(connections) && OnlyConns() && retired == old(retired)
      ensures Conns() == D.LaunchConns(old(Conns()))
    {
      for i := from to |connections|
        invariant Shape() && Repr == old(Repr) && connections == old(connections)
        invariant OnlyConns() && retired == old(retired)
        invariant forall k :: 0 <= k < i ==> connections[k].View() == D.LaunchConn(old(connections[k].View()))
        invariant forall k :: i <= k < |connections| ==> connections[k].View() == old(connections[k].View())
      {
        assert old(Conns())[i].phase.Created?;
        connections[i].Launch();
      }
    }

    // ----- Starting, pausing, finishing -----

    method ResetAll()
      requires Shape()
      modifies Repr
      ensures Shape() && Repr == old(Repr) && connections == old(connections) && OnlyConns() && retired == old(retired)
      ensures forall k :: 0 <= k < |connections| ==> Conns()[k] == D.ResetConn(old(Conns())[k])
    {
      for i := 0 to |connections|
        invariant Shape() && Repr == old(Repr) && connections == old(connections)
        invariant OnlyConns() && retired == old(retired)
        invariant forall k :: 0 <= k < i ==> connections[k].View() == D.ResetConn(old(connections[k].View()))
        invariant forall k :: i <= k < |connections| ==> connections[k].View() == old(connections[k].View())
      {
        connections[i].Reset();
      }
    }

    method ResumeAll()
      requires Shape()
      modifies Repr
      ensures Shape() && Repr == old(Repr) && connections == old(connections) && OnlyConns() && retired == old(retired)
      ensures forall k :: 0 <= k < |connections| ==> Conns()[k] == D.ResumeConn(old(Conns())[k])
    {
      for i := 0 to |connections|
        invariant Shape() && Repr == old(Repr) && connections == old(connections)
        invariant OnlyConns() && retired == old(retired)
        invariant forall k :: 0 <= k < i ==> connections[k].View() == D.ResumeConn(old(connections[k].View()))
        invariant forall k :: i <= k < |connections| ==> connections[k].View() == old(connections[k].View())
      {
        connections[i].Resume();
      }
    }

    method ResumeConnections()
      requires Shape()
      modifies Repr
      ensures Shape() && Repr == old(Repr) && connections == old(connections) && OnlyConns() && retired == old(retired)
      ensures Conns() == D.StartConns(old(View()))
      ensures old(stage).Error? ==> forall k :: 0 <= k < |connections| ==>
                old(connections[k].completed || connections[k].state.Completed?)
                || (connections[k].phase.Launched? && connections[k].retryTimes == 0 && connections[k].lastErr.NoError?)
    {
      if stage.Error? {
        ResetAll();
      }
      ResumeAll();
      assert Conns() == D.StartConns(old(View()));
    }

    /** Opens the file and launches the first connection, or those to resume. */
    method Start()
      requires Shape() && D.Possible(View(), D.Start) && max >= 1 && prefix >= 0
      modifies Repr
      ensures Shape() && fresh(Repr - old(Repr)) && View() == D.Next(old(View()), D.Start)
    {
      ResumeConnections();
      label Resumed:
      slowStart := new SlowStart.SlowStartController(max);
      Repr := Repr + {slowStart};
      cancelled := false;
      stage := D.SlowStarting;
      SameConns@Resumed();
      if connections != [] {
        loop := D.Waiting;
        SameConns@Resumed();
      } else {
        FirstConnection();
      }
    }

    /** The expander's first round: one connection for everything beyond the prefix. */
    method FirstConnection()
      requires Shape() && connections == [] && max >= 1 && prefix >= 0 && slowStart.View() == SlowStart.New(max)
      modifies Repr
      ensures Shape() && fresh(Repr - old(Repr))
      ensures View() == old(View()).(
                stage := if prefix >= file.Length then D.Done else old(stage),
                loop := D.Expanding,
                slow := if prefix >= file.Length then old(slowStart.View())
                        else SlowStart.Commit(old(slowStart.View()), 1),
                conns := if prefix >= file.Length then [] else [D.FirstConn(prefix, file.Length)])
    {
      loop := D.Expanding;
      if prefetched >= file.Length {
        stage := D.Done;
        assert Conns() == [];
        return;
      }
      var chunk := new Chunk(prefetched, file.Length - 1);
      var conn := new Connection(chunk, prefetched);
      connections := [conn];
      Repr := Repr + {chunk, conn};
      slowStart.CommitBatch(1);
      conn.Launch();
      assert Conns() == [D.FirstConn(prefetched, file.Length)];
    }

    /** Pause asks every goroutine to stop ... */
    method Cancel()
      requires Shape() && D.Possible(View(), D.Cancel)
      modifies Repr
      ensures Shape() && Repr == old(Repr) && View() == D.Next(old(View()), D.Cancel)
    {
      cancelled := true;
      assert Conns() == old(Conns());
    }

    /** ... and returns once they have. */
    method PauseDone()
      requires Shape() && D.Possible(View(), D.PauseDone)
      modifies Repr
      ensures Shape() && Repr == old(Repr) && View() == D.Next(old(View()), D.PauseDone)
    {
      stage := D.Paused;
      loop := D.NoLoop;
      assert Conns() == old(Conns());
    }

    /** The connection whose error is reported, or -1. */
    method FindError() returns (r: int)
      requires Shape() && file.Length > 0
      ensures r == D.FinalError(Conns(), file.Length)
    {
      var total := SumDownloaded();
      if total >= file.Length {
        return -1;
      }
      var allChunksComplete := NothingUnfinished();
      if allChunksComplete {
        return -1;
      }
      r := FirstError();
    }

    method NothingUnfinished() returns (allChunksComplete: bool)
      requires Shape()
      ensures allChunksComplete <==> forall k :: 0 <= k < |Conns()| ==> !D.Unfinished(Conns()[k])
    {
      allChunksComplete := true;
      for i := 0 to |connections|
        invariant allChunksComplete <==> forall k :: 0 <= k < i ==> !D.Unfinished(Conns()[k])
      {
        var conn := connections[i];
        assert Conns()[i] == conn.View();
        if conn.chunk.Remain() > 0 && !conn.completed && !conn.state.Completed? {
          if conn.state.Failed? && conn.failed && conn.lastErr == D.Http(D.FORBIDDEN) {
            continue;
          }
          allChunksComplete := false;
          break;
        }
      }
    }

    method FirstError() returns (r: int)
      requires Shape()
      ensures r == D.FirstReportable(Conns())
    {
      r := -1;
      for i := 0 to |connections|
        invariant r == D.FirstReportable(Conns()[..i]) == -1
      {
        assert Conns()[..i + 1][..i] == Conns()[..i];
        var conn := connections[i];
        assert Conns()[i] == conn.View();
        if conn.state.Failed? && conn.failed {
          if conn.lastErr == D.Http(D.FORBIDDEN) {
            continue;
          }
          FirstReportableOfPrefix(Conns(), i);
          return i;
        }
      }
      assert Conns()[..|connections|] == Conns();
    }

    static lemma {:induction false} FirstReportableOfPrefix(conns: seq<D.Conn>, i: nat)
      requires i < |conns| && D.Reportable(conns[i]) && D.FirstReportable(conns[..i]) == -1
      ensures D.FirstReportable(conns) == i
    {
      var r := D.FirstReportable(conns);
      assert forall k :: 0 <= k < i ==> conns[..i][k] == conns[k];
    }

    /** All goroutines have exited and nobody paused: settle the outcome. */
    method OnDownloadComplete()
      requires Shape() && D.Possible(View(), D.Finish) && file.Length > 0
      modifies Repr
      ensures Shape() && Repr == old(Repr) && View() == D.Next(old(View()), D.Finish)
    {
      var r := FindError();
      Settle(if r >= 0 then D.Error else D.Done);
    }

    method Settle(outcome: D.Stage)
      requires Shape()
      modifies this
      ensures Shape() && Repr == old(Repr) && View() == old(View()).(stage := outcome, loop := D.NoLoop)
    {
      stage := outcome;
      loop := D.NoLoop;
      SameConns();
    }

    // ----- Whole runs -----

    /** What an event needs of the invariant besides being possible. */
    ghost predicate Ready(e: D.Event)
      requires Shape() && D.Possible(View(), e)
      reads this, Repr
    {
      && file.Length > 0 && max >= 1 && prefix >= 0
      && (e.Write? || e.WriteError? ==> ReservedInFile(e.i))
      && (e.Commit? ==> BatchAtEnd())
    }

    /** Performs one enabled event. */
    method Step(e: D.Event)
      requires Valid() && D.Enabled(server, View(), e)
      modifies Repr
      ensures Valid() && fresh(Repr - old(Repr)) && View() == D.Next(old(View()), e)
    {
      I.NextKeepsInv(server, View(), e);
      ValidReady(e);
      Perform(e);
    }

    lemma ValidReady(e: D.Event)
      requires Valid() && D.Possible(View(), e)
      ensures Ready(e)
    {
      if D.Local(e) {
        assert I.ConnOk(server, file[..], prefix, Conns()[e.i]);
      }
    }

    method Perform(e: D.Event)
      requires Shape() && D.Possible(View(), e) && Ready(e)
      modifies Repr
      ensures Shape() && fresh(Repr - old(Repr)) && View() == D.Next(old(View()), e)
    {
      if D.Local(e) {
        PerformLocal(e);
      } else if e.Start? {
        Start();
      } else if e.Help? {
        Help(e.i);
      } else if e.Cancel? || e.PauseDone? || e.Finish? {
        PerformEnd(e);
      } else {
        PerformRound(e);
      }
    }

    method PerformRound(e: D.Event)
      requires Shape() && (e.Receive? || e.Check? || e.Expand? || e.Commit?) && D.Possible(View(), e) && Ready(e)
      modifies Repr
      ensures Shape() && fresh(Repr - old(Repr)) && View() == D.Next(old(View()), e)
    {
      if e.Receive? {
        Receive();
      } else if e.Check? {
        Check();
      } else if e.Expand? {
        Expand();
      } else {
        Commit();
      }
    }

    method PerformEnd(e: D.Event)
      requires Shape() && (e.Cancel? || e.PauseDone? || e.Finish?) && D.Possible(View(), e) && Ready(e)
      modifies Repr
      ensures Shape() && Repr == old(Repr) && View() == D.Next(old(View()), e)
    {
      if e.Cancel? {
        Cancel();
      } else if e.PauseDone? {
        PauseDone();
      } else {
        OnDownloadComplete();
      }
    }

    method PerformLocal(e: D.Event)
      requires Shape() && D.Local(e) && D.Possible(View(), e) && Ready(e)
      modifies Repr
      ensures Shape() && Repr == old(Repr) && View() == D.Next(old(View()), e)
    {
      if e.Begin? {
        Begin(e.i);
      } else if e.Request? {
        Request(e.i);
      } else if e.Accept? {
        Accept(e.i);
      } else if e.Announce? {
        Announce(e.i);
      } else if e.Quit? {
        Quit(e.i);
      } else if e.Complete? {
        Complete(e.i);
      } else if e.Fail? || e.Register? || e.Report? || e.Mark? {
        PerformFailure(e);
      } else {
        PerformRead(e);
      }
    }

    method PerformFailure(e: D.Event)
      requires Shape() && (e.Fail? || e.Register? || e.Report? || e.Mark?) && D.Possible(View(), e)
      modifies Repr
      ensures Shape() && Repr == old(Repr) && View() == D.Next(old(View()), e)
    {
      match e
      case Fail(i, err) => Fail(i, err);
      case Register(i) => Register(i);
      case Report(i) => Report(i);
      case Mark(i) => Mark(i);
    }

    method PerformRead(e: D.Event)
      requires Shape() && (e.Reserve? || e.Write? || e.WriteError? || e.Account? || e.EndOfBody?)
      requires D.Possible(View(), e) && Ready(e)
      modifies Repr
      ensures Shape() && Repr == old(Repr) && View() == D.Next(old(View()), e)
    {
      match e
      case Reserve(i, bytes) => Reserve(i, bytes);
      case Write(i) => Write(i);
      case WriteError(i, n) => WriteError(i, n);
      case Account(i, rate) => Account(i, rate);
      case EndOfBody(i) => EndOfBody(i);
    }

    /** Drives the fetcher through the choices of any scheduler, network and user. */
    method Run(events: seq<D.Event>, ghost trace: seq<D.State>)
      requires Valid() && T.IsRun(server, trace, events) && trace[0] == View()
      modifies Repr
      ensures Valid() && fresh(Repr - old(Repr)) && View() == trace[|events|]
    {
      for k := 0 to |events|
        invariant Valid() && fresh(Repr - old(Repr)) && View() == trace[k]
      {
        Step(events[k]);
      }
    }
  }
}
