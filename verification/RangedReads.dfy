/** One read of a response body from the network to the counters: no byte of it is lost or
    counted twice, whatever other connections do in between. */
module RangedReads {
  import opened Basics
  import opened RangedDownload
  import opened RangedInvariant
  import opened RangedTheorems

  /** How much of a read of `size` bytes there is room for in the range. */
  function Room(c: Conn, size: nat): int {
    Min(size, c.chunk.Remain())
  }

  /** A connection asks for exactly what it owes, unless that is nothing. */
  lemma AsksForWhatItOwes(server: seq<byte>, s: State, i: nat)
    requires Inv(server, s) && Enabled(server, s, Request(i))
    ensures var c, t := s.conns[i], Next(s, Request(i));
            t == s.(conns := s.conns[i := c.(phase := t.conns[i].phase)])
            && t.conns[i].phase == if c.chunk.Next() <= c.chunk.end then Requesting(c.chunk.end) else Drained
  {
    assert ConnOk(server, s.file, s.prefix, s.conns[i]);
  }

  /** A read that comes when the range has nothing left is dropped, and the attempt is over. */
  lemma LateReadIsDropped(server: seq<byte>, s: State, e: Event)
    requires Inv(server, s) && Enabled(server, s, e) && e.Reserve? && s.conns[e.i].chunk.Next() > s.conns[e.i].chunk.end
    ensures Next(s, e) == s.(conns := s.conns[e.i := s.conns[e.i].(phase := Drained)])
  {
  }

  /** A failed write leaves the bytes written so far, which are right, and counts none of them;
      it is a failure without a status. */
  lemma FailedWriteIsNotCounted(server: seq<byte>, s: State, i: nat, n: nat)
    requires Inv(server, s) && Enabled(server, s, WriteError(i, n))
    ensures var c, t := s.conns[i], Next(s, WriteError(i, n));
            && t == s.(file := t.file, conns := s.conns[i := c.(phase := Erring(Other))])
            && |t.file| == |s.file|
            && c.chunk.Next() + n <= |server|
            && forall o :: 0 <= o < |s.file| ==>
                 t.file[o] == if c.chunk.Next() <= o < c.chunk.Next() + n then server[o] else s.file[o]
  {
    assert ConnOk(server, s.file, s.prefix, s.conns[i]);
  }

  lemma Reserves(server: seq<byte>, s: State, e: Event)
    requires Inv(server, s) && Enabled(server, s, e) && e.Reserve? && s.conns[e.i].chunk.Remain() > 0
    ensures var c, n := s.conns[e.i], Room(s.conns[e.i], |e.bytes|);
            && 1 <= n <= |e.bytes|
            && Next(s, e).conns[e.i].phase ==
               Reserved(c.phase.last, c.chunk.Next(), e.bytes[..n], |e.bytes| > c.chunk.Remain())
            && Matches(server, c.chunk.Next(), e.bytes[..n])
  {
    assert ConnOk(server, s.file, s.prefix, s.conns[e.i]);
  }

  lemma Accounts(s: State, e: Event)
    requires Possible(s, e) && e.Account?
    ensures var c, d := s.conns[e.i], Next(s, e).conns[e.i];
            && Next(s, e).file == s.file
            && d.chunk.Next() == c.chunk.Next() + c.phase.count
            && d.downloaded == c.downloaded + c.phase.count && d.speed == e.rate
            && d.phase == (if c.phase.finished then Drained else Streaming(c.phase.last))
  {
  }

  lemma ReservedAt(server: seq<byte>, trace: seq<State>, events: seq<Event>, j: nat, i: nat)
    requires IsRun(server, trace, events) && Inv(server, trace[0]) && j < |events|
    requires events[j].Reserve? && events[j].i == i && i < |trace[j].conns| && trace[j].conns[i].chunk.Remain() > 0
    ensures trace[j].conns[i].phase.Streaming?
    ensures var c, bytes := trace[j].conns[i], events[j].bytes;
            && 1 <= Room(c, |bytes|) <= |bytes|
            && i < |trace[j + 1].conns|
            && trace[j + 1].conns[i].phase ==
               Reserved(c.phase.last, c.chunk.Next(), bytes[..Room(c, |bytes|)], |bytes| > c.chunk.Remain())
            && Matches(server, c.chunk.Next(), bytes[..Room(c, |bytes|)])
  {
    assert Enabled(server, trace[j], events[j]) && trace[j + 1] == Next(trace[j], events[j]);
    RunKeepsInv(server, trace, events, j);
    Reserves(server, trace[j], events[j]);
  }

  lemma AccountedAt(server: seq<byte>, trace: seq<State>, events: seq<Event>, k: nat, i: nat)
    requires IsRun(server, trace, events) && k < |events| && events[k].Account? && events[k].i == i
    ensures i < |trace[k].conns| && trace[k].conns[i].phase.Written? && i < |trace[k + 1].conns|
    ensures var c, d := trace[k].conns[i], trace[k + 1].conns[i];
            && trace[k + 1].file == trace[k].file
            && d.chunk.Next() == c.chunk.Next() + c.phase.count
            && d.downloaded == c.downloaded + c.phase.count && d.speed == events[k].rate
            && (d.phase.Drained? <==> c.phase.finished) && (d.phase.Drained? || d.phase.Streaming?)
  {
    assert Enabled(server, trace[k], events[k]) && trace[k + 1] == Next(trace[k], events[k]);
    Accounts(trace[k], events[k]);
  }

  /** In every run, a read is in the file in full when it is accounted for, up to what there was
      room for when it was reserved: those bytes stand where the range was at, the range and the
      connection's counter move on by exactly their number, and the attempt ends exactly if some
      had to be left out. */
  lemma ReadIsKept(server: seq<byte>, trace: seq<State>, events: seq<Event>, j: nat, k: nat, i: nat)
    requires IsRun(server, trace, events) && Inv(server, trace[0]) && j < k < |events|
    requires events[j].Reserve? && events[j].i == i && events[k].Account? && events[k].i == i
    requires i < |trace[j].conns| && trace[j].conns[i].chunk.Remain() > 0 && OnlyWrites(events, j + 1, k, i)
    ensures var bytes, c := events[j].bytes, trace[j].conns[i];
            var n, from := Room(c, |bytes|), c.chunk.Next();
            && 1 <= n <= |bytes| && i < |trace[k].conns| && i < |trace[k + 1].conns|
            && 0 <= from && from + n <= |trace[k + 1].file| && trace[k + 1].file[from..from + n] == bytes[..n]
            && trace[k + 1].conns[i].chunk.Next() == from + n
            && trace[k + 1].conns[i].downloaded == trace[k].conns[i].downloaded + n
            && trace[k + 1].conns[i].speed == events[k].rate
            && (trace[k + 1].conns[i].phase.Drained? <==> n < |bytes|)
            && (trace[k + 1].conns[i].phase.Streaming? <==> n == |bytes|)
  {
    ReservedAt(server, trace, events, j, i);
    ReservationHolds(server, trace, events, j + 1, k, i);
    AccountedAt(server, trace, events, k, i);
    var bytes, c := events[j].bytes, trace[j].conns[i];
    SameBytes(server, trace[k].file, c.chunk.Next(), bytes[..Room(c, |bytes|)]);
  }

  lemma SameBytes(server: seq<byte>, file: seq<byte>, from: int, data: seq<byte>)
    requires Matches(server, from, data) && CorrectRange(server, file, from, from + |data|) && |data| > 0
    ensures 0 <= from && from + |data| <= |file| && file[from..from + |data|] == data
  {
    assert Correct(server, file, from + |data| - 1);
    forall m | 0 <= m < |data|
      ensures file[from + m] == data[m]
    {
      assert Correct(server, file, from + m);
    }
  }
}
