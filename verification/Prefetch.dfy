/** The prefetched prefix: what resolving downloads into a temporary file, how the first
    start moves it into the target file, and what becomes of it when a pause comes first. */
module Prefetch {
  import opened Basics
  import opened RangedDownload
  import opened RangedInvariant
  import T = RangedTheorems

  const COPY_BUFFER := 32 * 1024

  /** The target file after the temporary file, if there still is one, was copied into it, but
      for the offsets in `lost`. */
  ghost function WithPrefix(target: seq<byte>, temp: Option<seq<byte>>, lost: set<int>): seq<byte> {
    seq(|target|, o requires 0 <= o < |target| =>
      if temp.Some? && o < |temp.value| && o !in lost then temp.value[o] else target[o])
  }

  /** The disk refuses the byte at o, or an earlier one of the same buffer. */
  ghost predicate NotWritten(refused: set<int>, o: int) {
    exists b | b in refused :: (o / 32768) * 32768 <= b <= o
  }

  /** The offsets below n at which nothing is written: a write ends at the first byte refused, and
      the next one goes on with the next buffer. */
  ghost function Lost(refused: set<int>, n: nat): set<int> {
    set o | 0 <= o < n && NotWritten(refused, o)
  }

  class Prefetch {
    var size: nat                // bytes received; survives a pause
    var temp: Option<seq<byte>>  // the temporary file

    ghost predicate Valid()
      reads this
    {
      temp.Some? ==> |temp.value| == size
    }

    constructor ()
      ensures Valid() && size == 0 && temp == Some([])
    {
      size, temp := 0, Some([]);
    }

    /** One read of the background prefetch. */
    method Receive(buf: seq<byte>)
      requires Valid() && temp.Some?
      modifies this
      ensures Valid() && size == old(size) + |buf| && temp == Some(old(temp).value + buf)
    {
      temp := Some(temp.value + buf);
      size := size + |buf|;
    }

    /** Pausing removes the temporary file, but not the count. */
    method Cleanup()
      modifies this
      ensures Valid() && size == old(size) && temp == None
    {
      temp := None;
    }

    /** The start takes the prefetched bytes over, buffer by buffer.  A write that fails
        part-way goes unnoticed. */
    method StopAndCopy(target: array<byte>, refused: set<int>) returns (prefetched: nat)
      requires Valid() && size <= target.Length
      modifies this, target
      ensures Valid() && prefetched == size == old(size) && temp == None
      ensures target[..] == WithPrefix(old(target[..]), old(temp), Lost(refused, size))
    {
      prefetched := size;
      if prefetched > 0 && temp.Some? {
        CopyAll(target, temp.value, refused);
      }
      assert target[..] == WithPrefix(old(target[..]), old(temp), Lost(refused, size));
      Cleanup();
    }

    method CopyAll(target: array<byte>, data: seq<byte>, refused: set<int>)
      requires |data| <= target.Length
      modifies target
      ensures target[..] == WithPrefix(old(target[..]), Some(data), Lost(refused, |data|))
    {
      var copied := 0;
      while copied < |data|
        invariant 0 <= copied <= |data| && (copied % COPY_BUFFER == 0 || copied == |data|)
        invariant target[..] == WithPrefix(old(target[..]), Some(data[..copied]), Lost(refused, copied))
      {
        var n := if |data| - copied < COPY_BUFFER then |data| - copied else COPY_BUFFER;
        WriteBuffer(target, data[copied..copied + n], copied, refused);
        SameBuffer(refused, copied, n);
        copied := copied + n;
      }
      assert data[..copied] == data;
    }

    /** Within one buffer, what is not written begins with the first byte refused. */
    static lemma SameBuffer(refused: set<int>, from: int, n: nat)
      requires 0 <= from && from % COPY_BUFFER == 0 && n <= COPY_BUFFER
      ensures forall o :: from <= o < from + n ==>
                (NotWritten(refused, o) <==> exists b | b in refused :: from <= b <= o)
    {
      forall o | from <= o < from + n
        ensures (o / COPY_BUFFER) * COPY_BUFFER == from
      {
      }
    }

    /** One write; it ends at the first byte that the disk refuses. */
    method WriteBuffer(target: array<byte>, buf: seq<byte>, offset: nat, refused: set<int>)
      requires offset + |buf| <= target.Length
      modifies target
      ensures forall o :: 0 <= o < target.Length ==>
                target[o] == if offset <= o < offset + |buf| && !(exists b | b in refused :: offset <= b <= o)
                             then buf[o - offset] else old(target[o])
    {
      for i := 0 to |buf|
        invariant forall b | b in refused :: !(offset <= b < offset + i)
        invariant forall o :: 0 <= o < target.Length ==>
                    target[o] == if offset <= o < offset + i then buf[o - offset] else old(target[o])
      {
        if offset + i in refused {
          return;
        }
        target[offset + i] := buf[i];
      }
    }
  }

  /** After the copy the prefix is in place exactly when the target held the right byte
      already wherever none was written. */
  lemma PrefixInPlaceIff(server: seq<byte>, target: seq<byte>, temp: Option<seq<byte>>, lost: set<int>, size: nat)
    requires |target| == |server|
    requires temp.Some? ==> size <= |server| && temp.value == server[..size]
    ensures CorrectRange(server, WithPrefix(target, temp, lost), 0, Min(size, |server|)) <==>
            forall o :: 0 <= o < Min(size, |server|) && (temp.None? || o in lost) ==> Correct(server, target, o)
  {
    var copied := WithPrefix(target, temp, lost);
    forall o | 0 <= o < Min(size, |server|)
      ensures Correct(server, copied, o) <==> (temp.None? || o in lost ==> Correct(server, target, o))
    {
    }
  }

  /** So a download that starts with the prefetch and becomes done with no range abandoned has
      the whole content exactly when the target held the right byte already wherever the copy
      wrote none: everywhere, if a pause came before the first start. */
  lemma PrefetchedDownloadIsCompleteIff(server: seq<byte>, target: seq<byte>, temp: Option<seq<byte>>, lost: set<int>,
                                        size: nat, max: int, trace: seq<State>, events: seq<Event>, k: nat)
    requires |target| == |server| > 0 && max >= 1
    requires temp.Some? ==> size <= |server| && temp.value == server[..size]
    requires T.IsRun(server, trace, events) && T.Begins(trace[0], WithPrefix(target, temp, lost), size, max)
    requires k < |events| && Enabled(server, trace[k], events[k]) && T.BecomesDone(trace[k], events[k])
    requires forall i :: 0 <= i < |trace[k].conns| ==> !Abandoned(trace[k].conns[i])
    ensures trace[k + 1].file == server <==>
            forall o :: 0 <= o < Min(size, |server|) && (temp.None? || o in lost) ==> Correct(server, target, o)
  {
    var file := WithPrefix(target, temp, lost);
    PrefixInPlaceIff(server, target, temp, lost, size);
    T.BeginsInv(server, trace[0], file, size, max);
    T.RunIsLater(server, trace, events, 0, k);
    T.DoneMeansComplete(server, file, size, max, [T.Session(trace, events)], [0], 0, k);
  }

  /** A small file that was prefetched completely: after a pause the start finds nothing left
      to fetch and is done, whatever the target holds. */
  lemma LostPrefetchEndsDone(server: seq<byte>, target: seq<byte>, max: int)
    requires |target| == |server| > 0 && max >= 1 && target != server
    ensures var s := Fresh(WithPrefix(target, None, {}), |server|, max).(stage := Paused);
            Enabled(server, s, Start) && Next(s, Start).stage.Done? && Next(s, Start).file == target != server
  {
    assert WithPrefix(target, None, {}) == target;
  }
}
