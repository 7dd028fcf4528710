/** Random access over the parts of a split archive as if they were one file. */
module MultiPartReader {
  import opened Basics

  datatype Error = NoError | EndOfFile | Failed

  /** What the file system holds under a name; `statOk` and `readable` are false where the
      operating system would report an error. */
  datatype Entry = Entry(content: seq<byte>, statOk: bool, readable: bool)

  type Disk = map<string, Entry>

  /** The file the parts stand for. */
  ghost function Concat(parts: seq<seq<byte>>): seq<byte> {
    if parts == [] then [] else Concat(parts[..|parts| - 1]) + parts[|parts| - 1]
  }

  /** Where part i begins in the concatenation; for i == |parts|, the total size. */
  ghost function StartOf(parts: seq<seq<byte>>, i: nat): nat
    requires i <= |parts|
  {
    if i == 0 then 0 else StartOf(parts, i - 1) + |parts[i - 1]|
  }

  lemma {:induction false} StartOfPrefix(parts: seq<seq<byte>>, more: seq<seq<byte>>, i: nat)
    requires i <= |parts| <= |more| && more[..|parts|] == parts
    ensures StartOf(more, i) == StartOf(parts, i)
  {
    if i > 0 {
      StartOfPrefix(parts, more, i - 1);
      assert more[..|parts|][i - 1] == parts[i - 1];
    }
  }

  lemma StartsStay(parts: seq<seq<byte>>, part: seq<byte>)
    ensures forall k :: 0 <= k <= |parts| ==> StartOf(parts + [part], k) == StartOf(parts, k)
  {
    forall k | 0 <= k <= |parts| ensures StartOf(parts + [part], k) == StartOf(parts, k) {
      StartOfPrefix(parts, parts + [part], k);
    }
  }

  lemma {:induction false} StartOfAll(parts: seq<seq<byte>>)
    ensures StartOf(parts, |parts|) == |Concat(parts)|
  {
    if parts != [] {
      var init := parts[..|parts| - 1];
      StartOfAll(init);
      StartOfPrefix(init, parts, |init|);
    }
  }

  /** Part i is exactly the stretch of the concatenation from StartOf(i) to StartOf(i + 1). */
  lemma {:induction false} PartIsSlice(parts: seq<seq<byte>>, i: nat)
    requires i < |parts|
    ensures StartOf(parts, i + 1) <= |Concat(parts)|
    ensures Concat(parts)[StartOf(parts, i)..StartOf(parts, i + 1)] == parts[i]
  {
    var init := parts[..|parts| - 1];
    StartOfAll(init);
    StartOfPrefix(init, parts, i);
    if i < |init| {
      PartIsSlice(init, i);
      StartOfPrefix(init, parts, i + 1);
    }
  }

  /** The parts as they are on disk, unless one of them is missing or cannot be inspected. */
  predicate Available(disk: Disk, parts: seq<string>) {
    forall i :: 0 <= i < |parts| ==> parts[i] in disk && disk[parts[i]].statOk
  }

  ghost function Contents(disk: Disk, parts: seq<string>): seq<seq<byte>>
    requires Available(disk, parts)
  {
    seq(|parts|, i requires 0 <= i < |parts| => disk[parts[i]].content)
  }

  /** An open file.  Its content does not change while it is open. */
  class Handle {
    const content: seq<byte>
    const readable: bool
    var open: bool

    constructor (entry: Entry)
      ensures content == entry.content && readable == entry.readable && open
    {
      content, readable, open := entry.content, entry.readable, true;
    }

    method Close()
      modifies this
      ensures !open
    {
      open := false;
    }

    /** Reads into p[at..at + len]; an unreadable file fails after any number of bytes. */
    method ReadAt(p: array<byte>, at: nat, len: nat, off: int) returns (n: nat, err: Error)
      requires at + len <= p.Length
      modifies p
      ensures n <= len
      ensures n > 0 ==> 0 <= off && off + n <= |content| && p[at..at + n] == content[off..off + n]
      ensures forall k :: 0 <= k < p.Length && !(at <= k < at + n) ==> p[k] == old(p[k])
      ensures off < 0 ==> err.Failed? && n == 0
      ensures open && off >= 0 && err.NoError? ==> n == len
      ensures open && off >= 0 && err.EndOfFile? ==> n < len && off + n >= |content|
      ensures open && off >= 0 && readable ==> !err.Failed?
    {
      n := 0;
      if !open || off < 0 {
        return 0, Failed;
      }
      while n < len && off + n < |content|
        invariant n <= len
        invariant n > 0 ==> off + n <= |content|
        invariant forall k :: at <= k < at + n ==> p[k] == content[off + (k - at)]
        invariant forall k :: 0 <= k < p.Length && !(at <= k < at + n) ==> p[k] == old(p[k])
      {
        if * {
          if !readable {
            return n, Failed;
          }
        }
        p[at + n] := content[off + n];
        n := n + 1;
      }
      err := if n < len then EndOfFile else NoError;
    }
  }

  /** Appending what was read of the part at `from` extends the stretch copied so far. */
  lemma CopyOn(whole: seq<byte>, part: seq<byte>, from: nat, start: nat, copied: seq<byte>, piece: seq<byte>)
    requires from + |part| <= |whole| && whole[from..from + |part|] == part
    requires from <= start + |copied| && start + |copied| + |piece| <= from + |part|
    requires copied == whole[start..start + |copied|]
    requires piece == part[start + |copied| - from..start + |copied| - from + |piece|]
    ensures copied + piece == whole[start..start + |copied| + |piece|]
  {
    forall k | 0 <= k < |piece| ensures piece[k] == whole[start + |copied| + k] {
      assert part[start + |copied| - from + k] == whole[start + |copied| + k];
    }
  }

  lemma StillListed(fs: seq<Handle?>, i: nat, f: Handle)
    requires i < |fs| && fs[i] == null
    ensures f in fs[i := f] && forall h | h in fs && h != null :: h in fs[i := f]
  {
    assert fs[i := f][i] == f;
    forall h | h in fs && h != null ensures h in fs[i := f] {
      var k :| 0 <= k < |fs| && fs[k] == h;
      assert fs[i := f][k] == h;
    }
  }

  /** `got` is the stretch of `whole` that begins at start. */
  ghost predicate Copied(whole: seq<byte>, got: seq<byte>, start: int) {
    0 <= start && start + |got| <= |whole| && got == whole[start..start + |got|]
  }

  class Reader {
    const parts: seq<string>
    var files: Option<seq<Handle?>> // None is the nil slice: not initialised
    var sizes: seq<int>
    var offsets: seq<int>
    var totalSize: int
    ghost var contents: seq<seq<byte>> // of the parts when they were opened
    ghost var handles: set<Handle>     // every handle this reader has ever opened

    constructor (parts: seq<string>)
      ensures this.parts == parts && Valid() && files == None && handles == {}
    {
      this.parts := parts;
      files, sizes, offsets, totalSize := None, [], [], 0;
      contents, handles := [], {};
    }

    /** The first n parts are open and measured. */
    ghost predicate PartsOpen(n: int)
      reads this, handles
    {
      && files.Some? && |files.value| == |sizes| == |offsets| == |parts|
      && 0 <= n == |contents| <= |parts|
      && (forall i :: 0 <= i < n ==> var f := files.value[i]; f in handles && f.open && f.content == contents[i])
      && (forall i :: 0 <= i < n ==> sizes[i] == |contents[i]|)
      && (forall i :: 0 <= i < n ==> offsets[i] == StartOf(contents, i))
    }

    /** Open files are the ones listed: no descriptor is lost. */
    ghost predicate NoLeak()
      reads this, handles
    {
      forall h | h in handles :: h.open ==> files.Some? && h in files.value
    }

    ghost predicate Valid()
      reads this, handles
    {
      && NoLeak()
      && (files.Some? ==> PartsOpen(|parts|) && totalSize == StartOf(contents, |contents|))
    }

    /** No open part can fail. */
    ghost predicate Readable()
      reads this, handles
    {
      files.Some? && forall f | f in files.value :: f != null ==> f.readable
    }

    /** Closes every listed file. */
    method Close()
      requires NoLeak()
      requires files.Some? ==> forall f | f in files.value :: f != null ==> f in handles
      modifies this`files, handles
      ensures files == None && forall h | h in handles :: !h.open
      ensures Valid()
    {
      if files.Some? {
        for i := 0 to |files.value|
          invariant unchanged(this)
          invariant forall h | h in handles :: h.open ==> old(h.open)
          invariant forall k :: 0 <= k < i && files.value[k] != null ==> !files.value[k].open
        {
          var f := files.value[i];
          if f != null {
            f.Close();
          }
        }
      }
      files := None;
    }

    /** The first i parts have been opened from the disk. */
    ghost predicate Opening(disk: Disk, i: nat)
      reads this, handles
    {
      && PartsOpen(i) && NoLeak()
      && (forall k :: 0 <= k < i ==> parts[k] in disk && disk[parts[k]].statOk)
      && (forall k :: 0 <= k < i ==>
            contents[k] == disk[parts[k]].content && files.value[k].readable == disk[parts[k]].readable)
      && (forall k :: i <= k < |parts| ==> files.value[k] == null)
    }

    /** Opens part i, unless it is missing or cannot be inspected; then nothing stays open. */
    method OpenFile(disk: Disk, i: nat) returns (f: Handle?)
      requires Opening(disk, i) && i < |parts|
      modifies this`handles
      ensures f != null <==> parts[i] in disk && disk[parts[i]].statOk
      ensures f == null ==> Opening(disk, i) && fresh(handles - old(handles))
      ensures f != null ==> fresh(f) && f.open && handles == old(handles) + {f}
      ensures f != null ==> f.content == disk[parts[i]].content && f.readable == disk[parts[i]].readable
    {
      if parts[i] !in disk {
        return null;
      }
      f := new Handle(disk[parts[i]]);
      handles := handles + {f};
      if !disk[parts[i]].statOk {
        f.Close();
        return null;
      }
    }

    /** Opens and measures part i. */
    method OpenPart(disk: Disk, i: nat, offset: int) returns (size: int, ok: bool)
      requires Opening(disk, i) && i < |parts| && offset == StartOf(contents, |contents|)
      modifies this
      ensures ok <==> parts[i] in disk && disk[parts[i]].statOk
      ensures fresh(handles - old(handles))
      ensures Opening(disk, if ok then i + 1 else i)
      ensures ok ==> StartOf(contents, |contents|) == offset + size
    {
      var f := OpenFile(disk, i);
      if f == null {
        return 0, false;
      }
      ok, size := true, |f.content|;
      Install(i, f, size, offset);
    }

    method Install(i: nat, f: Handle, size: int, offset: int)
      requires PartsOpen(i) && i < |parts| && files.value[i] == null
      requires forall h | h in handles && h != f :: h.open ==> h in files.value
      requires offset == StartOf(contents, |contents|)
      requires f in handles && f.open && size == |f.content|
      modifies this
      ensures PartsOpen(i + 1) && NoLeak() && handles == old(handles)
      ensures contents == old(contents) + [f.content] && StartOf(contents, |contents|) == offset + size
      ensures files == Some(old(files).value[i := f])
    {
      StillListed(files.value, i, f);
      StartsStay(contents, f.content);
      files := Some(files.value[i := f]);
      sizes := sizes[i := size];
      offsets := offsets[i := offset];
      contents := contents + [f.content];
    }

    /** Opens and measures every part; an open reader stays as it is. */
    method Init(disk: Disk) returns (ok: bool)
      requires Valid()
      modifies this, handles
      ensures Valid() && fresh(handles - old(handles))
      ensures ok <==> old(files).Some? || Available(disk, parts)
      ensures ok <==> files.Some?
      ensures old(files).Some? ==> unchanged(this) && unchanged(handles)
      ensures old(files).None? && ok ==> contents == Contents(disk, parts)
      ensures old(files).None? && ok && (forall i :: 0 <= i < |parts| ==> disk[parts[i]].readable) ==> Readable()
    {
      if files.Some? {
        return true;
      }
      ok := OpenAll(disk);
    }

    method Allocate(ghost disk: Disk)
      requires NoLeak() && files.None?
      modifies this
      ensures Opening(disk, 0) && handles == old(handles) && contents == []
    {
      files := Some(seq(|parts|, _ => null));
      sizes := seq(|parts|, _ => 0);
      offsets := seq(|parts|, _ => 0);
      contents := [];
    }

    method OpenAll(disk: Disk) returns (ok: bool)
      requires Valid() && files.None?
      modifies this, handles
      ensures fresh(handles - old(handles))
      ensures ok <==> Available(disk, parts)
      ensures ok ==> Opening(disk, |parts|) && totalSize == StartOf(contents, |contents|)
      ensures !ok ==> Valid() && files.None?
    {
      Allocate(disk);
      var offset := 0;
      for i := 0 to |parts|
        invariant Opening(disk, i) && fresh(handles - old(handles)) && offset == StartOf(contents, |contents|)
      {
        var size, isOpen := OpenPart(disk, i, offset);
        if !isOpen {
          Close();
          return false;
        }
        offset := offset + size;
      }
      totalSize := offset;
      ok := true;
    }

    /** The size of the concatenation, or 0 when it cannot be opened. */
    method Size(disk: Disk) returns (size: int)
      requires Valid()
      modifies this, handles
      ensures Valid()
      ensures size == if files.None? then 0 else |Concat(contents)|
      ensures files.Some? <==> old(files).Some? || Available(disk, parts)
      ensures old(files).Some? ==> contents == old(contents)
      ensures old(files).None? && files.Some? ==> contents == Contents(disk, parts)
    {
      var ok := Init(disk);
      if !ok {
        return 0;
      }
      StartOfAll(contents);
      size := totalSize;
    }

    /** Reads the concatenation from off into p, as many bytes as both have. */
    method ReadAt(disk: Disk, p: array<byte>, off: int) returns (n: nat, err: Error)
      requires Valid()
      modifies this, handles, p
      ensures Valid()
      ensures files.Some? <==> old(files).Some? || Available(disk, parts)
      ensures old(files).Some? ==> contents == old(contents)
      ensures old(files).None? && files.Some? ==> contents == Contents(disk, parts)
      ensures old(files).None? && files.Some? && (forall i :: 0 <= i < |parts| ==> disk[parts[i]].readable) ==>
                Readable()
      ensures n <= p.Length && forall k :: n <= k < p.Length ==> p[k] == old(p[k])
      ensures files.None? ==> n == 0 && err.Failed?
      ensures files.Some? && 0 <= off && off >= |Concat(contents)| ==> n == 0 && err.EndOfFile?
      ensures files.Some? && off < 0 ==> n == 0 && err == if parts == [] then EndOfFile else Failed
      ensures files.Some? && 0 <= off < |Concat(contents)| ==>
        off + n <= |Concat(contents)| && p[..n] == Concat(contents)[off..off + n] && !err.EndOfFile?
      ensures files.Some? && 0 <= off < |Concat(contents)| && err.NoError? ==>
        n == Min(p.Length, |Concat(contents)| - off)
      ensures files.Some? && 0 <= off < |Concat(contents)| && Readable() ==> err.NoError?
    {
      n := 0;
      var ok := Init(disk);
      if !ok {
        return 0, Failed;
      }
      StartOfAll(contents);
      if off >= totalSize {
        return 0, EndOfFile;
      }
      n, err := Copy(p, off);
    }

    /** The loop of ReadAt over the parts. */
    method Copy(p: array<byte>, start: int) returns (n: nat, err: Error)
      requires Valid() && files.Some? && start < totalSize
      modifies p
      ensures n <= p.Length && (forall k :: n <= k < p.Length ==> p[k] == old(p[k]))
      ensures start < 0 ==> n == 0 && err == if parts == [] then EndOfFile else Failed
      ensures 0 <= start ==> Copied(Concat(contents), p[..n], start) && !err.EndOfFile?
      ensures 0 <= start && err.NoError? ==> n == Min(p.Length, totalSize - start)
      ensures 0 <= start && Readable() ==> err.NoError?
    {
      n := 0;
      var off := start;
      ghost var whole := Concat(contents);
      StartOfAll(contents);
      for i := 0 to |offsets|
        invariant n <= p.Length && start + n <= totalSize
        invariant start < 0 ==> i == 0
        invariant 0 <= start ==> Copied(whole, p[..n], start) && StartOf(contents, i) <= start + n
        invariant n > 0 ==> 0 <= start && start + n == StartOf(contents, i) && n < p.Length
        invariant forall k :: n <= k < p.Length ==> p[k] == old(p[k])
      {
        var stop;
        n, stop, err := Visit(whole, i, p, n, start);
        if stop {
          return;
        }
      }
      if n == 0 {
        return 0, EndOfFile;
      }
      err := NoError;
    }

    /** One round of the loop: part i is skipped, or read until p is full or the part ends. */
    method Visit(ghost whole: seq<byte>, i: nat, p: array<byte>, n: nat, start: int)
      returns (now: nat, stop: bool, err: Error)
      requires Valid() && files.Some? && i < |parts| && whole == Concat(contents)
      requires n <= p.Length
      requires if start < 0 then i == n == 0 else Copied(whole, p[..n], start) && StartOf(contents, i) <= start + n
      requires n > 0 ==> start + n == StartOf(contents, i) && n < p.Length
      modifies p
      ensures n <= now <= p.Length && forall k :: now <= k < p.Length ==> p[k] == old(p[k])
      ensures start < 0 ==> stop && now == 0 && err.Failed?
      ensures 0 <= start ==> Copied(whole, p[..now], start)
      ensures stop ==> !err.EndOfFile? && (err.NoError? ==> now == p.Length)
      ensures stop && 0 <= start && Readable() ==> err.NoError?
      ensures !stop ==> StartOf(contents, i + 1) <= start + now
      ensures !stop && now > 0 ==> start + now == StartOf(contents, i + 1) && now < p.Length
    {
      now, stop, err := n, false, NoError;
      var off := start + n;
      var fileEnd := offsets[i] + sizes[i];
      assert fileEnd == StartOf(contents, i + 1);
      if off >= fileEnd {
        return;
      }
      var toRead := p.Length - n;
      if toRead > fileEnd - off {
        toRead := fileEnd - off;
      }
      var read;
      read, err := ReadPart(whole, i, p, n, toRead, start);
      now := n + read;
      if !err.NoError? && !err.EndOfFile? {
        stop := true;
        return;
      }
      if now >= p.Length {
        return now, true, NoError;
      }
    }

    /** Reads from part i what comes after the n bytes copied so far. */
    method ReadPart(ghost whole: seq<byte>, i: nat, p: array<byte>, n: nat, toRead: nat, start: int)
      returns (read: nat, failure: Error)
      requires Valid() && files.Some? && i < |parts|
      requires whole == Concat(contents)
      requires n + toRead <= p.Length && start + n + toRead <= offsets[i] + sizes[i]
      requires if start < 0 then i == n == 0 else Copied(whole, p[..n], start) && offsets[i] <= start + n
      modifies p
      ensures read <= toRead && (forall k :: n + read <= k < p.Length ==> p[k] == old(p[k]))
      ensures start < 0 ==> read == 0 && failure.Failed?
      ensures 0 <= start ==> Copied(whole, p[..n + read], start)
      ensures 0 <= start && !failure.Failed? ==> read == toRead
      ensures 0 <= start && Readable() ==> !failure.Failed?
    {
      PartIsSlice(contents, i);
      StartOfAll(contents);
      ghost var before := p[..n];
      read, failure := files.value[i].ReadAt(p, n, toRead, start + n - offsets[i]);
      if read > 0 {
        CopyOn(whole, contents[i], StartOf(contents, i), start, before, p[n..n + read]);
        assert p[..n + read] == before + p[n..n + read];
      }
    }
  }
}
