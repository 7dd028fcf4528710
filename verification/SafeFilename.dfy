/** File names made safe for the file system: forbidden characters replaced, length bounded. */
module SafeFilename {
  import opened Basics
  import opened Utf8

  const MAX_FILENAME_LENGTH := 100
  const MAX_EXTENSION_LENGTH := 20

  const UNDERSCORE: byte := 95
  const DOT: byte := 46

  /** '/' and ':'. */
  const INVALID_ELSEWHERE: seq<byte> := [47, 58]
  /** '\\', '/', ':', '*', '?', '"', '<', '>' and '|'. */
  const INVALID_ON_WINDOWS: seq<byte> := [92, 47, 58, 42, 63, 34, 60, 62, 124]

  /** A list of forbidden characters: ASCII, and neither '_' nor '.'. */
  predicate Forbids(invalid: seq<byte>) {
    forall c | c in invalid :: c < 0x80 && c != UNDERSCORE && c != DOT
  }

  /** The bytes of a string of ASCII characters. */
  function Ascii(s: string): seq<byte>
    requires forall c | c in s :: c < 128 as char
  {
    seq(|s|, i requires 0 <= i < |s| && s[i] in s => s[i] as int as byte)
  }

  lemma ListsAreForbidding()
    ensures Forbids(INVALID_ELSEWHERE) && Forbids(INVALID_ON_WINDOWS)
    ensures INVALID_ELSEWHERE == Ascii("/:") && INVALID_ON_WINDOWS == Ascii("\\/:*?\"<>|")
    ensures [UNDERSCORE] == Ascii("_") && [DOT] == Ascii(".")
  {
  }

  // ----- What the functions compute -----

  function ReplaceAll(s: seq<byte>, c: byte): seq<byte> {
    seq(|s|, i requires 0 <= i < |s| => if s[i] == c then UNDERSCORE else s[i])
  }

  /** Every forbidden character of s has become an underscore. */
  function Cleaned(s: seq<byte>, invalid: seq<byte>): seq<byte> {
    seq(|s|, i requires 0 <= i < |s| => if s[i] in invalid then UNDERSCORE else s[i])
  }

  /** The length of the longest valid prefix of s of at most max bytes. */
  function LongestValid(s: seq<byte>, max: nat): (n: nat)
    requires max <= |s|
    ensures n <= max && Valid(s[..n])
    ensures forall k :: n < k <= max ==> !Valid(s[..k])
  {
    if Valid(s[..max]) then max else LongestValid(s, max - 1)
  }

  function Cut(s: seq<byte>, max: nat): seq<byte> {
    if |s| <= max then s else s[..LongestValid(s, max)]
  }

  /** Where the recognised extension of s starts; |s| if there is none. */
  function ExtensionStart(s: seq<byte>): (e: nat)
    ensures e <= |s| && |s| - e < MAX_EXTENSION_LENGTH
    ensures e < |s| ==> e > 0 && s[e] == DOT
  {
    var lastDot := LastIndex(s, DOT);
    if lastDot > 0 && lastDot < |s| - 1 && |s| - lastDot < MAX_EXTENSION_LENGTH then lastDot else |s|
  }

  function Truncated(s: seq<byte>, max: nat): seq<byte> {
    if |s| <= max then s
    else
      var e := ExtensionStart(s);
      var available := max - (|s| - e);
      if available < 1 then Cut(s, max) else Cut(s[..e], available) + s[e..]
  }

  function SafeName(s: seq<byte>, invalid: seq<byte>): seq<byte> {
    Truncated(Cleaned(s, invalid), MAX_FILENAME_LENGTH)
  }

  // ----- The functions -----

  method TruncateAtValidUtf8Boundary(s: seq<byte>, maxBytes: nat) returns (truncated: seq<byte>)
    ensures truncated == Cut(s, maxBytes)
  {
    if |s| <= maxBytes {
      return s;
    }
    truncated := s[..maxBytes];
    while |truncated| > 0
      invariant |truncated| <= maxBytes && truncated == s[..|truncated|]
      invariant LongestValid(s, maxBytes) == LongestValid(s, |truncated|)
    {
      if Valid(truncated) {
        return;
      }
      truncated := truncated[..|truncated| - 1];
    }
  }

  method TruncateFilename(filename: seq<byte>, maxLength: nat) returns (r: seq<byte>)
    ensures r == Truncated(filename, maxLength)
  {
    if |filename| <= maxLength {
      return filename;
    }
    var name, ext := filename, [];
    var lastDot := LastIndex(filename, DOT);
    if lastDot > 0 && lastDot < |filename| - 1 && |filename| - lastDot < MAX_EXTENSION_LENGTH {
      ext := filename[lastDot..];
      name := filename[..lastDot];
    }
    assert name + ext == filename;
    var availableLength := maxLength - |ext|;
    if availableLength < 1 {
      r := TruncateAtValidUtf8Boundary(name + ext, maxLength);
      return;
    }
    var truncatedBase := TruncateAtValidUtf8Boundary(name, availableLength);
    r := truncatedBase + ext;
  }

  method SafeFilename(filename: seq<byte>, invalid: seq<byte>) returns (r: seq<byte>)
    requires Forbids(invalid)
    ensures r == SafeName(filename, invalid)
  {
    if filename == [] {
      return [];
    }
    var name := filename;
    for i := 0 to |invalid|
      invariant name == Cleaned(filename, invalid[..i])
    {
      name := ReplaceAll(name, invalid[i]);
      assert invalid[..i + 1] == invalid[..i] + [invalid[i]];
    }
    assert invalid[..|invalid|] == invalid;
    r := TruncateFilename(name, MAX_FILENAME_LENGTH);
  }

  // ----- Characters and bytes -----

  lemma Slices(s: seq<byte>, n: nat, k: nat)
    requires n + k <= |s|
    ensures s[..n] + s[n..][..k] == s[..n + k]
    ensures s[..n + k][n..] == s[n..][..k]
  {
  }

  /** An ASCII byte of a well-formed text is a character of its own. */
  lemma {:induction false} AsciiIsBoundary(s: seq<byte>, k: nat)
    requires Valid(s) && k < |s| && s[k] < 0x80
    ensures Valid(s[..k]) && Valid(s[k..])
  {
    var n := CharLen(s);
    if k > 0 {
      assert k >= n;
      AsciiIsBoundary(s[n..], k - n);
      Prepend(s, s[n..][..k - n]);
      Slices(s, n, k - n);
      assert s[n..][k - n..] == s[k..];
    } else {
      assert s[k..] == s;
    }
  }

  /** The first character of s stays one when the rest is exchanged. */
  lemma Prepend(s: seq<byte>, rest: seq<byte>)
    requires CharLen(s) > 0 && Valid(rest)
    ensures CharLen(s[..CharLen(s)] + rest) == CharLen(s) && Valid(s[..CharLen(s)] + rest)
  {
    var n := CharLen(s);
    var t := s[..n] + rest;
    assert forall i | 0 <= i < n :: t[i] == s[i];
    assert t[n..] == rest;
  }

  lemma SplitConcat(a: seq<byte>, b: seq<byte>, n: nat)
    requires n <= |a|
    ensures a + b == a[..n] + (a[n..] + b)
  {
  }

  lemma {:induction false} ValidConcat(a: seq<byte>, b: seq<byte>)
    requires Valid(a) && Valid(b)
    ensures Valid(a + b)
  {
    if a == [] {
      assert a + b == b;
    } else {
      var n := CharLen(a);
      ValidConcat(a[n..], b);
      Prepend(a, a[n..] + b);
      SplitConcat(a, b, n);
    }
  }

  lemma CleaningIsLocal(s: seq<byte>, invalid: seq<byte>, k: nat)
    requires k <= |s|
    ensures Cleaned(s, invalid)[..k] == Cleaned(s[..k], invalid)
    ensures Cleaned(s, invalid)[k..] == Cleaned(s[k..], invalid)
  {
  }

  lemma {:induction false} CleaningKeepsValidity(s: seq<byte>, invalid: seq<byte>)
    requires Forbids(invalid)
    ensures Valid(Cleaned(s, invalid)) <==> Valid(s)
  {
    if s != [] {
      var n, t := CharLen(s), Cleaned(s, invalid);
      assert CharLen(t) == n;
      if n > 0 {
        CleaningKeepsValidity(s[n..], invalid);
        CleaningIsLocal(s, invalid, n);
      }
    }
  }

  // ----- Truncation -----

  /** A longest prefix of whole characters loses at most three bytes below the limit. */
  lemma {:induction false} CutLosesAtMostThree(s: seq<byte>, max: nat)
    requires Valid(s) && max <= |s|
    ensures max - 3 <= LongestValid(s, max) <= max
  {
    if s != [] {
      var n := CharLen(s);
      if max >= n {
        CutLosesAtMostThree(s[n..], max - n);
        var k := LongestValid(s[n..], max - n);
        Prepend(s, s[n..][..k]);
        Slices(s, n, k);
        assert LongestValid(s, max) >= n + k;
      }
    }
  }

  /** How many leading characters of the text fit into max bytes. */
  function Fitting(text: seq<Char>, max: int): (n: nat)
    ensures n <= |text|
  {
    if text == [] || |Encode(text[0])| > max then 0
    else 1 + Fitting(text[1..], max - |Encode(text[0])|)
  }

  /** Behind a first character, the longest valid prefix continues with one of the rest. */
  lemma LongestValidStep(s: seq<byte>, max: nat)
    requires 0 < CharLen(s) && max <= |s|
    ensures LongestValid(s, max) ==
            if max < CharLen(s) then 0 else CharLen(s) + LongestValid(s[CharLen(s)..], max - CharLen(s))
  {
    var n := CharLen(s);
    if max >= n {
      var k := LongestValid(s[n..], max - n);
      Prepend(s, s[n..][..k]);
      Slices(s, n, k);
    }
    forall j | 0 < j <= max && Valid(s[..j])
      ensures j >= n && Valid(s[n..][..j - n])
    {
      assert CharLen(s[..j]) == n;
      Slices(s, n, j - n);
    }
  }

  lemma CutBehind(s: seq<byte>, n: nat, max: nat)
    requires 0 < n == CharLen(s)
    ensures Cut(s, max) == if max < n then [] else s[..n] + Cut(s[n..], max - n)
  {
    if max < |s| {
      LongestValidStep(s, max);
      if n <= max {
        Slices(s, n, LongestValid(s[n..], max - n));
      }
    } else {
      assert s == s[..n] + s[n..];
    }
  }

  /** Behind its first character, a cut text is the cut rest. */
  lemma CutStep(first: Char, rest: seq<byte>, max: nat)
    ensures Cut(Encode(first) + rest, max) ==
            if max < |Encode(first)| then [] else Encode(first) + Cut(rest, max - |Encode(first)|)
  {
    DecodeEncode(first, rest);
    var s, n := Encode(first) + rest, |Encode(first)|;
    assert s[n..] == rest && s[..n] == Encode(first);
    CutBehind(s, n, max);
  }

  /** A name cut to max bytes is the text of the characters that fit: none is split, and none
      is lost that had room. */
  lemma {:induction false} CutKeepsWholeCharacters(text: seq<Char>, max: nat)
    ensures Cut(EncodeAll(text), max) == EncodeAll(text[..Fitting(text, max)])
  {
    if text != [] {
      CutStep(text[0], EncodeAll(text[1..]), max);
      var n := |Encode(text[0])|;
      if n <= max {
        CutKeepsWholeCharacters(text[1..], max - n);
        var f := Fitting(text[1..], max - n);
        assert text[..1 + f][1..] == text[1..][..f];
      }
    }
  }

  /** For every limit: no longer than that, well formed, and a second call changes nothing. */
  lemma TruncatedIsBounded(s: seq<byte>, max: nat)
    ensures |Truncated(s, max)| <= max
    ensures Truncated(Truncated(s, max), max) == Truncated(s, max)
    ensures Valid(s) ==> Valid(Truncated(s, max))
    ensures Valid(s) && |s| > max ==> max - 3 <= |Truncated(s, max)|
  {
    if |s| > max {
      var e := ExtensionStart(s);
      var available := max - (|s| - e);
      if Valid(s) {
        if e < |s| {
          AsciiIsBoundary(s, e);
        } else {
          assert s[..e] == s;
        }
        if available < 1 {
          CutLosesAtMostThree(s, max);
        } else {
          CutLosesAtMostThree(s[..e], available);
          ValidConcat(Cut(s[..e], available), s[e..]);
        }
      }
    }
  }

  /** What is left of a name is a prefix of its base name followed by its extension, unless
      the extension leaves no room for a base name. */
  lemma TruncatedKeepsExtension(s: seq<byte>, max: nat)
    requires max > |s| - ExtensionStart(s)
    ensures var r, e := Truncated(s, max), ExtensionStart(s);
            |r| >= |s| - e && r[|r| - (|s| - e)..] == s[e..] && r[..|r| - (|s| - e)] <= s[..e]
  {
  }

  lemma TruncatedAddsNothing(s: seq<byte>, max: nat)
    requires max > |s| - ExtensionStart(s)
    ensures forall b | b in Truncated(s, max) :: b in s
  {
    TruncatedKeepsExtension(s, max);
    var r, e := Truncated(s, max), ExtensionStart(s);
    var base := |r| - (|s| - e);
    forall i | 0 <= i < |r| ensures r[i] in s {
      assert if i < base then r[i] == r[..base][i] == s[i] else r[i] == r[base..][i - base] == s[e + (i - base)];
    }
  }

  lemma JoinIsValidIff(base: seq<byte>, ext: seq<byte>)
    requires Valid(base) && (ext == [] || ext[0] < 0x80)
    ensures Valid(base + ext) <==> Valid(ext)
  {
    if Valid(ext) {
      ValidConcat(base, ext);
    } else {
      var r := base + ext;
      assert r[|base|..] == ext && r[|base|] == ext[0];
      if Valid(r) {
        AsciiIsBoundary(r, |base|);
      }
    }
  }

  lemma TruncatedIsValidIff(s: seq<byte>, max: nat)
    requires |s| > max > |s| - ExtensionStart(s)
    ensures Valid(Truncated(s, max)) <==> Valid(s[ExtensionStart(s)..])
  {
    var e := ExtensionStart(s);
    JoinIsValidIff(Cut(s[..e], max - (|s| - e)), s[e..]);
  }

  // ----- Safe names -----

  /** The replacement spares the dots, so it does not move the extension. */
  lemma CleaningKeepsLastDot(s: seq<byte>, invalid: seq<byte>)
    requires Forbids(invalid)
    ensures LastIndex(Cleaned(s, invalid), DOT) == LastIndex(s, DOT)
  {
    var t := Cleaned(s, invalid);
    var a, b := LastIndex(t, DOT), LastIndex(s, DOT);
    assert forall k | 0 <= k < |s| :: t[k] == DOT <==> s[k] == DOT;
    assert !(a < b) && !(b < a);
  }

  /** A safe name has at most 100 bytes and no forbidden character; a well-formed name that is
      too long keeps all but at most three of 100 bytes. */
  lemma SafeNameIsSafe(name: seq<byte>, invalid: seq<byte>)
    requires Forbids(invalid)
    ensures var r := SafeName(name, invalid);
            && |r| <= 100
            && (forall c | c in invalid :: c !in r)
            && (|name| <= 100 ==> r == Cleaned(name, invalid))
            && (Valid(name) && |name| > 100 ==> |r| >= 97)
  {
    var cleaned, r := Cleaned(name, invalid), SafeName(name, invalid);
    TruncatedIsBounded(cleaned, MAX_FILENAME_LENGTH);
    CleaningKeepsValidity(name, invalid);
    TruncatedAddsNothing(cleaned, MAX_FILENAME_LENGTH);
  }

  /** A safe name is well formed exactly when the part of the name that is never cut is: all of
      a short name, the extension of a long one.  So it is whenever the name was. */
  lemma SafeNameIsValidIff(name: seq<byte>, invalid: seq<byte>)
    requires Forbids(invalid)
    ensures Valid(SafeName(name, invalid)) <==>
            if |name| <= MAX_FILENAME_LENGTH then Valid(name) else Valid(name[ExtensionStart(name)..])
    ensures Valid(name) ==> Valid(SafeName(name, invalid))
  {
    var cleaned, e := Cleaned(name, invalid), ExtensionStart(name);
    CleaningKeepsValidity(name, invalid);
    if |name| > MAX_FILENAME_LENGTH {
      CleaningKeepsLastDot(name, invalid);
      CleaningKeepsValidity(name[e..], invalid);
      CleaningIsLocal(name, invalid, e);
      TruncatedIsValidIff(cleaned, MAX_FILENAME_LENGTH);
      if Valid(name) && e < |name| {
        AsciiIsBoundary(name, e);
      }
    }
  }

  lemma SafeNameIsIdempotent(name: seq<byte>, invalid: seq<byte>)
    requires Forbids(invalid)
    ensures SafeName(SafeName(name, invalid), invalid) == SafeName(name, invalid)
  {
    var r := SafeName(name, invalid);
    SafeNameIsSafe(name, invalid);
    assert Cleaned(r, invalid) == r;
  }

  /** "x.y" has the extension ".y" if both sides of its last dot are non-empty and ".y" has fewer
      than 20 bytes; any other name has none. */
  lemma ExtensionIsBehindDot(x: seq<byte>, y: seq<byte>)
    requires DOT !in y
    ensures ExtensionStart(x + [DOT] + y) ==
            if x != [] && y != [] && |y| + 1 < 20 then |x| else |x| + 1 + |y|
  {
    var s := x + [DOT] + y;
    assert s[|x|] == DOT && forall k :: |x| < k < |s| ==> s[k] == y[k - |x| - 1];
    assert LastIndex(s, DOT) == |x|;
  }

  lemma NoDotNoExtension(s: seq<byte>)
    requires DOT !in s
    ensures ExtensionStart(s) == |s|
  {
  }

  lemma CleanedAroundDot(x: seq<byte>, y: seq<byte>, invalid: seq<byte>)
    requires Forbids(invalid)
    ensures Cleaned(x + [DOT] + y, invalid) == Cleaned(x, invalid) + [DOT] + Cleaned(y, invalid)
    ensures |Cleaned(x, invalid)| == |x| && (Cleaned(x, invalid) == [] <==> x == [])
    ensures DOT !in y ==> DOT !in Cleaned(y, invalid)
  {
  }

  lemma TruncatedAroundDot(x: seq<byte>, y: seq<byte>, max: nat)
    requires x != [] && y != [] && DOT !in y && |y| + 1 < MAX_EXTENSION_LENGTH && max > |y| + 1
    ensures Truncated(x + [DOT] + y, max) == Cut(x, max - 1 - |y|) + [DOT] + y
  {
    var s := x + [DOT] + y;
    ExtensionIsBehindDot(x, y);
    assert s[..|x|] == x && s[|x|..] == [DOT] + y;
    if |s| > max {
      assert Cut(x, max - 1 - |y|) + ([DOT] + y) == Cut(x, max - 1 - |y|) + [DOT] + y;
    }
  }

  /** So of a name "x.y" with such an extension a safe name keeps ".y", behind as much of x as
      there is room for: all of it if it fits, and otherwise, if x is well formed, all but at
      most three bytes of the room. */
  lemma LongNameKeepsBehindDot(x: seq<byte>, y: seq<byte>, invalid: seq<byte>) returns (base: seq<byte>)
    requires Forbids(invalid) && x != [] && y != [] && DOT !in y && |y| + 1 < 20
    ensures SafeName(x + [DOT] + y, invalid) == base + [DOT] + Cleaned(y, invalid)
    ensures base <= Cleaned(x, invalid)
    ensures var room := 100 - 1 - |y|;
            && |base| <= room
            && (|x| <= room ==> base == Cleaned(x, invalid))
            && (|x| > room && Valid(x) ==> room - 3 <= |base|)
  {
    var room := MAX_FILENAME_LENGTH - 1 - |y|;
    base := Cut(Cleaned(x, invalid), room);
    CleanedAroundDot(x, y, invalid);
    CleanedAroundDot(y, y, invalid);
    TruncatedAroundDot(Cleaned(x, invalid), Cleaned(y, invalid), MAX_FILENAME_LENGTH);
    if Valid(x) && |x| > room {
      CleaningKeepsValidity(x, invalid);
      CutLosesAtMostThree(Cleaned(x, invalid), room);
    }
  }

  /** A name that needs no cut keeps its length and everything but its forbidden characters. */
  lemma ShortNameKeepsCharacters(name: seq<byte>, invalid: seq<byte>, i: nat)
    requires Forbids(invalid) && |name| <= MAX_FILENAME_LENGTH && i < |name|
    ensures var r := SafeName(name, invalid);
            |r| == |name| && r[i] == if name[i] in invalid then UNDERSCORE else name[i]
  {
  }

  /** The recognised extension of the name survives, with its forbidden characters replaced;
      in front of it stands a prefix of the replaced base name. */
  lemma SafeNameKeepsExtension(name: seq<byte>, invalid: seq<byte>)
    requires Forbids(invalid)
    ensures var r, e := SafeName(name, invalid), ExtensionStart(name);
            && |r| >= |name| - e
            && r[|r| - (|name| - e)..] == Cleaned(name[e..], invalid)
            && r[..|r| - (|name| - e)] <= Cleaned(name[..e], invalid)
  {
    var cleaned, e := Cleaned(name, invalid), ExtensionStart(name);
    CleaningKeepsLastDot(name, invalid);
    TruncatedKeepsExtension(cleaned, MAX_FILENAME_LENGTH);
    CleaningIsLocal(name, invalid, e);
  }
}
