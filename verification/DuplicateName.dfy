/** Renaming a download whose file exists already: "a.txt" becomes "a (1).txt". */
module DuplicateName {
  import opened Basics

  datatype Result = Ok(name: string) | Err

  /** What asking for the status of a name reports. */
  datatype Status = Missing | Exists | Denied

  // ----- Decimal numbers -----

  function Digit(d: nat): char
    requires d < 10
  {
    '0' + d as char
  }

  function Decimal(n: nat): string {
    if n < 10 then [Digit(n)] else Decimal(n / 10) + [Digit(n % 10)]
  }

  function Number(s: string): int {
    if s == "" then 0 else Number(s[..|s| - 1]) * 10 + (s[|s| - 1] as int - '0' as int)
  }

  lemma {:induction false} DecimalRoundTrip(n: nat)
    ensures Number(Decimal(n)) == n
  {
    if n < 10 {
      assert Decimal(n)[..0] == "";
    } else {
      DecimalRoundTrip(n / 10);
      var s := Decimal(n);
      assert s[..|s| - 1] == Decimal(n / 10);
    }
  }

  lemma {:induction false} DecimalIsDigits(n: nat)
    ensures Decimal(n) != "" && forall c | c in Decimal(n) :: '0' <= c <= '9'
  {
    if n >= 10 {
      DecimalIsDigits(n / 10);
    }
  }

  /** The usual notation: digits only, and none in vain. */
  lemma {:induction false} DecimalIsCanonical(n: nat)
    ensures Decimal(n) != "" && (forall c | c in Decimal(n) :: '0' <= c <= '9')
    ensures Decimal(n)[0] == '0' <==> n == 0
    ensures n == 0 ==> Decimal(n) == "0"
  {
    if n >= 10 {
      DecimalIsCanonical(n / 10);
    }
  }

  // ----- Formatting -----

  /** A piece of a format template: a character, "%%", "%d" or "%T". */
  datatype Token = Text(c: char) | Percent | Verb(v: char)

  /** The template as a list of pieces, unless it has a verb other than these. */
  function Parse(template: string): Option<seq<Token>> {
    if template == "" then Some([])
    else if template[0] != '%' then Prepend(Text(template[0]), Parse(template[1..]))
    else if |template| < 2 then None
    else if template[1] == '%' then Prepend(Percent, Parse(template[2..]))
    else if template[1] == 'd' || template[1] == 'T' then Prepend(Verb(template[1]), Parse(template[2..]))
    else None
  }

  function Prepend(t: Token, rest: Option<seq<Token>>): Option<seq<Token>> {
    if rest.Some? then Some([t] + rest.value) else None
  }

  predicate Modelled(template: string) {
    Parse(template).Some?
  }

  function Tokens(template: string): seq<Token>
    requires Modelled(template)
  {
    Parse(template).value
  }

  function Spelling(t: Token): string {
    match t
    case Text(c) => [c]
    case Percent => "%%"
    case Verb(v) => ['%', v]
  }

  const COMPLAINT := "(MISSING)"

  /** What a piece prints when no argument is left. */
  function Bare(t: Token): string {
    match t
    case Text(c) => [c]
    case Percent => "%"
    case Verb(v) => "%" + (['!', v] + COMPLAINT)
  }

  /** What a verb prints for an integer: its value or its type. */
  function Render(v: char, arg: nat): string {
    if v == 'd' then Decimal(arg) else "int"
  }

  /** All pieces, each printed by f. */
  function All(ts: seq<Token>, f: Token -> string): string {
    if ts == [] then "" else All(ts[..|ts| - 1], f) + f(ts[|ts| - 1])
  }

  function BareAll(ts: seq<Token>): string { All(ts, Bare) }

  function SpellAll(ts: seq<Token>): string { All(ts, Spelling) }

  /** The position of the first verb; the length if there is none. */
  function VerbAt(ts: seq<Token>): (k: nat)
    ensures k <= |ts|
    ensures k < |ts| ==> ts[k].Verb?
    ensures forall j :: 0 <= j < k ==> !ts[j].Verb?
  {
    if ts == [] then 0
    else
      var k := VerbAt(ts[..|ts| - 1]);
      assert forall j :: 0 <= j < |ts| - 1 ==> ts[..|ts| - 1][j] == ts[j];
      if k < |ts| - 1 || ts[|ts| - 1].Verb? then k else |ts|
  }

  /** Go's Sprintf with one integer: the first verb prints it, later ones complain. */
  function Print(ts: seq<Token>, arg: nat): string
    requires VerbAt(ts) < |ts|
  {
    BareAll(ts[..VerbAt(ts)]) + Render(ts[VerbAt(ts)].v, arg) + BareAll(ts[VerbAt(ts) + 1..])
  }

  lemma ConcatAssociates<T>(x: seq<T>, y: seq<T>, z: seq<T>)
    ensures x + (y + z) == x + y + z
  {
  }

  lemma {:induction false} AllConcat(a: seq<Token>, b: seq<Token>, f: Token -> string)
    ensures All(a + b, f) == All(a, f) + All(b, f)
  {
    if b == [] {
      assert a + b == a;
    } else {
      var front, last := b[..|b| - 1], b[|b| - 1];
      AllConcat(a, front, f);
      assert (a + b)[..|a + b| - 1] == a + front && (a + b)[|a + b| - 1] == last;
      ConcatAssociates(All(a, f), All(front, f), f(last));
    }
  }

  lemma AllOne(t: Token, f: Token -> string)
    ensures All([t], f) == f(t)
  {
    assert [t][..0] == [];
    assert "" + f(t) == f(t);
  }

  /** A template is its first piece and the template behind it. */
  lemma FirstPiece(s: string)
    requires Modelled(s) && s != ""
    ensures Tokens(s) != [] && var t := Tokens(s)[0];
            && |Spelling(t)| <= |s| && s == Spelling(t) + s[|Spelling(t)|..]
            && Modelled(s[|Spelling(t)|..]) && Tokens(s) == [t] + Tokens(s[|Spelling(t)|..])
            && (t.Text? ==> t.c != '%') && (t.Verb? ==> t.v == 'd' || t.v == 'T')
  {
    var n := if s[0] == '%' then 2 else 1;
    assert s == s[..n] + s[n..];
  }

  /** Parsing forgets nothing. */
  lemma {:induction false} ParseSpells(s: string)
    requires Modelled(s)
    ensures SpellAll(Tokens(s)) == s
    ensures forall t | t in Tokens(s) :: (t.Text? ==> t.c != '%') && (t.Verb? ==> t.v == 'd' || t.v == 'T')
  {
    if s != "" {
      FirstPiece(s);
      var t := Tokens(s)[0];
      var n := |Spelling(t)|;
      ParseSpells(s[n..]);
      AllConcat([t], Tokens(s[n..]), Spelling);
      AllOne(t, Spelling);
    }
  }

  /** A template is parsed piece by piece. */
  lemma {:induction false} ParseConcat(a: string, b: string)
    requires Modelled(a) && Modelled(b)
    ensures Parse(a + b) == Some(Tokens(a) + Tokens(b))
  {
    if a == "" {
      assert a + b == b && Tokens(a) + Tokens(b) == Tokens(b);
    } else {
      var t := Tokens(a)[0];
      var n := |Spelling(t)|;
      ParseConcat(a[n..], b);
      assert (a + b)[n..] == a[n..] + b && (a + b)[0] == a[0] && (n == 2 ==> (a + b)[1] == a[1]);
      ConcatAssociates([t], Tokens(a[n..]), Tokens(b));
    }
  }

  /** A template may be cut in front of anything but a verb. */
  lemma {:induction false} ParseCut(a: string, b: string)
    requires Modelled(a + b) && (b == "" || b[0] !in "%dT")
    ensures Modelled(a) && Modelled(b)
  {
    if a == "" {
      assert a + b == b;
    } else if a[0] != '%' {
      assert (a + b)[1..] == a[1..] + b;
      ParseCut(a[1..], b);
    } else {
      assert |a| >= 2;
      assert (a + b)[2..] == a[2..] + b;
      ParseCut(a[2..], b);
    }
  }

  // ----- Names -----

  /** The extension: from the last dot of the last path element to the end. */
  function Ext(name: string): (e: string)
    ensures |e| <= |name| && name[|name| - |e|..] == e
    ensures e != "" ==> e[0] == '.'
  {
    if name == "" || name[|name| - 1] == '/' then ""
    else if name[|name| - 1] == '.' then "."
    else
      var e := Ext(name[..|name| - 1]);
      if e == "" then "" else e + [name[|name| - 1]]
  }

  /** The extension to keep: none for a name that is all extension, like ".gitignore". */
  function KeptExt(name: string): (e: string)
    ensures |e| <= |name| && name[|name| - |e|..] == e
    ensures e != "" ==> e[0] == '.'
  {
    var ext := Ext(name);
    if ext == "" || ext == name || LastIndex(name, '.') == 0 then "" else ext
  }

  function Stem(name: string): string {
    name[..|name| - |KeptExt(name)|]
  }

  /** What the documentation promises: "stem (i)ext". */
  function Numbered(name: string, i: nat): string {
    Stem(name) + (" (" + Decimal(i) + ")") + KeptExt(name)
  }

  /** The template the code builds. */
  function Template(name: string): string {
    Stem(name) + " (%d)" + KeptExt(name)
  }

  // ----- Where the number goes, in terms of characters -----

  /** What follows the last dot, without a separator, is the extension. */
  lemma {:induction false} ExtFrom(name: string, n: nat)
    requires n < |name| && name[n] == '.'
    requires forall k :: n < k < |name| ==> name[k] != '.' && name[k] != '/'
    ensures Ext(name) == name[n..] && LastIndex(name, '.') == n
  {
    ExtLength(name, n);
    assert LastIndex(name, '.') == n;
  }

  lemma {:induction false} ExtLength(name: string, n: nat)
    requires n < |name| && name[n] == '.'
    requires forall k :: n < k < |name| ==> name[k] != '.' && name[k] != '/'
    ensures |Ext(name)| == |name| - n
  {
    if n < |name| - 1 {
      ExtLength(name[..|name| - 1], n);
    }
  }

  lemma KeptFrom(name: string, n: nat)
    requires 0 < n < |name| && name[n] == '.'
    requires forall k :: n < k < |name| ==> name[k] != '.' && name[k] != '/'
    ensures KeptExt(name) == name[n..] && Stem(name) == name[..n]
  {
    ExtFrom(name, n);
    assert |name[n..]| < |name|;
  }

  lemma DotBetween(x: string, y: string, name: string)
    requires '.' !in y && '/' !in y && name == x + "." + y
    ensures |x| < |name| && name[|x|] == '.' && name[..|x|] == x && name[|x|..] == "." + y
    ensures forall k :: |x| < k < |name| ==> name[k] != '.' && name[k] != '/'
  {
    assert forall k :: |x| < k < |name| ==> name[k] == y[k - |x| - 1];
  }

  /** The last dot of a name is its first character, or a separator follows it. */
  predicate NoExtension(name: string) {
    forall k :: 0 <= k < |name| && name[k] == '.' ==> k == 0 || '/' in name[k..]
  }

  lemma {:induction false} ExtHasNoSeparator(name: string)
    ensures '/' !in Ext(name)
  {
    if name != "" {
      ExtHasNoSeparator(name[..|name| - 1]);
    }
  }

  lemma NothingKept(name: string)
    requires NoExtension(name)
    ensures KeptExt(name) == "" && Stem(name) == name
  {
    var ext := Ext(name);
    if ext != "" {
      var k := |name| - |ext|;
      ExtHasNoSeparator(name);
      assert name[k..] == ext && name[k] == ext[0];
      assert k == 0;
    }
  }

  /** "x.y" becomes "x (i).y": the number goes in front of the last dot, unless that is the
      first character of the name or a separator follows it. */
  lemma NumberBeforeExtension(x: string, y: string, i: nat)
    requires x != "" && '.' !in y && '/' !in y
    ensures Template(x + "." + y) == x + " (%d)" + "." + y
    ensures Numbered(x + "." + y, i) == x + " (" + Decimal(i) + ")" + "." + y
  {
    var name := x + "." + y;
    DotBetween(x, y, name);
    KeptFrom(name, |x|);
    ConcatAssociates(x + " (%d)", ".", y);
    ConcatAssociates(x + (" (" + Decimal(i) + ")"), ".", y);
    ConcatAssociates(x, " (" + Decimal(i), ")");
    ConcatAssociates(x, " (", Decimal(i));
  }

  /** Every other name gets the number at its end. */
  lemma NumberAtEnd(name: string, i: nat)
    requires NoExtension(name)
    ensures Template(name) == name + " (%d)"
    ensures Numbered(name, i) == name + " (" + Decimal(i) + ")"
  {
    NothingKept(name);
  }

  /** One of the two it is. */
  lemma EveryNameHasItsPlace(name: string)
    ensures NoExtension(name) <==>
            !exists n :: 0 < n < |name| && name[n] == '.' && '.' !in name[n + 1..] && '/' !in name[n + 1..]
  {
    var n := LastIndex(name, '.');
    if n > 0 && '/' !in name[n..] {
      assert '.' !in name[n + 1..] && forall c | c in name[n + 1..] :: c in name[n..];
    }
    forall n | 0 < n < |name| && name[n] == '.' && '/' !in name[n + 1..]
      ensures '/' !in name[n..]
    {
      assert name[n..] == [name[n]] + name[n + 1..];
    }
    forall k | 0 <= k < |name| && name[k] == '.' && k != 0 && '/' !in name[k..]
      ensures n > 0 && '/' !in name[n..]
    {
      assert forall c | c in name[n..] :: c in name[k..];
    }
  }

  const NUMBER: seq<Token> := [Text(' '), Text('('), Verb('d'), Text(')')]

  lemma ParseText(c: char, rest: string)
    requires c != '%' && Modelled(rest)
    ensures Parse([c] + rest) == Some([Text(c)] + Tokens(rest))
  {
    assert ([c] + rest)[1..] == rest;
  }

  lemma ParseVerb(v: char, rest: string)
    requires (v == 'd' || v == 'T') && Modelled(rest)
    ensures Parse(['%', v] + rest) == Some([Verb(v)] + Tokens(rest))
  {
    assert (['%', v] + rest)[2..] == rest;
  }

  lemma NumberParses()
    ensures Parse(" (%d)") == Some(NUMBER)
  {
    ParseText(')', "");
    ParseVerb('d', [')'] + "");
    ParseText('(', ['%', 'd'] + ([')'] + ""));
    ParseText(' ', ['('] + (['%', 'd'] + ([')'] + "")));
    assert " (%d)" == [' '] + (['('] + (['%', 'd'] + ([')'] + "")));
    assert NUMBER == [Text(' ')] + ([Text('(')] + ([Verb('d')] + ([Text(')')] + [])));
  }

  /** What the number prints when the stem has taken the argument. */
  function NoNumber(): string {
    BareAll(NUMBER)
  }

  lemma NumberPrints()
    ensures BareAll(NUMBER[..2]) == " (" && BareAll(NUMBER[3..]) == ")"
  {
    AllOne(Text(' '), Bare);
    AllOne(Text('('), Bare);
    AllOne(Text(')'), Bare);
    assert NUMBER[..2] == [Text(' ')] + [Text('(')] && NUMBER[3..] == [Text(')')];
    AllConcat([Text(' ')], [Text('(')], Bare);
  }

  lemma NumberComplains()
    ensures NoNumber() == " (" + "%!d(MISSING)" + ")"
  {
    NumberPrints();
    AllOne(Verb('d'), Bare);
    AllConcat(NUMBER[..2], [Verb('d')], Bare);
    AllConcat(NUMBER[..2] + [Verb('d')], NUMBER[3..], Bare);
    assert NUMBER == NUMBER[..2] + [Verb('d')] + NUMBER[3..];
    assert Bare(Verb('d')) == "%!d(MISSING)";
  }

  /** The template's pieces: those of the stem, the number's and those of the extension. */
  lemma TemplateTokens(name: string)
    requires Modelled(name)
    ensures Modelled(Stem(name)) && Modelled(KeptExt(name))
    ensures Parse(Template(name)) == Some(Tokens(Stem(name)) + NUMBER + Tokens(KeptExt(name)))
  {
    assert name == Stem(name) + KeptExt(name);
    ParseCut(Stem(name), KeptExt(name));
    NumberParses();
    ParseConcat(Stem(name), " (%d)");
    ParseConcat(Stem(name) + " (%d)", KeptExt(name));
  }

  /** The first verb of a template that begins with `a`, followed by a number. */
  lemma FirstVerbOf(a: seq<Token>, b: seq<Token>)
    ensures var k := VerbAt(a); VerbAt(a + NUMBER + b) == if k < |a| then k else |a| + 2
  {
    var ts, k := a + NUMBER + b, VerbAt(a);
    if k < |a| {
      assert ts[k] == a[k] && forall j :: 0 <= j < k ==> ts[j] == a[j];
    } else {
      assert ts[|a|] == Text(' ') && ts[|a| + 1] == Text('(') && ts[|a| + 2] == Verb('d');
      assert forall j :: 0 <= j < |a| ==> ts[j] == a[j];
    }
  }

  /** The name's stem brings its own first verb, and that prints the type of the number. */
  predicate PrintsType(name: string)
    requires Modelled(name) && Modelled(Stem(name))
  {
    var ts := Tokens(Stem(name));
    VerbAt(ts) < |ts| && ts[VerbAt(ts)].v == 'T'
  }

  /** The i-th name tried. */
  function Candidate(name: string, i: nat): string
    requires Modelled(name)
  {
    TemplateTokens(name);
    FirstVerbOf(Tokens(Stem(name)), Tokens(KeptExt(name)));
    Print(Tokens(Template(name)), i)
  }

  /** The names tried in closed form: the number is printed by the stem's first verb, if it
      has one, and otherwise behind the stem. */
  lemma CandidateIs(name: string, i: nat)
    requires Modelled(name)
    ensures Modelled(Stem(name)) && Modelled(KeptExt(name))
    ensures var a, b := Tokens(Stem(name)), Tokens(KeptExt(name));
            var k := VerbAt(a);
            Candidate(name, i) ==
            if k < |a| then BareAll(a[..k]) + Render(a[k].v, i) + (BareAll(a[k + 1..]) + NoNumber() + BareAll(b))
            else BareAll(a) + (" (" + Decimal(i) + ")") + BareAll(b)
  {
    TemplateTokens(name);
    var a, b := Tokens(Stem(name)), Tokens(KeptExt(name));
    FirstVerbOf(a, b);
    if VerbAt(a) < |a| {
      PrintsInStem(a, b, i);
    } else {
      PrintsBehindStem(a, b, i);
    }
  }

  lemma PrintsInStem(a: seq<Token>, b: seq<Token>, i: nat)
    requires VerbAt(a) < |a| && VerbAt(a + NUMBER + b) == VerbAt(a)
    ensures var k := VerbAt(a);
            Print(a + NUMBER + b, i) ==
            BareAll(a[..k]) + Render(a[k].v, i) + (BareAll(a[k + 1..]) + NoNumber() + BareAll(b))
  {
    var ts, k := a + NUMBER + b, VerbAt(a);
    assert ts[..k] == a[..k] && ts[k] == a[k] && ts[k + 1..] == a[k + 1..] + NUMBER + b;
    AllConcat(a[k + 1..], NUMBER, Bare);
    AllConcat(a[k + 1..] + NUMBER, b, Bare);
  }

  lemma PrintsBehindStem(a: seq<Token>, b: seq<Token>, i: nat)
    requires VerbAt(a + NUMBER + b) == |a| + 2
    ensures Print(a + NUMBER + b, i) == BareAll(a) + (" (" + Decimal(i) + ")") + BareAll(b)
  {
    var ts := a + NUMBER + b;
    NumberPrints();
    assert ts[..|a| + 2] == a + NUMBER[..2] && ts[|a| + 2] == Verb('d') && ts[|a| + 3..] == NUMBER[3..] + b;
    AllConcat(a, NUMBER[..2], Bare);
    AllConcat(NUMBER[3..], b, Bare);
    Regroup(BareAll(a), Decimal(i), BareAll(b));
  }

  lemma Regroup(a: string, d: string, b: string)
    ensures a + " (" + d + (")" + b) == a + (" (" + d + ")") + b
  {
  }

  /** Two names tried are different, unless the type is printed for the number; then all are
      the same. */
  lemma CandidatesAreDistinctIff(name: string, i: nat, k: nat)
    requires Modelled(name) && i != k
    ensures Modelled(Stem(name)) && (Candidate(name, i) != Candidate(name, k) <==> !PrintsType(name))
  {
    TemplateTokens(name);
    var ts := Tokens(Template(name));
    FirstVerbOf(Tokens(Stem(name)), Tokens(KeptExt(name)));
    var p := VerbAt(ts);
    VerbOfTemplate(name);
    if !PrintsType(name) && Candidate(name, i) == Candidate(name, k) {
      MiddleIsUnique(BareAll(ts[..p]), Decimal(i), Decimal(k), BareAll(ts[p + 1..]));
      DecimalRoundTrip(i);
      DecimalRoundTrip(k);
    }
  }

  lemma VerbOfTemplate(name: string)
    requires Modelled(name)
    ensures Modelled(Template(name)) && Modelled(Stem(name))
    ensures var ts := Tokens(Template(name));
            VerbAt(ts) < |ts| && ts[VerbAt(ts)].v == if PrintsType(name) then 'T' else 'd'
  {
    TemplateTokens(name);
    ParseSpells(Stem(name));
    var a := Tokens(Stem(name));
    FirstVerbOf(a, Tokens(KeptExt(name)));
    if VerbAt(a) < |a| {
      assert a[VerbAt(a)] in a;
    }
  }

  lemma MiddleIsUnique(a: string, x: string, y: string, b: string)
    requires a + x + b == a + y + b
    ensures x == y
  {
    assert |a + x + b| == |a| + |x| + |b| && |a + y + b| == |a| + |y| + |b|;
    assert x == (a + x + b)[|a|..|a| + |x|];
    assert y == (a + y + b)[|a|..|a| + |x|];
  }

  // ----- When the promise holds -----

  /** How many pieces are doubled signs, and how many are verbs. */
  function Doubles(ts: seq<Token>): nat {
    if ts == [] then 0 else Doubles(ts[..|ts| - 1]) + if ts[|ts| - 1].Percent? then 1 else 0
  }

  function Verbs(ts: seq<Token>): nat {
    if ts == [] then 0 else Verbs(ts[..|ts| - 1]) + if ts[|ts| - 1].Verb? then 1 else 0
  }

  /** How many times '%' occurs. */
  function Percents(s: string): nat {
    if s == "" then 0 else Percents(s[..|s| - 1]) + if s[|s| - 1] == '%' then 1 else 0
  }

  lemma {:induction false} PercentsConcat(x: string, y: string)
    ensures Percents(x + y) == Percents(x) + Percents(y)
  {
    if y == "" {
      assert x + y == x;
    } else {
      PercentsConcat(x, y[..|y| - 1]);
      assert (x + y)[..|x + y| - 1] == x + y[..|y| - 1];
    }
  }

  lemma {:induction false} NoPercents(s: string)
    ensures Percents(s) == 0 <==> '%' !in s
  {
    if s != "" {
      NoPercents(s[..|s| - 1]);
      assert s == s[..|s| - 1] + [s[|s| - 1]];
    }
  }

  lemma PercentsOne(c: char)
    ensures Percents([c]) == if c == '%' then 1 else 0
  {
    assert [c][..0] == "";
  }

  /** What Parse yields: '%' only as a piece of its own. */
  predicate Clean(ts: seq<Token>) {
    forall t | t in ts :: (t.Text? ==> t.c != '%') && (t.Verb? ==> t.v == 'd' || t.v == 'T')
  }

  lemma OnePercents(t: Token)
    requires Clean([t])
    ensures Percents(Bare(t)) == if t.Text? then 0 else 1
    ensures Percents(Spelling(t)) == if t.Text? then 0 else if t.Verb? then 1 else 2
    ensures |Bare(t)| == if t.Verb? then 12 else 1
    ensures |Spelling(t)| == if t.Text? then 1 else 2
  {
    assert t in [t];
    PercentsOne('%');
    match t
    case Text(c) => PercentsOne(c);
    case Percent => PercentsConcat("%", "%");
    case Verb(v) => VerbPercents(v);
  }

  lemma VerbPercents(v: char)
    requires v != '%'
    ensures Percents(Bare(Verb(v))) == 1 && Percents(Spelling(Verb(v))) == 1
  {
    NoPercents(['!', v]);
    NoPercents(COMPLAINT);
    PercentsOne('%');
    PercentsOne(v);
    PercentsConcat(['!', v], COMPLAINT);
    PercentsConcat("%", ['!', v] + COMPLAINT);
    PercentsConcat("%", [v]);
  }

  lemma {:induction false} CountPercents(ts: seq<Token>)
    requires Clean(ts)
    ensures Percents(BareAll(ts)) == Doubles(ts) + Verbs(ts)
    ensures Percents(SpellAll(ts)) == 2 * Doubles(ts) + Verbs(ts)
    ensures |BareAll(ts)| + Doubles(ts) == |SpellAll(ts)| + 10 * Verbs(ts)
    ensures Doubles(ts) + Verbs(ts) == 0 ==> BareAll(ts) == SpellAll(ts)
  {
    if ts != [] {
      var front, last := ts[..|ts| - 1], ts[|ts| - 1];
      assert last in ts && forall t | t in front :: t in ts;
      CountPercents(front);
      OnePercents(last);
      PercentsConcat(BareAll(front), Bare(last));
      PercentsConcat(SpellAll(front), Spelling(last));
    }
  }

  lemma {:induction false} CountsConcat(a: seq<Token>, b: seq<Token>)
    ensures Doubles(a + b) == Doubles(a) + Doubles(b) && Verbs(a + b) == Verbs(a) + Verbs(b)
  {
    if b == [] {
      assert a + b == a;
    } else {
      CountsConcat(a, b[..|b| - 1]);
      assert (a + b)[..|a + b| - 1] == a + b[..|b| - 1];
    }
  }

  lemma {:induction false} NoVerbs(ts: seq<Token>)
    requires forall t | t in ts :: !t.Verb?
    ensures Verbs(ts) == 0
  {
    if ts != [] {
      assert ts[|ts| - 1] in ts && forall t | t in ts[..|ts| - 1] :: t in ts;
      NoVerbs(ts[..|ts| - 1]);
    }
  }

  lemma NumberHasNoPercent(i: nat)
    ensures Percents(" (" + Decimal(i) + ")") == 0
    ensures Render('d', i) != "" && '%' !in Render('d', i) && '%' !in Render('T', i)
    ensures Percents(Render('d', i)) == Percents(Render('T', i)) == 0
  {
    DecimalIsDigits(i);
    assert '%' !in Decimal(i);
    NoPercents(" (" + Decimal(i) + ")");
    NoPercents(Decimal(i));
    NoPercents("int");
  }

  /** The pieces of a name, and what they say about its signs. */
  lemma NamePercents(name: string)
    requires Modelled(name)
    ensures Modelled(Stem(name)) && Modelled(KeptExt(name))
    ensures var a, b := Tokens(Stem(name)), Tokens(KeptExt(name));
            && Clean(a) && Clean(b) && SpellAll(a) == Stem(name) && SpellAll(b) == KeptExt(name)
            && ('%' !in name <==> Doubles(a) + Verbs(a) + Doubles(b) + Verbs(b) == 0)
  {
    TemplateTokens(name);
    TextPercents(Stem(name));
    TextPercents(KeptExt(name));
    StemAndExt(name);
  }

  lemma TextPercents(s: string)
    requires Modelled(s)
    ensures Clean(Tokens(s)) && SpellAll(Tokens(s)) == s
    ensures '%' !in s <==> Doubles(Tokens(s)) + Verbs(Tokens(s)) == 0
  {
    ParseSpells(s);
    CountPercents(Tokens(s));
    NoPercents(s);
  }

  lemma StemAndExt(name: string)
    ensures '%' !in name <==> '%' !in Stem(name) && '%' !in KeptExt(name)
  {
    InHalves(name, |name| - |KeptExt(name)|);
  }

  lemma InHalves(s: string, n: nat)
    requires n <= |s|
    ensures '%' in s <==> '%' in s[..n] || '%' in s[n..]
  {
    assert s == s[..n] + s[n..];
  }

  lemma FirstDiffers(p: string, r: string, rest: string, v: char, more: string)
    requires r != "" && r[0] != '%'
    ensures p + r + rest != p + (['%', v] + more)
  {
    assert (p + r + rest)[|p|] == r[0];
    assert (p + (['%', v] + more))[|p|] == '%';
  }

  /** A stem's first verb prints something else than its sign. */
  lemma VerbShows(a: seq<Token>, k: nat, r: string, rest: string, more: string)
    requires Clean(a) && k < |a| && a[k].Verb? && Doubles(a[..k]) + Verbs(a[..k]) == 0
    requires r != "" && r[0] != '%'
    ensures BareAll(a[..k]) + r + rest != SpellAll(a) + more
  {
    var x, y := a[..k], a[k + 1..];
    CountPercents(x);
    SpellsAround(a, k);
    FirstDiffers(SpellAll(x), r, rest, a[k].v, SpellAll(y) + more);
    assert SpellAll(a) + more == SpellAll(x) + (['%', a[k].v] + (SpellAll(y) + more));
  }

  lemma SpellsAround(a: seq<Token>, k: nat)
    requires k < |a|
    ensures SpellAll(a) == SpellAll(a[..k]) + (Spelling(a[k]) + SpellAll(a[k + 1..]))
  {
    assert a == a[..k] + a[k..] && a[k..] == [a[k]] + a[k + 1..];
    AllConcat(a[..k], a[k..], Spelling);
    AllConcat([a[k]], a[k + 1..], Spelling);
    AllOne(a[k], Spelling);
  }

  lemma InStemCounts(a: seq<Token>, k: nat)
    requires k < |a| && a[k].Verb?
    ensures Doubles(a) == Doubles(a[..k]) + Doubles(a[k + 1..])
    ensures Verbs(a) == Verbs(a[..k]) + 1 + Verbs(a[k + 1..])
  {
    assert a == a[..k] + a[k..] && a[k..] == [a[k]] + a[k + 1..];
    CountsConcat(a[..k], a[k..]);
    CountsConcat([a[k]], a[k + 1..]);
    assert [a[k]][..0] == [];
  }

  lemma FivePercents(x: string, r: string, y: string, m: string, z: string)
    ensures Percents(x + r + (y + m + z)) == Percents(x) + Percents(r) + Percents(y) + Percents(m) + Percents(z)
  {
    PercentsConcat(x + r, y + m + z);
    PercentsConcat(x, r);
    PercentsConcat(y + m, z);
    PercentsConcat(y, m);
  }

  lemma ThreePercents(x: string, m: string, z: string)
    ensures Percents(x + m + z) == Percents(x) + Percents(m) + Percents(z)
  {
    PercentsConcat(x + m, z);
    PercentsConcat(x, m);
  }

  /** With the number in the stem, some sign is missing, or its verb shows. */
  lemma PrintedInStem(a: seq<Token>, b: seq<Token>, r: string, missing: string, number: string)
    requires Clean(a) && Clean(b) && VerbAt(a) < |a|
    requires r != "" && r[0] != '%' && Percents(r) == 0 && Percents(missing) == 1 && Percents(number) == 0
    ensures var k := VerbAt(a);
            BareAll(a[..k]) + r + (BareAll(a[k + 1..]) + missing + BareAll(b)) != SpellAll(a) + number + SpellAll(b)
  {
    var k := VerbAt(a);
    var x, y := a[..k], a[k + 1..];
    InStemCounts(a, k);
    NoVerbs(x);
    CountPercents(x);
    CountPercents(y);
    CountPercents(a);
    CountPercents(b);
    FivePercents(BareAll(x), r, BareAll(y), missing, BareAll(b));
    ThreePercents(SpellAll(a), number, SpellAll(b));
    if Doubles(a) + Doubles(b) == 0 {
      VerbShows(a, k, r, BareAll(y) + missing + BareAll(b), number + SpellAll(b));
      ConcatAssociates(SpellAll(a), number, SpellAll(b));
    }
  }

  lemma PrintedBehindStem(a: seq<Token>, b: seq<Token>, number: string)
    requires Clean(a) && Clean(b) && VerbAt(a) == |a| && Percents(number) == 0
    ensures BareAll(a) + number + BareAll(b) == SpellAll(a) + number + SpellAll(b) <==>
            Doubles(a) + Verbs(a) + Doubles(b) + Verbs(b) == 0
  {
    NoVerbs(a);
    CountPercents(a);
    CountPercents(b);
    ThreePercents(BareAll(a), number, BareAll(b));
    ThreePercents(SpellAll(a), number, SpellAll(b));
  }

  lemma {:induction false} NoDoubles(ts: seq<Token>)
    requires forall t | t in ts :: !t.Percent?
    ensures Doubles(ts) == 0
  {
    if ts != [] {
      assert ts[|ts| - 1] in ts && forall t | t in ts[..|ts| - 1] :: t in ts;
      NoDoubles(ts[..|ts| - 1]);
    }
  }

  lemma MissingPercents()
    ensures Percents(NoNumber()) == 1
  {
    CountPercents(NUMBER);
    NoDoubles(NUMBER);
    InStemCounts(NUMBER, 2);
    assert NUMBER[..2] == [Text(' '), Text('(')] && NUMBER[3..] == [Text(')')];
    NoVerbs(NUMBER[..2]);
    NoVerbs(NUMBER[3..]);
  }

  function InStem(a: seq<Token>, b: seq<Token>, i: nat): string
    requires VerbAt(a) < |a|
  {
    var k := VerbAt(a);
    BareAll(a[..k]) + Render(a[k].v, i) + (BareAll(a[k + 1..]) + NoNumber() + BareAll(b))
  }

  function Promised(a: seq<Token>, b: seq<Token>, i: nat): string {
    SpellAll(a) + (" (" + Decimal(i) + ")") + SpellAll(b)
  }

  lemma InStemDiffers(a: seq<Token>, b: seq<Token>, i: nat)
    requires Clean(a) && Clean(b) && VerbAt(a) < |a|
    ensures InStem(a, b, i) != Promised(a, b, i)
    ensures Verbs(a) > 0
  {
    InStemCounts(a, VerbAt(a));
    RenderFacts(a, i);
    MissingPercents();
    if InStem(a, b, i) == Promised(a, b, i) {
      PrintedInStem(a, b, Render(a[VerbAt(a)].v, i), NoNumber(), " (" + Decimal(i) + ")");
    }
  }

  lemma RenderFacts(a: seq<Token>, i: nat)
    requires Clean(a) && VerbAt(a) < |a|
    ensures var r := Render(a[VerbAt(a)].v, i); r != "" && r[0] != '%' && Percents(r) == 0
    ensures Percents(" (" + Decimal(i) + ")") == 0
  {
    var r := Render(a[VerbAt(a)].v, i);
    NumberHasNoPercent(i);
    assert a[VerbAt(a)] in a && r[0] in r;
  }

  lemma CandidateInStem(name: string, i: nat)
    requires Modelled(name) && Modelled(Stem(name)) && VerbAt(Tokens(Stem(name))) < |Tokens(Stem(name))|
    ensures Modelled(KeptExt(name))
    ensures Candidate(name, i) == InStem(Tokens(Stem(name)), Tokens(KeptExt(name)), i)
  {
    CandidateIs(name, i);
  }

  lemma NumberedIsPromised(name: string, i: nat)
    requires Modelled(name) && Modelled(Stem(name)) && Modelled(KeptExt(name))
    ensures Numbered(name, i) == Promised(Tokens(Stem(name)), Tokens(KeptExt(name)), i)
  {
    NamePercents(name);
  }

  lemma PromiseInStem(name: string, i: nat)
    requires Modelled(name) && Modelled(Stem(name)) && VerbAt(Tokens(Stem(name))) < |Tokens(Stem(name))|
    ensures Candidate(name, i) != Numbered(name, i) && '%' in name
  {
    NamePercents(name);
    CandidateInStem(name, i);
    NumberedIsPromised(name, i);
    InStemDiffers(Tokens(Stem(name)), Tokens(KeptExt(name)), i);
  }

  lemma PromiseBehindStem(name: string, i: nat)
    requires Modelled(name) && Modelled(Stem(name)) && VerbAt(Tokens(Stem(name))) == |Tokens(Stem(name))|
    ensures Candidate(name, i) == Numbered(name, i) <==> '%' !in name
  {
    CandidateIs(name, i);
    NamePercents(name);
    NumberHasNoPercent(i);
    PrintedBehindStem(Tokens(Stem(name)), Tokens(KeptExt(name)), " (" + Decimal(i) + ")");
  }

  /** The name tried is the promised one exactly for names without '%'. */
  lemma PromiseHoldsIff(name: string, i: nat)
    requires Modelled(name)
    ensures Candidate(name, i) == Numbered(name, i) <==> '%' !in name
  {
    TemplateTokens(name);
    if VerbAt(Tokens(Stem(name))) < |Tokens(Stem(name))| {
      PromiseInStem(name, i);
    } else {
      PromiseBehindStem(name, i);
    }
  }

  // ----- When the search ends -----

  /** Go's formatter: what it prints for the templates of this model is known, and nothing is
      assumed of any other. */
  ghost predicate IsSprintf(sprintf: (string, nat) -> string) {
    forall name, i :: Modelled(name) ==> sprintf(Template(name), i) == Candidate(name, i)
  }

  /** The first n values of f. */
  function Tried(f: nat -> string, n: nat): set<string> {
    if n == 0 then {} else Tried(f, n - 1) + {f(n)}
  }

  lemma {:induction false} TriedIsNew(f: nat -> string, n: nat, m: nat)
    requires forall k :: 1 <= k <= n ==> f(k) != f(m)
    ensures f(m) !in Tried(f, n)
  {
    if n > 0 {
      TriedIsNew(f, n - 1, m);
    }
  }

  /** If n different values are all taken, there are at least n taken. */
  lemma {:induction false} Pigeonhole(f: nat -> string, taken: set<string>, n: nat)
    requires forall k :: 1 <= k <= n ==> f(k) in taken
    requires forall k, m :: 1 <= k < m <= n ==> f(k) != f(m)
    ensures Tried(f, n) <= taken && |Tried(f, n)| == n <= |taken|
  {
    if n > 0 {
      Pigeonhole(f, taken, n - 1);
      TriedIsNew(f, n - 1, n);
    }
    Cardinality(Tried(f, n), taken);
  }

  // ----- Any formatter -----

  /** All values of f are among the first m. */
  ghost predicate Exhausted(f: nat -> string, m: nat) {
    forall i: nat :: i >= 1 ==> f(i) in Tried(f, m)
  }

  ghost predicate FinitelyMany(f: nat -> string) {
    exists m: nat :: Exhausted(f, m)
  }

  lemma {:induction false} TriedGrows(f: nat -> string, m: nat, n: nat)
    requires m <= n
    ensures Tried(f, m) <= Tried(f, n)
    ensures m < n ==> f(n) in Tried(f, n)
  {
    if m < n {
      TriedGrows(f, m, n - 1);
    }
  }

  lemma {:induction false} TriedAreTaken(f: nat -> string, taken: set<string>, m: nat)
    requires forall i: nat :: i >= 1 ==> f(i) in taken
    ensures Tried(f, m) <= taken
  {
    if m > 0 {
      TriedAreTaken(f, taken, m - 1);
    }
  }

  lemma {:induction false} TriedHolds(f: nat -> string, m: nat, i: nat)
    requires 1 <= i <= m
    ensures f(i) in Tried(f, m)
  {
    if i < m {
      TriedHolds(f, m - 1, i);
    }
  }

  /** Values that are all taken are finitely many. */
  lemma {:induction false} TakenAreFinite(f: nat -> string, taken: set<string>, m: nat)
    requires forall i: nat :: i >= 1 ==> f(i) in taken
    ensures FinitelyMany(f)
    decreases |taken - Tried(f, m)|
  {
    if !Exhausted(f, m) {
      var i: nat :| i >= 1 && f(i) !in Tried(f, m);
      if i <= m {
        TriedHolds(f, m, i);
      }
      TriedGrows(f, m, i);
      Fewer(taken, Tried(f, m), Tried(f, i), f(i));
      TakenAreFinite(f, taken, i);
    }
  }

  lemma Fewer(taken: set<string>, a: set<string>, b: set<string>, x: string)
    requires a <= b && x in taken && x in b && x !in a
    ensures |taken - b| < |taken - a|
  {
    assert x in taken - a && x !in taken - b;
    Cardinality(taken - b, taken - a - {x});
  }

  lemma {:induction false} TriedAreValues(f: nat -> string, taken: set<string>, m: nat)
    requires !(Tried(f, m) <= taken)
    ensures exists i: nat :: i >= 1 && f(i) !in taken
  {
    if m > 0 {
      if f(m) in taken {
        TriedAreValues(f, taken, m - 1);
      }
    }
  }

  /** Whatever the formatter prints for the numbers: in a finite directory the search ends
      exactly if it prints infinitely many names, or one of the finitely many is free. */
  lemma AnySearchEndsIff(f: nat -> string, taken: set<string>)
    ensures (exists i: nat :: i >= 1 && f(i) !in taken) <==>
            !FinitelyMany(f) || exists m: nat :: Exhausted(f, m) && !(Tried(f, m) <= taken)
  {
    if forall i: nat :: i >= 1 ==> f(i) in taken {
      TakenAreFinite(f, taken, 0);
      forall m: nat | Exhausted(f, m) ensures Tried(f, m) <= taken {
        TriedAreTaken(f, taken, m);
      }
    } else {
      var i: nat :| i >= 1 && f(i) !in taken;
      if m: nat :| Exhausted(f, m) {
        assert f(i) in Tried(f, m);
      }
    }
  }

  // ----- The formatter of this model -----

  /** The i-th name tried, as a function of i. */
  function Candidates(name: string): nat -> string
    requires Modelled(name)
  {
    (i: nat) => Candidate(name, i)
  }

  lemma CandidatesRepeat(name: string)
    requires Modelled(name) && Modelled(Stem(name)) && PrintsType(name)
    ensures forall i: nat :: Candidates(name)(i) == Candidates(name)(1)
  {
    forall i: nat ensures Candidates(name)(i) == Candidates(name)(1) {
      if i != 1 {
        CandidatesAreDistinctIff(name, i, 1);
      }
    }
  }

  lemma CandidatesDiffer(name: string)
    requires Modelled(name) && Modelled(Stem(name)) && !PrintsType(name)
    ensures forall i: nat, k: nat :: i != k ==> Candidates(name)(i) != Candidates(name)(k)
  {
    forall i: nat, k: nat | i != k ensures Candidates(name)(i) != Candidates(name)(k) {
      CandidatesAreDistinctIff(name, i, k);
    }
  }

  lemma CandidatesVary(name: string)
    requires Modelled(name)
    ensures Modelled(Stem(name))
    ensures var f := Candidates(name);
            if PrintsType(name) then forall i: nat :: f(i) == f(1)
            else forall i: nat, k: nat :: i != k ==> f(i) != f(k)
  {
    TemplateTokens(name);
    if PrintsType(name) {
      CandidatesRepeat(name);
    } else {
      CandidatesDiffer(name);
    }
  }

  /** In a finite directory some name tried is free exactly if the number is printed, or the
      one name that is tried over and over is free.  Otherwise the search never ends. */
  lemma SearchEndsIff(name: string, taken: set<string>)
    requires Modelled(name)
    ensures Modelled(Stem(name))
    ensures (exists i: nat :: i >= 1 && Candidates(name)(i) !in taken) <==>
            !PrintsType(name) || Candidates(name)(1) !in taken
  {
    CandidatesVary(name);
    var f := Candidates(name);
    if !PrintsType(name) && forall i: nat :: i >= 1 ==> f(i) in taken {
      Pigeonhole(f, taken, |taken| + 1);
    }
  }

  /** Where the number is printed, the first free name is found after at most one probe more
      than there are names. */
  lemma FewProbes(name: string, taken: set<string>, index: nat)
    requires Modelled(name) && Modelled(Stem(name)) && !PrintsType(name) && index >= 1
    requires forall k :: 1 <= k < index ==> Candidates(name)(k) in taken
    ensures index <= |taken| + 1
  {
    CandidatesVary(name);
    Pigeonhole(Candidates(name), taken, index - 1);
  }

  /** A name without a dot has no extension. */
  lemma {:induction false} NoDotNoExt(name: string)
    requires '.' !in name
    ensures Ext(name) == ""
  {
    if name != "" {
      assert name[|name| - 1] in name && forall c | c in name[..|name| - 1] :: c in name;
      NoDotNoExt(name[..|name| - 1]);
    }
  }

  lemma NoDotAllStem(name: string)
    requires '.' !in name
    ensures KeptExt(name) == "" && Stem(name) == name
  {
    NoDotNoExt(name);
  }

  lemma NothingBehind(x: string)
    ensures x + "" == x && BareAll([]) == "" && Parse("") == Some([])
  {
  }

  lemma NothingAround(x: string, r: string, m: string)
    ensures x + r + ("" + m + "") == x + r + m
  {
  }

  const TYPED := ['a', '%', 'T']
  const DOUBLED := ['a', '%', '%']

  lemma TypeParses()
    ensures Parse(TYPED) == Some([Text('a'), Verb('T')])
  {
    ParseVerb('T', "");
    ParseText('a', ['%', 'T'] + "");
    NothingBehind("");
    assert TYPED == ['a'] + (['%', 'T'] + "");
    assert [Text('a')] + ([Verb('T')] + []) == [Text('a'), Verb('T')];
  }

  lemma TypeTokens()
    ensures var a := [Text('a'), Verb('T')]; VerbAt(a) == 1 && BareAll(a[..1]) == "a" && BareAll(a[2..]) == ""
  {
    var a := [Text('a'), Verb('T')];
    assert a[..1] == [Text('a')] && a[..1][..0] == [] && a[2..] == [];
    AllOne(Text('a'), Bare);
    assert VerbAt(a[..1]) == 1;
  }

  lemma TypeLiteral()
    ensures "a" + "int" + (" (" + "%!d(MISSING)" + ")") == "aint (%!d(MISSING))"
  {
  }

  /** A name for which only one name is ever tried. */
  lemma TypeIsTriedForever(i: nat)
    ensures Modelled(TYPED) && Candidate(TYPED, i) == "aint (%!d(MISSING))"
  {
    NoDotAllStem(TYPED);
    TypeParses();
    TypeTokens();
    CandidateIs(TYPED, i);
    NothingBehind("");
    NothingAround("a", "int", NoNumber());
    NumberComplains();
    TypeLiteral();
  }

  lemma PercentParses()
    ensures Parse(DOUBLED) == Some([Text('a'), Percent])
  {
    assert ['%', '%'][2..] == "";
    assert Parse(['%', '%']) == Some([Percent] + []);
    ParseText('a', ['%', '%']);
    assert DOUBLED == ['a'] + ['%', '%'];
    assert [Text('a')] + ([Percent] + []) == [Text('a'), Percent];
  }

  lemma PercentTokens()
    ensures var a := [Text('a'), Percent]; VerbAt(a) == 2 && BareAll(a) == "a%"
  {
    var a := [Text('a'), Percent];
    assert forall j :: 0 <= j < 2 ==> !a[j].Verb?;
    assert a[..1] == [Text('a')];
    AllOne(Text('a'), Bare);
    assert "a" + "%" == "a%";
  }

  /** A name whose doubled sign the rename swallows. */
  lemma PercentIsSwallowed(i: nat)
    ensures Modelled(DOUBLED) && Candidate(DOUBLED, i) == "a%" + (" (" + Decimal(i) + ")")
    ensures Numbered(DOUBLED, i) == DOUBLED + (" (" + Decimal(i) + ")")
  {
    NoDotAllStem(DOUBLED);
    PercentParses();
    PercentTokens();
    CandidateIs(DOUBLED, i);
    NothingBehind("a%" + (" (" + Decimal(i) + ")"));
    NothingBehind(DOUBLED + (" (" + Decimal(i) + ")"));
  }

  // ----- The function -----

  /** An unused name is kept, an unreadable one is an error, and a used one gets the least number
      that makes it unused; the search ends only if there is one. */
  method CheckDuplicateAndRename(status: string -> Status, name: string, sprintf: (string, nat) -> string)
    returns (r: Result, ghost index: nat)
    requires status(name).Exists? ==> exists i: nat :: i >= 1 && status(sprintf(Template(name), i)).Missing?
    ensures status(name).Missing? ==> r == Ok(name)
    ensures status(name).Denied? ==> r.Err?
    ensures status(name).Exists? ==>
      && index >= 1 && r == Ok(sprintf(Template(name), index)) && status(r.name).Missing?
      && forall k :: 1 <= k < index ==> !status(sprintf(Template(name), k)).Missing?
  {
    index := 0;
    if status(name).Missing? {
      return Ok(name), 0;
    }
    if status(name).Denied? {
      return Err, 0;
    }
    var nameTpl := BuildTemplate(name);
    r, index := FirstFree(status, nameTpl, sprintf);
  }

  method BuildTemplate(name: string) returns (nameTpl: string)
    ensures nameTpl == Template(name)
  {
    var ext := Ext(name);
    if ext == "" || ext == name || LastIndex(name, '.') == 0 {
      nameTpl := name + " (%d)";
      assert name[..|name|] == name && name + " (%d)" + "" == name + " (%d)";
    } else {
      var nameWithoutExt := name[..|name| - |ext|];
      nameTpl := nameWithoutExt + " (%d)" + ext;
    }
  }

  method FirstFree(status: string -> Status, nameTpl: string, sprintf: (string, nat) -> string)
    returns (r: Result, ghost index: nat)
    requires exists i: nat :: i >= 1 && status(sprintf(nameTpl, i)).Missing?
    ensures index >= 1 && r == Ok(sprintf(nameTpl, index)) && status(r.name).Missing?
    ensures forall k :: 1 <= k < index ==> !status(sprintf(nameTpl, k)).Missing?
  {
    ghost var last: nat :| last >= 1 && status(sprintf(nameTpl, last)).Missing?;
    var i := 1;
    while true
      invariant 1 <= i <= last
      invariant forall k :: 1 <= k < i ==> !status(sprintf(nameTpl, k)).Missing?
      decreases last - i
    {
      var newName := sprintf(nameTpl, i);
      if status(newName).Missing? {
        return Ok(newName), i;
      }
      i := i + 1;
    }
  }

  /** For a name without '%' in a finite directory the search ends, within as many probes as
      there are names and one, and the result is the documented one. */
  lemma PlainNameIsNumbered(status: string -> Status, taken: set<string>, name: string,
                            sprintf: (string, nat) -> string, index: nat)
    requires IsSprintf(sprintf) && '%' !in name
    requires forall s :: !status(s).Missing? ==> s in taken
    ensures exists i: nat :: i >= 1 && status(sprintf(Template(name), i)).Missing?
    ensures sprintf(Template(name), index) == Numbered(name, index)
    ensures index >= 1 && (forall k :: 1 <= k < index ==> !status(sprintf(Template(name), k)).Missing?) ==>
              index <= |taken| + 1
  {
    PlainIsModelled(name);
    TemplateTokens(name);
    PlainPrintsNumber(name);
    SearchEndsIff(name, taken);
    PromiseHoldsIff(name, index);
    var i: nat :| i >= 1 && Candidates(name)(i) !in taken;
    assert sprintf(Template(name), i) == Candidates(name)(i);
    assert sprintf(Template(name), index) == Candidate(name, index);
    if index >= 1 && forall k :: 1 <= k < index ==> !status(sprintf(Template(name), k)).Missing? {
      forall k | 1 <= k < index ensures Candidates(name)(k) in taken {
        assert sprintf(Template(name), k) == Candidates(name)(k);
      }
      FewProbes(name, taken, index);
    }
  }

  /** What the code tries, in characters: "x (i).y" for "x.y", if there is no '%' in it. */
  lemma PlainExtensionIsKept(x: string, y: string, sprintf: (string, nat) -> string, i: nat)
    requires IsSprintf(sprintf) && x != "" && '.' !in y && '/' !in y && '%' !in x + "." + y
    ensures sprintf(Template(x + "." + y), i) == x + " (" + Decimal(i) + ")" + "." + y
  {
    var name := x + "." + y;
    PlainIsModelled(name);
    PromiseHoldsIff(name, i);
    NumberBeforeExtension(x, y, i);
  }

  /** ... and the number at the end of any other name. */
  lemma PlainNameIsExtended(name: string, sprintf: (string, nat) -> string, i: nat)
    requires IsSprintf(sprintf) && NoExtension(name) && '%' !in name
    ensures sprintf(Template(name), i) == name + " (" + Decimal(i) + ")"
  {
    PlainIsModelled(name);
    PromiseHoldsIff(name, i);
    NumberAtEnd(name, i);
  }

  lemma {:induction false} PlainIsModelled(name: string)
    requires '%' !in name
    ensures Modelled(name)
  {
    if name != "" {
      PlainIsModelled(name[1..]);
    }
  }

  lemma PlainPrintsNumber(name: string)
    requires Modelled(name) && Modelled(Stem(name)) && '%' !in name
    ensures !PrintsType(name)
  {
    NamePercents(name);
    var a := Tokens(Stem(name));
    if VerbAt(a) < |a| {
      InStemCounts(a, VerbAt(a));
    }
  }

  lemma {:induction false} Cardinality(a: set<string>, b: set<string>)
    requires a <= b
    ensures |a| <= |b|
  {
    if a != {} {
      var x :| x in a;
      Cardinality(a - {x}, b - {x});
    }
  }
}
