/** Which part task extracts a multi-part archive.  Each part task, once downloaded, checks
    that all parts of its archive are done, tries to claim the extraction, extracts, and
    releases the claim; the four steps of different tasks interleave freely. */
module ExtractionClaim {

  datatype Step =
    | Downloading
    | Finished   // status is Done, parts not checked yet
    | Waiting    // some part was missing: nothing more to do
    | Ready      // all parts were there: about to claim
    | Handled    // another task held the claim
    | Extracting // holds the claim
    | Extracted  // released it

  datatype State<!T(==)> = State(base: map<T, string>, step: map<T, Step>, claims: map<string, T>)

  datatype Event<!T(==)> = Finish(t: T) | Check(t: T) | Claim(t: T) | Release(t: T)

  predicate Done(s: Step) { !s.Downloading? }

  predicate Checked(s: Step) { !s.Downloading? && !s.Finished? }

  predicate Resolved(s: Step) { Checked(s) && !s.Ready? }

  predicate HasClaimed(s: Step) { s.Extracting? || s.Extracted? }

  predicate WellFormed<T(==)>(s: State<T>) {
    s.base.Keys == s.step.Keys
  }

  predicate AllPartsDone<T(==)>(s: State<T>, b: string)
    requires WellFormed(s)
  {
    forall t | t in s.base :: s.base[t] == b ==> Done(s.step[t])
  }

  predicate Enabled<T(==)>(s: State<T>, e: Event<T>)
    requires WellFormed(s)
  {
    match e
    case Finish(t) => t in s.step && s.step[t].Downloading?
    case Check(t) => t in s.step && s.step[t].Finished?
    case Claim(t) => t in s.step && s.step[t].Ready?
    case Release(t) => t in s.step && s.step[t].Extracting?
  }

  function Next<T(==)>(s: State<T>, e: Event<T>): State<T>
    requires WellFormed(s) && Enabled(s, e)
  {
    match e
    case Finish(t) => s.(step := s.step[t := Finished])
    case Check(t) => s.(step := s.step[t := if AllPartsDone(s, s.base[t]) then Ready else Waiting])
    case Claim(t) =>
      if s.base[t] in s.claims then s.(step := s.step[t := Handled])
      else s.(step := s.step[t := Extracting], claims := s.claims[s.base[t] := t])
    case Release(t) => s.(step := s.step[t := Extracted], claims := s.claims - {s.base[t]})
  }

  ghost predicate AllChecked<T>(s: State<T>, b: string)
    requires WellFormed(s)
  {
    forall t | t in s.base :: s.base[t] == b ==> Checked(s.step[t])
  }

  ghost predicate AllResolved<T>(s: State<T>, b: string)
    requires WellFormed(s)
  {
    forall t | t in s.base :: s.base[t] == b ==> Resolved(s.step[t])
  }

  /** Some part's check found every part done. */
  ghost predicate SomeSawAll<T>(s: State<T>, b: string)
    requires WellFormed(s)
  {
    exists t | t in s.base :: s.base[t] == b && Checked(s.step[t]) && !s.step[t].Waiting?
  }

  ghost predicate SomeClaimed<T>(s: State<T>, b: string)
    requires WellFormed(s)
  {
    exists t | t in s.base :: s.base[t] == b && HasClaimed(s.step[t])
  }

  /** The claim table names exactly the extracting tasks. */
  ghost predicate TableMatches<T>(s: State<T>)
    requires WellFormed(s)
  {
    && (forall b | b in s.claims ::
          s.claims[b] in s.base && s.base[s.claims[b]] == b && s.step[s.claims[b]].Extracting?)
    && (forall t | t in s.base :: s.step[t].Extracting? ==> s.base[t] in s.claims && s.claims[s.base[t]] == t)
  }

  ghost predicate Inv<T>(s: State<T>) {
    && WellFormed(s)
    && TableMatches(s)
    // whoever found the claim taken was not the first
    && (forall t | t in s.base :: s.step[t].Handled? ==> SomeClaimed(s, s.base[t]))
    // the last part to check saw every part done
    && (forall t | t in s.base :: AllChecked(s, s.base[t]) ==> SomeSawAll(s, s.base[t]))
  }

  ghost predicate Initial<T>(s: State<T>) {
    WellFormed(s) && s.claims == map[] && forall t | t in s.base :: s.step[t].Downloading?
  }

  // ----- Every interleaving -----

  lemma EntriesKept<T>(s: State<T>, e: Event<T>, b: string)
    requires Inv(s) && Enabled(s, e) && b in Next(s, e).claims
    ensures var n := Next(s, e);
            WellFormed(n) && n.claims[b] in n.base && n.base[n.claims[b]] == b && n.step[n.claims[b]].Extracting?
  {
  }

  lemma ExtractorsKept<T>(s: State<T>, e: Event<T>, t: T)
    requires Inv(s) && Enabled(s, e) && t in s.base && Next(s, e).step[t].Extracting?
    ensures var n := Next(s, e); n.base[t] in n.claims && n.claims[n.base[t]] == t
  {
  }

  lemma TableKept<T>(s: State<T>, e: Event<T>)
    requires Inv(s) && Enabled(s, e)
    ensures WellFormed(Next(s, e)) && TableMatches(Next(s, e))
  {
    var n := Next(s, e);
    forall b | b in n.claims
      ensures n.claims[b] in n.base && n.base[n.claims[b]] == b && n.step[n.claims[b]].Extracting?
    {
      EntriesKept(s, e, b);
    }
    forall t | t in n.base && n.step[t].Extracting?
      ensures n.base[t] in n.claims && n.claims[n.base[t]] == t
    {
      ExtractorsKept(s, e, t);
    }
  }

  /** A claim, once taken, stays known. */
  lemma ClaimedKept<T>(s: State<T>, e: Event<T>, b: string)
    requires WellFormed(s) && Enabled(s, e) && SomeClaimed(s, b)
    ensures SomeClaimed(Next(s, e), b)
  {
    var n := Next(s, e);
    var t :| t in s.base && s.base[t] == b && HasClaimed(s.step[t]);
    assert t in n.base && n.base[t] == b && HasClaimed(n.step[t]);
  }

  lemma SawAllKept<T>(s: State<T>, e: Event<T>, b: string)
    requires WellFormed(s) && Enabled(s, e) && SomeSawAll(s, b)
    ensures SomeSawAll(Next(s, e), b)
  {
    var n := Next(s, e);
    var t :| t in s.base && s.base[t] == b && Checked(s.step[t]) && !s.step[t].Waiting?;
    assert t in n.base && n.base[t] == b && Checked(n.step[t]) && !n.step[t].Waiting?;
  }

  /** When the last unchecked part checks, all parts are done, so it sees them all. */
  lemma LastCheckSeesAll<T>(s: State<T>, e: Event<T>, t: T)
    requires Inv(s) && Enabled(s, e) && t in s.base && AllChecked(Next(s, e), s.base[t])
    ensures SomeSawAll(Next(s, e), s.base[t])
  {
    var b := s.base[t];
    var n := Next(s, e);
    if AllChecked(s, b) {
      SawAllKept(s, e, b);
    } else {
      var u :| u in s.base && s.base[u] == b && !Checked(s.step[u]);
      assert Checked(n.step[u]);
      assert e == Check(u);
      forall x | x in s.base && s.base[x] == b
        ensures Done(s.step[x])
      {
        assert Checked(n.step[x]);
      }
      assert n.step[u].Ready? && n.base[u] == b;
    }
  }

  lemma HandledHasOwner<T>(s: State<T>, e: Event<T>, t: T)
    requires Inv(s) && Enabled(s, e) && t in s.base && Next(s, e).step[t].Handled?
    ensures SomeClaimed(Next(s, e), s.base[t])
  {
    if !s.step[t].Handled? {
      assert e == Claim(t) && s.base[t] in s.claims;
      var owner := s.claims[s.base[t]];
      assert owner in s.base && s.base[owner] == s.base[t] && HasClaimed(s.step[owner]);
    }
    ClaimedKept(s, e, s.base[t]);
  }

  lemma NextKeepsInv<T>(s: State<T>, e: Event<T>)
    requires Inv(s) && Enabled(s, e)
    ensures Inv(Next(s, e)) && Next(s, e).base == s.base
  {
    TableKept(s, e);
    var n := Next(s, e);
    forall t | t in n.base
      ensures n.step[t].Handled? ==> SomeClaimed(n, n.base[t])
      ensures AllChecked(n, n.base[t]) ==> SomeSawAll(n, n.base[t])
    {
      if n.step[t].Handled? {
        HandledHasOwner(s, e, t);
      }
      if AllChecked(n, n.base[t]) {
        LastCheckSeesAll(s, e, t);
      }
    }
  }

  ghost predicate IsRun<T>(trace: seq<State<T>>, events: seq<Event<T>>) {
    && |trace| == |events| + 1
    && WellFormed(trace[0])
    && forall k {:trigger events[k]} :: 0 <= k < |events| ==>
         WellFormed(trace[k]) && Enabled(trace[k], events[k]) && trace[k + 1] == Next(trace[k], events[k])
  }

  lemma {:induction false} RunKeepsInv<T>(trace: seq<State<T>>, events: seq<Event<T>>, k: nat)
    requires IsRun(trace, events) && Initial(trace[0]) && k < |trace|
    ensures Inv(trace[k]) && trace[k].base == trace[0].base
  {
    if k > 0 {
      RunKeepsInv(trace, events, k - 1);
      NextKeepsInv(trace[k - 1], events[k - 1]);
    }
  }

  /** Never two claims on one archive. */
  lemma AtMostOneClaim<T>(trace: seq<State<T>>, events: seq<Event<T>>, k: nat, t: T, u: T)
    requires IsRun(trace, events) && Initial(trace[0]) && k < |trace|
    requires t in trace[k].base && u in trace[k].base
    ensures var s := trace[k];
            WellFormed(s) && (s.step[t].Extracting? && s.step[u].Extracting? && s.base[t] == s.base[u] ==> t == u)
  {
    RunKeepsInv(trace, events, k);
  }

  /** Once every part has passed its check and, if ready, its attempt to claim, some part has
      claimed the extraction. */
  lemma SomePartExtracts<T>(trace: seq<State<T>>, events: seq<Event<T>>, k: nat, t: T)
    requires IsRun(trace, events) && Initial(trace[0]) && k < |trace|
    requires t in trace[k].base && WellFormed(trace[k]) && AllResolved(trace[k], trace[k].base[t])
    ensures SomeClaimed(trace[k], trace[k].base[t])
  {
    RunKeepsInv(trace, events, k);
    var s := trace[k];
    var b := s.base[t];
    assert AllChecked(s, b);
    var u :| u in s.base && s.base[u] == b && Checked(s.step[u]) && !s.step[u].Waiting?;
    assert Resolved(s.step[u]);
    assert HasClaimed(s.step[u]) || s.step[u].Handled?;
  }

  // ----- Never before all parts are there -----

  /** This part has found the archive complete. */
  predicate Passed(s: Step) {
    s.Ready? || s.Handled? || s.Extracting? || s.Extracted?
  }

  /** Whoever has found an archive complete was right, and it stays complete. */
  ghost predicate PassedRightly<T>(s: State<T>)
    requires WellFormed(s)
  {
    forall t, u | t in s.base && u in s.base ::
      s.base[u] == s.base[t] && Passed(s.step[t]) ==> !s.step[u].Downloading?
  }

  /** A check that meets a part still downloading leaves its own part waiting; otherwise the
      part is ready.  Nothing else changes. */
  lemma CheckMeetsMissingPart<T>(s: State<T>, t: T)
    requires WellFormed(s) && Enabled(s, Check(t))
    ensures var n := Next(s, Check(t));
            && n.base == s.base && n.claims == s.claims && n.step.Keys == s.step.Keys
            && (forall u | u in s.base :: u != t ==> n.step[u] == s.step[u])
            && (n.step[t].Waiting? <==> exists u | u in s.base :: s.base[u] == s.base[t] && s.step[u].Downloading?)
            && (n.step[t].Ready? <==> !n.step[t].Waiting?)
  {
    if AllPartsDone(s, s.base[t]) {
      assert forall u | u in s.base :: s.base[u] == s.base[t] ==> Done(s.step[u]);
    } else {
      var u :| u in s.base && s.base[u] == s.base[t] && !Done(s.step[u]);
      assert s.step[u].Downloading?;
    }
  }

  lemma NobodyGoesBack<T>(s: State<T>, e: Event<T>, u: T)
    requires WellFormed(s) && Enabled(s, e) && u in s.base
    ensures Next(s, e).step[u].Downloading? ==> s.step[u].Downloading?
  {
  }

  lemma NextPassesRightly<T>(s: State<T>, e: Event<T>)
    requires WellFormed(s) && PassedRightly(s) && Enabled(s, e)
    ensures WellFormed(Next(s, e)) && PassedRightly(Next(s, e))
  {
    var n := Next(s, e);
    if e.Check? {
      CheckMeetsMissingPart(s, e.t);
    }
    forall t, u | t in n.base && u in n.base && n.base[u] == n.base[t] && Passed(n.step[t])
      ensures !n.step[u].Downloading?
    {
      NobodyGoesBack(s, e, u);
    }
  }

  lemma {:induction false} RunPassesRightly<T>(trace: seq<State<T>>, events: seq<Event<T>>, k: nat)
    requires IsRun(trace, events) && Initial(trace[0]) && k < |trace|
    ensures WellFormed(trace[k]) && PassedRightly(trace[k])
  {
    if k > 0 {
      RunPassesRightly(trace, events, k - 1);
      NextPassesRightly(trace[k - 1], events[k - 1]);
    }
  }

  /** In every run, whoever is about to claim, extracts or has extracted an archive does so with
      all its parts downloaded. */
  lemma ExtractedOnlyWhenComplete<T>(trace: seq<State<T>>, events: seq<Event<T>>, k: nat, t: T, u: T)
    requires IsRun(trace, events) && Initial(trace[0]) && k < |trace|
    requires t in trace[k].base && u in trace[k].base && trace[k].base[u] == trace[k].base[t]
    ensures WellFormed(trace[k])
    ensures var s := trace[k];
            s.step[t].Ready? || s.step[t].Handled? || s.step[t].Extracting? || s.step[t].Extracted? ==>
            !s.step[u].Downloading?
  {
    RunPassesRightly(trace, events, k);
  }

  // ----- At least once, not exactly once -----

  /** A ready part extracts exactly when nobody is extracting the archive at that moment:
      a release by another part makes room for a second extraction. */
  lemma ClaimSucceedsIffFree<T>(s: State<T>, t: T)
    requires Inv(s) && Enabled(s, Claim(t))
    ensures Next(s, Claim(t)).step[t].Extracting? <==>
            forall u | u in s.base :: s.base[u] == s.base[t] ==> !s.step[u].Extracting?
  {
    if s.base[t] in s.claims {
      assert s.step[s.claims[s.base[t]]].Extracting?;
    }
  }

  /** At most one part has ever claimed the archive. */
  ghost predicate Once<T>(s: State<T>, b: string)
    requires WellFormed(s)
  {
    forall t, u | t in s.base && u in s.base && s.base[t] == b && s.base[u] == b ::
      HasClaimed(s.step[t]) && HasClaimed(s.step[u]) ==> t == u
  }

  ghost predicate BeingExtracted<T>(s: State<T>, b: string)
    requires WellFormed(s)
  {
    exists t | t in s.base :: s.base[t] == b && s.step[t].Extracting?
  }

  /** An attempt to claim an archive that was extracted before and is not being extracted. */
  ghost predicate LateClaim<T>(s: State<T>, e: Event<T>, b: string)
    requires WellFormed(s) && Enabled(s, e)
  {
    e.Claim? && s.base[e.t] == b && SomeClaimed(s, b) && !BeingExtracted(s, b)
  }

  /** Only a successful claim adds to those that have claimed. */
  lemma ClaimantsGrow<T>(s: State<T>, e: Event<T>, t: T)
    requires Inv(s) && Enabled(s, e) && t in s.base
    ensures HasClaimed(Next(s, e).step[t]) <==>
            HasClaimed(s.step[t]) || (e == Claim(t) && !BeingExtracted(s, s.base[t]))
  {
    if e == Claim(t) {
      ClaimSucceedsIffFree(s, t);
    }
  }

  /** One event makes an archive extracted twice exactly if it is a late claim. */
  lemma NextOnceIff<T>(s: State<T>, e: Event<T>, b: string)
    requires Inv(s) && Enabled(s, e)
    ensures Once(Next(s, e), b) <==> Once(s, b) && !LateClaim(s, e, b)
  {
    var n := Next(s, e);
    forall t | t in s.base
      ensures HasClaimed(n.step[t]) <==> HasClaimed(s.step[t]) || (e == Claim(t) && !BeingExtracted(s, s.base[t]))
    {
      ClaimantsGrow(s, e, t);
    }
    if LateClaim(s, e, b) {
      var u :| u in s.base && s.base[u] == b && HasClaimed(s.step[u]);
      assert HasClaimed(n.step[u]) && HasClaimed(n.step[e.t]) && n.base[u] == b == n.base[e.t];
      assert u != e.t;
    } else if Once(s, b) {
      NotLateOnce(s, e, b);
    } else if Once(n, b) {
      OnceBefore(s, e, b);
    }
  }

  lemma OnceBefore<T>(s: State<T>, e: Event<T>, b: string)
    requires Inv(s) && Enabled(s, e) && Once(Next(s, e), b)
    ensures Once(s, b)
  {
    forall t, u | t in s.base && u in s.base && s.base[t] == b && s.base[u] == b
                  && HasClaimed(s.step[t]) && HasClaimed(s.step[u])
      ensures t == u
    {
      ClaimantsGrow(s, e, t);
      ClaimantsGrow(s, e, u);
      assert t in Next(s, e).base && u in Next(s, e).base;
    }
  }

  lemma NotLateOnce<T>(s: State<T>, e: Event<T>, b: string)
    requires Inv(s) && Enabled(s, e) && Once(s, b) && !LateClaim(s, e, b)
    ensures Once(Next(s, e), b)
  {
    var n := Next(s, e);
    forall t, u | t in n.base && u in n.base && n.base[t] == b && n.base[u] == b
                  && HasClaimed(n.step[t]) && HasClaimed(n.step[u])
      ensures t == u
    {
      ClaimantsGrow(s, e, t);
      ClaimantsGrow(s, e, u);
    }
  }

  ghost predicate NoLateClaim<T>(trace: seq<State<T>>, events: seq<Event<T>>, k: nat, b: string)
    requires IsRun(trace, events) && k <= |events|
  {
    k == 0 || (NoLateClaim(trace, events, k - 1, b) && !LateClaim(trace[k - 1], events[k - 1], b))
  }

  lemma StepOnceIff<T>(trace: seq<State<T>>, events: seq<Event<T>>, k: nat, b: string)
    requires IsRun(trace, events) && Initial(trace[0]) && k < |events|
    ensures WellFormed(trace[k]) && WellFormed(trace[k + 1])
    ensures Once(trace[k + 1], b) <==> Once(trace[k], b) && !LateClaim(trace[k], events[k], b)
  {
    RunKeepsInv(trace, events, k);
    NextKeepsInv(trace[k], events[k]);
    NextOnceIff(trace[k], events[k], b);
  }

  /** Over any run an archive has been extracted at most once exactly as long as nobody has
      claimed it after its extraction was over. */
  lemma {:induction false} ExtractedOnceIff<T>(trace: seq<State<T>>, events: seq<Event<T>>, k: nat, b: string)
    requires IsRun(trace, events) && Initial(trace[0]) && k <= |events|
    ensures WellFormed(trace[k]) && (Once(trace[k], b) <==> NoLateClaim(trace, events, k, b))
  {
    if k > 0 {
      ExtractedOnceIff(trace, events, k - 1, b);
      StepOnceIff(trace, events, k - 1, b);
    }
  }

  /** Two parts of one archive, at the given steps. */
  function Pair<T(==)>(a: T, b: T, name: string, sa: Step, sb: Step, claims: map<string, T>): State<T> {
    State(map[a := name, b := name], map[a := sa, b := sb], claims)
  }

  lemma RunExtends<T>(trace: seq<State<T>>, events: seq<Event<T>>, e: Event<T>)
    returns (longer: seq<State<T>>, more: seq<Event<T>>)
    requires IsRun(trace, events) && WellFormed(trace[|events|]) && Enabled(trace[|events|], e)
    ensures IsRun(longer, more) && longer[0] == trace[0] && longer[|more|] == Next(trace[|events|], e)
  {
    longer, more := trace + [Next(trace[|events|], e)], events + [e];
    forall k | 0 <= k < |more|
      ensures WellFormed(longer[k]) && Enabled(longer[k], more[k]) && longer[k + 1] == Next(longer[k], more[k])
    {
      if k < |events| {
        assert more[k] == events[k] && longer[k] == trace[k] && longer[k + 1] == trace[k + 1];
      }
    }
  }

  lemma PairFinishes<T>(a: T, b: T, name: string)
    requires a != b
    ensures Next(Pair(a, b, name, Downloading, Downloading, map[]), Finish(a)) ==
            Pair(a, b, name, Finished, Downloading, map[])
    ensures Next(Pair(a, b, name, Finished, Downloading, map[]), Finish(b)) ==
            Pair(a, b, name, Finished, Finished, map[])
  {
  }

  lemma PairChecks<T>(a: T, b: T, name: string)
    requires a != b
    ensures Next(Pair(a, b, name, Finished, Finished, map[]), Check(a)) == Pair(a, b, name, Ready, Finished, map[])
    ensures Next(Pair(a, b, name, Ready, Finished, map[]), Check(b)) == Pair(a, b, name, Ready, Ready, map[])
  {
    assert AllPartsDone(Pair(a, b, name, Finished, Finished, map[]), name);
    assert AllPartsDone(Pair(a, b, name, Ready, Finished, map[]), name);
  }

  lemma PairClaims<T>(a: T, b: T, name: string)
    requires a != b
    ensures var held := map[name := a];
            && Next(Pair(a, b, name, Ready, Ready, map[]), Claim(a)) == Pair(a, b, name, Extracting, Ready, held)
            && Next(Pair(a, b, name, Extracting, Ready, held), Release(a)) ==
               Pair(a, b, name, Extracted, Ready, map[])
            && Next(Pair(a, b, name, Extracted, Ready, map[]), Claim(b)) ==
               Pair(a, b, name, Extracted, Extracting, map[name := b])
  {
    assert map[name := a] - {name} == map[];
  }

  /** Both parts see the archive complete before either claims it. */
  lemma BothReady<T>(a: T, b: T, name: string) returns (trace: seq<State<T>>, events: seq<Event<T>>)
    requires a != b
    ensures IsRun(trace, events) && trace[0] == Pair(a, b, name, Downloading, Downloading, map[])
    ensures trace[|events|] == Pair(a, b, name, Ready, Ready, map[])
  {
    trace, events := [Pair(a, b, name, Downloading, Downloading, map[])], [];
    PairFinishes(a, b, name);
    PairChecks(a, b, name);
    trace, events := RunExtends(trace, events, Finish(a));
    trace, events := RunExtends(trace, events, Finish(b));
    trace, events := RunExtends(trace, events, Check(a));
    trace, events := RunExtends(trace, events, Check(b));
  }

  /** Two parts that both saw the archive complete extract it one after the other. */
  lemma ExtractedTwice<T>(a: T, b: T, name: string) returns (trace: seq<State<T>>, events: seq<Event<T>>)
    requires a != b
    ensures IsRun(trace, events) && Initial(trace[0]) && trace[0].base == map[a := name, b := name]
    ensures trace[|trace| - 1].step == map[a := Extracted, b := Extracting]
  {
    trace, events := BothReady(a, b, name);
    PairClaims(a, b, name);
    trace, events := RunExtends(trace, events, Claim(a));
    trace, events := RunExtends(trace, events, Release(a));
    trace, events := RunExtends(trace, events, Claim(b));
  }

  // ----- The claim table -----

  /** A part task: the fields the protocol uses. */
  class PartTask {
    const base: string
    var step: Step

    constructor (base: string)
      ensures this.base == base && step == Downloading
    {
      this.base := base;
      step := Downloading;
    }
  }

  class Claims {
    var tasks: seq<PartTask>
    var claimed: map<string, PartTask>

    constructor (tasks: seq<PartTask>)
      requires forall t | t in tasks :: t.step.Downloading?
      ensures this.tasks == tasks && Initial(View())
    {
      this.tasks := tasks;
      claimed := map[];
    }

    ghost function View(): State<PartTask>
      reads this, tasks
    {
      State(map t | t in tasks :: t.base, map t | t in tasks :: t.step, claimed)
    }

    /** One task moved on. */
    twostate lemma OneMoved(t: PartTask)
      requires tasks == old(tasks) && t in tasks
      requires forall u | u in tasks && u != t :: u.step == old(u.step)
      ensures View().step == old(View()).step[t := t.step] && View().base == old(View()).base
    {
    }

    method FinishPart(t: PartTask)
      requires Inv(View()) && Enabled(View(), Finish(t))
      modifies t
      ensures Inv(View()) && View() == Next(old(View()), Finish(t))
      ensures t.step.Finished?
    {
      NextKeepsInv(View(), Finish(t));
      t.step := Finished;
      OneMoved(t);
    }

    /** Whether the archive has parts and all of them are done. */
    method AllTasksDone(base: string) returns (all: bool)
      ensures all <==> AllPartsDone(View(), base) && exists t | t in tasks :: t.base == base
    {
      var related := [];
      for i := 0 to |tasks|
        invariant forall t :: t in related <==> t in tasks[..i] && t.base == base
      {
        assert tasks[..i + 1] == tasks[..i] + [tasks[i]];
        if tasks[i].base == base {
          related := related + [tasks[i]];
        }
      }
      assert tasks[..|tasks|] == tasks;
      ViewOf(base);
      if |related| == 0 {
        return false;
      }
      assert related[0] in related;
      var notDone := 0;
      for i := 0 to |related|
        invariant notDone >= 0
        invariant notDone == 0 <==> forall t | t in related[..i] :: Done(t.step)
      {
        assert related[..i + 1] == related[..i] + [related[i]];
        if related[i].step.Downloading? {
          notDone := notDone + 1;
        }
      }
      assert related[..|related|] == related;
      all := notDone == 0;
    }

    lemma ViewOf(base: string)
      ensures AllPartsDone(View(), base) <==> forall t | t in tasks :: t.base == base ==> Done(t.step)
    {
      assert forall t | t in View().base :: View().base[t] == t.base && View().step[t] == t.step;
    }

    method CheckPart(t: PartTask) returns (ready: bool)
      requires Inv(View()) && Enabled(View(), Check(t))
      modifies t
      ensures Inv(View()) && View() == Next(old(View()), Check(t))
      ensures ready <==> forall u | u in tasks :: u.base == t.base ==> !old(u.step).Downloading?
      ensures t.step == if ready then Ready else Waiting
    {
      NextKeepsInv(View(), Check(t));
      ViewOf(t.base);
      ready := AllTasksDone(t.base);
      t.step := if ready then Ready else Waiting;
      OneMoved(t);
    }

    /** Claim the archive unless somebody holds the claim, atomically. */
    method TryClaim(t: PartTask) returns (claimed': bool)
      requires Inv(View()) && Enabled(View(), Claim(t))
      modifies this`claimed, t
      ensures Inv(View()) && View() == Next(old(View()), Claim(t))
      ensures claimed' <==> t.base !in old(claimed)
      ensures t.step == if claimed' then Extracting else Handled
      ensures claimed == if claimed' then old(claimed)[t.base := t] else old(claimed)
    {
      NextKeepsInv(View(), Claim(t));
      claimed' := LoadOrStore(t);
    }

    method LoadOrStore(t: PartTask) returns (claimed': bool)
      requires t in tasks
      modifies this`claimed, t
      ensures claimed' <==> t.base !in old(claimed)
      ensures var s := old(View());
              View() == if claimed' then s.(step := s.step[t := Extracting], claims := s.claims[t.base := t])
                        else s.(step := s.step[t := Handled])
    {
      claimed' := t.base !in claimed;
      if claimed' {
        claimed := claimed[t.base := t];
        t.step := Extracting;
      } else {
        t.step := Handled;
      }
      OneMoved(t);
    }

    method ReleaseClaim(t: PartTask)
      requires Inv(View()) && Enabled(View(), Release(t))
      modifies this`claimed, t
      ensures Inv(View()) && View() == Next(old(View()), Release(t))
      ensures t.step.Extracted? && t.base !in claimed
    {
      NextKeepsInv(View(), Release(t));
      claimed := claimed - {t.base};
      t.step := Extracted;
      OneMoved(t);
    }
  }
}
