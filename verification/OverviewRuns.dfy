/** Slow loads of the overview racing with invalidation: every interleaving of the locked
    sections, and what they never let a reader see. */
module OverviewRuns {
  import opened Wrappers
  import opened OverviewCache

  /** One call of the loader: the generation it began in and what it returned, if it has. */
  datatype Load = Load(began: nat, result: Option<Overview>)

  /** What a shared call hands out; an overview names the load it comes from. */
  datatype Answer = Failed | Answered(load: nat, overview: Overview)

  /** One shared call under a generation's key: it looks at the cache again, on a miss loads and
      stores, and then has an answer; closed means its key is free again. */
  datatype Phase = Checking | Ready | Loading(load: nat) | Loaded(load: nat, outcome: Option<Overview>) | Done(answer: Answer) | Closed(answer: Answer)

  datatype Flight = Flight(key: nat, phase: Phase)

  /** A call of loadOverview; `since` is the generation when it began. */
  datatype Caller = Looking(since: nat) | Missed(since: nat) | Keyed(since: nat, key: nat)
                  | Waiting(since: nat, flight: nat) | Returned(since: nat, answer: Answer)

  /** `origin` is the load the cached overview comes from. */
  datatype State = State(cache: Cache, origin: nat, loads: seq<Load>, flights: seq<Flight>,
                         inflight: map<nat, nat>, callers: map<nat, Caller>)

  datatype Label = Start(c: nat) | Look(c: nat) | ReadKey(c: nat) | Join(c: nat) | Take(c: nat)
                 | LookAgain(f: nat) | Begin(f: nat) | Finish(f: nat, outcome: Option<Overview>) | StoreResult(f: nat) | Close(f: nat)
                 | Invalidate | Clear | ResetForRefresh(reusable: Chip -> bool) | PatchActive(iccid: string)

  function Init(): State {
    State(Cache(0, None, None, None, []), 0, [], [], map[], map[])
  }

  predicate Enabled(s: State, l: Label) {
    match l
    case Start(c) => c !in s.callers
    case Look(c) => c in s.callers && s.callers[c].Looking?
    case ReadKey(c) => c in s.callers && s.callers[c].Missed?
    case Join(c) => c in s.callers && s.callers[c].Keyed?
    case Take(c) => c in s.callers && s.callers[c].Waiting? && s.callers[c].flight < |s.flights| && s.flights[s.callers[c].flight].phase.Closed?
    case LookAgain(f) => f < |s.flights| && s.flights[f].phase.Checking?
    case Begin(f) => f < |s.flights| && s.flights[f].phase.Ready?
    case Finish(f, _) => f < |s.flights| && s.flights[f].phase.Loading? && s.flights[f].phase.load < |s.loads|
    case StoreResult(f) => f < |s.flights| && s.flights[f].phase.Loaded?
    case Close(f) => f < |s.flights| && s.flights[f].phase.Done?
    case _ => true
  }

  function SetCaller(s: State, c: nat, k: Caller): State {
    s.(callers := s.callers[c := k])
  }

  function SetPhase(s: State, f: nat, p: Phase): State
    requires f < |s.flights|
  {
    s.(flights := s.flights[f := s.flights[f].(phase := p)])
  }

  function FromCache(s: State): Answer
    requires s.cache.overview.Some?
  {
    Answered(s.origin, s.cache.overview.value)
  }

  /** setOverviewCache after a load: what it writes and what the shared call answers. */
  function DoStore(s: State, f: nat): State
    requires f < |s.flights| && s.flights[f].phase.Loaded?
  {
    var Flight(key, Loaded(load, outcome)) := s.flights[f];
    var cache := Store(s.cache, outcome, if outcome.Some? then None else Some("load failed"), key);
    var s1 := s.(cache := cache, origin := if key == s.cache.generation then load else s.origin);
    SetPhase(s1, f, Done(if outcome.Some? then Answered(load, outcome.value) else Failed))
  }

  function Apply(s: State, l: Label): State
    requires Enabled(s, l)
  {
    match l
    case Start(c) => SetCaller(s, c, Looking(s.cache.generation))
    case Look(c) =>
      var since := s.callers[c].since;
      SetCaller(s, c, if s.cache.overview.Some? then Returned(since, FromCache(s)) else Missed(since))
    case ReadKey(c) => SetCaller(s, c, Keyed(s.callers[c].since, s.cache.generation))
    case Join(c) =>
      var Keyed(since, key) := s.callers[c];
      if key in s.inflight then SetCaller(s, c, Waiting(since, s.inflight[key]))
      else
        SetCaller(s, c, Waiting(since, |s.flights|)).(flights := s.flights + [Flight(key, Checking)],
                                                      inflight := s.inflight[key := |s.flights|])
    case Take(c) => SetCaller(s, c, Returned(s.callers[c].since, s.flights[s.callers[c].flight].phase.answer))
    case LookAgain(f) => if s.cache.overview.Some? then SetPhase(s, f, Done(FromCache(s))) else SetPhase(s, f, Ready)
    case Begin(f) => SetPhase(s, f, Loading(|s.loads|)).(loads := s.loads + [Load(s.cache.generation, None)])
    case Finish(f, outcome) =>
      var load := s.flights[f].phase.load;
      SetPhase(s, f, Loaded(load, outcome)).(loads := s.loads[load := s.loads[load].(result := outcome)])
    case StoreResult(f) => DoStore(s, f)
    case Close(f) => SetPhase(s, f, Closed(s.flights[f].phase.answer)).(inflight := s.inflight - {s.flights[f].key})
    case Invalidate => s.(cache := Invalidated(s.cache))
    case Clear => s.(cache := Cleared(s.cache))
    case ResetForRefresh(reusable) => s.(cache := Reset(s.cache, reusable))
    case PatchActive(iccid) => s.(cache := Patch(s.cache, iccid).0)
  }

  // ---------------------------------------------------------------- what always holds

  /** The same chip, groups and profiles, in the same order; only which are enabled may differ. */
  ghost predicate SameProfiles(a: Overview, b: Overview) {
    && a.chip == b.chip && |a.groups| == |b.groups|
    && forall i :: 0 <= i < |a.groups| ==> SameGroup(a.groups[i], b.groups[i])
  }

  ghost predicate SameGroup(a: Group, b: Group) {
    && a.aid == b.aid && |a.profiles| == |b.profiles|
    && forall j :: 0 <= j < |a.profiles| ==>
         a.profiles[j].iccid == b.profiles[j].iccid && a.profiles[j].name == b.profiles[j].name
  }

  /** An answer comes from a load that began in generation g or later. */
  ghost predicate Good(loads: seq<Load>, a: Answer, g: nat) {
    a.Answered? ==>
      && a.load < |loads| && loads[a.load].began >= g && loads[a.load].result.Some?
      && SameProfiles(a.overview, loads[a.load].result.value)
  }

  ghost predicate GoodPhase(loads: seq<Load>, p: Phase, key: nat) {
    match p
    case Checking => true
    case Ready => true
    case Loading(l) => l < |loads| && loads[l].began >= key && loads[l].result == None
    case Loaded(l, o) => o.Some? ==> l < |loads| && loads[l].began >= key && loads[l].result == o
    case Done(a) => Good(loads, a, key)
    case Closed(a) => Good(loads, a, key)
  }

  ghost predicate GoodCaller(s: State, k: Caller) {
    k.since <= s.cache.generation &&
    match k
    case Looking(_) => true
    case Missed(_) => true
    case Keyed(since, key) => since <= key <= s.cache.generation
    case Waiting(since, f) => f < |s.flights| && since <= s.flights[f].key
    case Returned(since, a) => Good(s.loads, a, since)
  }

  ghost predicate Loads(s: State) {
    forall l :: 0 <= l < |s.loads| ==> s.loads[l].began <= s.cache.generation
  }

  /** The cached overview comes from a load begun in the current generation. */
  ghost predicate Fresh(s: State) {
    s.cache.overview.Some? ==> Good(s.loads, FromCache(s), s.cache.generation)
  }

  ghost predicate Flights(s: State) {
    && (forall f :: 0 <= f < |s.flights| ==> s.flights[f].key <= s.cache.generation && GoodPhase(s.loads, s.flights[f].phase, s.flights[f].key))
    && forall f, g :: 0 <= f < g < |s.flights| && s.flights[f].phase.Loading? && s.flights[g].phase.Loading? ==>
         s.flights[f].phase.load != s.flights[g].phase.load
  }

  /** At most one shared call is open under each key, the one the key's entry names. */
  ghost predicate Keys(s: State) {
    && (forall k :: k in s.inflight ==> s.inflight[k] < |s.flights| && s.flights[s.inflight[k]].key == k && !s.flights[s.inflight[k]].phase.Closed?)
    && forall f :: 0 <= f < |s.flights| && !s.flights[f].phase.Closed? ==> s.flights[f].key in s.inflight && s.inflight[s.flights[f].key] == f
  }

  /** Past its look and before its store. */
  predicate Committed(p: Phase) { p.Ready? || p.Loading? || p.Loaded? }

  /** While a shared call that may still write is on its way nothing is cached. */
  ghost predicate NothingToOverwrite(s: State) {
    forall f :: 0 <= f < |s.flights| && Committed(s.flights[f].phase) && s.flights[f].key == s.cache.generation ==> s.cache.overview == None
  }

  ghost predicate Callers(s: State) {
    forall c :: c in s.callers ==> GoodCaller(s, s.callers[c])
  }

  ghost predicate Inv(s: State) {
    Loads(s) && Fresh(s) && Flights(s) && Keys(s) && NothingToOverwrite(s) && Callers(s)
  }

  ghost predicate LaterLoad(a: Load, b: Load) {
    b.began == a.began && (a.result.Some? ==> b.result == a.result)
  }

  /** From one state to a later one: generations and loads only grow, results are final. */
  ghost predicate Grows(s: State, t: State) {
    && s.cache.generation <= t.cache.generation && |s.loads| <= |t.loads| && |s.flights| <= |t.flights|
    && (forall l :: 0 <= l < |s.loads| ==> LaterLoad(s.loads[l], t.loads[l]))
    && forall f :: 0 <= f < |s.flights| ==> t.flights[f].key == s.flights[f].key
  }

  lemma GoodGrows(s: State, t: State, a: Answer, g: nat)
    requires Grows(s, t) && Good(s.loads, a, g)
    ensures Good(t.loads, a, g)
  {
  }

  lemma {:induction false} CallersGrow(s: State, t: State)
    requires Grows(s, t) && Callers(s) && t.callers == s.callers
    ensures Callers(t)
  {
    hide Good;
    forall c | c in t.callers ensures GoodCaller(t, t.callers[c]) {
      assert GoodCaller(s, s.callers[c]);
      if s.callers[c].Returned? { GoodGrows(s, t, s.callers[c].answer, s.callers[c].since); }
    }
  }

  lemma {:induction false} CallerSteps(s: State, t: State, c: nat, k: Caller)
    requires Callers(s) && t.callers == s.callers[c := k] && t.cache == s.cache && t.loads == s.loads
    requires |s.flights| <= |t.flights| && t.flights[..|s.flights|] == s.flights
    requires GoodCaller(t, k)
    ensures Callers(t)
  {
    hide Good;
    forall d | d in t.callers ensures GoodCaller(t, t.callers[d]) {
      if d != c {
        assert GoodCaller(s, s.callers[d]);
        assert forall f :: 0 <= f < |s.flights| ==> t.flights[f] == t.flights[..|s.flights|][f];
      }
    }
  }

  lemma SameProfilesReflexive(a: Overview)
    ensures SameProfiles(a, a)
  {
  }

  // ---------------------------------------------------------------- every step keeps it

  /** Calls that only look, read or take. */
  lemma {:induction false} CallerStepsKeep(s: State, l: Label)
    requires Inv(s) && Enabled(s, l) && (l.Start? || l.Look? || l.ReadKey? || l.Take?)
    ensures Inv(Apply(s, l))
  {
    hide Good, SameProfiles;
    var t := Apply(s, l);
    var c := l.c;
    if !l.Start? { assert GoodCaller(s, s.callers[c]); }
    if l.Take? { TakenIsGood(s, s.callers[c].flight, s.callers[c].since); }
    if l.Look? && s.cache.overview.Some? { GoodEarlier(s.loads, FromCache(s), s.cache.generation, s.callers[c].since); }
    CallerSteps(s, t, c, t.callers[c]);
  }

  lemma GoodEarlier(loads: seq<Load>, a: Answer, g: nat, since: nat)
    requires Good(loads, a, g) && since <= g
    ensures Good(loads, a, since)
  {
  }

  lemma {:induction false} TakenIsGood(s: State, f: nat, since: nat)
    requires Flights(s) && f < |s.flights| && s.flights[f].phase.Closed? && since <= s.flights[f].key
    ensures Good(s.loads, s.flights[f].phase.answer, since)
  {
    GoodEarlier(s.loads, s.flights[f].phase.answer, s.flights[f].key, since);
  }

  lemma JoinKeeps(s: State, l: Label)
    requires Inv(s) && Enabled(s, l) && l.Join?
    ensures Inv(Apply(s, l))
  {
    hide Good, SameProfiles;
    JoinCallers(s, l);
    hide GoodCaller, Callers;
  }

  lemma {:induction false} JoinCallers(s: State, l: Label)
    requires Flights(s) && Keys(s) && Callers(s) && Enabled(s, l) && l.Join?
    ensures Callers(Apply(s, l))
  {
    hide Good, SameProfiles;
    var t := Apply(s, l);
    assert GoodCaller(s, s.callers[l.c]);
    CallerSteps(s, t, l.c, t.callers[l.c]);
  }

  lemma {:induction false} LookAgainKeeps(s: State, l: Label)
    requires Inv(s) && Enabled(s, l) && l.LookAgain?
    ensures Inv(Apply(s, l))
  {
    hide Good, SameProfiles, GoodCaller;
    var t := Apply(s, l);
    if s.cache.overview.Some? { GoodEarlier(s.loads, FromCache(s), s.cache.generation, s.flights[l.f].key); }
    assert Grows(s, t);
    CallersGrow(s, t);
  }

  lemma {:induction false} CloseKeeps(s: State, l: Label)
    requires Inv(s) && Enabled(s, l) && l.Close?
    ensures Inv(Apply(s, l))
  {
    hide Good, SameProfiles, GoodCaller;
    var t := Apply(s, l);
    assert Grows(s, t);
    CallersGrow(s, t);
  }

  lemma {:induction false} BeginKeeps(s: State, l: Label)
    requires Inv(s) && Enabled(s, l) && l.Begin?
    ensures Inv(Apply(s, l))
  {
    hide SameProfiles, GoodCaller;
    var t := Apply(s, l);
    assert Grows(s, t);
    CallersGrow(s, t);
  }

  lemma {:induction false} FinishKeeps(s: State, l: Label)
    requires Inv(s) && Enabled(s, l) && l.Finish?
    ensures Inv(Apply(s, l))
  {
    hide SameProfiles, GoodCaller;
    var t := Apply(s, l);
    assert GoodPhase(s.loads, s.flights[l.f].phase, s.flights[l.f].key);
    assert Grows(s, t);
    CallersGrow(s, t);
  }

  lemma {:induction false} StoreKeeps(s: State, l: Label)
    requires Inv(s) && Enabled(s, l) && l.StoreResult?
    ensures Inv(Apply(s, l))
  {
    hide SameProfiles, GoodCaller;
    var t := Apply(s, l);
    var Flight(key, Loaded(load, outcome)) := s.flights[l.f];
    assert GoodPhase(s.loads, s.flights[l.f].phase, key);
    if outcome.Some? { SameProfilesReflexive(outcome.value); }
    assert Grows(s, t);
    CallersGrow(s, t);
  }

  /** Invalidation and resets empty the cache under a new generation. */
  lemma {:induction false} BumpKeeps(s: State, l: Label)
    requires Inv(s) && (l.Invalidate? || l.Clear? || l.ResetForRefresh?)
    ensures Inv(Apply(s, l))
  {
    hide Good, SameProfiles, GoodCaller;
    var t := Apply(s, l);
    assert Grows(s, t);
    CallersGrow(s, t);
  }

  lemma PatchKeepsProfiles(c: Cache, iccid: string, b: Overview)
    requires c.overview.Some? && SameProfiles(c.overview.value, b)
    ensures var t := Patch(c, iccid).0; t.overview.Some? && SameProfiles(t.overview.value, b)
    ensures Patch(c, iccid).0.generation == c.generation
  {
    hide Normalize, Matches;
    if Patch(c, iccid).1 {
      var gs, target := c.overview.value.groups, Normalize(iccid);
      forall i | 0 <= i < |gs| ensures SameGroup(MarkGroups(gs, target)[i], b.groups[i]) {
        assert SameGroup(gs[i], b.groups[i]);
        MarkGroupsAt(gs, target, i);
        forall j | 0 <= j < |gs[i].profiles| ensures MarkProfiles(gs[i].profiles, target)[j] == Marked(gs[i].profiles[j], target) {
          MarkProfilesAt(gs[i].profiles, target, j);
        }
      }
    }
  }

  lemma PatchKeeps(s: State, l: Label)
    requires Inv(s) && l.PatchActive?
    ensures Inv(Apply(s, l))
  {
    hide SameProfiles, GoodCaller, Normalize;
    var t := Apply(s, l);
    if s.cache.overview.Some? {
      PatchKeepsProfiles(s.cache, l.iccid, s.loads[s.origin].result.value);
    }
    assert Grows(s, t);
    CallersGrow(s, t);
  }

  lemma StepKeepsInv(s: State, l: Label)
    requires Inv(s) && Enabled(s, l)
    ensures Inv(Apply(s, l))
  {
    hide Inv, Apply, Enabled;
    match l {
      case Start(_) => CallerStepsKeep(s, l);
      case Look(_) => CallerStepsKeep(s, l);
      case ReadKey(_) => CallerStepsKeep(s, l);
      case Take(_) => CallerStepsKeep(s, l);
      case Join(_) => JoinKeeps(s, l);
      case LookAgain(_) => LookAgainKeeps(s, l);
      case Close(_) => CloseKeeps(s, l);
      case Begin(_) => BeginKeeps(s, l);
      case Finish(_, _) => FinishKeeps(s, l);
      case StoreResult(_) => StoreKeeps(s, l);
      case Invalidate => BumpKeeps(s, l);
      case Clear => BumpKeeps(s, l);
      case ResetForRefresh(_) => BumpKeeps(s, l);
      case PatchActive(_) => PatchKeeps(s, l);
    }
  }

  lemma {:induction false} StepGrows(s: State, l: Label)
    requires Inv(s) && Enabled(s, l)
    ensures Grows(s, Apply(s, l))
  {
    hide Good, SameProfiles, GoodCaller, Normalize;
    if l.Finish? { assert GoodPhase(s.loads, s.flights[l.f].phase, s.flights[l.f].key); }
  }

  lemma {:induction false} StepCaller(s: State, l: Label, c: nat)
    requires Enabled(s, l)
    ensures c in s.callers ==> c in Apply(s, l).callers && Apply(s, l).callers[c].since == s.callers[c].since
    ensures c !in s.callers && c in Apply(s, l).callers ==> Apply(s, l).callers[c].since == s.cache.generation
  {
    hide Normalize;
  }

  // ---------------------------------------------------------------- runs

  datatype Run = Run(states: seq<State>, labels: seq<Label>)

  ghost predicate IsRun(r: Run) {
    && |r.states| == |r.labels| + 1 && r.states[0] == Init()
    && forall i :: 0 <= i < |r.labels| ==> Enabled(r.states[i], r.labels[i]) && r.states[i + 1] == Apply(r.states[i], r.labels[i])
  }

  lemma {:induction false} EveryStateInv(r: Run, i: nat)
    requires IsRun(r) && i < |r.states|
    ensures Inv(r.states[i])
  {
    hide Enabled, Apply;
    if i > 0 {
      hide Inv;
      EveryStateInv(r, i - 1);
      StepKeepsInv(r.states[i - 1], r.labels[i - 1]);
    }
  }

  lemma {:induction false} RunGrows(r: Run, i: nat, j: nat)
    requires IsRun(r) && i <= j < |r.states|
    ensures Grows(r.states[i], r.states[j])
  {
    hide Enabled, Apply, Inv;
    if i < j {
      RunGrows(r, i, j - 1);
      EveryStateInv(r, j - 1);
      StepGrows(r.states[j - 1], r.labels[j - 1]);
    }
  }

  /** A load begun by state h began in a generation no later than h's. */
  lemma BegunBy(r: Run, h: nat, j: nat, load: nat)
    requires IsRun(r) && h <= j < |r.states| && load < |r.states[h].loads|
    ensures load < |r.states[j].loads| && r.states[j].loads[load].began <= r.states[h].cache.generation
  {
    RunGrows(r, h, j);
    EveryStateInv(r, h);
  }

  /** Freshness over every run: what is cached was loaded by a load that had not yet begun when the
      generation was last different; no load begun before an invalidation is ever cached after it. */
  lemma CachedAfterEveryBump(r: Run, h: nat, j: nat)
    requires IsRun(r) && h <= j < |r.states|
    requires r.states[h].cache.generation < r.states[j].cache.generation && r.states[j].cache.overview.Some?
    ensures |r.states[h].loads| <= r.states[j].origin < |r.states[j].loads|
    ensures var s := r.states[j];
            s.loads[s.origin].began == s.cache.generation && s.loads[s.origin].result.Some?
            && SameProfiles(s.cache.overview.value, s.loads[s.origin].result.value)
  {
    hide Enabled, Apply, SameProfiles;
    EveryStateInv(r, j);
    if r.states[j].origin < |r.states[h].loads| {
      BegunBy(r, h, j, r.states[j].origin);
    }
  }

  lemma {:induction false} SinceStart(r: Run, i: nat, j: nat, c: nat)
    requires IsRun(r) && i <= j < |r.states| && c !in r.states[i].callers && c in r.states[j].callers
    ensures r.states[j].callers[c].since >= r.states[i].cache.generation
  {
    hide Enabled, Apply, Inv;
    var k := j - 1;
    StepCaller(r.states[k], r.labels[k], c);
    if c in r.states[k].callers {
      SinceStart(r, i, k, c);
    } else {
      RunGrows(r, i, k);
    }
  }

  /** What a call of loadOverview hands out, from the cache, its own load or one it shared, comes from
      a load begun after every invalidation that was over when the call began, and is what that load
      returned up to which profiles are enabled. */
  lemma AnswersAreFresh(r: Run, h: nat, i: nat, j: nat, c: nat)
    requires IsRun(r) && h <= i <= j < |r.states|
    requires r.states[h].cache.generation < r.states[i].cache.generation
    requires c !in r.states[i].callers && c in r.states[j].callers
    requires r.states[j].callers[c].Returned? && r.states[j].callers[c].answer.Answered?
    ensures var s := r.states[j];
            var a := s.callers[c].answer;
            |r.states[h].loads| <= a.load < |s.loads| && s.loads[a.load].result.Some?
            && SameProfiles(a.overview, s.loads[a.load].result.value)
  {
    hide Enabled, Apply, SameProfiles;
    EveryStateInv(r, j);
    SinceStart(r, i, j, c);
    var a := r.states[j].callers[c].answer;
    assert GoodCaller(r.states[j], r.states[j].callers[c]);
    if a.load < |r.states[h].loads| {
      BegunBy(r, h, j, a.load);
    }
  }

  /** At most one load runs for each generation's key. */
  lemma OneLoadPerKey(r: Run, i: nat, f: nat, g: nat)
    requires IsRun(r) && i < |r.states| && f < |r.states[i].flights| && g < |r.states[i].flights|
    requires r.states[i].flights[f].key == r.states[i].flights[g].key
    requires !r.states[i].flights[f].phase.Closed? && !r.states[i].flights[g].phase.Closed?
    ensures f == g
  {
    EveryStateInv(r, i);
  }

  /** A result is written only where nothing is cached: no load replaces another's overview, and a
      failed one discards none. */
  lemma StoreOverwritesNothing(r: Run, i: nat)
    requires IsRun(r) && i < |r.labels| && r.labels[i].StoreResult?
    ensures r.states[i].cache.overview.Some? ==>
              r.states[i + 1].cache == r.states[i].cache && r.states[i + 1].origin == r.states[i].origin
  {
    EveryStateInv(r, i);
    assert Enabled(r.states[i], r.labels[i]);
  }
}
