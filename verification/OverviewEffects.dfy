/** What each section of the overview cache does to its fields, and what a load that was stored is good for. */
module OverviewEffects {
  import opened Wrappers
  import opened OverviewCache
  import opened OverviewRuns

  // ---------------------------------------------------------------- the sections

  /** Storing a load's result under the current generation leaves exactly its overview, or none and an error if
      it failed, and its chip, or the old one; under any other generation nothing is written. The shared
      call's answer is the load's either way. */
  lemma {:induction false} StoreStep(s: State, f: nat)
    requires OverviewRuns.Enabled(s, StoreResult(f))
    ensures var t := Apply(s, StoreResult(f));
            var Flight(key, Loaded(load, outcome)) := s.flights[f];
            && (key == s.cache.generation ==>
                  && t.cache.overview == outcome && (t.cache.lastErr.None? <==> outcome.Some?) && t.origin == load
                  && t.cache.chip == (match outcome case Some(o) => o.chip case None => s.cache.chip)
                  && t.cache.generation == s.cache.generation && t.cache.discovered == s.cache.discovered)
            && (key != s.cache.generation ==> t.cache == s.cache && t.origin == s.origin)
            && t.flights == s.flights[f := Flight(key, Done(match outcome case Some(o) => Answered(load, o) case None => Failed))]
            && t.loads == s.loads && t.inflight == s.inflight && t.callers == s.callers
  {
  }

  /** A look at the cache answers with what is cached and the load it comes from, and changes nothing else. */
  lemma {:induction false} LookStep(s: State, c: nat)
    requires OverviewRuns.Enabled(s, Look(c))
    ensures var since := s.callers[c].since;
            Apply(s, Look(c)) == s.(callers := s.callers[c := match s.cache.overview
                                                              case Some(o) => Returned(since, Answered(s.origin, o))
                                                              case None => Missed(since)])
  {
  }

  /** A shared call looks again before it loads. */
  lemma {:induction false} LookAgainStep(s: State, f: nat)
    requires OverviewRuns.Enabled(s, LookAgain(f))
    ensures Apply(s, LookAgain(f)) ==
            s.(flights := s.flights[f := Flight(s.flights[f].key, match s.cache.overview
                                                                  case Some(o) => Done(Answered(s.origin, o))
                                                                  case None => Ready)])
  {
  }

  /** A caller that missed takes the current generation as its key, and shares the call open under that key or
      opens one. */
  lemma {:induction false} JoinStep(s: State, c: nat)
    ensures OverviewRuns.Enabled(s, ReadKey(c)) ==>
              Apply(s, ReadKey(c)) == s.(callers := s.callers[c := Keyed(s.callers[c].since, s.cache.generation)])
    ensures OverviewRuns.Enabled(s, Join(c)) ==>
              var Keyed(since, key) := s.callers[c];
              var t := Apply(s, Join(c));
              if key in s.inflight then t == s.(callers := s.callers[c := Waiting(since, s.inflight[key])])
              else
                && t.callers == s.callers[c := Waiting(since, |s.flights|)] && t.inflight == s.inflight[key := |s.flights|]
                && t.flights == s.flights + [Flight(key, Checking)]
                && t.cache == s.cache && t.origin == s.origin && t.loads == s.loads
  {
  }

  /** Who shared a call gets its answer. */
  lemma {:induction false} TakeStep(s: State, c: nat)
    requires OverviewRuns.Enabled(s, Take(c))
    ensures Apply(s, Take(c)) ==
            s.(callers := s.callers[c := Returned(s.callers[c].since, s.flights[s.callers[c].flight].phase.answer)])
  {
  }

  /** A load begins in the generation there is then and ends with its outcome, which the call then has; a call
      that is closed frees its key. */
  lemma {:induction false} LoadSteps(s: State, f: nat, outcome: Option<Overview>, c: nat)
    ensures OverviewRuns.Enabled(s, Begin(f)) ==>
              Apply(s, Begin(f)) == s.(loads := s.loads + [Load(s.cache.generation, None)],
                                       flights := s.flights[f := Flight(s.flights[f].key, Loading(|s.loads|))])
    ensures OverviewRuns.Enabled(s, Finish(f, outcome)) ==>
              var load := s.flights[f].phase.load;
              Apply(s, Finish(f, outcome)) == s.(loads := s.loads[load := Load(s.loads[load].began, outcome)],
                                                 flights := s.flights[f := Flight(s.flights[f].key, Loaded(load, outcome))])
    ensures OverviewRuns.Enabled(s, Close(f)) ==>
              Apply(s, Close(f)) == s.(inflight := s.inflight - {s.flights[f].key},
                                       flights := s.flights[f := Flight(s.flights[f].key, Closed(s.flights[f].phase.answer))])
    ensures OverviewRuns.Enabled(s, Start(c)) ==>
              Apply(s, Start(c)) == s.(callers := s.callers[c := Looking(s.cache.generation)])
  {
  }

  predicate IsBump(l: Label) {
    l.Invalidate? || l.Clear? || l.ResetForRefresh?
  }

  /** Invalidation and the two resets begin a new generation with no overview and no error. Invalidation keeps
      what was discovered; only the reset before a refresh keeps a chip, and only a reusable one. */
  lemma {:induction false} BumpStep(s: State, l: Label)
    requires IsBump(l)
    ensures var t := Apply(s, l);
            && t == s.(cache := t.cache) && t.cache.generation == s.cache.generation + 1
            && t.cache.overview == None && t.cache.lastErr == None
            && t.cache.discovered == (if l.Invalidate? then s.cache.discovered else [])
            && t.cache.chip == if l.ResetForRefresh? && s.cache.chip.Some? && l.reusable(s.cache.chip.value) then s.cache.chip else None
  {
  }

  // ---------------------------------------------------------------- patched overviews

  /** Some profile has the ICCID the target names. */
  ghost predicate Knows(o: Overview, iccid: string) {
    && Normalize(iccid) != ""
    && exists i, j :: 0 <= i < |o.groups| && 0 <= j < |o.groups[i].profiles| && Matches(Normalize(iccid), o.groups[i].profiles[j].iccid)
  }

  /** The profiles of o, of which exactly those the target names are enabled. */
  ghost predicate EnablesOnly(o: Overview, after: Overview, iccid: string) {
    && SameProfiles(after, o)
    && forall i, j :: 0 <= i < |o.groups| && 0 <= j < |o.groups[i].profiles| ==>
         var p := after.groups[i].profiles[j];
         if Matches(Normalize(iccid), o.groups[i].profiles[j].iccid) then p.state == Enabled && p.stateText == "已启用"
         else p.state == Disabled && p.stateText == "已禁用"
  }

  /** What is left of o after some patches: the last one it knows decides, and without such a one it is as it
      was. */
  ghost predicate LastDecides(o: Overview, after: Overview, patches: seq<string>) {
    && SameProfiles(after, o)
    && ((forall k :: 0 <= k < |patches| ==> !Knows(o, patches[k])) ==> after == o)
    && forall k :: 0 <= k < |patches| && Knows(o, patches[k]) && (forall m :: k < m < |patches| ==> !Knows(o, patches[m])) ==>
         EnablesOnly(o, after, patches[k])
  }

  lemma {:induction false} SameKnows(a: Overview, b: Overview, iccid: string)
    requires SameProfiles(a, b)
    ensures Knows(a, iccid) <==> Knows(b, iccid)
  {
    hide Matches, Normalize;
    forall i | 0 <= i < |a.groups| ensures SameGroup(a.groups[i], b.groups[i]) {
    }
  }

  lemma {:induction false} KnowsIsIn(o: Overview, iccid: string)
    ensures Knows(o, iccid) <==> Normalize(iccid) != "" && InGroups(o.groups, Normalize(iccid))
  {
    hide Matches, Normalize;
    var target := Normalize(iccid);
    if Knows(o, iccid) {
      var i, j :| 0 <= i < |o.groups| && 0 <= j < |o.groups[i].profiles| && Matches(target, o.groups[i].profiles[j].iccid);
      assert InProfiles(o.groups[i].profiles, target);
    }
    if InGroups(o.groups, target) {
      var i :| 0 <= i < |o.groups| && InProfiles(o.groups[i].profiles, target);
      var j :| 0 <= j < |o.groups[i].profiles| && Matches(target, o.groups[i].profiles[j].iccid);
    }
  }

  lemma {:induction false} MarkedAt(gs: seq<Group>, target: string, i: nat, j: nat)
    requires i < |gs| && j < |gs[i].profiles|
    ensures var profiles := MarkGroups(gs, target)[i].profiles; j < |profiles| && profiles[j] == Marked(gs[i].profiles[j], target)
  {
    hide Marked;
    MarkGroupsAt(gs, target, i);
    MarkProfilesAt(gs[i].profiles, target, j);
  }

  lemma {:induction false} MarkingEnablesOnly(o: Overview, iccid: string)
    ensures EnablesOnly(o, o.(groups := MarkGroups(o.groups, Normalize(iccid))), iccid)
  {
    hide Matches, Normalize, MarkGroups, MarkProfiles;
    var gs, target := o.groups, Normalize(iccid);
    var hs := MarkGroups(gs, target);
    forall i | 0 <= i < |gs| ensures SameGroup(hs[i], gs[i]) {
      MarkGroupsAt(gs, target, i);
      forall j | 0 <= j < |gs[i].profiles| ensures hs[i].profiles[j] == Marked(gs[i].profiles[j], target) {
        MarkedAt(gs, target, i, j);
      }
    }
    forall i, j | 0 <= i < |gs| && 0 <= j < |gs[i].profiles| ensures hs[i].profiles[j] == Marked(gs[i].profiles[j], target) {
      MarkedAt(gs, target, i, j);
    }
  }

  /** One patch: it takes if and only if the cached overview knows the target, and then enables only that. */
  lemma {:induction false} PatchEffect(c: Cache, iccid: string)
    requires c.overview.Some?
    ensures var (d, ok) := Patch(c, iccid);
            && ok == Knows(c.overview.value, iccid) && d.overview.Some?
            && d == c.(overview := d.overview, lastErr := if ok then None else c.lastErr)
            && if ok then EnablesOnly(c.overview.value, d.overview.value, iccid) else d == c
  {
    hide Matches, Normalize, InGroups, Knows, EnablesOnly, MarkGroups;
    KnowsIsIn(c.overview.value, iccid);
    MarkingEnablesOnly(c.overview.value, iccid);
  }

  lemma {:induction false} StillSame(a: Overview, b: Overview, c: Overview)
    requires SameProfiles(a, b) && SameProfiles(b, c)
    ensures SameProfiles(a, c)
  {
    forall i | 0 <= i < |a.groups| ensures SameGroup(a.groups[i], c.groups[i]) {
      assert SameGroup(a.groups[i], b.groups[i]) && SameGroup(b.groups[i], c.groups[i]);
    }
  }

  lemma {:induction false} EnablesOnlyFrom(o: Overview, mid: Overview, after: Overview, iccid: string)
    requires SameProfiles(mid, o) && EnablesOnly(mid, after, iccid)
    ensures EnablesOnly(o, after, iccid)
  {
    hide Matches, Normalize;
    StillSame(after, mid, o);
    forall i | 0 <= i < |o.groups| ensures SameGroup(mid.groups[i], o.groups[i]) {
    }
  }

  lemma {:induction false} OneMorePatch(o: Overview, mid: Overview, after: Overview, patches: seq<string>, iccid: string)
    requires LastDecides(o, mid, patches)
    requires if Knows(mid, iccid) then EnablesOnly(mid, after, iccid) else after == mid
    ensures LastDecides(o, after, patches + [iccid])
  {
    hide Knows, EnablesOnly, SameProfiles;
    var all, n := patches + [iccid], |patches|;
    SameKnows(mid, o, iccid);
    assert all[n] == iccid && forall k :: 0 <= k < n ==> all[k] == patches[k];
    if Knows(mid, iccid) {
      EnablesOnlyFrom(o, mid, after, iccid);
      OnlySame(o, after, iccid);
      assert Knows(o, all[n]);
      forall k | 0 <= k <= n && Knows(o, all[k]) && (forall m :: k < m <= n ==> !Knows(o, all[m])) ensures EnablesOnly(o, after, all[k]) {
        assert k == n;
      }
    } else {
      forall k | 0 <= k <= n && Knows(o, all[k]) && (forall m :: k < m <= n ==> !Knows(o, all[m])) ensures EnablesOnly(o, after, all[k]) {
        assert k < n;
        forall m | k < m < n ensures !Knows(o, patches[m]) { assert all[m] == patches[m]; }
      }
      if forall k :: 0 <= k <= n ==> !Knows(o, all[k]) {
        forall k | 0 <= k < n ensures !Knows(o, patches[k]) { assert all[k] == patches[k]; }
      }
    }
  }

  lemma {:induction false} OnlySame(o: Overview, after: Overview, iccid: string)
    requires EnablesOnly(o, after, iccid)
    ensures SameProfiles(after, o)
  {
  }

  // ---------------------------------------------------------------- runs

  /** The targets of the patches among some steps, in order. */
  function PatchesIn(labels: seq<Label>): seq<string> {
    if labels == [] then []
    else
      var last := labels[|labels| - 1];
      PatchesIn(labels[..|labels| - 1]) + if last.PatchActive? then [last.iccid] else []
  }

  /** Nothing is stored while an overview of the current generation is cached. */
  lemma {:induction false} NoStoreWhileCached(s: State, f: nat)
    requires Inv(s) && OverviewRuns.Enabled(s, StoreResult(f)) && s.cache.overview.Some?
    ensures s.flights[f].key != s.cache.generation
  {
    hide Loads, Fresh, Flights, Keys, Callers;
  }

  /** A section that begins no generation leaves a cached overview where it is, patched if it is a patch. */
  lemma {:induction false} CachedStep(s: State, l: Label)
    requires Inv(s) && OverviewRuns.Enabled(s, l) && s.cache.overview.Some? && !IsBump(l)
    ensures var t := Apply(s, l);
            && t.origin == s.origin && t.cache.generation == s.cache.generation && t.cache.overview.Some?
            && if l.PatchActive? then t.cache == Patch(s.cache, l.iccid).0 else t.cache == s.cache
  {
    hide Inv, Patch, LastDecides;
    match l {
      case PatchActive(iccid) => PatchEffect(s.cache, iccid);
      case StoreResult(f) =>
        hide Apply;
        NoStoreWhileCached(s, f);
        StoreStep(s, f);
      case _ => OtherSteps(s, l);
    }
  }

  lemma {:induction false} OtherSteps(s: State, l: Label)
    requires OverviewRuns.Enabled(s, l) && !IsBump(l) && !l.PatchActive? && !l.StoreResult?
    ensures Apply(s, l).origin == s.origin && Apply(s, l).cache == s.cache
  {
  }

  /** The cache holds what is left of o, loaded by this load in this generation, after these patches. */
  ghost predicate Keeps(s: State, o: Overview, load: nat, generation: nat, patches: seq<string>) {
    && s.cache.overview.Some? && LastDecides(o, s.cache.overview.value, patches)
    && s.origin == load && s.cache.generation == generation
  }

  lemma {:induction false} KeptByStep(s: State, l: Label, o: Overview, load: nat, generation: nat, labels: seq<Label>)
    requires Inv(s) && OverviewRuns.Enabled(s, l) && !IsBump(l) && Keeps(s, o, load, generation, PatchesIn(labels))
    ensures Keeps(Apply(s, l), o, load, generation, PatchesIn(labels + [l]))
  {
    hide Inv, Apply, OverviewRuns.Enabled, LastDecides, Patch, Knows, EnablesOnly;
    CachedStep(s, l);
    var before := PatchesIn(labels);
    assert (labels + [l])[..|labels|] == labels;
    if l.PatchActive? {
      PatchEffect(s.cache, l.iccid);
      OneMorePatch(o, s.cache.overview.value, Apply(s, l).cache.overview.value, before, l.iccid);
    } else {
      assert before + [] == before;
    }
  }

  /** A load that was stored under the current generation stays cached until the next one begins: whatever else
      runs, the cache then holds that load's overview, with the profile enabled that the last patch it knows
      named. */
  lemma {:induction false} StoredStays(r: Run, i: nat, j: nat)
    requires IsRun(r) && i < j < |r.states| && r.labels[i].StoreResult?
    requires r.states[i].flights[r.labels[i].f].key == r.states[i].cache.generation
    requires r.states[i].flights[r.labels[i].f].phase.outcome.Some?
    requires forall k :: i < k < j ==> !IsBump(r.labels[k])
    ensures var Flight(_, Loaded(load, outcome)) := r.states[i].flights[r.labels[i].f];
            Keeps(r.states[j], outcome.value, load, r.states[i].cache.generation, PatchesIn(r.labels[i + 1..j]))
    decreases j
  {
    hide Inv, Apply, OverviewRuns.Enabled, LastDecides, PatchesIn, IsBump;
    RunAt(r, j - 1);
    StoreIsLoaded(r, i);
    var o := r.states[i].flights[r.labels[i].f].phase.outcome.value;
    if i + 1 == j {
      StoreStep(r.states[i], r.labels[i].f);
      assert r.labels[i + 1..j] == [];
      NoPatch(o);
    } else {
      hide Keeps;
      StoredStays(r, i, j - 1);
      EveryStateInv(r, j - 1);
      var Flight(_, Loaded(load, _)) := r.states[i].flights[r.labels[i].f];
      KeptByStep(r.states[j - 1], r.labels[j - 1], o, load, r.states[i].cache.generation, r.labels[i + 1..j - 1]);
      assert r.labels[i + 1..j] == r.labels[i + 1..j - 1] + [r.labels[j - 1]];
    }
  }

  lemma {:induction false} StoreIsLoaded(r: Run, i: nat)
    requires IsRun(r) && i < |r.labels| && r.labels[i].StoreResult?
    ensures r.labels[i].f < |r.states[i].flights| && r.states[i].flights[r.labels[i].f].phase.Loaded?
  {
    assert OverviewRuns.Enabled(r.states[i], r.labels[i]);
  }

  lemma {:induction false} RunAt(r: Run, i: nat)
    requires IsRun(r) && i < |r.labels|
    ensures OverviewRuns.Enabled(r.states[i], r.labels[i]) && r.states[i + 1] == Apply(r.states[i], r.labels[i])
  {
  }

  lemma {:induction false} NoPatch(o: Overview)
    ensures LastDecides(o, o, PatchesIn([]))
  {
    SameProfilesReflexive(o);
  }

  /** So every look until then hands out that overview and names that load. */
  lemma {:induction false} LooksFindIt(r: Run, i: nat, j: nat)
    requires IsRun(r) && i < j < |r.labels| && r.labels[i].StoreResult? && r.labels[j].Look?
    requires r.states[i].flights[r.labels[i].f].key == r.states[i].cache.generation
    requires r.states[i].flights[r.labels[i].f].phase.outcome.Some?
    requires forall k :: i < k < j ==> !IsBump(r.labels[k])
    ensures var Flight(_, Loaded(load, outcome)) := r.states[i].flights[r.labels[i].f];
            var k := r.states[j + 1].callers[r.labels[j].c];
            && k.Returned? && k.answer.Answered? && k.answer.load == load
            && LastDecides(outcome.value, k.answer.overview, PatchesIn(r.labels[i + 1..j]))
  {
    hide Inv, Apply, OverviewRuns.Enabled, LastDecides;
    StoredStays(r, i, j);
    RunAt(r, j);
    LookStep(r.states[j], r.labels[j].c);
  }

  predicate Answers(p: Phase, a: Answer) {
    p == Done(a) || p == Closed(a)
  }

  lemma {:induction false} AnswerStays(r: Run, i: nat, j: nat, f: nat, a: Answer)
    requires IsRun(r) && i <= j < |r.states| && f < |r.states[i].flights| && Answers(r.states[i].flights[f].phase, a)
    ensures f < |r.states[j].flights| && Answers(r.states[j].flights[f].phase, a)
  {
    hide Inv, Apply, OverviewRuns.Enabled;
    if i < j {
      AnswerStays(r, i, j - 1, f, a);
      RunAt(r, j - 1);
      AnswerStep(r.states[j - 1], r.labels[j - 1], f, a);
    }
  }

  lemma {:induction false} AnswerStep(s: State, l: Label, f: nat, a: Answer)
    requires OverviewRuns.Enabled(s, l) && f < |s.flights| && Answers(s.flights[f].phase, a)
    ensures f < |Apply(s, l).flights| && Answers(Apply(s, l).flights[f].phase, a)
  {
    hide Patch;
  }

  /** Everybody who shared a call gets what its load returned, stored or not. */
  lemma {:induction false} SharersGetTheLoad(r: Run, i: nat, j: nat)
    requires IsRun(r) && i < j < |r.labels| && r.labels[i].StoreResult? && r.labels[j].Take?
    requires r.states[j].callers[r.labels[j].c].flight == r.labels[i].f
    ensures var Flight(_, Loaded(load, outcome)) := r.states[i].flights[r.labels[i].f];
            r.states[j + 1].callers[r.labels[j].c] ==
              Returned(r.states[j].callers[r.labels[j].c].since, match outcome case Some(o) => Answered(load, o) case None => Failed)
  {
    hide Inv, Apply, OverviewRuns.Enabled;
    var f := r.labels[i].f;
    RunAt(r, i);
    RunAt(r, j);
    StoreStep(r.states[i], f);
    AnswerStays(r, i + 1, j, f, r.states[i + 1].flights[f].phase.answer);
    TakeStep(r.states[j], r.labels[j].c);
  }

  /** A call has ended with an overview. */
  predicate Handed(s: State, c: nat) {
    c in s.callers && s.callers[c].Returned? && s.callers[c].answer.Answered?
  }

  /** After an invalidation or a reset nothing loaded before it is cached again, and no call that begins after it
      hands such a thing out. */
  lemma {:induction false} NothingOldAfterBump(r: Run, i: nat, j: nat)
    requires IsRun(r) && i < j < |r.states| && IsBump(r.labels[i])
    ensures r.states[j].cache.overview.Some? ==> |r.states[i].loads| <= r.states[j].origin < |r.states[j].loads|
    ensures forall c :: c !in r.states[i + 1].callers && Handed(r.states[j], c) ==>
              |r.states[i].loads| <= r.states[j].callers[c].answer.load < |r.states[j].loads|
  {
    hide Inv, Apply, OverviewRuns.Enabled, SameProfiles;
    RunAt(r, i);
    BumpStep(r.states[i], r.labels[i]);
    RunGrows(r, i + 1, j);
    if r.states[j].cache.overview.Some? {
      CachedAfterEveryBump(r, i, j);
    }
    forall c | c !in r.states[i + 1].callers && Handed(r.states[j], c)
      ensures |r.states[i].loads| <= r.states[j].callers[c].answer.load < |r.states[j].loads|
    {
      AnswersAreFresh(r, i, i + 1, j, c);
    }
  }
}
