/** The SIM-auth readiness gate: one probe at a time, generations that invalidate it, and the
    channel its waiters sleep on. */
module SimAuthReady {
  import opened Wrappers

  /** Where a call of WaitSIMAuthReady is: at the top of its loop, asleep on a channel, running
      the probe it began in generation gen, or returned. */
  datatype Caller =
    | Looking
    | Sleeping(on: nat)
    | Probing(gen: nat, on: nat)
    | Returned(ok: bool)

  /** What has happened so far; a probe is named by the channel it made. */
  datatype Event = Began(probe: nat) | Succeeded(probe: nat) | Failed(probe: nat) | Invalidated

  /** simAuthReadyState, the calls in progress, and the past. Channels are numbered. */
  datatype State = State(
    generation: nat,
    ready: bool,
    probing: bool,
    waitC: Option<nat>,
    made: nat,
    closed: set<nat>,
    callers: map<nat, Caller>,
    past: seq<Event>)

  datatype Label =
    | Call(c: nat)
    | Check(c: nat)
    | Finish(c: nat, ok: bool)
    | WakeUp(c: nat)
    | Cancel(c: nat)
    | Invalidate

  function Init(): State {
    State(0, false, false, None, 0, {}, map[], [])
  }

  predicate At(s: State, c: nat) {
    c in s.callers
  }

  predicate Enabled(s: State, l: Label) {
    match l
    case Call(c) => c !in s.callers
    case Check(c) => At(s, c) && s.callers[c].Looking?
    case Finish(c, _) => At(s, c) && s.callers[c].Probing?
    case WakeUp(c) => At(s, c) && s.callers[c].Sleeping? && s.callers[c].on in s.closed
    case Cancel(c) => At(s, c) && (s.callers[c].Looking? || s.callers[c].Sleeping?)
    case Invalidate => true
  }

  /** The section at the top of the loop. */
  function DoCheck(s: State, c: nat): State {
    if s.ready then s.(callers := s.callers[c := Returned(true)])
    else if s.probing then
      match s.waitC
      case Some(ch) => s.(callers := s.callers[c := Sleeping(ch)])
      case None => s.(made := s.made + 1, waitC := Some(s.made), callers := s.callers[c := Sleeping(s.made)])
    else
      s.(probing := true, made := s.made + 1, waitC := Some(s.made),
         callers := s.callers[c := Probing(s.generation, s.made)], past := s.past + [Began(s.made)])
  }

  /** The section after the probe has returned. */
  function DoFinish(s: State, c: nat, ok: bool): State
    requires At(s, c) && s.callers[c].Probing?
  {
    var Probing(gen, ch) := s.callers[c];
    var stale := s.generation != gen;
    var s1 := if stale then s else s.(ready := ok);
    var s2 := if s1.waitC == Some(ch) then s1.(closed := s1.closed + {ch}, waitC := None) else s1;
    s2.(probing := false,
        callers := s.callers[c := if !ok then Returned(false) else if stale then Looking else Returned(true)],
        past := s.past + [if ok then Succeeded(ch) else Failed(ch)])
  }

  function Apply(s: State, l: Label): State
    requires Enabled(s, l)
  {
    match l
    case Call(c) => s.(callers := s.callers[c := Looking])
    case Check(c) => DoCheck(s, c)
    case Finish(c, ok) => DoFinish(s, c, ok)
    case WakeUp(c) => s.(callers := s.callers[c := Looking])
    case Cancel(c) => s.(callers := s.callers[c := Returned(false)])
    case Invalidate => s.(generation := s.generation + 1, ready := false, past := s.past + [Invalidated])
  }

  // ---------------------------------------------------------------- what always holds

  function Invalidations(past: seq<Event>): nat {
    if past == [] then 0
    else Invalidations(past[..|past| - 1]) + if past[|past| - 1].Invalidated? then 1 else 0
  }

  /** Since event i no invalidation has happened. */
  predicate CurrentSince(past: seq<Event>, i: nat) {
    forall j :: i <= j < |past| ==> !past[j].Invalidated?
  }

  /** A probe that began in the current generation has succeeded. */
  ghost predicate FreshSuccess(past: seq<Event>) {
    exists i, j :: 0 <= i < j < |past| && past[i].Began? && past[j] == Succeeded(past[i].probe) && CurrentSince(past, i)
  }

  /** Probe ch began, and the generation it recorded is the number of invalidations before it. */
  ghost predicate BeganIn(past: seq<Event>, ch: nat, gen: nat) {
    exists i :: 0 <= i < |past| && past[i] == Began(ch) && gen == Invalidations(past[..i])
  }

  /** At most one probe is in flight: the flag says whether there is one, the channel which. */
  ghost predicate SingleFlight(s: State) {
    && (s.probing <==> s.waitC.Some?)
    && (s.probing <==> exists c :: c in s.callers && s.callers[c].Probing?)
    && (forall c :: c in s.callers && s.callers[c].Probing? ==> s.waitC == Some(s.callers[c].on))
    && (forall c, d :: c in s.callers && d in s.callers && s.callers[c].Probing? && s.callers[d].Probing? ==> c == d)
  }

  /** A sleeper is awake or will be woken by the probe in flight; open channels are not closed. */
  ghost predicate Channels(s: State) {
    && (forall ch :: ch in s.closed ==> ch < s.made)
    && (s.waitC.Some? ==> s.waitC.value < s.made && s.waitC.value !in s.closed)
    && (forall c :: c in s.callers && s.callers[c].Sleeping? ==>
          s.callers[c].on in s.closed || s.waitC == Some(s.callers[c].on))
  }

  ghost predicate History(s: State) {
    && s.generation == Invalidations(s.past)
    && (forall c :: c in s.callers && s.callers[c].Probing? ==> BeganIn(s.past, s.callers[c].on, s.callers[c].gen))
    && (s.ready ==> FreshSuccess(s.past))
  }

  ghost predicate Inv(s: State) {
    SingleFlight(s) && Channels(s) && History(s)
  }

  lemma {:induction false} InvalidationsAppend(past: seq<Event>, e: Event)
    ensures Invalidations(past + [e]) == Invalidations(past) + if e.Invalidated? then 1 else 0
  {
    assert (past + [e])[..|past|] == past;
  }

  lemma {:induction false} InvalidationsPrefix(past: seq<Event>, i: nat)
    requires i <= |past|
    ensures Invalidations(past[..i]) <= Invalidations(past)
    ensures Invalidations(past[..i]) == Invalidations(past) ==> CurrentSince(past, i)
  {
    if i == |past| {
      assert past[..i] == past;
    } else {
      var front := past[..|past| - 1];
      InvalidationsPrefix(front, i);
      assert front[..i] == past[..i];
      if Invalidations(past[..i]) == Invalidations(past) {
        forall j | i <= j < |past| ensures !past[j].Invalidated? {
          if j < |front| { assert front[j] == past[j]; }
        }
      }
    }
  }

  lemma BeganStays(past: seq<Event>, e: Event, ch: nat, gen: nat)
    requires BeganIn(past, ch, gen)
    ensures BeganIn(past + [e], ch, gen)
  {
    var i :| 0 <= i < |past| && past[i] == Began(ch) && gen == Invalidations(past[..i]);
    assert (past + [e])[i] == Began(ch) && (past + [e])[..i] == past[..i];
  }

  lemma SuccessStays(past: seq<Event>, e: Event)
    requires FreshSuccess(past) && !e.Invalidated?
    ensures FreshSuccess(past + [e])
  {
    var i, j :| 0 <= i < j < |past| && past[i].Began? && past[j] == Succeeded(past[i].probe) && CurrentSince(past, i);
    var past' := past + [e];
    assert past'[i] == past[i] && past'[j] == past[j];
    assert CurrentSince(past', i);
  }

  /** A probe that comes back in the generation it began in makes the success fresh. */
  lemma FinishIsFresh(past: seq<Event>, ch: nat, gen: nat)
    requires BeganIn(past, ch, gen) && gen == Invalidations(past)
    ensures FreshSuccess(past + [Succeeded(ch)])
  {
    var i :| 0 <= i < |past| && past[i] == Began(ch) && gen == Invalidations(past[..i]);
    InvalidationsPrefix(past, i);
    var past' := past + [Succeeded(ch)];
    assert past'[i] == Began(ch) && past'[|past|] == Succeeded(ch);
    assert CurrentSince(past', i);
  }

  /** An append that is no invalidation keeps what the history says of probes and readiness. */
  lemma HistoryAppend(s: State, e: Event)
    requires History(s) && !e.Invalidated?
    ensures History(s.(past := s.past + [e]))
  {
    InvalidationsAppend(s.past, e);
    forall c | c in s.callers && s.callers[c].Probing?
      ensures BeganIn(s.past + [e], s.callers[c].on, s.callers[c].gen)
    {
      BeganStays(s.past, e, s.callers[c].on, s.callers[c].gen);
    }
    if s.ready { SuccessStays(s.past, e); }
  }

  lemma SleepKeeps(s: State, c: nat)
    requires Inv(s) && At(s, c) && s.callers[c].Looking? && s.probing
    ensures s.waitC.Some? && Inv(s.(callers := s.callers[c := Sleeping(s.waitC.value)]))
  {
    hide BeganIn, FreshSuccess, Invalidations;
    var s' := s.(callers := s.callers[c := Sleeping(s.waitC.value)]);
    var p :| p in s.callers && s.callers[p].Probing?;
    assert s'.callers[p] == s.callers[p];
  }

  lemma BeginKeepsFlight(s: State, c: nat, s': State)
    requires SingleFlight(s) && Channels(s) && At(s, c) && !s.probing
    requires s'.probing && s'.made == s.made + 1 && s'.waitC == Some(s.made) && s'.closed == s.closed
    requires s'.callers == s.callers[c := Probing(s.generation, s.made)]
    ensures SingleFlight(s') && Channels(s')
  {
    assert s'.callers[c].Probing?;
  }

  lemma BeginKeepsHistory(s: State, c: nat, s': State)
    requires History(s) && SingleFlight(s) && At(s, c) && !s.ready && !s.probing
    requires s'.past == s.past + [Began(s.made)] && s'.generation == s.generation && !s'.ready
    requires s'.callers == s.callers[c := Probing(s.generation, s.made)]
    ensures History(s')
  {
    hide Invalidations;
    InvalidationsAppend(s.past, Began(s.made));
    assert s'.past[|s.past|] == Began(s.made) && s'.past[..|s.past|] == s.past;
    assert BeganIn(s'.past, s.made, s.generation);
  }

  lemma CheckKeeps(s: State, c: nat)
    requires Inv(s) && At(s, c) && s.callers[c].Looking?
    ensures Inv(DoCheck(s, c))
  {
    if s.ready {
      hide SingleFlight, Channels, History;
      QuietKeeps(s, c, Returned(true));
    } else if s.probing {
      hide SingleFlight, Channels, History;
      SleepKeeps(s, c);
    } else {
      hide SingleFlight, Channels, History;
      BeginKeepsFlight(s, c, DoCheck(s, c));
      BeginKeepsHistory(s, c, DoCheck(s, c));
    }
  }

  lemma FinishKeepsFlight(s: State, c: nat, ok: bool)
    requires SingleFlight(s) && Channels(s) && At(s, c) && s.callers[c].Probing?
    ensures SingleFlight(DoFinish(s, c, ok)) && Channels(DoFinish(s, c, ok))
  {
  }

  lemma FinishKeepsHistory(s: State, c: nat, ok: bool)
    requires SingleFlight(s) && History(s) && At(s, c) && s.callers[c].Probing?
    ensures History(DoFinish(s, c, ok))
  {
    hide Invalidations, BeganIn, FreshSuccess;
    var Probing(gen, ch) := s.callers[c];
    HistoryAppend(s, if ok then Succeeded(ch) else Failed(ch));
    if s.generation == gen && ok {
      FinishIsFresh(s.past, ch, gen);
    }
  }

  lemma FinishKeeps(s: State, c: nat, ok: bool)
    requires Inv(s) && At(s, c) && s.callers[c].Probing?
    ensures Inv(DoFinish(s, c, ok))
  {
    hide SingleFlight, Channels, History;
    FinishKeepsFlight(s, c, ok);
    FinishKeepsHistory(s, c, ok);
  }

  lemma InvalidateKeeps(s: State)
    requires Inv(s)
    ensures Inv(Apply(s, Invalidate))
  {
    InvalidationsAppend(s.past, Invalidated);
    forall c | c in s.callers && s.callers[c].Probing?
      ensures BeganIn(s.past + [Invalidated], s.callers[c].on, s.callers[c].gen)
    {
      BeganStays(s.past, Invalidated, s.callers[c].on, s.callers[c].gen);
    }
  }

  lemma StepKeeps(s: State, l: Label)
    requires Inv(s) && Enabled(s, l)
    ensures Inv(Apply(s, l))
  {
    match l
    case Check(c) => CheckKeeps(s, c);
    case Finish(c, ok) => FinishKeeps(s, c, ok);
    case Invalidate => InvalidateKeeps(s);
    case Call(c) => QuietKeeps(s, c, Looking);
    case WakeUp(c) => QuietKeeps(s, c, Looking);
    case Cancel(c) => QuietKeeps(s, c, Returned(false));
  }

  /** Moving a caller that neither probes nor starts to sleep disturbs nothing. */
  lemma QuietKeeps(s: State, c: nat, to: Caller)
    requires Inv(s) && (c in s.callers ==> !s.callers[c].Probing?)
    requires to.Looking? || to.Returned?
    ensures Inv(s.(callers := s.callers[c := to]))
  {
    var s' := s.(callers := s.callers[c := to]);
    assert forall d :: d in s.callers && s.callers[d].Probing? ==> d in s'.callers && s'.callers[d] == s.callers[d];
  }

  // ---------------------------------------------------------------- whole runs

  datatype Run = Run(states: seq<State>, labels: seq<Label>)

  ghost predicate IsRun(r: Run) {
    && |r.states| == |r.labels| + 1 && r.states[0] == Init()
    && forall i :: 0 <= i < |r.labels| ==> Enabled(r.states[i], r.labels[i]) && r.states[i + 1] == Apply(r.states[i], r.labels[i])
  }

  lemma {:induction false} EveryStateInv(r: Run, i: nat)
    requires IsRun(r) && i < |r.states|
    ensures Inv(r.states[i])
  {
    if i > 0 {
      EveryStateInv(r, i - 1);
      StepKeeps(r.states[i - 1], r.labels[i - 1]);
    }
  }

  predicate Returns(s: State, c: nat, ok: bool) {
    c in s.callers && s.callers[c] == Returned(ok)
  }

  /** A nil return is honest: in the very section that decides it, a probe that began in the
      current generation has succeeded, over all interleavings with invalidations. */
  lemma NilReturnIsFresh(r: Run, i: nat, c: nat)
    requires IsRun(r) && i < |r.labels|
    requires !Returns(r.states[i], c, true) && Returns(r.states[i + 1], c, true)
    ensures r.states[i + 1].ready && FreshSuccess(r.states[i + 1].past)
  {
    hide SingleFlight, Channels, FreshSuccess;
    EveryStateInv(r, i);
    EveryStateInv(r, i + 1);
  }

  /** No channel is closed twice: a section closes at most the one channel the probe in flight
      made, which was open, and it does so exactly when that probe ends. */
  lemma ChannelsCloseOnce(r: Run, i: nat)
    requires IsRun(r) && i < |r.labels|
    ensures var s, s', l := r.states[i], r.states[i + 1], r.labels[i];
            if l.Finish? then s.callers[l.c].on !in s.closed && s'.closed == s.closed + {s.callers[l.c].on}
            else s'.closed == s.closed
  {
    EveryStateInv(r, i);
  }

  /** Nobody sleeps for ever on a forgotten channel: a sleeper can wake now, or a probe is in
      flight whose end closes exactly the channel it sleeps on. */
  lemma SleepersWillWake(r: Run, i: nat, c: nat) returns (p: nat)
    requires IsRun(r) && i < |r.states|
    requires c in r.states[i].callers && r.states[i].callers[c].Sleeping?
    ensures var s := r.states[i];
            || Enabled(s, WakeUp(c))
            || (Enabled(s, Finish(p, true)) && s.callers[c].on in DoFinish(s, p, true).closed
                && Enabled(s, Finish(p, false)) && s.callers[c].on in DoFinish(s, p, false).closed)
  {
    EveryStateInv(r, i);
    var s := r.states[i];
    p := 0;
    if s.callers[c].on !in s.closed {
      p :| p in s.callers && s.callers[p].Probing?;
    }
  }

  /** The branch that makes a channel for a waiter while a probe runs is never taken. */
  lemma ProbeAlwaysHasChannel(r: Run, i: nat)
    requires IsRun(r) && i < |r.states| && r.states[i].probing
    ensures r.states[i].waitC.Some?
  {
    EveryStateInv(r, i);
  }

  /** Probes never overlap, whatever the interleaving. */
  lemma OneProbeAtATime(r: Run, i: nat, c: nat, d: nat)
    requires IsRun(r) && i < |r.states|
    requires Enabled(r.states[i], Finish(c, true)) && Enabled(r.states[i], Finish(d, true))
    ensures c == d
  {
    EveryStateInv(r, i);
  }

  lemma ProbingHasChannel(s: State)
    requires Inv(s)
    ensures s.probing ==> s.waitC.Some?
  {
  }

  lemma ProbeFacts(s: State, c: nat)
    requires Inv(s) && c in s.callers && s.callers[c].Probing?
    ensures s.waitC == Some(s.callers[c].on) && s.callers[c].on !in s.closed
  {
  }

  lemma ReadyIsFresh(s: State)
    requires Inv(s)
    ensures s.ready ==> FreshSuccess(s.past)
  {
  }

  // ---------------------------------------------------------------- what each section does

  /** A look: a ready gate answers at once and starts no probe; while a probe runs the caller sleeps on its
      channel; otherwise the caller starts one, on a new channel and in the current generation. */
  lemma {:induction false} LookEffect(r: Run, i: nat, c: nat)
    requires IsRun(r) && i < |r.labels| && r.labels[i] == Check(c)
    ensures var s, s' := r.states[i], r.states[i + 1];
            && (s.ready ==> s' == s.(callers := s.callers[c := Returned(true)]))
            && (!s.ready && s.probing ==> s.waitC.Some? && s' == s.(callers := s.callers[c := Sleeping(s.waitC.value)]))
            && (!s.ready && !s.probing ==>
                  s' == s.(probing := true, waitC := Some(s.made), made := s.made + 1, past := s.past + [Began(s.made)],
                           callers := s.callers[c := Probing(s.generation, s.made)]))
  {
    hide Inv;
    if r.states[i].probing {
      ProbeAlwaysHasChannel(r, i);
    }
  }

  /** The end of a probe: its channel is closed and the next may start. In the generation it began in its
      outcome is the gate's and the call's; otherwise the gate is left as it is and the call looks again
      after a success and fails after a failure. */
  lemma {:induction false} ProbeEffect(r: Run, i: nat, c: nat, ok: bool)
    requires IsRun(r) && i < |r.labels| && r.labels[i] == Finish(c, ok)
    ensures var s, s' := r.states[i], r.states[i + 1];
            && s.callers[c].Probing?
            && var Probing(gen, ch) := s.callers[c];
               && s' == s.(ready := if s.generation == gen then ok else s.ready, closed := s.closed + {ch}, waitC := None,
                           probing := false, past := s.past + [if ok then Succeeded(ch) else Failed(ch)],
                           callers := s.callers[c := if !ok then Returned(false)
                                                     else if s.generation == gen then Returned(true) else Looking])
  {
    EveryStateInv(r, i);
  }

  /** An invalidation closes the gate under a new generation, and does not stop the probe that runs. */
  lemma {:induction false} InvalidateEffect(r: Run, i: nat)
    requires IsRun(r) && i < |r.labels| && r.labels[i] == Invalidate
    ensures var s, s' := r.states[i], r.states[i + 1];
            s' == s.(generation := s.generation + 1, ready := false, past := s.past + [Invalidated])
  {
    hide Inv;
  }

  /** After a look at a ready gate no probe has begun. */
  lemma {:induction false} ReadyGateStartsNoProbe(r: Run, i: nat, c: nat)
    requires IsRun(r) && i < |r.labels| && r.labels[i] == Check(c) && r.states[i].ready
    ensures Returns(r.states[i + 1], c, true) && r.states[i + 1].past == r.states[i].past && r.states[i + 1].made == r.states[i].made
  {
    hide Inv;
    LookEffect(r, i, c);
  }

  // ---------------------------------------------------------------- the gate as an object

  datatype Outcome = Ready | Wait(on: nat) | Probe(gen: nat, on: nat)

  datatype Next = Nil | Error | Again

  /** The fields under the arbiter's mutex, and one method per locked section. */
  class Gate {
    var generation: nat
    var ready: bool
    var probing: bool
    var waitC: Option<nat>
    var made: nat
    ghost var closed: set<nat>
    ghost var callers: map<nat, Caller>
    ghost var past: seq<Event>

    ghost function Abs(): State
      reads this
    {
      State(generation, ready, probing, waitC, made, closed, callers, past)
    }

    ghost predicate Valid()
      reads this
    {
      Inv(Abs())
    }

    constructor ()
      ensures Abs() == Init() && Valid()
    {
      generation, ready, probing, waitC, made := 0, false, false, None, 0;
      closed, callers, past := {}, map[], [];
    }

    method InvalidateReady()
      requires Valid()
      modifies this
      ensures Valid() && Abs() == Apply(old(Abs()), Invalidate)
    {
      hide SingleFlight, Channels, History;
      StepKeeps(Abs(), Invalidate);
      generation := generation + 1;
      ready := false;
      past := past + [Invalidated];
    }

    /** From the top of the loop to unlocking: ready, told to sleep, or told to probe. */
    method Look(ghost c: nat) returns (outcome: Outcome)
      requires Valid() && Enabled(Abs(), Check(c))
      modifies this
      ensures Valid() && Abs() == Apply(old(Abs()), Check(c))
      ensures callers[c] == match outcome
                            case Ready => Returned(true)
                            case Wait(ch) => Sleeping(ch)
                            case Probe(g, ch) => Probing(g, ch)
    {
      hide SingleFlight, Channels, History;
      StepKeeps(Abs(), Check(c));
      ProbingHasChannel(Abs());
      if ready {
        callers := callers[c := Returned(true)];
        return Ready;
      }
      if probing {
        if waitC.None? {
          assert false;  // a probe in flight always has a channel
        }
        callers := callers[c := Sleeping(waitC.value)];
        return Wait(waitC.value);
      }
      var ch := made;
      made := made + 1;
      probing := true;
      waitC := Some(ch);
      callers := callers[c := Probing(generation, ch)];
      past := past + [Began(ch)];
      return Probe(generation, ch);
    }

    /** From the probe's return to unlocking; closing a closed channel would panic. */
    method ProbeReturned(ghost c: nat, gen: nat, ch: nat, ok: bool) returns (next: Next)
      requires Valid() && c in callers && callers[c] == Probing(gen, ch)
      modifies this
      ensures Valid() && Abs() == Apply(old(Abs()), Finish(c, ok))
      ensures ch !in old(closed) && ch in closed
      ensures next == if !ok then Error else if old(generation) != gen then Again else Nil
      ensures next == Nil ==> ready && FreshSuccess(past)
    {
      hide SingleFlight, Channels, History, FreshSuccess;
      StepKeeps(Abs(), Finish(c, ok));
      ProbeFacts(Abs(), c);
      ReadyIsFresh(Apply(Abs(), Finish(c, ok)));
      var stale := generation != gen;
      if !stale {
        ready := ok;
      }
      if waitC == Some(ch) {
        closed := closed + {ch};
        waitC := None;
      }
      probing := false;
      past := past + [if ok then Succeeded(ch) else Failed(ch)];
      next := if !ok then Error else if stale then Again else Nil;
      callers := callers[c := if !ok then Returned(false) else if stale then Looking else Returned(true)];
    }
  }
}
