/** Whole runs of the arbiter: any number of goroutines, any interleaving of their locked sections. */
module ArbiterRuns {
  import opened ArbiterModel
  import opened ArbiterProtocol
  import opened ArbiterOrder

  datatype Run = Run(states: seq<State>, labels: seq<Label>, times: seq<int>)

  ghost predicate IsStep(s: State, l: Label, now: int, s': State) {
    Enabled(s, l, now) && s' == Apply(s, l, now)
  }

  ghost predicate IsRun(r: Run) {
    && |r.states| == |r.labels| + 1 && |r.times| == |r.labels|
    && (exists cfg: Config, now: int :: cfg.Valid() && r.states[0] == Init(cfg, now))
    && (forall i :: 0 <= i < |r.labels| ==> IsStep(r.states[i], r.labels[i], r.times[i], r.states[i + 1]))
  }

  /** Every reachable state keeps identity, exclusion, conservation and the wake-up invariant. */
  lemma {:induction false} EveryStateInv(r: Run, i: nat)
    requires IsRun(r) && i < |r.states|
    ensures Inv(r.states[i])
  {
    hide InvDuring;
    if i == 0 {
      var cfg: Config, now: int :| cfg.Valid() && r.states[0] == Init(cfg, now);
      InitInv(cfg, now);
    } else {
      EveryStateInv(r, i - 1);
      assert IsStep(r.states[i - 1], r.labels[i - 1], r.times[i - 1], r.states[i]);
      StepKeepsInv(r.states[i - 1], r.labels[i - 1], r.times[i - 1]);
    }
  }

  // ---------------------------------------------------------------- lives

  function Rank(p: Phase): nat {
    match p case Drawn => 0 case Waiting => 1 case Holding(_) => 2 case Done => 3
  }

  ghost predicate Later(p: Phase, q: Phase) {
    p == q || Rank(p) < Rank(q)
  }

  lemma CheckLives(s: State, i: nat, now: int, id: nat)
    requires Identity(s) && IndexOf(s.queue, i) < |s.queue| && id in s.life
    ensures id in Check(s, i, now).life && Later(s.life[id], Check(s, i, now).life[id])
  {
    hide Identity, Grantable;
    QueuedIsWaiting(s, IndexOf(s.queue, i));
  }

  lemma {:induction false} DropLives(s: State, i: nat, lt: LeaseType, id: nat)
    requires Identity(s) && id in s.life && FindActive(s, i, lt).Some?
    ensures id in DropActive(s, i, lt).life && Later(s.life[id], DropActive(s, i, lt).life[id])
  {
    hide ListsTracked;
    ActiveIsHolding(s, i, lt);
  }

  /** No section sends an id back to an earlier phase or forgets it. */
  lemma StepLives(s: State, l: Label, now: int, id: nat)
    requires Inv(s) && Enabled(s, l, now) && id in s.life
    ensures id in Apply(s, l, now).life
    ensures Later(s.life[id], Apply(s, l, now).life[id])
  {
    hide Exclusion, Parkings, Conservation, ListsTracked, AllOfType, AllWellFormed, Check, DropActive;
    var c := s.(clock := now);
    SameIdentity(s, c);
    match l
    case Draw =>
    case Arrive(t) =>
      IndexOfLast(c.queue, t);
      EnqueueKeepsIdentity(c, t);
      CheckLives(Enqueue(c, t), t.id, now, id);
    case Wake(i) => CheckLives(c, i, now, id);
    case Cancel(i) => WithdrawMoves(c, i);
    case Release(i, lt) =>
      if FindActive(c, i, lt).Some? { DropLives(c, i, lt, id); }
    case Touch(_, _) =>
    case Expire(i, lt) =>
      if FindActive(c, i, lt).Some? { DropLives(c, i, lt, id); }
    case LeaveBarrier(i) =>
      if IndexOf(c.barriers, i) < |c.barriers| { EndBarrierMoves(c, i); }
  }

  lemma {:induction false} PhasesOnlyAdvance(r: Run, i: nat, j: nat, id: nat)
    requires IsRun(r) && i <= j < |r.states| && id in r.states[i].life
    ensures id in r.states[j].life && Later(r.states[i].life[id], r.states[j].life[id])
  {
    hide Inv, Enabled, Apply;
    if i < j {
      PhasesOnlyAdvance(r, i, j - 1, id);
      EveryStateInv(r, j - 1);
      assert IsStep(r.states[j - 1], r.labels[j - 1], r.times[j - 1], r.states[j]);
      StepLives(r.states[j - 1], r.labels[j - 1], r.times[j - 1], id);
    }
  }

  // ---------------------------------------------------------------- nobody overtakes a fence

  ghost predicate HoldsLease(s: State, id: nat) {
    id in s.life && s.life[id].Holding? && s.life[id].leaseType != Barrier
  }

  /** A lease starts only in the check of an arriving or woken goroutine. */
  lemma LeaseStarts(s: State, l: Label, now: int, id: nat) returns (m: State, k: nat)
    requires Inv(s) && Enabled(s, l, now)
    requires !HoldsLease(s, id) && HoldsLease(Apply(s, l, now), id)
    ensures (l.Wake? && m == s.(clock := now)) || (l.Arrive? && m == Enqueue(s.(clock := now), l.ticket))
    ensures k < |m.queue| && m.queue[k].id == id && m.queue[k].leaseType != Barrier
    ensures Grantable(m, now, k)
    ensures Apply(s, l, now) == Grant(m, k, now)
  {
    hide Inv, Grantable;
    var c := s.(clock := now);
    match l
    case Arrive(t) =>
      IndexOfLast(c.queue, t);
      m, k := Enqueue(c, t), IndexOf(Enqueue(c, t).queue, t.id);
    case Wake(i) =>
      m, k := c, IndexOf(c.queue, i);
    case Draw => assert false;
    case Cancel(i) => assert false;
    case Release(i, lt) => assert false;
    case Touch(i, lt) => assert false;
    case Expire(i, lt) => assert false;
    case LeaveBarrier(i) => assert false;
  }

  /** Ticket f is queued and every ticket ahead of it is one of old. */
  predicate FencedBy(q: seq<Ticket>, f: Ticket, before: set<nat>) {
    var p := IndexOf(q, f.id);
    p < |q| && q[p] == f && forall k :: 0 <= k < p ==> q[k].id in before
  }

  lemma FencedAppend(q: seq<Ticket>, f: Ticket, before: set<nat>, t: Ticket)
    requires FencedBy(q, f, before)
    ensures FencedBy(q + [t], f, before)
  {
    var q', p := q + [t], IndexOf(q, f.id);
    FirstIndex(q', f.id, p);
  }

  lemma FencedRemove(q: seq<Ticket>, f: Ticket, before: set<nat>, k: nat)
    requires FencedBy(q, f, before) && k < |q| && k != IndexOf(q, f.id)
    ensures FencedBy(RemoveAt(q, k), f, before)
  {
    var q', p := RemoveAt(q, k), IndexOf(q, f.id);
    var p' := if k < p then p - 1 else p;
    FirstIndex(q', f.id, p');
  }

  /** While f waits, a section leaves only tickets of old ahead of it. */
  lemma FenceStays(s: State, l: Label, now: int, f: Ticket, before: set<nat>)
    requires Inv(s) && Enabled(s, l, now) && FencedBy(s.queue, f, before)
    requires var s' := Apply(s, l, now); f.id in s'.life && s'.life[f.id] == Waiting
    ensures FencedBy(Apply(s, l, now).queue, f, before)
  {
    hide Inv, Grantable, FencedBy;
    var c := s.(clock := now);
    match l
    case Arrive(t) =>
      IndexOfLast(c.queue, t);
      FencedAppend(c.queue, f, before, t);
      CheckFenced(Enqueue(c, t), t.id, now, f, before);
    case Wake(i) => CheckFenced(c, i, now, f, before);
    case Cancel(i) => FencedRemove(c.queue, f, before, IndexOf(c.queue, i));
    case _ =>
  }

  lemma CheckFenced(s: State, id: nat, now: int, f: Ticket, before: set<nat>)
    requires IndexOf(s.queue, id) < |s.queue| && FencedBy(s.queue, f, before)
    requires var s' := Check(s, id, now); f.id in s'.life && s'.life[f.id] == Waiting
    ensures FencedBy(Check(s, id, now).queue, f, before)
  {
    hide Grantable;
    var k := IndexOf(s.queue, id);
    if Grantable(s, now, k) {
      FencedRemove(s.queue, f, before, k);
    }
  }

  /** While f is a fence and waits, a section starts no lease but one of old. */
  lemma FenceBlocks(s: State, l: Label, now: int, f: Ticket, before: set<nat>, id: nat)
    requires Inv(s) && Enabled(s, l, now) && FencedBy(s.queue, f, before) && Fence(s, f, now)
    requires var s' := Apply(s, l, now); f.id in s'.life && s'.life[f.id] == Waiting
    requires !HoldsLease(s, id) && HoldsLease(Apply(s, l, now), id)
    ensures id in before
  {
    hide Inv, Grantable;
    var m, k := LeaseStarts(s, l, now, id);
    if l.Arrive? {
      FencedAppend(s.queue, f, before, l.ticket);
    }
    var p := IndexOf(m.queue, f.id);
    assert Fence(m, f, now);
    if p < k {
      NoGrantBehindFence(m, now, p, k);
    }
  }

  /** Lease id starts in one of the sections i .. j-1 of the run. */
  ghost predicate StartsWithin(r: Run, i: nat, j: nat, id: nat)
    requires j < |r.states|
  {
    exists n :: i <= n < j && !HoldsLease(r.states[n], id) && HoldsLease(r.states[n + 1], id)
  }

  /** Ticket f stays a fence in every section i .. j-1: always, unless it is a transport. */
  ghost predicate StaysFence(r: Run, i: nat, j: nat, f: Ticket)
    requires j < |r.states|
  {
    f.leaseType != Transport || forall n :: i <= n < j ==> Fence(r.states[n], f, r.states[n].clock)
  }

  function IdsAhead(q: seq<Ticket>, p: nat): set<nat>
    requires p <= |q|
  {
    set k | 0 <= k < p :: q[k].id
  }

  ghost predicate Waits(s: State, id: nat) {
    id in s.life && s.life[id] == Waiting
  }

  lemma WaitsThroughout(r: Run, i: nat, n: nat, j: nat, id: nat)
    requires IsRun(r) && i <= n <= j < |r.states|
    requires Waits(r.states[i], id) && Waits(r.states[j], id)
    ensures Waits(r.states[n], id)
  {
    PhasesOnlyAdvance(r, i, n, id);
    PhasesOnlyAdvance(r, n, j, id);
  }

  lemma {:induction false} FenceAlongRun(r: Run, i: nat, j: nat, f: Ticket, before: set<nat>)
    requires IsRun(r) && i <= j < |r.states|
    requires FencedBy(r.states[i].queue, f, before) && StaysFence(r, i, j, f)
    requires Waits(r.states[i], f.id) && Waits(r.states[j], f.id)
    ensures FencedBy(r.states[j].queue, f, before)
    ensures forall id :: StartsWithin(r, i, j, id) ==> id in before
  {
    hide Inv, FencedBy, HoldsLease, Apply;
    if i < j {
      hide StartsWithin;
      var s, l, now := r.states[j - 1], r.labels[j - 1], r.times[j - 1];
      EveryStateInv(r, j - 1);
      assert IsStep(s, l, now, r.states[j]);
      WaitsThroughout(r, i, j - 1, j, f.id);
      FenceAlongRun(r, i, j - 1, f, before);
      FenceStays(s, l, now, f, before);
      assert Fence(s, f, now);
      forall id | StartsWithin(r, i, j, id) ensures id in before {
        if !StartsWithin(r, i, j - 1, id) {
          StartsLast(r, i, j, id);
          FenceBlocks(s, l, now, f, before, id);
        }
      }
    }
  }

  lemma StartsLast(r: Run, i: nat, j: nat, id: nat)
    requires i < j < |r.states| && StartsWithin(r, i, j, id) && !StartsWithin(r, i, j - 1, id)
    ensures !HoldsLease(r.states[j - 1], id) && HoldsLease(r.states[j], id)
  {
    hide HoldsLease;
    var n :| i <= n < j && !HoldsLease(r.states[n], id) && HoldsLease(r.states[n + 1], id);
  }

  /** No overtaking, over every run: while a barrier, session, one-shot, or an aged unblocked
      exclusive transport outside the AKA class waits in the queue, the only leases that start
      are of tickets that were ahead of it. */
  lemma NoOvertaking(r: Run, i: nat, j: nat, p: nat)
    requires IsRun(r) && i <= j < |r.states| && p < |r.states[i].queue|
    requires StaysFence(r, i, j, r.states[i].queue[p])
    requires Waits(r.states[j], r.states[i].queue[p].id)
    ensures forall id :: StartsWithin(r, i, j, id) ==> id in IdsAhead(r.states[i].queue, p)
  {
    hide Exclusion, Parkings, IsRun;
    var q := r.states[i].queue;
    EveryStateInv(r, i);
    QueuedIsWaiting(r.states[i], p);
    FenceAlongRun(r, i, j, q[p], IdsAhead(q, p));
  }

  /** No id starts a lease twice. */
  lemma StartsOnce(r: Run, m: nat, n: nat, id: nat)
    requires IsRun(r) && m < n < |r.labels|
    requires !HoldsLease(r.states[m], id) && HoldsLease(r.states[m + 1], id)
    ensures HoldsLease(r.states[n], id) || !HoldsLease(r.states[n + 1], id)
  {
    PhasesOnlyAdvance(r, m + 1, n, id);
    PhasesOnlyAdvance(r, n, n + 1, id);
  }

  lemma IdsAheadSize(q: seq<Ticket>, p: nat)
    requires p <= |q|
    ensures |IdsAhead(q, p)| <= p
  {
    if p > 0 {
      IdsAheadSize(q, p - 1);
      assert IdsAhead(q, p) == IdsAhead(q, p - 1) + {q[p - 1].id};
    }
  }

  /** A barrier that still waits after the section that enqueued it is last in the queue. */
  lemma {:induction false} WaitingArrivalIsLast(s: State, t: Ticket, now: int)
    requires Inv(s) && Enabled(s, Arrive(t), now) && t.leaseType == Barrier
    requires Waits(Apply(s, Arrive(t), now), t.id)
    ensures Apply(s, Arrive(t), now).queue == s.queue + [t]
    ensures forall id :: HoldsLease(Apply(s, Arrive(t), now), id) ==> HoldsLease(s, id)
  {
    hide Inv, Grantable;
    var m := Enqueue(s.(clock := now), t);
    IndexOfLast(s.queue, t);
    assert !Grantable(m, now, IndexOf(m.queue, t.id));
  }

  /** Bounded barrier wait: between the section that enqueues a barrier and any later state in
      which it still waits, at most as many leases start as were queued when it arrived. */
  lemma BarrierWaitIsBounded(r: Run, e: nat, j: nat, started: set<nat>)
    requires IsRun(r) && e < j < |r.states| && r.labels[e].Arrive?
    requires r.labels[e].ticket.leaseType == Barrier && Waits(r.states[j], r.labels[e].ticket.id)
    requires forall id :: id in started ==> StartsWithin(r, e, j, id)
    ensures started <= IdsAhead(r.states[e].queue, |r.states[e].queue|)
    ensures |started| <= |r.states[e].queue|
  {
    hide Inv, Apply, HoldsLease, Fence;
    var s, t, s' := r.states[e], r.labels[e].ticket, r.states[e + 1];
    assert IsStep(s, Arrive(t), r.times[e], s');
    EveryStateInv(r, e);
    StepToWaiting(r, e, j, t);
    WaitingArrivalIsLast(s, t, r.times[e]);
    var p := |s.queue|;
    assert s'.queue[p] == t;
    assert forall k :: 0 <= k < p ==> s'.queue[k].id == s.queue[k].id;
    assert IdsAhead(s'.queue, p) == IdsAhead(s.queue, p);
    NoOvertaking(r, e + 1, j, p);
    forall id | id in started ensures id in IdsAhead(s.queue, p) {
      var n :| e <= n < j && !HoldsLease(r.states[n], id) && HoldsLease(r.states[n + 1], id);
      assert StartsWithin(r, e + 1, j, id);
    }
    IdsAheadSize(s.queue, p);
    SubsetSize(started, IdsAhead(s.queue, p));
  }

  lemma SubsetSize(a: set<nat>, b: set<nat>)
    requires a <= b
    ensures |a| <= |b|
  {
    assert b == a + (b - a);
  }

  /** A ticket waiting later was waiting right after it arrived. */
  lemma StepToWaiting(r: Run, e: nat, j: nat, t: Ticket)
    requires IsRun(r) && e < j < |r.states| && r.labels[e] == Arrive(t) && Waits(r.states[j], t.id)
    ensures Waits(r.states[e + 1], t.id)
  {
    hide Inv;
    assert IsStep(r.states[e], r.labels[e], r.times[e], r.states[e + 1]);
    IndexOfLast(r.states[e].queue, t);
    PhasesOnlyAdvance(r, e + 1, j, t.id);
  }
}
