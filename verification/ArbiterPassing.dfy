/** Exactly when a lease may be granted behind a transport that waits. */
module ArbiterPassing {
  import opened ArbiterModel
  import opened ArbiterProtocol
  import opened ArbiterOrder
  import opened ArbiterRuns
  import opened ArbiterTurns

  /** Tickets outside the AKA class that have waited 500 ms come before authentications, those before the
      others. */
  function Urgency(t: Ticket, now: int): nat {
    if t.class_ == "USIMAKA" then 1 else if now - t.enqueued >= 500_000_000 then 2 else 0
  }

  /** Transport f lets t pass: it is blocked by a barrier, or it could run but is less urgent than t, or
      it cannot run and does not gate the queue. */
  predicate MayPass(s: State, now: int, f: Ticket, t: Ticket) {
    && f.leaseType == Transport
    && (BlockedBy(s.barriers, f.class_)
        || if CanRun(s.cfg, Tickets(s.transports), f) then Urgency(f, now) < Urgency(t, now)
           else !Gates(s.cfg, Tickets(s.transports), f))
  }

  // ---------------------------------------------------------------- the choice as an order

  lemma {:induction false} AgedIsUrgent(s: State, now: int, k: nat)
    ensures EligibleAged(s, now, k) <==> Eligible(s, k) && Urgency(s.queue[k], now) == 2
    ensures EligibleAKA(s, k) <==> Eligible(s, k) && Urgency(s.queue[k], now) == 1
  {
    hide Eligible;
  }

  /** Among the transports that could run the choice is the most urgent, and of those the first. */
  ghost predicate Best(s: State, now: int, k: nat) {
    && Eligible(s, k)
    && forall j: nat :: Eligible(s, j) ==>
         Urgency(s.queue[j], now) < Urgency(s.queue[k], now) || (Urgency(s.queue[j], now) == Urgency(s.queue[k], now) && k <= j)
  }

  lemma {:induction false} BestIsSelected(s: State, now: int, k: nat)
    requires Best(s, now, k)
    ensures Selected(s, now, k)
  {
    hide Scanned, CanRun, BlockedBy, EligibleAged, EligibleAKA, Urgency;
    forall j: nat
      ensures EligibleAged(s, now, j) <==> Eligible(s, j) && Urgency(s.queue[j], now) == 2
      ensures EligibleAKA(s, j) <==> Eligible(s, j) && Urgency(s.queue[j], now) == 1
    {
      AgedIsUrgent(s, now, j);
    }
    UrgencyRange(s.queue[k], now);
  }

  lemma UrgencyRange(t: Ticket, now: int)
    ensures Urgency(t, now) <= 2
  {
  }

  /** The three-step search is that order. */
  lemma {:induction false} SelectedIsBest(s: State, now: int, k: nat)
    ensures Selected(s, now, k) <==> Best(s, now, k)
  {
    if Selected(s, now, k) {
      hide Eligible, Urgency;
      SelectedIsEligible(s, now, k);
      forall j: nat | Eligible(s, j)
        ensures Urgency(s.queue[j], now) < Urgency(s.queue[k], now) || (Urgency(s.queue[j], now) == Urgency(s.queue[k], now) && k <= j)
      {
        hide EligibleAged, EligibleAKA;
        AgedIsUrgent(s, now, j);
        AgedIsUrgent(s, now, k);
        UrgencyRange(s.queue[j], now);
        UrgencyRange(s.queue[k], now);
      }
    }
    if Best(s, now, k) {
      BestIsSelected(s, now, k);
    }
  }

  // ---------------------------------------------------------------- passing in one state

  lemma {:induction false} PassingScans(s: State, now: int, k: nat)
    requires k < |s.queue| && forall j :: 0 <= j < k ==> MayPass(s, now, s.queue[j], s.queue[k])
    ensures Scanned(s, k)
  {
  }

  /** Nothing ahead of a candidate ends the search, so what is ahead is a candidate if it could run. */
  lemma {:induction false} AheadOfCandidate(s: State, j: nat, k: nat)
    requires j < k <= |s.queue| && Scanned(s, k)
    ensures s.queue[j].leaseType == Transport && !Stops(s, s.queue[j])
    ensures Eligible(s, j) <==> !BlockedBy(s.barriers, s.queue[j].class_) && CanRun(s.cfg, Tickets(s.transports), s.queue[j])
  {
    assert !Stops(s, s.queue[j]);
  }

  /** A transport may be granted if and only if no session or one-shot is active, it is not blocked, it
      could run, it may pass every ticket ahead of it, and no candidate behind it is more urgent. */
  lemma {:induction false} TransportGrantableIff(s: State, now: int, k: nat)
    requires k < |s.queue| && s.queue[k].leaseType == Transport
    ensures Grantable(s, now, k) <==>
      && s.sessions == [] && s.oneshot.None?
      && !BlockedBy(s.barriers, s.queue[k].class_) && CanRun(s.cfg, Tickets(s.transports), s.queue[k])
      && (forall j :: 0 <= j < k ==> MayPass(s, now, s.queue[j], s.queue[k]))
      && (forall j: nat :: k < j && Eligible(s, j) ==> Urgency(s.queue[j], now) <= Urgency(s.queue[k], now))
  {
    hide CanRun, Gates, BlockedBy, Urgency, Selected;
    SelectedIsBest(s, now, k);
    if Best(s, now, k) {
      forall j | 0 <= j < k ensures MayPass(s, now, s.queue[j], s.queue[k]) {
        AheadOfCandidate(s, j, k);
      }
    }
    if !BlockedBy(s.barriers, s.queue[k].class_) && CanRun(s.cfg, Tickets(s.transports), s.queue[k])
       && (forall j :: 0 <= j < k ==> MayPass(s, now, s.queue[j], s.queue[k]))
       && (forall j: nat :: k < j && Eligible(s, j) ==> Urgency(s.queue[j], now) <= Urgency(s.queue[k], now))
    {
      PassingScans(s, now, k);
      forall j: nat | Eligible(s, j)
        ensures Urgency(s.queue[j], now) < Urgency(s.queue[k], now) || (Urgency(s.queue[j], now) == Urgency(s.queue[k], now) && k <= j)
      {
        if j < k {
          assert MayPass(s, now, s.queue[j], s.queue[k]);
          AheadOfCandidate(s, j, k);
        }
      }
    }
  }

  /** A lease granted behind any ticket is a transport's, and the ticket lets it pass. */
  lemma {:induction false} GrantedMayPass(s: State, now: int, f: nat, k: nat)
    requires f < k < |s.queue| && s.queue[k].leaseType != Barrier && Grantable(s, now, k)
    ensures s.queue[k].leaseType == Transport && MayPass(s, now, s.queue[f], s.queue[k])
  {
    hide MayPass;
    TransportGrantableIff(s, now, k);
  }

  // ---------------------------------------------------------------- walls

  /** A ticket that no lease behind it may pass: any but a transport; and a transport that is not blocked
      and either could run and has aged outside the AKA class, or cannot run and gates the queue. */
  predicate Wall(s: State, now: int, f: Ticket) {
    || f.leaseType != Transport
    || (!BlockedBy(s.barriers, f.class_)
        && if CanRun(s.cfg, Tickets(s.transports), f) then Urgency(f, now) == 2 else Gates(s.cfg, Tickets(s.transports), f))
  }

  /** Walls are exactly the tickets that let nobody pass. */
  lemma {:induction false} WallIff(s: State, now: int, f: Ticket)
    ensures Wall(s, now, f) <==> forall t: Ticket :: !MayPass(s, now, f, t)
  {
    hide CanRun, Gates, BlockedBy;
    var aged := f.(class_ := EUICC_WRITE, enqueued := now - PRIORITY_AGING);
    assert Urgency(aged, now) == 2;
    if !Wall(s, now, f) {
      assert MayPass(s, now, f, aged);
    }
  }

  /** Every fence is a wall; an unaged transport or an authentication that cannot run and gates the queue
      is a wall that is no fence. */
  lemma FenceIsWall(s: State, now: int, f: Ticket)
    requires Fence(s, f, now)
    ensures Wall(s, now, f)
  {
  }

  // ---------------------------------------------------------------- passing over runs

  /** MayPass asks only for the barriers, the active transports and the limits. */
  lemma SamePassing(s: State, m: State, now: int, f: Ticket, t: Ticket)
    requires m.cfg == s.cfg && m.barriers == s.barriers && m.transports == s.transports
    ensures MayPass(m, now, f, t) == MayPass(s, now, f, t)
  {
  }

  /** In one section: a lease that starts behind f is one f lets pass. */
  lemma {:induction false} StartedMayPass(s: State, l: Label, now: int, f: Ticket, before: set<nat>, id: nat)
    requires Inv(s) && Enabled(s, l, now) && FencedBy(s.queue, f, before)
    requires var s' := Apply(s, l, now); f.id in s'.life && s'.life[f.id] == Waiting
    requires !HoldsLease(s, id) && HoldsLease(Apply(s, l, now), id) && id !in before
    ensures var a := FindActive(Apply(s, l, now), id, Transport);
            a.Some? && MayPass(s, now, f, a.value.ticket)
  {
    hide Inv, Grantable, Grant, MayPass;
    var m, k := LeaseStarts(s, l, now, id);
    if l.Arrive? {
      FencedAppend(s.queue, f, before, l.ticket);
    }
    StartedIsFound(s, l, now, m, k);
    NotItself(s, l, now, m, k, f);
    var p := IndexOf(m.queue, f.id);
    assert p < k;
    GrantedMayPass(m, now, p, k);
    SamePassing(s, m, now, f, m.queue[k]);
  }

  /** Passing over every run: while a ticket waits, a lease that is not of a ticket that was ahead of it
      starts only as a transport that the waiting ticket, as things stand in that section, lets pass. */
  lemma {:induction false} OnlyPassersStart(r: Run, i: nat, n: nat, j: nat, p: nat, id: nat)
    requires IsRun(r) && i <= n < j < |r.states| && p < |r.states[i].queue|
    requires Waits(r.states[j], r.states[i].queue[p].id)
    requires !HoldsLease(r.states[n], id) && HoldsLease(r.states[n + 1], id)
    requires id !in IdsAhead(r.states[i].queue, p)
    ensures var f, a := r.states[i].queue[p], FindActive(r.states[n + 1], id, Transport);
            a.Some? && MayPass(r.states[n], r.times[n], f, a.value.ticket)
  {
    hide Inv, Apply, HoldsLease, FindActive, MayPass;
    var q := r.states[i].queue;
    var f, before := q[p], IdsAhead(q, p);
    EveryStateInv(r, i);
    InvIdentity(r.states[i]);
    QueuedIsWaiting(r.states[i], p);
    WaitsThroughout(r, i, n, j, f.id);
    WaitsThroughout(r, i, n + 1, j, f.id);
    StaysInFront(r, i, n, f, before);
    EveryStateInv(r, n);
    assert IsStep(r.states[n], r.labels[n], r.times[n], r.states[n + 1]);
    StartedMayPass(r.states[n], r.labels[n], r.times[n], f, before, id);
  }

  /** No overtaking of walls: while a ticket waits and is a wall in every section, the only leases that
      start are of tickets that were ahead of it. */
  lemma {:induction false} NobodyPassesAWall(r: Run, i: nat, j: nat, p: nat)
    requires IsRun(r) && i <= j < |r.states| && p < |r.states[i].queue|
    requires Waits(r.states[j], r.states[i].queue[p].id)
    requires forall n :: i <= n < j ==> Wall(r.states[n], r.times[n], r.states[i].queue[p])
    ensures forall id :: StartsWithin(r, i, j, id) ==> id in IdsAhead(r.states[i].queue, p)
  {
    hide Wall, MayPass, HoldsLease, IsStep, FindActive;
    var q := r.states[i].queue;
    forall id | StartsWithin(r, i, j, id) ensures id in IdsAhead(q, p) {
      var n :| i <= n < j && !HoldsLease(r.states[n], id) && HoldsLease(r.states[n + 1], id);
      if id !in IdsAhead(q, p) {
        OnlyPassersStart(r, i, n, j, p, id);
        WallIff(r.states[n], r.times[n], q[p]);
      }
    }
  }
}
