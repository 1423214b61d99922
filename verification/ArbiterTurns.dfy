/** Equal transports over whole runs: of two that ask for the same thing, the one in front goes first. */
module ArbiterTurns {
  import opened Wrappers
  import opened ArbiterModel
  import opened ArbiterProtocol
  import opened ArbiterOrder
  import opened ArbiterRuns
  import opened ArbiterLeases

  /** The same class, scope and channel. */
  predicate AsksTheSame(t: Ticket, f: Ticket) {
    t.leaseType == Transport && f.leaseType == Transport && t.class_ == f.class_ && t.scope == f.scope && t.channel == f.channel
  }

  /** While f waits only tickets of old get ahead of it. */
  lemma {:induction false} StaysInFront(r: Run, i: nat, n: nat, f: Ticket, before: set<nat>)
    requires IsRun(r) && i <= n < |r.states|
    requires FencedBy(r.states[i].queue, f, before) && Waits(r.states[i], f.id) && Waits(r.states[n], f.id)
    ensures FencedBy(r.states[n].queue, f, before)
  {
    hide Inv, FencedBy, Apply;
    if i < n {
      EveryStateInv(r, n - 1);
      assert IsStep(r.states[n - 1], r.labels[n - 1], r.times[n - 1], r.states[n]);
      WaitsThroughout(r, i, n - 1, n, f.id);
      StaysInFront(r, i, n - 1, f, before);
      FenceStays(r.states[n - 1], r.labels[n - 1], r.times[n - 1], f, before);
    }
  }

  /** In one section: a lease that starts behind f for the same thing is of a ticket that has aged
      and is stamped before f, which has not. */
  lemma PassedInOneSection(s: State, l: Label, now: int, f: Ticket, before: set<nat>, id: nat)
    requires Inv(s) && Enabled(s, l, now) && FencedBy(s.queue, f, before)
    requires var s' := Apply(s, l, now); f.id in s'.life && s'.life[f.id] == Waiting
    requires !HoldsLease(s, id) && HoldsLease(Apply(s, l, now), id) && id !in before
    ensures var a := FindActive(Apply(s, l, now), id, Transport);
            a.Some? && AsksTheSame(a.value.ticket, f) ==>
              a.value.ticket.enqueued <= now - PRIORITY_AGING < f.enqueued && f.class_ != USIM_AKA
  {
    hide Inv, Grantable, Grant;
    var m, k := LeaseStarts(s, l, now, id);
    if l.Arrive? {
      FencedAppend(s.queue, f, before, l.ticket);
    }
    StartedIsFound(s, l, now, m, k);
    var t, p := m.queue[k], IndexOf(m.queue, f.id);
    if t.leaseType == Transport && AsksTheSame(t, f) {
      NotItself(s, l, now, m, k, f);
      EqualTransportsInOrder(m, now, p, k);
    }
  }

  /** The ticket that was granted is no longer waiting. */
  lemma {:induction false} NotItself(s: State, l: Label, now: int, m: State, k: nat, f: Ticket)
    requires k < |m.queue| && Apply.requires(s, l, now) && Apply(s, l, now) == Grant(m, k, now)
    requires m.queue[k].leaseType != Barrier
    requires f.id in Apply(s, l, now).life && Apply(s, l, now).life[f.id] == Waiting
    ensures m.queue[k].id != f.id
  {
    hide Apply;
  }

  /** The lease that starts is the granted ticket's, under its own type and no other. */
  lemma StartedIsFound(s: State, l: Label, now: int, m: State, k: nat)
    requires Inv(s) && Enabled(s, l, now) && k < |m.queue| && m.queue[k].leaseType != Barrier
    requires !HoldsLease(s, m.queue[k].id) && Apply(s, l, now) == Grant(m, k, now)
    requires (l.Wake? && m == s.(clock := now)) || (l.Arrive? && m == Enqueue(s.(clock := now), l.ticket))
    ensures var a, t := FindActive(Apply(s, l, now), m.queue[k].id, Transport), m.queue[k];
            a == if t.leaseType == Transport then Some(Active(t, now, now + m.cfg.maxHold)) else None
  {
    hide InvDuring, Apply, Enabled, ListsTracked, Exclusion, Parkings, Conservation;
    var t, s' := m.queue[k], Apply(s, l, now);
    StepKeepsInv(s, l, now);
    InvTracksLists(s);
    InvTracksLists(s');
    if FindActive(s', t.id, Transport).Some? {
      ActiveIsHolding(s', t.id, Transport);
    }
    if t.leaseType == Transport {
      if FindActive(s, t.id, Transport).Some? {
        ActiveIsHolding(s, t.id, Transport);
      }
      assert FindActive(m, t.id, Transport) == FindActive(s, t.id, Transport);
      GrantIsFound(m, k, now);
    }
  }

  lemma InvTracksLists(s: State)
    requires Inv(s)
    ensures ListsTracked(s)
  {
  }

  /** Over every run: while a transport f waits, a lease of a ticket behind it that asks for the same
      class, scope and channel starts only if that ticket has aged at the time and f, stamped later,
      has not. With stamps in queue order, then, equal transports start in queue order; and
      authentications always do. */
  lemma EqualTransportsKeepOrder(r: Run, i: nat, n: nat, j: nat, p: nat, id: nat)
    requires IsRun(r) && i <= n < j < |r.states| && p < |r.states[i].queue|
    requires Waits(r.states[j], r.states[i].queue[p].id)
    requires !HoldsLease(r.states[n], id) && HoldsLease(r.states[n + 1], id)
    requires id !in IdsAhead(r.states[i].queue, p)
    ensures var f, a := r.states[i].queue[p], FindActive(r.states[n + 1], id, Transport);
            a.Some? && AsksTheSame(a.value.ticket, f) ==>
              a.value.ticket.enqueued <= r.times[n] - PRIORITY_AGING < f.enqueued && f.class_ != USIM_AKA
  {
    hide Inv, Apply, HoldsLease, FindActive, AsksTheSame;
    var q := r.states[i].queue;
    var f, before := q[p], IdsAhead(q, p);
    EveryStateInv(r, i);
    InvIdentity(r.states[i]);
    QueuedIsWaiting(r.states[i], p);
    WaitsThroughout(r, i, n, j, f.id);
    WaitsThroughout(r, i, n + 1, j, f.id);
    StaysInFront(r, i, n, f, before);
    EveryStateInv(r, n);
    assert IsStep(r.states[n], r.labels[n], r.times[n], r.states[n + 1]);
    PassedInOneSection(r.states[n], r.labels[n], r.times[n], f, before, id);
  }

  lemma InvIdentity(s: State)
    requires Inv(s)
    ensures Identity(s)
  {
  }
}
