/** What a lease holder can rely on: a release removes only its own lease, however late it
    comes, and the watchdog never acts before the full hold time since the last sign of life. */
module ArbiterLeases {
  import opened Wrappers
  import opened ArbiterModel
  import opened ArbiterProtocol
  import opened ArbiterRuns

  // ---------------------------------------------------------------- one lease does not disturb another

  lemma IndexAfterRemove(q: seq<Ticket>, k: nat, id: nat)
    requires k < |q| && q[k].id != id
    ensures var p := IndexOf(q, id);
            IndexOf(RemoveAt(q, k), id) == if p == |q| then |q| - 1 else if k < p then p - 1 else p
  {
    var p, q' := IndexOf(q, id), RemoveAt(q, k);
    if p < |q| {
      FirstIndex(q', id, if k < p then p - 1 else p);
    } else {
      AbsentIndex(q', id);
    }
  }

  /** The leases other than id are found exactly as before id was dropped. */
  lemma DropSparesOthers(s: State, id: nat, lt: LeaseType, other: nat, lt': LeaseType)
    requires FindActive(s, id, lt).Some? && (other != id || lt' != lt)
    ensures FindActive(DropActive(s, id, lt), other, lt') == FindActive(s, other, lt')
  {
    hide Tickets, IndexOf;
    if lt' == lt == Session {
      TicketsRemove(s.sessions, ActiveIndex(s.sessions, id));
      IndexAfterRemove(Tickets(s.sessions), ActiveIndex(s.sessions, id), other);
    } else if lt' == lt == Transport {
      TicketsRemove(s.transports, ActiveIndex(s.transports, id));
      IndexAfterRemove(Tickets(s.transports), ActiveIndex(s.transports, id), other);
    }
  }

  /** A release removes the lease it names, if that is active, and no other. */
  lemma ReleaseIsExact(s: State, id: nat, lt: LeaseType, other: nat, lt': LeaseType)
    requires Inv(s)
    ensures FindActive(ReleaseLease(s, id, lt), other, lt') ==
            if other == id && lt' == lt then None else FindActive(s, other, lt')
  {
    hide Exclusion, Parkings, ListsTracked, AllOfType, AllWellFormed;
    if FindActive(s, id, lt).Some? {
      SameLeases(DropActive(s, id, lt), ReleaseLease(s, id, lt), other, lt');
      if other == id && lt' == lt {
        DroppedIsGone(s, id, lt);
      } else {
        DropSparesOthers(s, id, lt, other, lt');
      }
    }
  }

  lemma DroppedIsGone(s: State, id: nat, lt: LeaseType)
    requires Identity(s) && FindActive(s, id, lt).Some?
    ensures FindActive(DropActive(s, id, lt), id, lt).None?
  {
    hide ListsTracked;
    DropKeepsIdentity(s, id, lt);
    if FindActive(DropActive(s, id, lt), id, lt).Some? {
      ActiveIsHolding(DropActive(s, id, lt), id, lt);
    }
  }

  /** A lease that has been released, expired or cancelled once is never active again, so a
      release that comes late changes nothing. */
  lemma LateReleaseChangesNothing(r: Run, i: nat, j: nat, id: nat, lt: LeaseType)
    requires IsRun(r) && i <= j < |r.states|
    requires id in r.states[i].life && r.states[i].life[id] == Done
    ensures ReleaseLease(r.states[j], id, lt) == r.states[j]
  {
    hide Exclusion, Parkings, IsRun;
    EveryStateInv(r, j);
    PhasesOnlyAdvance(r, i, j, id);
    if FindActive(r.states[j], id, lt).Some? {
      ActiveIsHolding(r.states[j], id, lt);
    }
  }

  // ---------------------------------------------------------------- the watchdog

  /** If the lease is active it will not be forced out before time d. */
  predicate SafeUntil(s: State, id: nat, lt: LeaseType, d: int) {
    FindActive(s, id, lt).Some? ==> FindActive(s, id, lt).value.expiresAt >= d
  }

  lemma IndexAfterAppend(q: seq<Ticket>, t: Ticket, id: nat)
    ensures IndexOf(q, id) < |q| ==> IndexOf(q + [t], id) == IndexOf(q, id)
    ensures IndexOf(q, id) == |q| ==> IndexOf(q + [t], id) == |q| + if t.id == id then 0 else 1
  {
    var q', p := q + [t], IndexOf(q, id);
    if p < |q| || t.id == id {
      FirstIndex(q', id, p);
    } else {
      AbsentIndex(q', id);
    }
  }

  /** The lease a grant hands out is found under its id and type. */
  lemma GrantIsFound(s: State, k: nat, now: int)
    requires k < |s.queue| && s.queue[k].leaseType != Barrier
    requires FindActive(s, s.queue[k].id, s.queue[k].leaseType).None?
    ensures FindActive(Grant(s, k, now), s.queue[k].id, s.queue[k].leaseType) ==
            Some(Active(s.queue[k], now, now + s.cfg.maxHold))
  {
    var t := s.queue[k];
    var a := Active(t, now, now + s.cfg.maxHold);
    TicketsAppend(s.sessions, a);
    TicketsAppend(s.transports, a);
    IndexAfterAppend(Tickets(s.sessions), t, t.id);
    IndexAfterAppend(Tickets(s.transports), t, t.id);
  }

  lemma AddKeepsSafe(s: State, t: Ticket, now: int, id: nat, lt: LeaseType, d: int)
    requires SafeUntil(s, id, lt, d) && d <= now + s.cfg.maxHold
    ensures SafeUntil(AddActive(s, t, now), id, lt, d)
  {
    hide IndexOf, Tickets;
    var a := Active(t, now, now + s.cfg.maxHold);
    if lt == Session {
      TicketsAppend(s.sessions, a);
      IndexAfterAppend(Tickets(s.sessions), t, id);
    } else if lt == Transport {
      TicketsAppend(s.transports, a);
      IndexAfterAppend(Tickets(s.transports), t, id);
    }
  }

  lemma CheckKeepsSafe(s: State, i: nat, now: int, id: nat, lt: LeaseType, d: int)
    requires IndexOf(s.queue, i) < |s.queue|
    requires SafeUntil(s, id, lt, d) && d <= now + s.cfg.maxHold
    ensures SafeUntil(Check(s, i, now), id, lt, d)
  {
    hide Grantable;
    var k := IndexOf(s.queue, i);
    if Grantable(s, now, k) {
      AddKeepsSafe(s, s.queue[k], now, id, lt, d);
      SameLeases(AddActive(s, s.queue[k], now), Grant(s, k, now), id, lt);
    }
  }

  lemma SameLeases(s: State, s': State, id: nat, lt: LeaseType)
    requires s'.sessions == s.sessions && s'.oneshot == s.oneshot && s'.transports == s.transports
    ensures FindActive(s', id, lt) == FindActive(s, id, lt)
  {
  }

  lemma DropKeepsSafe(s: State, i: nat, lt': LeaseType, id: nat, lt: LeaseType, d: int)
    requires Identity(s) && FindActive(s, i, lt').Some? && SafeUntil(s, id, lt, d)
    ensures SafeUntil(DropActive(s, i, lt'), id, lt, d)
  {
    if i == id && lt' == lt {
      DroppedIsGone(s, id, lt);
    } else {
      DropSparesOthers(s, i, lt', id, lt);
    }
  }

  lemma RefreshKeepsSafe(s: State, i: nat, lt': LeaseType, now: int, id: nat, lt: LeaseType, d: int)
    requires SafeUntil(s, id, lt, d) && d <= now + s.cfg.maxHold
    ensures SafeUntil(Refresh(s, i, lt', now), id, lt, d)
  {
    var s' := Refresh(s, i, lt', now);
    RefreshSameTickets(s, i, lt', now, Holding(Session));
    RefreshSameTickets(s, i, lt', now, Holding(Transport));
    assert Tickets(s'.sessions) == Tickets(s.sessions) && Tickets(s'.transports) == Tickets(s.transports);
  }

  lemma StepConfig(s: State, l: Label, now: int)
    requires Enabled(s, l, now)
    ensures Apply(s, l, now).cfg == s.cfg && Apply(s, l, now).clock == now
  {
    hide Grantable, FindActive;
    if l.Arrive? { IndexOfLast(s.queue, l.ticket); }
  }

  /** No section brings the deadline of a lease below a bound the clock has already earned. */
  lemma StepKeepsSafe(s: State, l: Label, now: int, id: nat, lt: LeaseType, d: int)
    requires Inv(s) && Enabled(s, l, now) && SafeUntil(s, id, lt, d) && d <= s.clock + s.cfg.maxHold
    ensures SafeUntil(Apply(s, l, now), id, lt, d)
    ensures Apply(s, l, now).cfg == s.cfg && Apply(s, l, now).clock == now
  {
    hide Exclusion, Parkings, Conservation, Grantable, SafeUntil, Check, DropActive, Refresh, ListsTracked, AllOfType, AllWellFormed;
    StepConfig(s, l, now);
    var c := s.(clock := now);
    SameIdentity(s, c);
    SameSafe(s, c, id, lt, d);
    match l
    case Draw => SameSafe(c, DrawId(c), id, lt, d);
    case Arrive(t) =>
      IndexOfLast(c.queue, t);
      SameSafe(c, Enqueue(c, t), id, lt, d);
      CheckKeepsSafe(Enqueue(c, t), t.id, now, id, lt, d);
    case Wake(i) => CheckKeepsSafe(c, i, now, id, lt, d);
    case Cancel(i) => SameSafe(c, Withdraw(c, i), id, lt, d);
    case Release(i, lt') =>
      if FindActive(c, i, lt').Some? {
        DropKeepsSafe(c, i, lt', id, lt, d);
        SameSafe(DropActive(c, i, lt'), ReleaseLease(c, i, lt'), id, lt, d);
      }
    case Touch(i, lt') => RefreshKeepsSafe(c, i, lt', now, id, lt, d);
    case Expire(i, lt') =>
      if FindActive(c, i, lt').Some? {
        DropKeepsSafe(c, i, lt', id, lt, d);
        if now >= FindActive(c, i, lt').value.expiresAt {
          SameSafe(DropActive(c, i, lt'), ExpireLease(c, i, lt', now), id, lt, d);
        }
      }
    case LeaveBarrier(i) => SameSafe(c, EndBarrier(c, i), id, lt, d);
  }

  lemma SameSafe(s: State, s': State, id: nat, lt: LeaseType, d: int)
    requires s'.sessions == s.sessions && s'.oneshot == s.oneshot && s'.transports == s.transports
    ensures SafeUntil(s', id, lt, d) == SafeUntil(s, id, lt, d)
  {
    SameLeases(s, s', id, lt);
  }

  /** Section i shows that the lease is alive: it starts there, or is touched while active. */
  ghost predicate SignOfLife(r: Run, i: nat, id: nat, lt: LeaseType)
    requires i + 1 < |r.states| && i < |r.labels|
  {
    || (FindActive(r.states[i], id, lt).None? && FindActive(r.states[i + 1], id, lt).Some?)
    || (r.labels[i] == Touch(id, lt) && FindActive(r.states[i], id, lt).Some?)
  }

  /** A lease that shows a sign of life is safe for the full hold time. */
  lemma SignOfLifeIsSafe(s: State, l: Label, now: int, id: nat, lt: LeaseType)
    requires Inv(s) && Enabled(s, l, now)
    requires FindActive(s, id, lt).None? || l == Touch(id, lt)
    ensures SafeUntil(Apply(s, l, now), id, lt, now + s.cfg.maxHold)
  {
    hide Inv;
    var c, d := s.(clock := now), now + s.cfg.maxHold;
    SameSafe(s, c, id, lt, d);
    if l == Touch(id, lt) {
      var s' := Refresh(c, id, lt, now);
      RefreshSameTickets(c, id, lt, now, Holding(Session));
      RefreshSameTickets(c, id, lt, now, Holding(Transport));
      assert Tickets(s'.sessions) == Tickets(c.sessions) && Tickets(s'.transports) == Tickets(c.transports);
    } else {
      NewLeaseIsSafe(s, l, now, id, lt, d);
    }
  }

  lemma NewLeaseIsSafe(s: State, l: Label, now: int, id: nat, lt: LeaseType, d: int)
    requires Inv(s) && Enabled(s, l, now) && FindActive(s, id, lt).None? && d <= now + s.cfg.maxHold
    ensures SafeUntil(Apply(s, l, now), id, lt, d)
  {
    hide Inv;
    var c := s.(clock := now);
    SameSafe(s, c, id, lt, c.clock + c.cfg.maxHold);
    ClockKeeps(s, now);
    assert SafeUntil(c, id, lt, d);
    StepKeepsSafe(c, l, now, id, lt, d);
    assert Apply(c, l, now) == Apply(s, l, now);
  }

  lemma {:induction false} SafeAlongRun(r: Run, i: nat, j: nat, id: nat, lt: LeaseType, d: int)
    requires IsRun(r) && i <= j < |r.states|
    requires SafeUntil(r.states[i], id, lt, d) && d <= r.states[i].clock + r.states[i].cfg.maxHold
    ensures SafeUntil(r.states[j], id, lt, d) && d <= r.states[j].clock + r.states[j].cfg.maxHold
    ensures r.states[j].cfg == r.states[i].cfg
  {
    hide Inv, SafeUntil, Apply;
    if i < j {
      SafeAlongRun(r, i, j - 1, id, lt, d);
      EveryStateInv(r, j - 1);
      assert IsStep(r.states[j - 1], r.labels[j - 1], r.times[j - 1], r.states[j]);
      StepKeepsSafe(r.states[j - 1], r.labels[j - 1], r.times[j - 1], id, lt, d);
    }
  }

  /** Over every run: the watchdog forces a lease out only when at least MaxLeaseHold has passed
      since it was granted and since every touch that found it active. */
  lemma ForcedReleaseIsLate(r: Run, i: nat, j: nat, id: nat, lt: LeaseType)
    requires IsRun(r) && i < j < |r.labels| && SignOfLife(r, i, id, lt)
    requires r.labels[j] == Expire(id, lt) && r.states[j + 1].forced > r.states[j].forced
    ensures r.times[j] >= r.times[i] + r.states[0].cfg.maxHold
  {
    hide Inv, SafeUntil, Apply, FindActive, Enabled;
    var d := r.times[i] + r.states[i].cfg.maxHold;
    EveryStateInv(r, i);
    assert IsStep(r.states[i], r.labels[i], r.times[i], r.states[i + 1]);
    SignOfLifeIsSafe(r.states[i], r.labels[i], r.times[i], id, lt);
    StepConfig(r.states[i], r.labels[i], r.times[i]);
    SafeAlongRun(r, i + 1, j, id, lt, d);
    ConfigConstant(r, i);
    assert IsStep(r.states[j], r.labels[j], r.times[j], r.states[j + 1]);
    ForcedMeansDue(r.states[j], id, lt, r.times[j], d);
  }

  lemma {:induction false} ConfigConstant(r: Run, i: nat)
    requires IsRun(r) && i < |r.states|
    ensures r.states[i].cfg == r.states[0].cfg
  {
    hide Inv, Apply;
    if i > 0 {
      ConfigConstant(r, i - 1);
      EveryStateInv(r, i - 1);
      assert IsStep(r.states[i - 1], r.labels[i - 1], r.times[i - 1], r.states[i]);
      StepConfig(r.states[i - 1], r.labels[i - 1], r.times[i - 1]);
    }
  }

  lemma ForcedMeansDue(s: State, id: nat, lt: LeaseType, now: int, d: int)
    requires Enabled(s, Expire(id, lt), now) && SafeUntil(s, id, lt, d)
    requires Apply(s, Expire(id, lt), now).forced > s.forced
    ensures now >= d
  {
    SameLeases(s, s.(clock := now), id, lt);
  }
}
