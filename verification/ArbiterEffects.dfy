/** What each locked section does to the arbiter, field by field, and that an overdue lease is forced out. */
module ArbiterEffects {
  import opened Wrappers
  import opened ArbiterModel
  import opened ArbiterProtocol
  import opened ArbiterRuns
  import opened ArbiterLeases

  // ---------------------------------------------------------------- leases and where they are found

  predicate Lists(s: State, lt: LeaseType, a: Active) {
    match lt
    case Session => a in s.sessions
    case OneShot => s.oneshot == Some(a)
    case Transport => a in s.transports
    case Barrier => false
  }

  /** A lease is found exactly where it is listed. */
  lemma {:induction false} FoundWhereListed(s: State, id: nat, lt: LeaseType, a: Active)
    requires Inv(s)
    ensures FindActive(s, id, lt) == Some(a) <==> (a.ticket.id == id && Lists(s, lt, a))
  {
    hide Exclusion, Parkings, Conservation;
    match lt {
      case Session => FoundInList(s, s.sessions, id, lt, a);
      case Transport => FoundInList(s, s.transports, id, lt, a);
      case _ =>
    }
  }

  lemma {:induction false} FoundInList(s: State, list: seq<Active>, id: nat, lt: LeaseType, a: Active)
    requires ListsTracked(s) && (lt == Session || lt == Transport)
    requires list == if lt == Session then s.sessions else s.transports
    ensures FindActive(s, id, lt) == Some(a) <==> a.ticket.id == id && a in list
  {
    assert Tracked(ListOf(s, Holding(lt)), Holding(lt), s.life);
    var q := Tickets(list);
    if a in list && a.ticket.id == id {
      var k :| 0 <= k < |list| && list[k] == a;
      IndexOfUnique(q, k);
    }
  }

  /** after is before without the element at k. */
  ghost predicate Without<T>(after: seq<T>, before: seq<T>, k: nat) {
    k < |before| && after == before[..k] + before[k + 1..]
  }

  // ---------------------------------------------------------------- the watchdog and the releases

  /** The watchdog: an active lease whose deadline has come is found no more, counted as forced, ended,
      and everybody is woken; every other lease is found as before and nothing else changes. In any other
      case only the clock does. */
  lemma {:induction false} ExpiryIsExact(s: State, id: nat, lt: LeaseType, now: int)
    requires Inv(s) && Enabled(s, Expire(id, lt), now)
    ensures var s', a := Apply(s, Expire(id, lt), now), FindActive(s, id, lt);
            if a.Some? && now >= a.value.expiresAt then
              && FindActive(s', id, lt) == None && s'.life == s.life[id := Done]
              && s'.forced == s.forced + 1 && s'.epoch == s.epoch + 1 && s'.clock == now
              && (forall other, lt' :: other != id || lt' != lt ==> FindActive(s', other, lt') == FindActive(s, other, lt'))
              && s'.queue == s.queue && s'.barriers == s.barriers && s'.parked == s.parked && s'.cfg == s.cfg
              && s'.waitRequests == s.waitRequests && s'.acquires == s.acquires && s'.waitTimeouts == s.waitTimeouts
            else s' == s.(clock := now)
  {
    hide Exclusion, Parkings, ListsTracked, AllOfType, AllWellFormed, FindActive;
    var c, s' := s.(clock := now), Apply(s, Expire(id, lt), now);
    SameIdentity(s, c);
    forall other, lt' ensures FindActive(c, other, lt') == FindActive(s, other, lt') {
      SameLeases(s, c, other, lt');
    }
    if FindActive(s, id, lt).Some? && now >= FindActive(s, id, lt).value.expiresAt {
      Dropped(c, id, lt, s');
    }
  }

  lemma {:induction false} Dropped(c: State, id: nat, lt: LeaseType, s': State)
    requires Identity(c) && FindActive(c, id, lt).Some?
    requires var d := DropActive(c, id, lt); s'.sessions == d.sessions && s'.oneshot == d.oneshot && s'.transports == d.transports
    ensures FindActive(s', id, lt) == None
    ensures forall other, lt' :: other != id || lt' != lt ==> FindActive(s', other, lt') == FindActive(c, other, lt')
  {
    hide FindActive, DropActive, Identity;
    DroppedIsGone(c, id, lt);
    SameLeases(DropActive(c, id, lt), s', id, lt);
    forall other, lt' | other != id || lt' != lt ensures FindActive(s', other, lt') == FindActive(c, other, lt') {
      DropSparesOthers(c, id, lt, other, lt');
      SameLeases(DropActive(c, id, lt), s', other, lt');
    }
  }

  /** A release: the active lease it names is found no more and everybody is woken, and that is all; a
      lease that is not active is none of its business. */
  lemma {:induction false} ReleaseEffect(s: State, id: nat, lt: LeaseType, now: int)
    requires Inv(s) && Enabled(s, Release(id, lt), now)
    ensures var s' := Apply(s, Release(id, lt), now);
            if FindActive(s, id, lt).Some? then
              && FindActive(s', id, lt) == None && s'.life == s.life[id := Done]
              && s'.epoch == s.epoch + 1 && s'.clock == now && s'.forced == s.forced
              && (forall other, lt' :: other != id || lt' != lt ==> FindActive(s', other, lt') == FindActive(s, other, lt'))
              && s'.queue == s.queue && s'.barriers == s.barriers && s'.parked == s.parked && s'.cfg == s.cfg
              && s'.waitRequests == s.waitRequests && s'.acquires == s.acquires && s'.waitTimeouts == s.waitTimeouts
            else s' == s.(clock := now)
  {
    hide Exclusion, Parkings, ListsTracked, AllOfType, AllWellFormed, FindActive;
    var c, s' := s.(clock := now), Apply(s, Release(id, lt), now);
    SameIdentity(s, c);
    forall other, lt' ensures FindActive(c, other, lt') == FindActive(s, other, lt') {
      SameLeases(s, c, other, lt');
    }
    if FindActive(s, id, lt).Some? {
      Dropped(c, id, lt, s');
    }
  }

  /** A touch moves the deadline of the active lease it names a full hold time ahead and changes nothing
      else. */
  lemma {:induction false} TouchEffect(s: State, id: nat, lt: LeaseType, now: int)
    requires Inv(s) && Enabled(s, Touch(id, lt), now)
    ensures var s', a := Apply(s, Touch(id, lt), now), FindActive(s, id, lt);
            && FindActive(s', id, lt) == (if a.Some? then Some(a.value.(expiresAt := now + s.cfg.maxHold)) else None)
            && (forall other, lt' :: other != id || lt' != lt ==> FindActive(s', other, lt') == FindActive(s, other, lt'))
            && s' == s.(clock := now, sessions := s'.sessions, oneshot := s'.oneshot, transports := s'.transports)
  {
    var c, s' := s.(clock := now), Apply(s, Touch(id, lt), now);
    hide Inv;
    forall other, lt' | other != id || lt' != lt ensures FindActive(s', other, lt') == FindActive(s, other, lt') {
      RefreshSparesOthers(c, id, lt, now, other, lt');
      SameLeases(s, c, other, lt');
    }
    SameLeases(s, c, id, lt);
    if FindActive(s, id, lt).Some? {
      RefreshIsFound(c, id, lt, now);
    }
  }

  lemma {:induction false} RefreshIsFound(c: State, id: nat, lt: LeaseType, now: int)
    requires FindActive(c, id, lt).Some?
    ensures FindActive(Refresh(c, id, lt, now), id, lt) == Some(FindActive(c, id, lt).value.(expiresAt := now + c.cfg.maxHold))
  {
    RefreshSameTickets(c, id, lt, now, Holding(Session));
    RefreshSameTickets(c, id, lt, now, Holding(Transport));
    var s' := Refresh(c, id, lt, now);
    assert Tickets(s'.sessions) == Tickets(c.sessions) && Tickets(s'.transports) == Tickets(c.transports);
  }

  lemma {:induction false} RefreshSparesOthers(c: State, id: nat, lt: LeaseType, now: int, other: nat, lt': LeaseType)
    requires other != id || lt' != lt
    ensures FindActive(Refresh(c, id, lt, now), other, lt') == FindActive(c, other, lt')
  {
    RefreshSameTickets(c, id, lt, now, Holding(Session));
    RefreshSameTickets(c, id, lt, now, Holding(Transport));
    var s' := Refresh(c, id, lt, now);
    assert Tickets(s'.sessions) == Tickets(c.sessions) && Tickets(s'.transports) == Tickets(c.transports);
  }

  // ---------------------------------------------------------------- the queue and the barriers

  /** Giving up takes exactly that ticket out of the queue, counts a time-out and wakes everybody. */
  lemma {:induction false} CancelEffect(s: State, id: nat, k: nat, now: int)
    requires Inv(s) && Enabled(s, Cancel(id), now) && k < |s.queue| && s.queue[k].id == id
    ensures var s' := Apply(s, Cancel(id), now);
            && Without(s'.queue, s.queue, k) && s'.waitTimeouts == s.waitTimeouts + 1 && s'.epoch == s.epoch + 1
            && s'.life == s.life[id := Done] && s'.parked == s.parked - {id}
            && s' == s.(clock := now, queue := s'.queue, waitTimeouts := s'.waitTimeouts, epoch := s'.epoch, life := s'.life,
                        parked := s'.parked)
  {
    hide Exclusion, Parkings;
    QueuedIsWaiting(s, k);
  }

  /** Leaving takes exactly that barrier out of the active ones and wakes everybody; a barrier that is not
      active is left alone. */
  lemma {:induction false} LeaveEffect(s: State, id: nat, now: int)
    requires Inv(s) && Enabled(s, LeaveBarrier(id), now)
    ensures var s' := Apply(s, LeaveBarrier(id), now);
            && (forall k: nat :: k < |s.barriers| && s.barriers[k].id == id ==>
                  && Without(s'.barriers, s.barriers, k) && s'.epoch == s.epoch + 1 && s'.life == s.life[id := Done]
                  && s' == s.(clock := now, barriers := s'.barriers, epoch := s'.epoch, life := s'.life))
            && ((forall k :: 0 <= k < |s.barriers| ==> s.barriers[k].id != id) ==> s' == s.(clock := now))
  {
    hide Exclusion, Parkings;
    assert Tracked(ListOf(s, Holding(Barrier)), Holding(Barrier), s.life);
    forall k: nat | k < |s.barriers| && s.barriers[k].id == id ensures IndexOf(s.barriers, id) == k {
      IndexOfUnique(s.barriers, k);
    }
  }

  /** The ticket at k leaves queue m and holds its lease or barrier: that is listed last with the grant's
      time and a full hold time to go, acquires is one higher and everybody is woken. */
  ghost predicate Granted(m: State, k: nat, now: int, s': State) {
    && k < |m.queue|
    && var t := m.queue[k];
       && Without(s'.queue, m.queue, k) && s'.acquires == m.acquires + 1 && s'.epoch == m.epoch + 1
       && s'.parked == m.parked - {t.id} && s'.life == m.life[t.id := Holding(t.leaseType)]
       && s'.sessions == (if t.leaseType == Session then m.sessions + [Active(t, now, now + m.cfg.maxHold)] else m.sessions)
       && s'.oneshot == (if t.leaseType == OneShot then Some(Active(t, now, now + m.cfg.maxHold)) else m.oneshot)
       && s'.transports == (if t.leaseType == Transport then m.transports + [Active(t, now, now + m.cfg.maxHold)] else m.transports)
       && s'.barriers == (if t.leaseType == Barrier then m.barriers + [t] else m.barriers)
       && s'.waitRequests == m.waitRequests && s'.waitTimeouts == m.waitTimeouts && s'.forced == m.forced
       && s'.cfg == m.cfg && s'.seqNo == m.seqNo && s'.clock == m.clock
  }

  lemma {:induction false} CheckEffect(m: State, id: nat, k: nat, now: int)
    requires IndexOf(m.queue, id) == k < |m.queue|
    ensures var s', t := Check(m, id, now), m.queue[k];
            if Grantable(m, now, k) then Granted(m, k, now, s') else s' == m.(parked := m.parked[id := Parking(m.epoch, now)])
  {
    hide IndexOf, Grantable;
  }

  /** A sleeper that wakes takes its lease or barrier if it may, and otherwise sleeps again on the channel of
      now. */
  lemma {:induction false} WakeEffect(s: State, id: nat, k: nat, now: int)
    requires Inv(s) && Enabled(s, Wake(id), now) && k < |s.queue| && s.queue[k].id == id
    ensures var s', m := Apply(s, Wake(id), now), s.(clock := now);
            if Grantable(m, now, k) then Granted(m, k, now, s')
            else s' == m.(parked := s.parked[id := Parking(s.epoch, now)])
  {
    hide Exclusion, Parkings, Grantable, Granted, Check;
    QueuedIsWaiting(s, k);
    CheckEffect(s.(clock := now), id, k, now);
  }

  /** An arriving ticket goes to the end of the queue, is counted, wakes everybody, and then takes its lease or
      barrier if it may, and otherwise sleeps on the channel opened by its arrival. */
  lemma {:induction false} ArriveEffect(s: State, t: Ticket, now: int)
    requires Inv(s) && Enabled(s, Arrive(t), now)
    ensures var s', m := Apply(s, Arrive(t), now),
                         s.(clock := now, queue := s.queue + [t], waitRequests := s.waitRequests + 1, epoch := s.epoch + 1,
                            life := s.life[t.id := Waiting]);
            if Grantable(m, now, |s.queue|) then Granted(m, |s.queue|, now, s')
            else s' == m.(parked := s.parked[t.id := Parking(s.epoch + 1, now)])
  {
    hide Exclusion, Parkings, Grantable, Granted, Check, ListsTracked;
    NewIsLast(s, t);
    CheckEffect(Enqueue(s.(clock := now), t), t.id, |s.queue|, now);
  }

  lemma {:induction false} NewIsLast(s: State, t: Ticket)
    requires Identity(s) && t.id in s.life && s.life[t.id] == Drawn
    ensures IndexOf(s.queue + [t], t.id) == |s.queue|
  {
    var q := s.queue + [t];
    forall j | 0 <= j < |s.queue| ensures q[j].id != t.id {
      QueuedIsWaiting(s, j);
    }
    FirstIndex(q, t.id, |s.queue|);
  }

  /** Drawing gives the next number and touches nothing else. */
  lemma {:induction false} DrawEffect(s: State, now: int)
    requires Enabled(s, Draw, now)
    ensures Apply(s, Draw, now) == s.(clock := now, seqNo := s.seqNo + 1, life := s.life[s.seqNo + 1 := Drawn])
  {
  }

  // ---------------------------------------------------------------- overdue leases go, over runs

  /** The lease is active with deadline d, or it has ended. */
  ghost predicate DueBy(s: State, id: nat, lt: LeaseType, d: int) {
    && id in s.life && (s.life[id] == Done || (s.life[id] == Holding(lt) && FindActive(s, id, lt).Some?
                                              && FindActive(s, id, lt).value.expiresAt == d))
  }

  lemma {:induction false} HoldingIsFound(s: State, id: nat, lt: LeaseType)
    requires Inv(s) && id in s.life && lt != Barrier
    ensures s.life[id] == Holding(lt) <==> FindActive(s, id, lt).Some?
  {
    hide Exclusion, Parkings;
    assert Tracked(ListOf(s, Holding(lt)), Holding(lt), s.life);
    if FindActive(s, id, lt).Some? {
      ActiveIsHolding(s, id, lt);
    }
  }

  /** A lease that stays active without being touched keeps its deadline. */
  lemma {:induction false} UntouchedKeepsDeadline(s: State, l: Label, now: int, id: nat, lt: LeaseType)
    requires Inv(s) && Enabled(s, l, now) && l != Touch(id, lt)
    requires FindActive(s, id, lt).Some? && FindActive(Apply(s, l, now), id, lt).Some?
    ensures FindActive(Apply(s, l, now), id, lt) == FindActive(s, id, lt)
  {
    hide Inv, FindActive, Granted, Grantable;
    var s', c := Apply(s, l, now), s.(clock := now);
    match l {
      case Draw => SameLeases(s, s', id, lt);
      case Cancel(i) => CancelKeepsLeases(s, i, now); SameLeases(s, s', id, lt);
      case LeaveBarrier(i) => SameLeases(s, s', id, lt);
      case Release(i, lt') => hide Apply; ReleaseEffect(s, i, lt', now); SameLeases(s, s.(clock := now), id, lt);
      case Expire(i, lt') => hide Apply; ExpiryIsExact(s, i, lt', now); SameLeases(s, s.(clock := now), id, lt);
      case Touch(i, lt') => hide Apply; TouchEffect(s, i, lt', now);
      case Wake(i) =>
        hide Apply;
        var k := IndexOf(s.queue, i);
        WakeEffect(s, i, k, now);
        OneShotNeedsAFreeCard(c, now, k);
        GrantKeepsLeases(s, c, k, now, s', id, lt);
      case Arrive(t) =>
        hide Apply;
        ArriveEffect(s, t, now);
        var m := s.(clock := now, queue := s.queue + [t], waitRequests := s.waitRequests + 1, epoch := s.epoch + 1,
                    life := s.life[t.id := Waiting]);
        OneShotNeedsAFreeCard(m, now, |s.queue|);
        GrantKeepsLeases(s, m, |s.queue|, now, s', id, lt);
    }
  }

  lemma {:induction false} CancelKeepsLeases(s: State, id: nat, now: int)
    requires Enabled(s, Cancel(id), now)
    ensures var s' := Apply(s, Cancel(id), now); s'.sessions == s.sessions && s'.oneshot == s.oneshot && s'.transports == s.transports
  {
  }

  lemma {:induction false} GrantKeepsLeases(s: State, m: State, k: nat, now: int, s': State, id: nat, lt: LeaseType)
    requires Inv(s) && m.sessions == s.sessions && m.oneshot == s.oneshot && m.transports == s.transports
    requires FindActive(s, id, lt).Some? && k < |m.queue|
    requires Granted(m, k, now, s') || (s'.sessions == s.sessions && s'.oneshot == s.oneshot && s'.transports == s.transports)
    requires m.queue[k].leaseType == OneShot ==> s.oneshot == None || s'.oneshot == s.oneshot
    ensures FindActive(s', id, lt) == FindActive(s, id, lt)
  {
    hide Inv;
    if Granted(m, k, now, s') {
      var t := m.queue[k];
      var a := Active(t, now, now + m.cfg.maxHold);
      TicketsAppend(s.sessions, a);
      TicketsAppend(s.transports, a);
      IndexAfterAppend(Tickets(s.sessions), t, id);
      IndexAfterAppend(Tickets(s.transports), t, id);
    } else {
      SameLeases(s, s', id, lt);
    }
  }

  lemma {:induction false} OneShotNeedsAFreeCard(m: State, now: int, k: nat)
    requires k < |m.queue|
    ensures m.queue[k].leaseType == OneShot && Grantable(m, now, k) ==> m.oneshot == None
  {
  }

  lemma {:induction false} DueStays(s: State, l: Label, now: int, id: nat, lt: LeaseType, d: int)
    requires Inv(s) && Enabled(s, l, now) && l != Touch(id, lt) && lt != Barrier && DueBy(s, id, lt, d)
    ensures DueBy(Apply(s, l, now), id, lt, d)
  {
    hide Inv, Apply, FindActive, Enabled;
    StepLives(s, l, now, id);
    StepKeepsInv(s, l, now);
    HoldingIsFound(Apply(s, l, now), id, lt);
    if FindActive(s, id, lt).Some? && FindActive(Apply(s, l, now), id, lt).Some? {
      UntouchedKeepsDeadline(s, l, now, id, lt);
    }
  }

  lemma {:induction false} DueAlongRun(r: Run, i: nat, j: nat, id: nat, lt: LeaseType, d: int)
    requires IsRun(r) && i <= j < |r.states| && lt != Barrier && DueBy(r.states[i], id, lt, d)
    requires forall k :: i <= k < j ==> r.labels[k] != Touch(id, lt)
    ensures DueBy(r.states[j], id, lt, d)
  {
    hide Inv, Apply, DueBy, Enabled;
    if i < j {
      DueAlongRun(r, i, j - 1, id, lt, d);
      EveryStateInv(r, j - 1);
      assert IsStep(r.states[j - 1], r.labels[j - 1], r.times[j - 1], r.states[j]);
      DueStays(r.states[j - 1], r.labels[j - 1], r.times[j - 1], id, lt, d);
    }
  }

  /** A lease that starts has a full hold time to go. */
  lemma {:induction false} StartSetsDue(s: State, l: Label, now: int, id: nat, lt: LeaseType)
    requires Inv(s) && Enabled(s, l, now) && FindActive(s, id, lt).None? && FindActive(Apply(s, l, now), id, lt).Some?
    ensures DueBy(Apply(s, l, now), id, lt, now + s.cfg.maxHold)
  {
    hide InvDuring, Apply, Enabled, Grantable;
    var s' := Apply(s, l, now);
    StepKeepsInv(s, l, now);
    InvLists(s');
    ActiveIsHolding(s', id, lt);
    if id in s.life {
      HoldingIsFound(s, id, lt);
      StepLives(s, l, now, id);
    }
    var m, k := LeaseStarts(s, l, now, id);
    assert s'.life[id] == Holding(m.queue[k].leaseType);
    SameLeases(s, m, id, lt);
    GrantIsFound(m, k, now);
  }

  lemma {:induction false} InvLists(s: State)
    requires Inv(s)
    ensures ListsTracked(s)
  {
  }

  lemma {:induction false} SignSetsDue(s: State, l: Label, now: int, id: nat, lt: LeaseType)
    requires Inv(s) && Enabled(s, l, now)
    requires (FindActive(s, id, lt).None? && FindActive(Apply(s, l, now), id, lt).Some?) || (l == Touch(id, lt) && FindActive(s, id, lt).Some?)
    ensures lt != Barrier && DueBy(Apply(s, l, now), id, lt, now + s.cfg.maxHold)
  {
    hide Inv, Apply, Enabled;
    if FindActive(s, id, lt).None? {
      StartSetsDue(s, l, now, id, lt);
    } else {
      InvLists(s);
      ActiveIsHolding(s, id, lt);
      TouchEffect(s, id, lt, now);
    }
  }

  /** Over every run: when the watchdog of a lease fires at least MaxLeaseHold after the lease was granted and
      after its last touch, the lease is not active any more. */
  lemma {:induction false} OverdueGoes(r: Run, i: nat, j: nat, id: nat, lt: LeaseType)
    requires IsRun(r) && i < j < |r.labels| && SignOfLife(r, i, id, lt)
    requires forall k :: i < k < j ==> r.labels[k] != Touch(id, lt)
    requires r.labels[j] == Expire(id, lt) && r.times[j] >= r.times[i] + r.states[0].cfg.maxHold
    ensures FindActive(r.states[j + 1], id, lt) == None
    ensures id in r.states[j + 1].life && r.states[j + 1].life[id] == Done
  {
    hide Inv, Apply, FindActive, Enabled;
    var d := r.times[i] + r.states[0].cfg.maxHold;
    EveryStateInv(r, i);
    EveryStateInv(r, j);
    EveryStateInv(r, j + 1);
    ConfigConstant(r, i);
    assert IsStep(r.states[i], r.labels[i], r.times[i], r.states[i + 1]);
    SignSetsDue(r.states[i], r.labels[i], r.times[i], id, lt);
    DueAlongRun(r, i + 1, j, id, lt, d);
    assert IsStep(r.states[j], r.labels[j], r.times[j], r.states[j + 1]);
    HoldingIsFound(r.states[j], id, lt);
    ExpiryIsExact(r.states[j], id, lt, r.times[j]);
    StepLives(r.states[j], r.labels[j], r.times[j], id);
    HoldingIsFound(r.states[j + 1], id, lt);
  }
}
