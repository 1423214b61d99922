/** Who may go before whom: what the choice of the next ticket promises about queue order,
    ageing, progress and wake-ups, in any single state. */
module ArbiterOrder {
  import opened ArbiterModel
  import opened ArbiterProtocol

  lemma First(p: nat -> bool, k: nat) returns (m: nat)
    requires p(k)
    ensures m <= k && p(m) && forall j: nat :: j < m ==> !p(j)
  {
    m := k;
    if j: nat :| j < k && p(j) {
      m := First(p, j);
    }
  }

  // ---------------------------------------------------------------- the transport choice

  /** As soon as one transport could run, exactly one is selected. */
  lemma SomeSelected(s: State, now: int, k: nat) returns (m: nat)
    requires Eligible(s, k)
    ensures Selected(s, now, m)
    ensures forall i: nat :: Selected(s, now, i) ==> i == m
  {
    if j: nat :| EligibleAged(s, now, j) {
      var p := (i: nat) => EligibleAged(s, now, i);
      m := First(p, j);
      assert forall i: nat :: EligibleAged(s, now, i) == p(i);
      assert FirstAged(s, now, m);
    } else if j: nat :| EligibleAKA(s, j) {
      var p := (i: nat) => EligibleAKA(s, i);
      m := First(p, j);
      assert forall i: nat :: EligibleAKA(s, i) == p(i);
      assert FirstAKA(s, m);
    } else {
      var p := (i: nat) => Eligible(s, i);
      m := First(p, k);
      assert forall i: nat :: Eligible(s, i) == p(i);
      assert FirstEligible(s, m);
    }
    forall i: nat | Selected(s, now, i) ensures i == m {
      SelectedUnique(s, now, i, m);
    }
  }

  lemma SelectedIsEligible(s: State, now: int, k: nat)
    requires Selected(s, now, k)
    ensures k < |s.queue| && Eligible(s, k)
  {
  }

  lemma {:induction false} SelectedUnique(s: State, now: int, i: nat, k: nat)
    requires Selected(s, now, i) && Selected(s, now, k)
    ensures i == k
  {
    if FirstAged(s, now, i) {
      assert !NoneAged(s, now);
    } else if FirstAKA(s, i) {
      assert !NoneAKA(s);
    }
  }

  /** A ticket that no lease behind it may pass at time now: every session, one-shot and barrier,
      and every aged, unblocked exclusive transport outside the AKA class. */
  predicate Fence(s: State, t: Ticket, now: int) {
    || t.leaseType != Transport
    || (&& t.scope == Exclusive && t.class_ != USIM_AKA && now - t.enqueued >= PRIORITY_AGING
        && !BlockedBy(s.barriers, t.class_))
  }

  /** No lease is granted while a fence is queued ahead of it. */
  lemma NoGrantBehindFence(s: State, now: int, f: nat, k: nat)
    requires f < k < |s.queue| && Fence(s, s.queue[f], now)
    requires s.queue[k].leaseType != Barrier
    ensures !Grantable(s, now, k)
  {
    if Grantable(s, now, k) {
      assert Eligible(s, k);
      assert !Stops(s, s.queue[f]);
      assert CanRun(s.cfg, Tickets(s.transports), s.queue[f]);
      assert EligibleAged(s, now, f);
    }
  }

  /** A transport passes an earlier one of the same class, scope and channel only by having
      aged while the earlier one, stamped later, has not. */
  lemma EqualTransportsInOrder(s: State, now: int, i: nat, k: nat)
    requires i < k < |s.queue| && Grantable(s, now, k)
    requires s.queue[i].leaseType == Transport && s.queue[k].leaseType == Transport
    requires s.queue[i].scope == s.queue[k].scope && s.queue[i].channel == s.queue[k].channel
    requires s.queue[i].class_ == s.queue[k].class_
    ensures s.queue[k].enqueued <= now - PRIORITY_AGING < s.queue[i].enqueued
    ensures s.queue[k].class_ != USIM_AKA
  {
    assert Eligible(s, k);
    assert !Stops(s, s.queue[i]);
    assert CanRun(s.cfg, Tickets(s.transports), s.queue[i]);
    assert Eligible(s, i);
    if !FirstAged(s, now, k) {
      assert s.queue[i].class_ == USIM_AKA ==> EligibleAKA(s, i);
    }
    assert !EligibleAged(s, now, i);
  }

  // ---------------------------------------------------------------- progress

  /** Once every lease is gone, the tickets that can go. */
  ghost predicate CanGo(s: State, k: nat)
    requires k < |s.queue|
  {
    || s.queue[k].leaseType == Barrier
    || (&& !BlockedBy(s.barriers, s.queue[k].class_)
        && if s.queue[k].leaseType == Transport
           then forall j :: 0 <= j <= k ==> s.queue[j].leaseType == Transport
           else k == 0)
  }

  lemma {:induction false} NothingActiveScans(s: State, k: nat)
    requires s.cfg.Valid() && s.transports == [] && k < |s.queue| && CanGo(s, k)
    requires s.queue[k].leaseType == Transport
    ensures Eligible(s, k)
  {
    assert Tickets(s.transports) == [];
    forall j | 0 <= j < k ensures !Stops(s, s.queue[j]) {
      assert CanRun(s.cfg, [], s.queue[j]);
    }
    assert CanRun(s.cfg, [], s.queue[k]);
  }

  /** With no lease active, some ticket may be granted exactly when some ticket can go at all:
      a queued barrier, an unblocked session or one-shot at the head, or an unblocked transport
      with only transports before it. */
  lemma NoStuckState(s: State, now: int)
    requires s.cfg.Valid() && LeaseFree(s)
    ensures (exists k :: 0 <= k < |s.queue| && Grantable(s, now, k))
       <==> (exists k :: 0 <= k < |s.queue| && CanGo(s, k))
  {
    if k :| 0 <= k < |s.queue| && CanGo(s, k) {
      if s.queue[k].leaseType == Barrier {
        var p := (i: nat) => i < |s.queue| && s.queue[i].leaseType == Barrier;
        var m := First(p, k);
        forall i | 0 <= i < m ensures s.queue[i].leaseType != Barrier {
          assert !p(i);
        }
        assert FirstBarrier(s.queue, m) && Grantable(s, now, m);
      } else if s.queue[k].leaseType == Transport {
        NothingActiveScans(s, k);
        var m := SomeSelected(s, now, k);
        assert Grantable(s, now, m);
      } else {
        assert Grantable(s, now, k);
      }
    }
    if k :| 0 <= k < |s.queue| && Grantable(s, now, k) {
      if s.queue[k].leaseType == Transport {
        assert Eligible(s, k);
        assert forall j :: 0 <= j < k ==> !Stops(s, s.queue[j]);
      }
      assert CanGo(s, k);
    }
  }

  /** In particular, with neither lease nor barrier active a non-empty queue is never stuck. */
  lemma IdleCardGrantsSomeone(s: State, now: int) returns (k: nat)
    requires s.cfg.Valid() && LeaseFree(s) && s.barriers == [] && s.queue != []
    ensures k < |s.queue| && Grantable(s, now, k)
  {
    assert CanGo(s, 0);
    NoStuckState(s, now);
    k :| k < |s.queue| && Grantable(s, now, k);
  }

  // ---------------------------------------------------------------- wake-ups

  /** Ticket k became the oldest aged candidate only after its goroutine was parked at time at. */
  ghost predicate AgedSince(s: State, at: int, now: int, k: nat)
    requires k < |s.queue|
  {
    && s.queue[k].leaseType == Transport && s.sessions == [] && s.oneshot.None?
    && FirstAged(s, now, k)
    && at - s.queue[k].enqueued < PRIORITY_AGING
  }

  /** In an unchanged state only the clock can turn a refusal into a grant, and it does so exactly
      for a transport that crossed the ageing threshold in between. */
  lemma OnlyAgeingGrants(s: State, at: int, now: int, k: nat)
    requires k < |s.queue| && at <= now && !Grantable(s, at, k)
    ensures Grantable(s, now, k) <==> AgedSince(s, at, now, k)
  {
    if Grantable(s, now, k) {
      assert Selected(s, now, k);
      if FirstAged(s, now, k) {
        if at - s.queue[k].enqueued >= PRIORITY_AGING {
          assert EligibleAged(s, at, k);
          assert forall j: nat :: EligibleAged(s, at, j) ==> EligibleAged(s, now, j);
          assert FirstAged(s, at, k);
        }
      } else {
        assert forall j: nat :: EligibleAged(s, at, j) ==> EligibleAged(s, now, j);
        assert NoneAged(s, at);
        assert Selected(s, at, k);
      }
    }
  }

  /** A waiter on the current notification channel whose ticket may nevertheless be granted:
      this happens exactly when its transport aged after its last check. */
  lemma ParkedAndGrantable(s: State, now: int, k: nat)
    requires Inv(s) && s.clock <= now && k < |s.queue|
    requires s.queue[k].id in s.parked && s.parked[s.queue[k].id].epoch == s.epoch
    ensures Grantable(s, now, k) <==> AgedSince(s, s.parked[s.queue[k].id].at, now, k)
  {
    hide Identity, Exclusion, Grantable, AgedSince;
    assert RefusedWhenParked(s, k);
    OnlyAgeingGrants(s, s.parked[s.queue[k].id].at, now, k);
  }

  /** An idle card with waiters always has a waiter that is awake and will be granted, unless a
      transport aged while its goroutine slept on the current channel. */
  lemma SomeoneAwakeIsGranted(s: State, now: int) returns (k: nat)
    requires Inv(s) && s.clock <= now && LeaseFree(s) && s.barriers == [] && s.queue != []
    ensures k < |s.queue| && Grantable(s, now, k) && s.queue[k].id in s.parked
    ensures Enabled(s, Wake(s.queue[k].id), now) || AgedSince(s, s.parked[s.queue[k].id].at, now, k)
  {
    hide Grantable, AgedSince, Exclusion, RefusedWhenParked;
    k := IdleCardGrantsSomeone(s, now);
    QueuedIsWaiting(s, k);
    if s.parked[s.queue[k].id].epoch == s.epoch {
      ParkedAndGrantable(s, now, k);
    }
  }
}
