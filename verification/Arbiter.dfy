/** The arbiter itself: the fields behind the mutex and one method per locked section. Every
    section is proved to be the corresponding step of ArbiterModel.Apply. */
module ArbiterObject {
  import opened Wrappers
  import opened ArbiterModel
  import opened ArbiterProtocol
  import opened ArbiterOrder
  import opened ArbiterLeases
  import opened ArbiterRequests
  import opened ArbiterExclusion

  /** Stats; `first` is the kind of the queue's first ticket: whether it is a barrier. */
  datatype Stats = Stats(waitRequests: nat, acquires: nat, waitTimeouts: nat, forced: nat, queue: nat,
                         sessions: nat, oneshot: bool, transports: nat, barriers: nat, first: Option<bool>)

  class Arbiter {
    const cfg: Config
    var seqNo: nat
    var queue: seq<Ticket>
    var activeSessions: seq<Active>
    var activeOneshot: Option<Active>
    var activeTransports: seq<Active>
    var activeBarriers: seq<Ticket>
    /** The number of the current notification channel. */
    var notifyC: nat
    var waitRequests: nat
    var acquires: nat
    var waitTimeouts: nat
    var forcedReleases: nat

    /** Goroutines parked in select, the life of each id, and the latest clock reading. */
    ghost var parked: map<nat, Parking>
    ghost var life: map<nat, Phase>
    ghost var clock: int

    ghost function Abs(): State
      reads this
    {
      State(cfg, seqNo, queue, activeSessions, activeOneshot, activeTransports, activeBarriers, notifyC,
            waitRequests, acquires, waitTimeouts, forcedReleases, parked, life, clock)
    }

    ghost predicate Valid()
      reads this
    {
      Inv(Abs())
    }

    constructor (maxHold: int, maxSessions: int, maxQMI: int, now: int)
      ensures Abs() == Init(Defaults(maxHold, maxSessions, maxQMI), now)
      ensures Valid()
    {
      cfg := Defaults(maxHold, maxSessions, maxQMI);
      seqNo, queue, activeSessions, activeOneshot, activeTransports, activeBarriers := 0, [], [], None, [], [];
      notifyC, waitRequests, acquires, waitTimeouts, forcedReleases := 0, 0, 0, 0, 0;
      parked, life, clock := map[], map[], now;
      new;
      InitInv(cfg, now);
    }

    // -------------------------------------------------------------- scans that only read

    method IsBlockedByActiveBarrier(c: Class) returns (blocked: bool)
      ensures blocked <==> exists b :: 0 <= b < |activeBarriers| && c in activeBarriers[b].blocked
      ensures blocked == BlockedBy(activeBarriers, c)
    {
      for i := 0 to |activeBarriers|
        invariant forall b :: 0 <= b < i ==> c !in activeBarriers[b].blocked
      {
        if c in activeBarriers[i].blocked {
          return true;
        }
      }
      return false;
    }

    method HasPendingBarrierAhead(t: Ticket) returns (pending: bool)
      ensures pending <==> exists j :: 0 <= j < IndexOf(queue, t.id) && queue[j].leaseType == Barrier && t.class_ in queue[j].blocked
    {
      ghost var p := IndexOf(queue, t.id);
      for i := 0 to |queue|
        invariant i <= p
        invariant forall j :: 0 <= j < i ==> queue[j].leaseType != Barrier || t.class_ !in queue[j].blocked
      {
        if queue[i].id == t.id {
          return false;
        }
        if queue[i].leaseType == Barrier && t.class_ in queue[i].blocked {
          return true;
        }
      }
      return false;
    }

    method HasActiveExclusiveTransport() returns (found: bool)
      ensures found <==> exists a :: 0 <= a < |activeTransports| && activeTransports[a].ticket.scope == Exclusive
      ensures found == HasExclusive(Tickets(activeTransports))
    {
      for i := 0 to |activeTransports|
        invariant forall j :: 0 <= j < i ==> activeTransports[j].ticket.scope != Exclusive
      {
        if activeTransports[i].ticket.scope != QMIChannel {
          assert Tickets(activeTransports)[i].scope == Exclusive;
          return true;
        }
      }
      return false;
    }

    method ActiveQMITransportCount() returns (count: nat)
      ensures count == QMICount(Tickets(activeTransports))
    {
      ghost var ts := Tickets(activeTransports);
      count := 0;
      for i := 0 to |activeTransports|
        invariant count == QMICount(ts[..i])
      {
        assert ts[..i + 1][..i] == ts[..i];
        if activeTransports[i].ticket.scope == QMIChannel {
          count := count + 1;
        }
      }
      assert ts[..|ts|] == ts;
    }

    method HasActiveTransportOnChannel(channel: int) returns (found: bool)
      ensures found <==> exists a :: 0 <= a < |activeTransports| && activeTransports[a].ticket.scope == QMIChannel
                                     && activeTransports[a].ticket.channel == channel
      ensures found == OnChannel(Tickets(activeTransports), channel)
    {
      for i := 0 to |activeTransports|
        invariant forall j :: 0 <= j < i ==> !(activeTransports[j].ticket.scope == QMIChannel && activeTransports[j].ticket.channel == channel)
      {
        if activeTransports[i].ticket.scope == QMIChannel && activeTransports[i].ticket.channel == channel {
          assert Tickets(activeTransports)[i].channel == channel;
          return true;
        }
      }
      return false;
    }

    method CanAcquireTransportNow(t: Ticket) returns (can: bool)
      ensures t.leaseType == Transport ==> (can <==> Room(Abs(), t))
      ensures can == CanRun(cfg, Tickets(activeTransports), t)
    {
      if t.leaseType == Transport { RoomIs(Abs(), t); }
      if t.leaseType != Transport {
        return false;
      }
      if t.scope != QMIChannel {
        return |activeTransports| == 0;
      }
      var exclusive := HasActiveExclusiveTransport();
      if exclusive {
        return false;
      }
      var count := ActiveQMITransportCount();
      if count >= cfg.maxQMI {
        return false;
      }
      var busy := HasActiveTransportOnChannel(t.channel);
      return !busy;
    }

    method TransportWaitGatesQueue(t: Ticket) returns (gates: bool)
      ensures gates == Gates(cfg, Tickets(activeTransports), t)
    {
      if t.leaseType != Transport || t.scope != QMIChannel {
        return true;
      }
      var exclusive := HasActiveExclusiveTransport();
      var count := ActiveQMITransportCount();
      return exclusive || count >= cfg.maxQMI;
    }

    method SelectedBarrier() returns (id: nat)
      requires Identity(Abs())
      ensures id == 0 ==> forall k: nat :: !FirstBarrier(queue, k)
      ensures id != 0 ==> exists k: nat :: FirstBarrier(queue, k) && queue[k].id == id
    {
      for i := 0 to |queue|
        invariant forall j :: 0 <= j < i ==> queue[j].leaseType != Barrier
      {
        if queue[i].leaseType == Barrier {
          QueuedIsWaiting(Abs(), i);
          assert FirstBarrier(queue, i);
          return queue[i].id;
        }
      }
      return 0;
    }

    /** The id of the transport to run next, or 0. The three candidates are remembered by
        position, as the source remembers them by pointer. */
    method SelectedTransport(now: int) returns (id: nat)
      requires Identity(Abs())
      ensures id == 0 ==> forall k: nat :: !Eligible(Abs(), k)
      ensures id != 0 ==> exists k: nat :: k < |queue| && Selected(Abs(), now, k) && queue[k].id == id
    {
      hide CanRun, Gates, BlockedBy;
      var oldestEligible: Option<nat>, oldestAgedNonAKA: Option<nat>, oldestAKA: Option<nat> := None, None, None;
      ghost var s := Abs();
      var i := 0;
      while i < |queue|
        invariant i <= |queue| && Scanned(s, i)
        invariant Candidate(oldestEligible, i, (k: nat) => Eligible(s, k))
        invariant Candidate(oldestAgedNonAKA, i, (k: nat) => EligibleAged(s, now, k))
        invariant Candidate(oldestAKA, i, (k: nat) => EligibleAKA(s, k))
      {
        var t := queue[i];
        if t.leaseType != Transport {
          assert Stops(s, t);
          break;
        }
        var blocked := IsBlockedByActiveBarrier(t.class_);
        if !blocked {
          var can := CanAcquireTransportNow(t);
          if !can {
            var gates := TransportWaitGatesQueue(t);
            if gates {
              assert Stops(s, t);
              break;
            }
          } else {
            assert Eligible(s, i);
            if oldestEligible.None? {
              oldestEligible := Some(i);
            }
            if t.class_ == USIM_AKA {
              if oldestAKA.None? {
                oldestAKA := Some(i);
              }
            } else if oldestAgedNonAKA.None? && now - t.enqueued >= PRIORITY_AGING {
              oldestAgedNonAKA := Some(i);
            }
          }
        }
        i := i + 1;
      }
      SearchEnds(s, i);
      ChoiceIsSelected(s, now, i, oldestEligible, oldestAgedNonAKA, oldestAKA);
      var chosen := if oldestAgedNonAKA.Some? then oldestAgedNonAKA else if oldestAKA.Some? then oldestAKA else oldestEligible;
      if chosen.None? {
        return 0;
      }
      assert Selected(s, now, chosen.value);
      QueuedIsWaiting(s, chosen.value);
      return queue[chosen.value].id;
    }

    // -------------------------------------------------------------- may this ticket go?

    method CanAcquireLease(t: Ticket, now: int) returns (can: bool)
      requires Identity(Abs()) && t.leaseType != Barrier
      requires IndexOf(queue, t.id) < |queue| && queue[IndexOf(queue, t.id)] == t
      ensures can == Grantable(Abs(), now, IndexOf(queue, t.id))
    {
      ghost var s, k := Abs(), IndexOf(queue, t.id);
      var blocked := IsBlockedByActiveBarrier(t.class_);
      if blocked {
        return false;
      }
      var pending := HasPendingBarrierAhead(t);
      if pending {
        ghost var j :| 0 <= j < k && queue[j].leaseType == Barrier;
        PendingBarrierFences(s, now, j, k);
        return false;
      }
      QueuedIsWaiting(s, 0);
      match t.leaseType {
        case Session =>
          can := queue[0].id == t.id && activeOneshot.None? && |activeTransports| == 0 && |activeSessions| < cfg.maxSessions;
        case OneShot =>
          can := queue[0].id == t.id && |activeSessions| == 0 && activeOneshot.None? && |activeTransports| == 0;
        case Transport =>
          if |activeSessions| > 0 || activeOneshot.Some? {
            return false;
          }
          var id := SelectedTransport(now);
          can := id == t.id;
          assert Abs() == s;
          SelectionByIdIsByPlace(s, now, k, id);
      }
    }

    method CanAcquireBarrier(t: Ticket, ghost now: int) returns (can: bool)
      requires Identity(Abs()) && t.leaseType == Barrier
      requires IndexOf(queue, t.id) < |queue| && queue[IndexOf(queue, t.id)] == t
      ensures can == Grantable(Abs(), now, IndexOf(queue, t.id))
    {
      if |activeTransports| > 0 || |activeSessions| > 0 || activeOneshot.Some? {
        return false;
      }
      ghost var s, k := Abs(), IndexOf(queue, t.id);
      var id := SelectedBarrier();
      can := id == t.id;
      QueuedIsWaiting(s, k);
      if id != 0 {
        ghost var m: nat :| FirstBarrier(queue, m) && queue[m].id == id;
        QueuedIsWaiting(s, m);
      }
    }

    // -------------------------------------------------------------- changes under the lock

    method SignalLocked()
      modifies this`notifyC
      ensures Abs() == Signal(old(Abs()))
    {
      notifyC := notifyC + 1;
    }

    method RemoveTicket(id: nat) returns (removed: bool)
      modifies this`queue
      ensures removed == (IndexOf(old(queue), id) < |old(queue)|)
      ensures queue == if removed then RemoveAt(old(queue), IndexOf(old(queue), id)) else old(queue)
    {
      for i := 0 to |queue|
        invariant queue == old(queue) && i <= IndexOf(queue, id)
      {
        if queue[i].id == id {
          FirstIndex(queue, id, i);
          queue := queue[..i] + queue[i + 1..];
          return true;
        }
      }
      return false;
    }

    method AddActiveLease(t: Ticket, now: int)
      requires t.leaseType != Barrier
      modifies this`activeSessions, this`activeOneshot, this`activeTransports
      ensures Abs() == AddActive(old(Abs()), t, now)
    {
      var a := Active(t, now, now + cfg.maxHold);
      match t.leaseType {
        case Session => activeSessions := activeSessions + [a];
        case OneShot => activeOneshot := Some(a);
        case Transport => activeTransports := activeTransports + [a];
      }
    }

    /** The position of a lease in one of the two lists, or the list's length. */
    method Position(list: seq<Active>, id: nat) returns (k: nat)
      ensures k == ActiveIndex(list, id)
    {
      for i := 0 to |list|
        invariant forall j :: 0 <= j < i ==> list[j].ticket.id != id
      {
        if list[i].ticket.id == id {
          FirstIndex(Tickets(list), id, i);
          return i;
        }
      }
      AbsentIndex(Tickets(list), id);
      return |list|;
    }

    method FindActiveLease(id: nat, lt: LeaseType) returns (found: Option<Active>)
      ensures found == FindActive(Abs(), id, lt)
    {
      match lt {
        case Session =>
          var k := Position(activeSessions, id);
          if k < |activeSessions| {
            return Some(activeSessions[k]);
          }
        case OneShot =>
          if activeOneshot.Some? && activeOneshot.value.ticket.id == id {
            return activeOneshot;
          }
        case Transport =>
          var k := Position(activeTransports, id);
          if k < |activeTransports| {
            return Some(activeTransports[k]);
          }
        case Barrier =>
      }
      return None;
    }

    method RemoveActive(id: nat, lt: LeaseType) returns (released: Option<Active>)
      modifies this
      ensures released == FindActive(old(Abs()), id, lt)
      ensures Abs() == if released.None? then old(Abs()) else DropActive(old(Abs()), id, lt)
    {
      released := FindActiveLease(id, lt);
      if released.Some? {
        life := life[id := Done];
        match lt {
          case Session =>
            var k := Position(activeSessions, id);
            activeSessions := activeSessions[..k] + activeSessions[k + 1..];
          case OneShot =>
            activeOneshot := None;
          case Transport =>
            var k := Position(activeTransports, id);
            activeTransports := activeTransports[..k] + activeTransports[k + 1..];
          case Barrier =>
        }
      }
    }

    // -------------------------------------------------------------- the locked sections

    /** The atomic increment that hands out ids; it needs no lock. */
    method DrawTicketId(ghost now: int) returns (id: nat)
      requires Valid() && clock <= now
      modifies this
      ensures Valid() && Abs() == Apply(old(Abs()), Draw, now)
      ensures id !in old(life) && id in life && life[id] == Drawn
    {
      hide Exclusion, Parkings, ListsTracked, AllOfType;
      StepKeepsInv(Abs(), Draw, now);
      seqNo := seqNo + 1;
      id := seqNo;
      life := life[id := Drawn];
      clock := now;
    }

    method TakeLease(t: Ticket, now: int)
      requires t.leaseType != Barrier && IndexOf(queue, t.id) < |queue| && queue[IndexOf(queue, t.id)] == t
      modifies this
      ensures Abs() == Grant(old(Abs()), IndexOf(old(queue), t.id), now)
    {
      hide AddActive, IndexFrom;
      ghost var s, k := Abs(), IndexOf(queue, t.id);
      var _ := RemoveTicket(t.id);
      assert Abs() == s.(queue := RemoveAt(s.queue, k));
      AddActiveLease(t, now);
      AddActiveIgnoresQueue(s, RemoveAt(s.queue, k), t, now);
      acquires := acquires + 1;
      parked := parked - {t.id};
      life := life[t.id := Holding(t.leaseType)];
      SignalLocked();
    }

    /** The head of the acquire loop: take the lease or go to sleep on the current channel. */
    method TryLease(t: Ticket, now: int) returns (granted: bool)
      requires Identity(Abs()) && t.leaseType != Barrier
      requires IndexOf(queue, t.id) < |queue| && queue[IndexOf(queue, t.id)] == t
      modifies this
      ensures granted == Grantable(old(Abs()), now, IndexOf(old(queue), t.id))
      ensures Abs() == Check(old(Abs()), t.id, now)
    {
      hide Identity, Grantable, Grant;
      granted := CanAcquireLease(t, now);
      if granted {
        TakeLease(t, now);
      } else {
        parked := parked[t.id := Parking(notifyC, now)];
      }
    }

    method TryBarrier(t: Ticket, now: int) returns (granted: bool)
      requires Identity(Abs()) && t.leaseType == Barrier
      requires IndexOf(queue, t.id) < |queue| && queue[IndexOf(queue, t.id)] == t
      modifies this
      ensures granted == Grantable(old(Abs()), now, IndexOf(old(queue), t.id))
      ensures Abs() == Check(old(Abs()), t.id, now)
    {
      hide Identity, Grantable;
      granted := CanAcquireBarrier(t, now);
      if granted {
        var _ := RemoveTicket(t.id);
        activeBarriers := activeBarriers + [t];
        acquires := acquires + 1;
        parked := parked - {t.id};
        life := life[t.id := Holding(Barrier)];
        SignalLocked();
      } else {
        parked := parked[t.id := Parking(notifyC, now)];
      }
    }

    method EnqueueTicket(t: Ticket)
      modifies this
      ensures Abs() == Enqueue(old(Abs()), t)
    {
      queue := queue + [t];
      waitRequests := waitRequests + 1;
      life := life[t.id := Waiting];
      SignalLocked();
    }

    /** acquire, from taking the lock to holding a lease or sleeping. */
    method Acquire(t: Ticket, now: int) returns (granted: bool)
      requires Valid() && Enabled(Abs(), Arrive(t), now) && t.leaseType != Barrier
      modifies this
      ensures Valid() && Abs() == Apply(old(Abs()), Arrive(t), now)
      ensures granted <==> FindActive(Abs(), t.id, t.leaseType).Some?
    {
      hide InvDuring, Identity, Grantable;
      ArrivalFacts(Abs(), t, now);
      clock := now;
      EnqueueTicket(t);
      ghost var m := Abs();
      granted := TryLease(t, now);
      if granted {
        GrantIsFound(m, |m.queue| - 1, now);
      }
    }

    /** BeginBarrier, from taking the lock to entering or sleeping. */
    method BeginBarrier(t: Ticket, now: int) returns (granted: bool)
      requires Valid() && Enabled(Abs(), Arrive(t), now) && t.leaseType == Barrier
      modifies this
      ensures Valid() && Abs() == Apply(old(Abs()), Arrive(t), now)
      ensures granted <==> t in activeBarriers
    {
      hide InvDuring, Identity, Grantable;
      ArrivalFacts(Abs(), t, now);
      clock := now;
      EnqueueTicket(t);
      granted := TryBarrier(t, now);
    }

    /** A sleeper whose channel was closed looks again. */
    method Woken(t: Ticket, now: int) returns (granted: bool)
      requires Valid() && Enabled(Abs(), Wake(t.id), now) && queue[IndexOf(queue, t.id)] == t
      modifies this
      ensures Valid() && Abs() == Apply(old(Abs()), Wake(t.id), now)
      ensures granted <==> Grantable(old(Abs()), now, IndexOf(old(queue), t.id))
    {
      SameGrantable(Abs(), Abs().(clock := now), now, IndexOf(queue, t.id));
      hide InvDuring, Identity, Grantable;
      StepKeepsInv(Abs(), Wake(t.id), now);
      ClockKeeps(Abs(), now);
      InvHasIdentity(Abs().(clock := now));
      clock := now;
      if t.leaseType == Barrier {
        granted := TryBarrier(t, now);
      } else {
        granted := TryLease(t, now);
      }
    }

    /** The sleeper's context ended. */
    method GiveUp(id: nat, now: int)
      requires Valid() && Enabled(Abs(), Cancel(id), now)
      modifies this
      ensures Valid() && Abs() == Apply(old(Abs()), Cancel(id), now)
    {
      hide InvDuring, Identity, Grantable, Enabled, Apply;
      StepKeepsInv(Abs(), Cancel(id), now);
      CancelIs(Abs(), id, now);
      clock := now;
      var removed := RemoveTicket(id);
      if removed {
        waitTimeouts := waitTimeouts + 1;
        parked := parked - {id};
        life := life[id := Done];
        SignalLocked();
      }
    }

    method Touch(id: nat, lt: LeaseType, now: int) returns (active: bool)
      requires Valid() && clock <= now
      modifies this
      ensures Valid() && Abs() == Apply(old(Abs()), Label.Touch(id, lt), now)
      ensures active == FindActive(old(Abs()), id, lt).Some?
    {
      hide InvDuring, Identity, Grantable;
      StepKeepsInv(Abs(), Label.Touch(id, lt), now);
      clock := now;
      var found := FindActiveLease(id, lt);
      if found.None? {
        return false;
      }
      var a := found.value.(expiresAt := now + cfg.maxHold);
      match lt {
        case Session =>
          var k := Position(activeSessions, id);
          activeSessions := activeSessions[k := a];
        case OneShot =>
          activeOneshot := Some(a);
        case Transport =>
          var k := Position(activeTransports, id);
          activeTransports := activeTransports[k := a];
        case Barrier =>
      }
      return true;
    }

    method Release(id: nat, lt: LeaseType, now: int)
      requires Valid() && clock <= now
      modifies this
      ensures Valid() && Abs() == Apply(old(Abs()), Label.Release(id, lt), now)
    {
      hide InvDuring, Identity, Grantable;
      StepKeepsInv(Abs(), Label.Release(id, lt), now);
      clock := now;
      var released := RemoveActive(id, lt);
      if released.Some? {
        SignalLocked();
      }
    }

    /** The watchdog's callback; it may run at any time. */
    method ReleaseExpired(id: nat, lt: LeaseType, now: int)
      requires Valid() && clock <= now
      modifies this
      ensures Valid() && Abs() == Apply(old(Abs()), Expire(id, lt), now)
    {
      hide InvDuring, Identity, Grantable;
      StepKeepsInv(Abs(), Expire(id, lt), now);
      clock := now;
      var active := FindActiveLease(id, lt);
      if active.None? || active.value.expiresAt - now > 0 {
        return;
      }
      var released := RemoveActive(id, lt);
      if released.Some? {
        forcedReleases := forcedReleases + 1;
        SignalLocked();
      }
    }

    method ReleaseBarrier(id: nat, now: int)
      requires Valid() && clock <= now
      modifies this
      ensures Valid() && Abs() == Apply(old(Abs()), LeaveBarrier(id), now)
    {
      hide InvDuring, Identity, Grantable;
      StepKeepsInv(Abs(), LeaveBarrier(id), now);
      clock := now;
      for i := 0 to |activeBarriers|
        invariant Abs() == old(Abs()).(clock := now) && i <= IndexOf(activeBarriers, id)
      {
        if activeBarriers[i].id == id {
          FirstIndex(activeBarriers, id, i);
          activeBarriers := activeBarriers[..i] + activeBarriers[i + 1..];
          life := life[id := Done];
          SignalLocked();
          return;
        }
      }
    }

    method IsIdle() returns (idle: bool)
      requires Valid()
      ensures idle <==> forall id :: id in life ==> life[id] == Drawn || life[id] == Done
    {
      hide Exclusion, Parkings;
      idle := activeOneshot.None? && |activeTransports| == 0 && |activeSessions| == 0 && |activeBarriers| == 0 && |queue| == 0;
      IdleMeansNobodyWaitsOrHolds(Abs());
    }

    /** The counters add up, and the leases shown exclude each other. */
    method ReadStats() returns (st: Stats)
      requires Valid()
      ensures st.waitRequests == st.acquires + st.waitTimeouts + st.queue && st.queue == |queue|
      ensures st.acquires == acquires && st.waitTimeouts == waitTimeouts && st.forced == forcedReleases
      ensures st.sessions == |activeSessions| <= cfg.maxSessions && (st.oneshot <==> activeOneshot.Some?)
      ensures st.transports == |activeTransports| && st.barriers == |activeBarriers|
      ensures (st.sessions > 0 ==> !st.oneshot && st.transports == 0) && (st.oneshot ==> st.transports == 0)
      ensures st.first == if queue == [] then None else Some(queue[0].leaseType == Barrier)
    {
      st := Stats(waitRequests, acquires, waitTimeouts, forcedReleases, |queue|,
                  |activeSessions|, activeOneshot.Some?, |activeTransports|, |activeBarriers|,
                  if |queue| > 0 then Some(queue[0].leaseType == Barrier) else None);
    }
  }

  lemma CancelIs(s: State, id: nat, now: int)
    requires Enabled(s, Cancel(id), now)
    ensures IndexOf(s.queue, id) < |s.queue| && Apply(s, Cancel(id), now) == Withdraw(s.(clock := now), id)
  {
  }

  /** o remembers the first position below i with property p. */
  ghost predicate Candidate(o: Option<nat>, i: nat, p: nat -> bool) {
    match o
    case None => forall k: nat :: k < i ==> !p(k)
    case Some(m) => m < i && p(m) && forall k: nat :: k < m ==> !p(k)
  }

  lemma SearchEnds(s: State, i: nat)
    requires i <= |s.queue| && (i < |s.queue| ==> Stops(s, s.queue[i]))
    ensures forall k: nat :: k >= i ==> !Eligible(s, k)
  {
  }

  lemma ChoiceIsSelected(s: State, now: int, i: nat, eligible: Option<nat>, aged: Option<nat>, aka: Option<nat>)
    requires forall k: nat :: k >= i ==> !Eligible(s, k)
    requires Candidate(eligible, i, (k: nat) => Eligible(s, k))
    requires Candidate(aged, i, (k: nat) => EligibleAged(s, now, k))
    requires Candidate(aka, i, (k: nat) => EligibleAKA(s, k))
    ensures aged.Some? ==> FirstAged(s, now, aged.value)
    ensures aged.None? ==> NoneAged(s, now)
    ensures aka.Some? ==> FirstAKA(s, aka.value)
    ensures aka.None? ==> NoneAKA(s)
    ensures eligible.Some? ==> FirstEligible(s, eligible.value)
    ensures eligible.None? ==> forall k: nat :: !Eligible(s, k)
  {
    var e, g, a := (k: nat) => Eligible(s, k), (k: nat) => EligibleAged(s, now, k), (k: nat) => EligibleAKA(s, k);
    assert forall k: nat :: Eligible(s, k) == e(k);
    assert forall k: nat :: EligibleAged(s, now, k) == g(k);
    assert forall k: nat :: EligibleAKA(s, k) == a(k);
  }

  /** A lease behind a waiting barrier may not go anyway, so the separate test for one is redundant. */
  lemma PendingBarrierFences(s: State, now: int, j: nat, k: nat)
    requires j < k < |s.queue| && s.queue[k].leaseType != Barrier && s.queue[j].leaseType == Barrier
    ensures !Grantable(s, now, k)
  {
    NoGrantBehindFence(s, now, j, k);
  }

  /** Ids name positions: comparing the selected id is comparing the selected position. */
  lemma SelectionByIdIsByPlace(s: State, now: int, k: nat, id: nat)
    requires Identity(s) && k < |s.queue|
    requires id == 0 ==> forall i: nat :: !Eligible(s, i)
    requires id != 0 ==> exists i: nat :: i < |s.queue| && Selected(s, now, i) && s.queue[i].id == id
    ensures id == s.queue[k].id <==> Selected(s, now, k)
  {
    hide Identity, Eligible, EligibleAKA, EligibleAged;
    QueuedIsWaiting(s, k);
    if id == 0 {
      if Selected(s, now, k) { SelectedIsEligible(s, now, k); }
    } else {
      var i: nat :| i < |s.queue| && Selected(s, now, i) && s.queue[i].id == id;
      SelectedIsEligible(s, now, i);
      QueuedIsWaiting(s, i);
      if Selected(s, now, k) { SelectedUnique(s, now, i, k); }
    }
  }

  lemma ArrivalFacts(s: State, t: Ticket, now: int)
    requires Inv(s) && Enabled(s, Arrive(t), now)
    ensures var m := Enqueue(s.(clock := now), t);
            && Identity(m) && Inv(Apply(s, Arrive(t), now))
            && IndexOf(m.queue, t.id) == |s.queue|
    ensures t !in s.barriers && FindActive(s, t.id, t.leaseType).None?
  {
    hide Exclusion, Parkings, Conservation, ListsTracked, AllOfType;
    StepKeepsInv(s, Arrive(t), now);
    var c := s.(clock := now);
    SameIdentity(s, c);
    EnqueueKeepsIdentity(c, t);
    QueuedIsWaiting(Enqueue(c, t), |s.queue|);
    DrawnIsNowhere(s, t);
  }

  lemma AddActiveIgnoresQueue(s: State, q: seq<Ticket>, t: Ticket, now: int)
    ensures AddActive(s.(queue := q), t, now) == AddActive(s, t, now).(queue := q)
  {
  }

  lemma InvHasIdentity(s: State)
    requires Inv(s)
    ensures Identity(s)
  {
  }

  lemma DrawnIsNowhere(s: State, t: Ticket)
    requires ListsTracked(s) && t.id in s.life && s.life[t.id] == Drawn
    ensures t !in s.barriers && FindActive(s, t.id, t.leaseType).None?
  {
    if FindActive(s, t.id, t.leaseType).Some? {
      ActiveIsHolding(s, t.id, t.leaseType);
    }
    assert Tracked(ListOf(s, Holding(Barrier)), Holding(Barrier), s.life);
  }

  lemma IdleMeansNobodyWaitsOrHolds(s: State)
    requires ListsTracked(s)
    ensures s.queue == [] && LeaseFree(s) && s.barriers == []
       <==> forall id :: id in s.life ==> s.life[id] == Drawn || s.life[id] == Done
  {
    assert Tracked(ListOf(s, Waiting), Waiting, s.life);
    assert Tracked(ListOf(s, Holding(Barrier)), Holding(Barrier), s.life);
    assert Tracked(ListOf(s, Holding(Session)), Holding(Session), s.life);
    assert Tracked(ListOf(s, Holding(OneShot)), Holding(OneShot), s.life);
    assert Tracked(ListOf(s, Holding(Transport)), Holding(Transport), s.life);
    assert s.queue != [] ==> s.queue[0].id in s.life;
    assert s.barriers != [] ==> s.barriers[0].id in s.life;
    assert s.sessions != [] ==> Tickets(s.sessions)[0].id in s.life;
    assert s.transports != [] ==> Tickets(s.transports)[0].id in s.life;
    assert s.oneshot.Some? ==> OneshotTickets(s)[0].id in s.life;
  }
}
