/** What every locked section of the arbiter keeps: identity of ids, the exclusion rules,
    conservation of the counters, and what the notification channel guarantees. */
module ArbiterProtocol {
  import opened ArbiterModel

  // ---------------------------------------------------------------- invariants

  /** The list q holds exactly the ids that are in phase p, each once. */
  ghost predicate Tracked(q: seq<Ticket>, p: Phase, life: map<nat, Phase>) {
    && (forall i, j :: 0 <= i < j < |q| ==> q[i].id != q[j].id)
    && (forall i :: 0 <= i < |q| ==> q[i].id in life && life[q[i].id] == p)
    && (forall id :: id in life && life[id] == p ==> IndexOf(q, id) < |q|)
  }

  function OneshotTickets(s: State): seq<Ticket> {
    if s.oneshot.Some? then [s.oneshot.value.ticket] else []
  }

  ghost predicate AllOfType(q: seq<Ticket>, lt: LeaseType) {
    forall i :: 0 <= i < |q| ==> q[i].leaseType == lt
  }

  ghost predicate AllWellFormed(q: seq<Ticket>) {
    forall i :: 0 <= i < |q| ==> WellFormedTicket(q[i])
  }

  /** The list in which an id of this phase is kept. */
  function ListOf(s: State, p: Phase): seq<Ticket> {
    match p
    case Waiting => s.queue
    case Holding(Session) => Tickets(s.sessions)
    case Holding(OneShot) => OneshotTickets(s)
    case Holding(Transport) => Tickets(s.transports)
    case Holding(Barrier) => s.barriers
    case _ => []
  }

  predicate Listed(p: Phase) {
    p.Waiting? || p.Holding?
  }

  ghost predicate ListsTracked(s: State) {
    forall p | Listed(p) :: Tracked(ListOf(s, p), p, s.life)
  }

  ghost predicate DrawnIds(s: State) {
    forall id :: id in s.life <==> 1 <= id <= s.seqNo
  }

  /** Every id drawn so far is in exactly one place. */
  ghost predicate Identity(s: State) {
    && s.cfg.Valid()
    && DrawnIds(s)
    && ListsTracked(s)
    && AllWellFormed(s.queue)
    && (forall lt :: AllOfType(ListOf(s, Holding(lt)), lt))
  }

  ghost predicate DistinctChannels(q: seq<Ticket>) {
    forall i, j :: 0 <= i < j < |q| ==> q[i].channel != q[j].channel
  }

  /** No ticket of q has a class some barrier of bs blocks. */
  ghost predicate NoneBlocked(q: seq<Ticket>, bs: seq<Ticket>) {
    forall i :: 0 <= i < |q| ==> !BlockedBy(bs, q[i].class_)
  }

  /** The transports that may be active together: one exclusive one, or QMI channels. */
  ghost predicate TransportsCompatible(cfg: Config, q: seq<Ticket>) {
    || q == []
    || (|q| == 1 && q[0].scope == Exclusive)
    || (&& (forall i :: 0 <= i < |q| ==> q[i].scope == QMIChannel && q[i].channel > 0)
        && DistinctChannels(q) && |q| <= cfg.maxQMI)
  }

  /** Who may hold the card at the same time. */
  ghost predicate Exclusion(s: State) {
    && (s.sessions == [] || s.oneshot.None?)
    && (s.sessions == [] || s.transports == [])
    && (s.oneshot.None? || s.transports == [])
    && |s.sessions| <= s.cfg.maxSessions
    && TransportsCompatible(s.cfg, Tickets(s.transports))
    && NoneBlocked(Tickets(s.sessions), s.barriers)
    && NoneBlocked(OneshotTickets(s), s.barriers)
    && NoneBlocked(Tickets(s.transports), s.barriers)
  }

  ghost predicate Conservation(s: State) {
    s.waitRequests == s.acquires + s.waitTimeouts + |s.queue|
  }

  /** Ticket k was refused, in this very state, by the check that parked its goroutine. */
  ghost predicate RefusedWhenParked(s: State, k: nat)
    requires k < |s.queue|
  {
    s.queue[k].id in s.parked && s.parked[s.queue[k].id].epoch == s.epoch ==>
      !Grantable(s, s.parked[s.queue[k].id].at, k)
  }

  /** Every waiting ticket except x has a parked goroutine, and those on the current channel
      were refused in the current state. */
  ghost predicate Parkings(s: State, x: nat) {
    && (forall id :: id in s.parked <==> id in s.life && s.life[id] == Waiting && id != x)
    && (forall id :: id in s.parked ==> s.parked[id].epoch <= s.epoch && s.parked[id].at <= s.clock)
    && (forall k :: 0 <= k < |s.queue| ==> RefusedWhenParked(s, k))
  }

  /** The invariant while the goroutine of ticket x is inside the section; 0 is no ticket. */
  ghost predicate InvDuring(s: State, x: nat) {
    Identity(s) && Exclusion(s) && Conservation(s) && Parkings(s, x)
  }

  ghost predicate Inv(s: State) {
    InvDuring(s, 0)
  }

  // ---------------------------------------------------------------- tracking lemmas

  lemma TrackedAppend(q: seq<Ticket>, p: Phase, life: map<nat, Phase>, t: Ticket)
    requires Tracked(q, p, life)
    requires t.id in life ==> life[t.id] != p
    ensures Tracked(q + [t], p, life[t.id := p])
  {
    var q', life' := q + [t], life[t.id := p];
    forall id | id in life' && life'[id] == p ensures IndexOf(q', id) < |q'| {
      if id == t.id {
        assert q'[|q|].id == id;
      } else {
        assert q'[IndexOf(q, id)].id == id;
      }
    }
  }

  lemma TrackedRemove(q: seq<Ticket>, p: Phase, life: map<nat, Phase>, k: nat, p': Phase)
    requires Tracked(q, p, life) && k < |q| && p' != p
    ensures Tracked(RemoveAt(q, k), p, life[q[k].id := p'])
  {
    var q', life' := RemoveAt(q, k), life[q[k].id := p'];
    forall id | id in life' && life'[id] == p ensures IndexOf(q', id) < |q'| {
      var m := IndexOf(q, id);
      assert m != k;
      assert q'[if m < k then m else m - 1].id == id;
    }
  }

  lemma TrackedOther(q: seq<Ticket>, p: Phase, life: map<nat, Phase>, id: nat, p': Phase)
    requires Tracked(q, p, life) && p' != p
    requires id in life ==> life[id] != p
    ensures Tracked(q, p, life[id := p'])
  {
  }

  // ---------------------------------------------------------------- exclusion lemmas

  lemma CountAllQMI(q: seq<Ticket>)
    requires forall i :: 0 <= i < |q| ==> q[i].scope == QMIChannel
    ensures QMICount(q) == |q|
  {
    if q != [] {
      CountAllQMI(q[..|q| - 1]);
    }
  }

  lemma CompatibleWithout(cfg: Config, q: seq<Ticket>, k: nat)
    requires TransportsCompatible(cfg, q) && k < |q|
    ensures TransportsCompatible(cfg, RemoveAt(q, k))
  {
  }

  lemma CompatibleWith(cfg: Config, q: seq<Ticket>, t: Ticket)
    requires cfg.Valid() && TransportsCompatible(cfg, q) && WellFormedTicket(t)
    requires CanRun(cfg, q, t)
    ensures TransportsCompatible(cfg, q + [t])
  {
    if t.scope == QMIChannel {
      assert q != [] ==> q[0].scope == QMIChannel;
      CountAllQMI(q);
    }
  }

  lemma NoneBlockedFewerBarriers(q: seq<Ticket>, bs: seq<Ticket>, k: nat)
    requires NoneBlocked(q, bs) && k < |bs|
    ensures NoneBlocked(q, RemoveAt(bs, k))
  {
    forall i | 0 <= i < |q| ensures !BlockedBy(RemoveAt(bs, k), q[i].class_) {
      assert !BlockedBy(bs, q[i].class_);
    }
  }

  lemma TicketsAppend(a: seq<Active>, x: Active)
    ensures Tickets(a + [x]) == Tickets(a) + [x.ticket]
  {
  }

  lemma TicketsRemove(a: seq<Active>, k: nat)
    requires k < |a|
    ensures Tickets(RemoveAt(a, k)) == RemoveAt(Tickets(a), k)
  {
  }

  // ---------------------------------------------------------------- each section keeps the invariant

  /** Ticket t leaves the list of phase from, if that has one, and joins that of phase to. */
  ghost predicate Moved(s: State, s': State, t: Ticket, from: Phase, to: Phase) {
    && s'.life == s.life[t.id := to]
    && (t.id in s.life ==> s.life[t.id] == from)
    && (forall p | Listed(p) && p != from && p != to :: ListOf(s', p) == ListOf(s, p))
    && (Listed(to) ==> ListOf(s', to) == ListOf(s, to) + [t])
    && (Listed(from) ==>
          var k := IndexOf(ListOf(s, from), t.id);
          k < |ListOf(s, from)| && ListOf(s', from) == RemoveAt(ListOf(s, from), k))
  }

  lemma MoveKeepsLists(s: State, s': State, t: Ticket, from: Phase, to: Phase)
    requires ListsTracked(s) && Moved(s, s', t, from, to) && from != to
    ensures ListsTracked(s')
  {
    forall p | Listed(p) ensures Tracked(ListOf(s', p), p, s'.life) {
      var q := ListOf(s, p);
      assert Tracked(q, p, s.life);
      if p == to {
        TrackedAppend(q, p, s.life, t);
      } else if p == from {
        TrackedRemove(q, p, s.life, IndexOf(q, t.id), to);
      } else {
        TrackedOther(q, p, s.life, t.id, to);
      }
    }
  }

  /** A step that moves one drawn id between lists keeps every id in exactly one place. */
  lemma MoveKeepsIdentity(s: State, s': State, t: Ticket, from: Phase, to: Phase)
    requires Identity(s) && Moved(s, s', t, from, to) && from != to
    requires t.id in s.life && s'.cfg == s.cfg && s'.seqNo == s.seqNo
    requires to.Waiting? ==> WellFormedTicket(t)
    requires to.Holding? ==> t.leaseType == to.leaseType
    ensures Identity(s')
  {
    hide Tracked;
    MoveKeepsLists(s, s', t, from, to);
    forall lt ensures AllOfType(ListOf(s', Holding(lt)), lt) {
      assert AllOfType(ListOf(s, Holding(lt)), lt);
    }
    assert AllWellFormed(ListOf(s', Waiting)) by {
      assert AllWellFormed(ListOf(s, Waiting));
    }
  }

  /** After a signal nobody is parked on the current channel. */
  lemma SignalledParkings(s: State, s': State, x: nat)
    requires forall id :: id in s.parked ==> s.parked[id].epoch <= s.epoch && s.parked[id].at <= s.clock
    requires s'.epoch == s.epoch + 1 && s'.clock >= s.clock
    requires forall id :: id in s'.parked ==> id in s.parked && s'.parked[id] == s.parked[id]
    requires forall id :: id in s'.parked <==> id in s'.life && s'.life[id] == Waiting && id != x
    ensures Parkings(s', x)
  {
  }

  lemma SameExclusion(s: State, s': State)
    requires Exclusion(s)
    requires s'.cfg == s.cfg && s'.sessions == s.sessions && s'.oneshot == s.oneshot
    requires s'.transports == s.transports && s'.barriers == s.barriers
    ensures Exclusion(s')
  {
  }

  lemma EnqueueMoves(s: State, t: Ticket)
    requires t.id in s.life && s.life[t.id] == Drawn
    ensures Moved(s, Enqueue(s, t), t, Drawn, Waiting)
  {
  }

  lemma EnqueueKeepsIdentity(s: State, t: Ticket)
    requires Identity(s) && t.id in s.life && s.life[t.id] == Drawn && WellFormedTicket(t)
    ensures Identity(Enqueue(s, t))
  {
    var s' := Enqueue(s, t);
    EnqueueMoves(s, t);
    MoveKeepsIdentity(s, s', t, Drawn, Waiting);
  }

  lemma EnqueueKeeps(s: State, t: Ticket)
    requires Inv(s) && t.id in s.life && s.life[t.id] == Drawn && WellFormedTicket(t)
    ensures InvDuring(Enqueue(s, t), t.id)
  {
    var s' := Enqueue(s, t);
    EnqueueKeepsIdentity(s, t);
    SameExclusion(s, s');
    assert Parkings(s', t.id) by {
      SignalledParkings(s, s', t.id);
    }
  }

  lemma AddActiveLists(s: State, t: Ticket, now: int, lt: LeaseType)
    requires t.leaseType == OneShot ==> s.oneshot.None?
    ensures ListOf(AddActive(s, t, now), Holding(lt)) ==
            if lt == t.leaseType then ListOf(s, Holding(lt)) + [t] else ListOf(s, Holding(lt))
  {
    var a := Active(t, now, now + s.cfg.maxHold);
    match t.leaseType
    case Session => TicketsAppend(s.sessions, a);
    case OneShot =>
    case Transport => TicketsAppend(s.transports, a);
    case Barrier =>
  }

  lemma GrantMoves(s: State, k: nat, now: int)
    requires ListsTracked(s) && k < |s.queue|
    requires s.queue[k].leaseType == OneShot ==> s.oneshot.None?
    ensures Moved(s, Grant(s, k, now), s.queue[k], Waiting, Holding(s.queue[k].leaseType))
  {
    var t, s' := s.queue[k], Grant(s, k, now);
    assert Tracked(ListOf(s, Waiting), Waiting, s.life);
    IndexOfUnique(s.queue, k);
    forall lt ensures ListOf(s', Holding(lt)) ==
                      if lt == t.leaseType then ListOf(s, Holding(lt)) + [t] else ListOf(s, Holding(lt)) {
      AddActiveLists(s, t, now, lt);
      assert ListOf(s', Holding(lt)) == ListOf(AddActive(s, t, now), Holding(lt));
    }
  }

  lemma QueuedIsWaiting(s: State, k: nat)
    requires Identity(s) && k < |s.queue|
    ensures s.queue[k].id in s.life && s.life[s.queue[k].id] == Waiting && s.queue[k].id != 0
    ensures IndexOf(s.queue, s.queue[k].id) == k
  {
    assert Tracked(ListOf(s, Waiting), Waiting, s.life);
    IndexOfUnique(s.queue, k);
  }

  lemma GrantKeepsIdentity(s: State, k: nat, now: int)
    requires Identity(s) && k < |s.queue|
    requires s.queue[k].leaseType == OneShot ==> s.oneshot.None?
    ensures Identity(Grant(s, k, now))
  {
    var t, s' := s.queue[k], Grant(s, k, now);
    QueuedIsWaiting(s, k);
    GrantMoves(s, k, now);
    MoveKeepsIdentity(s, s', t, Waiting, Holding(t.leaseType));
  }

  lemma TransportGrantKeepsExclusion(s: State, k: nat, now: int)
    requires s.cfg.Valid() && Exclusion(s) && k < |s.queue| && WellFormedTicket(s.queue[k])
    requires s.queue[k].leaseType == Transport && s.sessions == [] && s.oneshot.None? && Eligible(s, k)
    ensures Exclusion(Grant(s, k, now))
  {
    hide Scanned;
    var t := s.queue[k];
    TicketsAppend(s.transports, Active(t, now, now + s.cfg.maxHold));
    assert TransportsCompatible(s.cfg, Tickets(s.transports) + [t]) by {
      CompatibleWith(s.cfg, Tickets(s.transports), t);
    }
  }

  lemma GrantKeepsExclusion(s: State, k: nat, now: int)
    requires s.cfg.Valid() && AllWellFormed(s.queue) && Exclusion(s) && k < |s.queue| && Grantable(s, now, k)
    ensures Exclusion(Grant(s, k, now))
  {
    var t, s' := s.queue[k], Grant(s, k, now);
    match t.leaseType
    case Session =>
      TicketsAppend(s.sessions, Active(t, now, now + s.cfg.maxHold));
    case OneShot =>
    case Transport =>
      assert Eligible(s, k);
      TransportGrantKeepsExclusion(s, k, now);
    case Barrier =>
      assert OneshotTickets(s') == [];
  }

  lemma GrantKeepsParkings(s: State, x: nat, k: nat, now: int)
    requires Identity(s) && Parkings(s, x) && k < |s.queue|
    requires x == 0 || x == s.queue[k].id
    ensures Parkings(Grant(s, k, now), 0)
  {
    hide Tracked, AllWellFormed, AllOfType;
    QueuedIsWaiting(s, k);
    assert 0 !in s.life;
    SignalledParkings(s, Grant(s, k, now), 0);
  }

  lemma GrantKeeps(s: State, x: nat, k: nat, now: int)
    requires InvDuring(s, x) && k < |s.queue| && Grantable(s, now, k)
    requires x == 0 || x == s.queue[k].id
    ensures Inv(Grant(s, k, now))
  {
    hide Tracked, AllWellFormed, AllOfType, TransportsCompatible, NoneBlocked, Parkings, Selected;
    GrantKeepsIdentity(s, k, now);
    GrantKeepsExclusion(s, k, now);
    GrantKeepsParkings(s, x, k, now);
  }

  /** Whether a ticket may be granted does not depend on counters, parkings, lives,
      clock, channel number or lease deadlines. */
  lemma SameGrantable(s: State, s': State, now: int, k: nat)
    requires s'.cfg == s.cfg && s'.queue == s.queue && s'.barriers == s.barriers
    requires |s'.sessions| == |s.sessions| && s'.oneshot.Some? == s.oneshot.Some?
    requires Tickets(s'.transports) == Tickets(s.transports)
    requires k < |s.queue|
    ensures Grantable(s', now, k) == Grantable(s, now, k)
  {
    forall j: nat ensures Eligible(s', j) == Eligible(s, j) {
      if j < |s.queue| {
        assert forall i :: 0 <= i < j ==> Stops(s', s.queue[i]) == Stops(s, s.queue[i]);
      }
    }
    assert forall j: nat :: EligibleAKA(s', j) == EligibleAKA(s, j);
    assert forall j: nat :: EligibleAged(s', now, j) == EligibleAged(s, now, j);
  }

  /** States with the same lists and lives agree on identity. */
  lemma SameIdentity(s: State, s': State)
    requires Identity(s) && s'.cfg == s.cfg && s'.seqNo == s.seqNo && s'.life == s.life
    requires forall p :: ListOf(s', p) == ListOf(s, p)
    ensures Identity(s')
  {
    assert AllWellFormed(ListOf(s', Waiting)) by {
      assert AllWellFormed(ListOf(s, Waiting));
    }
  }

  lemma ParkKeepsParkings(s: State, x: nat, k: nat)
    requires Identity(s) && Parkings(s, x) && k < |s.queue| && !Grantable(s, s.clock, k)
    requires x == 0 || x == s.queue[k].id
    ensures Parkings(Park(s, s.queue[k].id, s.clock), 0)
  {
    var s' := Park(s, s.queue[k].id, s.clock);
    QueuedIsWaiting(s, k);
    assert 0 !in s.life;
    forall i | 0 <= i < |s'.queue| ensures RefusedWhenParked(s', i) {
      QueuedIsWaiting(s, i);
      assert RefusedWhenParked(s, i);
      SameGrantable(s, s', s'.parked[s.queue[i].id].at, i);
    }
  }

  lemma ParkKeeps(s: State, x: nat, k: nat)
    requires InvDuring(s, x) && k < |s.queue| && !Grantable(s, s.clock, k)
    requires x == 0 || x == s.queue[k].id
    ensures Inv(Park(s, s.queue[k].id, s.clock))
  {
    hide Identity, Exclusion, Parkings, Grantable;
    var s' := Park(s, s.queue[k].id, s.clock);
    ParkKeepsParkings(s, x, k);
    SameIdentity(s, s');
    SameExclusion(s, s');
  }

  /** An active lease is where its phase says, and nowhere else. */
  lemma ActiveIsHolding(s: State, id: nat, lt: LeaseType)
    requires ListsTracked(s) && FindActive(s, id, lt).Some?
    ensures id in s.life && s.life[id] == Holding(lt)
    ensures IndexOf(ListOf(s, Holding(lt)), id) < |ListOf(s, Holding(lt))|
  {
    var q := ListOf(s, Holding(lt));
    assert Tracked(q, Holding(lt), s.life);
    assert lt == OneShot ==> q[0].id == id;
    assert q[IndexOf(q, id)].id == id;
  }

  lemma DropLists(s: State, id: nat, lt: LeaseType, lt': LeaseType)
    requires FindActive(s, id, lt).Some?
    ensures lt' != lt ==> ListOf(DropActive(s, id, lt), Holding(lt')) == ListOf(s, Holding(lt'))
    ensures IndexOf(ListOf(s, Holding(lt)), id) < |ListOf(s, Holding(lt))|
    ensures lt' == lt ==>
              ListOf(DropActive(s, id, lt), Holding(lt')) == RemoveAt(ListOf(s, Holding(lt)), IndexOf(ListOf(s, Holding(lt)), id))
  {
    match lt
    case Session => TicketsRemove(s.sessions, ActiveIndex(s.sessions, id));
    case OneShot => assert OneshotTickets(s)[0].id == id;
    case Transport => TicketsRemove(s.transports, ActiveIndex(s.transports, id));
  }

  lemma DropMoves(s: State, id: nat, lt: LeaseType)
    requires ListsTracked(s) && FindActive(s, id, lt).Some?
    ensures Moved(s, DropActive(s, id, lt), FindActive(s, id, lt).value.ticket, Holding(lt), Done)
  {
    ActiveIsHolding(s, id, lt);
    forall lt' {
      DropLists(s, id, lt, lt');
    }
  }

  lemma DropKeepsExclusion(s: State, id: nat, lt: LeaseType)
    requires Exclusion(s) && FindActive(s, id, lt).Some?
    ensures Exclusion(DropActive(s, id, lt))
  {
    match lt
    case Session =>
      TicketsRemove(s.sessions, ActiveIndex(s.sessions, id));
    case OneShot =>
      assert OneshotTickets(DropActive(s, id, lt)) == [];
    case Transport =>
      TicketsRemove(s.transports, ActiveIndex(s.transports, id));
      CompatibleWithout(s.cfg, Tickets(s.transports), ActiveIndex(s.transports, id));
  }

  lemma DropKeepsIdentity(s: State, id: nat, lt: LeaseType)
    requires Identity(s) && FindActive(s, id, lt).Some?
    ensures Identity(DropActive(s, id, lt))
  {
    ActiveIsHolding(s, id, lt);
    DropMoves(s, id, lt);
    MoveKeepsIdentity(s, DropActive(s, id, lt), FindActive(s, id, lt).value.ticket, Holding(lt), Done);
  }

  lemma DropKeepsParkings(s: State, id: nat, lt: LeaseType, n: nat)
    requires ListsTracked(s) && Parkings(s, 0) && FindActive(s, id, lt).Some?
    ensures Parkings(Signal(DropActive(s, id, lt).(forced := n)), 0)
  {
    hide ListsTracked, RefusedWhenParked;
    ActiveIsHolding(s, id, lt);
    SignalledParkings(s, Signal(DropActive(s, id, lt).(forced := n)), 0);
  }

  /** Releasing or force-releasing an active lease; n counts the forced ones. */
  lemma DropKeeps(s: State, id: nat, lt: LeaseType, n: nat)
    requires Inv(s) && FindActive(s, id, lt).Some?
    ensures Inv(Signal(DropActive(s, id, lt).(forced := n)))
  {
    hide ListsTracked, AllWellFormed, AllOfType, DrawnIds, Exclusion, Parkings;
    var d := DropActive(s, id, lt);
    var s' := Signal(d.(forced := n));
    DropKeepsIdentity(s, id, lt);
    DropKeepsExclusion(s, id, lt);
    DropKeepsParkings(s, id, lt, n);
    SameExclusion(d, s');
    SameIdentity(d, s');
  }

  lemma ReleaseKeeps(s: State, id: nat, lt: LeaseType)
    requires Inv(s)
    ensures Inv(ReleaseLease(s, id, lt))
  {
    hide Identity, Exclusion, Parkings, Conservation;
    if FindActive(s, id, lt).Some? {
      DropKeeps(s, id, lt, s.forced);
      assert DropActive(s, id, lt).(forced := s.forced) == DropActive(s, id, lt);
    }
  }

  lemma ExpireKeeps(s: State, id: nat, lt: LeaseType, now: int)
    requires Inv(s)
    ensures Inv(ExpireLease(s, id, lt, now))
  {
    hide Identity, Exclusion, Parkings, Conservation;
    if FindActive(s, id, lt).Some? {
      DropKeeps(s, id, lt, s.forced + 1);
    }
  }

  lemma EndBarrierMoves(s: State, id: nat)
    requires ListsTracked(s) && IndexOf(s.barriers, id) < |s.barriers|
    ensures Moved(s, EndBarrier(s, id), s.barriers[IndexOf(s.barriers, id)], Holding(Barrier), Done)
    ensures id in s.life && s.life[id] == Holding(Barrier)
  {
    assert Tracked(ListOf(s, Holding(Barrier)), Holding(Barrier), s.life);
  }

  lemma EndBarrierKeepsExclusion(s: State, id: nat)
    requires Exclusion(s)
    ensures Exclusion(EndBarrier(s, id))
  {
    var k := IndexOf(s.barriers, id);
    if k < |s.barriers| {
      NoneBlockedFewerBarriers(Tickets(s.sessions), s.barriers, k);
      NoneBlockedFewerBarriers(OneshotTickets(s), s.barriers, k);
      NoneBlockedFewerBarriers(Tickets(s.transports), s.barriers, k);
    }
  }

  lemma EndBarrierKeeps(s: State, id: nat)
    requires Inv(s)
    ensures Inv(EndBarrier(s, id))
  {
    var k, s' := IndexOf(s.barriers, id), EndBarrier(s, id);
    if k < |s.barriers| {
      EndBarrierMoves(s, id);
      assert Identity(s') by {
        MoveKeepsIdentity(s, s', s.barriers[k], Holding(Barrier), Done);
      }
      EndBarrierKeepsExclusion(s, id);
      assert Parkings(s', 0) by {
        SignalledParkings(s, s', 0);
      }
    }
  }

  lemma WithdrawMoves(s: State, id: nat)
    requires ListsTracked(s) && IndexOf(s.queue, id) < |s.queue|
    ensures Moved(s, Withdraw(s, id), s.queue[IndexOf(s.queue, id)], Waiting, Done)
    ensures id in s.life && s.life[id] == Waiting
  {
    assert Tracked(ListOf(s, Waiting), Waiting, s.life);
    assert forall lt :: ListOf(Withdraw(s, id), Holding(lt)) == ListOf(s, Holding(lt));
  }

  lemma WithdrawKeeps(s: State, id: nat)
    requires Inv(s) && IndexOf(s.queue, id) < |s.queue|
    ensures Inv(Withdraw(s, id))
  {
    var k, s' := IndexOf(s.queue, id), Withdraw(s, id);
    WithdrawMoves(s, id);
    assert Identity(s') by {
      MoveKeepsIdentity(s, s', s.queue[k], Waiting, Done);
    }
    SameExclusion(s, s');
    assert Parkings(s', 0) by {
      SignalledParkings(s, s', 0);
    }
  }

  /** Steps that change nothing a grant depends on need no signal. */
  lemma QuietParkings(s: State, s': State)
    requires Parkings(s, 0)
    requires s'.cfg == s.cfg && s'.queue == s.queue && s'.barriers == s.barriers
    requires |s'.sessions| == |s.sessions| && s'.oneshot.Some? == s.oneshot.Some?
    requires Tickets(s'.transports) == Tickets(s.transports)
    requires s'.parked == s.parked && s'.epoch == s.epoch && s'.clock >= s.clock
    requires forall id :: (id in s'.life && s'.life[id] == Waiting) <==> (id in s.life && s.life[id] == Waiting)
    ensures Parkings(s', 0)
  {
    forall k | 0 <= k < |s'.queue| ensures RefusedWhenParked(s', k) {
      assert RefusedWhenParked(s, k);
      if s.queue[k].id in s.parked {
        SameGrantable(s, s', s.parked[s.queue[k].id].at, k);
      }
    }
  }

  lemma ClockKeeps(s: State, now: int)
    requires Inv(s) && s.clock <= now
    ensures Inv(s.(clock := now))
  {
    hide Identity, Exclusion, Parkings;
    var s' := s.(clock := now);
    SameIdentity(s, s');
    SameExclusion(s, s');
    QuietParkings(s, s');
  }

  lemma DrawKeepsIdentity(s: State)
    requires Identity(s)
    ensures Identity(DrawId(s))
  {
    var s' := DrawId(s);
    assert s.seqNo + 1 !in s.life;
    forall p | Listed(p) ensures Tracked(ListOf(s', p), p, s'.life) {
      assert Tracked(ListOf(s, p), p, s.life);
      assert ListOf(s', p) == ListOf(s, p);
      TrackedOther(ListOf(s, p), p, s.life, s.seqNo + 1, Drawn);
    }
    forall lt ensures AllOfType(ListOf(s', Holding(lt)), lt) {
      assert AllOfType(ListOf(s, Holding(lt)), lt);
    }
  }

  lemma DrawKeeps(s: State)
    requires Inv(s)
    ensures Inv(DrawId(s))
  {
    var s' := DrawId(s);
    DrawKeepsIdentity(s);
    SameExclusion(s, s');
    QuietParkings(s, s');
  }

  lemma RefreshSameTickets(s: State, id: nat, lt: LeaseType, now: int, p: Phase)
    ensures ListOf(Refresh(s, id, lt, now), p) == ListOf(s, p)
  {
  }

  lemma TouchKeepsExclusion(s: State, id: nat, lt: LeaseType, now: int)
    requires Exclusion(s)
    ensures Exclusion(Refresh(s, id, lt, now))
  {
    var s' := Refresh(s, id, lt, now);
    RefreshSameTickets(s, id, lt, now, Holding(Session));
    RefreshSameTickets(s, id, lt, now, Holding(OneShot));
    RefreshSameTickets(s, id, lt, now, Holding(Transport));
    assert Tickets(s'.transports) == Tickets(s.transports) && Tickets(s'.sessions) == Tickets(s.sessions);
    assert OneshotTickets(s') == OneshotTickets(s);
  }

  lemma TouchKeeps(s: State, id: nat, lt: LeaseType, now: int)
    requires Inv(s)
    ensures Inv(Refresh(s, id, lt, now))
  {
    hide Identity, Exclusion, Parkings;
    var s' := Refresh(s, id, lt, now);
    forall p ensures ListOf(s', p) == ListOf(s, p) {
      RefreshSameTickets(s, id, lt, now, p);
    }
    SameIdentity(s, s');
    TouchKeepsExclusion(s, id, lt, now);
    assert ListOf(s', Holding(Transport)) == ListOf(s, Holding(Transport));
    QuietParkings(s, s');
  }

  lemma CheckKeeps(s: State, x: nat, id: nat)
    requires InvDuring(s, x) && IndexOf(s.queue, id) < |s.queue| && (x == 0 || x == id)
    ensures Inv(Check(s, id, s.clock))
  {
    hide Identity, Exclusion, Parkings, Conservation;
    var k := IndexOf(s.queue, id);
    if Grantable(s, s.clock, k) {
      GrantKeeps(s, x, k, s.clock);
    } else {
      ParkKeeps(s, x, k);
    }
  }

  lemma ArriveKeeps(s: State, t: Ticket)
    requires Inv(s) && t.id in s.life && s.life[t.id] == Drawn && WellFormedTicket(t)
    ensures IndexOf(Enqueue(s, t).queue, t.id) < |Enqueue(s, t).queue|
    ensures Inv(Check(Enqueue(s, t), t.id, s.clock))
  {
    EnqueueKeeps(s, t);
    IndexOfLast(s.queue, t);
    CheckKeeps(Enqueue(s, t), t.id, t.id);
  }

  /** Every locked section keeps the invariant, whatever goroutine runs it and when. */
  lemma StepKeepsInv(s: State, l: Label, now: int)
    requires Inv(s) && Enabled(s, l, now)
    ensures Inv(Apply(s, l, now))
  {
    hide InvDuring;
    ClockKeeps(s, now);
    var c := s.(clock := now);
    match l
    case Draw => DrawKeeps(c);
    case Arrive(t) => ArriveKeeps(c, t);
    case Wake(id) => CheckKeeps(c, 0, id);
    case Cancel(id) => WithdrawKeeps(c, id);
    case Release(id, lt) => ReleaseKeeps(c, id, lt);
    case Touch(id, lt) => TouchKeeps(c, id, lt, now);
    case Expire(id, lt) => ExpireKeeps(c, id, lt, now);
    case LeaveBarrier(id) => EndBarrierKeeps(c, id);
  }

  lemma InitInv(cfg: Config, now: int)
    requires cfg.Valid()
    ensures Inv(Init(cfg, now))
  {
  }
}
