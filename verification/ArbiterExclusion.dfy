/** Who holds the card and who may take it, in plain terms: classes and the sets barriers block,
    scopes, channels and limits. */
module ArbiterExclusion {
  import opened Wrappers
  import opened ArbiterModel
  import opened ArbiterProtocol
  import opened ArbiterRuns

  // ---------------------------------------------------------------- barriers and classes

  /** Over every run: while a barrier is active no session, one-shot or transport of a class it blocks
      is. */
  lemma {:induction false} NoLeaseUnderItsBarrier(r: Run, i: nat, b: nat)
    requires IsRun(r) && i < |r.states| && b < |r.states[i].barriers|
    ensures var s, blocked := r.states[i], r.states[i].barriers[b].blocked;
            && (forall k :: 0 <= k < |s.sessions| ==> s.sessions[k].ticket.class_ !in blocked)
            && (s.oneshot.Some? ==> s.oneshot.value.ticket.class_ !in blocked)
            && (forall k :: 0 <= k < |s.transports| ==> s.transports[k].ticket.class_ !in blocked)
  {
    hide Identity, Parkings;
    var s := r.states[i];
    EveryStateInv(r, i);
    forall k | 0 <= k < |s.sessions| ensures s.sessions[k].ticket.class_ !in s.barriers[b].blocked {
      assert !BlockedBy(s.barriers, Tickets(s.sessions)[k].class_);
    }
    if s.oneshot.Some? {
      assert !BlockedBy(s.barriers, OneshotTickets(s)[0].class_);
    }
    forall k | 0 <= k < |s.transports| ensures s.transports[k].ticket.class_ !in s.barriers[b].blocked {
      assert !BlockedBy(s.barriers, Tickets(s.transports)[k].class_);
    }
  }

  /** No lease of a class some active barrier blocks is ever granted. */
  lemma {:induction false} BarrierRefusesItsClasses(s: State, now: int, k: nat, b: nat)
    requires k < |s.queue| && s.queue[k].leaseType != Barrier
    requires b < |s.barriers| && s.queue[k].class_ in s.barriers[b].blocked
    ensures !Grantable(s, now, k)
  {
    assert BlockedBy(s.barriers, s.queue[k].class_);
  }

  /** No active barrier blocks the class. */
  predicate Open(s: State, c: Class) {
    forall b :: 0 <= b < |s.barriers| ==> c !in s.barriers[b].blocked
  }

  lemma {:induction false} OpenIs(s: State, c: Class)
    ensures Open(s, c) <==> !BlockedBy(s.barriers, c)
  {
  }

  // ---------------------------------------------------------------- what is granted, ticket by ticket

  /** A session is granted if and only if it is at the head, no active barrier blocks its class, neither a
      one-shot nor a transport is active, and fewer than MaxSessions sessions are. */
  lemma {:induction false} SessionIff(s: State, now: int, k: nat)
    requires k < |s.queue| && s.queue[k].leaseType == Session
    ensures Grantable(s, now, k) <==>
      k == 0 && Open(s, s.queue[k].class_) && s.oneshot == None && s.transports == [] && |s.sessions| < s.cfg.maxSessions
  {
    OpenIs(s, s.queue[k].class_);
  }

  /** A one-shot if and only if it is at the head, its class is open and no lease is active. */
  lemma {:induction false} OneShotIff(s: State, now: int, k: nat)
    requires k < |s.queue| && s.queue[k].leaseType == OneShot
    ensures Grantable(s, now, k) <==>
      k == 0 && Open(s, s.queue[k].class_) && s.sessions == [] && s.oneshot == None && s.transports == []
  {
    OpenIs(s, s.queue[k].class_);
  }

  /** A barrier if and only if no lease is active and it is the first barrier in the queue; what barriers
      are active does not matter. */
  lemma {:induction false} BarrierIff(s: State, now: int, k: nat)
    requires k < |s.queue| && s.queue[k].leaseType == Barrier
    ensures Grantable(s, now, k) <==>
      && s.sessions == [] && s.oneshot == None && s.transports == []
      && forall j :: 0 <= j < k ==> s.queue[j].leaseType != Barrier
  {
  }

  // ---------------------------------------------------------------- transports beside transports

  /** There is room for t: an exclusive transport needs the card to itself; one on a QMI channel may join
      others that are all on other channels, as long as they are fewer than the limit. */
  predicate Room(s: State, t: Ticket) {
    if t.scope == Exclusive then s.transports == []
    else
      && |s.transports| < s.cfg.maxQMI
      && forall a :: 0 <= a < |s.transports| ==>
           s.transports[a].ticket.scope == QMIChannel && s.transports[a].ticket.channel != t.channel
  }

  lemma {:induction false} CountAll(q: seq<Ticket>)
    requires forall i :: 0 <= i < |q| ==> q[i].scope == QMIChannel
    ensures QMICount(q) == |q|
  {
    if q != [] {
      CountAll(q[..|q| - 1]);
    }
  }

  lemma {:induction false} RoomIs(s: State, t: Ticket)
    requires t.leaseType == Transport
    ensures CanRun(s.cfg, Tickets(s.transports), t) <==> Room(s, t)
  {
    var q := Tickets(s.transports);
    if t.scope == QMIChannel {
      if forall i :: 0 <= i < |q| ==> q[i].scope == QMIChannel {
        CountAll(q);
        if CanRun(s.cfg, q, t) {
          forall a | 0 <= a < |s.transports|
            ensures s.transports[a].ticket.scope == QMIChannel && s.transports[a].ticket.channel != t.channel
          {
            assert q[a] == s.transports[a].ticket;
          }
        }
      } else {
        var i :| 0 <= i < |q| && q[i].scope != QMIChannel;
        assert s.transports[i].ticket.scope == Exclusive;
      }
    }
  }

  lemma {:induction false} EligibleAlone(s: State, now: int)
    requires |s.queue| == 1
    ensures Selected(s, now, 0) <==> Eligible(s, 0)
  {
    assert forall j: nat :: Eligible(s, j) ==> j == 0;
    if Eligible(s, 0) {
      if !EligibleAged(s, now, 0) && !EligibleAKA(s, 0) {
        assert FirstEligible(s, 0);
      }
    }
  }

  /** A transport alone in the queue is granted if and only if no session or one-shot is active, its class
      is open and there is room for it. */
  lemma {:induction false} LoneTransportIff(s: State, now: int)
    requires |s.queue| == 1 && s.queue[0].leaseType == Transport
    ensures Grantable(s, now, 0) <==>
      s.sessions == [] && s.oneshot == None && Open(s, s.queue[0].class_) && Room(s, s.queue[0])
  {
    hide BlockedBy, CanRun, Open, Room, Selected;
    EligibleAlone(s, now);
    OpenIs(s, s.queue[0].class_);
    RoomIs(s, s.queue[0]);
  }

  /** With no lease active a session or one-shot at the head, or a transport alone in the queue, is granted
      if no active barrier blocks its class. */
  lemma {:induction false} FreeCardGrantsOpenClasses(s: State, now: int)
    requires s.cfg.Valid() && s.sessions == [] && s.oneshot == None && s.transports == [] && s.queue != []
    requires forall b :: 0 <= b < |s.barriers| ==> s.queue[0].class_ !in s.barriers[b].blocked
    requires s.queue[0].leaseType == Session || s.queue[0].leaseType == OneShot
             || (s.queue[0].leaseType == Transport && |s.queue| == 1)
    ensures Grantable(s, now, 0)
  {
    match s.queue[0].leaseType {
      case Session => SessionIff(s, now, 0);
      case OneShot => OneShotIff(s, now, 0);
      case Transport => LoneTransportIff(s, now);
      case Barrier =>
    }
  }

  /** Behind a transport of an open class that has no room, another of an open class that has is granted if
      and only if the one in front is on a QMI channel: then it waits for its channel only. */
  lemma {:induction false} SecondTransportIff(s: State, now: int)
    requires s.cfg.Valid() && |s.queue| == 2 && s.queue[0].leaseType == Transport && s.queue[1].leaseType == Transport
    requires s.sessions == [] && s.oneshot == None && Open(s, s.queue[0].class_) && Open(s, s.queue[1].class_)
    requires !Room(s, s.queue[0]) && Room(s, s.queue[1])
    ensures Grantable(s, now, 1) <==> s.queue[0].scope == QMIChannel
  {
    OpenIs(s, s.queue[0].class_);
    OpenIs(s, s.queue[1].class_);
    RoomIs(s, s.queue[0]);
    RoomIs(s, s.queue[1]);
    hide BlockedBy, CanRun, Open, Gates;
    GatesIs(s, s.queue[0]);
    var q := s.queue;
    assert Stops(s, q[0]) <==> Gates(s.cfg, Tickets(s.transports), q[0]);
    assert !Eligible(s, 0);
    assert Eligible(s, 1) <==> !Stops(s, q[0]);
    assert forall j: nat :: Eligible(s, j) ==> j == 1;
    if Eligible(s, 1) && !EligibleAged(s, now, 1) && !EligibleAKA(s, 1) {
      assert FirstEligible(s, 1);
    }
    NoRoomForChannel(s, q[0], q[1]);
  }

  /** A transport without room holds up those behind it unless it is on a QMI channel, no exclusive
      transport is active, and the channels in use are fewer than the limit. */
  lemma {:induction false} GatesIs(s: State, t: Ticket)
    requires t.leaseType == Transport
    ensures Gates(s.cfg, Tickets(s.transports), t) <==>
      || t.scope == Exclusive
      || (exists a :: 0 <= a < |s.transports| && s.transports[a].ticket.scope == Exclusive)
      || QMIActive(s) >= s.cfg.maxQMI
  {
    var q := Tickets(s.transports);
    CountIs(s);
    if i :| 0 <= i < |q| && q[i].scope == Exclusive { assert s.transports[i].ticket.scope == Exclusive; }
    if a :| 0 <= a < |s.transports| && s.transports[a].ticket.scope == Exclusive { assert q[a].scope == Exclusive; }
  }

  /** The active transports on QMI channels. */
  function QMIActive(s: State): nat {
    |(set a: nat | a < |s.transports| && s.transports[a].ticket.scope == QMIChannel)|
  }

  lemma {:induction false} CountIs(s: State)
    ensures QMICount(Tickets(s.transports)) == QMIActive(s)
  {
    CountPrefix(s.transports, |s.transports|);
    var q := Tickets(s.transports);
    assert q[..|q|] == q;
    assert (set a: nat | a < |s.transports| && s.transports[a].ticket.scope == QMIChannel)
           == OnChannels(s.transports, |s.transports|);
  }

  function OnChannels(ts: seq<Active>, n: nat): set<nat>
    requires n <= |ts|
  {
    set a: nat | a < n && ts[a].ticket.scope == QMIChannel
  }

  lemma {:induction false} OnChannelsNext(ts: seq<Active>, n: nat)
    requires 0 < n <= |ts|
    ensures n - 1 !in OnChannels(ts, n - 1)
    ensures OnChannels(ts, n) == OnChannels(ts, n - 1) + if ts[n - 1].ticket.scope == QMIChannel then {n - 1} else {}
  {
  }

  lemma {:induction false} CountPrefix(ts: seq<Active>, n: nat)
    requires n <= |ts|
    ensures QMICount(Tickets(ts)[..n]) == |OnChannels(ts, n)|
  {
    hide OnChannels;
    var q := Tickets(ts);
    if n > 0 {
      CountPrefix(ts, n - 1);
      assert q[..n][..n - 1] == q[..n - 1];
      OnChannelsNext(ts, n);
    } else {
      NoneOnChannels(ts);
    }
  }

  lemma {:induction false} NoneOnChannels(ts: seq<Active>)
    ensures OnChannels(ts, 0) == {}
  {
  }

  lemma {:induction false} NoRoomForChannel(s: State, f: Ticket, t: Ticket)
    requires s.cfg.Valid() && !Room(s, f) && Room(s, t)
    ensures f.scope == QMIChannel ==>
      && (forall a :: 0 <= a < |s.transports| ==> s.transports[a].ticket.scope == QMIChannel)
      && QMIActive(s) < s.cfg.maxQMI
  {
    if forall a :: 0 <= a < |s.transports| ==> s.transports[a].ticket.scope == QMIChannel {
      var q := Tickets(s.transports);
      CountIs(s);
      CountAll(q);
    }
  }

  // ---------------------------------------------------------------- who is active together, over runs

  /** Over every run: at most one kind of lease is active; sessions stay within their limit; an exclusive
      transport is alone; transports on QMI channels have different positive channels and stay within theirs. */
  lemma {:induction false} ActiveTogether(r: Run, i: nat)
    requires IsRun(r) && i < |r.states|
    ensures var s := r.states[i];
            && (s.sessions != [] ==> s.oneshot == None && s.transports == [])
            && (s.oneshot != None ==> s.transports == [])
            && |s.sessions| <= s.cfg.maxSessions
            && (forall a :: 0 <= a < |s.transports| && s.transports[a].ticket.scope == Exclusive ==> |s.transports| == 1)
            && (forall a :: 0 <= a < |s.transports| && s.transports[a].ticket.scope == QMIChannel ==>
                  s.transports[a].ticket.channel > 0 && |s.transports| <= s.cfg.maxQMI)
            && forall a, b :: 0 <= a < b < |s.transports| ==> s.transports[a].ticket.channel != s.transports[b].ticket.channel
  {
    hide Identity, Parkings, NoneBlocked;
    var s := r.states[i];
    EveryStateInv(r, i);
    var q := Tickets(s.transports);
    assert forall a :: 0 <= a < |s.transports| ==> q[a] == s.transports[a].ticket;
    forall a | 0 <= a < |s.transports| && s.transports[a].ticket.scope == Exclusive ensures |s.transports| == 1 {
      assert q[a].scope == Exclusive;
    }
  }
}
