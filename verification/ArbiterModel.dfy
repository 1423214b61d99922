/** The APDU arbiter as values: the tickets, the state behind the mutex, the declarative
    meaning of the selection functions, and one pure function per locked section. */
module ArbiterModel {
  import opened Wrappers

  /** APDUClass is an open string type; only two of its values are special to the arbiter. */
  type Class = string

  const USIM_AKA: Class := "USIMAKA"
  const SMSC: Class := "SMSC"
  const EUICC_WRITE: Class := "EUICCWrite"
  const SWITCH_BARRIER: Class := "SwitchBarrier"

  /** transportPriorityAging, in nanoseconds. */
  const PRIORITY_AGING: int := 500_000_000

  const DEFAULT_HOLD: int := 120_000_000_000

  datatype Scope = Exclusive | QMIChannel

  datatype LeaseType = Session | OneShot | Transport | Barrier

  /** A queued request. The source's `kind` field is derivable: a ticket is of kind
      "barrier" exactly when its lease type is Barrier. */
  datatype Ticket = Ticket(
    id: nat,
    class_: Class,
    channel: int,
    scope: Scope,
    leaseType: LeaseType,
    blocked: set<Class>,
    enqueued: int)

  datatype Active = Active(ticket: Ticket, acquiredAt: int, expiresAt: int)

  /** Limits after the constructor has replaced non-positive values. */
  datatype Config = Config(maxHold: int, maxSessions: int, maxQMI: int) {
    predicate Valid() {
      maxHold > 0 && maxSessions > 0 && maxQMI > 0
    }
  }

  /** A goroutine parked on a notification channel: the channel's number and the clock
      reading of the check that sent it to sleep. */
  datatype Parking = Parking(epoch: nat, at: int)

  /** The life of a ticket id. */
  datatype Phase = Drawn | Waiting | Holding(leaseType: LeaseType) | Done

  /** Everything behind the mutex, plus the parked goroutines and the life of every id.
      `epoch` numbers the broadcast channels: closing notifyC and making a new one is
      epoch + 1, and a goroutine parked on channel e has been woken once e < epoch. */
  datatype State = State(
    cfg: Config,
    seqNo: nat,
    queue: seq<Ticket>,
    sessions: seq<Active>,
    oneshot: Option<Active>,
    transports: seq<Active>,
    barriers: seq<Ticket>,
    epoch: nat,
    waitRequests: nat,
    acquires: nat,
    waitTimeouts: nat,
    forced: nat,
    parked: map<nat, Parking>,
    life: map<nat, Phase>,
    clock: int)

  // ---------------------------------------------------------------- lookups

  /** Position of the first ticket at or after k with this id, or |q|. */
  function IndexFrom(q: seq<Ticket>, id: nat, k: nat): (r: nat)
    requires k <= |q|
    ensures k <= r <= |q|
    ensures r < |q| ==> q[r].id == id
    ensures forall j :: k <= j < r ==> q[j].id != id
    decreases |q| - k
  {
    if k == |q| || q[k].id == id then k else IndexFrom(q, id, k + 1)
  }

  /** Position of the first ticket with this id, or |q|. */
  function IndexOf(q: seq<Ticket>, id: nat): (k: nat)
    ensures k <= |q|
    ensures k < |q| ==> q[k].id == id
    ensures forall j :: 0 <= j < k ==> q[j].id != id
  {
    IndexFrom(q, id, 0)
  }

  lemma FirstIndex(q: seq<Ticket>, id: nat, k: nat)
    requires k < |q| && q[k].id == id && forall j :: 0 <= j < k ==> q[j].id != id
    ensures IndexOf(q, id) == k
  {
    var r := IndexOf(q, id);
    assert r <= k;
    assert q[r].id == id;
  }

  lemma AbsentIndex(q: seq<Ticket>, id: nat)
    requires forall j :: 0 <= j < |q| ==> q[j].id != id
    ensures IndexOf(q, id) == |q|
  {
  }

  function Tickets(a: seq<Active>): (q: seq<Ticket>)
    ensures |q| == |a|
    ensures forall i :: 0 <= i < |a| ==> q[i] == a[i].ticket
  {
    seq(|a|, i requires 0 <= i < |a| => a[i].ticket)
  }

  function ActiveIndex(a: seq<Active>, id: nat): nat {
    IndexOf(Tickets(a), id)
  }

  function RemoveAt<T>(s: seq<T>, k: nat): (r: seq<T>)
    requires k < |s|
    ensures |r| == |s| - 1
    ensures forall i :: 0 <= i < k ==> r[i] == s[i]
    ensures forall i :: k <= i < |r| ==> r[i] == s[i + 1]
  {
    s[..k] + s[k + 1..]
  }

  // ---------------------------------------------------------------- when a ticket may run

  predicate BlockedBy(barriers: seq<Ticket>, c: Class) {
    exists b :: 0 <= b < |barriers| && c in barriers[b].blocked
  }

  predicate LeaseFree(s: State) {
    s.sessions == [] && s.oneshot.None? && s.transports == []
  }

  predicate HasExclusive(ts: seq<Ticket>) {
    exists i :: 0 <= i < |ts| && ts[i].scope == Exclusive
  }

  function QMICount(ts: seq<Ticket>): (n: nat)
    ensures n <= |ts|
  {
    if ts == [] then 0
    else QMICount(ts[..|ts| - 1]) + if ts[|ts| - 1].scope == QMIChannel then 1 else 0
  }

  predicate OnChannel(ts: seq<Ticket>, channel: int) {
    exists i :: 0 <= i < |ts| && ts[i].scope == QMIChannel && ts[i].channel == channel
  }

  /** Whether the transports now active (on) leave room for ticket t. */
  predicate CanRun(cfg: Config, on: seq<Ticket>, t: Ticket) {
    && t.leaseType == Transport
    && (if t.scope == Exclusive then on == []
        else !HasExclusive(on) && QMICount(on) < cfg.maxQMI && !OnChannel(on, t.channel))
  }

  /** Whether a transport that cannot run also holds up those behind it. */
  predicate Gates(cfg: Config, on: seq<Ticket>, t: Ticket) {
    t.leaseType != Transport || t.scope == Exclusive || HasExclusive(on) || QMICount(on) >= cfg.maxQMI
  }

  /** The tickets at which the search for the next transport ends. */
  predicate Stops(s: State, t: Ticket) {
    t.leaseType != Transport || (!BlockedBy(s.barriers, t.class_) && !CanRun(s.cfg, Tickets(s.transports), t) && Gates(s.cfg, Tickets(s.transports), t))
  }

  predicate Scanned(s: State, k: nat)
    requires k <= |s.queue|
  {
    forall j :: 0 <= j < k ==> !Stops(s, s.queue[j])
  }

  /** Ticket k is a candidate: nothing before it ends the search and it could run now. */
  predicate Eligible(s: State, k: nat) {
    && k < |s.queue|
    && Scanned(s, k)
    && !BlockedBy(s.barriers, s.queue[k].class_)
    && CanRun(s.cfg, Tickets(s.transports), s.queue[k])
  }

  predicate EligibleAKA(s: State, k: nat) {
    Eligible(s, k) && s.queue[k].class_ == USIM_AKA
  }

  predicate EligibleAged(s: State, now: int, k: nat) {
    Eligible(s, k) && s.queue[k].class_ != USIM_AKA && now - s.queue[k].enqueued >= PRIORITY_AGING
  }

  ghost predicate FirstEligible(s: State, k: nat) {
    Eligible(s, k) && forall j: nat :: j < k ==> !Eligible(s, j)
  }

  ghost predicate FirstAKA(s: State, k: nat) {
    EligibleAKA(s, k) && forall j: nat :: j < k ==> !EligibleAKA(s, j)
  }

  ghost predicate FirstAged(s: State, now: int, k: nat) {
    EligibleAged(s, now, k) && forall j: nat :: j < k ==> !EligibleAged(s, now, j)
  }

  ghost predicate NoneAged(s: State, now: int) {
    forall j: nat :: !EligibleAged(s, now, j)
  }

  ghost predicate NoneAKA(s: State) {
    forall j: nat :: !EligibleAKA(s, j)
  }

  /** What the transport search chooses: the first aged candidate outside the AKA class, else the
      first AKA candidate, else the first candidate. */
  ghost predicate Selected(s: State, now: int, k: nat) {
    || FirstAged(s, now, k)
    || (NoneAged(s, now) && FirstAKA(s, k))
    || (NoneAged(s, now) && NoneAKA(s) && FirstEligible(s, k))
  }

  ghost predicate FirstBarrier(q: seq<Ticket>, k: nat) {
    k < |q| && q[k].leaseType == Barrier && forall j :: 0 <= j < k ==> q[j].leaseType != Barrier
  }

  /** The ticket at position k may be granted at time now. */
  ghost predicate Grantable(s: State, now: int, k: nat)
    requires k < |s.queue|
  {
    match s.queue[k].leaseType
    case Barrier => LeaseFree(s) && FirstBarrier(s.queue, k)
    case Session =>
      && k == 0 && !BlockedBy(s.barriers, s.queue[k].class_)
      && s.oneshot.None? && s.transports == [] && |s.sessions| < s.cfg.maxSessions
    case OneShot => k == 0 && !BlockedBy(s.barriers, s.queue[k].class_) && LeaseFree(s)
    case Transport => s.sessions == [] && s.oneshot.None? && Selected(s, now, k)
  }

  // ---------------------------------------------------------------- the locked sections

  /** signalLocked: close the current channel and open the next. */
  function Signal(s: State): State {
    s.(epoch := s.epoch + 1)
  }

  function Enqueue(s: State, t: Ticket): State {
    Signal(s.(queue := s.queue + [t], waitRequests := s.waitRequests + 1, life := s.life[t.id := Waiting]))
  }

  function AddActive(s: State, t: Ticket, now: int): State {
    var a := Active(t, now, now + s.cfg.maxHold);
    match t.leaseType
    case Session => s.(sessions := s.sessions + [a])
    case OneShot => s.(oneshot := Some(a))
    case Transport => s.(transports := s.transports + [a])
    case Barrier => s.(barriers := s.barriers + [t])
  }

  function Grant(s: State, k: nat, now: int): State
    requires k < |s.queue|
  {
    var t := s.queue[k];
    Signal(AddActive(s, t, now).(
      queue := RemoveAt(s.queue, k),
      acquires := s.acquires + 1,
      parked := s.parked - {t.id},
      life := s.life[t.id := Holding(t.leaseType)]))
  }

  function Park(s: State, id: nat, now: int): State {
    s.(parked := s.parked[id := Parking(s.epoch, now)])
  }

  /** The head of the acquire loop: take the lease if it is grantable, otherwise park. */
  ghost function Check(s: State, id: nat, now: int): State
    requires IndexOf(s.queue, id) < |s.queue|
  {
    var k := IndexOf(s.queue, id);
    if Grantable(s, now, k) then Grant(s, k, now) else Park(s, id, now)
  }

  function FindActive(s: State, id: nat, lt: LeaseType): (r: Option<Active>)
    ensures r.Some? ==> r.value.ticket.id == id
  {
    match lt
    case Session => var k := ActiveIndex(s.sessions, id); if k < |s.sessions| then Some(s.sessions[k]) else None
    case OneShot => if s.oneshot.Some? && s.oneshot.value.ticket.id == id then s.oneshot else None
    case Transport => var k := ActiveIndex(s.transports, id); if k < |s.transports| then Some(s.transports[k]) else None
    case Barrier => None
  }

  /** removeActiveLocked: drop the lease from the list its type names. */
  function DropActive(s: State, id: nat, lt: LeaseType): State
    requires FindActive(s, id, lt).Some?
  {
    var s1 := s.(life := s.life[id := Done]);
    match lt
    case Session => s1.(sessions := RemoveAt(s.sessions, ActiveIndex(s.sessions, id)))
    case OneShot => s1.(oneshot := None)
    case Transport => s1.(transports := RemoveAt(s.transports, ActiveIndex(s.transports, id)))
    case Barrier => s1
  }

  /** touch: move the deadline of the lease, if it is still active. */
  function Refresh(s: State, id: nat, lt: LeaseType, now: int): State {
    if FindActive(s, id, lt).None? then s
    else
      var a := FindActive(s, id, lt).value.(expiresAt := now + s.cfg.maxHold);
      match lt
      case Session => s.(sessions := s.sessions[ActiveIndex(s.sessions, id) := a])
      case OneShot => s.(oneshot := Some(a))
      case Transport => s.(transports := s.transports[ActiveIndex(s.transports, id) := a])
      case Barrier => s
  }

  function DrawId(s: State): State {
    s.(seqNo := s.seqNo + 1, life := s.life[s.seqNo + 1 := Drawn])
  }

  /** The waiter's context ended: leave the queue. */
  function Withdraw(s: State, id: nat): State
    requires IndexOf(s.queue, id) < |s.queue|
  {
    Signal(s.(queue := RemoveAt(s.queue, IndexOf(s.queue, id)), waitTimeouts := s.waitTimeouts + 1,
              parked := s.parked - {id}, life := s.life[id := Done]))
  }

  function ReleaseLease(s: State, id: nat, lt: LeaseType): State {
    if FindActive(s, id, lt).None? then s else Signal(DropActive(s, id, lt))
  }

  /** The watchdog: force a release only if the deadline has passed. */
  function ExpireLease(s: State, id: nat, lt: LeaseType, now: int): State {
    if FindActive(s, id, lt).None? || now < FindActive(s, id, lt).value.expiresAt then s
    else Signal(DropActive(s, id, lt).(forced := s.forced + 1))
  }

  function EndBarrier(s: State, id: nat): State {
    var k := IndexOf(s.barriers, id);
    if k == |s.barriers| then s
    else Signal(s.(barriers := RemoveAt(s.barriers, k), life := s.life[id := Done]))
  }

  /** One label per locked section; Draw is the atomic increment of the id counter. */
  datatype Label =
    | Draw
    | Arrive(ticket: Ticket)
    | Wake(id: nat)
    | Cancel(id: nat)
    | Release(id: nat, leaseType: LeaseType)
    | Touch(id: nat, leaseType: LeaseType)
    | Expire(id: nat, leaseType: LeaseType)
    | LeaveBarrier(id: nat)

  /** What a caller of the section must satisfy: an id is used once, only parked goroutines
      wake or time out, and only those whose channel was closed wake. */
  predicate Enabled(s: State, l: Label, now: int) {
    && s.clock <= now
    && match l
       case Arrive(t) => t.id in s.life && s.life[t.id] == Drawn && WellFormedTicket(t) && t.enqueued <= now
       case Wake(id) => id in s.parked && s.parked[id].epoch < s.epoch && IndexOf(s.queue, id) < |s.queue|
       case Cancel(id) => id in s.parked && IndexOf(s.queue, id) < |s.queue|
       case _ => true
  }

  /** What normalisation guarantees of the tickets it builds. */
  predicate WellFormedTicket(t: Ticket) {
    && (t.scope == QMIChannel ==> t.leaseType == Transport && t.channel > 0)
    && (t.leaseType == Barrier ==> t.blocked != {})
  }

  ghost function Apply(s0: State, l: Label, now: int): State
    requires Enabled(s0, l, now)
  {
    var s := s0.(clock := now);
    match l
    case Draw => DrawId(s)
    case Arrive(t) =>
      IndexOfLast(s.queue, t);
      Check(Enqueue(s, t), t.id, now)
    case Wake(id) => Check(s, id, now)
    case Cancel(id) => Withdraw(s, id)
    case Release(id, lt) => ReleaseLease(s, id, lt)
    case Touch(id, lt) => Refresh(s, id, lt, now)
    case Expire(id, lt) => ExpireLease(s, id, lt, now)
    case LeaveBarrier(id) => EndBarrier(s, id)
  }

  /** New, after its defaults have been filled in. */
  function Init(cfg: Config, now: int): State {
    State(cfg, 0, [], [], None, [], [], 0, 0, 0, 0, 0, map[], map[], now)
  }

  lemma IndexOfLast(q: seq<Ticket>, t: Ticket)
    ensures IndexOf(q + [t], t.id) < |q + [t]|
  {
    assert (q + [t])[|q|].id == t.id;
  }

  /** An id occurring once is found where it occurs. */
  lemma IndexOfUnique(q: seq<Ticket>, k: nat)
    requires k < |q|
    requires forall i, j :: 0 <= i < j < |q| ==> q[i].id != q[j].id
    ensures IndexOf(q, q[k].id) == k
  {
    var m := IndexOf(q, q[k].id);
    assert m <= k;
  }
}
