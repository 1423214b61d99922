/** A run in which a wake-up is lost: the card is idle, two goroutines wait, one of them could be
    granted, and both sleep on a channel nobody will close. It shows that the ageing condition
    of ArbiterOrder.ParkedAndGrantable cannot be dropped. */
module ArbiterLostWakeup {
  import opened ArbiterModel
  import opened ArbiterRuns

  const LIMITS := Config(DEFAULT_HOLD, 1, 1)

  /** The holder, then a write that will age, then an authentication behind it. */
  const HOLDER := Ticket(1, EUICC_WRITE, 0, Exclusive, Transport, {}, 0)
  const WRITE := Ticket(2, EUICC_WRITE, 0, Exclusive, Transport, {}, 0)
  const AKA := Ticket(3, USIM_AKA, 0, Exclusive, Transport, {}, 0)

  /** One nanosecond before WRITE ages, and the moment it does. */
  const EARLY := PRIORITY_AGING - 1
  const LATE := PRIORITY_AGING

  const HELD := Active(HOLDER, 0, DEFAULT_HOLD)

  const S0 := Init(LIMITS, 0)
  const S1 := S0.(seqNo := 1, life := map[1 := Drawn])
  const S2 := S1.(seqNo := 2, life := map[1 := Drawn, 2 := Drawn])
  const S3 := S2.(seqNo := 3, life := map[1 := Drawn, 2 := Drawn, 3 := Drawn])
  const S4 := S3.(transports := [HELD], epoch := 2, waitRequests := 1, acquires := 1,
                  life := map[1 := Holding(Transport), 2 := Drawn, 3 := Drawn])
  const S5 := S4.(queue := [WRITE], epoch := 3, waitRequests := 2, parked := map[2 := Parking(3, 0)],
                  life := map[1 := Holding(Transport), 2 := Waiting, 3 := Drawn])
  const S6 := S5.(queue := [WRITE, AKA], epoch := 4, waitRequests := 3,
                  parked := map[2 := Parking(3, 0), 3 := Parking(4, 0)],
                  life := map[1 := Holding(Transport), 2 := Waiting, 3 := Waiting])
  const S7 := S6.(transports := [], epoch := 5, clock := EARLY, life := map[1 := Done, 2 := Waiting, 3 := Waiting])
  const S8 := S7.(parked := map[2 := Parking(5, EARLY), 3 := Parking(4, 0)])
  const S9 := S8.(clock := LATE, parked := map[2 := Parking(5, EARLY), 3 := Parking(5, LATE)])

  lemma HolderIsGranted()
    ensures IsStep(S3, Arrive(HOLDER), 0, S4)
  {
    var m := Enqueue(S3, HOLDER);
    assert m.queue == [HOLDER];
    assert Eligible(m, 0);
    assert forall j: nat :: Eligible(m, j) ==> j == 0;
    assert FirstEligible(m, 0);
    assert Grantable(m, 0, 0);
    assert RemoveAt(m.queue, 0) == [];
  }

  /** While the holder is active no exclusive transport can run. */
  lemma NothingEligible(s: State, j: nat)
    requires s.cfg == LIMITS && s.transports == [HELD] && j < |s.queue| && s.queue[j].scope == Exclusive
    ensures !Eligible(s, j)
  {
    assert Tickets(s.transports) == [HOLDER];
  }

  lemma WriteParks()
    ensures IsStep(S4, Arrive(WRITE), 0, S5)
  {
    var m := Enqueue(S4, WRITE);
    assert m.queue == [WRITE];
    NothingEligible(m, 0);
    assert !Grantable(m, 0, 0);
  }

  lemma AuthenticationParks()
    ensures IsStep(S5, Arrive(AKA), 0, S6)
  {
    var m := Enqueue(S5, AKA);
    assert m.queue == [WRITE, AKA];
    NothingEligible(m, 1);
    assert !Grantable(m, 0, 1);
    FirstIndex(m.queue, 3, 1);
  }

  lemma HolderReleases()
    ensures IsStep(S6, Release(1, Transport), EARLY, S7)
  {
    assert Tickets(S6.transports) == [HOLDER];
    assert RemoveAt(S6.transports, 0) == [];
  }

  /** With the card free, both tickets are candidates. */
  lemma BothEligible(s: State)
    requires s.cfg == LIMITS && s.queue == [WRITE, AKA] && s.transports == [] && s.barriers == []
    ensures forall j: nat :: Eligible(s, j) <==> j < 2
  {
    assert Tickets(s.transports) == [];
    assert CanRun(LIMITS, [], WRITE) && CanRun(LIMITS, [], AKA);
  }

  lemma WriteDefersToAuthentication()
    ensures IsStep(S7, Wake(2), EARLY, S8)
  {
    BothEligible(S7);
    assert FirstAKA(S7, 1);
    assert NoneAged(S7, EARLY);
    assert !FirstAKA(S7, 0);
    assert !Grantable(S7, EARLY, 0);
    assert IndexOf(S7.queue, 2) == 0;
  }

  lemma AuthenticationDefersToAgedWrite()
    ensures IsStep(S8, Wake(3), LATE, S9)
  {
    var c := S8.(clock := LATE);
    BothEligible(c);
    assert EligibleAged(c, LATE, 0);
    assert !Grantable(c, LATE, 1);
    FirstIndex(c.queue, 3, 1);
  }

  lemma Draws()
    ensures IsStep(S0, Draw, 0, S1) && IsStep(S1, Draw, 0, S2) && IsStep(S2, Draw, 0, S3)
  {
  }

  lemma NobodyCanWake()
    ensures LeaseFree(S9) && S9.barriers == [] && |S9.queue| == 2 && Grantable(S9, S9.clock, 0)
    ensures forall id: nat, now: int :: !Enabled(S9, Wake(id), now)
  {
    BothEligible(S9);
    assert FirstAged(S9, LATE, 0);
  }

  /** The run is possible, and it ends with an idle card, a grantable ticket, and no goroutine
      that a closed channel has woken, now or at any later time. */
  lemma WakeupIsLost() returns (r: Run)
    ensures IsRun(r) && |r.states| == 10
    ensures var s := r.states[9];
            && LeaseFree(s) && s.barriers == [] && |s.queue| == 2
            && Grantable(s, s.clock, 0)
            && forall id: nat, now: int :: !Enabled(s, Wake(id), now)
  {
    hide Apply, Enabled, Grantable;
    r := Run([S0, S1, S2, S3, S4, S5, S6, S7, S8, S9],
             [Draw, Draw, Draw, Arrive(HOLDER), Arrive(WRITE), Arrive(AKA), Release(1, Transport), Wake(2), Wake(3)],
             [0, 0, 0, 0, 0, 0, EARLY, EARLY, LATE]);
    Draws();
    HolderIsGranted();
    WriteParks();
    AuthenticationParks();
    HolderReleases();
    WriteDefersToAuthentication();
    AuthenticationDefersToAgedWrite();
    NobodyCanWake();
    hide IsStep;
    assert LIMITS.Valid() && r.states[0] == Init(LIMITS, 0);
  }
}
