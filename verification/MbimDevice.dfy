/** Transactions multiplexed over one MBIM device: pending commands, their collectors, and the
    read loop that hands each reply to its caller. */
module MbimDevice {
  import opened Bytes
  import opened MbimFragments
  import opened MbimCollector

  datatype Result = Reply(resp: CommandDone) | Malformed | ReadError

  datatype Indication = Indication(service: Uuid, cid: nat, info: seq<byte>)

  /** Reply channels are numbered as they are made; sent[ch] is everything ever sent on ch. */
  datatype Device = Device(
    nextTx: nat,
    pending: map<nat, nat>,
    collectors: map<nat, Collector>,
    made: nat,
    sent: map<nat, seq<Result>>,
    indications: seq<Indication>)

  const QUEUE: nat := 16

  function New(): Device {
    Device(0, map[], map[], 0, map[], [])
  }

  // ---------------------------------------------------------------- the steps

  datatype Label =
    | AllocTx
    | Register(tx: nat)
    | Forget(tx: nat)
    | Message(msg: seq<byte>)
    | ReadFailed
    | TakeIndication

  /** deliver and deliverError. */
  function Deliver(d: Device, tx: nat, r: Result): Device {
    if tx in d.pending && d.pending[tx] in d.sent then
      var ch := d.pending[tx];
      d.(pending := d.pending - {tx}, sent := d.sent[ch := d.sent[ch] + [r]])
    else d
  }

  function CollectorOf(d: Device, tx: nat): Collector {
    if tx in d.collectors then d.collectors[tx] else FRESH
  }

  /** handleCommandDoneFragment. */
  function HandleCommandDone(d: Device, tx: nat, msg: seq<byte>): Device {
    var (c, r) := Add(CollectorOf(d, tx), msg);
    if r != Added(true) then d.(collectors := d.collectors[tx := c])
    else
      var d1 := d.(collectors := d.collectors - {tx});
      match Assemble(c)
      case Ok(resp) => Deliver(d1, tx, Reply(resp))
      case _ => Deliver(d1, tx, Malformed)
  }

  /** commandDoneShapeIndication: a zero status word is inserted into a first fragment. */
  function Shape(msg: seq<byte>): seq<byte> {
    if |msg| < FRAGMENT || Get32(msg, 16) != 0 || |msg| < FIXED - 4 then msg
    else msg[..4] + LE32(|msg| + 4) + msg[8..40] + LE32(0) + msg[40..]
  }

  /** handleIndicationFragment: a full queue drops the indication. */
  function HandleIndication(d: Device, tx: nat, msg: seq<byte>): Device {
    var (c, r) := Add(CollectorOf(d, tx), Shape(msg));
    if r != Added(true) then d.(collectors := d.collectors[tx := c])
    else
      var d1 := d.(collectors := d.collectors - {tx});
      match Assemble(c)
      case Ok(resp) =>
        if |d.indications| < QUEUE then d1.(indications := d.indications + [Indication(resp.service, resp.cid, resp.info)])
        else d1
      case _ => d1
  }

  /** One turn of the read loop. */
  function HandleMessage(d: Device, msg: seq<byte>): Device {
    if |msg| < HEADER then d
    else
      var mt, tx := Get32(msg, 0), Get32(msg, 8);
      if mt == OPEN_DONE || mt == CLOSE_DONE then
        if |msg| < HEADER + 4 then d
        else Deliver(d, tx, Reply(CommandDone(NO_UUID, 0, Get32(msg, HEADER), [])))
      else if mt == COMMAND_DONE then HandleCommandDone(d, tx, msg)
      else if mt == INDICATE_STATUS then HandleIndication(d, tx, msg)
      else d
  }

  function Apply(d: Device, l: Label): Device {
    match l
    case AllocTx => d.(nextTx := Wrap32(d.nextTx + 1))
    case Register(tx) => d.(pending := d.pending[tx := d.made], made := d.made + 1, sent := d.sent[d.made := []])
    case Forget(tx) => d.(pending := d.pending - {tx})
    case Message(msg) => HandleMessage(d, msg)
    case ReadFailed =>
      d.(pending := map[], collectors := map[],
         sent := ErrorsSent(d.pending, d.sent))
    case TakeIndication => if d.indications == [] then d else d.(indications := d.indications[1..])
  }

  // ---------------------------------------------------------------- at most one result

  /** A channel that is still pending has been sent nothing, and no two transactions share one. */
  ghost predicate Inv(d: Device) {
    && (forall ch: nat :: ch in d.sent <==> ch < d.made)
    && (forall tx :: tx in d.pending ==> d.pending[tx] < d.made && d.sent[d.pending[tx]] == [])
    && (forall t, u :: t in d.pending && u in d.pending && d.pending[t] == d.pending[u] ==> t == u)
    && (forall ch :: ch in d.sent ==> |d.sent[ch]| <= 1)
    && |d.indications| <= QUEUE
  }

  lemma DeliverKeeps(d: Device, tx: nat, r: Result)
    requires Inv(d)
    ensures Inv(Deliver(d, tx, r))
  {
  }

  lemma CollectorsDoNotMatter(d: Device, cs: map<nat, Collector>)
    ensures Inv(d.(collectors := cs)) == Inv(d)
  {
  }

  lemma MessageKeeps(d: Device, msg: seq<byte>)
    requires Inv(d)
    ensures Inv(HandleMessage(d, msg))
  {
    hide Inv, Add, Assemble, Shape, Deliver, Get32;
    if |msg| >= HEADER {
      var mt, tx := Get32(msg, 0), Get32(msg, 8);
      if mt == OPEN_DONE || mt == CLOSE_DONE {
        if |msg| >= HEADER + 4 {
          DeliverKeeps(d, tx, Reply(CommandDone(NO_UUID, 0, Get32(msg, HEADER), [])));
        }
      } else if mt == COMMAND_DONE {
        var (c, r) := Add(CollectorOf(d, tx), msg);
        CollectorsDoNotMatter(d, d.collectors[tx := c]);
        CollectorsDoNotMatter(d, d.collectors - {tx});
        var d1 := d.(collectors := d.collectors - {tx});
        match Assemble(c)
        case Ok(resp) => DeliverKeeps(d1, tx, Reply(resp));
        case _ => DeliverKeeps(d1, tx, Malformed);
      } else if mt == INDICATE_STATUS {
        IndicationKeeps(d, tx, msg);
      }
    }
  }

  lemma {:induction false} IndicationKeeps(d: Device, tx: nat, msg: seq<byte>)
    requires Inv(d)
    ensures Inv(HandleIndication(d, tx, msg))
  {
    hide Add, Assemble, Shape;
  }

  lemma StepKeeps(d: Device, l: Label)
    requires Inv(d)
    ensures Inv(Apply(d, l))
  {
    hide HandleMessage;
    match l
    case Message(msg) => MessageKeeps(d, msg);
    case ReadFailed =>
      forall ch | ch in d.sent && ch in d.pending.Values ensures d.sent[ch] == [] {
        var tx :| tx in d.pending && d.pending[tx] == ch;
      }
    case _ =>
  }

  datatype Run = Run(states: seq<Device>, labels: seq<Label>)

  ghost predicate IsTrace(r: Run) {
    && |r.states| == |r.labels| + 1 && Inv(r.states[0])
    && forall i :: 0 <= i < |r.labels| ==> r.states[i + 1] == Apply(r.states[i], r.labels[i])
  }

  /** A run starts with a new device; a trace may start anywhere on the way. */
  ghost predicate IsRun(r: Run) {
    |r.states| > 0 && r.states[0] == New() && IsTrace(r)
  }

  lemma {:induction false} EveryStateInv(r: Run, i: nat)
    requires IsTrace(r) && i < |r.states|
    ensures Inv(r.states[i])
  {
    if i > 0 {
      hide Inv, Apply;
      EveryStateInv(r, i - 1);
      StepKeeps(r.states[i - 1], r.labels[i - 1]);
      assert r.states[i - 1 + 1] == Apply(r.states[i - 1], r.labels[i - 1]);
    }
  }

  /** A new device satisfies the invariant, so every sequence of steps from it is a run. */
  lemma NewInv()
    ensures Inv(New())
  {
  }

  /** Over a whole run every reply channel is sent at most one result, so a send on its
      one-place buffer never blocks the read loop. */
  lemma SendNeverBlocks(r: Run, i: nat, ch: nat)
    requires IsTrace(r) && i < |r.labels| && ch in r.states[i].sent
    ensures ch in r.states[i + 1].sent && |r.states[i + 1].sent[ch]| <= 1
    ensures r.states[i + 1].sent[ch] != r.states[i].sent[ch] ==> r.states[i].sent[ch] == []
  {
    EveryStateInv(r, i);
    EveryStateInv(r, i + 1);
    SentGrows(r.states[i], r.labels[i], ch);
  }

  /** What was sent on a channel stays; more may follow. */
  lemma SentGrows(d: Device, l: Label, ch: nat)
    requires Inv(d) && ch in d.sent
    ensures ch in Apply(d, l).sent && d.sent[ch] <= Apply(d, l).sent[ch]
  {
    hide Add, Assemble, Shape, Get32;
  }

  /** Taking one entry out of an injective map takes exactly its value out of the values. */
  lemma ValuesWithout(m: map<nat, nat>, tx: nat)
    requires tx in m && forall t, u :: t in m && u in m && m[t] == m[u] ==> t == u
    ensures (m - {tx}).Values == m.Values - {m[tx]} && m[tx] in m.Values
  {
    var rest := m - {tx};
    forall v | v in m.Values - {m[tx]} ensures v in rest.Values {
      var t :| t in m && m[t] == v;
      assert rest[t] == v;
    }
  }

  lemma {:induction false} PendingFacts(d: Device)
    requires Inv(d)
    ensures forall t, u :: t in d.pending && u in d.pending && d.pending[t] == d.pending[u] ==> t == u
    ensures forall ch :: ch in d.pending.Values ==> ch in d.sent && d.sent[ch] == []
  {
    forall ch | ch in d.pending.Values ensures ch in d.sent && d.sent[ch] == [] {
      var tx :| tx in d.pending && d.pending[tx] == ch;
    }
  }

  // ---------------------------------------------------------------- the device object

  class DeviceObject {
    var nextTx: nat
    var pending: map<nat, nat>
    var collector: map<nat, Collector>
    var made: nat
    var sent: map<nat, seq<Result>>
    var indications: seq<Indication>

    ghost function Abs(): Device
      reads this
    {
      Device(nextTx, pending, collector, made, sent, indications)
    }

    ghost predicate Valid()
      reads this
    {
      Inv(Abs())
    }

    constructor ()
      ensures Abs() == New() && Valid()
    {
      nextTx, pending, collector, made, sent, indications := 0, map[], map[], 0, map[], [];
    }

    method Alloc() returns (tx: nat)
      requires Valid()
      modifies this
      ensures Valid() && Abs() == Apply(old(Abs()), AllocTx) && tx == nextTx
    {
      nextTx := Wrap32(nextTx + 1);
      return nextTx;
    }

    method RegisterPending(tx: nat) returns (ch: nat)
      requires Valid()
      modifies this
      ensures Valid() && Abs() == Apply(old(Abs()), Register(tx))
      ensures ch !in old(sent) && pending[tx] == ch && sent[ch] == []
    {
      StepKeeps(Abs(), Register(tx));
      ch := made;
      made := made + 1;
      sent := sent[ch := []];
      pending := pending[tx := ch];
    }

    method RemovePending(tx: nat)
      requires Valid()
      modifies this
      ensures Valid() && Abs() == Apply(old(Abs()), Forget(tx))
    {
      StepKeeps(Abs(), Forget(tx));
      pending := pending - {tx};
    }

    /** deliver and deliverError; the channel has room because nothing was sent on it before. */
    method Send(tx: nat, r: Result)
      requires Valid()
      modifies this`pending, this`sent
      ensures Valid() && Abs() == Deliver(old(Abs()), tx, r)
    {
      DeliverKeeps(Abs(), tx, r);
      if tx in pending {
        var ch := pending[tx];
        assert sent[ch] == [];
        pending := pending - {tx};
        sent := sent[ch := sent[ch] + [r]];
      }
    }

    method CommandCollector(tx: nat) returns (c: Collector)
      modifies this`collector
      ensures c == CollectorOf(old(Abs()), tx) && collector == old(collector)[tx := c]
    {
      c := if tx in collector then collector[tx] else FRESH;
      collector := collector[tx := c];
    }

    method HandleCommandDoneFragment(tx: nat, msg: seq<byte>)
      requires Valid()
      modifies this
      ensures Abs() == HandleCommandDone(old(Abs()), tx, msg)
    {
      hide Add, Assemble;
      var c := CommandCollector(tx);
      var (c', r) := Add(c, msg);
      collector := collector[tx := c'];
      if r != Added(true) {
        return;
      }
      collector := collector - {tx};
      assert Abs() == old(Abs()).(collectors := old(collector) - {tx});
      match Assemble(c') {
        case Ok(resp) => Send(tx, Reply(resp));
        case _ => Send(tx, Malformed);
      }
    }

    method HandleIndicationFragment(tx: nat, msg: seq<byte>)
      modifies this
      ensures Abs() == HandleIndication(old(Abs()), tx, msg)
    {
      hide Add, Assemble, Shape;
      var c := CommandCollector(tx);
      var (c', r) := Add(c, Shape(msg));
      collector := collector[tx := c'];
      if r != Added(true) {
        return;
      }
      collector := collector - {tx};
      assert Abs() == old(Abs()).(collectors := old(collector) - {tx});
      match Assemble(c') {
        case Ok(resp) =>
          if |indications| < QUEUE {
            indications := indications + [Indication(resp.service, resp.cid, resp.info)];
          }
        case _ =>
      }
    }

    /** One turn of readLoop. */
    method OnMessage(msg: seq<byte>)
      requires Valid()
      modifies this
      ensures Valid() && Abs() == Apply(old(Abs()), Message(msg))
    {
      hide Inv, HandleCommandDone, HandleIndication;
      StepKeeps(Abs(), Message(msg));
      if |msg| < HEADER {
        return;
      }
      var mt, tx := Get32(msg, 0), Get32(msg, 8);
      if mt == OPEN_DONE || mt == CLOSE_DONE {
        if |msg| < HEADER + 4 {
          return;
        }
        Send(tx, Reply(CommandDone(NO_UUID, 0, Get32(msg, HEADER), [])));
      } else if mt == COMMAND_DONE {
        HandleCommandDoneFragment(tx, msg);
      } else if mt == INDICATE_STATUS {
        HandleIndicationFragment(tx, msg);
      }
    }

    /** failPending: the maps are taken out under the lock, then every caller gets the error. */
    method FailPending()
      requires Valid()
      modifies this
      ensures Valid() && Abs() == Apply(old(Abs()), ReadFailed)
    {
      hide Inv, Apply;
      StepKeeps(Abs(), ReadFailed);
      PendingFacts(Abs());
      ReadFailedIs(Abs());
      var failed := pending;
      pending := map[];
      collector := map[];
      sent := SendErrors(failed, sent);
    }
  }

  /** The error goes to every pending caller. */
  function ErrorsSent(pending: map<nat, nat>, sent: map<nat, seq<Result>>): map<nat, seq<Result>> {
    map ch | ch in sent :: if ch in pending.Values then sent[ch] + [ReadError] else sent[ch]
  }

  lemma ReadFailedIs(d: Device)
    ensures Apply(d, ReadFailed) == d.(pending := map[], collectors := map[], sent := ErrorsSent(d.pending, d.sent))
  {
    hide HandleMessage;
  }

  lemma {:induction false} ErrorsSentIs(pending: map<nat, nat>, sent: map<nat, seq<Result>>, after: map<nat, seq<Result>>)
    requires after.Keys == sent.Keys
    requires forall ch :: ch in sent ==> after[ch] == if ch in pending.Values then sent[ch] + [ReadError] else sent[ch]
    ensures after == ErrorsSent(pending, sent)
  {
  }

  /** The loop of failPending, over the pending map in whatever order its entries come. */
  method SendErrors(pending: map<nat, nat>, sent: map<nat, seq<Result>>) returns (after: map<nat, seq<Result>>)
    requires forall t, u :: t in pending && u in pending && pending[t] == pending[u] ==> t == u
    requires pending.Values <= sent.Keys
    ensures after == ErrorsSent(pending, sent)
  {
    hide ErrorsSent;
    var todo := pending;
    after := sent;
    while todo != map[]
      invariant forall tx :: tx in todo ==> tx in pending && todo[tx] == pending[tx]
      invariant todo.Values <= pending.Values && after.Keys == sent.Keys
      invariant forall ch :: ch in sent ==>
                  after[ch] == if ch in pending.Values && ch !in todo.Values then sent[ch] + [ReadError] else sent[ch]
      decreases |todo|
    {
      var tx :| tx in todo;
      var ch := todo[tx];
      ValuesWithout(todo, tx);
      todo := todo - {tx};
      after := after[ch := after[ch] + [ReadError]];
    }
    ErrorsSentIs(pending, sent, after);
  }
}
