/** The answers that are no fragments, errors, and what is refused or ignored. */
module MbimReplies {
  import opened Bytes
  import opened MbimFragments
  import opened MbimCollector
  import opened MbimDevice
  import opened MbimDelivery
  import opened MbimRuns

  // ---------------------------------------------------------------- OPEN_DONE and CLOSE_DONE

  /** The octets of an answer: type, length, transaction and status, little end first. */
  function Answer(kind: nat, tx: nat, status: nat): (m: seq<byte>)
    ensures |m| == 16
  {
    LE32(kind) + LE32(16) + LE32(tx) + LE32(status)
  }

  /** The types of OPEN_DONE and CLOSE_DONE. */
  predicate IsAnswer(kind: nat) {
    kind == 0x8000_0001 || kind == 0x8000_0002
  }

  function StatusOnly(status: nat): Result {
    Reply(CommandDone([0, 0, 0, 0, 0, 0, 0, 0, 0, 0, 0, 0, 0, 0, 0, 0], 0, status, []))
  }

  lemma {:induction false} AnswerFields(kind: nat, tx: nat, status: nat)
    requires kind < U32 && tx < U32 && status < U32
    ensures var m := Answer(kind, tx, status);
            Get32(m, 0) == kind && Get32(m, 4) == 16 && Get32(m, 8) == tx && Get32(m, 12) == status
  {
    hide LE32, Get32;
    var m := Answer(kind, tx, status);
    assert m[0..4] == LE32(kind) && m[4..8] == LE32(16) && m[8..12] == LE32(tx) && m[12..16] == LE32(status);
    Get32OfLE32(m, 0, kind);
    Get32OfLE32(m, 4, 16);
    Get32OfLE32(m, 8, tx);
    Get32OfLE32(m, 12, status);
  }

  /** An answer with status s to a pending transaction leaves exactly that status on its channel and ends the
      transaction; to any other transaction it is nothing. */
  lemma {:induction false} AnswerDelivers(d: Device, kind: nat, tx: nat, status: nat)
    requires Inv(d) && IsAnswer(kind) && tx < U32 && status < U32
    ensures var d' := HandleMessage(d, Answer(kind, tx, status));
            if tx in d.pending then
              var ch := d.pending[tx];
              ch in d.sent && d' == d.(pending := d.pending - {tx}, sent := d.sent[ch := [StatusOnly(status)]])
            else d' == d
  {
    var m := Answer(kind, tx, status);
    AnswerFields(kind, tx, status);
    assert HandleMessage(d, m) == Deliver(d, tx, StatusOnly(status)) by {
      hide Get32, LE32, Deliver, Answer, Add, Assemble, Shape, HandleCommandDone, HandleIndication;
    }
    hide HandleMessage, Answer;
    if tx in d.pending {
      assert d.sent[d.pending[tx]] + [StatusOnly(status)] == [StatusOnly(status)];
    }
  }

  /** A message without a whole header, an answer without a status and a message of any other type change
      nothing. */
  lemma {:induction false} Ignored(d: Device, msg: seq<byte>)
    requires |msg| < 12
          || (IsAnswer(Get32(msg, 0)) && |msg| < 16)
          || (!IsAnswer(Get32(msg, 0)) && Get32(msg, 0) != 0x8000_0003 && Get32(msg, 0) != 0x8000_0007)
    ensures HandleMessage(d, msg) == d
  {
    hide Get32, HandleCommandDone, HandleIndication, Deliver;
    if |msg| >= 12 {
      var mt := Get32(msg, 0);
      assert mt != COMMAND_DONE && mt != INDICATE_STATUS;
    }
  }

  /** Transaction tx waits on channel ch, or has had result as its only one. */
  ghost predicate Waits(d: Device, tx: nat, ch: nat) {
    tx in d.pending && d.pending[tx] == ch && ch in d.sent && d.sent[ch] == []
  }

  lemma {:induction false} OtherKeepsWaiting(d: Device, l: Label, tx: nat, ch: nat)
    requires Inv(d) && !About(l, tx) && Waits(d, tx, ch)
    ensures Waits(Apply(d, l), tx, ch)
  {
    hide HandleMessage;
    if l.Message? {
      OtherMessage(d, l.msg, tx);
    }
  }

  lemma {:induction false} WaitsAlongRun(r: Run, a: nat, b: nat, tx: nat, ch: nat)
    requires IsTrace(r) && a <= b < |r.states| && Waits(r.states[a], tx, ch) && Only(r.labels[a..b], tx) == []
    ensures Waits(r.states[b], tx, ch)
  {
    hide Inv, Apply, About, Only, IsTrace, Waits;
    if a < b {
      RunIsLong(r);
      OnlyLast(r.labels, a, b, tx);
      RunStep(r, b - 1);
      WaitsAlongRun(r, a, b - 1, tx, ch);
      OtherKeepsWaiting(r.states[b - 1], r.labels[b - 1], tx, ch);
    }
  }

  lemma {:induction false} RunIsLong(r: Run)
    requires IsTrace(r)
    ensures |r.states| == |r.labels| + 1
  {
  }

  lemma {:induction false} ResultStays(r: Run, a: nat, b: nat, ch: nat, result: Result)
    requires IsTrace(r) && a <= b < |r.states| && ch in r.states[a].sent && r.states[a].sent[ch] == [result]
    ensures ch in r.states[b].sent && r.states[b].sent[ch] == [result]
  {
    hide Inv, Apply, IsTrace;
    if a < b {
      RunIsLong(r);
      ResultStays(r, a, b - 1, ch, result);
      RunStep(r, b - 1);
      DeliveredStays(r.states[b - 1], r.labels[b - 1], ch, result);
    }
  }

  /** Over any steps: when the one step about a waiting transaction is its answer, its channel then holds
      exactly the answer's status. */
  lemma {:induction false} AnswerArrives(r: Run, a: nat, b: nat, tx: nat, kind: nat, status: nat)
    requires IsTrace(r) && a <= b < |r.states| && tx < U32 && status < U32 && IsAnswer(kind) && tx in r.states[a].pending
    requires Only(r.labels[a..b], tx) == [Message(Answer(kind, tx, status))]
    ensures var ch := r.states[a].pending[tx];
            ch in r.states[b].sent && r.states[b].sent[ch] == [StatusOnly(status)]
    decreases b
  {
    hide Apply, About, Only, Answer, StatusOnly, HandleMessage, IsTrace;
    EveryStateInv(r, a);
    RunIsLong(r);
    var ch := r.states[a].pending[tx];
    if a == b {
      NothingRelevant(r.labels, a, tx);
    } else {
      OnlyLast(r.labels, a, b, tx);
      RunStep(r, b - 1);
      var d, l := r.states[b - 1], r.labels[b - 1];
      if About(l, tx) {
        assert Only(r.labels[a..b - 1], tx) == [] && l == Message(Answer(kind, tx, status)) by {
          var all := Only(r.labels[a..b], tx);
          assert all[|all| - 1] == l;
        }
        WaitsAlongRun(r, a, b - 1, tx, ch);
        AnswerDelivers(d, kind, tx, status);
        MessageStep(d, Answer(kind, tx, status));
      } else {
        AnswerArrives(r, a, b - 1, tx, kind, status);
        ResultStays(r, b - 1, b, ch, StatusOnly(status));
      }
    }
  }

  /** Opening and closing over whole runs from a new device, under the terms of EveryCallGetsItsReply: a call
      whose modem answers it once after it registered has exactly the answer's status. */
  lemma {:induction false} EveryCallGetsItsAnswer(r: Run, draw: nat -> nat, e: nat, b: nat, kind: nat, status: nat)
    requires IsRun(r) && OwnIds(r, draw) && Allocations(r.labels) <= U32
    requires e < b < |r.states| && r.labels[e].Register? && IsAnswer(kind) && status < U32
    requires forall i :: 0 <= i < b ==> r.labels[i] != ReadFailed
    requires forall i :: e < i < b && r.labels[i].Forget? ==> draw(i) != draw(e)
    requires FromModem(r.labels[e + 1..b], r.labels[e].tx) == [Message(Answer(kind, r.labels[e].tx, status))]
    ensures var ch := r.states[e].made; ch in r.states[b].sent && r.states[b].sent[ch] == [StatusOnly(status)]
  {
    hide Inv, Allocations, FromModem, OwnIds, Drew, About, Only, HandleMessage, Answer, StatusOnly;
    var tx := r.labels[e].tx;
    OthersAreMessages(r, draw, e, b);
    var after := r.labels[e + 1..b];
    assert forall i :: 0 <= i < |after| ==> after[i] == r.labels[e + 1 + i];
    OnlyFromModem(after, tx);
    OwnIdFits(r, draw, e);
    assert r.states[e + 1] == Apply(r.states[e], r.labels[e]);
    AnswerArrives(r, e + 1, b, tx, kind, status);
  }

  // ---------------------------------------------------------------- errors

  /** A read error reaches every pending caller once and nobody else, and leaves nothing pending. */
  lemma {:induction false} ReadErrorReachesAll(d: Device)
    requires Inv(d)
    ensures var d' := Apply(d, ReadFailed);
            && (forall tx :: tx in d.pending ==> d.pending[tx] in d'.sent && d'.sent[d.pending[tx]] == [ReadError])
            && (forall ch :: ch in d.sent && (forall tx :: tx in d.pending ==> d.pending[tx] != ch) ==>
                  ch in d'.sent && d'.sent[ch] == d.sent[ch])
            && d'.pending == map[] && d'.collectors == map[] && d'.sent.Keys == d.sent.Keys
            && d'.nextTx == d.nextTx && d'.made == d.made && d'.indications == d.indications
  {
    hide HandleMessage;
    forall tx | tx in d.pending ensures d.pending[tx] in d.pending.Values {
    }
    forall ch | ch in d.sent && (forall tx :: tx in d.pending ==> d.pending[tx] != ch) ensures ch !in d.pending.Values {
    }
  }

  /** The callers' steps: a draw is the next number in 32 bits, a registration a new and empty channel, giving
      up forgets the transaction only, and taking an indication takes the oldest. */
  lemma {:induction false} CallerSteps(d: Device, tx: nat)
    ensures Apply(d, AllocTx) == d.(nextTx := (d.nextTx + 1) % 0x1_0000_0000)
    ensures Apply(d, Register(tx)) == d.(pending := d.pending[tx := d.made], made := d.made + 1, sent := d.sent[d.made := []])
    ensures Apply(d, Forget(tx)) == d.(pending := d.pending - {tx})
    ensures d.indications != [] ==> Apply(d, TakeIndication) == d.(indications := d.indications[1..])
  {
    hide HandleMessage;
  }

  // ---------------------------------------------------------------- fragments that are refused

  /** A fragment is taken if and only if it has a whole fragment header and is the one that comes next: number 0
      with its fixed fields for a new collector, and otherwise the number after the last. */
  lemma {:induction false} TakenIff(c: Collector, b: seq<byte>)
    ensures Add(c, b).1.Added? <==>
            |b| >= 20 && (if c.started then Get32(b, 16) == c.next else Get32(b, 16) == 0 && |b| >= 48)
    ensures !Add(c, b).1.Added? ==>
              Add(c, b) == (c, if |b| < 20 then ShortHeader
                               else if c.started then OutOfOrder
                               else if Get32(b, 16) != 0 then NotFirst else ShortFixed)
  {
    hide Get32;
  }

  /** A fragment that is refused neither answers anybody nor loses what was collected. */
  lemma {:induction false} RefusedFragment(d: Device, msg: seq<byte>, tx: nat)
    requires |msg| >= 12 && Get32(msg, 0) == 0x8000_0003 && Get32(msg, 8) == tx
    requires !Add(CollectorOf(d, tx), msg).1.Added?
    ensures var d' := HandleMessage(d, msg);
            CollectorOf(d', tx) == CollectorOf(d, tx) && d' == d.(collectors := d'.collectors)
  {
    hide Get32, Add, Assemble, Shape;
  }

  // ---------------------------------------------------------------- sizes

  lemma {:induction false} PiecesAreFull(rest: seq<byte>, cap: nat, i: nat)
    requires cap > 0 && i + 1 < |Pieces(rest, cap)|
    ensures |Pieces(rest, cap)[i]| == cap
  {
    if i > 0 {
      PiecesAreFull(rest[if cap > |rest| then |rest| else cap..], cap, i - 1);
    }
  }

  /** No fragment is smaller than it has to be: with a transfer size over 48 every fragment of a command but the
      last fills it; with a smaller size, or an info buffer that fits, there is one fragment. */
  lemma {:induction false} FragmentsAreFull(tx: nat, c: Content, maxTransfer: nat, i: nat)
    requires i + 1 < |SplitChunks(c.info, maxTransfer)|
    ensures maxTransfer > 48 && |c.info| > maxTransfer - 48
    ensures |Frames(3, tx, c, SplitChunks(c.info, maxTransfer))[i]| == maxTransfer
  {
    hide FirstFrame, NextFrame, Pieces;
    if i > 0 {
      PiecesAreFull(c.info[maxTransfer - 48..], maxTransfer - 20, i - 1);
    }
  }
}
