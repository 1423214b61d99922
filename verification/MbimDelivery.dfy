/** Every pending command gets exactly its own reply, however the fragments of the transactions
    are interleaved. */
module MbimDelivery {
  import opened Bytes
  import opened MbimFragments
  import opened MbimCollector
  import opened MbimDevice

  /** The steps that can touch what the device knows about transaction tx. */
  predicate About(l: Label, tx: nat) {
    match l
    case Message(msg) =>
      && |msg| >= HEADER && Get32(msg, 8) == tx
      && Get32(msg, 0) in {OPEN_DONE, CLOSE_DONE, COMMAND_DONE, INDICATE_STATUS}
    case Register(t) => t == tx
    case Forget(t) => t == tx
    case ReadFailed => true
    case _ => false
  }

  /** The subsequence of steps about tx. */
  function Only(ls: seq<Label>, tx: nat): (r: seq<Label>)
    ensures |r| <= |ls|
  {
    if ls == [] then []
    else Only(ls[..|ls| - 1], tx) + if About(ls[|ls| - 1], tx) then [ls[|ls| - 1]] else []
  }

  function Messages(fs: seq<seq<byte>>): (ls: seq<Label>)
    ensures |ls| == |fs| && forall i :: 0 <= i < |fs| ==> ls[i] == Message(fs[i])
  {
    seq(|fs|, i requires 0 <= i < |fs| => Message(fs[i]))
  }

  function ReplyOf(c: Content): Result {
    Reply(CommandDone(c.service, c.cid, c.word, c.info))
  }

  /** What a caller gets of a reply whose fragments carry these chunks: an error if they are fewer octets than
      the reply declares, otherwise as many as it declares. */
  function ResultOf(c: Content, chunks: seq<seq<byte>>): Result {
    if |c.info| > |Concat(chunks)| then Malformed
    else Reply(CommandDone(c.service, c.cid, c.word, Concat(chunks)[..|c.info|]))
  }

  lemma {:induction false} ResultOfWhole(c: Content, chunks: seq<seq<byte>>)
    requires Concat(chunks) == c.info
    ensures ResultOf(c, chunks) == ReplyOf(c)
  {
    hide Concat;
    assert c.info[..|c.info|] == c.info;
  }

  /** Where transaction tx, whose caller listens on ch, stands after k fragments of its reply. */
  ghost predicate Progress(d: Device, tx: nat, ch: nat, c: Content, chunks: seq<seq<byte>>, k: nat)
    requires k <= |chunks|
  {
    if k < |chunks| then
      && tx in d.pending && d.pending[tx] == ch
      && ch in d.sent && d.sent[ch] == []
      && CollectorOf(d, tx) == Partial(c, chunks, k)
    else
      ch in d.sent && d.sent[ch] == [ResultOf(c, chunks)]
  }

  /** A collector that belongs to another transaction, or a delivery to one, leaves tx alone. */
  lemma OtherMessage(d: Device, msg: seq<byte>, tx: nat)
    requires Inv(d) && !About(Message(msg), tx) && tx in d.pending
    ensures var d' := HandleMessage(d, msg);
            && tx in d'.pending && d'.pending[tx] == d.pending[tx]
            && d.pending[tx] in d'.sent && d'.sent[d.pending[tx]] == d.sent[d.pending[tx]]
            && CollectorOf(d', tx) == CollectorOf(d, tx)
  {
    hide Add, Assemble, Shape, Get32;
  }

  lemma OtherStep(d: Device, l: Label, tx: nat, ch: nat, c: Content, chunks: seq<seq<byte>>, k: nat)
    requires Inv(d) && !About(l, tx) && k <= |chunks| && Progress(d, tx, ch, c, chunks, k)
    ensures Progress(Apply(d, l), tx, ch, c, chunks, k)
  {
    hide HandleMessage, Partial, ResultOf;
    if k == |chunks| {
      hide Apply, Inv;
      DeliveredStays(d, l, ch, ResultOf(c, chunks));
    } else if l.Message? {
      OtherMessage(d, l.msg, tx);
    }
  }

  lemma {:induction false} DeliveredStays(d: Device, l: Label, ch: nat, result: Result)
    requires Inv(d) && ch in d.sent && d.sent[ch] == [result]
    ensures ch in Apply(d, l).sent && Apply(d, l).sent[ch] == [result]
  {
    hide Apply;
    StepKeeps(d, l);
    SentGrows(d, l, ch);
  }

  lemma {:induction false} FrameIsReply(tx: nat, c: Content, chunks: seq<seq<byte>>, k: nat)
    requires k < |chunks| && tx < U32
    ensures var f := Frames(COMMAND_DONE, tx, c, chunks)[k];
            |f| >= FRAGMENT && Get32(f, 0) == COMMAND_DONE && Get32(f, 8) == tx
  {
    hide Get32, FirstFrame, NextFrame;
    if k == 0 {
      FirstFrameFields(COMMAND_DONE, tx, |chunks|, c, chunks[0]);
    } else {
      NextFrameFields(COMMAND_DONE, tx, |chunks|, k, chunks[k]);
    }
  }

  lemma {:induction false} ReplyIsHandled(d: Device, msg: seq<byte>, tx: nat)
    requires |msg| >= FRAGMENT && Get32(msg, 0) == COMMAND_DONE && Get32(msg, 8) == tx
    ensures HandleMessage(d, msg) == HandleCommandDone(d, tx, msg)
  {
    hide Add, Assemble, Shape, Get32;
  }

  lemma {:induction false} MiddleFragment(d: Device, tx: nat, f: seq<byte>, col: Collector)
    requires Add(CollectorOf(d, tx), f) == (col, Added(false))
    ensures var d' := HandleCommandDone(d, tx, f);
            d'.pending == d.pending && d'.sent == d.sent && CollectorOf(d', tx) == col
  {
    hide Add, Assemble;
  }

  lemma {:induction false} LastFragment(d: Device, tx: nat, f: seq<byte>, col: Collector)
    requires Add(CollectorOf(d, tx), f) == (col, Added(true)) && tx in d.pending && d.pending[tx] in d.sent
    ensures var d', ch := HandleCommandDone(d, tx, f), d.pending[tx];
            ch in d'.sent && d'.sent[ch] == d.sent[ch] + [if Assemble(col).Ok? then Reply(Assemble(col).resp) else Malformed]
  {
    hide Add, Assemble;
  }

  lemma {:induction false} AllCollected(c: Content, chunks: seq<seq<byte>>)
    requires |chunks| > 0
    ensures (if Assemble(Partial(c, chunks, |chunks|)).Ok? then Reply(Assemble(Partial(c, chunks, |chunks|)).resp) else Malformed)
            == ResultOf(c, chunks)
  {
    hide Concat;
    assert chunks[..|chunks|] == chunks;
  }

  /** The next fragment of the reply moves the transaction forward, the last one delivers it. */
  lemma {:induction false} OwnFragment(d: Device, tx: nat, ch: nat, c: Content, chunks: seq<seq<byte>>, k: nat)
    requires k < |chunks| < U32 && c.Fits() && tx < U32
    requires Progress(d, tx, ch, c, chunks, k)
    ensures Progress(HandleMessage(d, Frames(COMMAND_DONE, tx, c, chunks)[k]), tx, ch, c, chunks, k + 1)
  {
    hide Add, Assemble, Partial, Get32, Frames, Concat, HandleMessage, HandleCommandDone, CollectorOf, ResultOf;
    var f, col := Frames(COMMAND_DONE, tx, c, chunks)[k], Partial(c, chunks, k + 1);
    FrameIsReply(tx, c, chunks, k);
    ReplyIsHandled(d, f, tx);
    CollectStep(COMMAND_DONE, tx, c, chunks, k);
    if k + 1 == |chunks| {
      AllCollected(c, chunks);
      LastFragment(d, tx, f, col);
    } else {
      MiddleFragment(d, tx, f, col);
    }
  }

  lemma {:induction false} LastMessage(front: seq<Label>, l: Label, fs: seq<seq<byte>>, k: nat)
    requires k <= |fs| && front + [l] == Messages(fs[..k])
    ensures k > 0 && l == Message(fs[k - 1]) && front == Messages(fs[..k - 1])
  {
    var all := front + [l];
    assert all[|front|] == l;
    assert forall i :: 0 <= i < k - 1 ==> front[i] == all[i] == Message(fs[i]);
  }

  lemma OnlyLast(ls: seq<Label>, a: nat, b: nat, tx: nat)
    requires a < b <= |ls|
    ensures Only(ls[a..b], tx) == Only(ls[a..b - 1], tx) + if About(ls[b - 1], tx) then [ls[b - 1]] else []
  {
    hide About;
    assert ls[a..b][..b - a - 1] == ls[a..b - 1];
  }

  lemma RunStep(r: Run, i: nat)
    requires IsTrace(r) && i < |r.labels|
    ensures r.states[i + 1] == Apply(r.states[i], r.labels[i]) && Inv(r.states[i])
  {
    EveryStateInv(r, i);
  }

  /** Relevant steps so far are the first k fragments of the reply. */
  lemma {:induction false} ProgressAlongRun(r: Run, a: nat, b: nat, tx: nat, ch: nat, c: Content, chunks: seq<seq<byte>>, k: nat)
    requires IsTrace(r) && a <= b < |r.states| && b <= |r.labels| && tx < U32
    requires k <= |chunks| && 0 < |chunks| < U32 && c.Fits()
    requires Progress(r.states[a], tx, ch, c, chunks, 0)
    requires Only(r.labels[a..b], tx) == Messages(Frames(COMMAND_DONE, tx, c, chunks)[..k])
    ensures Progress(r.states[b], tx, ch, c, chunks, k)
  {
    hide Inv, Apply, Progress, About, Frames, Concat, Only, IsTrace, Messages;
    var fs := Frames(COMMAND_DONE, tx, c, chunks);
    if a == b {
      NothingRelevant(r.labels, a, tx);
    } else {
      var d, l, front := r.states[b - 1], r.labels[b - 1], Only(r.labels[a..b - 1], tx);
      OnlyLast(r.labels, a, b, tx);
      RunStep(r, b - 1);
      if About(l, tx) {
        LastMessage(front, l, fs, k);
        ProgressAlongRun(r, a, b - 1, tx, ch, c, chunks, k - 1);
        OwnFragment(d, tx, ch, c, chunks, k - 1);
        MessageStep(d, fs[k - 1]);
      } else {
        ProgressAlongRun(r, a, b - 1, tx, ch, c, chunks, k);
        OtherStep(d, l, tx, ch, c, chunks, k);
      }
    }
  }

  lemma NothingRelevant(ls: seq<Label>, a: nat, tx: nat)
    requires a <= |ls|
    ensures Only(ls[a..a], tx) == []
  {
  }

  lemma MessageStep(d: Device, msg: seq<byte>)
    ensures Apply(d, Message(msg)) == HandleMessage(d, msg)
  {
  }

  /** Delivery of what comes, over all interleavings: as DeliversOwnReply, for fragments that carry more or
      fewer octets than the reply declares. */
  lemma {:induction false} DeliversWhatCame(r: Run, a: nat, b: nat, tx: nat, c: Content, chunks: seq<seq<byte>>)
    requires IsTrace(r) && a <= b < |r.states| && tx < U32
    requires tx in r.states[a].pending && tx !in r.states[a].collectors
    requires 0 < |chunks| < U32 && c.Fits()
    requires Only(r.labels[a..b], tx) == Messages(Frames(COMMAND_DONE, tx, c, chunks))
    ensures var ch := r.states[a].pending[tx];
            ch in r.states[b].sent && r.states[b].sent[ch] ==
              [if |c.info| > |Concat(chunks)| then Malformed
               else Reply(CommandDone(c.service, c.cid, c.word, Concat(chunks)[..|c.info|]))]
  {
    hide Apply, About, Frames, Concat, Only;
    EveryStateInv(r, a);
    var fs := Frames(COMMAND_DONE, tx, c, chunks);
    assert fs[..|fs|] == fs;
    ProgressAlongRun(r, a, b, tx, r.states[a].pending[tx], c, chunks, |chunks|);
  }

  /** Delivery, over all interleavings: let a command be pending on channel ch with no collector
      yet, and let the steps about its transaction up to some later state be exactly the
      fragments of its reply, in order. Whatever else happens in between, the channel then holds
      exactly one result, with the reply's own service, CID, status and info buffer. */
  lemma DeliversOwnReply(r: Run, a: nat, b: nat, tx: nat, c: Content, chunks: seq<seq<byte>>)
    requires IsTrace(r) && a <= b < |r.states| && tx < U32
    requires tx in r.states[a].pending && tx !in r.states[a].collectors
    requires 0 < |chunks| < U32 && c.Fits() && Concat(chunks) == c.info
    requires Only(r.labels[a..b], tx) == Messages(Frames(COMMAND_DONE, tx, c, chunks))
    ensures var ch := r.states[a].pending[tx];
            ch in r.states[b].sent && r.states[b].sent[ch] == [ReplyOf(c)]
  {
    hide Apply, About, Frames, Concat, Only, IsTrace;
    DeliversWhatCame(r, a, b, tx, c, chunks);
    ResultOfWhole(c, chunks);
  }

  // ---------------------------------------------------------------- transaction ids

  function Allocations(ls: seq<Label>): (n: nat)
    ensures n <= |ls|
  {
    if ls == [] then 0 else Allocations(ls[..|ls| - 1]) + if ls[|ls| - 1].AllocTx? then 1 else 0
  }

  lemma WrapSucc(x: nat, y: nat)
    requires Wrap32(x) == Wrap32(y)
    ensures Wrap32(x + 1) == Wrap32(y + 1)
  {
  }

  lemma {:induction false} NextTxStep(d: Device, l: Label)
    ensures Apply(d, l).nextTx == if l.AllocTx? then Wrap32(d.nextTx + 1) else d.nextTx
  {
    hide Add, Assemble, Shape, Get32;
  }

  lemma {:induction false} NextTxCounts(r: Run, a: nat, b: nat)
    requires IsTrace(r) && a <= b < |r.states|
    ensures Wrap32(r.states[b].nextTx) == Wrap32(r.states[a].nextTx + Allocations(r.labels[a..b]))
  {
    hide Apply, Wrap32;
    var ls := r.labels[a..b];
    if a < b {
      NextTxCounts(r, a, b - 1);
      assert ls[..|ls| - 1] == r.labels[a..b - 1] && ls[|ls| - 1] == r.labels[b - 1];
      var d, l := r.states[b - 1], r.labels[b - 1];
      NextTxStep(d, l);
      assert r.states[b - 1 + 1] == Apply(d, l);
      WrapSucc(d.nextTx, r.states[a].nextTx + Allocations(r.labels[a..b - 1]));
      WrapTwice(d.nextTx + 1);
    }
  }

  lemma WrapTwice(x: nat)
    ensures Wrap32(Wrap32(x)) == Wrap32(x)
  {
  }

  /** Two allocations fewer than 2^32 apart never hand out the same transaction id, and exactly
      2^32 apart they always do. */
  lemma TransactionIdsDiffer(r: Run, a: nat, b: nat)
    requires IsTrace(r) && a < b < |r.labels| && r.labels[a].AllocTx? && r.labels[b].AllocTx?
    ensures var between := Allocations(r.labels[a + 1..b]) + 1;
            r.states[a + 1].nextTx == r.states[b + 1].nextTx <==> between % U32 == 0
  {
    hide Apply;
    NextTxCounts(r, a + 1, b);
    NextTxStep(r.states[a], r.labels[a]);
    NextTxStep(r.states[b], r.labels[b]);
    assert r.states[b + 1] == Apply(r.states[b], r.labels[b]);
    assert r.states[a + 1] == Apply(r.states[a], r.labels[a]);
    SameAfter(r.states[a + 1].nextTx, r.states[b].nextTx, Allocations(r.labels[a + 1..b]));
  }

  lemma {:induction false} SameAfter(x: nat, y: nat, n: nat)
    requires x < U32 && Wrap32(y) == Wrap32(x + n)
    ensures x == Wrap32(y + 1) <==> (n + 1) % U32 == 0
  {
    WrapSucc(y, x + n);
    var q := (x + n + 1) / U32;
    assert x + n + 1 == q * U32 + Wrap32(x + n + 1);
  }
}
