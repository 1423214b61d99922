/** The three MBIM layers together: bytes in any chunking, fragments in any interleaving, and
    each caller gets its own reply; and the inverse on the sending side. */
module MbimEndToEnd {
  import opened Wrappers
  import opened Bytes
  import opened MbimFragments
  import opened MbimCollector
  import opened MbimDevice
  import opened MbimDelivery
  import opened MbimRuns
  import MbimStream

  /** The messages of ms that are about transaction tx. */
  function OfTransaction(ms: seq<seq<byte>>, tx: nat): (r: seq<seq<byte>>)
    ensures |r| <= |ms|
  {
    if ms == [] then []
    else OfTransaction(ms[..|ms| - 1], tx) + if About(Message(ms[|ms| - 1]), tx) then [ms[|ms| - 1]] else []
  }

  /** The device after each of the messages. */
  function After(d: Device, ms: seq<seq<byte>>): (ds: seq<Device>)
    ensures |ds| == |ms| + 1 && ds[0] == d
    ensures forall i :: 0 <= i < |ms| ==> ds[i + 1] == HandleMessage(ds[i], ms[i])
  {
    if ms == [] then [d]
    else
      var ds := After(d, ms[..|ms| - 1]);
      ds + [HandleMessage(ds[|ds| - 1], ms[|ms| - 1])]
  }

  lemma MessagesAppend(a: seq<seq<byte>>, m: seq<byte>)
    ensures Messages(a + [m]) == Messages(a) + [Message(m)]
  {
  }

  lemma {:induction false} OnlyMessages(ms: seq<seq<byte>>, tx: nat)
    ensures Only(Messages(ms), tx) == Messages(OfTransaction(ms, tx))
  {
    hide About;
    if ms == [] {
    } else {
      var front, m := ms[..|ms| - 1], ms[|ms| - 1];
      OnlyMessages(front, tx);
      assert ms == front + [m];
      MessagesAppend(front, m);
      assert Messages(ms)[..|ms| - 1] == Messages(front);
      MessagesAppend(OfTransaction(front, tx), m);
    }
  }

  /** From bytes to callers: if the bytes a device sends are valid messages among which those
      about transaction tx are the fragments of its reply, then however reads cut the bytes up,
      the read loop sees those messages and the caller of tx gets exactly its reply. */
  lemma BytesToCaller(d: Device, script: seq<MbimStream.Chunk>, ms: seq<seq<byte>>,
                      tx: nat, c: Content, chunks: seq<seq<byte>>)
    requires Inv(d) && tx in d.pending && tx !in d.collectors && tx < U32
    requires MbimStream.Clean(script) && MbimStream.DataOf(script) == Concat(ms)
    requires forall i :: 0 <= i < |ms| ==> MbimStream.IsMessage(ms[i])
    requires 0 < |chunks| < U32 && c.Fits() && Concat(chunks) == c.info
    requires OfTransaction(ms, tx) == Frames(COMMAND_DONE, tx, c, chunks)
    ensures MbimStream.ReadMany([], script, |ms|).0 == MbimStream.Msgs(ms)
    ensures var ch, end := d.pending[tx], After(d, ms)[|ms|];
            ch in end.sent && end.sent[ch] == [ReplyOf(c)]
  {
    hide HandleMessage, Frames, Only, OfTransaction, MbimStream.ReadMany, MbimStream.Clean, MbimStream.DataOf, Concat, Inv;
    assert [] + MbimStream.DataOf(script) == Concat(ms) + [];
    MbimStream.StreamComesBack([], script, ms, []);
    var r := Run(After(d, ms), Messages(ms));
    forall i | 0 <= i < |r.labels| ensures r.states[i + 1] == Apply(r.states[i], r.labels[i]) {
      MessageStep(r.states[i], ms[i]);
    }
    OnlyMessages(ms, tx);
    assert r.labels[0..|ms|] == r.labels;
    DeliversOwnReply(r, 0, |ms|, tx, c, chunks);
  }

  // ---------------------------------------------------------------- from octets to callers, over runs

  /** The messages the read loop handled, in order. */
  function Handled(ls: seq<Label>): (ms: seq<seq<byte>>)
    ensures |ms| <= |ls|
  {
    if ls == [] then []
    else
      var l := ls[|ls| - 1];
      Handled(ls[..|ls| - 1]) + if l.Message? then [l.msg] else []
  }

  lemma {:induction false} HandledAppend(a: seq<Label>, b: seq<Label>)
    ensures Handled(a + b) == Handled(a) + Handled(b)
  {
    if b == [] {
      assert a + b == a;
    } else {
      var front, l := b[..|b| - 1], b[|b| - 1];
      HandledAppend(a, front);
      assert (a + b)[..|a + b| - 1] == a + front;
    }
  }

  lemma OfTransactionAppend(ms: seq<seq<byte>>, m: seq<byte>, tx: nat)
    ensures OfTransaction(ms + [m], tx) == OfTransaction(ms, tx) + if About(Message(m), tx) then [m] else []
  {
    hide About;
    assert (ms + [m])[..|ms|] == ms;
  }

  lemma NoMessages()
    ensures Messages([]) == []
  {
  }

  /** The steps about tx that come from the modem are the messages about tx that were handled. */
  lemma {:induction false} FromModemIsHandled(ls: seq<Label>, tx: nat)
    ensures FromModem(ls, tx) == Messages(OfTransaction(Handled(ls), tx))
  {
    hide About, Messages, OfTransaction;
    if ls == [] {
      NoMessages();
      NoneOfTransaction(tx);
    } else {
      var front, l := ls[..|ls| - 1], ls[|ls| - 1];
      FromModemIsHandled(front, tx);
      if l.Message? {
        OfTransactionAppend(Handled(front), l.msg, tx);
        MessagesAppend(OfTransaction(Handled(front), tx), l.msg);
        assert OfTransaction(Handled(front), tx) + [] == OfTransaction(Handled(front), tx);
      } else {
        assert Handled(ls) == Handled(front);
      }
    }
  }

  lemma NoneOfTransaction(tx: nat)
    ensures OfTransaction([], tx) == []
  {
  }

  /** The read loop handles what ReadMessage returns: the messages of the steps are the first reads. */
  ghost predicate HandlesReads(ls: seq<Label>, script: seq<MbimStream.Chunk>) {
    MbimStream.ReadMany([], script, |Handled(ls)|).0 == MbimStream.Msgs(Handled(ls))
  }

  /** Reading from a stream of valid messages the loop handles them in order. */
  lemma HandlesStream(ls: seq<Label>, script: seq<MbimStream.Chunk>, ms: seq<seq<byte>>, rest: seq<byte>)
    requires HandlesReads(ls, script) && MbimStream.Clean(script) && MbimStream.DataOf(script) == Concat(ms) + rest
    requires (forall i :: 0 <= i < |ms| ==> MbimStream.IsMessage(ms[i])) && |Handled(ls)| <= |ms|
    ensures Handled(ls) == ms[..|Handled(ls)|]
  {
    hide MbimStream.ReadMany, MbimStream.Clean, MbimStream.DataOf, Concat, MbimStream.IsMessage, MbimStream.Msgs, Handled;
    ReadsFirst(script, ms, rest, |Handled(ls)|);
    MsgsInjective(Handled(ls), ms[..|Handled(ls)|]);
  }

  lemma ReadsFirst(script: seq<MbimStream.Chunk>, ms: seq<seq<byte>>, rest: seq<byte>, n: nat)
    requires MbimStream.Clean(script) && MbimStream.DataOf(script) == Concat(ms) + rest
    requires (forall i :: 0 <= i < |ms| ==> MbimStream.IsMessage(ms[i])) && n <= |ms|
    ensures MbimStream.ReadMany([], script, n).0 == MbimStream.Msgs(ms[..n])
  {
    hide MbimStream.ReadMany, MbimStream.Clean, MbimStream.DataOf, MbimStream.IsMessage, MbimStream.Msgs;
    var first, after, data := ms[..n], ms[n..], MbimStream.DataOf(script);
    assert forall i :: 0 <= i < n ==> first[i] == ms[i];
    assert ms == first + after;
    ConcatAppend(first, after);
    hide Concat;
    Whole(data, Concat(ms), Concat(first), Concat(after), rest);
    MbimStream.StreamComesBack([], script, first, Concat(after) + rest);
  }

  lemma Whole(data: seq<byte>, all: seq<byte>, first: seq<byte>, after: seq<byte>, rest: seq<byte>)
    requires data == all + rest && all == first + after
    ensures [] + data == first + (after + rest)
  {
  }

  lemma MsgsInjective(a: seq<seq<byte>>, b: seq<seq<byte>>)
    requires MbimStream.Msgs(a) == MbimStream.Msgs(b)
    ensures a == b
  {
    assert forall i :: 0 <= i < |a| ==> MbimStream.Msgs(a)[i] == MbimStream.Msg(a[i]);
  }

  /** From octets to callers, over whole runs from a new device: other calls draw, register and give up as
      they like, reads cut the octets up as they like. If the octets are valid messages, of which those
      handled before step e say nothing about the id registered there and those handled from then to
      step b say of it just the fragments of its reply, the caller has exactly its reply. */
  lemma OctetsToCallers(r: Run, draw: nat -> nat, e: nat, b: nat, script: seq<MbimStream.Chunk>, ms: seq<seq<byte>>, rest: seq<byte>,
                        c: Content, chunks: seq<seq<byte>>)
    requires IsRun(r) && OwnIds(r, draw) && Allocations(r.labels) <= U32
    requires e < b < |r.states| && r.labels[e].Register?
    requires forall i :: 0 <= i < b ==> r.labels[i] != ReadFailed
    requires forall i :: e < i < b && r.labels[i].Forget? ==> draw(i) != draw(e)
    requires HandlesReads(r.labels[..b], script) && MbimStream.Clean(script) && MbimStream.DataOf(script) == Concat(ms) + rest
    requires (forall i :: 0 <= i < |ms| ==> MbimStream.IsMessage(ms[i])) && |Handled(r.labels[..b])| <= |ms|
    requires 0 < |chunks| < U32 && c.Fits() && Concat(chunks) == c.info
    requires var n, m, tx := |Handled(r.labels[..e])|, |Handled(r.labels[..b])|, r.labels[e].tx;
             n <= m && OfTransaction(ms[..n], tx) == [] && OfTransaction(ms[n..m], tx) == Frames(COMMAND_DONE, tx, c, chunks)
    ensures var ch := r.states[e].made; ch in r.states[b].sent && r.states[b].sent[ch] == [ReplyOf(c)]
  {
    hide Inv, Apply, Allocations, Frames, Concat, FromModem, OwnIds, OfTransaction, HandlesReads, Handled, Messages, MbimStream.IsMessage;
    var tx := r.labels[e].tx;
    HandlesStream(r.labels[..b], script, ms, rest);
    HandledBefore(r.labels, e, b);
    FromModemIsHandled(r.labels[..e], tx);
    FromModemIsHandled(r.labels[e + 1..b], tx);
    var n, m := |Handled(r.labels[..e])|, |Handled(r.labels[..b])|;
    assert ms[..m][..n] == ms[..n] && ms[..m][n..] == ms[n..m];
    NoMessages();
    EveryCallGetsItsReply(r, draw, e, b, c, chunks);
  }

  lemma HandledBefore(ls: seq<Label>, e: nat, b: nat)
    requires e < b <= |ls| && ls[e].Register?
    ensures Handled(ls[..b]) == Handled(ls[..e]) + Handled(ls[e + 1..b])
  {
    assert ls[..b] == ls[..e] + ([ls[e]] + ls[e + 1..b]);
    HandledAppend(ls[..e], [ls[e]] + ls[e + 1..b]);
    HandledAppend([ls[e]], ls[e + 1..b]);
    assert [ls[e]][..0] == [];
  }

  // ---------------------------------------------------------------- a command on the wire

  /** Writing messages one after another, up to the first error: what goes out, the error, and the plan
      of writes left. */
  function WriteEach(plan: seq<MbimStream.Write>, ms: seq<seq<byte>>): (r: (seq<byte>, Option<MbimStream.IOError>, seq<MbimStream.Write>))
    decreases |ms|
  {
    if ms == [] then ([], None, plan)
    else
      var (sent, err, rest) := MbimStream.WriteSpec(plan, |ms[0]|);
      if err.Some? then (ms[0][..sent], err, rest)
      else
        var (more, err', rest') := WriteEach(rest, ms[1..]);
        (ms[0][..sent] + more, err', rest')
  }

  /** Without an error all of every message goes out, in order; and there is no error if every write takes
      something and none fails. */
  lemma {:induction false} WritesAll(plan: seq<MbimStream.Write>, ms: seq<seq<byte>>)
    ensures WriteEach(plan, ms).1.None? ==> WriteEach(plan, ms).0 == Concat(ms)
    ensures (forall i :: 0 <= i < |plan| ==> MbimStream.Progresses(plan[i])) ==> WriteEach(plan, ms).1.None?
    decreases |ms|
  {
    if ms != [] {
      hide MbimStream.WriteSpec, MbimStream.Progresses;
      MbimStream.WriteSucceedsIff(plan, |ms[0]|);
      PlanLeft(plan, |ms[0]|);
      var (sent, err, rest) := MbimStream.WriteSpec(plan, |ms[0]|);
      assert sent == |ms[0]| ==> ms[0][..sent] == ms[0];
      WritesAll(rest, ms[1..]);
    }
  }

  lemma {:induction false} PlanLeft(plan: seq<MbimStream.Write>, left: nat)
    ensures var rest := MbimStream.WriteSpec(plan, left).2;
            |rest| <= |plan| && rest == plan[|plan| - |rest|..]
    decreases |plan|
  {
    if left > 0 && plan != [] {
      PlanLeft(plan[1..], left - MbimStream.Taken(plan[0], left));
    }
  }

  /** The sending half of Command: split and write, up to the first error. */
  method SendCommand(t: MbimStream.StreamTransport, tx: nat, c: Content, maxTransfer: nat) returns (err: Option<MbimStream.IOError>)
    modifies t.rw`plan, t.rw`written
    ensures var (sent, e, left) := WriteEach(old(t.rw.plan), Frames(COMMAND, tx, c, SplitChunks(c.info, maxTransfer)));
            err == e && t.rw.plan == left && t.rw.written == old(t.rw.written) + sent
  {
    hide Frames, SplitChunks, WriteEach;
    var frags := SplitCommand(tx, c, maxTransfer);
    err := WriteAll(t, frags);
  }

  method WriteAll(t: MbimStream.StreamTransport, frags: seq<seq<byte>>) returns (err: Option<MbimStream.IOError>)
    modifies t.rw`plan, t.rw`written
    ensures var (sent, e, left) := WriteEach(old(t.rw.plan), frags);
            err == e && t.rw.plan == left && t.rw.written == old(t.rw.written) + sent
  {
    hide MbimStream.WriteSpec, WriteEach, MbimStream.Stops;
    ghost var done: seq<byte> := [];
    ghost var all := WriteEach(t.rw.plan, frags);
    assert frags[0..] == frags && [] + all.0 == all.0;
    for i := 0 to |frags|
      invariant t.rw.written == old(t.rw.written) + done
      invariant all == Then(done, WriteEach(t.rw.plan, frags[i..]))
    {
      EachStep(t.rw.plan, frags, i, done);
      ghost var sent := MbimStream.WriteSpec(t.rw.plan, |frags[i]|).0;
      var e := t.WriteMessage(frags[i]);
      done := done + frags[i][..sent];
      if e.Some? {
        return e;
      }
    }
    EachEnd(t.rw.plan, frags, done);
    return None;
  }

  type Written = (seq<byte>, Option<MbimStream.IOError>, seq<MbimStream.Write>)

  function Then(done: seq<byte>, w: Written): Written {
    (done + w.0, w.1, w.2)
  }

  lemma {:induction false} EachStep(plan: seq<MbimStream.Write>, ms: seq<seq<byte>>, i: nat, done: seq<byte>)
    requires i < |ms|
    ensures var (sent, err, rest) := MbimStream.WriteSpec(plan, |ms[i]|);
            Then(done, WriteEach(plan, ms[i..])) ==
            if err.Some? then (done + ms[i][..sent], err, rest) else Then(done + ms[i][..sent], WriteEach(rest, ms[i + 1..]))
  {
    hide MbimStream.WriteSpec;
    assert ms[i..][1..] == ms[i + 1..];
    var (sent, err, rest) := MbimStream.WriteSpec(plan, |ms[i]|);
    assert done + (ms[i][..sent] + WriteEach(rest, ms[i + 1..]).0) == done + ms[i][..sent] + WriteEach(rest, ms[i + 1..]).0;
  }

  lemma EachEnd(plan: seq<MbimStream.Write>, ms: seq<seq<byte>>, done: seq<byte>)
    ensures Then(done, WriteEach(plan, ms[|ms|..])) == (done, None, plan)
  {
    assert done + [] == done;
  }

  /** A command over the wire: if the writes of SendCommand report no error, then whoever reads what they
      put out, in any chunking, reads exactly the command's fragments and collects the command. And
      they report none if every write takes something and none fails. */
  lemma CommandOverTheWire(plan: seq<MbimStream.Write>, script: seq<MbimStream.Chunk>, tx: nat, c: Content, maxTransfer: nat)
    requires FIXED < maxTransfer <= MbimStream.MAX_MESSAGE && c.Fits()
    ensures var fs := Frames(COMMAND, tx, c, SplitChunks(c.info, maxTransfer));
            var (sent, err, _) := WriteEach(plan, fs);
            && (err.None? && MbimStream.Clean(script) && MbimStream.DataOf(script) == sent ==>
                  && MbimStream.ReadMany([], script, |fs|).0 == MbimStream.Msgs(fs)
                  && Assemble(Feed(FRESH, fs).0) == Ok(CommandDone(c.service, c.cid, c.word, c.info)))
            && ((forall i :: 0 <= i < |plan| ==> MbimStream.Progresses(plan[i])) ==> err.None?)
  {
    hide Frames, SplitChunks, MbimStream.ReadMany, MbimStream.Clean, MbimStream.DataOf, Concat, Get32, WriteEach, Feed, Assemble, MbimStream.Progresses;
    var chunks := SplitChunks(c.info, maxTransfer);
    var fs := Frames(COMMAND, tx, c, chunks);
    WritesAll(plan, fs);
    CutThenCollect(COMMAND, tx, c, chunks);
    forall i | 0 <= i < |fs| ensures MbimStream.IsMessage(fs[i]) {
      FragmentsFit(tx, c, maxTransfer, i);
      FrameSize(tx, c, chunks, i);
    }
    if MbimStream.Clean(script) && MbimStream.DataOf(script) == Concat(fs) {
      assert [] + MbimStream.DataOf(script) == Concat(fs) + [];
      MbimStream.StreamComesBack([], script, fs, []);
    }
  }

  lemma {:induction false} FrameSize(tx: nat, c: Content, chunks: seq<seq<byte>>, i: nat)
    requires i < |chunks|
    ensures |Frames(COMMAND, tx, c, chunks)[i]| >= FRAGMENT
  {
    hide FirstFrame, NextFrame;
  }
}
