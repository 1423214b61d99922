/** Unsolicited indications: cut into fragments by the modem, interleaved with anything else, and
    appended whole to a queue that may be full. */
module MbimIndications {
  import opened Bytes
  import opened MbimFragments
  import opened MbimCollector
  import opened MbimDevice
  import opened MbimDelivery

  // ---------------------------------------------------------------- fragments

  /** A first INDICATE_STATUS fragment: like a COMMAND_DONE one, without the status word. */
  function IndicationFirst(tx: nat, total: nat, c: Content, chunk: seq<byte>): (f: seq<byte>)
    ensures |f| == FIXED - 4 + |chunk|
  {
    Header(INDICATE_STATUS, FIXED - 4 + |chunk|, tx) + LE32(total) + LE32(0) + c.service + LE32(c.cid) + LE32(|c.info|) + chunk
  }

  /** Shaping inserts the missing status as zero and mends the length field, so the collector
      sees exactly the first fragment of a reply with status 0. */
  lemma {:induction false} ShapedFirst(tx: nat, total: nat, c: Content, chunk: seq<byte>)
    ensures Shape(IndicationFirst(tx, total, c, chunk)) == FirstFrame(INDICATE_STATUS, tx, total, c.(word := 0), chunk)
  {
    hide LE32;
    var f := IndicationFirst(tx, total, c, chunk);
    assert Get32(f, 16) == 0 by {
      assert f[16..20] == LE32(0);
      Get32OfLE32(f, 16, 0);
    }
    assert f[..4] == LE32(INDICATE_STATUS) && f[8..12] == LE32(tx) && f[12..16] == LE32(total) && f[16..20] == LE32(0);
    assert f[20..36] == c.service && f[36..40] == LE32(c.cid) && f[40..] == LE32(|c.info|) + chunk;
    assert f[8..40] == LE32(tx) + LE32(total) + LE32(0) + c.service + LE32(c.cid);
  }

  /** Later fragments pass through unshaped. */
  lemma {:induction false} ShapedNext(tx: nat, total: nat, i: nat, chunk: seq<byte>)
    requires 0 < i < U32
    ensures Shape(NextFrame(INDICATE_STATUS, tx, total, i, chunk)) == NextFrame(INDICATE_STATUS, tx, total, i, chunk)
  {
    hide NextFrame, Get32;
    NextFrameFields(INDICATE_STATUS, tx, total, i, chunk);
  }

  function IndicationFrames(tx: nat, c: Content, chunks: seq<seq<byte>>): (fs: seq<seq<byte>>)
    ensures |fs| == |chunks|
    ensures forall i :: 0 <= i < |chunks| ==>
              fs[i] == (if i == 0 then IndicationFirst(tx, |chunks|, c, chunks[0]) else NextFrame(INDICATE_STATUS, tx, |chunks|, i, chunks[i]))
  {
    seq(|chunks|, i requires 0 <= i < |chunks| =>
      if i == 0 then IndicationFirst(tx, |chunks|, c, chunks[0]) else NextFrame(INDICATE_STATUS, tx, |chunks|, i, chunks[i]))
  }

  function ShapeAll(fs: seq<seq<byte>>): (gs: seq<seq<byte>>)
    ensures |gs| == |fs| && forall i :: 0 <= i < |fs| ==> gs[i] == Shape(fs[i])
  {
    seq(|fs|, i requires 0 <= i < |fs| => Shape(fs[i]))
  }

  lemma {:induction false} ShapedFrame(tx: nat, c: Content, chunks: seq<seq<byte>>, k: nat)
    requires k < |chunks| < U32
    ensures Shape(IndicationFrames(tx, c, chunks)[k]) == Frames(INDICATE_STATUS, tx, c.(word := 0), chunks)[k]
  {
    hide FirstFrame, NextFrame, IndicationFirst, Shape;
    if k == 0 {
      ShapedFirst(tx, |chunks|, c, chunks[0]);
    } else {
      ShapedNext(tx, |chunks|, k, chunks[k]);
    }
  }

  lemma AllShaped(tx: nat, c: Content, chunks: seq<seq<byte>>)
    requires |chunks| < U32
    ensures ShapeAll(IndicationFrames(tx, c, chunks)) == Frames(INDICATE_STATUS, tx, c.(word := 0), chunks)
  {
    hide Shape, IndicationFrames, Frames;
    var fs := IndicationFrames(tx, c, chunks);
    forall i | 0 <= i < |chunks| ensures ShapeAll(fs)[i] == Frames(INDICATE_STATUS, tx, c.(word := 0), chunks)[i] {
      ShapedFrame(tx, c, chunks, i);
    }
  }

  /** An indication cut into any number of fragments is collected back to its service, CID and
      info buffer. */
  lemma IndicationCollects(tx: nat, c: Content, chunks: seq<seq<byte>>)
    requires 0 < |chunks| < U32 && c.Fits() && Concat(chunks) == c.info
    ensures Assemble(Feed(FRESH, ShapeAll(IndicationFrames(tx, c, chunks))).0) == Ok(CommandDone(c.service, c.cid, 0, c.info))
  {
    hide Frames, IndicationFrames, ShapeAll, Feed, Assemble, Concat;
    AllShaped(tx, c, chunks);
    CutThenCollect(INDICATE_STATUS, tx, c.(word := 0), chunks);
  }

  // ---------------------------------------------------------------- at the device

  function IndicationOf(c: Content): Indication {
    Indication(c.service, c.cid, c.info)
  }

  lemma {:induction false} OtherKeepsCollector(d: Device, l: Label, tx: nat)
    requires !About(l, tx)
    ensures CollectorOf(Apply(d, l), tx) == CollectorOf(d, tx)
  {
    hide Add, Assemble, Shape, Get32;
  }

  lemma {:induction false} FrameIsIndication(tx: nat, c: Content, chunks: seq<seq<byte>>, k: nat)
    requires k < |chunks| && tx < U32
    ensures var f := IndicationFrames(tx, c, chunks)[k];
            |f| >= HEADER && Get32(f, 0) == INDICATE_STATUS && Get32(f, 8) == tx
  {
    hide Get32, IndicationFirst, NextFrame, Header;
    if k == 0 {
      IndicationFirstFields(tx, |chunks|, c, chunks[0]);
    } else {
      NextFrameFields(INDICATE_STATUS, tx, |chunks|, k, chunks[k]);
    }
  }

  /** The fields of a first fragment, in 32 bits: there is no status, so the length of the info stands where a
      reply has it. */
  lemma {:induction false} IndicationFirstFields(tx: nat, total: nat, c: Content, chunk: seq<byte>)
    ensures var f := IndicationFirst(tx, total, c, chunk);
            && |f| == 44 + |chunk| && Get32(f, 0) == 0x8000_0007 && Get32(f, 4) == Wrap32(|f|) && Get32(f, 8) == Wrap32(tx)
            && Get32(f, 12) == Wrap32(total) && Get32(f, 16) == 0
            && f[20..36] == c.service && Get32(f, 36) == Wrap32(c.cid) && Get32(f, 40) == Wrap32(|c.info|) && f[44..] == chunk
  {
    hide LE32, Get32;
    var f := IndicationFirst(tx, total, c, chunk);
    assert f[0..4] == LE32(INDICATE_STATUS) && f[4..8] == LE32(|f|) && f[8..12] == LE32(tx);
    assert f[12..16] == LE32(total) && f[16..20] == LE32(0) && f[36..40] == LE32(c.cid) && f[40..44] == LE32(|c.info|);
    Get32OfLE32(f, 0, INDICATE_STATUS);
    Get32OfLE32(f, 4, |f|);
    Get32OfLE32(f, 8, tx);
    Get32OfLE32(f, 12, total);
    Get32OfLE32(f, 16, 0);
    Get32OfLE32(f, 36, c.cid);
    Get32OfLE32(f, 40, |c.info|);
  }

  lemma {:induction false} IndicationIsHandled(d: Device, msg: seq<byte>, tx: nat)
    requires |msg| >= HEADER && Get32(msg, 0) == INDICATE_STATUS && Get32(msg, 8) == tx
    ensures HandleMessage(d, msg) == HandleIndication(d, tx, msg)
  {
    hide Add, Assemble, Shape, Get32;
  }

  lemma {:induction false} MiddleIndication(d: Device, tx: nat, f: seq<byte>, col: Collector)
    requires Add(CollectorOf(d, tx), Shape(f)) == (col, Added(false))
    ensures var d' := HandleIndication(d, tx, f);
            CollectorOf(d', tx) == col && d'.indications == d.indications
  {
    hide Add, Assemble, Shape;
  }

  lemma {:induction false} LastIndication(d: Device, tx: nat, f: seq<byte>, col: Collector, resp: CommandDone)
    requires Add(CollectorOf(d, tx), Shape(f)) == (col, Added(true)) && Assemble(col) == Ok(resp)
    ensures var d' := HandleIndication(d, tx, f);
            CollectorOf(d', tx) == FRESH
            && d'.indications == if |d.indications| < QUEUE then d.indications + [Indication(resp.service, resp.cid, resp.info)]
                                 else d.indications
  {
    hide Add, Assemble, Shape;
  }

  lemma OwnFragmentAdds(d: Device, tx: nat, c: Content, chunks: seq<seq<byte>>, k: nat)
    requires k < |chunks| < U32 && c.Fits() && tx < U32
    requires CollectorOf(d, tx) == Partial(c.(word := 0), chunks, k)
    ensures var f := IndicationFrames(tx, c, chunks)[k];
            && HandleMessage(d, f) == HandleIndication(d, tx, f)
            && Add(CollectorOf(d, tx), Shape(f)) == (Partial(c.(word := 0), chunks, k + 1), Added(k + 1 == |chunks|))
  {
    hide Add, Partial, Get32, IndicationFrames, Shape, HandleMessage, HandleIndication, CollectorOf, Frames;
    FrameIsIndication(tx, c, chunks, k);
    IndicationIsHandled(d, IndicationFrames(tx, c, chunks)[k], tx);
    ShapedFrame(tx, c, chunks, k);
    CollectStep(INDICATE_STATUS, tx, c.(word := 0), chunks, k);
  }

  /** The next fragment moves the collector on and leaves the queue; the last one goes to the queue, if
      that has room, and frees the collector. */
  lemma OwnIndication(d: Device, tx: nat, c: Content, chunks: seq<seq<byte>>, k: nat)
    requires k < |chunks| < U32 && c.Fits() && Concat(chunks) == c.info && tx < U32
    requires CollectorOf(d, tx) == Partial(c.(word := 0), chunks, k)
    ensures var d', q := HandleMessage(d, IndicationFrames(tx, c, chunks)[k]), d.indications;
            && CollectorOf(d', tx) == (if k + 1 < |chunks| then Partial(c.(word := 0), chunks, k + 1) else FRESH)
            && d'.indications == (if k + 1 == |chunks| && |q| < 16 then q + [IndicationOf(c)] else q)
  {
    hide Add, Shape, Partial, IndicationFrames, Concat, HandleMessage, HandleIndication, CollectorOf;
    OwnFragmentAdds(d, tx, c, chunks, k);
    if k + 1 == |chunks| {
      OwnLast(d, tx, IndicationFrames(tx, c, chunks)[k], c, chunks);
    } else {
      MiddleIndication(d, tx, IndicationFrames(tx, c, chunks)[k], Partial(c.(word := 0), chunks, k + 1));
    }
  }

  lemma OwnLast(d: Device, tx: nat, f: seq<byte>, c: Content, chunks: seq<seq<byte>>)
    requires 0 < |chunks| && c.Fits() && Concat(chunks) == c.info
    requires Add(CollectorOf(d, tx), Shape(f)) == (Partial(c.(word := 0), chunks, |chunks|), Added(true))
    ensures var d', q := HandleIndication(d, tx, f), d.indications;
            CollectorOf(d', tx) == FRESH && d'.indications == if |q| < 16 then q + [IndicationOf(c)] else q
  {
    hide Add, Assemble, Partial, Concat, Shape, HandleIndication, CollectorOf;
    WholeAssembles(c.(word := 0), chunks);
    LastIndication(d, tx, f, Partial(c.(word := 0), chunks, |chunks|), CommandDone(c.service, c.cid, 0, c.info));
  }

  /** The steps about tx up to some point are the first of all of them. */
  lemma {:induction false} OnlyPrefix(ls: seq<Label>, a: nat, i: nat, b: nat, tx: nat)
    requires a <= i <= b <= |ls|
    ensures Only(ls[a..i], tx) <= Only(ls[a..b], tx)
    decreases b - i
  {
    hide About, Only;
    if i < b {
      OnlyPrefix(ls, a, i + 1, b, tx);
      OnlyLast(ls, a, i + 1, tx);
    }
  }

  lemma {:induction false} IndicationProgress(r: Run, a: nat, i: nat, tx: nat, c: Content, chunks: seq<seq<byte>>, k: nat)
    requires IsTrace(r) && a <= i <= |r.labels| < |r.states| && tx < U32
    requires k < |chunks| < U32 && c.Fits() && Concat(chunks) == c.info
    requires CollectorOf(r.states[a], tx) == FRESH
    requires Only(r.labels[a..i], tx) == Messages(IndicationFrames(tx, c, chunks)[..k])
    ensures CollectorOf(r.states[i], tx) == Partial(c.(word := 0), chunks, k)
  {
    hide Inv, Apply, About, IndicationFrames, Concat, Only, IsTrace, Messages, HandleMessage, CollectorOf, Partial;
    var fs := IndicationFrames(tx, c, chunks);
    if a == i {
      NothingRelevant(r.labels, a, tx);
      NoneYet(fs, k);
      NothingPartial(c.(word := 0), chunks);
    } else {
      var l, front := r.labels[i - 1], Only(r.labels[a..i - 1], tx);
      OnlyLast(r.labels, a, i, tx);
      RunStep(r, i - 1);
      if About(l, tx) {
        LastMessage(front, l, fs, k);
        IndicationProgress(r, a, i - 1, tx, c, chunks, k - 1);
        OneMoreFragment(r.states[i - 1], l, tx, c, chunks, k - 1);
      } else {
        IndicationProgress(r, a, i - 1, tx, c, chunks, k);
        OtherKeepsCollector(r.states[i - 1], l, tx);
      }
    }
  }

  lemma {:induction false} OneMoreFragment(d: Device, l: Label, tx: nat, c: Content, chunks: seq<seq<byte>>, k: nat)
    requires k + 1 < |chunks| < U32 && c.Fits() && Concat(chunks) == c.info && tx < U32
    requires CollectorOf(d, tx) == Partial(c.(word := 0), chunks, k) && l == Message(IndicationFrames(tx, c, chunks)[k])
    ensures CollectorOf(Apply(d, l), tx) == Partial(c.(word := 0), chunks, k + 1)
  {
    hide Inv, Apply, About, IndicationFrames, Concat, HandleMessage, CollectorOf, Partial;
    OwnIndication(d, tx, c, chunks, k);
    MessageStep(d, IndicationFrames(tx, c, chunks)[k]);
  }

  lemma NothingPartial(c: Content, chunks: seq<seq<byte>>)
    ensures Partial(c, chunks, 0) == FRESH
  {
  }

  lemma NoneYet(fs: seq<seq<byte>>, k: nat)
    requires k <= |fs| && Messages(fs[..k]) == []
    ensures k == 0
  {
  }

  lemma StepIsFragment(ls: seq<Label>, a: nat, i: nat, b: nat, tx: nat, fs: seq<seq<byte>>)
    requires a <= i < b <= |ls| && About(ls[i], tx) && Only(ls[a..b], tx) == Messages(fs)
    ensures var k := |Only(ls[a..i], tx)|;
            k < |fs| && Only(ls[a..i], tx) == Messages(fs[..k]) && ls[i] == Message(fs[k])
  {
    hide About, Only;
    OnlyPrefix(ls, a, i, b, tx);
    OnlyPrefix(ls, a, i + 1, b, tx);
    OnlyLast(ls, a, i + 1, tx);
    var all, k := Only(ls[a..b], tx), |Only(ls[a..i], tx)|;
    assert all[..k] == Messages(fs[..k]);
    assert ls[i] == Only(ls[a..i + 1], tx)[k] == all[k];
  }

  /** One step about tx on the way: it is the next fragment and does what OwnIndication says. */
  lemma IndicationStep(r: Run, a: nat, i: nat, b: nat, tx: nat, c: Content, chunks: seq<seq<byte>>)
    requires IsTrace(r) && a <= i < b <= |r.labels| < |r.states| && tx < U32 && About(r.labels[i], tx)
    requires 0 < |chunks| < U32 && c.Fits() && Concat(chunks) == c.info
    requires CollectorOf(r.states[a], tx) == FRESH
    requires Only(r.labels[a..b], tx) == Messages(IndicationFrames(tx, c, chunks))
    ensures var k, q := |Only(r.labels[a..i], tx)|, r.states[i].indications;
            && k < |chunks|
            && r.states[i + 1].indications == (if k + 1 == |chunks| && |q| < 16 then q + [IndicationOf(c)] else q)
            && (k + 1 == |chunks| ==> CollectorOf(r.states[i + 1], tx) == FRESH)
  {
    hide Inv, Apply, About, IndicationFrames, Concat, Only, IsTrace, HandleMessage, CollectorOf, Partial, Messages;
    var fs, k := IndicationFrames(tx, c, chunks), |Only(r.labels[a..i], tx)|;
    StepIsFragment(r.labels, a, i, b, tx, fs);
    RunStep(r, i);
    IndicationProgress(r, a, i, tx, c, chunks, k);
    OwnIndication(r.states[i], tx, c, chunks, k);
    MessageStep(r.states[i], fs[k]);
  }

  lemma CountBefore(ls: seq<Label>, a: nat, i: nat, b: nat, tx: nat)
    requires a <= i < b - 1 < |ls| && About(ls[i], tx) && About(ls[b - 1], tx)
    ensures |Only(ls[a..i], tx)| + 2 <= |Only(ls[a..b], tx)|
  {
    hide About, Only;
    OnlyLast(ls, a, b, tx);
    OnlyLast(ls, a, i + 1, tx);
    OnlyPrefix(ls, a, i + 1, b - 1, tx);
  }

  lemma EarlierStep(r: Run, a: nat, i: nat, b: nat, tx: nat, c: Content, chunks: seq<seq<byte>>)
    requires IsTrace(r) && a <= i < b - 1 < |r.labels| < |r.states| && tx < U32
    requires About(r.labels[i], tx) && About(r.labels[b - 1], tx)
    requires 0 < |chunks| < U32 && c.Fits() && Concat(chunks) == c.info
    requires CollectorOf(r.states[a], tx) == FRESH
    requires Only(r.labels[a..b], tx) == Messages(IndicationFrames(tx, c, chunks))
    ensures r.states[i + 1].indications == r.states[i].indications
  {
    hide Inv, About, IndicationFrames, Concat, Only, IsTrace, CollectorOf;
    CountBefore(r.labels, a, i, b, tx);
    IndicationStep(r, a, i, b, tx, c, chunks);
  }

  /** An indication arrives, over all interleavings: let the steps about its transaction be exactly its
      fragments, the last of them in step b - 1. None of the earlier ones touches the queue; the last
      one appends exactly the indication, or nothing if the queue is full; and the transaction is as
      it was, ready for the next indication. */
  lemma IndicationArrives(r: Run, a: nat, b: nat, tx: nat, c: Content, chunks: seq<seq<byte>>)
    requires IsTrace(r) && a < b <= |r.labels| < |r.states| && tx < U32 && About(r.labels[b - 1], tx)
    requires 0 < |chunks| < U32 && c.Fits() && Concat(chunks) == c.info
    requires CollectorOf(r.states[a], tx) == FRESH
    requires Only(r.labels[a..b], tx) == Messages(IndicationFrames(tx, c, chunks))
    ensures forall i :: a <= i < b - 1 && About(r.labels[i], tx) ==> r.states[i + 1].indications == r.states[i].indications
    ensures var q := r.states[b - 1].indications;
            r.states[b].indications == if |q| < 16 then q + [IndicationOf(c)] else q
    ensures CollectorOf(r.states[b], tx) == FRESH
  {
    hide Inv, Apply, About, IndicationFrames, IndicationOf, Concat, Only, IsTrace, CollectorOf;
    hide Messages, HandleMessage;
    LastCounts(r.labels, a, b, tx);
    assert |Messages(IndicationFrames(tx, c, chunks))| == |chunks|;
    IndicationStep(r, a, b - 1, b, tx, c, chunks);
    forall i | a <= i < b - 1 && About(r.labels[i], tx) ensures r.states[i + 1].indications == r.states[i].indications {
      EarlierStep(r, a, i, b, tx, c, chunks);
    }
  }

  lemma {:induction false} LastCounts(ls: seq<Label>, a: nat, b: nat, tx: nat)
    requires a < b <= |ls| && About(ls[b - 1], tx)
    ensures |Only(ls[a..b - 1], tx)| + 1 == |Only(ls[a..b], tx)|
  {
    hide About, Only;
    OnlyLast(ls, a, b, tx);
  }
}
