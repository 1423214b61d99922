/** The collector: fragments in, one message out. */
module MbimCollector {
  import opened Bytes
  import opened MbimFragments

  datatype Collector = Collector(
    started: bool, total: nat, next: nat, service: Uuid, cid: nat, status: nat, fullLen: nat, info: seq<byte>)

  datatype AddResult = Added(done: bool) | ShortHeader | NotFirst | ShortFixed | OutOfOrder

  datatype CommandDone = CommandDone(service: Uuid, cid: nat, status: nat, info: seq<byte>)

  datatype Assembled = Ok(resp: CommandDone) | NoData | Truncated

  const NO_UUID: Uuid := [0, 0, 0, 0, 0, 0, 0, 0, 0, 0, 0, 0, 0, 0, 0, 0]

  const FRESH: Collector := Collector(false, 0, 0, NO_UUID, 0, 0, 0, [])

  /** collector.add: the new collector and what the caller is told. */
  function Add(c: Collector, b: seq<byte>): (r: (Collector, AddResult))
    ensures !r.1.Added? ==> r.0 == c
  {
    if |b| < FRAGMENT then (c, ShortHeader)
    else
      var total, current := Get32(b, 12), Get32(b, 16);
      if !c.started then
        if current != 0 then (c, NotFirst)
        else if |b| < FIXED then (c, ShortFixed)
        else (Collector(true, total, 1, b[20..36], Get32(b, 36), Get32(b, 40), Get32(b, 44), c.info + b[FIXED..]), Added(1 >= total))
      else if current != c.next then (c, OutOfOrder)
      else
        var next := Wrap32(c.next + 1);
        (c.(next := next, info := c.info + b[FRAGMENT..]), Added(next >= c.total))
  }

  /** collector.commandDone. */
  function Assemble(c: Collector): Assembled {
    if !c.started then NoData
    else if c.fullLen > |c.info| then Truncated
    else Ok(CommandDone(c.service, c.cid, c.status, c.info[..c.fullLen]))
  }

  /** The collector object of the source. */
  class CollectorObject {
    var started: bool
    var total: nat
    var next: nat
    var service: Uuid
    var cid: nat
    var status: nat
    var fullLen: nat
    var info: seq<byte>

    function Abs(): Collector
      reads this
    {
      Collector(started, total, next, service, cid, status, fullLen, info)
    }

    constructor ()
      ensures Abs() == FRESH
    {
      started, total, next, service, cid, status, fullLen, info := false, 0, 0, NO_UUID, 0, 0, 0, [];
    }

    method AddFragment(b: seq<byte>) returns (r: AddResult)
      modifies this
      ensures (Abs(), r) == Add(old(Abs()), b)
    {
      if |b| < FRAGMENT {
        return ShortHeader;
      }
      var tot := Get32(b, 12);
      var current := Get32(b, 16);
      if !started {
        if current != 0 {
          return NotFirst;
        }
        if |b| < FIXED {
          return ShortFixed;
        }
        service := b[20..36];
        cid := Get32(b, 36);
        status := Get32(b, 40);
        fullLen := Get32(b, 44);
        total := tot;
        next := 1;
        started := true;
        info := info + b[FIXED..];
        return Added(next >= total);
      }
      if current != next {
        return OutOfOrder;
      }
      next := Wrap32(next + 1);
      info := info + b[FRAGMENT..];
      return Added(next >= total);
    }

    method Result() returns (r: Assembled)
      ensures r == Assemble(Abs())
    {
      if !started {
        return NoData;
      }
      if fullLen > |info| {
        return Truncated;
      }
      var data := info;
      if fullLen <= |data| {
        data := data[..fullLen];
      }
      return Ok(CommandDone(service, cid, status, data));
    }
  }

  // ---------------------------------------------------------------- reading back what was framed

  /** The fields of a first fragment, read where the collector reads them. */
  lemma FirstFrameFields(mt: nat, tx: nat, total: nat, c: Content, chunk: seq<byte>)
    ensures var f := FirstFrame(mt, tx, total, c, chunk);
            && Get32(f, 0) == Wrap32(mt) && Get32(f, 4) == Wrap32(|f|) && Get32(f, 8) == Wrap32(tx)
            && Get32(f, 12) == Wrap32(total) && Get32(f, 16) == 0
            && f[20..36] == c.service && Get32(f, 36) == Wrap32(c.cid) && Get32(f, 40) == Wrap32(c.word)
            && Get32(f, 44) == Wrap32(|c.info|) && f[48..] == chunk
  {
    var f := FirstFrame(mt, tx, total, c, chunk);
    assert f[0..4] == LE32(mt) && f[4..8] == LE32(|f|) && f[8..12] == LE32(tx);
    assert f[12..16] == LE32(total) && f[16..20] == LE32(0);
    assert f[36..40] == LE32(c.cid) && f[40..44] == LE32(c.word) && f[44..48] == LE32(|c.info|);
    Get32OfLE32(f, 0, mt);
    Get32OfLE32(f, 4, |f|);
    Get32OfLE32(f, 8, tx);
    Get32OfLE32(f, 12, total);
    Get32OfLE32(f, 16, 0);
    Get32OfLE32(f, 36, c.cid);
    Get32OfLE32(f, 40, c.word);
    Get32OfLE32(f, 44, |c.info|);
  }

  lemma {:induction false} NextFrameFields(mt: nat, tx: nat, total: nat, i: nat, chunk: seq<byte>)
    ensures var f := NextFrame(mt, tx, total, i, chunk);
            && Get32(f, 0) == Wrap32(mt) && Get32(f, 4) == Wrap32(|f|) && Get32(f, 8) == Wrap32(tx)
            && Get32(f, 12) == Wrap32(total) && Get32(f, 16) == Wrap32(i) && f[20..] == chunk
  {
    var f := NextFrame(mt, tx, total, i, chunk);
    assert f[0..4] == LE32(mt) && f[4..8] == LE32(|f|) && f[8..12] == LE32(tx);
    assert f[12..16] == LE32(total) && f[16..20] == LE32(i);
    Get32OfLE32(f, 0, mt);
    Get32OfLE32(f, 4, |f|);
    Get32OfLE32(f, 8, tx);
    Get32OfLE32(f, 12, total);
    Get32OfLE32(f, 16, i);
  }

  // ---------------------------------------------------------------- collecting

  /** A fresh collector after the first k of n chunks. */
  function Partial(c: Content, chunks: seq<seq<byte>>, k: nat): Collector
    requires k <= |chunks|
  {
    if k == 0 then FRESH
    else Collector(true, |chunks|, k, c.service, c.cid, c.word, |c.info|, Concat(chunks[..k]))
  }

  /** One more fragment, in order: accepted, and done exactly when it is the last. */
  lemma CollectStep(mt: nat, tx: nat, c: Content, chunks: seq<seq<byte>>, k: nat)
    requires k < |chunks| < U32 && c.Fits()
    ensures Add(Partial(c, chunks, k), Frames(mt, tx, c, chunks)[k]) ==
            (Partial(c, chunks, k + 1), Added(k + 1 == |chunks|))
  {
    hide FirstFrame, NextFrame, Get32;
    ConcatLast(chunks, k);
    if k == 0 {
      FirstFrameFields(mt, tx, |chunks|, c, chunks[0]);
      assert chunks[..0] == [] && Concat(chunks[..1]) == chunks[0];
    } else {
      NextFrameFields(mt, tx, |chunks|, k, chunks[k]);
    }
  }

  /** Feeding a stream of fragments: the collector, and the report of each fragment. */
  function Feed(c: Collector, fs: seq<seq<byte>>): (r: (Collector, seq<AddResult>))
    ensures |r.1| == |fs|
  {
    if fs == [] then (c, [])
    else
      var (c1, rs) := Feed(c, fs[..|fs| - 1]);
      var (c2, last) := Add(c1, fs[|fs| - 1]);
      (c2, rs + [last])
  }

  /** The reports of the first k of n fragments fed in order. */
  function Reports(k: nat, n: nat): (rs: seq<AddResult>)
    ensures |rs| == k && forall i :: 0 <= i < k ==> rs[i] == Added(i + 1 == n)
  {
    if k == 0 then [] else Reports(k - 1, n) + [Added(k == n)]
  }

  lemma {:induction false} CollectPrefix(mt: nat, tx: nat, c: Content, chunks: seq<seq<byte>>, k: nat)
    requires k <= |chunks| < U32 && c.Fits()
    ensures Feed(FRESH, Frames(mt, tx, c, chunks)[..k]) == (Partial(c, chunks, k), Reports(k, |chunks|))
  {
    hide Add, Frames;
    var fs := Frames(mt, tx, c, chunks);
    if k == 0 {
      assert fs[..0] == [];
    } else {
      hide Partial;
      CollectPrefix(mt, tx, c, chunks, k - 1);
      CollectStep(mt, tx, c, chunks, k - 1);
      assert fs[..k][..k - 1] == fs[..k - 1];
    }
  }

  lemma WholeAssembles(c: Content, chunks: seq<seq<byte>>)
    requires 0 < |chunks| && Concat(chunks) == c.info
    ensures Assemble(Partial(c, chunks, |chunks|)) == Ok(CommandDone(c.service, c.cid, c.word, c.info))
  {
    hide Concat;
    var p := Partial(c, chunks, |chunks|);
    assert p.info == c.info by {
      assert chunks[..|chunks|] == chunks;
    }
    assert p.info[..p.fullLen] == p.info;
  }

  /** Any way of cutting a message into fragments is undone: fed in order, a fresh collector
      reports done exactly on the last fragment and then holds the message. */
  lemma {:induction false} CutThenCollect(mt: nat, tx: nat, c: Content, chunks: seq<seq<byte>>)
    requires 0 < |chunks| < U32 && c.Fits() && Concat(chunks) == c.info
    ensures var (col, reports) := Feed(FRESH, Frames(mt, tx, c, chunks));
            && Assemble(col) == Ok(CommandDone(c.service, c.cid, c.word, c.info))
            && forall i :: 0 <= i < |chunks| ==> reports[i] == Added(i == |chunks| - 1)
  {
    hide Feed, Frames, Concat, Partial, Assemble, Reports;
    var fs, n := Frames(mt, tx, c, chunks), |chunks|;
    CollectPrefix(mt, tx, c, chunks, n);
    assert fs[..n] == fs;
    WholeAssembles(c, chunks);
  }

  /** What the collector makes of splitCommand's output. */
  function SplitAndCollect(tx: nat, c: Content, maxTransfer: nat): Assembled {
    Assemble(Feed(FRESH, Frames(COMMAND, tx, c, SplitChunks(c.info, maxTransfer))).0)
  }

  /** Split then collect is the identity exactly for the info buffers whose length fits the
      32-bit length field, whatever the transfer size. */
  lemma SplitThenCollect(tx: nat, c: Content, maxTransfer: nat)
    requires c.cid < U32 && c.word < U32
    ensures SplitAndCollect(tx, c, maxTransfer) == Ok(CommandDone(c.service, c.cid, c.word, c.info)) <==> |c.info| < U32
  {
    var chunks := SplitChunks(c.info, maxTransfer);
    if |c.info| < U32 {
      CutThenCollect(COMMAND, tx, c, chunks);
    } else {
      LengthsStaySmall(Frames(COMMAND, tx, c, chunks));
    }
  }

  lemma {:induction false} LengthsStaySmall(fs: seq<seq<byte>>)
    ensures Feed(FRESH, fs).0.fullLen < U32
  {
    if fs != [] {
      LengthsStaySmall(fs[..|fs| - 1]);
    }
  }

  lemma ChunkSizes(info: seq<byte>, maxTransfer: nat, i: nat)
    requires FIXED < maxTransfer && i < |SplitChunks(info, maxTransfer)|
    ensures |SplitChunks(info, maxTransfer)[i]| <= maxTransfer - if i == 0 then FIXED else FRAGMENT
  {
  }

  /** Every fragment fits the transfer size and says its own length. */
  lemma FragmentsFit(tx: nat, c: Content, maxTransfer: nat, i: nat)
    requires FIXED < maxTransfer < U32 && i < |SplitChunks(c.info, maxTransfer)|
    ensures var f := Frames(COMMAND, tx, c, SplitChunks(c.info, maxTransfer))[i];
            |f| <= maxTransfer && Get32(f, 4) == |f|
  {
    hide SplitChunks, FirstFrame, NextFrame, Get32;
    var chunks := SplitChunks(c.info, maxTransfer);
    ChunkSizes(c.info, maxTransfer, i);
    if i == 0 {
      FirstFrameFields(COMMAND, tx, |chunks|, c, chunks[0]);
    } else {
      NextFrameFields(COMMAND, tx, |chunks|, i, chunks[i]);
    }
  }
}
