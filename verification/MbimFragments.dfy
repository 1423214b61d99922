/** MBIM messages, their fragments, and the collector that puts them together again. */
module MbimFragments {
  import opened Bytes

  const COMMAND: nat := 3
  const OPEN_DONE: nat := 0x8000_0001
  const CLOSE_DONE: nat := 0x8000_0002
  const COMMAND_DONE: nat := 0x8000_0003
  const INDICATE_STATUS: nat := 0x8000_0007

  const HEADER: nat := 12
  const FRAGMENT: nat := 20
  /** Where the info buffer begins in a first fragment. */
  const FIXED: nat := 48

  type Uuid = s: seq<byte> | |s| == 16 witness [0, 0, 0, 0, 0, 0, 0, 0, 0, 0, 0, 0, 0, 0, 0, 0]

  /** A message before it is cut up: word is the command type of a COMMAND and the status of a
      COMMAND_DONE. */
  datatype Content = Content(service: Uuid, cid: nat, word: nat, info: seq<byte>) {
    predicate Fits() {
      cid < U32 && word < U32 && |info| < U32
    }
  }

  // ---------------------------------------------------------------- frames

  function Header(mt: nat, length: nat, tx: nat): (h: seq<byte>)
    ensures |h| == HEADER
  {
    LE32(mt) + LE32(length) + LE32(tx)
  }

  function FirstFrame(mt: nat, tx: nat, total: nat, c: Content, chunk: seq<byte>): (f: seq<byte>)
    ensures |f| == FIXED + |chunk|
  {
    Header(mt, FIXED + |chunk|, tx) + LE32(total) + LE32(0) + c.service + LE32(c.cid) + LE32(c.word) + LE32(|c.info|) + chunk
  }

  function NextFrame(mt: nat, tx: nat, total: nat, i: nat, chunk: seq<byte>): (f: seq<byte>)
    ensures |f| == FRAGMENT + |chunk|
  {
    Header(mt, FRAGMENT + |chunk|, tx) + LE32(total) + LE32(i) + chunk
  }

  /** The fragments of a message whose info buffer is cut into chunks. */
  function Frames(mt: nat, tx: nat, c: Content, chunks: seq<seq<byte>>): (fs: seq<seq<byte>>)
    ensures |fs| == |chunks|
    ensures |chunks| > 0 ==> fs[0] == FirstFrame(mt, tx, |chunks|, c, chunks[0])
    ensures forall i :: 0 < i < |chunks| ==> fs[i] == NextFrame(mt, tx, |chunks|, i, chunks[i])
  {
    seq(|chunks|, i requires 0 <= i < |chunks| =>
      if i == 0 then FirstFrame(mt, tx, |chunks|, c, chunks[0]) else NextFrame(mt, tx, |chunks|, i, chunks[i]))
  }

  /** rest cut into pieces of cap octets, the last one possibly shorter. */
  function Pieces(rest: seq<byte>, cap: nat): (ps: seq<seq<byte>>)
    requires cap > 0
    ensures Concat(ps) == rest
    ensures forall i :: 0 <= i < |ps| ==> 0 < |ps[i]| <= cap
    ensures |ps| <= |rest|
  {
    if rest == [] then []
    else
      var take := if cap > |rest| then |rest| else cap;
      var tail := Pieces(rest[take..], cap);
      assert rest == rest[..take] + rest[take..];
      [rest[..take]] + tail
  }

  /** How splitCommand cuts an info buffer for a given largest transfer. */
  function SplitChunks(info: seq<byte>, maxTransfer: nat): (cs: seq<seq<byte>>)
    ensures Concat(cs) == info && |cs| > 0
    ensures |info| < U32 ==> |cs| < U32
  {
    if maxTransfer <= FIXED || |info| <= maxTransfer - FIXED then
      assert Concat([info]) == info + Concat([]);
      [info]
    else
      var cap := maxTransfer - FIXED;
      assert info == info[..cap] + info[cap..];
      [info[..cap]] + Pieces(info[cap..], maxTransfer - FRAGMENT)
  }

  // ---------------------------------------------------------------- writing frames

  method PutHeader(b: array<byte>, mt: nat, length: nat, tx: nat)
    requires b.Length >= HEADER
    modifies b
    ensures b[..] == Header(mt, length, tx) + old(b[HEADER..])
  {
    Put32(b, 0, mt);
    Put32(b, 4, length);
    Put32(b, 8, tx);
  }

  method BuildFirst(mt: nat, tx: nat, total: nat, c: Content, chunk: seq<byte>) returns (f: seq<byte>)
    ensures f == FirstFrame(mt, tx, total, c, chunk)
  {
    var b := new byte[FIXED + |chunk|](_ => 0);
    PutHeader(b, mt, b.Length, tx);
    Put32(b, 12, total);
    Put32(b, 16, 0);
    CopyInto(b, 20, c.service);
    Put32(b, 36, c.cid);
    Put32(b, 40, c.word);
    Put32(b, 44, |c.info|);
    CopyInto(b, FIXED, chunk);
    f := b[..];
  }

  method BuildNext(mt: nat, tx: nat, total: nat, i: nat, chunk: seq<byte>) returns (f: seq<byte>)
    ensures f == NextFrame(mt, tx, total, i, chunk)
  {
    var b := new byte[FRAGMENT + |chunk|](_ => 0);
    PutHeader(b, mt, b.Length, tx);
    Put32(b, 12, total);
    Put32(b, 16, i);
    CopyInto(b, FRAGMENT, chunk);
    f := b[..];
  }

  function Lengths(cs: seq<seq<byte>>): (ns: seq<nat>)
    ensures |ns| == |cs|
    ensures forall i :: 0 <= i < |cs| ==> ns[i] == |cs[i]|
  {
    seq(|cs|, i requires 0 <= i < |cs| => |cs[i]|)
  }

  /** The chunk that starts after the first i chunks. */
  lemma ChunkAt(cs: seq<seq<byte>>, i: nat)
    requires i < |cs|
    ensures var pos := |Concat(cs[..i])|;
            pos + |cs[i]| <= |Concat(cs)| && Concat(cs)[pos..pos + |cs[i]|] == cs[i]
            && |Concat(cs[..i + 1])| == pos + |cs[i]|
  {
    ConcatLast(cs, i);
    assert cs == cs[..i + 1] + cs[i + 1..];
    ConcatAppend(cs[..i + 1], cs[i + 1..]);
  }

  lemma PiecesLengths(rest: seq<byte>, cap: nat)
    requires cap > 0 && rest != []
    ensures var take := if cap > |rest| then |rest| else cap;
            Lengths(Pieces(rest, cap)) == [take] + Lengths(Pieces(rest[take..], cap))
  {
  }

  /** The first loop of splitCommand: the sizes of the pieces. */
  method CutSizes(info: seq<byte>, firstCap: nat, contCap: nat) returns (sizes: seq<nat>)
    requires contCap > 0 && firstCap <= |info|
    ensures sizes == [firstCap] + Lengths(Pieces(info[firstCap..], contCap))
  {
    hide Pieces, Lengths;
    sizes := [firstCap];
    var remaining := |info| - firstCap;
    ghost var all := Lengths(Pieces(info[firstCap..], contCap));
    assert info[|info| - remaining..] == info[firstCap..];
    while remaining > 0
      invariant 0 <= remaining <= |info| - firstCap
      invariant [firstCap] + all == sizes + Lengths(Pieces(info[|info| - remaining..], contCap))
    {
      var take := if contCap > remaining then remaining else contCap;
      ghost var rest := info[|info| - remaining..];
      PiecesLengths(rest, contCap);
      assert rest[take..] == info[|info| - (remaining - take)..];
      ghost var later := Lengths(Pieces(rest[take..], contCap));
      assert sizes + ([take] + later) == sizes + [take] + later;
      sizes := sizes + [take];
      remaining := remaining - take;
    }
    NoPieces(info[|info|..], contCap);
    assert sizes + [] == sizes;
  }

  lemma NoPieces(rest: seq<byte>, cap: nat)
    requires cap > 0 && rest == []
    ensures Lengths(Pieces(rest, cap)) == []
  {
  }

  lemma {:induction false} ConcatNil(cs: seq<seq<byte>>)
    ensures Concat(cs[..0]) == []
  {
    assert cs[..0] == [];
  }

  /** splitCommand: cut the info buffer to size and frame the pieces. */
  method SplitCommand(tx: nat, c: Content, maxTransfer: nat) returns (frags: seq<seq<byte>>)
    ensures frags == Frames(3, tx, c, SplitChunks(c.info, maxTransfer))
  {
    hide Concat, FirstFrame, NextFrame, Pieces;
    var firstCap: int := maxTransfer - FIXED;
    var contCap: int := maxTransfer - FRAGMENT;
    ghost var chunks := SplitChunks(c.info, maxTransfer);
    if firstCap <= 0 || contCap <= 0 || |c.info| <= firstCap {
      var f := BuildFirst(COMMAND, tx, 1, c, c.info);
      return [f];
    }
    var sizes := CutSizes(c.info, firstCap, contCap);
    assert sizes == Lengths(chunks);
    frags := [];
    var pos := 0;
    ConcatNil(chunks);
    for i := 0 to |sizes|
      invariant pos == |Concat(chunks[..i])|
      invariant frags == Frames(COMMAND, tx, c, chunks)[..i]
    {
      ChunkAt(chunks, i);
      var chunk := c.info[pos..pos + sizes[i]];
      assert chunk == chunks[i];
      pos := pos + sizes[i];
      var f;
      if i == 0 {
        f := BuildFirst(COMMAND, tx, |sizes|, c, chunk);
      } else {
        f := BuildNext(COMMAND, tx, |sizes|, i, chunk);
      }
      frags := frags + [f];
    }
  }
}
