/** The byte stream under the MBIM device: messages cut out of whatever reads return, and
    messages written through writers that may take only part. */
module MbimStream {
  import opened Wrappers
  import opened Bytes
  import opened MbimFragments

  const MAX_MESSAGE: nat := 65536

  datatype IOError = EOF | UnexpectedEOF | NoProgress | ShortWrite | Other | LengthTooSmall | LengthTooLarge

  /** What one Read call returns: some octets, perhaps with an error. */
  datatype Chunk = Chunk(data: seq<byte>, err: Option<IOError>)

  datatype Read = Msg(m: seq<byte>) | Fail(e: IOError)

  predicate IsMessage(m: seq<byte>) {
    HEADER <= |m| <= MAX_MESSAGE && Get32(m, 4) == |m|
  }

  /** ReadMessage as a function of the buffer and of what the coming reads will return; a source
      with nothing left reports end of file. */
  function ReadSpec(buf: seq<byte>, script: seq<Chunk>): (r: (Read, seq<byte>, seq<Chunk>))
    decreases |script|
  {
    if |buf| >= HEADER && Get32(buf, 4) < HEADER then (Fail(LengthTooSmall), buf, script)
    else if |buf| >= HEADER && Get32(buf, 4) > MAX_MESSAGE then (Fail(LengthTooLarge), buf, script)
    else if |buf| >= HEADER && |buf| >= Get32(buf, 4) then (Msg(buf[..Get32(buf, 4)]), buf[Get32(buf, 4)..], script)
    else if script == [] then (Fail(if buf != [] then UnexpectedEOF else EOF), buf, script)
    else
      var buf' := buf + script[0].data;
      if script[0].err.Some? then
        (Fail(if script[0].err == Some(EOF) && buf' != [] then UnexpectedEOF else script[0].err.value), buf', script[1..])
      else if script[0].data == [] then (Fail(NoProgress), buf', script[1..])
      else ReadSpec(buf', script[1..])
  }

  function DataOf(script: seq<Chunk>): seq<byte> {
    if script == [] then [] else script[0].data + DataOf(script[1..])
  }

  function Returned(r: Read): seq<byte> {
    match r case Msg(m) => m case Fail(_) => []
  }

  /** Conservation, for any reads whatever, with errors or without: nothing that was buffered or
      read is lost, and nothing is made up. */
  lemma {:induction false} NothingLost(buf: seq<byte>, script: seq<Chunk>)
    ensures var (r, buf', script') := ReadSpec(buf, script);
            buf + DataOf(script) == Returned(r) + buf' + DataOf(script')
    ensures var (r, _, _) := ReadSpec(buf, script); r.Msg? ==> IsMessage(r.m)
    decreases |script|
  {
    hide Get32;
    if |buf| >= HEADER && HEADER <= Get32(buf, 4) <= MAX_MESSAGE && |buf| >= Get32(buf, 4) {
      var n := Get32(buf, 4);
      SameWord(buf, buf[..n], 4);
      assert buf == buf[..n] + buf[n..];
    } else if script != [] {
      var buf' := buf + script[0].data;
      assert buf + DataOf(script) == buf' + DataOf(script[1..]);
      if script[0].err.None? && script[0].data != [] && !(|buf| >= HEADER && !(HEADER <= Get32(buf, 4) <= MAX_MESSAGE)) {
        NothingLost(buf', script[1..]);
      }
    }
  }

  lemma {:induction false} SameWord(a: seq<byte>, b: seq<byte>, o: nat)
    requires o + 4 <= |a| && o + 4 <= |b| && a[..o + 4] == b[..o + 4]
    ensures Get32(a, o) == Get32(b, o)
  {
    assert forall i :: o <= i < o + 4 ==> a[i] == a[..o + 4][i] == b[i];
  }

  /** More octets are needed to tell or to complete the message. */
  predicate Waiting(b: seq<byte>) {
    |b| < 12 || (12 <= Get32(b, 4) <= 65536 && |b| < Get32(b, 4))
  }

  predicate Delivers(c: Chunk) { c.data != [] && c.err.None? }

  /** What one read call returns, for every buffer and every sequence of reads: it reads on while the octets it
      has are waiting for more, and stops at the first read that fails or brings nothing. Then it reports that
      read's error, except that an end of file behind octets is an unexpected one; otherwise the octets
      decide: a length under 12 or over 65536 is refused and nothing is consumed, any other gives the message. */
  lemma {:induction false} ReadOutcome(buf: seq<byte>, script: seq<Chunk>) returns (k: nat)
    ensures k <= |script| && ReadSpec(buf, script).2 == script[k..]
    ensures forall i :: 0 <= i < k ==> Waiting(buf + DataOf(script[..i]))
    ensures forall i :: 0 <= i < k - 1 ==> Delivers(script[i])
    ensures var b, r := buf + DataOf(script[..k]), ReadSpec(buf, script);
            if k > 0 && !Delivers(script[k - 1]) then
              r.1 == b && r.0 == Fail(match script[k - 1].err
                                      case None => NoProgress
                                      case Some(e) => if e == EOF && b != [] then UnexpectedEOF else e)
            else if Waiting(b) then k == |script| && r.1 == b && r.0 == Fail(if b == [] then EOF else UnexpectedEOF)
            else if Get32(b, 4) < 12 then r.1 == b && r.0 == Fail(LengthTooSmall)
            else if Get32(b, 4) > 65536 then r.1 == b && r.0 == Fail(LengthTooLarge)
            else |b| >= Get32(b, 4) && r.0 == Msg(b[..Get32(b, 4)]) && r.1 == b[Get32(b, 4)..]
    decreases |script|
  {
    hide Get32;
    assert buf + DataOf(script[..0]) == buf;
    if !Waiting(buf) || script == [] {
      k := 0;
    } else {
      var buf', rest := buf + script[0].data, script[1..];
      DataOfNext(buf, script, 1);
      assert DataOf(script[1..][..0]) == [] && buf' + [] == buf';
      if !Delivers(script[0]) {
        k := 1;
      } else {
        var j := ReadOutcome(buf', rest);
        k := j + 1;
        assert rest[j..] == script[k..];
        DataOfNext(buf, script, k);
        forall i | 0 <= i < k ensures Waiting(buf + DataOf(script[..i])) {
          if i > 0 {
            DataOfNext(buf, script, i);
            assert Waiting(buf' + DataOf(rest[..i - 1]));
          }
        }
        assert forall i :: 0 < i < k - 1 ==> script[i] == rest[i - 1];
      }
    }
  }

  lemma {:induction false} DataOfNext(buf: seq<byte>, script: seq<Chunk>, k: nat)
    requires 0 < k <= |script|
    ensures buf + DataOf(script[..k]) == buf + script[0].data + DataOf(script[1..][..k - 1])
  {
    assert script[..k][1..] == script[1..][..k - 1];
  }

  /** Reads that deliver data without errors, in any chunking. */
  predicate Clean(script: seq<Chunk>) {
    forall i :: 0 <= i < |script| ==> script[i].err.None? && script[i].data != []
  }

  /** If a valid message comes next in the stream, that message is returned. */
  lemma {:induction false} NextMessage(buf: seq<byte>, script: seq<Chunk>, m: seq<byte>, rest: seq<byte>)
    requires IsMessage(m) && Clean(script) && buf + DataOf(script) == m + rest
    ensures var (r, buf', script') := ReadSpec(buf, script);
            r == Msg(m) && buf' + DataOf(script') == rest && Clean(script')
    decreases |script|
  {
    var all := m + rest;
    if |buf| >= HEADER {
      assert buf[..8] == all[..8] == m[..8] by {
        assert all[..8] == (buf + DataOf(script))[..8];
      }
      SameWord(buf, m, 4);
    }
    if |buf| >= |m| {
      assert buf[..|m|] == all[..|m|] == m by {
        assert all[..|m|] == (buf + DataOf(script))[..|m|];
      }
      assert (buf + DataOf(script))[|m|..] == all[|m|..] == rest;
    } else {
      assert script != [];
      var buf' := buf + script[0].data;
      assert buf' + DataOf(script[1..]) == m + rest;
      NextMessage(buf', script[1..], m, rest);
    }
  }

  /** Reading n messages one after another. */
  function ReadMany(buf: seq<byte>, script: seq<Chunk>, n: nat): (seq<Read>, seq<byte>, seq<Chunk>)
    decreases n
  {
    if n == 0 then ([], buf, script)
    else
      var (r, buf1, script1) := ReadSpec(buf, script);
      var (rs, buf2, script2) := ReadMany(buf1, script1, n - 1);
      ([r] + rs, buf2, script2)
  }

  function Msgs(ms: seq<seq<byte>>): (rs: seq<Read>)
    ensures |rs| == |ms| && forall i :: 0 <= i < |ms| ==> rs[i] == Msg(ms[i])
  {
    seq(|ms|, i requires 0 <= i < |ms| => Msg(ms[i]))
  }

  /** Framing: a stream made of valid messages comes back as exactly those messages, in order,
      however the reads cut it up. */
  lemma {:induction false} StreamComesBack(buf: seq<byte>, script: seq<Chunk>, ms: seq<seq<byte>>, rest: seq<byte>)
    requires Clean(script) && (forall i :: 0 <= i < |ms| ==> IsMessage(ms[i]))
    requires buf + DataOf(script) == Concat(ms) + rest
    ensures var (rs, buf', script') := ReadMany(buf, script, |ms|);
            rs == Msgs(ms) && buf' + DataOf(script') == rest
    decreases |ms|
  {
    if ms != [] {
      hide ReadSpec, DataOf, Clean, IsMessage;
      assert Concat(ms) + rest == ms[0] + (Concat(ms[1..]) + rest);
      NextMessage(buf, script, ms[0], Concat(ms[1..]) + rest);
      var (r, buf1, script1) := ReadSpec(buf, script);
      StreamComesBack(buf1, script1, ms[1..], rest);
      assert Msgs(ms) == [Msg(ms[0])] + Msgs(ms[1..]);
    }
  }

  /** Conservation over any number of reads: what was returned, then the buffer, then what is
      still to come is always the whole stream. */
  lemma {:induction false} NothingLostInMany(buf: seq<byte>, script: seq<Chunk>, n: nat)
    ensures var (rs, buf', script') := ReadMany(buf, script, n);
            buf + DataOf(script) == AllReturned(rs) + buf' + DataOf(script')
    decreases n
  {
    if n > 0 {
      hide ReadSpec, DataOf;
      NothingLost(buf, script);
      var (r, buf1, script1) := ReadSpec(buf, script);
      NothingLostInMany(buf1, script1, n - 1);
      var (rs, buf2, script2) := ReadMany(buf1, script1, n - 1);
      assert ([r] + rs)[1..] == rs;
      calc {
        buf + DataOf(script);
        Returned(r) + buf1 + DataOf(script1);
        { Regroup(Returned(r), buf1, DataOf(script1)); }
        Returned(r) + (buf1 + DataOf(script1));
        Returned(r) + (AllReturned(rs) + buf2 + DataOf(script2));
        { Regroup3(Returned(r), AllReturned(rs), buf2, DataOf(script2)); }
        AllReturned([r] + rs) + buf2 + DataOf(script2);
      }
    }
  }

  lemma Regroup<T>(a: seq<T>, b: seq<T>, c: seq<T>)
    ensures a + b + c == a + (b + c)
  {
  }

  lemma Regroup3<T>(a: seq<T>, b: seq<T>, c: seq<T>, d: seq<T>)
    ensures a + (b + c + d) == a + b + c + d
  {
  }

  function AllReturned(rs: seq<Read>): seq<byte> {
    if rs == [] then [] else Returned(rs[0]) + AllReturned(rs[1..])
  }

  // ---------------------------------------------------------------- writing

  /** What one Write call will do: take at most so many octets, perhaps with an error. */
  datatype Write = Write(limit: nat, err: Option<IOError>)

  predicate Progresses(w: Write) { w.limit > 0 && w.err.None? }

  function Taken(w: Write, left: nat): (n: nat)
    ensures n <= left
  {
    if w.limit < left then w.limit else left
  }

  /** WriteMessage as a function of the message's length and of what the coming writes will do (a plan
      that runs out takes everything): the octets that go out, the error, and the plan left. */
  function WriteSpec(plan: seq<Write>, left: nat): (r: (nat, Option<IOError>, seq<Write>))
    ensures r.0 <= left
    decreases |plan|
  {
    if left == 0 then (0, None, plan)
    else if plan == [] then (left, None, plan)
    else
      var w := plan[0];
      var n := Taken(w, left);
      if w.err.Some? then (n, w.err, plan[1..])
      else if n == 0 then (0, Some(ShortWrite), plan[1..])
      else
        var (m, err, rest) := WriteSpec(plan[1..], left - n);
        (n + m, err, rest)
  }

  /** The most the first k writes take together. */
  function Limit(plan: seq<Write>, k: nat): nat
    requires k <= |plan|
    decreases k
  {
    if k == 0 then 0 else plan[0].limit + Limit(plan[1..], k - 1)
  }

  /** Write k is the first that fails or takes nothing, and the message is not out before it. */
  predicate Stops(plan: seq<Write>, left: nat, k: nat) {
    && k < |plan| && !Progresses(plan[k])
    && (forall i :: 0 <= i < k ==> Progresses(plan[i]))
    && Limit(plan, k) < left
  }

  lemma {:induction false} StopsNext(plan: seq<Write>, left: nat, k: nat)
    requires plan != [] && Progresses(plan[0]) && k > 0
    ensures Stops(plan, left, k) <==> plan[0].limit < left && Stops(plan[1..], left - plan[0].limit, k - 1)
  {
    var rest := plan[1..];
    if Stops(plan, left, k) {
      assert forall i :: 0 <= i < k - 1 ==> rest[i] == plan[i + 1];
    }
    if plan[0].limit < left && Stops(rest, left - plan[0].limit, k - 1) {
      assert forall i :: 0 < i < k ==> plan[i] == rest[i - 1];
    }
  }

  /** A write stops at such a k with the error of write k (a write that takes nothing is short)
      and what the writes up to k took. */
  lemma {:induction false} WriteStops(plan: seq<Write>, left: nat, k: nat)
    requires Stops(plan, left, k)
    ensures WriteSpec(plan, left) == (Limit(plan, k) + Taken(plan[k], left - Limit(plan, k)),
                                      if plan[k].err.Some? then plan[k].err else Some(ShortWrite), plan[k + 1..])
    decreases k
  {
    if k > 0 {
      hide Stops;
      FirstProgresses(plan, left, k);
      StopsNext(plan, left, k);
      WriteStops(plan[1..], left - plan[0].limit, k - 1);
      assert plan[1..][k..] == plan[k + 1..];
    }
  }

  lemma FirstProgresses(plan: seq<Write>, left: nat, k: nat)
    requires Stops(plan, left, k) && k > 0
    ensures Progresses(plan[0])
  {
  }

  /** And it fails in no other case. */
  lemma {:induction false} WriteFailure(plan: seq<Write>, left: nat) returns (k: nat)
    requires WriteSpec(plan, left).1.Some?
    ensures Stops(plan, left, k)
    decreases |plan|
  {
    if !Progresses(plan[0]) {
      k := 0;
    } else {
      var j := WriteFailure(plan[1..], left - plan[0].limit);
      k := j + 1;
      StopsNext(plan, left, k);
    }
  }

  /** A message is written whole and without error if and only if no write that fails or takes nothing
      comes before the message is out; on an error what went out is short of nothing but what
      the writes did not take. */
  lemma WriteSucceedsIff(plan: seq<Write>, left: nat)
    ensures WriteSpec(plan, left).1.None? <==> !exists k: nat :: Stops(plan, left, k)
    ensures WriteSpec(plan, left).1.None? ==> WriteSpec(plan, left).0 == left
  {
    if k: nat :| Stops(plan, left, k) {
      WriteStops(plan, left, k);
    }
    if WriteSpec(plan, left).1.Some? {
      var k := WriteFailure(plan, left);
    } else {
      WholeUnlessError(plan, left);
    }
  }

  lemma {:induction false} WholeUnlessError(plan: seq<Write>, left: nat)
    requires WriteSpec(plan, left).1.None?
    ensures WriteSpec(plan, left).0 == left
    decreases |plan|
  {
    if left > 0 && plan != [] {
      WholeUnlessError(plan[1..], left - Taken(plan[0], left));
    }
  }

  // ---------------------------------------------------------------- the transport object

  /** The endpoint: what its reads will return, how much its writes will take (a plan that runs
      out takes everything), and what has been written. */
  class Endpoint {
    var script: seq<Chunk>
    var plan: seq<Write>
    var written: seq<byte>

    constructor (script: seq<Chunk>, plan: seq<Write>)
      ensures this.script == script && this.plan == plan && written == []
    {
      this.script, this.plan, written := script, plan, [];
    }

    method ReadSome() returns (c: Chunk)
      modifies this`script
      ensures old(script) == [] ==> c == Chunk([], Some(EOF)) && script == []
      ensures old(script) != [] ==> c == old(script)[0] && script == old(script)[1..]
    {
      if script == [] {
        return Chunk([], Some(EOF));
      }
      c := script[0];
      script := script[1..];
    }

    method WriteSome(p: seq<byte>) returns (n: nat, err: Option<IOError>)
      modifies this`plan, this`written
      ensures n <= |p| && written == old(written) + p[..n]
      ensures old(plan) == [] ==> n == |p| && err == None && plan == []
      ensures old(plan) != [] ==> n == Taken(old(plan)[0], |p|) && err == old(plan)[0].err && plan == old(plan)[1..]
    {
      n, err := |p|, None;
      if plan != [] {
        n, err := Taken(plan[0], |p|), plan[0].err;
        plan := plan[1..];
      }
      written := written + p[..n];
    }
  }

  class StreamTransport {
    const rw: Endpoint
    var buf: seq<byte>

    constructor (rw: Endpoint)
      ensures this.rw == rw && buf == []
    {
      this.rw := rw;
      buf := [];
    }

    method ReadMessage() returns (r: Read)
      modifies this`buf, rw`script
      ensures (r, buf, rw.script) == ReadSpec(old(buf), old(rw.script))
      ensures rw.written == old(rw.written)
    {
      while true
        invariant ReadSpec(buf, rw.script) == ReadSpec(old(buf), old(rw.script))
        decreases |rw.script|
      {
        if |buf| >= HEADER {
          var msgLen := Get32(buf, 4);
          if msgLen < HEADER {
            return Fail(LengthTooSmall);
          }
          if msgLen > MAX_MESSAGE {
            return Fail(LengthTooLarge);
          }
          if |buf| >= msgLen {
            var msg := buf[..msgLen];
            buf := buf[msgLen..];
            return Msg(msg);
          }
        }
        var c := rw.ReadSome();
        if |c.data| > 0 {
          buf := buf + c.data;
        } else {
          assert buf + c.data == buf;
        }
        if c.err.Some? {
          if c.err == Some(EOF) && |buf| > 0 {
            return Fail(UnexpectedEOF);
          }
          return Fail(c.err.value);
        }
        if |c.data| == 0 {
          return Fail(NoProgress);
        }
      }
    }

    /** Under any short writes: the octets that go out are the prefix the specification says, and the
        error, if any, is its error. */
    method WriteMessage(msg: seq<byte>) returns (err: Option<IOError>)
      modifies rw`plan, rw`written
      ensures var (sent, e, left) := WriteSpec(old(rw.plan), |msg|);
              err == e && rw.plan == left && rw.written == old(rw.written) + msg[..sent]
      ensures err.None? <==> !exists k: nat :: Stops(old(rw.plan), |msg|, k)
      ensures err.None? ==> rw.written == old(rw.written) + msg
      ensures buf == old(buf)
    {
      hide Stops;
      WriteSucceedsIff(rw.plan, |msg|);
      var rest := msg;
      ghost var sent := 0;
      while |rest| > 0
        invariant 0 <= sent <= |msg| && rest == msg[sent..]
        invariant rw.written == old(rw.written) + msg[..sent]
        invariant var (m, e, left) := WriteSpec(rw.plan, |rest|);
                  WriteSpec(old(rw.plan), |msg|) == (sent + m, e, left)
        decreases |rest|
      {
        var n, e := rw.WriteSome(rest);
        assert msg[..sent] + rest[..n] == msg[..sent + n];
        if e.Some? {
          return e;
        }
        if n == 0 {
          return Some(ShortWrite);
        }
        rest := rest[n..];
        sent := sent + n;
      }
      assert msg[..sent] == msg;
      return None;
    }
  }
}
