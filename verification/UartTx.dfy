/** The serial transmitter and its round trip: whatever is latched can be read back from the line. */
module UartTx {

  import opened Words

  datatype Tx = Tx(state: nat, txbuf: Byte, txline: Bit, bsy: bool)

  /** The inputs that one edge of the bit clock samples. */
  datatype Sample = Sample(start: bool, data: Byte)

  const IDLE: Tx := Tx(0, 0, 1, false)

  predicate Latches(u: Tx, x: Sample) {
    x.start && !u.bsy
  }

  /** One edge of the bit clock.  Both conditions test the registers as they were, and of two
      assignments to one register the later one counts. */
  function Edge(u: Tx, x: Sample): Tx {
    var v := if Latches(u, x) then Tx(1, x.data, 0, true) else u;
    if u.state == 0 then v
    else if u.state < 9 then v.(state := u.state + 1, txline := u.txbuf % 2, txbuf := u.txbuf / 2)
    else if u.state == 9 then v.(state := 10, txline := 1)
    else if u.state < 13 then v.(state := u.state + 1)
    else if u.state == 13 then v.(state := 0, bsy := false)
    else v
  }

  /** The transmitter as it updates its registers. */
  class Transmitter {
    var state: nat
    var txbuf: Byte
    var txline: Bit
    var bsy: bool

    function View(): Tx
      reads this
    {
      Tx(state, txbuf, txline, bsy)
    }

    constructor ()
      ensures View() == IDLE
    {
      state, txbuf, txline, bsy := 0, 0, 1, false;
    }

    method Clock(start: bool, data: Byte)
      modifies this
      ensures View() == Edge(old(View()), Sample(start, data))
    {
      var st, buf := state, txbuf;
      if start && !bsy {
        txbuf, state, txline, bsy := data, 1, 0, true;
      }
      if st > 0 {
        if st < 9 {
          state, txline, txbuf := st + 1, buf % 2, buf / 2;
        } else if st == 9 {
          state, txline := 10, 1;
        } else if st < 13 {
          state := st + 1;
        } else if st == 13 {
          state, bsy := 0, false;
        }
      }
    }
  }

  // ---------------------------------------------------------------- runs

  function Final(u: Tx, xs: seq<Sample>): Tx
    decreases xs
  {
    if xs == [] then u else Final(Edge(u, xs[0]), xs[1..])
  }

  /** The line after every edge. */
  function Lines(u: Tx, xs: seq<Sample>): (ls: seq<Bit>)
    ensures |ls| == |xs|
    decreases xs
  {
    if xs == [] then [] else [Edge(u, xs[0]).txline] + Lines(Edge(u, xs[0]), xs[1..])
  }

  function LatchedBy(u: Tx, x: Sample): seq<Byte> {
    if Latches(u, x) then [x.data] else []
  }

  /** The bytes taken over, in order. */
  function Latched(u: Tx, xs: seq<Sample>): seq<Byte>
    decreases xs
  {
    if xs == [] then [] else LatchedBy(u, xs[0]) + Latched(Edge(u, xs[0]), xs[1..])
  }

  lemma {:induction false} Snoc(u: Tx, xs: seq<Sample>, x: Sample)
    ensures Final(u, xs + [x]) == Edge(Final(u, xs), x)
    ensures Latched(u, xs + [x]) == Latched(u, xs) + LatchedBy(Final(u, xs), x)
    decreases xs
  {
    if xs == [] {
      assert ([x])[1..] == [];
      assert [] + [x] == [x];
    } else {
      assert (xs + [x])[1..] == xs[1..] + [x];
      Snoc(Edge(u, xs[0]), xs[1..], x);
    }
  }

  // ---------------------------------------------------------------- the receiver

  /** Eight bits, least significant first. */
  function Assemble(bits: seq<Bit>): nat {
    if bits == [] then 0 else bits[0] + 2 * Assemble(bits[1..])
  }

  /** A receiver that waits for a start bit, samples eight bits and waits again. */
  function Receive(line: seq<Bit>): seq<nat>
    decreases |line|
  {
    if line == [] then []
    else if line[0] == 1 then Receive(line[1..])
    else if |line| < 9 then []
    else [Assemble(line[1..9])] + Receive(line[9..])
  }

  /** The line from `state` on until the transmitter is idle. */
  function Rest(state: nat, buf: Byte): (ls: seq<Bit>)
    requires 0 < state <= 14
    ensures |ls| == 14 - state
    decreases 14 - state
  {
    if state < 9 then [buf % 2] + Rest(state + 1, buf / 2) else seq(14 - state, _ => 1)
  }

  predicate Sending(u: Tx) {
    0 < u.state <= 13 && u.bsy && (u.state >= 10 ==> u.txline == 1)
  }

  predicate Quiet(u: Tx) {
    u.state == 0 && !u.bsy && u.txline == 1
  }

  /** While it sends, the transmitter ignores its inputs. */
  lemma {:induction false} SendingLine(u: Tx, xs: seq<Sample>) returns (v: Tx)
    requires Sending(u) && |xs| >= 14 - u.state
    ensures Quiet(v)
    ensures Lines(u, xs) == Rest(u.state, u.txbuf) + Lines(v, xs[14 - u.state..])
    ensures Latched(u, xs) == Latched(v, xs[14 - u.state..])
    ensures Final(u, xs) == Final(v, xs[14 - u.state..])
    decreases 14 - u.state
  {
    var w := Edge(u, xs[0]);
    SendingStep(u, xs[0], w);
    if u.state == 13 {
      v := w;
    } else {
      v := SendingLine(w, xs[1..]);
      assert xs[1..][14 - w.state..] == xs[14 - u.state..];
    }
  }

  lemma SendingStep(u: Tx, x: Sample, w: Tx)
    requires Sending(u) && w == Edge(u, x)
    ensures LatchedBy(u, x) == []
    ensures if u.state == 13 then Quiet(w) else Sending(w) && w.state == u.state + 1
    ensures Rest(u.state, u.txbuf) == [w.txline] + if u.state == 13 then [] else Rest(w.state, w.txbuf)
  {
  }

  /** The same for a run that ends before the frame does. */
  lemma {:induction false} SendingCutShort(u: Tx, xs: seq<Sample>)
    requires Sending(u) && |xs| < 14 - u.state
    ensures Lines(u, xs) == Rest(u.state, u.txbuf)[..|xs|]
    ensures Latched(u, xs) == [] && Final(u, xs).state == u.state + |xs|
    decreases xs
  {
    if xs != [] {
      var w := Edge(u, xs[0]);
      SendingCutShort(w, xs[1..]);
      assert Rest(u.state, u.txbuf) == [w.txline] + Rest(w.state, w.txbuf);
    }
  }

  /** The bits of the line are the bits of the byte. */
  lemma {:induction false} RestAssembles(state: nat, buf: Byte, bound: nat)
    requires 0 < state <= 9 && buf < bound
    requires bound == if state == 1 then 256 else if state == 2 then 128 else if state == 3 then 64 else
                      if state == 4 then 32 else if state == 5 then 16 else if state == 6 then 8 else
                      if state == 7 then 4 else if state == 8 then 2 else 1
    ensures Assemble(Rest(state, buf)[..9 - state]) == buf
    decreases 9 - state
  {
    var r := Rest(state, buf);
    if state < 9 {
      RestAssembles(state + 1, buf / 2, bound / 2);
      assert r[..9 - state][1..] == Rest(state + 1, buf / 2)[..8 - state];
    }
  }

  lemma {:induction false} RestEndsHigh(state: nat, buf: Byte, i: nat)
    requires 0 < state <= 14 && i < 14 - state && i >= 9 - state
    ensures Rest(state, buf)[i] == 1
    decreases 14 - state
  {
    if state < 9 { RestEndsHigh(state + 1, buf / 2, i - 1); }
  }

  lemma {:induction false} ReceiveHigh(ones: seq<Bit>, tail: seq<Bit>)
    requires forall i :: 0 <= i < |ones| ==> ones[i] == 1
    ensures Receive(ones + tail) == Receive(tail)
  {
    if ones == [] {
      assert ones + tail == tail;
    } else {
      assert (ones + tail)[1..] == ones[1..] + tail;
      ReceiveHigh(ones[1..], tail);
    }
  }

  /** A frame on the line, whole or cut after its data bits, is received as its byte. */
  lemma ReceiveFrame(d: Byte, n: nat, tail: seq<Bit>)
    requires 8 <= n <= 13
    ensures Receive([0] + Rest(1, d)[..n] + tail) == [d] + Receive(tail)
  {
    var r := Rest(1, d)[..n];
    var line := [0] + r + tail;
    RestAssembles(1, d, 256);
    assert line[1..9] == Rest(1, d)[..8];
    forall i | 0 <= i < n - 8
      ensures r[8..][i] == 1
    {
      RestEndsHigh(1, d, i + 8);
    }
    assert line[9..] == r[8..] + tail;
    ReceiveHigh(r[8..], tail);
  }

  lemma ReceiveCutShort(d: Byte, n: nat)
    requires n < 8
    ensures Receive([0] + Rest(1, d)[..n]) == []
  {
  }

  /** The byte of a frame whose data bits are not all out yet does not count. */
  function Out(u: Tx, bytes: seq<Byte>): seq<Byte> {
    if 0 < u.state < 9 && bytes != [] then bytes[..|bytes| - 1] else bytes
  }

  /** For every run from idle, whatever is asked of the transmitter and whenever, the receiver gets
      exactly the bytes latched, in order. */
  lemma {:induction false} RoundTrip(u: Tx, xs: seq<Sample>)
    requires Quiet(u)
    ensures Receive(Lines(u, xs)) == Out(Final(u, xs), Latched(u, xs))
    decreases |xs|
  {
    if xs != [] {
      var w := Edge(u, xs[0]);
      if !xs[0].start {
        RoundTrip(w, xs[1..]);
        assert Lines(u, xs)[1..] == Lines(w, xs[1..]);
      } else if |xs| >= 14 {
        var v := SendingLine(w, xs[1..]);
        assert xs[1..][13..] == xs[14..];
        RoundTrip(v, xs[14..]);
        WholeFrame(u, xs, w, v);
      } else {
        LastFrame(u, xs, w);
      }
    }
  }

  lemma WholeFrame(u: Tx, xs: seq<Sample>, w: Tx, v: Tx)
    requires Quiet(u) && |xs| >= 14 && xs[0].start && w == Edge(u, xs[0])
    requires Lines(w, xs[1..]) == Rest(1, w.txbuf) + Lines(v, xs[14..])
    requires Latched(w, xs[1..]) == Latched(v, xs[14..]) && Final(w, xs[1..]) == Final(v, xs[14..])
    requires Quiet(v) && Receive(Lines(v, xs[14..])) == Out(Final(v, xs[14..]), Latched(v, xs[14..]))
    ensures Receive(Lines(u, xs)) == Out(Final(u, xs), Latched(u, xs))
  {
    var d, tail := xs[0].data, Lines(v, xs[14..]);
    ReceiveFrame(d, 13, tail);
    FrameLine(u, xs, w, tail);
    QuietLatch(v, xs[14..]);
    OutAfter(Final(u, xs), d, Latched(v, xs[14..]));
  }

  lemma FrameLine(u: Tx, xs: seq<Sample>, w: Tx, tail: seq<Bit>)
    requires Quiet(u) && xs != [] && xs[0].start && w == Edge(u, xs[0])
    requires Lines(w, xs[1..]) == Rest(1, w.txbuf) + tail
    ensures Lines(u, xs) == [0] + Rest(1, xs[0].data)[..13] + tail
    ensures Latched(u, xs) == [xs[0].data] + Latched(w, xs[1..]) && Final(u, xs) == Final(w, xs[1..])
  {
    assert Rest(1, xs[0].data)[..13] == Rest(1, xs[0].data);
  }

  lemma OutAfter(u: Tx, d: Byte, bytes: seq<Byte>)
    requires u.state != 0 ==> bytes != []
    ensures Out(u, [d] + bytes) == [d] + Out(u, bytes)
  {
    if bytes != [] { assert ([d] + bytes)[..|bytes|] == [d] + bytes[..|bytes| - 1]; }
  }

  /** A transmitter that ends up sending has latched something. */
  lemma {:induction false} QuietLatch(u: Tx, xs: seq<Sample>)
    requires u.state == 0
    ensures Final(u, xs).state != 0 ==> Latched(u, xs) != []
    decreases xs
  {
    if xs != [] && !Latches(u, xs[0]) { QuietLatch(Edge(u, xs[0]), xs[1..]); }
  }

  lemma LastFrame(u: Tx, xs: seq<Sample>, w: Tx)
    requires Quiet(u) && 0 < |xs| < 14 && xs[0].start && w == Edge(u, xs[0])
    ensures Receive(Lines(u, xs)) == Out(Final(u, xs), Latched(u, xs))
  {
    var d, n := xs[0].data, |xs| - 1;
    SendingCutShort(w, xs[1..]);
    assert Lines(u, xs) == [0] + Rest(1, d)[..n];
    if n < 8 {
      ReceiveCutShort(d, n);
    } else {
      ReceiveFrame(d, n, []);
      assert [0] + Rest(1, d)[..n] + [] == [0] + Rest(1, d)[..n];
    }
  }

  // ---------------------------------------------------------------- the busy signal

  predicate Sound(u: Tx) {
    && u.state <= 13 && (u.bsy <==> u.state > 0)
    && (u.state == 0 || u.state >= 10 ==> u.txline == 1)
  }

  /** On every run the transmitter is busy exactly while it sends, and the line idles high. */
  lemma {:induction false} AlwaysSound(u: Tx, xs: seq<Sample>)
    requires Sound(u)
    ensures Sound(Final(u, xs))
    decreases xs
  {
    if xs != [] { AlwaysSound(Edge(u, xs[0]), xs[1..]); }
  }
}
