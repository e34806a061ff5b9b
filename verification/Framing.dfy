/** The frame around every message: an 18-byte mark, the size and the session id in 8 little-endian bytes each, then
    the payload; and the receive loop over a byte stream that arrives in pieces. The loop of the source asks for the
    full count at every `recv`; asking only for what is missing is modelled beside it. */
module Framing {
  import opened Options
  import Text

  newtype byte = b: int | 0 <= b < 256

  /** "VINIPROTOCOL v0.1" and its terminating zero. */
  const MARK: seq<byte> := [86, 73, 78, 73, 80, 82, 79, 84, 79, 67, 79, 76, 32, 118, 48, 46, 49, 0]

  const HEADER_SIZE: nat := 34

  // ---- numbers as bytes ----

  function Pow256(k: nat): (p: nat)
    ensures p > 0
  {
    if k == 0 then 1 else 256 * Pow256(k - 1)
  }

  function Bytes(n: nat, k: nat): (s: seq<byte>)
    ensures |s| == k
    decreases k
  {
    if k == 0 then [] else [(n % 256) as byte] + Bytes(n / 256, k - 1)
  }

  function Number(s: seq<byte>): nat
    decreases s
  {
    if s == [] then 0 else s[0] as int + 256 * Number(s[1..])
  }

  lemma {:induction false} NumberOfBytes(n: nat, k: nat)
    requires n < Pow256(k)
    ensures Number(Bytes(n, k)) == n
    decreases k
  {
    if k > 0 {
      assert Bytes(n, k)[1..] == Bytes(n / 256, k - 1);
      NumberOfBytes(n / 256, k - 1);
    }
  }

  lemma {:induction false} BytesOfNumber(s: seq<byte>)
    ensures Number(s) < Pow256(|s|) && Bytes(Number(s), |s|) == s
    decreases s
  {
    if s != [] {
      BytesOfNumber(s[1..]);
      assert Number(s) % 256 == s[0] as int && Number(s) / 256 == Number(s[1..]);
      assert s == [s[0]] + s[1..];
    }
  }

  /** Byte `i` stands for the i-th power of 256: the least byte comes first. */
  lemma {:induction false} ByteAt(n: nat, k: nat, i: nat)
    requires i < k
    ensures Bytes(n, k)[i] as int == n / Pow256(i) % 256
    decreases k
  {
    if i > 0 {
      ByteAt(n / 256, k - 1, i - 1);
      DivideTwice(n, Pow256(i - 1));
    }
  }

  lemma DivideTwice(n: nat, p: nat)
    requires p > 0
    ensures n / 256 / p == n / (256 * p)
  {
    var q, r := n / 256 / p, n / 256 % p;
    assert n == 256 * (q * p + r) + n % 256;
    assert n == q * (256 * p) + (256 * r + n % 256);
    Text.Quotient(n, 256 * p, q, 256 * r + n % 256);
  }

  const TWO64: int := 0x1_0000_0000_0000_0000

  lemma EightBytes()
    ensures Pow256(8) == TWO64
  {
    assert Pow256(2) == 0x1_0000;
    assert Pow256(4) == 0x1_0000_0000;
    assert Pow256(6) == 0x1_0000_0000_0000;
  }

  /** A 64-bit two's complement number as its bit pattern, and back. */
  function Pattern(n: int): (r: nat)
    requires -TWO64 / 2 <= n < TWO64 / 2
    ensures r < TWO64
  {
    if n < 0 then n + TWO64 else n
  }

  function Signed(r: nat): int {
    if r < TWO64 / 2 then r else r - TWO64
  }

  // ---- frames ----

  datatype Packet = Packet(session: int, payload: seq<byte>)

  datatype Header = Header(size: nat, session: int)

  /** Sizes are kept in an `int`, the size of the whole frame too. */
  predicate Sendable(p: Packet) {
    |p.payload| + HEADER_SIZE < 0x8000_0000 && -TWO64 / 2 <= p.session < TWO64 / 2
  }

  function HeaderBytes(p: Packet): (s: seq<byte>)
    requires Sendable(p)
    ensures |s| == HEADER_SIZE
  {
    MARK + Bytes(|p.payload|, 8) + Bytes(Pattern(p.session), 8)
  }

  function Seal(p: Packet): seq<byte>
    requires Sendable(p)
  {
    HeaderBytes(p) + p.payload
  }

  /** A header whose mark is wrong is refused. */
  function Load(s: seq<byte>): Option<Header>
    requires |s| == HEADER_SIZE
  {
    if s[..18] != MARK then None
    else Some(Header(Number(s[18..26]), Signed(Number(s[26..]))))
  }

  /** Where everything stands in a frame. */
  lemma FrameLayout(p: Packet, i: nat)
    requires Sendable(p) && i < |Seal(p)|
    ensures |Seal(p)| == HEADER_SIZE + |p.payload| && HEADER_SIZE == 34
    ensures Seal(p)[i] as int ==
            if i < 18 then MARK[i] as int
            else if i < 26 then |p.payload| / Pow256(i - 18) % 256
            else if i < 34 then (p.session + if p.session < 0 then TWO64 else 0) / Pow256(i - 26) % 256
            else p.payload[i - 34] as int
  {
    if 18 <= i < 26 {
      ByteAt(|p.payload|, 8, i - 18);
    } else if 26 <= i < 34 {
      ByteAt(Pattern(p.session), 8, i - 26);
    }
  }

  lemma LoadHeader(p: Packet)
    requires Sendable(p)
    ensures Load(HeaderBytes(p)) == Some(Header(|p.payload|, p.session))
  {
    var s := HeaderBytes(p);
    assert s[..18] == MARK && s[18..26] == Bytes(|p.payload|, 8) && s[26..] == Bytes(Pattern(p.session), 8);
    EightBytes();
    NumberOfBytes(|p.payload|, 8);
    NumberOfBytes(Pattern(p.session), 8);
  }

  // ---- the stream ----

  /** What the next `recv` does, if it has a choice: a piece of about this size, or an error. */
  datatype Cut = Piece(size: nat) | Failure

  /** What is still to come, and what the next receives do with it. */
  datatype Stream = Stream(incoming: seq<byte>, cuts: seq<Cut>)

  function Min(a: nat, b: nat): nat {
    if a < b then a else b
  }

  /** The next `recv` returns an error. */
  predicate Fails(w: Stream) {
    w.cuts != [] && w.cuts[0].Failure?
  }

  predicate NoFailure(cuts: seq<Cut>) {
    forall i :: 0 <= i < |cuts| ==> cuts[i].Piece?
  }

  /** The bytes one `recv` returns: none on an error, otherwise at least one, at most what was asked for, and none when
      the stream has ended. */
  function Chunk(w: Stream, asked: nat): (c: seq<byte>)
    ensures |c| <= asked && |c| <= |w.incoming| && c == w.incoming[..|c|]
    ensures asked > 0 && w.incoming != [] && !Fails(w) ==> |c| > 0
    ensures Fails(w) ==> c == []
  {
    var most := Min(asked, |w.incoming|);
    var size := if Fails(w) then 0
                else if w.cuts == [] || most == 0 then most
                else if w.cuts[0].size == 0 then 1 else Min(w.cuts[0].size, most);
    w.incoming[..size]
  }

  function Rest(w: Stream, asked: nat): Stream {
    Stream(w.incoming[|Chunk(w, asked)|..], if w.cuts == [] then [] else w.cuts[1..])
  }

  datatype Asking = FullCount | MissingOnly

  function Asked(mode: Asking, n: nat, got: nat): nat {
    if mode == FullCount || got > n then n else n - got
  }

  /** `Closed`: the stream ended. `Failed`: an error. `Overrun`: more bytes arrived than the buffer was made for. */
  datatype Fetch = Got(bytes: seq<byte>) | Closed | Failed | Overrun

  /** The receive loop, from what it has so far. */
  function Fill(mode: Asking, w: Stream, n: nat, got: seq<byte>): (r: (Fetch, Stream))
    decreases n - |got|
  {
    if |got| > n then (Overrun, w)
    else if |got| == n then (Got(got), w)
    else
      var asked := Asked(mode, n, |got|);
      var chunk := Chunk(w, asked);
      if Fails(w) then (Failed, Rest(w, asked))
      else if chunk == [] then (Closed, Rest(w, asked))
      else Fill(mode, Rest(w, asked), n, got + chunk)
  }

  /** What the loop returns is the front of the stream, and the stream goes on right behind it. */
  lemma {:induction false} FillTakesFront(mode: Asking, w: Stream, n: nat, got: seq<byte>)
    requires Fill(mode, w, n, got).0.Got?
    ensures var (r, w') := Fill(mode, w, n, got);
      n <= |got + w.incoming| && r.bytes == (got + w.incoming)[..n] && w'.incoming == (got + w.incoming)[n..]
    ensures w.cuts == [] ==> Fill(mode, w, n, got).1.cuts == []
    ensures NoFailure(w.cuts) ==> NoFailure(Fill(mode, w, n, got).1.cuts)
    decreases n - |got|
  {
    if |got| < n {
      var asked := Asked(mode, n, |got|);
      var chunk := Chunk(w, asked);
      assert got + chunk + Rest(w, asked).incoming == got + w.incoming;
      FillTakesFront(mode, Rest(w, asked), n, got + chunk);
    }
  }

  // ---- when the loop works ----

  /** The first `k` receives return no error. */
  predicate Sound(w: Stream, k: nat) {
    forall i :: 0 <= i < |w.cuts| && i < k ==> w.cuts[i].Piece?
  }

  /** The bytes that `k` receives hand over when each asks for `n`. */
  function Consumed(w: Stream, n: nat, k: nat): nat
    decreases k
  {
    if k == 0 then 0 else |Chunk(w, n)| + Consumed(Rest(w, n), n, k - 1)
  }

  /** Some number of receives without an error, each asking for `n`, ends exactly `n` bytes on. */
  ghost predicate Aligned(w: Stream, n: nat, got: nat) {
    exists k :: got + Consumed(w, n, k) == n && Sound(w, k)
  }

  lemma {:induction false} NothingConsumed(w: Stream, n: nat, k: nat)
    requires w.incoming == []
    ensures Consumed(w, n, k) == 0
    decreases k
  {
    if k > 0 {
      NothingConsumed(Rest(w, n), n, k - 1);
    }
  }

  lemma SoundStep(w: Stream, n: nat, k: nat)
    ensures Sound(w, k + 1) <==> !Fails(w) && Sound(Rest(w, n), k)
  {
    if w.cuts != [] {
      assert forall i :: 0 <= i < |w.cuts[1..]| ==> w.cuts[1..][i] == w.cuts[i + 1];
      assert !Fails(w) && Sound(Rest(w, n), k) ==> Sound(w, k + 1) by {
        assert forall i :: 0 < i < |w.cuts| ==> w.cuts[i] == w.cuts[1..][i - 1];
      }
      if Sound(w, k + 1) {
        assert w.cuts[0].Piece?;
      }
    }
  }

  /** The loop of the source fills its buffer exactly when the pieces end where the buffer ends. */
  lemma {:induction false} FillsIffAligned(w: Stream, n: nat, got: seq<byte>)
    requires |got| <= n
    ensures Fill(FullCount, w, n, got).0.Got? <==> Aligned(w, n, |got|)
    decreases n - |got|
  {
    if |got| == n {
      assert Consumed(w, n, 0) == 0 && Sound(w, 0);
    } else {
      var chunk, rest := Chunk(w, n), Rest(w, n);
      forall k: nat ensures |got| + Consumed(w, n, k) == n && Sound(w, k) <==>
                            k > 0 && !Fails(w) && |got + chunk| + Consumed(rest, n, k - 1) == n && Sound(rest, k - 1) {
        if k > 0 {
          SoundStep(w, n, k - 1);
        }
      }
      if Fails(w) {
      } else if chunk == [] {
        forall k: nat ensures |got| + Consumed(w, n, k) != n {
          NothingConsumed(w, n, k);
        }
      } else if |got| + |chunk| > n {
        assert Fill(FullCount, rest, n, got + chunk).0 == Overrun;
      } else {
        FillsIffAligned(rest, n, got + chunk);
        if Aligned(rest, n, |got + chunk|) {
          var k: nat :| |got + chunk| + Consumed(rest, n, k) == n && Sound(rest, k);
          assert |got| + Consumed(w, n, k + 1) == n && Sound(w, k + 1);
        }
      }
    }
  }

  lemma {:induction false} NoOverrunAtTheEnd(w: Stream, n: nat, got: seq<byte>)
    requires |got| + |w.incoming| <= n
    ensures !Fill(FullCount, w, n, got).0.Overrun?
    decreases n - |got|
  {
    if |got| < n && Chunk(w, n) != [] {
      NoOverrunAtTheEnd(Rest(w, n), n, got + Chunk(w, n));
    }
  }

  /** The buffer is safe from every way of cutting the stream exactly when nothing follows the block, or the block is a
      single byte or none. */
  lemma SafeIffNothingFollows(incoming: seq<byte>, n: nat)
    ensures (forall cuts :: !Fill(FullCount, Stream(incoming, cuts), n, []).0.Overrun?)
            <==> |incoming| <= n || n <= 1
  {
    if |incoming| <= n {
      forall cuts ensures !Fill(FullCount, Stream(incoming, cuts), n, []).0.Overrun? {
        NoOverrunAtTheEnd(Stream(incoming, cuts), n, []);
      }
    } else if n <= 1 {
      forall cuts ensures !Fill(FullCount, Stream(incoming, cuts), n, []).0.Overrun? {
        if n == 1 {
          assert |[] + Chunk(Stream(incoming, cuts), n)| <= 1;
        }
      }
    } else {
      CutAfterOneByte(incoming, n);
    }
  }

  /** One byte, and then a full buffer more. */
  lemma CutAfterOneByte(incoming: seq<byte>, n: nat)
    requires 1 < n < |incoming|
    ensures Fill(FullCount, Stream(incoming, [Piece(1)]), n, []).0.Overrun?
  {
    var w := Stream(incoming, [Piece(1)]);
    var first := [] + Chunk(w, n);
    assert |first| == 1 && |Chunk(Rest(w, n), n)| == n;
    assert Fill(FullCount, Rest(w, n), n, first)
           == Fill(FullCount, Rest(Rest(w, n), n), n, first + Chunk(Rest(w, n), n));
  }

  /** Asking only for the missing bytes always works. */
  lemma {:induction false} MissingOnlyFills(w: Stream, n: nat, got: seq<byte>)
    requires |got| <= n <= |got| + |w.incoming| && NoFailure(w.cuts)
    ensures Fill(MissingOnly, w, n, got).0.Got?
    decreases n - |got|
  {
    if |got| < n {
      var asked := Asked(MissingOnly, n, |got|);
      MissingOnlyFills(Rest(w, asked), n, got + Chunk(w, asked));
    }
  }

  /** With nothing to cut the stream short, one receive fills the buffer. */
  lemma WholeReadsFill(incoming: seq<byte>, n: nat)
    requires n <= |incoming|
    ensures Fill(FullCount, Stream(incoming, []), n, []).0.Got?
  {
    if n > 0 {
      assert |[] + Chunk(Stream(incoming, []), n)| == n;
    }
  }

  // ---- messages ----

  /** After the header: as many bytes as it announces. */
  function ReceiveBody(mode: Asking, h: Option<Header>, w: Stream): (r: (Option<Packet>, Stream)) {
    if h.None? then (None, w)
    else
      var (body, w') := Fill(mode, w, h.value.size, []);
      if body.Got? then (Some(Packet(h.value.session, body.bytes)), w') else (None, w')
  }

  function ReceiveMsg(mode: Asking, w: Stream): (r: (Option<Packet>, Stream)) {
    var (head, w') := Fill(mode, w, HEADER_SIZE, []);
    if head.Got? && |head.bytes| == HEADER_SIZE then ReceiveBody(mode, Load(head.bytes), w') else (None, w')
  }

  function ReceiveAll(mode: Asking, w: Stream, count: nat): Option<seq<Packet>>
    decreases count
  {
    if count == 0 then Some([]) else
      var (p, w') := ReceiveMsg(mode, w);
      if p.None? then None else
        var rest := ReceiveAll(mode, w', count - 1);
        if rest.None? then None else Some([p.value] + rest.value)
  }

  predicate AllSendable(ps: seq<Packet>) {
    forall i :: 0 <= i < |ps| ==> Sendable(ps[i])
  }

  function SealAll(ps: seq<Packet>): seq<byte>
    requires AllSendable(ps)
    decreases ps
  {
    if ps == [] then [] else Seal(ps[0]) + SealAll(ps[1..])
  }

  /** The two blocks of a message are both filled. */
  predicate BothFill(mode: Asking, w: Stream, p: Packet) {
    var (head, w1) := Fill(mode, w, HEADER_SIZE, []);
    head.Got? && Fill(mode, w1, |p.payload|, []).0.Got?
  }

  lemma FillFront(mode: Asking, w: Stream, n: nat, front: seq<byte>, back: seq<byte>)
    requires Fill(mode, w, n, []).0.Got? && w.incoming == front + back && |front| == n
    ensures Fill(mode, w, n, []) == (Got(front), Fill(mode, w, n, []).1) && Fill(mode, w, n, []).1.incoming == back
    ensures w.cuts == [] ==> Fill(mode, w, n, []).1.cuts == []
    ensures NoFailure(w.cuts) ==> NoFailure(Fill(mode, w, n, []).1.cuts)
  {
    FillTakesFront(mode, w, n, []);
    assert [] + w.incoming == front + back;
  }

  lemma SealFront(p: Packet, rest: seq<byte>)
    requires Sendable(p)
    ensures Seal(p) + rest == HeaderBytes(p) + (p.payload + rest)
  {
  }

  lemma ReceiveOne(mode: Asking, w: Stream, p: Packet, rest: seq<byte>)
    requires Sendable(p) && w.incoming == Seal(p) + rest
    ensures var (r, w') := ReceiveMsg(mode, w);
      && (BothFill(mode, w, p) ==>
            && r == Some(p) && w'.incoming == rest
            && (w.cuts == [] ==> w'.cuts == []) && (NoFailure(w.cuts) ==> NoFailure(w'.cuts)))
      && (!BothFill(mode, w, p) ==> r == None)
  {
    SealFront(p, rest);
    if Fill(mode, w, HEADER_SIZE, []).0.Got? {
      FillFront(mode, w, HEADER_SIZE, HeaderBytes(p), p.payload + rest);
      LoadHeader(p);
      var w1 := Fill(mode, w, HEADER_SIZE, []).1;
      if Fill(mode, w1, |p.payload|, []).0.Got? {
        FillFront(mode, w1, |p.payload|, p.payload, rest);
      }
    }
  }

  /** Every block of every message is filled, one after the other. */
  predicate AllFill(mode: Asking, w: Stream, ps: seq<Packet>)
    decreases ps
  {
    ps == [] || (BothFill(mode, w, ps[0]) && AllFill(mode, ReceiveMsg(mode, w).1, ps[1..]))
  }

  lemma SealAllFront(ps: seq<Packet>, rest: seq<byte>)
    requires AllSendable(ps) && ps != []
    ensures SealAll(ps) + rest == Seal(ps[0]) + (SealAll(ps[1..]) + rest)
  {
    Join(Seal(ps[0]), SealAll(ps[1..]), rest);
  }

  lemma Join(a: seq<byte>, b: seq<byte>, c: seq<byte>)
    ensures (a + b) + c == a + (b + c)
  {
  }

  lemma OneThenRest(mode: Asking, w: Stream, ps: seq<Packet>)
    requires ps != []
    requires ReceiveMsg(mode, w).0 == if BothFill(mode, w, ps[0]) then Some(ps[0]) else None
    requires var w' := ReceiveMsg(mode, w).1;
      BothFill(mode, w, ps[0]) ==>
        ReceiveAll(mode, w', |ps| - 1) == if AllFill(mode, w', ps[1..]) then Some(ps[1..]) else None
    ensures ReceiveAll(mode, w, |ps|) == if AllFill(mode, w, ps) then Some(ps) else None
  {
    assert ps == [ps[0]] + ps[1..];
  }

  /** The receiver gets exactly the messages that were sent, with their session ids and sizes, if and only if every
      block is filled. */
  lemma {:induction false} FramingRoundTrip(mode: Asking, w: Stream, ps: seq<Packet>, rest: seq<byte>)
    requires AllSendable(ps) && w.incoming == SealAll(ps) + rest
    ensures ReceiveAll(mode, w, |ps|) == (if AllFill(mode, w, ps) then Some(ps) else None)
    decreases ps
  {
    if ps != [] {
      var after := SealAll(ps[1..]) + rest;
      SealAllFront(ps, rest);
      ReceiveOne(mode, w, ps[0], after);
      if BothFill(mode, w, ps[0]) {
        FramingRoundTrip(mode, ReceiveMsg(mode, w).1, ps[1..], rest);
      }
      OneThenRest(mode, w, ps);
    }
  }

  lemma BlocksThere(mode: Asking, w: Stream, p: Packet, rest: seq<byte>)
    requires Sendable(p) && w.incoming == Seal(p) + rest
    requires w.cuts == [] || (mode == MissingOnly && NoFailure(w.cuts))
    ensures BothFill(mode, w, p)
  {
    if mode == MissingOnly {
      MissingOnlyFills(w, HEADER_SIZE, []);
    } else {
      WholeReadsFill(w.incoming, HEADER_SIZE);
    }
    SealFront(p, rest);
    FillFront(mode, w, HEADER_SIZE, HeaderBytes(p), p.payload + rest);
    var w1 := Fill(mode, w, HEADER_SIZE, []).1;
    if mode == MissingOnly {
      MissingOnlyFills(w1, |p.payload|, []);
    } else {
      WholeReadsFill(w1.incoming, |p.payload|);
    }
  }

  /** Any list of messages comes through if no receive is cut short; and in any pieces at all, if the loop asks only
      for what is missing. */
  lemma {:induction false} MessagesComeThrough(mode: Asking, w: Stream, ps: seq<Packet>, rest: seq<byte>)
    requires AllSendable(ps) && w.incoming == SealAll(ps) + rest
    requires w.cuts == [] || (mode == MissingOnly && NoFailure(w.cuts))
    ensures AllFill(mode, w, ps) && ReceiveAll(mode, w, |ps|) == Some(ps)
    decreases ps
  {
    if ps != [] {
      var after := SealAll(ps[1..]) + rest;
      SealAllFront(ps, rest);
      BlocksThere(mode, w, ps[0], after);
      ReceiveOne(mode, w, ps[0], after);
      MessagesComeThrough(mode, ReceiveMsg(mode, w).1, ps[1..], rest);
    }
    FramingRoundTrip(mode, w, ps, rest);
  }

  predicate ComesThrough(ps: seq<Packet>, cuts: seq<Cut>)
    requires AllSendable(ps)
  {
    ReceiveAll(FullCount, Stream(SealAll(ps), cuts), |ps|) == Some(ps)
  }

  /** As the source asks, a list of messages survives every way of cutting the stream exactly when it is empty or a
      single message without payload; a header that comes in two pieces takes payload bytes with it. */
  lemma SurvivesAllCuts(ps: seq<Packet>)
    requires AllSendable(ps)
    ensures (forall cuts :: NoFailure(cuts) ==> ComesThrough(ps, cuts))
            <==> ps == [] || (|ps| == 1 && ps[0].payload == [])
  {
    if ps == [] {
      forall cuts | NoFailure(cuts) ensures ComesThrough(ps, cuts) {
      }
    } else if |ps| == 1 && ps[0].payload == [] {
      forall cuts | NoFailure(cuts) ensures ComesThrough(ps, cuts) {
        LoneMessage(ps, cuts);
      }
    } else {
      BrokenByCut(ps);
    }
  }

  lemma NoHeader(mode: Asking, w: Stream)
    requires !Fill(mode, w, HEADER_SIZE, []).0.Got?
    ensures ReceiveMsg(mode, w).0 == None
  {
  }

  /** A first byte alone makes the loop read past the header. */
  lemma BrokenByCut(ps: seq<Packet>)
    requires AllSendable(ps) && ps != [] && (|ps| > 1 || ps[0].payload != [])
    ensures !ComesThrough(ps, [Piece(1)])
  {
    LongerThanHeader(ps);
    var w := Stream(SealAll(ps), [Piece(1)]);
    CutAfterOneByte(w.incoming, HEADER_SIZE);
    NoHeader(FullCount, w);
  }

  lemma LoneMessage(ps: seq<Packet>, cuts: seq<Cut>)
    requires AllSendable(ps) && |ps| == 1 && ps[0].payload == [] && NoFailure(cuts)
    ensures ComesThrough(ps, cuts)
  {
    var w := Stream(SealAll(ps), cuts);
    SealAllFront(ps, []);
    assert ps[1..] == [] && SealAll(ps[1..]) == [];
    LoneHeader(w, ps[0]);
    FramingRoundTrip(FullCount, w, ps, []);
  }

  lemma LoneHeader(w: Stream, p: Packet)
    requires Sendable(p) && p.payload == [] && w.incoming == Seal(p) && NoFailure(w.cuts)
    ensures BothFill(FullCount, w, p)
  {
    EnoughFills(w, HEADER_SIZE, []);
  }

  lemma {:induction false} EnoughFills(w: Stream, n: nat, got: seq<byte>)
    requires |got| + |w.incoming| == n && NoFailure(w.cuts)
    ensures Fill(FullCount, w, n, got).0.Got?
    ensures NoFailure(Fill(FullCount, w, n, got).1.cuts)
    decreases n - |got|
  {
    if |got| < n {
      EnoughFills(Rest(w, n), n, got + Chunk(w, n));
    }
  }

  lemma LongerThanHeader(ps: seq<Packet>)
    requires AllSendable(ps) && ps != [] && (|ps| > 1 || ps[0].payload != [])
    ensures |SealAll(ps)| > HEADER_SIZE
  {
    if |ps| > 1 {
      assert SealAll(ps[1..]) == Seal(ps[1]) + SealAll(ps[1..][1..]);
    }
  }
}
