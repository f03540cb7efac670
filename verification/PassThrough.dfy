/** The pass-through guarantee: the decoder receives exactly the admitted frames
    (frontdoor/frame_reader.go together with frontdoor/session_loop.go:172-251). */
module PassThrough {
  import opened Concatenation
  import opened Framing
  import opened FrameReading

  /** Where the k-th frame starts in the stream. */
  function Start(fs: seq<Frame>, k: nat): nat
    requires AllEncodable(fs) && k <= |fs|
  {
    Offset(Wires(fs), k)
  }

  /** The k-th frame lies between its start and the next one's. */
  lemma FrameAt(fs: seq<Frame>, k: nat)
    requires AllEncodable(fs) && k < |fs|
    ensures Start(fs, k + 1) == Start(fs, k) + 1 + HeaderOf(fs[k]).declared <= |EncodeAll(fs)|
    ensures EncodeAll(fs)[Start(fs, k)..Start(fs, k + 1)] == Encode(fs[k])
  {
    PieceAt(Wires(fs), k);
  }

  lemma StartTail(fs: seq<Frame>, k: nat)
    requires AllEncodable(fs) && 0 < k <= |fs|
    ensures Start(fs, k) == |Encode(fs[0])| + Start(fs[1..], k - 1)
  {
    EncodeFirst(fs);
    OffsetTail(Wires(fs), k);
  }

  /** The beginning of one frame announces its header once it has five bytes. */
  lemma PartialParse(f: Frame, taken: seq<byte>)
    requires Encodable(f) && |taken| < |Encode(f)| && taken == Encode(f)[..|taken|]
    ensures Parse(taken).fault.NoFault?
    ensures Parse(taken).headers == if |taken| >= 5 then [HeaderOf(f)] else []
  {
    BeginsFrame(f, taken);
  }

  lemma BeginsFrame(f: Frame, taken: seq<byte>)
    requires Encodable(f) && |taken| <= |Encode(f)| && taken == Encode(f)[..|taken|]
    ensures taken != [] ==> taken[0] == f.typ
    ensures |taken| >= 5 ==> BigEndian(taken[1..5]) == |f.body| + 4
  {
    LengthAt(f);
    if |taken| >= 5 {
      assert taken[1..5] == Encode(f)[1..5];
    }
  }

  lemma LengthAt(f: Frame)
    requires Encodable(f)
    ensures BigEndian(Encode(f)[1..5]) == |f.body| + 4
  {
    EncodeLayout(f, []);
    assert Encode(f) + [] == Encode(f);
  }

  /** What a prefix of a well-formed stream announces: a header for the k-th
      frame exactly when that frame's five header bytes are in. */
  lemma {:induction false} PrefixParse(fs: seq<Frame>, taken: seq<byte>, k: nat)
    requires AllEncodable(fs) && taken <= EncodeAll(fs) && k <= |fs|
    ensures Parse(taken).fault.NoFault?
    ensures k < |Parse(taken).headers| <==> k < |fs| && Start(fs, k) + 5 <= |taken|
    ensures k < |Parse(taken).headers| ==> Parse(taken).headers[k] == HeaderOf(fs[k])
    decreases |fs|
  {
    if fs == [] {
      assert taken == [];
    } else {
      var first := Encode(fs[0]);
      EncodeFirst(fs);
      if k > 0 {
        StartTail(fs, k);
      }
      if |taken| < |first| {
        PartialParse(fs[0], taken);
      } else {
        var rest := taken[|first|..];
        assert taken == first + rest;
        ParseOne(fs[0], rest);
        PrefixParse(fs[1..], rest, if k > 0 then k - 1 else 0);
      }
    }
  }

  lemma PrefixScan(fs: seq<Frame>, taken: seq<byte>, k: nat)
    requires AllEncodable(fs) && taken <= EncodeAll(fs) && k <= |fs|
    ensures ScanAll(AT_BOUNDARY, taken).fault.NoFault?
    ensures var hs := ScanAll(AT_BOUNDARY, taken).pending;
            && (k < |hs| <==> k < |fs| && Start(fs, k) + 5 <= |taken|)
            && (k < |hs| ==> hs[k] == HeaderOf(fs[k]))
  {
    ScanIsParse(AT_BOUNDARY, taken);
    PrefixParse(fs, taken, k);
    assert ScanAll(AT_BOUNDARY, taken).pending == Parse(taken).headers;
  }

  /** The admitted ones among the first n frames, in order: what the decoder is to receive. */
  function Admitted(fs: seq<Frame>, admit: seq<bool>, n: nat): seq<seq<byte>>
    requires AllEncodable(fs) && n <= |admit| <= |fs|
  {
    if n == 0 then []
    else Admitted(fs, admit, n - 1) + if admit[n - 1] then [Encode(fs[n - 1])] else []
  }

  function TotalLength(ms: seq<seq<byte>>): nat {
    if ms == [] then 0 else TotalLength(ms[..|ms| - 1]) + |ms[|ms| - 1]|
  }

  /** The decoder asks for one message: five header bytes, then the body they
      declare. Each request may offer more room than it needs, and a request
      that got what it needs ignores an error that came with the bytes. */
  method Receive(r: FrameReader, ghost size: nat) returns (msg: seq<byte>, err: bool)
    requires r.Valid() && !r.faulted && r.bounded && r.skip == 0
    requires 5 <= size == r.deliverable && r.pos + size <= |r.stream|
    requires BigEndian(r.stream[r.pos + 1..r.pos + 5]) + 1 == size
    modifies r.src, r`phase, r`typ, r`lenBuf, r`need, r`pending, r`bad, r`taken, r`faulted,
             r`buf, r`skip, r`pos, r`deferred, r`deliverable, r`delivered
    ensures r.Valid() && r.skip == 0
    ensures r.pos == old(r.pos) + |msg| && |msg| <= size && msg == r.stream[old(r.pos)..r.pos]
    ensures r.delivered == old(r.delivered) + |msg| || r.faulted
    ensures !err ==> |msg| == size && r.deliverable == 0 && !r.faulted
    ensures err ==> r.faulted || r.src.failed
  {
    msg, err := Fill(r, [], 5, size);
    if !err {
      assert msg[1..5] == r.stream[old(r.pos) + 1..old(r.pos) + 5];
      var total := BigEndian(msg[1..5]);
      msg, err := Fill(r, msg, 1 + total, size);
    }
  }

  method Fill(r: FrameReader, have: seq<byte>, want: nat, ghost size: nat) returns (msg: seq<byte>, err: bool)
    requires r.Valid() && !r.faulted && r.bounded && r.skip == 0
    requires |have| <= want <= size && |have| + r.deliverable == size
    requires |have| <= r.pos && have == r.stream[r.pos - |have|..r.pos]
    requires r.pos + r.deliverable <= |r.stream|
    modifies r.src, r`phase, r`typ, r`lenBuf, r`need, r`pending, r`bad, r`taken, r`faulted,
             r`buf, r`skip, r`pos, r`deferred, r`deliverable, r`delivered
    ensures r.Valid() && r.skip == 0
    ensures r.pos - |msg| == old(r.pos) - |have| && |msg| <= size && msg == r.stream[r.pos - |msg|..r.pos]
    ensures !err ==> |msg| >= want && |msg| + r.deliverable == size && !r.faulted
    ensures err ==> r.faulted || r.src.failed
    ensures r.delivered == old(r.delivered) + |msg| - |have| || r.faulted
  {
    msg, err := have, false;
    while |msg| < want
      invariant r.Valid() && !r.faulted && r.skip == 0
      invariant |msg| + r.deliverable == size
      invariant r.pos - |msg| == old(r.pos) - |have| && msg == r.stream[r.pos - |msg|..r.pos]
      invariant r.delivered == old(r.delivered) + |msg| - |have|
      decreases want - |msg|
    {
      var room: nat :| room >= want - |msg|;
      var chunk, failed := r.Read(room);
      if chunk == [] {
        return msg, true;
      }
      msg := msg + chunk;
      if failed && |msg| < want {
        return msg, true;
      }
    }
  }

  /** A connection that ended before a header was framed: the decoder drains
      what is buffered and meets the failure. */
  method ReceiveAfterFailure(r: FrameReader) returns (msg: seq<byte>)
    requires r.Valid() && !r.faulted && r.bounded && r.skip == 0 && r.deliverable == 0 && r.src.failed
    modifies r.src, r`phase, r`typ, r`lenBuf, r`need, r`pending, r`bad, r`taken, r`faulted,
             r`buf, r`skip, r`pos, r`deferred, r`deliverable, r`delivered
    ensures r.Valid() && msg <= old(r.buf)
    ensures r.delivered == old(r.delivered) + |msg| || r.faulted
    ensures r.src.failed
  {
    msg := [];
    while |msg| < 5
      invariant r.Valid() && !r.faulted && r.skip == 0 && r.deliverable == 0 && r.src.failed
      invariant |msg| <= |old(r.buf)| && msg == old(r.buf)[..|msg|] && r.buf == old(r.buf)[|msg|..]
      invariant r.delivered == old(r.delivered) + |msg|
    {
      var room: nat :| room >= 5 - |msg|;
      var chunk, failed := r.Read(room);
      if chunk == [] {
        return;
      }
      msg := msg + chunk;
    }
  }

  /** The first n frames are dealt with: delivered whole or discarded whole. */
  ghost predicate AtFrame(r: FrameReader, fs: seq<Frame>, n: nat)
    requires AllEncodable(fs)
    reads r, r.src
  {
    && r.Valid() && !r.faulted && r.bounded && r.skip == 0 && r.deliverable == 0
    && r.stream == EncodeAll(fs)
    && n <= |fs| && r.popped == n && r.pos == Start(fs, n)
  }

  lemma NoFaultIn(r: FrameReader, fs: seq<Frame>)
    requires r.Valid() && AllEncodable(fs) && r.stream == EncodeAll(fs)
    ensures !r.faulted
  {
    PrefixScan(fs, r.taken, 0);
  }

  /** At a frame boundary the head of the queue, if there is one, is the next
      frame's own header; with an empty queue, fewer than five bytes are owed. */
  lemma NextHeader(r: FrameReader, fs: seq<Frame>, n: nat)
    requires AllEncodable(fs) && AtFrame(r, fs, n)
    ensures r.pending != [] ==> n < |fs| && r.pending[0] == HeaderOf(fs[n])
    ensures r.pending == [] ==> |r.buf| < 5
  {
    PrefixScan(fs, r.taken, n);
    OffsetEnd(Wires(fs), n);
  }

  lemma HeaderBytesAt(fs: seq<Frame>, k: nat)
    requires AllEncodable(fs) && k < |fs|
    ensures var at, size := Start(fs, k), 1 + HeaderOf(fs[k]).declared;
            && at + 5 <= at + size <= |EncodeAll(fs)|
            && BigEndian(EncodeAll(fs)[at + 1..at + 5]) + 1 == size
  {
    FrameAt(fs, k);
    var size := 1 + HeaderOf(fs[k]).declared;
    SliceOfSlice(EncodeAll(fs), Start(fs, k), size, 1, 5);
    LengthAt(fs[k]);
  }

  /** A complete read of one frame's bytes is that frame; a broken one its beginning. */
  lemma FrameRead(fs: seq<Frame>, k: nat, msg: seq<byte>)
    requires AllEncodable(fs) && k < |fs| && |msg| <= 1 + HeaderOf(fs[k]).declared
    requires Start(fs, k) + |msg| <= |EncodeAll(fs)|
    requires msg == EncodeAll(fs)[Start(fs, k)..Start(fs, k) + |msg|]
    ensures msg <= Encode(fs[k]) && (|msg| == 1 + HeaderOf(fs[k]).declared ==> msg == Encode(fs[k]))
  {
    FrameAt(fs, k);
    assert msg == Encode(fs[k])[..|msg|];
  }

  lemma StillQueued(r: FrameReader, fs: seq<Frame>, n: nat)
    requires AllEncodable(fs) && r.Valid() && !r.faulted && r.stream == EncodeAll(fs)
    requires n < |fs| && r.popped == n && r.pos == Start(fs, n + 1)
    ensures r.pending != []
  {
    FrameAt(fs, n);
    PrefixScan(fs, r.taken, n);
  }

  /** The frame has been received; the loop pops its header. */
  method PopDelivered(r: FrameReader, ghost fs: seq<Frame>, ghost n: nat)
    requires AllEncodable(fs) && r.Valid() && !r.faulted && r.bounded && r.skip == 0 && r.deliverable == 0
    requires r.stream == EncodeAll(fs) && n < |fs| && r.popped == n && r.pos == Start(fs, n + 1)
    modifies r`pending, r`popped
    ensures AtFrame(r, fs, n + 1)
  {
    StillQueued(r, fs, n);
    r.ConsumeHeader();
  }

  /** An allowed frame is received: whole, or its beginning when the socket fails. */
  method ReceiveFrame(r: FrameReader, ghost fs: seq<Frame>, ghost n: nat) returns (msg: seq<byte>, err: bool)
    requires AllEncodable(fs) && n < |fs| && r.stream == EncodeAll(fs)
    requires r.Valid() && !r.faulted && r.bounded && r.skip == 0
    requires r.pos == Start(fs, n) && r.deliverable == 1 + HeaderOf(fs[n]).declared
    modifies r.src, r`phase, r`typ, r`lenBuf, r`need, r`pending, r`bad, r`taken, r`faulted,
             r`buf, r`skip, r`pos, r`deferred, r`deliverable, r`delivered
    ensures r.Valid() && !r.faulted && r.skip == 0
    ensures !err ==> r.pos == Start(fs, n + 1) && r.deliverable == 0 && msg == Encode(fs[n])
    ensures err ==> r.src.failed && msg <= Encode(fs[n])
    ensures r.delivered == old(r.delivered) + |msg|
  {
    HeaderBytesAt(fs, n);
    FrameAt(fs, n);
    msg, err := Receive(r, r.deliverable);
    NoFaultIn(r, fs);
    FrameRead(fs, n, msg);
  }

  /** One admitted frame reaches the decoder whole; nothing else moves. */
  method Deliver(r: FrameReader, h: Header, ghost fs: seq<Frame>, ghost n: nat) returns (msg: seq<byte>, err: bool)
    requires AllEncodable(fs) && AtFrame(r, fs, n) && n < |fs| && h == HeaderOf(fs[n])
    modifies r, r.src
    ensures !err ==> AtFrame(r, fs, n + 1) && msg == Encode(fs[n])
    ensures err ==> r.src.failed && msg <= Encode(fs[n])
    ensures r.delivered == old(r.delivered) + |msg|
  {
    r.Allow(h);
    msg, err := ReceiveFrame(r, fs, n);
    if !err {
      PopDelivered(r, fs, n);
    }
  }

  /** One refused frame leaves the wire whole without a byte of it delivered. */
  method Refuse(r: FrameReader, h: Header, ghost fs: seq<Frame>, ghost n: nat) returns (err: bool)
    requires AllEncodable(fs) && AtFrame(r, fs, n) && n < |fs| && h == HeaderOf(fs[n]) && r.pending != []
    modifies r, r.src
    ensures !err ==> AtFrame(r, fs, n + 1)
    ensures err ==> r.src.failed
    ensures r.delivered == old(r.delivered)
  {
    FrameAt(fs, n);
    r.SkipFrame(h);
    err := r.DrainSkip();
    NoFaultIn(r, fs);
  }

  lemma BufferedIsNext(r: FrameReader)
    requires r.Valid() && !r.faulted
    ensures r.pos + |r.buf| <= |r.stream|
    ensures r.buf == r.stream[r.pos..r.pos + |r.buf|]
  {
    assert r.taken == r.stream[..|r.taken|];
  }

  /** The socket failed before the next header arrived: fewer than five bytes of
      it are handed on. */
  method Abandon(r: FrameReader, ghost fs: seq<Frame>, ghost n: nat) returns (msg: seq<byte>)
    requires AllEncodable(fs) && AtFrame(r, fs, n) && n < |fs| && r.pending == [] && r.src.failed
    modifies r, r.src
    ensures r.src.failed && msg <= Encode(fs[n]) && |msg| < 5
    ensures r.delivered == old(r.delivered) + |msg|
  {
    NextHeader(r, fs, n);
    BufferedIsNext(r);
    FrameAt(fs, n);
    ghost var at, owed := r.pos, r.buf;
    msg := ReceiveAfterFailure(r);
    NoFaultIn(r, fs);
    SliceOfSlice(r.stream, at, |owed|, 0, |msg|);
    assert msg == owed[0..|msg|];
    FrameRead(fs, n, msg);
  }

  /** One turn of the session loop over one frame. */
  method Turn(r: FrameReader, admit: bool, ghost fs: seq<Frame>, ghost n: nat) returns (done: bool, msg: seq<byte>)
    requires AllEncodable(fs) && AtFrame(r, fs, n) && n < |fs|
    modifies r, r.src
    ensures done ==> AtFrame(r, fs, n + 1) && msg == if admit then Encode(fs[n]) else []
    ensures !done ==> r.src.failed && msg <= Encode(fs[n]) && (|msg| >= 5 ==> admit)
    ensures r.delivered == old(r.delivered) + |msg|
  {
    var ok := r.WaitHeader();
    NoFaultIn(r, fs);
    NextHeader(r, fs, n);
    if !ok {
      msg := Abandon(r, fs, n);
      return false, msg;
    }
    var h := r.PeekHeader().1;
    var err;
    if admit {
      msg, err := Deliver(r, h, fs, n);
    } else {
      msg := [];
      err := Refuse(r, h, fs, n);
    }
    return !err, msg;
  }

  lemma TotalLengthSnoc(ms: seq<seq<byte>>, m: seq<byte>)
    ensures TotalLength(ms + [m]) == TotalLength(ms) + |m|
  {
    assert (ms + [m])[..|ms|] == ms;
  }

  /** For every well-formed stream, every way the socket cuts it, every point at
      which it fails and every sequence of admission decisions: the decoder
      receives exactly the admitted frames, each one whole and in order, and the
      reader's own count of delivered bytes is theirs. A refused frame
      contributes nothing. A connection that ends part-way leaves at most an
      admitted frame's beginning, or fewer than five bytes of a header that
      never arrived. */
  method Pump(r: FrameReader, admit: seq<bool>, ghost fs: seq<Frame>)
    returns (received: seq<seq<byte>>, partial: seq<byte>, n: nat)
    requires AllEncodable(fs) && |admit| <= |fs|
    requires AtFrame(r, fs, 0) && r.delivered == 0
    modifies r, r.src
    ensures n <= |admit|
    ensures received == Admitted(fs, admit, n)
    ensures !r.src.failed ==> n == |admit|
    ensures n == |admit| ==> partial == [] && AtFrame(r, fs, n)
    ensures n < |admit| ==> partial <= Encode(fs[n]) && (|partial| >= 5 ==> admit[n])
    ensures r.delivered == TotalLength(received) + |partial|
  {
    received, partial, n := [], [], 0;
    while n < |admit|
      invariant 0 <= n <= |admit|
      invariant AtFrame(r, fs, n)
      invariant received == Admitted(fs, admit, n)
      invariant partial == [] && r.delivered == TotalLength(received)
    {
      var done, msg := Turn(r, admit[n], fs, n);
      if !done {
        partial := msg;
        return;
      }
      if admit[n] {
        TotalLengthSnoc(received, msg);
        received := received + [msg];
      }
      n := n + 1;
    }
  }
}
