/** The reader that sits between the socket and the message decoder
    (frontdoor/frame_reader.go), and the part of the session loop that admits or
    refuses each frame from its header (frontdoor/session_loop.go:172-251). */
module FrameReading {
  import opened Concatenation
  import opened Framing

  /** The peer's socket. A read returns some non-empty prefix of what is left, of
      any size up to the room given, or fails; a failure is final. */
  class Socket {
    var rest: seq<byte>
    var failed: bool

    constructor (bytes: seq<byte>)
      ensures rest == bytes && !failed
    {
      rest, failed := bytes, false;
    }

    method Read(max: nat) returns (chunk: seq<byte>, err: bool)
      requires max > 0
      modifies this
      ensures chunk + rest == old(rest) && |chunk| <= max
      ensures err == failed
      ensures old(failed) ==> err && chunk == []
      ensures !err ==> chunk != []
    {
      chunk := [];
      if !failed && rest != [] {
        var n :| 1 <= n <= |rest| && n <= max;
        chunk, rest := rest[..n], rest[n..];
      } else {
        failed := true;
      }
      err := failed;
    }
  }

  class FrameReader {
    const src: Socket
    ghost const stream: seq<byte>  // everything the peer sends, from the frame boundary on

    var buf: seq<byte>
    var deferred: Fault
    var skip: nat
    var skipped: bool
    var bounded: bool
    var deliverable: nat
    var delivered: nat

    var phase: Phase
    var typ: byte
    var lenBuf: seq<byte>
    var need: nat
    var pending: seq<Header>
    var bad: byte

    ghost var taken: seq<byte>  // the bytes read from the socket
    ghost var pos: nat          // how many of them were delivered or discarded
    ghost var popped: nat       // how many headers have left the queue
    ghost var faulted: bool     // the scan met a framing fault

    function State(): Scanner
      reads this`phase, this`typ, this`lenBuf, this`need, this`pending
    {
      Scanner(phase, typ, lenBuf, need, pending, NoFault)
    }

    ghost function Scanned(): Scanner
      reads this`taken
    {
      ScanAll(AT_BOUNDARY, taken)
    }

    ghost predicate Aligned()
      reads this`phase, this`typ, this`lenBuf, this`need, this`pending, this`taken, this`popped
    {
      && popped <= |Scanned().pending|
      && State() == Scanned().(pending := Scanned().pending[popped..])
    }

    /** The framing state is the meaning of the bytes taken from the socket. */
    ghost predicate InStep()
      reads src`rest, this`phase, this`typ, this`lenBuf, this`need, this`pending, this`taken, this`popped, this`faulted
    {
      && taken + src.rest == stream
      && (faulted <==> !Scanned().fault.NoFault?)
      && (!faulted ==> Aligned())
    }

    /** The buffer is what was taken and is still owed to the decoder. */
    ghost predicate Valid()
      reads this, src
    {
      && InStep()
      && pos <= |taken|
      && buf <= taken[pos..]
      && (!faulted ==> buf == taken[pos..] && deferred.NoFault?)
    }

    constructor (socket: Socket)
      ensures src == socket && stream == socket.rest && Valid() && !faulted
      ensures pos == 0 && popped == 0 && skip == 0 && deliverable == 0 && taken == [] && bounded
    {
      src, stream := socket, socket.rest;
      buf, deferred, skip, skipped, deliverable, delivered := [], NoFault, 0, false, 0, 0;
      bounded := true;
      phase, typ, lenBuf, need, pending, bad := PhaseType, 0, [], 0, [], 0;
      taken, pos, popped, faulted := [], 0, 0, false;
    }

    /** The arms of the framing loop: each takes a run of bytes off `left` and
        leaves the machine where stepping it byte by byte would. */
    method TakeType(left: seq<byte>) returns (fault: Fault)
      requires WellFormed(State()) && phase.PhaseType? && left != []
      modifies this`phase, this`typ, this`lenBuf, this`bad
      ensures fault.NoFault? ==> WellFormed(State()) && ScanAll(State(), left[1..]) == ScanAll(old(State()), left)
      ensures !fault.NoFault? ==> ScanAll(old(State()), left) == State().(fault := fault)
      ensures !fault.NoFault? ==> fault == UnknownFrameType(bad)
    {
      ScanTypeRun(State(), left);
      if !ValidFrontendType(left[0]) {
        bad := left[0];
        return UnknownFrameType(bad);
      }
      typ, phase, lenBuf := left[0], PhaseLength, [];
      return NoFault;
    }

    method TakeLength(left: seq<byte>) returns (take: nat, fault: Fault)
      requires WellFormed(State()) && phase.PhaseLength? && left != []
      modifies this`phase, this`lenBuf, this`need, this`pending
      ensures 0 < take <= |left|
      ensures fault.NoFault? ==> WellFormed(State()) && ScanAll(State(), left[take..]) == ScanAll(old(State()), left)
      ensures !fault.NoFault? ==> ScanAll(old(State()), left) == State().(fault := fault) && fault.BadFrameLength?
    {
      var room := 4 - |lenBuf|;
      take := if |left| > room then room else |left|;
      ScanLengthRun(State(), left, take);
      lenBuf := lenBuf + left[..take];
      if |lenBuf| == 4 {
        var total := BigEndian(lenBuf);
        if total < 4 {
          return take, BadFrameLength;
        }
        pending := pending + [Header(typ, total)];
        need, lenBuf := total - 4, [];
        phase := if need == 0 then PhaseType else PhaseBody;
      }
      return take, NoFault;
    }

    method TakeBody(left: seq<byte>) returns (take: nat)
      requires WellFormed(State()) && phase.PhaseBody? && left != []
      modifies this`phase, this`need
      ensures 0 < take <= |left|
      ensures WellFormed(State()) && ScanAll(State(), left[take..]) == ScanAll(old(State()), left)
    {
      take := if |left| > need then need else |left|;
      ScanBodyRun(State(), left, take);
      need := need - take;
      if need == 0 {
        phase := PhaseType;
      }
    }

    /** The framing loop takes length and body bytes in runs; it computes what
        stepping the machine byte by byte would. */
    method Scan(b: seq<byte>) returns (fault: Fault)
      requires WellFormed(State())
      modifies this`phase, this`typ, this`lenBuf, this`need, this`pending, this`bad
      ensures fault == ScanAll(old(State()), b).fault
      ensures State() == ScanAll(old(State()), b).(fault := NoFault)
      ensures fault.UnknownFrameType? ==> bad == fault.bad
    {
      var left := b;
      while left != []
        invariant WellFormed(State())
        invariant ScanAll(State(), left) == ScanAll(old(State()), b)
        decreases |left|
      {
        var take := 1;
        fault := NoFault;
        match phase {
          case PhaseType => fault := TakeType(left);
          case PhaseLength => take, fault := TakeLength(left);
          case PhaseBody => take := TakeBody(left);
        }
        if !fault.NoFault? {
          return;
        }
        left := left[take..];
      }
      return NoFault;
    }

    /** Reads from the socket and scans what came. */
    method Fetch(max: nat) returns (chunk: seq<byte>, fault: Fault, err: bool)
      requires InStep() && !faulted && max > 0
      modifies src, this`phase, this`typ, this`lenBuf, this`need, this`pending, this`bad, this`taken, this`faulted
      ensures InStep() && taken == old(taken) + chunk && |chunk| <= max
      ensures faulted <==> !fault.NoFault?
      ensures err == src.failed && (chunk == [] ==> err && !faulted)
      ensures old(src.failed) ==> chunk == []
      ensures |src.rest| == |old(src.rest)| - |chunk|
      ensures stream[|old(taken)|..|taken|] == chunk
    {
      ghost var was, all := State(), Scanned();
      ghost var gone := all.pending[..popped];
      assert all == was.(pending := gone + was.pending);
      chunk, err := src.Read(max);
      ScanQueue(was, gone, chunk);
      ScanChunks(AT_BOUNDARY, taken, chunk);
      fault := Scan(chunk);
      taken := taken + chunk;
      faulted := !fault.NoFault?;
      assert Scanned() == State().(fault := fault, pending := gone + pending);
    }

    /** Takes `n` owed bytes off the front of the buffer. */
    method Unbuffer(n: nat) returns (chunk: seq<byte>)
      requires Valid() && n <= |buf|
      modifies this`buf, this`pos
      ensures Valid() && chunk == old(buf)[..n] && buf == old(buf)[n..] && pos == old(pos) + n
      ensures pos <= |stream| && chunk == stream[old(pos)..pos]
    {
      chunk := buf[..n];
      buf := buf[n..];
      pos := pos + n;
      assert taken == stream[..|taken|];
    }

    /** The next header of the stream: the first that the bytes read so far announce
        and that has not been popped, by the declarative parse of those bytes. */
    function PeekHeader(): (h: (bool, Header))
      requires Aligned()
      reads this
      ensures h.0 <==> popped < |Parse(taken).headers|
      ensures h.0 ==> h.1 == Parse(taken).headers[popped]
    {
      ScanIsParse(AT_BOUNDARY, taken);
      if pending == [] then (false, Header(0, 0)) else (true, pending[0])
    }

    method ConsumeHeader()
      requires Valid() && !faulted
      modifies this`pending, this`popped
      ensures Valid() && popped == old(popped) + if old(pending) == [] then 0 else 1
    {
      if pending != [] {
        pending := pending[1..];
        popped := popped + 1;
      }
    }

    /** Reads until the next header is framed, one byte at a time, and keeps what
        it read: nothing is delivered or discarded by waiting. */
    method WaitHeader() returns (ok: bool)
      requires Valid() && !faulted
      modifies src, this`phase, this`typ, this`lenBuf, this`need, this`pending, this`bad, this`taken, this`faulted,
               this`buf, this`deferred
      ensures Valid()
      ensures ok ==> !faulted && pending != []
      ensures !ok ==> (faulted && !deferred.NoFault?) || (!faulted && src.failed && pending == [])
      ensures old(pending) != [] ==> ok
    {
      if pending != [] {
        return true;
      }
      while pending == []
        invariant Valid() && !faulted
        decreases |src.rest|
      {
        var chunk, fault, err := Fetch(1);
        if !fault.NoFault? {
          deferred := fault;
          return false;
        }
        buf := buf + chunk;
        if err {
          return pending != [];
        }
      }
      return true;
    }

    /** Refuses a frame: its header leaves the queue and its bytes are to be discarded. */
    method SkipFrame(h: Header)
      requires Valid() && !faulted && pending != []
      modifies this`skipped, this`skip, this`pending, this`popped
      ensures Valid() && skipped && skip == old(skip) + 1 + h.declared && popped == old(popped) + 1
    {
      skipped := true;
      skip := skip + 1 + h.declared;
      pending := pending[1..];
      popped := popped + 1;
    }

    /** One round of discarding: from the buffer, or else from the socket. */
    method DiscardSome() returns (err: bool)
      requires Valid() && !faulted && skip > 0
      modifies src, this`phase, this`typ, this`lenBuf, this`need, this`pending, this`bad, this`taken, this`faulted,
               this`buf, this`skip, this`pos
      ensures Valid()
      ensures !err ==> !faulted && skip < old(skip) && pos + skip == old(pos) + old(skip)
      ensures err ==> skip == 0 && (faulted || src.failed)
      ensures old(src.failed) ==> src.failed
    {
      if buf != [] {
        var n := if skip > |buf| then |buf| else skip;
        var discarded := Unbuffer(n);
        skip := skip - n;
        return false;
      }
      err := DiscardFetched();
    }

    method DiscardFetched() returns (err: bool)
      requires Valid() && !faulted && skip > 0 && buf == []
      modifies src, this`phase, this`typ, this`lenBuf, this`need, this`pending, this`bad, this`taken, this`faulted,
               this`buf, this`skip, this`pos
      ensures Valid()
      ensures !err ==> !faulted && skip < old(skip) && pos + skip == old(pos) + old(skip)
      ensures err ==> skip == 0 && (faulted || src.failed)
      ensures old(src.failed) ==> src.failed
    {
      var chunk, fault, failed := Fetch(4096);
      if !fault.NoFault? {
        skip := 0;
        return true;
      }
      var take := if skip > |chunk| then |chunk| else skip;
      AfterDrop(old(taken), chunk, take);
      pos := pos + take;
      buf := chunk[take..];
      skip := if failed then 0 else skip - take;
      return failed;
    }

    /** Discards the refused bytes, scanning as it goes, and no byte more: what
        follows them stays owed to the decoder. */
    method DrainSkip() returns (err: bool)
      requires Valid() && !faulted
      modifies src, this`phase, this`typ, this`lenBuf, this`need, this`pending, this`bad, this`taken, this`faulted,
               this`buf, this`skip, this`pos
      ensures Valid() && skip == 0
      ensures !err ==> !faulted && pos == old(pos) + old(skip)
      ensures err ==> faulted || src.failed
      ensures old(src.failed) ==> src.failed
    {
      err := false;
      while skip > 0
        invariant old(src.failed) ==> src.failed
        invariant Valid() && !faulted && pos + skip == old(pos) + old(skip)
        decreases skip
      {
        err := DiscardSome();
        if err {
          return;
        }
      }
    }

    /** Admits a frame: exactly its bytes may now reach the decoder. */
    method Allow(h: Header)
      requires Valid()
      modifies this`deliverable
      ensures Valid() && deliverable == old(deliverable) + 1 + h.declared
    {
      deliverable := deliverable + 1 + h.declared;
    }

    /** Charges `n` delivered bytes to the allowance. */
    method Charge(n: nat)
      modifies this`delivered, this`deliverable
      ensures delivered == old(delivered) + n
      ensures deliverable == if n <= old(deliverable) then old(deliverable) - n else old(deliverable)
    {
      delivered := delivered + n;
      if deliverable >= n {
        deliverable := deliverable - n;
      }
    }

    /** What is left of an allowance after `n` bytes. */
    static function Left(allowance: nat, n: nat): nat { if n <= allowance then allowance - n else allowance }

    /** Serves from the buffer. */
    method ServeBuffered(room: nat) returns (chunk: seq<byte>)
      requires Valid() && room > 0 && buf != []
      modifies this`buf, this`pos, this`deliverable, this`delivered
      ensures Valid() && 0 < |chunk| <= room
      ensures pos == old(pos) + |chunk| && pos <= |stream| && chunk == stream[old(pos)..pos]
      ensures deliverable == Left(old(deliverable), |chunk|) && delivered == old(delivered) + |chunk|
      ensures chunk <= old(buf) && buf == old(buf)[|chunk|..]
    {
      var n := if room > |buf| then |buf| else room;
      chunk := Unbuffer(n);
      Charge(n);
    }

    /** Serves from the socket; a fault in what came keeps all of it from the decoder. */
    method ServeFetched(room: nat) returns (chunk: seq<byte>, err: bool)
      requires Valid() && room > 0 && !faulted && buf == []
      modifies src, this`phase, this`typ, this`lenBuf, this`need, this`pending, this`bad, this`taken, this`faulted,
               this`pos, this`deliverable, this`delivered
      ensures Valid() && |chunk| <= room
      ensures pos == old(pos) + |chunk| && pos <= |stream| && chunk == stream[old(pos)..pos]
      ensures chunk != [] ==> deliverable == Left(old(deliverable), |chunk|)
      ensures !faulted ==> delivered == old(delivered) + |chunk|
      ensures faulted ==> chunk == [] && err
      ensures (chunk == [] ==> err) && (err ==> faulted || src.failed)
      ensures old(src.failed) ==> chunk == [] && src.failed
    {
      var fault;
      chunk, fault, err := Fetch(room);
      Charge(|chunk|);
      if !fault.NoFault? {
        return [], true;
      }
      pos := pos + |chunk|;
    }

    /** Serves the owed bytes: the buffer first, then a fault met while reading
        ahead, then the socket. */
    method Serve(room: nat) returns (chunk: seq<byte>, err: bool)
      requires Valid() && room > 0
      requires faulted ==> !deferred.NoFault?
      modifies src, this`phase, this`typ, this`lenBuf, this`need, this`pending, this`bad, this`taken, this`faulted,
               this`buf, this`pos, this`deferred, this`deliverable, this`delivered
      ensures Valid() && |chunk| <= room
      ensures pos == old(pos) + |chunk| && pos <= |stream| && chunk == stream[old(pos)..pos]
      ensures chunk != [] ==> deliverable == Left(old(deliverable), |chunk|)
      ensures faulted == old(faulted) ==> delivered == old(delivered) + |chunk|
      ensures (chunk == [] ==> err) && (err ==> faulted || src.failed)
      ensures old(buf) != [] ==> chunk != [] && chunk <= old(buf) && buf == old(buf)[|chunk|..]
      ensures old(src.failed) && old(buf) == [] ==> chunk == []
      ensures old(src.failed) ==> src.failed
      ensures !old(faulted) && faulted ==> chunk == []
    {
      if buf != [] {
        chunk := ServeBuffered(room);
        return chunk, false;
      }
      if !deferred.NoFault? {
        deferred := NoFault;
        PosWithin();
        return [], true;
      }
      chunk, err := ServeFetched(room);
    }

    lemma PosWithin()
      requires Valid()
      ensures pos <= |stream| && stream[pos..pos] == []
    {
    }

    /** Hands the decoder the next owed bytes, in stream order, and never past
        the admitted allowance while there is one. */
    method Read(max: nat) returns (chunk: seq<byte>, err: bool)
      requires Valid() && max > 0 && bounded
      requires faulted ==> !deferred.NoFault? && skip == 0
      modifies src, this`phase, this`typ, this`lenBuf, this`need, this`pending, this`bad, this`taken, this`faulted,
               this`buf, this`skip, this`pos, this`deferred, this`deliverable, this`delivered
      ensures Valid() && skip == 0
      ensures chunk != [] ==> pos == old(pos) + old(skip) + |chunk| && chunk == stream[pos - |chunk|..pos]
      ensures faulted == old(faulted) ==> delivered == old(delivered) + |chunk|
      ensures old(deliverable) > 0 ==> |chunk| <= old(deliverable)
      ensures chunk != [] ==> deliverable == Left(old(deliverable), |chunk|)
      ensures chunk == [] ==> err
      ensures err ==> faulted || src.failed
      ensures old(buf) != [] && old(skip) == 0 ==> chunk != [] && chunk <= old(buf) && buf == old(buf)[|chunk|..]
      ensures old(src.failed) && old(buf) == [] && old(skip) == 0 ==> chunk == []
      ensures chunk == [] && old(skip) == 0 ==> pos == old(pos)
      ensures old(src.failed) ==> src.failed
      ensures !old(faulted) && faulted ==> chunk == []
    {
      if skip > 0 {
        err := DrainSkip();
        if err {
          return [], true;
        }
      }
      var room := max;
      if bounded && deliverable < room {
        room := deliverable;
      }
      if room <= 0 {
        // Nothing is admitted: the read goes through, so that a closed
        // connection surfaces as itself.
        room := max;
      }
      chunk, err := Serve(room);
    }
  }
}
