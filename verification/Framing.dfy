/** Concatenating pieces, and finding each piece again in the whole. */
module Concatenation {
  function Concat<T>(ms: seq<seq<T>>): seq<T> {
    if ms == [] then [] else ms[0] + Concat(ms[1..])
  }

  /** Where the k-th piece starts in the whole. */
  function Offset<T>(ms: seq<seq<T>>, k: nat): nat
    requires k <= |ms|
  {
    |Concat(ms[..k])|
  }

  lemma AfterDrop<T>(a: seq<T>, b: seq<T>, n: nat)
    requires n <= |b|
    ensures (a + b)[|a| + n..] == b[n..]
  {
  }

  lemma Assoc<T>(x: seq<T>, y: seq<T>, z: seq<T>)
    ensures x + (y + z) == (x + y) + z
  {
  }

  lemma {:induction false} ConcatConcat<T>(a: seq<seq<T>>, b: seq<seq<T>>)
    ensures Concat(a + b) == Concat(a) + Concat(b)
    decreases |a|
  {
    if a == [] {
      assert a + b == b;
    } else {
      assert (a + b)[1..] == a[1..] + b;
      ConcatConcat(a[1..], b);
      Assoc(a[0], Concat(a[1..]), Concat(b));
    }
  }

  /** The k-th piece lies between its offset and the next one's. */
  lemma PieceAt<T>(ms: seq<seq<T>>, k: nat)
    requires k < |ms|
    ensures Offset(ms, k + 1) == Offset(ms, k) + |ms[k]| <= |Concat(ms)|
    ensures Concat(ms)[Offset(ms, k)..Offset(ms, k + 1)] == ms[k]
  {
    assert ms[..k + 1] == ms[..k] + [ms[k]];
    ConcatConcat(ms[..k], [ms[k]]);
    assert [ms[k]][1..] == [] && Concat([ms[k]]) == ms[k];
    assert ms == ms[..k + 1] + ms[k + 1..];
    ConcatConcat(ms[..k + 1], ms[k + 1..]);
  }

  lemma OffsetTail<T>(ms: seq<seq<T>>, k: nat)
    requires 0 < k <= |ms|
    ensures Offset(ms, k) == |ms[0]| + Offset(ms[1..], k - 1)
  {
    assert ms[..k][1..] == ms[1..][..k - 1];
  }

  lemma OffsetEnd<T>(ms: seq<seq<T>>, k: nat)
    requires k <= |ms|
    ensures Offset(ms, k) <= |Concat(ms)| && (k == |ms| ==> Offset(ms, k) == |Concat(ms)|)
  {
    assert ms == ms[..k] + ms[k..];
    ConcatConcat(ms[..k], ms[k..]);
  }

  lemma DropThenSplit<T>(s: seq<T>, i: nat, n: nat)
    requires i + n <= |s|
    ensures s[i..][..n] == s[i..i + n] && s[i..][n..] == s[i + n..]
  {
    assert |s[i..][..n]| == n && forall k :: 0 <= k < n ==> s[i..][..n][k] == s[i..i + n][k];
  }

  lemma SliceOfSlice<T>(s: seq<T>, at: nat, n: nat, i: nat, j: nat)
    requires at + n <= |s| && i <= j <= n
    ensures s[at..at + n][i..j] == s[at + i..at + j]
  {
    var x, y := s[at..at + n][i..j], s[at + i..at + j];
    assert |x| == |y| && forall k :: 0 <= k < |x| ==> x[k] == s[at + i + k] == y[k];
  }
}

/** The typed-message framing of the PostgreSQL Frontend/Backend Protocol 3.0
    (section "Message Formats"): one type byte, a four-byte big-endian length
    that counts itself, then the body.

    `Step` is the byte-at-a-time meaning of the framing machine, `ScanAll` its
    meaning on a chunk, and `Parse` an independent, declarative reading of the
    same bytes. */
module Framing {
  import opened Concatenation

  type byte = b: int | 0 <= b < 256

  datatype Phase = PhaseType | PhaseLength | PhaseBody

  datatype Fault = NoFault | UnknownFrameType(bad: byte) | BadFrameLength

  datatype Header = Header(typ: byte, declared: nat)

  /** The framing part of the reader's state: `lenBuf` holds the length bytes
      collected so far, `need` the body bytes still to come. */
  datatype Scanner = Scanner(phase: Phase, typ: byte, lenBuf: seq<byte>, need: nat, pending: seq<Header>, fault: Fault)

  const AT_BOUNDARY := Scanner(PhaseType, 0, [], 0, [], NoFault)

  predicate ValidFrontendType(b: byte) {
    match b as char
    case 'B' | 'C' | 'D' | 'E' | 'F' | 'H' | 'P' | 'Q' | 'S' | 'X' | 'c' | 'd' | 'f' | 'p' => true
    case _ => false
  }

  function BigEndian(s: seq<byte>): nat
    requires |s| == 4
  {
    0x100_0000 * s[0] as int + 0x1_0000 * s[1] as int + 0x100 * s[2] as int + s[3]
  }

  /** The digits of a number in base 256, most significant first. */
  function Digits(n: nat, width: nat): (ds: seq<byte>)
    ensures |ds| == width
  {
    if width == 0 then [] else Digits(n / 256, width - 1) + [n % 256]
  }

  const LENGTH_LIMIT := 0x1_0000_0000

  /** A length as it stands on the wire. */
  function LengthField(n: nat): (ds: seq<byte>)
    requires n < LENGTH_LIMIT
    ensures |ds| == 4
  {
    Digits(n, 4)
  }

  lemma {:induction false} FourDigits(n: nat)
    ensures Digits(n, 4) == [n / 256 / 256 / 256 % 256, n / 256 / 256 % 256, n / 256 % 256, n % 256]
  {
    var a, b, c := n / 256, n / 256 / 256, n / 256 / 256 / 256;
    assert Digits(c, 1) == Digits(c / 256, 0) + [c % 256] == [c % 256];
    assert Digits(b, 2) == Digits(c, 1) + [b % 256];
    assert Digits(a, 3) == Digits(b, 2) + [a % 256];
  }

  /** Reading a length back from the wire gives the length, for every length that
      four bytes can hold. */
  lemma LengthReadBack(n: nat)
    requires n < LENGTH_LIMIT
    ensures BigEndian(LengthField(n)) == n
  {
    FourDigits(n);
  }

  /** And every four bytes are the field of the length they read as. */
  lemma LengthWrittenBack(s: seq<byte>)
    requires |s| == 4
    ensures BigEndian(s) < LENGTH_LIMIT && LengthField(BigEndian(s)) == s
  {
    var n := BigEndian(s);
    FourDigits(n);
    assert n % 256 == s[3] && n / 256 == 0x1_0000 * s[0] as int + 0x100 * s[1] as int + s[2];
  }

  /** The first byte in which they differ decides. */
  predicate Before(a: seq<byte>, b: seq<byte>)
    requires |a| == |b|
  {
    a != [] && (a[0] < b[0] || (a[0] == b[0] && Before(a[1..], b[1..])))
  }

  lemma BeforeFrom(a: seq<byte>, b: seq<byte>, i: nat)
    requires |a| == |b| && i < |a|
    ensures Before(a[i..], b[i..]) <==> a[i] < b[i] || (a[i] == b[i] && Before(a[i + 1..], b[i + 1..]))
  {
    assert a[i..][1..] == a[i + 1..] && b[i..][1..] == b[i + 1..];
  }

  /** Lengths compare as their fields do, byte by byte from the front: the network
      order of the protocol. */
  lemma LengthOrder(a: seq<byte>, b: seq<byte>)
    requires |a| == 4 == |b|
    ensures BigEndian(a) < BigEndian(b) <==> Before(a, b)
  {
    BeforeFrom(a, b, 3);
    BeforeFrom(a, b, 2);
    BeforeFrom(a, b, 1);
    BeforeFrom(a, b, 0);
    assert a[0..] == a && b[0..] == b;
  }

  predicate WellFormed(s: Scanner) {
    && (s.phase.PhaseLength? ==> |s.lenBuf| < 4)
    && (!s.phase.PhaseLength? ==> s.lenBuf == [])
    && (s.phase.PhaseBody? <==> s.need > 0)
  }

  predicate MidMessage(s: Scanner) {
    s.phase != PhaseType || s.lenBuf != []
  }

  /** What becomes of the machine once the fourth length byte is in. */
  function Framed(s: Scanner, lenBytes: seq<byte>): Scanner
    requires |lenBytes| == 4
  {
    var total := BigEndian(lenBytes);
    if total < 4 then s.(lenBuf := lenBytes, fault := BadFrameLength)
    else s.(phase := if total == 4 then PhaseType else PhaseBody, lenBuf := [], need := total - 4,
            pending := s.pending + [Header(s.typ, total)])
  }

  function Step(s: Scanner, b: byte): Scanner
    requires WellFormed(s)
  {
    match s.phase
    case PhaseType =>
      if !ValidFrontendType(b) then s.(fault := UnknownFrameType(b))
      else s.(phase := PhaseLength, typ := b, lenBuf := [])
    case PhaseLength =>
      if |s.lenBuf| < 3 then s.(lenBuf := s.lenBuf + [b]) else Framed(s, s.lenBuf + [b])
    case PhaseBody =>
      s.(need := s.need - 1, phase := if s.need == 1 then PhaseType else PhaseBody)
  }

  /** Scanning a chunk: byte after byte, up to the first fault. */
  function ScanAll(s: Scanner, bs: seq<byte>): (r: Scanner)
    requires s.fault.NoFault? ==> WellFormed(s)
    ensures r.fault.NoFault? ==> WellFormed(r)
    ensures s.pending <= r.pending
    decreases |bs|
  {
    if bs == [] || !s.fault.NoFault? then s else ScanAll(Step(s, bs[0]), bs[1..])
  }

  /** Framing does not depend on how the socket cut the stream: scanning the two
      pieces reaches the state, the queued headers and the fault of scanning the
      whole. */
  lemma {:induction false} ScanChunks(s: Scanner, a: seq<byte>, b: seq<byte>)
    requires s.fault.NoFault? ==> WellFormed(s)
    ensures ScanAll(ScanAll(s, a), b) == ScanAll(s, a + b)
    decreases |a|
  {
    if a == [] {
      assert a + b == b;
    } else if s.fault.NoFault? {
      assert (a + b)[1..] == a[1..] + b;
      ScanChunks(Step(s, a[0]), a[1..], b);
    } else {
      assert ScanAll(s, a) == s;
    }
  }

  /** The headers already queued play no part in what is scanned next. */
  lemma {:induction false} ScanQueue(s: Scanner, q: seq<Header>, bs: seq<byte>)
    requires s.fault.NoFault? && WellFormed(s)
    ensures ScanAll(s.(pending := q + s.pending), bs)
         == ScanAll(s, bs).(pending := q + ScanAll(s, bs).pending)
    decreases |bs|
  {
    if bs != [] {
      var t := Step(s, bs[0]);
      var t' := Step(s.(pending := q + s.pending), bs[0]);
      assert t' == t.(pending := q + t.pending) by {
        if s.phase.PhaseLength? && |s.lenBuf| == 3 {
          var h := Header(s.typ, BigEndian(s.lenBuf + [bs[0]]));
          assert (q + s.pending) + [h] == q + (s.pending + [h]);
        }
      }
      if t.fault.NoFault? {
        ScanQueue(t, q, bs[1..]);
      }
    }
  }

  /** A run of body bytes is stepped over in one go. */
  lemma {:induction false} ScanBody(s: Scanner, bs: seq<byte>)
    requires s.fault.NoFault? && WellFormed(s) && s.phase.PhaseBody? && |bs| <= s.need
    ensures ScanAll(s, bs) == s.(need := s.need - |bs|, phase := if |bs| == s.need then PhaseType else PhaseBody)
    decreases |bs|
  {
    if bs != [] {
      var t := Step(s, bs[0]);
      if t.phase.PhaseBody? {
        ScanBody(t, bs[1..]);
      }
    }
  }

  /** A run of length bytes is collected in one go. */
  lemma {:induction false} ScanLength(s: Scanner, bs: seq<byte>)
    requires s.fault.NoFault? && WellFormed(s) && s.phase.PhaseLength? && |s.lenBuf| + |bs| <= 4
    ensures |s.lenBuf| + |bs| < 4 ==> ScanAll(s, bs) == s.(lenBuf := s.lenBuf + bs)
    ensures |s.lenBuf| + |bs| == 4 ==> ScanAll(s, bs) == Framed(s, s.lenBuf + bs)
    decreases |bs|
  {
    if bs == [] {
      assert s.lenBuf + bs == s.lenBuf;
    } else {
      assert s.lenBuf + bs == s.lenBuf + [bs[0]] + bs[1..];
      if |s.lenBuf| == 3 {
        assert bs == [bs[0]];
      } else {
        ScanLength(Step(s, bs[0]), bs[1..]);
      }
    }
  }

  lemma ScanTypeRun(s: Scanner, bs: seq<byte>)
    requires s.fault.NoFault? && WellFormed(s) && s.phase.PhaseType? && bs != []
    ensures ValidFrontendType(bs[0]) ==>
              ScanAll(s, bs) == ScanAll(s.(phase := PhaseLength, typ := bs[0], lenBuf := []), bs[1..])
    ensures !ValidFrontendType(bs[0]) ==> ScanAll(s, bs) == s.(fault := UnknownFrameType(bs[0]))
  {
    assert ScanAll(s, bs) == ScanAll(Step(s, bs[0]), bs[1..]);
  }

  lemma ScanLengthRun(s: Scanner, bs: seq<byte>, take: nat)
    requires s.fault.NoFault? && WellFormed(s) && s.phase.PhaseLength?
    requires take <= |bs| && |s.lenBuf| + take <= 4
    ensures |s.lenBuf| + take < 4 ==> ScanAll(s, bs) == ScanAll(s.(lenBuf := s.lenBuf + bs[..take]), bs[take..])
    ensures |s.lenBuf| + take == 4 ==> ScanAll(s, bs) == ScanAll(Framed(s, s.lenBuf + bs[..take]), bs[take..])
  {
    assert bs == bs[..take] + bs[take..];
    ScanChunks(s, bs[..take], bs[take..]);
    ScanLength(s, bs[..take]);
  }

  lemma ScanBodyRun(s: Scanner, bs: seq<byte>, take: nat)
    requires s.fault.NoFault? && WellFormed(s) && s.phase.PhaseBody? && take <= |bs| && take <= s.need
    ensures ScanAll(s, bs)
         == ScanAll(s.(need := s.need - take, phase := if take == s.need then PhaseType else PhaseBody), bs[take..])
  {
    assert bs == bs[..take] + bs[take..];
    ScanChunks(s, bs[..take], bs[take..]);
    ScanBody(s, bs[..take]);
  }

  // ---- The declarative reading -------------------------------------------------

  datatype ParseResult = ParseResult(headers: seq<Header>, mid: bool, fault: Fault)

  /** What a stream that starts at a frame boundary says, read frame by frame:
      the headers it announces, whether it stops inside a frame, and the fault
      that makes the rest of it unreadable. */
  function Parse(bs: seq<byte>): ParseResult
    decreases |bs|
  {
    if bs == [] then ParseResult([], false, NoFault)
    else if !ValidFrontendType(bs[0]) then ParseResult([], false, UnknownFrameType(bs[0]))
    else if |bs| < 5 then ParseResult([], true, NoFault)
    else
      var total := BigEndian(bs[1..5]);
      if total < 4 then ParseResult([], true, BadFrameLength)
      else if |bs| < 1 + total then ParseResult([Header(bs[0], total)], true, NoFault)
      else
        var rest := Parse(bs[1 + total..]);
        rest.(headers := [Header(bs[0], total)] + rest.headers)
  }

  lemma ScanShort(s: Scanner, bs: seq<byte>)
    requires s.fault.NoFault? && WellFormed(s) && s.phase.PhaseType?
    requires 0 < |bs| < 5 && ValidFrontendType(bs[0])
    ensures ScanAll(s, bs) == s.(phase := PhaseLength, typ := bs[0], lenBuf := bs[1..])
  {
    ScanTypeRun(s, bs);
    ScanLength(s.(phase := PhaseLength, typ := bs[0], lenBuf := []), bs[1..]);
  }

  lemma ScanHeader(s: Scanner, bs: seq<byte>)
    requires s.fault.NoFault? && WellFormed(s) && s.phase.PhaseType?
    requires |bs| >= 5 && ValidFrontendType(bs[0])
    ensures ScanAll(s, bs) == ScanAll(Framed(s.(phase := PhaseLength, typ := bs[0], lenBuf := []), bs[1..5]), bs[5..])
  {
    ScanTypeRun(s, bs);
    DropThenSplit(bs, 1, 4);
    ScanLengthRun(s.(phase := PhaseLength, typ := bs[0], lenBuf := []), bs[1..], 4);
    assert [] + bs[1..5] == bs[1..5];
  }

  /** For every byte string, the queued headers, the fault and (when the bytes
      can be framed) the mid-message answer are those of the declarative parse,
      whatever was queued before. */
  lemma {:induction false} ScanIsParse(s: Scanner, bs: seq<byte>)
    requires s.fault.NoFault? && WellFormed(s) && s.phase.PhaseType?
    ensures var r, p := ScanAll(s, bs), Parse(bs);
            && r.pending == s.pending + p.headers
            && r.fault == p.fault
            && (p.fault.NoFault? ==> MidMessage(r) == p.mid)
    decreases |bs|
  {
    if bs != [] {
      if !ValidFrontendType(bs[0]) {
        ScanTypeRun(s, bs);
      } else if |bs| < 5 {
        ScanShort(s, bs);
      } else {
        ScanHeader(s, bs);
        var h := s.(phase := PhaseLength, typ := bs[0], lenBuf := []);
        var total := BigEndian(bs[1..5]);
        var t := Framed(h, bs[1..5]);
        if total >= 4 && |bs| < 1 + total {
          ScanBody(t, bs[5..]);
        } else if total >= 4 {
          assert bs[5..] == bs[5..1 + total] + bs[1 + total..];
          ScanChunks(t, bs[5..1 + total], bs[1 + total..]);
          var u := ScanAll(t, bs[5..1 + total]);
          if total > 4 {
            ScanBody(t, bs[5..1 + total]);
          }
          ScanIsParse(u, bs[1 + total..]);
        }
      }
    }
  }

  // ---- Frames ------------------------------------------------------------------

  datatype Frame = Frame(typ: byte, body: seq<byte>)

  /** The client may send it, and its length fits the field. */
  predicate Encodable(f: Frame) {
    ValidFrontendType(f.typ) && |f.body| + 4 < LENGTH_LIMIT
  }

  function HeaderOf(f: Frame): Header {
    Header(f.typ, |f.body| + 4)
  }

  function Encode(f: Frame): (bs: seq<byte>)
    requires Encodable(f)
    ensures |bs| == 1 + HeaderOf(f).declared
  {
    [f.typ] + LengthField(|f.body| + 4) + f.body
  }

  ghost predicate AllEncodable(fs: seq<Frame>) {
    forall i :: 0 <= i < |fs| ==> Encodable(fs[i])
  }

  function Wires(fs: seq<Frame>): (ms: seq<seq<byte>>)
    requires AllEncodable(fs)
    ensures |ms| == |fs|
    ensures forall i :: 0 <= i < |fs| ==> ms[i] == Encode(fs[i])
  {
    if fs == [] then [] else [Encode(fs[0])] + Wires(fs[1..])
  }

  /** A whole stream: the frames' bytes one after the other. */
  function EncodeAll(fs: seq<Frame>): seq<byte>
    requires AllEncodable(fs)
  {
    Concat(Wires(fs))
  }

  lemma EncodeFirst(fs: seq<Frame>)
    requires AllEncodable(fs) && fs != []
    ensures EncodeAll(fs) == Encode(fs[0]) + EncodeAll(fs[1..])
    ensures Wires(fs)[1..] == Wires(fs[1..])
  {
  }

  function Headers(fs: seq<Frame>): (hs: seq<Header>)
    ensures |hs| == |fs|
    ensures forall i :: 0 <= i < |fs| ==> hs[i] == HeaderOf(fs[i])
  {
    if fs == [] then [] else [HeaderOf(fs[0])] + Headers(fs[1..])
  }

  lemma EncodeLayout(f: Frame, rest: seq<byte>)
    requires Encodable(f)
    ensures var bs := Encode(f) + rest;
            && bs[0] == f.typ
            && BigEndian(bs[1..5]) == |f.body| + 4
            && bs[5..|f.body| + 5] == f.body
            && bs[|f.body| + 5..] == rest
  {
    var bs := Encode(f) + rest;
    LengthReadBack(|f.body| + 4);
    assert bs[1..5] == LengthField(|f.body| + 4);
    assert bs[5..|f.body| + 5] == f.body;
  }

  lemma ParseOne(f: Frame, tail: seq<byte>)
    requires Encodable(f)
    ensures Parse(Encode(f) + tail) == Parse(tail).(headers := [HeaderOf(f)] + Parse(tail).headers)
  {
    EncodeLayout(f, tail);
    var bs := Encode(f) + tail;
    assert |bs| >= 5 && 1 + BigEndian(bs[1..5]) == |f.body| + 5 <= |bs|;
  }

  /** Parsing what was encoded gives the frames' own headers back, in order. */
  lemma {:induction false} ParseEncoded(fs: seq<Frame>, rest: seq<byte>)
    requires AllEncodable(fs)
    ensures Parse(EncodeAll(fs) + rest) == Parse(rest).(headers := Headers(fs) + Parse(rest).headers)
    decreases |fs|
  {
    if fs == [] {
      assert EncodeAll(fs) + rest == rest;
      assert Headers(fs) + Parse(rest).headers == Parse(rest).headers;
    } else {
      var tail := EncodeAll(fs[1..]) + rest;
      var h, hs, more := [HeaderOf(fs[0])], Headers(fs[1..]), Parse(rest).headers;
      EncodeFirst(fs);
      Assoc(Encode(fs[0]), EncodeAll(fs[1..]), rest);
      Assoc(h, hs, more);
      ParseEncoded(fs[1..], rest);
      ParseOne(fs[0], tail);
    }
  }

  ghost predicate WholeFrames(bs: seq<byte>) {
    exists fs: seq<Frame> :: AllEncodable(fs) && EncodeAll(fs) == bs
  }

  lemma {:induction false} WholeFramesFromParse(bs: seq<byte>) returns (fs: seq<Frame>)
    requires Parse(bs).fault.NoFault? && !Parse(bs).mid
    ensures AllEncodable(fs) && EncodeAll(fs) == bs
    decreases |bs|
  {
    if bs == [] {
      fs := [];
    } else {
      var f, n := FirstFrame(bs);
      var rest := WholeFramesFromParse(bs[n..]);
      fs := [f] + rest;
      assert fs[1..] == rest;
      EncodeFirst(fs);
      assert bs == bs[..n] + bs[n..];
    }
  }

  lemma FirstFrame(bs: seq<byte>) returns (f: Frame, n: nat)
    requires bs != [] && Parse(bs).fault.NoFault? && !Parse(bs).mid
    ensures Encodable(f) && 5 <= n <= |bs| && Encode(f) == bs[..n]
    ensures Parse(bs[n..]).fault.NoFault? && !Parse(bs[n..]).mid
  {
    n := 1 + BigEndian(bs[1..5]);
    f := Frame(bs[0], bs[5..n]);
    LengthWrittenBack(bs[1..5]);
    assert Encode(f) == bs[..n];
  }

  /** `midMessage` answers exactly "the bytes consumed so far are not a whole
      number of frames", for every stream the machine can frame. */
  lemma MidMessageExact(bs: seq<byte>)
    ensures ScanAll(AT_BOUNDARY, bs).fault.NoFault? ==>
              (MidMessage(ScanAll(AT_BOUNDARY, bs)) <==> !WholeFrames(bs))
  {
    ScanIsParse(AT_BOUNDARY, bs);
    var p := Parse(bs);
    if p.fault.NoFault? {
      if !p.mid {
        var fs := WholeFramesFromParse(bs);
      } else if fs: seq<Frame> :| AllEncodable(fs) && EncodeAll(fs) == bs {
        assert EncodeAll(fs) + [] == bs;
        ParseEncoded(fs, []);
      }
    }
  }
}
