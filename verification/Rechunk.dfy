/**
  Re-chunking of unbuffered request bodies in the Nginx module. Nginx has removed the chunked
  coding from the body; the module puts it back, buffer by buffer: first around the buffers that
  are there when the request is created, later in an output filter around each further chain.
 */
module Rechunk {
  import opened Basics

  const CRLF: Bytes := [13, 10]
  const TERMINATOR: Bytes := [48, 13, 10, 13, 10]

  /** `last` is Nginx's mark on the buffer that ends the body. */
  datatype Buf = Buf(data: Bytes, last: bool)

  function HexDigit(d: nat): Byte
    requires d < 16
  {
    if d < 10 then 48 + d else 87 + d
  }

  /** A number in hexadecimal, as %xO prints it. */
  function Hex(n: nat): (s: Bytes)
    ensures |s| > 0
  {
    if n < 16 then [HexDigit(n)] else Hex(n / 16) + [HexDigit(n % 16)]
  }

  function Frame(data: Bytes): Bytes {
    Hex(|data|) + CRLF + data + CRLF
  }

  function BytesOf(chain: seq<Buf>): Bytes {
    if chain == [] then [] else chain[0].data + BytesOf(chain[1..])
  }

  lemma {:induction false} BytesOfAppend(a: seq<Buf>, b: seq<Buf>)
    ensures BytesOf(a + b) == BytesOf(a) + BytesOf(b)
  {
    if a == [] {
      assert a + b == b;
    } else {
      assert (a + b)[1..] == a[1..] + b;
      BytesOfAppend(a[1..], b);
    }
  }

  // ----- what the code emits

  function Framed(b: Buf): seq<Buf> {
    [Buf(Hex(|b.data|) + CRLF, false), b, Buf(CRLF, false)]
  }

  function FramedChain(chain: seq<Buf>): seq<Buf> {
    if chain == [] then [] else FramedChain(chain[..|chain| - 1]) + Framed(chain[|chain| - 1])
  }

  /** The chain that create_request leaves for the upstream: the request header and the body that
      was already received. */
  method CreateRequest(header: Bytes, body: seq<Buf>) returns (chain: seq<Buf>)
    ensures chain == [Buf(header, false)] + FramedChain(body)
  {
    chain := [Buf(header, false)];
    var i := 0;
    while i < |body|
      invariant 0 <= i <= |body|
      invariant chain == [Buf(header, false)] + FramedChain(body[..i])
    {
      assert body[..i + 1][..i] == body[..i];
      chain := chain + [Buf(Hex(|body[i].data|) + CRLF, false)];
      chain := chain + [body[i]];
      chain := chain + [Buf(CRLF, false)];
      i := i + 1;
    }
    assert body[..i] == body;
  }

  function EndOfBody(chain: seq<Buf>): seq<Buf> {
    if chain != [] && chain[|chain| - 1].last then [Buf(TERMINATOR, false)] else []
  }

  /** The first chain passes as it is, since it holds the request header; later ones are framed. */
  function FilterOutput(headerSent: bool, chain: seq<Buf>): seq<Buf> {
    (if headerSent then FramedChain(chain) else chain) + EndOfBody(chain)
  }

  class Filter {
    var headerSent: bool

    constructor ()
      ensures !headerSent
    {
      headerSent := false;
    }

    /** body_rechunk_output_filter; the empty chain stands for a call without input. */
    method Pass(input: seq<Buf>) returns (output: seq<Buf>)
      modifies this
      ensures headerSent <==> old(headerSent) || input != []
      ensures output == FilterOutput(old(headerSent), input)
    {
      output := [];
      if input == [] {
        return;
      }
      var eof := false;
      var i := 0;
      if !headerSent {
        headerSent := true;
        while i < |input|
          invariant 0 <= i <= |input| && headerSent
          invariant output == input[..i]
          invariant eof == (i > 0 && input[i - 1].last)
        {
          output := output + [input[i]];
          eof := input[i].last;
          i := i + 1;
        }
      } else {
        while i < |input|
          invariant 0 <= i <= |input| && headerSent
          invariant output == FramedChain(input[..i])
          invariant eof == (i > 0 && input[i - 1].last)
        {
          assert input[..i + 1][..i] == input[..i];
          output := output + [Buf(Hex(|input[i].data|) + CRLF, false)];
          output := output + [input[i]];
          output := output + [Buf(CRLF, false)];
          eof := input[i].last;
          i := i + 1;
        }
      }
      assert input[..i] == input;
      if eof {
        output := output + [Buf(TERMINATOR, false)];
      }
    }
  }

  /** Everything sent for one request: the first chain, then the filter's output call by call. */
  function SentLater(calls: seq<seq<Buf>>): Bytes {
    if calls == [] then [] else BytesOf(FilterOutput(true, calls[0])) + SentLater(calls[1..])
  }

  function Sent(header: Bytes, received: seq<Buf>, calls: seq<seq<Buf>>): Bytes {
    BytesOf(FilterOutput(false, [Buf(header, false)] + FramedChain(received))) + SentLater(calls)
  }

  // ----- the frames behind it

  /** The payloads of the chunks in the stream; an empty payload is a zero-size chunk. */
  function Payloads(chain: seq<Buf>): (p: seq<Bytes>)
    ensures |p| == |chain| && forall i | 0 <= i < |chain| :: p[i] == chain[i].data
  {
    seq(|chain|, i requires 0 <= i < |chain| => chain[i].data)
  }

  function CallPayloads(chain: seq<Buf>): seq<Bytes> {
    Payloads(chain) + if EndOfBody(chain) != [] then [[]] else []
  }

  function LaterPayloads(calls: seq<seq<Buf>>): seq<Bytes> {
    if calls == [] then [] else CallPayloads(calls[0]) + LaterPayloads(calls[1..])
  }

  function Frames(payloads: seq<Bytes>): Bytes {
    if payloads == [] then [] else Frame(payloads[0]) + Frames(payloads[1..])
  }

  lemma {:induction false} FramesAppend(a: seq<Bytes>, b: seq<Bytes>)
    ensures Frames(a + b) == Frames(a) + Frames(b)
  {
    if a == [] {
      assert a + b == b;
    } else {
      assert (a + b)[1..] == a[1..] + b;
      FramesAppend(a[1..], b);
    }
  }

  lemma FramesSingle(p: Bytes)
    ensures Frames([p]) == Frame(p)
  {
  }

  lemma EmptyFrameIsTerminator()
    ensures Frame([]) == TERMINATOR
  {
  }

  lemma FramedBytes(b: Buf)
    ensures BytesOf(Framed(b)) == Frame(b.data)
  {
    var f := Framed(b);
    assert f[1..] == [b, Buf(CRLF, false)] && f[1..][1..] == [Buf(CRLF, false)] && f[1..][1..][1..] == [];
    assert BytesOf(f[1..][1..]) == CRLF;
    assert BytesOf(f[1..]) == b.data + CRLF;
    assert Hex(|b.data|) + CRLF + (b.data + CRLF) == Frame(b.data);
  }

  lemma {:induction false} FramedChainBytes(chain: seq<Buf>)
    ensures BytesOf(FramedChain(chain)) == Frames(Payloads(chain))
    decreases |chain|
  {
    if chain != [] {
      var n := |chain| - 1;
      FramedChainBytes(chain[..n]);
      BytesOfAppend(FramedChain(chain[..n]), Framed(chain[n]));
      FramedBytes(chain[n]);
      assert Payloads(chain) == Payloads(chain[..n]) + [chain[n].data];
      FramesAppend(Payloads(chain[..n]), [chain[n].data]);
      FramesSingle(chain[n].data);
    }
  }

  lemma CallBytes(chain: seq<Buf>)
    ensures BytesOf(FilterOutput(true, chain)) == Frames(CallPayloads(chain))
  {
    FramedChainBytes(chain);
    BytesOfAppend(FramedChain(chain), EndOfBody(chain));
    if EndOfBody(chain) != [] {
      assert BytesOf(EndOfBody(chain)) == TERMINATOR;
      EmptyFrameIsTerminator();
      FramesSingle([]);
      FramesAppend(Payloads(chain), [[]]);
    } else {
      assert Payloads(chain) + [] == Payloads(chain);
    }
  }

  lemma {:induction false} LaterBytes(calls: seq<seq<Buf>>)
    ensures SentLater(calls) == Frames(LaterPayloads(calls))
    decreases |calls|
  {
    if calls != [] {
      CallBytes(calls[0]);
      LaterBytes(calls[1..]);
      FramesAppend(CallPayloads(calls[0]), LaterPayloads(calls[1..]));
    }
  }

  /** The first chain never ends with a terminator: its last buffer is the header or a line end. */
  lemma FirstChainPlain(header: Bytes, received: seq<Buf>)
    ensures EndOfBody([Buf(header, false)] + FramedChain(received)) == []
  {
  }

  lemma FirstChainBytes(header: Bytes, received: seq<Buf>)
    ensures BytesOf(FilterOutput(false, [Buf(header, false)] + FramedChain(received)))
         == header + Frames(Payloads(received))
  {
    var first := [Buf(header, false)] + FramedChain(received);
    FirstChainPlain(header, received);
    assert first + [] == first;
    hide FramedChain, Frames;
    BytesOfAppend([Buf(header, false)], FramedChain(received));
    assert BytesOf([Buf(header, false)]) == header + BytesOf([]);
    FramedChainBytes(received);
  }

  /** The stream is the header followed by one frame per payload. */
  lemma StreamIsFrames(header: Bytes, received: seq<Buf>, calls: seq<seq<Buf>>)
    ensures Sent(header, received, calls) == header + Frames(Payloads(received) + LaterPayloads(calls))
  {
    FirstChainBytes(header, received);
    LaterBytes(calls);
    FramesAppend(Payloads(received), LaterPayloads(calls));
    hide Frames, FilterOutput, BytesOf;
    var a, b := Frames(Payloads(received)), Frames(LaterPayloads(calls));
    assert (header + a) + b == header + (a + b);
  }

  // ----- decoding, after section 4.1 of RFC 7230

  function HexValue(b: Byte): Option<nat> {
    if 48 <= b <= 57 then Some(b - 48)
    else if 97 <= b <= 102 then Some(b - 87)
    else if 65 <= b <= 70 then Some(b - 55)
    else None
  }

  /** One or more hexadecimal digits and a line end. */
  function ReadSize(s: Bytes, value: nat, digits: nat): Option<(nat, Bytes)>
    decreases |s|
  {
    if s == [] then None
    else if HexValue(s[0]).Some? then ReadSize(s[1..], value * 16 + HexValue(s[0]).value, digits + 1)
    else if digits > 0 && CRLF <= s then Some((value, s[2..]))
    else None
  }

  /** A body is complete at its first zero-size chunk, partial when the stream ends between chunks. */
  datatype Decoded = Complete(body: Bytes, rest: Bytes) | Partial(body: Bytes) | Malformed

  function Ahead(data: Bytes, d: Decoded): Decoded {
    match d
    case Complete(body, rest) => Complete(data + body, rest)
    case Partial(body) => Partial(data + body)
    case Malformed => Malformed
  }

  function Decode(s: Bytes): Decoded
    decreases |s|
  {
    if s == [] then Partial([])
    else
      match ReadSize(s, 0, 0)
      case None => Malformed
      case Some((size, rest)) =>
        if |rest| < size + 2 || |rest| >= |s| || !(CRLF <= rest[size..]) then Malformed
        else if size == 0 then Complete([], rest[2..])
        else Ahead(rest[..size], Decode(rest[size + 2..]))
  }

  lemma ReadDigit(d: nat, s: Bytes, value: nat, digits: nat)
    requires d < 16
    ensures ReadSize([HexDigit(d)] + s, value, digits) == ReadSize(s, value * 16 + d, digits + 1)
  {
  }

  /** What %xO prints is read back. */
  lemma {:induction false} ReadHex(n: nat, s: Bytes, digits: nat)
    ensures ReadSize(Hex(n) + s, 0, digits) == ReadSize(s, n, digits + |Hex(n)|)
    decreases n
  {
    if n < 16 {
      ReadDigit(n, s, 0, digits);
    } else {
      var last := [HexDigit(n % 16)];
      assert Hex(n) + s == Hex(n / 16) + (last + s);
      ReadHex(n / 16, last + s, digits);
      ReadDigit(n % 16, s, n / 16, digits + |Hex(n / 16)|);
    }
  }

  /** Sizes are printed in lower case, without leading zeros. */
  lemma {:induction false} HexIsLowerCase(n: nat)
    ensures forall i | 0 <= i < |Hex(n)| :: 48 <= Hex(n)[i] <= 57 || 97 <= Hex(n)[i] <= 102
    ensures n > 0 ==> Hex(n)[0] != 48
    decreases n
  {
    if n >= 16 {
      HexIsLowerCase(n / 16);
    }
  }

  /** A frame of eleven bytes, and the terminator, byte by byte. */
  lemma FrameExample(data: Bytes)
    requires |data| == 11
    ensures Frame(data) == [98, 13, 10] + data + [13, 10]
    ensures Frame([]) == [48, 13, 10, 13, 10]
  {
    assert Hex(11) == [98];
    EmptyFrameIsTerminator();
  }

  lemma DecodeFrame(p: Bytes, s: Bytes)
    ensures Decode(Frame(p) + s) == if p == [] then Complete([], s) else Ahead(p, Decode(s))
  {
    var t := p + CRLF + s;
    var f := Frame(p) + s;
    assert f == Hex(|p|) + (CRLF + t);
    ReadHex(|p|, CRLF + t, 0);
    assert (CRLF + t)[2..] == t;
    assert ReadSize(f, 0, 0) == Some((|p|, t));
    assert t[..|p|] == p && t[|p|..] == CRLF + s;
    assert t[|p| + 2..] == s;
  }

  /** The first zero-size chunk, if there is one. */
  function FirstEmpty(payloads: seq<Bytes>): (k: nat)
    ensures k <= |payloads|
    ensures forall i | 0 <= i < k :: payloads[i] != []
    ensures k < |payloads| ==> payloads[k] == []
  {
    if payloads == [] || payloads[0] == [] then 0 else 1 + FirstEmpty(payloads[1..])
  }

  /** The payloads up to the first empty one. */
  function Read(payloads: seq<Bytes>): Decoded {
    var k := FirstEmpty(payloads);
    if k < |payloads| then Complete(Concat(payloads[..k]), Frames(payloads[k + 1..])) else Partial(Concat(payloads))
  }

  /** Decoding a sequence of frames yields the payloads up to the first empty one. */
  lemma {:induction false} DecodeFrames(payloads: seq<Bytes>)
    ensures Decode(Frames(payloads)) == Read(payloads)
    decreases |payloads|
  {
    if payloads != [] {
      DecodeFrame(payloads[0], Frames(payloads[1..]));
      if payloads[0] != [] {
        DecodeFrames(payloads[1..]);
        var k := FirstEmpty(payloads);
        assert payloads[..k][1..] == payloads[1..][..k - 1];
        if k < |payloads| {
          assert payloads[1..][k..] == payloads[k + 1..];
        }
      }
    }
  }

  /** For every body, every division into buffers and every sequence of filter calls: what a decoder
      makes of the stream behind the header. */
  lemma DecodedStream(header: Bytes, received: seq<Buf>, calls: seq<seq<Buf>>)
    ensures |header| <= |Sent(header, received, calls)|
    ensures Decode(Sent(header, received, calls)[|header|..]) == Read(Payloads(received) + LaterPayloads(calls))
  {
    StreamIsFrames(header, received, calls);
    DecodeFrames(Payloads(received) + LaterPayloads(calls));
    hide Sent, Frames, Decode, Read, Payloads, LaterPayloads;
    var f := Frames(Payloads(received) + LaterPayloads(calls));
    assert (header + f)[|header|..] == f;
  }

  // ----- when the body survives

  /** A body as Nginx delivers it: only the very last buffer is marked, and only it may be empty. */
  predicate Tidy(bufs: seq<Buf>) {
    && bufs != [] && bufs[|bufs| - 1].last
    && forall i | 0 <= i < |bufs| - 1 :: bufs[i].data != [] && !bufs[i].last
  }

  lemma PayloadsAppend(a: seq<Buf>, b: seq<Buf>)
    ensures Payloads(a + b) == Payloads(a) + Payloads(b)
  {
  }

  lemma TidyTail(a: seq<Buf>, b: seq<Buf>)
    requires Tidy(a + b) && b != []
    ensures Tidy(b)
    ensures EndOfBody(a) == []
  {
    var bufs := a + b;
    assert forall i | 0 <= i < |b| :: b[i] == bufs[|a| + i];
    if a != [] {
      assert a[|a| - 1] == bufs[|a| - 1];
    }
  }

  lemma {:induction false} TidyLater(calls: seq<seq<Buf>>)
    requires Tidy(Concat(calls))
    ensures LaterPayloads(calls) == Payloads(Concat(calls)) + [[]]
    decreases |calls|
  {
    var first, rest := calls[0], Concat(calls[1..]);
    assert LaterPayloads(calls) == CallPayloads(first) + LaterPayloads(calls[1..]);
    if rest == [] {
      assert first + rest == first;
      EmptyCalls(calls[1..]);
    } else {
      TidyTail(first, rest);
      TidyLater(calls[1..]);
      PayloadsAppend(first, rest);
      assert Payloads(first) + [] == Payloads(first);
    }
  }

  lemma {:induction false} EmptyCalls(calls: seq<seq<Buf>>)
    requires Concat(calls) == []
    ensures LaterPayloads(calls) == []
  {
    if calls != [] {
      assert calls[0] == [];
      EmptyCalls(calls[1..]);
    }
  }

  lemma {:induction false} PayloadsConcat(chain: seq<Buf>)
    ensures Concat(Payloads(chain)) == BytesOf(chain)
    decreases |chain|
  {
    if chain != [] {
      assert Payloads(chain)[1..] == Payloads(chain[1..]);
      PayloadsConcat(chain[1..]);
    }
  }

  lemma ReadToEmpty(full: seq<Bytes>, tail: seq<Bytes>)
    requires forall i | 0 <= i < |full| :: full[i] != []
    ensures Read(full + [[]] + tail) == Complete(Concat(full), Frames(tail))
  {
    hide Concat, Frames;
    var p := full + [[]] + tail;
    assert p[|full|] == [] && forall i | 0 <= i < |full| :: p[i] == full[i];
    var k := FirstEmpty(p);
    assert k == |full|;
    assert p[..|full|] == full && p[|full| + 1..] == tail;
  }

  lemma ReadFull(full: seq<Bytes>)
    requires forall i | 0 <= i < |full| :: full[i] != []
    ensures Read(full) == Partial(Concat(full))
  {
  }

  lemma DropEmptyEnd(bufs: seq<Buf>) returns (full: seq<Bytes>)
    requires Tidy(bufs)
    ensures Payloads(bufs) == if bufs[|bufs| - 1].data == [] then full + [[]] else full
    ensures forall i | 0 <= i < |full| :: full[i] != []
    ensures Concat(full) == BytesOf(bufs)
  {
    var n, p := |bufs| - 1, Payloads(bufs);
    PayloadsConcat(bufs);
    full := p;
    if p[n] == [] {
      full := p[..n];
      assert p == full + [[]];
      ConcatSnoc(full, []);
    }
  }

  /** The body came whole before the request was created. */
  lemma ReadReceived(bufs: seq<Buf>)
    requires Tidy(bufs)
    ensures Read(Payloads(bufs)) ==
      if bufs[|bufs| - 1].data == [] then Complete(BytesOf(bufs), []) else Partial(BytesOf(bufs))
  {
    hide Read, Payloads, Concat, BytesOf;
    var full := DropEmptyEnd(bufs);
    if bufs[|bufs| - 1].data == [] {
      ReadToEmpty(full, []);
      assert full + [[]] + [] == full + [[]];
    } else {
      ReadFull(full);
    }
  }

  /** The end of the body came through the filter. */
  lemma ReadFiltered(bufs: seq<Buf>)
    requires Tidy(bufs)
    ensures Read(Payloads(bufs) + [[]]) ==
      Complete(BytesOf(bufs), if bufs[|bufs| - 1].data == [] then TERMINATOR else [])
  {
    FramesSingle([]);
    EmptyFrameIsTerminator();
    assert Frames([]) == [];
    hide Read, Payloads, Concat, BytesOf, Frames, Frame;
    var full := DropEmptyEnd(bufs);
    if bufs[|bufs| - 1].data == [] {
      ReadToEmpty(full, [[]]);
    } else {
      ReadToEmpty(full, []);
      assert full + [[]] + [] == full + [[]];
    }
  }

  lemma TidyPayloads(received: seq<Buf>, calls: seq<seq<Buf>>)
    requires Tidy(received + Concat(calls))
    ensures Payloads(received) + LaterPayloads(calls) ==
      Payloads(received + Concat(calls)) + if Concat(calls) == [] then [] else [[]]
  {
    hide *;
    var later := Concat(calls);
    PayloadsAppend(received, later);
    if later == [] {
      EmptyCalls(calls);
      assert received + later == received && Payloads(received) + [] == Payloads(received);
    } else {
      TidyTail(received, later);
      TidyLater(calls);
      var a, b := Payloads(received), Payloads(later);
      assert a + (b + [[]]) == (a + b) + [[]];
    }
  }

  /** A tidy body arrives whole. It is also seen to end, unless all of it was received before the
      request was created and its last buffer holds data: then no zero-size chunk is ever sent. When
      the last buffer is empty and comes through the filter, a second terminator follows. */
  lemma BodySurvives(header: Bytes, received: seq<Buf>, calls: seq<seq<Buf>>)
    requires Tidy(received + Concat(calls))
    ensures |header| <= |Sent(header, received, calls)|
    ensures
      var bufs := received + Concat(calls);
      var open := Concat(calls) == [] && bufs[|bufs| - 1].data != [];
      var twice := Concat(calls) != [] && bufs[|bufs| - 1].data == [];
      Decode(Sent(header, received, calls)[|header|..]) ==
        if open then Partial(BytesOf(bufs)) else Complete(BytesOf(bufs), if twice then TERMINATOR else [])
  {
    hide *;
    var bufs := received + Concat(calls);
    DecodedStream(header, received, calls);
    TidyPayloads(received, calls);
    if Concat(calls) == [] {
      assert Payloads(bufs) + [] == Payloads(bufs);
      ReadReceived(bufs);
    } else {
      ReadFiltered(bufs);
    }
  }

  // ----- exactly when the body survives

  lemma {:induction false} ConcatEmptyIff(xs: seq<Bytes>)
    ensures Concat(xs) == [] <==> forall i | 0 <= i < |xs| :: xs[i] == []
    decreases |xs|
  {
    if xs != [] {
      ConcatEmptyIff(xs[1..]);
      assert xs == [xs[0]] + xs[1..];
      if Concat(xs) == [] {
        assert |xs[0]| == 0 && |Concat(xs[1..])| == 0;
      }
    }
  }

  lemma {:induction false} LaterIsBody(calls: seq<seq<Buf>>)
    ensures Concat(LaterPayloads(calls)) == BytesOf(Concat(calls))
    decreases |calls|
  {
    if calls != [] {
      var first, p := calls[0], Payloads(calls[0]);
      LaterIsBody(calls[1..]);
      PayloadsConcat(first);
      assert Concat(CallPayloads(first)) == Concat(p) by {
        ConcatSnoc(p, []);
        assert p + [] == p;
      }
      ConcatAppend(CallPayloads(first), LaterPayloads(calls[1..]));
      BytesOfAppend(first, Concat(calls[1..]));
    }
  }

  lemma PayloadsAreBody(received: seq<Buf>, calls: seq<seq<Buf>>)
    ensures Concat(Payloads(received) + LaterPayloads(calls)) == BytesOf(received + Concat(calls))
  {
    hide *;
    ConcatAppend(Payloads(received), LaterPayloads(calls));
    PayloadsConcat(received);
    LaterIsBody(calls);
    BytesOfAppend(received, Concat(calls));
  }

  /** No data behind an empty buffer or behind the end-of-body mark of an earlier chain. */
  predicate NothingAfterEnd(payloads: seq<Bytes>) {
    forall i, j | 0 <= i < j < |payloads| && payloads[i] == [] :: payloads[j] == []
  }

  lemma NothingAfterIff(payloads: seq<Bytes>, k: nat)
    requires k < |payloads| && payloads[k] == []
    requires forall i | 0 <= i < k :: payloads[i] != []
    ensures NothingAfterEnd(payloads) <==> forall i | 0 <= i < |payloads[k..]| :: payloads[k..][i] == []
  {
    if NothingAfterEnd(payloads) {
      forall i | 0 <= i < |payloads[k..]| ensures payloads[k..][i] == [] {
        assert payloads[k..][i] == payloads[k + i];
      }
    } else {
      var i, j :| 0 <= i < j < |payloads| && payloads[i] == [] && payloads[j] != [];
      assert payloads[k..][j - k] == payloads[j];
    }
  }

  lemma ReadWholeIff(payloads: seq<Bytes>)
    ensures Read(payloads) != Malformed
    ensures Read(payloads).body == Concat(payloads) <==> NothingAfterEnd(payloads)
  {
    hide Concat, Frames, FirstEmpty, NothingAfterEnd;
    var k := FirstEmpty(payloads);
    if k < |payloads| {
      ConcatSplit(payloads, k);
      ConcatEmptyIff(payloads[k..]);
      NothingAfterIff(payloads, k);
      assert Concat(payloads[..k]) == Concat(payloads) <==> |Concat(payloads[k..])| == 0;
    } else {
      assert NothingAfterEnd(payloads) by { NothingAfterFull(payloads); }
    }
  }

  lemma NothingAfterFull(payloads: seq<Bytes>)
    requires forall i | 0 <= i < |payloads| :: payloads[i] != []
    ensures NothingAfterEnd(payloads)
  {
  }

  /** For every request: the decoder gets the body if and only if no data comes after an empty
      buffer or after a chain that carried the end-of-body mark. */
  lemma BodyKeptIff(header: Bytes, received: seq<Buf>, calls: seq<seq<Buf>>)
    ensures |header| <= |Sent(header, received, calls)|
    ensures
      var d := Decode(Sent(header, received, calls)[|header|..]);
      && d != Malformed
      && (d.body == BytesOf(received + Concat(calls)) <==>
            NothingAfterEnd(Payloads(received) + LaterPayloads(calls)))
  {
    hide *;
    DecodedStream(header, received, calls);
    PayloadsAreBody(received, calls);
    ReadWholeIff(Payloads(received) + LaterPayloads(calls));
  }

  /** With data behind an empty buffer the body is cut off there. */
  lemma EmptyBufferCutsBody(header: Bytes, before: Bytes, after: Bytes)
    requires before != [] && after != []
    ensures
      var received := [Buf(before, false), Buf([], false), Buf(after, true)];
      && |header| <= |Sent(header, received, [])|
      && Decode(Sent(header, received, [])[|header|..]) == Complete(before, Frame(after))
  {
    var received := [Buf(before, false), Buf([], false), Buf(after, true)];
    DecodedStream(header, received, []);
    var p := Payloads(received) + LaterPayloads([]);
    assert p == [before, [], after];
    assert FirstEmpty(p) == 1;
    assert p[..1] == [before] && p[2..] == [after];
    ConcatSingle(before);
    FramesSingle(after);
  }
}
