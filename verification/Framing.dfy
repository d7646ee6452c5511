/** Length-prefixed frames of the engine link (src/channel/unix_socket.rs:164-175, 258-343, and src/channel/tcp.rs alike). */
module Framing {
  import opened Sequences
  import opened Wrappers

  type byte = x: int | 0 <= x < 256
  type Payload = seq<byte>

  const MAX_PAYLOAD_SIZE := 64 * 1024
  const U32 := 0x1_0000_0000

  // ---------- the header: a 32-bit length, most significant byte first ----------

  function ToBeBytes(n: nat): (bs: seq<byte>)
    requires n < U32
    ensures |bs| == 4
  {
    [n / 0x100_0000, n / 0x1_0000 % 256, n / 256 % 256, n % 256]
  }

  function FromBeBytes(bs: seq<byte>): nat
    requires |bs| == 4
  {
    ((bs[0] as int * 256 + bs[1] as int) * 256 + bs[2] as int) * 256 + bs[3] as int
  }

  lemma HeaderRoundTrip(n: nat)
    requires n < U32
    ensures FromBeBytes(ToBeBytes(n)) == n
  {
    assert n == n / 256 * 256 + n % 256;
    assert n / 256 == n / 0x1_0000 * 256 + n / 256 % 256;
    assert n / 0x1_0000 == n / 0x100_0000 * 256 + n / 0x1_0000 % 256;
  }

  /** The most significant byte comes first. */
  lemma HeaderIsBigEndian(n: nat)
    requires n < 0x1_0000_0000
    ensures var bs := ToBeBytes(n);
            n == bs[0] as int * 0x100_0000 + bs[1] as int * 0x1_0000 + bs[2] as int * 0x100 + bs[3] as int
    ensures ToBeBytes(258) == [0, 0, 1, 2]
  {
    HeaderRoundTrip(n);
  }

  // ---------- frames ----------

  /** The writer narrows the length to 32 bits and does not look at the cap. */
  function Encode(p: Payload): seq<byte> {
    ToBeBytes(|p| % U32) + p
  }

  function EncodeAll(ps: seq<Payload>): seq<byte> {
    if ps == [] then [] else Encode(ps[0]) + EncodeAll(ps[1..])
  }

  /** One read: a frame and what follows it, a length over the cap, or too few bytes. */
  datatype Read = Frame(payload: Payload, rest: seq<byte>) | TooLong(length: nat) | Incomplete

  function ReadFrame(s: seq<byte>): (r: Read)
    ensures r.Frame? ==> |r.rest| < |s| && |r.payload| <= MAX_PAYLOAD_SIZE
  {
    if |s| < 4 then Incomplete
    else
      var n := FromBeBytes(s[..4]);
      if n > MAX_PAYLOAD_SIZE then TooLong(n)
      else if |s| - 4 < n then Incomplete
      else Frame(s[4..4 + n], s[4 + n..])
  }

  datatype Decoded = Decoded(frames: seq<Payload>, stop: Read)

  function DecodeAll(s: seq<byte>): Decoded
    decreases |s|
  {
    match ReadFrame(s)
    case Frame(p, rest) => var d := DecodeAll(rest); Decoded([p] + d.frames, d.stop)
    case other => Decoded([], other)
  }

  /** What the reader makes of an encoded payload, for every length: the header only carries it modulo 2^32. */
  lemma ReadEncoded(p: Payload, rest: seq<byte>)
    ensures var n := |p| % U32;
            ReadFrame(Encode(p) + rest) ==
              if n > MAX_PAYLOAD_SIZE then TooLong(n)
              else Frame(p[..n], p[n..] + rest)
  {
    var n := |p| % U32;
    var s := Encode(p) + rest;
    assert s[..4] == ToBeBytes(n);
    HeaderRoundTrip(n);
    hide ToBeBytes, FromBeBytes;
    assert s[4..] == p + rest;
    if n <= MAX_PAYLOAD_SIZE {
      assert s[4..4 + n] == p[..n];
      assert s[4 + n..] == p[n..] + rest;
    }
  }

  lemma ReadFitting(p: Payload, rest: seq<byte>)
    requires |p| <= MAX_PAYLOAD_SIZE
    ensures ReadFrame(Encode(p) + rest) == Frame(p, rest)
  {
    ReadEncoded(p, rest);
    assert p[..|p|] == p && p[|p|..] + rest == rest;
  }

  lemma DecodeStep(s: seq<byte>)
    ensures match ReadFrame(s)
            case Frame(p, rest) => DecodeAll(s) == Decoded([p] + DecodeAll(rest).frames, DecodeAll(rest).stop)
            case other => DecodeAll(s) == Decoded([], other)
  {
  }

  /** Main result: decoding gives back the payloads that were encoded exactly when each of them fits the cap. */
  lemma {:induction false} DecodeAllIffFits(ps: seq<Payload>)
    ensures DecodeAll(EncodeAll(ps)).frames == ps <==> forall p :: p in ps ==> |p| <= 65536
    decreases |ps|
  {
    if ps != [] {
      DecodeAllIffFits(ps[1..]);
      FirstDecoded(ps[0], EncodeAll(ps[1..]));
      hide DecodeAll, Encode;
      ConsIff(ps[0], ps[1..], DecodeAll(EncodeAll(ps)).frames, DecodeAll(EncodeAll(ps[1..])).frames);
      assert ps == [ps[0]] + ps[1..];
    }
  }

  /** The first payload decoded is the one encoded, unless that one was over the cap. */
  lemma FirstDecoded(p: Payload, rest: seq<byte>)
    ensures var frames := DecodeAll(Encode(p) + rest).frames;
            if |p| <= MAX_PAYLOAD_SIZE then frames == [p] + DecodeAll(rest).frames
            else frames == [] || frames[0] != p
  {
    ReadEncoded(p, rest);
    DecodeStep(Encode(p) + rest);
    hide DecodeAll, ReadFrame, Encode;
    if |p| <= MAX_PAYLOAD_SIZE {
      ReadFitting(p, rest);
    }
  }

  lemma ConsIff(p: Payload, ps: seq<Payload>, frames: seq<Payload>, rest: seq<Payload>)
    requires if |p| <= MAX_PAYLOAD_SIZE then frames == [p] + rest else frames == [] || frames[0] != p
    requires rest == ps <==> forall q :: q in ps ==> |q| <= MAX_PAYLOAD_SIZE
    ensures frames == [p] + ps <==> forall q :: q in [p] + ps ==> |q| <= MAX_PAYLOAD_SIZE
  {
    assert p in [p] + ps;
    if |p| <= MAX_PAYLOAD_SIZE && frames == [p] + ps {
      assert rest == frames[1..] && ps == frames[1..];
    }
  }

  lemma DecodeFitting(p: Payload, tail: seq<byte>)
    requires |p| <= MAX_PAYLOAD_SIZE
    ensures DecodeAll(Encode(p) + tail) == Decoded([p] + DecodeAll(tail).frames, DecodeAll(tail).stop)
  {
    ReadFitting(p, tail);
    DecodeStep(Encode(p) + tail);
  }

  lemma EncodeAllStep(ps: seq<Payload>)
    requires ps != []
    ensures EncodeAll(ps) == Encode(ps[0]) + EncodeAll(ps[1..])
  {
  }

  /** Frames that fit are decoded one by one, whatever follows them. */
  lemma {:induction false} DecodeAfterFitting(ps: seq<Payload>, tail: seq<byte>)
    requires forall p :: p in ps ==> |p| <= MAX_PAYLOAD_SIZE
    ensures DecodeAll(EncodeAll(ps) + tail) == Decoded(ps + DecodeAll(tail).frames, DecodeAll(tail).stop)
    decreases |ps|
  {
    if ps == [] {
      assert EncodeAll(ps) + tail == tail;
    } else {
      hide *;
      DecodeAfterFitting(ps[1..], tail);
      EncodeAllStep(ps);
      PlusAssociates(Encode(ps[0]), EncodeAll(ps[1..]), tail);
      DecodeFitting(ps[0], EncodeAll(ps[1..]) + tail);
      PlusAssociates([ps[0]], ps[1..], DecodeAll(tail).frames);
      assert ps == [ps[0]] + ps[1..];
    }
  }

  /** The reader stops at the first frame that is too long, having yielded exactly the payloads before it. */
  lemma StopsAtFirstTooLong(before: seq<Payload>, p: Payload, after: seq<byte>)
    requires forall q :: q in before ==> |q| <= MAX_PAYLOAD_SIZE
    requires 65536 < |p| < 0x1_0000_0000
    ensures DecodeAll(EncodeAll(before) + (Encode(p) + after)) == Decoded(before, TooLong(|p|))
  {
    hide *;
    CapIs();
    DecodeAfterFitting(before, Encode(p) + after);
    DecodeTooLong(p, after);
    assert before + [] == before;
  }

  lemma CapIs()
    ensures MAX_PAYLOAD_SIZE == 65536 && U32 == 0x1_0000_0000
  {
  }

  lemma DecodeTooLong(p: Payload, after: seq<byte>)
    requires MAX_PAYLOAD_SIZE < |p| < U32
    ensures DecodeAll(Encode(p) + after) == Decoded([], TooLong(|p|))
  {
    hide *;
    ReadEncoded(p, after);
    DecodeStep(Encode(p) + after);
  }

  // ---------- messages: payloads the engine-message parser accepts ----------

  type Parser<!Msg> = Payload -> Option<Msg>

  /** The reader hands on messages until the first frame it cannot read or parse. */
  function Messages<Msg>(parse: Parser<Msg>, s: seq<byte>): seq<Msg>
    decreases |s|
  {
    match ReadFrame(s)
    case Frame(p, rest) =>
      (match parse(p)
       case Some(m) => [m] + Messages(parse, rest)
       case None => [])
    case _ => []
  }

  function Parsed<Msg>(parse: Parser<Msg>, ps: seq<Payload>): seq<Msg> {
    if ps == [] || parse(ps[0]).None? then [] else [parse(ps[0]).value] + Parsed(parse, ps[1..])
  }

  lemma {:induction false} MessagesOfEncoded<Msg>(parse: Parser<Msg>, ps: seq<Payload>)
    requires forall p :: p in ps ==> |p| <= MAX_PAYLOAD_SIZE
    ensures Messages(parse, EncodeAll(ps)) == Parsed(parse, ps)
    decreases |ps|
  {
    if ps != [] {
      ReadFitting(ps[0], EncodeAll(ps[1..]));
      MessagesOfEncoded(parse, ps[1..]);
    }
  }

  /** Bytes that arrive later do not change what a read already settled. */
  lemma ReadIsStable(s: seq<byte>, more: seq<byte>)
    ensures match ReadFrame(s)
            case Frame(p, rest) => ReadFrame(s + more) == Frame(p, rest + more)
            case TooLong(n) => ReadFrame(s + more) == TooLong(n)
            case Incomplete => true
  {
    if |s| >= 4 {
      assert (s + more)[..4] == s[..4];
      var n := FromBeBytes(s[..4]);
      hide FromBeBytes;
      if 4 + n <= |s| {
        assert (s + more)[4..4 + n] == s[4..4 + n];
        assert (s + more)[4 + n..] == s[4 + n..] + more;
      }
    }
  }

  lemma {:induction false} MessagesGrow<Msg>(parse: Parser<Msg>, s: seq<byte>, more: seq<byte>)
    ensures Messages(parse, s) <= Messages(parse, s + more)
    decreases |s|
  {
    ReadIsStable(s, more);
    match ReadFrame(s) {
      case Frame(p, rest) =>
        hide ReadFrame;
        MessagesGrow(parse, rest, more);
      case _ =>
    }
  }

  /** The bytes are whole frames that all parse: nothing of them is left over. */
  predicate Whole<Msg>(parse: Parser<Msg>, s: seq<byte>)
    decreases |s|
  {
    s == [] ||
    match ReadFrame(s)
    case Frame(p, rest) => parse(p).Some? && Whole(parse, rest)
    case _ => false
  }

  lemma {:induction false} MessagesAfterWhole<Msg>(parse: Parser<Msg>, s: seq<byte>, more: seq<byte>)
    requires Whole(parse, s)
    ensures Messages(parse, s + more) == Messages(parse, s) + Messages(parse, more)
    decreases |s|
  {
    if s == [] {
      assert s + more == more;
    } else {
      ReadIsStable(s, more);
      var p, rest := ReadFrame(s).payload, ReadFrame(s).rest;
      MessagesAfterWhole(parse, rest, more);
      hide ReadFrame, Whole;
      PlusAssociates([parse(p).value], Messages(parse, rest), Messages(parse, more));
    }
  }

  lemma {:induction false} WholeAppend<Msg>(parse: Parser<Msg>, s: seq<byte>, more: seq<byte>)
    requires Whole(parse, s) && Whole(parse, more)
    ensures Whole(parse, s + more)
    decreases |s|
  {
    if s == [] {
      assert s + more == more;
    } else {
      ReadIsStable(s, more);
      WholeAppend(parse, ReadFrame(s).rest, more);
    }
  }

  // ---------- the reading code ----------

  class Stream {
    var bytes: seq<byte>

    constructor (bytes: seq<byte>)
      ensures this.bytes == bytes
    {
      this.bytes := bytes;
    }

    /** Fails when the stream ends first; what was read until then is gone. */
    method ReadExact(n: nat) returns (buf: Option<seq<byte>>)
      modifies this
      ensures if n <= |old(bytes)| then buf == Some(old(bytes)[..n]) && bytes == old(bytes)[n..] else buf == None && bytes == []
    {
      if n <= |bytes| {
        buf := Some(bytes[..n]);
        bytes := bytes[n..];
      } else {
        buf := None;
        bytes := [];
      }
    }

    method ReadEngineMessage<Msg>(parse: Parser<Msg>) returns (msg: Option<Msg>)
      modifies this
      ensures match ReadFrame(old(bytes))
              case Frame(p, rest) => msg == parse(p) && bytes == rest
              case _ => msg == None
    {
      var header := ReadExact(4);
      if header.None? {
        return None;
      }
      var payloadLen := FromBeBytes(header.value);
      if payloadLen > MAX_PAYLOAD_SIZE {
        return None;
      }
      var payload := ReadExact(payloadLen);
      assert 4 + payloadLen <= |old(bytes)| ==>
          old(bytes)[4..][..payloadLen] == old(bytes)[4..4 + payloadLen] && old(bytes)[4..][payloadLen..] == old(bytes)[4 + payloadLen..];
      if payload.None? {
        return None;
      }
      msg := parse(payload.value);
    }

    /** The reader's loop on a stream that has ended, with somebody taking every message: it hands on exactly the
        messages of the stream. */
    method ReadMessages<Msg>(parse: Parser<Msg>) returns (msgs: seq<Msg>)
      modifies this
      ensures msgs == Messages(parse, old(bytes))
    {
      msgs := [];
      var stopped := false;
      while !stopped
        invariant if stopped then msgs == Messages(parse, old(bytes))
                  else msgs + Messages(parse, bytes) == Messages(parse, old(bytes))
        decreases !stopped, |bytes|
      {
        ghost var before := bytes;
        var msg := ReadEngineMessage(parse);
        match msg {
          case Some(m) =>
            msgs := msgs + [m];
          case None =>
            assert Messages(parse, before) == [];
            stopped := true;
        }
      }
    }
  }
}
