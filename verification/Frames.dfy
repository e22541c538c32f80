/** Length-prefixed text records: how message payloads are framed in a shard and read back. */
module Frames {
  import opened Domain

  /** The record that is serialised for one message. */
  datatype Wire = Wire(
    account: string, talker: string, id: string, seqNo: int, typ: int, isSend: bool,
    ms: int, text: string, xml: string, extra: string)

  function WireOf(m: Message): Wire {
    Wire(m.account, m.talker, m.id, m.seqNo, m.typ, m.isSend, ToMillis(m.time), m.text, m.xml, m.extra)
  }

  function MessageOf(w: Wire): Message {
    Message(w.account, w.talker, w.id, w.seqNo, w.typ, w.isSend, FromMillis(w.ms), w.text, w.xml, w.extra)
  }

  /** What a message is after a trip through its record: the instant is cut to a millisecond. */
  function Normalised(m: Message): Message {
    m.(time := FromMillis(ToMillis(m.time)))
  }

  function NormalisedAll(msgs: seq<Message>): (r: seq<Message>)
    ensures |r| == |msgs| && forall i :: 0 <= i < |msgs| ==> r[i] == Normalised(msgs[i])
  {
    seq(|msgs|, i requires 0 <= i < |msgs| => Normalised(msgs[i]))
  }

  lemma NormalisedAllConcat(a: seq<Message>, b: seq<Message>)
    ensures NormalisedAll(a + b) == NormalisedAll(a) + NormalisedAll(b)
  {
  }

  /** The serialiser, a foreign function: any pair of functions. */
  datatype Codec = Codec(encode: Wire -> seq<byte>, decode: seq<byte> -> Option<Wire>)

  /** The serialiser reads back what it wrote for each of these messages. */
  ghost predicate Faithful(codec: Codec, msgs: seq<Message>) {
    forall m :: m in msgs ==> codec.decode(codec.encode(WireOf(m))) == Some(WireOf(m))
  }

  const TWO32 := 0x1_0000_0000

  /** Little-endian 32-bit length; a longer length wraps around. */
  function PutU32(n: nat): (b: seq<byte>)
    ensures |b| == 4
  {
    [n % 256, n / 256 % 256, n / 65536 % 256, n / 16777216 % 256]
  }

  function GetU32(b: seq<byte>): (n: nat)
    requires |b| >= 4
    ensures n < TWO32
  {
    var b0: int, b1: int, b2: int, b3: int := b[0], b[1], b[2], b[3];
    b0 + 256 * b1 + 65536 * b2 + 16777216 * b3
  }

  lemma PutThenGet(n: nat)
    ensures GetU32(PutU32(n)) == n % TWO32
  {
    var a, b, c, e := n / 256, n / 65536, n / 16777216, n / TWO32;
    DivTwice(n);
    assert n == 256 * a + n % 256 && a == 256 * b + a % 256;
    assert b == 256 * c + b % 256 && c == 256 * e + c % 256;
    assert GetU32(PutU32(n)) == n % 256 + 256 * (a % 256) + 65536 * (b % 256) + 16777216 * (c % 256);
  }

  lemma GetThenPut(b: seq<byte>)
    requires |b| == 4
    ensures PutU32(GetU32(b)) == b
  {
    var b0: int, b1: int, b2: int, b3: int := b[0], b[1], b[2], b[3];
    Digits(b0, b1 + 256 * (b2 + 256 * b3));
    Digits(b1, b2 + 256 * b3);
    Digits(b2, b3);
    var n := GetU32(b);
    assert n == b0 + 256 * (b1 + 256 * (b2 + 256 * b3));
    DivTwice(n);
  }

  lemma Digits(low: int, high: int)
    requires 0 <= low < 256
    ensures (low + 256 * high) % 256 == low && (low + 256 * high) / 256 == high
  {
  }

  lemma DivTwice(n: nat)
    ensures n / 256 / 256 == n / 65536 && n / 65536 / 256 == n / 16777216 && n / 16777216 / 256 == n / TWO32
  {
  }

  function Frame(payload: seq<byte>): seq<byte> {
    PutU32(|payload|) + payload
  }

  function FrameAll(payloads: seq<seq<byte>>): seq<byte> {
    if payloads == [] then [] else Frame(payloads[0]) + FrameAll(payloads[1..])
  }

  lemma {:induction false} FrameAllConcat(a: seq<seq<byte>>, b: seq<seq<byte>>)
    ensures FrameAll(a + b) == FrameAll(a) + FrameAll(b)
  {
    if a == [] {
      assert a + b == b;
    } else {
      assert (a + b)[1..] == a[1..] + b;
      FrameAllConcat(a[1..], b);
    }
  }

  // ---- Unframing --------------------------------------------------------------------------------

  function Prepend<T>(front: seq<T>, r: Result<seq<T>>): (p: Result<seq<T>>)
    ensures front == [] ==> p == r
  {
    assert front == [] && r.Ok? ==> front + r.value == r.value;
    if r.Ok? then Ok(front + r.value) else r
  }

  /** The length prefix of the first record, and the bytes after it. The comparison of the remaining
      length with the prefix is made modulo 2^32. */
  predicate StartsWithRecord(buf: seq<byte>) {
    |buf| >= 4 && (|buf| - 4) % TWO32 >= GetU32(buf)
  }

  function Unframe(buf: seq<byte>): (r: Result<seq<seq<byte>>>)
    decreases |buf|
  {
    if buf == [] then Ok([])
    else if !StartsWithRecord(buf) then Err(Truncated)
    else
      var n := GetU32(buf);
      Prepend([buf[4..4 + n]], Unframe(buf[4 + n..]))
  }

  lemma PrependTwice<T>(a: seq<T>, b: seq<T>, r: Result<seq<T>>)
    ensures Prepend(a, Prepend(b, r)) == Prepend(a + b, r)
  {
    if r.Ok? { assert a + (b + r.value) == a + b + r.value; }
  }

  lemma GetPrefix(head: seq<byte>, rest: seq<byte>)
    requires |head| == 4
    ensures GetU32(head + rest) == GetU32(head)
  {
  }

  lemma UnframeStep(buf: seq<byte>, n: nat)
    requires |buf| >= 4 && GetU32(buf) == n && n <= |buf| - 4 < TWO32
    ensures Unframe(buf) == Prepend([buf[4..4 + n]], Unframe(buf[4 + n..]))
  {
    assert (|buf| - 4) % TWO32 == |buf| - 4;
  }

  lemma UnframeHead(head: seq<byte>, p: seq<byte>, tail: seq<byte>)
    requires |head| == 4 && GetU32(head) == |p| && |p| + |tail| < TWO32
    ensures Unframe(head + p + tail) == Prepend([p], Unframe(tail))
  {
    hide GetU32, Unframe;
    var buf := head + p + tail;
    assert buf == head + (p + tail);
    GetPrefix(head, p + tail);
    UnframeStep(buf, |p|);
    assert buf[4..4 + |p|] == p;
    assert buf[4 + |p|..] == tail;
  }

  lemma Prefix(n: nat) returns (head: seq<byte>)
    requires n < TWO32
    ensures head == PutU32(n) && GetU32(head) == n
  {
    PutThenGet(n);
    head := PutU32(n);
  }

  lemma UnframeOne(p: seq<byte>, tail: seq<byte>)
    requires |p| + |tail| < TWO32
    ensures Unframe(Frame(p) + tail) == Prepend([p], Unframe(tail))
  {
    var head := Prefix(|p|);
    UnframeHead(head, p, tail);
    assert Frame(p) == head + p;
  }

  /** Unframing gives back the payloads of any list of records, in order, and then goes on with the rest. */
  lemma {:induction false} UnframeFrames(payloads: seq<seq<byte>>, rest: seq<byte>)
    requires |FrameAll(payloads) + rest| < TWO32
    ensures Unframe(FrameAll(payloads) + rest) == Prepend(payloads, Unframe(rest))
  {
    if payloads == [] {
      assert FrameAll(payloads) + rest == rest;
    } else {
      var tail := FrameAll(payloads[1..]) + rest;
      assert FrameAll(payloads) + rest == Frame(payloads[0]) + tail;
      UnframeOne(payloads[0], tail);
      UnframeFrames(payloads[1..], rest);
      PrependTwice([payloads[0]], payloads[1..], Unframe(rest));
      assert [payloads[0]] + payloads[1..] == payloads;
    }
  }

  /** Any buffer that unframes is exactly the framing of what came out. */
  lemma {:induction false} UnframedReframes(buf: seq<byte>)
    requires Unframe(buf).Ok?
    ensures FrameAll(Unframe(buf).value) == buf
    decreases |buf|
  {
    if buf != [] {
      var n := GetU32(buf);
      var tail := buf[4 + n..];
      UnframedReframes(tail);
      HeadReframes(buf);
      var out := Unframe(buf).value;
      assert out[0] == buf[4..4 + n] && out[1..] == Unframe(tail).value;
      assert buf == Frame(buf[4..4 + n]) + tail;
    }
  }

  lemma HeadReframes(buf: seq<byte>)
    requires |buf| >= 4 && GetU32(buf) <= |buf| - 4
    ensures Frame(buf[4..4 + GetU32(buf)]) == buf[..4 + GetU32(buf)]
  {
    var head := buf[..4];
    GetThenPut(head);
    assert GetU32(head) == GetU32(buf);
    hide PutU32, GetU32;
    assert buf[..4 + GetU32(buf)] == head + buf[4..4 + GetU32(buf)];
  }

  /** Unframing distributes over concatenation once the first part unframes by itself. */
  lemma UnframeConcat(a: seq<byte>, b: seq<byte>)
    requires |a + b| < TWO32 && Unframe(a).Ok?
    ensures Unframe(a + b) == Prepend(Unframe(a).value, Unframe(b))
  {
    UnframedReframes(a);
    UnframeFrames(Unframe(a).value, b);
  }

  /** A single payload survives framing exactly when its length fits in 32 bits. */
  lemma FrameSurvivesIff(p: seq<byte>)
    ensures Unframe(Frame(p)) == Ok([p]) <==> |p| < TWO32
  {
    if |p| < TWO32 {
      assert Frame(p) + [] == Frame(p);
      UnframeOne(p, []);
      assert [p] + [] == [p];
    } else {
      var buf := Frame(p);
      if StartsWithRecord(buf) {
        var n := GetU32(buf);
        assert |buf[4..4 + n]| == n < |p|;
        if Unframe(buf).Ok? { assert Unframe(buf).value[0] == buf[4..4 + n]; }
      }
    }
  }

  // ---- Decoding ---------------------------------------------------------------------------------

  function Parsed(payload: seq<byte>, codec: Codec): Option<Message> {
    match codec.decode(payload)
    case None => None
    case Some(w) => Some(MessageOf(w))
  }

  /** What a segment's bytes decode to; the first bad record decides the error. */
  function Decoded(buf: seq<byte>, codec: Codec): Result<seq<Message>>
    decreases |buf|
  {
    if buf == [] then Ok([])
    else if !StartsWithRecord(buf) then Err(Truncated)
    else
      var n := GetU32(buf);
      match Parsed(buf[4..4 + n], codec)
      case None => Err(BadJson)
      case Some(m) => Prepend([m], Decoded(buf[4 + n..], codec))
  }

  method DecodeTextRecords(input: seq<byte>, codec: Codec) returns (r: Result<seq<Message>>)
    ensures r == Decoded(input, codec)
  {
    var buf, out := input, [];
    while |buf| > 0
      invariant Decoded(input, codec) == Prepend(out, Decoded(buf, codec))
      decreases |buf|
    {
      if |buf| < 4 {
        return Err(Truncated);
      }
      var n := GetU32(buf[..4]);
      ghost var whole := buf;
      assert n == GetU32(whole);
      buf := buf[4..];
      if |buf| % TWO32 < n {
        assert !StartsWithRecord(whole);
        return Err(Truncated);
      }
      var payload := buf[..n];
      buf := buf[n..];
      assert payload == whole[4..4 + n] && buf == whole[4 + n..];
      match codec.decode(payload)
      case None => return Err(BadJson);
      case Some(w) =>
        PrependTwice(out, [MessageOf(w)], Decoded(buf, codec));
        out := out + [MessageOf(w)];
    }
    assert out + [] == out;
    return Ok(out);
  }

  /** The payloads written for a list of messages. */
  function Payloads(msgs: seq<Message>, codec: Codec): (r: seq<seq<byte>>)
    ensures |r| == |msgs| && forall i :: 0 <= i < |msgs| ==> r[i] == codec.encode(WireOf(msgs[i]))
  {
    seq(|msgs|, i requires 0 <= i < |msgs| => codec.encode(WireOf(msgs[i])))
  }

  function Records(msgs: seq<Message>, codec: Codec): seq<byte> {
    FrameAll(Payloads(msgs, codec))
  }

  lemma RecordsConcat(a: seq<Message>, b: seq<Message>, codec: Codec)
    ensures Records(a + b, codec) == Records(a, codec) + Records(b, codec)
  {
    assert Payloads(a + b, codec) == Payloads(a, codec) + Payloads(b, codec);
    FrameAllConcat(Payloads(a, codec), Payloads(b, codec));
  }

  function Record(m: Message, codec: Codec): seq<byte> {
    Frame(codec.encode(WireOf(m)))
  }

  lemma RecordsOne(m: Message, codec: Codec)
    ensures Records([m], codec) == Record(m, codec)
  {
    assert Payloads([m], codec)[1..] == [];
    assert FrameAll(Payloads([m], codec)) == Frame(Payloads([m], codec)[0]) + FrameAll([]);
  }

  /** Decoding is unframing followed by parsing each payload. */
  lemma {:induction false} DecodedIsUnframed(buf: seq<byte>, codec: Codec)
    ensures Decoded(buf, codec).Ok? <==>
            Unframe(buf).Ok? && forall p :: p in Unframe(buf).value ==> Parsed(p, codec).Some?
    ensures Decoded(buf, codec).Ok? ==>
            && |Decoded(buf, codec).value| == |Unframe(buf).value|
            && forall i :: 0 <= i < |Unframe(buf).value| ==>
                 Parsed(Unframe(buf).value[i], codec) == Some(Decoded(buf, codec).value[i])
    decreases |buf|
  {
    if buf != [] && StartsWithRecord(buf) {
      var n := GetU32(buf);
      DecodedIsUnframed(buf[4 + n..], codec);
      if Unframe(buf).Ok? {
        var out := Unframe(buf).value;
        assert out == [buf[4..4 + n]] + Unframe(buf[4 + n..]).value;
        assert out[0] in out;
        assert out[1..] == Unframe(buf[4 + n..]).value;
      }
    }
  }

  lemma RecordInFront(a: seq<byte>, b: seq<byte>)
    requires StartsWithRecord(a) && |a + b| < TWO32
    ensures var n := GetU32(a);
            && |a| >= 4 + n && StartsWithRecord(a + b) && GetU32(a + b) == n
            && (a + b)[4..4 + n] == a[4..4 + n] && (a + b)[4 + n..] == a[4 + n..] + b
  {
    GetPrefix(a[..4], a[4..] + b);
    GetPrefix(a[..4], a[4..]);
    assert a == a[..4] + a[4..] && a + b == a[..4] + (a[4..] + b);
    hide GetU32;
  }

  lemma FirstRecord(a: seq<byte>, codec: Codec)
    requires a != [] && Decoded(a, codec).Ok?
    ensures StartsWithRecord(a)
    ensures var n := GetU32(a);
            && 4 + n <= |a| && Parsed(a[4..4 + n], codec).Some? && Decoded(a[4 + n..], codec).Ok?
            && Decoded(a, codec).value == [Parsed(a[4..4 + n], codec).value] + Decoded(a[4 + n..], codec).value
  {
    hide Parsed, GetU32;
  }

  lemma DecodedStep(buf: seq<byte>, codec: Codec)
    requires buf != [] && StartsWithRecord(buf) && Parsed(buf[4..4 + GetU32(buf)], codec).Some?
    ensures Decoded(buf, codec) == Prepend([Parsed(buf[4..4 + GetU32(buf)], codec).value], Decoded(buf[4 + GetU32(buf)..], codec))
  {
    hide Parsed, GetU32, Prepend;
  }

  /** Decoding distributes over concatenation once the first part decodes by itself. */
  lemma {:induction false} DecodedConcat(a: seq<byte>, b: seq<byte>, codec: Codec)
    requires |a + b| < TWO32 && Decoded(a, codec).Ok?
    ensures Decoded(a + b, codec) == Prepend(Decoded(a, codec).value, Decoded(b, codec))
    decreases |a|
  {
    if a == [] {
      assert a + b == b;
      hide GetU32, Parsed;
    } else {
      hide Decoded, GetU32, Parsed, StartsWithRecord;
      var n := GetU32(a);
      FirstRecord(a, codec);
      RecordInFront(a, b);
      DecodedStep(a + b, codec);
      DecodedConcat(a[4 + n..], b, codec);
      PrependTwice([Parsed(a[4..4 + n], codec).value], Decoded(a[4 + n..], codec).value, Decoded(b, codec));
    }
  }

  /** The length that is left is compared modulo 2^32: past that a buffer can be refused though it is long enough. */
  lemma LongBuffersWrap(buf: seq<byte>, codec: Codec)
    requires |buf| >= 4
    ensures (|buf| - 4) % 0x1_0000_0000 < GetU32(buf) ==> Decoded(buf, codec) == Err(Truncated)
  {
    hide GetU32;
  }

  /** Which error it is: after records that decode, a record that does not parse is bad JSON, and anything
      that is not a whole record is cut short. */
  lemma DecodeErrors(good: seq<byte>, rest: seq<byte>, codec: Codec)
    requires |good + rest| < TWO32 && Decoded(good, codec).Ok? && rest != []
    ensures !StartsWithRecord(rest) ==> Decoded(good + rest, codec) == Err(Truncated)
    ensures StartsWithRecord(rest) && codec.decode(rest[4..4 + GetU32(rest)]).None? ==> Decoded(good + rest, codec) == Err(BadJson)
    ensures |rest| < 4 ==> Decoded(good + rest, codec) == Err(Truncated)
  {
    DecodedConcat(good, rest, codec);
    hide GetU32;
  }

  /** A record that parses is one message with the fields it names; time zero is no time. */
  lemma RecordIsRead(payload: seq<byte>, w: Wire, codec: Codec)
    requires |payload| < TWO32 && codec.decode(payload) == Some(w)
    ensures var r := Decoded(Frame(payload), codec);
            && r.Ok? && |r.value| == 1
            && var m := r.value[0];
               && m.account == w.account && m.talker == w.talker && m.id == w.id && m.seqNo == w.seqNo && m.typ == w.typ
               && m.isSend == w.isSend && m.text == w.text && m.xml == w.xml && m.extra == w.extra
               && m.time == if w.ms == 0 then ZERO_TIME else w.ms * 1_000_000
  {
    FrameSurvivesIff(payload);
    DecodedIsUnframed(Frame(payload), codec);
    hide Frame, Unframe;
  }

  /** The bytes written for a list of messages decode to those messages, cut to the millisecond. */
  lemma RecordsDecode(msgs: seq<Message>, codec: Codec)
    requires Faithful(codec, msgs) && |Records(msgs, codec)| < TWO32
    ensures Decoded(Records(msgs, codec), codec) == Ok(NormalisedAll(msgs))
  {
    var ps := Payloads(msgs, codec);
    UnframeFrames(ps, []);
    assert FrameAll(ps) + [] == FrameAll(ps) && ps + [] == ps;
    DecodedIsUnframed(FrameAll(ps), codec);
    forall i | 0 <= i < |msgs| ensures Parsed(ps[i], codec) == Some(Normalised(msgs[i])) {
      assert msgs[i] in msgs;
    }
    assert Decoded(FrameAll(ps), codec).value == NormalisedAll(msgs);
  }
}
