/** The opaque cursor of the message API: decimal numbers and an id, in URL-safe base64. */
module PageToken {
  import opened Domain
  import opened Decimals
  import opened Order
  import opened Store
  import opened Paging

  const RETURN: byte := 13
  const UNDERSCORE: byte := 95

  // ---- The limit --------------------------------------------------------------------------------

  /** The limit parameter, spaces already trimmed. */
  function ParseLimit(raw: seq<byte>): Result<int> {
    if raw == [] then Ok(DEFAULT_LIMIT)
    else
      match ParseInt(raw)
      case Err(e) => Err(e)
      case Ok(n) => EffectiveLimit(n)
  }

  /** Whatever the text, an accepted limit lies between one and the largest; every such limit can be
      asked for, and a number beyond 64 bits is refused rather than cut. */
  lemma LimitsAccepted(raw: seq<byte>, n: int)
    ensures ParseLimit(raw).Ok? ==> 1 <= ParseLimit(raw).value <= MAX_LIMIT
    ensures 1 <= n <= MAX_LIMIT ==> ParseLimit(FormatInt(n)) == Ok(n)
    ensures !Int64(n) || n < 0 ==> ParseLimit(FormatInt(n)).Err?
  {
    NumbersRoundTrip(n);
  }

  /** No text and the number zero ask for fifty messages; whatever is above a thousand asks for a thousand. */
  lemma LimitsMean(n: int)
    ensures ParseLimit([]) == Ok(50) && ParseLimit(FormatInt(0)) == Ok(50)
    ensures Int64(n) && n > 1000 ==> ParseLimit(FormatInt(n)) == Ok(1000)
    ensures 1 <= n <= 1000 ==> ParseLimit(FormatInt(n)) == Ok(n)
  {
    NumbersRoundTrip(n);
    NumbersRoundTrip(0);
  }

  // ---- Base64, the URL and filename safe alphabet, unpadded -------------------------------------

  type sextet = x: int | 0 <= x < 64

  function Letter(v: sextet): byte {
    if v < 26 then 65 + v
    else if v < 52 then 97 + (v - 26)
    else if v < 62 then ZERO + (v - 52)
    else if v == 62 then MINUS
    else UNDERSCORE
  }

  function Sextet(c: byte): Option<sextet> {
    if 65 <= c < 91 then Some(c - 65)
    else if 97 <= c < 123 then Some(c - 97 + 26)
    else if ZERO <= c < ZERO + 10 then Some(c - ZERO + 52)
    else if c == MINUS then Some(62)
    else if c == UNDERSCORE then Some(63)
    else None
  }

  /** The alphabet of Table 2 in section 5 of RFC 4648: capitals, small letters, digits, minus, underscore. */
  lemma LettersAreStandard(v: sextet)
    ensures Letter(0) == 'A' as int && Letter(25) == 'Z' as int && Letter(26) == 'a' as int && Letter(51) == 'z' as int
    ensures Letter(52) == '0' as int && Letter(61) == '9' as int && Letter(62) == '-' as int && Letter(63) == '_' as int
    ensures v < 61 && v != 25 && v != 51 ==> Letter(v + 1) == Letter(v) + 1
  {
  }

  lemma LettersDecode(v: sextet)
    ensures Sextet(Letter(v)) == Some(v)
    ensures Letter(v) != NEWLINE && Letter(v) != RETURN
  {
  }

  // Three bytes x, y, z are four letters: High(x), Across(x, y), Along(y, z), Low(z).

  function High(x: byte): sextet { x / 4 }

  function Across(x: byte, y: byte): sextet { x % 4 * 16 + y / 16 }

  function Along(y: byte, z: byte): sextet { y % 16 * 4 + z / 64 }

  function Low(z: byte): sextet { z % 64 }

  function First(p: sextet, q: sextet): byte { p * 4 + q / 16 }

  function Second(q: sextet, r: sextet): byte { q % 16 * 16 + r / 4 }

  function Third(r: sextet, s: sextet): byte { r % 4 * 64 + s }

  lemma BitsRejoin(x: byte, y: byte, z: byte)
    ensures First(High(x), Across(x, y)) == x
    ensures Second(Across(x, y), Along(y, z)) == y
    ensures Third(Along(y, z), Low(z)) == z
  {
  }

  function Encode64(b: seq<byte>): seq<byte> {
    if b == [] then []
    else if |b| == 1 then [Letter(High(b[0])), Letter(Across(b[0], 0))]
    else if |b| == 2 then [Letter(High(b[0])), Letter(Across(b[0], b[1])), Letter(Along(b[1], 0))]
    else [Letter(High(b[0])), Letter(Across(b[0], b[1])), Letter(Along(b[1], b[2])), Letter(Low(b[2]))] + Encode64(b[3..])
  }

  /** The decoder skips line breaks wherever they stand. */
  function Stripped(s: seq<byte>): seq<byte> {
    if s == [] then []
    else (if s[0] == NEWLINE || s[0] == RETURN then [] else [s[0]]) + Stripped(s[1..])
  }

  /** Bits left over in the last letter are not looked at. */
  function DecodeLetters(s: seq<byte>): Result<seq<byte>> {
    if s == [] then Ok([])
    else if |s| == 1 then Err(BadCursor)
    else
      var x, y := Sextet(s[0]), Sextet(s[1]);
      if x.None? || y.None? then Err(BadCursor)
      else if |s| == 2 then Ok([First(x.value, y.value)])
      else
        var z := Sextet(s[2]);
        if z.None? then Err(BadCursor)
        else if |s| == 3 then Ok([First(x.value, y.value), Second(y.value, z.value)])
        else
          var w := Sextet(s[3]);
          if w.None? then Err(BadCursor)
          else
            match DecodeLetters(s[4..])
            case Err(e) => Err(e)
            case Ok(rest) =>
              Ok([First(x.value, y.value), Second(y.value, z.value), Third(z.value, w.value)] + rest)
  }

  function Decode64(s: seq<byte>): Result<seq<byte>> {
    DecodeLetters(Stripped(s))
  }

  ghost predicate AllLetters(s: seq<byte>) {
    forall i :: 0 <= i < |s| ==> Sextet(s[i]).Some?
  }

  lemma {:induction false} NothingToStrip(s: seq<byte>)
    requires forall i :: 0 <= i < |s| ==> s[i] != NEWLINE && s[i] != RETURN
    ensures Stripped(s) == s
  {
    if s != [] {
      NothingToStrip(s[1..]);
      assert s == [s[0]] + s[1..];
    }
  }

  lemma {:induction false} StrippedConcat(a: seq<byte>, b: seq<byte>)
    ensures Stripped(a + b) == Stripped(a) + Stripped(b)
  {
    if a == [] {
      assert a + b == b;
    } else {
      assert (a + b)[1..] == a[1..] + b;
      StrippedConcat(a[1..], b);
    }
  }

  /** Line breaks anywhere in a token are skipped. */
  lemma LineBreaksAreSkipped(a: seq<byte>, b: seq<byte>)
    ensures Decode64(a + ['\n' as int] + b) == Decode64(a + b)
    ensures Decode64(a + ['\r' as int] + b) == Decode64(a + b)
  {
    forall c | c == NEWLINE || c == RETURN ensures Stripped(a + [c] + b) == Stripped(a + b) {
      assert a + [c] + b == a + ([c] + b) && ([c] + b)[1..] == b;
      StrippedConcat(a, [c] + b);
      StrippedConcat(a, b);
      assert [] + Stripped(b) == Stripped(b);
    }
    hide DecodeLetters;
  }

  lemma {:induction false} EncodedLetters(b: seq<byte>)
    ensures AllLetters(Encode64(b))
    decreases |b|
  {
    hide Sextet, Letter, High, Across, Along, Low;
    forall v: sextet ensures Sextet(Letter(v)).Some? { LettersDecode(v); }
    if |b| >= 3 {
      EncodedLetters(b[3..]);
    }
  }

  lemma NothingDecodes()
    ensures DecodeLetters([]) == Ok([])
  {
  }

  lemma DecodeTwo(a: byte, b: byte, p: sextet, q: sextet)
    requires Sextet(a) == Some(p) && Sextet(b) == Some(q)
    ensures DecodeLetters([a, b]) == Ok([First(p, q)])
  {
    hide Sextet, First;
  }

  lemma DecodeThree(a: byte, b: byte, c: byte, p: sextet, q: sextet, r: sextet)
    requires Sextet(a) == Some(p) && Sextet(b) == Some(q) && Sextet(c) == Some(r)
    ensures DecodeLetters([a, b, c]) == Ok([First(p, q), Second(q, r)])
  {
    hide Sextet, First, Second;
  }

  lemma DecodeFour(a: byte, b: byte, c: byte, d: byte, p: sextet, q: sextet, r: sextet, s: sextet, rest: seq<byte>)
    requires Sextet(a) == Some(p) && Sextet(b) == Some(q) && Sextet(c) == Some(r) && Sextet(d) == Some(s)
    ensures DecodeLetters(rest).Ok? ==>
              DecodeLetters([a, b, c, d] + rest) == Ok([First(p, q), Second(q, r), Third(r, s)] + DecodeLetters(rest).value)
  {
    hide Sextet, First, Second, Third;
    assert ([a, b, c, d] + rest)[4..] == rest;
  }

  lemma TwoLetters(x: byte)
    ensures DecodeLetters([Letter(High(x)), Letter(Across(x, 0))]) == Ok([x])
  {
    hide *;
    LettersDecode(High(x));
    LettersDecode(Across(x, 0));
    BitsRejoin(x, 0, 0);
    DecodeTwo(Letter(High(x)), Letter(Across(x, 0)), High(x), Across(x, 0));
  }

  lemma ThreeLetters(x: byte, y: byte)
    ensures DecodeLetters([Letter(High(x)), Letter(Across(x, y)), Letter(Along(y, 0))]) == Ok([x, y])
  {
    hide *;
    LettersDecode(High(x));
    LettersDecode(Across(x, y));
    LettersDecode(Along(y, 0));
    BitsRejoin(x, y, 0);
    DecodeThree(Letter(High(x)), Letter(Across(x, y)), Letter(Along(y, 0)), High(x), Across(x, y), Along(y, 0));
  }

  lemma FourLetters(x: byte, y: byte, z: byte, s: seq<byte>)
    ensures var four := [Letter(High(x)), Letter(Across(x, y)), Letter(Along(y, z)), Letter(Low(z))];
            DecodeLetters(s).Ok? ==> DecodeLetters(four + s) == Ok([x, y, z] + DecodeLetters(s).value)
  {
    hide *;
    LettersDecode(High(x));
    LettersDecode(Across(x, y));
    LettersDecode(Along(y, z));
    LettersDecode(Low(z));
    BitsRejoin(x, y, z);
    DecodeFour(Letter(High(x)), Letter(Across(x, y)), Letter(Along(y, z)), Letter(Low(z)),
               High(x), Across(x, y), Along(y, z), Low(z), s);
  }

  lemma {:induction false} LettersRoundTrip(b: seq<byte>)
    ensures DecodeLetters(Encode64(b)) == Ok(b)
    decreases |b|
  {
    hide DecodeLetters, Letter, High, Across, Along, Low;
    NothingDecodes();
    if |b| == 1 {
      TwoLetters(b[0]);
      assert b == [b[0]];
    } else if |b| == 2 {
      ThreeLetters(b[0], b[1]);
      assert b == [b[0], b[1]];
    } else if |b| >= 3 {
      LettersRoundTrip(b[3..]);
      FourLetters(b[0], b[1], b[2], Encode64(b[3..]));
      assert b == [b[0], b[1], b[2]] + b[3..];
    }
  }

  /** Every byte string survives, and its encoding has no byte that a URL or a trim would change. */
  lemma Base64RoundTrip(b: seq<byte>)
    ensures Decode64(Encode64(b)) == Ok(b)
    ensures AllLetters(Encode64(b))
  {
    EncodedLetters(b);
    LettersRoundTrip(b);
    forall i | 0 <= i < |Encode64(b)| ensures Encode64(b)[i] != NEWLINE && Encode64(b)[i] != RETURN {
      assert Sextet(Encode64(b)[i]).Some?;
    }
    NothingToStrip(Encode64(b));
  }

  lemma FirstFour(s: seq<byte>)
    requires |s| >= 4
    ensures AllLetters(s) <==>
              && Sextet(s[0]).Some? && Sextet(s[1]).Some? && Sextet(s[2]).Some? && Sextet(s[3]).Some? && AllLetters(s[4..])
  {
    forall i | 0 <= i < |s| ensures Sextet(s[i]).Some? <==> (if i < 4 then Sextet(s[i]).Some? else Sextet(s[4..][i - 4]).Some?) {
    }
  }

  /** Exactly the texts that are all letters, and not one letter too long, decode. */
  lemma {:induction false} DecodesIff(s: seq<byte>)
    ensures DecodeLetters(s).Ok? <==> AllLetters(s) && |s| % 4 != 1
    decreases |s|
  {
    if |s| >= 4 {
      hide AllLetters, Sextet, First, Second, Third;
      DecodesIff(s[4..]);
      FirstFour(s);
    } else {
      hide Sextet, First, Second, Third;
    }
  }

  // ---- The cursor -------------------------------------------------------------------------------

  /** A cursor as the client sees it: milliseconds, sequence number, and the bytes of an id. */
  datatype Before = Before(ms: int, seqNo: int, id: seq<byte>)

  function RawCursor(c: Before): seq<byte> {
    FormatInt(c.ms) + [NEWLINE] + FormatInt(c.seqNo) + [NEWLINE] + c.id
  }

  function EncodeBefore(c: Before): seq<byte> {
    Encode64(RawCursor(c))
  }

  /** What stands before and after the first line break. */
  function CutLine(s: seq<byte>): Option<(seq<byte>, seq<byte>)> {
    if s == [] then None
    else if s[0] == NEWLINE then Some(([], s[1..]))
    else
      match CutLine(s[1..])
      case None => None
      case Some((line, rest)) => Some(([s[0]] + line, rest))
  }

  function ParseCursor(raw: seq<byte>): Result<Before> {
    match CutLine(raw)
    case None => Err(BadCursor)
    case Some((first, rest)) =>
      match CutLine(rest)
      case None => Err(BadCursor)
      case Some((second, id)) =>
        if id == [] then Err(BadCursor)
        else
          match ParseInt(first)
          case Err(e) => Err(e)
          case Ok(ms) =>
            match ParseInt(second)
            case Err(e) => Err(e)
            case Ok(seqNo) => Ok(Before(ms, seqNo, id))
  }

  function DecodeBefore(token: seq<byte>): Result<Before> {
    match Decode64(token)
    case Err(e) => Err(e)
    case Ok(raw) => ParseCursor(raw)
  }

  lemma {:induction false} CutAtNewline(line: seq<byte>, rest: seq<byte>)
    requires NEWLINE !in line
    ensures CutLine(line + [NEWLINE] + rest) == Some((line, rest))
  {
    var s := line + [NEWLINE] + rest;
    if line == [] {
      assert s[1..] == rest;
    } else {
      assert s[1..] == line[1..] + [NEWLINE] + rest;
      CutAtNewline(line[1..], rest);
      assert line == [line[0]] + line[1..];
    }
  }

  /** A token decodes to the cursor it was made from exactly when both numbers fit 64 bits and the id is
      not empty, whatever bytes the id has, line breaks included. */
  lemma TokenRoundTripIff(c: Before)
    ensures DecodeBefore(EncodeBefore(c)) == Ok(c) <==> Int64(c.ms) && Int64(c.seqNo) && c.id != []
    ensures DecodeBefore(EncodeBefore(c)).Ok? ==> DecodeBefore(EncodeBefore(c)) == Ok(c)
  {
    Base64RoundTrip(RawCursor(c));
    NumbersRoundTrip(c.ms);
    NumbersRoundTrip(c.seqNo);
    var rest := FormatInt(c.seqNo) + [NEWLINE] + c.id;
    assert RawCursor(c) == FormatInt(c.ms) + [NEWLINE] + rest;
    hide Decode64, Encode64, FormatInt, ParseInt, Int64, AllLetters;
    CutAtNewline(FormatInt(c.ms), rest);
    CutAtNewline(FormatInt(c.seqNo), c.id);
  }

  /** A token is the text of the milliseconds, the sequence number and the id, one below the other. */
  lemma TokenText(ms: int, seqNo: int, id: seq<byte>)
    requires Int64(ms) && Int64(seqNo) && id != []
    ensures DecodeBefore(Encode64(FormatInt(ms) + [NEWLINE] + FormatInt(seqNo) + [NEWLINE] + id)) == Ok(Before(ms, seqNo, id))
  {
    TokenRoundTripIff(Before(ms, seqNo, id));
    hide Encode64, FormatInt, DecodeBefore;
  }

  // ---- The walk, through tokens -----------------------------------------------------------------

  /** The number of milliseconds of an instant, with no special case for absent. */
  function UnixMilli(t: Time): int {
    t / NS_PER_MS
  }

  function TokenFor(c: MessageCursor): seq<byte>
    requires IsBytes(c.id)
  {
    EncodeBefore(Before(UnixMilli(c.time), c.seqNo, BytesOf(c.id)))
  }

  function CursorFor(token: seq<byte>): Result<MessageCursor> {
    match DecodeBefore(token)
    case Err(e) => Err(e)
    case Ok(b) => Ok(MessageCursor(RowTime(b.ms), b.seqNo, StringOf(b.id)))
  }

  /** Handing a listed message's cursor to the client and taking it back bounds the next page exactly
      where the walk continues. */
  lemma TokenContinuesWalk(account: string, talker: string, k: Key, row: Row)
    requires k == RowKey(k.id, row) && k.id != "" && IsBytes(k.id) && Int64(k.time) && Int64(k.seqNo)
    ensures var c := CursorFor(TokenFor(CursorFromMessage(MessageAt(account, talker, k.id, row))));
            c == Ok(CursorFromMessage(MessageAt(account, talker, k.id, row))) && BoundOf(c.value) == BoundAfter(k)
  {
    var b := Before(k.time, k.seqNo, BytesOf(k.id));
    TokenRoundTripIff(b);
    assert StringOf(BytesOf(k.id)) == k.id;
    hide EncodeBefore, DecodeBefore;
    assert UnixMilli(RowTime(k.time)) == k.time;
  }

  // ---- The handler ------------------------------------------------------------------------------

  datatype Body = Body(messages: seq<Message>, next: Option<seq<byte>>)

  /** What the columns of a row can hold. */
  ghost predicate Storable(rows: map<string, Row>) {
    forall id :: id in rows ==> id != "" && IsBytes(id) && Int64(rows[id].ms) && Int64(rows[id].seqNo)
  }

  /** The bound a request asks for; no text asks for the newest page. */
  function BoundFor(before: seq<byte>): Option<Key>
    requires before != [] ==> CursorFor(before).Ok?
  {
    if before == [] then None else Some(BoundOf(CursorFor(before).value))
  }

  lemma PageListed(account: string, messages: map<MsgKey, Row>, talker: string, before: Option<MessageCursor>, limit: int)
    requires talker != "" && limit >= 1
    ensures var rows := RowsOf(messages, talker);
            var bound := if before.None? then None else Some(BoundOf(before.value));
            var got := PageKeys(KeysOf(rows), bound, limit + 1);
            && (forall k :: k in got ==> k.id in rows && k == RowKey(k.id, rows[k.id]))
            && ListMessages(account, messages, talker, before, limit + 1) == Ok(MessagesAt(account, talker, rows, got))
  {
    var rows := RowsOf(messages, talker);
    var bound := if before.None? then None else Some(BoundOf(before.value));
    PageWithin(KeysOf(rows), bound, limit + 1);
    hide PageKeys, RowsOf;
  }

  lemma NoTokenIsEmpty()
    ensures CursorFor([]).Err?
  {
    assert CutLine([]).None?;
  }

  lemma PageIsCut(keys: set<Key>, before: Option<Key>, limit: int)
    requires limit >= 1
    ensures var got := PageKeys(keys, before, limit + 1);
            PageOf(keys, before, limit) == if |got| > limit then ApiPage(got[..limit], Some(BoundAfter(got[limit - 1]))) else ApiPage(got, None)
  {
  }

  /** The token made from a listed message bounds the next page there. */
  lemma NextToken(account: string, talker: string, rows: map<string, Row>, k: Key)
    requires Storable(rows) && k.id in rows && k == RowKey(k.id, rows[k.id])
    ensures var m := MessageAt(account, talker, k.id, rows[k.id]);
            && IsBytes(CursorFromMessage(m).id)
            && CursorFor(TokenFor(CursorFromMessage(m))).Ok?
            && BoundFor(TokenFor(CursorFromMessage(m))) == Some(BoundAfter(k))
  {
    hide CursorFor, TokenFor, BoundOf, BoundAfter, IsBytes, Int64;
    TokenContinuesWalk(account, talker, k, rows[k.id]);
    NoTokenIsEmpty();
  }

  /** Lists one message more than asked for; only if it is there the page is cut and a token handed out. */
  method AnswerPage(account: string, messages: map<MsgKey, Row>, talker: string, before: Option<MessageCursor>, limit: int)
    returns (body: Body)
    requires talker != "" && limit >= 1 && Storable(RowsOf(messages, talker))
    ensures var rows := RowsOf(messages, talker);
            var page := PageOf(KeysOf(rows), if before.None? then None else Some(BoundOf(before.value)), limit);
            && (forall k :: k in page.keys ==> k.id in rows)
            && body.messages == MessagesAt(account, talker, rows, page.keys)
            && (body.next.Some? <==> page.next.Some?)
            && (body.next.Some? ==> CursorFor(body.next.value).Ok? && BoundFor(body.next.value) == page.next)
  {
    hide *;
    ghost var rows := RowsOf(messages, talker);
    ghost var bound := if before.None? then None else Some(BoundOf(before.value));
    ghost var got := PageKeys(KeysOf(rows), bound, limit + 1);
    PageListed(account, messages, talker, before, limit);
    PageIsCut(KeysOf(rows), bound, limit);
    var msgs := ListMessages(account, messages, talker, before, limit + 1).value;
    if |msgs| <= limit {
      return Body(msgs, None);
    }
    msgs := msgs[..limit];
    assert got[limit - 1] in got;
    MessagesAtSlice(account, talker, rows, got, 0, limit);
    assert got[0..limit] == got[..limit];
    NextToken(account, talker, rows, got[limit - 1]);
    return Body(msgs, Some(TokenFor(CursorFromMessage(msgs[|msgs| - 1]))));
  }

  /** As many messages as there are below the bound, up to the limit, and a token exactly if there are more. */
  ghost predicate Served(body: Body, limit: int, left: set<Key>) {
    && |body.messages| == (if |left| <= limit then |left| else limit)
    && (body.next.Some? <==> |left| > limit)
  }

  /** The text asks for so many messages: no text for fifty, and otherwise what the number says. */
  predicate AsksFor(text: seq<byte>, n: nat) {
    (text == [] && n == 50) || (1 <= n < 1000 && text == FormatInt(n))
  }

  lemma PageServes(body: Body, keys: set<Key>, before: Option<Key>, limit: int)
    requires limit >= 1
    requires var page := PageOf(keys, before, limit); |body.messages| == |page.keys| && (body.next.Some? <==> page.next.Some?)
    ensures limit < 1000 ==> Served(body, limit, Below(keys, before))
  {
    PageIs(keys, before, limit);
    hide PageOf, Below, Newest;
  }

  /** Answers a request for a page of messages. The messages are those of the page, and the token that is
      handed out bounds the next page where this one ends. */
  method HandleMessages(account: string, messages: map<MsgKey, Row>, conversations: map<string, ConvRow>, talker: string,
                        limitText: seq<byte>, before: seq<byte>) returns (r: Result<Body>)
    requires Storable(RowsOf(messages, talker))
    ensures r.Ok? <==> talker != "" && talker in conversations && ParseLimit(limitText).Ok? && (before != [] ==> CursorFor(before).Ok?)
    ensures r.Ok? ==>
              var rows := RowsOf(messages, talker);
              var page := PageOf(KeysOf(rows), BoundFor(before), ParseLimit(limitText).value);
              && (forall k :: k in page.keys ==> k.id in rows)
              && r.value.messages == MessagesAt(account, talker, rows, page.keys)
              && (r.value.next.Some? <==> page.next.Some?)
              && (r.value.next.Some? ==>
                    CursorFor(r.value.next.value).Ok? && BoundFor(r.value.next.value) == page.next)
    ensures r.Ok? ==> forall n: nat :: AsksFor(limitText, n) ==>
              Served(r.value, n, Below(KeysOf(RowsOf(messages, talker)), BoundFor(before)))
    ensures talker == "" ==> r == Err(InvalidArgument)
    ensures talker != "" && talker !in conversations ==> r == Err(NotFound)
    ensures r == Err(BadCursor) <==> talker != "" && talker in conversations && ParseLimit(limitText).Ok? && before != [] && CursorFor(before).Err?
  {
    forall n: nat | AsksFor(limitText, n) ensures n < 1000 && ParseLimit(limitText) == Ok(n) {
      LimitsMean(n);
    }
    hide PageOf, RowsOf, KeysOf, Storable, CursorFor, ParseLimit, BoundOf, Below, AsksFor, Served;
    if talker == "" {
      return Err(InvalidArgument);
    }
    if talker !in conversations {
      return Err(NotFound);
    }
    var limit := ParseLimit(limitText);
    if limit.Err? {
      return Err(InvalidArgument);
    }
    LimitsAccepted(limitText, 0);
    var bound: Option<MessageCursor> := None;
    if before != [] {
      var cursor := CursorFor(before);
      if cursor.Err? {
        return Err(BadCursor);
      }
      bound := Some(cursor.value);
    }
    var body := AnswerPage(account, messages, talker, bound, limit.value);
    PageServes(body, KeysOf(RowsOf(messages, talker)), BoundFor(before), limit.value);
    return Ok(body);
  }
}
