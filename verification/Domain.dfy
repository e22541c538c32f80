/** The values the backup pipeline moves around: timestamps, messages, conversations, media and cursors. */
module Domain {

  datatype Option<+T> = None | Some(value: T)

  datatype Error =
    | InvalidArgument   // an empty id, an invalid kind
    | MissingFile       // a media path that cannot be read
    | NotPackage        // no backup index in the directory
    | NeedsKey          // unreadable without a session key
    | Truncated         // a text record cut short
    | BadJson
    | SegmentTooLong
    | UnknownSession
    | NotFound
    | BadCursor

  datatype Result<+T> = Ok(value: T) | Err(error: Error)

  type byte = x: int | 0 <= x < 256

  // ---- Timestamps -------------------------------------------------------------------------------

  /** An instant in nanoseconds since the Unix epoch. */
  type Time = int

  const NS_PER_MS := 1_000_000

  /** The zero value of an instant, 0001-01-01T00:00:00Z, which means "absent". */
  const ZERO_MS := -62_135_596_800_000
  const ZERO_TIME: Time := ZERO_MS * NS_PER_MS

  /** The column value of an instant: absent is stored as 0, everything else rounds down to a millisecond. */
  function ToMillis(t: Time): int {
    if t == ZERO_TIME then 0 else t / NS_PER_MS
  }

  /** Reads a column in which 0 means absent (cursors, conversations, package records). */
  function FromMillis(ms: int): Time {
    if ms == 0 then ZERO_TIME else ms * NS_PER_MS
  }

  /** Reads the message column, in which 0 is the epoch itself. */
  function RowTime(ms: int): Time {
    ms * NS_PER_MS
  }

  function Later(a: Time, b: Time): Time {
    if a > b then a else b
  }

  /** The instants that survive a trip through a column in which 0 means absent. */
  predicate Normal(t: Time) {
    FromMillis(ToMillis(t)) == t
  }

  // ---- Entities ---------------------------------------------------------------------------------

  datatype ConversationKind = Friend | Group | OfficialAccount | Wecom | OtherKind(name: string) {
    predicate Valid() { !OtherKind? }
  }

  datatype MediaKind = Image | Video | Voice | File | OtherMedia | UnknownMedia(name: string) {
    predicate Valid() { !UnknownMedia? }
  }

  datatype Message = Message(
    account: string, talker: string, id: string, seqNo: int, typ: int, isSend: bool,
    time: Time, text: string, xml: string, extra: string)

  datatype Conversation = Conversation(
    account: string, talker: string, kind: ConversationKind, displayName: string, avatar: string,
    lastMsgTime: Time, msgCount: int)

  datatype MediaObject = MediaObject(
    account: string, id: string, kind: MediaKind, sha256: string, path: string, size: int, available: bool)

  datatype Cursor = Cursor(
    account: string, talker: string, lastEnd: Time, segmentMeta: string, received: int, total: int)

  datatype Mode = Full | Incremental | Resume

  datatype Snapshot = Snapshot(
    account: string, wxid: string, conversations: seq<Conversation>, messages: seq<Message>,
    media: seq<MediaObject>, blobs: map<string, seq<byte>>)

  function FirstNonEmpty(a: string, b: string): string {
    if a != "" then a else b
  }

  /** The messages of one talker, in order. */
  function OfTalker(msgs: seq<Message>, talker: string): seq<Message> {
    if msgs == [] then []
    else (if msgs[0].talker == talker then [msgs[0]] else []) + OfTalker(msgs[1..], talker)
  }

  lemma {:induction false} OfTalkerConcat(a: seq<Message>, b: seq<Message>, talker: string)
    ensures OfTalker(a + b, talker) == OfTalker(a, talker) + OfTalker(b, talker)
  {
    if a == [] {
      assert a + b == b;
    } else {
      assert (a + b)[1..] == a[1..] + b && (a + b)[0] == a[0];
      OfTalkerConcat(a[1..], b, talker);
      var first := if a[0].talker == talker then [a[0]] else [];
      assert first + (OfTalker(a[1..], talker) + OfTalker(b, talker)) == first + OfTalker(a[1..], talker) + OfTalker(b, talker);
    }
  }

  lemma {:induction false} OfTalkerMembers(msgs: seq<Message>, talker: string)
    ensures forall m :: m in OfTalker(msgs, talker) <==> m in msgs && m.talker == talker
  {
    if msgs != [] {
      OfTalkerMembers(msgs[1..], talker);
      assert msgs == [msgs[0]] + msgs[1..];
    }
  }

  lemma {:induction false} OfTalkerNone(msgs: seq<Message>, talker: string)
    requires forall m :: m in msgs ==> m.talker != talker
    ensures OfTalker(msgs, talker) == []
  {
    if msgs != [] {
      assert msgs[0] in msgs;
      OfTalkerNone(msgs[1..], talker);
    }
  }

  /** A talker's own messages are all kept; another talker's are all dropped. */
  lemma {:induction false} OfTalkerUniform(msgs: seq<Message>, owner: string, talker: string)
    requires forall m :: m in msgs ==> m.talker == owner
    ensures OfTalker(msgs, talker) == if talker == owner then msgs else []
  {
    if msgs != [] {
      assert msgs[0] in msgs;
      OfTalkerUniform(msgs[1..], owner, talker);
      assert msgs == [msgs[0]] + msgs[1..];
    }
  }

  /** The conversations of one talker, in order. */
  function ConvsOf(convs: seq<Conversation>, talker: string): seq<Conversation> {
    if convs == [] then []
    else (if convs[0].talker == talker then [convs[0]] else []) + ConvsOf(convs[1..], talker)
  }

  lemma {:induction false} ConvsOfConcat(a: seq<Conversation>, b: seq<Conversation>, talker: string)
    ensures ConvsOf(a + b, talker) == ConvsOf(a, talker) + ConvsOf(b, talker)
  {
    if a == [] {
      assert a + b == b;
    } else {
      assert (a + b)[1..] == a[1..] + b && (a + b)[0] == a[0];
      ConvsOfConcat(a[1..], b, talker);
      var first := if a[0].talker == talker then [a[0]] else [];
      assert first + (ConvsOf(a[1..], talker) + ConvsOf(b, talker)) == first + ConvsOf(a[1..], talker) + ConvsOf(b, talker);
    }
  }

  // ---- Facts about timestamps -------------------------------------------------------------------

  /** Reading a column gives an instant that is written back unchanged, except for the two instants
      whose column value collides with "absent". */
  lemma ColumnRoundTrip(ms: int)
    ensures ToMillis(FromMillis(ms)) == ms <==> ms != ZERO_MS
    ensures ToMillis(RowTime(ms)) == ms <==> ms != ZERO_MS
    ensures Normal(FromMillis(ms))
    ensures FromMillis(ms) != RowTime(0)
  {
  }

  /** A column is normalised by one trip: a second trip changes nothing. */
  lemma NormalisesOnce(t: Time)
    ensures Normal(FromMillis(ToMillis(t)))
    ensures Normal(t) ==> ToMillis(t) != ZERO_MS && t != RowTime(0)
  {
  }

  /** When the later of a caller's instant and a row's instant is stored, storing again the later of the
      stored value and the same row's instant changes nothing, except in exactly two families: the stored
      instant falls in the epoch's millisecond (stored as "absent") while the row is older than the epoch
      yet newer than the zero instant, or it falls within a millisecond after the zero instant. */
  lemma StoredLaterIsStable(base: Time, rowMs: int)
    ensures var m := Later(base, RowTime(rowMs));
            ToMillis(Later(FromMillis(ToMillis(m)), RowTime(rowMs))) == ToMillis(m)
            <==> !(0 <= m < NS_PER_MS && ZERO_MS < rowMs < 0) && !(ZERO_TIME < m < ZERO_TIME + NS_PER_MS)
  {
    var m := Later(base, RowTime(rowMs));
    assert RowTime(rowMs) <= m;
    if 0 <= m < NS_PER_MS {
      assert ToMillis(m) == 0;
      assert rowMs <= 0;
    } else if ZERO_TIME <= m < ZERO_TIME + NS_PER_MS {
      assert rowMs <= ZERO_MS;
    } else {
      var e := m / NS_PER_MS;
      assert e * NS_PER_MS <= m < e * NS_PER_MS + NS_PER_MS;
      assert e != 0 && ToMillis(m) == e;
      assert rowMs <= e;
    }
  }
}
