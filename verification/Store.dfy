/** One account's canonical tables, and the newest-first listing of a talker's messages. */
module Store {
  import opened Domain
  import opened Order

  const DEFAULT_PAGE := 50
  const MAX_PAGE := 1000

  datatype MsgKey = MsgKey(talker: string, id: string)

  datatype Row = Row(seqNo: int, typ: int, isSend: bool, ms: int, text: string, xml: string, extra: string)

  datatype ConvRow = ConvRow(kind: ConversationKind, displayName: string, avatar: string, lastMs: int, msgCount: int)

  datatype CursorRow = CursorRow(endMs: int, segmentMeta: string, received: int, total: int)

  datatype Tables = Tables(
    messages: map<MsgKey, Row>, conversations: map<string, ConvRow>, cursors: map<string, CursorRow>)

  const EMPTY_TABLES := Tables(map[], map[], map[])

  // ---- Rows and entities ------------------------------------------------------------------------

  function RowOf(m: Message): Row {
    Row(m.seqNo, m.typ, m.isSend, ToMillis(m.time), m.text, m.xml, m.extra)
  }

  function MessageAt(account: string, talker: string, id: string, row: Row): Message {
    Message(account, talker, id, row.seqNo, row.typ, row.isSend, RowTime(row.ms), row.text, row.xml, row.extra)
  }

  function ConvRowOf(c: Conversation): ConvRow {
    ConvRow(c.kind, c.displayName, c.avatar, ToMillis(c.lastMsgTime), c.msgCount)
  }

  function ConversationAt(account: string, talker: string, row: ConvRow): Conversation {
    Conversation(account, talker, row.kind, row.displayName, row.avatar, FromMillis(row.lastMs), row.msgCount)
  }

  function CursorRowOf(c: Cursor): CursorRow {
    CursorRow(ToMillis(c.lastEnd), c.segmentMeta, c.received, c.total)
  }

  function CursorAt(account: string, talker: string, row: CursorRow): Cursor {
    Cursor(account, talker, FromMillis(row.endMs), row.segmentMeta, row.received, row.total)
  }

  // ---- One talker's rows ------------------------------------------------------------------------

  function IdsOf(messages: map<MsgKey, Row>, talker: string): set<string> {
    set k | k in messages && k.talker == talker :: k.id
  }

  function RowsOf(messages: map<MsgKey, Row>, talker: string): (r: map<string, Row>)
    ensures forall id :: id in r <==> MsgKey(talker, id) in messages
    ensures forall id :: id in r ==> r[id] == messages[MsgKey(talker, id)]
  {
    assert forall id :: id in IdsOf(messages, talker) ==> MsgKey(talker, id) in messages;
    map id | id in IdsOf(messages, talker) :: messages[MsgKey(talker, id)]
  }

  function RowKey(id: string, row: Row): Key {
    Key(row.ms, row.seqNo, id)
  }

  function KeysOf(rows: map<string, Row>): (keys: set<Key>)
    ensures forall id :: id in rows ==> RowKey(id, rows[id]) in keys
    ensures forall k :: k in keys ==> k.id in rows && k == RowKey(k.id, rows[k.id])
  {
    set id | id in rows :: RowKey(id, rows[id])
  }

  // ---- Listing ----------------------------------------------------------------------------------

  /** A keyset bound; its instant is written to a column in which 0 means absent. */
  datatype MessageCursor = MessageCursor(time: Time, seqNo: int, id: string)

  function CursorFromMessage(m: Message): MessageCursor {
    MessageCursor(m.time, m.seqNo, m.id)
  }

  function BoundOf(c: MessageCursor): Key {
    Key(ToMillis(c.time), c.seqNo, c.id)
  }

  function Clamp(limit: int): (n: nat)
    ensures 1 <= n <= MAX_PAGE
  {
    if limit <= 0 then DEFAULT_PAGE else if limit > MAX_PAGE then MAX_PAGE else limit
  }

  function Below(keys: set<Key>, before: Option<Key>): (r: set<Key>)
    ensures r <= keys
  {
    match before
    case None => keys
    case Some(b) => set k | k in keys && KeyLess(k, b)
  }

  function Newest(keys: set<Key>): (r: seq<Key>)
    ensures Lists(r, keys, KeyAfter) && |r| == |keys|
  {
    KeyLessIsStrictTotal();
    SortedList(keys, KeyAfter)
  }

  /** The newest keys strictly below the bound, newest first, at most the clamped limit of them. */
  function PageKeys(keys: set<Key>, before: Option<Key>, limit: int): (r: seq<Key>)
    ensures |r| == (if |Below(keys, before)| < Clamp(limit) then |Below(keys, before)| else Clamp(limit))
  {
    var all := Newest(Below(keys, before));
    all[..if |all| < Clamp(limit) then |all| else Clamp(limit)]
  }

  function MessagesAt(account: string, talker: string, rows: map<string, Row>, keys: seq<Key>): (r: seq<Message>)
    requires forall k :: k in keys ==> k.id in rows
    ensures |r| == |keys|
    ensures forall i :: 0 <= i < |keys| ==> keys[i] in keys && r[i] == MessageAt(account, talker, keys[i].id, rows[keys[i].id])
  {
    assert forall i :: 0 <= i < |keys| ==> keys[i] in keys;
    seq(|keys|, i requires 0 <= i < |keys| => MessageAt(account, talker, keys[i].id, rows[keys[i].id]))
  }

  lemma PageWithin(keys: set<Key>, before: Option<Key>, limit: int)
    ensures forall k :: k in PageKeys(keys, before, limit) ==> k in Below(keys, before)
  {
    var all := Newest(Below(keys, before));
    forall k | k in PageKeys(keys, before, limit) ensures k in Below(keys, before) {
      assert k in all;
    }
  }

  function ListMessages(account: string, messages: map<MsgKey, Row>, talker: string, before: Option<MessageCursor>, limit: int)
    : Result<seq<Message>>
  {
    if talker == "" then Err(InvalidArgument)
    else
      var rows := RowsOf(messages, talker);
      var bound := if before.None? then None else Some(BoundOf(before.value));
      PageWithin(KeysOf(rows), bound, limit);
      Ok(MessagesAt(account, talker, rows, PageKeys(KeysOf(rows), bound, limit)))
  }

  /** The greatest key, if any: the head of a listing of one. */
  function NewestKey(rows: map<string, Row>): (r: Option<Key>)
    ensures r.None? <==> rows == map[]
    ensures r.Some? ==> r.value in KeysOf(rows) && forall k :: k in KeysOf(rows) ==> k == r.value || KeyLess(k, r.value)
  {
    var keys := KeysOf(rows);
    assert rows != map[] ==> exists id :: id in rows && RowKey(id, rows[id]) in keys;
    assert keys != {} ==> exists k :: k in keys && k.id in rows;
    KeyLessIsStrictTotal();
    if keys == {} then None else Some(Least(keys, KeyAfter))
  }

  lemma ListOne(account: string, messages: map<MsgKey, Row>, talker: string)
    requires talker != ""
    ensures var latest, rows := ListMessages(account, messages, talker, None, 1), RowsOf(messages, talker);
            latest.Ok? && match NewestKey(rows)
                          case None => latest.value == []
                          case Some(k) => k.id in rows && latest.value == [MessageAt(account, talker, k.id, rows[k.id])]
  {
    var rows := RowsOf(messages, talker);
    var keys := KeysOf(rows);
    var all := Newest(keys);
    match NewestKey(rows)
    case None =>
    case Some(k) =>
      KeyLessIsStrictTotal();
      assert k in all;
      assert all[0] in all;
      FirstIsLeast(all, k, KeyAfter);
      assert all[0] == k;
      assert PageKeys(keys, None, 1) == [k];
  }

  // ---- The database handle ----------------------------------------------------------------------

  class AccountDb {
    const account: string
    var messages: map<MsgKey, Row>
    var conversations: map<string, ConvRow>
    var cursors: map<string, CursorRow>

    ghost function Contents(): Tables
      reads this
    {
      Tables(messages, conversations, cursors)
    }

    constructor (account: string)
      ensures this.account == account && Contents() == EMPTY_TABLES
    {
      this.account := account;
      messages, conversations, cursors := map[], map[], map[];
    }

    /** A record may leave its account blank, but may not name another account. */
    predicate Binds(got: string) {
      got == "" || got == account
    }

    method PutMessage(m: Message) returns (ok: bool)
      modifies `messages
      ensures ok <==> m.talker != "" && m.id != "" && (m.account == "" || m.account == account)
      ensures messages == if ok then old(messages)[MsgKey(m.talker, m.id) := RowOf(m)] else old(messages)
      ensures ok ==> var row := messages[MsgKey(m.talker, m.id)];
                     && row.seqNo == m.seqNo && row.typ == m.typ && row.isSend == m.isSend
                     && row.text == m.text && row.xml == m.xml && row.extra == m.extra
                     && row.ms == if m.time == ZERO_TIME then 0 else m.time / 1_000_000
    {
      if m.talker == "" || m.id == "" || !Binds(m.account) {
        return false;
      }
      messages := messages[MsgKey(m.talker, m.id) := RowOf(m)];
      return true;
    }

    method PutConversation(c: Conversation) returns (ok: bool)
      modifies `conversations
      ensures ok <==> c.talker != "" && c.kind.Valid() && (c.account == "" || c.account == account)
      ensures conversations == if ok then old(conversations)[c.talker := ConvRowOf(c)] else old(conversations)
    {
      if c.talker == "" || !c.kind.Valid() || !Binds(c.account) {
        return false;
      }
      conversations := conversations[c.talker := ConvRowOf(c)];
      return true;
    }

    method PutCursor(c: Cursor) returns (ok: bool)
      modifies `cursors
      ensures ok <==> c.talker != "" && (c.account == "" || c.account == account)
      ensures cursors == if ok then old(cursors)[c.talker := CursorRowOf(c)] else old(cursors)
    {
      if c.talker == "" || !Binds(c.account) {
        return false;
      }
      cursors := cursors[c.talker := CursorRowOf(c)];
      return true;
    }

    method Restore(saved: map<MsgKey, Row>, savedConvs: map<string, ConvRow>, savedCursors: map<string, CursorRow>)
      modifies this
      ensures Contents() == Tables(saved, savedConvs, savedCursors)
    {
      messages, conversations, cursors := saved, savedConvs, savedCursors;
    }
  }
}
