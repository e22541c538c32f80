/** Putting a snapshot into an account's tables, one transaction per talker. */
module Ingest {
  import opened Domain
  import opened Order
  import opened Store

  // ---- The cursor test --------------------------------------------------------------------------

  predicate AtOrBefore(cur: Cursor, m: Message) {
    if cur.lastEnd == ZERO_TIME && cur.segmentMeta == "" then false
    else if cur.lastEnd != ZERO_TIME then
      if m.time < cur.lastEnd then true
      else if m.time == cur.lastEnd then cur.segmentMeta == "" || m.id == cur.segmentMeta
      else false
    else m.id == cur.segmentMeta
  }

  /** What a cursor has behind it: everything before its end, nothing after it, and at its end the message it
      notes, or all if it notes none; a cursor without an end has only the message it notes. */
  lemma CursorCovers(cur: Cursor, m: Message)
    ensures cur.lastEnd != ZERO_TIME && m.time < cur.lastEnd ==> AtOrBefore(cur, m)
    ensures cur.lastEnd != ZERO_TIME && m.time > cur.lastEnd ==> !AtOrBefore(cur, m)
    ensures cur.lastEnd != ZERO_TIME && m.time == cur.lastEnd && cur.segmentMeta != "" ==> (AtOrBefore(cur, m) <==> m.id == cur.segmentMeta)
    ensures cur.lastEnd != ZERO_TIME && m.time == cur.lastEnd && cur.segmentMeta == "" ==> AtOrBefore(cur, m)
    ensures cur.lastEnd == ZERO_TIME && cur.segmentMeta != "" ==> (AtOrBefore(cur, m) <==> m.id == cur.segmentMeta)
    ensures cur.lastEnd == ZERO_TIME && cur.segmentMeta == "" ==> !AtOrBefore(cur, m)
  {
  }

  predicate SkipByCursor(mode: Mode, cur: Cursor, m: Message) {
    !mode.Full? && AtOrBefore(cur, m)
  }

  // ---- One talker -------------------------------------------------------------------------------

  /** Everything the tables hold about one talker. */
  datatype TalkerState = TalkerState(rows: map<string, Row>, conv: Option<ConvRow>, cursor: Option<CursorRow>)

  function Lookup<V>(m: map<string, V>, k: string): Option<V> {
    if k in m then Some(m[k]) else None
  }

  function View(t: Tables, talker: string): TalkerState {
    TalkerState(RowsOf(t.messages, talker), Lookup(t.conversations, talker), Lookup(t.cursors, talker))
  }

  const NO_CURSOR := Cursor("", "", ZERO_TIME, "", 0, 0)

  function CurrentCursor(account: string, talker: string, row: Option<CursorRow>): Cursor {
    match row
    case None => NO_CURSOR
    case Some(r) => CursorAt(account, talker, r)
  }

  /** One message: an id already stored is overwritten, a new one is stored unless the cursor skips it. */
  function ApplyOne(rows: map<string, Row>, mode: Mode, cur: Cursor, m: Message): map<string, Row> {
    if m.id !in rows && SkipByCursor(mode, cur, m) then rows else rows[m.id := RowOf(m)]
  }

  function Apply(rows: map<string, Row>, mode: Mode, cur: Cursor, msgs: seq<Message>): map<string, Row>
    decreases |msgs|
  {
    if msgs == [] then rows else Apply(ApplyOne(rows, mode, cur, msgs[0]), mode, cur, msgs[1..])
  }

  lemma {:induction false} ApplySnoc(rows: map<string, Row>, mode: Mode, cur: Cursor, msgs: seq<Message>, m: Message)
    ensures Apply(rows, mode, cur, msgs + [m]) == ApplyOne(Apply(rows, mode, cur, msgs), mode, cur, m)
    decreases |msgs|
  {
    if msgs == [] {
      assert [] + [m] == [m] && [m][1..] == [];
    } else {
      assert (msgs + [m])[1..] == msgs[1..] + [m] && (msgs + [m])[0] == msgs[0];
      ApplySnoc(ApplyOne(rows, mode, cur, msgs[0]), mode, cur, msgs[1..], m);
    }
  }

  function LastTime(newest: Option<Key>): Time {
    match newest
    case None => ZERO_TIME
    case Some(k) => RowTime(k.time)
  }

  function LastId(newest: Option<Key>): string {
    match newest
    case None => ""
    case Some(k) => k.id
  }

  /** The conversation after an ingest that leaves n rows, the newest at `last`. */
  function ConversationAfter(existing: Option<ConvRow>, c: Conversation, n: int, last: Time): Conversation {
    var base := match existing
      case None => c
      case Some(e) =>
        Conversation(c.account, c.talker, if c.kind.Valid() then c.kind else e.kind,
                     FirstNonEmpty(c.displayName, e.displayName), FirstNonEmpty(c.avatar, e.avatar),
                     FromMillis(e.lastMs), e.msgCount);
    base.(msgCount := n, lastMsgTime := Later(last, base.lastMsgTime))
  }

  function CursorAfter(cur: Cursor, c: Conversation, n: int, last: Time, lastId: string): Cursor {
    Cursor(c.account, c.talker, Later(last, cur.lastEnd), FirstNonEmpty(lastId, cur.segmentMeta),
           n, if n > cur.total then n else cur.total)
  }

  /** What is to be read in a talker's conversation row once an ingest has stored n rows, the newest of them at
      `last`: the kind is the listed one; a listed name or avatar replaces the stored one, and a missing one
      does not; of the newest message and what was known before the later time stands. */
  predicate Described(was: Option<ConvRow>, now: ConvRow, c: Conversation, n: int, last: Time) {
    && now.kind == c.kind && now.msgCount == n
    && now.displayName == (if was.None? || c.displayName != "" then c.displayName else was.value.displayName)
    && now.avatar == (if was.None? || c.avatar != "" then c.avatar else was.value.avatar)
    && var known := if was.None? then c.lastMsgTime else FromMillis(was.value.lastMs);
       now.lastMs == ToMillis(if last > known then last else known)
  }

  /** And in its cursor row: the end and the total never fall, and the newest message's id is noted. */
  predicate Advanced(was: Option<CursorRow>, now: CursorRow, n: int, last: Time, lastId: string) {
    && now.received == n
    && (var end := if was.None? then ZERO_TIME else FromMillis(was.value.endMs);
        now.endMs == ToMillis(if last > end then last else end))
    && now.segmentMeta == (if lastId == "" && was.Some? then was.value.segmentMeta else lastId)
    && now.total == (if was.Some? && was.value.total > n then was.value.total else if n > 0 then n else 0)
  }

  /** The newest of the rows: the greatest time, of those the greatest sequence number, of those the last id;
      no time and no id if there is no row. */
  predicate IsNewest(rows: map<string, Row>, last: Time, lastId: string) {
    if rows == map[] then last == ZERO_TIME && lastId == ""
    else
      && lastId in rows && last == RowTime(rows[lastId].ms)
      && forall id :: id in rows && id != lastId ==>
           || rows[id].ms < rows[lastId].ms
           || (rows[id].ms == rows[lastId].ms &&
               (rows[id].seqNo < rows[lastId].seqNo || (rows[id].seqNo == rows[lastId].seqNo && StrLess(id, lastId))))
  }

  lemma NewestIsNewest(rows: map<string, Row>)
    ensures IsNewest(rows, LastTime(NewestKey(rows)), LastId(NewestKey(rows)))
  {
    if rows != map[] {
      var k := NewestKey(rows).value;
      forall id | id in rows && id != k.id ensures KeyLess(RowKey(id, rows[id]), k) {
        assert RowKey(id, rows[id]) in KeysOf(rows);
      }
    }
  }

  /** Both rows after a committed transaction, by the newest of the talker's rows. */
  ghost predicate Recounted(was: TalkerState, now: TalkerState, c: Conversation) {
    && now.conv.Some? && now.cursor.Some?
    && exists last, lastId :: IsNewest(now.rows, last, lastId)
         && Described(was.conv, now.conv.value, c, |now.rows|, last)
         && Advanced(was.cursor, now.cursor.value, |now.rows|, last, lastId)
  }

  lemma CommittedIsRecounted(ts: TalkerState, mode: Mode, c: Conversation, msgs: seq<Message>)
    requires c.kind.Valid()
    ensures Recounted(ts, IngestState(ts, mode, c, msgs), c)
  {
    var now := IngestState(ts, mode, c, msgs);
    NewestIsNewest(now.rows);
    hide IsNewest, Apply, NewestKey;
    assert IsNewest(now.rows, LastTime(NewestKey(now.rows)), LastId(NewestKey(now.rows)));
  }

  /** What one committed transaction makes of a talker. */
  function IngestState(ts: TalkerState, mode: Mode, c: Conversation, msgs: seq<Message>): TalkerState {
    var cur := CurrentCursor(c.account, c.talker, ts.cursor);
    var rows := Apply(ts.rows, mode, cur, msgs);
    var newest := NewestKey(rows);
    TalkerState(rows,
                Some(ConvRowOf(ConversationAfter(ts.conv, c, |rows|, LastTime(newest)))),
                Some(CursorRowOf(CursorAfter(cur, c, |rows|, LastTime(newest), LastId(newest)))))
  }

  lemma PutRow(messages: map<MsgKey, Row>, talker: string, id: string, row: Row)
    ensures var after := messages[MsgKey(talker, id) := row];
            && RowsOf(after, talker) == RowsOf(messages, talker)[id := row]
            && forall u :: u != talker ==> RowsOf(after, u) == RowsOf(messages, u)
  {
    hide RowsOf;
    var after := messages[MsgKey(talker, id) := row];
    forall u, x
      ensures x in RowsOf(after, u) <==> x in RowsOf(messages, u) || (u == talker && x == id)
      ensures x in RowsOf(after, u) ==> RowsOf(after, u)[x] == if u == talker && x == id then row else RowsOf(messages, u)[x]
    {
      assert MsgKey(u, x) == MsgKey(talker, id) <==> u == talker && x == id;
    }
  }

  method StoreMessages(db: AccountDb, mode: Mode, cur: Cursor, talker: string, msgs: seq<Message>)
    requires forall i :: 0 <= i < |msgs| ==> msgs[i].talker == talker && msgs[i].id != "" && msgs[i].account == db.account
    requires talker != ""
    modifies db`messages
    ensures RowsOf(db.messages, talker) == Apply(RowsOf(old(db.messages), talker), mode, cur, msgs)
    ensures forall u :: u != talker ==> RowsOf(db.messages, u) == RowsOf(old(db.messages), u)
  {
    hide SkipByCursor, RowsOf;
    ghost var rows := RowsOf(db.messages, talker);
    for i := 0 to |msgs|
      invariant RowsOf(db.messages, talker) == Apply(rows, mode, cur, msgs[..i])
      invariant forall u :: u != talker ==> RowsOf(db.messages, u) == RowsOf(old(db.messages), u)
    {
      var m := msgs[i];
      assert msgs[..i + 1] == msgs[..i] + [m];
      ApplySnoc(rows, mode, cur, msgs[..i], m);
      PutRow(db.messages, talker, m.id, RowOf(m));
      var stored := MsgKey(m.talker, m.id) in db.messages;
      if stored || !SkipByCursor(mode, cur, m) {
        var ok := db.PutMessage(m);
      }
    }
    assert msgs[..|msgs|] == msgs;
  }

  method StoreConversation(db: AccountDb, c: Conversation, n: int, last: Time)
    requires c.talker != "" && c.kind.Valid() && c.account == db.account
    modifies db`conversations
    ensures db.conversations == old(db.conversations)[c.talker :=
              ConvRowOf(ConversationAfter(Lookup(old(db.conversations), c.talker), c, n, last))]
    ensures Described(Lookup(old(db.conversations), c.talker), db.conversations[c.talker], c, n, last)
  {
    var existing := c;
    if c.talker in db.conversations {
      var row := db.conversations[c.talker];
      existing := ConversationAt(db.account, c.talker, row);
      existing := existing.(displayName := FirstNonEmpty(c.displayName, row.displayName),
                            avatar := FirstNonEmpty(c.avatar, row.avatar));
      if c.kind.Valid() {
        existing := existing.(kind := c.kind);
      }
    }
    existing := existing.(account := c.account, msgCount := n);
    if last > existing.lastMsgTime {
      existing := existing.(lastMsgTime := last);
    }
    var ok := db.PutConversation(existing);
  }

  method StoreCursor(db: AccountDb, cur0: Cursor, c: Conversation, n: int, last: Time, lastId: string)
    requires c.talker != "" && c.account == db.account
    modifies db`cursors
    ensures db.cursors == old(db.cursors)[c.talker := CursorRowOf(CursorAfter(cur0, c, n, last, lastId))]
    ensures n >= 0 && cur0 == CurrentCursor(db.account, c.talker, Lookup(old(db.cursors), c.talker)) ==>
              Advanced(Lookup(old(db.cursors), c.talker), db.cursors[c.talker], n, last, lastId)
  {
    var cur := cur0.(account := c.account, talker := c.talker);
    if last > cur.lastEnd {
      cur := cur.(lastEnd := last);
    }
    if lastId != "" {
      cur := cur.(segmentMeta := lastId);
    }
    cur := cur.(received := n);
    if n > cur.total {
      cur := cur.(total := n);
    }
    var ok := db.PutCursor(cur);
  }

  lemma CommittedView(was: TalkerState, now: TalkerState, mode: Mode, c: Conversation, msgs: seq<Message>)
    requires c.kind.Valid() && now == IngestState(was, mode, c, msgs)
    ensures Recounted(was, now, c)
  {
    CommittedIsRecounted(was, mode, c, msgs);
  }

  /** Ingests one talker in one transaction: when it does not commit, nothing has changed. */
  method IngestTalker(db: AccountDb, mode: Mode, cur: Cursor, c: Conversation, msgs: seq<Message>, commits: bool)
    returns (ok: bool)
    requires c.talker != "" && c.kind.Valid() && c.account == db.account
    requires cur == CurrentCursor(db.account, c.talker, Lookup(db.cursors, c.talker))
    requires forall i :: 0 <= i < |msgs| ==> msgs[i].talker == c.talker && msgs[i].id != "" && msgs[i].account == db.account
    modifies db
    ensures ok == commits
    ensures !ok ==> db.Contents() == old(db.Contents())
    ensures ok ==> View(db.Contents(), c.talker) == IngestState(old(View(db.Contents(), c.talker)), mode, c, msgs)
    ensures ok ==> Recounted(old(View(db.Contents(), c.talker)), View(db.Contents(), c.talker), c)
    ensures forall u :: u != c.talker ==> View(db.Contents(), u) == old(View(db.Contents(), u))
  {
    hide RowsOf, ConversationAfter, CursorAfter, Apply, ListMessages, NewestKey, KeysOf, ConvRowOf, CursorRowOf,
      CurrentCursor, Recounted, Described, Advanced, IsNewest;
    ghost var was := View(db.Contents(), c.talker);
    var savedMessages, savedConvs, savedCursors := db.messages, db.conversations, db.cursors;
    StoreMessages(db, mode, cur, c.talker, msgs);
    var n := |RowsOf(db.messages, c.talker)|;
    ListOne(db.account, db.messages, c.talker);
    var latest := ListMessages(db.account, db.messages, c.talker, None, 1).value;
    var last, lastId := ZERO_TIME, "";
    if |latest| > 0 {
      last, lastId := latest[0].time, latest[0].id;
    }
    StoreConversation(db, c, n, last);
    StoreCursor(db, cur, c, n, last, lastId);
    CommittedView(was, View(db.Contents(), c.talker), mode, c, msgs);
    if !commits {
      db.Restore(savedMessages, savedConvs, savedCursors);
    }
    return commits;
  }

  // ---- A whole snapshot -------------------------------------------------------------------------

  predicate Ingestible(m: Message) {
    m.talker != "" && m.id != ""
  }

  /** The messages of one talker that can be stored, bound to the account. */
  function BatchOf(msgs: seq<Message>, talker: string, account: string): seq<Message> {
    if msgs == [] then []
    else
      (if msgs[0].talker == talker && Ingestible(msgs[0]) then [msgs[0].(account := account)] else [])
      + BatchOf(msgs[1..], talker, account)
  }

  function TalkersIn(snap: Snapshot): set<string> {
    (set c | c in snap.conversations && c.talker != "" :: c.talker)
    + (set m | m in snap.messages && Ingestible(m) :: m.talker)
  }

  /** The conversation recorded for a talker: the last one listed, or one made up from its id. */
  function ConversationIn(convs: seq<Conversation>, talker: string, account: string): Conversation {
    var own := ConvsOf(convs, talker);
    var c := if own == [] then Conversation(account, talker, Friend, talker, "", ZERO_TIME, 0) else own[|own| - 1];
    c.(account := account, kind := if c.kind.Valid() then c.kind else Friend)
  }

  lemma {:induction false} BatchMembers(msgs: seq<Message>, talker: string, account: string)
    ensures forall m :: m in BatchOf(msgs, talker, account) ==> m.talker == talker && m.id != "" && m.account == account
    ensures BatchOf(msgs, talker, account) != [] <==> exists m :: m in msgs && m.talker == talker && Ingestible(m)
  {
    if msgs != [] {
      BatchMembers(msgs[1..], talker, account);
      assert msgs == [msgs[0]] + msgs[1..];
      if msgs[0].talker == talker && Ingestible(msgs[0]) { assert msgs[0] in msgs; }
    }
  }

  lemma {:induction false} BatchConcat(a: seq<Message>, b: seq<Message>, talker: string, account: string)
    ensures BatchOf(a + b, talker, account) == BatchOf(a, talker, account) + BatchOf(b, talker, account)
  {
    if a == [] {
      assert a + b == b;
    } else {
      assert (a + b)[1..] == a[1..] + b && (a + b)[0] == a[0];
      BatchConcat(a[1..], b, talker, account);
      var first := if a[0].talker == talker && Ingestible(a[0]) then [a[0].(account := account)] else [];
      assert first + (BatchOf(a[1..], talker, account) + BatchOf(b, talker, account))
          == first + BatchOf(a[1..], talker, account) + BatchOf(b, talker, account);
    }
  }

  lemma {:induction false} ConvMembers(convs: seq<Conversation>, talker: string)
    ensures forall c :: c in ConvsOf(convs, talker) <==> c in convs && c.talker == talker
    ensures ConvsOf(convs, talker) != [] <==> exists c :: c in convs && c.talker == talker
  {
    if convs != [] {
      ConvMembers(convs[1..], talker);
      assert convs == [convs[0]] + convs[1..];
      if convs[0].talker == talker { assert convs[0] in convs; }
    }
  }

  /** The rows grouped by talker, as a map with an entry for each talker that has any. */
  ghost predicate Batches(batches: map<string, seq<Message>>, msgs: seq<Message>, account: string) {
    && (forall t :: t in batches <==> BatchOf(msgs, t, account) != [])
    && (forall t :: t in batches ==> batches[t] == BatchOf(msgs, t, account))
  }

  method SplitBatches(msgs: seq<Message>, account: string) returns (batches: map<string, seq<Message>>)
    ensures Batches(batches, msgs, account)
  {
    batches := map[];
    for i := 0 to |msgs|
      invariant Batches(batches, msgs[..i], account)
    {
      var m := msgs[i].(account := account);
      assert msgs[..i + 1] == msgs[..i] + [msgs[i]];
      BatchGrows(batches, msgs[..i], msgs[i], account);
      if m.talker != "" && m.id != "" {
        batches := batches[m.talker := (if m.talker in batches then batches[m.talker] else []) + [m]];
      }
    }
    assert msgs[..|msgs|] == msgs;
  }

  lemma BatchGrows(batches: map<string, seq<Message>>, msgs: seq<Message>, m: Message, account: string)
    requires Batches(batches, msgs, account)
    ensures Ingestible(m) ==>
              Batches(batches[m.talker := (if m.talker in batches then batches[m.talker] else []) + [m.(account := account)]],
                      msgs + [m], account)
    ensures !Ingestible(m) ==> Batches(batches, msgs + [m], account)
  {
    hide BatchOf;
    forall t
      ensures BatchOf(msgs + [m], t, account) ==
                if m.talker == t && Ingestible(m) then BatchOf(msgs, t, account) + [m.(account := account)]
                else BatchOf(msgs, t, account)
    {
      BatchSnoc(msgs, m, t, account);
    }
  }

  lemma BatchSnoc(msgs: seq<Message>, m: Message, t: string, account: string)
    ensures BatchOf(msgs + [m], t, account) ==
                if m.talker == t && Ingestible(m) then BatchOf(msgs, t, account) + [m.(account := account)]
                else BatchOf(msgs, t, account)
  {
    BatchConcat(msgs, [m], t, account);
    assert [m][1..] == [] && BatchOf([m][1..], t, account) == [];
  }

  ghost predicate Deduped(convs: map<string, Conversation>, list: seq<Conversation>) {
    && (forall t :: t in convs <==> t != "" && ConvsOf(list, t) != [])
    && (forall t :: t in convs ==> var own := ConvsOf(list, t); convs[t] == own[|own| - 1])
  }

  lemma DedupedGrows(convs: map<string, Conversation>, list: seq<Conversation>, c: Conversation)
    requires Deduped(convs, list)
    ensures Deduped(if c.talker != "" then convs[c.talker := c] else convs, list + [c])
  {
    hide ConvsOf;
    forall t ensures ConvsOf(list + [c], t) == if c.talker == t then ConvsOf(list, t) + [c] else ConvsOf(list, t) {
      ConvsSnoc(list, c, t);
    }
    var convs' := if c.talker != "" then convs[c.talker := c] else convs;
    forall t | t in convs' ensures var own := ConvsOf(list + [c], t); own != [] && convs'[t] == own[|own| - 1] {
    }
  }

  lemma ConvsSnoc(list: seq<Conversation>, c: Conversation, t: string)
    ensures ConvsOf(list + [c], t) == if c.talker == t then ConvsOf(list, t) + [c] else ConvsOf(list, t)
  {
    ConvsOfConcat(list, [c], t);
    assert [c][1..] == [] && ConvsOf([c][1..], t) == [];
  }

  method DedupeConversations(list: seq<Conversation>) returns (convs: map<string, Conversation>)
    ensures Deduped(convs, list)
  {
    convs := map[];
    for i := 0 to |list|
      invariant Deduped(convs, list[..i])
    {
      hide Deduped;
      var c := list[i];
      assert list[..i + 1] == list[..i] + [c];
      DedupedGrows(convs, list[..i], c);
      if c.talker != "" {
        convs := convs[c.talker := c];
      }
    }
    assert list[..|list|] == list;
  }

  function Taken<T>(s: seq<T>, k: nat): seq<T> {
    if k < |s| then s[..k] else s
  }

  /** The talkers of a snapshot whose transactions commit when at most k do, in order. */
  function Committed(snap: Snapshot, k: nat): seq<string> {
    Taken(SortedStrings(TalkersIn(snap)), k)
  }

  /** Those are the first of the snapshot's talkers in ascending order, k of them or all. */
  lemma CommittedAreFirst(snap: Snapshot, k: nat, u: string, v: string)
    ensures |Committed(snap, k)| == if k < |TalkersIn(snap)| then k else |TalkersIn(snap)|
    ensures u in Committed(snap, k) ==> u in TalkersIn(snap)
    ensures u in Committed(snap, k) && v in TalkersIn(snap) && v !in Committed(snap, k) ==> StrLess(u, v)
  {
    var all := SortedStrings(TalkersIn(snap));
    hide TalkersIn, SortedStrings, StrLess;
    assert forall x :: x in Committed(snap, k) ==> x in all;
    assert forall n :: 0 <= n < |Committed(snap, k)| ==> Committed(snap, k)[n] == all[n] && all[n] in Committed(snap, k);
    if u in Committed(snap, k) && v in TalkersIn(snap) && v !in Committed(snap, k) {
      var i :| 0 <= i < |Committed(snap, k)| && Committed(snap, k)[i] == u;
      assert v in all;
      var j :| 0 <= j < |all| && all[j] == v;
      assert all[i] == u;
    }
  }

  /** `after` is `before` with exactly the talkers in `done` ingested from the snapshot. */
  ghost predicate Ingested(before: Tables, after: Tables, account: string, mode: Mode, snap: Snapshot, done: seq<string>) {
    forall u :: View(after, u) ==
      if u in done then IngestState(View(before, u), mode, ConversationIn(snap.conversations, u, account), BatchOf(snap.messages, u, account))
      else View(before, u)
  }

  /** Two sets of tables that agree about every talker are equal. */
  lemma ViewsDecide(a: Tables, b: Tables)
    requires forall u :: View(a, u) == View(b, u)
    ensures a == b
  {
    forall k ensures k in a.messages <==> k in b.messages {
      assert View(a, k.talker) == View(b, k.talker);
      assert k.id in RowsOf(a.messages, k.talker) <==> MsgKey(k.talker, k.id) in a.messages;
      assert k.id in RowsOf(b.messages, k.talker) <==> MsgKey(k.talker, k.id) in b.messages;
    }
    forall k | k in a.messages ensures a.messages[k] == b.messages[k] {
      assert View(a, k.talker).rows[k.id] == View(b, k.talker).rows[k.id];
    }
    forall t ensures Lookup(a.conversations, t) == Lookup(b.conversations, t) && Lookup(a.cursors, t) == Lookup(b.cursors, t) {
      assert View(a, t) == View(b, t);
    }
    assert forall t :: t in a.conversations <==> Lookup(a.conversations, t).Some?;
    assert forall t :: t in b.conversations <==> Lookup(b.conversations, t).Some?;
    assert forall t :: t in a.cursors <==> Lookup(a.cursors, t).Some?;
    assert forall t :: t in b.cursors <==> Lookup(b.cursors, t).Some?;
    forall t | t in a.conversations ensures a.conversations[t] == b.conversations[t] {
      assert Lookup(a.conversations, t) == Lookup(b.conversations, t);
    }
    forall t | t in a.cursors ensures a.cursors[t] == b.cursors[t] {
      assert Lookup(a.cursors, t) == Lookup(b.cursors, t);
    }
    assert a.messages == b.messages;
    assert a.conversations == b.conversations;
    assert a.cursors == b.cursors;
  }

  method IngestSnapshot(db: AccountDb, wxid: string, mode: Mode, snap: Snapshot, budget: nat) returns (r: Result<bool>)
    modifies db
    ensures r.Err? <==> snap.wxid != "" && snap.wxid != wxid
    ensures r.Err? ==> db.Contents() == old(db.Contents())
    ensures r.Ok? ==>
              && r.value == (|SortedStrings(TalkersIn(snap))| <= budget)
              && Ingested(old(db.Contents()), db.Contents(), db.account, mode, snap, Committed(snap, budget))
  {
    if snap.wxid != "" && snap.wxid != wxid {
      return Err(InvalidArgument);
    }
    var cursors := db.cursors;
    var batches := SplitBatches(snap.messages, db.account);
    var convs := DedupeConversations(snap.conversations);
    TalkersFound(batches, convs, snap, db.account);
    var talkers := SortedStrings(convs.Keys + batches.Keys);
    var complete := IngestInOrder(db, mode, cursors, batches, convs, talkers, budget, snap);
    return Ok(complete);
  }

  /** Talkers one after the other; the transaction of talker number `budget` does not commit. */
  method IngestInOrder(db: AccountDb, mode: Mode, cursors: map<string, CursorRow>, batches: map<string, seq<Message>>,
                       convs: map<string, Conversation>, talkers: seq<string>, budget: nat, ghost snap: Snapshot)
    returns (complete: bool)
    requires Batches(batches, snap.messages, db.account) && Deduped(convs, snap.conversations)
    requires Lists(talkers, TalkersIn(snap), StrLess) && cursors == db.cursors
    modifies db
    ensures complete == (|talkers| <= budget)
    ensures Ingested(old(db.Contents()), db.Contents(), db.account, mode, snap, Taken(talkers, budget))
  {
    hide StrLess, Lists, Deduped, Batches, TalkersIn, Ingested;
    ghost var start := db.Contents();
    NoneIngested(start, db.account, mode, snap);
    assert talkers[..0] == [];
    for i := 0 to |talkers|
      invariant i <= budget
      invariant Ingested(start, db.Contents(), db.account, mode, snap, talkers[..i])
    {
      var ok := IngestNth(db, mode, cursors, batches, convs, talkers, i, i < budget, snap, start);
      if !ok {
        return false;
      }
    }
    assert talkers[..|talkers|] == talkers;
    return true;
  }

  method IngestNth(db: AccountDb, mode: Mode, cursors: map<string, CursorRow>, batches: map<string, seq<Message>>,
                   convs: map<string, Conversation>, talkers: seq<string>, i: nat, commits: bool,
                   ghost snap: Snapshot, ghost start: Tables)
    returns (ok: bool)
    requires Batches(batches, snap.messages, db.account) && Deduped(convs, snap.conversations)
    requires Lists(talkers, TalkersIn(snap), StrLess) && i < |talkers| && cursors == start.cursors
    requires Ingested(start, db.Contents(), db.account, mode, snap, talkers[..i])
    modifies db
    ensures ok == commits
    ensures Ingested(start, db.Contents(), db.account, mode, snap, talkers[..if ok then i + 1 else i])
  {
    var t := talkers[i];
    assert t in talkers;
    hide BatchOf, ConvsOf, IngestState, View, StrLess, Ascending, Deduped, Batches, TalkersIn, ConversationIn, Ingested;
    BatchFound(batches, convs, snap, t, db.account);
    CursorUntouched(start, db.Contents(), db.account, mode, snap, talkers, i);
    ghost var before := db.Contents();
    ok := IngestTalker(db, mode, CurrentCursor(db.account, t, Lookup(cursors, t)), Prepared(convs, t, db.account),
                       if t in batches then batches[t] else [], commits);
    if ok {
      OneMoreIngested(start, before, db.Contents(), db.account, mode, snap, talkers, i);
    }
  }

  function Prepared(convs: map<string, Conversation>, talker: string, account: string): Conversation {
    var c := if talker in convs then convs[talker] else Conversation(account, talker, Friend, talker, "", ZERO_TIME, 0);
    c.(account := account, kind := if c.kind.Valid() then c.kind else Friend)
  }

  lemma TalkersFound(batches: map<string, seq<Message>>, convs: map<string, Conversation>, snap: Snapshot, account: string)
    requires Batches(batches, snap.messages, account) && Deduped(convs, snap.conversations)
    ensures convs.Keys + batches.Keys == TalkersIn(snap)
  {
    forall t ensures t in batches <==> exists m :: m in snap.messages && m.talker == t && Ingestible(m) {
      BatchMembers(snap.messages, t, account);
    }
    forall t ensures ConvsOf(snap.conversations, t) != [] <==> exists c :: c in snap.conversations && c.talker == t {
      ConvMembers(snap.conversations, t);
    }
    assert forall t :: t in TalkersIn(snap) ==> t in convs.Keys + batches.Keys;
  }

  lemma BatchFound(batches: map<string, seq<Message>>, convs: map<string, Conversation>, snap: Snapshot, t: string, account: string)
    requires Batches(batches, snap.messages, account) && Deduped(convs, snap.conversations) && t in TalkersIn(snap)
    ensures (if t in batches then batches[t] else []) == BatchOf(snap.messages, t, account)
    ensures Prepared(convs, t, account) == ConversationIn(snap.conversations, t, account)
    ensures t != "" && Prepared(convs, t, account).kind.Valid()
    ensures Prepared(convs, t, account).talker == t && Prepared(convs, t, account).account == account
    ensures var b := BatchOf(snap.messages, t, account);
            forall i :: 0 <= i < |b| ==> b[i].talker == t && b[i].id != "" && b[i].account == account
  {
    BatchMembers(snap.messages, t, account);
    ConversationFound(convs, snap.conversations, t, account);
    assert t != "";
    var b := BatchOf(snap.messages, t, account);
    hide TalkersIn, Deduped, Prepared, ConversationIn;
    forall i | 0 <= i < |b| ensures b[i].talker == t && b[i].id != "" && b[i].account == account {
      assert b[i] in b;
    }
  }

  lemma ConversationFound(convs: map<string, Conversation>, listed: seq<Conversation>, t: string, account: string)
    requires Deduped(convs, listed)
    ensures t != "" ==> Prepared(convs, t, account) == ConversationIn(listed, t, account)
    ensures t != "" ==> Prepared(convs, t, account).kind.Valid()
    ensures t != "" ==> Prepared(convs, t, account).talker == t && Prepared(convs, t, account).account == account
  {
    ConvMembers(listed, t);
    if t in convs {
      var own := ConvsOf(listed, t);
      assert own[|own| - 1] in own;
    }
  }

  lemma NoneIngested(tables: Tables, account: string, mode: Mode, snap: Snapshot)
    ensures Ingested(tables, tables, account, mode, snap, [])
  {
  }

  lemma NotYet(talkers: seq<string>, i: nat)
    requires Ascending(talkers, StrLess) && i < |talkers|
    ensures talkers[i] !in talkers[..i]
  {
    if talkers[i] in talkers[..i] {
      var j :| 0 <= j < i && talkers[j] == talkers[i];
      assert StrLess(talkers[j], talkers[i]);
      StrLessIrreflexive(talkers[i]);
    }
  }

  lemma CursorUntouched(start: Tables, now: Tables, account: string, mode: Mode, snap: Snapshot, talkers: seq<string>, i: nat)
    requires Ascending(talkers, StrLess) && i < |talkers|
    requires Ingested(start, now, account, mode, snap, talkers[..i])
    ensures Lookup(now.cursors, talkers[i]) == Lookup(start.cursors, talkers[i])
    ensures View(now, talkers[i]) == View(start, talkers[i])
  {
    NotYet(talkers, i);
    assert View(now, talkers[i]) == View(start, talkers[i]);
  }

  lemma OneMoreIngested(start: Tables, before: Tables, after: Tables, account: string, mode: Mode, snap: Snapshot,
                        talkers: seq<string>, i: nat)
    requires Ascending(talkers, StrLess) && i < |talkers|
    requires Ingested(start, before, account, mode, snap, talkers[..i])
    requires View(after, talkers[i]) == IngestState(View(before, talkers[i]), mode,
               ConversationIn(snap.conversations, talkers[i], account), BatchOf(snap.messages, talkers[i], account))
    requires forall u :: u != talkers[i] ==> View(after, u) == View(before, u)
    ensures Ingested(start, after, account, mode, snap, talkers[..i + 1])
  {
    hide IngestState, View, BatchOf, ConversationIn;
    CursorUntouched(start, before, account, mode, snap, talkers, i);
    assert talkers[..i + 1] == talkers[..i] + [talkers[i]];
  }
}
