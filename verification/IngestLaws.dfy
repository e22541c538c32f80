/** What ingesting keeps, over single transactions and over every run. */
module IngestLaws {
  import opened Domain
  import opened Order
  import opened Store
  import opened Ingest

  // ---- What a batch of messages does to the rows ------------------------------------------------

  ghost predicate DistinctIds(msgs: seq<Message>) {
    forall i, j :: 0 <= i < j < |msgs| ==> msgs[i].id != msgs[j].id
  }

  /** A row whose id is not in the batch is untouched. */
  lemma {:induction false} OtherRowsStay(rows: map<string, Row>, mode: Mode, cur: Cursor, msgs: seq<Message>, id: string)
    requires forall m :: m in msgs ==> m.id != id
    ensures var after := Apply(rows, mode, cur, msgs);
            (id in after <==> id in rows) && (id in after ==> after[id] == rows[id])
    decreases |msgs|
  {
    if msgs != [] {
      assert msgs[0] in msgs;
      OtherRowsStay(ApplyOne(rows, mode, cur, msgs[0]), mode, cur, msgs[1..], id);
    }
  }

  /** A message of a batch with distinct ids ends up stored unless it is new, the mode is not full, and the
      cursor has it behind it. */
  lemma {:induction false} BatchRow(rows: map<string, Row>, mode: Mode, cur: Cursor, msgs: seq<Message>, m: Message)
    requires DistinctIds(msgs) && m in msgs
    ensures var after := Apply(rows, mode, cur, msgs);
            && (m.id in after <==> m.id in rows || mode == Full || !AtOrBefore(cur, m))
            && (m.id in after ==> after[m.id] == RowOf(m))
    decreases |msgs|
  {
    var rows1 := ApplyOne(rows, mode, cur, msgs[0]);
    if m == msgs[0] {
      forall n | n in msgs[1..] ensures n.id != m.id {
        var j :| 0 <= j < |msgs[1..]| && msgs[1..][j] == n;
        assert msgs[0].id != msgs[j + 1].id;
      }
      OtherRowsStay(rows1, mode, cur, msgs[1..], m.id);
    } else {
      var j :| 0 <= j < |msgs| && msgs[j] == m;
      assert j > 0 && msgs[1..][j - 1] == m;
      assert msgs[0].id != m.id;
      BatchRow(rows1, mode, cur, msgs[1..], m);
    }
  }

  /** The order of a batch does not matter when its ids are distinct. */
  lemma OrderDoesNotMatter(rows: map<string, Row>, mode: Mode, cur: Cursor, a: seq<Message>, b: seq<Message>)
    requires DistinctIds(a) && DistinctIds(b) && forall m :: m in a <==> m in b
    ensures Apply(rows, mode, cur, a) == Apply(rows, mode, cur, b)
  {
    var ra, rb := Apply(rows, mode, cur, a), Apply(rows, mode, cur, b);
    forall id ensures (id in ra <==> id in rb) && (id in ra ==> ra[id] == rb[id]) {
      if m :| m in a && m.id == id {
        BatchRow(rows, mode, cur, a, m);
        BatchRow(rows, mode, cur, b, m);
      } else {
        OtherRowsStay(rows, mode, cur, a, id);
        OtherRowsStay(rows, mode, cur, b, id);
      }
    }
  }

  /** A full batch overlays the rows it writes, whatever was there and whatever the cursor. */
  lemma {:induction false} FullOverlays(rows: map<string, Row>, cur: Cursor, msgs: seq<Message>)
    ensures Apply(rows, Full, cur, msgs) == rows + Apply(map[], Full, NO_CURSOR, msgs)
    decreases |msgs|
  {
    if msgs == [] {
      assert rows + map[] == rows;
    } else {
      var m := msgs[0];
      var one: map<string, Row> := map[m.id := RowOf(m)];
      assert map[][m.id := RowOf(m)] == one;
      FullOverlays(rows[m.id := RowOf(m)], cur, msgs[1..]);
      FullOverlays(one, NO_CURSOR, msgs[1..]);
      var tail := Apply(map[], Full, NO_CURSOR, msgs[1..]);
      assert rows[m.id := RowOf(m)] + tail == rows + (one + tail);
    }
  }

  lemma FullTwiceSameRows(rows: map<string, Row>, cur1: Cursor, cur2: Cursor, msgs: seq<Message>)
    ensures var once := Apply(rows, Full, cur1, msgs); Apply(once, Full, cur2, msgs) == once
  {
    var written := Apply(map[], Full, NO_CURSOR, msgs);
    FullOverlays(rows, cur1, msgs);
    FullOverlays(Apply(rows, Full, cur1, msgs), cur2, msgs);
    assert rows + written + written == rows + written;
  }

  lemma {:induction false} RowsOnlyGrow(rows: map<string, Row>, mode: Mode, cur: Cursor, msgs: seq<Message>)
    ensures rows.Keys <= Apply(rows, mode, cur, msgs).Keys
    ensures |rows| <= |Apply(rows, mode, cur, msgs)|
    ensures forall id :: id in Apply(rows, mode, cur, msgs) ==> id in rows || exists m :: m in msgs && m.id == id
    decreases |msgs|
  {
    if msgs != [] {
      var rows1 := ApplyOne(rows, mode, cur, msgs[0]);
      RowsOnlyGrow(rows1, mode, cur, msgs[1..]);
      assert rows1.Keys <= rows.Keys + {msgs[0].id};
      assert msgs[0] in msgs;
    }
    SubsetSize(rows.Keys, Apply(rows, mode, cur, msgs).Keys);
  }

  lemma {:induction false} SubsetSize<T>(a: set<T>, b: set<T>)
    requires a <= b
    ensures |a| <= |b|
    decreases a
  {
    if a != {} {
      var x :| x in a;
      SubsetSize(a - {x}, b - {x});
    }
  }

  // ---- Stored times -----------------------------------------------------------------------------

  /** The column value of the newest row's time; a talker without rows counts as the zero instant. */
  function LastMs(newest: Option<Key>): int {
    match newest
    case None => ZERO_MS
    case Some(k) => k.time
  }

  lemma LastTimeIs(newest: Option<Key>)
    ensures LastTime(newest) == RowTime(LastMs(newest))
  {
  }

  /** The stored later of an instant and a row's instant is not before the row. */
  lemma StoredLaterReaches(ms: int, base: Time)
    ensures ToMillis(Later(RowTime(ms), base)) >= ms
  {
    var m := Later(RowTime(ms), base);
    assert m >= ms * NS_PER_MS;
  }

  /** Whether a conversation listed with this time keeps a stable stored time beside a newest row. */
  predicate TimeSettles(base: Time, lastMs: int) {
    var m := Later(RowTime(lastMs), base);
    !(0 <= m < NS_PER_MS && ZERO_MS < lastMs < 0) && !(ZERO_TIME < m < ZERO_TIME + NS_PER_MS)
  }

  /** A stored time is settled when seeing the newest row again does not move it. */
  predicate Settled(ms: int, lastMs: int) {
    ToMillis(Later(RowTime(lastMs), FromMillis(ms))) == ms
  }

  lemma SettlesIff(base: Time, lastMs: int)
    ensures Settled(ToMillis(Later(RowTime(lastMs), base)), lastMs) <==> TimeSettles(base, lastMs)
  {
    StoredLaterIsStable(base, lastMs);
    assert Later(RowTime(lastMs), base) == Later(base, RowTime(lastMs));
  }

  /** Times that come from a column always settle. */
  lemma ColumnTimesSettle(base: Time, lastMs: int)
    requires Normal(base)
    ensures TimeSettles(base, lastMs)
  {
    var m := Later(RowTime(lastMs), base);
    if base == FromMillis(ToMillis(base)) && base != ZERO_TIME {
      assert base == ToMillis(base) * NS_PER_MS && ToMillis(base) != 0;
    }
  }

  // ---- Twice is once ----------------------------------------------------------------------------

  /** What must hold of a talker's first conversation for its stored time to be stable. */
  predicate ConversationSettles(ts: TalkerState, mode: Mode, c: Conversation, msgs: seq<Message>) {
    ts.conv.None? ==>
      TimeSettles(c.lastMsgTime, LastMs(NewestKey(Apply(ts.rows, mode, CurrentCursor(c.account, c.talker, ts.cursor), msgs))))
  }

  /** The conversation columns after an ingest are written again unchanged, given the same rows, exactly
      when the listed time settles. */
  lemma ConversationStable(existing: Option<ConvRow>, c: Conversation, n: int, newest: Option<Key>)
    requires c.kind.Valid()
    ensures var once := ConvRowOf(ConversationAfter(existing, c, n, LastTime(newest)));
            ConvRowOf(ConversationAfter(Some(once), c, n, LastTime(newest))) == once
            <==> (existing.None? ==> TimeSettles(c.lastMsgTime, LastMs(newest)))
    ensures (existing.None? ==> TimeSettles(c.lastMsgTime, LastMs(newest)))
            ==> Settled(ConvRowOf(ConversationAfter(existing, c, n, LastTime(newest))).lastMs, LastMs(newest))
  {
    LastTimeIs(newest);
    var base := match existing case None => c.lastMsgTime case Some(e) => FromMillis(e.lastMs);
    SettlesIff(base, LastMs(newest));
    if existing.Some? {
      ColumnRoundTrip(existing.value.lastMs);
      ColumnTimesSettle(base, LastMs(newest));
    }
  }

  lemma CursorStable(cur: Cursor, c: Conversation, n: int, newest: Option<Key>)
    requires Normal(cur.lastEnd)
    ensures var once := CursorRowOf(CursorAfter(cur, c, n, LastTime(newest), LastId(newest)));
            CursorRowOf(CursorAfter(CursorAt(c.account, c.talker, once), c, n, LastTime(newest), LastId(newest))) == once
  {
    LastTimeIs(newest);
    SettlesIff(cur.lastEnd, LastMs(newest));
    ColumnTimesSettle(cur.lastEnd, LastMs(newest));
  }

  lemma CurrentCursorNormal(account: string, talker: string, row: Option<CursorRow>)
    ensures Normal(CurrentCursor(account, talker, row).lastEnd)
  {
  }

  /** Ingesting the same talker again in full mode changes nothing, exactly when the time of a first-seen
      conversation settles. */
  lemma TwiceIsOnceIff(ts: TalkerState, c: Conversation, msgs: seq<Message>)
    requires c.kind.Valid()
    ensures var once := IngestState(ts, Full, c, msgs);
            IngestState(once, Full, c, msgs) == once <==> ConversationSettles(ts, Full, c, msgs)
  {
    var cur := CurrentCursor(c.account, c.talker, ts.cursor);
    var once := IngestState(ts, Full, c, msgs);
    var cur1 := CurrentCursor(c.account, c.talker, once.cursor);
    FullTwiceSameRows(ts.rows, cur, cur1, msgs);
    var newest := NewestKey(once.rows);
    hide Apply, NewestKey, ConversationAfter, CursorAfter, TimeSettles;
    ConversationStable(ts.conv, c, |once.rows|, newest);
    CurrentCursorNormal(c.account, c.talker, ts.cursor);
    CursorStable(cur, c, |once.rows|, newest);
  }

  /** The family that fails is not empty: a conversation listed at the epoch whose only message is a
      millisecond older is stored once as absent and the second time as older than the epoch. No package
      gives a conversation such a time. */
  lemma TwiceIsNotAlwaysOnce() returns (c: Conversation, m: Message)
    ensures c.kind.Valid() && !Normal(c.lastMsgTime) && Normal(m.time)
    ensures var once := IngestState(TalkerState(map[], None, None), Full, c, [m]);
            IngestState(once, Full, c, [m]) != once
  {
    c := Conversation("a", "t", Friend, "t", "", RowTime(0), 0);
    m := Message("a", "t", "m", 1, 1, false, RowTime(-1), "", "", "");
    var ts := TalkerState(map[], None, None);
    TwiceIsOnceIff(ts, c, [m]);
    var rows: map<string, Row> := map[][m.id := RowOf(m)];
    assert [m][1..] == [];
    assert Apply(map[], Full, NO_CURSOR, [m]) == Apply(rows, Full, NO_CURSOR, []) == rows;
    assert RowOf(m).ms == -1;
    assert NewestKey(rows).Some? && NewestKey(rows).value == RowKey("m", RowOf(m)) by {
      assert rows.Keys == {"m"};
      assert RowKey("m", rows["m"]) in KeysOf(rows);
    }
  }

  /** Ingesting a whole snapshot twice in full mode is ingesting it once, when its conversations' times
      came from a package. */
  lemma SnapshotTwiceIsOnce(before: Tables, once: Tables, twice: Tables, account: string, snap: Snapshot)
    requires Ingested(before, once, account, Full, snap, SortedStrings(TalkersIn(snap)))
    requires Ingested(once, twice, account, Full, snap, SortedStrings(TalkersIn(snap)))
    requires forall c :: c in snap.conversations ==> Normal(c.lastMsgTime)
    ensures twice == once
  {
    hide IngestState, BatchOf, TalkersIn, SortedStrings, View;
    forall u ensures View(twice, u) == View(once, u) {
      if u in SortedStrings(TalkersIn(snap)) {
        NormalConversationIn(snap, u, account);
        NormalSettles(View(before, u), Full, ConversationIn(snap.conversations, u, account), BatchOf(snap.messages, u, account));
        TwiceIsOnceIff(View(before, u), ConversationIn(snap.conversations, u, account), BatchOf(snap.messages, u, account));
      }
    }
    ViewsDecide(twice, once);
  }

  lemma NormalConversationIn(snap: Snapshot, u: string, account: string)
    requires forall c :: c in snap.conversations ==> Normal(c.lastMsgTime)
    ensures var c := ConversationIn(snap.conversations, u, account); Normal(c.lastMsgTime) && c.kind.Valid()
  {
    ConvMembers(snap.conversations, u);
    var own := ConvsOf(snap.conversations, u);
    if own != [] { assert own[|own| - 1] in own; }
  }

  lemma NormalSettles(ts: TalkerState, mode: Mode, c: Conversation, msgs: seq<Message>)
    requires Normal(c.lastMsgTime)
    ensures ConversationSettles(ts, mode, c, msgs)
  {
    ColumnTimesSettle(c.lastMsgTime, LastMs(NewestKey(Apply(ts.rows, mode, CurrentCursor(c.account, c.talker, ts.cursor), msgs))));
  }

  // ---- The invariant ----------------------------------------------------------------------------

  /** Rows, conversation and cursor of a talker agree. */
  ghost predicate Consistent(ts: TalkerState) {
    && (ts.conv.Some? <==> ts.cursor.Some?)
    && (ts.rows != map[] ==> ts.conv.Some?)
    && "" !in ts.rows
    && (ts.conv.Some? ==>
          && ts.conv.value.msgCount == |ts.rows| == ts.cursor.value.received <= ts.cursor.value.total
          && ts.conv.value.kind.Valid()
          && Settled(ts.cursor.value.endMs, LastMs(NewestKey(ts.rows)))
          && match NewestKey(ts.rows)
             case None => true
             case Some(k) =>
               && ts.cursor.value.segmentMeta == k.id
               && ts.cursor.value.endMs >= k.time
               && ts.conv.value.lastMs >= k.time)
  }

  lemma CursorSettles(cur: Cursor, c: Conversation, n: int, newest: Option<Key>)
    requires Normal(cur.lastEnd)
    ensures Settled(CursorRowOf(CursorAfter(cur, c, n, LastTime(newest), LastId(newest))).endMs, LastMs(newest))
  {
    LastTimeIs(newest);
    SettlesIff(cur.lastEnd, LastMs(newest));
    ColumnTimesSettle(cur.lastEnd, LastMs(newest));
  }

  lemma IngestKeepsConsistent(ts: TalkerState, mode: Mode, c: Conversation, msgs: seq<Message>)
    requires Consistent(ts) && c.kind.Valid() && forall m :: m in msgs ==> m.id != ""
    ensures Consistent(IngestState(ts, mode, c, msgs))
  {
    var cur := CurrentCursor(c.account, c.talker, ts.cursor);
    CurrentCursorNormal(c.account, c.talker, ts.cursor);
    RowsOnlyGrow(ts.rows, mode, cur, msgs);
    var rows := Apply(ts.rows, mode, cur, msgs);
    assert "" !in rows;
    hide Apply, Settled;
    CursorSettles(cur, c, |rows|, NewestKey(rows));
    match NewestKey(rows)
    case None =>
    case Some(k) =>
      StoredLaterReaches(k.time, cur.lastEnd);
      match ts.conv {
        case None => StoredLaterReaches(k.time, c.lastMsgTime);
        case Some(e) => StoredLaterReaches(k.time, FromMillis(e.lastMs));
      }
  }

  function EndOf(row: Option<CursorRow>): Time {
    match row case None => ZERO_TIME case Some(r) => FromMillis(r.endMs)
  }

  function ReceivedOf(row: Option<CursorRow>): int {
    match row case None => 0 case Some(r) => r.received
  }

  /** A transaction never loses a row, never lowers the received count, and moves the cursor's end back
      exactly when the newest row lies at the epoch, which the column cannot tell from absent, while the
      cursor had reached a time between the zero instant and the epoch. */
  lemma CursorNeverRewinds(ts: TalkerState, mode: Mode, c: Conversation, msgs: seq<Message>)
    requires Consistent(ts)
    ensures var after := IngestState(ts, mode, c, msgs);
            && ts.rows.Keys <= after.rows.Keys
            && ReceivedOf(ts.cursor) <= ReceivedOf(after.cursor)
            && (EndOf(ts.cursor) <= EndOf(after.cursor)
                <==> !(LastMs(NewestKey(after.rows)) == 0 && ts.cursor.Some? && ZERO_MS < ts.cursor.value.endMs < 0))
  {
    var cur := CurrentCursor(c.account, c.talker, ts.cursor);
    RowsOnlyGrow(ts.rows, mode, cur, msgs);
    var newest := NewestKey(Apply(ts.rows, mode, cur, msgs));
    LastTimeIs(newest);
    RewindIff(cur.lastEnd, LastMs(newest));
  }

  lemma RewindIff(end: Time, lastMs: int)
    requires Normal(end)
    ensures end <= FromMillis(ToMillis(Later(RowTime(lastMs), end))) <==> !(lastMs == 0 && ZERO_TIME < end < 0)
    ensures ZERO_TIME < end < 0 <==> ZERO_MS < ToMillis(end) < 0
  {
    var m := Later(RowTime(lastMs), end);
    if end != ZERO_TIME {
      assert end == ToMillis(end) * NS_PER_MS && ToMillis(end) != 0;
    }
    if m != ZERO_TIME && m != 0 {
      assert ToMillis(m) != 0 && FromMillis(ToMillis(m)) == m by {
        assert m == (m / NS_PER_MS) * NS_PER_MS;
      }
    }
  }

  /** The newest row lies at 0 exactly when some row does and none lies above. */
  lemma NewestAtZeroIff(rows: map<string, Row>)
    ensures LastMs(NewestKey(rows)) == 0 <==> (exists id :: id in rows && rows[id].ms == 0) && forall id :: id in rows ==> rows[id].ms <= 0
  {
    if rows != map[] {
      var newest := NewestKey(rows).value;
      assert newest.id in rows && rows[newest.id].ms == newest.time;
      forall id | id in rows ensures rows[id].ms <= newest.time {
        assert RowKey(id, rows[id]) in KeysOf(rows);
      }
    }
  }

  /** Every row of a talker that agrees lies at or before the end of its cursor. */
  lemma RowsBeforeEnd(ts: TalkerState)
    requires Consistent(ts) && ts.cursor.Some?
    ensures forall id :: id in ts.rows ==> ts.rows[id].ms <= ts.cursor.value.endMs
  {
    forall id | id in ts.rows ensures ts.rows[id].ms <= ts.cursor.value.endMs {
      assert RowKey(id, ts.rows[id]) in KeysOf(ts.rows);
    }
  }

  /** The batch stores a message in the millisecond of the epoch, or without a time, and nothing later. */
  ghost predicate ReachesEpoch(ts: TalkerState, mode: Mode, cur: Cursor, msgs: seq<Message>) {
    && (forall m :: m in msgs ==> ToMillis(m.time) <= 0)
    && exists m :: m in msgs && ToMillis(m.time) == 0 && (m.id in ts.rows || !SkipByCursor(mode, cur, m))
  }

  lemma LaterIsStored(mode: Mode, cur: Cursor, m: Message)
    requires ZERO_TIME < cur.lastEnd < 0 && ToMillis(m.time) > 0
    ensures !SkipByCursor(mode, cur, m)
  {
  }

  lemma NewestReachesEpochIff(ts: TalkerState, mode: Mode, cur: Cursor, msgs: seq<Message>)
    requires DistinctIds(msgs) && ZERO_TIME < cur.lastEnd < 0
    requires forall id :: id in ts.rows ==> ts.rows[id].ms < 0
    ensures LastMs(NewestKey(Apply(ts.rows, mode, cur, msgs))) == 0 <==> ReachesEpoch(ts, mode, cur, msgs)
  {
    var rows := Apply(ts.rows, mode, cur, msgs);
    NewestAtZeroIff(rows);
    hide Apply, NewestKey, DistinctIds, AtOrBefore, ToMillis;
    forall m | m in msgs
      ensures m.id in rows <==> m.id in ts.rows || !SkipByCursor(mode, cur, m)
      ensures m.id in rows ==> rows[m.id].ms == ToMillis(m.time)
      ensures ToMillis(m.time) > 0 ==> m.id in rows
    {
      BatchRow(ts.rows, mode, cur, msgs, m);
      if ToMillis(m.time) > 0 { LaterIsStored(mode, cur, m); }
    }
    forall id | id in rows ensures rows[id].ms < 0 || exists m :: m in msgs && m.id == id {
      if forall m :: m in msgs ==> m.id != id { OtherRowsStay(ts.rows, mode, cur, msgs, id); }
    }
  }

  /** In terms of what a transaction starts from: the cursor's end goes back exactly when it lies between the
      zero instant and the epoch and the batch reaches the epoch's millisecond, which the column cannot tell
      from absent, and nothing later. */
  lemma CursorRewindsIff(ts: TalkerState, mode: Mode, c: Conversation, msgs: seq<Message>)
    requires Consistent(ts) && DistinctIds(msgs)
    ensures EndOf(IngestState(ts, mode, c, msgs).cursor) < EndOf(ts.cursor) <==>
              && ts.cursor.Some? && ZERO_MS < ts.cursor.value.endMs < 0
              && ReachesEpoch(ts, mode, CurrentCursor(c.account, c.talker, ts.cursor), msgs)
  {
    CursorNeverRewinds(ts, mode, c, msgs);
    if ts.cursor.Some? && ZERO_MS < ts.cursor.value.endMs < 0 {
      RowsBeforeEnd(ts);
      hide Consistent, Apply, ReachesEpoch, NewestKey, DistinctIds;
      NewestReachesEpochIff(ts, mode, CurrentCursor(c.account, c.talker, ts.cursor), msgs);
    }
  }

  lemma OneRow(m: Message, mode: Mode, rows: map<string, Row>, cur: Cursor)
    requires !SkipByCursor(mode, cur, m)
    ensures Apply(rows, mode, cur, [m]) == rows[m.id := RowOf(m)]
  {
    assert [m][1..] == [];
  }

  /** Two full backups of an empty account that take the cursor's end back, with times as packages give them:
      a message a millisecond before the epoch, and then one without a time. */
  lemma CursorCanRewind() returns (c: Conversation, m: Message, n: Message)
    ensures Normal(c.lastMsgTime) && Normal(m.time) && Normal(n.time)
    ensures var once := IngestState(TalkerState(map[], None, None), Full, c, [m]);
            && Consistent(once)
            && EndOf(once.cursor) == RowTime(-1)
            && EndOf(IngestState(once, Full, c, [n]).cursor) == ZERO_TIME
  {
    c := Conversation("a", "t", Friend, "t", "", ZERO_TIME, 0);
    m := Message("a", "t", "m", 1, 1, false, RowTime(-1), "", "", "");
    n := Message("a", "t", "n", 2, 1, false, ZERO_TIME, "", "", "");
    var start := TalkerState(map[], None, None);
    assert NewestKey(map[]).None?;
    IngestKeepsConsistent(start, Full, c, [m]);
    OneRow(m, Full, map[], NO_CURSOR);
    var rows: map<string, Row> := map[][m.id := RowOf(m)];
    assert NewestKey(rows).value == RowKey("m", RowOf(m)) by {
      assert RowKey("m", rows["m"]) in KeysOf(rows);
    }
    var once := IngestState(start, Full, c, [m]);
    var cur := CurrentCursor("a", "t", once.cursor);
    assert once.rows == rows && cur.lastEnd == RowTime(-1);
    OneRow(n, Full, rows, cur);
    var later := rows[n.id := RowOf(n)];
    assert later["n"].ms == 0;
    NewestAtZeroIff(later);
    LastTimeIs(NewestKey(later));
  }

  // ---- What is told about a talker --------------------------------------------------------------

  /** The last conversation the snapshot lists for a talker stands at place i. */
  predicate ListedLast(convs: seq<Conversation>, talker: string, i: nat) {
    i < |convs| && convs[i].talker == talker && forall j :: i < j < |convs| ==> convs[j].talker != talker
  }

  lemma {:induction false} LastOfTalker(convs: seq<Conversation>, talker: string, i: nat)
    requires ListedLast(convs, talker, i)
    ensures ConvsOf(convs, talker) != [] && ConvsOf(convs, talker)[|ConvsOf(convs, talker)| - 1] == convs[i]
    decreases |convs|
  {
    if i > 0 {
      LastOfTalker(convs[1..], talker, i - 1);
    } else {
      ConvMembers(convs[1..], talker);
      assert forall c :: c in convs[1..] ==> c.talker != talker;
    }
  }

  /** The conversation that the ingest goes by: the last one listed, or, for a talker that is not listed at
      all, a friend called by its id. A kind that is not known is taken for a friend. */
  lemma ConversationGoneBy(convs: seq<Conversation>, talker: string, account: string)
    ensures forall i: nat :: ListedLast(convs, talker, i) ==>
              var c, l := ConversationIn(convs, talker, account), convs[i];
              && c.account == account && c.talker == talker && c.displayName == l.displayName && c.avatar == l.avatar
              && c.lastMsgTime == l.lastMsgTime && c.kind == (if l.kind.OtherKind? then Friend else l.kind)
    ensures (forall c :: c in convs ==> c.talker != talker) ==>
              var c := ConversationIn(convs, talker, account);
              && c.account == account && c.talker == talker && c.displayName == talker && c.avatar == ""
              && c.lastMsgTime == ZERO_TIME && c.kind == Friend
  {
    forall i: nat | ListedLast(convs, talker, i)
      ensures ConvsOf(convs, talker) != [] && ConvsOf(convs, talker)[|ConvsOf(convs, talker)| - 1] == convs[i]
    {
      LastOfTalker(convs, talker, i);
    }
    ConvMembers(convs, talker);
  }

  /** Over a whole snapshot: a committed talker's row has the kind last listed for it, and the name and avatar
      last listed unless they are empty, in which case it keeps what it had. */
  lemma CommittedNames(before: Tables, after: Tables, account: string, mode: Mode, snap: Snapshot, done: seq<string>, u: string, i: nat)
    requires Ingested(before, after, account, mode, snap, done) && u in done && ListedLast(snap.conversations, u, i)
    ensures u in after.conversations
    ensures var now, l := after.conversations[u], snap.conversations[i];
            && now.displayName == (if u in before.conversations && l.displayName == "" then before.conversations[u].displayName else l.displayName)
            && now.avatar == (if u in before.conversations && l.avatar == "" then before.conversations[u].avatar else l.avatar)
            && now.kind == (if l.kind.OtherKind? then Friend else l.kind)
  {
    var c, b := ConversationIn(snap.conversations, u, account), BatchOf(snap.messages, u, account);
    ConversationGoneBy(snap.conversations, u, account);
    CommittedIsRecounted(View(before, u), mode, c, b);
    assert View(after, u) == IngestState(View(before, u), mode, c, b);
    hide IngestState, ConversationIn, BatchOf, Ingested, Advanced;
  }

  /** Two ingests of a talker: the later name that is not empty stands, and so for the avatar; a talker seen
      for the first time takes what is listed. */
  lemma LaterNamesStand(ts: TalkerState, first: Mode, c: Conversation, a: seq<Message>, second: Mode, d: Conversation, b: seq<Message>)
    requires c.kind.Valid() && d.kind.Valid()
    ensures var once := IngestState(ts, first, c, a);
            var twice := IngestState(once, second, d, b);
            && once.conv.Some? && twice.conv.Some?
            && (ts.conv.None? ==> once.conv.value.displayName == c.displayName && once.conv.value.avatar == c.avatar)
            && twice.conv.value.kind == d.kind && once.conv.value.kind == c.kind
            && (d.displayName != "" ==> twice.conv.value.displayName == d.displayName)
            && (d.displayName == "" ==> twice.conv.value.displayName == once.conv.value.displayName)
            && (d.avatar != "" ==> twice.conv.value.avatar == d.avatar)
            && (d.avatar == "" ==> twice.conv.value.avatar == once.conv.value.avatar)
  {
    var once := IngestState(ts, first, c, a);
    CommittedIsRecounted(ts, first, c, a);
    CommittedIsRecounted(once, second, d, b);
    hide IngestState, Advanced, IsNewest;
  }

  // ---- Every run --------------------------------------------------------------------------------

  /** Every talker's state agrees, and nothing is stored under a blank talker. */
  ghost predicate AllConsistent(t: Tables) {
    && (forall u :: Consistent(View(t, u)))
    && "" !in t.conversations && "" !in t.cursors
  }

  /** One ingest of any mode and snapshot, of which only the first transactions may have committed. */
  datatype Attempt = Attempt(mode: Mode, snap: Snapshot, committed: nat)

  /** The tables after each attempt of a run, starting from an empty account. */
  ghost predicate Run(states: seq<Tables>, account: string, attempts: seq<Attempt>) {
    && |states| == |attempts| + 1
    && states[0] == EMPTY_TABLES
    && forall i :: 0 <= i < |attempts| ==>
         Ingested(states[i], states[i + 1], account, attempts[i].mode, attempts[i].snap,
                  Committed(attempts[i].snap, attempts[i].committed))
  }

  lemma BatchIds(msgs: seq<Message>, talker: string, account: string)
    ensures forall m :: m in BatchOf(msgs, talker, account) ==> m.id != ""
  {
    BatchMembers(msgs, talker, account);
  }

  lemma TalkerKeepsConsistent(before: Tables, after: Tables, account: string, mode: Mode, snap: Snapshot, done: seq<string>, u: string)
    requires AllConsistent(before) && Ingested(before, after, account, mode, snap, done)
    ensures Consistent(View(after, u))
  {
    assert Consistent(View(before, u));
    BatchIds(snap.messages, u, account);
    ConversationFit(snap, u, account);
    var c, b := ConversationIn(snap.conversations, u, account), BatchOf(snap.messages, u, account);
    assert View(after, u) == if u in done then IngestState(View(before, u), mode, c, b) else View(before, u);
    hide Consistent, View, IngestState, BatchOf, ConversationIn, Ingested, AllConsistent;
    if u in done {
      IngestKeepsConsistent(View(before, u), mode, c, b);
    }
  }

  lemma ConversationFit(snap: Snapshot, u: string, account: string)
    ensures ConversationIn(snap.conversations, u, account).kind.Valid()
  {
  }

  lemma BlankStaysBlank(before: Tables, after: Tables, account: string, mode: Mode, snap: Snapshot, done: seq<string>)
    requires AllConsistent(before) && Ingested(before, after, account, mode, snap, done) && "" !in done
    ensures "" !in after.conversations && "" !in after.cursors
  {
    assert View(after, "") == View(before, "");
    assert "" in after.cursors <==> View(after, "").cursor.Some?;
    assert "" in after.conversations <==> View(after, "").conv.Some?;
  }

  lemma IngestedKeepsConsistent(before: Tables, after: Tables, account: string, mode: Mode, snap: Snapshot, done: seq<string>)
    requires AllConsistent(before) && Ingested(before, after, account, mode, snap, done) && "" !in done
    ensures AllConsistent(after)
  {
    BlankStaysBlank(before, after, account, mode, snap, done);
    hide Consistent, View, Ingested;
    forall u ensures Consistent(View(after, u)) {
      TalkerKeepsConsistent(before, after, account, mode, snap, done, u);
    }
  }

  lemma NoBlankCommitted(snap: Snapshot, k: nat)
    ensures "" !in Committed(snap, k)
  {
    var all := SortedStrings(TalkersIn(snap));
    assert forall u :: u in Committed(snap, k) ==> u in all;
  }

  lemma EmptyIsConsistent()
    ensures AllConsistent(EMPTY_TABLES)
  {
    forall u ensures Consistent(View(EMPTY_TABLES, u)) {
      assert RowsOf(map[], u) == map[];
    }
  }

  lemma StepStaysConsistent(states: seq<Tables>, account: string, attempts: seq<Attempt>, i: nat)
    requires Run(states, account, attempts) && i < |attempts| && AllConsistent(states[i])
    ensures AllConsistent(states[i + 1])
  {
    var a := attempts[i];
    NoBlankCommitted(a.snap, a.committed);
    assert Ingested(states[i], states[i + 1], account, a.mode, a.snap, Committed(a.snap, a.committed));
    hide Run, AllConsistent, Ingested, Committed;
    IngestedKeepsConsistent(states[i], states[i + 1], account, a.mode, a.snap, Committed(a.snap, a.committed));
  }

  lemma StartIsEmpty(states: seq<Tables>, account: string, attempts: seq<Attempt>)
    requires |states| == |attempts| + 1 && Run(states, account, attempts)
    ensures states[0] == EMPTY_TABLES
  {
  }

  /** In every state of every run, whatever committed and whatever failed, rows, counts, conversations
      and cursors agree. */
  lemma {:induction false} RunsStayConsistent(states: seq<Tables>, account: string, attempts: seq<Attempt>, i: nat)
    requires |states| == |attempts| + 1 && Run(states, account, attempts) && i <= |attempts|
    ensures AllConsistent(states[i])
  {
    hide Run, AllConsistent;
    if i == 0 {
      StartIsEmpty(states, account, attempts);
      EmptyIsConsistent();
    } else {
      RunsStayConsistent(states, account, attempts, i - 1);
      StepStaysConsistent(states, account, attempts, i - 1);
    }
  }

  /** Every row still there, and no fewer received. */
  ghost predicate NoLess(a: TalkerState, b: TalkerState) {
    a.rows.Keys <= b.rows.Keys && ReceivedOf(a.cursor) <= ReceivedOf(b.cursor)
  }

  lemma NoLessTransitive(a: TalkerState, b: TalkerState, c: TalkerState)
    requires NoLess(a, b) && NoLess(b, c)
    ensures NoLess(a, c)
  {
  }

  /** Along every run no row is ever lost and no received count ever falls. */
  lemma {:induction false} RunsOnlyGrow(states: seq<Tables>, account: string, attempts: seq<Attempt>, i: nat, j: nat, u: string)
    requires |states| == |attempts| + 1 && Run(states, account, attempts) && i <= j <= |attempts|
    ensures NoLess(View(states[i], u), View(states[j], u))
    decreases j
  {
    hide Run, View, NoLess, AllConsistent;
    if i < j {
      RunsOnlyGrow(states, account, attempts, i, j - 1, u);
      RunsStayConsistent(states, account, attempts, j - 1);
      StepOnlyGrows(states, account, attempts, j - 1, u);
      NoLessTransitive(View(states[i], u), View(states[j - 1], u), View(states[j], u));
    } else {
      SameIsNoLess(View(states[i], u));
    }
  }

  lemma SameIsNoLess(a: TalkerState)
    ensures NoLess(a, a)
  {
  }

  lemma StepOnlyGrows(states: seq<Tables>, account: string, attempts: seq<Attempt>, i: nat, u: string)
    requires Run(states, account, attempts) && i < |attempts| && AllConsistent(states[i])
    ensures NoLess(View(states[i], u), View(states[i + 1], u))
  {
    hide Consistent, View, IngestState, BatchOf, NewestKey, ReceivedOf;
    var a := attempts[i];
    assert Ingested(states[i], states[i + 1], account, a.mode, a.snap, Committed(a.snap, a.committed));
    CursorNeverRewinds(View(states[i], u), a.mode, ConversationIn(a.snap.conversations, u, account),
                       BatchOf(a.snap.messages, u, account));
  }

  // ---- Runs without times before the epoch ------------------------------------------------------

  ghost predicate FromEpochOn(ts: TalkerState) {
    (forall id :: id in ts.rows ==> ts.rows[id].ms >= 0) && (ts.cursor.Some? ==> ts.cursor.value.endMs >= 0)
  }

  lemma {:induction false} ApplyFromEpochOn(rows: map<string, Row>, mode: Mode, cur: Cursor, msgs: seq<Message>)
    requires forall id :: id in rows ==> rows[id].ms >= 0
    requires forall m :: m in msgs ==> ToMillis(m.time) >= 0
    ensures forall id :: id in Apply(rows, mode, cur, msgs) ==> Apply(rows, mode, cur, msgs)[id].ms >= 0
    decreases |msgs|
  {
    if msgs != [] {
      assert msgs[0] in msgs;
      ApplyFromEpochOn(ApplyOne(rows, mode, cur, msgs[0]), mode, cur, msgs[1..]);
    }
  }

  lemma IngestFromEpochOn(ts: TalkerState, mode: Mode, c: Conversation, msgs: seq<Message>)
    requires FromEpochOn(ts) && forall m :: m in msgs ==> ToMillis(m.time) >= 0
    ensures FromEpochOn(IngestState(ts, mode, c, msgs))
  {
    var cur := CurrentCursor(c.account, c.talker, ts.cursor);
    ApplyFromEpochOn(ts.rows, mode, cur, msgs);
    hide Apply;
  }

  /** No message of the snapshot has a time between the zero instant and the epoch. */
  ghost predicate NoneBeforeEpoch(snap: Snapshot) {
    forall m :: m in snap.messages ==> ToMillis(m.time) >= 0
  }

  lemma {:induction false} BatchFromEpochOn(msgs: seq<Message>, talker: string, account: string)
    requires forall m :: m in msgs ==> ToMillis(m.time) >= 0
    ensures forall m :: m in BatchOf(msgs, talker, account) ==> ToMillis(m.time) >= 0
  {
    if msgs != [] {
      assert msgs[0] in msgs;
      BatchFromEpochOn(msgs[1..], talker, account);
    }
  }

  lemma StepFromEpochOn(states: seq<Tables>, account: string, attempts: seq<Attempt>, i: nat, u: string)
    requires |states| == |attempts| + 1 && Run(states, account, attempts) && i < |attempts| && NoneBeforeEpoch(attempts[i].snap)
    requires Consistent(View(states[i], u)) && FromEpochOn(View(states[i], u))
    ensures FromEpochOn(View(states[i + 1], u)) && EndOf(View(states[i], u).cursor) <= EndOf(View(states[i + 1], u).cursor)
  {
    var a := attempts[i];
    assert Ingested(states[i], states[i + 1], account, a.mode, a.snap, Committed(a.snap, a.committed));
    var c, b := ConversationIn(a.snap.conversations, u, account), BatchOf(a.snap.messages, u, account);
    assert View(states[i + 1], u) == View(states[i], u) || View(states[i + 1], u) == IngestState(View(states[i], u), a.mode, c, b);
    BatchFromEpochOn(a.snap.messages, u, account);
    hide Run, Ingested, View, IngestState, Consistent, BatchOf, ConversationIn, NewestKey, ToMillis;
    IngestFromEpochOn(View(states[i], u), a.mode, c, b);
    CursorNeverRewinds(View(states[i], u), a.mode, c, b);
  }

  lemma EmptyFromEpochOn(u: string)
    ensures FromEpochOn(View(EMPTY_TABLES, u))
  {
    assert RowsOf(map[], u) == map[];
  }

  /** Along every run whose messages all lie at the epoch or later, or have no time, no cursor's end ever
      goes back. */
  lemma {:induction false} RunsNeverRewind(states: seq<Tables>, account: string, attempts: seq<Attempt>, i: nat, j: nat, u: string)
    requires |states| == |attempts| + 1 && Run(states, account, attempts) && i <= j <= |attempts|
    requires forall k :: 0 <= k < |attempts| ==> NoneBeforeEpoch(attempts[k].snap)
    ensures EndOf(View(states[i], u).cursor) <= EndOf(View(states[j], u).cursor)
    ensures FromEpochOn(View(states[j], u))
    decreases j
  {
    hide *;
    if j == 0 {
      StartIsEmpty(states, account, attempts);
      EmptyFromEpochOn(u);
    } else {
      RunsNeverRewind(states, account, attempts, if i < j then i else j - 1, j - 1, u);
      RunsStayConsistent(states, account, attempts, j - 1);
      ConsistentView(states[j - 1], u);
      StepFromEpochOn(states, account, attempts, j - 1, u);
    }
  }

  lemma ConsistentView(t: Tables, u: string)
    requires AllConsistent(t)
    ensures Consistent(View(t, u))
  {
  }

  // ---- Settled accounts -------------------------------------------------------------------------

  /** Stored times that survive being exported and ingested again. */
  ghost predicate RowsRepresentable(rows: map<string, Row>) {
    forall id :: id in rows ==> rows[id].ms != ZERO_MS
  }

  ghost predicate SettledState(ts: TalkerState) {
    && RowsRepresentable(ts.rows)
    && (ts.conv.Some? ==> ts.conv.value.lastMs != ZERO_MS && Settled(ts.conv.value.lastMs, LastMs(NewestKey(ts.rows))))
  }

  ghost predicate NormalTimes(c: Conversation, msgs: seq<Message>) {
    Normal(c.lastMsgTime) && forall m :: m in msgs ==> Normal(m.time)
  }

  lemma {:induction false} ApplyKeepsTimes(rows: map<string, Row>, mode: Mode, cur: Cursor, msgs: seq<Message>)
    requires RowsRepresentable(rows)
    requires forall m :: m in msgs ==> Normal(m.time)
    ensures RowsRepresentable(Apply(rows, mode, cur, msgs))
    decreases |msgs|
  {
    if msgs != [] {
      assert msgs[0] in msgs;
      NormalisesOnce(msgs[0].time);
      var rows1 := ApplyOne(rows, mode, cur, msgs[0]);
      ApplyKeepsTimes(rows1, mode, cur, msgs[1..]);
      assert Apply(rows, mode, cur, msgs) == Apply(rows1, mode, cur, msgs[1..]);
    }
  }

  lemma ConversationKeepsSettled(existing: Option<ConvRow>, c: Conversation, n: int, newest: Option<Key>)
    requires c.kind.Valid() && Normal(c.lastMsgTime) && (newest.Some? ==> newest.value.time != ZERO_MS)
    ensures var row := ConvRowOf(ConversationAfter(existing, c, n, LastTime(newest)));
            row.lastMs != ZERO_MS && Settled(row.lastMs, LastMs(newest))
  {
    ColumnTimesSettle(c.lastMsgTime, LastMs(newest));
    ConversationStable(existing, c, n, newest);
    StoredTimeRepresentable(match existing case None => c.lastMsgTime case Some(e) => FromMillis(e.lastMs), newest);
  }

  /** Snapshots whose times came from a package keep an account settled, in every mode. */
  lemma IngestKeepsSettled(ts: TalkerState, mode: Mode, c: Conversation, msgs: seq<Message>)
    requires SettledState(ts) && NormalTimes(c, msgs) && c.kind.Valid()
    ensures SettledState(IngestState(ts, mode, c, msgs))
  {
    hide Apply, Settled, ConversationAfter, CursorAfter, Normal, ConvRowOf, CursorRowOf;
    var cur := CurrentCursor(c.account, c.talker, ts.cursor);
    ApplyKeepsTimes(ts.rows, mode, cur, msgs);
    var rows := Apply(ts.rows, mode, cur, msgs);
    var newest := NewestKey(rows);
    assert newest.Some? ==> newest.value.time != ZERO_MS;
    ConversationKeepsSettled(ts.conv, c, |rows|, newest);
  }

  lemma StoredTimeRepresentable(base: Time, newest: Option<Key>)
    requires Normal(base) && (newest.Some? ==> newest.value.time != ZERO_MS)
    ensures ToMillis(Later(LastTime(newest), base)) != ZERO_MS
  {
    LastTimeIs(newest);
    var m := Later(LastTime(newest), base);
    if m == base { NormalisesOnce(base); } else { ColumnRoundTrip(LastMs(newest)); }
  }
}
