/** Interrupted, resumed and incremental backups compared with one full backup. */
module Recovery {
  import opened Domain
  import opened Order
  import opened Frames
  import opened Store
  import opened Ingest
  import opened IngestLaws
  import opened Chunks
  import opened ChunkLaws

  // ---- Batches of a delivery --------------------------------------------------------------------

  lemma {:induction false} BatchOfOwn(msgs: seq<Message>, t: string, account: string)
    ensures BatchOf(msgs, t, account) == BatchOf(OfTalker(msgs, t), t, account)
  {
    if msgs != [] {
      BatchOfOwn(msgs[1..], t, account);
      var own := OfTalker(msgs[1..], t);
      if msgs[0].talker == t {
        assert ([msgs[0]] + own)[1..] == own;
      } else {
        assert [] + own == own && [] + BatchOf(msgs[1..], t, account) == BatchOf(msgs[1..], t, account);
      }
    }
  }

  lemma {:induction false} BatchMember(msgs: seq<Message>, t: string, account: string, n: Message)
    ensures n in BatchOf(msgs, t, account) <==>
            exists m :: m in msgs && m.talker == t && Ingestible(m) && n == m.(account := account)
  {
    if msgs != [] {
      BatchMember(msgs[1..], t, account, n);
      assert msgs == [msgs[0]] + msgs[1..];
    }
  }

  /** The test looks at nothing but time and id, and at nothing of the cursor but its end and its id. */
  lemma SameTest(a: Cursor, b: Cursor, m: Message, account: string)
    requires a.lastEnd == b.lastEnd && a.segmentMeta == b.segmentMeta
    ensures AtOrBefore(a, m.(account := account)) <==> AtOrBefore(b, m)
  {
  }

  /** The deliverable batch of a talker after filtering: those of the whole batch that pass the test. */
  lemma {:induction false} PastBatch(msgs: seq<Message>, t: string, account: string, cur: Cursor)
    ensures forall n :: n in BatchOf(Past(msgs, cur), t, account) <==> n in BatchOf(msgs, t, account) && !AtOrBefore(cur, n)
    ensures DistinctIds(BatchOf(msgs, t, account)) ==> DistinctIds(BatchOf(Past(msgs, cur), t, account))
  {
    if msgs != [] {
      var m, rest := msgs[0], msgs[1..];
      PastBatch(rest, t, account, cur);
      SameTest(cur, cur, m, account);
      var b, p := BatchOf(rest, t, account), BatchOf(Past(rest, cur), t, account);
      var head := if m.talker == t && Ingestible(m) then [m.(account := account)] else [];
      assert BatchOf(msgs, t, account) == head + b;
      if AtOrBefore(cur, m) {
        assert Past(msgs, cur) == Past(rest, cur);
      } else {
        assert ([m] + Past(rest, cur))[1..] == Past(rest, cur);
        assert BatchOf(Past(msgs, cur), t, account) == head + p;
      }
      if DistinctIds(head + b) {
        DistinctTail(head, b, p);
      }
    }
  }

  lemma DistinctTail(head: seq<Message>, b: seq<Message>, p: seq<Message>)
    requires DistinctIds(head + b) && |head| <= 1 && forall n :: n in p ==> n in b
    ensures DistinctIds(b)
    ensures DistinctIds(p) ==> DistinctIds(head + p)
  {
    forall i, j | 0 <= i < j < |b| ensures b[i].id != b[j].id {
      assert (head + b)[|head| + i].id != (head + b)[|head| + j].id;
    }
    if DistinctIds(p) {
      forall i, j | 0 <= i < j < |head + p| ensures (head + p)[i].id != (head + p)[j].id {
        if i < |head| {
          assert p[j - |head|] in b;
          var k :| 0 <= k < |b| && b[k] == p[j - |head|];
          assert (head + b)[0].id != (head + b)[|head| + k].id;
        } else {
          assert p[i - |head|].id != p[j - |head|].id;
        }
      }
    }
  }

  // ---- Times cut to the millisecond -------------------------------------------------------------

  function CutConversation(c: Conversation): Conversation {
    c.(lastMsgTime := FromMillis(ToMillis(c.lastMsgTime)))
  }

  function CutConversations(convs: seq<Conversation>): (r: seq<Conversation>)
    ensures |r| == |convs| && forall i :: 0 <= i < |r| ==> r[i] == CutConversation(convs[i])
  {
    seq(|convs|, i requires 0 <= i < |convs| => CutConversation(convs[i]))
  }

  /** The snapshot with every time cut to what a column can hold, as a package cuts them. */
  function Cut(snap: Snapshot): Snapshot {
    snap.(conversations := CutConversations(snap.conversations), messages := NormalisedAll(snap.messages))
  }

  lemma NormalisedMember(g: seq<Message>, n: Message)
    ensures n in NormalisedAll(g) <==> exists m :: m in g && n == Normalised(m)
  {
    if n in NormalisedAll(g) {
      var i :| 0 <= i < |g| && NormalisedAll(g)[i] == n;
      assert g[i] in g;
    }
    if m :| m in g && n == Normalised(m) {
      var i :| 0 <= i < |g| && g[i] == m;
      assert NormalisedAll(g)[i] in NormalisedAll(g);
    }
  }

  lemma CutDistinct(msgs: seq<Message>)
    requires DistinctIds(msgs)
    ensures DistinctIds(NormalisedAll(msgs))
  {
  }

  lemma {:induction false} ConvsOfCut(convs: seq<Conversation>, t: string)
    ensures ConvsOf(CutConversations(convs), t) == CutConversations(ConvsOf(convs, t))
  {
    if convs != [] {
      ConvsOfCut(convs[1..], t);
      assert CutConversations(convs)[1..] == CutConversations(convs[1..]);
      var head, own := if convs[0].talker == t then [convs[0]] else [], ConvsOf(convs[1..], t);
      assert CutConversations(head + own) == CutConversations(head) + CutConversations(own);
    }
  }

  lemma {:induction false} BatchOfCut(msgs: seq<Message>, t: string, account: string)
    ensures BatchOf(NormalisedAll(msgs), t, account) == NormalisedAll(BatchOf(msgs, t, account))
  {
    if msgs != [] {
      BatchOfCut(msgs[1..], t, account);
      assert NormalisedAll(msgs)[1..] == NormalisedAll(msgs[1..]);
      var head := if msgs[0].talker == t && Ingestible(msgs[0]) then [msgs[0].(account := account)] else [];
      NormalisedAllConcat(head, BatchOf(msgs[1..], t, account));
    }
  }

  /** The cut changes the times of what a talker is ingested with, and nothing else. */
  lemma CutTalker(d: Snapshot, account: string, u: string)
    ensures u in TalkersIn(Cut(d)) <==> u in TalkersIn(d)
    ensures ConversationIn(Cut(d).conversations, u, account) == CutConversation(ConversationIn(d.conversations, u, account))
    ensures BatchOf(Cut(d).messages, u, account) == NormalisedAll(BatchOf(d.messages, u, account))
  {
    TalkerIn(d, account, u);
    TalkerIn(Cut(d), account, u);
    ConvsOfCut(d.conversations, u);
    BatchOfCut(d.messages, u, account);
    hide TalkersIn, BatchOf, ConvsOf;
  }

  /** A snapshot in which no talker has two messages with one id. */
  ghost predicate DistinctMessages(snap: Snapshot, account: string) {
    forall u :: DistinctIds(BatchOf(snap.messages, u, account))
  }

  ghost predicate NormalConversations(snap: Snapshot) {
    forall c :: c in snap.conversations ==> Normal(c.lastMsgTime)
  }

  /** The conversation a delivery records for a talker of the source. */
  function SourceConversation(snap: Snapshot, account: string, u: string): Conversation {
    var kept := KeptConversations(snap, account, u);
    var c := if kept == [] then MadeUp(account, u) else kept[0];
    c.(account := account, kind := if c.kind.Valid() then c.kind else Friend)
  }

  function SourceBatch(snap: Snapshot, account: string, mode: Mode, cursors: map<string, CursorRow>, u: string): seq<Message> {
    BatchOf(KeptMessages(snap, mode, cursors, u), u, account)
  }

  lemma TalkerIn(snap: Snapshot, account: string, u: string)
    ensures u in TalkersIn(snap) <==> u != "" && (ConvsOf(snap.conversations, u) != [] || BatchOf(snap.messages, u, account) != [])
  {
    ConvMembers(snap.conversations, u);
    BatchMembers(snap.messages, u, account);
  }

  /** A delivery mentions exactly the source's talkers that are not dropped, and for each of them carries
      the source's conversation and the messages past its cursor. */
  lemma DeliveryOf(snap: Snapshot, account: string, wxid: string, mode: Mode, cursors: map<string, CursorRow>, u: string)
    requires "" !in cursors
    ensures var d := Delivered(snap, account, wxid, mode, cursors);
            && (u in TalkersIn(d) <==> u in SourceTalkers(snap) && !Dropped(snap, mode, cursors, u))
            && (u in TalkersIn(d) ==>
                  && ConversationIn(d.conversations, u, account) == SourceConversation(snap, account, u)
                  && BatchOf(d.messages, u, account) == SourceBatch(snap, account, mode, cursors, u))
  {
    var d := Delivered(snap, account, wxid, mode, cursors);
    hide Delivered;
    DeliveredTalker(snap, account, wxid, mode, cursors, u);
    TalkerIn(d, account, u);
    BatchOfOwn(d.messages, u, account);
    if u != "" {
      SourceTalker(snap, u);
      KeptConversationsIff(snap, account, mode, cursors, u);
    } else {
      BlankHasNoChunk(snap, mode, cursors);
    }
  }

  lemma KeptConversationsIff(snap: Snapshot, account: string, mode: Mode, cursors: map<string, CursorRow>, u: string)
    requires u != ""
    ensures KeptConversations(snap, account, u) != [] <==> ConvsOf(snap.conversations, u) != [] || OfTalker(snap.messages, u) != []
    ensures KeptMessages(snap, mode, cursors, u) != [] ==> OfTalker(snap.messages, u) != []
    ensures |KeptConversations(snap, account, u)| <= 1
    ensures Dropped(snap, mode, cursors, u) ==> BatchOf(KeptMessages(snap, mode, cursors, u), u, account) == []
  {
  }

  // ---- What is ingested -------------------------------------------------------------------------

  /** What a job ingests: the delivery after its trip through a package. */
  ghost function Sent(snap: Snapshot, account: string, wxid: string, mode: Mode, cursors: map<string, CursorRow>): Snapshot {
    Cut(Delivered(snap, account, wxid, mode, cursors))
  }

  function SentConversation(snap: Snapshot, account: string, u: string): Conversation {
    CutConversation(SourceConversation(snap, account, u))
  }

  function SentBatch(snap: Snapshot, account: string, mode: Mode, cursors: map<string, CursorRow>, u: string): seq<Message> {
    NormalisedAll(SourceBatch(snap, account, mode, cursors, u))
  }

  lemma SentOf(snap: Snapshot, account: string, wxid: string, mode: Mode, cursors: map<string, CursorRow>, u: string)
    requires "" !in cursors
    ensures var d := Sent(snap, account, wxid, mode, cursors);
            && (u in TalkersIn(d) <==> u in SourceTalkers(snap) && !Dropped(snap, mode, cursors, u))
            && (u in TalkersIn(d) ==>
                  && ConversationIn(d.conversations, u, account) == SentConversation(snap, account, u)
                  && BatchOf(d.messages, u, account) == SentBatch(snap, account, mode, cursors, u))
  {
    hide TalkersIn, BatchOf, ConversationIn, SourceBatch, SourceConversation, Delivered, Cut, CutConversation, SourceTalkers, Dropped;
    DeliveryOf(snap, account, wxid, mode, cursors, u);
    CutTalker(Delivered(snap, account, wxid, mode, cursors), account, u);
  }

  lemma SentConversationFit(snap: Snapshot, account: string, u: string)
    requires u != ""
    ensures var c := SentConversation(snap, account, u);
            c.kind.Valid() && c.account == account && c.talker == u && Normal(c.lastMsgTime)
  {
    ConvMembers(snap.conversations, u);
    var own := ConvsOf(snap.conversations, u);
    if own != [] { assert own[0] in own; }
    NormalisesOnce(SourceConversation(snap, account, u).lastMsgTime);
  }

  // ---- One talker again -------------------------------------------------------------------------

  const FRESH := TalkerState(map[], None, None)

  lemma {:induction false} StoredAlready(rows: map<string, Row>, mode: Mode, cur: Cursor, msgs: seq<Message>)
    requires forall m :: m in msgs ==> m.id in rows && rows[m.id] == RowOf(m)
    ensures Apply(rows, mode, cur, msgs) == rows
    decreases |msgs|
  {
    if msgs != [] {
      assert msgs[0] in msgs;
      assert rows[msgs[0].id := RowOf(msgs[0])] == rows;
      StoredAlready(rows, mode, cur, msgs[1..]);
    }
  }

  lemma FullBatchStored(rows: map<string, Row>, cur: Cursor, b: seq<Message>, part: seq<Message>)
    requires DistinctIds(b) && forall m :: m in part ==> m in b
    ensures var after := Apply(rows, Full, cur, b); forall m :: m in part ==> m.id in after && after[m.id] == RowOf(m)
  {
    forall m | m in part ensures var after := Apply(rows, Full, cur, b); m.id in after && after[m.id] == RowOf(m) {
      BatchRow(rows, Full, cur, b, m);
    }
  }

  /** A talker ingested in full is left exactly as it is by any later part of the same batch. */
  lemma PartAddsNothing(ts: TalkerState, c: Conversation, b: seq<Message>, mode: Mode, part: seq<Message>)
    requires DistinctIds(b) && (forall m :: m in part ==> m in b)
    requires c.kind.Valid() && ConversationSettles(ts, Full, c, b)
    ensures var once := IngestState(ts, Full, c, b); IngestState(once, mode, c, part) == once
  {
    var cur := CurrentCursor(c.account, c.talker, ts.cursor);
    var once := IngestState(ts, Full, c, b);
    FullBatchStored(ts.rows, cur, b, part);
    StoredAlready(once.rows, mode, CurrentCursor(c.account, c.talker, once.cursor), part);
    var newest := NewestKey(once.rows);
    hide Apply, NewestKey, ConversationAfter, CursorAfter, TimeSettles;
    ConversationStable(ts.conv, c, |once.rows|, newest);
    CurrentCursorNormal(c.account, c.talker, ts.cursor);
    CursorStable(cur, c, |once.rows|, newest);
  }

  lemma {:induction false} NoCursorSkipsNothing(rows: map<string, Row>, mode: Mode, cur: Cursor, msgs: seq<Message>)
    requires cur.lastEnd == ZERO_TIME && cur.segmentMeta == ""
    ensures Apply(rows, mode, cur, msgs) == Apply(rows, Full, cur, msgs)
    decreases |msgs|
  {
    if msgs != [] {
      NoCursorSkipsNothing(ApplyOne(rows, mode, cur, msgs[0]), mode, cur, msgs[1..]);
    }
  }

  lemma FreshModesAgree(ts: TalkerState, mode: Mode, c: Conversation, b: seq<Message>)
    requires ts.cursor.None?
    ensures IngestState(ts, mode, c, b) == IngestState(ts, Full, c, b)
  {
    NoCursorSkipsNothing(ts.rows, mode, NO_CURSOR, b);
  }

  // ---- Interrupted and resumed ------------------------------------------------------------------

  /** Every talker is either as the full run leaves it or still untouched. */
  ghost predicate Partial(p: Tables, full: Tables) {
    forall u :: View(p, u) == View(full, u) || View(p, u) == FRESH
  }

  /** The tables one uninterrupted full backup of the source makes of an empty account. */
  ghost predicate FullBackup(full: Tables, snap: Snapshot, account: string, wxid: string) {
    var d := Sent(snap, account, wxid, Full, map[]);
    Ingested(EMPTY_TABLES, full, account, Full, d, SortedStrings(TalkersIn(d)))
  }

  lemma EmptyViews(u: string)
    ensures View(EMPTY_TABLES, u) == FRESH
  {
    assert RowsOf(map[], u) == map[];
  }

  lemma FullBackupView(full: Tables, snap: Snapshot, account: string, wxid: string, u: string)
    requires FullBackup(full, snap, account, wxid)
    ensures View(full, u) ==
            if u in SourceTalkers(snap)
            then IngestState(FRESH, Full, SentConversation(snap, account, u), SentBatch(snap, account, Full, map[], u))
            else FRESH
  {
    EmptyViews(u);
    SentOf(snap, account, wxid, Full, map[], u);
    hide View, IngestState, SourceTalkers, TalkersIn, SentConversation, SentBatch, Delivered;
    var d := Sent(snap, account, wxid, Full, map[]);
    assert u in SortedStrings(TalkersIn(d)) <==> u in TalkersIn(d);
  }

  /** A full run cut off after any number of talkers is partial. */
  lemma InterruptedIsPartial(full: Tables, p: Tables, snap: Snapshot, account: string, wxid: string, k: nat)
    requires FullBackup(full, snap, account, wxid)
    requires var d := Sent(snap, account, wxid, Full, map[]);
             Ingested(EMPTY_TABLES, p, account, Full, d, Committed(d, k))
    ensures Partial(p, full)
  {
    var d := Sent(snap, account, wxid, Full, map[]);
    var all := SortedStrings(TalkersIn(d));
    assert forall u :: u in Committed(d, k) ==> u in all;
    hide View, IngestState, SortedStrings, TalkersIn, Sent, Committed;
    forall u ensures View(p, u) == View(full, u) || View(p, u) == FRESH {
      EmptyViews(u);
    }
  }

  lemma PartialHasNoBlank(p: Tables, full: Tables, snap: Snapshot, account: string, wxid: string)
    requires FullBackup(full, snap, account, wxid) && Partial(p, full)
    ensures "" !in p.cursors
  {
    FullBackupView(full, snap, account, wxid, "");
    BlankHasNoChunk(snap, Full, map[]);
    assert View(p, "") == FRESH;
  }

  /** What one talker is after a resume that reaches it. */
  lemma ResumedTalker(full: Tables, p: Tables, snap: Snapshot, account: string, wxid: string, u: string)
    requires FullBackup(full, snap, account, wxid) && Partial(p, full) && "" !in p.cursors
    requires DistinctMessages(snap, account)
    requires u in SourceTalkers(snap)
    ensures IngestState(View(p, u), Resume, SentConversation(snap, account, u), SentBatch(snap, account, Resume, p.cursors, u))
         == View(full, u)
  {
    FullBackupView(full, snap, account, wxid, u);
    BlankHasNoChunk(snap, Full, map[]);
    SentConversationFit(snap, account, u);
    PartOfBatch(snap, account, p.cursors, u);
    var c := SentConversation(snap, account, u);
    var b, part := SentBatch(snap, account, Full, map[], u), SentBatch(snap, account, Resume, p.cursors, u);
    assert u in p.cursors <==> View(p, u).cursor.Some?;
    hide View, IngestState, DistinctIds, DistinctMessages, SentBatch, SentConversation, SourceTalkers,
      FullBackup;
    if View(p, u) == FRESH {
      FreshModesAgree(FRESH, Resume, c, b);
    } else {
      assert View(p, u) == View(full, u);
      NormalSettles(FRESH, Full, c, b);
      hide ConversationSettles;
      PartAddsNothing(FRESH, c, b, Resume, part);
    }
  }

  /** What a resume delivers of a talker is part of the talker's batch, and all of it when there is no cursor. */
  lemma PartOfBatch(snap: Snapshot, account: string, cursors: map<string, CursorRow>, u: string)
    requires DistinctMessages(snap, account)
    ensures var b, part := SentBatch(snap, account, Full, map[], u), SentBatch(snap, account, Resume, cursors, u);
            DistinctIds(b) && (forall m :: m in part ==> m in b) && (u !in cursors ==> part == b)
  {
    var b, part := SourceBatch(snap, account, Full, map[], u), SourceBatch(snap, account, Resume, cursors, u);
    BatchOfOwn(snap.messages, u, account);
    assert DistinctIds(BatchOf(snap.messages, u, account));
    if u in cursors {
      PastBatch(OfTalker(snap.messages, u), u, account, CursorAt("", u, cursors[u]));
    }
    CutDistinct(b);
    hide SourceBatch, DistinctIds;
    forall n | n in NormalisedAll(part) ensures n in NormalisedAll(b) {
      NormalisedMember(part, n);
      NormalisedMember(b, n);
    }
  }

  /** Resuming a partial account with the same source, filtered by the cursors it has reached, leaves it
      partial wherever the resume is cut off; a resume that runs to the end gives exactly the account of
      one uninterrupted full backup. */
  lemma ResumeCompletes(full: Tables, p: Tables, r: Tables, snap: Snapshot, account: string, wxid: string, k: nat)
    requires FullBackup(full, snap, account, wxid) && Partial(p, full)
    requires DistinctMessages(snap, account)
    requires var d := Sent(snap, account, wxid, Resume, p.cursors);
             Ingested(p, r, account, Resume, d, Committed(d, k))
    ensures Partial(r, full)
    ensures |SortedStrings(TalkersIn(Sent(snap, account, wxid, Resume, p.cursors)))| <= k ==> r == full
  {
    var d := Sent(snap, account, wxid, Resume, p.cursors);
    var all := SortedStrings(TalkersIn(d));
    assert forall u :: u in all <==> u in TalkersIn(d);
    PartialHasNoBlank(p, full, snap, account, wxid);
    forall u
      ensures View(r, u) == View(full, u) || View(r, u) == View(p, u)
      ensures |all| <= k ==> View(r, u) == View(full, u)
    {
      ResumedView(full, p, r, snap, account, wxid, k, u);
    }
    if |all| <= k {
      ViewsDecide(r, full);
    }
  }

  lemma ResumedView(full: Tables, p: Tables, r: Tables, snap: Snapshot, account: string, wxid: string, k: nat, u: string)
    requires FullBackup(full, snap, account, wxid) && Partial(p, full) && "" !in p.cursors
    requires DistinctMessages(snap, account)
    requires var d := Sent(snap, account, wxid, Resume, p.cursors);
             Ingested(p, r, account, Resume, d, Committed(d, k))
    ensures View(r, u) == View(full, u) || View(r, u) == View(p, u)
    ensures |SortedStrings(TalkersIn(Sent(snap, account, wxid, Resume, p.cursors)))| <= k ==> View(r, u) == View(full, u)
  {
    var d := Sent(snap, account, wxid, Resume, p.cursors);
    SentOf(snap, account, wxid, Resume, p.cursors, u);
    FullBackupView(full, snap, account, wxid, u);
    assert u in p.cursors <==> View(p, u).cursor.Some?;
    if u in SourceTalkers(snap) { ResumedTalker(full, p, snap, account, wxid, u); }
    var all := SortedStrings(TalkersIn(d));
    assert u in all <==> u in TalkersIn(d);
    assert u in Committed(d, k) ==> u in all;
    assert |all| <= k ==> Committed(d, k) == all;
    assert View(p, u) == View(full, u) || View(p, u) == FRESH;
    hide View, IngestState, SourceTalkers, TalkersIn, SentConversation, SentBatch, Sent, FullBackup, Partial,
      DistinctMessages, SortedStrings, Committed, KeptMessages;
  }

  // ---- Incremental ------------------------------------------------------------------------------

  ghost predicate FullRun(t: Tables, full: Tables, snap: Snapshot, account: string, wxid: string) {
    var d := Sent(snap, account, wxid, Full, t.cursors);
    Ingested(t, full, account, Full, d, SortedStrings(TalkersIn(d)))
  }

  ghost predicate IncrementalRun(t: Tables, inc: Tables, snap: Snapshot, account: string, wxid: string) {
    var d := Sent(snap, account, wxid, Incremental, t.cursors);
    Ingested(t, inc, account, Incremental, d, SortedStrings(TalkersIn(d)))
  }

  predicate StoredAs(rows: map<string, Row>, id: string, row: Row) {
    id in rows && rows[id] == row
  }

  /** Nothing of the source is lost behind the cursor: what the source's own test holds back is stored as
      it is, and what only the ingest's test, on the cut time, would skip has at least its id stored. */
  ghost predicate NothingHiddenFrom(rows: map<string, Row>, cur: Cursor, b: seq<Message>) {
    forall m :: m in b ==>
      && (AtOrBefore(cur, m) ==> StoredAs(rows, m.id, RowOf(Normalised(m))))
      && (!AtOrBefore(cur, m) && AtOrBefore(cur, Normalised(m)) ==> m.id in rows)
  }

  ghost predicate NothingHidden(ts: TalkerState, account: string, u: string, b: seq<Message>) {
    NothingHiddenFrom(ts.rows, CurrentCursor(account, u, ts.cursor), b)
  }

  /** What becomes of one message of the source in a full and in an incremental run. */
  lemma OneMessage(rows: map<string, Row>, cur: Cursor, b: seq<Message>, part: seq<Message>, m: Message)
    requires DistinctIds(b) && DistinctIds(part) && forall n :: n in part <==> n in b && !AtOrBefore(cur, n)
    requires m in b
    ensures var few, all := Apply(rows, Incremental, cur, NormalisedAll(part)), Apply(rows, Full, cur, NormalisedAll(b));
            && StoredAs(all, m.id, RowOf(Normalised(m)))
            && (AtOrBefore(cur, m) ==> (m.id in few <==> m.id in rows) && (m.id in few ==> few[m.id] == rows[m.id]))
            && (!AtOrBefore(cur, m) ==>
                  && (m.id in few <==> m.id in rows || !AtOrBefore(cur, Normalised(m)))
                  && (m.id in few ==> few[m.id] == RowOf(Normalised(m))))
  {
    CutDistinct(b);
    CutDistinct(part);
    NormalisedMember(b, Normalised(m));
    NormalisedMember(part, Normalised(m));
    BatchRow(rows, Full, cur, NormalisedAll(b), Normalised(m));
    if AtOrBefore(cur, m) {
      forall n | n in NormalisedAll(part) ensures n.id != m.id {
        NormalisedMember(part, n);
        OtherId(b, part, cur, m, n);
      }
      OtherRowsStay(rows, Incremental, cur, NormalisedAll(part), m.id);
    } else {
      BatchRow(rows, Incremental, cur, NormalisedAll(part), Normalised(m));
    }
  }

  lemma OtherId(b: seq<Message>, part: seq<Message>, cur: Cursor, m: Message, n: Message)
    requires DistinctIds(b) && forall o :: o in part <==> o in b && !AtOrBefore(cur, o)
    requires m in b && AtOrBefore(cur, m) && exists o :: o in part && n == Normalised(o)
    ensures n.id != m.id
  {
    var o :| o in part && n == Normalised(o);
    var i :| 0 <= i < |b| && b[i] == m;
    var j :| 0 <= j < |b| && b[j] == o;
  }

  lemma UnmentionedRow(rows: map<string, Row>, mode: Mode, cur: Cursor, b: seq<Message>, id: string)
    requires forall m :: m in b ==> m.id != id
    ensures var after := Apply(rows, mode, cur, NormalisedAll(b));
            (id in after <==> id in rows) && (id in after ==> after[id] == rows[id])
  {
    forall n | n in NormalisedAll(b) ensures n.id != id { NormalisedMember(b, n); }
    OtherRowsStay(rows, mode, cur, NormalisedAll(b), id);
  }

  /** Storing only the part past the cursor gives the same rows as storing everything, exactly when
      nothing is hidden behind the cursor. */
  lemma PartialRowsIff(rows: map<string, Row>, cur: Cursor, b: seq<Message>, part: seq<Message>)
    requires DistinctIds(b) && DistinctIds(part) && forall m :: m in part <==> m in b && !AtOrBefore(cur, m)
    ensures Apply(rows, Incremental, cur, NormalisedAll(part)) == Apply(rows, Full, cur, NormalisedAll(b))
            <==> NothingHiddenFrom(rows, cur, b)
  {
    var few, all := Apply(rows, Incremental, cur, NormalisedAll(part)), Apply(rows, Full, cur, NormalisedAll(b));
    hide Apply, NormalisedAll, AtOrBefore, RowOf, Normalised, DistinctIds;
    if few == all {
      forall m | m in b
        ensures AtOrBefore(cur, m) ==> StoredAs(rows, m.id, RowOf(Normalised(m)))
        ensures !AtOrBefore(cur, m) && AtOrBefore(cur, Normalised(m)) ==> m.id in rows
      {
        OneMessage(rows, cur, b, part, m);
      }
    }
    if NothingHiddenFrom(rows, cur, b) {
      forall id ensures (id in few <==> id in all) && (id in few && id in all ==> few[id] == all[id]) {
        if m :| m in b && m.id == id {
          OneMessage(rows, cur, b, part, m);
        } else {
          UnmentionedRow(rows, Full, cur, b, id);
          UnmentionedRow(rows, Incremental, cur, part, id);
        }
      }
    }
  }

  lemma IncrementalTalker(t: Tables, inc: Tables, full: Tables, snap: Snapshot, account: string, wxid: string, u: string)
    requires FullRun(t, full, snap, account, wxid) && IncrementalRun(t, inc, snap, account, wxid)
    requires "" !in t.cursors
    ensures u !in SourceTalkers(snap) ==> View(inc, u) == View(t, u) == View(full, u)
    ensures u in SourceTalkers(snap) ==>
              View(full, u) == IngestState(View(t, u), Full, SentConversation(snap, account, u), NormalisedAll(SourceBatch(snap, account, Full, t.cursors, u)))
    ensures u in SourceTalkers(snap) && !Dropped(snap, Incremental, t.cursors, u) ==>
              View(inc, u) == IngestState(View(t, u), Incremental, SentConversation(snap, account, u), NormalisedAll(SourceBatch(snap, account, Incremental, t.cursors, u)))
    ensures u in SourceTalkers(snap) && Dropped(snap, Incremental, t.cursors, u) ==> View(inc, u) == View(t, u)
  {
    SentOf(snap, account, wxid, Full, t.cursors, u);
    SentOf(snap, account, wxid, Incremental, t.cursors, u);
    var df, di := Sent(snap, account, wxid, Full, t.cursors), Sent(snap, account, wxid, Incremental, t.cursors);
    hide View, IngestState, SourceTalkers, TalkersIn, SentConversation, SourceBatch, Sent, KeptMessages;
    assert u in SortedStrings(TalkersIn(df)) <==> u in TalkersIn(df);
    assert u in SortedStrings(TalkersIn(di)) <==> u in TalkersIn(di);
  }

  lemma SourceParts(snap: Snapshot, account: string, t: Tables, u: string)
    requires DistinctMessages(snap, account)
    ensures var cur := CurrentCursor(account, u, View(t, u).cursor);
            var b, part := SourceBatch(snap, account, Full, t.cursors, u), SourceBatch(snap, account, Incremental, t.cursors, u);
            && b == BatchOf(snap.messages, u, account)
            && DistinctIds(b) && DistinctIds(part)
            && (forall m :: m in part <==> m in b && !AtOrBefore(cur, m))
            && (Dropped(snap, Incremental, t.cursors, u) ==> part == [])
  {
    BatchOfOwn(snap.messages, u, account);
    assert DistinctIds(BatchOf(snap.messages, u, account));
    if u in t.cursors {
      var own, c := OfTalker(snap.messages, u), CursorAt("", u, t.cursors[u]);
      PastBatch(own, u, account, c);
      var cur := CurrentCursor(account, u, View(t, u).cursor);
      forall m ensures AtOrBefore(cur, m) <==> AtOrBefore(c, m) {
      }
    }
  }

  /** A talker's state that is ingested again without any row changing keeps its counts and its cursor. */
  lemma SameRowsSameCursor(ts: TalkerState, mode: Mode, c: Conversation, b: seq<Message>)
    requires Consistent(ts) && ts.cursor.Some? && IngestState(ts, mode, c, b).rows == ts.rows
    ensures IngestState(ts, mode, c, b).cursor == ts.cursor
    ensures IngestState(ts, mode, c, b).conv.value.msgCount == ts.conv.value.msgCount
  {
    LastTimeIs(NewestKey(ts.rows));
    hide Apply;
  }

  /** Two ingests of one state that reach the same rows reach the same count and the same cursor. */
  lemma RowsDecideCursor(ts: TalkerState, c: Conversation, b: seq<Message>, part: seq<Message>)
    requires IngestState(ts, Incremental, c, part).rows == IngestState(ts, Full, c, b).rows
    ensures IngestState(ts, Incremental, c, part) == IngestState(ts, Full, c, b)
  {
  }

  ghost predicate SameCounts(a: TalkerState, b: TalkerState) {
    a.cursor == b.cursor && (a.conv.Some? <==> b.conv.Some?) && (a.conv.Some? ==> a.conv.value.msgCount == b.conv.value.msgCount)
  }

  /** For one talker: an incremental backup reaches the rows of a full one exactly when nothing of the
      source is hidden behind the talker's cursor, and then count and cursor agree as well. */
  lemma IncrementalTalkerIff(t: Tables, inc: Tables, full: Tables, snap: Snapshot, account: string, wxid: string, u: string)
    requires AllConsistent(t) && DistinctMessages(snap, account)
    requires FullRun(t, full, snap, account, wxid) && IncrementalRun(t, inc, snap, account, wxid)
    ensures View(inc, u).rows == View(full, u).rows <==> NothingHidden(View(t, u), account, u, BatchOf(snap.messages, u, account))
    ensures View(inc, u).rows == View(full, u).rows ==> SameCounts(View(inc, u), View(full, u))
  {
    hide *;
    TalkerSeen(t, snap, u);
    IncrementalTalker(t, inc, full, snap, account, wxid, u);
    SourceParts(snap, account, t, u);
    if u in SourceTalkers(snap) { ConversationNamed(snap, account, u); } else { NoBatch(snap, account, u); }
    TalkerCases(View(t, u), View(inc, u), View(full, u), account, u, SentConversation(snap, account, u),
                SourceBatch(snap, account, Full, t.cursors, u), SourceBatch(snap, account, Incremental, t.cursors, u),
                u in SourceTalkers(snap), Dropped(snap, Incremental, t.cursors, u));
  }

  lemma TalkerCases(ts: TalkerState, ti: TalkerState, tf: TalkerState, account: string, u: string, c: Conversation,
                    b: seq<Message>, part: seq<Message>, source: bool, dropped: bool)
    requires Consistent(ts) && DistinctIds(b) && DistinctIds(part)
    requires forall m :: m in part <==> m in b && !AtOrBefore(CurrentCursor(account, u, ts.cursor), m)
    requires !source ==> ti == ts == tf && b == []
    requires source ==> c.account == account && c.talker == u && tf == IngestState(ts, Full, c, NormalisedAll(b))
    requires source && dropped ==> ti == ts && part == [] && ts.cursor.Some?
    requires source && !dropped ==> ti == IngestState(ts, Incremental, c, NormalisedAll(part))
    ensures ti.rows == tf.rows <==> NothingHidden(ts, account, u, b)
    ensures ti.rows == tf.rows ==> SameCounts(ti, tf)
  {
    hide Consistent, IngestState, NothingHidden, SameCounts, DistinctIds, CurrentCursor, AtOrBefore;
    if !source {
      NothingToHide(ts, account, u);
    } else if dropped {
      SkippedTalkerIff(ts, account, u, c, b);
    } else {
      FilteredTalkerIff(ts, account, u, c, b, part);
    }
  }

  lemma TalkerSeen(t: Tables, snap: Snapshot, u: string)
    requires AllConsistent(t)
    ensures "" !in t.cursors && Consistent(View(t, u))
    ensures Dropped(snap, Incremental, t.cursors, u) ==> View(t, u).cursor.Some?
  {
  }

  lemma NothingToHide(ts: TalkerState, account: string, u: string)
    ensures NothingHidden(ts, account, u, []) && SameCounts(ts, ts)
  {
  }

  lemma ConversationNamed(snap: Snapshot, account: string, u: string)
    requires u in SourceTalkers(snap)
    ensures SentConversation(snap, account, u).account == account && SentConversation(snap, account, u).talker == u
  {
    BlankHasNoChunk(snap, Full, map[]);
    SentConversationFit(snap, account, u);
  }

  lemma SkippedTalkerIff(ts: TalkerState, account: string, u: string, c: Conversation, b: seq<Message>)
    requires Consistent(ts) && ts.cursor.Some? && DistinctIds(b) && c.account == account && c.talker == u
    requires forall m :: m in b ==> AtOrBefore(CurrentCursor(account, u, ts.cursor), m)
    ensures var after := IngestState(ts, Full, c, NormalisedAll(b));
            (ts.rows == after.rows <==> NothingHidden(ts, account, u, b)) && (ts.rows == after.rows ==> SameCounts(ts, after))
  {
    PartialRowsIff(ts.rows, CurrentCursor(account, u, ts.cursor), b, []);
    assert NormalisedAll([]) == [];
    if ts.rows == IngestState(ts, Full, c, NormalisedAll(b)).rows {
      ConsistentPairs(ts);
      SameRowsSameCursor(ts, Full, c, NormalisedAll(b));
    }
  }

  lemma FilteredTalkerIff(ts: TalkerState, account: string, u: string, c: Conversation, b: seq<Message>, part: seq<Message>)
    requires DistinctIds(b) && DistinctIds(part) && c.account == account && c.talker == u
    requires forall m :: m in part <==> m in b && !AtOrBefore(CurrentCursor(account, u, ts.cursor), m)
    ensures var few, all := IngestState(ts, Incremental, c, NormalisedAll(part)), IngestState(ts, Full, c, NormalisedAll(b));
            (few.rows == all.rows <==> NothingHidden(ts, account, u, b)) && (few.rows == all.rows ==> SameCounts(few, all))
  {
    PartialRowsIff(ts.rows, CurrentCursor(account, u, ts.cursor), b, part);
    if IngestState(ts, Incremental, c, NormalisedAll(part)).rows == IngestState(ts, Full, c, NormalisedAll(b)).rows {
      RowsDecideCursor(ts, c, NormalisedAll(b), NormalisedAll(part));
    }
  }

  lemma ConsistentPairs(ts: TalkerState)
    requires Consistent(ts)
    ensures ts.conv.Some? <==> ts.cursor.Some?
  {
  }

  lemma NoBatch(snap: Snapshot, account: string, u: string)
    requires u !in SourceTalkers(snap)
    ensures BatchOf(snap.messages, u, account) == []
  {
    BatchMembers(snap.messages, u, account);
  }

  /** An incremental backup of an account leaves the same message table as a full backup of the same source
      exactly when nothing of the source is hidden behind its talker's cursor; and then the cursors and the
      message counts are the same too. */
  lemma IncrementalMatchesFullIff(t: Tables, inc: Tables, full: Tables, snap: Snapshot, account: string, wxid: string)
    requires AllConsistent(t) && DistinctMessages(snap, account)
    requires FullRun(t, full, snap, account, wxid) && IncrementalRun(t, inc, snap, account, wxid)
    ensures inc.messages == full.messages
            <==> forall u :: NothingHidden(View(t, u), account, u, BatchOf(snap.messages, u, account))
    ensures inc.messages == full.messages ==>
              && inc.cursors == full.cursors
              && forall u :: SameCounts(View(inc, u), View(full, u))
  {
    hide AllConsistent, DistinctMessages, FullRun, IncrementalRun, NothingHidden, SameCounts;
    forall u
      ensures View(inc, u).rows == View(full, u).rows <==> NothingHidden(View(t, u), account, u, BatchOf(snap.messages, u, account))
      ensures View(inc, u).rows == View(full, u).rows ==> SameCounts(View(inc, u), View(full, u))
    {
      IncrementalTalkerIff(t, inc, full, snap, account, wxid, u);
    }
    SameMessagesIff(inc, full);
    if inc.messages == full.messages {
      SameCursors(inc, full);
    }
  }

  lemma SameMessagesIff(a: Tables, b: Tables)
    ensures a.messages == b.messages <==> forall u :: View(a, u).rows == View(b, u).rows
  {
    if forall u :: View(a, u).rows == View(b, u).rows {
      forall k ensures (k in a.messages <==> k in b.messages) && (k in a.messages && k in b.messages ==> a.messages[k] == b.messages[k]) {
        assert View(a, k.talker).rows == View(b, k.talker).rows;
        assert k == MsgKey(k.talker, k.id);
        assert k.id in RowsOf(a.messages, k.talker) <==> k in a.messages;
        assert k.id in RowsOf(b.messages, k.talker) <==> k in b.messages;
      }
    }
  }

  lemma SameCursors(a: Tables, b: Tables)
    requires forall u :: SameCounts(View(a, u), View(b, u))
    ensures a.cursors == b.cursors
  {
    forall u ensures (u in a.cursors <==> u in b.cursors) && (u in a.cursors && u in b.cursors ==> a.cursors[u] == b.cursors[u]) {
      assert SameCounts(View(a, u), View(b, u));
    }
  }

  /** The case of a source that has only grown: everything it had is stored, and everything new lies past
      its talker's cursor, in its own time and in its cut time. */
  lemma GrownSource(t: Tables, inc: Tables, full: Tables, snap: Snapshot, account: string, wxid: string)
    requires AllConsistent(t) && DistinctMessages(snap, account)
    requires FullRun(t, full, snap, account, wxid) && IncrementalRun(t, inc, snap, account, wxid)
    requires forall u, m :: m in BatchOf(snap.messages, u, account) ==>
               || StoredAs(View(t, u).rows, m.id, RowOf(Normalised(m)))
               || !(AtOrBefore(CurrentCursor(account, u, View(t, u).cursor), m)
                    || AtOrBefore(CurrentCursor(account, u, View(t, u).cursor), Normalised(m)))
    ensures inc.messages == full.messages && inc.cursors == full.cursors
  {
    hide AtOrBefore, RowOf, Normalised, View, CurrentCursor, BatchOf, AllConsistent, DistinctMessages, FullRun, IncrementalRun;
    forall u ensures NothingHidden(View(t, u), account, u, BatchOf(snap.messages, u, account)) {
      GrownTalker(View(t, u), account, u, BatchOf(snap.messages, u, account));
    }
    IncrementalMatchesFullIff(t, inc, full, snap, account, wxid);
  }

  lemma GrownTalker(ts: TalkerState, account: string, u: string, b: seq<Message>)
    requires forall m :: m in b ==>
               || StoredAs(ts.rows, m.id, RowOf(Normalised(m)))
               || !(AtOrBefore(CurrentCursor(account, u, ts.cursor), m)
                    || AtOrBefore(CurrentCursor(account, u, ts.cursor), Normalised(m)))
    ensures NothingHidden(ts, account, u, b)
  {
    hide AtOrBefore, RowOf, Normalised, CurrentCursor;
  }

  /** The two tests differ on a message, which the source then lets through and the ingest may skip, in exactly
      two families: the message lies in the millisecond of the epoch, which a package turns into "absent", and
      the cursor before the epoch; or it lies within the cursor's millisecond, after its end, and the cursor
      has no id or the message's own. */
  lemma TestsDifferIff(m: Message, cur: Cursor)
    requires Normal(cur.lastEnd)
    ensures AtOrBefore(cur, m) ==> AtOrBefore(cur, Normalised(m))
    ensures !AtOrBefore(cur, m) && AtOrBefore(cur, Normalised(m)) <==>
              && cur.lastEnd != ZERO_TIME
              && (|| (0 <= m.time < NS_PER_MS && ZERO_TIME < cur.lastEnd < 0)
                  || (cur.lastEnd < m.time < cur.lastEnd + NS_PER_MS && (cur.segmentMeta == "" || m.id == cur.segmentMeta)))
  {
    if cur.lastEnd != ZERO_TIME {
      assert cur.lastEnd == ToMillis(cur.lastEnd) * NS_PER_MS;
      assert m.time / NS_PER_MS * NS_PER_MS <= m.time < m.time / NS_PER_MS * NS_PER_MS + NS_PER_MS;
    }
  }

  /** Why a grown source is asked for its cut times too: after a full backup of one message before the epoch,
      a new message at the epoch lies past the cursor in its own time, and yet an incremental backup loses it. */
  lemma GrownInOwnTimeOnly() returns (c: Conversation, m: Message, n: Message)
    ensures var ts := IngestState(FRESH, Full, c, NormalisedAll([m]));
            var cur := CurrentCursor(c.account, c.talker, ts.cursor);
            && DistinctIds([m, n]) && AtOrBefore(cur, m) && !AtOrBefore(cur, n)
            && n.id !in IngestState(ts, Incremental, c, NormalisedAll([n])).rows
            && n.id in IngestState(ts, Full, c, NormalisedAll([m, n])).rows
  {
    c := Conversation("a", "t", Friend, "t", "", ZERO_TIME, 0);
    m := Message("a", "t", "m", 1, 1, false, RowTime(-1), "", "", "");
    n := Message("a", "t", "n", 2, 1, false, RowTime(0), "", "", "");
    assert NormalisedAll([m]) == [m] && NormalisedAll([n]) == [Normalised(n)];
    assert NormalisedAll([m, n]) == [m, Normalised(n)];
    OneRow(m, Full, map[], NO_CURSOR);
    var ts := IngestState(FRESH, Full, c, [m]);
    var rows: map<string, Row> := map[][m.id := RowOf(m)];
    assert NewestKey(rows).value == RowKey("m", RowOf(m)) by {
      assert RowKey("m", rows["m"]) in KeysOf(rows);
    }
    var cur := CurrentCursor("a", "t", ts.cursor);
    assert ts.rows == rows && cur.lastEnd == RowTime(-1) && cur.segmentMeta == "m";
    BatchRow(rows, Full, cur, [m, Normalised(n)], Normalised(n));
    BatchRow(rows, Incremental, cur, [Normalised(n)], Normalised(n));
  }
}
