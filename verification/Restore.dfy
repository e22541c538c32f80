/** Restoring an exported package into an empty account: what comes back, and exactly when it does. */
module Restore {
  import opened Domain
  import opened Order
  import opened Frames
  import opened Package
  import opened RoundTrip
  import opened Store
  import opened Ingest
  import opened IngestLaws
  import opened Chunks
  import opened Recovery
  import opened Paging
  import opened Passage
  import opened Export

  /** What a media table guarantees: distinct ids, none blank, known kinds. */
  ghost predicate MediaTable(media: seq<MediaObject>) {
    DistinctMedia(media) && forall m :: m in media ==> m.id != "" && m.kind.Valid()
  }

  lemma CheckedIsWritable(media: seq<MediaObject>, disk: map<string, seq<byte>>)
    requires MediaTable(media)
    ensures DistinctMedia(CheckedAll(media, disk)) && AllMediaWritable(CheckedAll(media, disk), map[], disk)
  {
    var c := CheckedAll(media, disk);
    forall m | m in c ensures MediaWritable(m, map[], disk) {
      var i :| 0 <= i < |c| && c[i] == m;
      assert media[i] in media;
    }
  }

  lemma ChosenAreWritable(account: string, t: Tables, sel: Selector)
    requires AllConsistent(t)
    ensures var convs := Chosen(ListConversations(account, t.conversations), sel);
            DistinctTalkers(convs) && AllConversationsWritable(convs)
  {
    var list := ListConversations(account, t.conversations);
    ConversationsListed(account, t.conversations);
    ChosenMembers(list, sel);
    hide ListConversations, Chosen, DistinctTalkers, Consistent;
    forall c | c in Chosen(list, sel) ensures ConversationWritable(c) {
      assert c in list;
      KindKnown(t, c.talker);
    }
  }

  lemma KindKnown(t: Tables, u: string)
    requires AllConsistent(t) && u in t.conversations
    ensures u != "" && t.conversations[u].kind.Valid()
  {
    assert Consistent(View(t, u));
  }

  lemma {:induction false} DumpsAreWritable(account: string, t: Tables, convs: seq<Conversation>)
    requires AllConsistent(t) && forall c :: c in convs ==> c.talker != ""
    ensures AllWritable(DumpAll(account, t.messages, convs))
  {
    if convs != [] {
      var u := convs[0].talker;
      assert convs[0] in convs;
      assert Consistent(View(t, u));
      DumpOwned(account, u, RowsOf(t.messages, u));
      DumpsAreWritable(account, t, convs[1..]);
    }
  }

  /** An export of consistent tables can always be written as a package. */
  lemma ExportIsWritable(account: string, wxid: string, t: Tables, sel: Selector, media: seq<MediaObject>, disk: map<string, seq<byte>>)
    requires AllConsistent(t) && MediaTable(media)
    ensures Writable(Exported(account, wxid, t, sel, media, disk), disk)
    ensures DistinctPerTalker(Exported(account, wxid, t, sel, media, disk).messages)
  {
    var s := Exported(account, wxid, t, sel, media, disk);
    ChosenAreWritable(account, t, sel);
    CheckedIsWritable(media, disk);
    hide ListConversations, Chosen, DumpAll, DistinctTalkers, AllConsistent, DistinctMedia, AllMediaWritable, DistinctIds, OfTalker, Dump, HasTalker, RowsOf;
    DumpsAreWritable(account, t, s.conversations);
    forall u ensures DistinctIds(OfTalker(s.messages, u)) {
      DumpOfTalker(account, t.messages, s.conversations, u);
      DumpDistinct(account, u, RowsOf(t.messages, u));
      NothingDistinct();
    }
  }

  lemma NothingDistinct()
    ensures DistinctIds([])
  {
  }

  /** Media through an export, a package and the reader: an object whose file is there, and not empty, comes
      back available with exactly the file's bytes; any other comes back without bytes. */
  lemma MediaComesBack(s: Snapshot, media: seq<MediaObject>, disk: map<string, seq<byte>>, r: Snapshot, i: nat)
    requires MediaLoaded(s.media, media, disk) && s.blobs == map[] && DistinctMedia(media) && Canonical(r, s, disk)
    requires i < |media|
    ensures exists d :: d in r.media && d.id == media[i].id && d.kind == media[i].kind && d.sha256 == media[i].sha256
              && if media[i].path != "" && media[i].path in disk && disk[media[i].path] != [] then
                   && d.available && d.size == |disk[media[i].path]|
                   && d.id in r.blobs && r.blobs[d.id] == disk[media[i].path]
                 else !d.available && d.size == 0 && d.id !in r.blobs
  {
    var m := s.media[i];
    assert m in s.media;
    MediaParts(r, s, disk);
    var payload := PayloadOf(m, s.blobs, disk).value;
    var d := CanonicalMedia(m, s.account, payload);
    hide Canonical, MediaCanonical, BlobsCanonical, DistinctMedia;
    assert d in r.media;
    BytesComeBack(s, media, disk, r, i);
  }

  lemma MediaParts(r: Snapshot, s: Snapshot, disk: map<string, seq<byte>>)
    requires Canonical(r, s, disk)
    ensures AllMediaWritable(s.media, s.blobs, disk) && BlobsCanonical(r.blobs, s, disk)
    ensures forall m :: m in s.media ==> PayloadOf(m, s.blobs, disk).Ok? && CanonicalMedia(m, s.account, PayloadOf(m, s.blobs, disk).value) in r.media
  {
    hide ConversationsCanonical, MessagesCanonical, BlobsCanonical, CanonicalMedia, PayloadOf;
  }

  lemma BytesComeBack(s: Snapshot, media: seq<MediaObject>, disk: map<string, seq<byte>>, r: Snapshot, i: nat)
    requires MediaLoaded(s.media, media, disk) && DistinctMedia(media) && BlobsCanonical(r.blobs, s, disk)
    requires i < |media| && PayloadOf(s.media[i], s.blobs, disk).Ok?
    ensures var payload := PayloadOf(s.media[i], s.blobs, disk).value;
            if payload == [] then media[i].id !in r.blobs else media[i].id in r.blobs && r.blobs[media[i].id] == payload
  {
    var m := s.media[i];
    assert m in s.media && m.id == media[i].id;
    if m.id in r.blobs {
      var n :| n in s.media && n.id == m.id && PayloadOf(n, s.blobs, disk) == Ok(r.blobs[m.id]) && r.blobs[m.id] != [];
      var j :| 0 <= j < |s.media| && s.media[j] == n;
      hide PayloadOf, BlobsCanonical;
      assert media[j].id == media[i].id;
      assert j == i;
    }
  }

  // ---- One talker -------------------------------------------------------------------------------

  /** The batch an exported talker is restored from: one message for each row. */
  ghost predicate BatchOfRows(b: seq<Message>, account: string, u: string, rows: map<string, Row>) {
    && DistinctIds(b)
    && forall n :: n in b <==> n.id in rows && n == Normalised(MessageAt(account, u, n.id, rows[n.id]))
  }

  function RestoredRow(row: Row): Row {
    row.(ms := if row.ms == ZERO_MS then 0 else row.ms)
  }

  lemma RowComesBack(account: string, u: string, id: string, row: Row)
    ensures RowOf(Normalised(MessageAt(account, u, id, row))) == RestoredRow(row)
  {
    ColumnRoundTrip(row.ms);
  }

  /** A restored batch gives back every row, except that the one unrepresentable time becomes 0. */
  lemma RowsComeBack(b: seq<Message>, account: string, u: string, rows: map<string, Row>, cur: Cursor)
    requires BatchOfRows(b, account, u, rows)
    ensures var after := Apply(map[], Full, cur, b);
            && after.Keys == rows.Keys
            && (forall id :: id in rows ==> after[id] == RestoredRow(rows[id]))
            && (after == rows <==> RowsRepresentable(rows))
  {
    var after := Apply(map[], Full, cur, b);
    hide Apply, Normalised, DistinctIds;
    forall id ensures id in after <==> id in rows
              ensures id in rows ==> after[id] == RestoredRow(rows[id]) {
      if id in rows {
        var n := Normalised(MessageAt(account, u, id, rows[id]));
        NormalisedKeepsId(MessageAt(account, u, id, rows[id]));
        assert n in b;
        BatchRow(map[], Full, cur, b, n);
        RowComesBack(account, u, id, rows[id]);
      } else {
        OtherRowsStay(map[], Full, cur, b, id);
      }
    }
    if after == rows {
      forall id | id in rows ensures rows[id].ms != ZERO_MS {
        assert RestoredRow(rows[id]) == rows[id];
      }
    }
  }

  lemma NormalisedKeepsId(m: Message)
    ensures Normalised(m).id == m.id
  {
  }

  /** The conversation an exported talker is restored with. */
  function RestoredConversation(account: string, u: string, row: ConvRow): Conversation {
    ConversationAt(account, u, row).(lastMsgTime := FromMillis(ToMillis(FromMillis(row.lastMs))))
  }

  lemma NeverSettledAtZero(lastMs: int)
    ensures !Settled(ZERO_MS, lastMs)
  {
  }

  lemma ConversationComesBackIff(account: string, u: string, row: ConvRow, newest: Option<Key>)
    ensures ConvRowOf(ConversationAfter(None, RestoredConversation(account, u, row), row.msgCount, LastTime(newest))) == row
            <==> Settled(row.lastMs, LastMs(newest))
    ensures Settled(row.lastMs, LastMs(newest)) ==> row.lastMs != ZERO_MS
  {
    LastTimeIs(newest);
    ColumnRoundTrip(row.lastMs);
    NeverSettledAtZero(LastMs(newest));
  }

  /** Restoring one talker: its rows and its conversation come back exactly as they were if and only if
      the talker was settled; the cursor starts over, caught up with the rows. */
  lemma TalkerComesBackIff(ts: TalkerState, account: string, u: string, b: seq<Message>)
    requires Consistent(ts) && ts.conv.Some? && BatchOfRows(b, account, u, ts.rows)
    ensures var after := IngestState(FRESH, Full, RestoredConversation(account, u, ts.conv.value), b);
            && (after.rows == ts.rows && after.conv == ts.conv <==> SettledState(ts))
            && after.conv.Some? && after.cursor.Some?
            && after.cursor.value.received == after.cursor.value.total == after.conv.value.msgCount == |ts.rows|
  {
    var row := ts.conv.value;
    RowsComeBack(b, account, u, ts.rows, NO_CURSOR);
    var rows := Apply(map[], Full, NO_CURSOR, b);
    assert |rows| == |rows.Keys| == |ts.rows|;
    hide Apply, BatchOfRows, Settled, NewestKey;
    ConversationComesBackIff(account, u, row, NewestKey(ts.rows));
  }

  // ---- The exported snapshot, cut ---------------------------------------------------------------

  lemma ExportedBatch(account: string, wxid: string, t: Tables, sel: Selector, media: seq<MediaObject>, disk: map<string, seq<byte>>, u: string)
    requires AllConsistent(t) && MediaTable(media) && u in t.conversations && Wanted(sel, u)
    ensures BatchOfRows(BatchOf(Cut(Exported(account, wxid, t, sel, media, disk)).messages, u, account), account, u, RowsOf(t.messages, u))
  {
    var s := Exported(account, wxid, t, sel, media, disk);
    ExportIsWritable(account, wxid, t, sel, media, disk);
    ChosenTalkers(account, t.conversations, sel, u);
    KindKnown(t, u);
    NoBlankRow(t, u);
    hide ListConversations, Chosen, DumpAll, AllConsistent, Writable, HasTalker, RowsOf, OfTalker;
    DumpOfTalker(account, t.messages, s.conversations, u);
    assert OfTalker(s.messages, u) == Dump(account, u, RowsOf(t.messages, u));
    assert DistinctIds(OfTalker(s.messages, u));
    CutBatch(s.messages, account, u, RowsOf(t.messages, u));
  }

  lemma NoBlankRow(t: Tables, u: string)
    requires AllConsistent(t)
    ensures "" !in RowsOf(t.messages, u)
  {
    assert Consistent(View(t, u));
  }

  lemma CutBatch(msgs: seq<Message>, account: string, u: string, rows: map<string, Row>)
    requires OfTalker(msgs, u) == Dump(account, u, rows) && DistinctIds(OfTalker(msgs, u)) && u != "" && "" !in rows
    ensures BatchOfRows(BatchOf(NormalisedAll(msgs), u, account), account, u, rows)
  {
    var b := BatchOf(NormalisedAll(msgs), u, account);
    OfTalkerNormalised(msgs, u);
    CutDistinct(OfTalker(msgs, u));
    BoundDistinct(NormalisedAll(msgs), u, account);
    hide OfTalker, NormalisedAll, Dump, DistinctIds, BatchOf;
    forall n ensures n in b <==> n.id in rows && n == Normalised(MessageAt(account, u, n.id, rows[n.id])) {
      BatchMember(NormalisedAll(msgs), u, account, n);
      CutMessage(msgs, account, u, rows, n);
    }
  }

  lemma CutMessage(msgs: seq<Message>, account: string, u: string, rows: map<string, Row>, n: Message)
    requires OfTalker(msgs, u) == Dump(account, u, rows) && u != "" && "" !in rows
    ensures (exists m :: m in NormalisedAll(msgs) && m.talker == u && Ingestible(m) && n == m.(account := account))
            <==> n.id in rows && n == Normalised(MessageAt(account, u, n.id, rows[n.id]))
  {
    DumpIsExact(account, u, rows);
    OfTalkerMembers(msgs, u);
    hide OfTalker, NormalisedAll, Dump, StrictlySorted;
    if m :| m in NormalisedAll(msgs) && m.talker == u && Ingestible(m) && n == m.(account := account) {
      NormalisedMember(msgs, m);
      var m0 :| m0 in msgs && m == Normalised(m0);
      assert m0 in OfTalker(msgs, u);
    }
    if n.id in rows && n == Normalised(MessageAt(account, u, n.id, rows[n.id])) {
      var m0 := MessageAt(account, u, n.id, rows[n.id]);
      assert m0 in Dump(account, u, rows);
      NormalisedMember(msgs, n);
      assert n == n.(account := account);
    }
  }

  lemma ExportedConversation(account: string, wxid: string, t: Tables, sel: Selector, media: seq<MediaObject>, disk: map<string, seq<byte>>, u: string)
    requires AllConsistent(t) && u in t.conversations && Wanted(sel, u)
    ensures ConversationIn(Cut(Exported(account, wxid, t, sel, media, disk)).conversations, u, account)
         == RestoredConversation(account, u, t.conversations[u])
  {
    var list := ListConversations(account, t.conversations);
    var convs := Chosen(list, sel);
    ConversationsListed(account, t.conversations);
    ChosenMembers(list, sel);
    KindKnown(t, u);
    var c := ConversationAt(account, u, t.conversations[u]);
    hide ListConversations, Chosen, DistinctTalkers, AllConsistent, ConvsOf, DumpAll;
    assert c in convs;
    CutMember(convs, c);
    OnlyConversation(CutConversations(convs), RestoredConversation(account, u, t.conversations[u]));
  }

  lemma ExportedTalkers(account: string, wxid: string, t: Tables, sel: Selector, media: seq<MediaObject>, disk: map<string, seq<byte>>, u: string)
    requires AllConsistent(t) && MediaTable(media)
    ensures u in TalkersIn(Cut(Exported(account, wxid, t, sel, media, disk))) <==> u in t.conversations && Wanted(sel, u)
  {
    var s := Exported(account, wxid, t, sel, media, disk);
    ChosenTalkers(account, t.conversations, sel, u);
    ChosenAreWritable(account, t, sel);
    TalkerIn(Cut(s), account, u);
    hide ListConversations, Chosen, TalkersIn, ConvsOf, DumpAll, AllConsistent, BatchOf, OfTalker, DistinctTalkers, Dump;
    DumpOfTalker(account, t.messages, s.conversations, u);
    OfTalkerNormalised(s.messages, u);
    ConvMembers(CutConversations(s.conversations), u);
    BatchOfOwn(Cut(s).messages, u, account);
    CutHasTalker(s.conversations, u);
    NothingBatched(u, account);
    if u in t.conversations { KindKnown(t, u); }
  }

  lemma NothingBatched(u: string, account: string)
    ensures BatchOf(NormalisedAll([]), u, account) == [] && BatchOf([], u, account) == []
  {
  }

  lemma CutHasTalker(convs: seq<Conversation>, u: string)
    ensures HasTalker(convs, u) <==> exists c :: c in CutConversations(convs) && c.talker == u
  {
    if c :| c in convs && c.talker == u {
      var i :| 0 <= i < |convs| && convs[i] == c;
      assert CutConversations(convs)[i] in CutConversations(convs);
    }
    if c :| c in CutConversations(convs) && c.talker == u { var d := CutFrom(convs, c); }
  }

  // ---- The theorems -----------------------------------------------------------------------------

  /** What a restored talker looks like beside the exported one. */
  ghost predicate ComesBackIffSettled(was: TalkerState, now: TalkerState) {
    && (now.rows == was.rows && now.conv == was.conv <==> SettledState(was))
    && now.conv.Some? && now.cursor.Some?
    && now.cursor.value.received == now.cursor.value.total == now.conv.value.msgCount == |was.rows|
  }

  /** Exporting sessions, writing and reading the package and ingesting it in full mode into an empty
      account gives back each exported talker exactly, stored times included, if and only if it was
      settled; nobody else appears. */
  lemma ExportThenImportIff(account: string, wxid: string, t: Tables, sel: Selector, media: seq<MediaObject>,
                            disk: map<string, seq<byte>>, r: Snapshot, after: Tables, u: string)
    requires AllConsistent(t) && MediaTable(media)
    requires Canonical(r, Exported(account, wxid, t, sel, media, disk), disk)
    requires Ingested(EMPTY_TABLES, after, account, Full, r, SortedStrings(TalkersIn(r)))
    ensures u in t.conversations && Wanted(sel, u) ==> ComesBackIffSettled(View(t, u), View(after, u))
    ensures !(u in t.conversations && Wanted(sel, u)) ==> View(after, u) == FRESH
  {
    hide *;
    ExportIsWritable(account, wxid, t, sel, media, disk);
    ExportedTalkers(account, wxid, t, sel, media, disk, u);
    ImportedView(r, Exported(account, wxid, t, sel, media, disk), disk, account, after, u);
    if u in t.conversations && Wanted(sel, u) {
      ExportedConversation(account, wxid, t, sel, media, disk, u);
      ExportedBatch(account, wxid, t, sel, media, disk, u);
      TalkerBack(account, t, u, BatchOf(Cut(Exported(account, wxid, t, sel, media, disk)).messages, u, account));
    }
  }

  /** An imported talker is what its cut snapshot makes of nobody. */
  lemma ImportedView(r: Snapshot, s: Snapshot, disk: map<string, seq<byte>>, account: string, after: Tables, u: string)
    requires Canonical(r, s, disk) && Writable(s, disk) && DistinctPerTalker(s.messages)
    requires Ingested(EMPTY_TABLES, after, account, Full, r, SortedStrings(TalkersIn(r)))
    ensures View(after, u) == if u in TalkersIn(Cut(s))
              then IngestState(FRESH, Full, ConversationIn(Cut(s).conversations, u, account), BatchOf(Cut(s).messages, u, account))
              else FRESH
  {
    EmptyViews(u);
    assert View(after, u) == if u in TalkersIn(r)
      then IngestState(FRESH, Full, ConversationIn(r.conversations, u, account), BatchOf(r.messages, u, account)) else FRESH;
    hide *;
    SameOneTalker(r, s, disk, u, account);
    SameState(FRESH, Full, ConversationIn(r.conversations, u, account), BatchOf(r.messages, u, account), BatchOf(Cut(s).messages, u, account));
  }

  lemma TalkerBack(account: string, t: Tables, u: string, b: seq<Message>)
    requires AllConsistent(t) && u in t.conversations && BatchOfRows(b, account, u, RowsOf(t.messages, u))
    ensures ComesBackIffSettled(View(t, u), IngestState(FRESH, Full, RestoredConversation(account, u, t.conversations[u]), b))
  {
    WasThere(t, u);
    hide View, RowsOf, SettledState, BatchOfRows, IngestState, AllConsistent, Consistent, RestoredConversation;
    TalkerComesBackIff(View(t, u), account, u, b);
  }

  lemma WasThere(t: Tables, u: string)
    requires AllConsistent(t)
    ensures Consistent(View(t, u))
    ensures View(t, u).rows == RowsOf(t.messages, u)
    ensures u in t.conversations ==> View(t, u).conv == Some(t.conversations[u])
    ensures u !in t.conversations ==> View(t, u).rows == map[] && View(t, u).conv == None
  {
    assert Consistent(View(t, u));
  }

  ghost predicate AllSettled(t: Tables) {
    forall u :: SettledState(View(t, u))
  }

  /** A whole settled account comes back: every message row and every conversation row. */
  lemma WholeAccountComesBack(account: string, wxid: string, t: Tables, media: seq<MediaObject>,
                              disk: map<string, seq<byte>>, r: Snapshot, after: Tables)
    requires AllConsistent(t) && AllSettled(t) && MediaTable(media)
    requires Canonical(r, Exported(account, wxid, t, WholeAccount, media, disk), disk)
    requires Ingested(EMPTY_TABLES, after, account, Full, r, SortedStrings(TalkersIn(r)))
    ensures after.messages == t.messages && after.conversations == t.conversations
  {
    hide Exported, Canonical, Ingested, SortedStrings, TalkersIn, MediaTable, AllConsistent, AllSettled, View;
    var same := t.(cursors := after.cursors);
    forall u ensures View(after, u) == View(same, u) {
      WholeTalkerComesBack(account, wxid, t, media, disk, r, after, u);
    }
    ViewsDecide(after, same);
  }

  lemma WholeTalkerComesBack(account: string, wxid: string, t: Tables, media: seq<MediaObject>,
                             disk: map<string, seq<byte>>, r: Snapshot, after: Tables, u: string)
    requires AllConsistent(t) && AllSettled(t) && MediaTable(media)
    requires Canonical(r, Exported(account, wxid, t, WholeAccount, media, disk), disk)
    requires Ingested(EMPTY_TABLES, after, account, Full, r, SortedStrings(TalkersIn(r)))
    ensures View(after, u) == View(t.(cursors := after.cursors), u)
  {
    hide Exported, Canonical, Ingested, SortedStrings, TalkersIn, MediaTable, Consistent, SettledState, RowsOf;
    ExportThenImportIff(account, wxid, t, WholeAccount, media, disk, r, after, u);
    WasThere(t, u);
    assert SettledState(View(t, u));
    assert View(after, u).cursor == Lookup(after.cursors, u);
  }

  // ---- Settled in every run ---------------------------------------------------------------------

  /** A snapshot whose times came out of a package. */
  ghost predicate FromPackage(snap: Snapshot) {
    NormalConversations(snap) && forall m :: m in snap.messages ==> Normal(m.time)
  }

  lemma NormalMessages(r: seq<Message>, msgs: seq<Message>)
    requires MessagesCanonical(r, msgs)
    ensures forall m :: m in r ==> Normal(m.time)
  {
    forall m | m in r ensures Normal(m.time) {
      var u := m.talker;
      assert SortedThenCut(OfTalker(r, u), OfTalker(msgs, u));
      var g :| SortedPermutation(g, OfTalker(msgs, u)) && OfTalker(r, u) == NormalisedAll(g);
      OfTalkerMembers(r, u);
      NormalisedMember(g, m);
      var m0 :| m0 in g && m == Normalised(m0);
      NormalisesOnce(m0.time);
    }
  }

  /** Whatever the device sent, what a package gives back has only times that survive a column. */
  lemma PackagesAreNormal(r: Snapshot, snap: Snapshot, disk: map<string, seq<byte>>)
    requires Canonical(r, snap, disk)
    ensures FromPackage(r)
  {
    hide MediaCanonical, BlobsCanonical, MessagesCanonical;
    NormalMessages(r.messages, snap.messages);
    forall c | c in r.conversations ensures Normal(c.lastMsgTime) {
      var d :| d in snap.conversations && c == CanonicalConversation(d, snap.account);
      NormalisesOnce(d.lastMsgTime);
    }
  }

  lemma IngestedKeepsSettled(before: Tables, after: Tables, account: string, mode: Mode, snap: Snapshot, done: seq<string>)
    requires AllSettled(before) && FromPackage(snap) && Ingested(before, after, account, mode, snap, done)
    ensures AllSettled(after)
  {
    hide View, IngestState, BatchOf, ConversationIn, SettledState, FromPackage;
    forall u ensures SettledState(View(after, u)) {
      assert SettledState(View(before, u));
      if u in done {
        NormalBatch(snap, u, account);
        IngestKeepsSettled(View(before, u), mode, ConversationIn(snap.conversations, u, account), BatchOf(snap.messages, u, account));
      }
    }
  }

  lemma NormalBatch(snap: Snapshot, u: string, account: string)
    requires FromPackage(snap)
    ensures NormalTimes(ConversationIn(snap.conversations, u, account), BatchOf(snap.messages, u, account))
    ensures ConversationIn(snap.conversations, u, account).kind.Valid()
  {
    NormalConversationIn(snap, u, account);
    forall n | n in BatchOf(snap.messages, u, account) ensures Normal(n.time) {
      BatchMember(snap.messages, u, account, n);
      var m :| m in snap.messages && m.talker == u && Ingestible(m) && n == m.(account := account);
    }
  }

  /** Every account filled by backups alone, in whatever modes and however interrupted, is settled, so
      that a whole export of it can be restored exactly. */
  lemma {:induction false} RunsStaySettled(states: seq<Tables>, account: string, attempts: seq<Attempt>, i: nat)
    requires |states| == |attempts| + 1 && Run(states, account, attempts) && i <= |attempts|
    requires forall j :: 0 <= j < |attempts| ==> FromPackage(attempts[j].snap)
    ensures AllSettled(states[i])
  {
    if i == 0 {
      StartIsEmpty(states, account, attempts);
      NobodySettled();
    } else {
      RunsStaySettled(states, account, attempts, i - 1);
      var a := attempts[i - 1];
      assert Ingested(states[i - 1], states[i], account, a.mode, a.snap, Committed(a.snap, a.committed));
      hide Run, AllSettled, Ingested, FromPackage;
      IngestedKeepsSettled(states[i - 1], states[i], account, a.mode, a.snap, Committed(a.snap, a.committed));
    }
  }

  lemma NobodySettled()
    ensures AllSettled(EMPTY_TABLES)
  {
    forall u ensures SettledState(View(EMPTY_TABLES, u)) { EmptyViews(u); }
  }

  lemma SettledDumpsEndWell(account: string, t: Tables, convs: seq<Conversation>)
    requires AllSettled(t) && !HasTalker(convs, "")
    ensures DumpsEnd(t.messages, convs) && DumpsEndWell(t.messages, convs)
  {
    hide PagesEndWell, KeysOf, DumpsEnd, HasTalker;
    forall c | c in convs ensures PagesEndWell(KeysOf(RowsOf(t.messages, c.talker))) {
      assert SettledState(View(t, c.talker));
      assert Representable(KeysOf(RowsOf(t.messages, c.talker)));
      RepresentableEndsWell(KeysOf(RowsOf(t.messages, c.talker)));
    }
    LoopDumpsAreDumps(account, t.messages, convs);
  }

  /** The whole journey: load, write, read, ingest. With room in the package, a settled account arrives
      whole in the empty one. */
  method Transplant(from: AccountDb, to: AccountDb, wxid: string, media: seq<MediaObject>, disk: map<string, seq<byte>>, codec: Codec)
    returns (r: Result<bool>)
    requires from != to && from.account == to.account && to.Contents() == EMPTY_TABLES
    requires AllConsistent(from.Contents()) && AllSettled(from.Contents()) && MediaTable(media)
    requires Faithful(codec, Exported(from.account, wxid, from.Contents(), WholeAccount, media, disk).messages)
    modifies to
    ensures var s := Exported(from.account, wxid, from.Contents(), WholeAccount, media, disk);
            r.Ok? <==> RecordsFit(s.messages, codec) && PayloadsFit(s, disk)
    ensures r.Ok? ==> r.value && to.messages == from.messages && to.conversations == from.conversations
    ensures r.Err? ==> to.Contents() == EMPTY_TABLES
  {
    hide Exported, AllSettled, AllConsistent, MediaTable, Canonical, Writable, RecordsFit, PayloadsFit, Faithful,
      DumpsEnd, DumpsEndWell, HasTalker, LoopDumps, ListConversations, Chosen, Ingested, SortedStrings, TalkersIn;
    ghost var t := from.Contents();
    NobodyBlank(t);
    ChosenTalkers(from.account, t.conversations, WholeAccount, "");
    SettledDumpsEndWell(from.account, t, Chosen(ListConversations(from.account, t.conversations), WholeAccount));
    ExportIsWritable(from.account, wxid, t, WholeAccount, media, disk);
    var loaded := LoadSnapshot(from, wxid, WholeAccount, media, disk);
    var got := Materialise(loaded.value, disk, codec);
    if got.Err? {
      return Err(got.error);
    }
    SameWxid(got.value, loaded.value, disk, wxid, from.account, t, media);
    r := IngestSnapshot(to, wxid, Full, got.value, |SortedStrings(TalkersIn(got.value))|);
    AllCommitted(got.value);
    WholeAccountComesBack(from.account, wxid, t, media, disk, got.value, to.Contents());
  }

  lemma NobodyBlank(t: Tables)
    requires AllConsistent(t)
    ensures "" !in t.conversations
  {
  }

  lemma AllCommitted(snap: Snapshot)
    ensures Committed(snap, |SortedStrings(TalkersIn(snap))|) == SortedStrings(TalkersIn(snap))
  {
  }

  lemma SameWxid(r: Snapshot, s: Snapshot, disk: map<string, seq<byte>>, wxid: string, account: string, t: Tables, media: seq<MediaObject>)
    requires Canonical(r, s, disk) && s == Exported(account, wxid, t, WholeAccount, media, disk)
    ensures r.wxid == wxid
  {
  }
}
