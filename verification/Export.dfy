/** Loading sessions of an account into a snapshot to be exported. */
module Export {
  import opened Domain
  import opened Order
  import opened Package
  import opened Store
  import opened IngestLaws
  import opened Chunks
  import opened Paging
  import opened Passage

  // ---- Listing conversations --------------------------------------------------------------------

  datatype ConvKey = ConvKey(lastMs: int, talker: string)

  /** The most recent conversation first; the talker decides between equals. */
  predicate ConvBefore(a: ConvKey, b: ConvKey) {
    a.lastMs > b.lastMs || (a.lastMs == b.lastMs && StrLess(a.talker, b.talker))
  }

  lemma ConvBeforeIsStrictTotal()
    ensures StrictTotal(ConvBefore)
  {
    StrLessIsStrictTotal();
    forall a, b, c | ConvBefore(a, b) && ConvBefore(b, c) ensures ConvBefore(a, c) {
      if StrLess(a.talker, b.talker) && StrLess(b.talker, c.talker) { StrLessTransitive(a.talker, b.talker, c.talker); }
    }
    forall a ensures !ConvBefore(a, a) { StrLessIrreflexive(a.talker); }
    forall a, b ensures a == b || ConvBefore(a, b) || ConvBefore(b, a) { StrLessTotal(a.talker, b.talker); }
  }

  function ConvKeys(convs: map<string, ConvRow>): set<ConvKey> {
    set t | t in convs :: ConvKey(convs[t].lastMs, t)
  }

  function ConvList(convs: map<string, ConvRow>): (r: seq<ConvKey>)
    ensures Lists(r, ConvKeys(convs), ConvBefore)
    ensures forall i :: 0 <= i < |r| ==> r[i].talker in convs
  {
    ConvBeforeIsStrictTotal();
    var r := SortedList(ConvKeys(convs), ConvBefore);
    assert forall i :: 0 <= i < |r| ==> r[i] in r;
    r
  }

  function ListConversations(account: string, convs: map<string, ConvRow>): (r: seq<Conversation>)
    ensures |r| == |ConvList(convs)|
    ensures forall i :: 0 <= i < |r| ==>
              var t := ConvList(convs)[i].talker; t in convs && r[i] == ConversationAt(account, t, convs[t])
  {
    var keys := ConvList(convs);
    seq(|keys|, i requires 0 <= i < |keys| => ConversationAt(account, keys[i].talker, convs[keys[i].talker]))
  }

  /** A listing of the table: one conversation for each row. */
  ghost predicate ListsTable(list: seq<Conversation>, account: string, convs: map<string, ConvRow>) {
    && DistinctTalkers(list)
    && forall c :: c in list <==> c.talker in convs && c == ConversationAt(account, c.talker, convs[c.talker])
  }

  lemma ConversationsListed(account: string, convs: map<string, ConvRow>)
    ensures ListsTable(ListConversations(account, convs), account, convs)
  {
    var list, keys := ListConversations(account, convs), ConvList(convs);
    forall i, j | 0 <= i < j < |list| ensures list[i].talker != list[j].talker {
      assert ConvBefore(keys[i], keys[j]);
      assert keys[i] in keys && keys[j] in keys;
      StrLessIrreflexive(keys[i].talker);
    }
    forall c ensures c in list <==> c.talker in convs && c == ConversationAt(account, c.talker, convs[c.talker]) {
      if c in list {
        var i :| 0 <= i < |list| && list[i] == c;
      } else if c.talker in convs {
        var k := ConvKey(convs[c.talker].lastMs, c.talker);
        assert k in keys;
        var i :| 0 <= i < |keys| && keys[i] == k;
        assert list[i] in list;
      }
    }
  }

  /** The most recent stands first, and of equally recent ones the smaller talker. */
  lemma MostRecentFirst(account: string, convs: map<string, ConvRow>)
    ensures var list := ListConversations(account, convs);
            forall i, j :: 0 <= i < j < |list| ==>
              && list[i].talker in convs && list[j].talker in convs
              && var a, b := convs[list[i].talker].lastMs, convs[list[j].talker].lastMs;
                 a > b || (a == b && StrLess(list[i].talker, list[j].talker))
  {
    var list, keys := ListConversations(account, convs), ConvList(convs);
    hide StrLess;
    forall i, j | 0 <= i < j < |list|
      ensures list[i].talker in convs && list[j].talker in convs
      ensures var a, b := convs[list[i].talker].lastMs, convs[list[j].talker].lastMs;
              a > b || (a == b && StrLess(list[i].talker, list[j].talker))
    {
      assert ConvBefore(keys[i], keys[j]);
      assert keys[i] in keys && keys[j] in keys;
    }
  }

  // ---- What is exported -------------------------------------------------------------------------

  datatype Selector = WholeAccount | SomeSessions(ids: seq<string>)

  predicate Wanted(sel: Selector, talker: string) {
    sel.WholeAccount? || talker in sel.ids
  }

  function Chosen(list: seq<Conversation>, sel: Selector): seq<Conversation> {
    if list == [] then []
    else (if Wanted(sel, list[0].talker) then [list[0]] else []) + Chosen(list[1..], sel)
  }

  function DumpAll(account: string, messages: map<MsgKey, Row>, convs: seq<Conversation>): seq<Message> {
    if convs == [] then []
    else Dump(account, convs[0].talker, RowsOf(messages, convs[0].talker)) + DumpAll(account, messages, convs[1..])
  }

  /** A media object whose file is gone is exported without it. */
  function Checked(m: MediaObject, disk: map<string, seq<byte>>): MediaObject {
    if m.path == "" || m.path in disk then m else m.(path := "", available := false)
  }

  function CheckedAll(media: seq<MediaObject>, disk: map<string, seq<byte>>): (r: seq<MediaObject>)
    ensures |r| == |media| && forall i :: 0 <= i < |media| ==> r[i] == Checked(media[i], disk)
  {
    seq(|media|, i requires 0 <= i < |media| => Checked(media[i], disk))
  }

  /** The media of an export: an object is as it is if it names no file or one that is there, and otherwise
      without the file. */
  predicate MediaLoaded(loaded: seq<MediaObject>, media: seq<MediaObject>, disk: map<string, seq<byte>>) {
    && |loaded| == |media|
    && forall i :: 0 <= i < |media| ==>
         loaded[i] == if media[i].path == "" || media[i].path in disk then media[i] else media[i].(path := "", available := false)
  }

  function Exported(account: string, wxid: string, t: Tables, sel: Selector, media: seq<MediaObject>,
                    disk: map<string, seq<byte>>): Snapshot
  {
    var convs := Chosen(ListConversations(account, t.conversations), sel);
    Snapshot(account, wxid, convs, DumpAll(account, t.messages, convs), CheckedAll(media, disk), map[])
  }

  lemma {:induction false} ChosenConcat(a: seq<Conversation>, b: seq<Conversation>, sel: Selector)
    ensures Chosen(a + b, sel) == Chosen(a, sel) + Chosen(b, sel)
  {
    if a == [] {
      assert a + b == b;
    } else {
      assert (a + b)[1..] == a[1..] + b && (a + b)[0] == a[0];
      ChosenConcat(a[1..], b, sel);
      var first := if Wanted(sel, a[0].talker) then [a[0]] else [];
      assert first + (Chosen(a[1..], sel) + Chosen(b, sel)) == first + Chosen(a[1..], sel) + Chosen(b, sel);
    }
  }

  lemma ChosenSnoc(a: seq<Conversation>, c: Conversation, sel: Selector)
    ensures Chosen(a + [c], sel) == if Wanted(sel, c.talker) then Chosen(a, sel) + [c] else Chosen(a, sel)
  {
    ChosenConcat(a, [c], sel);
    assert [c][1..] == [] && Chosen([c][1..], sel) == [];
  }

  lemma {:induction false} ChosenMembers(list: seq<Conversation>, sel: Selector)
    ensures forall c :: c in Chosen(list, sel) <==> c in list && Wanted(sel, c.talker)
    ensures DistinctTalkers(list) ==> DistinctTalkers(Chosen(list, sel))
  {
    if list != [] {
      var rest := list[1..];
      ChosenMembers(rest, sel);
      assert list == [list[0]] + rest;
      if DistinctTalkers(list) {
        FirstTalkerAlone(list);
        OneMoreTalker(list[0], Chosen(rest, sel));
      }
    }
  }

  lemma OneMoreTalker(c: Conversation, rest: seq<Conversation>)
    requires DistinctTalkers(rest) && forall d :: d in rest ==> d.talker != c.talker
    ensures DistinctTalkers([c] + rest) && DistinctTalkers([] + rest)
  {
    forall i, j | 0 <= i < j < |rest| + 1 ensures ([c] + rest)[i].talker != ([c] + rest)[j].talker {
      assert rest[j - 1] in rest;
    }
    assert [] + rest == rest;
  }

  lemma HasTalkerTail(convs: seq<Conversation>, u: string)
    requires convs != []
    ensures HasTalker(convs, u) <==> convs[0].talker == u || HasTalker(convs[1..], u)
    ensures DistinctTalkers(convs) ==> DistinctTalkers(convs[1..]) && !HasTalker(convs[1..], convs[0].talker)
  {
    assert convs == [convs[0]] + convs[1..];
    if convs[0].talker == u { assert convs[0] in convs; }
    if DistinctTalkers(convs) { FirstTalkerAlone(convs); }
  }

  /** The dump of several conversations holds each talker's own dump. */
  lemma {:induction false} DumpOfTalker(account: string, messages: map<MsgKey, Row>, convs: seq<Conversation>, u: string)
    requires DistinctTalkers(convs)
    ensures OfTalker(DumpAll(account, messages, convs), u) ==
              if HasTalker(convs, u) then Dump(account, u, RowsOf(messages, u)) else []
  {
    hide Dump, DistinctTalkers, HasTalker, OfTalker, RowsOf;
    if convs == [] {
      NobodyDumped(u);
    } else {
      var t, rest := convs[0].talker, convs[1..];
      HasTalkerTail(convs, u);
      HasTalkerTail(convs, t);
      DumpOfTalker(account, messages, rest, u);
      OfTalkerConcat(Dump(account, t, RowsOf(messages, t)), DumpAll(account, messages, rest), u);
      DumpOwned(account, t, RowsOf(messages, t));
      OfTalkerUniform(Dump(account, t, RowsOf(messages, t)), t, u);
    }
  }

  lemma NobodyDumped(u: string)
    ensures OfTalker([], u) == [] && !HasTalker([], u)
  {
  }

  lemma DumpOwned(account: string, t: string, rows: map<string, Row>)
    ensures forall m :: m in Dump(account, t, rows) ==> m.talker == t && m.id in rows
  {
    DumpIsExact(account, t, rows);
  }

  lemma DumpDistinct(account: string, t: string, rows: map<string, Row>)
    ensures DistinctIds(Dump(account, t, rows))
  {
    DumpIsExact(account, t, rows);
    var d := Dump(account, t, rows);
    hide Dump, KeyLess;
    forall i, j | 0 <= i < j < |d| ensures d[i].id != d[j].id {
      assert d[i] in d && d[j] in d;
      assert KeyLess(KeyOf(d[i]), KeyOf(d[j]));
      KeyLessIsStrictTotal();
    }
  }

  // ---- Loading the snapshot ---------------------------------------------------------------------

  /** Keeps the wanted conversations; an id that names none of them is an error. */
  method FilterSessions(convs: seq<Conversation>, sel: Selector) returns (r: Result<seq<Conversation>>)
    requires sel.SomeSessions?
    ensures r.Ok? <==> forall id :: id in sel.ids ==> HasTalker(convs, id)
    ensures r == Err(UnknownSession) || r == Ok(Chosen(convs, sel))
  {
    var filtered: seq<Conversation>, found: set<string> := [], {};
    for i := 0 to |convs|
      invariant filtered == Chosen(convs[..i], sel)
      invariant forall id :: id in found <==> HasTalker(convs[..i], id) && id in sel.ids
    {
      var c := convs[i];
      assert convs[..i + 1] == convs[..i] + [c];
      ChosenSnoc(convs[..i], c, sel);
      if c.talker in sel.ids {
        filtered, found := filtered + [c], found + {c.talker};
      }
    }
    assert convs[..|convs|] == convs;
    for i := 0 to |sel.ids|
      invariant forall id :: id in sel.ids[..i] ==> HasTalker(convs, id)
    {
      if sel.ids[i] !in found {
        assert sel.ids[i] in sel.ids && !HasTalker(convs, sel.ids[i]);
        return Err(UnknownSession);
      }
      assert sel.ids[..i + 1] == sel.ids[..i] + [sel.ids[i]];
    }
    assert sel.ids[..|sel.ids|] == sel.ids;
    return Ok(filtered);
  }

  lemma {:induction false} DumpAllConcat(account: string, messages: map<MsgKey, Row>, a: seq<Conversation>, b: seq<Conversation>)
    ensures DumpAll(account, messages, a + b) == DumpAll(account, messages, a) + DumpAll(account, messages, b)
  {
    hide Dump, RowsOf;
    if a == [] {
      assert a + b == b;
    } else {
      assert (a + b)[1..] == a[1..] + b && (a + b)[0] == a[0];
      DumpAllConcat(account, messages, a[1..], b);
      var first := Dump(account, a[0].talker, RowsOf(messages, a[0].talker));
      assert first + (DumpAll(account, messages, a[1..]) + DumpAll(account, messages, b))
          == first + DumpAll(account, messages, a[1..]) + DumpAll(account, messages, b);
    }
  }

  lemma DumpAllSnoc(account: string, messages: map<MsgKey, Row>, a: seq<Conversation>, c: Conversation)
    ensures DumpAll(account, messages, a + [c]) == DumpAll(account, messages, a) + Dump(account, c.talker, RowsOf(messages, c.talker))
  {
    hide Dump, RowsOf;
    DumpAllConcat(account, messages, a, [c]);
    assert [c][1..] == [] && DumpAll(account, messages, [c][1..]) == [];
  }

  /** The exporter's loop ends on the rows of each of these talkers. */
  ghost predicate DumpsEnd(messages: map<MsgKey, Row>, convs: seq<Conversation>) {
    forall c :: c in convs && c.talker != "" ==> DumpEnds(KeysOf(RowsOf(messages, c.talker)))
  }

  /** It even ends with each row once. */
  ghost predicate DumpsEndWell(messages: map<MsgKey, Row>, convs: seq<Conversation>) {
    forall c :: c in convs ==> PagesEndWell(KeysOf(RowsOf(messages, c.talker)))
  }

  /** What the loop collects from one talker after the other. */
  ghost function LoopDumps(account: string, messages: map<MsgKey, Row>, convs: seq<Conversation>): seq<Message>
    requires DumpsEnd(messages, convs) && !HasTalker(convs, "")
    decreases |convs|
  {
    if convs == [] then []
    else
      var front, c := convs[..|convs| - 1], convs[|convs| - 1];
      assert c in convs && forall d :: d in front ==> d in convs;
      LoopDumps(account, messages, front) + LoopDump(account, c.talker, RowsOf(messages, c.talker))
  }

  lemma LoopDumpsSnoc(account: string, messages: map<MsgKey, Row>, convs: seq<Conversation>, c: Conversation)
    requires DumpsEnd(messages, convs + [c]) && !HasTalker(convs + [c], "")
    ensures DumpsEnd(messages, convs) && !HasTalker(convs, "") && c.talker != "" && DumpEnds(KeysOf(RowsOf(messages, c.talker)))
    ensures LoopDumps(account, messages, convs + [c])
         == LoopDumps(account, messages, convs) + LoopDump(account, c.talker, RowsOf(messages, c.talker))
  {
    assert (convs + [c])[..|convs|] == convs && c in convs + [c] && forall d :: d in convs ==> d in convs + [c];
    hide LoopDump, KeysOf, RowsOf, DumpEnds;
  }

  /** Where no full page ends at the instant that reads back as absent, the loop collects the dumps. */
  lemma {:induction false} LoopDumpsAreDumps(account: string, messages: map<MsgKey, Row>, convs: seq<Conversation>)
    requires DumpsEndWell(messages, convs) && !HasTalker(convs, "")
    ensures DumpsEnd(messages, convs) && LoopDumps(account, messages, convs) == DumpAll(account, messages, convs)
    decreases |convs|
  {
    hide LoopDump, Dump, KeysOf, RowsOf, PagesEndWell, DumpEnds;
    forall c | c in convs ensures DumpEnds(KeysOf(RowsOf(messages, c.talker))) {
      LoopDumpIsDump(account, c.talker, RowsOf(messages, c.talker));
    }
    if convs != [] {
      var front, c := convs[..|convs| - 1], convs[|convs| - 1];
      assert convs == front + [c] && c in convs && forall d :: d in front ==> d in convs;
      LoopDumpsAreDumps(account, messages, front);
      LoopDumpIsDump(account, c.talker, RowsOf(messages, c.talker));
      LoopDumpsSnoc(account, messages, front, c);
      DumpAllSnoc(account, messages, front, c);
    }
  }

  lemma FrontEnds(messages: map<MsgKey, Row>, convs: seq<Conversation>, i: nat)
    requires i < |convs| && DumpsEnd(messages, convs)
    ensures DumpsEnd(messages, convs[..i + 1])
    ensures convs[i].talker != "" ==> DumpEnds(KeysOf(RowsOf(messages, convs[i].talker)))
    ensures HasTalker(convs[..i + 1], "") <==> HasTalker(convs[..i], "") || convs[i].talker == ""
    ensures convs[..i + 1] == convs[..i] + [convs[i]]
  {
    assert convs[..i + 1] == convs[..i] + [convs[i]] && convs[i] in convs;
    hide DumpEnds, KeysOf, RowsOf;
    if convs[i].talker == "" { assert convs[i] in convs[..i + 1]; }
  }

  /** Dumps the conversations in turn. A blank talker is refused; the loop ends if it does for each of them. */
  method DumpChosen(db: AccountDb, convs: seq<Conversation>) returns (r: Result<seq<Message>>)
    requires DumpsEnd(db.messages, convs)
    ensures r.Ok? <==> !HasTalker(convs, "")
    ensures r.Ok? ==> r.value == LoopDumps(db.account, db.messages, convs)
  {
    hide LoopDump, RowsOf, KeysOf, DumpEnds, DumpsEnd, LoopDumps, HasTalker;
    var msgs := [];
    NothingToDump(db.account, db.messages);
    for i := 0 to |convs|
      invariant DumpsEnd(db.messages, convs[..i]) && !HasTalker(convs[..i], "")
      invariant msgs == LoopDumps(db.account, db.messages, convs[..i])
    {
      FrontEnds(db.messages, convs, i);
      var got := DumpMessages(db.account, db.messages, convs[i].talker);
      if got.Err? {
        BlankIsThere(convs, i);
        return got;
      }
      LoopDumpsSnoc(db.account, db.messages, convs[..i], convs[i]);
      msgs := msgs + got.value;
    }
    assert convs[..|convs|] == convs;
    return Ok(msgs);
  }

  lemma NothingToDump(account: string, messages: map<MsgKey, Row>)
    ensures DumpsEnd(messages, []) && !HasTalker([], "") && LoopDumps(account, messages, []) == []
  {
  }

  lemma BlankIsThere(convs: seq<Conversation>, i: nat)
    requires i < |convs| && convs[i].talker == ""
    ensures HasTalker(convs, "")
  {
    assert convs[i] in convs;
  }

  method CheckMedia(media: seq<MediaObject>, disk: map<string, seq<byte>>) returns (r: seq<MediaObject>)
    ensures r == CheckedAll(media, disk)
  {
    r := media;
    for i := 0 to |r|
      invariant |r| == |media|
      invariant r[..i] == CheckedAll(media, disk)[..i] && r[i..] == media[i..]
    {
      if r[i].path != "" && r[i].path !in disk {
        r := r[i := r[i].(path := "", available := false)];
      }
    }
  }

  /** A wanted id that no conversation has. */
  ghost predicate MissingSession(sel: Selector, convs: map<string, ConvRow>) {
    sel.SomeSessions? && exists id :: id in sel.ids && id !in convs
  }

  lemma ChosenTalkers(account: string, convs: map<string, ConvRow>, sel: Selector, u: string)
    ensures HasTalker(ListConversations(account, convs), u) <==> u in convs
    ensures HasTalker(Chosen(ListConversations(account, convs), sel), u) <==> u in convs && Wanted(sel, u)
  {
    var list := ListConversations(account, convs);
    ConversationsListed(account, convs);
    ChosenMembers(list, sel);
    hide ListConversations, Chosen, DistinctTalkers;
    if u in convs {
      var c := ConversationAt(account, u, convs[u]);
      assert c in list && c.talker == u;
      if Wanted(sel, u) { assert c in Chosen(list, sel); }
    }
  }

  /** The chosen conversations are the wanted rows of the table. */
  lemma ChosenRows(account: string, convs: map<string, ConvRow>, sel: Selector)
    ensures forall c :: c in Chosen(ListConversations(account, convs), sel) <==>
              && c.talker in convs && (sel.WholeAccount? || c.talker in sel.ids)
              && c == ConversationAt(account, c.talker, convs[c.talker])
  {
    ConversationsListed(account, convs);
    ChosenMembers(ListConversations(account, convs), sel);
    hide ListConversations, Chosen, DistinctTalkers;
  }

  lemma WholeIsChosen(list: seq<Conversation>)
    ensures Chosen(list, WholeAccount) == list
  {
    if list != [] { WholeIsChosen(list[1..]); }
  }

  method LoadSnapshot(db: AccountDb, wxid: string, sel: Selector, media: seq<MediaObject>, disk: map<string, seq<byte>>)
    returns (r: Result<Snapshot>)
    requires MissingSession(sel, db.conversations) || DumpsEnd(db.messages, Chosen(ListConversations(db.account, db.conversations), sel))
    ensures r.Ok? <==> !MissingSession(sel, db.conversations) && !(Wanted(sel, "") && "" in db.conversations)
    ensures MissingSession(sel, db.conversations) ==> r == Err(UnknownSession)
    ensures r.Ok? ==>
              var convs := Chosen(ListConversations(db.account, db.conversations), sel);
              && !HasTalker(convs, "")
              && r.value == Exported(db.account, wxid, db.Contents(), sel, media, disk)
                              .(messages := LoopDumps(db.account, db.messages, convs))
              && (DumpsEndWell(db.messages, convs) ==> r.value == Exported(db.account, wxid, db.Contents(), sel, media, disk))
    ensures r.Ok? ==>
              && r.value.account == db.account && r.value.wxid == wxid && r.value.blobs == map[]
              && (forall c :: c in r.value.conversations <==>
                    c.talker in db.conversations && (sel.WholeAccount? || c.talker in sel.ids)
                    && c == ConversationAt(db.account, c.talker, db.conversations[c.talker]))
              && MediaLoaded(r.value.media, media, disk)
  {
    hide DumpsEnd, DumpsEndWell, ListConversations, DumpAll, LoopDumps, HasTalker, Chosen;
    var convs := ListConversations(db.account, db.conversations);
    forall u ensures HasTalker(convs, u) <==> u in db.conversations { ChosenTalkers(db.account, db.conversations, sel, u); }
    ChosenTalkers(db.account, db.conversations, sel, "");
    WholeIsChosen(convs);
    if sel.SomeSessions? {
      var filtered := FilterSessions(convs, sel);
      if filtered.Err? {
        return Err(filtered.error);
      }
      convs := filtered.value;
    }
    var msgs := DumpChosen(db, convs);
    if msgs.Err? {
      return Err(msgs.error);
    }
    if DumpsEndWell(db.messages, convs) {
      LoopDumpsAreDumps(db.account, db.messages, convs);
    }
    var checked := CheckMedia(media, disk);
    ChosenRows(db.account, db.conversations, sel);
    return Ok(Snapshot(db.account, wxid, convs, msgs.value, checked, map[]));
  }
}
