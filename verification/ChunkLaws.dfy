/** Cutting a snapshot into chunks, filtering them and merging them again loses nothing it should keep. */
module ChunkLaws {
  import opened Domain
  import opened Order
  import opened Store
  import opened Ingest
  import opened Chunks

  /** The chunk of a talker, if there is one. */
  function Find(cs: seq<Chunk>, t: string): Option<Chunk> {
    if cs == [] then None
    else if cs[|cs| - 1].talker == t then Some(cs[|cs| - 1])
    else Find(cs[..|cs| - 1], t)
  }

  ghost predicate Own(ch: Chunk) {
    && ch.talker != "" && ch.media == [] && ch.blobs == map[]
    && (forall m :: m in ch.messages ==> m.talker == ch.talker)
    && (forall c :: c in ch.conversations ==> c.talker == ch.talker)
  }

  /** At most one chunk per talker, each holding only its own talker's things. */
  ghost predicate PerTalker(cs: seq<Chunk>) {
    cs == [] ||
    (PerTalker(cs[..|cs| - 1]) && Own(cs[|cs| - 1]) && Find(cs[..|cs| - 1], cs[|cs| - 1].talker).None?)
  }

  lemma FindSnoc(cs: seq<Chunk>, ch: Chunk, t: string)
    ensures Find(cs + [ch], t) == if ch.talker == t then Some(ch) else Find(cs, t)
  {
    assert (cs + [ch])[..|cs|] == cs;
  }

  lemma PerTalkerSnoc(cs: seq<Chunk>, ch: Chunk)
    ensures PerTalker(cs + [ch]) <==> PerTalker(cs) && Own(ch) && Find(cs, ch.talker).None?
  {
    assert (cs + [ch])[..|cs|] == cs;
  }

  // ---- Merging chunks ---------------------------------------------------------------------------

  /** The conversation a merged snapshot holds for a chunk: its first, or one made up if it has messages. */
  function KeptConversation(account: string, ch: Chunk): seq<Conversation> {
    if ch.conversations != [] then [ch.conversations[0]]
    else if ch.messages != [] then [MadeUp(account, ch.talker)]
    else []
  }

  lemma {:induction false} AddOwn(convs: seq<Conversation>, more: seq<Conversation>, u: string, t: string)
    requires ConvsOf(convs, u) == [] && forall c :: c in more ==> c.talker == u
    ensures ConvsOf(AddConversations(convs, more), t)
         == if t == u && more != [] then [more[0]] else ConvsOf(convs, t)
    decreases |more|
  {
    if more != [] {
      var front, c := more[..|more| - 1], more[|more| - 1];
      var before := AddConversations(convs, front);
      AddOwn(convs, front, u, t);
      AddOwn(convs, front, u, u);
      ConvMembers(before, u);
      assert c in more;
      hide ConvsOf;
      ConvsSnoc(before, c, t);
    }
  }

  /** What merging chunks of distinct talkers gives each talker. */
  lemma {:induction false} MergedTalker(start: Snapshot, cs: seq<Chunk>, t: string)
    requires PerTalker(cs) && start.messages == [] && start.conversations == []
    ensures var d := MergedAll(start, cs);
            && d.account == start.account && d.wxid == start.wxid && d.media == start.media && d.blobs == start.blobs
            && match Find(cs, t)
               case None => OfTalker(d.messages, t) == [] && ConvsOf(d.conversations, t) == []
               case Some(ch) => OfTalker(d.messages, t) == ch.messages
                                && ConvsOf(d.conversations, t) == KeptConversation(start.account, ch)
    decreases |cs|
  {
    if cs == [] {
      assert OfTalker([], t) == [] && ConvsOf([], t) == [];
    } else {
      var front, ch := cs[..|cs| - 1], cs[|cs| - 1];
      var d := MergedAll(start, front);
      MergedTalker(start, front, t);
      MergedTalker(start, front, ch.talker);
      hide OfTalker, ConvsOf, Merged, KeptConversation, Own;
      MergeStep(d, ch, t);
    }
  }

  lemma MergeStep(d: Snapshot, ch: Chunk, t: string)
    requires Own(ch) && ConvsOf(d.conversations, ch.talker) == [] && OfTalker(d.messages, ch.talker) == []
    ensures var d' := Merged(d, ch);
            && d'.account == d.account && d'.wxid == d.wxid && d'.media == d.media && d'.blobs == d.blobs
            && OfTalker(d'.messages, t) == (if t == ch.talker then ch.messages else OfTalker(d.messages, t))
            && ConvsOf(d'.conversations, t) == (if t == ch.talker then KeptConversation(d.account, ch) else ConvsOf(d.conversations, t))
  {
    NoTalker(d.conversations, ch.talker);
    assert d.media + [] == d.media && d.blobs + map[] == d.blobs;
    hide OfTalker, ConvsOf, HasTalker, AddConversations;
    MergeMessages(d.messages, ch, t);
    AddOwn(d.conversations, ListedConversations(d, ch), ch.talker, t);
  }

  lemma MergeMessages(msgs: seq<Message>, ch: Chunk, t: string)
    requires Own(ch) && OfTalker(msgs, ch.talker) == []
    ensures OfTalker(msgs + ch.messages, t) == if t == ch.talker then ch.messages else OfTalker(msgs, t)
  {
    OfTalkerConcat(msgs, ch.messages, t);
    OfTalkerUniform(ch.messages, ch.talker, t);
    hide OfTalker;
    assert OfTalker(msgs, t) + [] == OfTalker(msgs, t) && [] + ch.messages == ch.messages;
  }

  lemma NoTalker(convs: seq<Conversation>, u: string)
    requires ConvsOf(convs, u) == []
    ensures !HasTalker(convs, u)
  {
    ConvMembers(convs, u);
  }

  // ---- Filtering chunks -------------------------------------------------------------------------

  function Sole(cs: seq<Chunk>): Option<Chunk> {
    if cs == [] then None else Some(cs[0])
  }

  lemma {:induction false} FilterTalker(cs: seq<Chunk>, cursors: map<string, CursorRow>, t: string)
    requires PerTalker(cs)
    ensures PerTalker(FilterEach(cs, cursors))
    ensures Find(FilterEach(cs, cursors), t) ==
            match Find(cs, t) case None => None case Some(ch) => Sole(FilterOne(ch, cursors))
    decreases |cs|
  {
    if cs != [] {
      var front, ch := cs[..|cs| - 1], cs[|cs| - 1];
      FilterTalker(front, cursors, t);
      FilterTalker(front, cursors, ch.talker);
      var kept := FilterOne(ch, cursors);
      hide FilterOne;
      if kept == [] {
        assert FilterEach(front, cursors) + [] == FilterEach(front, cursors);
      } else {
        PastOwn(ch, cursors);
        FindSnoc(FilterEach(front, cursors), kept[0], t);
        PerTalkerSnoc(FilterEach(front, cursors), kept[0]);
        assert kept == [kept[0]];
      }
    }
  }

  lemma PastOwn(ch: Chunk, cursors: map<string, CursorRow>)
    requires Own(ch)
    ensures |FilterOne(ch, cursors)| <= 1
    ensures forall k :: k in FilterOne(ch, cursors) ==> Own(k) && k.talker == ch.talker
  {
    if ch.talker in cursors {
      PastMembers(ch.messages, CursorAt("", ch.talker, cursors[ch.talker]));
    }
  }

  // ---- The chunks of a snapshot -----------------------------------------------------------------

  lemma ChunkIsOwn(snap: Snapshot, t: string)
    requires t != ""
    ensures Own(ChunkOf(snap, t))
  {
    OfTalkerMembers(snap.messages, t);
    ConvMembers(snap.conversations, t);
  }

  lemma {:induction false} CutTalker(snap: Snapshot, talkers: seq<string>, t: string)
    requires Ascending(talkers, StrLess) && "" !in talkers
    ensures PerTalker(TalkerChunks(snap, talkers))
    ensures Find(TalkerChunks(snap, talkers), t) == if t in talkers then Some(ChunkOf(snap, t)) else None
    decreases |talkers|
  {
    if talkers != [] {
      var front, u := SplitLast(talkers);
      CutTalker(snap, front, t);
      CutTalker(snap, front, u);
      TalkerChunksSnoc(snap, talkers, |front|);
      ChunkIsOwn(snap, u);
      hide TalkerChunks, ChunkOf, Own, StrLess, Ascending;
      FindSnoc(TalkerChunks(snap, front), ChunkOf(snap, u), t);
      PerTalkerSnoc(TalkerChunks(snap, front), ChunkOf(snap, u));
    }
  }

  lemma SplitLast(talkers: seq<string>) returns (front: seq<string>, u: string)
    requires Ascending(talkers, StrLess) && talkers != []
    ensures talkers == front + [u] && Ascending(front, StrLess) && u !in front
    ensures talkers[..|front|] == front && talkers[|front|] == u && talkers[..|front| + 1] == talkers
    ensures forall v :: v in talkers <==> v in front || v == u
  {
    var i := |talkers| - 1;
    front, u := talkers[..i], talkers[i];
    NotYet(talkers, i);
  }

  lemma {:induction false} FilterConcat(a: seq<Chunk>, b: seq<Chunk>, cursors: map<string, CursorRow>)
    ensures FilterEach(a + b, cursors) == FilterEach(a, cursors) + FilterEach(b, cursors)
    decreases |b|
  {
    if b == [] {
      assert a + b == a && FilterEach(a, cursors) + [] == FilterEach(a, cursors);
    } else {
      var front, ch := b[..|b| - 1], b[|b| - 1];
      assert a + b == (a + front) + [ch] && b == front + [ch];
      hide *;
      FilterConcat(a, front, cursors);
      FilterSnoc(a + front, ch, cursors);
      FilterSnoc(front, ch, cursors);
      var x, y, z := FilterEach(a, cursors), FilterEach(front, cursors), FilterOne(ch, cursors);
      assert (x + y) + z == x + (y + z);
    }
  }

  lemma FilterSnoc(cs: seq<Chunk>, ch: Chunk, cursors: map<string, CursorRow>)
    ensures FilterEach(cs + [ch], cursors) == FilterEach(cs, cursors) + FilterOne(ch, cursors)
  {
    hide FilterOne;
    assert (cs + [ch])[..|cs|] == cs;
  }

  // ---- What is delivered ------------------------------------------------------------------------

  /** The messages of one talker that a device delivers: those past the talker's cursor, unless the run
      is full or the talker has none. */
  function KeptMessages(snap: Snapshot, mode: Mode, cursors: map<string, CursorRow>, t: string): seq<Message> {
    var own := OfTalker(snap.messages, t);
    if mode.Full? || t !in cursors then own else Past(own, CursorAt("", t, cursors[t]))
  }

  /** A talker with a cursor and nothing past it is not mentioned at all. */
  predicate Dropped(snap: Snapshot, mode: Mode, cursors: map<string, CursorRow>, t: string) {
    !mode.Full? && t in cursors && KeptMessages(snap, mode, cursors, t) == []
  }

  function KeptConversations(snap: Snapshot, account: string, t: string): seq<Conversation> {
    KeptConversation(account, ChunkOf(snap, t))
  }

  /** A delivered talker has the first conversation that the source lists for it; one that has messages and
      none listed is a friend called by its id. */
  lemma KeptConversationsAre(snap: Snapshot, account: string, t: string)
    requires t != ""
    ensures forall i: nat :: ListedFirst(snap.conversations, t, i) ==> KeptConversations(snap, account, t) == [snap.conversations[i]]
    ensures (forall c :: c in snap.conversations ==> c.talker != t) && (exists m :: m in snap.messages && m.talker == t) ==>
              && |KeptConversations(snap, account, t)| == 1
              && var c := KeptConversations(snap, account, t)[0];
                 && c.account == account && c.talker == t && c.kind == Friend && c.displayName == t && c.avatar == ""
                 && c.lastMsgTime == ZERO_TIME && c.msgCount == 0
  {
    ConvMembers(snap.conversations, t);
    OfTalkerMembers(snap.messages, t);
    if exists m :: m in snap.messages && m.talker == t {
      var m :| m in snap.messages && m.talker == t;
      assert m in OfTalker(snap.messages, t);
    }
    forall i: nat | ListedFirst(snap.conversations, t, i)
      ensures ConvsOf(snap.conversations, t) != [] && ConvsOf(snap.conversations, t)[0] == snap.conversations[i]
    {
      FirstOfTalker(snap.conversations, t, i);
    }
  }

  predicate ListedFirst(convs: seq<Conversation>, t: string, i: nat) {
    i < |convs| && convs[i].talker == t && forall j :: 0 <= j < i ==> convs[j].talker != t
  }

  lemma {:induction false} FirstOfTalker(convs: seq<Conversation>, t: string, i: nat)
    requires ListedFirst(convs, t, i)
    ensures ConvsOf(convs, t) != [] && ConvsOf(convs, t)[0] == convs[i]
  {
    if i > 0 {
      assert ListedFirst(convs[1..], t, i - 1);
      FirstOfTalker(convs[1..], t, i - 1);
    }
  }

  lemma MediaOnly(dst: Snapshot, ch: Chunk)
    requires ch.talker == "" && ch.conversations == [] && ch.messages == []
    ensures Merged(dst, ch) == dst.(media := dst.media + ch.media, blobs := dst.blobs + ch.blobs)
  {
    assert dst.messages + [] == dst.messages;
    assert AddConversations(dst.conversations, []) == dst.conversations;
  }

  lemma MergedAllSnoc(dst: Snapshot, cs: seq<Chunk>, ch: Chunk)
    ensures MergedAll(dst, cs + [ch]) == Merged(MergedAll(dst, cs), ch)
  {
    assert (cs + [ch])[..|cs|] == cs;
  }

  /** The filtered chunks are the talkers' filtered chunks, followed by chunks that carry media only. */
  lemma FilteredChunks(snap: Snapshot, mode: Mode, cursors: map<string, CursorRow>) returns (front: seq<Chunk>, media: seq<Chunk>)
    requires "" !in cursors
    ensures Filtered(ChunksOf(snap), mode, cursors) == front + media
    ensures front == Filtered(TalkerChunks(snap, SortedStrings(SourceTalkers(snap))), mode, cursors)
    ensures |media| <= 1
    ensures media == [] ==> snap.media == [] && snap.blobs == map[]
    ensures media != [] ==> && media[0].talker == "" && media[0].conversations == [] && media[0].messages == []
                            && media[0].media == snap.media && media[0].blobs == snap.blobs
  {
    var talkers := TalkerChunks(snap, SortedStrings(SourceTalkers(snap)));
    front := Filtered(talkers, mode, cursors);
    media := MediaTail(snap);
    hide ChunksOf, TalkerChunks, SortedStrings, SourceTalkers;
    if !mode.Full? && cursors != map[] {
      FilterConcat(talkers, media, cursors);
      if media != [] {
        assert media == [media[0]] && media[..0] == [];
        assert FilterEach(media, cursors) == FilterEach([], cursors) + FilterOne(media[0], cursors);
      }
    }
  }

  lemma MediaTail(snap: Snapshot) returns (media: seq<Chunk>)
    ensures ChunksOf(snap) == TalkerChunks(snap, SortedStrings(SourceTalkers(snap))) + media
    ensures |media| <= 1
    ensures media == [] ==> snap.media == [] && snap.blobs == map[]
    ensures media != [] ==> && media[0].talker == "" && media[0].conversations == [] && media[0].messages == []
                            && media[0].media == snap.media && media[0].blobs == snap.blobs
  {
    var talkers := TalkerChunks(snap, SortedStrings(SourceTalkers(snap)));
    hide TalkerChunks, SortedStrings, SourceTalkers, TotalSize;
    var all := talkers + MediaChunks(snap);
    if all == [] {
      media := [Chunk("", [], [], [], map[], 1)];
      assert talkers == [] && talkers + media == media;
    } else {
      media := MediaChunks(snap);
    }
  }

  lemma NobodyBlank(snap: Snapshot)
    ensures var talkers := SortedStrings(SourceTalkers(snap));
            Ascending(talkers, StrLess) && "" !in talkers && forall t :: t in talkers <==> t in SourceTalkers(snap)
  {
    hide StrLess;
  }

  lemma FrontTalker(snap: Snapshot, mode: Mode, cursors: map<string, CursorRow>, t: string)
    requires "" !in cursors
    ensures var front := Filtered(TalkerChunks(snap, SortedStrings(SourceTalkers(snap))), mode, cursors);
            && PerTalker(front)
            && match Find(front, t)
               case None => t == "" || Dropped(snap, mode, cursors, t) || t !in SourceTalkers(snap)
               case Some(ch) => t in SourceTalkers(snap) && !Dropped(snap, mode, cursors, t)
                                && ch == ChunkOf(snap, t).(messages := KeptMessages(snap, mode, cursors, t))
  {
    var talkers := SortedStrings(SourceTalkers(snap));
    var cut := TalkerChunks(snap, talkers);
    NobodyBlank(snap);
    hide StrLess, Ascending, Lists, SortedStrings, SourceTalkers, TalkerChunks, PerTalker, Find, OfTalker, ConvsOf;
    CutTalker(snap, talkers, t);
    if !mode.Full? && cursors != map[] {
      FilterTalker(cut, cursors, t);
    }
  }

  lemma SourceTalker(snap: Snapshot, t: string)
    requires t != ""
    ensures t in SourceTalkers(snap) <==> ConvsOf(snap.conversations, t) != [] || OfTalker(snap.messages, t) != []
  {
    ConvMembers(snap.conversations, t);
    OfTalkerMembers(snap.messages, t);
    if OfTalker(snap.messages, t) != [] {
      assert OfTalker(snap.messages, t)[0] in OfTalker(snap.messages, t);
    }
  }

  /** Everything a job receives about one talker. */
  lemma DeliveredTalker(snap: Snapshot, account: string, wxid: string, mode: Mode, cursors: map<string, CursorRow>, t: string)
    requires "" !in cursors
    ensures var d := Delivered(snap, account, wxid, mode, cursors);
            && d.account == account && d.wxid == wxid && d.media == snap.media && d.blobs == snap.blobs
            && (t == "" ==> OfTalker(d.messages, t) == [] && ConvsOf(d.conversations, t) == [])
            && (t != "" ==>
                  && OfTalker(d.messages, t) == KeptMessages(snap, mode, cursors, t)
                  && ConvsOf(d.conversations, t) == if Dropped(snap, mode, cursors, t) then [] else KeptConversations(snap, account, t))
  {
    var start := Snapshot(account, wxid, [], [], [], map[]);
    var front, media := FilteredChunks(snap, mode, cursors);
    FrontTalker(snap, mode, cursors, t);
    MergedTalker(start, front, t);
    if t != "" { SourceTalker(snap, t); }
    NothingPast(snap, mode, cursors, t);
    BlankHasNoChunk(snap, mode, cursors);
    hide ChunksOf, Filtered, TalkerChunks, SortedStrings, SourceTalkers, PerTalker, Find, Past, OfTalker, ConvsOf,
      KeptMessages, MergedAll;
    MergedWithMedia(start, front, media, snap);
  }

  lemma MergedWithMedia(start: Snapshot, front: seq<Chunk>, media: seq<Chunk>, snap: Snapshot)
    requires start.media == [] && start.blobs == map[]
    requires MergedAll(start, front).media == [] && MergedAll(start, front).blobs == map[]
    requires |media| <= 1
    requires media == [] ==> snap.media == [] && snap.blobs == map[]
    requires media != [] ==> && media[0].talker == "" && media[0].conversations == [] && media[0].messages == []
                             && media[0].media == snap.media && media[0].blobs == snap.blobs
    ensures MergedAll(start, front + media) == MergedAll(start, front).(media := snap.media, blobs := snap.blobs)
  {
    hide MergedAll, Merged;
    if media == [] {
      assert front + media == front;
    } else {
      assert media == [media[0]];
      MergedAllSnoc(start, front, media[0]);
      MediaOnly(MergedAll(start, front), media[0]);
      assert [] + snap.media == snap.media && map[] + snap.blobs == snap.blobs;
    }
  }

  lemma NothingPast(snap: Snapshot, mode: Mode, cursors: map<string, CursorRow>, t: string)
    ensures OfTalker(snap.messages, t) == [] ==> KeptMessages(snap, mode, cursors, t) == []
  {
  }

  lemma BlankHasNoChunk(snap: Snapshot, mode: Mode, cursors: map<string, CursorRow>)
    requires "" !in cursors
    ensures "" !in SourceTalkers(snap)
  {
  }

  // ---- Conservation -----------------------------------------------------------------------------

  lemma {:induction false} CountByTalker(msgs: seq<Message>, m: Message)
    ensures multiset(msgs)[m] == multiset(OfTalker(msgs, m.talker))[m]
  {
    if msgs != [] {
      CountByTalker(msgs[1..], m);
      assert msgs == [msgs[0]] + msgs[1..];
    }
  }

  /** A full delivery holds every message of the source that names a talker, as often as the source does
      and in each talker's own order, one conversation per talker, and all media; nothing else. */
  lemma FullDeliveryConserves(snap: Snapshot, account: string, wxid: string, cursors: map<string, CursorRow>)
    requires "" !in cursors
    ensures var d := Delivered(snap, account, wxid, Full, cursors);
            && (forall m :: multiset(d.messages)[m] == if m.talker == "" then 0 else multiset(snap.messages)[m])
            && (forall t :: t != "" ==> OfTalker(d.messages, t) == OfTalker(snap.messages, t))
            && (forall t :: |ConvsOf(d.conversations, t)| == if t in SourceTalkers(snap) then 1 else 0)
            && d.media == snap.media && d.blobs == snap.blobs
  {
    var d := Delivered(snap, account, wxid, Full, cursors);
    hide Delivered, ChunkOf;
    forall t ensures t != "" ==> OfTalker(d.messages, t) == OfTalker(snap.messages, t) {
      DeliveredTalker(snap, account, wxid, Full, cursors, t);
    }
    forall t ensures |ConvsOf(d.conversations, t)| == if t in SourceTalkers(snap) then 1 else 0 {
      OneConversation(snap, account, wxid, cursors, t);
    }
    forall m ensures multiset(d.messages)[m] == if m.talker == "" then 0 else multiset(snap.messages)[m] {
      DeliveredTalker(snap, account, wxid, Full, cursors, m.talker);
      CountByTalker(d.messages, m);
      CountByTalker(snap.messages, m);
    }
    DeliveredTalker(snap, account, wxid, Full, cursors, "");
  }

  lemma OneConversation(snap: Snapshot, account: string, wxid: string, cursors: map<string, CursorRow>, t: string)
    requires "" !in cursors
    ensures |ConvsOf(Delivered(snap, account, wxid, Full, cursors).conversations, t)| == if t in SourceTalkers(snap) then 1 else 0
  {
    hide Delivered;
    DeliveredTalker(snap, account, wxid, Full, cursors, t);
    if t != "" { SourceTalker(snap, t); } else { BlankHasNoChunk(snap, Full, cursors); }
  }

  // ---- Reported bytes ---------------------------------------------------------------------------

  function SumBytes(cs: seq<Chunk>): int {
    if cs == [] then 0 else SumBytes(cs[..|cs| - 1]) + cs[|cs| - 1].bytes
  }

  /** The lengths of all texts together. */
  function TextLength(msgs: seq<Message>): nat {
    if msgs == [] then 0 else |msgs[0].text| + TextLength(msgs[1..])
  }

  /** How many messages have no text. */
  function Textless(msgs: seq<Message>): nat {
    if msgs == [] then 0 else (if msgs[0].text == "" then 1 else 0) + Textless(msgs[1..])
  }

  lemma {:induction false} TextSnoc(msgs: seq<Message>, m: Message)
    ensures TextLength(msgs + [m]) == TextLength(msgs) + |m.text|
    ensures Textless(msgs + [m]) == Textless(msgs) + if m.text == "" then 1 else 0
  {
    if msgs == [] {
      assert [] + [m] == [m];
    } else {
      assert (msgs + [m])[0] == msgs[0] && (msgs + [m])[1..] == msgs[1..] + [m];
      TextSnoc(msgs[1..], m);
    }
  }

  /** The bytes of messages are the lengths of their texts, and one for each that has no text. */
  lemma {:induction false} BytesAreTexts(msgs: seq<Message>)
    ensures BytesOf(msgs) == TextLength(msgs) + Textless(msgs)
    decreases |msgs|
  {
    if msgs != [] {
      var front, m := msgs[..|msgs| - 1], msgs[|msgs| - 1];
      BytesAreTexts(front);
      TextSnoc(front, m);
      assert msgs == front + [m];
    }
  }

  /** The messages that name one of these talkers. */
  function Attributed(msgs: seq<Message>, talkers: seq<string>): seq<Message> {
    if msgs == [] then []
    else Attributed(msgs[..|msgs| - 1], talkers) + if msgs[|msgs| - 1].talker in talkers then [msgs[|msgs| - 1]] else []
  }

  /** How many of these talkers have no message. */
  function Silent(msgs: seq<Message>, talkers: seq<string>): nat {
    if talkers == [] then 0
    else Silent(msgs, talkers[..|talkers| - 1]) + if OfTalker(msgs, talkers[|talkers| - 1]) == [] then 1 else 0
  }

  lemma {:induction false} BytesConcat(a: seq<Message>, b: seq<Message>)
    ensures BytesOf(a + b) == BytesOf(a) + BytesOf(b)
    decreases |b|
  {
    if b == [] {
      assert a + b == a;
    } else {
      var n := |b| - 1;
      assert (a + b)[..|a| + n] == a + b[..n] && (a + b)[|a| + n] == b[n];
      BytesConcat(a, b[..n]);
    }
  }

  lemma {:induction false} NoTalkersNoBytes(msgs: seq<Message>)
    ensures Attributed(msgs, []) == []
  {
    if msgs != [] { NoTalkersNoBytes(msgs[..|msgs| - 1]); }
  }

  lemma {:induction false} OneMoreTalker(msgs: seq<Message>, front: seq<string>, u: string)
    requires u !in front
    ensures BytesOf(Attributed(msgs, front + [u])) == BytesOf(Attributed(msgs, front)) + BytesOf(OfTalker(msgs, u))
  {
    hide OfTalker, Attributed, BytesOf, TextBytes;
    if msgs == [] {
      NoMessagesNoBytes(front, u);
    } else {
      var n := |msgs| - 1;
      var rest, m := msgs[..n], msgs[n];
      OneMoreTalker(rest, front, u);
      AttributedBytes(rest, m, front);
      AttributedBytes(rest, m, front + [u]);
      TalkerBytesSnoc(rest, m, u);
      assert msgs == rest + [m];
    }
  }

  lemma NoMessagesNoBytes(front: seq<string>, u: string)
    ensures Attributed([], front) == [] && Attributed([], front + [u]) == [] && OfTalker([], u) == [] && BytesOf([]) == 0
  {
  }

  lemma TalkerBytesSnoc(msgs: seq<Message>, m: Message, u: string)
    ensures BytesOf(OfTalker(msgs + [m], u)) == BytesOf(OfTalker(msgs, u)) + if m.talker == u then TextBytes(m) else 0
  {
    OfTalkerSnoc(msgs, m, u);
    hide OfTalker;
    BytesSnoc(OfTalker(msgs, u), m);
  }

  lemma AttributedBytes(msgs: seq<Message>, m: Message, talkers: seq<string>)
    ensures BytesOf(Attributed(msgs + [m], talkers))
         == BytesOf(Attributed(msgs, talkers)) + if m.talker in talkers then TextBytes(m) else 0
  {
    assert (msgs + [m])[..|msgs|] == msgs;
    BytesSnoc(Attributed(msgs, talkers), m);
    assert Attributed(msgs, talkers) + [] == Attributed(msgs, talkers);
  }

  lemma MessagesHaveBytes(msgs: seq<Message>)
    ensures BytesOf(msgs) == 0 <==> msgs == []
  {
  }

  /** The bytes reported for the talkers' chunks are those of the messages attributed to them, and one for
      each talker without messages. */
  lemma {:induction false} TalkerBytes(snap: Snapshot, talkers: seq<string>)
    requires Ascending(talkers, StrLess)
    ensures SumBytes(TalkerChunks(snap, talkers)) == BytesOf(Attributed(snap.messages, talkers)) + Silent(snap.messages, talkers)
    decreases |talkers|
  {
    hide *;
    if talkers == [] {
      NothingToSum(snap);
    } else {
      var front, u := SplitLast(talkers);
      TalkerBytes(snap, front);
      OneMoreTalker(snap.messages, front, u);
      TalkerChunksSnoc(snap, talkers, |front|);
      BytesOfChunk(snap, u);
      assert talkers[..|front|] == front && talkers[|front|] == u;
      SumBytesSnoc(TalkerChunks(snap, front), ChunkOf(snap, u));
      SilentSnoc(snap.messages, front, u);
    }
  }

  lemma NothingToSum(snap: Snapshot)
    ensures SumBytes(TalkerChunks(snap, [])) == BytesOf(Attributed(snap.messages, [])) + Silent(snap.messages, [])
  {
    NoTalkersNoBytes(snap.messages);
  }

  lemma BytesOfChunk(snap: Snapshot, u: string)
    ensures ChunkOf(snap, u).bytes == BytesOf(OfTalker(snap.messages, u)) + if OfTalker(snap.messages, u) == [] then 1 else 0
  {
    MessagesHaveBytes(OfTalker(snap.messages, u));
    hide OfTalker, BytesOf;
  }

  lemma SumBytesSnoc(cs: seq<Chunk>, ch: Chunk)
    ensures SumBytes(cs + [ch]) == SumBytes(cs) + ch.bytes
  {
    assert (cs + [ch])[..|cs|] == cs;
  }

  lemma SilentSnoc(msgs: seq<Message>, front: seq<string>, u: string)
    ensures Silent(msgs, front + [u]) == Silent(msgs, front) + if OfTalker(msgs, u) == [] then 1 else 0
  {
    assert (front + [u])[..|front|] == front;
  }

  lemma {:induction false} SumBytesConcat(a: seq<Chunk>, b: seq<Chunk>)
    ensures SumBytes(a + b) == SumBytes(a) + SumBytes(b)
    decreases |b|
  {
    if b == [] {
      assert a + b == a;
    } else {
      var front, ch := b[..|b| - 1], b[|b| - 1];
      SumBytesConcat(a, front);
      assert a + b == (a + front) + [ch] && b == front + [ch];
      SumBytesSnoc(a + front, ch);
    }
  }

  /** The messages that name a talker at all. */
  function Addressed(msgs: seq<Message>): seq<Message> {
    if msgs == [] then []
    else Addressed(msgs[..|msgs| - 1]) + if msgs[|msgs| - 1].talker != "" then [msgs[|msgs| - 1]] else []
  }

  lemma {:induction false} AttributedToAll(msgs: seq<Message>, talkers: seq<string>)
    requires forall m :: m in msgs ==> (m.talker in talkers <==> m.talker != "")
    ensures Attributed(msgs, talkers) == Addressed(msgs)
  {
    if msgs != [] {
      assert msgs[|msgs| - 1] in msgs;
      AttributedToAll(msgs[..|msgs| - 1], talkers);
    }
  }

  /** Those of the talkers that have no message. */
  function Wordless(msgs: seq<Message>, talkers: set<string>): set<string> {
    set t | t in talkers && OfTalker(msgs, t) == []
  }

  function Elements(talkers: seq<string>): set<string> {
    set t | t in talkers
  }

  lemma {:induction false} SilentCounts(msgs: seq<Message>, talkers: seq<string>)
    requires Ascending(talkers, StrLess)
    ensures Silent(msgs, talkers) == |Wordless(msgs, Elements(talkers))|
    decreases |talkers|
  {
    if talkers != [] {
      var front, u := SplitLast(talkers);
      SilentCounts(msgs, front);
      hide *;
      SilentSnoc(msgs, front, u);
      WordlessSnoc(msgs, front, u);
    }
  }

  lemma WordlessSnoc(msgs: seq<Message>, front: seq<string>, u: string)
    requires u !in front
    ensures |Wordless(msgs, Elements(front + [u]))| == |Wordless(msgs, Elements(front))| + if OfTalker(msgs, u) == [] then 1 else 0
  {
    hide OfTalker;
    var few := Wordless(msgs, Elements(front));
    assert Wordless(msgs, Elements(front + [u])) == few + if OfTalker(msgs, u) == [] then {u} else {};
    assert u !in few;
  }

  ghost function MediaBytes(snap: Snapshot): int {
    if snap.media == [] && snap.blobs == map[] then 0
    else if TotalSize(snap.blobs) == 0 then 1
    else TotalSize(snap.blobs)
  }

  /** The bytes reported for all chunks: the texts of every message that names a talker, one for each such
      message without text, one for each talker with a conversation and no message, at least one for the media,
      and one if there is nothing at all. */
  lemma AllBytes(snap: Snapshot)
    ensures SumBytes(ChunksOf(snap))
         == TextLength(Addressed(snap.messages)) + Textless(Addressed(snap.messages))
            + |Wordless(snap.messages, SourceTalkers(snap))| + MediaBytes(snap)
            + if SourceTalkers(snap) == {} && snap.media == [] && snap.blobs == map[] then 1 else 0
  {
    BytesAreTexts(Addressed(snap.messages));
    var talkers := SortedStrings(SourceTalkers(snap));
    SourceList(snap);
    SourceMessages(snap);
    ChunkBytes(snap, talkers);
    hide *;
    AttributedToAll(snap.messages, talkers);
    SilentCounts(snap.messages, talkers);
    TalkerBytes(snap, talkers);
  }

  lemma SourceList(snap: Snapshot)
    ensures var talkers := SortedStrings(SourceTalkers(snap));
            && Ascending(talkers, StrLess) && Elements(talkers) == SourceTalkers(snap)
            && (talkers == [] <==> SourceTalkers(snap) == {})
  {
    hide SourceTalkers, StrLess;
  }

  lemma ChunkBytes(snap: Snapshot, talkers: seq<string>)
    requires talkers == SortedStrings(SourceTalkers(snap))
    ensures SumBytes(ChunksOf(snap))
         == SumBytes(TalkerChunks(snap, talkers)) + MediaBytes(snap)
            + if talkers == [] && snap.media == [] && snap.blobs == map[] then 1 else 0
  {
    var cut, media := TalkerChunks(snap, talkers), MediaChunks(snap);
    assert |cut| == |talkers|;
    MediaChunkBytes(snap);
    SumBytesConcat(cut, media);
    OneChunkBytes([Chunk("", [], [], [], map[], 1)]);
    hide SourceTalkers, SortedStrings, TalkerChunks, MediaChunks, MediaBytes, SumBytes;
  }

  lemma MediaChunkBytes(snap: Snapshot)
    ensures SumBytes(MediaChunks(snap)) == MediaBytes(snap)
    ensures MediaChunks(snap) == [] <==> snap.media == [] && snap.blobs == map[]
  {
    hide TotalSize;
    OneChunkBytes(MediaChunks(snap));
  }

  lemma OneChunkBytes(cs: seq<Chunk>)
    requires |cs| <= 1
    ensures SumBytes(cs) == if cs == [] then 0 else cs[0].bytes
  {
    if cs != [] { assert cs[..0] == []; }
  }

  lemma SourceMessages(snap: Snapshot)
    ensures forall m :: m in snap.messages ==> (m.talker in SortedStrings(SourceTalkers(snap)) <==> m.talker != "")
  {
    var all := SourceTalkers(snap);
    assert "" !in all && forall m :: m in snap.messages && m.talker != "" ==> m.talker in all;
    hide SourceTalkers;
  }
}
