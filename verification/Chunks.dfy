/** A device's snapshot cut into one chunk per talker, filtered by cursors, and merged again. */
module Chunks {
  import opened Domain
  import opened Order
  import opened Store
  import opened Ingest

  datatype Chunk = Chunk(
    talker: string, conversations: seq<Conversation>, messages: seq<Message>,
    media: seq<MediaObject>, blobs: map<string, seq<byte>>, bytes: int)

  // ---- Sizes ------------------------------------------------------------------------------------

  function BytesOf(msgs: seq<Message>): nat {
    if msgs == [] then 0 else BytesOf(msgs[..|msgs| - 1]) + TextBytes(msgs[|msgs| - 1])
  }

  /** A message without text still counts for one byte. */
  function TextBytes(m: Message): nat {
    if m.text != "" then |m.text| else 1
  }

  function AtLeastOne(n: int): int {
    if n == 0 then 1 else n
  }

  /** The summed sizes of a map of blobs, whatever the order of summation. */
  ghost function TotalSize(blobs: map<string, seq<byte>>): nat
    decreases |blobs|
  {
    if blobs == map[] then 0
    else
      var k :| k in blobs;
      |blobs[k]| + TotalSize(blobs - {k})
  }

  lemma {:induction false} TotalSizeSplit(blobs: map<string, seq<byte>>, k: string)
    requires k in blobs
    ensures TotalSize(blobs) == |blobs[k]| + TotalSize(blobs - {k})
    decreases |blobs|
  {
    var first :| first in blobs && TotalSize(blobs) == |blobs[first]| + TotalSize(blobs - {first});
    if first != k {
      TotalSizeSplit(blobs - {first}, k);
      TotalSizeSplit(blobs - {k}, first);
      assert blobs - {first} - {k} == blobs - {k} - {first};
    }
  }

  // ---- Cutting ----------------------------------------------------------------------------------

  function SourceTalkers(snap: Snapshot): set<string> {
    (set c | c in snap.conversations && c.talker != "" :: c.talker)
    + (set m | m in snap.messages && m.talker != "" :: m.talker)
  }

  function ChunkOf(snap: Snapshot, talker: string): Chunk {
    var msgs := OfTalker(snap.messages, talker);
    Chunk(talker, ConvsOf(snap.conversations, talker), msgs, [], map[], AtLeastOne(BytesOf(msgs)))
  }

  function TalkerChunks(snap: Snapshot, talkers: seq<string>): (r: seq<Chunk>)
    ensures |r| == |talkers| && forall i :: 0 <= i < |r| ==> r[i] == ChunkOf(snap, talkers[i])
  {
    seq(|talkers|, i requires 0 <= i < |talkers| => ChunkOf(snap, talkers[i]))
  }

  ghost function MediaChunks(snap: Snapshot): seq<Chunk> {
    if snap.media == [] && snap.blobs == map[] then []
    else [Chunk("", [], [], snap.media, snap.blobs, AtLeastOne(TotalSize(snap.blobs)))]
  }

  /** One chunk per talker in ascending order, then one for the media; never an empty list. */
  ghost function ChunksOf(snap: Snapshot): seq<Chunk> {
    var all := TalkerChunks(snap, SortedStrings(SourceTalkers(snap))) + MediaChunks(snap);
    if all == [] then [Chunk("", [], [], [], map[], 1)] else all
  }

  ghost predicate Gathered(acc: map<string, Chunk>, convs: seq<Conversation>, msgs: seq<Message>) {
    && (forall t :: t in acc <==> t != "" && (ConvsOf(convs, t) != [] || OfTalker(msgs, t) != []))
    && forall t :: t in acc ==>
         acc[t] == Chunk(t, ConvsOf(convs, t), OfTalker(msgs, t), [], map[], BytesOf(OfTalker(msgs, t)))
  }

  function Entry(acc: map<string, Chunk>, talker: string): Chunk {
    if talker in acc then acc[talker] else Chunk(talker, [], [], [], map[], 0)
  }

  lemma EntryIs(acc: map<string, Chunk>, convs: seq<Conversation>, msgs: seq<Message>, t: string)
    requires Gathered(acc, convs, msgs) && t != ""
    ensures Entry(acc, t) == Chunk(t, ConvsOf(convs, t), OfTalker(msgs, t), [], map[], BytesOf(OfTalker(msgs, t)))
  {
  }

  lemma GatherConversation(acc: map<string, Chunk>, convs: seq<Conversation>, c: Conversation)
    requires Gathered(acc, convs, [])
    ensures c.talker == "" ==> Gathered(acc, convs + [c], [])
    ensures c.talker != "" ==>
              var e := Entry(acc, c.talker);
              Gathered(acc[c.talker := e.(conversations := e.conversations + [c])], convs + [c], [])
  {
    if c.talker != "" { EntryIs(acc, convs, [], c.talker); }
    hide ConvsOf;
    forall t ensures ConvsOf(convs + [c], t) == if c.talker == t then ConvsOf(convs, t) + [c] else ConvsOf(convs, t) {
      ConvsSnoc(convs, c, t);
    }
  }

  lemma OfTalkerSnoc(msgs: seq<Message>, m: Message, t: string)
    ensures OfTalker(msgs + [m], t) == if m.talker == t then OfTalker(msgs, t) + [m] else OfTalker(msgs, t)
  {
    OfTalkerConcat(msgs, [m], t);
    OfTalkerUniform([m], m.talker, t);
  }

  lemma BytesSnoc(msgs: seq<Message>, m: Message)
    ensures BytesOf(msgs + [m]) == BytesOf(msgs) + TextBytes(m)
  {
    assert (msgs + [m])[..|msgs|] == msgs;
  }

  function WithMessage(acc: map<string, Chunk>, m: Message): map<string, Chunk> {
    var e := Entry(acc, m.talker);
    acc[m.talker := e.(messages := e.messages + [m], bytes := e.bytes + TextBytes(m))]
  }

  lemma GatherMessage(acc: map<string, Chunk>, convs: seq<Conversation>, msgs: seq<Message>, m: Message)
    requires Gathered(acc, convs, msgs)
    ensures m.talker == "" ==> Gathered(acc, convs, msgs + [m])
    ensures m.talker != "" ==> Gathered(WithMessage(acc, m), convs, msgs + [m])
  {
    hide OfTalker, ConvsOf, BytesOf, TextBytes;
    forall t ensures OfTalker(msgs + [m], t) == if m.talker == t then OfTalker(msgs, t) + [m] else OfTalker(msgs, t) {
      OfTalkerSnoc(msgs, m, t);
    }
    if m.talker != "" {
      EntryIs(acc, convs, msgs, m.talker);
      BytesSnoc(OfTalker(msgs, m.talker), m);
      var acc' := WithMessage(acc, m);
      forall t | t in acc'
        ensures acc'[t] == Chunk(t, ConvsOf(convs, t), OfTalker(msgs + [m], t), [], map[], BytesOf(OfTalker(msgs + [m], t)))
      {
      }
    }
  }

  method GatherByTalker(snap: Snapshot) returns (acc: map<string, Chunk>)
    ensures Gathered(acc, snap.conversations, snap.messages)
  {
    hide Gathered;
    acc := map[];
    assert Gathered(acc, [], []) by { NothingGathered(); }
    for i := 0 to |snap.conversations|
      invariant Gathered(acc, snap.conversations[..i], [])
    {
      var c := snap.conversations[i];
      GatherConversation(acc, snap.conversations[..i], c);
      assert snap.conversations[..i + 1] == snap.conversations[..i] + [c];
      if c.talker != "" {
        var a := Entry(acc, c.talker);
        acc := acc[c.talker := a.(conversations := a.conversations + [c])];
      }
    }
    assert snap.conversations[..|snap.conversations|] == snap.conversations;
    assert snap.messages[..0] == [];
    for i := 0 to |snap.messages|
      invariant Gathered(acc, snap.conversations, snap.messages[..i])
    {
      var m := snap.messages[i];
      GatherMessage(acc, snap.conversations, snap.messages[..i], m);
      assert snap.messages[..i + 1] == snap.messages[..i] + [m];
      if m.talker != "" {
        var a := Entry(acc, m.talker);
        a := a.(messages := a.messages + [m], bytes := if m.text != "" then a.bytes + |m.text| else a.bytes + 1);
        acc := acc[m.talker := a];
      }
    }
    assert snap.messages[..|snap.messages|] == snap.messages;
  }

  lemma NothingGathered()
    ensures Gathered(map[], [], [])
  {
  }

  lemma GatheredTalkers(acc: map<string, Chunk>, snap: Snapshot)
    requires Gathered(acc, snap.conversations, snap.messages)
    ensures acc.Keys == SourceTalkers(snap)
  {
    forall t ensures t in acc <==> t in SourceTalkers(snap) {
      ConvMembers(snap.conversations, t);
      OfTalkerMembers(snap.messages, t);
      if OfTalker(snap.messages, t) != [] {
        assert OfTalker(snap.messages, t)[0] in OfTalker(snap.messages, t);
      }
    }
  }

  lemma GatheredEntry(acc: map<string, Chunk>, snap: Snapshot, t: string)
    requires Gathered(acc, snap.conversations, snap.messages) && t in acc
    ensures acc[t].(bytes := AtLeastOne(acc[t].bytes)) == ChunkOf(snap, t)
  {
  }

  lemma TalkerChunksSnoc(snap: Snapshot, talkers: seq<string>, i: nat)
    requires i < |talkers|
    ensures TalkerChunks(snap, talkers[..i + 1]) == TalkerChunks(snap, talkers[..i]) + [ChunkOf(snap, talkers[i])]
  {
    hide ChunkOf;
  }

  method ListTalkerChunks(acc: map<string, Chunk>, ghost snap: Snapshot) returns (out: seq<Chunk>)
    requires Gathered(acc, snap.conversations, snap.messages)
    ensures out == TalkerChunks(snap, SortedStrings(SourceTalkers(snap)))
  {
    GatheredTalkers(acc, snap);
    SortedMembers(acc.Keys);
    hide Gathered, ChunkOf, SourceTalkers, SortedStrings, Lists, TalkerChunks;
    var talkers := SortedStrings(acc.Keys);
    out := [];
    assert TalkerChunks(snap, talkers[..0]) == [];
    for i := 0 to |talkers|
      invariant out == TalkerChunks(snap, talkers[..i])
    {
      GatheredEntry(acc, snap, talkers[i]);
      TalkerChunksSnoc(snap, talkers, i);
      var ch := acc[talkers[i]];
      if ch.bytes == 0 {
        ch := ch.(bytes := 1);
      }
      out := out + [ch];
    }
    assert talkers[..|talkers|] == talkers;
  }

  /** Talkers ascend, and what has no talker stands at the end. */
  ghost predicate InOrder(chunks: seq<Chunk>) {
    && (forall i, j :: 0 <= i < j < |chunks| ==>
          chunks[i].talker != "" && (chunks[j].talker == "" || StrLess(chunks[i].talker, chunks[j].talker)))
    && chunks != []
  }

  lemma ChunksInOrder(snap: Snapshot)
    ensures InOrder(ChunksOf(snap))
  {
    var talkers := SortedStrings(SourceTalkers(snap));
    TalkersListed(snap);
    MediaChunkIs(snap);
    var cut, media := TalkerChunks(snap, talkers), MediaChunks(snap);
    assert forall i :: 0 <= i < |cut| ==> cut[i].talker == talkers[i];
    hide SourceTalkers, SortedStrings, StrLess, TalkerChunks, MediaChunks, ChunkOf, InOrder;
    if cut + media == [] { Alone(Chunk("", [], [], [], map[], 1)); } else { TalkersThenMedia(cut, talkers, media); }
  }

  lemma Alone(ch: Chunk)
    ensures InOrder([ch])
  {
  }

  lemma MediaChunkIs(snap: Snapshot)
    ensures |MediaChunks(snap)| <= 1 && forall ch :: ch in MediaChunks(snap) ==> ch.talker == ""
  {
    hide TotalSize;
  }

  lemma TalkersThenMedia(cut: seq<Chunk>, talkers: seq<string>, media: seq<Chunk>)
    requires |cut| == |talkers| && forall i :: 0 <= i < |cut| ==> cut[i].talker == talkers[i]
    requires forall i :: 0 <= i < |talkers| ==> talkers[i] != ""
    requires forall i, j :: 0 <= i < j < |talkers| ==> StrLess(talkers[i], talkers[j])
    requires |media| <= 1 && (forall ch :: ch in media ==> ch.talker == "") && cut + media != []
    ensures InOrder(cut + media)
  {
    hide StrLess;
    if media != [] { assert media[0].talker == ""; }
  }

  lemma TalkersListed(snap: Snapshot)
    ensures var talkers := SortedStrings(SourceTalkers(snap));
            && (forall i :: 0 <= i < |talkers| ==> talkers[i] != "")
            && (forall i, j :: 0 <= i < j < |talkers| ==> StrLess(talkers[i], talkers[j]))
  {
    var talkers := SortedStrings(SourceTalkers(snap));
    assert "" !in SourceTalkers(snap);
    hide SourceTalkers, SortedStrings, StrLess;
    assert forall i :: 0 <= i < |talkers| ==> talkers[i] in talkers;
  }

  method SnapshotChunks(snap: Snapshot) returns (out: seq<Chunk>)
    ensures out == ChunksOf(snap) && InOrder(out)
  {
    ChunksInOrder(snap);
    hide Gathered, TalkerChunks, SortedStrings, SourceTalkers, TotalSize, InOrder;
    var acc := GatherByTalker(snap);
    out := ListTalkerChunks(acc, snap);
    if |snap.media| > 0 || |snap.blobs| > 0 {
      var bytes := SumSizes(snap.blobs);
      if bytes == 0 {
        bytes := 1;
      }
      out := out + [Chunk("", [], [], snap.media, snap.blobs, bytes)];
    } else {
      assert out + [] == out;
    }
    if |out| == 0 {
      return [Chunk("", [], [], [], map[], 1)];
    }
  }

  method SumSizes(blobs: map<string, seq<byte>>) returns (bytes: int)
    ensures bytes == TotalSize(blobs)
  {
    bytes := 0;
    var todo := blobs;
    while todo != map[]
      invariant forall k :: k in todo ==> k in blobs && todo[k] == blobs[k]
      invariant bytes + TotalSize(todo) == TotalSize(blobs)
      decreases |todo|
    {
      var k :| k in todo;
      TotalSizeSplit(todo, k);
      bytes := bytes + |blobs[k]|;
      todo := todo - {k};
    }
  }

  // ---- Filtering --------------------------------------------------------------------------------

  /** The messages past a cursor. */
  function Past(msgs: seq<Message>, cur: Cursor): seq<Message> {
    if msgs == [] then []
    else (if AtOrBefore(cur, msgs[0]) then [] else [msgs[0]]) + Past(msgs[1..], cur)
  }

  lemma {:induction false} PastSnoc(msgs: seq<Message>, m: Message, cur: Cursor)
    ensures Past(msgs + [m], cur) == Past(msgs, cur) + (if AtOrBefore(cur, m) then [] else [m])
  {
    if msgs == [] {
      assert [] + [m] == [m] && [m][1..] == [];
    } else {
      assert (msgs + [m])[1..] == msgs[1..] + [m] && (msgs + [m])[0] == msgs[0];
      PastSnoc(msgs[1..], m, cur);
    }
  }

  lemma {:induction false} PastMembers(msgs: seq<Message>, cur: Cursor)
    ensures forall m :: m in Past(msgs, cur) <==> m in msgs && !AtOrBefore(cur, m)
  {
    if msgs != [] {
      PastMembers(msgs[1..], cur);
      assert msgs == [msgs[0]] + msgs[1..];
    }
  }

  /** What becomes of one chunk: none if its talker has a cursor and nothing is past it. */
  function FilterOne(ch: Chunk, cursors: map<string, CursorRow>): seq<Chunk> {
    if ch.talker !in cursors then [ch]
    else
      var kept := Past(ch.messages, CursorAt("", ch.talker, cursors[ch.talker]));
      if kept == [] then [] else [ch.(messages := kept)]
  }

  function FilterEach(chunks: seq<Chunk>, cursors: map<string, CursorRow>): seq<Chunk> {
    if chunks == [] then [] else FilterEach(chunks[..|chunks| - 1], cursors) + FilterOne(chunks[|chunks| - 1], cursors)
  }

  function Filtered(chunks: seq<Chunk>, mode: Mode, cursors: map<string, CursorRow>): seq<Chunk> {
    if mode.Full? || cursors == map[] then chunks else FilterEach(chunks, cursors)
  }

  method FilterChunks(chunks: seq<Chunk>, mode: Mode, cursors: map<string, CursorRow>) returns (out: seq<Chunk>)
    ensures out == Filtered(chunks, mode, cursors)
  {
    if mode.Full? || |cursors| == 0 {
      return chunks;
    }
    out := [];
    for i := 0 to |chunks|
      invariant out == FilterEach(chunks[..i], cursors)
    {
      var ch := chunks[i];
      assert chunks[..i + 1][..i] == chunks[..i] && chunks[..i + 1][i] == ch;
      if ch.talker !in cursors {
        out := out + [ch];
        continue;
      }
      var cur := CursorAt("", ch.talker, cursors[ch.talker]);
      var kept := [];
      for j := 0 to |ch.messages|
        invariant kept == Past(ch.messages[..j], cur)
      {
        var m := ch.messages[j];
        PastSnoc(ch.messages[..j], m, cur);
        assert ch.messages[..j + 1] == ch.messages[..j] + [m];
        if !AtOrBefore(cur, m) {
          kept := kept + [m];
        }
      }
      assert ch.messages[..|ch.messages|] == ch.messages;
      if |kept| > 0 {
        out := out + [ch.(messages := kept)];
      }
    }
    assert chunks[..|chunks|] == chunks;
  }

  // ---- Merging ----------------------------------------------------------------------------------

  predicate HasTalker(convs: seq<Conversation>, talker: string) {
    exists c :: c in convs && c.talker == talker
  }

  /** Conversations are added in order; a talker that already has one keeps it. */
  function AddConversations(convs: seq<Conversation>, more: seq<Conversation>): seq<Conversation>
    decreases |more|
  {
    if more == [] then convs
    else
      var before := AddConversations(convs, more[..|more| - 1]);
      var c := more[|more| - 1];
      if HasTalker(before, c.talker) then before else before + [c]
  }

  function MadeUp(account: string, talker: string): Conversation {
    Conversation(account, talker, Friend, talker, "", ZERO_TIME, 0)
  }

  function ListedConversations(dst: Snapshot, c: Chunk): seq<Conversation> {
    if c.talker != "" && c.conversations == [] && c.messages != [] && !HasTalker(dst.conversations, c.talker)
    then [MadeUp(dst.account, c.talker)]
    else c.conversations
  }

  function Merged(dst: Snapshot, c: Chunk): Snapshot {
    dst.(conversations := AddConversations(dst.conversations, ListedConversations(dst, c)),
         messages := dst.messages + c.messages,
         media := dst.media + c.media,
         blobs := dst.blobs + c.blobs)
  }

  function MergedAll(dst: Snapshot, chunks: seq<Chunk>): Snapshot {
    if chunks == [] then dst else Merged(MergedAll(dst, chunks[..|chunks| - 1]), chunks[|chunks| - 1])
  }

  method MergeChunk(dst: Snapshot, c: Chunk) returns (r: Snapshot)
    ensures r == Merged(dst, c)
  {
    r := dst;
    var listed := c.conversations;
    if c.talker != "" && |c.conversations| == 0 && |c.messages| > 0 && !HasTalker(r.conversations, c.talker) {
      listed := [Conversation(r.account, c.talker, Friend, c.talker, "", ZERO_TIME, 0)];
    }
    for i := 0 to |listed|
      invariant r == dst.(conversations := AddConversations(dst.conversations, listed[..i]))
    {
      assert listed[..i + 1][..i] == listed[..i] && listed[..i + 1][i] == listed[i];
      if !HasTalker(r.conversations, listed[i].talker) {
        r := r.(conversations := r.conversations + [listed[i]]);
      }
    }
    assert listed[..|listed|] == listed;
    var blobs := CopyBlobs(r.blobs, c.blobs);
    r := r.(messages := r.messages + c.messages, media := r.media + c.media, blobs := blobs);
  }

  lemma OneMoreBlob(dst: map<string, seq<byte>>, src: map<string, seq<byte>>, todo: set<string>, id: string)
    requires id in todo && todo <= src.Keys
    ensures dst + (src - (todo - {id})) == (dst + (src - todo))[id := src[id]]
  {
    var a, b := dst + (src - (todo - {id})), (dst + (src - todo))[id := src[id]];
    assert a.Keys == b.Keys;
    forall k | k in a ensures a[k] == b[k] {
      assert k in src - (todo - {id}) <==> k == id || k in src - todo;
    }
  }

  lemma NoBlobsYet(dst: map<string, seq<byte>>, src: map<string, seq<byte>>)
    ensures dst + (src - src.Keys) == dst && src - {} == src
  {
    assert src - src.Keys == map[];
  }

  method CopyBlobs(dst: map<string, seq<byte>>, src: map<string, seq<byte>>) returns (r: map<string, seq<byte>>)
    ensures r == dst + src
  {
    r := dst;
    var todo := src.Keys;
    NoBlobsYet(dst, src);
    while todo != {}
      invariant todo <= src.Keys
      invariant r == dst + (src - todo)
      decreases |todo|
    {
      var id :| id in todo;
      OneMoreBlob(dst, src, todo, id);
      r := r[id := src[id]];
      todo := todo - {id};
    }
  }

  /** Everything a device delivers for one job: cut, filtered by the stored cursors, merged. */
  ghost function Delivered(snap: Snapshot, account: string, wxid: string, mode: Mode, cursors: map<string, CursorRow>): Snapshot {
    MergedAll(Snapshot(account, wxid, [], [], [], map[]), Filtered(ChunksOf(snap), mode, cursors))
  }

  method Transfer(snap: Snapshot, account: string, wxid: string, mode: Mode, cursors: map<string, CursorRow>)
    returns (r: Snapshot)
    ensures r == Delivered(snap, account, wxid, mode, cursors)
  {
    hide ChunksOf, Merged, Filtered;
    var cut := SnapshotChunks(snap);
    var chunks := FilterChunks(cut, mode, cursors);
    r := Snapshot(account, wxid, [], [], [], map[]);
    ghost var start := r;
    for i := 0 to |chunks|
      invariant r == MergedAll(start, chunks[..i])
    {
      r := MergeChunk(r, chunks[i]);
      assert chunks[..i + 1][..i] == chunks[..i] && chunks[..i + 1][i] == chunks[i];
    }
    assert chunks[..|chunks|] == chunks;
  }
}
