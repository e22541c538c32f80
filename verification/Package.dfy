/** The backup package: an index database beside TEXT and MEDIA shards, written and read back. */
module Package {
  import opened Domain
  import opened Order
  import opened Frames
  import opened Shards

  const INTERCHANGE_FORMAT := "wxbackup-interchange"
  const TEXT_MAGIC: seq<byte> := [0x57, 0x58, 0x54, 0x31]
  const MEDIA_MAGIC: seq<byte> := [0x57, 0x58, 0x4D, 0x31]
  const DEFAULT_MAX_SHARD := 4 * 1024 * 1024
  const MAX_SEGMENT_BYTES := 64 * 1024 * 1024

  // ---- The package ------------------------------------------------------------------------------

  datatype SessionRow = SessionRow(
    account: string, kind: ConversationKind, displayName: string, avatar: string, lastMs: int, msgCount: int)

  datatype Segment = Segment(talker: string, range: Range, count: int)

  datatype MediaRow = MediaRow(account: string, kind: MediaKind, sha256: string, size: int, available: bool)

  datatype FileSegment = FileSegment(mediaId: string, range: Range)

  datatype Package = Package(
    format: string, account: string, wxid: string,
    sessions: map<string, SessionRow>, segments: seq<Segment>,
    media: map<string, MediaRow>, fileSegments: seq<FileSegment>,
    textFiles: seq<seq<byte>>, mediaFiles: seq<seq<byte>>)

  /** The index under construction, inside one transaction. */
  class IndexTx {
    var sessions: map<string, SessionRow>
    var segments: seq<Segment>
    var media: map<string, MediaRow>
    var fileSegments: seq<FileSegment>

    constructor ()
      ensures sessions == map[] && segments == [] && media == map[] && fileSegments == []
    {
      sessions, segments, media, fileSegments := map[], [], map[], [];
    }
  }

  // ---- Writing text -----------------------------------------------------------------------------

  function RangesOf(segs: seq<Segment>): (r: seq<Range>)
    ensures |r| == |segs| && forall k :: 0 <= k < |segs| ==> r[k] == segs[k].range
  {
    seq(|segs|, k requires 0 <= k < |segs| => segs[k].range)
  }

  function RecordList(msgs: seq<Message>, codec: Codec): (r: seq<seq<byte>>)
    ensures |r| == |msgs| && forall i :: 0 <= i < |msgs| ==> r[i] == Record(msgs[i], codec)
  {
    seq(|msgs|, i requires 0 <= i < |msgs| => Record(msgs[i], codec))
  }

  function RecordParts(parts: seq<seq<Message>>, codec: Codec): (r: seq<seq<seq<byte>>>)
    ensures |r| == |parts| && forall k :: 0 <= k < |parts| ==> r[k] == RecordList(parts[k], codec)
  {
    seq(|parts|, k requires 0 <= k < |parts| => RecordList(parts[k], codec))
  }

  lemma {:induction false} FlatRecords(msgs: seq<Message>, codec: Codec)
    ensures Flat(RecordList(msgs, codec)) == Records(msgs, codec)
  {
    if msgs != [] {
      assert RecordList(msgs, codec)[1..] == RecordList(msgs[1..], codec);
      FlatRecords(msgs[1..], codec);
      assert Payloads(msgs, codec)[1..] == Payloads(msgs[1..], codec);
    }
  }

  ghost predicate Labelled(seg: Segment, part: seq<Message>) {
    seg.count == |part| && forall m :: m in part ==> m.talker == seg.talker
  }

  /** The segment table indexes the shards, segment k holding exactly the messages of part k. */
  ghost predicate Written(files: seq<seq<byte>>, segs: seq<Segment>, parts: seq<seq<Message>>, codec: Codec, max: int) {
    && |parts| == |segs|
    && Indexed(files, RangesOf(segs), RecordParts(parts, codec), max)
    && forall k :: 0 <= k < |segs| ==> Labelled(segs[k], parts[k])
  }

  function TotalCount(segs: seq<Segment>): int {
    if segs == [] then 0 else segs[0].count + TotalCount(segs[1..])
  }

  function TotalLength(segs: seq<Segment>): int {
    if segs == [] then 0 else segs[0].range.length + TotalLength(segs[1..])
  }

  lemma {:induction false} TotalsOf(segs: seq<Segment>, parts: seq<seq<Message>>, codec: Codec)
    requires |segs| == |parts|
    requires forall k :: 0 <= k < |segs| ==> segs[k].count == |parts[k]| && segs[k].range.length == |Records(parts[k], codec)|
    ensures TotalCount(segs) == |Flat(parts)| && TotalLength(segs) == |Records(Flat(parts), codec)|
  {
    hide Records;
    if segs == [] {
      NoRecords(codec);
    } else {
      TotalsOf(segs[1..], parts[1..], codec);
      RecordsConcat(parts[0], Flat(parts[1..]), codec);
    }
  }

  lemma NoRecords(codec: Codec)
    ensures Records([], codec) == []
  {
  }

  /** The counts and lengths of the segment table sum to the messages and bytes that were written. */
  lemma SegmentTotals(files: seq<seq<byte>>, segs: seq<Segment>, parts: seq<seq<Message>>, codec: Codec, max: int)
    requires Written(files, segs, parts, codec, max)
    ensures TotalCount(segs) == |Flat(parts)| && TotalLength(segs) == |Records(Flat(parts), codec)|
  {
    var rs, recs := RangesOf(segs), RecordParts(parts, codec);
    forall k | 0 <= k < |segs| ensures segs[k].count == |parts[k]| && segs[k].range.length == |Records(parts[k], codec)| {
      assert Labelled(segs[k], parts[k]) && Holds(files, rs[k], recs[k], max);
      FlatRecords(parts[k], codec);
    }
    TotalsOf(segs, parts, codec);
  }

  predicate MessageWritable(m: Message) {
    m.talker != "" && m.id != ""
  }

  lemma WrittenStarts(files: seq<seq<byte>>, segs: seq<Segment>, parts: seq<seq<Message>>, codec: Codec, max: int,
                      magic: seq<byte>, m: Message)
    requires Written(files, segs, parts, codec, max) && |magic| == MAGIC_LENGTH
    ensures var rec := Record(m, codec);
            var after := Appended(files, rec, max, magic);
            && |rec| <= |after[|after| - 1]|
            && Written(after, segs + [Segment(m.talker, PlaceOf(after, |rec|), 1)], parts + [[m]], codec, max)
  {
    var rec := Record(m, codec);
    AppendStartsRange(files, RangesOf(segs), RecordParts(parts, codec), rec, max, magic);
    var after := Appended(files, rec, max, magic);
    var segs' := segs + [Segment(m.talker, PlaceOf(after, |rec|), 1)];
    assert RangesOf(segs') == RangesOf(segs) + [PlaceOf(after, |rec|)];
    assert RecordList([m], codec) == [rec];
    assert RecordParts(parts + [[m]], codec) == RecordParts(parts, codec) + [[rec]];
    forall k | 0 <= k < |segs'| ensures Labelled(segs'[k], (parts + [[m]])[k]) {
      if k < |segs| { assert Labelled(segs[k], parts[k]); }
    }
  }

  lemma WrittenGrows(files: seq<seq<byte>>, segs: seq<Segment>, last: Segment, parts: seq<seq<Message>>,
                     part: seq<Message>, codec: Codec, max: int, magic: seq<byte>, m: Message)
    requires Written(files, segs + [last], parts + [part], codec, max) && |magic| == MAGIC_LENGTH
    requires m.talker == last.talker && |parts| == |segs|
    requires !NeedsRotation(files, |Record(m, codec)|, max)
    ensures var rec := Record(m, codec);
            Written(Appended(files, rec, max, magic),
                    segs + [Segment(last.talker, Grown(last.range, |rec|), last.count + 1)],
                    parts + [part + [m]], codec, max)
  {
    var rec := Record(m, codec);
    var before, recs := RangesOf(segs + [last]), RecordParts(parts + [part], codec);
    AppendGrowsRange(files, before, recs, rec, max, magic);
    var grown := Segment(last.talker, Grown(last.range, |rec|), last.count + 1);
    var segs', parts' := segs + [grown], parts + [part + [m]];
    assert RangesOf(segs') == before[..|segs|] + [grown.range];
    assert RecordList(part + [m], codec) == RecordList(part, codec) + [rec];
    assert RecordParts(parts', codec) == recs[..|segs|] + [recs[|segs|] + [rec]];
    assert Labelled((segs + [last])[|segs|], (parts + [part])[|segs|]);
    forall k | 0 <= k < |segs'| ensures Labelled(segs'[k], parts'[k]) {
      if k < |segs| { assert Labelled((segs + [last])[k], (parts + [part])[k]); }
    }
  }

  /** A segment under construction: `part` is what it counts so far, empty before the first message. */
  ghost predicate Pending(files: seq<seq<byte>>, segs: seq<Segment>, open: Segment, parts: seq<seq<Message>>,
                          part: seq<Message>, codec: Codec, max: int) {
    if part == [] then
      Written(files, segs, parts, codec, max)
    else
      && |parts| == |segs|
      && Written(files, segs + [open], parts + [part], codec, max)
  }

  /** Where the open shard ends, the open segment ends too. */
  lemma PendingEnds(files: seq<seq<byte>>, segs: seq<Segment>, open: Segment, parts: seq<seq<Message>>,
                    part: seq<Message>, codec: Codec, max: int)
    requires Pending(files, segs, open, parts, part, codec, max)
    ensures files != []
    ensures part != [] ==>
              && open.range.file == |files| - 1 && open.range.offset + open.range.length == |files[|files| - 1]|
              && open.count == |part| && forall m :: m in part ==> m.talker == open.talker
  {
    if part != [] {
      var rs := RangesOf(segs + [open]);
      assert rs[|rs| - 1] == open.range;
      assert Labelled((segs + [open])[|segs|], (parts + [part])[|segs|]);
    }
  }

  /** Closing the open segment keeps the index. */
  lemma PendingFlushed(files: seq<seq<byte>>, segs: seq<Segment>, open: Segment, parts: seq<seq<Message>>,
                       part: seq<Message>, codec: Codec, max: int)
    requires Pending(files, segs, open, parts, part, codec, max) && part != []
    ensures Written(files, segs + [open], parts + [part], codec, max)
    ensures Flat(parts + [part]) == Flat(parts) + part
  {
    FlatConcat(parts, [part]);
    FlatOne(part);
  }

  lemma PendingStarts(files: seq<seq<byte>>, segs: seq<Segment>, parts: seq<seq<Message>>, codec: Codec, max: int,
                      magic: seq<byte>, m: Message, place: Range)
    requires Written(files, segs, parts, codec, max) && |magic| == MAGIC_LENGTH
    requires var after := Appended(files, Record(m, codec), max, magic);
             |Record(m, codec)| <= |after[|after| - 1]| && place == PlaceOf(after, |Record(m, codec)|)
    ensures Pending(Appended(files, Record(m, codec), max, magic), segs, Segment(m.talker, place, 1), parts, [m], codec, max)
  {
    WrittenStarts(files, segs, parts, codec, max, magic, m);
  }

  lemma PendingGrows(files: seq<seq<byte>>, segs: seq<Segment>, open: Segment, parts: seq<seq<Message>>,
                     part: seq<Message>, codec: Codec, max: int, magic: seq<byte>, m: Message)
    requires Pending(files, segs, open, parts, part, codec, max) && part != [] && |magic| == MAGIC_LENGTH
    requires files != [] && !NeedsRotation(files, |Record(m, codec)|, max) && m.talker == open.talker
    ensures var n := |Record(m, codec)|;
            Pending(Appended(files, Record(m, codec), max, magic), segs,
                    Segment(open.talker, Range(open.range.file, open.range.offset, open.range.length + n), open.count + 1),
                    parts, part + [m], codec, max)
  {
    WrittenGrows(files, segs, open, parts, part, codec, max, magic, m);
  }

  lemma NothingPending(files: seq<seq<byte>>, segs: seq<Segment>, open: Segment, parts: seq<seq<Message>>, codec: Codec, max: int)
    ensures Pending(files, segs, open, parts, [], codec, max) <==> Written(files, segs, parts, codec, max)
  {
  }

  lemma WritableIff(m: Message)
    ensures MessageWritable(m) <==> m.talker != "" && m.id != ""
  {
  }

  lemma SplitAt<T>(front: seq<T>, s: seq<T>, i: nat, j: nat)
    requires i <= j <= |s|
    ensures front + s[..i] + s[i..j] == front + s[..j]
    ensures j == |s| ==> s[..j] == s
  {
  }

  /** Writes one talker's messages, opening a new segment only when the shard rotates. */
  method WriteTextSegments(tx: IndexTx, text: ShardWriter, msgs: seq<Message>, codec: Codec,
                           ghost owner: string, ghost parts: seq<seq<Message>>)
    returns (r: Result<()>, ghost parts': seq<seq<Message>>)
    requires text.Valid() && !text.closed
    requires Written(text.files, tx.segments, parts, codec, text.max)
    requires forall i :: 0 <= i < |msgs| ==> msgs[i].talker == owner
    modifies tx`segments, text`files, text`index, text`size
    ensures text.Valid()
    ensures r.Ok? <==> forall i :: 0 <= i < |msgs| ==> MessageWritable(msgs[i])
    ensures r.Ok? ==>
              && Written(text.files, tx.segments, parts', codec, text.max)
              && Flat(parts') == Flat(parts) + msgs
  {
    hide *;
    text.MagicFits();
    var curFile, curOff, curLen, curCount, talker := -1, 0, 0, 0, "";
    parts' := parts;
    ghost var part, done := [], 0;
    ghost var open := Segment(talker, Range(curFile, curOff, curLen), curCount);
    NothingPending(text.files, tx.segments, open, parts', codec, text.max);
    for i := 0 to |msgs|
      invariant text.Valid() && !text.closed
      invariant forall j :: 0 <= j < i ==> MessageWritable(msgs[j])
      invariant open == Segment(talker, Range(curFile, curOff, curLen), curCount)
      invariant curCount == |part| && (part == [] ==> i == 0 && curLen == 0)
      invariant part != [] ==> talker == owner
      invariant Pending(text.files, tx.segments, open, parts', part, codec, text.max)
      invariant 0 <= done <= i && part == msgs[done..i]
      invariant Flat(parts') == Flat(parts) + msgs[..done]
    {
      var m := msgs[i];
      WritableIff(m);
      if m.talker == "" || m.id == "" {
        assert !MessageWritable(msgs[i]);
        return Err(InvalidArgument), parts';
      }
      var rec := Record(m, codec);
      ghost var was := text.files;
      PendingEnds(was, tx.segments, open, parts', part, codec, text.max);
      var appended := text.Append(rec);
      var place := appended.value;
      if curCount > 0 && (place.file != curFile || place.offset != curOff + curLen) {
        PendingFlushed(was, tx.segments, open, parts', part, codec, text.max);
        tx.segments := tx.segments + [Segment(talker, Range(curFile, curOff, curLen), curCount)];
        SplitAt(Flat(parts), msgs, done, i);
        parts', done := parts' + [part], i;
        part, curCount, curLen := [], 0, 0;
      }
      if curCount == 0 {
        NothingPending(was, tx.segments, open, parts', codec, text.max);
        talker, curFile, curOff := m.talker, place.file, place.offset;
        PendingStarts(was, tx.segments, parts', codec, text.max, text.magic, m, place);
        assert part + [m] == [m];
      } else {
        PendingGrows(was, tx.segments, open, parts', part, codec, text.max, text.magic, m);
      }
      curLen := curLen + place.length;
      curCount := curCount + 1;
      part := part + [m];
      assert part == msgs[done..i + 1];
      open := Segment(talker, Range(curFile, curOff, curLen), curCount);
      assert Pending(text.files, tx.segments, open, parts', part, codec, text.max);
    }
    SplitAt(Flat(parts), msgs, done, |msgs|);
    NothingPending(text.files, tx.segments, open, parts', codec, text.max);
    if curCount > 0 {
      PendingFlushed(text.files, tx.segments, open, parts', part, codec, text.max);
      tx.segments := tx.segments + [Segment(talker, Range(curFile, curOff, curLen), curCount)];
      parts' := parts' + [part];
    }
    return Ok(()), parts';
  }

  // ---- Writing a package ------------------------------------------------------------------------

  function TalkersOf(msgs: seq<Message>): set<string> {
    set m | m in msgs :: m.talker
  }

  ghost predicate Grouped(groups: map<string, seq<Message>>, msgs: seq<Message>) {
    && groups.Keys == TalkersOf(msgs)
    && forall t :: t in groups ==> groups[t] == OfTalker(msgs, t)
  }

  ghost predicate GroupedSorted(groups: map<string, seq<Message>>, msgs: seq<Message>) {
    && groups.Keys == TalkersOf(msgs)
    && forall t :: t in groups ==> SortedPermutation(groups[t], OfTalker(msgs, t))
  }

  lemma GroupGrows(groups: map<string, seq<Message>>, msgs: seq<Message>, m: Message)
    requires Grouped(groups, msgs)
    ensures Grouped(groups[m.talker := (if m.talker in groups then groups[m.talker] else []) + [m]], msgs + [m])
  {
    var groups' := groups[m.talker := (if m.talker in groups then groups[m.talker] else []) + [m]];
    if m.talker !in groups { OfTalkerNone(msgs, m.talker); }
    forall t | t in groups' ensures groups'[t] == OfTalker(msgs + [m], t) {
      OfTalkerConcat(msgs, [m], t);
      OfTalkerUniform([m], m.talker, t);
    }
  }

  /** Splits the messages by talker and sorts each group. */
  method GroupMessages(msgs: seq<Message>) returns (groups: map<string, seq<Message>>)
    ensures GroupedSorted(groups, msgs)
  {
    hide Grouped, SortedPermutation;
    var split := map[];
    assert Grouped(split, msgs[..0]) by { NothingGrouped(); }
    for i := 0 to |msgs|
      invariant Grouped(split, msgs[..i])
    {
      var m := msgs[i];
      GroupGrows(split, msgs[..i], m);
      assert msgs[..i + 1] == msgs[..i] + [m];
      split := split[m.talker := (if m.talker in split then split[m.talker] else []) + [m]];
    }
    assert msgs[..|msgs|] == msgs;
    GroupedKeys(split, msgs);
    groups := split;
    var todo := groups.Keys;
    while todo != {}
      invariant todo <= groups.Keys == split.Keys
      invariant forall t :: t in todo ==> groups[t] == split[t]
      invariant forall t :: t in groups && t !in todo ==> SortedPermutation(groups[t], OfTalker(msgs, t))
      decreases |todo|
    {
      var t :| t in todo;
      var sorted := SortMessages(groups[t]);
      groups := groups[t := sorted];
      todo := todo - {t};
    }
  }

  lemma NothingGrouped()
    ensures Grouped(map[], [])
  {
  }

  lemma GroupedKeys(groups: map<string, seq<Message>>, msgs: seq<Message>)
    requires Grouped(groups, msgs)
    ensures groups.Keys == TalkersOf(msgs)
    ensures forall t :: t in groups ==> groups[t] == OfTalker(msgs, t)
  {
  }

  /** The groups one after the other, in the given order of talkers. */
  function Arranged(groups: map<string, seq<Message>>, talkers: seq<string>): seq<Message>
    requires forall t :: t in talkers ==> t in groups
  {
    if talkers == [] then [] else groups[talkers[0]] + Arranged(groups, talkers[1..])
  }

  lemma {:induction false} ArrangedSnoc(groups: map<string, seq<Message>>, talkers: seq<string>, t: string)
    requires forall u :: u in talkers + [t] ==> u in groups
    ensures Arranged(groups, talkers + [t]) == Arranged(groups, talkers) + groups[t]
  {
    if talkers == [] {
      assert Arranged(groups, [t]) == groups[t] + Arranged(groups, []);
    } else {
      assert (talkers + [t])[1..] == talkers[1..] + [t];
      ArrangedSnoc(groups, talkers[1..], t);
    }
  }

  predicate ConversationWritable(c: Conversation) {
    c.talker != "" && c.kind.Valid()
  }

  function SessionRowOf(c: Conversation, account: string): SessionRow {
    SessionRow(FirstNonEmpty(c.account, account), c.kind, c.displayName, c.avatar, ToMillis(c.lastMsgTime), c.msgCount)
  }

  ghost predicate AllConversationsWritable(convs: seq<Conversation>) {
    forall c :: c in convs ==> ConversationWritable(c)
  }

  ghost predicate DistinctTalkers(convs: seq<Conversation>) {
    forall i, j :: 0 <= i < j < |convs| ==> convs[i].talker != convs[j].talker
  }

  ghost predicate SessionsWritten(sessions: map<string, SessionRow>, convs: seq<Conversation>, account: string) {
    && sessions.Keys == (set c | c in convs :: c.talker)
    && forall c :: c in convs ==> sessions[c.talker] == SessionRowOf(c, account)
  }

  method WriteSessions(tx: IndexTx, convs: seq<Conversation>, account: string) returns (ok: bool)
    requires tx.sessions == map[]
    modifies tx`sessions
    ensures ok <==> DistinctTalkers(convs) && AllConversationsWritable(convs)
    ensures ok ==> SessionsWritten(tx.sessions, convs, account)
  {
    for i := 0 to |convs|
      invariant DistinctTalkers(convs[..i])
      invariant forall j :: 0 <= j < i ==> ConversationWritable(convs[j])
      invariant SessionsWritten(tx.sessions, convs[..i], account)
    {
      var c := convs[i];
      if !ConversationWritable(c) {
        return false;
      }
      if c.talker in tx.sessions {
        var d :| d in convs[..i] && d.talker == c.talker;
        var j :| 0 <= j < i && convs[j] == d;
        assert convs[j].talker == convs[i].talker;
        return false;
      }
      tx.sessions := tx.sessions[c.talker := SessionRowOf(c, account)];
      assert convs[..i + 1] == convs[..i] + [c];
    }
    assert convs[..|convs|] == convs;
    return true;
  }

  // ---- Writing media ----------------------------------------------------------------------------

  /** A media object's bytes: given in memory, read from its path, or none. */
  function PayloadOf(m: MediaObject, blobs: map<string, seq<byte>>, disk: map<string, seq<byte>>): Result<seq<byte>> {
    if m.id in blobs then Ok(blobs[m.id])
    else if m.path == "" then Ok([])
    else if m.path in disk then Ok(disk[m.path])
    else Err(MissingFile)
  }

  predicate MediaWritable(m: MediaObject, blobs: map<string, seq<byte>>, disk: map<string, seq<byte>>) {
    m.id != "" && m.kind.Valid() && PayloadOf(m, blobs, disk).Ok?
  }

  ghost predicate AllMediaWritable(media: seq<MediaObject>, blobs: map<string, seq<byte>>, disk: map<string, seq<byte>>) {
    forall m :: m in media ==> MediaWritable(m, blobs, disk)
  }

  function MediaRowOf(m: MediaObject, account: string, payload: seq<byte>): MediaRow {
    MediaRow(FirstNonEmpty(m.account, account), m.kind, m.sha256, |payload|, payload != [])
  }

  ghost predicate DistinctMedia(media: seq<MediaObject>) {
    forall i, j :: 0 <= i < j < |media| ==> media[i].id != media[j].id
  }

  ghost predicate MediaWritten(rows: map<string, MediaRow>, media: seq<MediaObject>, account: string,
                               blobs: map<string, seq<byte>>, disk: map<string, seq<byte>>) {
    && AllMediaWritable(media, blobs, disk)
    && rows.Keys == (set m | m in media :: m.id)
    && forall m :: m in media ==> rows[m.id] == MediaRowOf(m, account, PayloadOf(m, blobs, disk).value)
  }

  datatype Item = Item(id: string, payload: seq<byte>)

  function FileRanges(segs: seq<FileSegment>): (r: seq<Range>)
    ensures |r| == |segs| && forall k :: 0 <= k < |segs| ==> r[k] == segs[k].range
  {
    seq(|segs|, k requires 0 <= k < |segs| => segs[k].range)
  }

  function ItemParts(items: seq<Item>): (r: seq<seq<seq<byte>>>)
    ensures |r| == |items| && forall k :: 0 <= k < |items| ==> r[k] == [items[k].payload]
  {
    seq(|items|, k requires 0 <= k < |items| => [items[k].payload])
  }

  /** The file segments index the media shards, segment k holding exactly the bytes of item k. */
  ghost predicate Stored(files: seq<seq<byte>>, segs: seq<FileSegment>, items: seq<Item>, max: int) {
    && |items| == |segs|
    && Indexed(files, FileRanges(segs), ItemParts(items), max)
    && forall k :: 0 <= k < |segs| ==> segs[k].mediaId == items[k].id
  }

  /** The items are the media objects that have bytes, each once. */
  ghost predicate ItemsOf(items: seq<Item>, media: seq<MediaObject>, blobs: map<string, seq<byte>>, disk: map<string, seq<byte>>) {
    && (forall k, l :: 0 <= k < l < |items| ==> items[k].id != items[l].id)
    && (forall it :: it in items ==> it.payload != [] && exists m :: m in media && m.id == it.id && PayloadOf(m, blobs, disk) == Ok(it.payload))
    && (forall m :: m in media && PayloadOf(m, blobs, disk).Ok? && PayloadOf(m, blobs, disk).value != []
          ==> Item(m.id, PayloadOf(m, blobs, disk).value) in items)
  }

  lemma StoredGrows(files: seq<seq<byte>>, segs: seq<FileSegment>, items: seq<Item>, max: int, magic: seq<byte>, it: Item)
    requires Stored(files, segs, items, max) && |magic| == MAGIC_LENGTH && it.payload != []
    ensures var after := Appended(files, it.payload, max, magic);
            && |it.payload| <= |after[|after| - 1]|
            && Stored(after, segs + [FileSegment(it.id, PlaceOf(after, |it.payload|))], items + [it], max)
  {
    AppendStartsRange(files, FileRanges(segs), ItemParts(items), it.payload, max, magic);
    var after := Appended(files, it.payload, max, magic);
    var segs' := segs + [FileSegment(it.id, PlaceOf(after, |it.payload|))];
    assert FileRanges(segs') == FileRanges(segs) + [PlaceOf(after, |it.payload|)];
    assert ItemParts(items + [it]) == ItemParts(items) + [[it.payload]];
  }

  lemma NothingStored(magic: seq<byte>, max: int)
    requires |magic| == MAGIC_LENGTH
    ensures Stored([magic], [], [], max)
  {
    assert FileRanges([]) == [] && ItemParts([]) == [];
  }

  lemma ItemsGrow(items: seq<Item>, media: seq<MediaObject>, m: MediaObject,
                  blobs: map<string, seq<byte>>, disk: map<string, seq<byte>>)
    requires ItemsOf(items, media, blobs, disk) && PayloadOf(m, blobs, disk).Ok?
    requires forall d :: d in media ==> d.id != m.id
    ensures var blob := PayloadOf(m, blobs, disk).value;
            ItemsOf(if blob == [] then items else items + [Item(m.id, blob)], media + [m], blobs, disk)
  {
    var blob := PayloadOf(m, blobs, disk).value;
    var items' := if blob == [] then items else items + [Item(m.id, blob)];
    forall k, l | 0 <= k < l < |items'| ensures items'[k].id != items'[l].id {
      assert items'[k] in items;
    }
    forall it | it in items'
      ensures it.payload != [] && exists n :: n in media + [m] && n.id == it.id && PayloadOf(n, blobs, disk) == Ok(it.payload)
    {
      if it in items {
        var n :| n in media && n.id == it.id && PayloadOf(n, blobs, disk) == Ok(it.payload);
        assert n in media + [m];
      } else {
        assert m in media + [m];
      }
    }
  }

  lemma MediaRowsGrow(rows: map<string, MediaRow>, media: seq<MediaObject>, m: MediaObject, account: string,
                      blobs: map<string, seq<byte>>, disk: map<string, seq<byte>>)
    requires MediaWritten(rows, media, account, blobs, disk) && MediaWritable(m, blobs, disk) && m.id !in rows
    ensures MediaWritten(rows[m.id := MediaRowOf(m, account, PayloadOf(m, blobs, disk).value)], media + [m], account, blobs, disk)
    ensures forall d :: d in media ==> d.id != m.id
  {
  }

  /** The state of the media tables and shards after some of the media objects. */
  ghost predicate MediaState(rows: map<string, MediaRow>, segs: seq<FileSegment>, files: seq<seq<byte>>, items: seq<Item>,
                             written: seq<MediaObject>, snap: Snapshot, disk: map<string, seq<byte>>, max: int) {
    && DistinctMedia(written)
    && MediaWritten(rows, written, snap.account, snap.blobs, disk)
    && Stored(files, segs, items, max)
    && ItemsOf(items, written, snap.blobs, disk)
  }

  method PutMediaItem(tx: IndexTx, shards: ShardWriter, m: MediaObject, snap: Snapshot, disk: map<string, seq<byte>>,
                      ghost written: seq<MediaObject>, ghost items: seq<Item>)
    returns (ok: bool, ghost items': seq<Item>)
    requires shards.Valid() && !shards.closed
    requires MediaState(tx.media, tx.fileSegments, shards.files, items, written, snap, disk, shards.max)
    modifies tx`media, tx`fileSegments, shards`files, shards`index, shards`size
    ensures shards.Valid()
    ensures ok <==> MediaWritable(m, snap.blobs, disk) && m.id !in old(tx.media)
    ensures ok ==> MediaState(tx.media, tx.fileSegments, shards.files, items', written + [m], snap, disk, shards.max)
  {
    hide Stored, ItemsOf, MediaWritten, PayloadOf, MediaRowOf;
    items' := items;
    if m.id == "" || !m.kind.Valid() {
      return false, items;
    }
    var payload := PayloadOf(m, snap.blobs, disk);
    if payload.Err? || m.id in tx.media {
      return false, items;
    }
    var blob := payload.value;
    MediaRowsGrow(tx.media, written, m, snap.account, snap.blobs, disk);
    ItemsGrow(items, written, m, snap.blobs, disk);
    if |blob| > 0 {
      StoredGrows(shards.files, tx.fileSegments, items, shards.max, shards.magic, Item(m.id, blob));
      var place := shards.Append(blob);
      tx.fileSegments := tx.fileSegments + [FileSegment(m.id, place.value)];
      items' := items + [Item(m.id, blob)];
    }
    tx.media := tx.media[m.id := MediaRowOf(m, snap.account, blob)];
    ok := true;
  }

  method WriteMedia(tx: IndexTx, shards: ShardWriter, snap: Snapshot, disk: map<string, seq<byte>>)
    returns (ok: bool, ghost items: seq<Item>)
    requires tx.media == map[] && tx.fileSegments == []
    requires shards.Valid() && !shards.closed && shards.files == [shards.magic]
    modifies tx`media, tx`fileSegments, shards`files, shards`index, shards`size
    ensures shards.Valid()
    ensures ok <==> DistinctMedia(snap.media) && AllMediaWritable(snap.media, snap.blobs, disk)
    ensures ok ==> MediaState(tx.media, tx.fileSegments, shards.files, items, snap.media, snap, disk, shards.max)
    ensures ok ==> MediaTold(tx.media, snap, disk)
  {
    var media := snap.media;
    items := [];
    NoMedia(snap, disk, shards.magic, shards.max);
    hide MediaState, AllMediaWritable, DistinctMedia, MediaWritable;
    for i := 0 to |media|
      invariant shards.Valid() && !shards.closed
      invariant MediaState(tx.media, tx.fileSegments, shards.files, items, media[..i], snap, disk, shards.max)
    {
      MediaCheck(tx.media, tx.fileSegments, shards.files, items, media, i, snap, disk, shards.max);
      ok, items := PutMediaItem(tx, shards, media[i], snap, disk, media[..i], items);
      if !ok {
        return;
      }
      TakeOneMore(media, i);
    }
    assert media[..|media|] == media;
    MediaChecked(tx.media, tx.fileSegments, shards.files, items, snap, disk, shards.max);
    MediaIsTold(tx.media, snap, disk);
    ok := true;
  }

  lemma NoMedia(snap: Snapshot, disk: map<string, seq<byte>>, magic: seq<byte>, max: int)
    requires |magic| == MAGIC_LENGTH
    ensures MediaState(map[], [], [magic], [], [], snap, disk, max)
  {
    NothingStored(magic, max);
  }

  /** What the checks before the i-th media object decide about the whole list. */
  lemma MediaCheck(rows: map<string, MediaRow>, segs: seq<FileSegment>, files: seq<seq<byte>>, items: seq<Item>,
                   media: seq<MediaObject>, i: nat, snap: Snapshot, disk: map<string, seq<byte>>, max: int)
    requires i < |media| && MediaState(rows, segs, files, items, media[..i], snap, disk, max)
    ensures !MediaWritable(media[i], snap.blobs, disk) ==> !AllMediaWritable(media, snap.blobs, disk)
    ensures media[i].id in rows ==> !DistinctMedia(media)
  {
    assert media[i] in media;
    if media[i].id in rows {
      var d :| d in media[..i] && d.id == media[i].id;
      var j :| 0 <= j < i && media[j] == d;
      assert media[j].id == media[i].id;
    }
  }

  lemma MediaChecked(rows: map<string, MediaRow>, segs: seq<FileSegment>, files: seq<seq<byte>>, items: seq<Item>,
                     snap: Snapshot, disk: map<string, seq<byte>>, max: int)
    requires MediaState(rows, segs, files, items, snap.media, snap, disk, max)
    ensures DistinctMedia(snap.media) && AllMediaWritable(snap.media, snap.blobs, disk)
    ensures MediaWritten(rows, snap.media, snap.account, snap.blobs, disk)
  {
  }

  /** What the media table tells of each object: whose it is, what it is, and the number of its bytes, which
      are those given in memory or else those of its file; it is available if it has any. */
  ghost predicate MediaTold(rows: map<string, MediaRow>, snap: Snapshot, disk: map<string, seq<byte>>) {
    && (forall id :: id in rows ==> exists m :: m in snap.media && m.id == id)
    && (forall m :: m in snap.media ==> m.id in rows && TellsOf(rows[m.id], m, snap, disk))
  }

  predicate TellsOf(row: MediaRow, m: MediaObject, snap: Snapshot, disk: map<string, seq<byte>>) {
    && row.account == (if m.account == "" then snap.account else m.account)
    && row.kind == m.kind && row.sha256 == m.sha256
    && (m.id !in snap.blobs && m.path != "" ==> m.path in disk)
    && row.size == (if m.id in snap.blobs then |snap.blobs[m.id]| else if m.path != "" then |disk[m.path]| else 0)
    && (row.available <==> row.size > 0)
  }

  lemma MediaIsTold(rows: map<string, MediaRow>, snap: Snapshot, disk: map<string, seq<byte>>)
    requires MediaWritten(rows, snap.media, snap.account, snap.blobs, disk)
    ensures MediaTold(rows, snap, disk)
  {
    forall id | id in rows ensures exists m :: m in snap.media && m.id == id {
      assert id in (set m | m in snap.media :: m.id);
    }
  }

  // ---- The whole package ------------------------------------------------------------------------

  /** What a written package holds, table by table. */
  ghost predicate Packed(pkg: Package, snap: Snapshot, disk: map<string, seq<byte>>, codec: Codec, max: int,
                         groups: map<string, seq<Message>>, parts: seq<seq<Message>>, items: seq<Item>) {
    && pkg.format == INTERCHANGE_FORMAT && pkg.account == snap.account && pkg.wxid == snap.wxid
    && DistinctTalkers(snap.conversations)
    && SessionsWritten(pkg.sessions, snap.conversations, snap.account)
    && GroupedSorted(groups, snap.messages)
    && Written(pkg.textFiles, pkg.segments, parts, codec, max)
    && Flat(parts) == Arranged(groups, SortedStrings(groups.Keys))
    && MediaState(pkg.media, pkg.fileSegments, pkg.mediaFiles, items, snap.media, snap, disk, max)
    && (forall k :: 0 <= k < |pkg.textFiles| ==> TEXT_MAGIC <= pkg.textFiles[k])
    && (forall k :: 0 <= k < |pkg.mediaFiles| ==> MEDIA_MAGIC <= pkg.mediaFiles[k])
  }

  ghost predicate Writable(snap: Snapshot, disk: map<string, seq<byte>>) {
    && DistinctTalkers(snap.conversations)
    && AllConversationsWritable(snap.conversations)
    && AllWritable(snap.messages)
    && DistinctMedia(snap.media)
    && AllMediaWritable(snap.media, snap.blobs, disk)
  }

  lemma NothingWritten(magic: seq<byte>, codec: Codec, max: int)
    requires |magic| == MAGIC_LENGTH
    ensures Written([magic], [], [], codec, max)
  {
    assert RangesOf([]) == [] && RecordParts([], codec) == [];
  }

  ghost predicate AllWritable(msgs: seq<Message>) {
    forall m :: m in msgs ==> MessageWritable(m)
  }

  /** In fields: talkers and ids given and none twice, kinds known, and the file of every object without a
      blob there, unless it names none. */
  lemma WritableMeans(snap: Snapshot, disk: map<string, seq<byte>>)
    ensures Writable(snap, disk) <==>
              && (forall c :: c in snap.conversations ==> c.talker != "" && !c.kind.OtherKind?)
              && (forall i, j :: 0 <= i < j < |snap.conversations| ==> snap.conversations[i].talker != snap.conversations[j].talker)
              && (forall m :: m in snap.messages ==> m.talker != "" && m.id != "")
              && (forall m :: m in snap.media ==> m.id != "" && !m.kind.UnknownMedia? && (m.id in snap.blobs || m.path == "" || m.path in disk))
              && (forall i, j :: 0 <= i < j < |snap.media| ==> snap.media[i].id != snap.media[j].id)
  {
  }

  /** Writes every group, talkers in ascending order. */
  method WriteText(tx: IndexTx, text: ShardWriter, groups: map<string, seq<Message>>, ghost msgs: seq<Message>, codec: Codec)
    returns (r: Result<()>, ghost parts: seq<seq<Message>>)
    requires text.Valid() && !text.closed
    requires GroupedSorted(groups, msgs)
    requires text.files == [text.magic] && tx.segments == []
    modifies tx`segments, text`files, text`index, text`size
    ensures text.Valid()
    ensures r.Ok? <==> AllWritable(msgs)
    ensures r.Ok? ==>
              && Written(text.files, tx.segments, parts, codec, text.max)
              && Flat(parts) == Arranged(groups, SortedStrings(groups.Keys))
  {
    hide Written, SortedPermutation, StrLess, GroupedSorted, AllWritable;
    NothingWritten(text.magic, codec, text.max);
    parts := [];
    var talkers := SortedStrings(groups.Keys);
    for i := 0 to |talkers|
      invariant text.Valid() && !text.closed
      invariant forall j :: 0 <= j < i ==> AllWritable(groups[talkers[j]])
      invariant Written(text.files, tx.segments, parts, codec, text.max)
      invariant Flat(parts) == Arranged(groups, talkers[..i])
    {
      var t := talkers[i];
      assert t in groups;
      GroupOwner(groups, msgs, t);
      var written;
      written, parts := WriteTextSegments(tx, text, groups[t], codec, t, parts);
      GroupWritable(groups, msgs, t);
      if written.Err? {
        return Err(written.error), parts;
      }
      TakeOneMore(talkers, i);
      ArrangedSnoc(groups, talkers[..i], t);
    }
    assert talkers[..|talkers|] == talkers;
    AllGroupsWritable(groups, msgs, talkers);
    return Ok(()), parts;
  }

  lemma TakeOneMore<T>(s: seq<T>, i: nat)
    requires i < |s|
    ensures s[..i + 1] == s[..i] + [s[i]]
    ensures forall x :: x in s[..i] + [s[i]] ==> x in s
  {
  }

  lemma GroupOwner(groups: map<string, seq<Message>>, msgs: seq<Message>, t: string)
    requires GroupedSorted(groups, msgs) && t in groups
    ensures forall k :: 0 <= k < |groups[t]| ==> groups[t][k].talker == t
  {
    GroupMembers(groups[t], msgs, t);
    forall k | 0 <= k < |groups[t]| ensures groups[t][k].talker == t {
      assert groups[t][k] in groups[t];
    }
  }

  /** Checking a group message by message is checking it whole, and a bad group makes the whole bad. */
  lemma GroupWritable(groups: map<string, seq<Message>>, msgs: seq<Message>, t: string)
    requires GroupedSorted(groups, msgs) && t in groups
    ensures AllWritable(groups[t]) <==> forall k :: 0 <= k < |groups[t]| ==> MessageWritable(groups[t][k])
    ensures AllWritable(msgs) ==> AllWritable(groups[t])
  {
    GroupMembers(groups[t], msgs, t);
    if forall k :: 0 <= k < |groups[t]| ==> MessageWritable(groups[t][k]) {
      assert AllWritable(groups[t]);
    } else {
      var k :| 0 <= k < |groups[t]| && !MessageWritable(groups[t][k]);
      assert groups[t][k] in groups[t];
    }
  }

  lemma AllGroupsWritable(groups: map<string, seq<Message>>, msgs: seq<Message>, talkers: seq<string>)
    requires GroupedSorted(groups, msgs)
    requires forall t :: t in talkers <==> t in groups
    requires forall j :: 0 <= j < |talkers| ==> AllWritable(groups[talkers[j]])
    ensures AllWritable(msgs)
  {
    forall m | m in msgs ensures MessageWritable(m) {
      assert m.talker in TalkersOf(msgs);
      var j :| 0 <= j < |talkers| && talkers[j] == m.talker;
      GroupMembers(groups[m.talker], msgs, m.talker);
      assert m in groups[talkers[j]];
    }
  }

  method WritePackage(snap: Snapshot, disk: map<string, seq<byte>>, codec: Codec, max: int)
    returns (r: Result<Package>, ghost groups: map<string, seq<Message>>, ghost parts: seq<seq<Message>>, ghost items: seq<Item>)
    ensures r.Ok? <==> Writable(snap, disk)
    ensures r.Ok? ==> Packed(r.value, snap, disk, codec, max, groups, parts, items)
  {
    hide *;
    MagicLengths();
    WritableParts(snap, disk);
    groups, parts, items := map[], [], [];
    var tx := new IndexTx();
    var ok := WriteSessions(tx, snap.conversations, snap.account);
    if !ok {
      return Err(InvalidArgument), groups, parts, items;
    }
    var byTalker := GroupMessages(snap.messages);
    groups := byTalker;
    var text := new ShardWriter(TEXT_MAGIC, max);
    var written;
    written, parts := WriteText(tx, text, byTalker, snap.messages, codec);
    if written.Err? {
      return Err(written.error), groups, parts, items;
    }
    text.Close();
    var shards := new ShardWriter(MEDIA_MAGIC, max);
    ok, items := WriteMedia(tx, shards, snap, disk);
    if !ok {
      return Err(InvalidArgument), groups, parts, items;
    }
    shards.Close();
    var pkg := Package(INTERCHANGE_FORMAT, snap.account, snap.wxid, tx.sessions, tx.segments, tx.media,
                       tx.fileSegments, text.files, shards.files);
    text.MagicFits();
    shards.MagicFits();
    Assembled(pkg, snap, disk, codec, max, groups, parts, items);
    return Ok(pkg), groups, parts, items;
  }

  lemma MagicLengths()
    ensures |TEXT_MAGIC| == MAGIC_LENGTH && |MEDIA_MAGIC| == MAGIC_LENGTH
  {
  }

  lemma WritableParts(snap: Snapshot, disk: map<string, seq<byte>>)
    ensures Writable(snap, disk) <==>
              && DistinctTalkers(snap.conversations) && AllConversationsWritable(snap.conversations)
              && AllWritable(snap.messages)
              && DistinctMedia(snap.media) && AllMediaWritable(snap.media, snap.blobs, disk)
  {
  }

  lemma Assembled(pkg: Package, snap: Snapshot, disk: map<string, seq<byte>>, codec: Codec, max: int,
                  groups: map<string, seq<Message>>, parts: seq<seq<Message>>, items: seq<Item>)
    requires pkg.format == INTERCHANGE_FORMAT && pkg.account == snap.account && pkg.wxid == snap.wxid
    requires DistinctTalkers(snap.conversations) && SessionsWritten(pkg.sessions, snap.conversations, snap.account)
    requires GroupedSorted(groups, snap.messages) && Written(pkg.textFiles, pkg.segments, parts, codec, max)
    requires Flat(parts) == Arranged(groups, SortedStrings(groups.Keys))
    requires MediaState(pkg.media, pkg.fileSegments, pkg.mediaFiles, items, snap.media, snap, disk, max)
    requires forall k :: 0 <= k < |pkg.textFiles| ==> TEXT_MAGIC <= pkg.textFiles[k]
    requires forall k :: 0 <= k < |pkg.mediaFiles| ==> MEDIA_MAGIC <= pkg.mediaFiles[k]
    ensures Packed(pkg, snap, disk, codec, max, groups, parts, items)
  {
    hide MediaState, SessionsWritten, GroupedSorted, Written, DistinctTalkers, Arranged, SortedStrings, Flat;
  }

  lemma GroupMembers(group: seq<Message>, msgs: seq<Message>, t: string)
    requires SortedPermutation(group, OfTalker(msgs, t))
    ensures forall m :: m in group <==> m in msgs && m.talker == t
  {
    OfTalkerMembers(msgs, t);
    forall m ensures m in group <==> m in OfTalker(msgs, t) {
      assert m in group <==> m in multiset(group);
      assert m in OfTalker(msgs, t) <==> m in multiset(OfTalker(msgs, t));
    }
  }
}
