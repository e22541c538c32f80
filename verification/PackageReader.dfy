/** Reading a backup package: the index database turned back into messages and media. */
module PackageReader {
  import opened Domain
  import opened Order
  import opened Frames
  import opened Shards
  import opened Package

  /** What a reader finds where the index should be. */
  datatype Directory =
    | NoIndex            // no Backup.db, or a directory of that name
    | Encrypted          // not a SQLite file, or one that cannot be opened
    | NoSessions         // SQLite without a Session table
    | Index(pkg: Package)

  /** A reader may return conversations together with an error. */
  datatype Outcome = Outcome(snapshot: Snapshot, error: Option<Error>)

  const EMPTY := Snapshot("", "", [], [], [], map[])

  // ---- Segments ---------------------------------------------------------------------------------

  function ReadShardRange(files: seq<seq<byte>>, magic: seq<byte>, r: Range): (b: Result<seq<byte>>)
    ensures b.Ok? ==> |b.value| == r.length
  {
    if !(0 <= r.file < |files|) then Err(NeedsKey)
    else
      var f := files[r.file];
      if !(magic <= f) then Err(NeedsKey)
      else if r.length < 0 then Err(InvalidArgument)
      else if r.length > MAX_SEGMENT_BYTES then Err(SegmentTooLong)
      else if r.length == 0 then Ok([])
      else if r.offset < 0 then Err(InvalidArgument)
      else if r.offset + r.length > |f| then Err(NeedsKey)
      else Ok(f[r.offset..r.offset + r.length])
  }

  /** What is wrong when a range cannot be read: a missing or foreign shard, and bytes that are not there, need
      the key; a negative length or offset is invalid; a range over the cap is too long. */
  lemma RangeFails(files: seq<seq<byte>>, magic: seq<byte>, r: Range)
    ensures var b, foreign := ReadShardRange(files, magic, r), r.file < 0 || r.file >= |files| || !(magic <= files[r.file]);
            && (foreign ==> b == Err(NeedsKey))
            && (!foreign && r.length < 0 ==> b == Err(InvalidArgument))
            && (!foreign && r.length > 67_108_864 ==> b == Err(SegmentTooLong))
            && (!foreign && 0 < r.length <= 67_108_864 && r.offset < 0 ==> b == Err(InvalidArgument))
            && (!foreign && 0 < r.length <= 67_108_864 && r.offset >= 0 && r.offset + r.length > |files[r.file]| ==> b == Err(NeedsKey))
  {
  }

  function SegmentMessages(pkg: Package, seg: Segment, codec: Codec): Result<seq<Message>> {
    match ReadShardRange(pkg.textFiles, TEXT_MAGIC, seg.range)
    case Err(e) => Err(e)
    case Ok(payload) => Decoded(payload, codec)
  }

  /** The messages of the segments in order, or the first error. */
  function MessagesOf(pkg: Package, segs: seq<Segment>, codec: Codec): Result<seq<Message>> {
    if segs == [] then Ok([])
    else
      match SegmentMessages(pkg, segs[0], codec)
      case Err(e) => Err(e)
      case Ok(msgs) => Prepend(msgs, MessagesOf(pkg, segs[1..], codec))
  }

  method ReadMessages(pkg: Package, codec: Codec) returns (r: Result<seq<Message>>)
    ensures r == MessagesOf(pkg, pkg.segments, codec)
  {
    var out := [];
    for i := 0 to |pkg.segments|
      invariant MessagesOf(pkg, pkg.segments, codec) == Prepend(out, MessagesOf(pkg, pkg.segments[i..], codec))
    {
      var seg := pkg.segments[i];
      assert pkg.segments[i..][0] == seg && pkg.segments[i..][1..] == pkg.segments[i + 1..];
      var payload := ReadShardRange(pkg.textFiles, TEXT_MAGIC, seg.range);
      if payload.Err? {
        return Err(payload.error);
      }
      var msgs := DecodeTextRecords(payload.value, codec);
      if msgs.Err? {
        return msgs;
      }
      PrependTwice(out, msgs.value, MessagesOf(pkg, pkg.segments[i + 1..], codec));
      out := out + msgs.value;
    }
    assert out + [] == out;
    return Ok(out);
  }

  // ---- Media ------------------------------------------------------------------------------------

  /** The bytes of each media id, pieces joined in the order of the file segments. */
  function BlobsOf(pkg: Package, segs: seq<FileSegment>, blobs: map<string, seq<byte>>): Result<map<string, seq<byte>>> {
    if segs == [] then Ok(blobs)
    else
      match ReadShardRange(pkg.mediaFiles, MEDIA_MAGIC, segs[0].range)
      case Err(e) => Err(e)
      case Ok(b) =>
        var id := segs[0].mediaId;
        BlobsOf(pkg, segs[1..], blobs[id := (if id in blobs then blobs[id] else []) + b])
  }

  /** A media row as read: its stored size and flag, unless it has bytes. */
  function ShownMedia(id: string, row: MediaRow, blobs: map<string, seq<byte>>): MediaObject {
    if id in blobs then MediaObject(row.account, id, row.kind, row.sha256, "", |blobs[id]|, true)
    else MediaObject(row.account, id, row.kind, row.sha256, "", row.size, row.available)
  }

  function MediaList(rows: map<string, MediaRow>, blobs: map<string, seq<byte>>): (r: seq<MediaObject>)
    ensures |r| == |rows.Keys|
    ensures forall i :: 0 <= i < |r| ==>
              SortedStrings(rows.Keys)[i] in rows && r[i] == ShownMedia(SortedStrings(rows.Keys)[i], rows[SortedStrings(rows.Keys)[i]], blobs)
  {
    var ids := SortedStrings(rows.Keys);
    assert forall i :: 0 <= i < |ids| ==> ids[i] in ids;
    seq(|ids|, i requires 0 <= i < |ids| => ShownMedia(ids[i], rows[ids[i]], blobs))
  }

  function Marked(media: seq<MediaObject>, id: string, n: nat): (r: seq<MediaObject>)
    ensures |r| == |media|
  {
    seq(|media|, k requires 0 <= k < |media| =>
      if media[k].id == id then media[k].(size := n, available := true) else media[k])
  }

  /** Sets the size and flag of the media object with this id. */
  method MarkAvailable(shown: seq<MediaObject>, id: string, n: nat) returns (media: seq<MediaObject>)
    ensures media == Marked(shown, id, n)
  {
    media := shown;
    for j := 0 to |media|
      invariant |media| == |shown|
      invariant forall k :: 0 <= k < j ==> media[k] == Marked(shown, id, n)[k]
      invariant forall k :: j <= k < |media| ==> media[k] == shown[k]
    {
      if media[j].id == id {
        media := media[j := media[j].(size := n, available := true)];
      }
    }
  }

  /** An object with bytes has their number and is available; any other has the size and flag of its row. */
  predicate ShowsMedia(d: MediaObject, row: MediaRow, blobs: map<string, seq<byte>>) {
    && d.account == row.account && d.kind == row.kind && d.sha256 == row.sha256 && d.path == ""
    && (if d.id in blobs then d.size == |blobs[d.id]| && d.available else d.size == row.size && d.available == row.available)
  }

  lemma MediaIsShown(rows: map<string, MediaRow>, blobs: map<string, seq<byte>>)
    ensures var list := MediaList(rows, blobs);
            && |list| == |rows|
            && (forall i, j :: 0 <= i < j < |list| ==> StrLess(list[i].id, list[j].id))
            && (forall d :: d in list ==> d.id in rows && ShowsMedia(d, rows[d.id], blobs))
  {
    var list, ids := MediaList(rows, blobs), SortedStrings(rows.Keys);
    hide StrLess, SortedStrings, MediaList;
    assert |rows| == |rows.Keys|;
    assert forall i :: 0 <= i < |list| ==> list[i].id == ids[i] && ids[i] in rows && ShowsMedia(list[i], rows[ids[i]], blobs);
    hide ShowsMedia, ShownMedia;
    forall i, j | 0 <= i < j < |list| ensures StrLess(list[i].id, list[j].id) {
      assert StrLess(ids[i], ids[j]);
    }
    forall d | d in list ensures d.id in rows && ShowsMedia(d, rows[d.id], blobs) {
      var i :| 0 <= i < |list| && list[i] == d;
    }
  }

  lemma MediaListMarked(rows: map<string, MediaRow>, blobs: map<string, seq<byte>>, id: string, b: seq<byte>)
    ensures Marked(MediaList(rows, blobs), id, |b|) == MediaList(rows, blobs[id := b])
  {
  }

  method ReadMedia(pkg: Package) returns (r: Result<(seq<MediaObject>, map<string, seq<byte>>)>)
    ensures r.Ok? <==> BlobsOf(pkg, pkg.fileSegments, map[]).Ok?
    ensures r.Err? ==> r.error == BlobsOf(pkg, pkg.fileSegments, map[]).error
    ensures r.Ok? ==>
              && r.value.1 == BlobsOf(pkg, pkg.fileSegments, map[]).value
              && r.value.0 == MediaList(pkg.media, r.value.1)
    ensures r.Ok? ==>
              && |r.value.0| == |pkg.media|
              && (forall i, j :: 0 <= i < j < |r.value.0| ==> StrLess(r.value.0[i].id, r.value.0[j].id))
              && (forall d :: d in r.value.0 ==> d.id in pkg.media && ShowsMedia(d, pkg.media[d.id], r.value.1))
  {
    var media := MediaList(pkg.media, map[]);
    var blobs := map[];
    for i := 0 to |pkg.fileSegments|
      invariant BlobsOf(pkg, pkg.fileSegments, map[]) == BlobsOf(pkg, pkg.fileSegments[i..], blobs)
      invariant media == MediaList(pkg.media, blobs)
    {
      var seg := pkg.fileSegments[i];
      assert pkg.fileSegments[i..][0] == seg && pkg.fileSegments[i..][1..] == pkg.fileSegments[i + 1..];
      var b := ReadShardRange(pkg.mediaFiles, MEDIA_MAGIC, seg.range);
      if b.Err? {
        return Err(b.error);
      }
      var id := seg.mediaId;
      ghost var was := blobs;
      blobs := blobs[id := (if id in blobs then blobs[id] else []) + b.value];
      media := MarkAvailable(media, id, |blobs[id]|);
      MediaListMarked(pkg.media, was, id, blobs[id]);
    }
    MediaIsShown(pkg.media, blobs);
    return Ok((media, blobs));
  }

  // ---- The whole package ------------------------------------------------------------------------

  function ShownConversation(talker: string, row: SessionRow): Conversation {
    Conversation(row.account, talker, row.kind, row.displayName, row.avatar, FromMillis(row.lastMs), row.msgCount)
  }

  function ConversationList(rows: map<string, SessionRow>): (r: seq<Conversation>)
    ensures |r| == |rows.Keys|
    ensures forall i :: 0 <= i < |r| ==>
              SortedStrings(rows.Keys)[i] in rows && r[i] == ShownConversation(SortedStrings(rows.Keys)[i], rows[SortedStrings(rows.Keys)[i]])
  {
    var ids := SortedStrings(rows.Keys);
    assert forall i :: 0 <= i < |ids| ==> ids[i] in ids;
    seq(|ids|, i requires 0 <= i < |ids| => ShownConversation(ids[i], rows[ids[i]]))
  }

  function FillAccounts(convs: seq<Conversation>, account: string): (r: seq<Conversation>)
    ensures |r| == |convs|
    ensures forall i :: 0 <= i < |r| ==> r[i] == convs[i].(account := FirstNonEmpty(convs[i].account, account))
  {
    seq(|convs|, i requires 0 <= i < |convs| => convs[i].(account := FirstNonEmpty(convs[i].account, account)))
  }

  /** Conversations first; messages next; media last. What was read before an error is still returned. */
  function Opened(pkg: Package, codec: Codec): Outcome {
    var sessions := EMPTY.(conversations := ConversationList(pkg.sessions));
    if pkg.format != INTERCHANGE_FORMAT then Outcome(sessions, Some(NeedsKey))
    else
      var named := sessions.(account := pkg.account, wxid := pkg.wxid,
                             conversations := FillAccounts(sessions.conversations, pkg.account));
      match MessagesOf(pkg, pkg.segments, codec)
      case Err(e) => Outcome(named, Some(e))
      case Ok(msgs) =>
        match BlobsOf(pkg, pkg.fileSegments, map[])
        case Err(e) => Outcome(named.(messages := msgs), Some(e))
        case Ok(blobs) =>
          Outcome(named.(messages := msgs, media := MediaList(pkg.media, blobs), blobs := blobs), None)
  }

  /** The conversations of the session table, talkers ascending, and nothing else. */
  ghost predicate SessionsOnly(s: Snapshot, rows: map<string, SessionRow>) {
    && s.account == "" && s.wxid == "" && s.messages == [] && s.media == [] && s.blobs == map[]
    && |s.conversations| == |rows|
    && (forall i, j :: 0 <= i < j < |s.conversations| ==> StrLess(s.conversations[i].talker, s.conversations[j].talker))
    && (forall c :: c in s.conversations ==> c.talker in rows && Shows(c, rows[c.talker]))
  }

  predicate Shows(c: Conversation, row: SessionRow) {
    && c.account == row.account && c.kind == row.kind && c.displayName == row.displayName && c.avatar == row.avatar
    && c.lastMsgTime == FromMillis(row.lastMs) && c.msgCount == row.msgCount
  }

  lemma ConversationsAreShown(rows: map<string, SessionRow>)
    ensures var list := ConversationList(rows);
            && |list| == |rows|
            && (forall i, j :: 0 <= i < j < |list| ==> StrLess(list[i].talker, list[j].talker))
            && (forall c :: c in list ==> c.talker in rows && Shows(c, rows[c.talker]))
  {
    var list, ids := ConversationList(rows), SortedStrings(rows.Keys);
    hide StrLess, SortedStrings, ConversationList, FromMillis;
    assert |rows| == |rows.Keys|;
    assert forall i :: 0 <= i < |list| ==> list[i].talker == ids[i] && ids[i] in rows && Shows(list[i], rows[ids[i]]);
    hide Shows, ShownConversation;
    forall i, j | 0 <= i < j < |list| ensures StrLess(list[i].talker, list[j].talker) {
      assert StrLess(ids[i], ids[j]);
    }
    forall c | c in list ensures c.talker in rows && Shows(c, rows[c.talker]) {
      var i :| 0 <= i < |list| && list[i] == c;
    }
  }

  lemma SessionsShown(dir: Directory)
    ensures dir.Index? ==> SessionsOnly(EMPTY.(conversations := ConversationList(dir.pkg.sessions)), dir.pkg.sessions)
  {
    if dir.Index? {
      ConversationsAreShown(dir.pkg.sessions);
      hide StrLess, ConversationList, Shows;
    }
  }

  /** Fills in the package's account where a conversation has none. */
  method FillIn(convs: seq<Conversation>, account: string) returns (r: seq<Conversation>)
    ensures r == FillAccounts(convs, account)
  {
    r := convs;
    for i := 0 to |r|
      invariant |r| == |convs|
      invariant forall k :: 0 <= k < i ==> r[k] == FillAccounts(convs, account)[k]
      invariant forall k :: i <= k < |r| ==> r[k] == convs[k]
    {
      if r[i].account == "" {
        r := r[i := r[i].(account := account)];
      }
    }
  }

  method Read(dir: Directory, codec: Codec) returns (o: Outcome)
    ensures dir.NoIndex? || dir.NoSessions? ==> o == Outcome(EMPTY, Some(NotPackage))
    ensures dir.Encrypted? ==> o == Outcome(EMPTY, Some(NeedsKey))
    ensures dir.Index? ==> o == Opened(dir.pkg, codec)
    ensures dir.Index? && dir.pkg.format != "wxbackup-interchange" ==>
              o.error == Some(NeedsKey) && SessionsOnly(o.snapshot, dir.pkg.sessions)
    ensures dir.Index? && o.error != None ==> o.snapshot.media == [] && o.snapshot.blobs == map[]
    ensures dir.Index? && dir.pkg.format == "wxbackup-interchange" ==>
              && o.snapshot.account == dir.pkg.account && o.snapshot.wxid == dir.pkg.wxid
              && |o.snapshot.conversations| == |dir.pkg.sessions|
  {
    SessionsShown(dir);
    hide ConversationList, FillAccounts, MessagesOf, BlobsOf, MediaList;
    match dir
    case NoIndex => return Outcome(EMPTY, Some(NotPackage));
    case Encrypted => return Outcome(EMPTY, Some(NeedsKey));
    case NoSessions => return Outcome(EMPTY, Some(NotPackage));
    case Index(pkg) =>
      var snap := EMPTY.(conversations := ConversationList(pkg.sessions));
      if pkg.format != INTERCHANGE_FORMAT {
        return Outcome(snap, Some(NeedsKey));
      }
      snap := snap.(account := pkg.account, wxid := pkg.wxid);
      var filled := FillIn(snap.conversations, snap.account);
      snap := snap.(conversations := filled);
      var msgs := ReadMessages(pkg, codec);
      if msgs.Err? {
        return Outcome(snap, Some(msgs.error));
      }
      snap := snap.(messages := msgs.value);
      var media := ReadMedia(pkg);
      if media.Err? {
        return Outcome(snap, Some(media.error));
      }
      return Outcome(snap.(media := media.value.0, blobs := media.value.1), None);
  }
}
