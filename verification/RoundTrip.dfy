/** Reading back a package that was written: what comes out, and exactly when anything does. */
module RoundTrip {
  import opened Domain
  import opened Order
  import opened Frames
  import opened Shards
  import opened Package
  import opened PackageReader

  // ---- The canonical form of a snapshot ---------------------------------------------------------

  function CanonicalConversation(c: Conversation, account: string): Conversation {
    c.(account := FirstNonEmpty(c.account, account), lastMsgTime := FromMillis(ToMillis(c.lastMsgTime)))
  }

  /** The same conversations, talkers ascending. */
  ghost predicate ConversationsCanonical(r: seq<Conversation>, convs: seq<Conversation>, account: string) {
    && (forall i, j :: 0 <= i < j < |r| ==> StrLess(r[i].talker, r[j].talker))
    && (forall c :: c in convs ==> CanonicalConversation(c, account) in r)
    && (forall d :: d in r ==> exists c :: c in convs && d == CanonicalConversation(c, account))
  }

  ghost predicate TalkersAscend(msgs: seq<Message>) {
    forall i, j :: 0 <= i < j < |msgs| ==> !StrLess(msgs[j].talker, msgs[i].talker)
  }

  /** What a talker's messages are in the canonical form: sorted by (time, sequence, id), then cut to
      the millisecond. */
  ghost predicate SortedThenCut(r: seq<Message>, msgs: seq<Message>) {
    exists g :: SortedPermutation(g, msgs) && r == NormalisedAll(g)
  }

  /** The same messages, talkers ascending, each talker's sorted and cut. */
  ghost predicate MessagesCanonical(r: seq<Message>, msgs: seq<Message>) {
    && TalkersAscend(r)
    && forall t :: SortedThenCut(OfTalker(r, t), OfTalker(msgs, t))
  }

  function CanonicalMedia(m: MediaObject, account: string, payload: seq<byte>): MediaObject {
    MediaObject(FirstNonEmpty(m.account, account), m.id, m.kind, m.sha256, "", |payload|, payload != [])
  }

  ghost predicate MediaComplete(r: seq<MediaObject>, snap: Snapshot, disk: map<string, seq<byte>>)
    requires AllMediaWritable(snap.media, snap.blobs, disk)
  {
    forall m :: m in snap.media ==> CanonicalMedia(m, snap.account, PayloadOf(m, snap.blobs, disk).value) in r
  }

  ghost predicate MediaSound(r: seq<MediaObject>, snap: Snapshot, disk: map<string, seq<byte>>)
    requires AllMediaWritable(snap.media, snap.blobs, disk)
  {
    forall d :: d in r ==>
      exists m :: m in snap.media && d == CanonicalMedia(m, snap.account, PayloadOf(m, snap.blobs, disk).value)
  }

  /** The same media objects, ids ascending, sizes those of the bytes. */
  ghost predicate MediaCanonical(r: seq<MediaObject>, snap: Snapshot, disk: map<string, seq<byte>>) {
    && AllMediaWritable(snap.media, snap.blobs, disk)
    && (forall i, j :: 0 <= i < j < |r| ==> StrLess(r[i].id, r[j].id))
    && MediaComplete(r, snap, disk)
    && MediaSound(r, snap, disk)
  }

  /** The bytes of every media object that has some, and nothing else. */
  ghost predicate BlobsCanonical(blobs: map<string, seq<byte>>, snap: Snapshot, disk: map<string, seq<byte>>) {
    && (forall m :: m in snap.media && PayloadOf(m, snap.blobs, disk).Ok? && PayloadOf(m, snap.blobs, disk).value != []
          ==> m.id in blobs && blobs[m.id] == PayloadOf(m, snap.blobs, disk).value)
    && (forall id :: id in blobs ==> exists m :: m in snap.media && m.id == id && PayloadOf(m, snap.blobs, disk) == Ok(blobs[id]) && blobs[id] != [])
  }

  ghost predicate Canonical(r: Snapshot, snap: Snapshot, disk: map<string, seq<byte>>) {
    && r.account == snap.account && r.wxid == snap.wxid
    && ConversationsCanonical(r.conversations, snap.conversations, snap.account)
    && MessagesCanonical(r.messages, snap.messages)
    && MediaCanonical(r.media, snap, disk)
    && BlobsCanonical(r.blobs, snap, disk)
  }

  /** Every record and every payload is within the reader's cap. */
  ghost predicate RecordsFit(msgs: seq<Message>, codec: Codec) {
    forall m :: m in msgs ==> |Record(m, codec)| <= MAX_SEGMENT_BYTES
  }

  ghost predicate PayloadsFit(snap: Snapshot, disk: map<string, seq<byte>>) {
    forall m :: m in snap.media && PayloadOf(m, snap.blobs, disk).Ok? ==> |PayloadOf(m, snap.blobs, disk).value| <= MAX_SEGMENT_BYTES
  }

  // ---- Text -------------------------------------------------------------------------------------

  lemma {:induction false} FlatMember<T>(parts: seq<seq<T>>, x: T) returns (k: nat)
    requires x in Flat(parts)
    ensures k < |parts| && x in parts[k]
  {
    if x in parts[0] {
      k := 0;
    } else {
      k := FlatMember(parts[1..], x);
      k := k + 1;
    }
  }

  lemma {:induction false} PartInFlat<T>(parts: seq<seq<T>>, k: nat)
    requires k < |parts|
    ensures |parts[k]| <= |Flat(parts)| && forall x :: x in parts[k] ==> x in Flat(parts)
  {
    if k > 0 {
      PartInFlat(parts[1..], k - 1);
    }
  }

  /** A written segment is too long for the reader exactly when it holds a record that is. */
  lemma SegmentLength(files: seq<seq<byte>>, segs: seq<Segment>, parts: seq<seq<Message>>, codec: Codec, max: int, k: nat)
    requires Written(files, segs, parts, codec, max) && max <= MAX_SEGMENT_BYTES && k < |segs|
    ensures segs[k].range.length <= MAX_SEGMENT_BYTES <==> RecordsFit(parts[k], codec)
  {
    var rs, recs := RangesOf(segs), RecordParts(parts, codec);
    RangeWithinLimit(files, rs, recs, max, k);
    assert Holds(files, rs[k], recs[k], max);
    assert segs[k].range.length == |Flat(recs[k])|;
    forall m | m in parts[k] ensures |Record(m, codec)| <= segs[k].range.length {
      var i :| 0 <= i < |parts[k]| && parts[k][i] == m;
      PartInFlat(recs[k], i);
    }
    if |recs[k]| == 1 { assert parts[k][0] in parts[k]; }
  }

  lemma SegmentReads(pkg: Package, parts: seq<seq<Message>>, codec: Codec, max: int, k: nat)
    requires Written(pkg.textFiles, pkg.segments, parts, codec, max) && k < |parts|
    requires forall f :: 0 <= f < |pkg.textFiles| ==> TEXT_MAGIC <= pkg.textFiles[f]
    requires pkg.segments[k].range.length <= MAX_SEGMENT_BYTES && Faithful(codec, parts[k])
    ensures SegmentMessages(pkg, pkg.segments[k], codec) == Ok(NormalisedAll(parts[k]))
  {
    SegmentBytes(pkg.textFiles, pkg.segments, parts, codec, max, k);
    var r := pkg.segments[k].range;
    RangeReads(pkg.textFiles, r, TEXT_MAGIC);
    hide Written, ReadShardRange, Records, Within, BytesAt;
    RecordsDecode(parts[k], codec);
  }

  /** The bytes a segment indexes are the records of its messages. */
  lemma SegmentBytes(files: seq<seq<byte>>, segs: seq<Segment>, parts: seq<seq<Message>>, codec: Codec, max: int, k: nat)
    requires Written(files, segs, parts, codec, max) && k < |parts|
    ensures k < |segs| && Within(files, segs[k].range) && BytesAt(files, segs[k].range) == Records(parts[k], codec)
  {
    var rs, recs := RangesOf(segs), RecordParts(parts, codec);
    assert Holds(files, rs[k], recs[k], max);
    FlatRecords(parts[k], codec);
  }

  lemma RangeReads(files: seq<seq<byte>>, r: Range, magic: seq<byte>)
    requires Within(files, r) && magic <= files[r.file] && r.length <= MAX_SEGMENT_BYTES
    ensures ReadShardRange(files, magic, r) == Ok(BytesAt(files, r))
  {
  }

  lemma {:induction false} SegmentsRead(pkg: Package, parts: seq<seq<Message>>, codec: Codec, max: int, k: nat)
    requires Written(pkg.textFiles, pkg.segments, parts, codec, max) && k <= |parts|
    requires forall f :: 0 <= f < |pkg.textFiles| ==> TEXT_MAGIC <= pkg.textFiles[f]
    requires forall i :: 0 <= i < |parts| ==> pkg.segments[i].range.length <= MAX_SEGMENT_BYTES && Faithful(codec, parts[i])
    ensures MessagesOf(pkg, pkg.segments[k..], codec) == Ok(NormalisedAll(Flat(parts[k..])))
    decreases |parts| - k
  {
    hide Written;
    if k < |parts| {
      WrittenShape(pkg.textFiles, pkg.segments, parts, codec, max);
      SegmentReads(pkg, parts, codec, max, k);
      SegmentsRead(pkg, parts, codec, max, k + 1);
      assert pkg.segments[k..][1..] == pkg.segments[k + 1..] && parts[k..][1..] == parts[k + 1..];
      NormalisedAllConcat(parts[k], Flat(parts[k + 1..]));
    } else {
      WrittenShape(pkg.textFiles, pkg.segments, parts, codec, max);
      assert pkg.segments[k..] == [] && parts[k..] == [];
    }
  }

  lemma WrittenShape(files: seq<seq<byte>>, segs: seq<Segment>, parts: seq<seq<Message>>, codec: Codec, max: int)
    requires Written(files, segs, parts, codec, max)
    ensures |segs| == |parts|
  {
  }

  lemma {:induction false} BadSegmentFails(pkg: Package, segs: seq<Segment>, codec: Codec, k: nat)
    requires k < |segs| && SegmentMessages(pkg, segs[k], codec).Err?
    ensures MessagesOf(pkg, segs, codec).Err?
  {
    if k > 0 {
      BadSegmentFails(pkg, segs[1..], codec, k - 1);
    }
  }

  /** The messages of a written package read back, in the order they were written, exactly when every
      record is within the cap. */
  lemma TextReadsBack(pkg: Package, parts: seq<seq<Message>>, codec: Codec, max: int)
    requires Written(pkg.textFiles, pkg.segments, parts, codec, max) && max <= MAX_SEGMENT_BYTES
    requires forall f :: 0 <= f < |pkg.textFiles| ==> TEXT_MAGIC <= pkg.textFiles[f]
    requires Faithful(codec, Flat(parts))
    ensures RecordsFit(Flat(parts), codec) ==> MessagesOf(pkg, pkg.segments, codec) == Ok(NormalisedAll(Flat(parts)))
    ensures !RecordsFit(Flat(parts), codec) ==> MessagesOf(pkg, pkg.segments, codec).Err?
  {
    WrittenShape(pkg.textFiles, pkg.segments, parts, codec, max);
    hide Written;
    if RecordsFit(Flat(parts), codec) {
      forall i | 0 <= i < |parts|
        ensures pkg.segments[i].range.length <= MAX_SEGMENT_BYTES && Faithful(codec, parts[i])
      {
        PartInFlat(parts, i);
        SegmentLength(pkg.textFiles, pkg.segments, parts, codec, max, i);
      }
      SegmentsRead(pkg, parts, codec, max, 0);
      assert pkg.segments[0..] == pkg.segments && parts[0..] == parts;
    } else {
      var m :| m in Flat(parts) && |Record(m, codec)| > MAX_SEGMENT_BYTES;
      var k := FlatMember(parts, m);
      SegmentLength(pkg.textFiles, pkg.segments, parts, codec, max, k);
      BadSegmentFails(pkg, pkg.segments, codec, k);
    }
  }

  // ---- Arrangement ------------------------------------------------------------------------------

  lemma {:induction false} OfTalkerNormalised(msgs: seq<Message>, t: string)
    ensures OfTalker(NormalisedAll(msgs), t) == NormalisedAll(OfTalker(msgs, t))
  {
    if msgs == [] {
      assert NormalisedAll(msgs) == [];
    } else {
      assert NormalisedAll(msgs)[1..] == NormalisedAll(msgs[1..]);
      OfTalkerNormalised(msgs[1..], t);
      NormalisedAllConcat(if msgs[0].talker == t then [msgs[0]] else [], OfTalker(msgs[1..], t));
    }
  }

  lemma AscendingTail(s: seq<string>)
    requires Ascending(s, StrLess) && s != []
    ensures Ascending(s[1..], StrLess)
  {
    forall i, j | 0 <= i < j < |s[1..]| ensures StrLess(s[1..][i], s[1..][j]) {
      assert StrLess(s[i + 1], s[j + 1]);
    }
  }

  /** Picking a talker out of the arranged groups gives that talker's group. */
  lemma {:induction false} ArrangedOfTalker(groups: map<string, seq<Message>>, talkers: seq<string>, t: string)
    requires Ascending(talkers, StrLess)
    requires forall u :: u in talkers ==> u in groups && forall m :: m in groups[u] ==> m.talker == u
    ensures OfTalker(Arranged(groups, talkers), t) == if t in talkers then groups[t] else []
  {
    if talkers != [] {
      var u := talkers[0];
      assert u in talkers;
      assert forall v :: v in talkers[1..] ==> v in talkers;
      AscendingTail(talkers);
      ArrangedOfTalker(groups, talkers[1..], t);
      OfTalkerConcat(groups[u], Arranged(groups, talkers[1..]), t);
      OfTalkerUniform(groups[u], u, t);
      if u in talkers[1..] {
        var j :| 0 <= j < |talkers[1..]| && talkers[1..][j] == u;
        assert StrLess(talkers[0], talkers[j + 1]);
        StrLessIrreflexive(u);
      }
    }
  }

  lemma {:induction false} ArrangedAscends(groups: map<string, seq<Message>>, talkers: seq<string>)
    requires Ascending(talkers, StrLess)
    requires forall u :: u in talkers ==> u in groups && forall m :: m in groups[u] ==> m.talker == u
    ensures forall m :: m in Arranged(groups, talkers) ==> m.talker in talkers
    ensures TalkersAscend(Arranged(groups, talkers))
  {
    if talkers != [] {
      var u, rest := talkers[0], talkers[1..];
      assert u in talkers;
      assert forall v :: v in rest ==> v in talkers;
      AscendingTail(talkers);
      ArrangedAscends(groups, rest);
      var r, n := Arranged(groups, talkers), |groups[u]|;
      forall i, j | 0 <= i < j < |r| ensures !StrLess(r[j].talker, r[i].talker) {
        assert i < n ==> r[i] in groups[u];
        if j < n {
          assert r[j] in groups[u];
          StrLessIrreflexive(u);
        } else {
          assert r[j] == Arranged(groups, rest)[j - n];
          if i < n {
            assert r[j].talker in rest;
            var k :| 0 <= k < |rest| && rest[k] == r[j].talker;
            assert StrLess(talkers[0], talkers[k + 1]);
            if StrLess(r[j].talker, u) {
              StrLessTransitive(u, r[j].talker, u);
              StrLessIrreflexive(u);
            }
          } else {
            assert r[i] == Arranged(groups, rest)[i - n];
          }
        }
      }
    }
  }

  lemma GroupsOwned(groups: map<string, seq<Message>>, msgs: seq<Message>)
    requires GroupedSorted(groups, msgs)
    ensures forall u :: u in SortedStrings(groups.Keys) ==> u in groups && forall m :: m in groups[u] ==> m.talker == u
  {
    forall u | u in SortedStrings(groups.Keys) ensures u in groups && forall m :: m in groups[u] ==> m.talker == u {
      GroupMembers(groups[u], msgs, u);
    }
  }

  lemma ArrangedGroup(groups: map<string, seq<Message>>, msgs: seq<Message>, t: string)
    requires GroupedSorted(groups, msgs)
    ensures SortedThenCut(OfTalker(NormalisedAll(Arranged(groups, SortedStrings(groups.Keys))), t), OfTalker(msgs, t))
  {
    var talkers := SortedStrings(groups.Keys);
    GroupsOwned(groups, msgs);
    ArrangedOfTalker(groups, talkers, t);
    OfTalkerNormalised(Arranged(groups, talkers), t);
    if t in groups {
      assert SortedPermutation(groups[t], OfTalker(msgs, t));
    } else {
      assert forall m :: m in msgs ==> m.talker in TalkersOf(msgs);
      OfTalkerNone(msgs, t);
      NothingSorted();
    }
  }

  lemma CutKeepsTalkers(msgs: seq<Message>)
    requires TalkersAscend(msgs)
    ensures TalkersAscend(NormalisedAll(msgs))
  {
    hide StrLess;
    forall i, j | 0 <= i < j < |msgs| ensures !StrLess(NormalisedAll(msgs)[j].talker, NormalisedAll(msgs)[i].talker) {
      assert !StrLess(msgs[j].talker, msgs[i].talker);
    }
  }

  lemma ArrangedIsCanonical(groups: map<string, seq<Message>>, msgs: seq<Message>)
    requires GroupedSorted(groups, msgs)
    ensures MessagesCanonical(NormalisedAll(Arranged(groups, SortedStrings(groups.Keys))), msgs)
  {
    var talkers := SortedStrings(groups.Keys);
    GroupsOwned(groups, msgs);
    ArrangedAscends(groups, talkers);
    CutKeepsTalkers(Arranged(groups, talkers));
    hide GroupedSorted, Arranged, SortedStrings, StrLess, OfTalker, SortedThenCut, TalkersAscend, NormalisedAll, Ascending;
    forall t ensures SortedThenCut(OfTalker(NormalisedAll(Arranged(groups, talkers)), t), OfTalker(msgs, t)) {
      ArrangedGroup(groups, msgs, t);
    }
  }

  lemma NothingSorted()
    ensures SortedPermutation([], []) && NormalisedAll([]) == []
  {
  }

  lemma ArrangedMembers(groups: map<string, seq<Message>>, msgs: seq<Message>)
    requires GroupedSorted(groups, msgs)
    ensures forall m :: m in Arranged(groups, SortedStrings(groups.Keys)) <==> m in msgs
  {
    var talkers := SortedStrings(groups.Keys);
    var all := Arranged(groups, talkers);
    GroupsOwned(groups, msgs);
    hide Arranged, SortedStrings, StrLess, OfTalker, SortedPermutation;
    forall m ensures m in all <==> m in msgs {
      OfTalkerMembers(all, m.talker);
      ArrangedOfTalker(groups, talkers, m.talker);
      if m.talker in groups {
        GroupMembers(groups[m.talker], msgs, m.talker);
      } else {
        assert m in msgs ==> m.talker in TalkersOf(msgs);
      }
    }
  }

  // ---- Media ------------------------------------------------------------------------------------

  ghost predicate BlobsSoFar(blobs: map<string, seq<byte>>, items: seq<Item>) {
    && (forall it :: it in items ==> it.id in blobs && blobs[it.id] == it.payload)
    && (forall id :: id in blobs ==> Item(id, blobs[id]) in items)
  }

  lemma ItemLength(files: seq<seq<byte>>, segs: seq<FileSegment>, items: seq<Item>, max: int, k: nat)
    requires Stored(files, segs, items, max) && k < |segs|
    ensures Within(files, segs[k].range) && BytesAt(files, segs[k].range) == items[k].payload
    ensures segs[k].range.length == |items[k].payload| && segs[k].mediaId == items[k].id
  {
    assert Holds(files, FileRanges(segs)[k], ItemParts(items)[k], max);
    FlatOne(items[k].payload);
  }

  lemma BlobsStep(items: seq<Item>, k: nat, blobs: map<string, seq<byte>>)
    requires k < |items| && BlobsSoFar(blobs, items[..k])
    requires forall i, j :: 0 <= i < j < |items| ==> items[i].id != items[j].id
    ensures items[k].id !in blobs && [] + items[k].payload == items[k].payload
    ensures BlobsSoFar(blobs[items[k].id := items[k].payload], items[..k + 1])
  {
    forall it | it in items[..k] ensures it.id != items[k].id {
      var j :| 0 <= j < k && items[j] == it;
    }
    assert items[..k + 1] == items[..k] + [items[k]];
  }

  lemma {:induction false} BlobsReadFrom(pkg: Package, items: seq<Item>, max: int, k: nat, blobs: map<string, seq<byte>>)
    requires Stored(pkg.mediaFiles, pkg.fileSegments, items, max) && k <= |items|
    requires forall f :: 0 <= f < |pkg.mediaFiles| ==> MEDIA_MAGIC <= pkg.mediaFiles[f]
    requires forall i, j :: 0 <= i < j < |items| ==> items[i].id != items[j].id
    requires BlobsSoFar(blobs, items[..k])
    requires forall i :: 0 <= i < |items| ==> |items[i].payload| <= MAX_SEGMENT_BYTES
    ensures var r := BlobsOf(pkg, pkg.fileSegments[k..], blobs); r.Ok? && BlobsSoFar(r.value, items)
    decreases |items| - k
  {
    hide Indexed;
    if k < |items| {
      var seg := pkg.fileSegments[k];
      ItemLength(pkg.mediaFiles, pkg.fileSegments, items, max, k);
      assert pkg.fileSegments[k..][0] == seg && pkg.fileSegments[k..][1..] == pkg.fileSegments[k + 1..];
      BlobsStep(items, k, blobs);
      var blobs' := blobs[items[k].id := items[k].payload];
      BlobsReadFrom(pkg, items, max, k + 1, blobs');
    } else {
      assert pkg.fileSegments[k..] == [] && items[..k] == items;
    }
  }

  lemma {:induction false} BadFileSegmentFails(pkg: Package, segs: seq<FileSegment>, blobs: map<string, seq<byte>>, k: nat)
    requires k < |segs| && ReadShardRange(pkg.mediaFiles, MEDIA_MAGIC, segs[k].range).Err?
    ensures BlobsOf(pkg, segs, blobs).Err?
  {
    if k > 0 {
      var b := ReadShardRange(pkg.mediaFiles, MEDIA_MAGIC, segs[0].range);
      if b.Ok? {
        var id := segs[0].mediaId;
        BadFileSegmentFails(pkg, segs[1..], blobs[id := (if id in blobs then blobs[id] else []) + b.value], k - 1);
      }
    }
  }

  lemma MediaReadsBack(pkg: Package, snap: Snapshot, disk: map<string, seq<byte>>, max: int, items: seq<Item>)
    requires MediaState(pkg.media, pkg.fileSegments, pkg.mediaFiles, items, snap.media, snap, disk, max)
    requires forall f :: 0 <= f < |pkg.mediaFiles| ==> MEDIA_MAGIC <= pkg.mediaFiles[f]
    ensures var r := BlobsOf(pkg, pkg.fileSegments, map[]);
            && (r.Ok? <==> PayloadsFit(snap, disk))
            && (r.Ok? ==> BlobsCanonical(r.value, snap, disk) && MediaCanonical(MediaList(pkg.media, r.value), snap, disk))
  {
    hide Stored;
    if PayloadsFit(snap, disk) {
      forall i | 0 <= i < |items| ensures |items[i].payload| <= MAX_SEGMENT_BYTES {
        assert items[i] in items;
      }
      BlobsReadFrom(pkg, items, max, 0, map[]);
      assert pkg.fileSegments[0..] == pkg.fileSegments;
      var blobs := BlobsOf(pkg, pkg.fileSegments, map[]).value;
      BlobsAreCanonical(blobs, items, snap, disk);
      MediaListCanonical(pkg.media, blobs, snap, disk);
    } else {
      var m :| m in snap.media && PayloadOf(m, snap.blobs, disk).Ok? && |PayloadOf(m, snap.blobs, disk).value| > MAX_SEGMENT_BYTES;
      var it := Item(m.id, PayloadOf(m, snap.blobs, disk).value);
      assert it in items;
      var k :| 0 <= k < |items| && items[k] == it;
      StoredShape(pkg.mediaFiles, pkg.fileSegments, items, max);
      ItemLength(pkg.mediaFiles, pkg.fileSegments, items, max, k);
      BadFileSegmentFails(pkg, pkg.fileSegments, map[], k);
    }
  }

  lemma StoredShape(files: seq<seq<byte>>, segs: seq<FileSegment>, items: seq<Item>, max: int)
    requires Stored(files, segs, items, max)
    ensures |segs| == |items|
  {
  }

  lemma BlobsAreCanonical(blobs: map<string, seq<byte>>, items: seq<Item>, snap: Snapshot, disk: map<string, seq<byte>>)
    requires ItemsOf(items, snap.media, snap.blobs, disk) && BlobsSoFar(blobs, items)
    ensures BlobsCanonical(blobs, snap, disk)
  {
    forall m | m in snap.media && PayloadOf(m, snap.blobs, disk).Ok? && PayloadOf(m, snap.blobs, disk).value != []
      ensures m.id in blobs && blobs[m.id] == PayloadOf(m, snap.blobs, disk).value
    {
      assert Item(m.id, PayloadOf(m, snap.blobs, disk).value) in items;
    }
    forall id | id in blobs
      ensures exists m :: m in snap.media && m.id == id && PayloadOf(m, snap.blobs, disk) == Ok(blobs[id]) && blobs[id] != []
    {
      assert Item(id, blobs[id]) in items;
    }
  }

  lemma ShownIsCanonical(rows: map<string, MediaRow>, blobs: map<string, seq<byte>>, snap: Snapshot,
                         disk: map<string, seq<byte>>, m: MediaObject)
    requires DistinctMedia(snap.media) && MediaWritten(rows, snap.media, snap.account, snap.blobs, disk)
    requires BlobsCanonical(blobs, snap, disk) && m in snap.media
    ensures ShownMedia(m.id, rows[m.id], blobs) == CanonicalMedia(m, snap.account, PayloadOf(m, snap.blobs, disk).value)
  {
    if m.id in blobs {
      var n :| n in snap.media && n.id == m.id && PayloadOf(n, snap.blobs, disk) == Ok(blobs[m.id]) && blobs[m.id] != [];
      var i :| 0 <= i < |snap.media| && snap.media[i] == m;
      var j :| 0 <= j < |snap.media| && snap.media[j] == n;
    }
  }

  lemma MediaListed(rows: map<string, MediaRow>, blobs: map<string, seq<byte>>, d: MediaObject)
    ensures d in MediaList(rows, blobs) <==> d.id in rows && d == ShownMedia(d.id, rows[d.id], blobs)
  {
    var r, ids := MediaList(rows, blobs), SortedStrings(rows.Keys);
    if d in r {
      var i :| 0 <= i < |r| && r[i] == d;
      assert r[i] == ShownMedia(ids[i], rows[ids[i]], blobs);
    } else if d.id in rows {
      assert d.id in ids;
      var i :| 0 <= i < |ids| && ids[i] == d.id;
      assert r[i] == ShownMedia(ids[i], rows[ids[i]], blobs);
    }
  }

  lemma MediaListAscends(rows: map<string, MediaRow>, blobs: map<string, seq<byte>>)
    ensures var r := MediaList(rows, blobs); forall i, j :: 0 <= i < j < |r| ==> StrLess(r[i].id, r[j].id)
  {
    var r, ids := MediaList(rows, blobs), SortedStrings(rows.Keys);
    forall i, j | 0 <= i < j < |r| ensures StrLess(r[i].id, r[j].id) {
      assert StrLess(ids[i], ids[j]);
    }
  }

  lemma MediaListHas(rows: map<string, MediaRow>, blobs: map<string, seq<byte>>, snap: Snapshot,
                     disk: map<string, seq<byte>>, m: MediaObject)
    requires DistinctMedia(snap.media) && MediaWritten(rows, snap.media, snap.account, snap.blobs, disk)
    requires BlobsCanonical(blobs, snap, disk) && m in snap.media
    ensures PayloadOf(m, snap.blobs, disk).Ok?
    ensures CanonicalMedia(m, snap.account, PayloadOf(m, snap.blobs, disk).value) in MediaList(rows, blobs)
  {
    hide BlobsCanonical, MediaList, DistinctMedia;
    ShownIsCanonical(rows, blobs, snap, disk, m);
    MediaListed(rows, blobs, CanonicalMedia(m, snap.account, PayloadOf(m, snap.blobs, disk).value));
  }

  lemma MediaListOnly(rows: map<string, MediaRow>, blobs: map<string, seq<byte>>, snap: Snapshot,
                      disk: map<string, seq<byte>>, d: MediaObject) returns (m: MediaObject)
    requires DistinctMedia(snap.media) && MediaWritten(rows, snap.media, snap.account, snap.blobs, disk)
    requires BlobsCanonical(blobs, snap, disk) && d in MediaList(rows, blobs)
    ensures m in snap.media && PayloadOf(m, snap.blobs, disk).Ok?
    ensures d == CanonicalMedia(m, snap.account, PayloadOf(m, snap.blobs, disk).value)
  {
    hide BlobsCanonical, MediaList, DistinctMedia;
    MediaListed(rows, blobs, d);
    m :| m in snap.media && m.id == d.id;
    ShownIsCanonical(rows, blobs, snap, disk, m);
  }

  lemma MediaListComplete(rows: map<string, MediaRow>, blobs: map<string, seq<byte>>, snap: Snapshot, disk: map<string, seq<byte>>)
    requires DistinctMedia(snap.media) && MediaWritten(rows, snap.media, snap.account, snap.blobs, disk)
    requires BlobsCanonical(blobs, snap, disk)
    ensures MediaComplete(MediaList(rows, blobs), snap, disk)
  {
    hide BlobsCanonical, MediaList, DistinctMedia;
    forall m | m in snap.media
      ensures CanonicalMedia(m, snap.account, PayloadOf(m, snap.blobs, disk).value) in MediaList(rows, blobs)
    {
      MediaListHas(rows, blobs, snap, disk, m);
    }
  }

  lemma MediaListSound(rows: map<string, MediaRow>, blobs: map<string, seq<byte>>, snap: Snapshot, disk: map<string, seq<byte>>)
    requires DistinctMedia(snap.media) && MediaWritten(rows, snap.media, snap.account, snap.blobs, disk)
    requires BlobsCanonical(blobs, snap, disk)
    ensures MediaSound(MediaList(rows, blobs), snap, disk)
  {
    hide BlobsCanonical, MediaList, DistinctMedia;
    forall d | d in MediaList(rows, blobs)
      ensures exists m :: m in snap.media && d == CanonicalMedia(m, snap.account, PayloadOf(m, snap.blobs, disk).value)
    {
      var m := MediaListOnly(rows, blobs, snap, disk, d);
    }
  }

  lemma MediaListCanonical(rows: map<string, MediaRow>, blobs: map<string, seq<byte>>, snap: Snapshot, disk: map<string, seq<byte>>)
    requires DistinctMedia(snap.media) && MediaWritten(rows, snap.media, snap.account, snap.blobs, disk)
    requires BlobsCanonical(blobs, snap, disk)
    ensures MediaCanonical(MediaList(rows, blobs), snap, disk)
  {
    hide BlobsCanonical, MediaList, StrLess, DistinctMedia, MediaComplete, MediaSound;
    MediaListAscends(rows, blobs);
    MediaListComplete(rows, blobs, snap, disk);
    MediaListSound(rows, blobs, snap, disk);
  }

  lemma ConversationListed(rows: map<string, SessionRow>, account: string, i: nat)
    requires i < |rows.Keys|
    ensures var r, ids := FillAccounts(ConversationList(rows), account), SortedStrings(rows.Keys);
            && ids[i] in rows
            && r[i].talker == ids[i]
            && r[i] == ShownConversation(ids[i], rows[ids[i]]).(account := FirstNonEmpty(rows[ids[i]].account, account))
  {
    assert ConversationList(rows)[i] == ShownConversation(SortedStrings(rows.Keys)[i], rows[SortedStrings(rows.Keys)[i]]);
  }

  lemma SessionsReadBack(rows: map<string, SessionRow>, convs: seq<Conversation>, account: string)
    requires DistinctTalkers(convs) && SessionsWritten(rows, convs, account)
    ensures ConversationsCanonical(FillAccounts(ConversationList(rows), account), convs, account)
  {
    var r, ids := FillAccounts(ConversationList(rows), account), SortedStrings(rows.Keys);
    hide StrLess, SortedStrings, ConversationList, FillAccounts;
    assert |r| == |ids|;
    forall i, j | 0 <= i < j < |r| ensures StrLess(r[i].talker, r[j].talker) {
      ConversationListed(rows, account, i);
      ConversationListed(rows, account, j);
      assert StrLess(ids[i], ids[j]);
    }
    forall c | c in convs ensures CanonicalConversation(c, account) in r {
      EachSessionReadBack(rows, convs, account, c);
    }
    forall d | d in r ensures exists c :: c in convs && d == CanonicalConversation(c, account) {
      var i :| 0 <= i < |r| && r[i] == d;
      OneSessionReadBack(rows, convs, account, i);
    }
  }

  lemma EachSessionReadBack(rows: map<string, SessionRow>, convs: seq<Conversation>, account: string, c: Conversation)
    requires DistinctTalkers(convs) && SessionsWritten(rows, convs, account) && c in convs
    ensures CanonicalConversation(c, account) in FillAccounts(ConversationList(rows), account)
  {
    var r, ids := FillAccounts(ConversationList(rows), account), SortedStrings(rows.Keys);
    hide StrLess, SortedStrings, ConversationList, FillAccounts;
    assert c.talker in ids;
    var i :| 0 <= i < |ids| && ids[i] == c.talker;
    ConversationListed(rows, account, i);
    assert r[i] == CanonicalConversation(c, account);
  }

  lemma OneSessionReadBack(rows: map<string, SessionRow>, convs: seq<Conversation>, account: string, i: nat)
    requires DistinctTalkers(convs) && SessionsWritten(rows, convs, account) && i < |FillAccounts(ConversationList(rows), account)|
    ensures exists c :: c in convs && FillAccounts(ConversationList(rows), account)[i] == CanonicalConversation(c, account)
  {
    var r, ids := FillAccounts(ConversationList(rows), account), SortedStrings(rows.Keys);
    hide StrLess, SortedStrings, ConversationList, FillAccounts;
    ConversationListed(rows, account, i);
    var c :| c in convs && c.talker == ids[i];
    assert r[i] == CanonicalConversation(c, account);
  }

  // ---- The theorems -----------------------------------------------------------------------------

  /** Reading a written package succeeds exactly when every record and every payload is within the cap,
      and then gives the canonical form of the snapshot that was written. */
  lemma ReadAfterWrite(pkg: Package, snap: Snapshot, disk: map<string, seq<byte>>, codec: Codec, max: int,
                       groups: map<string, seq<Message>>, parts: seq<seq<Message>>, items: seq<Item>)
    requires Packed(pkg, snap, disk, codec, max, groups, parts, items)
    requires max <= MAX_SEGMENT_BYTES && Faithful(codec, snap.messages)
    ensures Opened(pkg, codec).error.None? <==> RecordsFit(snap.messages, codec) && PayloadsFit(snap, disk)
    ensures Opened(pkg, codec).error.None? ==> Canonical(Opened(pkg, codec).snapshot, snap, disk)
  {
    hide Written, MediaState, SessionsWritten, GroupedSorted, Arranged, Flat, MessagesOf, BlobsOf, MediaList,
      ConversationList, FillAccounts, DistinctTalkers, ConversationsCanonical, MessagesCanonical, MediaCanonical,
      BlobsCanonical, PayloadsFit;
    ArrangedMembers(groups, snap.messages);
    TextReadsBack(pkg, parts, codec, max);
    ArrangedIsCanonical(groups, snap.messages);
    MediaReadsBack(pkg, snap, disk, max, items);
    SessionsReadBack(pkg.sessions, snap.conversations, snap.account);
  }

  /** Writing a snapshot into the incoming directory and reading it back, as every backup job does
      before it ingests. */
  method Materialise(snap: Snapshot, disk: map<string, seq<byte>>, codec: Codec) returns (r: Result<Snapshot>)
    requires Faithful(codec, snap.messages)
    ensures r.Ok? <==> Writable(snap, disk) && RecordsFit(snap.messages, codec) && PayloadsFit(snap, disk)
    ensures r.Ok? ==> Canonical(r.value, snap, disk)
  {
    hide Packed, Opened, Canonical, RecordsFit, PayloadsFit, Writable;
    var written, groups, parts, items := WritePackage(snap, disk, codec, DEFAULT_MAX_SHARD);
    if written.Err? {
      return Err(written.error);
    }
    ReadAfterWrite(written.value, snap, disk, codec, DEFAULT_MAX_SHARD, groups, parts, items);
    var o := Read(Index(written.value), codec);
    match o.error {
      case None => return Ok(o.snapshot);
      case Some(e) => return Err(e);
    }
  }

  /** Whether the documentation's promise holds for this package: when a session key is needed, no messages
      and no media bytes are returned. */
  predicate KeyErrorIsBare(o: Outcome) {
    o.error == Some(NeedsKey) ==> o.snapshot.messages == [] && o.snapshot.blobs == map[]
  }

  /** The promise holds for a package exactly unless its text decodes to some message and then a media shard
      needs the key; the messages are returned beside the error in that case. */
  lemma KeyErrorIsBareIff(pkg: Package, codec: Codec)
    ensures KeyErrorIsBare(Opened(pkg, codec)) <==>
              !(&& pkg.format == INTERCHANGE_FORMAT
                && MessagesOf(pkg, pkg.segments, codec).Ok? && MessagesOf(pkg, pkg.segments, codec).value != []
                && BlobsOf(pkg, pkg.fileSegments, map[]) == Err(NeedsKey))
    ensures !KeyErrorIsBare(Opened(pkg, codec)) ==>
              Opened(pkg, codec).snapshot.messages == MessagesOf(pkg, pkg.segments, codec).value
  {
    hide MessagesOf, BlobsOf, MediaList, ConversationList, FillAccounts;
  }

  /** Such a package exists: one message, and a media shard whose magic is not ours. */
  lemma BadMediaWithMessages(codec: Codec, m: Message) returns (pkg: Package)
    requires Faithful(codec, [m]) && |Record(m, codec)| <= MAX_SEGMENT_BYTES
    ensures Opened(pkg, codec).error == Some(NeedsKey)
    ensures Opened(pkg, codec).snapshot.messages == [Normalised(m)] && !KeyErrorIsBare(Opened(pkg, codec))
  {
    var rec := Record(m, codec);
    var seg := Segment(m.talker, Range(0, 4, |rec|), 1);
    pkg := Package(INTERCHANGE_FORMAT, "", "", map[], [seg], map[], [FileSegment("x", Range(0, 4, 1))],
                   [TEXT_MAGIC + rec], [[0, 0, 0, 0, 0]]);
    assert (TEXT_MAGIC + rec)[4..4 + |rec|] == rec;
    RecordsOne(m, codec);
    RecordsDecode([m], codec);
    assert NormalisedAll([m]) == [Normalised(m)];
    assert MessagesOf(pkg, [seg][1..], codec) == Ok([]);
    assert [Normalised(m)] + [] == [Normalised(m)];
    assert MEDIA_MAGIC[0] != 0;
    assert !(MEDIA_MAGIC <= pkg.mediaFiles[0]);
  }
}
