/** A whole backup of one account, as the job's goroutine makes it: transfer, package, ingest. */
module Backup {
  import opened Domain
  import opened Order
  import opened Frames
  import opened Package
  import opened RoundTrip
  import opened Store
  import opened Ingest
  import opened IngestLaws
  import opened Chunks
  import opened ChunkLaws
  import opened Recovery
  import opened Passage

  lemma {:induction false} PastStaysDistinct(msgs: seq<Message>, cur: Cursor)
    ensures DistinctIds(msgs) ==> DistinctIds(Past(msgs, cur))
  {
    if msgs != [] {
      var m, rest := msgs[0], msgs[1..];
      PastStaysDistinct(rest, cur);
      PastMembers(rest, cur);
      if DistinctIds(msgs) {
        DistinctTail(msgs);
        hide DistinctIds, AtOrBefore;
        OneMoreId(m, Past(rest, cur));
      }
    }
  }

  lemma DistinctTail(msgs: seq<Message>)
    requires DistinctIds(msgs) && msgs != []
    ensures DistinctIds(msgs[1..]) && forall n :: n in msgs[1..] ==> n.id != msgs[0].id
  {
  }

  lemma OneMoreId(m: Message, rest: seq<Message>)
    requires DistinctIds(rest) && forall n :: n in rest ==> n.id != m.id
    ensures DistinctIds([m] + rest) && DistinctIds([] + rest)
  {
    assert [] + rest == rest;
  }

  /** A delivery has no id twice for a talker if its source has none. */
  lemma DeliveredDistinct(source: Snapshot, account: string, wxid: string, mode: Mode, cursors: map<string, CursorRow>)
    requires "" !in cursors && DistinctPerTalker(source.messages)
    ensures DistinctPerTalker(Delivered(source, account, wxid, mode, cursors).messages)
  {
    var d := Delivered(source, account, wxid, mode, cursors);
    hide Delivered, DistinctIds, OfTalker, Past, AtOrBefore, Dropped, KeptConversations;
    forall u ensures DistinctIds(OfTalker(d.messages, u)) {
      DeliveredTalker(source, account, wxid, mode, cursors, u);
      assert DistinctIds(OfTalker(source.messages, u));
      if u == "" {
        NoIds();
      } else if !mode.Full? && u in cursors {
        PastStaysDistinct(OfTalker(source.messages, u), CursorAt("", u, cursors[u]));
      }
    }
  }

  lemma NoIds()
    ensures DistinctIds([])
  {
  }

  predicate Nothing(d: Snapshot) {
    d.messages == [] && d.conversations == [] && d.media == []
  }

  /** An empty delivery goes to the ingest as it is, and leaves the tables alone. */
  lemma NothingToCut(before: Tables, after: Tables, account: string, mode: Mode, d: Snapshot, k: nat)
    requires Nothing(d)
    ensures TalkersIn(d) == TalkersIn(Cut(d))
    ensures Ingested(before, after, account, mode, d, Committed(d, k)) <==> Ingested(before, after, account, mode, Cut(d), Committed(Cut(d), k))
  {
    assert TalkersIn(d) == {} && TalkersIn(Cut(d)) == {};
    hide View, IngestState, BatchOf, ConversationIn;
  }

  /** The backup of a source in any mode, of which as many talkers commit as the budget allows. Something
      delivered must fit into a package and out of it again; if it does, the account's tables become what
      the ingest makes of the delivery with its times cut. */
  method Run(db: AccountDb, source: Snapshot, wxid: string, mode: Mode, disk: map<string, seq<byte>>, codec: Codec, budget: nat)
    returns (r: Result<bool>)
    requires "" !in db.cursors && DistinctPerTalker(source.messages)
    requires Faithful(codec, Delivered(source, db.account, wxid, mode, db.cursors).messages)
    modifies db
    ensures var d := Delivered(source, db.account, wxid, mode, old(db.cursors));
            r.Ok? <==> || (d.messages == [] && d.conversations == [] && d.media == [])
                       || (Writable(d, disk) && RecordsFit(d.messages, codec) && PayloadsFit(d, disk))
    ensures r.Ok? ==>
              var sent := Sent(source, db.account, wxid, mode, old(db.cursors));
              && r.value == (|SortedStrings(TalkersIn(sent))| <= budget)
              && Ingested(old(db.Contents()), db.Contents(), db.account, mode, sent, Committed(sent, budget))
    ensures r.Err? ==> db.Contents() == old(db.Contents())
  {
    hide Writable, RecordsFit, PayloadsFit, Ingested, Committed, Delivered, DistinctPerTalker, TalkersIn, SortedStrings, Cut, Faithful, OfTalker, ConvsOf,
      ConversationsCanonical, MessagesCanonical, MediaCanonical, BlobsCanonical;
    ghost var before := db.Contents();
    DeliveredDistinct(source, db.account, wxid, mode, db.cursors);
    DeliveredTalker(source, db.account, wxid, mode, db.cursors, "");
    var d := Transfer(source, db.account, wxid, mode, db.cursors);
    if d.messages == [] && d.conversations == [] && d.media == [] {
      r := IngestSnapshot(db, wxid, mode, d, budget);
      NothingToCut(before, db.Contents(), db.account, mode, d, budget);
    } else {
      var got := Materialise(d, disk, codec);
      if got.Err? {
        return Err(got.error);
      }
      r := IngestSnapshot(db, wxid, mode, got.value, budget);
      SameTalkers(got.value, d, disk);
      PackageIsTransparent(before, db.Contents(), db.account, mode, d, got.value, disk, budget);
    }
  }
}
