/** What a package in between changes for the ingest: nothing, beyond cutting times to the millisecond. */
module Passage {
  import opened Domain
  import opened Order
  import opened Frames
  import opened Package
  import opened RoundTrip
  import opened Store
  import opened Ingest
  import opened IngestLaws
  import opened Recovery

  // ---- Conversations ----------------------------------------------------------------------------

  lemma {:induction false} OnlyConversation(convs: seq<Conversation>, c: Conversation)
    requires DistinctTalkers(convs) && c in convs
    ensures ConvsOf(convs, c.talker) == [c]
  {
    var rest := convs[1..];
    FirstTalkerAlone(convs);
    if c == convs[0] {
      ConvMembers(rest, c.talker);
    } else {
      var j :| 0 <= j < |convs| && convs[j] == c;
      assert rest[j - 1] == c;
      assert convs[0].talker != convs[j].talker;
      OnlyConversation(rest, c);
    }
  }

  lemma FirstTalkerAlone(convs: seq<Conversation>)
    requires DistinctTalkers(convs) && convs != []
    ensures forall d :: d in convs[1..] ==> d.talker != convs[0].talker
    ensures DistinctTalkers(convs[1..])
  {
    var rest := convs[1..];
    forall i, j | 0 <= i < j < |rest| ensures rest[i].talker != rest[j].talker {
      assert convs[i + 1].talker != convs[j + 1].talker;
    }
    forall d | d in convs[1..] ensures d.talker != convs[0].talker {
      var j :| 0 <= j < |convs[1..]| && convs[1..][j] == d;
      assert convs[0].talker != convs[j + 1].talker;
    }
  }

  lemma AscendingIsDistinct(r: seq<Conversation>)
    requires forall i, j :: 0 <= i < j < |r| ==> StrLess(r[i].talker, r[j].talker)
    ensures DistinctTalkers(r)
  {
    forall i, j | 0 <= i < j < |r| ensures r[i].talker != r[j].talker {
      StrLessIrreflexive(r[i].talker);
    }
  }

  lemma CutMember(convs: seq<Conversation>, c: Conversation)
    requires DistinctTalkers(convs) && c in convs
    ensures DistinctTalkers(CutConversations(convs))
    ensures c.(lastMsgTime := FromMillis(ToMillis(c.lastMsgTime))) in CutConversations(convs)
  {
    var i :| 0 <= i < |convs| && convs[i] == c;
    assert CutConversations(convs)[i] in CutConversations(convs);
  }

  lemma CutFrom(convs: seq<Conversation>, d: Conversation) returns (c: Conversation)
    requires d in CutConversations(convs)
    ensures c in convs && d == c.(lastMsgTime := FromMillis(ToMillis(c.lastMsgTime)))
  {
    var i :| 0 <= i < |convs| && CutConversations(convs)[i] == d;
    c := convs[i];
  }

  /** The ingest sees the same conversation for every talker. */
  lemma SameConversation(r: seq<Conversation>, convs: seq<Conversation>, name: string, u: string, account: string)
    requires DistinctTalkers(convs) && ConversationsCanonical(r, convs, name)
    ensures (ConvsOf(r, u) == []) == (ConvsOf(CutConversations(convs), u) == [])
    ensures ConversationIn(r, u, account) == ConversationIn(CutConversations(convs), u, account)
  {
    AscendingIsDistinct(r);
    hide StrLess, ConvsOf, DistinctTalkers;
    ConvMembers(r, u);
    ConvMembers(CutConversations(convs), u);
    if c :| c in convs && c.talker == u {
      CutMember(convs, c);
      OnlyConversation(CutConversations(convs), c.(lastMsgTime := FromMillis(ToMillis(c.lastMsgTime))));
      OnlyConversation(r, CanonicalConversation(c, name));
    } else {
      forall d | d in CutConversations(convs) ensures d.talker != u { var c := CutFrom(convs, d); }
      forall d | d in r ensures d.talker != u { var c :| c in convs && d == CanonicalConversation(c, name); }
    }
  }

  // ---- Messages ---------------------------------------------------------------------------------

  /** Each talker has the same messages, cut, in a package as in the snapshot. */
  lemma SameMessages(r: seq<Message>, msgs: seq<Message>, u: string)
    requires SortedThenCut(OfTalker(r, u), OfTalker(msgs, u))
    ensures forall n :: n in OfTalker(r, u) <==> n in OfTalker(NormalisedAll(msgs), u)
    ensures DistinctIds(OfTalker(msgs, u)) ==> DistinctIds(OfTalker(r, u)) && DistinctIds(OfTalker(NormalisedAll(msgs), u))
  {
    var own := OfTalker(msgs, u);
    var g :| SortedPermutation(g, own) && OfTalker(r, u) == NormalisedAll(g);
    OfTalkerNormalised(msgs, u);
    hide OfTalker, NormalisedAll, Sorted, Normalised;
    forall n ensures n in NormalisedAll(g) <==> n in NormalisedAll(own) {
      NormalisedMember(g, n);
      NormalisedMember(own, n);
      assert forall m :: m in g <==> m in multiset(g);
      assert forall m :: m in own <==> m in multiset(own);
    }
    if DistinctIds(own) {
      PermutedDistinct(own, g);
      CutDistinct(own);
      CutDistinct(g);
    }
  }

  lemma FirstIdAlone(msgs: seq<Message>)
    requires DistinctIds(msgs) && msgs != []
    ensures forall m :: m in msgs[1..] ==> m.id != msgs[0].id
  {
    forall m | m in msgs[1..] ensures m.id != msgs[0].id {
      var j :| 0 <= j < |msgs[1..]| && msgs[1..][j] == m;
      assert msgs[0].id != msgs[j + 1].id;
    }
  }

  lemma {:induction false} CountedOnce(msgs: seq<Message>, m: Message)
    requires DistinctIds(msgs)
    ensures multiset(msgs)[m] <= 1
  {
    if msgs != [] {
      var rest := msgs[1..];
      assert msgs == [msgs[0]] + rest;
      assert DistinctIds(rest) by {
        forall i, j | 0 <= i < j < |rest| ensures rest[i].id != rest[j].id { assert msgs[i + 1].id != msgs[j + 1].id; }
      }
      CountedOnce(rest, m);
      FirstIdAlone(msgs);
    }
  }

  lemma PermutedDistinct(a: seq<Message>, b: seq<Message>)
    requires DistinctIds(a) && multiset(a) == multiset(b)
    ensures DistinctIds(b)
  {
    forall i, j | 0 <= i < j < |b| ensures b[i].id != b[j].id {
      assert b[i] in multiset(a) && b[j] in multiset(a);
      var k :| 0 <= k < |a| && a[k] == b[i];
      var l :| 0 <= l < |a| && a[l] == b[j];
      CountedOnce(a, b[i]);
      CountedTwice(b, i, j);
    }
  }

  lemma CountedTwice(b: seq<Message>, i: nat, j: nat)
    requires i < j < |b|
    ensures b[i] == b[j] ==> multiset(b)[b[i]] >= 2
  {
    assert b == b[..j] + b[j..] && b[..j][i] == b[i] && b[j..][0] == b[j];
    assert multiset(b) == multiset(b[..j]) + multiset(b[j..]);
  }

  lemma OneMoreDistinct(m: Message, rest: seq<Message>)
    requires DistinctIds(rest) && forall n :: n in rest ==> n.id != m.id
    ensures DistinctIds([m] + rest)
  {
    forall i, j | 0 <= i < j < |rest| + 1 ensures ([m] + rest)[i].id != ([m] + rest)[j].id {
      assert rest[j - 1] in rest;
    }
  }

  lemma BatchIdsOwn(msgs: seq<Message>, u: string, account: string, n: Message) returns (m: Message)
    requires n in BatchOf(msgs, u, account)
    ensures m in OfTalker(msgs, u) && m.id == n.id
  {
    BatchMember(msgs, u, account, n);
    m :| m in msgs && m.talker == u && Ingestible(m) && n == m.(account := account);
    OfTalkerMembers(msgs, u);
  }

  lemma {:induction false} BoundDistinct(msgs: seq<Message>, u: string, account: string)
    requires DistinctIds(OfTalker(msgs, u))
    ensures DistinctIds(BatchOf(msgs, u, account))
  {
    if msgs != [] {
      var own, rest := OfTalker(msgs[1..], u), BatchOf(msgs[1..], u, account);
      hide DistinctIds;
      assert [] + rest == rest && [] + own == own;
      if msgs[0].talker == u {
        assert OfTalker(msgs, u) == [msgs[0]] + own && ([msgs[0]] + own)[1..] == own;
        DistinctTail([msgs[0]], own, own);
        FirstIdAlone(OfTalker(msgs, u));
        BoundDistinct(msgs[1..], u, account);
        forall n | n in rest ensures n.id != msgs[0].id { var m := BatchIdsOwn(msgs[1..], u, account, n); }
        OneMoreDistinct(msgs[0].(account := account), rest);
      } else {
        BoundDistinct(msgs[1..], u, account);
      }
    }
  }

  /** The ingest sees the same set of messages for every talker. */
  lemma SameBatch(r: seq<Message>, msgs: seq<Message>, u: string, account: string)
    requires SortedThenCut(OfTalker(r, u), OfTalker(msgs, u)) && DistinctIds(OfTalker(msgs, u))
    ensures var a, b := BatchOf(r, u, account), BatchOf(NormalisedAll(msgs), u, account);
            DistinctIds(a) && DistinctIds(b) && forall n :: n in a <==> n in b
  {
    SameMessages(r, msgs, u);
    BoundDistinct(r, u, account);
    BoundDistinct(NormalisedAll(msgs), u, account);
    hide OfTalker, NormalisedAll, BatchOf, SortedThenCut, DistinctIds;
    forall n ensures n in BatchOf(r, u, account) <==> n in BatchOf(NormalisedAll(msgs), u, account) {
      BatchMember(r, u, account, n);
      BatchMember(NormalisedAll(msgs), u, account, n);
      OfTalkerMembers(r, u);
      OfTalkerMembers(NormalisedAll(msgs), u);
    }
  }

  // ---- The ingest -------------------------------------------------------------------------------

  /** No talker of the snapshot has two messages with one id. */
  ghost predicate DistinctPerTalker(msgs: seq<Message>) {
    forall u :: DistinctIds(OfTalker(msgs, u))
  }

  lemma SameTalkers(r: Snapshot, snap: Snapshot, disk: map<string, seq<byte>>)
    requires Canonical(r, snap, disk) && Writable(snap, disk) && DistinctPerTalker(snap.messages)
    ensures TalkersIn(r) == TalkersIn(Cut(snap))
  {
    hide Writable, MediaCanonical, BlobsCanonical, TalkersIn, BatchOf, ConvsOf, NormalisedAll, SortedThenCut;
    forall u ensures u in TalkersIn(r) <==> u in TalkersIn(Cut(snap)) {
      SameOneTalker(r, snap, disk, u, "");
    }
  }

  lemma SameOneTalker(r: Snapshot, snap: Snapshot, disk: map<string, seq<byte>>, u: string, account: string)
    requires Canonical(r, snap, disk) && Writable(snap, disk) && DistinctPerTalker(snap.messages)
    ensures u in TalkersIn(r) <==> u in TalkersIn(Cut(snap))
    ensures ConversationIn(r.conversations, u, account) == ConversationIn(Cut(snap).conversations, u, account)
    ensures var a, b := BatchOf(r.messages, u, account), BatchOf(Cut(snap).messages, u, account);
            DistinctIds(a) && DistinctIds(b) && forall n :: n in a <==> n in b
  {
    assert DistinctTalkers(snap.conversations);
    assert MessagesCanonical(r.messages, snap.messages);
    assert DistinctIds(OfTalker(snap.messages, u));
    assert SortedThenCut(OfTalker(r.messages, u), OfTalker(snap.messages, u));
    hide Writable, MediaCanonical, BlobsCanonical, TalkersIn, BatchOf, ConvsOf, NormalisedAll, SortedThenCut,
      CutConversations, DistinctIds, ConversationIn, ConversationsCanonical, DistinctPerTalker, OfTalker, DistinctTalkers;
    SameConversation(r.conversations, snap.conversations, snap.account, u, account);
    SameBatch(r.messages, snap.messages, u, account);
    TalkerIn(r, account, u);
    TalkerIn(Cut(snap), account, u);
    var a, b := BatchOf(r.messages, u, account), BatchOf(Cut(snap).messages, u, account);
    assert a != [] ==> a[0] in a;
    assert b != [] ==> b[0] in b;
  }

  lemma SameState(ts: TalkerState, mode: Mode, c: Conversation, a: seq<Message>, b: seq<Message>)
    requires DistinctIds(a) && DistinctIds(b) && forall n :: n in a <==> n in b
    ensures IngestState(ts, mode, c, a) == IngestState(ts, mode, c, b)
  {
    hide Apply, DistinctIds;
    OrderDoesNotMatter(ts.rows, mode, CurrentCursor(c.account, c.talker, ts.cursor), a, b);
  }

  /** Ingesting what a package gives back, in any mode and with any number of talkers committed, is
      ingesting the snapshot itself with its times cut: neither the shards, nor the sort, nor the order of
      talkers shows in the tables. */
  lemma PackageIsTransparent(before: Tables, after: Tables, account: string, mode: Mode, snap: Snapshot, r: Snapshot,
                             disk: map<string, seq<byte>>, k: nat)
    requires Canonical(r, snap, disk) && Writable(snap, disk) && DistinctPerTalker(snap.messages)
    ensures Ingested(before, after, account, mode, r, Committed(r, k))
            <==> Ingested(before, after, account, mode, Cut(snap), Committed(Cut(snap), k))
  {
    SameTalkers(r, snap, disk);
    hide Canonical, Writable, DistinctPerTalker, View, IngestState, BatchOf, ConversationIn, TalkersIn, SortedStrings, DistinctIds, Cut;
    forall u
      ensures IngestState(View(before, u), mode, ConversationIn(r.conversations, u, account), BatchOf(r.messages, u, account))
           == IngestState(View(before, u), mode, ConversationIn(Cut(snap).conversations, u, account), BatchOf(Cut(snap).messages, u, account))
    {
      SameOneTalker(r, snap, disk, u, account);
      SameState(View(before, u), mode, ConversationIn(r.conversations, u, account),
                BatchOf(r.messages, u, account), BatchOf(Cut(snap).messages, u, account));
    }
  }
}
