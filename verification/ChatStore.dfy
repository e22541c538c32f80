/** The web client's chat store: routes, responses that come back in any order, and what is shown. */
module ChatStore {
  import opened Order

  datatype Conv = Conv(account: string, talker: string)
  datatype Msg = Msg(account: string, talker: string, id: string)

  datatype Route = Route(account: string, talker: string)

  datatype Response<T> = Loaded(list: seq<T>) | Broke(message: string)

  /** The store's fields, and its calls that are suspended at an await: routes waiting for their
      conversation list, routes about to go on after it, and message loads waiting for theirs. */
  datatype State = State(
    accountId: string, conversations: seq<Conv>, talkerId: string, messages: seq<Msg>,
    loadingConv: bool, loadingMsg: bool, error: string, convGen: nat, msgGen: nat,
    waiting: map<nat, Route>, resuming: map<nat, Route>, loads: map<nat, Route>)

  const START := State("", [], "", [], false, false, "", 0, 0, map[], map[], map[])

  // ---- What each piece of code between two awaits does ------------------------------------------

  function LoadConversations(s: State, r: Route): State {
    var gen := s.convGen + 1;
    s.(convGen := gen, accountId := r.account, loadingConv := true, error := "", waiting := s.waiting[gen := r])
  }

  function LoadMessages(s: State, r: Route): State {
    if r.account != s.accountId then s
    else
      var gen := s.msgGen + 1;
      var t := s.(msgGen := gen, talkerId := r.talker);
      if r.account == "" || r.talker == "" then t.(messages := [], loadingMsg := false)
      else t.(loadingMsg := true, error := "", loads := s.loads[gen := r])
  }

  function SyncRoute(s: State, r: Route): State {
    if r.account != s.accountId then LoadConversations(s, r) else LoadMessages(s, r)
  }

  function ConversationsArrive(s: State, gen: nat, resp: Response<Conv>): State {
    if gen !in s.waiting then s
    else
      var t := s.(waiting := s.waiting - {gen}, resuming := s.resuming[gen := s.waiting[gen]]);
      if gen != s.convGen then t
      else
        match resp
        case Loaded(list) => t.(conversations := list, loadingConv := false)
        case Broke(message) => t.(conversations := [], error := message, loadingConv := false)
  }

  function Resume(s: State, gen: nat): State {
    if gen !in s.resuming then s
    else
      var r := s.resuming[gen];
      var t := s.(resuming := s.resuming - {gen});
      if s.accountId != r.account then t else LoadMessages(t, r)
  }

  function MessagesArrive(s: State, gen: nat, resp: Response<Msg>): State {
    if gen !in s.loads then s
    else
      var t := s.(loads := s.loads - {gen}, loadingMsg := s.loadingMsg && gen != s.msgGen);
      if gen != s.msgGen || s.accountId != s.loads[gen].account then t
      else
        match resp
        case Loaded(list) => t.(messages := Reversed(list))
        case Broke(message) => t.(messages := [], error := message)
  }

  datatype Step =
    | Navigate(route: Route)
    | Conversations(gen: nat, convs: Response<Conv>)
    | GoOn(gen: nat)
    | Messages(gen: nat, msgs: Response<Msg>)

  function Do(s: State, step: Step): State {
    match step
    case Navigate(r) => SyncRoute(s, r)
    case Conversations(gen, resp) => ConversationsArrive(s, gen, resp)
    case GoOn(gen) => Resume(s, gen)
    case Messages(gen, resp) => MessagesArrive(s, gen, resp)
  }

  function After(s: State, steps: seq<Step>): State
    decreases |steps|
  {
    if steps == [] then s else After(Do(s, steps[0]), steps[1..])
  }

  // ---- What the server answers ------------------------------------------------------------------

  ghost predicate OfAccount(list: seq<Conv>, account: string) {
    forall c :: c in list ==> c.account == account
  }

  ghost predicate OfPair(list: seq<Msg>, account: string, talker: string) {
    forall m :: m in list ==> m.account == account && m.talker == talker
  }

  /** A response holds what its request asked for. */
  ghost predicate Honest(s: State, step: Step) {
    && (step.Conversations? && step.convs.Loaded? && step.gen in s.waiting ==>
          OfAccount(step.convs.list, s.waiting[step.gen].account))
    && (step.Messages? && step.msgs.Loaded? && step.gen in s.loads ==>
          OfPair(step.msgs.list, s.loads[step.gen].account, s.loads[step.gen].talker))
  }

  ghost predicate AllHonest(s: State, steps: seq<Step>)
    decreases |steps|
  {
    steps == [] || (Honest(s, steps[0]) && AllHonest(Do(s, steps[0]), steps[1..]))
  }

  // ---- The invariant ----------------------------------------------------------------------------

  predicate Numbered(s: State) {
    && (forall gen :: gen in s.waiting ==> gen <= s.convGen)
    && (forall gen :: gen in s.resuming ==> gen <= s.convGen && gen !in s.waiting)
    && (forall gen :: gen in s.loads ==> gen <= s.msgGen)
    && (s.convGen in s.waiting ==> s.waiting[s.convGen].account == s.accountId)
    && (s.convGen in s.resuming ==> s.resuming[s.convGen].account == s.accountId)
    && (s.msgGen in s.loads ==> s.loads[s.msgGen].talker == s.talkerId)
  }

  /** A loading flag is up exactly while the newest request of its kind is unanswered. */
  predicate FlagsRight(s: State) {
    && (s.loadingConv <==> s.convGen in s.waiting)
    && (s.loadingMsg <==> s.msgGen in s.loads)
  }

  ghost predicate ConversationsRight(s: State) {
    !s.loadingConv ==> OfAccount(s.conversations, s.accountId)
  }

  /** A new message list for the current account is still to come. */
  predicate Owed(s: State) {
    || s.convGen in s.waiting
    || s.convGen in s.resuming
    || (s.msgGen in s.loads && s.loads[s.msgGen].account == s.accountId)
  }

  ghost predicate MessagesRight(s: State) {
    Owed(s) || OfPair(s.messages, s.accountId, s.talkerId)
  }

  ghost predicate Valid(s: State) {
    Numbered(s) && FlagsRight(s) && ConversationsRight(s) && MessagesRight(s)
  }

  lemma LoadMessagesKeepsValid(s: State, r: Route)
    requires Numbered(s) && FlagsRight(s) && ConversationsRight(s)
    ensures var t := LoadMessages(s, r); Numbered(t) && FlagsRight(t) && ConversationsRight(t)
    ensures r.account == s.accountId ==> MessagesRight(LoadMessages(s, r))
  {
  }

  lemma ReversedOfPair(list: seq<Msg>, account: string, talker: string)
    requires OfPair(list, account, talker)
    ensures OfPair(Reversed(list), account, talker)
  {
    forall m | m in Reversed(list) ensures m.account == account && m.talker == talker {
      var i :| 0 <= i < |list| && Reversed(list)[i] == m;
      assert list[|list| - 1 - i] in list;
    }
  }

  lemma NavigateKeepsValid(s: State, r: Route)
    requires Valid(s)
    ensures Valid(SyncRoute(s, r))
  {
    if r.account == s.accountId {
      LoadMessagesKeepsValid(s, r);
      hide Numbered, FlagsRight, ConversationsRight, MessagesRight, LoadMessages;
    }
  }

  lemma ArriveKeepsValid(s: State, gen: nat, resp: Response<Conv>)
    requires Valid(s) && Honest(s, Conversations(gen, resp))
    ensures Valid(ConversationsArrive(s, gen, resp))
  {
    hide OfPair;
  }

  lemma ResumeKeepsValid(s: State, gen: nat)
    requires Valid(s)
    ensures Valid(Resume(s, gen))
  {
    if gen in s.resuming {
      var r, t := s.resuming[gen], s.(resuming := s.resuming - {gen});
      if s.accountId == r.account {
        LoadMessagesKeepsValid(t, r);
        hide LoadMessages, Numbered, FlagsRight, ConversationsRight, MessagesRight;
      } else {
        hide LoadMessages, OfPair, OfAccount;
      }
    }
  }

  lemma MessagesKeepValid(s: State, gen: nat, resp: Response<Msg>)
    requires Valid(s) && Honest(s, Messages(gen, resp))
    ensures Valid(MessagesArrive(s, gen, resp))
  {
    if resp.Loaded? && gen in s.loads {
      ReversedOfPair(resp.list, s.loads[gen].account, s.loads[gen].talker);
    }
    hide OfAccount;
  }

  lemma StepKeepsValid(s: State, step: Step)
    requires Valid(s) && Honest(s, step)
    ensures Valid(Do(s, step))
  {
    hide Valid, SyncRoute, ConversationsArrive, Resume, MessagesArrive;
    match step
    case Navigate(r) => NavigateKeepsValid(s, r);
    case Conversations(gen, resp) => ArriveKeepsValid(s, gen, resp);
    case GoOn(gen) => ResumeKeepsValid(s, gen);
    case Messages(gen, resp) => MessagesKeepValid(s, gen, resp);
  }

  /** In every interleaving of route changes and responses: a loading flag is up exactly while the newest
      request is unanswered, the conversation list is the current account's whenever none is loading, and
      the messages are the current pair's unless new ones are on their way. */
  lemma {:induction false} AlwaysValid(s: State, steps: seq<Step>)
    requires Valid(s) && AllHonest(s, steps)
    ensures Valid(After(s, steps))
    decreases |steps|
  {
    if steps != [] {
      StepKeepsValid(s, steps[0]);
      AlwaysValid(Do(s, steps[0]), steps[1..]);
    }
  }

  lemma StartIsValid()
    ensures Valid(START)
  {
  }

  /** A message list is only ever stored for the pair that is current at that step. */
  lemma StoredForCurrentPair(s: State, gen: nat, resp: Response<Msg>)
    requires Valid(s) && Honest(s, Messages(gen, resp))
    ensures var t := MessagesArrive(s, gen, resp);
            t.messages != s.messages ==>
              gen in s.loads && s.loads[gen] == Route(s.accountId, s.talkerId) && OfPair(t.messages, t.accountId, t.talkerId)
  {
    if resp.Loaded? && gen in s.loads {
      ReversedOfPair(resp.list, s.loads[gen].account, s.loads[gen].talker);
    }
  }

  predicate Quiescent(s: State) {
    s.waiting == map[] && s.resuming == map[] && s.loads == map[]
  }

  /** When every request has been answered, nothing stale is left on the screen and no spinner turns. */
  lemma SettledShowsCurrent(steps: seq<Step>)
    requires AllHonest(START, steps) && Quiescent(After(START, steps))
    ensures var s := After(START, steps);
            && !s.loadingConv && !s.loadingMsg
            && OfAccount(s.conversations, s.accountId) && OfPair(s.messages, s.accountId, s.talkerId)
  {
    StartIsValid();
    AlwaysValid(START, steps);
  }

  /** Until then something stale may well be shown. A navigation leaves the previous pair's messages standing
      exactly when there are any and it either goes to another account or asks for another talker of this one;
      only in the second case does a message spinner tell so. */
  lemma StaleIff(s: State, r: Route)
    requires OfPair(s.messages, s.accountId, s.talkerId)
    ensures var t := SyncRoute(s, r);
            && (!OfPair(t.messages, t.accountId, t.talkerId) <==>
                  && s.messages != []
                  && (r.account != s.accountId || (r.talker != s.talkerId && r.talker != "" && r.account != "")))
            && (!OfPair(t.messages, t.accountId, t.talkerId) ==>
                  t.messages == s.messages && (t.loadingMsg <==> r.account == s.accountId || s.loadingMsg))
  {
    if s.messages != [] {
      assert s.messages[0] in s.messages;
    }
  }

  lemma OneStep(s: State, step: Step, rest: seq<Step>)
    requires Honest(s, step) && AllHonest(Do(s, step), rest)
    ensures AllHonest(s, [step] + rest) && After(s, [step] + rest) == After(Do(s, step), rest)
  {
    assert ([step] + rest)[1..] == rest;
    hide Do, Honest;
  }

  /** A run with such an end: a message of one account is loaded, the other account is opened, and the
      message stands under it with no spinner for messages. */
  lemma StaleRun(a: string, b: string, talker: string, id: string) returns (steps: seq<Step>)
    requires a != "" && talker != "" && a != b
    ensures AllHonest(START, steps)
    ensures var t := After(START, steps);
            t.accountId == b && t.messages == [Msg(a, talker, id)] && !t.loadingMsg
  {
    var r, m := Route(a, talker), Msg(a, talker, id);
    var s1 := Do(START, Navigate(r));
    var s2 := Do(s1, Conversations(1, Loaded([])));
    var s3 := Do(s2, GoOn(1));
    var s4 := Do(s3, Messages(1, Loaded([m])));
    assert s3.loads == map[1 := r] && s3.accountId == a && s3.msgGen == 1;
    assert s4.messages == [m] && s4.accountId == a && !s4.loadingMsg;
    var last := Navigate(Route(b, talker));
    var s5 := Do(s4, last);
    assert s5.accountId == b && s5.messages == [m] && !s5.loadingMsg;
    hide Do;
    OneStep(s4, last, []);
    var from4 := [last] + [];
    OneStep(s3, Messages(1, Loaded([m])), from4);
    var from3 := [Messages(1, Loaded([m]))] + from4;
    OneStep(s2, GoOn(1), from3);
    var from2 := [GoOn(1)] + from3;
    OneStep(s1, Conversations(1, Loaded([])), from2);
    var from1 := [Conversations(1, Loaded([]))] + from2;
    OneStep(START, Navigate(r), from1);
    steps := [Navigate(r)] + from1;
  }

  // ---- The last route ---------------------------------------------------------------------------

  /** Another route for the same account, to another talker, is still under way. */
  ghost predicate Rival(s: State, r: Route, gen: nat) {
    || (gen in s.waiting && s.waiting[gen].account == r.account && s.waiting[gen].talker != r.talker)
    || (gen in s.resuming && s.resuming[gen].account == r.account && s.resuming[gen].talker != r.talker)
  }

  predicate OnlyAnswers(steps: seq<Step>) {
    forall i :: 0 <= i < |steps| ==> !steps[i].Navigate?
  }

  predicate RoutesThrough(s: State) {
    s.waiting == map[] && s.resuming == map[]
  }

  /** No rival is left, and the route's talker is shown or its own load is still to come. */
  ghost predicate Winning(s: State, r: Route) {
    && s.accountId == r.account
    && (forall gen :: !Rival(s, r, gen))
    && (s.talkerId == r.talker || s.convGen in s.waiting || s.convGen in s.resuming)
  }

  lemma ArriveFacts(s: State, gen: nat, resp: Response<Conv>)
    requires gen in s.waiting
    ensures var t := ConversationsArrive(s, gen, resp);
            && t.waiting == s.waiting - {gen} && t.resuming == s.resuming[gen := s.waiting[gen]]
            && t.accountId == s.accountId && t.talkerId == s.talkerId && t.convGen == s.convGen
            && t.msgGen == s.msgGen && t.loads == s.loads
  {
  }

  lemma ResumeFacts(s: State, gen: nat)
    requires gen in s.resuming
    ensures var t := Resume(s, gen);
            && t.waiting == s.waiting && t.resuming == s.resuming - {gen}
            && t.accountId == s.accountId && t.convGen == s.convGen
            && t.talkerId == (if s.resuming[gen].account == s.accountId then s.resuming[gen].talker else s.talkerId)
  {
  }

  lemma MessagesFacts(s: State, gen: nat, resp: Response<Msg>)
    ensures var t := MessagesArrive(s, gen, resp);
            && t.waiting == s.waiting && t.resuming == s.resuming
            && t.accountId == s.accountId && t.talkerId == s.talkerId && t.convGen == s.convGen
            && t.msgGen == s.msgGen && t.loads.Keys <= s.loads.Keys
            && forall g :: g in t.loads ==> t.loads[g] == s.loads[g]
  {
  }

  lemma AnswerKeepsWinning(s: State, step: Step, r: Route)
    requires Numbered(s) && Winning(s, r) && !step.Navigate?
    ensures Winning(Do(s, step), r)
  {
    match step
    case Conversations(gen, resp) =>
      if gen in s.waiting {
        ArriveFacts(s, gen, resp);
        hide ConversationsArrive, Numbered;
        assert !Rival(s, r, gen);
        forall g ensures !Rival(Do(s, step), r, g) { assert !Rival(s, r, g); }
      }
    case GoOn(gen) =>
      if gen in s.resuming {
        ResumeFacts(s, gen);
        assert gen == s.convGen ==> s.resuming[gen].account == s.accountId;
        hide Resume, Numbered;
        assert !Rival(s, r, gen);
        forall g ensures !Rival(Do(s, step), r, g) { assert !Rival(s, r, g); }
      }
    case Messages(gen, resp) =>
      MessagesFacts(s, gen, resp);
      hide MessagesArrive, Numbered;
      forall g ensures !Rival(Do(s, step), r, g) { assert !Rival(s, r, g); }
  }

  lemma ArriveKeepsNumbers(s: State, gen: nat, resp: Response<Conv>)
    requires Numbered(s)
    ensures Numbered(ConversationsArrive(s, gen, resp)) && ConversationsArrive(s, gen, resp).accountId == s.accountId
  {
    if gen in s.waiting { ArriveFacts(s, gen, resp); }
    hide ConversationsArrive;
    if gen !in s.waiting { NothingArrives(s, gen, resp); }
  }

  lemma NothingArrives(s: State, gen: nat, resp: Response<Conv>)
    requires gen !in s.waiting
    ensures ConversationsArrive(s, gen, resp) == s
  {
  }

  lemma ResumeKeepsNumbers(s: State, gen: nat)
    requires Numbered(s)
    ensures Numbered(Resume(s, gen)) && Resume(s, gen).accountId == s.accountId
  {
    if gen in s.resuming && s.accountId == s.resuming[gen].account {
      LoadKeepsRoutes(s.(resuming := s.resuming - {gen}), s.resuming[gen]);
      hide LoadMessages, Numbered;
    }
  }

  lemma AnswerKeepsNumbers(s: State, step: Step)
    requires Numbered(s) && !step.Navigate?
    ensures Numbered(Do(s, step)) && Do(s, step).accountId == s.accountId
  {
    match step
    case Conversations(gen, resp) => ArriveKeepsNumbers(s, gen, resp); hide Numbered, ConversationsArrive;
    case GoOn(gen) => ResumeKeepsNumbers(s, gen); hide Numbered, Resume;
    case Messages(gen, resp) => MessagesFacts(s, gen, resp); hide MessagesArrive;
  }

  lemma {:induction false} AnswersKeepWinning(s: State, steps: seq<Step>, r: Route)
    requires Numbered(s) && Winning(s, r) && OnlyAnswers(steps)
    ensures Winning(After(s, steps), r)
    decreases |steps|
  {
    if steps != [] {
      AnswerKeepsWinning(s, steps[0], r);
      AnswerKeepsNumbers(s, steps[0]);
      AnswersKeepWinning(Do(s, steps[0]), steps[1..], r);
    }
  }

  lemma {:induction false} AfterConcat(s: State, a: seq<Step>, b: seq<Step>)
    ensures After(s, a + b) == After(After(s, a), b)
    decreases |a|
  {
    if a == [] {
      assert a + b == b;
    } else {
      assert (a + b)[0] == a[0] && (a + b)[1..] == a[1..] + b;
      AfterConcat(Do(s, a[0]), a[1..], b);
    }
  }

  /** How many steps the routes other than this one still need. */
  function Others(waiting: set<nat>, resuming: set<nat>, gen: nat): nat {
    2 * |waiting - {gen}| + |resuming - {gen}|
  }

  lemma LessOthers(waiting: set<nat>, resuming: set<nat>, gen: nat, other: nat)
    requires other != gen
    ensures other in waiting && other !in resuming ==>
              Others(waiting - {other}, resuming + {other}, gen) < Others(waiting, resuming, gen)
    ensures other in resuming ==> Others(waiting, resuming - {other}, gen) < Others(waiting, resuming, gen)
  {
    assert waiting - {other} - {gen} == (waiting - {gen}) - {other};
    assert resuming + {other} - {gen} == (resuming - {gen}) + {other};
    assert resuming - {other} - {gen} == (resuming - {gen}) - {other};
  }

  /** Of the routes under way only this one is left. */
  ghost predicate OnlyThis(s: State, t: State, gen: nat) {
    && Numbered(t) && t.accountId == s.accountId
    && (forall g :: g in t.waiting <==> g in s.waiting && g == gen)
    && (forall g :: g in t.resuming <==> g in s.resuming && g == gen)
    && (gen in s.waiting ==> t.waiting[gen] == s.waiting[gen])
    && (gen in s.resuming ==> t.resuming[gen] == s.resuming[gen])
  }

  /** Answering some other route leaves this one where it is. */
  ghost predicate ThisStays(s: State, t: State, gen: nat) {
    && t.accountId == s.accountId
    && (gen in t.waiting <==> gen in s.waiting) && (gen in t.resuming <==> gen in s.resuming)
    && (gen in s.waiting ==> t.waiting[gen] == s.waiting[gen])
    && (gen in s.resuming ==> t.resuming[gen] == s.resuming[gen])
  }

  function StillToDo(s: State, gen: nat): nat {
    Others(s.waiting.Keys, s.resuming.Keys, gen)
  }

  lemma ArriveKeys(s: State, other: nat)
    requires other in s.waiting
    ensures var t := ConversationsArrive(s, other, Loaded([]));
            t.waiting.Keys == s.waiting.Keys - {other} && t.resuming.Keys == s.resuming.Keys + {other}
  {
    ArriveFacts(s, other, Loaded([]));
    hide ConversationsArrive;
  }

  lemma ArriveStays(s: State, gen: nat, other: nat)
    requires other in s.waiting && other != gen
    ensures ThisStays(s, ConversationsArrive(s, other, Loaded([])), gen)
  {
    ArriveFacts(s, other, Loaded([]));
    hide ConversationsArrive;
  }

  lemma OtherArrives(s: State, gen: nat, other: nat)
    requires Numbered(s) && other in s.waiting && other != gen
    ensures var t := ConversationsArrive(s, other, Loaded([])); Numbered(t) && ThisStays(s, t, gen) && StillToDo(t, gen) < StillToDo(s, gen)
  {
    assert other !in s.resuming;
    hide ConversationsArrive, Numbered, Others, ThisStays;
    ArriveKeepsNumbers(s, other, Loaded([]));
    ArriveKeys(s, other);
    ArriveStays(s, gen, other);
    LessOthers(s.waiting.Keys, s.resuming.Keys, gen, other);
  }

  lemma OtherResumes(s: State, gen: nat, other: nat)
    requires Numbered(s) && other in s.resuming && other != gen
    ensures var t := Resume(s, other); Numbered(t) && ThisStays(s, t, gen) && StillToDo(t, gen) < StillToDo(s, gen)
  {
    var t := Resume(s, other);
    ResumeFacts(s, other);
    ResumeKeepsNumbers(s, other);
    hide Resume, Numbered, Others;
    assert t.resuming.Keys == s.resuming.Keys - {other};
    LessOthers(s.waiting.Keys, s.resuming.Keys, gen, other);
  }

  lemma OnlyThisLater(s: State, t: State, u: State, gen: nat)
    requires ThisStays(s, t, gen) && OnlyThis(t, u, gen)
    ensures OnlyThis(s, u, gen)
  {
    hide Numbered;
  }

  lemma OneMoreAnswer(s: State, step: Step, rest: seq<Step>)
    requires !step.Navigate? && OnlyAnswers(rest)
    ensures OnlyAnswers([step] + rest) && After(s, [step] + rest) == After(Do(s, step), rest)
  {
    assert ([step] + rest)[1..] == rest;
    hide Do;
  }

  lemma NoOthers(s: State, gen: nat)
    requires Numbered(s)
    requires forall g :: (g in s.waiting ==> g == gen) && (g in s.resuming ==> g == gen)
    ensures OnlyThis(s, s, gen)
  {
    hide Numbered;
  }

  /** Every other route can be answered first. */
  lemma {:induction false} OthersFirst(s: State, gen: nat) returns (steps: seq<Step>)
    requires Numbered(s)
    ensures OnlyAnswers(steps) && OnlyThis(s, After(s, steps), gen)
    decreases StillToDo(s, gen)
  {
    hide *;
    if other :| other in s.waiting && other != gen {
      var t := ConversationsArrive(s, other, Loaded([]));
      OtherArrives(s, gen, other);
      DoIs(s, other);
      var rest := OthersFirst(t, gen);
      steps := [Conversations(other, Loaded([]))] + rest;
      OneMoreAnswer(s, Conversations(other, Loaded([])), rest);
      OnlyThisLater(s, t, After(s, steps), gen);
    } else if other :| other in s.resuming && other != gen {
      var t := Resume(s, other);
      OtherResumes(s, gen, other);
      DoIs(s, other);
      var rest := OthersFirst(t, gen);
      steps := [GoOn(other)] + rest;
      OneMoreAnswer(s, GoOn(other), rest);
      OnlyThisLater(s, t, After(s, steps), gen);
    } else {
      steps := [];
      NoAnswers(s);
      NoOthers(s, gen);
    }
  }

  lemma NoAnswers(s: State)
    ensures OnlyAnswers([]) && After(s, []) == s
  {
  }

  /** A rival can win: answer everything else first, then the rival. */
  lemma RivalCanWin(s: State, r: Route, gen: nat) returns (steps: seq<Step>)
    requires Numbered(s) && s.accountId == r.account && Rival(s, r, gen)
    ensures OnlyAnswers(steps)
    ensures RoutesThrough(After(s, steps)) && After(s, steps).talkerId != r.talker
  {
    var first := OthersFirst(s, gen);
    var t := After(s, first);
    assert gen in s.resuming ==> gen !in s.waiting;
    hide Numbered, After, Do;
    if gen in s.waiting {
      var u := ConversationsArrive(t, gen, Loaded([]));
      ArriveFacts(t, gen, Loaded([]));
      NoAnswers(Resume(u, gen));
      OneMoreAnswer(u, GoOn(gen), []);
      OneMoreAnswer(t, Conversations(gen, Loaded([])), [GoOn(gen)] + []);
      RivalGoesOn(u, r, gen);
      steps := first + ([Conversations(gen, Loaded([]))] + ([GoOn(gen)] + []));
      AfterConcat(s, first, [Conversations(gen, Loaded([]))] + ([GoOn(gen)] + []));
      DoIs(t, gen);
      DoIs(u, gen);
    } else {
      NoAnswers(Resume(t, gen));
      OneMoreAnswer(t, GoOn(gen), []);
      RivalGoesOn(t, r, gen);
      steps := first + ([GoOn(gen)] + []);
      AfterConcat(s, first, [GoOn(gen)] + []);
      DoIs(t, gen);
    }
  }

  lemma DoIs(s: State, gen: nat)
    ensures Do(s, Conversations(gen, Loaded([]))) == ConversationsArrive(s, gen, Loaded([]))
    ensures Do(s, GoOn(gen)) == Resume(s, gen)
  {
  }

  lemma RivalGoesOn(s: State, r: Route, gen: nat)
    requires s.accountId == r.account && gen in s.resuming && s.resuming[gen].account == r.account && s.resuming[gen].talker != r.talker
    requires s.waiting == map[] && forall g :: g in s.resuming ==> g == gen
    ensures RoutesThrough(Resume(s, gen)) && Resume(s, gen).talkerId != r.talker
  {
    ResumeFacts(s, gen);
    assert s.resuming - {gen} == map[];
  }

  /** After a last navigation, its talker is the one shown once all routes are through, however the
      responses come in, if and only if no route to another talker of the same account was under way. */
  lemma LastRouteWinsIff(s: State, r: Route)
    requires Numbered(s)
    ensures (forall gen :: !Rival(s, r, gen)) <==>
            (forall steps :: OnlyAnswers(steps) && RoutesThrough(After(SyncRoute(s, r), steps)) ==>
               After(SyncRoute(s, r), steps).talkerId == r.talker)
  {
    var t := SyncRoute(s, r);
    NavigateKeepsNumbers(s, r);
    if forall gen :: !Rival(s, r, gen) {
      assert Winning(t, r) by {
        forall gen ensures !Rival(t, r, gen) { assert !Rival(s, r, gen); }
      }
      forall steps | OnlyAnswers(steps) && RoutesThrough(After(t, steps)) ensures After(t, steps).talkerId == r.talker {
        AnswersKeepWinning(t, steps, r);
      }
    } else {
      var gen :| Rival(s, r, gen);
      var steps := RivalCanWin(t, r, gen);
    }
  }

  predicate LoadsNothing(step: Step) {
    (step.Conversations? ==> step.convs == Loaded([])) && (step.Messages? ==> step.msgs == Loaded([]))
  }

  lemma {:induction false} NothingIsHonest(s: State, steps: seq<Step>)
    requires forall step :: step in steps ==> LoadsNothing(step)
    ensures AllHonest(s, steps)
    decreases |steps|
  {
    if steps != [] {
      assert steps[0] in steps;
      NothingIsHonest(Do(s, steps[0]), steps[1..]);
    }
  }

  lemma AfterThree(s: State, a: Step, b: Step, c: Step)
    ensures After(s, [a, b, c]) == Do(Do(Do(s, a), b), c)
  {
    hide Do;
    assert [a, b, c][1..] == [b, c] && [b, c][1..] == [c];
    AfterOne(Do(Do(s, a), b), c);
  }

  lemma AfterOne(s: State, step: Step)
    ensures After(s, [step]) == Do(s, step)
  {
    hide Do;
    assert [step][1..] == [];
  }

  /** A run with such an end: while its list of conversations is loading, an account is left and come back to
      for another talker; the list asked for first is answered last, and its route goes on to its old talker. */
  lemma RivalRun(a: string, b: string, was: string, last: string) returns (routes: seq<Route>, answers: seq<Step>)
    requires a != "" && a != b && was != "" && was != last
    ensures routes == [Route(a, was), Route(b, ""), Route(a, last)] && OnlyAnswers(answers)
    ensures var steps := [Navigate(routes[0]), Navigate(routes[1]), Navigate(routes[2])] + answers;
            && AllHonest(START, steps)
            && var t := After(START, steps); RoutesThrough(t) && t.accountId == a && t.talkerId == was && !t.loadingConv
  {
    routes := [Route(a, was), Route(b, ""), Route(a, last)];
    var leave := [Navigate(routes[0]), Navigate(routes[1]), Navigate(routes[2])];
    var newer := [Conversations(3, Loaded([])), GoOn(3), Conversations(2, Loaded([]))];
    var older := [GoOn(2), Conversations(1, Loaded([])), GoOn(1)];
    answers := newer + older;
    hide *;
    AllAnswers(newer, older);
    LoadNothing(leave, answers);
    NothingIsHonest(START, leave + answers);
    AfterConcat(START, leave, answers);
    var s := After(START, leave);
    AfterConcat(s, newer, older);
    AfterThree(START, leave[0], leave[1], leave[2]);
    AfterThree(s, newer[0], newer[1], newer[2]);
    AfterThree(After(s, newer), older[0], older[1], older[2]);
    ThreeWaiting(routes[0], routes[1], routes[2]);
    NewestAnswered(s, routes);
    OldestGoesOn(After(s, newer), routes[1], routes[0]);
  }

  lemma AllAnswers(newer: seq<Step>, older: seq<Step>)
    requires newer == [Conversations(3, Loaded([])), GoOn(3), Conversations(2, Loaded([]))]
    requires older == [GoOn(2), Conversations(1, Loaded([])), GoOn(1)]
    ensures OnlyAnswers(newer + older) && forall step :: step in newer + older ==> LoadsNothing(step)
  {
  }

  lemma LoadNothing(leave: seq<Step>, answers: seq<Step>)
    requires (forall step :: step in answers ==> LoadsNothing(step)) && |leave| == 3
    requires leave[0].Navigate? && leave[1].Navigate? && leave[2].Navigate?
    ensures forall step :: step in leave + answers ==> LoadsNothing(step)
  {
  }

  lemma ThreeWaiting(first: Route, away: Route, last: Route)
    requires first.account != "" && away.account != first.account && last.account == first.account
    ensures var s := Do(Do(Do(START, Navigate(first)), Navigate(away)), Navigate(last));
            && s.waiting == map[1 := first, 2 := away, 3 := last] && s.resuming == map[]
            && s.accountId == last.account && s.convGen == 3
  {
  }

  lemma NewestAnswered(s: State, routes: seq<Route>)
    requires |routes| == 3 && s.waiting == map[1 := routes[0], 2 := routes[1], 3 := routes[2]] && s.resuming == map[] && s.convGen == 3
    ensures var t := Do(Do(Do(s, Conversations(3, Loaded([]))), GoOn(3)), Conversations(2, Loaded([])));
            && t.waiting == map[1 := routes[0]] && t.resuming == map[2 := routes[1]]
            && t.accountId == s.accountId && !t.loadingConv && t.convGen == 3
  {
    var t1 := Do(s, Conversations(3, Loaded([])));
    ArriveFacts(s, 3, Loaded([]));
    assert t1.waiting == map[1 := routes[0], 2 := routes[1]] && t1.resuming == map[3 := routes[2]] && !t1.loadingConv;
    var t2 := Do(t1, GoOn(3));
    ResumeFacts(t1, 3);
    assert t2.resuming == map[] && !t2.loadingConv;
    hide Resume;
  }

  lemma OldestGoesOn(s: State, away: Route, back: Route)
    requires s.waiting == map[1 := back] && s.resuming == map[2 := away] && s.convGen == 3 && !s.loadingConv
    requires s.accountId == back.account != away.account && back.account != "" && back.talker != ""
    ensures var t := Do(Do(Do(s, GoOn(2)), Conversations(1, Loaded([]))), GoOn(1));
            RoutesThrough(t) && t.accountId == back.account && t.talkerId == back.talker && !t.loadingConv
  {
    var t1 := Do(s, GoOn(2));
    assert t1.resuming == map[] && t1.waiting == s.waiting;
    var t2 := Do(t1, Conversations(1, Loaded([])));
    assert t2.waiting == map[] && t2.resuming == map[1 := back];
    ResumeFacts(t2, 1);
  }

  lemma NavigateKeepsNumbers(s: State, r: Route)
    requires Numbered(s)
    ensures var t := SyncRoute(s, r);
            && Numbered(t) && t.accountId == r.account
            && forall gen :: Rival(s, r, gen) ==> Rival(t, r, gen)
  {
    if r.account == s.accountId { LoadKeepsRoutes(s, r); } else { NewListKeepsRoutes(s, r); }
    hide Numbered, LoadConversations, LoadMessages;
  }

  lemma LoadKeepsRoutes(s: State, r: Route)
    requires Numbered(s) && r.account == s.accountId
    ensures var t := LoadMessages(s, r);
            Numbered(t) && t.accountId == r.account && t.waiting == s.waiting && t.resuming == s.resuming
  {
  }

  lemma NewListKeepsRoutes(s: State, r: Route)
    requires Numbered(s)
    ensures var t := LoadConversations(s, r);
            && Numbered(t) && t.accountId == r.account && t.resuming == s.resuming
            && forall gen :: gen in s.waiting ==> gen in t.waiting && t.waiting[gen] == s.waiting[gen]
  {
  }

  // ---- The store itself -------------------------------------------------------------------------

  /** One method for each stretch of code between two awaits; the suspended calls are ghost. Honest answers
      keep the invariant. */
  class Store {
    var accountId: string
    var conversations: seq<Conv>
    var talkerId: string
    var messages: seq<Msg>
    var loadingConv: bool
    var loadingMsg: bool
    var error: string
    var convGen: nat
    var msgGen: nat
    ghost var waiting: map<nat, Route>
    ghost var resuming: map<nat, Route>
    ghost var loads: map<nat, Route>

    ghost function Now(): State
      reads this
    {
      State(accountId, conversations, talkerId, messages, loadingConv, loadingMsg, error, convGen, msgGen, waiting, resuming, loads)
    }

    constructor ()
      ensures Now() == START && Valid(Now())
    {
      accountId, conversations, talkerId, messages := "", [], "", [];
      loadingConv, loadingMsg, error, convGen, msgGen := false, false, "", 0, 0;
      waiting, resuming, loads := map[], map[], map[];
    }

    method Navigated(r: Route)
      modifies this
      ensures Now() == SyncRoute(old(Now()), r)
      ensures accountId == r.account
      ensures r.account != old(accountId) ==>
                && loadingConv && error == "" && convGen == old(convGen) + 1 && convGen in waiting && waiting[convGen] == r
                && conversations == old(conversations) && messages == old(messages) && talkerId == old(talkerId)
      ensures r.account == old(accountId) ==> talkerId == r.talker && msgGen == old(msgGen) + 1
      ensures old(Valid(Now())) ==> Valid(Now())
    {
      ghost var before := Now();
      if Valid(before) {
        NavigateKeepsValid(before, r);
      }
      if r.account != accountId {
        AskConversations(r);
      } else {
        AskMessages(r);
      }
    }

    method AskConversations(r: Route)
      modifies this
      ensures Now() == LoadConversations(old(Now()), r)
    {
      convGen := convGen + 1;
      accountId := r.account;
      loadingConv := true;
      error := "";
      waiting := waiting[convGen := r];
    }

    method AskMessages(r: Route)
      modifies this
      ensures Now() == LoadMessages(old(Now()), r)
      ensures r.account == accountId ==>
                && talkerId == r.talker && msgGen == old(msgGen) + 1
                && (if r.account == "" || r.talker == "" then messages == [] && !loadingMsg && loads == old(loads)
                    else loadingMsg && error == "" && messages == old(messages) && msgGen in loads && loads[msgGen] == r)
      ensures r.account != accountId ==> Now() == old(Now())
    {
      if r.account != accountId {
        return;
      }
      msgGen := msgGen + 1;
      talkerId := r.talker;
      if r.account == "" || r.talker == "" {
        messages := [];
        loadingMsg := false;
        return;
      }
      loadingMsg := true;
      error := "";
      loads := loads[msgGen := r];
    }

    method ConversationsAnswered(gen: nat, resp: Response<Conv>)
      requires gen in waiting
      modifies this
      ensures Now() == ConversationsArrive(old(Now()), gen, resp)
      ensures gen == convGen ==>
                !loadingConv && match resp
                                case Loaded(list) => conversations == list && error == old(error)
                                case Broke(message) => conversations == [] && error == message
      ensures gen != convGen ==> conversations == old(conversations) && error == old(error) && loadingConv == old(loadingConv)
      ensures messages == old(messages) && accountId == old(accountId) && talkerId == old(talkerId) && loadingMsg == old(loadingMsg)
      ensures old(Valid(Now()) && Honest(Now(), Conversations(gen, resp))) ==> Valid(Now())
    {
      ghost var before := Now();
      if Valid(before) && Honest(before, Conversations(gen, resp)) {
        ArriveKeepsValid(before, gen, resp);
      }
      waiting, resuming := waiting - {gen}, resuming[gen := waiting[gen]];
      if gen != convGen {
        return;
      }
      match resp {
        case Loaded(list) => conversations := list;
        case Broke(message) =>
          error := message;
          conversations := [];
      }
      loadingConv := false;
    }

    method WentOn(gen: nat, r: Route)
      requires gen in resuming && resuming[gen] == r
      modifies this
      ensures Now() == Resume(old(Now()), gen)
      ensures old(Valid(Now())) ==> Valid(Now())
    {
      ghost var before := Now();
      if Valid(before) {
        ResumeKeepsValid(before, gen);
      }
      resuming := resuming - {gen};
      if accountId != r.account {
        return;
      }
      AskMessages(r);
    }

    method MessagesAnswered(gen: nat, r: Route, resp: Response<Msg>)
      requires gen in loads && loads[gen] == r
      modifies this
      ensures Now() == MessagesArrive(old(Now()), gen, resp)
      ensures gen == msgGen && accountId == r.account ==>
                match resp
                case Loaded(list) =>
                  && |messages| == |list| && (forall i :: 0 <= i < |list| ==> messages[i] == list[|list| - 1 - i])
                  && error == old(error)
                case Broke(message) => messages == [] && error == message
      ensures gen != msgGen || accountId != r.account ==> messages == old(messages) && error == old(error)
      ensures loadingMsg == (old(loadingMsg) && gen != msgGen)
      ensures conversations == old(conversations) && accountId == old(accountId) && talkerId == old(talkerId) && loadingConv == old(loadingConv)
      ensures old(Valid(Now()) && Honest(Now(), Messages(gen, resp))) ==> Valid(Now())
    {
      ghost var before := Now();
      if Valid(before) && Honest(before, Messages(gen, resp)) {
        MessagesKeepValid(before, gen, resp);
      }
      loads := loads - {gen};
      if gen == msgGen && accountId == r.account {
        match resp {
          case Loaded(list) => messages := Reversed(list);
          case Broke(message) =>
            error := message;
            messages := [];
        }
      }
      if gen == msgGen {
        loadingMsg := false;
      }
    }
  }
}
