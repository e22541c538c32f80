/** What one subscriber gets: when a snapshot comes twice, and how its channel ends. */
module Subscribers {
  import opened BackupJob

  /** The latest snapshot is still to be sent to the channel. */
  predicate Due(s: Sys, id: nat) {
    || (s.run.Saving? && id in s.board.subs)
    || id in Unsent(s.runEmit, s.board.subs)
    || id in Unsent(s.progressEmit, s.board.subs)
  }

  /** All notes are of snapshots before this place of the history. */
  ghost predicate Earlier(trail: seq<Note>, at: nat) {
    forall i :: 0 <= i < |trail| ==> trail[i].at < at
  }

  /** Every note is of a later snapshot than the one before. */
  ghost predicate Strict(trail: seq<Note>) {
    forall i, j :: 0 <= i < j < |trail| ==> trail[i].at < trail[j].at
  }

  // ---- What one step does to one channel --------------------------------------------------------

  /** A step leaves the trail of a channel as it is, and does not make the snapshot due, or makes a new
      snapshot, later than all of the trail. */
  ghost predicate LeavesTrail(s: Sys, t: Sys, id: nat) {
    && id in s.board.chans && id in t.board.chans && t.board.chans[id].Trail() == s.board.chans[id].Trail()
    && ((Latest(t) == Latest(s) && (Due(t, id) ==> Due(s, id))) || Earlier(t.board.chans[id].Trail(), Latest(t).at))
  }

  lemma ClientLeavesTrail(s: Sys, step: Step, id: nat)
    requires id in s.board.chans
    ensures LeavesTrail(s, DoClient(s, step), id)
  {
    ClientFrame(s, step);
    ClientKeepsAllTrails(s, step);
    hide DoClient, Before;
  }

  lemma NewIsLater(s: Sys, t: Sys, id: nat)
    requires Trails(s) && t.board == s.board && t.history == s.history + [t.job] && id in s.board.chans
    ensures Earlier(t.board.chans[id].Trail(), Latest(t).at)
  {
    assert ChannelInOrder(s.board.chans[id], s.history);
  }

  lemma RunLeavesTrail(s: Sys, step: Step, id: nat)
    requires InStage(s) && OneVoice(s) && Trails(s) && s.runEmit.Quiet? && id in s.board.chans
    ensures LeavesTrail(s, DoRun(s, step), id)
  {
    RunFrame(s, step);
    RunSnapshots(s, step);
    var t := DoRun(s, step);
    if t.history == s.history + [t.job] {
      NewIsLater(s, t, id);
    } else {
      assert Latest(t) == Latest(s);
    }
    hide DoRun, InStage, OneVoice, Trails, Earlier, Latest;
  }

  lemma ProgressLeavesTrail(s: Sys, step: Step, id: nat)
    requires Trails(s) && s.progressEmit.Quiet? && id in s.board.chans
    ensures LeavesTrail(s, DoProgress(s, step), id)
  {
    ProgressFrame(s, step);
    var t := DoProgress(s, step);
    if t.history != s.history {
      NewIsLater(s, t, id);
    } else {
      assert Latest(t) == Latest(s) && t.progressEmit.Quiet?;
    }
    hide DoProgress, Trails, Earlier, Latest;
  }

  lemma StepLeavesTrail(s: Sys, step: Step, id: nat)
    requires Sane(s) && id in s.board.chans && !step.EmitRun? && !step.EmitProgress?
    ensures LeavesTrail(s, Do(s, step), id)
  {
    ClientLeavesTrail(s, step, id);
    if s.runEmit.Quiet? { RunLeavesTrail(s, step, id); }
    if s.progressEmit.Quiet? { ProgressLeavesTrail(s, step, id); }
    NoStepLeavesTrail(s, id);
    hide LeavesTrail, DoClient, DoRun, DoProgress, EmitOne, Sane;
  }

  lemma NoStepLeavesTrail(s: Sys, id: nat)
    requires id in s.board.chans
    ensures LeavesTrail(s, s, id)
  {
  }

  function Speech(s: Sys, step: Step): Emit {
    if step.EmitRun? then s.runEmit else s.progressEmit
  }

  /** What an emission may be relied on for. */
  lemma SpeechIsSound(s: Sys, step: Step)
    requires Sane(s) && (step.EmitRun? || step.EmitProgress?) && !Speech(s, step).Quiet?
    ensures var e, t := Speech(s, step), Do(s, step);
            && EmitsLatest(s, e) && !s.board.panicked && Open(LeftOf(e), s)
            && (e.Draining? || e.Closing? ==> LeftOf(e) != [] && s.job.status.Terminal() && step.EmitRun?)
            && Latest(t) == Latest(s) && t.job == s.job
            && (forall id :: Due(s, id) <==> id in Unsent(e, s.board.subs))
            && (forall id :: Due(t, id) <==> id in Unsent(Speech(t, step), t.board.subs))
            && t.board == EmitOne(s, e).0.board && Speech(t, step) == EmitOne(s, e).1
            && (step.EmitProgress? ==> t.runEmit.Quiet? && s.runEmit.Quiet?)
  {
    var e := Speech(s, step);
    EmitFrame(s, e);
    if step.EmitRun? { RunAlone(s); } else { ProgressAlone(s); }
    hide EmitOne, Open, Passed, BrokeOff, Recorded, Trails, Served, SentOnce;
  }

  /** The channel that comes first is sent to, drops its oldest note, is given up on or closed; all others
      are left alone. */
  lemma EmitMoves(s: Sys, e: Emit, id: nat)
    requires EmitsLatest(s, e) && !s.board.panicked && Open(LeftOf(e), s) && id in s.board.chans
    requires e.Draining? || e.Closing? ==> LeftOf(e) != []
    ensures var (t, f) := EmitOne(s, e);
            && id in t.board.chans
            && var c, d := s.board.chans[id], t.board.chans[id];
               var due, still := id in Unsent(e, s.board.subs), id in Unsent(f, t.board.subs);
               || (d == c && (still ==> due))
               || (d == c.(buf := c.buf + [Latest(s)]) && due && !still)
               || (c.buf != [] && d == c.(buf := c.buf[1..]) && e.Draining? && due)
               || (d == c.(gaveUp := true) && e.Draining? && due && !still)
               || (d == c.(closed := true) && e.Closing? && !still)
  {
    EmitTouches(s, e);
    if LeftOf(e) != [] { FirstOpen(LeftOf(e), s); }
    hide Open, Distinct, Latest;
  }

  // ---- When a snapshot comes twice --------------------------------------------------------------

  /** The channel has had no snapshot twice, and not yet the one that is due. */
  ghost predicate Singly(s: Sys, id: nat) {
    && id in s.board.chans && Strict(s.board.chans[id].Trail())
    && (Due(s, id) ==> Earlier(s.board.chans[id].Trail(), Latest(s).at))
  }

  lemma PushStaysStrict(c: Chan, note: Note)
    requires Strict(c.Trail()) && Earlier(c.Trail(), note.at)
    ensures Strict(c.(buf := c.buf + [note]).Trail())
  {
    assert c.(buf := c.buf + [note]).Trail() == c.Trail() + [note];
  }

  lemma DropStaysStrict(c: Chan, at: nat)
    requires c.buf != []
    ensures Strict(c.Trail()) ==> Strict(c.(buf := c.buf[1..]).Trail())
    ensures Earlier(c.Trail(), at) ==> Earlier(c.(buf := c.buf[1..]).Trail(), at)
  {
    var a, b := c.Trail(), c.(buf := c.buf[1..]).Trail();
    assert forall i :: 0 <= i < |b| ==> b[i] == a[if i < |c.got| then i else i + 1];
  }

  lemma EmitStaysSingly(s: Sys, step: Step, id: nat)
    requires Sane(s) && Singly(s, id) && (step.EmitRun? || step.EmitProgress?) && !Speech(s, step).Quiet?
    ensures Singly(Do(s, step), id)
  {
    var e := Speech(s, step);
    SpeechIsSound(s, step);
    EmitMoves(s, e, id);
    var c := s.board.chans[id];
    if Due(s, id) { PushStaysStrict(c, Latest(s)); }
    if c.buf != [] { DropStaysStrict(c, Latest(s).at); }
    hide Sane, Do, EmitOne, Strict, Earlier, Due, Latest, Open, Unsent, Speech;
  }

  lemma StepStaysSingly(s: Sys, step: Step, id: nat)
    requires Sane(s) && Singly(s, id)
    ensures Singly(Do(s, step), id)
  {
    if !step.EmitRun? && !step.EmitProgress? {
      StepLeavesTrail(s, step, id);
      hide Sane, Do, Strict, Earlier, Due, Latest;
    } else if Speech(s, step).Quiet? {
      QuietEmitsNothing(s, step);
      hide Sane, Do;
    } else {
      EmitStaysSingly(s, step, id);
      hide Sane, Do;
    }
  }

  lemma {:induction false} RunStaysSingly(s: Sys, steps: seq<Step>, id: nat)
    requires Sane(s) && Singly(s, id)
    ensures Singly(After(s, steps), id)
    decreases |steps|
  {
    if steps != [] {
      StepStaysSingly(s, steps[0], id);
      StepKeepsSane(s, steps[0]);
      hide Sane, Do, Singly;
      RunStaysSingly(Do(s, steps[0]), steps[1..], id);
    }
  }

  /** The job runs and its present snapshot has not been announced, or is about to be: an emission has yet
      to copy the subscriber list. */
  predicate Unannounced(s: Sys) {
    !s.job.status.Terminal() && (s.run.Saving? || s.runEmit.Copying? || s.progressEmit.Copying?)
  }

  /** Whoever subscribes when nothing is unannounced is in no list that the present snapshot goes to. */
  lemma NewcomerIsNotDue(s: Sys, id: nat)
    requires Sane(s) && id !in s.board.chans && !Unannounced(s)
    ensures Singly(Do(s, Subscribe(id)), id)
  {
    assert id !in s.board.subs && id !in LeftOf(s.runEmit) && id !in LeftOf(s.progressEmit);
    assert s.progressEmit.Copying? ==> !s.job.status.Terminal() by { ProgressSpeaks(s); }
    hide Sane, Open;
    var t := Do(s, Subscribe(id));
    assert t.board.chans[id].Trail() == [Latest(s)];
    assert !Due(t, id);
  }

  lemma ProgressSpeaks(s: Sys)
    requires Sane(s)
    ensures !s.progressEmit.Quiet? ==> s.job.status == Transfer
  {
    if !s.progressEmit.Quiet? { ProgressAlone(s); }
  }

  // ---- Its being sent again ---------------------------------------------------------------------

  /** The channel holds the present snapshot alone and stands on the list of an emission of it. */
  ghost predicate ToComeAgain(s: Sys, who: Step, id: nat) {
    && (who.EmitRun? || who.EmitProgress?) && Speech(s, who).Sending? && !s.job.status.Terminal()
    && id in LeftOf(Speech(s, who)) && id in s.board.chans && s.board.chans[id] == Chan([], [Latest(s)], false, false)
  }

  lemma OneServed(s: Sys, who: Step, id: nat)
    requires Sane(s) && ToComeAgain(s, who, id)
    ensures var t, left := Do(s, who), LeftOf(Speech(s, who));
            if left[0] == id then id in t.board.chans && t.board.chans[id].Trail() == [Latest(s), Latest(s)]
            else ToComeAgain(t, who, id) && LeftOf(Speech(t, who)) == left[1..]
  {
    var left := LeftOf(Speech(s, who));
    SpeechIsSound(s, who);
    FirstOpen(left, s);
    hide Sane, Open, Latest;
    assert [Latest(s)] + [Latest(s)] == [Latest(s), Latest(s)];
  }

  lemma {:induction false} ComesAgain(s: Sys, who: Step, id: nat) returns (steps: seq<Step>)
    requires Sane(s) && ToComeAgain(s, who, id)
    ensures var t := After(s, steps); id in t.board.chans && !Strict(t.board.chans[id].Trail())
    decreases |LeftOf(Speech(s, who))|
  {
    hide *;
    OneServed(s, who, id);
    OnTheList(s, who, id);
    var t := Do(s, who);
    if LeftOf(Speech(s, who))[0] == id {
      steps := [who];
      OneStep(s, who, []);
      NotStrict(t.board.chans[id].Trail(), Latest(s));
    } else {
      StepKeepsSane(s, who);
      var rest := ComesAgain(t, who, id);
      steps := [who] + rest;
      OneStep(s, who, rest);
    }
  }

  lemma OnTheList(s: Sys, who: Step, id: nat)
    requires ToComeAgain(s, who, id)
    ensures LeftOf(Speech(s, who)) != []
  {
  }

  lemma NotStrict(trail: seq<Note>, note: Note)
    requires trail == [note, note]
    ensures !Strict(trail)
  {
    assert trail[0].at == trail[1].at;
  }

  lemma OneStep(s: Sys, step: Step, rest: seq<Step>)
    ensures After(s, [step] + rest) == After(Do(s, step), rest)
    ensures rest == [] ==> After(s, [step]) == Do(s, step)
  {
    hide Do;
    assert ([step] + rest)[1..] == rest && [step][1..] == [];
  }

  /** A newcomer is on the list that an emission is about to copy. */
  lemma AboutToCopy(s: Sys, who: Step, id: nat)
    requires Sane(s) && (who.EmitRun? || who.EmitProgress?) && Speech(s, who).Copying? && !s.job.status.Terminal()
    requires id in s.board.subs && id in s.board.chans && s.board.chans[id] == Chan([], [Latest(s)], false, false)
    ensures ToComeAgain(Do(s, who), who, id)
  {
    SpeechIsSound(s, who);
    hide Sane, Open, Latest;
  }

  lemma PersistCopies(s: Sys)
    requires Sane(s) && s.run.Saving? && !s.job.status.Terminal()
    ensures var t := Do(s, Persist(true));
            t.runEmit.Copying? && t.board == s.board && Latest(t) == Latest(s) && t.job == s.job
  {
    hide InStage, Recorded, Trails, Owned, Served, SentOnce;
  }

  lemma Joins(s: Sys, id: nat)
    requires id !in s.board.chans && !s.job.status.Terminal()
    ensures var t := Do(s, Subscribe(id));
            && id in t.board.subs && id in t.board.chans && t.board.chans[id] == Chan([], [Latest(s)], false, false)
            && Latest(t) == Latest(s) && t.job == s.job && t.run == s.run && t.runEmit == s.runEmit && t.progressEmit == s.progressEmit
  {
  }

  /** A newcomer before the announcement can get the present snapshot a second time. */
  lemma NewcomerGetsItTwice(s: Sys, id: nat) returns (steps: seq<Step>)
    requires Sane(s) && id !in s.board.chans && Unannounced(s)
    ensures var t := After(Do(s, Subscribe(id)), steps); id in t.board.chans && !Strict(t.board.chans[id].Trail())
  {
    var t := Do(s, Subscribe(id));
    Joins(s, id);
    StepKeepsSane(s, Subscribe(id));
    hide Sane, Do, ToComeAgain, Latest;
    if s.run.Saving? {
      PersistCopies(t);
      StepKeepsSane(t, Persist(true));
      var rest := Announcing(Do(t, Persist(true)), EmitRun, id);
      steps := [Persist(true)] + rest;
      OneStep(t, Persist(true), rest);
    } else {
      steps := Announcing(t, if s.runEmit.Copying? then EmitRun else EmitProgress, id);
    }
  }

  lemma Announcing(s: Sys, who: Step, id: nat) returns (steps: seq<Step>)
    requires Sane(s) && (who.EmitRun? || who.EmitProgress?) && Speech(s, who).Copying? && !s.job.status.Terminal()
    requires id in s.board.subs && id in s.board.chans && s.board.chans[id] == Chan([], [Latest(s)], false, false)
    ensures var t := After(s, steps); id in t.board.chans && !Strict(t.board.chans[id].Trail())
  {
    hide *;
    AboutToCopy(s, who, id);
    StepKeepsSane(s, who);
    var rest := ComesAgain(Do(s, who), who, id);
    steps := [who] + rest;
    OneStep(s, who, rest);
  }

  /** The trail is a subsequence of the history: its places rise and each note is the snapshot there. */
  ghost predicate GetsEachOnce(s: Sys, id: nat) {
    && id in s.board.chans
    && var trail := s.board.chans[id].Trail();
       Strict(trail) && forall i :: 0 <= i < |trail| ==> trail[i].at < |s.history| && s.history[trail[i].at] == trail[i].job
  }

  lemma OnceInOrder(s: Sys, id: nat)
    requires Sane(s) && Singly(s, id)
    ensures GetsEachOnce(s, id)
  {
    assert ChannelInOrder(s.board.chans[id], s.history);
    hide Orderly, Owned, Served, SentOnce, Due, Strict, Earlier, Rising;
  }

  /** A subscriber gets no snapshot twice, whatever happens, if and only if at the moment of subscribing the
      job has ended or an emission of its present snapshot has already copied the subscriber list. What the
      subscriber gets is then a subsequence of the job's snapshots in their order. */
  lemma NoSnapshotTwiceIff(s: Sys, id: nat)
    requires Sane(s) && id !in s.board.chans
    ensures !Unannounced(s) <==> forall steps :: GetsEachOnce(After(Do(s, Subscribe(id)), steps), id)
  {
    var t := Do(s, Subscribe(id));
    StepKeepsSane(s, Subscribe(id));
    hide Sane, Do, After, Unannounced;
    if !Unannounced(s) {
      NewcomerIsNotDue(s, id);
      forall steps ensures GetsEachOnce(After(t, steps), id) {
        RunStaysSingly(t, steps, id);
        AfterIsSane(t, steps);
        OnceInOrder(After(t, steps), id);
      }
    } else {
      var steps := NewcomerGetsItTwice(s, id);
      assert !GetsEachOnce(After(t, steps), id);
    }
  }

  // ---- How the channel ends ---------------------------------------------------------------------

  /** The terminal emission has sent to the channel or given up on it, and is about to close it. */
  predicate Parting(s: Sys, id: nat) {
    s.runEmit.Closing? && LeftOf(s.runEmit) != [] && LeftOf(s.runEmit)[0] == id
  }

  /** The sender gave up on a channel exactly when it is closed, or about to be, without the final snapshot. */
  ghost predicate Flagged(s: Sys, id: nat)
    requires id in s.board.chans
  {
    var c := s.board.chans[id];
    c.gaveUp <==> (c.closed || Parting(s, id)) && Latest(s) !in c.Trail()
  }

  /** So it is with a subscriber's channel, and it lacks the final snapshot as long as that is due. */
  ghost predicate Reckoned(s: Sys, id: nat) {
    && id in s.board.chans && Flagged(s, id)
    && (s.job.status.Terminal() && Due(s, id) ==> Earlier(s.board.chans[id].Trail(), Latest(s).at))
  }

  ghost predicate AllReckoned(s: Sys) {
    forall id :: id in s.board.registered ==> Reckoned(s, id)
  }

  lemma EarlierLacks(trail: seq<Note>, note: Note)
    requires Earlier(trail, note.at)
    ensures note !in trail
  {
  }

  lemma PushEndsIn(c: Chan, note: Note)
    ensures note in c.(buf := c.buf + [note]).Trail()
  {
    assert c.(buf := c.buf + [note]).Trail() == c.Trail() + [note];
  }

  /** While the job runs no channel handed out is closed or given up on. */
  lemma NoneClosedYet(s: Sys, id: nat)
    requires Sane(s) && id in s.board.registered && (s.runEmit.Quiet? || !s.job.status.Terminal()) && !TakenOver(s)
    ensures id in s.board.chans && !s.board.chans[id].closed && !Parting(s, id)
  {
    hide Orderly, Trails, SentOnce, LastWord, Open;
  }

  predicate ClosingOn(e: Emit, id: nat) {
    e.Closing? && LeftOf(e) != [] && LeftOf(e)[0] == id
  }

  /** What an emission step does to the channel whose turn it is, and whether it is to be closed next. */
  lemma EmitServes(s: Sys, e: Emit, id: nat)
    requires EmitsLatest(s, e) && !s.board.panicked && Open(LeftOf(e), s) && id in s.board.chans
    requires e.Draining? || e.Closing? ==> LeftOf(e) != []
    ensures var (t, f) := EmitOne(s, e);
            && id in t.board.chans
            && var c, d := s.board.chans[id], t.board.chans[id];
               if LeftOf(e) == [] || LeftOf(e)[0] != id then d == c && !ClosingOn(f, id)
               else if e.Sending? then
                 if |c.buf| < CAPACITY then d == c.(buf := c.buf + [Latest(s)]) else d == c && !ClosingOn(f, id)
               else if e.Draining? then
                 if c.buf != [] then d == c.(buf := c.buf[1..]) && !ClosingOn(f, id)
                 else d == c.(gaveUp := true) && ClosingOn(f, id)
               else d == c.(closed := true) && !ClosingOn(f, id)
    ensures ClosingOn(EmitOne(s, e).1, id) ==> e.Draining? || s.job.status.Terminal()
  {
    EmitTouches(s, e);
    if LeftOf(e) != [] { FirstOpen(LeftOf(e), s); }
    hide Open, Distinct;
  }

  lemma EmitStaysFlagged(s: Sys, step: Step, id: nat)
    requires Sane(s) && Reckoned(s, id) && (step.EmitRun? || step.EmitProgress?) && !Speech(s, step).Quiet?
    ensures id in Do(s, step).board.chans && Flagged(Do(s, step), id)
  {
    var e, t := Speech(s, step), Do(s, step);
    SpeechIsSound(s, step);
    EmitServes(s, e, id);
    if LeftOf(e) != [] { FirstOpen(LeftOf(e), s); }
    var c := s.board.chans[id];
    PushEndsIn(c, Latest(s));
    if s.job.status.Terminal() && Due(s, id) { EarlierLacks(c.Trail(), Latest(s)); }
    assert t.runEmit == if step.EmitRun? then EmitOne(s, e).1 else t.runEmit;
    hide Sane, Do, EmitOne, Earlier, Latest, Open;
  }

  lemma EmitStaysReckoned(s: Sys, step: Step, id: nat)
    requires Sane(s) && Reckoned(s, id) && (step.EmitRun? || step.EmitProgress?) && !Speech(s, step).Quiet?
    ensures Reckoned(Do(s, step), id)
  {
    EmitStaysFlagged(s, step, id);
    SpeechIsSound(s, step);
    EmitMoves(s, Speech(s, step), id);
    var c := s.board.chans[id];
    if c.buf != [] { DropStaysStrict(c, Latest(s).at); }
    hide Sane, Do, EmitOne, Strict, Earlier, Due, Latest, Open, Unsent, Speech, Flagged;
  }

  /** Where the trail and the flags stay, so does the reckoning. */
  lemma FlagsStay(s: Sys, t: Sys, id: nat)
    requires Reckoned(s, id) && LeavesTrail(s, t, id) && t.job.status == s.job.status
    requires t.board.chans[id].closed == s.board.chans[id].closed && t.board.chans[id].gaveUp == s.board.chans[id].gaveUp
    requires Parting(t, id) == Parting(s, id) && (Latest(t) == Latest(s) || !(s.board.chans[id].closed || Parting(s, id)))
    ensures Reckoned(t, id)
  {
    hide Due, Earlier, Latest, Parting;
  }

  lemma ClientStaysReckoned(s: Sys, step: Step, id: nat)
    requires Sane(s) && Reckoned(s, id)
    ensures Reckoned(DoClient(s, step), id)
  {
    ClientLeavesTrail(s, step, id);
    ClientFrame(s, step);
    ClientKeepsChannels(s, step);
    var t := DoClient(s, step);
    assert Latest(t) == Latest(s);
    hide Sane, DoClient, LeavesTrail, Reckoned, Latest;
    FlagsStay(s, t, id);
  }

  lemma NewcomerIsReckoned(s: Sys, step: Step, id: nat)
    requires Sane(s) && id !in s.board.registered && id in DoClient(s, step).board.registered
    ensures Reckoned(DoClient(s, step), id)
  {
    assert id !in s.board.chans && id !in LeftOf(s.runEmit);
    hide Orderly, Trails, Served, SentOnce, Without, Earlier;
    var t := DoClient(s, step);
    assert t.board.chans[id] == Chan([], [Latest(s)], false, false);
    assert !Parting(t, id) && !t.job.status.Terminal();
  }

  lemma RunStaysReckoned(s: Sys, step: Step, id: nat)
    requires Sane(s) && Reckoned(s, id) && id in s.board.registered && s.runEmit.Quiet?
    ensures Reckoned(DoRun(s, step), id)
  {
    RunLeavesTrail(s, step, id);
    RunFrame(s, step);
    var t := DoRun(s, step);
    if TakenOver(s) {
      NothingLeftToDo(s, step);
    } else {
      NoneClosedYet(s, id);
      hide Sane, DoRun, Due, Latest;
    }
  }

  lemma ProgressStaysReckoned(s: Sys, step: Step, id: nat)
    requires Sane(s) && Reckoned(s, id) && id in s.board.registered && s.progressEmit.Quiet?
    ensures Reckoned(DoProgress(s, step), id)
  {
    ProgressLeavesTrail(s, step, id);
    ProgressFrame(s, step);
    var t := DoProgress(s, step);
    if s.job.status == Transfer { NoneClosedYet(s, id); }
    assert s.job.status != Transfer ==> Latest(t) == Latest(s);
    hide Sane, DoProgress, LeavesTrail, Reckoned, Latest;
    FlagsStay(s, t, id);
  }

  lemma StepStaysReckoned(s: Sys, step: Step, id: nat)
    requires Sane(s) && AllReckoned(s) && id in Do(s, step).board.registered
    ensures Reckoned(Do(s, step), id)
  {
    if step.EmitRun? || step.EmitProgress? {
      if Speech(s, step).Quiet? {
        QuietEmitsNothing(s, step);
      } else {
        EmitRegisters(s, step);
        EmitStaysReckoned(s, step, id);
      }
      hide Sane, Do, Reckoned;
    } else {
      if id in s.board.registered {
        ClientStaysReckoned(s, step, id);
        if s.runEmit.Quiet? { RunStaysReckoned(s, step, id); }
        if s.progressEmit.Quiet? { ProgressStaysReckoned(s, step, id); }
      } else {
        OnlyClientsRegister(s, step);
        NewcomerIsReckoned(s, step, id);
      }
      hide Sane, DoClient, DoRun, DoProgress, EmitOne, Reckoned;
    }
  }

  lemma EmitRegisters(s: Sys, step: Step)
    requires step.EmitRun? || step.EmitProgress?
    ensures Do(s, step).board.registered == s.board.registered
  {
  }

  lemma OnlyClientsRegister(s: Sys, step: Step)
    requires !step.EmitRun? && !step.EmitProgress?
    ensures Do(s, step).board.registered == s.board.registered || Do(s, step) == DoClient(s, step)
  {
    if s.runEmit.Quiet? { RunFrame(s, step); }
    if s.progressEmit.Quiet? { ProgressFrame(s, step); }
    hide DoClient, DoRun, DoProgress, EmitOne;
  }

  lemma {:induction false} AfterIsReckoned(s: Sys, steps: seq<Step>)
    requires Sane(s) && AllReckoned(s)
    ensures AllReckoned(After(s, steps))
    decreases |steps|
  {
    hide Sane, Do, Reckoned;
    if steps != [] {
      forall id | id in Do(s, steps[0]).board.registered ensures Reckoned(Do(s, steps[0]), id) {
        StepStaysReckoned(s, steps[0], id);
      }
      StepKeepsSane(s, steps[0]);
      AfterIsReckoned(Do(s, steps[0]), steps[1..]);
    }
  }

  /** When the job has ended and its last emission is through, every channel handed out and not
      unsubscribed is closed if and only if persisting the done status did not fail. A closed channel ends
      with the final snapshot if the forced send did not give up on it, and never got it otherwise. */
  lemma ClosedInTheEndIff(steps: seq<Step>, id: nat)
    requires var s := After(START, steps); s.run.Stopped? && s.runEmit.Quiet? && id in s.board.registered && id !in s.board.unsubscribed
    ensures var s := After(START, steps); id in s.board.chans && (s.board.chans[id].closed <==> !s.lostDone)
    ensures var s := After(START, steps); var c := s.board.chans[id];
            c.closed ==> if c.gaveUp then Latest(s) !in c.Trail() else c.Trail() != [] && c.Trail()[|c.Trail()| - 1] == Latest(s)
  {
    StartIsSane();
    AfterIsSane(START, steps);
    AfterIsReckoned(START, steps);
    var s := After(START, steps);
    assert Reckoned(s, id);
    hide After, Orderly, Trails, Owned, SentOnce, Due, Earlier, Latest;
  }

  // ---- After unsubscribing ----------------------------------------------------------------------

  /** No list names the channel, neither the job's nor one that an emission has copied. */
  predicate OnNoList(s: Sys, id: nat) {
    id in s.board.chans && id !in s.board.subs && id !in LeftOf(s.runEmit) && id !in LeftOf(s.progressEmit)
  }

  /** Nothing is sent to the channel or closed from one state to the other; its receiver may take out what is there. */
  predicate NothingCame(s: Sys, t: Sys, id: nat) {
    && id in s.board.chans && id in t.board.chans
    && t.board.chans[id].Trail() == s.board.chans[id].Trail()
    && t.board.chans[id].closed == s.board.chans[id].closed && t.board.chans[id].gaveUp == s.board.chans[id].gaveUp
  }

  lemma EmitPassesBy(s: Sys, e: Emit, id: nat)
    requires id in s.board.chans && id !in s.board.subs && id !in LeftOf(e)
    ensures var (t, f) := EmitOne(s, e); NothingCame(s, t, id) && id !in t.board.subs && id !in LeftOf(f)
  {
    hide Latest;
  }

  lemma ClientKeepsFlags(s: Sys, step: Step, id: nat)
    requires id in s.board.chans
    ensures var t := DoClient(s, step);
            && id in t.board.chans
            && t.board.chans[id].closed == s.board.chans[id].closed && t.board.chans[id].gaveUp == s.board.chans[id].gaveUp
  {
    hide Without;
  }

  lemma ClientPassesBy(s: Sys, step: Step, id: nat)
    requires OnNoList(s, id)
    ensures OnNoList(DoClient(s, step), id) && NothingCame(s, DoClient(s, step), id)
  {
    ClientFrame(s, step);
    ClientKeepsAllTrails(s, step);
    ClientKeepsFlags(s, step, id);
    hide DoClient, Before;
  }

  lemma StepPassesBy(s: Sys, step: Step, id: nat)
    requires OnNoList(s, id)
    ensures OnNoList(Do(s, step), id) && NothingCame(s, Do(s, step), id)
  {
    if step.EmitRun? || step.EmitProgress? {
      var e := if step.EmitRun? then s.runEmit else s.progressEmit;
      EmitFrame(s, e);
      EmitPassesBy(s, e, id);
      hide EmitOne;
    } else {
      ClientPassesBy(s, step, id);
      if s.runEmit.Quiet? { RunFrame(s, step); }
      if s.progressEmit.Quiet? { ProgressFrame(s, step); }
      hide EmitOne, DoRun, DoClient, DoProgress;
    }
  }

  lemma {:induction false} RunPassesBy(s: Sys, steps: seq<Step>, id: nat)
    requires OnNoList(s, id)
    ensures NothingCame(s, After(s, steps), id)
    decreases |steps|
  {
    if steps != [] {
      StepPassesBy(s, steps[0], id);
      RunPassesBy(Do(s, steps[0]), steps[1..], id);
      hide Do, OnNoList;
    }
  }

  /** A channel that its subscriber takes off the list, while no emission holds a copy of the list with it,
      gets nothing more and is never closed, whatever happens afterwards. */
  lemma UnsubscribedGetsNoMore(s: Sys, steps: seq<Step>, id: nat)
    requires id in s.board.chans && id !in LeftOf(s.runEmit) && id !in LeftOf(s.progressEmit)
    ensures NothingCame(s, After(Do(s, Unsubscribe(id)), steps), id)
  {
    WithoutMembers(s.board.subs, id);
    RunPassesBy(Do(s, Unsubscribe(id)), steps, id);
    hide Without, After;
  }
}
