/** What whole runs of a backup job do: where they may go, how they end, and what can go wrong. */
module JobRuns {
  import opened BackupJob
  import opened Subscribers

  // ---- Whole runs -------------------------------------------------------------------------------

  /** Terminal states absorb, and every step leaves the job no earlier than it was. */
  lemma StepNeverGoesBack(s: Sys, step: Step)
    requires Orderly(s)
    ensures var t := Do(s, step);
            && NotAfter(s.job, t.job)
            && (s.job.status.Terminal() ==> t.job == s.job && t.transitions == s.transitions)
  {
    if step.EmitRun? || step.EmitProgress? {
      EmitFrame(s, if step.EmitRun? then s.runEmit else s.progressEmit);
    } else {
      hide EmitOne;
      ClientFrame(s, step);
      if s.runEmit.Quiet? {
        RunAdvances(s, step);
        if s.job.status.Terminal() { TerminalAbsorbs(s, step); }
      }
      hide DoRun, DoClient, InStage, Recorded;
    }
  }

  lemma TerminalAbsorbs(s: Sys, step: Step)
    requires InStage(s) && s.job.status.Terminal()
    ensures DoRun(s, step).job == s.job && DoRun(s, step).transitions == s.transitions
  {
    assert s.run.Stopped? || !Unsuccessful(s.job.status);
    hide Passed, BrokeOff, Latest;
  }

  lemma {:induction false} NeverGoesBack(s: Sys, steps: seq<Step>)
    requires Sane(s)
    ensures var t := After(s, steps);
            && NotAfter(s.job, t.job)
            && (s.job.status.Terminal() ==> t.job == s.job && t.transitions == s.transitions)
    decreases |steps|
  {
    if steps != [] {
      StepNeverGoesBack(s, steps[0]);
      StepKeepsSane(s, steps[0]);
      NeverGoesBack(Do(s, steps[0]), steps[1..]);
      hide Sane, Do;
    }
  }

  /** The run goroutine has not yet passed the last context check. */
  predicate BeforeLastCheck(s: Sys) {
    s.job.status != Done && s.run != Setting(Done)
  }

  lemma CancelStays(s: Sys, step: Step)
    requires Orderly(s) && s.cancelled && BeforeLastCheck(s)
    ensures Do(s, step).cancelled && BeforeLastCheck(Do(s, step))
  {
    if step.EmitRun? || step.EmitProgress? {
      EmitFrame(s, if step.EmitRun? then s.runEmit else s.progressEmit);
      EmitKeepsCancel(s, if step.EmitRun? then s.runEmit else s.progressEmit);
      hide EmitOne;
    } else {
      RunKeepsCancel(s, step);
      hide EmitOne, DoRun, InStage, Recorded, Latest, Without;
    }
  }

  lemma RunKeepsCancel(s: Sys, step: Step)
    requires InStage(s) && s.cancelled && BeforeLastCheck(s)
    ensures DoRun(s, step).cancelled && BeforeLastCheck(DoRun(s, step))
  {
    hide Passed, BrokeOff, Latest;
    match step
    case Check =>
    case Set =>
    case Persist(_) =>
    case Finish =>
    case Merge(_) =>
    case OrganizeEnds(_, _) =>
    case _ =>
  }

  lemma EmitKeepsCancel(s: Sys, e: Emit)
    ensures EmitOne(s, e).0.cancelled == s.cancelled
  {
  }

  /** A cancellation that takes effect before the last context check keeps the job from ever being done. */
  lemma {:induction false} CancelExcludesDone(s: Sys, steps: seq<Step>)
    requires Sane(s) && s.cancelled && BeforeLastCheck(s)
    ensures After(s, steps).job.status != Done
    decreases |steps|
  {
    if steps != [] {
      CancelStays(s, steps[0]);
      StepKeepsSane(s, steps[0]);
      CancelExcludesDone(Do(s, steps[0]), steps[1..]);
      hide Sane, Do;
    }
  }

  // ---- Ending cancelled -------------------------------------------------------------------------

  /** Nobody has cancelled the job, and its stream has not been interrupted. */
  predicate Uninterrupted(s: Sys) {
    && !s.cancelled && s.job.status != Cancelled
    && s.run != Finishing(Cancelled) && s.run != Waiting(Interrupted)
    && (s.run.Checking? ==> s.run.next != Cancelled) && (s.run.Setting? ==> s.run.next != Cancelled)
  }

  lemma StepStaysUninterrupted(s: Sys, step: Step)
    requires Uninterrupted(s) && step != CancelContext && step != StreamEnds(Interrupted)
    ensures Uninterrupted(Do(s, step))
  {
    if step.EmitRun? || step.EmitProgress? {
      var e := if step.EmitRun? then s.runEmit else s.progressEmit;
      EmitFrame(s, e);
      EmitKeepsCancel(s, e);
      hide EmitOne;
    } else {
      ClientFrame(s, step);
      hide EmitOne, Without, Latest;
    }
  }

  /** A job that nobody cancels, and whose stream does not end interrupted, never ends as cancelled. */
  lemma {:induction false} CancelledOnlyIfAsked(s: Sys, steps: seq<Step>)
    requires Uninterrupted(s) && CancelContext !in steps && StreamEnds(Interrupted) !in steps
    ensures After(s, steps).job.status != Cancelled
    decreases |steps|
  {
    if steps != [] {
      StepStaysUninterrupted(s, steps[0]);
      CancelledOnlyIfAsked(Do(s, steps[0]), steps[1..]);
      hide Do, Uninterrupted;
    }
  }

  /** Cancelled in time, and nothing has failed so far. */
  predicate Clean(s: Sys) {
    s.cancelled && BeforeLastCheck(s) && s.job.status != Failed && s.run != Finishing(Failed) && s.run != Waiting(Broken)
  }

  /** Cancelled in time, but on the way to failing, or failed. */
  predicate Spoiled(s: Sys) {
    s.cancelled && BeforeLastCheck(s) && (s.job.status == Failed || s.run == Finishing(Failed) || s.run == Waiting(Broken))
  }

  /** The steps that take effect as a failure: opening the stream, persisting a status, the stream, or the
      ingest. */
  predicate Spoils(s: Sys, step: Step) {
    s.runEmit.Quiet? &&
    match step
    case OpenFails => s.run.Opening?
    case Persist(ok) => s.run.Saving? && !ok
    case StreamEnds(outcome) => s.run.Streaming? && outcome.Broken?
    case OrganizeEnds(outcome, _) => s.run.Organizing? && outcome.Broken?
    case _ => false
  }

  lemma RunSpoilsIff(s: Sys, step: Step)
    requires InStage(s) && Clean(s) && s.runEmit.Quiet?
    ensures Spoils(s, step) ==> Spoiled(DoRun(s, step))
    ensures !Spoils(s, step) ==> Clean(DoRun(s, step))
  {
    assert s.run.Stopped? || !Unsuccessful(s.job.status);
    hide Passed, BrokeOff, Latest;
    match step
    case Finish =>
    case Set =>
    case Persist(_) =>
    case Merge(_) =>
    case OrganizeEnds(_, _) =>
    case Join =>
    case _ =>
  }

  lemma RunStaysSpoiled(s: Sys, step: Step)
    requires InStage(s) && Spoiled(s) && s.runEmit.Quiet?
    ensures Spoiled(DoRun(s, step))
  {
    assert s.run.Stopped? || !Unsuccessful(s.job.status);
    hide Passed, BrokeOff, Latest;
    match step
    case Finish =>
    case Join =>
    case _ =>
  }

  lemma FailedIsStopped(s: Sys)
    requires InStage(s) && s.job.status == Failed
    ensures s.run.Stopped?
  {
    hide BrokeOff;
  }

  lemma StepSpoilsIff(s: Sys, step: Step)
    requires Orderly(s) && (Clean(s) || Spoiled(s))
    ensures Clean(Do(s, step)) <==> Clean(s) && !Spoils(s, step)
    ensures Clean(Do(s, step)) || Spoiled(Do(s, step))
  {
    CancelStays(s, step);
    if s.job.status == Failed { FailedIsStopped(s); }
    if step.EmitRun? || step.EmitProgress? {
      EmitFrame(s, if step.EmitRun? then s.runEmit else s.progressEmit);
      hide EmitOne;
    } else {
      ClientFrame(s, step);
      if s.runEmit.Quiet? {
        if Clean(s) { RunSpoilsIff(s, step); } else { RunStaysSpoiled(s, step); }
      }
      hide EmitOne, DoRun, DoClient, InStage, Recorded, Latest, Without;
    }
  }

  /** No step of the run takes effect as a failure. */
  predicate NothingFails(s: Sys, steps: seq<Step>)
    decreases |steps|
  {
    steps == [] || (!Spoils(s, steps[0]) && NothingFails(Do(s, steps[0]), steps[1..]))
  }

  lemma {:induction false} CleanIff(s: Sys, steps: seq<Step>)
    requires Sane(s) && (Clean(s) || Spoiled(s))
    ensures Clean(After(s, steps)) <==> Clean(s) && NothingFails(s, steps)
    ensures Clean(After(s, steps)) || Spoiled(After(s, steps))
    decreases |steps|
  {
    if steps != [] {
      StepSpoilsIff(s, steps[0]);
      StepKeepsSane(s, steps[0]);
      hide Sane, Do, Clean, Spoiled, Spoils;
      CleanIff(Do(s, steps[0]), steps[1..]);
    }
  }

  /** A job that is cancelled in time, with nothing failed so far, ends as cancelled exactly when no later
      step takes effect as a failure, and otherwise as failed. */
  lemma EndsCancelledIff(s: Sys, steps: seq<Step>)
    requires Sane(s) && Clean(s) && After(s, steps).run.Stopped?
    ensures After(s, steps).job.status == Cancelled <==> NothingFails(s, steps)
    ensures After(s, steps).job.status == Failed <==> !NothingFails(s, steps)
  {
    CleanIff(s, steps);
    AfterIsSane(s, steps);
    hide After, NothingFails, Passed, Trails, Owned, Served, SentOnce, OneVoice, Recorded;
  }

  // ---- Runs from the start ----------------------------------------------------------------------

  lemma {:induction false} AfterConcat(s: Sys, a: seq<Step>, b: seq<Step>)
    ensures After(s, a + b) == After(After(s, a), b)
    decreases |a|
  {
    if a == [] {
      assert a + b == b;
    } else {
      assert (a + b)[0] == a[0] && (a + b)[1..] == a[1..] + b;
      hide Do;
      AfterConcat(Do(s, a[0]), a[1..], b);
    }
  }

  lemma AfterOne(s: Sys, step: Step)
    ensures After(s, [step]) == Do(s, step)
  {
    hide Do;
    assert [step][1..] == [];
  }

  lemma AfterThree(s: Sys, a: Step, b: Step, c: Step)
    ensures After(s, [a, b, c]) == Do(Do(Do(s, a), b), c)
  {
    hide Do;
    assert [a, b, c][1..] == [b, c] && [b, c][1..] == [c];
    AfterOne(Do(Do(s, a), b), c);
  }

  /** The stages a job announces while it runs. */
  predicate Underway(st: Status) {
    st == Transfer || st == Organize || st == Index
  }

  predicate Untouched(c: Chan, n: nat) {
    c.got == [] && |c.buf| == n && !c.closed && !c.gaveUp
  }

  /** Subscriber 0 is the only one; its channel is open and holds n notes, all of snapshots so far. */
  ghost predicate Watched(s: Sys, n: nat) {
    && s.progress.Absent? && s.progressEmit.Quiet? && !s.lostDone
    && s.board.subs == [0] && s.board.registered == {0} && s.board.unsubscribed == {} && !s.board.panicked
    && 0 in s.board.chans
    && Untouched(s.board.chans[0], n)
    && forall note :: note in s.board.chans[0].buf ==> note.at < |s.history|
  }

  /** Three steps send a running job's snapshot to the one subscriber. */
  lemma Sent(s: Sys, n: nat)
    requires Watched(s, n) && n < CAPACITY && s.runEmit.Copying? && s.runEmit.note == Latest(s) && s.history != []
    requires !s.job.status.Terminal()
    ensures var t := After(s, [EmitRun, EmitRun, EmitRun]);
            && Watched(t, n + 1) && SameJob(s, t) && t.cancelled == s.cancelled && t.runEmit.Quiet?
  {
    AfterThree(s, EmitRun, EmitRun, EmitRun);
    var s1 := Do(s, EmitRun);
    assert s1.runEmit == Sending(s.runEmit.note, [0]) && s1.board == s.board;
    var s2 := Do(s1, EmitRun);
    assert [0][1..] == [];
    assert s2.runEmit == Sending(s.runEmit.note, []);
    assert s2.board == s.board.(chans := s2.board.chans);
    assert s2.board.chans[0].buf == s.board.chans[0].buf + [s.runEmit.note];
    var s3 := Do(s2, EmitRun);
    assert s3.runEmit.Quiet? && s3.board == s2.board;
  }

  /** Six steps announce the next stage to the one subscriber. */
  lemma Announce(s: Sys, next: Status, n: nat) returns (steps: seq<Step>)
    requires Watched(s, n) && n < CAPACITY && s.runEmit.Quiet? && !s.cancelled
    requires s.run == Checking(next) && Underway(next) && !s.job.status.Terminal()
    ensures var t := After(s, steps);
            && Watched(t, n + 1) && t.run == AfterStatus(next) && t.job.status == next && t.runEmit.Quiet? && !t.cancelled
  {
    AfterThree(s, Check, Set, Persist(true));
    var t := Do(Do(Do(s, Check), Set), Persist(true));
    assert Do(s, Check).run == Setting(next);
    assert Do(Do(s, Check), Set).run == Saving(next);
    assert t.runEmit == Copying(Latest(t));
    Sent(t, n);
    steps := [Check, Set, Persist(true)] + [EmitRun, EmitRun, EmitRun];
    AfterConcat(s, [Check, Set, Persist(true)], [EmitRun, EmitRun, EmitRun]);
  }

  /** A job with one subscriber, up to the open stream. */
  lemma UpToTransfer() returns (steps: seq<Step>)
    ensures var t := After(START, steps);
            Watched(t, 2) && t.run == Opening && t.job.status == Transfer && t.runEmit.Quiet? && !t.cancelled
  {
    AfterOne(START, Subscribe(0));
    var s := Do(START, Subscribe(0));
    assert Watched(s, 1);
    var more := Announce(s, Transfer, 1);
    steps := [Subscribe(0)] + more;
    AfterConcat(START, [Subscribe(0)], more);
  }

  /** A run in which the cancellation comes while the stream is being opened, and the job ends as failed. */
  lemma CancelWhileOpeningFails() returns (before: seq<Step>, steps: seq<Step>)
    ensures var s := After(START, before); Clean(s) && s.run.Opening? && !s.job.status.Terminal()
    ensures steps == [OpenFails, Finish]
    ensures var t := After(START, before + steps); t.cancelled && t.run.Stopped? && t.job.status == Failed
  {
    var opening := UpToTransfer();
    var s0 := After(START, opening);
    before, steps := opening + [CancelContext], [OpenFails, Finish];
    AfterConcat(START, opening, [CancelContext]);
    AfterOne(s0, CancelContext);
    var s := Do(s0, CancelContext);
    AfterConcat(START, before, steps);
    assert [OpenFails, Finish][1..] == [Finish];
    AfterOne(Do(s, OpenFails), Finish);
    hide Watched;
    assert Do(s, OpenFails).run == Finishing(Failed);
  }

  lemma SubscribedWhileSaving() returns (steps: seq<Step>)
    ensures var s := After(START, steps);
            && s.run == Saving(Transfer) && s.job.status == Transfer && s.runEmit.Quiet?
            && s.board.subs == [0] && 0 in s.board.chans && s.board.chans[0] == Chan([], [Latest(s)], false, false)
  {
    AfterThree(START, Check, Set, Subscribe(0));
    var s2 := Do(Do(START, Check), Set);
    assert s2.run == Saving(Transfer) && 0 !in s2.board.chans;
    steps := [Check, Set, Subscribe(0)];
  }

  /** Subscribing between a change of status and its announcement delivers one snapshot twice. */
  lemma FirstNoteCanComeTwice() returns (steps: seq<Step>)
    ensures var t := After(START, steps); 0 in t.board.chans && t.board.chans[0].Trail() == [Latest(t), Latest(t)]
  {
    var first := SubscribedWhileSaving();
    var s := After(START, first);
    var note := Latest(s);
    AfterThree(s, Persist(true), EmitRun, EmitRun);
    steps := first + [Persist(true), EmitRun, EmitRun];
    AfterConcat(START, first, [Persist(true), EmitRun, EmitRun]);
    hide After;
    var t := Do(s, Persist(true));
    assert t.runEmit == Copying(note) && t.board == s.board && Latest(t) == note;
    var u := Do(t, EmitRun);
    assert u.runEmit == Sending(note, [0]) && u.board == s.board && Latest(u) == note;
    assert Do(u, EmitRun).board.chans[0].buf == [note] + [note];
  }

  /** Between its two selects, a forced send gives up exactly when the receiver has emptied the buffer;
      otherwise it makes room and its next try succeeds. */
  lemma ForcedSendGivesUpIff(s: Sys)
    requires Sane(s) && s.runEmit.Draining?
    ensures var id, t := s.runEmit.subscribers[0], Do(s, EmitRun);
            && id in s.board.chans && id in t.board.chans
            && (s.board.chans[id].buf == [] ==> t.runEmit.Closing? && t.board.chans[id].Trail() == s.board.chans[id].Trail())
            && (s.board.chans[id].buf != [] ==>
                  var u := Do(t, EmitRun);
                  && u.runEmit.Closing? && id in u.board.chans
                  && u.board.chans[id].Trail() == s.board.chans[id].got + s.board.chans[id].buf[1..] + [Latest(s)])
  {
    RunAlone(s);
    FirstOpen(LeftOf(s.runEmit), s);
    var id := s.runEmit.subscribers[0];
    assert s.job.status.Terminal();
    assert |s.board.chans[id].buf| <= CAPACITY by { assert ChannelInOrder(s.board.chans[id], s.history); }
    hide Orderly, Trails, Owned, Served, Open, Latest;
    var c := s.board.chans[id];
    if c.buf != [] {
      assert c.got + (c.buf[1..] + [s.runEmit.note]) == c.got + c.buf[1..] + [s.runEmit.note];
    }
  }

  /** Persisting the done status has failed, and this subscriber's channel is open. */
  predicate Abandoned(s: Sys, id: nat) {
    s.lostDone && id in s.board.registered && id in s.board.chans && !s.board.chans[id].closed
  }

  lemma AbandonedStays(s: Sys, step: Step, id: nat)
    requires Sane(s) && Abandoned(s, id)
    ensures Abandoned(Do(s, step), id)
  {
    assert s.job.status == Done && s.runEmit.Quiet? && s.progressEmit.Quiet?;
    if step.EmitRun? || step.EmitProgress? {
      QuietEmitsNothing(s, step);
    } else {
      hide EmitOne, Passed, BrokeOff, Recorded, Latest, Without, Trails, Owned, Served;
    }
  }

  /** When persisting the done status fails, subscribers wait for ever: their channels are never closed. */
  lemma {:induction false} LostDoneNeverCloses(s: Sys, steps: seq<Step>, id: nat)
    requires Sane(s) && Abandoned(s, id)
    ensures Abandoned(After(s, steps), id)
    decreases |steps|
  {
    if steps != [] {
      AbandonedStays(s, steps[0], id);
      StepKeepsSane(s, steps[0]);
      LostDoneNeverCloses(Do(s, steps[0]), steps[1..], id);
      hide Sane, Do;
    }
  }

  lemma UpToOrganize() returns (steps: seq<Step>)
    ensures var t := After(START, steps); Watched(t, 3) && t.run == Organizing && t.runEmit.Quiet? && !t.cancelled && t.job.status == Organize
  {
    var a := UpToTransfer();
    var s := After(START, a);
    var b := [OpenOk(false), StreamEnds(Fine), Join];
    AfterThree(s, OpenOk(false), StreamEnds(Fine), Join);
    AfterConcat(START, a, b);
    hide After;
    var u := Do(Do(s, OpenOk(false)), StreamEnds(Fine));
    assert u.run == Waiting(Fine) && Watched(u, 2) && !u.cancelled;
    var t := Do(u, Join);
    assert t.run == Checking(Organize) && Watched(t, 2);
    var c := Announce(t, Organize, 2);
    steps := a + b + c;
    AfterConcat(START, a + b, c);
  }

  lemma UpToIndex() returns (steps: seq<Step>)
    ensures var t := After(START, steps); Watched(t, 5) && t.run == Checking(Done) && t.runEmit.Quiet? && !t.cancelled && t.job.status == Index
  {
    var a := UpToOrganize();
    var s := After(START, a);
    var b := [OrganizeEnds(Fine, 0)];
    AfterOne(s, OrganizeEnds(Fine, 0));
    AfterConcat(START, a, b);
    var t := Do(s, OrganizeEnds(Fine, 0));
    assert Watched(t, 3) && t.run == Checking(Index) && t.runEmit == Copying(Latest(t)) && t.job.status == Organize && t.history != [];
    var c := [EmitRun, EmitRun, EmitRun];
    Sent(t, 3);
    AfterConcat(START, a + b, c);
    var d := Announce(After(t, c), Index, 4);
    steps := a + b + c + d;
    AfterConcat(START, a + b + c, d);
  }

  /** A run that ends so: every stage announced to a subscriber, and then the done status not persisted. */
  lemma DoneCanBeLost() returns (steps: seq<Step>)
    ensures Abandoned(After(START, steps), 0) && After(START, steps).board.unsubscribed == {}
  {
    var a := UpToIndex();
    var s := After(START, a);
    AfterThree(s, Check, Set, Persist(false));
    steps := a + [Check, Set, Persist(false)];
    AfterConcat(START, a, [Check, Set, Persist(false)]);
    hide After;
    assert Do(s, Check).run == Setting(Done);
    assert Do(Do(s, Check), Set).run == Saving(Done);
  }

  // ---- A run in which the forced send gives up --------------------------------------------------

  ghost predicate Filling(s: Sys, n: nat) {
    Watched(s, n) && s.run == Streaming && s.runEmit.Quiet? && !s.cancelled && s.job.status == Transfer && s.history != []
  }

  lemma OneMoreChunk(s: Sys, n: nat) returns (steps: seq<Step>)
    requires Filling(s, n) && n < CAPACITY
    ensures Filling(After(s, steps), n + 1)
  {
    var t := Do(Do(s, TakeChunk), Merge(0));
    assert Do(s, TakeChunk).run == Merging;
    assert t.run == Streaming && t.runEmit == Copying(Latest(t)) && t.history == s.history + [t.job];
    AfterConcat(s, [TakeChunk], [Merge(0)]);
    AfterOne(s, TakeChunk);
    AfterOne(Do(s, TakeChunk), Merge(0));
    AfterConcat(s, [TakeChunk] + [Merge(0)], [EmitRun, EmitRun, EmitRun]);
    steps := [TakeChunk] + [Merge(0)] + [EmitRun, EmitRun, EmitRun];
    hide After, Do;
    Sent(t, n);
  }

  /** Chunks fill the subscriber's channel. */
  lemma {:induction false} Fill(s: Sys, n: nat) returns (steps: seq<Step>)
    requires Filling(s, n) && n <= CAPACITY
    ensures Filling(After(s, steps), CAPACITY)
    decreases CAPACITY - n
  {
    if n == CAPACITY {
      steps := [];
    } else {
      var a := OneMoreChunk(s, n);
      hide After, Filling;
      var b := Fill(After(s, a), n + 1);
      steps := a + b;
      AfterConcat(s, a, b);
    }
  }

  /** The final snapshot is to be forced into the channel, between the two selects, and n notes are in
      the way. */
  ghost predicate Stuck(s: Sys, n: nat) {
    && s.runEmit == Draining(Latest(s), [0]) && s.run.Stopped? && s.job.status == Failed
    && 0 in s.board.chans && |s.board.chans[0].buf| == n && !s.board.chans[0].gaveUp
    && Latest(s) !in s.board.chans[0].Trail()
  }

  lemma BreakIs(s: Sys)
    requires s.run == Streaming && s.runEmit.Quiet? && s.progress.Absent?
    ensures Do(Do(s, StreamEnds(Broken)), Join) == s.(run := Finishing(Failed))
  {
    assert Do(s, StreamEnds(Broken)) == s.(run := Waiting(Broken));
  }

  lemma FinishIs(s: Sys)
    requires s.run == Finishing(Failed) && s.runEmit.Quiet? && !s.job.status.Terminal()
    ensures var t := Do(s, Finish);
            && t.run.Stopped? && t.job.status == Failed && t.board == s.board
            && t.runEmit == Copying(Latest(t)) && Latest(t).at == |s.history|
  {
  }

  lemma StreamBreaks(s: Sys)
    requires Filling(s, CAPACITY)
    ensures var t := After(s, [StreamEnds(Broken), Join, Finish]);
            && t.run.Stopped? && t.job.status == Failed && t.runEmit == Copying(Latest(t)) && t.board == s.board
            && Latest(t).at == |s.history|
  {
    AfterThree(s, StreamEnds(Broken), Join, Finish);
    BreakIs(s);
    hide After, Do, Latest;
    FinishIs(s.(run := Finishing(Failed)));
  }

  /** A final emission that meets a full channel. */
  lemma MeetsFull(s: Sys, c: Chan)
    requires s.run.Stopped? && s.job.status == Failed && s.runEmit == Copying(Latest(s)) && s.board.subs == [0]
    requires 0 in s.board.chans && s.board.chans[0] == c && |c.buf| == CAPACITY && !c.closed && !c.gaveUp
    requires Latest(s) !in c.Trail()
    ensures Stuck(After(s, [EmitRun] + [EmitRun]), CAPACITY)
  {
    var t := Do(s, EmitRun);
    assert t.runEmit == Sending(Latest(s), [0]) && t.board.chans == s.board.chans && Latest(t) == Latest(s);
    AfterConcat(s, [EmitRun], [EmitRun]);
    AfterOne(s, EmitRun);
    AfterOne(t, EmitRun);
    hide After;
    var u := Do(t, EmitRun);
    assert u.runEmit == Draining(Latest(s), [0]) && u.board.chans == s.board.chans && Latest(u) == Latest(s);
  }

  lemma FailsFull(s: Sys) returns (steps: seq<Step>)
    requires Filling(s, CAPACITY)
    ensures Stuck(After(s, steps), CAPACITY)
  {
    var c := s.board.chans[0];
    StreamBreaks(s);
    var t := After(s, [StreamEnds(Broken), Join, Finish]);
    assert c.Trail() == c.buf;
    hide After, Do, Stuck;
    MeetsFull(t, c);
    steps := [StreamEnds(Broken), Join, Finish] + ([EmitRun] + [EmitRun]);
    AfterConcat(s, [StreamEnds(Broken), Join, Finish], [EmitRun] + [EmitRun]);
  }

  /** The receiver can take everything out meanwhile. */
  lemma {:induction false} Overtaken(s: Sys, n: nat) returns (steps: seq<Step>)
    requires Stuck(s, n)
    ensures Stuck(After(s, steps), 0)
    decreases n
  {
    if n == 0 {
      steps := [];
    } else {
      var t := Do(s, Receive(0));
      ReceiveKeepsTrail(s.board.chans[0]);
      assert Latest(t) == Latest(s) && t.board.chans[0].Trail() == s.board.chans[0].Trail();
      assert Stuck(t, n - 1);
      hide Stuck;
      var rest := Overtaken(t, n - 1);
      steps := [Receive(0)] + rest;
      AfterOne(s, Receive(0));
      AfterConcat(s, [Receive(0)], rest);
    }
  }

  /** A run in which it gives up: the channel is then closed, or about to be, without the final snapshot. */
  lemma GivingUpCanHappen() returns (steps: seq<Step>)
    ensures var t := After(START, steps);
            && t.job.status == Failed && 0 in t.board.chans && t.board.chans[0].gaveUp
            && t.runEmit == Closing(Latest(t), [0]) && Latest(t) !in t.board.chans[0].Trail()
  {
    var a := UpToTransfer();
    var s := After(START, a);
    AfterOne(s, OpenOk(false));
    AfterConcat(START, a, [OpenOk(false)]);
    StartIsSane();
    AfterIsSane(START, a);
    assert s.history != [];
    var s1 := Do(s, OpenOk(false));
    assert Filling(s1, 2);
    hide After, Filling, Stuck, Sane;
    var b := Fill(s1, 2);
    AfterConcat(START, a + [OpenOk(false)], b);
    var c := FailsFull(After(s1, b));
    AfterConcat(START, a + [OpenOk(false)] + b, c);
    var s2 := After(After(s1, b), c);
    var d := Overtaken(s2, CAPACITY);
    AfterConcat(START, a + [OpenOk(false)] + b + c, d);
    var s3 := After(s2, d);
    AfterConcat(START, a + [OpenOk(false)] + b + c + d, [EmitRun]);
    AfterOne(s3, EmitRun);
    LastStraw(s3);
    steps := a + [OpenOk(false)] + b + c + d + [EmitRun];
  }

  lemma LastStraw(s: Sys)
    requires Stuck(s, 0)
    ensures var t := Do(s, EmitRun);
            && t.job.status == Failed && 0 in t.board.chans && t.board.chans[0].gaveUp
            && t.runEmit == Closing(Latest(t), [0]) && Latest(t) !in t.board.chans[0].Trail()
  {
    var c := s.board.chans[0];
    assert c.(gaveUp := true).Trail() == c.Trail();
    EmitFrame(s, s.runEmit);
  }

  // ---- The end of the last emission -------------------------------------------------------------

  predicate Full(s: Sys, id: nat) {
    id in s.board.chans && |s.board.chans[id].buf| >= CAPACITY
  }

  /** How many steps of its own the run goroutine's emission needs at most. */
  function StepsLeft(s: Sys): int {
    match s.runEmit
    case Quiet => 0
    case Copying(_) => 4 * |s.board.subs| + 2
    case Sending(_, left) => if left == [] then 1 else if Full(s, left[0]) then 4 * |left| + 1 else 4 * |left| - 1
    case Draining(_, left) => 4 * |left|
    case Closing(_, left) => 4 * |left| - 2
  }

  lemma EmitUsesAStep(s: Sys)
    requires Sane(s) && s.run.Stopped? && !s.runEmit.Quiet?
    ensures StepsLeft(Do(s, EmitRun)) < StepsLeft(s)
  {
    RunAlone(s);
    assert s.job.status.Terminal();
    if LeftOf(s.runEmit) != [] {
      FirstOpen(LeftOf(s.runEmit), s);
      assert ChannelInOrder(s.board.chans[LeftOf(s.runEmit)[0]], s.history);
    }
    hide Orderly, Trails, Owned, Served, SentOnce, Open, InOrder, Latest;
  }

  lemma {:induction false} WithoutIsShorter(subs: seq<nat>, id: nat)
    ensures |Without(subs, id)| <= |subs|
  {
    if subs != [] { WithoutIsShorter(subs[1..], id); }
  }

  lemma OthersAddNoSteps(s: Sys, step: Step)
    requires Sane(s) && s.run.Stopped? && !step.EmitRun?
    ensures var t := Do(s, step); t.run.Stopped? && StepsLeft(t) <= StepsLeft(s)
  {
    assert s.job.status.Terminal() && s.progressEmit.Quiet? && !s.progress.Listening? by {
      hide Trails, Owned, Served, SentOnce, Recorded, BrokeOff, Passed;
    }
    hide Sane;
    if step.Unsubscribe? { WithoutIsShorter(s.board.subs, step.id); }
    if step.EmitProgress? {
      QuietEmitsNothing(s, step);
      hide EmitOne;
    } else {
      hide EmitOne, Without, Latest;
    }
  }

  function EmitSteps(steps: seq<Step>): nat {
    if steps == [] then 0 else (if steps[0].EmitRun? then 1 else 0) + EmitSteps(steps[1..])
  }

  /** Once the job has ended, its emission is over after so many steps of its own, whatever receivers,
      subscribers and everybody else do between them. */
  lemma {:induction false} EmissionEnds(s: Sys, steps: seq<Step>)
    requires Sane(s) && s.run.Stopped? && EmitSteps(steps) >= StepsLeft(s)
    ensures var t := After(s, steps); t.run.Stopped? && t.runEmit.Quiet?
    decreases |steps|
  {
    if steps == [] {
      NothingLeftIsQuiet(s);
    } else {
      StepKeepsSane(s, steps[0]);
      if !steps[0].EmitRun? {
        OthersAddNoSteps(s, steps[0]);
      } else if s.runEmit.Quiet? {
        QuietEmitsNothing(s, EmitRun);
      } else {
        EmitUsesAStep(s);
        EmitFrame(s, s.runEmit);
      }
      hide Sane, StepsLeft, EmitOne;
      assert StepsLeft(Do(s, steps[0])) <= EmitSteps(steps[1..]);
      EmissionEnds(Do(s, steps[0]), steps[1..]);
    }
  }

  lemma NothingLeftIsQuiet(s: Sys)
    requires Sane(s) && StepsLeft(s) <= 0
    ensures s.runEmit.Quiet?
  {
    hide Orderly, Trails, Served, SentOnce, Open;
  }

  /** So every subscriber that stays is let go in the end, within four steps each and two more, unless
      persisting the done status failed. */
  lemma SubscribersAreReleasedIff(before: seq<Step>, steps: seq<Step>, id: nat)
    requires var s := After(START, before); s.run.Stopped? && EmitSteps(steps) >= StepsLeft(s)
    requires var t := After(START, before + steps); id in t.board.registered && id !in t.board.unsubscribed
    ensures var t := After(START, before + steps); id in t.board.chans && (t.board.chans[id].closed <==> !t.lostDone)
  {
    StartIsSane();
    AfterIsSane(START, before);
    AfterConcat(START, before, steps);
    EmissionEnds(After(START, before), steps);
    ClosedInTheEndIff(before + steps, id);
  }
}
