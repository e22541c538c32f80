/** What a job's counters show: the bytes and sessions that were reported, merged and organized. */
module Counters {
  import opened BackupJob
  import opened JobRuns

  /** What a step tells the counters, if it takes effect: a report of the progress channel, a chunk merged
      without one, or the talkers of an organized backup. */
  datatype Told = Seen(bytes: int, sessions: int) | Chunk(bytes: int) | Talkers(count: int)

  function ToldBy(s: Sys, step: Step): seq<Told> {
    match step
    case Event(bytes, sessions) =>
      if s.progressEmit.Quiet? && s.progress.Listening? && s.job.status == Transfer then [Seen(bytes, sessions)] else []
    case Merge(bytes) =>
      if s.runEmit.Quiet? && s.run.Merging? && s.progress.Absent? then [Chunk(bytes)] else []
    case OrganizeEnds(outcome, talkers) =>
      if s.runEmit.Quiet? && s.run.Organizing? && outcome.Fine? then [Talkers(talkers)] else []
    case _ => []
  }

  /** Everything told in a run, in order. */
  function ToldIn(s: Sys, steps: seq<Step>): seq<Told>
    decreases |steps|
  {
    if steps == [] then [] else ToldBy(s, steps[0]) + ToldIn(Do(s, steps[0]), steps[1..])
  }

  /** The counters after one thing told. */
  predicate Counts(before: Job, told: Told, after: Job) {
    match told
    case Seen(bytes, sessions) =>
      && after.bytesIn == (if bytes > before.bytesIn then bytes else before.bytesIn)
      && after.sessionsDone == (if sessions > before.sessionsDone then sessions else before.sessionsDone)
    case Chunk(bytes) =>
      && after.bytesIn == (if bytes > 0 then before.bytesIn + bytes else before.bytesIn)
      && after.sessionsDone == before.sessionsDone + 1
    case Talkers(count) =>
      && after.bytesIn == before.bytesIn
      && after.sessionsDone == (if count > before.sessionsDone then count else before.sessionsDone)
  }

  predicate SameCounters(a: Job, b: Job) {
    a.bytesIn == b.bytesIn && a.sessionsDone == b.sessionsDone
  }

  /** A step changes the counters as it tells, and not at all if it tells nothing. */
  lemma StepCounts(s: Sys, step: Step)
    ensures var told, t := ToldBy(s, step), Do(s, step);
            if told == [] then SameCounters(s.job, t.job) else |told| == 1 && Counts(s.job, told[0], t.job)
    ensures s.job.sessionsDone >= 0 ==> Do(s, step).job.sessionsDone >= 0
    ensures s.job.bytesIn >= 0 ==> Do(s, step).job.bytesIn >= 0
  {
    if step.EmitRun? || step.EmitProgress? {
      EmitFrame(s, if step.EmitRun? then s.runEmit else s.progressEmit);
      hide EmitOne;
    } else {
      hide EmitOne, Without, Latest;
    }
  }

  // ---- The order of what is told ----------------------------------------------------------------

  /** The stream has not been opened yet. */
  predicate Unopened(s: Sys) {
    s.job.status == Queued || s.run.Opening? || s.run == Saving(Transfer)
  }

  /** The stream is open and has no progress channel. */
  predicate Unreported(s: Sys) {
    !Unopened(s) && s.progress.Absent?
  }

  /** The stream is, or was, open with a progress channel. */
  predicate Reported(s: Sys) {
    !Unopened(s) && !s.progress.Absent?
  }

  /** The transfer is over. */
  predicate Transferred(s: Sys) {
    s.job.status != Queued && s.job.status != Transfer
  }

  /** And so is the organizing, or it will not take place. */
  predicate AllTold(s: Sys) {
    Transferred(s) && !s.run.Organizing? && s.run != Saving(Organize)
  }

  /** Before the stream is open there is no progress channel. */
  predicate Quietly(s: Sys) {
    Unopened(s) ==> s.progress.Absent?
  }

  lemma RunKeepsPhase(s: Sys, step: Step)
    requires InStage(s) && Quietly(s)
    ensures var t := DoRun(s, step);
            && Quietly(t) && (Unreported(s) ==> Unreported(t)) && (Reported(s) ==> Reported(t))
            && (Transferred(s) ==> Transferred(t)) && (AllTold(s) ==> AllTold(t))
            && (step.OrganizeEnds? && s.run.Organizing? && s.runEmit.Quiet? && step.outcome.Fine? ==> AllTold(t))
  {
    assert s.run.Stopped? || !Unsuccessful(s.job.status);
    hide Passed, BrokeOff, Latest;
    match step
    case Set =>
    case Persist(_) =>
    case OpenOk(_) =>
    case Finish =>
    case Merge(_) =>
    case OrganizeEnds(_, _) =>
    case _ =>
  }

  lemma StepKeepsPhase(s: Sys, step: Step)
    requires Orderly(s) && Quietly(s)
    ensures var t := Do(s, step);
            && Quietly(t) && (Unreported(s) ==> Unreported(t)) && (Reported(s) ==> Reported(t))
            && (Transferred(s) ==> Transferred(t)) && (AllTold(s) ==> AllTold(t))
            && (ToldBy(s, step) != [] && ToldBy(s, step)[0].Talkers? ==> AllTold(t))
  {
    if step.EmitRun? || step.EmitProgress? {
      EmitFrame(s, if step.EmitRun? then s.runEmit else s.progressEmit);
      hide EmitOne, Orderly;
    } else {
      ClientFrame(s, step);
      RunKeepsPhase(s, step);
      hide EmitOne, DoRun, DoClient, InStage, Recorded, Latest;
    }
  }

  /** What a step can tell where the job stands. */
  lemma ToldWhere(s: Sys, step: Step)
    requires InStage(s)
    ensures forall x :: x in ToldBy(s, step) ==>
              && (x.Seen? ==> !s.progress.Absent? && !Transferred(s))
              && (x.Chunk? ==> s.progress.Absent? && !Transferred(s) && !Unopened(s))
              && (x.Talkers? ==> !AllTold(s))
    ensures |ToldBy(s, step)| <= 1
  {
    hide Passed, BrokeOff;
  }

  predicate TalkersLast(told: seq<Told>) {
    forall i :: 0 <= i < |told| - 1 ==> !told[i].Talkers?
  }

  lemma OneThingMore(now: seq<Told>, rest: seq<Told>)
    requires |now| <= 1
    ensures var told := now + rest;
            && (now == [] ==> told == rest)
            && (now != [] ==> told[0] == now[0] && told[1..] == rest)
            && (forall x :: x in told <==> x in now || x in rest)
            && (TalkersLast(told) <==> TalkersLast(rest) && (now == [] || !now[0].Talkers? || rest == []))
  {
    var told := now + rest;
    if now == [] {
      assert told == rest;
    } else {
      assert told[1..] == rest;
      assert forall i :: 0 <= i < |rest| ==> told[i + 1] == rest[i];
    }
  }

  /** Reports and counted chunks never mix; the talkers come last and once. */
  lemma {:induction false} ToldInOrder(s: Sys, steps: seq<Step>)
    requires Orderly(s) && Quietly(s)
    ensures var told := ToldIn(s, steps);
            && (Unreported(s) ==> forall x :: x in told ==> !x.Seen?)
            && (Reported(s) ==> forall x :: x in told ==> !x.Chunk?)
            && (Transferred(s) ==> forall x :: x in told ==> x.Talkers?)
            && (AllTold(s) ==> told == [])
            && ((forall x :: x in told ==> !x.Seen?) || (forall x :: x in told ==> !x.Chunk?))
            && TalkersLast(told)
    decreases |steps|
  {
    if steps != [] {
      var step, t := steps[0], Do(s, steps[0]);
      StepKeepsOrder(s, step);
      StepKeepsPhase(s, step);
      assert InStage(s);
      ToldWhere(s, step);
      ToldInOrder(t, steps[1..]);
      hide Orderly, Do, ToldBy, Unopened, Quietly, Transferred, InStage, TalkersLast;
      OneThingMore(ToldBy(s, step), ToldIn(t, steps[1..]));
    }
  }

  /** Whether there is a progress channel in the end decides which of the two there was. */
  lemma {:induction false} ChannelDecides(s: Sys, steps: seq<Step>)
    requires Orderly(s) && Quietly(s)
    ensures var t, told := After(s, steps), ToldIn(s, steps);
            && (Unreported(s) ==> Unreported(t)) && (Reported(s) ==> Reported(t))
            && (t.progress.Absent? ==> forall x :: x in told ==> !x.Seen?)
            && (!t.progress.Absent? ==> forall x :: x in told ==> !x.Chunk?)
    decreases |steps|
  {
    if steps != [] {
      var step := steps[0];
      StepKeepsOrder(s, step);
      StepKeepsPhase(s, step);
      assert InStage(s);
      ToldWhere(s, step);
      ChannelDecides(Do(s, step), steps[1..]);
      hide Orderly, Do, ToldBy, Unopened, Transferred, InStage;
    }
  }

  // ---- The counters -----------------------------------------------------------------------------

  function SumOfChunks(told: seq<Told>): int {
    if told == [] then 0
    else (if told[0].Chunk? && told[0].bytes > 0 then told[0].bytes else 0) + SumOfChunks(told[1..])
  }

  function NumberOfChunks(told: seq<Told>): nat {
    if told == [] then 0 else (if told[0].Chunk? then 1 else 0) + NumberOfChunks(told[1..])
  }

  /** The number is the greatest of these and zero. */
  ghost predicate Greatest(n: int, values: set<int>) {
    (n == 0 || n in values) && 0 <= n && forall v :: v in values ==> v <= n
  }

  function BytesSeen(told: seq<Told>): set<int> {
    set x | x in told && x.Seen? :: x.bytes
  }

  function SessionsSeen(told: seq<Told>): set<int> {
    set x | x in told && x.Seen? :: x.sessions
  }

  function TalkersTold(told: seq<Told>): set<int> {
    set x | x in told && x.Talkers? :: x.count
  }

  /** A raised number is the greatest of what it was raised by. */
  lemma Raised(n: int, was: int, now: int, told: int, more: set<int>)
    requires was >= 0 && now == (if told > was then told else was) && Greatest(n, {now} + more)
    ensures Greatest(n, {was} + ({told} + more))
  {
    assert told in {was} + ({told} + more) && was in {was} + ({told} + more) && now in {now} + more;
  }

  /** The counters from one job to another come to this sum of chunks, this number of them, and these talkers. */
  ghost predicate Summed(a: Job, c: Job, bytes: int, chunks: nat, talkers: set<int>) {
    c.bytesIn == a.bytesIn + bytes && Greatest(c.sessionsDone, {a.sessionsDone + chunks} + talkers)
  }

  lemma ChunkAdds(a: Job, b: Job, c: Job, now: Told, bytes: int, chunks: nat, talkers: set<int>)
    requires now.Chunk? && Counts(a, now, b) && Summed(b, c, bytes, chunks, talkers)
    ensures Summed(a, c, (if now.bytes > 0 then now.bytes else 0) + bytes, 1 + chunks, talkers)
  {
  }

  lemma TalkersEnd(a: Job, b: Job, c: Job, now: Told)
    requires now.Talkers? && Counts(a, now, b) && Summed(b, c, 0, 0, {}) && a.sessionsDone >= 0
    ensures Summed(a, c, 0, 0, {now.count})
  {
    Raised(c.sessionsDone, a.sessionsDone, b.sessionsDone, now.count, {});
    assert {a.sessionsDone} + ({now.count} + {}) == {a.sessionsDone} + {now.count};
  }

  lemma OneChunkMore(now: Told, rest: seq<Told>)
    ensures var told := [now] + rest;
            && SumOfChunks(told) == (if now.Chunk? && now.bytes > 0 then now.bytes else 0) + SumOfChunks(rest)
            && NumberOfChunks(told) == (if now.Chunk? then 1 else 0) + NumberOfChunks(rest)
            && TalkersTold(told) == if now.Talkers? then {now.count} + TalkersTold(rest) else TalkersTold(rest)
  {
    OneThingMore([now], rest);
    hide TalkersLast;
  }

  lemma NothingSummed(a: Job)
    requires a.sessionsDone >= 0
    ensures Summed(a, a, 0, 0, {}) && SumOfChunks([]) == 0 && NumberOfChunks([]) == 0 && TalkersTold([]) == {}
  {
  }

  lemma SummedAlike(a: Job, b: Job, c: Job, bytes: int, chunks: nat, talkers: set<int>)
    requires SameCounters(a, b) && Summed(b, c, bytes, chunks, talkers)
    ensures Summed(a, c, bytes, chunks, talkers)
  {
  }

  lemma SummedOnceMore(a: Job, b: Job, c: Job, now: seq<Told>, rest: seq<Told>)
    requires if now == [] then SameCounters(a, b) else |now| == 1 && Counts(a, now[0], b)
    requires Summed(b, c, SumOfChunks(rest), NumberOfChunks(rest), TalkersTold(rest)) && a.sessionsDone >= 0
    requires TalkersLast(now + rest) && forall x :: x in now ==> !x.Seen?
    ensures var told := now + rest; Summed(a, c, SumOfChunks(told), NumberOfChunks(told), TalkersTold(told))
  {
    OneThingMore(now, rest);
    hide Counts, SameCounters, TalkersLast, Summed, SumOfChunks, NumberOfChunks, TalkersTold;
    if now == [] {
      SummedAlike(a, b, c, SumOfChunks(rest), NumberOfChunks(rest), TalkersTold(rest));
    } else {
      assert now == [now[0]] && now[0] in now;
      OneChunkMore(now[0], rest);
      if now[0].Chunk? {
        ChunkAdds(a, b, c, now[0], SumOfChunks(rest), NumberOfChunks(rest), TalkersTold(rest));
      } else {
        NothingSummed(a);
        assert {now[0].count} + {} == {now[0].count};
        TalkersEnd(a, b, c, now[0]);
      }
    }
  }

  lemma RunGoesOn(s: Sys, steps: seq<Step>)
    requires steps != []
    ensures ToldIn(s, steps) == ToldBy(s, steps[0]) + ToldIn(Do(s, steps[0]), steps[1..])
    ensures After(s, steps) == After(Do(s, steps[0]), steps[1..])
  {
    hide Do, ToldBy;
  }

  /** With chunks only, and the talkers at the end. */
  lemma {:induction false} ChunksCount(s: Sys, steps: seq<Step>)
    requires (forall x :: x in ToldIn(s, steps) ==> !x.Seen?) && TalkersLast(ToldIn(s, steps))
    requires s.job.sessionsDone >= 0
    ensures var told := ToldIn(s, steps);
            Summed(s.job, After(s, steps).job, SumOfChunks(told), NumberOfChunks(told), TalkersTold(told))
    decreases |steps|
  {
    if steps == [] {
      NothingSummed(s.job);
    } else {
      var step, t := steps[0], Do(s, steps[0]);
      StepCounts(s, step);
      var rest, now, end := ToldIn(t, steps[1..]), ToldBy(s, step), After(s, steps).job;
      RunGoesOn(s, steps);
      OneThingMore(now, rest);
      hide *;
      ChunksCount(t, steps[1..]);
      SummedOnceMore(s.job, t.job, end, now, rest);
    }
  }

  /** What the reports and the talkers told come to, one more of them first. */
  lemma OneReportMore(now: Told, rest: seq<Told>)
    ensures BytesSeen([now] + rest) == if now.Seen? then {now.bytes} + BytesSeen(rest) else BytesSeen(rest)
    ensures SessionsSeen([now] + rest) == if now.Seen? then {now.sessions} + SessionsSeen(rest) else SessionsSeen(rest)
    ensures TalkersTold([now] + rest) == if now.Talkers? then {now.count} + TalkersTold(rest) else TalkersTold(rest)
  {
    OneThingMore([now], rest);
    hide TalkersLast;
  }

  lemma NoReports()
    ensures BytesSeen([]) == {} && SessionsSeen([]) == {} && TalkersTold([]) == {}
  {
  }

  /** With reports only: the highest of them, and of the talkers. */
  lemma {:induction false} ReportsCount(s: Sys, steps: seq<Step>)
    requires forall x :: x in ToldIn(s, steps) ==> !x.Chunk?
    requires s.job.bytesIn >= 0 && s.job.sessionsDone >= 0
    ensures var told, t := ToldIn(s, steps), After(s, steps);
            && Greatest(t.job.bytesIn, {s.job.bytesIn} + BytesSeen(told))
            && Greatest(t.job.sessionsDone, {s.job.sessionsDone} + (SessionsSeen(told) + TalkersTold(told)))
    decreases |steps|
  {
    if steps == [] {
      NoReports();
    } else {
      var step, t := steps[0], Do(s, steps[0]);
      StepCounts(s, step);
      var rest, now := ToldIn(t, steps[1..]), ToldBy(s, step);
      RunGoesOn(s, steps);
      OneThingMore(now, rest);
      hide Do, ToldBy, ToldIn, After, TalkersLast, Greatest, BytesSeen, SessionsSeen, TalkersTold;
      ReportsCount(t, steps[1..]);
      if now != [] {
        assert now == [now[0]];
        OneReportMore(now[0], rest);
        ReportRaises(s.job, t.job, After(s, steps).job, now[0], BytesSeen(rest), SessionsSeen(rest), TalkersTold(rest));
      }
    }
  }

  lemma ReportRaises(a: Job, b: Job, c: Job, now: Told, bytes: set<int>, sessions: set<int>, talkers: set<int>)
    requires a.bytesIn >= 0 && a.sessionsDone >= 0 && Counts(a, now, b) && !now.Chunk?
    requires Greatest(c.bytesIn, {b.bytesIn} + bytes) && Greatest(c.sessionsDone, {b.sessionsDone} + (sessions + talkers))
    ensures Greatest(c.bytesIn, {a.bytesIn} + if now.Seen? then {now.bytes} + bytes else bytes)
    ensures Greatest(c.sessionsDone, {a.sessionsDone} + ((if now.Seen? then {now.sessions} + sessions else sessions)
                                                        + (if now.Talkers? then {now.count} + talkers else talkers)))
  {
    hide Greatest;
    if now.Seen? {
      Raised(c.bytesIn, a.bytesIn, b.bytesIn, now.bytes, bytes);
      Raised(c.sessionsDone, a.sessionsDone, b.sessionsDone, now.sessions, sessions + talkers);
      assert {now.sessions} + (sessions + talkers) == ({now.sessions} + sessions) + talkers;
    } else {
      Raised(c.sessionsDone, a.sessionsDone, b.sessionsDone, now.count, sessions + talkers);
      assert {now.count} + (sessions + talkers) == sessions + ({now.count} + talkers);
    }
  }

  lemma ZeroIsNoNews(n: int, values: set<int>)
    ensures Greatest(n, {0} + values) <==> Greatest(n, values)
  {
    assert 0 in {0} + values && forall v :: v in values ==> v in {0} + values;
  }

  /** In every run the counters are exactly what took effect. With a progress channel, each is the greatest
      of its reports, and of zero; without one, the bytes are the sum of the chunks' sizes, as far as they
      are positive, and the sessions the number of chunks merged. The talkers of an organized backup raise
      the sessions to their number if that is greater. */
  lemma CountersAreExact(steps: seq<Step>)
    ensures var told, s := ToldIn(START, steps), After(START, steps);
            if s.progress.Absent? then
              && s.job.bytesIn == SumOfChunks(told)
              && Greatest(s.job.sessionsDone, {NumberOfChunks(told) as int} + TalkersTold(told))
            else
              && Greatest(s.job.bytesIn, BytesSeen(told))
              && Greatest(s.job.sessionsDone, SessionsSeen(told) + TalkersTold(told))
  {
    StartIsOrderly();
    ToldInOrder(START, steps);
    ChannelDecides(START, steps);
    var told, job := ToldIn(START, steps), After(START, steps).job;
    hide ToldIn, After;
    if After(START, steps).progress.Absent? {
      ChunksCount(START, steps);
      assert {START.job.sessionsDone + NumberOfChunks(told)} == {NumberOfChunks(told) as int};
    } else {
      ReportsCount(START, steps);
      ZeroIsNoNews(job.bytesIn, BytesSeen(told));
      ZeroIsNoNews(job.sessionsDone, SessionsSeen(told) + TalkersTold(told));
    }
  }

  // ---- What subscribers are shown ---------------------------------------------------------------

  lemma AfterNone(s: Sys, steps: seq<Step>)
    ensures After(s, steps[..0]) == s
  {
  }

  lemma AfterPrefix(s: Sys, steps: seq<Step>, n: nat)
    requires steps != [] && n < |steps|
    ensures After(s, steps[..n + 1]) == After(Do(s, steps[0]), steps[1..][..n])
  {
    hide Do;
    assert steps[..n + 1][1..] == steps[1..][..n] && steps[..n + 1][0] == steps[0];
  }

  lemma StepRecords(s: Sys, step: Step)
    requires Orderly(s)
    ensures var t := Do(s, step); t.history == s.history || t.history == s.history + [t.job]
  {
    if step.EmitRun? || step.EmitProgress? {
      EmitFrame(s, if step.EmitRun? then s.runEmit else s.progressEmit);
      hide EmitOne;
    } else {
      ClientFrame(s, step);
      if s.runEmit.Quiet? { RunAdvances(s, step); }
      hide EmitOne, DoRun, DoClient, InStage, OneVoice, Recorded;
    }
  }

  /** Every entry of the history is the job as it stood at some point of the run. */
  lemma {:induction false} HistoryIsTrue(s: Sys, steps: seq<Step>, i: nat)
    requires Orderly(s) && i < |After(s, steps).history|
    ensures || (i < |s.history| && After(s, steps).history[i] == s.history[i])
            || exists n :: 0 <= n <= |steps| && After(s, steps).history[i] == After(s, steps[..n]).job
    decreases |steps|
  {
    if steps != [] {
      var t := Do(s, steps[0]);
      StepKeepsOrder(s, steps[0]);
      StepRecords(s, steps[0]);
      hide Do, Orderly;
      HistoryIsTrue(t, steps[1..], i);
      if i < |t.history| && After(s, steps).history[i] == t.history[i] {
        if i >= |s.history| {
          AfterPrefix(s, steps, 0);
          AfterNone(t, steps[1..]);
          assert After(s, steps).history[i] == After(s, steps[..1]).job;
        }
      } else {
        var n :| 0 <= n <= |steps[1..]| && After(t, steps[1..]).history[i] == After(t, steps[1..][..n]).job;
        AfterPrefix(s, steps, n);
      }
    }
  }

  /** So every snapshot that a subscriber is sent has the counters of some point of the run. */
  lemma NotesAreTrue(steps: seq<Step>, id: nat, i: nat)
    requires var s := After(START, steps); id in s.board.chans && i < |s.board.chans[id].Trail()|
    ensures exists n :: 0 <= n <= |steps| && After(START, steps).board.chans[id].Trail()[i].job == After(START, steps[..n]).job
  {
    EveryInterleavingIsSafe(steps);
    StartIsOrderly();
    var note := After(START, steps).board.chans[id].Trail()[i];
    assert FaithfulTrail(After(START, steps), id);
    HistoryIsTrue(START, steps, note.at);
    hide After;
    if note.job == START.job {
      AfterNone(START, steps);
      assert note.job == After(START, steps[..0]).job;
    }
  }

  // ---- After a cancellation ---------------------------------------------------------------------

  lemma CancelledTakesNoChunk(s: Sys, step: Step)
    requires s.cancelled
    ensures var t := Do(s, step);
            && t.cancelled && (t.run.Merging? ==> s.run.Merging?)
            && NumberOfChunks(ToldBy(s, step)) + (if t.run.Merging? then 1 else 0) <= (if s.run.Merging? then 1 else 0)
  {
    if step.EmitRun? || step.EmitProgress? {
      var e := if step.EmitRun? then s.runEmit else s.progressEmit;
      EmitFrame(s, e);
      EmitKeepsCancel(s, e);
      hide EmitOne;
    } else {
      ClientFrame(s, step);
      hide EmitOne, Without, Latest;
    }
  }

  lemma {:induction false} ChunksAdd(a: seq<Told>, b: seq<Told>)
    ensures NumberOfChunks(a + b) == NumberOfChunks(a) + NumberOfChunks(b)
  {
    if a == [] {
      assert a + b == b;
    } else {
      assert (a + b)[1..] == a[1..] + b;
      ChunksAdd(a[1..], b);
    }
  }

  /** A cancelled job merges no chunk but the one it holds at that moment. */
  lemma {:induction false} CancelStopsChunks(s: Sys, steps: seq<Step>)
    requires s.cancelled
    ensures NumberOfChunks(ToldIn(s, steps)) <= if s.run.Merging? then 1 else 0
    ensures !s.run.Merging? ==> !After(s, steps).run.Merging?
    decreases |steps|
  {
    if steps != [] {
      CancelledTakesNoChunk(s, steps[0]);
      ChunksAdd(ToldBy(s, steps[0]), ToldIn(Do(s, steps[0]), steps[1..]));
      CancelStopsChunks(Do(s, steps[0]), steps[1..]);
      hide Do, ToldBy, NumberOfChunks;
    }
  }
}
