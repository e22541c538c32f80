/** One backup job: its run goroutine, its progress goroutine and its subscribers, as interleaved steps. */
module BackupJob {

  datatype Status = Queued | Transfer | Organize | Index | Done | Failed | Cancelled {
    predicate Terminal() { Done? || Failed? || Cancelled? }

    function Rank(): nat {
      match this
      case Queued => 0
      case Transfer => 1
      case Organize => 2
      case Index => 3
      case Done => 4
      case Failed => 4
      case Cancelled => 4
    }
  }

  /** The stages of a job that nothing disturbs. */
  const PATH := [Queued, Transfer, Organize, Index, Done]

  /** Room in a subscriber's channel. */
  const CAPACITY := 8

  datatype Job = Job(status: Status, bytesIn: int, sessionsDone: int)

  /** A job snapshot on its way to subscribers, with its place in the job's history. */
  datatype Note = Note(at: nat, job: Job)

  /** A bounded channel and what its receiver has taken out of it. */
  datatype Chan = Chan(got: seq<Note>, buf: seq<Note>, closed: bool, gaveUp: bool) {
    function Trail(): seq<Note> { got + buf }
  }

  /** How far an emission has come: `subscribers` are still to be served, the first of them next. */
  datatype Emit =
    | Quiet
    | Copying(note: Note)                              // about to copy the subscriber list
    | Sending(note: Note, subscribers: seq<nat>)
    | Draining(note: Note, subscribers: seq<nat>)      // between the two selects of a forced send
    | Closing(note: Note, subscribers: seq<nat>)

  datatype Outcome = Fine | Broken | Interrupted

  /** Where the run goroutine stands; while it emits, where it goes on afterwards. */
  datatype Run =
    | Checking(next: Status)     // before the context check of a status change
    | Setting(next: Status)      // past it, waiting for the lock
    | Saving(saved: Status)      // the new status is set but not yet persisted
    | Opening                    // asking for the session and the stream
    | Streaming
    | Merging                    // holding a chunk
    | Waiting(outcome: Outcome)  // for the progress goroutine
    | Organizing
    | Finishing(end: Status)
    | Stopped

  datatype Progress = Absent | Listening | Ended

  /** The subscriber list, every channel there is, which of them were put on the list, and which were taken
      off it by their subscriber. */
  datatype Board = Board(
    subs: seq<nat>, chans: map<nat, Chan>, registered: set<nat>, unsubscribed: set<nat>,
    panicked: bool)              // a send on, or a second close of, a closed channel

  datatype Sys = Sys(
    job: Job, transitions: seq<Status>, history: seq<Job>,
    cancelled: bool,             // the job's context
    run: Run, runEmit: Emit, progress: Progress, progressEmit: Emit,
    lostDone: bool,              // persisting the done status failed
    board: Board)

  datatype Step =
    | Subscribe(id: nat)
    | Unsubscribe(id: nat)
    | Receive(id: nat)
    | CancelContext
    | Check
    | Set
    | Persist(ok: bool)
    | OpenFails
    | OpenOk(reports: bool)
    | TakeChunk
    | Merge(bytes: int)
    | StreamEnds(outcome: Outcome)
    | Join
    | OrganizeEnds(outcome: Outcome, talkers: int)
    | Finish
    | EmitRun
    | Event(bytesIn: int, sessionsDone: int)
    | ProgressEnds
    | EmitProgress

  const START := Sys(
    Job(Queued, 0, 0), [Queued], [Job(Queued, 0, 0)], false,
    Checking(Transfer), Quiet, Absent, Quiet, false, Board([], map[], {}, {}, false))

  function Latest(s: Sys): Note {
    Note(if s.history == [] then 0 else |s.history| - 1, s.job)
  }

  // ---- Emission ---------------------------------------------------------------------------------

  function Put(s: Sys, id: nat, c: Chan): Sys {
    s.(board := s.board.(chans := s.board.chans[id := c]))
  }

  /** One step of an emission: the new state, and how far the emission is then. */
  function EmitOne(s: Sys, e: Emit): (Sys, Emit) {
    match e
    case Quiet => (s, Quiet)
    case Copying(note) =>
      (if note.job.status.Terminal() then s.(board := s.board.(subs := [])) else s, Sending(note, s.board.subs))
    case Sending(note, left) =>
      if left == [] || left[0] !in s.board.chans then (s, Quiet)
      else
        var c := s.board.chans[left[0]];
        if c.closed then (s.(board := s.board.(panicked := true)), Quiet)
        else if |c.buf| < CAPACITY then
          (Put(s, left[0], c.(buf := c.buf + [note])),
           if note.job.status.Terminal() then Closing(note, left) else Sending(note, left[1..]))
        else (s, if note.job.status.Terminal() then Draining(note, left) else Sending(note, left[1..]))
    case Draining(note, left) =>
      if left == [] || left[0] !in s.board.chans then (s, Quiet)
      else
        var c := s.board.chans[left[0]];
        if c.buf != [] then (Put(s, left[0], c.(buf := c.buf[1..])), Sending(note, left))
        else (Put(s, left[0], c.(gaveUp := true)), Closing(note, left))
    case Closing(note, left) =>
      if left == [] || left[0] !in s.board.chans then (s, Quiet)
      else
        var c := s.board.chans[left[0]];
        if c.closed then (s.(board := s.board.(panicked := true)), Quiet)
        else (Put(s, left[0], c.(closed := true)), Sending(note, left[1..]))
  }

  // ---- Steps ------------------------------------------------------------------------------------

  function Changed(s: Sys, job: Job): Sys {
    s.(job := job, history := s.history + [job])
  }

  /** A change of the job followed by an emission of it. */
  function Announced(s: Sys, job: Job): Sys {
    var t := Changed(s, job);
    t.(runEmit := Copying(Latest(t)))
  }

  function AfterStatus(st: Status): Run {
    match st
    case Transfer => Opening
    case Organize => Organizing
    case Index => Checking(Done)
    case _ => Stopped
  }

  function Without(subs: seq<nat>, id: nat): seq<nat> {
    if subs == [] then [] else (if subs[0] == id then [] else [subs[0]]) + Without(subs[1..], id)
  }

  function Max(a: int, b: int): int {
    if a > b then a else b
  }

  /** Where the run goroutine goes when the progress goroutine is through. */
  function AfterJoin(outcome: Outcome, cancelled: bool): Run {
    match outcome
    case Broken => Finishing(Failed)
    case Interrupted => Finishing(Cancelled)
    case Fine => if cancelled then Finishing(Cancelled) else Checking(Organize)
  }

  /** The run goroutine's steps; each is possible only where it stands, and only between emissions. */
  function DoRun(s: Sys, step: Step): Sys {
    match step
    case Check =>
      if !s.run.Checking? then s else s.(run := if s.cancelled then Finishing(Cancelled) else Setting(s.run.next))
    case Set =>
      if !s.run.Setting? then s
      else if s.job.status.Terminal() then s.(run := Stopped)
      else
        Changed(s, s.job.(status := s.run.next)).(transitions := s.transitions + [s.run.next], run := Saving(s.run.next))
    case Persist(ok) =>
      if !s.run.Saving? then s
      else if ok then s.(run := AfterStatus(s.run.saved), runEmit := Copying(Latest(s)))
      else s.(run := Finishing(Failed), lostDone := s.run.saved.Done?)
    case OpenFails =>
      if !s.run.Opening? then s else s.(run := Finishing(Failed))
    case OpenOk(reports) =>
      if !s.run.Opening? then s else s.(run := Streaming, progress := if reports then Listening else Absent)
    case TakeChunk =>
      if !s.run.Streaming? then s else s.(run := if s.cancelled then Waiting(Interrupted) else Merging)
    case Merge(bytes) =>
      if !s.run.Merging? then s
      else if s.progress.Absent? then
        Announced(s.(run := Streaming),
                  s.job.(bytesIn := s.job.bytesIn + Max(bytes, 0), sessionsDone := s.job.sessionsDone + 1))
      else s.(run := Streaming)
    case StreamEnds(outcome) =>
      if !s.run.Streaming? then s else s.(run := Waiting(outcome))
    case Join =>
      if !s.run.Waiting? || s.progress.Listening? then s else s.(run := AfterJoin(s.run.outcome, s.cancelled))
    case OrganizeEnds(outcome, talkers) =>
      if !s.run.Organizing? || (outcome.Interrupted? && !s.cancelled) then s
      else if outcome.Fine? then
        Announced(s.(run := Checking(Index)), s.job.(sessionsDone := Max(s.job.sessionsDone, talkers)))
      else s.(run := Finishing(if outcome.Broken? then Failed else Cancelled))
    case Finish =>
      if !s.run.Finishing? then s
      else if s.job.status.Terminal() then s.(run := Stopped)
      else Announced(s, s.job.(status := s.run.end)).(transitions := s.transitions + [s.run.end], run := Stopped)
    case _ => s
  }

  /** The progress goroutine's steps, between emissions. */
  function DoProgress(s: Sys, step: Step): Sys {
    match step
    case Event(bytesIn, sessionsDone) =>
      if s.progress.Listening? && s.job.status == Transfer then
        var t := Changed(s, s.job.(bytesIn := Max(s.job.bytesIn, bytesIn), sessionsDone := Max(s.job.sessionsDone, sessionsDone)));
        t.(progressEmit := Copying(Latest(t)))
      else s
    case ProgressEnds => if s.progress.Listening? then s.(progress := Ended) else s
    case _ => s
  }

  /** What clients do, at any moment. */
  function DoClient(s: Sys, step: Step): Sys {
    match step
    case Subscribe(id) =>
      if id in s.board.chans then s
      else if s.job.status.Terminal() then Put(s, id, Chan([], [Latest(s)], true, false))
      else
        s.(board := s.board.(chans := s.board.chans[id := Chan([], [Latest(s)], false, false)],
                             subs := s.board.subs + [id], registered := s.board.registered + {id}))
    case Unsubscribe(id) =>
      s.(board := s.board.(subs := Without(s.board.subs, id), unsubscribed := s.board.unsubscribed + {id}))
    case Receive(id) =>
      if id in s.board.chans && s.board.chans[id].buf != [] then
        var c := s.board.chans[id];
        Put(s, id, c.(got := c.got + [c.buf[0]], buf := c.buf[1..]))
      else s
    case CancelContext => s.(cancelled := true)
    case _ => s
  }

  /** Every interleaving is a sequence of these steps; a step that is not possible changes nothing. */
  function Do(s: Sys, step: Step): Sys {
    match step
    case Subscribe(_) | Unsubscribe(_) | Receive(_) | CancelContext => DoClient(s, step)
    case EmitRun => var (t, e) := EmitOne(s, s.runEmit); t.(runEmit := e)
    case EmitProgress => var (t, e) := EmitOne(s, s.progressEmit); t.(progressEmit := e)
    case Event(_, _) | ProgressEnds => if s.progressEmit.Quiet? then DoProgress(s, step) else s
    case _ => if s.runEmit.Quiet? then DoRun(s, step) else s
  }

  function After(s: Sys, steps: seq<Step>): Sys
    decreases |steps|
  {
    if steps == [] then s else After(Do(s, steps[0]), steps[1..])
  }

  // ---- Stages -----------------------------------------------------------------------------------

  predicate Unsuccessful(st: Status) {
    st == Failed || st == Cancelled
  }

  /** The recorded transitions are exactly the stages up to the present one. */
  predicate Passed(transitions: seq<Status>, st: Status) {
    !Unsuccessful(st) && transitions == PATH[..st.Rank() + 1]
  }

  /** The recorded transitions are some stages short of done and then one failure or cancellation. */
  predicate BrokeOff(transitions: seq<Status>, st: Status) {
    Unsuccessful(st) && 2 <= |transitions| <= 5 && transitions == PATH[..|transitions| - 1] + [st]
  }

  predicate Follows(st: Status, next: Status) {
    !Unsuccessful(next) && next.Rank() == st.Rank() + 1
  }

  predicate InStage(s: Sys) {
    var st := s.job.status;
    && (s.run.Stopped? || Passed(s.transitions, st))
    && match s.run
       case Checking(next) => Follows(st, next)
       case Setting(next) => Follows(st, next)
       case Saving(saved) => st == saved && st != Queued && !Unsuccessful(st)
       case Opening => st == Transfer
       case Streaming => st == Transfer
       case Merging => st == Transfer
       case Waiting(_) => st == Transfer
       case Organizing => st == Organize
       case Finishing(end) => Unsuccessful(end) && (st == Done <==> s.lostDone)
       case Stopped => BrokeOff(s.transitions, st) || (st == Done && Passed(s.transitions, st))
  }

  predicate StagesInOrder(s: Sys) {
    Passed(s.transitions, s.job.status) || BrokeOff(s.transitions, s.job.status)
  }

  predicate EmitsLatest(s: Sys, e: Emit) {
    e.Quiet? || e.note == Latest(s)
  }

  /** Only one goroutine changes or announces the job at a time. */
  predicate OneVoice(s: Sys) {
    && (s.progress.Listening? ==> s.runEmit.Quiet? && (s.run.Streaming? || s.run.Merging? || s.run.Waiting?))
    && (!s.progressEmit.Quiet? ==> s.progress.Listening?)
    && (!s.runEmit.Quiet? ==> !s.run.Setting? && !s.run.Saving? && !s.run.Finishing?)
    && EmitsLatest(s, s.runEmit) && EmitsLatest(s, s.progressEmit)
    && (s.lostDone ==> s.job.status == Done && s.runEmit.Quiet? && (s.run.Finishing? || s.run.Stopped?))
  }

  /** A later snapshot never shows an earlier stage or smaller counters. */
  predicate NotAfter(a: Job, b: Job) {
    a.status.Rank() <= b.status.Rank() && a.bytesIn <= b.bytesIn && a.sessionsDone <= b.sessionsDone
  }

  ghost predicate Monotone(history: seq<Job>) {
    forall i, j :: 0 <= i <= j < |history| ==> NotAfter(history[i], history[j])
  }

  ghost predicate Recorded(s: Sys) {
    s.history != [] && s.history[|s.history| - 1] == s.job && Monotone(s.history)
  }

  ghost predicate Orderly(s: Sys) {
    InStage(s) && OneVoice(s) && Recorded(s)
  }

  /** The states agree on everything about the job and its goroutines. */
  predicate SameJob(s: Sys, t: Sys) {
    && t.job == s.job && t.transitions == s.transitions && t.history == s.history
    && t.run == s.run && t.progress == s.progress && t.lostDone == s.lostDone
  }

  /** An emission changes nothing but the subscriber list and the channels. */
  lemma EmitFrame(s: Sys, e: Emit)
    ensures var (t, f) := EmitOne(s, e);
            && SameJob(s, t) && t.runEmit == s.runEmit && t.progressEmit == s.progressEmit
            && (f.Quiet? || (!e.Quiet? && f.note == e.note))
  {
  }

  lemma HistoryGrows(history: seq<Job>, job: Job)
    requires Monotone(history) && (history != [] ==> NotAfter(history[|history| - 1], job))
    ensures Monotone(history + [job])
  {
  }

  lemma EmitKeepsOrder(s: Sys, step: Step)
    requires Orderly(s) && (step.EmitRun? || step.EmitProgress?)
    ensures Orderly(Do(s, step))
  {
    EmitFrame(s, if step.EmitRun? then s.runEmit else s.progressEmit);
    hide EmitOne, Monotone, Passed, BrokeOff;
  }

  lemma ClientFrame(s: Sys, step: Step)
    ensures var t := DoClient(s, step); SameJob(s, t) && t.runEmit == s.runEmit && t.progressEmit == s.progressEmit
    ensures var t := DoClient(s, step); t.lostDone == s.lostDone && t.board.panicked == s.board.panicked
  {
    hide Without;
  }

  lemma ClientKeepsOrder(s: Sys, step: Step)
    requires Orderly(s)
    ensures Orderly(DoClient(s, step))
  {
    ClientFrame(s, step);
    hide DoClient, Monotone, Passed, BrokeOff;
  }

  lemma ProgressKeepsOrder(s: Sys, step: Step)
    requires Orderly(s) && s.progressEmit.Quiet?
    ensures Orderly(DoProgress(s, step))
  {
    var t := DoProgress(s, step);
    if t.history != s.history { HistoryGrows(s.history, t.job); }
    hide Monotone, Passed, BrokeOff;
  }

  /** A step either leaves the job alone or records a snapshot that is not earlier. */
  predicate Advances(s: Sys, t: Sys) {
    (t.job == s.job && t.history == s.history) || (t.history == s.history + [t.job] && NotAfter(s.job, t.job))
  }

  lemma RunAdvances(s: Sys, step: Step)
    requires InStage(s) && s.runEmit.Quiet?
    ensures Advances(s, DoRun(s, step))
  {
    hide Passed, BrokeOff;
  }

  lemma AdvancesKeepsHistory(s: Sys, t: Sys)
    requires Recorded(s) && Advances(s, t)
    ensures Recorded(t)
  {
    if t.history != s.history { HistoryGrows(s.history, t.job); }
    hide Monotone;
  }

  lemma RunKeepsHistory(s: Sys, step: Step)
    requires Orderly(s) && s.runEmit.Quiet?
    ensures Recorded(DoRun(s, step))
  {
    hide Recorded, InStage, DoRun, Advances;
    RunAdvances(s, step);
    AdvancesKeepsHistory(s, DoRun(s, step));
  }

  lemma RunKeepsVoice(s: Sys, step: Step)
    requires Orderly(s) && s.runEmit.Quiet?
    ensures OneVoice(DoRun(s, step))
  {
    hide Monotone, Passed, BrokeOff;
  }

  lemma OneMoreStage(transitions: seq<Status>, st: Status, next: Status)
    requires Passed(transitions, st)
    ensures Follows(st, next) ==> Passed(transitions + [next], next)
    ensures Unsuccessful(next) && st != Done ==> BrokeOff(transitions + [next], next)
  {
    assert !st.Done? ==> PATH[..st.Rank() + 2] == PATH[..st.Rank() + 1] + [PATH[st.Rank() + 1]];
  }

  lemma SetKeepsStage(s: Sys)
    requires InStage(s) && s.run.Setting? && !s.lostDone
    ensures InStage(DoRun(s, Set))
  {
    OneMoreStage(s.transitions, s.job.status, s.run.next);
    hide Passed, BrokeOff;
  }

  lemma FinishKeepsStage(s: Sys)
    requires InStage(s) && s.run.Finishing?
    ensures InStage(DoRun(s, Finish))
  {
    OneMoreStage(s.transitions, s.job.status, s.run.end);
    hide Passed, BrokeOff;
  }

  lemma RunKeepsStage(s: Sys, step: Step)
    requires InStage(s) && OneVoice(s)
    ensures InStage(DoRun(s, step))
  {
    if s.run.Setting? && step.Set? {
      SetKeepsStage(s);
    } else if s.run.Finishing? && step.Finish? {
      FinishKeepsStage(s);
    } else {
      StageKept(s, step);
    }
  }

  lemma StageKept(s: Sys, step: Step)
    requires InStage(s) && (s.lostDone ==> s.run.Finishing? || s.run.Stopped?)
    requires !(s.run.Setting? && step.Set?) && !(s.run.Finishing? && step.Finish?)
    ensures InStage(DoRun(s, step))
  {
    hide Passed, BrokeOff;
  }

  lemma StepKeepsOrder(s: Sys, step: Step)
    requires Orderly(s)
    ensures Orderly(Do(s, step))
  {
    hide InStage, OneVoice, Recorded, DoRun, DoClient, DoProgress;
    if step.EmitRun? || step.EmitProgress? {
      EmitKeepsOrder(s, step);
    } else {
      hide EmitOne;
      ClientKeepsOrder(s, step);
      if s.progressEmit.Quiet? { ProgressKeepsOrder(s, step); }
      if s.runEmit.Quiet? {
        RunKeepsHistory(s, step);
        RunKeepsVoice(s, step);
        RunKeepsStage(s, step);
      }
    }
  }

  lemma StartIsOrderly()
    ensures Orderly(START)
  {
  }

  // ---- Channels ---------------------------------------------------------------------------------

  /** The notes are snapshots from the history, in its order; snapshots may be left out, and none comes twice
      except that the first one, handed over when the channel was made, may be sent once more. */
  ghost predicate InOrder(trail: seq<Note>, history: seq<Job>) {
    && (forall i :: 0 <= i < |trail| ==> trail[i].at < |history| && history[trail[i].at] == trail[i].job)
    && (forall i, j :: 0 <= i < j < |trail| ==> trail[i].at <= trail[j].at)
    && Rising(trail)
  }

  /** From the second note on, every note is of a later snapshot than the one before. */
  ghost predicate Rising(trail: seq<Note>) {
    forall i, j :: 1 <= i < j < |trail| ==> trail[i].at < trail[j].at
  }

  /** Nothing but the first note can be the snapshot at this place of the history, or a later one. */
  ghost predicate Before(trail: seq<Note>, at: nat) {
    forall i :: 1 <= i < |trail| ==> trail[i].at < at
  }

  ghost predicate ChannelInOrder(c: Chan, history: seq<Job>) {
    |c.buf| <= CAPACITY && InOrder(c.Trail(), history)
  }

  ghost predicate Trails(s: Sys) {
    forall id :: id in s.board.chans ==> ChannelInOrder(s.board.chans[id], s.history)
  }

  function LeftOf(e: Emit): seq<nat> {
    match e
    case Quiet => []
    case Copying(_) => []
    case Sending(_, left) => left
    case Draining(_, left) => left
    case Closing(_, left) => left
  }

  /** The channels to which an emission is still to send its note. */
  function Unsent(e: Emit, subs: seq<nat>): seq<nat> {
    match e
    case Quiet => []
    case Copying(_) => subs
    case Sending(_, left) => left
    case Draining(_, left) => left
    case Closing(_, left) => if left == [] then [] else left[1..]
  }

  predicate Distinct(ids: seq<nat>) {
    forall i, j :: 0 <= i < j < |ids| ==> ids[i] != ids[j]
  }

  /** These channels were handed out while the job ran, and are open. */
  ghost predicate Open(ids: seq<nat>, s: Sys) {
    Distinct(ids) && forall id :: id in ids ==> id in s.board.registered && id in s.board.chans && !s.board.chans[id].closed
  }

  /** Whether the terminal emission has taken over the subscriber list. */
  predicate TakenOver(s: Sys) {
    s.job.status.Terminal() && !s.lostDone && !s.run.Saving? && !s.runEmit.Copying?
  }

  /** Who may still send to a channel: the subscriber list and the emissions under way hold open
      channels only, and once the terminal emission has the list nobody else does. */
  ghost predicate Owned(s: Sys) {
    && !s.board.panicked
    && Open(s.board.subs, s) && Open(LeftOf(s.runEmit), s) && Open(LeftOf(s.progressEmit), s)
    && (TakenOver(s) ==> s.board.subs == [])
    && (s.runEmit.Draining? || s.runEmit.Closing? ==> s.job.status.Terminal() && LeftOf(s.runEmit) != [])
    && !s.progressEmit.Draining? && !s.progressEmit.Closing?
  }

  /** These channels have not been sent the latest snapshot yet. */
  ghost predicate Awaiting(ids: seq<nat>, s: Sys) {
    forall id :: id in ids && id in s.board.chans ==> Before(s.board.chans[id].Trail(), Latest(s).at)
  }

  /** A snapshot is sent to a channel once: until an emission reaches a channel, its note is not in there. */
  ghost predicate SentOnce(s: Sys) {
    && (s.run.Saving? ==> forall id :: id in s.board.chans ==> Before(s.board.chans[id].Trail(), Latest(s).at))
    && Awaiting(Unsent(s.runEmit, s.board.subs), s)
    && Awaiting(Unsent(s.progressEmit, s.board.subs), s)
  }

  /** The last thing in the channel is the job's final snapshot, unless the sender gave up on it. */
  ghost predicate LastWord(c: Chan, note: Note) {
    c.gaveUp || (c.Trail() != [] && c.Trail()[|c.Trail()| - 1] == note)
  }

  /** Every channel handed out is closed, or still to be closed, or has been unsubscribed; none is closed
      before its time, and a closed one has the last word. */
  ghost predicate Served(s: Sys) {
    && (forall id :: id in s.board.registered ==> id in s.board.chans)
    && (forall id :: id in s.board.registered && !s.board.chans[id].closed ==>
          id in s.board.subs || id in s.board.unsubscribed || (TakenOver(s) && id in LeftOf(s.runEmit)))
    && (forall id :: id in s.board.registered && s.board.chans[id].closed ==> TakenOver(s) && LastWord(s.board.chans[id], Latest(s)))
    && (s.runEmit.Closing? && LeftOf(s.runEmit) != [] && LeftOf(s.runEmit)[0] in s.board.chans ==> LastWord(s.board.chans[LeftOf(s.runEmit)[0]], Latest(s)))
  }

  lemma OrderStays(trail: seq<Note>, history: seq<Job>, job: Job)
    requires InOrder(trail, history)
    ensures InOrder(trail, history + [job])
  {
  }

  lemma LatestKeepsOrder(trail: seq<Note>, s: Sys)
    requires InOrder(trail, s.history) && Recorded(s) && Before(trail, Latest(s).at)
    ensures InOrder(trail + [Latest(s)], s.history)
  {
    hide Monotone;
  }

  lemma DropKeepsOrder(got: seq<Note>, buf: seq<Note>, history: seq<Job>)
    requires InOrder(got + buf, history) && buf != []
    ensures InOrder(got + buf[1..], history)
    ensures got + [buf[0]] + buf[1..] == got + buf
    ensures forall at :: Before(got + buf, at) ==> Before(got + buf[1..], at)
  {
    assert buf == [buf[0]] + buf[1..];
    var a, b := got + buf, got + buf[1..];
    forall i | 0 <= i < |b| ensures b[i].at < |history| && history[b[i].at] == b[i].job {
      assert b[i] == a[if i < |got| then i else i + 1];
    }
    forall i, j | 0 <= i < j < |b| ensures b[i].at <= b[j].at && (i >= 1 ==> b[i].at < b[j].at) {
      assert b[i] == a[if i < |got| then i else i + 1] && b[j] == a[if j < |got| then j else j + 1];
    }
    forall at, i | Before(a, at) && 1 <= i < |b| ensures b[i].at < at {
      assert b[i] == a[if i < |got| then i else i + 1];
    }
  }

  // ---- Steps of clients -------------------------------------------------------------------------

  lemma PushKeepsOrder(s: Sys, c: Chan)
    requires Recorded(s) && ChannelInOrder(c, s.history) && Before(c.Trail(), Latest(s).at)
    ensures |c.buf| < CAPACITY ==> ChannelInOrder(c.(buf := c.buf + [Latest(s)]), s.history)
  {
    LatestKeepsOrder(c.Trail(), s);
    assert c.got + (c.buf + [Latest(s)]) == c.Trail() + [Latest(s)];
    hide InOrder, Recorded, Latest;
  }

  lemma DropKeepsChannel(c: Chan, history: seq<Job>)
    requires ChannelInOrder(c, history) && c.buf != []
    ensures ChannelInOrder(c.(buf := c.buf[1..]), history)
    ensures ChannelInOrder(c.(got := c.got + [c.buf[0]], buf := c.buf[1..]), history)
  {
    DropKeepsOrder(c.got, c.buf, history);
    hide InOrder;
  }

  lemma FirstInOrder(s: Sys, closed: bool)
    requires Recorded(s)
    ensures ChannelInOrder(Chan([], [Latest(s)], closed, false), s.history)
  {
    NothingYet(s.history);
    LatestKeepsOrder([], s);
    assert [] + [Latest(s)] == [Latest(s)];
    hide InOrder, Recorded, Latest;
  }

  lemma ClientKeepsTrails(s: Sys, step: Step)
    requires Trails(s) && Recorded(s)
    ensures Trails(DoClient(s, step))
  {
    match step
    case Subscribe(id) =>
      hide ChannelInOrder, Recorded;
      FirstInOrder(s, true);
      FirstInOrder(s, false);
    case Receive(id) =>
      hide ChannelInOrder, Recorded;
      if id in s.board.chans && s.board.chans[id].buf != [] {
        DropKeepsChannel(s.board.chans[id], s.history);
      }
    case _ =>
      hide ChannelInOrder, Recorded;
  }

  lemma NothingYet(history: seq<Job>)
    ensures InOrder([], history)
  {
  }

  lemma {:induction false} WithoutMembers(subs: seq<nat>, id: nat)
    ensures forall x :: x in Without(subs, id) <==> x in subs && x != id
    ensures Distinct(subs) ==> Distinct(Without(subs, id))
  {
    if subs != [] {
      var rest := subs[1..];
      WithoutMembers(rest, id);
      assert subs == [subs[0]] + rest;
      var w := Without(rest, id);
      if Distinct(subs) {
        FirstAlone(subs);
        hide Distinct;
        OneMoreDistinct(subs[0], w);
      }
      assert [] + w == w;
    }
  }

  lemma FirstAlone(ids: seq<nat>)
    requires Distinct(ids) && ids != []
    ensures ids[0] !in ids[1..] && Distinct(ids[1..])
  {
    assert forall i :: 0 <= i < |ids[1..]| ==> ids[1..][i] == ids[i + 1];
  }

  lemma OneMoreDistinct(id: nat, ids: seq<nat>)
    requires Distinct(ids) && id !in ids
    ensures Distinct([id] + ids)
  {
    assert forall i :: 0 <= i < |ids| ==> ids[i] in ids;
  }

  /** Channels that are not touched stay as open as they were. */
  lemma StillOpen(ids: seq<nat>, s: Sys, t: Sys)
    requires Open(ids, s) && s.board.registered <= t.board.registered
    requires forall id :: id in ids ==> id in t.board.chans && !t.board.chans[id].closed
    ensures Open(ids, t)
  {
  }

  /** Whatever leaves the lists alone and closes nothing keeps the ownership. */
  lemma OwnedStays(s: Sys, t: Sys)
    requires Owned(s) && SameJob(s, t) && t.runEmit == s.runEmit && t.progressEmit == s.progressEmit && t.board.panicked == s.board.panicked
    requires s.board.registered <= t.board.registered && Open(t.board.subs, t) && (TakenOver(s) ==> t.board.subs == [])
    requires forall id :: id in s.board.chans ==> id in t.board.chans && t.board.chans[id].closed == s.board.chans[id].closed
    ensures Owned(t)
  {
    hide Distinct;
  }

  lemma ClientKeepsOwned(s: Sys, step: Step)
    requires Owned(s)
    ensures Owned(DoClient(s, step))
  {
    ClientFrame(s, step);
    var t := DoClient(s, step);
    assert forall id :: id in s.board.chans ==> id in t.board.chans && t.board.chans[id].closed == s.board.chans[id].closed by {
      hide Open, Distinct;
    }
    assert Open(s.board.subs, s);
    hide Owned;
    ClientSubscribers(s, step);
    if TakenOver(s) { SubscribersGone(s); }
    hide DoClient;
    OwnedStays(s, t);
  }

  lemma SubscribersGone(s: Sys)
    requires Owned(s) && TakenOver(s)
    ensures s.board.subs == []
  {
  }

  lemma ClientSubscribers(s: Sys, step: Step)
    requires Open(s.board.subs, s)
    requires forall id :: id in s.board.chans ==> id in DoClient(s, step).board.chans && DoClient(s, step).board.chans[id].closed == s.board.chans[id].closed
    ensures var t := DoClient(s, step);
            && s.board.registered <= t.board.registered && Open(t.board.subs, t)
            && (s.job.status.Terminal() && s.board.subs == [] ==> t.board.subs == [])
  {
    var t := DoClient(s, step);
    match step
    case Subscribe(id) => OneMoreOpen(s.board.subs, id, s, t);
    case Unsubscribe(id) => WithoutMembers(s.board.subs, id);
    case _ => StillOpen(s.board.subs, s, t);
  }

  lemma OneMoreOpen(subs: seq<nat>, id: nat, s: Sys, t: Sys)
    requires Open(subs, s) && s.board.registered <= t.board.registered
    requires forall x :: x in s.board.chans ==> x in t.board.chans && t.board.chans[x].closed == s.board.chans[x].closed
    ensures Open(subs, t)
    ensures id !in s.board.chans && id in t.board.registered && id in t.board.chans && !t.board.chans[id].closed ==> Open(subs + [id], t)
  {
    if id !in s.board.chans {
      assert forall i :: 0 <= i < |subs| ==> subs[i] in subs && subs[i] != id;
    }
  }

  /** Receiving moves a note from the buffer to the receiver. */
  lemma ReceiveKeepsTrail(c: Chan)
    requires c.buf != []
    ensures c.(got := c.got + [c.buf[0]], buf := c.buf[1..]).Trail() == c.Trail()
  {
    assert c.buf == [c.buf[0]] + c.buf[1..];
  }

  /** The channels of s are still there, no more closed and with the same trail; new ones were not handed
      out before. */
  ghost predicate KeptChannels(s: Sys, t: Sys) {
    && s.board.chans.Keys <= t.board.chans.Keys && s.board.registered <= t.board.registered
    && (forall id :: id in s.board.chans ==> t.board.chans[id].closed == s.board.chans[id].closed)
    && (forall id :: id in s.board.chans ==> t.board.chans[id].gaveUp == s.board.chans[id].gaveUp && t.board.chans[id].Trail() == s.board.chans[id].Trail())
    && (forall id :: id in s.board.chans && id in t.board.registered ==> id in s.board.registered)
    && (forall id :: id in t.board.registered && id !in s.board.registered ==> id in t.board.chans && !t.board.chans[id].closed && id in t.board.subs)
  }

  lemma ServedStays(s: Sys, t: Sys)
    requires Served(s) && SameJob(s, t) && t.runEmit == s.runEmit && KeptChannels(s, t)
    requires s.board.unsubscribed <= t.board.unsubscribed && forall id :: id in s.board.subs ==> id in t.board.subs || id in t.board.unsubscribed
    requires Open(LeftOf(s.runEmit), s)
    ensures Served(t)
  {
    if LeftOf(s.runEmit) != [] { FirstOpen(LeftOf(s.runEmit), s); }
    hide Distinct;
    forall id | id in s.board.chans ensures LastWord(t.board.chans[id], Latest(t)) == LastWord(s.board.chans[id], Latest(s)) {}
    hide LastWord, LeftOf, Latest;
  }

  lemma ReceiveKeepsChannels(s: Sys, id: nat)
    requires Served(s)
    ensures KeptChannels(s, DoClient(s, Receive(id)))
  {
    if id in s.board.chans && s.board.chans[id].buf != [] { ReceiveKeepsTrail(s.board.chans[id]); }
    hide LastWord, LeftOf, Latest, TakenOver;
  }

  lemma ClientKeepsChannels(s: Sys, step: Step)
    requires Served(s)
    ensures KeptChannels(s, DoClient(s, step))
  {
    hide Without, LastWord, LeftOf, Latest, TakenOver;
    if step.Receive? {
      hide DoClient, Served, KeptChannels;
      ReceiveKeepsChannels(s, step.id);
    } else if step.Subscribe? {
      hide DoClient, Served, KeptChannels;
      SubscribeKeepsChannels(s, step.id);
    }
  }

  lemma SubscribeKeepsChannels(s: Sys, id: nat)
    requires Served(s)
    ensures KeptChannels(s, DoClient(s, Subscribe(id)))
  {
    hide LastWord, LeftOf, TakenOver;
  }

  lemma ClientKeepsServed(s: Sys, step: Step)
    requires Served(s) && Open(LeftOf(s.runEmit), s)
    ensures Served(DoClient(s, step))
  {
    ClientFrame(s, step);
    ClientKeepsChannels(s, step);
    if step.Unsubscribe? { WithoutMembers(s.board.subs, step.id); }
    var t := DoClient(s, step);
    hide Served, KeptChannels, Without, SameJob, Open;
    assert s.board.unsubscribed <= t.board.unsubscribed && forall id :: id in s.board.subs ==> id in t.board.subs || id in t.board.unsubscribed;
    ServedStays(s, t);
  }

  // ---- Steps of emissions -----------------------------------------------------------------------

  lemma EmitKeepsTrails(s: Sys, e: Emit)
    requires Trails(s) && Recorded(s) && EmitsLatest(s, e) && Awaiting(Unsent(e, s.board.subs), s)
    ensures Trails(EmitOne(s, e).0)
  {
    EmitWrites(s, e);
    hide EmitOne, ChannelInOrder, Recorded, Latest, EmitsLatest;
    if LeftOf(e) != [] && LeftOf(e)[0] in s.board.chans {
      var c := s.board.chans[LeftOf(e)[0]];
      if e.Sending? { PushKeepsOrder(s, c); }
      if c.buf != [] { DropKeepsChannel(c, s.history); }
      FlagsKeepOrder(c, s.history);
    }
  }

  /** One step of an emission leaves all channels alone, or sends to, drops from, gives up on or closes the one
      whose turn it is. */
  lemma EmitWrites(s: Sys, e: Emit)
    requires EmitsLatest(s, e)
    ensures var t := EmitOne(s, e).0;
            && t.history == s.history
            && (t.board.chans == s.board.chans
                || (LeftOf(e) != [] && LeftOf(e)[0] in s.board.chans &&
                    var id := LeftOf(e)[0];
                    var c := s.board.chans[id];
                    || (e.Sending? && |c.buf| < CAPACITY && t.board.chans == s.board.chans[id := c.(buf := c.buf + [Latest(s)])])
                    || (c.buf != [] && t.board.chans == s.board.chans[id := c.(buf := c.buf[1..])])
                    || t.board.chans == s.board.chans[id := c.(gaveUp := true)]
                    || t.board.chans == s.board.chans[id := c.(closed := true)]))
  {
    hide Latest;
  }

  lemma FlagsKeepOrder(c: Chan, history: seq<Job>)
    requires ChannelInOrder(c, history)
    ensures ChannelInOrder(c.(gaveUp := true), history) && ChannelInOrder(c.(closed := true), history)
  {
    hide InOrder;
  }

  lemma FirstOpen(ids: seq<nat>, s: Sys)
    requires Open(ids, s) && ids != []
    ensures ids[0] in s.board.chans && !s.board.chans[ids[0]].closed && ids[0] in s.board.registered
    ensures Open(ids[1..], s) && ids[0] !in ids[1..]
    ensures forall id :: id in ids <==> id == ids[0] || id in ids[1..]
  {
    assert ids[0] in ids && ids == [ids[0]] + ids[1..];
    assert forall i :: 0 <= i < |ids[1..]| ==> ids[1..][i] == ids[i + 1];
  }

  /** While the run goroutine emits, nobody else does. */
  lemma RunAlone(s: Sys)
    requires OneVoice(s) && !s.runEmit.Quiet?
    ensures s.progressEmit.Quiet? && !s.lostDone && !s.run.Saving? && s.runEmit.note == Latest(s)
  {
  }

  /** While the progress goroutine emits, the job is in transfer and the run goroutine is silent. */
  lemma ProgressAlone(s: Sys)
    requires OneVoice(s) && InStage(s) && !s.progressEmit.Quiet?
    ensures s.runEmit.Quiet? && s.job.status == Transfer && s.progressEmit.note == Latest(s)
  {
    hide Passed, BrokeOff;
  }

  /** The channels after an emission step: only the next subscriber's may differ, and only a terminal
      emission closes it. */
  lemma EmitTouches(s: Sys, e: Emit)
    requires !s.board.panicked && Open(LeftOf(e), s)
    requires e.Draining? || e.Closing? ==> LeftOf(e) != []
    ensures var (t, f) := EmitOne(s, e);
            && !t.board.panicked && t.board.registered == s.board.registered && t.board.unsubscribed == s.board.unsubscribed
            && t.board.chans.Keys == s.board.chans.Keys
            && (forall id :: id in s.board.chans && !(LeftOf(e) != [] && id == LeftOf(e)[0]) ==> t.board.chans[id] == s.board.chans[id])
            && (forall id :: id in s.board.chans && !e.Closing? ==> t.board.chans[id].closed == s.board.chans[id].closed)
            && t.board.subs == (if e.Copying? && e.note.job.status.Terminal() then [] else s.board.subs)
            && LeftOf(f) == (if e.Copying? then s.board.subs
                             else if LeftOf(e) == [] then []
                             else if f.Sending? && !e.Draining? then LeftOf(e)[1..] else LeftOf(e))
            && (e.Closing? ==> t.board.chans[LeftOf(e)[0]].closed && f.Sending?)
            && (f.Draining? || f.Closing? ==> LeftOf(e) != [] && !e.Quiet? && (e.note.job.status.Terminal() || e.Draining?))
            && (e.Sending? && e.note.job.status.Terminal() && LeftOf(e) != [] ==> !f.Sending?)
            && !f.Copying?
  {
    if LeftOf(e) != [] { FirstOpen(LeftOf(e), s); }
    hide Distinct, Open;
  }

  lemma RunEmitKeepsOwned(s: Sys)
    requires OneVoice(s) && Owned(s) && !s.runEmit.Quiet?
    ensures Owned(Do(s, EmitRun))
  {
    var e := s.runEmit;
    RunAlone(s);
    EmitTouches(s, e);
    EmitFrame(s, e);
    var t := Do(s, EmitRun);
    if LeftOf(e) != [] { FirstOpen(LeftOf(e), s); }
    hide EmitOne, Distinct, OneVoice;
    if !e.Closing? { StillOpen(s.board.subs, s, t); }
    if LeftOf(e) != [] { StillOpen(LeftOf(e)[1..], s, t); }
    if !e.Closing? { StillOpen(LeftOf(e), s, t); }
    NobodyOpen(t);
  }

  lemma NobodyOpen(s: Sys)
    ensures Open([], s)
  {
  }

  lemma ProgressEmitKeepsOwned(s: Sys)
    requires OneVoice(s) && InStage(s) && Owned(s) && !s.progressEmit.Quiet?
    ensures Owned(Do(s, EmitProgress))
  {
    var e := s.progressEmit;
    ProgressAlone(s);
    EmitTouches(s, e);
    EmitFrame(s, e);
    var t := Do(s, EmitProgress);
    if LeftOf(e) != [] { FirstOpen(LeftOf(e), s); }
    hide EmitOne, Distinct, OneVoice, InStage;
    StillOpen(s.board.subs, s, t);
    if LeftOf(e) != [] { StillOpen(LeftOf(e)[1..], s, t); }
    StillOpen(LeftOf(e), s, t);
    NobodyOpen(t);
  }

  /** While the job runs nothing handed out is closed, whatever an emission does. */
  lemma ProgressEmitKeepsServed(s: Sys)
    requires OneVoice(s) && InStage(s) && Owned(s) && Served(s) && !s.progressEmit.Quiet?
    ensures Served(Do(s, EmitProgress))
  {
    ProgressAlone(s);
    EmitTouches(s, s.progressEmit);
    EmitFrame(s, s.progressEmit);
    hide EmitOne, Distinct, OneVoice, InStage, LastWord, Open;
  }

  /** What the terminal emission has just put in, or given up on, is the channel's last word. */
  lemma EmitHasLastWord(s: Sys, e: Emit)
    requires Owned(s) && Open(LeftOf(e), s) && EmitsLatest(s, e)
    requires e.Closing? && LeftOf(e) != [] ==> LastWord(s.board.chans[LeftOf(e)[0]], Latest(s))
    ensures var (t, f) := EmitOne(s, e);
            && (f.Closing? && LeftOf(e) != [] ==> LeftOf(e)[0] in t.board.chans && LastWord(t.board.chans[LeftOf(e)[0]], Latest(s)))
            && (e.Closing? && LeftOf(e) != [] ==> LeftOf(e)[0] in t.board.chans && LastWord(t.board.chans[LeftOf(e)[0]], Latest(s)))
  {
    if LeftOf(e) != [] { FirstOpen(LeftOf(e), s); }
    hide Distinct, Open, Latest;
  }

  lemma RunEmitKeepsServed(s: Sys)
    requires OneVoice(s) && Owned(s) && Served(s) && !s.runEmit.Quiet?
    ensures Served(Do(s, EmitRun))
  {
    RunAlone(s);
    EmitTouches(s, s.runEmit);
    EmitFrame(s, s.runEmit);
    if s.runEmit.Copying? {
      hide EmitOne, Distinct, OneVoice, LastWord, Open, Latest;
    } else {
      EmitHasLastWord(s, s.runEmit);
      if LeftOf(s.runEmit) != [] { FirstOpen(LeftOf(s.runEmit), s); }
      assert s.runEmit.Closing? ==> TakenOver(s);
      hide EmitOne, OneVoice, Owned, Open, LastWord, Served;
      SendingKeepsServed(s, Do(s, EmitRun));
    }
  }

  /** The terminal emission moves through its subscribers one by one; the others are left as they are. */
  lemma SendingKeepsServed(s: Sys, t: Sys)
    requires Served(s) && SameJob(s, t) && !s.runEmit.Copying? && !t.runEmit.Copying?
    requires t.board.registered == s.board.registered && t.board.unsubscribed == s.board.unsubscribed
    requires t.board.subs == s.board.subs && t.board.chans.Keys == s.board.chans.Keys
    requires var e := s.runEmit;
             && (forall id :: id in s.board.chans && !(LeftOf(e) != [] && id == LeftOf(e)[0]) ==> t.board.chans[id] == s.board.chans[id])
             && (forall id :: id in s.board.chans && !e.Closing? ==> t.board.chans[id].closed == s.board.chans[id].closed)
             && (LeftOf(e) != [] && LeftOf(e)[0] in s.board.chans ==> !s.board.chans[LeftOf(e)[0]].closed)
             && (LeftOf(t.runEmit) == LeftOf(e) || (LeftOf(e) != [] && LeftOf(t.runEmit) == LeftOf(e)[1..]))
             && (LeftOf(t.runEmit) != LeftOf(e) && TakenOver(s) ==> e.Closing?)
             && (e.Closing? && LeftOf(e) != [] && LeftOf(e)[0] in s.board.chans ==>
                   t.board.chans[LeftOf(e)[0]].closed && LastWord(t.board.chans[LeftOf(e)[0]], Latest(s)))
             && (t.runEmit.Closing? ==>
                   LeftOf(t.runEmit) == LeftOf(e) != [] && LeftOf(e)[0] in t.board.chans && LastWord(t.board.chans[LeftOf(e)[0]], Latest(s)))
             && (e.Closing? ==> LeftOf(e) != [] && TakenOver(s))
    ensures Served(t)
  {
    assert Latest(t) == Latest(s) && TakenOver(t) == TakenOver(s);
    var left := LeftOf(s.runEmit);
    assert left != [] ==> left == [left[0]] + left[1..];
    hide LastWord, Latest, TakenOver, SameJob;
  }

  // ---- Steps of the goroutines ------------------------------------------------------------------

  lemma HistoryKeepsTrails(s: Sys, t: Sys)
    requires Trails(s) && t.board == s.board
    requires t.history == s.history || t.history == s.history + [t.job]
    ensures Trails(t)
  {
    forall id | id in s.board.chans ensures ChannelInOrder(s.board.chans[id], s.history + [t.job]) {
      OrderStays(s.board.chans[id].Trail(), s.history, t.job);
    }
    hide InOrder;
  }

  lemma RunFrame(s: Sys, step: Step)
    requires s.runEmit.Quiet?
    ensures var t := DoRun(s, step);
            && t.board == s.board && t.progressEmit == s.progressEmit
            && (t.runEmit.Quiet? || t.runEmit.Copying?)
  {
    hide Latest;
    match step
    case Check =>
    case Set =>
    case Persist(_) =>
    case OpenFails =>
    case OpenOk(_) =>
    case TakeChunk =>
    case Merge(_) =>
    case StreamEnds(_) =>
    case Join =>
    case OrganizeEnds(_, _) =>
    case Finish =>
    case _ =>
  }

  /** Once the terminal emission has the subscriber list, the run goroutine has nothing left to do. */
  lemma NothingLeftToDo(s: Sys, step: Step)
    requires InStage(s) && s.runEmit.Quiet? && TakenOver(s)
    ensures DoRun(s, step) == s
  {
    assert s.run.Stopped? || !Unsuccessful(s.job.status);
    hide Passed, BrokeOff;
    assert s.run.Stopped?;
  }

  lemma RunTakesOver(s: Sys, step: Step)
    requires InStage(s) && OneVoice(s) && s.runEmit.Quiet?
    ensures TakenOver(DoRun(s, step)) ==> TakenOver(s)
  {
    hide Passed, BrokeOff, Latest;
  }

  lemma RunKeepsOwned(s: Sys, step: Step)
    requires InStage(s) && OneVoice(s) && Owned(s) && s.runEmit.Quiet?
    ensures Owned(DoRun(s, step))
  {
    RunFrame(s, step);
    RunTakesOver(s, step);
    hide DoRun, InStage, OneVoice, TakenOver, Distinct;
  }

  lemma RunKeepsServed(s: Sys, step: Step)
    requires InStage(s) && Served(s) && s.runEmit.Quiet?
    ensures Served(DoRun(s, step))
  {
    RunFrame(s, step);
    if TakenOver(s) {
      NothingLeftToDo(s, step);
    }
    hide DoRun, InStage, TakenOver, LastWord;
  }

  lemma ProgressFrame(s: Sys, step: Step)
    requires s.progressEmit.Quiet?
    ensures var t := DoProgress(s, step);
            && t.board == s.board && t.runEmit == s.runEmit && t.run == s.run && t.lostDone == s.lostDone
            && (t.progressEmit.Quiet? || t.progressEmit.Copying?)
            && t.job.status == s.job.status && (s.job.status != Transfer ==> t.job == s.job && t.history == s.history)
  {
  }

  lemma ProgressKeepsOwned(s: Sys, step: Step)
    requires Owned(s) && s.progressEmit.Quiet?
    ensures Owned(DoProgress(s, step))
  {
    ProgressFrame(s, step);
    hide DoProgress, Distinct;
  }

  lemma ProgressKeepsServed(s: Sys, step: Step)
    requires Served(s) && OneVoice(s) && s.progressEmit.Quiet?
    ensures Served(DoProgress(s, step))
  {
    ProgressFrame(s, step);
    var t := DoProgress(s, step);
    assert s.job.status != Transfer ==> Latest(t) == Latest(s);
    assert s.progress.Listening? ==> s.runEmit.Quiet?;
    assert !s.progress.Listening? ==> Latest(t) == Latest(s);
    hide DoProgress, LastWord, Latest, OneVoice;
  }

  // ---- Sending once -----------------------------------------------------------------------------

  lemma ClientKeepsSentOnce(s: Sys, step: Step)
    requires SentOnce(s)
    ensures SentOnce(DoClient(s, step))
  {
    ClientFrame(s, step);
    ClientKeepsAllTrails(s, step);
    var t := DoClient(s, step);
    assert Latest(t) == Latest(s);
    if step.Unsubscribe? { WithoutMembers(s.board.subs, step.id); }
    hide Without, Before, Latest, SameJob;
  }

  /** Clients add channels with a single note and leave the trails of the others as they are. */
  lemma ClientKeepsAllTrails(s: Sys, step: Step)
    ensures var t := DoClient(s, step);
            && (forall id :: id in s.board.chans ==> id in t.board.chans && t.board.chans[id].Trail() == s.board.chans[id].Trail())
            && (forall id, at :: id in t.board.chans && id !in s.board.chans ==> Before(t.board.chans[id].Trail(), at))
            && (forall id :: id in t.board.subs ==> id in s.board.subs || id !in s.board.chans)
  {
    match step
    case Receive(id) =>
      if id in s.board.chans && s.board.chans[id].buf != [] { ReceiveKeepsTrail(s.board.chans[id]); }
    case Unsubscribe(id) => WithoutMembers(s.board.subs, id);
    case _ =>
    hide Without;
  }

  /** An emission step leaves what it has not sent yet unsent. */
  lemma EmitKeepsAwaiting(s: Sys, e: Emit)
    requires Awaiting(Unsent(e, s.board.subs), s) && !s.board.panicked && Open(LeftOf(e), s)
    requires e.Draining? || e.Closing? ==> LeftOf(e) != []
    ensures var (t, f) := EmitOne(s, e);
            forall id :: id in Unsent(f, t.board.subs) && id in t.board.chans ==> Before(t.board.chans[id].Trail(), Latest(s).at)
  {
    EmitTouches(s, e);
    if LeftOf(e) != [] {
      FirstOpen(LeftOf(e), s);
      var c := s.board.chans[LeftOf(e)[0]];
      if c.buf != [] { DropStaysBefore(c.got, c.buf, Latest(s).at); }
    }
    hide Before, Latest, Open, Distinct;
  }

  lemma DropStaysBefore(got: seq<Note>, buf: seq<Note>, at: nat)
    requires buf != []
    ensures Before(got + buf, at) ==> Before(got + buf[1..], at)
  {
    var a, b := got + buf, got + buf[1..];
    forall i | Before(a, at) && 1 <= i < |b| ensures b[i].at < at {
      assert b[i] == a[if i < |got| then i else i + 1];
    }
  }

  lemma EmitStepSendsOnce(s: Sys, step: Step)
    requires OneVoice(s) && InStage(s) && Owned(s) && SentOnce(s)
    requires (step.EmitRun? && !s.runEmit.Quiet?) || (step.EmitProgress? && !s.progressEmit.Quiet?)
    ensures SentOnce(Do(s, step))
  {
    var e := if step.EmitRun? then s.runEmit else s.progressEmit;
    EmitFrame(s, e);
    EmitKeepsAwaiting(s, e);
    if step.EmitRun? { RunAlone(s); } else { ProgressAlone(s); }
    var t := Do(s, step);
    assert Latest(t) == Latest(s);
    assert !t.run.Saving? by { hide EmitOne, Open, Distinct, Awaiting, Passed, BrokeOff; }
    hide EmitOne, Before, Latest, Open, Distinct, InStage, Owned;
  }

  /** Every note so far lies before the next snapshot. */
  lemma NextIsLater(s: Sys, t: Sys)
    requires Trails(s) && t.board == s.board && t.history == s.history + [t.job]
    ensures forall id :: id in t.board.chans ==> Before(t.board.chans[id].Trail(), Latest(t).at)
  {
    forall id | id in t.board.chans ensures Before(t.board.chans[id].Trail(), Latest(t).at) {
      assert ChannelInOrder(s.board.chans[id], s.history);
    }
  }

  /** What the goroutines' own steps do to snapshots: either nothing, or a persisted one is announced, or
      there is a new one and nobody was announcing. */
  lemma RunSnapshots(s: Sys, step: Step)
    requires InStage(s) && OneVoice(s) && s.runEmit.Quiet?
    ensures var t := DoRun(s, step);
            || (t.history == s.history && t.job == s.job && (t.run.Saving? ==> s.run.Saving?) && (t.runEmit.Quiet? || s.run.Saving?))
            || (t.history == s.history + [t.job] && t.progressEmit.Quiet?)
  {
    hide Passed, BrokeOff, Latest;
    match step
    case Merge(_) =>
    case Set =>
    case Finish =>
    case OrganizeEnds(_, _) =>
    case Persist(_) =>
    case _ =>
  }

  lemma RunSendsOnce(s: Sys, step: Step)
    requires InStage(s) && OneVoice(s) && Trails(s) && SentOnce(s) && s.runEmit.Quiet?
    ensures SentOnce(DoRun(s, step))
  {
    RunFrame(s, step);
    RunSnapshots(s, step);
    var t := DoRun(s, step);
    if t.history == s.history + [t.job] {
      NextIsLater(s, t);
    } else {
      assert Latest(t) == Latest(s);
    }
    hide DoRun, InStage, OneVoice, Before, Trails, Latest;
  }

  lemma ProgressSendsOnce(s: Sys, step: Step)
    requires InStage(s) && OneVoice(s) && Trails(s) && SentOnce(s) && s.progressEmit.Quiet?
    ensures SentOnce(DoProgress(s, step))
  {
    ProgressFrame(s, step);
    var t := DoProgress(s, step);
    if t.history != s.history {
      assert t.history == s.history + [t.job] && s.runEmit.Quiet? && !s.run.Saving?;
      NextIsLater(s, t);
    } else {
      assert t.job == s.job && t.progressEmit.Quiet? && Latest(t) == Latest(s);
    }
    hide DoProgress, InStage, OneVoice, Before, Trails, Latest;
  }

  // ---- Every interleaving -----------------------------------------------------------------------

  ghost predicate Sane(s: Sys) {
    Orderly(s) && Trails(s) && Owned(s) && Served(s) && SentOnce(s)
  }

  lemma EmitStepKeeps(s: Sys, step: Step)
    requires Sane(s) && (step.EmitRun? || step.EmitProgress?)
    ensures var t := Do(s, step); Trails(t) && Owned(t) && Served(t) && SentOnce(t)
  {
    hide Trails, Owned, Served, SentOnce, InStage, OneVoice, Recorded;
    EmitStepKeepsTrails(s, step);
    if step.EmitRun? && !s.runEmit.Quiet? {
      RunEmitKeepsOwned(s);
      RunEmitKeepsServed(s);
      EmitStepSendsOnce(s, step);
    } else if step.EmitProgress? && !s.progressEmit.Quiet? {
      ProgressEmitKeepsOwned(s);
      ProgressEmitKeepsServed(s);
      EmitStepSendsOnce(s, step);
    } else {
      QuietEmitsNothing(s, step);
    }
  }

  lemma QuietEmitsNothing(s: Sys, step: Step)
    requires (step.EmitRun? && s.runEmit.Quiet?) || (step.EmitProgress? && s.progressEmit.Quiet?)
    ensures Do(s, step) == s
  {
    if step.EmitRun? { assert EmitOne(s, s.runEmit) == (s, Quiet); } else { assert EmitOne(s, s.progressEmit) == (s, Quiet); }
  }

  lemma EmitStepKeepsTrails(s: Sys, step: Step)
    requires Trails(s) && Recorded(s) && OneVoice(s) && SentOnce(s) && (step.EmitRun? || step.EmitProgress?)
    ensures Trails(Do(s, step))
  {
    var e := if step.EmitRun? then s.runEmit else s.progressEmit;
    EmitKeepsTrails(s, e);
    EmitFrame(s, e);
    hide EmitOne, Recorded, ChannelInOrder;
  }

  lemma ClientStepKeeps(s: Sys, step: Step)
    requires Sane(s)
    ensures var t := DoClient(s, step); Trails(t) && Owned(t) && Served(t) && SentOnce(t)
  {
    ClientKeepsTrails(s, step);
    ClientKeepsOwned(s, step);
    ClientKeepsServed(s, step);
    ClientKeepsSentOnce(s, step);
    hide *;
  }

  lemma RunStepKeeps(s: Sys, step: Step)
    requires Sane(s) && s.runEmit.Quiet?
    ensures var t := DoRun(s, step); Trails(t) && Owned(t) && Served(t) && SentOnce(t)
  {
    RunAdvances(s, step);
    RunFrame(s, step);
    HistoryKeepsTrails(s, DoRun(s, step));
    RunKeepsOwned(s, step);
    RunKeepsServed(s, step);
    RunSendsOnce(s, step);
    hide *;
  }

  lemma ProgressStepKeeps(s: Sys, step: Step)
    requires Sane(s) && s.progressEmit.Quiet?
    ensures var t := DoProgress(s, step); Trails(t) && Owned(t) && Served(t) && SentOnce(t)
  {
    ProgressFrame(s, step);
    HistoryKeepsTrails(s, DoProgress(s, step));
    ProgressKeepsOwned(s, step);
    ProgressKeepsServed(s, step);
    ProgressSendsOnce(s, step);
    hide *;
  }

  lemma StepKeepsSane(s: Sys, step: Step)
    requires Sane(s)
    ensures Sane(Do(s, step))
  {
    StepKeepsOrder(s, step);
    if step.EmitRun? || step.EmitProgress? {
      EmitStepKeeps(s, step);
      hide *;
    } else {
      ClientStepKeeps(s, step);
      if s.runEmit.Quiet? { RunStepKeeps(s, step); }
      if s.progressEmit.Quiet? { ProgressStepKeeps(s, step); }
      hide Orderly, Trails, Owned, Served, SentOnce, DoRun, DoClient, DoProgress, EmitOne;
    }
  }

  lemma StartIsSane()
    ensures Sane(START)
  {
    StartIsOrderly();
  }

  lemma {:induction false} AfterIsSane(s: Sys, steps: seq<Step>)
    requires Sane(s)
    ensures Sane(After(s, steps))
    decreases |steps|
  {
    if steps != [] {
      StepKeepsSane(s, steps[0]);
      AfterIsSane(Do(s, steps[0]), steps[1..]);
    }
  }

  /** What a subscriber has received and will still receive from the buffer. */
  ghost predicate FaithfulTrail(s: Sys, id: nat)
    requires id in s.board.chans
  {
    var trail := s.board.chans[id].Trail();
    && InOrder(trail, s.history)
    && forall i, j :: 0 <= i <= j < |trail| ==> NotAfter(trail[i].job, trail[j].job)
  }

  lemma TrailNeverGoesBack(s: Sys, id: nat)
    requires Trails(s) && Recorded(s) && id in s.board.chans
    ensures FaithfulTrail(s, id)
  {
    var trail := s.board.chans[id].Trail();
    forall i, j | 0 <= i <= j < |trail| ensures NotAfter(trail[i].job, trail[j].job) {
      assert trail[i].at <= trail[j].at;
      assert NotAfter(s.history[trail[i].at], s.history[trail[j].at]);
    }
  }

  /** In every interleaving: nothing is sent on a closed channel and none is closed twice; the recorded
      transitions follow the stages; and every subscriber sees snapshots of the job in their order, none
      twice but for the one it was handed on subscribing, never going back in stage or counters. */
  lemma EveryInterleavingIsSafe(steps: seq<Step>)
    ensures var s := After(START, steps);
            && !s.board.panicked && StagesInOrder(s)
            && forall id :: id in s.board.chans ==> FaithfulTrail(s, id)
  {
    StartIsSane();
    AfterIsSane(START, steps);
    var s := After(START, steps);
    hide After, Passed, BrokeOff, FaithfulTrail, Trails, Open;
    forall id | id in s.board.chans ensures FaithfulTrail(s, id) {
      TrailNeverGoesBack(s, id);
    }
  }
}
