/** Waiting for a package directory to hold still before it is opened. */
module Polling {
  import opened Domain

  /** What opening the directory gives, when a poll gets that far. */
  datatype Reading = Good(snapshot: Snapshot) | Busy | Bad(error: Error)

  /** One look at the directory: whether it can be a whole package, its fingerprint, the time, and what
      reading it now would give. */
  datatype Poll = NotReady | Ready(mark: string, now: int, reading: Reading)

  datatype Watch = Unset | Since(mark: string, start: int)

  datatype Answer = Again | Opened(snapshot: Snapshot) | Failed(error: Error)

  predicate HeldStill(w: Watch, p: Poll, stableFor: int) {
    p.Ready? && w.Since? && w.mark == p.mark && p.now - w.start >= stableFor
  }

  /** The watch after a poll that does not end the wait. */
  function Watched(w: Watch, p: Poll, stableFor: int): Watch {
    if p.NotReady? then w
    else if w.Unset? || w.mark != p.mark then Since(p.mark, p.now)
    else if HeldStill(w, p, stableFor) then Unset
    else w
  }

  function AnswerOf(w: Watch, p: Poll, stableFor: int): Answer {
    if !HeldStill(w, p, stableFor) then Again
    else match p.reading
      case Good(snapshot) => Opened(snapshot)
      case Busy => Again
      case Bad(error) => Failed(error)
  }

  /** The watch before poll number n, if the wait has lasted that long. */
  function WatchAt(polls: seq<Poll>, n: nat, stableFor: int): Watch
    requires n <= |polls|
  {
    if n == 0 then Unset else Watched(WatchAt(polls, n - 1, stableFor), polls[n - 1], stableFor)
  }

  /** The answer of the first poll that gives one. */
  function Outcome(polls: seq<Poll>, n: nat, stableFor: int): Answer
    requires n <= |polls|
    decreases |polls| - n
  {
    if n == |polls| then Again
    else
      var a := AnswerOf(WatchAt(polls, n, stableFor), polls[n], stableFor);
      if a.Again? then Outcome(polls, n + 1, stableFor) else a
  }

  /** The polling loop. */
  method WaitPackage(polls: seq<Poll>, stableFor: int) returns (a: Answer)
    ensures a == Outcome(polls, 0, stableFor)
  {
    var lastSet, last, stableSince := false, "", 0;
    for i := 0 to |polls|
      invariant (if lastSet then Since(last, stableSince) else Unset) == WatchAt(polls, i, stableFor)
      invariant Outcome(polls, 0, stableFor) == Outcome(polls, i, stableFor)
    {
      var p := polls[i];
      if p.Ready? {
        if !lastSet || p.mark != last {
          last, lastSet, stableSince := p.mark, true, p.now;
        } else if p.now - stableSince >= stableFor {
          match p.reading {
            case Good(snapshot) => return Opened(snapshot);
            case Bad(error) => return Failed(error);
            case Busy => lastSet := false;
          }
        }
      }
    }
    return Again;
  }

  // ---- What holding still means -----------------------------------------------------------------

  /** Every look between the two that saw a whole package saw the same one. */
  ghost predicate SameMark(polls: seq<Poll>, j: nat, i: nat)
    requires j <= i < |polls|
  {
    polls[i].Ready? && polls[j].Ready? && forall k :: j <= k <= i && polls[k].Ready? ==> polls[k].mark == polls[i].mark
  }

  /** The directory is opened at poll i when it has shown one fingerprint for long enough, counted from a
      look after the last time it was opened. */
  ghost predicate Attempted(polls: seq<Poll>, i: nat, stableFor: int)
    requires i < |polls|
    decreases i, 1
  {
    exists j: nat :: AttemptFrom(polls, i, stableFor, j)
  }

  ghost predicate AttemptFrom(polls: seq<Poll>, i: nat, stableFor: int, j: nat)
    requires i < |polls|
    decreases i, 0
  {
    && j < i && SameMark(polls, j, i) && polls[i].now - polls[j].now >= stableFor
    && forall k :: j <= k < i ==> !Attempted(polls, k, stableFor)
  }

  /** Time does not run backwards. */
  ghost predicate Clock(polls: seq<Poll>) {
    forall i, j :: 0 <= i <= j < |polls| && polls[i].Ready? && polls[j].Ready? ==> polls[i].now <= polls[j].now
  }

  /** The watch starts at the earliest look from which the fingerprint has been the same since the last
      attempt. */
  ghost predicate Watching(polls: seq<Poll>, n: nat, w: Watch, stableFor: int)
    requires n <= |polls|
  {
    match w
    case Unset => forall j :: 0 <= j < n && polls[j].Ready? ==> exists k :: j <= k < n && Attempted(polls, k, stableFor)
    case Since(_, _) => exists j: nat :: WatchStart(polls, n, w, stableFor, j)
  }

  ghost predicate WatchStart(polls: seq<Poll>, n: nat, w: Watch, stableFor: int, j: nat)
    requires n <= |polls|
  {
    && w.Since? && j < n && polls[j].Ready? && polls[j].mark == w.mark && polls[j].now == w.start
    && (forall k :: j <= k < n ==> (polls[k].Ready? ==> polls[k].mark == w.mark) && !Attempted(polls, k, stableFor))
    && (forall h :: 0 <= h < j && polls[h].Ready? ==> Disturbed(polls, h, j, w.mark, stableFor))
  }

  /** From one look on and before another, the directory was opened or showed another fingerprint. */
  ghost predicate Disturbed(polls: seq<Poll>, h: int, j: nat, mark: string, stableFor: int)
    requires 0 <= h < j <= |polls|
  {
    exists k :: h <= k < j && (Attempted(polls, k, stableFor) || (polls[k].Ready? && polls[k].mark != mark))
  }

  /** The loop opens the directory exactly at the polls where it has held still. */
  lemma AttemptedIff(polls: seq<Poll>, i: nat, stableFor: int)
    requires Clock(polls) && i < |polls| && Watching(polls, i, WatchAt(polls, i, stableFor), stableFor)
    ensures Attempted(polls, i, stableFor) <==> HeldStill(WatchAt(polls, i, stableFor), polls[i], stableFor)
  {
    var w := WatchAt(polls, i, stableFor);
    hide Attempted, AttemptFrom, WatchStart, WatchAt, Clock;
    if w.Since? {
      var j0: nat :| WatchStart(polls, i, w, stableFor, j0);
      if Attempted(polls, i, stableFor) {
        var j := AttemptStart(polls, i, stableFor);
        StartIsEarliest(polls, i, w, stableFor, j0, j);
      }
      if HeldStill(w, polls[i], stableFor) {
        StartAttempts(polls, i, w, stableFor, j0);
      }
    } else if Attempted(polls, i, stableFor) {
      var j := AttemptStart(polls, i, stableFor);
    }
  }

  lemma StartAttempts(polls: seq<Poll>, i: nat, w: Watch, stableFor: int, j0: nat)
    requires i < |polls| && WatchStart(polls, i, w, stableFor, j0) && HeldStill(w, polls[i], stableFor)
    ensures Attempted(polls, i, stableFor)
  {
    assert SameMark(polls, j0, i);
    assert AttemptFrom(polls, i, stableFor, j0);
  }

  lemma AttemptStart(polls: seq<Poll>, i: nat, stableFor: int) returns (j: nat)
    requires i < |polls| && Attempted(polls, i, stableFor)
    ensures AttemptFrom(polls, i, stableFor, j) && j < i && polls[j].Ready? && polls[i].Ready?
    ensures polls[i].now - polls[j].now >= stableFor
    ensures forall k :: j <= k < i ==> !Attempted(polls, k, stableFor)
  {
    j :| AttemptFrom(polls, i, stableFor, j);
  }

  lemma StartIsEarliest(polls: seq<Poll>, i: nat, w: Watch, stableFor: int, j0: nat, j: nat)
    requires i < |polls| && Clock(polls) && WatchStart(polls, i, w, stableFor, j0) && AttemptFrom(polls, i, stableFor, j)
    ensures w.mark == polls[i].mark && w.start <= polls[j].now
  {
    hide Attempted;
  }

  /** After every poll the watch is what it should be. */
  lemma {:induction false} WatchIs(polls: seq<Poll>, n: nat, stableFor: int)
    requires Clock(polls) && n <= |polls|
    ensures Watching(polls, n, WatchAt(polls, n, stableFor), stableFor)
  {
    hide Attempted, Watching, WatchStart, Clock, HeldStill, Watched;
    if n == 0 {
      NothingWatched(polls, stableFor);
    } else {
      WatchIs(polls, n - 1, stableFor);
      AttemptedIff(polls, n - 1, stableFor);
      WatchGoesOn(polls, n - 1, WatchAt(polls, n - 1, stableFor), stableFor);
    }
  }

  lemma NothingWatched(polls: seq<Poll>, stableFor: int)
    ensures Watching(polls, 0, Unset, stableFor)
  {
  }

  lemma FirstWatch(polls: seq<Poll>, n: nat, stableFor: int)
    requires n < |polls| && Watching(polls, n, Unset, stableFor) && !Attempted(polls, n, stableFor) && polls[n].Ready?
    ensures WatchStart(polls, n + 1, Since(polls[n].mark, polls[n].now), stableFor, n)
  {
    hide Attempted;
  }

  lemma NextWatch(polls: seq<Poll>, n: nat, w: Watch, stableFor: int, j0: nat)
    requires n < |polls| && WatchStart(polls, n, w, stableFor, j0) && !Attempted(polls, n, stableFor)
    requires polls[n].Ready? && w.mark != polls[n].mark
    ensures WatchStart(polls, n + 1, Since(polls[n].mark, polls[n].now), stableFor, n)
  {
    hide Attempted;
    forall h | 0 <= h < n && polls[h].Ready? ensures Disturbed(polls, h, n, polls[n].mark, stableFor) {
      var k := OldMark(polls, n, w, stableFor, j0, h);
      assert polls[k].mark != polls[n].mark;
    }
    hide AttemptFrom, Disturbed;
  }

  /** From every look on, the watched fingerprint is seen again. */
  lemma OldMark(polls: seq<Poll>, n: nat, w: Watch, stableFor: int, j0: nat, h: nat) returns (k: nat)
    requires h < n <= |polls| && WatchStart(polls, n, w, stableFor, j0) && polls[h].Ready?
    ensures h <= k < n && polls[k].Ready? && polls[k].mark == w.mark
  {
    hide Attempted, AttemptFrom;
    k := if h < j0 then j0 else h;
  }

  lemma NewWatch(polls: seq<Poll>, n: nat, w: Watch, stableFor: int)
    requires n < |polls| && Watching(polls, n, w, stableFor) && !Attempted(polls, n, stableFor)
    requires polls[n].Ready? && (w.Unset? || w.mark != polls[n].mark)
    ensures WatchStart(polls, n + 1, Since(polls[n].mark, polls[n].now), stableFor, n)
  {
    hide Attempted, WatchStart;
    if w.Since? {
      var j0: nat :| WatchStart(polls, n, w, stableFor, j0);
      NextWatch(polls, n, w, stableFor, j0);
    } else {
      FirstWatch(polls, n, stableFor);
    }
  }

  lemma SameWatch(polls: seq<Poll>, n: nat, w: Watch, stableFor: int)
    requires n < |polls| && Watching(polls, n, w, stableFor) && !Attempted(polls, n, stableFor)
    requires polls[n].NotReady? || (w.Since? && w.mark == polls[n].mark)
    ensures Watching(polls, n + 1, w, stableFor)
  {
    hide Attempted;
    if w.Since? {
      var j0: nat :| WatchStart(polls, n, w, stableFor, j0);
      assert WatchStart(polls, n + 1, w, stableFor, j0);
    } else {
      forall j | 0 <= j < n + 1 && polls[j].Ready? ensures exists k :: j <= k < n + 1 && Attempted(polls, k, stableFor) {
        var k :| j <= k < n && Attempted(polls, k, stableFor);
      }
    }
  }

  lemma WatchGoesOn(polls: seq<Poll>, n: nat, w: Watch, stableFor: int)
    requires n < |polls| && Watching(polls, n, w, stableFor)
    requires Attempted(polls, n, stableFor) <==> HeldStill(w, polls[n], stableFor)
    ensures Watching(polls, n + 1, Watched(w, polls[n], stableFor), stableFor)
  {
    var p := polls[n];
    hide Attempted, WatchStart;
    if HeldStill(w, p, stableFor) {
      assert Watched(w, p, stableFor) == Unset;
    } else if p.Ready? && (w.Unset? || w.mark != p.mark) {
      NewWatch(polls, n, w, stableFor);
    } else {
      SameWatch(polls, n, w, stableFor);
    }
  }

  /** The wait gives the reading of the first attempt that did not find the package busy, and goes on as
      long as there is none. */
  lemma {:induction false} WaitGivesFirstReading(polls: seq<Poll>, n: nat, stableFor: int)
    requires Clock(polls) && n <= |polls|
    ensures var a := Outcome(polls, n, stableFor);
            && (a.Again? <==> forall i :: n <= i < |polls| && Attempted(polls, i, stableFor) ==> polls[i].Ready? && polls[i].reading.Busy?)
            && (!a.Again? ==> exists i :: n <= i < |polls| && DecidedAt(polls, n, i, stableFor, a))
    decreases |polls| - n
  {
    if n < |polls| {
      WatchIs(polls, n, stableFor);
      AttemptedIff(polls, n, stableFor);
      WaitGivesFirstReading(polls, n + 1, stableFor);
      hide Attempted, Watching, WatchAt;
      var a := Outcome(polls, n, stableFor);
      if AnswerOf(WatchAt(polls, n, stableFor), polls[n], stableFor).Again? {
        if !a.Again? {
          var i :| n + 1 <= i < |polls| && DecidedAt(polls, n + 1, i, stableFor, a);
          assert DecidedAt(polls, n, i, stableFor, a);
        }
      } else {
        assert DecidedAt(polls, n, n, stableFor, a);
      }
    }
  }

  ghost predicate DecidedAt(polls: seq<Poll>, n: nat, i: nat, stableFor: int, a: Answer)
    requires n <= i < |polls|
  {
    && Attempted(polls, i, stableFor) && polls[i].Ready?
    && a == (match polls[i].reading
             case Good(snapshot) => Opened(snapshot)
             case Busy => Again
             case Bad(error) => Failed(error))
    && forall k :: n <= k < i && Attempted(polls, k, stableFor) ==> polls[k].Ready? && polls[k].reading.Busy?
  }

  /** Looks that saw no whole package do not restart the clock: the same fingerprint before and after a
      gap counts as held still all through it. */
  lemma GapsCount(mark: string, stableFor: int, gap: nat, snapshot: Snapshot) returns (polls: seq<Poll>)
    requires stableFor > 0
    ensures |polls| == gap + 2 && polls[0] == Ready(mark, 0, Good(snapshot)) && polls[gap + 1] == Ready(mark, stableFor, Good(snapshot))
    ensures forall i :: 1 <= i <= gap ==> polls[i] == NotReady
    ensures Outcome(polls, 0, stableFor) == Opened(snapshot)
  {
    polls := [Ready(mark, 0, Good(snapshot))] + seq(gap, i => NotReady) + [Ready(mark, stableFor, Good(snapshot))];
    GapKeepsWatch(polls, mark, stableFor, gap);
  }

  lemma {:induction false} GapKeepsWatch(polls: seq<Poll>, mark: string, stableFor: int, gap: nat)
    requires stableFor > 0 && |polls| >= gap + 1 && polls[0].Ready? && polls[0].mark == mark && polls[0].now == 0
    requires forall i :: 1 <= i <= gap ==> polls[i] == NotReady
    ensures WatchAt(polls, gap + 1, stableFor) == Since(mark, 0)
    ensures gap + 2 <= |polls| ==> Outcome(polls, 0, stableFor) == Outcome(polls, gap + 1, stableFor)
  {
    if gap > 0 {
      GapKeepsWatch(polls, mark, stableFor, gap - 1);
    } else {
      assert WatchAt(polls, 0, stableFor) == Unset;
    }
  }
}
