/** The full-text shadow of the message table: triggers, rebuilds and searches. */
module FullText {
  import opened Domain
  import opened Order
  import opened Store

  const DEFAULT_HITS := 50
  const MAX_HITS := 1000
  const MAX_INT64 := 0x7FFF_FFFF_FFFF_FFFF

  // ---- The index and its triggers ---------------------------------------------------------------

  datatype FtsRow = FtsRow(talker: string, id: string, typ: int, ms: int, text: string) {
    function Key(): MsgKey { MsgKey(talker, id) }
  }

  function Projected(k: MsgKey, row: Row): FtsRow {
    FtsRow(k.talker, k.id, row.typ, row.ms, row.text)
  }

  // The schema is set up by four statements: the table, then the triggers for insert, delete and update.
  const TABLE := 1
  const ON_INSERT := 2
  const ON_DELETE := 3
  const ON_UPDATE := 4

  /** The message table, the rows of the shadow table in insertion order, and how many of the schema
      statements have been executed. */
  datatype State = State(messages: map<MsgKey, Row>, index: seq<FtsRow>, schema: nat)

  const FRESH := State(map[], [], 0)

  function Without(index: seq<FtsRow>, k: MsgKey): seq<FtsRow> {
    if index == [] then []
    else (if index[0].Key() == k then [] else [index[0]]) + Without(index[1..], k)
  }

  function AfterUpsert(s: State, k: MsgKey, row: Row): State {
    State(s.messages[k := row],
          if k in s.messages then
            if s.schema >= ON_UPDATE then Without(s.index, k) + [Projected(k, row)] else s.index
          else if s.schema >= ON_INSERT then s.index + [Projected(k, row)] else s.index,
          s.schema)
  }

  function AfterRemove(s: State, k: MsgKey): State {
    State(s.messages - {k}, if k in s.messages && s.schema >= ON_DELETE then Without(s.index, k) else s.index, s.schema)
  }

  ghost predicate DistinctKeys(index: seq<FtsRow>) {
    forall i, j :: 0 <= i < j < |index| ==> index[i].Key() != index[j].Key()
  }

  /** The index lists the projection of the table, one row for each message. */
  ghost predicate Agrees(s: State) {
    Sound(s.messages, s.index) && forall k :: k in s.messages ==> Projected(k, s.messages[k]) in s.index
  }

  /** Every index row is the projection of its message, and no message has two. */
  ghost predicate Sound(messages: map<MsgKey, Row>, index: seq<FtsRow>) {
    && DistinctKeys(index)
    && (forall r :: r in index ==> r.Key() in messages && r == Projected(r.Key(), messages[r.Key()]))
  }

  lemma {:induction false} WithoutMembers(index: seq<FtsRow>, k: MsgKey)
    ensures forall r :: r in Without(index, k) <==> r in index && r.Key() != k
  {
    if index != [] {
      WithoutMembers(index[1..], k);
      assert index == [index[0]] + index[1..];
    }
  }

  lemma {:induction false} WithoutDistinct(index: seq<FtsRow>, k: MsgKey)
    requires DistinctKeys(index)
    ensures DistinctKeys(Without(index, k))
  {
    if index != [] {
      var rest := index[1..];
      WithoutDistinct(rest, k);
      WithoutMembers(rest, k);
      forall r | r in Without(rest, k) ensures r.Key() != index[0].Key() {
        var j :| 0 <= j < |rest| && rest[j] == r;
        assert index[0].Key() != index[j + 1].Key();
      }
      OneMoreKey(index[0], Without(rest, k));
    }
  }

  lemma OneMoreKey(r: FtsRow, rest: seq<FtsRow>)
    requires DistinctKeys(rest) && forall n :: n in rest ==> n.Key() != r.Key()
    ensures DistinctKeys([r] + rest) && DistinctKeys(rest + [r]) && DistinctKeys([] + rest)
  {
    assert [] + rest == rest;
    assert forall i :: 0 <= i < |rest| ==> rest[i].Key() != r.Key();
    OneMoreInFront(r, rest);
    OneMoreBehind(r, rest);
  }

  lemma OneMoreInFront(r: FtsRow, rest: seq<FtsRow>)
    requires DistinctKeys(rest) && forall i :: 0 <= i < |rest| ==> rest[i].Key() != r.Key()
    ensures DistinctKeys([r] + rest)
  {
    var s := [r] + rest;
    forall i, j | 0 <= i < j < |s| ensures s[i].Key() != s[j].Key() {
      assert s[j] == rest[j - 1];
    }
  }

  lemma OneMoreBehind(r: FtsRow, rest: seq<FtsRow>)
    requires DistinctKeys(rest) && forall i :: 0 <= i < |rest| ==> rest[i].Key() != r.Key()
    ensures DistinctKeys(rest + [r])
  {
    var s := rest + [r];
    forall i, j | 0 <= i < j < |s| ensures s[i].Key() != s[j].Key() {
      assert s[i] == rest[i];
    }
  }

  /** With all triggers in place an upsert keeps the index in step, row for row. */
  lemma UpsertKeepsSound(s: State, k: MsgKey, row: Row)
    requires s.schema >= ON_UPDATE && Sound(s.messages, s.index)
    ensures Sound(AfterUpsert(s, k, row).messages, AfterUpsert(s, k, row).index)
    ensures Agrees(s) ==> Agrees(AfterUpsert(s, k, row))
  {
    WithoutMembers(s.index, k);
    WithoutDistinct(s.index, k);
    hide Without, DistinctKeys;
    OneMoreKey(Projected(k, row), if k in s.messages then Without(s.index, k) else s.index);
  }

  lemma RemoveKeepsSound(s: State, k: MsgKey)
    requires s.schema >= ON_DELETE && Sound(s.messages, s.index)
    ensures Sound(AfterRemove(s, k).messages, AfterRemove(s, k).index)
    ensures Agrees(s) ==> Agrees(AfterRemove(s, k))
  {
    WithoutMembers(s.index, k);
    WithoutDistinct(s.index, k);
    hide Without, DistinctKeys;
  }

  /** A write is what the source's triggers can follow: whether it leaves the index sound depends on which
      of them exist. An upsert of a message that is indexed goes wrong before the update trigger, unless
      the indexed columns stay as they are. */
  lemma UpsertSoundIff(s: State, k: MsgKey, row: Row)
    requires Sound(s.messages, s.index)
    ensures Sound(AfterUpsert(s, k, row).messages, AfterUpsert(s, k, row).index) <==>
              || s.schema >= ON_UPDATE
              || !(k in s.messages && Projected(k, s.messages[k]) in s.index)
              || Projected(k, row) == Projected(k, s.messages[k])
  {
    hide Without, DistinctKeys;
    if s.schema >= ON_UPDATE {
      UpsertKeepsSound(s, k, row);
    } else if k !in s.messages && s.schema >= ON_INSERT {
      OneMoreKey(Projected(k, row), s.index);
    }
  }

  /** A removal of a message that is indexed goes wrong before the delete trigger. */
  lemma RemoveSoundIff(s: State, k: MsgKey)
    requires Sound(s.messages, s.index)
    ensures Sound(AfterRemove(s, k).messages, AfterRemove(s, k).index) <==>
              s.schema >= ON_DELETE || !(k in s.messages && Projected(k, s.messages[k]) in s.index)
  {
    hide Without, DistinctKeys;
    if s.schema >= ON_DELETE {
      RemoveKeepsSound(s, k);
    }
  }

  function KeysIn(index: seq<FtsRow>): set<MsgKey> {
    set r | r in index :: r.Key()
  }

  lemma FirstKeyAlone(index: seq<FtsRow>)
    requires DistinctKeys(index) && index != []
    ensures DistinctKeys(index[1..]) && KeysIn(index) == {index[0].Key()} + KeysIn(index[1..])
    ensures index[0].Key() !in KeysIn(index[1..])
  {
    var rest := index[1..];
    assert index == [index[0]] + rest;
    assert forall i :: 0 <= i < |rest| ==> rest[i] == index[i + 1];
  }

  lemma {:induction false} DistinctKeyCount(index: seq<FtsRow>)
    requires DistinctKeys(index)
    ensures |KeysIn(index)| == |index|
  {
    if index != [] {
      FirstKeyAlone(index);
      DistinctKeyCount(index[1..]);
      hide DistinctKeys, KeysIn;
    }
  }

  lemma SameSize<T>(a: set<T>, b: set<T>)
    requires a <= b
    ensures |a| == |b| <==> a == b
  {
    assert b == a + (b - a);
  }

  /** A sound index agrees with the table exactly when it has as many rows. */
  lemma AgreesIffAsMany(s: State)
    requires Sound(s.messages, s.index)
    ensures Agrees(s) <==> |s.index| == |s.messages|
  {
    var keys := KeysIn(s.index);
    DistinctKeyCount(s.index);
    SameSize(keys, s.messages.Keys);
    hide DistinctKeys;
    if keys == s.messages.Keys {
      forall k | k in s.messages ensures Projected(k, s.messages[k]) in s.index {
        assert k in keys;
      }
    }
    if Agrees(s) {
      forall k | k in s.messages ensures k in keys {
        assert Projected(k, s.messages[k]) in s.index && Projected(k, s.messages[k]).Key() == k;
      }
    }
  }

  // ---- Steps ------------------------------------------------------------------------------------

  /** Writes, single statements of a set-up between which others may act, and whole calls that nobody
      disturbs. A call that is disturbed is its statements, one by one, and then the call on what it finds. */
  datatype Step =
    | Upsert(key: MsgKey, row: Row)
    | Remove(key: MsgKey)
    | Statement
    | Ensure
    | Rebuild
    | Search   // by any text that is not blank

  predicate NeedsRebuild(s: State) {
    s.index == [] && s.messages != map[]
  }

  ghost predicate Next(s: State, step: Step, after: State) {
    match step
    case Upsert(k, row) => after == AfterUpsert(s, k, row)
    case Remove(k) => after == AfterRemove(s, k)
    case Statement => after == s.(schema := if s.schema < ON_UPDATE then s.schema + 1 else s.schema)
    case Ensure => after == s.(schema := ON_UPDATE)
    case Rebuild => after.messages == s.messages && after.schema == ON_UPDATE && Agrees(after)
    case Search =>
      && after.messages == s.messages && after.schema == ON_UPDATE
      && if NeedsRebuild(s) then Agrees(after) else after.index == s.index
  }

  ghost predicate Trace(states: seq<State>, steps: seq<Step>) {
    && |states| == |steps| + 1 && states[0] == FRESH
    && forall i :: 0 <= i < |steps| ==> Next(states[i], steps[i], states[i + 1])
  }

  lemma TraceStep(states: seq<State>, steps: seq<Step>, i: nat)
    requires Trace(states, steps) && i < |steps|
    ensures Next(states[i], steps[i], states[i + 1])
  {
  }

  // ---- Soundness along traces -------------------------------------------------------------------

  /** The write leaves no stale row: its trigger exists, or the message is not indexed. */
  predicate Harmless(s: State, step: Step) {
    match step
    case Upsert(k, row) =>
      || s.schema >= ON_UPDATE
      || !(k in s.messages && Projected(k, s.messages[k]) in s.index)
      || Projected(k, row) == Projected(k, s.messages[k])
    case Remove(k) => s.schema >= ON_DELETE || !(k in s.messages && Projected(k, s.messages[k]) in s.index)
    case _ => true
  }

  lemma StepSoundIff(s: State, step: Step, after: State)
    requires Sound(s.messages, s.index) && Next(s, step, after)
    ensures Sound(after.messages, after.index) <==> Harmless(s, step)
  {
    hide Without, Sound, AfterUpsert, AfterRemove;
    match step
    case Upsert(k, row) => UpsertSoundIff(s, k, row);
    case Remove(k) => RemoveSoundIff(s, k);
    case _ =>
  }

  ghost predicate AllHarmless(states: seq<State>, steps: seq<Step>, n: nat)
    requires n <= |states| && n <= |steps|
  {
    forall i :: 0 <= i < n ==> Harmless(states[i], steps[i])
  }

  ghost predicate AllSound(states: seq<State>, n: nat)
    requires n < |states|
  {
    forall i :: 0 <= i <= n ==> Sound(states[i].messages, states[i].index)
  }

  /** However the statements of a set-up, rebuilds, searches and writes interleave: every state up to the
      n-th has only rows that are the projection of their message, none of them twice, if and only if
      every write up to there was harmless. */
  lemma {:induction false} SoundIff(states: seq<State>, steps: seq<Step>, n: nat)
    requires Trace(states, steps) && n < |states|
    ensures AllSound(states, n) <==> AllHarmless(states, steps, n)
  {
    if n > 0 {
      SoundIff(states, steps, n - 1);
      TraceStep(states, steps, n - 1);
      hide Trace, Sound, Harmless, Next;
      assert AllSound(states, n) ==> AllSound(states, n - 1);
      if AllSound(states, n - 1) {
        assert Sound(states[n - 1].messages, states[n - 1].index);
        StepSoundIff(states[n - 1], steps[n - 1], states[n]);
      }
    }
  }

  lemma {:induction false} NoTriggerNoRows(states: seq<State>, steps: seq<Step>, n: nat)
    requires Trace(states, steps) && n < |states|
    ensures states[n].schema < ON_INSERT ==> states[n].index == []
    ensures states[n].schema <= ON_UPDATE
  {
    if n > 0 {
      NoTriggerNoRows(states, steps, n - 1);
      TraceStep(states, steps, n - 1);
      hide Trace, Without, Agrees;
    }
  }

  /** So it is enough that nothing is written while the triggers exist only in part. */
  lemma QuietSetUpStaysSound(states: seq<State>, steps: seq<Step>, n: nat)
    requires Trace(states, steps) && n < |states|
    requires forall i :: 0 <= i < n && (steps[i].Upsert? || steps[i].Remove?) ==>
               states[i].schema < ON_INSERT || states[i].schema == ON_UPDATE
    ensures AllSound(states, n)
  {
    forall i | 0 <= i < n ensures Harmless(states[i], steps[i]) {
      NoTriggerNoRows(states, steps, i);
    }
    SoundIff(states, steps, n);
  }

  /** Between the insert and the update trigger a changed message leaves its old row behind. */
  lemma TornSetUpStales(k: MsgKey, row: Row, newer: Row) returns (states: seq<State>, steps: seq<Step>)
    requires row.text != newer.text
    ensures Trace(states, steps) && steps == [Statement, Statement, Upsert(k, row), Upsert(k, newer)]
    ensures states[4].index == [Projected(k, row)] && states[4].messages == map[k := newer]
    ensures !Sound(states[4].messages, states[4].index)
  {
    steps := [Statement, Statement, Upsert(k, row), Upsert(k, newer)];
    var s2 := FRESH.(schema := ON_INSERT);
    var s3 := AfterUpsert(s2, k, row);
    states := [FRESH, FRESH.(schema := TABLE), s2, s3, AfterUpsert(s3, k, newer)];
    assert states[4].index[0] in states[4].index;
  }

  /** Between the insert and the delete trigger a message that is removed and comes back is indexed twice. */
  lemma TornSetUpDoubles(k: MsgKey, row: Row) returns (states: seq<State>, steps: seq<Step>)
    ensures Trace(states, steps) && steps == [Statement, Statement, Upsert(k, row), Remove(k), Upsert(k, row)]
    ensures states[5].index == [Projected(k, row), Projected(k, row)] && states[5].messages == map[k := row]
    ensures !Sound(states[5].messages, states[5].index)
  {
    steps := [Statement, Statement, Upsert(k, row), Remove(k), Upsert(k, row)];
    var s2 := FRESH.(schema := ON_INSERT);
    var s3 := AfterUpsert(s2, k, row);
    var s4 := AfterRemove(s3, k);
    states := [FRESH, FRESH.(schema := TABLE), s2, s3, s4, AfterUpsert(s4, k, row)];
    assert states[5].index[0].Key() == states[5].index[1].Key();
  }

  // ---- Agreement along traces -------------------------------------------------------------------

  /** Once all triggers exist, the index agrees with the table. */
  ghost predicate Mirrors(s: State) {
    s.schema == ON_UPDATE ==> Agrees(s)
  }

  /** The step does not complete a set-up over an index that lacks rows. */
  predicate Guarded(s: State, step: Step) {
    match step
    case Statement => s.schema == ON_UPDATE - 1 ==> |s.index| == |s.messages|
    case Ensure => s.schema < ON_UPDATE ==> |s.index| == |s.messages|
    case Search => s.schema < ON_UPDATE ==> s.index == [] || |s.index| == |s.messages|
    case _ => true
  }

  /** A search leaves the index in agreement exactly when it found it empty or in agreement: an index that
      is merely not empty is never repaired. */
  lemma SearchRepairsIff(s: State, after: State)
    requires Next(s, Search, after)
    ensures Agrees(after) <==> s.index == [] || Agrees(s)
  {
    if s.index == [] && s.messages == map[] {
      assert Agrees(after);
    }
  }

  lemma StepMirrorsIff(s: State, step: Step, after: State)
    requires Sound(s.messages, s.index) && Mirrors(s) && s.schema <= ON_UPDATE && Next(s, step, after)
    ensures Mirrors(after) <==> Guarded(s, step)
  {
    AgreesIffAsMany(s);
    match step
    case Upsert(k, row) =>
      hide Without, Sound;
      if s.schema == ON_UPDATE { UpsertKeepsSound(s, k, row); }
    case Remove(k) =>
      hide Without, Sound;
      if s.schema == ON_UPDATE { RemoveKeepsSound(s, k); }
    case Search =>
      SearchRepairsIff(s, after);
      hide Sound;
    case _ =>
      SameTables(s, after);
      hide Sound;
  }

  lemma SameTables(s: State, after: State)
    ensures after.messages == s.messages && after.index == s.index ==> (Agrees(after) <==> Agrees(s))
  {
  }

  ghost predicate AllMirror(states: seq<State>, n: nat)
    requires n < |states|
  {
    forall i :: 0 <= i <= n ==> Mirrors(states[i])
  }

  ghost predicate AllGuarded(states: seq<State>, steps: seq<Step>, n: nat)
    requires n <= |states| && n <= |steps|
  {
    forall i :: 0 <= i < n ==> Guarded(states[i], steps[i])
  }

  /** However things interleave, as long as writes are harmless: the index agrees with the table in every
      state with all triggers up to the n-th, if and only if no set-up was completed over an index with
      fewer rows than the table. */
  lemma {:induction false} MirrorsIff(states: seq<State>, steps: seq<Step>, n: nat)
    requires Trace(states, steps) && n < |states| && AllHarmless(states, steps, n)
    ensures AllMirror(states, n) <==> AllGuarded(states, steps, n)
  {
    SoundIff(states, steps, n);
    if n == 0 {
      assert Mirrors(FRESH);
    } else {
      MirrorsIff(states, steps, n - 1);
      TraceStep(states, steps, n - 1);
      NoTriggerNoRows(states, steps, n - 1);
      hide Trace, Sound, Harmless, Next, Guarded, Mirrors;
      assert AllMirror(states, n) ==> AllMirror(states, n - 1);
      if AllMirror(states, n - 1) {
        assert Mirrors(states[n - 1]) && Sound(states[n - 1].messages, states[n - 1].index);
        StepMirrorsIff(states[n - 1], steps[n - 1], states[n]);
      }
    }
  }

  /** A set-up torn from its rebuild or search, but itself undisturbed, does harm exactly when the triggers
      do not exist yet and the table is not empty. */
  predicate Timely(s: State) {
    s.schema == ON_UPDATE || s.messages == map[]
  }

  lemma EnsureMirrorsIff(s: State, after: State)
    requires (s.schema == 0 && s.index == []) || (s.schema == ON_UPDATE && Agrees(s))
    requires Next(s, Ensure, after)
    ensures Mirrors(after) <==> Timely(s)
  {
    if s.schema == 0 {
      NothingIsSound(s);
      AgreesIffAsMany(s);
      SameTables(s, after);
      hide Sound;
    }
  }

  lemma NothingIsSound(s: State)
    requires s.index == []
    ensures Sound(s.messages, s.index)
  {
  }

  lemma {:induction false} WholeSetUps(states: seq<State>, steps: seq<Step>, n: nat)
    requires Trace(states, steps) && n < |states| && Statement !in steps
    ensures states[n].schema == 0 || states[n].schema == ON_UPDATE
    ensures states[n].schema == 0 ==> states[n].index == []
  {
    if n > 0 {
      WholeSetUps(states, steps, n - 1);
      TraceStep(states, steps, n - 1);
      assert steps[n - 1] in steps;
      hide Trace, Without, Agrees;
    }
  }

  /** When every set-up runs undisturbed, whatever writes, rebuilds and searches come between: the index
      agrees with the table in every state with triggers if and only if every set-up that was not followed
      at once by its rebuild or search found the triggers in place or the table empty. */
  lemma UndisturbedMirrorsIff(states: seq<State>, steps: seq<Step>)
    requires Trace(states, steps) && Statement !in steps
    ensures AllMirror(states, |steps|) <==> forall i :: 0 <= i < |steps| && steps[i] == Ensure ==> Timely(states[i])
  {
    var n := |steps|;
    forall i | 0 <= i < n
      ensures Harmless(states[i], steps[i])
      ensures Guarded(states[i], steps[i]) <==> (steps[i] == Ensure ==> Timely(states[i]))
    {
      WholeSetUps(states, steps, i);
      assert steps[i] in steps;
      hide Trace;
    }
    MirrorsIff(states, steps, n);
    hide Trace, Guarded, Timely, Harmless;
  }

  /** A message written between the set-up and the emptiness check of the first search hides all older
      ones: the index is then not empty, so no search fills it. */
  lemma LateSetupHides(k: MsgKey, row: Row, late: MsgKey, lateRow: Row) returns (states: seq<State>, steps: seq<Step>)
    requires k != late
    ensures Trace(states, steps) && steps == [Upsert(k, row), Ensure, Upsert(late, lateRow), Search]
    ensures k in states[4].messages && states[4].index == [Projected(late, lateRow)] && !Agrees(states[4])
  {
    steps := [Upsert(k, row), Ensure, Upsert(late, lateRow), Search];
    var s1 := AfterUpsert(FRESH, k, row);
    var s2 := s1.(schema := ON_UPDATE);
    var s3 := AfterUpsert(s2, late, lateRow);
    states := [FRESH, s1, s2, s3, s3];
    assert s3.index == [Projected(late, lateRow)];
    assert k in s3.messages && s3.messages[k] == row;
    LacksOne(s3, k);
  }

  lemma LacksOne(s: State, k: MsgKey)
    requires k in s.messages && Projected(k, s.messages[k]) !in s.index
    ensures !Agrees(s)
  {
    hide Sound;
  }

  // ---- The phrase -------------------------------------------------------------------------------

  predicate Space(c: char) {
    c == ' ' || 9 <= c as int <= 13
  }

  function TrimLeft(s: string): (r: string)
    ensures r == [] || !Space(r[0])
  {
    if s != [] && Space(s[0]) then TrimLeft(s[1..]) else s
  }

  function TrimRight(s: string): (r: string)
    ensures r == [] || !Space(r[|r| - 1])
  {
    if s != [] && Space(s[|s| - 1]) then TrimRight(s[..|s| - 1]) else s
  }

  function Trim(s: string): string {
    TrimRight(TrimLeft(s))
  }

  lemma SpacesAre(c: char)
    ensures Space(c) <==> c == ' ' || c == '\t' || c == '\n' || c == '\r' || c as int == 11 || c as int == 12
  {
  }

  /** Trimming takes spaces off both ends, all of them, and nothing else. */
  lemma TrimIs(s: string) returns (i: nat, j: nat)
    ensures i <= j <= |s| && Trim(s) == s[i..j]
    ensures (forall k :: 0 <= k < i ==> Space(s[k])) && (forall k :: j <= k < |s| ==> Space(s[k]))
    ensures i < j ==> !Space(s[i]) && !Space(s[j - 1])
  {
    i := TrimLeftIs(s);
    var n := TrimRightIs(s[i..]);
    j := i + n;
    assert s[i..][..n] == s[i..j];
    forall k | j <= k < |s| ensures Space(s[k]) { assert s[i..][k - i] == s[k]; }
    if i < j { assert s[i..][0] == s[i] && s[i..][n - 1] == s[j - 1]; }
  }

  lemma {:induction false} TrimLeftIs(s: string) returns (i: nat)
    ensures i <= |s| && TrimLeft(s) == s[i..] && (forall k :: 0 <= k < i ==> Space(s[k])) && (i < |s| ==> !Space(s[i]))
  {
    if s != [] && Space(s[0]) {
      i := TrimLeftIs(s[1..]);
      assert s[1..][i..] == s[i + 1..];
      i := i + 1;
    } else {
      i := 0;
    }
  }

  lemma {:induction false} TrimRightIs(s: string) returns (n: nat)
    ensures n <= |s| && TrimRight(s) == s[..n] && (forall k :: n <= k < |s| ==> Space(s[k])) && (n > 0 ==> !Space(s[n - 1]))
    decreases |s|
  {
    if s != [] && Space(s[|s| - 1]) {
      n := TrimRightIs(s[..|s| - 1]);
      assert s[..|s| - 1][..n] == s[..n];
    } else {
      n := |s|;
      assert s[..n] == s;
    }
  }

  /** A trailing star would be a prefix search even inside quotes. */
  function StarsBlanked(s: string): (r: string)
    ensures |r| == |s| && forall i :: 0 <= i < |s| ==> r[i] == if s[i] == '*' then ' ' else s[i]
  {
    seq(|s|, i requires 0 <= i < |s| => if s[i] == '*' then ' ' else s[i])
  }

  function Quoted(c: char): string {
    if c == '"' then "\"\"" else [c]
  }

  function QuotesDoubled(s: string): string {
    if s == [] then [] else Quoted(s[0]) + QuotesDoubled(s[1..])
  }

  function QuotePhrase(q: string): string {
    var inner := Trim(QuotesDoubled(StarsBlanked(Trim(q))));
    if inner == [] then [] else "\"" + inner + "\""
  }

  /** What the query language reads in a quoted string: doubled quotes are one, a single one ends it. */
  function Unquoted(s: string): Option<string> {
    if s == [] then Some([])
    else if s[0] != '"' then
      match Unquoted(s[1..])
      case None => None
      case Some(rest) => Some([s[0]] + rest)
    else if |s| >= 2 && s[1] == '"' then
      match Unquoted(s[2..])
      case None => None
      case Some(rest) => Some(['"'] + rest)
    else None
  }

  lemma {:induction false} DoublingIsUndone(s: string)
    ensures Unquoted(QuotesDoubled(s)) == Some(s)
  {
    if s != [] {
      DoublingIsUndone(s[1..]);
      var rest := QuotesDoubled(s[1..]);
      if s[0] == '"' {
        assert ("\"\"" + rest)[2..] == rest;
      } else {
        assert ([s[0]] + rest)[1..] == rest;
      }
      assert s == [s[0]] + s[1..];
    }
  }

  lemma DoubledHead(c: char, rest: string)
    ensures QuotesDoubled([c] + rest) == Quoted(c) + QuotesDoubled(rest)
  {
    assert ([c] + rest)[1..] == rest;
  }

  lemma {:induction false} DoubledSnoc(s: string, c: char)
    ensures QuotesDoubled(s + [c]) == QuotesDoubled(s) + Quoted(c)
  {
    hide QuotesDoubled, Quoted;
    NothingDoubled();
    if s == [] {
      DoubledHead(c, []);
      assert [] + [c] == [c] + [];
    } else {
      DoubledSnoc(s[1..], c);
      DoubledHead(s[0], s[1..]);
      DoubledHead(s[0], s[1..] + [c]);
      assert s == [s[0]] + s[1..] && s + [c] == [s[0]] + (s[1..] + [c]);
    }
  }

  lemma NothingDoubled()
    ensures QuotesDoubled([]) == []
  {
  }

  lemma {:induction false} DoubledTrimLeft(s: string)
    ensures TrimLeft(QuotesDoubled(s)) == QuotesDoubled(TrimLeft(s))
  {
    if s != [] {
      var rest := QuotesDoubled(s[1..]);
      if Space(s[0]) {
        DoubledTrimLeft(s[1..]);
        assert ([s[0]] + rest)[1..] == rest;
      }
    }
  }

  lemma {:induction false} DoubledTrimRight(s: string)
    ensures TrimRight(QuotesDoubled(s)) == QuotesDoubled(TrimRight(s))
    decreases |s|
  {
    if s != [] {
      var front, c := s[..|s| - 1], s[|s| - 1];
      assert s == front + [c];
      DoubledSnoc(front, c);
      if Space(c) {
        DoubledTrimRight(front);
        assert (QuotesDoubled(front) + [c])[..|QuotesDoubled(front)|] == QuotesDoubled(front);
      }
    }
  }

  /** The phrase handed to the matcher is one quoted string that reads as the user's words with stars
      blanked, and it is missing exactly when nothing but stars and spaces was asked for. */
  lemma PhraseIsLiteral(q: string)
    ensures var words := Trim(StarsBlanked(Trim(q)));
            && (QuotePhrase(q) == [] <==> words == [])
            && (words != [] ==>
                  && QuotePhrase(q) == "\"" + QuotesDoubled(words) + "\""
                  && Unquoted(QuotesDoubled(words)) == Some(words)
                  && '*' !in words)
  {
    var s := StarsBlanked(Trim(q));
    DoubledTrimLeft(s);
    DoubledTrimRight(TrimLeft(s));
    DoublingIsUndone(Trim(s));
    TrimmedFrom(s);
    if Trim(s) != [] { assert QuotesDoubled(Trim(s)) != []; }
  }

  lemma TrimmedFrom(s: string)
    ensures forall c :: c in Trim(s) ==> c in s
  {
    TrimLeftFrom(s);
    TrimRightFrom(TrimLeft(s));
  }

  lemma {:induction false} TrimLeftFrom(s: string)
    ensures forall c :: c in TrimLeft(s) ==> c in s
  {
    if s != [] && Space(s[0]) { TrimLeftFrom(s[1..]); }
  }

  lemma {:induction false} TrimRightFrom(s: string)
    ensures forall c :: c in TrimRight(s) ==> c in s
    decreases |s|
  {
    if s != [] && Space(s[|s| - 1]) { TrimRightFrom(s[..|s| - 1]); }
  }

  // ---- Searching --------------------------------------------------------------------------------

  datatype Query = Query(text: string, typ: Option<int>, since: Option<Time>, until: Option<Time>, limit: int)

  /** The matcher and the case-folding substring test, both foreign. */
  datatype Matcher = Matcher(candidate: (string, FtsRow) -> bool, holds: (string, string) -> bool)

  function HitLimit(limit: int): nat {
    if limit <= 0 then DEFAULT_HITS else if limit > MAX_HITS then MAX_HITS else limit
  }

  function Bound(t: Option<Time>, absent: int): int {
    if t.Some? && t.value != ZERO_TIME then t.value / NS_PER_MS else absent
  }

  predicate InQuery(q: Query, row: Row) {
    && Bound(q.since, 0) <= row.ms <= Bound(q.until, MAX_INT64)
    && (q.typ.Some? ==> row.typ == q.typ.value)
  }

  /** What a query asks of a message, in its own fields: the type if one is given, and a time from the
      millisecond of the one instant to that of the other, where an instant that is missing or zero stands
      for the epoch and for the end of time. */
  predicate AskedFor(q: Query, typ: int, ms: int) {
    && (q.typ.Some? ==> typ == q.typ.value)
    && (if q.since.Some? && q.since.value != ZERO_TIME then ms >= q.since.value / NS_PER_MS else ms >= 0)
    && (if q.until.Some? && q.until.value != ZERO_TIME then ms <= q.until.value / NS_PER_MS else ms <= 9_223_372_036_854_775_807)
  }

  lemma InQueryIsAskedFor(q: Query, row: Row)
    ensures InQuery(q, row) <==> AskedFor(q, row.typ, row.ms)
  {
  }

  lemma LimitsOfHits(limit: int)
    ensures HitLimit(limit) == if limit <= 0 then 50 else if limit > 1000 then 1000 else limit
  {
  }

  /** The join of the matching index rows with the message table. */
  function Hits(account: string, messages: map<MsgKey, Row>, index: seq<FtsRow>, q: Query, m: Matcher): seq<Message> {
    if index == [] then []
    else
      var r := index[0];
      (if r.Key() in messages && m.candidate(QuotePhrase(q.text), r) && InQuery(q, messages[r.Key()])
       then [MessageAt(account, r.talker, r.id, messages[r.Key()])] else [])
      + Hits(account, messages, index[1..], q, m)
  }

  function Literal(msgs: seq<Message>, needle: string, m: Matcher): seq<Message> {
    if msgs == [] then []
    else (if m.holds(msgs[0].text, needle) then [msgs[0]] else []) + Literal(msgs[1..], needle, m)
  }

  function FirstOf<T>(s: seq<T>, n: nat): seq<T> {
    if |s| <= n then s else s[..n]
  }

  /** An answer: the hits newest first, cut at the limit, and of those the literal ones. Hits of
      different talkers with equal keys may stand in either order. */
  ghost predicate Answers(out: seq<Message>, hits: seq<Message>, q: Query, m: Matcher) {
    exists sorted :: SortedPermutation(sorted, hits) && out == Literal(FirstOf(Reversed(sorted), HitLimit(q.limit)), Trim(q.text), m)
  }

  ghost predicate EachOnce(msgs: seq<Message>) {
    forall x :: multiset(msgs)[x] <= 1
  }

  lemma {:induction false} HitMembers(account: string, messages: map<MsgKey, Row>, index: seq<FtsRow>, q: Query, m: Matcher, x: Message)
    requires Sound(messages, index)
    ensures x in Hits(account, messages, index, q, m) <==>
              var k := MsgKey(x.talker, x.id);
              && k in messages && x == MessageAt(account, k.talker, k.id, messages[k])
              && Projected(k, messages[k]) in index && AskedFor(q, messages[k].typ, messages[k].ms)
              && m.candidate(QuotePhrase(q.text), Projected(k, messages[k]))
    ensures EachOnce(Hits(account, messages, index, q, m))
  {
    if index != [] {
      SoundTail(messages, index);
      var rest := Hits(account, messages, index[1..], q, m);
      HitMembers(account, messages, index[1..], q, m, x);
      var r := index[0];
      assert index == [r] + index[1..];
      assert r in index;
      var hit := MessageAt(account, r.talker, r.id, messages[r.Key()]);
      HitMembers(account, messages, index[1..], q, m, hit);
      InQueryIsAskedFor(q, messages[r.Key()]);
      hide QuotePhrase, InQuery, AskedFor, Sound;
      if hit in rest {
        assert false;
      }
      assert multiset([hit] + rest) == multiset{hit} + multiset(rest);
      assert [] + rest == rest;
    }
  }

  lemma SoundTail(messages: map<MsgKey, Row>, index: seq<FtsRow>)
    requires Sound(messages, index) && index != []
    ensures Sound(messages, index[1..])
    ensures index[0].Key() in messages && index[0] == Projected(index[0].Key(), messages[index[0].Key()])
    ensures index[0] !in index[1..]
  {
    assert index[0] in index;
    forall i, j | 0 <= i < j < |index[1..]| ensures index[1..][i].Key() != index[1..][j].Key() {
      assert index[i + 1].Key() != index[j + 1].Key();
    }
    forall r | r in index[1..] ensures r in index && r.Key() != index[0].Key() {
      var j :| 0 <= j < |index[1..]| && index[1..][j] == r;
      assert index[0].Key() != index[j + 1].Key();
    }
  }

  lemma {:induction false} LiteralMembers(msgs: seq<Message>, needle: string, m: Matcher, x: Message)
    ensures x in Literal(msgs, needle, m) <==> x in msgs && m.holds(x.text, needle)
    ensures |Literal(msgs, needle, m)| <= |msgs| && multiset(Literal(msgs, needle, m))[x] <= multiset(msgs)[x]
  {
    if msgs != [] {
      LiteralMembers(msgs[1..], needle, m, x);
      var rest := Literal(msgs[1..], needle, m);
      assert msgs == [msgs[0]] + msgs[1..];
      assert multiset(msgs) == multiset{msgs[0]} + multiset(msgs[1..]);
      if m.holds(msgs[0].text, needle) {
        assert Literal(msgs, needle, m) == [msgs[0]] + rest;
        assert multiset([msgs[0]] + rest) == multiset{msgs[0]} + multiset(rest);
      } else {
        assert Literal(msgs, needle, m) == rest;
      }
    }
  }

  lemma FirstMembers(msgs: seq<Message>, n: nat, x: Message)
    ensures x in FirstOf(msgs, n) ==> x in msgs
    ensures multiset(FirstOf(msgs, n))[x] <= multiset(msgs)[x]
    ensures |FirstOf(msgs, n)| <= n
  {
    if |msgs| > n {
      assert msgs == msgs[..n] + msgs[n..];
      assert multiset(msgs) == multiset(msgs[..n]) + multiset(msgs[n..]);
    }
  }

  lemma {:induction false} ReversedSame<T>(s: seq<T>)
    ensures multiset(Reversed(s)) == multiset(s)
  {
    if s != [] {
      ReversedSame(s[1..]);
      assert Reversed(s) == Reversed(s[1..]) + [s[0]];
      assert s == [s[0]] + s[1..];
    } else {
      assert Reversed(s) == [];
    }
  }

  /** Over a sound index an answer repeats no message, stays within the limit, and has only messages of
      the table that are in range, were proposed by the matcher and literally hold the words; when the
      hits are within the limit it has all of those that are indexed. */
  lemma AnswerIsSound(out: seq<Message>, account: string, messages: map<MsgKey, Row>, index: seq<FtsRow>, q: Query, m: Matcher, x: Message)
    requires Sound(messages, index) && Answers(out, Hits(account, messages, index, q, m), q, m)
    ensures EachOnce(out) && |out| <= HitLimit(q.limit)
    ensures x in out ==> x in Hits(account, messages, index, q, m) && m.holds(x.text, Trim(q.text))
    ensures |Hits(account, messages, index, q, m)| <= HitLimit(q.limit) ==>
              (x in out <==> x in Hits(account, messages, index, q, m) && m.holds(x.text, Trim(q.text)))
  {
    var hits := Hits(account, messages, index, q, m);
    HitMembers(account, messages, index, q, m, x);
    hide Sound, Hits, Trim, SortedPermutation, EachOnce;
    AnswerFrom(out, hits, q, m, x);
  }

  /** Over an index that agrees with the table, an answer that is not cut finds every message in range
      that the matcher proposes and that holds the words. */
  lemma AnswerFindsAll(out: seq<Message>, account: string, s: State, q: Query, m: Matcher, k: MsgKey)
    requires Agrees(s) && Answers(out, Hits(account, s.messages, s.index, q, m), q, m)
    requires |Hits(account, s.messages, s.index, q, m)| <= HitLimit(q.limit) && k in s.messages
    ensures var row := s.messages[k];
            MessageAt(account, k.talker, k.id, row) in out
            <==> AskedFor(q, row.typ, row.ms) && m.candidate(QuotePhrase(q.text), Projected(k, row)) && m.holds(row.text, Trim(q.text))
  {
    var x := MessageAt(account, k.talker, k.id, s.messages[k]);
    InQueryIsAskedFor(q, s.messages[k]);
    hide Answers, Hits, QuotePhrase, Trim, InQuery, AskedFor, HitLimit;
    HitMembers(account, s.messages, s.index, q, m, x);
    AnswerIsSound(out, account, s.messages, s.index, q, m, x);
  }

  lemma AnswerFrom(out: seq<Message>, hits: seq<Message>, q: Query, m: Matcher, x: Message)
    requires Answers(out, hits, q, m) && EachOnce(hits)
    ensures EachOnce(out) && |out| <= HitLimit(q.limit)
    ensures x in out ==> x in hits && m.holds(x.text, Trim(q.text))
    ensures |hits| <= HitLimit(q.limit) ==> (x in out <==> x in hits && m.holds(x.text, Trim(q.text)))
  {
    var sorted :| SortedPermutation(sorted, hits) && out == Literal(FirstOf(Reversed(sorted), HitLimit(q.limit)), Trim(q.text), m);
    var turned, first := Reversed(sorted), FirstOf(Reversed(sorted), HitLimit(q.limit));
    ReversedSame(sorted);
    assert |turned| == |multiset(turned)| == |multiset(hits)| == |hits|;
    hide Sorted, Trim, Reversed, Literal, FirstOf;
    forall y ensures multiset(out)[y] <= multiset(hits)[y] {
      LiteralMembers(first, Trim(q.text), m, y);
      FirstMembers(turned, HitLimit(q.limit), y);
    }
    LiteralMembers(first, Trim(q.text), m, x);
    FirstMembers(turned, HitLimit(q.limit), x);
    assert x in turned <==> x in multiset(turned);
    assert x in hits <==> x in multiset(hits);
    AllFit(turned, HitLimit(q.limit));
  }

  /** One step of dropping what does not literally hold the words. */
  lemma LiteralNext(out: seq<Message>, got: seq<Message>, i: nat, needle: string, m: Matcher)
    requires i < |got|
    ensures out + Literal(got[i..], needle, m)
         == (if m.holds(got[i].text, needle) then out + [got[i]] else out) + Literal(got[i + 1..], needle, m)
  {
    assert got[i..][0] == got[i] && got[i..][1..] == got[i + 1..];
    assert out + ([got[i]] + Literal(got[i + 1..], needle, m)) == (out + [got[i]]) + Literal(got[i + 1..], needle, m);
    assert [] + Literal(got[i + 1..], needle, m) == Literal(got[i + 1..], needle, m);
  }

  lemma LiteralOfNone(out: seq<Message>, needle: string, m: Matcher)
    ensures out + Literal([], needle, m) == out
  {
  }

  // ---- The order of an answer -------------------------------------------------------------------

  /** Newest first: by time, then by sequence number, then by id, the greater first. */
  ghost predicate NewestFirst(msgs: seq<Message>) {
    forall i, j :: 0 <= i < j < |msgs| ==> NotAfter(msgs[j], msgs[i])
  }

  lemma ReversedIsNewestFirst(sorted: seq<Message>, n: nat)
    requires Sorted(sorted)
    ensures NewestFirst(FirstOf(Reversed(sorted), n))
  {
    SortedMeans(sorted);
    hide Sorted, NotAfter;
    var r := Reversed(sorted);
    forall i, j | 0 <= i < j < |r| ensures NotAfter(r[j], r[i]) {
      assert r[i] == sorted[|r| - 1 - i] && r[j] == sorted[|r| - 1 - j];
    }
  }

  lemma {:induction false} LiteralStaysNewestFirst(msgs: seq<Message>, needle: string, m: Matcher)
    requires NewestFirst(msgs)
    ensures NewestFirst(Literal(msgs, needle, m))
  {
    if msgs != [] {
      var rest := Literal(msgs[1..], needle, m);
      TailIsOlder(msgs);
      LiteralStaysNewestFirst(msgs[1..], needle, m);
      hide NewestFirst, NotAfter;
      forall y | y in rest ensures NotAfter(y, msgs[0]) {
        LiteralMembers(msgs[1..], needle, m, y);
      }
      OneNewerBefore(msgs[0], rest);
      assert [] + rest == rest;
    }
  }

  lemma TailIsOlder(msgs: seq<Message>)
    requires msgs != [] && NewestFirst(msgs)
    ensures NewestFirst(msgs[1..]) && forall y :: y in msgs[1..] ==> NotAfter(y, msgs[0])
  {
    hide NotAfter;
    forall y | y in msgs[1..] ensures NotAfter(y, msgs[0]) {
      var j :| 0 <= j < |msgs[1..]| && msgs[1..][j] == y;
      assert msgs[j + 1] == y;
    }
  }

  lemma OneNewerBefore(x: Message, rest: seq<Message>)
    requires NewestFirst(rest) && forall y :: y in rest ==> NotAfter(y, x)
    ensures NewestFirst([x] + rest)
  {
    hide NotAfter;
    assert forall i :: 0 <= i < |rest| ==> rest[i] in rest;
  }

  /** An answer stands newest first; and when the limit cuts hits off, none of those is newer than anything
      answered. */
  lemma AnswerIsNewestFirst(out: seq<Message>, hits: seq<Message>, q: Query, m: Matcher)
    requires Answers(out, hits, q, m)
    ensures NewestFirst(out)
    ensures forall x, y :: x in hits && m.holds(x.text, Trim(q.text)) && x !in out && y in out ==> NotAfter(x, y)
  {
    var n, needle := HitLimit(q.limit), Trim(q.text);
    var sorted :| SortedPermutation(sorted, hits) && out == Literal(FirstOf(Reversed(sorted), n), needle, m);
    hide *;
    ReversedIsNewestFirst(sorted, n);
    LiteralStaysNewestFirst(FirstOf(Reversed(sorted), n), needle, m);
    forall x, y | x in hits && m.holds(x.text, needle) && x !in out && y in out ensures NotAfter(x, y) {
      CutIsOlder(sorted, hits, n, needle, m, x, y);
    }
  }

  lemma CutIsOlder(sorted: seq<Message>, hits: seq<Message>, n: nat, needle: string, m: Matcher, x: Message, y: Message)
    requires SortedPermutation(sorted, hits)
    requires var out := Literal(FirstOf(Reversed(sorted), n), needle, m);
             x in hits && m.holds(x.text, needle) && x !in out && y in out
    ensures NotAfter(x, y)
  {
    var r, first := Reversed(sorted), FirstOf(Reversed(sorted), n);
    ReversedIsNewestFirst(sorted, |sorted|);
    ReversedSame(sorted);
    LiteralMembers(first, needle, m, x);
    LiteralMembers(first, needle, m, y);
    assert forall k :: 0 <= k < |first| ==> first[k] == r[k] && r[k] in first;
    hide NotAfter, Literal, Sorted;
    assert x in multiset(r) && x in r;
    var i :| 0 <= i < |r| && r[i] == x;
    var j :| 0 <= j < |first| && first[j] == y;
    assert FirstOf(r, |sorted|) == r && r[j] == y;
  }

  /** What the caller of a search gets, in the caller's terms. */
  ghost predicate Answered(out: seq<Message>, account: string, messages: map<MsgKey, Row>, q: Query, m: Matcher) {
    && EachOnce(out) && NewestFirst(out)
    && |out| <= (if q.limit <= 0 then 50 else if q.limit > 1000 then 1000 else q.limit)
    && forall x :: x in out ==>
         var k := MsgKey(x.talker, x.id);
         && k in messages && x == MessageAt(account, k.talker, k.id, messages[k])
         && AskedFor(q, messages[k].typ, messages[k].ms) && m.holds(x.text, Trim(q.text))
  }

  lemma NothingIsAnswered(account: string, messages: map<MsgKey, Row>, q: Query, m: Matcher)
    ensures Answered([], account, messages, q, m)
  {
  }

  lemma AnswerIsAnswered(out: seq<Message>, account: string, messages: map<MsgKey, Row>, index: seq<FtsRow>, q: Query, m: Matcher)
    requires Sound(messages, index) && Answers(out, Hits(account, messages, index, q, m), q, m)
    ensures Answered(out, account, messages, q, m)
  {
    var hits := Hits(account, messages, index, q, m);
    AnswerIsNewestFirst(out, hits, q, m);
    AnswerIsSound(out, account, messages, index, q, m, MessageAt("", "", "", Row(0, 0, false, 0, "", "", "")));
    LimitsOfHits(q.limit);
    hide Sound, Answers, Hits, Trim, AskedFor, HitLimit, EachOnce, NewestFirst, QuotePhrase;
    forall x | x in out
      ensures var k := MsgKey(x.talker, x.id);
              && k in messages && x == MessageAt(account, k.talker, k.id, messages[k])
              && AskedFor(q, messages[k].typ, messages[k].ms) && m.holds(x.text, Trim(q.text))
    {
      AnswerIsSound(out, account, messages, index, q, m, x);
      HitMembers(account, messages, index, q, m, x);
    }
  }

  lemma AllFit<T>(s: seq<T>, n: nat)
    ensures |s| <= n ==> FirstOf(s, n) == s
  {
  }

  // ---- The handle -------------------------------------------------------------------------------

  class Searcher {
    const account: string
    var messages: map<MsgKey, Row>
    var index: seq<FtsRow>
    var schema: nat

    ghost function Now(): State
      reads this
    {
      State(messages, index, schema)
    }

    constructor (account: string)
      ensures this.account == account && Now() == FRESH
    {
      this.account := account;
      messages, index, schema := map[], [], 0;
    }

    method EnsureSchema()
      requires schema <= ON_UPDATE
      modifies `schema
      ensures Next(old(Now()), Ensure, Now())
    {
      for statement := TABLE to ON_UPDATE + 1
        invariant TABLE - 1 <= statement - 1 <= schema <= ON_UPDATE
      {
        if schema < statement {
          schema := statement;
        }
      }
    }

    method RebuildIndex()
      requires schema <= ON_UPDATE
      modifies `schema, `index
      ensures Next(old(Now()), Rebuild, Now())
    {
      EnsureSchema();
      index := [];
      var left := messages.Keys;
      while left != {}
        invariant left <= messages.Keys && schema == ON_UPDATE
        invariant Sound(messages, index)
        invariant forall k :: k in messages ==> (k in left <==> Projected(k, messages[k]) !in index)
        decreases left
      {
        var k :| k in left;
        OneMoreKey(Projected(k, messages[k]), index);
        index, left := index + [Projected(k, messages[k])], left - {k};
      }
    }

    method SearchFor(q: Query, m: Matcher) returns (out: seq<Message>)
      requires schema <= ON_UPDATE
      modifies `schema, `index
      ensures Trim(q.text) == [] ==> out == [] && Now() == old(Now())
      ensures Trim(q.text) != [] ==>
                && Next(old(Now()), Search, Now())
                && (QuotePhrase(q.text) == [] ==> out == [])
                && (QuotePhrase(q.text) != [] ==> Answers(out, Hits(account, messages, index, q, m), q, m))
      ensures old(Sound(messages, index)) ==> Answered(out, account, messages, q, m)
    {
      NothingIsAnswered(account, messages, q, m);
      hide QuotePhrase, Trim, Answers, Hits, Sound, Answered, AfterUpsert;
      if Trim(q.text) == [] {
        return [];
      }
      EnsureSchema();
      if index == [] && messages != map[] {
        RebuildIndex();
      }
      if QuotePhrase(q.text) == [] {
        return [];
      }
      out := Ask(q, m);
      if Sound(messages, index) {
        AnswerIsAnswered(out, account, messages, index, q, m);
      }
    }

    /** The query itself: join, order, cut, and then drop what does not literally hold the words. */
    method Ask(q: Query, m: Matcher) returns (out: seq<Message>)
      ensures Answers(out, Hits(account, messages, index, q, m), q, m)
    {
      var sorted := SortMessages(Hits(account, messages, index, q, m));
      var got := FirstOf(Reversed(sorted), HitLimit(q.limit));
      out := [];
      assert SortedPermutation(sorted, Hits(account, messages, index, q, m));
      hide Hits, SortedPermutation, Reversed, HitLimit, Trim, Literal;
      for i := 0 to |got|
        invariant Literal(got, Trim(q.text), m) == out + Literal(got[i..], Trim(q.text), m)
      {
        LiteralNext(out, got, i, Trim(q.text), m);
        if m.holds(got[i].text, Trim(q.text)) {
          out := out + [got[i]];
        }
      }
      LiteralOfNone(out, Trim(q.text), m);
    }
  }
}
