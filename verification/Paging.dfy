/** Walking a talker's messages page by page, newest first, from the API and from the exporter. */
module Paging {
  import opened Domain
  import opened Order
  import opened Store

  const DUMP_PAGE := 1000
  const DEFAULT_LIMIT := 50
  const MAX_LIMIT := 1000

  // ---- Pages of one set of keys -----------------------------------------------------------------

  /** Keys whose instants survive being turned into a cursor and back. */
  ghost predicate Representable(keys: set<Key>) {
    forall k :: k in keys ==> k.time != ZERO_MS
  }

  /** The bound that a cursor made from a listed message stands for. */
  function BoundAfter(k: Key): Key {
    Key(ToMillis(RowTime(k.time)), k.seqNo, k.id)
  }

  /** A cursor taken from a listed message bounds the listing at that very message, except for the one
      stored instant that reads back as absent. */
  lemma BoundIsExactIff(account: string, talker: string, k: Key, row: Row)
    requires k == RowKey(k.id, row)
    ensures BoundOf(CursorFromMessage(MessageAt(account, talker, k.id, row))) == BoundAfter(k)
    ensures BoundAfter(k) == k <==> k.time != ZERO_MS
  {
    ColumnRoundTrip(k.time);
  }

  lemma KeyLessTransitive(a: Key, b: Key, c: Key)
    requires KeyLess(a, b) && KeyLess(b, c)
    ensures KeyLess(a, c)
  {
    KeyLessIsStrictTotal();
  }

  /** The positions of keys in the newest-first list are their order. */
  lemma NewestOrder(keys: set<Key>, i: nat, j: nat)
    requires i < |keys| && j < |keys|
    ensures Newest(keys)[i] in keys
    ensures KeyLess(Newest(keys)[j], Newest(keys)[i]) <==> i < j
  {
    var all := Newest(keys);
    assert all[i] in all;
    KeyLessIsStrictTotal();
    if i < j { assert KeyAfter(all[i], all[j]); }
    if j < i { assert KeyAfter(all[j], all[i]); }
  }

  lemma NewestPlace(keys: set<Key>, k: Key) returns (i: nat)
    requires k in keys
    ensures i < |keys| && Newest(keys)[i] == k
  {
    var all := Newest(keys);
    assert k in all;
    i :| 0 <= i < |all| && all[i] == k;
  }

  lemma InBelow(keys: set<Key>, b: Key, k: Key)
    ensures k in Below(keys, Some(b)) <==> k in keys && KeyLess(k, b)
  {
  }

  lemma TailMember(keys: set<Key>, n: nat, k: Key)
    requires 0 < n <= |keys|
    ensures k in Newest(keys)[n..] <==> k in Below(keys, Some(Newest(keys)[n - 1]))
  {
    hide Newest, Below, KeyLess, Lists;
    var all := Newest(keys);
    InBelow(keys, all[n - 1], k);
    if k in keys {
      var i := NewestPlace(keys, k);
      NewestOrder(keys, n - 1, i);
      if i >= n {
        assert all[n..][i - n] == k;
      } else if k in all[n..] {
        var j :| 0 <= j < |all[n..]| && all[n..][j] == k;
        NewestOrder(keys, i, n + j);
        NewestOrder(keys, n + j, n + j);
      }
    } else if k in all[n..] {
      var j :| 0 <= j < |all[n..]| && all[n..][j] == k;
      NewestOrder(keys, n + j, n + j);
    }
  }

  lemma TailAscends(keys: set<Key>, n: nat)
    requires n <= |keys|
    ensures Ascending(Newest(keys)[n..], KeyAfter)
  {
    var all := Newest(keys);
    var rest := all[n..];
    hide Newest, KeyLess;
    forall i, j | 0 <= i < j < |rest| ensures KeyAfter(rest[i], rest[j]) {
      NewestOrder(keys, n + i, n + j);
    }
  }

  /** The keys below the n-th newest are the ones listed after it. */
  lemma BelowNth(keys: set<Key>, n: nat)
    requires 0 < n <= |keys|
    ensures Newest(Below(keys, Some(Newest(keys)[n - 1]))) == Newest(keys)[n..]
  {
    KeyLessIsStrictTotal();
    var rest, below := Newest(keys)[n..], Below(keys, Some(Newest(keys)[n - 1]));
    hide Newest, Below, KeyLess, StrictTotal, Ascending;
    TailAscends(keys, n);
    forall k ensures k in rest <==> k in below {
      TailMember(keys, n, k);
    }
    ListedOnce(Newest(below), rest, below, KeyAfter);
  }

  lemma BelowAgain(keys: set<Key>, a: Key, before: Option<Key>)
    requires before.Some? ==> KeyLess(a, before.value)
    ensures Below(Below(keys, before), Some(a)) == Below(keys, Some(a))
  {
    KeyLessIsStrictTotal();
  }

  /** Every key is in the head of the list or below its last key. */
  lemma HeadOrBelow(keys: set<Key>, n: nat, k: Key)
    requires 0 < n <= |keys| && k in keys
    ensures k in Newest(keys)[..n] || KeyLess(k, Newest(keys)[n - 1])
  {
    hide Newest, KeyLess, Lists;
    var i := NewestPlace(keys, k);
    if i < n { assert Newest(keys)[..n][i] == k; } else { NewestOrder(keys, n - 1, i); }
  }

  /** What a page holds, without saying how it is found: the newest of the keys under the bound, newest first,
      as many as the clamped limit allows; every key under the bound that it leaves out is older than all
      of them. */
  lemma PageIsNewest(keys: set<Key>, before: Option<Key>, limit: int)
    ensures var page, left := PageKeys(keys, before, limit), Below(keys, before);
            && (forall k :: k in left <==> k in keys && UnderBound(k, before))
            && Ascending(page, KeyAfter)
            && (var most := if limit <= 0 then 50 else if limit > 1000 then 1000 else limit;
                |page| == if |left| < most then |left| else most)
            && (forall k :: k in page ==> k in left)
            && (forall k, p :: k in left && k !in page && p in page ==> KeyLess(k, p))
  {
    var page, left := PageKeys(keys, before, limit), Below(keys, before);
    BelowIsUnder(keys, before);
    var n := |page|;
    assert page == Newest(left)[..n];
    hide Newest, Below, PageKeys, KeyLess, Lists, Ascending, UnderBound;
    HeadAscends(left, n);
    forall k, p | k in left && k !in page && p in page ensures KeyLess(k, p) {
      HeadOrBelow(left, n, k);
      var i :| 0 <= i < n && page[i] == p;
      if i < n - 1 {
        NewestOrder(left, i, n - 1);
        KeyLessTransitive(k, Newest(left)[n - 1], p);
      }
    }
  }

  lemma HeadAscends(keys: set<Key>, n: nat)
    requires n <= |keys|
    ensures Ascending(Newest(keys)[..n], KeyAfter)
    ensures forall k :: k in Newest(keys)[..n] ==> k in keys
  {
    var head := Newest(keys)[..n];
    hide Newest, KeyLess, Lists;
    forall i, j | 0 <= i < j < |head| ensures KeyAfter(head[i], head[j]) {
      NewestOrder(keys, i, j);
    }
    forall k | k in head ensures k in keys {
      var i :| 0 <= i < |head| && head[i] == k;
      NewestOrder(keys, i, i);
    }
  }

  lemma BelowIsUnder(keys: set<Key>, before: Option<Key>)
    ensures forall k :: k in Below(keys, before) <==> k in keys && UnderBound(k, before)
  {
  }

  // ---- The API page -----------------------------------------------------------------------------

  function EffectiveLimit(n: int): (r: Result<int>)
    ensures r.Ok? ==> 1 <= r.value <= MAX_LIMIT
  {
    if n < 0 then Err(InvalidArgument)
    else if n == 0 then Ok(DEFAULT_LIMIT)
    else if n > MAX_LIMIT then Ok(MAX_LIMIT)
    else Ok(n)
  }

  datatype ApiPage = ApiPage(keys: seq<Key>, next: Option<Key>)

  /** One page: asks for one key too many, and hands out a cursor only if it gets it. */
  function PageOf(keys: set<Key>, before: Option<Key>, limit: int): (r: ApiPage)
    requires limit >= 1
    ensures r.next.Some? ==> |r.keys| == limit
  {
    var got := PageKeys(keys, before, limit + 1);
    if |got| > limit then ApiPage(got[..limit], Some(BoundAfter(got[limit - 1]))) else ApiPage(got, None)
  }

  /** A page is a head of what is left below its bound, and its cursor is that of its last key. Below the
      largest limit there is a cursor exactly when something is left over. */
  lemma PageIs(keys: set<Key>, before: Option<Key>, limit: int)
    requires limit >= 1
    ensures var p, left := PageOf(keys, before, limit), Below(keys, before);
            && |p.keys| <= |left| && p.keys == Newest(left)[..|p.keys|]
            && (p.keys == [] <==> left == {})
            && (p.next.Some? ==> limit < |left| && p.next.value == BoundAfter(p.keys[limit - 1]))
            && (limit < MAX_LIMIT ==> (p.next.Some? <==> |left| > limit) && (p.next.None? ==> p.keys == Newest(left)))
  {
    var left := Below(keys, before);
    hide Newest, Below, Lists;
    assert left == {} <==> |left| == 0;
  }

  /** The one way a walk over an unchanged table can come back to a key: the page ended at the stored instant
      that reads back as absent, so that its cursor lies above it. */
  lemma CursorRepeatsIff(keys: set<Key>, before: Option<Key>, limit: int)
    requires 1 <= limit < MAX_LIMIT && limit < |Below(keys, before)|
    ensures var p := PageOf(keys, before, limit); var last := p.keys[limit - 1];
            && p.next == Some(BoundAfter(last))
            && (last in Below(keys, p.next) <==> last.time == ZERO_MS)
  {
    var left := Below(keys, before);
    PageIs(keys, before, limit);
    NewestOrder(left, limit - 1, limit - 1);
    var last := PageOf(keys, before, limit).keys[limit - 1];
    InBelow(keys, BoundAfter(last), last);
    BoundReaches(last);
  }

  /** A cursor never lies below its key, and lies above it only for the one instant. */
  lemma BoundReaches(k: Key)
    ensures if k.time == ZERO_MS then KeyLess(k, BoundAfter(k)) else BoundAfter(k) == k
    ensures !KeyLess(k, k)
  {
    ColumnRoundTrip(k.time);
    KeyLessIsStrictTotal();
  }

  // ---- The walk ---------------------------------------------------------------------------------

  datatype Walk = Walk(keys: seq<Key>, finished: bool)

  /** Follows cursors until none is given; page number i sees the i-th state of the table. */
  function WalkFrom(states: seq<set<Key>>, before: Option<Key>, limit: int): Walk
    requires limit >= 1
  {
    if states == [] then Walk([], false)
    else
      var p := PageOf(states[0], before, limit);
      if p.next.None? then Walk(p.keys, true)
      else
        var rest := WalkFrom(states[1..], p.next, limit);
        Walk(p.keys + rest.keys, rest.finished)
  }

  predicate UnderBound(k: Key, before: Option<Key>) {
    before.None? || KeyLess(k, before.value)
  }

  /** The key was in the table at some page of the walk. */
  ghost predicate SeenIn(states: seq<set<Key>>, k: Key) {
    exists i :: 0 <= i < |states| && k in states[i]
  }

  lemma {:induction false} WalkIsSeen(states: seq<set<Key>>, before: Option<Key>, limit: int)
    requires limit >= 1
    ensures forall k :: k in WalkFrom(states, before, limit).keys ==> SeenIn(states, k)
    decreases |states|
  {
    if states != [] {
      var p := PageOf(states[0], before, limit);
      PageWithin(states[0], before, limit + 1);
      assert forall k :: k in p.keys ==> k in states[0];
      hide PageOf;
      if p.next.Some? { WalkIsSeen(states[1..], p.next, limit); }
      forall k | SeenIn(states[1..], k) ensures SeenIn(states, k) {
        var i :| 0 <= i < |states[1..]| && k in states[1..][i];
        assert k in states[i + 1];
      }
    }
  }

  /** No key of the next state lies at or above the last listed key and yet under its cursor. */
  ghost predicate Clean(last: Key, next: set<Key>) {
    forall k :: k in next && KeyLess(k, BoundAfter(last)) ==> KeyLess(k, last)
  }

  /** Only the one stored instant can spoil a handover, and it does as long as the last key stays. */
  lemma CleanIff(last: Key, next: set<Key>)
    ensures last.time != ZERO_MS ==> Clean(last, next)
    ensures last in next ==> (Clean(last, next) <==> last.time != ZERO_MS)
  {
    BoundReaches(last);
  }

  /** Every page of the walk that is followed by another hands over cleanly. */
  ghost predicate HandsOver(states: seq<set<Key>>, before: Option<Key>, limit: int)
    requires limit >= 1
    decreases |states|
  {
    |states| <= 1 ||
    var p := PageOf(states[0], before, limit);
    p.next.None? || (Clean(p.keys[|p.keys| - 1], states[1]) && HandsOver(states[1..], p.next, limit))
  }

  /** A walk begins with the newest key under its bound. */
  lemma WalkHead(states: seq<set<Key>>, before: Option<Key>, limit: int)
    requires limit >= 1 && states != []
    ensures var w, left := WalkFrom(states, before, limit).keys, Below(states[0], before);
            && (w == [] <==> left == {})
            && (w != [] ==> w[0] in left && forall k :: k in left ==> k == w[0] || KeyLess(k, w[0]))
  {
    var left := Below(states[0], before);
    PageIs(states[0], before, limit);
    hide PageOf, Below, Newest, KeyLess, Lists;
    if left != {} {
      NewestOrder(left, 0, 0);
      forall k | k in left ensures k == Newest(left)[0] || KeyLess(k, Newest(left)[0]) {
        var i := NewestPlace(left, k);
        NewestOrder(left, 0, i);
      }
    }
  }

  lemma JoinIff(a: seq<Key>, b: seq<Key>)
    requires a != [] && Ascending(a, KeyAfter)
    ensures Ascending(a + b, KeyAfter) <==> Ascending(b, KeyAfter) && (b == [] || KeyLess(b[0], a[|a| - 1]))
  {
    var s, n := a + b, |a|;
    hide KeyLess;
    if Ascending(s, KeyAfter) {
      assert forall i :: 0 <= i < |b| ==> b[i] == s[n + i];
      if b != [] { assert KeyAfter(s[n - 1], s[n]); }
    } else if Ascending(b, KeyAfter) && (b == [] || KeyLess(b[0], a[n - 1])) {
      forall i, j | 0 <= i < j < |s| ensures KeyAfter(s[i], s[j]) {
        if j < n {
          assert KeyAfter(a[i], a[j]);
        } else if i >= n {
          assert KeyAfter(b[i - n], b[j - n]);
        } else {
          NewerThanRest(b, j - n, a[n - 1]);
          if i < n - 1 { KeyLessTransitive(s[j], a[n - 1], a[i]); }
        }
      }
    }
  }

  lemma NewerThanRest(b: seq<Key>, j: nat, bound: Key)
    requires j < |b| && Ascending(b, KeyAfter) && KeyLess(b[0], bound)
    ensures KeyLess(b[j], bound)
  {
    hide KeyLess;
    if j > 0 {
      assert KeyAfter(b[0], b[j]);
      KeyLessTransitive(b[j], b[0], bound);
    }
  }

  /** The next pages go on below the last key exactly when the handover is clean. */
  lemma CleanGoesOn(last: Key, states: seq<set<Key>>, limit: int)
    requires limit >= 1 && states != []
    ensures var rest := WalkFrom(states, Some(BoundAfter(last)), limit).keys;
            Clean(last, states[0]) <==> rest == [] || KeyLess(rest[0], last)
  {
    var bound := BoundAfter(last);
    var rest := WalkFrom(states, Some(bound), limit).keys;
    WalkHead(states, Some(bound), limit);
    BelowIsUnder(states[0], Some(bound));
    assert forall k :: KeyLess(k, bound) ==> UnderBound(k, Some(bound));
    hide WalkFrom, Below, KeyLess, BoundAfter;
    if rest != [] && KeyLess(rest[0], last) {
      forall k | k in states[0] && KeyLess(k, bound) ensures KeyLess(k, last) {
        if k != rest[0] { KeyLessTransitive(k, rest[0], last); }
      }
    } else if rest != [] {
      assert UnderBound(rest[0], Some(bound));
    }
  }

  /** Whatever happens to the table between pages, the keys of a walk strictly descend, so that none comes
      twice, exactly when every page hands over cleanly. */
  lemma {:induction false} WalkDescendsIff(states: seq<set<Key>>, before: Option<Key>, limit: int)
    requires limit >= 1
    ensures Ascending(WalkFrom(states, before, limit).keys, KeyAfter) <==> HandsOver(states, before, limit)
    decreases |states|
  {
    hide *;
    if states == [] {
      NothingWalked(before, limit);
    } else {
      OnePage(states, before, limit);
      PageAscends(states[0], before, limit);
      var p := PageOf(states[0], before, limit);
      if p.next.Some? && |states| > 1 {
        WalkDescendsIff(states[1..], p.next, limit);
        CleanGoesOn(p.keys[limit - 1], states[1..], limit);
        JoinIff(p.keys, WalkFrom(states[1..], p.next, limit).keys);
      }
    }
  }

  lemma NothingWalked(before: Option<Key>, limit: int)
    requires limit >= 1
    ensures WalkFrom([], before, limit).keys == [] && Ascending<Key>([], KeyAfter) && HandsOver([], before, limit)
  {
  }

  /** A page ascends, and its cursor is that of its last key. */
  lemma PageAscends(keys: set<Key>, before: Option<Key>, limit: int)
    requires limit >= 1
    ensures var p := PageOf(keys, before, limit);
            Ascending(p.keys, KeyAfter) && (p.next.Some? ==> p.next.value == BoundAfter(p.keys[limit - 1]))
  {
    hide *;
    PageIs(keys, before, limit);
    HeadAscends(Below(keys, before), |PageOf(keys, before, limit).keys|);
  }

  /** The first page of a walk, and what follows it. */
  lemma OnePage(states: seq<set<Key>>, before: Option<Key>, limit: int)
    requires limit >= 1 && states != []
    ensures var p, w := PageOf(states[0], before, limit), WalkFrom(states, before, limit).keys;
            && (p.next.None? || |states| == 1 ==> w == p.keys && HandsOver(states, before, limit))
            && (p.next.Some? && |states| > 1 ==>
                  && w == p.keys + WalkFrom(states[1..], p.next, limit).keys
                  && (HandsOver(states, before, limit) <==>
                        Clean(p.keys[limit - 1], states[1]) && HandsOver(states[1..], p.next, limit)))
  {
    hide *;
    OneWalked(states, before, limit);
    OneHandedOver(states, before, limit);
  }

  lemma OneWalked(states: seq<set<Key>>, before: Option<Key>, limit: int)
    requires limit >= 1 && states != []
    ensures var p, w := PageOf(states[0], before, limit), WalkFrom(states, before, limit).keys;
            w == if p.next.None? || |states| == 1 then p.keys else p.keys + WalkFrom(states[1..], p.next, limit).keys
  {
    hide PageOf;
    var p := PageOf(states[0], before, limit);
    assert p.keys + [] == p.keys;
    if |states| == 1 { assert states[1..] == []; }
  }

  lemma OneHandedOver(states: seq<set<Key>>, before: Option<Key>, limit: int)
    requires limit >= 1 && states != []
    ensures var p := PageOf(states[0], before, limit);
            HandsOver(states, before, limit) <==>
              |states| == 1 || p.next.None? || (Clean(p.keys[limit - 1], states[1]) && HandsOver(states[1..], p.next, limit))
  {
    hide PageOf, Clean;
  }

  /** A descending walk never rises above its bound. */
  lemma WalkStaysUnder(states: seq<set<Key>>, before: Option<Key>, limit: int)
    requires limit >= 1 && HandsOver(states, before, limit)
    ensures forall k :: k in WalkFrom(states, before, limit).keys ==> UnderBound(k, before)
  {
    var w := WalkFrom(states, before, limit).keys;
    WalkDescendsIff(states, before, limit);
    if w != [] && before.Some? {
      WalkHead(states, before, limit);
      BelowIsUnder(states[0], before);
      hide WalkFrom, HandsOver, Below, KeyLess, KeyAfter, Ascending;
      forall k | k in w ensures UnderBound(k, before) {
        var j :| 0 <= j < |w| && w[j] == k;
        NewerThanRest(w, j, before.value);
      }
    }
  }

  /** Tables without that instant always hand over. */
  lemma {:induction false} RepresentableHandsOver(states: seq<set<Key>>, before: Option<Key>, limit: int)
    requires limit >= 1 && forall i :: 0 <= i < |states| ==> Representable(states[i])
    ensures HandsOver(states, before, limit)
    decreases |states|
  {
    hide *;
    if states == [] {
      NothingWalked(before, limit);
    } else {
      OnePage(states, before, limit);
      LastIsKey(states[0], before, limit);
      var p := PageOf(states[0], before, limit);
      if p.next.Some? && |states| > 1 {
        NotAtThatInstant(states[0], p.keys[limit - 1]);
        CleanIff(p.keys[limit - 1], states[1]);
        RepresentableHandsOver(states[1..], p.next, limit);
      }
    }
  }

  lemma NotAtThatInstant(keys: set<Key>, k: Key)
    requires Representable(keys) && k in keys
    ensures k.time != ZERO_MS
  {
  }

  lemma LastIsKey(keys: set<Key>, before: Option<Key>, limit: int)
    requires limit >= 1
    ensures var p := PageOf(keys, before, limit); p.next.Some? ==> p.keys[limit - 1] in keys
  {
    PageWithin(keys, before, limit + 1);
    var p, got := PageOf(keys, before, limit), PageKeys(keys, before, limit + 1);
    hide PageKeys;
    if p.next.Some? { assert got[limit - 1] in got; }
  }

  /** A key under the bound is on the page or under the page's cursor. */
  lemma ListedOrLater(keys: set<Key>, before: Option<Key>, limit: int, k: Key)
    requires 1 <= limit < MAX_LIMIT && k in keys && UnderBound(k, before)
    ensures var p := PageOf(keys, before, limit); k in p.keys || (p.next.Some? && UnderBound(k, p.next))
  {
    var p, left := PageOf(keys, before, limit), Below(keys, before);
    PageIs(keys, before, limit);
    BelowIsUnder(keys, before);
    hide PageOf, Below, Newest, KeyLess, Lists;
    if p.next.Some? {
      HeadOrBelow(left, limit, k);
      BoundReaches(p.keys[limit - 1]);
      if k !in p.keys && BoundAfter(p.keys[limit - 1]) != p.keys[limit - 1] {
        KeyLessTransitive(k, p.keys[limit - 1], BoundAfter(p.keys[limit - 1]));
      }
    } else {
      var i := NewestPlace(left, k);
    }
  }

  /** A finished walk has every key that was there throughout, even if others came and went between pages. */
  lemma {:induction false} WalkMissesNothing(states: seq<set<Key>>, before: Option<Key>, limit: int, k: Key)
    requires 1 <= limit < MAX_LIMIT
    requires WalkFrom(states, before, limit).finished
    requires UnderBound(k, before) && forall i :: 0 <= i < |states| ==> k in states[i]
    ensures k in WalkFrom(states, before, limit).keys
    decreases |states|
  {
    ListedOrLater(states[0], before, limit, k);
    var p := PageOf(states[0], before, limit);
    hide KeyLess, UnderBound, PageOf;
    if p.next.Some? && k !in p.keys {
      WalkMissesNothing(states[1..], p.next, limit, k);
    }
  }

  function Repeat(keys: set<Key>, n: nat): (r: seq<set<Key>>)
    ensures |r| == n && forall i :: 0 <= i < n ==> r[i] == keys
  {
    seq(n, i requires 0 <= i < n => keys)
  }

  /** The list, cut into pages of one size as long as `more` keys are left, has no page that is followed by
      another and ends at the stored instant that reads back as absent. */
  predicate CutsWell(list: seq<Key>, page: nat, more: nat)
    requires 1 <= page <= more
  {
    |list| < more || (list[page - 1].time != ZERO_MS && CutsWell(list[page..], page, more))
  }

  lemma {:induction false} RepresentableCutsWell(list: seq<Key>, page: nat, more: nat)
    requires 1 <= page <= more && forall k :: k in list ==> k.time != ZERO_MS
    ensures CutsWell(list, page, more)
    decreases |list|
  {
    if |list| >= more {
      RepresentableCutsWell(list[page..], page, more);
    }
  }

  /** Over a table that does not change, a walk with enough pages ends and lists exactly the keys below its
      start, newest first, if and only if no page but the last one ends at that instant. */
  lemma {:induction false} FixedWalkIff(keys: set<Key>, before: Option<Key>, limit: int, n: nat)
    requires 1 <= limit < MAX_LIMIT && |Below(keys, before)| <= limit * n && n >= 1
    ensures WalkFrom(Repeat(keys, n), before, limit) == Walk(Newest(Below(keys, before)), true)
            <==> CutsWell(Newest(Below(keys, before)), limit, limit + 1)
    decreases n
  {
    hide *;
    var p, all := PageOf(keys, before, limit), Newest(Below(keys, before));
    PageIs(keys, before, limit);
    FixedWalk(keys, before, limit, n);
    OneCut(all, limit, limit + 1);
    if p.next.Some? {
      FewerLeft(|all|, limit, n);
      SameRest(all, limit, WalkFrom(Repeat(keys, n - 1), p.next, limit).keys);
      if p.keys[limit - 1].time == ZERO_MS {
        WalkRepeats(keys, before, limit, n);
      } else {
        BoundReaches(p.keys[limit - 1]);
        LeftBelow(keys, before, limit);
        FixedWalkIff(keys, p.next, limit, n - 1);
      }
    }
  }

  lemma FixedWalk(keys: set<Key>, before: Option<Key>, limit: int, n: nat)
    requires limit >= 1 && n >= 1
    ensures var p, w := PageOf(keys, before, limit), WalkFrom(Repeat(keys, n), before, limit);
            if p.next.None? then w == Walk(p.keys, true)
            else var rest := WalkFrom(Repeat(keys, n - 1), p.next, limit);
                 w == Walk(p.keys + rest.keys, rest.finished)
  {
    RepeatTail(keys, n);
    hide PageOf, Repeat;
  }

  lemma OneCut(list: seq<Key>, page: nat, more: nat)
    requires 1 <= page <= more
    ensures CutsWell(list, page, more) <==> |list| < more || (list[page - 1].time != ZERO_MS && CutsWell(list[page..], page, more))
  {
  }

  lemma SameRest(all: seq<Key>, n: nat, rest: seq<Key>)
    requires n <= |all|
    ensures all[..n] + rest == all <==> rest == all[n..]
  {
    assert all == all[..n] + all[n..] && (all[..n] + rest)[n..] == rest;
  }

  /** After a page that ends at that instant the walk starts at or above it. */
  lemma WalkRepeats(keys: set<Key>, before: Option<Key>, limit: int, n: nat)
    requires 1 <= limit < MAX_LIMIT && limit < |Below(keys, before)| && n > 1
    requires PageOf(keys, before, limit).next.Some? && PageOf(keys, before, limit).keys[limit - 1].time == ZERO_MS
    ensures WalkFrom(Repeat(keys, n - 1), PageOf(keys, before, limit).next, limit).keys != Newest(Below(keys, before))[limit..]
  {
    var p, all := PageOf(keys, before, limit), Newest(Below(keys, before));
    PageIs(keys, before, limit);
    CursorRepeatsIff(keys, before, limit);
    WalkHead(Repeat(keys, n - 1), p.next, limit);
    NewestOrder(Below(keys, before), limit - 1, limit);
    hide PageOf, Newest, Below, Repeat, WalkFrom;
    KeyLessIsStrictTotal();
  }

  lemma RepeatTail(keys: set<Key>, n: nat)
    requires n >= 1
    ensures Repeat(keys, n)[0] == keys && Repeat(keys, n)[1..] == Repeat(keys, n - 1)
  {
  }

  lemma FewerLeft(left: nat, limit: int, n: nat)
    requires 1 <= limit < left <= limit * n
    ensures n > 1 && left - limit <= limit * (n - 1)
  {
    assert limit * n == limit * (n - 1) + limit;
    assert limit * (n - 1) > 0;
  }

  lemma LeftBelow(keys: set<Key>, before: Option<Key>, n: nat)
    requires 0 < n <= |Below(keys, before)|
    ensures var all := Newest(Below(keys, before));
            && Newest(Below(keys, Some(all[n - 1]))) == all[n..]
            && |Below(keys, Some(all[n - 1]))| == |all| - n
  {
    hide Newest, KeyLess, Below;
    var left := Below(keys, before);
    NewestOrder(left, n - 1, n - 1);
    BelowIsUnder(keys, before);
    BelowNth(left, n);
    BelowAgain(keys, Newest(left)[n - 1], before);
  }

  /** At the largest limit no cursor is ever handed out, because the extra key is cut off by the store's
      own clamp: the walk is one page long, and complete exactly when that page is. */
  lemma LargestLimitStopsEarly(states: seq<set<Key>>, before: Option<Key>)
    requires states != []
    ensures var w, left := WalkFrom(states, before, MAX_LIMIT), Below(states[0], before);
            && w.finished
            && w.keys == PageKeys(states[0], before, MAX_LIMIT)
            && (w.keys == Newest(left) <==> |left| <= MAX_LIMIT)
  {
    var left := Below(states[0], before);
    var got := PageKeys(states[0], before, MAX_LIMIT + 1);
    assert Clamp(MAX_LIMIT + 1) == MAX_PAGE;
    if |left| <= MAX_LIMIT {
      assert got == Newest(left);
    }
  }

  // ---- Dumping a talker -------------------------------------------------------------------------

  method ReverseInPlace(all: array<Message>)
    modifies all
    ensures all[..] == Reversed(old(all[..]))
  {
    var i, j := 0, all.Length - 1;
    while i < j
      invariant 0 <= i <= j + 1 && i + j == all.Length - 1
      invariant forall k :: 0 <= k < i ==> all[k] == old(all[all.Length - 1 - k]) && all[all.Length - 1 - k] == old(all[k])
      invariant forall k :: i <= k <= j ==> all[k] == old(all[k])
    {
      all[i], all[j] := all[j], all[i];
      i, j := i + 1, j - 1;
    }
  }

  lemma KeysKnown(rows: map<string, Row>, keys: seq<Key>)
    requires forall k :: k in keys ==> k in KeysOf(rows)
    ensures forall k :: k in keys ==> k.id in rows
  {
  }

  /** The newest-first list of a talker's messages. */
  function NewestFirst(account: string, talker: string, rows: map<string, Row>): (r: seq<Message>)
    ensures |r| == |KeysOf(rows)|
  {
    KeysKnown(rows, Newest(KeysOf(rows)));
    MessagesAt(account, talker, rows, Newest(KeysOf(rows)))
  }

  /** All of a talker's rows, oldest first. */
  function Dump(account: string, talker: string, rows: map<string, Row>): (r: seq<Message>)
    ensures |r| == |KeysOf(rows)|
  {
    Reversed(NewestFirst(account, talker, rows))
  }

  /** What the exporter's loop collects, if it stops within so many pages: a full page is always followed
      by asking for another. */
  function DumpWalk(keys: set<Key>, before: Option<Key>, pages: nat): Option<seq<Key>>
    decreases pages
  {
    if pages == 0 then None
    else
      var page := PageKeys(keys, before, DUMP_PAGE);
      if |page| < DUMP_PAGE then Some(page)
      else
        match DumpWalk(keys, Some(BoundAfter(page[|page| - 1])), pages - 1)
        case None => None
        case Some(rest) => Some(page + rest)
  }

  ghost predicate DumpEnds(keys: set<Key>) {
    exists pages: nat :: DumpWalk(keys, None, pages).Some?
  }

  lemma {:induction false} MorePages(keys: set<Key>, before: Option<Key>, few: nat, many: nat)
    requires few <= many && DumpWalk(keys, before, few).Some?
    ensures DumpWalk(keys, before, many) == DumpWalk(keys, before, few)
    decreases few
  {
    var page := PageKeys(keys, before, DUMP_PAGE);
    hide PageKeys, BoundAfter;
    if |page| == DUMP_PAGE {
      MorePages(keys, Some(BoundAfter(page[|page| - 1])), few - 1, many - 1);
    }
  }

  /** What the exporter collects from a table over which its loop ends. */
  ghost function Collected(keys: set<Key>): (r: seq<Key>)
    requires DumpEnds(keys)
    ensures forall pages: nat :: DumpWalk(keys, None, pages).Some? ==> DumpWalk(keys, None, pages).value == r
  {
    var few: nat :| DumpWalk(keys, None, few).Some?;
    forall pages: nat | DumpWalk(keys, None, pages).Some?
      ensures DumpWalk(keys, None, pages) == DumpWalk(keys, None, few)
    {
      if few <= pages { MorePages(keys, None, few, pages); } else { MorePages(keys, None, pages, few); }
    }
    DumpWalk(keys, None, few).value
  }

  lemma {:induction false} DumpWalkWithin(keys: set<Key>, before: Option<Key>, pages: nat)
    requires DumpWalk(keys, before, pages).Some?
    ensures forall k :: k in DumpWalk(keys, before, pages).value ==> k in keys
    decreases pages
  {
    var page := PageKeys(keys, before, DUMP_PAGE);
    PageWithin(keys, before, DUMP_PAGE);
    hide PageKeys, BoundAfter;
    if |page| == DUMP_PAGE {
      DumpWalkWithin(keys, Some(BoundAfter(page[|page| - 1])), pages - 1);
    }
  }

  lemma CollectedWithin(keys: set<Key>)
    requires DumpEnds(keys)
    ensures forall k :: k in Collected(keys) ==> k in keys
  {
    var pages: nat :| DumpWalk(keys, None, pages).Some?;
    DumpWalkWithin(keys, None, pages);
  }

  /** No full page ends at the stored instant that reads back as absent. */
  predicate PagesEndWell(keys: set<Key>) {
    CutsWell(Newest(keys), DUMP_PAGE, DUMP_PAGE)
  }

  lemma RepresentableEndsWell(keys: set<Key>)
    requires Representable(keys)
    ensures PagesEndWell(keys)
  {
    RepresentableCutsWell(Newest(keys), DUMP_PAGE, DUMP_PAGE);
  }

  lemma DumpPage(keys: set<Key>, before: Option<Key>)
    ensures var all, page := Newest(Below(keys, before)), PageKeys(keys, before, DUMP_PAGE);
            if |all| < DUMP_PAGE then page == all else |page| == DUMP_PAGE && page == all[..DUMP_PAGE]
  {
    hide Newest, Below;
  }

  /** After a page that ends at that instant the loop starts at or above it. */
  lemma DumpRepeats(keys: set<Key>, before: Option<Key>, pages: nat)
    requires var all := Newest(Below(keys, before)); |all| >= DUMP_PAGE && all[DUMP_PAGE - 1].time == ZERO_MS
    ensures var all := Newest(Below(keys, before));
            DumpWalk(keys, Some(BoundAfter(all[DUMP_PAGE - 1])), pages) != Some(all[DUMP_PAGE..])
  {
    var left := Below(keys, before);
    var all := Newest(left);
    var last := all[DUMP_PAGE - 1];
    var next := Some(BoundAfter(last));
    var w := DumpWalk(keys, next, pages);
    NewestOrder(left, DUMP_PAGE - 1, DUMP_PAGE - 1);
    BoundReaches(last);
    InBelow(keys, BoundAfter(last), last);
    hide Newest, Below, KeyLess, Lists, BoundAfter;
    if w.Some? {
      DumpHead(keys, next, pages);
      if w.value == all[DUMP_PAGE..] {
        NewestOrder(left, DUMP_PAGE - 1, DUMP_PAGE);
        KeyLessIsStrictTotal();
      }
    }
  }

  lemma DumpHead(keys: set<Key>, before: Option<Key>, pages: nat)
    requires DumpWalk(keys, before, pages).Some? && Below(keys, before) != {}
    ensures var w := DumpWalk(keys, before, pages).value;
            w != [] && forall k :: k in Below(keys, before) ==> k == w[0] || KeyLess(k, w[0])
  {
    var left := Below(keys, before);
    DumpPage(keys, before);
    hide Newest, Below, KeyLess, Lists, PageKeys, BoundAfter;
    assert Newest(left) != [];
    forall k | k in left ensures k == Newest(left)[0] || KeyLess(k, Newest(left)[0]) {
      var i := NewestPlace(left, k);
      NewestOrder(left, 0, i);
    }
  }

  lemma {:induction false} DumpWalkIff(keys: set<Key>, before: Option<Key>, pages: nat)
    requires |Below(keys, before)| < DUMP_PAGE * pages
    ensures DumpWalk(keys, before, pages) == Some(Newest(Below(keys, before)))
            <==> CutsWell(Newest(Below(keys, before)), DUMP_PAGE, DUMP_PAGE)
    decreases pages
  {
    var all := Newest(Below(keys, before));
    DumpPage(keys, before);
    hide PageKeys, Newest, Below, KeyLess, Lists;
    if |all| >= DUMP_PAGE {
      var page, rest := all[..DUMP_PAGE], all[DUMP_PAGE..];
      var next := Some(BoundAfter(all[DUMP_PAGE - 1]));
      var w := DumpWalk(keys, next, pages - 1);
      assert all == page + rest;
      assert w.Some? && page + w.value == all ==> w.value == rest by {
        if w.Some? { assert (page + w.value)[DUMP_PAGE..] == w.value; }
      }
      if all[DUMP_PAGE - 1].time == ZERO_MS {
        DumpRepeats(keys, before, pages - 1);
      } else {
        BoundReaches(all[DUMP_PAGE - 1]);
        LeftBelow(keys, before, DUMP_PAGE);
        DumpWalkIff(keys, next, pages - 1);
      }
    }
  }

  /** The exporter's loop ends with every row once, newest first, if and only if no full page ends at the
      stored instant that reads back as absent. */
  lemma DumpIsCompleteIff(keys: set<Key>)
    ensures DumpEnds(keys) && Collected(keys) == Newest(keys) <==> PagesEndWell(keys)
  {
    hide Newest, DumpWalk, CutsWell;
    if DumpEnds(keys) {
      var few: nat :| DumpWalk(keys, None, few).Some?;
      MorePages(keys, None, few, few + |keys| + 1);
      DumpWalkIff(keys, None, few + |keys| + 1);
    } else {
      DumpWalkIff(keys, None, |keys| + 1);
    }
  }

  /** The loop repeats itself once it comes back to a bound, so it either ends while its pages end at keys it
      has not yet come to, or never. */
  lemma {:induction false} FreshPages(keys: set<Key>, before: Option<Key>, pages: nat, unseen: set<Key>)
    requires DumpWalk(keys, before, pages).Some? && (pages > 0 ==> DumpWalk(keys, before, pages - 1).None?)
    requires unseen <= keys
    requires forall k :: k in keys && k !in unseen && pages > 0 ==> DumpWalk(keys, Some(BoundAfter(k)), pages - 1).None?
    ensures pages <= |unseen| + 1
    decreases pages
  {
    var page := PageKeys(keys, before, DUMP_PAGE);
    PageWithin(keys, before, DUMP_PAGE);
    hide PageKeys, BoundAfter, Below;
    if pages > 1 && |page| == DUMP_PAGE {
      var last := page[|page| - 1];
      assert last in page && last in unseen;
      forall k | k in keys && k !in unseen - {last} ensures DumpWalk(keys, Some(BoundAfter(k)), pages - 2).None? {
        if k != last { FewerPages(keys, Some(BoundAfter(k)), pages - 2, pages - 1); }
      }
      FreshPages(keys, Some(BoundAfter(last)), pages - 1, unseen - {last});
    }
  }

  lemma FewerPages(keys: set<Key>, before: Option<Key>, few: nat, many: nat)
    requires few <= many && DumpWalk(keys, before, many).None?
    ensures DumpWalk(keys, before, few).None?
  {
    hide DumpWalk;
    if DumpWalk(keys, before, few).Some? { MorePages(keys, before, few, many); }
  }

  lemma {:induction false} LeastPages(keys: set<Key>, before: Option<Key>, pages: nat) returns (least: nat)
    requires DumpWalk(keys, before, pages).Some?
    ensures least <= pages && DumpWalk(keys, before, least).Some?
    ensures least > 0 ==> DumpWalk(keys, before, least - 1).None?
    decreases pages
  {
    hide DumpWalk;
    if pages > 0 && DumpWalk(keys, before, pages - 1).Some? {
      least := LeastPages(keys, before, pages - 1);
    } else {
      least := pages;
    }
  }

  /** The loop ends at all if and only if it ends within one page more than there are rows. */
  lemma DumpEndsIff(keys: set<Key>)
    ensures DumpEnds(keys) <==> DumpWalk(keys, None, |keys| + 1).Some?
  {
    hide DumpWalk;
    if DumpEnds(keys) {
      var pages: nat :| DumpWalk(keys, None, pages).Some?;
      var least := LeastPages(keys, None, pages);
      FreshPages(keys, None, least, keys);
      MorePages(keys, None, least, |keys| + 1);
    }
  }

  function AtThatInstant(keys: set<Key>): set<Key> {
    set k | k in keys && k.time == ZERO_MS
  }

  /** A full page of rows at that instant cannot be passed: the cursor of a page never gets below all of them. */
  lemma NotPassed(keys: set<Key>, before: Option<Key>)
    requires |AtThatInstant(keys)| >= DUMP_PAGE && AtThatInstant(keys) <= Below(keys, before)
    ensures var page := PageKeys(keys, before, DUMP_PAGE);
            |page| == DUMP_PAGE && AtThatInstant(keys) <= Below(keys, Some(BoundAfter(page[DUMP_PAGE - 1])))
  {
    var left, zeros := Below(keys, before), AtThatInstant(keys);
    var page := PageKeys(keys, before, DUMP_PAGE);
    SubsetSize(zeros, left);
    DumpPage(keys, before);
    var last := page[DUMP_PAGE - 1];
    LastIsLeast(keys, before, zeros);
    hide PageKeys, Newest, Lists, Below;
    BoundReaches(last);
    BelowIsUnder(keys, Some(BoundAfter(last)));
    BelowIsUnder(keys, before);
    forall z | z in zeros ensures z in Below(keys, Some(BoundAfter(last))) {
      if last.time == ZERO_MS { ColumnRoundTrip(last.time); }
    }
  }

  lemma SubsetSize<T>(a: set<T>, b: set<T>)
    requires a <= b
    ensures |a| <= |b|
  {
    assert b == a + (b - a);
  }

  lemma {:induction false} ElementsFew<T>(s: seq<T>)
    ensures |set x | x in s| <= |s|
  {
    if s == [] {
      assert (set x | x in s) == {};
    } else {
      ElementsFew(s[1..]);
      assert s == [s[0]] + s[1..];
      assert (set x | x in s) == {s[0]} + (set x | x in s[1..]);
    }
  }

  /** The last key of a full page is at that instant or above it, if a full page of keys are. */
  lemma LastIsLeast(keys: set<Key>, before: Option<Key>, zeros: set<Key>)
    requires zeros <= Below(keys, before) && |zeros| >= DUMP_PAGE && zeros == AtThatInstant(keys)
    requires |Newest(Below(keys, before))| >= DUMP_PAGE
    ensures PageKeys(keys, before, DUMP_PAGE)[DUMP_PAGE - 1].time >= ZERO_MS
  {
    var left, page := Below(keys, before), PageKeys(keys, before, DUMP_PAGE);
    DumpPage(keys, before);
    var last := page[DUMP_PAGE - 1];
    var listed := set k | k in page;
    ElementsFew(page);
    if zeros <= listed {
      hide PageKeys, Newest, Below, KeyLess;
      assert listed == zeros + (listed - zeros);
      assert last in page && last in listed;
    } else {
      var z :| z in zeros && z !in listed;
      hide PageKeys, Newest, Below;
      HeadOrBelow(left, DUMP_PAGE, z);
    }
  }

  lemma {:induction false} DumpRunsOn(keys: set<Key>, before: Option<Key>, pages: nat)
    requires |AtThatInstant(keys)| >= DUMP_PAGE && AtThatInstant(keys) <= Below(keys, before)
    ensures DumpWalk(keys, before, pages).None?
    decreases pages
  {
    hide DumpWalk, PageKeys, Below, BoundAfter, AtThatInstant;
    NotPassed(keys, before);
    NoPagesNoEnd(keys, before, pages);
    if pages > 0 {
      DumpRunsOn(keys, Some(BoundAfter(PageKeys(keys, before, DUMP_PAGE)[DUMP_PAGE - 1])), pages - 1);
    }
  }

  lemma NoPagesNoEnd(keys: set<Key>, before: Option<Key>, pages: nat)
    requires |PageKeys(keys, before, DUMP_PAGE)| == DUMP_PAGE
    ensures DumpWalk(keys, before, pages).None? <==>
              pages == 0 || DumpWalk(keys, Some(BoundAfter(PageKeys(keys, before, DUMP_PAGE)[DUMP_PAGE - 1])), pages - 1).None?
  {
    hide PageKeys, BoundAfter;
  }

  /** And it may not end at all: a full page of rows at that instant keeps the loop going for ever, whatever
      other rows there are. */
  lemma DumpMayRunForEver(keys: set<Key>)
    requires |AtThatInstant(keys)| >= DUMP_PAGE
    ensures !DumpEnds(keys)
  {
    forall pages: nat ensures DumpWalk(keys, None, pages).None? {
      DumpRunsOn(keys, None, pages);
    }
  }

  /** What the exporter's loop makes of a talker, oldest first. */
  ghost function LoopDump(account: string, talker: string, rows: map<string, Row>): seq<Message>
    requires DumpEnds(KeysOf(rows))
  {
    CollectedWithin(KeysOf(rows));
    KeysKnown(rows, Collected(KeysOf(rows)));
    Reversed(MessagesAt(account, talker, rows, Collected(KeysOf(rows))))
  }

  lemma LoopDumpIsDump(account: string, talker: string, rows: map<string, Row>)
    requires PagesEndWell(KeysOf(rows))
    ensures DumpEnds(KeysOf(rows)) && LoopDump(account, talker, rows) == Dump(account, talker, rows)
  {
    DumpIsCompleteIff(KeysOf(rows));
  }

  lemma MessagesAtSlice(account: string, talker: string, rows: map<string, Row>, keys: seq<Key>, i: nat, j: nat)
    requires i <= j <= |keys| && forall k :: k in keys ==> k.id in rows
    ensures forall k :: k in keys[i..j] ==> k.id in rows
    ensures MessagesAt(account, talker, rows, keys[i..j]) == MessagesAt(account, talker, rows, keys)[i..j]
  {
    assert forall k :: k in keys[i..j] ==> k in keys;
  }

  /** Exports one talker, over every table on which the loop ends at all. */
  method DumpMessages(account: string, messages: map<MsgKey, Row>, talker: string) returns (r: Result<seq<Message>>)
    requires talker != "" ==> DumpEnds(KeysOf(RowsOf(messages, talker)))
    ensures talker == "" ==> r == Err(InvalidArgument)
    ensures talker != "" ==> r == Ok(LoopDump(account, talker, RowsOf(messages, talker)))
  {
    if talker == "" {
      return Err(InvalidArgument);
    }
    var all := PageThrough(account, messages, talker);
    var out := OldestFirst(all);
    return Ok(out);
  }

  method OldestFirst(all: seq<Message>) returns (r: seq<Message>)
    ensures r == Reversed(all)
  {
    var out := new Message[|all|](i requires 0 <= i < |all| => all[i]);
    assert out[..] == all;
    ReverseInPlace(out);
    return out[..];
  }

  lemma DumpIsReversed(account: string, talker: string, rows: map<string, Row>)
    ensures Dump(account, talker, rows) == Reversed(NewestFirst(account, talker, rows))
  {
  }

  /** The messages of these keys, all of which are in the table. */
  ghost predicate ListOf(all: seq<Message>, account: string, talker: string, rows: map<string, Row>, keys: seq<Key>) {
    (forall k :: k in keys ==> k.id in rows) && all == MessagesAt(account, talker, rows, keys)
  }

  lemma ListConcat(a: seq<Message>, b: seq<Message>, account: string, talker: string, rows: map<string, Row>, left: seq<Key>, right: seq<Key>)
    requires ListOf(a, account, talker, rows, left) && ListOf(b, account, talker, rows, right)
    ensures ListOf(a + b, account, talker, rows, left + right)
  {
  }

  lemma ListStart(account: string, talker: string, rows: map<string, Row>)
    ensures ListOf([], account, talker, rows, [])
  {
  }

  function BoundOfCursor(before: Option<MessageCursor>): Option<Key> {
    if before.None? then None else Some(BoundOf(before.value))
  }

  /** One request of the loop: the page's messages, and where its cursor stands if the page is full. */
  lemma RequestedPage(account: string, messages: map<MsgKey, Row>, talker: string, before: Option<MessageCursor>)
    requires talker != ""
    ensures var rows := RowsOf(messages, talker);
            var page := PageKeys(KeysOf(rows), BoundOfCursor(before), DUMP_PAGE);
            var got := ListMessages(account, messages, talker, before, DUMP_PAGE);
            && got.Ok? && |got.value| == |page| <= DUMP_PAGE && ListOf(got.value, account, talker, rows, page)
            && (page != [] ==> BoundOf(CursorFromMessage(got.value[|page| - 1])) == BoundAfter(page[|page| - 1]))
  {
    var rows, bound := RowsOf(messages, talker), BoundOfCursor(before);
    var page := PageKeys(KeysOf(rows), bound, DUMP_PAGE);
    PageWithin(KeysOf(rows), bound, DUMP_PAGE);
    hide PageKeys, RowsOf;
    if page != [] {
      var last := page[|page| - 1];
      BoundIsExactIff(account, talker, last, rows[last.id]);
    }
  }

  lemma LoopGoesOn(keys: set<Key>, before: Option<Key>, pages: nat)
    requires DumpWalk(keys, before, pages).Some?
    ensures pages > 0
    ensures var page, all := PageKeys(keys, before, DUMP_PAGE), DumpWalk(keys, before, pages).value;
            if |page| < DUMP_PAGE then all == page
            else var rest := DumpWalk(keys, Some(BoundAfter(page[|page| - 1])), pages - 1);
                 rest.Some? && all == page + rest.value
  {
  }

  /** The loop is under way: it has listed some keys, and with so many more pages it reaches its target. */
  ghost predicate UnderWay(all: seq<Message>, done: seq<Key>, before: Option<MessageCursor>, pages: nat,
                           account: string, talker: string, rows: map<string, Row>, target: seq<Key>)
  {
    && ListOf(all, account, talker, rows, done)
    && var rest := DumpWalk(KeysOf(rows), BoundOfCursor(before), pages);
       rest.Some? && done + rest.value == target
  }

  lemma LoopStarts(account: string, talker: string, rows: map<string, Row>) returns (pages: nat)
    requires DumpEnds(KeysOf(rows))
    ensures UnderWay([], [], None, pages, account, talker, rows, Collected(KeysOf(rows)))
  {
    pages :| DumpWalk(KeysOf(rows), None, pages).Some?;
    ListStart(account, talker, rows);
    hide DumpWalk, KeysOf, ListOf;
    assert [] + Collected(KeysOf(rows)) == Collected(KeysOf(rows));
  }

  lemma LoopStep(account: string, messages: map<MsgKey, Row>, talker: string, all: seq<Message>, done: seq<Key>,
                 before: Option<MessageCursor>, pages: nat, target: seq<Key>)
    requires talker != "" && UnderWay(all, done, before, pages, account, talker, RowsOf(messages, talker), target)
    ensures var rows, got := RowsOf(messages, talker), ListMessages(account, messages, talker, before, DUMP_PAGE);
            && got.Ok? && |got.value| <= DUMP_PAGE
            && (got.value == [] ==> ListOf(all, account, talker, rows, target))
            && (|got.value| < DUMP_PAGE ==> ListOf(all + got.value, account, talker, rows, target))
            && (|got.value| == DUMP_PAGE ==>
                  pages > 0 && UnderWay(all + got.value, done + PageKeys(KeysOf(rows), BoundOfCursor(before), DUMP_PAGE),
                                        Some(CursorFromMessage(got.value[DUMP_PAGE - 1])), pages - 1, account, talker, rows, target))
  {
    var rows := RowsOf(messages, talker);
    var keys := KeysOf(rows);
    var page := PageKeys(keys, BoundOfCursor(before), DUMP_PAGE);
    var got := ListMessages(account, messages, talker, before, DUMP_PAGE);
    hide ListMessages, RowsOf, KeysOf, DumpWalk, PageKeys, ListOf, BoundOf, BoundAfter, CursorFromMessage;
    RequestedPage(account, messages, talker, before);
    LoopGoesOn(keys, BoundOfCursor(before), pages);
    ListConcat(all, got.value, account, talker, rows, done, page);
    if |page| < DUMP_PAGE {
      assert all + [] == all;
    } else {
      var rest := DumpWalk(keys, Some(BoundAfter(page[DUMP_PAGE - 1])), pages - 1);
      assert done + (page + rest.value) == done + page + rest.value;
    }
  }

  /** The paging loop: collects the list a page at a time. */
  method PageThrough(account: string, messages: map<MsgKey, Row>, talker: string) returns (all: seq<Message>)
    requires talker != "" && DumpEnds(KeysOf(RowsOf(messages, talker)))
    ensures ListOf(all, account, talker, RowsOf(messages, talker), Collected(KeysOf(RowsOf(messages, talker))))
  {
    hide *;
    ghost var rows := RowsOf(messages, talker);
    ghost var target := Collected(KeysOf(rows));
    ghost var pages: nat := LoopStarts(account, talker, rows);
    ghost var done: seq<Key> := [];
    all := [];
    var before: Option<MessageCursor> := None;
    while true
      invariant UnderWay(all, done, before, pages, account, talker, rows, target)
      decreases pages
    {
      LoopStep(account, messages, talker, all, done, before, pages, target);
      var page := ListMessages(account, messages, talker, before, DUMP_PAGE).value;
      if |page| == 0 {
        break;
      }
      all, done := all + page, done + PageKeys(KeysOf(rows), BoundOfCursor(before), DUMP_PAGE);
      if |page| < DUMP_PAGE {
        break;
      }
      before := Some(CursorFromMessage(page[|page| - 1]));
      pages := pages - 1;
    }
  }

  // ---- What a dump is ---------------------------------------------------------------------------

  lemma DumpAt(account: string, talker: string, rows: map<string, Row>, i: nat)
    requires i < |KeysOf(rows)|
    ensures var d, newest := Dump(account, talker, rows), Newest(KeysOf(rows));
            && |d| == |newest| && newest[|newest| - 1 - i].id in rows
            && d[i] == MessageAt(account, talker, newest[|newest| - 1 - i].id, rows[newest[|newest| - 1 - i].id])
            && newest[|newest| - 1 - i] == RowKey(d[i].id, rows[d[i].id])
  {
    var keys := KeysOf(rows);
    var at := |keys| - 1 - i;
    hide *;
    DumpIsReversed(account, talker, rows);
    NewestFirstAt(account, talker, rows, at);
  }

  lemma NewestFirstAt(account: string, talker: string, rows: map<string, Row>, i: nat)
    requires i < |KeysOf(rows)|
    ensures var k := Newest(KeysOf(rows))[i];
            && k.id in rows && k == RowKey(k.id, rows[k.id])
            && NewestFirst(account, talker, rows)[i] == MessageAt(account, talker, k.id, rows[k.id])
            && NewestFirst(account, talker, rows)[i].id == k.id
  {
    hide Newest, Lists, KeyLess;
    NewestOrder(KeysOf(rows), i, i);
  }

  /** A message read from its row is ordered by its row. */
  lemma SameOrder(a: Message, b: Message, rows: map<string, Row>)
    requires a.id in rows && b.id in rows && a.seqNo == rows[a.id].seqNo && b.seqNo == rows[b.id].seqNo
    requires a.time == RowTime(rows[a.id].ms) && b.time == RowTime(rows[b.id].ms)
    ensures KeyLess(KeyOf(a), KeyOf(b)) <==> KeyLess(RowKey(a.id, rows[a.id]), RowKey(b.id, rows[b.id]))
  {
  }

  /** A dump lists exactly the talker's rows, each once and oldest first. */
  lemma DumpIsExact(account: string, talker: string, rows: map<string, Row>)
    ensures StrictlySorted(Dump(account, talker, rows))
    ensures forall m :: m in Dump(account, talker, rows) <==> m.id in rows && m == MessageAt(account, talker, m.id, rows[m.id])
  {
    var d, newest := Dump(account, talker, rows), Newest(KeysOf(rows));
    var n := |newest|;
    hide Newest, Lists, KeyLess, StrLess, Dump;
    forall i, j | 0 <= i < j < |d| ensures KeyLess(KeyOf(d[i]), KeyOf(d[j])) {
      DumpAt(account, talker, rows, i);
      DumpAt(account, talker, rows, j);
      NewestOrder(KeysOf(rows), n - 1 - j, n - 1 - i);
      SameOrder(d[i], d[j], rows);
    }
    forall m ensures m in d <==> m.id in rows && m == MessageAt(account, talker, m.id, rows[m.id]) {
      if m in d {
        var i :| 0 <= i < |d| && d[i] == m;
        DumpAt(account, talker, rows, i);
      } else if m.id in rows {
        var i := NewestPlace(KeysOf(rows), RowKey(m.id, rows[m.id]));
        DumpAt(account, talker, rows, n - 1 - i);
        assert d[n - 1 - i] in d;
      }
    }
  }

  /** Sorting a dump, with whatever sort, leaves it as it is. */
  lemma DumpStaysPut(account: string, talker: string, rows: map<string, Row>, r: seq<Message>)
    requires SortedPermutation(r, Dump(account, talker, rows))
    ensures r == Dump(account, talker, rows)
  {
    DumpIsExact(account, talker, rows);
    SortedStaysPut(r, Dump(account, talker, rows));
  }
}
