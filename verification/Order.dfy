/** Lexicographic order on strings, the order of messages, and the one list that sorts a set. */
module Order {
  import opened Domain

  /** Byte-wise order of identifiers. */
  predicate StrLess(a: string, b: string) {
    b != [] && (a == [] || a[0] < b[0] || (a[0] == b[0] && StrLess(a[1..], b[1..])))
  }

  /** The place of a message among its talker's messages. */
  datatype Key = Key(time: int, seqNo: int, id: string)

  predicate KeyLess(a: Key, b: Key) {
    || a.time < b.time
    || (a.time == b.time && (a.seqNo < b.seqNo || (a.seqNo == b.seqNo && StrLess(a.id, b.id))))
  }

  predicate KeyAfter(a: Key, b: Key) {
    KeyLess(b, a)
  }

  ghost predicate StrictTotal<T(!new)>(less: (T, T) -> bool) {
    && (forall x :: !less(x, x))
    && (forall x, y, z :: less(x, y) && less(y, z) ==> less(x, z))
    && (forall x, y :: x == y || less(x, y) || less(y, x))
  }

  lemma {:induction false} StrLessTransitive(a: string, b: string, c: string)
    requires StrLess(a, b) && StrLess(b, c)
    ensures StrLess(a, c)
  {
    if a != [] && a[0] == b[0] && b[0] == c[0] {
      StrLessTransitive(a[1..], b[1..], c[1..]);
    }
  }

  lemma {:induction false} StrLessIrreflexive(a: string)
    ensures !StrLess(a, a)
  {
    if a != [] { StrLessIrreflexive(a[1..]); }
  }

  lemma {:induction false} StrLessTotal(a: string, b: string)
    ensures a == b || StrLess(a, b) || StrLess(b, a)
  {
    if a != [] && b != [] {
      StrLessTotal(a[1..], b[1..]);
      assert a == [a[0]] + a[1..] && b == [b[0]] + b[1..];
    }
  }

  /** The lesser string is a proper beginning of the greater, or has the lesser byte where they first differ. */
  lemma {:induction false} StrLessIff(a: string, b: string)
    ensures StrLess(a, b) <==> exists n: nat :: FirstDifference(a, b, n) && (n == |a| || a[n] < b[n])
  {
    if a != [] && b != [] && a[0] == b[0] {
      StrLessIff(a[1..], b[1..]);
      if StrLess(a, b) {
        var n: nat :| FirstDifference(a[1..], b[1..], n) && (n == |a[1..]| || a[1..][n] < b[1..][n]);
        assert FirstDifference(a, b, n + 1);
      } else {
        forall n: nat | FirstDifference(a, b, n) ensures !(n == |a| || a[n] < b[n]) {
          if n > 0 { assert FirstDifference(a[1..], b[1..], n - 1); }
        }
      }
    } else if StrLess(a, b) {
      assert FirstDifference(a, b, 0);
    }
  }

  /** The strings agree up to this place, at which the second goes on. */
  predicate FirstDifference(a: string, b: string, n: nat) {
    n <= |a| && n < |b| && forall i :: 0 <= i < n ==> a[i] == b[i]
  }

  lemma StrLessIsStrictTotal()
    ensures StrictTotal(StrLess)
  {
    forall a, b, c | StrLess(a, b) && StrLess(b, c) ensures StrLess(a, c) { StrLessTransitive(a, b, c); }
    forall a ensures !StrLess(a, a) { StrLessIrreflexive(a); }
    forall a, b ensures a == b || StrLess(a, b) || StrLess(b, a) { StrLessTotal(a, b); }
  }

  lemma KeyLessIsStrictTotal()
    ensures StrictTotal(KeyLess)
    ensures StrictTotal(KeyAfter)
  {
    StrLessIsStrictTotal();
    forall a, b, c | KeyLess(a, b) && KeyLess(b, c) ensures KeyLess(a, c) {
      if StrLess(a.id, b.id) && StrLess(b.id, c.id) { StrLessTransitive(a.id, b.id, c.id); }
    }
    forall a ensures !KeyLess(a, a) { StrLessIrreflexive(a.id); }
    forall a, b ensures a == b || KeyLess(a, b) || KeyLess(b, a) { StrLessTotal(a.id, b.id); }
  }

  // ---- Sorting a set ----------------------------------------------------------------------------

  ghost predicate Ascending<T(!new)>(s: seq<T>, less: (T, T) -> bool) {
    forall i, j :: 0 <= i < j < |s| ==> less(s[i], s[j])
  }

  ghost predicate Lists<T(!new)>(s: seq<T>, elements: set<T>, less: (T, T) -> bool) {
    Ascending(s, less) && forall x :: x in s <==> x in elements
  }

  ghost predicate IsLeast<T(!new)>(m: T, s: set<T>, less: (T, T) -> bool) {
    m in s && forall x :: x in s ==> x == m || less(m, x)
  }

  lemma {:induction false} LeastExists<T(!new)>(s: set<T>, less: (T, T) -> bool) returns (m: T)
    requires StrictTotal(less) && s != {}
    ensures IsLeast(m, s, less)
    decreases |s|
  {
    var y :| y in s;
    var rest := s - {y};
    if rest == {} {
      m := y;
      assert forall x :: x in s ==> x == y || x in rest;
    } else {
      var n := LeastExists(rest, less);
      m := if less(n, y) then n else y;
      assert n == y || less(n, y) || less(y, n);
      forall x | x in s ensures x == m || less(m, x) {
        if x != y { assert x in rest; }
      }
    }
  }

  /** The least element of a set. */
  function Least<T(==,!new)>(s: set<T>, less: (T, T) -> bool): (m: T)
    requires StrictTotal(less) && s != {}
    ensures IsLeast(m, s, less)
  {
    assert exists m :: IsLeast(m, s, less) by { var m := LeastExists(s, less); }
    var m :| m in s && forall x :: x in s ==> x == m || less(m, x);
    m
  }

  /** The elements of a set in order: what sorting the keys of a table gives. */
  function SortedList<T(==,!new)>(s: set<T>, less: (T, T) -> bool): (r: seq<T>)
    requires StrictTotal(less)
    ensures Lists(r, s, less)
    ensures |r| == |s|
    decreases |s|
  {
    if s == {} then []
    else
      var m := Least(s, less);
      [m] + SortedList(s - {m}, less)
  }

  /** There is only one such list. */
  lemma {:induction false} ListedOnce<T(!new)>(a: seq<T>, b: seq<T>, s: set<T>, less: (T, T) -> bool)
    requires StrictTotal(less) && Lists(a, s, less) && Lists(b, s, less)
    ensures a == b
    decreases |a|
  {
    if b == [] {
      if a != [] { FirstIsListed(a, s, less); }
    } else {
      assert b[0] in a by { assert b[0] in b; }
      assert a[0] in b by { assert a[0] in a; }
      assert a[0] == b[0] by { FirstIsLeast(a, b[0], less); FirstIsLeast(b, a[0], less); }
      ListsTail(a, s, less);
      ListsTail(b, s, less);
      ListedOnce(a[1..], b[1..], s - {a[0]}, less);
      assert a == [a[0]] + a[1..] && b == [b[0]] + b[1..];
    }
  }

  lemma FirstIsListed<T(!new)>(a: seq<T>, s: set<T>, less: (T, T) -> bool)
    requires Lists(a, s, less) && a != []
    ensures a[0] in s
  {
    assert a[0] in a;
  }

  lemma FirstIsLeast<T(!new)>(a: seq<T>, x: T, less: (T, T) -> bool)
    requires StrictTotal(less) && Ascending(a, less) && x in a
    ensures !less(x, a[0])
  {
    var i :| 0 <= i < |a| && a[i] == x;
    if i > 0 {
      assert less(a[0], a[i]);
    }
  }

  lemma ListsTail<T(!new)>(a: seq<T>, s: set<T>, less: (T, T) -> bool)
    requires StrictTotal(less) && Lists(a, s, less) && a != []
    ensures Lists(a[1..], s - {a[0]}, less)
  {
    assert a == [a[0]] + a[1..];
    forall x ensures x in a[1..] <==> x in s - {a[0]} {
      if x in a[1..] {
        var i :| 0 <= i < |a[1..]| && a[1..][i] == x;
        assert less(a[0], a[i + 1]);
        assert a[i + 1] in a;
      } else {
        assert x in a ==> x == a[0];
      }
    }
  }

  function SortedStrings(s: set<string>): (r: seq<string>)
    ensures Lists(r, s, StrLess) && |r| == |s|
  {
    StrLessIsStrictTotal();
    SortedList(s, StrLess)
  }

  lemma SortedMembers(s: set<string>)
    ensures forall i :: 0 <= i < |SortedStrings(s)| ==> SortedStrings(s)[i] in s
  {
    forall i | 0 <= i < |SortedStrings(s)| ensures SortedStrings(s)[i] in s {
      assert SortedStrings(s)[i] in SortedStrings(s);
    }
  }

  function Reversed<T>(s: seq<T>): (r: seq<T>)
    ensures |r| == |s| && forall i :: 0 <= i < |s| ==> r[i] == s[|s| - 1 - i]
  {
    seq(|s|, i requires 0 <= i < |s| => s[|s| - 1 - i])
  }

  // ---- Sorting messages -------------------------------------------------------------------------

  function KeyOf(m: Message): Key {
    Key(m.time, m.seqNo, m.id)
  }

  /** No message comes before an earlier one; messages with equal keys may stand in either order. */
  ghost predicate Sorted(msgs: seq<Message>) {
    forall i, j :: 0 <= i < j < |msgs| ==> !KeyLess(KeyOf(msgs[j]), KeyOf(msgs[i]))
  }

  ghost predicate SortedPermutation(r: seq<Message>, msgs: seq<Message>) {
    multiset(r) == multiset(msgs) && Sorted(r)
  }

  /** In terms of the messages: by time, then by sequence number, then by id. */
  predicate NotAfter(a: Message, b: Message) {
    || a.time < b.time
    || (a.time == b.time && (a.seqNo < b.seqNo || (a.seqNo == b.seqNo && !StrLess(b.id, a.id))))
  }

  lemma SortedMeans(msgs: seq<Message>)
    ensures Sorted(msgs) <==> forall i, j :: 0 <= i < j < |msgs| ==> NotAfter(msgs[i], msgs[j])
  {
    forall i, j | 0 <= i < j < |msgs| ensures NotAfter(msgs[i], msgs[j]) <==> !KeyLess(KeyOf(msgs[j]), KeyOf(msgs[i])) {
      StrLessTotal(msgs[i].id, msgs[j].id);
      if StrLess(msgs[i].id, msgs[j].id) && StrLess(msgs[j].id, msgs[i].id) {
        StrLessTransitive(msgs[i].id, msgs[j].id, msgs[i].id);
        StrLessIrreflexive(msgs[i].id);
      }
    }
  }

  /** Sorts one talker's messages. Which of two messages with equal keys comes first is left open. */
  method SortMessages(msgs: seq<Message>) returns (r: seq<Message>)
    ensures SortedPermutation(r, msgs)
    ensures forall i, j :: 0 <= i < j < |r| ==> NotAfter(r[i], r[j])
  {
    r := [];
    for i := 0 to |msgs|
      invariant SortedPermutation(r, msgs[..i])
    {
      hide Sorted;
      assert msgs[..i + 1] == msgs[..i] + [msgs[i]];
      r := Insert(r, msgs[i]);
    }
    assert msgs[..|msgs|] == msgs;
    SortedMeans(r);
  }

  method Insert(r: seq<Message>, m: Message) returns (s: seq<Message>)
    requires Sorted(r)
    ensures Sorted(s) && multiset(s) == multiset(r) + multiset{m}
  {
    hide KeyLess, KeyOf;
    var k := |r|;
    while k > 0 && KeyLess(KeyOf(m), KeyOf(r[k - 1]))
      invariant 0 <= k <= |r|
      invariant forall j :: k <= j < |r| ==> KeyLess(KeyOf(m), KeyOf(r[j]))
    {
      k := k - 1;
    }
    InsertKeepsSorted(r, k, m);
    hide Sorted;
    assert r == r[..k] + r[k..];
    s := r[..k] + [m] + r[k..];
  }

  lemma KeyNotLessTransitive(a: Key, b: Key, c: Key)
    requires !KeyLess(a, b) && (b == c || !KeyLess(b, c))
    ensures !KeyLess(a, c)
  {
    KeyLessIsStrictTotal();
  }

  lemma InsertKeepsSorted(r: seq<Message>, k: nat, m: Message)
    requires k <= |r| && Sorted(r)
    requires k == 0 || !KeyLess(KeyOf(m), KeyOf(r[k - 1]))
    requires forall j :: k <= j < |r| ==> KeyLess(KeyOf(m), KeyOf(r[j]))
    ensures Sorted(r[..k] + [m] + r[k..])
  {
    KeyLessIsStrictTotal();
    var s := r[..k] + [m] + r[k..];
    forall i, j | 0 <= i < j < |s| ensures !KeyLess(KeyOf(s[j]), KeyOf(s[i])) {
      if i < k && j == k {
        KeyNotLessTransitive(KeyOf(m), KeyOf(r[k - 1]), KeyOf(r[i]));
      }
    }
  }

  ghost predicate StrictlySorted(msgs: seq<Message>) {
    forall i, j :: 0 <= i < j < |msgs| ==> KeyLess(KeyOf(msgs[i]), KeyOf(msgs[j]))
  }

  /** Messages already in strict order are left exactly as they are by any such sort. */
  lemma {:induction false} SortedStaysPut(r: seq<Message>, msgs: seq<Message>)
    requires SortedPermutation(r, msgs) && StrictlySorted(msgs)
    ensures r == msgs
    decreases |msgs|
  {
    assert |r| == |multiset(r)| == |multiset(msgs)| == |msgs|;
    if msgs != [] {
      FirstInBoth(r, msgs);
      assert r == [r[0]] + r[1..] && msgs == [msgs[0]] + msgs[1..];
      assert multiset(r[1..]) == multiset(r) - multiset{r[0]};
      assert multiset(msgs[1..]) == multiset(msgs) - multiset{msgs[0]};
      SortedStaysPut(r[1..], msgs[1..]);
    }
  }

  lemma FirstInBoth(r: seq<Message>, msgs: seq<Message>)
    requires SortedPermutation(r, msgs) && StrictlySorted(msgs) && r != [] && msgs != []
    ensures r[0] == msgs[0]
  {
    assert msgs[0] in multiset(r) && r[0] in multiset(msgs);
    var i :| 0 <= i < |r| && r[i] == msgs[0];
    var j :| 0 <= j < |msgs| && msgs[j] == r[0];
    if i > 0 {
      assert !KeyLess(KeyOf(r[i]), KeyOf(r[0]));
    }
  }
}
