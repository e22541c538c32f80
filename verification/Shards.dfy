/** Rotating shard files, and the ranges of bytes that index them. */
module Shards {
  import opened Domain

  const MAGIC_LENGTH := 4

  /** A stretch of bytes in one shard. */
  datatype Range = Range(file: int, offset: int, length: int) {
    function End(): int { offset + length }
  }

  function Flat<T>(parts: seq<seq<T>>): seq<T> {
    if parts == [] then [] else parts[0] + Flat(parts[1..])
  }

  lemma {:induction false} FlatConcat<T>(a: seq<seq<T>>, b: seq<seq<T>>)
    ensures Flat(a + b) == Flat(a) + Flat(b)
  {
    if a == [] {
      assert a + b == b;
    } else {
      assert (a + b)[1..] == a[1..] + b;
      FlatConcat(a[1..], b);
    }
  }

  lemma FlatOne<T>(part: seq<T>)
    ensures Flat([part]) == part
  {
    assert Flat([part]) == part + Flat([]);
  }

  // ---- What an index says about the shards ------------------------------------------------------

  predicate Within(files: seq<seq<byte>>, r: Range) {
    0 <= r.file < |files| && MAGIC_LENGTH <= r.offset && 0 < r.length && r.End() <= |files[r.file]|
  }

  function BytesAt(files: seq<seq<byte>>, r: Range): (b: seq<byte>)
    requires Within(files, r)
    ensures |b| == r.length
  {
    files[r.file][r.offset..r.End()]
  }

  /** The second range starts where the first ends, or the first ends its shard and the second opens the next. */
  predicate Adjacent(files: seq<seq<byte>>, a: Range, b: Range)
    requires Within(files, a)
  {
    || (b.file == a.file && b.offset == a.End())
    || (b.file == a.file + 1 && b.offset == MAGIC_LENGTH && a.End() == |files[a.file]|)
  }

  /** The ranges, in order, run through every shard from its magic to its end. */
  ghost predicate Tiles(files: seq<seq<byte>>, rs: seq<Range>) {
    && |files| > 0
    && (forall k :: 0 <= k < |rs| ==> Within(files, rs[k]))
    && (rs == [] ==> |files| == 1 && |files[0]| == MAGIC_LENGTH)
    && (rs != [] ==>
          && rs[0].file == 0 && rs[0].offset == MAGIC_LENGTH
          && rs[|rs| - 1].file == |files| - 1 && rs[|rs| - 1].End() == |files[|files| - 1]|)
    && (forall k, l :: 0 <= k && l == k + 1 && l < |rs| ==> Adjacent(files, rs[k], rs[l]))
  }

  /** A range holds exactly its records, and a shard over the limit holds one record only. */
  ghost predicate Holds(files: seq<seq<byte>>, r: Range, records: seq<seq<byte>>, max: int) {
    && Within(files, r)
    && records != []
    && BytesAt(files, r) == Flat(records)
    && (|files[r.file]| > max ==> |records| == 1 && r.offset == MAGIC_LENGTH && r.End() == |files[r.file]|)
  }

  /** An index of the shards: the ranges tile them and each holds its own list of records. */
  ghost predicate Indexed(files: seq<seq<byte>>, rs: seq<Range>, parts: seq<seq<seq<byte>>>, max: int) {
    && Tiles(files, rs)
    && |parts| == |rs|
    && forall k :: 0 <= k < |rs| ==> Holds(files, rs[k], parts[k], max)
  }

  // ---- Tiling: every byte belongs to exactly one range ------------------------------------------

  predicate Contains(r: Range, file: nat, at: nat) {
    r.file == file && r.offset <= at < r.End()
  }

  lemma {:induction false} RangesInOrder(files: seq<seq<byte>>, rs: seq<Range>, k: nat, l: nat)
    requires Tiles(files, rs) && k < l < |rs|
    ensures rs[k].file < rs[l].file || (rs[k].file == rs[l].file && rs[k].End() <= rs[l].offset)
    decreases l - k
  {
    assert Adjacent(files, rs[k], rs[k + 1]);
    if k + 1 < l {
      RangesInOrder(files, rs, k + 1, l);
    }
  }

  lemma {:induction false} CoveredUpTo(files: seq<seq<byte>>, rs: seq<Range>, k: nat, file: nat, at: nat) returns (j: nat)
    requires Tiles(files, rs) && k < |rs| && file < |files| && MAGIC_LENGTH <= at < |files[file]|
    requires file < rs[k].file || (file == rs[k].file && at < rs[k].End())
    ensures j <= k && Contains(rs[j], file, at)
  {
    if Contains(rs[k], file, at) {
      j := k;
    } else if k > 0 {
      assert Adjacent(files, rs[k - 1], rs[k]);
      j := CoveredUpTo(files, rs, k - 1, file, at);
    } else {
      assert false;
    }
  }

  /** No byte after a shard's magic is left out of the index, and none is indexed twice. */
  lemma EveryByteIndexedOnce(files: seq<seq<byte>>, rs: seq<Range>, file: nat, at: nat)
    requires Tiles(files, rs) && file < |files| && MAGIC_LENGTH <= at < |files[file]|
    ensures exists k :: 0 <= k < |rs| && Contains(rs[k], file, at)
    ensures forall k, l :: 0 <= k < |rs| && 0 <= l < |rs| && Contains(rs[k], file, at) && Contains(rs[l], file, at)
              ==> k == l
  {
    assert rs != [];
    var j := CoveredUpTo(files, rs, |rs| - 1, file, at);
    forall k, l | 0 <= k < |rs| && 0 <= l < |rs| && Contains(rs[k], file, at) && Contains(rs[l], file, at)
      ensures k == l
    {
      if k < l { RangesInOrder(files, rs, k, l); }
      if l < k { RangesInOrder(files, rs, l, k); }
    }
  }

  /** No range is longer than the shard limit unless it is a single record. */
  lemma RangeWithinLimit(files: seq<seq<byte>>, rs: seq<Range>, parts: seq<seq<seq<byte>>>, max: int, k: nat)
    requires Indexed(files, rs, parts, max) && k < |rs|
    ensures rs[k].length <= max || (|parts[k]| == 1 && rs[k].length == |parts[k][0]|)
    ensures |files[rs[k].file]| > max ==> forall l :: 0 <= l < |rs| && rs[l].file == rs[k].file ==> l == k
  {
    assert Holds(files, rs[k], parts[k], max);
    if |parts[k]| == 1 {
      assert parts[k] == [parts[k][0]];
      FlatOne(parts[k][0]);
    }
    if |files[rs[k].file]| > max {
      forall l | 0 <= l < |rs| && rs[l].file == rs[k].file ensures l == k {
        assert Holds(files, rs[l], parts[l], max);
        if k < l { RangesInOrder(files, rs, k, l); }
        if l < k { RangesInOrder(files, rs, l, k); }
      }
    }
  }

  // ---- Appending --------------------------------------------------------------------------------

  /** Whether a record of n bytes opens a new shard: only if the current one already holds one. */
  predicate NeedsRotation(files: seq<seq<byte>>, n: nat, max: int)
    requires files != []
  {
    var size := |files[|files| - 1]|;
    size > MAGIC_LENGTH && size + n > max
  }

  function Appended(files: seq<seq<byte>>, p: seq<byte>, max: int, magic: seq<byte>): (r: seq<seq<byte>>)
    requires files != []
    ensures r != []
  {
    if NeedsRotation(files, |p|, max) then files + [magic + p]
    else files[|files| - 1 := files[|files| - 1] + p]
  }

  lemma OldBytesStay(files: seq<seq<byte>>, p: seq<byte>, max: int, magic: seq<byte>, r: Range)
    requires files != [] && Within(files, r)
    ensures var after := Appended(files, p, max, magic);
            Within(after, r) && BytesAt(after, r) == BytesAt(files, r)
  {
  }

  /** The place an append reports for its record. */
  function PlaceOf(after: seq<seq<byte>>, n: nat): Range
    requires after != [] && n <= |after[|after| - 1]|
  {
    Range(|after| - 1, |after[|after| - 1]| - n, n)
  }

  lemma OldRangesHold(files: seq<seq<byte>>, rs: seq<Range>, parts: seq<seq<seq<byte>>>, p: seq<byte>,
                      max: int, magic: seq<byte>, k: nat)
    requires Indexed(files, rs, parts, max) && |magic| == MAGIC_LENGTH && p != [] && k < |rs|
    ensures Holds(Appended(files, p, max, magic), rs[k], parts[k], max)
  {
    assert Holds(files, rs[k], parts[k], max);
    OldBytesStay(files, p, max, magic, rs[k]);
  }

  lemma PlaceHolds(files: seq<seq<byte>>, p: seq<byte>, max: int, magic: seq<byte>)
    requires files != [] && |files[|files| - 1]| >= MAGIC_LENGTH && |magic| == MAGIC_LENGTH && p != []
    ensures var after := Appended(files, p, max, magic);
            |p| <= |after[|after| - 1]| && Holds(after, PlaceOf(after, |p|), [p], max)
  {
    var after := Appended(files, p, max, magic);
    FlatOne(p);
    assert BytesAt(after, PlaceOf(after, |p|)) == p;
  }

  lemma PlaceTiles(files: seq<seq<byte>>, rs: seq<Range>, p: seq<byte>, max: int, magic: seq<byte>)
    requires Tiles(files, rs) && |magic| == MAGIC_LENGTH && p != []
    ensures var after := Appended(files, p, max, magic);
            |p| <= |after[|after| - 1]| && Tiles(after, rs + [PlaceOf(after, |p|)])
  {
    var after := Appended(files, p, max, magic);
    var rs' := rs + [PlaceOf(after, |p|)];
    assert rs == [] ==> files[0] == files[|files| - 1];
    forall k | 0 <= k < |rs'| ensures Within(after, rs'[k]) {
      if k < |rs| { assert Within(files, rs[k]); }
    }
    forall k, l | 0 <= k && l == k + 1 && l < |rs'| ensures Adjacent(after, rs'[k], rs'[l]) {
      if l < |rs| {
        assert Adjacent(files, rs[k], rs[l]);
        RangesInOrder(files, rs, k, l);
        if l < |rs| - 1 { RangesInOrder(files, rs, l, |rs| - 1); }
      }
    }
  }

  lemma TilesFit(files: seq<seq<byte>>, rs: seq<Range>)
    requires Tiles(files, rs)
    ensures files != [] && |files[|files| - 1]| >= MAGIC_LENGTH
  {
    if rs != [] { assert Within(files, rs[|rs| - 1]); }
  }

  /** A record appended with its own new range keeps the index. */
  lemma AppendStartsRange(files: seq<seq<byte>>, rs: seq<Range>, parts: seq<seq<seq<byte>>>, p: seq<byte>,
                          max: int, magic: seq<byte>)
    requires Indexed(files, rs, parts, max) && |magic| == MAGIC_LENGTH && p != []
    ensures var after := Appended(files, p, max, magic);
            && |p| <= |after[|after| - 1]|
            && Indexed(after, rs + [PlaceOf(after, |p|)], parts + [[p]], max)
  {
    var after := Appended(files, p, max, magic);
    TilesFit(files, rs);
    PlaceTiles(files, rs, p, max, magic);
    PlaceHolds(files, p, max, magic);
    var rs', parts' := rs + [PlaceOf(after, |p|)], parts + [[p]];
    hide Tiles, Holds, Appended, PlaceOf;
    forall k | 0 <= k < |rs'| ensures Holds(after, rs'[k], parts'[k], max) {
      if k < |rs| { OldRangesHold(files, rs, parts, p, max, magic, k); }
    }
  }

  function Grown(r: Range, n: nat): Range {
    Range(r.file, r.offset, r.length + n)
  }

  lemma GrownHolds(files: seq<seq<byte>>, rs: seq<Range>, records: seq<seq<byte>>, p: seq<byte>, max: int, magic: seq<byte>)
    requires Tiles(files, rs) && rs != [] && Holds(files, rs[|rs| - 1], records, max) && p != []
    requires !NeedsRotation(files, |p|, max)
    ensures Holds(Appended(files, p, max, magic), Grown(rs[|rs| - 1], |p|), records + [p], max)
  {
    var after, last := Appended(files, p, max, magic), rs[|rs| - 1];
    FlatConcat(records, [p]);
    FlatOne(p);
    assert BytesAt(after, Grown(last, |p|)) == BytesAt(files, last) + p;
  }

  lemma GrownTiles(files: seq<seq<byte>>, rs: seq<Range>, p: seq<byte>, max: int, magic: seq<byte>)
    requires Tiles(files, rs) && rs != [] && p != [] && !NeedsRotation(files, |p|, max)
    ensures var last := |rs| - 1;
            Tiles(Appended(files, p, max, magic), rs[..last] + [Grown(rs[last], |p|)])
  {
    var after, last := Appended(files, p, max, magic), |rs| - 1;
    var rs' := rs[..last] + [Grown(rs[last], |p|)];
    forall k | 0 <= k < |rs'| ensures Within(after, rs'[k]) {
      assert Within(files, rs[k]);
    }
    forall k, l | 0 <= k && l == k + 1 && l < |rs'| ensures Adjacent(after, rs'[k], rs'[l]) {
      assert Adjacent(files, rs[k], rs[l]);
      RangesInOrder(files, rs, k, l);
      if l < last { RangesInOrder(files, rs, l, last); }
    }
  }

  /** A record that lands right after the last range can be counted into that range instead. */
  lemma AppendGrowsRange(files: seq<seq<byte>>, rs: seq<Range>, parts: seq<seq<seq<byte>>>, p: seq<byte>,
                         max: int, magic: seq<byte>)
    requires Indexed(files, rs, parts, max) && |magic| == MAGIC_LENGTH && p != [] && rs != []
    requires !NeedsRotation(files, |p|, max)
    ensures var last := |rs| - 1;
            Indexed(Appended(files, p, max, magic), rs[..last] + [Grown(rs[last], |p|)],
                    parts[..last] + [parts[last] + [p]], max)
  {
    var after, last := Appended(files, p, max, magic), |rs| - 1;
    assert Holds(files, rs[last], parts[last], max);
    GrownTiles(files, rs, p, max, magic);
    GrownHolds(files, rs, parts[last], p, max, magic);
    var rs', parts' := rs[..last] + [Grown(rs[last], |p|)], parts[..last] + [parts[last] + [p]];
    forall k | 0 <= k < last ensures Holds(after, rs[k], parts[k], max) {
      OldRangesHold(files, rs, parts, p, max, magic, k);
    }
    hide Tiles, Holds, Appended;
    assert forall k :: 0 <= k < last ==> rs'[k] == rs[k] && parts'[k] == parts[k];
    assert rs'[last] == Grown(rs[last], |p|) && parts'[last] == parts[last] + [p];
  }

  /** The writer of one family of shards, BAK_0, BAK_1 and so on; the last file is the open one. */
  class ShardWriter {
    const magic: seq<byte>
    const max: int
    var files: seq<seq<byte>>
    var index: nat
    var size: nat
    var closed: bool

    ghost predicate Valid()
      reads this
    {
      && |magic| == MAGIC_LENGTH
      && |files| == index + 1
      && size == |files[index]|
      && forall k :: 0 <= k < |files| ==> magic <= files[k]
    }

    lemma MagicFits()
      requires Valid()
      ensures |magic| == MAGIC_LENGTH && forall k :: 0 <= k < |files| ==> magic <= files[k]
    {
    }

    constructor (magic: seq<byte>, max: int)
      requires |magic| == MAGIC_LENGTH
      ensures Valid() && !closed && this.magic == magic && this.max == max
      ensures files == [magic]
    {
      this.magic, this.max := magic, max;
      files, index, size, closed := [magic], 0, |magic|, false;
    }

    method Rotate()
      requires Valid()
      modifies `files, `index, `size
      ensures Valid()
      ensures files == old(files) + [magic]
    {
      index := index + 1;
      files := files + [magic];
      size := |magic|;
    }

    /** Writes p at the end of the open shard, or of a new one when the open one is in use and p would
        take it over the limit. A closed writer refuses and changes nothing. */
    method Append(p: seq<byte>) returns (r: Result<Range>)
      requires Valid()
      modifies `files, `index, `size
      ensures Valid()
      ensures r.Ok? <==> !closed
      ensures r.Ok? ==>
                && files == Appended(old(files), p, max, magic)
                && |p| <= |files[|files| - 1]|
                && r.value == PlaceOf(files, |p|)
                && r.value.length == |p|
                && if NeedsRotation(old(files), |p|, max) then r.value.file == |old(files)| && r.value.offset == MAGIC_LENGTH
                   else r.value.file == |old(files)| - 1 && r.value.offset == |old(files)[|old(files)| - 1]|
      ensures r.Ok? ==>
                var last := old(files)[|old(files)| - 1];
                files == if |last| > 4 && |last| + |p| > max then old(files) + [magic + p]
                         else old(files)[|old(files)| - 1 := last + p]
      ensures r.Err? ==> r == Err(InvalidArgument) && files == old(files)
    {
      if closed {
        return Err(InvalidArgument);
      }
      if size > |magic| && size + |p| > max {
        Rotate();
      }
      var off := size;
      files := files[index := files[index] + p];
      size := size + |p|;
      return Ok(Range(index, off, |p|));
    }

    method Close()
      requires Valid()
      modifies `closed
      ensures Valid() && closed
    {
      closed := true;
    }
  }
}
