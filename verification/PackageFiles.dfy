/** The files of a package directory: their names, and clearing them. */
module PackageFiles {
  import opened Decimals

  const INDEX_NAME := "Backup.db"

  datatype Kind = Text | Media

  function Suffix(kind: Kind): string {
    match kind
    case Text => "_TEXT"
    case Media => "_MEDIA"
  }

  /** The name of shard number n. */
  function ShardName(n: nat, kind: Kind): string {
    "BAK_" + StringOf(DigitsOf(n)) + Suffix(kind)
  }

  predicate EndsWith(s: string, suffix: string) {
    |s| >= |suffix| && s[|s| - |suffix|..] == suffix
  }

  /** The test by which clearing recognises a shard. */
  predicate IsShardName(name: string) {
    && |name| >= 10 && name[..4] == "BAK_"
    && (EndsWith(name, "_TEXT") || EndsWith(name, "_MEDIA"))
  }

  predicate IsPackageFile(name: string) {
    name == INDEX_NAME || name == INDEX_NAME + "-wal" || name == INDEX_NAME + "-shm" || IsShardName(name)
  }

  /** In terms of the name: something between the prefix and the suffix of a text shard, or anything between
      those of a media shard. */
  lemma ShardNamesAre(name: string)
    ensures IsShardName(name) <==>
              || (exists m: string :: m != [] && name == "BAK_" + m + "_TEXT")
              || (exists m: string :: name == "BAK_" + m + "_MEDIA")
  {
    if IsShardName(name) {
      assert name[..4] == "BAK_";
      if EndsWith(name, "_TEXT") {
        var m := name[4..|name| - 5];
        assert name == "BAK_" + m + "_TEXT";
      } else {
        var m := name[4..|name| - 6];
        assert name == "BAK_" + m + "_MEDIA";
      }
    } else {
      forall m: string | m != [] ensures name != "BAK_" + m + "_TEXT" {
        ShardWith(m, "_TEXT");
      }
      forall m: string ensures name != "BAK_" + m + "_MEDIA" {
        ShardWith(m, "_MEDIA");
      }
    }
  }

  lemma ShardWith(m: string, suffix: string)
    requires (suffix == "_TEXT" && m != []) || suffix == "_MEDIA"
    ensures IsShardName("BAK_" + m + suffix)
  {
    var name := "BAK_" + m + suffix;
    assert name[..4] == "BAK_" && name[|name| - |suffix|..] == suffix;
  }

  /** What the files are called: the number in decimal between prefix and suffix. */
  lemma ShardNamed(n: nat)
    ensures ShardName(n, Text) == "BAK_" + StringOf(FormatInt(n)) + "_TEXT"
    ensures ShardName(n, Media) == "BAK_" + StringOf(FormatInt(n)) + "_MEDIA"
  {
    FormattedPlainly(n);
  }

  lemma SameDigits(m: nat, n: nat)
    requires StringOf(DigitsOf(m)) == StringOf(DigitsOf(n))
    ensures m == n
  {
    var a, b := DigitsOf(m), DigitsOf(n);
    assert forall i :: 0 <= i < |a| ==> StringOf(a)[i] as int == a[i] && StringOf(b)[i] as int == b[i];
    assert a == b;
    DigitsHaveValue(m);
    DigitsHaveValue(n);
  }

  /** Shards never share a file, and clearing recognises every one of them. */
  lemma ShardsHaveOwnFiles(m: nat, k: Kind, n: nat, l: Kind)
    ensures ShardName(m, k) == ShardName(n, l) <==> m == n && k == l
    ensures IsShardName(ShardName(m, k)) && ShardName(m, k) != INDEX_NAME
  {
    ShardIsShard(m, k);
    if ShardName(m, k) == ShardName(n, l) {
      SameKind(m, k, n, l);
      var s := ShardName(m, k);
      assert s[4..|s| - |Suffix(k)|] == StringOf(DigitsOf(m)) && s[4..|s| - |Suffix(k)|] == StringOf(DigitsOf(n));
      SameDigits(m, n);
    }
  }

  lemma ShardIsShard(m: nat, k: Kind)
    ensures IsShardName(ShardName(m, k)) && ShardName(m, k)[0] == 'B' && ShardName(m, k)[1] == 'A'
  {
    var s := ShardName(m, k);
    assert s[..4] == "BAK_";
    assert s[|s| - |Suffix(k)|..] == Suffix(k);
  }

  lemma SameKind(m: nat, k: Kind, n: nat, l: Kind)
    requires ShardName(m, k) == ShardName(n, l)
    ensures k == l
  {
    var s := ShardName(m, k);
    assert s[|s| - 1] == Suffix(k)[|Suffix(k)| - 1];
    assert s[|s| - 1] == Suffix(l)[|Suffix(l)| - 1];
  }

  /** Removes the package files one by one and leaves everything else. */
  method ClearPackageFiles<F>(files: map<string, F>) returns (left: map<string, F>)
    ensures forall name :: name in left <==> name in files && !IsPackageFile(name)
    ensures forall name :: name in left ==> left[name] == files[name]
    ensures "Backup.db" !in left && "Backup.db-wal" !in left && "Backup.db-shm" !in left
    ensures forall n: nat, kind :: ShardName(n, kind) !in left
    ensures forall name :: name in files && (|name| < 4 || (name[..4] != "BAK_" && name[..4] != "Back")) ==> name in left
  {
    forall n: nat, kind ensures IsShardName(ShardName(n, kind)) {
      ShardIsShard(n, kind);
    }
    assert INDEX_NAME + "-wal" == "Backup.db-wal" && INDEX_NAME + "-shm" == "Backup.db-shm";
    assert INDEX_NAME[..4] == "Back" && (INDEX_NAME + "-wal")[..4] == "Back" && (INDEX_NAME + "-shm")[..4] == "Back";
    left := files;
    var names := files.Keys;
    while names != {}
      invariant names <= files.Keys
      invariant forall name :: name in left <==> name in files && (name in names || !IsPackageFile(name))
      invariant forall name :: name in left ==> left[name] == files[name]
      decreases names
    {
      var name :| name in names;
      names := names - {name};
      if IsPackageFile(name) {
        left := left - {name};
      }
    }
  }
}
