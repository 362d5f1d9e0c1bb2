/**
 * `CacheManager` of the environment manager (env_manager/cache.py): a metadata table
 * of cached packages, keyed by a checksum of `package@version`, beside the files of
 * the cache directory.
 *
 * The checksum (MD5 in the program) is a function given to the manager; nothing is
 * assumed about it, not even that it is injective. The cache directory is a map
 * from entry names to what they are; the working directory recorded with each
 * package is a parameter.
 */
module Cache {

  import opened Values
  import opened Utils

  /** The name of the metadata file inside the cache directory. */
  const MetadataFile: string := "metadata.json"

  /** An entry of the cache directory: a file with its size in bytes, or a directory. */
  datatype Entry = File(size: nat) | Directory

  /** The metadata stored for one cached package. */
  datatype CacheRecord = CacheRecord(package: string, version: Option<string>, cachedAt: Path)

  /** What `get_cache_info` reports. */
  datatype CacheInfo = CacheInfo(totalPackages: nat, totalSize: nat, cacheDir: Path)

  /** Whether a version is given at all: None and the empty string are both "no version". */
  predicate HasVersion(version: Option<string>)
  {
    version.Some? && version.value != ""
  }

  /** The string `_calculate_checksum` hashes: `package@version`, or the bare package. */
  function CacheKey(package: string, version: Option<string>): (key: string)
    ensures |package| <= |key| && key[..|package|] == package
    ensures HasVersion(version) ==> |key| == |package| + 1 + |version.value| && key[|package|] == '@'
    ensures HasVersion(version) ==> key[|package| + 1..] == version.value
    ensures !HasVersion(version) ==> key == package
  {
    if HasVersion(version) then package + "@" + version.value else package
  }

  /**
   * For package names without `@` the key determines the package and the version,
   * where None and "" count as the same version.
   */
  lemma {:induction false} CacheKeyInjective(p1: string, v1: Option<string>, p2: string, v2: Option<string>)
    requires '@' !in p1 && '@' !in p2
    ensures CacheKey(p1, v1) == CacheKey(p2, v2) <==>
      p1 == p2 && HasVersion(v1) == HasVersion(v2) && (HasVersion(v1) ==> v1.value == v2.value)
  {
    var k1, k2 := CacheKey(p1, v1), CacheKey(p2, v2);
    if k1 == k2 {
      if HasVersion(v1) && HasVersion(v2) {
        if |p1| != |p2| {
          assert false;
        }
        assert p1 == k1[..|p1|] == p2;
        assert v1.value == k1[|p1| + 1..] == v2.value;
      } else if HasVersion(v1) || HasVersion(v2) {
        assert false;
      }
    }
  }

  /** `is_cached` over a metadata table: the checksum of the key is a metadata key. */
  predicate Cached(metadata: map<string, CacheRecord>, checksum: string -> string, package: string, version: Option<string>)
  {
    checksum(CacheKey(package, version)) in metadata
  }

  /** `None` and `""` name the same cache entry. */
  lemma {:induction false} EmptyVersionIsNoVersion(metadata: map<string, CacheRecord>, checksum: string -> string, package: string)
    ensures Cached(metadata, checksum, package, Some("")) == Cached(metadata, checksum, package, None)
  {
  }

  /**
   * The metadata after `cache_package`: the package is cached, whatever was cached
   * stays cached, and a package whose checksum differs keeps its record.
   */
  lemma {:induction false} CachingAddsOnlyItsEntry(metadata: map<string, CacheRecord>, checksum: string -> string,
                                                   package: string, version: Option<string>, cwd: Path,
                                                   other: string, otherVersion: Option<string>)
    ensures var m := metadata[checksum(CacheKey(package, version)) := CacheRecord(package, version, cwd)];
      && Cached(m, checksum, package, version)
      && m[checksum(CacheKey(package, version))] == CacheRecord(package, version, cwd)
      && (Cached(metadata, checksum, other, otherVersion) ==> Cached(m, checksum, other, otherVersion))
      && (checksum(CacheKey(other, otherVersion)) != checksum(CacheKey(package, version)) ==>
            Cached(m, checksum, other, otherVersion) == Cached(metadata, checksum, other, otherVersion)
            && (Cached(m, checksum, other, otherVersion) ==>
                  m[checksum(CacheKey(other, otherVersion))] == metadata[checksum(CacheKey(other, otherVersion))]))
  {
  }

  /** Whether an entry counts towards the cache size: a file other than the metadata file. */
  predicate Counted(files: map<string, Entry>, name: string)
  {
    name in files && files[name].File? && name != MetadataFile
  }

  /** The size an entry contributes: its size when it counts, and nothing otherwise. */
  function SizeOfEntry(files: map<string, Entry>, name: string): nat
  {
    if Counted(files, name) then files[name].size else 0
  }

  /** The total size of the counted entries among `names`, taken in any order. */
  ghost function SizeOf(files: map<string, Entry>, names: set<string>): nat
    decreases names
  {
    if names == {} then 0
    else
      var n :| n in names;
      SizeOfEntry(files, n) + SizeOf(files, names - {n})
  }

  /** The sum does not depend on which entry is taken first. */
  lemma {:induction false} SizeOfRemove(files: map<string, Entry>, names: set<string>, n: string)
    requires n in names
    ensures SizeOf(files, names) == SizeOfEntry(files, n) + SizeOf(files, names - {n})
    decreases names
  {
    var m :| m in names && SizeOf(files, names) == SizeOfEntry(files, m) + SizeOf(files, names - {m});
    if m != n {
      SizeOfRemove(files, names - {m}, n);
      SizeOfRemove(files, names - {n}, m);
      assert names - {m} - {n} == names - {n} - {m};
    }
  }

  /** The size `get_cache_info` reports: every file of the directory except the metadata file. */
  ghost function TotalSize(files: map<string, Entry>): nat
  {
    SizeOf(files, files.Keys)
  }

  /** The directory after `clear_cache`: its sub-directories and the metadata file. */
  function Cleared(files: map<string, Entry>): (r: map<string, Entry>)
    ensures forall n :: n in r <==> n in files && !Counted(files, n)
    ensures forall n :: n in r ==> r[n] == files[n]
  {
    map n | n in files && !Counted(files, n) :: files[n]
  }

  /** Names of which none counts add nothing. */
  lemma {:induction false} NothingCountedIsEmpty(files: map<string, Entry>, names: set<string>)
    requires forall n :: n in names ==> !Counted(files, n)
    ensures SizeOf(files, names) == 0
    decreases names
  {
    if names != {} {
      var n :| n in names;
      SizeOfRemove(files, names, n);
      NothingCountedIsEmpty(files, names - {n});
    }
  }

  /** After `clear_cache` the directory holds no bytes that `get_cache_info` counts. */
  lemma {:induction false} ClearedIsEmpty(files: map<string, Entry>)
    ensures TotalSize(Cleared(files)) == 0
  {
    var r := Cleared(files);
    forall n | n in r.Keys
      ensures !Counted(r, n)
    {
    }
    NothingCountedIsEmpty(r, r.Keys);
  }

  /** With an empty metadata table nothing is cached, whatever the package and version. */
  lemma {:induction false} EmptyMetadataCachesNothing(checksum: string -> string, package: string, version: Option<string>)
    ensures !Cached(map[], checksum, package, version)
  {
  }

  class CacheManager {
    const cacheDir: Path
    const checksum: string -> string
    var files: map<string, Entry>
    var metadata: map<string, CacheRecord>

    /**
     * `__init__`: the directory is `cache_dir`, or `~/.pyspace/cache`; `existing` is what
     * it holds once created. A metadata file there is loaded (`saved` is its table);
     * without one the table starts empty and an empty metadata file is written.
     */
    constructor (cacheDir: Option<Path>, home: Path, checksum: string -> string,
                 existing: map<string, Entry>, saved: map<string, CacheRecord>)
      ensures this.cacheDir == (if cacheDir.Some? then cacheDir.value else home + [".pyspace", "cache"])
      ensures this.checksum == checksum
      ensures MetadataFile in existing ==> files == existing && metadata == saved
      ensures MetadataFile !in existing ==> files == existing[MetadataFile := File(0)] && metadata == map[]
    {
      this.cacheDir := if cacheDir.Some? then cacheDir.value else home + [".pyspace", "cache"];
      this.checksum := checksum;
      if MetadataFile in existing {
        files := existing;
        metadata := saved;
      } else {
        files := existing[MetadataFile := File(0)];
        metadata := map[];
      }
    }

    /** `is_cached`: whether the checksum of the package's key is in the metadata. */
    function IsCached(package: string, version: Option<string>): (r: bool)
      reads this
      ensures r == Cached(metadata, checksum, package, version)
    {
      checksum(CacheKey(package, version)) in metadata
    }

    /** `cache_package`: records the package under its checksum, replacing any earlier record. */
    method CachePackage(package: string, version: Option<string>, cwd: Path)
      modifies this
      ensures metadata == old(metadata)[checksum(CacheKey(package, version)) := CacheRecord(package, version, cwd)]
      ensures files == old(files)
    {
      metadata := metadata[checksum(CacheKey(package, version)) := CacheRecord(package, version, cwd)];
    }

    /**
     * `clear_cache`: deletes every file of the directory except the metadata file,
     * then empties the metadata table.
     */
    method ClearCache()
      modifies this
      ensures files == Cleared(old(files))
      ensures metadata == map[]
    {
      var remaining := files.Keys;
      ghost var before := files;
      while remaining != {}
        invariant remaining <= before.Keys
        invariant forall n :: n in files <==> n in before && (n in remaining || !Counted(before, n))
        invariant forall n :: n in files ==> files[n] == before[n]
        decreases remaining
      {
        var name :| name in remaining;
        if files[name].File? && name != MetadataFile {
          files := files - {name};
        }
        remaining := remaining - {name};
      }
      metadata := map[];
    }

    /** `prune_cache`: only logs; nothing in the cache changes. */
    method PruneCache(maxAgeDays: int)
      ensures files == old(files) && metadata == old(metadata)
    {
    }

    /**
     * `get_cache_info`: the number of metadata records, the summed size of every file
     * except the metadata file, and the directory.
     */
    method GetCacheInfo() returns (info: CacheInfo)
      ensures info.totalPackages == |metadata|
      ensures info.totalSize == TotalSize(files)
      ensures info.cacheDir == cacheDir
    {
      var entries := files;
      var remaining := entries.Keys;
      var total := 0;
      while remaining != {}
        invariant remaining <= entries.Keys
        invariant total + SizeOf(entries, remaining) == TotalSize(entries)
        decreases remaining
      {
        var name :| name in remaining;
        SizeOfRemove(entries, remaining, name);
        if entries[name].File? && name != MetadataFile {
          total := total + entries[name].size;
        }
        remaining := remaining - {name};
      }
      info := CacheInfo(|metadata|, total, cacheDir);
    }
  }
}
