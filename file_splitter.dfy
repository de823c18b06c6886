/** The parts cache and the download/split coordinator of
    src/utils/file-splitter.js. The staging directory is a map from path to
    bytes, the module-level `partsCache` Map is a map from cache key to entry,
    the clock is an explicit `now`, and the two timers (the deferred expiry
    that `setCachedParts` schedules and the one-minute `clearExpiredCache`
    interval) are methods the environment calls. */
module FileSplitter {
  import opened Wrappers
  import opened Text
  import opened SplitPlan

  /** CACHE_TTL: two minutes, in milliseconds. */
  const CacheTtl: int := 120000
  /** The deferred expiry of `setCachedParts` is scheduled CACHE_TTL + 5000 ms later. */
  const ExpiryDelay: nat := 125000

  type FileSystem = map<string, seq<byte>>

  /** A value of `partsCache`. */
  datatype CacheEntry = CacheEntry(parts: seq<Part>, totalSize: nat, originalName: string, timestamp: nat)

  /** The staging directory together with the parts cache. */
  datatype SplitterState = SplitterState(files: FileSystem, cache: map<string, CacheEntry>)

  /** What the external downloader (aria2) produced: the bytes of the staged
      file, or a failure (non-zero exit, or no file afterwards). */
  datatype FetchOutcome = Fetched(content: seq<byte>) | FetchFailed

  datatype SplitError = FetchError | NoSuchFile

  /** The two shapes of the object `splitFileFromUrl` resolves to
      (`needsSplit: false` and `needsSplit: true`). */
  datatype Delivery =
    | Whole(filePath: string, fileSize: nat)
    | Split(parts: seq<Part>, totalSize: nat, originalName: string, fromCache: bool)

  /** A pending `setTimeout` callback: which key it looks at and when it is due. */
  datatype DeferredExpiry = DeferredExpiry(key: string, fireAt: nat)

  predicate Expired(e: CacheEntry, now: nat)
  {
    now - e.timestamp >= CacheTtl
  }

  predicate AllPartsExist(parts: seq<Part>, files: FileSystem)
  {
    forall i :: 0 <= i < |parts| ==> parts[i].path in files
  }

  function PathsOf(parts: seq<Part>): set<string>
  {
    set i | 0 <= i < |parts| :: parts[i].path
  }

  /** `path.join(TEMP_DIR, `${Date.now()}_${filename}`)`, where `downloadWithAria2` stages a download. */
  function StagedPath(filename: string, now: nat): string
  {
    TempDir + "/" + Decimal(now) + "_" + filename
  }

  /** The staged file lies in the staging directory, and for a slash-free
      name its file name is the timestamp, `_` and the name, which is the
      base name `splitFile` later gives its parts. */
  lemma StagedPathBasename(filename: string, now: nat)
    ensures StagedPath(filename, now)[..|TempDir| + 1] == TempDir + "/"
    ensures '/' !in filename ==> Basename(StagedPath(filename, now)) == Decimal(now) + "_" + filename
  {
    assert StagedPath(filename, now) == TempDir + "/" + (Decimal(now) + "_" + filename);
    if '/' !in filename {
      assert forall i :: 0 <= i < |Decimal(now)| ==> IsDigit(Decimal(now)[i]);
      BasenameOfJoin(TempDir, Decimal(now) + "_" + filename);
    }
  }

  /** `getCachedParts`: a hit needs a fresh entry whose part files all exist;
      on a miss any entry under the key is dropped (its files are not touched). */
  function Lookup(s: SplitterState, key: string, now: nat): (SplitterState, Option<CacheEntry>)
  {
    if key in s.cache && !Expired(s.cache[key], now) && AllPartsExist(s.cache[key].parts, s.files)
    then (s, Some(s.cache[key]))
    else (s.(cache := s.cache - {key}), None)
  }

  /** `setCachedParts`: the entry under the key is replaced. */
  function Store(s: SplitterState, key: string, entry: CacheEntry): SplitterState
  {
    s.(cache := s.cache[key := entry])
  }

  /** The callback `setCachedParts` schedules: it looks at whatever entry is
      under the key when it fires, and removes it and its part files only if
      that entry is at least CACHE_TTL old. */
  function FireExpiry(s: SplitterState, key: string, now: nat): SplitterState
  {
    if key in s.cache && Expired(s.cache[key], now)
    then SplitterState(s.files - PathsOf(s.cache[key].parts), s.cache - {key})
    else s
  }

  /** The part files of the entries under `keys` that are expired at `now`. */
  ghost function ExpiredPaths(cache: map<string, CacheEntry>, now: nat, keys: set<string>): set<string>
  {
    set k, i | k in keys && k in cache && Expired(cache[k], now) && 0 <= i < |cache[k].parts| :: cache[k].parts[i].path
  }

  /** `clearExpiredCache`: every expired entry is removed together with its
      part files; the others stay. */
  ghost function Sweep(s: SplitterState, now: nat): SplitterState
  {
    SplitterState(s.files - ExpiredPaths(s.cache, now, s.cache.Keys),
                  map k | k in s.cache && !Expired(s.cache[k], now) :: s.cache[k])
  }

  /** The staging directory after the first `k` parts have been written. */
  function WriteParts(files: FileSystem, baseName: string, file: seq<byte>, chunkSize: nat, k: nat): FileSystem
    requires chunkSize > 0 && k <= NumParts(|file|, chunkSize)
  {
    if k == 0 then files
    else WriteParts(files, baseName, file, chunkSize, k - 1)[PartPath(baseName, k) := Chunk(file, chunkSize, k - 1)]
  }

  /** The staging directory after the download staged at `temp` has been cut
      into parts and unlinked. */
  function SplitStaged(files: FileSystem, temp: string, content: seq<byte>): FileSystem
  {
    WriteParts(files[temp := content], Basename(temp), content, SplitChunkSize, NumParts(|content|, SplitChunkSize)) - {temp}
  }

  /** `splitFileFromUrl` as a function of the state before the call. `now` is
      the clock when the call starts (it also names the staged file),
      `finishedAt` the clock when the result is cached, `fetched` what the
      downloader delivers if it is asked. */
  function Obtain(s: SplitterState, key: string, filename: string, now: nat, finishedAt: nat,
                  fetched: FetchOutcome): (SplitterState, Result<Delivery, SplitError>)
  {
    var (s1, hit) := Lookup(s, key, now);
    if hit.Some? then
      (s1, Ok(Split(hit.value.parts, hit.value.totalSize, hit.value.originalName, true)))
    else if fetched.FetchFailed? then
      (s1, Err(FetchError))
    else
      var content := fetched.content;
      var temp := StagedPath(filename, now);
      var files1 := s1.files[temp := content];
      if !NeedsSplitting(|content|) then
        (s1.(files := files1), Ok(Whole(temp, |content|)))
      else
        var parts := Plan(Basename(temp), |content|, SplitChunkSize);
        (SplitterState(SplitStaged(s1.files, temp, content), s1.cache[key := CacheEntry(parts, |content|, filename, finishedAt)]),
         Ok(Split(parts, |content|, filename, false)))
  }

  class Splitter {
    var files: FileSystem
    var partsCache: map<string, CacheEntry>
    /** `getCacheKey`: the MD5 hex digest of the URL. Only its determinism
        matters; two URLs with the same digest share an entry. */
    const cacheKey: string -> string

    function State(): SplitterState
      reads this
    {
      SplitterState(files, partsCache)
    }

    constructor (initialFiles: FileSystem, cacheKey: string -> string)
      ensures State() == SplitterState(initialFiles, map[])
      ensures this.cacheKey == cacheKey
    {
      files := initialFiles;
      partsCache := map[];
      this.cacheKey := cacheKey;
    }

    method GetCachedParts(url: string, now: nat) returns (cached: Option<CacheEntry>)
      modifies this
      ensures (State(), cached) == Lookup(old(State()), cacheKey(url), now)
    {
      var key := cacheKey(url);
      if key in partsCache {
        var entry := partsCache[key];
        if now - entry.timestamp < CacheTtl && AllPartsExist(entry.parts, files) {
          return Some(entry);
        }
        partsCache := partsCache - {key};
      } else {
        assert partsCache - {key} == partsCache;
      }
      return None;
    }

    /** Stores the entry stamped `now` and returns the timer it arms. */
    method SetCachedParts(url: string, parts: seq<Part>, totalSize: nat, originalName: string, now: nat)
      returns (timer: DeferredExpiry)
      modifies this
      ensures State() == Store(old(State()), cacheKey(url), CacheEntry(parts, totalSize, originalName, now))
      ensures timer == DeferredExpiry(cacheKey(url), now + ExpiryDelay)
    {
      var key := cacheKey(url);
      partsCache := partsCache[key := CacheEntry(parts, totalSize, originalName, now)];
      timer := DeferredExpiry(key, now + ExpiryDelay);
    }

    /** The `setTimeout` callback of `setCachedParts`, fired at `now`. */
    method FireDeferredExpiry(key: string, now: nat)
      modifies this
      ensures State() == FireExpiry(old(State()), key, now)
    {
      if key in partsCache && now - partsCache[key].timestamp >= CacheTtl {
        CleanupParts(partsCache[key].parts);
        partsCache := partsCache - {key};
      }
    }

    /** `cleanupParts`: unlinks the listed paths that exist, and nothing else. */
    method CleanupParts(parts: seq<Part>)
      modifies this
      ensures files == old(files) - PathsOf(parts)
      ensures partsCache == old(partsCache)
    {
      var i := 0;
      while i < |parts|
        invariant 0 <= i <= |parts|
        invariant files == old(files) - PathsOf(parts[..i])
        invariant partsCache == old(partsCache)
      {
        assert PathsOf(parts[..i + 1]) == PathsOf(parts[..i]) + {parts[i].path} by {
          assert forall j :: 0 <= j < i ==> parts[..i + 1][j] == parts[..i][j];
        }
        if parts[i].path in files {
          files := files - {parts[i].path};
        }
        i := i + 1;
      }
      assert parts[..i] == parts;
    }

    /** `cleanupPartsIfNotCached`: deletes nothing while the URL's key is cached. */
    method CleanupPartsIfNotCached(parts: seq<Part>, url: string)
      modifies this
      ensures cacheKey(url) in old(partsCache) ==> files == old(files)
      ensures cacheKey(url) !in old(partsCache) ==> files == old(files) - PathsOf(parts)
      ensures partsCache == old(partsCache)
    {
      var key := cacheKey(url);
      if key !in partsCache {
        CleanupParts(parts);
      }
    }

    /** `clearExpiredCache`, run by the one-minute interval at `now`. */
    method ClearExpiredCache(now: nat)
      modifies this
      ensures State() == Sweep(old(State()), now)
    {
      var keys := partsCache.Keys;
      ghost var cache0 := partsCache;
      while keys != {}
        invariant keys <= cache0.Keys
        invariant partsCache == map k | k in cache0 && (k in keys || !Expired(cache0[k], now)) :: cache0[k]
        invariant files == old(files) - ExpiredPaths(cache0, now, cache0.Keys - keys)
        decreases keys
      {
        var k :| k in keys;
        var entry := partsCache[k];
        ExpiredPathsAdd(cache0, now, cache0.Keys - keys, k);
        assert cache0.Keys - (keys - {k}) == (cache0.Keys - keys) + {k};
        if now - entry.timestamp >= CacheTtl {
          CleanupParts(entry.parts);
          partsCache := partsCache - {k};
        }
        keys := keys - {k};
      }
      assert cache0.Keys - keys == cache0.Keys;
    }

    /** `splitFile`: cuts the file at `filePath` into `ceil(size / chunkSize)`
        part files in the staging directory and returns their descriptors.
        A missing file is the error `fs.statSync` throws. */
    method SplitFile(filePath: string, chunkSize: nat) returns (r: Result<seq<Part>, SplitError>)
      requires chunkSize > 0
      modifies this
      ensures partsCache == old(partsCache)
      ensures filePath !in old(files) ==> r == Err(NoSuchFile) && files == old(files)
      ensures filePath in old(files) ==>
                var file := old(files)[filePath];
                && r == Ok(Plan(Basename(filePath), |file|, chunkSize))
                && files == WriteParts(old(files), Basename(filePath), file, chunkSize, NumParts(|file|, chunkSize))
    {
      if filePath !in files {
        return Err(NoSuchFile);
      }
      var parts := WritePartFiles(files[filePath], Basename(filePath), chunkSize);
      return Ok(parts);
    }

    /** The loop of `splitFile`: turn `i` appends the descriptor of part
        `i + 1` and writes the bytes `[i * chunkSize, min(i * chunkSize + chunkSize, size))`
        to its path. */
    method WritePartFiles(file: seq<byte>, baseName: string, chunkSize: nat) returns (parts: seq<Part>)
      requires chunkSize > 0
      modifies this
      ensures partsCache == old(partsCache)
      ensures parts == Plan(baseName, |file|, chunkSize)
      ensures files == WriteParts(old(files), baseName, file, chunkSize, NumParts(|file|, chunkSize))
    {
      var fileSize := |file|;
      var numParts := NumParts(fileSize, chunkSize);
      parts := [];
      for i := 0 to numParts
        invariant |parts| == i
        invariant forall k :: 0 <= k < i ==> parts[k] == PartAt(baseName, fileSize, chunkSize, k)
        invariant files == WriteParts(old(files), baseName, file, chunkSize, i)
        invariant partsCache == old(partsCache)
      {
        var partInfo := PartAt(baseName, fileSize, chunkSize, i);
        PartsExtend(baseName, fileSize, chunkSize, parts);
        WriteStep(old(files), baseName, file, chunkSize, i);
        parts := parts + [partInfo];
        files := files[partInfo.path := Chunk(file, chunkSize, i)];
      }
      PlanByElements(baseName, fileSize, chunkSize, parts);
    }

    /** What `downloadWithAria2` leaves behind: on success one file, named
        after the clock and the requested name, holding the fetched bytes. */
    method Fetch(filename: string, now: nat, fetched: FetchOutcome) returns (r: Result<string, SplitError>)
      modifies this
      ensures fetched.Fetched? ==> r == Ok(StagedPath(filename, now))
                                   && files == old(files)[StagedPath(filename, now) := fetched.content]
      ensures fetched.FetchFailed? ==> r == Err(FetchError) && files == old(files)
      ensures partsCache == old(partsCache)
    {
      if fetched.FetchFailed? {
        return Err(FetchError);
      }
      var tempPath := StagedPath(filename, now);
      files := files[tempPath := fetched.content];
      return Ok(tempPath);
    }

    /** `splitFileFromUrl`: cache hit, else fetch, threshold check, split,
        unlink the staged file, cache. On a fresh split it also returns the
        deferred expiry it armed. */
    method SplitFileFromUrl(url: string, filename: string, now: nat, finishedAt: nat, fetched: FetchOutcome)
      returns (r: Result<Delivery, SplitError>, timer: Option<DeferredExpiry>)
      modifies this
      ensures (State(), r) == Obtain(old(State()), cacheKey(url), filename, now, finishedAt, fetched)
      ensures timer == if r.Ok? && r.value.Split? && !r.value.fromCache
                       then Some(DeferredExpiry(cacheKey(url), finishedAt + ExpiryDelay)) else None
    {
      var cached := GetCachedParts(url, now);
      if cached.Some? {
        return Ok(Split(cached.value.parts, cached.value.totalSize, cached.value.originalName, true)), None;
      }
      var staged := Fetch(filename, now, fetched);
      if staged.Err? {
        return Err(FetchError), None;
      }
      var tempPath := staged.value;
      var size := |files[tempPath]|;
      if !NeedsSplitting(size) {
        return Ok(Whole(tempPath, size)), None;
      }
      var split := SplitFile(tempPath, SplitChunkSize);
      assert split.Ok?;
      var parts := split.value;
      files := files - {tempPath};
      var t := SetCachedParts(url, parts, size, filename, finishedAt);
      return Ok(Split(parts, size, filename, false)), Some(t);
    }
  }

  lemma WriteStep(files: FileSystem, baseName: string, file: seq<byte>, chunkSize: nat, i: nat)
    requires chunkSize > 0 && i < NumParts(|file|, chunkSize)
    ensures WriteParts(files, baseName, file, chunkSize, i + 1)
            == WriteParts(files, baseName, file, chunkSize, i)[PartPath(baseName, i + 1) := Chunk(file, chunkSize, i)]
  {
  }

  lemma PartsExtend(baseName: string, fileSize: nat, chunkSize: nat, parts: seq<Part>)
    requires chunkSize > 0 && |parts| < NumParts(fileSize, chunkSize)
    requires forall k :: 0 <= k < |parts| ==> parts[k] == PartAt(baseName, fileSize, chunkSize, k)
    ensures var next := parts + [PartAt(baseName, fileSize, chunkSize, |parts|)];
            forall k :: 0 <= k < |next| ==> next[k] == PartAt(baseName, fileSize, chunkSize, k)
  {
  }

  lemma PlanByElements(baseName: string, fileSize: nat, chunkSize: nat, parts: seq<Part>)
    requires chunkSize > 0 && |parts| == NumParts(fileSize, chunkSize)
    requires forall k :: 0 <= k < |parts| ==> parts[k] == PartAt(baseName, fileSize, chunkSize, k)
    ensures parts == Plan(baseName, fileSize, chunkSize)
  {
  }

  lemma ExpiredPathsAdd(cache: map<string, CacheEntry>, now: nat, keys: set<string>, k: string)
    requires k in cache
    ensures ExpiredPaths(cache, now, keys + {k}) ==
            ExpiredPaths(cache, now, keys) + (if Expired(cache[k], now) then PathsOf(cache[k].parts) else {})
  {
  }

  /** After writing `k` parts, part path `i` holds chunk `i - 1`. */
  lemma {:induction false} WrittenPartHolds(files: FileSystem, baseName: string, file: seq<byte>,
                                            chunkSize: nat, k: nat, i: nat)
    requires chunkSize > 0 && k <= NumParts(|file|, chunkSize) && 1 <= i <= k
    ensures PartPath(baseName, i) in WriteParts(files, baseName, file, chunkSize, k)
    ensures WriteParts(files, baseName, file, chunkSize, k)[PartPath(baseName, i)] == Chunk(file, chunkSize, i - 1)
  {
    if i < k {
      PartPathsDiffer(baseName, i, k);
      WrittenPartHolds(files, baseName, file, chunkSize, k - 1, i);
    }
  }

  /** Writing `k` parts leaves every other path as it was. */
  lemma {:induction false} WritingKeepsOthers(files: FileSystem, baseName: string, file: seq<byte>,
                                              chunkSize: nat, k: nat, p: string)
    requires chunkSize > 0 && k <= NumParts(|file|, chunkSize)
    requires p in files && forall i :: 1 <= i <= k ==> p != PartPath(baseName, i)
    ensures p in WriteParts(files, baseName, file, chunkSize, k)
    ensures WriteParts(files, baseName, file, chunkSize, k)[p] == files[p]
  {
    if k > 0 {
      WritingKeepsOthers(files, baseName, file, chunkSize, k - 1, p);
    }
  }

  /** A split result, fresh or cached, is in the cache afterwards with all its
      part files present; a fresh one is stamped with `finishedAt`. */
  lemma SplitResultIsCached(s: SplitterState, key: string, filename: string, now: nat, finishedAt: nat,
                            fetched: FetchOutcome)
    requires Obtain(s, key, filename, now, finishedAt, fetched).1.Ok?
    requires Obtain(s, key, filename, now, finishedAt, fetched).1.value.Split?
    ensures var (s1, r) := Obtain(s, key, filename, now, finishedAt, fetched);
            && key in s1.cache
            && s1.cache[key].parts == r.value.parts
            && s1.cache[key].totalSize == r.value.totalSize
            && s1.cache[key].originalName == r.value.originalName
            && AllPartsExist(r.value.parts, s1.files)
            && (!r.value.fromCache ==> s1.cache[key].timestamp == finishedAt)
  {
    var (s1, r) := Obtain(s, key, filename, now, finishedAt, fetched);
    if !r.value.fromCache {
      var temp := StagedPath(filename, now);
      var parts := Plan(Basename(temp), |fetched.content|, SplitChunkSize);
      assert s1.files == SplitStaged(Lookup(s, key, now).0.files, temp, fetched.content);
      assert r.value.parts == parts;
      forall i | 0 <= i < |parts|
        ensures parts[i].path in s1.files
      {
        StagedPartHolds(Lookup(s, key, now).0.files, temp, fetched.content, i);
      }
    }
  }

  /** Part `i` of a staged download is in the directory after the split, holding chunk `i`. */
  lemma StagedPartHolds(files: FileSystem, temp: string, content: seq<byte>, i: nat)
    requires i < NumParts(|content|, SplitChunkSize)
    ensures var part := Plan(Basename(temp), |content|, SplitChunkSize)[i];
            && part.path in SplitStaged(files, temp, content)
            && SplitStaged(files, temp, content)[part.path] == Chunk(content, SplitChunkSize, i)
  {
    var b := Basename(temp);
    var n := NumParts(|content|, SplitChunkSize);
    var written := WriteParts(files[temp := content], b, content, SplitChunkSize, n);
    var path := PartPath(b, i + 1);
    assert Plan(b, |content|, SplitChunkSize)[i].path == path;
    assert SplitStaged(files, temp, content) == written - {temp};
    WrittenPartHolds(files[temp := content], b, content, SplitChunkSize, n, i + 1);
    PartPathIsNotSource(temp, i + 1);
  }

  /** Cache idempotence: a second call for the same URL less than CACHE_TTL
      after a fresh split is served from the cache with the same parts, leaves
      the state as it is and does not depend on what a fetch would deliver. */
  lemma RepeatWithinTtlIsCacheHit(s: SplitterState, key: string, filename: string, now: nat, finishedAt: nat,
                                  fetched: FetchOutcome, filename2: string, now2: nat, finishedAt2: nat,
                                  fetched2: FetchOutcome)
    requires Obtain(s, key, filename, now, finishedAt, fetched).1.Ok?
    requires Obtain(s, key, filename, now, finishedAt, fetched).1.value.Split?
    requires !Obtain(s, key, filename, now, finishedAt, fetched).1.value.fromCache
    requires now2 - finishedAt < CacheTtl
    ensures var (s1, r) := Obtain(s, key, filename, now, finishedAt, fetched);
            Obtain(s1, key, filename2, now2, finishedAt2, fetched2)
              == (s1, Ok(Split(r.value.parts, r.value.totalSize, r.value.originalName, true)))
  {
    SplitResultIsCached(s, key, filename, now, finishedAt, fetched);
  }

  /** A hit is answered from the entry alone: no fetch, no change of state. */
  lemma HitNeverFetches(s: SplitterState, key: string, filename: string, now: nat, finishedAt: nat,
                        fetched: FetchOutcome)
    requires key in s.cache && !Expired(s.cache[key], now) && AllPartsExist(s.cache[key].parts, s.files)
    ensures Obtain(s, key, filename, now, finishedAt, fetched)
              == (s, Ok(Split(s.cache[key].parts, s.cache[key].totalSize, s.cache[key].originalName, true)))
  {
  }

  /** Reading back the parts of a staged download in part order gives its bytes. */
  lemma StagedReadBack(files: FileSystem, temp: string, content: seq<byte>, parts: seq<Part>, f: FileSystem)
    requires parts == Plan(Basename(temp), |content|, SplitChunkSize)
    requires f == SplitStaged(files, temp, content)
    ensures AllPartsExist(parts, f)
    ensures Concat(seq(|parts|, i requires 0 <= i < |parts| => f[parts[i].path])) == content
  {
    StagedPartsHold(files, temp, content, parts, f);
    ReadsInOrder(parts, f, Chunks(content, SplitChunkSize));
    ChunksReassemble(content, SplitChunkSize);
  }

  /** Reading the parts' paths in order gives the contents they hold. */
  lemma ReadsInOrder(parts: seq<Part>, f: FileSystem, contents: seq<seq<byte>>)
    requires |parts| == |contents|
    requires forall i :: 0 <= i < |parts| ==> parts[i].path in f && f[parts[i].path] == contents[i]
    ensures seq(|parts|, i requires 0 <= i < |parts| => f[parts[i].path]) == contents
  {
  }

  /** Every part of a staged download holds its chunk after the split. */
  lemma StagedPartsHold(files: FileSystem, temp: string, content: seq<byte>, parts: seq<Part>, f: FileSystem)
    requires parts == Plan(Basename(temp), |content|, SplitChunkSize)
    requires f == SplitStaged(files, temp, content)
    ensures |parts| == |Chunks(content, SplitChunkSize)|
    ensures forall i :: 0 <= i < |parts| ==> parts[i].path in f && f[parts[i].path] == Chunks(content, SplitChunkSize)[i]
  {
    forall i | 0 <= i < |parts|
      ensures parts[i].path in f && f[parts[i].path] == Chunks(content, SplitChunkSize)[i]
    {
      StagedPartHolds(files, temp, content, i);
    }
  }

  /** Round trip through the coordinator: after a fresh split, the part files,
      read in part order, concatenate to the downloaded bytes. */
  lemma FreshSplitReassembles(s: SplitterState, key: string, filename: string, now: nat, finishedAt: nat,
                              fetched: FetchOutcome)
    requires Obtain(s, key, filename, now, finishedAt, fetched).1.Ok?
    requires Obtain(s, key, filename, now, finishedAt, fetched).1.value.Split?
    requires !Obtain(s, key, filename, now, finishedAt, fetched).1.value.fromCache
    ensures var (s1, r) := Obtain(s, key, filename, now, finishedAt, fetched);
            && AllPartsExist(r.value.parts, s1.files)
            && Concat(seq(|r.value.parts|, i requires 0 <= i < |r.value.parts| => s1.files[r.value.parts[i].path]))
               == fetched.content
  {
    var (s1, r) := Obtain(s, key, filename, now, finishedAt, fetched);
    var content := fetched.content;
    var temp := StagedPath(filename, now);
    var parts := r.value.parts;
    assert parts == Plan(Basename(temp), |content|, SplitChunkSize);
    assert s1.files == SplitStaged(Lookup(s, key, now).0.files, temp, content);
    StagedReadBack(Lookup(s, key, now).0.files, temp, content, parts, s1.files);
  }

  /** On a miss (no entry, an expired one, or one with a missing part file) a
      download below the threshold is handed back whole: the staged file stays,
      the stale entry is dropped and nothing new is cached. */
  lemma SmallDownloadIsWhole(s: SplitterState, key: string, filename: string, now: nat, finishedAt: nat,
                             content: seq<byte>)
    requires Lookup(s, key, now).1.None?
    requires |content| < 2040109466
    ensures var (s1, r) := Obtain(s, key, filename, now, finishedAt, Fetched(content));
            && r == Ok(Whole(StagedPath(filename, now), |content|))
            && s1.cache == s.cache - {key}
            && s1.files == s.files[StagedPath(filename, now) := content]
  {
  }

  /** The deferred expiry of an entry that was not replaced removes the entry
      and its part files. */
  lemma DeferredExpiryRemovesEntry(s: SplitterState, key: string, entry: CacheEntry)
    ensures FireExpiry(Store(s, key, entry), key, entry.timestamp + ExpiryDelay)
              == SplitterState(s.files - PathsOf(entry.parts), s.cache - {key})
  {
    assert Store(s, key, entry).cache - {key} == s.cache - {key};
  }

  /** A store made after an earlier one under the same key survives the earlier
      store's deferred expiry when it is younger than CACHE_TTL at that time. */
  lemma DeferredExpirySparesNewerEntry(s: SplitterState, key: string, first: CacheEntry, second: CacheEntry)
    requires first.timestamp + ExpiryDelay - second.timestamp < CacheTtl
    ensures var s2 := Store(Store(s, key, first), key, second);
            FireExpiry(s2, key, first.timestamp + ExpiryDelay) == s2
  {
  }

  /** Cache expiry: once the sweep has run after CACHE_TTL, the entry and its
      part files are gone and the next call for the URL goes to the downloader. */
  lemma SweepThenRefetch(s: SplitterState, key: string, now: nat, filename: string, later: nat,
                         finishedAt: nat)
    requires key in s.cache && Expired(s.cache[key], now)
    ensures key !in Sweep(s, now).cache
    ensures PathsOf(s.cache[key].parts) !! Sweep(s, now).files.Keys
    ensures Obtain(Sweep(s, now), key, filename, later, finishedAt, FetchFailed).1 == Err(FetchError)
  {
    forall p | p in PathsOf(s.cache[key].parts)
      ensures p in ExpiredPaths(s.cache, now, s.cache.Keys)
    {
      var i :| 0 <= i < |s.cache[key].parts| && s.cache[key].parts[i].path == p;
      assert s.cache[key].parts[i].path in ExpiredPaths(s.cache, now, s.cache.Keys);
    }
  }

  /** A lookup that finds an expired entry drops the entry but leaves its part
      files, and the entry's own deferred expiry then finds nothing to delete. */
  lemma ExpiredLookupKeepsFiles(s: SplitterState, key: string, now: nat, later: nat)
    requires key in s.cache && Expired(s.cache[key], now)
    ensures var s1 := Lookup(s, key, now).0;
            && key !in s1.cache
            && s1.files == s.files
            && FireExpiry(s1, key, later) == s1
  {
  }

  /** A sweep keeps exactly the entries younger than CACHE_TTL and removes
      only part files of expired entries. */
  lemma SweepKeepsYoungEntries(s: SplitterState, now: nat, key: string, p: string)
    ensures key in Sweep(s, now).cache <==> key in s.cache && !Expired(s.cache[key], now)
    ensures key in Sweep(s, now).cache ==> Sweep(s, now).cache[key] == s.cache[key]
    ensures (p in s.files && forall k :: k in s.cache && Expired(s.cache[k], now) ==> p !in PathsOf(s.cache[k].parts))
              ==> p in Sweep(s, now).files && Sweep(s, now).files[p] == s.files[p]
  {
  }
}
