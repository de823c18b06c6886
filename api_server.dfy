/** The decision rules inside src/api/api_server.py: classifying an archive
    as XAPK or APK from its entry names, extracting an APKPure app id from a
    link, the one-hour "not found" memory of `download_apk`, and the tiered
    matching of titles against a query in `search_modyolo`. Reading the
    archive, fetching pages and downloading are outside the model: their
    results arrive as parameters. `time.time()` is a parameter in seconds. */
module ApiServer {
  import opened Wrappers
  import opened Text
  import opened Lists

  // ------------------------------------------------------- archive file type

  /** `[n.lower() for n in names]` */
  function LowerAll(names: seq<string>): (r: seq<string>)
    ensures |r| == |names|
    ensures forall i :: 0 <= i < |names| ==> r[i] == Lower(names[i])
  {
    if names == [] then [] else [Lower(names[0])] + LowerAll(names[1..])
  }

  /** An entry that makes an archive an XAPK: an inner APK or an OBB file. */
  predicate PackagedEntry(name: string)
  {
    EndsWith(name, ".apk") || Contains(name, ".obb")
  }

  /** `detect_real_file_type`, given the archive's entry names, or `None`
      when the file cannot be read as a ZIP archive (or reading it fails). */
  function DetectRealFileType(names: Option<seq<string>>): (r: string)
  {
    match names
    case None => "apk"
    case Some(entries) =>
      var lower := LowerAll(entries);
      if "manifest.json" in lower then "xapk"
      else if (exists i :: 0 <= i < |lower| && EndsWith(lower[i], ".apk"))
              || (exists i :: 0 <= i < |lower| && Contains(lower[i], ".obb")) then "xapk"
      else if "androidmanifest.xml" in lower then "apk"
      else if "classes.dex" in lower || "resources.arsc" in lower then "apk"
      else "apk"
  }

  /** The classification in one statement: the answer is always "apk" or
      "xapk", and it is "xapk" exactly when the archive is readable and some
      entry (compared lower-cased) is `manifest.json`, ends with `.apk` or
      contains `.obb`. The later questions about `AndroidManifest.xml`,
      `classes.dex` and `resources.arsc` never change the answer. */
  lemma DetectRealFileTypeSpec(names: Option<seq<string>>)
    ensures DetectRealFileType(names) == "xapk" || DetectRealFileType(names) == "apk"
    ensures DetectRealFileType(names) == "xapk" <==>
              names.Some?
              && exists i :: 0 <= i < |names.value| &&
                   (Lower(names.value[i]) == "manifest.json" || PackagedEntry(Lower(names.value[i])))
  {
    if names.Some? {
      var lower := LowerAll(names.value);
      if "manifest.json" in lower {
        var i :| 0 <= i < |lower| && lower[i] == "manifest.json";
        assert Lower(names.value[i]) == "manifest.json";
      }
    }
  }

  /** An unreadable archive and an empty one are both taken for a plain APK. */
  lemma UnreadableIsApk()
    ensures DetectRealFileType(None) == "apk"
    ensures DetectRealFileType(Some([])) == "apk"
  {
  }

  // ------------------------------------------------------------ APKPure ids

  /** `s.strip(c)`: drop every leading and trailing `c`. */
  function StripChar(s: string, c: char): (r: string)
    ensures |r| <= |s|
    decreases |s|
  {
    if s == [] then []
    else if s[0] == c then StripChar(s[1..], c)
    else if s[|s| - 1] == c then StripChar(s[..|s| - 1], c)
    else s
  }

  /** The length of the run of `c` that `s` starts with. */
  function LeadingRun(s: string, c: char): (k: nat)
    ensures k <= |s|
  {
    if s != [] && s[0] == c then 1 + LeadingRun(s[1..], c) else 0
  }

  /** `StripChar(s, c)` is `s` with its leading run and its trailing run of
      `c` cut off: `s` is `k` `c`s, then `r`, then some `c`s, and `r` neither
      starts nor ends with `c`. */
  lemma {:induction false} StripCharSpec(s: string, c: char)
    ensures var r := StripChar(s, c);
            var k := LeadingRun(s, c);
            && k + |r| <= |s| && s[k..k + |r|] == r
            && (forall i :: 0 <= i < k ==> s[i] == c)
            && (forall i :: k + |r| <= i < |s| ==> s[i] == c)
            && (r != [] ==> r[0] != c && r[|r| - 1] != c)
    decreases |s|
  {
    if s != [] && s[0] == c {
      StripCharSpec(s[1..], c);
      var r := StripChar(s, c);
      var k := LeadingRun(s[1..], c);
      assert s[k + 1..k + 1 + |r|] == s[1..][k..k + |r|];
      forall i | 0 <= i < k + 1 ensures s[i] == c {
        if i > 0 { assert s[i] == s[1..][i - 1]; }
      }
      forall i | k + 1 + |r| <= i < |s| ensures s[i] == c {
        assert s[i] == s[1..][i - 1];
      }
    } else if s != [] && s[|s| - 1] == c {
      var init := s[..|s| - 1];
      StripCharSpec(init, c);
      assert LeadingRun(init, c) == 0;
    }
  }

  /** The host prefix `extract_app_id` removes (every occurrence, as
      `str.replace` does), when the link starts with it. */
  function StripHost(href: string): (r: string)
  {
    if StartsWith(href, "https://apkpure.com/") then RemoveAll(href, "https://apkpure.com")
    else if StartsWith(href, "https://m.apkpure.com/") then RemoveAll(href, "https://m.apkpure.com")
    else href
  }

  predicate IsSlash(c: char)
  {
    c == '/'
  }

  /** The non-empty `/`-separated segments of a path. */
  function Segments(path: string): (r: seq<string>)
  {
    NonEmpty(SplitOn(StripChar(path, '/'), IsSlash))
  }

  /** `extract_app_id`: the last path segment, when the path is absolute, has
      at least two segments, and its last one contains a dot but not the word
      "download" (in any letter case). */
  function ExtractAppId(href: string): (r: Option<string>)
    ensures r.Some? ==> r.value != [] && Contains(r.value, ".") && !Contains(Lower(r.value), "download")
    ensures r.Some? ==> forall i :: 0 <= i < |r.value| ==> r.value[i] != '/'
    ensures r.Some? ==> StartsWith(StripHost(href), "/") && |Segments(StripHost(href))| >= 2
    ensures r.Some? ==> r.value == Segments(StripHost(href))[|Segments(StripHost(href))| - 1]
  {
    var path := StripHost(href);
    if !StartsWith(path, "/") then None
    else
      var parts := Segments(path);
      if |parts| >= 2 then
        var candidate := parts[|parts| - 1];
        if Contains(Lower(candidate), "download") then None
        else if Contains(candidate, ".") then
          assert candidate in SplitOn(StripChar(path, '/'), IsSlash);
          Some(candidate)
        else None
      else None
  }

  predicate NoSlash(s: string)
  {
    forall i :: 0 <= i < |s| ==> s[i] != '/'
  }

  /** A path (a link starting with `/`) is left as it is by the host removal. */
  lemma StripHostOfPath(href: string)
    requires href != [] && href[0] == '/'
    ensures StripHost(href) == href
    ensures StartsWith(href, "/")
  {
    assert href[..1] == "/";
  }

  /** The segments of `/app/id` for slash-free, non-empty `app` and `id`. */
  lemma SegmentsOfTwo(app: string, id: string)
    requires app != [] && id != [] && NoSlash(app) && NoSlash(id)
    ensures Segments("/" + app + "/" + id) == [app, id]
  {
    var inner := app + "/" + id;
    var path := "/" + app + "/" + id;
    assert path == "/" + inner;
    assert path[1..] == inner;
    assert inner[0] == app[0] && inner[|inner| - 1] == id[|id| - 1];
    assert StripChar(path, '/') == inner;
    SplitOnPlain(id, IsSlash);
    assert inner == app + ['/'] + id;
    SplitOnAt(app, '/', id, IsSlash);
    assert SplitOn(inner, IsSlash) == [app, id];
    assert [app, id][1..] == [id];
    assert NonEmpty([id]) == [id];
  }

  /** A relative path `/app/id` whose last segment has a dot and does not name
      the download page yields that segment: the converse of the function's
      own guarantees for links of this shape. */
  lemma ExtractAppIdAccepts(app: string, id: string)
    requires app != [] && id != [] && NoSlash(app) && NoSlash(id)
    requires Contains(id, ".") && !Contains(Lower(id), "download")
    ensures ExtractAppId("/" + app + "/" + id) == Some(id)
  {
    var href := "/" + app + "/" + id;
    assert href[0] == '/';
    StripHostOfPath(href);
    SegmentsOfTwo(app, id);
    var parts := Segments(href);
    assert parts[|parts| - 1] == id;
  }

  /** The same link whose last segment names the download page is refused. */
  lemma ExtractAppIdRefusesDownload(app: string, id: string)
    requires app != [] && id != [] && NoSlash(app) && NoSlash(id)
    requires Contains(Lower(id), "download")
    ensures ExtractAppId("/" + app + "/" + id) == None
  {
    var href := "/" + app + "/" + id;
    assert href[0] == '/';
    StripHostOfPath(href);
    SegmentsOfTwo(app, id);
    var parts := Segments(href);
    assert parts[|parts| - 1] == id;
  }

  /** A single segment is not enough, however it looks. */
  lemma ExtractAppIdNeedsTwoSegments(id: string)
    requires id != [] && NoSlash(id)
    ensures ExtractAppId("/" + id) == None
  {
    var path := "/" + id;
    assert path[1..] == id;
    assert StripChar(path, '/') == id;
    SplitOnPlain(id, IsSlash);
    assert !StartsWith(path, "https://apkpure.com/");
    assert !StartsWith(path, "https://m.apkpure.com/");
  }

  /** `/app/id` has no two slashes in a row. */
  lemma NoDoubleSlash(app: string, id: string)
    requires app != [] && NoSlash(app) && NoSlash(id)
    ensures var t := "/" + app + "/" + id;
            forall i :: 0 <= i < |t| - 1 ==> t[i] != '/' || t[i + 1] != '/'
  {
    var t := "/" + app + "/" + id;
    forall i | 0 <= i < |t| - 1
      ensures t[i] != '/' || t[i + 1] != '/'
    {
      if i == 0 {
        assert t[1] == app[0];
      } else if i <= |app| {
        assert t[i] == app[i - 1];
      } else {
        assert t[i + 1] == id[i - |app| - 1];
      }
    }
  }

  /** Neither host occurs in `/app/id`: each holds "//", the path does not. */
  lemma HostAbsentFromPath(host: string, app: string, id: string)
    requires host == "https://apkpure.com" || host == "https://m.apkpure.com"
    requires app != [] && NoSlash(app) && NoSlash(id)
    ensures RemoveAll("/" + app + "/" + id, host) == "/" + app + "/" + id
  {
    var path := "/" + app + "/" + id;
    assert host[6] == '/' && host[7] == '/';
    NoDoubleSlash(app, id);
    RemoveAllAbsent(path, host);
  }

  /** Host removal turns `host/app/id` into `/app/id`. */
  lemma StripHostOnHost(host: string, app: string, id: string)
    requires host == "https://apkpure.com" || host == "https://m.apkpure.com"
    requires app != [] && NoSlash(app) && NoSlash(id)
    ensures StripHost(host + "/" + app + "/" + id) == "/" + app + "/" + id
  {
    var path := "/" + app + "/" + id;
    var href := host + "/" + app + "/" + id;
    assert href == host + path;
    assert href[..|host|] == host;
    assert href[..|host| + 1] == host + "/";
    HostAbsentFromPath(host, app, id);
    if host == "https://m.apkpure.com" {
      assert href[8] == 'm';
      assert !StartsWith(href, "https://apkpure.com/");
    }
  }

  /** `extract_app_id` only looks at the link once its host is removed. */
  lemma ExtractAppIdOfStripped(href: string)
    requires StripHost(StripHost(href)) == StripHost(href)
    ensures ExtractAppId(href) == ExtractAppId(StripHost(href))
  {
  }

  /** A link on either APKPure host, `https://apkpure.com/app/id` or
      `https://m.apkpure.com/app/id`, is read like the relative `/app/id`. */
  lemma ExtractAppIdOnHost(host: string, app: string, id: string)
    requires host == "https://apkpure.com" || host == "https://m.apkpure.com"
    requires app != [] && id != [] && NoSlash(app) && NoSlash(id)
    requires Contains(id, ".") && !Contains(Lower(id), "download")
    ensures ExtractAppId(host + "/" + app + "/" + id) == Some(id)
  {
    var path := "/" + app + "/" + id;
    StripHostOnHost(host, app, id);
    assert path[0] == '/';
    StripHostOfPath(path);
    ExtractAppIdOfStripped(host + "/" + app + "/" + id);
    ExtractAppIdAccepts(app, id);
  }

  /** A link that neither starts with `/` nor with an APKPure host is
      refused, whatever follows. */
  lemma ExtractAppIdNeedsAbsolutePath(href: string)
    requires !StartsWith(href, "/")
    requires !StartsWith(href, "https://apkpure.com/") && !StartsWith(href, "https://m.apkpure.com/")
    ensures ExtractAppId(href) == None
  {
  }

  // ---------------------------------------------------- not-found memory

  const NotFoundCacheTtl: real := 3600.0

  /** What the downloaders produce for a package that is not on disk. */
  datatype DownloadOutcome = ServedFromDisk | Downloaded(path: string) | Failed

  datatype ApkResponse = NotFoundCached | NotFound | File(fromDisk: bool)

  /** The guard at the top of `download_apk`: a package remembered as missing
      for less than an hour is refused; an older memory is forgotten. */
  function CheckNotFound(cache: map<string, real>, pkg: string, now: real): (r: (bool, map<string, real>))
  {
    if pkg in cache then
      if now - cache[pkg] < NotFoundCacheTtl then (true, cache) else (false, cache - {pkg})
    else (false, cache)
  }

  /** `download_apk` as far as the not-found memory is concerned. `failedAt` is
      the second clock reading, taken when every downloader has failed. */
  function DownloadApkFlow(cache: map<string, real>, pkg: string, now: real, outcome: DownloadOutcome, failedAt: real)
    : (r: (ApkResponse, map<string, real>))
  {
    var (refused, kept) := CheckNotFound(cache, pkg, now);
    if refused then (NotFoundCached, kept)
    else match outcome
      case Failed => (NotFound, kept[pkg := failedAt])
      case ServedFromDisk => (File(true), kept)
      case Downloaded(_) => (File(false), kept)
  }

  class NotFoundCache {
    var notFound: map<string, real>

    constructor ()
      ensures notFound == map[]
    {
      notFound := map[];
    }

    method DownloadApk(pkg: string, now: real, outcome: DownloadOutcome, failedAt: real) returns (response: ApkResponse)
      modifies this
      ensures (response, notFound) == DownloadApkFlow(old(notFound), pkg, now, outcome, failedAt)
    {
      if pkg in notFound {
        if now - notFound[pkg] < NotFoundCacheTtl {
          return NotFoundCached;
        } else {
          notFound := notFound - {pkg};
        }
      }
      if outcome.Failed? {
        notFound := notFound[pkg := failedAt];
        return NotFound;
      }
      return File(outcome.ServedFromDisk?);
    }
  }

  /** A package remembered as missing less than an hour ago is refused
      whatever the downloaders would do, and the memory is not changed. A
      request that gets past the guard and fails is remembered at `failedAt`;
      one that succeeds leaves no memory of the package. Other packages are
      never touched. */
  lemma DownloadApkFlowSpec(cache: map<string, real>, pkg: string, now: real, outcome: DownloadOutcome,
                            other: DownloadOutcome, failedAt: real, otherPkg: string)
    ensures pkg in cache && now - cache[pkg] < 3600.0 ==>
              DownloadApkFlow(cache, pkg, now, outcome, failedAt) == (NotFoundCached, cache)
              && DownloadApkFlow(cache, pkg, now, other, failedAt) == DownloadApkFlow(cache, pkg, now, outcome, failedAt)
    ensures !(pkg in cache && now - cache[pkg] < 3600.0) && outcome == Failed ==>
              var (r, after) := DownloadApkFlow(cache, pkg, now, outcome, failedAt);
              r == NotFound && pkg in after && after[pkg] == failedAt
    ensures !(pkg in cache && now - cache[pkg] < 3600.0) && outcome != Failed ==>
              var (r, after) := DownloadApkFlow(cache, pkg, now, outcome, failedAt);
              r.File? && pkg !in after
    ensures otherPkg != pkg ==>
              var after := DownloadApkFlow(cache, pkg, now, outcome, failedAt).1;
              (otherPkg in after <==> otherPkg in cache) && (otherPkg in cache ==> after[otherPkg] == cache[otherPkg])
  {
  }

  /** After a recorded failure, every request for the package in the next hour
      is refused without a download attempt. */
  lemma FailureIsRememberedForAnHour(cache: map<string, real>, pkg: string, now: real, failedAt: real,
                                     later: real, outcome: DownloadOutcome, laterFailedAt: real)
    requires !(pkg in cache && now - cache[pkg] < NotFoundCacheTtl)
    requires later - failedAt < NotFoundCacheTtl
    ensures var after := DownloadApkFlow(cache, pkg, now, Failed, failedAt).1;
            DownloadApkFlow(after, pkg, later, outcome, laterFailedAt) == (NotFoundCached, after)
  {
  }

  // ---------------------------------------------------------- MODYOLO search

  /** One scraped app; `titleLower` is the lower-cased clean title. */
  datatype ModApp = ModApp(title: string, url: string, icon: string, version: string, size: string,
                           modInfo: string, originalTitle: string, titleLower: string)

  /** An app as returned: `title_lower` removed, the title marked as modded. */
  datatype ModResult = ModResult(title: string, url: string, icon: string, version: string, size: string,
                                 modInfo: string, originalTitle: string)

  /** " (مهكرة)" */
  const ModdedSuffix: string := " (\U{645}\U{647}\U{643}\U{631}\U{629})"

  predicate AllWordsIn(words: seq<string>, title: string)
  {
    forall i :: 0 <= i < |words| ==> Contains(title, words[i])
  }

  predicate AnyWordIn(words: seq<string>, title: string)
  {
    exists i :: 0 <= i < |words| && Contains(title, words[i])
  }

  /** The test `c in b` of the generator below. */
  function OccursIn(b: string): char -> bool
  {
    (ch: char) => ch in b
  }

  /** How many characters of `a` occur somewhere in `b`
      (`sum(1 for c in a if c in b)`), counted with repetition. */
  function CommonChars(a: string, b: string): (r: nat)
    ensures r == |Filter(a, OccursIn(b))|
  {
    if a == [] then 0 else (if a[0] in b then 1 else 0) + CommonChars(a[1..], b)
  }

  /** `is_similar` with its 0.7 threshold compared exactly. */
  predicate IsSimilar(a: string, b: string)
  {
    if Contains(b, a) || Contains(a, b) then true
    else if |a| < 3 || |b| < 3 then a == b
    else 10 * CommonChars(a, b) >= 7 * (if |a| >= |b| then |a| else |b|)
  }

  predicate SimilarToSome(word: string, titleWords: seq<string>)
  {
    exists j :: 0 <= j < |titleWords| && IsSimilar(word, titleWords[j])
  }

  predicate AnySimilar(words: seq<string>, title: string)
  {
    exists k :: 0 <= k < |words| && SimilarToSome(words[k], Words(title))
  }

  /** Whether the third tier appends `app` to `matching`. After the inner loop
      over the first query word the code checks `app in matching`, which an
      equal app appended earlier also satisfies; so an app whose first similar
      query word is not the first one is appended only if no equal app already
      was. */
  predicate FuzzyAdds(matching: seq<ModApp>, app: ModApp, words: seq<string>)
  {
    (|words| > 0 && SimilarToSome(words[0], Words(app.titleLower)))
    || (app !in matching && AnySimilar(words, app.titleLower))
  }

  function FuzzyMatches(apps: seq<ModApp>, words: seq<string>): (r: seq<ModApp>)
  {
    if apps == [] then []
    else
      var prev := FuzzyMatches(apps[..|apps| - 1], words);
      var app := apps[|apps| - 1];
      if FuzzyAdds(prev, app, words) then prev + [app] else prev
  }

  /** The tests of the three tiers, each written once. */
  function AllWordsTest(words: seq<string>): ModApp -> bool
  {
    (a: ModApp) => AllWordsIn(words, a.titleLower)
  }

  function AnyWordTest(words: seq<string>): ModApp -> bool
  {
    (a: ModApp) => AnyWordIn(words, a.titleLower)
  }

  function SimilarTest(words: seq<string>): ModApp -> bool
  {
    (a: ModApp) => AnySimilar(words, a.titleLower)
  }

  function AllWordsFilter(apps: seq<ModApp>, words: seq<string>): seq<ModApp>
  {
    Filter(apps, AllWordsTest(words))
  }

  function AnyWordFilter(apps: seq<ModApp>, words: seq<string>): seq<ModApp>
  {
    Filter(apps, AnyWordTest(words))
  }

  /** The `matching` list: tier one, else tier two, else tier three. */
  function Matching(apps: seq<ModApp>, words: seq<string>): seq<ModApp>
  {
    var all := AllWordsFilter(apps, words);
    if all != [] then all
    else
      var any := AnyWordFilter(apps, words);
      if any != [] then any else FuzzyMatches(apps, words)
  }

  /** `matching[:num_results]` with Python's handling of a negative bound. */
  function TakePrefix<T>(s: seq<T>, n: int): (r: seq<T>)
  {
    if n >= 0 then (if n < |s| then s[..n] else s)
    else (if |s| + n > 0 then s[..|s| + n] else [])
  }

  function AsResult(app: ModApp): (r: ModResult)
  {
    ModResult(app.title + ModdedSuffix, app.url, app.icon, app.version, app.size, app.modInfo, app.originalTitle)
  }

  lemma FilterStep<T>(s: seq<T>, i: nat, keep: T -> bool)
    requires i < |s|
    ensures Filter(s[..i + 1], keep) == Filter(s[..i], keep) + (if keep(s[i]) then [s[i]] else [])
  {
    assert s[..i + 1] == s[..i] + [s[i]];
    FilterAppend(s[..i], [s[i]], keep);
  }

  method AllWordsTier(apps: seq<ModApp>, words: seq<string>) returns (matching: seq<ModApp>)
    ensures matching == AllWordsFilter(apps, words)
  {
    matching := [];
    for i := 0 to |apps|
      invariant matching == AllWordsFilter(apps[..i], words)
    {
      FilterStep(apps, i, AllWordsTest(words));
      if AllWordsIn(words, apps[i].titleLower) {
        matching := matching + [apps[i]];
      }
    }
    assert apps[..|apps|] == apps;
  }

  method AnyWordTier(apps: seq<ModApp>, words: seq<string>) returns (matching: seq<ModApp>)
    ensures matching == AnyWordFilter(apps, words)
  {
    matching := [];
    for i := 0 to |apps|
      invariant matching == AnyWordFilter(apps[..i], words)
    {
      FilterStep(apps, i, AnyWordTest(words));
      if AnyWordIn(words, apps[i].titleLower) {
        matching := matching + [apps[i]];
      }
    }
    assert apps[..|apps|] == apps;
  }

  /** The nested loops of the third tier for one app. */
  method FuzzyStep(matching: seq<ModApp>, app: ModApp, words: seq<string>) returns (r: seq<ModApp>)
    ensures r == if FuzzyAdds(matching, app, words) then matching + [app] else matching
  {
    r := matching;
    var titleWords := Words(app.titleLower);
    var q := 0;
    while q < |words|
      invariant 0 <= q <= |words|
      invariant r == matching
      invariant forall k :: 0 <= k < q ==> !SimilarToSome(words[k], titleWords)
      invariant q > 0 ==> app !in matching
    {
      var hit := false;
      var t := 0;
      while t < |titleWords|
        invariant 0 <= t <= |titleWords|
        invariant forall j :: 0 <= j < t ==> !IsSimilar(words[q], titleWords[j])
      {
        if IsSimilar(words[q], titleWords[t]) {
          hit := true;
          break;
        }
        t := t + 1;
      }
      if hit {
        r := r + [app];
        return;
      }
      if app in r {
        return;
      }
      q := q + 1;
    }
  }

  method FuzzyTier(apps: seq<ModApp>, words: seq<string>) returns (matching: seq<ModApp>)
    ensures matching == FuzzyMatches(apps, words)
  {
    matching := [];
    for i := 0 to |apps|
      invariant matching == FuzzyMatches(apps[..i], words)
    {
      assert apps[..i + 1][..i] == apps[..i];
      matching := FuzzyStep(matching, apps[i], words);
    }
    assert apps[..|apps|] == apps;
  }

  /** `search_modyolo` after the scraping: match the scraped apps against the
      query's words, cap, and mark the titles. An empty match gives []. */
  method SearchModyolo(query: string, apps: seq<ModApp>, numResults: int) returns (results: seq<ModResult>)
    ensures var capped := TakePrefix(Matching(apps, Words(Lower(query))), numResults);
            |results| == |capped| && forall j :: 0 <= j < |results| ==> results[j] == AsResult(capped[j])
  {
    var words := Words(Lower(query));
    var matching := AllWordsTier(apps, words);
    if matching == [] {
      matching := AnyWordTier(apps, words);
    }
    if matching == [] {
      matching := FuzzyTier(apps, words);
    }
    if matching == [] {
      return [];
    }
    var capped := TakePrefix(matching, numResults);
    results := [];
    for j := 0 to |capped|
      invariant |results| == j
      invariant forall k :: 0 <= k < j ==> results[k] == AsResult(capped[k])
    {
      results := results + [AsResult(capped[j])];
    }
  }

  /** Every fuzzy match is one of the scraped apps. */
  lemma {:induction false} FuzzyMatchesFromApps(apps: seq<ModApp>, words: seq<string>)
    ensures forall x :: x in FuzzyMatches(apps, words) ==> x in apps
  {
    if apps != [] {
      FuzzyMatchesFromApps(apps[..|apps| - 1], words);
    }
  }

  /** Scraped apps are never equal (each has its own URL), and then the third
      tier is plainly the apps with some query word similar to some title
      word, in their order. */
  lemma {:induction false} FuzzyMatchesOfDistinct(apps: seq<ModApp>, words: seq<string>)
    requires forall i, j :: 0 <= i < j < |apps| ==> apps[i] != apps[j]
    ensures FuzzyMatches(apps, words) == Filter(apps, SimilarTest(words))
  {
    if apps != [] {
      var init := apps[..|apps| - 1];
      var last := apps[|apps| - 1];
      FuzzyMatchesOfDistinct(init, words);
      FuzzyMatchesFromApps(init, words);
      assert last !in init;
      assert apps == init + [last];
      FilterAppend(init, [last], SimilarTest(words));
      if |words| > 0 && SimilarToSome(words[0], Words(last.titleLower)) {
        assert AnySimilar(words, last.titleLower);
      }
    }
  }

  /** An app passes a tier's filter exactly when it is scraped and passes that tier's test. */
  lemma TierMembers(apps: seq<ModApp>, words: seq<string>, x: ModApp)
    ensures x in AllWordsFilter(apps, words) <==> x in apps && AllWordsIn(words, x.titleLower)
    ensures x in AnyWordFilter(apps, words) <==> x in apps && AnyWordIn(words, x.titleLower)
  {
    FilterMembers(apps, AllWordsTest(words), x);
    FilterMembers(apps, AnyWordTest(words), x);
  }

  /** The first tier wins: when some title holds every query word, exactly
      those apps match. */
  lemma AllWordsTierWins(apps: seq<ModApp>, words: seq<string>, i: int)
    requires 0 <= i < |apps| && AllWordsIn(words, apps[i].titleLower)
    ensures Matching(apps, words) == AllWordsFilter(apps, words)
  {
    TierMembers(apps, words, apps[i]);
  }

  /** Otherwise, when some title holds a query word, exactly those apps match. */
  lemma AnyWordTierWins(apps: seq<ModApp>, words: seq<string>, i: int)
    requires forall k :: 0 <= k < |apps| ==> !AllWordsIn(words, apps[k].titleLower)
    requires 0 <= i < |apps| && AnyWordIn(words, apps[i].titleLower)
    ensures Matching(apps, words) == AnyWordFilter(apps, words)
  {
    TierMembers(apps, words, apps[i]);
    if AllWordsFilter(apps, words) != [] {
      TierMembers(apps, words, AllWordsFilter(apps, words)[0]);
    }
  }

  /** Only when no title holds any word of a non-empty query, the fuzzy
      tier decides. */
  lemma FuzzyTierDecides(apps: seq<ModApp>, words: seq<string>)
    requires words != []
    requires forall k :: 0 <= k < |apps| ==> !AnyWordIn(words, apps[k].titleLower)
    ensures Matching(apps, words) == FuzzyMatches(apps, words)
  {
    if AllWordsFilter(apps, words) != [] {
      TierMembers(apps, words, AllWordsFilter(apps, words)[0]);
    }
    if AnyWordFilter(apps, words) != [] {
      TierMembers(apps, words, AnyWordFilter(apps, words)[0]);
    }
  }

  /** A query with no words matches every scraped app. */
  lemma EmptyQueryMatchesAll(apps: seq<ModApp>)
    ensures Matching(apps, []) == apps
  {
    FilterKeepsAll(apps, AllWordsTest([]));
  }

  /** Every match is one of the scraped apps. */
  lemma MatchesAreScraped(apps: seq<ModApp>, words: seq<string>, x: ModApp)
    requires x in Matching(apps, words)
    ensures x in apps
  {
    TierMembers(apps, words, x);
    FuzzyMatchesFromApps(apps, words);
  }

  /** The returned list has at most `num_results` entries (for a non-negative
      bound), and each is a matched app with " (مهكرة)" appended to its title. */
  lemma ResultsSpec(matching: seq<ModApp>, numResults: int)
    ensures numResults >= 0 ==> |TakePrefix(matching, numResults)| <= numResults
    ensures |TakePrefix(matching, numResults)| <= |matching|
    ensures TakePrefix(matching, numResults) == matching[..|TakePrefix(matching, numResults)|]
    ensures forall j :: 0 <= j < |TakePrefix(matching, numResults)| ==>
              EndsWith(AsResult(TakePrefix(matching, numResults)[j]).title, ModdedSuffix)
              && AsResult(TakePrefix(matching, numResults)[j]).url == matching[j].url
  {
    forall j | 0 <= j < |TakePrefix(matching, numResults)|
      ensures EndsWith(AsResult(TakePrefix(matching, numResults)[j]).title, ModdedSuffix)
    {
      var t := AsResult(TakePrefix(matching, numResults)[j]).title;
      assert t[|t| - |ModdedSuffix|..] == ModdedSuffix;
    }
  }
}
