/** The in-memory record stores of src/storage.js. Each exported object
    becomes a class whose fields are the arrays and objects the source
    mutates; `saveJson` is a snapshot of those fields and has no effect on
    them, and every clock reading (`new Date().toISOString()`) is a
    parameter. A field that a loaded JSON file may lack is represented by the
    falsy value the code falls back to (an empty string, zero or an empty
    list), which the queries treat the same way. */
module Storage {
  import opened Wrappers
  import opened Text
  import opened Lists

  // ---------------------------------------------------------------- blocklist

  datatype BlockRecord = BlockRecord(phone: string, reason: string, blockedAt: string)

  /** `blocked.some(b => b.phone === phone)` */
  predicate HasPhone(records: seq<BlockRecord>, phone: string)
  {
    exists i :: 0 <= i < |records| && records[i].phone == phone
  }

  predicate PhonesDistinct(records: seq<BlockRecord>)
  {
    forall i, j :: 0 <= i < j < |records| ==> records[i].phone != records[j].phone
  }

  /** `blocklist.add`: a record is appended only for a phone not yet listed. */
  function AddBlock(records: seq<BlockRecord>, phone: string, reason: string, blockedAt: string): seq<BlockRecord>
  {
    if HasPhone(records, phone) then records else records + [BlockRecord(phone, reason, blockedAt)]
  }

  /** `blocklist.remove`: `blocked.filter(b => b.phone !== phone)`. */
  function WithoutPhone(records: seq<BlockRecord>, phone: string): seq<BlockRecord>
  {
    Filter(records, (r: BlockRecord) => r.phone != phone)
  }

  class Blocklist {
    var blocked: seq<BlockRecord>

    constructor (loaded: seq<BlockRecord>)
      ensures blocked == loaded
    {
      blocked := loaded;
    }

    function IsBlocked(phone: string): bool
      reads this
    {
      HasPhone(blocked, phone)
    }

    method Add(phone: string, reason: string, blockedAt: string)
      modifies this
      ensures blocked == AddBlock(old(blocked), phone, reason, blockedAt)
    {
      if !IsBlocked(phone) {
        blocked := blocked + [BlockRecord(phone, reason, blockedAt)];
      }
    }

    method Remove(phone: string)
      modifies this
      ensures blocked == WithoutPhone(old(blocked), phone)
    {
      blocked := WithoutPhone(blocked, phone);
    }

    function Count(): nat
      reads this
    {
      |blocked|
    }
  }

  /** After `add` the phone is blocked; the list grows by one record only when
      the phone was not listed, and it never gains a duplicate phone. */
  lemma AddBlockSpec(records: seq<BlockRecord>, phone: string, reason: string, blockedAt: string)
    ensures HasPhone(AddBlock(records, phone, reason, blockedAt), phone)
    ensures HasPhone(records, phone) ==> AddBlock(records, phone, reason, blockedAt) == records
    ensures |AddBlock(records, phone, reason, blockedAt)| == |records| + (if HasPhone(records, phone) then 0 else 1)
    ensures PhonesDistinct(records) ==> PhonesDistinct(AddBlock(records, phone, reason, blockedAt))
  {
    if !HasPhone(records, phone) {
      var r := records + [BlockRecord(phone, reason, blockedAt)];
      assert r[|records|].phone == phone;
    }
  }

  /** `HasPhone` of a filtered list: some kept record carries the phone. */
  lemma HasPhoneWithout(records: seq<BlockRecord>, phone: string, other: string)
    ensures HasPhone(WithoutPhone(records, phone), other) <==> other != phone && HasPhone(records, other)
  {
    var keep := (r: BlockRecord) => r.phone != phone;
    var kept := WithoutPhone(records, phone);
    if HasPhone(kept, other) {
      var i :| 0 <= i < |kept| && kept[i].phone == other;
      FilterMembers(records, keep, kept[i]);
      var j :| 0 <= j < |records| && records[j] == kept[i];
    }
    if other != phone && HasPhone(records, other) {
      var j :| 0 <= j < |records| && records[j].phone == other;
      FilterMembers(records, keep, records[j]);
      var i :| 0 <= i < |kept| && kept[i] == records[j];
    }
  }

  /** After `remove` the phone is not blocked, every other phone is blocked
      exactly when it was, and the kept records stay in their order (removal
      distributes over concatenation). */
  lemma RemoveSpec(records: seq<BlockRecord>, more: seq<BlockRecord>, phone: string, other: string)
    ensures !HasPhone(WithoutPhone(records, phone), phone)
    ensures other != phone ==> (HasPhone(WithoutPhone(records, phone), other) <==> HasPhone(records, other))
    ensures WithoutPhone(records + more, phone) == WithoutPhone(records, phone) + WithoutPhone(more, phone)
    ensures !HasPhone(records, phone) ==> WithoutPhone(records, phone) == records
  {
    HasPhoneWithout(records, phone, phone);
    HasPhoneWithout(records, phone, other);
    FilterAppend(records, more, (r: BlockRecord) => r.phone != phone);
    if !HasPhone(records, phone) {
      FilterKeepsAll(records, (r: BlockRecord) => r.phone != phone);
    }
  }

  /** Removing a phone right after adding it restores the list, when the
      phone was not listed before. */
  lemma RemoveUndoesAdd(records: seq<BlockRecord>, phone: string, reason: string, blockedAt: string)
    requires !HasPhone(records, phone)
    ensures WithoutPhone(AddBlock(records, phone, reason, blockedAt), phone) == records
  {
    var keep := (r: BlockRecord) => r.phone != phone;
    FilterAppend(records, [BlockRecord(phone, reason, blockedAt)], keep);
    FilterKeepsAll(records, keep);
  }

  // -------------------------------------------------------------------- users

  datatype User = User(phone: string, name: string, createdAt: string, lastActive: string)

  /** The index `users.find(u => u.phone === phone)` stops at. */
  function FindIndex(users: seq<User>, phone: string): (r: Option<nat>)
    ensures r.Some? ==> r.value < |users| && users[r.value].phone == phone
                        && forall j :: 0 <= j < r.value ==> users[j].phone != phone
    ensures r.None? ==> forall j :: 0 <= j < |users| ==> users[j].phone != phone
  {
    if users == [] then None
    else if users[0].phone == phone then Some(0)
    else match FindIndex(users[1..], phone)
      case None => None
      case Some(i) => Some(i + 1)
  }

  /** `users.get`: the first record for the phone, if any. */
  function FindUser(users: seq<User>, phone: string): Option<User>
  {
    match FindIndex(users, phone)
    case None => None
    case Some(i) => Some(users[i])
  }

  /** `users.update`: refresh the first record for the phone (keeping the old
      name when the new one is empty), or append a new one. */
  function UpdateUser(users: seq<User>, phone: string, name: string, now: string): seq<User>
  {
    match FindIndex(users, phone)
    case Some(i) =>
      users[i := users[i].(name := if name != "" then name else users[i].name, lastActive := now)]
    case None =>
      users + [User(phone, name, now, now)]
  }

  predicate UserPhonesDistinct(users: seq<User>)
  {
    forall i, j :: 0 <= i < j < |users| ==> users[i].phone != users[j].phone
  }

  class Users {
    var users: seq<User>

    constructor (loaded: seq<User>)
      ensures users == loaded
    {
      users := loaded;
    }

    function Get(phone: string): Option<User>
      reads this
    {
      FindUser(users, phone)
    }

    method Update(phone: string, name: string, now: string)
      modifies this
      ensures users == UpdateUser(old(users), phone, name, now)
    {
      var existing := FindIndex(users, phone);
      if existing.Some? {
        var i := existing.value;
        var u := users[i];
        users := users[i := u.(name := if name != "" then name else u.name, lastActive := now)];
      } else {
        users := users + [User(phone, name, now, now)];
      }
    }

    function Count(): nat
      reads this
    {
      |users|
    }
  }

  /** What `get` returns after `update`: the phone's record, active at `now`,
      named by the new name unless that is empty, created at the old time if
      it existed. The list grows only for a new phone. */
  lemma UpdateThenGet(users: seq<User>, phone: string, name: string, now: string)
    ensures var after := FindUser(UpdateUser(users, phone, name, now), phone);
            var before := FindUser(users, phone);
            && after.Some?
            && after.value.phone == phone
            && after.value.lastActive == now
            && after.value.name == (if name != "" then name else if before.Some? then before.value.name else "")
            && after.value.createdAt == (if before.Some? then before.value.createdAt else now)
    ensures |UpdateUser(users, phone, name, now)| == |users| + (if FindUser(users, phone).None? then 1 else 0)
  {
    var updated := UpdateUser(users, phone, name, now);
    match FindIndex(users, phone)
    case Some(i) =>
      assert FindIndex(updated, phone) == Some(i) by {
        FindIndexIsFirst(updated, phone, i);
      }
    case None =>
      assert FindIndex(updated, phone) == Some(|users|) by {
        FindIndexIsFirst(updated, phone, |users|);
      }
  }

  /** `FindIndex` stops at the first index carrying the phone. */
  lemma {:induction false} FindIndexIsFirst(users: seq<User>, phone: string, i: nat)
    requires i < |users| && users[i].phone == phone
    requires forall j :: 0 <= j < i ==> users[j].phone != phone
    ensures FindIndex(users, phone) == Some(i)
  {
    if i > 0 {
      FindIndexIsFirst(users[1..], phone, i - 1);
    }
  }

  /** `update` of one phone leaves what `get` returns for every other phone. */
  lemma UpdateLeavesOthers(users: seq<User>, phone: string, name: string, now: string, other: string)
    requires other != phone
    ensures FindUser(UpdateUser(users, phone, name, now), other) == FindUser(users, other)
  {
    var updated := UpdateUser(users, phone, name, now);
    match FindIndex(users, other)
    case Some(k) =>
      FindIndexIsFirst(updated, other, k);
    case None =>
      assert forall j :: 0 <= j < |updated| ==> updated[j].phone != other;
      assert FindIndex(updated, other).None?;
  }

  /** `update` keeps one record per phone. */
  lemma UpdateKeepsPhonesDistinct(users: seq<User>, phone: string, name: string, now: string)
    requires UserPhonesDistinct(users)
    ensures UserPhonesDistinct(UpdateUser(users, phone, name, now))
  {
  }

  // ---------------------------------------------------------------- downloads

  datatype DownloadRecord = DownloadRecord(phone: string, appId: string, appName: string, fileType: string,
                                           fileSize: nat, createdAt: string)

  /** The log is cut back to its last 5000 records once it holds more than 10000. */
  const LogLimit: nat := 10000
  const LogKeep: nat := 5000

  /** `downloads.add`: append, then truncate. */
  function AppendDownload(log: seq<DownloadRecord>, d: DownloadRecord): seq<DownloadRecord>
  {
    var grown := log + [d];
    if |grown| > LogLimit then grown[|grown| - LogKeep..] else grown
  }

  /** The records of one phone, in log order. */
  function OfPhone(log: seq<DownloadRecord>, phone: string): seq<DownloadRecord>
  {
    Filter(log, (d: DownloadRecord) => d.phone == phone)
  }

  /** `getByUser(phone, limit)`: `filter`, then `slice(-limit)`, then `reverse`. */
  function ByUser(log: seq<DownloadRecord>, phone: string, limit: int): seq<DownloadRecord>
  {
    Reverse(SliceFrom(OfPhone(log, phone), -limit))
  }

  datatype AppCount = AppCount(appName: string, count: nat)

  datatype Stats = Stats(totalUsers: nat, totalDownloads: nat, todayDownloads: nat, totalSize: nat,
                         blockedUsers: nat, topApps: seq<AppCount>)

  /** Records whose `createdAt` is set and starts with `today`. */
  function CountToday(log: seq<DownloadRecord>, today: string): nat
  {
    if log == [] then 0
    else CountToday(log[..|log| - 1], today)
         + (var d := log[|log| - 1]; if d.createdAt != "" && StartsWith(d.createdAt, today) then 1 else 0)
  }

  /** `reduce((sum, d) => sum + (d.fileSize || 0), 0)` */
  function TotalSize(log: seq<DownloadRecord>): nat
  {
    if log == [] then 0 else TotalSize(log[..|log| - 1]) + log[|log| - 1].fileSize
  }

  /** How many records name the app. */
  function CountName(log: seq<DownloadRecord>, appName: string): nat
  {
    if log == [] then 0
    else CountName(log[..|log| - 1], appName) + (if log[|log| - 1].appName == appName then 1 else 0)
  }

  /** `appCounts[name] = (appCounts[name] || 0) + 1`, with the object's keys in
      first-insertion order. */
  function Bump(tally: seq<AppCount>, appName: string): seq<AppCount>
  {
    if tally == [] then [AppCount(appName, 1)]
    else if tally[0].appName == appName then [AppCount(appName, tally[0].count + 1)] + tally[1..]
    else [tally[0]] + Bump(tally[1..], appName)
  }

  /** The `appCounts` object the `forEach` builds, as the entry list
      `Object.entries` returns. */
  function Tally(log: seq<DownloadRecord>): seq<AppCount>
  {
    if log == [] then []
    else
      var prev := Tally(log[..|log| - 1]);
      var name := log[|log| - 1].appName;
      if name != "" then Bump(prev, name) else prev
  }

  /** Inserts `x` after every entry whose count is at least its own. */
  function InsertByCount(x: AppCount, sorted: seq<AppCount>): seq<AppCount>
  {
    if sorted == [] then [x]
    else if sorted[0].count >= x.count then [sorted[0]] + InsertByCount(x, sorted[1..])
    else [x] + sorted
  }

  /** `sort((a, b) => b[1] - a[1])`: a stable sort by descending count. */
  function SortByCount(entries: seq<AppCount>): seq<AppCount>
  {
    if entries == [] then []
    else InsertByCount(entries[|entries| - 1], SortByCount(entries[..|entries| - 1]))
  }

  function Take<T>(s: seq<T>, n: nat): seq<T>
  {
    if |s| <= n then s else s[..n]
  }

  /** `downloads.getStats`; the user and blocklist counts are passed in. */
  function StatsOf(log: seq<DownloadRecord>, today: string, totalUsers: nat, blockedUsers: nat): Stats
  {
    Stats(totalUsers, |log|, CountToday(log, today), TotalSize(log), blockedUsers,
          Take(SortByCount(Tally(log)), 10))
  }

  class Downloads {
    var downloads: seq<DownloadRecord>

    constructor (loaded: seq<DownloadRecord>)
      ensures downloads == loaded
    {
      downloads := loaded;
    }

    method Add(phone: string, appId: string, appName: string, fileType: string, fileSize: nat, createdAt: string)
      modifies this
      ensures downloads == AppendDownload(old(downloads), DownloadRecord(phone, appId, appName, fileType, fileSize, createdAt))
    {
      downloads := downloads + [DownloadRecord(phone, appId, appName, fileType, fileSize, createdAt)];
      if |downloads| > LogLimit {
        downloads := downloads[|downloads| - LogKeep..];
      }
    }

    function GetByUser(phone: string, limit: int): seq<DownloadRecord>
      reads this
    {
      ByUser(downloads, phone, limit)
    }

    function GetStats(today: string, totalUsers: nat, blockedUsers: nat): Stats
      reads this
    {
      StatsOf(downloads, today, totalUsers, blockedUsers)
    }
  }

  /** After `add` the log holds at most 10000 records, ends with the new one,
      and is a suffix of the old log followed by the new record; below the
      limit nothing is dropped, and above it exactly the last 5000 are kept. */
  lemma AppendDownloadSpec(log: seq<DownloadRecord>, d: DownloadRecord)
    ensures var r := AppendDownload(log, d);
            && 0 < |r| <= LogLimit
            && r[|r| - 1] == d
            && r == (log + [d])[|log| + 1 - |r|..]
            && (|log| < LogLimit ==> r == log + [d])
            && (|log| + 1 > LogLimit ==> |r| == LogKeep)
  {
  }

  /** `getByUser` returns only records of the phone, all from the log. */
  lemma ByUserOwnRecords(log: seq<DownloadRecord>, phone: string, limit: int)
    ensures var r := ByUser(log, phone, limit);
            forall i :: 0 <= i < |r| ==> r[i].phone == phone && r[i] in log
  {
    var mine := OfPhone(log, phone);
    var sliced := SliceFrom(mine, -limit);
    var r := ByUser(log, phone, limit);
    forall i | 0 <= i < |r|
      ensures r[i].phone == phone && r[i] in log
    {
      assert r[i] == sliced[|sliced| - 1 - i];
      assert r[i] in mine;
    }
  }

  /** With a positive limit, newest first: the last `min(limit, n)` of the
      phone's `n` records in reverse log order. */
  lemma ByUserNewestFirst(log: seq<DownloadRecord>, phone: string, limit: int)
    requires limit > 0
    ensures var r := ByUser(log, phone, limit);
            var mine := OfPhone(log, phone);
            && |r| == (if limit < |mine| then limit else |mine|)
            && forall i :: 0 <= i < |r| ==> r[i] == mine[|mine| - 1 - i]
  {
    SliceFromLast(OfPhone(log, phone), limit);
  }

  /** With a zero limit (`slice(-0)` is `slice(0)`) all of the phone's
      records, reversed; with a negative limit all but the first `-limit`,
      reversed. */
  lemma ByUserNonPositive(log: seq<DownloadRecord>, phone: string, limit: int)
    requires limit <= 0
    ensures var r := ByUser(log, phone, limit);
            var mine := OfPhone(log, phone);
            && (limit == 0 ==> r == Reverse(mine))
            && (limit < 0 ==> r == Reverse(mine[(if -limit < |mine| then -limit else |mine|)..]))
  {
    var mine := OfPhone(log, phone);
    assert limit == 0 ==> mine[0..] == mine;
  }

  /** A record just added is the first that `getByUser` returns for its phone. */
  lemma AddedComesFirst(log: seq<DownloadRecord>, d: DownloadRecord, limit: int)
    requires limit > 0
    ensures var r := ByUser(AppendDownload(log, d), d.phone, limit);
            |r| > 0 && r[0] == d
  {
    var after := AppendDownload(log, d);
    var keep := (x: DownloadRecord) => x.phone == d.phone;
    assert after == after[..|after| - 1] + [d];
    FilterAppend(after[..|after| - 1], [d], keep);
    assert OfPhone([d], d.phone) == [d];
    ByUserNewestFirst(after, d.phone, limit);
  }

  predicate NonIncreasing(entries: seq<AppCount>)
  {
    forall i, j :: 0 <= i < j < |entries| ==> entries[i].count >= entries[j].count
  }

  predicate NamesDistinct(entries: seq<AppCount>)
  {
    forall i, j :: 0 <= i < j < |entries| ==> entries[i].appName != entries[j].appName
  }

  predicate Named(entries: seq<AppCount>, name: string)
  {
    exists i :: 0 <= i < |entries| && entries[i].appName == name
  }

  /** The count an entry list gives for a name (its first entry with it). */
  function Lookup(tally: seq<AppCount>, name: string): nat
  {
    if tally == [] then 0 else if tally[0].appName == name then tally[0].count else Lookup(tally[1..], name)
  }

  lemma {:induction false} LookupHit(tally: seq<AppCount>, i: nat)
    requires NamesDistinct(tally) && i < |tally|
    ensures Lookup(tally, tally[i].appName) == tally[i].count
  {
    if i > 0 {
      LookupHit(tally[1..], i - 1);
    }
  }

  /** `Named` of a non-empty list: its head or its tail carries the name. */
  lemma NamedCons(tally: seq<AppCount>, name: string)
    requires tally != []
    ensures Named(tally, name) <==> tally[0].appName == name || Named(tally[1..], name)
  {
    if Named(tally, name) && tally[0].appName != name {
      var i :| 0 <= i < |tally| && tally[i].appName == name;
      assert tally[1..][i - 1].appName == name;
    }
    if Named(tally[1..], name) {
      var i :| 0 <= i < |tally[1..]| && tally[1..][i].appName == name;
      assert tally[i + 1].appName == name;
    }
  }

  lemma {:induction false} LookupMiss(tally: seq<AppCount>, name: string)
    requires !Named(tally, name)
    ensures Lookup(tally, name) == 0
  {
    if tally != [] {
      NamedCons(tally, name);
      LookupMiss(tally[1..], name);
    }
  }

  /** After `appCounts[name]++` exactly the old names and `name` are present. */
  lemma {:induction false} BumpNamed(tally: seq<AppCount>, name: string, x: string)
    ensures Named(Bump(tally, name), x) <==> Named(tally, x) || x == name
  {
    var b := Bump(tally, name);
    if tally == [] {
      assert b[0].appName == name;
    } else {
      NamedCons(tally, x);
      NamedCons(b, x);
      if tally[0].appName == name {
        assert b[1..] == tally[1..];
      } else {
        assert b[1..] == Bump(tally[1..], name);
        BumpNamed(tally[1..], name, x);
      }
    }
  }

  /** Each entry after `appCounts[name]++`: the name's entry is one more than
      before, every other entry is an old one. */
  lemma {:induction false} BumpEntry(tally: seq<AppCount>, name: string, i: nat)
    requires NamesDistinct(tally)
    requires i < |Bump(tally, name)|
    ensures Bump(tally, name)[i].appName == name ==> Bump(tally, name)[i].count == Lookup(tally, name) + 1
    ensures Bump(tally, name)[i].appName != name ==> Bump(tally, name)[i] in tally
  {
    if tally != [] && i > 0 {
      if tally[0].appName != name {
        BumpEntry(tally[1..], name, i - 1);
        assert Bump(tally, name)[i] == Bump(tally[1..], name)[i - 1];
      } else {
        assert Bump(tally, name)[i] == tally[i];
      }
    }
  }

  lemma {:induction false} BumpDistinct(tally: seq<AppCount>, name: string)
    requires NamesDistinct(tally)
    ensures NamesDistinct(Bump(tally, name))
  {
    if tally != [] {
      var b := Bump(tally, name);
      if tally[0].appName == name {
        assert b[1..] == tally[1..];
      } else {
        var rest := Bump(tally[1..], name);
        BumpDistinct(tally[1..], name);
        assert b == [tally[0]] + rest;
        forall j | 0 < j < |b|
          ensures b[0].appName != b[j].appName
        {
          var x := b[j].appName;
          assert rest[j - 1].appName == x;
          BumpNamed(tally[1..], name, x);
          if Named(tally[1..], x) {
            var k :| 0 <= k < |tally[1..]| && tally[1..][k].appName == x;
            assert tally[k + 1].appName == x;
          }
        }
      }
    }
  }


  /** The `appCounts` tally: one entry per app name that occurs (an empty name
      is skipped), each carrying the number of records naming it. */
  lemma {:induction false} TallySpec(log: seq<DownloadRecord>)
    ensures NamesDistinct(Tally(log))
    ensures forall i :: 0 <= i < |Tally(log)| ==>
              Tally(log)[i].appName != "" && Tally(log)[i].count == CountName(log, Tally(log)[i].appName)
    ensures forall name :: name != "" ==> (Named(Tally(log), name) <==> CountName(log, name) > 0)
  {
    if log != [] {
      var init := log[..|log| - 1];
      var name := log[|log| - 1].appName;
      var prev := Tally(init);
      TallySpec(init);
      if name != "" {
        BumpDistinct(prev, name);
        var t := Bump(prev, name);
        forall x | x != ""
          ensures Named(t, x) <==> CountName(log, x) > 0
        {
          BumpNamed(prev, name, x);
        }
        assert Lookup(prev, name) == CountName(init, name) by {
          if Named(prev, name) {
            var k :| 0 <= k < |prev| && prev[k].appName == name;
            LookupHit(prev, k);
          } else {
            LookupMiss(prev, name);
          }
        }
        forall i | 0 <= i < |t|
          ensures t[i].appName != "" && t[i].count == CountName(log, t[i].appName)
        {
          BumpEntry(prev, name, i);
          if t[i].appName != name {
            var k :| 0 <= k < |prev| && prev[k] == t[i];
          }
        }
      }
    }
  }

  lemma {:induction false} InsertPermutes(x: AppCount, sorted: seq<AppCount>)
    ensures multiset(InsertByCount(x, sorted)) == multiset(sorted) + multiset{x}
  {
    if sorted != [] && sorted[0].count >= x.count {
      InsertPermutes(x, sorted[1..]);
      assert sorted == [sorted[0]] + sorted[1..];
    }
  }

  lemma {:induction false} InsertSorted(x: AppCount, sorted: seq<AppCount>)
    requires NonIncreasing(sorted)
    ensures NonIncreasing(InsertByCount(x, sorted))
    ensures InsertByCount(x, sorted)[0] == x || InsertByCount(x, sorted)[0] == sorted[0]
  {
    if sorted != [] && sorted[0].count >= x.count {
      var rest := InsertByCount(x, sorted[1..]);
      InsertSorted(x, sorted[1..]);
      assert rest[0].count <= sorted[0].count;
      assert InsertByCount(x, sorted) == [sorted[0]] + rest;
    }
  }

  /** The `sort` of the entries is ordered by descending count ... */
  lemma {:induction false} SortOrders(entries: seq<AppCount>)
    ensures NonIncreasing(SortByCount(entries))
  {
    if entries != [] {
      var init := entries[..|entries| - 1];
      SortOrders(init);
      InsertSorted(entries[|entries| - 1], SortByCount(init));
    }
  }

  /** ... and is a permutation of them. */
  lemma {:induction false} SortPermutes(entries: seq<AppCount>)
    ensures multiset(SortByCount(entries)) == multiset(entries)
  {
    if entries != [] {
      var init := entries[..|entries| - 1];
      var x := entries[|entries| - 1];
      SortPermutes(init);
      InsertPermutes(x, SortByCount(init));
      assert entries == init + [x];
    }
  }

  lemma SortSpec(entries: seq<AppCount>)
    ensures NonIncreasing(SortByCount(entries))
    ensures multiset(SortByCount(entries)) == multiset(entries)
  {
    SortOrders(entries);
    SortPermutes(entries);
  }

  /** Every entry of the sorted tally is an app with its exact count. */
  lemma SortedTallyEntries(log: seq<DownloadRecord>)
    ensures var sorted := SortByCount(Tally(log));
            && NonIncreasing(sorted)
            && forall i :: 0 <= i < |sorted| ==> sorted[i].appName != "" && sorted[i].count == CountName(log, sorted[i].appName)
  {
    var tally := Tally(log);
    var sorted := SortByCount(tally);
    TallySpec(log);
    SortSpec(tally);
    forall i | 0 <= i < |sorted|
      ensures sorted[i].appName != "" && sorted[i].count == CountName(log, sorted[i].appName)
    {
      assert sorted[i] in multiset(tally);
      var k :| 0 <= k < |tally| && tally[k] == sorted[i];
    }
  }

  /** A downloaded app has an entry, with its exact count, in the sorted tally. */
  lemma SortedTallyHas(log: seq<DownloadRecord>, name: string) returns (j: nat)
    requires name != "" && CountName(log, name) > 0
    ensures j < |SortByCount(Tally(log))|
    ensures SortByCount(Tally(log))[j] == AppCount(name, CountName(log, name))
  {
    var tally := Tally(log);
    TallySpec(log);
    var k :| 0 <= k < |tally| && tally[k].appName == name;
    assert tally[k] == AppCount(name, CountName(log, name));
    SortSpec(tally);
    assert tally[k] in multiset(SortByCount(tally));
    j :| 0 <= j < |SortByCount(tally)| && SortByCount(tally)[j] == tally[k];
  }

  /** An app that was downloaded but is not among the first ten of the sorted
      tally ranks no higher than any of those ten. */
  lemma LeftOutRanksLower(log: seq<DownloadRecord>, name: string)
    requires name != "" && CountName(log, name) > 0
    requires !Named(Take(SortByCount(Tally(log)), 10), name)
    ensures var top := Take(SortByCount(Tally(log)), 10);
            |top| == 10 && forall i :: 0 <= i < 10 ==> top[i].count >= CountName(log, name)
  {
    var sorted := SortByCount(Tally(log));
    var j := SortedTallyHas(log, name);
    assert j >= 10;
    SortSpec(Tally(log));
  }

  /** `topApps`: at most ten entries in descending order of count, each an app
      with its exact download count; an app left out was downloaded no more
      often than any of the ten shown. */
  lemma TopAppsSpec(log: seq<DownloadRecord>, today: string, totalUsers: nat, blockedUsers: nat)
    ensures var top := StatsOf(log, today, totalUsers, blockedUsers).topApps;
            && |top| <= 10
            && NonIncreasing(top)
            && (forall i :: 0 <= i < |top| ==> top[i].appName != "" && top[i].count == CountName(log, top[i].appName))
            && (forall name :: name != "" && CountName(log, name) > 0 && !Named(top, name) ==>
                  |top| == 10 && forall i :: 0 <= i < 10 ==> top[i].count >= CountName(log, name))
  {
    SortedTallyEntries(log);
    forall name | name != "" && CountName(log, name) > 0 && !Named(Take(SortByCount(Tally(log)), 10), name)
      ensures var top := Take(SortByCount(Tally(log)), 10);
              |top| == 10 && forall i :: 0 <= i < 10 ==> top[i].count >= CountName(log, name)
    {
      LeftOutRanksLower(log, name);
    }
  }

  /** The size total is additive over the log. */
  lemma {:induction false} SizeAdditive(log: seq<DownloadRecord>, more: seq<DownloadRecord>)
    ensures TotalSize(log + more) == TotalSize(log) + TotalSize(more)
    decreases |more|
  {
    if more != [] {
      var init := more[..|more| - 1];
      assert (log + more)[..|log + more| - 1] == log + init;
      SizeAdditive(log, init);
    } else {
      assert log + more == log;
    }
  }

  /** `todayDownloads` never exceeds `totalDownloads`. */
  lemma {:induction false} CountTodayBound(log: seq<DownloadRecord>, today: string)
    ensures CountToday(log, today) <= |log|
  {
    if log != [] {
      CountTodayBound(log[..|log| - 1], today);
    }
  }

  // ----------------------------------------------------------- group settings

  /** A JSON value as the settings objects hold them. */
  datatype Value = Bool(b: bool) | Num(n: int) | Str(s: string) | Object(fields: map<string, Value>)

  type Settings = map<string, Value>

  /** The object `groupSettings.get` returns for a group never configured. */
  const DefaultSettings: Settings :=
    map["antiLink" := Bool(true),
        "antiBadWords" := Bool(true),
        "antiPrivate" := Bool(true),
        "antiTime" := Object(map["enabled" := Bool(false), "closeTime" := Str("20:00"),
                                 "openTime" := Str("08:00"), "status" := Str("opened")]),
        "welcome" := Bool(true),
        "originalName" := Str("")]

  function SettingsOf(groups: map<string, Settings>, groupId: string): Settings
  {
    if groupId in groups then groups[groupId] else DefaultSettings
  }

  /** `groupSettings.set`: `{ ...this.get(groupId), ...settings }`, a shallow merge. */
  function MergeSettings(groups: map<string, Settings>, groupId: string, settings: Settings): map<string, Settings>
  {
    groups[groupId := SettingsOf(groups, groupId) + settings]
  }

  class GroupSettings {
    var groups: map<string, Settings>

    constructor (loaded: map<string, Settings>)
      ensures groups == loaded
    {
      groups := loaded;
    }

    function Get(groupId: string): Settings
      reads this
    {
      SettingsOf(groups, groupId)
    }

    method Set(groupId: string, settings: Settings)
      modifies this
      ensures groups == MergeSettings(old(groups), groupId, settings)
    {
      groups := groups[groupId := Get(groupId) + settings];
    }

    method Remove(groupId: string)
      modifies this
      ensures groups == old(groups) - {groupId}
    {
      groups := groups - {groupId};
    }
  }

  /** After `set`, each given key has the given value, every other key keeps
      the value `get` gave before (the defaults for a new group), other groups
      are untouched, and setting the same keys again changes nothing. */
  lemma MergeSettingsSpec(groups: map<string, Settings>, groupId: string, settings: Settings, key: string, other: string)
    ensures var after := SettingsOf(MergeSettings(groups, groupId, settings), groupId);
            && after.Keys == SettingsOf(groups, groupId).Keys + settings.Keys
            && (key in settings ==> after[key] == settings[key])
            && (key !in settings && key in SettingsOf(groups, groupId) ==> after[key] == SettingsOf(groups, groupId)[key])
    ensures other != groupId ==> SettingsOf(MergeSettings(groups, groupId, settings), other) == SettingsOf(groups, other)
    ensures MergeSettings(MergeSettings(groups, groupId, settings), groupId, settings) == MergeSettings(groups, groupId, settings)
  {
    var merged := SettingsOf(groups, groupId) + settings;
    assert merged + settings == merged;
  }

  /** `remove` brings a group back to the defaults. */
  lemma RemoveRestoresDefaults(groups: map<string, Settings>, groupId: string)
    ensures SettingsOf(groups - {groupId}, groupId) == DefaultSettings
    ensures SettingsOf(groups - {groupId}, groupId)["antiTime"].fields["status"] == Str("opened")
  {
  }

  // ------------------------------------------------------ anti-private setup

  const DefaultGroupLink: string := "https://chat.whatsapp.com/JZ4mpJqjG2DGoGKKHbjTpy?mode=hqrc"

  /** `addBlockedInPrivate`: a phone is appended only once. */
  function AddPhone(phones: seq<string>, phone: string): seq<string>
  {
    if phone in phones then phones else phones + [phone]
  }

  function WithoutEntry(phones: seq<string>, phone: string): seq<string>
  {
    Filter(phones, (p: string) => p != phone)
  }

  predicate Distinct(phones: seq<string>)
  {
    forall i, j :: 0 <= i < j < |phones| ==> phones[i] != phones[j]
  }

  /** The contents of antiPrivate.json. */
  datatype AntiPrivateData = AntiPrivateData(enabled: bool, groupLink: string, blockedInPrivate: seq<string>)

  /** The object `loadJson` falls back to when antiPrivate.json is absent. */
  const AntiPrivateDefault := AntiPrivateData(false, DefaultGroupLink, [])

  class AntiPrivateSettings {
    var enabled: bool
    var groupLink: string
    var blockedInPrivate: seq<string>

    /** `loadJson('antiPrivate.json', default)`: the loaded settings, or the
        default when there is no file (`None`). */
    constructor (loaded: Option<AntiPrivateData>)
      ensures var d := if loaded.Some? then loaded.value else AntiPrivateDefault;
              enabled == d.enabled && groupLink == d.groupLink && blockedInPrivate == d.blockedInPrivate
    {
      var d := if loaded.Some? then loaded.value else AntiPrivateDefault;
      enabled := d.enabled;
      groupLink := d.groupLink;
      blockedInPrivate := d.blockedInPrivate;
    }

    function IsEnabled(): bool
      reads this
    {
      enabled
    }

    method SetEnabled(value: bool)
      modifies this
      ensures enabled == value && groupLink == old(groupLink) && blockedInPrivate == old(blockedInPrivate)
    {
      enabled := value;
    }

    function GetGroupLink(): string
      reads this
    {
      groupLink
    }

    method SetGroupLink(link: string)
      modifies this
      ensures groupLink == link && enabled == old(enabled) && blockedInPrivate == old(blockedInPrivate)
    {
      groupLink := link;
    }

    method AddBlockedInPrivate(phone: string)
      modifies this
      ensures blockedInPrivate == AddPhone(old(blockedInPrivate), phone)
      ensures enabled == old(enabled) && groupLink == old(groupLink)
    {
      if phone !in blockedInPrivate {
        blockedInPrivate := blockedInPrivate + [phone];
      }
    }

    function IsBlockedInPrivate(phone: string): bool
      reads this
    {
      phone in blockedInPrivate
    }

    method RemoveBlockedInPrivate(phone: string)
      modifies this
      ensures blockedInPrivate == WithoutEntry(old(blockedInPrivate), phone)
      ensures enabled == old(enabled) && groupLink == old(groupLink)
    {
      blockedInPrivate := WithoutEntry(blockedInPrivate, phone);
    }
  }

  /** After adding, the phone is listed, the list has no duplicate if it had
      none, and it grew only if the phone was new. After removing, the phone
      is not listed and every other phone is listed exactly as before. */
  lemma PrivateBlockSpec(phones: seq<string>, phone: string, other: string)
    ensures phone in AddPhone(phones, phone)
    ensures Distinct(phones) ==> Distinct(AddPhone(phones, phone))
    ensures |AddPhone(phones, phone)| == |phones| + (if phone in phones then 0 else 1)
    ensures phone !in WithoutEntry(phones, phone)
    ensures other != phone ==> (other in WithoutEntry(phones, phone) <==> other in phones)
  {
    var keep := (p: string) => p != phone;
    FilterMembers(phones, keep, phone);
    FilterMembers(phones, keep, other);
  }

  // ---------------------------------------------------------------- warnings

  datatype Warning = Warning(reason: string, time: string)

  datatype WarningRecord = WarningRecord(count: nat, reasons: seq<Warning>, lastWarning: Option<string>)

  /** `getWarnings`: `?.count || 0`. */
  function WarningsOf(users: map<string, WarningRecord>, phone: string): nat
  {
    if phone in users then users[phone].count else 0
  }

  /** `addWarning`: create the record if missing, count one more, log the reason. */
  function AddWarningTo(users: map<string, WarningRecord>, phone: string, reason: string, now: string): map<string, WarningRecord>
  {
    var rec := if phone in users then users[phone] else WarningRecord(0, [], None);
    users[phone := WarningRecord(rec.count + 1, rec.reasons + [Warning(reason, now)], Some(now))]
  }

  class WarningsTracker {
    var users: map<string, WarningRecord>

    /** `loadJson('warnings.json', { users: {} })`: the loaded records, or
        none when there is no file (`None`). */
    constructor (loaded: Option<map<string, WarningRecord>>)
      ensures users == if loaded.Some? then loaded.value else map[]
    {
      users := if loaded.Some? then loaded.value else map[];
    }

    function GetWarnings(phone: string): nat
      reads this
    {
      WarningsOf(users, phone)
    }

    method AddWarning(phone: string, reason: string, now: string) returns (count: nat)
      modifies this
      ensures users == AddWarningTo(old(users), phone, reason, now)
      ensures count == WarningsOf(users, phone)
    {
      var rec := if phone in users then users[phone] else WarningRecord(0, [], None);
      rec := WarningRecord(rec.count + 1, rec.reasons + [Warning(reason, now)], Some(now));
      users := users[phone := rec];
      count := rec.count;
    }

    method ResetWarnings(phone: string)
      modifies this
      ensures users == old(users) - {phone}
    {
      users := users - {phone};
    }
  }

  /** `addWarning` returns one more than the previous count, appends the
      reason as the newest entry and leaves other phones alone; after
      `resetWarnings` the count is zero. */
  lemma WarningSpec(users: map<string, WarningRecord>, phone: string, reason: string, now: string, other: string)
    ensures WarningsOf(AddWarningTo(users, phone, reason, now), phone) == WarningsOf(users, phone) + 1
    ensures var rec := AddWarningTo(users, phone, reason, now)[phone];
            && |rec.reasons| > 0 && rec.reasons[|rec.reasons| - 1] == Warning(reason, now)
            && rec.lastWarning == Some(now)
    ensures other != phone ==> WarningsOf(AddWarningTo(users, phone, reason, now), other) == WarningsOf(users, other)
    ensures WarningsOf(users - {phone}, phone) == 0
  {
  }
}
