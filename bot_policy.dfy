/** The self-contained policy logic of bot.js: the bot-mode gate, who counts
    as a developer, phone-number validation, the hourly download limit, the
    two message-rate limiters, the concurrent-download counter, the bounded
    message store and the table of "lite" app alternatives. `Date.now()` is a
    parameter `now` in milliseconds; the VIP set, the bot's own number and the
    configured developer phones are passed in as `Privileges`. */
module BotPolicy {
  import opened Wrappers
  import opened Text
  import opened Lists

  // ----------------------------------------------------------------- bot mode

  /** The modes `setBotMode` accepts. */
  predicate IsMode(mode: string)
  {
    mode == "all" || mode == "groups" || mode == "private"
  }

  /** The mode after `setBotMode(requested)`: the lower-cased request when it
      names a mode, otherwise the current mode. */
  function NewMode(current: string, requested: string): string
  {
    var lowered := Lower(requested);
    if IsMode(lowered) then lowered else current
  }

  /** `shouldProcessMessage` under a given mode. */
  function Admits(mode: string, isGroup: bool, isAdmin: bool): bool
  {
    if isAdmin then true
    else if mode == "all" then true
    else if mode == "groups" && isGroup then true
    else if mode == "private" && !isGroup then true
    else false
  }

  class BotMode {
    var mode: string

    constructor ()
      ensures mode == "all"
    {
      mode := "all";
    }

    method SetBotMode(requested: string) returns (accepted: bool)
      modifies this
      ensures accepted <==> IsMode(Lower(requested))
      ensures mode == NewMode(old(mode), requested)
    {
      var lowered := Lower(requested);
      if IsMode(lowered) {
        mode := lowered;
        return true;
      }
      return false;
    }

    function GetBotMode(): string
      reads this
    {
      mode
    }

    function ShouldProcessMessage(isGroup: bool, isAdmin: bool): bool
      reads this
    {
      Admits(mode, isGroup, isAdmin)
    }
  }

  /** `setBotMode` keeps the mode one of the three, stores it lower-cased,
      ignores letter case in the request, and repeating a request changes
      nothing more. */
  lemma NewModeSpec(current: string, requested: string)
    ensures IsMode(current) ==> IsMode(NewMode(current, requested))
    ensures IsMode(Lower(requested)) ==> NewMode(current, requested) == Lower(requested)
    ensures !IsMode(Lower(requested)) ==> NewMode(current, requested) == current
    ensures NewMode(NewMode(current, requested), requested) == NewMode(current, requested)
    ensures NewMode(current, Lower(requested)) == NewMode(current, requested)
  {
    LowerIdempotent(requested);
  }

  lemma LowerIdempotent(s: string)
    ensures Lower(Lower(s)) == Lower(s)
  {
    assert forall i :: 0 <= i < |s| ==> LowerChar(LowerChar(s[i])) == LowerChar(s[i]);
  }

  /** The mode gate: an admin always passes; "all" passes everything; for
      everyone else "groups" and "private" split the traffic between them, so
      exactly one of the two lets a given message through. */
  lemma AdmitsSpec(mode: string, isGroup: bool, isAdmin: bool)
    ensures isAdmin ==> Admits(mode, isGroup, isAdmin)
    ensures Admits("all", isGroup, isAdmin)
    ensures Admits("groups", isGroup, false) <==> isGroup
    ensures Admits("private", isGroup, false) <==> !isGroup
    ensures Admits("groups", isGroup, false) != Admits("private", isGroup, false)
    ensures !IsMode(mode) ==> (Admits(mode, isGroup, isAdmin) <==> isAdmin)
  {
  }

  // ------------------------------------------------------------------ identity

  /** Who is exempt from the limits: the bot's own number (empty while it is
      not known), the configured developer phones and the VIP set. */
  datatype Privileges = Privileges(botNumber: string, developerPhones: seq<string>, vipUsers: set<string>)

  /** `isDeveloper`: the digits of the phone equal or end with the bot's
      number or with some developer phone. */
  predicate IsDeveloper(p: Privileges, phone: string)
  {
    var clean := Digits(phone);
    (p.botNumber != "" && (clean == p.botNumber || EndsWith(clean, p.botNumber)))
    || exists i :: 0 <= i < |p.developerPhones| && (clean == p.developerPhones[i] || EndsWith(clean, p.developerPhones[i]))
  }

  /** The phones every limiter lets through unconditionally. */
  predicate Exempt(p: Privileges, phone: string)
  {
    IsDeveloper(p, phone) || phone in p.vipUsers
  }

  function CanDownloadLargeFile(p: Privileges, phone: string, isAdmin: bool): bool
  {
    isAdmin || phone in p.vipUsers || IsDeveloper(p, phone)
  }

  /** `isValidPhoneNumber`: after dropping every non-digit, 10 to 15 digits. */
  predicate IsValidPhoneNumber(phone: string)
  {
    phone != "" && var cleaned := Digits(phone); |cleaned| >= 10 && |cleaned| <= 15 && cleaned != [] && AllDigits(cleaned)
  }

  lemma DigitsIdempotent(s: string)
    ensures Digits(Digits(s)) == Digits(s)
  {
    DigitsOfDigits(Digits(s));
  }

  /** A phone is valid exactly when it has 10 to 15 digits, and writing it
      with or without separators makes no difference. */
  lemma ValidPhoneSpec(phone: string)
    ensures IsValidPhoneNumber(phone) <==> 10 <= |Digits(phone)| <= 15
    ensures IsValidPhoneNumber(Digits(phone)) == IsValidPhoneNumber(phone)
    ensures IsValidPhoneNumber(phone) <==> 10 <= |Filter(phone, IsDigit)| <= 15
  {
    DigitsIdempotent(phone);
    DigitsAreFilter(phone);
  }

  /** Being a developer is suffix matching on the digits (equality is the
      special case of a full-length suffix), it ignores formatting, and an
      empty entry among the developer phones would match every phone. */
  lemma IsDeveloperSpec(p: Privileges, phone: string)
    ensures IsDeveloper(p, phone) <==>
              (p.botNumber != "" && EndsWith(Digits(phone), p.botNumber))
              || exists i :: 0 <= i < |p.developerPhones| && EndsWith(Digits(phone), p.developerPhones[i])
    ensures IsDeveloper(p, Digits(phone)) == IsDeveloper(p, phone)
    ensures "" in p.developerPhones ==> IsDeveloper(p, phone)
  {
    DigitsIdempotent(phone);
    var clean := Digits(phone);
    assert clean[|clean| - 0..] == "";
    forall i | 0 <= i < |p.developerPhones| && clean == p.developerPhones[i]
      ensures EndsWith(clean, p.developerPhones[i])
    {
      assert clean[|clean| - |clean|..] == clean;
    }
    if p.botNumber != "" && clean == p.botNumber {
      assert clean[|clean| - |clean|..] == clean;
    }
  }

  /** A phone exempt from the limits may always fetch large files, and so
      may an admin; anyone else may not. */
  lemma LargeFileSpec(p: Privileges, phone: string, isAdmin: bool)
    ensures CanDownloadLargeFile(p, phone, isAdmin) <==> isAdmin || Exempt(p, phone)
  {
  }

  // -------------------------------------------------------- timestamp windows

  const OneHour: int := 3600000
  const HourlyDownloadLimit: nat := 10
  /** What the exempt phones are told they have left. */
  const Unlimited: nat := 999

  /** `timestamps.filter(t => now - t < window)` */
  function Recent(timestamps: seq<int>, now: int, window: int): seq<int>
  {
    Filter(timestamps, (t: int) => now - t < window)
  }

  function TrackerOf(trackers: map<string, seq<int>>, phone: string): seq<int>
  {
    if phone in trackers then trackers[phone] else []
  }

  /** Pruning keeps only timestamps inside the window, in order; pruning again
      at the same or a later time is the same as pruning the original once at
      that time; the current instant, once added, is inside any positive
      window. */
  lemma RecentSpec(timestamps: seq<int>, now: int, later: int, window: int)
    requires now <= later
    ensures forall i :: 0 <= i < |Recent(timestamps, now, window)| ==>
              now - Recent(timestamps, now, window)[i] < window
    ensures Recent(Recent(timestamps, now, window), later, window) == Recent(timestamps, later, window)
    ensures window > 0 ==> Recent(timestamps + [now], now, window) == Recent(timestamps, now, window) + [now]
  {
    FilterFilter(timestamps, (t: int) => now - t < window, (t: int) => later - t < window);
    FilterAppend(timestamps, [now], (t: int) => now - t < window);
  }

  function MinOf(s: seq<int>): (m: int)
    requires s != []
    ensures m in s
    ensures forall i :: 0 <= i < |s| ==> m <= s[i]
  {
    if |s| == 1 then s[0]
    else
      var rest := MinOf(s[1..]);
      if s[0] <= rest then s[0] else rest
  }

  /** `Math.ceil(ms / 60000)` for an integer number of milliseconds. */
  function CeilMinutes(ms: int): (r: int)
    ensures 60000 * (r - 1) < ms <= 60000 * r
  {
    -((-ms) / 60000)
  }

  // --------------------------------------------------- hourly download limit

  datatype LimitDecision = LimitDecision(allowed: bool, remaining: nat, resetIn: Option<int>)

  /** `checkHourlyDownloadLimit`: the decision and the tracker map afterwards
      (a non-exempt phone's list is replaced by its pruned form). */
  function HourlyLimit(p: Privileges, trackers: map<string, seq<int>>, phone: string, now: int)
    : (LimitDecision, map<string, seq<int>>)
  {
    if Exempt(p, phone) then (LimitDecision(true, Unlimited, None), trackers)
    else
      var recent := Recent(TrackerOf(trackers, phone), now, OneHour);
      var after := trackers[phone := recent];
      if |recent| >= HourlyDownloadLimit then
        (LimitDecision(false, 0, Some(CeilMinutes(OneHour - (now - MinOf(recent))))), after)
      else
        (LimitDecision(true, HourlyDownloadLimit - |recent|, None), after)
  }

  /** `recordDownload`: the current instant is appended for a non-exempt phone. */
  function RecordDownloadIn(p: Privileges, trackers: map<string, seq<int>>, phone: string, now: int)
    : map<string, seq<int>>
  {
    if Exempt(p, phone) then trackers else trackers[phone := TrackerOf(trackers, phone) + [now]]
  }

  class DownloadLimiter {
    var hourlyDownloads: map<string, seq<int>>

    constructor ()
      ensures hourlyDownloads == map[]
    {
      hourlyDownloads := map[];
    }

    method CheckHourlyDownloadLimit(p: Privileges, phone: string, now: int) returns (decision: LimitDecision)
      modifies this
      ensures (decision, hourlyDownloads) == HourlyLimit(p, old(hourlyDownloads), phone, now)
    {
      if IsDeveloper(p, phone) || phone in p.vipUsers {
        return LimitDecision(true, Unlimited, None);
      }
      var tracker := if phone in hourlyDownloads then hourlyDownloads[phone] else [];
      tracker := Recent(tracker, now, OneHour);
      hourlyDownloads := hourlyDownloads[phone := tracker];
      if |tracker| >= HourlyDownloadLimit {
        var oldest := MinOf(tracker);
        return LimitDecision(false, 0, Some(CeilMinutes(OneHour - (now - oldest))));
      }
      return LimitDecision(true, HourlyDownloadLimit - |tracker|, None);
    }

    method RecordDownload(p: Privileges, phone: string, now: int)
      modifies this
      ensures hourlyDownloads == RecordDownloadIn(p, old(hourlyDownloads), phone, now)
    {
      if IsDeveloper(p, phone) || phone in p.vipUsers {
        return;
      }
      var tracker := if phone in hourlyDownloads then hourlyDownloads[phone] else [];
      hourlyDownloads := hourlyDownloads[phone := tracker + [now]];
    }
  }

  /** The hourly limit: exempt phones always pass with 999 left and nothing
      is touched; any other phone passes exactly while fewer than ten of its
      downloads fall within the last hour, with `10 - count` left; a refusal
      says to wait at least one minute, and at most sixty when no recorded
      instant lies in the future. The check itself records nothing: the
      phone's new list only drops old instants. */
  lemma HourlyLimitSpec(p: Privileges, trackers: map<string, seq<int>>, phone: string, now: int)
    ensures var (d, after) := HourlyLimit(p, trackers, phone, now);
            var recent := Recent(TrackerOf(trackers, phone), now, OneHour);
            && (Exempt(p, phone) ==> d == LimitDecision(true, 999, None) && after == trackers)
            && (!Exempt(p, phone) ==>
                  && (d.allowed <==> |recent| < 10)
                  && (d.allowed ==> d.remaining == 10 - |recent| && d.remaining >= 1 && d.resetIn == None)
                  && (!d.allowed ==> d.remaining == 0 && d.resetIn.Some? && d.resetIn.value >= 1)
                  && ((!d.allowed && forall i :: 0 <= i < |TrackerOf(trackers, phone)| ==> TrackerOf(trackers, phone)[i] <= now)
                      ==> d.resetIn.value <= 60)
                  && after == trackers[phone := recent]
                  && |TrackerOf(after, phone)| <= |TrackerOf(trackers, phone)|
                  && (forall i :: 0 <= i < |TrackerOf(after, phone)| ==> TrackerOf(after, phone)[i] in TrackerOf(trackers, phone)))
  {
    if !Exempt(p, phone) {
      var recent := Recent(TrackerOf(trackers, phone), now, OneHour);
      RecentSpec(TrackerOf(trackers, phone), now, now, OneHour);
      if |recent| >= 10 {
        var oldest := MinOf(recent);
        assert now - oldest < OneHour;
        if forall i :: 0 <= i < |TrackerOf(trackers, phone)| ==> TrackerOf(trackers, phone)[i] <= now {
          assert oldest <= now;
        }
      }
    }
  }

  /** A download recorded now counts against a check at the same instant, so
      `remaining` drops by exactly one; and checking twice at one instant
      changes neither the decision nor the tracker the second time. */
  lemma RecordThenCheck(p: Privileges, trackers: map<string, seq<int>>, phone: string, now: int)
    requires !Exempt(p, phone)
    ensures Recent(TrackerOf(RecordDownloadIn(p, trackers, phone, now), phone), now, OneHour)
            == Recent(TrackerOf(trackers, phone), now, OneHour) + [now]
    ensures var (d, after) := HourlyLimit(p, trackers, phone, now);
            HourlyLimit(p, after, phone, now) == (d, after)
  {
    var recent := Recent(TrackerOf(trackers, phone), now, OneHour);
    RecentSpec(TrackerOf(trackers, phone), now, now, OneHour);
    var after := trackers[phone := recent];
    assert TrackerOf(after, phone) == recent;
    assert Recent(recent, now, OneHour) == recent;
    assert after[phone := recent] == after;
  }

  /** Ten recorded downloads within one hour refuse the eleventh. */
  lemma TenDownloadsBlock(p: Privileges, phone: string, times: seq<int>, now: int)
    requires !Exempt(p, phone)
    requires |times| == 10
    requires forall i :: 0 <= i < 10 ==> now - 3600000 < times[i] <= now
    ensures !HourlyLimit(p, map[phone := times], phone, now).0.allowed
  {
    FilterKeepsAll(times, (t: int) => now - t < OneHour);
  }

  // --------------------------------------------------------- message spam

  datatype Verdict = Allowed | Blocked

  /** The configured spam limits; a zero stands for an absent setting and
      falls back to the default, as `||` does. */
  datatype SpamLimits = SpamLimits(fastMessageWindow: int, fastMessages: int, messagesPerHour: int)

  function OrDefault(configured: int, fallback: int): int
  {
    if configured == 0 then fallback else configured
  }

  /** `checkFastSpam`: prune to the window, add `now`, block once the window
      holds at least the limit. */
  function FastSpam(p: Privileges, limits: SpamLimits, trackers: map<string, seq<int>>, phone: string, now: int)
    : (Verdict, map<string, seq<int>>)
  {
    if Exempt(p, phone) then (Allowed, trackers)
    else
      var window := OrDefault(limits.fastMessageWindow, 10000);
      var limit := OrDefault(limits.fastMessages, 5);
      var messages := Recent(TrackerOf(trackers, phone), now, window) + [now];
      (if |messages| >= limit then Blocked else Allowed, trackers[phone := messages])
  }

  /** `checkHourlySpam`: prune to the hour, add `now`, block once the hour holds
      more than the limit. */
  function HourlySpam(p: Privileges, limits: SpamLimits, trackers: map<string, seq<int>>, phone: string, now: int)
    : (Verdict, map<string, seq<int>>)
  {
    if Exempt(p, phone) then (Allowed, trackers)
    else
      var messages := Recent(TrackerOf(trackers, phone), now, OneHour) + [now];
      var limit := OrDefault(limits.messagesPerHour, 25);
      (if |messages| > limit then Blocked else Allowed, trackers[phone := messages])
  }

  class MessageRateGuard {
    var fastMessages: map<string, seq<int>>
    var hourlyMessages: map<string, seq<int>>

    constructor ()
      ensures fastMessages == map[] && hourlyMessages == map[]
    {
      fastMessages := map[];
      hourlyMessages := map[];
    }

    method CheckFastSpam(p: Privileges, limits: SpamLimits, phone: string, now: int) returns (v: Verdict)
      modifies this
      ensures (v, fastMessages) == FastSpam(p, limits, old(fastMessages), phone, now)
      ensures hourlyMessages == old(hourlyMessages)
    {
      if IsDeveloper(p, phone) || phone in p.vipUsers {
        return Allowed;
      }
      var window := OrDefault(limits.fastMessageWindow, 10000);
      var limit := OrDefault(limits.fastMessages, 5);
      var tracker := if phone in fastMessages then fastMessages[phone] else [];
      tracker := Recent(tracker, now, window);
      tracker := tracker + [now];
      fastMessages := fastMessages[phone := tracker];
      if |tracker| >= limit {
        return Blocked;
      }
      return Allowed;
    }

    method CheckHourlySpam(p: Privileges, limits: SpamLimits, phone: string, now: int) returns (v: Verdict)
      modifies this
      ensures (v, hourlyMessages) == HourlySpam(p, limits, old(hourlyMessages), phone, now)
      ensures fastMessages == old(fastMessages)
    {
      if IsDeveloper(p, phone) || phone in p.vipUsers {
        return Allowed;
      }
      var tracker := if phone in hourlyMessages then hourlyMessages[phone] else [];
      tracker := Recent(tracker, now, OneHour);
      tracker := tracker + [now];
      hourlyMessages := hourlyMessages[phone := tracker];
      var limit := OrDefault(limits.messagesPerHour, 25);
      if |tracker| > limit {
        return Blocked;
      }
      return Allowed;
    }
  }

  /** The fast limiter blocks exactly when the messages still inside the
      window, plus this one, reach the limit; the stored list ends with this
      message and holds nothing older than the window. The hourly limiter
      blocks exactly when they exceed its limit. Exempt phones always pass
      and leave no trace. */
  lemma SpamSpec(p: Privileges, limits: SpamLimits, trackers: map<string, seq<int>>, phone: string, now: int)
    ensures var (v, after) := FastSpam(p, limits, trackers, phone, now);
            var window := OrDefault(limits.fastMessageWindow, 10000);
            var count := |Recent(TrackerOf(trackers, phone), now, window)| + 1;
            && (Exempt(p, phone) ==> v == Allowed && after == trackers)
            && (!Exempt(p, phone) ==>
                  && (v == Blocked <==> count >= OrDefault(limits.fastMessages, 5))
                  && |TrackerOf(after, phone)| == count
                  && TrackerOf(after, phone)[count - 1] == now
                  && (window > 0 ==> forall i :: 0 <= i < count ==> now - TrackerOf(after, phone)[i] < window))
    ensures var (v, after) := HourlySpam(p, limits, trackers, phone, now);
            var count := |Recent(TrackerOf(trackers, phone), now, OneHour)| + 1;
            && (Exempt(p, phone) ==> v == Allowed && after == trackers)
            && (!Exempt(p, phone) ==>
                  && (v == Blocked <==> count > OrDefault(limits.messagesPerHour, 25))
                  && |TrackerOf(after, phone)| == count
                  && TrackerOf(after, phone)[count - 1] == now)
  {
    RecentSpec(TrackerOf(trackers, phone), now, now, OrDefault(limits.fastMessageWindow, 10000));
  }

  /** Once the fast limiter blocks a phone, another message at the same
      instant is blocked too: the count only grows within the window. */
  lemma FastBlockPersists(p: Privileges, limits: SpamLimits, trackers: map<string, seq<int>>, phone: string, now: int)
    requires OrDefault(limits.fastMessageWindow, 10000) > 0
    requires FastSpam(p, limits, trackers, phone, now).0 == Blocked
    ensures var after := FastSpam(p, limits, trackers, phone, now).1;
            FastSpam(p, limits, after, phone, now).0 == Blocked
  {
    var window := OrDefault(limits.fastMessageWindow, 10000);
    var recent := Recent(TrackerOf(trackers, phone), now, window);
    RecentSpec(TrackerOf(trackers, phone), now, now, window);
    RecentSpec(recent, now, now, window);
    assert Recent(recent + [now], now, window) == recent + [now];
  }

  /** With the default limits a fifth message within ten seconds is blocked. */
  lemma FifthFastMessageBlocks(p: Privileges, phone: string, times: seq<int>, now: int)
    requires !Exempt(p, phone)
    requires |times| == 4
    requires forall i :: 0 <= i < 4 ==> now - 10000 < times[i]
    ensures FastSpam(p, SpamLimits(0, 0, 0), map[phone := times], phone, now).0 == Blocked
  {
    FilterKeepsAll(times, (t: int) => now - t < 10000);
  }

  // --------------------------------------------- concurrent-download counter

  /** `checkDownloadSpam`: only a tracked phone is counted; it is blocked,
      without counting, once its count reaches the limit. The limit is the
      unauthenticated one: a developer has returned before `getUserLimits`. */
  function DownloadSpam(p: Privileges, maxConcurrent: int, counts: map<string, int>, phone: string)
    : (Verdict, map<string, int>)
  {
    if Exempt(p, phone) || phone !in counts then (Allowed, counts)
    else if counts[phone] >= maxConcurrent then (Blocked, counts)
    else (Allowed, counts[phone := counts[phone] + 1])
  }

  class DownloadSpamGuard {
    var counts: map<string, int>

    constructor ()
      ensures counts == map[]
    {
      counts := map[];
    }

    method CheckDownloadSpam(p: Privileges, maxConcurrent: int, phone: string) returns (v: Verdict)
      modifies this
      ensures (v, counts) == DownloadSpam(p, maxConcurrent, old(counts), phone)
    {
      if IsDeveloper(p, phone) || phone in p.vipUsers {
        return Allowed;
      }
      if phone !in counts {
        return Allowed;
      }
      if counts[phone] >= maxConcurrent {
        return Blocked;
      }
      counts := counts[phone := counts[phone] + 1];
      return Allowed;
    }

    method StartDownloadTracking(phone: string)
      modifies this
      ensures counts == old(counts)[phone := 0]
    {
      counts := counts[phone := 0];
    }

    method StopDownloadTracking(phone: string)
      modifies this
      ensures counts == old(counts) - {phone}
    {
      counts := counts - {phone};
    }
  }

  /** The number of `ok` answers in `k` consecutive checks. */
  function OksInRun(p: Privileges, maxConcurrent: int, counts: map<string, int>, phone: string, k: nat): nat
  {
    if k == 0 then 0
    else
      var (v, after) := DownloadSpam(p, maxConcurrent, counts, phone);
      (if v == Allowed then 1 else 0) + OksInRun(p, maxConcurrent, after, phone, k - 1)
  }

  /** A tracked phone at count `c` gets exactly `min(k, max - c)` (never less
      than zero) answers `ok` in `k` checks; after `startDownloadTracking` that
      is `min(k, max)`. */
  lemma {:induction false} OksInRunSpec(p: Privileges, maxConcurrent: int, counts: map<string, int>, phone: string, k: nat)
    requires !Exempt(p, phone) && phone in counts
    ensures var room := if maxConcurrent - counts[phone] > 0 then maxConcurrent - counts[phone] else 0;
            OksInRun(p, maxConcurrent, counts, phone, k) == if k < room then k else room
    decreases k
  {
    if k > 0 {
      var (v, after) := DownloadSpam(p, maxConcurrent, counts, phone);
      OksInRunSpec(p, maxConcurrent, after, phone, k - 1);
    }
  }

  /** An untracked phone is never blocked and never gains a counter; after
      `stopDownloadTracking` the phone is untracked. */
  lemma UntrackedSpec(p: Privileges, maxConcurrent: int, counts: map<string, int>, phone: string)
    ensures phone !in counts ==> DownloadSpam(p, maxConcurrent, counts, phone) == (Allowed, counts)
    ensures DownloadSpam(p, maxConcurrent, counts - {phone}, phone) == (Allowed, counts - {phone})
  {
  }

  // ------------------------------------------------------------ message store

  /** A message key; an absent `remoteJid` prints as "undefined" in the
      template string, an absent or empty `id` is represented by "". */
  datatype MessageKey = MessageKey(remoteJid: Option<string>, id: string)

  const StoreLimit: nat := 1000
  const EvictCount: nat := 200

  function StoreKey(key: MessageKey): string
  {
    (match key.remoteJid case None => "undefined" case Some(jid) => jid) + "_" + key.id
  }

  predicate DistinctKeys(keys: seq<string>)
  {
    forall i, j :: 0 <= i < j < |keys| ==> keys[i] != keys[j]
  }

  /** The store's invariant: `keys` is the insertion order of exactly the
      stored entries and never exceeds the limit. */
  ghost predicate StoreInv<M>(keys: seq<string>, messages: map<string, M>)
  {
    && DistinctKeys(keys)
    && (forall k :: k in messages <==> k in keys)
    && |keys| <= StoreLimit
  }

  /** `messageStore.set` then the eviction of the 200 earliest keys if the
      store has grown past 1000. A key already present keeps its place. */
  function StoreIn<M>(keys: seq<string>, messages: map<string, M>, key: Option<MessageKey>, message: M)
    : (seq<string>, map<string, M>)
  {
    if key.None? || key.value.id == "" then (keys, messages)
    else
      var k := StoreKey(key.value);
      var order := if k in messages then keys else keys + [k];
      var stored := messages[k := message];
      if |stored| > StoreLimit then
        var doomed := order[..if |order| < EvictCount then |order| else EvictCount];
        (order[|doomed|..], map k' | k' in stored && k' !in doomed :: stored[k'])
      else (order, stored)
  }

  function LookupMessage<M>(messages: map<string, M>, key: Option<MessageKey>): Option<M>
  {
    if key.None? || key.value.id == "" then None
    else if StoreKey(key.value) in messages then Some(messages[StoreKey(key.value)])
    else None
  }

  class MessageStore<M> {
    var keys: seq<string>
    var messages: map<string, M>

    constructor ()
      ensures keys == [] && messages == map[]
    {
      keys := [];
      messages := map[];
    }

    method StoreMessage(key: Option<MessageKey>, message: M)
      modifies this
      ensures (keys, messages) == StoreIn(old(keys), old(messages), key, message)
    {
      if key.None? || key.value.id == "" {
        return;
      }
      var k := StoreKey(key.value);
      if k !in messages {
        keys := keys + [k];
      }
      messages := messages[k := message];
      if |messages| > StoreLimit {
        var doomed := keys[..if |keys| < EvictCount then |keys| else EvictCount];
        var kept := messages;
        var i := 0;
        while i < |doomed|
          invariant 0 <= i <= |doomed|
          invariant kept == map k' | k' in messages && k' !in doomed[..i] :: messages[k']
        {
          assert doomed[..i + 1] == doomed[..i] + [doomed[i]];
          kept := kept - {doomed[i]};
          i := i + 1;
        }
        assert doomed[..i] == doomed;
        keys := keys[|doomed|..];
        messages := kept;
      }
    }

    function GetStoredMessage(key: Option<MessageKey>): Option<M>
      reads this
    {
      LookupMessage(messages, key)
    }
  }

  /** Storing keeps the invariant (so at most 1000 entries), and the message
      just stored is the one retrieved for its key. A key with no id changes
      nothing. Overwriting a stored key keeps every other entry and the
      order. */
  lemma StoreSpec<M>(keys: seq<string>, messages: map<string, M>, key: Option<MessageKey>, message: M)
    requires StoreInv(keys, messages)
    ensures StoreInv(StoreIn(keys, messages, key, message).0, StoreIn(keys, messages, key, message).1)
    ensures key.Some? && key.value.id != "" ==>
              LookupMessage(StoreIn(keys, messages, key, message).1, key) == Some(message)
    ensures key.None? || key.value.id == "" ==> StoreIn(keys, messages, key, message) == (keys, messages)
    ensures key.Some? && key.value.id != "" && StoreKey(key.value) in messages ==>
              StoreIn(keys, messages, key, message) == (keys, messages[StoreKey(key.value) := message])
  {
    if key.Some? && key.value.id != "" {
      var k := StoreKey(key.value);
      var order := if k in messages then keys else keys + [k];
      var stored := messages[k := message];
      assert forall x :: x in stored <==> x in order;
      assert DistinctKeys(order);
      StoredCount(order, stored);
      if |stored| > StoreLimit {
        assert k == order[|order| - 1];
        assert k !in order[..EvictCount];
      }
    }
  }

  /** The map holds exactly as many entries as the distinct key list. */
  lemma StoredCount<M>(order: seq<string>, stored: map<string, M>)
    requires DistinctKeys(order)
    requires forall x :: x in stored <==> x in order
    ensures |stored| == |order|
  {
    DistinctCard(order);
    assert stored.Keys == set x | x in order;
  }

  lemma {:induction false} DistinctCard(order: seq<string>)
    requires DistinctKeys(order)
    ensures |set x | x in order| == |order|
  {
    if order != [] {
      var init := order[..|order| - 1];
      var last := order[|order| - 1];
      DistinctCard(init);
      assert (set x | x in order) == (set x | x in init) + {last};
      assert last !in init;
    }
  }

  /** Eviction drops only the earliest keys: after storing `k`, another entry
      survives exactly when it was stored and was not among the 200 first
      ones of a store that grew past the limit. */
  lemma EvictionDropsEarliest<M>(keys: seq<string>, messages: map<string, M>, key: MessageKey, message: M, other: string)
    requires StoreInv(keys, messages)
    requires key.id != "" && other != StoreKey(key)
    ensures var after := StoreIn(keys, messages, Some(key), message).1;
            other in after <==>
              other in messages
              && !(StoreKey(key) !in messages && |keys| == StoreLimit && other in keys[..EvictCount])
  {
    var k := StoreKey(key);
    var order := if k in messages then keys else keys + [k];
    var stored := messages[k := message];
    StoredCount(order, stored);
    if k !in messages && |keys| == StoreLimit {
      assert order[..EvictCount] == keys[..EvictCount];
    }
  }

  // ---------------------------------------------------------- lite alternatives

  datatype LiteEntry = LiteEntry(keyword: string, packageId: string, displayName: string)

  datatype LiteApp = LiteApp(packageId: string, displayName: string, originalKeyword: string)

  /** `LITE_ALTERNATIVES`, in its insertion order. */
  const LiteTable: seq<LiteEntry> := [
    LiteEntry("facebook", "facebook-lite", "Facebook Lite"),
    LiteEntry("messenger", "messenger-lite", "Messenger Lite"),
    LiteEntry("instagram", "instagram-lite", "Instagram Lite"),
    LiteEntry("twitter", "twitter-lite", "Twitter Lite"),
    LiteEntry("tiktok", "tiktok-lite", "TikTok Lite"),
    LiteEntry("spotify", "spotify-lite", "Spotify Lite"),
    LiteEntry("youtube", "youtube-go", "YouTube Go"),
    LiteEntry("pubg", "pubg-mobile-lite", "PUBG Mobile Lite"),
    LiteEntry("call of duty", "cod-mobile-garena", "COD Mobile Lite"),
    LiteEntry("netflix", "netflix-lite", "Netflix Lite"),
    LiteEntry("snapchat", "snapchat-lite", "Snapchat Lite"),
    LiteEntry("uber", "uber-lite", "Uber Lite")
  ]

  /** Entry `i` is the first whose keyword occurs in the lower-cased name. */
  predicate FirstLiteMatch(lowerName: string, i: int)
  {
    0 <= i < |LiteTable| && Contains(lowerName, LiteTable[i].keyword)
    && forall j :: 0 <= j < i ==> !Contains(lowerName, LiteTable[j].keyword)
  }

  /** `getLiteAlternative`: the first table entry whose keyword occurs in the
      lower-cased name, or none (always none for an empty name). */
  method GetLiteAlternative(appName: string) returns (r: Option<LiteApp>)
    ensures appName == "" ==> r == None
    ensures r.None? && appName != "" ==> forall i :: 0 <= i < |LiteTable| ==> !Contains(Lower(appName), LiteTable[i].keyword)
    ensures r.Some? ==> exists i :: FirstLiteMatch(Lower(appName), i)
                          && r.value == LiteApp(LiteTable[i].packageId, LiteTable[i].displayName, LiteTable[i].keyword)
  {
    if appName == "" {
      return None;
    }
    var lowerName := Lower(appName);
    var i := 0;
    while i < |LiteTable|
      invariant 0 <= i <= |LiteTable|
      invariant forall j :: 0 <= j < i ==> !Contains(lowerName, LiteTable[j].keyword)
    {
      var entry := LiteTable[i];
      if Contains(lowerName, entry.keyword) {
        assert FirstLiteMatch(lowerName, i);
        return Some(LiteApp(entry.packageId, entry.displayName, entry.keyword));
      }
      i := i + 1;
    }
    return None;
  }
}
