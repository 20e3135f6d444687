/** The Express server's own copy of the limits (server.js): a per-IP 15-minute
    request limiter over the `rateLimitStore` map, trimmed when it grows past 1000
    entries, and the daily scan quota over two maps, `dailyScansStore` (keyed by user
    id or `ip_<ip>`) and `guestScansByIp` (keyed by `ip_<ip>`), with the login bonus
    and an hourly sweep of records from other days. */
module ServerLimits {
  import opened Text
  import opened Quota

  const EvictionThreshold: int := 1000

  const TooManyRequestsMessage: string := "Too many requests. Please try again later."

  function Get<V>(m: map<string, V>, k: string): (r: Option<V>)
    ensures r.Some? <==> k in m
    ensures r.Some? ==> r.value == m[k]
  {
    if k in m then Some(m[k]) else None
  }

  function GuestIpKey(userIp: string): string { "ip_" + userIp }

  // ---- rateLimit ----

  predicate Stale(w: RateWindow, now: int) {
    now - w.resetTime > RateLimitWindow
  }

  /** The windows left after the clean-up: exactly those not stale by more than a window. */
  function Evict(windows: map<string, RateWindow>, now: int): (r: map<string, RateWindow>)
    ensures forall k :: k in r <==> k in windows && !Stale(windows[k], now)
    ensures forall k :: k in r ==> r[k] == windows[k]
  {
    map k | k in windows && !Stale(windows[k], now) :: windows[k]
  }

  /** The store as the limiter reads it: cleaned up only when it holds more than 1000 entries. */
  function Cleaned(windows: map<string, RateWindow>, now: int): map<string, RateWindow> {
    if |windows| > EvictionThreshold then Evict(windows, now) else windows
  }

  /** The verdict is the one the uncleaned store would give, and besides the caller's
      window the store only loses stale entries. */
  function RateLimitStep(windows: map<string, RateWindow>, ip: string, now: int)
    : (r: (RateVerdict, map<string, RateWindow>))
    ensures r.0 == RateDecide(Get(windows, ip), now).0
    ensures ip in r.1 || r.0.TooMany?
    ensures forall k :: k != ip && k in r.1 ==> k in windows && r.1[k] == windows[k]
  {
    EvictionInvisibleToCaller(windows, ip, now);
    var m := Cleaned(windows, now);
    var (verdict, write) := RateDecide(Get(m, ip), now);
    (verdict, if write.Some? then m[ip := write.value] else m)
  }

  /** The clean-up is invisible to the caller: removing stale windows never changes the
      verdict or the window stored for the requesting IP, because a stale window has
      expired and would be restarted anyway. */
  lemma {:induction false} EvictionInvisibleToCaller(windows: map<string, RateWindow>, ip: string, now: int)
    ensures RateDecide(Get(Cleaned(windows, now), ip), now) == RateDecide(Get(windows, ip), now)
  {
    if ip in windows && ip !in Cleaned(windows, now) {
      assert Stale(windows[ip], now);
      assert now > windows[ip].resetTime;
    }
  }

  /** rateLimit: an unseen IP or an expired window gets count 1 and a reset 15 minutes
      from now; a full window yields 429 with the seconds until its reset and changes
      nothing; otherwise the count rises by one. Other IPs' windows only lose stale entries. */
  lemma {:induction false} RateLimitOutcomes(windows: map<string, RateWindow>, ip: string, now: int)
    ensures var (v, m) := RateLimitStep(windows, ip, now);
            var w := Get(windows, ip);
            (w.None? || now > w.value.resetTime ==>
               v == Allowed && m[ip] == RateWindow(1, now + RateLimitWindow))
            && (w.Some? && now <= w.value.resetTime && w.value.count >= RateLimitMaxRequests ==>
               v.TooMany? && m == Cleaned(windows, now)
               && v.retryAfter * 1000 >= w.value.resetTime - now && (v.retryAfter - 1) * 1000 < w.value.resetTime - now)
            && (w.Some? && now <= w.value.resetTime && w.value.count < RateLimitMaxRequests ==>
               v == Allowed && m[ip] == w.value.(count := w.value.count + 1))
            && (forall k :: k != ip && k in m ==> k in windows && m[k] == windows[k])
  {
    EvictionInvisibleToCaller(windows, ip, now);
  }

  // ---- the daily ledger ----

  datatype Ledger = Ledger(daily: map<string, DayRecord>, guests: map<string, DayRecord>)

  predicate BonusFires(l: Ledger, userId: string, userIp: string, today: string) {
    var user := Get(l.daily, userId);
    var guest := Get(l.guests, GuestIpKey(userIp));
    !(IsToday(user, today) && user.value.bonusApplied) && IsToday(guest, today) && guest.value.count > 0
  }

  /** The bonus is granted exactly when it fires, and it touches only the user's record
      and the IP's guest record. */
  function BonusStep(l: Ledger, userId: string, userIp: string, today: string): (r: (BonusResult, Ledger))
    ensures r.0.BonusGranted? <==> BonusFires(l, userId, userIp, today)
    ensures r.0.NoBonus? ==> r.1 == l
    ensures forall k :: k != userId ==> Get(r.1.daily, k) == Get(l.daily, k)
    ensures forall k :: k != GuestIpKey(userIp) ==> Get(r.1.guests, k) == Get(l.guests, k)
  {
    if BonusFires(l, userId, userIp, today) then
      var used := l.guests[GuestIpKey(userIp)].count;
      (BonusGranted(used, BonusScans, BonusRemaining(used)),
       Ledger(l.daily[userId := BonusRecord(used, today)], l.guests - {GuestIpKey(userIp)}))
    else (NoBonus, l)
  }

  function AfterBonus(l: Ledger, userId: string, userIp: string, today: string): Ledger {
    if userId != "" && userIp != "" then BonusStep(l, userId, userIp, today).1 else l
  }

  /** The reply is for the caller's level and limit; only the caller's record, the
      user's bonus record and the IP's guest record can change. */
  function DailyStep(l: Ledger, userId: string, userIp: string, today: string, midnight: string)
    : (r: (ScanResult, Ledger))
    ensures r.0.level == UserLevel(userId) && r.0.limit == Limit(UserLevel(userId))
    ensures forall k :: k != QuotaKey(userId, userIp) && k != userId ==> Get(r.1.daily, k) == Get(l.daily, k)
    ensures forall k :: k != GuestIpKey(userIp) ==> Get(r.1.guests, k) == Get(l.guests, k)
  {
    var level := UserLevel(userId);
    var limit := Limit(level);
    var key := QuotaKey(userId, userIp);
    var l1 := AfterBonus(l, userId, userIp, today);
    var rec := Get(l1.daily, key);
    if userId != "" && userIp != "" && BonusFires(l, userId, userIp, today) && IsToday(rec, today) then
      (ScanResult(limit - rec.value.count > 0, Remaining(rec, today, limit), limit, level, None, true), l1)
    else
      var d := Decide(rec, today, limit);
      var daily := match d
        case StartDay => l1.daily[key := FirstScan(today, level)]
        case Deny => l1.daily
        case CountScan(n) => l1.daily[key := rec.value.(count := n)];
      var guests := if userId == "" && d != Deny then
          l1.guests[GuestIpKey(userIp) := if d == StartDay then FirstGuestScan(today)
                                          else TrackGuest(Get(l1.guests, GuestIpKey(userIp)), today)]
        else l1.guests;
      (Reply(d, limit, level, midnight), Ledger(daily, guests))
  }

  /** The report is for the caller's level and never negative; only the bonus can write. */
  function RemainingStep(l: Ledger, userId: string, userIp: string, today: string): (r: (RemainingInfo, Ledger))
    ensures r.0.level == UserLevel(userId) && r.0.limit == Limit(UserLevel(userId)) && r.0.remaining >= 0
    ensures forall k :: k != userId ==> Get(r.1.daily, k) == Get(l.daily, k)
    ensures forall k :: k != GuestIpKey(userIp) ==> Get(r.1.guests, k) == Get(l.guests, k)
  {
    var l1 := AfterBonus(l, userId, userIp, today);
    (RemainingReport(Get(l1.daily, QuotaKey(userId, userIp)), today, UserLevel(userId)), l1)
  }

  /** The hourly sweep keeps exactly today's records. */
  function Sweep(daily: map<string, DayRecord>, today: string): (r: map<string, DayRecord>)
    ensures forall k :: k in r <==> k in daily && daily[k].date == today
    ensures forall k :: k in r ==> r[k] == daily[k]
  {
    map k | k in daily && daily[k].date == today :: daily[k]
  }

  // ---- properties ----

  /** A first scan of the day stores count 1 and reports limit - 1; a guest's IP record starts at 1. */
  lemma FreshDayStartsAtOne(l: Ledger, userId: string, userIp: string, today: string, midnight: string)
    requires !IsToday(Get(l.daily, QuotaKey(userId, userIp)), today)
    requires !(userId != "" && userIp != "" && BonusFires(l, userId, userIp, today))
    ensures var (r, l') := DailyStep(l, userId, userIp, today, midnight);
            r.allowed && r.remaining == Limit(UserLevel(userId)) - 1
            && l'.daily == l.daily[QuotaKey(userId, userIp) := FirstScan(today, UserLevel(userId))]
            && l'.guests == (if userId == "" then l.guests[GuestIpKey(userIp) := FirstGuestScan(today)] else l.guests)
  {
  }

  /** At the limit the scan is refused and neither map changes. The bonus path is never
      a refusal because it leaves the count at 0. */
  lemma {:induction false} DenialChangesNothing(l: Ledger, userId: string, userIp: string, today: string, midnight: string)
    ensures var (r, l') := DailyStep(l, userId, userIp, today, midnight);
            !r.allowed ==> l' == l && r.remaining == 0 && r.resetTime == Some(midnight)
  {
    if userId != "" && userIp != "" && BonusFires(l, userId, userIp, today) {
      var l1 := BonusStep(l, userId, userIp, today).1;
      assert l1.daily[userId].count == 0;
    }
  }

  /** Under the limit the count rises by exactly one and a guest's IP record is
      incremented when it is today's, restarted at 1 otherwise. */
  lemma AllowedScanCountsOne(l: Ledger, userId: string, userIp: string, today: string, midnight: string)
    requires !(userId != "" && userIp != "" && BonusFires(l, userId, userIp, today))
    requires IsToday(Get(l.daily, QuotaKey(userId, userIp)), today)
    requires l.daily[QuotaKey(userId, userIp)].count < Limit(UserLevel(userId))
    ensures var rec := l.daily[QuotaKey(userId, userIp)];
            var (r, l') := DailyStep(l, userId, userIp, today, midnight);
            r.allowed && r.remaining == Limit(UserLevel(userId)) - (rec.count + 1) >= 0
            && l'.daily == l.daily[QuotaKey(userId, userIp) := rec.(count := rec.count + 1)]
            && l'.guests == (if userId == "" then l.guests[GuestIpKey(userIp) := TrackGuest(Get(l.guests, GuestIpKey(userIp)), today)]
                             else l.guests)
  {
  }

  /** The bonus replaces any of today's user records without the bonus flag, even one
      that has used all five scans, by a record with count 0, and removes the IP's guest
      record; the same day it never fires again. */
  lemma {:induction false} BonusResetsUserRecord(l: Ledger, userId: string, userIp: string, today: string)
    requires BonusFires(l, userId, userIp, today)
    ensures var (b, l') := BonusStep(l, userId, userIp, today);
            b.BonusGranted? && b.remaining == FreeLimit
            && l'.daily == l.daily[userId := DayRecord(0, today, Some(Free), true)]
            && GuestIpKey(userIp) !in l'.guests
            && BonusStep(l', userId, userIp, today) == (NoBonus, l')
  {
    var l' := BonusStep(l, userId, userIp, today).1;
    assert Get(l'.daily, userId) == Some(DayRecord(0, today, Some(Free), true));
  }

  /** getRemainingScans reports the full limit without a record for today and
      max(0, limit - count) otherwise; it changes the maps only through the bonus. */
  lemma RemainingReportsQuota(l: Ledger, userId: string, userIp: string, today: string)
    ensures var (r, l') := RemainingStep(l, userId, userIp, today);
            var rec := Get(l'.daily, QuotaKey(userId, userIp));
            r.limit == Limit(UserLevel(userId))
            && (!IsToday(rec, today) ==> r.remaining == r.limit)
            && (IsToday(rec, today) ==> r.remaining == (if r.limit - rec.value.count > 0 then r.limit - rec.value.count else 0))
            && l' == AfterBonus(l, userId, userIp, today)
            && (!(userId != "" && userIp != "" && BonusFires(l, userId, userIp, today)) ==> l' == l)
  {
  }

  /** The sweep is idempotent and never removes a record for today. */
  lemma SweepKeepsToday(daily: map<string, DayRecord>, today: string)
    ensures Sweep(Sweep(daily, today), today) == Sweep(daily, today)
    ensures forall k :: k in daily && daily[k].date == today ==> k in Sweep(daily, today)
  {
  }

  /** The server's module-level state. */
  class Server {
    var rateLimitStore: map<string, RateWindow>
    var dailyScansStore: map<string, DayRecord>
    var guestScansByIp: map<string, DayRecord>

    constructor ()
      ensures rateLimitStore == map[] && dailyScansStore == map[] && guestScansByIp == map[]
    {
      rateLimitStore := map[];
      dailyScansStore := map[];
      guestScansByIp := map[];
    }

    function Scans(): Ledger
      reads this
    {
      Ledger(dailyScansStore, guestScansByIp)
    }

    /** Deletes every window stale by more than one window length, one entry at a time. */
    method EvictStale(now: int)
      modifies this`rateLimitStore
      ensures rateLimitStore == Evict(old(rateLimitStore), now)
    {
      var keys := rateLimitStore.Keys;
      while keys != {}
        invariant keys <= old(rateLimitStore).Keys
        invariant forall k :: k in rateLimitStore <==>
                    k in old(rateLimitStore) && (k in keys || !Stale(old(rateLimitStore)[k], now))
        invariant forall k :: k in rateLimitStore ==> rateLimitStore[k] == old(rateLimitStore)[k]
        decreases keys
      {
        var k :| k in keys;
        if Stale(rateLimitStore[k], now) {
          rateLimitStore := rateLimitStore - {k};
        }
        keys := keys - {k};
      }
    }

    method RateLimit(ip: string, now: int) returns (verdict: RateVerdict)
      modifies this`rateLimitStore
      ensures (verdict, rateLimitStore) == RateLimitStep(old(rateLimitStore), ip, now)
    {
      if |rateLimitStore| > EvictionThreshold {
        EvictStale(now);
      }
      if ip !in rateLimitStore {
        rateLimitStore := rateLimitStore[ip := RateWindow(1, now + RateLimitWindow)];
        return Allowed;
      }
      var record := rateLimitStore[ip];
      if now > record.resetTime {
        rateLimitStore := rateLimitStore[ip := RateWindow(1, now + RateLimitWindow)];
        return Allowed;
      }
      if record.count >= RateLimitMaxRequests {
        return TooMany(CeilSeconds(record.resetTime - now));
      }
      rateLimitStore := rateLimitStore[ip := record.(count := record.count + 1)];
      return Allowed;
    }

    method ApplyLoginBonus(userId: string, userIp: string, today: string) returns (bonus: BonusResult)
      modifies this`dailyScansStore, this`guestScansByIp
      ensures (bonus, Scans()) == BonusStep(old(Scans()), userId, userIp, today)
    {
      var guestKey := GuestIpKey(userIp);
      if userId in dailyScansStore {
        var existing := dailyScansStore[userId];
        if existing.date == today && existing.bonusApplied {
          return NoBonus;
        }
      }
      if guestKey in guestScansByIp {
        var guest := guestScansByIp[guestKey];
        if guest.date == today && guest.count > 0 {
          var used := guest.count;
          var remainingAfterBonus := if FreeLimit < used + BonusScans then FreeLimit else used + BonusScans;
          dailyScansStore := dailyScansStore[userId := DayRecord(FreeLimit - remainingAfterBonus, today, Some(Free), true)];
          guestScansByIp := guestScansByIp - {guestKey};
          return BonusGranted(used, BonusScans, remainingAfterBonus);
        }
      }
      return NoBonus;
    }

    method CheckDailyScanLimit(userId: string, userIp: string, today: string, midnight: string)
      returns (result: ScanResult)
      modifies this`dailyScansStore, this`guestScansByIp
      ensures (result, Scans()) == DailyStep(old(Scans()), userId, userIp, today, midnight)
    {
      var level := UserLevel(userId);
      var limit := Limit(level);
      var key := QuotaKey(userId, userIp);
      if userId != "" && userIp != "" {
        var bonus := ApplyLoginBonus(userId, userIp, today);
        if bonus.BonusGranted? && key in dailyScansStore && dailyScansStore[key].date == today {
          var remaining := limit - dailyScansStore[key].count;
          return ScanResult(remaining > 0, if remaining > 0 then remaining else 0, limit, level, None, true);
        }
      }
      if key !in dailyScansStore || dailyScansStore[key].date != today {
        dailyScansStore := dailyScansStore[key := DayRecord(1, today, Some(level), false)];
        if userId == "" {
          guestScansByIp := guestScansByIp[GuestIpKey(userIp) := DayRecord(1, today, None, false)];
        }
        return ScanResult(true, limit - 1, limit, level, None, false);
      }
      var record := dailyScansStore[key];
      if record.count >= limit {
        return ScanResult(false, 0, limit, level, Some(midnight), false);
      }
      record := record.(count := record.count + 1);
      dailyScansStore := dailyScansStore[key := record];
      if userId == "" {
        var guestKey := GuestIpKey(userIp);
        if guestKey in guestScansByIp && guestScansByIp[guestKey].date == today {
          var guest := guestScansByIp[guestKey];
          guestScansByIp := guestScansByIp[guestKey := guest.(count := guest.count + 1)];
        } else {
          guestScansByIp := guestScansByIp[guestKey := DayRecord(1, today, None, false)];
        }
      }
      return ScanResult(true, limit - record.count, limit, level, None, false);
    }

    method GetRemainingScans(userId: string, userIp: string, today: string) returns (info: RemainingInfo)
      modifies this`dailyScansStore, this`guestScansByIp
      ensures (info, Scans()) == RemainingStep(old(Scans()), userId, userIp, today)
    {
      var level := UserLevel(userId);
      var limit := Limit(level);
      var key := QuotaKey(userId, userIp);
      if userId != "" && userIp != "" {
        var _ := ApplyLoginBonus(userId, userIp, today);
      }
      if key !in dailyScansStore || dailyScansStore[key].date != today {
        return RemainingInfo(limit, limit, level);
      }
      var remaining := limit - dailyScansStore[key].count;
      return RemainingInfo(if remaining > 0 then remaining else 0, limit, level);
    }

    /** The body of the hourly clean-up: delete every record not dated today. */
    method SweepDailyScans(today: string)
      modifies this`dailyScansStore
      ensures dailyScansStore == Sweep(old(dailyScansStore), today)
    {
      var keys := dailyScansStore.Keys;
      while keys != {}
        invariant keys <= old(dailyScansStore).Keys
        invariant forall k :: k in dailyScansStore <==>
                    k in old(dailyScansStore) && (k in keys || old(dailyScansStore)[k].date == today)
        invariant forall k :: k in dailyScansStore ==> dailyScansStore[k] == old(dailyScansStore)[k]
        decreases keys
      {
        var k :| k in keys;
        if dailyScansStore[k].date != today {
          dailyScansStore := dailyScansStore - {k};
        }
        keys := keys - {k};
      }
    }
  }
}
