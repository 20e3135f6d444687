/** The persistent quota ledger (lib/rate-limit-storage.js): one key-value table holds
    the 15-minute request windows (`rate_limit:<ip>`), the per-caller daily scan
    records (`daily_scan:<userId or ip_<ip>>`) and the per-IP guest records
    (`guest_scan:ip_<ip>`). A read that cannot reach the table (no configuration, a
    failing status or a throw) answers nothing, and a write that cannot reach it is
    dropped; the requests are let through either way.

    The semantics is given by pure step functions over a `Kv` value (the table and
    whether reads and writes reach it); the class `RateLimitStore` runs the same operations
    step by step on its `store` field and is proved to agree with them. */
module RateLimitStorage {
  import opened Text
  import opened Quota

  datatype Value = Window(window: RateWindow) | Day(day: DayRecord)

  /** The table as one request sees it. `readable` is false when reads do not reach it
      during the request (Supabase not configured, a status other than ok, a throw),
      and `writable` likewise for writes and deletes; an unconfigured table is neither. */
  datatype Kv = Kv(readable: bool, writable: bool, store: map<string, Value>)

  function RateKey(ip: string): string { "rate_limit:" + ip }

  function ScanKey(userId: string, userIp: string): string { "daily_scan:" + QuotaKey(userId, userIp) }

  function UserScanKey(userId: string): string { "daily_scan:" + userId }

  function GuestKey(userIp: string): string { "guest_scan:ip_" + userIp }

  predicate IsRateKey(k: string) { StartsWith(k, "rate_limit:") }

  /** The three key families never collide: they differ in their first character. */
  lemma KeyFamiliesDiffer(a: string, b: string, c: string)
    ensures ("rate_limit:" + a)[0] == 'r' && ("daily_scan:" + b)[0] == 'd' && ("guest_scan:ip_" + c)[0] == 'g'
    ensures IsRateKey(RateKey(a)) && !IsRateKey("daily_scan:" + b) && !IsRateKey(GuestKey(c))
    ensures "daily_scan:" + b != GuestKey(c)
  {
    assert ("daily_scan:" + b)[..11][0] == 'd';
    assert ("guest_scan:ip_" + c)[..11][0] == 'g';
  }

  // ---- the table primitives (getValue / setValue / deleteValue) ----

  /** `getValue`: the stored value, or None when the read does not reach the table or
      the key is absent. */
  function Lookup(kv: Kv, key: string): (v: Option<Value>)
    ensures v.Some? <==> kv.readable && key in kv.store
    ensures v.Some? ==> v.value == kv.store[key]
  {
    if kv.readable && key in kv.store then Some(kv.store[key]) else None
  }

  /** `setValue`: an upsert, dropped when the write does not reach the table. */
  function Store(kv: Kv, key: string, v: Value): (r: Kv)
    ensures r.readable == kv.readable && r.writable == kv.writable
    ensures kv.writable ==> key in r.store && r.store[key] == v
    ensures kv.readable && kv.writable ==> Lookup(r, key) == Some(v)
    ensures forall k :: k != key ==> Lookup(r, k) == Lookup(kv, k)
    ensures !kv.writable ==> r == kv
  {
    if kv.writable then kv.(store := kv.store[key := v]) else kv
  }

  /** `deleteValue`: a removal, dropped when it does not reach the table. */
  function Delete(kv: Kv, key: string): (r: Kv)
    ensures r.readable == kv.readable && r.writable == kv.writable
    ensures kv.writable ==> key !in r.store
    ensures forall k :: k != key ==> Lookup(r, k) == Lookup(kv, k)
    ensures !kv.writable ==> r == kv
  {
    if kv.writable then kv.(store := kv.store - {key}) else kv
  }

  function WindowAt(kv: Kv, key: string): Option<RateWindow> {
    match Lookup(kv, key)
    case Some(Window(w)) => Some(w)
    case _ => None
  }

  function DayAt(kv: Kv, key: string): Option<DayRecord> {
    match Lookup(kv, key)
    case Some(Day(d)) => Some(d)
    case _ => None
  }

  function Count(v: Value): int {
    match v
    case Window(w) => w.count
    case Day(d) => d.count
  }

  /** Every count is non-negative and windows live exactly under `rate_limit:` keys. */
  predicate WellFormed(kv: Kv) {
    forall k :: k in kv.store ==> Count(kv.store[k]) >= 0 && (kv.store[k].Window? <==> IsRateKey(k))
  }

  // ---- checkRateLimit ----

  /** A refusal writes nothing, and only the caller's own window can change. */
  function RateStep(kv: Kv, ip: string, now: int): (r: (RateVerdict, Kv))
    ensures r.0.TooMany? ==> r.1 == kv
    ensures r.1.readable == kv.readable && r.1.writable == kv.writable
    ensures forall k :: k != RateKey(ip) ==> Lookup(r.1, k) == Lookup(kv, k)
  {
    var (verdict, write) := RateDecide(WindowAt(kv, RateKey(ip)), now);
    (verdict, if write.Some? then Store(kv, RateKey(ip), Window(write.value)) else kv)
  }

  // ---- applyLoginBonus ----

  /** The bonus fires when the user has not had it today and this IP scanned as a guest today. */
  predicate BonusFires(kv: Kv, userId: string, userIp: string, today: string) {
    var user := DayAt(kv, UserScanKey(userId));
    var guest := DayAt(kv, GuestKey(userIp));
    !(IsToday(user, today) && user.value.bonusApplied) && IsToday(guest, today) && guest.value.count > 0
  }

  /** The bonus is granted exactly when it fires, and it touches only the user's record
      and the IP's guest record. */
  function BonusStep(kv: Kv, userId: string, userIp: string, today: string): (r: (BonusResult, Kv))
    ensures r.0.BonusGranted? <==> BonusFires(kv, userId, userIp, today)
    ensures r.0.NoBonus? ==> r.1 == kv
    ensures r.1.readable == kv.readable && r.1.writable == kv.writable
    ensures forall k :: k != UserScanKey(userId) && k != GuestKey(userIp) ==> Lookup(r.1, k) == Lookup(kv, k)
  {
    if BonusFires(kv, userId, userIp, today) then
      var used := DayAt(kv, GuestKey(userIp)).value.count;
      (BonusGranted(used, BonusScans, BonusRemaining(used)),
       Delete(Store(kv, UserScanKey(userId), Day(BonusRecord(used, today))), GuestKey(userIp)))
    else (NoBonus, kv)
  }

  /** The store as checkDailyScanLimit and getRemainingScans see it after the bonus check,
      which only runs for a logged-in user with a known IP. */
  function AfterBonus(kv: Kv, userId: string, userIp: string, today: string): Kv {
    if userId != "" && userIp != "" then BonusStep(kv, userId, userIp, today).1 else kv
  }

  predicate BonusInCheck(kv: Kv, userId: string, userIp: string, today: string) {
    userId != "" && userIp != "" && BonusFires(kv, userId, userIp, today)
  }

  // ---- checkDailyScanLimit ----

  /** The reply is for the caller's level and limit, and only the caller's scan record,
      the user's bonus record and the IP's guest record can change. */
  function DailyStep(kv: Kv, userId: string, userIp: string, today: string, midnight: string): (r: (ScanResult, Kv))
    ensures r.0.level == UserLevel(userId) && r.0.limit == Limit(UserLevel(userId))
    ensures r.1.readable == kv.readable && r.1.writable == kv.writable
    ensures forall k :: k != ScanKey(userId, userIp) && k != UserScanKey(userId) && k != GuestKey(userIp) ==>
              Lookup(r.1, k) == Lookup(kv, k)
  {
    var level := UserLevel(userId);
    var limit := Limit(level);
    var kv1 := AfterBonus(kv, userId, userIp, today);
    var rec := DayAt(kv1, ScanKey(userId, userIp));
    if BonusInCheck(kv, userId, userIp, today) && IsToday(rec, today) then
      (ScanResult(limit - rec.value.count > 0, Remaining(rec, today, limit), limit, level, None, true), kv1)
    else CountStep(kv1, userId, userIp, today, midnight)
  }

  /** The counting half of checkDailyScanLimit, on the store as the bonus check left it:
      start, refuse or count today's record, and for a guest also track the IP's record. */
  function CountStep(kv1: Kv, userId: string, userIp: string, today: string, midnight: string): (r: (ScanResult, Kv)) {
    var level := UserLevel(userId);
    var limit := Limit(level);
    var key := ScanKey(userId, userIp);
    var rec := DayAt(kv1, key);
    var d := Decide(rec, today, limit);
    var kv2 := match d
      case StartDay => Store(kv1, key, Day(FirstScan(today, level)))
      case Deny => kv1
      case CountScan(n) => Store(kv1, key, Day(rec.value.(count := n)));
    var kv3 := if userId == "" && d != Deny then
        Store(kv2, GuestKey(userIp), Day(if d == StartDay then FirstGuestScan(today)
                                           else TrackGuest(DayAt(kv2, GuestKey(userIp)), today)))
      else kv2;
    (Reply(d, limit, level, midnight), kv3)
  }

  // ---- getRemainingScans ----

  /** The report is for the caller's level and never negative; only the bonus can write. */
  function RemainingStep(kv: Kv, userId: string, userIp: string, today: string): (r: (RemainingInfo, Kv))
    ensures r.0.level == UserLevel(userId) && r.0.limit == Limit(UserLevel(userId)) && r.0.remaining >= 0
    ensures r.1.readable == kv.readable && r.1.writable == kv.writable
    ensures forall k :: k != UserScanKey(userId) && k != GuestKey(userIp) ==> Lookup(r.1, k) == Lookup(kv, k)
  {
    var kv1 := AfterBonus(kv, userId, userIp, today);
    (RemainingReport(DayAt(kv1, ScanKey(userId, userIp)), today, UserLevel(userId)), kv1)
  }

  // ---- decrementScanCount ----

  datatype DecrementResult = DecrementResult(success: bool, remaining: int, limit: nat, level: Level,
                                             count: Option<int>, message: Option<string>)

  const NothingToDecrement: string := "No scan count to decrement"

  /** The refund always succeeds, never reports a negative count, and writes only the
      caller's scan record. */
  function DecrementStep(kv: Kv, userId: string, userIp: string, today: string, amount: int): (r: (DecrementResult, Kv))
    ensures r.0.success && r.0.limit == Limit(UserLevel(userId))
    ensures r.0.count.Some? ==> r.0.count.value >= 0
    ensures r.1.readable == kv.readable && r.1.writable == kv.writable
    ensures forall k :: k != ScanKey(userId, userIp) ==> Lookup(r.1, k) == Lookup(kv, k)
  {
    var level := UserLevel(userId);
    var limit := Limit(level);
    var key := ScanKey(userId, userIp);
    var rec := DayAt(kv, key);
    if !IsToday(rec, today) then
      (DecrementResult(true, limit, limit, level, None, Some(NothingToDecrement)), kv)
    else
      var n := if rec.value.count - amount > 0 then rec.value.count - amount else 0;
      var updated := rec.value.(count := n);
      (DecrementResult(true, Remaining(Some(updated), today, limit), limit, level, Some(n), None),
       Store(kv, key, Day(updated)))
  }

  // ---- properties ----

  /** Reading back after the bonus: the user's record is today's, carries the bonus
      flag and count 0, and the IP's guest record is gone. When the writes do not reach
      the table the bonus is still reported, but nothing of it is kept. */
  lemma BonusEffect(kv: Kv, userId: string, userIp: string, today: string)
    requires BonusFires(kv, userId, userIp, today)
    ensures kv.readable
    ensures BonusStep(kv, userId, userIp, today).0.BonusGranted?
    ensures BonusStep(kv, userId, userIp, today).0.remaining == FreeLimit
    ensures kv.writable ==>
              DayAt(BonusStep(kv, userId, userIp, today).1, UserScanKey(userId))
              == Some(DayRecord(0, today, Some(Free), true))
    ensures kv.writable ==> Lookup(BonusStep(kv, userId, userIp, today).1, GuestKey(userIp)).None?
    ensures !kv.writable ==> BonusStep(kv, userId, userIp, today).1 == kv
  {
    KeyFamiliesDiffer("", userId, userIp);
  }

  /** The bonus is granted at most once per day as long as its writes land: straight
      after it fires, asking again grants nothing and changes nothing. When they do not,
      asking again grants it again. */
  lemma {:induction false} BonusOncePerDay(kv: Kv, userId: string, userIp: string, today: string)
    requires BonusFires(kv, userId, userIp, today)
    ensures var kv1 := BonusStep(kv, userId, userIp, today).1;
            kv.writable ==> BonusStep(kv1, userId, userIp, today) == (NoBonus, kv1)
    ensures var kv1 := BonusStep(kv, userId, userIp, today).1;
            !kv.writable ==> BonusStep(kv1, userId, userIp, today).0.BonusGranted?
  {
    BonusEffect(kv, userId, userIp, today);
  }

  /** When the bonus has already been applied today, the bonus check is a no-op. */
  lemma BonusAlreadyApplied(kv: Kv, userId: string, userIp: string, today: string)
    requires IsToday(DayAt(kv, UserScanKey(userId)), today) && DayAt(kv, UserScanKey(userId)).value.bonusApplied
    ensures BonusStep(kv, userId, userIp, today) == (NoBonus, kv)
  {
  }

  /** A first scan of the day (no record, or one from another day) stores count 1
      dated today and reports limit - 1 remaining; guests also start their IP record at 1. */
  lemma FreshDayStartsAtOne(kv: Kv, userId: string, userIp: string, today: string, midnight: string)
    requires kv.readable && kv.writable
    requires !IsToday(DayAt(kv, ScanKey(userId, userIp)), today)
    requires !BonusInCheck(kv, userId, userIp, today)
    ensures var (r, kv') := DailyStep(kv, userId, userIp, today, midnight);
            r.allowed && r.remaining == Limit(UserLevel(userId)) - 1 && !r.bonusApplied
            && DayAt(kv', ScanKey(userId, userIp)) == Some(DayRecord(1, today, Some(UserLevel(userId)), false))
            && (userId == "" ==> DayAt(kv', GuestKey(userIp)) == Some(DayRecord(1, today, None, false)))
  {
    KeyFamiliesDiffer("", QuotaKey(userId, userIp), userIp);
  }

  /** With the bonus out of the picture, a scan of a caller already under the limit
      today raises the count by exactly one, keeps the rest of the record, and reports
      limit - newCount, which is never negative. */
  lemma AllowedScanCountsOne(kv: Kv, userId: string, userIp: string, today: string, midnight: string)
    requires kv.writable
    requires !BonusInCheck(kv, userId, userIp, today)
    requires IsToday(DayAt(kv, ScanKey(userId, userIp)), today)
    requires DayAt(kv, ScanKey(userId, userIp)).value.count < Limit(UserLevel(userId))
    ensures var rec := DayAt(kv, ScanKey(userId, userIp)).value;
            var (r, kv') := DailyStep(kv, userId, userIp, today, midnight);
            r.allowed && DayAt(kv', ScanKey(userId, userIp)) == Some(rec.(count := rec.count + 1))
            && r.remaining == Limit(UserLevel(userId)) - (rec.count + 1) && r.remaining >= 0
  {
    KeyFamiliesDiffer("", QuotaKey(userId, userIp), userIp);
  }

  /** A guest's allowed scan also updates the IP's guest record: a first scan of the day
      sets it to 1, a later one increments today's guest record or restarts a stale one. */
  lemma GuestScanTracked(kv: Kv, userIp: string, today: string, midnight: string)
    requires kv.readable && kv.writable
    requires DailyStep(kv, "", userIp, today, midnight).0.allowed
    ensures var kv' := DailyStep(kv, "", userIp, today, midnight).1;
            var rec := DayAt(kv, ScanKey("", userIp));
            var guest := DayAt(kv, GuestKey(userIp));
            DayAt(kv', GuestKey(userIp)) ==
              Some(if !IsToday(rec, today) then FirstGuestScan(today) else TrackGuest(guest, today))
  {
    KeyFamiliesDiffer("", QuotaKey("", userIp), userIp);
  }

  /** A refused scan writes nothing: the store is exactly as before, and the reply
      reports no scans left and the next reset. The bonus path refuses only when the
      bonus could not be written (otherwise it leaves the user's count at 0), and then
      it reports no reset time. */
  lemma {:induction false} DenialWritesNothing(kv: Kv, userId: string, userIp: string, today: string, midnight: string)
    ensures var (r, kv') := DailyStep(kv, userId, userIp, today, midnight);
            !r.allowed ==>
              kv' == kv && r.remaining == 0
              && r.resetTime == (if r.bonusApplied then None else Some(midnight))
              && (r.bonusApplied ==> !kv.writable)
  {
    if BonusInCheck(kv, userId, userIp, today) {
      BonusEffect(kv, userId, userIp, today);
      assert QuotaKey(userId, userIp) == userId;
    }
  }

  /** When the bonus fires inside the scan check and is written, the request is allowed
      without being counted: the user's record stays at 0 and all five scans are reported
      remaining. */
  lemma {:induction false} BonusScanIsNotCounted(kv: Kv, userId: string, userIp: string, today: string, midnight: string)
    requires BonusInCheck(kv, userId, userIp, today)
    ensures var (r, kv') := DailyStep(kv, userId, userIp, today, midnight);
            kv.writable ==>
              r.allowed && r.bonusApplied && r.remaining == FreeLimit
              && kv' == BonusStep(kv, userId, userIp, today).1
              && DayAt(kv', ScanKey(userId, userIp)).value.count == 0
  {
    BonusEffect(kv, userId, userIp, today);
    assert QuotaKey(userId, userIp) == userId;
  }

  /** The reported remaining count always lies in [0, limit] on a well-formed store. */
  lemma {:induction false} RemainingWithinLimit(kv: Kv, userId: string, userIp: string, today: string, midnight: string)
    requires WellFormed(kv)
    ensures var r := DailyStep(kv, userId, userIp, today, midnight).0;
            0 <= r.remaining <= r.limit
    ensures var r := RemainingStep(kv, userId, userIp, today).0;
            0 <= r.remaining <= r.limit
  {
    if BonusInCheck(kv, userId, userIp, today) {
      BonusEffect(kv, userId, userIp, today);
      assert QuotaKey(userId, userIp) == userId;
    }
    var kv1 := AfterBonus(kv, userId, userIp, today);
    BonusPreservesWellFormed(kv, userId, userIp, today);
    var key := ScanKey(userId, userIp);
    if key in kv1.store && kv1.readable {
      assert Count(kv1.store[key]) >= 0;
    }
  }

  /** decrementScanCount floors the count at 0 and reports max(0, limit - count);
      without a record for today it writes nothing and reports the full limit. */
  lemma DecrementFloorsAtZero(kv: Kv, userId: string, userIp: string, today: string, amount: int)
    ensures var (r, kv') := DecrementStep(kv, userId, userIp, today, amount);
            var rec := DayAt(kv, ScanKey(userId, userIp));
            var limit := Limit(UserLevel(userId));
            r.success
            && (!IsToday(rec, today) ==> kv' == kv && r.remaining == limit && r.count.None?)
            && (IsToday(rec, today) ==>
                  r.count == Some(if rec.value.count - amount > 0 then rec.value.count - amount else 0)
                  && r.count.value >= 0
                  && r.remaining == (if limit - r.count.value > 0 then limit - r.count.value else 0)
                  && (kv.writable ==> DayAt(kv', ScanKey(userId, userIp)) == Some(rec.value.(count := r.count.value))))
  {
  }

  /** The 15-minute limiter: a first request or an expired window stores count 1 and
      a fresh reset time; a full window is refused with the seconds left until its
      reset and no write; anything else counts one more request. */
  lemma RateLimitSteps(kv: Kv, ip: string, now: int)
    requires kv.readable && kv.writable
    ensures var w := WindowAt(kv, RateKey(ip));
            var (v, kv') := RateStep(kv, ip, now);
            (w.None? || now > w.value.resetTime ==>
               v == Allowed && WindowAt(kv', RateKey(ip)) == Some(RateWindow(1, now + RateLimitWindow)))
            && (w.Some? && now <= w.value.resetTime && w.value.count >= RateLimitMaxRequests ==>
               v.TooMany? && kv' == kv && v.retryAfter * 1000 >= w.value.resetTime - now
               && (v.retryAfter - 1) * 1000 < w.value.resetTime - now)
            && (w.Some? && now <= w.value.resetTime && w.value.count < RateLimitMaxRequests ==>
               v == Allowed && WindowAt(kv', RateKey(ip)) == Some(w.value.(count := w.value.count + 1)))
  {
  }

  /** When reads do not reach the table (not configured, a failing status, a throw) the
      limiter fails open: every request and every scan is allowed and scans report
      limit - 1 remaining. If the writes land they restart the caller's window and day
      at 1, whatever the table held; if they do not, nothing is stored. */
  lemma ReadFailureFailsOpen(kv: Kv, userId: string, userIp: string, today: string, midnight: string, now: int)
    requires !kv.readable
    ensures var (v, kv') := RateStep(kv, userIp, now);
            v == Allowed
            && (kv.writable ==> kv' == kv.(store := kv.store[RateKey(userIp) := Window(RateWindow(1, now + RateLimitWindow))]))
            && (!kv.writable ==> kv' == kv)
    ensures var (r, kv') := DailyStep(kv, userId, userIp, today, midnight);
            r.allowed && r.remaining == r.limit - 1 && !r.bonusApplied
            && (kv.writable ==>
                  ScanKey(userId, userIp) in kv'.store
                  && kv'.store[ScanKey(userId, userIp)] == Day(FirstScan(today, UserLevel(userId))))
            && (!kv.writable ==> kv' == kv)
    ensures RemainingStep(kv, userId, userIp, today) == (RemainingReport(None, today, UserLevel(userId)), kv)
  {
    KeyFamiliesDiffer("", QuotaKey(userId, userIp), userIp);
  }

  /** When writes do not reach the table nothing is counted: every operation leaves the
      table as it was, so a caller whose scans are let through is not charged for them. */
  lemma WriteFailureChargesNothing(kv: Kv, userId: string, userIp: string, today: string, midnight: string,
                                   now: int, amount: int)
    requires !kv.writable
    ensures RateStep(kv, userIp, now).1 == kv
    ensures DailyStep(kv, userId, userIp, today, midnight).1 == kv
    ensures RemainingStep(kv, userId, userIp, today).1 == kv
    ensures DecrementStep(kv, userId, userIp, today, amount).1 == kv
  {
  }

  lemma StorePreservesWellFormed(kv: Kv, key: string, v: Value)
    requires WellFormed(kv) && Count(v) >= 0 && (v.Window? <==> IsRateKey(key))
    ensures WellFormed(Store(kv, key, v))
  {
  }

  lemma BonusPreservesWellFormed(kv: Kv, userId: string, userIp: string, today: string)
    requires WellFormed(kv)
    ensures WellFormed(BonusStep(kv, userId, userIp, today).1)
    ensures WellFormed(AfterBonus(kv, userId, userIp, today))
  {
    KeyFamiliesDiffer("", userId, userIp);
    if BonusFires(kv, userId, userIp, today) {
      var used := DayAt(kv, GuestKey(userIp)).value.count;
      StorePreservesWellFormed(kv, UserScanKey(userId), Day(BonusRecord(used, today)));
    }
  }

  /** checkRateLimit keeps the table well formed. */
  lemma RatePreservesWellFormed(kv: Kv, ip: string, now: int)
    requires WellFormed(kv)
    ensures WellFormed(RateStep(kv, ip, now).1)
  {
    KeyFamiliesDiffer(ip, "", ip);
    if WindowAt(kv, RateKey(ip)).Some? {
      assert Count(kv.store[RateKey(ip)]) >= 0;
    }
    var wr := RateDecide(WindowAt(kv, RateKey(ip)), now).1;
    if wr.Some? {
      StorePreservesWellFormed(kv, RateKey(ip), Window(wr.value));
    }
  }

  /** checkDailyScanLimit keeps the table well formed. */
  lemma {:induction false} DailyPreservesWellFormed(kv: Kv, userId: string, userIp: string, today: string, midnight: string)
    requires WellFormed(kv)
    ensures WellFormed(DailyStep(kv, userId, userIp, today, midnight).1)
  {
    BonusPreservesWellFormed(kv, userId, userIp, today);
    CountPreservesWellFormed(AfterBonus(kv, userId, userIp, today), userId, userIp, today, midnight);
  }

  /** The counting half keeps the table well formed: the scan and guest records it
      writes have non-negative counts and live under day keys. */
  lemma CountPreservesWellFormed(kv1: Kv, userId: string, userIp: string, today: string, midnight: string)
    requires WellFormed(kv1)
    ensures WellFormed(CountStep(kv1, userId, userIp, today, midnight).1)
  {
    KeyFamiliesDiffer("", QuotaKey(userId, userIp), userIp);
    var key := ScanKey(userId, userIp);
    var rec := DayAt(kv1, key);
    var level := UserLevel(userId);
    var d := Decide(rec, today, Limit(level));
    if key in kv1.store && kv1.readable {
      assert Count(kv1.store[key]) >= 0;
    }
    var kv2 := match d
      case StartDay => Store(kv1, key, Day(FirstScan(today, level)))
      case Deny => kv1
      case CountScan(n) => Store(kv1, key, Day(rec.value.(count := n)));
    if d == StartDay {
      StorePreservesWellFormed(kv1, key, Day(FirstScan(today, level)));
    } else if d.CountScan? {
      StorePreservesWellFormed(kv1, key, Day(rec.value.(count := d.newCount)));
    }
    if userId == "" && d != Deny {
      var g := DayAt(kv2, GuestKey(userIp));
      if g.Some? {
        assert Count(kv2.store[GuestKey(userIp)]) >= 0;
      }
      var gv := if d == StartDay then FirstGuestScan(today) else TrackGuest(g, today);
      StorePreservesWellFormed(kv2, GuestKey(userIp), Day(gv));
    }
  }

  /** getRemainingScans and decrementScanCount keep the table well formed. */
  lemma {:induction false} ReadAndDecrementPreserveWellFormed(kv: Kv, userId: string, userIp: string, today: string, amount: int)
    requires WellFormed(kv)
    ensures WellFormed(RemainingStep(kv, userId, userIp, today).1)
    ensures WellFormed(DecrementStep(kv, userId, userIp, today, amount).1)
  {
    BonusPreservesWellFormed(kv, userId, userIp, today);
    KeyFamiliesDiffer("", QuotaKey(userId, userIp), userIp);
    var key := ScanKey(userId, userIp);
    var drec := DayAt(kv, key);
    if IsToday(drec, today) {
      var n := if drec.value.count - amount > 0 then drec.value.count - amount else 0;
      StorePreservesWellFormed(kv, key, Day(drec.value.(count := n)));
    }
  }

  function AsDay(v: Option<Value>): Option<DayRecord> {
    match v
    case Some(Day(d)) => Some(d)
    case _ => None
  }

  function AsWindow(v: Option<Value>): Option<RateWindow> {
    match v
    case Some(Window(w)) => Some(w)
    case _ => None
  }

  /** The table itself, updated in place by each request. */
  class RateLimitStore {
    var store: map<string, Value>
    /** Whether reads and writes reach the table for the request under way. */
    var readable: bool
    var writable: bool

    function View(): Kv
      reads this
    {
      Kv(readable, writable, store)
    }

    ghost predicate Valid()
      reads this
    {
      WellFormed(View())
    }

    constructor (configured: bool)
      ensures Valid() && readable == configured && writable == configured && store == map[]
    {
      readable := configured;
      writable := configured;
      store := map[];
    }

    method GetValue(key: string) returns (v: Option<Value>)
      ensures v == Lookup(View(), key)
    {
      if !readable {
        return None;
      }
      v := if key in store then Some(store[key]) else None;
    }

    method SetValue(key: string, v: Value)
      modifies this
      ensures View() == Store(old(View()), key, v)
    {
      if !writable {
        return;
      }
      store := store[key := v];
    }

    method DeleteValue(key: string)
      modifies this
      ensures View() == Delete(old(View()), key)
    {
      if !writable {
        return;
      }
      store := store - {key};
    }

    method CheckRateLimit(ip: string, now: int) returns (verdict: RateVerdict)
      requires Valid()
      modifies this
      ensures Valid()
      ensures (verdict, View()) == RateStep(old(View()), ip, now)
    {
      ghost var before := View();
      RatePreservesWellFormed(before, ip, now);
      var key := RateKey(ip);
      var v := GetValue(key);
      var record := AsWindow(v);
      if record.None? {
        SetValue(key, Window(RateWindow(1, now + RateLimitWindow)));
        return Allowed;
      }
      var resetTime := record.value.resetTime;
      if now > resetTime {
        SetValue(key, Window(RateWindow(1, now + RateLimitWindow)));
        return Allowed;
      }
      if record.value.count >= RateLimitMaxRequests {
        return TooMany(CeilSeconds(resetTime - now));
      }
      SetValue(key, Window(record.value.(count := record.value.count + 1)));
      return Allowed;
    }

    method ApplyLoginBonus(userId: string, userIp: string, today: string) returns (bonus: BonusResult)
      requires Valid()
      modifies this
      ensures Valid()
      ensures (bonus, View()) == BonusStep(old(View()), userId, userIp, today)
    {
      ghost var before := View();
      BonusPreservesWellFormed(before, userId, userIp, today);
      var guestScanKey := GuestKey(userIp);
      var userScanKey := UserScanKey(userId);
      var u := GetValue(userScanKey);
      var existing := AsDay(u);
      assert existing == DayAt(before, userScanKey);
      if existing.Some? && existing.value.date == today && existing.value.bonusApplied {
        assert !BonusFires(before, userId, userIp, today);
        return NoBonus;
      }
      var g := GetValue(guestScanKey);
      var guest := AsDay(g);
      assert guest == DayAt(before, guestScanKey);
      if guest.Some? && guest.value.date == today && guest.value.count > 0 {
        assert BonusFires(before, userId, userIp, today);
        var used := guest.value.count;
        var remainingAfterBonus := if FreeLimit < used + BonusScans then FreeLimit else used + BonusScans;
        var newCount := FreeLimit - remainingAfterBonus;
        assert DayRecord(newCount, today, Some(Free), true) == BonusRecord(used, today);
        SetValue(userScanKey, Day(DayRecord(newCount, today, Some(Free), true)));
        DeleteValue(guestScanKey);
        return BonusGranted(used, BonusScans, remainingAfterBonus);
      }
      assert !BonusFires(before, userId, userIp, today);
      return NoBonus;
    }

    method CheckDailyScanLimit(userId: string, userIp: string, today: string, midnight: string)
      returns (result: ScanResult)
      requires Valid()
      modifies this
      ensures Valid()
      ensures (result, View()) == DailyStep(old(View()), userId, userIp, today, midnight)
    {
      ghost var before := View();
      DailyPreservesWellFormed(before, userId, userIp, today, midnight);
      var level := UserLevel(userId);
      var limit := Limit(level);
      var scanKey := ScanKey(userId, userIp);
      if userId != "" && userIp != "" {
        var bonus := ApplyLoginBonus(userId, userIp, today);
        if bonus.BonusGranted? {
          var v := GetValue(scanKey);
          var record := AsDay(v);
          if record.Some? && record.value.date == today {
            var remaining := limit - record.value.count;
            return ScanResult(remaining > 0, if remaining > 0 then remaining else 0, limit, level, None, true);
          }
        }
      }
      result := CountDailyScan(userId, userIp, today, midnight);
    }

    method CountDailyScan(userId: string, userIp: string, today: string, midnight: string)
      returns (result: ScanResult)
      modifies this
      ensures (result, View()) == CountStep(old(View()), userId, userIp, today, midnight)
    {
      var level := UserLevel(userId);
      var limit := Limit(level);
      var scanKey := ScanKey(userId, userIp);
      var v := GetValue(scanKey);
      var record := AsDay(v);
      if record.None? || record.value.date != today {
        SetValue(scanKey, Day(DayRecord(1, today, Some(level), false)));
        if userId == "" {
          SetValue(GuestKey(userIp), Day(DayRecord(1, today, None, false)));
        }
        return ScanResult(true, limit - 1, limit, level, None, false);
      }
      if record.value.count >= limit {
        return ScanResult(false, 0, limit, level, Some(midnight), false);
      }
      var counted := record.value.(count := record.value.count + 1);
      SetValue(scanKey, Day(counted));
      if userId == "" {
        TrackGuestScan(userIp, today);
      }
      return ScanResult(true, limit - counted.count, limit, level, None, false);
    }

    /** The guest-by-IP bookkeeping after a counted guest scan. */
    method TrackGuestScan(userIp: string, today: string)
      modifies this
      ensures View() == Store(old(View()), GuestKey(userIp), Day(TrackGuest(DayAt(old(View()), GuestKey(userIp)), today)))
    {
      var guestKey := GuestKey(userIp);
      var g := GetValue(guestKey);
      var guest := AsDay(g);
      if guest.Some? && guest.value.date == today {
        SetValue(guestKey, Day(guest.value.(count := guest.value.count + 1)));
      } else {
        SetValue(guestKey, Day(DayRecord(1, today, None, false)));
      }
    }

    method GetRemainingScans(userId: string, userIp: string, today: string) returns (info: RemainingInfo)
      requires Valid()
      modifies this
      ensures Valid()
      ensures (info, View()) == RemainingStep(old(View()), userId, userIp, today)
    {
      ghost var before := View();
      ReadAndDecrementPreserveWellFormed(before, userId, userIp, today, 0);
      var level := UserLevel(userId);
      var limit := Limit(level);
      var scanKey := ScanKey(userId, userIp);
      if userId != "" && userIp != "" {
        var _ := ApplyLoginBonus(userId, userIp, today);
      }
      var v := GetValue(scanKey);
      var record := AsDay(v);
      if record.None? || record.value.date != today {
        return RemainingInfo(limit, limit, level);
      }
      var remaining := limit - record.value.count;
      return RemainingInfo(if remaining > 0 then remaining else 0, limit, level);
    }

    method DecrementScanCount(userId: string, userIp: string, today: string, amount: int)
      returns (result: DecrementResult)
      requires Valid()
      modifies this
      ensures Valid()
      ensures (result, View()) == DecrementStep(old(View()), userId, userIp, today, amount)
    {
      ghost var before := View();
      ReadAndDecrementPreserveWellFormed(before, userId, userIp, today, amount);
      var level := UserLevel(userId);
      var limit := Limit(level);
      var scanKey := ScanKey(userId, userIp);
      var v := GetValue(scanKey);
      var record := AsDay(v);
      if record.None? || record.value.date != today {
        return DecrementResult(true, limit, limit, level, None, Some(NothingToDecrement));
      }
      var n := if record.value.count - amount > 0 then record.value.count - amount else 0;
      SetValue(scanKey, Day(record.value.(count := n)));
      var remaining := limit - n;
      return DecrementResult(true, if remaining > 0 then remaining else 0, limit, level, Some(n), None);
    }
  }
}
