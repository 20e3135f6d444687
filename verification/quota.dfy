/** The quota vocabulary shared by every copy of the scan-limit logic: user levels,
    daily limits, the per-day scan record, the 15-minute request window and the
    decisions taken on them. Each copy (the persistent store, the Express server and
    the two serverless endpoints) applies these decisions to its own storage. */
module Quota {
  import opened Text

  datatype Level = Guest | Free

  const GuestLimit: nat := 3
  const FreeLimit: nat := 5
  /** Scans added when a guest who scanned today logs in. */
  const BonusScans: nat := 5

  /** 15 minutes, in milliseconds. */
  const RateLimitWindow: int := 900000
  const RateLimitMaxRequests: int := 20

  /** A falsy user id is a guest; any other id is a logged-in free user. */
  function UserLevel(userId: string): (l: Level)
    ensures l == Guest <==> userId == ""
  {
    if userId == "" then Guest else Free
  }

  function Limit(level: Level): (n: nat)
    ensures n == (if level == Guest then 3 else 5)
  {
    match level
    case Guest => GuestLimit
    case Free => FreeLimit
  }

  /** `userId || 'ip_' + userIp`: the key under which a caller's daily count is kept. */
  function QuotaKey(userId: string, userIp: string): (k: string)
    ensures userId != "" ==> k == userId
    ensures userId == "" ==> StartsWith(k, "ip_") && k[3..] == userIp
  {
    if userId != "" then userId else "ip_" + userIp
  }

  /** The record kept per caller and day; guest-by-IP records carry no level. */
  datatype DayRecord = DayRecord(count: int, date: string, level: Option<Level>, bonusApplied: bool)

  predicate IsToday(rec: Option<DayRecord>, today: string) {
    rec.Some? && rec.value.date == today
  }

  /** The record a new day starts with: one scan used. */
  function FirstScan(today: string, level: Level): (r: DayRecord)
    ensures r.count == 1 && r.date == today && r.level == Some(level) && !r.bonusApplied
  {
    DayRecord(1, today, Some(level), false)
  }

  /** The separate guest-by-IP record a new day starts with. */
  function FirstGuestScan(today: string): (r: DayRecord)
    ensures r.count == 1 && r.date == today && r.level.None? && !r.bonusApplied
  {
    DayRecord(1, today, None, false)
  }

  /** Guest-by-IP tracking after an allowed guest scan: today's record is incremented,
      anything else is replaced by a fresh record. */
  function TrackGuest(guest: Option<DayRecord>, today: string): (r: DayRecord)
    ensures r.date == today
    ensures IsToday(guest, today) ==> r == guest.value.(count := guest.value.count + 1)
    ensures !IsToday(guest, today) ==> r.count == 1 && r.level.None?
  {
    if IsToday(guest, today) then guest.value.(count := guest.value.count + 1)
    else FirstGuestScan(today)
  }

  /** Scans left for the caller: the whole limit when there is no record for today,
      otherwise the limit less today's count, never below zero. */
  function Remaining(rec: Option<DayRecord>, today: string, limit: nat): (r: int)
    ensures r >= 0
    ensures !IsToday(rec, today) ==> r == limit
    ensures IsToday(rec, today) && rec.value.count >= 0 ==> r <= limit
    ensures IsToday(rec, today) && rec.value.count <= limit ==> r == limit - rec.value.count
    ensures IsToday(rec, today) && rec.value.count >= limit ==> r == 0
  {
    if !IsToday(rec, today) then limit
    else if limit - rec.value.count > 0 then limit - rec.value.count else 0
  }

  /** What a scan request does with the caller's current record. */
  datatype ScanDecision =
    | StartDay            // no record for today: store a fresh record with count 1
    | Deny                // today's count has reached the limit: write nothing
    | CountScan(newCount: int) // store today's record with the count raised by one

  function Decide(rec: Option<DayRecord>, today: string, limit: nat): (d: ScanDecision)
    ensures d == StartDay <==> !IsToday(rec, today)
    ensures d == Deny <==> IsToday(rec, today) && rec.value.count >= limit
    ensures d.CountScan? ==>
              IsToday(rec, today) && rec.value.count < limit
              && d.newCount == rec.value.count + 1 && d.newCount <= limit
  {
    if !IsToday(rec, today) then StartDay
    else if rec.value.count >= limit then Deny
    else CountScan(rec.value.count + 1)
  }

  /** The reply to a scan request. `resetTime` is present on a denial only;
      `bonusApplied` is true only when the login bonus was granted by this request. */
  datatype ScanResult = ScanResult(allowed: bool, remaining: int, limit: nat, level: Level,
                                   resetTime: Option<string>, bonusApplied: bool)

  /** The reply that goes with a decision (the bonus path is built separately). */
  function Reply(d: ScanDecision, limit: nat, level: Level, midnight: string): (r: ScanResult)
    requires limit >= 1
    ensures r.limit == limit && r.level == level && !r.bonusApplied
    ensures r.allowed <==> d != Deny
    ensures r.resetTime.Some? <==> d == Deny
    ensures d == StartDay ==> r.remaining == limit - 1
    ensures d == Deny ==> r.remaining == 0 && r.resetTime == Some(midnight)
    ensures d.CountScan? ==> r.remaining == limit - d.newCount
    ensures d.CountScan? && d.newCount <= limit ==> 0 <= r.remaining
  {
    match d
    case StartDay => ScanResult(true, limit - 1, limit, level, None, false)
    case Deny => ScanResult(false, 0, limit, level, Some(midnight), false)
    case CountScan(n) => ScanResult(true, limit - n, limit, level, None, false)
  }

  /** The count a user record is given when the login bonus fires:
      `free - min(free, guestScansUsed + bonus)`. */
  function BonusCount(guestScansUsed: int): (c: int)
    ensures guestScansUsed >= 0 ==> c == 0
    ensures 0 <= c
  {
    FreeLimit - BonusRemaining(guestScansUsed)
  }

  /** `min(free, guestScansUsed + bonus)`: the scans reported as remaining after the bonus. */
  function BonusRemaining(guestScansUsed: int): (r: int)
    ensures r <= FreeLimit
    ensures guestScansUsed >= 0 ==> r == FreeLimit
    ensures guestScansUsed < 0 ==> r == guestScansUsed + BonusScans
  {
    if FreeLimit < guestScansUsed + BonusScans then FreeLimit else guestScansUsed + BonusScans
  }

  /** The record written for a user when the login bonus fires. */
  function BonusRecord(guestScansUsed: int, today: string): (r: DayRecord)
    ensures r.date == today && r.level == Some(Free) && r.bonusApplied
    ensures guestScansUsed > 0 ==> r.count == 0
  {
    DayRecord(BonusCount(guestScansUsed), today, Some(Free), true)
  }

  /** The reply to the login-bonus check. */
  datatype BonusResult =
    | NoBonus
    | BonusGranted(guestScansUsed: int, bonusScans: nat, remaining: int)

  /** The remaining-scans report. */
  datatype RemainingInfo = RemainingInfo(remaining: int, limit: nat, level: Level)

  function RemainingReport(rec: Option<DayRecord>, today: string, level: Level): (r: RemainingInfo)
    ensures r.level == level && r.limit == Limit(level)
    ensures 0 <= r.remaining
    ensures !IsToday(rec, today) ==> r.remaining == r.limit
    ensures IsToday(rec, today) && rec.value.count >= 0 ==> r.remaining <= r.limit
  {
    RemainingInfo(Remaining(rec, today, Limit(level)), Limit(level), level)
  }

  // ---- The 15-minute request window ----

  datatype RateWindow = RateWindow(count: int, resetTime: int)

  datatype RateVerdict = Allowed | TooMany(retryAfter: int)

  /** `Math.ceil(ms / 1000)` for a non-negative number of milliseconds. */
  function CeilSeconds(ms: int): (s: int)
    requires ms >= 0
    ensures s >= 0
    ensures s * 1000 >= ms && (s - 1) * 1000 < ms
  {
    (ms + 999) / 1000
  }

  /** What one request does to its window: the verdict and, when the window is
      written, its new value (None: nothing is written). */
  function RateDecide(w: Option<RateWindow>, now: int): (r: (RateVerdict, Option<RateWindow>))
    ensures r.0 == Allowed <==> r.1.Some?
    ensures (w.None? || now > w.value.resetTime) ==>
      r == (Allowed, Some(RateWindow(1, now + RateLimitWindow)))
    ensures w.Some? && now <= w.value.resetTime && w.value.count >= RateLimitMaxRequests ==>
      r.0.TooMany? && r.0.retryAfter * 1000 >= w.value.resetTime - now
      && (r.0.retryAfter - 1) * 1000 < w.value.resetTime - now
    ensures w.Some? && now <= w.value.resetTime && w.value.count < RateLimitMaxRequests ==>
      r == (Allowed, Some(w.value.(count := w.value.count + 1)))
  {
    if w.None? || now > w.value.resetTime then (Allowed, Some(RateWindow(1, now + RateLimitWindow)))
    else if w.value.count >= RateLimitMaxRequests then (TooMany(CeilSeconds(w.value.resetTime - now)), None)
    else (Allowed, Some(w.value.(count := w.value.count + 1)))
  }

  /** A window never holds more than the maximum number of requests: a request
      that would exceed it is refused, and the window it leaves behind is within bounds. */
  lemma RateWindowStaysBounded(w: Option<RateWindow>, now: int)
    requires w.Some? ==> 0 <= w.value.count <= RateLimitMaxRequests
    ensures RateDecide(w, now).1.Some? ==> 1 <= RateDecide(w, now).1.value.count <= RateLimitMaxRequests
    ensures RateDecide(w, now).1.Some? ==> RateDecide(w, now).1.value.resetTime >= now
  {
  }
}
