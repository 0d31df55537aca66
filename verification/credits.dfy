/**
  The credit rules of the editor page: two daily allowances (AI text
  generations and image exports), the guards that refuse an action when its
  allowance is used up, the decrement after a successful action, the
  `|| 5` default when counts are read back, and the 24-hour reset.
  Times are milliseconds since the epoch, as JavaScript `Date` values.
 */
module Credits {
  import opened Wrappers

  /** The daily allowance of each counter. */
  const Allowance: int := 5

  /** `24 * 60 * 60 * 1000`. */
  const Day: int := 24 * 60 * 60 * 1000

  /**
    The credit part of the page state: the signed-in user's id, `aiCredits`,
    `downloadCredits` and `nextResetTime`.
   */
  datatype Account = Account(user: Option<string>, ai: int, download: int, nextReset: Option<int>)

  /** The page before anyone signs in. */
  const Initial: Account := Account(None, Allowance, Allowance, None)

  /** The user's stored document; a field may be missing. */
  datatype StoredCredits = StoredCredits(ai: Option<int>, download: Option<int>, lastReset: Option<int>)

  /** `stored || 5`: a missing count and a stored 0 both read back as 5. */
  function OrAllowance(stored: Option<int>): (n: int)
    ensures n != 0
    ensures stored.None? ==> n == Allowance
    ensures stored == Some(0) ==> n == Allowance
    ensures stored.Some? && stored.value != 0 ==> n == stored.value
  {
    if stored.None? || stored.value == 0 then Allowance else stored.value
  }

  /** `lastResetTime?.toDate() || new Date(0)`: a missing time is the epoch. */
  function LastResetOrEpoch(stored: Option<int>): int {
    stored.GetOr(0)
  }

  /** A reset is due once a full day has passed since the last one; a page that never reset counts from the epoch. */
  function ResetDue(now: int, lastReset: Option<int>): (due: bool)
    ensures lastReset.None? ==> (due <==> now >= Day)
    ensures lastReset.Some? ==> (due <==> now - lastReset.value >= Day)
  {
    now >= LastResetOrEpoch(lastReset) + Day
  }

  /**
    `fetchUserCredits` after sign-in, starting from the page's account `a`.
    A new user gets a fresh allowance; otherwise the stored counts are read
    back and, when a reset is due, both are set back to the allowance.
    `now` is the world time read first and `resetNow` the one the reset or
    the initialisation reads.  `written` says whether that `setDoc` or
    `updateDoc` succeeded: when it raises, the rest of the chain is skipped,
    so a new user keeps the counters the page showed before, and a due
    reset leaves the stale counts and the past reset time on screen.
   */
  function SignIn(a: Account, uid: string, stored: Option<StoredCredits>, now: int, resetNow: int, written: bool): (r: Account)
    ensures r.user == Some(uid)
    ensures stored.None? && written ==>
      r.ai == Allowance && r.download == Allowance && r.nextReset == Some(resetNow + Day)
    ensures stored.None? && !written ==> r == a.(user := Some(uid))
    ensures stored.Some? && ResetDue(now, stored.value.lastReset) && written ==>
      r.ai == Allowance && r.download == Allowance && r.nextReset == Some(resetNow + Day)
    ensures stored.Some? && !(ResetDue(now, stored.value.lastReset) && written) ==>
      r.ai == OrAllowance(stored.value.ai) && r.download == OrAllowance(stored.value.download) &&
      r.nextReset == Some(LastResetOrEpoch(stored.value.lastReset) + Day)
  {
    match stored
    case None =>
      if written then Account(Some(uid), Allowance, Allowance, Some(resetNow + Day))
      else a.(user := Some(uid))
    case Some(d) =>
      var next := LastResetOrEpoch(d.lastReset) + Day;
      var fetched := Account(Some(uid), OrAllowance(d.ai), OrAllowance(d.download), Some(next));
      if now >= next && written then fetched.(ai := Allowance, download := Allowance, nextReset := Some(resetNow + Day))
      else fetched
  }

  /** Signing out restores the anonymous allowance. */
  function SignOut(): (a: Account)
    ensures a.user.None? && a.nextReset.None?
    ensures a.ai == Allowance && a.download == Allowance
  {
    Initial
  }

  /**
    `updateUserCredits(newAi, newDownload)`: nothing happens without a user,
    and the local counters change only when the stored document was updated.
   */
  function Persist(a: Account, newAi: int, newDownload: int, stored: bool): (r: Account)
    ensures r.user == a.user && r.nextReset == a.nextReset
    ensures a.user.Some? && stored ==> r.ai == newAi && r.download == newDownload
    ensures !(a.user.Some? && stored) ==> r == a
  {
    if a.user.None? then a
    else if stored then a.(ai := newAi, download := newDownload)
    else a
  }

  /** `handleAITextGeneration` refuses an empty prompt or a used-up allowance. */
  function MayGenerate(a: Account, prompt: string): (ok: bool)
    ensures prompt == "" ==> !ok
    ensures a.ai <= 0 ==> !ok
    ensures |prompt| > 0 && a.ai >= 1 ==> ok
  {
    prompt != "" && a.ai > 0
  }

  /** `uploadAndDownloadImage` refuses without a user or with a used-up allowance. */
  function MayExport(a: Account): (ok: bool)
    ensures a.user.None? ==> !ok
    ensures a.download <= 0 ==> !ok
    ensures a.user.Some? && a.download >= 1 ==> ok
  {
    a.user.Some? && a.download > 0
  }

  /** Credits after a generation that returned text. */
  function AfterGenerate(a: Account, stored: bool): (r: Account)
    ensures r.user == a.user && r.nextReset == a.nextReset
    ensures r.download == a.download
    ensures r.ai == if a.user.Some? && stored then a.ai - 1 else a.ai
  {
    Persist(a, a.ai - 1, a.download, stored)
  }

  /** Credits after an export whose upload succeeded. */
  function AfterExport(a: Account, stored: bool): (r: Account)
    requires a.user.Some?
    ensures r.user == a.user && r.nextReset == a.nextReset
    ensures r.ai == a.ai
    ensures r.download == if stored then a.download - 1 else a.download
  {
    Persist(a, a.ai, a.download - 1, stored)
  }

  /**
    The next reset time the page shows is exactly when the stored document
    next falls due: measured from the old reset time unless this sign-in
    wrote a reset, and from the reset it wrote otherwise.
   */
  lemma ResetDueAtNextReset(a: Account, uid: string, d: StoredCredits, now: int, resetNow: int, written: bool)
    ensures var r := SignIn(a, uid, Some(d), now, resetNow, written);
      !(ResetDue(now, d.lastReset) && written) ==>
        r.nextReset.Some? && forall later :: ResetDue(later, d.lastReset) <==> later >= r.nextReset.value
    ensures var r := SignIn(a, uid, Some(d), now, resetNow, written);
      ResetDue(now, d.lastReset) && written ==>
        r.nextReset.Some? && forall later :: ResetDue(later, Some(resetNow)) <==> later >= r.nextReset.value
  {
  }

  /**
    Whenever the sign-in reads a document or writes a fresh one, it never
    shows a zero counter; only a failed first write can leave a zero the page
    already showed.
   */
  lemma SignInNeverZero(a: Account, uid: string, stored: Option<StoredCredits>, now: int, resetNow: int, written: bool)
    ensures stored.Some? || written || a.ai != 0 ==> SignIn(a, uid, stored, now, resetNow, written).ai != 0
    ensures stored.Some? || written || a.download != 0 ==> SignIn(a, uid, stored, now, resetNow, written).download != 0
  {
  }

  /**
    When a due reset fails to reach the database, the page shows a next reset
    time that has already passed, and the reset is still due on every later
    sign-in until one succeeds.
   */
  lemma FailedResetStaysDue(a: Account, uid: string, d: StoredCredits, now: int, resetNow: int, later: int)
    requires ResetDue(now, d.lastReset) && later >= now
    ensures var r := SignIn(a, uid, Some(d), now, resetNow, false);
      r.nextReset.Some? && r.nextReset.value <= now && ResetDue(later, d.lastReset)
  {
  }
}
