/**
 * The rate governor of one fetch: what a response reports through its quota
 * headers, the two threshold checks made on them, the status check, and the
 * length of the pause until the next whole minute.
 */
module Governor {

  datatype Option<T> = None | Some(value: T)

  /** Safety margin added to the per-second counter before comparing it with its allotment. */
  const QpsMargin: int := 2
  /** Safety margin added to the total-quota counter before comparing it with its allotment. */
  const QuotaMargin: int := 5
  /** The only status whose body is saved. */
  const StatusOk: int := 200
  /** Milliseconds in a minute: the API's rate window. */
  const MinuteMs: int := 60000

  /**
   * What one HTTP exchange yields. `NetworkError` is a request that never
   * produced a response (the fetch promise rejects). A received response
   * carries its status, the four quota headers after `parseInt` (`None`
   * where the header is missing or not a number, which `parseInt` turns
   * into NaN), and its body.
   */
  datatype Response =
    | NetworkError
    | Received(status: int,
               qpsCurrent: Option<int>, qpsAllotted: Option<int>,
               quotaCurrent: Option<int>, quotaAllotted: Option<int>,
               body: string)

  /**
   * `parseInt(current) + margin >= parseInt(allotted)`. A NaN on either side
   * makes the comparison false, so a missing header never triggers anything.
   */
  predicate AtLimit(current: Option<int>, allotted: Option<int>, margin: int)
    ensures current.None? || allotted.None? ==> !AtLimit(current, allotted, margin)
  {
    current.Some? && allotted.Some? && current.value + margin >= allotted.value
  }

  /** The per-second counter, plus its margin, has reached its allotment: wait for the next minute. */
  predicate ShouldPause(r: Response)
    ensures ShouldPause(r) ==> r.Received? && r.qpsCurrent.Some? && r.qpsAllotted.Some?
  {
    r.Received? && AtLimit(r.qpsCurrent, r.qpsAllotted, QpsMargin)
  }

  /** The total-quota counter, plus its margin, has reached its allotment: move to the next key. */
  predicate ShouldSwitch(r: Response)
    ensures ShouldSwitch(r) ==> r.Received? && r.quotaCurrent.Some? && r.quotaAllotted.Some?
  {
    r.Received? && AtLimit(r.quotaCurrent, r.quotaAllotted, QuotaMargin)
  }

  /** Only a status-200 response is saved; every other status is reported as invalid and skipped. */
  predicate ShouldSave(r: Response)
    ensures ShouldSave(r) ==> !r.NetworkError?
  {
    r.Received? && r.status == StatusOk
  }

  /** The start of the minute containing millisecond timestamp `t` (`startOf('minute')`). */
  function MinuteStart(t: int): (s: int)
    ensures s <= t < s + MinuteMs
    ensures s % MinuteMs == 0
  {
    t - t % MinuteMs
  }

  /**
   * The pause length of `delay`: the start of the current minute, plus one
   * minute, minus the current time. It is positive, at most one minute, and
   * ends exactly on a minute boundary.
   */
  function Delay(t: int): (ms: int)
    ensures 1 <= ms <= MinuteMs
    ensures (t + ms) % MinuteMs == 0
  {
    MinuteStart(t) + MinuteMs - t
  }

  /** No minute boundary lies strictly between `t` and the end of the pause: it is the next one. */
  lemma DelayReachesNextBoundary(t: int, d: int)
    requires 0 < d < Delay(t)
    ensures (t + d) % MinuteMs != 0
  {
    assert MinuteStart(t) < t + d < MinuteStart(t) + MinuteMs;
  }

  /** Equivalently, the pause is `60000 - t mod 60000` milliseconds. */
  lemma DelayClosedForm(t: int)
    ensures Delay(t) == MinuteMs - t % MinuteMs
  {
  }
}
