/** One row of the durable job table and the conditional updates made to it.

    Every update of the repository is a single `UPDATE .. WHERE .. RETURNING`: it
    either rewrites exactly the matching row or changes nothing.  The functions below
    give the rewritten row, or `None` where the repository raises a lost lease.  The
    owner, token and expiry columns are always written together, hence one `Lease`. */
module Jobs {
  import opened Wrappers

  datatype Status = Queued | Claimed | Running | RetryWait | FailedRetryable | FailedTerminal | Succeeded | Cancelled

  datatype Lease = Lease(owner: nat, token: nat, expires: nat)

  datatype Job<+P> = Job(
    payload: P,
    status: Status,
    attempts: nat,
    maxAttempts: nat,
    availableAt: nat,
    lease: Option<Lease>,
    leaseExpired: bool  // last_error_code == "lease_expired"
  )

  predicate Terminal(s: Status) { s.Succeeded? || s.FailedTerminal? || s.Cancelled? }

  predicate Holds<P>(j: Job<P>, owner: nat, token: nat) {
    j.lease.Some? && j.lease.value.owner == owner && j.lease.value.token == token
  }

  /** The guard of `_owned_update`: the exact token, unexpired. */
  predicate Owns<P>(j: Job<P>, owner: nat, token: nat, now: nat) {
    Holds(j, owner, token) && now < j.lease.value.expires
  }

  predicate Expired<P>(j: Job<P>, now: nat) {
    (j.status.Claimed? || j.status.Running?) && j.lease.Some? && j.lease.value.expires <= now
  }

  function Enqueued<P>(payload: P, maxAttempts: nat, now: nat): Job<P> {
    Job(payload, Queued, 0, maxAttempts, now, None, false)
  }

  /** `reclaim_expired` on one row. */
  function Reclaim<P>(j: Job<P>, now: nat): Job<P> {
    if !Expired(j, now) then j
    else if j.attempts >= j.maxAttempts then
      j.(status := FailedTerminal, lease := None, leaseExpired := true)
    else
      j.(status := FailedRetryable, lease := None, availableAt := now, leaseExpired := true)
  }

  function Requeue<P>(j: Job<P>, now: nat): Job<P> {
    if (j.status.RetryWait? || j.status.FailedRetryable?) && j.availableAt <= now && j.attempts < j.maxAttempts
    then j.(status := Queued)
    else j
  }

  predicate Claimable<P>(j: Job<P>, now: nat) {
    j.status.Queued? && j.availableAt <= now && j.attempts < j.maxAttempts
  }

  /** `claim`: reclaim, requeue, then take the row; the first two persist either way. */
  function Claim<P>(j: Job<P>, owner: nat, token: nat, seconds: nat, now: nat): (Job<P>, bool) {
    var q := Requeue(Reclaim(j, now), now);
    if Claimable(q, now) then
      (q.(status := Claimed, lease := Some(Lease(owner, token, now + seconds)), attempts := q.attempts + 1), true)
    else (q, false)
  }

  function Start<P>(j: Job<P>, owner: nat, token: nat, now: nat): Option<Job<P>> {
    if Owns(j, owner, token, now) && j.status.Claimed? then Some(j.(status := Running)) else None
  }

  function RenewLease<P>(j: Job<P>, owner: nat, token: nat, seconds: nat, payload: P, now: nat): Option<Job<P>> {
    if Owns(j, owner, token, now) && j.status.Running?
    then Some(j.(lease := Some(Lease(owner, token, now + seconds)), payload := payload))
    else None
  }

  /** `renew_unreclaimed_lease`: no expiry test, since a reclaim clears the token. */
  function RenewUnreclaimed<P>(j: Job<P>, owner: nat, token: nat, seconds: nat, now: nat): Option<Job<P>> {
    if Holds(j, owner, token) && j.status.Running?
    then Some(j.(lease := Some(Lease(owner, token, now + seconds))))
    else None
  }

  function TakeoverExpired<P>(j: Job<P>, seen: Lease, owner: nat, token: nat, seconds: nat, now: nat): Option<Job<P>> {
    if j.status.Running? && Holds(j, seen.owner, seen.token) && j.lease.value.expires <= now
    then Some(j.(lease := Some(Lease(owner, token, now + seconds))))
    else None
  }

  function ResumeReclaimed<P>(j: Job<P>, seen: Status, owner: nat, token: nat, seconds: nat, now: nat): Option<Job<P>> {
    if && (seen.FailedRetryable? || seen.FailedTerminal?) && j.status == seen
       && (if seen.FailedRetryable? then j.attempts < j.maxAttempts else j.attempts >= j.maxAttempts)
       && j.lease == None && j.leaseExpired
    then Some(j.(status := Running, lease := Some(Lease(owner, token, now + seconds)), leaseExpired := false))
    else None
  }

  function Complete<P>(j: Job<P>, owner: nat, token: nat, payload: P, now: nat): Option<Job<P>> {
    if Owns(j, owner, token, now) && j.status.Running?
    then Some(j.(status := Succeeded, lease := None, payload := payload, leaseExpired := false))
    else None
  }

  /** `complete_recovered_publication`: a live owner is never displaced. */
  function CompleteRecovered<P>(j: Job<P>, payload: P, now: nat): Option<Job<P>> {
    if && j.attempts >= 1
       && (Expired(j, now) || j.status.Queued? || j.status.RetryWait? || j.status.FailedRetryable? || j.status.FailedTerminal?)
    then Some(j.(status := Succeeded, lease := None, payload := payload, leaseExpired := false))
    else None
  }

  function Fail<P>(j: Job<P>, owner: nat, token: nat, retryable: bool, now: nat): Option<Job<P>> {
    if Owns(j, owner, token, now) && (j.status.Claimed? || j.status.Running?) then
      if retryable && j.attempts < j.maxAttempts
      then Some(j.(status := FailedRetryable, lease := None, availableAt := now, leaseExpired := false))
      else Some(j.(status := FailedTerminal, lease := None, leaseExpired := false))
    else None
  }

  function Cancel<P>(j: Job<P>): Job<P> {
    if Terminal(j.status) then j else j.(status := Cancelled, lease := None)
  }
}
