/** What one row of the job table keeps over every sequence of conditional updates, in any
    order and by any workers. */
module JobHistory {
  import opened Wrappers
  import opened Jobs

  /** One update, at a time of its own; the clocks of the workers need not agree.  Updates
      that hand out a lease are given a fresh token by the database. */
  datatype Update<+P> =
    | UClaim(owner: nat, seconds: nat, now: nat)
    | UTakeover(seen: Lease, owner: nat, seconds: nat, now: nat)
    | UResume(status: Status, owner: nat, seconds: nat, now: nat)
    | UStart(owner: nat, token: nat, now: nat)
    | URenew(owner: nat, token: nat, seconds: nat, payload: P, now: nat)
    | URenewUnreclaimed(owner: nat, token: nat, seconds: nat, now: nat)
    | UComplete(owner: nat, token: nat, payload: P, now: nat)
    | UFail(owner: nat, token: nat, retryable: bool, now: nat)
    | UCompleteRecovered(payload: P, now: nat)
    | UCancel
    | UReclaim(now: nat)
    | URequeue(now: nat)

  /** The row and the next unused lease token. */
  datatype Table<+P> = Table(job: Job<P>, nextToken: nat)

  function Or<P>(j: Job<P>, changed: Option<Job<P>>): Job<P> {
    if changed.Some? then changed.value else j
  }

  function Apply<P>(t: Table<P>, u: Update<P>): Table<P> {
    var j, n := t.job, t.nextToken;
    match u
    case UClaim(owner, seconds, now) => Table(Claim(j, owner, n, seconds, now).0, n + 1)
    case UTakeover(seen, owner, seconds, now) => Table(Or(j, TakeoverExpired(j, seen, owner, n, seconds, now)), n + 1)
    case UResume(status, owner, seconds, now) => Table(Or(j, ResumeReclaimed(j, status, owner, n, seconds, now)), n + 1)
    case UStart(owner, token, now) => Table(Or(j, Start(j, owner, token, now)), n)
    case URenew(owner, token, seconds, payload, now) => Table(Or(j, RenewLease(j, owner, token, seconds, payload, now)), n)
    case URenewUnreclaimed(owner, token, seconds, now) => Table(Or(j, RenewUnreclaimed(j, owner, token, seconds, now)), n)
    case UComplete(owner, token, payload, now) => Table(Or(j, Complete(j, owner, token, payload, now)), n)
    case UFail(owner, token, retryable, now) => Table(Or(j, Fail(j, owner, token, retryable, now)), n)
    case UCompleteRecovered(payload, now) => Table(Or(j, CompleteRecovered(j, payload, now)), n)
    case UCancel => Table(Cancel(j), n)
    case UReclaim(now) => Table(Reclaim(j, now), n)
    case URequeue(now) => Table(Requeue(j, now), n)
  }

  function Run<P>(t: Table<P>, us: seq<Update<P>>): Table<P>
    decreases |us|
  {
    if us == [] then t else Run(Apply(t, us[0]), us[1..])
  }

  predicate Sound<P>(t: Table<P>) {
    && t.job.attempts <= t.job.maxAttempts
    && (t.job.lease.Some? <==> t.job.status.Claimed? || t.job.status.Running?)
    && (t.job.lease.Some? || t.job.leaseExpired ==> t.job.attempts >= 1)
    && (t.job.lease.Some? ==> t.job.lease.value.token < t.nextToken)
  }

  /** How many attempts a sequence of updates hands out. */
  function Granted<P>(t: Table<P>, us: seq<Update<P>>): nat
    decreases |us|
  {
    if us == [] then 0
    else (if us[0].UClaim? && Claim(t.job, us[0].owner, t.nextToken, us[0].seconds, us[0].now).1 then 1 else 0)
         + Granted(Apply(t, us[0]), us[1..])
  }

  lemma ApplyKeepsSound<P>(t: Table<P>, u: Update<P>)
    requires Sound(t)
    ensures Sound(Apply(t, u)) && Apply(t, u).job.maxAttempts == t.job.maxAttempts && t.nextToken <= Apply(t, u).nextToken
    ensures Apply(t, u).job.attempts == t.job.attempts + Granted(t, [u])
  {
    assert [u][1..] == [];
  }

  /** A lease is held exactly while the job is claimed or running, and over every history
      the job is handed out at most as often as it has attempts. */
  lemma {:induction false} AttemptsAreConserved<P>(t: Table<P>, us: seq<Update<P>>)
    requires Sound(t)
    ensures Sound(Run(t, us))
    ensures t.job.attempts + Granted(t, us) == Run(t, us).job.attempts <= t.job.maxAttempts
    decreases |us|
  {
    if us != [] {
      ApplyKeepsSound(t, us[0]);
      assert [us[0]][1..] == [];
      AttemptsAreConserved(Apply(t, us[0]), us[1..]);
    }
  }

  /** The token under which an update acts, if it acts as a lease holder. */
  function ActsAs<P>(u: Update<P>): Option<(nat, nat)> {
    match u
    case UStart(owner, token, _) => Some((owner, token))
    case URenew(owner, token, _, _, _) => Some((owner, token))
    case URenewUnreclaimed(owner, token, _, _) => Some((owner, token))
    case UComplete(owner, token, _, _) => Some((owner, token))
    case UFail(owner, token, _, _) => Some((owner, token))
    case _ => None
  }

  lemma LostTokenStaysLost<P>(t: Table<P>, u: Update<P>, owner: nat, token: nat)
    requires Sound(t) && token < t.nextToken && !Holds(t.job, owner, token)
    ensures !Holds(Apply(t, u).job, owner, token)
    ensures ActsAs(u) == Some((owner, token)) ==> Apply(t, u) == t
  {
  }

  /** A worker whose lease was reclaimed, taken over, completed or cancelled never regains
      it, and from then on none of its own updates changes anything. */
  lemma {:induction false} LostTokenIsPowerless<P>(t: Table<P>, us: seq<Update<P>>, owner: nat, token: nat, u: Update<P>)
    requires Sound(t) && token < t.nextToken && !Holds(t.job, owner, token)
    requires ActsAs(u) == Some((owner, token))
    ensures Apply(Run(t, us), u) == Run(t, us)
    decreases |us|
  {
    if us == [] {
      LostTokenStaysLost(t, u, owner, token);
    } else {
      LostTokenStaysLost(t, us[0], owner, token);
      ApplyKeepsSound(t, us[0]);
      LostTokenIsPowerless(Apply(t, us[0]), us[1..], owner, token, u);
    }
  }

  /** While a lease is alive, nobody but its holder or a cancellation ends it. */
  lemma LiveLeaseIsProtected<P>(t: Table<P>, u: Update<P>, owner: nat, token: nat, now: nat)
    requires Sound(t) && Owns(t.job, owner, token, now)
    requires ActsAs(u) != Some((owner, token)) && !u.UCancel?
    requires u.UClaim? || u.UTakeover? || u.UResume? || u.UCompleteRecovered? || u.UReclaim? || u.URequeue? ==> u.now <= now
    ensures Apply(t, u).job == t.job
  {
  }

  lemma FinalStep<P>(t: Table<P>, u: Update<P>)
    requires Sound(t) && (t.job.status.Succeeded? || t.job.status.Cancelled?)
    ensures Apply(t, u).job == t.job
  {
  }

  /** Success and cancellation are final: no update ever touches the row again. */
  lemma {:induction false} FinishedIsFinal<P>(t: Table<P>, us: seq<Update<P>>)
    requires Sound(t) && (t.job.status.Succeeded? || t.job.status.Cancelled?)
    ensures Run(t, us).job == t.job
    decreases |us|
  {
    if us != [] {
      FinalStep(t, us[0]);
      ApplyKeepsSound(t, us[0]);
      FinishedIsFinal(Apply(t, us[0]), us[1..]);
    }
  }

  // ----- What a worker can count on -----

  /** An attempt is due: one is left, and the row waits for it or its holder is dead. */
  predicate Due<P>(j: Job<P>, now: nat) {
    j.attempts < j.maxAttempts &&
    match j.status
    case Queued => j.availableAt <= now
    case RetryWait => j.availableAt <= now
    case FailedRetryable => j.availableAt <= now
    case Claimed => j.lease.Some? && j.lease.value.expires <= now
    case Running => j.lease.Some? && j.lease.value.expires <= now
    case _ => false
  }

  predicate Dead<P>(j: Job<P>, now: nat) {
    (j.status.Claimed? || j.status.Running?) && j.lease.Some? && j.lease.value.expires <= now
  }

  /** Reclaiming touches dead holders only: their row is to be retried at once while an
      attempt is left, and otherwise ends. */
  lemma ReclaimedRow<P>(j: Job<P>, now: nat)
    ensures var r := Reclaim(j, now);
            && r.payload == j.payload && r.attempts == j.attempts && r.maxAttempts == j.maxAttempts
            && (if !Dead(j, now) then r == j
                else && r.lease == None && r.leaseExpired
                     && (if j.attempts < j.maxAttempts then r.status.FailedRetryable? && r.availableAt == now else r.status.FailedTerminal?))
  {
  }

  /** Requeueing makes exactly the waiting rows that are due claimable, and changes nothing else. */
  lemma RequeuedRow<P>(j: Job<P>, now: nat)
    requires j.status.RetryWait? || j.status.FailedRetryable?
    ensures Due(j, now) <==> Requeue(j, now).status.Queued?
    ensures Requeue(j, now).(status := j.status) == j
    ensures !Due(j, now) ==> Requeue(j, now) == j
  {
  }

  /** A claim is granted exactly when an attempt is due; a refused one leaves the row alone
      unless its holder is dead with no attempt left, which ends it. */
  lemma ClaimIsGrantedWhenDue<P>(j: Job<P>, owner: nat, token: nat, seconds: nat, now: nat)
    ensures var (r, granted) := Claim(j, owner, token, seconds, now);
            && (granted <==> Due(j, now))
            && r.payload == j.payload && r.maxAttempts == j.maxAttempts
            && (if granted then r.status.Claimed? && r.attempts == j.attempts + 1 && r.lease == Some(Lease(owner, token, now + seconds))
                else if Dead(j, now) then r.status.FailedTerminal? && r.attempts == j.attempts && r.lease == None && r.leaseExpired
                else r == j)
  {
    ReclaimedRow(j, now);
  }

  /** This lease, alive or not. */
  predicate Carries<P>(j: Job<P>, owner: nat, token: nat) {
    j.lease.Some? && j.lease.value.owner == owner && j.lease.value.token == token
  }

  /** A holder's updates are granted exactly under its live lease and in the status they go on
      from; only the renewal without an expiry test is granted on an expired lease too, as
      long as nobody reclaimed it. */
  lemma HolderIsGranted<P>(j: Job<P>, owner: nat, token: nat, seconds: nat, payload: P, retryable: bool, now: nat)
    ensures var mine := Carries(j, owner, token);
            var live := mine && now < j.lease.value.expires;
            && Start(j, owner, token, now) == (if live && j.status.Claimed? then Some(j.(status := Running)) else None)
            && RenewLease(j, owner, token, seconds, payload, now)
               == (if live && j.status.Running? then Some(j.(lease := Some(Lease(owner, token, now + seconds)), payload := payload)) else None)
            && RenewUnreclaimed(j, owner, token, seconds, now)
               == (if mine && j.status.Running? then Some(j.(lease := Some(Lease(owner, token, now + seconds)))) else None)
            && Complete(j, owner, token, payload, now)
               == (if live && j.status.Running?
                   then Some(j.(status := Succeeded, lease := None, payload := payload, leaseExpired := false)) else None)
            && (Fail(j, owner, token, retryable, now).Some? <==> live && (j.status.Claimed? || j.status.Running?))
  {
  }

  /** Others are granted a row exactly when its holder is dead or gone: by takeover of the
      expired lease they saw, by resuming what a reclaim left, or, once a published tree is
      found, by completing any row that is not alive, not finished and was ever started. */
  lemma SuccessorIsGranted<P>(j: Job<P>, seen: Lease, status: Status, owner: nat, token: nat, seconds: nat, payload: P, now: nat)
    ensures TakeoverExpired(j, seen, owner, token, seconds, now).Some? <==>
              j.status.Running? && Carries(j, seen.owner, seen.token) && j.lease.value.expires <= now
    ensures ResumeReclaimed(j, status, owner, token, seconds, now).Some? <==>
              j.lease == None && j.leaseExpired && j.status == status &&
              ((status.FailedRetryable? && j.attempts < j.maxAttempts) || (status.FailedTerminal? && j.attempts >= j.maxAttempts))
    ensures CompleteRecovered(j, payload, now).Some? <==>
              j.attempts >= 1 && !j.status.Succeeded? && !j.status.Cancelled? && ((j.status.Claimed? || j.status.Running?) ==> Dead(j, now))
    ensures Cancel(j) == if j.status.Succeeded? || j.status.FailedTerminal? || j.status.Cancelled? then j
                         else j.(status := Cancelled, lease := None)
  {
  }

  /** One attempt that its holder loses: it fails, or dies and is reclaimed. */
  function LostAttempt<P>(t: Table<P>, owner: nat, seconds: nat, now: nat, dies: bool): seq<Update<P>> {
    [UClaim(owner, seconds, now), if dies then UReclaim(now + seconds) else UFail(owner, t.nextToken, true, now)]
  }

  lemma AttemptIsLost<P>(t: Table<P>, owner: nat, seconds: nat, now: nat, dies: bool)
    requires Sound(t) && Due(t.job, now) && seconds > 0
    ensures var us := LostAttempt(t, owner, seconds, now, dies); var j := Run(t, us).job;
            && Granted(t, us) == 1 && j.attempts == t.job.attempts + 1 && j.maxAttempts == t.job.maxAttempts
            && j.status == (if j.attempts < j.maxAttempts then FailedRetryable else FailedTerminal)
            && j.availableAt <= now + seconds
  {
    var us := LostAttempt(t, owner, seconds, now, dies);
    ClaimIsGrantedWhenDue(t.job, owner, t.nextToken, seconds, now);
    var t1 := Apply(t, us[0]);
    assert us[1..] == [us[1]] && [us[1]][1..] == [];
    assert Run(t1, us[1..]) == Apply(t1, us[1]);
    assert Granted(t1, us[1..]) == 0;
  }

  lemma {:induction false} RunsInSequence<P>(t: Table<P>, a: seq<Update<P>>, b: seq<Update<P>>)
    ensures Run(t, a + b) == Run(Run(t, a), b)
    ensures Granted(t, a + b) == Granted(t, a) + Granted(Run(t, a), b)
    decreases |a|
  {
    if a == [] {
      assert a + b == b;
    } else {
      assert (a + b)[0] == a[0] && (a + b)[1..] == a[1..] + b;
      RunsInSequence(Apply(t, a[0]), a[1..], b);
    }
  }

  /** The bound on attempts is reached: a due row whose attempts all fail, or all die, is
      handed out once for every attempt it has left, and only then ends. */
  lemma {:induction false} EveryAttemptIsGranted<P>(t: Table<P>, owner: nat, seconds: nat, now: nat, dies: bool)
    returns (us: seq<Update<P>>)
    requires Sound(t) && Due(t.job, now) && seconds > 0
    ensures Granted(t, us) == t.job.maxAttempts - t.job.attempts
    ensures Run(t, us).job.status.FailedTerminal? && Run(t, us).job.attempts == t.job.maxAttempts
    decreases t.job.maxAttempts - t.job.attempts
  {
    us := LostAttempt(t, owner, seconds, now, dies);
    AttemptsAreConserved(t, us);
    AttemptIsLost(t, owner, seconds, now, dies);
    var t' := Run(t, us);
    if t'.job.attempts < t'.job.maxAttempts {
      var rest := EveryAttemptIsGranted(t', owner, seconds, now + seconds, dies);
      RunsInSequence(t, us, rest);
      us := us + rest;
    }
  }
}
