/** What a worker gets when it asks for an asset: exactly when a download starts, when a
    finished one is taken over, and when there is nothing to do; and that downloads finish. */
module DownloadProgress {
  import opened Wrappers
  import opened Jobs
  import opened Downloads
  import JobHistory

  // ----- Exactly what a worker gets -----

  /** Finished bytes may wait in the work directory: their worker died holding the lease, or
      was reclaimed, and neither job nor asset has gone on since. */
  predicate LeftBehind(a: Asset, job: DownloadJob, now: nat) {
    var reclaimed := job.leaseExpired && job.lease == None;
    || (a.status.Downloading? && job.status.Running? && job.lease.Some? && job.lease.value.expires <= now)
    || (a.status.Downloading? && job.status.FailedTerminal? && reclaimed)
    || (a.status == AssetFailed(false) && a.expired && job.status.FailedTerminal? && reclaimed)
    || (a.status == AssetFailed(true) && a.expired && job.status.FailedRetryable? && reclaimed && 0 < job.attempts < job.maxAttempts)
  }

  /** The worker takes over what was left behind. */
  ghost predicate TakesOver(s: Store, allowRecovery: bool, scope: nat) {
    var g := s.asset.generation;
    allowRecovery && g in s.jobs && s.jobs[g].payload == scope && LeftBehind(s.asset, s.jobs[g], s.now)
  }

  /** A download starts: nobody downloads this generation, or its downloader is dead, and an
      attempt at its job is due. */
  ghost predicate Starts(s: Store, allowRecovery: bool, scope: nat) {
    var g := s.asset.generation;
    && !TakesOver(s, allowRecovery, scope)
    && match s.asset.status
       case Verified => false
       case AssetFailed(false) => false
       case Downloading =>
         g in s.jobs && s.jobs[g].payload == scope && JobHistory.Due(s.jobs[g], s.now) &&
         (s.jobs[g].status.Running? || s.jobs[g].status.FailedRetryable?)
       case _ => g in s.jobs ==> s.jobs[g].payload == scope && JobHistory.Due(s.jobs[g], s.now)
  }

  /** Worker `w` is downloading the current generation under a new lease, as attempt number
      `attempt` of its job. */
  ghost predicate Started(s: Store, s': Store, w: nat, scope: nat, attempt: nat, most: nat, seconds: nat) {
    var g := s.asset.generation;
    && s'.asset == Asset(Downloading, g, Some(g), false, None)
    && g in s'.jobs && s'.jobs == s.jobs[g := s'.jobs[g]]
    && s'.jobs[g].payload == scope && s'.jobs[g].status.Running?
    && s'.jobs[g].attempts == attempt && s'.jobs[g].maxAttempts == most
    && s'.jobs[g].lease == Some(Lease(w, s.nextToken, s.now + seconds))
    && s'.workers == s.workers[w := Downloads(Prepared(g, s.nextToken))]
    && s'.nextToken == s.nextToken + 1 && s'.now == s.now
  }

  lemma RecoverableIsLeftBehind(s: Store, job: DownloadJob)
    requires Inv(s)
    ensures Recoverable(s.asset, job, s.now) <==> LeftBehind(s.asset, job, s.now)
  {
  }

  lemma ClaimStarts(s: Store, w: nat, seconds: LeaseSeconds)
    requires s.asset.generation in s.jobs
    ensures var g, s' := s.asset.generation, ClaimAndStart(s, w, seconds);
            if JobHistory.Due(s.jobs[g], s.now)
            then Started(s, s', w, s.jobs[g].payload, s.jobs[g].attempts + 1, s.jobs[g].maxAttempts, seconds)
            else WorkerOf(s', w) == Resting
  {
    JobHistory.ClaimIsGrantedWhenDue(s.jobs[s.asset.generation], w, s.nextToken, seconds, s.now);
  }

  /** Rewriting the asset and the current job first, in the same transaction, does not show. */
  lemma StartedThrough(s: Store, job: DownloadJob, a: Asset, s': Store, w: nat, scope: nat, attempt: nat, most: nat, seconds: nat)
    requires a.generation == s.asset.generation
    requires Started(s.(jobs := s.jobs[a.generation := job], asset := a), s', w, scope, attempt, most, seconds)
    ensures Started(s, s', w, scope, attempt, most, seconds)
  {
  }

  /** An attempt can start on this row, given what its asset is doing. */
  predicate Open(a: Asset, job: DownloadJob, now: nat) {
    JobHistory.Due(job, now) && (a.status.Downloading? ==> job.status.Running? || job.status.FailedRetryable?)
  }

  lemma BusyDownload(s: Store, w: nat, seconds: LeaseSeconds)
    requires Inv(s) && s.asset.generation in s.jobs && s.asset.status.Downloading?
    ensures var job, s' := s.jobs[s.asset.generation], BeginDownloading(s, w, seconds);
            if Open(s.asset, job, s.now) then Started(s, s', w, job.payload, job.attempts + 1, job.maxAttempts, seconds)
            else WorkerOf(s', w) == Resting
  {
    var g := s.asset.generation;
    var job := Reclaim(s.jobs[g], s.now);
    JobHistory.ReclaimedRow(s.jobs[g], s.now);
    var mirrored := MirrorReclaim(s.asset, job);
    if mirrored.Some? {
      var queued := QueueAsset(mirrored.value);
      ClaimStarts(s.(jobs := s.jobs[g := job], asset := queued), w, seconds);
      hide ClaimAndStart, Reclaim, Started;
      if Open(s.asset, s.jobs[g], s.now) {
        StartedThrough(s, job, queued, BeginDownloading(s, w, seconds), w, job.payload, job.attempts + 1, job.maxAttempts, seconds);
      }
    }
  }

  lemma BeginsOnJob(s: Store, w: nat, allowRecovery: bool, scope: nat, seconds: LeaseSeconds)
    requires Inv(s) && s.asset.generation in s.jobs && !s.asset.status.Verified? && s.asset.status != AssetFailed(false)
    ensures var job, s' := s.jobs[s.asset.generation], BeginJob(s, w, allowRecovery, scope, seconds);
            if TakesOver(s, allowRecovery, scope)
            then s' == Become(s, w, Recovers(Recovery(s.asset.generation, job.status, job.lease)))
            else if job.payload == scope && Open(s.asset, job, s.now)
            then Started(s, s', w, scope, job.attempts + 1, job.maxAttempts, seconds)
            else WorkerOf(s', w) == Resting
  {
    var g := s.asset.generation;
    RecoverableIsLeftBehind(s, s.jobs[g]);
    hide ClaimAndStart, BeginDownloading, Recoverable, LeftBehind, Started;
    if s.asset.status.Downloading? {
      BusyDownload(s, w, seconds);
    } else {
      var queued := if s.asset.status.AssetQueued? then s.asset else QueueAsset(s.asset);
      var s' := ClaimAndStart(s.(asset := queued), w, seconds);
      ClaimStarts(s.(asset := queued), w, seconds);
      assert s.jobs[g := s.jobs[g]] == s.jobs;
      if Open(s.asset, s.jobs[g], s.now) {
        StartedThrough(s, s.jobs[g], queued, s', w, s.jobs[g].payload, s.jobs[g].attempts + 1, s.jobs[g].maxAttempts, seconds);
      }
    }
  }

  /** An idle worker that asks for an asset gets exactly this: a finished download to take
      over, a new attempt, verified content to inspect, or nothing. */
  lemma BeginsExactly(s: Store, w: nat, allowRecovery: bool, scope: nat, attempts: MaxAttempts, seconds: LeaseSeconds)
    requires Inv(s) && WorkerOf(s, w) == Resting
    ensures var g, s' := s.asset.generation, Next(s, SBegin(w, allowRecovery, scope, attempts, seconds));
            if TakesOver(s, allowRecovery, scope) then
              s' == Become(s, w, Recovers(Recovery(g, s.jobs[g].status, s.jobs[g].lease)))
            else if Starts(s, allowRecovery, scope) then
              if g in s.jobs then Started(s, s', w, scope, s.jobs[g].attempts + 1, s.jobs[g].maxAttempts, seconds)
              else Started(s, s', w, scope, 1, attempts, seconds)
            else if s.asset.status.Verified? && s.jobs[g].payload == scope && s.asset.content.Some? then
              s' == Become(s, w, Inspects(g, s.asset.content.value))
            else WorkerOf(s', w) == Resting
  {
    var g := s.asset.generation;
    if s.asset.status.Verified? || s.asset.status == AssetFailed(false) {
      if g in s.jobs { RecoverableIsLeftBehind(s, s.jobs[g]); }
    } else {
      var job := if g in s.jobs then s.jobs[g] else Enqueued(scope, attempts, s.now);
      var s1 := s.(jobs := s.jobs[g := job]);
      assert g in s.jobs ==> s1.jobs == s.jobs;
      BeginsOnJob(s1, w, allowRecovery, scope, seconds);
      hide BeginJob, Started;
      if Starts(s, allowRecovery, scope) {
        StartedThrough(s, job, s.asset, BeginJob(s1, w, allowRecovery, scope, seconds), w, scope, job.attempts + 1, job.maxAttempts, seconds);
      }
    }
  }

  /** What becomes of the rows when the worker gets nothing: an asset whose downloader died
      without an attempt left ends with its job, one that waits for a job that is not due is
      queued, and everything else stays. */
  ghost predicate LeftAlone(s: Store, s': Store, scope: nat) {
    var g, a := s.asset.generation, s.asset;
    var mine := g in s.jobs && s.jobs[g].payload == scope;
    if mine && a.status.Downloading? && (s.jobs[g].status.FailedTerminal? || JobHistory.Dead(s.jobs[g], s.now)) then
      && s'.asset == a.(status := AssetFailed(false), expired := true)
      && g in s'.jobs && s'.jobs == s.jobs[g := s'.jobs[g]] && s'.jobs[g].status.FailedTerminal? && s'.jobs[g].lease == None
    else
      && s'.jobs == s.jobs
      && s'.asset == if mine && (a.status.Discovered? || a.status == AssetFailed(true) || (a.status.Downloading? && s.jobs[g].status.FailedRetryable?))
                     then a.(status := AssetQueued, job := None, expired := false) else a
  }

  lemma ClaimRefused(s: Store, w: nat, seconds: LeaseSeconds)
    requires s.asset.generation in s.jobs && !JobHistory.Due(s.jobs[s.asset.generation], s.now) && !JobHistory.Dead(s.jobs[s.asset.generation], s.now)
    ensures ClaimAndStart(s, w, seconds) == Become(s, w, Resting)
  {
    JobHistory.ClaimIsGrantedWhenDue(s.jobs[s.asset.generation], w, s.nextToken, seconds, s.now);
    assert s.jobs[s.asset.generation := s.jobs[s.asset.generation]] == s.jobs;
  }

  lemma BusyIsLeftAlone(s: Store, w: nat, seconds: LeaseSeconds)
    requires Inv(s) && s.asset.generation in s.jobs && s.asset.status.Downloading?
    requires !Open(s.asset, s.jobs[s.asset.generation], s.now)
    ensures LeftAlone(s, BeginDownloading(s, w, seconds), s.jobs[s.asset.generation].payload)
  {
    var g := s.asset.generation;
    JobHistory.ReclaimedRow(s.jobs[g], s.now);
    var job := Reclaim(s.jobs[g], s.now);
    if job.status.FailedRetryable? {
      var queued := s.(jobs := s.jobs[g := job], asset := QueueAsset(MirrorReclaim(s.asset, job).value));
      ClaimRefused(queued, w, seconds);
      hide ClaimAndStart, Reclaim;
      assert s.jobs[g := s.jobs[g]] == s.jobs;
    }
  }

  /** When it gets nothing, the rows are left as said. */
  lemma RestsExactly(s: Store, w: nat, allowRecovery: bool, scope: nat, attempts: MaxAttempts, seconds: LeaseSeconds)
    requires Inv(s) && WorkerOf(s, w) == Resting
    requires !TakesOver(s, allowRecovery, scope) && !Starts(s, allowRecovery, scope)
    ensures LeftAlone(s, Next(s, SBegin(w, allowRecovery, scope, attempts, seconds)), scope)
  {
    var g := s.asset.generation;
    if !s.asset.status.Verified? && s.asset.status != AssetFailed(false) {
      assert g in s.jobs;
      RecoverableIsLeftBehind(s, s.jobs[g]);
      assert s.jobs[g := s.jobs[g]] == s.jobs;
      hide ClaimAndStart, BeginDownloading, Recoverable, LeftBehind;
      if s.jobs[g].payload == scope {
        if s.asset.status.Downloading? {
          BusyIsLeftAlone(s, w, seconds);
        } else {
          ClaimRefused(s.(asset := if s.asset.status.AssetQueued? then s.asset else QueueAsset(s.asset)), w, seconds);
        }
      }
    } else {
      VerifiedHasItsJob(s);
    }
  }

  lemma VerifiedHasItsJob(s: Store)
    requires Inv(s) && (s.asset.status.Verified? || s.asset.status == AssetFailed(false))
    ensures s.asset.generation in s.jobs && !s.jobs[s.asset.generation].status.Running?
  {
  }

  /** Job and asset are still as the worker saw them when it decided to take over: the job
      runs under that very lease, now expired, or is as the reclaim left it, and the asset is
      downloading for it, or failed with that reclaim. */
  predicate StillLeftBehind(s: Store, r: Recovery) {
    && r.generation in s.jobs && s.asset.generation == r.generation && s.asset.job == Some(r.generation)
    && var job := s.jobs[r.generation];
    if r.status.Running? then
      && r.lease.Some? && job.status.Running? && job.lease.Some? && job.lease.value.expires <= s.now
      && job.lease.value.owner == r.lease.value.owner && job.lease.value.token == r.lease.value.token
      && s.asset.status.Downloading?
    else
      && job.status == r.status && job.lease == None && job.leaseExpired
      && ((r.status.FailedRetryable? && job.attempts < job.maxAttempts) || (r.status.FailedTerminal? && job.attempts >= job.maxAttempts))
      && (s.asset.status.Downloading? || (s.asset.status == AssetFailed(r.status.FailedRetryable?) && s.asset.expired))
  }

  /** A takeover happens exactly then: the job runs on for the new worker, with no attempt
      spent, and the asset is downloading for it.  Otherwise neither row is touched. */
  lemma TakesOverExactly(s: Store, w: nat, r: Recovery, seconds: LeaseSeconds)
    requires WorkerOf(s, w) == Recovers(r)
    ensures var s', g := Next(s, STakeover(w, seconds)), r.generation;
            if StillLeftBehind(s, r) then
              && s'.workers == s.workers[w := Downloads(Prepared(g, s.nextToken))] && s'.nextToken == s.nextToken + 1
              && s'.asset.status.Downloading? && s'.asset == s.asset.(status := Downloading, expired := s'.asset.expired)
              && g in s'.jobs && s'.jobs == s.jobs[g := s'.jobs[g]] && s'.jobs[g].status.Running?
              && s'.jobs[g].lease == Some(Lease(w, s.nextToken, s.now + seconds))
              && s'.jobs[g].attempts == s.jobs[g].attempts && s'.jobs[g].payload == s.jobs[g].payload
            else s' == Become(s, w, Resting)
  {
    if r.generation in s.jobs {
      var job := s.jobs[r.generation];
      var seen := if r.lease.Some? then r.lease.value else Lease(0, 0, 0);
      JobHistory.SuccessorIsGranted(job, seen, r.status, w, s.nextToken, seconds, job.payload, s.now);
    }
  }

  // ----- Downloads finish -----

  ghost predicate VerifiedAs(s: Store, g: nat, content: nat, attempt: nat) {
    && s.asset.status.Verified? && s.asset.generation == g && s.asset.content == Some(content)
    && g in s.jobs && s.jobs[g].status.Succeeded? && s.jobs[g].attempts == attempt
  }

  lemma RunThree(s: Store, a: Step, b: Step, c: Step)
    ensures Run(s, [a, b, c]) == Next(Next(Next(s, a), b), c)
  {
    assert [a, b, c][1..] == [b, c] && [b, c][1..] == [c] && [c][1..] == [];
    assert Run(Next(s, a), [b, c]) == Run(Next(Next(s, a), b), [c]);
  }

  lemma StartedFinishes(s: Store, s1: Store, w: nat, scope: nat, attempt: nat, most: nat, seconds: nat, content: nat, lease: LeaseSeconds)
    requires Started(s, s1, w, scope, attempt, most, seconds)
    ensures VerifiedAs(Finalize(Guard(s1, w, lease), w, content, lease), s.asset.generation, content, attempt)
  {
  }

  /** In every reachable state in which a download can start, the worker that asks verifies
      the asset by its own steps, with one attempt more. */
  lemma StartedIsVerified(before: seq<Step>, w: nat, allowRecovery: bool, scope: nat, attempts: MaxAttempts, seconds: LeaseSeconds, content: nat)
    requires WorkerOf(Run(EMPTY, before), w) == Resting && Starts(Run(EMPTY, before), allowRecovery, scope)
    ensures var s := Run(EMPTY, before); var g := s.asset.generation;
            VerifiedAs(Run(s, [SBegin(w, allowRecovery, scope, attempts, seconds), SGuard(w, seconds), SFinalize(w, content, seconds)]),
                       g, content, if g in s.jobs then s.jobs[g].attempts + 1 else 1)
  {
    var s := Run(EMPTY, before);
    var g := s.asset.generation;
    var begin := SBegin(w, allowRecovery, scope, attempts, seconds);
    RunKeepsInv(EMPTY, before);
    BeginsExactly(s, w, allowRecovery, scope, attempts, seconds);
    RunThree(s, begin, SGuard(w, seconds), SFinalize(w, content, seconds));
    hide Inv, Begin, Guard, Finalize, Starts, Started, VerifiedAs, Run;
    if g in s.jobs {
      StartedFinishes(s, Next(s, begin), w, scope, s.jobs[g].attempts + 1, s.jobs[g].maxAttempts, seconds, content, seconds);
    } else {
      StartedFinishes(s, Next(s, begin), w, scope, 1, attempts, seconds, content, seconds);
    }
  }

  /** The first download of all is verified at its first attempt. */
  lemma FirstDownload(w: nat, allowRecovery: bool, scope: nat, attempts: MaxAttempts, seconds: LeaseSeconds, content: nat)
    ensures VerifiedAs(Run(EMPTY, [SBegin(w, allowRecovery, scope, attempts, seconds), SGuard(w, seconds), SFinalize(w, content, seconds)]),
                       1, content, 1)
  {
    StartedIsVerified([], w, allowRecovery, scope, attempts, seconds, content);
  }

  /** After a recorded retryable failure, any idle worker of that scope starts the next attempt. */
  lemma FailedIsRetried(before: seq<Step>, w: nat, v: nat, allowRecovery: bool, attempts: MaxAttempts, seconds: LeaseSeconds)
    requires var s := Run(EMPTY, before);
             && Attempting(WorkerOf(s, w)).Some? && CanFail(s, w, Attempting(WorkerOf(s, w)).value, true)
             && (v == w || WorkerOf(s, v) == Resting)
    ensures var s := Run(EMPTY, before); var g := s.asset.generation;
            var s1 := Next(s, SRecordFailure(w, true));
            && g in s.jobs && g in s1.jobs && s1.asset.status == AssetFailed(true)
            && Started(s1, Next(s1, SBegin(v, allowRecovery, s.jobs[g].payload, attempts, seconds)), v, s.jobs[g].payload,
                       s.jobs[g].attempts + 1, s.jobs[g].maxAttempts, seconds)
  {
    var s := Run(EMPTY, before);
    RunKeepsInv(EMPTY, before);
    NextKeepsInv(s, SRecordFailure(w, true));
    FailedCanStart(s, w, v, allowRecovery);
    BeginsExactly(Next(s, SRecordFailure(w, true)), v, allowRecovery, s.jobs[s.asset.generation].payload, attempts, seconds);
  }

  lemma FailedCanStart(s: Store, w: nat, v: nat, allowRecovery: bool)
    requires Attempting(WorkerOf(s, w)).Some? && CanFail(s, w, Attempting(WorkerOf(s, w)).value, true)
    requires v == w || WorkerOf(s, v) == Resting
    ensures var s1, g := Next(s, SRecordFailure(w, true)), s.asset.generation;
            && g in s.jobs && g in s1.jobs && s1.asset.generation == g && s1.asset.status == AssetFailed(true)
            && s1.jobs[g].payload == s.jobs[g].payload && s1.jobs[g].attempts == s.jobs[g].attempts
            && s1.jobs[g].maxAttempts == s.jobs[g].maxAttempts
            && !TakesOver(s1, allowRecovery, s.jobs[g].payload) && Starts(s1, allowRecovery, s.jobs[g].payload)
            && WorkerOf(s1, v) == Resting
  {
  }

  /** The worker `w` died after its download, and its lease ran out. */
  function Abandoned(s: Store, w: nat, elapsed: nat): Store {
    Next(Next(s, SStop(w)), STick(elapsed))
  }

  lemma AbandonedIsRecoverable(s: Store, w: nat, p: Prepared, elapsed: nat, v: nat)
    requires WorkerOf(s, w) == Downloads(p) && Controls(s, w, p) && s.jobs[p.generation].lease.value.expires <= s.now + elapsed
    requires v == w || WorkerOf(s, v) == Resting
    ensures var s2 := Abandoned(s, w, elapsed);
            && s2.jobs == s.jobs && s2.asset == s.asset && s2.asset.generation == p.generation && s2.asset.job.Some?
            && WorkerOf(s2, v) == Resting && Recoverable(s2.asset, s2.jobs[p.generation], s2.now)
  {
  }

  /** What a dead worker downloaded is verified by the next one that asks, without another
      attempt. */
  lemma AbandonedIsVerified(before: seq<Step>, w: nat, p: Prepared, elapsed: nat, v: nat, attempts: MaxAttempts,
                            seconds: LeaseSeconds, content: nat)
    requires var s := Run(EMPTY, before);
             && WorkerOf(s, w) == Downloads(p) && Controls(s, w, p) && s.jobs[p.generation].lease.value.expires <= s.now + elapsed
             && (v == w || WorkerOf(s, v) == Resting)
    ensures var s := Run(EMPTY, before); var g := p.generation;
            VerifiedAs(Run(Abandoned(s, w, elapsed), [SBegin(v, true, s.jobs[g].payload, attempts, seconds), STakeover(v, seconds),
                                                      SGuard(v, seconds), SFinalize(v, content, seconds)]),
                       g, content, s.jobs[g].attempts)
  {
    var s := Run(EMPTY, before);
    RunKeepsInv(EMPTY, before);
    NextKeepsInv(s, SStop(w));
    NextKeepsInv(Next(s, SStop(w)), STick(elapsed));
    AbandonedIsRecoverable(s, w, p, elapsed, v);
    hide Run, Next, Inv, Recoverable;
    PreparedResultIsRecovered(Abandoned(s, w, elapsed), v, attempts, seconds, content);
  }

  /** When verified bytes turn out missing, the generation that follows can be downloaded
      under any scope; the old job keeps its success. */
  lemma ResetStartsOver(before: seq<Step>, w: nat, content: nat, allowRecovery: bool, scope: nat)
    requires var s := Run(EMPTY, before);
             s.asset.status.Verified? && s.asset.content == Some(content) && WorkerOf(s, w) == Inspects(s.asset.generation, content)
    ensures var s, s' := Run(EMPTY, before), Next(Run(EMPTY, before), SResetArchive(w));
            && s'.asset == Asset(Discovered, s.asset.generation + 1, None, false, None) && s'.jobs == s.jobs
            && WorkerOf(s', w) == Resting && Starts(s', allowRecovery, scope)
  {
    RunKeepsInv(EMPTY, before);
  }

  // ----- A requeued job -----

  /** The asset is downloading for a job that somebody put back into the queue, or cancelled. */
  predicate Stranded(s: Store) {
    var g := s.asset.generation;
    && s.asset.status.Downloading? && g in s.jobs && s.jobs[g].lease == None
    && (s.jobs[g].status.Queued? || s.jobs[g].status.Cancelled?)
  }

  lemma StrandedStep(s: Store, step: Step)
    requires Inv(s) && Stranded(s) && !step.SRediscover?
    ensures Stranded(Next(s, step)) && Next(s, step).asset == s.asset
  {
    match step
    case SBegin(w, allowRecovery, scope, attempts, seconds) =>
      if WorkerOf(s, w) == Resting { RestsExactly(s, w, allowRecovery, scope, attempts, seconds); }
    case STakeover(w, seconds) =>
      if WorkerOf(s, w).Recovers? { TakesOverExactly(s, w, WorkerOf(s, w).recovery, seconds); }
    case _ =>
  }

  /** Such an asset stays as it is over every later run, until a rediscovery starts a new
      generation. */
  lemma {:induction false} StrandedForGood(s: Store, steps: seq<Step>)
    requires Inv(s) && Stranded(s) && forall i :: 0 <= i < |steps| ==> !steps[i].SRediscover?
    ensures Stranded(Run(s, steps)) && Run(s, steps).asset == s.asset
    decreases |steps|
  {
    if steps != [] {
      StrandedStep(s, steps[0]);
      NextKeepsInv(s, steps[0]);
      StrandedForGood(Next(s, steps[0]), steps[1..]);
    }
  }

  /** A requeue between the death of a downloader and the next request leads there. */
  lemma StrandedIsReachable(w: nat, scope: nat, attempts: MaxAttempts, seconds: LeaseSeconds)
    requires attempts > 1
    ensures Stranded(Run(EMPTY, [SBegin(w, true, scope, attempts, seconds), STick(seconds), SReclaim(1)] + [SRequeue(1)]))
  {
    var begin := SBegin(w, true, scope, attempts, seconds);
    BeginsExactly(EMPTY, w, true, scope, attempts, seconds);
    RunThree(EMPTY, begin, STick(seconds), SReclaim(1));
    var s3 := Run(EMPTY, [begin, STick(seconds), SReclaim(1)]);
    RunSnoc(EMPTY, [begin, STick(seconds), SReclaim(1)], SRequeue(1));
    JobHistory.ReclaimedRow(Next(EMPTY, begin).jobs[1], seconds);
    JobHistory.RequeuedRow(s3.jobs[1], s3.now);
  }

  lemma {:induction false} RunSnoc(s: Store, steps: seq<Step>, last: Step)
    ensures Run(s, steps + [last]) == Next(Run(s, steps), last)
    decreases |steps|
  {
    if steps == [] {
      assert [] + [last] == [last] && [last][1..] == [];
    } else {
      assert (steps + [last])[0] == steps[0] && (steps + [last])[1..] == steps[1..] + [last];
      RunSnoc(Next(s, steps[0]), steps[1..], last);
    }
  }
}
