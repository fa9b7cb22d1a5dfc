/** Lease-fenced downloads of one asset: the asset row, one job row per generation, and
    workers that claim, take over, publish, fail or are displaced. */
module Downloads {
  import opened Wrappers
  import opened Jobs

  datatype AssetStatus = Discovered | AssetQueued | Downloading | Verified | AssetFailed(retryable: bool)

  /** `job` is `download_job_id`, named by the generation its natural key carries;
      `expired` says that the last error is "download_lease_expired". */
  datatype Asset = Asset(status: AssetStatus, generation: nat, job: Option<nat>, expired: bool, content: Option<nat>)

  type LeaseSeconds = s: nat | 1 <= s <= 86_400 witness 1
  type MaxAttempts = n: nat | 1 <= n <= 100 witness 1

  /** A job's payload is its I/O scope; asset and generation are in its key. */
  type DownloadJob = Job<nat>

  datatype Prepared = Prepared(generation: nat, token: nat)

  /** `_PreparedRecovery`: the job as the deciding transaction saw it. */
  datatype Recovery = Recovery(generation: nat, status: Status, lease: Option<Lease>)

  datatype Worker =
    | Resting
    | Recovers(recovery: Recovery)
    | Downloads(prepared: Prepared)
    | Publishes(prepared: Prepared)
    | Inspects(generation: nat, content: nat)

  datatype Store = Store(asset: Asset, jobs: map<nat, DownloadJob>, nextToken: nat, now: nat, workers: map<nat, Worker>)

  function WorkerOf(s: Store, w: nat): Worker {
    if w in s.workers then s.workers[w] else Resting
  }

  function Become(s: Store, w: nat, state: Worker): Store {
    s.(workers := s.workers[w := state])
  }

  // ----- Asset updates -----

  function QueueAsset(a: Asset): Asset {
    a.(status := AssetQueued, job := None, expired := false)
  }

  function StartAsset(a: Asset): Asset {
    a.(status := Downloading, job := Some(a.generation), expired := false, content := None)
  }

  function NextGeneration(a: Asset): Asset {
    Asset(Discovered, a.generation + 1, None, false, None)
  }

  /** `recover_expired_download`: mirror a reclaimed job onto its downloading asset. */
  function MirrorReclaim(a: Asset, job: DownloadJob): Option<Asset> {
    if a.status.Downloading? && a.job == Some(a.generation) && job.lease == None &&
       (job.status.FailedRetryable? || job.status.FailedTerminal?)
    then Some(a.(status := AssetFailed(job.status.FailedRetryable?), expired := true))
    else None
  }

  // ----- `_begin` -----

  predicate Reclaimed(job: DownloadJob) {
    job.leaseExpired && job.lease == None
  }

  /** Jobs whose finished bytes may still be waiting in the work directory. */
  predicate Recoverable(a: Asset, job: DownloadJob, now: nat) {
    match a.status
    case AssetFailed(true) =>
      a.job == Some(a.generation) && a.expired && job.status.FailedRetryable? && Reclaimed(job) && 0 < job.attempts < job.maxAttempts
    case AssetFailed(false) => a.expired && job.status.FailedTerminal? && Reclaimed(job)
    case Downloading =>
      || (job.status.FailedTerminal? && Reclaimed(job))
      || (job.status.Running? && job.lease.Some? && job.lease.value.expires <= now)
    case _ => false
  }

  /** Claim and start the job, then start the queued asset under the new lease. */
  function ClaimAndStart(s: Store, w: nat, seconds: LeaseSeconds): Store
    requires s.asset.generation in s.jobs
  {
    var g := s.asset.generation;
    var (row, ok) := Claim(s.jobs[g], w, s.nextToken, seconds, s.now);
    if !ok then Become(s.(jobs := s.jobs[g := row]), w, Resting)
    else
      var running := Start(row, w, s.nextToken, s.now).value;
      Become(s.(jobs := s.jobs[g := running], nextToken := s.nextToken + 1, asset := StartAsset(s.asset)),
             w, Downloads(Prepared(g, s.nextToken)))
  }

  /** The asset is downloading and nothing can be taken over: reclaim the job if it
      expired, and report busy while its lease is alive. */
  function BeginDownloading(s: Store, w: nat, seconds: LeaseSeconds): Store
    requires s.asset.generation in s.jobs
  {
    var g := s.asset.generation;
    var job := Reclaim(s.jobs[g], s.now);
    if !Expired(s.jobs[g], s.now) && !job.status.FailedRetryable? && !job.status.FailedTerminal? then Become(s, w, Resting)
    else match MirrorReclaim(s.asset, job)
      case None => Become(s, w, Resting)
      case Some(a) =>
        if a.status == AssetFailed(false) then Become(s.(jobs := s.jobs[g := job], asset := a), w, Resting)
        else ClaimAndStart(s.(jobs := s.jobs[g := job], asset := QueueAsset(a)), w, seconds)
  }

  /** A verified asset answers any scope when no job is recorded, else only its job's. */
  predicate ServesScope(a: Asset, jobs: map<nat, DownloadJob>, scope: nat) {
    a.job == None || (a.job == Some(a.generation) && a.generation in jobs && jobs[a.generation].payload == scope)
  }

  function Begin(s: Store, w: nat, allowRecovery: bool, scope: nat, attempts: MaxAttempts, seconds: LeaseSeconds): Store {
    var g := s.asset.generation;
    if !WorkerOf(s, w).Resting? then s
    else if s.asset.status.Verified? then
      if ServesScope(s.asset, s.jobs, scope) && s.asset.content.Some?
      then Become(s, w, Inspects(g, s.asset.content.value))
      else Become(s, w, Resting)
    else if s.asset.status == AssetFailed(false) then
      if allowRecovery && s.asset.job == Some(g) && g in s.jobs && s.jobs[g].payload == scope && Recoverable(s.asset, s.jobs[g], s.now)
      then Become(s, w, Recovers(Recovery(g, s.jobs[g].status, s.jobs[g].lease)))
      else Become(s, w, Resting)
    else
      var job := if g in s.jobs then s.jobs[g] else Enqueued(scope, attempts, s.now);
      BeginJob(s.(jobs := s.jobs[g := job]), w, allowRecovery, scope, seconds)
  }

  /** The rest of `_begin`, once the job of this generation is known to exist. */
  function BeginJob(s: Store, w: nat, allowRecovery: bool, scope: nat, seconds: LeaseSeconds): Store
    requires s.asset.generation in s.jobs
  {
    var g := s.asset.generation;
    var job := s.jobs[g];
    if job.payload != scope then Become(s, w, Resting)
    else if s.asset.status.Downloading? && s.asset.job != Some(g) then Become(s, w, Resting)
    else if allowRecovery && Recoverable(s.asset, job, s.now) then Become(s, w, Recovers(Recovery(g, job.status, job.lease)))
    else if s.asset.status.Downloading? then BeginDownloading(s, w, seconds)
    else ClaimAndStart(s.(asset := if s.asset.status.AssetQueued? then s.asset else QueueAsset(s.asset)), w, seconds)
  }

  // ----- Taking over a prepared result -----

  /** `resume_reclaimed_prepared_result` on the asset. */
  function ResumeAsset(a: Asset, r: Recovery): Option<Asset> {
    if a.generation == r.generation && a.status == AssetFailed(r.status.FailedRetryable?) && a.job == Some(r.generation) && a.expired
    then Some(a.(status := Downloading, expired := false))
    else None
  }

  function Takeover(s: Store, w: nat, seconds: LeaseSeconds): Store {
    match WorkerOf(s, w)
    case Recovers(r) =>
      if r.generation !in s.jobs then Become(s, w, Resting) else
      var job := s.jobs[r.generation];
      var running :=
        if r.status.Running? then
          if r.lease == None then None else TakeoverExpired(job, r.lease.value, w, s.nextToken, seconds, s.now)
        else ResumeReclaimed(job, r.status, w, s.nextToken, seconds, s.now);
      var asset := if !r.status.Running? && !s.asset.status.Downloading? then ResumeAsset(s.asset, r) else Some(s.asset);
      if running == None || asset == None then Become(s, w, Resting)
      else if asset.value.generation != r.generation || !asset.value.status.Downloading? || asset.value.job != Some(r.generation)
      then Become(s, w, Resting)
      else Become(s.(jobs := s.jobs[r.generation := running.value], asset := asset.value, nextToken := s.nextToken + 1),
                  w, Downloads(Prepared(r.generation, s.nextToken)))
    case _ => s
  }

  // ----- Publishing under the lease -----

  predicate AssetIsMine(a: Asset, p: Prepared) {
    a.generation == p.generation && a.status.Downloading? && a.job == Some(p.generation)
  }

  /** The running job and the downloading asset are this attempt's, expired or not. */
  predicate Controls(s: Store, w: nat, p: Prepared) {
    p.generation in s.jobs && Holds(s.jobs[p.generation], w, p.token) && s.jobs[p.generation].status.Running? && AssetIsMine(s.asset, p)
  }

  /** The same with a live lease, and with an attempt left when the failure may be retried. */
  predicate CanFail(s: Store, w: nat, p: Prepared, retryable: bool) {
    && p.generation in s.jobs && Owns(s.jobs[p.generation], w, p.token, s.now) && AssetIsMine(s.asset, p)
    && (s.jobs[p.generation].status.Claimed? || s.jobs[p.generation].status.Running?)
    && (retryable ==> s.jobs[p.generation].attempts < s.jobs[p.generation].maxAttempts)
  }

  /** `_guard_publish`, the last check before bytes enter the archive. */
  function Guard(s: Store, w: nat, seconds: LeaseSeconds): Store {
    match WorkerOf(s, w)
    case Downloads(p) =>
      if p.generation !in s.jobs then Become(s, w, Resting) else
      (match RenewUnreclaimed(s.jobs[p.generation], w, p.token, seconds, s.now)
       case None => Become(s, w, Resting)
       case Some(row) =>
         if !AssetIsMine(s.asset, p) then Become(s, w, Resting)
         else Become(s.(jobs := s.jobs[p.generation := row]), w, Publishes(p)))
    case _ => s
  }

  /** `_finalize_success`: renew, verify the asset and complete the job, or nothing. */
  function Finalize(s: Store, w: nat, content: nat, seconds: LeaseSeconds): Store {
    match WorkerOf(s, w)
    case Publishes(p) =>
      if p.generation !in s.jobs then Become(s, w, Resting) else
      (match RenewUnreclaimed(s.jobs[p.generation], w, p.token, seconds, s.now)
       case None => Become(s, w, Resting)
       case Some(row) =>
         if !AssetIsMine(s.asset, p) then Become(s, w, Resting)
         else match Complete(row, w, p.token, row.payload, s.now)
           case None => Become(s, w, Resting)
           case Some(done) =>
             Become(s.(jobs := s.jobs[p.generation := done],
                       asset := s.asset.(status := Verified, content := Some(content), expired := false)), w, Resting))
    case _ => s
  }

  /** `_record_failure`: fail the asset and the job alike, or neither. */
  function RecordFailure(s: Store, w: nat, retryable: bool): Store {
    match WorkerOf(s, w)
    case Downloads(p) => FailAttempt(s, w, p, retryable)
    case Publishes(p) => FailAttempt(s, w, p, retryable)
    case _ => s
  }

  function FailAttempt(s: Store, w: nat, p: Prepared, retryable: bool): Store {
    if p.generation !in s.jobs then Become(s, w, Resting) else
    var row := s.jobs[p.generation];
    match Fail(row, w, p.token, retryable, s.now)
    case None => Become(s, w, Resting)
    case Some(failed) =>
      if !AssetIsMine(s.asset, p) || failed.status.FailedRetryable? != retryable then Become(s, w, Resting)
      else Become(s.(jobs := s.jobs[p.generation := failed],
                     asset := s.asset.(status := AssetFailed(retryable), expired := false)), w, Resting)
  }

  /** `_validate_verified_archive` found the verified bytes missing or corrupt. */
  function ResetArchive(s: Store, w: nat): Store {
    match WorkerOf(s, w)
    case Inspects(g, content) =>
      if s.asset.generation == g && s.asset.status.Verified? && s.asset.content == Some(content)
      then Become(s.(asset := NextGeneration(s.asset)), w, Resting)
      else Become(s, w, Resting)
    case _ => s
  }

  // ----- Steps and runs -----

  datatype Step =
    | SBegin(w: nat, allowRecovery: bool, scope: nat, attempts: MaxAttempts, seconds: LeaseSeconds)
    | STakeover(w: nat, seconds: LeaseSeconds)
    | SGuard(w: nat, seconds: LeaseSeconds)
    | SFinalize(w: nat, content: nat, seconds: LeaseSeconds)
    | SRecordFailure(w: nat, retryable: bool)
    | SResetArchive(w: nat)
    | SStop(w: nat)
    | STick(elapsed: nat)
    | SReclaim(g: nat)
    | SRequeue(g: nat)
    | SCancel(g: nat)
    | SRediscover

  function OnJob(s: Store, g: nat, job: DownloadJob): Store {
    s.(jobs := s.jobs[g := job])
  }

  function Next(s: Store, step: Step): Store {
    match step
    case SBegin(w, allow, scope, attempts, seconds) => Begin(s, w, allow, scope, attempts, seconds)
    case STakeover(w, seconds) => Takeover(s, w, seconds)
    case SGuard(w, seconds) => Guard(s, w, seconds)
    case SFinalize(w, content, seconds) => Finalize(s, w, content, seconds)
    case SRecordFailure(w, retryable) => RecordFailure(s, w, retryable)
    case SResetArchive(w) => ResetArchive(s, w)
    case SStop(w) => Become(s, w, Resting)
    case STick(elapsed) => s.(now := s.now + elapsed)
    case SReclaim(g) => if g in s.jobs then OnJob(s, g, Jobs.Reclaim(s.jobs[g], s.now)) else s
    case SRequeue(g) => if g in s.jobs then OnJob(s, g, Jobs.Requeue(s.jobs[g], s.now)) else s
    case SCancel(g) => if g in s.jobs then OnJob(s, g, Jobs.Cancel(s.jobs[g])) else s
    case SRediscover => s.(asset := NextGeneration(s.asset))
  }

  function Run(s: Store, steps: seq<Step>): Store
    decreases |steps|
  {
    if steps == [] then s else Run(Next(s, steps[0]), steps[1..])
  }

  const EMPTY := Store(Asset(Discovered, 1, None, false, None), map[], 0, 0, map[])

  // ----- What every run keeps -----

  /** The asset and the job of its generation move together. */
  ghost predicate Joint(a: Asset, job: Option<DownloadJob>) {
    && (a.status.Downloading? || a.status.Verified? || a.status.AssetFailed? <==> a.job == Some(a.generation))
    && (a.job.Some? ==> a.job == Some(a.generation) && job.Some?)
    && (job.Some? ==>
          && !job.value.status.Claimed?
          && (job.value.status.Running? <==> job.value.lease.Some?)
          && (job.value.status.Running? ==> a.status.Downloading?)
          && (job.value.status.Succeeded? <==> a.status.Verified?)
          && (a.status == AssetFailed(false) ==> job.value.status.FailedTerminal?)
          && (job.value.status.FailedTerminal? && job.value.leaseExpired ==> job.value.attempts >= job.value.maxAttempts)
          && (job.value.status.FailedTerminal? ==> a.status == AssetFailed(false) || (a.status.Downloading? && job.value.leaseExpired)))
  }

  function JobOf(s: Store, g: nat): Option<DownloadJob> {
    if g in s.jobs then Some(s.jobs[g]) else None
  }

  /** Jobs of later generations do not exist yet; the token counter is ahead of all tokens. */
  ghost predicate Inv(s: Store) {
    && Joint(s.asset, JobOf(s, s.asset.generation))
    && (forall g :: g in s.jobs ==> g <= s.asset.generation)
    && (forall g :: g in s.jobs && s.jobs[g].lease.Some? ==> s.jobs[g].lease.value.token < s.nextToken)
    && (forall w :: w in s.workers && Attempting(s.workers[w]).Some? ==> Attempting(s.workers[w]).value.token < s.nextToken)
  }

  function Attempting(state: Worker): Option<Prepared> {
    match state
    case Downloads(p) => Some(p)
    case Publishes(p) => Some(p)
    case _ => None
  }

  lemma ClaimKeepsInv(s: Store, w: nat, seconds: LeaseSeconds)
    requires Inv(s) && s.asset.generation in s.jobs && s.asset.status.AssetQueued?
    ensures Inv(ClaimAndStart(s, w, seconds))
  {
  }

  lemma BeginDownloadingKeepsInv(s: Store, w: nat, seconds: LeaseSeconds)
    requires Inv(s) && s.asset.generation in s.jobs && s.asset.status.Downloading?
    ensures Inv(BeginDownloading(s, w, seconds))
  {
    var g := s.asset.generation;
    var job := Reclaim(s.jobs[g], s.now);
    var mirrored := MirrorReclaim(s.asset, job);
    if mirrored.Some? && mirrored.value.status != AssetFailed(false) {
      ClaimKeepsInv(s.(jobs := s.jobs[g := job], asset := QueueAsset(mirrored.value)), w, seconds);
    }
  }

  lemma BeginJobKeepsInv(s: Store, w: nat, allow: bool, scope: nat, seconds: LeaseSeconds)
    requires Inv(s) && s.asset.generation in s.jobs && !s.asset.status.Verified? && s.asset.status != AssetFailed(false)
    ensures Inv(BeginJob(s, w, allow, scope, seconds))
  {
    if s.asset.status.Downloading? {
      BeginDownloadingKeepsInv(s, w, seconds);
    } else {
      var s1 := s.(asset := if s.asset.status.AssetQueued? then s.asset else QueueAsset(s.asset));
      assert Inv(s1);
      ClaimKeepsInv(s1, w, seconds);
    }
  }

  lemma BeginKeepsInv(s: Store, w: nat, allow: bool, scope: nat, attempts: MaxAttempts, seconds: LeaseSeconds)
    requires Inv(s)
    ensures Inv(Begin(s, w, allow, scope, attempts, seconds))
  {
    if WorkerOf(s, w).Resting? && !s.asset.status.Verified? && s.asset.status != AssetFailed(false) {
      var g := s.asset.generation;
      var s1 := s.(jobs := s.jobs[g := if g in s.jobs then s.jobs[g] else Enqueued(scope, attempts, s.now)]);
      assert Inv(s1);
      BeginJobKeepsInv(s1, w, allow, scope, seconds);
    }
  }

  lemma TakeoverKeepsInv(s: Store, w: nat, seconds: LeaseSeconds)
    requires Inv(s)
    ensures Inv(Takeover(s, w, seconds))
  {
  }

  lemma GuardKeepsInv(s: Store, w: nat, seconds: LeaseSeconds)
    requires Inv(s)
    ensures Inv(Guard(s, w, seconds))
  {
  }

  lemma FinalizeKeepsInv(s: Store, w: nat, content: nat, seconds: LeaseSeconds)
    requires Inv(s)
    ensures Inv(Finalize(s, w, content, seconds))
  {
  }

  lemma FailAttemptKeepsInv(s: Store, w: nat, p: Prepared, retryable: bool)
    requires Inv(s)
    ensures Inv(FailAttempt(s, w, p, retryable))
  {
  }

  lemma FailureKeepsInv(s: Store, w: nat, retryable: bool)
    requires Inv(s)
    ensures Inv(RecordFailure(s, w, retryable))
  {
    var attempting := Attempting(WorkerOf(s, w));
    if attempting.Some? { FailAttemptKeepsInv(s, w, attempting.value, retryable); }
  }

  lemma ResetKeepsInv(s: Store, w: nat)
    requires Inv(s)
    ensures Inv(ResetArchive(s, w))
  {
  }

  lemma NextKeepsInv(s: Store, step: Step)
    requires Inv(s)
    ensures Inv(Next(s, step))
  {
    match step
    case SBegin(w, allow, scope, attempts, seconds) => BeginKeepsInv(s, w, allow, scope, attempts, seconds);
    case STakeover(w, seconds) => TakeoverKeepsInv(s, w, seconds);
    case SGuard(w, seconds) => GuardKeepsInv(s, w, seconds);
    case SFinalize(w, content, seconds) => FinalizeKeepsInv(s, w, content, seconds);
    case SRecordFailure(w, retryable) => FailureKeepsInv(s, w, retryable);
    case SResetArchive(w) => ResetKeepsInv(s, w);
    case SStop(_) =>
    case _ => EnvironmentKeepsInv(s, step);
  }

  lemma EnvironmentKeepsInv(s: Store, step: Step)
    requires Inv(s) && (step.STick? || step.SReclaim? || step.SRequeue? || step.SCancel? || step.SRediscover?)
    ensures Inv(Next(s, step))
  {
  }

  lemma {:induction false} RunKeepsInv(s: Store, steps: seq<Step>)
    requires Inv(s)
    ensures Inv(Run(s, steps))
    decreases |steps|
  {
    if steps != [] {
      NextKeepsInv(s, steps[0]);
      RunKeepsInv(Next(s, steps[0]), steps[1..]);
    }
  }

  /** In every reachable state the asset and its job agree. */
  lemma ReachableIsJoint(steps: seq<Step>)
    ensures var s := Run(EMPTY, steps); Joint(s.asset, JobOf(s, s.asset.generation))
  {
    RunKeepsInv(EMPTY, steps);
  }

  // ----- Who can verify, and who changes nothing -----

  /** The exact lease of this attempt is still the job's. */
  predicate HoldsJob(s: Store, w: nat, p: Prepared) {
    p.generation in s.jobs && Holds(s.jobs[p.generation], w, p.token)
  }

  /** Nothing becomes verified or stops being so, and the generation stays. */
  predicate OnlyStarts(s: Store, s': Store) {
    && s'.asset.generation == s.asset.generation && s.nextToken <= s'.nextToken
    && (s'.asset.status.Verified? || s.asset.status.Verified? ==> s'.asset == s.asset)
  }

  lemma ClaimOnlyStarts(s: Store, w: nat, seconds: LeaseSeconds)
    requires s.asset.generation in s.jobs && !s.asset.status.Verified?
    ensures OnlyStarts(s, ClaimAndStart(s, w, seconds))
  {
  }

  lemma BeginJobOnlyStarts(s: Store, w: nat, allow: bool, scope: nat, seconds: LeaseSeconds)
    requires s.asset.generation in s.jobs && !s.asset.status.Verified?
    ensures OnlyStarts(s, BeginJob(s, w, allow, scope, seconds))
  {
    var g := s.asset.generation;
    if s.asset.status.Downloading? {
      var job := Reclaim(s.jobs[g], s.now);
      var mirrored := MirrorReclaim(s.asset, job);
      if mirrored.Some? { ClaimOnlyStarts(s.(jobs := s.jobs[g := job], asset := QueueAsset(mirrored.value)), w, seconds); }
    } else {
      ClaimOnlyStarts(s.(asset := if s.asset.status.AssetQueued? then s.asset else QueueAsset(s.asset)), w, seconds);
    }
  }

  lemma BeginOnlyStarts(s: Store, w: nat, allow: bool, scope: nat, attempts: MaxAttempts, seconds: LeaseSeconds)
    ensures OnlyStarts(s, Begin(s, w, allow, scope, attempts, seconds))
  {
    if !s.asset.status.Verified? {
      var g := s.asset.generation;
      var job := if g in s.jobs then s.jobs[g] else Enqueued(scope, attempts, s.now);
      BeginJobOnlyStarts(s.(jobs := s.jobs[g := job]), w, allow, scope, seconds);
    }
  }

  /** An asset becomes verified only through the worker that holds the lease of the job
      of the asset's own generation, and that job succeeds with it. */
  lemma OnlyHolderVerifies(s: Store, step: Step)
    requires !s.asset.status.Verified? && Next(s, step).asset.status.Verified?
    ensures step.SFinalize? && WorkerOf(s, step.w).Publishes?
    ensures var p, s' := WorkerOf(s, step.w).prepared, Next(s, step);
            && HoldsJob(s, step.w, p) && s.jobs[p.generation].status.Running? && AssetIsMine(s.asset, p)
            && s'.asset.generation == s.asset.generation == p.generation && s'.asset.content == Some(step.content)
            && s'.jobs[p.generation].status.Succeeded?
  {
    match step
    case SBegin(w, allow, scope, attempts, seconds) => BeginOnlyStarts(s, w, allow, scope, attempts, seconds);
    case _ =>
  }

  /** A worker whose lease was reclaimed or taken over can only stop. */
  lemma DisplacedChangesNothing(s: Store, step: Step)
    requires step.SGuard? || step.SFinalize? || step.SRecordFailure?
    requires Attempting(WorkerOf(s, step.w)).Some? && !HoldsJob(s, step.w, Attempting(WorkerOf(s, step.w)).value)
    ensures Next(s, step).asset == s.asset && Next(s, step).jobs == s.jobs
  {
  }

  lemma ClaimTakesNewToken(s: Store, w: nat, seconds: LeaseSeconds, v: nat, p: Prepared)
    requires s.asset.generation in s.jobs && p.token < s.nextToken && !HoldsJob(s, v, p)
    ensures !HoldsJob(ClaimAndStart(s, w, seconds), v, p)
  {
  }

  lemma BeginTakesNewToken(s: Store, w: nat, allow: bool, scope: nat, seconds: LeaseSeconds, v: nat, p: Prepared)
    requires s.asset.generation in s.jobs && p.token < s.nextToken && !HoldsJob(s, v, p)
    ensures !HoldsJob(BeginJob(s, w, allow, scope, seconds), v, p)
  {
    var g := s.asset.generation;
    if s.asset.status.Downloading? {
      var job := Reclaim(s.jobs[g], s.now);
      var mirrored := MirrorReclaim(s.asset, job);
      if mirrored.Some? {
        ClaimTakesNewToken(s.(jobs := s.jobs[g := job], asset := QueueAsset(mirrored.value)), w, seconds, v, p);
      }
    } else {
      ClaimTakesNewToken(s.(asset := if s.asset.status.AssetQueued? then s.asset else QueueAsset(s.asset)), w, seconds, v, p);
    }
  }

  lemma TokenStaysLost(s: Store, step: Step, v: nat, p: Prepared)
    requires Inv(s) && p.token < s.nextToken && !HoldsJob(s, v, p)
    ensures !HoldsJob(Next(s, step), v, p)
  {
    match step
    case SBegin(w, allow, scope, attempts, seconds) =>
      var g := s.asset.generation;
      var s1 := s.(jobs := s.jobs[g := if g in s.jobs then s.jobs[g] else Enqueued(scope, attempts, s.now)]);
      BeginTakesNewToken(s1, w, allow, scope, seconds, v, p);
    case _ =>
  }

  lemma TokensGrow(s: Store, step: Step)
    ensures s.nextToken <= Next(s, step).nextToken
  {
    match step
    case SBegin(w, allow, scope, attempts, seconds) => BeginOnlyStarts(s, w, allow, scope, attempts, seconds);
    case _ =>
  }

  /** Once displaced, a worker stays displaced, over every later run. */
  lemma {:induction false} DisplacedForGood(s: Store, steps: seq<Step>, v: nat, p: Prepared)
    requires Inv(s) && p.token < s.nextToken && !HoldsJob(s, v, p)
    ensures !HoldsJob(Run(s, steps), v, p)
    decreases |steps|
  {
    if steps != [] {
      TokenStaysLost(s, steps[0], v, p);
      TokensGrow(s, steps[0]);
      NextKeepsInv(s, steps[0]);
      DisplacedForGood(Next(s, steps[0]), steps[1..], v, p);
    }
  }

  /** A takeover that succeeds displaces every other attempt at the same generation. */
  lemma TakeoverDisplaces(s: Store, w: nat, v: nat, seconds: LeaseSeconds)
    requires Inv(s) && v != w && Attempting(WorkerOf(s, v)).Some?
    requires Attempting(WorkerOf(Takeover(s, w, seconds), w)).Some? && WorkerOf(s, w).Recovers?
    requires Attempting(WorkerOf(s, v)).value.generation == WorkerOf(s, w).recovery.generation
    ensures !HoldsJob(Takeover(s, w, seconds), v, Attempting(WorkerOf(s, v)).value)
  {
  }

  /** A recorded failure leaves asset and job both retryable or both terminal. */
  lemma FailureIsJoint(s: Store, w: nat, retryable: bool)
    requires RecordFailure(s, w, retryable).asset != s.asset || RecordFailure(s, w, retryable).jobs != s.jobs
    ensures var s' := RecordFailure(s, w, retryable); var g := s.asset.generation;
            && s'.asset.generation == g && s'.asset.status == AssetFailed(retryable)
            && g in s'.jobs && s'.jobs[g].lease == None
            && s'.jobs[g].status == (if retryable then FailedRetryable else FailedTerminal)
  {
  }

  lemma GenerationGrows(s: Store, step: Step)
    ensures s.asset.generation <= Next(s, step).asset.generation
    ensures s.asset.status.Verified? && Next(s, step).asset.generation == s.asset.generation ==> Next(s, step).asset == s.asset
  {
    match step
    case SBegin(w, allow, scope, attempts, seconds) => BeginOnlyStarts(s, w, allow, scope, attempts, seconds);
    case _ =>
  }

  lemma {:induction false} GenerationNeverShrinks(s: Store, steps: seq<Step>)
    ensures s.asset.generation <= Run(s, steps).asset.generation
    decreases |steps|
  {
    if steps != [] {
      GenerationGrows(s, steps[0]);
      GenerationNeverShrinks(Next(s, steps[0]), steps[1..]);
    }
  }

  /** Within one generation verified bytes are final, over every run. */
  lemma {:induction false} VerifiedIsFinal(s: Store, steps: seq<Step>)
    requires s.asset.status.Verified? && Run(s, steps).asset.generation == s.asset.generation
    ensures Run(s, steps).asset == s.asset
    decreases |steps|
  {
    if steps != [] {
      GenerationGrows(s, steps[0]);
      GenerationNeverShrinks(Next(s, steps[0]), steps[1..]);
      VerifiedIsFinal(Next(s, steps[0]), steps[1..]);
    }
  }

  lemma RunFour(s: Store, a: Step, b: Step, c: Step, d: Step)
    ensures Run(s, [a, b, c, d]) == Next(Next(Next(Next(s, a), b), c), d)
  {
    assert [a, b, c, d][1..] == [b, c, d] && [b, c, d][1..] == [c, d] && [c, d][1..] == [d] && [d][1..] == [];
    assert Run(Next(s, a), [b, c, d]) == Run(Next(Next(s, a), b), [c, d]);
    assert Run(Next(Next(s, a), b), [c, d]) == Run(Next(Next(Next(s, a), b), c), [d]);
  }

  lemma BeginFindsPrepared(s: Store, w: nat, attempts: MaxAttempts, seconds: LeaseSeconds)
    requires Inv(s) && WorkerOf(s, w) == Resting
    requires s.asset.job.Some? && Recoverable(s.asset, s.jobs[s.asset.generation], s.now)
    ensures var g := s.asset.generation; var job := s.jobs[g];
            Begin(s, w, true, job.payload, attempts, seconds) == Become(s, w, Recovers(Recovery(g, job.status, job.lease)))
  {
    assert s.jobs[s.asset.generation := s.jobs[s.asset.generation]] == s.jobs;
  }

  lemma TakeoverPrepares(s: Store, s1: Store, w: nat, seconds: LeaseSeconds)
    requires Inv(s) && s.asset.job.Some? && Recoverable(s.asset, s.jobs[s.asset.generation], s.now)
    requires var g := s.asset.generation;
             s1 == Become(s, w, Recovers(Recovery(g, s.jobs[g].status, s.jobs[g].lease)))
    ensures var p, s2 := Prepared(s.asset.generation, s.nextToken), Takeover(s1, w, seconds);
            && WorkerOf(s2, w) == Downloads(p) && AssetIsMine(s2.asset, p) && HoldsJob(s2, w, p)
            && s2.jobs[p.generation].status.Running? && s2.jobs[p.generation].attempts == s.jobs[p.generation].attempts
  {
  }

  /** While it holds the lease, even an expired one, a worker can publish and verify. */
  lemma HolderFinishes(s: Store, w: nat, p: Prepared, content: nat, seconds: LeaseSeconds)
    requires WorkerOf(s, w) == Downloads(p) && AssetIsMine(s.asset, p)
    requires HoldsJob(s, w, p) && s.jobs[p.generation].status.Running?
    ensures var s' := Finalize(Guard(s, w, seconds), w, content, seconds);
            && s'.asset.status == Verified && s'.asset.generation == p.generation && s'.asset.content == Some(content)
            && p.generation in s'.jobs && s'.jobs[p.generation].status.Succeeded?
            && s'.jobs[p.generation].attempts == s.jobs[p.generation].attempts
  {
  }

  /** A finished download whose worker died is verified by whichever worker comes next,
      whether the job is still running, reclaimed, or already mirrored on the asset; no new
      attempt is spent. */
  lemma PreparedResultIsRecovered(s: Store, w: nat, attempts: MaxAttempts, seconds: LeaseSeconds, content: nat)
    requires Inv(s) && WorkerOf(s, w) == Resting
    requires s.asset.job.Some? && Recoverable(s.asset, s.jobs[s.asset.generation], s.now)
    ensures var g := s.asset.generation;
            var s' := Run(s, [SBegin(w, true, s.jobs[g].payload, attempts, seconds), STakeover(w, seconds),
                              SGuard(w, seconds), SFinalize(w, content, seconds)]);
            && s'.asset.status == Verified && s'.asset.generation == g && s'.asset.content == Some(content)
            && g in s'.jobs && s'.jobs[g].status.Succeeded? && s'.jobs[g].attempts == s.jobs[g].attempts
  {
    var g := s.asset.generation;
    var job := s.jobs[g];
    var first := SBegin(w, true, job.payload, attempts, seconds);
    var s1 := Become(s, w, Recovers(Recovery(g, job.status, job.lease)));
    BeginFindsPrepared(s, w, attempts, seconds);
    var s2 := Takeover(s1, w, seconds);
    TakeoverPrepares(s, s1, w, seconds);
    HolderFinishes(s2, w, Prepared(g, s.nextToken), content, seconds);
    RunFour(s, first, STakeover(w, seconds), SGuard(w, seconds), SFinalize(w, content, seconds));
  }
}
