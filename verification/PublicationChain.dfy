/** The publication protocol of one export target as a step system.

    Each step is one database transaction or one locked disk operation of
    `EmbyExportService` and `EmbyExporter`; between any two steps other workers may
    run, the author may be edited, leases may expire and the process may die. */
module PublicationChain {
  import opened Wrappers
  import opened Jobs
  import opened PublicationHead

  type LeaseSeconds = s: nat | 1 <= s <= 86_400 witness 1
  type MaxAttempts = n: nat | 1 <= n <= 100 witness 1

  /** Rendering is a function of the snapshot and of the published predecessor, whose
      managed files may be carried over. */
  type Renderer = (nat, Option<Identity>) -> Identity

  /** What one target publishes: how a source is rendered, whether its snapshot carries
      over content of the predecessor, and whether it has content to record. */
  datatype Exporter = Exporter(render: Renderer, preserving: nat -> bool, recorded: nat -> bool)

  ghost predicate StampsSource(e: Exporter) {
    forall s, p :: e.render(s, p).source == s
  }

  /** The export records of one snapshot, which always move together; none yet is pending. */
  datatype Record = RecordRunning | RecordFailed(retryable: bool) | RecordSucceeded(tree: nat)

  /** The natural key; target, exporter and layout version are fixed here. */
  datatype Key = Key(source: nat, predecessor: Option<JobId>)

  datatype Body = Base | Intent(identity: Identity) | Result(identity: Identity)

  datatype Publication = Publication(key: Key, body: Body)

  type ExportJob = Job<Publication>

  /** `_PreparedAttempt`: what a worker remembers after its preparing transaction. */
  datatype Attempt = Attempt(job: JobId, token: nat, key: Key, expected: Option<Identity>, reused: Option<nat>)

  /** `_PendingPublication`: a job row as the recovery scan saw it. */
  datatype Candidate = Candidate(job: JobId, row: ExportJob)

  datatype Worker =
    | Idle(scan: bool)
    | Prepared(attempt: Attempt)
    | Rendered(attempt: Attempt, identity: Identity, fence: Option<Identity>)
    | Intended(attempt: Attempt, identity: Identity, fence: Option<Identity>)
    | Published(attempt: Attempt, identity: Identity)
    | Failing(attempt: Attempt, retryable: bool)
    | Scanning(todo: seq<Candidate>, matching: seq<Candidate>)
    | Recovering(candidate: Candidate)

  type JobTable = map<JobId, ExportJob>

  datatype System = System(
    jobs: JobTable,
    nextJob: nat,
    nextToken: nat,
    records: map<nat, Record>,
    disk: Option<Identity>,
    now: nat,
    workers: map<nat, Worker>
  )

  const EMPTY := System(map[], 0, 0, map[], None, 0, map[])

  function WorkerOf(s: System, w: nat): Worker {
    if w in s.workers then s.workers[w] else Idle(true)
  }

  function Become(s: System, w: nat, state: Worker): System {
    s.(workers := s.workers[w := state])
  }

  // ----- Loading the publication state -----

  predicate ResultsRecorded(jobs: JobTable) {
    forall j :: j in jobs && jobs[j].status.Succeeded? ==> jobs[j].payload.body.Result?
  }

  predicate RecoveryRequired(jobs: JobTable) {
    exists j :: j in jobs && jobs[j].status.Cancelled? && jobs[j].payload.body.Intent?
  }

  function AnchorsOf(jobs: JobTable): Anchors
    requires ResultsRecorded(jobs)
  {
    map j | j in jobs && jobs[j].status.Succeeded? ::
      Anchor(j, jobs[j].payload.key.predecessor, jobs[j].payload.body.identity)
  }

  predicate IsPending(jobs: JobTable, head: Option<JobId>, j: JobId) {
    j in jobs && !jobs[j].status.Succeeded? && jobs[j].payload.key.predecessor == head
  }

  /** The unfinished successors of the head that carry an intent, oldest first. */
  function Recoverable(jobs: JobTable, head: Option<JobId>, n: nat): seq<Candidate> {
    if n == 0 then []
    else Recoverable(jobs, head, n - 1) +
         (if IsPending(jobs, head, n - 1) && jobs[n - 1].payload.body.Intent?
          then [Candidate(n - 1, jobs[n - 1])] else [])
  }

  function AnchorId(head: Option<Anchor>): Option<JobId> {
    if head.Some? then Some(head.value.jobId) else None
  }

  function AnchorIdentity(head: Option<Anchor>): Option<Identity> {
    if head.Some? then Some(head.value.identity) else None
  }

  datatype Load = Loaded(head: Option<Anchor>, recoverable: seq<Candidate>) | LoadError

  ghost function LoadState(jobs: JobTable, n: nat): Load {
    if !ResultsRecorded(jobs) || RecoveryRequired(jobs) then LoadError
    else match ResolveHead(AnchorsOf(jobs))
      case Inconsistent => LoadError
      case Resolved(head) => Loaded(head, Recoverable(jobs, AnchorId(head), n))
  }

  ghost predicate Exists(jobs: JobTable, key: Key) {
    exists j :: j in jobs && jobs[j].payload.key == key
  }

  ghost function FindByKey(jobs: JobTable, key: Key): (j: JobId)
    requires Exists(jobs, key)
    ensures j in jobs && jobs[j].payload.key == key
  {
    var j :| j in jobs && jobs[j].payload.key == key;
    j
  }

  // ----- The transactions and the disk operations -----

  /** `ExportRecordRepository.begin`: a succeeded record is reused, others are restarted
      from the statuses that a first or a later attempt expects. */
  function Begin(record: Option<Record>, first: bool): Option<Record> {
    match record
    case None => Some(RecordRunning)
    case Some(RecordSucceeded(tree)) => record
    case Some(RecordRunning) => if first then None else Some(RecordRunning)
    case Some(RecordFailed(retryable)) => if first || retryable then Some(RecordRunning) else None
  }

  function RecordOf(s: System, source: nat): Option<Record> {
    if source in s.records then Some(s.records[source]) else None
  }

  function Terminalize(r: Record): Record {
    if r.RecordSucceeded? then r else RecordFailed(false)
  }

  function Reused(r: Option<Record>): Option<nat> {
    if r.Some? && r.value.RecordSucceeded? then Some(r.value.tree) else None
  }

  /** The row cannot be claimed: its reclaim is kept, and a dead row fails its records. */
  function Unclaimed(e: Exporter, s: System, w: nat, id: JobId, row: ExportJob): System {
    var source := row.payload.key.source;
    if !(row.status.FailedTerminal? || row.status.Cancelled?) || !e.recorded(source)
    then Become(s.(jobs := s.jobs[id := row]), w, Idle(true))
    else if source !in s.records then Become(s, w, Idle(true))
    else Become(s.(jobs := s.jobs[id := row], records := s.records[source := Terminalize(s.records[source])]), w, Idle(true))
  }

  /** `_prepare` after the scan: claim and start the row, then begin its records.  A
      record conflict rolls the whole transaction back. */
  function ClaimRow(e: Exporter, s: System, w: nat, id: JobId, row: ExportJob, head: Option<Anchor>,
                    seconds: LeaseSeconds): System {
    var source := row.payload.key.source;
    var (row', ok) := Claim(row, w, s.nextToken, seconds, s.now);
    if !ok then Unclaimed(e, s, w, id, row') else
    var begun := Begin(RecordOf(s, source), row.attempts == 0);
    if e.recorded(source) && begun == None then Become(s, w, Idle(true)) else
    var started := Start(row', w, s.nextToken, s.now);
    var a := Attempt(id, s.nextToken, row.payload.key, AnchorIdentity(head), if e.recorded(source) then Reused(begun) else None);
    Become(s.(jobs := s.jobs[id := started.value], nextJob := if id < s.nextJob then s.nextJob else id + 1,
              nextToken := s.nextToken + 1,
              records := if e.recorded(source) then s.records[source := begun.value] else s.records),
           w, Prepared(a))
  }

  ghost function Prepare(e: Exporter, s: System, w: nat, source: nat, attempts: MaxAttempts, seconds: LeaseSeconds): System {
    if !WorkerOf(s, w).Idle? then s
    else match LoadState(s.jobs, s.nextJob)
      case LoadError => Become(s, w, Idle(true))
      case Loaded(head, recoverable) =>
        if WorkerOf(s, w).scan && recoverable != [] then Become(s, w, Scanning(recoverable, []))
        else if head.Some? && head.value.identity.source == source then Become(s, w, Idle(true))
        else
          var key := Key(source, AnchorId(head));
          if Exists(s.jobs, key) then
            var id := FindByKey(s.jobs, key);
            if s.jobs[id].status.Succeeded? then Become(s, w, Idle(true))
            else ClaimRow(e, s, w, id, s.jobs[id], head, seconds)
          else ClaimRow(e, s, w, s.nextJob, Enqueued(Publication(key, Base), attempts, s.now), head, seconds)
  }

  /** The renderer's fence against the tree on disk: the manifest it may replace. */
  predicate FenceAccepts(disk: Option<Identity>, expected: Option<Identity>, desired: Identity, preserving: bool) {
    && (preserving ==> disk == expected)
    && (disk == None ==> expected == None)
    && (disk.Some? && disk.value != desired ==> expected.Some? && expected.value != desired && disk == expected)
  }

  /** Rendering, and `_validate_rendered`: a reused record must name the same tree. */
  function Render(e: Exporter, s: System, w: nat): System {
    match WorkerOf(s, w)
    case Prepared(a) =>
      var desired := e.render(a.key.source, a.expected);
      if FenceAccepts(s.disk, a.expected, desired, e.preserving(a.key.source)) && (a.reused.Some? ==> a.reused.value == desired.tree)
      then Become(s, w, Rendered(a, desired, s.disk))
      else Become(s, w, Failing(a, false))
    case _ => s
  }

  /** `_renew_before_publish`: renew the lease and write the intent in one update. */
  function Renew(s: System, w: nat, seconds: LeaseSeconds): System {
    match WorkerOf(s, w)
    case Rendered(a, identity, fence) =>
      if a.job !in s.jobs then s else
      var row := s.jobs[a.job];
      (match RenewLease(row, w, a.token, seconds, row.payload.(body := Intent(identity)), s.now)
       case Some(row') => Become(s.(jobs := s.jobs[a.job := row']), w, Intended(a, identity, fence))
       case None => Become(s, w, Idle(true)))
    case _ => s
  }

  /** `publish`: replace the tree only if its manifest is still the fenced one.  With
      `raises` the call fails after the tree was replaced. */
  function Publish(s: System, w: nat, raises: bool): System {
    match WorkerOf(s, w)
    case Intended(a, identity, fence) =>
      if s.disk != fence then Become(s, w, Failing(a, true))
      else Become(s.(disk := Some(identity)), w, if raises then Failing(a, true) else Published(a, identity))
    case _ => s
  }

  /** A record this attempt began is still running; a reused one is left alone. */
  predicate HoldsRecord(e: Exporter, s: System, a: Attempt) {
    e.recorded(a.key.source) && a.reused == None ==> RecordOf(s, a.key.source) == Some(RecordRunning)
  }

  function WriteRecord(e: Exporter, s: System, a: Attempt, r: Record): map<nat, Record> {
    if e.recorded(a.key.source) && a.reused == None then s.records[a.key.source := r] else s.records
  }

  /** `_finalize`: complete the records and the job together, or neither. */
  function Finalize(e: Exporter, s: System, w: nat): System {
    match WorkerOf(s, w)
    case Published(a, identity) =>
      if a.job !in s.jobs then s else
      var row := s.jobs[a.job];
      (match Complete(row, w, a.token, row.payload.(body := Result(identity)), s.now)
       case Some(row') =>
         if !HoldsRecord(e, s, a) then Become(s, w, Idle(true))
         else Become(s.(jobs := s.jobs[a.job := row'], records := WriteRecord(e, s, a, RecordSucceeded(identity.tree))), w, Idle(true))
       case None => Become(s, w, Idle(true)))
    case _ => s
  }

  /** Rendering or publishing raised a classified error. */
  function Raise(s: System, w: nat, retryable: bool): System {
    match WorkerOf(s, w)
    case Prepared(a) => Become(s, w, Failing(a, retryable))
    case Intended(a, _, _) => Become(s, w, Failing(a, retryable))
    case Published(a, _) => Become(s, w, Failing(a, retryable))
    case _ => s
  }

  /** `_record_failure`: fail the records and the job alike, or neither. */
  function RecordFailure(e: Exporter, s: System, w: nat): System {
    match WorkerOf(s, w)
    case Failing(a, retryable) =>
      if a.job !in s.jobs then s else
      var row := s.jobs[a.job];
      (match Fail(row, w, a.token, retryable, s.now)
       case Some(row') =>
         if !HoldsRecord(e, s, a) then Become(s, w, Idle(true))
         else Become(s.(jobs := s.jobs[a.job := row'],
                        records := WriteRecord(e, s, a, RecordFailed(retryable && row.attempts < row.maxAttempts))), w, Idle(true))
       case None => Become(s, w, Idle(true)))
    case _ => s
  }

  /** One pass of the loop in `_recover_published_predecessor`, or its conclusion. */
  function Validate(s: System, w: nat): System {
    match WorkerOf(s, w)
    case Scanning(todo, matching) =>
      if todo != [] then
        var c := todo[0];
        if c.row.payload.body.Intent? && s.disk == Some(c.row.payload.body.identity)
        then Become(s, w, Scanning(todo[1..], matching + [c]))
        else Become(s, w, Scanning(todo[1..], matching))
      else if matching == [] then Become(s, w, Idle(false))
      else if |matching| != 1 then Become(s, w, Idle(true))
      else
        var row := matching[0].row;
        if (row.status.Claimed? || row.status.Running?) && (row.lease == None || s.now < row.lease.value.expires)
        then Become(s, w, Idle(true))
        else Become(s, w, Recovering(matching[0]))
    case _ => s
  }

  /** Recovery accepts records that never finished, or finished with this very tree. */
  predicate RecordsRecoverable(e: Exporter, s: System, source: nat, tree: nat) {
    e.recorded(source) ==> source in s.records && (s.records[source].RecordSucceeded? ==> s.records[source].tree == tree)
  }

  /** `_finalize_recovered_publication`. */
  function FinalizeRecovered(e: Exporter, s: System, w: nat): System {
    match WorkerOf(s, w)
    case Recovering(c) =>
      if c.job !in s.jobs then Become(s, w, Idle(true)) else
      var row := s.jobs[c.job];
      if row.status.Succeeded? || row.payload != c.row.payload || !row.payload.body.Intent? then Become(s, w, Idle(true))
      else
        var identity, source := row.payload.body.identity, row.payload.key.source;
        if !RecordsRecoverable(e, s, source, identity.tree) then Become(s, w, Idle(true)) else
        (match CompleteRecovered(row, row.payload.(body := Result(identity)), s.now)
         case Some(row') =>
           Become(s.(jobs := s.jobs[c.job := row'],
                     records := if e.recorded(source) then s.records[source := RecordSucceeded(identity.tree)] else s.records),
                  w, Idle(true))
         case None => Become(s, w, Idle(true)))
    case _ => s
  }

  function OnRow(s: System, j: JobId, f: ExportJob -> ExportJob): System {
    if j in s.jobs then s.(jobs := s.jobs[j := f(s.jobs[j])]) else s
  }

  // ----- Steps and runs -----

  datatype Step =
    | SPrepare(w: nat, source: nat, attempts: MaxAttempts, seconds: LeaseSeconds)
    | SRender(w: nat)
    | SRenew(w: nat, seconds: LeaseSeconds)
    | SPublish(w: nat, raises: bool)
    | SFinalize(w: nat)
    | SRaise(w: nat, retryable: bool)
    | SRecordFailure(w: nat)
    | SValidate(w: nat)
    | SFinalizeRecovered(w: nat)
    | SCrash(w: nat)
    | STick(elapsed: nat)
    | SReclaim(j: JobId)
    | SRequeue(j: JobId)
    | SCancel(j: JobId)

  ghost function Next(e: Exporter, s: System, step: Step): System {
    match step
    case SPrepare(w, source, attempts, seconds) => Prepare(e, s, w, source, attempts, seconds)
    case SRender(w) => Render(e, s, w)
    case SRenew(w, seconds) => Renew(s, w, seconds)
    case SPublish(w, raises) => Publish(s, w, raises)
    case SFinalize(w) => Finalize(e, s, w)
    case SRaise(w, retryable) => Raise(s, w, retryable)
    case SRecordFailure(w) => RecordFailure(e, s, w)
    case SValidate(w) => Validate(s, w)
    case SFinalizeRecovered(w) => FinalizeRecovered(e, s, w)
    case SCrash(w) => Become(s, w, Idle(true))
    case STick(elapsed) => s.(now := s.now + elapsed)
    case SReclaim(j) => OnRow(s, j, row => Jobs.Reclaim(row, s.now))
    case SRequeue(j) => OnRow(s, j, row => Jobs.Requeue(row, s.now))
    case SCancel(j) => OnRow(s, j, row => Jobs.Cancel(row))
  }

  ghost function Run(e: Exporter, s: System, steps: seq<Step>): System
    decreases |steps|
  {
    if steps == [] then s else Run(e, Next(e, s, steps[0]), steps[1..])
  }

  lemma {:induction false} RunAppend(e: Exporter, s: System, a: seq<Step>, b: seq<Step>)
    ensures Run(e, s, a + b) == Run(e, Run(e, s, a), b)
    decreases |a|
  {
    if a == [] {
      assert a + b == b;
    } else {
      assert (a + b)[0] == a[0] && (a + b)[1..] == a[1..] + b;
      RunAppend(e, Next(e, s, a[0]), a[1..], b);
    }
  }

  /** The history of the target is linear: its succeeded jobs resolve to one head. */
  ghost predicate LinearHistory(s: System) {
    ResultsRecorded(s.jobs) && IsLinear(AnchorsOf(s.jobs))
  }
}
