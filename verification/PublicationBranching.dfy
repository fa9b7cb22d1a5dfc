/** Without a separating exporter some run splits the history for good. */
module PublicationBranching {
  import opened Wrappers
  import opened Jobs
  import opened PublicationHead
  import opened PublicationChain
  import opened PublicationSafety
  import opened PublicationRuns

  // ----- States between two publications of worker 0 -----

  /** Worker 0 has nothing to recover, or has just looked in vain. */
  ghost predicate Ready(s: System, chain: seq<JobId>) {
    && WorkerOf(s, 0).Idle?
    && (WorkerOf(s, 0).scan ==>
          forall j :: j in s.jobs && s.jobs[j].payload.body.Intent? ==> s.jobs[j].payload.key.predecessor != HeadOf(chain))
  }

  /** Between publications: the head's tree is on disk and no records but those of
      `busy` are running. */
  ghost predicate Calm(e: Exporter, s: System, chain: seq<JobId>, sources: seq<nat>, busy: Option<nat>) {
    && ChainOk(s.jobs, chain, sources)
    && KeysUnique(s.jobs)
    && RowsOk(e, s, chain, sources)
    && RecordsOk(e, s, sources)
    && s.disk == Id(e, sources)
    && (forall y :: y in s.records && s.records[y].RecordRunning? ==> busy == Some(y))
    && !RecoveryRequired(s.jobs)
  }

  ghost predicate Free(s: System, chain: seq<JobId>, source: nat) {
    !Exists(s.jobs, Key(source, HeadOf(chain)))
  }

  ghost predicate NoSuccessors(s: System, chain: seq<JobId>) {
    forall j :: j in s.jobs ==> s.jobs[j].payload.key.predecessor != HeadOf(chain)
  }

  lemma NoSuccessorsFree(s: System, chain: seq<JobId>, source: nat)
    requires NoSuccessors(s, chain)
    ensures Free(s, chain, source)
  {
  }

  /** Worker 0's publications leave other workers, their rows and busy records alone. */
  ghost predicate Undisturbed(s: System, s': System, busy: Option<nat>) {
    && s'.now == s.now
    && (forall w :: w != 0 ==> WorkerOf(s', w) == WorkerOf(s, w))
    && (forall j :: j in s.jobs ==> j in s'.jobs && (j < s.nextJob ==> s'.jobs[j] == s.jobs[j]))
    && s.nextJob <= s'.nextJob
    && (busy.Some? ==> RecordOf(s', busy.value) == RecordOf(s, busy.value))
  }

  // ----- Claiming in a calm state -----

  function ClaimedJob(s: System, w: nat, key: Key): ExportJob {
    Job(Publication(key, Base), Running, 1, 1, s.now, Some(Lease(w, s.nextToken, s.now + 1)), false)
  }

  function ClaimedAttempt(e: Exporter, s: System, key: Key): Attempt {
    Attempt(s.nextJob, s.nextToken, key, s.disk, if e.recorded(key.source) then Reused(RecordOf(s, key.source)) else None)
  }

  /** The state after worker `w` claimed a new job for `key`. */
  function AfterClaim(e: Exporter, s: System, w: nat, key: Key): System {
    Become(s.(jobs := s.jobs[s.nextJob := ClaimedJob(s, w, key)], nextJob := s.nextJob + 1, nextToken := s.nextToken + 1,
              records := BegunRecords(e, s, key.source)),
           w, Prepared(ClaimedAttempt(e, s, key)))
  }

  lemma {:induction false} NothingRecoverable(jobs: JobTable, head: Option<JobId>, n: nat)
    requires forall j :: j in jobs && j < n && jobs[j].payload.body.Intent? ==> jobs[j].payload.key.predecessor != head
    ensures Recoverable(jobs, head, n) == []
  {
    if n > 0 { NothingRecoverable(jobs, head, n - 1); }
  }

  lemma LoadCalm(e: Exporter, s: System, chain: seq<JobId>, sources: seq<nat>, busy: Option<nat>) returns (head: Option<Anchor>)
    requires Calm(e, s, chain, sources, busy)
    ensures LoadState(s.jobs, s.nextJob) == Loaded(head, Recoverable(s.jobs, HeadOf(chain), s.nextJob))
    ensures AnchorId(head) == HeadOf(chain) && AnchorIdentity(head) == s.disk
  {
    head := LoadedHead(e, s, chain, sources);
  }

  lemma PrepareFresh(e: Exporter, s: System, w: nat, source: nat, head: Option<Anchor>, todo: seq<Candidate>)
    requires WorkerOf(s, w).Idle? && LoadState(s.jobs, s.nextJob) == Loaded(head, todo)
    requires WorkerOf(s, w).scan ==> todo == []
    requires AnchorIdentity(head) == s.disk && (head.Some? ==> head.value.identity.source != source)
    requires !Exists(s.jobs, Key(source, AnchorId(head)))
    requires e.recorded(source) ==> RecordOf(s, source) != Some(RecordRunning)
    ensures Prepare(e, s, w, source, 1, 1) == AfterClaim(e, s, w, Key(source, AnchorId(head)))
  {
    var key := Key(source, AnchorId(head));
    PrepareLoaded(e, s, w, source, head, todo);
    ClaimedState(e, s, w, key, head);
  }

  lemma PrepareLoaded(e: Exporter, s: System, w: nat, source: nat, head: Option<Anchor>, todo: seq<Candidate>)
    requires WorkerOf(s, w).Idle? && LoadState(s.jobs, s.nextJob) == Loaded(head, todo)
    requires WorkerOf(s, w).scan ==> todo == []
    requires head.Some? ==> head.value.identity.source != source
    requires !Exists(s.jobs, Key(source, AnchorId(head)))
    ensures Prepare(e, s, w, source, 1, 1) ==
      ClaimRow(e, s, w, s.nextJob, Enqueued(Publication(Key(source, AnchorId(head)), Base), 1, s.now), head, 1)
  {
  }

  lemma ClaimedState(e: Exporter, s: System, w: nat, key: Key, head: Option<Anchor>)
    requires AnchorIdentity(head) == s.disk
    requires e.recorded(key.source) ==> RecordOf(s, key.source) != Some(RecordRunning)
    ensures ClaimRow(e, s, w, s.nextJob, Enqueued(Publication(key, Base), 1, s.now), head, 1) == AfterClaim(e, s, w, key)
  {
    var started, records := ClaimFresh(e, s, w, key, head, 1, 1);
  }

  lemma NewSource(e: Exporter, sources: seq<nat>, source: nat)
    requires StampsSource(e) && Admissible(sources + [source])
    ensures Id(e, sources).Some? ==> Id(e, sources).value.source != source
  {
    if sources != [] {
      assert (sources + [source])[|sources|] == source && (sources + [source])[|sources| - 1] == sources[|sources| - 1];
    }
  }

  /** In a calm state a new source can be prepared by any idle worker. */
  lemma PrepareCalm(e: Exporter, s: System, chain: seq<JobId>, sources: seq<nat>, busy: Option<nat>, w: nat, source: nat)
    requires StampsSource(e) && Calm(e, s, chain, sources, busy) && WorkerOf(s, w).Idle?
    requires WorkerOf(s, w).scan ==>
               forall j :: j in s.jobs && s.jobs[j].payload.body.Intent? ==> s.jobs[j].payload.key.predecessor != HeadOf(chain)
    requires Admissible(sources + [source]) && Free(s, chain, source) && busy != Some(source)
    ensures Prepare(e, s, w, source, 1, 1) == AfterClaim(e, s, w, Key(source, HeadOf(chain)))
  {
    var head := LoadCalm(e, s, chain, sources, busy);
    NewSource(e, sources, source);
    if WorkerOf(s, w).scan { NothingRecoverable(s.jobs, HeadOf(chain), s.nextJob); }
    PrepareFresh(e, s, w, source, head, Recoverable(s.jobs, HeadOf(chain), s.nextJob));
  }

  // ----- From a claimed job to a completed one -----

  function Finish(w: nat): seq<Step> {
    [SRender(w), SRenew(w, 1), SPublish(w, false), SFinalize(w)]
  }

  function RowIntended(row: ExportJob, w: nat, token: nat, now: nat, id: Identity): ExportJob {
    row.(lease := Some(Lease(w, token, now + 1)), payload := row.payload.(body := Intent(id)))
  }

  ghost predicate Working(s: System, w: nat, a: Attempt) {
    a.job in s.jobs && s.jobs[a.job].status.Running? && Owns(s.jobs[a.job], w, a.token, s.now)
  }

  ghost predicate Renders(e: Exporter, s: System, a: Attempt, id: Identity) {
    && id == e.render(a.key.source, a.expected)
    && FenceAccepts(s.disk, a.expected, id, e.preserving(a.key.source))
    && (a.reused.Some? ==> a.reused.value == id.tree)
  }

  lemma RenewStep(e: Exporter, s: System, w: nat, a: Attempt, id: Identity, fence: Option<Identity>)
    requires WorkerOf(s, w) == Rendered(a, id, fence) && Working(s, w, a)
    ensures Next(e, s, SRenew(w, 1)) ==
      Become(s.(jobs := s.jobs[a.job := RowIntended(s.jobs[a.job], w, a.token, s.now, id)]), w, Intended(a, id, fence))
  {
  }

  lemma FinalizeStep(e: Exporter, s: System, w: nat, a: Attempt, id: Identity)
    requires WorkerOf(s, w) == Published(a, id) && Working(s, w, a) && HoldsRecord(e, s, a)
    ensures Next(e, s, SFinalize(w)) ==
      Become(s.(jobs := s.jobs[a.job := Done(s.jobs[a.job], id)], records := WriteRecord(e, s, a, RecordSucceeded(id.tree))),
             w, Idle(true))
  {
  }

  lemma FinishRun(e: Exporter, s: System, w: nat, a: Attempt, id: Identity)
    requires w in s.workers && s.workers[w] == Prepared(a) && Working(s, w, a)
    requires Renders(e, s, a, id) && HoldsRecord(e, s, a)
    ensures Run(e, s, Finish(w)) ==
      Become(s.(disk := Some(id), jobs := s.jobs[a.job := Done(s.jobs[a.job], id)],
                records := WriteRecord(e, s, a, RecordSucceeded(id.tree))), w, Idle(true))
  {
    var row := s.jobs[a.job];
    var s1 := Become(s, w, Rendered(a, id, s.disk));
    var s2 := Become(s1.(jobs := s.jobs[a.job := RowIntended(row, w, a.token, s.now, id)]), w, Intended(a, id, s.disk));
    var s3 := Become(s2.(disk := Some(id)), w, Published(a, id));
    assert Next(e, s, SRender(w)) == s1;
    RenewStep(e, s1, w, a, id, s.disk);
    assert Next(e, s2, SPublish(w, false)) == s3;
    FinalizeStep(e, s3, w, a, id);
    RunFour(e, s, SRender(w), SRenew(w, 1), SPublish(w, false), SFinalize(w));
    assert s3.jobs[a.job := Done(row, id)] == s.jobs[a.job := Done(row, id)];
    assert s3.workers[w := Idle(true)] == s.workers[w := Idle(true)];
  }

  lemma RunFour(e: Exporter, s: System, a: Step, b: Step, c: Step, d: Step)
    ensures Run(e, s, [a, b, c, d]) == Next(e, Next(e, Next(e, Next(e, s, a), b), c), d)
  {
    RunAppend(e, s, [a, b], [c, d]);
    assert [a, b] + [c, d] == [a, b, c, d];
    RunTwo(e, s, a, b);
    RunTwo(e, Run(e, s, [a, b]), c, d);
  }

  lemma RunTwo(e: Exporter, s: System, a: Step, b: Step)
    ensures Run(e, s, [a, b]) == Next(e, Next(e, s, a), b)
  {
    RunCons(e, s, a, [b]);
    RunCons(e, Next(e, s, a), b, []);
  }

  lemma RunCons(e: Exporter, s: System, a: Step, rest: seq<Step>)
    ensures Run(e, s, [a] + rest) == Run(e, Next(e, s, a), rest)
  {
    assert ([a] + rest)[0] == a && ([a] + rest)[1..] == rest;
  }

  lemma RunThrough(e: Exporter, s: System, a: seq<Step>, s1: System, b: seq<Step>, s2: System)
    requires Run(e, s, a) == s1 && Run(e, s1, b) == s2
    ensures Run(e, s, a + b) == s2
  {
    RunAppend(e, s, a, b);
  }

  // ----- One publication by worker 0 -----

  function Episode(source: nat): seq<Step> {
    [SPrepare(0, source, 1, 1)] + Finish(0)
  }

  /** The state after worker 0 published `key` as `id`. */
  function AfterEpisode(e: Exporter, s: System, key: Key, id: Identity): System {
    Become(s.(jobs := s.jobs[s.nextJob := Done(ClaimedJob(s, 0, key), id)], nextJob := s.nextJob + 1,
              nextToken := s.nextToken + 1, records := Exported(e, s.records, key.source, id.tree), disk := Some(id)),
           0, Idle(true))
  }

  lemma EpisodeStarts(e: Exporter, s: System, source: nat)
    ensures Run(e, s, Episode(source)) == Run(e, Prepare(e, s, 0, source, 1, 1), Finish(0))
  {
    RunCons(e, s, SPrepare(0, source, 1, 1), Finish(0));
  }

  lemma EpisodeEnds(e: Exporter, s: System, key: Key, id: Identity)
    requires Renders(e, s, ClaimedAttempt(e, s, key), id)
    requires ClaimedAttempt(e, s, key).reused.Some? ==> Exported(e, s.records, key.source, id.tree) == s.records
    ensures Run(e, AfterClaim(e, s, 0, key), Finish(0)) == AfterEpisode(e, s, key, id)
  {
    var s1, a := AfterClaim(e, s, 0, key), ClaimedAttempt(e, s, key);
    FinishRun(e, s1, 0, a, id);
    FinishedEpisode(e, s, s1, key, a, id);
  }

  lemma FinishedEpisode(e: Exporter, s: System, s1: System, key: Key, a: Attempt, id: Identity)
    requires s1 == AfterClaim(e, s, 0, key) && a == ClaimedAttempt(e, s, key)
    requires a.reused.Some? ==> Exported(e, s.records, key.source, id.tree) == s.records
    ensures Become(s1.(disk := Some(id), jobs := s1.jobs[s.nextJob := Done(s1.jobs[s.nextJob], id)],
                       records := WriteRecord(e, s1, a, RecordSucceeded(id.tree))), 0, Idle(true))
         == AfterEpisode(e, s, key, id)
  {
    assert s1.jobs[s.nextJob := Done(ClaimedJob(s, 0, key), id)] == s.jobs[s.nextJob := Done(ClaimedJob(s, 0, key), id)];
    assert s1.workers[0 := Idle(true)] == s.workers[0 := Idle(true)];
    assert WriteRecord(e, s1, a, RecordSucceeded(id.tree)) == Exported(e, s.records, key.source, id.tree);
  }

  /** On top of its own predecessor a consistent source renders past the fence. */
  lemma RendersOnTop(e: Exporter, s: System, chain: seq<JobId>, sources: seq<nat>, key: Key)
    requires StampsSource(e) && RecordsOk(e, s, sources) && s.disk == Id(e, sources)
    requires Admissible(sources + [key.source]) && Consistent(e, sources + [key.source])
    ensures var id := e.render(key.source, s.disk);
            && Id(e, sources + [key.source]) == Some(id)
            && Agrees(e, sources, |sources|, key.source, id)
            && Renders(e, s, ClaimedAttempt(e, s, key), id)
            && (ClaimedAttempt(e, s, key).reused.Some? ==> Exported(e, s.records, key.source, id.tree) == s.records)
  {
    var id, a := e.render(key.source, s.disk), ClaimedAttempt(e, s, key);
    IdSnoc(e, sources, key.source);
    NewSource(e, sources, key.source);
    ConsistentAgrees(e, sources, key.source, id);
    ReusedFromRecords(e, s, sources, key.source);
    if a.reused.Some? {
      ReusedIsExported(e, s, sources, |sources|, key.source, a.reused, id);
      assert s.records[key.source] == RecordSucceeded(id.tree);
    }
  }

  lemma ConsistentAgrees(e: Exporter, sources: seq<nat>, source: nat, id: Identity)
    requires Consistent(e, sources + [source]) && Id(e, sources + [source]) == Some(id)
    ensures Agrees(e, sources, |sources|, source, id)
  {
    var t := sources + [source];
    PublishedIdExtends(e, sources, source);
    forall i | 0 <= i < |sources| && sources[i] == source && e.recorded(source)
      ensures PublishedId(e, sources, i) == Some(id)
    {
      assert RendersAlike(e, t, i, |sources|);
    }
  }

  lemma IdSnoc(e: Exporter, p: seq<nat>, s: nat)
    ensures Id(e, p + [s]) == Some(e.render(s, Id(e, p)))
  {
    assert (p + [s])[..|p|] == p;
  }

  lemma EpisodeCalm(e: Exporter, s: System, chain: seq<JobId>, sources: seq<nat>, busy: Option<nat>, source: nat)
    returns (s': System)
    requires StampsSource(e) && Calm(e, s, chain, sources, busy) && Ready(s, chain)
    requires Admissible(sources + [source]) && Consistent(e, sources + [source])
    requires Free(s, chain, source) && busy != Some(source)
    ensures s' == Run(e, s, Episode(source))
    ensures Calm(e, s', chain + [s.nextJob], sources + [source], busy) && Ready(s', chain + [s.nextJob])
    ensures NoSuccessors(s', chain + [s.nextJob]) && WorkerOf(s', 0) == Idle(true)
    ensures Undisturbed(s, s', busy)
  {
    var key, id := Key(source, HeadOf(chain)), e.render(source, s.disk);
    s' := AfterEpisode(e, s, key, id);
    PrepareCalm(e, s, chain, sources, busy, 0, source);
    RendersOnTop(e, s, chain, sources, key);
    EpisodeStarts(e, s, source);
    EpisodeEnds(e, s, key, id);
    HeadKeyAdmitted(chain, sources, source);
    HeadPath(e, chain, sources, key);
    EpisodeChainOk(e, s, chain, sources, busy, key, id);
    PredecessorsAreOld(e, s, chain, sources, s.nextJob);
    EpisodeFrame(e, s, chain, key, id, busy);
  }

  lemma EpisodeFrame(e: Exporter, s: System, chain: seq<JobId>, key: Key, id: Identity, busy: Option<nat>)
    requires busy != Some(key.source)
    requires HeadOf(chain) == key.predecessor != Some(s.nextJob) && s.nextJob !in s.jobs
    requires forall i :: i in s.jobs ==> s.jobs[i].payload.key.predecessor != Some(s.nextJob)
    ensures NoSuccessors(AfterEpisode(e, s, key, id), chain + [s.nextJob])
    ensures Ready(AfterEpisode(e, s, key, id), chain + [s.nextJob])
    ensures Undisturbed(s, AfterEpisode(e, s, key, id), busy)
  {
  }

  lemma EpisodeChainOk(e: Exporter, s: System, chain: seq<JobId>, sources: seq<nat>, busy: Option<nat>, key: Key, id: Identity)
    requires Calm(e, s, chain, sources, busy) && Placed(chain, sources, key) && key.predecessor == HeadOf(chain)
    requires !Exists(s.jobs, key) && id == KeyId(e, chain, sources, key) && id.source == key.source
    requires Id(e, sources + [key.source]) == Some(id) && Agrees(e, sources, |sources|, key.source, id)
    ensures Calm(e, AfterEpisode(e, s, key, id), chain + [s.nextJob], sources + [key.source], busy)
  {
    assert s.nextJob !in s.jobs;
    EpisodeJobsOk(s.jobs, chain, sources, s.nextJob, ClaimedJob(s, 0, key), id);
    EpisodeRowsOk(e, s, chain, sources, key, id);
    EpisodeRecordsOk(e, s, sources, key, id);
    EpisodeQuiet(e, s, key, id, busy);
  }

  lemma EpisodeQuiet(e: Exporter, s: System, key: Key, id: Identity, busy: Option<nat>)
    requires forall y :: y in s.records && s.records[y].RecordRunning? ==> busy == Some(y)
    requires !RecoveryRequired(s.jobs)
    ensures var s' := AfterEpisode(e, s, key, id);
            && (forall y :: y in s'.records && s'.records[y].RecordRunning? ==> busy == Some(y))
            && !RecoveryRequired(s'.jobs)
  {
    var s' := AfterEpisode(e, s, key, id);
    forall j | j in s'.jobs ensures !(s'.jobs[j].status.Cancelled? && s'.jobs[j].payload.body.Intent?) {
      if j != s.nextJob { assert j in s.jobs; }
    }
  }

  lemma EpisodeJobsOk(jobs: JobTable, chain: seq<JobId>, sources: seq<nat>, j: JobId, claimed: ExportJob, id: Identity)
    requires ChainOk(jobs, chain, sources) && KeysUnique(jobs) && j !in jobs && !claimed.status.Succeeded?
    requires Placed(chain, sources, claimed.payload.key) && claimed.payload.key.predecessor == HeadOf(chain)
    requires !Exists(jobs, claimed.payload.key)
    ensures ChainOk(jobs[j := Done(claimed, id)], chain + [j], sources + [claimed.payload.key.source])
    ensures KeysUnique(jobs[j := Done(claimed, id)])
    ensures Distinct(chain + [j])
  {
    EnqueueChainOk(jobs, chain, sources, j, claimed);
    SucceedChainOk(jobs[j := claimed], chain, sources, j, Done(claimed, id));
    assert jobs[j := claimed][j := Done(claimed, id)] == jobs[j := Done(claimed, id)];
  }

  lemma EpisodeRecordsOk(e: Exporter, s: System, sources: seq<nat>, key: Key, id: Identity)
    requires RecordsOk(e, s, sources) && s.nextJob !in s.jobs
    requires Id(e, sources + [key.source]) == Some(id) && id.source == key.source
    requires Agrees(e, sources, |sources|, key.source, id)
    ensures RecordsOk(e, AfterEpisode(e, s, key, id), sources + [key.source])
  {
    var s' := AfterEpisode(e, s, key, id);
    var s1 := s'.(jobs := s.jobs);
    SucceedRecordsOk(e, s, s1, sources, key.source, id);
    forall i | 0 <= i < |sources + [key.source]| ensures RecordAt(e, s'.records, sources + [key.source], i) {
      assert RecordAt(e, s1.records, sources + [key.source], i);
    }
  }

  lemma EpisodeRowsOk(e: Exporter, s: System, chain: seq<JobId>, sources: seq<nat>, key: Key, id: Identity)
    requires |sources| == |chain| && RowsOk(e, s, chain, sources) && Distinct(chain + [s.nextJob])
    requires Placed(chain, sources, key) && id == KeyId(e, chain, sources, key)
    ensures RowsOk(e, AfterEpisode(e, s, key, id), chain + [s.nextJob], sources + [key.source])
  {
    var j := s.nextJob;
    var claimed, row := ClaimedJob(s, 0, key), Done(ClaimedJob(s, 0, key), id);
    EnqueueRowsOk(e, s, chain, sources, claimed, s.nextToken + 1, s.records);
    var s1 := s.(jobs := s.jobs[j := claimed], nextJob := j + 1, nextToken := s.nextToken + 1, records := s.records);
    assert s1.jobs[j := row] == AfterEpisode(e, s, key, id).jobs;
    SucceedRowsOk(e, s1, AfterEpisode(e, s, key, id), chain, sources, j, row);
  }

  lemma PredecessorsAreOld(e: Exporter, s: System, chain: seq<JobId>, sources: seq<nat>, j: JobId)
    requires ChainOk(s.jobs, chain, sources) && RowsOk(e, s, chain, sources) && j !in s.jobs
    ensures forall i :: i in s.jobs ==> s.jobs[i].payload.key.predecessor != Some(j)
    ensures HeadOf(chain) != Some(j)
  {
    forall i | i in s.jobs ensures s.jobs[i].payload.key.predecessor != Some(j) {
      assert RowOk(e, chain, sources, s.jobs[i]);
    }
  }

  lemma HeadKeyAdmitted(chain: seq<JobId>, sources: seq<nat>, source: nat)
    requires |sources| == |chain| && Distinct(chain) && Admissible(sources + [source])
    ensures Placed(chain, sources, Key(source, HeadOf(chain)))
  {
    HeadDepth(chain, Key(source, HeadOf(chain)));
    assert forall i :: 0 <= i < |sources| ==> (sources + [source])[i] == sources[i];
    assert (sources + [source])[|sources|] == source;
  }

  // ----- Many publications by worker 0 -----

  /** Everything is set for publishing edit number `n` of a history. */
  ghost predicate Poised(e: Exporter, s: System, chain: seq<JobId>, total: seq<nat>, n: nat, busy: Option<nat>) {
    && n <= |total| && Calm(e, s, chain, total[..n], busy) && Ready(s, chain)
    && (n < |total| ==> Free(s, chain, total[n]))
  }

  lemma PublishOne(e: Exporter, s: System, chain: seq<JobId>, total: seq<nat>, n: nat, busy: Option<nat>) returns (s': System)
    requires StampsSource(e) && Admissible(total) && Consistent(e, total)
    requires n < |total| && Poised(e, s, chain, total, n, busy) && busy != Some(total[n])
    ensures s' == Run(e, s, Episode(total[n]))
    ensures Poised(e, s', chain + [s.nextJob], total, n + 1, busy) && NoSuccessors(s', chain + [s.nextJob])
    ensures WorkerOf(s', 0) == Idle(true)
    ensures Undisturbed(s, s', busy)
  {
    assert total[..n] + [total[n]] == total[..n + 1] && total[..n + 1] + total[n + 1..] == total;
    AdmissiblePrefix(e, total[..n + 1], total[n + 1..]);
    s' := EpisodeCalm(e, s, chain, total[..n], busy, total[n]);
    if n + 1 < |total| { NoSuccessorsFree(s', chain + [s.nextJob], total[n + 1]); }
  }

  /** From any point on, an admissible and consistent history can be published to its end. */
  lemma {:induction false} PublishAll(e: Exporter, s: System, chain: seq<JobId>, total: seq<nat>, n: nat, busy: Option<nat>)
    returns (steps: seq<Step>, s': System, chain': seq<JobId>)
    requires StampsSource(e) && Admissible(total) && Consistent(e, total)
    requires Poised(e, s, chain, total, n, busy)
    requires forall i :: n <= i < |total| ==> busy != Some(total[i])
    ensures s' == Run(e, s, steps)
    ensures Poised(e, s', chain', total, |total|, busy)
    ensures n < |total| || NoSuccessors(s, chain) ==> NoSuccessors(s', chain')
    ensures WorkerOf(s, 0) == Idle(true) ==> WorkerOf(s', 0) == Idle(true)
    ensures Undisturbed(s, s', busy)
    ensures chain <= chain' && |chain'| == |chain| + (|total| - n)
    decreases |total| - n
  {
    if n == |total| {
      steps, s', chain' := [], s, chain;
    } else {
      var s1 := PublishOne(e, s, chain, total, n, busy);
      var rest;
      rest, s', chain' := PublishAll(e, s1, chain + [s.nextJob], total, n + 1, busy);
      steps := Episode(total[n]) + rest;
      RunThrough(e, s, Episode(total[n]), s1, rest, s');
      UndisturbedTrans(s, s1, s', busy);
    }
  }

  lemma UndisturbedTrans(s: System, s1: System, s2: System, busy: Option<nat>)
    requires Undisturbed(s, s1, busy) && Undisturbed(s1, s2, busy)
    ensures Undisturbed(s, s2, busy)
  {
  }

  lemma AdmissiblePrefix(e: Exporter, a: seq<nat>, b: seq<nat>)
    requires Admissible(a + b)
    ensures Admissible(a)
    ensures Consistent(e, a + b) ==> Consistent(e, a)
  {
    forall i, k | 0 <= i < k < |a| && k == i + 1 ensures a[i] != a[k] {
      assert (a + b)[i] == a[i] && (a + b)[k] == a[k];
    }
    forall i, k | 0 <= i < k < |a| && Consistent(e, a + b) ensures RendersAlike(e, a, i, k) {
      assert RendersAlike(e, a + b, i, k);
      assert (a + b)[..i + 1] == a[..i + 1] && (a + b)[..k + 1] == a[..k + 1];
    }
  }
}
