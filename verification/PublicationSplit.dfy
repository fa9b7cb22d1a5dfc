/** The exact condition under which the history of a target stays linear. */
module PublicationSplit {
  import opened Wrappers
  import opened Jobs
  import opened PublicationHead
  import opened PublicationChain
  import opened PublicationSafety
  import opened PublicationRuns
  import opened PublicationBranching

  lemma EmptyPoised(e: Exporter, total: seq<nat>)
    ensures Poised(e, EMPTY, [], total, 0, None) && NoSuccessors(EMPTY, [])
  {
    assert total[..0] == [];
  }

  lemma ClaimCalm(e: Exporter, s: System, chain: seq<JobId>, sources: seq<nat>, w: nat, key: Key)
    requires Calm(e, s, chain, sources, None) && Placed(chain, sources, key) && !Exists(s.jobs, key)
    ensures Calm(e, AfterClaim(e, s, w, key), chain, sources, Some(key.source))
  {
    var s' := AfterClaim(e, s, w, key);
    EnqueueChainOk(s.jobs, chain, sources, s.nextJob, ClaimedJob(s, w, key));
    assert s'.jobs == s.jobs[s.nextJob := ClaimedJob(s, w, key)];
    ClaimRowsOk(e, s, chain, sources, w, key);
    ClaimRecordsOk(e, s, sources, w, key);
    ClaimQuiet(e, s, w, key);
  }

  lemma ClaimRecordsOk(e: Exporter, s: System, sources: seq<nat>, w: nat, key: Key)
    requires RecordsOk(e, s, sources)
    ensures RecordsOk(e, AfterClaim(e, s, w, key), sources)
  {
    RecordsOkFrame(e, s, AfterClaim(e, s, w, key), sources);
  }

  lemma ClaimRowsOk(e: Exporter, s: System, chain: seq<JobId>, sources: seq<nat>, w: nat, key: Key)
    requires |sources| == |chain| && RowsOk(e, s, chain, sources) && Placed(chain, sources, key)
    ensures RowsOk(e, AfterClaim(e, s, w, key), chain, sources)
  {
    EnqueueRowsOk(e, s, chain, sources, ClaimedJob(s, w, key), s.nextToken + 1, s.records);
  }

  lemma ClaimQuiet(e: Exporter, s: System, w: nat, key: Key)
    requires !RecoveryRequired(s.jobs)
    ensures !RecoveryRequired(AfterClaim(e, s, w, key).jobs)
  {
    var jobs := AfterClaim(e, s, w, key).jobs;
    forall j | j in jobs ensures !(jobs[j].status.Cancelled? && jobs[j].payload.body.Intent?) {
      if j != s.nextJob { assert j in s.jobs; }
    }
  }

  // ----- A stalled worker -----

  /** Worker 1 has claimed a job for a source nobody published yet. */
  ghost predicate Parked(e: Exporter, s: System, a: Attempt) {
    && WorkerOf(s, 1) == Prepared(a) && 1 in s.workers && a.reused == None
    && a.job < s.nextJob && Working(s, 1, a) && s.jobs[a.job].payload.key == a.key
    && HoldsRecord(e, s, a)
  }

  lemma ParkedStays(e: Exporter, s: System, s': System, a: Attempt)
    requires Parked(e, s, a) && Undisturbed(s, s', Some(a.key.source))
    ensures Parked(e, s', a)
  {
  }

  lemma ParkWorker(e: Exporter, s: System, chain: seq<JobId>, base: seq<nat>, source: nat, rivals: seq<nat>)
    returns (s': System, a: Attempt)
    requires StampsSource(e) && Poised(e, s, chain, base, |base|, None) && NoSuccessors(s, chain)
    requires WorkerOf(s, 1) == Idle(true) && Admissible(base + [source]) && source !in base
    requires rivals != [] && rivals[0] != source
    ensures s' == Next(e, s, SPrepare(1, source, 1, 1)) && Parked(e, s', a)
    ensures a.key == Key(source, HeadOf(chain)) && a.expected == Id(e, base)
    ensures Poised(e, s', chain, base + rivals, |base|, Some(source))
  {
    var key := Key(source, HeadOf(chain));
    assert base[..|base|] == base && (base + rivals)[..|base|] == base;
    NoSuccessorsFree(s, chain, source);
    PrepareCalm(e, s, chain, base, None, 1, source);
    a := ClaimedAttempt(e, s, key);
    s' := AfterClaim(e, s, 1, key);
    HeadKeyAdmitted(chain, base, source);
    ClaimCalm(e, s, chain, base, 1, key);
    ClaimedIsParked(e, s, chain, base, key, rivals[0]);
  }

  lemma ClaimedIsParked(e: Exporter, s: System, chain: seq<JobId>, base: seq<nat>, key: Key, rival: nat)
    requires RecordsOk(e, s, base) && key.source !in base && key.predecessor == HeadOf(chain)
    requires NoSuccessors(s, chain) && Ready(s, chain) && key.source != rival
    ensures Parked(e, AfterClaim(e, s, 1, key), ClaimedAttempt(e, s, key))
    ensures Ready(AfterClaim(e, s, 1, key), chain) && Free(AfterClaim(e, s, 1, key), chain, rival)
  {
  }

  /** Worker 1 wakes up after the rivals and publishes its tree once more. */
  lemma ParkedFinishes(e: Exporter, s: System, chain: seq<JobId>, longer: seq<JobId>, base: seq<nat>, total: seq<nat>, a: Attempt)
    requires StampsSource(e) && Parked(e, s, a) && base != [] && a.expected == Id(e, base) == Id(e, total)
    requires Calm(e, s, longer, total, Some(a.key.source)) && a.key.source !in total && a.key.predecessor == HeadOf(chain)
    requires chain < longer
    ensures IsSplit(Run(e, s, Finish(1)).jobs)
  {
    var id := e.render(a.key.source, a.expected);
    IdStamped(e, base);
    FinishRun(e, s, 1, a, id);
    RivalsCollide(e, s, chain, longer, total, Some(a.key.source), a.job, id);
  }

  lemma StalledWorkerBranches(e: Exporter, base: seq<nat>, source: nat, rivals: seq<nat>) returns (steps: seq<Step>)
    requires StampsSource(e) && base != [] && rivals != [] && source !in base + rivals
    requires Admissible(base + [source]) && Admissible(base + rivals) && Consistent(e, base + rivals)
    requires Id(e, base + rivals) == Id(e, base)
    ensures IsSplit(Run(e, EMPTY, steps).jobs)
  {
    hide Run, IsSplit, Admissible, Consistent, Calm, Parked, Id, Undisturbed, Finish;
    var total := base + rivals;
    AdmissiblePrefix(e, base, rivals);
    EmptyPoised(e, base);
    var before, s0, chain := PublishAll(e, EMPTY, [], base, 0, None);
    assert rivals[0] == total[|base|] && total[..|total|] == total;
    OthersRest(s0);
    var s1, a := ParkWorker(e, s0, chain, base, source, rivals);
    var middle, s2, longer := PublishAll(e, s1, chain, total, |base|, Some(source));
    ParkedStays(e, s1, s2, a);
    ParkedFinishes(e, s2, chain, longer, base, total, a);
    var s3 := Run(e, s2, Finish(1));
    RunThrough(e, s1, middle, s2, Finish(1), s3);
    RunCons(e, s0, SPrepare(1, source, 1, 1), middle + Finish(1));
    RunThrough(e, EMPTY, before, s0, [SPrepare(1, source, 1, 1)] + (middle + Finish(1)), s3);
    steps := before + ([SPrepare(1, source, 1, 1)] + (middle + Finish(1)));
  }

  lemma OthersRest(s: System)
    requires Undisturbed(EMPTY, s, None)
    ensures WorkerOf(s, 1) == Idle(true)
  {
  }

  // ----- A split history -----

  /** Two succeeded jobs publish on top of the same predecessor. */
  predicate SplitAt(jobs: JobTable, a: JobId, b: JobId) {
    && a in jobs && b in jobs && a != b
    && jobs[a].status.Succeeded? && jobs[b].status.Succeeded?
    && jobs[a].payload.key.predecessor == jobs[b].payload.key.predecessor
  }

  ghost predicate IsSplit(jobs: JobTable) { exists a, b :: SplitAt(jobs, a, b) }

  lemma SplitIsNotLinear(s: System)
    requires IsSplit(s.jobs)
    ensures !LinearHistory(s)
  {
    var a, b :| SplitAt(s.jobs, a, b);
    if ResultsRecorded(s.jobs) { TwoSuccessorsBranch(AnchorsOf(s.jobs), a, b); }
  }

  lemma IdStamped(e: Exporter, path: seq<nat>)
    requires StampsSource(e) && path != []
    ensures Id(e, path).Some? && Id(e, path).value.source == path[|path| - 1]
  {
  }

  /** Completing an old successor leaves its predecessor with two successors. */
  lemma RivalsCollide(e: Exporter, s: System, chain: seq<JobId>, longer: seq<JobId>, sources: seq<nat>, busy: Option<nat>,
                      j: JobId, id: Identity)
    requires Calm(e, s, longer, sources, busy) && chain <= longer && |chain| < |longer|
    requires j in s.jobs && !s.jobs[j].status.Succeeded? && s.jobs[j].payload.key.predecessor == HeadOf(chain)
    ensures IsSplit(s.jobs[j := Done(s.jobs[j], id)])
  {
    ResultsAreRecorded(e, s, longer, sources);
    AnchorAt(s.jobs, longer, sources, |chain|);
    assert HeadOf(chain) == if |chain| == 0 then None else Some(longer[|chain| - 1]);
    assert SplitAt(s.jobs[j := Done(s.jobs[j], id)], j, longer[|chain|]);
  }

  // ----- A stalled recovery -----

  /** A row whose only attempt declared `id` and then failed. */
  function FailedJob(s: System, key: Key, id: Identity): ExportJob {
    Job(Publication(key, Intent(id)), FailedTerminal, 1, 1, s.now, None, false)
  }

  function FailedRecords(e: Exporter, s: System, source: nat): map<nat, Record> {
    if !e.recorded(source) || Reused(RecordOf(s, source)).Some? then s.records else s.records[source := RecordFailed(false)]
  }

  /** The state after worker 1 declared `id` for a new job and failed to publish it. */
  function AfterFailure(e: Exporter, s: System, key: Key, id: Identity): System {
    Become(s.(jobs := s.jobs[s.nextJob := FailedJob(s, key, id)], nextJob := s.nextJob + 1, nextToken := s.nextToken + 1,
              records := FailedRecords(e, s, key.source)), 1, Idle(true))
  }

  const FAILING := [SRender(1), SRenew(1, 1), SRaise(1, true), SRecordFailure(1)]

  lemma FailingRun(e: Exporter, s: System, key: Key, id: Identity)
    requires Renders(e, s, ClaimedAttempt(e, s, key), id)
    ensures Run(e, AfterClaim(e, s, 1, key), FAILING) == AfterFailure(e, s, key, id)
  {
    var s1, a := AfterClaim(e, s, 1, key), ClaimedAttempt(e, s, key);
    var row := RowIntended(ClaimedJob(s, 1, key), 1, s.nextToken, s.now, id);
    var s2 := Become(s1, 1, Rendered(a, id, s.disk));
    var s3 := Become(s2.(jobs := s1.jobs[s.nextJob := row]), 1, Intended(a, id, s.disk));
    var s4 := Become(s3, 1, Failing(a, true));
    assert Next(e, s1, SRender(1)) == s2;
    RenewStep(e, s2, 1, a, id, s.disk);
    assert Next(e, s3, SRaise(1, true)) == s4;
    FailStep(e, s, s4, key, id);
    RunFour(e, s1, SRender(1), SRenew(1, 1), SRaise(1, true), SRecordFailure(1));
  }

  lemma FailStep(e: Exporter, s: System, s4: System, key: Key, id: Identity)
    requires var row := RowIntended(ClaimedJob(s, 1, key), 1, s.nextToken, s.now, id);
             var s1 := AfterClaim(e, s, 1, key);
             s4 == s1.(jobs := s1.jobs[s.nextJob := row], workers := s4.workers)
    requires WorkerOf(s4, 1) == Failing(ClaimedAttempt(e, s, key), true) && 1 in s4.workers
    requires s4.workers[1 := Idle(true)] == s.workers[1 := Idle(true)]
    ensures Next(e, s4, SRecordFailure(1)) == AfterFailure(e, s, key, id)
  {
    var a, j := ClaimedAttempt(e, s, key), s.nextJob;
    assert HoldsRecord(e, s4, a);
    assert WriteRecord(e, s4, a, RecordFailed(false)) == FailedRecords(e, s, key.source);
    assert s4.jobs[j := FailedJob(s, key, id)] == s.jobs[j := FailedJob(s, key, id)];
    assert Fail(s4.jobs[j], 1, a.token, true, s4.now) == Some(FailedJob(s, key, id));
  }

  /** The failed job is all a recovery scan finds. */
  lemma ScanFindsFailure(e: Exporter, s: System, chain: seq<JobId>, key: Key, id: Identity)
    requires NoSuccessors(s, chain) && key.predecessor == HeadOf(chain)
    ensures Recoverable(AfterFailure(e, s, key, id).jobs, HeadOf(chain), s.nextJob + 1)
         == [Candidate(s.nextJob, FailedJob(s, key, id))]
  {
    NothingRecoverable(AfterFailure(e, s, key, id).jobs, HeadOf(chain), s.nextJob);
  }

  lemma FailureCalm(e: Exporter, s: System, chain: seq<JobId>, sources: seq<nat>, key: Key, id: Identity)
    requires StampsSource(e) && Calm(e, s, chain, sources, None) && NoSuccessors(s, chain)
    requires Placed(chain, sources, key) && key.predecessor == HeadOf(chain)
    requires Id(e, sources + [key.source]) == Some(id) && Agrees(e, sources, |sources|, key.source, id)
    ensures Calm(e, AfterFailure(e, s, key, id), chain, sources, None)
  {
    var s' := AfterFailure(e, s, key, id);
    NoSuccessorsFree(s, chain, key.source);
    EnqueueChainOk(s.jobs, chain, sources, s.nextJob, FailedJob(s, key, id));
    assert s'.jobs == s.jobs[s.nextJob := FailedJob(s, key, id)];
    FailureRowsOk(e, s, chain, sources, key, id);
    FailureRecordsOk(e, s, sources, key, id);
    FailureQuiet(e, s, key, id);
  }

  lemma FailureRecordsOk(e: Exporter, s: System, sources: seq<nat>, key: Key, id: Identity)
    requires RecordsOk(e, s, sources)
    ensures RecordsOk(e, AfterFailure(e, s, key, id), sources)
  {
    RecordsOkFrame(e, s, AfterFailure(e, s, key, id), sources);
  }

  lemma FailureRowsOk(e: Exporter, s: System, chain: seq<JobId>, sources: seq<nat>, key: Key, id: Identity)
    requires ChainOk(s.jobs, chain, sources) && RowsOk(e, s, chain, sources)
    requires Placed(chain, sources, key) && key.predecessor == HeadOf(chain)
    requires Id(e, sources + [key.source]) == Some(id) && Agrees(e, sources, |sources|, key.source, id)
    ensures RowsOk(e, AfterFailure(e, s, key, id), chain, sources)
  {
    HeadDepth(chain, key);
    HeadPath(e, chain, sources, key);
    assert RowOk(e, chain, sources, FailedJob(s, key, id));
  }

  lemma SameRowsOk(e: Exporter, s: System, s': System, chain: seq<JobId>, sources: seq<nat>)
    requires |sources| == |chain| && RowsOk(e, s, chain, sources) && s'.jobs == s.jobs && s'.nextJob == s.nextJob
    ensures RowsOk(e, s', chain, sources)
  {
  }

  lemma FailureQuiet(e: Exporter, s: System, key: Key, id: Identity)
    requires !RecoveryRequired(s.jobs)
    ensures !RecoveryRequired(AfterFailure(e, s, key, id).jobs)
  {
    var jobs := AfterFailure(e, s, key, id).jobs;
    forall j | j in jobs ensures !(jobs[j].status.Cancelled? && jobs[j].payload.body.Intent?) {
      if j != s.nextJob { assert j in s.jobs; }
    }
  }

  /** An idle worker that still has to scan starts recovery, whatever it came for. */
  lemma StartsScan(e: Exporter, s: System, chain: seq<JobId>, sources: seq<nat>, w: nat, source: nat, todo: seq<Candidate>)
    requires Calm(e, s, chain, sources, None) && WorkerOf(s, w) == Idle(true)
    requires todo == Recoverable(s.jobs, HeadOf(chain), s.nextJob) && todo != []
    ensures Next(e, s, SPrepare(w, source, 1, 1)) == Become(s, w, Scanning(todo, []))
  {
    var head := LoadCalm(e, s, chain, sources, None);
  }

  /** Worker 0 looks at the failed job, finds its tree is not on disk, and goes on. */
  function LookInVain(source: nat): seq<Step> {
    [SPrepare(0, source, 1, 1), SValidate(0), SValidate(0)]
  }

  lemma LookInVainRun(e: Exporter, s: System, chain: seq<JobId>, sources: seq<nat>, source: nat, c: Candidate)
    requires Calm(e, s, chain, sources, None) && WorkerOf(s, 0) == Idle(true)
    requires Recoverable(s.jobs, HeadOf(chain), s.nextJob) == [c]
    requires c.row.payload.body.Intent? && s.disk != Some(c.row.payload.body.identity)
    ensures Run(e, s, LookInVain(source)) == Become(s, 0, Idle(false))
  {
    var s1 := Become(s, 0, Scanning([c], []));
    StartsScan(e, s, chain, sources, 0, source, [c]);
    VainValidation(e, s, c);
    RunCons(e, s, SPrepare(0, source, 1, 1), [SValidate(0), SValidate(0)]);
    assert [SPrepare(0, source, 1, 1)] + [SValidate(0), SValidate(0)] == LookInVain(source);
  }

  lemma VainValidation(e: Exporter, s: System, c: Candidate)
    requires c.row.payload.body.Intent? && s.disk != Some(c.row.payload.body.identity)
    ensures Run(e, Become(s, 0, Scanning([c], [])), [SValidate(0), SValidate(0)]) == Become(s, 0, Idle(false))
  {
    var s1 := Become(s, 0, Scanning([c], []));
    var s2 := Become(s, 0, Scanning([], []));
    assert [c][1..] == [];
    assert Validate(s1, 0) == s2;
    assert Validate(s2, 0) == Become(s, 0, Idle(false));
    RunTwo(e, s1, SValidate(0), SValidate(0));
  }

  const RECOVERING := [SValidate(2), SValidate(2), SFinalizeRecovered(2)]

  lemma RecoveringRun(e: Exporter, s: System, c: Candidate, id: Identity)
    requires WorkerOf(s, 2) == Scanning([c], []) && 2 in s.workers
    requires c.job in s.jobs && s.jobs[c.job] == c.row && c.row.status.FailedTerminal? && c.row.attempts == 1
    requires c.row.payload.body == Intent(id) && s.disk == Some(id)
    requires RecordsRecoverable(e, s, c.row.payload.key.source, id.tree)
    ensures Run(e, s, RECOVERING) == Completed(e, s, 2, c.job, id)
  {
    var s1 := Become(s, 2, Scanning([], [c]));
    var s2 := Become(s, 2, Recovering(c));
    assert [c][1..] == [] && [] + [c] == [c];
    assert Validate(s, 2) == s1;
    assert Validate(s1, 2) == s2;
    RecoverStep(e, s2, c, id);
    assert s2.workers[2 := Idle(true)] == s.workers[2 := Idle(true)];
    RunTwo(e, s1, SValidate(2), SFinalizeRecovered(2));
    RunCons(e, s, SValidate(2), [SValidate(2), SFinalizeRecovered(2)]);
    assert [SValidate(2)] + [SValidate(2), SFinalizeRecovered(2)] == RECOVERING;
  }

  lemma RecoverStep(e: Exporter, s: System, c: Candidate, id: Identity)
    requires WorkerOf(s, 2) == Recovering(c)
    requires c.job in s.jobs && s.jobs[c.job] == c.row && c.row.status.FailedTerminal? && c.row.attempts == 1
    requires c.row.payload.body == Intent(id) && RecordsRecoverable(e, s, c.row.payload.key.source, id.tree)
    ensures Next(e, s, SFinalizeRecovered(2)) == Completed(e, s, 2, c.job, id)
  {
  }

  /** Worker 1 declares a job and fails; worker 2 starts scanning and stalls; worker 0
      looks, sees nothing to recover, and publishes `rivals`, ending with that very tree;
      worker 2 resumes. */
  lemma StalledRecoveryBranches(e: Exporter, base: seq<nat>, source: nat, rivals: seq<nat>) returns (steps: seq<Step>)
    requires StampsSource(e) && rivals != [] && rivals[0] != source
    requires Admissible(base + [source]) && Admissible(base + rivals) && Consistent(e, base + rivals)
    requires Id(e, base + rivals) == Id(e, base + [source])
    ensures IsSplit(Run(e, EMPTY, steps).jobs)
  {
    AdmissiblePrefix(e, base, rivals);
    RivalConsistent(e, base, source, rivals);
    EmptyPoised(e, base);
    var before, s0, chain := PublishAll(e, EMPTY, [], base, 0, None);
    var setup, s1, c := DeclareAndStall(e, s0, chain, base, source, rivals);
    var after := FinishRivals(e, s1, chain, base, source, rivals, c);
    RunAppend(e, EMPTY, before, setup + after);
    RunAppend(e, s0, setup, after);
    steps := before + (setup + after);
  }

  ghost predicate Stalled(s: System, chain: seq<JobId>, source: nat, c: Candidate, id: Identity) {
    && WorkerOf(s, 2) == Scanning([c], []) && 2 in s.workers
    && c.job in s.jobs && c.job < s.nextJob && s.jobs[c.job] == c.row
    && c.row.status.FailedTerminal? && c.row.attempts == 1
    && c.row.payload == Publication(Key(source, HeadOf(chain)), Intent(id))
  }

  lemma DeclareAndStall(e: Exporter, s: System, chain: seq<JobId>, base: seq<nat>, source: nat, rivals: seq<nat>)
    returns (steps: seq<Step>, s': System, c: Candidate)
    requires StampsSource(e) && Poised(e, s, chain, base, |base|, None) && NoSuccessors(s, chain)
    requires WorkerOf(s, 0) == Idle(true) && WorkerOf(s, 1) == Idle(true) && WorkerOf(s, 2) == Idle(true)
    requires rivals != [] && rivals[0] != source
    requires Admissible(base + [source]) && Consistent(e, base + [source])
    ensures s' == Run(e, s, steps) && Stalled(s', chain, source, c, Id(e, base + [source]).value)
    ensures Poised(e, s', chain, base + rivals, |base|, None)
  {
    var key, id := Key(source, HeadOf(chain)), e.render(source, s.disk);
    assert base[..|base|] == base && (base + rivals)[..|base|] == base;
    RendersOnTop(e, s, chain, base, key);
    Declare(e, s, chain, base, key, id);
    var s1 := AfterFailure(e, s, key, id);
    DeclareCalm(e, s, chain, base, key, id);
    c := Candidate(s.nextJob, FailedJob(s, key, id));
    NewSource(e, base, source);
    s' := Stall(e, s1, chain, base, source, rivals[0], c);
    StalledPoised(e, s, s', chain, base, key, id, rivals, c);
    var first, second := [SPrepare(1, source, 1, 1)] + FAILING, [SPrepare(2, source, 1, 1)] + LookInVain(rivals[0]);
    RunThrough(e, s, first, s1, second, s');
    steps := first + second;
  }

  lemma Declare(e: Exporter, s: System, chain: seq<JobId>, base: seq<nat>, key: Key, id: Identity)
    requires StampsSource(e) && Calm(e, s, chain, base, None) && NoSuccessors(s, chain)
    requires WorkerOf(s, 1) == Idle(true) && key.predecessor == HeadOf(chain) && Admissible(base + [key.source])
    requires Renders(e, s, ClaimedAttempt(e, s, key), id)
    ensures Run(e, s, [SPrepare(1, key.source, 1, 1)] + FAILING) == AfterFailure(e, s, key, id)
  {
    NoSuccessorsFree(s, chain, key.source);
    PrepareCalm(e, s, chain, base, None, 1, key.source);
    FailingRun(e, s, key, id);
    RunCons(e, s, SPrepare(1, key.source, 1, 1), FAILING);
  }

  lemma DeclareCalm(e: Exporter, s: System, chain: seq<JobId>, base: seq<nat>, key: Key, id: Identity)
    requires StampsSource(e) && Calm(e, s, chain, base, None) && NoSuccessors(s, chain)
    requires key.predecessor == HeadOf(chain) && Admissible(base + [key.source])
    requires Id(e, base + [key.source]) == Some(id) && Agrees(e, base, |base|, key.source, id)
    ensures Calm(e, AfterFailure(e, s, key, id), chain, base, None)
    ensures Recoverable(AfterFailure(e, s, key, id).jobs, HeadOf(chain), s.nextJob + 1)
         == [Candidate(s.nextJob, FailedJob(s, key, id))]
  {
    HeadKeyAdmitted(chain, base, key.source);
    FailureCalm(e, s, chain, base, key, id);
    ScanFindsFailure(e, s, chain, key, id);
  }

  lemma Stall(e: Exporter, s: System, chain: seq<JobId>, base: seq<nat>, source: nat, rival: nat, c: Candidate) returns (s': System)
    requires Calm(e, s, chain, base, None) && WorkerOf(s, 0) == Idle(true) && WorkerOf(s, 2) == Idle(true)
    requires Recoverable(s.jobs, HeadOf(chain), s.nextJob) == [c]
    requires c.row.payload.body.Intent? && s.disk != Some(c.row.payload.body.identity)
    ensures s' == Become(Become(s, 2, Scanning([c], [])), 0, Idle(false))
    ensures s' == Run(e, s, [SPrepare(2, source, 1, 1)] + LookInVain(rival))
    ensures Calm(e, s', chain, base, None)
  {
    StartsScan(e, s, chain, base, 2, source, [c]);
    var s2 := Become(s, 2, Scanning([c], []));
    CalmFrame(e, s, s2, chain, base);
    LookInVainRun(e, s2, chain, base, rival, c);
    s' := Become(s2, 0, Idle(false));
    CalmFrame(e, s2, s', chain, base);
    RunCons(e, s, SPrepare(2, source, 1, 1), LookInVain(rival));
  }

  lemma CalmFrame(e: Exporter, s: System, s': System, chain: seq<JobId>, sources: seq<nat>)
    requires Calm(e, s, chain, sources, None)
    requires s'.jobs == s.jobs && s'.nextJob == s.nextJob && s'.records == s.records && s'.disk == s.disk
    ensures Calm(e, s', chain, sources, None)
  {
    SameRowsOk(e, s, s', chain, sources);
    RecordsOkFrame(e, s, s', sources);
  }

  lemma StalledPoised(e: Exporter, s: System, s': System, chain: seq<JobId>, base: seq<nat>, key: Key, id: Identity,
                      rivals: seq<nat>, c: Candidate)
    requires s' == Become(Become(AfterFailure(e, s, key, id), 2, Scanning([c], [])), 0, Idle(false))
    requires Calm(e, s', chain, base, None) && c == Candidate(s.nextJob, FailedJob(s, key, id))
    requires NoSuccessors(s, chain) && key.predecessor == HeadOf(chain)
    requires rivals != [] && key.source != rivals[0]
    ensures Stalled(s', chain, key.source, c, id) && Poised(e, s', chain, base + rivals, |base|, None)
  {
    assert (base + rivals)[..|base|] == base;
    FailureIsFree(e, s, chain, key, id, rivals[0]);
  }

  lemma FailureIsFree(e: Exporter, s: System, chain: seq<JobId>, key: Key, id: Identity, rival: nat)
    requires NoSuccessors(s, chain) && key.predecessor == HeadOf(chain) && key.source != rival
    ensures !Exists(AfterFailure(e, s, key, id).jobs, Key(rival, HeadOf(chain)))
  {
  }

  lemma FinishRivals(e: Exporter, s: System, chain: seq<JobId>, base: seq<nat>, source: nat, rivals: seq<nat>, c: Candidate)
    returns (steps: seq<Step>)
    requires StampsSource(e) && rivals != [] && |chain| == |base|
    requires Admissible(base + rivals) && Consistent(e, base + rivals)
    requires Id(e, base + rivals) == Id(e, base + [source])
    requires Stalled(s, chain, source, c, Id(e, base + [source]).value)
    requires Poised(e, s, chain, base + rivals, |base|, None)
    ensures IsSplit(Run(e, s, steps).jobs)
  {
    var total, id := base + rivals, Id(e, base + [source]).value;
    var middle, s1, longer := PublishAll(e, s, chain, total, |base|, None);
    assert total[..|total|] == total;
    LastRecordMatches(e, s1, total, base, source);
    RecoveringRun(e, s1, c, id);
    RivalsCollide(e, s1, chain, longer, total, None, c.job, id);
    RunThrough(e, s, middle, s1, RECOVERING, Completed(e, s1, 2, c.job, id));
    steps := middle + RECOVERING;
  }

  lemma LastRecordMatches(e: Exporter, s: System, total: seq<nat>, base: seq<nat>, source: nat)
    requires StampsSource(e) && RecordsOk(e, s, total) && total != [] && Id(e, total) == Id(e, base + [source])
    ensures RecordsRecoverable(e, s, source, Id(e, total).value.tree)
  {
    IdStamped(e, total);
    IdStamped(e, base + [source]);
    assert RecordAt(e, s.records, total, |total| - 1);
    assert total[..|total|] == total;
  }

  // ----- The exact condition -----

  /** Consistency reaches the rival branch: it ends with the same source and tree. */
  lemma RivalConsistent(e: Exporter, p: seq<nat>, s: nat, rival: seq<nat>)
    requires StampsSource(e) && rival != [] && Consistent(e, p + rival) && Id(e, p + [s]) == Id(e, p + rival)
    ensures rival[|rival| - 1] == s && Consistent(e, p + [s])
  {
    RivalEnds(e, p, s, rival);
    ConsistentPrefix(e, p, rival);
    RivalAgrees(e, p, s, rival);
    AgreesConsistent(e, p, s, Id(e, p + rival).value);
  }

  lemma RivalEnds(e: Exporter, p: seq<nat>, s: nat, rival: seq<nat>)
    requires StampsSource(e) && rival != [] && Id(e, p + [s]) == Id(e, p + rival)
    ensures rival[|rival| - 1] == s && Id(e, p + rival).Some?
  {
    IdStamped(e, p + rival);
    IdStamped(e, p + [s]);
  }

  lemma RivalAgrees(e: Exporter, p: seq<nat>, s: nat, rival: seq<nat>)
    requires rival != [] && rival[|rival| - 1] == s && Consistent(e, p + rival) && Id(e, p + rival).Some?
    ensures Agrees(e, p, |p|, s, Id(e, p + rival).value)
  {
    var t := p + rival;
    assert t[..|t|] == t;
    forall i | 0 <= i < |p| && p[i] == s && e.recorded(s) ensures PublishedId(e, p, i) == Id(e, t) {
      assert RendersAlike(e, t, i, |t| - 1);
      assert t[..i + 1] == p[..i + 1];
    }
  }

  lemma ConsistentPrefix(e: Exporter, p: seq<nat>, rest: seq<nat>)
    requires Consistent(e, p + rest)
    ensures Consistent(e, p)
  {
    forall i, k | 0 <= i < k < |p| ensures RendersAlike(e, p, i, k) {
      assert RendersAlike(e, p + rest, i, k);
      assert (p + rest)[..i + 1] == p[..i + 1] && (p + rest)[..k + 1] == p[..k + 1];
    }
  }

  function Sum(s: seq<nat>): nat {
    if s == [] then 0 else s[0] + Sum(s[1..])
  }

  lemma {:induction false} SumBounds(s: seq<nat>)
    ensures forall x :: x in s ==> x <= Sum(s)
  {
    if s != [] {
      SumBounds(s[1..]);
      assert s == [s[0]] + s[1..];
    }
  }

  /** An exporter that is not separating has a run that splits the history. */
  lemma BranchingRun(e: Exporter) returns (steps: seq<Step>)
    requires StampsSource(e) && !Separating(e)
    ensures IsSplit(Run(e, EMPTY, steps).jobs)
  {
    hide Run, IsSplit, Id;
    var p: seq<nat>, s: nat, rival: seq<nat> :|
      rival != [] && rival != [s] && Admissible(p + [s]) && Admissible(p + rival) && Consistent(e, p + rival) &&
      Id(e, p + [s]) == Id(e, p + rival);
    RivalConsistent(e, p, s, rival);
    if rival[0] != s {
      steps := StalledRecoveryBranches(e, p, s, rival);
    } else {
      var base, rest := p + [s], rival[1..];
      assert base + rest == p + rival;
      SumBounds(p + rival);
      var other := Sum(p + rival) + 1;
      assert other !in base + rest && other !in base;
      OtherIsAdmissible(base, other);
      steps := StalledWorkerBranches(e, base, other, rest);
    }
  }

  lemma OtherIsAdmissible(base: seq<nat>, other: nat)
    requires Admissible(base) && other !in base
    ensures Admissible(base + [other])
  {
  }

  /** The exact condition: every run of every set of workers keeps one linear history if
      and only if no publication coincides with the end of another history through its
      own predecessor. */
  lemma LinearIffSeparating(e: Exporter)
    requires StampsSource(e)
    ensures (forall steps :: LinearHistory(Run(e, EMPTY, steps))) <==> Separating(e)
  {
    hide Separating, LinearHistory, IsSplit, Run;
    if Separating(e) {
      forall steps ensures LinearHistory(Run(e, EMPTY, steps)) {
        SeparatingRunsAreLinear(e, steps);
      }
    } else {
      var steps := BranchingRun(e);
      SplitIsNotLinear(Run(e, EMPTY, steps));
      assert !LinearHistory(Run(e, EMPTY, steps));
    }
  }

  // ----- A split is for good -----

  predicate Dealt(s: System) { forall j :: j in s.jobs ==> j < s.nextJob }

  /** Succeeded and cancelled jobs stay as they are. */
  predicate Keeps(jobs: JobTable, jobs': JobTable) {
    forall j :: j in jobs && (jobs[j].status.Succeeded? || jobs[j].status.Cancelled?) ==> j in jobs' && jobs'[j] == jobs[j]
  }

  lemma ClaimKeeps(e: Exporter, s: System, w: nat, id: JobId, row: ExportJob, head: Option<Anchor>, seconds: LeaseSeconds)
    requires Dealt(s) && (if id in s.jobs then s.jobs[id] == row && !row.status.Succeeded? else id == s.nextJob && Claimable(row, s.now))
    ensures Dealt(ClaimRow(e, s, w, id, row, head, seconds)) && Keeps(s.jobs, ClaimRow(e, s, w, id, row, head, seconds).jobs)
  {
  }

  lemma PrepareKeeps(e: Exporter, s: System, w: nat, source: nat, attempts: MaxAttempts, seconds: LeaseSeconds)
    requires Dealt(s)
    ensures Dealt(Prepare(e, s, w, source, attempts, seconds)) && Keeps(s.jobs, Prepare(e, s, w, source, attempts, seconds).jobs)
  {
    hide ClaimRow;
    match LoadState(s.jobs, s.nextJob)
    case LoadError =>
    case Loaded(head, _) =>
      var key := Key(source, AnchorId(head));
      if !Exists(s.jobs, key) {
        ClaimKeeps(e, s, w, s.nextJob, Enqueued(Publication(key, Base), attempts, s.now), head, seconds);
      } else if !s.jobs[FindByKey(s.jobs, key)].status.Succeeded? {
        ClaimKeeps(e, s, w, FindByKey(s.jobs, key), s.jobs[FindByKey(s.jobs, key)], head, seconds);
      }
  }

  lemma NextKeeps(e: Exporter, s: System, step: Step)
    requires Dealt(s)
    ensures Dealt(Next(e, s, step)) && Keeps(s.jobs, Next(e, s, step).jobs)
  {
    if step.SPrepare? {
      PrepareKeeps(e, s, step.w, step.source, step.attempts, step.seconds);
    } else {
      OtherStepKeeps(e, s, step);
    }
  }

  lemma OtherStepKeeps(e: Exporter, s: System, step: Step)
    requires Dealt(s) && !step.SPrepare?
    ensures Dealt(Next(e, s, step)) && Keeps(s.jobs, Next(e, s, step).jobs)
  {
    if Environment(step) {
      EnvironmentStep(e, s, step);
      MoveKeeps(s, step);
    } else if step.SRenew? {
      RenewKeeps(s, step.w, step.seconds);
    } else if step.SFinalize? || step.SRecordFailure? {
      AttemptEndKeeps(e, s, step.w);
    } else if step.SFinalizeRecovered? {
      RecoveryKeeps(e, s, step.w);
    }
  }

  lemma MoveKeeps(s: System, step: Step)
    requires Dealt(s) && Environment(step)
    ensures Dealt(Moved(s, step)) && Keeps(s.jobs, Moved(s, step).jobs)
  {
  }

  lemma RenewKeeps(s: System, w: nat, seconds: LeaseSeconds)
    requires Dealt(s)
    ensures Dealt(Renew(s, w, seconds)) && Keeps(s.jobs, Renew(s, w, seconds).jobs)
  {
  }

  lemma AttemptEndKeeps(e: Exporter, s: System, w: nat)
    requires Dealt(s)
    ensures Dealt(Finalize(e, s, w)) && Keeps(s.jobs, Finalize(e, s, w).jobs)
    ensures Dealt(RecordFailure(e, s, w)) && Keeps(s.jobs, RecordFailure(e, s, w).jobs)
  {
  }

  lemma RecoveryKeeps(e: Exporter, s: System, w: nat)
    requires Dealt(s)
    ensures Dealt(FinalizeRecovered(e, s, w)) && Keeps(s.jobs, FinalizeRecovered(e, s, w).jobs)
  {
  }

  lemma {:induction false} RunKeeps(e: Exporter, s: System, steps: seq<Step>)
    requires Dealt(s)
    ensures Dealt(Run(e, s, steps)) && Keeps(s.jobs, Run(e, s, steps).jobs)
    decreases |steps|
  {
    if steps != [] {
      NextKeeps(e, s, steps[0]);
      RunKeeps(e, Next(e, s, steps[0]), steps[1..]);
    }
  }

  /** Once a reachable history is split, the head never resolves again, whatever follows. */
  lemma SplitIsForGood(e: Exporter, before: seq<Step>, after: seq<Step>)
    requires IsSplit(Run(e, EMPTY, before).jobs)
    ensures !LinearHistory(Run(e, EMPTY, before + after))
  {
    var s := Run(e, EMPTY, before);
    RunKeeps(e, EMPTY, before);
    RunKeeps(e, s, after);
    RunAppend(e, EMPTY, before, after);
    var a, b :| SplitAt(s.jobs, a, b);
    assert SplitAt(Run(e, s, after).jobs, a, b);
    SplitIsNotLinear(Run(e, s, after));
  }
}
