/** What the protocol lets a worker do: exactly when it prepares an attempt, which row it is
    handed, and that pending work is published, retries included. */
module PublicationProgress {
  import opened Wrappers
  import opened Jobs
  import opened PublicationHead
  import opened PublicationChain
  import opened PublicationSafety
  import opened PublicationRuns
  import opened PublicationBranching
  import opened PublicationSplit
  import opened PublicationRecovery
  import JobHistory

  // ----- Exactly when an attempt is prepared -----

  ghost function Head(s: System): Option<Anchor>
    requires LinearHistory(s)
  {
    ResolveHead(AnchorsOf(s.jobs)).head
  }

  /** No unfinished successor of the head declares a tree, so a scan has nothing to look at. */
  ghost predicate NothingDeclared(s: System)
    requires LinearHistory(s)
  {
    forall j :: j in s.jobs && s.jobs[j].payload.key.predecessor == CurrentHead(s) && s.jobs[j].payload.body.Intent? ==>
      s.jobs[j].status.Succeeded?
  }

  /** The records of a source stand in the way of a first attempt while another attempt runs
      on them, and of a later one once they failed for good. */
  predicate Startable(e: Exporter, s: System, source: nat, first: bool) {
    e.recorded(source) && source in s.records ==>
      if first then !s.records[source].RecordRunning? else s.records[source] != RecordFailed(false)
  }

  ghost predicate Wanted(s: System, source: nat)
    requires LinearHistory(s)
  {
    Head(s).Some? ==> Head(s).value.identity.source != source
  }

  /** Job `j` is the one a worker with this snapshot is given, and an attempt at it is due. */
  ghost predicate DueJob(e: Exporter, s: System, source: nat, j: JobId)
    requires LinearHistory(s)
  {
    && j in s.jobs && s.jobs[j].payload.key == Key(source, CurrentHead(s))
    && JobHistory.Due(s.jobs[j], s.now) && Startable(e, s, source, s.jobs[j].attempts == 0)
  }

  ghost predicate NewJob(e: Exporter, s: System, source: nat)
    requires LinearHistory(s)
  {
    !Exists(s.jobs, Key(source, CurrentHead(s))) && Startable(e, s, source, true)
  }

  ghost predicate CanStart(e: Exporter, s: System, w: nat, source: nat) {
    && LinearHistory(s) && !RecoveryRequired(s.jobs)
    && (WorkerOf(s, w).Idle? && WorkerOf(s, w).scan ==> NothingDeclared(s))
    && Wanted(s, source)
    && (NewJob(e, s, source) || exists j :: DueJob(e, s, source, j))
  }

  /** Worker `w` was handed the row `j` with this payload for attempt number `attempt`; nothing else
      moved but the running records of the snapshot. */
  ghost predicate HandedOut(e: Exporter, s: System, s': System, w: nat, j: JobId,
                           payload: Publication, attempt: nat, most: nat, seconds: nat)
    requires LinearHistory(s)
  {
    var key := payload.key;
    && j in s'.jobs && s'.jobs == s.jobs[j := s'.jobs[j]]
    && s'.jobs[j].payload == payload && s'.jobs[j].status.Running?
    && s'.jobs[j].attempts == attempt && s'.jobs[j].maxAttempts == most
    && s'.jobs[j].lease == Some(Lease(w, s.nextToken, s.now + seconds))
    && w in s'.workers && s'.workers == s.workers[w := s'.workers[w]] && s'.workers[w].Prepared?
    && var a := s'.workers[w].attempt;
    && a.job == j && a.token == s.nextToken && a.key == key && a.expected == AnchorIdentity(Head(s))
    && (a.reused.Some? <==> e.recorded(key.source) && key.source in s.records && s.records[key.source].RecordSucceeded?)
    && (a.reused.Some? ==> a.reused.value == s.records[key.source].tree)
    && s'.records == (if e.recorded(key.source) && a.reused == None then s.records[key.source := RecordRunning] else s.records)
    && s'.nextToken == s.nextToken + 1 && s'.disk == s.disk && s'.now == s.now
    && s'.nextJob == if j < s.nextJob then s.nextJob else j + 1
  }

  lemma ClaimedRowIsHandedOut(e: Exporter, s: System, w: nat, id: JobId, row: ExportJob, seconds: LeaseSeconds)
    requires LinearHistory(s) && (id in s.jobs ==> s.jobs[id] == row)
    ensures var s' := ClaimRow(e, s, w, id, row, Head(s), seconds);
            if JobHistory.Due(row, s.now) && Startable(e, s, row.payload.key.source, row.attempts == 0)
            then HandedOut(e, s, s', w, id, row.payload, row.attempts + 1, row.maxAttempts, seconds)
            else w in s'.workers && s'.workers[w] == Idle(true)
  {
    JobHistory.ClaimIsGrantedWhenDue(row, w, s.nextToken, seconds, s.now);
    var source := row.payload.key.source;
    if source in s.records { assert s.records[source := s.records[source]] == s.records; }
  }

  lemma LoadedWhenLinear(s: System)
    ensures LoadState(s.jobs, s.nextJob) ==
            if LinearHistory(s) && !RecoveryRequired(s.jobs)
            then Loaded(Head(s), Recoverable(s.jobs, CurrentHead(s), s.nextJob)) else LoadError
  {
  }

  lemma NothingToScan(s: System)
    requires LinearHistory(s) && Dealt(s)
    ensures NothingDeclared(s) <==> Recoverable(s.jobs, CurrentHead(s), s.nextJob) == []
  {
    var head, n := CurrentHead(s), s.nextJob;
    RecoverableRows(s.jobs, head, n);
    if NothingDeclared(s) {
      NothingRecoverable(s.jobs, head, n);
    } else {
      var j :| j in s.jobs && s.jobs[j].payload.key.predecessor == head && s.jobs[j].payload.body.Intent? && !s.jobs[j].status.Succeeded?;
      assert Candidate(j, s.jobs[j]) in Recoverable(s.jobs, head, n);
    }
  }

  lemma FoundIsUnique(s: System, key: Key, j: JobId)
    requires KeysUnique(s.jobs) && j in s.jobs && s.jobs[j].payload.key == key
    ensures Exists(s.jobs, key) && FindByKey(s.jobs, key) == j
  {
    assert SameKey(s.jobs, j, FindByKey(s.jobs, key));
  }

  /** Past the scan and the unchanged head, preparing is claiming the row of this key. */
  lemma PrepareClaims(e: Exporter, s: System, w: nat, source: nat, attempts: MaxAttempts, seconds: LeaseSeconds)
    requires Dealt(s) && LinearHistory(s) && WorkerOf(s, w).Idle?
    requires !RecoveryRequired(s.jobs) && (WorkerOf(s, w).scan ==> NothingDeclared(s)) && Wanted(s, source)
    ensures var key := Key(source, CurrentHead(s));
            Prepare(e, s, w, source, attempts, seconds) ==
            if !Exists(s.jobs, key)
            then ClaimRow(e, s, w, s.nextJob, Enqueued(Publication(key, Base), attempts, s.now), Head(s), seconds)
            else var j := FindByKey(s.jobs, key);
              if s.jobs[j].status.Succeeded? then Become(s, w, Idle(true)) else ClaimRow(e, s, w, j, s.jobs[j], Head(s), seconds)
  {
    hide ClaimRow, LoadState, Recoverable;
    LoadedWhenLinear(s);
    NothingToScan(s);
  }

  lemma PrepareStops(e: Exporter, s: System, w: nat, source: nat, attempts: MaxAttempts, seconds: LeaseSeconds)
    requires Dealt(s) && WorkerOf(s, w).Idle?
    requires LinearHistory(s) && !RecoveryRequired(s.jobs) && (WorkerOf(s, w).scan ==> NothingDeclared(s)) ==> !Wanted(s, source)
    ensures !WorkerOf(Prepare(e, s, w, source, attempts, seconds), w).Prepared?
  {
    hide ClaimRow, LoadState, Recoverable;
    LoadedWhenLinear(s);
    if LinearHistory(s) { NothingToScan(s); }
  }

  lemma PrepareHandsOutDue(e: Exporter, s: System, w: nat, source: nat, j: JobId, attempts: MaxAttempts, seconds: LeaseSeconds)
    requires KeysUnique(s.jobs) && Dealt(s) && WorkerOf(s, w).Idle? && CanStart(e, s, w, source) && DueJob(e, s, source, j)
    ensures HandedOut(e, s, Prepare(e, s, w, source, attempts, seconds), w, j, s.jobs[j].payload,
                      s.jobs[j].attempts + 1, s.jobs[j].maxAttempts, seconds)
  {
    hide Prepare, ClaimRow, HandedOut;
    PrepareClaims(e, s, w, source, attempts, seconds);
    FoundIsUnique(s, Key(source, CurrentHead(s)), j);
    ClaimedRowIsHandedOut(e, s, w, j, s.jobs[j], seconds);
  }

  lemma PrepareHandsOutNew(e: Exporter, s: System, w: nat, source: nat, attempts: MaxAttempts, seconds: LeaseSeconds)
    requires Dealt(s) && WorkerOf(s, w).Idle? && CanStart(e, s, w, source) && NewJob(e, s, source)
    ensures HandedOut(e, s, Prepare(e, s, w, source, attempts, seconds), w, s.nextJob,
                      Publication(Key(source, CurrentHead(s)), Base), 1, attempts, seconds)
  {
    hide Prepare, ClaimRow, HandedOut;
    PrepareClaims(e, s, w, source, attempts, seconds);
    ClaimedRowIsHandedOut(e, s, w, s.nextJob, Enqueued(Publication(Key(source, CurrentHead(s)), Base), attempts, s.now), seconds);
  }

  /** An idle worker gets an attempt if and only if one can start; then it is handed the due
      job of its snapshot on the current head, or a new one. */
  lemma PreparesExactly(e: Exporter, s: System, w: nat, source: nat, attempts: MaxAttempts, seconds: LeaseSeconds)
    requires KeysUnique(s.jobs) && Dealt(s) && WorkerOf(s, w).Idle?
    ensures var s', start := Next(e, s, SPrepare(w, source, attempts, seconds)), CanStart(e, s, w, source);
            && (WorkerOf(s', w).Prepared? <==> start)
            && (forall j :: start && DueJob(e, s, source, j) ==>
                  HandedOut(e, s, s', w, j, s.jobs[j].payload, s.jobs[j].attempts + 1, s.jobs[j].maxAttempts, seconds))
            && (start && NewJob(e, s, source) ==>
                  HandedOut(e, s, s', w, s.nextJob, Publication(Key(source, CurrentHead(s)), Base), 1, attempts, seconds))
  {
    hide Prepare;
    if CanStart(e, s, w, source) {
      forall j | DueJob(e, s, source, j)
        ensures HandedOut(e, s, Prepare(e, s, w, source, attempts, seconds), w, j, s.jobs[j].payload,
                          s.jobs[j].attempts + 1, s.jobs[j].maxAttempts, seconds)
      {
        PrepareHandsOutDue(e, s, w, source, j, attempts, seconds);
      }
      if NewJob(e, s, source) { PrepareHandsOutNew(e, s, w, source, attempts, seconds); }
    } else {
      NotStarted(e, s, w, source, attempts, seconds);
    }
  }

  lemma NotStarted(e: Exporter, s: System, w: nat, source: nat, attempts: MaxAttempts, seconds: LeaseSeconds)
    requires Dealt(s) && WorkerOf(s, w).Idle? && !CanStart(e, s, w, source)
    ensures !WorkerOf(Prepare(e, s, w, source, attempts, seconds), w).Prepared?
  {
    hide Prepare, ClaimRow, HandedOut;
    if LinearHistory(s) && !RecoveryRequired(s.jobs) && (WorkerOf(s, w).scan ==> NothingDeclared(s)) && Wanted(s, source) {
      var key := Key(source, CurrentHead(s));
      PrepareClaims(e, s, w, source, attempts, seconds);
      if !Exists(s.jobs, key) {
        ClaimedRowIsHandedOut(e, s, w, s.nextJob, Enqueued(Publication(key, Base), attempts, s.now), seconds);
      } else {
        var j := FindByKey(s.jobs, key);
        assert !DueJob(e, s, source, j);
        ClaimedRowIsHandedOut(e, s, w, j, s.jobs[j], seconds);
      }
    } else {
      PrepareStops(e, s, w, source, attempts, seconds);
    }
  }

  // ----- From the handed-out row to the published tree -----

  /** What the attempt will publish, and that its records, if reused, name that tree. */
  ghost predicate RendersTo(e: Exporter, s: System, source: nat, id: Identity)
    requires LinearHistory(s)
  {
    && id == e.render(source, AnchorIdentity(Head(s)))
    && (e.recorded(source) && source in s.records && s.records[source].RecordSucceeded? ==> s.records[source].tree == id.tree)
  }

  /** Job `j` of this snapshot succeeded, as this attempt at it, on top of the head that `s` had, with its tree on disk. */
  ghost predicate PublishedOnHead(s: System, s': System, j: JobId, source: nat, id: Identity, attempt: nat)
    requires LinearHistory(s)
  {
    && s'.disk == Some(id)
    && j in s'.jobs && s'.jobs == s.jobs[j := s'.jobs[j]] && s'.jobs[j].status.Succeeded? && s'.jobs[j].attempts == attempt
    && s'.jobs[j].payload == Publication(Key(source, CurrentHead(s)), Result(id))
  }

  /** On the head's own tree an attempt passes the fence and publishes what it renders. */
  lemma HandedOutFinishes(e: Exporter, s: System, s1: System, w: nat, j: JobId, payload: Publication,
                          attempt: nat, most: nat, seconds: LeaseSeconds, id: Identity)
    requires LinearHistory(s) && HandedOut(e, s, s1, w, j, payload, attempt, most, seconds)
    requires payload.key.predecessor == CurrentHead(s)
    requires s.disk == AnchorIdentity(Head(s)) && RendersTo(e, s, payload.key.source, id)
    ensures var s2 := Run(e, s1, Finish(w));
            && PublishedOnHead(s, s2, j, payload.key.source, id, attempt)
            && w in s2.workers && s2.workers[w] == Idle(true)
  {
    var a := s1.workers[w].attempt;
    FinishRun(e, s1, w, a, id);
    assert s1.jobs[j := Done(s1.jobs[j], id)] == s.jobs[j := Done(s1.jobs[j], id)];
  }

  function Publishing(w: nat, source: nat, attempts: MaxAttempts, seconds: LeaseSeconds): seq<Step> {
    [SPrepare(w, source, attempts, seconds)] + Finish(w)
  }

  /** An idle worker publishes its snapshot by its own steps whenever an attempt can start
      and the head's tree is on disk; a due job keeps its number and uses one attempt more. */
  lemma StartedIsPublished(e: Exporter, s: System, w: nat, source: nat, attempts: MaxAttempts, seconds: LeaseSeconds, id: Identity)
    requires KeysUnique(s.jobs) && Dealt(s) && WorkerOf(s, w).Idle? && CanStart(e, s, w, source)
    requires s.disk == AnchorIdentity(Head(s)) && RendersTo(e, s, source, id)
    ensures var s2 := Run(e, s, Publishing(w, source, attempts, seconds));
            && (forall j :: DueJob(e, s, source, j) ==>
                  PublishedOnHead(s, s2, j, source, id, s.jobs[j].attempts + 1))
            && (NewJob(e, s, source) ==> PublishedOnHead(s, s2, s.nextJob, source, id, 1))
            && w in s2.workers && s2.workers[w] == Idle(true)
  {
    hide Prepare, HandedOut, RendersTo, Run, PublishedOnHead, Finish;
    var s1 := Prepare(e, s, w, source, attempts, seconds);
    PreparesExactly(e, s, w, source, attempts, seconds);
    RunCons(e, s, SPrepare(w, source, attempts, seconds), Finish(w));
    forall j | DueJob(e, s, source, j)
      ensures PublishedOnHead(s, Run(e, s1, Finish(w)), j, source, id, s.jobs[j].attempts + 1)
      ensures w in Run(e, s1, Finish(w)).workers && Run(e, s1, Finish(w)).workers[w] == Idle(true)
    {
      HandedOutFinishes(e, s, s1, w, j, s.jobs[j].payload, s.jobs[j].attempts + 1, s.jobs[j].maxAttempts, seconds, id);
    }
    if NewJob(e, s, source) {
      HandedOutFinishes(e, s, s1, w, s.nextJob, Publication(Key(source, CurrentHead(s)), Base), 1, attempts, seconds, id);
    }
  }

  // ----- Over every reachable state -----

  /** Rows keep their keys and their used attempts, a new row brings a new key, and
      succeeded records stay. */
  predicate RowsKept(s: System, s': System) {
    && (forall j :: j in s.jobs ==>
          && j in s'.jobs && s'.jobs[j].payload.key == s.jobs[j].payload.key && s.jobs[j].attempts <= s'.jobs[j].attempts)
    && (forall j :: j in s'.jobs && j !in s.jobs ==>
          j == s.nextJob && forall i :: i in s.jobs ==> s.jobs[i].payload.key != s'.jobs[j].payload.key)
    && (forall y :: y in s.records && s.records[y].RecordSucceeded? ==> y in s'.records && s'.records[y].RecordSucceeded?)
  }

  lemma KeptKeysAreUnique(s: System, s': System)
    requires KeysUnique(s.jobs) && RowsKept(s, s')
    ensures KeysUnique(s'.jobs)
  {
    forall i, j | SameKey(s'.jobs, i, j) ensures i == j {
      if i in s.jobs && j in s.jobs { assert SameKey(s.jobs, i, j); }
    }
  }

  function AttemptOf(state: Worker): Option<Attempt> {
    match state
    case Prepared(a) => Some(a)
    case Rendered(a, _, _) => Some(a)
    case Intended(a, _, _) => Some(a)
    case Published(a, _) => Some(a)
    case Failing(a, _) => Some(a)
    case _ => None
  }

  /** The attempt is at a job of its own key, counted there, and reuses only finished records. */
  predicate AttemptKnown(s: System, a: Attempt) {
    && a.job in s.jobs && s.jobs[a.job].payload.key == a.key && s.jobs[a.job].attempts > 0
    && (a.reused.Some? ==> a.key.source in s.records && s.records[a.key.source].RecordSucceeded?)
  }

  predicate AttemptsKnown(s: System) {
    forall w :: w in s.workers && AttemptOf(s.workers[w]).Some? ==> AttemptKnown(s, AttemptOf(s.workers[w]).value)
  }

  /** Worker `w` goes on with its own attempt, drops it, or begins one that is known. */
  predicate OneWorkerMoves(s: System, s': System, w: nat) {
    && s'.workers == s.workers[w := WorkerOf(s', w)]
    && var next := AttemptOf(WorkerOf(s', w));
       next == None || next == AttemptOf(WorkerOf(s, w)) || AttemptKnown(s', next.value)
  }

  lemma MoveKeepsAttempts(s: System, s': System, w: nat)
    requires AttemptsKnown(s) && RowsKept(s, s') && OneWorkerMoves(s, s', w)
    ensures AttemptsKnown(s')
  {
  }

  lemma ClaimKeepsRows(e: Exporter, s: System, w: nat, id: JobId, row: ExportJob, head: Option<Anchor>, seconds: LeaseSeconds)
    requires if id in s.jobs then s.jobs[id] == row else id == s.nextJob && !Exists(s.jobs, row.payload.key) && Claimable(row, s.now)
    ensures var s' := ClaimRow(e, s, w, id, row, head, seconds);
            RowsKept(s, s') && OneWorkerMoves(s, s', w)
  {
    ClaimBeginsKnown(e, s, w, id, row, head, seconds);
    var row', records := ClaimCases(e, s, w, id, row, head, seconds);
    ClaimedRowGrows(row, row', w, s.nextToken, seconds, s.now);
    hide ClaimRow, Claimable, OneWorkerMoves, ClaimedRow, Claim;
  }

  lemma ClaimedRowGrows(row: ExportJob, row': ExportJob, w: nat, token: nat, seconds: LeaseSeconds, now: nat)
    requires ClaimedRow(row, row', w, token, seconds, now)
    ensures row'.payload == row.payload && row.attempts <= row'.attempts
  {
  }

  lemma ClaimBeginsKnown(e: Exporter, s: System, w: nat, id: JobId, row: ExportJob, head: Option<Anchor>, seconds: LeaseSeconds)
    ensures OneWorkerMoves(s, ClaimRow(e, s, w, id, row, head, seconds), w)
  {
    JobHistory.ClaimIsGrantedWhenDue(row, w, s.nextToken, seconds, s.now);
    hide Claim;
  }

  lemma PrepareKeepsRows(e: Exporter, s: System, w: nat, source: nat, attempts: MaxAttempts, seconds: LeaseSeconds)
    requires Dealt(s) && WorkerOf(s, w).Idle?
    ensures var s' := Prepare(e, s, w, source, attempts, seconds);
            RowsKept(s, s') && OneWorkerMoves(s, s', w)
  {
    hide ClaimRow, LoadState;
    match LoadState(s.jobs, s.nextJob)
    case LoadError =>
    case Loaded(head, _) =>
      var key := Key(source, AnchorId(head));
      if !Exists(s.jobs, key) {
        ClaimKeepsRows(e, s, w, s.nextJob, Enqueued(Publication(key, Base), attempts, s.now), head, seconds);
      } else {
        ClaimKeepsRows(e, s, w, FindByKey(s.jobs, key), s.jobs[FindByKey(s.jobs, key)], head, seconds);
      }
  }

  lemma RenewKeepsRows(s: System, w: nat, seconds: LeaseSeconds)
    ensures var s' := Renew(s, w, seconds); s' == s || (RowsKept(s, s') && OneWorkerMoves(s, s', w))
  {
  }

  lemma FinalizeKeepsRows(e: Exporter, s: System, w: nat)
    ensures var s' := Finalize(e, s, w); s' == s || (RowsKept(s, s') && OneWorkerMoves(s, s', w))
  {
  }

  lemma FailureKeepsRows(e: Exporter, s: System, w: nat)
    ensures var s' := RecordFailure(e, s, w); s' == s || (RowsKept(s, s') && OneWorkerMoves(s, s', w))
  {
  }

  lemma RecoveryKeepsRows(e: Exporter, s: System, w: nat)
    ensures var s' := FinalizeRecovered(e, s, w); s' == s || (RowsKept(s, s') && OneWorkerMoves(s, s', w))
  {
  }

  lemma EnvironmentKeepsRows(s: System, step: Step)
    requires Environment(step)
    ensures RowsKept(s, Moved(s, step)) && Moved(s, step).workers == s.workers
  {
  }

  predicate Quiet(step: Step) {
    step.SRender? || step.SPublish? || step.SRaise? || step.SValidate? || step.SCrash?
  }

  lemma QuietKeepsRows(e: Exporter, s: System, step: Step)
    requires Quiet(step)
    ensures var s' := Next(e, s, step); s' == s || (s'.jobs == s.jobs && s'.records == s.records && OneWorkerMoves(s, s', step.w))
  {
    hide AttemptKnown;
  }

  lemma NextKeepsRows(e: Exporter, s: System, step: Step)
    requires Dealt(s) && KeysUnique(s.jobs) && AttemptsKnown(s)
    ensures KeysUnique(Next(e, s, step).jobs) && AttemptsKnown(Next(e, s, step))
  {
    var s' := Next(e, s, step);
    if Environment(step) {
      EnvironmentStep(e, s, step);
      EnvironmentKeepsRows(s, step);
    } else if step.SPrepare? {
      if WorkerOf(s, step.w).Idle? { PrepareKeepsRows(e, s, step.w, step.source, step.attempts, step.seconds); }
    } else if step.SRenew? {
      RenewKeepsRows(s, step.w, step.seconds);
    } else if step.SFinalize? {
      FinalizeKeepsRows(e, s, step.w);
    } else if step.SRecordFailure? {
      FailureKeepsRows(e, s, step.w);
    } else if step.SFinalizeRecovered? {
      RecoveryKeepsRows(e, s, step.w);
    } else {
      QuietKeepsRows(e, s, step);
    }
    hide KeysUnique, AttemptsKnown, RowsKept, OneWorkerMoves, Prepare, Render, Renew, Publish, Finalize, Raise, RecordFailure, Validate, FinalizeRecovered;
    if s' != s {
      KeptKeysAreUnique(s, s');
      if Environment(step) { KnownFrame(s, s'); } else { MoveKeepsAttempts(s, s', step.w); }
    }
  }

  lemma KnownFrame(s: System, s': System)
    requires AttemptsKnown(s) && RowsKept(s, s') && s'.workers == s.workers
    ensures AttemptsKnown(s')
  {
  }

  lemma {:induction false} RunKeepsRows(e: Exporter, s: System, steps: seq<Step>)
    requires Dealt(s) && KeysUnique(s.jobs) && AttemptsKnown(s)
    ensures Dealt(Run(e, s, steps)) && KeysUnique(Run(e, s, steps).jobs) && AttemptsKnown(Run(e, s, steps))
    decreases |steps|
  {
    if steps != [] {
      NextKeeps(e, s, steps[0]);
      NextKeepsRows(e, s, steps[0]);
      RunKeepsRows(e, Next(e, s, steps[0]), steps[1..]);
    }
  }

  lemma ReachableRows(e: Exporter, steps: seq<Step>)
    ensures Dealt(Run(e, EMPTY, steps)) && KeysUnique(Run(e, EMPTY, steps).jobs) && AttemptsKnown(Run(e, EMPTY, steps))
  {
    RunKeepsRows(e, EMPTY, steps);
  }

  // ----- Pending work is published -----

  ghost predicate NothingClaimed(s: System)
    requires LinearHistory(s)
  {
    forall j :: !Claims(s, CurrentHead(s), j)
  }

  lemma {:induction false} NothingMatches(s: System, head: Option<JobId>, n: nat)
    requires forall j :: !Claims(s, head, j)
    ensures Matching(Recoverable(s.jobs, head, n), s.disk) == []
  {
    if n > 0 {
      NothingMatches(s, head, n - 1);
      if IsPending(s.jobs, head, n - 1) && s.jobs[n - 1].payload.body.Intent? {
        var c := Candidate(n - 1, s.jobs[n - 1]);
        MatchingSnoc(Recoverable(s.jobs, head, n - 1), c, s.disk);
        MatchingOne(c, s.disk);
        assert !Claims(s, head, n - 1);
      } else {
        assert Recoverable(s.jobs, head, n - 1) + [] == Recoverable(s.jobs, head, n - 1);
      }
    }
  }

  lemma ScanStarts(e: Exporter, s: System, w: nat, source: nat)
    requires Dealt(s) && LinearHistory(s) && !RecoveryRequired(s.jobs)
    requires WorkerOf(s, w) == Idle(true) && !NothingDeclared(s)
    ensures Prepare(e, s, w, source, 1, 1) == Become(s, w, Scanning(Recoverable(s.jobs, CurrentHead(s), s.nextJob), []))
  {
    hide ClaimRow, LoadState, Recoverable;
    LoadedWhenLinear(s);
    NothingToScan(s);
  }

  lemma ScanFindsNothing(e: Exporter, s: System, w: nat, todo: seq<Candidate>)
    requires Matching(todo, s.disk) == []
    ensures Run(e, Become(s, w, Scanning(todo, [])), Validations(w, |todo|)) == Become(s, w, Scanning([], []))
  {
    hide Matching, Validations, Run;
    var s0 := Become(s, w, Idle(true));
    ValidateAll(e, s0, w, todo, []);
    assert Become(s0, w, Scanning(todo, [])) == Become(s, w, Scanning(todo, []));
    assert [] + Matching(todo, s.disk) == [];
    assert Become(s0, w, Scanning([], [])) == Become(s, w, Scanning([], []));
  }

  lemma ScanIsOver(s: System, w: nat)
    ensures Validate(Become(s, w, Scanning([], [])), w) == Become(s, w, Idle(false))
  {
  }

  /** A scan that finds no declared tree on disk leaves its worker free to prepare. */
  lemma VainScan(e: Exporter, s: System, w: nat, source: nat) returns (steps: seq<Step>)
    requires Dealt(s) && LinearHistory(s) && !RecoveryRequired(s.jobs)
    requires WorkerOf(s, w) == Idle(true) && !NothingDeclared(s) && NothingClaimed(s)
    ensures Run(e, s, steps) == Become(s, w, Idle(false))
  {
    hide Recoverable, Matching, Prepare, Validate, NothingDeclared, NothingClaimed, Validations, Become;
    var todo := Recoverable(s.jobs, CurrentHead(s), s.nextJob);
    NoneOnDisk(s);
    ScanStarts(e, s, w, source);
    ScanFindsNothing(e, s, w, todo);
    ScanIsOver(s, w);
    RunCons(e, Become(s, w, Scanning([], [])), SValidate(w), []);
    RunThrough(e, Become(s, w, Scanning(todo, [])), Validations(w, |todo|), Become(s, w, Scanning([], [])), [SValidate(w)],
               Become(s, w, Idle(false)));
    RunCons(e, s, SPrepare(w, source, 1, 1), Validations(w, |todo|) + [SValidate(w)]);
    steps := [SPrepare(w, source, 1, 1)] + (Validations(w, |todo|) + [SValidate(w)]);
  }

  lemma NoneOnDisk(s: System)
    requires LinearHistory(s) && NothingClaimed(s)
    ensures Matching(Recoverable(s.jobs, CurrentHead(s), s.nextJob), s.disk) == []
  {
    NothingMatches(s, CurrentHead(s), s.nextJob);
  }

  lemma LookedInVain(e: Exporter, s: System, w: nat, source: nat, id: Identity)
    requires LinearHistory(s)
    ensures var s' := Become(s, w, Idle(false));
            && LinearHistory(s') && Head(s') == Head(s) && CurrentHead(s') == CurrentHead(s)
            && (RendersTo(e, s', source, id) <==> RendersTo(e, s, source, id)) && (NewJob(e, s', source) <==> NewJob(e, s, source))
            && (forall j :: DueJob(e, s', source, j) <==> DueJob(e, s, source, j))
            && (forall s2, j, n :: PublishedOnHead(s', s2, j, source, id, n) <==> PublishedOnHead(s, s2, j, source, id, n))
  {
    assert Become(s, w, Idle(false)).jobs == s.jobs;
  }

  /** In every reachable state that resolves, with the head's own tree on disk, an idle worker
      publishes its snapshot by its own steps: as the next attempt of the job that is due for
      it, or as a new job. */
  lemma PendingIsPublished(e: Exporter, before: seq<Step>, w: nat, source: nat, id: Identity) returns (steps: seq<Step>, j: JobId)
    requires var s := Run(e, EMPTY, before);
             && LinearHistory(s) && !RecoveryRequired(s.jobs) && s.disk == AnchorIdentity(Head(s)) && NothingClaimed(s)
             && WorkerOf(s, w).Idle? && Wanted(s, source) && RendersTo(e, s, source, id)
             && (NewJob(e, s, source) || exists i :: DueJob(e, s, source, i))
    ensures var s, s' := Run(e, EMPTY, before), Run(e, EMPTY, before + steps);
            && (if DueJob(e, s, source, j) then PublishedOnHead(s, s', j, source, id, s.jobs[j].attempts + 1)
                else NewJob(e, s, source) && j == s.nextJob && PublishedOnHead(s, s', j, source, id, 1))
            && w in s'.workers && s'.workers[w] == Idle(true)
  {
    var s := Run(e, EMPTY, before);
    ReachableRows(e, before);
    if i :| DueJob(e, s, source, i) { j := i; } else { j := s.nextJob; }
    if WorkerOf(s, w).scan && !NothingDeclared(s) {
      var scan := VainScan(e, s, w, source);
      LookedInVain(e, s, w, source, id);
      PublishStarted(e, Become(s, w, Idle(false)), w, source, id, j);
      RunAppend(e, s, scan, Publishing(w, source, 1, 1));
      steps := scan + Publishing(w, source, 1, 1);
    } else {
      PublishStarted(e, s, w, source, id, j);
      steps := Publishing(w, source, 1, 1);
    }
    RunAppend(e, EMPTY, before, steps);
  }

  lemma PublishStarted(e: Exporter, s: System, w: nat, source: nat, id: Identity, j: JobId)
    requires KeysUnique(s.jobs) && Dealt(s) && WorkerOf(s, w).Idle? && CanStart(e, s, w, source)
    requires s.disk == AnchorIdentity(Head(s)) && RendersTo(e, s, source, id)
    requires DueJob(e, s, source, j) || (NewJob(e, s, source) && j == s.nextJob)
    ensures var s' := Run(e, s, Publishing(w, source, 1, 1));
            && (if DueJob(e, s, source, j) then PublishedOnHead(s, s', j, source, id, s.jobs[j].attempts + 1)
                else PublishedOnHead(s, s', j, source, id, 1))
            && w in s'.workers && s'.workers[w] == Idle(true)
  {
    hide Run, Publishing, PublishedOnHead, RendersTo, CanStart;
    StartedIsPublished(e, s, w, source, 1, 1, id);
  }

  // ----- Failures and retries -----

  /** The attempt's own record still runs, where it has one. */
  predicate RecordIsHeld(e: Exporter, s: System, a: Attempt) {
    e.recorded(a.key.source) && a.reused == None ==> a.key.source in s.records && s.records[a.key.source].RecordRunning?
  }

  /** Worker `w` still has the live lease of its attempt. */
  predicate LeaseIsLive(s: System, w: nat, a: Attempt) {
    && a.job in s.jobs && (s.jobs[a.job].status.Claimed? || s.jobs[a.job].status.Running?)
    && s.jobs[a.job].lease.Some? && s.jobs[a.job].lease.value.owner == w && s.jobs[a.job].lease.value.token == a.token
    && s.now < s.jobs[a.job].lease.value.expires
  }

  /** A failure is recorded exactly under the live lease and on the attempt's own running
      record.  Then job and record fail alike: to be retried exactly if the failure allows it
      and an attempt is left.  Otherwise neither is touched. */
  lemma FailureIsRecorded(e: Exporter, s: System, w: nat)
    requires WorkerOf(s, w).Failing?
    ensures var a, s' := WorkerOf(s, w).attempt, Next(e, s, SRecordFailure(w));
            if LeaseIsLive(s, w, a) && RecordIsHeld(e, s, a) then
              var row := s.jobs[a.job];
              var again := WorkerOf(s, w).retryable && row.attempts < row.maxAttempts;
              && a.job in s'.jobs && s'.jobs == s.jobs[a.job := s'.jobs[a.job]]
              && s'.jobs[a.job].status == (if again then FailedRetryable else FailedTerminal) && s'.jobs[a.job].lease == None
              && s'.jobs[a.job].payload == row.payload && s'.jobs[a.job].attempts == row.attempts
              && s'.jobs[a.job].maxAttempts == row.maxAttempts && (again ==> s'.jobs[a.job].availableAt == s.now)
              && s'.records == (if e.recorded(a.key.source) && a.reused == None
                                then s.records[a.key.source := RecordFailed(again)] else s.records)
              && WorkerOf(s', w) == Idle(true)
            else s'.jobs == s.jobs && s'.records == s.records
  {
  }

  lemma FailureFrame(e: Exporter, s: System, w: nat)
    ensures var s' := Next(e, s, SRecordFailure(w));
            && s'.disk == s.disk && s'.now == s.now && s'.nextJob == s.nextJob && s'.nextToken == s.nextToken
            && forall v :: v != w ==> WorkerOf(s', v) == WorkerOf(s, v)
  {
  }

  /** Ending a job without success leaves the head as it is. */
  lemma HeadStays(s: System, s': System, j: JobId)
    requires LinearHistory(s) && j in s.jobs && j in s'.jobs && s'.jobs == s.jobs[j := s'.jobs[j]]
    requires !s.jobs[j].status.Succeeded? && !s'.jobs[j].status.Succeeded?
    ensures LinearHistory(s') && Head(s') == Head(s)
  {
    assert ResultsRecorded(s'.jobs);
    assert AnchorsOf(s'.jobs) == AnchorsOf(s.jobs);
  }

  /** Worker `w` is about to record a failure of `a` that may be retried. */
  predicate MayRetry(e: Exporter, s: System, w: nat, a: Attempt) {
    && WorkerOf(s, w) == Failing(a, true) && LeaseIsLive(s, w, a) && RecordIsHeld(e, s, a)
    && s.jobs[a.job].attempts < s.jobs[a.job].maxAttempts
  }

  /** The attempt's snapshot is still to be published on the current head. */
  ghost predicate StillWanted(s: System, a: Attempt) {
    && LinearHistory(s) && !RecoveryRequired(s.jobs) && NothingDeclared(s)
    && a.key.predecessor == CurrentHead(s) && Wanted(s, a.key.source)
  }

  lemma FailureKeepsHead(e: Exporter, s: System, w: nat, a: Attempt)
    requires MayRetry(e, s, w, a) && LinearHistory(s)
    ensures var s' := Next(e, s, SRecordFailure(w)); LinearHistory(s') && Head(s') == Head(s)
  {
    hide Next, LinearHistory;
    FailureIsRecorded(e, s, w);
    HeadStays(s, Next(e, s, SRecordFailure(w)), a.job);
  }

  lemma FailureStaysWanted(e: Exporter, s: System, w: nat, a: Attempt)
    requires MayRetry(e, s, w, a) && StillWanted(s, a)
    ensures StillWanted(Next(e, s, SRecordFailure(w)), a)
  {
    FailureKeepsHead(e, s, w, a);
    FailureIsRecorded(e, s, w);
    hide Next, LinearHistory;
  }

  lemma FailedJobIsDue(e: Exporter, s: System, w: nat, a: Attempt)
    requires MayRetry(e, s, w, a) && AttemptKnown(s, a) && StillWanted(s, a)
    ensures StillWanted(Next(e, s, SRecordFailure(w)), a) && DueJob(e, Next(e, s, SRecordFailure(w)), a.key.source, a.job)
  {
    FailureStaysWanted(e, s, w, a);
    FailureKeepsHead(e, s, w, a);
    FailureIsRecorded(e, s, w);
    FailureFrame(e, s, w);
    hide Next, LinearHistory, NothingDeclared, RecoveryRequired, Wanted;
  }

  /** After a retryable failure with an attempt left, whichever idle worker prepares the same
      snapshot next is handed the same job for its next attempt. */
  lemma FailedAttemptIsRetried(e: Exporter, before: seq<Step>, w: nat, v: nat, a: Attempt, attempts: MaxAttempts, seconds: LeaseSeconds)
    requires MayRetry(e, Run(e, EMPTY, before), w, a) && StillWanted(Run(e, EMPTY, before), a)
    requires v == w || WorkerOf(Run(e, EMPTY, before), v).Idle?
    ensures var s := Run(e, EMPTY, before);
            var s1 := Next(e, s, SRecordFailure(w));
            && LinearHistory(s1)
            && HandedOut(e, s1, Next(e, s1, SPrepare(v, a.key.source, attempts, seconds)), v, a.job,
                         s.jobs[a.job].payload, s.jobs[a.job].attempts + 1, s.jobs[a.job].maxAttempts, seconds)
  {
    var s := Run(e, EMPTY, before);
    ReachableRows(e, before);
    NextKeeps(e, s, SRecordFailure(w));
    NextKeepsRows(e, s, SRecordFailure(w));
    RetryIsHandedOut(e, s, w, v, a, attempts, seconds);
  }

  lemma RetryIsHandedOut(e: Exporter, s: System, w: nat, v: nat, a: Attempt, attempts: MaxAttempts, seconds: LeaseSeconds)
    requires MayRetry(e, s, w, a) && AttemptKnown(s, a) && StillWanted(s, a) && (v == w || WorkerOf(s, v).Idle?)
    requires Dealt(Next(e, s, SRecordFailure(w))) && KeysUnique(Next(e, s, SRecordFailure(w)).jobs)
    ensures var s1 := Next(e, s, SRecordFailure(w));
            && LinearHistory(s1)
            && HandedOut(e, s1, Next(e, s1, SPrepare(v, a.key.source, attempts, seconds)), v, a.job,
                         s.jobs[a.job].payload, s.jobs[a.job].attempts + 1, s.jobs[a.job].maxAttempts, seconds)
  {
    FailureIsRecorded(e, s, w);
    FailureFrame(e, s, w);
    FailedJobIsDue(e, s, w, a);
    hide Next, HandedOut, LinearHistory, DueJob, Wanted, NothingDeclared, RecoveryRequired, MayRetry;
    PreparesExactly(e, Next(e, s, SRecordFailure(w)), v, a.key.source, attempts, seconds);
  }

  lemma NothingPublishedYet(e: Exporter, s: System, w: nat, source: nat)
    requires s.jobs == map[] && s.records == map[] && WorkerOf(s, w).Idle?
    ensures CanStart(e, s, w, source) && NewJob(e, s, source) && CurrentHead(s) == None
  {
    NothingPublished(s);
  }

  /** Such retries happen: the first attempt of all fails, and the same worker gets a second. */
  lemma FirstFailureIsRetried(e: Exporter, source: nat, attempts: MaxAttempts, seconds: LeaseSeconds)
    requires attempts > 1
    ensures var prepare := SPrepare(0, source, attempts, seconds);
            var s := Run(e, EMPTY, [prepare, SRaise(0, true)] + [SRecordFailure(0), prepare]);
            && 0 in s.jobs && s.jobs[0].status.Running? && s.jobs[0].attempts == 2
            && s.jobs[0].payload == Publication(Key(source, None), Base)
            && WorkerOf(s, 0).Prepared? && WorkerOf(s, 0).attempt.job == 0
  {
    var prepare := SPrepare(0, source, attempts, seconds);
    var s1 := Next(e, EMPTY, prepare);
    var s2 := Next(e, s1, SRaise(0, true));
    NothingPublishedYet(e, EMPTY, 0, source);
    PreparesExactly(e, EMPTY, 0, source, attempts, seconds);
    RunTwo(e, EMPTY, prepare, SRaise(0, true));
    RaisedOnce(e, s1, source, attempts, seconds);
    ReachableRows(e, [prepare, SRaise(0, true)]);
    NextKeeps(e, s2, SRecordFailure(0));
    NextKeepsRows(e, s2, SRecordFailure(0));
    RetryIsHandedOut(e, s2, 0, 0, s1.workers[0].attempt, attempts, seconds);
    RunTwo(e, s2, SRecordFailure(0), prepare);
    RunAppend(e, EMPTY, [prepare, SRaise(0, true)], [SRecordFailure(0), prepare]);
  }

  lemma RaisedOnce(e: Exporter, s1: System, source: nat, attempts: MaxAttempts, seconds: LeaseSeconds)
    requires attempts > 1 && LinearHistory(EMPTY) && CurrentHead(EMPTY) == None
    requires HandedOut(e, EMPTY, s1, 0, 0, Publication(Key(source, None), Base), 1, attempts, seconds)
    ensures var a, s2 := s1.workers[0].attempt, Next(e, s1, SRaise(0, true));
            && MayRetry(e, s2, 0, a) && AttemptKnown(s2, a) && StillWanted(s2, a)
            && s2.jobs[0].payload == Publication(Key(source, None), Base) && s2.jobs[0].attempts == 1 && a.job == 0
  {
    var s2 := Next(e, s1, SRaise(0, true));
    NothingPublished(s2);
  }
}
