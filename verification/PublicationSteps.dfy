/** What single steps of the protocol do, exactly: the rows a claim leaves, the fence against
    the tree on disk, and the decision and conclusion of a recovery scan. */
module PublicationSteps {
  import opened Wrappers
  import opened Jobs
  import opened PublicationHead
  import opened PublicationChain
  import opened PublicationSafety
  import opened PublicationRuns
  import opened PublicationBranching
  import opened PublicationSplit
  import opened PublicationRecovery
  import opened PublicationProgress
  import JobHistory

  // ----- Rows that cannot be claimed -----

  /** What becomes of a row that is not due: nothing, except that a dead holder without
      attempts ends it.  The running records of an ended row fail for good, and finished ones
      stay.  An ended row that should have records and has none is not written at all. */
  ghost predicate LeftUnclaimed(e: Exporter, s: System, s': System, w: nat, j: JobId)
    requires j in s.jobs
  {
    var row, source, dead := s.jobs[j], s.jobs[j].payload.key.source, JobHistory.Dead(s.jobs[j], s.now);
    var ended := dead || row.status.FailedTerminal? || row.status.Cancelled?;
    && s'.workers == s.workers[w := Idle(true)] && s'.disk == s.disk && s'.nextToken == s.nextToken && s'.nextJob == s.nextJob
    && if ended && e.recorded(source) && source !in s.records then s'.jobs == s.jobs && s'.records == s.records
       else
         && j in s'.jobs && s'.jobs == s.jobs[j := s'.jobs[j]]
         && (if dead then s'.jobs[j].status.FailedTerminal? && s'.jobs[j].lease == None && s'.jobs[j].payload == row.payload
             else s'.jobs[j] == row)
         && s'.records == if ended && e.recorded(source) && !s.records[source].RecordSucceeded?
                          then s.records[source := RecordFailed(false)] else s.records
  }

  lemma UndueRowIsLeft(e: Exporter, s: System, w: nat, j: JobId, seconds: LeaseSeconds)
    requires LinearHistory(s) && j in s.jobs && !JobHistory.Due(s.jobs[j], s.now)
    ensures LeftUnclaimed(e, s, ClaimRow(e, s, w, j, s.jobs[j], Head(s), seconds), w, j)
  {
    JobHistory.ClaimIsGrantedWhenDue(s.jobs[j], w, s.nextToken, seconds, s.now);
    var source := s.jobs[j].payload.key.source;
    if source in s.records { assert s.records[source := s.records[source]] == s.records; }
  }

  lemma BusyRecordsUndoClaim(e: Exporter, s: System, w: nat, j: JobId, seconds: LeaseSeconds)
    requires LinearHistory(s) && j in s.jobs && JobHistory.Due(s.jobs[j], s.now)
    requires !Startable(e, s, s.jobs[j].payload.key.source, s.jobs[j].attempts == 0)
    ensures ClaimRow(e, s, w, j, s.jobs[j], Head(s), seconds) == Become(s, w, Idle(true))
  {
    JobHistory.ClaimIsGrantedWhenDue(s.jobs[j], w, s.nextToken, seconds, s.now);
  }

  /** Preparing a snapshot whose unfinished job is not due leaves that row unclaimed; if it is
      due but its records are in the way, nothing but the worker changes. */
  lemma UndueJobIsLeft(e: Exporter, s: System, w: nat, source: nat, j: JobId, attempts: MaxAttempts, seconds: LeaseSeconds)
    requires KeysUnique(s.jobs) && Dealt(s) && WorkerOf(s, w).Idle? && LinearHistory(s) && !RecoveryRequired(s.jobs)
    requires (WorkerOf(s, w).scan ==> NothingDeclared(s)) && Wanted(s, source)
    requires j in s.jobs && s.jobs[j].payload.key == Key(source, CurrentHead(s)) && !s.jobs[j].status.Succeeded?
    ensures var s' := Next(e, s, SPrepare(w, source, attempts, seconds));
            && (!JobHistory.Due(s.jobs[j], s.now) ==> LeftUnclaimed(e, s, s', w, j))
            && (JobHistory.Due(s.jobs[j], s.now) && !Startable(e, s, source, s.jobs[j].attempts == 0) ==> s' == Become(s, w, Idle(true)))
  {
    PrepareClaims(e, s, w, source, attempts, seconds);
    FoundIsUnique(s, Key(source, CurrentHead(s)), j);
    hide Prepare, ClaimRow, LeftUnclaimed;
    if !JobHistory.Due(s.jobs[j], s.now) {
      UndueRowIsLeft(e, s, w, j, seconds);
    } else if !Startable(e, s, source, s.jobs[j].attempts == 0) {
      BusyRecordsUndoClaim(e, s, w, j, seconds);
    }
  }

  // ----- The fence, the scan and its conclusion -----

  /** The fence lets an attempt through exactly on the tree it was prepared on, or, unless
      the snapshot preserves content, on the very tree it is about to publish. */
  lemma FenceIsExact(disk: Option<Identity>, expected: Option<Identity>, desired: Identity, preserving: bool)
    ensures FenceAccepts(disk, expected, desired, preserving) <==>
            disk == expected || (disk == Some(desired) && !preserving)
  {
  }

  /** A whole scan decides by the candidates whose declared tree is on disk: with none its
      worker may prepare, a single dead one it goes on to complete, and otherwise it stops. */
  lemma ScanDecides(e: Exporter, s: System, w: nat, todo: seq<Candidate>)
    requires w in s.workers && s.workers[w] == Scanning(todo, [])
    ensures var found := Matching(todo, s.disk);
            Run(e, s, Validations(w, |todo|) + [SValidate(w)]) ==
            Become(s, w, if found == [] then Idle(false)
                         else if |found| == 1 && !Live(found[0].row, s.now) then Recovering(found[0])
                         else Idle(true))
  {
    hide Matching, Validations, Validate, Live;
    var found := Matching(todo, s.disk);
    var s1 := Become(s, w, Scanning([], found));
    assert Become(s, w, Scanning(todo, [])) == s;
    assert [] + found == found;
    ValidateAll(e, s, w, todo, []);
    RunCons(e, s1, SValidate(w), []);
    RunThrough(e, s, Validations(w, |todo|), s1, [SValidate(w)], Validate(s1, w));
    FoundDecides(s, w, found);
  }

  lemma FoundDecides(s: System, w: nat, found: seq<Candidate>)
    ensures Validate(Become(s, w, Scanning([], found)), w) ==
            Become(s, w, if found == [] then Idle(false)
                         else if |found| == 1 && !Live(found[0].row, s.now) then Recovering(found[0])
                         else Idle(true))
  {
  }

  /** A scanned job is completed as its declared tree exactly if its row still declares it and
      may be completed, and its records never finished or name this very tree; otherwise
      neither is touched. */
  lemma CandidateIsCompleted(e: Exporter, s: System, w: nat, c: Candidate)
    requires WorkerOf(s, w) == Recovering(c)
    ensures var s', source := Next(e, s, SFinalizeRecovered(w)), c.row.payload.key.source;
            && s'.workers == s.workers[w := Idle(true)] && s'.disk == s.disk
            && if && c.job in s.jobs && s.jobs[c.job].payload == c.row.payload && c.row.payload.body.Intent?
                  && s.jobs[c.job].attempts >= 1 && !s.jobs[c.job].status.Succeeded? && !s.jobs[c.job].status.Cancelled?
                  && (s.jobs[c.job].status.Claimed? || s.jobs[c.job].status.Running? ==> JobHistory.Dead(s.jobs[c.job], s.now))
                  && (e.recorded(source) ==> source in s.records)
                  && (e.recorded(source) && s.records[source].RecordSucceeded? ==> s.records[source].tree == c.row.payload.body.identity.tree)
               then s' == Completed(e, s, w, c.job, c.row.payload.body.identity)
               else s'.jobs == s.jobs && s'.records == s.records
  {
    if c.job in s.jobs {
      var row := s.jobs[c.job];
      JobHistory.SuccessorIsGranted(row, Lease(0, 0, 0), Queued, 0, 0, 0, row.payload, s.now);
    }
  }

  /** Finishing an attempt completes its job as the published tree, and its record with it,
      exactly under the live lease of the running job and on its own running record.
      Otherwise neither is touched. */
  lemma AttemptIsCompleted(e: Exporter, s: System, w: nat, a: Attempt, id: Identity)
    requires WorkerOf(s, w) == Published(a, id)
    ensures var s' := Next(e, s, SFinalize(w));
            && s'.disk == s.disk && s'.nextToken == s.nextToken
            && if LeaseIsLive(s, w, a) && s.jobs[a.job].status.Running? && RecordIsHeld(e, s, a) then
                 && s'.workers == s.workers[w := Idle(true)] && s'.jobs == s.jobs[a.job := Done(s.jobs[a.job], id)]
                 && s'.records == if e.recorded(a.key.source) && a.reused == None
                                  then s.records[a.key.source := RecordSucceeded(id.tree)] else s.records
               else s'.jobs == s.jobs && s'.records == s.records
  {
    if a.job in s.jobs {
      var row := s.jobs[a.job];
      JobHistory.HolderIsGranted(row, w, a.token, 0, row.payload.(body := Result(id)), false, s.now);
    }
  }
}
