/** A tree that reached disk before its job finished is never lost, and which exporters
    meet the condition for linear histories. */
module PublicationRecovery {
  import opened Wrappers
  import opened Jobs
  import opened PublicationHead
  import opened PublicationChain
  import opened PublicationSafety
  import opened PublicationRuns
  import opened PublicationBranching
  import opened PublicationSplit

  // ----- Who owns the tree on disk -----

  /** An unfinished successor of the head whose declared tree is on disk. */
  ghost predicate Claims(s: System, head: Option<JobId>, j: JobId) {
    IsPending(s.jobs, head, j) && s.jobs[j].payload.body.Intent? && s.disk == Some(s.jobs[j].payload.body.identity)
  }

  /** The tree on disk is the head's, or that of exactly one durable intent to succeed it. */
  ghost predicate DiskAccounted(s: System) {
    && ResultsRecorded(s.jobs)
    && var r := ResolveHead(AnchorsOf(s.jobs));
    && r.Resolved?
    && (s.disk == AnchorIdentity(r.head) <==> !exists j :: Claims(s, AnchorId(r.head), j))
    && (forall i, j :: Claims(s, AnchorId(r.head), i) && Claims(s, AnchorId(r.head), j) ==> i == j)
  }

  lemma ClaimIsOwnTree(e: Exporter, s: System, chain: seq<JobId>, sources: seq<nat>, j: JobId)
    requires |sources| == |chain| && RowsOk(e, s, chain, sources) && Claims(s, HeadOf(chain), j)
    ensures s.disk == Some(KeyId(e, chain, sources, s.jobs[j].payload.key))
  {
    assert RowOk(e, chain, sources, s.jobs[j]);
  }

  lemma ClaimIsUnique(e: Exporter, s: System, chain: seq<JobId>, sources: seq<nat>, i: JobId, j: JobId)
    requires Separating(e) && StampsSource(e) && Inv(e, s, chain, sources)
    requires Claims(s, HeadOf(chain), i) && Claims(s, HeadOf(chain), j)
    ensures i == j
  {
    ClaimIsOwnTree(e, s, chain, sources, i);
    ClaimIsOwnTree(e, s, chain, sources, j);
    DiskOwnerIsUnique(e, s, chain, sources, i, j);
  }

  lemma ClaimExcludesHead(e: Exporter, s: System, chain: seq<JobId>, sources: seq<nat>)
    requires Separating(e) && StampsSource(e) && Inv(e, s, chain, sources)
    ensures s.disk == Id(e, sources) <==> !exists j :: Claims(s, HeadOf(chain), j)
  {
    if j :| Claims(s, HeadOf(chain), j) {
      OwnerTreeIsNew(e, s, chain, sources, j);
    } else if s.disk != Id(e, sources) {
      var j :| OwnsDisk(s, chain, j);
      assert Claims(s, HeadOf(chain), j);
    }
  }

  /** In every reachable state recovery knows what is on disk. */
  lemma DiskIsAccountedFor(e: Exporter, steps: seq<Step>)
    requires Separating(e) && StampsSource(e)
    ensures DiskAccounted(Run(e, EMPTY, steps))
  {
    var s := Run(e, EMPTY, steps);
    EmptyOk(e);
    var chain, sources := RunOk(e, EMPTY, steps, [], []);
    var head := LoadedHead(e, s, chain, sources);
    ClaimExcludesHead(e, s, chain, sources);
    forall i, j | Claims(s, HeadOf(chain), i) && Claims(s, HeadOf(chain), j) ensures i == j {
      ClaimIsUnique(e, s, chain, sources, i, j);
    }
  }

  /** The exact condition: recovery knows what is on disk after every run if and only if the
      exporter is separating. */
  lemma AccountedIffSeparating(e: Exporter)
    requires StampsSource(e)
    ensures (forall steps :: DiskAccounted(Run(e, EMPTY, steps))) <==> Separating(e)
  {
    if Separating(e) {
      forall steps ensures DiskAccounted(Run(e, EMPTY, steps)) {
        DiskIsAccountedFor(e, steps);
      }
    } else {
      var steps := BranchingRun(e);
      SplitIsNotLinear(Run(e, EMPTY, steps));
      assert !DiskAccounted(Run(e, EMPTY, steps));
    }
  }

  // ----- The recovery loop -----

  function Matching(todo: seq<Candidate>, disk: Option<Identity>): seq<Candidate> {
    if todo == [] then []
    else (if todo[0].row.payload.body.Intent? && disk == Some(todo[0].row.payload.body.identity) then [todo[0]] else [])
         + Matching(todo[1..], disk)
  }

  lemma MatchingCons(c: Candidate, rest: seq<Candidate>, disk: Option<Identity>)
    ensures Matching([c] + rest, disk) ==
            (if c.row.payload.body.Intent? && disk == Some(c.row.payload.body.identity) then [c] else []) + Matching(rest, disk)
  {
    assert ([c] + rest)[0] == c && ([c] + rest)[1..] == rest;
  }

  lemma {:induction false} MatchingSnoc(todo: seq<Candidate>, c: Candidate, disk: Option<Identity>)
    ensures Matching(todo + [c], disk) == Matching(todo, disk) + Matching([c], disk)
  {
    if todo == [] {
      assert todo + [c] == [c];
    } else {
      assert todo == [todo[0]] + todo[1..] && todo + [c] == [todo[0]] + (todo[1..] + [c]);
      MatchingCons(todo[0], todo[1..], disk);
      MatchingCons(todo[0], todo[1..] + [c], disk);
      hide Matching;
      MatchingSnoc(todo[1..], c, disk);
    }
  }

  /** Of everything the scan finds, only the owner of the disk matches. */
  lemma {:induction false} OnlyOwnerMatches(s: System, head: Option<JobId>, j: JobId, n: nat)
    requires Claims(s, head, j) && forall i :: Claims(s, head, i) ==> i == j
    ensures Matching(Recoverable(s.jobs, head, n), s.disk) == if j < n then [Candidate(j, s.jobs[j])] else []
  {
    if n > 0 {
      OnlyOwnerMatches(s, head, j, n - 1);
      if IsPending(s.jobs, head, n - 1) && s.jobs[n - 1].payload.body.Intent? {
        var c := Candidate(n - 1, s.jobs[n - 1]);
        MatchingSnoc(Recoverable(s.jobs, head, n - 1), c, s.disk);
        MatchingOne(c, s.disk);
        assert Claims(s, head, n - 1) <==> s.disk == Some(c.row.payload.body.identity);
      } else {
        assert Recoverable(s.jobs, head, n - 1) + [] == Recoverable(s.jobs, head, n - 1);
        assert n - 1 != j;
      }
    }
  }

  lemma MatchingOne(c: Candidate, disk: Option<Identity>)
    ensures Matching([c], disk) == if c.row.payload.body.Intent? && disk == Some(c.row.payload.body.identity) then [c] else []
  {
    assert [c][1..] == [];
  }

  function Validations(w: nat, n: nat): seq<Step> {
    if n == 0 then [] else [SValidate(w)] + Validations(w, n - 1)
  }

  lemma {:induction false} ValidateAll(e: Exporter, s: System, w: nat, todo: seq<Candidate>, matching: seq<Candidate>)
    requires w in s.workers
    ensures Run(e, Become(s, w, Scanning(todo, matching)), Validations(w, |todo|))
         == Become(s, w, Scanning([], matching + Matching(todo, s.disk)))
    decreases |todo|
  {
    if todo == [] {
      assert matching + [] == matching;
    } else {
      var more := matching + Matching([todo[0]], s.disk);
      MatchingTail(todo, matching, s.disk);
      hide Matching, Validate;
      ValidateStep(s, w, todo, matching);
      RunCons(e, Become(s, w, Scanning(todo, matching)), SValidate(w), Validations(w, |todo| - 1));
      ValidateAll(e, s, w, todo[1..], more);
    }
  }

  lemma MatchingTail(todo: seq<Candidate>, matching: seq<Candidate>, disk: Option<Identity>)
    requires todo != []
    ensures (matching + Matching([todo[0]], disk)) + Matching(todo[1..], disk) == matching + Matching(todo, disk)
  {
    MatchingOne(todo[0], disk);
    assert todo == [todo[0]] + todo[1..];
    MatchingCons(todo[0], todo[1..], disk);
  }

  lemma ValidateStep(s: System, w: nat, todo: seq<Candidate>, matching: seq<Candidate>)
    requires w in s.workers && todo != []
    ensures Validate(Become(s, w, Scanning(todo, matching)), w)
         == Become(s, w, Scanning(todo[1..], matching + Matching([todo[0]], s.disk)))
  {
    MatchingOne(todo[0], s.disk);
    assert matching + [] == matching;
  }

  predicate Live(row: ExportJob, now: nat) {
    (row.status.Claimed? || row.status.Running?) && (row.lease == None || now < row.lease.value.expires)
  }

  lemma RecoverStepOf(s: System, w: nat, c: Candidate)
    requires w in s.workers && !Live(c.row, s.now)
    ensures Validate(Become(s, w, Scanning([], [c])), w) == Become(s, w, Recovering(c))
  {
  }

  lemma FinishRecovery(e: Exporter, s: System, w: nat, c: Candidate, id: Identity)
    requires w in s.workers && c.job in s.jobs && s.jobs[c.job] == c.row
    requires !Live(c.row, s.now) && !c.row.status.Succeeded? && !c.row.status.Cancelled?
    requires c.row.attempts >= 1 && c.row.payload.body == Intent(id)
    requires RecordsRecoverable(e, s, c.row.payload.key.source, id.tree)
    ensures FinalizeRecovered(e, Become(s, w, Recovering(c)), w) == Completed(e, s, w, c.job, id)
  {
  }

  lemma OwnerIsRecoverable(e: Exporter, s: System, chain: seq<JobId>, sources: seq<nat>, j: JobId)
    requires Inv(e, s, chain, sources) && Claims(s, HeadOf(chain), j)
    ensures RecordsRecoverable(e, s, s.jobs[j].payload.key.source, s.disk.value.tree)
    ensures s.jobs[j].attempts >= 1 && j < s.nextJob
  {
    var row := s.jobs[j];
    var source := row.payload.key.source;
    assert RowOk(e, chain, sources, row);
    HeadDepth(chain, row.payload.key);
    if source in sources {
      var i :| 0 <= i < |sources| && sources[i] == source;
      assert RecordAt(e, s.records, sources, i);
    }
  }

  /** Any idle worker completes exactly the owner of the disk, once its lease is dead: the
      chain gains that one job and the tree on disk becomes the head's. */
  lemma RecoveryCompletesOwner(e: Exporter, s: System, chain: seq<JobId>, sources: seq<nat>, j: JobId, w: nat, source: nat)
    returns (steps: seq<Step>)
    requires Separating(e) && StampsSource(e) && Inv(e, s, chain, sources)
    requires Claims(s, HeadOf(chain), j) && !Live(s.jobs[j], s.now) && !RecoveryRequired(s.jobs)
    requires w in s.workers && s.workers[w] == Idle(true)
    ensures Run(e, s, steps) == Completed(e, s, w, j, s.disk.value)
    ensures Inv(e, Run(e, s, steps), chain + [j], sources + [s.jobs[j].payload.key.source])
    ensures Run(e, s, steps).disk == s.disk == Id(e, sources + [s.jobs[j].payload.key.source])
  {
    var todo := Recoverable(s.jobs, HeadOf(chain), s.nextJob);
    OwnerIsRecoverable(e, s, chain, sources, j);
    forall i | Claims(s, HeadOf(chain), i) ensures i == j { ClaimIsUnique(e, s, chain, sources, i, j); }
    OnlyOwnerMatches(s, HeadOf(chain), j, s.nextJob);
    StartsRecovery(e, s, chain, sources, w, source, todo);
    steps := RecoveryRun(e, s, w, source, todo, Candidate(j, s.jobs[j]), s.disk.value);
    CompletedOk(e, s, chain, sources, w, j, Done(s.jobs[j], s.disk.value));
  }

  /** The head that the anchors of a linear history resolve to. */
  ghost function CurrentHead(s: System): Option<JobId>
    requires LinearHistory(s)
  {
    AnchorId(ResolveHead(AnchorsOf(s.jobs)).head)
  }

  /** The same over every reachable state: when the tree on disk belongs to a pending job
      with a dead lease, some steps of any idle worker make that job the head, with the tree
      on disk untouched. */
  lemma ReachableOwnerIsCompleted(e: Exporter, before: seq<Step>, j: JobId, w: nat, source: nat) returns (steps: seq<Step>)
    requires Separating(e) && StampsSource(e)
    requires var s := Run(e, EMPTY, before);
             && LinearHistory(s) && Claims(s, CurrentHead(s), j) && !Live(s.jobs[j], s.now) && !RecoveryRequired(s.jobs)
             && w in s.workers && s.workers[w] == Idle(true)
    ensures var s, s' := Run(e, EMPTY, before), Run(e, EMPTY, before + steps);
            && s' == Completed(e, s, w, j, s.disk.value) && s'.disk == s.disk
            && LinearHistory(s') && CurrentHead(s') == Some(j) && j in AnchorsOf(s'.jobs)
            && Some(AnchorsOf(s'.jobs)[j].identity) == s'.disk && AnchorsOf(s'.jobs)[j].predecessor == CurrentHead(s)
  {
    var s := Run(e, EMPTY, before);
    EmptyOk(e);
    var chain, sources := RunOk(e, EMPTY, before, [], []);
    var head := LoadedHead(e, s, chain, sources);
    steps := RecoveryCompletesOwner(e, s, chain, sources, j, w, source);
    RunAppend(e, EMPTY, before, steps);
    var s' := Run(e, s, steps);
    var head' := LoadedHead(e, s', chain + [j], sources + [s.jobs[j].payload.key.source]);
    InvIsLinear(e, s', chain + [j], sources + [s.jobs[j].payload.key.source]);
    CompletedIsAnchor(e, s, w, j);
  }

  /** The first publication of worker 0, up to its durable intent. */
  function Declaring(source: nat): seq<Step> { [SPrepare(0, source, 1, 1), SRender(0), SRenew(0, 1)] }

  /** Job 0 alone, running under worker 0, declares `id`; nothing is published yet. */
  ghost predicate FirstDeclared(s: System, source: nat, id: Identity) {
    && s.jobs.Keys == {0} && s.disk == None && s.now == 0
    && s.jobs[0].payload == Publication(Key(source, None), Intent(id)) && s.jobs[0].status.Running?
    && s.jobs[0].lease.Some? && s.jobs[0].lease.value.expires == 1
    && 0 in s.workers && s.workers[0].Intended? && s.workers[0].identity == id && s.workers[0].fence == None
  }

  lemma DeclareFirst(e: Exporter, source: nat)
    requires StampsSource(e)
    ensures FirstDeclared(Run(e, EMPTY, Declaring(source)), source, e.render(source, None))
  {
    var key, id := Key(source, None), e.render(source, None);
    var a := ClaimedAttempt(e, EMPTY, key);
    EmptyPoised(e, []);
    PrepareCalm(e, EMPTY, [], [], None, 0, source);
    var s1 := AfterClaim(e, EMPTY, 0, key);
    var s2 := Become(s1, 0, Rendered(a, id, None));
    assert Next(e, s1, SRender(0)) == s2;
    RenewStep(e, s2, 0, a, id, None);
    RunTwo(e, s1, SRender(0), SRenew(0, 1));
    RunCons(e, EMPTY, SPrepare(0, source, 1, 1), [SRender(0), SRenew(0, 1)]);
    assert [SPrepare(0, source, 1, 1)] + [SRender(0), SRenew(0, 1)] == Declaring(source);
  }

  /** Such states exist for every exporter: a worker dies right after its tree reached disk. */
  lemma DeadOwnerIsReachable(e: Exporter, source: nat) returns (steps: seq<Step>)
    requires StampsSource(e)
    ensures var s := Run(e, EMPTY, steps);
            && LinearHistory(s) && Claims(s, CurrentHead(s), 0) && !Live(s.jobs[0], s.now) && !RecoveryRequired(s.jobs)
            && 0 in s.workers && s.workers[0] == Idle(true) && s.disk == Some(e.render(source, None))
  {
    var s, id := Run(e, EMPTY, Declaring(source)), e.render(source, None);
    DeclareFirst(e, source);
    var s1 := Become(s.(disk := Some(id)), 0, Published(s.workers[0].attempt, id));
    var s2 := Become(s1, 0, Idle(true)).(now := 1);
    PublishAndDie(e, s, source, id);
    RunAppend(e, EMPTY, Declaring(source), [SPublish(0, false), SCrash(0), STick(1)]);
    steps := Declaring(source) + [SPublish(0, false), SCrash(0), STick(1)];
    NothingPublished(s2);
  }

  lemma PublishAndDie(e: Exporter, s: System, source: nat, id: Identity)
    requires FirstDeclared(s, source, id)
    ensures Run(e, s, [SPublish(0, false), SCrash(0), STick(1)]) ==
            Become(Become(s.(disk := Some(id)), 0, Published(s.workers[0].attempt, id)), 0, Idle(true)).(now := 1)
  {
    var s1 := Become(s.(disk := Some(id)), 0, Published(s.workers[0].attempt, id));
    assert Next(e, s, SPublish(0, false)) == s1;
    RunTwo(e, s1, SCrash(0), STick(1));
    RunCons(e, s, SPublish(0, false), [SCrash(0), STick(1)]);
    assert [SPublish(0, false)] + [SCrash(0), STick(1)] == [SPublish(0, false), SCrash(0), STick(1)];
  }

  lemma NothingPublished(s: System)
    requires forall j :: j in s.jobs ==> !s.jobs[j].status.Succeeded?
    ensures LinearHistory(s) && CurrentHead(s) == None
  {
    assert AnchorsOf(s.jobs) == map[];
  }

  lemma CompletedIsAnchor(e: Exporter, s: System, w: nat, j: JobId)
    requires j in s.jobs && s.disk.Some? && ResultsRecorded(Completed(e, s, w, j, s.disk.value).jobs)
    ensures var anchors := AnchorsOf(Completed(e, s, w, j, s.disk.value).jobs);
            && j in anchors && anchors[j].identity == s.disk.value
            && anchors[j].predecessor == s.jobs[j].payload.key.predecessor
  {
  }

  lemma RecoveryRun(e: Exporter, s: System, w: nat, source: nat, todo: seq<Candidate>, c: Candidate, id: Identity)
    returns (steps: seq<Step>)
    requires w in s.workers && c.job in s.jobs && s.jobs[c.job] == c.row
    requires Next(e, s, SPrepare(w, source, 1, 1)) == Become(s, w, Scanning(todo, []))
    requires Matching(todo, s.disk) == [c]
    requires !Live(c.row, s.now) && !c.row.status.Succeeded? && !c.row.status.Cancelled?
    requires c.row.attempts >= 1 && c.row.payload.body == Intent(id)
    requires RecordsRecoverable(e, s, c.row.payload.key.source, id.tree)
    ensures Run(e, s, steps) == Completed(e, s, w, c.job, id)
  {
    hide Validate, FinalizeRecovered, Prepare, Matching, Completed, RecordsRecoverable, Live;
    var last := [SValidate(w), SFinalizeRecovered(w)];
    var s1, s2 := Become(s, w, Scanning(todo, [])), Become(s, w, Scanning([], [c]));
    ValidateAll(e, s, w, todo, []);
    assert [] + Matching(todo, s.disk) == [c];
    RecoverStepOf(s, w, c);
    FinishRecovery(e, s, w, c, id);
    RunTwo(e, s2, SValidate(w), SFinalizeRecovered(w));
    RunThrough(e, s1, Validations(w, |todo|), s2, last, Completed(e, s, w, c.job, id));
    RunCons(e, s, SPrepare(w, source, 1, 1), Validations(w, |todo|) + last);
    steps := [SPrepare(w, source, 1, 1)] + (Validations(w, |todo|) + last);
  }

  lemma StartsRecovery(e: Exporter, s: System, chain: seq<JobId>, sources: seq<nat>, w: nat, source: nat, todo: seq<Candidate>)
    requires ChainOk(s.jobs, chain, sources) && RowsOk(e, s, chain, sources) && !RecoveryRequired(s.jobs)
    requires WorkerOf(s, w) == Idle(true) && todo == Recoverable(s.jobs, HeadOf(chain), s.nextJob) && todo != []
    ensures Next(e, s, SPrepare(w, source, 1, 1)) == Become(s, w, Scanning(todo, []))
  {
    var head := LoadedHead(e, s, chain, sources);
  }

  // ----- Cancelled intents -----

  /** Once a cancelled job declares a tree, the target stands still for good: over every
      later run whatever a worker prepares, nothing but that worker's memory changes. */
  lemma CancelledIntentStopsForGood(e: Exporter, before: seq<Step>, after: seq<Step>, w: nat, source: nat,
                                    attempts: MaxAttempts, seconds: LeaseSeconds)
    requires RecoveryRequired(Run(e, EMPTY, before).jobs)
    ensures var s := Run(e, EMPTY, before + after);
            RecoveryRequired(s.jobs) &&
            (WorkerOf(s, w).Idle? ==> Next(e, s, SPrepare(w, source, attempts, seconds)) == Become(s, w, Idle(true)))
  {
    var s := Run(e, EMPTY, before);
    RunKeeps(e, EMPTY, before);
    RunKeeps(e, s, after);
    RunAppend(e, EMPTY, before, after);
    var j :| j in s.jobs && s.jobs[j].status.Cancelled? && s.jobs[j].payload.body.Intent?;
    assert Run(e, s, after).jobs[j] == s.jobs[j];
  }

  /** Cancelling the very first publication after its intent leads there. */
  lemma CancelledIntentIsReachable(e: Exporter, source: nat) returns (steps: seq<Step>)
    requires StampsSource(e)
    ensures RecoveryRequired(Run(e, EMPTY, steps).jobs)
  {
    var s := Run(e, EMPTY, Declaring(source));
    DeclareFirst(e, source);
    CancelDeclared(e, s, 0);
    RunCons(e, s, SCancel(0), []);
    RunAppend(e, EMPTY, Declaring(source), [SCancel(0)]);
    steps := Declaring(source) + [SCancel(0)];
  }

  lemma CancelDeclared(e: Exporter, s: System, j: JobId)
    requires j in s.jobs && s.jobs[j].status.Running? && s.jobs[j].payload.body.Intent?
    ensures RecoveryRequired(Next(e, s, SCancel(j)).jobs)
  {
    EnvironmentStep(e, s, SCancel(j));
    var jobs := Next(e, s, SCancel(j)).jobs;
    assert j in jobs && jobs[j].status.Cancelled? && jobs[j].payload.body.Intent?;
  }

  predicate NoneCancelled(jobs: JobTable) { forall j :: j in jobs ==> !jobs[j].status.Cancelled? }

  lemma ClaimCancelsNone(e: Exporter, s: System, w: nat, id: JobId, row: ExportJob, head: Option<Anchor>, seconds: LeaseSeconds)
    requires NoneCancelled(s.jobs) && !row.status.Cancelled?
    ensures NoneCancelled(ClaimRow(e, s, w, id, row, head, seconds).jobs)
  {
  }

  lemma PrepareCancelsNone(e: Exporter, s: System, w: nat, source: nat, attempts: MaxAttempts, seconds: LeaseSeconds)
    requires NoneCancelled(s.jobs)
    ensures NoneCancelled(Prepare(e, s, w, source, attempts, seconds).jobs)
  {
    hide ClaimRow;
    match LoadState(s.jobs, s.nextJob)
    case LoadError =>
    case Loaded(head, _) =>
      var key := Key(source, AnchorId(head));
      if !Exists(s.jobs, key) {
        ClaimCancelsNone(e, s, w, s.nextJob, Enqueued(Publication(key, Base), attempts, s.now), head, seconds);
      } else {
        ClaimCancelsNone(e, s, w, FindByKey(s.jobs, key), s.jobs[FindByKey(s.jobs, key)], head, seconds);
      }
  }

  lemma WorkerCancelsNone(e: Exporter, s: System, w: nat, seconds: LeaseSeconds)
    requires NoneCancelled(s.jobs)
    ensures NoneCancelled(Renew(s, w, seconds).jobs) && NoneCancelled(Finalize(e, s, w).jobs)
  {
  }

  lemma EndCancelsNone(e: Exporter, s: System, w: nat)
    requires NoneCancelled(s.jobs)
    ensures NoneCancelled(RecordFailure(e, s, w).jobs) && NoneCancelled(FinalizeRecovered(e, s, w).jobs)
  {
  }

  lemma StepCancelsNone(e: Exporter, s: System, step: Step)
    requires NoneCancelled(s.jobs) && !step.SCancel?
    ensures NoneCancelled(Next(e, s, step).jobs)
  {
    if step.SPrepare? {
      PrepareCancelsNone(e, s, step.w, step.source, step.attempts, step.seconds);
    } else if step.SRenew? {
      WorkerCancelsNone(e, s, step.w, step.seconds);
    } else if step.SFinalize? {
      WorkerCancelsNone(e, s, step.w, 1);
    } else if step.SRecordFailure? || step.SFinalizeRecovered? {
      EndCancelsNone(e, s, step.w);
    } else if Environment(step) {
      EnvironmentStep(e, s, step);
    }
  }

  lemma {:induction false} RunCancelsNone(e: Exporter, s: System, steps: seq<Step>)
    requires NoneCancelled(s.jobs) && forall i :: 0 <= i < |steps| ==> !steps[i].SCancel?
    ensures NoneCancelled(Run(e, s, steps).jobs)
    decreases |steps|
  {
    if steps != [] {
      StepCancelsNone(e, s, steps[0]);
      RunCancelsNone(e, Next(e, s, steps[0]), steps[1..]);
    }
  }

  /** As long as nobody cancels an export job, recovery is never blocked. */
  lemma OnlyCancellationStops(e: Exporter, steps: seq<Step>)
    requires forall i :: 0 <= i < |steps| ==> !steps[i].SCancel?
    ensures !RecoveryRequired(Run(e, EMPTY, steps).jobs)
  {
    RunCancelsNone(e, EMPTY, steps);
  }

  // ----- Which exporters are separating -----

  /** A snapshot that carries no content over is rendered from itself alone; only preserving
      snapshots copy files of the published predecessor. */
  ghost predicate CarriesOverOnlyPreserved(e: Exporter) {
    forall s, p :: !e.preserving(s) ==> e.render(s, p) == e.render(s, None)
  }

  ghost predicate Injective(e: Exporter) {
    forall s, p, s', p' :: e.render(s, p) == e.render(s', p') ==> s == s' && p == p'
  }

  lemma CollisionRefutes(e: Exporter, p: seq<nat>, s: nat, rival: seq<nat>)
    requires rival != [] && rival != [s] && Admissible(p + [s]) && Admissible(p + rival) && Consistent(e, p + rival)
    requires Id(e, p + [s]) == Id(e, p + rival)
    ensures !Separating(e)
  {
  }

  lemma TwoEdits(e: Exporter, a: nat, b: nat)
    requires a != b
    ensures Admissible([] + [b]) && Admissible([] + [a, b]) && Consistent(e, [] + [a, b])
    ensures Id(e, [] + [b]) == Some(e.render(b, None))
    ensures Id(e, [] + [a, b]) == Some(e.render(b, Some(e.render(a, None))))
  {
    TwoEditsAreConsistent(e, a, b);
    hide Consistent, Admissible;
    IdSnoc(e, [], b);
    IdSnoc(e, [], a);
    IdSnoc(e, [a], b);
    assert [] + [a] == [a] && [a] + [b] == [] + [a, b];
  }

  lemma TwoEditsAreConsistent(e: Exporter, a: nat, b: nat)
    requires a != b
    ensures Admissible([] + [b]) && Admissible([] + [a, b]) && Consistent(e, [] + [a, b])
  {
    hide PublishedId;
    var t := [] + [a, b];
    assert t[0] == a && t[1] == b;
    forall i, k | 0 <= i < k < |t| ensures RendersAlike(e, t, i, k) {}
  }

  /** One edit whose revert shows the first tree again is enough. */
  lemma EditAndRevertCollide(e: Exporter, a: nat, b: nat)
    requires a != b && e.render(b, Some(e.render(a, None))) == e.render(b, None)
    ensures !Separating(e)
  {
    hide Separating, Id, Admissible, Consistent;
    TwoEdits(e, a, b);
    assert [a, b] != [b];
    CollisionRefutes(e, [], b, [a, b]);
  }

  /** Editing a complete snapshot and reverting the edit repeats its identity, whatever the
      edit was and whatever other snapshots preserve: some run splits the history. */
  lemma EditAndRevertSplits(e: Exporter, b: nat) returns (steps: seq<Step>)
    requires StampsSource(e) && CarriesOverOnlyPreserved(e) && !e.preserving(b)
    ensures !Separating(e) && IsSplit(Run(e, EMPTY, steps).jobs)
  {
    EditAndRevertCollide(e, b + 1, b);
    hide Separating, CarriesOverOnlyPreserved, StampsSource, Run;
    steps := BranchingRun(e);
  }

  /** So the history is linear over all runs only if every snapshot preserves content. */
  lemma LinearOnlyIfAllPreserve(e: Exporter)
    requires StampsSource(e) && CarriesOverOnlyPreserved(e)
    requires forall steps :: LinearHistory(Run(e, EMPTY, steps))
    ensures forall b :: e.preserving(b)
  {
    forall b ensures e.preserving(b) {
      if !e.preserving(b) {
        var steps := EditAndRevertSplits(e, b);
        SplitIsNotLinear(Run(e, EMPTY, steps));
        assert false;
      }
    }
  }

  lemma {:induction false} InjectiveIds(e: Exporter, a: seq<nat>, b: seq<nat>)
    requires Injective(e) && Id(e, a) == Id(e, b)
    ensures a == b
    decreases |a|
  {
    if a != [] && b != [] {
      InjectiveIds(e, a[..|a| - 1], b[..|b| - 1]);
      assert a == a[..|a| - 1] + [a[|a| - 1]] && b == b[..|b| - 1] + [b[|b| - 1]];
    }
  }

  /** Identities that embed their whole history keep every run linear. */
  lemma InjectiveIsLinear(e: Exporter, steps: seq<Step>)
    requires StampsSource(e) && Injective(e)
    ensures Separating(e) && LinearHistory(Run(e, EMPTY, steps))
  {
    forall p: seq<nat>, s: nat, rival: seq<nat> |
      rival != [] && rival != [s] && Admissible(p + [s]) && Admissible(p + rival) && Consistent(e, p + rival)
      ensures Id(e, p + [s]) != Id(e, p + rival)
    {
      SuffixDiffers(p, [s], rival);
      if Id(e, p + [s]) == Id(e, p + rival) { InjectiveIds(e, p + [s], p + rival); }
    }
    SeparatingRunsAreLinear(e, steps);
  }

  // ----- Such exporters exist -----

  function Triangle(n: nat): nat { if n == 0 then 0 else n + Triangle(n - 1) }

  /** Cantor's pairing. */
  function Pair(a: nat, b: nat): nat { Triangle(a + b) + b }

  lemma {:induction false} TriangleGrows(m: nat, n: nat)
    requires m < n
    ensures Triangle(m) + m + 1 <= Triangle(n)
  {
    if m + 1 < n { TriangleGrows(m, n - 1); }
  }

  lemma PairTells(a: nat, b: nat, c: nat, d: nat)
    requires Pair(a, b) == Pair(c, d)
    ensures a == c && b == d
  {
    if a + b < c + d { TriangleGrows(a + b, c + d); }
    if c + d < a + b { TriangleGrows(c + d, a + b); }
  }

  /** A tree that names the whole history it stands on. */
  function Embedding(s: nat, p: Option<Identity>): Identity {
    Identity(s, if p == None then 0 else 1 + Pair(p.value.source, p.value.tree))
  }

  /** Whatever snapshots preserve or record, some exporter meets the conditions above. */
  lemma EmbeddingIsSeparating(preserving: nat -> bool, recorded: nat -> bool)
    ensures var e := Exporter(Embedding, preserving, recorded);
            StampsSource(e) && Injective(e) && Separating(e)
  {
    var e := Exporter(Embedding, preserving, recorded);
    forall s, p, s', p' | e.render(s, p) == e.render(s', p') ensures s == s' && p == p' {
      if p.Some? && p'.Some? { PairTells(p.value.source, p.value.tree, p'.value.source, p'.value.tree); }
    }
    InjectiveIsLinear(e, []);
  }

  lemma SuffixDiffers(p: seq<nat>, a: seq<nat>, b: seq<nat>)
    requires a != b
    ensures p + a != p + b
  {
    assert (p + a)[|p|..] == a && (p + b)[|p|..] == b;
  }

  // ----- Fresh identities along every history are not enough -----

  /** Each tree number is above its predecessor's, so no history repeats an identity. */
  function Counting(s: nat, p: Option<Identity>): Identity {
    Identity(s, if p.Some? then p.value.tree + 1 else if s == 1 then 2 else 1)
  }

  const COUNTING := Exporter(Counting, s => true, s => false)

  lemma {:induction false} CountingGrows(path: seq<nat>, i: nat)
    requires i < |path|
    ensures i > 0 ==> Id(COUNTING, path[..i]).value.tree < Id(COUNTING, path).value.tree
    ensures Id(COUNTING, path[..i]) != Id(COUNTING, path)
    decreases |path|
  {
    var front := path[..|path| - 1];
    if i < |path| - 1 {
      CountingGrows(front, i);
      assert front[..i] == path[..i];
    } else {
      assert front == path[..i];
    }
  }

  lemma CountingCollides()
    ensures !Separating(COUNTING)
  {
    hide Separating, Id, Admissible, Consistent;
    TwoEdits(COUNTING, 2, 1);
    CollisionRefutes(COUNTING, [], 1, [2, 1]);
  }

  /** Identities fresh along every single history do not keep the histories linear. */
  lemma FreshHistoriesAreNotEnough() returns (steps: seq<Step>)
    ensures forall path: seq<nat>, i: nat :: i < |path| ==> Id(COUNTING, path[..i]) != Id(COUNTING, path)
    ensures StampsSource(COUNTING) && CarriesOverOnlyPreserved(COUNTING) && IsSplit(Run(COUNTING, EMPTY, steps).jobs)
  {
    forall path: seq<nat>, i: nat | i < |path| ensures Id(COUNTING, path[..i]) != Id(COUNTING, path) {
      CountingGrows(path, i);
    }
    CountingCollides();
    hide Separating, Run;
    steps := BranchingRun(COUNTING);
  }
}
