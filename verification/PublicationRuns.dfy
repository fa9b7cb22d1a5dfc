/** Every step keeps the invariant, so every run keeps a linear history. */
module PublicationRuns {
  import opened Wrappers
  import opened Jobs
  import opened PublicationHead
  import opened PublicationChain
  import opened PublicationSafety

  // ----- Loading -----

  lemma ResultsAreRecorded(e: Exporter, s: System, chain: seq<JobId>, sources: seq<nat>)
    requires |sources| == |chain| && RowsOk(e, s, chain, sources)
    ensures ResultsRecorded(s.jobs)
  {
  }

  lemma AnchorAt(jobs: JobTable, chain: seq<JobId>, sources: seq<nat>, i: nat)
    requires ChainOk(jobs, chain, sources) && ResultsRecorded(jobs) && i < |chain|
    ensures chain[i] in AnchorsOf(jobs)
    ensures AnchorsOf(jobs)[chain[i]].predecessor == if i == 0 then None else Some(chain[i - 1])
  {
    assert Linked(jobs, chain, sources, i);
    assert chain[i] in chain;
  }

  lemma ChainIsPath(e: Exporter, s: System, chain: seq<JobId>, sources: seq<nat>)
    requires ChainOk(s.jobs, chain, sources) && RowsOk(e, s, chain, sources)
    ensures ResultsRecorded(s.jobs)
    ensures chain == [] ==> AnchorsOf(s.jobs) == map[]
    ensures chain != [] ==> IsPath(AnchorsOf(s.jobs), chain)
  {
    ResultsAreRecorded(e, s, chain, sources);
    AnchorsFollowChain(s.jobs, chain, sources);
  }

  lemma AnchorsFollowChain(jobs: JobTable, chain: seq<JobId>, sources: seq<nat>)
    requires ChainOk(jobs, chain, sources) && ResultsRecorded(jobs)
    ensures chain == [] ==> AnchorsOf(jobs) == map[]
    ensures chain != [] ==> IsPath(AnchorsOf(jobs), chain)
  {
    var anchors := AnchorsOf(jobs);
    forall i | 0 <= i < |chain|
      ensures chain[i] in anchors && anchors[chain[i]].predecessor == if i == 0 then None else Some(chain[i - 1])
    {
      AnchorAt(jobs, chain, sources, i);
    }
    if chain != [] { AnchorAt(jobs, chain, sources, 0); }
    assert forall j :: j in anchors ==> j in chain;
  }

  lemma InvIsLinear(e: Exporter, s: System, chain: seq<JobId>, sources: seq<nat>)
    requires Inv(e, s, chain, sources)
    ensures LinearHistory(s)
  {
    ChainIsPath(e, s, chain, sources);
  }

  /** What `_load_emby_publication_state` finds: the chain's tip and its published tree. */
  lemma LoadedHead(e: Exporter, s: System, chain: seq<JobId>, sources: seq<nat>) returns (head: Option<Anchor>)
    requires ChainOk(s.jobs, chain, sources) && RowsOk(e, s, chain, sources)
    ensures ResultsRecorded(s.jobs) && ResolveHead(AnchorsOf(s.jobs)) == Resolved(head)
    ensures AnchorId(head) == HeadOf(chain) && AnchorIdentity(head) == Id(e, sources)
  {
    ChainIsPath(e, s, chain, sources);
    if chain == [] {
      head := None;
    } else {
      var anchors, tip := AnchorsOf(s.jobs), |chain| - 1;
      HeadIsTip(anchors, chain);
      head := Some(anchors[chain[tip]]);
      assert chain[tip] in chain && Linked(s.jobs, chain, sources, tip);
      TipIdentity(e, s, chain, sources);
    }
  }

  lemma TipIdentity(e: Exporter, s: System, chain: seq<JobId>, sources: seq<nat>)
    requires ChainOk(s.jobs, chain, sources) && RowsOk(e, s, chain, sources) && chain != []
    ensures s.jobs[chain[|chain| - 1]].payload.body.Result?
    ensures Some(s.jobs[chain[|chain| - 1]].payload.body.identity) == Id(e, sources)
  {
    var tip := |chain| - 1;
    assert chain[tip] in chain && Linked(s.jobs, chain, sources, tip);
    assert RowOk(e, chain, sources, s.jobs[chain[tip]]);
    DepthOfLink(s.jobs, chain, sources, tip);
  }

  lemma DepthOfLink(jobs: JobTable, chain: seq<JobId>, sources: seq<nat>, i: nat)
    requires |sources| == |chain| && Distinct(chain) && i < |chain|
    requires Linked(jobs, chain, sources, i) && Known(chain, jobs[chain[i]].payload.key)
    ensures Depth(chain, jobs[chain[i]].payload.key) == i
  {
  }

  /** The scan sees exactly the unfinished successors of the head that carry an intent. */
  lemma {:induction false} RecoverableRows(jobs: JobTable, head: Option<JobId>, n: nat)
    ensures forall c :: c in Recoverable(jobs, head, n) <==>
              && c.job < n && IsPending(jobs, head, c.job)
              && c.row == jobs[c.job] && c.row.payload.body.Intent?
  {
    if n > 0 { RecoverableRows(jobs, head, n - 1); }
  }

  lemma CandidatesOk(e: Exporter, s: System, chain: seq<JobId>, sources: seq<nat>, head: Option<JobId>)
    requires |sources| == |chain| && RowsOk(e, s, chain, sources)
    ensures WorkerOk(e, s, chain, sources, Scanning(Recoverable(s.jobs, head, s.nextJob), []))
  {
    var todo := Recoverable(s.jobs, head, s.nextJob);
    RecoverableRows(s.jobs, head, s.nextJob);
    forall i | 0 <= i < |todo| ensures CandidateOk(e, s, chain, sources, todo[i]) {
      assert todo[i] in todo;
    }
  }

  // ----- One lemma per step -----

  ghost predicate ClaimedRow(row: ExportJob, row': ExportJob, w: nat, token: nat, seconds: LeaseSeconds, now: nat) {
    var (claimed, ok) := Claim(row, w, token, seconds, now);
    if ok then Start(claimed, w, token, now) == Some(row') else row' == claimed
  }

  lemma ClaimedRowHarmless(e: Exporter, chain: seq<JobId>, sources: seq<nat>, row: ExportJob, row': ExportJob,
                           w: nat, token: nat, seconds: LeaseSeconds, now: nat)
    requires |sources| == |chain| && RowOk(e, chain, sources, row) && !row.status.Succeeded?
    requires ClaimedRow(row, row', w, token, seconds, now)
    ensures Harmless(e, chain, sources, row, row')
  {
  }

  /** The attempt a successful claim prepares. */
  function NewAttempt(e: Exporter, s: System, id: JobId, key: Key, head: Option<Anchor>): Attempt {
    Attempt(id, s.nextToken, key, AnchorIdentity(head), if e.recorded(key.source) then Reused(RecordOf(s, key.source)) else None)
  }

  function BegunRecords(e: Exporter, s: System, source: nat): map<nat, Record> {
    if !e.recorded(source) || Reused(RecordOf(s, source)).Some? then s.records else s.records[source := RecordRunning]
  }

  /** Claiming a row: rolled back, merely reclaimed, or prepared. */
  lemma ClaimCases(e: Exporter, s: System, w: nat, id: JobId, row: ExportJob, head: Option<Anchor>, seconds: LeaseSeconds)
    returns (row': ExportJob, records: map<nat, Record>)
    ensures ClaimedRow(row, row', w, s.nextToken, seconds, s.now) && RecordsKept(s.records, records)
    ensures var s' := ClaimRow(e, s, w, id, row, head, seconds);
            || s' == Become(s, w, Idle(true))
            || s' == Become(s.(jobs := s.jobs[id := row'], records := records), w, Idle(true))
            || (&& s' == Become(s.(jobs := s.jobs[id := row'], nextJob := if id < s.nextJob then s.nextJob else id + 1,
                                   nextToken := s.nextToken + 1, records := records),
                                w, Prepared(NewAttempt(e, s, id, row.payload.key, head)))
                && records == BegunRecords(e, s, row.payload.key.source))
  {
    var source := row.payload.key.source;
    var (claimed, ok) := Claim(row, w, s.nextToken, seconds, s.now);
    if ok {
      row' := Start(claimed, w, s.nextToken, s.now).value;
      records := BegunRecords(e, s, source);
      var begun := Begin(RecordOf(s, source), row.attempts == 0);
      if begun.Some? && e.recorded(source) {
        assert s.records[source := begun.value] == records;
      }
    } else {
      row' := claimed;
      records := if (row'.status.FailedTerminal? || row'.status.Cancelled?) && e.recorded(source) && source in s.records
                 then s.records[source := Terminalize(s.records[source])] else s.records;
    }
  }

  lemma ClaimExistingOk(e: Exporter, s: System, chain: seq<JobId>, sources: seq<nat>, w: nat, id: JobId,
                        head: Option<Anchor>, seconds: LeaseSeconds)
    requires Inv(e, s, chain, sources)
    requires id in s.jobs && !s.jobs[id].status.Succeeded? && s.jobs[id].payload.key.predecessor == HeadOf(chain)
    requires AnchorIdentity(head) == Id(e, sources)
    ensures Inv(e, ClaimRow(e, s, w, id, s.jobs[id], head, seconds), chain, sources)
  {
    var row, records := ClaimCases(e, s, w, id, s.jobs[id], head, seconds);
    var a := NewAttempt(e, s, id, s.jobs[id].payload.key, head);
    ClaimedRowHarmless(e, chain, sources, s.jobs[id], row, w, s.nextToken, seconds, s.now);
    NewAttemptOk(e, s, s, chain, sources, id, s.jobs[id].payload.key, head);
    BecomeOk(e, s, chain, sources, w, Idle(true));
    RowThenBecomeOk(e, s, chain, sources, w, id, row, s.nextToken, records, Idle(true));
    RowThenBecomeOk(e, s, chain, sources, w, id, row, s.nextToken + 1, records, Prepared(a));
  }

  /** One transaction: rewrite a row harmlessly, then remember a state that was already fine. */
  lemma RowThenBecomeOk(e: Exporter, s: System, chain: seq<JobId>, sources: seq<nat>, w: nat,
                        j: JobId, row': ExportJob, token: nat, records: map<nat, Record>, state: Worker)
    requires Inv(e, s, chain, sources) && j in s.jobs && RecordsKept(s.records, records)
    requires Harmless(e, chain, sources, s.jobs[j], row') && WorkerOk(e, s, chain, sources, state)
    ensures Inv(e, Become(s.(jobs := s.jobs[j := row'], nextToken := token, records := records), w, state), chain, sources)
  {
    BecomeOk(e, s, chain, sources, w, state);
    RowUpdateOk(e, Become(s, w, state), chain, sources, j, row', token, records);
  }

  lemma ClaimFreshOk(e: Exporter, s: System, chain: seq<JobId>, sources: seq<nat>, w: nat, key: Key,
                     head: Option<Anchor>, attempts: MaxAttempts, seconds: LeaseSeconds)
    requires Inv(e, s, chain, sources)
    requires key.predecessor == HeadOf(chain) && Placed(chain, sources, key) && !Exists(s.jobs, key)
    requires AnchorIdentity(head) == Id(e, sources)
    ensures var row := Enqueued(Publication(key, Base), attempts, s.now);
            Inv(e, ClaimRow(e, s, w, s.nextJob, row, head, seconds), chain, sources)
  {
    var started, records := ClaimFresh(e, s, w, key, head, attempts, seconds);
    BecomeOk(e, s, chain, sources, w, Idle(true));
    var s1 := s.(jobs := s.jobs[s.nextJob := started], nextJob := s.nextJob + 1, nextToken := s.nextToken + 1, records := records);
    EnqueueOk(e, s, chain, sources, started, s.nextToken + 1, records);
    NewAttemptOk(e, s, s1, chain, sources, s.nextJob, key, head);
    BecomeOk(e, s1, chain, sources, w, Prepared(NewAttempt(e, s, s.nextJob, key, head)));
  }

  /** A new row is claimed by the worker that enqueued it, unless its records are busy. */
  lemma ClaimFresh(e: Exporter, s: System, w: nat, key: Key, head: Option<Anchor>, attempts: MaxAttempts, seconds: LeaseSeconds)
    returns (started: ExportJob, records: map<nat, Record>)
    ensures started == Job(Publication(key, Base), Running, 1, attempts, s.now,
                           Some(Lease(w, s.nextToken, s.now + seconds)), false)
    ensures records == BegunRecords(e, s, key.source) && RecordsKept(s.records, records)
    ensures e.recorded(key.source) ==> key.source in records
    ensures ClaimRow(e, s, w, s.nextJob, Enqueued(Publication(key, Base), attempts, s.now), head, seconds)
         == if e.recorded(key.source) && RecordOf(s, key.source) == Some(RecordRunning) then Become(s, w, Idle(true))
            else Become(s.(jobs := s.jobs[s.nextJob := started], nextJob := s.nextJob + 1, nextToken := s.nextToken + 1,
                           records := records),
                        w, Prepared(NewAttempt(e, s, s.nextJob, key, head)))
  {
    started := Job(Publication(key, Base), Running, 1, attempts, s.now, Some(Lease(w, s.nextToken, s.now + seconds)), false);
    records := BegunRecords(e, s, key.source);
    var begun := Begin(RecordOf(s, key.source), true);
    if begun.Some? && e.recorded(key.source) {
      assert s.records[key.source := begun.value] == records;
    }
  }

  lemma NewAttemptOk(e: Exporter, s: System, s': System, chain: seq<JobId>, sources: seq<nat>, id: JobId, key: Key, head: Option<Anchor>)
    requires |sources| == |chain| && Distinct(chain) && RecordsOk(e, s, sources)
    requires id in s'.jobs && s'.jobs[id].payload.key == key && Known(chain, key)
    requires key.predecessor == HeadOf(chain) && AnchorIdentity(head) == Id(e, sources)
    ensures AttemptOk(e, s', chain, sources, NewAttempt(e, s, id, key, head))
  {
    HeadDepth(chain, key);
    assert sources[..|sources|] == sources;
    ReusedFromRecords(e, s, sources, key.source);
  }

  lemma ReusedFromRecords(e: Exporter, s: System, sources: seq<nat>, source: nat)
    requires RecordsOk(e, s, sources)
    ensures ReusedOk(e, sources, |sources|, source, if e.recorded(source) then Reused(RecordOf(s, source)) else None)
  {
    assert sources[..|sources|] == sources;
    forall i | 0 <= i < |sources| && sources[i] == source && e.recorded(source)
      ensures Reused(RecordOf(s, source)).Some?
      ensures PublishedId(e, sources, i) == Some(Identity(source, Reused(RecordOf(s, source)).value))
    {
      assert RecordAt(e, s.records, sources, i);
    }
  }

  lemma HeadKeyPlaced(e: Exporter, chain: seq<JobId>, sources: seq<nat>, source: nat)
    requires StampsSource(e) && |sources| == |chain| && Distinct(chain)
    requires Id(e, sources).Some? ==> Id(e, sources).value.source != source
    ensures Placed(chain, sources, Key(source, HeadOf(chain)))
  {
    HeadDepth(chain, Key(source, HeadOf(chain)));
  }

  lemma ClaimOk(e: Exporter, s: System, chain: seq<JobId>, sources: seq<nat>, w: nat, key: Key,
                head: Option<Anchor>, attempts: MaxAttempts, seconds: LeaseSeconds)
    requires StampsSource(e) && Inv(e, s, chain, sources)
    requires AnchorIdentity(head) == Id(e, sources) && key.predecessor == HeadOf(chain)
    requires head.Some? ==> head.value.identity.source != key.source
    ensures Exists(s.jobs, key) ==>
              var id := FindByKey(s.jobs, key);
              s.jobs[id].status.Succeeded? || Inv(e, ClaimRow(e, s, w, id, s.jobs[id], head, seconds), chain, sources)
    ensures !Exists(s.jobs, key) ==>
              Inv(e, ClaimRow(e, s, w, s.nextJob, Enqueued(Publication(key, Base), attempts, s.now), head, seconds),
                  chain, sources)
  {
    if Exists(s.jobs, key) {
      var id := FindByKey(s.jobs, key);
      if !s.jobs[id].status.Succeeded? {
        ClaimExistingOk(e, s, chain, sources, w, id, head, seconds);
      }
    } else {
      HeadKeyPlaced(e, chain, sources, key.source);
      ClaimFreshOk(e, s, chain, sources, w, key, head, attempts, seconds);
    }
  }

  lemma PrepareOk(e: Exporter, s: System, chain: seq<JobId>, sources: seq<nat>, w: nat, source: nat,
                  attempts: MaxAttempts, seconds: LeaseSeconds)
    requires StampsSource(e) && Inv(e, s, chain, sources)
    ensures Inv(e, Prepare(e, s, w, source, attempts, seconds), chain, sources)
  {
    var head := LoadedHead(e, s, chain, sources);
    var scanning := Scanning(Recoverable(s.jobs, AnchorId(head), s.nextJob), []);
    BecomeOk(e, s, chain, sources, w, Idle(true));
    CandidatesOk(e, s, chain, sources, AnchorId(head));
    BecomeOk(e, s, chain, sources, w, scanning);
    if !(head.Some? && head.value.identity.source == source) {
      ClaimOk(e, s, chain, sources, w, Key(source, AnchorId(head)), head, attempts, seconds);
    }
    PrepareCases(e, s, w, source, attempts, seconds, head);
  }

  /** The branches of the preparing transaction once the head is resolved. */
  lemma PrepareCases(e: Exporter, s: System, w: nat, source: nat, attempts: MaxAttempts, seconds: LeaseSeconds,
                     head: Option<Anchor>)
    requires ResultsRecorded(s.jobs) && ResolveHead(AnchorsOf(s.jobs)) == Resolved(head)
    ensures var s' := Prepare(e, s, w, source, attempts, seconds);
            var key := Key(source, AnchorId(head));
            || s' == s || s' == Become(s, w, Idle(true))
            || s' == Become(s, w, Scanning(Recoverable(s.jobs, AnchorId(head), s.nextJob), []))
            || (!(head.Some? && head.value.identity.source == source) &&
                if Exists(s.jobs, key) then
                  var id := FindByKey(s.jobs, key);
                  !s.jobs[id].status.Succeeded? && s' == ClaimRow(e, s, w, id, s.jobs[id], head, seconds)
                else s' == ClaimRow(e, s, w, s.nextJob, Enqueued(Publication(key, Base), attempts, s.now), head, seconds))
  {
  }

  lemma RenderedAgrees(e: Exporter, chain: seq<JobId>, sources: seq<nat>, a: Attempt)
    requires StampsSource(e) && |sources| == |chain| && Known(chain, a.key)
    requires ReusedOk(e, sources, Depth(chain, a.key), a.key.source, a.reused)
    requires a.reused.Some? ==> a.reused.value == KeyId(e, chain, sources, a.key).tree
    ensures Agrees(e, sources, Depth(chain, a.key), a.key.source, KeyId(e, chain, sources, a.key))
  {
    var d := Depth(chain, a.key);
    forall i | 0 <= i < d && sources[i] == a.key.source && e.recorded(a.key.source)
      ensures PublishedId(e, sources, i) == Some(KeyId(e, chain, sources, a.key))
    {
      assert sources[..d][i] in sources[..d];
    }
  }

  lemma RenderOk(e: Exporter, s: System, chain: seq<JobId>, sources: seq<nat>, w: nat)
    requires StampsSource(e) && Inv(e, s, chain, sources)
    ensures Inv(e, Render(e, s, w), chain, sources)
  {
    match WorkerOf(s, w)
    case Prepared(a) =>
      var desired := e.render(a.key.source, a.expected);
      if FenceAccepts(s.disk, a.expected, desired, e.preserving(a.key.source)) && (a.reused.Some? ==> a.reused.value == desired.tree) {
        RenderedAgrees(e, chain, sources, a);
        BecomeOk(e, s, chain, sources, w, Rendered(a, desired, s.disk));
      } else {
        BecomeOk(e, s, chain, sources, w, Failing(a, false));
      }
    case _ =>
  }

  lemma RenewOk(e: Exporter, s: System, chain: seq<JobId>, sources: seq<nat>, w: nat, seconds: LeaseSeconds)
    requires Inv(e, s, chain, sources)
    ensures Inv(e, Renew(s, w, seconds), chain, sources)
  {
    BecomeOk(e, s, chain, sources, w, Idle(true));
    match WorkerOf(s, w)
    case Rendered(a, id, fence) =>
      var row := s.jobs[a.job];
      var renewed := RenewLease(row, w, a.token, seconds, row.payload.(body := Intent(id)), s.now);
      if renewed.Some? {
        assert RowOk(e, chain, sources, row);
        assert Harmless(e, chain, sources, row, renewed.value);
        var s1 := s.(jobs := s.jobs[a.job := renewed.value]);
        RowUpdateOk(e, s, chain, sources, a.job, renewed.value, s.nextToken, s.records);
        assert s1 == s.(jobs := s.jobs[a.job := renewed.value], nextToken := s.nextToken, records := s.records);
        BecomeOk(e, s1, chain, sources, w, Intended(a, id, fence));
      }
    case _ =>
  }

  lemma PublishOk(e: Exporter, s: System, chain: seq<JobId>, sources: seq<nat>, w: nat, raises: bool)
    requires Separating(e) && StampsSource(e) && Inv(e, s, chain, sources)
    ensures Inv(e, Publish(s, w, raises), chain, sources)
  {
    match WorkerOf(s, w)
    case Intended(a, id, fence) =>
      if s.disk != fence {
        BecomeOk(e, s, chain, sources, w, Failing(a, true));
      } else {
        ReplaceTreeOk(e, s, chain, sources, a, id);
        BecomeOk(e, s.(disk := Some(id)), chain, sources, w, if raises then Failing(a, true) else Published(a, id));
      }
    case _ =>
  }

  /** A job completes only while its own tree is the one on disk. */
  ghost predicate Extends(e: Exporter, s: System, chain: seq<JobId>, sources: seq<nat>,
                          chain': seq<JobId>, sources': seq<nat>) {
    || (chain' == chain && sources' == sources)
    || (|chain'| == |chain| + 1 && chain <= chain' && sources <= sources' && s.disk == Id(e, sources'))
  }

  lemma CompletedOk(e: Exporter, s: System, chain: seq<JobId>, sources: seq<nat>, w: nat, j: JobId, row': ExportJob)
    requires Separating(e) && StampsSource(e) && Inv(e, s, chain, sources)
    requires j in s.jobs && !s.jobs[j].status.Succeeded? && s.jobs[j].payload.body.Intent?
    requires s.disk == Some(s.jobs[j].payload.body.identity)
    requires row' == Done(s.jobs[j], s.disk.value)
    ensures Inv(e, Completed(e, s, w, j, s.disk.value), chain + [j], sources + [row'.payload.key.source])
    ensures s.disk == Id(e, sources + [row'.payload.key.source])
  {
    var records := Exported(e, s.records, row'.payload.key.source, s.disk.value.tree);
    SucceedOk(e, s, chain, sources, j, row');
    BecomeOk(e, s.(jobs := s.jobs[j := row'], records := records), chain + [j], sources + [row'.payload.key.source], w, Idle(true));
  }

  function Done(row: ExportJob, id: Identity): ExportJob {
    row.(status := Succeeded, lease := None, payload := row.payload.(body := Result(id)), leaseExpired := false)
  }

  /** The state after job `j` was completed as `id`, together with its records. */
  function Completed(e: Exporter, s: System, w: nat, j: JobId, id: Identity): System
    requires j in s.jobs
  {
    Become(s.(jobs := s.jobs[j := Done(s.jobs[j], id)],
              records := Exported(e, s.records, s.jobs[j].payload.key.source, id.tree)), w, Idle(true))
  }

  /** Either nothing is written, or the worker's own published job completes. */
  lemma FinalizeCases(e: Exporter, s: System, w: nat)
    requires WorkerOf(s, w).Published? ==>
               var a := WorkerOf(s, w).attempt;
               && (a.job in s.jobs ==> s.jobs[a.job].payload.key == a.key)
               && (a.reused.Some? ==> Exported(e, s.records, a.key.source, WorkerOf(s, w).identity.tree) == s.records)
    ensures || Finalize(e, s, w) == s || Finalize(e, s, w) == Become(s, w, Idle(true))
            || (&& WorkerOf(s, w).Published? && var a := WorkerOf(s, w).attempt;
                && a.job in s.jobs && !s.jobs[a.job].status.Succeeded?
                && Finalize(e, s, w) == Completed(e, s, w, a.job, WorkerOf(s, w).identity))
  {
  }

  /** Records that an attempt reuses already name its tree. */
  lemma ReusedIsExported(e: Exporter, s: System, sources: seq<nat>, depth: nat, source: nat, reused: Option<nat>, id: Identity)
    requires RecordsOk(e, s, sources) && depth <= |sources|
    requires ReusedOk(e, sources, depth, source, reused) && Agrees(e, sources, depth, source, id) && reused.Some?
    ensures Exported(e, s.records, source, id.tree) == s.records
  {
    var i :| 0 <= i < depth && sources[..depth][i] == source;
    assert sources[i] == source && RecordAt(e, s.records, sources, i);
    assert PublishedId(e, sources, i) == Some(id);
    assert s.records[source := RecordSucceeded(id.tree)] == s.records;
  }

  lemma FinalizeOk(e: Exporter, s: System, chain: seq<JobId>, sources: seq<nat>, w: nat)
    returns (chain': seq<JobId>, sources': seq<nat>)
    requires Separating(e) && StampsSource(e) && Inv(e, s, chain, sources)
    ensures Inv(e, Finalize(e, s, w), chain', sources') && Extends(e, s, chain, sources, chain', sources')
  {
    chain', sources' := chain, sources;
    BecomeOk(e, s, chain, sources, w, Idle(true));
    if WorkerOf(s, w).Published? {
      var a, id := WorkerOf(s, w).attempt, WorkerOf(s, w).identity;
      assert WorkerOk(e, s, chain, sources, Published(a, id));
      if a.reused.Some? { ReusedIsExported(e, s, sources, Depth(chain, a.key), a.key.source, a.reused, id); }
      FinalizeCases(e, s, w);
      if Finalize(e, s, w) != s && Finalize(e, s, w) != Become(s, w, Idle(true)) {
        CompletedOk(e, s, chain, sources, w, a.job, Done(s.jobs[a.job], id));
        chain', sources' := chain + [a.job], sources + [a.key.source];
      }
    }
  }

  lemma ValidateOk(e: Exporter, s: System, chain: seq<JobId>, sources: seq<nat>, w: nat)
    requires Inv(e, s, chain, sources)
    ensures Inv(e, Validate(s, w), chain, sources)
  {
    BecomeOk(e, s, chain, sources, w, Idle(true));
    BecomeOk(e, s, chain, sources, w, Idle(false));
    match WorkerOf(s, w)
    case Scanning(todo, matching) =>
      if todo != [] {
        assert CandidateOk(e, s, chain, sources, todo[0]);
        ScanOk(e, s, chain, sources, todo, matching);
        BecomeOk(e, s, chain, sources, w, Scanning(todo[1..], matching));
        if s.disk == Some(todo[0].row.payload.body.identity) {
          BecomeOk(e, s, chain, sources, w, Scanning(todo[1..], matching + [todo[0]]));
        }
      } else if |matching| == 1 {
        BecomeOk(e, s, chain, sources, w, Recovering(matching[0]));
      }
    case _ =>
  }

  lemma ScanOk(e: Exporter, s: System, chain: seq<JobId>, sources: seq<nat>, todo: seq<Candidate>, matching: seq<Candidate>)
    requires |sources| == |chain| && WorkerOk(e, s, chain, sources, Scanning(todo, matching)) && todo != []
    ensures WorkerOk(e, s, chain, sources, Scanning(todo[1..], matching))
    ensures CandidateOk(e, s, chain, sources, todo[0]) && s.disk == Some(todo[0].row.payload.body.identity) ==>
              WorkerOk(e, s, chain, sources, Scanning(todo[1..], matching + [todo[0]]))
  {
  }

  /** Either nothing is written, or the scanned job, with its payload intact, completes. */
  lemma RecoveredCases(e: Exporter, s: System, w: nat)
    ensures || FinalizeRecovered(e, s, w) == s || FinalizeRecovered(e, s, w) == Become(s, w, Idle(true))
            || (&& WorkerOf(s, w).Recovering? && var c := WorkerOf(s, w).candidate;
                && c.job in s.jobs && !s.jobs[c.job].status.Succeeded?
                && s.jobs[c.job].payload == c.row.payload && c.row.payload.body.Intent?
                && FinalizeRecovered(e, s, w) == Completed(e, s, w, c.job, c.row.payload.body.identity))
  {
  }

  lemma FinalizeRecoveredOk(e: Exporter, s: System, chain: seq<JobId>, sources: seq<nat>, w: nat)
    returns (chain': seq<JobId>, sources': seq<nat>)
    requires Separating(e) && StampsSource(e) && Inv(e, s, chain, sources)
    ensures Inv(e, FinalizeRecovered(e, s, w), chain', sources') && Extends(e, s, chain, sources, chain', sources')
  {
    chain', sources' := chain, sources;
    RecoveredCases(e, s, w);
    if FinalizeRecovered(e, s, w) == Become(s, w, Idle(true)) {
      BecomeOk(e, s, chain, sources, w, Idle(true));
    } else if FinalizeRecovered(e, s, w) != s {
      var c := WorkerOf(s, w).candidate;
      assert WorkerOk(e, s, chain, sources, Recovering(c));
      CompletedOk(e, s, chain, sources, w, c.job, Done(s.jobs[c.job], c.row.payload.body.identity));
      chain', sources' := chain + [c.job], sources + [c.row.payload.key.source];
    }
  }

  /** Either nothing is written, or the job and its running records fail alike. */
  lemma FailureCases(e: Exporter, s: System, w: nat) returns (failed: Option<ExportJob>, records: map<nat, Record>)
    ensures RecordsKept(s.records, records)
    ensures || RecordFailure(e, s, w) == s || RecordFailure(e, s, w) == Become(s, w, Idle(true))
            || (&& WorkerOf(s, w).Failing? && var a := WorkerOf(s, w).attempt;
                && a.job in s.jobs && Fail(s.jobs[a.job], w, a.token, WorkerOf(s, w).retryable, s.now) == failed && failed.Some?
                && RecordFailure(e, s, w) ==
                     Become(s.(jobs := s.jobs[a.job := failed.value], nextToken := s.nextToken, records := records), w, Idle(true)))
  {
    failed, records := None, s.records;
    match WorkerOf(s, w)
    case Failing(a, retryable) =>
      if a.job in s.jobs {
        var row := s.jobs[a.job];
        failed := Fail(row, w, a.token, retryable, s.now);
        if failed.Some? && HoldsRecord(e, s, a) {
          records := WriteRecord(e, s, a, RecordFailed(retryable && row.attempts < row.maxAttempts));
        }
      }
    case _ =>
  }

  lemma FailureOk(e: Exporter, s: System, chain: seq<JobId>, sources: seq<nat>, w: nat)
    requires Inv(e, s, chain, sources)
    ensures Inv(e, RecordFailure(e, s, w), chain, sources)
  {
    var s' := RecordFailure(e, s, w);
    var failed, records := FailureCases(e, s, w);
    if s' == Become(s, w, Idle(true)) {
      BecomeOk(e, s, chain, sources, w, Idle(true));
    } else if s' != s {
      var a := WorkerOf(s, w).attempt;
      assert RowOk(e, chain, sources, s.jobs[a.job]);
      FailedRowHarmless(e, chain, sources, s.jobs[a.job], w, a.token, WorkerOf(s, w).retryable, s.now);
      RowThenBecomeOk(e, s, chain, sources, w, a.job, failed.value, s.nextToken, records, Idle(true));
    }
  }

  lemma FailedRowHarmless(e: Exporter, chain: seq<JobId>, sources: seq<nat>, row: ExportJob,
                          w: nat, token: nat, retryable: bool, now: nat)
    requires |sources| == |chain| && RowOk(e, chain, sources, row)
    ensures var failed := Fail(row, w, token, retryable, now);
            failed.Some? ==> Harmless(e, chain, sources, row, failed.value)
  {
  }

  lemma RaiseOk(e: Exporter, s: System, chain: seq<JobId>, sources: seq<nat>, w: nat, retryable: bool)
    requires Inv(e, s, chain, sources)
    ensures Inv(e, Raise(s, w, retryable), chain, sources)
  {
    match WorkerOf(s, w)
    case Prepared(a) => BecomeOk(e, s, chain, sources, w, Failing(a, retryable));
    case Intended(a, _, _) => BecomeOk(e, s, chain, sources, w, Failing(a, retryable));
    case Published(a, _) => BecomeOk(e, s, chain, sources, w, Failing(a, retryable));
    case _ =>
  }

  lemma RowStepOk(e: Exporter, s: System, chain: seq<JobId>, sources: seq<nat>, j: JobId, row': ExportJob)
    requires Inv(e, s, chain, sources) && j in s.jobs && Harmless(e, chain, sources, s.jobs[j], row')
    ensures Inv(e, s.(jobs := s.jobs[j := row']), chain, sources)
  {
    var s' := s.(jobs := s.jobs[j := row'], nextToken := s.nextToken, records := s.records);
    assert s' == s.(jobs := s.jobs[j := row']);
    RowUpdateOk(e, s, chain, sources, j, row', s.nextToken, s.records);
  }

  lemma TickOk(e: Exporter, s: System, chain: seq<JobId>, sources: seq<nat>, now: nat)
    requires Inv(e, s, chain, sources)
    ensures Inv(e, s.(now := now), chain, sources)
  {
    var s' := s.(now := now);
    forall j | OwnsDisk(s, chain, j) ensures OwnsDisk(s', chain, j) {}
    assert Evolves(s.jobs, s'.jobs);
    RecordsOkFrame(e, s, s', sources);
    WorkersOkFrame(e, s, s', chain, sources);
  }

  ghost predicate Finalizes(step: Step) { step.SFinalize? || step.SFinalizeRecovered? }

  lemma CrashOk(e: Exporter, s: System, chain: seq<JobId>, sources: seq<nat>, w: nat)
    requires Inv(e, s, chain, sources)
    ensures Inv(e, Become(s, w, Idle(true)), chain, sources)
  {
    BecomeOk(e, s, chain, sources, w, Idle(true));
  }

  lemma OtherStepOk(e: Exporter, s: System, step: Step, chain: seq<JobId>, sources: seq<nat>)
    requires Separating(e) && StampsSource(e) && Inv(e, s, chain, sources) && !Finalizes(step)
    ensures Inv(e, Next(e, s, step), chain, sources)
  {
    hide Inv, Separating, Prepare, Render, Renew, Publish, Raise, RecordFailure, Validate, WorkerOk;
    match step
    case SPrepare(w, source, attempts, seconds) =>
      PrepareOk(e, s, chain, sources, w, source, attempts, seconds);
    case SRender(w) => RenderOk(e, s, chain, sources, w);
    case SRenew(w, seconds) => RenewOk(e, s, chain, sources, w, seconds);
    case SPublish(w, raises) => PublishOk(e, s, chain, sources, w, raises);
    case SRaise(w, retryable) => RaiseOk(e, s, chain, sources, w, retryable);
    case SRecordFailure(w) => FailureOk(e, s, chain, sources, w);
    case SValidate(w) => ValidateOk(e, s, chain, sources, w);
    case SCrash(w) => CrashOk(e, s, chain, sources, w);
    case _ =>
      EnvironmentStep(e, s, step);
      EnvironmentOk(e, s, step, chain, sources);
  }

  predicate Environment(step: Step) { step.STick? || step.SReclaim? || step.SRequeue? || step.SCancel? }

  /** The environment moves the clock or rewrites one row. */
  function Moved(s: System, step: Step): System
    requires Environment(step)
  {
    if step.STick? then s.(now := s.now + step.elapsed)
    else if step.j in s.jobs then s.(jobs := s.jobs[step.j := RowAfter(step, s.jobs[step.j], s.now)])
    else s
  }

  lemma EnvironmentStep(e: Exporter, s: System, step: Step)
    requires Environment(step)
    ensures Next(e, s, step) == Moved(s, step)
  {
  }

  lemma EnvironmentOk(e: Exporter, s: System, step: Step, chain: seq<JobId>, sources: seq<nat>)
    requires Inv(e, s, chain, sources) && Environment(step)
    ensures Inv(e, Moved(s, step), chain, sources)
  {
    var s' := Moved(s, step);
    if step.STick? {
      TickOk(e, s, chain, sources, s'.now);
    } else if step.j in s.jobs {
      var row' := RowAfter(step, s.jobs[step.j], s.now);
      EnvironmentHarmless(e, s, chain, sources, step);
      RowStepOk(e, s, chain, sources, step.j, row');
      assert s' == s.(jobs := s.jobs[step.j := row']);
    }
  }

  function RowAfter(step: Step, row: ExportJob, now: nat): ExportJob {
    if step.SReclaim? then Jobs.Reclaim(row, now) else if step.SRequeue? then Jobs.Requeue(row, now) else Jobs.Cancel(row)
  }

  lemma EnvironmentHarmless(e: Exporter, s: System, chain: seq<JobId>, sources: seq<nat>, step: Step)
    requires |sources| == |chain| && RowsOk(e, s, chain, sources)
    requires Environment(step) && !step.STick? && step.j in s.jobs
    ensures Harmless(e, chain, sources, s.jobs[step.j], RowAfter(step, s.jobs[step.j], s.now))
  {
    assert RowOk(e, chain, sources, s.jobs[step.j]);
  }

  /** Every step keeps the invariant, and only ever appends to the chain. */
  lemma NextOk(e: Exporter, s: System, step: Step, chain: seq<JobId>, sources: seq<nat>)
    returns (chain': seq<JobId>, sources': seq<nat>)
    requires Separating(e) && StampsSource(e) && Inv(e, s, chain, sources)
    ensures Inv(e, Next(e, s, step), chain', sources')
    ensures Extends(e, s, chain, sources, chain', sources')
  {
    hide Inv, Separating, Finalize, FinalizeRecovered;
    chain', sources' := chain, sources;
    match step
    case SFinalize(w) => chain', sources' := FinalizeOk(e, s, chain, sources, w);
    case SFinalizeRecovered(w) => chain', sources' := FinalizeRecoveredOk(e, s, chain, sources, w);
    case _ => OtherStepOk(e, s, step, chain, sources);
  }

  lemma {:induction false} RunOk(e: Exporter, s: System, steps: seq<Step>, chain: seq<JobId>, sources: seq<nat>)
    returns (chain': seq<JobId>, sources': seq<nat>)
    requires Separating(e) && StampsSource(e) && Inv(e, s, chain, sources)
    ensures Inv(e, Run(e, s, steps), chain', sources')
    ensures chain <= chain' && sources <= sources'
    decreases |steps|
  {
    if steps == [] {
      chain', sources' := chain, sources;
    } else {
      var chain1, sources1 := NextOk(e, s, steps[0], chain, sources);
      chain', sources' := RunOk(e, Next(e, s, steps[0]), steps[1..], chain1, sources1);
    }
  }

  lemma EmptyOk(e: Exporter)
    ensures Inv(e, EMPTY, [], [])
  {
  }

  /** Under a separating renderer the history of the target is linear after every run. */
  lemma SeparatingRunsAreLinear(e: Exporter, steps: seq<Step>)
    requires Separating(e) && StampsSource(e)
    ensures LinearHistory(Run(e, EMPTY, steps))
  {
    EmptyOk(e);
    var chain, sources := RunOk(e, EMPTY, steps, [], []);
    InvIsLinear(e, Run(e, EMPTY, steps), chain, sources);
  }
}
