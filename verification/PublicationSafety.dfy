/** The invariant of the publication protocol, under a separating exporter. */
module PublicationSafety {
  import opened Wrappers
  import opened Jobs
  import opened PublicationHead
  import opened PublicationChain

  // ----- Identities along an edit history -----

  /** The identity published after the edits `path`, each rendered on top of the last. */
  function Id(e: Exporter, path: seq<nat>): Option<Identity> {
    if path == [] then None else Some(e.render(path[|path| - 1], Id(e, path[..|path| - 1])))
  }

  /** A publication is skipped when the source is unchanged, so neighbours differ. */
  ghost predicate Admissible(path: seq<nat>) {
    forall i, k :: 0 <= i < k < |path| && k == i + 1 ==> path[i] != path[k]
  }

  /** What the edit number `i` of a history published. */
  function PublishedId(e: Exporter, path: seq<nat>, i: nat): Option<Identity>
    requires i < |path|
  {
    Id(e, path[..i + 1])
  }

  ghost predicate RendersAlike(e: Exporter, path: seq<nat>, i: nat, k: nat)
    requires i < k < |path|
  {
    path[i] == path[k] && e.recorded(path[i]) ==> PublishedId(e, path, i) == PublishedId(e, path, k)
  }

  /** A source with export records is only ever published as the tree they name. */
  ghost predicate Consistent(e: Exporter, path: seq<nat>) {
    forall i, k :: 0 <= i < k < |path| ==> RendersAlike(e, path, i, k)
  }

  /** No publication ever coincides with the end of another history through the same
      predecessor: neither further down its own history nor down a rival one. */
  ghost predicate Separating(e: Exporter) {
    forall p: seq<nat>, s: nat, rival: seq<nat> ::
      rival != [] && rival != [s] && Admissible(p + [s]) && Admissible(p + rival) && Consistent(e, p + rival) ==>
        Id(e, p + [s]) != Id(e, p + rival)
  }

  lemma BranchIdDiffers(e: Exporter, t: seq<nat>, k: nat, source: nat)
    requires Separating(e) && Admissible(t) && Consistent(e, t) && k < |t| && Admissible(t[..k] + [source])
    requires t[k..] != [source]
    ensures Id(e, t[..k] + [source]) != Id(e, t)
  {
    assert t[..k] + t[k..] == t;
  }

  lemma ChainIdsDiffer(e: Exporter, t: seq<nat>, a: nat)
    requires Separating(e) && Admissible(t) && Consistent(e, t) && a < |t|
    ensures Id(e, t[..a]) != Id(e, t)
  {
    if a > 0 {
      assert t[..a - 1] + [t[a - 1]] == t[..a];
      assert |t[a - 1..]| >= 2;
      BranchIdDiffers(e, t, a - 1, t[a - 1]);
    }
  }

  // ----- Keys in the tree of histories -----

  ghost predicate Known(chain: seq<JobId>, key: Key) {
    key.predecessor.Some? ==> key.predecessor.value in chain
  }

  ghost function Depth(chain: seq<JobId>, key: Key): (k: nat)
    requires Known(chain, key)
    ensures k <= |chain|
    ensures key.predecessor == if k == 0 then None else Some(chain[k - 1])
  {
    if key.predecessor == None then 0 else
    var i :| 0 <= i < |chain| && chain[i] == key.predecessor.value;
    i + 1
  }

  function HeadOf(chain: seq<JobId>): Option<JobId> {
    if chain == [] then None else Some(chain[|chain| - 1])
  }

  ghost function KeyId(e: Exporter, chain: seq<JobId>, sources: seq<nat>, key: Key): Identity
    requires Known(chain, key) && |sources| == |chain|
  {
    e.render(key.source, Id(e, sources[..Depth(chain, key)]))
  }

  /** The key of a job enqueued on top of a chain member published from another source. */
  ghost predicate Placed(chain: seq<JobId>, sources: seq<nat>, key: Key)
    requires |sources| == |chain|
  {
    Known(chain, key) && var k := Depth(chain, key); k > 0 ==> key.source != sources[k - 1]
  }

  lemma PlacedPath(e: Exporter, chain: seq<JobId>, sources: seq<nat>, key: Key)
    requires |sources| == |chain| && Placed(chain, sources, key) && Admissible(sources)
    ensures Admissible(sources[..Depth(chain, key)] + [key.source])
    ensures Id(e, sources[..Depth(chain, key)] + [key.source]) == Some(KeyId(e, chain, sources, key))
  {
    var k := Depth(chain, key);
    var path := sources[..k] + [key.source];
    assert path[..k] == sources[..k];
  }

  lemma HeadPath(e: Exporter, chain: seq<JobId>, sources: seq<nat>, key: Key)
    requires |sources| == |chain| && Distinct(chain) && Placed(chain, sources, key) && Admissible(sources)
    requires key.predecessor == HeadOf(chain)
    ensures Admissible(sources + [key.source])
    ensures Id(e, sources + [key.source]) == Some(KeyId(e, chain, sources, key))
  {
    HeadDepth(chain, key);
    PlacedPath(e, chain, sources, key);
    assert sources[..|sources|] == sources;
  }

  lemma HeadDepth(chain: seq<JobId>, key: Key)
    requires Known(chain, key) && Distinct(chain)
    ensures Depth(chain, key) == |chain| <==> key.predecessor == HeadOf(chain)
  {
  }

  // ----- The invariant -----

  /** The chain's member number `i` succeeds the member before it. */
  ghost predicate Linked(jobs: JobTable, chain: seq<JobId>, sources: seq<nat>, i: nat)
    requires i < |chain| == |sources|
  {
    && chain[i] in jobs && jobs[chain[i]].payload.key.source == sources[i]
    && jobs[chain[i]].payload.key.predecessor == if i == 0 then None else Some(chain[i - 1])
  }

  /** `chain` lists the succeeded jobs oldest first and `sources` what each published. */
  ghost predicate ChainOk(jobs: JobTable, chain: seq<JobId>, sources: seq<nat>) {
    && |sources| == |chain|
    && Distinct(chain) && Admissible(sources)
    && (forall j :: j in chain ==> j in jobs)
    && (forall i :: 0 <= i < |chain| ==> Linked(jobs, chain, sources, i))
    && (forall j :: j in jobs ==> (jobs[j].status.Succeeded? <==> j in chain))
  }

  predicate SameKey(jobs: JobTable, i: JobId, j: JobId) {
    i in jobs && j in jobs && jobs[i].payload.key == jobs[j].payload.key
  }

  ghost predicate KeysUnique(jobs: JobTable) {
    forall i, j :: SameKey(jobs, i, j) ==> i == j
  }

  /** Earlier publications of `source` among the first `depth` show the tree `id`. */
  ghost predicate Agrees(e: Exporter, sources: seq<nat>, depth: nat, source: nat, id: Identity)
    requires depth <= |sources|
  {
    forall i :: 0 <= i < depth && sources[i] == source && e.recorded(source) ==> PublishedId(e, sources, i) == Some(id)
  }

  ghost predicate RowOk(e: Exporter, chain: seq<JobId>, sources: seq<nat>, row: ExportJob)
    requires |sources| == |chain|
  {
    && Placed(chain, sources, row.payload.key)
    && var id := KeyId(e, chain, sources, row.payload.key);
    && (row.status.Succeeded? ==> row.payload.body == Result(id))
    && (!row.status.Succeeded? ==> row.payload.body == Base || row.payload.body == Intent(id))
    && (row.payload.body.Intent? ==> Agrees(e, sources, Depth(chain, row.payload.key), row.payload.key.source, id))
    && (row.payload.body.Intent? || row.lease.Some? ==> row.attempts >= 1)
  }

  ghost predicate RowsOk(e: Exporter, s: System, chain: seq<JobId>, sources: seq<nat>)
    requires |sources| == |chain|
  {
    forall j :: j in s.jobs ==> j < s.nextJob && RowOk(e, chain, sources, s.jobs[j])
  }

  /** An unfinished successor of the head whose durable intent is the tree on disk. */
  ghost predicate OwnsDisk(s: System, chain: seq<JobId>, j: JobId) {
    && j in s.jobs && !s.jobs[j].status.Succeeded?
    && s.jobs[j].payload.key.predecessor == HeadOf(chain)
    && s.jobs[j].payload.body.Intent? && s.disk == Some(s.jobs[j].payload.body.identity)
  }

  ghost predicate DiskOk(e: Exporter, s: System, chain: seq<JobId>, sources: seq<nat>) {
    s.disk == Id(e, sources) || exists j :: OwnsDisk(s, chain, j)
  }

  /** An attempt reuses a record exactly if its source was published before. */
  ghost predicate ReusedOk(e: Exporter, sources: seq<nat>, depth: nat, source: nat, reused: Option<nat>)
    requires depth <= |sources|
  {
    && (reused.Some? <==> e.recorded(source) && source in sources[..depth])
    && forall i :: 0 <= i < depth && sources[i] == source && reused.Some? ==>
         PublishedId(e, sources, i) == Some(Identity(source, reused.value))
  }

  ghost predicate AttemptOk(e: Exporter, s: System, chain: seq<JobId>, sources: seq<nat>, a: Attempt)
    requires |sources| == |chain|
  {
    && a.job in s.jobs && s.jobs[a.job].payload.key == a.key
    && Known(chain, a.key) && a.expected == Id(e, sources[..Depth(chain, a.key)])
    && ReusedOk(e, sources, Depth(chain, a.key), a.key.source, a.reused)
  }

  ghost predicate Declared(s: System, j: JobId, id: Identity) {
    j in s.jobs && (s.jobs[j].status.Succeeded? || s.jobs[j].payload.body == Intent(id))
  }

  ghost predicate Settled(s: System, j: JobId, id: Identity) {
    Declared(s, j, id) && (s.jobs[j].status.Succeeded? || s.disk == Some(id))
  }

  ghost predicate CandidateOk(e: Exporter, s: System, chain: seq<JobId>, sources: seq<nat>, c: Candidate)
    requires |sources| == |chain|
  {
    && c.job in s.jobs && s.jobs[c.job].payload.key == c.row.payload.key
    && Known(chain, c.row.payload.key)
    && c.row.payload.body == Intent(KeyId(e, chain, sources, c.row.payload.key))
    && Declared(s, c.job, c.row.payload.body.identity)
  }

  ghost predicate MatchOk(e: Exporter, s: System, chain: seq<JobId>, sources: seq<nat>, c: Candidate)
    requires |sources| == |chain|
  {
    CandidateOk(e, s, chain, sources, c) && Settled(s, c.job, c.row.payload.body.identity)
  }

  ghost predicate WorkerOk(e: Exporter, s: System, chain: seq<JobId>, sources: seq<nat>, state: Worker)
    requires |sources| == |chain|
  {
    match state
    case Idle(_) => true
    case Prepared(a) => AttemptOk(e, s, chain, sources, a)
    case Failing(a, _) => AttemptOk(e, s, chain, sources, a)
    case Rendered(a, id, fence) =>
      AttemptOk(e, s, chain, sources, a) && id == KeyId(e, chain, sources, a.key) &&
      (fence == a.expected || fence == Some(id)) && Agrees(e, sources, Depth(chain, a.key), a.key.source, id)
    case Intended(a, id, fence) =>
      AttemptOk(e, s, chain, sources, a) && id == KeyId(e, chain, sources, a.key) &&
      (fence == a.expected || fence == Some(id)) && Declared(s, a.job, id) &&
      Agrees(e, sources, Depth(chain, a.key), a.key.source, id)
    case Published(a, id) =>
      AttemptOk(e, s, chain, sources, a) && id == KeyId(e, chain, sources, a.key) && Settled(s, a.job, id) &&
      Agrees(e, sources, Depth(chain, a.key), a.key.source, id)
    case Scanning(todo, matching) =>
      && (forall i :: 0 <= i < |todo| ==> CandidateOk(e, s, chain, sources, todo[i]))
      && (forall i :: 0 <= i < |matching| ==> MatchOk(e, s, chain, sources, matching[i]))
    case Recovering(c) => MatchOk(e, s, chain, sources, c)
  }

  ghost predicate RecordAt(e: Exporter, records: map<nat, Record>, sources: seq<nat>, i: nat)
    requires i < |sources|
  {
    e.recorded(sources[i]) ==>
      && sources[i] in records && records[sources[i]].RecordSucceeded?
      && PublishedId(e, sources, i) == Some(Identity(sources[i], records[sources[i]].tree))
  }

  /** Exactly the published sources have succeeded records, naming the published tree. */
  ghost predicate RecordsOk(e: Exporter, s: System, sources: seq<nat>) {
    && (forall i :: 0 <= i < |sources| ==> RecordAt(e, s.records, sources, i))
    && (forall y :: y in s.records && s.records[y].RecordSucceeded? ==> y in sources && e.recorded(y))
    && (forall j :: j in s.jobs && e.recorded(s.jobs[j].payload.key.source) ==> s.jobs[j].payload.key.source in s.records)
  }

  ghost predicate WorkersOk(e: Exporter, s: System, chain: seq<JobId>, sources: seq<nat>)
    requires |sources| == |chain|
  {
    forall w :: w in s.workers ==> WorkerOk(e, s, chain, sources, s.workers[w])
  }

  ghost predicate Inv(e: Exporter, s: System, chain: seq<JobId>, sources: seq<nat>) {
    && ChainOk(s.jobs, chain, sources)
    && KeysUnique(s.jobs)
    && RowsOk(e, s, chain, sources)
    && RecordsOk(e, s, sources)
    && DiskOk(e, s, chain, sources)
    && WorkersOk(e, s, chain, sources)
  }

  // ----- Who the tree on disk belongs to -----

  lemma ChainConsistent(e: Exporter, s: System, sources: seq<nat>)
    requires RecordsOk(e, s, sources)
    ensures Consistent(e, sources)
  {
    forall i, k | 0 <= i < k < |sources| ensures RendersAlike(e, sources, i, k) {
      assert RecordAt(e, s.records, sources, i) && RecordAt(e, s.records, sources, k);
    }
  }

  lemma PublishedIdExtends(e: Exporter, sources: seq<nat>, source: nat)
    ensures forall i :: 0 <= i < |sources| ==> PublishedId(e, sources + [source], i) == PublishedId(e, sources, i)
    ensures PublishedId(e, sources + [source], |sources|) == Id(e, sources + [source])
  {
    forall i | 0 <= i < |sources| ensures PublishedId(e, sources + [source], i) == PublishedId(e, sources, i) {
      assert (sources + [source])[..i + 1] == sources[..i + 1];
    }
    assert (sources + [source])[..|sources| + 1] == sources + [source];
  }

  lemma AgreesConsistent(e: Exporter, sources: seq<nat>, source: nat, id: Identity)
    requires Consistent(e, sources) && Agrees(e, sources, |sources|, source, id)
    requires Id(e, sources + [source]) == Some(id)
    ensures Consistent(e, sources + [source])
  {
    var t := sources + [source];
    PublishedIdExtends(e, sources, source);
    forall i, k | 0 <= i < k < |t| ensures RendersAlike(e, t, i, k) {
      if k < |sources| { assert RendersAlike(e, sources, i, k); }
    }
  }

  /** A declared successor of the head continues the history of the chain. */
  lemma OwnerHistory(e: Exporter, s: System, chain: seq<JobId>, sources: seq<nat>, j: JobId)
    requires ChainOk(s.jobs, chain, sources) && RowsOk(e, s, chain, sources) && RecordsOk(e, s, sources)
    requires j in s.jobs && s.jobs[j].payload.key.predecessor == HeadOf(chain)
    requires !s.jobs[j].status.Succeeded? && s.jobs[j].payload.body.Intent?
    ensures var t := sources + [s.jobs[j].payload.key.source];
            Admissible(t) && Consistent(e, t) && Id(e, t) == Some(s.jobs[j].payload.body.identity)
  {
    var key, id := s.jobs[j].payload.key, s.jobs[j].payload.body.identity;
    ChainConsistent(e, s, sources);
    assert RowOk(e, chain, sources, s.jobs[j]);
    HeadDepth(chain, key);
    HeadPath(e, chain, sources, key);
    AgreesConsistent(e, sources, key.source, id);
  }

  /** The tree on disk stands at the end of some history that starts with the chain's. */
  lemma DiskHistory(e: Exporter, s: System, chain: seq<JobId>, sources: seq<nat>) returns (t: seq<nat>)
    requires ChainOk(s.jobs, chain, sources)
    requires RowsOk(e, s, chain, sources) && RecordsOk(e, s, sources) && DiskOk(e, s, chain, sources)
    ensures sources <= t && |t| <= |sources| + 1 && Admissible(t) && Consistent(e, t) && s.disk == Id(e, t)
  {
    if s.disk == Id(e, sources) {
      ChainConsistent(e, s, sources);
      t := sources;
    } else {
      var j :| OwnsDisk(s, chain, j);
      OwnerHistory(e, s, chain, sources, j);
      t := sources + [s.jobs[j].payload.key.source];
    }
  }

  lemma UnfinishedIsNotOnChain(jobs: JobTable, chain: seq<JobId>, sources: seq<nat>, j: JobId)
    requires ChainOk(jobs, chain, sources) && KeysUnique(jobs)
    requires j in jobs && !jobs[j].status.Succeeded? && Known(chain, jobs[j].payload.key)
    requires Depth(chain, jobs[j].payload.key) < |chain|
    ensures jobs[j].payload.key.source != sources[Depth(chain, jobs[j].payload.key)]
  {
    var k := Depth(chain, jobs[j].payload.key);
    assert chain[k] in chain;
    assert Linked(jobs, chain, sources, k);
    assert chain[k] in chain && !SameKey(jobs, j, chain[k]);
  }

  /** An unfinished job whose tree is on disk succeeds the current head. */
  lemma DiskOwnerIsNext(e: Exporter, s: System, chain: seq<JobId>, sources: seq<nat>, j: JobId)
    requires Separating(e) && StampsSource(e) && ChainOk(s.jobs, chain, sources) && KeysUnique(s.jobs)
    requires RowsOk(e, s, chain, sources) && RecordsOk(e, s, sources) && DiskOk(e, s, chain, sources)
    requires j in s.jobs && !s.jobs[j].status.Succeeded?
    requires s.disk == Some(KeyId(e, chain, sources, s.jobs[j].payload.key))
    ensures s.jobs[j].payload.key.predecessor == HeadOf(chain)
    ensures Depth(chain, s.jobs[j].payload.key) == |chain|
  {
    var key := s.jobs[j].payload.key;
    var k := Depth(chain, key);
    HeadDepth(chain, key);
    PlacedPath(e, chain, sources, key);
    if k < |chain| {
      var t := DiskHistory(e, s, chain, sources);
      UnfinishedIsNotOnChain(s.jobs, chain, sources, j);
      assert t[..k] == sources[..k] && t[k..][0] == sources[k];
      BranchIdDiffers(e, t, k, key.source);
    }
  }

  /** At most one unfinished job can own the tree on disk. */
  lemma DiskOwnerIsUnique(e: Exporter, s: System, chain: seq<JobId>, sources: seq<nat>, i: JobId, j: JobId)
    requires Separating(e) && StampsSource(e) && ChainOk(s.jobs, chain, sources) && KeysUnique(s.jobs)
    requires RowsOk(e, s, chain, sources) && RecordsOk(e, s, sources) && DiskOk(e, s, chain, sources)
    requires i in s.jobs && !s.jobs[i].status.Succeeded? && j in s.jobs && !s.jobs[j].status.Succeeded?
    requires s.disk == Some(KeyId(e, chain, sources, s.jobs[i].payload.key))
    requires s.disk == Some(KeyId(e, chain, sources, s.jobs[j].payload.key))
    ensures i == j
  {
    DiskOwnerIsNext(e, s, chain, sources, i);
    DiskOwnerIsNext(e, s, chain, sources, j);
    assert s.disk.value.source == s.jobs[i].payload.key.source == s.jobs[j].payload.key.source;
    assert SameKey(s.jobs, i, j);
  }

  /** The tree a worker's fence still sees is the head's, and its job comes next. */
  lemma FencedPredecessorIsHead(e: Exporter, s: System, chain: seq<JobId>, sources: seq<nat>, key: Key)
    requires Separating(e) && StampsSource(e) && ChainOk(s.jobs, chain, sources)
    requires RowsOk(e, s, chain, sources) && RecordsOk(e, s, sources) && DiskOk(e, s, chain, sources)
    requires Known(chain, key) && s.disk == Id(e, sources[..Depth(chain, key)])
    ensures key.predecessor == HeadOf(chain) && s.disk == Id(e, sources)
  {
    var k := Depth(chain, key);
    HeadDepth(chain, key);
    var t := DiskHistory(e, s, chain, sources);
    assert t[..k] == sources[..k] && sources[..|sources|] == sources;
    if k < |t| { ChainIdsDiffer(e, t, k); }
  }

  /** While the head's own tree is on disk, nobody's unfinished tree is. */
  lemma HeadTreeIsNobodysIntent(e: Exporter, s: System, chain: seq<JobId>, sources: seq<nat>, j: JobId)
    requires Separating(e) && StampsSource(e) && ChainOk(s.jobs, chain, sources) && KeysUnique(s.jobs)
    requires RowsOk(e, s, chain, sources) && RecordsOk(e, s, sources) && DiskOk(e, s, chain, sources)
    requires s.disk == Id(e, sources)
    requires j in s.jobs && !s.jobs[j].status.Succeeded? && s.jobs[j].payload.body.Intent?
    ensures s.disk != Some(KeyId(e, chain, sources, s.jobs[j].payload.key))
  {
    if s.disk == Some(KeyId(e, chain, sources, s.jobs[j].payload.key)) {
      DiskOwnerIsNext(e, s, chain, sources, j);
      OwnerTreeIsNew(e, s, chain, sources, j);
    }
  }

  lemma OwnerTreeIsNew(e: Exporter, s: System, chain: seq<JobId>, sources: seq<nat>, j: JobId)
    requires Separating(e) && ChainOk(s.jobs, chain, sources)
    requires RowsOk(e, s, chain, sources) && RecordsOk(e, s, sources)
    requires j in s.jobs && s.jobs[j].payload.key.predecessor == HeadOf(chain)
    requires !s.jobs[j].status.Succeeded? && s.jobs[j].payload.body.Intent?
    ensures Some(s.jobs[j].payload.body.identity) != Id(e, sources)
    ensures s.jobs[j].payload.body.identity == KeyId(e, chain, sources, s.jobs[j].payload.key)
  {
    OwnerHistory(e, s, chain, sources, j);
    var t := sources + [s.jobs[j].payload.key.source];
    assert t[..|sources|] == sources;
    ChainIdsDiffer(e, t, |sources|);
    assert RowOk(e, chain, sources, s.jobs[j]);
  }

  // ----- Steps that leave the chain alone -----

  /** Rows keep their key; success and a declared intent are never taken back. */
  ghost predicate Evolves(jobs: JobTable, jobs': JobTable) {
    forall j :: j in jobs ==>
      && j in jobs' && jobs'[j].payload.key == jobs[j].payload.key
      && (jobs[j].status.Succeeded? ==> jobs'[j].status.Succeeded?)
      && (jobs[j].payload.body.Intent? ==>
            jobs'[j].status.Succeeded? || jobs'[j].payload.body == jobs[j].payload.body)
  }

  lemma WorkersOkFrame(e: Exporter, s: System, s': System, chain: seq<JobId>, sources: seq<nat>)
    requires |sources| == |chain| && WorkersOk(e, s, chain, sources)
    requires Evolves(s.jobs, s'.jobs) && s'.disk == s.disk && s'.workers == s.workers
    ensures WorkersOk(e, s', chain, sources)
  {
  }

  lemma BecomeOk(e: Exporter, s: System, chain: seq<JobId>, sources: seq<nat>, w: nat, state: Worker)
    requires Inv(e, s, chain, sources) && WorkerOk(e, s, chain, sources, state)
    ensures Inv(e, Become(s, w, state), chain, sources)
  {
    var s' := Become(s, w, state);
    forall j | OwnsDisk(s, chain, j) ensures OwnsDisk(s', chain, j) {}
    BecomeWorkersOk(e, s, chain, sources, w, state);
  }

  lemma BecomeWorkersOk(e: Exporter, s: System, chain: seq<JobId>, sources: seq<nat>, w: nat, state: Worker)
    requires |sources| == |chain| && WorkersOk(e, s, chain, sources) && WorkerOk(e, s, chain, sources, state)
    ensures WorkersOk(e, Become(s, w, state), chain, sources)
  {
    var s' := Become(s, w, state);
    var s1 := s'.(workers := s.workers);
    assert s1 == s;
  }

  /** An update of one unfinished row that keeps its key and declares at most its own tree. */
  ghost predicate Harmless(e: Exporter, chain: seq<JobId>, sources: seq<nat>, row: ExportJob, row': ExportJob)
    requires |sources| == |chain|
  {
    || row' == row
    || (&& !row.status.Succeeded? && !row'.status.Succeeded? && row'.payload.key == row.payload.key
        && RowOk(e, chain, sources, row')
        && (row.payload.body.Intent? ==> row'.payload.body == row.payload.body))
  }

  /** Records may appear, start, or fail, but a success is neither made nor undone. */
  ghost predicate RecordsKept(records: map<nat, Record>, records': map<nat, Record>) {
    && (forall y :: y in records ==> y in records')
    && (forall y :: y in records && records[y].RecordSucceeded? ==> records'[y] == records[y])
    && (forall y :: y in records' && records'[y].RecordSucceeded? ==> y in records && records[y] == records'[y])
  }

  lemma RowUpdateOk(e: Exporter, s: System, chain: seq<JobId>, sources: seq<nat>, j: JobId, row': ExportJob,
                    token: nat, records: map<nat, Record>)
    requires Inv(e, s, chain, sources) && j in s.jobs
    requires Harmless(e, chain, sources, s.jobs[j], row') && RecordsKept(s.records, records)
    ensures Inv(e, s.(jobs := s.jobs[j := row'], nextToken := token, records := records), chain, sources)
  {
    var s' := s.(jobs := s.jobs[j := row'], nextToken := token, records := records);
    HarmlessEvolves(e, s.jobs, chain, sources, j, row');
    RowUpdateChainOk(s.jobs, chain, sources, j, row');
    RowUpdateRowsOk(e, s, chain, sources, j, row', token, records);
    RecordsOkFrame(e, s, s', sources);
    RowUpdateDiskOk(e, s, chain, sources, j, row', token, records);
    WorkersOkFrame(e, s, s', chain, sources);
  }

  lemma RecordsOkFrame(e: Exporter, s: System, s': System, sources: seq<nat>)
    requires RecordsOk(e, s, sources) && RecordsKept(s.records, s'.records)
    requires forall j :: j in s'.jobs && e.recorded(s'.jobs[j].payload.key.source) ==>
               || s'.jobs[j].payload.key.source in s'.records
               || (j in s.jobs && s'.jobs[j].payload.key == s.jobs[j].payload.key)
    ensures RecordsOk(e, s', sources)
  {
    forall i | 0 <= i < |sources| ensures RecordAt(e, s'.records, sources, i) {
      assert RecordAt(e, s.records, sources, i);
    }
  }

  lemma HarmlessEvolves(e: Exporter, jobs: JobTable, chain: seq<JobId>, sources: seq<nat>, j: JobId, row': ExportJob)
    requires |sources| == |chain| && j in jobs && Harmless(e, chain, sources, jobs[j], row')
    ensures Evolves(jobs, jobs[j := row'])
    ensures row'.payload.key == jobs[j].payload.key && (row'.status.Succeeded? <==> jobs[j].status.Succeeded?)
  {
  }

  lemma RowUpdateRowsOk(e: Exporter, s: System, chain: seq<JobId>, sources: seq<nat>, j: JobId, row': ExportJob,
                        token: nat, records: map<nat, Record>)
    requires |sources| == |chain| && RowsOk(e, s, chain, sources) && j in s.jobs
    requires Harmless(e, chain, sources, s.jobs[j], row')
    ensures RowsOk(e, s.(jobs := s.jobs[j := row'], nextToken := token, records := records), chain, sources)
  {
    assert RowOk(e, chain, sources, row');
  }

  lemma RowUpdateChainOk(jobs: JobTable, chain: seq<JobId>, sources: seq<nat>, j: JobId, row': ExportJob)
    requires ChainOk(jobs, chain, sources) && KeysUnique(jobs) && j in jobs
    requires row'.payload.key == jobs[j].payload.key && (row'.status.Succeeded? <==> jobs[j].status.Succeeded?)
    ensures ChainOk(jobs[j := row'], chain, sources) && KeysUnique(jobs[j := row'])
  {
    LinksKept(jobs, jobs[j := row'], chain, sources);
    UniqueKeysKept(jobs, jobs[j := row']);
  }

  lemma LinksKept(jobs: JobTable, jobs': JobTable, chain: seq<JobId>, sources: seq<nat>)
    requires |sources| == |chain| && forall i :: 0 <= i < |chain| ==> Linked(jobs, chain, sources, i)
    requires forall j :: j in jobs ==> j in jobs' && jobs'[j].payload.key == jobs[j].payload.key
    ensures forall i :: 0 <= i < |chain| ==> Linked(jobs', chain, sources, i)
  {
    forall i | 0 <= i < |chain| ensures Linked(jobs', chain, sources, i) {
      assert Linked(jobs, chain, sources, i);
    }
  }

  lemma UniqueKeysKept(jobs: JobTable, jobs': JobTable)
    requires KeysUnique(jobs) && jobs'.Keys == jobs.Keys
    requires forall j :: j in jobs ==> jobs'[j].payload.key == jobs[j].payload.key
    ensures KeysUnique(jobs')
  {
    forall i, j | SameKey(jobs', i, j) ensures i == j {
      assert SameKey(jobs, i, j);
    }
  }

  lemma RowUpdateDiskOk(e: Exporter, s: System, chain: seq<JobId>, sources: seq<nat>, j: JobId, row': ExportJob,
                        token: nat, records: map<nat, Record>)
    requires |sources| == |chain| && DiskOk(e, s, chain, sources) && j in s.jobs
    requires Harmless(e, chain, sources, s.jobs[j], row')
    ensures DiskOk(e, s.(jobs := s.jobs[j := row'], nextToken := token, records := records), chain, sources)
  {
    var s' := s.(jobs := s.jobs[j := row'], nextToken := token, records := records);
    forall i | OwnsDisk(s, chain, i) ensures OwnsDisk(s', chain, i) {}
  }

  lemma EnqueueOk(e: Exporter, s: System, chain: seq<JobId>, sources: seq<nat>, row: ExportJob,
                  token: nat, records: map<nat, Record>)
    requires Inv(e, s, chain, sources)
    requires Placed(chain, sources, row.payload.key)
    requires !Exists(s.jobs, row.payload.key)
    requires RecordsKept(s.records, records) && (e.recorded(row.payload.key.source) ==> row.payload.key.source in records)
    requires !row.status.Succeeded? && row.payload.body == Base && (row.lease.Some? ==> row.attempts >= 1)
    ensures Inv(e, s.(jobs := s.jobs[s.nextJob := row], nextJob := s.nextJob + 1, nextToken := token, records := records), chain, sources)
  {
    var s' := s.(jobs := s.jobs[s.nextJob := row], nextJob := s.nextJob + 1, nextToken := token, records := records);
    assert s.nextJob !in s.jobs;
    EnqueueChainOk(s.jobs, chain, sources, s.nextJob, row);
    EnqueueRowsOk(e, s, chain, sources, row, token, records);
    RecordsOkFrame(e, s, s', sources);
    EnqueueDiskOk(e, s, chain, sources, row, token, records);
    WorkersOkFrame(e, s, s', chain, sources);
  }

  lemma EnqueueRowsOk(e: Exporter, s: System, chain: seq<JobId>, sources: seq<nat>, row: ExportJob,
                  token: nat, records: map<nat, Record>)
    requires |sources| == |chain| && RowsOk(e, s, chain, sources) && RowOk(e, chain, sources, row)
    ensures RowsOk(e, s.(jobs := s.jobs[s.nextJob := row], nextJob := s.nextJob + 1, nextToken := token, records := records), chain, sources)
  {
  }

  lemma EnqueueDiskOk(e: Exporter, s: System, chain: seq<JobId>, sources: seq<nat>, row: ExportJob,
                  token: nat, records: map<nat, Record>)
    requires DiskOk(e, s, chain, sources) && s.nextJob !in s.jobs
    ensures DiskOk(e, s.(jobs := s.jobs[s.nextJob := row], nextJob := s.nextJob + 1, nextToken := token, records := records), chain, sources)
  {
    var s' := s.(jobs := s.jobs[s.nextJob := row], nextJob := s.nextJob + 1, nextToken := token, records := records);
    forall i | OwnsDisk(s, chain, i) ensures OwnsDisk(s', chain, i) {}
  }

  lemma EnqueueChainOk(jobs: JobTable, chain: seq<JobId>, sources: seq<nat>, j: JobId, row: ExportJob)
    requires ChainOk(jobs, chain, sources) && KeysUnique(jobs) && j !in jobs
    requires !Exists(jobs, row.payload.key) && !row.status.Succeeded?
    ensures ChainOk(jobs[j := row], chain, sources) && KeysUnique(jobs[j := row])
  {
    var jobs' := jobs[j := row];
    LinksKept(jobs, jobs', chain, sources);
    forall a, b | SameKey(jobs', a, b) ensures a == b {
      if a != j && b != j { assert SameKey(jobs, a, b); }
    }
  }

  // ----- The step that extends the chain -----

  lemma KeyIdExtends(e: Exporter, chain: seq<JobId>, sources: seq<nat>, key: Key, j: JobId, source: nat)
    requires Known(chain, key) && |sources| == |chain| && Distinct(chain + [j])
    ensures Known(chain + [j], key)
    ensures Depth(chain + [j], key) == Depth(chain, key)
    ensures (sources + [source])[..Depth(chain, key)] == sources[..Depth(chain, key)]
    ensures Placed(chain, sources, key) ==> Placed(chain + [j], sources + [source], key)
  {
    var longer := chain + [j];
    if key.predecessor.Some? {
      var k, k' := Depth(chain, key), Depth(longer, key);
      assert longer[k - 1] == key.predecessor.value == longer[k' - 1];
    }
  }

  function Exported(e: Exporter, records: map<nat, Record>, source: nat, tree: nat): map<nat, Record> {
    if e.recorded(source) then records[source := RecordSucceeded(tree)] else records
  }

  /** Completing the owner of the disk, with its records, appends it to the chain. */
  lemma SucceedOk(e: Exporter, s: System, chain: seq<JobId>, sources: seq<nat>, j: JobId, row': ExportJob)
    requires Separating(e) && StampsSource(e) && Inv(e, s, chain, sources)
    requires j in s.jobs && !s.jobs[j].status.Succeeded? && s.jobs[j].payload.body.Intent?
    requires s.disk == Some(s.jobs[j].payload.body.identity)
    requires row'.status.Succeeded? && row'.payload.key == s.jobs[j].payload.key && row'.lease == None
    requires row'.payload.body == Result(s.disk.value)
    ensures var records := Exported(e, s.records, row'.payload.key.source, s.disk.value.tree);
            Inv(e, s.(jobs := s.jobs[j := row'], records := records), chain + [j], sources + [row'.payload.key.source])
    ensures s.disk == Id(e, sources + [row'.payload.key.source])
  {
    var source := row'.payload.key.source;
    var s' := s.(jobs := s.jobs[j := row'], records := Exported(e, s.records, source, s.disk.value.tree));
    OwnerRow(e, s, chain, sources, j);
    DiskOwnerIsNext(e, s, chain, sources, j);
    OwnerHistory(e, s, chain, sources, j);
    SucceedChainOk(s.jobs, chain, sources, j, row');
    SucceedRowsOk(e, s, s', chain, sources, j, row');
    SucceedEvolves(s.jobs, j, row');
    SucceedRecordsOk(e, s, s', sources, source, s.disk.value);
    SucceedWorkersOk(e, s, s', chain, sources, j, source);
  }

  lemma OwnerRow(e: Exporter, s: System, chain: seq<JobId>, sources: seq<nat>, j: JobId)
    requires StampsSource(e) && |sources| == |chain| && RowsOk(e, s, chain, sources)
    requires j in s.jobs && !s.jobs[j].status.Succeeded? && s.jobs[j].payload.body.Intent?
    ensures var key, id := s.jobs[j].payload.key, s.jobs[j].payload.body.identity;
            && Placed(chain, sources, key) && id == KeyId(e, chain, sources, key) && id.source == key.source
            && Agrees(e, sources, Depth(chain, key), key.source, id)
  {
    assert RowOk(e, chain, sources, s.jobs[j]);
  }

  lemma SucceedEvolves(jobs: JobTable, j: JobId, row': ExportJob)
    requires j in jobs && row'.payload.key == jobs[j].payload.key && row'.status.Succeeded?
    ensures Evolves(jobs, jobs[j := row'])
  {
  }

  lemma SucceedRecordsOk(e: Exporter, s: System, s': System, sources: seq<nat>, source: nat, id: Identity)
    requires RecordsOk(e, s, sources) && s'.records == Exported(e, s.records, source, id.tree)
    requires Evolves(s.jobs, s'.jobs) && s'.jobs.Keys == s.jobs.Keys
    requires Id(e, sources + [source]) == Some(id) && id.source == source
    requires Agrees(e, sources, |sources|, source, id)
    ensures RecordsOk(e, s', sources + [source])
  {
    var t := sources + [source];
    PublishedIdExtends(e, sources, source);
    forall i | 0 <= i < |t| ensures RecordAt(e, s'.records, t, i) {
      if i < |sources| { assert RecordAt(e, s.records, sources, i); }
    }
    assert t[|sources|] == source;
  }

  lemma SucceedWorkersOk(e: Exporter, s: System, s': System, chain: seq<JobId>, sources: seq<nat>, j: JobId, source: nat)
    requires |sources| == |chain| && Distinct(chain + [j]) && WorkersOk(e, s, chain, sources)
    requires Evolves(s.jobs, s'.jobs) && s'.disk == s.disk && s'.workers == s.workers
    ensures WorkersOk(e, s', chain + [j], sources + [source])
  {
    forall v | v in s'.workers ensures WorkerOk(e, s', chain + [j], sources + [source], s'.workers[v]) {
      SucceedWorkerOk(e, s, s', chain, sources, j, source, s'.workers[v]);
    }
  }

  lemma SucceedChainOk(jobs: JobTable, chain: seq<JobId>, sources: seq<nat>, j: JobId, row': ExportJob)
    requires ChainOk(jobs, chain, sources) && KeysUnique(jobs)
    requires j in jobs && !jobs[j].status.Succeeded? && Placed(chain, sources, row'.payload.key)
    requires row'.payload.key == jobs[j].payload.key && row'.payload.key.predecessor == HeadOf(chain)
    requires row'.status.Succeeded?
    ensures ChainOk(jobs[j := row'], chain + [j], sources + [row'.payload.key.source]) && KeysUnique(jobs[j := row'])
  {
    var jobs', chain', sources' := jobs[j := row'], chain + [j], sources + [row'.payload.key.source];
    HeadDepth(chain, row'.payload.key);
    LinksKept(jobs, jobs', chain, sources);
    UniqueKeysKept(jobs, jobs');
    forall i | 0 <= i < |chain'| ensures Linked(jobs', chain', sources', i) {
      if i < |chain| { assert Linked(jobs', chain, sources, i); }
    }
  }

  lemma SucceedRowsOk(e: Exporter, s: System, s': System, chain: seq<JobId>, sources: seq<nat>, j: JobId, row': ExportJob)
    requires |sources| == |chain| && RowsOk(e, s, chain, sources) && Distinct(chain + [j])
    requires j in s.jobs && row'.payload.key == s.jobs[j].payload.key && row'.status.Succeeded? && row'.lease == None
    requires row'.payload.body == Result(KeyId(e, chain, sources, row'.payload.key))
    requires s'.jobs == s.jobs[j := row'] && s'.nextJob == s.nextJob
    ensures RowsOk(e, s', chain + [j], sources + [row'.payload.key.source])
  {
    forall i | i in s'.jobs ensures RowOk(e, chain + [j], sources + [row'.payload.key.source], s'.jobs[i]) {
      assert RowOk(e, chain, sources, s.jobs[i]);
      SucceedRowOk(e, chain, sources, j, row'.payload.key.source, s.jobs[i]);
      if i == j { SucceedRowOk(e, chain, sources, j, row'.payload.key.source, row'); }
    }
  }

  lemma SucceedRowOk(e: Exporter, chain: seq<JobId>, sources: seq<nat>, j: JobId, source: nat, row: ExportJob)
    requires |sources| == |chain| && Distinct(chain + [j]) && RowOk(e, chain, sources, row)
    ensures RowOk(e, chain + [j], sources + [source], row)
  {
    KeyIdExtends(e, chain, sources, row.payload.key, j, source);
    HistoryExtends(e, sources, source, Depth(chain, row.payload.key), row.payload.key.source);
  }

  /** What was published up to some depth does not depend on what came later. */
  lemma HistoryExtends(e: Exporter, sources: seq<nat>, later: nat, depth: nat, source: nat)
    requires depth <= |sources|
    ensures forall id :: Agrees(e, sources, depth, source, id) ==> Agrees(e, sources + [later], depth, source, id)
    ensures forall r :: ReusedOk(e, sources, depth, source, r) ==> ReusedOk(e, sources + [later], depth, source, r)
  {
    PublishedIdExtends(e, sources, later);
    assert (sources + [later])[..depth] == sources[..depth];
  }

  lemma AttemptExtends(e: Exporter, s: System, s': System, chain: seq<JobId>, sources: seq<nat>, j: JobId, source: nat, a: Attempt)
    requires |sources| == |chain| && Distinct(chain + [j])
    requires AttemptOk(e, s, chain, sources, a) && Evolves(s.jobs, s'.jobs)
    ensures AttemptOk(e, s', chain + [j], sources + [source], a)
    ensures Depth(chain + [j], a.key) == Depth(chain, a.key)
    ensures KeyId(e, chain + [j], sources + [source], a.key) == KeyId(e, chain, sources, a.key)
    ensures forall id :: Agrees(e, sources, Depth(chain, a.key), a.key.source, id) ==>
                           Agrees(e, sources + [source], Depth(chain, a.key), a.key.source, id)
  {
    KeyIdExtends(e, chain, sources, a.key, j, source);
    HistoryExtends(e, sources, source, Depth(chain, a.key), a.key.source);
  }

  lemma SucceedWorkerOk(e: Exporter, s: System, s': System, chain: seq<JobId>, sources: seq<nat>,
                        j: JobId, source: nat, state: Worker)
    requires |sources| == |chain| && Distinct(chain + [j])
    requires WorkerOk(e, s, chain, sources, state) && Evolves(s.jobs, s'.jobs) && s'.disk == s.disk
    ensures WorkerOk(e, s', chain + [j], sources + [source], state)
  {
    match state
    case Idle(_) =>
    case Prepared(a) => AttemptExtends(e, s, s', chain, sources, j, source, a);
    case Failing(a, _) => AttemptExtends(e, s, s', chain, sources, j, source, a);
    case Rendered(a, _, _) => AttemptExtends(e, s, s', chain, sources, j, source, a);
    case Intended(a, _, _) => AttemptExtends(e, s, s', chain, sources, j, source, a);
    case Published(a, _) => AttemptExtends(e, s, s', chain, sources, j, source, a);
    case Recovering(c) => KeyIdExtends(e, chain, sources, c.row.payload.key, j, source);
    case Scanning(todo, matching) =>
      forall i | 0 <= i < |todo| ensures CandidateOk(e, s', chain + [j], sources + [source], todo[i]) {
        KeyIdExtends(e, chain, sources, todo[i].row.payload.key, j, source);
      }
      forall i | 0 <= i < |matching| ensures MatchOk(e, s', chain + [j], sources + [source], matching[i]) {
        KeyIdExtends(e, chain, sources, matching[i].row.payload.key, j, source);
      }
  }

  // ----- The step that replaces the tree -----

  /** Publishing under an intact fence: the job is next and now owns the disk. */
  lemma ReplaceTreeOk(e: Exporter, s: System, chain: seq<JobId>, sources: seq<nat>, a: Attempt, id: Identity)
    requires Separating(e) && StampsSource(e) && Inv(e, s, chain, sources)
    requires WorkerOk(e, s, chain, sources, Intended(a, id, s.disk))
    ensures Inv(e, s.(disk := Some(id)), chain, sources)
    ensures Settled(s.(disk := Some(id)), a.job, id)
  {
    var s' := s.(disk := Some(id));
    if s.disk == Some(id) {
      assert s' == s;
    } else {
      FencedPredecessorIsHead(e, s, chain, sources, a.key);
      HeadHasNoSuccessor(s.jobs, chain, sources, a.job);
      assert OwnsDisk(s', chain, a.job);
      forall v | v in s'.workers ensures WorkerOk(e, s', chain, sources, s'.workers[v]) {
        ReplaceTreeWorkerOk(e, s, chain, sources, id, s'.workers[v]);
      }
    }
  }

  lemma HeadHasNoSuccessor(jobs: JobTable, chain: seq<JobId>, sources: seq<nat>, j: JobId)
    requires ChainOk(jobs, chain, sources) && j in jobs && jobs[j].payload.key.predecessor == HeadOf(chain)
    ensures !jobs[j].status.Succeeded?
  {
    forall i | 0 <= i < |chain| ensures chain[i] != j {
      PredecessorIsNotHead(jobs, chain, sources, i);
    }
  }

  lemma PredecessorIsNotHead(jobs: JobTable, chain: seq<JobId>, sources: seq<nat>, i: nat)
    requires ChainOk(jobs, chain, sources) && i < |chain|
    ensures jobs[chain[i]].payload.key.predecessor != HeadOf(chain)
  {
    assert Linked(jobs, chain, sources, i);
  }

  lemma ReplaceTreeWorkerOk(e: Exporter, s: System, chain: seq<JobId>, sources: seq<nat>, id: Identity, state: Worker)
    requires Separating(e) && StampsSource(e) && ChainOk(s.jobs, chain, sources) && KeysUnique(s.jobs)
    requires RowsOk(e, s, chain, sources) && RecordsOk(e, s, sources) && DiskOk(e, s, chain, sources)
    requires WorkerOk(e, s, chain, sources, state)
    requires s.disk == Id(e, sources)
    ensures WorkerOk(e, s.(disk := Some(id)), chain, sources, state)
  {
    match state
    case Published(a, _) =>
      if !s.jobs[a.job].status.Succeeded? { HeadTreeIsNobodysIntent(e, s, chain, sources, a.job); }
    case Recovering(c) =>
      if !s.jobs[c.job].status.Succeeded? { HeadTreeIsNobodysIntent(e, s, chain, sources, c.job); }
    case Scanning(todo, matching) =>
      forall i | 0 <= i < |matching| ensures MatchOk(e, s.(disk := Some(id)), chain, sources, matching[i]) {
        var c := matching[i];
        if !s.jobs[c.job].status.Succeeded? { HeadTreeIsNobodysIntent(e, s, chain, sources, c.job); }
      }
    case _ =>
  }
}
