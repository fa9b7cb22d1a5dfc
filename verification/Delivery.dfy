/** Content-scoped delivery: failures stay inside one content, and the counts of the receipt
    add up. */
module Delivery {
  import opened Wrappers

  type ContentId = nat
  type AssetId = nat

  /** The closed table of error codes, in the order of their names, and the two codes of a
      failed download. */
  datatype Code =
    | AssetNotVerified
    | AssetSourceIneligible
    | DownloadRequestScopeMismatch
    | DownloadResultScopeMismatch
    | DownloadRetryable
    | DownloadTerminal
    | ExportRequestScopeMismatch
    | LocatorRefreshAssetNotFound
    | LocatorRefreshConfigurationInvalid
    | LocatorRefreshCredentialsUnavailable
    | LocatorRefreshRetryable
    | LocatorRefreshTemporary
    | LocatorRefreshTerminal
    | MediaMuxUnavailable
    | MediaProbeUnavailable
    | MediacrawlerLicenseRequired
    | MediacrawlerNotEnabled
    | MediacrawlerRuntimeUnavailable
    | OutputDirectoryInvalid
    | OutputDirectoryUnavailable
    | SelectionChanged
    | SubscriptionInvalid
    | SubscriptionNotFound
    | XhsDetailAuthorityRequired

  /** The codes in the order of their names. */
  const CODES: seq<Code> := [
    AssetNotVerified, AssetSourceIneligible, DownloadRequestScopeMismatch, DownloadResultScopeMismatch,
    DownloadRetryable, DownloadTerminal, ExportRequestScopeMismatch, LocatorRefreshAssetNotFound,
    LocatorRefreshConfigurationInvalid, LocatorRefreshCredentialsUnavailable, LocatorRefreshRetryable, LocatorRefreshTemporary,
    LocatorRefreshTerminal, MediaMuxUnavailable, MediaProbeUnavailable, MediacrawlerLicenseRequired,
    MediacrawlerNotEnabled, MediacrawlerRuntimeUnavailable, OutputDirectoryInvalid, OutputDirectoryUnavailable,
    SelectionChanged, SubscriptionInvalid, SubscriptionNotFound, XhsDetailAuthorityRequired
  ]

  function Rank(c: Code): (n: nat)
    ensures n < |CODES| && CODES[n] == c
  {
    match c
    case AssetNotVerified => 0
    case AssetSourceIneligible => 1
    case DownloadRequestScopeMismatch => 2
    case DownloadResultScopeMismatch => 3
    case DownloadRetryable => 4
    case DownloadTerminal => 5
    case ExportRequestScopeMismatch => 6
    case LocatorRefreshAssetNotFound => 7
    case LocatorRefreshConfigurationInvalid => 8
    case LocatorRefreshCredentialsUnavailable => 9
    case LocatorRefreshRetryable => 10
    case LocatorRefreshTemporary => 11
    case LocatorRefreshTerminal => 12
    case MediaMuxUnavailable => 13
    case MediaProbeUnavailable => 14
    case MediacrawlerLicenseRequired => 15
    case MediacrawlerNotEnabled => 16
    case MediacrawlerRuntimeUnavailable => 17
    case OutputDirectoryInvalid => 18
    case OutputDirectoryUnavailable => 19
    case SelectionChanged => 20
    case SubscriptionInvalid => 21
    case SubscriptionNotFound => 22
    case XhsDetailAuthorityRequired => 23
  }

  /** Whether a code may be retried is a matter of the table alone. */
  predicate Retryable(c: Code) {
    !c.DownloadRequestScopeMismatch? && !c.DownloadResultScopeMismatch? && !c.DownloadTerminal? &&
    !c.ExportRequestScopeMismatch? && !c.LocatorRefreshAssetNotFound? && !c.LocatorRefreshConfigurationInvalid? &&
    !c.LocatorRefreshTerminal? && !c.OutputDirectoryInvalid? && !c.SubscriptionInvalid? && !c.SubscriptionNotFound?
  }

  const MAX_FAILURE_CODES := 16

  /** How the download service answers: it raises, or returns an outcome. */
  datatype Answer = Raised(retryable: bool) | Returned(sameAsset: bool, verified: bool)

  /** One download: whether the request names the asset, and the answer. */
  datatype AssetRun = AssetRun(requestMatches: bool, answer: Answer)

  /** One selected content: what its preflight raises, and what each download returns. */
  datatype Content = Content(id: ContentId, preflight: Option<Code>, assets: seq<(AssetId, AssetRun)>)

  function FailureOf(r: AssetRun): Option<Code> {
    if !r.requestMatches then Some(DownloadRequestScopeMismatch)
    else match r.answer
      case Raised(retryable) => Some(if retryable then DownloadRetryable else DownloadTerminal)
      case Returned(sameAsset, verified) =>
        if !sameAsset then Some(DownloadResultScopeMismatch)
        else if !verified then Some(AssetNotVerified)
        else None
  }

  /** A download delivers exactly when it answers for its own asset with verified bytes.  A
      failure the download service classified keeps its class; a wrong scope is terminal,
      and missing verification may be retried. */
  lemma AnswerIsClassified(r: AssetRun)
    ensures FailureOf(r) == None <==> r.requestMatches && r.answer == Returned(true, true)
    ensures r.requestMatches && r.answer.Raised? ==>
              FailureOf(r) == Some(if r.answer.retryable then DownloadRetryable else DownloadTerminal) &&
              (Retryable(FailureOf(r).value) <==> r.answer.retryable)
    ensures !r.requestMatches ==> FailureOf(r) == Some(DownloadRequestScopeMismatch) && !Retryable(FailureOf(r).value)
    ensures r.requestMatches && r.answer.Returned? && !r.answer.sameAsset ==>
              FailureOf(r) == Some(DownloadResultScopeMismatch) && !Retryable(FailureOf(r).value)
    ensures r.requestMatches && r.answer == Returned(true, false) ==>
              FailureOf(r) == Some(AssetNotVerified) && Retryable(FailureOf(r).value)
  {
  }

  function FirstFailure(assets: seq<(AssetId, AssetRun)>): Option<Code> {
    if assets == [] then None
    else if FailureOf(assets[0].1).Some? then FailureOf(assets[0].1)
    else FirstFailure(assets[1..])
  }

  function Outcome(c: Content): Option<Code> {
    if c.preflight.Some? then c.preflight else FirstFailure(c.assets)
  }

  /** A content is delivered if and only if it passes its preflight and every download of it
      answers for its own asset with verified bytes; what the preflight raises comes first. */
  lemma {:induction false} DeliversExactly(c: Content)
    ensures Outcome(c) == None <==>
            c.preflight == None && forall k :: 0 <= k < |c.assets| ==> c.assets[k].1 == AssetRun(true, Returned(true, true))
    ensures c.preflight.Some? ==> Outcome(c) == c.preflight
    decreases |c.assets|
  {
    if c.preflight == None && c.assets != [] {
      AnswerIsClassified(c.assets[0].1);
      DeliversExactly(c.(assets := c.assets[1..]));
      assert forall k :: 0 < k < |c.assets| ==> c.assets[k] == c.assets[1..][k - 1];
    }
  }

  function AssetIds(assets: seq<(AssetId, AssetRun)>): seq<AssetId> {
    if assets == [] then [] else [assets[0].0] + AssetIds(assets[1..])
  }

  /** All downloads of the contents without a failure, in order, and none of the others. */
  function Delivered(contents: seq<Content>): seq<AssetId> {
    if contents == [] then []
    else Delivered(contents[..|contents| - 1]) + Delivery(contents[|contents| - 1])
  }

  /** What one content contributes: all of its assets or nothing. */
  function Delivery(c: Content): seq<AssetId> {
    if Outcome(c) == None then AssetIds(c.assets) else []
  }

  predicate DistinctIds(contents: seq<Content>) {
    forall i, k :: 0 <= i < k < |contents| ==> contents[i].id != contents[k].id
  }

  /** Exactly the failing contents, each under its first failure. */
  ghost predicate Failed(contents: seq<Content>, failed: map<ContentId, Code>) {
    && (forall i :: 0 <= i < |contents| ==> (contents[i].id in failed <==> Outcome(contents[i]).Some?))
    && (forall i :: 0 <= i < |contents| && contents[i].id in failed ==> Outcome(contents[i]) == Some(failed[contents[i].id]))
    && (forall id :: id in failed ==> exists i :: 0 <= i < |contents| && contents[i].id == id)
  }

  /** The inner loop of `_run_content_scoped` over one content. */
  method RunContent(c: Content) returns (outcomes: seq<AssetId>, failure: Option<Code>)
    ensures failure == Outcome(c)
    ensures failure == None ==> outcomes == AssetIds(c.assets)
  {
    outcomes := [];
    if c.preflight.Some? { return outcomes, c.preflight; }
    var i := 0;
    while i < |c.assets|
      invariant 0 <= i <= |c.assets|
      invariant FirstFailure(c.assets) == FirstFailure(c.assets[i..])
      invariant outcomes + AssetIds(c.assets[i..]) == AssetIds(c.assets)
    {
      var failed := FailureOf(c.assets[i].1);
      if failed.Some? { return outcomes, failed; }
      assert c.assets[i..][1..] == c.assets[i + 1..];
      outcomes := outcomes + [c.assets[i].0];
      i := i + 1;
    }
    return outcomes, None;
  }

  /** `_run_content_scoped` up to the export. */
  method RunContents(contents: seq<Content>) returns (outcomes: seq<AssetId>, failed: map<ContentId, Code>)
    requires DistinctIds(contents)
    ensures outcomes == Delivered(contents) && Failed(contents, failed)
  {
    outcomes, failed := [], map[];
    NothingDelivered();
    hide Failed, DistinctIds, Delivered, AssetIds, Outcome;
    assert contents[..0] == [];
    var i := 0;
    while i < |contents|
      invariant 0 <= i <= |contents|
      invariant outcomes == Delivered(contents[..i]) && Failed(contents[..i], failed)
    {
      var done, failure := RunContent(contents[i]);
      DeliveredGrows(contents, i);
      FreshId(contents, i, failed);
      if failure.Some? {
        RecordAndRemove(failed, contents[i].id, failure.value);
        failed := failed[contents[i].id := failure.value];
      } else {
        RecordAndRemove(failed, contents[i].id, DownloadTerminal);
        outcomes := outcomes + done;
      }
      FailedGrows(contents, i, failed);
      i := i + 1;
    }
    assert contents[..|contents|] == contents;
  }

  lemma NothingDelivered()
    ensures Delivered([]) == [] && Failed([], map[])
  {
  }

  lemma RecordAndRemove(failed: map<ContentId, Code>, id: ContentId, f: Code)
    requires id !in failed
    ensures failed - {id} == failed && failed[id := f] - {id} == failed
  {
  }

  lemma DeliveredGrows(contents: seq<Content>, i: nat)
    requires i < |contents|
    ensures Delivered(contents[..i + 1]) == Delivered(contents[..i]) + Delivery(contents[i])
  {
    assert contents[..i + 1][..i] == contents[..i];
  }

  lemma FreshId(contents: seq<Content>, i: nat, failed: map<ContentId, Code>)
    requires DistinctIds(contents) && i < |contents| && Failed(contents[..i], failed)
    ensures contents[i].id !in failed
  {
  }

  lemma FailedGrows(contents: seq<Content>, i: nat, failed: map<ContentId, Code>)
    requires DistinctIds(contents) && i < |contents|
    requires Failed(contents[..i], failed - {contents[i].id})
    requires contents[i].id in failed <==> Outcome(contents[i]).Some?
    requires contents[i].id in failed ==> Outcome(contents[i]) == Some(failed[contents[i].id])
    ensures Failed(contents[..i + 1], failed)
  {
    var id := contents[i].id;
    var upTo, before := contents[..i + 1], contents[..i];
    assert upTo == before + [contents[i]];
    forall k | k in failed ensures exists m :: 0 <= m < |upTo| && upTo[m].id == k {
      if k == id {
        assert upTo[i].id == k;
      } else {
        assert k in failed - {id};
        var m :| 0 <= m < |before| && before[m].id == k;
        assert upTo[m].id == k;
      }
    }
    forall m | 0 <= m < i ensures contents[m].id in failed <==> contents[m].id in failed - {id} {
      assert contents[m].id != id;
    }
  }

  // ----- The receipt -----

  datatype Summary = Summary(
    observed: nat, delivered: nat, failed: nat,
    retryBacklog: nat, deliveredRetryBacklog: nat, failedRetryBacklog: nat,
    retryable: nat, terminal: nat, failureCodes: seq<Code>, partial: bool
  )

  predicate StrictlySorted(s: seq<Code>) { forall i, k :: 0 <= i < k < |s| ==> Rank(s[i]) < Rank(s[k]) }

  /** `_subscription_delivery_summary`, the counting equations. */
  predicate ValidSummary(s: Summary) {
    && |s.failureCodes| <= MAX_FAILURE_CODES
    && s.delivered + s.failed == s.observed
    && s.deliveredRetryBacklog + s.failedRetryBacklog == s.retryBacklog
    && s.retryable + s.terminal == s.failed + s.failedRetryBacklog
    && (s.partial <==> s.failed + s.failedRetryBacklog > 0)
    && StrictlySorted(s.failureCodes)
    && (s.failureCodes != [] <==> s.failed + s.failedRetryBacklog > 0)
  }

  /** `sorted({..})`. */
  method SortCodes(codes: set<Code>) returns (sorted: seq<Code>)
    ensures StrictlySorted(sorted) && (forall c :: c in sorted <==> c in codes) && |sorted| == |codes|
  {
    sorted := [];
    var rest := codes;
    while rest != {}
      invariant rest <= codes && StrictlySorted(sorted) && |sorted| + |rest| == |codes|
      invariant forall c :: c in sorted <==> c in codes - rest
      invariant forall c, d :: c in sorted && d in rest ==> Rank(c) < Rank(d)
    {
      var least := MinimumOf(rest);
      assert forall i :: 0 <= i < |sorted| ==> sorted[i] in sorted;
      sorted := sorted + [least];
      rest := rest - {least};
    }
  }

  method MinimumOf(codes: set<Code>) returns (least: Code)
    requires codes != {}
    ensures least in codes && forall c :: c in codes ==> Rank(least) <= Rank(c)
  {
    least :| least in codes;
    var todo := codes - {least};
    while todo != {}
      invariant todo <= codes && least in codes
      invariant forall c :: c in codes && c !in todo ==> Rank(least) <= Rank(c)
    {
      var c :| c in todo;
      if Rank(c) < Rank(least) { least := c; }
      todo := todo - {c};
    }
  }

  function RetryableIds(failed: map<ContentId, Code>): set<ContentId> {
    set id | id in failed && Retryable(failed[id])
  }

  function TerminalIds(failed: map<ContentId, Code>): set<ContentId> {
    set id | id in failed && !Retryable(failed[id])
  }

  function CodesOf(failed: map<ContentId, Code>): set<Code> {
    set id | id in failed :: failed[id]
  }

  /** What every number of a receipt counts. */
  ghost predicate Counts(s: Summary, source: set<ContentId>, backlog: set<ContentId>, failed: map<ContentId, Code>) {
    && s.observed == |source| && s.failed == |failed.Keys * source| && s.delivered == |source - failed.Keys|
    && s.retryBacklog == |backlog| && s.failedRetryBacklog == |failed.Keys * backlog|
    && s.deliveredRetryBacklog == |backlog - failed.Keys|
    && s.retryable == |RetryableIds(failed)| && s.terminal == |TerminalIds(failed)|
    && StrictlySorted(s.failureCodes) && |s.failureCodes| == |CodesOf(failed)|
    && (forall c :: c in s.failureCodes <==> c in CodesOf(failed))
    && (s.partial <==> s.failed + s.failedRetryBacklog > 0)
  }

  /** The counts `run` derives from the failures, for a selection made of the contents of
      the source run and of the retry backlog. */
  method Summarize(source: set<ContentId>, selected: set<ContentId>, failed: map<ContentId, Code>) returns (s: Summary)
    ensures Counts(s, source, selected - source, failed)
  {
    var backlog := selected - source;
    var sourceFailures, backlogFailures := failed.Keys * source, failed.Keys * backlog;
    var sorted := SortCodes(CodesOf(failed));
    assert source - sourceFailures == source - failed.Keys && backlog - backlogFailures == backlog - failed.Keys;
    s := Summary(|source|, |source - sourceFailures|, |sourceFailures|,
                 |backlog|, |backlog - backlogFailures|, |backlogFailures|,
                 |RetryableIds(failed)|, |TerminalIds(failed)|, sorted,
                 |sourceFailures| + |backlogFailures| > 0);
  }

  /** Such a receipt meets every counting equation of its validator; the one thing that can
      still refuse it is the number of distinct failure codes. */
  lemma ReceiptBalances(s: Summary, source: set<ContentId>, backlog: set<ContentId>, failed: map<ContentId, Code>)
    requires source !! backlog && failed.Keys <= source + backlog && Counts(s, source, backlog, failed)
    ensures ValidSummary(s) <==> |CodesOf(failed)| <= MAX_FAILURE_CODES
  {
    hide ValidSummary;
    EveryContentCounted(s, source, backlog, failed);
    FailuresSplit(source, backlog, failed, RetryableIds(failed), TerminalIds(failed));
    CodesExist(failed, CodesOf(failed));
    EquationsMeet(s, |failed.Keys|);
  }

  lemma EquationsMeet(s: Summary, n: nat)
    requires s.delivered + s.failed == s.observed && s.deliveredRetryBacklog + s.failedRetryBacklog == s.retryBacklog
    requires s.retryable + s.terminal == n == s.failed + s.failedRetryBacklog
    requires StrictlySorted(s.failureCodes) && (s.partial <==> n > 0) && (|s.failureCodes| == 0 <==> n == 0)
    ensures ValidSummary(s) <==> |s.failureCodes| <= MAX_FAILURE_CODES
  {
  }

  lemma CodesExist(failed: map<ContentId, Code>, codes: set<Code>)
    requires codes == set id | id in failed :: failed[id]
    ensures |codes| == 0 <==> |failed.Keys| == 0
  {
    if id :| id in failed { assert failed[id] in codes; }
  }

  lemma FailuresSplit(source: set<ContentId>, backlog: set<ContentId>, failed: map<ContentId, Code>,
                      retryable: set<ContentId>, terminal: set<ContentId>)
    requires source !! backlog && failed.Keys <= source + backlog
    requires retryable == set id | id in failed && Retryable(failed[id])
    requires terminal == set id | id in failed && !Retryable(failed[id])
    ensures |retryable| + |terminal| == |failed.Keys| == |failed.Keys * source| + |failed.Keys * backlog|
  {
    SizesSplit(failed.Keys, retryable);
    SizesSplit(failed.Keys, failed.Keys * source);
    assert failed.Keys - retryable == terminal;
    assert failed.Keys - failed.Keys * source == failed.Keys * backlog;
  }

  lemma SizesSplit(whole: set<ContentId>, part: set<ContentId>)
    requires part <= whole
    ensures |whole - part| + |part| == |whole|
  {
    assert (whole - part) + part == whole && (whole - part) !! part;
  }

  // ----- The whole run -----

  function Ids(contents: seq<Content>): set<ContentId> {
    set i | 0 <= i < |contents| :: contents[i].id
  }

  /** The distinct reasons for which contents fail. */
  function FailureCodes(contents: seq<Content>): set<Code> {
    set i | 0 <= i < |contents| && Outcome(contents[i]).Some? :: Outcome(contents[i]).value
  }

  /** The contents that fail, and those among them whose failure may be retried. */
  function FailedIds(contents: seq<Content>): set<ContentId> {
    set i | 0 <= i < |contents| && Outcome(contents[i]).Some? :: contents[i].id
  }

  function RetryableFailures(contents: seq<Content>): set<ContentId> {
    set i | 0 <= i < |contents| && Outcome(contents[i]).Some? && Retryable(Outcome(contents[i]).value) :: contents[i].id
  }

  /** `_run_content_scoped`: every selected content is counted once, as delivered with all of
      its assets or as failed, retryably or not, and the receipt is valid if and only if the
      contents fail for at most sixteen reasons. */
  method RunContentScoped(contents: seq<Content>, source: set<ContentId>) returns (outcomes: seq<AssetId>, s: Summary)
    requires DistinctIds(contents) && source <= Ids(contents)
    ensures outcomes == Delivered(contents)
    ensures s.delivered + s.failed + s.deliveredRetryBacklog + s.failedRetryBacklog == |contents|
    ensures s.observed == |source| && s.observed + s.retryBacklog == |contents|
    ensures s.failed == |FailedIds(contents) * source| && s.failed + s.failedRetryBacklog == |FailedIds(contents)|
    ensures s.retryable == |RetryableFailures(contents)| && s.terminal == |FailedIds(contents) - RetryableFailures(contents)|
    ensures StrictlySorted(s.failureCodes) && forall c :: c in s.failureCodes <==> c in FailureCodes(contents)
    ensures ValidSummary(s) <==> |FailureCodes(contents)| <= MAX_FAILURE_CODES
  {
    var failed;
    outcomes, failed := RunContents(contents);
    s := Summarize(source, Ids(contents), failed);
    var backlog := Ids(contents) - source;
    CountsByContent(contents, s, source, backlog, failed);
    hide Failed, Delivered, Ids, FailureCodes, CodesOf, Counts, ValidSummary, FailedIds, RetryableFailures;
    FailedKeys(contents, failed);
    CodesAgree(contents, failed);
    SizeOfIds(contents);
    SizesSplit(Ids(contents), source);
    EveryContentCounted(s, source, backlog, failed);
    ReceiptBalances(s, source, backlog, failed);
  }

  /** The recorded failures are those of the contents, each with its class. */
  lemma FailuresByContent(contents: seq<Content>, failed: map<ContentId, Code>)
    requires Failed(contents, failed)
    ensures failed.Keys == FailedIds(contents) && RetryableIds(failed) == RetryableFailures(contents)
    ensures TerminalIds(failed) == FailedIds(contents) - RetryableFailures(contents)
  {
    forall id | id in failed ensures id in FailedIds(contents) && (Retryable(failed[id]) ==> id in RetryableFailures(contents)) {
      var i :| 0 <= i < |contents| && contents[i].id == id;
    }
    forall id | id in RetryableFailures(contents) ensures id in RetryableIds(failed) {
      var i :| 0 <= i < |contents| && Outcome(contents[i]).Some? && Retryable(Outcome(contents[i]).value) && contents[i].id == id;
    }
  }

  lemma CountsByContent(contents: seq<Content>, s: Summary, source: set<ContentId>, backlog: set<ContentId>, failed: map<ContentId, Code>)
    requires Failed(contents, failed) && Counts(s, source, backlog, failed)
    requires source <= Ids(contents) && backlog == Ids(contents) - source
    ensures s.failed == |FailedIds(contents) * source| && s.failed + s.failedRetryBacklog == |FailedIds(contents)|
    ensures s.retryable == |RetryableFailures(contents)| && s.terminal == |FailedIds(contents) - RetryableFailures(contents)|
    ensures StrictlySorted(s.failureCodes) && forall c :: c in s.failureCodes <==> c in FailureCodes(contents)
  {
    FailuresByContent(contents, failed);
    FailedKeys(contents, failed);
    CodesAgree(contents, failed);
    hide Failed, FailedIds, RetryableFailures, RetryableIds, TerminalIds, CodesOf, FailureCodes;
    KeysSplit(source, backlog, failed.Keys);
  }

  lemma KeysSplit(source: set<ContentId>, backlog: set<ContentId>, keys: set<ContentId>)
    requires source !! backlog && keys <= source + backlog
    ensures |keys * source| + |keys * backlog| == |keys|
  {
    SizesSplit(keys, keys * source);
    assert keys - keys * source == keys * backlog;
  }

  /** A content whose downloads succeed up to one that the download service fails is counted
      as retryable exactly if that failure was. */
  lemma DownloadFailureIsCounted(contents: seq<Content>, i: nat, k: nat)
    requires DistinctIds(contents) && i < |contents| && contents[i].preflight == None && k < |contents[i].assets|
    requires forall m :: 0 <= m < k ==> contents[i].assets[m].1 == AssetRun(true, Returned(true, true))
    requires contents[i].assets[k].1.requestMatches && contents[i].assets[k].1.answer.Raised?
    ensures contents[i].id in FailedIds(contents)
    ensures contents[i].id in RetryableFailures(contents) <==> contents[i].assets[k].1.answer.retryable
  {
    FailsFirstAt(contents[i].assets, k);
    AnswerIsClassified(contents[i].assets[k].1);
  }

  lemma {:induction false} FailsFirstAt(assets: seq<(AssetId, AssetRun)>, k: nat)
    requires k < |assets| && FailureOf(assets[k].1).Some?
    requires forall m :: 0 <= m < k ==> assets[m].1 == AssetRun(true, Returned(true, true))
    ensures FirstFailure(assets) == FailureOf(assets[k].1)
  {
    if k > 0 {
      assert FailureOf(assets[0].1) == None;
      FailsFirstAt(assets[1..], k - 1);
    }
  }

  lemma EveryContentCounted(s: Summary, source: set<ContentId>, backlog: set<ContentId>, failed: map<ContentId, Code>)
    requires Counts(s, source, backlog, failed)
    ensures s.observed == |source| && s.delivered + s.failed == |source|
    ensures s.retryBacklog == |backlog| && s.deliveredRetryBacklog + s.failedRetryBacklog == |backlog|
  {
    hide RetryableIds, TerminalIds, CodesOf, StrictlySorted;
    PartsCounted(source, failed.Keys);
    PartsCounted(backlog, failed.Keys);
  }

  lemma PartsCounted(whole: set<ContentId>, keys: set<ContentId>)
    ensures |whole - keys| + |keys * whole| == |whole|
  {
    SizesSplit(whole, keys * whole);
    assert whole - keys * whole == whole - keys;
  }

  lemma FailedKeys(contents: seq<Content>, failed: map<ContentId, Code>)
    requires Failed(contents, failed)
    ensures failed.Keys <= Ids(contents)
  {
  }

  lemma CodesAgree(contents: seq<Content>, failed: map<ContentId, Code>)
    requires Failed(contents, failed)
    ensures CodesOf(failed) == FailureCodes(contents)
  {
    forall c | c in CodesOf(failed) ensures c in FailureCodes(contents) {
      var id :| id in failed && failed[id] == c;
      var i :| 0 <= i < |contents| && contents[i].id == id;
    }
    forall c | c in FailureCodes(contents) ensures c in CodesOf(failed) {
      var i :| 0 <= i < |contents| && Outcome(contents[i]).Some? && Outcome(contents[i]).value == c;
      assert failed[contents[i].id] == c;
    }
  }

  lemma {:induction false} SizeOfIds(contents: seq<Content>)
    requires DistinctIds(contents)
    ensures |Ids(contents)| == |contents|
  {
    if contents != [] {
      var front, last := contents[..|contents| - 1], contents[|contents| - 1];
      assert contents == front + [last];
      SizeOfIds(front);
      IdsSnoc(front, last);
    }
  }

  lemma IdsSnoc(front: seq<Content>, last: Content)
    requires DistinctIds(front + [last])
    ensures Ids(front + [last]) == Ids(front) + {last.id} && last.id !in Ids(front)
  {
    var all := front + [last];
    assert all[|front|] == last;
    forall i | 0 <= i < |front| ensures all[i].id in Ids(front) && all[i].id != last.id {
      assert all[i] == front[i];
    }
    forall id | id in Ids(front) ensures id in Ids(all) && id != last.id {
      var i :| 0 <= i < |front| && front[i].id == id;
      assert all[i].id == id;
    }
  }

  /** A failing content contributes nothing, a clean one all of its assets. */
  lemma {:induction false} DeliveryIsPerContent(contents: seq<Content>, i: nat)
    requires i < |contents|
    ensures Delivered(contents) == Delivered(contents[..i]) + Delivery(contents[i]) + Delivered(contents[i + 1..])
    decreases |contents|
  {
    hide Delivery;
    var last := |contents| - 1;
    if i == last {
      assert contents[i + 1..] == [];
    } else {
      var front, tail := contents[..last], contents[i + 1..];
      DeliveryIsPerContent(front, i);
      assert front[..i] == contents[..i] && front[i] == contents[i];
      assert tail[..|tail| - 1] == front[i + 1..] && tail[|tail| - 1] == contents[last];
    }
  }
}
