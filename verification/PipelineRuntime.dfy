/** The wired pipeline: which codes its own preflight and downloads can fail with, and why
    every receipt of it is valid. */
module PipelineRuntime {
  import opened Wrappers
  import opened Delivery
  import OutputDirectories

  type Platform = OutputDirectories.Platform

  datatype Kind = Video | Audio | OtherKind

  /** What the locator refresher raises when it looks for its authority. */
  datatype RefreshError =
    | AuthorityRequired | ConfigurationInvalid | AssetMismatch | CredentialsUnavailable | Temporary
    | AssetNotFound | SourceUnavailable | SourceAmbiguous | SourceMismatch | OtherError(retryable: bool)

  /** `_xhs_preflight_pipeline_error`. */
  function RefreshCode(e: RefreshError): Code {
    match e
    case AuthorityRequired => XhsDetailAuthorityRequired
    case ConfigurationInvalid => LocatorRefreshConfigurationInvalid
    case AssetMismatch => LocatorRefreshConfigurationInvalid
    case CredentialsUnavailable => LocatorRefreshCredentialsUnavailable
    case Temporary => LocatorRefreshTemporary
    case AssetNotFound => LocatorRefreshAssetNotFound
    case SourceUnavailable => AssetSourceIneligible
    case SourceAmbiguous => AssetSourceIneligible
    case SourceMismatch => AssetSourceIneligible
    case OtherError(retryable) => if retryable then LocatorRefreshRetryable else LocatorRefreshTerminal
  }

  /** What is configured for one run, and the one platform of its author: the selector
      refuses contents and assets of any other. */
  datatype Config = Config(platform: Platform, enabled: bool, licensed: bool, python: bool, ffprobe: bool, ffmpeg: bool)

  /** What the host answers when a content is checked; it may change from one to the next. */
  datatype Host = Host(checkout: bool, ffprobe: bool, ffmpeg: bool)

  /** One selected asset; `settled` says that it is verified or failed for good, `refresh`
      that its locator needs MediaCrawler, and `refused` what the refresher raises. */
  datatype Asset = Asset(id: AssetId, settled: bool, refresh: bool, kind: Kind, refused: Option<RefreshError>, run: AssetRun)

  datatype Selected = Selected(id: ContentId, host: Host, assets: seq<Asset>)

  predicate NeedsCrawler(a: Asset) { !a.settled && a.refresh }

  predicate NeedsProbe(a: Asset) { !a.settled && (a.kind.Video? || a.kind.Audio?) }

  predicate NeedsMux(cfg: Config, a: Asset) { !a.settled && cfg.platform.Bili? && a.kind.Video? && a.refresh }

  /** The first capability that one asset misses. */
  function Refusal(cfg: Config, a: Asset): Option<Code> {
    if NeedsCrawler(a) && !cfg.enabled then Some(MediacrawlerNotEnabled)
    else if NeedsCrawler(a) && !cfg.licensed then Some(MediacrawlerLicenseRequired)
    else if NeedsCrawler(a) && !cfg.python then Some(MediacrawlerRuntimeUnavailable)
    else if NeedsCrawler(a) && cfg.platform.Xhs? && a.refused.Some? then Some(RefreshCode(a.refused.value))
    else if NeedsProbe(a) && !cfg.ffprobe then Some(MediaProbeUnavailable)
    else if NeedsMux(cfg, a) && !cfg.ffmpeg then Some(MediaMuxUnavailable)
    else None
  }

  function FirstRefusal(cfg: Config, assets: seq<Asset>): Option<Code> {
    if assets == [] then None
    else if Refusal(cfg, assets[0]).Some? then Refusal(cfg, assets[0])
    else FirstRefusal(cfg, assets[1..])
  }

  /** Every asset passes, and then what any of them needs must be ready on the host. */
  function Preflight(cfg: Config, host: Host, assets: seq<Asset>): Option<Code> {
    if FirstRefusal(cfg, assets).Some? then FirstRefusal(cfg, assets)
    else if (exists a :: a in assets && NeedsCrawler(a)) && !host.checkout then Some(MediacrawlerRuntimeUnavailable)
    else if (exists a :: a in assets && NeedsProbe(a)) && !host.ffprobe then Some(MediaProbeUnavailable)
    else if (exists a :: a in assets && NeedsMux(cfg, a)) && !host.ffmpeg then Some(MediaMuxUnavailable)
    else None
  }

  /** `_preflight_selection`. */
  method PreflightSelection(cfg: Config, host: Host, assets: seq<Asset>) returns (code: Option<Code>)
    ensures code == Preflight(cfg, host, assets)
  {
    var crawler, probe, mux := false, false, false;
    var i := 0;
    while i < |assets|
      invariant 0 <= i <= |assets|
      invariant FirstRefusal(cfg, assets) == FirstRefusal(cfg, assets[i..])
      invariant crawler <==> exists k :: 0 <= k < i && NeedsCrawler(assets[k])
      invariant probe <==> exists k :: 0 <= k < i && NeedsProbe(assets[k])
      invariant mux <==> exists k :: 0 <= k < i && NeedsMux(cfg, assets[k])
    {
      var a := assets[i];
      assert assets[i..][1..] == assets[i + 1..];
      if !a.settled {
        if a.refresh {
          if !cfg.enabled { return Some(MediacrawlerNotEnabled); }
          if !cfg.licensed { return Some(MediacrawlerLicenseRequired); }
          if !cfg.python { return Some(MediacrawlerRuntimeUnavailable); }
          if cfg.platform.Xhs? && a.refused.Some? { return Some(RefreshCode(a.refused.value)); }
          crawler := true;
        }
        if a.kind.Video? || a.kind.Audio? {
          if !cfg.ffprobe { return Some(MediaProbeUnavailable); }
          probe := true;
        }
        if cfg.platform.Bili? && a.kind.Video? && a.refresh {
          if !cfg.ffmpeg { return Some(MediaMuxUnavailable); }
          mux := true;
        }
      }
      i := i + 1;
    }
    if crawler && !host.checkout { return Some(MediacrawlerRuntimeUnavailable); }
    if probe && !host.ffprobe { return Some(MediaProbeUnavailable); }
    if mux && !host.ffmpeg { return Some(MediaMuxUnavailable); }
    return None;
  }

  /** Everything that an asset still to be downloaded needs is configured and ready. */
  predicate Ready(cfg: Config, host: Host, a: Asset) {
    !a.settled ==>
      && (a.refresh ==> cfg.enabled && cfg.licensed && cfg.python && host.checkout && (cfg.platform == OutputDirectories.Xhs ==> a.refused == None))
      && (a.kind == Video || a.kind == Audio ==> cfg.ffprobe && host.ffprobe)
      && (a.refresh && a.kind == Video && cfg.platform == OutputDirectories.Bili ==> cfg.ffmpeg && host.ffmpeg)
  }

  lemma {:induction false} NoRefusal(cfg: Config, assets: seq<Asset>)
    ensures FirstRefusal(cfg, assets) == None <==> forall i :: 0 <= i < |assets| ==> Refusal(cfg, assets[i]) == None
  {
    if assets != [] {
      NoRefusal(cfg, assets[1..]);
      assert forall i :: 0 < i < |assets| ==> assets[i] == assets[1..][i - 1];
    }
  }

  /** A content passes its preflight if and only if every asset of it is ready. */
  lemma PassesExactly(cfg: Config, host: Host, assets: seq<Asset>)
    ensures Preflight(cfg, host, assets) == None <==> forall i :: 0 <= i < |assets| ==> Ready(cfg, host, assets[i])
  {
    NoRefusal(cfg, assets);
    if Preflight(cfg, host, assets) == None {
      forall i | 0 <= i < |assets| ensures Ready(cfg, host, assets[i]) {
        assert assets[i] in assets && Refusal(cfg, assets[i]) == None;
      }
    }
    if forall i :: 0 <= i < |assets| ==> Ready(cfg, host, assets[i]) {
      forall i | 0 <= i < |assets| ensures Refusal(cfg, assets[i]) == None { assert Ready(cfg, host, assets[i]); }
    }
  }

  // ----- The codes of one run -----

  const ALWAYS: seq<Code> := [
    DownloadRequestScopeMismatch, DownloadResultScopeMismatch, AssetNotVerified,
    DownloadRetryable, DownloadTerminal, MediaProbeUnavailable
  ]

  const XHS_REFRESH: seq<Code> := [
    XhsDetailAuthorityRequired, LocatorRefreshConfigurationInvalid, LocatorRefreshCredentialsUnavailable,
    LocatorRefreshTemporary, LocatorRefreshAssetNotFound, AssetSourceIneligible,
    LocatorRefreshRetryable, LocatorRefreshTerminal
  ]

  /** All codes a content can fail with under one configuration. */
  function Possible(cfg: Config): (codes: seq<Code>)
    ensures |codes| < MAX_FAILURE_CODES
  {
    ALWAYS +
    (if !cfg.enabled then [MediacrawlerNotEnabled]
     else if !cfg.licensed then [MediacrawlerLicenseRequired]
     else [MediacrawlerRuntimeUnavailable] + (if cfg.platform.Xhs? then XHS_REFRESH else [])) +
    (if cfg.platform.Bili? then [MediaMuxUnavailable] else [])
  }

  lemma AlwaysPossible(cfg: Config, c: Code)
    requires c.DownloadRequestScopeMismatch? || c.DownloadResultScopeMismatch? || c.AssetNotVerified? ||
             c.DownloadRetryable? || c.DownloadTerminal? || c.MediaProbeUnavailable?
    ensures c in Possible(cfg)
  {
    assert ALWAYS[0] == DownloadRequestScopeMismatch && ALWAYS[1] == DownloadResultScopeMismatch && ALWAYS[2] == AssetNotVerified;
    assert ALWAYS[3] == DownloadRetryable && ALWAYS[4] == DownloadTerminal && ALWAYS[5] == MediaProbeUnavailable;
    assert c in ALWAYS;
  }

  lemma RefreshIsListed(e: RefreshError)
    ensures RefreshCode(e) in XHS_REFRESH
  {
    assert XHS_REFRESH[0] == XhsDetailAuthorityRequired && XHS_REFRESH[1] == LocatorRefreshConfigurationInvalid;
    assert XHS_REFRESH[2] == LocatorRefreshCredentialsUnavailable && XHS_REFRESH[3] == LocatorRefreshTemporary;
    assert XHS_REFRESH[4] == LocatorRefreshAssetNotFound && XHS_REFRESH[5] == AssetSourceIneligible;
    assert XHS_REFRESH[6] == LocatorRefreshRetryable && XHS_REFRESH[7] == LocatorRefreshTerminal;
  }

  lemma RefusalIsPossible(cfg: Config, a: Asset)
    requires Refusal(cfg, a).Some?
    ensures Refusal(cfg, a).value in Possible(cfg)
  {
    var c := Refusal(cfg, a).value;
    if c.MediaProbeUnavailable? {
      AlwaysPossible(cfg, c);
    } else if a.refused.Some? {
      RefreshIsListed(a.refused.value);
    }
  }

  lemma {:induction false} FirstRefusalIsPossible(cfg: Config, assets: seq<Asset>)
    requires FirstRefusal(cfg, assets).Some?
    ensures FirstRefusal(cfg, assets).value in Possible(cfg)
  {
    hide Possible;
    if Refusal(cfg, assets[0]).Some? {
      RefusalIsPossible(cfg, assets[0]);
    } else {
      FirstRefusalIsPossible(cfg, assets[1..]);
    }
  }

  /** Once every asset has passed, a missing crawler or muxer means that one was needed. */
  lemma {:induction false} PassedAssets(cfg: Config, assets: seq<Asset>, a: Asset)
    requires FirstRefusal(cfg, assets) == None && a in assets
    ensures Refusal(cfg, a) == None
  {
    if a != assets[0] { PassedAssets(cfg, assets[1..], a); }
  }

  lemma PreflightIsPossible(cfg: Config, host: Host, assets: seq<Asset>)
    requires Preflight(cfg, host, assets).Some?
    ensures Preflight(cfg, host, assets).value in Possible(cfg)
  {
    var c := Preflight(cfg, host, assets).value;
    if FirstRefusal(cfg, assets).Some? {
      FirstRefusalIsPossible(cfg, assets);
    } else if c.MediaProbeUnavailable? {
      AlwaysPossible(cfg, c);
    } else if c.MediacrawlerRuntimeUnavailable? {
      var a :| a in assets && NeedsCrawler(a);
      PassedAssets(cfg, assets, a);
    }
  }

  lemma {:induction false} DownloadIsPossible(cfg: Config, assets: seq<(AssetId, AssetRun)>)
    requires FirstFailure(assets).Some?
    ensures FirstFailure(assets).value in Possible(cfg)
  {
    hide Possible;
    if FailureOf(assets[0].1).Some? {
      AlwaysPossible(cfg, FailureOf(assets[0].1).value);
    } else {
      DownloadIsPossible(cfg, assets[1..]);
    }
  }

  // ----- The receipts of the program -----

  function Runs(assets: seq<Asset>): seq<(AssetId, AssetRun)> {
    seq(|assets|, i requires 0 <= i < |assets| => (assets[i].id, assets[i].run))
  }

  /** A selected content with the preflight the runtime wires in. */
  function Wired(cfg: Config, s: Selected): Content {
    Content(s.id, Preflight(cfg, s.host, s.assets), Runs(s.assets))
  }

  function AllWired(cfg: Config, selected: seq<Selected>): seq<Content> {
    seq(|selected|, i requires 0 <= i < |selected| => Wired(cfg, selected[i]))
  }

  lemma OutcomeIsPossible(cfg: Config, s: Selected)
    requires Outcome(Wired(cfg, s)).Some?
    ensures Outcome(Wired(cfg, s)).value in Possible(cfg)
  {
    hide Possible;
    if Preflight(cfg, s.host, s.assets).Some? {
      PreflightIsPossible(cfg, s.host, s.assets);
    } else {
      DownloadIsPossible(cfg, Runs(s.assets));
    }
  }

  lemma {:induction false} ListedAreFew(codes: set<Code>, listed: seq<Code>)
    requires forall c :: c in codes ==> c in listed
    ensures |codes| <= |listed|
  {
    if listed == [] {
      assert codes == {};
    } else {
      var rest := codes - {listed[0]};
      forall c | c in rest ensures c in listed[1..] { assert listed == [listed[0]] + listed[1..]; }
      ListedAreFew(rest, listed[1..]);
      assert |codes| <= |rest| + 1 by {
        if listed[0] in codes { assert codes == rest + {listed[0]}; } else { assert codes == rest; }
      }
    }
  }

  /** Whatever is selected and whatever fails, one run never meets sixteen different codes. */
  lemma FewCodesPerRun(cfg: Config, selected: seq<Selected>)
    ensures |FailureCodes(AllWired(cfg, selected))| <= |Possible(cfg)| < MAX_FAILURE_CODES
  {
    var contents := AllWired(cfg, selected);
    forall c | c in FailureCodes(contents) ensures c in Possible(cfg) {
      var i :| 0 <= i < |contents| && Outcome(contents[i]).Some? && Outcome(contents[i]).value == c;
      OutcomeIsPossible(cfg, selected[i]);
    }
    ListedAreFew(FailureCodes(contents), Possible(cfg));
  }

  /** So every receipt of the program is valid. */
  method RunSubscription(cfg: Config, selected: seq<Selected>, source: set<ContentId>) returns (outcomes: seq<AssetId>, s: Summary)
    requires DistinctIds(AllWired(cfg, selected)) && source <= Ids(AllWired(cfg, selected))
    ensures ValidSummary(s) && outcomes == Delivered(AllWired(cfg, selected))
    ensures s.observed == |source| && s.observed + s.retryBacklog == |selected|
  {
    var contents: seq<Content> := [];
    var i := 0;
    while i < |selected|
      invariant 0 <= i <= |selected| && contents == AllWired(cfg, selected)[..i]
    {
      var refused := PreflightSelection(cfg, selected[i].host, selected[i].assets);
      contents := contents + [Content(selected[i].id, refused, Runs(selected[i].assets))];
      i := i + 1;
    }
    assert contents == AllWired(cfg, selected);
    FewCodesPerRun(cfg, selected);
    outcomes, s := RunContentScoped(contents, source);
  }
}
