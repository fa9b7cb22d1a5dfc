/** The documents an author observation writes: the closed field set of a checkpoint, its
    validator, and what the worker builds. */
module ObservationDocument {
  import opened Wrappers
  import Cursors
  import Operations
  import Observation
  import ObservationLoop

  datatype Field =
    | SchemaVersion | Mode | Provider | ServerVersion | ProfileFingerprint | LibraryIdDigest | ScanState
    | PublicationFingerprint | SelectorFingerprint | BaselineState | ObservationState
    | MatchCount | VerificationCount | AcceptedAt | ItemFingerprint | ObservedAt

  /** A text, an integer, or a text that is a timestamp with a zone. */
  datatype Value = Text(s: string) | Number(n: int) | Stamp(at: int)

  type Document = map<Field, Value>

  const BASE: set<Field> := {
    SchemaVersion, Mode, Provider, ServerVersion, ProfileFingerprint, LibraryIdDigest, ScanState,
    PublicationFingerprint, SelectorFingerprint, BaselineState, ObservationState,
    MatchCount, VerificationCount, AcceptedAt
  }

  const MODE := "post_refresh_item_observation"

  predicate IsObserved(d: Document) { ObservationState in d && d[ObservationState] == Text("observed") }

  /** Exactly the fields of its state. */
  predicate Closed(d: Document) { d.Keys == BASE + (if IsObserved(d) then {ItemFingerprint, ObservedAt} else {}) }

  predicate IsDigest(v: Value) { v.Text? && Cursors.IsDigest(v.s) }

  predicate IsCount(v: Value, maximum: nat) { v.Number? && 0 <= v.n <= maximum }

  /** The fields that the state does not touch; `version` is the format of server versions. */
  predicate ValidContext(d: Document, version: string -> bool)
    requires BASE <= d.Keys
  {
    && d[SchemaVersion] == Number(2) && d[Mode] == Text(MODE)
    && (d[Provider] == Text("emby") || d[Provider] == Text("jellyfin"))
    && d[ServerVersion].Text? && version(d[ServerVersion].s)
    && IsDigest(d[ProfileFingerprint]) && IsDigest(d[LibraryIdDigest]) && d[ScanState] == Text("accepted")
    && IsDigest(d[PublicationFingerprint]) && IsDigest(d[SelectorFingerprint])
    && d[BaselineState] == Text("not_found") && d[AcceptedAt].Stamp?
  }

  /** `_media_server_observation_summary`. */
  predicate ValidDocument(d: Document, version: string -> bool) {
    && Closed(d) && ValidContext(d, version)
    && (d[ObservationState] == Text("pending") || d[ObservationState] == Text("observed"))
    && IsCount(d[MatchCount], 1) && IsCount(d[VerificationCount], 2)
    && (if d[ObservationState] == Text("pending") then d[MatchCount] == Number(0) && d[VerificationCount] == Number(0)
        else
          && d[MatchCount] == Number(1) && d[VerificationCount] == Number(2)
          && IsDigest(d[ItemFingerprint]) && d[ObservedAt].Stamp?
          && d[ObservedAt].at - d[AcceptedAt].at >= Operations.OBSERVATION_SECONDS)
  }

  // ----- What the worker writes -----

  /** What the server reports about the accepted scan, validated on construction. */
  datatype Scan = Scan(provider: string, version: string, library: string)

  predicate ValidScan(scan: Scan, version: string -> bool) {
    (scan.provider == "emby" || scan.provider == "jellyfin") && version(scan.version) && Cursors.IsDigest(scan.library)
  }

  /** The digests of the target and of the profile, validated when they were resolved. */
  datatype Context = Context(profile: string, publication: string, selector: string)

  predicate ValidDigests(c: Context) {
    Cursors.IsDigest(c.profile) && Cursors.IsDigest(c.publication) && Cursors.IsDigest(c.selector)
  }

  /** `_accepted_payload`. */
  function AcceptedDocument(scan: Scan, c: Context, at: int): Document {
    map[
      SchemaVersion := Number(2), Mode := Text(MODE), Provider := Text(scan.provider), ServerVersion := Text(scan.version),
      ProfileFingerprint := Text(c.profile), LibraryIdDigest := Text(scan.library), ScanState := Text("accepted"),
      PublicationFingerprint := Text(c.publication), SelectorFingerprint := Text(c.selector),
      BaselineState := Text("not_found"), ObservationState := Text("pending"),
      MatchCount := Number(0), VerificationCount := Number(0), AcceptedAt := Stamp(at)
    ]
  }

  /** The accepted document with the observation written over it. */
  function ObservedDocument(accepted: Document, item: string, at: int): Document {
    accepted[ObservationState := Text("observed")][MatchCount := Number(1)][VerificationCount := Number(2)]
            [ItemFingerprint := Text(item)][ObservedAt := Stamp(at)]
  }

  lemma StatesDiffer()
    ensures Text("pending") != Text("observed")
  {
    assert "pending"[0] != "observed"[0];
  }

  lemma AcceptedContext(scan: Scan, c: Context, at: int, version: string -> bool)
    ensures AcceptedDocument(scan, c, at).Keys == BASE
    ensures ValidContext(AcceptedDocument(scan, c, at), version) <==> ValidScan(scan, version) && ValidDigests(c)
  {
    assert AcceptedDocument(scan, c, at).Keys == BASE;
    TextsTell(scan);
    hide Cursors.IsDigest;
  }

  lemma TextsTell(scan: Scan)
    ensures Text(scan.provider) == Text("emby") || Text(scan.provider) == Text("jellyfin") <==>
            scan.provider == "emby" || scan.provider == "jellyfin"
  {
  }

  lemma AcceptedFields(scan: Scan, c: Context, at: int)
    ensures var d := AcceptedDocument(scan, c, at);
            && d.Keys == BASE && !IsObserved(d) && d[ObservationState] == Text("pending")
            && d[MatchCount] == Number(0) && d[VerificationCount] == Number(0) && d[AcceptedAt] == Stamp(at)
  {
    StatesDiffer();
    assert AcceptedDocument(scan, c, at).Keys == BASE;
  }

  /** The accepted document is valid exactly if everything in it was validated before. */
  lemma AcceptedIsValid(scan: Scan, c: Context, at: int, version: string -> bool)
    ensures ValidDocument(AcceptedDocument(scan, c, at), version) <==> ValidScan(scan, version) && ValidDigests(c)
  {
    AcceptedContext(scan, c, at, version);
    AcceptedFields(scan, c, at);
    hide AcceptedDocument, ValidContext, ValidScan, ValidDigests, BASE, IsObserved;
    PendingIsClosed(AcceptedDocument(scan, c, at), version);
  }

  /** The part of the validator that the state decides, for a pending document. */
  lemma PendingIsClosed(d: Document, version: string -> bool)
    requires d.Keys == BASE && !IsObserved(d) && d[ObservationState] == Text("pending")
    requires d[MatchCount] == Number(0) && d[VerificationCount] == Number(0)
    ensures ValidDocument(d, version) <==> ValidContext(d, version)
  {
    hide ValidContext;
  }

  lemma ObservedFields(accepted: Document, item: string, at: int)
    requires accepted.Keys == BASE
    ensures var d := ObservedDocument(accepted, item, at);
            && d.Keys == BASE + {ItemFingerprint, ObservedAt} && IsObserved(d)
            && d[MatchCount] == Number(1) && d[VerificationCount] == Number(2)
            && d[ItemFingerprint] == Text(item) && d[ObservedAt] == Stamp(at)
            && forall f :: f in BASE && f != ObservationState && f != MatchCount && f != VerificationCount ==> d[f] == accepted[f]
  {
  }

  lemma ObservedIsClosed(d: Document, version: string -> bool)
    requires d.Keys == BASE + {ItemFingerprint, ObservedAt} && IsObserved(d)
    requires d[MatchCount] == Number(1) && d[VerificationCount] == Number(2) && d[ObservedAt].Stamp? && d[AcceptedAt].Stamp?
    ensures ValidDocument(d, version) <==>
            ValidContext(d, version) && IsDigest(d[ItemFingerprint]) &&
            d[ObservedAt].at - d[AcceptedAt].at >= Operations.OBSERVATION_SECONDS
  {
    StatesDiffer();
    hide ValidContext, IsDigest;
  }

  /** On top of a valid accepted document, the observed one is valid exactly if the item has
      a digest and two seconds have passed. */
  lemma ObservedIsValid(accepted: Document, item: string, at: int, version: string -> bool)
    requires accepted.Keys == BASE && ValidContext(accepted, version)
    ensures ValidDocument(ObservedDocument(accepted, item, at), version) <==>
            Cursors.IsDigest(item) && at - accepted[AcceptedAt].at >= Operations.OBSERVATION_SECONDS
  {
    var d := ObservedDocument(accepted, item, at);
    ObservedFields(accepted, item, at);
    ContextIsKept(accepted, d, version);
    hide ObservedDocument, ValidContext, ValidDocument;
    ObservedIsClosed(d, version);
  }

  lemma ContextIsKept(a: Document, b: Document, version: string -> bool)
    requires BASE <= a.Keys && BASE <= b.Keys
    requires forall f :: f in BASE && f != ObservationState && f != MatchCount && f != VerificationCount ==> a[f] == b[f]
    ensures ValidContext(a, version) <==> ValidContext(b, version)
  {
  }

  /** Whatever the poll loop sees, every document the worker writes passes the validator. */
  lemma WrittenDocumentsAreValid(scan: Scan, c: Context, version: string -> bool, digest: nat -> string,
                                 p: ObservationLoop.Poll, turns: seq<ObservationLoop.Turn>, notBefore: int)
    requires ValidScan(scan, version) && ValidDigests(c) && forall item :: Cursors.IsDigest(digest(item))
    ensures var accepted := AcceptedDocument(scan, c, p.accepted.acceptedAt);
            var found := ObservationLoop.PollResult(p, turns, None, notBefore);
            && ValidDocument(accepted, version)
            && (found.Some? ==> ValidDocument(ObservedDocument(accepted, digest(found.value.0), found.value.1), version))
  {
    var accepted := AcceptedDocument(scan, c, p.accepted.acceptedAt);
    AcceptedIsValid(scan, c, p.accepted.acceptedAt, version);
    AcceptedContext(scan, c, p.accepted.acceptedAt, version);
    AcceptedFields(scan, c, p.accepted.acceptedAt);
    hide ValidDocument, ObservedDocument, AcceptedDocument, ValidContext, BASE;
    var found := ObservationLoop.PollResult(p, turns, None, notBefore);
    if found.Some? {
      ObservationLoop.SuccessNeedsTwoMatches(p, turns, notBefore);
      ObservedIsValid(accepted, digest(found.value.0), found.value.1, version);
    }
  }

  // ----- The fields the operation decides on -----

  /** The part of a document that finish and reconciliation look at, digests numbered. */
  function Essence(d: Document, code: string -> nat, version: string -> bool): Operations.Payload
    requires ValidDocument(d, version)
  {
    Operations.Payload(
      d[SchemaVersion].n, code(d[ProfileFingerprint].s), code(d[PublicationFingerprint].s), IsObserved(d),
      d[MatchCount].n, d[VerificationCount].n, d[AcceptedAt].at,
      if IsObserved(d) then Some(code(d[ItemFingerprint].s)) else None,
      if IsObserved(d) then Some(d[ObservedAt].at) else None)
  }

  /** A valid document has a valid essence. */
  lemma EssenceIsValid(d: Document, code: string -> nat, version: string -> bool)
    requires ValidDocument(d, version)
    ensures Operations.ValidPayload(Essence(d, code, version))
  {
  }

  /** The two documents of one observation have the two payloads of the protocol. */
  lemma EssencesAreThePayloads(scan: Scan, c: Context, at: int, item: string, later: int,
                               code: string -> nat, version: string -> bool, w: Observation.World)
    requires ValidScan(scan, version) && ValidDigests(c) && Cursors.IsDigest(item) && later - at >= Operations.OBSERVATION_SECONDS
    requires w.profile == code(c.profile) && w.target.publication == code(c.publication)
    ensures var accepted := AcceptedDocument(scan, c, at); var observed := ObservedDocument(accepted, item, later);
            && ValidDocument(accepted, version) && ValidDocument(observed, version)
            && Essence(accepted, code, version) == Observation.AcceptedPayload(w, at)
            && Essence(observed, code, version) == Observation.ObservedPayload(Observation.AcceptedPayload(w, at), code(item), later)
  {
    var accepted := AcceptedDocument(scan, c, at);
    AcceptedIsValid(scan, c, at, version);
    AcceptedContext(scan, c, at, version);
    AcceptedFields(scan, c, at);
    ContextDigests(scan, c, at);
    hide AcceptedDocument, BASE;
    ObservedIsValid(accepted, item, later, version);
    ObservedFields(accepted, item, later);
    hide ObservedDocument, ValidContext, ValidDocument;
    EssenceOf(accepted, code, version);
    EssenceOf(ObservedDocument(accepted, item, later), code, version);
  }

  lemma ContextDigests(scan: Scan, c: Context, at: int)
    ensures var d := AcceptedDocument(scan, c, at);
            ProfileFingerprint in d && PublicationFingerprint in d && SchemaVersion in d &&
            d[ProfileFingerprint] == Text(c.profile) && d[PublicationFingerprint] == Text(c.publication) && d[SchemaVersion] == Number(2)
  {
  }

  lemma EssenceOf(d: Document, code: string -> nat, version: string -> bool)
    requires ValidDocument(d, version)
    ensures BASE <= d.Keys && d[ProfileFingerprint].Text? && d[PublicationFingerprint].Text?
    ensures d[MatchCount].Number? && d[VerificationCount].Number? && d[AcceptedAt].Stamp?
    ensures !IsObserved(d) ==>
              Essence(d, code, version) == Operations.Payload(2, code(d[ProfileFingerprint].s), code(d[PublicationFingerprint].s), false,
                                                              d[MatchCount].n, d[VerificationCount].n, d[AcceptedAt].at, None, None)
    ensures IsObserved(d) ==>
              && ItemFingerprint in d && ObservedAt in d && d[ItemFingerprint].Text? && d[ObservedAt].Stamp?
              && Essence(d, code, version) == Operations.Payload(2, code(d[ProfileFingerprint].s), code(d[PublicationFingerprint].s), true,
                                                                 d[MatchCount].n, d[VerificationCount].n, d[AcceptedAt].at,
                                                                 Some(code(d[ItemFingerprint].s)), Some(d[ObservedAt].at))
  {
  }
}
