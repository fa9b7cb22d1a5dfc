/** The output root policy: one revisioned row, one binding per published author. */
module OutputDirectories {
  import opened Wrappers

  datatype Platform = Xhs | Dy | Ks | Bili | Wb | Tieba | Zhihu

  datatype Layout = PlatformSubdirectories | LegacyFlat

  /** A normalized absolute path, component by component; a platform's own directory is
      named after it. */
  datatype Component = Name(n: nat) | PlatformName(p: Platform)
  type Path = seq<Component>

  const PLATFORMS := [Bili, Dy, Ks, Tieba, Wb, Xhs, Zhihu]
  const MAX_REVISION := 9_007_199_254_740_991

  datatype Policy = Policy(revision: nat, sharedRoot: Path, layout: Layout, overrides: map<Platform, Path>)

  datatype Binding = Binding(platform: Platform, root: Path, revision: nat)

  /** `row` is missing until something is first locked; `exported` are the platforms with
      export records or export jobs. */
  datatype Library = Library(row: Option<Policy>, bindings: map<nat, Binding>, authors: map<nat, Platform>, exported: set<Platform>)

  /** What the host decides: the configured root, which roots are safe to use, and whether
      old publication scopes contradict the configured root. */
  datatype Host = Host(defaultRoot: Path, safe: Path -> bool, scopesAgree: bool)

  /** `_Policy.roots`. */
  function Root(p: Policy, platform: Platform): Path {
    if platform in p.overrides then p.overrides[platform]
    else if p.layout.PlatformSubdirectories? then p.sharedRoot + [PlatformName(platform)]
    else p.sharedRoot
  }

  predicate Contains(parent: Path, child: Path) { parent <= child }

  predicate Overlaps(a: Path, b: Path) { Contains(a, b) || Contains(b, a) }

  /** Two platforms may live side by side, or together in a flat legacy root. */
  predicate Apart(p: Policy, a: Platform, b: Platform) {
    (p.layout.LegacyFlat? && Root(p, a) == Root(p, b)) || !Overlaps(Root(p, a), Root(p, b))
  }

  ghost predicate Disjoint(p: Policy) {
    forall a, b :: a != b ==> Apart(p, a, b)
  }

  predicate Safe(h: Host, p: Policy) {
    h.safe(p.sharedRoot) && forall i :: 0 <= i < |PLATFORMS| ==> h.safe(Root(p, PLATFORMS[i]))
  }

  lemma AllPlatforms(a: Platform)
    ensures exists i :: 0 <= i < |PLATFORMS| && PLATFORMS[i] == a
  {
    assert PLATFORMS[0] == Bili && PLATFORMS[1] == Dy && PLATFORMS[2] == Ks && PLATFORMS[3] == Tieba;
    assert PLATFORMS[4] == Wb && PLATFORMS[5] == Xhs && PLATFORMS[6] == Zhihu;
  }

  /** The pairwise check of `_policy`, in its own order. */
  method CheckRoots(h: Host, p: Policy) returns (ok: bool)
    ensures ok <==> Safe(h, p) && Disjoint(p)
  {
    if !h.safe(p.sharedRoot) { return false; }
    var i := 0;
    while i < |PLATFORMS|
      invariant 0 <= i <= |PLATFORMS|
      invariant forall k :: 0 <= k < i ==> h.safe(Root(p, PLATFORMS[k]))
    {
      if !h.safe(Root(p, PLATFORMS[i])) { return false; }
      i := i + 1;
    }
    i := 0;
    while i < |PLATFORMS|
      invariant 0 <= i <= |PLATFORMS|
      invariant forall k, m :: 0 <= k < i && k < m < |PLATFORMS| ==> Apart(p, PLATFORMS[k], PLATFORMS[m])
    {
      var j := i + 1;
      while j < |PLATFORMS|
        invariant i < j <= |PLATFORMS|
        invariant forall m :: i < m < j ==> Apart(p, PLATFORMS[i], PLATFORMS[m])
      {
        if !Apart(p, PLATFORMS[i], PLATFORMS[j]) {
          assert PLATFORMS[i] != PLATFORMS[j];
          return false;
        }
        j := j + 1;
      }
      i := i + 1;
    }
    forall a, b | a != b ensures Apart(p, a, b) {
      AllPlatforms(a);
      AllPlatforms(b);
      var k :| 0 <= k < |PLATFORMS| && PLATFORMS[k] == a;
      var m :| 0 <= m < |PLATFORMS| && PLATFORMS[m] == b;
      assert k < m ==> Apart(p, PLATFORMS[k], PLATFORMS[m]);
      assert m < k ==> Apart(p, PLATFORMS[m], PLATFORMS[k]);
    }
    return true;
  }

  /** `_protected_platforms`. */
  predicate Protected(l: Library, platform: Platform) {
    platform in l.exported || exists a :: a in l.bindings && l.bindings[a].platform == platform
  }

  ghost predicate Usable(h: Host, p: Policy) { Safe(h, p) && Disjoint(p) && p.revision <= MAX_REVISION }

  /** `_read` and `_locked`: the stored row, or the row the configured root gives rise to. */
  ghost function Locked(h: Host, l: Library): Option<Policy> {
    if l.row.Some? then (if Usable(h, l.row.value) then l.row else None)
    else
      var flat := exists p :: Protected(l, p);
      var candidate := Policy(0, h.defaultRoot, if flat then LegacyFlat else PlatformSubdirectories, map[]);
      if !Usable(h, candidate) || (flat && !h.scopesAgree) then None else Some(candidate)
  }

  /** `update`: compare the revision, then move only platforms nothing was published on. */
  ghost function Update(h: Host, l: Library, expected: nat, sharedRoot: Path, overrides: map<Platform, Path>, layout: Layout): Library {
    match Locked(h, l)
    case None => l
    case Some(current) =>
      var proposed := Policy(expected + 1, sharedRoot, layout, overrides);
      if expected >= MAX_REVISION || current.revision != expected || !Usable(h, proposed) then l
      else if exists p :: Protected(l, p) && Root(current, p) != Root(proposed, p) then l
      else l.(row := Some(proposed))
  }

  /** The check of `_author_root` on an existing binding. */
  predicate BindingHolds(p: Policy, b: Binding, platform: Platform) {
    b.platform == platform && b.revision <= p.revision && b.root == Root(p, platform)
  }

  /** `bind_author_root`: freeze the current root for an author, once. */
  ghost function Bind(h: Host, l: Library, author: nat): Library {
    match Locked(h, l)
    case None => l
    case Some(policy) =>
      if author !in l.authors then l
      else
        var platform := l.authors[author];
        if author in l.bindings then
          if BindingHolds(policy, l.bindings[author], platform) then l.(row := Some(policy)) else l
        else l.(row := Some(policy), bindings := l.bindings[author := Binding(platform, Root(policy, platform), policy.revision)])
  }

  datatype Step =
    | SUpdate(h: Host, expected: nat, sharedRoot: Path, overrides: map<Platform, Path>, layout: Layout)
    | SBind(h: Host, author: nat)
    | SAuthor(author: nat, platform: Platform)
    | SExport(platform: Platform)

  /** The host may answer differently every time; an author's platform never changes. */
  ghost function Next(l: Library, step: Step): Library {
    match step
    case SUpdate(h, expected, sharedRoot, overrides, layout) => Update(h, l, expected, sharedRoot, overrides, layout)
    case SBind(h, author) => Bind(h, l, author)
    case SAuthor(author, platform) => if author in l.authors then l else l.(authors := l.authors[author := platform])
    case SExport(platform) => l.(exported := l.exported + {platform})
  }

  ghost function Run(l: Library, steps: seq<Step>): Library
    decreases |steps|
  {
    if steps == [] then l else Run(Next(l, steps[0]), steps[1..])
  }

  const EMPTY := Library(None, map[], map[], {})

  ghost predicate Inv(l: Library) {
    && (l.row.Some? ==> Disjoint(l.row.value) && l.row.value.revision <= MAX_REVISION)
    && (forall a :: a in l.bindings ==>
          && a in l.authors && l.row.Some?
          && BindingHolds(l.row.value, l.bindings[a], l.authors[a]))
  }

  lemma NextKeepsInv(l: Library, step: Step)
    requires Inv(l)
    ensures Inv(Next(l, step))
    ensures forall a :: a in l.bindings ==> a in Next(l, step).bindings && Next(l, step).bindings[a] == l.bindings[a]
  {
    match step
    case SUpdate(h, expected, sharedRoot, overrides, layout) =>
      forall a | a in l.bindings ensures Protected(l, l.bindings[a].platform) {}
    case _ =>
  }

  /** Over every history: the effective roots stay apart, every binding names the current
      root of its platform with a revision not beyond the policy's, and no binding is ever
      changed or lost. */
  lemma {:induction false} HistoryKeepsBindings(l: Library, steps: seq<Step>)
    requires Inv(l)
    ensures Inv(Run(l, steps))
    ensures forall a :: a in l.bindings ==> a in Run(l, steps).bindings && Run(l, steps).bindings[a] == l.bindings[a]
    decreases |steps|
  {
    if steps != [] {
      NextKeepsInv(l, steps[0]);
      HistoryKeepsBindings(Next(l, steps[0]), steps[1..]);
    }
  }

  /** In particular no update ever moves the root of an author once bound. */
  lemma BoundRootIsFinal(before: seq<Step>, after: seq<Step>, author: nat)
    requires author in Run(EMPTY, before).bindings
    ensures var l, l' := Run(EMPTY, before), Run(Run(EMPTY, before), after);
            && l'.row.Some? && l.row.Some? && author in l.authors && author in l'.authors && l'.authors[author] == l.authors[author]
            && Root(l'.row.value, l'.authors[author]) == Root(l.row.value, l.authors[author]) == l.bindings[author].root
  {
    HistoryKeepsBindings(EMPTY, before);
    HistoryKeepsBindings(Run(EMPTY, before), after);
    AuthorsStay(Run(EMPTY, before), after);
  }

  lemma {:induction false} AuthorsStay(l: Library, steps: seq<Step>)
    ensures forall a :: a in l.authors ==> a in Run(l, steps).authors && Run(l, steps).authors[a] == l.authors[a]
    decreases |steps|
  {
    if steps != [] { AuthorsStay(Next(l, steps[0]), steps[1..]); }
  }

  /** Two bound authors of different platforms never share a directory, unless the layout
      is the flat legacy one. */
  lemma BoundRootsAreApart(steps: seq<Step>, a: nat, b: nat)
    requires var l := Run(EMPTY, steps);
             a in l.bindings && b in l.bindings && l.bindings[a].platform != l.bindings[b].platform
    ensures var l := Run(EMPTY, steps);
            && l.row.Some?
            && (!Overlaps(l.bindings[a].root, l.bindings[b].root) ||
                (l.row.value.layout.LegacyFlat? && l.bindings[a].root == l.bindings[b].root))
  {
    HistoryKeepsBindings(EMPTY, steps);
    var l := Run(EMPTY, steps);
    assert Apart(l.row.value, l.bindings[a].platform, l.bindings[b].platform);
  }

  /** Subdirectory layouts without overrides are always acceptable; flat ones hold all
      platforms in one root. */
  lemma PlainLayoutsAreDisjoint(revision: nat, sharedRoot: Path, layout: Layout)
    ensures Disjoint(Policy(revision, sharedRoot, layout, map[]))
  {
    var p := Policy(revision, sharedRoot, layout, map[]);
    forall a, b | a != b ensures Apart(p, a, b) {
      if layout.PlatformSubdirectories? {
        assert Root(p, a)[|sharedRoot|] == PlatformName(a) && Root(p, b)[|sharedRoot|] == PlatformName(b);
      }
    }
  }

  // ----- What the operations do when nothing stands in their way -----

  lemma SafeRoots(h: Host, p: Policy)
    ensures Safe(h, p) <==> h.safe(p.sharedRoot) && forall a :: h.safe(Root(p, a))
  {
    if Safe(h, p) {
      forall a ensures h.safe(Root(p, a)) {
        AllPlatforms(a);
      }
    }
  }

  /** A library without a policy gets the flat layout exactly if something was published
      before, and otherwise one directory for each platform; the configured root must be
      safe, and agree with what was published, or every platform's directory be safe. */
  lemma FirstPolicy(h: Host, l: Library)
    requires l.row == None
    ensures (exists p :: Protected(l, p)) ==>
              Locked(h, l) == if h.safe(h.defaultRoot) && h.scopesAgree then Some(Policy(0, h.defaultRoot, LegacyFlat, map[])) else None
    ensures !(exists p :: Protected(l, p)) ==>
              Locked(h, l) == if h.safe(h.defaultRoot) && forall p :: h.safe(h.defaultRoot + [PlatformName(p)])
                              then Some(Policy(0, h.defaultRoot, PlatformSubdirectories, map[])) else None
  {
    var flat, apart := Policy(0, h.defaultRoot, LegacyFlat, map[]), Policy(0, h.defaultRoot, PlatformSubdirectories, map[]);
    PlainLayoutsAreDisjoint(0, h.defaultRoot, LegacyFlat);
    PlainLayoutsAreDisjoint(0, h.defaultRoot, PlatformSubdirectories);
    SafeRoots(h, flat);
    SafeRoots(h, apart);
    assert forall p :: Root(flat, p) == h.defaultRoot && Root(apart, p) == h.defaultRoot + [PlatformName(p)];
    hide Safe, Disjoint, Root, Protected;
  }

  /** An update is stored exactly if it names the current revision, has safe roots that
      are apart, and leaves every protected platform where it is; it may move all the others. */
  lemma UpdateIsStored(h: Host, l: Library, current: Policy, sharedRoot: Path, overrides: map<Platform, Path>, layout: Layout, expected: nat)
    requires Locked(h, l) == Some(current)
    ensures var proposed, l' := Policy(expected + 1, sharedRoot, layout, overrides), Next(l, SUpdate(h, expected, sharedRoot, overrides, layout));
            if && current.revision == expected < MAX_REVISION
               && h.safe(sharedRoot) && (forall a :: h.safe(Root(proposed, a))) && (forall a, b :: a != b ==> Apart(proposed, a, b))
               && forall p :: Protected(l, p) ==> Root(proposed, p) == Root(current, p)
            then l' == Library(Some(proposed), l.bindings, l.authors, l.exported) else l' == l
  {
    var proposed := Policy(expected + 1, sharedRoot, layout, overrides);
    SafeRoots(h, proposed);
    hide Safe, Root, Locked, Apart;
  }

  /** The first binding of a known author is made under any usable policy: at the author's
      own platform, in its current root.  Binding again changes no binding. */
  lemma FirstBindingIsMade(h: Host, l: Library, current: Policy, author: nat)
    requires Locked(h, l) == Some(current) && author in l.authors && author !in l.bindings
    ensures var platform, l' := l.authors[author], Next(l, SBind(h, author));
            var root := if platform in current.overrides then current.overrides[platform]
                        else if current.layout.PlatformSubdirectories? then current.sharedRoot + [PlatformName(platform)]
                        else current.sharedRoot;
            && l'.bindings == l.bindings[author := Binding(platform, root, current.revision)]
            && l'.row == Some(current) && l'.authors == l.authors && l'.exported == l.exported
            && Next(l', SBind(h, author)) == l'
  {
  }

  /** So the first author bound in a fresh library lives in the configured root, in the
      directory of its platform. */
  lemma FirstAuthorIsBound(h: Host, author: nat, platform: Platform)
    requires h.safe(h.defaultRoot) && forall p :: h.safe(h.defaultRoot + [PlatformName(p)])
    ensures var l := Run(EMPTY, [SAuthor(author, platform), SBind(h, author)]);
            && l.bindings == map[author := Binding(platform, h.defaultRoot + [PlatformName(platform)], 0)]
            && l.row == Some(Policy(0, h.defaultRoot, PlatformSubdirectories, map[]))
  {
    var l1 := Next(EMPTY, SAuthor(author, platform));
    FirstPolicy(h, l1);
    FirstBindingIsMade(h, l1, Policy(0, h.defaultRoot, PlatformSubdirectories, map[]), author);
    assert [SAuthor(author, platform), SBind(h, author)][1..] == [SBind(h, author)];
    assert Run(l1, [SBind(h, author)]) == Next(l1, SBind(h, author));
  }

  class OutputDirectoryService {
    var row: Option<Policy>
    var bindings: map<nat, Binding>
    var authors: map<nat, Platform>
    var exported: set<Platform>

    ghost function State(): Library
      reads this
    {
      Library(row, bindings, authors, exported)
    }

    constructor ()
      ensures State() == EMPTY
    {
      row, bindings, authors, exported := None, map[], map[], {};
    }

    /** `_protected_platforms`: everything bound or exported so far. */
    method ProtectedPlatforms() returns (platforms: set<Platform>)
      ensures forall p :: p in platforms <==> Protected(State(), p)
    {
      platforms := exported;
      var todo := bindings.Keys;
      while todo != {}
        invariant todo <= bindings.Keys
        invariant forall p :: p in platforms <==> p in exported || exists a :: a in bindings.Keys - todo && bindings[a].platform == p
      {
        var a :| a in todo;
        platforms := platforms + {bindings[a].platform};
        todo := todo - {a};
      }
    }

    method LockPolicy(h: Host) returns (policy: Option<Policy>)
      ensures policy == Locked(h, State())
    {
      var candidate;
      if row.Some? {
        candidate := row.value;
      } else {
        var protected := ProtectedPlatforms();
        assert protected != {} ==> exists p :: p in protected;
        if protected != {} && !h.scopesAgree { return None; }
        candidate := Policy(0, h.defaultRoot, if protected != {} then LegacyFlat else PlatformSubdirectories, map[]);
      }
      var ok := CheckRoots(h, candidate);
      return if ok && candidate.revision <= MAX_REVISION then Some(candidate) else None;
    }

    /** `update`. */
    method UpdatePolicy(h: Host, expected: nat, sharedRoot: Path, overrides: map<Platform, Path>, layout: Layout)
      modifies this`row
      ensures State() == Update(h, old(State()), expected, sharedRoot, overrides, layout)
    {
      if expected >= MAX_REVISION { return; }
      var current := LockPolicy(h);
      if current == None || current.value.revision != expected { return; }
      var proposed := Policy(expected + 1, sharedRoot, layout, overrides);
      var ok := CheckRoots(h, proposed);
      if !ok { return; }
      var protected := ProtectedPlatforms();
      if exists p :: p in protected && Root(current.value, p) != Root(proposed, p) { return; }
      row := Some(proposed);
    }

    /** `bind_author_root`. */
    method BindAuthorRoot(h: Host, author: nat)
      modifies this`row, this`bindings
      ensures State() == Bind(h, old(State()), author)
    {
      var policy := LockPolicy(h);
      if policy == None || author !in authors { return; }
      var platform := authors[author];
      if author in bindings {
        if BindingHolds(policy.value, bindings[author], platform) { row := policy; }
        return;
      }
      row := policy;
      bindings := bindings[author := Binding(platform, Root(policy.value, platform), policy.value.revision)];
    }
  }
}
