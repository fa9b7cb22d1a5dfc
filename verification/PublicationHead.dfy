/** The head resolver of the publication chain (`_resolve_publication_head`).

    The declarative side is `IsPath`: the succeeded publications of one target,
    listed oldest first, each naming the one before it.  The imperative side is the
    resolver itself, with its `children`, `genesis` and `visited` bookkeeping. */
module PublicationHead {
  import opened Wrappers

  type JobId = nat

  /** A manifest digest hashes a document holding the other two digests, so under an
      injective hash the pair below is the whole `PublishedIdentity`. */
  datatype Identity = Identity(source: nat, tree: nat)

  datatype Anchor = Anchor(jobId: JobId, predecessor: Option<JobId>, identity: Identity)

  datatype Resolution = Resolved(head: Option<Anchor>) | Inconsistent

  type Anchors = map<JobId, Anchor>

  predicate Keyed(anchors: Anchors) {
    forall j :: j in anchors ==> anchors[j].jobId == j
  }

  predicate Distinct(s: seq<JobId>) {
    forall i, k :: 0 <= i < k < |s| ==> s[i] != s[k]
  }

  /** `path` lists every anchor exactly once, from the genesis to the head. */
  ghost predicate IsPath(anchors: Anchors, path: seq<JobId>) {
    && 0 < |path|
    && Distinct(path)
    && (forall i :: 0 <= i < |path| ==> path[i] in anchors)
    && (forall j :: j in anchors ==> j in path)
    && anchors[path[0]].predecessor == None
    && (forall i, k :: 0 <= i < k < |path| && k == i + 1 ==> anchors[path[k]].predecessor == Some(path[i]))
  }

  ghost predicate IsLinear(anchors: Anchors) {
    anchors == map[] || exists path :: IsPath(anchors, path)
  }

  ghost function PathOf(anchors: Anchors): (path: seq<JobId>)
    requires exists path :: IsPath(anchors, path)
    ensures IsPath(anchors, path)
  {
    var path :| IsPath(anchors, path);
    path
  }

  /** What the resolver must answer: nothing for an empty map, the tip of the one
      path when there is one, and an inconsistency otherwise. */
  ghost function ResolveHead(anchors: Anchors): (r: Resolution)
    ensures r.Inconsistent? <==> !IsLinear(anchors)
    ensures r == Resolved(None) <==> anchors == map[]
  {
    if anchors == map[] then Resolved(None)
    else if exists path :: IsPath(anchors, path) then
      Resolved(Some(anchors[PathOf(anchors)[|PathOf(anchors)| - 1]]))
    else Inconsistent
  }

  lemma PredecessorAt(anchors: Anchors, path: seq<JobId>, i: nat)
    requires IsPath(anchors, path) && i < |path|
    ensures anchors[path[i]].predecessor == if i == 0 then None else Some(path[i - 1])
  {
  }

  /** Two listings of the same anchors agree, so the head does not depend on the choice. */
  lemma {:induction false} PathsAgree(anchors: Anchors, p: seq<JobId>, q: seq<JobId>, n: nat)
    requires IsPath(anchors, p) && IsPath(anchors, q)
    requires n <= |p| && n <= |q|
    ensures p[..n] == q[..n]
  {
    if n > 0 {
      PathsAgree(anchors, p, q, n - 1);
      if n > 1 { assert p[n - 2] == p[..n - 1][n - 2] == q[..n - 1][n - 2] == q[n - 2]; }
      hide IsPath;
      NextAgrees(anchors, p, q, n - 1);
      assert p[..n] == p[..n - 1] + [p[n - 1]] && q[..n] == q[..n - 1] + [q[n - 1]];
    }
  }

  lemma NextAgrees(anchors: Anchors, p: seq<JobId>, q: seq<JobId>, n: nat)
    requires IsPath(anchors, p) && IsPath(anchors, q)
    requires n < |p| && n < |q| && (n > 0 ==> p[n - 1] == q[n - 1])
    ensures p[n] == q[n]
  {
    assert p[n] in q;
    var k :| 0 <= k < |q| && q[k] == p[n];
    PredecessorAt(anchors, p, n);
    PredecessorAt(anchors, q, k);
  }

  lemma FreshAfter(q: seq<JobId>, n: nat)
    requires Distinct(q) && n < |q|
    ensures q[n] !in q[..n]
  {
  }

  lemma PathIsNotShorter(anchors: Anchors, p: seq<JobId>, q: seq<JobId>)
    requires IsPath(anchors, p) && IsPath(anchors, q)
    ensures |q| <= |p|
  {
    if |p| < |q| {
      PathsAgree(anchors, p, q, |p|);
      FreshAfter(q, |p|);
    }
  }

  lemma PathIsUnique(anchors: Anchors, p: seq<JobId>, q: seq<JobId>)
    requires IsPath(anchors, p) && IsPath(anchors, q)
    ensures p == q
  {
    PathIsNotShorter(anchors, p, q);
    PathIsNotShorter(anchors, q, p);
    PathsAgree(anchors, p, q, |p|);
    assert p == p[..|p|] && q == q[..|q|];
  }

  /** A head is accepted exactly when the anchors form one path, and it is that path's tip. */
  lemma HeadIsTip(anchors: Anchors, path: seq<JobId>)
    requires IsPath(anchors, path)
    ensures ResolveHead(anchors) == Resolved(Some(anchors[path[|path| - 1]]))
  {
    assert path[0] in anchors;
    PathIsUnique(anchors, path, PathOf(anchors));
  }

  /** A successor of the head keeps the map accepted and becomes the new head. */
  lemma AppendToHead(anchors: Anchors, path: seq<JobId>, next: Anchor)
    requires (anchors == map[] && path == []) || IsPath(anchors, path)
    requires next.jobId !in anchors
    requires next.predecessor == if path == [] then None else Some(path[|path| - 1])
    ensures IsPath(anchors[next.jobId := next], path + [next.jobId])
    ensures ResolveHead(anchors[next.jobId := next]) == Resolved(Some(next))
  {
    var extended, longer := anchors[next.jobId := next], path + [next.jobId];
    forall j | j in extended ensures j in longer {
      if j != next.jobId { assert j in path; } else { assert longer[|path|] == j; }
    }
    HeadIsTip(extended, longer);
  }

  /** In a listing, the anchor after `p` is its only successor. */
  lemma SuccessorIsNext(anchors: Anchors, path: seq<JobId>, p: JobId, c: JobId) returns (i: nat)
    requires IsPath(anchors, path)
    requires p in anchors && c in anchors && anchors[c].predecessor == Some(p)
    ensures i + 1 < |path| && path[i] == p && path[i + 1] == c
  {
    assert c in path;
    var k :| 0 <= k < |path| && path[k] == c;
    i := k - 1;
  }

  lemma SameParentSameAnchor(anchors: Anchors, path: seq<JobId>, a: JobId, b: JobId)
    requires IsPath(anchors, path)
    requires a in anchors && b in anchors && anchors[a].predecessor == anchors[b].predecessor
    ensures a == b
  {
    assert a in path && b in path;
    var i :| 0 <= i < |path| && path[i] == a;
    var k :| 0 <= k < |path| && path[k] == b;
    PredecessorAt(anchors, path, i);
    PredecessorAt(anchors, path, k);
  }

  /** A second successor of any anchor makes the map unresolvable for good. */
  lemma TwoSuccessorsBranch(anchors: Anchors, a: JobId, b: JobId)
    requires a in anchors && b in anchors && a != b
    requires anchors[a].predecessor == anchors[b].predecessor
    ensures ResolveHead(anchors) == Inconsistent
  {
    forall path | IsPath(anchors, path) ensures false {
      SameParentSameAnchor(anchors, path, a, b);
    }
    assert a in anchors;
  }

  /** `children` holds exactly the successors of each anchor among `done`. */
  ghost predicate Indexed(anchors: Anchors, children: map<JobId, seq<JobId>>, done: set<JobId>) {
    && children.Keys == anchors.Keys
    && (forall p :: p in anchors ==> Distinct(children[p]))
    && (forall p, c :: p in anchors ==> (c in children[p] <==> c in done && c in anchors && anchors[c].predecessor == Some(p)))
  }

  ghost predicate Geneses(anchors: Anchors, genesis: seq<JobId>, done: set<JobId>) {
    && Distinct(genesis)
    && (forall c :: c in genesis <==> c in done && c in anchors && anchors[c].predecessor == None)
  }

  lemma IndexGrows(anchors: Anchors, children: map<JobId, seq<JobId>>, done: set<JobId>, j: JobId)
    requires j in anchors && j !in done && Indexed(anchors, children, done)
    ensures anchors[j].predecessor == None ==> Indexed(anchors, children, done + {j})
    ensures anchors[j].predecessor.Some? && anchors[j].predecessor.value in anchors ==>
              var p := anchors[j].predecessor.value;
              Indexed(anchors, children[p := children[p] + [j]], done + {j})
  {
  }

  lemma GenesesGrow(anchors: Anchors, genesis: seq<JobId>, done: set<JobId>, j: JobId)
    requires j in anchors && j !in done && Geneses(anchors, genesis, done)
    ensures Geneses(anchors, if anchors[j].predecessor == None then genesis + [j] else genesis, done + {j})
  {
  }

  /** The first loop of the resolver; `ok` is false for a predecessor that is not an anchor. */
  method IndexAnchors(anchors: Anchors)
    returns (ok: bool, children: map<JobId, seq<JobId>>, genesis: seq<JobId>)
    requires Keyed(anchors)
    ensures ok ==> Indexed(anchors, children, anchors.Keys) && Geneses(anchors, genesis, anchors.Keys)
    ensures ok <==> forall c :: c in anchors && anchors[c].predecessor.Some? ==> anchors[c].predecessor.value in anchors
  {
    children, genesis := map j | j in anchors :: [], [];
    var todo := anchors.Keys;
    assert Indexed(anchors, children, {}) && Geneses(anchors, genesis, {});
    assert anchors.Keys - todo == {};
    while todo != {}
      invariant todo <= anchors.Keys && children.Keys == anchors.Keys
      invariant Indexed(anchors, children, anchors.Keys - todo) && Geneses(anchors, genesis, anchors.Keys - todo)
      invariant forall c :: c in anchors.Keys - todo && anchors[c].predecessor.Some? ==> anchors[c].predecessor.value in anchors
    {
      hide Indexed, Geneses;
      var j :| j in todo;
      assert anchors.Keys - (todo - {j}) == anchors.Keys - todo + {j};
      IndexGrows(anchors, children, anchors.Keys - todo, j);
      GenesesGrow(anchors, genesis, anchors.Keys - todo, j);
      todo := todo - {j};
      if anchors[j].predecessor == None {
        genesis := genesis + [anchors[j].jobId];
      } else {
        var p := anchors[j].predecessor.value;
        if p !in anchors { return false, children, genesis; }
        children := children[p := children[p] + [anchors[j].jobId]];
      }
    }
    assert anchors.Keys - todo == anchors.Keys;
    return true, children, genesis;
  }

  /** The childless anchors, in no particular order. */
  method ChildlessAnchors(anchors: Anchors, children: map<JobId, seq<JobId>>) returns (heads: seq<JobId>)
    requires children.Keys == anchors.Keys
    ensures Distinct(heads)
    ensures forall h :: h in heads <==> h in anchors && children[h] == []
  {
    heads := [];
    var todo := anchors.Keys;
    while todo != {}
      invariant todo <= anchors.Keys
      invariant Distinct(heads)
      invariant forall h :: h in heads <==> h in anchors.Keys - todo && children[h] == []
    {
      var j :| j in todo;
      todo := todo - {j};
      if children[j] == [] { heads := heads + [j]; }
    }
  }

  /** `walk` follows predecessors from its last element, the head, back to its first. */
  ghost predicate IsWalk(anchors: Anchors, walk: seq<JobId>, head: JobId) {
    && 0 < |walk| && walk[|walk| - 1] == head
    && Distinct(walk)
    && (forall i :: 0 <= i < |walk| ==> walk[i] in anchors)
    && (forall i, k :: 0 <= i < k < |walk| && k == i + 1 ==> anchors[walk[k]].predecessor == Some(walk[i]))
  }

  /** Where the path exists and ends in `head`, every walk from `head` is a suffix of it. */
  lemma WalkIsSuffix(anchors: Anchors, path: seq<JobId>, walk: seq<JobId>, head: JobId)
    requires IsPath(anchors, path) && path[|path| - 1] == head && IsWalk(anchors, walk, head)
    ensures |walk| <= |path| && walk == path[|path| - |walk|..]
    decreases |walk|
  {
    if |walk| > 1 {
      var rest := walk[1..];
      assert IsWalk(anchors, rest, head);
      WalkIsSuffix(anchors, path, rest, head);
      assert rest[0] == path[|path| - |rest|];
      assert anchors[walk[1]].predecessor == Some(walk[0]);
    }
  }

  /** The final loop: walk back until the genesis or a repeated anchor. */
  method WalkToGenesis(anchors: Anchors, head: JobId) returns (cyclic: bool, visited: set<JobId>, ghost walk: seq<JobId>)
    requires Keyed(anchors) && head in anchors
    requires forall c :: c in anchors && anchors[c].predecessor.Some? ==> anchors[c].predecessor.value in anchors
    ensures head in visited && visited <= anchors.Keys
    ensures forall j :: j in visited && anchors[j].predecessor.Some? ==> anchors[j].predecessor.value in visited
    ensures IsWalk(anchors, walk, head) && visited == set j | j in walk
    ensures !cyclic ==> anchors[walk[0]].predecessor == None
    ensures cyclic ==> anchors[walk[0]].predecessor.Some? && anchors[walk[0]].predecessor.value in walk
  {
    visited := {};
    walk := [];
    var cursor := Some(anchors[head]);
    while cursor != None
      invariant visited == (set j | j in walk) && visited <= anchors.Keys
      invariant cursor.Some? ==> cursor.value.jobId in anchors && anchors[cursor.value.jobId] == cursor.value
      invariant walk == [] ==> cursor == Some(anchors[head])
      invariant walk != [] ==> IsWalk(anchors, walk, head)
      invariant walk != [] ==> anchors[walk[0]].predecessor == if cursor == None then None else Some(cursor.value.jobId)
      decreases anchors.Keys - visited, cursor.Some?
    {
      if cursor.value.jobId in visited {
        WalkIsClosed(anchors, walk, head);
        return true, visited, walk;
      }
      visited := visited + {cursor.value.jobId};
      walk := [cursor.value.jobId] + walk;
      cursor := if cursor.value.predecessor == None then None else Some(anchors[cursor.value.predecessor.value]);
    }
    WalkIsClosed(anchors, walk, head);
    return false, visited, walk;
  }

  lemma WalkIsClosed(anchors: Anchors, walk: seq<JobId>, head: JobId)
    requires IsWalk(anchors, walk, head)
    ensures forall k :: 0 < k < |walk| ==> anchors[walk[k]].predecessor.Some? && anchors[walk[k]].predecessor.value in walk
  {
    forall k | 0 < k < |walk|
      ensures anchors[walk[k]].predecessor.Some? && anchors[walk[k]].predecessor.value in walk
    {
      var before := walk[k - 1];
      assert anchors[walk[k]].predecessor == Some(before);
    }
  }

  /** The resolver.  Python iterates the dictionary; the order plays no part. */
  method ResolvePublicationHead(anchors: Anchors) returns (r: Resolution)
    requires Keyed(anchors)
    ensures r == ResolveHead(anchors)
  {
    if anchors == map[] { return Resolved(None); }
    var ok, children, genesis := IndexAnchors(anchors);
    if !ok {
      PredecessorsAreAnchors(anchors);
      return Inconsistent;
    }
    if |genesis| != 1 || exists p :: p in anchors && |children[p]| > 1 {
      BranchesRefutePaths(anchors, genesis, children);
      return Inconsistent;
    }
    var heads := ChildlessAnchors(anchors, children);
    OnlyTipIsChildless(anchors, children, heads);
    if |heads| != 1 { return Inconsistent; }
    var head := anchors[heads[0]];
    assert heads[0] in heads;
    var cyclic, visited, walk := WalkToGenesis(anchors, head.jobId);
    WalkCoversPath(anchors, heads, cyclic, visited, walk);
    if cyclic { return Inconsistent; }
    if |visited| != |anchors| || genesis[0] !in visited {
      assert genesis[0] in genesis;
      return Inconsistent;
    }
    SubsetOfSameSize(visited, anchors.Keys);
    assert IsPath(anchors, walk);
    HeadIsTip(anchors, walk);
    return Resolved(Some(head));
  }

  lemma PredecessorsAreAnchors(anchors: Anchors)
    ensures IsLinear(anchors) ==>
              forall c :: c in anchors && anchors[c].predecessor.Some? ==> anchors[c].predecessor.value in anchors
  {
    forall path, c | IsPath(anchors, path) && c in anchors && anchors[c].predecessor.Some?
      ensures anchors[c].predecessor.value in anchors
    {
      assert c in path;
      var k :| 0 <= k < |path| && path[k] == c;
      PredecessorAt(anchors, path, k);
    }
  }

  lemma FirstIsGenesis(anchors: Anchors, path: seq<JobId>, genesis: seq<JobId>)
    requires IsPath(anchors, path) && Geneses(anchors, genesis, anchors.Keys)
    ensures path[0] in genesis
  {
  }

  lemma BranchesRefutePaths(anchors: Anchors, genesis: seq<JobId>, children: map<JobId, seq<JobId>>)
    requires Geneses(anchors, genesis, anchors.Keys) && Indexed(anchors, children, anchors.Keys)
    requires |genesis| != 1 || exists p :: p in anchors && |children[p]| > 1
    requires anchors != map[]
    ensures ResolveHead(anchors) == Inconsistent
  {
    if p :| p in anchors && |children[p]| > 1 {
      var a, b := children[p][0], children[p][1];
      assert a in children[p] && b in children[p];
      TwoSuccessorsBranch(anchors, a, b);
    } else if |genesis| > 1 {
      assert genesis[0] in genesis && genesis[1] in genesis;
      TwoSuccessorsBranch(anchors, genesis[0], genesis[1]);
    } else {
      forall path | IsPath(anchors, path) ensures false {
        FirstIsGenesis(anchors, path, genesis);
      }
    }
  }

  lemma TipIsChildless(anchors: Anchors, children: map<JobId, seq<JobId>>, path: seq<JobId>)
    requires Indexed(anchors, children, anchors.Keys) && IsPath(anchors, path)
    ensures children[path[|path| - 1]] == []
  {
    var tip := path[|path| - 1];
    if children[tip] != [] {
      var c := children[tip][0];
      assert c in children[tip];
      var i := SuccessorIsNext(anchors, path, tip, c);
    }
  }

  lemma InnerAnchorsHaveChildren(anchors: Anchors, children: map<JobId, seq<JobId>>, path: seq<JobId>)
    requires Indexed(anchors, children, anchors.Keys) && IsPath(anchors, path)
    ensures forall j :: j in anchors && children[j] == [] ==> j == path[|path| - 1]
  {
    forall j | j in anchors && j != path[|path| - 1] ensures children[j] != [] {
      assert j in path;
      var k :| 0 <= k < |path| && path[k] == j;
      assert path[k + 1] in children[path[k]];
    }
  }

  lemma FirstTwoDiffer(s: seq<JobId>)
    requires Distinct(s)
    ensures 1 < |s| ==> s[0] in s && s[1] in s && s[0] != s[1]
  {
  }

  lemma SingletonOf(heads: seq<JobId>, tip: JobId)
    requires Distinct(heads) && forall h :: h in heads <==> h == tip
    ensures heads == [tip]
  {
    assert tip in heads;
    FirstTwoDiffer(heads);
  }

  lemma OnlyTipIsChildless(anchors: Anchors, children: map<JobId, seq<JobId>>, heads: seq<JobId>)
    requires Indexed(anchors, children, anchors.Keys)
    requires Distinct(heads) && (forall h :: h in heads <==> h in anchors && children[h] == [])
    ensures forall path :: IsPath(anchors, path) ==> heads == [path[|path| - 1]]
  {
    forall path | IsPath(anchors, path) ensures heads == [path[|path| - 1]] {
      TipIsChildless(anchors, children, path);
      InnerAnchorsHaveChildren(anchors, children, path);
      SingletonOf(heads, path[|path| - 1]);
    }
  }

  lemma NotAmongLater(path: seq<JobId>, i: nat)
    requires Distinct(path) && i < |path|
    ensures path[i] !in path[i + 1..]
  {
    var later := path[i + 1..];
    forall k | 0 <= k < |later| ensures later[k] != path[i] {
      assert later[k] == path[i + 1 + k];
    }
  }

  /** Where a path exists, the walk is acyclic and covers it. */
  lemma WalkCoversPath(anchors: Anchors, heads: seq<JobId>, cyclic: bool, visited: set<JobId>, walk: seq<JobId>)
    requires |heads| == 1 && IsWalk(anchors, walk, heads[0]) && visited == set j | j in walk
    requires forall path :: IsPath(anchors, path) ==> heads == [path[|path| - 1]]
    requires !cyclic ==> anchors[walk[0]].predecessor == None
    requires cyclic ==> anchors[walk[0]].predecessor.Some? && anchors[walk[0]].predecessor.value in walk
    ensures forall path :: IsPath(anchors, path) ==> !cyclic && visited == anchors.Keys
  {
    forall path | IsPath(anchors, path) ensures !cyclic && visited == anchors.Keys {
      WalkIsSuffix(anchors, path, walk, heads[0]);
      var at := |path| - |walk|;
      assert walk[0] == path[at];
      if at > 0 {
        NotAmongLater(path, at - 1);
        PredecessorAt(anchors, path, at);
      } else {
        assert walk == path;
      }
    }
  }

  lemma SubsetOfSameSize(a: set<JobId>, b: set<JobId>)
    requires a <= b && |a| == |b|
    ensures a == b
  {
    if x :| x in b && x !in a {
      SizeOfSubset(a, b - {x});
    }
  }

  lemma {:induction false} SizeOfSubset(a: set<JobId>, b: set<JobId>)
    requires a <= b
    ensures |a| <= |b|
  {
    if a != {} {
      var x :| x in a;
      SizeOfSubset(a - {x}, b - {x});
    }
  }
}
