/** Copying a browser profile: regular files and real directories, never through a link. */
module ProfileTree {
  import opened Wrappers

  datatype Node = File(bytes: seq<nat>) | Directory(entries: Entries) | Link | Special

  /** The sorted entries of a directory. */
  datatype Entries = Nil | Entry(name: nat, node: Node, rest: Entries)

  datatype CopyStats = CopyStats(files: nat, bytes: nat)

  datatype Copied = Copied(tree: Node, stats: CopyStats) | SourceInvalid | SourceEmpty

  function Plus(a: CopyStats, b: CopyStats): CopyStats {
    CopyStats(a.files + b.files, a.bytes + b.bytes)
  }

  /** `copy_directory`: the entries in order, skipping links and special files. */
  function CopyEntries(entries: Entries): (Entries, CopyStats) {
    match entries
    case Nil => (Nil, CopyStats(0, 0))
    case Entry(name, node, rest) =>
      var (copied, stats) := CopyEntries(rest);
      match node
      case File(bytes) => (Entry(name, node, copied), Plus(CopyStats(1, |bytes|), stats))
      case Directory(inner) =>
        var (copy, below) := CopyEntries(inner);
        (Entry(name, Directory(copy), copied), Plus(below, stats))
      case _ => (copied, stats)
  }

  /** `_copy_profile_tree`: a profile without a single regular file is refused. */
  function CopyTree(source: Node): Copied {
    if !source.Directory? then SourceInvalid
    else
      var (entries, stats) := CopyEntries(source.entries);
      if stats.files == 0 then SourceEmpty else Copied(Directory(entries), stats)
  }

  function Find(entries: Entries, name: nat): Option<Node> {
    match entries
    case Nil => None
    case Entry(n, node, rest) => if n == name then Some(node) else Find(rest, name)
  }

  /** The bytes of the regular file at `path`, reached through real directories only. */
  function FileAt(entries: Entries, path: seq<nat>): Option<seq<nat>>
    decreases |path|
  {
    if path == [] then None else
    match Find(entries, path[0])
    case Some(File(bytes)) => if |path| == 1 then Some(bytes) else None
    case Some(Directory(inner)) => FileAt(inner, path[1..])
    case _ => None
  }

  /** Names are unique in every directory. */
  predicate WellFormed(entries: Entries) {
    match entries
    case Nil => true
    case Entry(name, node, rest) =>
      Find(rest, name) == None && (node.Directory? ==> WellFormed(node.entries)) && WellFormed(rest)
  }

  function Survivor(node: Option<Node>): Option<Node> {
    match node
    case Some(File(bytes)) => node
    case Some(Directory(inner)) => Some(Directory(CopyEntries(inner).0))
    case _ => None
  }

  /** What the copy holds under one name. */
  lemma {:induction false} CopyFinds(entries: Entries, name: nat)
    requires WellFormed(entries)
    ensures Find(CopyEntries(entries).0, name) == Survivor(Find(entries, name))
    ensures Find(entries, name).Some? && Find(entries, name).value.Directory? ==> WellFormed(Find(entries, name).value.entries)
  {
    match entries
    case Nil =>
    case Entry(_, _, rest) => CopyFinds(rest, name);
  }

  /** The copy has exactly the regular files of the source, byte for byte, and nothing
      that can only be reached through a link. */
  lemma {:induction false} CopyIsFaithful(entries: Entries, path: seq<nat>)
    requires WellFormed(entries)
    ensures FileAt(CopyEntries(entries).0, path) == FileAt(entries, path)
    decreases |path|
  {
    if path != [] {
      CopyFinds(entries, path[0]);
      match Find(entries, path[0])
      case Some(Directory(inner)) => CopyIsFaithful(inner, path[1..]);
      case _ =>
    }
  }

  /** No link or special file anywhere. */
  predicate Plain(entries: Entries) {
    match entries
    case Nil => true
    case Entry(_, node, rest) => (node.File? || (node.Directory? && Plain(node.entries))) && Plain(rest)
  }

  function Measure(entries: Entries): CopyStats {
    match entries
    case Nil => CopyStats(0, 0)
    case Entry(_, node, rest) =>
      var here := match node
        case File(bytes) => CopyStats(1, |bytes|)
        case Directory(inner) => Measure(inner)
        case _ => CopyStats(0, 0);
      Plus(here, Measure(rest))
  }

  /** The copy holds no link, and the statistics count its own files and bytes. */
  lemma {:induction false} CopyIsPlainAndCounted(entries: Entries)
    ensures Plain(CopyEntries(entries).0)
    ensures Measure(CopyEntries(entries).0) == CopyEntries(entries).1
    ensures Plain(entries) ==> CopyEntries(entries).0 == entries
  {
    match entries
    case Nil =>
    case Entry(_, node, rest) =>
      CopyIsPlainAndCounted(rest);
      if node.Directory? { CopyIsPlainAndCounted(node.entries); }
  }
}
