/**
 A Unix file system with directories, hard links and symbolic links, the probes that plan a
 destination, and the four system calls a receiving transfer makes. Paths are absolute lists of
 components; `..` is resolved through the directory tree, as the kernel does. How the text of a path
 ends is kept beside its components, because the kernel follows a last link under a trailing slash.
 */
module FileSystem {
  import opened Common
  import opened Streaming

  type Path = seq<string>
  type FileId = nat
  type DirId = nat
  /** One directory entry: the directory and the name in it. */
  type Name = (DirId, string)

  /** The end of a path's text: its last name, or a slash or a dot after it. */
  datatype Tail = Plain | Slash | Dot

  datatype Target = Target(absolute: bool, path: Path, tail: Tail)
  datatype Node = FileNode(file: FileId) | DirNode(dir: DirId) | LinkNode(target: Target)

  /** Directory entries, parents of directories, file contents, and the files nobody else may write. */
  datatype Volume = Volume(
    entries: map<Name, Node>, parents: map<DirId, DirId>, contents: map<FileId, seq<byte>>, guarded: set<FileId>)

  const ROOT: DirId := 0
  const MAX_LINKS: nat := 40
  const MAX_PATH_LEN: nat := 4096
  const MAX_FILE_NAME_LEN: nat := 1024

  datatype Lookup = Found(node: Node) | NotFound | NotDirectory | TooManyLinks

  function Entry(v: Volume, at: DirId, name: string): Option<Node> {
    if name == ".." then Some(DirNode(if at in v.parents then v.parents[at] else ROOT))
    else if (at, name) in v.entries then Some(v.entries[(at, name)])
    else None
  }

  /** A trailing slash or dot insists on a directory. */
  function Insist(tail: Tail, l: Lookup): Lookup {
    if tail != Plain && l.Found? && !l.node.DirNode? then NotDirectory else l
  }

  /** Resolves a path from a directory; a link in the last position is followed only on request. */
  function Walk(v: Volume, at: DirId, path: Path, follow: bool, links: nat): Lookup
    decreases links, |path|
  {
    if path == [] then Found(DirNode(at))
    else
      var node := Entry(v, at, path[0]);
      if node.None? then NotFound
      else if |path| == 1 && !(follow && node.value.LinkNode?) then Found(node.value)
      else
        match node.value
        case DirNode(d) => Walk(v, d, path[1..], follow, links)
        case FileNode(_) => NotDirectory
        case LinkNode(target) =>
          if links == 0 then TooManyLinks
          else
            var end := Walk(v, if target.absolute then ROOT else at, target.path + path[1..], follow, links - 1);
            if |path| == 1 then Insist(target.tail, end) else end
  }

  function Stat(v: Volume, path: Path, tail: Tail): Lookup {
    Insist(tail, Walk(v, ROOT, path, true, MAX_LINKS))
  }

  /** Does not follow a last link, unless a slash or a dot comes after it. */
  function Lstat(v: Volume, path: Path, tail: Tail): Lookup {
    Insist(tail, Walk(v, ROOT, path, tail != Plain, MAX_LINKS))
  }

  predicate LeadsToDir(l: Lookup) {
    l.Found? && l.node.DirNode?
  }

  /** Looking up a last name that is no link to follow is looking into the directory its parent path leads to. */
  lemma {:induction false} WalkLast(v: Volume, at: DirId, path: Path, name: string, follow: bool, links: nat)
    requires LeadsToDir(Walk(v, at, path, true, links))
    requires var d := Walk(v, at, path, true, links).node.dir;
             !(follow && Entry(v, d, name).Some? && Entry(v, d, name).value.LinkNode?)
    ensures var d := Walk(v, at, path, true, links).node.dir;
            Walk(v, at, path + [name], follow, links) ==
            (if Entry(v, d, name).Some? then Found(Entry(v, d, name).value) else NotFound)
    decreases links, |path|
  {
    if path == [] {
      assert path + [name] == [name];
    } else {
      assert (path + [name])[1..] == path[1..] + [name];
      match Entry(v, at, path[0]).value
      case DirNode(d) => WalkLast(v, d, path[1..], name, follow, links);
      case FileNode(_) =>
      case LinkNode(target) =>
        WalkLast(v, if target.absolute then ROOT else at, target.path + path[1..], name, follow, links - 1);
        assert target.path + (path[1..] + [name]) == (target.path + path[1..]) + [name];
    }
  }

  /** The directory entry a path denotes, when its parent is a directory and its last name is ordinary. */
  function Place(v: Volume, path: Path): Option<Name> {
    if path == [] || path[|path| - 1] == ".." then None
    else
      var parent := Stat(v, path[..|path| - 1], Plain);
      if LeadsToDir(parent) then Some((parent.node.dir, path[|path| - 1])) else None
  }

  predicate IsFree(v: Volume, path: Path) {
    Place(v, path).Some? && Place(v, path).value !in v.entries
  }

  predicate IsLink(v: Volume, path: Path) {
    Place(v, path).Some? && Place(v, path).value in v.entries && v.entries[Place(v, path).value].LinkNode?
  }

  /** Without a trailing slash or dot, an absent path is a free entry, not even a dangling link. */
  lemma AbsentMeansFree(v: Volume, path: Path)
    requires path != [] && LeadsToDir(Stat(v, path[..|path| - 1], Plain))
    ensures Lstat(v, path, Plain) == NotFound <==> IsFree(v, path)
  {
    var n := |path| - 1;
    WalkLast(v, ROOT, path[..n], path[n], false, MAX_LINKS);
    assert path == path[..n] + [path[n]];
  }

  /**
   What an absent path under a directory says about its entry: the entry is free exactly when the text
   does not end in a slash or a dot, or the last name is not a link.
   */
  lemma AbsenceIsExact(v: Volume, path: Path, tail: Tail)
    requires path != [] && LeadsToDir(Stat(v, path[..|path| - 1], Plain)) && Lstat(v, path, tail) == NotFound
    ensures IsFree(v, path) <==> tail == Plain || !IsLink(v, path)
  {
    var n := |path| - 1;
    if tail == Plain {
      AbsentMeansFree(v, path);
    } else if !IsLink(v, path) {
      WalkLast(v, ROOT, path[..n], path[n], true, MAX_LINKS);
      assert path == path[..n] + [path[n]];
    }
  }

  // Planning a destination.

  datatype PlanError =
    | DestinationExists | DestinationParentNotFound | DestinationNotDirectory
    | InvalidFileName | InvalidPath | PermissionDenied | ProbeFailed

  /** The final path with the end of its text, and its directory. */
  datatype DestinationPlan = DestinationPlan(finalPath: Path, tail: Tail, tempDir: Path)
  datatype Planned = Ready(plan: DestinationPlan) | Refused(error: PlanError)

  /** What one probe meets: the volume at that instant, or a denied permission. */
  datatype Probe = Probe(volume: Volume, denied: bool)

  predicate Control(c: char) {
    c <= '\U{1f}' || '\U{7f}' <= c <= '\U{9f}'
  }

  predicate PlainName(name: string) {
    && name != "" && name != "." && name != ".." && Utf8Length(name) <= MAX_FILE_NAME_LEN
    && forall i :: 0 <= i < |name| ==> name[i] != '/' && !Control(name[i])
  }

  predicate ProtocolPath(text: string) {
    Utf8Length(text) <= MAX_PATH_LEN && forall i :: 0 <= i < |text| ==> !Control(text[i])
  }

  function ProbeError(l: Lookup): PlanError {
    if l.NotDirectory? then DestinationNotDirectory else ProbeFailed
  }

  /** Nothing found at the final path at the first probe, and its parent a directory at the second. */
  ghost predicate Sound(plan: DestinationPlan, first: Probe, second: Probe) {
    && plan.finalPath != [] && plan.tempDir == plan.finalPath[..|plan.finalPath| - 1]
    && !first.denied && Lstat(first.volume, plan.finalPath, plan.tail) == NotFound
    && !second.denied && LeadsToDir(Stat(second.volume, plan.tempDir, Plain))
  }

  /** The plan for a final path, if its probes turn out well. */
  function PlanOf(path: Path, tail: Tail): DestinationPlan
    requires path != []
  {
    DestinationPlan(path, tail, path[..|path| - 1])
  }

  /** What each refusal of a final path says about its two probes; no two of them can be right at once. */
  ghost predicate Justifies(error: PlanError, path: Path, tail: Tail, first: Probe, second: Probe) {
    var final := Lstat(first.volume, path, tail);
    var inspected := !first.denied && final == NotFound && path != [];
    var parent := if path == [] then NotFound else Stat(second.volume, path[..|path| - 1], Plain);
    match error
    case DestinationExists => !first.denied && final.Found?
    case PermissionDenied => first.denied || (inspected && second.denied)
    case DestinationParentNotFound =>
      !first.denied && final == NotFound && (path == [] || (!second.denied && parent == NotFound))
    case DestinationNotDirectory =>
      || (!first.denied && final == NotDirectory)
      || (inspected && !second.denied && (parent == NotDirectory || (parent.Found? && !parent.node.DirNode?)))
    case ProbeFailed =>
      (!first.denied && final == TooManyLinks) || (inspected && !second.denied && parent == TooManyLinks)
    case _ => false
  }

  method EnsureDestinationFree(finalPath: Path, tail: Tail, probes: nat -> Probe, at: nat)
    returns (error: Option<PlanError>)
    ensures error.None? <==> finalPath != [] && Sound(PlanOf(finalPath, tail), probes(at), probes(at + 1))
    ensures forall e :: error == Some(e) <==> Justifies(e, finalPath, tail, probes(at), probes(at + 1))
  {
    if probes(at).denied {
      return Some(PermissionDenied);
    }
    var final := Lstat(probes(at).volume, finalPath, tail);
    match final
    case Found(_) => return Some(DestinationExists);
    case NotFound =>
      if finalPath == [] {
        return Some(DestinationParentNotFound);
      }
      if probes(at + 1).denied {
        return Some(PermissionDenied);
      }
      var parent := Stat(probes(at + 1).volume, finalPath[..|finalPath| - 1], Plain);
      match parent {
        case Found(node) => error := if node.DirNode? then None else Some(DestinationNotDirectory);
        case NotFound => error := Some(DestinationParentNotFound);
        case _ => error := Some(ProbeError(parent));
      }
    case _ => error := Some(ProbeError(final));
  }

  method BuildPlan(finalPath: Path, tail: Tail, probes: nat -> Probe, at: nat) returns (r: Planned)
    ensures r.Ready? <==> finalPath != [] && Sound(PlanOf(finalPath, tail), probes(at), probes(at + 1))
    ensures r.Ready? ==> r.plan == PlanOf(finalPath, tail)
    ensures r.Refused? ==> Justifies(r.error, finalPath, tail, probes(at), probes(at + 1))
  {
    var error := EnsureDestinationFree(finalPath, tail, probes, at);
    if error.Some? {
      return Refused(error.value);
    }
    r := Ready(PlanOf(finalPath, tail));
  }

  /** Relative targets are taken from the base directory. */
  function Resolved(base: Path, target: Target): Path {
    if target.absolute then target.path else base + target.path
  }

  /** A relative target stays below the base directory; an absolute one leaves it. */
  lemma RelativeIsBelowBase(base: Path, target: Target)
    ensures target.absolute ==> Resolved(base, target) == target.path
    ensures !target.absolute ==> base <= Resolved(base, target) && Resolved(base, target)[|base|..] == target.path
  {
  }

  /** Where a plan has to lie: below the base unless the request names an absolute path, and then below that path. */
  ghost predicate Below(base: Path, explicit: string, split: string -> Target, path: Path) {
    if explicit == "" || !split(explicit).absolute then base <= path else split(explicit).path <= path
  }

  /** A default name is one component of the path, and denotes an entry of the very directory it is put into. */
  lemma PlainNameLandsInside(v: Volume, directory: Path, name: string)
    requires PlainName(name) && LeadsToDir(Stat(v, directory, Plain))
    ensures Place(v, directory + [name]) == Some((Stat(v, directory, Plain).node.dir, name))
    ensures name != "" && name != "." && name != ".." && '/' !in name && Utf8Length(name) <= 1024
  {
    assert (directory + [name])[..|directory|] == directory;
  }

  /** Why a request means no path at all. */
  ghost predicate Meaningless(
    base: Path, explicit: string, name: Option<string>, split: string -> Target, first: Probe, error: PlanError)
  {
    if explicit == "" then error == InvalidFileName && !Named(name)
    else if !ProtocolPath(explicit) then error == InvalidPath
    else if first.denied then error == PermissionDenied
    else
      match Stat(first.volume, Resolved(base, split(explicit)), split(explicit).tail)
      case Found(DirNode(_)) => error == InvalidFileName && !Named(name)
      case Found(_) => error == DestinationExists
      case NotDirectory => error == DestinationNotDirectory
      case TooManyLinks => error == ProbeFailed
      case NotFound => false
  }

  predicate Named(name: Option<string>) {
    name.Some? && PlainName(name.value)
  }

  /** The path a request means, from what the first probe of an explicit target saw, and its first own probe. */
  ghost predicate Asks(
    base: Path, explicit: string, name: Option<string>, split: string -> Target, probes: nat -> Probe,
    path: Path, tail: Tail, at: nat)
  {
    if explicit == "" then Named(name) && path == base + [name.value] && tail == Plain && at == 0
    else
      var target := split(explicit);
      var seen := Stat(probes(0).volume, Resolved(base, target), target.tail);
      && ProtocolPath(explicit) && !probes(0).denied && at == 1
      && if seen == NotFound then path == Resolved(base, target) && tail == target.tail
         else LeadsToDir(seen) && Named(name) && path == Resolved(base, target) + [name.value] && tail == Plain
  }

  /**
   Resolves the destination of a transfer, probe by probe, while others may change the volume in between:
   there is a plan exactly when the request means a path and both probes of that path turn out well.
   */
  method ResolveDestination(
    base: Path, explicit: string, defaultName: Option<string>, split: string -> Target, probes: nat -> Probe)
    returns (r: Planned, ghost path: Path, ghost tail: Tail, ghost at: nat)
    ensures r.Ready? ==>
              && Asks(base, explicit, defaultName, split, probes, path, tail, at) && path != []
              && r.plan == PlanOf(path, tail) && Sound(r.plan, probes(at), probes(at + 1))
    ensures forall p, t, k: nat | Asks(base, explicit, defaultName, split, probes, p, t, k) && p != [] ::
              Sound(PlanOf(p, t), probes(k), probes(k + 1)) ==> r.Ready?
    ensures r.Ready? ==> Below(base, explicit, split, r.plan.finalPath)
    ensures r.Ready? ==> Utf8Length(explicit) <= 4096 && forall i :: 0 <= i < |explicit| ==> explicit[i] >= ' '
    ensures r.Refused? ==>
              || Meaningless(base, explicit, defaultName, split, probes(0), r.error)
              || (&& Asks(base, explicit, defaultName, split, probes, path, tail, at)
                  && Justifies(r.error, path, tail, probes(at), probes(at + 1)))
  {
    path, tail, at := [], Plain, 0;
    if explicit == "" {
      if !Named(defaultName) {
        return Refused(InvalidFileName), path, tail, at;
      }
      path := base + [defaultName.value];
      r := BuildPlan(base + [defaultName.value], Plain, probes, 0);
      return;
    }
    if !ProtocolPath(explicit) {
      return Refused(InvalidPath), path, tail, at;
    }
    if probes(0).denied {
      return Refused(PermissionDenied), path, tail, at;
    }
    var target := split(explicit);
    var resolved := Resolved(base, target);
    var seen := Stat(probes(0).volume, resolved, target.tail);
    at := 1;
    match seen
    case Found(node) =>
      if !node.DirNode? {
        return Refused(DestinationExists), path, tail, at;
      }
      if !Named(defaultName) {
        return Refused(InvalidFileName), path, tail, at;
      }
      path := resolved + [defaultName.value];
      r := BuildPlan(resolved + [defaultName.value], Plain, probes, 1);
    case NotFound =>
      path, tail := resolved, target.tail;
      r := BuildPlan(resolved, target.tail, probes, 1);
    case _ => r := Refused(ProbeError(seen));
  }

  /** The volume of the counterexample: one dangling link and nothing else. */
  const DANGLING: Volume := Volume(map[(ROOT, "link") := LinkNode(Target(true, ["gone"], Plain))], map[], map[], {})

  function SplitLink(text: string): Target {
    Target(false, ["link"], Slash)
  }

  function Undisturbed(k: nat): Probe {
    Probe(DANGLING, false)
  }

  /** A trailing slash over a dangling link is planned although the name is taken. */
  method PlansOverDanglingLink() returns (r: Planned)
    ensures r.Ready? && r.plan == PlanOf(["link"], Slash) && !IsFree(DANGLING, r.plan.finalPath)
  {
    DanglingFacts();
    AsksForLink();
    ghost var path, tail, at;
    r, path, tail, at := ResolveDestination([], "link/", None, SplitLink, Undisturbed);
    assert Sound(PlanOf(["link"], Slash), Undisturbed(1), Undisturbed(1 + 1));
  }

  lemma AsksForLink()
    ensures forall path, tail, at: nat ::
              Asks([], "link/", None, SplitLink, Undisturbed, path, tail, at) <==>
                path == ["link"] && tail == Slash && at == 1
  {
    DanglingFacts();
    assert Resolved([], SplitLink("link/")) == ["link"];
    Utf8Bounds("link/");
    assert ProtocolPath("link/");
  }

  lemma DanglingFacts()
    ensures Stat(DANGLING, ["link"], Slash) == NotFound && Lstat(DANGLING, ["link"], Slash) == NotFound
    ensures Lstat(DANGLING, ["link"], Plain).Found? && IsLink(DANGLING, ["link"])
    ensures LeadsToDir(Stat(DANGLING, [], Plain))
  {
  }

  // System calls.

  /** Creates a new file under a name that must be free. */
  function Created(v: Volume, name: Name, file: FileId): Volume {
    v.(entries := v.entries[name := FileNode(file)], contents := v.contents[file := []], guarded := v.guarded + {file})
  }

  /** Appends through an open handle, wherever the file's names have gone. */
  function Appended(v: Volume, file: FileId, bytes: seq<byte>): Volume
    requires file in v.contents
  {
    v.(contents := v.contents[file := v.contents[file] + bytes])
  }

  /**
   Whether renaming without replacing would succeed: the old name is bound and the new one is free. Under a
   trailing slash only a directory can be moved, and nothing can be moved to a trailing dot.
   */
  predicate CanMove(v: Volume, from: Path, to: Path, tail: Tail) {
    && Place(v, from).Some? && Place(v, from).value in v.entries && IsFree(v, to)
    && (tail == Plain || (tail == Slash && v.entries[Place(v, from).value].DirNode?))
  }

  function Moved(v: Volume, from: Path, to: Path): Volume
    requires CanMove(v, from, to, Plain) || CanMove(v, from, to, Slash)
  {
    var node := v.entries[Place(v, from).value];
    v.(entries := (v.entries - {Place(v, from).value})[Place(v, to).value := node],
       parents := if node.DirNode? then v.parents[node.dir := Place(v, to).value.0] else v.parents)
  }

  /** Unlinking removes a name; directories refuse. */
  predicate CanUnlink(v: Volume, path: Path) {
    Place(v, path).Some? && Place(v, path).value in v.entries && !v.entries[Place(v, path).value].DirNode?
  }

  function Unlinked(v: Volume, path: Path): Volume {
    if CanUnlink(v, path) then v.(entries := v.entries - {Place(v, path).value}) else v
  }

  /** Every other file keeps its bytes, and every name that is not ours keeps its object. */
  ghost predicate SparesForeign(v: Volume, w: Volume, ours: FileId) {
    && (forall f :: f in v.contents && f != ours ==> f in w.contents && w.contents[f] == v.contents[f])
    && (forall n :: n in v.entries && v.entries[n] != FileNode(ours) ==> n in w.entries && w.entries[n] == v.entries[n])
  }

  lemma CreateSparesForeign(v: Volume, name: Name, file: FileId)
    requires name !in v.entries && file !in v.contents
    ensures SparesForeign(v, Created(v, name, file), file)
  {
  }

  lemma AppendSparesForeign(v: Volume, file: FileId, bytes: seq<byte>)
    requires file in v.contents
    ensures SparesForeign(v, Appended(v, file, bytes), file)
  {
  }

  /** The temporary path leads to an object this transfer did not create. */
  predicate Rebound(v: Volume, temp: Path, ours: FileId) {
    Place(v, temp).Some? && Place(v, temp).value in v.entries && v.entries[Place(v, temp).value] != FileNode(ours)
  }

  /** A successful commit spares every foreign object exactly when the temporary name still is ours. */
  lemma MoveSparesForeign(v: Volume, temp: Path, final: Path, tail: Tail, ours: FileId)
    requires CanMove(v, temp, final, tail)
    ensures SparesForeign(v, Moved(v, temp, final), ours) <==> !Rebound(v, temp, ours)
  {
    var from := Place(v, temp).value;
    assert from !in Moved(v, temp, final).entries;
  }

  /** A plan that ends in a slash or a dot never receives the transferred file. */
  lemma OnlyPlainPathsReceive(v: Volume, temp: Path, final: Path, tail: Tail, ours: FileId)
    requires CanMove(v, temp, final, tail) && tail != Plain
    ensures Rebound(v, temp, ours)
  {
  }

  /** Every name but one keeps its object, and every other file its bytes. */
  ghost predicate KeepsOthers(v: Volume, w: Volume, temp: Path, ours: FileId) {
    && (forall f :: f in v.contents && f != ours ==> f in w.contents && w.contents[f] == v.contents[f])
    && (forall n :: n in v.entries && Place(v, temp) != Some(n) ==> n in w.entries && w.entries[n] == v.entries[n])
  }

  /** Cleaning up spares every foreign object exactly when the temporary name is not a foreign file or link. */
  lemma UnlinkSparesForeign(v: Volume, temp: Path, ours: FileId)
    ensures SparesForeign(v, Unlinked(v, temp), ours) <==> !(Rebound(v, temp, ours) && CanUnlink(v, temp))
    ensures forall n :: n in v.entries && Place(v, temp) != Some(n) ==>
              n in Unlinked(v, temp).entries && Unlinked(v, temp).entries[n] == v.entries[n]
    ensures Unlinked(v, temp).contents == v.contents
  {
    if CanUnlink(v, temp) {
      assert Place(v, temp).value !in Unlinked(v, temp).entries;
    }
  }

  /** Another program takes over the temporary name: cleaning up then removes that program's file. */
  lemma ReboundNameIsLost()
    ensures exists v, temp, ours :: Rebound(v, temp, ours) && !SparesForeign(v, Unlinked(v, temp), ours)
  {
    var v := Volume(map[(ROOT, "t") := FileNode(2)], map[], map[1 := [], 2 := [7]], {1});
    var temp := ["t"];
    assert temp[..0] == [];
    assert Place(v, temp) == Some((ROOT, "t"));
    UnlinkSparesForeign(v, temp, 1);
    assert Rebound(v, temp, 1) && !SparesForeign(v, Unlinked(v, temp), 1);
  }
}
