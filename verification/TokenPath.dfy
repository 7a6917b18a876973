/**
  The walk over the directories of a token path. The code computes lexical
  directories and inspects each without following links; opening the file
  follows the raw path through the file tree. Acceptance makes the two agree.
*/
module TokenPath {
  import opened Wrappers
  import opened Text

  // ----- the file tree and how paths are resolved in it -----

  type Inode = nat

  /** A directory is shared if group or others may write to it. */
  datatype Node =
    | Directory(entries: map<string, Inode>, parent: Inode, shared: bool)
    | Regular
    | Link(absolute: bool, target: seq<string>)

  datatype Tree = Tree(nodes: map<Inode, Node>, root: Inode)

  predicate IsDirectory(tree: Tree, n: Inode) {
    n in tree.nodes && tree.nodes[n].Directory?
  }

  predicate IsLink(tree: Tree, n: Inode) {
    n in tree.nodes && tree.nodes[n].Link?
  }

  ghost predicate EntryFormed(tree: Tree, n: Inode, child: Inode) {
    child in tree.nodes && (tree.nodes[child].Directory? ==> tree.nodes[child].parent == n)
  }

  ghost predicate FormedAt(tree: Tree, n: Inode)
    requires IsDirectory(tree, n)
  {
    && IsDirectory(tree, tree.nodes[n].parent)
    && forall name :: name in tree.nodes[n].entries ==> EntryFormed(tree, n, tree.nodes[n].entries[name])
  }

  /** A tree: entries exist, a directory is an entry of its parent alone, the root of none. */
  ghost predicate WellFormed(tree: Tree) {
    && IsDirectory(tree, tree.root) && tree.nodes[tree.root].parent == tree.root
    && forall n :: IsDirectory(tree, n) ==> FormedAt(tree, n)
  }

  /** The number of links the system follows before it gives up. */
  const MAX_LINKS: nat := 40

  datatype Place = Place(node: Inode, links: nat)

  /** Resolution of components from a directory, following every link, with a limit on links. */
  function Walk(tree: Tree, at: Inode, components: seq<string>, links: nat): Option<Place>
    decreases links, |components|
  {
    if components == [] then Some(Place(at, links))
    else if !IsDirectory(tree, at) then None
    else
      var c, rest := components[0], components[1..];
      var dir := tree.nodes[at];
      if c == "" || c == "." then Walk(tree, at, rest, links)
      else if c == ".." then Walk(tree, dir.parent, rest, links)
      else if c !in dir.entries then None
      else
        var child := dir.entries[c];
        if IsLink(tree, child) then
          var node := tree.nodes[child];
          if links == 0 then None
          else Walk(tree, if node.absolute then tree.root else at, node.target + rest, links - 1)
        else Walk(tree, child, rest, links)
  }

  /** A clean absolute path is the list of its components. */
  type Lexical = seq<string>

  predicate Plain(c: string) {
    c != "" && c != "." && c != ".."
  }

  /** The node a clean path names when links are followed. */
  function Resolve(tree: Tree, path: Lexical): Option<Inode> {
    var place := Walk(tree, tree.root, path, MAX_LINKS);
    if place.Some? then Some(place.value.node) else None
  }

  /** The node a clean path names when a link at its end is not followed. */
  function Lstat(tree: Tree, path: Lexical): Option<Inode> {
    if path == [] then Some(tree.root)
    else
      var dir := Resolve(tree, path[..|path| - 1]);
      if dir.Some? && IsDirectory(tree, dir.value) && path[|path| - 1] in tree.nodes[dir.value].entries then
        Some(tree.nodes[dir.value].entries[path[|path| - 1]])
      else None
  }

  // ----- the lexical directories -----

  function Parent(path: Lexical): Lexical {
    if path == [] then [] else path[..|path| - 1]
  }

  function Last<T>(s: seq<T>): T
    requires s != []
  {
    s[|s| - 1]
  }

  function Next(directories: seq<Lexical>, component: string): seq<Lexical>
    requires directories != []
  {
    var current := Last(directories);
    if component == "" || component == "." then directories
    else
      var moved := if component == ".." then Parent(current) else current + [component];
      if moved == current then directories else directories + [moved]
  }

  function Directories(directories: seq<Lexical>, components: seq<string>): (all: seq<Lexical>)
    requires directories != []
    ensures all != [] && directories <= all
    decreases |components|
  {
    if components == [] then directories else Directories(Next(directories, components[0]), components[1..])
  }

  /** The part of the path up to and including its last separator. */
  function ParentPath(path: string): string {
    if path == "" then "" else if path[|path| - 1] == '/' then path else ParentPath(path[..|path| - 1])
  }

  /** The parent is all of the path up to its last slash. */
  lemma {:induction false} ParentPathMeans(path: string)
    ensures ParentPath(path) <= path && '/' !in path[|ParentPath(path)|..]
    ensures ParentPath(path) == "" || Last(ParentPath(path)) == '/'
  {
    if path != "" && path[|path| - 1] != '/' {
      var front := path[..|path| - 1];
      ParentPathMeans(front);
      assert path[|ParentPath(path)|..] == front[|ParentPath(path)|..] + [path[|path| - 1]];
    }
  }

  predicate IsAbsolute(path: string) {
    path != "" && path[0] == '/'
  }

  function Components(path: string): seq<string> {
    Split(if ParentPath(path) == "" then "." else ParentPath(path), '/')
  }

  method TokenPathDirectories(path: string, workingDir: Lexical) returns (directories: seq<Lexical>)
    ensures directories == Directories([if IsAbsolute(ParentPath(path)) then [] else workingDir], Components(path))
  {
    hide ParentPath, Split;
    var parentPath := ParentPath(path);
    if parentPath == "" {
      parentPath := ".";
    }
    var current: Lexical := workingDir;
    if IsAbsolute(parentPath) {
      current := [];
    }
    directories := [current];
    var components := Split(parentPath, '/');
    ghost var all := Directories(directories, components);
    for i := 0 to |components|
      invariant directories != [] && Last(directories) == current
      invariant Directories(directories, components[i..]) == all
    {
      var component := components[i];
      assert components[i..][1..] == components[i + 1..];
      if component == "" || component == "." {
        continue;
      }
      if component == ".." {
        current := Parent(current);
      } else {
        current := current + [component];
      }
      if directories[|directories| - 1] == current {
        continue;
      }
      directories := directories + [current];
    }
  }

  // ----- acceptance -----

  datatype PathError = Unreadable | LinkRejected | NotADirectory | Shared

  predicate AllowRootAliasLink(index: nat, directories: seq<Lexical>) {
    index == 1 && index != |directories| - 1 && |directories| >= 2 && directories[0] == Parent(directories[0])
  }

  ghost predicate AcceptedAt(tree: Tree, directories: seq<Lexical>, i: nat)
    requires i < |directories|
  {
    var n := Lstat(tree, directories[i]);
    n.Some? && (IsDirectory(tree, n.value) || (IsLink(tree, n.value) && AllowRootAliasLink(i, directories)))
  }

  ghost predicate Accepted(tree: Tree, directories: seq<Lexical>) {
    forall i :: 0 <= i < |directories| ==> AcceptedAt(tree, directories, i)
  }

  /** The last directory, which holds the token, is open to writers other than its owner. */
  predicate ParentShared(tree: Tree, directories: seq<Lexical>)
    requires directories != []
  {
    var n := Lstat(tree, Last(directories));
    n.Some? && IsDirectory(tree, n.value) && tree.nodes[n.value].shared
  }

  method ValidateParentDirectory(tree: Tree, path: string, workingDir: Lexical, permissionBits: bool)
    returns (err: Option<PathError>, directories: seq<Lexical>)
    ensures directories == Directories([if IsAbsolute(ParentPath(path)) then [] else workingDir], Components(path))
    ensures err.None? <==> Accepted(tree, directories) && !(permissionBits && ParentShared(tree, directories))
    ensures err == Some(Shared) <==> Accepted(tree, directories) && permissionBits && ParentShared(tree, directories)
  {
    hide Directories, ParentPath, Split, Lstat;
    directories := TokenPathDirectories(path, workingDir);
    var parentInfo: Option<Inode> := None;
    for index := 0 to |directories|
      invariant forall i :: 0 <= i < index ==> AcceptedAt(tree, directories, i)
      invariant index == |directories| ==> parentInfo == Lstat(tree, Last(directories))
    {
      var info := Lstat(tree, directories[index]);
      if info.None? {
        assert !AcceptedAt(tree, directories, index);
        return Some(Unreadable), directories;
      }
      if IsLink(tree, info.value) {
        if AllowRootAliasLink(index, directories) {
          continue;
        }
        assert !AcceptedAt(tree, directories, index);
        return Some(LinkRejected), directories;
      }
      if !IsDirectory(tree, info.value) {
        assert !AcceptedAt(tree, directories, index);
        return Some(NotADirectory), directories;
      }
      parentInfo := info;
    }
    assert AcceptedAt(tree, directories, |directories| - 1);
    if permissionBits && tree.nodes[parentInfo.value].shared {
      return Some(Shared), directories;
    }
    err := None;
  }

  // ----- agreement -----

  /** The path resolves to a directory right below the root. */
  ghost predicate TopLevel(tree: Tree, path: Lexical) {
    var n := Resolve(tree, path);
    n.Some? && IsDirectory(tree, n.value) && tree.nodes[n.value].parent == tree.root
  }

  /** A root alias is passed through, not left by going up again, unless its target lies right below the root. */
  ghost predicate AliasPassed(tree: Tree, directories: seq<Lexical>) {
    |directories| >= 3 && Lstat(tree, directories[1]).Some? && IsLink(tree, Lstat(tree, directories[1]).value) ==>
      directories[2] != [] || TopLevel(tree, directories[1])
  }

  lemma {:induction false} WalkAppend(tree: Tree, at: Inode, a: seq<string>, b: seq<string>, links: nat)
    ensures Walk(tree, at, a + b, links) ==
      var place := Walk(tree, at, a, links);
      if place.None? then None else Walk(tree, place.value.node, b, place.value.links)
    decreases links, |a|
  {
    if a == [] {
      assert a + b == b;
    } else if IsDirectory(tree, at) {
      assert (a + b)[0] == a[0] && (a + b)[1..] == a[1..] + b;
      var dir := tree.nodes[at];
      if a[0] == "" || a[0] == "." {
        WalkAppend(tree, at, a[1..], b, links);
      } else if a[0] == ".." {
        WalkAppend(tree, dir.parent, a[1..], b, links);
      } else if a[0] in dir.entries {
        var child := dir.entries[a[0]];
        if !IsLink(tree, child) {
          WalkAppend(tree, child, a[1..], b, links);
        } else if links > 0 {
          var node := tree.nodes[child];
          assert node.target + (a[1..] + b) == (node.target + a[1..]) + b;
          WalkAppend(tree, if node.absolute then tree.root else at, node.target + a[1..], b, links - 1);
        }
      }
    }
  }

  /** Where the end of a path is no link, following makes no difference. */
  lemma LstatResolves(tree: Tree, path: Lexical)
    requires Lstat(tree, path).Some? && !IsLink(tree, Lstat(tree, path).value)
    requires path != [] ==> Plain(Last(path))
    ensures Resolve(tree, path) == Lstat(tree, path)
  {
    if path != [] {
      var front, c := path[..|path| - 1], Last(path);
      WalkAppend(tree, tree.root, front, [c], MAX_LINKS);
      assert path == front + [c] && [c][1..] == [];
    }
  }

  /** A directory's parent is where the lexical parent resolves to. */
  lemma ParentResolves(tree: Tree, path: Lexical)
    requires WellFormed(tree) && Lstat(tree, path).Some? && IsDirectory(tree, Lstat(tree, path).value)
    ensures Resolve(tree, Parent(path)) == Some(tree.nodes[Lstat(tree, path).value].parent)
  {
  }

  predicate OneStep(one: Lexical, other: Lexical) {
    other == Parent(one) || (other != [] && Parent(other) == one)
  }

  /** Lexical directories have plain components, and each is one step up or down from the one before. */
  ghost predicate AllPlain(directories: seq<Lexical>) {
    && (forall d, c :: d in directories && c in d ==> Plain(c))
    && (forall i :: 0 < i < |directories| ==> OneStep(directories[i - 1], directories[i]))
  }

  lemma NextPlain(directories: seq<Lexical>, component: string)
    requires directories != [] && AllPlain(directories)
    ensures AllPlain(Next(directories, component))
  {
    assert Last(directories) in directories;
    var current := Last(directories);
    assert (current + [component])[..|current|] == current;
  }

  /** The directory after the present ones is one step away from the last of them. */
  lemma {:induction false} DirectoryAfter(directories: seq<Lexical>, components: seq<string>)
    requires directories != []
    ensures var all := Directories(directories, components);
      |all| > |directories| ==>
        OneStep(Last(directories), all[|directories|])
    decreases |components|
  {
    if components != [] {
      var next := Next(directories, components[0]);
      if next == directories {
        DirectoryAfter(directories, components[1..]);
      } else {
        assert next <= Directories(next, components[1..]);
      }
    }
  }

  /** An alias that is passed through resolves to a directory, by the raw walk's own step. */
  lemma AliasResolves(
    tree: Tree, directories: seq<Lexical>, components: seq<string>, alias: string, all: seq<Lexical>)
    returns (there: Place)
    requires directories == [[], [alias]] && all == Directories(directories, components)
    requires Accepted(tree, all) && AliasPassed(tree, all) && |all| >= 3
    requires WellFormed(tree) && Plain(alias) && Lstat(tree, [alias]).Some? && IsLink(tree, Lstat(tree, [alias]).value)
    ensures Walk(tree, tree.root, [alias], MAX_LINKS) == Some(there)
    ensures Resolve(tree, [alias]) == Some(there.node) && IsDirectory(tree, there.node)
  {
    DirectoryAfter(directories, components);
    assert all[1] == [alias] && AcceptedAt(tree, all, 2);
    assert all[2] != [] ==> Parent(all[2]) == [alias];
    there := Walk(tree, tree.root, [alias], MAX_LINKS).value;
  }

  /** One component from a directory. */
  lemma OneComponent(tree: Tree, n: Inode, c: string, links: nat)
    requires IsDirectory(tree, n)
    ensures c == "" || c == "." ==> Walk(tree, n, [c], links) == Some(Place(n, links))
    ensures c == ".." ==> Walk(tree, n, [c], links) == Some(Place(tree.nodes[n].parent, links))
    ensures Plain(c) && c in tree.nodes[n].entries && !IsLink(tree, tree.nodes[n].entries[c]) ==>
      Walk(tree, n, [c], links) == Some(Place(tree.nodes[n].entries[c], links))
  {
    assert [c][1..] == [];
  }

  /** The entry a path's end names, in the directory that the path above resolves to. */
  lemma EntryOf(tree: Tree, path: Lexical, c: string, n: Inode)
    requires Plain(c) && Resolve(tree, path) == Some(n) && Lstat(tree, path + [c]).Some?
    ensures IsDirectory(tree, n) && c in tree.nodes[n].entries
    ensures Lstat(tree, path + [c]) == Some(tree.nodes[n].entries[c])
    ensures !IsLink(tree, tree.nodes[n].entries[c]) ==> Resolve(tree, path + [c]) == Lstat(tree, path + [c])
  {
    assert (path + [c])[..|path|] == path;
    if !IsLink(tree, tree.nodes[n].entries[c]) {
      LstatResolves(tree, path + [c]);
    }
  }

  lemma RootResolves(tree: Tree)
    ensures Resolve(tree, []) == Some(tree.root)
  {
  }

  lemma DownAgrees(
    tree: Tree, directories: seq<Lexical>, components: seq<string>, all: seq<Lexical>, here: Place)
    returns (there: Place)
    requires WellFormed(tree) && directories != [] && components != [] && Plain(components[0])
    requires all == Directories(directories, components) && Accepted(tree, all) && AliasPassed(tree, all)
    requires Resolve(tree, Last(directories)) == Some(here.node) && IsDirectory(tree, here.node)
    requires |directories| == 1 ==> here.links == MAX_LINKS
    ensures Walk(tree, here.node, [components[0]], here.links) == Some(there)
    ensures Resolve(tree, Last(directories) + [components[0]]) == Some(there.node) && IsDirectory(tree, there.node)
  {
    hide Walk, Lstat, Resolve;
    var k, current, component := |directories| - 1, Last(directories), components[0];
    var next := Next(directories, component);
    assert next == directories + [current + [component]] && next <= all;
    assert all[k] == current && all[k + 1] == current + [component] && AcceptedAt(tree, all, k + 1);
    EntryOf(tree, current, component, here.node);
    OneComponent(tree, here.node, component, here.links);
    var child := tree.nodes[here.node].entries[component];
    if IsLink(tree, child) {
      assert k == 0 && current == [] && current + [component] == [component];
      assert next == [[], [component]];
      RootResolves(tree);
      there := AliasResolves(tree, next, components[1..], component, all);
    } else {
      there := Place(child, here.links);
    }
  }

  lemma UpAgrees(tree: Tree, directories: seq<Lexical>, all: seq<Lexical>, here: Place)
    requires WellFormed(tree) && directories != [] && AllPlain(directories) && Last(directories) != []
    requires directories + [Parent(Last(directories))] <= all && Accepted(tree, all) && AliasPassed(tree, all)
    requires Resolve(tree, Last(directories)) == Some(here.node) && IsDirectory(tree, here.node)
    ensures Resolve(tree, Parent(Last(directories))) == Some(tree.nodes[here.node].parent)
  {
    var k, current := |directories| - 1, Last(directories);
    assert all[k] == current && all[k + 1] == Parent(current) && AcceptedAt(tree, all, k);
    assert k == 1 ==> all[0] == directories[0] && OneStep(directories[0], directories[1]);
    if IsLink(tree, Lstat(tree, current).value) {
      RootResolves(tree);
    } else {
      assert current in directories && Last(current) in current;
      LstatResolves(tree, current);
      ParentResolves(tree, current);
    }
  }

  /** One component: the raw walk goes where the lexical directory resolves to. */
  lemma StepAgrees(
    tree: Tree, directories: seq<Lexical>, components: seq<string>, all: seq<Lexical>, here: Place)
    returns (there: Place)
    requires WellFormed(tree) && directories != [] && AllPlain(directories) && components != []
    requires all == Directories(directories, components) && Accepted(tree, all) && AliasPassed(tree, all)
    requires Resolve(tree, Last(directories)) == Some(here.node) && IsDirectory(tree, here.node)
    requires |directories| == 1 ==> here.links == MAX_LINKS
    ensures Walk(tree, here.node, [components[0]], here.links) == Some(there)
    ensures var next := Next(directories, components[0]);
      && Resolve(tree, Last(next)) == Some(there.node) && IsDirectory(tree, there.node)
      && (|next| == 1 ==> there.links == MAX_LINKS)
  {
    var current, component := Last(directories), components[0];
    OneComponent(tree, here.node, component, here.links);
    if component == "" || component == "." {
      there := here;
    } else if component == ".." {
      there := Place(tree.nodes[here.node].parent, here.links);
      assert FormedAt(tree, here.node);
      if current != [] {
        assert Next(directories, component) == directories + [Parent(current)];
        UpAgrees(tree, directories, all, here);
      }
    } else {
      there := DownAgrees(tree, directories, components, all, here);
    }
  }

  lemma LastAgrees(tree: Tree, all: seq<Lexical>)
    requires all != [] && AllPlain(all) && Accepted(tree, all)
    ensures Resolve(tree, Last(all)) == Lstat(tree, Last(all))
  {
    hide Lstat, Resolve;
    assert AcceptedAt(tree, all, |all| - 1);
    assert Last(all) in all && (Last(all) != [] ==> Last(Last(all)) in Last(all));
    LstatResolves(tree, Last(all));
  }

  /**
    Following the raw components reaches exactly the last lexical directory the
    check has inspected, and that directory is no link.
  */
  lemma {:induction false} WalkAgrees(
    tree: Tree, directories: seq<Lexical>, components: seq<string>, all: seq<Lexical>, here: Place)
    requires WellFormed(tree) && directories != [] && AllPlain(directories)
    requires all == Directories(directories, components) && Accepted(tree, all) && AliasPassed(tree, all)
    requires Resolve(tree, Last(directories)) == Some(here.node) && IsDirectory(tree, here.node)
    requires |directories| == 1 ==> here.links == MAX_LINKS
    ensures var place := Walk(tree, here.node, components, here.links);
      place.Some? && Some(place.value.node) == Lstat(tree, Last(all)) && IsDirectory(tree, place.value.node)
    decreases |components|
  {
    if components == [] {
      LastAgrees(tree, all);
    } else {
      hide Walk, WellFormed, Next, Accepted, AliasPassed, Resolve, Lstat;
      var there := StepAgrees(tree, directories, components, all, here);
      NextPlain(directories, components[0]);
      WalkAgrees(tree, Next(directories, components[0]), components[1..], all, there);
      assert components == [components[0]] + components[1..];
      WalkAppend(tree, here.node, [components[0]], components[1..], here.links);
    }
  }

  /** The directory a raw path starts from: the root, or where the process is. */
  function Start(tree: Tree, path: string, cwd: Inode): Inode {
    if IsAbsolute(ParentPath(path)) then tree.root else cwd
  }

  /**
    For every path, with any number of "." and "..": if the walk is accepted and
    no root alias was left by going up, the directory that opening the file will
    use is the last one inspected.
  */
  lemma AcceptedWalkIsReal(tree: Tree, path: string, workingDir: Lexical, cwd: Inode)
    requires WellFormed(tree)
    requires forall c :: c in workingDir ==> Plain(c)
    requires Resolve(tree, workingDir) == Some(cwd) && IsDirectory(tree, cwd)
    requires var all := Directories([if IsAbsolute(ParentPath(path)) then [] else workingDir], Components(path));
      Accepted(tree, all) && AliasPassed(tree, all)
    ensures var all := Directories([if IsAbsolute(ParentPath(path)) then [] else workingDir], Components(path));
      var place := Walk(tree, Start(tree, path, cwd), Components(path), MAX_LINKS);
      && place.Some? && Some(place.value.node) == Lstat(tree, Last(all)) && IsDirectory(tree, place.value.node)
      && (ParentShared(tree, all) <==> tree.nodes[place.value.node].shared)
  {
    var start: Lexical := if IsAbsolute(ParentPath(path)) then [] else workingDir;
    var all := Directories([start], Components(path));
    WalkAgrees(tree, [start], Components(path), all, Place(Start(tree, path, cwd), MAX_LINKS));
  }

  /** The components that the system follows when it opens the file in the last one. */
  ghost function OpenedThrough(path: string): seq<string> {
    var parts := Split(path, '/');
    parts[..|parts| - 1]
  }

  lemma SplitParent(path: string)
    ensures ParentPath(path) != "" ==> Split(ParentPath(path), '/') == OpenedThrough(path) + [""]
    ensures ParentPath(path) == "" ==> OpenedThrough(path) == []
  {
    ParentPathMeans(path);
    var parent := ParentPath(path);
    var leaf := path[|parent|..];
    SplitNoSeparator(leaf, '/');
    if parent == "" {
      assert path == leaf;
    } else {
      var front := parent[..|parent| - 1];
      assert path == front + ['/'] + leaf && parent == front + ['/'] + "";
      SplitAtSeparator(front, leaf, '/');
      SplitAtSeparator(front, "", '/');
    }
  }

  lemma RootIsDirectory(tree: Tree)
    requires WellFormed(tree)
    ensures IsDirectory(tree, tree.root)
  {
  }

  /**
    Opening the file: following the path as it is written, up to the file itself,
    reaches the last directory that the check has inspected, and that directory
    is shared exactly if the check says so.
  */
  lemma OpenedIsInspected(tree: Tree, path: string, workingDir: Lexical, cwd: Inode)
    requires WellFormed(tree)
    requires forall c :: c in workingDir ==> Plain(c)
    requires Resolve(tree, workingDir) == Some(cwd) && IsDirectory(tree, cwd)
    requires var all := Directories([if IsAbsolute(ParentPath(path)) then [] else workingDir], Components(path));
      Accepted(tree, all) && AliasPassed(tree, all)
    ensures var all := Directories([if IsAbsolute(ParentPath(path)) then [] else workingDir], Components(path));
      var place := Walk(tree, if path != "" && path[0] == '/' then tree.root else cwd, OpenedThrough(path), MAX_LINKS);
      && place.Some? && IsDirectory(tree, place.value.node)
      && Some(place.value.node) == Lstat(tree, all[|all| - 1])
      && (ParentShared(tree, all) <==> tree.nodes[place.value.node].shared)
  {
    hide Directories, Accepted, AliasPassed, Lstat, ParentPath, Split, WellFormed;
    AcceptedWalkIsReal(tree, path, workingDir, cwd);
    ParentPathMeans(path);
    SplitParent(path);
    var start := Start(tree, path, cwd);
    assert IsDirectory(tree, tree.root) by {
      RootIsDirectory(tree);
    }
    if ParentPath(path) == "" {
      SplitNoSeparator(".", '/');
      OneComponent(tree, start, ".", MAX_LINKS);
    } else {
      WalkAppend(tree, start, OpenedThrough(path), [""], MAX_LINKS);
      var place := Walk(tree, start, OpenedThrough(path), MAX_LINKS);
      if place.Some? && IsDirectory(tree, place.value.node) {
        OneComponent(tree, place.value.node, "", place.value.links);
      }
    }
  }

  /** From the root: the raw walk ends in the last lexical directory. */
  ghost predicate Agrees(tree: Tree, components: seq<string>) {
    var place := Walk(tree, tree.root, components, MAX_LINKS);
    place.Some? && Some(place.value.node) == Lstat(tree, Last(Directories([[]], components)))
  }

  /** The accepted walks from the root whose first step is the given name. */
  ghost predicate AcceptedThrough(tree: Tree, alias: string, components: seq<string>) {
    var all := Directories([[]], components);
    |all| >= 2 && all[1] == [alias] && Accepted(tree, all)
  }

  lemma UpDirectories(alias: string)
    requires Plain(alias)
    ensures Directories([[]], [alias, ".."]) == [[], [alias], []]
  {
    var root: Lexical := [];
    assert [alias, ".."][1..] == [".."] && [".."][1..] == [];
    assert root + [alias] == [alias];
    assert Next([root], alias) == [root, [alias]];
    assert Next([root, [alias]], "..") == [root, [alias], root];
  }

  /** Only from a directory does a path go on. */
  lemma UpFrom(tree: Tree, place: Place)
    ensures Walk(tree, place.node, [".."], place.links) ==
      if IsDirectory(tree, place.node) then Some(Place(tree.nodes[place.node].parent, place.links)) else None
  {
    assert [".."][1..] == [];
  }

  /** Through the alias and up again: inspected is the root, reached is the parent of the target, if there is one. */
  lemma UpFromAlias(tree: Tree, alias: string)
    requires WellFormed(tree) && Plain(alias)
    requires Lstat(tree, [alias]).Some? && IsLink(tree, Lstat(tree, [alias]).value)
    ensures AcceptedThrough(tree, alias, [alias, ".."])
    ensures Agrees(tree, [alias, ".."]) <==> TopLevel(tree, [alias])
  {
    hide Walk, Directories;
    var root: Lexical := [];
    var all := [root, [alias], root];
    UpDirectories(alias);
    assert AcceptedAt(tree, all, 0) && AcceptedAt(tree, all, 1) && AcceptedAt(tree, all, 2);
    assert [alias] + [".."] == [alias, ".."];
    WalkAppend(tree, tree.root, [alias], [".."], MAX_LINKS);
    var place := Walk(tree, tree.root, [alias], MAX_LINKS);
    if place.Some? {
      UpFrom(tree, place.value);
    }
  }

  /**
    Exactly when a root alias may be tolerated: every accepted walk through it
    is the real one if and only if its target is a directory right below the root.
  */
  lemma RootAliasExact(tree: Tree, alias: string)
    requires WellFormed(tree) && Plain(alias)
    requires Lstat(tree, [alias]).Some? && IsLink(tree, Lstat(tree, [alias]).value)
    ensures TopLevel(tree, [alias]) <==>
      forall components :: AcceptedThrough(tree, alias, components) ==> Agrees(tree, components)
  {
    if TopLevel(tree, [alias]) {
      forall components | AcceptedThrough(tree, alias, components) ensures Agrees(tree, components) {
        RootResolves(tree);
        WalkAgrees(tree, [[]], components, Directories([[]], components), Place(tree.root, MAX_LINKS));
      }
    } else {
      UpFromAlias(tree, alias);
    }
  }

  /** A root with the alias /v for /p/v. */
  function AliasTree(): Tree {
    Tree(map[
      0 := Directory(map["v" := 1, "p" := 2], 0, false),
      1 := Link(true, ["p", "v"]),
      2 := Directory(map["v" := 3], 0, false),
      3 := Directory(map[], 2, false)], 0)
  }

  lemma AliasTreeFormed()
    ensures WellFormed(AliasTree())
  {
    var tree := AliasTree();
    assert EntryFormed(tree, 0, 1) && EntryFormed(tree, 0, 2) && EntryFormed(tree, 2, 3);
    assert FormedAt(tree, 0) && FormedAt(tree, 2) && FormedAt(tree, 3);
  }

  lemma AliasTarget()
    ensures Lstat(AliasTree(), ["v"]) == Some(1) && Resolve(AliasTree(), ["v"]) == Some(3)
  {
    var tree, left := AliasTree(), MAX_LINKS - 1;
    RootResolves(tree);
    assert ["v"][1..] == [] && ["v"][..0] == [] && ["p", "v"] + [] == ["p", "v"] && ["p", "v"][1..] == ["v"];
    assert Walk(tree, 0, ["v"], MAX_LINKS) == Walk(tree, 0, ["p", "v"], left);
    assert Walk(tree, 0, ["p", "v"], left) == Walk(tree, 2, ["v"], left);
    assert Walk(tree, 2, ["v"], left) == Walk(tree, 3, [], left);
  }

  /** Leaving the alias by going up is where the two part: the system goes up from the alias's target. */
  lemma LeavingAliasDisagrees()
    ensures WellFormed(AliasTree()) && AcceptedThrough(AliasTree(), "v", ["v", ".."])
    ensures !Agrees(AliasTree(), ["v", ".."])
  {
    AliasTreeFormed();
    AliasTarget();
    UpFromAlias(AliasTree(), "v");
  }
}
