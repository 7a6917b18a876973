/**
  The file tree that holds the generated agent documents: its managed region,
  and what removing, writing and checking do to it.
*/
module AgentTree {
  import opened Wrappers
  import opened Ordering
  import Text

  /** A path relative to the repository root, as its components. */
  type Path = seq<string>

  datatype Entry = File(content: string) | Dir | Symlink

  type Entries = map<Path, Entry>

  datatype Output = Output(path: Path, content: string)

  datatype Mismatch =
    | Stale(path: Path)
    | Missing(path: Path, expected: string)
    | Invalid(path: Path)
    | Different(path: Path, expected: string, observed: string)

  datatype Problem = NotADirectory | IsADirectory | TraversesSymlink | DuplicatePath(path: Path) | Failed

  // ----- the tree -----

  predicate IsDir(entries: Entries, p: Path) {
    p in entries && entries[p].Dir?
  }

  /** Every entry sits in a directory. */
  ghost predicate Formed(entries: Entries) {
    [] !in entries && forall p :: p in entries && |p| > 1 ==> IsDir(entries, p[..|p| - 1])
  }

  predicate IsSymlink(entries: Entries, p: Path) {
    p in entries && entries[p].Symlink?
  }

  /** How many leading components lead through directories to an entry. */
  function Reach(entries: Entries, p: Path, i: nat): (m: nat)
    requires i <= |p|
    requires forall j :: 0 < j <= i ==> p[..j] in entries
    requires forall j :: 0 < j < i ==> IsDir(entries, p[..j])
    ensures i <= m <= |p|
    ensures forall j :: 0 < j <= m ==> p[..j] in entries
    ensures forall j :: 0 < j < m ==> IsDir(entries, p[..j])
    ensures m == |p| || p[..m + 1] !in entries || (m > 0 && !IsDir(entries, p[..m]))
    decreases |p| - i
  {
    if i < |p| && p[..i + 1] in entries && (i == 0 || IsDir(entries, p[..i])) then Reach(entries, p, i + 1) else i
  }

  /** In a formed tree nothing lies beyond what can be reached. */
  lemma {:induction false} BeyondReach(entries: Entries, p: Path, j: nat)
    requires Formed(entries) && Reach(entries, p, 0) < j <= |p|
    ensures p[..j] !in entries
    decreases j
  {
    var m := Reach(entries, p, 0);
    assert j > 1 ==> p[..j][..j - 1] == p[..j - 1];
    if j > m + 1 {
      BeyondReach(entries, p, j - 1);
    }
  }

  datatype Stat = Found(entry: Entry) | NotExist | Blocked | Through

  /** The entry at a path, without following a link at its end; Through says that a link lies on the way. */
  function StatOf(entries: Entries, p: Path): Stat
    requires p != []
  {
    var m := Reach(entries, p, 0);
    if m == |p| then
      assert p[..|p|] == p;
      Found(entries[p])
    else if m == 0 then NotExist
    else match entries[p[..m]]
      case Dir => NotExist
      case File(_) => Blocked
      case Symlink => Through
  }

  lemma ReachOfPrefix(entries: Entries, p: Path, i: nat)
    requires Formed(entries) && i <= |p|
    ensures Reach(entries, p[..i], 0) == if i <= Reach(entries, p, 0) then i else Reach(entries, p, 0)
  {
    var q, m := p[..i], Reach(entries, p, 0);
    var n := Reach(entries, q, 0);
    assert forall j :: 0 <= j <= i ==> q[..j] == p[..j];
    if n > m {
      BeyondReach(entries, p, n);
    }
  }

  /** The first link on the way to a path, if the way is passable up to there. */
  function FirstSymlink(entries: Entries, p: Path): Result<Option<Path>, Problem> {
    var m := Reach(entries, p, 0);
    if m == 0 then Ok(None)
    else if IsSymlink(entries, p[..m]) then Ok(Some(p[..m]))
    else if m < |p| && !IsDir(entries, p[..m]) then Err(NotADirectory)
    else Ok(None)
  }

  // ----- paths as text -----

  /** Paths are written with slashes, and sorted as they are written. */
  function PathText(p: Path): string {
    Text.Join(p, '/')
  }

  predicate PathLess(p: Path, q: Path) {
    StringLess(PathText(p), PathText(q))
  }

  lemma PathOrder()
    ensures StrictWeak(PathLess)
  {
    SingleKeyOrder(PathLess, PathText);
  }

  lemma PathLessMeans(p: Path, q: Path)
    ensures PathLess(p, q) <==> exists i: nat :: PartsAt(Text.Join(p, '/'), Text.Join(q, '/'), i)
  {
    var a, b := PathText(p), PathText(q);
    StringLessMeans(a, b);
    assert a == Text.Join(p, '/') && b == Text.Join(q, '/');
    assert forall i: nat :: PartsAt(a, b, i) <==> PartsAt(Text.Join(p, '/'), Text.Join(q, '/'), i);
  }

  /** Components without slashes can be read back from the text. */
  lemma PathRead(p: Path, q: Path)
    requires p != [] && q != [] && (forall c :: c in p ==> '/' !in c) && (forall c :: c in q ==> '/' !in c)
    requires PathText(p) == PathText(q)
    ensures p == q
  {
    Text.SplitJoin(p, '/');
    Text.SplitJoin(q, '/');
  }

  method SortPaths(paths: seq<Path>) returns (sorted: seq<Path>)
    ensures multiset(sorted) == multiset(paths) && Ordered(PathLess, sorted)
    ensures forall p :: p in sorted <==> p in paths
    ensures NoRepeats(paths) ==> NoRepeats(sorted)
  {
    var a := new Path[|paths|](i requires 0 <= i < |paths| => paths[i]);
    assert a[..] == paths;
    PathOrder();
    SortSlice(a, PathLess);
    sorted := a[..];
    SameMembers(paths, sorted);
    if NoRepeats(paths) {
      NoRepeatsPermuted(paths, sorted);
    }
  }

  /** What is found is a link with directories above it, or that there is none on the way, or a file in the way. */
  lemma FirstSymlinkMeans(entries: Entries, p: Path)
    requires Formed(entries)
    ensures match FirstSymlink(entries, p)
      case Ok(Some(q)) =>
        q != [] && q <= p && IsSymlink(entries, q) && forall i :: 0 < i < |q| ==> IsDir(entries, p[..i])
      case Ok(None) => forall i :: 0 < i <= |p| ==>
        !IsSymlink(entries, p[..i]) && (i < |p| && p[..i] in entries ==> IsDir(entries, p[..i]))
      case Err(_) => exists i :: 0 < i < |p| && p[..i] in entries && entries[p[..i]].File?
  {
    var m := Reach(entries, p, 0);
    forall i | m < i <= |p| ensures p[..i] !in entries {
      BeyondReach(entries, p, i);
    }
    forall i | 0 < i < m ensures p[..m][..i] == p[..i] {}
  }

  // ----- the managed region -----

  /** The managed files at the root, and the managed directories one level further down. */
  datatype Layout = Layout(files: seq<Path>, roots: seq<Path>) {
    ghost predicate Valid() {
      && (forall f :: f in files ==> |f| == 1)
      && (forall r :: r in roots ==> |r| == 2)
      && (forall f, r :: f in files && r in roots ==> f != r[..1])
      && (forall i, j :: 0 <= i < j < |files| ==> files[i] != files[j])
      && (forall i, j :: 0 <= i < j < |roots| ==> roots[i][0] != roots[j][0])
    }
  }

  const AGENT_LAYOUT := Layout(
    [["AGENTS.md"], ["CLAUDE.md"], ["GEMINI.md"]],
    [[".agents", "skills"], [".claude", "skills"], [".gemini", "commands"]])

  lemma ThreeValid(a: string, b: string, c: string, r: Path, s: Path, t: Path)
    requires a != b && b != c && a != c
    requires |r| == |s| == |t| == 2 && r[0] != s[0] && s[0] != t[0] && r[0] != t[0]
    requires a !in {r[0], s[0], t[0]} && b !in {r[0], s[0], t[0]} && c !in {r[0], s[0], t[0]}
    ensures Layout([[a], [b], [c]], [r, s, t]).Valid()
  {
    var l := Layout([[a], [b], [c]], [r, s, t]);
    forall f, q | f in l.files && q in l.roots ensures f != q[..1] {
      assert (f[0] == a || f[0] == b || f[0] == c) && (q == r || q == s || q == t);
      assert q[..1][0] == q[0];
    }
  }

  lemma AgentLayoutValid()
    ensures AGENT_LAYOUT.Valid()
  {
    var a, b, c, d, e, f := "AGENTS.md", "CLAUDE.md", "GEMINI.md", ".agents", ".claude", ".gemini";
    assert a[0] == 'A' && b[0] == 'C' && c[0] == 'G' && d[0] == e[0] == f[0] == '.';
    assert d[1] == 'a' && e[1] == 'c' && f[1] == 'g';
    ThreeValid(a, b, c, [d, "skills"], [e, "skills"], [f, "commands"]);
  }

  /** Root files, the managed roots with all below them, and the directories the roots lie in. */
  predicate Region(l: Layout, p: Path) {
    p in l.files || exists r :: r in l.roots && r != [] && (r <= p || p == r[..1])
  }

  /** The region of the agents' documents. */
  lemma RegionMeans(p: Path)
    ensures Region(AGENT_LAYOUT, p) <==>
      || p == ["AGENTS.md"] || p == ["CLAUDE.md"] || p == ["GEMINI.md"]
      || p == [".agents"] || p == [".claude"] || p == [".gemini"]
      || [".agents", "skills"] <= p || [".claude", "skills"] <= p || [".gemini", "commands"] <= p
  {
    var roots := AGENT_LAYOUT.roots;
    assert roots[0][..1] == [".agents"] && roots[1][..1] == [".claude"] && roots[2][..1] == [".gemini"];
    assert roots[0] in roots && roots[1] in roots && roots[2] in roots;
  }

  /** What the managed region holds besides directories. */
  function Leftovers(l: Layout, entries: Entries): set<Path> {
    set p | p in entries && Region(l, p) && !entries[p].Dir?
  }

  /** A plain file stands where a managed root or its parent should be. */
  predicate RootBlocked(entries: Entries, r: Path)
    requires |r| == 2
  {
    (r[..1] in entries && entries[r[..1]].File?) || (r in entries && entries[r].File?)
  }

  function Paths(outputs: seq<Output>): set<Path> {
    set o | o in outputs :: o.path
  }

  ghost predicate PathsApart(outputs: seq<Output>) {
    forall i, j :: 0 <= i < j < |outputs| ==> outputs[i].path != outputs[j].path
  }

  ghost predicate InPathOrder(outputs: seq<Output>) {
    forall i, j :: 0 <= i < j < |outputs| ==> !PathLess(outputs[j].path, outputs[i].path)
  }

  predicate PlannedPath(l: Layout, p: Path) {
    p in l.files || exists r :: r in l.roots && r < p
  }

  /** The outputs a plan may hold: distinct root files and files strictly below a managed root. */
  ghost predicate Planned(l: Layout, outputs: seq<Output>) {
    && PathsApart(outputs)
    && (forall o :: o in outputs ==> PlannedPath(l, o.path))
  }

  ghost predicate InPlace(entries: Entries, o: Output) {
    o.path in entries && entries[o.path] == File(o.content)
  }

  /** Every planned output is in place with its content, and nothing else is in the region. */
  ghost predicate UpToDate(l: Layout, entries: Entries, outputs: seq<Output>) {
    && Leftovers(l, entries) == Paths(outputs)
    && forall o :: o in outputs ==> InPlace(entries, o)
  }

  function NormalizeNewlines(s: string): string {
    if |s| >= 2 && s[0] == '\r' && s[1] == '\n' then ['\n'] + NormalizeNewlines(s[2..])
    else if s != "" then [s[0]] + NormalizeNewlines(s[1..])
    else ""
  }

  /** A line without the carriage return that may end it. */
  ghost function Chopped(l: string): string {
    if l != "" && l[|l| - 1] as int == 13 then l[..|l| - 1] else l
  }

  /** The parts between line feeds; all but the last are ended by one. */
  ghost function ChoppedAll(parts: seq<string>): seq<string> {
    seq(|parts|, i requires 0 <= i < |parts| => if i < |parts| - 1 then Chopped(parts[i]) else parts[i])
  }

  /** The texts have the same lines, whether these end in a line feed or in a carriage return and a line feed. */
  ghost predicate SameLines(a: string, b: string) {
    ChoppedAll(Text.Split(a, '\n')) == ChoppedAll(Text.Split(b, '\n'))
  }

  lemma ChoppedFirst(l: string, parts: seq<string>)
    requires parts != []
    ensures ChoppedAll([l] + parts) == [Chopped(l)] + ChoppedAll(parts)
  {
    hide Chopped;
  }

  lemma ChoppedHead(c: char, parts: seq<string>)
    requires parts != [] && (|parts| > 1 && parts[0] == "" ==> c != '\r')
    ensures |ChoppedAll(parts)| == |parts|
    ensures ChoppedAll([[c] + parts[0]] + parts[1..]) == [[c] + ChoppedAll(parts)[0]] + ChoppedAll(parts)[1..]
  {
    var longer := [[c] + parts[0]] + parts[1..];
    if |parts| > 1 && parts[0] != "" {
      assert Chopped([c] + parts[0]) == [c] + Chopped(parts[0]);
    }
    forall i | 0 < i < |parts| ensures ChoppedAll(longer)[i] == ChoppedAll(parts)[i] {
      assert longer[i] == parts[i];
    }
  }

  /** A first line is empty only before a line feed or where the text ends. */
  lemma FirstLine(s: string)
    ensures Text.Split(s, '\n')[0] == "" && |Text.Split(s, '\n')| > 1 ==> s != "" && s[0] == '\n'
  {
  }

  lemma ChoppedReturn()
    ensures Chopped("\r") == Chopped("") == ""
  {
  }

  lemma ChoppedNothing()
    ensures ChoppedAll(Text.Split("", '\n')) == Text.Split("", '\n')
  {
  }

  lemma {:induction false} NormalizedLines(s: string)
    ensures Text.Split(NormalizeNewlines(s), '\n') == ChoppedAll(Text.Split(s, '\n'))
    decreases |s|
  {
    hide Chopped, ChoppedAll, Text.Split;
    if |s| >= 2 && s[0] == '\r' && s[1] == '\n' {
      var rest := s[2..];
      var parts := Text.Split(rest, '\n');
      NormalizedLines(rest);
      assert s == ['\r'] + (['\n'] + rest);
      Text.SplitCons('\r', ['\n'] + rest, '\n');
      Text.SplitCons('\n', rest, '\n');
      Text.SplitCons('\n', NormalizeNewlines(rest), '\n');
      assert ([""] + parts)[1..] == parts && ['\r'] + "" == "\r";
      ChoppedFirst("\r", parts);
      ChoppedReturn();
    } else if s != "" {
      var rest := s[1..];
      var parts := Text.Split(rest, '\n');
      NormalizedLines(rest);
      assert s == [s[0]] + rest;
      Text.SplitCons(s[0], rest, '\n');
      Text.SplitCons(s[0], NormalizeNewlines(rest), '\n');
      FirstLine(rest);
      if s[0] == '\n' {
        ChoppedFirst("", parts);
        ChoppedReturn();
      } else {
        ChoppedHead(s[0], parts);
      }
    } else {
      ChoppedNothing();
    }
  }

  /** Two texts are normalised to the same text exactly if they have the same lines. */
  lemma NewlinesMean(a: string, b: string)
    ensures NormalizeNewlines(a) == NormalizeNewlines(b) <==> SameLines(a, b)
  {
    NormalizedLines(a);
    NormalizedLines(b);
    Text.JoinSplit(NormalizeNewlines(a), '\n');
    Text.JoinSplit(NormalizeNewlines(b), '\n');
  }

  /** A text without carriage returns is its own normal form, so two such texts are compared as they are. */
  lemma {:induction false} PlainText(s: string)
    requires '\r' !in s
    ensures NormalizeNewlines(s) == s
  {
    if s != "" {
      PlainText(s[1..]);
    }
  }

  ghost predicate SameText(entries: Entries, o: Output) {
    && o.path in entries && entries[o.path].File?
    && SameLines(entries[o.path].content, o.content)
  }

  /** The same up to line ends. */
  ghost predicate Matches(l: Layout, entries: Entries, outputs: seq<Output>) {
    && Leftovers(l, entries) == Paths(outputs)
    && forall o :: o in outputs ==> SameText(entries, o)
  }

  /** The way to a planned output stays in the region and passes no root file. */
  lemma RegionOfPrefix(l: Layout, p: Path, i: nat)
    requires l.Valid() && PlannedPath(l, p) && 0 < i <= |p|
    ensures Region(l, p[..i])
    ensures i < |p| ==> p[..i] !in l.files
  {
    if p in l.files {
      assert p[..i] == p;
    } else {
      var r :| r in l.roots && r < p;
      if i == 1 {
        assert p[..1] == r[..1];
      } else {
        assert r <= p[..i];
      }
    }
  }

  /** The walk of one managed root: nothing if it is absent, its link if it is one, else what is below it. */
  function RootLeftovers(entries: Entries, r: Path): set<Path> {
    set p | p in entries && !entries[p].Dir? && r != [] && (r <= p || p == r[..1])
  }

  lemma {:induction false} PrefixesAreDirs(entries: Entries, p: Path, i: nat)
    requires Formed(entries) && p in entries && 0 < i < |p|
    ensures IsDir(entries, p[..i])
    decreases |p|
  {
    var up := p[..|p| - 1];
    if i < |up| {
      PrefixesAreDirs(entries, up, i);
      assert up[..i] == p[..i];
    }
  }

  lemma RootCases(entries: Entries, r: Path)
    requires Formed(entries) && |r| == 2
    ensures RootBlocked(entries, r) <==>
      || FirstSymlink(entries, r).Err?
      || (FirstSymlink(entries, r) == Ok(None) && r in entries && !IsDir(entries, r))
    ensures FirstSymlink(entries, r).Ok? && FirstSymlink(entries, r).value.Some? ==>
      RootLeftovers(entries, r) == {FirstSymlink(entries, r).value.value}
    ensures FirstSymlink(entries, r) == Ok(None) ==>
      StatOf(entries, r) == if r in entries then Found(entries[r]) else NotExist
    ensures FirstSymlink(entries, r) == Ok(None) && r !in entries ==> RootLeftovers(entries, r) == {}
    ensures FirstSymlink(entries, r) == Ok(None) && IsDir(entries, r) ==>
      RootLeftovers(entries, r) == set p | p in entries && r <= p && !entries[p].Dir?
  {
    var m := Reach(entries, r, 0);
    assert |r| == 2 && r[..2] == r;
    forall p | p in entries && r <= p ensures p == r || IsDir(entries, r) {
      if |p| > 2 {
        PrefixesAreDirs(entries, p, 2);
        assert p[..2] == r;
      }
    }
    if r in entries {
      PrefixesAreDirs(entries, r, 1);
    }
    if m < 2 {
      BeyondReach(entries, r, m + 1);
    }
  }

  /** What an output without a mismatch tells: the text is right, unless a link lies on the way. */
  ghost predicate Cleared(entries: Entries, o: Output) {
    o.path != [] && !IsSymlink(entries, o.path) && (StatOf(entries, o.path).Through? || SameText(entries, o))
  }

  lemma StatKnown(entries: Entries, p: Path)
    requires Formed(entries) && p != []
    ensures p in entries ==> StatOf(entries, p) == Found(entries[p])
    ensures StatOf(entries, p).Found? ==> p in entries && StatOf(entries, p).entry == entries[p]
    ensures StatOf(entries, p).Through? ==>
      exists i :: 0 < i < |p| && IsSymlink(entries, p[..i])
  {
    var m := Reach(entries, p, 0);
    assert p[..|p|] == p;
    if m < |p| {
      BeyondReach(entries, p, |p|);
    }
  }

  /** What is wrong with an output, if anything. */
  ghost function Verdict(entries: Entries, o: Output): Option<Mismatch> {
    if o.path !in entries then Some(Missing(o.path, o.content))
    else match entries[o.path]
      case Symlink => Some(Invalid(o.path))
      case Dir => None
      case File(content) =>
        if SameLines(content, o.content) then None
        else Some(Different(o.path, o.content, content))
  }

  /** The mismatches say of an output what is wrong with it and nothing else, unless a link lies on the way. */
  ghost predicate OutputReported(entries: Entries, o: Output, mismatches: seq<Mismatch>) {
    o.path != [] && (StatOf(entries, o.path).Through? ||
      forall m :: (m in mismatches && m.path == o.path && !m.Stale?) <==> Verdict(entries, o) == Some(m))
  }

  /** Stale paths come first, and both parts are in the order of the paths. */
  ghost predicate InReportOrder(mismatches: seq<Mismatch>) {
    forall i, j :: 0 <= i < j < |mismatches| ==>
      && (mismatches[j].Stale? ==> mismatches[i].Stale?)
      && (mismatches[i].Stale? == mismatches[j].Stale? ==> !PathLess(mismatches[j].path, mismatches[i].path))
  }

  lemma AllStale(stale: seq<Path>, mismatches: seq<Mismatch>)
    requires |mismatches| == |stale| && forall k :: 0 <= k < |stale| ==> mismatches[k] == Stale(stale[k])
    requires Ordered(PathLess, stale)
    ensures InReportOrder(mismatches)
    ensures forall p :: Stale(p) in mismatches <==> p in stale
    ensures mismatches != [] ==> exists p :: p in stale
  {
    forall p | p in stale ensures Stale(p) in mismatches {
      var k :| 0 <= k < |stale| && stale[k] == p;
      assert mismatches[k] in mismatches;
    }
    assert stale != [] ==> stale[0] in stale;
    forall i, j | 0 <= i < j < |stale| ensures !PathLess(stale[j], stale[i]) {
      OrderedAt(PathLess, stale, i, j);
    }
  }

  /** The verdict on one output is about no other. */
  lemma ReportGrows(
    entries: Entries, outputs: seq<Output>, i: nat, mismatches: seq<Mismatch>, more: seq<Mismatch>)
    requires i < |outputs| && forall j, k :: 0 <= j < k < |outputs| ==> outputs[j].path != outputs[k].path
    requires forall k :: 0 <= k < i ==> OutputReported(entries, outputs[k], mismatches)
    requires forall m :: m in mismatches && !m.Stale? ==> exists k :: 0 <= k < i && m.path == outputs[k].path
    requires forall m :: m in more ==> m.path == outputs[i].path && !m.Stale?
    requires OutputReported(entries, outputs[i], more)
    requires |more| <= 1 && InReportOrder(mismatches) && InPathOrder(outputs)
    ensures InReportOrder(mismatches + more)
    ensures forall k :: 0 <= k <= i ==> OutputReported(entries, outputs[k], mismatches + more)
    ensures forall m :: m in mismatches + more && !m.Stale? ==> exists k :: 0 <= k <= i && m.path == outputs[k].path
    ensures forall p :: Stale(p) in mismatches + more <==> Stale(p) in mismatches
  {
    forall k | 0 <= k < i ensures OutputReported(entries, outputs[k], mismatches + more) {
      assert outputs[k].path != outputs[i].path;
    }
    forall m | m in mismatches && !m.Stale? ensures m.path != outputs[i].path {}
  }

  lemma MatchesUnblocked(l: Layout, entries: Entries, outputs: seq<Output>)
    requires l.Valid() && Planned(l, outputs)
    ensures Leftovers(l, entries) <= Paths(outputs) ==> forall r :: r in l.roots ==> !RootBlocked(entries, r)
  {
    forall p | p in Paths(outputs) ensures p in l.files || |p| > 2 {
      var o :| o in outputs && o.path == p;
      assert PlannedPath(l, p);
    }
    forall r | r in l.roots && Leftovers(l, entries) <= Paths(outputs) ensures !RootBlocked(entries, r) {
      assert Region(l, r[..1]) && Region(l, r);
      assert r[..1] !in Leftovers(l, entries) && r !in Leftovers(l, entries);
    }
  }

  lemma OnTheWay(l: Layout, p: Path, q: Path)
    requires l.Valid() && PlannedPath(l, p)
    ensures q != [] && q <= p ==> Region(l, q)
    ensures p != []
  {
    if q != [] && q <= p {
      RegionOfPrefix(l, p, |q|);
      assert p[..|q|] == q;
    }
  }

  /** With nothing stale, no link can lie on the way to an output: it would be one of the outputs, and invalid. */
  lemma ClearedMatches(l: Layout, entries: Entries, outputs: seq<Output>)
    requires l.Valid() && Formed(entries) && Planned(l, outputs) && Leftovers(l, entries) <= Paths(outputs)
    requires forall k :: 0 <= k < |outputs| ==> Cleared(entries, outputs[k])
    ensures Matches(l, entries, outputs)
  {
    forall o | o in outputs ensures Cleared(entries, o) {
      var k :| 0 <= k < |outputs| && outputs[k] == o;
    }
    forall p | p in Paths(outputs) ensures !IsSymlink(entries, p) {
      var o :| o in outputs && o.path == p;
      assert Cleared(entries, o);
    }
    forall o | o in outputs ensures SameText(entries, o) && o.path in Leftovers(l, entries) {
      assert Cleared(entries, o);
      StatKnown(entries, o.path);
      OnTheWay(l, o.path, o.path);
      forall i | 0 < i < |o.path| ensures !IsSymlink(entries, o.path[..i]) {
        RegionOfPrefix(l, o.path, i);
      }
    }
  }

  /** Some of the given paths are gone, and nothing else has changed. */
  ghost predicate Lost(before: Entries, after: Entries, paths: set<Path>) {
    after.Keys <= before.Keys && before.Keys - after.Keys <= paths && forall p :: p in after ==> after[p] == before[p]
  }

  /** Some directories on the way to a path are new, and nothing else has changed. */
  ghost predicate Gained(before: Entries, after: Entries, p: Path) {
    && (forall q :: q in before ==> q in after && after[q] == before[q])
    && (forall q :: q in after && q !in before ==> q != [] && q <= p && after[q] == Dir)
  }

  /** Beside a path, only directories on the way to it are new; at it, a file may be written. */
  ghost predicate Changed(before: Entries, after: Entries, p: Path) {
    && (forall q :: q in before && q != p ==> q in after && after[q] == before[q])
    && (forall q :: q in after && q !in before && q != p ==> q != [] && q < p && after[q] == Dir)
    && (IsDir(before, p) <==> IsDir(after, p))
    && ((p in after && after[p].File?) || ((p in after <==> p in before) && (p in before ==> after[p] == before[p])))
  }

  /** Outside the region everything is as it was, and no directory is lost anywhere. */
  ghost predicate OutsideKept(l: Layout, before: Entries, after: Entries) {
    && (forall p :: !Region(l, p) ==> (p in before <==> p in after))
    && (forall p :: !Region(l, p) && p in before ==> after[p] == before[p])
    && (forall p :: IsDir(before, p) ==> IsDir(after, p))
  }

  lemma LeftoversSplit(l: Layout, entries: Entries)
    requires l.Valid()
    ensures forall p :: p in Leftovers(l, entries) <==>
      (p in l.files && p in entries && !entries[p].Dir?) ||
      exists k :: 0 <= k < |l.roots| && p in RootLeftovers(entries, l.roots[k])
  {
    forall p ensures p in Leftovers(l, entries) <==>
      (p in l.files && p in entries && !entries[p].Dir?) ||
      exists k :: 0 <= k < |l.roots| && p in RootLeftovers(entries, l.roots[k])
    {
      if p in Leftovers(l, entries) && p !in l.files {
        var r :| r in l.roots && (r <= p || p == r[..1]);
        var k :| 0 <= k < |l.roots| && l.roots[k] == r;
        assert p in RootLeftovers(entries, l.roots[k]);
      }
    }
  }

  lemma NoLinkOnTheWay(entries: Entries, p: Path)
    requires Formed(entries) && p != [] && FirstSymlink(entries, p) == Ok(None)
    ensures !IsSymlink(entries, p)
  {
    var m := Reach(entries, p, 0);
    assert p[..|p|] == p;
    if m < |p| {
      BeyondReach(entries, p, |p|);
    }
  }

  lemma GainedNotAt(before: Entries, after: Entries, p: Path)
    requires p != [] && Gained(before, after, p[..|p| - 1])
    ensures (p in before <==> p in after) && (p in before ==> after[p] == before[p])
  {
  }

  lemma NothingWritten(entries: Entries, p: Path)
    ensures Changed(entries, entries, p)
  {
  }

  /** A plain file may stand at the path, nothing else. */
  predicate FileOrFree(entries: Entries, p: Path) {
    p in entries ==> entries[p].File?
  }

  /** What stands on the first n components is a directory. */
  ghost predicate Passable(entries: Entries, p: Path, n: int) {
    n <= |p| && forall i :: 0 < i <= n && p[..i] in entries ==> IsDir(entries, p[..i])
  }

  /** No output's place is taken by a directory or a link, and none is to be a directory for another. */
  ghost predicate Writable(entries: Entries, outputs: seq<Output>) {
    && (forall k :: 0 <= k < |outputs| ==> FileOrFree(entries, outputs[k].path))
    && (forall j, k :: 0 <= j < |outputs| && 0 <= k < |outputs| ==> !(outputs[j].path < outputs[k].path))
  }

  /** What is in the way of writing the outputs. */
  ghost predicate Obstructed(l: Layout, entries: Entries, outputs: seq<Output>) {
    !Writable(entries, outputs) || exists r :: r in l.roots && |r| == 2 && RootBlocked(entries, r)
  }

  /** The outputs still to be written have their places free. */
  ghost predicate Awaited(entries: Entries, outputs: seq<Output>, i: nat) {
    forall k :: i <= k < |outputs| ==> FileOrFree(entries, outputs[k].path)
  }

  /** No link or directory has stood where an output is written, and links to come are still there. */
  ghost predicate Attended(before: Entries, entries: Entries, outputs: seq<Output>, i: nat) {
    && i <= |outputs|
    && (forall k :: 0 <= k < i ==> !IsSymlink(before, outputs[k].path))
    && (forall k :: i <= k < |outputs| && IsSymlink(before, outputs[k].path) ==> IsSymlink(entries, outputs[k].path))
  }

  /** The root files and what the first i managed roots hold, each once. */
  ghost predicate Gathered(l: Layout, entries: Entries, files: seq<Path>, i: nat, paths: seq<Path>)
    requires i <= |l.roots|
  {
    && NoRepeats(paths)
    && forall p :: p in paths <==> p in files || exists k :: 0 <= k < i && p in RootLeftovers(entries, l.roots[k])
  }

  lemma NothingGathered(l: Layout, entries: Entries, files: seq<Path>)
    requires NoRepeats(files)
    ensures Gathered(l, entries, files, 0, files)
  {
  }

  lemma RootsApart(l: Layout, entries: Entries, i: nat, files: seq<Path>, p: Path)
    requires l.Valid() && i < |l.roots| && p in RootLeftovers(entries, l.roots[i])
    requires forall q :: q in files ==> q in l.files
    ensures p !in files && forall k :: 0 <= k < i ==> p !in RootLeftovers(entries, l.roots[k])
  {
    var r := l.roots[i];
    assert r in l.roots && p[0] == r[0];
    assert r[..1] !in l.files && (|p| == 1 ==> p == r[..1]);
    forall k | 0 <= k < i ensures p !in RootLeftovers(entries, l.roots[k]) {
      assert l.roots[k] in l.roots && l.roots[k][0] != r[0];
    }
  }

  lemma {:induction false} RootGathered(
    l: Layout, entries: Entries, files: seq<Path>, i: nat, paths: seq<Path>, found: seq<Path>)
    requires l.Valid() && i < |l.roots| && NoRepeats(found) && Gathered(l, entries, files, i, paths)
    requires forall p :: p in files ==> p in l.files
    requires forall p :: p in found <==> p in RootLeftovers(entries, l.roots[i])
    ensures Gathered(l, entries, files, i + 1, paths + found)
  {
    hide RootLeftovers;
    forall p | p in found ensures p !in paths {
      RootsApart(l, entries, i, files, p);
    }
    var all := paths + found;
    forall j, k | 0 <= j < k < |all| ensures all[j] != all[k] {
      if j < |paths| <= k {
        assert all[k] in found && all[j] in paths;
      }
    }
  }

  lemma AllGathered(l: Layout, entries: Entries, files: seq<Path>, paths: seq<Path>)
    requires l.Valid() && Gathered(l, entries, files, |l.roots|, paths)
    requires forall p :: p in files <==> p in l.files && p in entries && !entries[p].Dir?
    ensures NoRepeats(paths) && forall p :: p in paths <==> p in Leftovers(l, entries)
  {
    LeftoversSplit(l, entries);
  }

  lemma PassableWay(entries: Entries, p: Path)
    requires p != []
    ensures Passable(entries, p, |p| - 1) && FileOrFree(entries, p) ==> FirstSymlink(entries, p) == Ok(None)
    ensures Passable(entries, p, |p| - 1) ==> Passable(entries, p[..|p| - 1], |p| - 1)
  {
    var m := Reach(entries, p, 0);
    assert p[..|p|] == p;
    var up := p[..|p| - 1];
    forall i | 0 < i <= |p| - 1 && Passable(entries, p, |p| - 1) && up[..i] in entries ensures IsDir(entries, up[..i]) {
      assert up[..i] == p[..i];
    }
  }

  lemma Occupied(l: Layout, entries: Entries, outputs: seq<Output>, p: Path)
    requires Leftovers(l, entries) <= Paths(outputs) && Region(l, p) && p in entries && !IsDir(entries, p)
    ensures exists j :: 0 <= j < |outputs| && outputs[j].path == p
  {
    assert p in Leftovers(l, entries) && p in Paths(outputs);
    var o :| o in outputs && o.path == p;
  }

  lemma AwaitedFirst(before: Entries, outputs: seq<Output>)
    ensures Attended(before, before, outputs, 0)
    ensures Writable(before, outputs) ==> Awaited(before, outputs, 0)
  {
  }

  lemma WayIsPassable(l: Layout, before: Entries, was: Entries, outputs: seq<Output>, i: nat)
    requires l.Valid() && Planned(l, outputs) && Leftovers(l, was) <= Paths(outputs) && i < |outputs|
    requires Writable(before, outputs) && Awaited(was, outputs, i)
    ensures Passable(was, outputs[i].path, |outputs[i].path| - 1) && FileOrFree(was, outputs[i].path)
  {
    var p := outputs[i].path;
    assert outputs[i] in outputs;
    forall n | 0 < n < |p| && p[..n] in was ensures IsDir(was, p[..n]) {
      OnTheWay(l, p, p[..n]);
      if !IsDir(was, p[..n]) {
        Occupied(l, was, outputs, p[..n]);
      }
    }
    OnTheWay(l, p, p);
  }

  lemma StillAwaited(before: Entries, was: Entries, after: Entries, outputs: seq<Output>, i: nat)
    requires i < |outputs| && forall k, j :: 0 <= k < j < |outputs| ==> outputs[k].path != outputs[j].path
    requires Changed(was, after, outputs[i].path) && Attended(before, was, outputs, i)
    requires !IsSymlink(was, outputs[i].path)
    ensures Writable(before, outputs) && Awaited(was, outputs, i) ==> Awaited(after, outputs, i + 1)
    ensures Attended(before, after, outputs, i + 1)
  {
    forall k | i < k < |outputs| ensures outputs[k].path != outputs[i].path {}
  }

  lemma AllWritable(l: Layout, before: Entries, after: Entries, outputs: seq<Output>)
    requires UpToDate(l, after, outputs) && Formed(after) && OutsideKept(l, before, after)
    requires Attended(before, after, outputs, |outputs|)
    requires forall o :: o in outputs ==> o.path != []
    ensures Writable(before, outputs)
  {
    forall k | 0 <= k < |outputs| ensures FileOrFree(before, outputs[k].path) {
      assert InPlace(after, outputs[k]) && !IsDir(after, outputs[k].path);
      assert !IsDir(before, outputs[k].path) && !IsSymlink(before, outputs[k].path);
    }
    forall j, k | 0 <= j < |outputs| && 0 <= k < |outputs| ensures !(outputs[j].path < outputs[k].path) {
      assert InPlace(after, outputs[j]) && InPlace(after, outputs[k]);
      var p, q := outputs[j].path, outputs[k].path;
      if p < q {
        assert p != [] && q[..|p|] == p;
        PrefixesAreDirs(after, q, |p|);
      }
    }
  }

  lemma SameBeside(before: Entries, after: Entries, p: Path)
    requires after - {p} == before - {p}
    ensures forall q :: q != p ==> (q in after <==> q in before)
    ensures forall q :: q != p && q in before ==> after[q] == before[q]
  {
    forall q | q != p ensures q in after <==> q in before
      ensures q in before ==> after[q] == before[q]
    {
      assert q in after <==> q in after - {p};
      assert q in before <==> q in before - {p};
      assert q in before ==> (after - {p})[q] == (before - {p})[q];
    }
  }

  /** New directories above a path and then a write at it. */
  lemma WroteAfterGain(before: Entries, middle: Entries, after: Entries, p: Path)
    requires p != [] && Gained(before, middle, p[..|p| - 1]) && after - {p} == middle - {p}
    requires IsDir(middle, p) <==> IsDir(after, p)
    requires after == middle || (p in after && after[p].File?)
    ensures Changed(before, after, p)
  {
    SameBeside(middle, after, p);
    GainedNotAt(before, middle, p);
  }

  lemma OutsideAfterRemoval(l: Layout, before: Entries, after: Entries, paths: set<Path>)
    requires Lost(before, after, paths) && forall p :: p in paths ==> p in Leftovers(l, before)
    ensures OutsideKept(l, before, after)
  {
    forall p | p in before && p !in after ensures p in paths {
      assert p in before.Keys - after.Keys;
    }
  }

  lemma StaleOnly(l: Layout, before: Entries, stale: seq<Path>, outputs: seq<Output>)
    requires forall p :: p in stale <==> p in Leftovers(l, before) && p !in Paths(outputs)
    ensures (set p | p in stale) == Leftovers(l, before) - Paths(outputs)
    ensures forall p :: p in stale ==> p in before && !IsDir(before, p) && p in Leftovers(l, before)
  {
  }

  lemma TidyAfterRemoval(l: Layout, before: Entries, after: Entries, outputs: seq<Output>)
    requires Lost(before, after, Leftovers(l, before) - Paths(outputs))
    requires forall p :: p in Leftovers(l, before) - Paths(outputs) ==> p !in after
    ensures Leftovers(l, after) <= Paths(outputs)
    ensures UpToDate(l, before, outputs) ==> after == before && forall o :: o in outputs ==> InPlace(after, o)
    ensures Writable(after, outputs) <==> Writable(before, outputs)
  {
    forall k | 0 <= k < |outputs| ensures FileOrFree(after, outputs[k].path) <==> FileOrFree(before, outputs[k].path) {
      assert outputs[k] in outputs && outputs[k].path in Paths(outputs);
      assert outputs[k].path !in before.Keys - after.Keys;
    }
    if UpToDate(l, before, outputs) {
      assert Leftovers(l, before) - Paths(outputs) == {};
      forall p | p in before ensures p in after {
        assert p !in before.Keys - after.Keys;
      }
      assert after.Keys == before.Keys;
    }
  }

  lemma OutsideAfterOutput(l: Layout, before: Entries, was: Entries, after: Entries, p: Path)
    requires l.Valid() && PlannedPath(l, p) && OutsideKept(l, before, was) && Changed(was, after, p)
    ensures OutsideKept(l, before, after)
  {
    forall q | q in after && q !in was ensures Region(l, q) {
      OnTheWay(l, p, q);
    }
    OnTheWay(l, p, p);
  }

  lemma TidyAfterOutput(l: Layout, was: Entries, after: Entries, outputs: seq<Output>, o: Output)
    requires Leftovers(l, was) <= Paths(outputs) && o in outputs && Changed(was, after, o.path)
    ensures Leftovers(l, after) <= Paths(outputs)
  {
    forall p | p in Leftovers(l, after) ensures p in Paths(outputs) {
      if p != o.path {
        assert p in was && after[p] == was[p];
        assert p in Leftovers(l, was);
      }
    }
  }

  lemma RewriteChangesNothing(was: Entries, after: Entries, o: Output)
    requires Formed(was) && InPlace(was, o) && Changed(was, after, o.path) && InPlace(after, o)
    ensures after == was
  {
    forall q ensures q in after <==> q in was {
      if q in after && q !in was {
        assert o.path[..|q|] == q;
        PrefixesAreDirs(was, o.path, |q|);
      }
    }
    assert after.Keys == was.Keys;
  }

  lemma AllInPlace(l: Layout, entries: Entries, outputs: seq<Output>)
    requires l.Valid() && Planned(l, outputs) && Leftovers(l, entries) <= Paths(outputs)
    requires forall k :: 0 <= k < |outputs| ==> InPlace(entries, outputs[k])
    ensures UpToDate(l, entries, outputs)
  {
    forall o | o in outputs ensures InPlace(entries, o) && o.path in Leftovers(l, entries) {
      var k :| 0 <= k < |outputs| && outputs[k] == o;
      OnTheWay(l, o.path, o.path);
    }
  }

  lemma StillInPlace(was: Entries, after: Entries, outputs: seq<Output>, i: nat)
    requires i < |outputs| && forall k, j :: 0 <= k < j < |outputs| ==> outputs[k].path != outputs[j].path
    requires forall k :: 0 <= k < i ==> InPlace(was, outputs[k])
    requires Changed(was, after, outputs[i].path)
    ensures forall k :: 0 <= k < i ==> InPlace(after, outputs[k])
  {
    forall k | 0 <= k < i ensures InPlace(after, outputs[k]) {
      assert InPlace(was, outputs[k]) && outputs[k].path != outputs[i].path;
    }
  }

  lemma OutsideKeptRefl(l: Layout, entries: Entries)
    ensures OutsideKept(l, entries, entries)
  {
  }

  lemma OutsideKeptChains(l: Layout, one: Entries, two: Entries, three: Entries)
    requires OutsideKept(l, one, two) && OutsideKept(l, two, three)
    ensures OutsideKept(l, one, three)
  {
  }
}
