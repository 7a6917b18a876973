/**
  The generated agent documents: writing them removes what is stale, refuses to
  go through links, and leaves exactly what checking looks for.
*/
module AgentDocs {
  import opened Wrappers
  import opened Ordering
  import opened AgentTree
  import opened AgentPlan

  /** Sources that a write has left as they were call for the same outputs. */
  lemma SourcesKept(g: Generator, before: Entries, after: Entries)
    requires OutsideKept(AGENT_LAYOUT, before, after)
    ensures Wanted(g, after) == Wanted(g, before)
  {
    DocumentsKept(before, after);
  }

  class Repository {
    const layout: Layout
    const generator: Generator
    var entries: Entries
    /** How many operations the system has refused for reasons of its own. */
    ghost var denials: nat

    constructor (generator: Generator, entries: Entries)
      requires generator.Valid() && Formed(entries)
      ensures Valid() && this.generator == generator && this.entries == entries && denials == 0
    {
      this.layout := AGENT_LAYOUT;
      this.generator := generator;
      this.entries := entries;
      denials := 0;
    }

    /** The tree is a tree, the region is that of the agents' documents, and their sources are named plainly. */
    ghost predicate Valid()
      reads this
    {
      layout == AGENT_LAYOUT && generator.Valid() && Formed(entries)
    }

    /** What the sources in the tree call for. */
    ghost function Outputs(): Option<seq<Output>>
      reads this
    {
      Wanted(generator, entries)
    }

    /** What lies behind a link may answer anything. */
    method Lstat(p: Path) returns (s: Stat)
      requires p != []
      ensures StatOf(entries, p) != Through ==> s == StatOf(entries, p)
      ensures !s.Through?
    {
      s := StatOf(entries, p);
      if s.Through? {
        s := *;
        if s.Through? {
          s := NotExist;
        }
      }
    }

    /** Looks at one prefix after the other and stops at the first link. */
    method FirstManagedSymlink(p: Path) returns (r: Result<Option<Path>, Problem>)
      requires Formed(entries)
      ensures r == FirstSymlink(entries, p)
    {
      ghost var m := Reach(entries, p, 0);
      for i := 0 to |p|
        invariant m > 0 && i >= m ==> !IsSymlink(entries, p[..m])
        invariant 0 < m < i ==> IsDir(entries, p[..m])
      {
        var part := p[..i + 1];
        ReachOfPrefix(entries, p, i + 1);
        assert forall j :: 0 <= j <= |part| ==> part[..j] == p[..j];
        var info := Lstat(part);
        if info.NotExist? {
          continue;
        }
        if info.Blocked? {
          return Err(NotADirectory);
        }
        if info.entry.Symlink? {
          return Ok(Some(part));
        }
      }
      return Ok(None);
    }

    /** Everything below a directory except directories, in any order; links are not followed. */
    method WalkDir(root: Path) returns (paths: seq<Path>)
      ensures NoRepeats(paths) && forall p :: p in paths <==> p in entries && root <= p && !entries[p].Dir?
    {
      paths := [];
      var left := entries.Keys;
      while left != {}
        invariant left <= entries.Keys
        invariant NoRepeats(paths)
        invariant forall p :: p in paths <==> p in entries && p !in left && root <= p && !entries[p].Dir?
        decreases left
      {
        var p :| p in left;
        left := left - {p};
        if root <= p && !entries[p].Dir? {
          paths := paths + [p];
        }
      }
    }

    /** One managed root: its link if it is behind one, nothing if it is absent, else the files and links below it. */
    method RootPaths(root: Path) returns (r: Result<seq<Path>, Problem>)
      requires Formed(entries) && |root| == 2
      ensures r.Ok? <==> !RootBlocked(entries, root)
      ensures r.Ok? ==> NoRepeats(r.value) && forall p :: p in r.value <==> p in RootLeftovers(entries, root)
    {
      RootCases(entries, root);
      var link := FirstManagedSymlink(root);
      if link.Err? {
        return Err(link.error);
      }
      if link.value.Some? {
        return Ok([link.value.value]);
      }
      var info := Lstat(root);
      if info.NotExist? {
        return Ok([]);
      }
      if !info.entry.Dir? {
        return Err(NotADirectory);
      }
      var below := WalkDir(root);
      return Ok(below);
    }

    method RootFiles() returns (paths: seq<Path>)
      requires layout.Valid()
      ensures NoRepeats(paths) && forall p :: p in paths <==> p in layout.files && p in entries && !entries[p].Dir?
    {
      paths := [];
      for i := 0 to |layout.files|
        invariant NoRepeats(paths)
        invariant forall p :: p in paths <==> p in layout.files[..i] && p in entries && !entries[p].Dir?
      {
        var file := layout.files[i];
        assert file in layout.files && file[..1] == file;
        assert layout.files[..i + 1] == layout.files[..i] + [file];
        var info := Lstat(file);
        if info.Found? && !info.entry.Dir? {
          paths := paths + [file];
        }
      }
    }

    /** The paths found in the region: root files, and what the managed roots hold. */
    method ManagedPaths() returns (r: Result<seq<Path>, Problem>)
      requires layout.Valid() && Formed(entries)
      ensures r.Ok? <==> forall root :: root in layout.roots ==> !RootBlocked(entries, root)
      ensures r.Ok? ==>
        && NoRepeats(r.value) && Ordered(PathLess, r.value)
        && forall p :: p in r.value <==> p in Leftovers(layout, entries)
    {
      hide RootBlocked, RootLeftovers, Leftovers, NoRepeats, Formed, Gathered;
      var paths := RootFiles();
      ghost var files := paths;
      NothingGathered(layout, entries, files);
      for i := 0 to |layout.roots|
        invariant forall k :: 0 <= k < i ==> !RootBlocked(entries, layout.roots[k])
        invariant Gathered(layout, entries, files, i, paths)
      {
        assert layout.roots[i] in layout.roots;
        var found := RootPaths(layout.roots[i]);
        if found.Err? {
          return Err(found.error);
        }
        RootGathered(layout, entries, files, i, paths, found.value);
        paths := paths + found.value;
      }
      AllGathered(layout, entries, files, paths);
      paths := SortPaths(paths);
      return Ok(paths);
    }

    method StaleManagedPaths(outputs: seq<Output>) returns (r: Result<seq<Path>, Problem>)
      requires layout.Valid() && Formed(entries)
      ensures r.Ok? <==> forall root :: root in layout.roots ==> !RootBlocked(entries, root)
      ensures r.Ok? ==>
        && NoRepeats(r.value) && Ordered(PathLess, r.value)
        && forall p :: p in r.value <==> p in Leftovers(layout, entries) && p !in Paths(outputs)
    {
      var current := ManagedPaths();
      if current.Err? {
        return Err(current.error);
      }
      var expected := Paths(outputs);
      var stale: seq<Path> := [];
      for i := 0 to |current.value|
        invariant NoRepeats(stale)
        invariant forall p :: p in stale <==> p in current.value[..i] && p !in expected
      {
        var path := current.value[i];
        if path in expected {
          continue;
        }
        stale := stale + [path];
      }
      stale := SortPaths(stale);
      return Ok(stale);
    }

    // ----- writing -----

    /** Removes a file or a link; it may fail and then changes nothing. */
    method Remove(p: Path) returns (ok: bool)
      modifies this
      ensures ok ==> p in old(entries) && entries == old(entries) - {p}
      ensures !ok ==> entries == old(entries)
      ensures denials >= old(denials) && (denials == old(denials) && p in old(entries) ==> ok)
    {
      var denied: bool := *;
      ok := p in entries && !denied;
      if ok {
        entries := entries - {p};
      }
      if denied {
        denials := denials + 1;
      }
    }

    method RemoveStale(stale: seq<Path>) returns (ok: bool)
      requires Formed(entries) && forall p :: p in stale ==> !IsDir(entries, p)
      modifies this
      ensures Formed(entries)
      ensures Lost(old(entries), entries, set p | p in stale)
      ensures ok ==> forall p :: p in stale ==> p !in entries
      ensures denials >= old(denials)
      ensures denials == old(denials) && NoRepeats(stale) && (forall p :: p in stale ==> p in old(entries)) ==> ok
    {
      for i := 0 to |stale|
        invariant Formed(entries)
        invariant Lost(old(entries), entries, set p | p in stale)
        invariant forall p :: p in stale[..i] ==> p !in entries
        invariant denials >= old(denials)
        invariant NoRepeats(stale) ==> forall k :: i <= k < |stale| && stale[k] in old(entries) ==> stale[k] in entries
      {
        assert stale[i] in stale;
        ok := Remove(stale[i]);
        if !ok {
          return;
        }
        assert stale[..i + 1] == stale[..i] + [stale[i]];
      }
      ok := true;
    }

    /** Creates the missing directories of a path, one after the other; it may fail at any of them. */
    method MakeDirs(p: Path) returns (ok: bool)
      requires Formed(entries)
      modifies this
      ensures Formed(entries) && Gained(old(entries), entries, p)
      ensures ok && p != [] ==> IsDir(entries, p)
      ensures denials >= old(denials) && (denials == old(denials) && Passable(old(entries), p, |p|) ==> ok)
    {
      for i := 0 to |p|
        invariant denials >= old(denials)
        invariant Formed(entries) && Gained(old(entries), entries, p)
        invariant i > 0 ==> IsDir(entries, p[..i])
      {
        var part := p[..i + 1];
        assert part[..i] == p[..i];
        if part !in entries {
          var denied: bool := *;
          if denied {
            denials := denials + 1;
            return false;
          }
          entries := entries[part := Dir];
        } else if !entries[part].Dir? {
          return false;
        }
      }
      assert p[..|p|] == p;
      return true;
    }

    /** Writes a file; on failure its content may be anything. */
    method WriteFile(p: Path, content: string) returns (ok: bool)
      requires Formed(entries) && p != [] && (|p| > 1 ==> IsDir(entries, p[..|p| - 1])) && !IsSymlink(entries, p)
      modifies this
      ensures Formed(entries) && entries - {p} == old(entries) - {p}
      ensures IsDir(old(entries), p) <==> IsDir(entries, p)
      ensures ok ==> p in entries && entries[p] == File(content)
      ensures !ok ==> entries == old(entries) || (p in entries && entries[p].File?)
      ensures denials >= old(denials) && (denials == old(denials) && !IsDir(old(entries), p) ==> ok)
    {
      if IsDir(entries, p) {
        return false;
      }
      var denied: bool := *;
      if denied {
        denials := denials + 1;
        return false;
      }
      ok := *;
      if !ok {
        denials := denials + 1;
      }
      var garbage: string := *;
      entries := entries[p := File(if ok then content else garbage)];
    }

    method WriteOutput(o: Output) returns (problem: Option<Problem>)
      requires Formed(entries) && o.path != []
      modifies this
      ensures Formed(entries) && Changed(old(entries), entries, o.path)
      ensures problem.None? ==> o.path in entries && entries[o.path] == File(o.content)
      ensures problem.None? ==> !IsSymlink(old(entries), o.path)
      ensures denials >= old(denials)
      ensures Passable(old(entries), o.path, |o.path| - 1) && FileOrFree(old(entries), o.path) ==>
        problem.None? || denials > old(denials)
    {
      hide FirstSymlink, Gained, Changed, Formed;
      var path := o.path;
      NothingWritten(entries, path);
      PassableWay(entries, path);
      var link := FirstManagedSymlink(path);
      if link.Err? {
        return Some(link.error);
      }
      if link.value.Some? {
        return Some(TraversesSymlink);
      }
      NoLinkOnTheWay(entries, path);
      ghost var before := entries;
      var made := MakeDirs(path[..|path| - 1]);
      if !made {
        WroteAfterGain(before, entries, entries, path);
        return Some(Failed);
      }
      ghost var middle := entries;
      GainedNotAt(before, middle, path);
      var wrote := WriteFile(path, o.content);
      WroteAfterGain(before, middle, entries, path);
      if !wrote {
        return Some(Failed);
      }
      return None;
    }

    /** The outputs that the sources call for, or what is wrong with the sources. */
    method Plan() returns (r: Result<seq<Output>, Problem>)
      requires Valid()
      ensures r.Ok? <==> Outputs().Some?
      ensures r.Ok? ==> r.value == Outputs().value && Planned(layout, r.value) && InPathOrder(r.value)
    {
      var loaded := generator.load(Documents(entries));
      if loaded.Err? {
        return Err(loaded.error);
      }
      r := PlanOutputs(generator, loaded.value);
    }

    method WriteOutputs(outputs: seq<Output>) returns (problem: Option<Problem>)
      requires layout.Valid() && Formed(entries) && Planned(layout, outputs)
      requires Leftovers(layout, entries) <= Paths(outputs)
      modifies this
      ensures Formed(entries)
      ensures problem.None? ==> UpToDate(layout, entries, outputs)
      ensures OutsideKept(layout, old(entries), entries)
      ensures problem.None? && (forall o :: o in outputs ==> InPlace(old(entries), o)) ==> entries == old(entries)
      ensures problem.None? ==> Writable(old(entries), outputs)
      ensures denials >= old(denials)
      ensures denials == old(denials) && Writable(old(entries), outputs) ==> problem.None?
    {
      hide Formed, OutsideKept, Leftovers, Changed, UpToDate, Region, FileOrFree, Writable, Awaited, Attended, Passable;
      ghost var before := entries;
      OutsideKeptRefl(layout, before);
      AwaitedFirst(before, outputs);
      for i := 0 to |outputs|
        invariant Formed(entries) && OutsideKept(layout, before, entries)
        invariant Leftovers(layout, entries) <= Paths(outputs)
        invariant forall k :: 0 <= k < i ==> InPlace(entries, outputs[k])
        invariant (forall o :: o in outputs ==> InPlace(before, o)) ==> entries == before
        invariant denials >= old(denials)
        invariant Writable(before, outputs) ==> Awaited(entries, outputs, i)
        invariant Attended(before, entries, outputs, i)
      {
        ghost var was := entries;
        var o := outputs[i];
        assert o in outputs;
        OnTheWay(layout, o.path, o.path);
        if Writable(before, outputs) {
          WayIsPassable(layout, before, was, outputs, i);
        }
        problem := WriteOutput(o);
        OutsideAfterOutput(layout, before, was, entries, o.path);
        if problem.Some? {
          return;
        }
        TidyAfterOutput(layout, was, entries, outputs, o);
        StillInPlace(was, entries, outputs, i);
        StillAwaited(before, was, entries, outputs, i);
        if InPlace(was, o) {
          RewriteChangesNothing(was, entries, o);
        }
      }
      AllInPlace(layout, entries, outputs);
      AllWritable(layout, before, entries, outputs);
      return None;
    }

    method WritePlan(outputs: seq<Output>) returns (problem: Option<Problem>)
      requires layout.Valid() && Formed(entries) && Planned(layout, outputs)
      modifies this
      ensures Formed(entries)
      ensures problem.None? ==> UpToDate(layout, entries, outputs)
      ensures OutsideKept(layout, old(entries), entries)
      ensures problem.None? && UpToDate(layout, old(entries), outputs) ==> entries == old(entries)
      ensures problem.None? ==> !Obstructed(layout, old(entries), outputs)
      ensures denials >= old(denials)
      ensures denials == old(denials) && !Obstructed(layout, old(entries), outputs) ==> problem.None?
    {
      hide Formed, OutsideKept, Leftovers, UpToDate, Writable, Planned, RootBlocked, Lost;
      ghost var before := entries;
      var stale := StaleManagedPaths(outputs);
      OutsideKeptRefl(layout, before);
      if stale.Err? {
        return Some(stale.error);
      }
      StaleOnly(layout, before, stale.value, outputs);
      var removed := RemoveStale(stale.value);
      OutsideAfterRemoval(layout, before, entries, set p | p in stale.value);
      if !removed {
        return Some(Failed);
      }
      ghost var clean := entries;
      TidyAfterRemoval(layout, before, clean, outputs);
      problem := WriteOutputs(outputs);
      OutsideKeptChains(layout, before, clean, entries);
    }

    /**
      Brings the region up to date or reports a problem. On success it holds
      exactly the outputs the sources call for; outside the region nothing has
      changed, so the sources call for the same; a directory stays one; and a
      second write changes nothing. Unless the system refuses an operation, it
      succeeds exactly when there is a plan and nothing is in the way.
    */
    method Write() returns (problem: Option<Problem>)
      requires Valid()
      modifies this
      ensures Valid() && Outputs() == old(Outputs())
      ensures problem.None? ==> Outputs().Some? && UpToDate(layout, entries, Outputs().value)
      ensures OutsideKept(layout, old(entries), entries)
      ensures problem.None? && UpToDate(layout, old(entries), Outputs().value) ==> entries == old(entries)
      ensures problem.None? ==> !Obstructed(layout, old(entries), Outputs().value)
      ensures denials >= old(denials)
      ensures denials == old(denials) && Outputs().Some? && !Obstructed(layout, old(entries), Outputs().value) ==>
        problem.None?
    {
      hide OutsideKept, UpToDate, Obstructed, Formed, Wanted, Planned, Region;
      AgentLayoutValid();
      ghost var before := entries;
      OutsideKeptRefl(layout, before);
      var planned := Plan();
      if planned.Err? {
        return Some(planned.error);
      }
      problem := WritePlan(planned.value);
      SourcesKept(generator, before, entries);
    }

    // ----- checking -----

    method CheckOutput(o: Output) returns (r: Result<Option<Mismatch>, Problem>)
      requires Formed(entries) && o.path != []
      ensures r == Ok(None) ==> Cleared(entries, o)
      ensures SameText(entries, o) ==> r == Ok(None)
      ensures r.Ok? ==> OutputReported(entries, o, if r.value.None? then [] else [r.value.value])
      ensures r.Ok? && r.value.Some? ==> r.value.value.path == o.path && !r.value.value.Stale?
    {
      StatKnown(entries, o.path);
      var info := Lstat(o.path);
      match info {
        case NotExist => return Ok(Some(Missing(o.path, o.content)));
        case Blocked => return Err(NotADirectory);
        case Through => return Err(Failed);
        case Found(Symlink) => return Ok(Some(Invalid(o.path)));
        case Found(Dir) => return Err(IsADirectory);
        case Found(File(content)) =>
          NewlinesMean(content, o.content);
          if NormalizeNewlines(content) != NormalizeNewlines(o.content) {
            return Ok(Some(Different(o.path, o.content, content)));
          }
          return Ok(None);
      }
    }

    method CheckOutputs(outputs: seq<Output>, stale: seq<Mismatch>) returns (r: Result<seq<Mismatch>, Problem>)
      requires layout.Valid() && Formed(entries) && Planned(layout, outputs) && InPathOrder(outputs)
      requires (forall m :: m in stale ==> m.Stale?) && InReportOrder(stale)
      ensures r.Ok? ==> InReportOrder(r.value)
      ensures r == Ok([]) ==> stale == [] && forall k :: 0 <= k < |outputs| ==> Cleared(entries, outputs[k])
      ensures (forall o :: o in outputs ==> SameText(entries, o)) ==> r == Ok(stale)
      ensures r.Ok? ==> forall p :: Stale(p) in r.value <==> Stale(p) in stale
      ensures r.Ok? ==> forall o :: o in outputs ==> OutputReported(entries, o, r.value)
    {
      hide SameText, StatOf, OutputReported, Formed;
      var mismatches := stale;
      for i := 0 to |outputs|
        invariant |mismatches| >= |stale| && InReportOrder(mismatches)
        invariant mismatches == [] ==> forall k :: 0 <= k < i ==> Cleared(entries, outputs[k])
        invariant (forall o :: o in outputs ==> SameText(entries, o)) ==> mismatches == stale
        invariant forall p :: Stale(p) in mismatches <==> Stale(p) in stale
        invariant forall k :: 0 <= k < i ==> OutputReported(entries, outputs[k], mismatches)
        invariant forall m :: m in mismatches && !m.Stale? ==> exists k :: 0 <= k < i && m.path == outputs[k].path
      {
        assert outputs[i] in outputs;
        OnTheWay(layout, outputs[i].path, outputs[i].path);
        var found := CheckOutput(outputs[i]);
        if found.Err? {
          return Err(found.error);
        }
        ReportGrows(entries, outputs, i, mismatches, if found.value.None? then [] else [found.value.value]);
        assert mismatches + [] == mismatches;
        if found.value.Some? {
          mismatches := mismatches + [found.value.value];
        }
      }
      return Ok(mismatches);
    }

    method CheckPlan(outputs: seq<Output>) returns (r: Result<seq<Mismatch>, Problem>)
      requires layout.Valid() && Formed(entries) && Planned(layout, outputs) && InPathOrder(outputs)
      ensures r == Ok([]) <==> Matches(layout, entries, outputs)
      ensures r.Ok? ==> forall p :: Stale(p) in r.value <==> p in Leftovers(layout, entries) && p !in Paths(outputs)
      ensures r.Ok? ==> InReportOrder(r.value)
      ensures r.Ok? ==> forall o :: o in outputs ==> OutputReported(entries, o, r.value)
    {
      MatchesUnblocked(layout, entries, outputs);
      var stale := StaleManagedPaths(outputs);
      if stale.Err? {
        return Err(stale.error);
      }
      var mismatches: seq<Mismatch> := [];
      for i := 0 to |stale.value|
        invariant |mismatches| == i && forall k :: 0 <= k < i ==> mismatches[k] == Stale(stale.value[k])
      {
        mismatches := mismatches + [Stale(stale.value[i])];
      }
      AllStale(stale.value, mismatches);
      r := CheckOutputs(outputs, mismatches);
      if |mismatches| == 0 && r == Ok([]) {
        ClearedMatches(layout, entries, outputs);
      }
    }

    /**
      Reports nothing exactly when the sources have a plan and the region holds
      its outputs, up to line ends, and nothing else. A report names every stale
      path first, and says of every output, except one behind a link, what is
      wrong with it; both parts are in the order of the paths.
    */
    method Check() returns (r: Result<seq<Mismatch>, Problem>)
      requires Valid()
      ensures r == Ok([]) <==> Outputs().Some? && Matches(layout, entries, Outputs().value)
      ensures r.Ok? ==> Outputs().Some? && InReportOrder(r.value)
      ensures r.Ok? ==>
        forall p :: Stale(p) in r.value <==> p in Leftovers(layout, entries) && p !in Paths(Outputs().value)
      ensures r.Ok? ==> forall o :: o in Outputs().value ==> OutputReported(entries, o, r.value)
    {
      hide Matches, InReportOrder, Leftovers, OutputReported, Wanted, Planned;
      AgentLayoutValid();
      var planned := Plan();
      if planned.Err? {
        return Err(planned.error);
      }
      r := CheckPlan(planned.value);
    }
  }

  /**
    What a successful write leaves is what a check accepts, though the check
    reads the sources and plans anew.
  */
  lemma WriteThenCheck(g: Generator, before: Entries, after: Entries)
    requires OutsideKept(AGENT_LAYOUT, before, after) && Wanted(g, before).Some?
    requires UpToDate(AGENT_LAYOUT, after, Wanted(g, before).value)
    ensures Wanted(g, after).Some? && Matches(AGENT_LAYOUT, after, Wanted(g, after).value)
  {
    SourcesKept(g, before, after);
  }
}
