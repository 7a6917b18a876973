/**
  The plan of the generated agent documents: three documents at the root, and
  three for each skill, under paths that the skill's slug decides.
*/
module AgentPlan {
  import opened Wrappers
  import opened Ordering
  import opened AgentTree
  import Text

  datatype Source = Source(slug: string, title: string, summary: string, body: string)

  /** The canonical documents: the contract and the skills. */
  datatype Loaded = Loaded(contract: Source, skills: seq<Source>)

  predicate SlugChar(c: char) {
    'a' <= c <= 'z' || '0' <= c <= '9' || c == '-'
  }

  predicate SkillsNamed(skills: seq<Source>) {
    forall s :: s in skills ==> forall c :: c in s.slug ==> SlugChar(c)
  }

  datatype Target = Codex | Claude | Gemini

  /** How sources are read from the documents' part of the tree, and how they are rendered. */
  datatype Generator = Generator(
    load: Entries -> Result<Loaded, Problem>,
    root: (Loaded, Target) -> string,
    skill: Source -> string,
    command: Source -> string)
  {
    /** A source that loads has a slug of letters, digits and hyphens. */
    ghost predicate Valid() {
      forall documents :: load(documents).Ok? ==> SkillsNamed(load(documents).value.skills)
    }
  }

  // ----- rendering -----

  const PREFIX := "dns-update-"

  function CommandLeaf(slug: string): string {
    var leaf := if PREFIX <= slug then slug[|PREFIX|..] else slug;
    if leaf == "" then slug else leaf
  }

  function AgentPath(slug: string): Path {
    [".agents", "skills", slug, "SKILL.md"]
  }

  function ClaudePath(slug: string): Path {
    [".claude", "skills", slug, "SKILL.md"]
  }

  function CommandPath(slug: string): Path {
    [".gemini", "commands", "dns-update", CommandLeaf(slug) + ".toml"]
  }

  function RenderContract(g: Generator, loaded: Loaded): seq<Output> {
    [Output(["AGENTS.md"], g.root(loaded, Codex)),
     Output(["CLAUDE.md"], g.root(loaded, Claude)),
     Output(["GEMINI.md"], g.root(loaded, Gemini))]
  }

  function RenderSkill(g: Generator, s: Source): seq<Output> {
    [Output(AgentPath(s.slug), g.skill(s)),
     Output(ClaudePath(s.slug), g.skill(s)),
     Output(CommandPath(s.slug), g.command(s))]
  }

  function RenderSkills(g: Generator, skills: seq<Source>): seq<Output> {
    if skills == [] then [] else RenderSkills(g, skills[..|skills| - 1]) + RenderSkill(g, skills[|skills| - 1])
  }

  function Rendered(g: Generator, loaded: Loaded): seq<Output> {
    RenderContract(g, loaded) + RenderSkills(g, loaded.skills)
  }

  /** No two skills get the same command. */
  predicate LeavesApart(skills: seq<Source>) {
    forall i, j :: 0 <= i < j < |skills| ==> CommandLeaf(skills[i].slug) != CommandLeaf(skills[j].slug)
  }

  predicate OutputLess(a: Output, b: Output) {
    PathLess(a.path, b.path)
  }

  /** The plan: all that is rendered, in the order of the paths, unless two outputs share one. */
  function PlanOf(g: Generator, loaded: Loaded): Option<seq<Output>> {
    if LeavesApart(loaded.skills) then Some(Sort(OutputLess, Rendered(g, loaded))) else None
  }

  // ----- what a plan holds -----

  /** The command's name is the slug without its prefix, unless nothing would be left. */
  ghost predicate NamesCommand(slug: string, leaf: string) {
    || (leaf != "" && slug == "dns-update-" + leaf)
    || (leaf == slug && forall rest :: rest != "" ==> slug != "dns-update-" + rest)
  }

  lemma CommandLeafMeans(slug: string, leaf: string)
    ensures NamesCommand(slug, leaf) <==> leaf == CommandLeaf(slug)
  {
    if PREFIX <= slug {
      assert slug == "dns-update-" + slug[|PREFIX|..];
    }
    if leaf != "" && slug == "dns-update-" + leaf {
      assert PREFIX <= slug && slug[|PREFIX|..] == leaf;
    }
    forall rest: string | rest != "" && slug == "dns-update-" + rest
      ensures PREFIX <= slug && slug[|PREFIX|..] == rest
    {}
  }

  ghost predicate CommandOf(slug: string, p: Path) {
    exists leaf :: NamesCommand(slug, leaf) && p == [".gemini", "commands", "dns-update", leaf + ".toml"]
  }

  /** One of the three outputs of a skill. */
  ghost predicate SkillOutput(g: Generator, s: Source, o: Output) {
    || o == Output([".agents", "skills", s.slug, "SKILL.md"], g.skill(s))
    || o == Output([".claude", "skills", s.slug, "SKILL.md"], g.skill(s))
    || (o.content == g.command(s) && CommandOf(s.slug, o.path))
  }

  /** One of the three outputs at the root, each rendered for its own target, or an output of a skill. */
  ghost predicate RightOutput(g: Generator, loaded: Loaded, o: Output) {
    || o == Output(["AGENTS.md"], g.root(loaded, Codex))
    || o == Output(["CLAUDE.md"], g.root(loaded, Claude))
    || o == Output(["GEMINI.md"], g.root(loaded, Gemini))
    || exists s :: s in loaded.skills && SkillOutput(g, s, o)
  }

  lemma RenderSkillMeans(g: Generator, s: Source, o: Output)
    ensures o in RenderSkill(g, s) <==> SkillOutput(g, s, o)
  {
    var outputs := RenderSkill(g, s);
    assert o in outputs <==> o == outputs[0] || o == outputs[1] || o == outputs[2];
    CommandLeafMeans(s.slug, CommandLeaf(s.slug));
    if CommandOf(s.slug, o.path) {
      var leaf :| NamesCommand(s.slug, leaf) && o.path == [".gemini", "commands", "dns-update", leaf + ".toml"];
      CommandLeafMeans(s.slug, leaf);
    }
  }

  lemma {:induction false} RenderSkillsMeans(g: Generator, skills: seq<Source>, o: Output)
    ensures o in RenderSkills(g, skills) <==> exists s :: s in skills && SkillOutput(g, s, o)
  {
    hide RenderSkill, SkillOutput;
    if skills != [] {
      var front, last := skills[..|skills| - 1], skills[|skills| - 1];
      RenderSkillsMeans(g, front, o);
      RenderSkillMeans(g, last, o);
      assert forall s :: s in skills <==> s in front || s == last;
    }
  }

  /** A plan holds these outputs and no others. */
  lemma PlanMeans(g: Generator, loaded: Loaded, o: Output)
    requires PlanOf(g, loaded).Some?
    ensures o in PlanOf(g, loaded).value <==> RightOutput(g, loaded, o)
  {
    hide RenderSkills, SkillOutput;
    SortMembers(OutputLess, Rendered(g, loaded));
    RenderSkillsMeans(g, loaded.skills, o);
    var roots := RenderContract(g, loaded);
    assert o in roots <==> o == roots[0] || o == roots[1] || o == roots[2];
  }

  // ----- documents -----

  /** The part of the tree that the sources are read from. */
  function Documents(entries: Entries): Entries {
    map p | p in entries && p != [] && p[0] == "docs" :: entries[p]
  }

  /** The sources are read from below docs as it is, and from nowhere else. */
  lemma DocumentsMean(entries: Entries, p: Path)
    ensures p in Documents(entries) <==> p in entries && ["docs"] <= p
    ensures p in Documents(entries) ==> Documents(entries)[p] == entries[p]
  {
    assert ["docs"] <= p <==> p != [] && p[0] == "docs";
  }

  lemma DocumentsOutside(p: Path)
    requires p != [] && p[0] == "docs"
    ensures !Region(AGENT_LAYOUT, p)
  {
    assert "docs"[0] == 'd';
    forall r | r in AGENT_LAYOUT.roots ensures r[0][0] == '.' {}
    forall f | f in AGENT_LAYOUT.files ensures f[0][0] != 'd' {}
  }

  /** What leaves everything outside the managed region as it was leaves the sources as they were. */
  lemma DocumentsKept(before: Entries, after: Entries)
    requires OutsideKept(AGENT_LAYOUT, before, after)
    ensures Documents(after) == Documents(before)
  {
    hide Region;
    forall p: Path | p != [] && p[0] == "docs" ensures !Region(AGENT_LAYOUT, p) {
      DocumentsOutside(p);
    }
    assert Documents(after).Keys == Documents(before).Keys;
  }

  /** The outputs that the sources in the tree call for, if they can be read and do not clash. */
  function Wanted(g: Generator, entries: Entries): Option<seq<Output>> {
    var loaded := g.load(Documents(entries));
    if loaded.Ok? then PlanOf(g, loaded.value) else None
  }

  // ----- the paths of two skills -----

  lemma SkillPaths(g: Generator, s: Source)
    ensures Paths(RenderSkill(g, s)) == {AgentPath(s.slug), ClaudePath(s.slug), CommandPath(s.slug)}
  {
    var outputs := RenderSkill(g, s);
    assert outputs[0] in outputs && outputs[1] in outputs && outputs[2] in outputs;
  }

  lemma RootsApart(slug: string, other: string)
    ensures AgentPath(slug) != ClaudePath(other) && ClaudePath(slug) != CommandPath(other)
    ensures AgentPath(slug) != CommandPath(other)
  {
    assert ".agents"[1] == 'a' && ".claude"[1] == 'c' && ".gemini"[1] == 'g';
    assert AgentPath(slug)[0] == ".agents" && ClaudePath(other)[0] == ".claude" && CommandPath(other)[0] == ".gemini";
    assert ClaudePath(slug)[0] == ".claude";
  }

  lemma SameCommand(slug: string, other: string)
    ensures CommandPath(slug) == CommandPath(other) <==> CommandLeaf(slug) == CommandLeaf(other)
    ensures AgentPath(slug) == AgentPath(other) || ClaudePath(slug) == ClaudePath(other) ==> slug == other
  {
    hide CommandLeaf;
    var leaf, next := CommandLeaf(slug), CommandLeaf(other);
    assert CommandPath(slug)[3] == leaf + ".toml" && CommandPath(other)[3] == next + ".toml";
    assert (leaf + ".toml")[..|leaf|] == leaf && (next + ".toml")[..|next|] == next;
    assert AgentPath(slug)[2] == slug && AgentPath(other)[2] == other;
    assert ClaudePath(slug)[2] == slug && ClaudePath(other)[2] == other;
  }

  lemma SkillPathsApart(g: Generator, s: Source)
    ensures PathsApart(RenderSkill(g, s))
  {
    RootsApart(s.slug, s.slug);
    hide AgentPath, ClaudePath, CommandPath;
  }

  /** A path of one skill is a path of another exactly if their commands have the same name. */
  lemma SkillsClash(g: Generator, s: Source, t: Source)
    ensures Paths(RenderSkill(g, s)) !! Paths(RenderSkill(g, t)) <==> CommandLeaf(s.slug) != CommandLeaf(t.slug)
    ensures PathsApart(RenderSkill(g, s))
  {
    hide RenderSkill, Paths, PathsApart, AgentPath, ClaudePath, CommandPath, CommandLeaf;
    SkillPathsApart(g, s);
    SkillPaths(g, s);
    SkillPaths(g, t);
    RootsApart(s.slug, t.slug);
    RootsApart(t.slug, s.slug);
    SameCommand(s.slug, t.slug);
    assert CommandPath(s.slug) == CommandPath(t.slug) ==>
      CommandPath(s.slug) in Paths(RenderSkill(g, s)) && CommandPath(s.slug) in Paths(RenderSkill(g, t));
  }

  lemma ContractPaths(g: Generator, loaded: Loaded)
    ensures PathsApart(RenderContract(g, loaded))
    ensures Paths(RenderContract(g, loaded)) == {["AGENTS.md"], ["CLAUDE.md"], ["GEMINI.md"]}
  {
    var outputs := RenderContract(g, loaded);
    assert outputs[0] in outputs && outputs[1] in outputs && outputs[2] in outputs;
    assert "AGENTS.md"[0] == 'A' && "CLAUDE.md"[0] == 'C' && "GEMINI.md"[0] == 'G';
    assert outputs[0].path[0] != outputs[1].path[0] && outputs[1].path[0] != outputs[2].path[0];
    assert outputs[0].path[0] != outputs[2].path[0];
  }

  /** Skills that are named apart may still clash. */
  lemma NamedApartYetClash()
    ensures !LeavesApart([Source("gate", "", "", ""), Source("dns-update-gate", "", "", "")])
  {
    var skills := [Source("gate", "", "", ""), Source("dns-update-gate", "", "", "")];
    assert "dns-update-gate" == PREFIX + "gate" && "dns-update-gate"[|PREFIX|..] == "gate" && "gate"[0] != PREFIX[0];
    assert CommandLeaf(skills[0].slug) == CommandLeaf(skills[1].slug);
  }

  lemma PathsOfBoth(a: seq<Output>, b: seq<Output>)
    ensures Paths(a + b) == Paths(a) + Paths(b)
  {
    assert forall o :: o in a + b <==> o in a || o in b;
  }

  lemma NoPaths()
    ensures Paths([]) == {}
  {
  }

  lemma {:induction false} RenderSkillsPaths(g: Generator, skills: seq<Source>)
    ensures forall p :: p in Paths(RenderSkills(g, skills)) <==>
      exists k :: 0 <= k < |skills| && p in Paths(RenderSkill(g, skills[k]))
  {
    hide RenderSkill, Paths;
    if skills == [] {
      NoPaths();
    } else {
      var front, last := skills[..|skills| - 1], skills[|skills| - 1];
      RenderSkillsPaths(g, front);
      PathsOfBoth(RenderSkills(g, front), RenderSkill(g, last));
      forall p | p in Paths(RenderSkills(g, front))
        ensures exists k :: 0 <= k < |skills| && p in Paths(RenderSkill(g, skills[k]))
      {
        var k :| 0 <= k < |front| && p in Paths(RenderSkill(g, front[k]));
        assert skills[k] == front[k];
      }
      forall p, k | 0 <= k < |skills| && p in Paths(RenderSkill(g, skills[k]))
        ensures p in Paths(RenderSkills(g, front)) || p in Paths(RenderSkill(g, last))
      {
        if k < |front| {
          assert front[k] == skills[k];
        }
      }
    }
  }

  /** One more skill fits exactly if its command is new. */
  lemma SkillFits(g: Generator, loaded: Loaded, i: nat)
    requires i < |loaded.skills| && LeavesApart(loaded.skills[..i])
    ensures var outputs := RenderContract(g, loaded) + RenderSkills(g, loaded.skills[..i]);
      Paths(outputs) !! Paths(RenderSkill(g, loaded.skills[i])) <==> LeavesApart(loaded.skills[..i + 1])
  {
    hide RenderContract, RenderSkills, RenderSkill, CommandLeaf, Paths;
    var skills, s := loaded.skills[..i], loaded.skills[i];
    var mine := Paths(RenderSkill(g, s));
    PathsOfBoth(RenderContract(g, loaded), RenderSkills(g, skills));
    ContractPaths(g, loaded);
    SkillPaths(g, s);
    RenderSkillsPaths(g, skills);
    assert Paths(RenderContract(g, loaded)) !! mine;
    forall k | 0 <= k < i
      ensures Paths(RenderSkill(g, skills[k])) !! mine <==> CommandLeaf(skills[k].slug) != CommandLeaf(s.slug)
    {
      SkillsClash(g, skills[k], s);
    }
    if !LeavesApart(loaded.skills[..i + 1]) {
      var k :| 0 <= k < i && CommandLeaf(skills[k].slug) == CommandLeaf(s.slug);
      var p :| p in Paths(RenderSkill(g, skills[k])) && p in mine;
      assert p in Paths(RenderSkills(g, skills));
    }
    if p :| p in Paths(RenderSkills(g, skills)) && p in mine {
      var k :| 0 <= k < i && p in Paths(RenderSkill(g, skills[k]));
      assert loaded.skills[..i + 1][k] == skills[k] && loaded.skills[..i + 1][i] == s;
    }
  }

  // ----- planning -----

  method AddSkill(g: Generator, outputs: seq<Output>, seen: set<Path>, skill: Source)
    returns (problem: Option<Problem>, all: seq<Output>, now: set<Path>)
    requires seen == Paths(outputs) && PathsApart(outputs)
    ensures problem.None? <==> Paths(outputs) !! Paths(RenderSkill(g, skill))
    ensures problem.None? ==> all == outputs + RenderSkill(g, skill) && now == Paths(all) && PathsApart(all)
  {
    hide RenderSkill;
    var more := RenderSkill(g, skill);
    SkillsClash(g, skill, skill);
    all, now := outputs, seen;
    for i := 0 to |more|
      invariant all == outputs + more[..i] && now == Paths(all) && PathsApart(all)
      invariant Paths(outputs) !! Paths(more[..i])
    {
      var output := more[i];
      assert output in more && output.path in Paths(more);
      assert more[..i + 1] == more[..i] + [output];
      PathsOfBoth(outputs, more[..i]);
      PathsOfBoth(more[..i], [output]);
      assert output.path !in Paths(more[..i]);
      PathsOfBoth(all, [output]);
      assert Paths([output]) == {output.path};
      if output.path in now {
        return Some(DuplicatePath(output.path)), outputs, seen;
      }
      forall k | 0 <= k < |all| ensures all[k].path != output.path {
        assert all[k] in all;
      }
      all, now := all + [output], now + {output.path};
    }
    assert more[..|more|] == more;
    problem := None;
  }

  lemma OneMoreSkill(g: Generator, skills: seq<Source>, i: nat)
    requires i <= |skills|
    ensures RenderSkills(g, skills[..i]) ==
      if i == 0 then [] else RenderSkills(g, skills[..i - 1]) + RenderSkill(g, skills[i - 1])
  {
    if i > 0 {
      assert skills[..i][..i - 1] == skills[..i - 1];
    }
  }

  ghost predicate Plain(p: Path) {
    p != [] && forall c :: c in p ==> '/' !in c
  }

  lemma ContractPlaced(g: Generator, loaded: Loaded)
    ensures forall o :: o in RenderContract(g, loaded) ==> PlannedPath(AGENT_LAYOUT, o.path) && Plain(o.path)
  {
    forall o | o in RenderContract(g, loaded) ensures PlannedPath(AGENT_LAYOUT, o.path) && Plain(o.path) {
      assert o.path == AGENT_LAYOUT.files[0] || o.path == AGENT_LAYOUT.files[1] || o.path == AGENT_LAYOUT.files[2];
    }
  }

  lemma BelowRoot(p: Path, i: nat)
    requires i < 3 && |p| == 4 && p[..2] == AGENT_LAYOUT.roots[i]
    ensures PlannedPath(AGENT_LAYOUT, p)
  {
    assert AGENT_LAYOUT.roots[i] in AGENT_LAYOUT.roots && AGENT_LAYOUT.roots[i] < p;
  }

  lemma PlainFour(a: string, b: string, c: string, d: string)
    requires '/' !in a && '/' !in b && '/' !in c && '/' !in d
    ensures Plain([a, b, c, d])
  {
  }

  lemma PlainPaths(slug: string)
    requires forall c :: c in slug ==> SlugChar(c)
    ensures Plain(AgentPath(slug)) && Plain(ClaudePath(slug)) && Plain(CommandPath(slug))
  {
    hide Plain;
    PlainFour(".agents", "skills", slug, "SKILL.md");
    PlainFour(".claude", "skills", slug, "SKILL.md");
    assert forall c :: c in CommandLeaf(slug) ==> c in slug;
    PlainFour(".gemini", "commands", "dns-update", CommandLeaf(slug) + ".toml");
  }

  lemma SkillPlaced(g: Generator, s: Source)
    requires SkillsNamed([s])
    ensures forall o :: o in RenderSkill(g, s) ==> PlannedPath(AGENT_LAYOUT, o.path) && Plain(o.path)
  {
    hide PlannedPath, Plain, CommandLeaf;
    assert s in [s];
    BelowRoot(AgentPath(s.slug), 0);
    BelowRoot(ClaudePath(s.slug), 1);
    BelowRoot(CommandPath(s.slug), 2);
    PlainPaths(s.slug);
  }

  lemma {:induction false} SkillsPlaced(g: Generator, skills: seq<Source>)
    requires SkillsNamed(skills)
    ensures forall o :: o in RenderSkills(g, skills) ==> PlannedPath(AGENT_LAYOUT, o.path) && Plain(o.path)
  {
    hide PlannedPath, Plain, RenderSkill;
    if skills != [] {
      SkillsPlaced(g, skills[..|skills| - 1]);
      SkillPlaced(g, skills[|skills| - 1]);
    }
  }

  lemma NoTiedOutputs(outputs: seq<Output>)
    requires PathsApart(outputs) && forall o :: o in outputs ==> Plain(o.path)
    ensures NoTies(OutputLess, outputs)
  {
    SingleKeyOrder(OutputLess, (o: Output) => PathText(o.path));
    forall a, b | a in outputs && b in outputs && a != b ensures OutputLess(a, b) || OutputLess(b, a) {
      var i :| 0 <= i < |outputs| && outputs[i] == a;
      var j :| 0 <= j < |outputs| && outputs[j] == b;
      assert a.path != b.path;
      if PathText(a.path) == PathText(b.path) {
        PathRead(a.path, b.path);
      }
    }
  }

  lemma PathsApartPermuted(s: seq<Output>, t: seq<Output>)
    requires multiset(s) == multiset(t) && PathsApart(s)
    ensures PathsApart(t)
  {
    NoRepeatsPermuted(s, t);
    SameMembers(s, t);
    forall i, j | 0 <= i < j < |t| ensures t[i].path != t[j].path {
      assert t[i] in s && t[j] in s && t[i] != t[j];
      var k :| 0 <= k < |s| && s[k] == t[i];
      var l :| 0 <= l < |s| && s[l] == t[j];
    }
  }

  lemma RenderedPlaced(g: Generator, loaded: Loaded)
    requires SkillsNamed(loaded.skills)
    ensures forall o :: o in Rendered(g, loaded) ==> PlannedPath(AGENT_LAYOUT, o.path) && Plain(o.path)
  {
    hide RenderContract, RenderSkills, PlannedPath, Plain;
    SkillsPlaced(g, loaded.skills);
    ContractPlaced(g, loaded);
  }

  /** Where the paths differ, the sort has one result. */
  lemma SortedUnique(outputs: seq<Output>, sorted: seq<Output>)
    requires PathsApart(outputs) && forall o :: o in outputs ==> Plain(o.path)
    requires multiset(sorted) == multiset(outputs) && Ordered(OutputLess, sorted)
    ensures sorted == Sort(OutputLess, outputs)
  {
    hide PathsApart, Plain, NoTies, PathText, Sort, Ordered;
    SameMembers(sorted, outputs);
    PathsApartPermuted(outputs, sorted);
    NoTiedOutputs(sorted);
    SingleKeyOrder(OutputLess, (o: Output) => PathText(o.path));
    SortMembers(OutputLess, outputs);
    SortOrdered(OutputLess, outputs);
    OrderedUnique(OutputLess, sorted, Sort(OutputLess, outputs));
  }

  /** A plan holds what is rendered, each path once and in its place, in the order of the paths. */
  lemma PlanIsPlanned(g: Generator, loaded: Loaded, plan: seq<Output>)
    requires SkillsNamed(loaded.skills) && PathsApart(Rendered(g, loaded))
    requires multiset(plan) == multiset(Rendered(g, loaded)) && Ordered(OutputLess, plan)
    ensures Planned(AGENT_LAYOUT, plan) && InPathOrder(plan)
  {
    hide RenderContract, RenderSkills, PlannedPath, Ordered, PathText, PathsApart;
    RenderedPlaced(g, loaded);
    SameMembers(plan, Rendered(g, loaded));
    PathsApartPermuted(Rendered(g, loaded), plan);
    forall i, j | 0 <= i < j < |plan| ensures !PathLess(plan[j].path, plan[i].path) {
      OrderedAt(OutputLess, plan, i, j);
    }
  }

  method PlanOutputs(g: Generator, loaded: Loaded) returns (r: Result<seq<Output>, Problem>)
    requires SkillsNamed(loaded.skills)
    ensures r.Ok? <==> PlanOf(g, loaded).Some?
    ensures r.Ok? ==>
      && r.value == PlanOf(g, loaded).value && multiset(r.value) == multiset(Rendered(g, loaded))
      && Planned(AGENT_LAYOUT, r.value) && InPathOrder(r.value)
  {
    hide RenderSkills, RenderSkill, RenderContract, Sort, Ordered, Plain, PlannedPath, PathText;
    var outputs := RenderContract(g, loaded);
    ContractPaths(g, loaded);
    var seen := Paths(outputs);
    OneMoreSkill(g, loaded.skills, 0);
    for i := 0 to |loaded.skills|
      invariant outputs == RenderContract(g, loaded) + RenderSkills(g, loaded.skills[..i])
      invariant seen == Paths(outputs) && PathsApart(outputs) && LeavesApart(loaded.skills[..i])
    {
      SkillFits(g, loaded, i);
      var problem, all, now := AddSkill(g, outputs, seen, loaded.skills[i]);
      if problem.Some? {
        assert !LeavesApart(loaded.skills);
        return Err(problem.value);
      }
      OneMoreSkill(g, loaded.skills, i + 1);
      outputs, seen := all, now;
    }
    assert loaded.skills[..|loaded.skills|] == loaded.skills;
    var a := new Output[|outputs|](i requires 0 <= i < |outputs| => outputs[i]);
    assert a[..] == outputs;
    SingleKeyOrder(OutputLess, (o: Output) => PathText(o.path));
    SortSlice(a, OutputLess);
    RenderedPlaced(g, loaded);
    SortedUnique(outputs, a[..]);
    PlanIsPlanned(g, loaded, a[..]);
    return Ok(a[..]);
  }
}
