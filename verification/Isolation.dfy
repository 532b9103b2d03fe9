/** Which cameras cannot reach each other's homes, and which homes a viewer can reach
    (src/account.rs, src/backend.rs, src/paths.rs together). */
module Isolation {
  import opened Append
  import opened Options
  import opened Paths
  import opened Containment
  import opened Config
  import opened Ledger
  import opened Accounts
  import opened Store
  import opened StoreKin
  import opened StoreSubtrees
  import opened Backend

  // ------------------------------------------------------------------ two homes

  /** The action works for the camera with this home. */
  ghost predicate ActsFor(s: State, a: Action, home: Path) {
    match a
    case Begin(_, job) => Below(home, job.final)
    case Step(u, _, _) => u in s.ups && Below(home, s.ups[u].job.final)
    case Crash(u) => u in s.ups && Below(home, s.ups[u].job.final)
    case Mkd(p) => home <= p
    case SweepFile(_) => false
    case SweepDir(_) => false
  }

  ghost predicate RunActsFor(s: State, actions: seq<Action>, home: Path)
    decreases |actions|
  {
    actions != [] ==> ActsFor(s, actions[0], home) && RunActsFor(Apply(s, actions[0]), actions[1..], home)
  }

  lemma ActionOutside(s: State, a: Action, mine: Path, other: Path)
    requires ActsFor(s, a, mine) && !(mine <= other) && !(other <= mine)
    ensures Outside(s, a, other)
  {
    var p :=
      match a
      case Begin(_, job) => job.final
      case Step(u, _, _) => s.ups[u].job.final
      case Crash(u) => s.ups[u].job.final
      case Mkd(path) => path
      case SweepFile(path) => path
      case SweepDir(path) => path;
    if mine <= p && other <= p {
      PrefixesCompare(mine, other, p);
    }
  }

  lemma {:induction false} ActsOutside(s: State, actions: seq<Action>, mine: Path, other: Path)
    requires RunActsFor(s, actions, mine) && !(mine <= other) && !(other <= mine)
    ensures RunOutside(s, actions, other)
    decreases |actions|
  {
    if actions != [] {
      ActionOutside(s, actions[0], mine, other);
      ActsOutside(Apply(s, actions[0]), actions[1..], mine, other);
    }
  }

  /** Whatever a camera with home `mine` does, from any reachable archive, over any run and with
      any failures, leaves everything in `other` as it was. */
  ghost predicate Isolated(mine: Path, other: Path) {
    forall d, before, actions :: CameraRun(d, before, actions, mine) ==>
      SameSubtree(Exec(EmptyArchive, before), Exec(Exec(EmptyArchive, before), actions), other)
  }

  ghost predicate CameraRun(d: Discipline, before: seq<Action>, actions: seq<Action>, mine: Path) {
    && Valid(d, EmptyArchive, before) && Valid(d, Exec(EmptyArchive, before), actions)
    && RunActsFor(Exec(EmptyArchive, before), actions, mine)
  }

  predicate HomesApart(mine: Path, other: Path) {
    !(mine <= other) && !(other <= mine)
  }

  /** Two homes are isolated from each other exactly if neither lies in the other. */
  lemma IsolatedExactly(mine: Path, other: Path)
    ensures Isolated(mine, other) <==> HomesApart(mine, other)
  {
    if HomesApart(mine, other) {
      forall d, before, actions | CameraRun(d, before, actions, mine)
        ensures SameSubtree(Exec(EmptyArchive, before), Exec(Exec(EmptyArchive, before), actions), other)
      {
        RunKeepsKin(d, EmptyArchive, before);
        ActsOutside(Exec(EmptyArchive, before), actions, mine, other);
        RunOutsideKeepsSubtree(d, Exec(EmptyArchive, before), actions, other);
      }
    } else {
      NestedInterfere(mine, other, EmptyArchive);
      var made := Mkd((if mine <= other then other else mine) + ["x"]);
      var d := Discipline(true, true, true, true, true);
      RunOne(d, EmptyArchive, made);
      assert [made][1..] == [];
      assert CameraRun(d, [], [made], mine);
      assert Exec(EmptyArchive, []) == EmptyArchive;
    }
  }

  /** A camera whose home contains the other's, or lies in it, makes a directory there. */
  lemma NestedInterfere(mine: Path, other: Path, s: State)
    requires mine <= other || other <= mine
    requires s.names == map[] && (if mine <= other then other else mine) + ["x"] !in s.dirs
    ensures
      var a := Mkd((if mine <= other then other else mine) + ["x"]);
      ActsFor(s, a, mine) && !SameSubtree(s, Apply(s, a), other)
  {
    var p := (if mine <= other then other else mine) + ["x"];
    assert mine <= p && other <= p;
    assert p in Apply(s, Mkd(p)).dirs;
  }

  lemma {:induction false} OwnStepsActFor(d: Discipline, s: State, steps: seq<Action>, u: nat, job: Job, home: Path)
    requires Valid(d, s, steps) && OwnSteps(s, steps, u, job) && Below(home, job.final)
    ensures RunActsFor(s, steps, home)
    decreases |steps|
  {
    if steps != [] {
      OwnStepsGoOn(s, steps, u, job);
      OwnStepsActFor(d, Apply(s, steps[0]), steps[1..], u, job, home);
    }
  }

  /** What `PutFile` does for a camera is such a run. */
  lemma PutActsFor(d: Discipline, s: State, trace: seq<Action>, u: nat, job: Job, home: Path)
    requires Valid(d, s, trace) && OwnRun(trace, u, job) && Below(home, job.final)
    ensures RunActsFor(s, trace, home) && forall p :: SweepFile(p) !in trace
  {
    AfterBegin(s, trace, u, job);
    OwnStepsActFor(d, Apply(s, trace[0]), trace[1..], u, job, home);
  }

  // ------------------------------------------------------------------ cameras

  /** No camera's home is, or lies in, another's: a check to be made when the configuration is
      read. */
  predicate AllHomesApart(cfg: Config) {
    forall i, j :: 0 <= i < |cfg.cameras| && 0 <= j < |cfg.cameras| && i != j ==>
      HomesApart(HomeOf(cfg, cfg.cameras[i]), HomeOf(cfg, cfg.cameras[j]))
  }

  ghost predicate AllIsolated(cfg: Config) {
    forall i, j :: 0 <= i < |cfg.cameras| && 0 <= j < |cfg.cameras| && i != j ==>
      Isolated(HomeOf(cfg, cfg.cameras[i]), HomeOf(cfg, cfg.cameras[j]))
  }

  /** The cameras of a configuration do not interfere exactly if their homes are apart. */
  lemma CamerasIsolatedExactly(cfg: Config)
    ensures AllIsolated(cfg) <==> AllHomesApart(cfg)
    ensures forall cam :: cam in cfg.cameras ==> CameraAccount(cfg, cam).role == Uploader(JoinName(cfg.root, cam.name))
  {
    forall i, j | 0 <= i < |cfg.cameras| && 0 <= j < |cfg.cameras|
      ensures
        var mine, other := HomeOf(cfg, cfg.cameras[i]), HomeOf(cfg, cfg.cameras[j]);
        Isolated(mine, other) <==> HomesApart(mine, other)
    {
      IsolatedExactly(HomeOf(cfg, cfg.cameras[i]), HomeOf(cfg, cfg.cameras[j]));
    }
  }

  /** In particular the cameras of a validated configuration whose names are plain components do
      not interfere. */
  lemma CamerasDoNotInterfere(cfg: Config, parses: string -> bool)
    requires ValidConfig(cfg, parses)
    requires forall cam :: cam in cfg.cameras ==> PlainName(cam.name)
    ensures AllHomesApart(cfg) && AllIsolated(cfg)
  {
    forall i, j | 0 <= i < |cfg.cameras| && 0 <= j < |cfg.cameras| && i != j
      ensures HomesApart(HomeOf(cfg, cfg.cameras[i]), HomeOf(cfg, cfg.cameras[j]))
    {
      var a, b := cfg.cameras[i].name, cfg.cameras[j].name;
      assert i < j ==> a != b;
      assert j < i ==> b != a;
      PlainHome(cfg.root, a);
      PlainHome(cfg.root, b);
      var r := Lexical([], cfg.root);
      assert (r + [a])[|r|] == a && (r + [b])[|r|] == b;
    }
    CamerasIsolatedExactly(cfg);
  }

  lemma PlainHome(root: seq<Comp>, name: string)
    requires PlainName(name)
    ensures Lexical([], JoinName(root, name)) == Lexical([], root) + [name]
  {
    PlainJoin(root, name);
    assert [Name(name)] == Names([name]);
    LexicalNames([], root, [name]);
  }

  const NestedRoot := [Name("srv")]

  /** Two cameras, `a` and `a/b`. */
  function NestedConfig(): Config {
    var cam := (n: string) => CameraCfg(n, None, "", None);
    Config((1, 2), NestedRoot, [cam("a"), cam("a/b")], map[], [], None, Caps(1, None))
  }

  /** Validation does not make that check: it accepts cameras `a` and `a/b`, and the directory
      `b/x` that the first one makes appears in the home of the second. */
  lemma UnplainNamesInterfere(parses: string -> bool)
    ensures
      var cfg, p := NestedConfig(), ["srv", "a", "b", "x"];
      var s := Exec(EmptyArchive, [Mkd(["srv", "a"]), Mkd(["srv", "a", "b"])]);
      && ValidConfig(cfg, parses)
      && HomeOf(cfg, cfg.cameras[0]) == ["srv", "a"] && HomeOf(cfg, cfg.cameras[1]) == ["srv", "a", "b"]
      && PlanMkd(CameraAccount(cfg, cfg.cameras[0]).role, TreeOf(s), [Normal("b"), Normal("x")]) == Success(p)
      && !SameSubtree(s, Apply(s, Mkd(p)), ["srv", "a", "b"])
  {
    var s := Exec(EmptyArchive, [Mkd(["srv", "a"]), Mkd(["srv", "a", "b"])]);
    NestedIsValid(parses);
    TwoHomes(s);
    hide Exec, Apply, PlanMkd, SameSubtree, JoinName, Lexical, ValidConfig, CameraAccount, HomeOf, NestedConfig;
    PlanBelow(TreeOf(s));
    assert ["srv", "a", "b"] + ["x"] == ["srv", "a", "b", "x"];
    NestedInterfere(["srv", "a"], ["srv", "a", "b"], s);
  }

  lemma NestedIsValid(parses: string -> bool)
    ensures
      var cfg := NestedConfig();
      && ValidConfig(cfg, parses) && |cfg.cameras| == 2
      && HomeOf(cfg, cfg.cameras[0]) == ["srv", "a"] && HomeOf(cfg, cfg.cameras[1]) == ["srv", "a", "b"]
      && CameraAccount(cfg, cfg.cameras[0]).role == Uploader(Names(["srv", "a"]))
  {
    NestedNames();
    hide JoinName, Lexical;
  }

  lemma NestedNames()
    ensures JoinName(NestedRoot, "a") == Names(["srv", "a"]) && JoinName(NestedRoot, "a/b") == Names(["srv", "a", "b"])
    ensures Lexical([], Names(["srv", "a"])) == ["srv", "a"]
      && Lexical([], Names(["srv", "a", "b"])) == ["srv", "a", "b"]
  {
    PlainJoin(NestedRoot, "a");
    SplitUnplain();
    assert JoinName(NestedRoot, "a") == [Name("srv"), Name("a")] == Names(["srv", "a"]);
    assert JoinName(NestedRoot, "a/b") == [Name("srv"), Name("a"), Name("b")] == Names(["srv", "a", "b"]);
    hide JoinName;
    LexicalNames([], [], ["srv", "a"]);
    LexicalNames([], [], ["srv", "a", "b"]);
    assert [] + Names(["srv", "a"]) == Names(["srv", "a"]) && [] + Names(["srv", "a", "b"]) == Names(["srv", "a", "b"]);
  }

  lemma PlanBelow(fs: Tree)
    requires LinkFree(fs) && Canonicalize(fs, Names(["srv", "a"])).Some?
    ensures PlanMkd(Uploader(Names(["srv", "a"])), fs, [Normal("b"), Normal("x")]) == Success(["srv", "a", "b", "x"])
  {
    var virt := [Normal("b"), Normal("x")];
    NestedNames();
    NormalsOfVirtual(["b", "x"]);
    assert virt == Virtual(["b", "x"]);
    hide Normals, AnyClimbs, Lexical, Contained, Canonicalize, Names, LinkFree;
    ResolvedExactly(fs, Names(["srv", "a"]), ["b", "x"]);
    assert ["srv", "a"] + ["b", "x"] == ["srv", "a", "b", "x"];
  }

  lemma SplitUnplain()
    ensures CompsOf(Split("a/b", "")) == [Name("a"), Name("b")]
  {
    var s := "a/b";
    assert s[1..] == "/b" && s[1..][1..] == "b";
    assert Split("b", "") == ["b"] by {
      SplitPlain("b", "");
      assert "" + "b" == "b";
    }
    assert Split("/b", "a") == ["a"] + Split("b", "");
    assert Split(s, "") == Split("/b", "" + ['a']);
    assert "" + ['a'] == "a";
    assert ["a", "b"][1..] == ["b"] && ["b"][1..] == [];
    assert CompsOf(["b"]) == [Name("b")] + CompsOf([]);
    assert CompsOf(["a", "b"]) == [Name("a")] + CompsOf(["b"]);
  }

  lemma TwoHomes(s: State)
    requires s == Exec(EmptyArchive, [Mkd(["srv", "a"]), Mkd(["srv", "a", "b"])])
    ensures s.names == map[] && ["srv", "a", "b", "x"] !in s.dirs
    ensures LinkFree(TreeOf(s)) && Canonicalize(TreeOf(s), Names(["srv", "a"])).Some?
  {
    var p, q := ["srv", "a"], ["srv", "a", "b"];
    assert [Mkd(p), Mkd(q)][1..] == [Mkd(q)] && [Mkd(q)][1..] == [];
    assert Exec(EmptyArchive, [Mkd(p), Mkd(q)]) == Apply(Apply(EmptyArchive, Mkd(p)), Mkd(q));
    assert s.names == map[] && s.dirs == (ProperPrefixes(p) + {p}) + (ProperPrefixes(q) + {q});
    forall d | d in s.dirs
      ensures |d| < 4
    {
    }
    assert p[..0] == [] && p[..1] == ["srv"] && p[..0] in ProperPrefixes(p) && p[..1] in ProperPrefixes(p);
    assert IsReal(TreeOf(s), p);
    WalkReal(TreeOf(s), p, 0, 40);
    assert p[0..] == p;
  }

  // ------------------------------------------------------------------ viewers

  /** For a validated configuration, every path a list-scoped viewer resolves lies in the home of a
      declared camera that its scope denotes and that the path names first; without links, at
      exactly the place named. */
  lemma ViewerStaysInScope(cfg: Config, parses: string -> bool, v: ViewerCfg, fs: Tree, virt: seq<VirtualComp>)
    returns (n: string)
    requires ValidConfig(cfg, parses) && v in cfg.viewers && v.scope.List?
    requires Resolve(fs, ScopeOf(cfg, v.scope), virt).Success?
    ensures n in CameraNames(cfg.cameras) && n in Expanded(cfg, v.scope.items)
    ensures Normals(virt) != [] && n == Normals(virt)[0]
    ensures
      var home, r := Canonicalize(fs, JoinName(cfg.root, n)), Resolve(fs, ScopeOf(cfg, v.scope), virt).value;
      && home.Some? && home.value <= r
      && (LinkFree(fs) ==>
            home.value == Lexical([], JoinName(cfg.root, n)) && r == home.value + Normals(virt)[1..])
  {
    var parts := Normals(virt);
    n := parts[0];
    ScopeDenotesCameras(cfg, parses, v, n);
    var home := JoinName(cfg.root, n);
    hide JoinName, Expanded, ValidConfig;
    var _, _ := ResolvedShape(fs, home, parts[1..]);
    if LinkFree(fs) {
      ResolvedExactly(fs, home, parts[1..]);
      WalkLexical(fs, [], home, fs.maxLinks);
    }
  }
}
