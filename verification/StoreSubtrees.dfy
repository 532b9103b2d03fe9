/** Subtrees of the archive: what runs of the store leave alone, with no assumption on the
    deployment. Used for the isolation of cameras and of the quarantine. */
module StoreSubtrees {
  import opened Append
  import opened Store
  import opened StoreKin
  import opened StoreImmutability

  /** The action works on nothing in the subtree of `home`. */
  ghost predicate Outside(s: State, a: Action, home: Path) {
    match a
    case Begin(_, job) => !Below(home, job.final)
    case Step(u, _, _) => u in s.ups ==> !Below(home, s.ups[u].job.final)
    case Crash(u) => u in s.ups ==> !Below(home, s.ups[u].job.final)
    case Mkd(p) => !(home <= p)
    case SweepFile(p) => !Below(home, p)
    case SweepDir(p) => !(home <= p)
  }

  ghost predicate RunOutside(s: State, actions: seq<Action>, home: Path)
    decreases |actions|
  {
    actions != [] ==> Outside(s, actions[0], home) && RunOutside(Apply(s, actions[0]), actions[1..], home)
  }

  /** The name is bound to the same inode with the same content, or in neither state. */
  ghost predicate SameFile(s: State, t: State, p: Path) {
    (p in t.names <==> p in s.names) && (p in s.names ==> Kept(s, t, p))
  }

  ghost predicate SameSubtree(s: State, t: State, home: Path) {
    && (forall p :: Below(home, p) ==> SameFile(s, t, p))
    && (forall q :: home <= q ==> (q in t.dirs <==> q in s.dirs))
  }

  /** The files of one directory are under the same homes. */
  lemma BelowByDirectory(home: Path, p: Path, q: Path)
    requires p != [] && q != [] && Dir(p) == Dir(q)
    ensures Below(home, p) <==> Below(home, q)
  {
    assert home <= p && |home| < |p| ==> Dir(q)[..|home|] == home;
    assert home <= q && |home| < |q| ==> Dir(p)[..|home|] == home;
  }

  lemma KinDirectory(p: Path, q: Path)
    requires Kin(p) == Kin(q)
    ensures Dir(p) == Dir(q)
  {
    assert Dir(Kin(p)) == Dir(p) && Dir(Kin(q)) == Dir(q);
  }

  /** Upload `x` neither binds, nor removes, nor writes the file `p`. */
  ghost predicate Apart(s: State, x: Upload, p: Path) {
    && p != x.job.final && p != x.job.Target() && p != StagingPath(x.job.final)
    && (p in s.names && x.job.Target() in s.names ==> s.names[p] != s.names[x.job.Target()])
    && (p in s.names && x.Holding() ==> s.names[p] != x.handle)
  }

  /** Uploads work on files of their own kin. */
  lemma OtherKinIsApart(s: State, u: nat, p: Path)
    requires KinInv(s) && u in s.ups && Kin(p) != Kin(s.ups[u].job.final)
    ensures Apart(s, s.ups[u], p)
  {
    var x := s.ups[u];
    StagingKin(x.job);
    TargetKin(x.job);
    hide Kin, WfJob;
    if x.Holding() {
      assert HandleKin(s, x.handle, x.job.final);
    }
  }

  lemma ApartKeepsFile(s: State, a: Action, p: Path)
    requires KinInv(s) && Enabled(s, a) && a != SweepFile(p) && (a.Step? ==> Apart(s, s.ups[a.u], p))
    ensures SameFile(s, Apply(s, a), p)
  {
    hide WfJob, Kin, WfPath, StagingPath, ProperPrefixes, WriteAt, Cells;
    if a.Step? {
      var x := s.ups[a.u];
      if x.pc.Open? {
        hide DoWrite, DoLink;
      } else if x.pc.Copy? {
        hide DoOpen, DoLink;
      } else if !x.pc.Link? {
        StepShape(s, a.u, a.ok, a.k);
        hide DoStep;
      }
    }
  }

  lemma OutsideStepKeepsFile(s: State, a: Action, home: Path, p: Path)
    requires KinInv(s) && Enabled(s, a) && Outside(s, a, home) && Below(home, p)
    ensures SameFile(s, Apply(s, a), p)
  {
    if a.Step? {
      var j := s.ups[a.u].job;
      if Kin(p) == Kin(j.final) {
        assert WfJob(j);
        KinDirectory(p, j.final);
        BelowByDirectory(home, p, j.final);
        assert false;
      }
      OtherKinIsApart(s, a.u, p);
    }
    ApartKeepsFile(s, a, p);
  }

  lemma OutsideStepKeepsDirs(s: State, a: Action, home: Path)
    requires Enabled(s, a) && Outside(s, a, home)
    ensures forall q :: home <= q ==> (q in Apply(s, a).dirs <==> q in s.dirs)
  {
    hide WfJob, StagingPath, WriteAt, Cells;
    if a.Step? {
      PrefixesOutside(home, s.ups[a.u].job.final);
    } else if a.Mkd? {
      forall q | q in ProperPrefixes(a.path) + {a.path}
        ensures !(home <= q)
      {
        assert q <= a.path;
      }
    }
    hide ProperPrefixes;
  }

  lemma PrefixesOutside(home: Path, p: Path)
    requires !Below(home, p)
    ensures forall q :: q in ProperPrefixes(p) ==> !(home <= q)
  {
    forall q | q in ProperPrefixes(p)
      ensures !(home <= q)
    {
      assert q <= p && |q| < |p|;
    }
  }

  /** Over any run that works outside `home`, the subtree of `home` does not change. */
  lemma {:induction false} RunOutsideKeepsSubtree(d: Discipline, s: State, actions: seq<Action>, home: Path)
    requires KinInv(s) && Valid(d, s, actions) && RunOutside(s, actions, home)
    ensures SameSubtree(s, Exec(s, actions), home)
    decreases |actions|
  {
    if actions != [] {
      var a, t := actions[0], Apply(s, actions[0]);
      StepKeepsKin(s, a);
      OutsideStepKeepsDirs(s, a, home);
      forall p | Below(home, p)
        ensures SameFile(s, t, p)
      {
        OutsideStepKeepsFile(s, a, home, p);
      }
      RunOutsideKeepsSubtree(d, t, actions[1..], home);
      forall p | Below(home, p)
        ensures SameFile(s, Exec(s, actions), p)
      {
        assert SameFile(s, t, p) && SameFile(t, Exec(s, actions), p);
      }
    }
  }

  // ------------------------------------------------------------------ the run of one upload

  /** The rest of a run of upload `u`, which works for `job`. */
  ghost predicate OwnSteps(s: State, steps: seq<Action>, u: nat, job: Job) {
    && u in s.ups && s.ups[u].job == job
    && forall i :: 0 <= i < |steps| ==> steps[i].Step? && steps[i].u == u
  }

  lemma AfterBegin(s: State, trace: seq<Action>, u: nat, job: Job)
    requires OwnRun(trace, u, job)
    ensures OwnSteps(Apply(s, trace[0]), trace[1..], u, job)
  {
  }

  lemma OwnStepsGoOn(s: State, steps: seq<Action>, u: nat, job: Job)
    requires OwnSteps(s, steps, u, job) && steps != [] && Enabled(s, steps[0])
    ensures OwnSteps(Apply(s, steps[0]), steps[1..], u, job)
  {
    StepShape(s, u, steps[0].ok, steps[0].k);
    hide DoStep;
  }

  lemma {:induction false} OwnStepsKeepOthers(d: Discipline, s: State, steps: seq<Action>, u: nat, job: Job, p: Path)
    requires KinInv(s) && Valid(d, s, steps) && OwnSteps(s, steps, u, job) && Kin(p) != Kin(job.final)
    ensures SameFile(s, Exec(s, steps), p)
    decreases |steps|
  {
    if steps != [] {
      var t := Apply(s, steps[0]);
      OtherKinIsApart(s, u, p);
      ApartKeepsFile(s, steps[0], p);
      StepKeepsKin(s, steps[0]);
      OwnStepsGoOn(s, steps, u, job);
      OwnStepsKeepOthers(d, t, steps[1..], u, job, p);
      assert SameFile(s, t, p) && SameFile(t, Exec(s, steps), p);
    }
  }

  /** A store changes, binds and removes no name but those of its own kin: its final name, its
      staging name, and names that only add staging suffixes to it or drop them. */
  lemma OwnRunKeepsOthers(d: Discipline, s: State, trace: seq<Action>, u: nat, job: Job, p: Path)
    requires KinInv(s) && Valid(d, s, trace) && OwnRun(trace, u, job) && Kin(p) != Kin(job.final)
    ensures SameFile(s, Exec(s, trace), p)
  {
    StepKeepsKin(s, trace[0]);
    AfterBegin(s, trace, u, job);
    OwnStepsKeepOthers(d, Apply(s, trace[0]), trace[1..], u, job, p);
    assert SameFile(s, Apply(s, trace[0]), p);
  }

  lemma {:induction false} OwnStepsOutside(s: State, steps: seq<Action>, u: nat, job: Job, d: Discipline, other: Path)
    requires Valid(d, s, steps) && OwnSteps(s, steps, u, job) && !Below(other, job.final)
    ensures RunOutside(s, steps, other)
    decreases |steps|
  {
    if steps != [] {
      OwnStepsGoOn(s, steps, u, job);
      OwnStepsOutside(Apply(s, steps[0]), steps[1..], u, job, d, other);
    }
  }

  /** A store leaves alone every directory its final name does not lie in. */
  lemma OwnRunKeepsSubtree(d: Discipline, s: State, trace: seq<Action>, u: nat, job: Job, other: Path)
    requires KinInv(s) && Valid(d, s, trace) && OwnRun(trace, u, job) && !Below(other, job.final)
    ensures SameSubtree(s, Exec(s, trace), other)
  {
    AfterBegin(s, trace, u, job);
    OwnStepsOutside(Apply(s, trace[0]), trace[1..], u, job, d, other);
    RunOutsideKeepsSubtree(d, s, trace, other);
  }

  /** Under the discipline a store keeps every finalized capture, whatever its name. */
  lemma OwnRunKeepsFinalized(d: Discipline, s: State, trace: seq<Action>, u: nat, job: Job, F: Path)
    requires StoreInv(d, s, F) && KeepsBytes(d, F) && CaptureName(F) && F in s.names
    requires Valid(d, s, trace) && OwnRun(trace, u, job)
    ensures Kept(s, Exec(s, trace), F)
  {
    RunKeepsBytes(d, s, trace, F);
  }

  // ------------------------------------------------------------------ the quarantine

  /** In every run, whatever is interleaved, no step of a quarantine upload creates, removes or
      changes a file that is not itself named like a probe, be it final or staging. */
  lemma QuarantineApart(d: Discipline, run: seq<Action>, a: Action, p: Path)
    requires Valid(d, EmptyArchive, run) && Enabled(Exec(EmptyArchive, run), a) && !IsTestPath(p)
    requires a.Step? && Exec(EmptyArchive, run).ups[a.u].job.mode == Quarantine
    ensures SameFile(Exec(EmptyArchive, run), Apply(Exec(EmptyArchive, run), a), p)
  {
    var s := Exec(EmptyArchive, run);
    RunKeepsKin(d, EmptyArchive, run);
    assert WfJob(s.ups[a.u].job);
    KinKeepsTestStatus(p);
    KinKeepsTestStatus(s.ups[a.u].job.final);
    OtherKinIsApart(s, a.u, p);
    ApartKeepsFile(s, a, p);
  }
}
