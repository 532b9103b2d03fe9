/** The archive stays a tree: no name is a file and a directory, and everything in it has its parent
    directory, with no assumption on the deployment. */
module StoreTree {
  import opened Append
  import opened Store

  ghost predicate TreeInv(s: State) {
    && s.names.Keys !! s.dirs
    && forall p :: Exists(s, p) && p != [] ==> Dir(p) in s.dirs
  }

  /** New directories, each with its parent. */
  lemma CreatingKeepsTree(s: State, t: State, ds: set<Path>)
    requires TreeInv(s) && t.names == s.names && t.dirs == s.dirs + ds && ds !! s.names.Keys
    requires forall p :: p in ds && p != [] ==> Dir(p) in ds
    ensures TreeInv(t)
  {
  }

  lemma PrefixesHaveParents(p: Path, k: nat)
    ensures forall q :: q in ProperPrefixes(p) && q != [] ==> Dir(q) in ProperPrefixes(p)
    ensures forall q :: q in FirstPrefixes(p, k) && q != [] ==> Dir(q) in FirstPrefixes(p, k)
    ensures p != [] ==> Dir(p) in ProperPrefixes(p)
  {
    forall q | q in ProperPrefixes(p) && q != []
      ensures Dir(q) in ProperPrefixes(p) && (q in FirstPrefixes(p, k) ==> Dir(q) in FirstPrefixes(p, k))
    {
      assert q == p[..|q|] && Dir(q) == p[..|q| - 1];
    }
    assert p != [] ==> Dir(p) == p[..|p| - 1];
  }

  lemma MkDirsKeepsTree(s: State, u: nat, ok: bool, k: nat)
    requires TreeInv(s) && u in s.ups
    ensures TreeInv(DoMkDirs(s, u, ok, k))
  {
    var final, t := s.ups[u].job.final, DoMkDirs(s, u, ok, k);
    PrefixesHaveParents(final, k);
    if ProperPrefixes(final) !! s.names.Keys {
      CreatingKeepsTree(s, t, if ok then ProperPrefixes(final) else FirstPrefixes(final, k));
    }
  }

  lemma OpenKeepsTree(s: State, u: nat, ok: bool)
    requires TreeInv(s) && u in s.ups
    ensures TreeInv(DoOpen(s, u, ok))
  {
    hide StagingPath;
    var t := DoOpen(s, u, ok);
    assert t.dirs == s.dirs;
  }

  lemma LinkKeepsTree(s: State, u: nat, ok: bool)
    requires TreeInv(s) && u in s.ups
    ensures TreeInv(DoLink(s, u, ok))
  {
    var final := s.ups[u].job.final;
    assert Dir(StagingPath(final)) == Dir(final) && StagingPath(final) != [];
    hide StagingPath;
    assert DoLink(s, u, ok).dirs == s.dirs;
  }

  lemma SweepDirKeepsTree(s: State, p: Path)
    requires TreeInv(s) && Enabled(s, SweepDir(p))
    ensures TreeInv(Apply(s, SweepDir(p)))
  {
    forall q | Exists(s, q) && q != []
      ensures Dir(q) != p
    {
      assert Dir(q) < q;
    }
  }

  /** Every action keeps the archive a tree. */
  lemma StepKeepsTree(s: State, a: Action)
    requires TreeInv(s) && Enabled(s, a)
    ensures TreeInv(Apply(s, a))
  {
    match a {
      case Begin(_, _) =>
      case Crash(_) =>
      case SweepFile(_) =>
      case SweepDir(p) => SweepDirKeepsTree(s, p);
      case Mkd(p) =>
        PrefixesHaveParents(p, 0);
        if (ProperPrefixes(p) + {p}) !! s.names.Keys {
          CreatingKeepsTree(s, Apply(s, a), ProperPrefixes(p) + {p});
        }
      case Step(u, ok, k) =>
        var pc := s.ups[u].pc;
        if pc.MkDirs? {
          MkDirsKeepsTree(s, u, ok, k);
        } else if pc.Open? {
          OpenKeepsTree(s, u, ok);
        } else if pc.Link? {
          LinkKeepsTree(s, u, ok);
        } else {
          OtherStepsKeepTree(s, u, ok, k);
        }
    }
  }

  lemma OtherStepsKeepTree(s: State, u: nat, ok: bool, k: nat)
    requires TreeInv(s) && u in s.ups && s.ups[u].Active()
    requires !s.ups[u].pc.MkDirs? && !s.ups[u].pc.Open? && !s.ups[u].pc.Link?
    ensures TreeInv(DoStep(s, u, ok, k))
  {
    hide StagingPath, ProperPrefixes, Cells, WriteAt, Content, ReportedSize, AfterCheck, AfterSize, AfterCopy;
    assert DoStep(s, u, ok, k).dirs == s.dirs && DoStep(s, u, ok, k).names.Keys <= s.names.Keys;
  }

  lemma {:induction false} RunKeepsTree(d: Discipline, s: State, actions: seq<Action>)
    requires TreeInv(s) && Valid(d, s, actions)
    ensures TreeInv(Exec(s, actions))
    decreases |actions|
  {
    if actions != [] {
      StepKeepsTree(s, actions[0]);
      RunKeepsTree(d, Apply(s, actions[0]), actions[1..]);
    }
  }
}
