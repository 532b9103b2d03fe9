/** The recursive `visit` of src/retention.rs on a tree updated in place: what it deletes, prunes
    and reports is exactly the filter-then-prune of module Retention. */
module RetentionSweep {
  import opened Append
  import opened Retention

  /** The expired files at or below `c`. */
  ghost function ExpiredAt(fs: Fs, c: Path, ttls: Ttls, now: nat): set<Path> {
    set p | p in fs.files && c <= p && Expired(fs, p, ttls, now)
  }

  ghost function ExpiredBelow(fs: Fs, d: Path, ttls: Ttls, now: nat): set<Path> {
    set p | p in fs.files && Below(d, p) && Expired(fs, p, ttls, now)
  }

  /** The tree after the entry `c` of some directory has been visited. */
  ghost function EntrySwept(fs: Fs, c: Path, ttls: Ttls, now: nat): Fs {
    if c in fs.files then
      Fs(if Expired(fs, c, ttls, now) then fs.files - {c} else fs.files, fs.dirs)
    else
      var swept := Swept(fs, c, ttls, now);
      Fs(swept.files, if HasEntry(swept, c) then swept.dirs else swept.dirs - {c})
  }

  ghost function EmptyDirsAt(fs: Fs, c: Path): set<Path> {
    set q | q in fs.dirs && c <= q && !HasEntry(fs, q)
  }

  ghost function EmptyDirsBelow(fs: Fs, d: Path): set<Path> {
    set q | q in fs.dirs && Below(d, q) && !HasEntry(fs, q)
  }

  /** A dry run reports the directories that are empty already, a real one those it removes. */
  ghost function PrunedAt(fs: Fs, c: Path, ttls: Ttls, now: nat, dryRun: bool): set<Path> {
    if dryRun then EmptyDirsAt(fs, c) else fs.dirs - EntrySwept(fs, c, ttls, now).dirs
  }

  ghost function PrunedBelow(fs: Fs, d: Path, ttls: Ttls, now: nat, dryRun: bool): set<Path> {
    if dryRun then EmptyDirsBelow(fs, d) else fs.dirs - Swept(fs, d, ttls, now).dirs
  }

  /** No path below `d` is longer than `height` more components. */
  ghost predicate Bounded(fs: Fs, d: Path, height: nat) {
    forall p :: (p in fs.files || p in fs.dirs) && d <= p ==> |p| <= |d| + height
  }

  ghost function ExpiredVisited(fs: Fs, d: Path, done: set<Path>, ttls: Ttls, now: nat): set<Path> {
    set p | p in fs.files && Visited(d, done, p) && Expired(fs, p, ttls, now)
  }

  ghost function PrunedVisited(fs: Fs, d: Path, done: set<Path>, ttls: Ttls, now: nat, dryRun: bool): set<Path> {
    if dryRun then set q | q in fs.dirs && Visited(d, done, q) && !HasEntry(fs, q)
    else fs.dirs - Partial(fs, d, done, ttls, now).dirs
  }

  lemma EntryStep(fs: Fs, d: Path, done: set<Path>, c: Path, ttls: Ttls, now: nat)
    requires Wf(fs) && c in Children(fs, d) && c !in done
    ensures
      var m := Partial(fs, d, done, ttls, now);
      && Wf(m) && (c in m.files <==> c in fs.files) && (c in m.dirs <==> c in fs.dirs)
      && EntrySwept(m, c, ttls, now) == Partial(fs, d, done + {c}, ttls, now)
  {
    PartialIsWf(fs, d, done, ttls, now);
    if c in fs.files {
      VisitFileStep(fs, d, done, c, ttls, now);
    } else {
      VisitDirStep(fs, d, done, c, ttls, now);
    }
    VisitedNext(d, done, c, c);
  }

  lemma ExpiredStep(fs: Fs, d: Path, done: set<Path>, c: Path, ttls: Ttls, now: nat)
    requires c in Children(fs, d) && c !in done
    ensures
      var m := Partial(fs, d, done, ttls, now);
      var before, added := ExpiredVisited(fs, d, done, ttls, now), ExpiredAt(fs, c, ttls, now);
      && ExpiredAt(m, c, ttls, now) == added && before !! added
      && ExpiredVisited(fs, d, done + {c}, ttls, now) == before + added
  {
    var m := Partial(fs, d, done, ttls, now);
    hide Visited;
    forall p
      ensures c <= p ==> !Visited(d, done, p)
      ensures Visited(d, done + {c}, p) <==> Visited(d, done, p) || c <= p
    {
      VisitedNext(d, done, c, p);
      assert c <= p <==> p == c || Below(c, p);
    }
    forall p | p in m.files
      ensures m.files[p] == fs.files[p] && (Expired(m, p, ttls, now) <==> Expired(fs, p, ttls, now))
    {
    }
  }

  lemma PrunedStep(fs: Fs, d: Path, done: set<Path>, c: Path, ttls: Ttls, now: nat, dryRun: bool)
    requires Wf(fs) && c in Children(fs, d) && c !in done
    ensures
      var m := if dryRun then fs else Partial(fs, d, done, ttls, now);
      var before, added := PrunedVisited(fs, d, done, ttls, now, dryRun), PrunedAt(m, c, ttls, now, dryRun);
      before !! added && PrunedVisited(fs, d, done + {c}, ttls, now, dryRun) == before + added
  {
    if dryRun {
      hide Visited, HasEntry;
      forall p
        ensures c <= p ==> !Visited(d, done, p)
        ensures Visited(d, done + {c}, p) <==> Visited(d, done, p) || c <= p
      {
        VisitedNext(d, done, c, p);
        assert c <= p <==> p == c || Below(c, p);
      }
    } else {
      EntryStep(fs, d, done, c, ttls, now);
      EntryOnlyRemoves(Partial(fs, d, done, ttls, now), c, ttls, now);
    }
  }

  lemma EntryOnlyRemoves(fs: Fs, c: Path, ttls: Ttls, now: nat)
    ensures EntrySwept(fs, c, ttls, now).dirs <= fs.dirs
  {
  }

  class Sweeper {
    var files: map<Path, nat>
    var dirs: set<Path>
    var deleted: seq<Path>
    var pruned: seq<Path>
    ghost var origin: Fs          // the tree before the sweep
    ghost var log: seq<Removal>   // what was removed since, in order

    ghost function Tree(): Fs
      reads this
    {
      Fs(files, dirs)
    }

    /** The tree is what the removals made so far leave of the one the sweep found. */
    ghost predicate Recorded(ttls: Ttls, now: nat)
      reads this
    {
      Legal(origin, log, ttls, now) && Replay(origin, log) == Tree()
    }

    constructor (files: map<Path, nat>, dirs: set<Path>)
      ensures Tree() == Fs(files, dirs) && deleted == [] && pruned == []
    {
      this.files, this.dirs := files, dirs;
      deleted, pruned := [], [];
      origin, log := Fs(files, dirs), [];
    }

    method ReadDir(d: Path) returns (entries: set<Path>)
      ensures entries == Children(Tree(), d)
    {
      entries := set p | p in files.Keys + dirs && p != [] && Dir(p) == d;
    }

    /** The whole sweep. */
    method Sweep(root: Path, ttls: Ttls, now: nat, dryRun: bool)
      requires Wf(Tree()) && root in dirs
      modifies this
      ensures Tree() == if dryRun then old(Tree()) else Swept(old(Tree()), root, ttls, now)
      ensures multiset(deleted) == multiset(ExpiredBelow(old(Tree()), root, ttls, now))
      ensures multiset(pruned) == multiset(PrunedBelow(old(Tree()), root, ttls, now, dryRun))
      ensures Legal(old(Tree()), log, ttls, now) && Replay(old(Tree()), log) == Tree()
      ensures forall F :: F in files ==> F in old(files) && files[F] == old(files)[F]
      ensures forall F :: F in old(files) ==>
        (F in files <==>
          || dryRun || !Below(root, F)
          || now <= old(files)[F] + (if Last(Dir(F)) == QUARANTINE_DIR then ttls.quarantine
                                     else if EndsWith(Last(F), STAGING_SUFFIX) then ttls.staging
                                     else ttls.retention))
      ensures forall q :: q in dirs <==>
        q in old(dirs) && (!dryRun && Below(root, q) ==> exists F :: F in files && Below(q, F))
      ensures !dryRun ==> multiset(deleted) == multiset(old(files).Keys - files.Keys)
      ensures !dryRun ==> multiset(pruned) == multiset(old(dirs) - dirs)
      ensures forall F :: F in deleted <==>
        && F in old(files) && Below(root, F)
        && now > old(files)[F] + (if Last(Dir(F)) == QUARANTINE_DIR then ttls.quarantine
                                  else if EndsWith(Last(F), STAGING_SUFFIX) then ttls.staging
                                  else ttls.retention)
      ensures dryRun ==> forall q :: q in pruned <==>
        q in old(dirs) && Below(root, q) && forall p :: p in old(files) || p in old(dirs) ==> p == [] || Dir(p) != q
    {
      deleted, pruned := [], [];
      origin, log := Tree(), [];
      ghost var height := TreeHeight(Tree(), files.Keys + dirs);
      Visit(root, ttls, now, dryRun, height);
      hide *;
      SweptFiles(old(Tree()), Tree(), root, ttls, now, dryRun, deleted);
      SweptDirs(old(Tree()), Tree(), root, ttls, now, dryRun, pruned);
    }

    method Visit(d: Path, ttls: Ttls, now: nat, dryRun: bool, ghost height: nat)
      requires Wf(Tree()) && d in dirs && Bounded(Tree(), d, height) && Recorded(ttls, now)
      modifies this
      ensures Recorded(ttls, now) && origin == old(origin)
      ensures Tree() == if dryRun then old(Tree()) else Swept(old(Tree()), d, ttls, now)
      ensures multiset(deleted) == multiset(old(deleted)) + multiset(ExpiredBelow(old(Tree()), d, ttls, now))
      ensures multiset(pruned) == multiset(old(pruned)) + multiset(PrunedBelow(old(Tree()), d, ttls, now, dryRun))
      decreases height, 1
    {
      ghost var t, atDeleted, atPruned := Tree(), multiset(deleted), multiset(pruned);
      var todo := ReadDir(d);
      ghost var done: set<Path> := {};
      VisitStarts(t, d, ttls, now, dryRun);
      hide Wf, Partial, ExpiredVisited, PrunedVisited, Children, Bounded, Recorded;
      hide Swept, EntrySwept, ExpiredAt, PrunedAt, ExpiredBelow, PrunedBelow, EmptyDirsAt, EmptyDirsBelow;
      while todo != {}
        invariant todo + done == Children(t, d) && todo !! done
        invariant Recorded(ttls, now) && origin == old(origin)
        invariant Tree() == if dryRun then t else Partial(t, d, done, ttls, now)
        invariant multiset(deleted) == atDeleted + multiset(ExpiredVisited(t, d, done, ttls, now))
        invariant multiset(pruned) == atPruned + multiset(PrunedVisited(t, d, done, ttls, now, dryRun))
        decreases |todo|
      {
        var c :| c in todo;
        VisitAdds(t, d, done, c, ttls, now, dryRun, height);
        assert Children(t, d) == (todo - {c}) + (done + {c});
        VisitEntry(c, ttls, now, dryRun, height - 1);
        todo, done := todo - {c}, done + {c};
      }
      VisitEnds(t, d, done, ttls, now, dryRun);
    }

    method VisitEntry(c: Path, ttls: Ttls, now: nat, dryRun: bool, ghost height: nat)
      requires Wf(Tree()) && (c in files || (c in dirs && c != [])) && Bounded(Tree(), c, height) && Recorded(ttls, now)
      modifies this
      ensures Recorded(ttls, now) && origin == old(origin)
      ensures Tree() == if dryRun then old(Tree()) else EntrySwept(old(Tree()), c, ttls, now)
      ensures multiset(deleted) == multiset(old(deleted)) + multiset(ExpiredAt(old(Tree()), c, ttls, now))
      ensures multiset(pruned) == multiset(old(pruned)) + multiset(PrunedAt(old(Tree()), c, ttls, now, dryRun))
      decreases height, 2
    {
      if c in dirs {
        ghost var t := Tree();
        Visit(c, ttls, now, dryRun, height);
        DirEntryReport(t, c, ttls, now, dryRun);
        hide Wf, Swept, ExpiredAt, ExpiredBelow, EmptyDirsAt, EmptyDirsBelow, Bounded, PrunedAt, PrunedBelow, Recorded;
        PruneIfEmpty(c, dryRun, ttls, now);
      } else {
        VisitFile(c, ttls, now, dryRun);
      }
    }

    method PruneIfEmpty(c: Path, dryRun: bool, ghost ttls: Ttls, ghost now: nat)
      requires c in dirs && c != [] && Recorded(ttls, now)
      modifies this
      ensures Recorded(ttls, now) && origin == old(origin)
      ensures files == old(files) && deleted == old(deleted)
      ensures dirs == if dryRun || HasEntry(old(Tree()), c) then old(dirs) else old(dirs) - {c}
      ensures pruned == if HasEntry(old(Tree()), c) then old(pruned) else old(pruned) + [c]
    {
      var left := ReadDir(c);
      if left == {} {
        pruned := pruned + [c];
        if !dryRun {
          ReplaySnoc(origin, log, RemoveDir(c), ttls, now);
          dirs := dirs - {c};
          log := log + [RemoveDir(c)];
        }
      }
    }

    method VisitFile(c: Path, ttls: Ttls, now: nat, dryRun: bool)
      requires Wf(Tree()) && c in files && Recorded(ttls, now)
      modifies this
      ensures Recorded(ttls, now) && origin == old(origin)
      ensures Tree() == if dryRun then old(Tree()) else EntrySwept(old(Tree()), c, ttls, now)
      ensures multiset(deleted) == multiset(old(deleted)) + multiset(ExpiredAt(old(Tree()), c, ttls, now))
      ensures multiset(pruned) == multiset(old(pruned)) + multiset(PrunedAt(old(Tree()), c, ttls, now, dryRun))
    {
      FileEntryReport(Tree(), c, ttls, now, dryRun);
      hide Wf, ExpiredAt, PrunedAt;
      if OlderThan(files[c], TtlOf(c, ttls), now) {
        deleted := deleted + [c];
        if !dryRun {
          ReplaySnoc(origin, log, RemoveFile(c), ttls, now);
          files := files - {c};
          log := log + [RemoveFile(c)];
        }
      }
    }
  }

  lemma {:induction false} TreeHeight(fs: Fs, paths: set<Path>) returns (height: nat)
    ensures forall p :: p in paths ==> |p| <= height
    decreases |paths|
  {
    height := 0;
    if paths != {} {
      var p :| p in paths;
      height := TreeHeight(fs, paths - {p});
      height := if height < |p| then |p| else height;
    }
  }

  lemma VisitStarts(t: Fs, d: Path, ttls: Ttls, now: nat, dryRun: bool)
    ensures Partial(t, d, {}, ttls, now) == t
    ensures ExpiredVisited(t, d, {}, ttls, now) == {} && PrunedVisited(t, d, {}, ttls, now, dryRun) == {}
  {
  }

  lemma VisitEnds(t: Fs, d: Path, done: set<Path>, ttls: Ttls, now: nat, dryRun: bool)
    requires Wf(t) && done == Children(t, d)
    ensures Partial(t, d, done, ttls, now) == Swept(t, d, ttls, now)
    ensures ExpiredVisited(t, d, done, ttls, now) == ExpiredBelow(t, d, ttls, now)
    ensures PrunedVisited(t, d, done, ttls, now, dryRun) == PrunedBelow(t, d, ttls, now, dryRun)
  {
    PartialAll(t, d, ttls, now);
    AllVisited(t, d);
    hide Visited, Partial, Swept, HasEntry, Children;
  }

  lemma VisitAdds(t: Fs, d: Path, done: set<Path>, c: Path, ttls: Ttls, now: nat, dryRun: bool, height: nat)
    requires Wf(t) && c in Children(t, d) && c !in done && Bounded(t, d, height)
    ensures
      var m := if dryRun then t else Partial(t, d, done, ttls, now);
      && height > 0 && Wf(m) && (c in m.files || (c in m.dirs && c != [])) && Bounded(m, c, height - 1)
      && (!dryRun ==> EntrySwept(m, c, ttls, now) == Partial(t, d, done + {c}, ttls, now))
      && multiset(ExpiredVisited(t, d, done + {c}, ttls, now))
         == multiset(ExpiredVisited(t, d, done, ttls, now)) + multiset(ExpiredAt(m, c, ttls, now))
      && multiset(PrunedVisited(t, d, done + {c}, ttls, now, dryRun))
         == multiset(PrunedVisited(t, d, done, ttls, now, dryRun)) + multiset(PrunedAt(m, c, ttls, now, dryRun))
  {
    assert d <= c;
    EntryStep(t, d, done, c, ttls, now);
    ExpiredStep(t, d, done, c, ttls, now);
    PrunedStep(t, d, done, c, ttls, now, dryRun);
  }

  /** The report of a visited directory: what lies below it, and itself if it is left empty. */
  lemma DirEntryReport(t: Fs, c: Path, ttls: Ttls, now: nat, dryRun: bool)
    requires Wf(t) && c in t.dirs
    ensures ExpiredAt(t, c, ttls, now) == ExpiredBelow(t, c, ttls, now)
    ensures
      var after := if dryRun then t else Swept(t, c, ttls, now);
      multiset(PrunedAt(t, c, ttls, now, dryRun))
      == multiset(PrunedBelow(t, c, ttls, now, dryRun)) + (if HasEntry(after, c) then multiset{} else multiset{c})
  {
    var below := PrunedBelow(t, c, ttls, now, dryRun);
    var after := if dryRun then t else Swept(t, c, ttls, now);
    forall q | c <= q
      ensures q == c || Below(c, q)
    {
    }
    hide HasEntry;
    assert c !in below;
    assert PrunedAt(t, c, ttls, now, dryRun) == if HasEntry(after, c) then below else below + {c};
  }

  lemma FileEntryReport(t: Fs, c: Path, ttls: Ttls, now: nat, dryRun: bool)
    requires Wf(t) && c in t.files
    ensures ExpiredAt(t, c, ttls, now) == if Expired(t, c, ttls, now) then {c} else {}
    ensures PrunedAt(t, c, ttls, now, dryRun) == {}
  {
    forall p | (p in t.files || p in t.dirs) && c <= p
      ensures p == c
    {
      assert p[..|c|] == c;
      AncestorsExist(t, p, |c|);
      assert |p| <= |c|;
    }
    hide HasEntry;
  }

  /** What a sweep leaves and reports of the files. */
  lemma SweptFiles(t: Fs, after: Fs, root: Path, ttls: Ttls, now: nat, dryRun: bool, deleted: seq<Path>)
    requires after == if dryRun then t else Swept(t, root, ttls, now)
    requires multiset(deleted) == multiset(ExpiredBelow(t, root, ttls, now))
    ensures forall F :: F in after.files ==> F in t.files && after.files[F] == t.files[F]
    ensures forall F :: F in t.files ==>
      (F in after.files <==>
        || dryRun || !Below(root, F)
        || now <= t.files[F] + (if Last(Dir(F)) == QUARANTINE_DIR then ttls.quarantine
                                else if EndsWith(Last(F), STAGING_SUFFIX) then ttls.staging
                                else ttls.retention))
    ensures !dryRun ==> multiset(deleted) == multiset(t.files.Keys - after.files.Keys)
    ensures forall F :: F in deleted <==>
      && F in t.files && Below(root, F)
      && now > t.files[F] + (if Last(Dir(F)) == QUARANTINE_DIR then ttls.quarantine
                             else if EndsWith(Last(F), STAGING_SUFFIX) then ttls.staging
                             else ttls.retention)
  {
    forall F | F in t.files && Below(root, F)
      ensures Expired(t, F, ttls, now) <==>
        now > t.files[F] + (if Last(Dir(F)) == QUARANTINE_DIR then ttls.quarantine
                            else if EndsWith(Last(F), STAGING_SUFFIX) then ttls.staging
                            else ttls.retention)
    {
      FileStaysExactly(t, root, ttls, now, F);
    }
    hide Expired, Below, Last, Dir, EndsWith, HasSurvivor;
    assert forall F :: F in deleted <==> F in ExpiredBelow(t, root, ttls, now) by {
      assert forall F :: F in deleted <==> F in multiset(deleted);
    }
    assert !dryRun ==> t.files.Keys - after.files.Keys == ExpiredBelow(t, root, ttls, now);
  }

  /** The same for the directories. */
  lemma SweptDirs(t: Fs, after: Fs, root: Path, ttls: Ttls, now: nat, dryRun: bool, pruned: seq<Path>)
    requires after == if dryRun then t else Swept(t, root, ttls, now)
    requires multiset(pruned) == multiset(PrunedBelow(t, root, ttls, now, dryRun))
    ensures forall q :: q in after.dirs <==>
      q in t.dirs && (!dryRun && Below(root, q) ==> exists F :: F in after.files && Below(q, F))
    ensures !dryRun ==> multiset(pruned) == multiset(t.dirs - after.dirs)
    ensures dryRun ==> forall q :: q in pruned <==>
      q in t.dirs && Below(root, q) && forall p :: p in t.files || p in t.dirs ==> p == [] || Dir(p) != q
  {
    if dryRun {
      hide Below, Last, Dir;
      assert forall q :: q in pruned <==> q in multiset(pruned);
      forall q
        ensures HasEntry(t, q) <==> exists p :: (p in t.files || p in t.dirs) && p != [] && Dir(p) == q
      {
        if p :| (p in t.files || p in t.dirs) && p != [] && Dir(p) == q {
          assert p in Children(t, q);
        }
      }
    } else {
      forall q | q in t.dirs && Below(root, q)
        ensures q in after.dirs <==> exists F :: F in after.files && Below(q, F)
      {
        DirStaysExactly(t, root, ttls, now, q);
      }
      assert forall q :: q in after.dirs ==> q in t.dirs;
      assert forall q :: q in t.dirs && !Below(root, q) ==> q in after.dirs;
    }
  }

  /** Sweeping again at the same time changes nothing and reports nothing. */
  lemma SecondSweepIsIdle(fs: Fs, d: Path, ttls: Ttls, now: nat, dryRun: bool)
    requires Wf(fs)
    ensures
      var once := Swept(fs, d, ttls, now);
      && Swept(once, d, ttls, now) == once
      && ExpiredBelow(once, d, ttls, now) == {} && PrunedBelow(once, d, ttls, now, dryRun) == {}
  {
    var once := Swept(fs, d, ttls, now);
    SweepAbsorbs(fs, d, ttls, now, now);
    forall q
      ensures q in once.dirs && Below(d, q) ==> HasEntry(once, q)
      ensures q in once.files && Below(d, q) ==> !Expired(once, q, ttls, now)
    {
      NothingLeftToSweep(fs, d, ttls, now, q);
    }
    hide Swept, HasEntry, Expired;
  }

  /** A dry run announces exactly the deletions of the real run, and only directories the real run
      removes too. */
  lemma DryRunAnnounces(fs: Fs, d: Path, ttls: Ttls, now: nat)
    requires Wf(fs)
    ensures PrunedBelow(fs, d, ttls, now, true) <= PrunedBelow(fs, d, ttls, now, false)
    ensures PrunedBelow(fs, d, ttls, now, true) == PrunedBelow(fs, d, ttls, now, false) <==>
              forall q :: q in fs.dirs && Below(d, q) && HasEntry(fs, q) ==> HasSurvivor(fs, q, ttls, now)
  {
    forall q | q in fs.dirs && HasSurvivor(fs, q, ttls, now)
      ensures HasEntry(fs, q)
    {
      EntryOfSurvivor(fs, q, ttls, now);
    }
    var dry, swept := PrunedBelow(fs, d, ttls, now, true), PrunedBelow(fs, d, ttls, now, false);
    forall q
      ensures q in dry <==> q in fs.dirs && Below(d, q) && !HasEntry(fs, q)
      ensures q in swept <==> q in fs.dirs && Below(d, q) && !HasSurvivor(fs, q, ttls, now)
    {
    }
    hide HasEntry, HasSurvivor, PrunedBelow;
    if dry == swept {
      forall q | q in fs.dirs && Below(d, q) && HasEntry(fs, q)
        ensures HasSurvivor(fs, q, ttls, now)
      {
        assert q !in swept;
      }
    }
  }
}
