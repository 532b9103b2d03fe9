/** The retention sweep (src/retention.rs): a recursive walk that deletes expired files and prunes
    emptied directories as it goes, proved to be filter-then-prune on the whole tree. */
module Retention {
  import opened Append

  datatype Ttls = Ttls(retention: nat, quarantine: nat, staging: nat)

  /** Files with their modification times, and directories, by absolute path. */
  datatype Fs = Fs(files: map<Path, nat>, dirs: set<Path>)

  /** A file from the future has no age. */
  predicate OlderThan(mtime: nat, ttl: nat, now: nat) {
    mtime <= now && now - mtime > ttl
  }

  function TtlOf(p: Path, ttls: Ttls): nat {
    if Last(Dir(p)) == QUARANTINE_DIR then ttls.quarantine
    else if EndsWith(Last(p), STAGING_SUFFIX) then ttls.staging
    else ttls.retention
  }

  predicate Expired(fs: Fs, p: Path, ttls: Ttls, now: nat)
    requires p in fs.files
  {
    OlderThan(fs.files[p], TtlOf(p, ttls), now)
  }

  // ------------------------------------------------------------------ filter, then prune

  /** Some file strictly below `q` has not expired. */
  ghost predicate HasSurvivor(fs: Fs, q: Path, ttls: Ttls, now: nat) {
    exists p :: p in fs.files && Below(q, p) && !Expired(fs, p, ttls, now)
  }

  /** Below `d`: the unexpired files, and the directories with an unexpired file below them. */
  ghost function Swept(fs: Fs, d: Path, ttls: Ttls, now: nat): Fs {
    Fs(map p | p in fs.files && !(Below(d, p) && Expired(fs, p, ttls, now)) :: fs.files[p],
       set q | q in fs.dirs && (Below(d, q) ==> HasSurvivor(fs, q, ttls, now)))
  }

  /** A file below the swept root stays exactly if its age is at most the ttl of where it lies: in a
      quarantine directory, under a name with the staging suffix, or anywhere else. */
  lemma FileStaysExactly(fs: Fs, d: Path, ttls: Ttls, now: nat, F: Path)
    requires F in fs.files && Below(d, F)
    ensures
      F in Swept(fs, d, ttls, now).files <==>
        now <= fs.files[F] + (if Last(Dir(F)) == QUARANTINE_DIR then ttls.quarantine
                              else if EndsWith(Last(F), STAGING_SUFFIX) then ttls.staging
                              else ttls.retention)
    ensures
      Expired(fs, F, ttls, now) <==>
        now > fs.files[F] + (if Last(Dir(F)) == QUARANTINE_DIR then ttls.quarantine
                             else if EndsWith(Last(F), STAGING_SUFFIX) then ttls.staging
                             else ttls.retention)
  {
  }

  /** What ttl an upload's names have outside a quarantine directory: the staging ttl for every
      staging name, the retention for every name that does not end in the staging suffix. */
  lemma UploadTtls(p: Path, ttls: Ttls)
    requires p != [] && Last(Dir(p)) != QUARANTINE_DIR
    ensures TtlOf(StagingPath(p), ttls) == ttls.staging
    ensures !IsStagingName(p) && Last(p) != STAGING_SUFFIX ==> TtlOf(p, ttls) == ttls.retention
  {
    var s := Last(p) + STAGING_SUFFIX;
    assert Last(StagingPath(p)) == s && Dir(StagingPath(p)) == Dir(p);
    assert s[|s| - |STAGING_SUFFIX|..] == STAGING_SUFFIX;
    if EndsWith(Last(p), STAGING_SUFFIX) && |Last(p)| == |STAGING_SUFFIX| {
      assert Last(p)[0..] == Last(p);
    }
  }

  /** A directory below the swept root stays exactly if a file below it stays. */
  lemma DirStaysExactly(fs: Fs, d: Path, ttls: Ttls, now: nat, q: Path)
    requires q in fs.dirs && Below(d, q)
    ensures
      var after := Swept(fs, d, ttls, now);
      q in after.dirs <==> exists p :: p in after.files && Below(q, p)
  {
    var after := Swept(fs, d, ttls, now);
    if q in after.dirs {
      var p :| p in fs.files && Below(q, p) && !Expired(fs, p, ttls, now);
      assert p in after.files;
    }
    if exists p :: p in after.files && Below(q, p) {
      var p :| p in after.files && Below(q, p);
      assert p in fs.files && Below(d, p) && !Expired(fs, p, ttls, now);
    }
  }

  ghost predicate Wf(fs: Fs) {
    && fs.files.Keys !! fs.dirs
    && forall p :: p in fs.files || p in fs.dirs ==> p != [] ==> Dir(p) in fs.dirs
  }

  /** Surviving files are the same before and after any sweep at an earlier time. */
  lemma SurvivorsAbsorb(fs: Fs, d: Path, ttls: Ttls, t1: nat, t2: nat, q: Path)
    requires t1 <= t2
    ensures HasSurvivor(Swept(fs, d, ttls, t1), q, ttls, t2) <==> HasSurvivor(fs, q, ttls, t2)
  {
    var once := Swept(fs, d, ttls, t1);
    if HasSurvivor(fs, q, ttls, t2) {
      var p :| p in fs.files && Below(q, p) && !Expired(fs, p, ttls, t2);
      assert p in once.files && !Expired(once, p, ttls, t2);
    }
    if HasSurvivor(once, q, ttls, t2) {
      var p :| p in once.files && Below(q, p) && !Expired(once, p, ttls, t2);
      assert p in fs.files && !Expired(fs, p, ttls, t2);
    }
  }

  lemma SurvivorsOnlyAge(fs: Fs, q: Path, ttls: Ttls, t1: nat, t2: nat)
    requires t1 <= t2 && HasSurvivor(fs, q, ttls, t2)
    ensures HasSurvivor(fs, q, ttls, t1)
  {
    var p :| p in fs.files && Below(q, p) && !Expired(fs, p, ttls, t2);
    assert !Expired(fs, p, ttls, t1);
  }

  /** Sweeping at `t1` and again at a later `t2` leaves what one sweep at `t2` leaves. */
  lemma SweepAbsorbs(fs: Fs, d: Path, ttls: Ttls, t1: nat, t2: nat)
    requires t1 <= t2
    ensures Swept(Swept(fs, d, ttls, t1), d, ttls, t2) == Swept(fs, d, ttls, t2)
  {
    forall q | q in fs.dirs
      ensures q in Swept(Swept(fs, d, ttls, t1), d, ttls, t2).dirs <==> q in Swept(fs, d, ttls, t2).dirs
    {
      SurvivorsAbsorb(fs, d, ttls, t1, t2, q);
      if HasSurvivor(fs, q, ttls, t2) {
        SurvivorsOnlyAge(fs, q, ttls, t1, t2);
      }
    }
  }

  /** Sweeps of any two directories, nested or not, commute. */
  lemma SweepsCommute(fs: Fs, a: Path, b: Path, ttls: Ttls, now: nat)
    ensures Swept(Swept(fs, a, ttls, now), b, ttls, now) == Swept(Swept(fs, b, ttls, now), a, ttls, now)
  {
    forall q
      ensures HasSurvivor(Swept(fs, a, ttls, now), q, ttls, now) <==> HasSurvivor(Swept(fs, b, ttls, now), q, ttls, now)
      ensures HasSurvivor(Swept(fs, a, ttls, now), q, ttls, now) <==> HasSurvivor(fs, q, ttls, now)
    {
      SurvivorsAbsorb(fs, a, ttls, now, now, q);
      SurvivorsAbsorb(fs, b, ttls, now, now, q);
    }
  }

  /** After a sweep no directory below the root is empty, and none of the files below it has
      expired. */
  lemma NothingLeftToSweep(fs: Fs, d: Path, ttls: Ttls, now: nat, q: Path)
    requires Wf(fs)
    ensures
      var after := Swept(fs, d, ttls, now);
      && (q in after.files && Below(d, q) ==> !Expired(after, q, ttls, now))
      && (q in after.dirs && Below(d, q) ==> HasEntry(after, q))
      && Wf(after)
  {
    var after := Swept(fs, d, ttls, now);
    SweptIsWf(fs, d, ttls, now);
    if q in after.dirs && Below(d, q) {
      SurvivorsAbsorb(fs, d, ttls, now, now, q);
      EntryOfSurvivor(after, q, ttls, now);
    }
  }

  lemma SweptIsWf(fs: Fs, d: Path, ttls: Ttls, now: nat)
    requires Wf(fs)
    ensures Wf(Swept(fs, d, ttls, now))
  {
    var after := Swept(fs, d, ttls, now);
    forall p | (p in after.files || p in after.dirs) && p != []
      ensures Dir(p) in after.dirs
    {
      if Below(d, Dir(p)) {
        if p in after.files {
          assert Below(Dir(p), p) && Below(d, p) && !Expired(fs, p, ttls, now);
        } else {
          var f :| f in fs.files && Below(p, f) && !Expired(fs, f, ttls, now);
          assert Below(Dir(p), f);
        }
      }
    }
  }

  // ------------------------------------------------------------------ one directory

  ghost function Children(fs: Fs, d: Path): set<Path> {
    set p | p in fs.files.Keys + fs.dirs && p != [] && Dir(p) == d
  }

  ghost predicate HasEntry(fs: Fs, d: Path) {
    Children(fs, d) != {}
  }

  /** `p` is, or is below, one of the children `done` of `d`. */
  predicate Visited(d: Path, done: set<Path>, p: Path) {
    Below(d, p) && p[..|d| + 1] in done
  }

  /** The tree while the children `done` of `d` have been visited. */
  ghost function Partial(fs: Fs, d: Path, done: set<Path>, ttls: Ttls, now: nat): Fs {
    Fs(map p | p in fs.files && !(Visited(d, done, p) && Expired(fs, p, ttls, now)) :: fs.files[p],
       set q | q in fs.dirs && (Visited(d, done, q) ==> HasSurvivor(fs, q, ttls, now)))
  }

  lemma {:induction false} AncestorsExist(fs: Fs, p: Path, k: nat)
    requires Wf(fs) && (p in fs.files || p in fs.dirs) && k <= |p|
    ensures k < |p| ==> p[..k] in fs.dirs
    decreases |p|
  {
    if k < |p| {
      assert Dir(p) in fs.dirs;
      if k < |p| - 1 {
        AncestorsExist(fs, Dir(p), k);
        assert Dir(p)[..k] == p[..k];
      }
    }
  }

  lemma AllVisited(fs: Fs, d: Path)
    requires Wf(fs)
    ensures forall p :: (p in fs.files || p in fs.dirs) ==> (Visited(d, Children(fs, d), p) <==> Below(d, p))
  {
    forall p | (p in fs.files || p in fs.dirs) && Below(d, p)
      ensures Visited(d, Children(fs, d), p)
    {
      AncestorsExist(fs, p, |d| + 1);
      var c := p[..|d| + 1];
      assert Dir(c) == d && (c == p || c in fs.dirs);
    }
  }

  lemma PartialAll(fs: Fs, d: Path, ttls: Ttls, now: nat)
    requires Wf(fs)
    ensures Partial(fs, d, Children(fs, d), ttls, now) == Swept(fs, d, ttls, now)
  {
    AllVisited(fs, d);
    hide Visited, Children;
  }

  /** A directory with a surviving file below it has an entry. */
  lemma EntryOfSurvivor(fs: Fs, q: Path, ttls: Ttls, now: nat)
    requires Wf(fs) && HasSurvivor(fs, q, ttls, now)
    ensures HasEntry(fs, q)
  {
    var p :| p in fs.files && Below(q, p) && !Expired(fs, p, ttls, now);
    AncestorsExist(fs, p, |q| + 1);
    var c := p[..|q| + 1];
    assert |c| == |q| + 1 && Dir(c) == q;
    assert c in fs.dirs || c == p;
    assert c in Children(fs, q);
  }

  /** After its subtree is swept, a directory has an entry exactly if it has a survivor. */
  lemma EntryIffSurvivor(fs: Fs, c: Path, ttls: Ttls, now: nat)
    requires Wf(fs) && c in fs.dirs
    ensures HasEntry(Swept(fs, c, ttls, now), c) <==> HasSurvivor(fs, c, ttls, now)
  {
    var after := Swept(fs, c, ttls, now);
    SweptIsWf(fs, c, ttls, now);
    SurvivorsAbsorb(fs, c, ttls, now, now, c);
    if HasSurvivor(fs, c, ttls, now) {
      EntryOfSurvivor(after, c, ttls, now);
    }
    if HasEntry(after, c) {
      var e :| e in Children(after, c);
      assert Below(c, e);
      if e in after.dirs {
        var p :| p in fs.files && Below(e, p) && !Expired(fs, p, ttls, now);
        assert Below(c, p);
      } else {
        assert !Expired(fs, e, ttls, now);
      }
    }
  }

  /** Visiting a child that is a file. */
  lemma VisitFileStep(fs: Fs, d: Path, done: set<Path>, c: Path, ttls: Ttls, now: nat)
    requires Wf(fs) && c in fs.files && c != [] && Dir(c) == d && c !in done
    ensures
      var m := Partial(fs, d, done, ttls, now);
      && c in m.files && m.files[c] == fs.files[c]
      && Partial(fs, d, done + {c}, ttls, now)
         == Fs(if Expired(fs, c, ttls, now) then m.files - {c} else m.files, m.dirs)
  {
    var m, next := Partial(fs, d, done, ttls, now), Partial(fs, d, done + {c}, ttls, now);
    VisitedNext(d, done, c, c);
    hide Visited, Expired, HasSurvivor;
    forall p | p in fs.files || p in fs.dirs
      ensures Visited(d, done + {c}, p) <==> Visited(d, done, p) || p == c
    {
      VisitedNext(d, done, c, p);
      FileHasNoEntries(fs, c, p);
    }
    assert forall p :: p in next.files <==> p in m.files && !(p == c && Expired(fs, c, ttls, now));
    assert next.dirs == m.dirs;
  }

  lemma FileHasNoEntries(fs: Fs, c: Path, p: Path)
    requires Wf(fs) && c in fs.files && (p in fs.files || p in fs.dirs)
    ensures !Below(c, p)
  {
    if Below(c, p) {
      assert p[..|c|] == c;
      AncestorsExist(fs, p, |c|);
    }
  }

  /** Visiting a child that is a directory: sweep it, then prune it if that left it empty. */
  lemma VisitDirStep(fs: Fs, d: Path, done: set<Path>, c: Path, ttls: Ttls, now: nat)
    requires Wf(fs) && c in fs.dirs && c != [] && Dir(c) == d && c !in done
    ensures
      var m := Partial(fs, d, done, ttls, now);
      var swept := Swept(m, c, ttls, now);
      && c in swept.dirs
      && (HasEntry(swept, c) <==> HasSurvivor(fs, c, ttls, now))
      && Partial(fs, d, done + {c}, ttls, now)
         == Fs(swept.files, if HasEntry(swept, c) then swept.dirs else swept.dirs - {c})
  {
    var m := Partial(fs, d, done, ttls, now);
    PartialIsWf(fs, d, done, ttls, now);
    SurvivorsOutside(fs, d, done, c, c, ttls, now);
    assert c in m.dirs by {
      assert c[..|d| + 1] == c;
    }
    EntryIffSurvivor(m, c, ttls, now);
    PartialDirs(fs, d, done, c, ttls, now);
    PartialFiles(fs, d, done, c, ttls, now);
    var swept, next := Swept(m, c, ttls, now), Partial(fs, d, done + {c}, ttls, now);
    hide Partial, Swept, HasSurvivor, HasEntry;
    assert next.dirs == if HasEntry(swept, c) then swept.dirs else swept.dirs - {c};
  }

  lemma VisitedNext(d: Path, done: set<Path>, c: Path, p: Path)
    requires c != [] && Dir(c) == d
    ensures Visited(d, done + {c}, p) <==> Visited(d, done, p) || p == c || Below(c, p)
    ensures c !in done && c <= p ==> !Visited(d, done, p)
  {
    assert c <= p ==> p[..|d| + 1] == c && d <= p;
  }

  lemma PartialFiles(fs: Fs, d: Path, done: set<Path>, c: Path, ttls: Ttls, now: nat)
    requires Wf(fs) && c in fs.dirs && c != [] && Dir(c) == d && c !in done
    ensures Partial(fs, d, done + {c}, ttls, now).files == Swept(Partial(fs, d, done, ttls, now), c, ttls, now).files
  {
    var swept, next := Swept(Partial(fs, d, done, ttls, now), c, ttls, now), Partial(fs, d, done + {c}, ttls, now);
    hide Visited;
    forall p
      ensures p in next.files <==> p in swept.files
    {
      VisitedNext(d, done, c, p);
    }
  }

  lemma PartialDirs(fs: Fs, d: Path, done: set<Path>, c: Path, ttls: Ttls, now: nat)
    requires Wf(fs) && c in fs.dirs && c != [] && Dir(c) == d && c !in done
    ensures
      var m := Partial(fs, d, done, ttls, now);
      var swept, next := Swept(m, c, ttls, now), Partial(fs, d, done + {c}, ttls, now);
      && c in swept.dirs
      && forall q :: q in next.dirs <==> q in swept.dirs && (q == c ==> HasSurvivor(fs, c, ttls, now))
  {
    var m := Partial(fs, d, done, ttls, now);
    var swept, next := Swept(m, c, ttls, now), Partial(fs, d, done + {c}, ttls, now);
    hide Visited, HasSurvivor;
    VisitedNext(d, done, c, c);
    forall q
      ensures q in next.dirs <==> q in swept.dirs && (q == c ==> HasSurvivor(fs, c, ttls, now))
    {
      VisitedNext(d, done, c, q);
      if c <= q {
        SurvivorsOutside(fs, d, done, c, q, ttls, now);
      }
    }
  }

  lemma SurvivorsOutside(fs: Fs, d: Path, done: set<Path>, c: Path, q: Path, ttls: Ttls, now: nat)
    requires c != [] && Dir(c) == d && c !in done && c <= q
    ensures HasSurvivor(Partial(fs, d, done, ttls, now), q, ttls, now) <==> HasSurvivor(fs, q, ttls, now)
  {
    var m := Partial(fs, d, done, ttls, now);
    forall p | Below(q, p)
      ensures !Visited(d, done, p)
    {
      assert p[..|d| + 1] == c;
    }
    forall p | p in fs.files && Below(q, p)
      ensures p in m.files && m.files[p] == fs.files[p]
    {
    }
    if HasSurvivor(fs, q, ttls, now) {
      var p :| p in fs.files && Below(q, p) && !Expired(fs, p, ttls, now);
      assert p in m.files && !Expired(m, p, ttls, now);
    }
  }

  lemma PartialIsWf(fs: Fs, d: Path, done: set<Path>, ttls: Ttls, now: nat)
    requires Wf(fs)
    ensures Wf(Partial(fs, d, done, ttls, now))
  {
    var m := Partial(fs, d, done, ttls, now);
    forall p | (p in m.files || p in m.dirs) && p != []
      ensures Dir(p) in m.dirs
    {
      if Visited(d, done, Dir(p)) {
        assert Dir(p)[..|d| + 1] == p[..|d| + 1] && Visited(d, done, p);
        if p in m.files {
          assert Below(Dir(p), p) && !Expired(fs, p, ttls, now);
        } else {
          var f :| f in fs.files && Below(p, f) && !Expired(fs, f, ttls, now);
          assert Below(Dir(p), f);
        }
      }
    }
  }

  // ------------------------------------------------------------------ one removal at a time

  datatype Removal = RemoveFile(path: Path) | RemoveDir(path: Path)

  function Removed(fs: Fs, r: Removal): Fs {
    match r
    case RemoveFile(p) => fs.(files := fs.files - {p})
    case RemoveDir(p) => fs.(dirs := fs.dirs - {p})
  }

  /** What the sweep may remove: an expired file, or an empty directory. */
  ghost predicate MayRemove(fs: Fs, r: Removal, ttls: Ttls, now: nat) {
    match r
    case RemoveFile(p) => p in fs.files && Expired(fs, p, ttls, now)
    case RemoveDir(p) => p in fs.dirs && p != [] && !HasEntry(fs, p)
  }

  function Replay(fs: Fs, log: seq<Removal>): Fs
    decreases |log|
  {
    if log == [] then fs else Replay(Removed(fs, log[0]), log[1..])
  }

  ghost predicate Legal(fs: Fs, log: seq<Removal>, ttls: Ttls, now: nat)
    decreases |log|
  {
    log != [] ==> MayRemove(fs, log[0], ttls, now) && Legal(Removed(fs, log[0]), log[1..], ttls, now)
  }

  lemma {:induction false} ReplaySnoc(fs: Fs, log: seq<Removal>, r: Removal, ttls: Ttls, now: nat)
    requires Legal(fs, log, ttls, now) && MayRemove(Replay(fs, log), r, ttls, now)
    ensures Legal(fs, log + [r], ttls, now) && Replay(fs, log + [r]) == Removed(Replay(fs, log), r)
    decreases |log|
  {
    if log == [] {
      assert [r][1..] == [];
      assert log + [r] == [r];
    } else {
      assert (log + [r])[0] == log[0] && (log + [r])[1..] == log[1..] + [r];
      ReplaySnoc(Removed(fs, log[0]), log[1..], r, ttls, now);
    }
  }
}
