/** How long a finalized capture lives: the store and the retention sweep (src/backend.rs,
    src/retention.rs) on one archive, with modification times. */
module Lifetime {
  import opened Append
  import opened Options
  import opened Paths
  import opened Containment
  import opened Store
  import opened StoreKin
  import opened StoreImmutability
  import opened StoreTree
  import Retention

  /** An archive, the times its inodes were last modified, and the time. */
  datatype World = World(s: State, mtimes: map<nat, nat>, clock: nat)

  datatype Timed = Timed(at: nat, action: Action)

  const Origin := World(EmptyArchive, map[], 0)

  function Mtime(w: World, i: nat): nat {
    if i in w.mtimes then w.mtimes[i] else 0
  }

  /** The modification time of a bound name. */
  function MtimeOf(w: World, p: Path): nat
    requires p in w.s.names
  {
    Mtime(w, w.s.names[p])
  }

  /** An action at a time. An inode is modified when it is created and when its bytes change. */
  function Tick(w: World, e: Timed): World {
    var t := Apply(w.s, e.action);
    World(t,
          map i | i in t.inodes :: if i in w.s.inodes && t.inodes[i] == w.s.inodes[i] then Mtime(w, i) else e.at,
          e.at)
  }

  /** A write that goes on where the file ends makes its inode as new as the write, and every other
      inode stays as old as it was. */
  lemma WriteStamps(w: World, e: Timed, i: nat)
    requires e.action.Step? && e.action.u in w.s.ups && i in w.s.inodes
    requires
      var x := w.s.ups[e.action.u];
      && x.pc.Copy? && e.action.ok && HasChunk(x, e.action.k) && e.action.k > 0
      && (x.job.mode == Plain || x.pos == |Content(w.s, x.handle)|)
    ensures Mtime(Tick(w, e), i) == if i == w.s.ups[e.action.u].handle then e.at else Mtime(w, i)
  {
    var x := w.s.ups[e.action.u];
    WriteAtExactly(Content(w.s, x.handle), x.pos, Cells(x.job.output, e.action.u, x.pos, e.action.k), 0);
  }

  /** The sweep removes a file only when it is older than the ttl for its name. */
  predicate Timely(w: World, e: Timed, ttls: Retention.Ttls) {
    match e.action
    case SweepFile(p) => p in w.s.names && Retention.OlderThan(MtimeOf(w, p), Retention.TtlOf(p, ttls), e.at)
    case _ => true
  }

  ghost predicate May(d: Discipline, ttls: Retention.Ttls, w: World, e: Timed) {
    w.clock <= e.at && Enabled(w.s, e.action) && Respects(d, w.s, e.action) && Timely(w, e, ttls)
  }

  function Run(w: World, events: seq<Timed>): World
    decreases |events|
  {
    if events == [] then w else Run(Tick(w, events[0]), events[1..])
  }

  ghost predicate Runs(d: Discipline, ttls: Retention.Ttls, w: World, events: seq<Timed>)
    decreases |events|
  {
    events != [] ==> May(d, ttls, w, events[0]) && Runs(d, ttls, Tick(w, events[0]), events[1..])
  }

  // ------------------------------------------------------------------ kept until expired

  /** Every name is bound to an inode that is there. */
  ghost predicate InodesThere(s: State) {
    forall p :: p in s.names ==> s.names[p] in s.inodes
  }

  lemma StepKeepsInodes(s: State, a: Action)
    requires InodesThere(s) && Enabled(s, a)
    ensures InodesThere(Apply(s, a))
  {
    hide WfJob, ProperPrefixes, StagingPath, WriteAt, Cells;
    if a.Step? {
      var x := s.ups[a.u];
      if !x.pc.Open? && !x.pc.Link? && !x.pc.Copy? {
        StepShape(s, a.u, a.ok, a.k);
        hide DoStep;
      }
    }
  }

  /** What a run keeps about the archive and about `F`. */
  ghost predicate Inv(d: Discipline, w: World, F: Path) {
    StoreInv(d, w.s, F) && InodesThere(w.s) && TreeInv(w.s)
  }

  lemma {:induction false} RunKeepsInv(d: Discipline, ttls: Retention.Ttls, w: World, events: seq<Timed>, F: Path)
    requires Inv(d, w, F) && CaptureName(F) && Runs(d, ttls, w, events)
    ensures Inv(d, Run(w, events), F)
    decreases |events|
  {
    if events != [] {
      StepKeepsInv(d, w.s, events[0].action, F);
      StepKeepsInodes(w.s, events[0].action);
      StepKeepsTree(w.s, events[0].action);
      RunKeepsInv(d, ttls, Tick(w, events[0]), events[1..], F);
    }
  }

  /** `F` is bound as it was, with the bytes and the modification time it had. */
  ghost predicate Untouched(w: World, v: World, F: Path) {
    Kept(w.s, v.s, F) && MtimeOf(v, F) == MtimeOf(w, F)
  }

  lemma StepLeavesUntouched(d: Discipline, ttls: Retention.Ttls, w: World, e: Timed, F: Path)
    requires Inv(d, w, F) && KeepsBytes(d, F) && CaptureName(F) && F in w.s.names
    requires May(d, ttls, w, e) && e.at <= MtimeOf(w, F) + Retention.TtlOf(F, ttls)
    ensures Untouched(w, Tick(w, e), F)
  {
    assert e.action != SweepFile(F);
    StepKeepsBytes(d, w.s, e.action, F);
    StepKeepsInodes(w.s, e.action);
  }

  lemma {:induction false} ClockRuns(d: Discipline, ttls: Retention.Ttls, w: World, events: seq<Timed>)
    requires Runs(d, ttls, w, events)
    ensures w.clock <= Run(w, events).clock
    decreases |events|
  {
    if events != [] {
      ClockRuns(d, ttls, Tick(w, events[0]), events[1..]);
    }
  }

  lemma {:induction false} RunLeavesUntouched(d: Discipline, ttls: Retention.Ttls, w: World, events: seq<Timed>,
                                              F: Path)
    requires Inv(d, w, F) && KeepsBytes(d, F) && CaptureName(F) && F in w.s.names
    requires Runs(d, ttls, w, events) && Run(w, events).clock <= MtimeOf(w, F) + Retention.TtlOf(F, ttls)
    ensures Untouched(w, Run(w, events), F)
    decreases |events|
  {
    if events != [] {
      var e, v := events[0], Tick(w, events[0]);
      ClockRuns(d, ttls, v, events[1..]);
      StepLeavesUntouched(d, ttls, w, e, F);
      StepKeepsInv(d, w.s, e.action, F);
      StepKeepsInodes(w.s, e.action);
      StepKeepsTree(w.s, e.action);
      RunLeavesUntouched(d, ttls, v, events[1..], F);
    }
  }

  /** A capture has the retention time, unless it lies in a directory named like the quarantine, or its
      whole name is the staging suffix. */
  lemma CaptureTtl(F: Path, ttls: Retention.Ttls)
    requires CaptureName(F)
    ensures
      Retention.TtlOf(F, ttls) == if Last(Dir(F)) == QUARANTINE_DIR then ttls.quarantine
                                  else if Last(F) == STAGING_SUFFIX then ttls.staging
                                  else ttls.retention
  {
    if |Last(F)| == |STAGING_SUFFIX| {
      assert Last(F)[0..] == Last(F);
    }
  }

  /** Under the discipline, in every run of uploads, crashes and sweeps, a finalized capture keeps
      its name, every byte and its modification time until its age exceeds the retention, or, in a
      quarantine directory or under the bare staging suffix, the ttl for those. */
  lemma KeptUntilExpired(d: Discipline, ttls: Retention.Ttls, before: seq<Timed>, after: seq<Timed>, F: Path)
    requires CaptureName(F) && KeepsBytes(d, F)
    requires Runs(d, ttls, Origin, before) && Runs(d, ttls, Run(Origin, before), after)
    requires F in Run(Origin, before).s.names
    ensures
      var w, v := Run(Origin, before), Run(Run(Origin, before), after);
      v.clock <= MtimeOf(w, F) + (if Last(Dir(F)) == QUARANTINE_DIR then ttls.quarantine
                                  else if Last(F) == STAGING_SUFFIX then ttls.staging
                                  else ttls.retention)
      ==> Untouched(w, v, F)
  {
    CaptureTtl(F, ttls);
    RunKeepsInv(d, ttls, Origin, before, F);
    if Run(Run(Origin, before), after).clock <= MtimeOf(Run(Origin, before), F) + Retention.TtlOf(F, ttls) {
      RunLeavesUntouched(d, ttls, Run(Origin, before), after, F);
    }
  }

  // ------------------------------------------------------------------ the sweep is such a run

  /** The archive as the sweep sees it. */
  ghost predicate Shows(w: World, fs: Retention.Fs) {
    && fs.files.Keys == w.s.names.Keys && fs.dirs == w.s.dirs
    && forall p :: p in w.s.names ==> fs.files[p] == MtimeOf(w, p)
  }

  function AsAction(r: Retention.Removal): Action {
    match r
    case RemoveFile(p) => SweepFile(p)
    case RemoveDir(p) => SweepDir(p)
  }

  /** The removals of one sweep, at time `now`. */
  function Sweeping(log: seq<Retention.Removal>, now: nat): (r: seq<Timed>) {
    seq(|log|, i requires 0 <= i < |log| => Timed(now, AsAction(log[i])))
  }

  /** No upload is active, if the discipline asks the sweep to wait for them. */
  ghost predicate Quiet(d: Discipline, s: State) {
    d.quietSweep ==> forall u :: u in s.ups ==> !s.ups[u].Active()
  }

  /** What the sweep sees of a reachable archive is a tree. */
  lemma ShownIsTree(w: World, fs: Retention.Fs)
    requires Shows(w, fs) && TreeInv(w.s)
    ensures Retention.Wf(fs)
  {
    forall p | p in fs.files || p in fs.dirs
      ensures p != [] ==> Dir(p) in fs.dirs
    {
      assert Exists(w.s, p);
    }
  }

  lemma EntryBelow(fs: Retention.Fs, p: Path, q: Path)
    requires Retention.Wf(fs) && (q in fs.files || q in fs.dirs) && p < q
    ensures Retention.HasEntry(fs, p)
  {
    var c := q[..|p| + 1];
    assert Dir(c) == p;
    Retention.AncestorsExist(fs, q, |p| + 1);
    assert c == q || c in fs.dirs;
    assert c in Retention.Children(fs, p);
  }

  /** A removal changes no inode and no modification time. */
  lemma RemovalKeepsInodes(w: World, e: Timed)
    requires InodesThere(w.s) && (e.action.SweepFile? || e.action.SweepDir?)
    ensures Tick(w, e).s.inodes == w.s.inodes && Tick(w, e).s.ups == w.s.ups && InodesThere(Tick(w, e).s)
    ensures forall p :: p in Tick(w, e).s.names ==> p in w.s.names && MtimeOf(Tick(w, e), p) == MtimeOf(w, p)
  {
  }

  lemma RemoveFileIsStep(d: Discipline, ttls: Retention.Ttls, w: World, fs: Retention.Fs, p: Path, now: nat)
    requires Shows(w, fs) && Retention.Wf(fs) && Quiet(d, w.s) && w.clock <= now && InodesThere(w.s)
    requires Retention.MayRemove(fs, Retention.RemoveFile(p), ttls, now)
    ensures May(d, ttls, w, Timed(now, SweepFile(p)))
    ensures Shows(Tick(w, Timed(now, SweepFile(p))), Retention.Removed(fs, Retention.RemoveFile(p)))
    ensures Retention.Wf(Retention.Removed(fs, Retention.RemoveFile(p)))
  {
    RemovalKeepsInodes(w, Timed(now, SweepFile(p)));
    hide Retention.TtlOf, StagingPath;
  }

  lemma RemoveDirIsStep(d: Discipline, ttls: Retention.Ttls, w: World, fs: Retention.Fs, p: Path, now: nat)
    requires Shows(w, fs) && Retention.Wf(fs) && Quiet(d, w.s) && w.clock <= now && InodesThere(w.s)
    requires Retention.MayRemove(fs, Retention.RemoveDir(p), ttls, now)
    ensures May(d, ttls, w, Timed(now, SweepDir(p)))
    ensures Shows(Tick(w, Timed(now, SweepDir(p))), Retention.Removed(fs, Retention.RemoveDir(p)))
    ensures Retention.Wf(Retention.Removed(fs, Retention.RemoveDir(p)))
  {
    forall q | Exists(w.s, q)
      ensures !(p < q)
    {
      if p < q {
        EntryBelow(fs, p, q);
      }
    }
    forall q | (q in fs.files || q in fs.dirs) && q != []
      ensures Dir(q) != p
    {
      assert Dir(q) == p ==> q in Retention.Children(fs, p);
    }
    RemovalKeepsInodes(w, Timed(now, SweepDir(p)));
    hide Retention.HasEntry, StagingPath;
  }

  /** What the sweep removes, in the order it removes it, is a run of the archive, and what is left
      of the archive is what is left of the tree. */
  lemma {:induction false} SweepIsRun(d: Discipline, ttls: Retention.Ttls, w: World, fs: Retention.Fs,
                                      log: seq<Retention.Removal>, now: nat)
    requires Shows(w, fs) && Retention.Wf(fs) && Quiet(d, w.s) && w.clock <= now && InodesThere(w.s)
    requires Retention.Legal(fs, log, ttls, now)
    ensures Runs(d, ttls, w, Sweeping(log, now))
    ensures Shows(Run(w, Sweeping(log, now)), Retention.Replay(fs, log))
    ensures Run(w, Sweeping(log, now)).clock <= now
    decreases |log|
  {
    if log != [] {
      var e := Timed(now, AsAction(log[0]));
      match log[0] {
        case RemoveFile(p) => RemoveFileIsStep(d, ttls, w, fs, p, now);
        case RemoveDir(p) => RemoveDirIsStep(d, ttls, w, fs, p, now);
      }
      RemovalKeepsInodes(w, e);
      assert Sweeping(log, now)[0] == e && Sweeping(log, now)[1..] == Sweeping(log[1..], now);
      hide Tick, May, Shows, Retention.Wf, InodesThere, Retention.MayRemove;
      SweepIsRun(d, ttls, Tick(w, e), Retention.Removed(fs, log[0]), log[1..], now);
    }
  }

  /** A whole sweep of the archive: a finalized capture below the root whose age exceeds the
      retention (or the ttl of a quarantine directory or of the bare staging suffix) is gone, any other
      is as it was, byte for byte. */
  lemma SweepDecides(d: Discipline, ttls: Retention.Ttls, w: World, fs: Retention.Fs, log: seq<Retention.Removal>,
                     root: Path, now: nat, F: Path)
    requires Inv(d, w, F) && CaptureName(F) && KeepsBytes(d, F) && F in w.s.names
    requires Shows(w, fs) && Quiet(d, w.s) && w.clock <= now
    requires Retention.Legal(fs, log, ttls, now) && Retention.Replay(fs, log) == Retention.Swept(fs, root, ttls, now)
    ensures
      var v := Run(w, Sweeping(log, now));
      var limit := if Last(Dir(F)) == QUARANTINE_DIR then ttls.quarantine
                   else if Last(F) == STAGING_SUFFIX then ttls.staging
                   else ttls.retention;
      if Below(root, F) && now > MtimeOf(w, F) + limit then F !in v.s.names else Kept(w.s, v.s, F)
  {
    CaptureTtl(F, ttls);
    var events := Sweeping(log, now);
    assert forall e :: e in events ==> e.action.SweepFile? || e.action.SweepDir?;
    assert InodesThere(w.s);
    ShownIsTree(w, fs);
    hide *;
    SweepIsRun(d, ttls, w, fs, log, now);
    LeftBySweep(w, Run(w, events), fs, root, ttls, now, F);
    if F in Run(w, events).s.names {
      StaysIfLeft(d, ttls, w, events, F);
    }
  }

  lemma LeftBySweep(w: World, v: World, fs: Retention.Fs, root: Path, ttls: Retention.Ttls, now: nat, F: Path)
    requires Shows(w, fs) && Shows(v, Retention.Swept(fs, root, ttls, now)) && F in w.s.names
    ensures
      F in v.s.names <==> !(Below(root, F) && now > MtimeOf(w, F) + Retention.TtlOf(F, ttls))
  {
    hide Below, Retention.TtlOf;
    assert F in v.s.names <==> F in Retention.Swept(fs, root, ttls, now).files;
  }

  /** A name bound at the end of a run without uploads was bound all along. */
  lemma {:induction false} StaysIfLeft(d: Discipline, ttls: Retention.Ttls, w: World, events: seq<Timed>, F: Path)
    requires Inv(d, w, F) && KeepsBytes(d, F) && CaptureName(F) && F in w.s.names
    requires Runs(d, ttls, w, events) && F in Run(w, events).s.names
    requires forall e :: e in events ==> e.action.SweepFile? || e.action.SweepDir?
    ensures Kept(w.s, Run(w, events).s, F)
    decreases |events|
  {
    if events != [] {
      var e, v := events[0], Tick(w, events[0]);
      if e.action == SweepFile(F) {
        StaysUnbound(v, events[1..], F);
        assert false;
      }
      StepKeepsBytes(d, w.s, e.action, F);
      StepKeepsInv(d, w.s, e.action, F);
      StepKeepsInodes(w.s, e.action);
      StepKeepsTree(w.s, e.action);
      StaysIfLeft(d, ttls, v, events[1..], F);
    }
  }

  lemma {:induction false} StaysUnbound(w: World, events: seq<Timed>, F: Path)
    requires F !in w.s.names && forall e :: e in events ==> e.action.SweepFile? || e.action.SweepDir?
    ensures F !in Run(w, events).s.names
    decreases |events|
  {
    if events != [] {
      assert events[0] in events;
      StaysUnbound(Tick(w, events[0]), events[1..], F);
    }
  }

  // ------------------------------------------------------------------ homes after a sweep

  /** The sweep prunes a camera's home like any other directory: afterwards the camera can resolve
      a path exactly if an unexpired file is left below its home. Otherwise every path without `..` fails
      with NotFound until the home is created again. */
  lemma SweptHomeResolves(fs: Retention.Fs, root: Path, home: Path, ttls: Retention.Ttls, now: nat,
                          virt: seq<VirtualComp>)
    requires Retention.Wf(fs) && home in fs.dirs && Below(root, home) && !AnyClimbs(virt)
    ensures
      var swept := Retention.Swept(fs, root, ttls, now);
      var after := TreeFrom(swept.files.Keys, swept.dirs);
      Resolve(after, Single(Names(home)), virt)
      == if Retention.HasSurvivor(fs, home, ttls, now) then Success(home + Normals(virt)) else Failure(NotFound)
  {
    var swept := Retention.Swept(fs, root, ttls, now);
    Retention.SweptIsWf(fs, root, ttls, now);
    assert home in swept.dirs <==> Retention.HasSurvivor(fs, home, ttls, now);
    assert home !in swept.files;
    hide Retention.Swept, Retention.HasSurvivor;
    if home in swept.dirs {
      StandingHome(swept, home);
      LexicalNames([], [], home);
      assert [] + Names(home) == Names(home) && [] + home == home;
      ResolvedExactly(TreeFrom(swept.files.Keys, swept.dirs), Names(home), Normals(virt));
    } else {
      PrunedHome(swept, home);
    }
  }

  lemma StandingHome(fs: Retention.Fs, home: Path)
    requires Retention.Wf(fs) && home in fs.dirs
    ensures LinkFree(TreeFrom(fs.files.Keys, fs.dirs))
      && Canonicalize(TreeFrom(fs.files.Keys, fs.dirs), Names(home)).Some?
  {
    forall i | 0 <= i <= |home|
      ensures IsDir(TreeFrom(fs.files.Keys, fs.dirs), home[..i])
    {
      Retention.AncestorsExist(fs, home, i);
      assert home[..|home|] == home;
    }
    assert home[..|home|] == home;
    assert IsReal(TreeFrom(fs.files.Keys, fs.dirs), home);
    WalkReal(TreeFrom(fs.files.Keys, fs.dirs), home, 0, 40);
    assert home[..0] == [] && home[0..] == home;
  }

  lemma PrunedHome(fs: Retention.Fs, home: Path)
    requires home != [] && home !in fs.dirs && home !in fs.files
    ensures Canonicalize(TreeFrom(fs.files.Keys, fs.dirs), Names(home)).None?
  {
    var after := TreeFrom(fs.files.Keys, fs.dirs);
    WalkStraight(after, [], home, after.maxLinks);
    assert [] + home == home;
    assert EntryAt(after, home).None?;
    if Canonicalize(after, Names(home)).Some? {
      CanonicalizeIdempotent(after, Names(home));
    }
  }
}
